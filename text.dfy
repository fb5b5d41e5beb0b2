/**
 * String helpers shared by the back end (Python's str.strip, f-strings) and the
 * front end (JavaScript's trim, padStart, filter/join).  Strings are sequences
 * of characters; only ASCII whitespace is recognised (see README).
 */
module Text {

  /** The whitespace that both Python's str.strip() and JavaScript's trim() remove. */
  predicate IsSpace(c: char) {
    c == ' ' || c == '\t' || c == '\n' || c == '\r' || c == '\U{B}' || c == '\U{C}'
  }

  predicate AllSpace(s: string) {
    forall i :: 0 <= i < |s| ==> IsSpace(s[i])
  }

  /** How many whitespace characters s starts with. */
  function LeadingSpaces(s: string): (k: nat)
    ensures k <= |s|
    ensures forall i :: 0 <= i < k ==> IsSpace(s[i])
    ensures k < |s| ==> !IsSpace(s[k])
  {
    if s == [] || !IsSpace(s[0]) then 0
    else
      var k := 1 + LeadingSpaces(s[1..]);
      assert forall i :: 1 <= i < k ==> s[i] == s[1..][i - 1];
      k
  }

  /** How many whitespace characters s ends with. */
  function TrailingSpaces(s: string): (k: nat)
    ensures k <= |s|
    ensures forall i :: |s| - k <= i < |s| ==> IsSpace(s[i])
    ensures k < |s| ==> !IsSpace(s[|s| - 1 - k])
  {
    if s == [] || !IsSpace(s[|s| - 1]) then 0
    else
      var k := 1 + TrailingSpaces(s[..|s| - 1]);
      assert forall i :: |s| - k <= i < |s| - 1 ==> s[i] == s[..|s| - 1][i];
      k
  }

  /** Drops leading whitespace: the suffix of s that starts at its first non-space. */
  function TrimStart(s: string): (r: string)
    ensures r != [] ==> !IsSpace(r[0])
  {
    s[LeadingSpaces(s)..]
  }

  /** Drops trailing whitespace: the prefix of s that ends at its last non-space. */
  function TrimEnd(s: string): (r: string)
    ensures r != [] ==> !IsSpace(r[|r| - 1])
  {
    s[..|s| - TrailingSpaces(s)]
  }

  /** Python's str.strip() with no argument and JavaScript's String.prototype.trim(). */
  function Trim(s: string): (r: string)
    ensures r != [] ==> !IsSpace(r[0]) && !IsSpace(r[|r| - 1])
    ensures r == [] <==> AllSpace(s)
  {
    var t := TrimStart(s);
    var r := TrimEnd(t);
    assert r == [] ==> t == [] by {
      if t != [] {
        assert !IsSpace(t[0]);
      }
    }
    r
  }

  /** Trimming cuts a run of spaces off each end of s and keeps what lies between, in place. */
  lemma TrimIsInfix(s: string)
    ensures exists i, j :: 0 <= i <= j <= |s| && Trim(s) == s[i..j] && AllSpace(s[..i]) && AllSpace(s[j..])
  {
    var i := LeadingSpaces(s);
    var t := s[i..];
    var m := TrailingSpaces(t);
    var j := |s| - m;
    assert Trim(s) == t[..|t| - m] == s[i..j];
    assert AllSpace(s[..i]) by {
      forall k | 0 <= k < i ensures IsSpace(s[..i][k]) {
        assert s[..i][k] == s[k];
      }
    }
    assert AllSpace(s[j..]) by {
      forall k | 0 <= k < |s| - j ensures IsSpace(s[j..][k]) {
        assert s[j..][k] == t[|t| - m + k];
      }
    }
  }

  /** Text that neither starts nor ends with a space is left as it is by trimming. */
  lemma TrimKeeps(s: string)
    requires s != [] && !IsSpace(s[0]) && !IsSpace(s[|s| - 1])
    ensures TrimStart(s) == s && TrimEnd(s) == s && Trim(s) == s
  {
  }

  /** Text that does not start with a space is left as it is by TrimStart. */
  lemma TrimStartOfNonSpace(s: string)
    requires s != [] && !IsSpace(s[0])
    ensures TrimStart(s) == s
  {
  }

  /** A space in front of a string never survives trimming. */
  lemma TrimSpacePrefix(s: string)
    ensures Trim(" " + s) == Trim(s)
  {
    var k := LeadingSpaces(s);
    assert (" " + s)[1..] == s;
    assert LeadingSpaces(" " + s) == 1 + k;
    assert (" " + s)[1 + k..] == s[k..];
  }

  /** A space after a string never survives trimming. */
  lemma TrimSpaceSuffix(s: string)
    ensures Trim(s + " ") == Trim(s)
  {
    TrimStartOfSuffixed(s);
    if TrimStart(s) != [] {
      TrimEndOfSuffixed(TrimStart(s));
    }
  }

  /** Trimming the start of s and a space keeps that space unless s is all spaces. */
  lemma TrimStartOfSuffixed(s: string)
    ensures TrimStart(s + " ") == if TrimStart(s) == [] then [] else TrimStart(s) + " "
  {
    LeadingSpacesOfSuffixed(s);
    var k := LeadingSpaces(s);
    if k < |s| {
      assert (s + " ")[k..] == s[k..] + " ";
    }
  }

  /** A space at the end is dropped by TrimEnd. */
  lemma TrimEndOfSuffixed(t: string)
    ensures TrimEnd(t + " ") == TrimEnd(t)
  {
    var v := t + " ";
    assert v[..|v| - 1] == t;
    assert TrailingSpaces(v) == 1 + TrailingSpaces(t);
    assert v[..|v| - TrailingSpaces(v)] == t[..|t| - TrailingSpaces(t)];
  }

  /** Appending a space adds to the leading spaces only of text made of spaces. */
  lemma {:induction false} LeadingSpacesOfSuffixed(s: string)
    ensures LeadingSpaces(s + " ") == if LeadingSpaces(s) == |s| then |s| + 1 else LeadingSpaces(s)
  {
    if s == [] {
      assert [] + " " == " ";
    } else if IsSpace(s[0]) {
      assert (s + " ")[1..] == s[1..] + " ";
      LeadingSpacesOfSuffixed(s[1..]);
    } else {
      assert (s + " ")[0] == s[0];
    }
  }

  /** JavaScript's String.prototype.padStart(width, fill) for a one-character fill. */
  function PadStart(s: string, width: nat, fill: char): (r: string)
    ensures |r| == if |s| < width then width else |s|
    ensures forall i :: 0 <= i < |r| - |s| ==> r[i] == fill
  {
    if |s| < width then seq(width - |s|, _ => fill) + s else s
  }

  /** Padding keeps the text itself at the end. */
  lemma PadStartKeepsText(s: string, width: nat, fill: char)
    ensures var r := PadStart(s, width, fill); r[|r| - |s|..] == s
  {
  }

  /** The strings of parts, in order, each followed by sep except the last (Array.prototype.join). */
  function Join(parts: seq<string>, sep: string): (r: string)
    ensures parts == [] ==> r == []
    ensures |parts| == 1 ==> r == parts[0]
  {
    if parts == [] then []
    else if |parts| == 1 then parts[0]
    else parts[0] + sep + Join(parts[1..], sep)
  }

  /** The non-empty strings of parts, in order (Array.prototype.filter(Boolean) on strings). */
  function NonEmpty(parts: seq<string>): (r: seq<string>)
    ensures |r| <= |parts|
    ensures forall i :: 0 <= i < |r| ==> r[i] != [] && r[i] in parts
    ensures forall p :: p in parts && p != [] ==> p in r
  {
    if parts == [] then []
    else if parts[0] == [] then NonEmpty(parts[1..])
    else [parts[0]] + NonEmpty(parts[1..])
  }

  /**
   * Filtering distributes over concatenation, and keeps a single string
   * exactly when it is not empty.
   */
  lemma {:induction false} NonEmptyAppend(a: seq<string>, b: seq<string>, x: string)
    ensures NonEmpty(a + b) == NonEmpty(a) + NonEmpty(b)
    ensures NonEmpty([x]) == if x == [] then [] else [x]
  {
    if a == [] {
      assert a + b == b;
    } else {
      assert (a + b)[1..] == a[1..] + b;
      NonEmptyAppend(a[1..], b, x);
    }
  }

  /** The index of the first c in s, or |s| when there is none. */
  function IndexOf(s: string, c: char): (k: nat)
    ensures k <= |s| && c !in s[..k]
    ensures k < |s| ==> s[k] == c
  {
    if s == [] || s[0] == c then 0
    else
      var k := 1 + IndexOf(s[1..], c);
      assert s[..k] == [s[0]] + s[1..][..k - 1];
      k
  }

  /** The first c in a + b, when a holds none and b starts with one, is where b starts. */
  lemma {:induction false} IndexOfJoin(a: string, b: string, c: char)
    requires c !in a && b != [] && b[0] == c
    ensures IndexOf(a + b, c) == |a|
  {
    if a != [] {
      assert (a + b)[1..] == a[1..] + b;
      assert a[0] != c;
      IndexOfJoin(a[1..], b, c);
    }
  }
}
