/**
 * The Score record of backend/scores/models.py: a user's score and time
 * played, both validated by full_clean to be at least 0 and within the
 * range of an integer column, a default time of
 * 0, a default ordering by descending score, and the string form
 * "<email>: <score> pts (<time_played>s)".
 */
module ScoreModel {
  import opened Wrappers
  import Text
  import Decimal
  import Ranking

  /** A stored score; `user` is the owner's email, which identifies the user. */
  datatype Score = Score(id: nat, user: string, score: int, timePlayed: int)

  /** The default of time_played. */
  const DefaultTimePlayed: int := 0

  /** The bound of the MinValueValidator on score and on time_played. */
  const MinValue: int := 0

  /**
   * The range of an IntegerField column on PostgreSQL, the database of the
   * CI settings: a signed 32-bit integer.  Django adds validators for it to
   * every IntegerField, and the database refuses to store a value outside it.
   */
  const ColumnMin: int := -0x8000_0000
  const ColumnMax: int := 0x7FFF_FFFF

  predicate InColumnRange(v: int) {
    ColumnMin <= v <= ColumnMax
  }

  /** A value the database can hold in the score and time_played columns. */
  predicate Storable(s: Score) {
    InColumnRange(s.score) && InColumnRange(s.timePlayed)
  }

  /** A value every validator of score and time_played accepts: at least 0 and within the column's range. */
  predicate Validated(v: int) {
    MinValue <= v && InColumnRange(v)
  }

  datatype Field = ScoreField | TimePlayedField

  /** The fields full_clean reports: each field below its minimum or outside the column's range. */
  function CleanErrors(s: Score): (errors: set<Field>)
    ensures ScoreField in errors <==> s.score < MinValue || s.score > ColumnMax
    ensures TimePlayedField in errors <==> s.timePlayed < MinValue || s.timePlayed > ColumnMax
    ensures errors <= {ScoreField, TimePlayedField}
    ensures errors == {} ==> Storable(s)
  {
    (if !Validated(s.score) then {ScoreField} else {})
      + (if !Validated(s.timePlayed) then {TimePlayedField} else {})
  }

  /** full_clean raises nothing. */
  predicate Clean(s: Score) {
    CleanErrors(s) == {}
  }

  /** A score of -5 fails validation on the score field, and on no other field unless the time is out of range. */
  lemma NegativeScoreRejected(id: nat, user: string, timePlayed: nat)
    ensures CleanErrors(Score(id, user, -5, timePlayed)) ==
      if timePlayed > ColumnMax then {ScoreField, TimePlayedField} else {ScoreField}
    ensures !Clean(Score(id, user, -5, timePlayed))
  {
    assert ScoreField in CleanErrors(Score(id, user, -5, timePlayed));
  }

  function ScoreOf(s: Score): int {
    s.score
  }

  /** The default ordering `['-score']`. */
  function DefaultOrder(records: seq<Score>): seq<Score> {
    Ranking.SortByScore(records, ScoreOf)
  }

  /** The default ordering is a rearrangement of the records with scores never increasing. */
  lemma DefaultOrderRanks(records: seq<Score>)
    ensures Ranking.SortedDesc(DefaultOrder(records), ScoreOf)
    ensures multiset(DefaultOrder(records)) == multiset(records)
  {
    Ranking.SortIsOrdered(records, ScoreOf);
    Ranking.SortPermutes(records, ScoreOf);
  }

  const PointsSep: string := " pts ("

  /** `__str__`: "<email>: <score> pts (<time_played>s)". */
  function Label(s: Score): string {
    s.user + ": " + Decimal.ShowInt(s.score) + PointsSep + Decimal.ShowInt(s.timePlayed) + "s)"
  }

  /**
   * Reads a label of the given user back into its score and time: the
   * email and ": ", then the fields.
   */
  function ReadLabel(text: string, user: string): Option<(int, int)> {
    var head := user + ": ";
    if |text| < |head| || text[..|head|] != head then None
    else ReadFields(text[|head|..])
  }

  /** The fields after the email: a number up to the first space, " pts (", a number, "s)". */
  function ReadFields(rest: string): Option<(int, int)> {
    var k := Text.IndexOf(rest, ' ');
    var tail := rest[k..];
    if |tail| < |PointsSep| + 2 || tail[..|PointsSep|] != PointsSep || tail[|tail| - 2..] != "s)" then None
    else
      var score := Decimal.ParsePyInt(rest[..k]);
      var time := Decimal.ParsePyInt(tail[|PointsSep|..|tail| - 2]);
      if score.Some? && time.Some? then Some((score.value, time.value)) else None
  }

  lemma ShowIntHasNoSpace(n: int)
    ensures ' ' !in Decimal.ShowInt(n)
  {
    var d := Decimal.ShowNat(if n < 0 then -n else n);
    assert forall i :: 0 <= i < |d| ==> d[i] != ' ';
    if n < 0 {
      assert Decimal.ShowInt(n) == "-" + d;
    }
  }

  /** The label loses nothing: its score and time read back unchanged. */
  lemma LabelReadsBack(s: Score)
    ensures ReadLabel(Label(s), s.user) == Some((s.score, s.timePlayed))
  {
    var rest := Decimal.ShowInt(s.score) + PointsSep + Decimal.ShowInt(s.timePlayed) + "s)";
    assert Label(s) == s.user + ": " + rest;
    ReadLabelOfHead(s.user, rest);
    FieldsReadBack(s.score, s.timePlayed);
  }

  /** A text that starts with the user's email and ": " is read by its fields. */
  lemma ReadLabelOfHead(user: string, rest: string)
    ensures ReadLabel(user + ": " + rest, user) == ReadFields(rest)
  {
    var head := user + ": ";
    assert (head + rest)[..|head|] == head;
    assert (head + rest)[|head|..] == rest;
  }

  /** The rendered score and time, joined as in the label, read back unchanged. */
  lemma FieldsReadBack(score: int, time: int)
    ensures ReadFields(Decimal.ShowInt(score) + PointsSep + Decimal.ShowInt(time) + "s)") == Some((score, time))
  {
    var a := Decimal.ShowInt(score);
    var b := Decimal.ShowInt(time);
    var tail := PointsSep + b + "s)";
    var rest := a + PointsSep + b + "s)";
    assert rest == a + tail;
    ShowIntHasNoSpace(score);
    Text.IndexOfJoin(a, tail, ' ');
    assert rest[..|a|] == a && rest[|a|..] == tail;
    TailFields(b);
    Decimal.RenderThenParse(score);
    Decimal.RenderThenParse(time);
  }

  /** The slices ReadFields takes of " pts (" + b + "s)". */
  lemma TailFields(b: string)
    ensures var tail := PointsSep + b + "s)";
      && |tail| >= |PointsSep| + 2
      && tail[..|PointsSep|] == PointsSep
      && tail[|tail| - 2..] == "s)"
      && tail[|PointsSep|..|tail| - 2] == b
  {
  }
}
