/**
 * The useRetrieveUser hook (frontend/hooks/use-retrieve-user.ts): the user
 * query is skipped while not authenticated, and once it has succeeded with
 * data the user is dispatched with a display_name derived from the names.
 * A JavaScript object is a map from property names to JsValue; a missing
 * property reads as undefined.
 */
module RetrieveUser {
  import opened Wrappers
  import Text
  import Decimal
  import Users

  datatype JsValue = Undefined | Null | Str(s: string) | Num(n: int) | Bool(b: bool)

  type JsObject = map<string, JsValue>

  const FirstName: string := "first_name"
  const LastName: string := "last_name"
  const Email: string := "email"
  const DisplayNameKey: string := "display_name"

  /** Reading a property: undefined when it is absent. */
  function Get(o: JsObject, key: string): JsValue {
    if key in o then o[key] else Undefined
  }

  /** JavaScript truthiness: undefined, null, "", 0 and false are falsy. */
  predicate Truthy(v: JsValue) {
    match v
    case Undefined => false
    case Null => false
    case Str(s) => s != ""
    case Num(n) => n != 0
    case Bool(b) => b
  }

  /**
   * A name field as `filter(Boolean)` and `join` see it: a falsy value is
   * dropped, a string joins as itself, a number as its decimal text and
   * true as "true".  Exactly the truthy values give text.
   */
  function NamePart(v: JsValue): (r: string)
    ensures r != "" <==> Truthy(v)
    ensures v.Str? ==> r == v.s
  {
    match v
    case Str(s) => s
    case Num(n) => if n == 0 then "" else Decimal.ShowInt(n)
    case Bool(b) => if b then "true" else ""
    case _ => ""
  }

  /**
   * `[first_name, last_name].filter(Boolean).join(' ').trim() || email`: the
   * non-empty names joined by one space and trimmed, or the email when that
   * is empty.
   */
  function DisplayName(data: JsObject): (r: JsValue)
    ensures r == Get(data, Email) || (r.Str? && r.s != [] && !Text.IsSpace(r.s[0]) && !Text.IsSpace(r.s[|r.s| - 1]))
  {
    var joined := Text.Join(Text.NonEmpty([NamePart(Get(data, FirstName)), NamePart(Get(data, LastName))]), " ");
    var trimmed := Text.Trim(joined);
    if trimmed != "" then Str(trimmed) else Get(data, Email)
  }

  /**
   * The hook shows the same name as the back end's `User.__str__`: for
   * string names and email, display_name is that label.
   */
  lemma DisplayNameIsUserLabel(data: JsObject, first: string, last: string, email: string)
    requires Get(data, FirstName) == Str(first) && Get(data, LastName) == Str(last) && Get(data, Email) == Str(email)
    ensures DisplayName(data) == Str(Users.UserLabel(first, last, email))
  {
    JoinedNames(first, last);
    TrimJoinedNames(first, last);
  }

  /** `[first, last].filter(Boolean).join(' ')`: the names that are not empty, with a space between two. */
  lemma JoinedNames(first: string, last: string)
    ensures Text.Join(Text.NonEmpty([first, last]), " ") ==
      if first == "" then last else if last == "" then first else first + " " + last
  {
    assert [first, last][1..] == [last] && [last][1..] == [];
    if first != "" && last != "" {
      assert Text.NonEmpty([last]) == [last];
      assert Text.NonEmpty([first, last]) == [first] + [last];
    }
  }

  /** Joining only the non-empty names trims to the same text as joining both with a space. */
  lemma TrimJoinedNames(first: string, last: string)
    ensures Text.Trim(if first == "" then last else if last == "" then first else first + " " + last) ==
      Text.Trim(first + " " + last)
  {
    if first == "" && last == "" {
      assert "" + " " + "" == " ";
      assert Text.AllSpace(" ");
    } else if first == "" {
      Text.TrimSpacePrefix(last);
      assert "" + " " + last == " " + last;
    } else if last == "" {
      Text.TrimSpaceSuffix(first);
      assert first + " " + "" == first + " ";
    }
  }

  /** With no truthy names the display name is the email; with only a first name, it is that one, trimmed. */
  lemma DisplayNameFallsBack(data: JsObject, name: string)
    ensures !Truthy(Get(data, FirstName)) && !Truthy(Get(data, LastName)) ==>
      DisplayName(data) == Get(data, Email)
    ensures Get(data, FirstName) == Str(name) && !Truthy(Get(data, LastName)) && !Text.AllSpace(name) ==>
      DisplayName(data) == Str(Text.Trim(name))
  {
    assert Text.NonEmpty(["", ""]) == [];
    if Get(data, FirstName) == Str(name) && !Truthy(Get(data, LastName)) && name != "" {
      assert Text.NonEmpty([name, ""]) == [name];
    }
  }

  /**
   * A first name that is a number other than 0, or true, is not dropped: with
   * no truthy last name the display name is its text and the email is not used.
   */
  lemma DisplayNameOfNonString(data: JsObject, n: int)
    requires !Truthy(Get(data, LastName))
    ensures Get(data, FirstName) == Num(n) && n != 0 ==> DisplayName(data) == Str(Decimal.ShowInt(n))
    ensures Get(data, FirstName) == Bool(true) ==> DisplayName(data) == Str("true")
  {
    var first := NamePart(Get(data, FirstName));
    if first != "" {
      assert Text.NonEmpty([first, ""]) == [first];
      if Get(data, FirstName) == Num(n) {
        Text.TrimKeeps(first);
      } else if Get(data, FirstName) == Bool(true) {
        Text.TrimKeeps("true");
      }
    }
  }

  /** The state of the user query: whether it succeeded and the data it holds. */
  datatype QueryState = QueryState(isSuccess: bool, data: Option<JsObject>)

  /** What the server would answer to the request. */
  datatype ServerReply = Failed | Answered(body: Option<JsObject>)

  /** useRetrieveUserQuery with `skip: !isAuthenticated`: a skipped query neither succeeds nor has data. */
  function RunQuery(isAuthenticated: bool, reply: ServerReply): QueryState {
    if !isAuthenticated then QueryState(false, None)
    else match reply
      case Failed => QueryState(false, None)
      case Answered(body) => QueryState(true, body)
  }

  /**
   * The effect: nothing unless the query succeeded with data; then the user
   * is every property of the data, with display_name set.
   */
  function Dispatched(q: QueryState): Option<JsObject> {
    if !q.isSuccess || q.data.None? then None
    else Some(q.data.value[DisplayNameKey := DisplayName(q.data.value)])
  }

  /** Nothing is dispatched while not authenticated, nor when the request failed or returned no data. */
  lemma NoDispatchWithoutUser(isAuthenticated: bool, reply: ServerReply)
    ensures !isAuthenticated || reply == Failed || reply == Answered(None) ==>
      Dispatched(RunQuery(isAuthenticated, reply)) == None
  {
  }

  /**
   * A dispatched user has the properties of the data plus display_name,
   * every other property copied unchanged, and display_name derived from
   * the names.
   */
  lemma DispatchedCopiesData(isAuthenticated: bool, reply: ServerReply)
    ensures var d := Dispatched(RunQuery(isAuthenticated, reply));
      d.Some? <==> isAuthenticated && reply.Answered? && reply.body.Some?
    ensures var d := Dispatched(RunQuery(isAuthenticated, reply));
      d.Some? ==>
        var data := reply.body.value;
        && d.value.Keys == data.Keys + {DisplayNameKey}
        && (forall k :: k in data && k != DisplayNameKey ==> d.value[k] == data[k])
        && d.value[DisplayNameKey] == DisplayName(data)
  {
  }
}
