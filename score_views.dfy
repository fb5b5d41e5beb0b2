/**
 * The score endpoints of backend/scores/views.py over a store of Score
 * records.  SubmitScoreView.post is a chain of guards ending in an append to
 * the store; LeaderboardView.get is the ten best records by descending score.
 * A value of the request body is a RawValue: JSON and form data give
 * strings, numbers, booleans, null, lists and dictionaries, or the key is
 * missing.
 */
module ScoreViews {
  import opened Wrappers
  import Decimal
  import Ranking
  import opened ScoreModel

  /** A value read from request.data; a list or dictionary keeps only whether it is empty. */
  datatype RawValue = Missing | Null | Bool(b: bool) | Int(i: int) | Text(s: string) | Composite(empty: bool)

  /** Python truthiness, as tested by `if not score`. */
  predicate Truthy(v: RawValue) {
    match v
    case Missing => false
    case Null => false
    case Bool(b) => b
    case Int(i) => i != 0
    case Text(s) => s != ""
    case Composite(empty) => !empty
  }

  datatype PyError = ValueError | TypeError

  /**
   * Python's int(v), also what an IntegerField does with the value it is
   * given on save: booleans are 0 and 1, strings are parsed, a string that
   * is not a number is a ValueError, None, lists and dictionaries a TypeError.
   */
  function ToInt(v: RawValue): (r: Result<int, PyError>)
    ensures v.Int? ==> r == Ok(v.i)
    ensures v.Bool? ==> r == Ok(if v.b then 1 else 0)
    ensures r == Err(ValueError) ==> v.Text?
  {
    match v
    case Missing => Err(TypeError)
    case Null => Err(TypeError)
    case Bool(b) => Ok(if b then 1 else 0)
    case Int(i) => Ok(i)
    case Text(s) => (var n := Decimal.ParsePyInt(s); if n.Some? then Ok(n.value) else Err(ValueError))
    case Composite(_) => Err(TypeError)
  }

  /** A number sent as its decimal text converts back to that number. */
  lemma TextConverts(n: int)
    ensures ToInt(Text(Decimal.ShowInt(n))) == Ok(n)
  {
    Decimal.RenderThenParse(n);
  }

  /** How a submission ends. */
  datatype Outcome =
    | MissingScore
    | InvalidScore
    | ServerError
    | Retained(id: nat, score: int)
    | Created(id: nat, score: int)
  {
    /** The HTTP status of the response. */
    function Status(): int {
      match this
      case MissingScore => 400
      case InvalidScore => 400
      case ServerError => 500
      case Retained(_, _) => 200
      case Created(_, _) => 201
    }

    /** The `error` field of a failed response. */
    function ErrorCode(): Option<string> {
      match this
      case MissingScore => Some("missing_score")
      case InvalidScore => Some("invalid_score")
      case ServerError => Some("server_error")
      case _ => None
    }
  }

  predicate OwnedBy(s: Score, user: string) {
    s.user == user
  }

  /**
   * `Score.objects.filter(user=...).order_by('-score').first()`: a record of
   * the user with the highest score (the earliest stored among equals), or
   * None when the user has none.
   */
  function Best(records: seq<Score>, user: string): (r: Option<Score>)
    ensures r.None? <==> forall s :: s in records ==> !OwnedBy(s, user)
    ensures r.Some? ==> r.value in records && OwnedBy(r.value, user)
    ensures r.Some? ==> forall s :: s in records && OwnedBy(s, user) ==> s.score <= r.value.score
  {
    if records == [] then None
    else
      var rest := Best(records[1..], user);
      assert forall s :: s in records ==> s == records[0] || s in records[1..];
      if !OwnedBy(records[0], user) then rest
      else if rest.None? || records[0].score >= rest.value.score then Some(records[0])
      else rest
  }

  /** The highest score the user has stored, if any. */
  function BestScore(records: seq<Score>, user: string): Option<int> {
    var b := Best(records, user);
    if b.Some? then Some(b.value.score) else None
  }

  /** The response for an exception raised by a conversion: ValueError is caught as invalid_score, anything else as server_error. */
  function Failure(e: PyError): (o: Outcome)
    ensures o.Status() == if e == ValueError then 400 else 500
  {
    if e == ValueError then InvalidScore else ServerError
  }

  /**
   * post, as written: the outcome and the record appended, if any.  A falsy
   * score is missing; a score int() rejects fails; a best record at least as
   * high is kept; otherwise a record is created, where converting
   * time_played (default 0) can fail in the same two ways, and where the
   * database refuses a value outside the column's range, which the generic
   * handler answers as a server error.  Nothing checks the validators of the
   * record.
   */
  function SubmitAsWritten(records: seq<Score>, nextId: nat, user: string, score: RawValue, timePlayed: RawValue): (Outcome, Option<Score>) {
    if !Truthy(score) then (MissingScore, None)
    else
      var time := if timePlayed.Missing? then Int(DefaultTimePlayed) else timePlayed;
      match ToInt(score)
      case Err(e) => (Failure(e), None)
      case Ok(value) =>
        var best := Best(records, user);
        if best.Some? && best.value.score >= value then (Retained(best.value.id, best.value.score), None)
        else
          match ToInt(time)
          case Err(e) => (Failure(e), None)
          case Ok(t) =>
            if !InColumnRange(value) || !InColumnRange(t) then (ServerError, None)
            else (Created(nextId, value), Some(Score(nextId, user, value, t)))
  }

  /**
   * post with the record's validators applied where each value is
   * converted: a negative score or time played, or one outside the column's
   * range, is an invalid score.
   */
  function Submit(records: seq<Score>, nextId: nat, user: string, score: RawValue, timePlayed: RawValue): (Outcome, Option<Score>) {
    if !Truthy(score) then (MissingScore, None)
    else
      var time := if timePlayed.Missing? then Int(DefaultTimePlayed) else timePlayed;
      match ToInt(score)
      case Err(e) => (Failure(e), None)
      case Ok(value) =>
        if !Validated(value) then (InvalidScore, None)
        else
          var best := Best(records, user);
          if best.Some? && best.value.score >= value then (Retained(best.value.id, best.value.score), None)
          else
            match ToInt(time)
            case Err(e) => (Failure(e), None)
            case Ok(t) =>
              if !Validated(t) then (InvalidScore, None)
              else (Created(nextId, value), Some(Score(nextId, user, value, t)))
  }

  /**
   * As written, a user's first negative score is stored (201) although
   * full_clean rejects the record, whether it is sent as a JSON number or
   * as form text; only below the column's range does the database refuse it.
   */
  lemma SubmitAsWrittenStoresNegative(records: seq<Score>, nextId: nat, user: string, n: int)
    requires n < 0 && forall s :: s in records ==> !OwnedBy(s, user)
    ensures var answer := if InColumnRange(n) then (Created(nextId, n), Some(Score(nextId, user, n, DefaultTimePlayed)))
                          else (ServerError, None);
      && SubmitAsWritten(records, nextId, user, Int(n), Missing) == answer
      && SubmitAsWritten(records, nextId, user, Text(Decimal.ShowInt(n)), Missing) == answer
    ensures !Clean(Score(nextId, user, n, DefaultTimePlayed))
  {
    TextConverts(n);
  }

  /**
   * A score above the column's range that beats the user's best reaches the
   * insert, which the database refuses: 500 server_error and nothing stored.
   * With the validators applied it is an invalid score instead.
   */
  lemma AboveColumnRangeFails(records: seq<Score>, nextId: nat, user: string, n: int, timePlayed: RawValue)
    requires n > ColumnMax && forall s :: s in records && OwnedBy(s, user) ==> s.score < n
    requires ToInt(if timePlayed.Missing? then Int(DefaultTimePlayed) else timePlayed).Ok?
    ensures SubmitAsWritten(records, nextId, user, Int(n), timePlayed) == (ServerError, None)
    ensures ServerError.Status() == 500
    ensures Submit(records, nextId, user, Int(n), timePlayed) == (InvalidScore, None)
  {
  }

  /**
   * The checked submission stores only records that pass full_clean, and
   * rejects every score below 0 or outside the column's range.
   */
  lemma SubmitKeepsClean(records: seq<Score>, nextId: nat, user: string, score: RawValue, timePlayed: RawValue)
    ensures var (outcome, rec) := Submit(records, nextId, user, score, timePlayed);
      && (rec.Some? ==> Clean(rec.value))
      && (Truthy(score) && ToInt(score).Ok? && !Validated(ToInt(score).value) ==> outcome == InvalidScore && rec == None)
  {
  }

  /**
   * The check changes nothing else: where the two differ, the checked one
   * answers invalid_score because the score, or the time played it went on
   * to convert, failed a validator.
   */
  lemma CheckOnlyRejects(records: seq<Score>, nextId: nat, user: string, score: RawValue, timePlayed: RawValue)
    ensures var checked := Submit(records, nextId, user, score, timePlayed);
      var written := SubmitAsWritten(records, nextId, user, score, timePlayed);
      var time := ToInt(if timePlayed.Missing? then Int(DefaultTimePlayed) else timePlayed);
      checked != written ==>
        && checked == (InvalidScore, None)
        && Truthy(score) && ToInt(score).Ok?
        && (!Validated(ToInt(score).value) || (time.Ok? && !Validated(time.value)))
  {
  }

  /** A falsy score (missing, null, false, 0, "" or empty) is a 400 missing_score and stores nothing. */
  lemma FalsyScoreIsMissing(records: seq<Score>, nextId: nat, user: string, score: RawValue, timePlayed: RawValue)
    requires !Truthy(score)
    ensures SubmitAsWritten(records, nextId, user, score, timePlayed) == (MissingScore, None)
    ensures Submit(records, nextId, user, score, timePlayed) == (MissingScore, None)
    ensures MissingScore.Status() == 400 && MissingScore.ErrorCode() == Some("missing_score")
  {
  }

  /** A non-empty string that is not an integer is a 400 invalid_score and stores nothing. */
  lemma NonNumberIsInvalid(records: seq<Score>, nextId: nat, user: string, s: string, timePlayed: RawValue)
    requires s != [] && Decimal.ParsePyInt(s).None?
    ensures SubmitAsWritten(records, nextId, user, Text(s), timePlayed) == (InvalidScore, None)
    ensures Submit(records, nextId, user, Text(s), timePlayed) == (InvalidScore, None)
  {
  }

  /**
   * The store's answer decides between keeping and creating: when the user's
   * best is at least the submitted score the best is reported with 200 and
   * nothing is stored; when it is lower, or there is none, a time played
   * (default 0) that int() accepts gives the one new record, carrying the
   * user, the score and the time, and 201 echoes the score, unless the
   * database refuses a value outside the column's range (500); a time int()
   * rejects fails as the score would.  Nothing is stored on a failure.
   */
  lemma KeepOrCreate(records: seq<Score>, nextId: nat, user: string, score: RawValue, timePlayed: RawValue)
    requires Truthy(score) && ToInt(score).Ok?
    ensures var value := ToInt(score).value;
      var best := Best(records, user);
      var time := ToInt(if timePlayed.Missing? then Int(DefaultTimePlayed) else timePlayed);
      var (outcome, rec) := SubmitAsWritten(records, nextId, user, score, timePlayed);
      && (best.Some? && best.value.score >= value ==>
            outcome == Retained(best.value.id, best.value.score) && rec == None)
      && (best.None? || best.value.score < value ==>
            if time.Err? then
              outcome == Failure(time.error) && rec == None
            else if InColumnRange(value) && InColumnRange(time.value) then
              && outcome == Created(nextId, value) && outcome.Status() == 201
              && rec == Some(Score(nextId, user, value, time.value))
            else
              outcome == ServerError && outcome.Status() == 500 && rec == None)
      && (timePlayed.Missing? && rec.Some? ==> rec.value.timePlayed == DefaultTimePlayed)
  {
    var value := ToInt(score).value;
    var time := if timePlayed.Missing? then Int(DefaultTimePlayed) else timePlayed;
    var best := Best(records, user);
    var res := SubmitAsWritten(records, nextId, user, score, timePlayed);
    assert ToInt(score) == Ok(value);
    if best.Some? && best.value.score >= value {
      assert res == (Retained(best.value.id, best.value.score), None);
    } else if ToInt(time).Ok? && InColumnRange(value) && InColumnRange(ToInt(time).value) {
      assert res == (Created(nextId, value), Some(Score(nextId, user, value, ToInt(time).value)));
    } else if ToInt(time).Ok? {
      assert res == (ServerError, None);
    } else {
      assert res == (Failure(ToInt(time).error), None);
    }
  }

  /** The store after a submission: the record appended, if there is one. */
  function After(records: seq<Score>, rec: Option<Score>): seq<Score> {
    if rec.Some? then records + [rec.value] else records
  }

  /**
   * After a successful submission the user's best stored score is the larger
   * of the previous best and the submitted score; other users' bests do not move.
   */
  lemma BestAfterSubmit(records: seq<Score>, nextId: nat, user: string, score: RawValue, timePlayed: RawValue, other: string)
    requires other != user
    ensures var (outcome, rec) := SubmitAsWritten(records, nextId, user, score, timePlayed);
      var after := After(records, rec);
      && BestScore(after, other) == BestScore(records, other)
      && (outcome.Retained? || outcome.Created? ==>
            && ToInt(score).Ok?
            && BestScore(after, user) == Some(
                 var prev := BestScore(records, user);
                 if prev.Some? && prev.value >= ToInt(score).value then prev.value else ToInt(score).value))
  {
    var (outcome, rec) := SubmitAsWritten(records, nextId, user, score, timePlayed);
    SubmitSucceeds(records, nextId, user, score, timePlayed);
    if rec.Some? {
      BestScoreAppended(records, rec.value, user);
      BestScoreAppended(records, rec.value, other);
    }
  }

  /** The checked submission moves the bests in the same way, since it only turns some successes into invalid_score. */
  lemma BestAfterCheckedSubmit(records: seq<Score>, nextId: nat, user: string, score: RawValue, timePlayed: RawValue, other: string)
    requires other != user
    ensures var (outcome, rec) := Submit(records, nextId, user, score, timePlayed);
      var after := After(records, rec);
      && BestScore(after, other) == BestScore(records, other)
      && (outcome.Retained? || outcome.Created? ==>
            && ToInt(score).Ok?
            && BestScore(after, user) == Some(
                 var prev := BestScore(records, user);
                 if prev.Some? && prev.value >= ToInt(score).value then prev.value else ToInt(score).value))
  {
    CheckOnlyRejects(records, nextId, user, score, timePlayed);
    BestAfterSubmit(records, nextId, user, score, timePlayed, other);
  }

  /** What a successful submission says about the user's previous best and the record it creates. */
  lemma SubmitSucceeds(records: seq<Score>, nextId: nat, user: string, score: RawValue, timePlayed: RawValue)
    ensures var (outcome, rec) := SubmitAsWritten(records, nextId, user, score, timePlayed);
      var prev := BestScore(records, user);
      && (rec.Some? <==> outcome.Created?)
      && (outcome.Retained? ==>
            ToInt(score).Ok? && prev == Some(outcome.score) && outcome.score >= ToInt(score).value)
      && (outcome.Created? ==>
            && ToInt(score).Ok? && rec.value.user == user && rec.value.score == ToInt(score).value
            && (prev.None? || prev.value < ToInt(score).value))
  {
  }

  /** Appending a record raises its user's best to its score when higher and leaves every other best alone. */
  lemma BestScoreAppended(records: seq<Score>, x: Score, u: string)
    ensures var prev := BestScore(records, u);
      BestScore(records + [x], u) ==
        if !OwnedBy(x, u) || (prev.Some? && prev.value >= x.score) then prev else Some(x.score)
  {
    var after := records + [x];
    assert forall s :: s in after <==> s in records || s == x;
  }

  /** LeaderboardView.get: the first ten records in the default ordering. */
  function Leaderboard(records: seq<Score>): seq<Score> {
    Ranking.Top(DefaultOrder(records), 10)
  }

  /**
   * The leaderboard holds at most ten records, in descending score, all
   * stored, and no stored record left off it outscores one on it.
   */
  lemma LeaderboardIsTopTen(records: seq<Score>)
    ensures var r := Leaderboard(records);
      && |r| == (if |records| < 10 then |records| else 10)
      && Ranking.SortedDesc(r, ScoreOf)
      && multiset(r) <= multiset(records)
      && forall x, y :: x in multiset(records) - multiset(r) && y in r ==> ScoreOf(x) <= ScoreOf(y)
  {
    Ranking.TopIsBest(records, 10, ScoreOf);
  }

  /** The store of Score records, with the next id the database would give. */
  class ScoreStore {
    var records: seq<Score>
    var nextId: nat

    /** Every record has an id below nextId and values the columns can hold. */
    ghost predicate Valid()
      reads this
    {
      forall i :: 0 <= i < |records| ==> records[i].id < nextId && Storable(records[i])
    }

    /** Every record passes full_clean. */
    ghost predicate AllClean()
      reads this
    {
      forall i :: 0 <= i < |records| ==> Clean(records[i])
    }

    constructor ()
      ensures records == [] && nextId == 1 && Valid()
    {
      records := [];
      nextId := 1;
    }

    /**
     * SubmitScoreView.post for an authenticated user: the guards in order,
     * then `Score.objects.create`, which appends the record and uses up an
     * id without running the record's validators; the database refuses a
     * value outside the column's range.
     */
    method SubmitScore(user: string, score: RawValue, timePlayed: RawValue) returns (outcome: Outcome)
      requires Valid()
      modifies this
      ensures Valid()
      ensures var (o, rec) := SubmitAsWritten(old(records), old(nextId), user, score, timePlayed);
        && outcome == o
        && records == After(old(records), rec)
        && nextId == (if rec.Some? then old(nextId) + 1 else old(nextId))
    {
      ghost var answer := SubmitAsWritten(records, nextId, user, score, timePlayed);
      if !Truthy(score) {
        return MissingScore;
      }
      var time := if timePlayed.Missing? then Int(DefaultTimePlayed) else timePlayed;
      var converted := ToInt(score);
      if converted.Err? {
        assert answer == (Failure(converted.error), None);
        return Failure(converted.error);
      }
      var value := converted.value;
      var existing := Best(records, user);
      if existing.Some? && existing.value.score >= value {
        assert answer == (Retained(existing.value.id, existing.value.score), None);
        return Retained(existing.value.id, existing.value.score);
      }
      var t := ToInt(time);
      if t.Err? {
        assert answer == (Failure(t.error), None);
        return Failure(t.error);
      }
      if !InColumnRange(value) || !InColumnRange(t.value) {
        assert answer == (ServerError, None);
        return ServerError;
      }
      var created := Score(nextId, user, value, t.value);
      assert answer == (Created(nextId, value), Some(created));
      records := records + [created];
      nextId := nextId + 1;
      outcome := Created(created.id, created.score);
    }

    /**
     * The submission with the record's validators applied to the score and
     * the time played: a store whose records all pass full_clean keeps that
     * property.
     */
    method SubmitScoreChecked(user: string, score: RawValue, timePlayed: RawValue) returns (outcome: Outcome)
      requires Valid()
      modifies this
      ensures Valid()
      ensures old(AllClean()) ==> AllClean()
      ensures var (o, rec) := Submit(old(records), old(nextId), user, score, timePlayed);
        && outcome == o
        && records == After(old(records), rec)
        && nextId == (if rec.Some? then old(nextId) + 1 else old(nextId))
    {
      ghost var answer := Submit(records, nextId, user, score, timePlayed);
      if !Truthy(score) {
        return MissingScore;
      }
      var time := if timePlayed.Missing? then Int(DefaultTimePlayed) else timePlayed;
      var converted := ToInt(score);
      if converted.Err? {
        assert answer == (Failure(converted.error), None);
        return Failure(converted.error);
      }
      var value := converted.value;
      if !Validated(value) {
        assert answer == (InvalidScore, None);
        return InvalidScore;
      }
      var existing := Best(records, user);
      if existing.Some? && existing.value.score >= value {
        assert answer == (Retained(existing.value.id, existing.value.score), None);
        return Retained(existing.value.id, existing.value.score);
      }
      var t := ToInt(time);
      if t.Err? {
        assert answer == (Failure(t.error), None);
        return Failure(t.error);
      }
      if !Validated(t.value) {
        assert answer == (InvalidScore, None);
        return InvalidScore;
      }
      var created := Score(nextId, user, value, t.value);
      assert answer == (Created(nextId, value), Some(created));
      SubmitKeepsClean(old(records), old(nextId), user, score, timePlayed);
      records := records + [created];
      nextId := nextId + 1;
      outcome := Created(created.id, created.score);
    }

    /** LeaderboardView.get. */
    method GetLeaderboard() returns (top: seq<Score>)
      ensures top == Leaderboard(records)
    {
      top := Ranking.Top(DefaultOrder(records), 10);
    }
  }
}
