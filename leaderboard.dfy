/**
 * The Leaderboard component (frontend/app/components/Leaderboard.js).  With
 * USE_DUMMY_DATA on, the rows shown are the ten dummy scores, merged with the
 * player's own high score from local storage when it is positive.  The
 * localStorage item 'snakeHighScore' is an Option<string> (None when absent);
 * the server's answer is a FetchOutcome.
 */
module Leaderboard {
  import opened Wrappers
  import Decimal
  import Ranking

  datatype Entry = Entry(id: int, username: string, score: int)

  function EntryScore(e: Entry): int {
    e.score
  }

  /** USE_DUMMY_DATA as shipped: on, so the server's rows are never shown.  The functions below take the flag as a parameter. */
  const UseDummyData: bool := true

  /** The id and name the merged entry of the player gets. */
  const UserEntryId: int := 999
  const UserName: string := "You"

  /** How many rows addUserScoreToLeaderboard keeps. */
  const TopCount: nat := 10

  /** The high score the development effect seeds when none is stored. */
  const TestHighScore: int := 550

  const DummyScores: seq<Entry> := [
    Entry(1, "CosmicQueen", 870),
    Entry(2, "NebulaWarrior", 760),
    Entry(3, "StarDust42", 690),
    Entry(4, "GalaxyRider", 520),
    Entry(5, "AstroNova", 480),
    Entry(6, "VoidWalker", 450),
    Entry(7, "PlanetHopper", 410),
    Entry(8, "MoonChild", 350),
    Entry(9, "CometCatcher", 320),
    Entry(10, "SolarFlare", 300)
  ]

  function UserEntry(score: int): Entry {
    Entry(UserEntryId, UserName, score)
  }

  /** What the server's getLeaderboard resolved to, or that it threw. */
  datatype ApiData = NotArray | Rows(rows: seq<Entry>)
  datatype FetchOutcome = Threw | Returned(data: ApiData)

  /** A localStorage item that is present and not the empty string (JavaScript truthiness of a string). */
  predicate Truthy(item: Option<string>) {
    item.Some? && item.value != ""
  }

  /**
   * The development effect: with dummy data on and no truthy high score
   * stored, "550" is stored; otherwise the item is left alone.
   */
  function SeededHighScore(useDummyData: bool, item: Option<string>): (r: Option<string>)
    ensures useDummyData ==> Truthy(r)
    ensures Truthy(item) || !useDummyData ==> r == item
    ensures !Truthy(item) && useDummyData ==> r == Some(Decimal.ShowInt(TestHighScore))
  {
    if useDummyData && !Truthy(item) then Some(Decimal.ShowInt(TestHighScore)) else item
  }

  /**
   * getUserHighScore: parseInt of the stored item when it is truthy, else 0.
   * None stands for NaN, which is never greater than 0.
   */
  function UserHighScore(item: Option<string>): Option<int> {
    if Truthy(item) then Decimal.ParseJsInt(item.value) else Some(0)
  }

  /** A score stored as its decimal rendering reads back unchanged; nothing stored reads as 0. */
  lemma UserHighScoreReadsBack(n: int)
    ensures UserHighScore(Some(Decimal.ShowInt(n))) == Some(n)
    ensures UserHighScore(None) == Some(0) && UserHighScore(Some("")) == Some(0)
  {
    Decimal.JsIntReadsRendered(n, []);
    assert Decimal.ShowInt(n) + [] == Decimal.ShowInt(n);
  }

  /** The seeded test score is what getUserHighScore then reads. */
  lemma SeededScoreIsRead()
    ensures UserHighScore(SeededHighScore(UseDummyData, None)) == Some(TestHighScore)
  {
    UserHighScoreReadsBack(TestHighScore);
  }

  /** addUserScoreToLeaderboard: append the player's entry, sort by descending score, keep the first ten. */
  function AddUserScore(data: seq<Entry>, userHighScore: int): seq<Entry> {
    Ranking.Top(Ranking.SortByScore(data + [UserEntry(userHighScore)], EntryScore), TopCount)
  }

  /**
   * The merged board is a top-ten of the data plus the player's entry:
   * ordered by descending score, as long as it can be, drawn from those
   * entries, and nothing left out outscores anything kept.
   */
  lemma AddUserScoreIsTopTen(data: seq<Entry>, userHighScore: int, r: seq<Entry>)
    requires r == AddUserScore(data, userHighScore)
    ensures Ranking.SortedDesc(r, EntryScore)
    ensures |r| == if |data| + 1 < TopCount then |data| + 1 else TopCount
    ensures multiset(r) <= multiset(data + [UserEntry(userHighScore)])
    ensures forall x, y :: x in multiset(data + [UserEntry(userHighScore)]) - multiset(r) && y in r ==>
      EntryScore(x) <= EntryScore(y)
  {
    Ranking.TopIsBest(data + [UserEntry(userHighScore)], TopCount, EntryScore);
  }

  /**
   * On an already ordered board the player's entry is slotted in behind
   * every entry with an equal or higher score, and the last row falls off.
   */
  lemma AddUserScoreSlotsIn(data: seq<Entry>, userHighScore: int)
    requires Ranking.SortedDesc(data, EntryScore)
    ensures var k := Ranking.TiesBefore(UserEntry(userHighScore), data, EntryScore);
      AddUserScore(data, userHighScore) == Ranking.Top(data[..k] + [UserEntry(userHighScore)] + data[k..], TopCount)
  {
    Ranking.SortAppended(data, UserEntry(userHighScore), EntryScore);
  }

  lemma DummyScoresOrdered()
    ensures Ranking.SortedDesc(DummyScores, EntryScore)
  {
  }

  /**
   * On a full ordered board of ten the player gets a row exactly when their
   * score beats the tenth entry; a tie with it loses, as the sort is stable
   * and the player's entry comes last.
   */
  lemma PlayerMakesBoard(data: seq<Entry>, userHighScore: int)
    requires Ranking.SortedDesc(data, EntryScore) && |data| == TopCount
    requires UserEntry(userHighScore) !in data
    ensures UserEntry(userHighScore) in AddUserScore(data, userHighScore) <==> userHighScore > data[TopCount - 1].score
  {
    var you := UserEntry(userHighScore);
    AddUserScoreSlotsIn(data, userHighScore);
    Ranking.AppendedMakesTop(data, you, TopCount, EntryScore);
    var k := Ranking.TiesBefore(you, data, EntryScore);
    var merged := data[..k] + [you] + data[k..];
    var r := AddUserScore(data, userHighScore);
    assert r == merged[..TopCount];
    if k < TopCount {
      assert r[k] == you;
    } else {
      assert merged == data + [you];
      assert r == data;
    }
  }

  /** No dummy entry is the player's: their ids run from 1 to 10. */
  lemma PlayerNotADummy(userHighScore: int)
    ensures UserEntry(userHighScore) !in DummyScores
  {
    forall i | 0 <= i < |DummyScores| ensures DummyScores[i].id != UserEntryId {
    }
  }

  /** Against the dummy board the player gets a row exactly when their score beats SolarFlare's 300. */
  lemma PlayerOnDummyBoard(userHighScore: int)
    ensures UserEntry(userHighScore) in AddUserScore(DummyScores, userHighScore) <==> userHighScore > 300
  {
    DummyScoresOrdered();
    PlayerNotADummy(userHighScore);
    PlayerMakesBoard(DummyScores, userHighScore);
  }

  /** The development/fallback branch: the dummy scores, merged with the stored high score when it is positive. */
  function FallbackScores(item: Option<string>): seq<Entry> {
    var high := UserHighScore(item);
    if high.Some? && high.value > 0 then AddUserScore(DummyScores, high.value) else DummyScores
  }

  /**
   * The rows fetchLeaderboard shows: the dummy scores when the request threw;
   * otherwise the server's rows only when dummy data is off and they are a
   * non-empty array, else the fallback.
   */
  function FetchedScores(useDummyData: bool, outcome: FetchOutcome, item: Option<string>): seq<Entry> {
    if outcome.Threw? then DummyScores
    else if !useDummyData && outcome.data.Rows? && |outcome.data.rows| > 0 then outcome.data.rows
    else FallbackScores(item)
  }

  /**
   * With dummy data on, what the server answers never matters: the board is
   * ten rows, ordered, made of dummy entries and possibly the player's entry
   * carrying the stored high score, which must then be positive.
   */
  lemma FetchedScoresIgnoreServer(outcome: FetchOutcome, item: Option<string>)
    ensures outcome.Returned? ==>
      FetchedScores(UseDummyData, outcome, item) == FetchedScores(UseDummyData, Returned(NotArray), item)
    ensures |FetchedScores(UseDummyData, outcome, item)| == TopCount
    ensures Ranking.SortedDesc(FetchedScores(UseDummyData, outcome, item), EntryScore)
    ensures forall e :: e in FetchedScores(UseDummyData, outcome, item) ==>
      e in DummyScores || (UserHighScore(item).Some? && e == UserEntry(UserHighScore(item).value) && e.score > 0)
  {
    DummyScoresOrdered();
    var high := UserHighScore(item);
    if outcome.Returned? && high.Some? && high.value > 0 {
      MergedBoardShape(DummyScores, high.value);
    }
  }

  /**
   * A request that threw shows the dummy board as it is, whether dummy data
   * is on or off: the stored high score is not merged in.
   */
  lemma FailedFetchShowsDummies(useDummyData: bool, item: Option<string>)
    ensures FetchedScores(useDummyData, Threw, item) == DummyScores
    ensures forall n :: UserEntry(n) !in FetchedScores(useDummyData, Threw, item)
  {
  }

  /** Merging into a board of ten keeps ten rows, in order, each a row of the board or the player's entry. */
  lemma MergedBoardShape(data: seq<Entry>, userHighScore: int)
    requires |data| == TopCount
    ensures var r := AddUserScore(data, userHighScore);
      && |r| == TopCount
      && Ranking.SortedDesc(r, EntryScore)
      && forall e :: e in r ==> e in data || e == UserEntry(userHighScore)
  {
    var r := AddUserScore(data, userHighScore);
    AddUserScoreIsTopTen(data, userHighScore, r);
    forall e | e in r ensures e in data || e == UserEntry(userHighScore) {
      assert e in multiset(r);
      assert e in multiset(data + [UserEntry(userHighScore)]);
    }
  }

  /** With dummy data off, a non-empty array from the server is shown exactly as it came. */
  lemma ServerRowsShown(rows: seq<Entry>, item: Option<string>)
    requires rows != []
    ensures FetchedScores(false, Returned(Rows(rows)), item) == rows
    ensures FetchedScores(false, Returned(Rows([])), item) == FetchedScores(true, Returned(NotArray), item)
  {
  }

  /** The component's state: the rows shown, whether they are loading, and the stored high score. */
  class LeaderboardView {
    /** USE_DUMMY_DATA. */
    const useDummyData: bool
    var scores: seq<Entry>
    var loading: bool
    /** localStorage.getItem('snakeHighScore'). */
    var highScoreItem: Option<string>

    constructor (useDummyData: bool, item: Option<string>)
      ensures this.useDummyData == useDummyData
      ensures scores == [] && loading && highScoreItem == item
    {
      this.useDummyData := useDummyData;
      scores := [];
      loading := true;
      highScoreItem := item;
    }

    /** The development effect that seeds a test high score. */
    method SeedTestScore()
      modifies this`highScoreItem
      ensures highScoreItem == SeededHighScore(useDummyData, old(highScoreItem))
    {
      if useDummyData && !Truthy(highScoreItem) {
        highScoreItem := Some(Decimal.ShowInt(TestHighScore));
      }
    }

    /** fetchLeaderboard once the request has settled. */
    method FetchLeaderboard(outcome: FetchOutcome)
      modifies this`scores, this`loading
      ensures scores == FetchedScores(useDummyData, outcome, highScoreItem) && !loading
    {
      loading := true;
      if outcome.Threw? {
        scores := DummyScores;
      } else if !useDummyData && outcome.data.Rows? && |outcome.data.rows| > 0 {
        scores := outcome.data.rows;
      } else {
        var leaderboardData := DummyScores;
        var userHighScore := UserHighScore(highScoreItem);
        if userHighScore.Some? && userHighScore.value > 0 {
          leaderboardData := AddUserScore(leaderboardData, userHighScore.value);
        }
        scores := leaderboardData;
      }
      loading := false;
    }
  }
}
