/**
 * The dashboard page (frontend/app/dashboard/page.tsx): a mock leaderboard
 * with avatars into which, on mount, the player's stored high score is
 * merged as a "You" row when it is positive.  Unlike the Leaderboard
 * component it keeps every row (no top-ten cut) and first removes any
 * earlier "You" row.
 */
module Dashboard {
  import opened Wrappers
  import Decimal
  import Ranking
  import Leaderboard

  datatype Player = Player(id: int, username: string, score: int, avatar: string)

  function PlayerScore(p: Player): int {
    p.score
  }

  const YouName: string := "You"

  const MockLeaderboard: seq<Player> := [
    Player(1, "CosmicQueen", 870, "Q"),
    Player(2, "NebulaWarrior", 760, "N"),
    Player(3, "StarDust42", 690, "S"),
    Player(4, "GalaxyRider", 520, "G"),
    Player(5, "AstroNova", 480, "A"),
    Player(6, "VoidWalker", 450, "V"),
    Player(7, "PlanetHopper", 410, "P"),
    Player(8, "MoonChild", 350, "M"),
    Player(9, "CometCatcher", 320, "C"),
    Player(10, "SolarFlare", 300, "S")
  ]

  /** The row the player's own score becomes. */
  function You(score: int): Player {
    Player(999, YouName, score, "Y")
  }

  /** `filter(player => player.username !== 'You')`: every row not named "You", in order. */
  function WithoutYou(players: seq<Player>): (r: seq<Player>)
    ensures |r| <= |players|
    ensures forall p :: multiset(r)[p] == if p.username == YouName then 0 else multiset(players)[p]
  {
    if players == [] then []
    else
      assert players == [players[0]] + players[1..];
      var rest := WithoutYou(players[1..]);
      if players[0].username == YouName then rest else [players[0]] + rest
  }

  /** The rows left when the player's row is added: the others, then "You", sorted by descending score. */
  function MergeLocalScore(board: seq<Player>, score: int): seq<Player> {
    Ranking.SortByScore(WithoutYou(board) + [You(score)], PlayerScore)
  }

  /**
   * After the merge the board holds exactly one "You" row, the one carrying
   * the new score, next to every other row of the old board unchanged.
   */
  lemma MergeKeepsOneYou(board: seq<Player>, score: int, p: Player)
    ensures multiset(MergeLocalScore(board, score))[p] ==
      if p.username == YouName then (if p == You(score) then 1 else 0) else multiset(board)[p]
  {
    Ranking.SortPermutes(WithoutYou(board) + [You(score)], PlayerScore);
  }

  /** The merged board is ordered by descending score. */
  lemma MergeIsOrdered(board: seq<Player>, score: int)
    ensures Ranking.SortedDesc(MergeLocalScore(board, score), PlayerScore)
  {
    Ranking.SortIsOrdered(WithoutYou(board) + [You(score)], PlayerScore);
  }

  /** Merging twice is merging the second score once: the filter drops the first "You" row. */
  lemma MergeReplacesYou(board: seq<Player>, first: int, second: int)
    ensures multiset(MergeLocalScore(MergeLocalScore(board, first), second)) == multiset(MergeLocalScore(board, second))
  {
    var once := MergeLocalScore(board, first);
    var twice := MergeLocalScore(once, second);
    var direct := MergeLocalScore(board, second);
    forall p: Player ensures multiset(twice)[p] == multiset(direct)[p] {
      MergeKeepsOneYou(board, first, p);
      MergeKeepsOneYou(once, second, p);
      MergeKeepsOneYou(board, second, p);
    }
  }

  lemma MockOrdered()
    ensures Ranking.SortedDesc(MockLeaderboard, PlayerScore)
  {
  }

  /** The mock board has no "You" row. */
  lemma MockHasNoYou()
    ensures forall i :: 0 <= i < |MockLeaderboard| ==> MockLeaderboard[i].username != YouName
  {
  }

  lemma {:induction false} NoYouKept(players: seq<Player>)
    requires forall i :: 0 <= i < |players| ==> players[i].username != YouName
    ensures WithoutYou(players) == players
  {
    if players != [] {
      NoYouKept(players[1..]);
    }
  }

  /**
   * Merged into an ordered board without a "You" row, the new row lands
   * behind every row scoring at least as much and ahead of the rest; no row
   * is dropped.
   */
  lemma MergeIntoOrdered(board: seq<Player>, score: int)
    requires Ranking.SortedDesc(board, PlayerScore)
    requires forall i :: 0 <= i < |board| ==> board[i].username != YouName
    ensures var k := Ranking.TiesBefore(You(score), board, PlayerScore);
      MergeLocalScore(board, score) == board[..k] + [You(score)] + board[k..]
  {
    NoYouKept(board);
    Ranking.SortAppended(board, You(score), PlayerScore);
  }

  /** On the mock board that gives eleven rows, with "You" in front of the first row it beats. */
  lemma MergeIntoMock(score: int)
    ensures var k := Ranking.TiesBefore(You(score), MockLeaderboard, PlayerScore);
      MergeLocalScore(MockLeaderboard, score) == MockLeaderboard[..k] + [You(score)] + MockLeaderboard[k..]
    ensures |MergeLocalScore(MockLeaderboard, score)| == 11
  {
    MockOrdered();
    MockHasNoYou();
    MergeIntoOrdered(MockLeaderboard, score);
  }

  /** The page's state: the parsed local high score (None is NaN) and the rows shown. */
  class DashboardPage {
    var localHighScore: Option<int>
    var leaderboardData: seq<Player>

    constructor ()
      ensures localHighScore == Some(0) && leaderboardData == MockLeaderboard
    {
      localHighScore := Some(0);
      leaderboardData := MockLeaderboard;
    }

    /**
     * The mount effect: a truthy stored item is parsed into localHighScore,
     * and a positive score is merged into a fresh copy of the mock board.
     */
    method LoadHighScore(item: Option<string>)
      modifies this
      ensures !Leaderboard.Truthy(item) ==>
        localHighScore == old(localHighScore) && leaderboardData == old(leaderboardData)
      ensures Leaderboard.Truthy(item) ==> localHighScore == Decimal.ParseJsInt(item.value)
      ensures leaderboardData ==
        if Leaderboard.Truthy(item) && localHighScore.Some? && localHighScore.value > 0
        then MergeLocalScore(MockLeaderboard, localHighScore.value)
        else old(leaderboardData)
    {
      if Leaderboard.Truthy(item) {
        var score := Decimal.ParseJsInt(item.value);
        localHighScore := score;
        var updatedLeaderboard := MockLeaderboard;
        if score.Some? && score.value > 0 {
          leaderboardData := MergeLocalScore(updatedLeaderboard, score.value);
        }
      }
    }
  }
}
