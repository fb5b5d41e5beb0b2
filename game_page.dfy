/**
 * The game page of frontend/app/game/page.js: the score and the phase flags
 * (gameStarted, gameOver, isPaused, isClient) and the handlers that overwrite
 * them.  PageState and its transition functions state what each handler does;
 * the GamePage class holds the state and is proved against them.
 */
module GamePage {

  /** What the page shows: the start overlay, the running game, the pause overlay or the game-over overlay. */
  datatype Phase = NotStarted | Running | Paused | Over

  datatype PageState = PageState(
    score: int,
    gameStarted: bool,
    gameOver: bool,
    isPaused: bool,
    isClient: bool)

  function PhaseOf(s: PageState): Phase {
    if s.gameOver then Over
    else if !s.gameStarted then NotStarted
    else if s.isPaused then Paused
    else Running
  }

  /** The flag combinations the handlers can produce: over or paused only once started. */
  predicate Consistent(s: PageState) {
    (s.gameOver ==> s.gameStarted) && (s.isPaused ==> s.gameStarted)
  }

  /** useState's initial values, before the mount effect has run. */
  function Initial(): (s: PageState)
    ensures Consistent(s) && PhaseOf(s) == NotStarted && s.score == 0 && !s.isClient
  {
    PageState(0, false, false, false, false)
  }

  /** startGame: a no-op before the client has mounted; otherwise a fresh running game with score 0. */
  function AfterStart(s: PageState): (r: PageState)
    ensures !s.isClient ==> r == s
    ensures s.isClient ==> PhaseOf(r) == Running && r.score == 0 && r.isClient && !r.isPaused
    ensures Consistent(s) ==> Consistent(r)
  {
    if !s.isClient then s
    else s.(score := 0, gameStarted := true, gameOver := false, isPaused := false)
  }

  /** resetGame: a no-op before the client has mounted; otherwise back to the start overlay with score 0. */
  function AfterReset(s: PageState): (r: PageState)
    ensures !s.isClient ==> r == s
    ensures s.isClient ==> PhaseOf(r) == NotStarted && r.score == 0 && !r.gameStarted && !r.isPaused && r.isClient
    ensures Consistent(s) ==> Consistent(r)
  {
    if !s.isClient then s
    else s.(gameStarted := false, gameOver := false, score := 0, isPaused := false)
  }

  /** togglePause: flips isPaused only while a started game is not over. */
  function AfterTogglePause(s: PageState): (r: PageState)
    ensures r.score == s.score && r.gameStarted == s.gameStarted && r.gameOver == s.gameOver && r.isClient == s.isClient
    ensures r.isPaused != s.isPaused <==> s.gameStarted && !s.gameOver
    ensures PhaseOf(s) == Running ==> PhaseOf(r) == Paused
    ensures PhaseOf(s) == Paused ==> PhaseOf(r) == Running
    ensures PhaseOf(s) == NotStarted || PhaseOf(s) == Over ==> r == s
    ensures Consistent(s) ==> Consistent(r)
  {
    if s.gameStarted && !s.gameOver then s.(isPaused := !s.isPaused) else s
  }

  /** handleGameOver: sets gameOver and nothing else. */
  function AfterGameOver(s: PageState): (r: PageState)
    ensures PhaseOf(r) == Over && r.score == s.score
    ensures r.(gameOver := s.gameOver) == s
    ensures Consistent(s) && s.gameStarted ==> Consistent(r)
  {
    s.(gameOver := true)
  }

  /** Pausing twice changes nothing. */
  lemma TogglePauseTwice(s: PageState)
    ensures AfterTogglePause(AfterTogglePause(s)) == s
  {
  }

  /**
   * The restart wired to the canvas is startGame, so from the game-over
   * overlay one restart gives a running game with score 0.
   */
  lemma RestartFromGameOver(s: PageState)
    requires s.isClient && PhaseOf(s) == Over
    ensures PhaseOf(AfterStart(s)) == Running && AfterStart(s).score == 0
  {
  }

  class GamePage {
    var score: int
    var gameStarted: bool
    var gameOver: bool
    var isPaused: bool
    var isClient: bool

    function State(): PageState
      reads this
    {
      PageState(score, gameStarted, gameOver, isPaused, isClient)
    }

    constructor ()
      ensures State() == Initial()
    {
      score, gameStarted, gameOver, isPaused, isClient := 0, false, false, false, false;
    }

    /** The mount effect: from now on the page runs on the client. */
    method Mount()
      modifies this
      ensures State() == old(State()).(isClient := true)
    {
      isClient := true;
    }

    method StartGame()
      modifies this
      ensures State() == AfterStart(old(State()))
    {
      if !isClient {
        return;
      }
      score := 0;
      gameStarted := true;
      gameOver := false;
      isPaused := false;
    }

    method ResetGame()
      modifies this
      ensures State() == AfterReset(old(State()))
    {
      if !isClient {
        return;
      }
      gameStarted := false;
      gameOver := false;
      score := 0;
      isPaused := false;
    }

    method TogglePause()
      modifies this
      ensures State() == AfterTogglePause(old(State()))
    {
      if gameStarted && !gameOver {
        isPaused := !isPaused;
      }
    }

    method HandleGameOver()
      modifies this
      ensures State() == AfterGameOver(old(State()))
    {
      gameOver := true;
    }

    /** The setScore the canvas receives, in its two uses: a value, or an increment of the previous score. */
    method SetScore(value: int)
      modifies this
      ensures State() == old(State()).(score := value)
    {
      score := value;
    }

    method AddToScore(points: int)
      modifies this
      ensures State() == old(State()).(score := old(score) + points)
    {
      score := score + points;
    }
  }
}
