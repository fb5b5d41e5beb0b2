/**
 * The canvas component of frontend/app/game/GameCanvas.js: its refs become the
 * fields of GameCanvas, its callbacks become methods.  The page state it reads
 * and updates through props (score, gameStarted, gameOver, isPaused and the
 * handlers) is the GamePage object `page`.
 *
 * Randomness: each `Math.random() < CHANCE` test is a boolean parameter (see
 * Rolls), and each do-while rejection loop that draws random cells until one is
 * free is a nondeterministic choice of a free cell.
 */
module Canvas {
  import opened Wrappers
  import opened SnakeRules
  import GamePage
  import Decimal
  import Text

  /** WRAP_AROUND: off, so leaving the grid ends the game. */
  const WrapAround: bool := false

  /**
   * The outcomes of the random tests one tick can make: the power-up chance
   * inside createFood, the power-up chance of updateGame (a fifth of it) and
   * the bomb chance of updateGame.
   */
  datatype Rolls = Rolls(foodPowerUp: bool, tickPowerUp: bool, bomb: bool)

  /** formatTime: whole minutes and the remaining seconds, each padded to two digits, as "mm:ss". */
  function FormatTime(seconds: int): string {
    var minutes := Decimal.ShowInt(seconds / 60);
    var rest := Decimal.ShowInt(JsRem(seconds, 60));
    Text.PadStart(minutes, 2, '0') + ":" + Text.PadStart(rest, 2, '0')
  }

  /** Reads "mm:ss" (at least two digits of minutes, exactly two of seconds) back as a number of seconds. */
  function ClockSeconds(s: string): (r: Option<nat>)
    ensures r.Some? ==> |s| >= 5 && s[|s| - 3] == ':'
  {
    if |s| >= 5 && s[|s| - 3] == ':' && Decimal.AllDigits(s[..|s| - 3]) && Decimal.AllDigits(s[|s| - 2..])
    then Some(Decimal.Value(s[..|s| - 3]) * 60 + Decimal.Value(s[|s| - 2..]))
    else None
  }

  lemma {:induction false} ShortShow(n: nat)
    requires n < 100
    ensures 1 <= |Decimal.ShowNat(n)| <= 2
  {
    if n >= 10 {
      assert Decimal.ShowNat(n) == Decimal.ShowNat(n / 10) + [Decimal.DigitChar(n % 10)];
    }
  }

  /** A two-digit zero-padded rendering of n reads back as n. */
  lemma PaddedReadsBack(n: nat)
    requires n < 100
    ensures var p := Text.PadStart(Decimal.ShowNat(n), 2, '0');
      |p| == 2 && Decimal.AllDigits(p) && Decimal.Value(p) == n
  {
    var d := Decimal.ShowNat(n);
    ShortShow(n);
    Decimal.ValueOfShowNat(n);
    var p := Text.PadStart(d, 2, '0');
    assert p == seq(2 - |d|, _ => '0') + d;
    Decimal.ValueOfZeroPadded(2 - |d|, d);
  }

  /** Padding to at least two digits keeps the value of the minutes. */
  lemma PaddedMinutes(n: nat)
    ensures var p := Text.PadStart(Decimal.ShowNat(n), 2, '0');
      |p| >= 2 && Decimal.AllDigits(p) && Decimal.Value(p) == n
  {
    var d := Decimal.ShowNat(n);
    Decimal.ValueOfShowNat(n);
    if |d| < 2 {
      assert Text.PadStart(d, 2, '0') == seq(2 - |d|, _ => '0') + d;
      Decimal.ValueOfZeroPadded(2 - |d|, d);
    }
  }

  /** "m:s" with at least two digits of minutes and exactly two of seconds reads back by place value. */
  lemma ClockOfParts(m: string, sec: string, minutes: nat, rest: nat)
    requires |m| >= 2 && Decimal.AllDigits(m) && Decimal.Value(m) == minutes
    requires |sec| == 2 && Decimal.AllDigits(sec) && Decimal.Value(sec) == rest
    ensures ClockSeconds(m + ":" + sec) == Some(minutes * 60 + rest)
  {
    var f := m + ":" + sec;
    assert f[..|f| - 3] == m;
    assert f[|f| - 2..] == sec;
  }

  /** formatTime's two fields: the zero-padded minutes and the zero-padded seconds. */
  lemma FormatTimeFields(t: int)
    requires t >= 0
    ensures FormatTime(t) == Text.PadStart(Decimal.ShowNat(t / 60), 2, '0') + ":"
                             + Text.PadStart(Decimal.ShowNat(t % 60), 2, '0')
  {
  }

  /** formatTime loses nothing for a non-negative time: "mm:ss" reads back as the same number of seconds. */
  lemma FormatTimeReadsBack(t: int)
    requires t >= 0
    ensures ClockSeconds(FormatTime(t)) == Some(t)
  {
    FormatTimeFields(t);
    ClockOfTime(t);
  }

  /** A time's zero-padded minutes and seconds, joined by ':', read back as that time. */
  lemma ClockOfTime(t: nat)
    ensures ClockSeconds(Text.PadStart(Decimal.ShowNat(t / 60), 2, '0') + ":"
                         + Text.PadStart(Decimal.ShowNat(t % 60), 2, '0')) == Some(t)
  {
    var minutes, rest := t / 60, t % 60;
    var m := Text.PadStart(Decimal.ShowNat(minutes), 2, '0');
    var sec := Text.PadStart(Decimal.ShowNat(rest), 2, '0');
    PaddedMinutes(minutes);
    PaddedReadsBack(rest);
    ClockOfParts(m, sec, minutes, rest);
    MinutesAndSeconds(t);
  }

  /** Whole minutes and the remaining seconds make up the time again. */
  lemma MinutesAndSeconds(t: nat)
    ensures (t / 60) * 60 + t % 60 == t
  {
  }

  /** Below 100 minutes formatTime of a non-negative time is exactly five characters, "mm:ss". */
  lemma FormatTimeWidth(t: int)
    requires 0 <= t < 6000
    ensures |FormatTime(t)| == 5 && FormatTime(t)[2] == ':'
  {
    FormatTimeFields(t);
    WidthOfTime(t);
  }

  /** Below 100 minutes both zero-padded fields are two digits wide. */
  lemma WidthOfTime(t: nat)
    requires t < 6000
    ensures var face := Text.PadStart(Decimal.ShowNat(t / 60), 2, '0') + ":"
                        + Text.PadStart(Decimal.ShowNat(t % 60), 2, '0');
      |face| == 5 && face[2] == ':'
  {
    ShortShow(t / 60);
    ShortShow(t % 60);
  }

  class GameCanvas {
    /** The page whose state the canvas reads and updates through its props. */
    const page: GamePage.GamePage
    var snake: seq<Cell>
    var food: Option<Cell>
    var powerUp: Option<Cell>
    var bombs: seq<Cell>
    var direction: Direction
    var nextDirection: Direction
    /** previousGameOverRef: set by endGame and never cleared. */
    var previousGameOver: bool

    function Board(): Board
      reads this
    {
      SnakeRules.Board(snake, food, powerUp, bombs, direction, nextDirection)
    }

    /**
     * The ref invariant: bombs and the power-up lie on the grid, bombs are
     * distinct and at most MaxBombs, the pending direction never reverses the
     * current one, and a snake that is not cleared is part of a well-formed board.
     */
    ghost predicate Valid()
      reads this
    {
      && nextDirection != Opposite(direction)
      && |bombs| <= MaxBombs && AllInGrid(bombs) && Distinct(bombs)
      && (powerUp.Some? ==> InGrid(powerUp.value))
      && (snake != [] ==> WellFormed(Board()))
    }

    constructor (page: GamePage.GamePage)
      ensures this.page == page && Valid()
      ensures snake == [] && food == None && powerUp == None && bombs == []
      ensures direction == Right && nextDirection == Right && !previousGameOver
    {
      this.page := page;
      snake, food, powerUp, bombs := [], None, None, [];
      direction, nextDirection := Right, Right;
      previousGameOver := false;
    }

    /** Picks a cell off the given occupied cells (the rejection loop of the spawners). */
    static method FreeCell(occupied: seq<Cell>) returns (c: Cell)
      requires |occupied| < GridCells
      ensures InGrid(c) && c !in occupied
    {
      FreeCellExists(occupied);
      var k :| 0 <= k < GridCells && CellAt(k) !in occupied;
      c := CellAt(k);
    }

    /** createPowerUp: a reset power-up on a cell that is neither snake nor food. */
    method CreatePowerUp()
      requires |snake| + 1 < GridCells
      modifies this`powerUp
      ensures powerUp.Some? && PowerUpSpot(powerUp.value, snake, food)
    {
      var occupied := snake + (if food.Some? then [food.value] else []);
      var c := FreeCell(occupied);
      powerUp := Some(c);
    }

    /**
     * createFood: food on a cell off the snake; then, when there is no
     * power-up and the chance comes up, a power-up as well.
     */
    method CreateFood(powerUpRoll: bool)
      requires |snake| < GridCells
      requires powerUp.None? && powerUpRoll ==> |snake| + 1 < GridCells
      modifies this`food, this`powerUp
      ensures food.Some? && FoodSpot(food.value, snake)
      ensures if old(powerUp).None? && powerUpRoll
              then powerUp.Some? && PowerUpSpot(powerUp.value, snake, food)
              else powerUp == old(powerUp)
    {
      var c := FreeCell(snake);
      food := Some(c);
      if powerUp.None? && powerUpRoll {
        CreatePowerUp();
      }
    }

    /**
     * createBomb: nothing when MaxBombs bombs exist; otherwise one more bomb,
     * appended, on a cell free of snake, food, power-up and the other bombs.
     */
    method CreateBomb()
      requires |bombs| < MaxBombs ==> |snake| + |bombs| + 2 < GridCells
      modifies this`bombs
      ensures |old(bombs)| >= MaxBombs ==> bombs == old(bombs)
      ensures |old(bombs)| < MaxBombs ==>
        && |bombs| == |old(bombs)| + 1 && bombs[..|old(bombs)|] == old(bombs)
        && BombSpot(bombs[|bombs| - 1], snake, food, powerUp, old(bombs))
    {
      if |bombs| >= MaxBombs {
        return;
      }
      var occupied := snake + (if food.Some? then [food.value] else [])
        + (if powerUp.Some? then [powerUp.value] else []) + bombs;
      var c := FreeCell(occupied);
      bombs := bombs + [c];
    }

    /** The power-up's timer: whatever power-up is present when it fires disappears. */
    method ExpirePowerUp()
      requires Valid()
      modifies this`powerUp
      ensures Valid() && powerUp == None
    {
      if powerUp.Some? {
        powerUp := None;
      }
    }

    /** A bomb's timer: that bomb disappears, the others stay in order. */
    method ExpireBomb(bomb: Cell)
      requires Valid()
      modifies this`bombs
      ensures Valid() && bombs == RemoveCell(old(bombs), bomb)
    {
      bombs := RemoveCell(bombs, bomb);
    }

    /**
     * initializeGame: the three-segment snake at the centre facing right, both
     * directions right, new food, score 0.  Bombs and the power-up of the last
     * game are kept.
     */
    method InitializeGame(powerUpRoll: bool)
      requires Valid()
      modifies this`snake, this`direction, this`nextDirection, this`food, this`powerUp, page
      ensures Valid()
      ensures snake == InitialSnake() && direction == Right && nextDirection == Right
      ensures food.Some? && FoodSpot(food.value, snake)
      ensures if old(powerUp).None? && powerUpRoll
              then powerUp.Some? && PowerUpSpot(powerUp.value, snake, food)
              else powerUp == old(powerUp)
      ensures page.State() == old(page.State()).(score := 0)
    {
      snake := InitialSnake();
      direction := Right;
      nextDirection := Right;
      CreateFood(powerUpRoll);
      page.SetScore(0);
    }

    /** endGame: the page's handleGameOver, and the canvas remembers that a game ended. */
    method EndGame()
      modifies this`previousGameOver, page
      ensures previousGameOver
      ensures page.State() == GamePage.AfterGameOver(old(page.State()))
    {
      page.HandleGameOver();
      previousGameOver := true;
    }

    /**
     * The second half of updateGame, once the head is known to survive: put
     * it in front, then eat the food (grow, 10 points, new food), take the
     * power-up (cut to ResetLength segments, 100 points, power-up gone) or
     * drop the tail.
     */
    method MoveSnake(head: Cell, foodPowerUpRoll: bool)
      requires Valid() && snake != [] && |snake| + |bombs| + 3 < GridCells
      requires head == NewHead(Board(), WrapAround) && !TickOutcome(Board(), WrapAround).Fatal()
      modifies this`snake, this`food, this`powerUp, page
      ensures Valid() && snake != []
      ensures var b := old(Board());
        var o := TickOutcome(b, WrapAround);
        && snake == NextSnake(b, WrapAround)
        && page.State() == old(page.State()).(score := old(page.score) + Points(o))
        && (o == AteFood ==> food != b.food && FoodSpot(food.value, snake))
        && (o != AteFood ==> food == b.food)
        && (o == AteFood ==> if b.powerUp.None? && foodPowerUpRoll
                             then powerUp.Some? && PowerUpSpot(powerUp.value, snake, food)
                             else powerUp == b.powerUp)
        && (o == TookPowerUp ==> powerUp == None)
        && (o == Moved ==> powerUp == b.powerUp)
    {
      ghost var b := Board();
      TickKeepsSnake(b, WrapAround);
      var collidesWithFood := food == Some(head);
      var collidesWithPowerUp := powerUp == Some(head);
      snake := [head] + snake;
      if collidesWithFood {
        page.AddToScore(FoodPoints);
        CreateFood(foodPowerUpRoll);
      } else if collidesWithPowerUp {
        page.AddToScore(PowerUpPoints);
        while |snake| > ResetLength
          modifies this`snake
          invariant ResetLength <= |snake| <= |b.snake| + 1
          invariant snake == ([head] + b.snake)[..|snake|]
        {
          snake := snake[..|snake| - 1];
        }
        powerUp := None;
      } else {
        snake := snake[..|snake| - 1];
      }
      assert snake == NextSnake(b, WrapAround);
    }

    /**
     * The spawn chances at the end of updateGame: a power-up when there is
     * none and its roll comes up, then a bomb when its roll comes up and
     * fewer than MaxBombs exist.
     */
    method SpawnChances(rolls: Rolls)
      requires Valid() && snake != [] && |snake| + |bombs| + 2 < GridCells
      modifies this`powerUp, this`bombs
      ensures Valid()
      ensures old(powerUp).Some? ==> powerUp == old(powerUp)
      ensures old(powerUp).None? ==>
        if rolls.tickPowerUp then powerUp.Some? && PowerUpSpot(powerUp.value, snake, food)
        else powerUp == None
      ensures if rolls.bomb && |old(bombs)| < MaxBombs then
          && |bombs| == |old(bombs)| + 1 && bombs[..|old(bombs)|] == old(bombs)
          && BombSpot(bombs[|bombs| - 1], snake, food, powerUp, old(bombs))
        else bombs == old(bombs)
    {
      if powerUp.None? && rolls.tickPowerUp {
        CreatePowerUp();
      }
      if rolls.bomb && |bombs| < MaxBombs {
        ghost var before := bombs;
        CreateBomb();
        assert bombs == before + [bombs[|bombs| - 1]];
      }
    }

    /**
     * The rest of updateGame once the head survives: move the snake, then
     * give the power-up and the bomb their chance to spawn.
     */
    method Advance(head: Cell, rolls: Rolls)
      requires Valid() && snake != [] && |snake| + |bombs| + 3 < GridCells
      requires head == NewHead(Board(), WrapAround) && !TickOutcome(Board(), WrapAround).Fatal()
      modifies this`snake, this`food, this`powerUp, this`bombs, page
      ensures Valid() && snake != []
      ensures var b := old(Board());
        var o := TickOutcome(b, WrapAround);
        && snake == NextSnake(b, WrapAround)
        && page.State() == old(page.State()).(score := old(page.score) + Points(o))
        && (o == AteFood ==> food != b.food && FoodSpot(food.value, snake))
        && (o != AteFood ==> food == b.food)
        && (b.powerUp.Some? && o != TookPowerUp ==> powerUp == b.powerUp)
        && (b.powerUp.None? || o == TookPowerUp ==>
              if (o == AteFood && rolls.foodPowerUp) || rolls.tickPowerUp
              then powerUp.Some? && PowerUpSpot(powerUp.value, snake, food)
              else powerUp == None)
        && if rolls.bomb && |b.bombs| < MaxBombs then
             && |bombs| == |b.bombs| + 1 && bombs[..|b.bombs|] == b.bombs
             && BombSpot(bombs[|bombs| - 1], snake, food, powerUp, b.bombs)
           else bombs == b.bombs
    {
      MoveSnake(head, rolls.foodPowerUp);
      SpawnChances(rolls);
    }

    /**
     * updateGame: commit the pending direction, move the head, end the game
     * on a wall, body or bomb, else eat food, take the power-up or move on,
     * and finally give the power-up and the bomb their chance to spawn.
     * Every spawn lands on a free cell, so the board stays well formed.
     */
    method UpdateGame(rolls: Rolls)
      requires Valid() && snake != []
      requires |snake| + |bombs| + 3 < GridCells
      modifies this, page
      ensures Valid() && snake != []
      ensures direction == old(nextDirection) && nextDirection == old(nextDirection)
      ensures direction != Opposite(old(direction))
      ensures var b := old(Board());
        var o := TickOutcome(b, WrapAround);
        if o.Fatal() then
          && snake == b.snake && food == b.food && powerUp == b.powerUp && bombs == b.bombs
          && previousGameOver
          && page.State() == GamePage.AfterGameOver(old(page.State()))
        else
          && snake == NextSnake(b, WrapAround)
          && previousGameOver == old(previousGameOver)
          && page.State() == old(page.State()).(score := old(page.score) + Points(o))
          && (o == AteFood ==> food != b.food && FoodSpot(food.value, snake))
          && (o != AteFood ==> food == b.food)
          && (b.powerUp.Some? && o != TookPowerUp ==> powerUp == b.powerUp)
          && (b.powerUp.None? || o == TookPowerUp ==>
                if (o == AteFood && rolls.foodPowerUp) || rolls.tickPowerUp
                then powerUp.Some? && PowerUpSpot(powerUp.value, snake, food)
                else powerUp == None)
          && if rolls.bomb && |b.bombs| < MaxBombs then
               && |bombs| == |b.bombs| + 1 && bombs[..|b.bombs|] == b.bombs
               && BombSpot(bombs[|bombs| - 1], snake, food, powerUp, b.bombs)
             else bombs == b.bombs
    {
      ghost var b := Board();
      ghost var o := TickOutcome(b, WrapAround);
      direction := nextDirection;
      assert TickOutcome(Board(), WrapAround) == o;
      var head := Step(snake[0], direction);
      if !InGrid(head) {
        if WrapAround {
          head := Wrap(head);
        } else {
          assert o == HitWall;
          EndGame();
          return;
        }
      }
      if HitsBody(snake, head) {
        assert o == HitSelf;
        EndGame();
        return;
      }
      if head in bombs {
        assert o == HitBomb;
        EndGame();
        return;
      }
      assert !o.Fatal();
      Advance(head, rolls);
    }

    /**
     * The keydown handler: a direction key may change only the pending
     * direction, never to the reverse of the current one; Space pauses or
     * resumes a running game and, after game over, calls the restart prop,
     * which the page wires to startGame.
     */
    method KeyDown(key: string)
      requires Valid()
      modifies this`nextDirection, page
      ensures Valid()
      ensures nextDirection == match ActionOf(key)
                               case Turn(d) => Steer(direction, old(nextDirection), d)
                               case _ => old(nextDirection)
      ensures var s := old(page.State());
        page.State() == (if ActionOf(key) != PauseOrRestart then s
                         else if s.gameStarted && !s.gameOver then GamePage.AfterTogglePause(s)
                         else if s.gameOver then GamePage.AfterStart(s)
                         else s)
    {
      match ActionOf(key)
      case Turn(d) =>
        nextDirection := Steer(direction, nextDirection, d);
      case PauseOrRestart =>
        if page.gameStarted && !page.gameOver {
          page.TogglePause();
        } else if page.gameOver {
          page.StartGame();
        }
      case NoAction =>
    }

    /** The effect on gameOver/gameStarted: a restarted game after a game over clears the snake. */
    method OnPhaseChange()
      requires Valid()
      modifies this`snake
      ensures Valid()
      ensures snake == if !page.gameOver && previousGameOver && page.gameStarted then [] else old(snake)
    {
      if !page.gameOver && previousGameOver && page.gameStarted {
        snake := [];
      }
    }

    /** The game-loop effect: a running game with no snake is initialised before the loop starts. */
    method StartLoop(powerUpRoll: bool)
      requires Valid()
      modifies this`snake, this`direction, this`nextDirection, this`food, this`powerUp, page
      ensures Valid()
      ensures page.gameStarted && !page.gameOver && !page.isPaused ==> snake != []
      ensures old(snake) != [] || GamePage.PhaseOf(old(page.State())) != GamePage.Running ==>
        Board() == old(Board()) && page.State() == old(page.State())
      ensures old(snake) == [] && GamePage.PhaseOf(old(page.State())) == GamePage.Running ==>
        && snake == InitialSnake() && direction == Right && nextDirection == Right
        && food.Some? && FoodSpot(food.value, snake)
        && (if old(powerUp).None? && powerUpRoll
            then powerUp.Some? && PowerUpSpot(powerUp.value, snake, food)
            else powerUp == old(powerUp))
        && page.State() == old(page.State()).(score := 0)
    {
      if page.gameStarted && !page.gameOver && !page.isPaused && snake == [] {
        InitializeGame(powerUpRoll);
      }
    }

    /**
     * Space after a game over, followed by the effects it triggers: the
     * restart prop (startGame) gives a running game with score 0, the
     * phase effect clears the snake and the loop effect builds a new one.
     */
    method SpaceAfterGameOver(powerUpRoll: bool)
      requires Valid() && page.isClient && page.gameOver && previousGameOver
      modifies this, page
      ensures Valid()
      ensures GamePage.PhaseOf(page.State()) == GamePage.Running && page.score == 0
      ensures snake == InitialSnake() && direction == Right && nextDirection == Right
      ensures food.Some? && FoodSpot(food.value, snake)
    {
      KeyDown(" ");
      OnPhaseChange();
      StartLoop(powerUpRoll);
    }

    /**
     * One frame of the game loop whose elapsed-time gate has opened: a tick
     * runs only while the game is started, not over and not paused; otherwise
     * nothing changes.
     */
    method LoopFrame(rolls: Rolls)
      requires Valid()
      requires page.gameStarted && !page.gameOver && !page.isPaused ==>
        snake != [] && |snake| + |bombs| + 3 < GridCells
      modifies this, page
      ensures Valid()
      ensures GamePage.PhaseOf(old(page.State())) != GamePage.Running ==>
        Board() == old(Board()) && page.State() == old(page.State())
      ensures GamePage.PhaseOf(old(page.State())) == GamePage.Running ==>
        var b := old(Board());
        var o := TickOutcome(b, WrapAround);
        && direction == b.nextDirection && direction != Opposite(b.direction)
        && if o.Fatal() then
             && snake == b.snake && food == b.food && powerUp == b.powerUp && bombs == b.bombs
             && page.State() == GamePage.AfterGameOver(old(page.State()))
           else
             && snake == NextSnake(b, WrapAround)
             && page.State() == old(page.State()).(score := old(page.score) + Points(o))
    {
      if page.gameStarted && !page.gameOver && !page.isPaused {
        UpdateGame(rolls);
      }
    }

    /**
     * The Reset Game button, the Start Game button, and the effects each
     * triggers.  The phase effect clears the snake only once a game has ended
     * before, and the loop effect builds a snake only when there is none, so a
     * game reset before any game over resumes with its old snake, food,
     * power-up and directions, at score 0.
     */
    method ResetThenStart(powerUpRoll: bool)
      requires Valid() && page.isClient
      modifies this, page
      ensures Valid()
      ensures GamePage.PhaseOf(page.State()) == GamePage.Running && page.score == 0
      ensures !old(previousGameOver) && old(snake) != [] ==> Board() == old(Board())
      ensures old(previousGameOver) || old(snake) == [] ==>
        snake == InitialSnake() && direction == Right && nextDirection == Right
        && food.Some? && FoodSpot(food.value, snake)
    {
      page.ResetGame();
      OnPhaseChange();
      page.StartGame();
      OnPhaseChange();
      StartLoop(powerUpRoll);
    }
  }
}
