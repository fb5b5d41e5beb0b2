/**
 * The rules of the snake game in frontend/app/game/GameCanvas.js, stated on
 * values: the grid, cells and directions, the board that the canvas keeps in
 * its refs, and what one tick of updateGame does to it.  The GameCanvas class
 * (game_canvas.dfy) is proved against these functions.
 */
module SnakeRules {
  import opened Wrappers

  const GridWidth: int := 40
  const GridHeight: int := 30
  /** Number of cells on the board. */
  const GridCells: int := GridWidth * GridHeight
  const MaxBombs: nat := 3
  const FoodPoints: nat := 10
  const PowerUpPoints: nat := 100
  /** Length the reset power-up cuts the snake back to. */
  const ResetLength: nat := 3

  datatype Cell = Cell(x: int, y: int)

  datatype Direction = Up | Down | Left | Right

  predicate InGrid(c: Cell) {
    0 <= c.x < GridWidth && 0 <= c.y < GridHeight
  }

  predicate AllInGrid(cells: seq<Cell>) {
    forall i :: 0 <= i < |cells| ==> InGrid(cells[i])
  }

  predicate Distinct(cells: seq<Cell>) {
    forall i, j :: 0 <= i < j < |cells| ==> cells[i] != cells[j]
  }

  function Opposite(d: Direction): (r: Direction)
    ensures r != d && (r == Up || r == Down <==> d == Up || d == Down)
  {
    match d
    case Up => Down
    case Down => Up
    case Left => Right
    case Right => Left
  }

  /** The neighbour of c one cell in direction d (y grows downwards). */
  function Step(c: Cell, d: Direction): (r: Cell)
    ensures r != c
  {
    match d
    case Up => Cell(c.x, c.y - 1)
    case Down => Cell(c.x, c.y + 1)
    case Left => Cell(c.x - 1, c.y)
    case Right => Cell(c.x + 1, c.y)
  }

  /** A step and a step back in the opposite direction return to the start. */
  lemma StepBack(c: Cell, d: Direction)
    ensures Step(Step(c, d), Opposite(d)) == c
  {
  }

  /** JavaScript's `a % n`: the remainder takes the sign of a. */
  function JsRem(a: int, n: int): (r: int)
    requires n > 0
    ensures -n < r < n
    ensures a >= 0 ==> r == a % n
    ensures a < 0 ==> r <= 0 && (a - r) % n == 0
  {
    if a >= 0 then a % n
    else
      var r := -((-a) % n);
      assert (a - r) % n == 0 by { MultipleOf(-((-a) / n), n); }
      r
  }

  lemma {:induction false} MultipleOf(q: int, n: int)
    requires n > 0
    ensures (q * n) % n == 0
  {
    var x := q * n;
    var k := q - x / n;
    assert n * k == x % n;
  }

  /** The wrap-around branch of updateGame: `(x + GRID_WIDTH) % GRID_WIDTH`, likewise for y. */
  function Wrap(c: Cell): (r: Cell)
    ensures -GridWidth <= c.x <= GridWidth && -GridHeight <= c.y <= GridHeight ==> InGrid(r)
    ensures InGrid(c) ==> r == c
  {
    Cell(JsRem(c.x + GridWidth, GridWidth), JsRem(c.y + GridHeight, GridHeight))
  }

  /**
   * The self-collision test of updateGame: a segment other than the head
   * (index 0) and the tail (last index) lies on c.
   */
  predicate HitsBody(snake: seq<Cell>, c: Cell) {
    exists i :: 0 < i < |snake| - 1 && snake[i] == c
  }

  /** The three segments initializeGame lays out, head first, facing right at the centre. */
  function InitialSnake(): (r: seq<Cell>)
    ensures |r| == 3 && AllInGrid(r) && Distinct(r)
    ensures r[0] == Cell(GridWidth / 2, GridHeight / 2)
    ensures forall i :: 0 < i < |r| ==> r[i] == Step(r[i - 1], Left)
  {
    var cx, cy := GridWidth / 2, GridHeight / 2;
    [Cell(cx, cy), Cell(cx - 1, cy), Cell(cx - 2, cy)]
  }

  // ---------------------------------------------------------------- keys

  /** What the keydown handler does with a key. */
  datatype KeyAction = Turn(d: Direction) | PauseOrRestart | NoAction

  function ActionOf(key: string): KeyAction {
    if key == "w" || key == "ArrowUp" then Turn(Up)
    else if key == "s" || key == "ArrowDown" then Turn(Down)
    else if key == "a" || key == "ArrowLeft" then Turn(Left)
    else if key == "d" || key == "ArrowRight" then Turn(Right)
    else if key == " " then PauseOrRestart
    else NoAction
  }

  /**
   * The new pending direction after a direction key d: d, unless d is the
   * reverse of the current direction, in which case the pending direction
   * stays as it was.
   */
  function Steer(current: Direction, pending: Direction, d: Direction): (r: Direction)
    ensures r == (if d == Opposite(current) then pending else d)
    ensures pending != Opposite(current) ==> r != Opposite(current)
  {
    if current != Opposite(d) then d else pending
  }

  // ---------------------------------------------------------------- board

  /** The refs of the canvas: snake (head first), food, power-up, bombs, current and pending direction. */
  datatype Board = Board(
    snake: seq<Cell>,
    food: Option<Cell>,
    powerUp: Option<Cell>,
    bombs: seq<Cell>,
    direction: Direction,
    nextDirection: Direction)

  /**
   * What holds of the board of a game in progress: a snake of at least three
   * distinct cells on the grid, food on the grid and off the snake, a power-up
   * (if any) on the grid, at most MaxBombs distinct bombs on the grid, and a
   * pending direction that is not the reverse of the current one.  Bombs may
   * lie under the snake (initializeGame keeps the bombs of the last game), and
   * food may share a cell with a bomb or the power-up (createFood avoids only
   * the snake).
   */
  predicate WellFormed(b: Board) {
    && |b.snake| >= ResetLength
    && AllInGrid(b.snake)
    && Distinct(b.snake)
    && b.food.Some? && InGrid(b.food.value) && b.food.value !in b.snake
    && (b.powerUp.Some? ==> InGrid(b.powerUp.value))
    && |b.bombs| <= MaxBombs && AllInGrid(b.bombs) && Distinct(b.bombs)
    && b.nextDirection != Opposite(b.direction)
  }

  // ---------------------------------------------------------------- tick

  /** How a tick of updateGame ends. */
  datatype Outcome = HitWall | HitSelf | HitBomb | AteFood | TookPowerUp | Moved {
    predicate Fatal() {
      this == HitWall || this == HitSelf || this == HitBomb
    }
  }

  /** The cell the head moves to: one step in the pending direction, wrapped when wrap-around is on. */
  function NewHead(b: Board, wrap: bool): Cell
    requires b.snake != []
  {
    var h := Step(b.snake[0], b.nextDirection);
    if !InGrid(h) && wrap then Wrap(h) else h
  }

  /**
   * The checks of updateGame in their order: the wall, the body (head and
   * tail excluded), the bombs, then food before the power-up.
   */
  function TickOutcome(b: Board, wrap: bool): Outcome
    requires b.snake != []
  {
    var h := NewHead(b, wrap);
    if !InGrid(h) then HitWall
    else if HitsBody(b.snake, h) then HitSelf
    else if h in b.bombs then HitBomb
    else if b.food == Some(h) then AteFood
    else if b.powerUp == Some(h) then TookPowerUp
    else Moved
  }

  /** Points a tick adds to the score. */
  function Points(o: Outcome): nat {
    match o
    case AteFood => FoodPoints
    case TookPowerUp => PowerUpPoints
    case _ => 0
  }

  /**
   * The snake after a tick: unchanged on a fatal tick; otherwise the new head
   * is put in front and then the snake keeps its tail (food), is cut to
   * ResetLength segments (power-up) or loses its tail.
   */
  function NextSnake(b: Board, wrap: bool): seq<Cell>
    requires b.snake != []
  {
    var o := TickOutcome(b, wrap);
    var grown := [NewHead(b, wrap)] + b.snake;
    match o
    case AteFood => grown
    case TookPowerUp => if |grown| > ResetLength then grown[..ResetLength] else grown
    case Moved => grown[..|b.snake|]
    case _ => b.snake
  }

  /** With wrap-around off, a step off the grid ends the game and leaves the snake and the score alone. */
  lemma WallEndsGame(b: Board)
    requires b.snake != [] && !InGrid(Step(b.snake[0], b.nextDirection))
    ensures TickOutcome(b, false) == HitWall
    ensures NextSnake(b, false) == b.snake && Points(HitWall) == 0
  {
  }

  /** Moving onto the cell the tail is leaving is not a collision. */
  lemma {:induction false} TailCellIsSafe(b: Board, wrap: bool)
    requires WellFormed(b)
    requires NewHead(b, wrap) == b.snake[|b.snake| - 1]
    ensures TickOutcome(b, wrap) != HitSelf
    ensures InGrid(NewHead(b, wrap))
  {
  }

  /** Moving onto any other body segment ends the game (the bombs are not even looked at). */
  lemma BodyCellIsFatal(b: Board, wrap: bool, i: int)
    requires b.snake != [] && 0 < i < |b.snake| - 1
    requires InGrid(b.snake[i]) && NewHead(b, wrap) == b.snake[i]
    ensures TickOutcome(b, wrap) == HitSelf
    ensures NextSnake(b, wrap) == b.snake
  {
  }

  /** A bomb under the new head ends the game before the snake grows or the score changes. */
  lemma BombEndsGame(b: Board, wrap: bool)
    requires b.snake != [] && InGrid(NewHead(b, wrap))
    requires !HitsBody(b.snake, NewHead(b, wrap)) && NewHead(b, wrap) in b.bombs
    ensures TickOutcome(b, wrap) == HitBomb
    ensures NextSnake(b, wrap) == b.snake && Points(TickOutcome(b, wrap)) == 0
  {
  }

  /**
   * Food and the power-up on the same cell, under a head that survives: the
   * food test comes first, so the food is eaten, the snake grows and the
   * power-up is not taken.
   */
  lemma FoodBeforePowerUp(b: Board, wrap: bool)
    requires b.snake != [] && InGrid(NewHead(b, wrap))
    requires !HitsBody(b.snake, NewHead(b, wrap)) && NewHead(b, wrap) !in b.bombs
    requires b.food == Some(NewHead(b, wrap)) && b.powerUp == Some(NewHead(b, wrap))
    ensures TickOutcome(b, wrap) == AteFood && TickOutcome(b, wrap) != TookPowerUp
    ensures NextSnake(b, wrap) == [NewHead(b, wrap)] + b.snake
    ensures Points(TickOutcome(b, wrap)) == FoodPoints
  {
  }

  /**
   * On a tick that does not end the game the new head is on the grid at the
   * front of the snake, and the length grows by one (food), becomes
   * ResetLength (power-up, snake of at least that length) or stays (plain move).
   */
  lemma SurvivingTick(b: Board, wrap: bool)
    requires b.snake != [] && !TickOutcome(b, wrap).Fatal()
    ensures var s := NextSnake(b, wrap);
      && s[0] == NewHead(b, wrap) && InGrid(s[0])
      && s[1..] == b.snake[..|s| - 1]
      && |s| == match TickOutcome(b, wrap)
                case AteFood => |b.snake| + 1
                case TookPowerUp => if |b.snake| >= ResetLength then ResetLength else |b.snake| + 1
                case _ => |b.snake|
  {
  }

  /**
   * A tick that does not end the game keeps the snake well formed: at least
   * ResetLength distinct cells, all on the grid.  Food is off the new snake
   * unless it was just eaten, and the new head is not a bomb.
   */
  lemma {:induction false} TickKeepsSnake(b: Board, wrap: bool)
    requires WellFormed(b) && !TickOutcome(b, wrap).Fatal()
    ensures var s := NextSnake(b, wrap);
      && |s| >= ResetLength && AllInGrid(s) && Distinct(s)
      && (TickOutcome(b, wrap) != AteFood ==> b.food.value !in s)
      && s[0] !in b.bombs
  {
    var s := b.snake;
    var h := NewHead(b, wrap);
    var o := TickOutcome(b, wrap);
    var t := NextSnake(b, wrap);
    assert h != s[0] by {
      var st := Step(s[0], b.nextDirection);
      if !InGrid(st) && wrap {
        assert InGrid(s[0]);
      }
    }
    assert t == [h] + t[1..] && t[1..] == s[..|t| - 1];
    assert forall k :: 0 <= k < |t| - 1 ==> h != s[k] by {
      forall k | 0 <= k < |t| - 1 ensures h != s[k] {
        if k == 0 {
        } else if k < |s| - 1 {
          assert !HitsBody(s, h);
        } else {
          assert o == AteFood;
          assert b.food == Some(h);
          assert s[k] in s;
        }
      }
    }
    forall i, j | 0 <= i < j < |t| ensures t[i] != t[j] {
      if i > 0 {
        assert t[i] == s[i - 1] && t[j] == s[j - 1];
      } else {
        assert t[j] == s[j - 1];
      }
    }
    forall k | 0 <= k < |t| ensures InGrid(t[k]) {
      if k > 0 { assert t[k] == s[k - 1]; }
    }
  }

  /** What reaches the direction refs: a direction key, or a tick that commits the pending direction. */
  datatype Steering = Key(d: Direction) | Tick

  /**
   * The directions the ticks of events commit, in order, starting from the
   * current and the pending direction: a key steers the pending direction,
   * a tick makes it the current one.
   */
  function Committed(current: Direction, pending: Direction, events: seq<Steering>): seq<Direction>
    decreases |events|
  {
    if events == [] then []
    else match events[0]
      case Key(d) => Committed(current, Steer(current, pending, d), events[1..])
      case Tick => [pending] + Committed(pending, pending, events[1..])
  }

  /** Each direction of the sequence differs from the reverse of the one before it. */
  predicate NeverReverses(c: seq<Direction>) {
    forall i :: 0 < i < |c| ==> c[i] != Opposite(c[i - 1])
  }

  /**
   * Whatever keys are pressed between ticks, no tick turns the snake around:
   * each committed direction differs from the reverse of the one before it.
   */
  lemma {:induction false} NoReversal(current: Direction, pending: Direction, events: seq<Steering>)
    requires pending != Opposite(current)
    ensures NeverReverses([current] + Committed(current, pending, events))
    decreases |events|
  {
    if events != [] {
      match events[0]
      case Key(d) =>
        NoReversal(current, Steer(current, pending, d), events[1..]);
        var c := [current] + Committed(current, pending, events);
        var c' := [current] + Committed(current, Steer(current, pending, d), events[1..]);
        assert c == c';
      case Tick =>
        NoReversal(pending, pending, events[1..]);
        var rest := [pending] + Committed(pending, pending, events[1..]);
        var c := [current] + Committed(current, pending, events);
        assert c == [current] + rest;
        forall i | 0 < i < |c| ensures c[i] != Opposite(c[i - 1]) {
          if i > 1 {
            assert c[i] == rest[i - 1] && c[i - 1] == rest[i - 2];
          } else {
            assert c[1] == pending;
          }
        }
    }
  }

  // ---------------------------------------------------------------- spawning

  /** A cell createFood may pick: on the grid and off the snake. */
  predicate FoodSpot(c: Cell, snake: seq<Cell>) {
    InGrid(c) && c !in snake
  }

  /** A cell createPowerUp may pick: a food spot that is not the food. */
  predicate PowerUpSpot(c: Cell, snake: seq<Cell>, food: Option<Cell>) {
    FoodSpot(c, snake) && food != Some(c)
  }

  /** A cell createBomb may pick: a power-up spot that is neither the power-up nor a bomb. */
  predicate BombSpot(c: Cell, snake: seq<Cell>, food: Option<Cell>, powerUp: Option<Cell>, bombs: seq<Cell>) {
    PowerUpSpot(c, snake, food) && powerUp != Some(c) && c !in bombs
  }

  /** cells without c, in order: the filter a bomb's timer applies when it expires. */
  function RemoveCell(cells: seq<Cell>, c: Cell): (r: seq<Cell>)
    ensures |r| <= |cells|
    ensures forall x :: x in r <==> x in cells && x != c
    ensures Distinct(cells) ==> Distinct(r) && |r| == if c in cells then |cells| - 1 else |cells|
    ensures AllInGrid(cells) ==> AllInGrid(r)
  {
    if cells == [] then []
    else if cells[0] == c then
      assert Distinct(cells) ==> c !in cells[1..];
      RemoveCell(cells[1..], c)
    else
      var r := [cells[0]] + RemoveCell(cells[1..], c);
      assert Distinct(cells) ==> cells[0] !in cells[1..];
      r
  }

  // ---------------------------------------------------------------- free cells

  /** The cell with row-major index k; every grid cell has exactly one index. */
  function CellAt(k: int): (c: Cell)
    requires 0 <= k < GridCells
    ensures InGrid(c) && c.y * GridWidth + c.x == k
  {
    Cell(k % GridWidth, k / GridWidth)
  }

  /** xs without any occurrence of v. */
  function Without(xs: seq<int>, v: int): (r: seq<int>)
    ensures |r| <= |xs| && (v in xs ==> |r| < |xs|)
    ensures forall x :: x in r <==> x in xs && x != v
  {
    if xs == [] then []
    else if xs[0] == v then Without(xs[1..], v)
    else [xs[0]] + Without(xs[1..], v)
  }

  /** Pigeonhole: fewer than n numbers miss some number below n. */
  lemma {:induction false} MissingIndex(xs: seq<int>, n: nat)
    requires |xs| < n
    ensures exists k :: 0 <= k < n && k !in xs
    decreases n
  {
    if n - 1 !in xs {
      assert 0 <= n - 1 < n;
    } else {
      var rest := Without(xs, n - 1);
      MissingIndex(rest, n - 1);
      var k :| 0 <= k < n - 1 && k !in rest;
      assert k !in xs;
    }
  }

  /**
   * A board with fewer occupied cells than cells has a free one, so the
   * rejection loops of createFood, createPowerUp and createBomb can finish.
   */
  lemma FreeCellExists(occupied: seq<Cell>)
    requires |occupied| < GridCells
    ensures exists k :: 0 <= k < GridCells && CellAt(k) !in occupied
  {
    var ids := seq(|occupied|, i requires 0 <= i < |occupied| => occupied[i].y * GridWidth + occupied[i].x);
    MissingIndex(ids, GridCells);
    var k :| 0 <= k < GridCells && k !in ids;
    forall i | 0 <= i < |occupied| ensures occupied[i] != CellAt(k) {
      assert ids[i] in ids;
    }
    assert CellAt(k) !in occupied;
  }
}
