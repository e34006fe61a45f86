/** The Snake mini-game: a snake on a 38 by 19 grid of 24-pixel cells that moves one cell
    every 0.13 seconds, turns on the arrow keys, grows on food and dies on the wall or on
    itself. */
module Snake {
  import opened Events

  const CellSize := 24
  /** `(WIDTH - 48) // cell_size` and `(HEIGHT - 128) // cell_size`. */
  const GridW := (Width - 48) / CellSize
  const GridH := (Height - 128) / CellSize
  const MoveInterval: real := 0.13

  lemma GridSize()
    ensures GridW == 38 && GridH == 19
  {
  }

  /** A grid cell, or a direction (a difference of cells). */
  datatype Cell = Cell(x: int, y: int)

  function Add(c: Cell, d: Cell): Cell {
    Cell(c.x + d.x, c.y + d.y)
  }

  function Neg(d: Cell): Cell {
    Cell(-d.x, -d.y)
  }

  const DirUp := Cell(0, -1)
  const DirDown := Cell(0, 1)
  const DirLeft := Cell(-1, 0)
  const DirRight := Cell(1, 0)

  /** The four directions the snake can face. */
  predicate IsDir(d: Cell) {
    d == DirUp || d == DirDown || d == DirLeft || d == DirRight
  }

  predicate InGrid(c: Cell) {
    0 <= c.x < GridW && 0 <= c.y < GridH
  }

  /** Two cells sharing a side. */
  predicate Adjacent(c: Cell, d: Cell) {
    (c.x == d.x && (c.y - d.y == 1 || d.y - c.y == 1)) || (c.y == d.y && (c.x - d.x == 1 || d.x - c.x == 1))
  }

  /** The cell `reset` puts the one-cell snake on: `(grid_w // 2, grid_h // 2)`. */
  const StartCell := Cell(GridW / 2, GridH / 2)

  /** The state of one game. `snake[0]` is the head. */
  datatype Board = Board(direction: Cell, snake: seq<Cell>, grow: int, food: Cell, alive: bool,
                         score: int, directionChanged: bool, moveTimer: real)

  // ---------- Food ----------

  /** The index of the first draw that is off the body, or `|draws|` when there is none:
      the draw `spawn_food`'s loop keeps. */
  function FirstFree(draws: seq<Cell>, body: seq<Cell>): (k: nat)
    ensures k <= |draws|
    ensures forall j :: 0 <= j < k ==> draws[j] in body
    ensures k < |draws| ==> draws[k] !in body
  {
    if |draws| == 0 then 0
    else if draws[0] !in body then 0
    else 1 + FirstFree(draws[1..], body)
  }

  /** Cell draws as `random.randint` gives them, on the grid, with at least one of them off
      the body: the loop in `spawn_food` runs forever on any other stream. */
  predicate Feeds(draws: seq<Cell>, body: seq<Cell>) {
    (forall i :: 0 <= i < |draws| ==> InGrid(draws[i])) && FirstFree(draws, body) < |draws|
  }

  /** `spawn_food`: the first drawn cell off the snake becomes the food. */
  function Spawned(b: Board, draws: seq<Cell>): (r: Board)
    requires Feeds(draws, b.snake)
    ensures r == b.(food := r.food)
    ensures InGrid(r.food) && r.food !in b.snake
  {
    b.(food := draws[FirstFree(draws, b.snake)])
  }

  /** `reset`: a one-cell snake at the centre heading right, score 0, nothing to grow, no
      turn taken, and new food. The move timer is left as it was. */
  function Started(b: Board, draws: seq<Cell>): (r: Board)
    requires Feeds(draws, [StartCell])
  {
    Spawned(Board(DirRight, [StartCell], 0, b.food, true, 0, false, b.moveTimer), draws)
  }

  // ---------- Turning ----------

  /** The direction keys of `handle_event` while the prompt is closed and the snake alive:
      at most one accepted turn between moves, and never straight back. */
  function Turned(b: Board, k: Key): Board {
    if b.directionChanged then b
    else if k == Up && b.direction != DirDown then b.(direction := DirUp, directionChanged := true)
    else if k == Down && b.direction != DirUp then b.(direction := DirDown, directionChanged := true)
    else if k == Left && b.direction != DirRight then b.(direction := DirLeft, directionChanged := true)
    else if k == Right && b.direction != DirLeft then b.(direction := DirRight, directionChanged := true)
    else b
  }

  /** The game part of `handle_event` for the prompt as it was before the event: a key press
      steers a live snake unless the prompt is open; Enter restarts a dead one, also when the
      prompt took the same key. */
  function EventBoard(b: Board, p: Prompt, ev: Event, draws: seq<Cell>): Board
    requires Feeds(draws, [StartCell])
  {
    var b1 := if !p.open && b.alive && ev.KeyDown? then Turned(b, ev.key) else b;
    if !b1.alive && ev.KeyDown? && IsEnter(ev.key) then Started(b1, draws) else b1
  }

  // ---------- Moving ----------

  function NextHead(b: Board): Cell
    requires |b.snake| >= 1
  {
    Add(b.snake[0], b.direction)
  }

  /** The new head is off the grid or on the body, the tail included. */
  predicate Blocked(b: Board)
    requires |b.snake| >= 1
  {
    !InGrid(NextHead(b)) || NextHead(b) in b.snake
  }

  /** The draws a move may need: when it eats, cells for the new food off the grown snake. */
  predicate MoveReady(b: Board, draws: seq<Cell>) {
    |b.snake| >= 1 &&
    (!Blocked(b) && NextHead(b) == b.food ==> Feeds(draws, [NextHead(b)] + b.snake))
  }

  /** `_move_snake`: a blocked move kills the snake and changes nothing else. Otherwise the
      new head goes in front; on the food the snake is to grow, the score goes up and new food
      is placed (the old tail still on the board); then one pending growth is used up, or the
      tail goes. */
  function MoveStep(b: Board, draws: seq<Cell>): Board
    requires MoveReady(b, draws)
  {
    if Blocked(b) then b.(alive := false)
    else
      var h := NextHead(b);
      var b1 := b.(snake := [h] + b.snake);
      var b2 := if h == b.food then Spawned(b1.(grow := b1.grow + 1, score := b1.score + 1), draws) else b1;
      if b2.grow > 0 then b2.(grow := b2.grow - 1)
      else b2.(snake := b2.snake[..|b2.snake| - 1])
  }

  /** `update(dt)` with the prompt closed and the snake alive: the timer gains dt, and once it
      reaches the interval it loses one interval, the snake makes one move and may turn
      again. */
  function Frame(b: Board, dt: real, draws: seq<Cell>): Board
    requires MoveReady(b, draws)
  {
    var t := b.moveTimer + dt;
    if t >= MoveInterval then MoveStep(b.(moveTimer := t - MoveInterval), draws).(directionChanged := false)
    else b.(moveTimer := t)
  }

  /** The timer of a frame: it gains dt and loses one interval when a move is due; with no
      move due, nothing else changes. */
  lemma FrameTimer(b: Board, dt: real, draws: seq<Cell>)
    requires MoveReady(b, draws)
    ensures var r := Frame(b, dt, draws);
            && r.moveTimer == b.moveTimer + dt - (if b.moveTimer + dt >= MoveInterval then MoveInterval else 0.0)
            && (b.moveTimer + dt < MoveInterval ==> r == b.(moveTimer := r.moveTimer))
  {
  }

  // ---------- The board invariant ----------

  predicate Distinct(s: seq<Cell>) {
    forall i, j :: 0 <= i < j < |s| ==> s[i] != s[j]
  }

  predicate Connected(s: seq<Cell>) {
    forall i :: 0 <= i < |s| - 1 ==> Adjacent(s[i], s[i + 1])
  }

  predicate AllInGrid(s: seq<Cell>) {
    forall i :: 0 <= i < |s| ==> InGrid(s[i])
  }

  /** A snake of distinct, side-by-side cells on the grid, with food on the grid off it,
      nothing left to grow, one point per cell beyond the head, a direction that does not
      lead back into the neck, and, while alive and before a turn is taken, the direction of the
      last move. */
  predicate BoardValid(b: Board) {
    && |b.snake| >= 1
    && AllInGrid(b.snake) && Distinct(b.snake) && Connected(b.snake)
    && InGrid(b.food) && b.food !in b.snake
    && b.grow == 0
    && b.score == |b.snake| - 1
    && IsDir(b.direction)
    && (|b.snake| >= 2 ==> Add(b.snake[0], b.direction) != b.snake[1])
    && (b.alive && |b.snake| >= 2 && !b.directionChanged ==> b.snake[0] == Add(b.snake[1], b.direction))
  }

  // ---------- Properties ----------

  /** `reset` gives a valid one-cell board heading right with score 0 and alive. */
  lemma StartedValid(b: Board, draws: seq<Cell>)
    requires Feeds(draws, [StartCell])
    ensures var r := Started(b, draws);
            && BoardValid(r) && r.snake == [StartCell] && r.direction == DirRight
            && r.score == 0 && r.grow == 0 && r.alive && !r.directionChanged
            && r.moveTimer == b.moveTimer
  {
    GridSize();
  }

  /** A turn never points straight back, and only the first accepted turn between two moves
      counts: once a turn is taken, every key leaves the board as it is. */
  lemma TurnRules(b: Board, k: Key)
    requires IsDir(b.direction)
    ensures var r := Turned(b, k);
            && IsDir(r.direction) && r.direction != Neg(b.direction)
            && (r == b || (r.directionChanged && r == b.(direction := r.direction, directionChanged := true)))
            && (b.directionChanged ==> r == b)
  {
    var r := Turned(b, k);
    if !b.directionChanged && r != b {
      if k == Up {
        assert r.direction == DirUp && b.direction != DirDown;
      } else if k == Down {
        assert r.direction == DirDown && b.direction != DirUp;
      } else if k == Left {
        assert r.direction == DirLeft && b.direction != DirRight;
      } else {
        assert r.direction == DirRight && b.direction != DirLeft;
      }
    }
  }

  /** Two key presses between moves: the second one changes nothing once the first turned. */
  lemma AtMostOneTurn(b: Board, k1: Key, k2: Key)
    requires IsDir(b.direction) && !b.directionChanged
    requires Turned(b, k1) != b
    ensures Turned(Turned(b, k1), k2) == Turned(b, k1)
  {
  }

  /** A blocked move kills the snake and leaves everything else as it was. */
  lemma BlockedMoveKills(b: Board, draws: seq<Cell>)
    requires MoveReady(b, draws) && Blocked(b)
    ensures MoveStep(b, draws) == b.(alive := false)
  {
  }

  /** Moving onto the cell the tail is leaving still counts as a collision. */
  lemma TailCellBlocks(b: Board, draws: seq<Cell>)
    requires MoveReady(b, draws) && NextHead(b) == b.snake[|b.snake| - 1]
    ensures !MoveStep(b, draws).alive
  {
  }

  /** A free move with nothing to grow: onto food the snake gains the new head and a point
      and new food is placed off it; elsewhere the head goes in front and the tail goes. */
  lemma FreeMove(b: Board, draws: seq<Cell>)
    requires MoveReady(b, draws) && !Blocked(b) && b.grow == 0
    ensures var r, h := MoveStep(b, draws), NextHead(b);
            && r.alive == b.alive && r.direction == b.direction && r.grow == 0
            && (h == b.food ==>
                  r.snake == [h] + b.snake && r.score == b.score + 1 && r.food !in r.snake && InGrid(r.food))
            && (h != b.food ==>
                  r.snake == [h] + b.snake[..|b.snake| - 1] && r.score == b.score && r.food == b.food)
  {
  }

  /** On a valid board the next head is never the neck: the snake cannot reverse into itself. */
  lemma NoReverse(b: Board)
    requires BoardValid(b) && |b.snake| >= 2
    ensures NextHead(b) != b.snake[1]
  {
  }

  /** Dropping the tail keeps the cells on the grid, distinct and connected. */
  lemma DropTailKeeps(s: seq<Cell>)
    requires |s| >= 1 && AllInGrid(s) && Distinct(s) && Connected(s)
    ensures var t := s[..|s| - 1];
            AllInGrid(t) && Distinct(t) && Connected(t) && forall c :: c in t ==> c in s
  {
  }

  /** A new head that is on the grid, off the body and beside the old head keeps the cells on
      the grid, distinct and connected. */
  lemma PushHeadKeeps(s: seq<Cell>, h: Cell)
    requires |s| >= 1 && AllInGrid(s) && Distinct(s) && Connected(s)
    requires InGrid(h) && h !in s && Adjacent(h, s[0])
    ensures var t := [h] + s;
            AllInGrid(t) && Distinct(t) && Connected(t)
  {
    var t := [h] + s;
    forall i, j | 0 <= i < j < |t|
      ensures t[i] != t[j]
    {
      if i == 0 {
        assert t[j] == s[j - 1];
      } else {
        assert t[i] == s[i - 1] && t[j] == s[j - 1];
      }
    }
    forall i | 0 <= i < |t| - 1
      ensures Adjacent(t[i], t[i + 1])
    {
      if i > 0 {
        assert t[i] == s[i - 1] && t[i + 1] == s[i];
      }
    }
  }

  /** A direction step goes to an adjacent cell, and two steps never come back. */
  lemma StepAdjacent(c: Cell, d: Cell)
    requires IsDir(d)
    ensures Adjacent(Add(c, d), c) && Add(Add(c, d), d) != c
  {
  }

  /** A move onto the food keeps the board valid, with the new direction as the last move. */
  lemma EatKeepsValid(b: Board, draws: seq<Cell>)
    requires BoardValid(b) && MoveReady(b, draws) && !Blocked(b) && NextHead(b) == b.food
    ensures BoardValid(MoveStep(b, draws).(directionChanged := false))
  {
    var h := NextHead(b);
    StepAdjacent(b.snake[0], b.direction);
    PushHeadKeeps(b.snake, h);
    FreeMove(b, draws);
    var r := MoveStep(b, draws);
    assert r.snake[0] == h && r.snake[1] == b.snake[0];
  }

  /** A move onto an empty cell keeps the board valid, with the new direction as the last
      move. */
  lemma StepKeepsValid(b: Board, draws: seq<Cell>)
    requires BoardValid(b) && MoveReady(b, draws) && !Blocked(b) && NextHead(b) != b.food
    ensures BoardValid(MoveStep(b, draws).(directionChanged := false))
  {
    var h := NextHead(b);
    StepAdjacent(b.snake[0], b.direction);
    PushHeadKeeps(b.snake, h);
    FreeMove(b, draws);
    var r := MoveStep(b, draws);
    DropTailKeeps([h] + b.snake);
    assert ([h] + b.snake)[..|b.snake|] == [h] + b.snake[..|b.snake| - 1];
    assert r.snake == ([h] + b.snake)[..|b.snake|];
    if |r.snake| >= 2 {
      assert r.snake[0] == h && r.snake[1] == b.snake[0];
    }
  }

  /** A frame of a live game keeps the board valid. */
  lemma FrameKeepsValid(b: Board, dt: real, draws: seq<Cell>)
    requires BoardValid(b) && MoveReady(b, draws)
    ensures BoardValid(Frame(b, dt, draws))
  {
    if b.moveTimer + dt >= MoveInterval {
      MoveFrameValid(b, dt, draws);
    } else {
      WaitFrameValid(b, dt, draws);
    }
  }

  lemma MoveFrameValid(b: Board, dt: real, draws: seq<Cell>)
    requires BoardValid(b) && MoveReady(b, draws) && b.moveTimer + dt >= MoveInterval
    ensures BoardValid(Frame(b, dt, draws))
  {
    var b0 := b.(moveTimer := b.moveTimer + dt - MoveInterval);
    RetimedValid(b, b0.moveTimer, draws);
    MoveKeepsValid(b0, draws);
    assert Frame(b, dt, draws) == MoveStep(b0, draws).(directionChanged := false);
  }

  lemma WaitFrameValid(b: Board, dt: real, draws: seq<Cell>)
    requires BoardValid(b) && MoveReady(b, draws) && b.moveTimer + dt < MoveInterval
    ensures BoardValid(Frame(b, dt, draws))
  {
    RetimedValid(b, b.moveTimer + dt, draws);
    assert Frame(b, dt, draws) == b.(moveTimer := b.moveTimer + dt);
  }

  /** The move timer plays no part in the invariant or in what a move needs. */
  lemma RetimedValid(b: Board, t: real, draws: seq<Cell>)
    requires BoardValid(b) && MoveReady(b, draws)
    ensures BoardValid(b.(moveTimer := t)) && MoveReady(b.(moveTimer := t), draws)
  {
    var b0 := b.(moveTimer := t);
    assert b0.snake == b.snake && b0.food == b.food && b0.direction == b.direction;
  }

  /** A move, with the turn allowance restored, keeps the board valid. */
  lemma MoveKeepsValid(b: Board, draws: seq<Cell>)
    requires BoardValid(b) && MoveReady(b, draws)
    ensures BoardValid(MoveStep(b, draws).(directionChanged := false))
  {
    if Blocked(b) {
      BlockedMoveKills(b, draws);
    } else if NextHead(b) == b.food {
      EatKeepsValid(b, draws);
    } else {
      StepKeepsValid(b, draws);
    }
  }

  /** An event keeps the board valid. */
  lemma EventKeepsValid(b: Board, p: Prompt, ev: Event, draws: seq<Cell>)
    requires BoardValid(b) && Feeds(draws, [StartCell])
    ensures BoardValid(EventBoard(b, p, ev, draws))
  {
    var b1 := if !p.open && b.alive && ev.KeyDown? then Turned(b, ev.key) else b;
    TurnRules(b, if ev.KeyDown? then ev.key else Escape);
    if !b1.alive && ev.KeyDown? && IsEnter(ev.key) {
      StartedValid(b1, draws);
    }
  }

  /** The score is the number of food cells eaten: the length of the snake less the head. */
  lemma ScoreIsLength(b: Board)
    requires BoardValid(b)
    ensures b.score == |b.snake| - 1 && b.score >= 0
  {
  }

  class SnakeGame {
    var direction: Cell
    var snake: seq<Cell>
    var grow: int
    var food: Cell
    var alive: bool
    var score: int
    var directionChanged: bool
    var moveTimer: real
    var returnPrompt: bool
    var promptChoice: int

    function State(): Board
      reads this
    {
      Board(direction, snake, grow, food, alive, score, directionChanged, moveTimer)
    }

    function PromptState(): Prompt
      reads this
    {
      Prompt(returnPrompt, promptChoice)
    }

    ghost predicate Valid()
      reads this
    {
      ValidChoice(promptChoice) && BoardValid(State())
    }

    /** `__init__` with the prompt closed on No. The board, which the source creates in
        `reset`, starts as `reset` leaves it, with the move timer at zero. */
    constructor (draws: seq<Cell>)
      requires Feeds(draws, [StartCell])
      ensures Valid()
      ensures State() == Started(Board(DirRight, [], 0, Cell(0, 0), true, 0, false, 0.0), draws)
      ensures PromptState() == Prompt(false, 0)
    {
      direction := DirRight;
      snake := [StartCell];
      grow := 0;
      alive := true;
      score := 0;
      directionChanged := false;
      moveTimer := 0.0;
      returnPrompt := false;
      promptChoice := 0;
      food := Cell(0, 0);
      new;
      var i := FreeDraw(draws, snake);
      food := draws[i];
      StartedValid(Board(DirRight, [], 0, Cell(0, 0), true, 0, false, 0.0), draws);
    }

    /** The loop of `spawn_food`: the index of the first draw off `body`. */
    static method FreeDraw(draws: seq<Cell>, body: seq<Cell>) returns (i: nat)
      requires Feeds(draws, body)
      ensures i < |draws| && draws[i] !in body && InGrid(draws[i])
      ensures i == FirstFree(draws, body)
    {
      i := 0;
      while draws[i] in body
        invariant i <= FirstFree(draws, body) < |draws|
        decreases FirstFree(draws, body) - i
      {
        i := i + 1;
      }
    }

    /** `spawn_food`. */
    method SpawnFood(draws: seq<Cell>)
      requires Feeds(draws, snake)
      modifies this
      ensures State() == Spawned(old(State()), draws)
      ensures PromptState() == old(PromptState())
    {
      var i := FreeDraw(draws, snake);
      food := draws[i];
    }

    /** `reset`. */
    method Reset(draws: seq<Cell>)
      requires Feeds(draws, [StartCell])
      modifies this
      ensures State() == Started(old(State()), draws)
      ensures PromptState() == old(PromptState())
    {
      direction := DirRight;
      snake := [StartCell];
      grow := 0;
      SpawnFood(draws);
      alive := true;
      score := 0;
      directionChanged := false;
    }

    /** `handle_event`: the prompt (Enter on Yes asks for the menu and closes it), the arrow
        keys while the prompt is closed and the snake alive, and Enter's restart after death. */
    method HandleEvent(ev: Event, draws: seq<Cell>) returns (result: Action)
      requires Valid() && Feeds(draws, [StartCell])
      modifies this
      ensures Valid()
      ensures PromptState() == PromptAfter(old(PromptState()), ev, true)
      ensures result == PromptResult(old(PromptState()), ev)
      ensures State() == EventBoard(old(State()), old(PromptState()), ev, draws)
    {
      EventKeepsValid(State(), PromptState(), ev, draws);
      var wasOpen := returnPrompt;
      result := PromptEvent(ev);
      if !wasOpen && alive && ev.KeyDown? && ev != KeyDown(Escape) {
        Turn(ev.key);
      }
      if !alive && ev.KeyDown? && (ev.key == Return || ev.key == KpEnter) {
        Reset(draws);
      }
    }

    /** The return prompt's part of `handle_event`: Esc opens it, the arrows toggle the choice
        and Enter closes it, asking for the menu on Yes. */
    method PromptEvent(ev: Event) returns (result: Action)
      requires ValidChoice(promptChoice)
      modifies this
      ensures PromptState() == PromptAfter(old(PromptState()), ev, true)
      ensures result == PromptResult(old(PromptState()), ev)
      ensures State() == old(State())
    {
      result := NoAction;
      if ev == KeyDown(Escape) {
        returnPrompt := true;
      } else if returnPrompt && ev.KeyDown? {
        if ev.key == Left || ev.key == Right {
          promptChoice := 1 - promptChoice;
        } else if ev.key == Return || ev.key == KpEnter {
          if promptChoice == 1 {
            result := ReturnToMenu;
          }
          returnPrompt := false;
        } else if ev.key == Escape {
          // The Esc key press was taken by the first branch: this one is dead.
          assert false;
        }
      }
    }

    /** The direction keys of `handle_event`. */
    method Turn(k: Key)
      modifies this
      ensures State() == Turned(old(State()), k)
      ensures PromptState() == old(PromptState())
    {
      if !directionChanged {
        if k == Up && direction != DirDown {
          direction := DirUp;
          directionChanged := true;
        } else if k == Down && direction != DirUp {
          direction := DirDown;
          directionChanged := true;
        } else if k == Left && direction != DirRight {
          direction := DirLeft;
          directionChanged := true;
        } else if k == Right && direction != DirLeft {
          direction := DirRight;
          directionChanged := true;
        }
      }
    }

    /** `_move_snake`, inserting the head and popping the tail of the list in place. */
    method MoveSnake(draws: seq<Cell>)
      requires MoveReady(State(), draws)
      modifies this
      ensures State() == MoveStep(old(State()), draws)
      ensures PromptState() == old(PromptState())
    {
      var head := snake[0];
      var newHead := Add(head, direction);
      if newHead.x < 0 || newHead.x >= GridW || newHead.y < 0 || newHead.y >= GridH || newHead in snake {
        alive := false;
        return;
      }
      snake := [newHead] + snake;
      if newHead == food {
        grow := grow + 1;
        score := score + 1;
        SpawnFood(draws);
      }
      if grow > 0 {
        grow := grow - 1;
      } else {
        snake := snake[..|snake| - 1];
      }
    }

    /** `update(dt)`: nothing while the prompt is open or the snake is dead; otherwise the
        timer gains dt and, once it reaches 0.13, loses 0.13 for one move. */
    method Update(dt: real, draws: seq<Cell>)
      requires Valid() && MoveReady(State(), draws)
      modifies this
      ensures Valid()
      ensures PromptState() == old(PromptState())
      ensures State() == if old(returnPrompt) || !old(alive) then old(State())
                         else Frame(old(State()), dt, draws)
    {
      if returnPrompt || !alive {
        return;
      }
      FrameKeepsValid(State(), dt, draws);
      Tick(dt, draws);
    }

    /** The timer of `update`: it gains dt, and once it reaches the interval it loses one
        interval, the snake moves and may turn again. */
    method Tick(dt: real, draws: seq<Cell>)
      requires MoveReady(State(), draws)
      modifies this
      ensures PromptState() == old(PromptState())
      ensures State() == Frame(old(State()), dt, draws)
    {
      var t := moveTimer + dt;
      if t >= MoveInterval {
        MoveDue(t - MoveInterval, draws);
      } else {
        moveTimer := t;
      }
    }

    /** A due move: the timer keeps what is left over, the snake moves, and it may turn
        again. */
    method MoveDue(rest: real, draws: seq<Cell>)
      requires MoveReady(State(), draws)
      modifies this
      ensures PromptState() == old(PromptState())
      ensures State() == MoveStep(old(State()).(moveTimer := rest), draws).(directionChanged := false)
    {
      ghost var b := State();
      moveTimer := rest;
      assert State() == b.(moveTimer := rest);
      MoveSnake(draws);
      directionChanged := false;
    }
  }
}
