/** Two-player Pong: two paddles moved by held keys, a ball bouncing off the top and bottom
    edges and off the paddles, and a point ending the rally when the ball leaves on a side.
    Positions and speeds are reals. */
module Pong {
  import opened Events

  const PaddleW := 18
  const PaddleH := 100
  const BallSize := 20
  const PaddleSpeed: real := 320.0
  const BallSpeed: real := 320.0

  /** The x of the left paddle's left edge, and the x of the right paddle's left edge
      (`WIDTH - 32 - paddle_w`). */
  const P1Left := 32
  const P2Left := Width - 32 - PaddleW

  /** The lowest top a paddle may have: `HEIGHT - paddle_h`. */
  const PaddleMax: real := (Height - PaddleH) as real

  /** An axis-aligned rectangle as the collision test sees it. */
  datatype Rect = Rect(left: real, top: real, w: int, h: int)

  /** The paddles' held keys for one frame: W/S for the left paddle, Up/Down for the right. */
  datatype Held = Held(w: bool, s: bool, up: bool, down: bool)

  /** The `keys` argument of `update`, which may be absent. */
  datatype Controls = NoKeys | Keys(held: Held)

  /** The state of one rally. `score[0]` is the left player's, `score[1]` the right's. */
  datatype Court = Court(p1: real, p2: real, x: real, y: real, dx: real, dy: real,
                         score: seq<int>, alive: bool)

  function Abs(v: real): real {
    if v < 0.0 then -v else v
  }

  /** Two scores, neither negative; both paddles inside the screen; a horizontal ball speed of
      `ball_speed` in one direction or the other. */
  ghost predicate CourtValid(c: Court) {
    && |c.score| == 2 && c.score[0] >= 0 && c.score[1] >= 0
    && 0.0 <= c.p1 <= PaddleMax && 0.0 <= c.p2 <= PaddleMax
    && Abs(c.dx) == BallSpeed
  }

  // ---------- Serve ----------

  /** `reset`: the paddles and the ball centred, the scores zeroed and the rally live. `right`
      is the coin `random() < 0.5` and `spin` the draw `uniform(-0.5, 0.5)`; the angle the
      source also draws is never used. */
  predicate ValidSpin(spin: real) {
    -0.5 <= spin <= 0.5
  }

  function Served(right: bool, spin: real): Court
    requires ValidSpin(spin)
  {
    var mid := (Height / 2 - PaddleH / 2) as real;
    Court(mid, mid, (Width / 2 - BallSize / 2) as real, (Height / 2 - BallSize / 2) as real,
          BallSpeed * (if right then 1.0 else -1.0), BallSpeed * spin, [0, 0], true)
  }

  /** A serve is a valid live rally at 0 : 0, with both paddles and the ball centred on the
      screen, the ball moving to the right exactly when the coin says so. */
  lemma ServedRules(right: bool, spin: real)
    requires ValidSpin(spin)
    ensures CourtValid(Served(right, spin))
    ensures Served(right, spin).alive && Served(right, spin).score == [0, 0]
    ensures Served(right, spin).p1 + (PaddleH / 2) as real == (Height / 2) as real
    ensures Served(right, spin).p2 == Served(right, spin).p1
    ensures Served(right, spin).x + (BallSize / 2) as real == (Width / 2) as real
    ensures Served(right, spin).y + (BallSize / 2) as real == (Height / 2) as real
    ensures Served(right, spin).dx > 0.0 <==> right
    ensures Abs(Served(right, spin).dy) <= BallSpeed / 2.0
  {
  }

  // ---------- One frame ----------

  /** `max(0, min(HEIGHT - paddle_h, y))`. */
  function Clamp(y: real): (r: real)
    ensures 0.0 <= r <= PaddleMax
    ensures 0.0 <= y <= PaddleMax ==> r == y
    ensures y < 0.0 ==> r == 0.0
    ensures y > PaddleMax ==> r == PaddleMax
  {
    var m := if PaddleMax < y then PaddleMax else y;
    if 0.0 < m then m else 0.0
  }

  /** One paddle after its held keys: up moves it `paddle_speed * dt` towards the top, down
      the same towards the bottom, then it is clamped to the screen. */
  function PaddleMove(y: real, up: bool, down: bool, dt: real): real {
    var y1 := if up then y - PaddleSpeed * dt else y;
    var y2 := if down then y1 + PaddleSpeed * dt else y1;
    Clamp(y2)
  }

  /** Both paddles after the frame's keys; with no keys they are only clamped. */
  function Paddles(c: Court, keys: Controls, dt: real): Court {
    match keys
    case NoKeys => c.(p1 := Clamp(c.p1), p2 := Clamp(c.p2))
    case Keys(h) => c.(p1 := PaddleMove(c.p1, h.w, h.s, dt), p2 := PaddleMove(c.p2, h.up, h.down, dt))
  }

  /** The ball moved by its velocity for `dt`. */
  function Flown(c: Court, dt: real): Court {
    c.(x := c.x + c.dx * dt, y := c.y + c.dy * dt)
  }

  /** The ball touches or crosses the top or the bottom edge. */
  predicate AtWall(c: Court) {
    c.y <= 0.0 || c.y + BallSize as real >= Height as real
  }

  /** A contact with the top or bottom edge reverses the vertical speed; nothing else moves. */
  function WallBounced(c: Court): Court {
    if AtWall(c) then c.(dy := -c.dy) else c
  }

  function BallRect(c: Court): Rect {
    Rect(c.x, c.y, BallSize, BallSize)
  }

  function P1Rect(c: Court): Rect {
    Rect(P1Left as real, c.p1, PaddleW, PaddleH)
  }

  function P2Rect(c: Court): Rect {
    Rect(P2Left as real, c.p2, PaddleW, PaddleH)
  }

  /** The paddle tests, both against the ball's rectangle as it was before either of them.
      The left paddle sends a ball moving left back to the right from its right edge; the right
      paddle, tested after it, sends a ball moving right back to the left from its left edge.
      `collide` is the rectangle overlap test. */
  function PaddleBounced(c: Court, collide: (Rect, Rect) -> bool): (r: Court)
    ensures Abs(r.dx) == Abs(c.dx)
    ensures r.(x := c.x, dx := c.dx) == c
    ensures r != c ==> (c.dx < 0.0 && collide(BallRect(c), P1Rect(c)))
                        || (c.dx > 0.0 && collide(BallRect(c), P2Rect(c)))
    ensures c.dx < 0.0 && collide(BallRect(c), P1Rect(c)) && !collide(BallRect(c), P2Rect(c)) ==>
              r.dx == -c.dx && r.dx > 0.0 && r.x == (P1Left + PaddleW) as real
    ensures c.dx > 0.0 && collide(BallRect(c), P2Rect(c)) ==>
              r.dx == -c.dx && r.dx < 0.0 && r.x == (P2Left - BallSize) as real
  {
    var ball := BallRect(c);
    var c1 := if collide(ball, P1Rect(c)) && c.dx < 0.0
              then c.(dx := -c.dx, x := (P1Left + PaddleW) as real) else c;
    if collide(ball, P2Rect(c)) && c1.dx > 0.0
    then c1.(dx := -c1.dx, x := (P2Left - BallSize) as real) else c1
  }

  /** A ball past the left edge is a point for the right player, one past the right edge a
      point for the left player; either ends the rally. */
  function Scored(c: Court): Court
    requires |c.score| == 2
  {
    if c.x < 0.0 then c.(score := c.score[1 := c.score[1] + 1], alive := false)
    else if c.x > Width as real then c.(score := c.score[0 := c.score[0] + 1], alive := false)
    else c
  }

  /** The ball after moving, the edge bounce and the paddle bounces, before the point test. */
  function Rallied(c: Court, dt: real, keys: Controls, collide: (Rect, Rect) -> bool): Court {
    PaddleBounced(WallBounced(Flown(Paddles(c, keys, dt), dt)), collide)
  }

  /** One `update` of a rally: nothing once the point is scored, otherwise paddles, ball, edge
      bounce, paddle bounces and the point test, in that order. */
  function Frame(c: Court, dt: real, keys: Controls, collide: (Rect, Rect) -> bool): Court
    requires |c.score| == 2
  {
    if !c.alive then c else Scored(Rallied(c, dt, keys, collide))
  }

  /** The paddle and ball steps leave the score, the rally and the horizontal speed alone. */
  lemma RalliedKeeps(c: Court, dt: real, keys: Controls, collide: (Rect, Rect) -> bool)
    ensures var r := Rallied(c, dt, keys, collide);
      r.score == c.score && r.alive == c.alive && Abs(r.dx) == Abs(c.dx)
    ensures 0.0 <= Rallied(c, dt, keys, collide).p1 <= PaddleMax
    ensures 0.0 <= Rallied(c, dt, keys, collide).p2 <= PaddleMax
  {
    var m := WallBounced(Flown(Paddles(c, keys, dt), dt));
    assert m.score == c.score && m.alive == c.alive && m.dx == c.dx;
    assert 0.0 <= m.p1 <= PaddleMax && 0.0 <= m.p2 <= PaddleMax;
  }

  /** A frame keeps the court valid. */
  lemma FrameKeepsValid(c: Court, dt: real, keys: Controls, collide: (Rect, Rect) -> bool)
    requires CourtValid(c)
    ensures CourtValid(Frame(c, dt, keys, collide))
  {
    if c.alive {
      RalliedKeeps(c, dt, keys, collide);
    }
  }

  /** After a live frame both paddles lie in [0, HEIGHT - paddle_h], whatever was held. */
  lemma FramePaddlesOnScreen(c: Court, dt: real, keys: Controls, collide: (Rect, Rect) -> bool)
    requires |c.score| == 2 && c.alive
    ensures 0.0 <= Frame(c, dt, keys, collide).p1 <= PaddleMax
    ensures 0.0 <= Frame(c, dt, keys, collide).p2 <= PaddleMax
  {
    RalliedKeeps(c, dt, keys, collide);
  }

  /** The point rules of a live frame: a ball ending left of the screen adds one to the right
      player's score, one ending right of it adds one to the left player's score, otherwise the
      scores are kept; so at most one score changes, by one, and the rally ends exactly when a
      point is scored. */
  lemma FrameScore(c: Court, dt: real, keys: Controls, collide: (Rect, Rect) -> bool)
    requires |c.score| == 2 && c.alive
    ensures var r := Frame(c, dt, keys, collide);
      && (r.x < 0.0 ==> r.score == [c.score[0], c.score[1] + 1])
      && (r.x > Width as real ==> r.score == [c.score[0] + 1, c.score[1]])
      && (0.0 <= r.x <= Width as real ==> r.score == c.score)
      && (!r.alive <==> r.x < 0.0 || r.x > Width as real)
  {
    RalliedKeeps(c, dt, keys, collide);
    var m := Rallied(c, dt, keys, collide);
    assert Frame(c, dt, keys, collide) == Scored(m);
  }

  /** A frame changes at most one of the two scores, and only when the rally ends. */
  lemma AtMostOnePoint(c: Court, dt: real, keys: Controls, collide: (Rect, Rect) -> bool)
    requires |c.score| == 2
    ensures var r := Frame(c, dt, keys, collide);
      && |r.score| == 2
      && (r.score[0] == c.score[0] || r.score[1] == c.score[1])
      && (r.score != c.score ==> c.alive && !r.alive)
  {
    if c.alive {
      FrameScore(c, dt, keys, collide);
    }
  }

  /** After the point, frames change nothing until the next serve. */
  lemma DeadFrameIsIdle(c: Court, dt: real, keys: Controls, collide: (Rect, Rect) -> bool)
    requires |c.score| == 2 && !c.alive
    ensures Frame(c, dt, keys, collide) == c
  {
  }

  /** A contact with the top or bottom edge after the ball moved reverses the vertical speed;
      no contact keeps it. */
  lemma FrameWallContact(c: Court, dt: real, keys: Controls, collide: (Rect, Rect) -> bool)
    requires |c.score| == 2 && c.alive
    ensures var r := Frame(c, dt, keys, collide);
      r.dy == if AtWall(Flown(Paddles(c, keys, dt), dt)) then -c.dy else c.dy
  {
    var f := Flown(Paddles(c, keys, dt), dt);
    var w := WallBounced(f);
    assert w.dy == if AtWall(f) then -c.dy else c.dy;
    assert Rallied(c, dt, keys, collide).dy == w.dy;
  }

  /** A save by the left paddle: when the moved ball, heading left, meets the left paddle and
      not the right one, it leaves heading right from the paddle's edge and the rally goes on. */
  lemma LeftPaddleSaves(c: Court, dt: real, keys: Controls, collide: (Rect, Rect) -> bool)
    requires |c.score| == 2 && c.alive && c.dx < 0.0
    requires var m := WallBounced(Flown(Paddles(c, keys, dt), dt));
      collide(BallRect(m), P1Rect(m)) && !collide(BallRect(m), P2Rect(m))
    ensures var r := Frame(c, dt, keys, collide);
      r.alive && r.dx == -c.dx && r.x == (P1Left + PaddleW) as real && r.score == c.score
  {
    var m := WallBounced(Flown(Paddles(c, keys, dt), dt));
    assert m.dx == c.dx;
    var b := PaddleBounced(m, collide);
    assert b.x == (P1Left + PaddleW) as real && b.score == c.score;
    assert Frame(c, dt, keys, collide) == Scored(b);
  }

  /** The mirror image for the right paddle. */
  lemma RightPaddleSaves(c: Court, dt: real, keys: Controls, collide: (Rect, Rect) -> bool)
    requires |c.score| == 2 && c.alive && c.dx > 0.0
    requires var m := WallBounced(Flown(Paddles(c, keys, dt), dt));
      collide(BallRect(m), P2Rect(m))
    ensures var r := Frame(c, dt, keys, collide);
      r.alive && r.dx == -c.dx && r.x == (P2Left - BallSize) as real && r.score == c.score
  {
    var m := WallBounced(Flown(Paddles(c, keys, dt), dt));
    assert m.dx == c.dx;
    var b := PaddleBounced(m, collide);
    assert b.x == (P2Left - BallSize) as real && b.score == c.score;
    assert Frame(c, dt, keys, collide) == Scored(b);
  }

  // ---------- Events ----------

  /** The rally after one event: Enter after the point serves again, unless the prompt takes
      the key press. The serve draws are the event's own. */
  function EventCourt(c: Court, p: Prompt, ev: Event, right: bool, spin: real): Court
    requires ValidSpin(spin)
  {
    if !IsEscDown(ev) && !p.open && !c.alive && ev.KeyDown? && IsEnter(ev.key)
    then Served(right, spin) else c
  }

  /** A closed prompt always has No selected: it closes only through Enter on No. */
  ghost predicate PromptValid(p: Prompt) {
    ValidChoice(p.choice) && (!p.open ==> p.choice == 0)
  }

  lemma PromptKeepsValid(p: Prompt, ev: Event)
    requires PromptValid(p)
    ensures PromptValid(PromptAfter(p, ev, false))
  {
    if PromptTakes(p, ev) && !IsLeftRight(ev.key) && !IsEnter(ev.key) {
      assert PromptAfter(p, ev, false) == p;
    }
  }

  lemma EventKeepsValid(c: Court, p: Prompt, ev: Event, right: bool, spin: real)
    requires CourtValid(c) && ValidSpin(spin)
    ensures CourtValid(EventCourt(c, p, ev, right, spin))
  {
    ServedRules(right, spin);
  }

  /** Enter on Yes asks for the menu and leaves both the prompt and the rally as they were. */
  lemma YesKeepsPromptOpen(c: Court, p: Prompt, k: Key, right: bool, spin: real)
    requires PromptValid(p) && p.open && p.choice == 1 && IsEnter(k) && ValidSpin(spin)
    ensures PromptResult(p, KeyDown(k)) == ReturnToMenu
    ensures PromptAfter(p, KeyDown(k), false) == p
    ensures EventCourt(c, p, KeyDown(k), right, spin) == c
  {
  }

  class PongGame {
    var p1y: real
    var p2y: real
    var ballX: real
    var ballY: real
    var ballDx: real
    var ballDy: real
    var score: seq<int>
    var alive: bool
    var returnPrompt: bool
    var promptChoice: int

    function State(): Court
      reads this
    {
      Court(p1y, p2y, ballX, ballY, ballDx, ballDy, score, alive)
    }

    function PromptState(): Prompt
      reads this
    {
      Prompt(returnPrompt, promptChoice)
    }

    ghost predicate Valid()
      reads this
    {
      PromptValid(PromptState()) && CourtValid(State())
    }

    /** `__init__`: a serve with the prompt closed on No. */
    constructor (right: bool, spin: real)
      requires ValidSpin(spin)
      ensures Valid()
      ensures State() == Served(right, spin)
      ensures PromptState() == Prompt(false, 0)
    {
      p1y := (Height / 2 - PaddleH / 2) as real;
      p2y := (Height / 2 - PaddleH / 2) as real;
      ballX := (Width / 2 - BallSize / 2) as real;
      ballY := (Height / 2 - BallSize / 2) as real;
      ballDx := BallSpeed * (if right then 1.0 else -1.0);
      ballDy := BallSpeed * spin;
      score := [0, 0];
      alive := true;
      returnPrompt := false;
      promptChoice := 0;
      new;
      ServedRules(right, spin);
    }

    /** `reset`: a new serve at 0 : 0, with the prompt closed on No. */
    method Reset(right: bool, spin: real)
      requires ValidSpin(spin)
      modifies this
      ensures Valid()
      ensures State() == Served(right, spin)
      ensures PromptState() == Prompt(false, 0)
    {
      p1y := (Height / 2 - PaddleH / 2) as real;
      p2y := (Height / 2 - PaddleH / 2) as real;
      ballX := (Width / 2 - BallSize / 2) as real;
      ballY := (Height / 2 - BallSize / 2) as real;
      ballDx := BallSpeed * (if right then 1.0 else -1.0);
      ballDy := BallSpeed * spin;
      score := [0, 0];
      alive := true;
      returnPrompt := false;
      promptChoice := 0;
      ServedRules(right, spin);
    }

    /** `handle_event`: the return prompt, then Enter after a point serving again. Enter on Yes
        asks for the menu and leaves the prompt open. */
    method HandleEvent(ev: Event, right: bool, spin: real) returns (result: Action)
      requires Valid() && ValidSpin(spin)
      modifies this
      ensures Valid()
      ensures PromptState() == PromptAfter(old(PromptState()), ev, false)
      ensures result == PromptResult(old(PromptState()), ev)
      ensures State() == EventCourt(old(State()), old(PromptState()), ev, right, spin)
    {
      PromptKeepsValid(PromptState(), ev);
      EventKeepsValid(State(), PromptState(), ev, right, spin);
      result := NoAction;
      if ev == KeyDown(Escape) {
        returnPrompt := true;
      } else if returnPrompt && ev.KeyDown? {
        if ev.key == Left || ev.key == Right {
          promptChoice := 1 - promptChoice;
        } else if ev.key == Return || ev.key == KpEnter {
          if promptChoice == 1 {
            result := ReturnToMenu;
          } else {
            returnPrompt := false;
          }
        } else if ev.key == Escape {
          // The Esc key press was taken by the first branch: this one is dead.
          assert false;
        }
      } else if !alive && ev.KeyDown? && (ev.key == Return || ev.key == KpEnter) {
        Reset(right, spin);
      }
    }

    /** The paddle half of `update`: each paddle moved by its held keys, then both clamped. */
    method MovePaddles(dt: real, keys: Controls)
      modifies this
      ensures State() == Paddles(old(State()), keys, dt)
      ensures PromptState() == old(PromptState())
    {
      var y1, y2 := p1y, p2y;
      if keys.Keys? {
        if keys.held.w {
          y1 := y1 - PaddleSpeed * dt;
        }
        if keys.held.s {
          y1 := y1 + PaddleSpeed * dt;
        }
        if keys.held.up {
          y2 := y2 - PaddleSpeed * dt;
        }
        if keys.held.down {
          y2 := y2 + PaddleSpeed * dt;
        }
      }
      p1y := Clamp(y1);
      p2y := Clamp(y2);
    }

    /** The ball moved by its velocity, with the top and bottom edge bounce. */
    method MoveBall(dt: real)
      modifies this
      ensures State() == WallBounced(Flown(old(State()), dt))
      ensures PromptState() == old(PromptState())
    {
      var nx, ny := ballX + ballDx * dt, ballY + ballDy * dt;
      ghost var f := Flown(State(), dt);
      assert f == State().(x := nx, y := ny);
      ballX, ballY := nx, ny;
      if ballY <= 0.0 || ballY + BallSize as real >= Height as real {
        ballDy := -ballDy;
      }
    }

    /** The paddle tests against the ball's rectangle after the move. */
    method BouncePaddles(collide: (Rect, Rect) -> bool)
      modifies this
      ensures State() == PaddleBounced(old(State()), collide)
      ensures PromptState() == old(PromptState())
    {
      var ball := Rect(ballX, ballY, BallSize, BallSize);
      var left := Rect(P1Left as real, p1y, PaddleW, PaddleH);
      var right := Rect(P2Left as real, p2y, PaddleW, PaddleH);
      if collide(ball, left) && ballDx < 0.0 {
        ballDx := -ballDx;
        ballX := (P1Left + PaddleW) as real;
      }
      if collide(ball, right) && ballDx > 0.0 {
        ballDx := -ballDx;
        ballX := (P2Left - BallSize) as real;
      }
    }

    /** The point test at the end of `update`. */
    method CheckPoint()
      requires |score| == 2
      modifies this
      ensures State() == Scored(old(State()))
      ensures PromptState() == old(PromptState())
    {
      if ballX < 0.0 {
        score := score[1 := score[1] + 1];
        alive := false;
      } else if ballX > Width as real {
        score := score[0 := score[0] + 1];
        alive := false;
      }
    }

    /** `update`: one frame of the rally, or nothing while the prompt is open or after the
        point. */
    method Update(dt: real, keys: Controls, collide: (Rect, Rect) -> bool)
      requires Valid()
      modifies this
      ensures Valid()
      ensures PromptState() == old(PromptState())
      ensures State() == if old(returnPrompt) then old(State()) else Frame(old(State()), dt, keys, collide)
    {
      if returnPrompt || !alive {
        return;
      }
      FrameKeepsValid(State(), dt, keys, collide);
      RalliedKeeps(State(), dt, keys, collide);
      MovePaddles(dt, keys);
      MoveBall(dt);
      BouncePaddles(collide);
      CheckPoint();
    }
  }
}
