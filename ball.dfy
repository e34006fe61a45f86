/** The Bouncy Ball mini-game: a ball steered by the held arrow keys, bouncing inside a
    rectangular wall, with the shared return prompt. Positions and speeds are reals. */
module Ball {
  import opened Events

  /** The playfield `Rect(24, 96, WIDTH - 48, HEIGHT - 128)`. */
  const WallLeft := 24
  const WallTop := 96
  const WallWidth := Width - 48
  const WallHeight := Height - 128

  const Radius := 16
  const Accel: real := 480.0

  /** The band the centre is kept in: the wall shrunk by the radius on every side
      (`wall.left + radius` and so on, lines 67-70). */
  const MinX: real := 40.0
  const MaxX: real := 920.0
  const MinY: real := 112.0
  const MaxY: real := 552.0

  lemma BandIsWallMinusRadius()
    ensures MinX == (WallLeft + Radius) as real && MaxX == (WallLeft + WallWidth - Radius) as real
    ensures MinY == (WallTop + Radius) as real && MaxY == (WallTop + WallHeight - Radius) as real
  {
  }

  /** The arrow keys held during one frame. */
  datatype Arrows = Arrows(left: bool, right: bool, up: bool, down: bool)

  /** One velocity component after the held arrows: each held key adds or removes accel * dt. */
  function Steer(v: real, minus: bool, plus: bool, dt: real): (w: real)
    ensures w == v + (if plus then Accel * dt else 0.0) - (if minus then Accel * dt else 0.0)
  {
    var v1 := if minus then v - Accel * dt else v;
    if plus then v1 + Accel * dt else v1
  }

  /** One axis of the wall collision: a position outside [lo, hi] is put back on the edge it
      crossed and the velocity component is negated; inside, nothing changes. */
  function Bounce(pos: real, vel: real, lo: real, hi: real): (r: (real, real))
    requires lo <= hi
    ensures lo <= r.0 <= hi
    ensures (r.0, r.1) == (if pos < lo || pos > hi then (r.0, -vel) else (pos, vel))
    ensures pos < lo ==> r.0 == lo
    ensures pos > hi ==> r.0 == hi
  {
    if pos < lo then (lo, -vel)
    else if pos > hi then (hi, -vel)
    else (pos, vel)
  }

  /** One axis of one frame: steer the velocity component, move by it for dt, bounce. */
  function AxisStep(pos: real, vel: real, minus: bool, plus: bool, dt: real, lo: real, hi: real): (r: (real, real))
    requires lo <= hi
    ensures lo <= r.0 <= hi
    ensures r.1 == Steer(vel, minus, plus, dt) || r.1 == -Steer(vel, minus, plus, dt)
  {
    var w := Steer(vel, minus, plus, dt);
    Bounce(pos + w * dt, w, lo, hi)
  }

  /** One axis as the update computes it: the steered velocity `w`, the moved position `m`,
      and the bounce of `m`, make up AxisStep. */
  lemma AxisStepBy(pos: real, vel: real, minus: bool, plus: bool, dt: real, lo: real, hi: real,
                   w: real, m: real, r: (real, real))
    requires lo <= hi
    requires w == Steer(vel, minus, plus, dt) && m == pos + w * dt && r == Bounce(m, w, lo, hi)
    ensures r == AxisStep(pos, vel, minus, plus, dt, lo, hi)
  {
    var w0 := Steer(vel, minus, plus, dt);
    var m0 := pos + w0 * dt;
    assert AxisStep(pos, vel, minus, plus, dt, lo, hi) == Bounce(m0, w0, lo, hi);
    assert m0 == m;
  }

  class BallGame {
    var x: real
    var y: real
    var vx: real
    var vy: real
    var returnPrompt: bool
    var promptChoice: int

    /** The prompt choice is 0 or 1 and the centre lies in the wall band. */
    ghost predicate Valid()
      reads this
    {
      && ValidChoice(promptChoice)
      && MinX <= x <= MaxX && MinY <= y <= MaxY
    }

    function PromptState(): Prompt
      reads this
    {
      Prompt(returnPrompt, promptChoice)
    }

    /** `__init__`: reset, then the prompt closed on No. */
    constructor ()
      ensures Valid()
      ensures x == 480.0 && y == 300.0 && vx == 220.0 && vy == -140.0
      ensures !returnPrompt && promptChoice == 0
    {
      x, y := Width as real / 2.0, Height as real / 2.0;
      vx, vy := 220.0, -140.0;
      returnPrompt := false;
      promptChoice := 0;
    }

    /** `reset`: the ball back to the centre of the screen with its starting velocity. The
        return prompt is left as it was. */
    method Reset()
      requires Valid()
      modifies this
      ensures Valid()
      ensures x == 480.0 && y == 300.0 && vx == 220.0 && vy == -140.0
      ensures returnPrompt == old(returnPrompt) && promptChoice == old(promptChoice)
    {
      x := Width as real / 2.0;
      y := Height as real / 2.0;
      vx := 220.0;
      vy := -140.0;
    }

    /** The same reset closing the prompt on No, so that a game left with Yes starts afresh. */
    method ResetClosingPrompt()
      requires Valid()
      modifies this
      ensures Valid()
      ensures x == 480.0 && y == 300.0 && vx == 220.0 && vy == -140.0
      ensures !returnPrompt && promptChoice == 0
    {
      Reset();
      returnPrompt := false;
      promptChoice := 0;
    }

    /** `handle_event`: only the return prompt reacts to events. Enter on Yes asks for the menu
        and leaves the prompt open. */
    method HandleEvent(ev: Event) returns (result: Action)
      requires Valid()
      modifies this
      ensures Valid()
      ensures PromptState() == PromptAfter(old(PromptState()), ev, false)
      ensures result == PromptResult(old(PromptState()), ev)
      ensures x == old(x) && y == old(y) && vx == old(vx) && vy == old(vy)
    {
      if ev == KeyDown(Escape) {
        returnPrompt := true;
      } else if returnPrompt && ev.KeyDown? {
        if ev.key == Left || ev.key == Right {
          promptChoice := 1 - promptChoice;
        } else if ev.key == Return || ev.key == KpEnter {
          if promptChoice == 1 {
            return ReturnToMenu;
          } else {
            returnPrompt := false;
          }
        } else if ev.key == Escape {
          // The Esc key press was taken by the first branch: this one is dead.
          assert false;
        }
      }
      return NoAction;
    }

    /** One axis of `update`: the held keys change the velocity component, the position moves
        by it, and a position past the band is put back on the edge it crossed with the
        component negated. */
    static method MoveAxis(pos: real, vel: real, minus: bool, plus: bool, dt: real, lo: real, hi: real)
      returns (p: real, v: real)
      requires lo <= hi
      ensures (p, v) == AxisStep(pos, vel, minus, plus, dt, lo, hi)
    {
      v := vel;
      if minus {
        v := v - Accel * dt;
      }
      if plus {
        v := v + Accel * dt;
      }
      ghost var w := v;
      p := pos + v * dt;
      ghost var m := p;
      if p < lo {
        p := lo;
        v := -v;
      } else if p > hi {
        p := hi;
        v := -v;
      }
      AxisStepBy(pos, vel, minus, plus, dt, lo, hi, w, m, (p, v));
    }

    /** `update` without the speed clamp: steer, integrate, then bounce on each axis. */
    method Update(dt: real, held: Arrows)
      requires Valid()
      modifies this
      ensures Valid()
      ensures returnPrompt == old(returnPrompt) && promptChoice == old(promptChoice)
      ensures old(returnPrompt) ==> x == old(x) && y == old(y) && vx == old(vx) && vy == old(vy)
      ensures !old(returnPrompt) ==>
        && (x, vx) == AxisStep(old(x), old(vx), held.left, held.right, dt, MinX, MaxX)
        && (y, vy) == AxisStep(old(y), old(vy), held.up, held.down, dt, MinY, MaxY)
    {
      if returnPrompt {
        return;
      }
      // The two axes do not interact, so each is stepped on its own.
      var px, wx := MoveAxis(x, vx, held.left, held.right, dt, MinX, MaxX);
      var py, wy := MoveAxis(y, vy, held.up, held.down, dt, MinY, MaxY);
      x, y, vx, vy := px, py, wx, wy;
    }
  }

  /** Leaving the game with Yes and starting it again from the menu (which calls `reset`)
      finds the prompt still open, with Yes selected, and the ball frozen under it. */
  method StalePromptOnReentry(dt: real, held: Arrows) returns (open: bool, choice: int, frozen: bool)
    ensures open && choice == 1 && frozen
  {
    var g := new BallGame();
    var r := g.HandleEvent(KeyDown(Escape));
    r := g.HandleEvent(KeyDown(Right));
    r := g.HandleEvent(KeyDown(Return));
    assert r == ReturnToMenu;
    g.Reset();
    var x0, y0 := g.x, g.y;
    g.Update(dt, held);
    open, choice := g.returnPrompt, g.promptChoice;
    frozen := g.x == x0 && g.y == y0;
  }

  /** With the prompt closed by the reset, the same sequence lets the game run again: the first
      frame moves the ball by its velocity. */
  method FreshPromptOnReentry() returns (open: bool, x: real)
    ensures !open && x == 480.0 + 220.0 * 0.25
  {
    var g := new BallGame();
    var r := g.HandleEvent(KeyDown(Escape));
    r := g.HandleEvent(KeyDown(Right));
    r := g.HandleEvent(KeyDown(Return));
    assert r == ReturnToMenu;
    g.ResetClosingPrompt();
    g.Update(0.25, Arrows(false, false, false, false));
    open, x := g.returnPrompt, g.x;
  }
}
