/** The Asteroids mini-game object: the ship, the bullets, the asteroid field, score, lives and
    level, and the shared return prompt. Every operation is tied to a function on `Play`, the
    game's value apart from the prompt; the lemmas about those functions state what a frame, a
    shot and a restart do. */
module Asteroids {
  import opened Events
  import opened AsteroidsRules

  /** The controls held during one frame: Left or A, Right or D, Up or W. */
  datatype Controls = Controls(turnLeft: bool, turnRight: bool, thrust: bool)

  const TurnSpeed: real := 200.0
  const ThrustAcc: real := 220.0
  const Friction: real := 0.995
  const BulletSpeed: real := 420.0
  const BulletLife: real := 0.9
  const ShotCooldown: real := 0.18
  const ShipRadius: real := 14.0
  /** The invincibility a new ship gets (`_init_player(new_life=True)`). */
  const SpawnGrace: real := 2.0
  const StartLives := 3

  /** The game's attributes apart from the prompt. */
  datatype Play = Play(alive: bool, score: int, lives: int, level: int,
                       shotCooldown: real, invincibleTimer: real,
                       shipPos: Vec, shipVel: Vec, shipAngle: real, shipRadius: real,
                       bullets: seq<Bullet>, asteroids: seq<Asteroid>)

  /** What the game keeps true between calls. */
  predicate PlayValid(s: Play) {
    && s.shotCooldown >= 0.0 && s.invincibleTimer >= 0.0
    && s.level >= 1 && s.score >= 0 && s.lives <= StartLives
    && s.shipRadius == ShipRadius && InField(s.shipPos)
    && Field(s.asteroids)
    && (forall b :: b in s.bullets ==> b.life > 0.0)
  }

  /** `max(0.0, x)`. */
  function Max0(x: real): (r: real)
    ensures r >= 0.0 && r >= x && (r == x || r == 0.0)
  {
    if x > 0.0 then x else 0.0
  }

  // ---------- Spawning and resets ----------

  /** `_init_player(new_life)`: the ship at the centre, at rest, pointing up. */
  function Respawned(s: Play, newLife: bool): Play {
    s.(shipPos := Centre, shipVel := Vec(0.0, 0.0), shipAngle := -90.0, shipRadius := ShipRadius,
       invincibleTimer := if newLife then SpawnGrace else 0.0)
  }

  /** `spawn_wave(level)` makes `3 + level` asteroids (none when that is not positive). */
  function WaveSize(level: int): nat {
    if 3 + level > 0 then 3 + level else 0
  }

  predicate WaveReady(wave: seq<SpawnDraw>, level: int) {
    ValidSpawns(wave) && |wave| >= WaveSize(level)
  }

  function Spawned(s: Play, level: int, wave: seq<SpawnDraw>): Play
    requires WaveReady(wave, level)
  {
    s.(asteroids := Wave(wave[..WaveSize(level)]))
  }

  /** `reset`: a new ship, no bullets, a wave for the current level, alive, ready to fire.
      Score, lives and level are kept. */
  function ResetPlay(s: Play, wave: seq<SpawnDraw>): Play
    requires WaveReady(wave, s.level)
  {
    var s1 := Respawned(s, true).(bullets := [], asteroids := []);
    Spawned(s1, s1.level, wave).(alive := true, shotCooldown := 0.0)
  }

  /** The hard restart after a game over: score 0, three lives, level 1, then `reset`. */
  function Restarted(s: Play, wave: seq<SpawnDraw>): Play
    requires WaveReady(wave, 1)
  {
    ResetPlay(s.(score := 0, lives := StartLives, level := 1), wave)
  }

  // ---------- Firing ----------

  /** The bullet `_fire_bullet` makes: from the ship's nose along the heading, at 420 plus
      three tenths of the ship's velocity, living 0.9 seconds. */
  function Shot(s: Play, heading: Vec): Bullet {
    Bullet(Add(s.shipPos, Scale(heading, s.shipRadius + 8.0)),
           Add(Scale(heading, BulletSpeed), Scale(s.shipVel, 0.3)),
           BulletLife)
  }

  /** `_fire_bullet`: nothing while the cooldown runs, otherwise one more bullet and a new
      cooldown. */
  function Fired(s: Play, heading: Vec): Play {
    if s.shotCooldown > 0.0 then s
    else s.(bullets := s.bullets + [Shot(s, heading)], shotCooldown := ShotCooldown)
  }

  predicate IsFireKey(k: Key) {
    k == Space || k == Return || k == KpEnter
  }

  /** The game part of `handle_event` for the prompt as it was before the event: a live ship
      fires on Space or Enter unless the prompt is open; a dead one restarts on Enter, also
      when the prompt took the same key. */
  function EventPlay(s: Play, p: Prompt, ev: Event, heading: Vec, wave: seq<SpawnDraw>): Play
    requires WaveReady(wave, 1)
  {
    var fires := !p.open && s.alive && ev.KeyDown? && IsFireKey(ev.key);
    var s1 := if fires then Fired(s, heading) else s;
    if !s1.alive && ev.KeyDown? && IsEnter(ev.key) then Restarted(s1, wave) else s1
  }

  // ---------- One frame ----------

  /** The cooldown runs down to zero; the invincibility does too, when it is running. */
  function Timed(s: Play, dt: real): (r: Play)
    ensures r == s.(shotCooldown := r.shotCooldown, invincibleTimer := r.invincibleTimer)
    ensures r.shotCooldown >= 0.0 && (s.invincibleTimer >= 0.0 ==> r.invincibleTimer >= 0.0)
    ensures dt >= 0.0 && s.invincibleTimer > dt ==> r.invincibleTimer > 0.0
  {
    s.(shotCooldown := Max0(s.shotCooldown - dt),
       invincibleTimer := if s.invincibleTimer > 0.0 then Max0(s.invincibleTimer - dt) else s.invincibleTimer)
  }

  /** Turning, thrust along `forward` (the unit vector of the turned angle), friction, the
      move and the wrap of the ship. */
  function Steered(s: Play, dt: real, ctl: Controls, forward: Vec): (r: Play)
    ensures r == s.(shipAngle := r.shipAngle, shipVel := r.shipVel, shipPos := r.shipPos)
    ensures InField(r.shipPos)
  {
    var a1 := if ctl.turnLeft then s.shipAngle - TurnSpeed * dt else s.shipAngle;
    var a2 := if ctl.turnRight then a1 + TurnSpeed * dt else a1;
    var v1 := if ctl.thrust then Add(s.shipVel, Scale(Scale(forward, ThrustAcc), dt)) else s.shipVel;
    var v2 := Scale(v1, Friction);
    s.(shipAngle := a2, shipVel := v2, shipPos := Wrap(Add(s.shipPos, Scale(v2, dt))))
  }

  function Drifted(asts: seq<Asteroid>, dt: real): (r: seq<Asteroid>)
    ensures |r| == |asts|
    ensures forall i :: 0 <= i < |asts| ==> r[i].size == asts[i].size
    ensures Field(asts) ==> Field(r)
  {
    seq(|asts|, i requires 0 <= i < |asts| => Drift(asts[i], dt))
  }

  function Flown(bs: seq<Bullet>, dt: real): (r: seq<Bullet>)
    ensures |r| == |bs|
  {
    seq(|bs|, i requires 0 <= i < |bs| => Fly(bs[i], dt))
  }

  /** Asteroids drift; bullets fly and the expired ones are dropped. */
  function Moved(s: Play, dt: real): (r: Play)
    ensures r == s.(asteroids := r.asteroids, bullets := r.bullets)
    ensures |r.asteroids| == |s.asteroids|
    ensures SizesOk(s.asteroids) ==> SizesOk(r.asteroids)
    ensures Field(s.asteroids) ==> Field(r.asteroids)
    ensures forall b :: b in r.bullets ==> b.life > 0.0
  {
    s.(asteroids := Drifted(s.asteroids, dt), bullets := LiveBullets(Flown(s.bullets, dt)))
  }

  /** The bullet pass of `_handle_collisions`. */
  function BulletPass(s: Play, bulletHit: (Vec, Asteroid) -> bool, kids: seq<SplitDraw>): (r: Play)
    requires SizesOk(s.asteroids) && |kids| >= |s.asteroids|
    ensures r == s.(asteroids := r.asteroids, score := r.score, bullets := r.bullets)
    ensures forall b :: b in r.bullets ==> b.life > 0.0
  {
    s.(asteroids := SplitField(s.asteroids, s.bullets, kids, bulletHit),
       score := s.score + PassScore(s.asteroids, s.bullets, bulletHit),
       bullets := LiveBullets(MarkSpent(s.bullets, Spent(s.asteroids, s.bullets, bulletHit))))
  }

  /** The ship pass of `_handle_collisions`: unless invincible, the first asteroid the ship
      meets costs a life, and the ship dies on its last life or is put back otherwise. */
  function ShipChecked(s: Play, shipHit: (Vec, real, Asteroid) -> bool): (r: Play)
    ensures r.score == s.score && r.level == s.level && r.asteroids == s.asteroids && r.bullets == s.bullets
    ensures r.shotCooldown == s.shotCooldown
    ensures s.lives - 1 <= r.lives <= s.lives
    ensures r.lives == s.lives ==> r == s
    ensures s.invincibleTimer > 0.0 ==> r == s
    ensures r.lives < s.lives && r.lives <= 0 ==> !r.alive
    ensures r.lives < s.lives && r.lives > 0 ==>
              && r.alive == s.alive && r.shipPos == Centre && r.shipVel == Vec(0.0, 0.0) && r.shipAngle == -90.0
              && r.invincibleTimer == SpawnGrace && r.shipRadius == ShipRadius
  {
    if s.invincibleTimer <= 0.0 && FirstShipHit(s.asteroids, s.shipPos, s.shipRadius, shipHit) < |s.asteroids| then
      if s.lives - 1 <= 0 then s.(lives := s.lives - 1, alive := false)
      else Respawned(s.(lives := s.lives - 1), true)
    else s
  }

  /** `_handle_collisions`: the bullet pass, then the ship pass. */
  function Collided(s: Play, bulletHit: (Vec, Asteroid) -> bool, shipHit: (Vec, real, Asteroid) -> bool,
                    kids: seq<SplitDraw>): Play
    requires SizesOk(s.asteroids) && |kids| >= |s.asteroids|
  {
    ShipChecked(BulletPass(s, bulletHit, kids), shipHit)
  }

  /** A cleared field with the ship alive moves to the next level and its wave. */
  function Advanced(s: Play, wave: seq<SpawnDraw>): (r: Play)
    requires WaveReady(wave, s.level + 1)
    ensures r == s.(level := r.level, asteroids := r.asteroids)
  {
    if |s.asteroids| == 0 && s.alive then Spawned(s.(level := s.level + 1), s.level + 1, wave) else s
  }

  /** The draws a frame may need: a split pair per asteroid and the next level's wave. */
  predicate FrameReady(s: Play, kids: seq<SplitDraw>, wave: seq<SpawnDraw>) {
    SizesOk(s.asteroids) && |kids| >= |s.asteroids| && ValidSplits(kids) && WaveReady(wave, s.level + 1)
  }

  /** The ship and field after the motion of a live frame, before the collisions. */
  function Flew(s: Play, dt: real, ctl: Controls, forward: Vec): Play {
    Moved(Steered(Timed(s, dt), dt, ctl, forward), dt)
  }

  /** `update(dt)` with the prompt closed: timers always, the rest only while alive. */
  function Frame(s: Play, dt: real, ctl: Controls, forward: Vec, bulletHit: (Vec, Asteroid) -> bool,
                 shipHit: (Vec, real, Asteroid) -> bool, kids: seq<SplitDraw>, wave: seq<SpawnDraw>): Play
    requires FrameReady(s, kids, wave)
  {
    if !s.alive then Timed(s, dt)
    else Advanced(Collided(Flew(s, dt, ctl, forward), bulletHit, shipHit, kids), wave)
  }

  // ---------- Properties ----------

  lemma ResetKeepsValid(s: Play, wave: seq<SpawnDraw>)
    requires PlayValid(s) && WaveReady(wave, s.level)
    ensures PlayValid(ResetPlay(s, wave))
    ensures ResetPlay(s, wave).alive && |ResetPlay(s, wave).asteroids| == s.level + 3
  {
    WaveIsField(wave[..WaveSize(s.level)]);
    CentreInField();
  }

  /** A hard restart is a fresh game: score 0, three lives, level 1 and a wave of four. */
  lemma RestartIsFresh(s: Play, wave: seq<SpawnDraw>)
    requires PlayValid(s) && WaveReady(wave, 1)
    ensures var r := Restarted(s, wave);
            PlayValid(r) && r.alive && r.score == 0 && r.lives == 3 && r.level == 1
            && |r.asteroids| == 4 && r.bullets == [] && r.shipPos == Centre
  {
    ResetKeepsValid(s.(score := 0, lives := StartLives, level := 1), wave);
  }

  /** However often it is asked to fire, the ship fires at most once until the cooldown has run
      down: one shot adds one bullet and starts the cooldown, which blocks the next. */
  lemma FireRateLimited(s: Play, h1: Vec, h2: Vec)
    requires s.shotCooldown >= 0.0
    ensures |Fired(Fired(s, h1), h2).bullets| == |s.bullets| + (if s.shotCooldown > 0.0 then 0 else 1)
    ensures Fired(s, h1).shotCooldown > 0.0
  {
  }

  lemma FiredKeepsValid(s: Play, heading: Vec)
    requires PlayValid(s)
    ensures PlayValid(Fired(s, heading))
  {
  }

  lemma EventKeepsValid(s: Play, p: Prompt, ev: Event, heading: Vec, wave: seq<SpawnDraw>)
    requires PlayValid(s) && WaveReady(wave, 1)
    ensures PlayValid(EventPlay(s, p, ev, heading, wave))
  {
    var fires := !p.open && s.alive && ev.KeyDown? && IsFireKey(ev.key);
    var s1 := if fires then Fired(s, heading) else s;
    FiredKeepsValid(s, heading);
    if !s1.alive && ev.KeyDown? && IsEnter(ev.key) {
      RestartIsFresh(s1, wave);
    }
  }

  /** The motion of a frame keeps the invariant and touches neither score, lives nor level. */
  lemma FlewKeepsValid(s: Play, dt: real, ctl: Controls, forward: Vec)
    requires PlayValid(s)
    ensures var m := Flew(s, dt, ctl, forward);
            && PlayValid(m)
            && m.score == s.score && m.lives == s.lives && m.level == s.level && m.alive == s.alive
            && m.invincibleTimer == Timed(s, dt).invincibleTimer && |m.asteroids| == |s.asteroids|
  {
    var t := Timed(s, dt);
    assert PlayValid(t);
    var st := Steered(t, dt, ctl, forward);
    assert PlayValid(st);
  }

  /** The bullet pass keeps the invariant and adds between 0 and 30 per asteroid to the score. */
  lemma BulletPassKeepsValid(s: Play, bulletHit: (Vec, Asteroid) -> bool, kids: seq<SplitDraw>)
    requires PlayValid(s) && |kids| >= |s.asteroids| && ValidSplits(kids)
    ensures SizesOk(s.asteroids)
    ensures var r := BulletPass(s, bulletHit, kids);
            PlayValid(r) && s.score <= r.score <= s.score + 30 * |s.asteroids|
  {
    SplitFieldIsField(s.asteroids, s.bullets, kids, bulletHit);
    PassScoreBounds(s.asteroids, s.bullets, bulletHit);
    HitsAtMostField(s.asteroids, s.bullets, bulletHit);
  }

  lemma ShipCheckedKeepsValid(s: Play, shipHit: (Vec, real, Asteroid) -> bool)
    requires PlayValid(s)
    ensures PlayValid(ShipChecked(s, shipHit))
  {
    CentreInField();
  }

  /** The bullet pass over one more asteroid: its outcome, its score and its spent bullet are
      added to those of the asteroids before it. */
  lemma PassStep(asts: seq<Asteroid>, bs: seq<Bullet>, kids: seq<SplitDraw>, hit: (Vec, Asteroid) -> bool, i: nat)
    requires i < |asts| && SizesOk(asts) && |kids| >= |asts|
    ensures var a, pre := asts[i], asts[..i];
            && SplitField(asts[..i + 1], bs, kids, hit) == SplitField(pre, bs, kids, hit) + Outcome(a, bs, kids[i], hit)
            && PassScore(asts[..i + 1], bs, hit) == PassScore(pre, bs, hit) + (if IsHit(a, bs, hit) then 10 * a.size else 0)
            && Spent(asts[..i + 1], bs, hit) == Spent(pre, bs, hit) + (if IsHit(a, bs, hit) then {FirstHit(bs, a, hit)} else {})
  {
    assert asts[..i + 1][..i] == asts[..i];
  }

  /** The bullet pass over one more asteroid, seen from the bullets as the pass has left them
      so far: that asteroid meets the same first bullet as in the untouched list, and spending
      it, adding its outcome and its score extend the pass by asteroid i. */
  lemma PassAdvance(A: seq<Asteroid>, B: seq<Bullet>, kids: seq<SplitDraw>, hit: (Vec, Asteroid) -> bool, i: nat)
    requires i < |A| && SizesOk(A) && |kids| >= |A|
    ensures var C := MarkSpent(B, Spent(A[..i], B, hit));
            var k := FirstHit(C, A[i], hit);
            && k == FirstHit(B, A[i], hit)
            && IsHit(A[i], C, hit) == IsHit(A[i], B, hit)
            && SplitField(A[..i + 1], B, kids, hit) == SplitField(A[..i], B, kids, hit) + Outcome(A[i], C, kids[i], hit)
            && PassScore(A[..i + 1], B, hit) == PassScore(A[..i], B, hit) + (if IsHit(A[i], C, hit) then 10 * A[i].size else 0)
            && MarkSpent(B, Spent(A[..i + 1], B, hit)) == if IsHit(A[i], C, hit) then C[k := C[k].(life := 0.0)] else C
  {
    var S := Spent(A[..i], B, hit);
    PassStep(A, B, kids, hit, i);
    SpentInRange(A[..i], B, hit);
    FirstHitMarked(B, S, A[i], hit);
    if IsHit(A[i], B, hit) {
      MarkSpentAdd(B, S, FirstHit(B, A[i], hit));
    }
  }

  /** Spending bullets does not move them, so the first hit is the same. */
  lemma FirstHitMarked(bs: seq<Bullet>, spent: set<nat>, a: Asteroid, hit: (Vec, Asteroid) -> bool)
    ensures FirstHit(MarkSpent(bs, spent), a, hit) == FirstHit(bs, a, hit)
  {
    var cs := MarkSpent(bs, spent);
    assert forall j :: 0 <= j < |bs| ==> cs[j].pos == bs[j].pos;
    FirstHitByPositions(cs, bs, a, hit);
  }

  /** Spending one more bullet is setting its life to zero in place. */
  lemma MarkSpentAdd(bs: seq<Bullet>, spent: set<nat>, j: nat)
    requires j < |bs|
    ensures MarkSpent(bs, spent)[j := MarkSpent(bs, spent)[j].(life := 0.0)] == MarkSpent(bs, spent + {j})
  {
  }

  lemma {:induction false} HitsAtMostField(asts: seq<Asteroid>, bs: seq<Bullet>, hit: (Vec, Asteroid) -> bool)
    ensures Hits(asts, bs, hit) <= |asts|
    decreases |asts|
  {
    if |asts| > 0 {
      HitsAtMostField(asts[..|asts| - 1], bs, hit);
    }
  }

  /** The collisions of a live frame, with the facts the frame properties rest on. */
  lemma CollidedAfterFlight(s: Play, dt: real, ctl: Controls, forward: Vec, bulletHit: (Vec, Asteroid) -> bool,
                            shipHit: (Vec, real, Asteroid) -> bool, kids: seq<SplitDraw>)
    requires PlayValid(s) && |kids| >= |s.asteroids| && ValidSplits(kids)
    ensures var m := Flew(s, dt, ctl, forward);
            SizesOk(m.asteroids) && |kids| >= |m.asteroids|
    ensures var c := Collided(Flew(s, dt, ctl, forward), bulletHit, shipHit, kids);
            && PlayValid(c) && c.level == s.level
            && s.score <= c.score <= s.score + 30 * |s.asteroids|
            && s.lives - 1 <= c.lives <= s.lives
            && (c.lives < s.lives && c.lives <= 0 ==> !c.alive)
            && (c.lives < s.lives && c.lives > 0 ==> c.alive == s.alive && c.shipPos == Centre && c.invincibleTimer == SpawnGrace)
            && (dt >= 0.0 && s.invincibleTimer > dt ==> c.lives == s.lives)
  {
    FlewKeepsValid(s, dt, ctl, forward);
    var m := Flew(s, dt, ctl, forward);
    BulletPassKeepsValid(m, bulletHit, kids);
    var b := BulletPass(m, bulletHit, kids);
    ShipCheckedKeepsValid(b, shipHit);
  }

  /** A frame keeps the game's invariant. */
  lemma FrameKeepsValid(s: Play, dt: real, ctl: Controls, forward: Vec, bulletHit: (Vec, Asteroid) -> bool,
                        shipHit: (Vec, real, Asteroid) -> bool, kids: seq<SplitDraw>, wave: seq<SpawnDraw>)
    requires PlayValid(s) && FrameReady(s, kids, wave)
    ensures PlayValid(Frame(s, dt, ctl, forward, bulletHit, shipHit, kids, wave))
  {
    if s.alive {
      CollidedAfterFlight(s, dt, ctl, forward, bulletHit, shipHit, kids);
      AdvancedKeepsValid(Collided(Flew(s, dt, ctl, forward), bulletHit, shipHit, kids), wave);
    }
  }

  /** Moving to the next level keeps the invariant. */
  lemma AdvancedKeepsValid(c: Play, wave: seq<SpawnDraw>)
    requires PlayValid(c) && WaveReady(wave, c.level + 1)
    ensures PlayValid(Advanced(c, wave))
  {
    if |c.asteroids| == 0 && c.alive {
      WaveIsField(wave[..WaveSize(c.level + 1)]);
    }
  }

  /** A frame never lowers the score and adds at most 30 per asteroid on the field. */
  lemma FrameScore(s: Play, dt: real, ctl: Controls, forward: Vec, bulletHit: (Vec, Asteroid) -> bool,
                   shipHit: (Vec, real, Asteroid) -> bool, kids: seq<SplitDraw>, wave: seq<SpawnDraw>)
    requires PlayValid(s) && FrameReady(s, kids, wave)
    ensures var f := Frame(s, dt, ctl, forward, bulletHit, shipHit, kids, wave);
            s.score <= f.score <= s.score + 30 * |s.asteroids|
  {
    if s.alive {
      CollidedAfterFlight(s, dt, ctl, forward, bulletHit, shipHit, kids);
    }
  }

  /** A frame costs at most one life; losing the last one ends the game, any other puts a new,
      invincible ship at the centre. */
  lemma FrameLives(s: Play, dt: real, ctl: Controls, forward: Vec, bulletHit: (Vec, Asteroid) -> bool,
                   shipHit: (Vec, real, Asteroid) -> bool, kids: seq<SplitDraw>, wave: seq<SpawnDraw>)
    requires PlayValid(s) && FrameReady(s, kids, wave)
    ensures var f := Frame(s, dt, ctl, forward, bulletHit, shipHit, kids, wave);
            && s.lives - 1 <= f.lives <= s.lives
            && (f.lives < s.lives && f.lives <= 0 ==> !f.alive)
            && (f.lives < s.lives && f.lives > 0 ==>
                  && f.alive && f.shipPos == Centre && f.shipVel == Vec(0.0, 0.0) && f.shipAngle == -90.0
                  && f.invincibleTimer == SpawnGrace)
  {
    if s.alive {
      CollidedAfterFlight(s, dt, ctl, forward, bulletHit, shipHit, kids);
    }
  }

  /** While the invincibility outlasts the frame, the ship loses no life. */
  lemma InvincibleKeepsLives(s: Play, dt: real, ctl: Controls, forward: Vec, bulletHit: (Vec, Asteroid) -> bool,
                             shipHit: (Vec, real, Asteroid) -> bool, kids: seq<SplitDraw>, wave: seq<SpawnDraw>)
    requires PlayValid(s) && FrameReady(s, kids, wave)
    requires 0.0 <= dt < s.invincibleTimer
    ensures Frame(s, dt, ctl, forward, bulletHit, shipHit, kids, wave).lives == s.lives
  {
    if s.alive {
      CollidedAfterFlight(s, dt, ctl, forward, bulletHit, shipHit, kids);
    }
  }

  /** After a frame a live game always has asteroids to shoot, and the level moves up by at
      most one, and only with a fresh wave of `level + 4` asteroids (which AdvancedLevel
      names exactly). */
  lemma FrameLevel(s: Play, dt: real, ctl: Controls, forward: Vec, bulletHit: (Vec, Asteroid) -> bool,
                   shipHit: (Vec, real, Asteroid) -> bool, kids: seq<SplitDraw>, wave: seq<SpawnDraw>)
    requires PlayValid(s) && FrameReady(s, kids, wave)
    ensures var f := Frame(s, dt, ctl, forward, bulletHit, shipHit, kids, wave);
            && (f.alive ==> |f.asteroids| > 0)
            && (f.level == s.level || (f.level == s.level + 1 && |f.asteroids| == s.level + 4))
  {
    if s.alive {
      CollidedAfterFlight(s, dt, ctl, forward, bulletHit, shipHit, kids);
      AdvancedLevel(Collided(Flew(s, dt, ctl, forward), bulletHit, shipHit, kids), wave);
    }
  }

  /** Clearing the field moves to the next level with its wave; otherwise the level stays.
      Either way a live ship has asteroids around it. */
  lemma AdvancedLevel(c: Play, wave: seq<SpawnDraw>)
    requires c.level >= 1 && WaveReady(wave, c.level + 1)
    ensures var f := Advanced(c, wave);
            && (f.alive ==> |f.asteroids| > 0)
            && (f.level == c.level || (f.level == c.level + 1 && f.asteroids == Wave(wave[..WaveSize(c.level + 1)])))
            && (f.level == c.level + 1 ==> |f.asteroids| == c.level + 4)
  {
  }

  class AsteroidsGame {
    var returnPrompt: bool
    var promptChoice: int
    var alive: bool
    var score: int
    var lives: int
    var level: int
    var shotCooldown: real
    var invincibleTimer: real
    var shipPos: Vec
    var shipVel: Vec
    var shipAngle: real
    var shipRadius: real
    var bullets: seq<Bullet>
    var asteroids: seq<Asteroid>

    function PromptState(): Prompt
      reads this
    {
      Prompt(returnPrompt, promptChoice)
    }

    function PlayState(): Play
      reads this
    {
      Play(alive, score, lives, level, shotCooldown, invincibleTimer,
           shipPos, shipVel, shipAngle, shipRadius, bullets, asteroids)
    }

    ghost predicate Valid()
      reads this
    {
      ValidChoice(promptChoice) && PlayValid(PlayState())
    }

    /** `__init__`: prompt closed, alive, score 0, three lives, level 1, timers at zero. The
        ship, the bullets and the field, which the source creates in `reset`, start as
        `_init_player(False)` and empty lists. */
    constructor ()
      ensures Valid()
      ensures PromptState() == Prompt(false, 0)
      ensures PlayState() == Play(true, 0, StartLives, 1, 0.0, 0.0, Centre, Vec(0.0, 0.0), -90.0, ShipRadius, [], [])
    {
      returnPrompt, promptChoice := false, 0;
      alive, score, lives, level := true, 0, StartLives, 1;
      shotCooldown, invincibleTimer := 0.0, 0.0;
      shipPos, shipVel, shipAngle, shipRadius := Centre, Vec(0.0, 0.0), -90.0, ShipRadius;
      bullets, asteroids := [], [];
      CentreInField();
    }

    /** `_make_asteroid`: one vertex length per uniform draw. */
    static method MakeAsteroid(pos: Vec, vel: Vec, size: int, d: ShapeDraw) returns (a: Asteroid)
      requires 1 <= size <= 3
      ensures a == NewAsteroid(pos, vel, size, d)
      ensures ValidShape(d) ==> WellShaped(a)
    {
      var base := BaseRadius(size);
      var verts: seq<real> := [];
      var i := 0;
      while i < |d.us|
        invariant 0 <= i <= |d.us| && |verts| == i
        invariant forall k :: 0 <= k < i ==> verts[k] == VertexRadius(size, d.us[k])
      {
        verts := verts + [base * (1.0 + Jag * (d.us[i] - 0.5))];
        i := i + 1;
      }
      assert verts == Outline(size, d.us);
      a := Asteroid(pos, vel, verts, d.rot, d.rotSpeed, size);
      if ValidShape(d) {
        NewAsteroidWellShaped(pos, vel, size, d);
      }
    }

    /** `_init_player(new_life)`. */
    method InitPlayer(newLife: bool)
      modifies this
      ensures PlayState() == Respawned(old(PlayState()), newLife)
      ensures PromptState() == old(PromptState())
    {
      shipPos := Centre;
      shipVel := Vec(0.0, 0.0);
      shipAngle := -90.0;
      shipRadius := ShipRadius;
      invincibleTimer := if newLife then SpawnGrace else 0.0;
    }

    /** `spawn_wave(level)`: the field becomes the wave made from the first draws. */
    method SpawnWave(lvl: int, wave: seq<SpawnDraw>)
      requires WaveReady(wave, lvl)
      modifies this
      ensures PlayState() == Spawned(old(PlayState()), lvl, wave)
      ensures PromptState() == old(PromptState())
    {
      asteroids := [];
      var n := 3 + lvl;
      var i := 0;
      while i < n
        invariant 0 <= i <= WaveSize(lvl)
        invariant asteroids == Wave(wave[..i])
        invariant PlayState() == old(PlayState()).(asteroids := asteroids)
        invariant PromptState() == old(PromptState())
      {
        var d := wave[i];
        var a := MakeAsteroid(d.pos, d.vel, d.size, d.shape);
        assert Wave(wave[..i + 1]) == Wave(wave[..i]) + [a];
        asteroids := asteroids + [a];
        i := i + 1;
      }
    }

    /** `reset`. */
    method Reset(wave: seq<SpawnDraw>)
      requires WaveReady(wave, level)
      modifies this
      ensures PlayState() == ResetPlay(old(PlayState()), wave)
      ensures PromptState() == old(PromptState())
    {
      InitPlayer(true);
      bullets := [];
      asteroids := [];
      SpawnWave(level, wave);
      alive := true;
      shotCooldown := 0.0;
    }

    /** `_fire_bullet`, along the heading of the ship's angle. */
    method FireBullet(heading: Vec)
      modifies this
      ensures PlayState() == Fired(old(PlayState()), heading)
      ensures PromptState() == old(PromptState())
    {
      if shotCooldown > 0.0 {
        return;
      }
      var pos := Add(shipPos, Scale(heading, shipRadius + 8.0));
      var bullet := Bullet(pos, Add(Scale(heading, BulletSpeed), Scale(shipVel, 0.3)), BulletLife);
      bullets := bullets + [bullet];
      shotCooldown := ShotCooldown;
    }

    /** The return prompt's part of `handle_event`: Esc opens it, the arrows toggle the choice
        and Enter closes it, asking for the menu on Yes. */
    method PromptEvent(ev: Event) returns (result: Action)
      requires ValidChoice(promptChoice)
      modifies this
      ensures PromptState() == PromptAfter(old(PromptState()), ev, true)
      ensures result == PromptResult(old(PromptState()), ev)
      ensures PlayState() == old(PlayState())
    {
      result := NoAction;
      if ev == KeyDown(Escape) {
        returnPrompt := true;
      } else if returnPrompt && ev.KeyDown? {
        if ev.key == Left || ev.key == Right {
          promptChoice := 1 - promptChoice;
        } else if ev.key == Return || ev.key == KpEnter {
          if promptChoice == 1 {
            result := ReturnToMenu;
          }
          returnPrompt := false;
        } else if ev.key == Escape {
          // The Esc key press was taken by the first branch: this one is dead.
          assert false;
        }
      }
    }

    /** The hard restart after a game over: score, lives and level back to their start, then
        `reset`. */
    method Restart(wave: seq<SpawnDraw>)
      requires WaveReady(wave, 1)
      modifies this
      ensures PlayState() == Restarted(old(PlayState()), wave)
      ensures PromptState() == old(PromptState())
    {
      score := 0;
      lives := StartLives;
      level := 1;
      Reset(wave);
    }

    /** `handle_event`: the prompt (Enter on Yes asks for the menu and closes it), firing while
        the prompt is closed, and the hard restart after a game over. */
    method HandleEvent(ev: Event, heading: Vec, wave: seq<SpawnDraw>) returns (result: Action)
      requires Valid() && WaveReady(wave, 1)
      modifies this
      ensures Valid()
      ensures PromptState() == PromptAfter(old(PromptState()), ev, true)
      ensures result == PromptResult(old(PromptState()), ev)
      ensures PlayState() == EventPlay(old(PlayState()), old(PromptState()), ev, heading, wave)
    {
      EventKeepsValid(PlayState(), PromptState(), ev, heading, wave);
      var wasOpen := returnPrompt;
      result := PromptEvent(ev);
      if !wasOpen && alive && ev.KeyDown? && IsFireKey(ev.key) {
        FireBullet(heading);
      }
      if !alive && ev.KeyDown? && IsEnter(ev.key) {
        Restart(wave);
      }
    }

    /** The asteroid loop of `update`: each asteroid drifts in place. */
    method DriftAsteroids(dt: real)
      modifies this
      ensures PlayState() == old(PlayState()).(asteroids := Drifted(old(asteroids), dt))
      ensures PromptState() == old(PromptState())
    {
      var i := 0;
      while i < |asteroids|
        invariant 0 <= i <= |asteroids| == |old(asteroids)|
        invariant forall k :: 0 <= k < i ==> asteroids[k] == Drift(old(asteroids)[k], dt)
        invariant forall k :: i <= k < |asteroids| ==> asteroids[k] == old(asteroids)[k]
        invariant PlayState() == old(PlayState()).(asteroids := asteroids)
        invariant PromptState() == old(PromptState())
      {
        asteroids := asteroids[i := Drift(asteroids[i], dt)];
        i := i + 1;
      }
      assert asteroids == Drifted(old(asteroids), dt);
    }

    /** The bullet loop of `update`: each bullet flies in place, then the expired ones go. */
    method FlyBullets(dt: real)
      modifies this
      ensures PlayState() == old(PlayState()).(bullets := LiveBullets(Flown(old(bullets), dt)))
      ensures PromptState() == old(PromptState())
    {
      var i := 0;
      while i < |bullets|
        invariant 0 <= i <= |bullets| == |old(bullets)|
        invariant forall k :: 0 <= k < i ==> bullets[k] == Fly(old(bullets)[k], dt)
        invariant forall k :: i <= k < |bullets| ==> bullets[k] == old(bullets)[k]
        invariant PlayState() == old(PlayState()).(bullets := bullets)
        invariant PromptState() == old(PromptState())
      {
        bullets := bullets[i := Fly(bullets[i], dt)];
        i := i + 1;
      }
      assert bullets == Flown(old(bullets), dt);
      bullets := LiveBullets(bullets);
    }

    /** The inner loop of the bullet pass: the index of the first bullet inside `ast`, or the
        number of bullets when there is none. */
    static method FirstBulletIn(bs: seq<Bullet>, ast: Asteroid, bulletHit: (Vec, Asteroid) -> bool) returns (j: nat)
      ensures j == FirstHit(bs, ast, bulletHit)
    {
      j := 0;
      while j < |bs|
        invariant 0 <= j <= |bs|
        invariant forall m :: 0 <= m < j ==> !bulletHit(bs[m].pos, ast)
      {
        if bulletHit(bs[j].pos, ast) {
          return;
        }
        j := j + 1;
      }
    }

    /** One asteroid of the bullet pass: the first bullet inside it is spent, the score grows
        by ten times its size, and it gives way to its fragments; unhit, it stays. */
    static method ShootOne(ast: Asteroid, bs: seq<Bullet>, kid: SplitDraw, bulletHit: (Vec, Asteroid) -> bool)
      returns (out: seq<Asteroid>, bullets: seq<Bullet>, gained: int)
      requires 1 <= ast.size <= 3
      ensures out == Outcome(ast, bs, kid, bulletHit)
      ensures gained == if IsHit(ast, bs, bulletHit) then 10 * ast.size else 0
      ensures bullets == if IsHit(ast, bs, bulletHit)
                         then bs[FirstHit(bs, ast, bulletHit) := bs[FirstHit(bs, ast, bulletHit)].(life := 0.0)]
                         else bs
    {
      var j := FirstBulletIn(bs, ast, bulletHit);
      if j < |bs| {
        bullets := bs[j := bs[j].(life := 0.0)];
        gained := 10 * ast.size;
        out := [];
        if ast.size > 1 {
          var c1 := MakeAsteroid(ast.pos, kid.first.vel, ast.size - 1, kid.first.shape);
          var c2 := MakeAsteroid(ast.pos, kid.second.vel, ast.size - 1, kid.second.shape);
          out := [c1, c2];
        }
      } else {
        out, bullets, gained := [ast], bs, 0;
      }
    }

    /** The two loops of the bullet pass over the asteroids `A` and the bullets `B`: every
        asteroid in turn scans all the bullets, spent ones included. */
    static method ShootPass(A: seq<Asteroid>, B: seq<Bullet>, bulletHit: (Vec, Asteroid) -> bool, kids: seq<SplitDraw>)
      returns (newAsteroids: seq<Asteroid>, bullets: seq<Bullet>, gained: int)
      requires SizesOk(A) && |kids| >= |A|
      ensures newAsteroids == SplitField(A, B, kids, bulletHit)
      ensures bullets == MarkSpent(B, Spent(A, B, bulletHit))
      ensures gained == PassScore(A, B, bulletHit)
    {
      newAsteroids, bullets, gained := [], B, 0;
      var i := 0;
      while i < |A|
        invariant 0 <= i <= |A|
        invariant newAsteroids == SplitField(A[..i], B, kids, bulletHit)
        invariant bullets == MarkSpent(B, Spent(A[..i], B, bulletHit))
        invariant gained == PassScore(A[..i], B, bulletHit)
      {
        PassAdvance(A, B, kids, bulletHit, i);
        var out, bs, g := ShootOne(A[i], bullets, kids[i], bulletHit);
        newAsteroids, bullets, gained := newAsteroids + out, bs, gained + g;
        i := i + 1;
      }
      assert A[..i] == A;
    }

    /** The bullet pass of `_handle_collisions`, then the spent and expired bullets dropped. */
    method ShootAsteroids(bulletHit: (Vec, Asteroid) -> bool, kids: seq<SplitDraw>)
      requires SizesOk(asteroids) && |kids| >= |asteroids|
      modifies this
      ensures PlayState() == BulletPass(old(PlayState()), bulletHit, kids)
      ensures PromptState() == old(PromptState())
    {
      ghost var s0 := PlayState();
      var na, nb, gained := ShootPass(asteroids, bullets, bulletHit, kids);
      var lb := LiveBullets(nb);
      ghost var r := BulletPass(s0, bulletHit, kids);
      assert r.asteroids == na && r.bullets == lb && r.score == s0.score + gained;
      asteroids := na;
      bullets := lb;
      score := score + gained;
      assert PlayState() == s0.(asteroids := na, bullets := lb, score := s0.score + gained);
    }

    /** The ship pass of `_handle_collisions`. */
    method CheckShip(shipHit: (Vec, real, Asteroid) -> bool)
      modifies this
      ensures PlayState() == ShipChecked(old(PlayState()), shipHit)
      ensures PromptState() == old(PromptState())
    {
      if invincibleTimer <= 0.0 {
        var n := 0;
        while n < |asteroids|
          invariant 0 <= n <= |asteroids|
          invariant forall m :: 0 <= m < n ==> !shipHit(shipPos, shipRadius, asteroids[m])
          invariant PlayState() == old(PlayState()) && PromptState() == old(PromptState())
        {
          if shipHit(shipPos, shipRadius, asteroids[n]) {
            assert n == FirstShipHit(asteroids, shipPos, shipRadius, shipHit);
            lives := lives - 1;
            if lives <= 0 {
              alive := false;
            } else {
              InitPlayer(true);
            }
            return;
          }
          n := n + 1;
        }
      }
    }

    /** `_handle_collisions` with the two hit tests as parameters. */
    method HandleCollisions(bulletHit: (Vec, Asteroid) -> bool, shipHit: (Vec, real, Asteroid) -> bool,
                            kids: seq<SplitDraw>)
      requires SizesOk(asteroids) && |kids| >= |asteroids|
      modifies this
      ensures PlayState() == Collided(old(PlayState()), bulletHit, shipHit, kids)
      ensures PromptState() == old(PromptState())
    {
      ShootAsteroids(bulletHit, kids);
      CheckShip(shipHit);
    }

    /** The timers of `update`: the cooldown runs down, and the invincibility when running. */
    method Tick(dt: real)
      modifies this
      ensures PlayState() == Timed(old(PlayState()), dt)
      ensures PromptState() == old(PromptState())
    {
      shotCooldown := Max0(shotCooldown - dt);
      if invincibleTimer > 0.0 {
        invincibleTimer := Max0(invincibleTimer - dt);
      }
    }

    /** The ship part of `update`: turn, thrust, friction, move and wrap. */
    method SteerShip(dt: real, ctl: Controls, forward: Vec)
      modifies this
      ensures PlayState() == Steered(old(PlayState()), dt, ctl, forward)
      ensures PromptState() == old(PromptState())
    {
      // The ship works on local copies and stores them at the end.
      var angle, vel, pos := shipAngle, shipVel, shipPos;
      if ctl.turnLeft {
        angle := angle - TurnSpeed * dt;
      }
      if ctl.turnRight {
        angle := angle + TurnSpeed * dt;
      }
      if ctl.thrust {
        vel := Add(vel, Scale(Scale(forward, ThrustAcc), dt));
      }
      vel := Scale(vel, Friction);
      pos := Wrap(Add(pos, Scale(vel, dt)));
      shipAngle, shipVel, shipPos := angle, vel, pos;
    }

    /** The end of `update`: a cleared field while alive brings the next level's wave. */
    method NextLevel(wave: seq<SpawnDraw>)
      requires WaveReady(wave, level + 1)
      modifies this
      ensures PlayState() == Advanced(old(PlayState()), wave)
      ensures PromptState() == old(PromptState())
    {
      if |asteroids| == 0 && alive {
        level := level + 1;
        SpawnWave(level, wave);
      }
    }

    /** `update(dt)`: nothing while the prompt is open; otherwise the timers, and while alive the
        ship, the asteroids, the bullets, the collisions and the level. The held controls, the
        unit vector of the turned angle, both hit tests and all random draws are inputs. */
    method Update(dt: real, ctl: Controls, forward: Vec, bulletHit: (Vec, Asteroid) -> bool,
                  shipHit: (Vec, real, Asteroid) -> bool, kids: seq<SplitDraw>, wave: seq<SpawnDraw>)
      requires Valid() && FrameReady(PlayState(), kids, wave)
      modifies this
      ensures Valid()
      ensures PromptState() == old(PromptState())
      ensures PlayState() == if old(returnPrompt) then old(PlayState())
                             else Frame(old(PlayState()), dt, ctl, forward, bulletHit, shipHit, kids, wave)
    {
      if returnPrompt {
        return;
      }
      ghost var s0 := PlayState();
      FrameKeepsValid(s0, dt, ctl, forward, bulletHit, shipHit, kids, wave);
      CollidedAfterFlight(s0, dt, ctl, forward, bulletHit, shipHit, kids);
      Tick(dt);
      if !alive {
        return;
      }
      SteerShip(dt, ctl, forward);
      DriftAsteroids(dt);
      FlyBullets(dt);
      assert PlayState() == Flew(s0, dt, ctl, forward);
      HandleCollisions(bulletHit, shipHit, kids);
      NextLevel(wave);
    }
  }
}
