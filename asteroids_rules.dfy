/** The pure rules of the Asteroids mini-game: playfield geometry and wrap-around, asteroid
    outlines and the point-in-asteroid test, the point-to-segment distance, and one collision
    pass of bullets against asteroids stated as functions over the field. */
module AsteroidsRules {
  import opened Events

  /** A `pygame.Vector2`. */
  datatype Vec = Vec(x: real, y: real)

  function Add(a: Vec, b: Vec): Vec { Vec(a.x + b.x, a.y + b.y) }
  function Sub(a: Vec, b: Vec): Vec { Vec(a.x - b.x, a.y - b.y) }
  function Scale(a: Vec, k: real): Vec { Vec(a.x * k, a.y * k) }
  function Dot(a: Vec, b: Vec): real { a.x * b.x + a.y * b.y }

  /** `length_squared`. */
  function Norm2(a: Vec): (r: real)
    ensures r >= 0.0
  {
    Dot(a, a)
  }

  // ---------- Playfield ----------

  /** The playfield `Rect(24, 96, WIDTH - 48, HEIGHT - 120)`. */
  const FieldLeft := 24
  const FieldTop := 96
  const FieldWidth := Width - 48
  const FieldHeight := Height - 120

  /** `wall.left`, `wall.top`, `wall.right`, `wall.bottom` as coordinates. */
  const MinX: real := FieldLeft as real
  const MinY: real := FieldTop as real
  const MaxX: real := (FieldLeft + FieldWidth) as real
  const MaxY: real := (FieldTop + FieldHeight) as real

  /** `(wall.centerx, wall.centery)`: pygame halves the size with integer division. */
  const Centre: Vec := Vec((FieldLeft + FieldWidth / 2) as real, (FieldTop + FieldHeight / 2) as real)

  /** Inside the playfield, right and bottom edges excluded. */
  predicate InField(p: Vec) {
    MinX <= p.x < MaxX && MinY <= p.y < MaxY
  }

  lemma CentreInField()
    ensures Centre == Vec(480.0, 336.0) && InField(Centre)
    ensures MaxX == 936.0 && MaxY == 576.0
  {
  }

  /** One coordinate of `_wrap_position`: below `lo` jumps to `hi - 1`, then at or past `hi`
      jumps to `lo`. */
  function WrapCoord(c: real, lo: real, hi: real): (r: real)
    requires lo + 1.0 <= hi
    ensures lo <= r < hi
    ensures lo <= c < hi ==> r == c
    ensures c < lo ==> r == hi - 1.0
    ensures c >= hi ==> r == lo
  {
    var c1 := if c < lo then hi - 1.0 else c;
    if c1 >= hi then lo else c1
  }

  /** `_wrap_position`: every result lies in the playfield, and a point already in it stays. */
  function Wrap(p: Vec): (r: Vec)
    ensures InField(r)
    ensures InField(p) ==> r == p
  {
    Vec(WrapCoord(p.x, MinX, MaxX), WrapCoord(p.y, MinY, MaxY))
  }

  // ---------- Asteroid outlines ----------

  /** `{3: 36, 2: 24, 1: 14}[size]`; any other size is a `KeyError` in the source, so callers
      must pass 1, 2 or 3. */
  function BaseRadius(size: int): (r: real)
    requires 1 <= size <= 3
    ensures r >= 14.0
  {
    if size == 3 then 36.0 else if size == 2 then 24.0 else 14.0
  }

  const Jag: real := 0.4

  /** The length of one outline vertex, from a uniform draw `u` in [0, 1). */
  function VertexRadius(size: int, u: real): real
    requires 1 <= size <= 3
  {
    BaseRadius(size) * (1.0 + Jag * (u - 0.5))
  }

  lemma VertexRadiusBounds(size: int, u: real)
    requires 1 <= size <= 3 && 0.0 <= u < 1.0
    ensures 0.8 * BaseRadius(size) <= VertexRadius(size, u) < 1.2 * BaseRadius(size)
  {
    if size == 3 {
    } else if size == 2 {
    } else {
    }
  }

  /** The random draws of `_make_asteroid`: one uniform value per vertex (their number is the
      `randint(8, 12)` draw), the starting angle and the spin. */
  datatype ShapeDraw = ShapeDraw(us: seq<real>, rot: real, rotSpeed: real)

  predicate ValidShape(d: ShapeDraw) {
    && 8 <= |d.us| <= 12
    && (forall i :: 0 <= i < |d.us| ==> 0.0 <= d.us[i] < 1.0)
    && 0.0 <= d.rot <= 360.0
    && -60.0 <= d.rotSpeed <= 60.0
  }

  /** An asteroid dictionary; each vertex is kept as its length only (it lies at angle
      2*pi*i/n). */
  datatype Asteroid = Asteroid(pos: Vec, vel: Vec, radii: seq<real>, angle: real, rotSpeed: real, size: int)

  /** What every asteroid made by `_make_asteroid` satisfies. */
  predicate WellShaped(a: Asteroid) {
    && 1 <= a.size <= 3
    && 8 <= |a.radii| <= 12
    && (forall i :: 0 <= i < |a.radii| ==>
          0.8 * BaseRadius(a.size) <= a.radii[i] < 1.2 * BaseRadius(a.size))
    && -60.0 <= a.rotSpeed <= 60.0
  }

  /** A field of asteroids as the game keeps it: well shaped and inside the playfield. */
  predicate Field(asts: seq<Asteroid>) {
    forall i :: 0 <= i < |asts| ==> WellShaped(asts[i]) && InField(asts[i].pos)
  }

  predicate SizesOk(asts: seq<Asteroid>) {
    forall i :: 0 <= i < |asts| ==> 1 <= asts[i].size <= 3
  }

  function Outline(size: int, us: seq<real>): (rs: seq<real>)
    requires 1 <= size <= 3
    ensures |rs| == |us|
  {
    seq(|us|, i requires 0 <= i < |us| => VertexRadius(size, us[i]))
  }

  /** The asteroid `_make_asteroid(pos, vel, size)` returns for the draws `d`. */
  function NewAsteroid(pos: Vec, vel: Vec, size: int, d: ShapeDraw): (a: Asteroid)
    requires 1 <= size <= 3
  {
    Asteroid(pos, vel, Outline(size, d.us), d.rot, d.rotSpeed, size)
  }

  lemma NewAsteroidWellShaped(pos: Vec, vel: Vec, size: int, d: ShapeDraw)
    requires 1 <= size <= 3 && ValidShape(d)
    ensures WellShaped(NewAsteroid(pos, vel, size, d))
  {
    var a := NewAsteroid(pos, vel, size, d);
    forall i | 0 <= i < |a.radii|
      ensures 0.8 * BaseRadius(size) <= a.radii[i] < 1.2 * BaseRadius(size)
    {
      VertexRadiusBounds(size, d.us[i]);
    }
  }

  // ---------- Point in asteroid ----------

  function Sum(rs: seq<real>): real {
    if |rs| == 0 then 0.0 else Sum(rs[..|rs| - 1]) + rs[|rs| - 1]
  }

  /** The mean vertex length. */
  function AverageRadius(a: Asteroid): real
    requires |a.radii| > 0
  {
    Sum(a.radii) / (|a.radii| as real)
  }

  /** `_point_in_asteroid`: within 0.9 of the mean vertex length of the centre. */
  predicate PointInAsteroid(p: Vec, a: Asteroid)
    requires |a.radii| > 0
  {
    var r := AverageRadius(a) * 0.9;
    Norm2(Sub(p, a.pos)) <= r * r
  }

  lemma {:induction false} SumBounds(rs: seq<real>, lo: real, hi: real)
    requires forall i :: 0 <= i < |rs| ==> lo <= rs[i] <= hi
    ensures (|rs| as real) * lo <= Sum(rs) <= (|rs| as real) * hi
    decreases |rs|
  {
    if |rs| > 0 {
      var n := |rs| - 1;
      SumBounds(rs[..n], lo, hi);
      assert (|rs| as real) * lo == (n as real) * lo + lo;
      assert (|rs| as real) * hi == (n as real) * hi + hi;
    }
  }

  /** The mean vertex length of a well-shaped asteroid lies in [0.8, 1.2] times its base. */
  lemma AverageRadiusBounds(a: Asteroid)
    requires WellShaped(a)
    ensures 0.8 * BaseRadius(a.size) <= AverageRadius(a) <= 1.2 * BaseRadius(a.size)
  {
    var n := |a.radii| as real;
    var b := BaseRadius(a.size);
    SumBounds(a.radii, 0.8 * b, 1.2 * b);
    var s := Sum(a.radii);
    assert n * (0.8 * b) <= s <= n * (1.2 * b);
    assert AverageRadius(a) == s / n;
    assert (s / n) * n == s;
  }

  lemma SquareMono(x: real, y: real)
    requires 0.0 <= x <= y
    ensures x * x <= y * y
  {
  }

  /** A point within 0.72 base radii of the centre (0.9 of the smallest possible mean) always
      hits; one beyond 1.08 base radii (0.9 of the largest possible mean) never does. */
  lemma HitRadiusBounds(p: Vec, a: Asteroid)
    requires WellShaped(a)
    ensures var b := BaseRadius(a.size) * 0.72;
            Norm2(Sub(p, a.pos)) <= b * b ==> PointInAsteroid(p, a)
    ensures var b := BaseRadius(a.size) * 1.08;
            Norm2(Sub(p, a.pos)) > b * b ==> !PointInAsteroid(p, a)
  {
    AverageRadiusBounds(a);
    var r := AverageRadius(a) * 0.9;
    SquareMono(BaseRadius(a.size) * 0.72, r);
    SquareMono(r, BaseRadius(a.size) * 1.08);
  }

  // ---------- Point to segment ----------

  function Clamp01(t: real): (r: real)
    ensures 0.0 <= r <= 1.0
    ensures 0.0 <= t <= 1.0 ==> r == t
  {
    if t < 0.0 then 0.0 else if t > 1.0 then 1.0 else t
  }

  /** The parameter of the point of segment a-b closest to p. */
  function SegmentParam(p: Vec, a: Vec, b: Vec): (t: real)
    ensures 0.0 <= t <= 1.0
    ensures Norm2(Sub(b, a)) == 0.0 ==> t == 0.0
  {
    var ab := Sub(b, a);
    var denom := Norm2(ab);
    if denom > 0.0 then Clamp01(Dot(Sub(p, a), ab) / denom) else 0.0
  }

  /** `_dist_point_segment_sq`: the squared distance from p to the closest point of a-b. */
  function DistPointSegmentSq(p: Vec, a: Vec, b: Vec): (r: real)
    ensures r >= 0.0
    ensures a == b ==> r == Norm2(Sub(p, a))
  {
    var proj := Add(a, Scale(Sub(b, a), SegmentParam(p, a, b)));
    Norm2(Sub(p, proj))
  }

  /** The squared distance from p to the point of parameter t of segment a-b, expanded. */
  lemma ExpandDist(p: Vec, a: Vec, b: Vec, t: real)
    ensures var d, u := Sub(p, a), Sub(b, a);
            Norm2(Sub(p, Add(a, Scale(u, t)))) == Norm2(d) - 2.0 * t * Dot(d, u) + t * t * Norm2(u)
  {
    var d, u := Sub(p, a), Sub(b, a);
    assert Sub(p, Add(a, Scale(u, t))) == Vec(d.x - u.x * t, d.y - u.y * t);
    NormOfDiff(d, u, t);
  }

  /** `|d - t u|^2 = |d|^2 - 2 t (d . u) + t^2 |u|^2` on vectors. */
  lemma NormOfDiff(d: Vec, u: Vec, t: real)
    ensures Norm2(Vec(d.x - u.x * t, d.y - u.y * t)) == Norm2(d) - 2.0 * t * Dot(d, u) + t * t * Norm2(u)
  {
    NormExpand(d.x, d.y, u.x, u.y, t, d.x - u.x * t, d.y - u.y * t);
  }

  /** The expansion on coordinates: `|d - t u|^2 = |d|^2 - 2 t (d . u) + t^2 |u|^2`. */
  lemma NormExpand(dx: real, dy: real, ux: real, uy: real, t: real, ex: real, ey: real)
    requires ex == dx - ux * t && ey == dy - uy * t
    ensures ex * ex + ey * ey == (dx * dx + dy * dy) - 2.0 * t * (dx * ux + dy * uy) + t * t * (ux * ux + uy * uy)
  {
    SquareExpand(dx, ux, t);
    SquareExpand(dy, uy, t);
  }

  /** `(a - b t)^2 = a^2 - 2 t a b + t^2 b^2`. */
  lemma SquareExpand(a: real, b: real, t: real)
    ensures (a - b * t) * (a - b * t) == a * a - 2.0 * t * (a * b) + t * t * (b * b)
  {
  }

  /** The same expansion at the far end point. */
  lemma ExpandFarEnd(p: Vec, a: Vec, b: Vec)
    ensures var d, u := Sub(p, a), Sub(b, a);
            Norm2(Sub(p, b)) == Norm2(d) - 2.0 * Dot(d, u) + Norm2(u)
  {
    var d, u := Sub(p, a), Sub(b, a);
    assert Sub(p, b) == Vec(d.x - u.x, d.y - u.y);
  }

  /** The scalar core of the end-point bound: with `dd`, `s`, `uu` the squared distance to a,
      the projection and the squared length, and t chosen as the update clamps it. */
  lemma EndpointAlgebra(dd: real, s: real, uu: real, t: real, near: real, far: real)
    requires near == dd - 2.0 * t * s + t * t * uu && far == dd - 2.0 * s + uu
    requires uu >= 0.0 && 0.0 <= t <= 1.0
    requires uu == 0.0 ==> t == 0.0
    requires uu > 0.0 && s / uu < 0.0 ==> t == 0.0
    requires uu > 0.0 && s / uu > 1.0 ==> t == 1.0
    requires uu > 0.0 && 0.0 <= s / uu <= 1.0 ==> t == s / uu
    ensures near <= dd
    ensures uu > 0.0 ==> near <= far
  {
    if uu > 0.0 {
      var q := s / uu;
      assert s == q * uu;
      if q < 0.0 {
        assert s < 0.0;
      } else if q > 1.0 {
        assert s > uu;
      } else {
        assert t * uu == s;
        assert t * t * uu == t * s;
        assert t * s >= 0.0;
        assert (dd - 2.0 * s + uu) - (dd - t * s) == uu * (1.0 - t) * (1.0 - t);
        assert uu * (1.0 - t) * (1.0 - t) >= 0.0;
      }
    }
  }

  /** The closest point of a segment is no further than its first end point, nor than its
      far end point for a segment whose length the test sees as positive, or a single point. */
  lemma DistAtMostEndpoints(p: Vec, a: Vec, b: Vec)
    ensures DistPointSegmentSq(p, a, b) <= Norm2(Sub(p, a))
    ensures a == b || Norm2(Sub(b, a)) > 0.0 ==> DistPointSegmentSq(p, a, b) <= Norm2(Sub(p, b))
  {
    if a != b {
      var d, u := Sub(p, a), Sub(b, a);
      var t := SegmentParam(p, a, b);
      ExpandDist(p, a, b, t);
      ExpandFarEnd(p, a, b);
      SegmentParamCases(p, a, b);
      EndpointAlgebra(Norm2(d), Dot(d, u), Norm2(u), t, DistPointSegmentSq(p, a, b), Norm2(Sub(p, b)));
    }
  }

  /** How SegmentParam picks t: zero for a point segment, otherwise the projection clamped. */
  lemma SegmentParamCases(p: Vec, a: Vec, b: Vec)
    ensures var d, u := Sub(p, a), Sub(b, a);
            var s, uu, t := Dot(d, u), Norm2(u), SegmentParam(p, a, b);
            && (uu == 0.0 ==> t == 0.0)
            && (uu > 0.0 && s / uu < 0.0 ==> t == 0.0)
            && (uu > 0.0 && s / uu > 1.0 ==> t == 1.0)
            && (uu > 0.0 && 0.0 <= s / uu <= 1.0 ==> t == s / uu)
  {
  }

  // ---------- Spawning ----------

  /** The draws behind one asteroid of `spawn_wave`: a point of the border band 32 pixels in
      from the wall, a velocity of speed 40 to 100 (a unit vector times the speed, so its squared
      length lies in [1600, 10000]), size 3 or 2, and the outline draws. */
  datatype SpawnDraw = SpawnDraw(pos: Vec, vel: Vec, size: int, shape: ShapeDraw)

  const Margin: real := 32.0

  /** `_random_edge_position(margin=32)`. */
  predicate OnSpawnBorder(p: Vec) {
    || ((p.y == MinY + Margin || p.y == MaxY - Margin) && MinX + Margin <= p.x <= MaxX - Margin)
    || ((p.x == MinX + Margin || p.x == MaxX - Margin) && MinY + Margin <= p.y <= MaxY - Margin)
  }

  predicate ValidSpawn(d: SpawnDraw) {
    && OnSpawnBorder(d.pos)
    && 1600.0 <= Norm2(d.vel) <= 10000.0
    && (d.size == 2 || d.size == 3)
    && ValidShape(d.shape)
  }

  predicate ValidSpawns(ds: seq<SpawnDraw>) {
    forall i :: 0 <= i < |ds| ==> ValidSpawn(ds[i])
  }

  /** The asteroids `spawn_wave` makes from its draws, in order. */
  function Wave(ds: seq<SpawnDraw>): (w: seq<Asteroid>)
    requires ValidSpawns(ds)
    ensures |w| == |ds|
  {
    seq(|ds|, i requires 0 <= i < |ds| => NewAsteroid(ds[i].pos, ds[i].vel, ds[i].size, ds[i].shape))
  }

  /** A wave is a valid field of large and medium asteroids. */
  lemma WaveIsField(ds: seq<SpawnDraw>)
    requires ValidSpawns(ds)
    ensures Field(Wave(ds))
    ensures forall i :: 0 <= i < |ds| ==> Wave(ds)[i].size == 2 || Wave(ds)[i].size == 3
  {
    forall i | 0 <= i < |ds|
      ensures WellShaped(Wave(ds)[i]) && InField(Wave(ds)[i].pos)
    {
      NewAsteroidWellShaped(ds[i].pos, ds[i].vel, ds[i].size, ds[i].shape);
    }
  }

  /** The draws behind one child of a split: a velocity of speed 80 to 140 and its outline. */
  datatype ChildDraw = ChildDraw(vel: Vec, shape: ShapeDraw)

  /** The draws for the two children of one asteroid, used only if it is hit and splits. */
  datatype SplitDraw = SplitDraw(first: ChildDraw, second: ChildDraw)

  predicate ValidChild(c: ChildDraw) {
    6400.0 <= Norm2(c.vel) <= 19600.0 && ValidShape(c.shape)
  }

  predicate ValidSplits(ks: seq<SplitDraw>) {
    forall i :: 0 <= i < |ks| ==> ValidChild(ks[i].first) && ValidChild(ks[i].second)
  }

  // ---------- Motion ----------

  /** A bullet dictionary. */
  datatype Bullet = Bullet(pos: Vec, vel: Vec, life: real)

  /** One frame of an asteroid: drift by its velocity, turn by its spin, wrap. */
  function Drift(a: Asteroid, dt: real): (r: Asteroid)
    ensures InField(r.pos)
    ensures r.vel == a.vel && r.radii == a.radii && r.rotSpeed == a.rotSpeed && r.size == a.size
    ensures WellShaped(a) ==> WellShaped(r)
  {
    a.(pos := Wrap(Add(a.pos, Scale(a.vel, dt))), angle := a.angle + a.rotSpeed * dt)
  }

  /** One frame of a bullet: move, lose dt of life, wrap. */
  function Fly(b: Bullet, dt: real): (r: Bullet)
    ensures InField(r.pos) && r.vel == b.vel && r.life == b.life - dt
  {
    Bullet(Wrap(Add(b.pos, Scale(b.vel, dt))), b.vel, b.life - dt)
  }

  /** `[b for b in bullets if b["life"] > 0]`. The contract states which bullets are kept;
      the body keeps them in their original order, which no property here depends on. */
  function LiveBullets(bs: seq<Bullet>): (r: seq<Bullet>)
    ensures |r| <= |bs|
    ensures forall b :: b in r ==> b in bs && b.life > 0.0
    ensures forall b :: b in bs && b.life > 0.0 ==> b in r
  {
    if |bs| == 0 then []
    else if bs[0].life > 0.0 then [bs[0]] + LiveBullets(bs[1..])
    else LiveBullets(bs[1..])
  }

  // ---------- One collision pass ----------

  /** The index of the first bullet that lies in `a`, or `|bs|` when none does. */
  function FirstHit(bs: seq<Bullet>, a: Asteroid, hit: (Vec, Asteroid) -> bool): (k: nat)
    ensures k <= |bs|
    ensures forall j :: 0 <= j < k ==> !hit(bs[j].pos, a)
    ensures k < |bs| ==> hit(bs[k].pos, a)
    decreases |bs|
  {
    if |bs| == 0 then 0
    else if hit(bs[0].pos, a) then 0
    else 1 + FirstHit(bs[1..], a, hit)
  }

  /** The first hit depends on the bullets' positions only (not on their remaining life). */
  lemma FirstHitByPositions(bs: seq<Bullet>, cs: seq<Bullet>, a: Asteroid, hit: (Vec, Asteroid) -> bool)
    requires |bs| == |cs|
    requires forall j :: 0 <= j < |bs| ==> bs[j].pos == cs[j].pos
    ensures FirstHit(bs, a, hit) == FirstHit(cs, a, hit)
  {
  }

  predicate IsHit(a: Asteroid, bs: seq<Bullet>, hit: (Vec, Asteroid) -> bool) {
    FirstHit(bs, a, hit) < |bs|
  }

  /** A hit asteroid of size 2 or 3 leaves two children one size smaller at its position; a
      small one leaves nothing. */
  function Fragments(a: Asteroid, s: SplitDraw): (r: seq<Asteroid>)
    requires 1 <= a.size <= 3
    ensures |r| == if a.size > 1 then 2 else 0
    ensures forall c :: c in r ==> c.pos == a.pos && c.size == a.size - 1
  {
    if a.size > 1 then
      [NewAsteroid(a.pos, s.first.vel, a.size - 1, s.first.shape),
       NewAsteroid(a.pos, s.second.vel, a.size - 1, s.second.shape)]
    else []
  }

  /** What one asteroid turns into in the pass: its fragments if hit, itself if not. */
  function Outcome(a: Asteroid, bs: seq<Bullet>, s: SplitDraw, hit: (Vec, Asteroid) -> bool): seq<Asteroid>
    requires 1 <= a.size <= 3
  {
    if IsHit(a, bs, hit) then Fragments(a, s) else [a]
  }

  /** `new_asteroids` after the bullet pass over `asts`, asteroid i splitting with `kids[i]`. */
  function SplitField(asts: seq<Asteroid>, bs: seq<Bullet>, kids: seq<SplitDraw>, hit: (Vec, Asteroid) -> bool): seq<Asteroid>
    requires SizesOk(asts) && |kids| >= |asts|
    decreases |asts|
  {
    if |asts| == 0 then []
    else
      var n := |asts| - 1;
      SplitField(asts[..n], bs, kids, hit) + Outcome(asts[n], bs, kids[n], hit)
  }

  /** The score the pass adds: 10 times the size of each hit asteroid. */
  function PassScore(asts: seq<Asteroid>, bs: seq<Bullet>, hit: (Vec, Asteroid) -> bool): int
    decreases |asts|
  {
    if |asts| == 0 then 0
    else
      var n := |asts| - 1;
      PassScore(asts[..n], bs, hit) + (if IsHit(asts[n], bs, hit) then 10 * asts[n].size else 0)
  }

  /** The number of hit asteroids. */
  function Hits(asts: seq<Asteroid>, bs: seq<Bullet>, hit: (Vec, Asteroid) -> bool): nat
    decreases |asts|
  {
    if |asts| == 0 then 0
    else
      var n := |asts| - 1;
      Hits(asts[..n], bs, hit) + (if IsHit(asts[n], bs, hit) then 1 else 0)
  }

  /** The number of hit asteroids that split (size 2 or 3). */
  function Splits(asts: seq<Asteroid>, bs: seq<Bullet>, hit: (Vec, Asteroid) -> bool): nat
    decreases |asts|
  {
    if |asts| == 0 then 0
    else
      var n := |asts| - 1;
      Splits(asts[..n], bs, hit) + (if IsHit(asts[n], bs, hit) && asts[n].size > 1 then 1 else 0)
  }

  /** The indices of the bullets the pass consumes: each hit asteroid consumes its first hit. */
  function Spent(asts: seq<Asteroid>, bs: seq<Bullet>, hit: (Vec, Asteroid) -> bool): set<nat>
    decreases |asts|
  {
    if |asts| == 0 then {}
    else
      var n := |asts| - 1;
      Spent(asts[..n], bs, hit) + (if IsHit(asts[n], bs, hit) then {FirstHit(bs, asts[n], hit)} else {})
  }

  /** The bullets with the consumed ones set to zero life. */
  function MarkSpent(bs: seq<Bullet>, spent: set<nat>): (r: seq<Bullet>)
    ensures |r| == |bs|
  {
    seq(|bs|, j requires 0 <= j < |bs| => if j in spent then bs[j].(life := 0.0) else bs[j])
  }

  /** Every consumed index is a real bullet. */
  lemma {:induction false} SpentInRange(asts: seq<Asteroid>, bs: seq<Bullet>, hit: (Vec, Asteroid) -> bool)
    ensures forall k :: k in Spent(asts, bs, hit) ==> k < |bs|
    decreases |asts|
  {
    if |asts| > 0 {
      SpentInRange(asts[..|asts| - 1], bs, hit);
    }
  }

  /** Unhit asteroids contribute one entry, split ones two, small hit ones none. */
  lemma {:induction false} SplitFieldLength(asts: seq<Asteroid>, bs: seq<Bullet>, kids: seq<SplitDraw>, hit: (Vec, Asteroid) -> bool)
    requires SizesOk(asts) && |kids| >= |asts|
    ensures |SplitField(asts, bs, kids, hit)| + Hits(asts, bs, hit) == |asts| + 2 * Splits(asts, bs, hit)
    decreases |asts|
  {
    if |asts| > 0 {
      SplitFieldLength(asts[..|asts| - 1], bs, kids, hit);
    }
  }

  /** A pass that hits nothing keeps the field as it is, in order. */
  lemma {:induction false} NoHitKeepsField(asts: seq<Asteroid>, bs: seq<Bullet>, kids: seq<SplitDraw>, hit: (Vec, Asteroid) -> bool)
    requires SizesOk(asts) && |kids| >= |asts|
    requires Hits(asts, bs, hit) == 0
    ensures SplitField(asts, bs, kids, hit) == asts
    decreases |asts|
  {
    if |asts| > 0 {
      var n := |asts| - 1;
      var pre, a := asts[..n], asts[n];
      assert Hits(asts, bs, hit) == Hits(pre, bs, hit) + (if IsHit(a, bs, hit) then 1 else 0);
      assert !IsHit(a, bs, hit) && Hits(pre, bs, hit) == 0;
      NoHitKeepsField(pre, bs, kids, hit);
      assert Outcome(a, bs, kids[n], hit) == [a];
      assert SplitField(asts, bs, kids, hit) == pre + [a];
      assert pre + [a] == asts;
    }
  }

  /** The pass keeps a field a field. */
  lemma {:induction false} SplitFieldIsField(asts: seq<Asteroid>, bs: seq<Bullet>, kids: seq<SplitDraw>, hit: (Vec, Asteroid) -> bool)
    requires Field(asts) && |kids| >= |asts| && ValidSplits(kids)
    ensures Field(SplitField(asts, bs, kids, hit))
    decreases |asts|
  {
    if |asts| > 0 {
      var n := |asts| - 1;
      assert Field(asts[..n]);
      SplitFieldIsField(asts[..n], bs, kids, hit);
      var a := asts[n];
      OutcomeIsField(a, bs, kids[n], hit);
      FieldConcat(SplitField(asts[..n], bs, kids, hit), Outcome(a, bs, kids[n], hit));
    }
  }

  /** What one asteroid leaves behind is a field. */
  lemma OutcomeIsField(a: Asteroid, bs: seq<Bullet>, k: SplitDraw, hit: (Vec, Asteroid) -> bool)
    requires WellShaped(a) && InField(a.pos) && ValidChild(k.first) && ValidChild(k.second)
    ensures Field(Outcome(a, bs, k, hit))
  {
    if IsHit(a, bs, hit) && a.size > 1 {
      NewAsteroidWellShaped(a.pos, k.first.vel, a.size - 1, k.first.shape);
      NewAsteroidWellShaped(a.pos, k.second.vel, a.size - 1, k.second.shape);
    }
  }

  lemma FieldConcat(x: seq<Asteroid>, y: seq<Asteroid>)
    requires Field(x) && Field(y)
    ensures Field(x + y)
  {
    assert forall i :: 0 <= i < |x + y| ==> (x + y)[i] == if i < |x| then x[i] else y[i - |x|];
  }

  /** Each hit scores between 10 and 30. */
  lemma {:induction false} PassScoreBounds(asts: seq<Asteroid>, bs: seq<Bullet>, hit: (Vec, Asteroid) -> bool)
    requires SizesOk(asts)
    ensures 10 * Hits(asts, bs, hit) <= PassScore(asts, bs, hit) <= 30 * Hits(asts, bs, hit)
    decreases |asts|
  {
    if |asts| > 0 {
      PassScoreBounds(asts[..|asts| - 1], bs, hit);
    }
  }

  /** Each hit asteroid consumes one bullet at most, and a bullet may serve several. */
  lemma {:induction false} SpentAtMostHits(asts: seq<Asteroid>, bs: seq<Bullet>, hit: (Vec, Asteroid) -> bool)
    ensures |Spent(asts, bs, hit)| <= Hits(asts, bs, hit)
    decreases |asts|
  {
    if |asts| > 0 {
      SpentAtMostHits(asts[..|asts| - 1], bs, hit);
    }
  }

  /** When asteroid i is the only one hit, the pass counts one hit, scores 10 times its size,
      and splits once exactly when it is larger than small. */
  lemma {:induction false} SingleHit(asts: seq<Asteroid>, bs: seq<Bullet>, hit: (Vec, Asteroid) -> bool, i: nat)
    requires i < |asts|
    requires IsHit(asts[i], bs, hit)
    requires forall j :: 0 <= j < |asts| && j != i ==> !IsHit(asts[j], bs, hit)
    ensures Hits(asts, bs, hit) == 1
    ensures PassScore(asts, bs, hit) == 10 * asts[i].size
    ensures Splits(asts, bs, hit) == if asts[i].size > 1 then 1 else 0
    decreases |asts|
  {
    var n := |asts| - 1;
    if i < n {
      SingleHit(asts[..n], bs, hit, i);
    } else {
      NoHitCounts(asts[..n], bs, hit);
    }
  }

  lemma {:induction false} NoHitCounts(asts: seq<Asteroid>, bs: seq<Bullet>, hit: (Vec, Asteroid) -> bool)
    requires forall j :: 0 <= j < |asts| ==> !IsHit(asts[j], bs, hit)
    ensures Hits(asts, bs, hit) == 0 && PassScore(asts, bs, hit) == 0 && Splits(asts, bs, hit) == 0
    decreases |asts|
  {
    if |asts| > 0 {
      NoHitCounts(asts[..|asts| - 1], bs, hit);
    }
  }

  /** One large asteroid shot in a field: the field grows by one and the score by 30. */
  lemma LargeHit(asts: seq<Asteroid>, bs: seq<Bullet>, kids: seq<SplitDraw>, hit: (Vec, Asteroid) -> bool, i: nat)
    requires SizesOk(asts) && |kids| >= |asts|
    requires i < |asts| && asts[i].size == 3 && IsHit(asts[i], bs, hit)
    requires forall j :: 0 <= j < |asts| && j != i ==> !IsHit(asts[j], bs, hit)
    ensures |SplitField(asts, bs, kids, hit)| == |asts| + 1
    ensures PassScore(asts, bs, hit) == 30
  {
    SingleHit(asts, bs, hit, i);
    SplitFieldLength(asts, bs, kids, hit);
  }

  /** A bullet consumed by one asteroid still hits the asteroids after it: one bullet inside
      two small asteroids destroys both and scores 20. */
  lemma SharedBullet(b: Bullet, a1: Asteroid, a2: Asteroid, kids: seq<SplitDraw>, hit: (Vec, Asteroid) -> bool)
    requires a1.size == 1 && a2.size == 1 && |kids| >= 2
    requires hit(b.pos, a1) && hit(b.pos, a2)
    ensures SplitField([a1, a2], [b], kids, hit) == []
    ensures PassScore([a1, a2], [b], hit) == 20
    ensures Spent([a1, a2], [b], hit) == {0}
  {
    var bs, asts := [b], [a1, a2];
    assert FirstHit(bs, a1, hit) == 0 && FirstHit(bs, a2, hit) == 0;
    assert asts[..1] == [a1] && asts[..1][..0] == [];
    assert SplitField(asts[..1], bs, kids, hit) == SplitField([], bs, kids, hit) + Outcome(a1, bs, kids[0], hit);
    assert PassScore(asts[..1], bs, hit) == 10;
    assert Spent(asts[..1], bs, hit) == {0};
  }

  // ---------- Ship against asteroids ----------

  /** The index of the first asteroid the ship circle meets, or `|asts|` when none. */
  function FirstShipHit(asts: seq<Asteroid>, c: Vec, r: real, shipHit: (Vec, real, Asteroid) -> bool): (k: nat)
    ensures k <= |asts|
    ensures forall j :: 0 <= j < k ==> !shipHit(c, r, asts[j])
    ensures k < |asts| ==> shipHit(c, r, asts[k])
    decreases |asts|
  {
    if |asts| == 0 then 0
    else if shipHit(c, r, asts[0]) then 0
    else 1 + FirstShipHit(asts[1..], c, r, shipHit)
  }
}
