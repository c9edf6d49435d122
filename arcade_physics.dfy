/**
 * The per-tick phases of `update` stated as functions on values: what the
 * asteroid pass, the laser pass and the hit resolution compute. The methods
 * of ArcadeGame run them in place and are proved equal to them; the lemmas
 * here state what the source promises about each phase.
 */
module ArcadePhysics {
  import opened Options
  import opened Geometry
  import opened ArcadeEntities

  // ---------------------------------------------------------------------
  // Phase 1: thrust and friction.

  /** `v + SHIP_THRUST * c / FPS`, with `c` the cosine or the negated sine of the heading. */
  function Accelerate(v: real, c: real): real
  {
    v + SHIP_THRUST * c / FPS
  }

  /**
   * `v - FRICTION * v / FPS`: one tick of friction scales a velocity
   * component by 1 - FRICTION / FPS, which at 60 ticks a second is strictly
   * between 0 and 1, so friction never reverses or grows a velocity.
   */
  function Damp(v: real): (d: real)
    ensures d == v * (1.0 - FRICTION / FPS)
    ensures 0.0 < v ==> 0.0 < d < v
    ensures v < 0.0 ==> v < d < 0.0
    ensures v == 0.0 ==> d == 0.0
  {
    v - FRICTION * v / FPS
  }

  // ---------------------------------------------------------------------
  // Phase 2: asteroid move and wrap.

  /** An asteroid after one tick of motion and the edge-of-screen handling. */
  function MoveAsteroid(a: Asteroid): (m: Asteroid)
    ensures m == a.(x := m.x, y := m.y)
    ensures 0 <= a.r ==> InWrapBounds(m.x, m.y, a.r as real, WIDTH, HEIGHT)
    ensures a.x + a.xv < -(a.r as real) ==> m.x == WIDTH + a.r as real
    ensures 0 <= a.r && a.x + a.xv > WIDTH + a.r as real ==> m.x == -(a.r as real)
    ensures a.y + a.yv < -(a.r as real) ==> m.y == HEIGHT + a.r as real
    ensures 0 <= a.r && a.y + a.yv > HEIGHT + a.r as real ==> m.y == -(a.r as real)
  {
    a.(x := Wrap(a.x + a.xv, a.r as real, WIDTH), y := Wrap(a.y + a.yv, a.r as real, HEIGHT))
  }

  /** The asteroid pass over the whole field. */
  function MoveAll(roids: seq<Asteroid>): (m: seq<Asteroid>)
  {
    seq(|roids|, i requires 0 <= i < |roids| => MoveAsteroid(roids[i]))
  }

  /**
   * The asteroid pass keeps the number, order, size and shape of the
   * asteroids and leaves every one inside its own wrap bounds.
   */
  lemma MoveAllKeepsField(roids: seq<Asteroid>)
    requires forall a :: a in roids ==> WellFormed(a)
    ensures |MoveAll(roids)| == |roids|
    ensures forall i :: 0 <= i < |roids| ==>
      MoveAll(roids)[i] == roids[i].(x := MoveAll(roids)[i].x, y := MoveAll(roids)[i].y)
    ensures forall a :: a in MoveAll(roids) ==> WellFormed(a) && InWrapBounds(a.x, a.y, a.r as real, WIDTH, HEIGHT)
  {
    var m := MoveAll(roids);
    forall a | a in m
      ensures WellFormed(a) && InWrapBounds(a.x, a.y, a.r as real, WIDTH, HEIGHT)
    {
      var i :| 0 <= i < |m| && m[i] == a;
      assert roids[i] in roids;
    }
  }

  // ---------------------------------------------------------------------
  // Phase 3: laser move, out-of-bounds removal, explosion countdown.

  /** The laser is off the canvas: past an edge of [0, WIDTH] x [0, HEIGHT]. */
  predicate OffCanvas(l: Laser)
  {
    l.x < 0.0 || l.x > WIDTH || l.y < 0.0 || l.y > HEIGHT
  }

  function MoveLaser(l: Laser): Laser
  {
    l.(x := l.x + l.xv, y := l.y + l.yv)
  }

  /**
   * One laser's tick: it moves; if it is then off the canvas it is removed
   * (exploding or not); an exploding laser counts down and is removed when
   * its timer reaches 0.
   */
  function LaserTick(l: Laser): (t: Option<Laser>)
    ensures t.None? <==> OffCanvas(MoveLaser(l)) || l.explodeTime == 1
    ensures t.Some? ==> !OffCanvas(t.value)
    ensures t.Some? ==> t.value == MoveLaser(l).(explodeTime := if l.explodeTime > 0 then l.explodeTime - 1 else 0)
  {
    var m := MoveLaser(l);
    if OffCanvas(m) then None
    else if m.explodeTime > 0 then
      if m.explodeTime - 1 == 0 then None else Some(m.(explodeTime := m.explodeTime - 1))
    else Some(m)
  }

  /** What one laser's tick leaves in the array: itself updated, or nothing. */
  function Ticked(l: Laser): (t: seq<Laser>)
    ensures |t| <= 1
  {
    match LaserTick(l) case Some(m) => [m] case None => []
  }

  /** The laser pass: every laser ticked once, the removed ones dropped, order kept. */
  function LaserPass(ls: seq<Laser>): (r: seq<Laser>)
    decreases |ls|
  {
    if ls == [] then []
    else
      Ticked(ls[0]) + LaserPass(ls[1..])
  }

  lemma {:induction false} LaserPassAppend(a: seq<Laser>, b: seq<Laser>)
    ensures LaserPass(a + b) == LaserPass(a) + LaserPass(b)
    decreases |a|
  {
    if a != [] {
      assert (a + b)[0] == a[0] && (a + b)[1..] == a[1..] + b;
      LaserPassAppend(a[1..], b);
      calc {
        LaserPass(a + b);
        Ticked(a[0]) + LaserPass(a[1..] + b);
        Ticked(a[0]) + (LaserPass(a[1..]) + LaserPass(b));
        (Ticked(a[0]) + LaserPass(a[1..])) + LaserPass(b);
      }
    } else {
      assert a + b == b;
    }
  }

  /**
   * What the pass keeps: no more lasers than before, all on the canvas, and
   * each kept laser is the tick of an original one; an original whose tick
   * removes it leaves nothing behind.
   */
  lemma {:induction false} LaserPassSurvivors(ls: seq<Laser>)
    ensures |LaserPass(ls)| <= |ls|
    ensures forall l :: l in LaserPass(ls) ==> !OffCanvas(l)
    ensures forall l :: l in LaserPass(ls) ==> exists o :: o in ls && LaserTick(o) == Some(l)
    ensures forall o :: o in ls && LaserTick(o).Some? ==> LaserTick(o).value in LaserPass(ls)
    decreases |ls|
  {
    if ls != [] {
      LaserPassSurvivors(ls[1..]);
      forall l | l in LaserPass(ls)
        ensures exists o :: o in ls && LaserTick(o) == Some(l)
      {
        if l in LaserPass(ls[1..]) {
          var o :| o in ls[1..] && LaserTick(o) == Some(l);
          assert o in ls;
        } else {
          assert LaserTick(ls[0]) == Some(l);
        }
      }
      forall o | o in ls && LaserTick(o).Some?
        ensures LaserTick(o).value in LaserPass(ls)
      {
        if o != ls[0] {
          assert o in ls[1..];
        }
      }
    }
  }

  /** The pass removes exactly the lasers whose tick removes them: its length is the number kept. */
  function Kept(ls: seq<Laser>): nat
    decreases |ls|
  {
    if ls == [] then 0 else (if LaserTick(ls[0]).Some? then 1 else 0) + Kept(ls[1..])
  }

  lemma {:induction false} LaserPassLength(ls: seq<Laser>)
    ensures |LaserPass(ls)| == Kept(ls)
    decreases |ls|
  {
    if ls != [] {
      LaserPassLength(ls[1..]);
    }
  }

  // ---------------------------------------------------------------------
  // Phase 4: laser-asteroid hits, splitting, scoring.

  /** A laser hits an asteroid when it is not exploding and lies within the asteroid's radius. */
  predicate Hits(l: Laser, a: Asteroid)
  {
    l.explodeTime == 0 && CloserThan(a.x, a.y, l.x, l.y, a.r as real)
  }

  /**
   * The laser the inner loop stops at: scanning from the last laser down, the
   * first one that hits the asteroid (`break` after the first hit).
   */
  function FirstHit(ls: seq<Laser>, a: Asteroid): (j: Option<nat>)
    ensures j.Some? ==> j.value < |ls| && Hits(ls[j.value], a)
    ensures j.Some? ==> forall i :: j.value < i < |ls| ==> !Hits(ls[i], a)
    ensures j.None? ==> forall i :: 0 <= i < |ls| ==> !Hits(ls[i], a)
    decreases |ls|
  {
    if ls == [] then None
    else if Hits(ls[|ls| - 1], a) then Some(|ls| - 1)
    else FirstHit(ls[..|ls| - 1], a)
  }

  /** `Math.ceil(r / 2)` on an integer radius. */
  function CeilHalf(r: int): (h: int)
    ensures 2 * h - 1 <= r <= 2 * h
  {
    (r + 1) / 2
  }

  /** The split children get their velocity scaled by 1.5. */
  function Boost(c: Asteroid): Asteroid
  {
    c.(xv := c.xv * 1.5, yv := c.yv * 1.5)
  }

  /**
   * What a destroyed asteroid leaves: two boosted children of radius
   * `ceil(r / 2)` at its position when `r > SPLIT_MIN`, nothing otherwise.
   */
  function Split(a: Asteroid, level: nat, rand: Draws, k: nat): Spawn
  {
    if a.r > SPLIT_MIN then
      var size := CeilHalf(a.r);
      Spawn([Boost(AsteroidOf(a.x, a.y, size, level, rand, k)),
             Boost(AsteroidOf(a.x, a.y, size, level, rand, k + 1))], k + 2)
    else Spawn([], k)
  }

  /**
   * The result of hit resolution: the asteroids not hit (in their order), the
   * children spawned (in the order they were pushed), the lasers with their
   * new explosion timers, the number of hits, how many of them split, and the
   * creation cursor.
   */
  datatype HitOutcome = HitOutcome(
    survivors: seq<Asteroid>, children: seq<Asteroid>, lasers: seq<Laser>,
    hits: nat, splits: nat, next: nat)

  /**
   * The reverse loop over asteroids: the last asteroid is tested first
   * against the current lasers; a hit sets that laser exploding and spawns
   * its children; then the rest are tested against the updated lasers.
   */
  function Resolve(roids: seq<Asteroid>, ls: seq<Laser>, level: nat, rand: Draws, k: nat): (o: HitOutcome)
    decreases |roids|
  {
    if roids == [] then HitOutcome([], [], ls, 0, 0, k)
    else
      var a := roids[|roids| - 1];
      var rest := roids[..|roids| - 1];
      match FirstHit(ls, a)
      case None =>
        var o := Resolve(rest, ls, level, rand, k);
        o.(survivors := o.survivors + [a])
      case Some(j) =>
        var kids := Split(a, level, rand, k);
        var o := Resolve(rest, ls[j := ls[j].(explodeTime := LASER_EXPLODE_TICKS)], level, rand, kids.next);
        o.(children := kids.roids + o.children, hits := o.hits + 1,
           splits := o.splits + if a.r > SPLIT_MIN then 1 else 0)
  }

  /**
   * Hit resolution conserves asteroids: each original either survives or is
   * hit (so each asteroid is removed at most once), each split adds two
   * children, and the laser array keeps its length.
   */
  lemma {:induction false} ResolveCounts(roids: seq<Asteroid>, ls: seq<Laser>, level: nat, rand: Draws, k: nat)
    ensures var o := Resolve(roids, ls, level, rand, k);
      && |o.survivors| + o.hits == |roids|
      && |o.children| == 2 * o.splits && o.splits <= o.hits
      && |o.lasers| == |ls|
      && |o.survivors| + |o.children| == |roids| - o.hits + 2 * o.splits
    decreases |roids|
  {
    if roids != [] {
      var a := roids[|roids| - 1];
      var rest := roids[..|roids| - 1];
      match FirstHit(ls, a)
      case None =>
        ResolveCounts(rest, ls, level, rand, k);
      case Some(j) =>
        var kids := Split(a, level, rand, k);
        ResolveCounts(rest, ls[j := ls[j].(explodeTime := LASER_EXPLODE_TICKS)], level, rand, kids.next);
    }
  }

  /** The number of lasers that are not exploding, the only ones that can hit. */
  function Armed(ls: seq<Laser>): nat
    decreases |ls|
  {
    if ls == [] then 0 else Armed(ls[..|ls| - 1]) + if ls[|ls| - 1].explodeTime == 0 then 1 else 0
  }

  lemma {:induction false} ArmedExplode(ls: seq<Laser>, j: nat, t: nat)
    requires j < |ls| && ls[j].explodeTime == 0 && t > 0
    ensures Armed(ls[j := ls[j].(explodeTime := t)]) + 1 == Armed(ls)
    decreases |ls|
  {
    var ls' := ls[j := ls[j].(explodeTime := t)];
    if j < |ls| - 1 {
      assert ls'[..|ls'| - 1] == ls[..|ls| - 1][j := ls[j].(explodeTime := t)];
      ArmedExplode(ls[..|ls| - 1], j, t);
    } else {
      assert ls'[..|ls'| - 1] == ls[..|ls| - 1];
    }
  }

  /**
   * Each hit consumes exactly one non-exploding laser, which is set to
   * explode for LASER_EXPLODE_TICKS ticks and can hit nothing else; every
   * other laser is left as it was.
   */
  lemma {:induction false} ResolveLasers(roids: seq<Asteroid>, ls: seq<Laser>, level: nat, rand: Draws, k: nat)
    ensures var o := Resolve(roids, ls, level, rand, k);
      && Armed(o.lasers) + o.hits == Armed(ls)
      && |o.lasers| == |ls|
      && forall j :: 0 <= j < |ls| ==>
           o.lasers[j] == ls[j] || (ls[j].explodeTime == 0 && o.lasers[j] == ls[j].(explodeTime := LASER_EXPLODE_TICKS))
    decreases |roids|
  {
    if roids != [] {
      var a := roids[|roids| - 1];
      var rest := roids[..|roids| - 1];
      match FirstHit(ls, a)
      case None =>
        ResolveLasers(rest, ls, level, rand, k);
      case Some(j) =>
        var kids := Split(a, level, rand, k);
        var ls' := ls[j := ls[j].(explodeTime := LASER_EXPLODE_TICKS)];
        ArmedExplode(ls, j, LASER_EXPLODE_TICKS);
        ResolveLasers(rest, ls', level, rand, kids.next);
        var o := Resolve(roids, ls, level, rand, k);
        forall i | 0 <= i < |ls|
          ensures o.lasers[i] == ls[i] || (ls[i].explodeTime == 0 && o.lasers[i] == ls[i].(explodeTime := LASER_EXPLODE_TICKS))
        {
          if i == j {
            assert ls'[i].explodeTime != 0;
          }
        }
    }
  }

  /** The three asteroid sizes: full, half and quarter of ASTEROID_SIZE. */
  predicate SizeTier(r: int)
  {
    r == ASTEROID_SIZE || r == ASTEROID_SIZE / 2 || r == ASTEROID_SIZE / 4
  }

  /** The invariant every asteroid of the game keeps: a size tier and the generator's shape. */
  ghost predicate WellFormed(a: Asteroid)
  {
    SizeTier(a.r) && Shaped(a)
  }

  /**
   * A split of a well-formed asteroid gives well-formed children of radius
   * ceil(r / 2) at its position, two when r > SPLIT_MIN and none otherwise.
   */
  lemma SplitChildren(a: Asteroid, level: nat, rand: Draws, k: nat)
    requires UnitDraws(rand) && WellFormed(a)
    ensures var kids := Split(a, level, rand, k);
      && |kids.roids| == (if a.r > SPLIT_MIN then 2 else 0)
      && forall c :: c in kids.roids ==>
           WellFormed(c) && c.r == CeilHalf(a.r) && c.x == a.x && c.y == a.y
  {
    DerivedConstants();
    if a.r > SPLIT_MIN {
      AsteroidShape(a.x, a.y, CeilHalf(a.r), level, rand, k);
      AsteroidShape(a.x, a.y, CeilHalf(a.r), level, rand, k + 1);
    }
  }

  /**
   * Hit resolution keeps every asteroid well-formed, so radii stay in
   * {100, 50, 25}; survivors are original asteroids and children sit at the
   * position of an original asteroid.
   */
  lemma {:induction false} ResolveWellFormed(roids: seq<Asteroid>, ls: seq<Laser>, level: nat, rand: Draws, k: nat)
    requires UnitDraws(rand)
    requires forall a :: a in roids ==> WellFormed(a)
    ensures var o := Resolve(roids, ls, level, rand, k);
      && (forall a :: a in o.survivors ==> a in roids)
      && (forall c :: c in o.children ==> WellFormed(c))
      && (forall c :: c in o.children ==> exists a :: a in roids && c.x == a.x && c.y == a.y && c.r < a.r)
    decreases |roids|
  {
    if roids != [] {
      var a := roids[|roids| - 1];
      var rest := roids[..|roids| - 1];
      assert forall b :: b in rest ==> b in roids;
      match FirstHit(ls, a)
      case None =>
        ResolveWellFormed(rest, ls, level, rand, k);
      case Some(j) =>
        var kids := Split(a, level, rand, k);
        SplitChildren(a, level, rand, k);
        ResolveWellFormed(rest, ls[j := ls[j].(explodeTime := LASER_EXPLODE_TICKS)], level, rand, kids.next);
    }
  }

  /**
   * One asteroid against the lasers: not hit, it survives; hit with
   * r > SPLIT_MIN, it is replaced by two children of radius ceil(r / 2) at
   * its position; hit with r <= SPLIT_MIN, it is removed with no children.
   */
  lemma ResolveOne(a: Asteroid, ls: seq<Laser>, level: nat, rand: Draws, k: nat)
    ensures var o := Resolve([a], ls, level, rand, k);
      && (FirstHit(ls, a).None? ==> o.survivors == [a] && o.children == [] && o.hits == 0 && o.lasers == ls)
      && (FirstHit(ls, a).Some? ==> o.survivors == [] && o.hits == 1)
      && (FirstHit(ls, a).Some? && a.r > SPLIT_MIN ==>
            |o.children| == 2 && forall c :: c in o.children ==> c.r == CeilHalf(a.r) && c.x == a.x && c.y == a.y)
      && (FirstHit(ls, a).Some? && a.r <= SPLIT_MIN ==> o.children == [])
  {
    assert [a][..0] == [];
  }

  // ---------------------------------------------------------------------
  // Phase 7: ship-asteroid collision.

  /** The ship at (x, y) with radius r touches some asteroid. */
  predicate Collides(x: real, y: real, r: int, roids: seq<Asteroid>)
  {
    exists i :: 0 <= i < |roids| && CloserThan(x, y, roids[i].x, roids[i].y, (r + roids[i].r) as real)
  }
}
