/**
 * The entity records and constants of the arcade simulation and the
 * procedural asteroid generator (`createAsteroid`, `createAsteroidBelt`).
 *
 * `Math.random()` is modelled as draws `rand(k, i)`: the i-th draw made by
 * the k-th asteroid creation of a call; a cursor counts the creations made
 * so far. Every draw the environment produces lies in [0, 1) (UnitDraws).
 */
module ArcadeEntities {
  import opened Geometry

  // Game constants, as in the source.
  const FPS: real := 60.0
  const FRICTION: real := 0.7
  const SHIP_SIZE: int := 30
  const SHIP_THRUST: real := 5.0
  const TURN_SPEED: real := 360.0
  const ASTEROID_NUM: nat := 3
  const ASTEROID_SIZE: int := 100
  const ASTEROID_SPD: real := 50.0
  const ASTEROID_VERT: int := 10
  const ASTEROID_JAG: real := 0.4
  const LASER_MAX: nat := 10
  const LASER_SPD: real := 500.0
  const LASER_EXPLODE_DUR: real := 0.1

  /** `Math.PI`, the double nearest to pi, as an exact rational. */
  const PI: real := 3.141592653589793

  /** The canvas the game draws on is 800 by 600. */
  const WIDTH: real := 800.0
  const HEIGHT: real := 600.0

  /** `Math.ceil` on reals. */
  function Ceil(v: real): (c: int)
    ensures c as real - 1.0 < v <= c as real
  {
    -((-v).Floor)
  }

  /** `SHIP_SIZE / 2`: the ship's radius. */
  const SHIP_RADIUS: int := SHIP_SIZE / 2
  /** `Math.ceil(ASTEROID_SIZE / 4)`: asteroids above this radius split when hit. */
  const SPLIT_MIN: int := Ceil(ASTEROID_SIZE as real / 4.0)
  /** `Math.ceil(LASER_EXPLODE_DUR * FPS)`: ticks a laser explosion lasts. */
  const LASER_EXPLODE_TICKS: nat := 6
  /** `ASTEROID_SIZE * 2 + SHIP_SIZE`: clearance of a new belt around the centre. */
  const SPAWN_CLEARANCE: int := ASTEROID_SIZE * 2 + SHIP_SIZE

  lemma DerivedConstants()
    ensures SHIP_RADIUS == 15 && SPLIT_MIN == 25 && SPAWN_CLEARANCE == 230
    ensures LASER_EXPLODE_TICKS == Ceil(LASER_EXPLODE_DUR * FPS) && LASER_EXPLODE_TICKS > 0
  {
    assert ASTEROID_SIZE as real / 4.0 == 25.0;
    assert LASER_EXPLODE_DUR * FPS == 6.0;
  }

  datatype Asteroid = Asteroid(
    x: real, y: real,      // position
    xv: real, yv: real,    // velocity, in pixels per tick
    a: real,               // rotation angle of the silhouette
    r: int,                // radius
    vert: int,             // number of vertices
    offs: seq<real>)       // per-vertex radius multipliers

  datatype Laser = Laser(x: real, y: real, xv: real, yv: real, explodeTime: nat)

  /** A belt position accepted by the rejection-sampling loop. */
  datatype Spot = Spot(x: int, y: int)

  /** Fresh asteroids with the random-draw cursor after their creation. */
  datatype Spawn = Spawn(roids: seq<Asteroid>, next: nat)

  type Draws = (nat, nat) -> real

  ghost predicate UnitDraws(rand: Draws)
  {
    forall k: nat, i: nat :: 0.0 <= rand(k, i) < 1.0
  }

  /** `1 + 0.1 * level`: asteroids get faster with each level. */
  function LevelMultiplier(level: nat): real
  {
    1.0 + 0.1 * level as real
  }

  /** The largest speed, in pixels per tick, of an asteroid made at this level. */
  function MaxSpeed(level: nat): (s: real)
    ensures s > 0.0
  {
    ASTEROID_SPD * LevelMultiplier(level) / FPS
  }

  /** `Math.random() * ASTEROID_SPD * lvlMult / FPS * (Math.random() < 0.5 ? 1 : -1)`. */
  function Velocity(magnitude: real, sign: real, level: nat): real
  {
    magnitude * MaxSpeed(level) * Sign(sign)
  }

  /** `Math.random() < 0.5 ? 1 : -1`. */
  function Sign(draw: real): real
  {
    if draw < 0.5 then 1.0 else -1.0
  }

  /** `Math.floor(Math.random() * (ASTEROID_VERT + 1) + ASTEROID_VERT / 2)`. */
  function VertexCount(draw: real): int
  {
    (draw * (ASTEROID_VERT + 1) as real + ASTEROID_VERT as real / 2.0).Floor
  }

  /** `Math.random() * ASTEROID_JAG * 2 + 1 - ASTEROID_JAG`. */
  function Offset(draw: real): real
  {
    draw * ASTEROID_JAG * 2.0 + 1.0 - ASTEROID_JAG
  }

  /**
   * The asteroid `createAsteroid(x, y, r)` builds at the given level from the
   * draws rand(k, 0), rand(k+1), ...: two draws per velocity component
   * (magnitude, then sign), one for the angle, one for the vertex count, then
   * one per vertex.
   */
  function AsteroidOf(x: real, y: real, r: int, level: nat, rand: Draws, k: nat): Asteroid
  {
    var vert := VertexCount(rand(k, 5));
    Asteroid(x, y,
             Velocity(rand(k, 0), rand(k, 1), level),
             Velocity(rand(k, 2), rand(k, 3), level),
             rand(k, 4) * PI * 2.0,
             r, vert,
             Offsets(rand, k, vert))
  }

  /** The offsets the for loop pushes: one draw per vertex, none when `vert <= 0`. */
  function Offsets(rand: Draws, k: nat, vert: int): (offs: seq<real>)
    ensures |offs| == if vert <= 0 then 0 else vert
    ensures forall i :: 0 <= i < |offs| ==> offs[i] == Offset(rand(k, 6 + i))
    ensures UnitDraws(rand) ==> forall i :: 0 <= i < |offs| ==> 1.0 - ASTEROID_JAG <= offs[i] < 1.0 + ASTEROID_JAG
  {
    if vert <= 0 then [] else seq(vert, i requires 0 <= i < vert => Offset(rand(k, 6 + i)))
  }

  /** The silhouette invariant of every asteroid the generator makes. */
  ghost predicate Shaped(roid: Asteroid)
  {
    && ASTEROID_VERT / 2 <= roid.vert <= ASTEROID_VERT + ASTEROID_VERT / 2
    && |roid.offs| == roid.vert
    && forall i :: 0 <= i < |roid.offs| ==> 1.0 - ASTEROID_JAG <= roid.offs[i] < 1.0 + ASTEROID_JAG
  }

  lemma VertexCountRange(draw: real)
    requires 0.0 <= draw < 1.0
    ensures 5 <= VertexCount(draw) <= 15
  {
    var v := draw * 11.0 + 5.0;
    assert 5.0 <= v < 16.0;
  }

  /**
   * For draws in [0, 1) the asteroid has between 5 and 15 vertices, one
   * offset per vertex, each in [1 - ASTEROID_JAG, 1 + ASTEROID_JAG), and the
   * requested position and radius.
   */
  lemma AsteroidShape(x: real, y: real, r: int, level: nat, rand: Draws, k: nat)
    requires UnitDraws(rand)
    ensures var roid := AsteroidOf(x, y, r, level, rand, k);
      Shaped(roid) && roid.x == x && roid.y == y && roid.r == r
  {
    var roid := AsteroidOf(x, y, r, level, rand, k);
    VertexCountRange(rand(k, 5));
    assert roid.vert == VertexCount(rand(k, 5));
    forall i | 0 <= i < |roid.offs|
      ensures 1.0 - ASTEROID_JAG <= roid.offs[i] < 1.0 + ASTEROID_JAG
    {
      assert roid.offs[i] == Offset(rand(k, 6 + i));
    }
  }

  /** Each velocity component is below MaxSpeed(level) in magnitude. */
  lemma AsteroidSpeed(x: real, y: real, r: int, level: nat, rand: Draws, k: nat)
    requires UnitDraws(rand)
    ensures var roid := AsteroidOf(x, y, r, level, rand, k);
      -MaxSpeed(level) < roid.xv < MaxSpeed(level) && -MaxSpeed(level) < roid.yv < MaxSpeed(level)
  {
    VelocityBound(rand(k, 0), rand(k, 1), level);
    VelocityBound(rand(k, 2), rand(k, 3), level);
  }

  lemma VelocityBound(magnitude: real, sign: real, level: nat)
    requires 0.0 <= magnitude < 1.0
    ensures -MaxSpeed(level) < Velocity(magnitude, sign, level) < MaxSpeed(level)
  {
    var speed := MaxSpeed(level);
    assert 0.0 <= magnitude * speed < speed;
  }

  /**
   * `createAsteroid(x, y, r)`: the record with its offsets pushed one by one
   * in a for loop; `next` is the creation cursor afterwards.
   */
  method CreateAsteroid(x: real, y: real, r: int, level: nat, rand: Draws, k: nat)
    returns (roid: Asteroid, next: nat)
    ensures roid == AsteroidOf(x, y, r, level, rand, k)
    ensures next == k + 1
  {
    var lvlMult := 1.0 + 0.1 * level as real;
    var speed := ASTEROID_SPD * lvlMult / FPS;
    roid := Asteroid(x, y,
                     rand(k, 0) * speed * (if rand(k, 1) < 0.5 then 1.0 else -1.0),
                     rand(k, 2) * speed * (if rand(k, 3) < 0.5 then 1.0 else -1.0),
                     rand(k, 4) * PI * 2.0,
                     r,
                     (rand(k, 5) * (ASTEROID_VERT + 1) as real + ASTEROID_VERT as real / 2.0).Floor,
                     []);
    next := k + 1;
    var i := 0;
    while i < roid.vert
      invariant 0 <= i <= if roid.vert <= 0 then 0 else roid.vert
      invariant |roid.offs| == i
      invariant forall j :: 0 <= j < i ==> roid.offs[j] == Offset(rand(k, 6 + j))
      invariant roid.(offs := []) == AsteroidOf(x, y, r, level, rand, k).(offs := [])
    {
      roid := roid.(offs := roid.offs + [rand(k, 6 + i) * ASTEROID_JAG * 2.0 + 1.0 - ASTEROID_JAG]);
      i := i + 1;
    }
    ghost var expected := AsteroidOf(x, y, r, level, rand, k);
    assert roid.vert == expected.vert;
    assert |roid.offs| == |expected.offs|;
    assert forall j :: 0 <= j < |roid.offs| ==> roid.offs[j] == expected.offs[j];
    assert roid.offs == expected.offs;
  }

  /** A position the belt's rejection loop accepts: integer, on the canvas, clear of the centre. */
  predicate ValidSpot(s: Spot)
  {
    && 0 <= s.x < WIDTH.Floor && 0 <= s.y < HEIGHT.Floor
    && !CloserThan(WIDTH / 2.0, HEIGHT / 2.0, s.x as real, s.y as real, SPAWN_CLEARANCE as real)
  }

  /** `ASTEROID_NUM + level`: the size of a level's belt. */
  function BeltSize(level: nat): nat
  {
    ASTEROID_NUM + level
  }

  /** The belt `createAsteroidBelt` builds: one full-size asteroid per accepted spot, in order. */
  function Belt(spots: seq<Spot>, level: nat, rand: Draws, k: nat): (b: Spawn)
    ensures |b.roids| == |spots|
    decreases |spots|
  {
    if spots == [] then Spawn([], k)
    else
      var roid := AsteroidOf(spots[0].x as real, spots[0].y as real, ASTEROID_SIZE, level, rand, k);
      var rest := Belt(spots[1..], level, rand, k + 1);
      Spawn([roid] + rest.roids, rest.next)
  }

  /**
   * Every belt asteroid has the full radius, sits at its integer spot, at
   * distance at least SPAWN_CLEARANCE from the centre, and is Shaped.
   */
  lemma {:induction false} BeltProperties(spots: seq<Spot>, level: nat, rand: Draws, k: nat)
    requires UnitDraws(rand)
    requires forall i :: 0 <= i < |spots| ==> ValidSpot(spots[i])
    ensures var b := Belt(spots, level, rand, k);
      forall i :: 0 <= i < |b.roids| ==>
        && b.roids[i].r == ASTEROID_SIZE && Shaped(b.roids[i])
        && b.roids[i].x == spots[i].x as real && b.roids[i].y == spots[i].y as real
        && !CloserThan(WIDTH / 2.0, HEIGHT / 2.0, b.roids[i].x, b.roids[i].y, SPAWN_CLEARANCE as real)
    decreases |spots|
  {
    if spots != [] {
      var roid := AsteroidOf(spots[0].x as real, spots[0].y as real, ASTEROID_SIZE, level, rand, k);
      AsteroidShape(spots[0].x as real, spots[0].y as real, ASTEROID_SIZE, level, rand, k);
      BeltProperties(spots[1..], level, rand, k + 1);
      var b := Belt(spots, level, rand, k);
      forall i | 0 <= i < |b.roids|
        ensures b.roids[i].r == ASTEROID_SIZE && Shaped(b.roids[i])
        ensures b.roids[i].x == spots[i].x as real && b.roids[i].y == spots[i].y as real
      {
        if i > 0 {
          assert spots[1..][i - 1] == spots[i];
        }
      }
    }
  }

  /**
   * `createAsteroidBelt`: the array is emptied and one asteroid per accepted
   * spot is pushed. The spots are the positions the rejection loop settled on.
   */
  method CreateAsteroidBelt(spots: seq<Spot>, level: nat, rand: Draws, k: nat)
    returns (belt: seq<Asteroid>, next: nat)
    requires |spots| == BeltSize(level)
    ensures |belt| == ASTEROID_NUM + level
    ensures Spawn(belt, next) == Belt(spots, level, rand, k)
  {
    ghost var whole := Belt(spots, level, rand, k);
    belt := [];
    next := k;
    var i := 0;
    while i < ASTEROID_NUM + level
      invariant 0 <= i <= |spots|
      invariant belt + Belt(spots[i..], level, rand, next).roids == whole.roids
      invariant Belt(spots[i..], level, rand, next).next == whole.next
    {
      ghost var rest := Belt(spots[i..], level, rand, next);
      BeltUnfold(spots, i, level, rand, next);
      var roid;
      roid, next := CreateAsteroid(spots[i].x as real, spots[i].y as real, ASTEROID_SIZE, level, rand, next);
      ghost var tail := Belt(spots[i + 1..], level, rand, next);
      assert rest.roids == [roid] + tail.roids;
      assert belt + rest.roids == (belt + [roid]) + tail.roids;
      belt := belt + [roid];
      i := i + 1;
    }
    assert spots[i..] == [];
  }

  lemma BeltUnfold(spots: seq<Spot>, i: nat, level: nat, rand: Draws, k: nat)
    requires i < |spots|
    ensures var roid := AsteroidOf(spots[i].x as real, spots[i].y as real, ASTEROID_SIZE, level, rand, k);
      var tail := Belt(spots[i + 1..], level, rand, k + 1);
      Belt(spots[i..], level, rand, k) == Spawn([roid] + tail.roids, tail.next)
  {
    assert spots[i..][0] == spots[i] && spots[i..][1..] == spots[i + 1..];
  }
}
