/**
 * The arcade game's state machine: the ship, the field of asteroids, the
 * score and the START / PLAYING / GAMEOVER states, advanced one tick at a
 * time by `update`. `World` is the value of the whole state and the phase
 * functions say what each part of a tick does to it; the classes `Ship` and
 * `Game` hold the state the component keeps in its refs and run the tick in
 * place, proved equal to those functions.
 */
module ArcadeGame {
  import opened Options
  import opened Geometry
  import opened ArcadeEntities
  import opened ArcadePhysics
  import opened ArcadeControls

  datatype GameState = Start | Playing | GameOver

  /** The ship's fields the game logic reads and writes. */
  datatype ShipState = ShipState(
    x: real, y: real, a: real, rot: real, thrustX: real, thrustY: real,
    r: int, canShoot: bool, dead: bool, thrusting: bool, lasers: seq<Laser>)

  /** The ship `resetGame` builds: centred, pointing up, at rest, ready to shoot. */
  const SHIP_START: ShipState :=
    ShipState(WIDTH / 2.0, HEIGHT / 2.0, 90.0 / 180.0 * PI, 0.0, 0.0, 0.0,
              SHIP_RADIUS, true, false, false, [])

  /** What holds of the ship throughout a game. */
  predicate ShipValid(s: ShipState)
  {
    s.r == SHIP_RADIUS && |s.lasers| <= LASER_MAX && InWrapBounds(s.x, s.y, s.r as real, WIDTH, HEIGHT)
  }

  /** The whole game state: the component's React state, its refs and the creation cursor of the random draws. */
  datatype World = World(
    state: GameState, score: int, highScore: int, level: nat, cursor: nat,
    ship: Option<ShipState>, asteroids: seq<Asteroid>, keys: Keys)

  /** The state at mount: start screen, no ship, no asteroids, nothing held. */
  const WORLD_START: World := World(Start, 0, 0, 0, 0, None, [], NO_KEYS)

  /**
   * The game invariant: a ship exists once a game has started, it is dead
   * exactly on the game-over screen, every asteroid has one of the three
   * sizes and the generator's shape, scores are whole hundreds, and the high
   * score covers the final score of a finished game.
   */
  ghost predicate WorldValid(w: World)
  {
    && (w.ship.None? <==> w.state == Start)
    && (w.ship.Some? ==> ShipValid(w.ship.value) && (w.ship.value.dead <==> w.state == GameOver))
    && (forall a :: a in w.asteroids ==> WellFormed(a))
    && 0 <= w.score && w.score % 100 == 0
    && 0 <= w.highScore && w.highScore % 100 == 0
    && (w.state == GameOver ==> w.score <= w.highScore)
  }

  lemma WorldStartValid()
    ensures WorldValid(WORLD_START)
  {
  }

  function Max(a: int, b: int): (m: int)
    ensures m >= a && m >= b && (m == a || m == b)
  {
    if a >= b then a else b
  }

  // ---------------------------------------------------------------------
  // The phases of one tick.

  /** Thrust while up is held and the ship lives; friction otherwise. */
  function ThrustPhase(s: ShipState, up: bool, cos: real -> real, sin: real -> real): ShipState
  {
    if up && !s.dead then
      s.(thrusting := true, thrustX := Accelerate(s.thrustX, cos(s.a)), thrustY := Accelerate(s.thrustY, -sin(s.a)))
    else
      s.(thrusting := false, thrustX := Damp(s.thrustX), thrustY := Damp(s.thrustY))
  }

  /** A live ship drifts by its thrust, wraps and turns by `rot`; a dead one stays. */
  function MovePhase(s: ShipState): (t: ShipState)
    ensures s.dead ==> t == s
    ensures 0 <= s.r ==> (!s.dead ==> InWrapBounds(t.x, t.y, t.r as real, WIDTH, HEIGHT))
    ensures t == s.(x := t.x, y := t.y, a := t.a)
  {
    if s.dead then s
    else s.(x := Wrap(s.x + s.thrustX, s.r as real, WIDTH), y := Wrap(s.y + s.thrustY, s.r as real, HEIGHT),
            a := s.a + s.rot)
  }

  /** The laser `shootLaser` pushes: from the nose of the ship, flying along its heading. */
  function NoseLaser(s: ShipState, cos: real -> real, sin: real -> real): (l: Laser)
    ensures l.explodeTime == 0
    ensures l.xv * (l.y - s.y) == l.yv * (l.x - s.x)
    ensures 0 < s.r ==> (l.xv > 0.0 <==> l.x > s.x) && (l.yv > 0.0 <==> l.y > s.y)
  {
    Laser(s.x + 4.0 / 3.0 * s.r as real * cos(s.a), s.y - 4.0 / 3.0 * s.r as real * sin(s.a),
          LASER_SPD * cos(s.a) / FPS, -LASER_SPD * sin(s.a) / FPS, 0)
  }

  /** The controls at the end of the tick: rotation from the held keys, then the fire logic. */
  function ControlPhase(s: ShipState, keys: Keys, cos: real -> real, sin: real -> real): (t: ShipState)
    ensures |t.lasers| <= LASER_MAX || t.lasers == s.lasers
    ensures t.rot == Rotation(keys)
    ensures t.canShoot <==> !keys.space
    ensures |t.lasers| == |s.lasers| + (if keys.space && s.canShoot && |s.lasers| < LASER_MAX then 1 else 0)
    ensures t.lasers[..|s.lasers|] == s.lasers
    ensures t == s.(rot := t.rot, canShoot := t.canShoot, lasers := t.lasers)
  {
    var t := s.(rot := Rotation(keys));
    var f := FireStep(t.canShoot, keys.space, |t.lasers|);
    t.(lasers := if f.fired then t.lasers + [NoseLaser(t, cos, sin)] else t.lasers, canShoot := f.canShoot)
  }

  /** The thrust phase applied to the world's ship. */
  function ThrustWorld(w: World, cos: real -> real, sin: real -> real): World
  {
    match w.ship
    case None => w
    case Some(s) => w.(ship := Some(ThrustPhase(s, w.keys.up, cos, sin)))
  }

  /** The hit resolution of a tick: the moved asteroids against the lasers after their own pass. */
  function HitStage(w: World, s: ShipState, rand: Draws): HitOutcome
  {
    Resolve(MoveAll(w.asteroids), LaserPass(s.lasers), w.level, rand, w.cursor)
  }

  /**
   * Asteroid pass, laser pass, hit resolution and scoring: the field becomes
   * the survivors followed by the children, and 100 points are added per hit.
   */
  function HitPhase(w: World, rand: Draws): World
  {
    match w.ship
    case None => w
    case Some(s) =>
      var o := HitStage(w, s, rand);
      w.(score := w.score + 100 * o.hits, cursor := o.next, ship := Some(s.(lasers := o.lasers)),
         asteroids := o.survivors + o.children)
  }

  /** Level completion: an empty field means the next level and a new belt. */
  function LevelPhase(w: World, rand: Draws, spots: seq<Spot>): World
  {
    if w.asteroids == [] then
      var belt := Belt(spots, w.level + 1, rand, w.cursor);
      w.(level := w.level + 1, asteroids := belt.roids, cursor := belt.next)
    else w
  }

  /**
   * Ship move and collision against `roids`, the field as it was before the
   * level check: a live ship touching one dies, the game is over and the
   * high score takes the score if it is higher.
   */
  function CrashPhase(w: World, roids: seq<Asteroid>): World
  {
    match w.ship
    case None => w
    case Some(s) =>
      var t := MovePhase(s);
      if !t.dead && Collides(t.x, t.y, t.r, roids) then
        w.(state := GameOver, highScore := Max(w.highScore, w.score), ship := Some(t.(dead := true)))
      else w.(ship := Some(t))
  }

  /** The controls phase applied to the world's ship. */
  function ControlWorld(w: World, cos: real -> real, sin: real -> real): World
  {
    match w.ship
    case None => w
    case Some(s) => w.(ship := Some(ControlPhase(s, w.keys, cos, sin)))
  }

  /**
   * `update`: nothing unless a game is being played; otherwise thrust,
   * asteroid pass, laser pass, hit resolution and scoring, level completion,
   * ship move, ship collision, and controls, in that order. The collision is
   * tested against the field as it was after the hits, so on the tick a
   * level is cleared there is nothing to collide with.
   */
  function Tick(w: World, cos: real -> real, sin: real -> real, rand: Draws, spots: seq<Spot>): World
  {
    if w.state != Playing || w.ship.None? then w
    else
      var h := HitPhase(ThrustWorld(w, cos, sin), rand);
      ControlWorld(CrashPhase(LevelPhase(h, rand, spots), h.asteroids), cos, sin)
  }

  /** `startGame`, through `resetGame` and `newLevel`: level 0, score 0, a new ship, a new belt, playing. */
  function Started(w: World, rand: Draws, spots: seq<Spot>): World
  {
    var belt := Belt(spots, 0, rand, w.cursor);
    World(Playing, 0, w.highScore, 0, belt.next, Some(SHIP_START), belt.roids, w.keys)
  }

  // ---------------------------------------------------------------------
  // What the source promises about a tick.

  lemma ThrustKeepsValid(w: World, cos: real -> real, sin: real -> real)
    requires WorldValid(w)
    ensures WorldValid(ThrustWorld(w, cos, sin))
  {
  }

  /** The thrust phase touches only the ship's thrust. */
  lemma ThrustKeepsLasers(w: World, cos: real -> real, sin: real -> real)
    requires w.ship.Some?
    ensures ThrustWorld(w, cos, sin).ship.value.lasers == w.ship.value.lasers
    ensures ThrustWorld(w, cos, sin) == w.(ship := ThrustWorld(w, cos, sin).ship)
  {
  }

  lemma HitKeepsValid(w: World, rand: Draws)
    requires WorldValid(w) && UnitDraws(rand) && w.state == Playing
    ensures WorldValid(HitPhase(w, rand))
  {
    if w.ship.Some? {
      var s := w.ship.value;
      var o := HitStage(w, s, rand);
      MoveAllKeepsField(w.asteroids);
      LaserPassSurvivors(s.lasers);
      ResolveCounts(MoveAll(w.asteroids), LaserPass(s.lasers), w.level, rand, w.cursor);
      ResolveWellFormed(MoveAll(w.asteroids), LaserPass(s.lasers), w.level, rand, w.cursor);
      forall a | a in o.survivors + o.children
        ensures WellFormed(a)
      {
        assert a in o.survivors || a in o.children;
      }
    }
  }

  lemma LevelKeepsValid(w: World, rand: Draws, spots: seq<Spot>)
    requires WorldValid(w) && UnitDraws(rand)
    requires forall i :: 0 <= i < |spots| ==> ValidSpot(spots[i])
    ensures WorldValid(LevelPhase(w, rand, spots))
  {
    if w.asteroids == [] {
      BeltProperties(spots, w.level + 1, rand, w.cursor);
      DerivedConstants();
    }
  }

  lemma CrashKeepsValid(w: World, roids: seq<Asteroid>)
    requires WorldValid(w)
    ensures WorldValid(CrashPhase(w, roids))
  {
    DerivedConstants();
  }

  lemma ControlKeepsValid(w: World, cos: real -> real, sin: real -> real)
    requires WorldValid(w)
    ensures WorldValid(ControlWorld(w, cos, sin))
  {
  }

  /** A tick keeps the game invariant. */
  lemma TickValid(w: World, cos: real -> real, sin: real -> real, rand: Draws, spots: seq<Spot>)
    requires WorldValid(w) && UnitDraws(rand)
    requires forall i :: 0 <= i < |spots| ==> ValidSpot(spots[i])
    ensures WorldValid(Tick(w, cos, sin, rand, spots))
  {
    if w.state == Playing && w.ship.Some? {
      var t := ThrustWorld(w, cos, sin);
      ThrustKeepsValid(w, cos, sin);
      var h := HitPhase(t, rand);
      HitKeepsValid(t, rand);
      var l := LevelPhase(h, rand, spots);
      LevelKeepsValid(h, rand, spots);
      var c := CrashPhase(l, h.asteroids);
      CrashKeepsValid(l, h.asteroids);
      ControlKeepsValid(c, cos, sin);
    }
  }

  /** Outside a game a tick changes nothing. */
  lemma TickIdle(w: World, cos: real -> real, sin: real -> real, rand: Draws, spots: seq<Spot>)
    requires w.state != Playing
    ensures Tick(w, cos, sin, rand, spots) == w
  {
  }

  /**
   * Scoring: each asteroid destroyed this tick adds 100 points, and no more
   * asteroids are destroyed than there were or than there were non-exploding
   * lasers; the score never decreases.
   */
  lemma TickScore(w: World, cos: real -> real, sin: real -> real, rand: Draws, spots: seq<Spot>)
    requires w.state == Playing && w.ship.Some?
    ensures var o := HitStage(w, w.ship.value, rand);
      && Tick(w, cos, sin, rand, spots).score == w.score + 100 * o.hits
      && o.hits <= |w.asteroids|
      && o.hits <= Armed(LaserPass(w.ship.value.lasers))
  {
    ThrustKeepsLasers(w, cos, sin);
    ResolveCounts(MoveAll(w.asteroids), LaserPass(w.ship.value.lasers), w.level, rand, w.cursor);
    ResolveLasers(MoveAll(w.asteroids), LaserPass(w.ship.value.lasers), w.level, rand, w.cursor);
  }

  /** The stages a tick of a game in progress goes through. */
  lemma TickStages(w: World, cos: real -> real, sin: real -> real, rand: Draws, spots: seq<Spot>)
    requires w.state == Playing && w.ship.Some?
    ensures var h := HitPhase(ThrustWorld(w, cos, sin), rand);
      && HitStage(ThrustWorld(w, cos, sin), ThrustWorld(w, cos, sin).ship.value, rand) == HitStage(w, w.ship.value, rand)
      && Tick(w, cos, sin, rand, spots) == ControlWorld(CrashPhase(LevelPhase(h, rand, spots), h.asteroids), cos, sin)
  {
    ThrustKeepsLasers(w, cos, sin);
  }

  /**
   * Level completion: the level goes up exactly when the hits leave no
   * asteroid; otherwise the field is what the hits left.
   */
  lemma TickLevel(w: World, cos: real -> real, sin: real -> real, rand: Draws, spots: seq<Spot>)
    requires w.state == Playing && w.ship.Some?
    ensures var o := HitStage(w, w.ship.value, rand);
      var v := Tick(w, cos, sin, rand, spots);
      && (v.level == w.level + 1 <==> o.survivors + o.children == [])
      && (v.level != w.level + 1 ==> v.level == w.level && v.asteroids == o.survivors + o.children)
  {
    TickStages(w, cos, sin, rand, spots);
    var h := HitPhase(ThrustWorld(w, cos, sin), rand);
    var l := LevelPhase(h, rand, spots);
    CrashKeepsField(l, h.asteroids);
    ControlKeepsField(CrashPhase(l, h.asteroids), cos, sin);
  }

  /**
   * A cleared level: the new field is a belt of ASTEROID_NUM + level
   * full-size asteroids clear of the centre, and the ship survives the tick.
   */
  lemma TickNewBelt(w: World, cos: real -> real, sin: real -> real, rand: Draws, spots: seq<Spot>)
    requires w.state == Playing && w.ship.Some? && UnitDraws(rand)
    requires |spots| == BeltSize(w.level + 1) && forall i :: 0 <= i < |spots| ==> ValidSpot(spots[i])
    requires Tick(w, cos, sin, rand, spots).level == w.level + 1
    ensures var v := Tick(w, cos, sin, rand, spots);
      && |v.asteroids| == ASTEROID_NUM + v.level
      && v.state == Playing
      && forall a :: a in v.asteroids ==>
           a.r == ASTEROID_SIZE && !CloserThan(WIDTH / 2.0, HEIGHT / 2.0, a.x, a.y, SPAWN_CLEARANCE as real)
  {
    TickStages(w, cos, sin, rand, spots);
    var h := HitPhase(ThrustWorld(w, cos, sin), rand);
    var l := LevelPhase(h, rand, spots);
    CrashKeepsField(l, h.asteroids);
    ControlKeepsField(CrashPhase(l, h.asteroids), cos, sin);
    assert h.asteroids == [];
    BeltProperties(spots, w.level + 1, rand, h.cursor);
    forall a | a in l.asteroids
      ensures a.r == ASTEROID_SIZE && !CloserThan(WIDTH / 2.0, HEIGHT / 2.0, a.x, a.y, SPAWN_CLEARANCE as real)
    {
      var i :| 0 <= i < |l.asteroids| && l.asteroids[i] == a;
    }
  }

  /** Ship move and collision touch only the ship, the game state and the high score. */
  lemma CrashKeepsField(w: World, roids: seq<Asteroid>)
    ensures var c := CrashPhase(w, roids);
      && c.level == w.level && c.asteroids == w.asteroids && c.score == w.score && c.cursor == w.cursor
      && (roids == [] ==> c.state == w.state && c.highScore == w.highScore)
  {
  }

  /** The controls touch only the ship. */
  lemma ControlKeepsField(w: World, cos: real -> real, sin: real -> real)
    ensures ControlWorld(w, cos, sin) == w.(ship := ControlWorld(w, cos, sin).ship)
  {
  }

  /**
   * Death: a live ship dies exactly when, after its move, it touches an
   * asteroid left by the hits; the game is then over and the high score is
   * the larger of the old high score and the final score. The high score
   * never decreases.
   */
  lemma TickDeath(w: World, cos: real -> real, sin: real -> real, rand: Draws, spots: seq<Spot>)
    requires WorldValid(w) && w.state == Playing
    ensures var o := HitStage(w, w.ship.value, rand);
      var s := MovePhase(ThrustPhase(w.ship.value, w.keys.up, cos, sin).(lasers := o.lasers));
      var v := Tick(w, cos, sin, rand, spots);
      && (v.state == GameOver <==> Collides(s.x, s.y, s.r, o.survivors + o.children))
      && (v.state == GameOver ==> v.ship.value.dead && v.highScore == Max(w.highScore, v.score))
      && (v.state != GameOver ==> v.state == Playing && !v.ship.value.dead && v.highScore == w.highScore)
      && v.highScore >= w.highScore
  {
    ThrustKeepsLasers(w, cos, sin);
  }

  /** A started game satisfies the invariant and has a fresh belt of ASTEROID_NUM full-size asteroids. */
  lemma StartedValid(w: World, rand: Draws, spots: seq<Spot>)
    requires WorldValid(w) && UnitDraws(rand)
    requires |spots| == BeltSize(0) && forall i :: 0 <= i < |spots| ==> ValidSpot(spots[i])
    ensures var v := Started(w, rand, spots);
      && WorldValid(v) && v.state == Playing && v.score == 0 && v.level == 0
      && |v.asteroids| == ASTEROID_NUM && v.highScore == w.highScore
  {
    BeltProperties(spots, 0, rand, w.cursor);
    DerivedConstants();
  }

  // ---------------------------------------------------------------------
  // The loops of `update` that only compute.

  /** The asteroid pass of `update`: move each asteroid and handle the edge of the screen. */
  method MoveField(roids: seq<Asteroid>) returns (moved: seq<Asteroid>)
    ensures moved == MoveAll(roids)
  {
    moved := roids;
    for i := 0 to |moved|
      invariant |moved| == |roids|
      invariant forall j :: 0 <= j < i ==> moved[j] == MoveAsteroid(roids[j])
      invariant forall j :: i <= j < |moved| ==> moved[j] == roids[j]
    {
      var a := moved[i];
      var x := a.x + a.xv;
      var y := a.y + a.yv;
      if x < 0.0 - a.r as real {
        x := WIDTH + a.r as real;
      } else if x > WIDTH + a.r as real {
        x := 0.0 - a.r as real;
      }
      if y < 0.0 - a.r as real {
        y := HEIGHT + a.r as real;
      } else if y > HEIGHT + a.r as real {
        y := 0.0 - a.r as real;
      }
      moved := moved[i := a.(x := x, y := y)];
    }
  }

  /** The inner loop of the hit test: lasers from the last one down, stopping at the first hit. */
  method FindHit(ls: seq<Laser>, a: Asteroid) returns (j: Option<nat>)
    ensures j == FirstHit(ls, a)
  {
    j := None;
    var i := |ls| - 1;
    while i >= 0
      invariant -1 <= i < |ls|
      invariant FirstHit(ls, a) == FirstHit(ls[..i + 1], a)
      decreases i
    {
      if ls[i].explodeTime == 0 && CloserThan(a.x, a.y, ls[i].x, ls[i].y, a.r as real) {
        j := Some(i);
        return;
      }
      assert ls[..i + 1][..i] == ls[..i];
      i := i - 1;
    }
  }

  /** The remaining part of a hit resolution combined with what the loop has done so far. */
  function Combine(o: HitOutcome, survivors: seq<Asteroid>, children: seq<Asteroid>, hits: nat, splits: nat): HitOutcome
  {
    HitOutcome(o.survivors + survivors, children + o.children, o.lasers, o.hits + hits, o.splits + splits, o.next)
  }

  lemma ResolveUnfold(roids: seq<Asteroid>, i: nat, ls: seq<Laser>, level: nat, rand: Draws, k: nat)
    requires i < |roids|
    ensures var a := roids[i];
      Resolve(roids[..i + 1], ls, level, rand, k) ==
        match FirstHit(ls, a)
        case None =>
          var o := Resolve(roids[..i], ls, level, rand, k);
          o.(survivors := o.survivors + [a])
        case Some(j) =>
          var kids := Split(a, level, rand, k);
          var o := Resolve(roids[..i], ls[j := ls[j].(explodeTime := LASER_EXPLODE_TICKS)], level, rand, kids.next);
          o.(children := kids.roids + o.children, hits := o.hits + 1,
             splits := o.splits + if a.r > SPLIT_MIN then 1 else 0)
  {
    assert roids[..i + 1][..i] == roids[..i];
  }

  /** An asteroid no laser hits moves from the unprocessed prefix to the front of the survivors. */
  lemma ResolveMissStep(roids: seq<Asteroid>, i: nat, ls: seq<Laser>, level: nat, rand: Draws, k: nat,
                        survivors: seq<Asteroid>, children: seq<Asteroid>, hits: nat, splits: nat)
    requires i < |roids| && FirstHit(ls, roids[i]).None?
    ensures Combine(Resolve(roids[..i + 1], ls, level, rand, k), survivors, children, hits, splits)
         == Combine(Resolve(roids[..i], ls, level, rand, k), [roids[i]] + survivors, children, hits, splits)
    ensures roids[..i + 1] + survivors + children == roids[..i] + ([roids[i]] + survivors) + children
  {
    ResolveUnfold(roids, i, ls, level, rand, k);
    assert roids[..i + 1] == roids[..i] + [roids[i]];
  }

  /** A hit asteroid leaves the unprocessed prefix, its laser starts exploding and its children join the end. */
  lemma ResolveHitStep(roids: seq<Asteroid>, i: nat, ls: seq<Laser>, level: nat, rand: Draws, k: nat,
                       survivors: seq<Asteroid>, children: seq<Asteroid>, hits: nat, splits: nat, j: nat)
    requires i < |roids| && FirstHit(ls, roids[i]) == Some(j)
    ensures var kids := Split(roids[i], level, rand, k);
      Combine(Resolve(roids[..i + 1], ls, level, rand, k), survivors, children, hits, splits)
        == Combine(Resolve(roids[..i], ls[j := ls[j].(explodeTime := LASER_EXPLODE_TICKS)], level, rand, kids.next),
                   survivors, children + kids.roids, hits + 1, splits + if roids[i].r > SPLIT_MIN then 1 else 0)
  {
    ResolveUnfold(roids, i, ls, level, rand, k);
  }

  /** Pushing the children and then splicing out asteroid `i` leaves the prefix before it, the survivors and all children. */
  lemma FieldHitStep(roids: seq<Asteroid>, i: nat, survivors: seq<Asteroid>, children: seq<Asteroid>, kids: seq<Asteroid>)
    requires i < |roids|
    ensures var f := roids[..i + 1] + survivors + children + kids;
      f[..i] + f[i + 1..] == roids[..i] + survivors + (children + kids)
  {
    assert roids[..i + 1] + survivors + children + kids == roids[..i] + [roids[i]] + (survivors + children + kids);
    SpliceOut(roids[..i], roids[i], survivors + children + kids);
  }

  /**
   * What a destroyed asteroid spawns: for a radius above SPLIT_MIN, two
   * asteroids of radius `ceil(r / 2)` at its position, their velocity
   * boosted by 1.5; nothing otherwise.
   */
  method SplitAsteroid(a: Asteroid, level: nat, rand: Draws, k: nat) returns (kids: seq<Asteroid>, next: nat)
    ensures Spawn(kids, next) == Split(a, level, rand, k)
  {
    kids, next := [], k;
    if a.r > SPLIT_MIN {
      var size := CeilHalf(a.r);
      var r1, r2;
      r1, next := CreateAsteroid(a.x, a.y, size, level, rand, next);
      r2, next := CreateAsteroid(a.x, a.y, size, level, rand, next);
      r1 := r1.(xv := r1.xv * 1.5, yv := r1.yv * 1.5);
      r2 := r2.(xv := r2.xv * 1.5, yv := r2.yv * 1.5);
      kids := [r1, r2];
    }
  }

  /**
   * The outer loop of the hit test: asteroids from the last one down; a hit
   * sets the laser exploding, pushes the children at the end of the array,
   * removes the asteroid and counts the hit.
   */
  method ResolveHits(roids: seq<Asteroid>, lasers: seq<Laser>, level: nat, rand: Draws, k: nat)
    returns (field: seq<Asteroid>, ls: seq<Laser>, hits: nat, next: nat)
    ensures var o := Resolve(roids, lasers, level, rand, k);
      field == o.survivors + o.children && ls == o.lasers && hits == o.hits && next == o.next
  {
    field, ls, hits, next := roids, lasers, 0, k;
    ghost var survivors: seq<Asteroid> := [];
    ghost var children: seq<Asteroid> := [];
    ghost var splits: nat := 0;
    var i := |roids| - 1;
    assert roids[..i + 1] == roids;
    while i >= 0
      invariant -1 <= i < |roids|
      invariant field == roids[..i + 1] + survivors + children
      invariant Resolve(roids, lasers, level, rand, k) ==
        Combine(Resolve(roids[..i + 1], ls, level, rand, next), survivors, children, hits, splits)
      decreases i
    {
      var a := field[i];
      assert a == roids[i];
      var j := FindHit(ls, a);
      if j.Some? {
        ResolveHitStep(roids, i, ls, level, rand, next, survivors, children, hits, splits, j.value);
        ls := ls[j.value := ls[j.value].(explodeTime := LASER_EXPLODE_TICKS)];
        var kids;
        kids, next := SplitAsteroid(a, level, rand, next);
        FieldHitStep(roids, i, survivors, children, kids);
        field := field + kids;
        field := field[..i] + field[i + 1..];
        children := children + kids;
        hits := hits + 1;
        splits := splits + if a.r > SPLIT_MIN then 1 else 0;
      } else {
        ResolveMissStep(roids, i, ls, level, rand, next, survivors, children, hits, splits);
        survivors := [a] + survivors;
      }
      i := i - 1;
    }
  }

  lemma SpliceOut<T>(front: seq<T>, x: T, back: seq<T>)
    ensures (front + [x] + back)[..|front|] + (front + [x] + back)[|front| + 1..] == front + back
  {
    assert (front + [x] + back)[..|front|] == front;
    assert (front + [x] + back)[|front| + 1..] == back;
  }

  /** The loop invariant of the laser pass: `n` originals done, `i` of them kept, the rest untouched. */
  ghost predicate PassInv(lasers: seq<Laser>, n: nat, ls: seq<Laser>, i: int)
  {
    n <= |lasers| && i == |LaserPass(lasers[..n])| && ls == LaserPass(lasers[..n]) + lasers[n..]
  }

  lemma PassAt(lasers: seq<Laser>, n: nat, ls: seq<Laser>, i: int)
    requires PassInv(lasers, n, ls, i) && n < |lasers|
    ensures 0 <= i < |ls| && ls[i] == lasers[n]
  {
  }

  lemma PassStep(lasers: seq<Laser>, n: nat)
    requires n < |lasers|
    ensures LaserPass(lasers[..n + 1]) == LaserPass(lasers[..n]) + Ticked(lasers[n])
  {
    assert lasers[..n + 1] == lasers[..n] + [lasers[n]];
    LaserPassAppend(lasers[..n], [lasers[n]]);
    assert [lasers[n]][1..] == [];
  }

  /** A laser whose tick keeps it is overwritten in place and the index moves on. */
  lemma PassKeep(lasers: seq<Laser>, n: nat, ls: seq<Laser>, i: int, l: Laser)
    requires PassInv(lasers, n, ls, i) && n < |lasers| && LaserTick(lasers[n]) == Some(l)
    ensures 0 <= i < |ls| && PassInv(lasers, n + 1, ls[i := l], i + 1)
  {
    PassStep(lasers, n);
    var done := LaserPass(lasers[..n]);
    assert lasers[n..] == [lasers[n]] + lasers[n + 1..];
    assert ls[i := l] == done + [l] + lasers[n + 1..];
  }

  /** A laser whose tick removes it is spliced out and the index stays. */
  lemma PassDrop(lasers: seq<Laser>, n: nat, ls: seq<Laser>, i: int)
    requires PassInv(lasers, n, ls, i) && n < |lasers| && LaserTick(lasers[n]).None?
    ensures 0 <= i < |ls| && PassInv(lasers, n + 1, ls[..i] + ls[i + 1..], i)
  {
    PassStep(lasers, n);
    var done := LaserPass(lasers[..n]);
    assert lasers[n..] == [lasers[n]] + lasers[n + 1..];
    SpliceOut(done, lasers[n], lasers[n + 1..]);
  }

  lemma PassDone(lasers: seq<Laser>, n: nat, ls: seq<Laser>, i: int)
    requires PassInv(lasers, n, ls, i) && i >= |ls|
    ensures ls == LaserPass(lasers)
  {
    assert lasers[..n] == lasers;
  }

  /**
   * The laser loop of `update`: move each laser, splice out the ones off the
   * canvas and the ones whose explosion ends, stepping the index back after a
   * removal.
   */
  method PassLasers(lasers: seq<Laser>) returns (ls: seq<Laser>)
    ensures ls == LaserPass(lasers)
  {
    ls := lasers;
    ghost var n := 0;
    var i := 0;
    assert lasers[..0] == [];
    while i < |ls|
      invariant 0 <= i && PassInv(lasers, n, ls, i)
      decreases |ls| - i
    {
      PassAt(lasers, n, ls, i);
      var l := ls[i].(x := ls[i].x + ls[i].xv, y := ls[i].y + ls[i].yv);
      if l.x < 0.0 || l.x > WIDTH || l.y < 0.0 || l.y > HEIGHT {
        PassDrop(lasers, n, ls, i);
        ls := ls[..i] + ls[i + 1..];
        i := i - 1;
      } else if l.explodeTime > 0 {
        l := l.(explodeTime := l.explodeTime - 1);
        if l.explodeTime == 0 {
          PassDrop(lasers, n, ls, i);
          ls := ls[..i] + ls[i + 1..];
          i := i - 1;
        } else {
          PassKeep(lasers, n, ls, i, l);
          ls := ls[i := l];
        }
      } else {
        PassKeep(lasers, n, ls, i, l);
        ls := ls[i := l];
      }
      i := i + 1;
      n := n + 1;
    }
    PassDone(lasers, n, ls, i);
  }

  /** The collision loop: it tests every asteroid, without stopping at the first contact. */
  method Collision(x: real, y: real, r: int, roids: seq<Asteroid>) returns (hit: bool)
    ensures hit == Collides(x, y, r, roids)
  {
    hit := false;
    for i := 0 to |roids|
      invariant hit <==> exists m :: 0 <= m < i && CloserThan(x, y, roids[m].x, roids[m].y, (r + roids[m].r) as real)
    {
      if CloserThan(x, y, roids[i].x, roids[i].y, (r + roids[i].r) as real) {
        hit := true;
      }
    }
  }

  // ---------------------------------------------------------------------
  // The state held in refs, updated in place.

  /** The ship object of `shipRef`, mutated by each phase of `update`. */
  class Ship {
    var x: real
    var y: real
    var a: real
    var rot: real
    var thrustX: real
    var thrustY: real
    const r: int
    var canShoot: bool
    var dead: bool
    var thrusting: bool
    var lasers: seq<Laser>

    function Value(): ShipState
      reads this
    {
      ShipState(x, y, a, rot, thrustX, thrustY, r, canShoot, dead, thrusting, lasers)
    }

    /** The ship of `resetGame`. */
    constructor ()
      ensures Value() == SHIP_START
    {
      x, y := WIDTH / 2.0, HEIGHT / 2.0;
      a := 90.0 / 180.0 * PI;
      r := SHIP_SIZE / 2;
      canShoot, dead, thrusting := true, false, false;
      lasers := [];
      rot := 0.0;
      thrustX, thrustY := 0.0, 0.0;
    }

    method ApplyThrust(up: bool, cos: real -> real, sin: real -> real)
      modifies this
      ensures Value() == ThrustPhase(old(Value()), up, cos, sin)
    {
      if up && !dead {
        thrusting := true;
        thrustX := thrustX + SHIP_THRUST * cos(a) / FPS;
        thrustY := thrustY - SHIP_THRUST * sin(a) / FPS;
      } else {
        thrusting := false;
        thrustX := thrustX - FRICTION * thrustX / FPS;
        thrustY := thrustY - FRICTION * thrustY / FPS;
      }
    }

    /** The laser pass of `update` over the ship's lasers. */
    method MoveLasers()
      modifies this
      ensures Value() == old(Value()).(lasers := LaserPass(old(lasers)))
    {
      lasers := PassLasers(lasers);
    }

    method Move()
      modifies this
      ensures Value() == MovePhase(old(Value()))
    {
      if !dead {
        x := x + thrustX;
        y := y + thrustY;
        if x < 0.0 - r as real {
          x := WIDTH + r as real;
        } else if x > WIDTH + r as real {
          x := 0.0 - r as real;
        }
        if y < 0.0 - r as real {
          y := HEIGHT + r as real;
        } else if y > HEIGHT + r as real {
          y := 0.0 - r as real;
        }
        a := a + rot;
      }
    }

    /** `shootLaser`: push a nose laser if allowed and room is left, then disable shooting. */
    method ShootLaser(cos: real -> real, sin: real -> real)
      modifies this
      ensures Value() == old(Value()).(
        lasers := if old(canShoot) && |old(lasers)| < LASER_MAX then old(lasers) + [NoseLaser(old(Value()), cos, sin)] else old(lasers),
        canShoot := false)
    {
      if canShoot && |lasers| < LASER_MAX {
        lasers := lasers + [NoseLaser(Value(), cos, sin)];
      }
      canShoot := false;
    }

    /** Rotation input, then shoot input. */
    method HandleControls(keys: Keys, cos: real -> real, sin: real -> real)
      modifies this
      ensures Value() == ControlPhase(old(Value()), keys, cos, sin)
    {
      if keys.left {
        rot := TURN_SPEED / 180.0 * PI / FPS;
      } else if keys.right {
        rot := -TURN_SPEED / 180.0 * PI / FPS;
      } else {
        rot := 0.0;
      }
      if keys.space {
        ShootLaser(cos, sin);
      } else {
        canShoot := true;
      }
    }
  }

  /** The component's game state: React state, refs and the held keys. */
  class Game {
    var state: GameState
    var score: int
    var highScore: int
    var level: nat
    var cursor: nat
    var ship: Ship?
    var asteroids: seq<Asteroid>
    var keys: Keys

    function Snapshot(): World
      reads this, ship
    {
      World(state, score, highScore, level, cursor, if ship == null then None else Some(ship.Value()), asteroids, keys)
    }

    ghost predicate Valid()
      reads this, ship
    {
      WorldValid(Snapshot())
    }

    constructor ()
      ensures Valid() && Snapshot() == WORLD_START
    {
      state := Start;
      score, highScore, level, cursor := 0, 0, 0, 0;
      ship := null;
      asteroids := [];
      keys := NO_KEYS;
    }

    /** One animation frame's `update`, with the spots the belt would take if this tick clears the level. */
    method Update(cos: real -> real, sin: real -> real, rand: Draws, spots: seq<Spot>)
      requires Valid() && UnitDraws(rand)
      requires |spots| == BeltSize(level + 1) && forall i :: 0 <= i < |spots| ==> ValidSpot(spots[i])
      modifies this, ship
      ensures ship == old(ship)
      ensures Valid()
      ensures Snapshot() == Tick(old(Snapshot()), cos, sin, rand, spots)
    {
      TickValid(Snapshot(), cos, sin, rand, spots);
      if state != Playing {
        return;
      }
      ship.ApplyThrust(keys.up, cos, sin);
      HitsAndScore(rand);
      var roids := asteroids;
      CheckLevel(rand, spots);
      MoveAndCollide(roids);
      ship.HandleControls(keys, cos, sin);
    }

    /** Asteroid pass, laser pass, hit resolution and scoring. */
    method HitsAndScore(rand: Draws)
      requires ship != null
      modifies this, ship
      ensures ship == old(ship)
      ensures Snapshot() == HitPhase(old(Snapshot()), rand)
    {
      var moved := MoveField(asteroids);
      ship.MoveLasers();
      var field, ls, hits, next := ResolveHits(moved, ship.lasers, level, rand, cursor);
      ship.lasers := ls;
      asteroids, cursor := field, next;
      score := score + 100 * hits;
    }

    /** Level completion: an empty field starts the next level with a new belt. */
    method CheckLevel(rand: Draws, spots: seq<Spot>)
      requires |spots| == BeltSize(level + 1)
      modifies this
      ensures ship == old(ship)
      ensures Snapshot() == LevelPhase(old(Snapshot()), rand, spots)
    {
      if |asteroids| == 0 {
        level := level + 1;
        asteroids, cursor := CreateAsteroidBelt(spots, level, rand, cursor);
      }
    }

    /** Ship move, then the collision test against `roids`, the array the tick started its hit test on. */
    method MoveAndCollide(roids: seq<Asteroid>)
      requires ship != null
      modifies this, ship
      ensures ship == old(ship)
      ensures Snapshot() == CrashPhase(old(Snapshot()), roids)
    {
      ship.Move();
      if !ship.dead {
        var crash := Collision(ship.x, ship.y, ship.r, roids);
        if crash {
          state := GameOver;
          highScore := Max(highScore, score);
          ship.dead := true;
        }
      }
    }

    /** `startGame`: reset the level, the score and the ship, lay a new belt and start playing. */
    method StartGame(rand: Draws, spots: seq<Spot>)
      requires Valid() && UnitDraws(rand)
      requires |spots| == BeltSize(0) && forall i :: 0 <= i < |spots| ==> ValidSpot(spots[i])
      modifies this
      ensures Valid()
      ensures Snapshot() == Started(old(Snapshot()), rand, spots)
    {
      StartedValid(Snapshot(), rand, spots);
      level := 0;
      score := 0;
      ship := new Ship();
      asteroids, cursor := CreateAsteroidBelt(spots, level, rand, cursor);
      state := Playing;
    }

    method KeyPressed(code: string, inFormField: bool)
      modifies this
      ensures Snapshot() == old(Snapshot()).(keys := KeyDown(old(keys), code, inFormField))
    {
      keys := KeyDown(keys, code, inFormField);
    }

    method KeyReleased(code: string)
      modifies this
      ensures Snapshot() == old(Snapshot()).(keys := KeyUp(old(keys), code))
    {
      keys := KeyUp(keys, code);
    }
  }
}
