/**
 * Keyboard input of the arcade game: the four held-key flags the key
 * listeners maintain, the rotation they select and the one-shot rule of the
 * fire button.
 */
module ArcadeControls {
  import opened Options
  import opened ArcadeEntities

  /** The held state of the four game controls. */
  datatype Keys = Keys(left: bool, right: bool, up: bool, space: bool)

  const NO_KEYS := Keys(false, false, false, false)

  datatype Control = TurnLeft | TurnRight | Thrust | Fire

  /** The control a physical key code drives, if any. */
  function ControlOf(code: string): (c: Option<Control>)
    ensures c == Some(TurnLeft) <==> code == "ArrowLeft"
    ensures c == Some(TurnRight) <==> code == "ArrowRight"
    ensures c == Some(Thrust) <==> code == "ArrowUp"
    ensures c == Some(Fire) <==> code == "Space"
  {
    if code == "ArrowLeft" then Some(TurnLeft)
    else if code == "ArrowRight" then Some(TurnRight)
    else if code == "ArrowUp" then Some(Thrust)
    else if code == "Space" then Some(Fire)
    else None
  }

  function Held(keys: Keys, c: Control): bool
  {
    match c
    case TurnLeft => keys.left
    case TurnRight => keys.right
    case Thrust => keys.up
    case Fire => keys.space
  }

  /** The flags with one control set to `down` and the others kept. */
  function SetHeld(keys: Keys, c: Control, down: bool): (k: Keys)
    ensures Held(k, c) == down
    ensures forall d :: d != c ==> Held(k, d) == Held(keys, d)
  {
    match c
    case TurnLeft => keys.(left := down)
    case TurnRight => keys.(right := down)
    case Thrust => keys.(up := down)
    case Fire => keys.(space := down)
  }

  /**
   * The keydown listener: a key pressed while an input, textarea or select
   * has focus changes nothing; otherwise the control of its code, if any,
   * becomes held.
   */
  function KeyDown(keys: Keys, code: string, inFormField: bool): (k: Keys)
    ensures inFormField || ControlOf(code).None? ==> k == keys
    ensures !inFormField && ControlOf(code).Some? ==> Held(k, ControlOf(code).value)
    ensures forall c :: ControlOf(code) != Some(c) ==> Held(k, c) == Held(keys, c)
  {
    if inFormField then keys
    else match ControlOf(code)
      case None => keys
      case Some(c) => SetHeld(keys, c, true)
  }

  /** The keyup listener: it releases the control of its code wherever the focus is. */
  function KeyUp(keys: Keys, code: string): (k: Keys)
    ensures ControlOf(code).None? ==> k == keys
    ensures ControlOf(code).Some? ==> !Held(k, ControlOf(code).value)
    ensures forall c :: ControlOf(code) != Some(c) ==> Held(k, c) == Held(keys, c)
  {
    match ControlOf(code)
    case None => keys
    case Some(c) => SetHeld(keys, c, false)
  }

  /** Pressing and then releasing a key restores the flags it found (a stuck key cannot come from a press and its release). */
  lemma PressRelease(keys: Keys, code: string, inFormField: bool)
    requires ControlOf(code).Some? ==> !Held(keys, ControlOf(code).value)
    ensures KeyUp(KeyDown(keys, code, inFormField), code) == keys
  {
  }

  /**
   * Whether the keydown listener calls `preventDefault`: never while a form
   * field has focus (the listener returns first), otherwise for the arrow
   * keys and space, by key or by code.
   */
  predicate SuppressesDefault(key: string, code: string, inFormField: bool)
  {
    && !inFormField
    && (key in ["ArrowUp", "ArrowDown", "ArrowLeft", "ArrowRight", "Space", " "]
        || code in ["ArrowUp", "ArrowDown", "ArrowLeft", "ArrowRight", "Space"])
  }

  /** For a key that drives a control, the default action is suppressed exactly when no form field has focus. */
  lemma ControlsSuppressDefault(key: string, code: string, inFormField: bool)
    requires ControlOf(code).Some?
    ensures SuppressesDefault(key, code, inFormField) <==> !inFormField
  {
    assert code in ["ArrowUp", "ArrowDown", "ArrowLeft", "ArrowRight", "Space"];
  }

  /** The turn per tick at TURN_SPEED degrees a second, in radians. */
  const TURN_STEP: real := TURN_SPEED / 180.0 * PI / FPS

  /** The rotation the held keys select; left wins when both are held. */
  function Rotation(keys: Keys): (rot: real)
    ensures rot == TURN_STEP || rot == -TURN_STEP || rot == 0.0
    ensures rot > 0.0 <==> keys.left
    ensures rot < 0.0 <==> !keys.left && keys.right
  {
    if keys.left then TURN_STEP
    else if keys.right then -TURN_STEP
    else 0.0
  }

  /** What the fire logic of one tick does: whether a laser is pushed and the new `canShoot`. */
  datatype FireResult = FireResult(fired: bool, canShoot: bool)

  /**
   * Space held: a laser is pushed when `canShoot` holds and fewer than
   * LASER_MAX are in flight, and shooting is then disabled; space not held:
   * shooting is enabled again.
   */
  function FireStep(canShoot: bool, space: bool, inFlight: nat): (f: FireResult)
    ensures f.fired <==> canShoot && space && inFlight < LASER_MAX
    ensures f.canShoot <==> !space
  {
    if space then FireResult(canShoot && inFlight < LASER_MAX, false)
    else FireResult(false, true)
  }

  /** Lasers pushed over a run of ticks, given the space flag and the lasers in flight at each. */
  function Shots(canShoot: bool, spaces: seq<bool>, inFlight: seq<nat>): nat
    requires |spaces| == |inFlight|
    decreases |spaces|
  {
    if spaces == [] then 0
    else
      var f := FireStep(canShoot, spaces[0], inFlight[0]);
      (if f.fired then 1 else 0) + Shots(f.canShoot, spaces[1..], inFlight[1..])
  }

  /** Ticks on which space is not held. */
  function Releases(spaces: seq<bool>): nat
    decreases |spaces|
  {
    if spaces == [] then 0 else (if spaces[0] then 0 else 1) + Releases(spaces[1..])
  }

  /**
   * The fire button is one-shot: there is at most one laser per release of
   * space (plus one if shooting was enabled at the start), whatever the
   * number of ticks space is held.
   */
  lemma {:induction false} ShotsPerRelease(canShoot: bool, spaces: seq<bool>, inFlight: seq<nat>)
    requires |spaces| == |inFlight|
    ensures Shots(canShoot, spaces, inFlight) <= (if canShoot then 1 else 0) + Releases(spaces)
    decreases |spaces|
  {
    if spaces != [] {
      var f := FireStep(canShoot, spaces[0], inFlight[0]);
      ShotsPerRelease(f.canShoot, spaces[1..], inFlight[1..]);
    }
  }

  /** Holding space down for any number of ticks fires at most one laser. */
  lemma HoldingFiresOnce(canShoot: bool, spaces: seq<bool>, inFlight: seq<nat>)
    requires |spaces| == |inFlight|
    requires forall i :: 0 <= i < |spaces| ==> spaces[i]
    ensures Shots(canShoot, spaces, inFlight) <= 1
  {
    ShotsPerRelease(canShoot, spaces, inFlight);
    AllHeldNoReleases(spaces);
  }

  lemma {:induction false} AllHeldNoReleases(spaces: seq<bool>)
    requires forall i :: 0 <= i < |spaces| ==> spaces[i]
    ensures Releases(spaces) == 0
    decreases |spaces|
  {
    if spaces != [] {
      assert spaces[0];
      AllHeldNoReleases(spaces[1..]);
    }
  }
}
