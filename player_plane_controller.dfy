/**
 * `PlayerPlaneController` (PlayerPlaneController.cs): the player's craft, moved by hand
 * (no rigid body). Each frame counts down the dash cooldown, accelerates from the input
 * direction (with a forward push unless steering left), applies friction when there is
 * no input, dashes when ready, clamps the speed, integrates the position, counts down
 * the fire cooldown and fires when ready.
 *
 * Input arrives as a `Command` per frame; a fired projectile is reported as a `Shot`
 * (the engine instantiates the prefab at that position and gives it that velocity).
 */
module Player {
  import opened Options
  import opened Geometry
  import opened Clock

  /** The serialized movement, dash and shooting settings. */
  datatype Settings = Settings(
    acceleration: real,
    maxSpeed: real,
    friction: real,
    constantForwardSpeed: real,
    dashBoost: real,
    dashCooldown: real,
    projectileSpeed: real,
    fireCooldown: real,
    hasProjectilePrefab: bool)

  /** One frame of input: the raw axes and the keys that went down this frame. */
  datatype Command = Command(
    horizontal: real,
    vertical: real,
    dashPressed: bool,
    mousePressed: bool,
    ctrlPressed: bool,
    fPressed: bool)

  /** A projectile to create: where, and with which velocity. */
  datatype Shot = Shot(pos: Vec2, velocity: Vec2)

  /** Input whose normalised direction has a squared length below this counts as no input. */
  const InputThreshold: real := 0.01

  /** Left mouse button, left Ctrl or F. */
  predicate FirePressed(cmd: Command) {
    cmd.mousePressed || cmd.ctrlPressed || cmd.fPressed
  }

  /** A cooldown counts down by `dt` only while it is positive. */
  function TickCooldown(t: real, dt: real): real {
    if t > 0.0 then t - dt else t
  }

  /** `new Vector2(horizontal, vertical).normalized`. */
  function InputDirection(cmd: Command, sqrt: real -> real): Vec2 {
    Normalized(Vec2(cmd.horizontal, cmd.vertical), sqrt)
  }

  /** Steering acceleration, plus the forward push unless the horizontal input points left. */
  function Acceleration(s: Settings, inputDir: Vec2, horizontal: real): Vec2 {
    var a := Scale(inputDir, s.acceleration);
    if horizontal >= 0.0 then Add(a, Scale(Right, s.constantForwardSpeed)) else a
  }

  /** Velocity after integrating the acceleration over `dt`. */
  function Accelerated(s: Settings, v: Vec2, inputDir: Vec2, horizontal: real, dt: real): Vec2 {
    Add(v, Scale(Acceleration(s, inputDir, horizontal), dt))
  }

  /**
   * Friction: with (almost) no input, the velocity moves toward zero by `delta`
   * (`friction * dt`); otherwise it is left alone.
   */
  function Friction(v: Vec2, inputDir: Vec2, delta: real, sqrt: real -> real): Vec2
    requires IsSqrt(sqrt)
  {
    if SqrMagnitude(inputDir) < InputThreshold then MoveTowards(v, Zero, delta, sqrt) else v
  }

  /** Velocity after integrating the acceleration and, with no input, the friction. */
  function Drive(s: Settings, v: Vec2, inputDir: Vec2, horizontal: real, dt: real, sqrt: real -> real): Vec2
    requires IsSqrt(sqrt)
  {
    Friction(Accelerated(s, v, inputDir, horizontal, dt), inputDir, s.friction * dt, sqrt)
  }

  /** The dash goes along the input when there is some, and forward otherwise. */
  function DashDirection(inputDir: Vec2, sqrt: real -> real): Vec2 {
    if SqrMagnitude(inputDir) > InputThreshold then Normalized(inputDir, sqrt) else Right
  }

  /** Speed clamp: a velocity longer than `maxSpeed` is rescaled to that length. */
  function ClampSpeed(v: Vec2, maxSpeed: real, sqrt: real -> real): Vec2 {
    if Magnitude(v, sqrt) > maxSpeed then Scale(Normalized(v, sqrt), maxSpeed) else v
  }

  // ---------------------------------------------------------------------------
  // Properties of one frame

  /** A cooldown moves only while positive, and then by exactly `dt`. */
  lemma CooldownCountsDown(t: real, dt: real)
    ensures t <= 0.0 ==> TickCooldown(t, dt) == t
    ensures t > 0.0 ==> TickCooldown(t, dt) == t - dt
    ensures 0.0 <= dt ==> TickCooldown(t, dt) <= t
  {
  }

  /** A cooldown timer after a run of frames, each of which counts it down once. */
  function CooldownAfter(t: real, dts: seq<real>): real {
    if |dts| == 0 then t else TickCooldown(CooldownAfter(t, dts[..|dts| - 1]), dts[|dts| - 1])
  }

  /**
   * A cooldown started at `t` (a dash or a shot sets it to `dashCooldown` or `fireCooldown`)
   * stays positive, and so blocks the action, in every frame before `t` seconds have
   * elapsed: through the frame in which the elapsed time first reaches `t`, it equals
   * `t` minus the elapsed time, so it is ready (`<= 0`) exactly when at least `t`
   * seconds have passed.
   */
  lemma {:induction false} CooldownMeasuresElapsedTime(t: real, dts: seq<real>)
    requires NonNegative(dts) && 0 < |dts|
    requires Elapsed(dts[..|dts| - 1]) < t
    ensures CooldownAfter(t, dts) == t - Elapsed(dts)
    ensures CooldownAfter(t, dts) <= 0.0 <==> t <= Elapsed(dts)
  {
    var p := dts[..|dts| - 1];
    assert CooldownAfter(t, dts) == TickCooldown(CooldownAfter(t, p), dts[|dts| - 1]);
    if |p| == 0 {
      assert CooldownAfter(t, p) == t;
    } else {
      assert p[..|p| - 1] == dts[..|dts| - 2];
      ElapsedNonNegative(p[..|p| - 1]);
      ElapsedNonNegative(p);
      assert NonNegative(p);
      assert Elapsed(p[..|p| - 1]) <= Elapsed(p);
      CooldownMeasuresElapsedTime(t, p);
    }
  }

  /**
   * With `maxSpeed >= 0`, the clamped velocity is never longer than `maxSpeed`, and a
   * velocity that is not too fast is left alone.
   */
  lemma ClampSpeedBound(v: Vec2, maxSpeed: real, sqrt: real -> real)
    requires IsSqrt(sqrt) && 0.0 <= maxSpeed
    ensures SqrMagnitude(ClampSpeed(v, maxSpeed, sqrt)) <= maxSpeed * maxSpeed
    ensures Magnitude(v, sqrt) <= maxSpeed ==> ClampSpeed(v, maxSpeed, sqrt) == v
  {
    var m := Magnitude(v, sqrt);
    if m > maxSpeed {
      NormalizedIsUnitOrZero(v, sqrt);
      RescaledBound(Normalized(v, sqrt), maxSpeed);
    } else {
      SqrMagnitudeNonNegative(v);
      SqrtIsRoot(sqrt, SqrMagnitude(v));
      SquareMonotone(m, maxSpeed);
    }
  }

  /** A unit or zero direction scaled by `maxSpeed >= 0` is at most `maxSpeed` long. */
  lemma RescaledBound(n: Vec2, maxSpeed: real)
    requires SqrMagnitude(n) == 1.0 || n == Zero
    requires 0.0 <= maxSpeed
    ensures SqrMagnitude(Scale(n, maxSpeed)) <= maxSpeed * maxSpeed
  {
    ScaleSqrMagnitude(n, maxSpeed);
    if n == Zero {
      assert SqrMagnitude(n) == 0.0;
    }
  }

  /**
   * With no input and a non-negative braking step `delta`, friction scales the velocity
   * by a factor in [0, 1] (toward zero, never past it) and changes it by at most `delta`.
   * With input, friction does not apply.
   */
  lemma FrictionBrakesTowardZero(v: Vec2, inputDir: Vec2, delta: real, sqrt: real -> real)
    requires IsSqrt(sqrt)
    ensures SqrMagnitude(inputDir) >= InputThreshold ==> Friction(v, inputDir, delta, sqrt) == v
    ensures SqrMagnitude(inputDir) < InputThreshold && 0.0 <= delta ==>
      var r := Friction(v, inputDir, delta, sqrt);
      && (exists k: real :: 0.0 <= k <= 1.0 && r == Scale(v, k))
      && SqrDistance(v, r) <= delta * delta
  {
    if SqrMagnitude(inputDir) < InputThreshold && 0.0 <= delta {
      MoveTowardsZero(v, delta, sqrt);
    }
  }

  /**
   * The dash direction has length one: it is the input direction itself when there is
   * input, and `(1, 0)` when there is none.
   */
  lemma DashDirectionIsUnit(cmd: Command, sqrt: real -> real)
    requires IsSqrt(sqrt)
    ensures var d := InputDirection(cmd, sqrt);
      && SqrMagnitude(DashDirection(d, sqrt)) == 1.0
      && (SqrMagnitude(d) > InputThreshold ==> DashDirection(d, sqrt) == d)
      && (SqrMagnitude(d) <= InputThreshold ==> DashDirection(d, sqrt) == Right)
  {
    var raw := Vec2(cmd.horizontal, cmd.vertical);
    var d := InputDirection(cmd, sqrt);
    NormalizedIsUnitOrZero(raw, sqrt);
    if SqrMagnitude(d) > InputThreshold {
      assert d != Zero;
      NormalizedUnitIsIdentity(d, sqrt);
    }
  }

  // ---------------------------------------------------------------------------
  // The controller

  class PlayerPlaneController {
    const settings: Settings
    var velocity: Vec2
    var dashCooldownTimer: real
    var fireCooldownTimer: real
    var pos: Vec2

    constructor (settings: Settings, pos: Vec2)
      ensures this.settings == settings && this.pos == pos
      ensures velocity == Zero && dashCooldownTimer == 0.0 && fireCooldownTimer == 0.0
    {
      this.settings := settings;
      this.pos := pos;
      velocity := Zero;
      dashCooldownTimer := 0.0;
      fireCooldownTimer := 0.0;
    }

    /** One frame of movement and shooting. */
    method Update(dt: real, cmd: Command, sqrt: real -> real) returns (shot: Option<Shot>)
      requires IsSqrt(sqrt)
      modifies this
      ensures var inputDir := InputDirection(cmd, sqrt);
        var driven := Drive(settings, old(velocity), inputDir, cmd.horizontal, dt, sqrt);
        var dashReady := TickCooldown(old(dashCooldownTimer), dt) <= 0.0;
        var dashes := dashReady && cmd.dashPressed;
        var dashed := if dashes then Add(driven, Scale(DashDirection(inputDir, sqrt), settings.dashBoost)) else driven;
        && dashCooldownTimer == (if dashes then settings.dashCooldown else TickCooldown(old(dashCooldownTimer), dt))
        && velocity == ClampSpeed(dashed, settings.maxSpeed, sqrt)
      ensures pos == Add(old(pos), Scale(velocity, dt))
      ensures var fires := TickCooldown(old(fireCooldownTimer), dt) <= 0.0 && FirePressed(cmd);
        && fireCooldownTimer == (if fires && settings.hasProjectilePrefab then settings.fireCooldown
                                 else TickCooldown(old(fireCooldownTimer), dt))
        && shot == (if fires && settings.hasProjectilePrefab
                    then Some(Shot(pos, Vec2(settings.projectileSpeed, 0.0))) else None)
    {
      ghost var v0, d0, f0, p0 := velocity, dashCooldownTimer, fireCooldownTimer, pos;
      if dashCooldownTimer > 0.0 {
        dashCooldownTimer := dashCooldownTimer - dt;
      }

      var inputDir := Normalized(Vec2(cmd.horizontal, cmd.vertical), sqrt);
      var accel := Acceleration(settings, inputDir, cmd.horizontal);
      velocity := Add(velocity, Scale(accel, dt));
      assert velocity == Accelerated(settings, v0, inputDir, cmd.horizontal, dt);
      if SqrMagnitude(inputDir) < InputThreshold {
        velocity := MoveTowards(velocity, Zero, settings.friction * dt, sqrt);
      }
      assert velocity == Drive(settings, v0, inputDir, cmd.horizontal, dt, sqrt);
      assert dashCooldownTimer == TickCooldown(d0, dt);

      HandleDash(inputDir, cmd.dashPressed, sqrt);
      ghost var dashed := velocity;

      if Magnitude(velocity, sqrt) > settings.maxSpeed {
        velocity := Scale(Normalized(velocity, sqrt), settings.maxSpeed);
      }
      assert velocity == ClampSpeed(dashed, settings.maxSpeed, sqrt);

      pos := Add(pos, Scale(velocity, dt));

      if fireCooldownTimer > 0.0 {
        fireCooldownTimer := fireCooldownTimer - dt;
      }
      assert fireCooldownTimer == TickCooldown(f0, dt);

      shot := HandleShooting(cmd);
    }

    /** Dash when the cooldown is over and the dash key went down: add the impulse, restart the cooldown. */
    method HandleDash(inputDir: Vec2, dashPressed: bool, sqrt: real -> real)
      modifies this`velocity, this`dashCooldownTimer
      ensures var dashes := old(dashCooldownTimer) <= 0.0 && dashPressed;
        && velocity == (if dashes then Add(old(velocity), Scale(DashDirection(inputDir, sqrt), settings.dashBoost))
                        else old(velocity))
        && dashCooldownTimer == (if dashes then settings.dashCooldown else old(dashCooldownTimer))
    {
      if dashCooldownTimer > 0.0 {
        return;
      }
      if dashPressed {
        var dashDir: Vec2;
        if SqrMagnitude(inputDir) > InputThreshold {
          dashDir := Normalized(inputDir, sqrt);
        } else {
          dashDir := Right;
        }
        velocity := Add(velocity, Scale(dashDir, settings.dashBoost));
        dashCooldownTimer := settings.dashCooldown;
      }
    }

    /**
     * Fire when the cooldown is over and a fire input went down: a projectile at the
     * craft's position moving right at `projectileSpeed`, and the cooldown restarts.
     * Without a prefab, `Instantiate` throws and the rest of the method does not run.
     */
    method HandleShooting(cmd: Command) returns (shot: Option<Shot>)
      modifies this`fireCooldownTimer
      ensures var fires := old(fireCooldownTimer) <= 0.0 && FirePressed(cmd) && settings.hasProjectilePrefab;
        && shot == (if fires then Some(Shot(pos, Vec2(settings.projectileSpeed, 0.0))) else None)
        && fireCooldownTimer == (if fires then settings.fireCooldown else old(fireCooldownTimer))
    {
      shot := None;
      if fireCooldownTimer > 0.0 {
        return;
      }
      if FirePressed(cmd) {
        if !settings.hasProjectilePrefab {
          return;
        }
        shot := Some(Shot(pos, Scale(Right, settings.projectileSpeed)));
        fireCooldownTimer := settings.fireCooldown;
      }
    }
  }
}
