/**
 * `HomingLaser` (HomingLaser.cs): the boss's shot. `Init` aims it at its target; each
 * frame it turns part of the way toward the target, moves along its direction at
 * `speed`, and ages toward its lifetime. Enabled lasers are listed in `AllLasers`.
 *
 * The target is the player's transform, modelled by the player controller's `pos`.
 */
module HomingLasers {
  import opened Geometry
  import opened Registries
  import opened Player

  /** A target vector with squared length not above this gives no usable direction. */
  const TargetThreshold: real := 0.001

  /** The direction `Init` chooses toward a target at offset `toTarget`. */
  function InitialDirection(toTarget: Vec2, sqrt: real -> real): Vec2 {
    if SqrMagnitude(toTarget) > TargetThreshold then Normalized(toTarget, sqrt) else Right
  }

  /**
   * One frame of steering: when the target is not on top of the laser, the direction is
   * interpolated toward the target's direction by `turnSpeed * dt` and re-normalised.
   */
  function Steer(direction: Vec2, toTarget: Vec2, turnSpeed: real, dt: real, sqrt: real -> real): Vec2 {
    if SqrMagnitude(toTarget) > TargetThreshold then
      Normalized(Lerp(direction, Normalized(toTarget, sqrt), turnSpeed * dt), sqrt)
    else direction
  }

  /**
   * `Init` always picks a direction of length one; away from the target it points
   * straight at it (a positive multiple of the offset).
   */
  lemma InitialDirectionIsUnit(toTarget: Vec2, sqrt: real -> real)
    requires IsSqrt(sqrt)
    ensures SqrMagnitude(InitialDirection(toTarget, sqrt)) == 1.0
    ensures SqrMagnitude(toTarget) > TargetThreshold ==>
      exists k: real :: 0.0 < k && InitialDirection(toTarget, sqrt) == Scale(toTarget, k)
    ensures SqrMagnitude(toTarget) <= TargetThreshold ==> InitialDirection(toTarget, sqrt) == Right
  {
    if SqrMagnitude(toTarget) > TargetThreshold {
      AboveThresholdNormalizes(toTarget, TargetThreshold, sqrt);
      var m := Magnitude(toTarget, sqrt);
      assert InitialDirection(toTarget, sqrt) == Scale(toTarget, 1.0 / m);
    }
  }

  /**
   * Steering leaves the direction alone when the target is too close to aim at; otherwise
   * the new direction has length one or, when the interpolated vector is too short to
   * normalise, is zero.
   */
  lemma SteerIsUnitOrZero(direction: Vec2, toTarget: Vec2, turnSpeed: real, dt: real, sqrt: real -> real)
    requires IsSqrt(sqrt)
    ensures SqrMagnitude(toTarget) <= TargetThreshold ==> Steer(direction, toTarget, turnSpeed, dt, sqrt) == direction
    ensures SqrMagnitude(toTarget) > TargetThreshold ==>
      var r := Steer(direction, toTarget, turnSpeed, dt, sqrt);
      SqrMagnitude(r) == 1.0 || r == Zero
  {
    var l := Lerp(direction, Normalized(toTarget, sqrt), turnSpeed * dt);
    NormalizedIsUnitOrZero(l, sqrt);
    SteerUnfold(direction, toTarget, turnSpeed, dt, sqrt);
  }

  lemma SteerUnfold(direction: Vec2, toTarget: Vec2, turnSpeed: real, dt: real, sqrt: real -> real)
    ensures SqrMagnitude(toTarget) > TargetThreshold ==>
      Steer(direction, toTarget, turnSpeed, dt, sqrt) ==
        Normalized(Lerp(direction, Normalized(toTarget, sqrt), turnSpeed * dt), sqrt)
  {
  }

  /** A full turn in one frame (`turnSpeed * dt >= 1`) lands exactly on the direction `Init` would pick. */
  lemma SteerFullTurn(direction: Vec2, toTarget: Vec2, turnSpeed: real, dt: real, sqrt: real -> real)
    requires IsSqrt(sqrt)
    requires SqrMagnitude(toTarget) > TargetThreshold && turnSpeed * dt >= 1.0
    ensures Steer(direction, toTarget, turnSpeed, dt, sqrt) == InitialDirection(toTarget, sqrt)
  {
    var desired := Normalized(toTarget, sqrt);
    AboveThresholdNormalizes(toTarget, TargetThreshold, sqrt);
    LerpFull(direction, desired, turnSpeed * dt);
    NormalizedUnitIsIdentity(desired, sqrt);
    SteerUnfold(direction, toTarget, turnSpeed, dt, sqrt);
  }

  /**
   * The zero case happens: a laser heading right, whose target lies straight behind it,
   * turning half way in one frame (`turnSpeed = 4`, `dt = 0.125`), ends the frame with a
   * zero direction and so does not move in that frame.
   */
  lemma SteerCanStall(sqrt: real -> real)
    requires IsSqrt(sqrt)
    ensures Steer(Right, Vec2(-1.0, 0.0), 4.0, 0.125, sqrt) == Zero
  {
    var behind := Vec2(-1.0, 0.0);
    assert SqrMagnitude(behind) == 1.0;
    NormalizedUnitIsIdentity(behind, sqrt);
    NormalizedZero(sqrt);
    StallStep(sqrt);
  }

  lemma StallStep(sqrt: real -> real)
    requires Normalized(Vec2(-1.0, 0.0), sqrt) == Vec2(-1.0, 0.0)
    requires Normalized(Zero, sqrt) == Zero
    ensures Steer(Right, Vec2(-1.0, 0.0), 4.0, 0.125, sqrt) == Zero
  {
    assert Lerp(Right, Vec2(-1.0, 0.0), 4.0 * 0.125) == Zero;
  }

  class HomingLaser {
    const speed: real
    const turnSpeed: real
    const radius: real
    const lifetime: real
    var target: PlayerPlaneController?
    /** Meant to have length one; see `SteerIsUnitOrZero`. */
    var direction: Vec2
    var timer: real
    var initialized: bool
    var pos: Vec2
    /** `Destroy(gameObject)` was called; it takes effect at the end of the frame. */
    var destroyRequested: bool

    /** A freshly instantiated laser: no target, zero direction, not yet initialised. */
    constructor (pos: Vec2, speed: real, turnSpeed: real, radius: real, lifetime: real)
      ensures this.pos == pos && this.speed == speed && this.turnSpeed == turnSpeed
      ensures this.radius == radius && this.lifetime == lifetime
      ensures target == null && direction == Zero && timer == 0.0
      ensures !initialized && !destroyRequested
    {
      this.pos := pos;
      this.speed := speed;
      this.turnSpeed := turnSpeed;
      this.radius := radius;
      this.lifetime := lifetime;
      target := null;
      direction := Zero;
      timer := 0.0;
      initialized := false;
      destroyRequested := false;
    }

    /** Join `AllLasers` unless already listed. */
    method OnEnable(all: LiveList<HomingLaser>)
      modifies all
      ensures all.items == Insert(old(all.items), this)
      ensures NoDuplicates(old(all.items)) ==> NoDuplicates(all.items)
    {
      ghost var before := all.items;
      var present := all.Contains(this);
      if !present {
        all.Add(this);
      }
      if NoDuplicates(before) {
        InsertKeepsNoDuplicates(before, this);
      }
    }

    /** Leave `AllLasers` (`List.Remove`). */
    method OnDisable(all: LiveList<HomingLaser>)
      modifies all
      ensures all.items == RemoveFirst(old(all.items), this)
      ensures NoDuplicates(old(all.items)) ==> NoDuplicates(all.items) && this !in all.items
    {
      ghost var before := all.items;
      var _ := all.Remove(this);
      if NoDuplicates(before) {
        RemoveFirstKeepsNoDuplicates(before, this);
        RemoveFirstRemovesAll(before, this);
      }
    }

    /** Take a target and aim at it; with no target, or one too close to aim at, head right. */
    method Init(newTarget: PlayerPlaneController?, sqrt: real -> real)
      modifies this`target, this`initialized, this`direction
      ensures target == newTarget && initialized
      ensures direction == if newTarget == null then Right else InitialDirection(Sub(newTarget.pos, pos), sqrt)
    {
      target := newTarget;
      initialized := true;
      if target != null {
        var toTarget := Sub(target.pos, pos);
        if SqrMagnitude(toTarget) > TargetThreshold {
          direction := Normalized(toTarget, sqrt);
        } else {
          direction := Right;
        }
      } else {
        direction := Right;
      }
    }

    /**
     * One frame. With a target (after `Init`), steer toward it; in every case move by
     * `direction * speed * dt` along the new direction, then age by `dt` and request
     * destruction once the lifetime is reached.
     */
    method Update(dt: real, sqrt: real -> real)
      modifies this`direction, this`pos, this`timer, this`destroyRequested
      ensures direction == if initialized && target != null
        then Steer(old(direction), Sub(target.pos, old(pos)), turnSpeed, dt, sqrt)
        else old(direction)
      ensures pos == Add(old(pos), Scale(Scale(direction, speed), dt))
      ensures timer == old(timer) + dt
      ensures destroyRequested == (old(destroyRequested) || timer >= lifetime)
    {
      if !initialized || target == null {
        pos := Add(pos, Scale(Scale(direction, speed), dt));
        timer := timer + dt;
        if timer >= lifetime {
          destroyRequested := true;
        }
        return;
      }

      var toTarget := Sub(target.pos, pos);
      if SqrMagnitude(toTarget) > TargetThreshold {
        var desiredDir := Normalized(toTarget, sqrt);
        direction := Normalized(Lerp(direction, desiredDir, turnSpeed * dt), sqrt);
      }

      pos := Add(pos, Scale(Scale(direction, speed), dt));

      timer := timer + dt;
      if timer >= lifetime {
        destroyRequested := true;
      }
    }
  }
}
