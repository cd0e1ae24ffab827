/**
 * `Boss` (Godzilla.cs): the end-of-level boss. Once the player has come within reach
 * (`player.x >= activationX`), a fire timer accumulates frame time, and each time it
 * reaches `fireInterval` the boss fires one homing laser from a point jittered by at most
 * 0.3 on each axis, and the timer restarts from zero. Enabled bosses are listed in
 * `AllBosses`.
 *
 * A fired laser is reported as a `LaserShot`: the engine instantiates the laser prefab at
 * that position (which runs `HomingLaser.OnEnable`) and the boss then calls
 * `HomingLaser.Init` with the target, when there is one.
 */
module Godzilla {
  import opened Options
  import opened Geometry
  import opened Clock
  import opened Registries
  import opened Player

  /** `Random.Range(-0.3f, 0.3f)`, inclusive at both ends. */
  const JitterBound: real := 0.3

  /** `Start` puts the activation line this far behind the boss. */
  const ActivationLead: real := 3.0

  predicate InJitter(j: real) {
    -JitterBound <= j <= JitterBound
  }

  /** A laser to instantiate at `pos`, to be aimed at `target` (when not null). */
  datatype LaserShot = LaserShot(pos: Vec2, target: PlayerPlaneController?)

  /** The armed timer, advanced by `dt`, has reached the interval: fire this frame. */
  predicate FireDue(timer: real, dt: real, interval: real) {
    timer + dt >= interval
  }

  /** The fire timer after one armed frame: reset on firing, advanced otherwise. */
  function NextFireTimer(timer: real, dt: real, interval: real): real {
    if FireDue(timer, dt, interval) then 0.0 else timer + dt
  }

  /** The fire timer and the number of fire attempts, over a run of armed frames. */
  datatype FireClock = FireClock(timer: real, attempts: nat)

  function FireRun(c: FireClock, dts: seq<real>, interval: real): FireClock {
    if |dts| == 0 then c
    else
      var before := FireRun(c, dts[..|dts| - 1], interval);
      var dt := dts[|dts| - 1];
      FireClock(NextFireTimer(before.timer, dt, interval),
                before.attempts + if FireDue(before.timer, dt, interval) then 1 else 0)
  }

  /**
   * Over a run of armed frames with non-negative `dt`: at most one fire attempt per
   * frame; every attempt uses up a full `fireInterval` of the elapsed time (the timer
   * restarts from zero, so the overshoot is lost); the timer stays non-negative and,
   * when it started below a positive interval, below the interval.
   */
  lemma {:induction false} FireRunBudget(c: FireClock, dts: seq<real>, interval: real)
    requires NonNegative(dts) && 0.0 <= c.timer
    ensures var r := FireRun(c, dts, interval);
      && c.attempts <= r.attempts <= c.attempts + |dts|
      && (r.attempts as real) * interval + r.timer <= (c.attempts as real) * interval + c.timer + Elapsed(dts)
      && 0.0 <= r.timer
      && (0.0 < interval && c.timer < interval ==> r.timer < interval)
  {
    if |dts| > 0 {
      var p := dts[..|dts| - 1];
      assert NonNegative(p);
      FireRunBudget(c, p, interval);
      var before := FireRun(c, p, interval);
      var dt := dts[|dts| - 1];
      assert 0.0 <= dt;
      if FireDue(before.timer, dt, interval) {
        FireSpendsInterval(before.attempts, interval, before.timer, dt,
                           (c.attempts as real) * interval + c.timer + Elapsed(p));
      }
    }
  }

  /** Firing adds one attempt, worth `interval`, and a budget that covered the timer and `dt` still covers it. */
  lemma FireSpendsInterval(attempts: nat, interval: real, timer: real, dt: real, budget: real)
    requires (attempts as real) * interval + timer <= budget
    requires interval <= timer + dt
    ensures ((attempts + 1) as real) * interval + 0.0 <= budget + dt
  {
    assert ((attempts + 1) as real) * interval == (attempts as real) * interval + interval;
  }

  class Boss {
    const radius: real
    /** Read by the player's collision logic, which is not part of this model. */
    const requiredScoreToDefeat: int
    const fireInterval: real
    /** Whether `homingLaserPrefab` is assigned. */
    const hasLaserPrefab: bool
    var player: PlayerPlaneController?
    var activationX: real
    var fireTimer: real
    var shotsFired: int
    var pos: Vec2
    /** `gameObject.activeSelf`; the engine runs `Update` only while it is set. */
    var active: bool

    constructor (pos: Vec2, radius: real, requiredScoreToDefeat: int, fireInterval: real,
                 activationX: real, hasLaserPrefab: bool, player: PlayerPlaneController?)
      ensures this.pos == pos && this.radius == radius
      ensures this.requiredScoreToDefeat == requiredScoreToDefeat && this.fireInterval == fireInterval
      ensures this.activationX == activationX && this.hasLaserPrefab == hasLaserPrefab
      ensures this.player == player
      ensures fireTimer == 0.0 && shotsFired == 0 && active
    {
      this.pos := pos;
      this.radius := radius;
      this.requiredScoreToDefeat := requiredScoreToDefeat;
      this.fireInterval := fireInterval;
      this.activationX := activationX;
      this.hasLaserPrefab := hasLaserPrefab;
      this.player := player;
      fireTimer := 0.0;
      shotsFired := 0;
      active := true;
    }

    /** Join `AllBosses` unless already listed. */
    method OnEnable(all: LiveList<Boss>)
      modifies all
      ensures all.items == Insert(old(all.items), this)
      ensures NoDuplicates(old(all.items)) ==> NoDuplicates(all.items)
    {
      ghost var before := all.items;
      var present := all.Contains(this);
      if !present {
        all.Add(this);
      }
      if NoDuplicates(before) {
        InsertKeepsNoDuplicates(before, this);
      }
    }

    /** Leave `AllBosses` (`List.Remove`). */
    method OnDisable(all: LiveList<Boss>)
      modifies all
      ensures all.items == RemoveFirst(old(all.items), this)
      ensures NoDuplicates(old(all.items)) ==> NoDuplicates(all.items) && this !in all.items
    {
      ghost var before := all.items;
      var _ := all.Remove(this);
      if NoDuplicates(before) {
        RemoveFirstKeepsNoDuplicates(before, this);
        RemoveFirstRemovesAll(before, this);
      }
    }

    /**
     * The engine's `gameObject.SetActive(value)`: a change of state runs `OnEnable` or
     * `OnDisable`; setting the current state again does nothing.
     */
    method SetActive(value: bool, all: LiveList<Boss>)
      modifies this`active, all
      ensures active == value
      ensures all.items == if old(active) == value then old(all.items)
                           else if value then Insert(old(all.items), this)
                           else RemoveFirst(old(all.items), this)
      ensures NoDuplicates(old(all.items)) ==> NoDuplicates(all.items)
    {
      if active != value {
        active := value;
        if value {
          OnEnable(all);
        } else {
          OnDisable(all);
        }
      }
    }

    /**
     * Place the activation line 3 units behind the boss, replacing any configured value,
     * and, when no player was assigned, take the object tagged "Player" (`tagged`, which
     * may itself be null).
     */
    method Start(tagged: PlayerPlaneController?)
      modifies this`activationX, this`player
      ensures activationX == pos.x - ActivationLead
      ensures player == if old(player) == null then tagged else old(player)
    {
      activationX := pos.x - ActivationLead;
      if player == null {
        if tagged != null {
          player := tagged;
        }
      }
    }

    /**
     * One frame. Nothing happens without a player or while the player is short of the
     * activation line. Otherwise the fire timer advances by `dt`; when it reaches
     * `fireInterval` the boss attempts one shot and the timer restarts from zero, whether
     * or not a laser could be created. `jitterX` and `jitterY` are the two random draws.
     */
    method Update(dt: real, jitterX: real, jitterY: real) returns (shot: Option<LaserShot>)
      requires InJitter(jitterX) && InJitter(jitterY)
      modifies this`fireTimer, this`shotsFired
      ensures player == null || player.pos.x < activationX ==>
        fireTimer == old(fireTimer) && shotsFired == old(shotsFired) && shot == None
      ensures player != null && player.pos.x >= activationX ==>
        var fires := FireDue(old(fireTimer), dt, fireInterval);
        && fireTimer == NextFireTimer(old(fireTimer), dt, fireInterval)
        && shot == (if fires && hasLaserPrefab then Some(LaserShot(Add(pos, Vec2(jitterX, jitterY)), player)) else None)
        && shotsFired == old(shotsFired) + (if shot.Some? then 1 else 0)
      ensures shot.Some? ==>
        && -JitterBound <= shot.value.pos.x - pos.x <= JitterBound
        && -JitterBound <= shot.value.pos.y - pos.y <= JitterBound
    {
      shot := None;
      if player == null {
        return;
      }
      if player.pos.x < activationX {
        return;
      }

      fireTimer := fireTimer + dt;

      if fireTimer >= fireInterval {
        shot := FireHomingLaser(jitterX, jitterY);
        fireTimer := 0.0;
      }
    }

    /**
     * Without a prefab, give up (no laser, no count). Otherwise a laser at the jittered
     * position, aimed at the player, and one more shot counted.
     */
    method FireHomingLaser(jitterX: real, jitterY: real) returns (shot: Option<LaserShot>)
      modifies this`shotsFired
      ensures !hasLaserPrefab ==> shot == None && shotsFired == old(shotsFired)
      ensures hasLaserPrefab ==>
        shot == Some(LaserShot(Add(pos, Vec2(jitterX, jitterY)), player)) && shotsFired == old(shotsFired) + 1
    {
      if !hasLaserPrefab {
        return None;
      }
      var spawnPos := Add(pos, Vec2(jitterX, jitterY));
      shot := Some(LaserShot(spawnPos, player));
      shotsFired := shotsFired + 1;
    }
  }
}
