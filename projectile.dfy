/**
 * `Projectile` (Projectile.cs): the player's shot. Each tick it moves by its fixed
 * velocity, scans `AllObstacles` for the first one it touches (destroying that obstacle
 * and itself), and then ages toward its lifetime.
 *
 * `Destroy` only sets `destroyRequested`: the engine removes objects at the end of the
 * frame, so the rest of the tick still runs after a hit.
 */
module Projectiles {
  import opened Options
  import opened Geometry
  import opened Registries
  import opened Obstacles

  /** The scan hits `o` from `p`: a live (non-null) entry whose circle overlaps the shot's. */
  predicate Hits(o: Obstacle, p: Vec2, hitRadius: real)
    reads o
  {
    !o.destroyed && Within(p, o.pos, hitRadius + o.radius)
  }

  /** The position in list order of the first obstacle the scan hits, if there is one. */
  function FirstHit(obs: seq<Obstacle>, p: Vec2, hitRadius: real): (k: Option<nat>)
    reads obs
    ensures k.Some? ==> k.value < |obs| && Hits(obs[k.value], p, hitRadius)
    ensures k.Some? ==> forall j :: 0 <= j < k.value ==> !Hits(obs[j], p, hitRadius)
    ensures k.None? ==> forall j :: 0 <= j < |obs| ==> !Hits(obs[j], p, hitRadius)
  {
    if |obs| == 0 then None
    else if Hits(obs[0], p, hitRadius) then Some(0)
    else match FirstHit(obs[1..], p, hitRadius)
      case None => None
      case Some(k) => Some(k + 1)
  }

  class Projectile {
    var velocity: Vec2
    const hitRadius: real
    const lifetime: real
    var timer: real
    var pos: Vec2
    /** `Destroy(gameObject)` was called; it takes effect at the end of the frame. */
    var destroyRequested: bool

    constructor (pos: Vec2, velocity: Vec2, hitRadius: real, lifetime: real)
      ensures this.pos == pos && this.velocity == velocity
      ensures this.hitRadius == hitRadius && this.lifetime == lifetime
      ensures timer == 0.0 && !destroyRequested
    {
      this.pos := pos;
      this.velocity := velocity;
      this.hitRadius := hitRadius;
      this.lifetime := lifetime;
      timer := 0.0;
      destroyRequested := false;
    }

    /**
     * One frame: move by `velocity * dt`, run the obstacle scan from the new position,
     * then age by `dt` and request destruction once the lifetime is reached.
     */
    method Update(dt: real, all: LiveList<Obstacle>)
      modifies this`pos, this`timer, this`destroyRequested, all.items
      ensures pos == Add(old(pos), Scale(velocity, dt))
      ensures timer == old(timer) + dt
      ensures var k := old(FirstHit(all.items, Add(pos, Scale(velocity, dt)), hitRadius));
        && destroyRequested == (old(destroyRequested) || k.Some? || timer >= lifetime)
        && forall j :: 0 <= j < |all.items| ==>
             all.items[j].destroyRequested ==
               (old(all.items[j].destroyRequested) || (k.Some? && all.items[j] == all.items[k.value]))
      ensures forall j :: 0 <= j < |all.items| ==> all.items[j].destroyed == old(all.items[j].destroyed)
    {
      pos := Add(pos, Scale(velocity, dt));
      CheckCollisionWithObstacles(all);
      timer := timer + dt;
      if timer >= lifetime {
        destroyRequested := true;
      }
    }

    /**
     * Scan the obstacle list in order, skipping destroyed entries; the first one whose
     * circle overlaps the shot is destroyed together with the shot, and the scan stops.
     * No other obstacle is touched, and the list itself is unchanged.
     */
    method CheckCollisionWithObstacles(all: LiveList<Obstacle>)
      modifies this`destroyRequested, all.items
      ensures var k := old(FirstHit(all.items, pos, hitRadius));
        && destroyRequested == (old(destroyRequested) || k.Some?)
        && forall j :: 0 <= j < |all.items| ==>
             all.items[j].destroyRequested ==
               (old(all.items[j].destroyRequested) || (k.Some? && all.items[j] == all.items[k.value]))
      ensures forall j :: 0 <= j < |all.items| ==> all.items[j].destroyed == old(all.items[j].destroyed)
    {
      var obstacles := all.items;
      var i := 0;
      while i < |obstacles|
        invariant 0 <= i <= |obstacles|
        invariant forall j :: 0 <= j < i ==> !Hits(obstacles[j], pos, hitRadius)
        invariant destroyRequested == old(destroyRequested)
        invariant forall j :: 0 <= j < |obstacles| ==>
          obstacles[j].destroyRequested == old(obstacles[j].destroyRequested) &&
          obstacles[j].destroyed == old(obstacles[j].destroyed)
      {
        var obstacle := obstacles[i];
        if obstacle.destroyed {
          i := i + 1;
          continue;
        }
        if Within(pos, obstacle.pos, hitRadius + obstacle.radius) {
          obstacle.destroyRequested := true;
          destroyRequested := true;
          break;
        }
        i := i + 1;
      }
    }
  }
}
