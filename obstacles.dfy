/**
 * `Obstacle` (Obstacles.cs): a circle that never moves, listed in the shared
 * `AllObstacles` list while it is enabled.
 */
module Obstacles {
  import opened Geometry
  import opened Registries

  class Obstacle {
    /** Obstacles are placed once by the spawner; no code moves them. */
    const pos: Vec2
    const radius: real
    /** The engine has destroyed the object: a C# `obstacle == null` test is now true. */
    var destroyed: bool
    /** `Destroy` was called on it; the engine carries it out at the end of the frame. */
    var destroyRequested: bool

    constructor (pos: Vec2, radius: real)
      ensures this.pos == pos && this.radius == radius
      ensures !destroyed && !destroyRequested
    {
      this.pos := pos;
      this.radius := radius;
      destroyed := false;
      destroyRequested := false;
    }

    /** Join `AllObstacles` unless already listed. */
    method OnEnable(all: LiveList<Obstacle>)
      modifies all
      ensures all.items == Insert(old(all.items), this)
      ensures NoDuplicates(old(all.items)) ==> NoDuplicates(all.items)
    {
      ghost var before := all.items;
      var present := all.Contains(this);
      if !present {
        all.Add(this);
      }
      if NoDuplicates(before) {
        InsertKeepsNoDuplicates(before, this);
      }
    }

    /** Leave `AllObstacles` (`List.Remove`). */
    method OnDisable(all: LiveList<Obstacle>)
      modifies all
      ensures all.items == RemoveFirst(old(all.items), this)
      ensures NoDuplicates(old(all.items)) ==> NoDuplicates(all.items) && this !in all.items
    {
      ghost var before := all.items;
      var _ := all.Remove(this);
      if NoDuplicates(before) {
        RemoveFirstKeepsNoDuplicates(before, this);
        RemoveFirstRemovesAll(before, this);
      }
    }
  }
}
