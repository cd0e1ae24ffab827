/**
 * `Collectible` (Collectable.cs): a circle that never moves, listed in the shared
 * `AllCollectibles` list while it is enabled.
 */
module Collectibles {
  import opened Geometry
  import opened Registries

  class Collectible {
    /** Collectibles are placed once by the spawner; no code moves them. */
    const pos: Vec2
    const radius: real

    constructor (pos: Vec2, radius: real)
      ensures this.pos == pos && this.radius == radius
    {
      this.pos := pos;
      this.radius := radius;
    }

    /** Join `AllCollectibles` unless already listed. */
    method OnEnable(all: LiveList<Collectible>)
      modifies all
      ensures all.items == Insert(old(all.items), this)
      ensures NoDuplicates(old(all.items)) ==> NoDuplicates(all.items)
    {
      ghost var before := all.items;
      var present := all.Contains(this);
      if !present {
        all.Add(this);
      }
      if NoDuplicates(before) {
        InsertKeepsNoDuplicates(before, this);
      }
    }

    /** Leave `AllCollectibles` (`List.Remove`). */
    method OnDisable(all: LiveList<Collectible>)
      modifies all
      ensures all.items == RemoveFirst(old(all.items), this)
      ensures NoDuplicates(old(all.items)) ==> NoDuplicates(all.items) && this !in all.items
    {
      ghost var before := all.items;
      var _ := all.Remove(this);
      if NoDuplicates(before) {
        RemoveFirstKeepsNoDuplicates(before, this);
        RemoveFirstRemovesAll(before, this);
      }
    }
  }
}
