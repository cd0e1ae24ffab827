/**
 * The live-entity lists behind `Obstacle.AllObstacles`, `Collectible.AllCollectibles`,
 * `Boss.AllBosses` and `HomingLaser.AllLasers`.
 *
 * Each is a C# `List<T>` that an entity joins in `OnEnable` only when it is not already
 * there and leaves in `OnDisable` through `List.Remove`, which drops the first occurrence.
 * `Insert` and `RemoveFirst` are those two updates on the list's contents; the lemmas
 * show that together they keep the list a duplicate-free set held in insertion order.
 */
module Registries {

  /** No entity appears twice. */
  predicate NoDuplicates<T(==)>(s: seq<T>) {
    forall i, j :: 0 <= i < j < |s| ==> s[i] != s[j]
  }

  /** `if (!list.Contains(x)) list.Add(x)`. */
  function Insert<T(==)>(s: seq<T>, x: T): (r: seq<T>)
    ensures x in r
    ensures s <= r
    ensures |r| <= |s| + 1
    ensures forall i :: 0 <= i < |r| ==> r[i] in s || r[i] == x
    ensures x in s ==> r == s
    ensures x !in s ==> r == s + [x]
  {
    if x in s then s else s + [x]
  }

  /** The position of the first occurrence of `x`, as `List.IndexOf` finds it. */
  function IndexOf<T(==)>(s: seq<T>, x: T): (i: nat)
    requires x in s
    ensures i < |s| && s[i] == x && x !in s[..i]
  {
    if s[0] == x then 0 else 1 + IndexOf(s[1..], x)
  }

  /** `list.Remove(x)`: the first occurrence of `x`, if any, is dropped; everything else stays in order. */
  function RemoveFirst<T(==)>(s: seq<T>, x: T): seq<T> {
    if x in s then
      var i := IndexOf(s, x);
      s[..i] + s[i + 1..]
    else s
  }

  /** A second `OnEnable` changes nothing. */
  lemma InsertIdempotent<T>(s: seq<T>, x: T)
    ensures Insert(Insert(s, x), x) == Insert(s, x)
  {
  }

  /** `OnEnable` keeps the list free of duplicates. */
  lemma InsertKeepsNoDuplicates<T>(s: seq<T>, x: T)
    requires NoDuplicates(s)
    ensures NoDuplicates(Insert(s, x))
  {
    if x !in s {
      var r := s + [x];
      forall i, j | 0 <= i < j < |r| ensures r[i] != r[j] {
        if j == |s| {
          assert r[i] == s[i];
        }
      }
    }
  }

  /** Removing the first occurrence from a duplicate-free list leaves none behind. */
  lemma RemoveFirstRemovesAll<T>(s: seq<T>, x: T)
    requires NoDuplicates(s)
    ensures x !in RemoveFirst(s, x)
  {
    if x in s {
      var i := IndexOf(s, x);
    }
  }

  /** `OnDisable` keeps the list free of duplicates. */
  lemma RemoveFirstKeepsNoDuplicates<T>(s: seq<T>, x: T)
    requires NoDuplicates(s)
    ensures NoDuplicates(RemoveFirst(s, x))
  {
    if x in s {
      var r := RemoveFirst(s, x);
      forall a, b | 0 <= a < b < |r| ensures r[a] != r[b] {
        RemoveFirstAt(s, x, a);
        RemoveFirstAt(s, x, b);
      }
    }
  }

  /** After a removal, the entries before the removed one keep their place and the rest move up by one. */
  lemma RemoveFirstAt<T>(s: seq<T>, x: T, a: int)
    requires x in s && 0 <= a < |RemoveFirst(s, x)|
    ensures a < IndexOf(s, x) ==> RemoveFirst(s, x)[a] == s[a]
    ensures IndexOf(s, x) <= a ==> a + 1 < |s| && RemoveFirst(s, x)[a] == s[a + 1]
  {
  }

  /** `OnDisable` of an entity that is not listed changes nothing; otherwise the list is one shorter. */
  lemma RemoveFirstLength<T>(s: seq<T>, x: T)
    ensures x !in s ==> RemoveFirst(s, x) == s
    ensures x in s ==> |RemoveFirst(s, x)| == |s| - 1
  {
  }

  /** Every other entity is still listed after a removal, and nothing new appears. */
  lemma RemoveFirstKeepsOthers<T>(s: seq<T>, x: T, y: T)
    requires y != x
    ensures y in RemoveFirst(s, x) <==> y in s
  {
    if x in s {
      var i := IndexOf(s, x);
      assert s == s[..i] + [x] + s[i + 1..];
    }
  }

  /** Disabling an entity that was just enabled restores the list it joined. */
  lemma RemoveAfterInsert<T>(s: seq<T>, x: T)
    requires x !in s
    ensures RemoveFirst(Insert(s, x), x) == s
  {
    var r := s + [x];
    assert r[|s|] == x;
    if IndexOf(r, x) < |s| {
      assert r[IndexOf(r, x)] in s;
    }
    assert r[..|s|] == s;
  }

  /**
   * A C# `List<T>` of entity references, used as a shared static list.
   * Only the operations the entities call are modelled.
   */
  class LiveList<T(==)> {
    var items: seq<T>

    constructor ()
      ensures items == []
    {
      items := [];
    }

    /** `List.Contains`. */
    method Contains(x: T) returns (b: bool)
      ensures b <==> x in items
    {
      b := x in items;
    }

    /** `List.Add`: append at the end. */
    method Add(x: T)
      modifies this
      ensures items == old(items) + [x]
    {
      items := items + [x];
    }

    /** `List.Remove`: drop the first occurrence, reporting whether there was one. */
    method Remove(x: T) returns (removed: bool)
      modifies this
      ensures removed <==> x in old(items)
      ensures items == RemoveFirst(old(items), x)
    {
      removed := x in items;
      items := RemoveFirst(items, x);
    }
  }
}
