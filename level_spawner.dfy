/**
 * `LevelSpawner` (LevelSpawner.cs): fills the level ahead of the player. A cursor
 * `nextSpawnX` marks where the next "column" goes; every frame, columns are emitted at
 * the cursor, one `spawnStepX` apart, until the cursor has passed
 * `spawnAheadDistance` in front of the player. Each column holds `obstaclesPerStep`
 * obstacles and `collectiblesPerStep` collectibles at the column's x, with y drawn at
 * random in `[minY, maxY]` and redrawn (up to eleven draws in all) while it lands
 * closer than `minDistanceFromPlayer` to the player. A clock counts up to
 * `timeToBoss`; then the boss is moved in front of the player and activated, a
 * one-way latch is set, and spawning stops for good.
 *
 * A spawned column is reported as a `Column` record (the engine instantiates one prefab
 * per y value). The random draws of a frame are a stream `rng`, of which the frame
 * uses a prefix; `Update` reports how many draws it used.
 */
module Spawning {
  import opened Geometry
  import opened Registries
  import opened Player
  import opened Godzilla

  /** `Random.Range(lo, hi)` for floats: a value between the bounds inclusive, in either order. */
  predicate InRange(y: real, lo: real, hi: real) {
    if lo <= hi then lo <= y <= hi else hi <= y <= lo
  }

  /** A placement stops redrawing after this many draws, keeping the last one. */
  const MaxDraws: nat := 11

  /** How many times `for (int i = 0; i < n; i++)` runs. */
  function Count(n: int): nat {
    if n > 0 then n else 0
  }

  /** One spawned column: its x and the y of each obstacle and each collectible. */
  datatype Column = Column(x: real, obstacleYs: seq<real>, collectibleYs: seq<real>)

  function Xs(cs: seq<Column>): (xs: seq<real>)
    ensures |xs| == |cs| && forall i :: 0 <= i < |cs| ==> xs[i] == cs[i].x
  {
    seq(|cs|, i requires 0 <= i < |cs| => cs[i].x)
  }

  /**
   * The x of every column due from cursor `x`: the cursor and each step after it, as long
   * as it is not beyond `limit` (the player's x plus `spawnAheadDistance`).
   */
  function DueColumns(x: real, step: real, limit: real): seq<real>
    requires 0.0 < step
    decreases Remaining(x, step, limit)
  {
    if x <= limit then RemainingStep(x, step, limit); [x] + DueColumns(x + step, step, limit) else []
  }

  /** The termination measure of `DueColumns`: how many steps remain to the limit, plus one. */
  function Remaining(x: real, step: real, limit: real): real
    requires 0.0 < step
  {
    if x <= limit then (limit - x) / step + 1.0 else 0.0
  }

  /** One step from a cursor within the limit takes at least one off the measure, which stays non-negative. */
  lemma RemainingStep(x: real, step: real, limit: real)
    requires 0.0 < step && x <= limit
    ensures 0.0 <= Remaining(x + step, step, limit)
    ensures Remaining(x + step, step, limit) + 1.0 <= Remaining(x, step, limit)
  {
    StepMeasure(limit - x, step);
    assert 0.0 <= (limit - x) / step;
  }

  /**
   * The due columns are exactly the cursor advanced by whole steps, `x + i * step`, every
   * one of them within the limit, and the next step would be beyond it.
   */
  lemma {:induction false} DueColumnsShape(x: real, step: real, limit: real)
    requires 0.0 < step
    ensures var xs := DueColumns(x, step, limit);
      && (forall i :: 0 <= i < |xs| ==> xs[i] == x + (i as real) * step && xs[i] <= limit)
      && limit < x + (|xs| as real) * step
    decreases Remaining(x, step, limit)
  {
    if x <= limit {
      var rest := DueColumns(x + step, step, limit);
      RemainingStep(x, step, limit);
      DueColumnsShape(x + step, step, limit);
      var xs := DueColumns(x, step, limit);
      assert xs == [x] + rest;
      forall i | 0 <= i < |xs|
        ensures xs[i] == x + (i as real) * step
      {
        if i > 0 {
          assert xs[i] == rest[i - 1];
          assert x + step + ((i - 1) as real) * step == x + (i as real) * step;
        }
      }
      assert x + step + (|rest| as real) * step == x + (|xs| as real) * step;
    }
  }

  /** One step of the cursor takes exactly one off the measure of the remaining distance. */
  lemma StepMeasure(a: real, step: real)
    requires 0.0 < step
    ensures (a - step) / step + 1.0 == a / step
  {
    assert step / step == 1.0;
    assert (a - step) / step == a / step - step / step;
  }

  /**
   * Walking the due columns one at a time: there are none exactly when the cursor is beyond
   * the limit, each is within it, the one after it is one step further, and one step past
   * the last is beyond the limit.
   */
  lemma DueColumnsNext(x: real, step: real, limit: real, i: nat)
    requires 0.0 < step
    ensures var xs := DueColumns(x, step, limit);
      && (xs == [] <==> limit < x)
      && (i < |xs| ==> xs[i] <= limit)
      && (i + 1 < |xs| ==> xs[i + 1] == xs[i] + step)
      && (i + 1 == |xs| ==> limit < xs[i] + step)
  {
    var xs := DueColumns(x, step, limit);
    DueColumnsShape(x, step, limit);
    if i + 1 <= |xs| {
      assert x + ((i + 1) as real) * step == x + (i as real) * step + step;
    }
  }

  /** Columns come out in strictly increasing x, so no two share a position. */
  lemma DueColumnsIncreasing(x: real, step: real, limit: real)
    requires 0.0 < step
    ensures var xs := DueColumns(x, step, limit);
      forall i, j :: 0 <= i < j < |xs| ==> xs[i] < xs[j]
  {
    var xs := DueColumns(x, step, limit);
    DueColumnsShape(x, step, limit);
    forall i, j | 0 <= i < j < |xs|
      ensures xs[i] < xs[j]
    {
      var gap := ((j - i) as real) * step;
      assert 0.0 < gap;
      assert xs[j] == xs[i] + gap;
    }
  }

  /** The first frame with the default settings: cursor 3, step 2, horizon 5 gives columns at 3 and 5. */
  lemma DueColumnsExample()
    ensures DueColumns(3.0, 2.0, 5.0) == [3.0, 5.0]
  {
    assert DueColumns(7.0, 2.0, 5.0) == [];
    assert DueColumns(5.0, 2.0, 5.0) == [5.0];
  }


  // ---------------------------------------------------------------------------
  // Placing items: the retry rule of the `do`/`while` loops in `SpawnColumn`

  /**
   * The test that sends a placement back for another draw: `Avoiding(p, reach)(x)(y)`
   * holds when `(x, y)` lies closer than `reach` to `p`, the squared form of
   * `Vector2.Distance(pos, player.position) < minDistanceFromPlayer`. Everything below
   * holds for any such test `tooClose`.
   */
  function Avoiding(p: Vec2, reach: real): real -> real -> bool {
    (x: real) => (y: real) => Closer(Vec2(x, y), p, reach)
  }

  /**
   * One placement from draw `rng(start)` on keeps the retry rule: it took `used` draws,
   * between 1 and 11, and kept the last; each earlier draw was too close, and so is the
   * kept one only if the eleventh draw ended the redrawing.
   */
  predicate Placed(tooClose: real -> bool, rng: nat -> real, start: nat, used: nat, y: real) {
    && 1 <= used <= MaxDraws
    && y == rng(start + used - 1)
    && (forall k :: start <= k < start + used - 1 ==> tooClose(rng(k)))
    && (used < MaxDraws ==> !tooClose(y))
  }

  /** The draws a placement from `rng(start)` on takes, the first `made` of them already known too close. */
  function DrawsFrom(tooClose: real -> bool, rng: nat -> real, start: nat, made: nat): (n: nat)
    requires made < MaxDraws
    ensures made < n <= MaxDraws
    decreases MaxDraws - made
  {
    if made + 1 == MaxDraws || !tooClose(rng(start + made)) then made + 1
    else DrawsFrom(tooClose, rng, start, made + 1)
  }

  /** The draws one placement from `rng(start)` on takes. */
  function Draws(tooClose: real -> bool, rng: nat -> real, start: nat): (n: nat)
    ensures 1 <= n <= MaxDraws
  {
    DrawsFrom(tooClose, rng, start, 0)
  }

  /** Counting on from `made` draws that were all too close ends in a placement that keeps the retry rule. */
  lemma {:induction false} DrawsFromPlaced(tooClose: real -> bool, rng: nat -> real, start: nat, made: nat)
    requires made < MaxDraws
    requires forall k :: start <= k < start + made ==> tooClose(rng(k))
    ensures Placed(tooClose, rng, start, DrawsFrom(tooClose, rng, start, made), rng(start + DrawsFrom(tooClose, rng, start, made) - 1))
    decreases MaxDraws - made
  {
    if !(made + 1 == MaxDraws || !tooClose(rng(start + made))) {
      DrawsFromPlaced(tooClose, rng, start, made + 1);
    }
  }

  /** The retry rule leaves no choice: two placements from the same draw that keep it are the same. */
  lemma PlacedDetermined(tooClose: real -> bool, rng: nat -> real, start: nat, a: nat, ya: real, b: nat, yb: real)
    requires Placed(tooClose, rng, start, a, ya) && Placed(tooClose, rng, start, b, yb)
    ensures a == b && ya == yb
  {
  }

  /** A placement keeps the retry rule exactly when it took `Draws` draws and kept the last of them. */
  lemma DrawsPlaced(tooClose: real -> bool, rng: nat -> real, start: nat, used: nat, y: real)
    ensures Placed(tooClose, rng, start, used, y) <==>
      used == Draws(tooClose, rng, start) && y == rng(start + used - 1)
  {
    DrawsFromPlaced(tooClose, rng, start, 0);
    var n := Draws(tooClose, rng, start);
    if Placed(tooClose, rng, start, used, y) {
      PlacedDetermined(tooClose, rng, start, used, y, n, rng(start + n - 1));
    }
  }

  /**
   * Items placed one after another by the retry rule: item `j` kept `ys[j]` after taking
   * the draws from `rng(marks[j])` up to `rng(marks[j + 1])`, so each item starts where
   * the one before it left off, and the run took `marks[|ys|] - marks[0]` draws.
   */
  predicate PlacedRun(tooClose: real -> bool, rng: nat -> real, ys: seq<real>, marks: seq<nat>) {
    && |marks| == |ys| + 1
    && forall j :: 0 <= j < |ys| ==> ItemPlaced(tooClose, rng, ys, marks, j)
  }

  /** Item `j` of a run kept `ys[j]` after taking the draws from `rng(marks[j])` up to `rng(marks[j + 1])`. */
  predicate ItemPlaced(tooClose: real -> bool, rng: nat -> real, ys: seq<real>, marks: seq<nat>, j: int) {
    && 0 <= j < |ys| && j + 1 < |marks|
    && marks[j] <= marks[j + 1]
    && Placed(tooClose, rng, marks[j], marks[j + 1] - marks[j], ys[j])
  }

  /** The draws a run took. */
  function Taken(marks: seq<nat>): int
    requires 0 < |marks|
  {
    (marks[|marks| - 1] as int) - marks[0]
  }

  /** Placing one more item, from the draw where the run left off, extends the run. */
  lemma PlacedRunStep(tooClose: real -> bool, rng: nat -> real, ys: seq<real>, marks: seq<nat>, y: real, n: nat)
    requires PlacedRun(tooClose, rng, ys, marks)
    requires Placed(tooClose, rng, marks[|ys|], n, y)
    ensures PlacedRun(tooClose, rng, ys + [y], marks + [marks[|ys|] + n])
  {
    var ys', marks' := ys + [y], marks + [marks[|ys|] + n];
    forall j | 0 <= j < |ys'|
      ensures ItemPlaced(tooClose, rng, ys', marks', j)
    {
      if j < |ys| {
        assert ItemPlaced(tooClose, rng, ys, marks, j);
        assert ys'[j] == ys[j];
      }
    }
  }

  /** The items of a run before the last one form a run of their own. */
  lemma PlacedRunPrefix(tooClose: real -> bool, rng: nat -> real, ys: seq<real>, marks: seq<nat>)
    requires PlacedRun(tooClose, rng, ys, marks) && 0 < |ys|
    ensures PlacedRun(tooClose, rng, ys[..|ys| - 1], marks[..|ys|])
  {
    var m := |ys| - 1;
    var ys', marks' := ys[..m], marks[..m + 1];
    forall j | 0 <= j < |ys'|
      ensures ItemPlaced(tooClose, rng, ys', marks', j)
    {
      assert ItemPlaced(tooClose, rng, ys, marks, j);
      assert ys'[j] == ys[j] && marks'[j] == marks[j] && marks'[j + 1] == marks[j + 1];
    }
  }

  /** A run of `n` items took between `n` and `11 * n` draws, and every y is one of the draws, so in range when they all are. */
  lemma {:induction false} PlacedRunBounds(tooClose: real -> bool, rng: nat -> real, ys: seq<real>, marks: seq<nat>, lo: real, hi: real)
    requires PlacedRun(tooClose, rng, ys, marks)
    ensures |ys| <= Taken(marks) <= MaxDraws * |ys|
    ensures (forall k :: InRange(rng(k), lo, hi)) ==> forall j :: 0 <= j < |ys| ==> InRange(ys[j], lo, hi)
  {
    if 0 < |ys| {
      var m := |ys| - 1;
      PlacedRunPrefix(tooClose, rng, ys, marks);
      PlacedRunBounds(tooClose, rng, ys[..m], marks[..m + 1], lo, hi);
      assert ItemPlaced(tooClose, rng, ys, marks, m);
      if forall k :: InRange(rng(k), lo, hi) {
        forall j | 0 <= j < |ys|
          ensures InRange(ys[j], lo, hi)
        {
          if j < m {
            assert ys[j] == ys[..m][j];
          }
        }
      }
    }
  }

  /**
   * The retry rule decides a whole run: two runs of the same length from the same draw
   * keep the same ys and take the same draws.
   */
  lemma {:induction false} PlacedRunDetermined(tooClose: real -> bool, rng: nat -> real,
                                               ys: seq<real>, marks: seq<nat>, ys': seq<real>, marks': seq<nat>)
    requires PlacedRun(tooClose, rng, ys, marks) && PlacedRun(tooClose, rng, ys', marks')
    requires |ys| == |ys'| && marks[0] == marks'[0]
    ensures ys == ys' && marks == marks'
  {
    if 0 < |ys| {
      var m := |ys| - 1;
      PlacedRunPrefix(tooClose, rng, ys, marks);
      PlacedRunPrefix(tooClose, rng, ys', marks');
      PlacedRunDetermined(tooClose, rng, ys[..m], marks[..m + 1], ys'[..m], marks'[..m + 1]);
      assert marks[m] == marks'[m];
      assert ItemPlaced(tooClose, rng, ys, marks, m) && ItemPlaced(tooClose, rng, ys', marks', m);
      PlacedDetermined(tooClose, rng, marks[m], marks[m + 1] - marks[m], ys[m], marks'[m + 1] - marks'[m], ys'[m]);
      assert ys == ys[..m] + [ys[m]] && ys' == ys'[..m] + [ys'[m]];
      assert marks == marks[..m + 1] + [marks[m + 1]] && marks' == marks'[..m + 1] + [marks'[m + 1]];
    }
  }

  /** A column with `no` obstacles and `nc` collectibles, every y between `lo` and `hi`. */
  predicate Shaped(c: Column, no: nat, nc: nat, lo: real, hi: real) {
    && |c.obstacleYs| == no
    && |c.collectibleYs| == nc
    && (forall j :: 0 <= j < |c.obstacleYs| ==> InRange(c.obstacleYs[j], lo, hi))
    && (forall j :: 0 <= j < |c.collectibleYs| ==> InRange(c.collectibleYs[j], lo, hi))
  }

  /**
   * A column of `no` obstacles and `nc` collectibles placed from draw `rng(start)` on,
   * taking `used` draws: its obstacles and then its collectibles form one run from `start`.
   */
  ghost predicate ColumnTook(tooClose: real -> bool, rng: nat -> real, start: nat, c: Column, used: nat, no: nat, nc: nat) {
    && |c.obstacleYs| == no && |c.collectibleYs| == nc
    && exists marks: seq<nat> {:trigger PlacedRun(tooClose, rng, c.obstacleYs + c.collectibleYs, marks)} ::
         && PlacedRun(tooClose, rng, c.obstacleYs + c.collectibleYs, marks)
         && marks[0] == start && Taken(marks) == used
  }

  /**
   * A column placed by the retry rule from draws that all lie in `[lo, hi]` has its
   * items in range, and took between 1 and 11 draws per item.
   */
  lemma ColumnTookShaped(tooClose: real -> bool, rng: nat -> real, start: nat, c: Column, used: nat, no: nat, nc: nat, lo: real, hi: real)
    requires ColumnTook(tooClose, rng, start, c, used, no, nc)
    requires forall k :: InRange(rng(k), lo, hi)
    ensures Shaped(c, no, nc, lo, hi)
    ensures no + nc <= used <= MaxDraws * (no + nc)
  {
    var ys := c.obstacleYs + c.collectibleYs;
    var marks: seq<nat> :| PlacedRun(tooClose, rng, ys, marks) && marks[0] == start && Taken(marks) == used;
    PlacedRunBounds(tooClose, rng, ys, marks, lo, hi);
    forall j | 0 <= j < |c.obstacleYs|
      ensures InRange(c.obstacleYs[j], lo, hi)
    {
      assert c.obstacleYs[j] == ys[j];
    }
    forall j | 0 <= j < |c.collectibleYs|
      ensures InRange(c.collectibleYs[j], lo, hi)
    {
      assert c.collectibleYs[j] == ys[|c.obstacleYs| + j];
    }
  }

  /**
   * The columns of one frame, each of `no` obstacles and `nc` collectibles, placed one
   * after another from draw `rng(0)` on: column `i` took the draws from `rng(starts[i])`
   * up to `rng(starts[i + 1])`.
   */
  ghost predicate ColumnsTook(tooClose: real -> real -> bool, rng: nat -> real, columns: seq<Column>, starts: seq<nat>, no: nat, nc: nat) {
    && |starts| == |columns| + 1
    && starts[0] == 0
    && forall i :: 0 <= i < |columns| ==> ColumnPlaced(tooClose, rng, columns, starts, i, no, nc)
  }

  /** Column `i` of a frame took the draws from `rng(starts[i])` up to `rng(starts[i + 1])`. */
  ghost predicate ColumnPlaced(tooClose: real -> real -> bool, rng: nat -> real, columns: seq<Column>, starts: seq<nat>, i: int, no: nat, nc: nat) {
    && 0 <= i < |columns| && i + 1 < |starts|
    && starts[i] <= starts[i + 1]
    && ColumnTook(tooClose(columns[i].x), rng, starts[i], columns[i], starts[i + 1] - starts[i], no, nc)
  }

  /** Every column of a frame placed from draws in `[lo, hi]` has its items in range. */
  lemma ColumnsTookShaped(tooClose: real -> real -> bool, rng: nat -> real, columns: seq<Column>, starts: seq<nat>, no: nat, nc: nat, lo: real, hi: real)
    requires ColumnsTook(tooClose, rng, columns, starts, no, nc)
    requires forall k :: InRange(rng(k), lo, hi)
    ensures forall i :: 0 <= i < |columns| ==> Shaped(columns[i], no, nc, lo, hi)
  {
    forall i | 0 <= i < |columns|
      ensures Shaped(columns[i], no, nc, lo, hi)
    {
      assert ColumnPlaced(tooClose, rng, columns, starts, i, no, nc);
      ColumnTookShaped(tooClose(columns[i].x), rng, starts[i], columns[i], starts[i + 1] - starts[i], no, nc, lo, hi);
    }
  }

  /** Spawning one more column, from the draw where the frame's columns left off, extends them. */
  lemma ColumnsTookStep(tooClose: real -> real -> bool, rng: nat -> real, columns: seq<Column>, starts: seq<nat>,
                        c: Column, n: nat, no: nat, nc: nat)
    requires ColumnsTook(tooClose, rng, columns, starts, no, nc)
    requires ColumnTook(tooClose(c.x), rng, starts[|columns|], c, n, no, nc)
    ensures ColumnsTook(tooClose, rng, columns + [c], starts + [starts[|columns|] + n], no, nc)
  {
    var columns', starts' := columns + [c], starts + [starts[|columns|] + n];
    forall i | 0 <= i < |columns'|
      ensures ColumnPlaced(tooClose, rng, columns', starts', i, no, nc)
    {
      if i < |columns| {
        assert ColumnPlaced(tooClose, rng, columns, starts, i, no, nc);
        assert columns'[i] == columns[i];
      }
    }
  }

  class LevelSpawner {
    const player: PlayerPlaneController?
    const boss: Boss?
    /** Whether `obstaclePrefab` and `collectiblePrefab` are assigned. */
    const hasObstaclePrefab: bool
    const hasCollectiblePrefab: bool
    const firstSpawnOffsetX: real
    const spawnStepX: real
    const spawnAheadDistance: real
    const minY: real
    const maxY: real
    const obstaclesPerStep: int
    const collectiblesPerStep: int
    const timeToBoss: real
    const bossSpawnAheadX: real
    const minDistanceFromPlayer: real

    /** The component's `enabled` flag; the engine runs `Update` only while it is set. */
    var enabled: bool
    var nextSpawnX: real
    var timer: real
    var bossSpawned: bool

    constructor (player: PlayerPlaneController?, boss: Boss?, hasObstaclePrefab: bool, hasCollectiblePrefab: bool,
                 firstSpawnOffsetX: real, spawnStepX: real, spawnAheadDistance: real, minY: real, maxY: real,
                 obstaclesPerStep: int, collectiblesPerStep: int, timeToBoss: real, bossSpawnAheadX: real,
                 minDistanceFromPlayer: real)
      ensures this.player == player && this.boss == boss
      ensures this.hasObstaclePrefab == hasObstaclePrefab && this.hasCollectiblePrefab == hasCollectiblePrefab
      ensures this.firstSpawnOffsetX == firstSpawnOffsetX && this.spawnStepX == spawnStepX
      ensures this.spawnAheadDistance == spawnAheadDistance && this.minY == minY && this.maxY == maxY
      ensures this.obstaclesPerStep == obstaclesPerStep && this.collectiblesPerStep == collectiblesPerStep
      ensures this.timeToBoss == timeToBoss && this.bossSpawnAheadX == bossSpawnAheadX
      ensures this.minDistanceFromPlayer == minDistanceFromPlayer
      ensures enabled && nextSpawnX == 0.0 && timer == 0.0 && !bossSpawned
    {
      this.player := player;
      this.boss := boss;
      this.hasObstaclePrefab := hasObstaclePrefab;
      this.hasCollectiblePrefab := hasCollectiblePrefab;
      this.firstSpawnOffsetX := firstSpawnOffsetX;
      this.spawnStepX := spawnStepX;
      this.spawnAheadDistance := spawnAheadDistance;
      this.minY := minY;
      this.maxY := maxY;
      this.obstaclesPerStep := obstaclesPerStep;
      this.collectiblesPerStep := collectiblesPerStep;
      this.timeToBoss := timeToBoss;
      this.bossSpawnAheadX := bossSpawnAheadX;
      this.minDistanceFromPlayer := minDistanceFromPlayer;
      enabled := true;
      nextSpawnX := 0.0;
      timer := 0.0;
      bossSpawned := false;
    }

    /** Every reference the spawner needs is assigned. */
    predicate Configured() {
      player != null && boss != null && hasObstaclePrefab && hasCollectiblePrefab
    }

    /** The spawner's retry test: a y drawn for the column at x lands closer than `minDistanceFromPlayer` to the player. */
    function TooClose(): real -> real -> bool
      requires player != null
      reads player
    {
      Avoiding(player.pos, minDistanceFromPlayer)
    }

    /**
     * Check the references: with one missing, switch the spawner off and do nothing else.
     * Otherwise put the cursor `firstSpawnOffsetX` in front of the player and hide the boss.
     */
    method Start(allBosses: LiveList<Boss>)
      modifies this`enabled, this`nextSpawnX, allBosses
      modifies if boss != null then {boss} else {}
      ensures !Configured() ==> !enabled && nextSpawnX == old(nextSpawnX) && allBosses.items == old(allBosses.items)
      ensures !Configured() && boss != null ==> boss.active == old(boss.active)
      ensures Configured() ==>
        && enabled == old(enabled)
        && nextSpawnX == player.pos.x + firstSpawnOffsetX
        && !boss.active
        && allBosses.items == (if old(boss.active) then RemoveFirst(old(allBosses.items), boss) else old(allBosses.items))
      ensures boss != null ==>
        boss.pos == old(boss.pos) && boss.fireTimer == old(boss.fireTimer) && boss.shotsFired == old(boss.shotsFired)
        && boss.player == old(boss.player) && boss.activationX == old(boss.activationX)
    {
      if player == null {
        enabled := false;
        return;
      }
      if boss == null {
        enabled := false;
        return;
      }
      if !hasObstaclePrefab || !hasCollectiblePrefab {
        enabled := false;
        return;
      }

      ghost var wasActive, listed := boss.active, allBosses.items;
      nextSpawnX := player.pos.x + firstSpawnOffsetX;

      boss.SetActive(false, allBosses);
      assert allBosses.items == if wasActive then RemoveFirst(listed, boss) else listed;
    }

    /**
     * One frame. The clock always advances. Once the boss is out nothing else happens.
     * Otherwise every column due ahead of the player is spawned, in order, and then, if
     * the clock has reached `timeToBoss`, the boss is brought in and the latch is set.
     * `draws` counts the random draws the frame's columns took.
     */
    method Update(dt: real, rng: nat -> real, allBosses: LiveList<Boss>)
      returns (columns: seq<Column>, draws: nat, ghost starts: seq<nat>)
      requires Configured() && 0.0 < spawnStepX
      modifies this`timer, this`nextSpawnX, this`bossSpawned, boss, allBosses
      ensures timer == old(timer) + dt
      ensures old(bossSpawned) ==>
        && bossSpawned && columns == [] && draws == 0 && starts == [0] && nextSpawnX == old(nextSpawnX)
        && boss.pos == old(boss.pos) && boss.active == old(boss.active) && allBosses.items == old(allBosses.items)
      ensures !old(bossSpawned) ==>
        var limit := player.pos.x + spawnAheadDistance;
        && Xs(columns) == DueColumns(old(nextSpawnX), spawnStepX, limit)
        && nextSpawnX == (if columns == [] then old(nextSpawnX) else columns[|columns| - 1].x + spawnStepX)
        && limit < nextSpawnX
        && ColumnsTook(TooClose(), rng, columns, starts, Count(obstaclesPerStep), Count(collectiblesPerStep)) && draws == starts[|columns|]
        && bossSpawned == (timer >= timeToBoss)
        && (timer >= timeToBoss ==>
              && boss.pos == Vec2(player.pos.x + bossSpawnAheadX, old(boss.pos.y))
              && boss.active
              && allBosses.items == (if old(boss.active) then old(allBosses.items) else Insert(old(allBosses.items), boss)))
        && (timer < timeToBoss ==>
              boss.pos == old(boss.pos) && boss.active == old(boss.active) && allBosses.items == old(allBosses.items))
      ensures boss.fireTimer == old(boss.fireTimer) && boss.shotsFired == old(boss.shotsFired)
      ensures boss.player == old(boss.player) && boss.activationX == old(boss.activationX)
    {
      timer := timer + dt;

      columns, draws, starts := [], 0, [0];
      if bossSpawned {
        return;
      }

      columns, draws, starts := SpawnAhead(rng);

      if timer >= timeToBoss {
        SpawnBossInFront(allBosses);
        bossSpawned := true;
      }
    }

    /**
     * The `while` loop of `Update`: spawn a column at the cursor and advance the cursor by
     * one step, for as long as the cursor is not beyond `spawnAheadDistance` in front of
     * the player. The columns take their draws one after another from `rng(0)` on.
     */
    method SpawnAhead(rng: nat -> real) returns (columns: seq<Column>, draws: nat, ghost starts: seq<nat>)
      requires player != null && 0.0 < spawnStepX
      modifies this`nextSpawnX
      ensures var limit := player.pos.x + spawnAheadDistance;
        && Xs(columns) == DueColumns(old(nextSpawnX), spawnStepX, limit)
        && nextSpawnX == (if columns == [] then old(nextSpawnX) else columns[|columns| - 1].x + spawnStepX)
        && limit < nextSpawnX
      ensures ColumnsTook(TooClose(), rng, columns, starts, Count(obstaclesPerStep), Count(collectiblesPerStep)) && draws == starts[|columns|]
    {
      columns, draws, starts := [], 0, [0];
      var playerX := player.pos.x;
      ghost var limit := playerX + spawnAheadDistance;
      ghost var due := DueColumns(nextSpawnX, spawnStepX, limit);
      ghost var tooClose := TooClose();
      DueColumnsNext(nextSpawnX, spawnStepX, limit, 0);

      while playerX + spawnAheadDistance >= nextSpawnX
        invariant |columns| <= |due|
        invariant forall i :: 0 <= i < |columns| ==> columns[i].x == due[i]
        invariant |columns| < |due| ==> nextSpawnX == due[|columns|]
        invariant |columns| == |due| ==> limit < nextSpawnX
        invariant nextSpawnX == if columns == [] then old(nextSpawnX) else columns[|columns| - 1].x + spawnStepX
        invariant ColumnsTook(tooClose, rng, columns, starts, Count(obstaclesPerStep), Count(collectiblesPerStep)) && draws == starts[|columns|]
        decreases |due| - |columns|
      {
        DueColumnsNext(old(nextSpawnX), spawnStepX, limit, |columns|);
        var column, used := SpawnColumn(nextSpawnX, rng, draws);
        ColumnsTookStep(tooClose, rng, columns, starts, column, used, Count(obstaclesPerStep), Count(collectiblesPerStep));
        columns := columns + [column];
        draws := draws + used;
        starts := starts + [draws];
        nextSpawnX := nextSpawnX + spawnStepX;
      }
      if |columns| < |due| {
        DueColumnsNext(old(nextSpawnX), spawnStepX, limit, |columns|);
      }
      assert Xs(columns) == due;
    }

    /**
     * Spawn the column at `x`: first the obstacles, then the collectibles, each placed by
     * the retry rule from the draw where the one before it left off, the first from
     * `rng(start)`. `used` is how many draws the column took.
     */
    method SpawnColumn(x: real, rng: nat -> real, start: nat) returns (column: Column, used: nat)
      requires player != null
      ensures column.x == x
      ensures ColumnTook(TooClose()(x), rng, start, column, used, Count(obstaclesPerStep), Count(collectiblesPerStep))
    {
      ghost var tooClose := TooClose()(x);
      // `marks[j]` is the draw the `j`-th item placed so far started from
      ghost var marks: seq<nat> := [start];
      var cursor := start;

      var obstacleYs: seq<real> := [];
      var i := 0;
      while i < obstaclesPerStep
        invariant i == |obstacleYs| <= Count(obstaclesPerStep)
        invariant PlacedRun(tooClose, rng, obstacleYs, marks) && marks[0] == start && cursor == marks[|obstacleYs|]
      {
        var y, n := PlaceItem(x, rng, cursor);
        PlacedRunStep(tooClose, rng, obstacleYs, marks, y, n);
        obstacleYs := obstacleYs + [y];
        cursor := cursor + n;
        marks := marks + [cursor];
        i := i + 1;
      }

      var collectibleYs: seq<real> := [];
      assert obstacleYs + collectibleYs == obstacleYs;
      i := 0;
      while i < collectiblesPerStep
        invariant i == |collectibleYs| <= Count(collectiblesPerStep)
        invariant PlacedRun(tooClose, rng, obstacleYs + collectibleYs, marks) && marks[0] == start
        invariant cursor == marks[|obstacleYs + collectibleYs|]
      {
        var y, n := PlaceItem(x, rng, cursor);
        PlacedRunStep(tooClose, rng, obstacleYs + collectibleYs, marks, y, n);
        assert obstacleYs + collectibleYs + [y] == obstacleYs + (collectibleYs + [y]);
        collectibleYs := collectibleYs + [y];
        cursor := cursor + n;
        marks := marks + [cursor];
        i := i + 1;
      }

      column := Column(x, obstacleYs, collectibleYs);
      PlacedRunBounds(tooClose, rng, obstacleYs + collectibleYs, marks, minY, maxY);
      used := cursor - start;
      assert PlacedRun(tooClose, rng, column.obstacleYs + column.collectibleYs, marks) && Taken(marks) == used;
    }

    /**
     * Place one item in the column at `x`: draw y until it is at least
     * `minDistanceFromPlayer` from the player, giving up after the eleventh draw and
     * keeping that one. The draws are `rng(start)`, `rng(start + 1)`, ...; `used` counts them.
     */
    method PlaceItem(x: real, rng: nat -> real, start: nat) returns (y: real, used: nat)
      requires player != null
      ensures Placed(TooClose()(x), rng, start, used, y)
    {
      var tooClose := TooClose()(x);
      var attempts := 0;
      while true
        invariant 0 <= attempts < MaxDraws
        invariant forall k :: start <= k < start + attempts ==> tooClose(rng(k))
        decreases MaxDraws - attempts
      {
        y := rng(start + attempts);
        attempts := attempts + 1;
        if attempts > 10 {
          break;
        }
        if !tooClose(y) {
          break;
        }
      }
      used := attempts;
    }

    /** Put the boss `bossSpawnAheadX` in front of the player, at its own height, and activate it. */
    method SpawnBossInFront(allBosses: LiveList<Boss>)
      requires player != null && boss != null
      modifies boss, allBosses
      ensures boss.pos == Vec2(player.pos.x + bossSpawnAheadX, old(boss.pos.y))
      ensures boss.active
      ensures allBosses.items == if old(boss.active) then old(allBosses.items) else Insert(old(allBosses.items), boss)
      ensures boss.fireTimer == old(boss.fireTimer) && boss.shotsFired == old(boss.shotsFired)
      ensures boss.player == old(boss.player) && boss.activationX == old(boss.activationX)
    {
      boss.pos := Vec2(player.pos.x + bossSpawnAheadX, boss.pos.y);
      boss.SetActive(true, allBosses);
    }
  }
}
