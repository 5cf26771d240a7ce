/**
 The list of active block runs.

 A run is a stretch of the window that lies in one block in consecutive slots. A cache keeps the
 list up to date as tokens come and go; the list it keeps must always be the one that would be
 rebuilt from the window alone.
 */
module BlockRuns {
  import opened Geometry

  datatype BlockRun = BlockRun(blockIndex: nat, blockId: nat, logicalStart: nat, physicalStart: nat, blockStart: nat,
                               count: nat)
  {
    /** Token `x` comes right after this run, in the same block. */
    predicate CanExtend(x: BlockRun) {
      && blockIndex == x.blockIndex && blockId == x.blockId
      && logicalStart + count == x.logicalStart && physicalStart + count == x.physicalStart &&
         blockStart + count == x.blockStart
    }
  }

  /** The run of one token: logical index `l` at physical slot `p`. */
  function Single(table: seq<nat>, l: nat, p: nat): BlockRun
    requires p / BLOCK < |table|
  {
    BlockRun(p / BLOCK, table[p / BLOCK], l, p, p % BLOCK, 1)
  }

  /** Adds a token to the last run, or as a run of its own. */
  function Add(runs: seq<BlockRun>, x: BlockRun): (r: seq<BlockRun>) {
    if runs != [] && runs[|runs| - 1].CanExtend(x) then
      runs[|runs| - 1 := runs[|runs| - 1].(count := runs[|runs| - 1].count + 1)]
    else
      runs + [x]
  }

  function Extend(runs: seq<BlockRun>, table: seq<nat>, l: nat, p: nat): (r: seq<BlockRun>)
    requires p / BLOCK < |table|
  {
    Add(runs, Single(table, l, p))
  }

  /** Removes the oldest token and renumbers what is left. */
  function DropOldest(runs: seq<BlockRun>): (r: seq<BlockRun>)
    requires runs != [] && runs[0].count > 0
  {
    Renumbered(Shortened(runs))
  }

  function Shortened(runs: seq<BlockRun>): (r: seq<BlockRun>)
    requires runs != [] && runs[0].count > 0
  {
    var first := runs[0];
    if first.count == 1 then runs[1..]
    else runs[0 := first.(physicalStart := first.physicalStart + 1, blockStart := first.blockStart + 1,
                          count := first.count - 1)]
  }

  function Earlier(r: BlockRun): BlockRun {
    r.(logicalStart := if r.logicalStart == 0 then 0 else r.logicalStart - 1)
  }

  function Renumbered(runs: seq<BlockRun>): (r: seq<BlockRun>)
    ensures |r| == |runs|
  {
    seq(|runs|, k requires 0 <= k < |runs| => Earlier(runs[k]))
  }

  /** Gives the runs of block `i` a new block id. */
  function WithId(runs: seq<BlockRun>, i: nat, id: nat): (r: seq<BlockRun>)
    ensures |r| == |runs|
  {
    seq(|runs|, k requires 0 <= k < |runs| => if runs[k].blockIndex == i then runs[k].(blockId := id) else runs[k])
  }

  /** The list rebuilt token by token from the window: `n` tokens from slot `start` of a ring of `max`. */
  function Rebuilt(table: seq<nat>, start: nat, n: nat, max: nat): (r: seq<BlockRun>)
    requires |table| == NumBlocks(max) && start < max
  {
    if n == 0 then [] else Extend(Rebuilt(table, start, n - 1, max), table, n - 1, Slot(start, n - 1, max))
  }

  /** The runs follow each other without gap or overlap from 0 to `n`. */
  ghost predicate Partitions(runs: seq<BlockRun>, n: nat) {
    && (forall k :: 0 <= k < |runs| ==> runs[k].count > 0)
    && (forall k :: 0 < k < |runs| ==> runs[k].logicalStart == runs[k - 1].logicalStart + runs[k - 1].count)
    && (runs == [] ==> n == 0)
    && (runs != [] ==> runs[0].logicalStart == 0 && runs[|runs| - 1].logicalStart + runs[|runs| - 1].count == n)
  }

  /** Token `j` of the run is where the window has it: right block, right id, right slot. */
  ghost predicate Locates(r: BlockRun, table: seq<nat>, start: nat, max: nat, j: nat)
    requires max > 0
  {
    var p := Slot(start, r.logicalStart + j, max);
    && r.blockIndex == p / BLOCK < |table| && r.blockId == table[r.blockIndex]
    && r.physicalStart + j == p && r.blockStart + j == p % BLOCK
  }

  ghost predicate Located(runs: seq<BlockRun>, table: seq<nat>, start: nat, max: nat)
    requires max > 0
  {
    forall k, j :: 0 <= k < |runs| && 0 <= j < runs[k].count ==> Locates(runs[k], table, start, max, j)
  }

  lemma AddPartitions(runs: seq<BlockRun>, n: nat, x: BlockRun)
    requires Partitions(runs, n) && x.logicalStart == n && x.count == 1
    ensures Partitions(Add(runs, x), n + 1)
  {
  }

  lemma ExtendLocated(runs: seq<BlockRun>, table: seq<nat>, start: nat, n: nat, max: nat)
    requires max > 0 && |table| == NumBlocks(max) && Located(runs, table, start, max)
    ensures Located(Extend(runs, table, n, Slot(start, n, max)), table, start, max)
  {
    hide Slot;
    var p := Slot(start, n, max);
    var r := Extend(runs, table, n, p);
    forall k, j | 0 <= k < |r| && 0 <= j < r[k].count ensures Locates(r[k], table, start, max, j) {
      if k < |runs| && j < runs[k].count {
        assert Locates(runs[k], table, start, max, j);
      } else {
        assert r[k].logicalStart + j == n && r[k].physicalStart + j == p && r[k].blockStart + j == p % BLOCK;
      }
    }
  }

  /** The rebuilt runs cut the window into consecutive stretches, in order, and say where each token is. */
  lemma {:induction false} RebuiltCovers(table: seq<nat>, start: nat, n: nat, max: nat)
    requires |table| == NumBlocks(max) && start < max
    ensures Partitions(Rebuilt(table, start, n, max), n) && Located(Rebuilt(table, start, n, max), table, start, max)
  {
    hide Slot, Add;
    if n > 0 {
      hide Partitions, Located;
      RebuiltCovers(table, start, n - 1, max);
      AddPartitions(Rebuilt(table, start, n - 1, max), n - 1, Single(table, n - 1, Slot(start, n - 1, max)));
      ExtendLocated(Rebuilt(table, start, n - 1, max), table, start, n - 1, max);
    }
  }

  lemma RenumberedParts(runs: seq<BlockRun>, x: BlockRun)
    ensures Renumbered(runs + [x]) == Renumbered(runs) + [Earlier(x)]
    ensures runs != [] ==> Renumbered(runs[|runs| - 1 := x]) == Renumbered(runs)[|runs| - 1 := Earlier(x)]
  {
  }

  lemma ShortenedParts(runs: seq<BlockRun>, x: BlockRun)
    requires runs != [] && runs[0].count > 0
    ensures Shortened(runs + [x]) == Shortened(runs) + [x]
    ensures |runs| > 1 ==> Shortened(runs)[|Shortened(runs)| - 1] == runs[|runs| - 1]
    ensures |runs| > 1 ==> Shortened(runs[|runs| - 1 := x]) == Shortened(runs)[|Shortened(runs)| - 1 := x]
  {
  }

  lemma DropOldestAddOne(last: BlockRun, x: BlockRun)
    requires last.count > 0 && x.count == 1 && x.logicalStart == last.logicalStart + last.count &&
      last.logicalStart == 0
    ensures DropOldest(Add([last], x)) == Add(DropOldest([last]), Earlier(x))
  {
    if last.CanExtend(x) {
      assert Add([last], x) == [last.(count := last.count + 1)];
    } else {
      assert Add([last], x) == [last, x];
    }
  }

  lemma DropOldestAddMany(runs: seq<BlockRun>, x: BlockRun)
    requires |runs| > 1 && runs[0].count > 0
    requires x.count == 1 && x.logicalStart == runs[|runs| - 1].logicalStart + runs[|runs| - 1].count &&
      runs[|runs| - 1].logicalStart > 0
    ensures DropOldest(Add(runs, x)) == Add(DropOldest(runs), Earlier(x))
  {
    var last := runs[|runs| - 1];
    var longer := last.(count := last.count + 1);
    var kept := Shortened(runs);
    ShortenedParts(runs, x);
    ShortenedParts(runs, longer);
    hide Shortened;
    RenumberedParts(kept, x);
    RenumberedParts(kept, longer);
    assert Renumbered(kept)[|kept| - 1] == Earlier(last);
  }

  /** Dropping the oldest token and adding the newest can be done in either order. */
  lemma DropOldestAdd(runs: seq<BlockRun>, n: nat, x: BlockRun)
    requires runs != [] && Partitions(runs, n) && x.logicalStart == n && x.count == 1
    ensures n > 0 && Add(runs, x) != [] && Add(runs, x)[0].count > 0 && runs[0].count > 0
    ensures DropOldest(Add(runs, x)) == Add(DropOldest(runs), Earlier(x))
  {
    hide DropOldest;
    StartsGrow(runs, n, |runs| - 1);
    if |runs| == 1 {
      assert runs == [runs[0]];
      DropOldestAddOne(runs[0], x);
    } else {
      DropOldestAddMany(runs, x);
    }
  }

  lemma {:induction false} StartsGrow(runs: seq<BlockRun>, n: nat, k: nat)
    requires Partitions(runs, n) && k < |runs|
    ensures k <= runs[k].logicalStart
  {
    if k > 0 { StartsGrow(runs, n, k - 1); }
  }

  /** Dropping the oldest token of the kept list gives the list rebuilt from the moved window. */
  lemma {:induction false} DropOldestIsRebuilt(table: seq<nat>, start: nat, n: nat, max: nat)
    requires |table| == NumBlocks(max) && start < max && 0 < n <= max
    ensures var runs := Rebuilt(table, start, n, max);
            && runs != [] && runs[0].count > 0
            && DropOldest(runs) == Rebuilt(table, Slot(start, 1, max), n - 1, max)
  {
    if n > 1 {
      hide Slot, Add, DropOldest, Partitions, Located;
      var before := Rebuilt(table, start, n - 1, max);
      var x := Single(table, n - 1, Slot(start, n - 1, max));
      RebuiltCovers(table, start, n - 1, max);
      DropOldestIsRebuilt(table, start, n - 1, max);
      DropOldestAdd(before, n - 1, x);
      NextSlot(start, n - 1, max);
      assert Rebuilt(table, start, n, max) == Add(before, x);
      assert Earlier(x) == Single(table, n - 2, Slot(Slot(start, 1, max), n - 2, max));
    } else {
      assert Rebuilt(table, start, 0, max) == [];
    }
  }

  lemma NextSlot(start: nat, l: nat, max: nat)
    requires start < max && 0 < l <= max
    ensures Slot(Slot(start, 1, max), l - 1, max) == Slot(start, l, max)
  {
    hide Slot;
    SlotWraps(start, 1, max);
    SlotWraps(start, l, max);
    SlotWraps(Slot(start, 1, max), l - 1, max);
  }

  lemma WithIdExtend(runs: seq<BlockRun>, table: seq<nat>, l: nat, p: nat, i: nat, id: nat)
    requires p / BLOCK < |table| && i < |table|
    requires forall k :: 0 <= k < |runs| ==>
      runs[k].blockIndex < |table| && runs[k].blockId == table[runs[k].blockIndex]
    ensures WithId(Extend(runs, table, l, p), i, id) == Extend(WithId(runs, i, id), table[i := id], l, p)
  {
  }

  /** Refreshing the ids of a forked block gives the list rebuilt with the new block table. */
  lemma {:induction false} WithIdIsRebuilt(table: seq<nat>, start: nat, n: nat, max: nat, i: nat, id: nat)
    requires |table| == NumBlocks(max) && start < max && i < |table|
    ensures WithId(Rebuilt(table, start, n, max), i, id) == Rebuilt(table[i := id], start, n, max)
  {
    hide Slot, Extend;
    if n > 0 {
      WithIdIsRebuilt(table, start, n - 1, max, i, id);
      var runs := Rebuilt(table, start, n - 1, max);
      RebuiltCovers(table, start, n - 1, max);
      forall k | 0 <= k < |runs| ensures runs[k].blockIndex < |table| && runs[k].blockId == table[runs[k].blockIndex] {
        assert Locates(runs[k], table, start, max, 0);
      }
      WithIdExtend(runs, table, n - 1, Slot(start, n - 1, max), i, id);
    }
  }

  /** How many runs the first `n` tokens can make: one per block touched, and one more for the wrap. */
  function RunBound(start: nat, n: nat, max: nat): nat
    requires start < max && 0 < n <= max
  {
    var last := start + n - 1;
    if last < max then last / BLOCK - start / BLOCK + 1
    else (max - 1) / BLOCK - start / BLOCK + 1 + (last - max) / BLOCK + 1
  }

  /** A token in the slot after its predecessor's, and in the same block, joins its run. */
  lemma SameRun(table: seq<nat>, start: nat, n: nat, max: nat)
    requires |table| == NumBlocks(max) && start < max && 0 < n <= max
    requires var p, q := Slot(start, n - 1, max), Slot(start, n, max); q == p + 1 && q / BLOCK == p / BLOCK
    ensures |Rebuilt(table, start, n + 1, max)| == |Rebuilt(table, start, n, max)|
  {
    hide Slot;
    RebuiltCovers(table, start, n, max);
    var runs := Rebuilt(table, start, n, max);
    var last := runs[|runs| - 1];
    assert Locates(last, table, start, max, last.count - 1);
  }

  lemma {:induction false} RunsWithinBound(table: seq<nat>, start: nat, n: nat, max: nat)
    requires |table| == NumBlocks(max) && start < max && 0 < n <= max
    ensures |Rebuilt(table, start, n, max)| <= RunBound(start, n, max)
  {
    hide Slot, Partitions;
    if n > 1 {
      RunsWithinBound(table, start, n - 1, max);
      var p, q := Slot(start, n - 2, max), Slot(start, n - 1, max);
      if q == p + 1 && q / BLOCK == p / BLOCK {
        SameRun(table, start, n - 1, max);
      }
      assert |Rebuilt(table, start, n, max)| <= |Rebuilt(table, start, n - 1, max)| +
        if q == p + 1 && q / BLOCK == p / BLOCK then 0 else 1;
      BoundGrows(start, n, max);
    } else {
      assert Rebuilt(table, start, 0, max) == [];
    }
  }

  lemma BoundGrows(start: nat, n: nat, max: nat)
    requires start < max && 1 < n <= max
    ensures var p, q := Slot(start, n - 2, max), Slot(start, n - 1, max);
            var gained := if q == p + 1 && q / BLOCK == p / BLOCK then 0 else 1;
            RunBound(start, n - 1, max) + gained <= RunBound(start, n, max)
  {
    hide Slot;
    SlotWraps(start, n - 2, max);
    SlotWraps(start, n - 1, max);
  }

  /** There are never more runs than blocks plus one. */
  lemma RunCount(table: seq<nat>, start: nat, n: nat, max: nat)
    requires |table| == NumBlocks(max) && start < max && n <= max
    ensures |Rebuilt(table, start, n, max)| <= |table| + 1
  {
    if n > 0 {
      RunsWithinBound(table, start, n, max);
    }
  }
}
