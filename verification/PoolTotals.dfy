/** Totals over the blocks and sessions of a pool. */
module PoolTotals {
  import opened Common
  import opened TokenWindow
  import opened PoolState

  /** The sum of `f` over `keys`. */
  ghost function Sum(f: map<nat, nat>, keys: set<nat>): nat
    requires keys <= f.Keys
  {
    if keys == {} then 0
    else
      var k :| k in keys;
      f[k] + Sum(f, keys - {k})
  }

  /** The sum does not depend on the order of summation. */
  lemma {:induction false} SumAt(f: map<nat, nat>, keys: set<nat>, k: nat)
    requires keys <= f.Keys && k in keys
    ensures Sum(f, keys) == f[k] + Sum(f, keys - {k})
    decreases |keys|
  {
    var first :| first in keys && Sum(f, keys) == f[first] + Sum(f, keys - {first});
    if first != k {
      SumAt(f, keys - {first}, k);
      SumAt(f, keys - {k}, first);
      assert keys - {first} - {k} == keys - {k} - {first};
    }
  }

  /** Sums add up when the terms do. */
  lemma {:induction false} SumOfSums(f: map<nat, nat>, g: map<nat, nat>, h: map<nat, nat>, keys: set<nat>)
    requires keys <= f.Keys && keys <= g.Keys && keys <= h.Keys && forall k :: k in keys ==> f[k] == g[k] + h[k]
    ensures Sum(f, keys) == Sum(g, keys) + Sum(h, keys)
    decreases |keys|
  {
    if keys != {} {
      var k :| k in keys;
      SumAt(f, keys, k);
      SumAt(g, keys, k);
      SumAt(h, keys, k);
      SumOfSums(f, g, h, keys - {k});
    }
  }

  lemma {:induction false} SumOfZeros(f: map<nat, nat>, keys: set<nat>)
    requires keys <= f.Keys && forall k :: k in keys ==> f[k] == 0
    ensures Sum(f, keys) == 0
    decreases |keys|
  {
    if keys != {} {
      var k :| k in keys;
      SumAt(f, keys, k);
      SumOfZeros(f, keys - {k});
    }
  }

  /** Counting the elements of a part one by one gives its size. */
  lemma {:induction false} SumCounts(f: map<nat, nat>, keys: set<nat>, part: set<nat>)
    requires keys <= f.Keys && part <= keys && forall k :: k in keys ==> f[k] == if k in part then 1 else 0
    ensures Sum(f, keys) == |part|
    decreases |keys|
  {
    if keys != {} {
      var k :| k in keys;
      SumAt(f, keys, k);
      SumCounts(f, keys - {k}, part - {k});
      assert part == if k in part then (part - {k}) + {k} else part - {k};
    }
  }

  lemma {:induction false} SumSame(f: map<nat, nat>, g: map<nat, nat>, keys: set<nat>)
    requires keys <= f.Keys && keys <= g.Keys && forall k :: k in keys ==> f[k] == g[k]
    ensures Sum(f, keys) == Sum(g, keys)
    decreases |keys|
  {
    if keys != {} {
      var k :| k in keys;
      SumAt(f, keys, k);
      SumAt(g, keys, k);
      SumSame(f, g, keys - {k});
    }
  }

  // ---------------------------------------------------------------- references

  ghost function RefCounts(blocks: Blocks): map<nat, nat> {
    map b | b in blocks :: blocks[b].refCount
  }

  ghost function OwnerCounts(blocks: Blocks, sessions: Sessions): map<nat, nat> {
    map b | b in blocks :: |Owners(sessions, b)|
  }

  ghost function OwnedCounts(sessions: Sessions): map<nat, nat> {
    map s | s in sessions :: |sessions[s].owned|
  }

  ghost function TableCounts(sessions: Sessions): map<nat, nat> {
    map s | s in sessions :: |sessions[s].table|
  }

  /** Every ownership is counted once, from the blocks' side or from the sessions' side. */
  lemma {:induction false} OwnershipCountedTwice(blocks: Blocks, sessions: Sessions)
    requires forall s :: s in sessions ==> sessions[s].owned <= blocks.Keys
    ensures Sum(OwnerCounts(blocks, sessions), blocks.Keys) == Sum(OwnedCounts(sessions), sessions.Keys)
    decreases |sessions|
  {
    if sessions == map[] {
      forall b | b in blocks ensures OwnerCounts(blocks, sessions)[b] == 0 {
        assert Owners(sessions, b) == {};
      }
      SumOfZeros(OwnerCounts(blocks, sessions), blocks.Keys);
    } else {
      var s :| s in sessions;
      var rest := sessions - {s};
      assert rest.Keys == sessions.Keys - {s};
      OwnershipCountedTwice(blocks, rest);
      OneSessionLess(blocks, sessions, s);
      SumAt(OwnedCounts(sessions), sessions.Keys, s);
      SumSame(OwnedCounts(sessions), OwnedCounts(rest), rest.Keys);
    }
  }

  lemma OneSessionLess(blocks: Blocks, sessions: Sessions, s: SessionId)
    requires s in sessions && sessions[s].owned <= blocks.Keys
    ensures Sum(OwnerCounts(blocks, sessions), blocks.Keys)
         == Sum(OwnerCounts(blocks, sessions - {s}), blocks.Keys) + |sessions[s].owned|
  {
    var rest := sessions - {s};
    var own: map<nat, nat> := map b | b in blocks :: if b in sessions[s].owned then 1 else 0;
    forall b | b in blocks ensures |Owners(sessions, b)| == |Owners(rest, b)| + own[b] {
      assert Owners(sessions, b) == if b in sessions[s].owned then Owners(rest, b) + {s} else Owners(rest, b);
    }
    SumOfSums(OwnerCounts(blocks, sessions), OwnerCounts(blocks, rest), own, blocks.Keys);
    SumCounts(own, blocks.Keys, sessions[s].owned);
  }

  /** Conservation in total: all reference counts together are all ownerships and all references callers hold. */
  lemma ReferencesAddUp(blocks: Blocks, free: seq<BlockId>, sessions: Sessions, external: Holds)
    requires Conserved(blocks, free, sessions, external)
    ensures Sum(RefCounts(blocks), blocks.Keys) ==
      Sum(OwnedCounts(sessions), sessions.Keys) + Sum(external, external.Keys)
  {
    forall s | s in sessions ensures sessions[s].owned <= blocks.Keys {
      assert SessionOk(s, sessions[s], blocks);
    }
    forall b | b in blocks ensures RefCounts(blocks)[b] == OwnerCounts(blocks, sessions)[b] + external[b] {
      assert Counted(blocks, sessions, external, b);
    }
    OwnershipCountedTwice(blocks, sessions);
    SumOfSums(RefCounts(blocks), OwnerCounts(blocks, sessions), external, blocks.Keys);
  }
}
