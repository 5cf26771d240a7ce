/** Whole runs of the block pool, under callers that give back only references they hold. */
module PoolRuns {
  import opened Common
  import opened TokenWindow
  import opened PoolState
  import opened Pool

  datatype Call =
    | Allocate
    | Retain(b: BlockId)
    | Release(b: BlockId)
    | CreateSession
    | ReleaseSession(s: SessionId)
    | AllocateForSession(s: SessionId)
    | AppendBlock(s: SessionId, b: BlockId)
    | ReadBlock(s: SessionId, index: nat)
    | Touch(b: BlockId)
    | LruBlock
    | LookupPrefix(hash: Hash)
    | CopyOnWrite(s: SessionId, index: nat)
    | AppendRow(b: BlockId, t: Token)
    | SetHash(b: BlockId, tag: Option<Hash>)
    | RegisterPrefix(hash: Hash, ids: seq<BlockId>)
    | AttachPrefix(s: SessionId, hash: Hash)

  predicate MovesReferences(call: Call) {
    call.Allocate? || call.Retain? || call.Release?
  }

  predicate ForSession(call: Call) {
    || call.CreateSession? || call.ReleaseSession? || call.AllocateForSession? || call.AppendBlock? || call.ReadBlock?
    || call.CopyOnWrite? || call.AttachPrefix?
  }

  /** The calls that may raise a peak. */
  predicate GivesBlocks(call: Call) {
    call.AllocateForSession? || call.AppendBlock? || call.CopyOnWrite? || call.AttachPrefix?
  }

  /** The calls that may change what is registered under a hash. */
  predicate Registers(call: Call, h: Hash) {
    call.RegisterPrefix? && call.hash == h
  }

  /** One call by callers that keep track in `held` of the references they were given: a release they are not
      entitled to, or a label that does not name the block's contents, is not made. */
  method Perform(pool: BlockPool, call: Call, held: Holds) returns (after: Holds)
    requires pool.Valid() && held == pool.external
    modifies pool
    ensures pool.Valid() && after == pool.external
    ensures PeaksReached(old(pool.metrics), pool.metrics, pool.blocks, pool.freeList)
    ensures forall h :: h in old(pool.prefixes) && !Registers(call, h) ==>
      h in pool.prefixes && pool.prefixes[h] == old(pool.prefixes)[h]
  {
    hide PoolOk, PeaksReached, ClockOk;
    if MovesReferences(call) {
      after := PerformOnReferences(pool, call, held);
    } else {
      after := held;
      if GivesBlocks(call) {
        PerformOnTables(pool, call);
      } else if ForSession(call) {
        PerformForSession(pool, call);
        PeaksMoved(old(pool.metrics), pool.metrics, pool.blocks, pool.freeList);
      } else {
        PerformOnBlocks(pool, call);
      }
    }
  }

  method PerformOnReferences(pool: BlockPool, call: Call, held: Holds) returns (after: Holds)
    requires pool.Valid() && held == pool.external && MovesReferences(call)
    modifies pool
    ensures pool.Valid() && after == pool.external
    ensures PeaksReached(old(pool.metrics), pool.metrics, pool.blocks, pool.freeList)
    ensures pool.prefixes == old(pool.prefixes)
  {
    hide PoolOk, PeaksReached, Released, Owners, ClockOk;
    HoldsCover(pool.blocks, pool.freeList, pool.sessions, pool.external, pool.names, pool.metrics);
    hide Conserved, PeaksBound;
    after := held;
    ghost var m := pool.metrics;
    match call {
      case Allocate =>
        var r := pool.Allocate();
        if r.Some? { after := held[r.value := 1]; }
      case Retain(b) =>
        var r := pool.Retain(b);
        if r { after := held[b := held[b] + 1]; }
      case Release(b) =>
        after := ReleaseIfHeld(pool, b, held);
        PeaksMoved(m, pool.metrics, pool.blocks, pool.freeList);
    }
  }

  method ReleaseIfHeld(pool: BlockPool, b: BlockId, held: Holds) returns (after: Holds)
    requires pool.Valid() && held == pool.external
    modifies pool`blocks, pool`freeList, pool`external
    ensures pool.Valid() && after == pool.external
  {
    hide PoolOk, Released, ClockOk;
    after := held;
    if b in held && held[b] > 0 {
      var r := pool.Release(b);
      after := if r then held[b := held[b] - 1] else held;
    }
  }

  method PerformForSession(pool: BlockPool, call: Call)
    requires pool.Valid() && ForSession(call) && !GivesBlocks(call)
    modifies pool
    ensures pool.Valid() && pool.external == old(pool.external)
    ensures pool.prefixes == old(pool.prefixes) && pool.metrics == old(pool.metrics)
  {
    hide PoolOk, KeptIfHeld, AfterDrop, ClockOk, JustUsed, FreedBy;
    match call {
      case CreateSession =>
        var _ := pool.CreateSession();
      case ReleaseSession(s) =>
        var _ := pool.ReleaseSession(s);
      case ReadBlock(s, index) =>
        var _ := pool.ReadSessionBlock(s, index);
    }
  }

  method PerformOnTables(pool: BlockPool, call: Call)
    requires pool.Valid() && GivesBlocks(call)
    modifies pool
    ensures pool.Valid() && pool.external == old(pool.external)
    ensures PeaksReached(old(pool.metrics), pool.metrics, pool.blocks, pool.freeList)
    ensures pool.prefixes == old(pool.prefixes)
  {
    hide PoolOk, PeaksReached, CopyMade, Attached, KeptIfHeld, EvictedInOrder, AfterDrop, HeldByOrExternal;
    hide StillMatches, ClockOk, JustUsed, AppendedNow, UsedSince, Appended, Shared, Candidate, Without, FreedBy;
    match call {
      case AllocateForSession(s) =>
        var r, evicted := pool.AllocateForSession(s);
      case AppendBlock(s, b) =>
        var _ := pool.AppendBlockToSession(s, b);
      case CopyOnWrite(s, index) =>
        var r, evicted := pool.CopyOnWrite(s, index);
      case AttachPrefix(s, hash) =>
        var _ := pool.AttachPrefix(s, hash);
    }
  }

  method PerformOnBlocks(pool: BlockPool, call: Call)
    requires pool.Valid() && !MovesReferences(call) && !ForSession(call)
    modifies pool
    ensures pool.Valid() && pool.external == old(pool.external)
    ensures PeaksReached(old(pool.metrics), pool.metrics, pool.blocks, pool.freeList)
    ensures forall h :: h in old(pool.prefixes) && !Registers(call, h) ==>
      h in pool.prefixes && pool.prefixes[h] == old(pool.prefixes)[h]
  {
    hide PoolOk, PeaksReached, StillMatches, ClockOk;
    ghost var m := pool.metrics;
    match call {
      case Touch(b) =>
        var _ := pool.Touch(b);
      case LruBlock =>
        var _ := pool.LruBlock();
      case AppendRow(b, t) =>
        var _ := pool.AppendRow(b, t);
      case SetHash(b, hash) =>
        if b in pool.blocks && hash.Some? ==> pool.blocks[b].rows == pool.names(hash.value) {
          var _ := pool.SetHash(b, hash);
        }
      case RegisterPrefix(hash, ids) =>
        pool.RegisterPrefix(hash, ids);
      case LookupPrefix(hash) =>
        var _ := pool.LookupPrefix(hash);
    }
    PeaksMoved(m, pool.metrics, pool.blocks, pool.freeList);
  }

  /** The recorded peaks are exact for the states `trace` passed through after peaks `start`: no state exceeds
      them, and each is its starting value or is reached by some state. */
  ghost predicate PeaksExact(start: Metrics, m: Metrics, trace: seq<Blocks>) {
    && (forall i :: 0 <= i < |trace| ==> |Used(trace[i])| <= m.highWater && RefsWithin(trace[i], m.maxRef))
    && (m.highWater == start.highWater || exists i :: 0 <= i < |trace| && |Used(trace[i])| == m.highWater)
    && (m.maxRef == start.maxRef || exists i :: 0 <= i < |trace| && ReachesRef(trace[i], m.maxRef))
    && m.highWater >= start.highWater && m.maxRef >= start.maxRef
  }

  ghost predicate RefsWithin(blocks: Blocks, top: nat) {
    forall b :: b in blocks ==> blocks[b].refCount <= top
  }

  ghost predicate ReachesRef(blocks: Blocks, top: nat) {
    exists b :: b in blocks && blocks[b].refCount == top
  }

  lemma PeaksExtend(start: Metrics, m0: Metrics, m: Metrics, trace: seq<Blocks>, blocks: Blocks, free: seq<BlockId>)
    requires PeaksExact(start, m0, trace) && PeaksReached(m0, m, blocks, free) && PeaksBound(m, blocks, free)
    requires |blocks| - |free| == |Used(blocks)|
    ensures PeaksExact(start, m, trace + [blocks])
  {
    var longer := trace + [blocks];
    assert longer[|trace|] == blocks;
    assert forall i :: 0 <= i < |trace| ==> longer[i] == trace[i];
    forall i | 0 <= i < |longer| ensures |Used(longer[i])| <= m.highWater && RefsWithin(longer[i], m.maxRef) {
      if i < |trace| {
        assert RefsWithin(trace[i], m0.maxRef);
      }
    }
    if m.maxRef != m0.maxRef {
      assert ReachesRef(longer[|trace|], m.maxRef);
    }
  }

  lemma PeaksStart(m: Metrics, blocks: Blocks, free: seq<BlockId>)
    requires PeaksBound(m, blocks, free) && |blocks| - |free| == |Used(blocks)|
    ensures PeaksExact(m, m, [blocks])
  {
  }

  /** Any sequence of calls leaves the accounting balanced, labels truthful and the recorded peaks exact over
      all the states passed through. */
  method RunAll(pool: BlockPool, calls: seq<Call>, held: Holds) returns (after: Holds, ghost trace: seq<Blocks>)
    requires pool.Valid() && held == pool.external
    modifies pool
    ensures pool.Valid() && after == pool.external
    ensures |trace| == |calls| + 1 && trace[0] == old(pool.blocks) && trace[|calls|] == pool.blocks
    ensures PeaksExact(old(pool.metrics), pool.metrics, trace)
    ensures forall h :: h in old(pool.prefixes) && (forall i :: 0 <= i < |calls| ==> !Registers(calls[i], h)) ==>
      h in pool.prefixes && pool.prefixes[h] == old(pool.prefixes)[h]
  {
    hide PoolOk, PeaksReached, PeaksBound, Conserved, PeaksExact, Used, ClockOk;
    ResidentIsCounted(pool.blocks, pool.freeList, pool.sessions, pool.external, pool.names, pool.metrics);
    HoldsCover(pool.blocks, pool.freeList, pool.sessions, pool.external, pool.names, pool.metrics);
    trace, after := [pool.blocks], held;
    PeaksStart(pool.metrics, pool.blocks, pool.freeList);
    for i := 0 to |calls|
      invariant pool.Valid() && after == pool.external
      invariant |trace| == i + 1 && trace[0] == old(pool.blocks) && trace[i] == pool.blocks
      invariant PeaksExact(old(pool.metrics), pool.metrics, trace)
      invariant forall h :: h in old(pool.prefixes) && (forall j :: 0 <= j < i ==> !Registers(calls[j], h)) ==>
        h in pool.prefixes && pool.prefixes[h] == old(pool.prefixes)[h]
    {
      ghost var m := pool.metrics;
      after := Perform(pool, calls[i], after);
      HoldsCover(pool.blocks, pool.freeList, pool.sessions, pool.external, pool.names, pool.metrics);
      ResidentIsCounted(pool.blocks, pool.freeList, pool.sessions, pool.external, pool.names, pool.metrics);
      PeaksExtend(old(pool.metrics), m, pool.metrics, trace, pool.blocks, pool.freeList);
      trace := trace + [pool.blocks];
    }
  }

  /** Each of the blocks still is live and has the hash it had. */
  ghost predicate StillLabelled(before: Blocks, after: Blocks, ids: seq<BlockId>) {
    forall b :: b in ids ==> b in before && b in after && after[b].refCount > 0 && after[b].hash == before[b].hash
  }

  /** A registered prefix stays found: register it, then make any calls that do not register its hash again; it is
      looked up with exactly its blocks if and only if each of them still is live and has the hash it had. */
  method RegisterThenRun(pool: BlockPool, hash: Hash, ids: seq<BlockId>, calls: seq<Call>, held: Holds)
    returns (found: Option<seq<BlockId>>)
    requires pool.Valid() && held == pool.external && Registrable(pool.blocks, hash, ids)
    requires forall i :: 0 <= i < |calls| ==> !Registers(calls[i], hash)
    modifies pool
    ensures pool.Valid()
    ensures found == if StillLabelled(old(pool.blocks), pool.blocks, ids) then Some(ids) else None
  {
    hide PoolOk, PeaksExact, ClockOk;
    RegisteredIsFound(pool.blocks, hash, ids);
    ghost var before := pool.blocks;
    pool.RegisterPrefix(hash, ids);
    ghost var entry := pool.prefixes[hash];
    var after, trace := RunAll(pool, calls, held);
    assert hash in pool.prefixes && pool.prefixes[hash] == entry;
    FoundIffLabelled(before, pool.blocks, hash, ids, entry);
    hide StillMatches, StillLabelled;
    found := pool.LookupPrefix(hash);
    if found.Some? {
      assert found.value == ids;
    }
  }

  lemma FoundIffLabelled(before: Blocks, after: Blocks, hash: Hash, ids: seq<BlockId>, entry: seq<PrefixBlock>)
    requires Registrable(before, hash, ids) && entry == EntryOf(before, ids)
    ensures StillMatches(after, hash, entry) <==> StillLabelled(before, after, ids)
    ensures |entry| == |ids| && forall k :: 0 <= k < |ids| ==> entry[k].id == ids[k]
  {
    forall k | 0 <= k < |ids|
      ensures entry[k].id == ids[k] && Labelled1(before, ids[k]) && Some(entry[k].hash) == before[ids[k]].hash
    {
      assert Labelled1(before, ids[k]);
    }
    if StillLabelled(before, after, ids) {
      forall k | 0 <= k < |entry|
        ensures Labelled1(after, entry[k].id) && after[entry[k].id].hash == Some(entry[k].hash)
      {
        assert ids[k] in ids;
      }
    }
    if StillMatches(after, hash, entry) {
      forall b | b in ids
        ensures b in before && b in after && after[b].refCount > 0 && after[b].hash == before[b].hash
      {
        var k :| 0 <= k < |ids| && ids[k] == b;
        assert Labelled1(after, entry[k].id);
      }
    }
  }
}
