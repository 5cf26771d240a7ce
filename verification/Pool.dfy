/**
 The shared block pool: reference-counted blocks, session block tables, eviction of least recently used
 sessions, copy-on-write of shared blocks, and an index of prefixes by content hash.

 Each public method is one atomic step under the pool's lock. `external` is the specification's record of
 the references callers hold; `names` is what each content hash stands for.
 */
module Pool {
  import opened Common
  import opened TokenWindow
  import opened PoolState
  import opened PoolTotals

  datatype Metrics = Metrics(refIncrements: nat, cowClones: nat, blocksEvicted: nat, sessionsEvicted: nat,
                             evictionHighWater: nat, highWater: nat, maxRef: nat)

  datatype Report = Report(total: nat, resident: nat, active: nat, free: nat, sessions: nat, shared: nat, refTotal: nat,
                           maxRef: nat, maxRefSeen: nat, counters: Metrics)

  function Max(a: nat, b: nat): nat {
    if a < b then b else a
  }

  /** Hashes are only on blocks whose contents they name. */
  ghost predicate Labelled(blocks: Blocks, names: Hash -> seq<Token>) {
    forall b :: b in blocks && blocks[b].hash.Some? ==> blocks[b].rows == names(blocks[b].hash.value)
  }

  /** The recorded peaks are no lower than the current residency and reference counts. */
  ghost predicate PeaksBound(m: Metrics, blocks: Blocks, free: seq<BlockId>) {
    |blocks| - |free| <= m.highWater && forall b :: b in blocks ==> blocks[b].refCount <= m.maxRef
  }

  ghost predicate PoolOk(blocks: Blocks, free: seq<BlockId>, sessions: Sessions, external: Holds,
                         names: Hash -> seq<Token>, m: Metrics)
  {
    Conserved(blocks, free, sessions, external) && Labelled(blocks, names) && PeaksBound(m, blocks, free)
  }

  /** A peak that rose is the current value: peaks are values that were reached. */
  ghost predicate PeaksReached(before: Metrics, m: Metrics, blocks: Blocks, free: seq<BlockId>) {
    && (m.highWater == before.highWater || m.highWater == |blocks| - |free|)
    && (m.maxRef == before.maxRef || exists b :: b in blocks && blocks[b].refCount == m.maxRef)
    && m.highWater >= before.highWater && m.maxRef >= before.maxRef
  }

  /** Every block still held keeps its contents, hash and revision. */
  ghost predicate KeptIfHeld(before: Blocks, after: Blocks, sessions: Sessions, external: Holds) {
    && after.Keys == before.Keys
    && forall b :: b in before && Held(sessions, external, b) ==>
         after[b].rows == before[b].rows && after[b].hash == before[b].hash && after[b].revision == before[b].revision
  }

  /** No access time lies ahead of the clock. */
  ghost predicate ClockOk(blocks: Blocks, sessions: Sessions, clock: nat) {
    && (forall s :: s in sessions ==> sessions[s].lastAccess <= clock && sessions[s].createdAt <= clock)
    && (forall b :: b in blocks ==> blocks[b].lastAccess <= clock)
  }

  /** Session `s` was used now, and every other one earlier. */
  ghost predicate JustUsed(sessions: Sessions, s: SessionId, clock: nat) {
    && s in sessions && sessions[s].lastAccess == clock
    && forall t :: t in sessions && t != s ==> sessions[t].lastAccess < clock
  }

  /** Session keys in eviction order. */
  predicate Before(a: Session, b: Session) {
    a.lastAccess < b.lastAccess
    || (a.lastAccess == b.lastAccess && (a.createdAt < b.createdAt || (a.createdAt == b.createdAt && a.id < b.id)))
  }

  /** `s` was used before `t`; or at the same time and created before it; or that too, and it has the smaller id. */
  ghost predicate LeastRecent(sessions: Sessions, s: SessionId, t: SessionId)
    requires s in sessions && t in sessions
  {
    && sessions[s].lastAccess <= sessions[t].lastAccess
    && (sessions[s].lastAccess == sessions[t].lastAccess ==>
          && sessions[s].createdAt <= sessions[t].createdAt
          && (sessions[s].createdAt == sessions[t].createdAt ==> s < t))
  }

  lemma LruInOrder(sessions: Sessions, excluded: Option<SessionId>, s: SessionId)
    requires IsLru(sessions, excluded, s) && forall t :: t in sessions ==> sessions[t].id == t
    ensures forall t :: t in sessions && Some(t) != excluded && sessions[t].table != [] && t != s ==>
      s in sessions && LeastRecent(sessions, s, t)
  {
    forall t | t in sessions && Some(t) != excluded && sessions[t].table != [] && t != s
      ensures s in sessions && LeastRecent(sessions, s, t)
    {
      assert Candidate(sessions, excluded, t);
    }
  }

  lemma NoneLeft(sessions: Sessions, excluded: Option<SessionId>)
    requires forall s :: !Candidate(sessions, excluded, s)
    ensures forall s :: s in sessions && Some(s) != excluded ==> sessions[s].table == []
  {
    forall s | s in sessions && Some(s) != excluded ensures sessions[s].table == [] {
      assert !Candidate(sessions, excluded, s);
    }
  }

  predicate Candidate(sessions: Sessions, excluded: Option<SessionId>, s: SessionId) {
    s in sessions && Some(s) != excluded && sessions[s].table != []
  }

  /** `s` comes first among the candidates. */
  ghost predicate IsLru(sessions: Sessions, excluded: Option<SessionId>, s: SessionId) {
    && Candidate(sessions, excluded, s)
    && forall t :: Candidate(sessions, excluded, t) && t != s ==> Before(sessions[s], sessions[t])
  }

  // ---------------------------------------------------------------- what the small moves keep

  lemma AllocateOk(blocks: Blocks, free: seq<BlockId>, sessions: Sessions, external: Holds,
                   names: Hash -> seq<Token>, m: Metrics, access: nat)
    requires PoolOk(blocks, free, sessions, external, names, m) && free != []
    ensures var b := free[|free| - 1];
            && b in blocks && b in external && external[b] == 0 && Owners(sessions, b) == {}
            && var blocks' := blocks[b := Fresh(blocks[b], access)];
               var free' := free[..|free| - 1];
               && |blocks'| - |free'| >= 0
               && var m' := m.(maxRef := Max(m.maxRef, 1), highWater := Max(m.highWater, |blocks'| - |free'|));
                  PoolOk(blocks', free', sessions, external[b := 1], names, m') && PeaksReached(m, m', blocks', free')
  {
    AllocateConserves(blocks, free, sessions, external, access);
    ResidentPlusFree(blocks, free, sessions, external);
    var b := free[|free| - 1];
    assert b in external by { assert external.Keys == blocks.Keys; }
    hide Conserved, Owners;
    AllocatePeaks(m, blocks, free, b, access);
    hide PeaksBound, PeaksReached;
    assert Labelled(blocks[b := Fresh(blocks[b], access)], names);
  }

  lemma AllocatePeaks(m: Metrics, blocks: Blocks, free: seq<BlockId>, b: BlockId, access: nat)
    requires PeaksBound(m, blocks, free) && free != [] && b in blocks && |free| <= |blocks|
    ensures var blocks', free' := blocks[b := Fresh(blocks[b], access)], free[..|free| - 1];
            && |blocks'| - |free'| >= 0
            && var m' := m.(maxRef := Max(m.maxRef, 1), highWater := Max(m.highWater, |blocks'| - |free'|));
               PeaksBound(m', blocks', free') && PeaksReached(m, m', blocks', free')
  {
    SizeKept(blocks, b, Fresh(blocks[b], access));
    assert blocks[b := Fresh(blocks[b], access)][b].refCount == 1;
  }

  lemma RetainOk(blocks: Blocks, free: seq<BlockId>, sessions: Sessions, external: Holds,
                 names: Hash -> seq<Token>, m: Metrics, b: BlockId)
    requires PoolOk(blocks, free, sessions, external, names, m) && b in blocks && blocks[b].refCount > 0
    ensures b in external
    ensures var blocks' := blocks[b := blocks[b].(refCount := blocks[b].refCount + 1)];
            var m' := m.(refIncrements := m.refIncrements + 1, maxRef := Max(m.maxRef, blocks'[b].refCount));
            PoolOk(blocks', free, sessions, external[b := external[b] + 1], names, m') &&
              PeaksReached(m, m', blocks', free)
  {
    assert b in external by { assert external.Keys == blocks.Keys; }
    RetainConserves(blocks, free, sessions, external, b);
    hide Conserved;
    var blocks' := blocks[b := blocks[b].(refCount := blocks[b].refCount + 1)];
    SizeKept(blocks, b, blocks'[b]);
    assert blocks'[b].refCount == blocks[b].refCount + 1;
  }

  lemma ReleaseOk(blocks: Blocks, free: seq<BlockId>, sessions: Sessions, external: Holds,
                  names: Hash -> seq<Token>, m: Metrics, b: BlockId)
    requires PoolOk(blocks, free, sessions, external, names, m) && b in blocks
    requires b in external && external[b] > 0
    ensures blocks[b].refCount > 0
    ensures var (blocks', free') := Released(blocks, free, b);
            PoolOk(blocks', free', sessions, external[b := external[b] - 1], names, m)
  {
    ReleaseConserves(blocks, free, sessions, external, b);
    ReleasePeaks(m, blocks, free, b);
    hide Conserved, PeaksBound;
  }

  lemma ReleaseBalancesIffHeld(blocks: Blocks, free: seq<BlockId>, sessions: Sessions, external: Holds,
                               names: Hash -> seq<Token>, m: Metrics, b: BlockId)
    requires PoolOk(blocks, free, sessions, external, names, m) && b in blocks && blocks[b].refCount > 0
    ensures b in external
    ensures var (blocks', free') := Released(blocks, free, b);
            var external' := if external[b] > 0 then external[b := external[b] - 1] else external;
            PoolOk(blocks', free', sessions, external', names, m) <==> external[b] > 0
  {
    HoldsCover(blocks, free, sessions, external, names, m);
    hide PoolOk, Conserved, Released;
    if external[b] > 0 {
      ReleaseOk(blocks, free, sessions, external, names, m, b);
    } else {
      ReleaseBreaks(blocks, free, sessions, external, names, m, b);
    }
  }

  /** A reference nobody held: no accounts balance any more. */
  lemma ReleaseBreaks(blocks: Blocks, free: seq<BlockId>, sessions: Sessions, external: Holds,
                      names: Hash -> seq<Token>, m: Metrics, b: BlockId)
    requires PoolOk(blocks, free, sessions, external, names, m) && b in blocks && blocks[b].refCount > 0
    requires b in external && external[b] == 0
    ensures var (blocks', free') := Released(blocks, free, b); !PoolOk(blocks', free', sessions, external, names, m)
  {
    ReleaseConservesIffHeld(blocks, free, sessions, external, b);
    hide Conserved;
    assert external[b := 0] == external;
    assert !BalancesWith(blocks, free, sessions, external, b, 0);
  }

  lemma ReleasePeaks(m: Metrics, blocks: Blocks, free: seq<BlockId>, b: BlockId)
    requires PeaksBound(m, blocks, free) && b in blocks && blocks[b].refCount > 0
    ensures PeaksBound(m, Released(blocks, free, b).0, Released(blocks, free, b).1)
  {
    SizeKept(blocks, b, Released(blocks, free, b).0[b]);
  }

  lemma SizeKept(blocks: Blocks, b: BlockId, block: PoolBlock)
    requires b in blocks
    ensures |blocks[b := block]| == |blocks|
  {
    assert blocks[b := block].Keys == blocks.Keys;
  }

  lemma PeaksSame(m: Metrics, blocks: Blocks, free: seq<BlockId>)
    ensures PeaksReached(m, m, blocks, free)
  {
  }

  lemma HoldsCover(blocks: Blocks, free: seq<BlockId>, sessions: Sessions, external: Holds, names: Hash -> seq<Token>,
                   m: Metrics)
    requires PoolOk(blocks, free, sessions, external, names, m)
    ensures external.Keys == blocks.Keys && Conserved(blocks, free, sessions, external) && PeaksBound(m, blocks, free)
  {
  }

  class BlockPool {
    const capacity: nat
    const names: Hash -> seq<Token>
    var blocks: Blocks
    var freeList: seq<BlockId>
    var prefixes: map<Hash, seq<PrefixBlock>>
    var sessions: Sessions
    var nextSession: SessionId
    var clock: nat
    var metrics: Metrics
    ghost var external: Holds

    ghost predicate Valid()
      reads this
    {
      && PoolOk(blocks, freeList, sessions, external, names, metrics)
      && nextSession > 0 && (forall s :: s in sessions ==> 0 < s < nextSession)
      && ClockOk(blocks, sessions, clock)
    }

    /** A pool of `count` empty blocks with the ids from `firstId` on, all free. */
    constructor (count: nat, capacity: nat, firstId: nat, names: Hash -> seq<Token>)
      requires count > 0 && capacity > 0 && firstId > 0
      ensures Valid() && |blocks| == |freeList| == count && sessions == map[] && prefixes == map[]
      ensures metrics == Metrics(0, 0, 0, 0, 0, 0, 0) && forall b :: b in external ==> external[b] == 0
      ensures this.capacity == capacity && this.names == names && nextSession == 1 && clock == 0
      ensures forall k :: 0 <= k < count ==> freeList[k] == firstId + k
      ensures forall b :: b in blocks ==> blocks[b] == PoolBlock([], 0, None, 0, 0)
    {
      this.capacity, this.names := capacity, names;
      prefixes, sessions, nextSession, clock := map[], map[], 1, 0;
      metrics := Metrics(0, 0, 0, 0, 0, 0, 0);
      var bs, list := EmptyBlocks(count, firstId);
      blocks, freeList := bs, list;
      external := map b | b in bs :: 0;
      new;
      hide PoolOk;
      NothingHeld(blocks, freeList, external, names, metrics);
    }

    /** Creation with the checks on the shape. */
    static method New(count: nat, capacity: nat, vectorLen: nat, firstId: nat, names: Hash -> seq<Token>)
      returns (r: Outcome<BlockPool>)
      requires firstId > 0
      ensures r.Ok? <==> count > 0 && capacity > 0 && vectorLen > 0
      ensures r.Err? ==> r.error == InvalidShape
      ensures r.Ok? ==>
        fresh(r.value) && r.value.Valid() && |r.value.blocks| == |r.value.freeList| == count &&
          r.value.sessions == map[]
    {
      if count == 0 || capacity == 0 || vectorLen == 0 {
        return Err(InvalidShape);
      }
      var pool := new BlockPool(count, capacity, firstId, names);
      return Ok(pool);
    }

    /** The counts of a metrics snapshot. Blocks in use and free ones make up the pool, and the total of the
        reference counts is the total of ownerships and of references callers hold. */
    method MetricsSnapshot() returns (r: Report)
      requires Valid()
      ensures r.total == |blocks| && r.free == |freeList| && r.resident + r.free == r.total && r.sessions == |sessions|
      ensures r.resident == |Used(blocks)| <= metrics.highWater && r.shared == |SharedBlocks(blocks)|
      ensures IsTop(blocks, r.maxRef) && r.maxRefSeen == metrics.maxRef && r.counters == metrics
      ensures r.refTotal == Sum(OwnedCounts(sessions), sessions.Keys) + Sum(external, external.Keys)
      ensures r.active == Sum(TableCounts(sessions), sessions.Keys)
    {
      hide PoolOk, Conserved;
      ResidentIsCounted(blocks, freeList, sessions, external, names, metrics);
      HoldsCover(blocks, freeList, sessions, external, names, metrics);
      ReferencesAddUp(blocks, freeList, sessions, external);
      var resident, shared, refTotal, maxRef := CountBlocks(blocks);
      var active := CountEntries(sessions);
      return Report(|blocks|, resident, active, |freeList|, |sessions|, shared, refTotal, maxRef,
                    Max(metrics.maxRef, maxRef), metrics);
    }

    // -------------------------------------------------------------- blocks

    method Allocate() returns (r: Option<BlockId>)
      requires Valid()
      modifies this`blocks, this`freeList, this`clock, this`metrics, this`external
      ensures Valid() && PeaksReached(old(metrics), metrics, blocks, freeList)
      ensures r.None? <==> old(freeList) == []
      ensures r.None? ==> unchanged(this)
      ensures r.Some? ==>
        var b := r.value;
        && b in old(blocks) && b in old(external) && old(external)[b] == 0 && Owners(sessions, b) == {} &&
           b == old(freeList)[|old(freeList)| - 1]
        && blocks == old(blocks)[b := PoolBlock([], 1, None, clock, old(blocks)[b].revision + 1)]
        && freeList == old(freeList)[..|old(freeList)| - 1]
        && external == old(external)[b := 1] && clock == old(clock) + 1
      ensures metrics == old(metrics).(highWater := metrics.highWater, maxRef := metrics.maxRef)
      ensures r.Some? ==> metrics.maxRef == Max(old(metrics).maxRef, 1)
    {
      hide PoolOk, PeaksReached;
      if freeList == [] {
        PeaksSame(metrics, blocks, freeList);
        return None;
      }
      AllocateOk(blocks, freeList, sessions, external, names, metrics, clock + 1);
      var b := freeList[|freeList| - 1];
      freeList := freeList[..|freeList| - 1];
      clock := clock + 1;
      blocks := blocks[b := Fresh(blocks[b], clock)];
      external := external[b := 1];
      metrics := metrics.(maxRef := Max(metrics.maxRef, 1), highWater := Max(metrics.highWater, |blocks| - |freeList|));
      return Some(b);
    }

    method Retain(b: BlockId) returns (r: bool)
      requires Valid()
      modifies this`blocks, this`metrics, this`external
      ensures Valid() && PeaksReached(old(metrics), metrics, blocks, freeList)
      ensures r <==> b in old(blocks) && old(blocks)[b].refCount > 0
      ensures !r ==> unchanged(this)
      ensures r ==> blocks == old(blocks)[b := old(blocks)[b].(refCount := old(blocks)[b].refCount + 1)]
      ensures r ==> external == old(external)[b := old(external)[b] + 1]
      ensures r ==> metrics == old(metrics).(refIncrements := old(metrics).refIncrements + 1,
                                             maxRef := Max(old(metrics).maxRef, blocks[b].refCount))
    {
      hide PoolOk, PeaksReached;
      if b !in blocks || blocks[b].refCount == 0 {
        PeaksSame(metrics, blocks, freeList);
        return false;
      }
      RetainOk(blocks, freeList, sessions, external, names, metrics, b);
      blocks := blocks[b := blocks[b].(refCount := blocks[b].refCount + 1)];
      external := external[b := external[b] + 1];
      metrics := metrics.(refIncrements := metrics.refIncrements + 1,
                          maxRef := Max(metrics.maxRef, blocks[b].refCount));
      return true;
    }

    /** Gives back a reference. The accounts stay balanced exactly if the caller held one. */
    method Release(b: BlockId) returns (r: bool)
      requires Valid()
      modifies this`blocks, this`freeList, this`external
      ensures r <==> b in old(blocks) && old(blocks)[b].refCount > 0
      ensures !r ==> unchanged(this)
      ensures r ==> b in old(external) && (blocks, freeList) == Released(old(blocks), old(freeList), b)
      ensures r && old(blocks)[b].refCount == 1 ==>
        && blocks == old(blocks)[b := PoolBlock([], 0, None, 0, old(blocks)[b].revision + 1)]
        && freeList == old(freeList) + [b]
      ensures r && old(blocks)[b].refCount > 1 ==>
        && blocks == old(blocks)[b := old(blocks)[b].(refCount := old(blocks)[b].refCount - 1)]
        && freeList == old(freeList)
      ensures r ==> external == if old(external)[b] > 0 then old(external)[b := old(external)[b] - 1] else old(external)
      ensures Valid() <==> (r ==> old(external)[b] > 0)
    {
      hide PoolOk;
      if b !in blocks || blocks[b].refCount == 0 {
        return false;
      }
      ReleaseBalancesIffHeld(blocks, freeList, sessions, external, names, metrics, b);
      external := if external[b] > 0 then external[b := external[b] - 1] else external;
      if blocks[b].refCount == 1 {
        blocks := blocks[b := Emptied(blocks[b])];
        freeList := freeList + [b];
      } else {
        blocks := blocks[b := blocks[b].(refCount := blocks[b].refCount - 1)];
      }
      assert (blocks, freeList) == Released(old(blocks), old(freeList), b);
      hide Released;
      return true;
    }

    /** Marks a live block as used. */
    method Touch(b: BlockId) returns (r: bool)
      requires Valid()
      modifies this`blocks, this`clock
      ensures Valid() && clock == old(clock) + 1
      ensures r <==> b in old(blocks) && old(blocks)[b].refCount > 0
      ensures blocks == if r then old(blocks)[b := old(blocks)[b].(lastAccess := clock)] else old(blocks)
    {
      hide PoolOk;
      clock := clock + 1;
      if b !in blocks || blocks[b].refCount == 0 {
        return false;
      }
      LabelledAt(blocks, freeList, sessions, external, names, metrics, b);
      TouchOk(blocks, freeList, sessions, external, names, metrics, b, blocks[b].(lastAccess := clock));
      blocks := blocks[b := blocks[b].(lastAccess := clock)];
      return true;
    }

    /** A block in use that no other was used before. */
    method LruBlock() returns (r: Option<BlockId>)
      requires Valid()
      ensures r.None? <==> Used(blocks) == {}
      ensures r.Some? ==> r.value in Used(blocks) && forall b :: b in Used(blocks) ==>
        blocks[r.value].lastAccess <= blocks[b].lastAccess
    {
      hide PoolOk;
      r := None;
      var todo := blocks.Keys;
      while todo != {}
        invariant todo <= blocks.Keys
        invariant r.None? ==> Used(blocks) <= todo
        invariant r.Some? ==> r.value in Used(blocks)
        invariant r.Some? ==> forall b :: b in Used(blocks) && b !in todo ==>
          blocks[r.value].lastAccess <= blocks[b].lastAccess
        decreases |todo|
      {
        var b :| b in todo;
        todo := todo - {b};
        if blocks[b].refCount > 0 && (r.None? || blocks[b].lastAccess < blocks[r.value].lastAccess) {
          r := Some(b);
        }
      }
    }

    // -------------------------------------------------------------- sessions

    method CreateSession() returns (s: SessionId)
      requires Valid()
      modifies this`sessions, this`nextSession, this`clock
      ensures Valid() && s !in old(sessions) && clock == old(clock) + 1
      ensures sessions == old(sessions)[s := Session(s, clock, clock, [], {})]
    {
      s := nextSession;
      nextSession := nextSession + 1;
      clock := clock + 1;
      var session := Session(s, clock, clock, [], {});
      assert s !in sessions;
      assert Elements([]) == {};
      SessionUpdateConserves(blocks, freeList, sessions, external, s, session);
      sessions := sessions[s := session];
    }

    /** Removes a session and gives back its blocks one by one; reports how many became free. */
    method ReleaseSession(s: SessionId) returns (r: Option<nat>)
      requires Valid()
      modifies this`blocks, this`freeList, this`sessions, this`external
      ensures Valid() && external == old(external)
      ensures r.Some? <==> s in old(sessions)
      ensures r.None? ==> unchanged(this)
      ensures r.Some? ==> sessions == old(sessions) - {s} && AfterDrop(old(blocks), blocks, old(sessions)[s].owned)
      ensures r.Some? ==> r.value == |FreedBy(old(blocks), old(sessions)[s].owned)|
      ensures KeptIfHeld(old(blocks), blocks, sessions, external)
    {
      hide PoolOk, Conserved, AfterDrop, FreedBy, KeptIfHeld, WithPending, Spent;
      if s !in sessions {
        NothingLost(blocks, sessions, external);
        return None;
      }
      var owned := sessions[s].owned;
      PendingOk(blocks, freeList, sessions, external, names, metrics, s);
      sessions := sessions - {s};
      external := WithPending(external, owned);
      var count := ReleaseAll(owned);
      NothingPending(old(external), external, owned);
      HoldsCover(blocks, freeList, sessions, external, names, metrics);
      KeptAfterDrop(old(blocks), freeList, blocks, sessions, external, owned);
      return Some(count);
    }

    /** Gives back one reference to each block of `owned`. */
    method ReleaseAll(owned: set<BlockId>) returns (freed: nat)
      requires Valid() && owned <= blocks.Keys && external.Keys == blocks.Keys && forall b :: b in owned ==>
        external[b] > 0
      modifies this`blocks, this`freeList, this`external
      ensures Valid() && AfterDrop(old(blocks), blocks, owned)
      ensures external == Spent(old(external), owned) && freed == |FreedBy(old(blocks), owned)|
    {
      hide PoolOk, Conserved, AfterDrop, FreedBy, Released, Spent, ClockOk;
      freed := 0;
      var todo := owned;
      ghost var done: set<BlockId> := {};
      DropNone(blocks, external);
      while todo != {}
        invariant Valid() && todo <= owned && done == owned - todo && blocks.Keys == old(blocks.Keys)
        invariant AfterDrop(old(blocks), blocks, done)
        invariant external == Spent(old(external), done)
        invariant freed == |FreedBy(old(blocks), done)|
        decreases |todo|
      {
        var b :| b in todo;
        FreedGrows(old(blocks), done, b);
        var last := ReleaseOne(b, old(blocks), old(external), done);
        if last {
          freed := freed + 1;
        }
        todo, done := todo - {b}, done + {b};
      }
      assert done == owned;
    }

    /** One turn of the loop above: whether the reference given back was the last one. */
    method ReleaseOne(b: BlockId, ghost blocks0: Blocks, ghost external0: Holds, ghost done: set<BlockId>)
      returns (last: bool)
      requires Valid() && b in blocks0 && b !in done && b in external0 && external0[b] > 0
      requires blocks.Keys == blocks0.Keys && AfterDrop(blocks0, blocks, done) && external == Spent(external0, done)
      modifies this`blocks, this`freeList, this`external
      ensures Valid() && blocks.Keys == blocks0.Keys && AfterDrop(blocks0, blocks, done + {b})
      ensures external == Spent(external0, done + {b}) && (last <==> blocks0[b].refCount == 1)
    {
      hide PoolOk, Conserved, AfterDrop, Released, Spent, ClockOk;
      SpendOne(external0, done, b);
      ReleaseOk(blocks, freeList, sessions, external, names, metrics, b);
      DropOne(blocks0, blocks, freeList, done, b);
      var _ := Release(b);
      last := blocks[b].refCount == 0;
    }

    // -------------------------------------------------------------- eviction

    /** The first non-empty session in eviction order, other than the excluded one. */
    method LruSessionExcept(excluded: Option<SessionId>) returns (r: Option<SessionId>)
      requires Valid()
      ensures r.Some? ==> IsLru(sessions, excluded, r.value)
      ensures r.None? ==> forall s :: !Candidate(sessions, excluded, s)
      ensures r.None? ==> forall s :: s in sessions && Some(s) != excluded ==> sessions[s].table == []
      ensures r.Some? ==> r.value in sessions && r != excluded && sessions[r.value].table != []
      ensures r.Some? ==> forall t ::
        t in sessions && Some(t) != excluded && sessions[t].table != [] && t != r.value ==>
          LeastRecent(sessions, r.value, t)
    {
      SessionIds(blocks, freeList, sessions, external, names, metrics);
      hide PoolOk, ClockOk;
      r := None;
      var todo := sessions.Keys;
      while todo != {}
        invariant todo <= sessions.Keys
        invariant r.Some? ==> r.value !in todo && Candidate(sessions, excluded, r.value)
        invariant r.Some? ==> forall t :: Candidate(sessions, excluded, t) && t !in todo && t != r.value ==>
          Before(sessions[r.value], sessions[t])
        invariant r.None? ==> forall t :: Candidate(sessions, excluded, t) ==> t in todo
        decreases |todo|
      {
        var s :| s in todo;
        todo := todo - {s};
        if Candidate(sessions, excluded, s) && (r.None? || Before(sessions[s], sessions[r.value])) {
          r := Some(s);
        }
      }
      if r.Some? {
        LruInOrder(sessions, excluded, r.value);
      } else {
        NoneLeft(sessions, excluded);
      }
    }

    /** Evicts sessions in eviction order, never the excluded one, until a block is free or none is left. */
    method EvictUntilFree(excluded: SessionId) returns (ghost evicted: seq<SessionId>)
      requires Valid()
      modifies this`blocks, this`freeList, this`sessions, this`external, this`metrics
      ensures Valid() && external == old(external)
      ensures metrics ==
        old(metrics).(blocksEvicted := metrics.blocksEvicted,
                      sessionsEvicted := old(metrics).sessionsEvicted + |evicted|,
                                       evictionHighWater := metrics.evictionHighWater)
      ensures sessions == Without(old(sessions), evicted)
      ensures EvictedInOrder(old(sessions), old(blocks), external, excluded, evicted)
      ensures freeList != [] || forall s :: !Candidate(sessions, Some(excluded), s)
      ensures KeptIfHeld(old(blocks), blocks, sessions, external)
    {
      hide PoolOk, EvictedInOrder, KeptIfHeld, IsLru, Candidate, AfterDrop, FreedBy, ClockOk, LeastRecent;
      evicted := [];
      NothingEvicted(sessions, blocks, external, excluded);
      while freeList == []
        invariant Valid() && external == old(external) && sessions == Without(old(sessions), evicted)
        invariant metrics ==
          old(metrics).(blocksEvicted := metrics.blocksEvicted,
                        sessionsEvicted := old(metrics).sessionsEvicted + |evicted|,
                                           evictionHighWater := metrics.evictionHighWater)
        invariant EvictedInOrder(old(sessions), old(blocks), external, excluded, evicted)
        invariant KeptIfHeld(old(blocks), blocks, sessions, external)
        decreases |sessions|
      {
        var lru := LruSessionExcept(Some(excluded));
        if lru.None? {
          return;
        }
        var s := lru.value;
        LruIsPresent(sessions, Some(excluded), s);
        ghost var before := blocks;
        EvictOne(old(sessions), old(blocks), blocks, sessions, external, names, metrics, excluded, evicted, s);
        EvictSession(s);
        KeptTrans(old(blocks), before, blocks, sessions, old(sessions), evicted, s, external);
        evicted := evicted + [s];
      }
    }

    method EvictSession(s: SessionId)
      requires Valid() && s in sessions
      modifies this`blocks, this`freeList, this`sessions, this`external, this`metrics
      ensures Valid() && external == old(external) && sessions == old(sessions) - {s}
      ensures metrics == old(metrics).(
        sessionsEvicted := old(metrics).sessionsEvicted + 1,
        blocksEvicted := old(metrics).blocksEvicted + |FreedBy(old(blocks), old(sessions)[s].owned)|,
        evictionHighWater := Max(old(metrics).evictionHighWater, |Used(old(blocks))|))
      ensures KeptIfHeld(old(blocks), blocks, sessions, external)
    {
      hide PoolOk, KeptIfHeld, AfterDrop, FreedBy, Used, ClockOk;
      ResidentIsCounted(blocks, freeList, sessions, external, names, metrics);
      var highWater := |blocks| - |freeList|;
      var count := ReleaseSession(s);
      ghost var m := metrics;
      metrics := metrics.(sessionsEvicted := metrics.sessionsEvicted + 1,
                          blocksEvicted := metrics.blocksEvicted + count.value,
                          evictionHighWater := Max(metrics.evictionHighWater, highWater));
      PeaksIgnore(blocks, freeList, sessions, external, names, m, metrics);
    }

    // -------------------------------------------------------------- session tables

    /** Appends a block to a session's table. With `retain` a newly owned block gains a reference; without,
        the caller's reference becomes the session's. */
    method AppendInner(s: SessionId, b: BlockId, retain: bool) returns (r: Outcome<()>)
      requires Valid()
      requires !retain && s in sessions && b in blocks && blocks[b].refCount > 0 && b !in sessions[s].owned ==>
        b in external && external[b] > 0
      modifies this`blocks, this`sessions, this`clock, this`metrics, this`external
      ensures Valid() && PeaksReached(old(metrics), metrics, blocks, freeList)
      ensures r == if s in old(sessions) && b in old(blocks) && old(blocks)[b].refCount > 0 then Ok(())
        else Err(InvalidShape)
      ensures r.Err? ==>
        blocks == old(blocks) && sessions == old(sessions) && metrics == old(metrics) && external == old(external)
      ensures r.Ok? ==> sessions == old(sessions)[s := Appended(old(sessions)[s], b, clock)]
      ensures r.Ok? ==>
        blocks == old(blocks)[b := Shared(old(blocks)[b], retain && b !in old(sessions)[s].owned, clock)]
      ensures r.Ok? ==> clock == old(clock) + 1
      ensures r.Ok? ==> AppendedNow(old(blocks), old(sessions), blocks, sessions, s, b, clock)
      ensures r.Ok? ==> blocks[b].refCount == old(blocks)[b].refCount +
                                              if retain && b !in old(sessions)[s].owned then 1 else 0
      ensures r.Ok? && (retain || b in old(sessions)[s].owned) ==> external == old(external)
      ensures r.Ok? && (!retain || b in old(sessions)[s].owned) ==> metrics == old(metrics)
      ensures r.Ok? && retain && b !in old(sessions)[s].owned ==>
        metrics == old(metrics).(refIncrements := old(metrics).refIncrements + 1,
                                 maxRef := Max(old(metrics).maxRef, blocks[b].refCount))
      ensures r.Ok? && !retain && b !in old(sessions)[s].owned ==> external == old(external)[b := old(external)[b] - 1]
    {
      hide PoolOk, PeaksReached;
      PeaksSame(metrics, blocks, freeList);
      if b !in blocks || blocks[b].refCount == 0 {
        return Err(InvalidShape);
      }
      clock := clock + 1;
      if s !in sessions {
        return Err(InvalidShape);
      }
      AppendOk(blocks, freeList, sessions, external, names, metrics, s, b, retain, clock);
      AppendClock(blocks, sessions, s, b, retain && b !in sessions[s].owned, clock);
      hide ClockOk, AppendedNow;
      var newlyOwned := b !in sessions[s].owned;
      sessions := sessions[s := Appended(sessions[s], b, clock)];
      if retain && newlyOwned {
        blocks := blocks[b := blocks[b].(refCount := blocks[b].refCount + 1)];
        metrics := metrics.(refIncrements := metrics.refIncrements + 1,
                            maxRef := Max(metrics.maxRef, blocks[b].refCount));
      }
      blocks := blocks[b := blocks[b].(lastAccess := clock)];
      assert blocks == old(blocks)[b := Shared(old(blocks)[b], retain && newlyOwned, clock)];
      if !retain && newlyOwned { external := external[b := external[b] - 1]; }
      return Ok(());
    }

    method AppendBlockToSession(s: SessionId, b: BlockId) returns (r: Outcome<()>)
      requires Valid()
      modifies this`blocks, this`sessions, this`clock, this`metrics, this`external
      ensures Valid() && PeaksReached(old(metrics), metrics, blocks, freeList) && external == old(external)
      ensures r == if s in old(sessions) && b in old(blocks) && old(blocks)[b].refCount > 0 then Ok(())
        else Err(InvalidShape)
      ensures r.Err? ==> blocks == old(blocks) && sessions == old(sessions)
      ensures r.Ok? ==> sessions == old(sessions)[s := Appended(old(sessions)[s], b, clock)]
      ensures r.Ok? ==> blocks == old(blocks)[b := Shared(old(blocks)[b], b !in old(sessions)[s].owned, clock)]
      ensures r.Ok? ==> AppendedNow(old(blocks), old(sessions), blocks, sessions, s, b, clock)
      ensures r.Ok? ==> blocks[b].refCount == old(blocks)[b].refCount + if b !in old(sessions)[s].owned then 1 else 0
      ensures metrics.refIncrements ==
        old(metrics).refIncrements + if r.Ok? && b !in old(sessions)[s].owned then 1 else 0
    {
      hide PoolOk, PeaksReached;
      r := AppendInner(s, b, true);
    }

    /** A new block for an existing session, evicting other sessions if need be. Fails exactly if every block
        is held by this session or by callers. */
    method AllocateForSession(s: SessionId) returns (r: Option<BlockId>, ghost evicted: seq<SessionId>)
      requires Valid()
      modifies this
      ensures Valid() && PeaksReached(old(metrics), metrics, blocks, freeList) && external == old(external)
      ensures r.Some? <==> s in old(sessions) && !HeldByOrExternal(old(blocks), old(sessions)[s], external)
      ensures s !in old(sessions) ==> unchanged(this)
      ensures s in old(sessions) ==>
        && (if old(freeList) == [] then EvictedInOrder(old(sessions), old(blocks), external, s, evicted)
            else evicted == [])
        && (r.None? ==> sessions == Without(old(sessions), evicted) && forall t :: !Candidate(sessions, Some(s), t))
      ensures r.Some? ==>
        && r.value in blocks && blocks[r.value].rows == [] && blocks[r.value].refCount == 1
        && sessions == Without(old(sessions), evicted)[s := Appended(old(sessions)[s], r.value, clock)]
        && sessions[s].table == old(sessions)[s].table + [r.value] && JustUsed(sessions, s, clock)
        && blocks[r.value].lastAccess == clock
      ensures prefixes == old(prefixes)
      ensures KeptIfHeld(old(blocks), blocks, Without(old(sessions), evicted), external)
    {
      hide PoolOk, PeaksReached, EvictedInOrder, KeptIfHeld, Candidate, HeldByOrExternal, Held, Owners, ClockOk;
      hide JustUsed, Appended;
      evicted := [];
      NothingEvicted(sessions, blocks, external, s);
      if s !in sessions {
        PeaksSame(metrics, blocks, freeList);
        return None, evicted;
      }
      if freeList == [] {
        evicted := EvictUntilFree(s);
        NotEvicted(old(sessions), old(blocks), external, s, evicted);
      }
      RoomIff(old(blocks), blocks, freeList, sessions, external, names, metrics, s);
      ghost var blocks1, sessions1, metrics1 := blocks, sessions, metrics;
      r := TakeFor(s);
      PeaksChain(old(metrics), metrics1, metrics, blocks, freeList);
      if r.Some? {
        KeptButOne(old(blocks), blocks1, blocks, sessions1, external, r.value);
      }
    }

    /** Gives the last free block, if there is one, to a session. */
    method TakeFor(s: SessionId) returns (r: Option<BlockId>)
      requires Valid() && s in sessions
      modifies this`blocks, this`freeList, this`sessions, this`clock, this`metrics, this`external
      ensures Valid() && PeaksReached(old(metrics), metrics, blocks, freeList) && external == old(external)
      ensures r.None? <==> old(freeList) == []
      ensures r.None? ==> unchanged(this)
      ensures r.Some? ==>
        && r.value == old(freeList)[|old(freeList)| - 1] && !Held(old(sessions), external, r.value)
        && r.value in blocks && blocks[r.value].rows == [] && blocks[r.value].refCount == 1
        && blocks[r.value].lastAccess == clock
        && blocks.Keys == old(blocks).Keys && (forall x :: x in blocks && x != r.value ==> blocks[x] == old(blocks)[x])
        && sessions == old(sessions)[s := Appended(old(sessions)[s], r.value, clock)]
        && sessions[s].table == old(sessions)[s].table + [r.value] && JustUsed(sessions, s, clock)
    {
      hide PoolOk, PeaksReached, Held, Owners, ClockOk, JustUsed;
      r := Allocate();
      if r.None? {
        return;
      }
      NotOwned(sessions, s, r.value);
      UnheldIfFree(sessions, old(external), r.value);
      ghost var metrics1, blocks1 := metrics, blocks;
      var _ := AppendInner(s, r.value, false);
      assert external == old(external);
      PeaksSameRefs(old(metrics), metrics1, blocks1, blocks, freeList, r.value);
    }

    /** Marks a session, and then a live block, as used. */
    method TouchSessionBlock(s: SessionId, b: BlockId) returns (r: Outcome<()>)
      requires Valid()
      modifies this`blocks, this`sessions, this`clock
      ensures Valid() && clock == old(clock) + 1
      ensures r == if s in old(sessions) && b in old(blocks) && old(blocks)[b].refCount > 0 then Ok(())
        else Err(InvalidShape)
      ensures sessions ==
        if s in old(sessions) then old(sessions)[s := old(sessions)[s].(lastAccess := clock)] else old(sessions)
      ensures blocks == if r.Ok? then old(blocks)[b := old(blocks)[b].(lastAccess := clock)] else old(blocks)
      ensures s in old(sessions) ==> JustUsed(sessions, s, clock)
    {
      hide PoolOk;
      clock := clock + 1;
      if s !in sessions {
        return Err(InvalidShape);
      }
      TouchedSessionOk(blocks, freeList, sessions, external, names, metrics, s, clock);
      sessions := sessions[s := sessions[s].(lastAccess := clock)];
      if b !in blocks || blocks[b].refCount == 0 {
        return Err(InvalidShape);
      }
      LabelledAt(blocks, freeList, sessions, external, names, metrics, b);
      TouchOk(blocks, freeList, sessions, external, names, metrics, b, blocks[b].(lastAccess := clock));
      blocks := blocks[b := blocks[b].(lastAccess := clock)];
      return Ok(());
    }

    method ReadSessionBlock(s: SessionId, index: nat) returns (r: Option<BlockId>)
      requires Valid()
      modifies this`blocks, this`sessions, this`clock
      ensures Valid() && clock == old(clock) + 1
      ensures r == if s in old(sessions) && index < |old(sessions)[s].table| then Some(old(sessions)[s].table[index])
        else None
      ensures r.None? ==> blocks == old(blocks) && sessions == old(sessions)
      ensures r.Some? ==> r.value in old(blocks) && old(blocks)[r.value].refCount > 0
      ensures r.Some? ==> JustUsed(sessions, s, clock)
      ensures r.Some? ==> sessions == old(sessions)[s := old(sessions)[s].(lastAccess := clock)]
                          && blocks == old(blocks)[r.value := old(blocks)[r.value].(lastAccess := clock)]
    {
      hide PoolOk;
      if s !in sessions || index >= |sessions[s].table| {
        clock := clock + 1;
        return None;
      }
      var b := sessions[s].table[index];
      TableIsLive(blocks, freeList, sessions, external, names, metrics, s, index);
      var _ := TouchSessionBlock(s, b);
      return Some(b);
    }

    // -------------------------------------------------------------- copy on write

    /** Makes the block at `index` of a session's table writable: that block itself if the session is its only
        holder, else a copy in a block of its own. Fails, on an index in range, exactly if callers hold the
        block and there is no room for a copy: every block is held by this session or by callers. */
    method CopyOnWrite(s: SessionId, index: nat) returns (r: Outcome<BlockId>, ghost evicted: seq<SessionId>)
      requires Valid()
      modifies this
      ensures Valid() && PeaksReached(old(metrics), metrics, blocks, freeList) && external == old(external)
      ensures !(s in old(sessions) && index < |old(sessions)[s].table|) ==> r == Err(InvalidShape) && unchanged(this)
      ensures s in old(sessions) && index < |old(sessions)[s].table| ==>
        var b := old(sessions)[s].table[index];
        && b in old(blocks) && b in external
        && (r.Err? <==> external[b] > 0 && HeldByOrExternal(old(blocks), old(sessions)[s], external))
        && (r.Err? ==> r == Err(CapacityExceeded(1, 0)) && sessions == Without(old(sessions), evicted))
        && (r.Ok? ==> CopyMade(old(blocks), old(sessions), blocks, sessions, evicted, s, index, r.value, clock))
        && (old(blocks)[b].refCount == 1 ==> evicted == [] && r == Ok(b))
        && metrics.cowClones == old(metrics).cowClones + if r.Ok? && r.value != b then 1 else 0
      ensures EvictedInOrder(old(sessions), old(blocks), external, s, evicted) && prefixes == old(prefixes)
      ensures KeptIfHeld(old(blocks), blocks, Without(old(sessions), evicted), external)
    {
      hide PoolOk, PeaksReached, EvictedInOrder, KeptIfHeld, Candidate, CopyMade, Owners, HeldByOrExternal, ClockOk;
      hide JustUsed, Held, Without, Used, EvictedAt, AfterDrop, FreedBy;
      evicted := [];
      NothingEvicted(sessions, blocks, external, s);
      PeaksSame(metrics, blocks, freeList);
      if s !in sessions || index >= |sessions[s].table| {
        return Err(InvalidShape), evicted;
      }
      var b := sessions[s].table[index];
      HoldsCover(blocks, freeList, sessions, external, names, metrics);
      hide Conserved;
      TableIsLive(blocks, freeList, sessions, external, names, metrics, s, index);
      OwnedCount(blocks, freeList, sessions, external, names, metrics, s, index);
      if blocks[b].refCount > 1 && freeList == [] {
        evicted := EvictUntilFree(s);
        NotEvicted(old(sessions), old(blocks), external, s, evicted);
      }
      OwnedCount(blocks, freeList, sessions, external, names, metrics, s, index);
      PeaksMoved(old(metrics), metrics, blocks, freeList);
      if blocks[b].refCount == 1 {
        UseInPlace(s, index, evicted, old(blocks), old(sessions), old(metrics));
        return Ok(b), evicted;
      }
      r := CopyBlock(s, index, evicted, old(blocks), old(sessions), old(metrics));
    }

    /** The path without a copy: the session is the only holder of its block. */
    method UseInPlace(s: SessionId, index: nat, ghost evicted: seq<SessionId>, ghost blocks0: Blocks,
                      ghost sessions0: Sessions, ghost metrics0: Metrics)
      requires Valid() && s in sessions0 && s in sessions && sessions[s] == sessions0[s] && index < |sessions[s].table|
      requires sessions == Without(sessions0, evicted) && KeptIfHeld(blocks0, blocks, sessions, external)
      requires var b := sessions[s].table[index];
               b in blocks && blocks[b].refCount == 1 && Held(sessions, external, b)
      requires PeaksReached(metrics0, metrics, blocks, freeList)
      modifies this`blocks, this`sessions, this`clock
      ensures Valid() && PeaksReached(metrics0, metrics, blocks, freeList)
      ensures CopyMade(blocks0, sessions0, blocks, sessions, evicted, s, index, old(sessions)[s].table[index], clock)
      ensures KeptIfHeld(blocks0, blocks, Without(sessions0, evicted), external)
    {
      hide PoolOk, PeaksReached, KeptIfHeld, CopyMade, Owners, ClockOk, JustUsed, Held, Without;
      ghost var mid, left := blocks, sessions;
      var b := sessions[s].table[index];
      var _ := TouchSessionBlock(s, b);
      TouchedIsCopy(blocks0, sessions0, mid, left, external, evicted, s, index, clock);
      PeaksSameRefs(metrics0, metrics, mid, blocks, freeList, b);
    }

    /** The copying path: the block has another holder, and eviction has done what it can. */
    method CopyBlock(s: SessionId, index: nat, ghost evicted: seq<SessionId>, ghost blocks0: Blocks,
                     ghost sessions0: Sessions,
                     ghost metrics0: Metrics)
      returns (r: Outcome<BlockId>)
      requires Valid() && s in sessions0 && s in sessions && sessions[s] == sessions0[s] && index < |sessions[s].table|
      requires sessions == Without(sessions0, evicted) && KeptIfHeld(blocks0, blocks, sessions, external)
      requires sessions[s].table[index] in blocks && blocks[sessions[s].table[index]].refCount > 1 &&
        sessions[s].table[index] in external
      requires freeList != [] || forall t :: !Candidate(sessions, Some(s), t)
      requires metrics.highWater == metrics0.highWater && metrics.maxRef == metrics0.maxRef
      modifies this
      ensures Valid() && external == old(external) && PeaksReached(metrics0, metrics, blocks, freeList)
      ensures KeptIfHeld(blocks0, blocks, Without(sessions0, evicted), external)
      ensures r.Err? <==>
        external[old(sessions)[s].table[index]] > 0 && HeldByOrExternal(blocks0, sessions0[s], external)
      ensures r.Err? ==> r == Err(CapacityExceeded(1, 0)) && sessions == old(sessions)
      ensures r.Ok? ==> CopyMade(blocks0, sessions0, blocks, sessions, evicted, s, index, r.value, clock)
      ensures r.Ok? ==> r.value != old(sessions)[s].table[index]
      ensures metrics.cowClones == old(metrics).cowClones + (if r.Ok? then 1 else 0) && prefixes == old(prefixes)
    {
      hide PoolOk, PeaksReached, KeptIfHeld, Candidate, CopyMade, Owners, HeldByOrExternal, Released, Held, Without;
      hide Replaced, ClockOk, JustUsed;
      var b := sessions[s].table[index];
      CopyRoom(blocks0, blocks, freeList, sessions, external, names, metrics, s, index);
      ghost var blocks1, sessions1, metrics1 := blocks, sessions, metrics;
      var taken := Allocate();
      PeaksChain(metrics0, metrics1, metrics, blocks, freeList);
      if taken.None? {
        return Err(CapacityExceeded(1, 0));
      }
      var copy := taken.value;
      ghost var blocks2, metrics2 := blocks, metrics;
      OwnedNotFree(blocks1, old(freeList), sessions, old(external), names, metrics1, s, index);
      NotOwned(sessions, s, copy);
      InstallCopy(s, index, copy);
      assert external == old(external);
      RecordCow();
      PeaksKeepCopy(metrics0, metrics2, metrics, blocks2, blocks, freeList, copy);
      OwnedIsHeld(sessions1, external, s, b);
      UnheldIfFree(sessions1, external, copy);
      CopyIsMade(blocks0, sessions0, blocks1, sessions1, blocks, sessions, external, evicted, s, index, copy, clock);
      return Ok(copy);
    }

    method RecordCow()
      requires Valid()
      modifies this`metrics
      ensures Valid() && metrics == old(metrics).(cowClones := old(metrics).cowClones + 1)
    {
      hide PoolOk;
      PeaksIgnore(blocks, freeList, sessions, external, names, metrics, metrics.(cowClones := metrics.cowClones + 1));
      metrics := metrics.(cowClones := metrics.cowClones + 1);
    }

    /** Fills the new block from the old one and puts it into the session's table. */
    method InstallCopy(s: SessionId, index: nat, copy: BlockId)
      requires Valid() && s in sessions && index < |sessions[s].table| && copy in blocks && blocks[copy].refCount == 1
      requires copy in external && external[copy] == 1 && copy !in sessions[s].owned
      requires sessions[s].table[index] in blocks && blocks[sessions[s].table[index]].refCount > 1
      modifies this`blocks, this`freeList, this`sessions, this`clock, this`external
      ensures Valid() && clock == old(clock) + 1 && freeList == old(freeList) && external == old(external)[copy := 0]
      ensures sessions == old(sessions)[s := Replaced(old(sessions)[s], index, copy, clock)]
      ensures blocks.Keys == old(blocks).Keys
      ensures var source := old(blocks)[old(sessions)[s].table[index]];
              blocks[copy] == PoolBlock(source.rows, 1, source.hash, clock, old(blocks)[copy].revision + 1)
      ensures JustUsed(sessions, s, clock) && blocks[copy].lastAccess == clock
      ensures forall x :: x in blocks && x != copy ==> blocks[x] == old(blocks)[x].(refCount := blocks[x].refCount)
    {
      hide PoolOk, ClockOk, JustUsed;
      var b := sessions[s].table[index];
      FillCopy(s, index, copy);
      if b !in sessions[s].table {
        GiveBackShared(b);
        assert external == old(external)[copy := 0];
      }
    }

    /** The block is filled and in the table; the reference to the old block, if it is to be given up, is held. */
    method FillCopy(s: SessionId, index: nat, copy: BlockId)
      requires Valid() && s in sessions && index < |sessions[s].table| && copy in blocks && blocks[copy].refCount == 1
      requires copy in external && external[copy] == 1 && copy !in sessions[s].owned
      requires sessions[s].table[index] in blocks && blocks[sessions[s].table[index]].refCount > 1
      modifies this`blocks, this`sessions, this`clock, this`external
      ensures Valid() && clock == old(clock) + 1 && JustUsed(sessions, s, clock)
      ensures sessions == old(sessions)[s := Replaced(old(sessions)[s], index, copy, clock)]
      ensures var b := old(sessions)[s].table[index];
              var source := old(blocks)[b];
              && copy != b && b in old(external) && blocks == old(blocks)[copy :=
                   PoolBlock(source.rows, 1, source.hash, clock, old(blocks)[copy].revision + 1)]
              && external == if b in sessions[s].table then old(external)[copy := 0]
                             else old(external)[copy := 0][b := old(external)[b] + 1]
    {
      hide PoolOk, ClockOk, JustUsed, Replaced, CopyOf;
      var b := sessions[s].table[index];
      clock := clock + 1;
      var replaced := Replaced(sessions[s], index, copy, clock);
      CopyOk(blocks, freeList, sessions, external, names, metrics, s, index, copy, clock);
      CopyClock(blocks, sessions, s, index, copy, clock);
      CopyOfMeans(blocks[b], blocks[copy], clock);
      blocks := blocks[copy := CopyOf(blocks[b], blocks[copy], clock)];
      sessions := sessions[s := replaced];
      external := if b in replaced.table then external[copy := 0] else external[copy := 0][b := external[b] + 1];
    }

    /** Gives back a reference to a block that has others. */
    method GiveBackShared(b: BlockId)
      requires Valid() && b in blocks && blocks[b].refCount > 1 && b in external && external[b] > 0
      modifies this`blocks, this`freeList, this`external
      ensures Valid() && freeList == old(freeList) && external == old(external)[b := old(external)[b] - 1]
      ensures blocks == old(blocks)[b := old(blocks)[b].(refCount := old(blocks)[b].refCount - 1)]
    {
      hide PoolOk, Released, ClockOk;
      var _ := Release(b);
    }

    // -------------------------------------------------------------- contents and hashes

    /** Appends a token to a block with a single holder. The block loses its hash. */
    method AppendRow(b: BlockId, t: Token) returns (r: Option<Outcome<nat>>)
      requires Valid()
      modifies this`blocks
      ensures Valid()
      ensures r.Some? <==> b in old(blocks) && old(blocks)[b].refCount == 1
      ensures r == None || r.value.Err? ==> blocks == old(blocks)
      ensures r.Some? ==>
        r.value == if |old(blocks)[b].rows| >= capacity then Err(CapacityExceeded(1, 0)) else Ok(|old(blocks)[b].rows|)
      ensures r.Some? && r.value.Ok? ==>
        blocks == old(blocks)[b := old(blocks)[b].(rows := old(blocks)[b].rows + [t], hash := None,
                                                   revision := old(blocks)[b].revision + 1)]
    {
      hide PoolOk;
      if b !in blocks || blocks[b].refCount != 1 {
        return None;
      }
      if |blocks[b].rows| >= capacity {
        return Some(Err(CapacityExceeded(1, 0)));
      }
      var index := |blocks[b].rows|;
      var block := blocks[b].(rows := blocks[b].rows + [t], hash := None, revision := blocks[b].revision + 1);
      TouchOk(blocks, freeList, sessions, external, names, metrics, b, block);
      blocks := blocks[b := block];
      return Some(Ok(index));
    }

    /** Labels a block with a single holder, or removes its label. Labels stay truthful exactly if the hash names
        the contents of the block. */
    method SetHash(b: BlockId, hash: Option<Hash>) returns (r: bool)
      requires Valid()
      modifies this`blocks
      ensures r <==> b in old(blocks) && old(blocks)[b].refCount == 1
      ensures blocks == if r then old(blocks)[b := old(blocks)[b].(hash := hash)] else old(blocks)
      ensures Valid() <==> (r && hash.Some? ==> old(blocks)[b].rows == names(hash.value))
    {
      hide PoolOk;
      if b !in blocks || blocks[b].refCount != 1 {
        return false;
      }
      if hash.Some? && blocks[b].rows != names(hash.value) {
        MislabelBreaks(blocks, freeList, sessions, external, names, metrics, b, hash.value);
      } else {
        TouchOk(blocks, freeList, sessions, external, names, metrics, b, blocks[b].(hash := hash));
      }
      blocks := blocks[b := blocks[b].(hash := hash)];
      return true;
    }

    // -------------------------------------------------------------- the prefix index

    /** Registers the blocks of a prefix under the hash of its last block, or forgets the hash if they do not fit it. */
    method RegisterPrefix(hash: Hash, ids: seq<BlockId>)
      requires Valid()
      modifies this`prefixes
      ensures prefixes ==
        if Registrable(blocks, hash, ids) then old(prefixes)[hash := EntryOf(blocks, ids)] else old(prefixes) - {hash}
      ensures hash in prefixes <==>
        && ids != [] && (forall k :: 0 <= k < |ids| ==> ids[k] in blocks && blocks[ids[k]].refCount > 0)
        && (forall k :: 0 <= k < |ids| ==> blocks[ids[k]].hash.Some?) && blocks[ids[|ids| - 1]].hash == Some(hash)
      ensures hash in prefixes ==> |prefixes[hash]| == |ids| && forall k :: 0 <= k < |ids| ==>
        prefixes[hash][k].id == ids[k] && Some(prefixes[hash][k].hash) == blocks[ids[k]].hash
      ensures hash in prefixes ==> StillMatches(blocks, hash, prefixes[hash])
    {
      hide PoolOk;
      var entry: seq<PrefixBlock> := [];
      var i := 0;
      while i < |ids| && ids[i] in blocks && blocks[ids[i]].refCount > 0 && blocks[ids[i]].hash.Some?
        invariant 0 <= i <= |ids| && |entry| == i
        invariant forall k :: 0 <= k < i ==>
          Labelled1(blocks, ids[k]) && entry[k] == PrefixBlock(ids[k], blocks[ids[k]].hash.value)
      {
        entry := entry + [PrefixBlock(ids[i], blocks[ids[i]].hash.value)];
        i := i + 1;
      }
      if i == |ids| && entry != [] && entry[|entry| - 1].hash == hash {
        assert entry == EntryOf(blocks, ids);
        prefixes := prefixes[hash := entry];
      } else {
        assert i < |ids| ==> !Labelled1(blocks, ids[i]);
        prefixes := prefixes - {hash};
      }
    }

    /** The blocks registered for a hash, if they still carry the hashes they had. Every block returned is live,
        holds exactly the contents its registered hash names, and the last of them the contents asked for:
        whatever blocks were freed, recycled, overwritten or copied since. */
    method LookupPrefix(hash: Hash) returns (r: Option<seq<BlockId>>)
      requires Valid()
      ensures r.Some? <==> hash in prefixes && StillMatches(blocks, hash, prefixes[hash])
      ensures r.Some? <==>
        && hash in prefixes && prefixes[hash] != [] && prefixes[hash][|prefixes[hash]| - 1].hash == hash
        && forall i :: 0 <= i < |prefixes[hash]| ==>
             var p := prefixes[hash][i];
             p.id in blocks && blocks[p.id].refCount > 0 && blocks[p.id].hash == Some(p.hash)
      ensures r.Some? ==>
        var entry := prefixes[hash];
        && |r.value| == |entry| > 0 && entry[|entry| - 1].hash == hash
        && forall i :: 0 <= i < |entry| ==>
             && r.value[i] == entry[i].id && r.value[i] in blocks && blocks[r.value[i]].refCount > 0
             && blocks[r.value[i]].rows == names(entry[i].hash)
    {
      if hash !in prefixes || !StillMatches(blocks, hash, prefixes[hash]) {
        return None;
      }
      var entry := prefixes[hash];
      hide Conserved, PeaksBound;
      return Some(seq(|entry|, i requires 0 <= i < |entry| => entry[i].id));
    }

    /** Appends every block of a registered prefix to a session, or changes nothing. */
    method AttachPrefix(s: SessionId, hash: Hash) returns (r: Option<seq<BlockId>>)
      requires Valid()
      modifies this
      ensures Valid() && PeaksReached(old(metrics), metrics, blocks, freeList) && external == old(external)
      ensures r.Some? <==>
        s in old(sessions) && hash in old(prefixes) && StillMatches(old(blocks), hash, old(prefixes)[hash])
      ensures r.None? ==> unchanged(this)
      ensures r.Some? ==> JustUsed(sessions, s, clock) && UsedSince(blocks, r.value, old(clock))
      ensures r.Some? ==>
        prefixes == old(prefixes) && freeList == old(freeList) &&
          Attached(old(blocks), old(sessions), blocks, sessions, s, r.value)
      ensures r.Some? ==> |r.value| == |old(prefixes)[hash]| && forall i :: 0 <= i < |r.value| ==>
        r.value[i] == old(prefixes)[hash][i].id
    {
      hide PoolOk, PeaksReached, StillMatches, Attached, Conserved, PeaksBound, ClockOk, JustUsed, AppendedNow;
      hide UsedSince, Appended, Shared;
      PeaksSame(metrics, blocks, freeList);
      if s !in sessions {
        return None;
      }
      var ids := LookupPrefix(hash);
      if ids.None? {
        return None;
      }
      NothingAttached(blocks, sessions, s);
      NothingUsed(blocks, clock);
      var list := ids.value;
      var i := 0;
      while i < |list|
        invariant 0 <= i <= |list| && Valid() && external == old(external) && freeList == old(freeList) &&
          prefixes == old(prefixes)
        invariant PeaksReached(old(metrics), metrics, blocks, freeList)
        invariant Attached(old(blocks), old(sessions), blocks, sessions, s, list[..i])
        invariant old(clock) <= clock && UsedSince(blocks, list[..i], old(clock))
        invariant i > 0 ==> JustUsed(sessions, s, clock)
      {
        AttachNext(s, list[i], list[..i], old(blocks), old(sessions), old(metrics), old(clock));
        assert list[..i + 1] == list[..i] + [list[i]];
        i := i + 1;
      }
      assert list[..|list|] == list;
      return ids;
    }

    /** One turn of the loop above. */
    method AttachNext(s: SessionId, b: BlockId, ghost ids: seq<BlockId>, ghost blocks0: Blocks,
                      ghost sessions0: Sessions, ghost metrics0: Metrics, ghost clock0: nat)
      requires Valid() && b in blocks0 && blocks0[b].refCount > 0 && clock0 <= clock
      requires Attached(blocks0, sessions0, blocks, sessions, s, ids) && UsedSince(blocks, ids, clock0)
      requires PeaksReached(metrics0, metrics, blocks, freeList)
      modifies this`blocks, this`sessions, this`clock, this`metrics, this`external
      ensures Valid() && external == old(external) && clock0 < clock && JustUsed(sessions, s, clock)
      ensures Attached(blocks0, sessions0, blocks, sessions, s, ids + [b]) && UsedSince(blocks, ids + [b], clock0)
      ensures PeaksReached(metrics0, metrics, blocks, freeList)
    {
      hide PoolOk, PeaksReached, Attached, Conserved, PeaksBound, ClockOk, JustUsed, AppendedNow, UsedSince, Appended;
      hide Shared;
      AttachedLive(blocks0, sessions0, blocks, sessions, s, ids, b);
      ghost var blocks1, sessions1, metrics1 := blocks, sessions, metrics;
      var _ := AppendInner(s, b, true);
      AttachOne(blocks0, sessions0, blocks1, sessions1, s, ids, b, clock);
      AppendedAt(blocks1, sessions1, blocks, sessions, s, b, clock);
      UsedOneMore(blocks1, blocks, ids, b, clock0);
      HoldsCover(blocks, freeList, sessions, external, names, metrics);
      PeaksGrow(metrics0, metrics1, metrics, blocks1, blocks, freeList, b);
    }
  }

  /** The block is at the end of the session's table, and both were used now; the other sessions, and the contents
      of all blocks, are as they were. */
  ghost predicate AppendedNow(blocks0: Blocks, sessions0: Sessions, blocks: Blocks, sessions: Sessions, s: SessionId,
                              b: BlockId, clock: nat)
  {
    && s in sessions0 && JustUsed(sessions, s, clock) && sessions == sessions0[s := sessions[s]]
    && sessions[s].table == sessions0[s].table + [b] && sessions[s].owned == sessions0[s].owned + {b}
    && sessions[s].createdAt == sessions0[s].createdAt
    && b in blocks0 && b in blocks && blocks == blocks0[b := blocks[b]] && blocks[b].lastAccess == clock
    && blocks[b].rows == blocks0[b].rows && blocks[b].hash == blocks0[b].hash
    && blocks[b].revision == blocks0[b].revision
  }

  lemma AppendClock(blocks: Blocks, sessions: Sessions, s: SessionId, b: BlockId, gained: bool, clock: nat)
    requires clock > 0 && ClockOk(blocks, sessions, clock - 1) && s in sessions && b in blocks
    ensures var blocks' := blocks[b := Shared(blocks[b], gained, clock)];
            var sessions' := sessions[s := Appended(sessions[s], b, clock)];
            ClockOk(blocks', sessions', clock) && AppendedNow(blocks, sessions, blocks', sessions', s, b, clock)
  {
  }

  function Appended(session: Session, b: BlockId, access: nat): Session {
    session.(table := session.table + [b], owned := session.owned + {b}, lastAccess := access)
  }

  function Shared(block: PoolBlock, gained: bool, access: nat): PoolBlock {
    block.(refCount := block.refCount + (if gained then 1 else 0), lastAccess := access)
  }

  lemma ElementsGrow(table: seq<BlockId>, b: BlockId)
    ensures Elements(table + [b]) == Elements(table) + {b}
  {
  }

  lemma AppendOk(blocks: Blocks, free: seq<BlockId>, sessions: Sessions, external: Holds, names: Hash -> seq<Token>,
                 m: Metrics,
                 s: SessionId, b: BlockId, retain: bool, access: nat)
    requires PoolOk(blocks, free, sessions, external, names, m) && s in sessions && b in blocks &&
      blocks[b].refCount > 0
    requires !retain && b !in sessions[s].owned ==> b in external && external[b] > 0
    ensures b in external
    ensures var gained := retain && b !in sessions[s].owned;
            var blocks' := blocks[b := Shared(blocks[b], gained, access)];
            var m' := if gained
              then m.(refIncrements := m.refIncrements + 1, maxRef := Max(m.maxRef, blocks[b].refCount + 1)) else m;
            var external' := if retain || b in sessions[s].owned then external else external[b := external[b] - 1];
            && PoolOk(blocks', free, sessions[s := Appended(sessions[s], b, access)], external', names, m')
            && PeaksReached(m, m', blocks', free)
  {
    HoldsCover(blocks, free, sessions, external, names, m);
    AppendedOk(blocks, free, sessions, external, names, m, s, b, access);
    hide PoolOk, PeaksReached, Conserved, SessionOk;
    var session := Appended(sessions[s], b, access);
    if retain && b !in sessions[s].owned {
      AppendRetained(blocks, free, sessions, external, names, m, s, b, access);
    } else {
      var external' := if b in sessions[s].owned then external else external[b := external[b] - 1];
      if b in sessions[s].owned {
        assert session.owned == sessions[s].owned;
        SessionOkOk(blocks, free, sessions, external, names, m, s, session);
      } else {
        GiveOk(blocks, free, sessions, external, names, m, s, session, b);
      }
      LabelledAt(blocks, free, sessions, external, names, m, b);
      TouchOk(blocks, free, sessions[s := session], external', names, m, b, Shared(blocks[b], false, access));
      PeaksSame(m, blocks[b := Shared(blocks[b], false, access)], free);
    }
  }

  lemma MislabelBreaks(blocks: Blocks, free: seq<BlockId>, sessions: Sessions, external: Holds,
                       names: Hash -> seq<Token>,
                       m: Metrics, b: BlockId, hash: Hash)
    requires b in blocks && blocks[b].rows != names(hash)
    ensures !PoolOk(blocks[b := blocks[b].(hash := Some(hash))], free, sessions, external, names, m)
  {
    var after := blocks[b := blocks[b].(hash := Some(hash))];
    assert b in after && after[b].hash == Some(hash);
    assert !Labelled(after, names);
  }

  lemma LabelledAt(blocks: Blocks, free: seq<BlockId>, sessions: Sessions, external: Holds, names: Hash -> seq<Token>,
                   m: Metrics, b: BlockId)
    requires PoolOk(blocks, free, sessions, external, names, m) && b in blocks
    ensures blocks[b].hash.Some? ==> blocks[b].rows == names(blocks[b].hash.value)
  {
  }

  lemma AppendedOk(blocks: Blocks, free: seq<BlockId>, sessions: Sessions, external: Holds, names: Hash -> seq<Token>,
                   m: Metrics,
                   s: SessionId, b: BlockId, access: nat)
    requires PoolOk(blocks, free, sessions, external, names, m) && s in sessions && b in blocks
    ensures SessionOk(s, Appended(sessions[s], b, access), blocks)
  {
    assert SessionOk(s, sessions[s], blocks);
    ElementsGrow(sessions[s].table, b);
  }

  lemma AppendRetained(blocks: Blocks, free: seq<BlockId>, sessions: Sessions, external: Holds,
                       names: Hash -> seq<Token>, m: Metrics,
                       s: SessionId, b: BlockId, access: nat)
    requires PoolOk(blocks, free, sessions, external, names, m) && s in sessions && b in blocks &&
      blocks[b].refCount > 0
    requires b !in sessions[s].owned && SessionOk(s, Appended(sessions[s], b, access), blocks)
    ensures var blocks' := blocks[b := Shared(blocks[b], true, access)];
            var m' := m.(refIncrements := m.refIncrements + 1, maxRef := Max(m.maxRef, blocks[b].refCount + 1));
            && PoolOk(blocks', free, sessions[s := Appended(sessions[s], b, access)], external, names, m')
            && PeaksReached(m, m', blocks', free)
  {
    hide PoolOk, PeaksReached;
    var session := Appended(sessions[s], b, access);
    var m' := m.(refIncrements := m.refIncrements + 1, maxRef := Max(m.maxRef, blocks[b].refCount + 1));
    var mid := blocks[b := blocks[b].(refCount := blocks[b].refCount + 1)];
    RetainOk(blocks, free, sessions, external, names, m, b);
    assert SessionOk(s, session, mid);
    hide SessionOk;
    GiveOk(mid, free, sessions, external[b := external[b] + 1], names, m', s, session, b);
    assert external[b := external[b] + 1][b := external[b]] == external;
    LabelledAt(blocks, free, sessions, external, names, m, b);
    TouchOk(mid, free, sessions[s := session], external, names, m', b, Shared(blocks[b], true, access));
    assert mid[b := Shared(blocks[b], true, access)] == blocks[b := Shared(blocks[b], true, access)];
    PeaksAt(m, m', blocks, free, b, Shared(blocks[b], true, access));
  }

  lemma PeaksAt(m: Metrics, m': Metrics, blocks: Blocks, free: seq<BlockId>, b: BlockId, block: PoolBlock)
    requires m'.highWater == m.highWater && m'.maxRef == Max(m.maxRef, block.refCount)
    ensures PeaksReached(m, m', blocks[b := block], free)
  {
    assert blocks[b := block][b].refCount == block.refCount;
  }

  lemma SessionOkOk(blocks: Blocks, free: seq<BlockId>, sessions: Sessions, external: Holds, names: Hash -> seq<Token>,
                    m: Metrics,
                    s: SessionId, session: Session)
    requires PoolOk(blocks, free, sessions, external, names, m) && SessionOk(s, session, blocks)
    requires session.owned == if s in sessions then sessions[s].owned else {}
    ensures PoolOk(blocks, free, sessions[s := session], external, names, m)
  {
    SessionUpdateConserves(blocks, free, sessions, external, s, session);
  }

  lemma GiveOk(blocks: Blocks, free: seq<BlockId>, sessions: Sessions, external: Holds, names: Hash -> seq<Token>,
               m: Metrics,
               s: SessionId, session: Session, b: BlockId)
    requires PoolOk(blocks, free, sessions, external, names, m) && s in sessions && b in blocks && b in external &&
      external[b] > 0
    requires b !in sessions[s].owned && session.owned == sessions[s].owned + {b} && SessionOk(s, session, blocks)
    ensures PoolOk(blocks, free, sessions[s := session], external[b := external[b] - 1], names, m)
  {
    GiveConserves(blocks, free, sessions, external, s, session, b);
  }

  lemma TouchOk(blocks: Blocks, free: seq<BlockId>, sessions: Sessions, external: Holds, names: Hash -> seq<Token>,
                m: Metrics,
                b: BlockId, block: PoolBlock)
    requires PoolOk(blocks, free, sessions, external, names, m) && b in blocks && block.refCount == blocks[b].refCount
    requires block.hash.Some? ==> block.rows == names(block.hash.value)
    ensures PoolOk(blocks[b := block], free, sessions, external, names, m)
  {
    UpdateConserves(blocks, free, sessions, external, b, block);
    SizeKept(blocks, b, block);
    hide Conserved;
  }

  /** Every block of the pool is held by this session or by callers. */
  ghost predicate HeldByOrExternal(blocks: Blocks, session: Session, external: Holds) {
    forall b :: b in blocks ==> b in session.owned || (b in external && external[b] > 0)
  }

  lemma NotEvicted(sessions: Sessions, blocks: Blocks, external: Holds, excluded: SessionId, evicted: seq<SessionId>)
    requires EvictedInOrder(sessions, blocks, external, excluded, evicted)
    ensures excluded !in evicted
    ensures excluded in sessions ==>
      excluded in Without(sessions, evicted) && Without(sessions, evicted)[excluded] == sessions[excluded]
  {
    forall i | 0 <= i < |evicted| ensures evicted[i] != excluded {
      assert EvictedAt(sessions, blocks, external, excluded, evicted, i);
    }
  }

  /** After eviction there is a free block exactly if not every block is held by the requester or by callers. */
  lemma RoomIff(blocks0: Blocks, blocks: Blocks, free: seq<BlockId>, sessions: Sessions, external: Holds,
                names: Hash -> seq<Token>, m: Metrics,
                s: SessionId)
    requires PoolOk(blocks, free, sessions, external, names, m) && s in sessions &&
      KeptIfHeld(blocks0, blocks, sessions, external)
    requires free != [] || forall t :: !Candidate(sessions, Some(s), t)
    ensures free != [] <==> !HeldByOrExternal(blocks0, sessions[s], external)
  {
    HoldsCover(blocks, free, sessions, external, names, m);
    hide PoolOk, PeaksBound, Labelled;
    if free != [] {
      var b := free[0];
      assert b in free && b in blocks;
      FreeIffUnheld(blocks, free, sessions, external, b);
      assert b in sessions[s].owned ==> s in Owners(sessions, b);
    } else {
      hide KeptIfHeld;
      KeptKeys(blocks0, blocks, sessions, external);
      forall b | b in blocks0 ensures b in sessions[s].owned || (b in external && external[b] > 0) {
        OnlyHolder(blocks, sessions, external, s, b);
      }
    }
  }

  lemma KeptKeys(before: Blocks, after: Blocks, sessions: Sessions, external: Holds)
    requires KeptIfHeld(before, after, sessions, external)
    ensures after.Keys == before.Keys
  {
  }

  /** With nothing free and no other session to evict, every block is held by this session or by callers. */
  lemma OnlyHolder(blocks: Blocks, sessions: Sessions, external: Holds, s: SessionId, b: BlockId)
    requires Conserved(blocks, [], sessions, external) && b in blocks && forall t :: !Candidate(sessions, Some(s), t)
    ensures (s in sessions && b in sessions[s].owned) || (b in external && external[b] > 0)
  {
    FreeIffUnheld(blocks, [], sessions, external, b);
    if Owners(sessions, b) != {} {
      var t :| t in Owners(sessions, b);
      assert SessionOk(t, sessions[t], blocks);
      hide Conserved;
      assert b in sessions[t].table;
      assert t == s || Candidate(sessions, Some(s), t);
    }
  }

  lemma KeptButOne(first: Blocks, mid: Blocks, last: Blocks, sessions: Sessions, external: Holds, b: BlockId)
    requires KeptIfHeld(first, mid, sessions, external) && !Held(sessions, external, b)
    requires last.Keys == mid.Keys && forall x :: x in mid && x != b ==> last[x] == mid[x]
    ensures KeptIfHeld(first, last, sessions, external)
  {
  }

  lemma NotOwned(sessions: Sessions, s: SessionId, b: BlockId)
    requires Owners(sessions, b) == {} && s in sessions
    ensures b !in sessions[s].owned
  {
    assert b in sessions[s].owned ==> s in Owners(sessions, b);
  }

  lemma PeaksChain(m0: Metrics, m1: Metrics, m2: Metrics, blocks: Blocks, free: seq<BlockId>)
    requires m1.highWater == m0.highWater && m1.maxRef == m0.maxRef && PeaksReached(m1, m2, blocks, free)
    ensures PeaksReached(m0, m2, blocks, free)
  {
  }

  lemma PeaksSameRefs(m0: Metrics, m: Metrics, blocks: Blocks, blocks': Blocks, free: seq<BlockId>, b: BlockId)
    requires PeaksReached(m0, m, blocks, free) && b in blocks && b in blocks' && blocks' == blocks[b := blocks'[b]]
    requires blocks'[b].refCount == blocks[b].refCount
    ensures PeaksReached(m0, m, blocks', free)
  {
    SizeKept(blocks, b, blocks'[b]);
    if x :| x in blocks && blocks[x].refCount == m.maxRef {
      assert blocks'[x].refCount == m.maxRef;
    }
  }

  /** The highest reference count in the pool. */
  ghost predicate IsTop(blocks: Blocks, top: nat) {
    && (forall b :: b in blocks ==> blocks[b].refCount <= top)
    && (top == 0 || exists b :: b in blocks && blocks[b].refCount == top)
  }

  ghost function SharedBlocks(blocks: Blocks): set<BlockId> {
    set b | b in blocks && blocks[b].refCount > 1
  }

  /** One pass over the blocks: those in use, those with several references, all references, and the most of any. */
  method CountBlocks(blocks: Blocks) returns (resident: nat, shared: nat, refTotal: nat, maxRef: nat)
    ensures resident == |Used(blocks)| && shared == |SharedBlocks(blocks)| && IsTop(blocks, maxRef)
    ensures refTotal == Sum(RefCounts(blocks), blocks.Keys)
  {
    hide Sum;
    resident, shared, refTotal, maxRef := 0, 0, 0, 0;
    var todo := blocks.Keys;
    CountStart(blocks);
    while todo != {}
      invariant todo <= blocks.Keys
      invariant resident + |UsedAmong(blocks, todo)| == |Used(blocks)|
      invariant shared + |SharedAmong(blocks, todo)| == |SharedBlocks(blocks)|
      invariant refTotal + Sum(RefCounts(blocks), todo) == Sum(RefCounts(blocks), blocks.Keys)
      invariant forall b :: b in blocks && b !in todo ==> blocks[b].refCount <= maxRef
      invariant maxRef == 0 || exists b :: b in blocks && blocks[b].refCount == maxRef
      decreases |todo|
    {
      var b :| b in todo;
      CountStep(blocks, todo, b);
      hide UsedAmong, SharedAmong, RefCounts;
      todo := todo - {b};
      if blocks[b].refCount > 0 {
        resident, refTotal, maxRef := resident + 1, refTotal + blocks[b].refCount, Max(maxRef, blocks[b].refCount);
        if blocks[b].refCount > 1 {
          shared := shared + 1;
        }
      }
    }
    CountEnd(blocks);
  }

  lemma CountStart(blocks: Blocks)
    ensures UsedAmong(blocks, blocks.Keys) == Used(blocks) && SharedAmong(blocks, blocks.Keys) == SharedBlocks(blocks)
  {
  }

  lemma CountEnd(blocks: Blocks)
    ensures Sum(RefCounts(blocks), {}) == 0 && UsedAmong(blocks, {}) == {} && SharedAmong(blocks, {}) == {}
  {
  }

  lemma CountStep(blocks: Blocks, keys: set<BlockId>, b: BlockId)
    requires b in keys && keys <= blocks.Keys
    ensures |UsedAmong(blocks, keys)| == |UsedAmong(blocks, keys - {b})| + if blocks[b].refCount > 0 then 1 else 0
    ensures |SharedAmong(blocks, keys)| == |SharedAmong(blocks, keys - {b})| + if blocks[b].refCount > 1 then 1 else 0
    ensures Sum(RefCounts(blocks), keys) == Sum(RefCounts(blocks), keys - {b}) + blocks[b].refCount
  {
    UsedStep(blocks, keys, b);
    SharedStep(blocks, keys, b);
    hide UsedAmong, SharedAmong, Sum;
    SumAt(RefCounts(blocks), keys, b);
  }

  lemma UsedStep(blocks: Blocks, keys: set<BlockId>, b: BlockId)
    requires b in keys && b in blocks
    ensures |UsedAmong(blocks, keys)| == |UsedAmong(blocks, keys - {b})| + if blocks[b].refCount > 0 then 1 else 0
  {
    var rest := UsedAmong(blocks, keys - {b});
    assert UsedAmong(blocks, keys) == if blocks[b].refCount > 0 then rest + {b} else rest;
  }

  lemma SharedStep(blocks: Blocks, keys: set<BlockId>, b: BlockId)
    requires b in keys && b in blocks
    ensures |SharedAmong(blocks, keys)| == |SharedAmong(blocks, keys - {b})| + if blocks[b].refCount > 1 then 1 else 0
  {
    var rest := SharedAmong(blocks, keys - {b});
    assert SharedAmong(blocks, keys) == if blocks[b].refCount > 1 then rest + {b} else rest;
  }

  ghost function SharedAmong(blocks: Blocks, keys: set<BlockId>): set<BlockId> {
    set b | b in keys && b in blocks && blocks[b].refCount > 1
  }

  /** The entries of all session tables. */
  method CountEntries(sessions: Sessions) returns (active: nat)
    ensures active == Sum(TableCounts(sessions), sessions.Keys)
  {
    active := 0;
    var todo := sessions.Keys;
    while todo != {}
      invariant todo <= sessions.Keys &&
        active + Sum(TableCounts(sessions), todo) == Sum(TableCounts(sessions), sessions.Keys)
      decreases |todo|
    {
      var s :| s in todo;
      SumAt(TableCounts(sessions), todo, s);
      todo := todo - {s};
      active := active + |sessions[s].table|;
    }
  }

  ghost function UsedAmong(blocks: Blocks, keys: set<BlockId>): set<BlockId> {
    set b | b in keys && b in blocks && blocks[b].refCount > 0
  }

  /** A pool of free blocks is in order. */
  lemma NothingHeld(blocks: Blocks, free: seq<BlockId>, external: Holds, names: Hash -> seq<Token>, m: Metrics)
    requires Distinct(free) && (forall b :: b in free <==> b in blocks) && |free| == |blocks|
    requires forall b :: b in blocks ==> blocks[b] == PoolBlock([], 0, None, 0, 0)
    requires external.Keys == blocks.Keys && forall b :: b in external ==> external[b] == 0
    ensures PoolOk(blocks, free, map[], external, names, m)
  {
    forall b | b in blocks ensures Counted(blocks, map[], external, b) {
      assert Owners(map[], b) == {};
    }
  }

  method EmptyBlocks(count: nat, firstId: nat) returns (blocks: Blocks, list: seq<BlockId>)
    ensures |list| == count && Distinct(list) && (forall b :: b in list <==> b in blocks)
    ensures forall b :: b in blocks ==> blocks[b] == PoolBlock([], 0, None, 0, 0)
    ensures |blocks| == count && forall k :: 0 <= k < count ==> list[k] == firstId + k
  {
    blocks, list := map[], [];
    for i := 0 to count
      invariant |list| == i == |blocks| && (forall k :: 0 <= k < i ==> list[k] == firstId + k)
      invariant forall b :: b in list <==> b in blocks
      invariant forall b :: b in blocks ==> b < firstId + i && blocks[b] == PoolBlock([], 0, None, 0, 0)
    {
      blocks := blocks[firstId + i := PoolBlock([], 0, None, 0, 0)];
      list := list + [firstId + i];
    }
  }

  // ---------------------------------------------------------------- prefixes

  predicate Labelled1(blocks: Blocks, b: BlockId) {
    b in blocks && blocks[b].refCount > 0 && blocks[b].hash.Some?
  }

  /** Live, hashed blocks, the last of them with this hash. */
  predicate Registrable(blocks: Blocks, hash: Hash, ids: seq<BlockId>) {
    && ids != [] && (forall i :: 0 <= i < |ids| ==> Labelled1(blocks, ids[i]))
    && blocks[ids[|ids| - 1]].hash.value == hash
  }

  function EntryOf(blocks: Blocks, ids: seq<BlockId>): seq<PrefixBlock>
    requires forall i :: 0 <= i < |ids| ==> Labelled1(blocks, ids[i])
  {
    seq(|ids|, i requires 0 <= i < |ids| =>
      (assert Labelled1(blocks, ids[i]); PrefixBlock(ids[i], blocks[ids[i]].hash.value)))
  }

  /** Every block of the entry is live and still has the hash it was registered with; the last is the entry's. */
  predicate StillMatches(blocks: Blocks, hash: Hash, entry: seq<PrefixBlock>) {
    && entry != [] && entry[|entry| - 1].hash == hash
    && forall i :: 0 <= i < |entry| ==>
       Labelled1(blocks, entry[i].id) && blocks[entry[i].id].hash == Some(entry[i].hash)
  }

  /** Session `s` has got the blocks `ids` at the end of its table; each it did not own before has one more
      reference; contents, hashes and all other sessions are as they were. */
  ghost predicate Attached(blocks0: Blocks, sessions0: Sessions, blocks: Blocks, sessions: Sessions, s: SessionId,
                           ids: seq<BlockId>) {
    && s in sessions0 && s in sessions && sessions == sessions0[s := sessions[s]]
    && sessions[s].table == sessions0[s].table + ids && sessions[s].owned == sessions0[s].owned + Elements(ids)
    && blocks.Keys == blocks0.Keys
    && forall b :: b in blocks0 ==> AttachedAt(blocks0, sessions0[s].owned, blocks, ids, b)
  }

  /** Every one of these blocks was used after `time`. */
  ghost predicate UsedSince(blocks: Blocks, ids: seq<BlockId>, time: nat) {
    forall b :: b in ids ==> b in blocks && time < blocks[b].lastAccess
  }

  lemma NothingUsed(blocks: Blocks, time: nat)
    ensures UsedSince(blocks, [], time)
  {
  }

  lemma UsedOneMore(before: Blocks, after: Blocks, ids: seq<BlockId>, b: BlockId, time: nat)
    requires UsedSince(before, ids, time) && b in after && after == before[b := after[b]] && time < after[b].lastAccess
    ensures UsedSince(after, ids + [b], time)
  {
  }

  /** What an append at a later time says of the session and the block. */
  lemma AppendedAt(blocks0: Blocks, sessions0: Sessions, blocks: Blocks, sessions: Sessions, s: SessionId, b: BlockId,
                   clock: nat)
    requires AppendedNow(blocks0, sessions0, blocks, sessions, s, b, clock)
    ensures JustUsed(sessions, s, clock) && b in blocks && blocks == blocks0[b := blocks[b]]
    ensures blocks[b].lastAccess == clock
  {
  }

  ghost predicate AttachedAt(blocks0: Blocks, owned: set<BlockId>, blocks: Blocks, ids: seq<BlockId>, b: BlockId)
    requires b in blocks0 && b in blocks
  {
    && blocks[b].rows == blocks0[b].rows && blocks[b].hash == blocks0[b].hash &&
       blocks[b].revision == blocks0[b].revision
    && blocks[b].refCount == blocks0[b].refCount + (if b in ids && b !in owned then 1 else 0)
  }

  lemma NothingAttached(blocks: Blocks, sessions: Sessions, s: SessionId)
    requires s in sessions
    ensures Attached(blocks, sessions, blocks, sessions, s, [])
  {
    assert sessions[s].table + [] == sessions[s].table && Elements([]) == {};
  }

  lemma AttachedLive(blocks0: Blocks, sessions0: Sessions, blocks: Blocks, sessions: Sessions, s: SessionId,
                     ids: seq<BlockId>, b: BlockId)
    requires Attached(blocks0, sessions0, blocks, sessions, s, ids) && b in blocks0 && blocks0[b].refCount > 0
    ensures s in sessions && b in blocks && blocks[b].refCount > 0
  {
    assert AttachedAt(blocks0, sessions0[s].owned, blocks, ids, b);
  }

  lemma AttachOne(blocks0: Blocks, sessions0: Sessions, blocks: Blocks, sessions: Sessions, s: SessionId,
                  ids: seq<BlockId>, b: BlockId, access: nat)
    requires Attached(blocks0, sessions0, blocks, sessions, s, ids) && b in blocks
    ensures Attached(blocks0, sessions0, blocks[b := Shared(blocks[b], b !in sessions[s].owned, access)],
                     sessions[s := Appended(sessions[s], b, access)], s, ids + [b])
  {
    ElementsGrow(ids, b);
    assert sessions0[s].table + (ids + [b]) == sessions0[s].table + ids + [b];
    var blocks' := blocks[b := Shared(blocks[b], b !in sessions[s].owned, access)];
    forall x | x in blocks0 ensures AttachedAt(blocks0, sessions0[s].owned, blocks', ids + [b], x) {
      assert AttachedAt(blocks0, sessions0[s].owned, blocks, ids, x);
      assert x in Elements(ids) <==> x in ids;
    }
  }

  lemma PeaksGrow(m0: Metrics, m1: Metrics, m: Metrics, blocks1: Blocks, blocks: Blocks, free: seq<BlockId>, b: BlockId)
    requires PeaksReached(m0, m1, blocks1, free) && PeaksReached(m1, m, blocks, free)
    requires b in blocks1 && b in blocks && blocks == blocks1[b := blocks[b]] &&
      blocks[b].refCount >= blocks1[b].refCount
    requires PeaksBound(m, blocks, free)
    ensures PeaksReached(m0, m, blocks, free)
  {
    SizeKept(blocks1, b, blocks[b]);
    if m.maxRef == m1.maxRef && m1.maxRef != m0.maxRef {
      var x :| x in blocks1 && blocks1[x].refCount == m1.maxRef;
      assert blocks[x].refCount == m.maxRef;
    }
  }

  // ---------------------------------------------------------------- copy on write

  /** Session `s` has at `index` a block only it holds, with the rows and hash the block there had before;
      the other sessions left are as they were. */
  ghost predicate CopyMade(blocks0: Blocks, sessions0: Sessions, blocks: Blocks, sessions: Sessions,
                           evicted: seq<SessionId>,
                           s: SessionId, index: nat, copy: BlockId, access: nat)
  {
    && s in sessions0 && index < |sessions0[s].table| && s in sessions
    && var b := sessions0[s].table[index];
       && b in blocks0 && copy in blocks && blocks[copy].refCount == 1
       && blocks[copy].rows == blocks0[b].rows && blocks[copy].hash == blocks0[b].hash
       && sessions[s].table == sessions0[s].table[index := copy] && sessions[s].lastAccess == access
       && sessions == Without(sessions0, evicted)[s := sessions[s]]
       && JustUsed(sessions, s, access) && blocks[copy].lastAccess == access
  }

  lemma CopyClock(blocks: Blocks, sessions: Sessions, s: SessionId, index: nat, copy: BlockId, clock: nat)
    requires clock > 0 && ClockOk(blocks, sessions, clock - 1) && s in sessions && index < |sessions[s].table|
    requires copy in blocks && sessions[s].table[index] in blocks
    ensures var blocks' := blocks[copy := CopyOf(blocks[sessions[s].table[index]], blocks[copy], clock)];
            var sessions' := sessions[s := Replaced(sessions[s], index, copy, clock)];
            ClockOk(blocks', sessions', clock) && JustUsed(sessions', s, clock)
  {
  }

  function CopyOf(source: PoolBlock, target: PoolBlock, access: nat): PoolBlock {
    PoolBlock(source.rows, 1, source.hash, access, target.revision + 1)
  }

  lemma CopyOfMeans(source: PoolBlock, target: PoolBlock, access: nat)
    ensures CopyOf(source, target, access) == PoolBlock(source.rows, 1, source.hash, access, target.revision + 1)
  {
  }

  /** A session with the block at `index` replaced; it gives up the old block when its table no longer names it. */
  function Replaced(session: Session, index: nat, copy: BlockId, access: nat): Session
    requires index < |session.table|
  {
    var previous := session.table[index];
    var table := session.table[index := copy];
    var owned := session.owned + {copy};
    session.(table := table, owned := if previous in table then owned else owned - {previous}, lastAccess := access)
  }

  lemma TableIsLive(blocks: Blocks, free: seq<BlockId>, sessions: Sessions, external: Holds, names: Hash -> seq<Token>,
                    m: Metrics,
                    s: SessionId, index: nat)
    requires PoolOk(blocks, free, sessions, external, names, m) && s in sessions && index < |sessions[s].table|
    ensures var b := sessions[s].table[index]; b in blocks && blocks[b].refCount > 0
  {
    TablesNameLiveBlocks(blocks, free, sessions, external, s, index);
  }

  lemma TouchedSessionOk(blocks: Blocks, free: seq<BlockId>, sessions: Sessions, external: Holds,
                         names: Hash -> seq<Token>,
                         m: Metrics, s: SessionId, access: nat)
    requires PoolOk(blocks, free, sessions, external, names, m) && s in sessions
    ensures PoolOk(blocks, free, sessions[s := sessions[s].(lastAccess := access)], external, names, m)
  {
    assert SessionOk(s, sessions[s], blocks);
    hide PoolOk;
    SessionOkOk(blocks, free, sessions, external, names, m, s, sessions[s].(lastAccess := access));
  }

  /** A block a session owns has that session's reference and the callers'. */
  lemma OwnedCount(blocks: Blocks, free: seq<BlockId>, sessions: Sessions, external: Holds, names: Hash -> seq<Token>,
                   m: Metrics,
                   s: SessionId, index: nat)
    requires PoolOk(blocks, free, sessions, external, names, m) && s in sessions && index < |sessions[s].table|
    ensures var b := sessions[s].table[index];
            b in blocks && b in external && blocks[b].refCount >= 1 + external[b] && Held(sessions, external, b)
  {
    var b := sessions[s].table[index];
    TablesNameLiveBlocks(blocks, free, sessions, external, s, index);
    assert Counted(blocks, sessions, external, b);
    assert {s} <= Owners(sessions, b);
    SubsetSize({s}, Owners(sessions, b));
  }

  lemma SubsetSize<T>(a: set<T>, b: set<T>)
    requires a <= b
    ensures |a| <= |b|
  {
    assert b == a + (b - a);
  }

  /** When no other session is left to evict, a session's block is held by it and by callers only. */
  lemma OnlyOwner(blocks: Blocks, free: seq<BlockId>, sessions: Sessions, external: Holds, names: Hash -> seq<Token>,
                  m: Metrics,
                  s: SessionId, index: nat)
    requires PoolOk(blocks, free, sessions, external, names, m) && s in sessions && index < |sessions[s].table|
    ensures var b := sessions[s].table[index];
            && b in blocks && b in external
            && ((forall t :: !Candidate(sessions, Some(s), t)) ==> blocks[b].refCount == 1 + external[b])
  {
    var b := sessions[s].table[index];
    TablesNameLiveBlocks(blocks, free, sessions, external, s, index);
    assert Counted(blocks, sessions, external, b);
    if forall t :: !Candidate(sessions, Some(s), t) {
      forall t | t in Owners(sessions, b) ensures t == s {
        assert SessionOk(t, sessions[t], blocks);
        assert b in sessions[t].table;
        assert t == s || Candidate(sessions, Some(s), t);
      }
      assert Owners(sessions, b) == {s};
    }
  }

  /** For a block with another holder: no room for a copy exactly if callers hold it and all else is held too. */
  lemma CopyRoom(blocks0: Blocks, blocks: Blocks, free: seq<BlockId>, sessions: Sessions, external: Holds,
                 names: Hash -> seq<Token>,
                 m: Metrics, s: SessionId, index: nat)
    requires PoolOk(blocks, free, sessions, external, names, m) && s in sessions && index < |sessions[s].table|
    requires KeptIfHeld(blocks0, blocks, sessions, external) &&
      (free != [] || forall t :: !Candidate(sessions, Some(s), t))
    requires var b := sessions[s].table[index]; b in blocks && blocks[b].refCount > 1
    ensures var b := sessions[s].table[index];
            b in external && (free == [] <==> external[b] > 0 && HeldByOrExternal(blocks0, sessions[s], external))
  {
    hide PoolOk, HeldByOrExternal, Candidate, KeptIfHeld;
    RoomIff(blocks0, blocks, free, sessions, external, names, m, s);
    OnlyOwner(blocks, free, sessions, external, names, m, s, index);
  }

  lemma OwnedNotFree(blocks: Blocks, free: seq<BlockId>, sessions: Sessions, external: Holds,
                     names: Hash -> seq<Token>, m: Metrics,
                     s: SessionId, index: nat)
    requires PoolOk(blocks, free, sessions, external, names, m) && s in sessions && index < |sessions[s].table|
    ensures sessions[s].table[index] !in free && Owners(sessions, sessions[s].table[index]) != {}
  {
    TablesNameLiveBlocks(blocks, free, sessions, external, s, index);
  }

  lemma ReplacedOwns(session: Session, index: nat, copy: BlockId, access: nat)
    requires index < |session.table| && session.owned == Elements(session.table) && copy !in session.owned
    ensures var r := Replaced(session, index, copy, access); r.owned == Elements(r.table)
  {
    var r := Replaced(session, index, copy, access);
    var previous := session.table[index];
    forall x ensures x in r.owned <==> x in r.table {
      if x in session.table && x != previous {
        var i :| 0 <= i < |session.table| && session.table[i] == x;
        assert r.table[i] == x;
      }
      if x == copy { assert r.table[index] == copy; }
      if x in r.table && x != copy {
        var i :| 0 <= i < |r.table| && r.table[i] == x;
        assert session.table[i] == x;
      }
    }
  }

  /** The new block, filled with the contents of the old one, becomes the session's; the old one, if the table
      no longer names it, is left with a reference still to be given back. */
  lemma CopyOk(blocks: Blocks, free: seq<BlockId>, sessions: Sessions, external: Holds, names: Hash -> seq<Token>,
               m: Metrics,
               s: SessionId, index: nat, copy: BlockId, access: nat)
    requires PoolOk(blocks, free, sessions, external, names, m) && s in sessions && index < |sessions[s].table|
    requires copy in blocks && blocks[copy].refCount == 1 && copy in external && external[copy] == 1 &&
      copy !in sessions[s].owned
    ensures var b := sessions[s].table[index];
            var replaced := Replaced(sessions[s], index, copy, access);
            && b in blocks && b in external && b != copy
            && var external' :=
               if b in replaced.table then external[copy := 0] else external[copy := 0][b := external[b] + 1];
               PoolOk(blocks[copy := CopyOf(blocks[b], blocks[copy], access)], free, sessions[s := replaced],
                      external', names, m)
  {
    var session := sessions[s];
    var b := session.table[index];
    assert SessionOk(s, session, blocks);
    assert b in Elements(session.table);
    HoldsCover(blocks, free, sessions, external, names, m);
    LabelledAt(blocks, free, sessions, external, names, m, b);
    ReplacedOwns(session, index, copy, access);
    hide PoolOk, Conserved;
    var filled := CopyOf(blocks[b], blocks[copy], access);
    TouchOk(blocks, free, sessions, external, names, m, copy, filled);
    if b in Replaced(session, index, copy, access).table {
      GiveOk(blocks[copy := filled], free, sessions, external, names, m, s, Replaced(session, index, copy, access),
             copy);
    } else {
      SwapOk(blocks[copy := filled], free, sessions, external, names, m, s, index, copy, access);
    }
  }

  /** The session gains the new block and then gives up the old one. */
  lemma SwapOk(blocks: Blocks, free: seq<BlockId>, sessions: Sessions, external: Holds, names: Hash -> seq<Token>,
               m: Metrics,
               s: SessionId, index: nat, copy: BlockId, access: nat)
    requires PoolOk(blocks, free, sessions, external, names, m) && s in sessions && index < |sessions[s].table|
    requires copy in blocks && copy in external && external[copy] == 1 && copy !in sessions[s].owned
    requires var b := sessions[s].table[index];
             var replaced := Replaced(sessions[s], index, copy, access);
             b in external && b != copy && b !in replaced.table && SessionOk(s, replaced, blocks) &&
               SessionOk(s, sessions[s], blocks)
    ensures var b := sessions[s].table[index];
            PoolOk(blocks, free, sessions[s := Replaced(sessions[s], index, copy, access)],
                   external[copy := 0][b := external[b] + 1], names, m)
  {
    hide PoolOk;
    var session := sessions[s];
    var b := session.table[index];
    var replaced := Replaced(session, index, copy, access);
    var both := Appended(session, copy, access);
    ElementsGrow(session.table, copy);
    assert b in Elements(session.table);
    GiveOk(blocks, free, sessions, external, names, m, s, both, copy);
    TakeOk(blocks, free, sessions[s := both], external[copy := 0], names, m, s, replaced, b);
    assert sessions[s := both][s := replaced] == sessions[s := replaced];
  }

  lemma OwnedIsHeld(sessions: Sessions, external: Holds, s: SessionId, b: BlockId)
    requires Owners(sessions, b) != {}
    ensures Held(sessions, external, b)
  {
  }

  lemma UnheldIfFree(sessions: Sessions, external: Holds, b: BlockId)
    requires Owners(sessions, b) == {} && b in external && external[b] == 0
    ensures !Held(sessions, external, b)
  {
  }

  lemma TakeOk(blocks: Blocks, free: seq<BlockId>, sessions: Sessions, external: Holds, names: Hash -> seq<Token>,
               m: Metrics,
               s: SessionId, session: Session, b: BlockId)
    requires PoolOk(blocks, free, sessions, external, names, m) && s in sessions && b in sessions[s].owned &&
      b in external
    requires session.owned == sessions[s].owned - {b} && SessionOk(s, session, blocks)
    ensures PoolOk(blocks, free, sessions[s := session], external[b := external[b] + 1], names, m)
  {
    TakeConserves(blocks, free, sessions, external, s, session, b);
  }

  lemma PeaksMoved(m0: Metrics, m: Metrics, blocks: Blocks, free: seq<BlockId>)
    requires m.highWater == m0.highWater && m.maxRef == m0.maxRef
    ensures PeaksReached(m0, m, blocks, free)
  {
  }

  lemma PeaksKeepCopy(m0: Metrics, m2: Metrics, m: Metrics, blocks2: Blocks, blocks: Blocks, free: seq<BlockId>,
                      copy: BlockId)
    requires PeaksReached(m0, m2, blocks2, free) && m.highWater == m2.highWater && m.maxRef == m2.maxRef
    requires blocks.Keys == blocks2.Keys && copy in blocks && m2.maxRef == Max(m0.maxRef, blocks[copy].refCount)
    ensures PeaksReached(m0, m, blocks, free)
  {
    assert |blocks| == |blocks.Keys| == |blocks2|;
  }

  lemma TouchedIsCopy(blocks0: Blocks, sessions0: Sessions, mid: Blocks, left: Sessions, external: Holds,
                      evicted: seq<SessionId>,
                      s: SessionId, index: nat, access: nat)
    requires s in sessions0 && index < |sessions0[s].table| && left == Without(sessions0, evicted) && s in left &&
      left[s] == sessions0[s]
    requires KeptIfHeld(blocks0, mid, left, external)
    requires var b := sessions0[s].table[index]; b in mid && mid[b].refCount == 1 && Held(left, external, b)
    requires JustUsed(left[s := left[s].(lastAccess := access)], s, access)
    ensures var b := sessions0[s].table[index];
            var blocks := mid[b := mid[b].(lastAccess := access)];
            var sessions := left[s := left[s].(lastAccess := access)];
            CopyMade(blocks0, sessions0, blocks, sessions, evicted, s, index, b, access) &&
              KeptIfHeld(blocks0, blocks, left, external)
  {
    var b := sessions0[s].table[index];
    assert sessions0[s].table[index := b] == sessions0[s].table;
  }

  lemma CopyIsMade(blocks0: Blocks, sessions0: Sessions, mid: Blocks, left: Sessions, blocks: Blocks,
                   sessions: Sessions, external: Holds,
                   evicted: seq<SessionId>, s: SessionId, index: nat, copy: BlockId, access: nat)
    requires s in sessions0 && index < |sessions0[s].table| && left == Without(sessions0, evicted) && s in left &&
      left[s] == sessions0[s]
    requires KeptIfHeld(blocks0, mid, left, external) && !Held(left, external, copy)
    requires sessions == left[s := Replaced(left[s], index, copy, access)]
    requires JustUsed(sessions, s, access) && copy in blocks && blocks[copy].lastAccess == access
    requires var b := sessions0[s].table[index];
             && b in mid && copy in mid && b != copy && Held(left, external, b) && blocks.Keys == mid.Keys
             && blocks[copy].refCount == 1 && blocks[copy].rows == mid[b].rows && blocks[copy].hash == mid[b].hash
             && (forall x :: x in mid && x != copy ==>
                 blocks[x].rows == mid[x].rows && blocks[x].hash == mid[x].hash &&
                   blocks[x].revision == mid[x].revision)
    ensures CopyMade(blocks0, sessions0, blocks, sessions, evicted, s, index, copy, access) &&
      KeptIfHeld(blocks0, blocks, left, external)
  {
  }

  lemma SessionIds(blocks: Blocks, free: seq<BlockId>, sessions: Sessions, external: Holds, names: Hash -> seq<Token>,
                   m: Metrics)
    requires PoolOk(blocks, free, sessions, external, names, m)
    ensures forall s :: s in sessions ==> sessions[s].id == s
  {
    forall s | s in sessions ensures sessions[s].id == s {
      assert SessionOk(s, sessions[s], blocks);
    }
  }

  ghost function Without(sessions: Sessions, gone: seq<SessionId>): Sessions {
    sessions - (set s | s in gone)
  }

  /** Each evicted session was, when its turn came, first in eviction order among those left, and no block
      was free: the evicted sessions are the shortest prefix of that order that frees a block, or all of it. */
  ghost predicate EvictedInOrder(sessions: Sessions, blocks: Blocks, external: Holds, excluded: SessionId,
                                 evicted: seq<SessionId>) {
    forall i :: 0 <= i < |evicted| ==> EvictedAt(sessions, blocks, external, excluded, evicted, i)
  }

  ghost predicate EvictedAt(sessions: Sessions, blocks: Blocks, external: Holds, excluded: SessionId,
                            evicted: seq<SessionId>, i: nat)
    requires i < |evicted|
  {
    var left := Without(sessions, evicted[..i]);
    IsLru(left, Some(excluded), evicted[i]) && forall b :: b in blocks ==> Held(left, external, b)
  }

  lemma NothingEvicted(sessions: Sessions, blocks: Blocks, external: Holds, excluded: SessionId)
    ensures Without(sessions, []) == sessions && EvictedInOrder(sessions, blocks, external, excluded, [])
    ensures KeptIfHeld(blocks, blocks, sessions, external)
  {
  }

  lemma LruIsPresent(sessions: Sessions, excluded: Option<SessionId>, s: SessionId)
    requires IsLru(sessions, excluded, s)
    ensures s in sessions
  {
  }

  lemma EvictOne(sessions0: Sessions, blocks0: Blocks, blocks: Blocks, sessions: Sessions, external: Holds,
                 names: Hash -> seq<Token>,
                 m: Metrics, excluded: SessionId, evicted: seq<SessionId>, s: SessionId)
    requires PoolOk(blocks, [], sessions, external, names, m) && KeptIfHeld(blocks0, blocks, sessions, external)
    requires sessions == Without(sessions0, evicted) && IsLru(sessions, Some(excluded), s)
    requires EvictedInOrder(sessions0, blocks0, external, excluded, evicted)
    ensures EvictedInOrder(sessions0, blocks0, external, excluded, evicted + [s])
    ensures sessions - {s} == Without(sessions0, evicted + [s]) && |sessions - {s}| < |sessions|
  {
    AllHeld(blocks0, blocks, sessions, external, names, m);
    LruIsPresent(sessions, Some(excluded), s);
    hide PoolOk, IsLru, Held, KeptIfHeld, EvictedInOrder;
    EvictedGrows(sessions0, blocks0, external, excluded, evicted, s);
    SizeWithout(sessions, s);
    WithoutOneMore(sessions0, evicted, s);
    hide Without;
  }

  lemma WithoutOneMore(sessions: Sessions, evicted: seq<SessionId>, s: SessionId)
    ensures Without(sessions, evicted) - {s} == Without(sessions, evicted + [s])
  {
    assert (set x | x in evicted + [s]) == (set x | x in evicted) + {s};
  }

  lemma SizeWithout(sessions: Sessions, s: SessionId)
    requires s in sessions
    ensures |sessions - {s}| < |sessions|
  {
    assert (sessions - {s}).Keys == sessions.Keys - {s};
  }

  lemma AllHeld(blocks0: Blocks, blocks: Blocks, sessions: Sessions, external: Holds, names: Hash -> seq<Token>,
                m: Metrics)
    requires PoolOk(blocks, [], sessions, external, names, m) && KeptIfHeld(blocks0, blocks, sessions, external)
    ensures forall b :: b in blocks0 ==> Held(sessions, external, b)
  {
    forall b | b in blocks0 ensures Held(sessions, external, b) {
      FreeIffUnheld(blocks, [], sessions, external, b);
    }
  }

  lemma EvictedGrows(sessions0: Sessions, blocks0: Blocks, external: Holds, excluded: SessionId,
                     evicted: seq<SessionId>, s: SessionId)
    requires EvictedInOrder(sessions0, blocks0, external, excluded, evicted)
    requires IsLru(Without(sessions0, evicted), Some(excluded), s)
    requires forall b :: b in blocks0 ==> Held(Without(sessions0, evicted), external, b)
    ensures EvictedInOrder(sessions0, blocks0, external, excluded, evicted + [s])
  {
    hide IsLru, Held, Without;
    var all := evicted + [s];
    forall i | 0 <= i < |all| ensures EvictedAt(sessions0, blocks0, external, excluded, all, i) {
      if i < |evicted| {
        assert EvictedAt(sessions0, blocks0, external, excluded, evicted, i);
        assert all[..i] == evicted[..i];
      } else {
        assert all[..i] == evicted;
      }
    }
  }

  /** Evicted sessions come before each other in turn, and before every candidate left. */
  lemma EvictedComeFirst(sessions: Sessions, blocks: Blocks, external: Holds, excluded: SessionId,
                         evicted: seq<SessionId>, i: nat, t: SessionId)
    requires EvictedInOrder(sessions, blocks, external, excluded, evicted) && i < |evicted|
    requires Candidate(sessions, Some(excluded), t) && t !in evicted[..i + 1]
    ensures evicted[i] in sessions && evicted[i] != excluded && Before(sessions[evicted[i]], sessions[t])
  {
    assert EvictedAt(sessions, blocks, external, excluded, evicted, i);
    var left := Without(sessions, evicted[..i]);
    assert evicted[..i + 1] == evicted[..i] + [evicted[i]];
    assert Candidate(left, Some(excluded), t);
  }

  /** The session used last is evicted last: only after every other candidate. */
  lemma LastUsedGoesLast(sessions: Sessions, blocks: Blocks, external: Holds, excluded: SessionId,
                         evicted: seq<SessionId>, i: nat, clock: nat, t: SessionId)
    requires EvictedInOrder(sessions, blocks, external, excluded, evicted) && i < |evicted|
    requires JustUsed(sessions, evicted[i], clock)
    requires t in sessions && t != excluded && sessions[t].table != [] && t != evicted[i]
    ensures t in evicted[..i]
  {
    if t !in evicted[..i] {
      assert evicted[..i + 1] == evicted[..i] + [evicted[i]];
      EvictedComeFirst(sessions, blocks, external, excluded, evicted, i, t);
    }
  }

  /** Registering a prefix makes it findable. */
  lemma RegisteredIsFound(blocks: Blocks, hash: Hash, ids: seq<BlockId>)
    requires Registrable(blocks, hash, ids)
    ensures StillMatches(blocks, hash, EntryOf(blocks, ids)) && |EntryOf(blocks, ids)| == |ids|
    ensures forall i :: 0 <= i < |ids| ==> EntryOf(blocks, ids)[i].id == ids[i]
  {
  }

  /** Holding a block is harder with fewer sessions. */
  lemma HeldMonotone(fewer: Sessions, more: Sessions, external: Holds, b: BlockId)
    requires Held(fewer, external, b) && forall s :: s in fewer ==> s in more && more[s] == fewer[s]
    ensures Held(more, external, b)
  {
    if Owners(fewer, b) != {} {
      var s :| s in Owners(fewer, b);
      assert s in Owners(more, b);
    }
  }

  lemma KeptTrans(first: Blocks, mid: Blocks, last: Blocks, sessions: Sessions, sessions0: Sessions,
                  evicted: seq<SessionId>, s: SessionId, external: Holds)
    requires sessions == Without(sessions0, evicted) - {s}
    requires KeptIfHeld(first, mid, Without(sessions0, evicted), external) && KeptIfHeld(mid, last, sessions, external)
    ensures KeptIfHeld(first, last, sessions, external)
  {
    forall b | b in first && Held(sessions, external, b)
      ensures last[b].rows == first[b].rows && last[b].hash == first[b].hash && last[b].revision == first[b].revision
    {
      HeldMonotone(sessions, Without(sessions0, evicted), external, b);
    }
  }

  lemma PeaksIgnore(blocks: Blocks, free: seq<BlockId>, sessions: Sessions, external: Holds, names: Hash -> seq<Token>,
                    m0: Metrics, m: Metrics)
    requires PoolOk(blocks, free, sessions, external, names, m0) && m.highWater == m0.highWater && m.maxRef == m0.maxRef
    ensures PoolOk(blocks, free, sessions, external, names, m)
  {
  }

  lemma ResidentIsCounted(blocks: Blocks, free: seq<BlockId>, sessions: Sessions, external: Holds,
                          names: Hash -> seq<Token>, m: Metrics)
    requires PoolOk(blocks, free, sessions, external, names, m)
    ensures |blocks| - |free| == |Used(blocks)|
  {
    ResidentPlusFree(blocks, free, sessions, external);
  }

  /** References held, less one for each block of `owned`. */
  ghost function Spent(external: Holds, owned: set<BlockId>): Holds {
    map b | b in external :: if b in owned && external[b] > 0 then external[b] - 1 else external[b]
  }

  lemma SpendOne(external: Holds, done: set<BlockId>, b: BlockId)
    requires b in external && b !in done && external[b] > 0
    ensures var spent := Spent(external, done);
            && b in spent && spent[b] == external[b]
            && spent[b := spent[b] - 1] == Spent(external, done + {b})
  {
  }

  /** Every block of `owned` has lost one reference, and is emptied if that was its last. */
  ghost predicate AfterDrop(before: Blocks, after: Blocks, owned: set<BlockId>) {
    after.Keys == before.Keys && forall b :: b in before ==> DroppedAt(before, after, owned, b)
  }

  ghost predicate DroppedAt(before: Blocks, after: Blocks, owned: set<BlockId>, b: BlockId)
    requires b in before && b in after
  {
    if b !in owned then after[b] == before[b]
    else before[b].refCount > 0 &&
         after[b] == if before[b].refCount == 1 then PoolBlock([], 0, None, 0, before[b].revision + 1)
           else before[b].(refCount := before[b].refCount - 1)
  }

  /** The blocks that lose their last reference. */
  function FreedBy(blocks: Blocks, owned: set<BlockId>): set<BlockId> {
    set b | b in owned && b in blocks && blocks[b].refCount == 1
  }

  lemma FreedGrows(blocks: Blocks, done: set<BlockId>, b: BlockId)
    requires b !in done && b in blocks
    ensures |FreedBy(blocks, done + {b})| == |FreedBy(blocks, done)| + if blocks[b].refCount == 1 then 1 else 0
  {
    assert FreedBy(blocks, done + {b}) ==
      if blocks[b].refCount == 1 then FreedBy(blocks, done) + {b} else FreedBy(blocks, done);
  }

  lemma DropNone(blocks: Blocks, external: Holds)
    ensures AfterDrop(blocks, blocks, {}) && FreedBy(blocks, {}) == {} && Spent(external, {}) == external
  {
  }

  lemma DropOne(before: Blocks, mid: Blocks, free: seq<BlockId>, done: set<BlockId>, b: BlockId)
    requires AfterDrop(before, mid, done) && b in before && b !in done
    ensures mid[b] == before[b]
    ensures mid[b].refCount > 0 ==>
              var after := Released(mid, free, b).0;
              && AfterDrop(before, after, done + {b}) && after.Keys == before.Keys
              && (after[b].refCount == 0 <==> before[b].refCount == 1)
  {
    assert DroppedAt(before, mid, done, b);
    if mid[b].refCount > 0 {
      var after := Released(mid, free, b).0;
      forall x | x in before ensures DroppedAt(before, after, done + {b}, x) {
        assert DroppedAt(before, mid, done, x);
      }
    }
  }

  lemma NothingPending(before: Holds, after: Holds, owned: set<BlockId>)
    requires after == Spent(WithPending(before, owned), owned)
    ensures after == before
  {
  }

  lemma NothingLost(blocks: Blocks, sessions: Sessions, external: Holds)
    ensures KeptIfHeld(blocks, blocks, sessions, external)
  {
  }

  /** Removing a session makes its references pending ones of the caller. */
  lemma PendingOk(blocks: Blocks, free: seq<BlockId>, sessions: Sessions, external: Holds, names: Hash -> seq<Token>,
                  m: Metrics, s: SessionId)
    requires PoolOk(blocks, free, sessions, external, names, m) && s in sessions
    ensures sessions[s].owned <= blocks.Keys && external.Keys == blocks.Keys
    ensures var pending := WithPending(external, sessions[s].owned);
            && PoolOk(blocks, free, sessions - {s}, pending, names, m) && pending.Keys == blocks.Keys
            && forall b :: b in sessions[s].owned ==> pending[b] > 0
  {
    assert SessionOk(s, sessions[s], blocks);
    DropConserves(blocks, free, sessions, external, s);
  }

  lemma KeptAfterDrop(before: Blocks, free: seq<BlockId>, after: Blocks, sessions: Sessions, external: Holds,
                      owned: set<BlockId>)
    requires Conserved(after, free, sessions, external) && AfterDrop(before, after, owned)
    ensures KeptIfHeld(before, after, sessions, external)
  {
    forall b | b in before && Held(sessions, external, b)
      ensures after[b].rows == before[b].rows && after[b].hash == before[b].hash &&
        after[b].revision == before[b].revision
    {
      assert DroppedAt(before, after, owned, b);
      FreeIffUnheld(after, free, sessions, external, b);
    }
  }
}
