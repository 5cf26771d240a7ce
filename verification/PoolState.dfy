/** The accounting of the block pool as values: who holds which block, and what each small move keeps. */
module PoolState {
  import opened Common
  import opened TokenWindow

  type BlockId = nat
  type SessionId = nat
  type Hash = nat

  /** A pool block; `rows` are its tokens in use. */
  datatype PoolBlock = PoolBlock(rows: seq<Token>, refCount: nat, hash: Option<Hash>, lastAccess: nat, revision: nat)

  datatype Session = Session(id: SessionId, createdAt: nat, lastAccess: nat, table: seq<BlockId>, owned: set<BlockId>)

  /** One block of a registered prefix, with the hash it had then. */
  datatype PrefixBlock = PrefixBlock(id: BlockId, hash: Hash)

  type Blocks = map<BlockId, PoolBlock>
  type Sessions = map<SessionId, Session>

  /** References given out to callers: by `allocate` and `retain`, until `release`. */
  type Holds = map<BlockId, nat>

  function Owners(sessions: Sessions, b: BlockId): set<SessionId> {
    set s | s in sessions && b in sessions[s].owned
  }

  function Elements(table: seq<BlockId>): set<BlockId> {
    set b | b in table
  }

  /** A session owns exactly the blocks its table names. */
  ghost predicate SessionOk(s: SessionId, session: Session, blocks: Blocks) {
    session.id == s && session.owned == Elements(session.table) && session.owned <= blocks.Keys
  }

  ghost predicate Counted(blocks: Blocks, sessions: Sessions, external: Holds, b: BlockId)
    requires b in blocks && b in external
  {
    blocks[b].refCount == |Owners(sessions, b)| + external[b]
  }

  /** Each reference count is the number of owning sessions plus the references callers hold; the free list
      names each block without references exactly once; and each session owns what its table names. */
  ghost predicate Conserved(blocks: Blocks, free: seq<BlockId>, sessions: Sessions, external: Holds) {
    && external.Keys == blocks.Keys
    && (forall b :: b in blocks ==> Counted(blocks, sessions, external, b))
    && Distinct(free) && (forall b :: b in free <==> b in blocks && blocks[b].refCount == 0)
    && (forall s :: s in sessions ==> SessionOk(s, sessions[s], blocks))
  }

  /** No session table names a freed block. */
  lemma TablesNameLiveBlocks(blocks: Blocks, free: seq<BlockId>, sessions: Sessions, external: Holds, s: SessionId,
                             i: nat)
    requires Conserved(blocks, free, sessions, external) && s in sessions && i < |sessions[s].table|
    ensures var b := sessions[s].table[i];
            b in blocks && blocks[b].refCount > 0 && b !in free && s in Owners(sessions, b)
  {
    var b := sessions[s].table[i];
    assert SessionOk(s, sessions[s], blocks) && b in Elements(sessions[s].table);
    assert s in Owners(sessions, b);
    assert Counted(blocks, sessions, external, b);
  }

  // ---------------------------------------------------------------- small moves

  /** A block returned to the free list is emptied and loses its hash. */
  function Emptied(b: PoolBlock): PoolBlock {
    PoolBlock([], 0, None, 0, b.revision + 1)
  }

  /** One reference given back. */
  function Released(blocks: Blocks, free: seq<BlockId>, b: BlockId): (r: (Blocks, seq<BlockId>))
    requires b in blocks && blocks[b].refCount > 0
  {
    if blocks[b].refCount == 1 then (blocks[b := Emptied(blocks[b])], free + [b])
    else (blocks[b := blocks[b].(refCount := blocks[b].refCount - 1)], free)
  }

  lemma ReleaseConserves(blocks: Blocks, free: seq<BlockId>, sessions: Sessions, external: Holds, b: BlockId)
    requires Conserved(blocks, free, sessions, external) && b in blocks && external[b] > 0
    ensures blocks[b].refCount > 0
    ensures var (blocks', free') := Released(blocks, free, b);
            Conserved(blocks', free', sessions, external[b := external[b] - 1])
  {
    assert Counted(blocks, sessions, external, b);
    var (blocks', free') := Released(blocks, free, b);
    var external' := external[b := external[b] - 1];
    forall x | x in blocks' ensures Counted(blocks', sessions, external', x) {
      assert Counted(blocks, sessions, external, x);
    }
    forall s | s in sessions ensures SessionOk(s, sessions[s], blocks') {
      assert SessionOk(s, sessions[s], blocks);
    }
    assert b !in free;
  }

  /** The accounting balances after giving back a reference to `b`, if callers are then said to hold `n`. */
  ghost predicate BalancesWith(blocks: Blocks, free: seq<BlockId>, sessions: Sessions, external: Holds, b: BlockId,
                               n: nat)
    requires b in blocks && blocks[b].refCount > 0
  {
    Conserved(Released(blocks, free, b).0, Released(blocks, free, b).1, sessions, external[b := n])
  }

  /** Giving back a reference keeps the accounting, for some count of held references, exactly if one was held. */
  lemma ReleaseConservesIffHeld(blocks: Blocks, free: seq<BlockId>, sessions: Sessions, external: Holds, b: BlockId)
    requires Conserved(blocks, free, sessions, external) && b in blocks && blocks[b].refCount > 0
    ensures (exists n: nat :: BalancesWith(blocks, free, sessions, external, b, n)) <==> external[b] > 0
  {
    var (blocks', free') := Released(blocks, free, b);
    if external[b] > 0 {
      ReleaseConserves(blocks, free, sessions, external, b);
      assert BalancesWith(blocks, free, sessions, external, b, external[b] - 1);
    }
    if n: nat :| BalancesWith(blocks, free, sessions, external, b, n) {
      assert Counted(blocks', sessions, external[b := n], b);
      assert Counted(blocks, sessions, external, b);
      assert blocks'[b].refCount == blocks[b].refCount - 1;
    }
  }

  function Fresh(b: PoolBlock, access: nat): PoolBlock {
    PoolBlock([], 1, None, access, b.revision + 1)
  }

  /** Taking the last free block: the caller holds its one reference. */
  lemma AllocateConserves(blocks: Blocks, free: seq<BlockId>, sessions: Sessions, external: Holds, access: nat)
    requires Conserved(blocks, free, sessions, external) && free != []
    ensures var b := free[|free| - 1];
            && b in blocks && external[b] == 0 && Owners(sessions, b) == {}
            && Conserved(blocks[b := Fresh(blocks[b], access)], free[..|free| - 1], sessions, external[b := 1])
  {
    var b := free[|free| - 1];
    assert b in free;
    assert Counted(blocks, sessions, external, b);
    var blocks', free', external' := blocks[b := Fresh(blocks[b], access)], free[..|free| - 1], external[b := 1];
    forall x | x in blocks' ensures Counted(blocks', sessions, external', x) {
      assert Counted(blocks, sessions, external, x);
    }
    forall s | s in sessions ensures SessionOk(s, sessions[s], blocks') {
      assert SessionOk(s, sessions[s], blocks);
    }
    forall x ensures x in free' <==> x in blocks' && blocks'[x].refCount == 0 {
      if x in free && x != b {
        var i :| 0 <= i < |free| && free[i] == x;
        assert free'[i] == x;
      }
      assert x in free <==> x in blocks && blocks[x].refCount == 0;
      assert x in free' ==> x in free && x != b;
    }
  }

  lemma RetainConserves(blocks: Blocks, free: seq<BlockId>, sessions: Sessions, external: Holds, b: BlockId)
    requires Conserved(blocks, free, sessions, external) && b in blocks && blocks[b].refCount > 0
    ensures Conserved(blocks[b := blocks[b].(refCount := blocks[b].refCount + 1)], free, sessions,
                      external[b := external[b] + 1])
  {
    var blocks', external' := blocks[b := blocks[b].(refCount := blocks[b].refCount + 1)],
      external[b := external[b] + 1];
    forall x | x in blocks' ensures Counted(blocks', sessions, external', x) {
      assert Counted(blocks, sessions, external, x);
    }
    forall s | s in sessions ensures SessionOk(s, sessions[s], blocks') {
      assert SessionOk(s, sessions[s], blocks);
    }
  }

  /** Changing contents, hash or access time of a block. */
  lemma UpdateConserves(blocks: Blocks, free: seq<BlockId>, sessions: Sessions, external: Holds, b: BlockId,
                        block: PoolBlock)
    requires Conserved(blocks, free, sessions, external) && b in blocks && block.refCount == blocks[b].refCount
    ensures Conserved(blocks[b := block], free, sessions, external)
  {
    var blocks' := blocks[b := block];
    forall x | x in blocks' ensures Counted(blocks', sessions, external, x) {
      assert Counted(blocks, sessions, external, x);
    }
    forall s | s in sessions ensures SessionOk(s, sessions[s], blocks') {
      assert SessionOk(s, sessions[s], blocks);
    }
  }

  /** A session replaced by one with the same blocks owned, or a new one that owns none. */
  lemma SessionUpdateConserves(blocks: Blocks, free: seq<BlockId>, sessions: Sessions, external: Holds, s: SessionId,
                               session: Session)
    requires Conserved(blocks, free, sessions, external) && SessionOk(s, session, blocks)
    requires session.owned == if s in sessions then sessions[s].owned else {}
    ensures Conserved(blocks, free, sessions[s := session], external)
  {
    forall x | x in blocks ensures Counted(blocks, sessions[s := session], external, x) {
      assert Counted(blocks, sessions, external, x);
      assert Owners(sessions[s := session], x) == Owners(sessions, x);
    }
  }

  lemma OwnersGain(sessions: Sessions, s: SessionId, session: Session, b: BlockId, x: BlockId)
    requires s in sessions && b !in sessions[s].owned && session.owned == sessions[s].owned + {b}
    ensures |Owners(sessions[s := session], x)| == |Owners(sessions, x)| + if x == b then 1 else 0
  {
    assert Owners(sessions[s := session], x) == if x == b then Owners(sessions, x) + {s} else Owners(sessions, x);
    assert s !in Owners(sessions, b);
  }

  /** The caller's reference to `b` becomes session `s`'s ownership of it. */
  lemma GiveConserves(blocks: Blocks, free: seq<BlockId>, sessions: Sessions, external: Holds, s: SessionId,
                      session: Session, b: BlockId)
    requires Conserved(blocks, free, sessions, external) && s in sessions && b in blocks && external[b] > 0
    requires b !in sessions[s].owned && session.owned == sessions[s].owned + {b} && SessionOk(s, session, blocks)
    ensures Conserved(blocks, free, sessions[s := session], external[b := external[b] - 1])
  {
    var sessions', external' := sessions[s := session], external[b := external[b] - 1];
    forall x | x in blocks ensures Counted(blocks, sessions', external', x) {
      assert Counted(blocks, sessions, external, x);
      OwnersGain(sessions, s, session, b, x);
    }
  }

  /** Session `s`'s ownership of `b` becomes a reference of the caller. */
  lemma TakeConserves(blocks: Blocks, free: seq<BlockId>, sessions: Sessions, external: Holds, s: SessionId,
                      session: Session, b: BlockId)
    requires Conserved(blocks, free, sessions, external) && s in sessions && b in sessions[s].owned
    requires session.owned == sessions[s].owned - {b} && SessionOk(s, session, blocks)
    ensures b in blocks && Conserved(blocks, free, sessions[s := session], external[b := external[b] + 1])
  {
    assert SessionOk(s, sessions[s], blocks);
    var sessions', external' := sessions[s := session], external[b := external[b] + 1];
    forall x | x in blocks ensures Counted(blocks, sessions', external', x) {
      assert Counted(blocks, sessions, external, x);
      assert Owners(sessions', x) == if x == b then Owners(sessions, x) - {s} else Owners(sessions, x);
      assert s in Owners(sessions, b);
    }
  }

  /** Removing a session turns its ownership into references still to be given back. */
  lemma DropConserves(blocks: Blocks, free: seq<BlockId>, sessions: Sessions, external: Holds, s: SessionId)
    requires Conserved(blocks, free, sessions, external) && s in sessions
    ensures Conserved(blocks, free, sessions - {s}, WithPending(external, sessions[s].owned))
  {
    var sessions', external' := sessions - {s}, WithPending(external, sessions[s].owned);
    forall x | x in blocks ensures Counted(blocks, sessions', external', x) {
      assert Counted(blocks, sessions, external, x);
      assert Owners(sessions', x) == Owners(sessions, x) - {s};
      assert s in Owners(sessions, x) <==> x in sessions[s].owned;
    }
    forall t | t in sessions' ensures SessionOk(t, sessions'[t], blocks) {
      assert SessionOk(t, sessions[t], blocks);
    }
  }

  /** References held by callers, and one more for each block in `pending`. */
  function WithPending(external: Holds, pending: set<BlockId>): (r: Holds)
    ensures r.Keys == external.Keys
  {
    map b | b in external :: external[b] + if b in pending then 1 else 0
  }

  // ---------------------------------------------------------------- residency

  /** The blocks someone holds a reference to. */
  function Used(blocks: Blocks): set<BlockId> {
    set b | b in blocks && blocks[b].refCount > 0
  }

  /** Blocks in use and free blocks make up the pool. */
  lemma ResidentPlusFree(blocks: Blocks, free: seq<BlockId>, sessions: Sessions, external: Holds)
    requires Conserved(blocks, free, sessions, external)
    ensures |Used(blocks)| + |free| == |blocks|
  {
    DistinctSize(free);
    FreeAndUsed(blocks, free, sessions, external);
    PartSizes(Used(blocks), Elements(free), blocks.Keys);
  }

  lemma FreeAndUsed(blocks: Blocks, free: seq<BlockId>, sessions: Sessions, external: Holds)
    requires Conserved(blocks, free, sessions, external)
    ensures Used(blocks) + Elements(free) == blocks.Keys && Used(blocks) !! Elements(free)
  {
    forall b ensures b in Elements(free) <==> b in blocks && blocks[b].refCount == 0 {}
    hide Conserved;
  }

  lemma PartSizes(a: set<BlockId>, b: set<BlockId>, all: set<BlockId>)
    requires a + b == all && a !! b
    ensures |a| + |b| == |all|
  {
  }

  lemma {:induction false} DistinctSize(list: seq<BlockId>)
    requires Distinct(list)
    ensures |Elements(list)| == |list|
  {
    if list != [] {
      var rest, last := list[..|list| - 1], list[|list| - 1];
      DistinctSize(rest);
      assert list == rest + [last];
      assert Elements(list) == Elements(rest) + {last};
      assert last !in rest;
    } else {
      assert Elements(list) == {};
    }
  }

  /** Some session or caller holds the block. */
  ghost predicate Held(sessions: Sessions, external: Holds, b: BlockId) {
    Owners(sessions, b) != {} || (b in external && external[b] > 0)
  }

  lemma FreeIffUnheld(blocks: Blocks, free: seq<BlockId>, sessions: Sessions, external: Holds, b: BlockId)
    requires Conserved(blocks, free, sessions, external) && b in blocks
    ensures b in free <==> !Held(sessions, external, b)
  {
    assert Counted(blocks, sessions, external, b);
    assert |Owners(sessions, b)| == 0 <==> Owners(sessions, b) == {};
  }
}
