/**
 What the `shared` mark of a block is for: ids across clears.

 A clear leaves a block's id in place although other holders of the id keep the old contents. The mark makes the
 next write of the cleared block take a fresh id. So the blocks in use still agree: two blocks with one id have
 one content unless one of them was cleared and not written since. The one thing that breaks this is to clear such
 a block again, which takes the mark away; the condition for a clear to be harmless is exact, over whole runs.
 */
module BlockReuse {
  import opened TokenWindow
  import opened Geometry
  import opened Shared
  import opened BlockIdentity

  /** An empty block of a cache that will take a fresh id when it is next written. */
  ghost predicate Cleared(w: World, h: Holder)
    requires Live(w, h)
  {
    h.InCache? && At(w, h).shared && At(w, h).tokenCount == 0
  }

  /** Live blocks on one storage are the same block, and of two live blocks with one id on different storage, one
      was cleared and not written since. */
  ghost predicate IdsAgreeInUse(w: World) {
    forall h, g :: Live(w, h) && Live(w, g) && h != g ==> PairAgrees(w, h, g)
  }

  ghost predicate PairAgrees(w: World, h: Holder, g: Holder)
    requires Live(w, h) && Live(w, g)
  {
    && (At(w, h).storage == At(w, g).storage ==> SameBlock(At(w, h), At(w, g)))
    && (At(w, h).id == At(w, g).id && At(w, h).storage != At(w, g).storage ==> Cleared(w, h) || Cleared(w, g))
  }

  /** So the blocks that hold tokens agree. */
  lemma InUseAgree(w: World, h: Holder, g: Holder)
    requires IdsAgreeInUse(w) && Live(w, h) && Live(w, g) && At(w, h).id == At(w, g).id
    requires At(w, h).tokenCount > 0 && At(w, g).tokenCount > 0
    ensures SameBlock(At(w, h), At(w, g))
  {
    if h != g {
      assert PairAgrees(w, h, g);
    }
  }

  /** Blocks of one cache, or of one prefix. */
  predicate Together(h: Holder, g: Holder) {
    (h.InCache? && g.InCache? && h.c == g.c) || (h.InPrefix? && g.InPrefix? && h.p == g.p)
  }

  ghost predicate OwnIds(w: World) {
    forall h, g :: Live(w, h) && Live(w, g) && h != g && Together(h, g) ==> At(w, h).id != At(w, g).id
  }

  // ---------------------------------------------------------------- one block changes

  /** One handle changed, and agrees with every other; the others are as they were. */
  lemma OneChangedAgrees(w: World, w': World, own: Holder)
    requires IdsAgreeInUse(w) && Live(w', own)
    requires forall h :: Live(w', h) && h != own ==> Live(w, h) && At(w', h) == At(w, h)
    requires forall h :: Live(w', h) && h != own ==> PairAgrees(w', own, h) && PairAgrees(w', h, own)
    ensures IdsAgreeInUse(w')
  {
    hide Live, At;
    forall h, g | Live(w', h) && Live(w', g) && h != g ensures PairAgrees(w', h, g) {
      if h != own && g != own {
        assert PairAgrees(w, h, g);
      }
    }
  }

  /** A write that keeps the block's id only if the block is neither marked nor on shared storage. */
  lemma WriteKeepsAgreement(w: World, c: Name, i: nat, b: Block, cell: seq<Token>)
    requires IdsAgreeInUse(w) && IdsBelowNext(w) && StorageBelowNext(w) && Live(w, InCache(c, i))
    requires b.storage == WriteTarget(w, c, i)
    requires var old_ := w.caches[c].blocks[i];
             b.id == w.nextId || (b.id == old_.id && !old_.shared && !IsShared(w, old_.storage))
    ensures IdsAgreeInUse(SetBlock(w, c, i, b, cell))
  {
    var w' := SetBlock(w, c, i, b, cell);
    var own := InCache(c, i);
    assert Live(w', own) && At(w', own) == b;
    forall h | Live(w', h) && h != own
      ensures Live(w, h) && At(w', h) == At(w, h) && PairAgrees(w', own, h) && PairAgrees(w', h, own)
    {
      OtherHandlesKept(w, c, i, b, cell, h);
      WrittenPair(w, c, i, b, h);
    }
    hide SetBlock, Live, At, PairAgrees, WriteTarget, IsShared;
    OneChangedAgrees(w, w', own);
  }

  /** Another block has the id a write keeps only if it was cleared. */
  lemma WrittenPair(w: World, c: Name, i: nat, b: Block, h: Holder)
    requires IdsAgreeInUse(w) && IdsBelowNext(w) && StorageBelowNext(w) && Live(w, InCache(c, i))
    requires Live(w, h) && h != InCache(c, i) && b.storage == WriteTarget(w, c, i)
    requires var old_ := w.caches[c].blocks[i];
             b.id == w.nextId || (b.id == old_.id && !old_.shared && !IsShared(w, old_.storage))
    ensures At(w, h).storage != b.storage && (At(w, h).id == b.id ==> Cleared(w, h))
  {
    var own := InCache(c, i);
    WriteTargetIsPrivate(w, c, i, h);
    assert At(w, own) == w.caches[c].blocks[i];
    assert PairAgrees(w, own, h) && At(w, h).id < w.nextId;
    if At(w, h).storage == At(w, own).storage {
      TwoMembers(Holders(w, At(w, own).storage), h, own);
    }
  }

  /** A block that was just written is not marked and has storage to itself, so the next write keeps its id. */
  lemma SecondWriteKeepsId(w: World, c: Name, i: nat, j: nat, t: Token, count: nat, k: nat, u: Token, more: nat)
    requires Live(w, InCache(c, i)) && StorageBelowNext(w)
    requires var s := w.caches[c].blocks[i].storage; s in w.cells && j < |w.cells[s]| && k < |w.cells[s]|
    ensures var w1 := WriteBlock(w, c, i, j, t, count);
            && Live(w1, InCache(c, i)) && w1.caches[c].blocks[i].storage in w1.cells
            && k < |w1.cells[w1.caches[c].blocks[i].storage]|
            && !w1.caches[c].blocks[i].shared && !IsShared(w1, w1.caches[c].blocks[i].storage)
            && var w2 := WriteBlock(w1, c, i, k, u, more);
               w2.caches[c].blocks[i].id == w1.caches[c].blocks[i].id
  {
    var w1, own := WriteBlock(w, c, i, j, t, count), InCache(c, i);
    var b := w1.caches[c].blocks[i];
    forall h | h in Holders(w1, b.storage) ensures h == own {
      if h != own {
        OtherHandlesKept(w, c, i, b, w1.cells[b.storage], h);
        WriteTargetIsPrivate(w, c, i, h);
      }
    }
    OneMember(Holders(w1, b.storage), own);
  }

  lemma OneMember<T>(s: set<T>, a: T)
    requires forall x :: x in s ==> x == a
    ensures |s| <= 1
  {
    if s != {} {
      assert s == {a};
    }
  }

  // ---------------------------------------------------------------- a clear

  /** Clearing block `i` leaves ids in order: its storage has another holder, so it will be marked, or every other
      block with its id was itself cleared. */
  ghost predicate SafeToClear(w: World, c: Name, i: nat)
    requires Live(w, InCache(c, i))
  {
    var b := w.caches[c].blocks[i];
    IsShared(w, b.storage) || forall g :: Live(w, g) && g != InCache(c, i) && At(w, g).id == b.id ==> Cleared(w, g)
  }

  /** A block without a mark is always safe to clear. */
  lemma UnmarkedIsSafe(w: World, c: Name, i: nat)
    requires IdsAgreeInUse(w) && Live(w, InCache(c, i)) && !w.caches[c].blocks[i].shared
    ensures SafeToClear(w, c, i)
  {
    var own := InCache(c, i);
    var s := w.caches[c].blocks[i].storage;
    if !IsShared(w, s) {
      forall g | Live(w, g) && g != own && At(w, g).id == At(w, own).id ensures Cleared(w, g) {
        assert PairAgrees(w, own, g);
        if At(w, g).storage == s { TwoMembers(Holders(w, s), g, own); }
      }
    }
  }

  /** Two blocks with one id, neither of them cleared. */
  ghost predicate TornInUse(w: World, h: Holder, g: Holder) {
    && Live(w, h) && Live(w, g) && h != g && At(w, h).id == At(w, g).id && At(w, h).storage != At(w, g).storage
    && !Cleared(w, h) && !Cleared(w, g)
  }

  lemma TornInUseDisagrees(w: World, h: Holder, g: Holder)
    requires TornInUse(w, h, g)
    ensures !IdsAgreeInUse(w)
  {
    assert !PairAgrees(w, h, g);
  }

  /** What a clear of one block does to the handles. */
  lemma ClearedHandles(w: World, c: Name, i: nat)
    requires Live(w, InCache(c, i)) && w.caches[c].blocks[i].storage in w.cells
    ensures var w' := ClearBlock(w, c, i);
            var own := InCache(c, i);
            && Live(w', own) && At(w', own).id == At(w, own).id && At(w', own).tokenCount == 0
            && (At(w', own).shared <==> IsShared(w, At(w, own).storage)) && At(w', own).storage == WriteTarget(w, c, i)
            && (forall h :: h != own ==> (Live(w', h) <==> Live(w, h)))
            && (forall h :: h != own && Live(w, h) ==> At(w', h) == At(w, h))
  {
    var w' := ClearBlock(w, c, i);
    var b := w'.caches[c].blocks[i];
    forall h | h != InCache(c, i) ensures (Live(w', h) <==> Live(w, h)) && (Live(w, h) ==> At(w', h) == At(w, h)) {
      OtherHandlesKept(w, c, i, b, w'.cells[b.storage], h);
    }
  }

  lemma ClearSafeBlock(w: World, c: Name, i: nat)
    requires IdsAgreeInUse(w) && StorageBelowNext(w) && Live(w, InCache(c, i)) &&
      w.caches[c].blocks[i].storage in w.cells
    requires SafeToClear(w, c, i)
    ensures IdsAgreeInUse(ClearBlock(w, c, i))
  {
    var w' := ClearBlock(w, c, i);
    var own := InCache(c, i);
    ClearedHandles(w, c, i);
    assert At(w, own) == w.caches[c].blocks[i];
    hide ClearBlock;
    forall h | Live(w', h) && h != own
      ensures Live(w, h) && At(w', h) == At(w, h) && PairAgrees(w', own, h) && PairAgrees(w', h, own)
    {
      WriteTargetIsPrivate(w, c, i, h);
      if At(w, h).id == At(w, own).id && !IsShared(w, At(w, own).storage) {
        assert Cleared(w, h);
      }
    }
    hide Live, At, PairAgrees, WriteTarget, IsShared;
    OneChangedAgrees(w, w', own);
  }

  lemma ClearUnsafeBlock(w: World, c: Name, i: nat) returns (g: Holder)
    requires IdsAgreeInUse(w) && OwnIds(w) && StorageBelowNext(w) && Live(w, InCache(c, i))
    requires w.caches[c].blocks[i].storage in w.cells && !SafeToClear(w, c, i)
    ensures TornInUse(ClearBlock(w, c, i), InCache(c, i), g) && !Together(g, InCache(c, i))
  {
    var own := InCache(c, i);
    g :| Live(w, g) && g != own && At(w, g).id == w.caches[c].blocks[i].id && !Cleared(w, g);
    assert At(w, own) == w.caches[c].blocks[i];
    ClearedHandles(w, c, i);
    WriteTargetIsPrivate(w, c, i, g);
    assert !Together(g, own);
  }

  /** Clearing one block changes neither the ids nor whether the other blocks of the cache are safe to clear. */
  lemma OthersStaySafe(w: World, c: Name, i: nat, j: nat)
    requires IdsAgreeInUse(w) && OwnIds(w) && StorageBelowNext(w) && Live(w, InCache(c, i))
    requires w.caches[c].blocks[i].storage in w.cells && Live(w, InCache(c, j)) && j != i
    ensures var w' := ClearBlock(w, c, i); Live(w', InCache(c, j)) && (SafeToClear(w', c, j) <==> SafeToClear(w, c, j))
  {
    var own, other := InCache(c, i), InCache(c, j);
    var w' := ClearBlock(w, c, i);
    ClearedHandles(w, c, i);
    assert Together(own, other) && At(w, own).id != At(w, other).id && PairAgrees(w, own, other);
    WriteTargetIsPrivate(w, c, i, other);
    assert At(w', other) == At(w, other) == w.caches[c].blocks[j] == w'.caches[c].blocks[j];
    var s := At(w, other).storage;
    hide ClearBlock;
    SameHoldersOf(w, w', own, s);
    assert At(w', own).id != At(w', other).id;
    assert forall g :: g != own ==> (Live(w', g) <==> Live(w, g));
    assert forall g :: g != own && Live(w, g) ==> (Cleared(w', g) <==> Cleared(w, g));
  }

  lemma SameHoldersOf(w: World, w': World, own: Holder, s: Sid)
    requires Live(w, own) && Live(w', own) && At(w, own).storage != s && At(w', own).storage != s
    requires forall h :: h != own ==> (Live(w', h) <==> Live(w, h))
    requires forall h :: h != own && Live(w, h) ==> At(w', h) == At(w, h)
    ensures Holders(w', s) == Holders(w, s)
  {
    hide Live, At, Holders;
    forall h ensures h in Holders(w', s) <==> h in Holders(w, s) {
    }
  }

  lemma OwnIdsAfterClear(w: World, c: Name, i: nat)
    requires OwnIds(w) && Live(w, InCache(c, i)) && w.caches[c].blocks[i].storage in w.cells
    ensures OwnIds(ClearBlock(w, c, i))
  {
    ClearedHandles(w, c, i);
    hide ClearBlock, At, Live, IsShared;
  }

  /** Clearing further blocks of the cache does not mend a tear to a block outside it. */
  lemma TearStays(w: World, c: Name, j: nat, h: Holder, g: Holder)
    requires Live(w, InCache(c, j)) && w.caches[c].blocks[j].storage in w.cells
    requires TornInUse(w, h, g) && h != InCache(c, j) && g != InCache(c, j)
    ensures TornInUse(ClearBlock(w, c, j), h, g)
  {
    ClearedHandles(w, c, j);
    hide ClearBlock, At, Live, IsShared;
  }

  lemma {:induction false} TearStaysOn(w: World, c: Name, i: nat, h: Holder, g: Holder)
    requires c in w.caches && i <= |w.caches[c].blocks| && AllAllocated(w, w.caches[c].blocks) && StorageBelowNext(w)
    requires TornInUse(w, h, g) && h.InCache? && h.c == c && h.i < i && !Together(g, h)
    ensures TornInUse(ClearBlocks(w, c, i), h, g)
    decreases |w.caches[c].blocks| - i
  {
    hide TornInUse, OnlyChanges, StorageBelowNext, EmptiedAt, ClearBlock, AllAllocated;
    if i < |w.caches[c].blocks| {
      ClearBlocksStep(w, c, i);
      ClearBlockOk(w, c, i);
      TearStays(w, c, i, h, g);
      var w1 := ClearBlock(w, c, i);
      EmptiedSize(w.caches[c].blocks, w1.caches[c].blocks, i);
      hide ClearBlocks;
      TearStaysOn(w1, c, i + 1, h, g);
    }
  }

  /** Every block of the cache from `i` on is safe to clear. */
  ghost predicate CacheSafe(w: World, c: Name, i: nat)
    requires c in w.caches
  {
    forall j :: i <= j < |w.caches[c].blocks| ==> SafeToClear(w, c, j)
  }

  lemma {:induction false} ClearBlocksIffSafe(w: World, c: Name, i: nat)
    requires IdsAgreeInUse(w) && OwnIds(w) && StorageBelowNext(w)
    requires c in w.caches && i <= |w.caches[c].blocks| && AllAllocated(w, w.caches[c].blocks)
    ensures IdsAgreeInUse(ClearBlocks(w, c, i)) <==> CacheSafe(w, c, i)
    ensures OwnIds(ClearBlocks(w, c, i))
    decreases |w.caches[c].blocks| - i
  {
    hide OnlyChanges, IdsAgreeInUse, OwnIds, StorageBelowNext, IsShared, ClearBlock, TornInUse, AllAllocated, EmptiedAt;
    hide SafeToClear;
    if i < |w.caches[c].blocks| {
      ClearBlocksStep(w, c, i);
      ClearBlockOk(w, c, i);
      OwnIdsAfterClear(w, c, i);
      var w1 := ClearBlock(w, c, i);
      EmptiedSize(w.caches[c].blocks, w1.caches[c].blocks, i);
      forall j | i < j < |w.caches[c].blocks|
        ensures SafeToClear(w1, c, j) <==> SafeToClear(w, c, j)
      {
        OthersStaySafe(w, c, i, j);
      }
      if SafeToClear(w, c, i) {
        ClearSafeBlock(w, c, i);
        ClearBlocksIffSafe(w1, c, i + 1);
      } else {
        var g := ClearUnsafeBlock(w, c, i);
        TearStaysOn(w1, c, i + 1, InCache(c, i), g);
        TornInUseDisagrees(ClearBlocks(w1, c, i + 1), InCache(c, i), g);
        OwnIdsStay(w1, c, i + 1);
      }
    }
  }

  lemma {:induction false} OwnIdsStay(w: World, c: Name, i: nat)
    requires OwnIds(w) && StorageBelowNext(w)
    requires c in w.caches && i <= |w.caches[c].blocks| && AllAllocated(w, w.caches[c].blocks)
    ensures OwnIds(ClearBlocks(w, c, i))
    decreases |w.caches[c].blocks| - i
  {
    hide OnlyChanges, OwnIds, StorageBelowNext, ClearBlock, AllAllocated, EmptiedAt;
    if i < |w.caches[c].blocks| {
      ClearBlocksStep(w, c, i);
      ClearBlockOk(w, c, i);
      OwnIdsAfterClear(w, c, i);
      EmptiedSize(w.caches[c].blocks, ClearBlock(w, c, i).caches[c].blocks, i);
      OwnIdsStay(ClearBlock(w, c, i), c, i + 1);
    }
  }

  /** Only the block handles matter. */
  lemma SameHandlesInUse(w: World, w': World)
    requires forall h :: (Live(w', h) <==> Live(w, h)) && (Live(w, h) ==> At(w', h) == At(w, h))
    ensures IdsAgreeInUse(w') <==> IdsAgreeInUse(w)
    ensures OwnIds(w') <==> OwnIds(w)
  {
    hide Live, At;
    assert forall h, g :: Live(w, h) && Live(w, g) ==> (PairAgrees(w', h, g) <==> PairAgrees(w, h, g));
  }

  /** A clear of a cache keeps the blocks in use in agreement if and only if every block of it is safe to clear. */
  lemma ClearAgreesInUseIff(w: World, c: Name)
    requires Inv(w) && IdsAgreeInUse(w) && OwnIds(w) && c in w.caches
    ensures IdsAgreeInUse(Step(w, Call(c, OpClear)).0) <==> CacheSafe(w, c, 0)
    ensures OwnIds(Step(w, Call(c, OpClear)).0)
  {
    hide Inv, CacheOk, IdsAgreeInUse, OwnIds, OnlyChanges, ClearBlocks, AllAllocated, StorageBelowNext, StagesBelowNext;
    hide CacheSafe, Live, At;
    OneCacheOk(w, c);
    ClearCacheOk(w, c);
    ClearBlocksOk(w, c, 0);
    ClearBlocksIffSafe(w, c, 0);
    var m, w1, w' := w.caches[c].meta, ClearBlocks(w, c, 0), ClearCache(w, c);
    var blank := seq(m.max, _ => Zeros(m.vectorLen));
    StagesAreNotHandles(w1, c, blank, blank, ClearedMeta(m));
    assert w' == SetMeta(SetStages(w1, c, blank, blank), c, ClearedMeta(m));
    hide ClearCache, SetStages, SetMeta;
    SameHandlesInUse(w1, w');
  }

  // ---------------------------------------------------------------- the other steps

  lemma OwnIdsAfterWrite(w: World, c: Name, i: nat, b: Block, cell: seq<Token>)
    requires OwnIds(w) && IdsBelowNext(w) && Live(w, InCache(c, i))
    requires b.id == w.nextId || b.id == w.caches[c].blocks[i].id
    ensures OwnIds(SetBlock(w, c, i, b, cell))
  {
    var w' := SetBlock(w, c, i, b, cell);
    var own := InCache(c, i);
    assert Live(w', own) && At(w', own) == b && At(w, own) == w.caches[c].blocks[i];
    forall h | h != own ensures (Live(w', h) <==> Live(w, h)) && (Live(w, h) ==> At(w', h) == At(w, h)) {
      OtherHandlesKept(w, c, i, b, cell, h);
    }
    hide SetBlock, Live, At;
  }

  lemma PutTokenInUse(w: World, c: Name, p: nat, j: nat, count: nat, t: Token, m: Meta)
    requires IdsAgreeInUse(w) && OwnIds(w) && IdsBelowNext(w) && StorageBelowNext(w)
    requires c in w.caches && CacheOk(w, w.caches[c])
    requires p < w.caches[c].meta.max && j < Capacity(w.caches[c].meta.max, p / BLOCK)
    ensures IdsAgreeInUse(PutToken(w, c, p, j, count, t, m)) && OwnIds(PutToken(w, c, p, j, count, t, m))
  {
    hide IdsAgreeInUse, OwnIds, StorageBelowNext, IdsBelowNext, Slots;
    var k := w.caches[c];
    var i := p / BLOCK;
    assert BlockOk(w, k.meta, i, k.blocks[i]);
    var w1, w' := WriteBlock(w, c, i, j, t, count), PutToken(w, c, p, j, count, t, m);
    var keys, values := w.keyStages[k.keyStage][p := t.key], w.valueStages[k.valueStage][p := t.value];
    assert c in w1.caches && w' == SetMeta(SetStages(w1, c, keys, values), c, m);
    WriteKeepsAgreement(w, c, i, w1.caches[c].blocks[i], w.cells[k.blocks[i].storage][j := t]);
    OwnIdsAfterWrite(w, c, i, w1.caches[c].blocks[i], w.cells[k.blocks[i].storage][j := t]);
    hide WriteBlock, PutToken, SetStages, SetMeta, CacheOk;
    StagesAreNotHandles(w1, c, keys, values, m);
    hide Live, At;
    SameHandlesInUse(w1, w');
  }

  lemma WritesInUse(w: World, c: Name, call: CacheOp)
    requires Inv(w) && IdsAgreeInUse(w) && OwnIds(w) && c in w.caches && !call.OpClear?
    ensures IdsAgreeInUse(CallCache(w, c, call).0) && OwnIds(CallCache(w, c, call).0)
  {
    hide Inv, IdsAgreeInUse, OwnIds, StagesOk, PutToken, IdsBelowNext, StorageBelowNext;
    IdsAreBelowNext(w);
    OneCacheOk(w, c);
    var m := w.caches[c].meta;
    if m.tokenCount < m.max {
      var n := m.tokenCount;
      AppendIsPut(w, c, call.t);
      PutTokenInUse(w, c, n, n % BLOCK, Fill(n + 1, n / BLOCK), call.t,
                    m.(tokenCount := n + 1, tokensSeen := m.tokensSeen + 1, revision := m.revision + 1));
    } else {
      var s := m.windowStart;
      PutTokenInUse(w, c, s, s % BLOCK, w.caches[c].blocks[s / BLOCK].tokenCount, call.t,
                    m.(windowStart := (s + 1) % m.max, tokensSeen := m.tokensSeen + 1, revision := m.revision + 1));
    }
  }

  /** The block that handle `h` was copied from by a step that is not a call. */
  function Origin(op: Op, h: Holder): Holder {
    match op
    case Clone(src, dst) => if h.InCache? && h.c == dst then InCache(src, h.i) else h
    case Capture(c, p) => if h.InPrefix? && h.p == p then InCache(c, h.i) else h
    case Restore(p, c) => if h.InCache? && h.c == c then InPrefix(p, h.i) else h
    case _ => h
  }

  /** Block `h` after the step is a copy of its origin, cleared if that was; or it is a fresh one, the `i`-th. */
  ghost predicate ComesFrom(w: World, w': World, op: Op, h: Holder)
    requires Live(w', h)
  {
    var g := Origin(op, h);
    || (Live(w, g) && SameBlock(At(w', h), At(w, g)) && (Cleared(w, g) ==> Cleared(w', h)))
    || (Fresh(w, At(w', h)) && At(w', h).id == w.nextId + h.i)
  }

  /** Copies of live blocks, and fresh blocks, agree where the originals did. */
  lemma CopiesAgreeInUse(w: World, w': World, op: Op)
    requires IdsAgreeInUse(w) && IdsBelowNext(w) && StorageBelowNext(w)
    requires forall h :: Live(w', h) ==> ComesFrom(w, w', op, h)
    ensures IdsAgreeInUse(w')
  {
    hide Live, At, Origin;
    forall h, g | Live(w', h) && Live(w', g) && h != g ensures PairAgrees(w', h, g) {
      assert ComesFrom(w, w', op, h) && ComesFrom(w, w', op, g);
      var h0, g0 := Origin(op, h), Origin(op, g);
      if !Fresh(w, At(w', h)) && !Fresh(w, At(w', g)) && h0 != g0 {
        assert PairAgrees(w, h0, g0);
      }
    }
  }

  lemma CopiesOwnIds(w: World, w': World, op: Op)
    requires OwnIds(w) && IdsBelowNext(w)
    requires forall h :: Live(w', h) ==> ComesFrom(w, w', op, h)
    ensures OwnIds(w')
  {
    hide Live, At;
    forall h, g | Live(w', h) && Live(w', g) && h != g && Together(h, g) ensures At(w', h).id != At(w', g).id {
      assert ComesFrom(w, w', op, h) && ComesFrom(w, w', op, g);
      var h0, g0 := Origin(op, h), Origin(op, g);
      assert Together(h0, g0) && h0 != g0;
    }
  }

  lemma CopyStepInUse(w: World, op: Op)
    requires Inv(w) && IdsAgreeInUse(w) && OwnIds(w) && !op.Call?
    ensures IdsAgreeInUse(Step(w, op).0) && OwnIds(Step(w, op).0)
  {
    hide BlocksOk, StagesOk, IdsAgreeInUse, OwnIds, ComesFrom;
    IdsAreBelowNext(w);
    HandlesAreBelowNext(w);
    var w' := Step(w, op).0;
    hide Step, Inv;
    if w' != w {
      forall h | Live(w', h) ensures ComesFrom(w, w', op, h) {
        StepOrigin(w, op, h);
      }
      CopiesAgreeInUse(w, w', op);
      CopiesOwnIds(w, w', op);
    }
  }

  lemma StepOrigin(w: World, op: Op, h: Holder)
    requires Inv(w) && !op.Call? && Live(Step(w, op).0, h)
    ensures Step(w, op).0 != w ==> ComesFrom(w, Step(w, op).0, op, h)
  {
    hide CacheOk, PrefixOk, AddNew, CloneCache, CapturePrefix, RestorePrefix, ComesFrom;
    var w' := Step(w, op).0;
    if w' != w {
      match op {
        case New(c, max, vectorLen, compressed) => NewFrom(w, c, max, vectorLen, compressed, h);
        case Clone(src, dst) => CloneFrom(w, src, dst, h);
        case Capture(c, p) =>
          CaptureShows(w, c);
          CaptureFrom(w, c, p, h);
        case Restore(p, c) => RestoreFrom(w, p, c, h);
        case DropCache(_) => DropFrom(w, w', op, h);
        case DropPrefix(_) => DropFrom(w, w', op, h);
      }
    }
  }

  lemma NewFrom(w: World, c: Name, max: nat, vectorLen: nat, compressed: bool, h: Holder)
    requires max > 0 && Live(AddNew(w, c, max, vectorLen, compressed), h)
    ensures ComesFrom(w, AddNew(w, c, max, vectorLen, compressed), New(c, max, vectorLen, compressed), h)
  {
  }

  lemma CloneFrom(w: World, src: Name, dst: Name, h: Holder)
    requires src in w.caches && Live(CloneCache(w, src, dst), h)
    ensures ComesFrom(w, CloneCache(w, src, dst), Clone(src, dst), h)
  {
  }

  /** A captured block holds tokens, so it was not a cleared one. */
  lemma CaptureFrom(w: World, c: Name, p: Name, h: Holder)
    requires c in w.caches && CacheOk(w, w.caches[c])
    requires NumBlocks(w.caches[c].meta.tokenCount) <= |w.caches[c].blocks| && Live(CapturePrefix(w, c, p), h)
    ensures ComesFrom(w, CapturePrefix(w, c, p), Capture(c, p), h)
  {
    hide StagesOk;
    if h.InPrefix? && h.p == p {
      assert BlockOk(w, w.caches[c].meta, h.i, w.caches[c].blocks[h.i]);
    }
  }

  lemma RestoreFrom(w: World, p: Name, c: Name, h: Holder)
    requires p in w.prefixes && PrefixOk(w, w.prefixes[p]) && Live(RestorePrefix(w, p, c), h)
    ensures ComesFrom(w, RestorePrefix(w, p, c), Restore(p, c), h)
  {
  }

  lemma DropFrom(w: World, w': World, op: Op, h: Holder)
    requires (op.DropCache? && w' == w.(caches := w.caches - {op.c}))
          || (op.DropPrefix? && w' == w.(prefixes := w.prefixes - {op.p}))
    requires Live(w', h)
    ensures ComesFrom(w, w', op, h)
  {
  }

  // ---------------------------------------------------------------- whole runs

  /** Every clear in the run is of a cache whose blocks are safe to clear at that moment. */
  ghost predicate ClearsAreSafe(w: World, ops: seq<Op>)
    requires Inv(w)
    decreases |ops|
  {
    ops != [] ==>
      && (ops[0].Call? && ops[0].call.OpClear? && ops[0].c in w.caches ==> CacheSafe(w, ops[0].c, 0))
      && (StepRefines(w, ops[0]); ClearsAreSafe(Step(w, ops[0]).0, ops[1..]))
  }

  ghost predicate AgreesInUseThroughout(w: World, ops: seq<Op>)
    requires Inv(w)
    decreases |ops|
  {
    IdsAgreeInUse(w) && (ops != [] ==> (StepRefines(w, ops[0]); AgreesInUseThroughout(Step(w, ops[0]).0, ops[1..])))
  }

  lemma StepInUseIff(w: World, op: Op)
    requires Inv(w) && IdsAgreeInUse(w) && OwnIds(w)
    ensures Inv(Step(w, op).0) && OwnIds(Step(w, op).0)
    ensures IdsAgreeInUse(Step(w, op).0) <==>
      (op.Call? && op.call.OpClear? && op.c in w.caches ==> CacheSafe(w, op.c, 0))
  {
    hide Inv, IdsAgreeInUse, OwnIds, CacheSafe, CallCache;
    StepRefines(w, op);
    if op.Call? && op.c in w.caches {
      if op.call.OpClear? {
        ClearAgreesInUseIff(w, op.c);
      } else {
        WritesInUse(w, op.c, op.call);
      }
    } else if !op.Call? {
      CopyStepInUse(w, op);
    }
  }

  /** Over every run: blocks in use with one id are one block throughout, in every cache and prefix, if and only if
      no clear takes the mark from a cleared block whose id is still in use elsewhere. */
  lemma {:induction false} InUseThroughoutIff(w: World, ops: seq<Op>)
    requires Inv(w) && IdsAgreeInUse(w) && OwnIds(w)
    ensures AgreesInUseThroughout(w, ops) <==> ClearsAreSafe(w, ops)
    decreases |ops|
  {
    hide Inv, IdsAgreeInUse, OwnIds, CacheSafe, Step;
    if ops != [] {
      StepInUseIff(w, ops[0]);
      if IdsAgreeInUse(Step(w, ops[0]).0) {
        InUseThroughoutIff(Step(w, ops[0]).0, ops[1..]);
      }
    }
  }

  lemma StartAgreesInUse()
    ensures Inv(Start) && IdsAgreeInUse(Start) && OwnIds(Start) && Abstract(Start) == Shown(map[], map[])
  {
  }

  // ---------------------------------------------------------------- a write after a clear

  /** Clearing a block and then writing it gives it an id that no other live block has. */
  lemma ClearedBlockForks(w: World, c: Name, i: nat, j: nat, t: Token, count: nat, h: Holder)
    requires IdsAgree(w) && IdsBelowNext(w) && StorageBelowNext(w) && Live(w, InCache(c, i)) && Live(w, h)
    requires h != InCache(c, i) && w.caches[c].blocks[i].storage in w.cells
    requires j < |w.cells[w.caches[c].blocks[i].storage]|
    ensures var w1 := ClearBlock(w, c, i);
            var w2 := WriteBlock(w1, c, i, j, t, count);
            Live(w2, h) && Live(w2, InCache(c, i)) && At(w2, h).id != At(w2, InCache(c, i)).id
  {
    var own := InCache(c, i);
    var w1 := ClearBlock(w, c, i);
    ClearedHandles(w, c, i);
    assert w1.nextId == w.nextId && At(w, own).id < w.nextId && At(w, h).id < w.nextId;
    if At(w, h).id == At(w, own).id {
      assert SameBlock(At(w, h), At(w, own));
      TwoMembers(Holders(w, At(w, own).storage), h, own);
    }
    var b := WriteBlock(w1, c, i, j, t, count).caches[c].blocks[i];
    OtherHandlesKept(w1, c, i, b, w1.cells[w1.caches[c].blocks[i].storage][j := t], h);
  }

  /** Every id is kept, nothing outside cache `c` changes, and its first block is emptied, and marked exactly if its
      storage had another holder, in which case it has new storage. */
  ghost predicate ClearedFirst(w: World, w': World, c: Name) {
    var own := InCache(c, 0);
    && (forall h :: (Live(w', h) <==> Live(w, h)) && (Live(w, h) ==> At(w', h).id == At(w, h).id))
    && (forall h :: Live(w, h) && !(h.InCache? && h.c == c) ==> At(w', h) == At(w, h))
    && Live(w, own) && (At(w', own).shared <==> IsShared(w, At(w, own).storage)) && At(w', own).tokenCount == 0
    && (IsShared(w, At(w, own).storage) ==> At(w', own).storage == w.nextSid)
  }

  lemma BlocksClearedFirst(w: World, c: Name)
    requires c in w.caches && |w.caches[c].blocks| > 0 && AllAllocated(w, w.caches[c].blocks) && StorageBelowNext(w)
    ensures ClearedFirst(w, ClearBlocks(w, c, 0), c)
  {
    hide StorageBelowNext, IsShared, AllAllocated, OnlyChanges, ClearBlock, ClearBlocks, EmptiedAt;
    ClearBlocksStep(w, c, 0);
    ClearBlockOk(w, c, 0);
    var own, w1, w2 := InCache(c, 0), ClearBlock(w, c, 0), ClearBlocks(w, c, 0);
    EmptiedSize(w.caches[c].blocks, w1.caches[c].blocks, 0);
    ClearedHandles(w, c, 0);
    ClearBlocksOk(w1, c, 1);
    RestCleared(w1, w2, c);
    assert Live(w2, own) && At(w2, own) == At(w1, own) && At(w, own) == w.caches[c].blocks[0];
    assert IsShared(w, At(w, own).storage) ==> At(w1, own).storage == w.nextSid;
    hide Live, At, WriteTarget, Emptied;
  }

  lemma RestCleared(w1: World, w2: World, c: Name)
    requires c in w1.caches && c in w2.caches && OnlyChanges(w1, w2, c)
    requires Emptied(w1.caches[c].blocks, w2.caches[c].blocks, 1)
    ensures forall h :: (Live(w2, h) <==> Live(w1, h)) && (Live(w1, h) ==> At(w2, h).id == At(w1, h).id)
    ensures forall h :: Live(w1, h) && !(h.InCache? && h.c == c) ==> At(w2, h) == At(w1, h)
  {
    hide SameCells, SameStages;
  }

  /** So does clearing a cache, which is then empty. */
  lemma ClearedCache(w: World, c: Name)
    requires Inv(w) && c in w.caches
    ensures var w' := Step(w, Call(c, OpClear)).0;
            && ClearedFirst(w, w', c) && c in w'.caches
            && w'.caches[c].meta.tokenCount == 0 && w'.caches[c].meta.max == w.caches[c].meta.max
  {
    hide StagesOk, StorageBelowNext, StagesBelowNext, IsShared, OnlyChanges, AllAllocated;
    OneCacheOk(w, c);
    ClearCacheOk(w, c);
    ClearBlocksOk(w, c, 0);
    assert |w.caches[c].blocks| > 0;
    BlocksClearedFirst(w, c);
    var m, w2, w' := w.caches[c].meta, ClearBlocks(w, c, 0), ClearCache(w, c);
    var blank := seq(m.max, _ => Zeros(m.vectorLen));
    assert w' == SetMeta(SetStages(w2, c, blank, blank), c, ClearedMeta(m));
    StagesAreNotHandles(w2, c, blank, blank, ClearedMeta(m));
    hide Inv, CacheOk, ClearBlocks, ClearCache, SetStages, Live, At;
  }

  /** After a clear, the first token accepted takes an id of its own, whatever shares the storage. */
  lemma ClearThenAppendForks(w: World, c: Name, call: CacheOp, h: Holder)
    requires Inv(w) && IdsAgree(w) && c in w.caches && !call.OpClear? && Live(w, h) && h != InCache(c, 0)
    ensures Inv(Step(w, Call(c, OpClear)).0)
    ensures var w1 := Step(w, Call(c, OpClear)).0;
            var (w2, r) := Step(w1, Call(c, call));
            r.Ok? ==> Live(w2, h) && Live(w2, InCache(c, 0)) && At(w2, h).id != At(w2, InCache(c, 0)).id
  {
    StepRefines(w, Call(c, OpClear));
    ClearedCache(w, c);
    FirstIsAlone(w, c, h);
    var w1 := Step(w, Call(c, OpClear)).0;
    hide ClearCache, ClearBlocks, IdsAgree;
    IdsAreBelowNext(w1);
    OneCacheOk(w1, c);
    if Step(w1, Call(c, call)).1.Ok? {
      FirstWriteForks(w1, c, call, h);
    }
  }

  /** In agreement, a block on storage of its own is the only one with its id. */
  lemma FirstIsAlone(w: World, c: Name, h: Holder)
    requires IdsAgree(w) && Live(w, InCache(c, 0)) && Live(w, h) && h != InCache(c, 0)
    ensures IsShared(w, At(w, InCache(c, 0)).storage) || At(w, h).id != At(w, InCache(c, 0)).id
  {
    var own := InCache(c, 0);
    if At(w, h).id == At(w, own).id {
      assert SameBlock(At(w, h), At(w, own));
      TwoMembers(Holders(w, At(w, own).storage), h, own);
    }
  }

  lemma WrittenFirstForks(w1: World, c: Name, t: Token, h: Holder)
    requires Live(w1, InCache(c, 0)) && Live(w1, h) && h != InCache(c, 0) && IdsBelowNext(w1)
    requires At(w1, InCache(c, 0)).shared || At(w1, h).id != At(w1, InCache(c, 0)).id
    requires var s := w1.caches[c].blocks[0].storage; s in w1.cells && |w1.cells[s]| > 0
    ensures var w := WriteBlock(w1, c, 0, 0, t, 1);
            c in w.caches && Live(w, h) && Live(w, InCache(c, 0)) && At(w, h).id != At(w, InCache(c, 0)).id
  {
    hide IsShared;
    var b := WriteBlock(w1, c, 0, 0, t, 1).caches[c].blocks[0];
    OtherHandlesKept(w1, c, 0, b, w1.cells[w1.caches[c].blocks[0].storage][0 := t], h);
    assert At(w1, h).id < w1.nextId;
  }

  lemma FirstAppend(w1: World, c: Name, t: Token)
    requires c in w1.caches && CacheOk(w1, w1.caches[c]) && w1.caches[c].meta.tokenCount == 0
    ensures var s := w1.caches[c].blocks[0].storage; s in w1.cells && |w1.cells[s]| > 0
    ensures var w := WriteBlock(w1, c, 0, 0, t, 1);
            && c in w.caches
            && (forall h :: Live(AppendAtEnd(w1, c, t), h) <==> Live(w, h))
            && (forall h :: Live(w, h) ==> At(AppendAtEnd(w1, c, t), h) == At(w, h))
  {
    hide Slots, IsShared;
    var k := w1.caches[c];
    assert BlockOk(w1, k.meta, 0, k.blocks[0]);
    var w := WriteBlock(w1, c, 0, 0, t, 1);
    var keys, values := w1.keyStages[k.keyStage][0 := t.key], w1.valueStages[k.valueStage][0 := t.value];
    var m := k.meta.(tokenCount := 1, tokensSeen := k.meta.tokensSeen + 1, revision := k.meta.revision + 1);
    StagesAreNotHandles(w, c, keys, values, m);
    assert AppendAtEnd(w1, c, t) == SetMeta(SetStages(w, c, keys, values), c, m);
    hide WriteBlock, SetStages, SetMeta, AppendAtEnd, Live, At;
  }

  lemma FirstWriteForks(w1: World, c: Name, call: CacheOp, h: Holder)
    requires c in w1.caches && CacheOk(w1, w1.caches[c]) && IdsBelowNext(w1) && !call.OpClear? && Live(w1, h)
    requires w1.caches[c].meta.tokenCount == 0 && h != InCache(c, 0) && CallCache(w1, c, call).1.Ok?
    requires Live(w1, InCache(c, 0)) && (At(w1, InCache(c, 0)).shared || At(w1, h).id != At(w1, InCache(c, 0)).id)
    ensures var w2 := CallCache(w1, c, call).0;
            Live(w2, h) && Live(w2, InCache(c, 0)) && At(w2, h).id != At(w2, InCache(c, 0)).id
  {
    hide StagesOk, BlockOk, IdsBelowNext, AppendAtEnd, Overwrite, WriteBlock, Live, At;
    FirstAppend(w1, c, call.t);
    WrittenFirstForks(w1, c, call.t, h);
  }

  // ---------------------------------------------------------------- a second clear

  /** Cloning a cache that holds tokens and clearing the original is harmless; clearing it again is not: its first
      block is then unmarked, with an id under which the clone holds tokens. */
  lemma SecondClearTears(w: World, src: Name, dst: Name)
    requires Inv(w) && IdsAgreeInUse(w) && OwnIds(w) && src in w.caches && dst != src
    requires w.caches[src].meta.tokenCount > 0
    ensures Inv(Step(w, Clone(src, dst)).0) && Inv(Step(Step(w, Clone(src, dst)).0, Call(src, OpClear)).0)
    ensures var w1 := Step(Step(w, Clone(src, dst)).0, Call(src, OpClear)).0;
            !IdsAgreeInUse(w1) || !IdsAgreeInUse(Step(w1, Call(src, OpClear)).0)
    ensures (forall i :: 0 <= i < |w.caches[src].blocks| ==> !w.caches[src].blocks[i].shared) ==>
              IdsAgreeInUse(Step(Step(w, Clone(src, dst)).0, Call(src, OpClear)).0)
  {
    hide IdsAgreeInUse, OwnIds, StagesOk;
    StepInUseIff(w, Clone(src, dst));
    var w0 := Step(w, Clone(src, dst)).0;
    StepInUseIff(w0, Call(src, OpClear));
    var w1 := Step(w0, Call(src, OpClear)).0;
    ClonedFirst(w, src, dst);
    ClearedCache(w0, src);
    HandlesAreBelowNext(w0);
    hide Step, Inv;
    if forall i :: 0 <= i < |w.caches[src].blocks| ==> !w.caches[src].blocks[i].shared {
      UnmarkedCacheIsSafe(w0, src);
    }
    if IdsAgreeInUse(w1) {
      StepInUseIff(w1, Call(src, OpClear));
      MarkedIsUnsafe(w0, w1, src, dst);
    }
  }

  lemma ClonedFirst(w: World, src: Name, dst: Name)
    requires src in w.caches && CacheOk(w, w.caches[src]) && dst != src && w.caches[src].meta.tokenCount > 0
    ensures var w0 := CloneCache(w, src, dst);
            var own, twin := InCache(src, 0), InCache(dst, 0);
            && Live(w0, own) && Live(w0, twin) && SameBlock(At(w0, own), At(w0, twin)) && At(w0, twin).tokenCount > 0
            && IsShared(w0, At(w0, own).storage) && w0.caches[src] == w.caches[src]
  {
    hide StagesOk;
    var w0 := CloneCache(w, src, dst);
    assert BlockOk(w, w.caches[src].meta, 0, w.caches[src].blocks[0]);
    TwoMembers(Holders(w0, w.caches[src].blocks[0].storage), InCache(src, 0), InCache(dst, 0));
  }

  lemma UnmarkedCacheIsSafe(w: World, c: Name)
    requires IdsAgreeInUse(w) && c in w.caches
    requires forall i :: 0 <= i < |w.caches[c].blocks| ==> !w.caches[c].blocks[i].shared
    ensures CacheSafe(w, c, 0)
  {
    hide IdsAgreeInUse, SafeToClear;
    forall i | 0 <= i < |w.caches[c].blocks| ensures SafeToClear(w, c, i) {
      UnmarkedIsSafe(w, c, i);
    }
  }

  lemma OnlyHolderOf(w: World, own: Holder)
    requires Live(w, own) && forall g :: Live(w, g) && g != own ==> At(w, g).storage != At(w, own).storage
    ensures !IsShared(w, At(w, own).storage)
  {
    hide Live, At, Holders;
    assert Holders(w, At(w, own).storage) == {own};
  }

  lemma MarkedIsUnsafe(w0: World, w1: World, src: Name, dst: Name)
    requires StorageBelowNext(w0) && ClearedFirst(w0, w1, src) && IdsAgreeInUse(w1) && OwnIds(w1)
    requires src in w1.caches && dst != src
    requires var own, twin := InCache(src, 0), InCache(dst, 0);
             && Live(w0, own) && Live(w0, twin) && SameBlock(At(w0, own), At(w0, twin)) && At(w0, twin).tokenCount > 0
             && IsShared(w0, At(w0, own).storage)
    ensures !CacheSafe(w1, src, 0)
  {
    var own, twin := InCache(src, 0), InCache(dst, 0);
    assert At(w1, own) == w1.caches[src].blocks[0];
    hide Live, At, IsShared;
    forall g | Live(w1, g) && g != own ensures At(w1, g).storage != At(w1, own).storage {
      assert PairAgrees(w1, g, own);
      if Together(g, own) {
        assert At(w1, g).id != At(w1, own).id;
      } else {
        assert At(w1, g) == At(w0, g) && At(w0, g).storage < w0.nextSid;
      }
    }
    OnlyHolderOf(w1, own);
    assert At(w1, twin) == At(w0, twin) && !Cleared(w1, twin);
    assert !SafeToClear(w1, src, 0);
  }

  /** One more step of a run that agrees throughout. */
  lemma Throughout(w: World, op: Op, rest: seq<Op>)
    requires Inv(w)
    ensures Inv(Step(w, op).0)
    ensures AgreesInUseThroughout(w, [op] + rest) ==> AgreesInUseThroughout(Step(w, op).0, rest)
    ensures AgreesInUseThroughout(Step(w, op).0, rest) ==> IdsAgreeInUse(Step(w, op).0)
  {
    hide Inv, Step, IdsAgreeInUse;
    StepRefines(w, op);
    assert ([op] + rest)[1..] == rest;
  }

  /** A cache with one token, made from the start. */
  lemma FilledCache(t: Token)
    requires |t.key| == |t.value| == 1
    ensures Inv(Start) && Inv(Step(Start, New(0, 1, 1, false)).0)
    ensures var w := Step(Step(Start, New(0, 1, 1, false)).0, Call(0, OpAppend(t))).0;
            Inv(w) && IdsAgreeInUse(w) && OwnIds(w) && 0 in w.caches && w.caches[0].meta.tokenCount == 1
  {
    hide Inv, Abstract, IdsAgreeInUse, OwnIds, Step, CacheSafe;
    StartAgreesInUse();
    var o1, o2 := New(0, 1, 1, false), Call(0, OpAppend(t));
    StepInUseIff(Start, o1);
    StepRefines(Start, o1);
    var w1 := Step(Start, o1).0;
    assert Abstract(w1).caches[0] == Empty(1, 1, false);
    StepInUseIff(w1, o2);
    StepRefines(w1, o2);
    TokensShown(Step(w1, o2).0, 0);
  }

  /** The failing case is reachable: create a cache, append, clone it, and clear the original twice. */
  lemma SecondClearTearsFromStart(t: Token)
    requires |t.key| == |t.value| == 1
    ensures Inv(Start)
    ensures !AgreesInUseThroughout(Start, [New(0, 1, 1, false), Call(0, OpAppend(t)), Clone(0, 1), Call(0, OpClear),
                                           Call(0, OpClear)])
  {
    hide Inv, IdsAgreeInUse, OwnIds, Step, AgreesInUseThroughout;
    FilledCache(t);
    var o1, o2, o3, o4 := New(0, 1, 1, false), Call(0, OpAppend(t)), Clone(0, 1), Call(0, OpClear);
    var w1 := Step(Start, o1).0;
    var w2 := Step(w1, o2).0;
    SecondClearTears(w2, 0, 1);
    var w3 := Step(w2, o3).0;
    var w4 := Step(w3, o4).0;
    assert [o1, o2, o3, o4, o4] == [o1] + [o2, o3, o4, o4];
    assert [o2, o3, o4, o4] == [o2] + [o3, o4, o4];
    assert [o3, o4, o4] == [o3] + [o4, o4] && [o4, o4] == [o4] + [o4] && [o4] == [o4] + [];
    Throughout(Start, o1, [o2, o3, o4, o4]);
    Throughout(w1, o2, [o3, o4, o4]);
    Throughout(w2, o3, [o4, o4]);
    Throughout(w3, o4, [o4]);
    Throughout(w4, o4, []);
  }

  lemma TokensShown(w: World, c: Name)
    requires Inv(w) && c in Abstract(w).caches
    ensures c in w.caches && w.caches[c].meta.tokenCount == |Abstract(w).caches[c].rows|
  {
    hide BlocksOk, StagesOk;
  }

  // ---------------------------------------------------------------- marks of copies

  /** Every block of a clone takes a fresh id when it is first written, also when the original is gone by then. */
  lemma CloneForksOnWrite(w: World, src: Name, dst: Name, i: nat, j: nat, t: Token, count: nat)
    requires src in w.caches && dst != src && i < |w.caches[src].blocks|
    requires var s := w.caches[src].blocks[i].storage; s in w.cells && j < |w.cells[s]|
    ensures var w0 := CloneCache(w, src, dst);
            var w1 := w0.(caches := w0.caches - {src});
            && Live(w1, InCache(dst, i)) && w1.caches[dst].blocks[i].storage == w.caches[src].blocks[i].storage
            && WriteBlock(w1, dst, i, j, t, count).caches[dst].blocks[i].id == w.nextId
            && WriteBlock(w0, dst, i, j, t, count).caches[dst].blocks[i].id == w.nextId
  {
  }

  /** So does every retained block of a restored cache, also when the prefix is gone by then. */
  lemma RestoredForksOnWrite(w: World, p: Name, c: Name, i: nat, j: nat, t: Token, count: nat)
    requires p in w.prefixes && PrefixOk(w, w.prefixes[p]) && i < |w.prefixes[p].blocks|
    requires StorageBelowNext(w) && StagesBelowNext(w)
    requires j < |w.cells[w.prefixes[p].blocks[i].storage]|
    ensures var w0 := RestorePrefix(w, p, c);
            var w1 := w0.(prefixes := w0.prefixes - {p});
            && Live(w1, InCache(c, i)) && w1.caches[c].blocks[i].storage == w.prefixes[p].blocks[i].storage
            && w1.caches[c].blocks[i].storage in w1.cells && j < |w1.cells[w1.caches[c].blocks[i].storage]|
            && WriteBlock(w1, c, i, j, t, count).caches[c].blocks[i].id == w1.nextId
  {
    hide Slots;
    RestoredBlock(w, p, c, i);
    assert BlockOk(w, w.prefixes[p].meta, i, w.prefixes[p].blocks[i]);
  }
}
