/**
 Block ids as names of contents.

 Consumers key uploaded data on (block id, revision), so two live blocks with one id must be the same
 block. Writing keeps this; clearing a block whose storage is shared does not, because it swaps the
 storage and keeps the id.
 */
module BlockIdentity {
  import opened TokenWindow
  import opened Geometry
  import opened Shared

  predicate SameBlock(a: Block, b: Block) {
    a.id == b.id && a.storage == b.storage && a.revision == b.revision && a.tokenCount == b.tokenCount
  }

  /** Live blocks, of caches and of prefixes, agree on the id exactly if they agree on the storage, and
      then on revision and token count too. */
  ghost predicate IdsAgree(w: World) {
    forall h, g :: Live(w, h) && Live(w, g) && (At(w, h).id == At(w, g).id || At(w, h).storage == At(w, g).storage)
      ==> SameBlock(At(w, h), At(w, g))
  }

  ghost predicate IdsBelowNext(w: World) {
    forall h :: Live(w, h) ==> At(w, h).id < w.nextId
  }

  lemma IdsAreBelowNext(w: World)
    requires Inv(w)
    ensures IdsBelowNext(w)
  {
    forall h | Live(w, h) ensures At(w, h).id < w.nextId {
      match h {
        case InCache(d, j) => assert BlockOk(w, w.caches[d].meta, j, w.caches[d].blocks[j]);
        case InPrefix(p, j) => assert BlockOk(w, w.prefixes[p].meta, j, w.prefixes[p].blocks[j]);
      }
    }
  }

  /** A block a step brings in: fresh id and fresh storage, paired one to one. */
  ghost predicate Fresh(w: World, b: Block) {
    && w.nextId <= b.id && w.nextSid <= b.storage && b.id - w.nextId == b.storage - w.nextSid
    && b.revision == 0 && b.tokenCount == 0
  }

  ghost predicate Copied(w: World, b: Block) {
    exists g :: Live(w, g) && SameBlock(b, At(w, g))
  }

  /** A step whose blocks are all copies of live blocks, or fresh, keeps ids in agreement. */
  lemma CopiesAgree(w: World, w': World)
    requires IdsAgree(w) && IdsBelowNext(w) && StorageBelowNext(w)
    requires forall h :: Live(w', h) ==> Copied(w, At(w', h)) || Fresh(w, At(w', h))
    ensures IdsAgree(w')
  {
    forall h, g | Live(w', h) && Live(w', g) && (At(w', h).id == At(w', g).id || At(w', h).storage == At(w', g).storage)
      ensures SameBlock(At(w', h), At(w', g))
    {
      CopiesAgreeAt(w, At(w', h), At(w', g));
    }
  }

  lemma CopiesAgreeAt(w: World, a: Block, b: Block)
    requires IdsAgree(w) && IdsBelowNext(w) && StorageBelowNext(w)
    requires (Copied(w, a) || Fresh(w, a)) && (Copied(w, b) || Fresh(w, b))
    requires a.id == b.id || a.storage == b.storage
    ensures SameBlock(a, b)
  {
    hide Live, At;
    if Copied(w, a) && Copied(w, b) {
      var h :| Live(w, h) && SameBlock(a, At(w, h));
      var g :| Live(w, g) && SameBlock(b, At(w, g));
    }
  }

  /** Writing one block leaves every other handle as it was. */
  lemma OtherHandlesKept(w: World, c: Name, i: nat, b: Block, cell: seq<Token>, h: Holder)
    requires Live(w, InCache(c, i)) && h != InCache(c, i)
    ensures var w' := SetBlock(w, c, i, b, cell);
            (Live(w', h) <==> Live(w, h)) && (Live(w, h) ==> At(w', h) == At(w, h))
  {
  }

  lemma OtherHandlesDiffer(w: World, c: Name, i: nat, b: Block, h: Holder)
    requires IdsAgree(w) && IdsBelowNext(w) && StorageBelowNext(w) && Live(w, InCache(c, i)) && Live(w, h) &&
      h != InCache(c, i)
    requires b.storage == WriteTarget(w, c, i)
    requires b.id == w.nextId || (b.id == w.caches[c].blocks[i].id && !IsShared(w, w.caches[c].blocks[i].storage))
    ensures At(w, h).storage != b.storage && At(w, h).id != b.id
  {
    WriteTargetIsPrivate(w, c, i, h);
    var own := InCache(c, i);
    assert At(w, own) == w.caches[c].blocks[i];
    hide Holders, Live, At;
    assert At(w, h).id < w.nextId;
    if At(w, h).id == At(w, own).id {
      assert SameBlock(At(w, h), At(w, own));
    }
  }

  /** If one handle got an id and a storage of its own, and the others are as they were, ids still agree. */
  lemma OneHandleChanged(w: World, w': World, own: Holder)
    requires IdsAgree(w) && Live(w', own)
    requires forall h :: Live(w', h) && h != own ==> Live(w, h) && At(w', h) == At(w, h)
    requires forall h :: Live(w', h) && h != own ==>
      At(w', h).storage != At(w', own).storage && At(w', h).id != At(w', own).id
    ensures IdsAgree(w')
  {
    hide Live, At;
    forall h, g | Live(w', h) && Live(w', g) && (At(w', h).id == At(w', g).id || At(w', h).storage == At(w', g).storage)
      ensures SameBlock(At(w', h), At(w', g))
    {
      if h != own && g != own {
        assert SameBlock(At(w, h), At(w, g));
      }
    }
  }

  /** Only block `i` of cache `c` differs, and its id and storage are its own. */
  lemma WriteAgrees(w: World, c: Name, i: nat, b: Block, cell: seq<Token>)
    requires IdsAgree(w) && IdsBelowNext(w) && StorageBelowNext(w) && Live(w, InCache(c, i))
    requires b.storage == WriteTarget(w, c, i)
    requires b.id == w.nextId || (b.id == w.caches[c].blocks[i].id && !IsShared(w, w.caches[c].blocks[i].storage))
    ensures IdsAgree(SetBlock(w, c, i, b, cell))
  {
    var w' := SetBlock(w, c, i, b, cell);
    var own := InCache(c, i);
    assert Live(w', own) && At(w', own) == b;
    hide SetBlock, Live, At, IdsAgree, IdsBelowNext, StorageBelowNext, WriteTarget, IsShared;
    forall h | Live(w', h) && h != own
      ensures Live(w, h) && At(w', h) == At(w, h) && At(w', h).storage != b.storage && At(w', h).id != b.id
    {
      OtherHandlesKept(w, c, i, b, cell, h);
      OtherHandlesDiffer(w, c, i, b, h);
    }
    OneHandleChanged(w, w', own);
  }

  /** A write keeps the id of a block only if no other live block has that id. */
  lemma IdKeptOnlyBySoleHolder(w: World, c: Name, i: nat, j: nat, t: Token, count: nat, h: Holder)
    requires IdsAgree(w) && IdsBelowNext(w) && Live(w, InCache(c, i)) && Live(w, h) && h != InCache(c, i)
    requires var s := w.caches[c].blocks[i].storage; s in w.cells && j < |w.cells[s]|
    requires WriteBlock(w, c, i, j, t, count).caches[c].blocks[i].id == w.caches[c].blocks[i].id
    ensures At(w, h).id != w.caches[c].blocks[i].id
  {
    var b := w.caches[c].blocks[i];
    assert At(w, InCache(c, i)).id < w.nextId;
    assert !IsShared(w, b.storage);
    if At(w, h).id == b.id {
      assert SameBlock(At(w, h), At(w, InCache(c, i)));
      TwoMembers(Holders(w, b.storage), h, InCache(c, i));
    }
  }

  // ---------------------------------------------------------------- clear

  /** No block of cache `c` has storage with another holder. */
  ghost predicate SoleHolder(w: World, c: Name, from: nat)
    requires c in w.caches
  {
    forall i :: from <= i < |w.caches[c].blocks| ==> !IsShared(w, w.caches[c].blocks[i].storage)
  }

  ghost predicate Torn(w: World, h: Holder, g: Holder) {
    Live(w, h) && Live(w, g) && At(w, h).id == At(w, g).id && At(w, h).storage != At(w, g).storage
  }

  lemma TornStays(w: World, c: Name, i: nat, h: Holder, g: Holder)
    requires Live(w, InCache(c, i)) && w.caches[c].blocks[i].storage in w.cells && StorageBelowNext(w)
    requires Torn(w, h, g)
    ensures Torn(ClearBlock(w, c, i), h, g)
  {
    hide Holders;
    var own := InCache(c, i);
    if h != own { ClearKeepsIds(w, c, i, h); }
    if g != own { ClearKeepsIds(w, c, i, g); }
  }

  lemma {:induction false} TornStaysTorn(w: World, c: Name, i: nat, h: Holder, g: Holder)
    requires c in w.caches && i <= |w.caches[c].blocks| && AllAllocated(w, w.caches[c].blocks) && StorageBelowNext(w)
    requires Torn(w, h, g)
    ensures Torn(ClearBlocks(w, c, i), h, g)
    decreases |w.caches[c].blocks| - i
  {
    hide Torn, OnlyChanges, StorageBelowNext, EmptiedAt, ClearBlock, AllAllocated;
    if i < |w.caches[c].blocks| {
      ClearBlocksStep(w, c, i);
      ClearBlockOk(w, c, i);
      TornStays(w, c, i, h, g);
      var w1 := ClearBlock(w, c, i);
      EmptiedSize(w.caches[c].blocks, w1.caches[c].blocks, i);
      hide ClearBlocks;
      TornStaysTorn(w1, c, i + 1, h, g);
    }
  }

  lemma OtherHolder(w: World, s: Sid, own: Holder) returns (g: Holder)
    requires IsShared(w, s) && own in Holders(w, s)
    ensures g != own && Live(w, g) && At(w, g).storage == s
  {
    var hs := Holders(w, s);
    assert |hs - {own}| == |hs| - 1;
    g :| g in hs - {own};
  }

  /** Clearing a block with shared storage leaves its id in two places with different storage. */
  lemma ClearSharedTears(w: World, c: Name, i: nat) returns (g: Holder)
    requires IdsAgree(w) && StorageBelowNext(w) && Live(w, InCache(c, i))
    requires w.caches[c].blocks[i].storage in w.cells && IsShared(w, w.caches[c].blocks[i].storage)
    ensures Torn(ClearBlock(w, c, i), InCache(c, i), g)
  {
    var own := InCache(c, i);
    g := OtherHolder(w, w.caches[c].blocks[i].storage, own);
    assert SameBlock(At(w, g), At(w, own)) && At(w, g).storage < w.nextSid by { hide Holders, IsShared; }
    ClearKeepsIds(w, c, i, g);
  }

  lemma ClearKeepsIds(w: World, c: Name, i: nat, g: Holder)
    requires Live(w, InCache(c, i)) && w.caches[c].blocks[i].storage in w.cells && Live(w, g) && g != InCache(c, i)
    ensures var w' := ClearBlock(w, c, i);
            && Live(w', g) && At(w', g) == At(w, g) && Live(w', InCache(c, i))
            && At(w', InCache(c, i)).id == w.caches[c].blocks[i].id
            && At(w', InCache(c, i)).storage == WriteTarget(w, c, i)
  {
  }

  /** Clearing a block with storage of its own moves no handle. */
  lemma ClearSoleBlock(w: World, c: Name, i: nat)
    requires Live(w, InCache(c, i)) && w.caches[c].blocks[i].storage in w.cells
    requires !IsShared(w, w.caches[c].blocks[i].storage)
    ensures var w' := ClearBlock(w, c, i);
            && (forall h :: Live(w', h) <==> Live(w, h))
            && (forall h :: Live(w, h) ==> At(w', h).storage == At(w, h).storage && At(w', h).id == At(w, h).id)
            && (forall s :: Holders(w', s) == Holders(w, s))
  {
    var w' := ClearBlock(w, c, i);
    var own := InCache(c, i);
    assert Live(w', own) && At(w', own).storage == At(w, own).storage && At(w', own).id == At(w, own).id;
    forall h | h != own ensures (Live(w', h) <==> Live(w, h)) && (Live(w, h) ==> At(w', h) == At(w, h)) {
      OtherHandlesKept(w, c, i, w'.caches[c].blocks[i], w'.cells[w'.caches[c].blocks[i].storage], h);
    }
    hide ClearBlock, Live, At, IsShared, Holders;
    SameHolders(w, w');
  }

  /** Storage is held by the same handles if no handle moved. */
  lemma SameHolders(w: World, w': World)
    requires forall h :: Live(w', h) <==> Live(w, h)
    requires forall h :: Live(w, h) ==> At(w', h).storage == At(w, h).storage
    ensures forall s :: Holders(w', s) == Holders(w, s)
  {
    hide Live, At, Holders;
    forall s ensures Holders(w', s) == Holders(w, s) {
      forall h ensures h in Holders(w', s) <==> h in Holders(w, s) {
      }
    }
  }

  lemma ClearSoleStep(w: World, c: Name, i: nat)
    requires IdsAgree(w) && IdsBelowNext(w) && StorageBelowNext(w) && Live(w, InCache(c, i))
    requires w.caches[c].blocks[i].storage in w.cells && !IsShared(w, w.caches[c].blocks[i].storage)
    ensures var w' := ClearBlock(w, c, i);
            && IdsAgree(w') && IdsBelowNext(w') && c in w'.caches && |w'.caches[c].blocks| == |w.caches[c].blocks|
            && (forall j :: i < j < |w.caches[c].blocks| ==> w'.caches[c].blocks[j] == w.caches[c].blocks[j])
            && (forall s :: IsShared(w', s) <==> IsShared(w, s))
  {
    hide IdsAgree, StorageBelowNext, Holders;
    var w' := ClearBlock(w, c, i);
    WriteAgrees(w, c, i, w'.caches[c].blocks[i], w'.cells[w'.caches[c].blocks[i].storage]);
    ClearSoleBlock(w, c, i);
    assert IdsBelowNext(w') by { hide ClearBlock; }
  }

  lemma {:induction false} ClearBlocksAgree(w: World, c: Name, i: nat)
    requires IdsAgree(w) && IdsBelowNext(w) && StorageBelowNext(w)
    requires c in w.caches && i <= |w.caches[c].blocks| && AllAllocated(w, w.caches[c].blocks)
    ensures IdsAgree(ClearBlocks(w, c, i)) <==> SoleHolder(w, c, i)
    decreases |w.caches[c].blocks| - i
  {
    hide OnlyChanges, IdsAgree, StorageBelowNext, IdsBelowNext, IsShared, ClearBlock, Torn;
    if i < |w.caches[c].blocks| {
      assert Allocated(w, w.caches[c].blocks[i]);
      ClearBlockOk(w, c, i);
      var w1 := ClearBlock(w, c, i);
      if IsShared(w, w.caches[c].blocks[i].storage) {
        var g := ClearSharedTears(w, c, i);
        TornStaysTorn(w1, c, i + 1, InCache(c, i), g);
        TornDisagrees(ClearBlocks(w1, c, i + 1), InCache(c, i), g);
      } else {
        ClearSoleStep(w, c, i);
        ClearBlocksAgree(w1, c, i + 1);
      }
    }
  }

  lemma TornDisagrees(w: World, h: Holder, g: Holder)
    requires Torn(w, h, g)
    ensures !IdsAgree(w)
  {
  }

  /** Stages and counters are not handles on blocks. */
  lemma StagesAreNotHandles(w: World, c: Name, keys: seq<Vec>, values: seq<Vec>, m: Meta)
    requires c in w.caches
    ensures var w' := SetMeta(SetStages(w, c, keys, values), c, m);
            forall h :: (Live(w', h) <==> Live(w, h)) && (Live(w, h) ==> At(w', h) == At(w, h))
  {
    hide KeyStageHolders, ValueStageHolders;
  }

  /** Only the block handles matter for agreement. */
  lemma SameHandles(w: World, w': World)
    requires forall h :: Live(w', h) ==> Live(w, h) && At(w', h) == At(w, h)
    ensures IdsAgree(w) ==> IdsAgree(w')
  {
    hide Live, At;
  }

  /** A clear keeps ids in agreement if and only if no block of the cache shares its storage. */
  lemma ClearAgreesIffSole(w: World, c: Name)
    requires Inv(w) && IdsAgree(w) && c in w.caches
    ensures IdsAgree(Step(w, Call(c, OpClear)).0) <==> SoleHolder(w, c, 0)
  {
    hide Inv, CacheOk, IdsAgree, OnlyChanges, ClearBlocks, AllAllocated, StorageBelowNext, StagesBelowNext;
    hide IdsBelowNext, SoleHolder;
    IdsAreBelowNext(w);
    OneCacheOk(w, c);
    ClearCacheOk(w, c);
    ClearBlocksOk(w, c, 0);
    ClearBlocksAgree(w, c, 0);
    ClearIsBlocksCleared(w, c);
  }

  /** For agreement, clearing a cache is clearing its blocks. */
  lemma ClearIsBlocksCleared(w: World, c: Name)
    requires c in w.caches && AllAllocated(w, w.caches[c].blocks) && c in ClearBlocks(w, c, 0).caches
    ensures IdsAgree(ClearCache(w, c)) <==> IdsAgree(ClearBlocks(w, c, 0))
  {
    hide IdsAgree, ClearBlocks, AllAllocated;
    var m, w1, w' := w.caches[c].meta, ClearBlocks(w, c, 0), ClearCache(w, c);
    var blank := seq(m.max, _ => Zeros(m.vectorLen));
    StagesAreNotHandles(w1, c, blank, blank, ClearedMeta(m));
    assert w' == SetMeta(SetStages(w1, c, blank, blank), c, ClearedMeta(m));
    hide ClearCache, SetStages, SetMeta, Live, At;
    SameHandles(w1, w');
    SameHandles(w', w1);
  }

  // ---------------------------------------------------------------- the other steps, and whole runs

  lemma PutTokenAgrees(w: World, c: Name, p: nat, j: nat, count: nat, t: Token, m: Meta)
    requires IdsAgree(w) && IdsBelowNext(w) && StorageBelowNext(w) && c in w.caches && CacheOk(w, w.caches[c])
    requires p < w.caches[c].meta.max && j < Capacity(w.caches[c].meta.max, p / BLOCK)
    ensures IdsAgree(PutToken(w, c, p, j, count, t, m))
  {
    hide IdsAgree, StorageBelowNext, IdsBelowNext, Slots;
    var k := w.caches[c];
    var i := p / BLOCK;
    assert BlockOk(w, k.meta, i, k.blocks[i]);
    var w1, w' := WriteBlock(w, c, i, j, t, count), PutToken(w, c, p, j, count, t, m);
    var keys, values := w.keyStages[k.keyStage][p := t.key], w.valueStages[k.valueStage][p := t.value];
    assert c in w1.caches && w' == SetMeta(SetStages(w1, c, keys, values), c, m);
    WriteAgrees(w, c, i, w1.caches[c].blocks[i], w.cells[k.blocks[i].storage][j := t]);
    hide WriteBlock, PutToken, SetStages, SetMeta, CacheOk;
    StagesAreNotHandles(w1, c, keys, values, m);
    hide Live, At;
    SameHandles(w1, w');
  }

  lemma CallAgrees(w: World, c: Name, call: CacheOp)
    requires Inv(w) && IdsAgree(w) && c in w.caches
    requires call.OpClear? ==> SoleHolder(w, c, 0)
    ensures IdsAgree(CallCache(w, c, call).0)
  {
    hide Inv, IdsAgree, StagesOk, PutToken, ClearCache, IdsBelowNext, StorageBelowNext, SoleHolder;
    if call.OpClear? {
      ClearAgreesIffSole(w, c);
    } else {
      IdsAreBelowNext(w);
      OneCacheOk(w, c);
      var m := w.caches[c].meta;
      if m.tokenCount < m.max {
        var n := m.tokenCount;
        AppendIsPut(w, c, call.t);
        PutTokenAgrees(w, c, n, n % BLOCK, Fill(n + 1, n / BLOCK), call.t,
                       m.(tokenCount := n + 1, tokensSeen := m.tokensSeen + 1, revision := m.revision + 1));
      } else {
        var s := m.windowStart;
        PutTokenAgrees(w, c, s, s % BLOCK, w.caches[c].blocks[s / BLOCK].tokenCount, call.t,
                       m.(windowStart := (s + 1) % m.max, tokensSeen := m.tokensSeen + 1, revision := m.revision + 1));
      }
    }
  }

  lemma CopyStepAgrees(w: World, op: Op)
    requires Inv(w) && IdsAgree(w) && !op.Call?
    ensures IdsAgree(Step(w, op).0)
  {
    hide BlocksOk, StagesOk, IdsAgree;
    IdsAreBelowNext(w);
    HandlesAreBelowNext(w);
    var w' := Step(w, op).0;
    forall h | Live(w', h) ensures Copied(w, At(w', h)) || Fresh(w, At(w', h)) {
      OriginOk(w, op, h);
    }
    CopiesAgree(w, w');
  }

  /** Every block after a step that is not a call is a copy of a live block, or fresh. */
  lemma OriginOk(w: World, op: Op, h: Holder)
    requires Inv(w) && !op.Call? && Live(Step(w, op).0, h)
    ensures Copied(w, At(Step(w, op).0, h)) || Fresh(w, At(Step(w, op).0, h))
  {
    hide CacheOk, PrefixOk, Fresh, AddNew, CloneCache, CapturePrefix, RestorePrefix;
    if Step(w, op).0 == w {
      assert SameBlock(At(Step(w, op).0, h), At(w, h));
    } else {
      match op {
        case New(c, max, vectorLen, compressed) => NewOrigin(w, c, max, vectorLen, compressed, h);
        case Clone(src, dst) => CloneOrigin(w, src, dst, h);
        case Capture(c, p) =>
          CaptureShows(w, c);
          CaptureOrigin(w, c, p, h);
        case Restore(p, c) => RestoreOrigin(w, p, c, h);
        case DropCache(_) => assert SameBlock(At(Step(w, op).0, h), At(w, h));
        case DropPrefix(_) => assert SameBlock(At(Step(w, op).0, h), At(w, h));
      }
    }
  }

  lemma NewOrigin(w: World, c: Name, max: nat, vectorLen: nat, compressed: bool, h: Holder)
    requires max > 0 && Live(AddNew(w, c, max, vectorLen, compressed), h)
    ensures var b := At(AddNew(w, c, max, vectorLen, compressed), h); Copied(w, b) || Fresh(w, b)
  {
    var b := At(AddNew(w, c, max, vectorLen, compressed), h);
    if !(h.InCache? && h.c == c) {
      assert Live(w, h) && SameBlock(b, At(w, h));
    }
  }

  lemma CloneOrigin(w: World, src: Name, dst: Name, h: Holder)
    requires src in w.caches && Live(CloneCache(w, src, dst), h)
    ensures Copied(w, At(CloneCache(w, src, dst), h))
  {
    var g := if h.InCache? && h.c == dst then InCache(src, h.i) else h;
    assert Live(w, g) && SameBlock(At(CloneCache(w, src, dst), h), At(w, g));
  }

  lemma CaptureOrigin(w: World, c: Name, p: Name, h: Holder)
    requires c in w.caches && NumBlocks(w.caches[c].meta.tokenCount) <= |w.caches[c].blocks| &&
      Live(CapturePrefix(w, c, p), h)
    ensures Copied(w, At(CapturePrefix(w, c, p), h))
  {
    var g := if h.InPrefix? && h.p == p then InCache(c, h.i) else h;
    assert Live(w, g) && SameBlock(At(CapturePrefix(w, c, p), h), At(w, g));
  }

  lemma RestoreOrigin(w: World, p: Name, c: Name, h: Holder)
    requires p in w.prefixes && PrefixOk(w, w.prefixes[p]) && Live(RestorePrefix(w, p, c), h)
    ensures var b := At(RestorePrefix(w, p, c), h); Copied(w, b) || Fresh(w, b)
  {
    var b := At(RestorePrefix(w, p, c), h);
    var g := if h.InCache? && h.c == c then InPrefix(p, h.i) else h;
    if Live(w, g) {
      assert SameBlock(b, At(w, g));
    }
  }

  /** Every clear in the run is of a cache that shares no block storage at that moment. */
  ghost predicate ClearsAreSole(w: World, ops: seq<Op>)
    requires Inv(w)
    decreases |ops|
  {
    ops != [] ==>
      && (ops[0].Call? && ops[0].call.OpClear? && ops[0].c in w.caches ==> SoleHolder(w, ops[0].c, 0))
      && (StepRefines(w, ops[0]); ClearsAreSole(Step(w, ops[0]).0, ops[1..]))
  }

  /** One id is one block in every state the run passes through. */
  ghost predicate AgreesThroughout(w: World, ops: seq<Op>)
    requires Inv(w)
    decreases |ops|
  {
    IdsAgree(w) && (ops != [] ==> (StepRefines(w, ops[0]); AgreesThroughout(Step(w, ops[0]).0, ops[1..])))
  }

  /** The exact condition for one step. */
  lemma StepAgreesIff(w: World, op: Op)
    requires Inv(w) && IdsAgree(w)
    ensures Inv(Step(w, op).0)
    ensures IdsAgree(Step(w, op).0) <==> (op.Call? && op.call.OpClear? && op.c in w.caches ==> SoleHolder(w, op.c, 0))
  {
    hide Inv, IdsAgree, SoleHolder, CallCache;
    StepRefines(w, op);
    if op.Call? && op.c in w.caches {
      if op.call.OpClear? {
        ClearAgreesIffSole(w, op.c);
      } else {
        CallAgrees(w, op.c, op.call);
      }
    } else if !op.Call? {
      CopyStepAgrees(w, op);
    }
  }

  /** Over every run: one id is one block throughout, in every cache and every prefix, if and only if every
      clear is of a cache that shares no block storage at that moment. */
  lemma {:induction false} IdsAgreeThroughoutIff(w: World, ops: seq<Op>)
    requires Inv(w) && IdsAgree(w)
    ensures AgreesThroughout(w, ops) <==> ClearsAreSole(w, ops)
    decreases |ops|
  {
    hide Inv, IdsAgree, SoleHolder, Step;
    if ops != [] {
      StepAgreesIff(w, ops[0]);
      if IdsAgree(Step(w, ops[0]).0) {
        IdsAgreeThroughoutIff(Step(w, ops[0]).0, ops[1..]);
      }
    }
  }

  /** In every run that clears only caches with storage of their own, one id is one block at the end. */
  lemma {:induction false} IdsAgreeOverRuns(w: World, ops: seq<Op>)
    requires Inv(w) && IdsAgree(w) && ClearsAreSole(w, ops)
    ensures IdsAgree(RunFrom(w, ops))
    decreases |ops|
  {
    hide Inv, IdsAgree, SoleHolder, Step;
    if ops != [] {
      StepAgreesIff(w, ops[0]);
      IdsAgreeOverRuns(Step(w, ops[0]).0, ops[1..]);
    }
  }

  /** Clearing a cache right after cloning it always tears its ids. */
  lemma ClearAfterCloneDisagrees(w: World, src: Name, dst: Name)
    requires Inv(w) && IdsAgree(w) && src in w.caches && dst != src
    ensures Inv(Step(w, Clone(src, dst)).0)
    ensures IdsAgree(Step(w, Clone(src, dst)).0)
    ensures !IdsAgree(Step(Step(w, Clone(src, dst)).0, Call(src, OpClear)).0)
  {
    hide IdsAgree, StagesOk;
    StepRefines(w, Clone(src, dst));
    CopyStepAgrees(w, Clone(src, dst));
    var w' := Step(w, Clone(src, dst)).0;
    ClearAgreesIffSole(w', src);
    CloneShares(w, src, dst);
  }

  lemma CloneShares(w: World, src: Name, dst: Name)
    requires src in w.caches && CacheOk(w, w.caches[src]) && dst != src
    ensures !SoleHolder(CloneCache(w, src, dst), src, 0)
  {
    var w' := CloneCache(w, src, dst);
    var s := w.caches[src].blocks[0].storage;
    TwoMembers(Holders(w', s), InCache(src, 0), InCache(dst, 0));
    assert IsShared(w', w'.caches[src].blocks[0].storage);
  }

  /** The failing case is reachable: create a cache, clone it, clear the original. */
  lemma ClearOfSharedDisagrees()
    ensures Inv(Start)
    ensures !IdsAgree(RunFrom(Start, [New(0, 1, 1, false), Clone(0, 1), Call(0, OpClear)]))
  {
    hide IdsAgree, StagesOk, BlocksOk, Step;
    var o1, o2, o3 := New(0, 1, 1, false), Clone(0, 1), Call(0, OpClear);
    assert IdsAgree(Start) by { StartAgrees(); }
    StepRefines(Start, o1);
    CopyStepAgrees(Start, o1);
    var w1 := Step(Start, o1).0;
    assert 0 in Abstract(w1).caches;
    ClearAfterCloneDisagrees(w1, 0, 1);
    var w2 := Step(w1, o2).0;
    StepRefines(w2, o3);
    assert [o1, o2, o3][1..] == [o2, o3] && [o2, o3][1..] == [o3] && [o3][1..] == [];
    assert RunFrom(w2, [o3]) == RunFrom(Step(w2, o3).0, []);
    assert RunFrom(w1, [o2, o3]) == RunFrom(w2, [o3]);
  }

  lemma StartAgrees()
    ensures Inv(Start) && IdsAgree(Start)
  {
  }
}
