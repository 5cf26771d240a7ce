/**
 Many layer caches and captured prefixes over one memory of reference-counted storage.

 Cloning a cache, capturing a prefix and restoring one share block storage and staging buffers
 through `Arc`; writers copy storage that has another holder, and fork the block's id. A step of
 this machine is one call on one cache. `Abstract` forgets all sharing: it maps every cache and
 every prefix to the `Window` it shows. The main theorem is that sharing is invisible: each step
 acts on the abstraction as if every cache and every prefix had storage of its own.
 */
module Shared {
  import opened TokenWindow
  import opened Geometry

  type Sid = nat
  type Name = nat

  /** A block, or a retained block (whose `shared` flag is not used), as a handle on storage. */
  datatype Block = Block(id: nat, revision: nat, shared: bool, capacity: nat, tokenCount: nat, storage: Sid)

  datatype Meta = Meta(max: nat, vectorLen: nat, compressed: bool, tokenCount: nat, tokensSeen: nat, windowStart: nat,
                       revision: nat)

  datatype Cache = Cache(meta: Meta, blocks: seq<Block>, keyStage: Sid, valueStage: Sid)

  /** A captured prefix retains the blocks in use; entry `i` belongs at block index `i`. */
  datatype Prefix = Prefix(meta: Meta, blocks: seq<Block>)

  /** `cells` is the heap of block storage, one token per slot; stages are whole-ring buffers. */
  datatype World = World(
    cells: map<Sid, seq<Token>>, keyStages: map<Sid, seq<Vec>>, valueStages: map<Sid, seq<Vec>>,
    caches: map<Name, Cache>, prefixes: map<Name, Prefix>, nextId: nat, nextSid: Sid)

  // ---------------------------------------------------------------- reference counts

  datatype Holder = InCache(c: Name, i: nat) | InPrefix(p: Name, i: nat)

  predicate Live(w: World, h: Holder) {
    match h
    case InCache(c, i) => c in w.caches && i < |w.caches[c].blocks|
    case InPrefix(p, i) => p in w.prefixes && i < |w.prefixes[p].blocks|
  }

  function At(w: World, h: Holder): Block
    requires Live(w, h)
  {
    match h
    case InCache(c, i) => w.caches[c].blocks[i]
    case InPrefix(p, i) => w.prefixes[p].blocks[i]
  }

  /** The live handles on block storage `s`; `Arc::strong_count` is their number. */
  function Holders(w: World, s: Sid): (hs: set<Holder>)
    ensures forall h :: h in hs <==> Live(w, h) && At(w, h).storage == s
  {
    (set c, i | c in w.caches && 0 <= i < |w.caches[c].blocks| && w.caches[c].blocks[i].storage == s :: InCache(c, i))
    + (set p, i | p in w.prefixes && 0 <= i < |w.prefixes[p].blocks| &&
       w.prefixes[p].blocks[i].storage == s :: InPrefix(p, i))
  }

  predicate IsShared(w: World, s: Sid) {
    |Holders(w, s)| > 1
  }

  function KeyStageHolders(w: World, s: Sid): set<Name> {
    set c | c in w.caches && w.caches[c].keyStage == s
  }

  function ValueStageHolders(w: World, s: Sid): set<Name> {
    set c | c in w.caches && w.caches[c].valueStage == s
  }

  lemma TwoMembers<T>(s: set<T>, a: T, b: T)
    requires a in s && b in s && a != b
    ensures |s| > 1
  {
    assert {a, b} <= s;
    assert s == {a} + (s - {a});
    assert b in s - {a};
  }

  // ---------------------------------------------------------------- reading

  ghost predicate MetaOk(m: Meta) {
    && 0 < m.max && 0 < m.vectorLen
    && m.tokenCount <= m.max && m.tokenCount <= m.tokensSeen
    && m.windowStart < m.max
    && (m.tokenCount < m.max ==> m.windowStart == 0)
  }

  ghost predicate BlockOk(w: World, m: Meta, i: nat, b: Block) {
    && b.capacity == Capacity(m.max, i) && b.tokenCount == Fill(m.tokenCount, i)
    && b.storage in w.cells && |w.cells[b.storage]| == b.capacity
    && b.storage < w.nextSid && b.id < w.nextId
  }

  ghost predicate BlocksOk(w: World, m: Meta, blocks: seq<Block>) {
    && MetaOk(m)
    && NumBlocks(m.tokenCount) <= |blocks| <= NumBlocks(m.max)
    && forall i :: 0 <= i < |blocks| ==> BlockOk(w, m, i, blocks[i])
  }

  /** The tokens in the physical slots in use, read through the block handles. */
  ghost function Slots(w: World, m: Meta, blocks: seq<Block>): (s: seq<Token>)
    requires BlocksOk(w, m, blocks)
    ensures |s| == m.tokenCount
  {
    seq(m.tokenCount, p requires 0 <= p < m.tokenCount => w.cells[blocks[p / BLOCK].storage][p % BLOCK])
  }

  ghost function View(w: World, m: Meta, blocks: seq<Block>): Window
    requires BlocksOk(w, m, blocks)
  {
    Window(m.max, m.vectorLen, m.compressed, Rotate(Slots(w, m, blocks), m.windowStart), m.tokensSeen, m.revision)
  }

  /** The staging buffers hold the same rows as the blocks, slot by slot. */
  ghost predicate StagesOk(w: World, k: Cache)
    requires BlocksOk(w, k.meta, k.blocks)
  {
    && k.keyStage in w.keyStages && |w.keyStages[k.keyStage]| == k.meta.max && k.keyStage < w.nextSid
    && k.valueStage in w.valueStages && |w.valueStages[k.valueStage]| == k.meta.max && k.valueStage < w.nextSid
    && var slots := Slots(w, k.meta, k.blocks);
       forall p :: 0 <= p < |slots| ==>
         slots[p] == Token(w.keyStages[k.keyStage][p], w.valueStages[k.valueStage][p])
  }

  ghost predicate CacheOk(w: World, k: Cache) {
    BlocksOk(w, k.meta, k.blocks) && |k.blocks| == NumBlocks(k.meta.max) && StagesOk(w, k)
  }

  ghost predicate PrefixOk(w: World, f: Prefix) {
    BlocksOk(w, f.meta, f.blocks) && |f.blocks| == NumBlocks(f.meta.tokenCount)
  }

  /** Every cache but `c`, and every prefix, is well formed. */
  ghost predicate OthersOk(w: World, c: Name) {
    && (forall d :: d in w.caches && d != c ==> CacheOk(w, w.caches[d]))
    && (forall p :: p in w.prefixes ==> PrefixOk(w, w.prefixes[p]))
  }

  ghost predicate Inv(w: World) {
    && (forall d :: d in w.caches ==> CacheOk(w, w.caches[d]))
    && (forall p :: p in w.prefixes ==> PrefixOk(w, w.prefixes[p]))
  }

  // ---------------------------------------------------------------- writing

  /** The storage a write of block `i` of cache `c` goes to: a fresh one when the old one is shared. */
  function WriteTarget(w: World, c: Name, i: nat): (s: Sid)
    requires Live(w, InCache(c, i))
  {
    var s := w.caches[c].blocks[i].storage;
    if IsShared(w, s) then w.nextSid else s
  }

  /** Puts block `b` with storage contents `cell` at index `i` of cache `c`. */
  function SetBlock(w: World, c: Name, i: nat, b: Block, cell: seq<Token>): (w': World)
    requires Live(w, InCache(c, i))
  {
    var k := w.caches[c];
    w.(cells := w.cells[b.storage := cell],
       caches := w.caches[c := k.(blocks := k.blocks[i := b])],
       nextId := if b.id == w.nextId then w.nextId + 1 else w.nextId,
       nextSid := w.nextSid + 1)
  }

  /** Writes one token of a block: fork the id unless this handle is known to be the only one, copy
      the storage if it has another holder, then write. */
  function WriteBlock(w: World, c: Name, i: nat, j: nat, t: Token, count: nat): (w': World)
    requires Live(w, InCache(c, i))
    requires var s := w.caches[c].blocks[i].storage; s in w.cells && j < |w.cells[s]|
  {
    var b := w.caches[c].blocks[i];
    var id := if b.shared || IsShared(w, b.storage) then w.nextId else b.id;
    var b' := b.(id := id, shared := false, revision := b.revision + 1, tokenCount := count,
                 storage := WriteTarget(w, c, i));
    SetBlock(w, c, i, b', w.cells[b.storage][j := t])
  }

  /** Clears a block. Shared storage is replaced, and the block is marked: its id is still in use elsewhere. */
  function ClearBlock(w: World, c: Name, i: nat): (w': World)
    requires Live(w, InCache(c, i))
    requires w.caches[c].blocks[i].storage in w.cells
  {
    var b := w.caches[c].blocks[i];
    var zero := Token(Zeros(w.caches[c].meta.vectorLen), Zeros(w.caches[c].meta.vectorLen));
    var b' := b.(shared := IsShared(w, b.storage), revision := b.revision + 1, tokenCount := 0,
                 storage := WriteTarget(w, c, i));
    SetBlock(w, c, i, b', seq(|w.cells[b.storage]|, _ => zero))
  }

  function SetStages(w: World, c: Name, keys: seq<Vec>, values: seq<Vec>): (w': World)
    requires c in w.caches
  {
    var k := w.caches[c];
    var ks := if |KeyStageHolders(w, k.keyStage)| > 1 then w.nextSid else k.keyStage;
    var vs := if |ValueStageHolders(w, k.valueStage)| > 1 then w.nextSid else k.valueStage;
    w.(keyStages := w.keyStages[ks := keys], valueStages := w.valueStages[vs := values],
       caches := w.caches[c := k.(keyStage := ks, valueStage := vs)], nextSid := w.nextSid + 1)
  }

  function SetMeta(w: World, c: Name, m: Meta): (w': World)
    requires c in w.caches
  {
    w.(caches := w.caches[c := w.caches[c].(meta := m)])
  }

  // ---------------------------------------------------------------- frames

  /** The cells behind these handles are the same in both worlds. */
  ghost predicate SameCells(w: World, w': World, blocks: seq<Block>) {
    forall i :: 0 <= i < |blocks| ==> SameCell(w, w', blocks[i])
  }

  ghost predicate SameCell(w: World, w': World, b: Block) {
    b.storage in w.cells ==> b.storage in w'.cells && w'.cells[b.storage] == w.cells[b.storage]
  }

  ghost predicate SameStages(w: World, w': World, k: Cache) {
    && (k.keyStage in w.keyStages ==> k.keyStage in w'.keyStages && w'.keyStages[k.keyStage] == w.keyStages[k.keyStage])
    && (k.valueStage in w.valueStages ==>
          k.valueStage in w'.valueStages && w'.valueStages[k.valueStage] == w.valueStages[k.valueStage])
  }

  /** A change to cache `c` that no other cache and no prefix can see. */
  ghost predicate OnlyChanges(w: World, w': World, c: Name) {
    && (forall d :: d != c ==> (d in w'.caches <==> d in w.caches)) && w'.prefixes == w.prefixes
    && w.nextId <= w'.nextId && w.nextSid <= w'.nextSid
    && (forall d :: d in w.caches && d != c ==>
          && w'.caches[d] == w.caches[d]
          && SameCells(w, w', w.caches[d].blocks) && SameStages(w, w', w.caches[d]))
    && (forall p :: p in w.prefixes ==> SameCells(w, w', w.prefixes[p].blocks))
  }

  lemma BlocksFrame(w: World, w': World, m: Meta, blocks: seq<Block>)
    requires BlocksOk(w, m, blocks) && SameCells(w, w', blocks)
    requires w.nextId <= w'.nextId && w.nextSid <= w'.nextSid
    ensures BlocksOk(w', m, blocks) && Slots(w', m, blocks) == Slots(w, m, blocks)
  {
    forall i | 0 <= i < |blocks| ensures BlockOk(w', m, i, blocks[i]) {
      assert BlockOk(w, m, i, blocks[i]);
    }
  }

  lemma OthersFrame(w: World, w': World, c: Name)
    requires OthersOk(w, c) && OnlyChanges(w, w', c)
    ensures OthersOk(w', c)
    ensures forall d :: d in w.caches && d != c ==>
              View(w', w.caches[d].meta, w.caches[d].blocks) == View(w, w.caches[d].meta, w.caches[d].blocks)
    ensures forall p :: p in w.prefixes ==>
              View(w', w.prefixes[p].meta, w.prefixes[p].blocks) == View(w, w.prefixes[p].meta, w.prefixes[p].blocks)
  {
    forall d | d in w.caches && d != c
      ensures CacheOk(w', w.caches[d])
      ensures View(w', w.caches[d].meta, w.caches[d].blocks) == View(w, w.caches[d].meta, w.caches[d].blocks)
    {
      BlocksFrame(w, w', w.caches[d].meta, w.caches[d].blocks);
    }
    forall p | p in w.prefixes
      ensures PrefixOk(w', w.prefixes[p])
      ensures View(w', w.prefixes[p].meta, w.prefixes[p].blocks) == View(w, w.prefixes[p].meta, w.prefixes[p].blocks)
    {
      BlocksFrame(w, w', w.prefixes[p].meta, w.prefixes[p].blocks);
    }
  }

  /** Storage ids not yet given out are not in use. */
  ghost predicate StorageBelowNext(w: World) {
    forall h :: Live(w, h) ==> At(w, h).storage < w.nextSid
  }

  ghost predicate StagesBelowNext(w: World) {
    forall d :: d in w.caches ==> w.caches[d].keyStage < w.nextSid && w.caches[d].valueStage < w.nextSid
  }

  /** No other handle refers to the storage a write goes to. */
  lemma WriteTargetIsPrivate(w: World, c: Name, i: nat, h: Holder)
    requires Live(w, InCache(c, i)) && StorageBelowNext(w)
    requires Live(w, h) && h != InCache(c, i)
    ensures At(w, h).storage != WriteTarget(w, c, i)
  {
    var s := w.caches[c].blocks[i].storage;
    if At(w, h).storage == s {
      TwoMembers(Holders(w, s), h, InCache(c, i));
    }
  }

  /** No other handle of a cache or of a prefix is on storage `s`. */
  ghost predicate Private(w: World, c: Name, i: nat, s: Sid) {
    && (forall d, j :: d in w.caches && 0 <= j < |w.caches[d].blocks| && !(d == c && j == i) ==>
        w.caches[d].blocks[j].storage != s)
    && (forall p, j :: p in w.prefixes && 0 <= j < |w.prefixes[p].blocks| ==> w.prefixes[p].blocks[j].storage != s)
  }

  lemma TargetIsPrivate(w: World, c: Name, i: nat)
    requires Live(w, InCache(c, i)) && StorageBelowNext(w)
    ensures Private(w, c, i, WriteTarget(w, c, i))
  {
    hide WriteTarget, StorageBelowNext;
    forall d, j | d in w.caches && 0 <= j < |w.caches[d].blocks| && !(d == c && j == i)
      ensures w.caches[d].blocks[j].storage != WriteTarget(w, c, i)
    {
      WriteTargetIsPrivate(w, c, i, InCache(d, j));
    }
    forall p, j | p in w.prefixes && 0 <= j < |w.prefixes[p].blocks|
      ensures w.prefixes[p].blocks[j].storage != WriteTarget(w, c, i)
    {
      WriteTargetIsPrivate(w, c, i, InPrefix(p, j));
    }
  }

  /** Writing to fresh storage, or to storage with a single holder, is invisible to every other handle. */
  lemma SetBlockFrame(w: World, c: Name, i: nat, b: Block, cell: seq<Token>)
    requires Live(w, InCache(c, i)) && StorageBelowNext(w)
    requires b.storage == WriteTarget(w, c, i)
    ensures OnlyChanges(w, SetBlock(w, c, i, b, cell), c)
    ensures forall j :: 0 <= j < |w.caches[c].blocks| && j != i ==> w.caches[c].blocks[j].storage != b.storage
  {
    hide WriteTarget, StorageBelowNext;
    TargetIsPrivate(w, c, i);
    var w' := SetBlock(w, c, i, b, cell);
    forall d | d in w.caches && d != c ensures SameCells(w, w', w.caches[d].blocks) {
      assert forall j :: 0 <= j < |w.caches[d].blocks| ==> w.caches[d].blocks[j].storage != b.storage;
    }
    forall p | p in w.prefixes ensures SameCells(w, w', w.prefixes[p].blocks) {
      assert forall j :: 0 <= j < |w.prefixes[p].blocks| ==> w.prefixes[p].blocks[j].storage != b.storage;
    }
    hide Private;
  }

  lemma SetStagesFrame(w: World, c: Name, keys: seq<Vec>, values: seq<Vec>)
    requires c in w.caches && StagesBelowNext(w)
    ensures OnlyChanges(w, SetStages(w, c, keys, values), c)
  {
    var k := w.caches[c];
    var w' := SetStages(w, c, keys, values);
    forall d | d in w.caches && d != c ensures SameStages(w, w', w.caches[d]) {
      if w.caches[d].keyStage == k.keyStage {
        TwoMembers(KeyStageHolders(w, k.keyStage), c, d);
      }
      if w.caches[d].valueStage == k.valueStage {
        TwoMembers(ValueStageHolders(w, k.valueStage), c, d);
      }
    }
  }

  lemma OnlyChangesTrans(w0: World, w1: World, w2: World, c: Name)
    requires OnlyChanges(w0, w1, c) && OnlyChanges(w1, w2, c)
    ensures OnlyChanges(w0, w2, c)
  {
  }

  // ---------------------------------------------------------------- the operations

  datatype Op =
    | New(c: Name, max: nat, vectorLen: nat, compressed: bool)
    | Call(c: Name, call: CacheOp)
    | Clone(src: Name, dst: Name)
    | Capture(c: Name, p: Name)
    | Restore(p: Name, c: Name)
    | DropCache(c: Name)
    | DropPrefix(p: Name)

  /** Writes token `t` at physical slot `p`, in the block and in both stages, then the counters. */
  function PutToken(w: World, c: Name, p: nat, j: nat, count: nat, t: Token, m: Meta): (w': World)
    requires c in w.caches && CacheOk(w, w.caches[c])
    requires p < w.caches[c].meta.max && j < Capacity(w.caches[c].meta.max, p / BLOCK)
  {
    var k := w.caches[c];
    assert BlockOk(w, k.meta, p / BLOCK, k.blocks[p / BLOCK]);
    var w1 := WriteBlock(w, c, p / BLOCK, j, t, count);
    var w2 := SetStages(w1, c, w.keyStages[k.keyStage][p := t.key], w.valueStages[k.valueStage][p := t.value]);
    SetMeta(w2, c, m)
  }

  function AppendAtEnd(w: World, c: Name, t: Token): (w': World)
    requires c in w.caches && CacheOk(w, w.caches[c])
    requires w.caches[c].meta.tokenCount < w.caches[c].meta.max
  {
    var m := w.caches[c].meta;
    var n := m.tokenCount;
    var b := w.caches[c].blocks[n / BLOCK];
    assert BlockOk(w, m, n / BLOCK, b);
    PutToken(w, c, n, b.tokenCount, b.tokenCount + 1, t,
             m.(tokenCount := n + 1, tokensSeen := m.tokensSeen + 1, revision := m.revision + 1))
  }

  function Overwrite(w: World, c: Name, t: Token): (w': World)
    requires c in w.caches && CacheOk(w, w.caches[c])
    requires w.caches[c].meta.tokenCount == w.caches[c].meta.max
  {
    var m := w.caches[c].meta;
    var b := w.caches[c].blocks[m.windowStart / BLOCK];
    PutToken(w, c, m.windowStart, m.windowStart % BLOCK, b.tokenCount, t,
             m.(windowStart := (m.windowStart + 1) % m.max, tokensSeen := m.tokensSeen + 1, revision := m.revision + 1))
  }

  /** In cache `c`, block `i` now holds `cell` and `count` tokens, and the other blocks are as before. */
  ghost predicate BlockReplaced(w: World, w': World, k: Cache, blocks: seq<Block>, i: nat, cell: seq<Token>,
                                count: nat) {
    && |blocks| == |k.blocks| && i < |blocks|
    && (forall l :: 0 <= l < |blocks| && l != i ==> blocks[l] == k.blocks[l] && SameCell(w, w', k.blocks[l]))
    && blocks[i].capacity == k.blocks[i].capacity && blocks[i].tokenCount == count
    && blocks[i].revision == k.blocks[i].revision + 1
    && blocks[i].storage in w'.cells && w'.cells[blocks[i].storage] == cell
    && blocks[i].storage < w'.nextSid && blocks[i].id < w'.nextId
  }

  lemma SetBlockOk(w: World, c: Name, i: nat, b: Block, cell: seq<Token>)
    requires StorageBelowNext(w) && Live(w, InCache(c, i))
    requires b.storage == WriteTarget(w, c, i) && b.id <= w.nextId && b.capacity == w.caches[c].blocks[i].capacity
    requires b.revision == w.caches[c].blocks[i].revision + 1
    ensures var w' := SetBlock(w, c, i, b, cell);
            OnlyChanges(w, w', c) && BlockReplaced(w, w', w.caches[c], w'.caches[c].blocks, i, cell, b.tokenCount)
  {
    SetBlockFrame(w, c, i, b, cell);
    assert At(w, InCache(c, i)).storage < w.nextSid;
  }

  /** What a token write does to the blocks of its own cache. */
  lemma TokenWritten(w: World, w': World, k: Cache, blocks: seq<Block>, p: nat, t: Token, m: Meta)
    requires CacheOk(w, k) && MetaOk(m) && w.nextId <= w'.nextId && w.nextSid <= w'.nextSid
    requires p < k.meta.max == m.max
    requires if p < k.meta.tokenCount then m.tokenCount == k.meta.tokenCount
             else p == k.meta.tokenCount && m.tokenCount == k.meta.tokenCount + 1
    requires p / BLOCK < |k.blocks| && k.blocks[p / BLOCK].storage in w.cells &&
      p % BLOCK < |w.cells[k.blocks[p / BLOCK].storage]|
    requires BlockReplaced(w, w', k, blocks, p / BLOCK, w.cells[k.blocks[p / BLOCK].storage][p % BLOCK := t],
                           Fill(m.tokenCount, p / BLOCK))
    ensures BlocksOk(w', m, blocks)
    ensures Slots(w', m, blocks) ==
            if p < k.meta.tokenCount then Slots(w, k.meta, k.blocks)[p := t] else Slots(w, k.meta, k.blocks) + [t]
  {
    hide StagesOk;
    var i := p / BLOCK;
    var cell := w.cells[k.blocks[i].storage][p % BLOCK := t];
    forall l | 0 <= l < |blocks|
      ensures BlockOk(w', m, l, blocks[l])
      ensures l != i ==> w'.cells[blocks[l].storage] == w.cells[k.blocks[l].storage]
    {
      assert BlockOk(w, k.meta, l, k.blocks[l]);
      assert l != i ==> SameCell(w, w', k.blocks[l]);
    }
  }

  lemma WriteBlockOk(w: World, c: Name, i: nat, j: nat, t: Token, count: nat)
    requires StorageBelowNext(w) && Live(w, InCache(c, i)) && w.caches[c].blocks[i].id < w.nextId
    requires var s := w.caches[c].blocks[i].storage; s in w.cells && j < |w.cells[s]|
    ensures var w' := WriteBlock(w, c, i, j, t, count);
            var s := w.caches[c].blocks[i].storage;
            && OnlyChanges(w, w', c) && c in w'.caches && w'.caches[c] == w.caches[c].(blocks := w'.caches[c].blocks)
            && BlockReplaced(w, w', w.caches[c], w'.caches[c].blocks, i, w.cells[s][j := t], count)
  {
    var w' := WriteBlock(w, c, i, j, t, count);
    SetBlockOk(w, c, i, w'.caches[c].blocks[i], w.cells[w.caches[c].blocks[i].storage][j := t]);
  }

  lemma SetStagesOk(w: World, w1: World, c: Name, keys: seq<Vec>, values: seq<Vec>, m: Meta)
    requires c in w.caches && StagesBelowNext(w)
    requires OnlyChanges(w, w1, c) && c in w1.caches && w1.caches[c] == w.caches[c].(blocks := w1.caches[c].blocks)
    ensures var w2 := SetMeta(SetStages(w1, c, keys, values), c, m);
            OnlyChanges(w, w2, c) && w2.cells == w1.cells && c in w2.caches &&
              w2.caches[c].blocks == w1.caches[c].blocks
  {
    var w2 := SetStages(w1, c, keys, values);
    StagesStayBelow(w, w1, c);
    SetStagesFrame(w1, c, keys, values);
    assert w2.cells == w1.cells && c in w2.caches && w2.caches[c].blocks == w1.caches[c].blocks;
    hide OnlyChanges, SetStages, StagesBelowNext;
    OnlyChangesTrans(w, w1, w2, c);
    SetMetaFrame(w, w2, c, m);
  }

  lemma StagesStayBelow(w: World, w1: World, c: Name)
    requires c in w.caches && StagesBelowNext(w)
    requires OnlyChanges(w, w1, c) && c in w1.caches && w1.caches[c] == w.caches[c].(blocks := w1.caches[c].blocks)
    ensures StagesBelowNext(w1)
  {
    hide SameCells, SameStages;
  }

  lemma SetMetaFrame(w: World, w2: World, c: Name, m: Meta)
    requires OnlyChanges(w, w2, c) && c in w2.caches
    ensures OnlyChanges(w, SetMeta(w2, c, m), c)
  {
    var w' := SetMeta(w2, c, m);
    forall d | d in w.caches && d != c ensures SameCells(w, w', w.caches[d].blocks) && SameStages(w, w', w.caches[d]) {
      assert SameCells(w, w2, w.caches[d].blocks);
      assert forall i :: 0 <= i < |w.caches[d].blocks| ==> SameCell(w, w2, w.caches[d].blocks[i]);
    }
    forall p | p in w.prefixes ensures SameCells(w, w', w.prefixes[p].blocks) {
      assert forall i :: 0 <= i < |w.prefixes[p].blocks| ==> SameCell(w, w2, w.prefixes[p].blocks[i]);
    }
  }

  lemma PutTokenFrame(w: World, c: Name, p: nat, j: nat, count: nat, t: Token, m: Meta)
    requires StorageBelowNext(w) && StagesBelowNext(w) && c in w.caches && CacheOk(w, w.caches[c])
    requires p < w.caches[c].meta.max && j < Capacity(w.caches[c].meta.max, p / BLOCK)
    ensures var k := w.caches[c];
            var i := p / BLOCK;
            var w' := PutToken(w, c, p, j, count, t, m);
            && OnlyChanges(w, w', c) && c in w'.caches && w'.caches[c].meta == m
            && i < |k.blocks| && k.blocks[i].storage in w.cells && j < |w.cells[k.blocks[i].storage]|
            && BlockReplaced(w, w', k, w'.caches[c].blocks, i, w.cells[k.blocks[i].storage][j := t], count)
  {
    var k := w.caches[c];
    var i := p / BLOCK;
    assert BlockOk(w, k.meta, i, k.blocks[i]);
    WriteBlockOk(w, c, i, j, t, count);
    SetStagesOk(w, WriteBlock(w, c, i, j, t, count), c,
                w.keyStages[k.keyStage][p := t.key], w.valueStages[k.valueStage][p := t.value], m);
  }

  /** The effect of a token write on the cache itself. */
  lemma PutTokenOk(w: World, c: Name, p: nat, j: nat, count: nat, t: Token, m: Meta)
    requires StorageBelowNext(w) && StagesBelowNext(w) && c in w.caches && CacheOk(w, w.caches[c]) && MetaOk(m)
    requires var m0 := w.caches[c].meta;
             && p < m0.max == m.max && j == p % BLOCK && count == Fill(m.tokenCount, p / BLOCK)
             && (if p < m0.tokenCount then m.tokenCount == m0.tokenCount
                 else p == m0.tokenCount && m.tokenCount == m0.tokenCount + 1)
    ensures var k := w.caches[c];
            var w' := PutToken(w, c, p, j, count, t, m);
            && OnlyChanges(w, w', c) && c in w'.caches && CacheOk(w', w'.caches[c]) && w'.caches[c].meta == m
            && Slots(w', m, w'.caches[c].blocks) ==
               if p < k.meta.tokenCount then Slots(w, k.meta, k.blocks)[p := t] else Slots(w, k.meta, k.blocks) + [t]
  {
    hide OnlyChanges, StorageBelowNext, StagesBelowNext, Slots, BlockReplaced;
    var k := w.caches[c];
    PutTokenFrame(w, c, p, j, count, t, m);
    PutTokenStages(w, c, p, j, count, t, m);
    var w' := PutToken(w, c, p, j, count, t, m);
    hide PutToken;
    var k' := w'.caches[c];
    OnlyGrows(w, w', c);
    TokenWritten(w, w', k, k'.blocks, p, t, m);
    StagesFollow(w, w', k, k', p, t);
  }

  lemma OnlyGrows(w: World, w': World, c: Name)
    requires OnlyChanges(w, w', c)
    ensures w.nextId <= w'.nextId && w.nextSid <= w'.nextSid
  {
  }

  lemma PutTokenStages(w: World, c: Name, p: nat, j: nat, count: nat, t: Token, m: Meta)
    requires StagesBelowNext(w) && c in w.caches && CacheOk(w, w.caches[c])
    requires p < w.caches[c].meta.max && j < Capacity(w.caches[c].meta.max, p / BLOCK)
    ensures var k := w.caches[c];
            var w' := PutToken(w, c, p, j, count, t, m);
            && c in w'.caches
            && var k' := w'.caches[c];
               && k'.keyStage in w'.keyStages && k'.valueStage in w'.valueStages
               && k'.keyStage < w'.nextSid && k'.valueStage < w'.nextSid && |k'.blocks| == |k.blocks|
               && w'.keyStages[k'.keyStage] == w.keyStages[k.keyStage][p := t.key]
               && w'.valueStages[k'.valueStage] == w.valueStages[k.valueStage][p := t.value]
  {
    hide BlocksOk, Slots, KeyStageHolders, ValueStageHolders, IsShared;
  }

  /** Stages written where the slots were written hold the slots again. */
  lemma StagesFollow(w: World, w': World, k: Cache, k': Cache, p: nat, t: Token)
    requires CacheOk(w, k) && BlocksOk(w', k'.meta, k'.blocks) && p < k.meta.max == k'.meta.max &&
      p <= k.meta.tokenCount
    requires k'.keyStage in w'.keyStages && k'.valueStage in w'.valueStages
    requires k'.keyStage < w'.nextSid && k'.valueStage < w'.nextSid
    requires w'.keyStages[k'.keyStage] == w.keyStages[k.keyStage][p := t.key]
    requires w'.valueStages[k'.valueStage] == w.valueStages[k.valueStage][p := t.value]
    requires Slots(w', k'.meta, k'.blocks) ==
             if p < k.meta.tokenCount then Slots(w, k.meta, k.blocks)[p := t] else Slots(w, k.meta, k.blocks) + [t]
    ensures StagesOk(w', k')
  {
    hide Slots, BlockOk;
  }

  lemma HandlesAreBelowNext(w: World)
    requires Inv(w)
    ensures StorageBelowNext(w) && StagesBelowNext(w)
  {
    forall h | Live(w, h) ensures At(w, h).storage < w.nextSid {
      match h {
        case InCache(d, j) => assert BlockOk(w, w.caches[d].meta, j, w.caches[d].blocks[j]);
        case InPrefix(p, j) => assert BlockOk(w, w.prefixes[p].meta, j, w.prefixes[p].blocks[j]);
      }
    }
    forall d | d in w.caches ensures w.caches[d].keyStage < w.nextSid && w.caches[d].valueStage < w.nextSid {
      assert CacheOk(w, w.caches[d]);
    }
  }

  // ---------------------------------------------------------------- clear

  ghost predicate Allocated(w: World, b: Block) {
    b.storage in w.cells && |w.cells[b.storage]| == b.capacity && b.storage < w.nextSid && b.id < w.nextId
  }

  ghost predicate AllAllocated(w: World, blocks: seq<Block>) {
    forall i :: 0 <= i < |blocks| ==> Allocated(w, blocks[i])
  }

  function ClearBlocks(w: World, c: Name, i: nat): (w': World)
    requires c in w.caches && i <= |w.caches[c].blocks| && AllAllocated(w, w.caches[c].blocks)
    decreases |w.caches[c].blocks| - i
  {
    if i == |w.caches[c].blocks| then w
    else
      StillAllocated(w, c, i);
      ClearBlocks(ClearBlock(w, c, i), c, i + 1)
  }

  lemma StillAllocated(w: World, c: Name, i: nat)
    requires c in w.caches && i < |w.caches[c].blocks| && AllAllocated(w, w.caches[c].blocks)
    ensures Live(w, InCache(c, i)) && w.caches[c].blocks[i].storage in w.cells
    ensures var w1 := ClearBlock(w, c, i);
            && c in w1.caches && |w1.caches[c].blocks| == |w.caches[c].blocks| && AllAllocated(w1, w1.caches[c].blocks)
  {
    hide IsShared;
    assert forall j :: 0 <= j < |w.caches[c].blocks| ==> Allocated(w, w.caches[c].blocks[j]);
  }

  lemma ClearBlocksStep(w: World, c: Name, i: nat)
    requires c in w.caches && i < |w.caches[c].blocks| && AllAllocated(w, w.caches[c].blocks)
    ensures Live(w, InCache(c, i)) && w.caches[c].blocks[i].storage in w.cells
    ensures var w1 := ClearBlock(w, c, i);
            && c in w1.caches && i + 1 <= |w1.caches[c].blocks| && AllAllocated(w1, w1.caches[c].blocks)
            && ClearBlocks(w, c, i) == ClearBlocks(w1, c, i + 1)
  {
    StillAllocated(w, c, i);
    hide ClearBlock, AllAllocated;
  }

  /** Same blocks, in order, as to index `from`, and from there on emptied. */
  ghost predicate Emptied(before: seq<Block>, after: seq<Block>, from: nat) {
    && |after| == |before|
    && (forall j :: 0 <= j < |before| && j < from ==> after[j] == before[j])
    && (forall j :: from <= j < |before| ==>
          && after[j].id == before[j].id && after[j].capacity == before[j].capacity && after[j].tokenCount == 0
          && after[j].revision == before[j].revision + 1)
  }

  ghost predicate EmptiedAt(before: seq<Block>, after: seq<Block>, i: nat) {
    && i < |before| == |after| && after == before[i := after[i]]
    && after[i].id == before[i].id && after[i].capacity == before[i].capacity && after[i].tokenCount == 0
    && after[i].revision == before[i].revision + 1
  }

  lemma EmptiedTrans(b0: seq<Block>, b1: seq<Block>, b2: seq<Block>, i: nat)
    requires EmptiedAt(b0, b1, i) && Emptied(b1, b2, i + 1)
    ensures Emptied(b0, b2, i)
  {
    assert forall j :: 0 <= j < |b0| && j != i ==> b1[j] == b0[j];
  }

  lemma ClearBlockOk(w: World, c: Name, i: nat)
    requires c in w.caches && i < |w.caches[c].blocks|
    requires StorageBelowNext(w) && AllAllocated(w, w.caches[c].blocks)
    ensures var w' := ClearBlock(w, c, i);
            && OnlyChanges(w, w', c) && c in w'.caches && w'.caches[c] == w.caches[c].(blocks := w'.caches[c].blocks)
            && StorageBelowNext(w') && AllAllocated(w', w'.caches[c].blocks)
            && EmptiedAt(w.caches[c].blocks, w'.caches[c].blocks, i)
  {
    hide OnlyChanges;
    var blocks := w.caches[c].blocks;
    assert Allocated(w, blocks[i]);
    var w' := ClearBlock(w, c, i);
    var b := w'.caches[c].blocks[i];
    SetBlockOk(w, c, i, b, w'.cells[b.storage]);
    StorageStaysBelow(w, c, i, b, w'.cells[b.storage]);
    hide StorageBelowNext, IsShared;
    forall j | 0 <= j < |blocks| ensures Allocated(w', w'.caches[c].blocks[j]) {
      assert Allocated(w, blocks[j]);
    }
  }

  lemma StorageStaysBelow(w: World, c: Name, i: nat, b: Block, cell: seq<Token>)
    requires StorageBelowNext(w) && Live(w, InCache(c, i)) && b.storage <= w.nextSid
    ensures StorageBelowNext(SetBlock(w, c, i, b, cell))
  {
    var w' := SetBlock(w, c, i, b, cell);
    forall h | Live(w', h) ensures At(w', h).storage < w'.nextSid {
      assert Live(w, h) && At(w, h).storage < w.nextSid;
    }
  }

  lemma {:induction false} ClearBlocksOk(w: World, c: Name, i: nat)
    requires c in w.caches && i <= |w.caches[c].blocks|
    requires StorageBelowNext(w) && AllAllocated(w, w.caches[c].blocks)
    ensures var w' := ClearBlocks(w, c, i);
            && OnlyChanges(w, w', c) && c in w'.caches && w'.caches[c] == w.caches[c].(blocks := w'.caches[c].blocks)
            && AllAllocated(w', w'.caches[c].blocks) && Emptied(w.caches[c].blocks, w'.caches[c].blocks, i)
    decreases |w.caches[c].blocks| - i
  {
    hide OnlyChanges, StorageBelowNext, Emptied, EmptiedAt;
    if i < |w.caches[c].blocks| {
      ClearBlockOk(w, c, i);
      var w1 := ClearBlock(w, c, i);
      hide ClearBlock;
      EmptiedSize(w.caches[c].blocks, w1.caches[c].blocks, i);
      ClearBlocksOk(w1, c, i + 1);
      var w' := ClearBlocks(w1, c, i + 1);
      OnlyChangesTrans(w, w1, w', c);
      EmptiedTrans(w.caches[c].blocks, w1.caches[c].blocks, w'.caches[c].blocks, i);
    } else {
      NothingEmptied(w, c);
    }
  }

  lemma EmptiedSize(before: seq<Block>, after: seq<Block>, i: nat)
    requires EmptiedAt(before, after, i)
    ensures |after| == |before|
  {
  }

  lemma NothingEmptied(w: World, c: Name)
    requires c in w.caches
    ensures OnlyChanges(w, w, c) && Emptied(w.caches[c].blocks, w.caches[c].blocks, |w.caches[c].blocks|)
  {
  }

  function ClearedMeta(m: Meta): Meta {
    m.(tokenCount := 0, tokensSeen := 0, windowStart := 0, revision := m.revision + 1)
  }

  function ClearCache(w: World, c: Name): (w': World)
    requires c in w.caches && AllAllocated(w, w.caches[c].blocks)
  {
    var m := w.caches[c].meta;
    var w1 := ClearBlocks(w, c, 0);
    if c in w1.caches then
      var blank := seq(m.max, _ => Zeros(m.vectorLen));
      SetMeta(SetStages(w1, c, blank, blank), c, ClearedMeta(m))
    else w1
  }

  lemma ClearCacheOk(w: World, c: Name)
    requires StorageBelowNext(w) && StagesBelowNext(w) && c in w.caches && CacheOk(w, w.caches[c])
    ensures AllAllocated(w, w.caches[c].blocks)
    ensures var w' := ClearCache(w, c);
            && OnlyChanges(w, w', c) && c in w'.caches && CacheOk(w', w'.caches[c])
            && w'.caches[c].meta == ClearedMeta(w.caches[c].meta)
  {
    hide OnlyChanges, StorageBelowNext, StagesBelowNext, ClearBlocks, Slots;
    var k := w.caches[c];
    BlocksAreAllocated(w, k);
    ClearBlocksOk(w, c, 0);
    var w1 := ClearBlocks(w, c, 0);
    var blank := seq(k.meta.max, _ => Zeros(k.meta.vectorLen));
    SetStagesOk(w, w1, c, blank, blank, ClearedMeta(k.meta));
    var w' := ClearCache(w, c);
    OnlyGrows(w, w1, c);
    ClearedStages(w1, c, k.meta, blank);
    hide SetStages, SetMeta;
    ClearedBlocksOk(w, w1, w', k, w'.caches[c].blocks);
  }

  lemma ClearedBlocksOk(w: World, w1: World, w': World, k: Cache, blocks: seq<Block>)
    requires CacheOk(w, k) && AllAllocated(w1, blocks) && Emptied(k.blocks, blocks, 0)
    requires w'.cells == w1.cells && w'.nextId >= w1.nextId && w'.nextSid >= w1.nextSid
    ensures BlocksOk(w', ClearedMeta(k.meta), blocks)
  {
    hide StagesOk, Slots;
    forall i | 0 <= i < |blocks| ensures BlockOk(w', ClearedMeta(k.meta), i, blocks[i]) {
      assert BlockOk(w, k.meta, i, k.blocks[i]);
      assert Allocated(w1, blocks[i]);
    }
  }

  lemma BlocksAreAllocated(w: World, k: Cache)
    requires CacheOk(w, k)
    ensures AllAllocated(w, k.blocks)
  {
    hide StagesOk;
    forall i | 0 <= i < |k.blocks| ensures Allocated(w, k.blocks[i]) {
      assert BlockOk(w, k.meta, i, k.blocks[i]);
    }
  }

  lemma ClearedStages(w1: World, c: Name, m: Meta, blank: seq<Vec>)
    requires c in w1.caches && |blank| == m.max
    requires w1.caches[c].keyStage <= w1.nextSid && w1.caches[c].valueStage <= w1.nextSid
    ensures var w' := SetMeta(SetStages(w1, c, blank, blank), c, ClearedMeta(m));
            && c in w'.caches && w'.caches[c].meta == ClearedMeta(m) && w'.cells == w1.cells
            && w'.nextId == w1.nextId && w'.nextSid >= w1.nextSid && w'.caches[c].blocks == w1.caches[c].blocks
            && var k' := w'.caches[c];
               && k'.keyStage in w'.keyStages && |w'.keyStages[k'.keyStage]| == m.max
               && k'.valueStage in w'.valueStages && |w'.valueStages[k'.valueStage]| == m.max
               && k'.keyStage < w'.nextSid && k'.valueStage < w'.nextSid
  {
    hide KeyStageHolders, ValueStageHolders;
  }

  // ---------------------------------------------------------------- new, clone, capture, restore

  function BlankCell(first: Sid, s: Sid, max: nat, zero: Token): seq<Token>
    requires first <= s
  {
    seq(Capacity(max, s - first), _ => zero)
  }

  /** A new empty cache in fresh storage, under the name `c`. */
  function AddNew(w: World, c: Name, max: nat, vectorLen: nat, compressed: bool): (w': World)
    requires max > 0
  {
    var n := NumBlocks(max);
    var zero := Token(Zeros(vectorLen), Zeros(vectorLen));
    var blank := seq(max, _ => Zeros(vectorLen));
    var added := map s | w.nextSid <= s < w.nextSid + n :: BlankCell(w.nextSid, s, max, zero);
    var blocks := seq(n, i requires 0 <= i => Block(w.nextId + i, 0, false, Capacity(max, i), 0, w.nextSid + i));
    w.(cells := w.cells + added,
       keyStages := w.keyStages[w.nextSid := blank], valueStages := w.valueStages[w.nextSid := blank],
       caches := w.caches[c := Cache(Meta(max, vectorLen, compressed, 0, 0, 0, 0), blocks, w.nextSid, w.nextSid)],
       nextId := w.nextId + n, nextSid := w.nextSid + n + 1)
  }

  lemma AddNewFrame(w: World, c: Name, max: nat, vectorLen: nat, compressed: bool)
    requires StorageBelowNext(w) && StagesBelowNext(w) && max > 0
    ensures OnlyChanges(w, AddNew(w, c, max, vectorLen, compressed), c)
  {
    var w' := AddNew(w, c, max, vectorLen, compressed);
    forall d, j | d in w.caches && d != c &&
      0 <= j < |w.caches[d].blocks| ensures SameCell(w, w', w.caches[d].blocks[j]) {
      assert Live(w, InCache(d, j)) && At(w, InCache(d, j)) == w.caches[d].blocks[j];
    }
    forall p, j | p in w.prefixes && 0 <= j < |w.prefixes[p].blocks| ensures SameCell(w, w', w.prefixes[p].blocks[j]) {
      assert Live(w, InPrefix(p, j)) && At(w, InPrefix(p, j)) == w.prefixes[p].blocks[j];
    }
  }

  lemma AddNewOk(w: World, c: Name, max: nat, vectorLen: nat, compressed: bool)
    requires StorageBelowNext(w) && StagesBelowNext(w) && max > 0 && vectorLen > 0
    ensures var w' := AddNew(w, c, max, vectorLen, compressed);
            && OnlyChanges(w, w', c) && c in w'.caches && CacheOk(w', w'.caches[c])
            && w'.caches[c].meta == Meta(max, vectorLen, compressed, 0, 0, 0, 0)
  {
    hide OnlyChanges, StorageBelowNext, StagesBelowNext;
    AddNewFrame(w, c, max, vectorLen, compressed);
  }

  function CloneCache(w: World, src: Name, dst: Name): (w': World)
    requires src in w.caches
  {
    var k := w.caches[src];
    var blocks := seq(|k.blocks|, i requires 0 <= i < |k.blocks| => k.blocks[i].(shared := true));
    w.(caches := w.caches[dst := k.(blocks := blocks)])
  }

  function CapturePrefix(w: World, c: Name, p: Name): (w': World)
    requires c in w.caches && NumBlocks(w.caches[c].meta.tokenCount) <= |w.caches[c].blocks|
  {
    var k := w.caches[c];
    w.(prefixes := w.prefixes[p := Prefix(k.meta, k.blocks[..NumBlocks(k.meta.tokenCount)])])
  }

  /** The checks a restore makes before it builds anything. */
  predicate RestoreRefused(m: Meta) {
    m.max == 0 || m.vectorLen == 0 || m.tokenCount > m.max || m.tokensSeen < m.tokenCount || m.windowStart >= m.max
  }

  /** The restored cache shares the retained blocks; its other blocks and its stages are fresh. */
  ghost function RestorePrefix(w: World, p: Name, c: Name): (w': World)
    requires p in w.prefixes && PrefixOk(w, w.prefixes[p])
  {
    var f := w.prefixes[p];
    var m := f.meta;
    var w1 := AddNew(w, c, m.max, m.vectorLen, m.compressed);
    var k := w1.caches[c];
    var blocks := seq(|k.blocks|, i requires 0 <= i < |k.blocks| =>
      if i < |f.blocks| then f.blocks[i].(shared := true) else k.blocks[i]);
    var slots := Slots(w, m, f.blocks);
    var keys := seq(m.max, q requires 0 <= q => if q < |slots| then slots[q].key else Zeros(m.vectorLen));
    var values := seq(m.max, q requires 0 <= q => if q < |slots| then slots[q].value else Zeros(m.vectorLen));
    w1.(caches := w1.caches[c := k.(meta := m, blocks := blocks)],
        keyStages := w1.keyStages[k.keyStage := keys], valueStages := w1.valueStages[k.valueStage := values])
  }

  lemma RestoredBlock(w: World, p: Name, c: Name, i: nat)
    requires StorageBelowNext(w) && StagesBelowNext(w) && p in w.prefixes && PrefixOk(w, w.prefixes[p])
    requires i < NumBlocks(w.prefixes[p].meta.max)
    ensures var f := w.prefixes[p];
            var w' := RestorePrefix(w, p, c);
            && c in w'.caches && |w'.caches[c].blocks| == NumBlocks(f.meta.max)
            && BlockOk(w', f.meta, i, w'.caches[c].blocks[i])
            && (i < |f.blocks| ==> w'.cells[w'.caches[c].blocks[i].storage] == w.cells[f.blocks[i].storage])
  {
    hide StorageBelowNext, StagesBelowNext, Slots, StagesOk;
    var f := w.prefixes[p];
    var m := f.meta;
    AddNewOk(w, c, m.max, m.vectorLen, m.compressed);
    var w1 := AddNew(w, c, m.max, m.vectorLen, m.compressed);
    if i < |f.blocks| {
      assert BlockOk(w, m, i, f.blocks[i]) && SameCell(w, w1, f.blocks[i]);
    } else {
      assert BlockOk(w1, w1.caches[c].meta, i, w1.caches[c].blocks[i]);
    }
  }

  lemma RestoredBlocksOk(w: World, p: Name, c: Name)
    requires StorageBelowNext(w) && StagesBelowNext(w) && p in w.prefixes && PrefixOk(w, w.prefixes[p])
    ensures var f := w.prefixes[p];
            var w' := RestorePrefix(w, p, c);
            && c in w'.caches && BlocksOk(w', f.meta, w'.caches[c].blocks)
            && Slots(w', f.meta, w'.caches[c].blocks) == Slots(w, f.meta, f.blocks)
  {
    hide StorageBelowNext, StagesBelowNext, RestorePrefix, StagesOk;
    var f := w.prefixes[p];
    var w' := RestorePrefix(w, p, c);
    forall i: nat | i < NumBlocks(f.meta.max)
      ensures c in w'.caches && |w'.caches[c].blocks| == NumBlocks(f.meta.max) &&
        BlockOk(w', f.meta, i, w'.caches[c].blocks[i])
      ensures i < |f.blocks| ==> w'.cells[w'.caches[c].blocks[i].storage] == w.cells[f.blocks[i].storage]
    {
      RestoredBlock(w, p, c, i);
    }
    RestoredBlock(w, p, c, 0);
  }

  lemma RestoreFrame(w: World, p: Name, c: Name)
    requires StorageBelowNext(w) && StagesBelowNext(w) && p in w.prefixes && PrefixOk(w, w.prefixes[p])
    ensures OnlyChanges(w, RestorePrefix(w, p, c), c)
  {
    var m := w.prefixes[p].meta;
    AddNewOk(w, c, m.max, m.vectorLen, m.compressed);
    var w1 := AddNew(w, c, m.max, m.vectorLen, m.compressed);
    var w' := RestorePrefix(w, p, c);
    forall d | d in w.caches && d != c ensures SameStages(w, w', w.caches[d]) && SameCells(w, w', w.caches[d].blocks) {
      assert SameStages(w, w1, w.caches[d]) && SameCells(w, w1, w.caches[d].blocks);
      assert w.caches[d].keyStage < w.nextSid && w.caches[d].valueStage < w.nextSid;
    }
    forall q | q in w.prefixes ensures SameCells(w, w', w.prefixes[q].blocks) {
      assert SameCells(w, w1, w.prefixes[q].blocks);
    }
  }

  lemma RestorePrefixOk(w: World, p: Name, c: Name)
    requires StorageBelowNext(w) && StagesBelowNext(w) && p in w.prefixes && PrefixOk(w, w.prefixes[p])
    ensures var f := w.prefixes[p];
            var w' := RestorePrefix(w, p, c);
            && OnlyChanges(w, w', c) && c in w'.caches && CacheOk(w', w'.caches[c])
            && w'.caches[c].meta == f.meta && Slots(w', f.meta, w'.caches[c].blocks) == Slots(w, f.meta, f.blocks)
  {
    RestoreFrame(w, p, c);
    RestoredBlocksOk(w, p, c);
  }

  // ---------------------------------------------------------------- one step, and what it shows

  ghost function CallCache(w: World, c: Name, call: CacheOp): (r: (World, Outcome<nat>))
    requires c in w.caches && CacheOk(w, w.caches[c])
  {
    var m := w.caches[c].meta;
    match call
    case OpAppend(t) =>
      var check := Reject(m.vectorLen, m.compressed, t);
      if check.Err? then (w, Err(check.error))
      else if m.tokenCount == m.max then (w, Err(CapacityExceeded(1, 0)))
      else (AppendAtEnd(w, c, t), Ok(m.tokenCount))
    case OpSliding(t) =>
      var check := Reject(m.vectorLen, m.compressed, t);
      if check.Err? then (w, Err(check.error))
      else if m.tokenCount < m.max then (AppendAtEnd(w, c, t), Ok(m.tokenCount))
      else (Overwrite(w, c, t), Ok(m.max - 1))
    case OpClear =>
      if AllAllocated(w, w.caches[c].blocks) then (ClearCache(w, c), Ok(0)) else (w, Err(InvalidShape))
  }

  ghost function Step(w: World, op: Op): (r: (World, Outcome<nat>))
    requires Inv(w)
  {
    match op
    case New(c, max, vectorLen, compressed) =>
      if max == 0 || vectorLen == 0 then (w, Err(InvalidShape)) else (AddNew(w, c, max, vectorLen, compressed), Ok(0))
    case Call(c, call) => if c in w.caches then CallCache(w, c, call) else (w, Err(InvalidShape))
    case Clone(src, dst) => if src in w.caches then (CloneCache(w, src, dst), Ok(0)) else (w, Err(InvalidShape))
    case Capture(c, p) =>
      if c in w.caches && CacheOk(w, w.caches[c]) then (CapturePrefix(w, c, p), Ok(0)) else (w, Err(InvalidShape))
    case Restore(p, c) =>
      if p !in w.prefixes || RestoreRefused(w.prefixes[p].meta) then (w, Err(InvalidShape))
      else (RestorePrefix(w, p, c), Ok(0))
    case DropCache(c) => (w.(caches := w.caches - {c}), Ok(0))
    case DropPrefix(p) => (w.(prefixes := w.prefixes - {p}), Ok(0))
  }

  /** What callers can see: a window per cache and a window per captured prefix. */
  datatype Shown = Shown(caches: map<Name, Window>, prefixes: map<Name, Window>)

  ghost function Abstract(w: World): (a: Shown)
    requires Inv(w)
  {
    Shown(map c | c in w.caches :: View(w, w.caches[c].meta, w.caches[c].blocks),
          map p | p in w.prefixes :: View(w, w.prefixes[p].meta, w.prefixes[p].blocks))
  }

  /** The same step when nothing is shared: windows are values. */
  function SpecStep(a: Shown, op: Op): (r: (Shown, Outcome<nat>)) {
    match op
    case New(c, max, vectorLen, compressed) =>
      if max == 0 || vectorLen == 0 then (a, Err(InvalidShape))
      else (a.(caches := a.caches[c := Empty(max, vectorLen, compressed)]), Ok(0))
    case Call(c, call) =>
      if c !in a.caches then (a, Err(InvalidShape))
      else var (v, r) := Apply(a.caches[c], call); (a.(caches := a.caches[c := v]), r)
    case Clone(src, dst) =>
      if src in a.caches then (a.(caches := a.caches[dst := a.caches[src]]), Ok(0)) else (a, Err(InvalidShape))
    case Capture(c, p) =>
      if c in a.caches then (a.(prefixes := a.prefixes[p := a.caches[c]]), Ok(0)) else (a, Err(InvalidShape))
    case Restore(p, c) =>
      if p in a.prefixes then (a.(caches := a.caches[c := a.prefixes[p]]), Ok(0)) else (a, Err(InvalidShape))
    case DropCache(c) => (a.(caches := a.caches - {c}), Ok(0))
    case DropPrefix(p) => (a.(prefixes := a.prefixes - {p}), Ok(0))
  }

  lemma CacheChanged(w: World, w': World, c: Name)
    requires Inv(w) && OnlyChanges(w, w', c) && c in w'.caches && CacheOk(w', w'.caches[c])
    ensures Inv(w')
    ensures Abstract(w') ==
            Abstract(w).(caches := Abstract(w).caches[c := View(w', w'.caches[c].meta, w'.caches[c].blocks)])
  {
    hide BlocksOk, StagesOk, View;
    OthersFrame(w, w', c);
    assert Inv(w');
    assert Abstract(w').prefixes == Abstract(w).prefixes;
    assert Abstract(w').caches == Abstract(w).caches[c := View(w', w'.caches[c].meta, w'.caches[c].blocks)];
  }

  lemma OneCacheOk(w: World, c: Name)
    requires Inv(w) && c in w.caches
    ensures CacheOk(w, w.caches[c]) && StorageBelowNext(w) && StagesBelowNext(w)
  {
    hide BlocksOk;
    HandlesAreBelowNext(w);
  }

  /** What cache `k` shows in world `w`. */
  ghost function Shows(w: World, k: Cache): Window
    requires CacheOk(w, k)
  {
    View(w, k.meta, k.blocks)
  }

  /** A change to cache `c` alone, after which it shows `v`. */
  ghost predicate NowShows(w: World, w': World, c: Name, v: Window) {
    OnlyChanges(w, w', c) && c in w'.caches && CacheOk(w', w'.caches[c]) && Shows(w', w'.caches[c]) == v
  }

  lemma AppendIsPut(w: World, c: Name, t: Token)
    requires c in w.caches && CacheOk(w, w.caches[c])
    requires w.caches[c].meta.tokenCount < w.caches[c].meta.max
    ensures var m := w.caches[c].meta;
            var n := m.tokenCount;
            && n % BLOCK < Capacity(m.max, n / BLOCK)
            && AppendAtEnd(w, c, t) ==
               PutToken(w, c, n, n % BLOCK, Fill(n + 1, n / BLOCK), t,
                        m.(tokenCount := n + 1, tokensSeen := m.tokensSeen + 1, revision := m.revision + 1))
  {
    hide StagesOk, PutToken;
    var n := w.caches[c].meta.tokenCount;
    assert BlockOk(w, w.caches[c].meta, n / BLOCK, w.caches[c].blocks[n / BLOCK]);
  }

  lemma AppendShows(w: World, c: Name, t: Token)
    requires StorageBelowNext(w) && StagesBelowNext(w) && c in w.caches && CacheOk(w, w.caches[c])
    requires w.caches[c].meta.tokenCount < w.caches[c].meta.max
    ensures NowShows(w, AppendAtEnd(w, c, t), c, Push(Shows(w, w.caches[c]), t))
  {
    hide OnlyChanges, StorageBelowNext, StagesBelowNext, StagesOk, BlockOk, AppendAtEnd, PutToken, Slots;
    var m := w.caches[c].meta;
    var n := m.tokenCount;
    AppendIsPut(w, c, t);
    PutTokenOk(w, c, n, n % BLOCK, Fill(n + 1, n / BLOCK), t,
               m.(tokenCount := n + 1, tokensSeen := m.tokensSeen + 1, revision := m.revision + 1));
  }

  lemma OverwriteIsPut(w: World, c: Name, t: Token)
    requires c in w.caches && CacheOk(w, w.caches[c])
    requires w.caches[c].meta.tokenCount == w.caches[c].meta.max
    ensures var m := w.caches[c].meta;
            var s := m.windowStart;
            && s % BLOCK < Capacity(m.max, s / BLOCK)
            && Overwrite(w, c, t) ==
               PutToken(w, c, s, s % BLOCK, Fill(m.tokenCount, s / BLOCK), t,
                        m.(windowStart := (s + 1) % m.max, tokensSeen := m.tokensSeen + 1, revision := m.revision + 1))
  {
    hide StagesOk, PutToken;
    var s := w.caches[c].meta.windowStart;
    assert BlockOk(w, w.caches[c].meta, s / BLOCK, w.caches[c].blocks[s / BLOCK]);
  }

  lemma OverwriteShows(w: World, c: Name, t: Token)
    requires StorageBelowNext(w) && StagesBelowNext(w) && c in w.caches && CacheOk(w, w.caches[c])
    requires w.caches[c].meta.tokenCount == w.caches[c].meta.max
    ensures var v := Shows(w, w.caches[c]);
            v.rows != [] && NowShows(w, Overwrite(w, c, t), c, Push(v.(rows := v.rows[1..]), t))
  {
    hide OnlyChanges, StorageBelowNext, StagesBelowNext, StagesOk, BlockOk, Overwrite, PutToken, Slots, Rotate;
    var k := w.caches[c];
    var m := k.meta;
    var s := m.windowStart;
    OverwriteIsPut(w, c, t);
    PutTokenOk(w, c, s, s % BLOCK, Fill(m.tokenCount, s / BLOCK), t,
               m.(windowStart := (s + 1) % m.max, tokensSeen := m.tokensSeen + 1, revision := m.revision + 1));
    RotateOverwrite(Slots(w, m, k.blocks), s, t);
  }

  lemma ClearShows(w: World, c: Name)
    requires StorageBelowNext(w) && StagesBelowNext(w) && c in w.caches && CacheOk(w, w.caches[c])
    ensures AllAllocated(w, w.caches[c].blocks)
    ensures NowShows(w, ClearCache(w, c), c, Clear(Shows(w, w.caches[c])))
  {
    hide OnlyChanges, StorageBelowNext, StagesBelowNext, StagesOk;
    ClearCacheOk(w, c);
  }

  /** A call on a cache does to its window what the specification says, with the same result, and
      nothing to any other. */
  lemma CallShows(w: World, c: Name, call: CacheOp)
    requires StorageBelowNext(w) && StagesBelowNext(w) && c in w.caches && CacheOk(w, w.caches[c])
    ensures var (w', r) := CallCache(w, c, call);
            var (v, q) := Apply(Shows(w, w.caches[c]), call);
            r == q && if w' == w then v == Shows(w, w.caches[c]) else NowShows(w, w', c, v)
  {
    hide OnlyChanges, StorageBelowNext, StagesBelowNext, StagesOk, AllAllocated, AppendAtEnd, Overwrite, ClearCache;
    hide Slots;
    var m := w.caches[c].meta;
    match call {
      case OpAppend(t) =>
        if m.tokenCount < m.max { AppendShows(w, c, t); }
      case OpSliding(t) =>
        if m.tokenCount < m.max { AppendShows(w, c, t); } else { OverwriteShows(w, c, t); }
      case OpClear =>
        ClearShows(w, c);
    }
  }

  lemma CallRefines(w: World, c: Name, call: CacheOp)
    requires Inv(w) && c in w.caches
    ensures var (w', r) := CallCache(w, c, call);
            && Inv(w') && (Abstract(w'), r) == SpecStep(Abstract(w), Call(c, call))
  {
    hide BlocksOk, StagesOk, View, CallCache, OnlyChanges, StorageBelowNext, StagesBelowNext, Apply;
    OneCacheOk(w, c);
    CallShows(w, c, call);
    var a := Abstract(w);
    assert a.caches[c] == Shows(w, w.caches[c]);
    assert a.caches[c := a.caches[c]] == a.caches;
    var w' := CallCache(w, c, call).0;
    if w' != w { CacheChanged(w, w', c); }
  }

  lemma CloneShows(w: World, src: Name, dst: Name)
    requires src in w.caches && CacheOk(w, w.caches[src])
    ensures NowShows(w, CloneCache(w, src, dst), dst, Shows(w, w.caches[src]))
  {
    var k := w.caches[src];
    var w' := CloneCache(w, src, dst);
    var blocks := w'.caches[dst].blocks;
    forall i | 0 <= i < |blocks| ensures BlockOk(w', k.meta, i, blocks[i]) {
      assert BlockOk(w, k.meta, i, k.blocks[i]);
    }
    assert Slots(w', k.meta, blocks) == Slots(w, k.meta, k.blocks);
  }

  lemma NewShows(w: World, c: Name, max: nat, vectorLen: nat, compressed: bool)
    requires StorageBelowNext(w) && StagesBelowNext(w) && max > 0 && vectorLen > 0
    ensures NowShows(w, AddNew(w, c, max, vectorLen, compressed), c, Empty(max, vectorLen, compressed))
  {
    hide OnlyChanges, StagesOk, AddNew, StorageBelowNext, StagesBelowNext;
    AddNewOk(w, c, max, vectorLen, compressed);
  }

  lemma RestoreShows(w: World, p: Name, c: Name)
    requires StorageBelowNext(w) && StagesBelowNext(w) && p in w.prefixes && PrefixOk(w, w.prefixes[p])
    ensures NowShows(w, RestorePrefix(w, p, c), c, View(w, w.prefixes[p].meta, w.prefixes[p].blocks))
  {
    hide OnlyChanges, StagesOk, RestorePrefix, StorageBelowNext, StagesBelowNext, BlockOk;
    RestorePrefixOk(w, p, c);
  }

  lemma AssignRefines(w: World, w': World, c: Name, v: Window)
    requires Inv(w) && NowShows(w, w', c, v)
    ensures Inv(w') && Abstract(w') == Abstract(w).(caches := Abstract(w).caches[c := v])
  {
    hide BlocksOk, StagesOk, View, OnlyChanges;
    CacheChanged(w, w', c);
  }

  /** Well-formedness and the view of a handle depend on the heap only. */
  lemma SameHeap(w: World, w': World, m: Meta, blocks: seq<Block>)
    requires w'.cells == w.cells && w'.nextId == w.nextId && w'.nextSid == w.nextSid && BlocksOk(w, m, blocks)
    ensures BlocksOk(w', m, blocks) && View(w', m, blocks) == View(w, m, blocks)
  {
    assert SameCells(w, w', blocks);
    BlocksFrame(w, w', m, blocks);
  }

  /** Removing or adding handles changes nothing that the remaining handles show. */
  lemma HandlesChanged(w: World, w': World)
    requires Inv(w)
    requires w' == w.(caches := w'.caches, prefixes := w'.prefixes)
    requires forall c :: c in w'.caches ==> c in w.caches && w'.caches[c] == w.caches[c]
    requires forall p :: p in w'.prefixes ==> PrefixOk(w, w'.prefixes[p])
    ensures Inv(w')
    ensures forall c :: c in w'.caches ==> Abstract(w').caches[c] == Abstract(w).caches[c]
    ensures forall p :: p in w'.prefixes ==>
              Abstract(w').prefixes[p] == View(w, w'.prefixes[p].meta, w'.prefixes[p].blocks)
  {
    hide BlocksOk, View, Slots;
    forall c | c in w'.caches
      ensures CacheOk(w', w'.caches[c])
      ensures View(w', w'.caches[c].meta, w'.caches[c].blocks) == View(w, w.caches[c].meta, w.caches[c].blocks)
    {
      CacheSameHeap(w, w', w.caches[c]);
    }
    forall p | p in w'.prefixes
      ensures PrefixOk(w', w'.prefixes[p])
      ensures View(w', w'.prefixes[p].meta, w'.prefixes[p].blocks) ==
        View(w, w'.prefixes[p].meta, w'.prefixes[p].blocks)
    {
      SameHeap(w, w', w'.prefixes[p].meta, w'.prefixes[p].blocks);
    }
  }

  lemma CacheSameHeap(w: World, w': World, k: Cache)
    requires w' == w.(caches := w'.caches, prefixes := w'.prefixes) && CacheOk(w, k)
    ensures CacheOk(w', k) && View(w', k.meta, k.blocks) == View(w, k.meta, k.blocks)
  {
    SameHeap(w, w', k.meta, k.blocks);
    assert Slots(w', k.meta, k.blocks) == Slots(w, k.meta, k.blocks);
  }

  lemma CaptureShows(w: World, c: Name)
    requires c in w.caches && CacheOk(w, w.caches[c])
    ensures NumBlocks(w.caches[c].meta.tokenCount) <= |w.caches[c].blocks|
    ensures var f := CapturePrefix(w, c, 0).prefixes[0];
            PrefixOk(w, f) && View(w, f.meta, f.blocks) == Shows(w, w.caches[c])
  {
    var k := w.caches[c];
    var f := CapturePrefix(w, c, 0).prefixes[0];
    forall i | 0 <= i < |f.blocks| ensures BlockOk(w, f.meta, i, f.blocks[i]) {
      assert BlockOk(w, k.meta, i, k.blocks[i]);
    }
    assert Slots(w, f.meta, f.blocks) == Slots(w, k.meta, k.blocks);
  }

  lemma ShownInAbstract(w: World, c: Name)
    requires Inv(w) && c in w.caches
    ensures CacheOk(w, w.caches[c]) && c in Abstract(w).caches && Abstract(w).caches[c] == Shows(w, w.caches[c])
  {
    hide BlocksOk, StagesOk, View;
  }

  lemma CaptureRefines(w: World, c: Name, p: Name)
    requires Inv(w) && c in w.caches && CacheOk(w, w.caches[c])
    ensures var w' := CapturePrefix(w, c, p);
            Inv(w') && Abstract(w') == SpecStep(Abstract(w), Capture(c, p)).0
  {
    hide BlocksOk, StagesOk, View, CacheOk, PrefixOk, Inv, Shows;
    CaptureShows(w, c);
    KeptPrefixesOk(w);
    ShownInAbstract(w, c);
    var w' := CapturePrefix(w, c, p);
    HandlesChanged(w, w');
    assert Abstract(w').caches == Abstract(w).caches;
    assert Abstract(w').prefixes == Abstract(w).prefixes[p := Abstract(w).caches[c]];
  }

  lemma DropRefines(w: World, op: Op)
    requires Inv(w) && (op.DropCache? || op.DropPrefix?)
    ensures Inv(Step(w, op).0) && Abstract(Step(w, op).0) == SpecStep(Abstract(w), op).0
  {
    hide Inv, Abstract;
    if op.DropCache? {
      DropCacheRefines(w, op.c);
    } else {
      DropPrefixRefines(w, op.p);
    }
  }

  lemma DropCacheRefines(w: World, c: Name)
    requires Inv(w)
    ensures var w' := w.(caches := w.caches - {c});
            Inv(w') && Abstract(w') == Abstract(w).(caches := Abstract(w).caches - {c})
  {
    hide BlocksOk, StagesOk, View, CacheOk, PrefixOk, Inv;
    var w' := w.(caches := w.caches - {c});
    KeptPrefixesOk(w);
    HandlesChanged(w, w');
    assert Abstract(w').caches == Abstract(w).caches - {c};
    assert Abstract(w').prefixes == Abstract(w).prefixes;
  }

  lemma DropPrefixRefines(w: World, p: Name)
    requires Inv(w)
    ensures var w' := w.(prefixes := w.prefixes - {p});
            Inv(w') && Abstract(w') == Abstract(w).(prefixes := Abstract(w).prefixes - {p})
  {
    hide BlocksOk, StagesOk, View, CacheOk, PrefixOk, Inv;
    var w' := w.(prefixes := w.prefixes - {p});
    KeptPrefixesOk(w);
    HandlesChanged(w, w');
    assert Abstract(w').caches == Abstract(w).caches;
    assert Abstract(w').prefixes == Abstract(w).prefixes - {p};
  }

  lemma KeptPrefixesOk(w: World)
    requires Inv(w)
    ensures forall p :: p in w.prefixes ==> PrefixOk(w, w.prefixes[p])
  {
  }

  /** Sharing is invisible: every step keeps the invariant, and what every cache and every prefix shows
      changes exactly as if each had private storage, with the same result. */
  lemma StepRefines(w: World, op: Op)
    requires Inv(w)
    ensures Inv(Step(w, op).0)
    ensures (Abstract(Step(w, op).0), Step(w, op).1) == SpecStep(Abstract(w), op)
  {
    hide BlocksOk, StagesOk, View, OnlyChanges, CallCache, AddNew, CloneCache, CapturePrefix, RestorePrefix;
    match op {
      case New(c, max, vectorLen, compressed) =>
        if max > 0 && vectorLen > 0 {
          HandlesAreBelowNext(w);
          NewShows(w, c, max, vectorLen, compressed);
          AssignRefines(w, AddNew(w, c, max, vectorLen, compressed), c, Empty(max, vectorLen, compressed));
        }
      case Call(c, call) =>
        if c in w.caches { CallRefines(w, c, call); }
      case Clone(src, dst) =>
        if src in w.caches {
          CloneShows(w, src, dst);
          AssignRefines(w, CloneCache(w, src, dst), dst, Shows(w, w.caches[src]));
        }
      case Capture(c, p) =>
        if c in w.caches { CaptureRefines(w, c, p); }
      case Restore(p, c) =>
        if p in w.prefixes {
          HandlesAreBelowNext(w);
          NeverRefused(w, p);
          RestoreShows(w, p, c);
          AssignRefines(w, RestorePrefix(w, p, c), c, View(w, w.prefixes[p].meta, w.prefixes[p].blocks));
        }
      case DropCache(_) => DropRefines(w, op);
      case DropPrefix(_) => DropRefines(w, op);
    }
  }

  lemma NeverRefused(w: World, p: Name)
    requires p in w.prefixes && PrefixOk(w, w.prefixes[p])
    ensures !RestoreRefused(w.prefixes[p].meta)
  {
  }

  // ---------------------------------------------------------------- whole runs

  const Start: World := World(map[], map[], map[], map[], map[], 1, 0)

  ghost function RunFrom(w: World, ops: seq<Op>): (w': World)
    requires Inv(w)
    ensures Inv(w')
    decreases |ops|
  {
    if ops == [] then w else StepRefines(w, ops[0]); RunFrom(Step(w, ops[0]).0, ops[1..])
  }

  function SpecRunFrom(a: Shown, ops: seq<Op>): (a': Shown)
    decreases |ops|
  {
    if ops == [] then a else SpecRunFrom(SpecStep(a, ops[0]).0, ops[1..])
  }

  /** Every interleaving of calls on any number of caches and prefixes shows exactly what independent
      values would. */
  lemma {:induction false} RunRefines(w: World, ops: seq<Op>)
    requires Inv(w)
    ensures Abstract(RunFrom(w, ops)) == SpecRunFrom(Abstract(w), ops)
    decreases |ops|
  {
    hide Inv, Abstract, Step, SpecStep;
    if ops != [] {
      StepRefines(w, ops[0]);
      RunRefines(Step(w, ops[0]).0, ops[1..]);
    }
  }

  /** The operations that give cache `c`, or prefix `p`, a new value. */
  predicate Assigns(op: Op, c: Name) {
    match op
    case New(d, _, _, _) => c == d
    case Call(d, _) => c == d
    case Clone(_, d) => c == d
    case Restore(_, d) => c == d
    case DropCache(d) => c == d
    case _ => false
  }

  predicate AssignsPrefix(op: Op, p: Name) {
    (op.Capture? || op.DropPrefix?) && op.p == p
  }

  lemma {:induction false} SpecKeepsCache(a: Shown, ops: seq<Op>, c: Name)
    requires c in a.caches && forall i :: 0 <= i < |ops| ==> !Assigns(ops[i], c)
    ensures c in SpecRunFrom(a, ops).caches && SpecRunFrom(a, ops).caches[c] == a.caches[c]
    decreases |ops|
  {
    if ops != [] {
      hide Apply;
      assert !Assigns(ops[0], c);
      SpecKeepsCache(SpecStep(a, ops[0]).0, ops[1..], c);
    }
  }

  lemma {:induction false} SpecKeepsPrefix(a: Shown, ops: seq<Op>, p: Name)
    requires p in a.prefixes && forall i :: 0 <= i < |ops| ==> !AssignsPrefix(ops[i], p)
    ensures p in SpecRunFrom(a, ops).prefixes && SpecRunFrom(a, ops).prefixes[p] == a.prefixes[p]
    decreases |ops|
  {
    if ops != [] {
      hide Apply;
      assert !AssignsPrefix(ops[0], p);
      SpecKeepsPrefix(SpecStep(a, ops[0]).0, ops[1..], p);
    }
  }

  lemma SameNames(w: World)
    requires Inv(w)
    ensures Abstract(w).caches.Keys == w.caches.Keys && Abstract(w).prefixes.Keys == w.prefixes.Keys
  {
    hide BlocksOk, StagesOk, View;
  }

  /** Whatever is done to the other caches and to the prefixes, a cache keeps showing the same window. */
  lemma CacheIsIsolated(w: World, ops: seq<Op>, c: Name)
    requires Inv(w) && c in w.caches
    requires forall i :: 0 <= i < |ops| ==> !Assigns(ops[i], c)
    ensures c in RunFrom(w, ops).caches
    ensures c in Abstract(w).caches && c in Abstract(RunFrom(w, ops)).caches
    ensures Abstract(RunFrom(w, ops)).caches[c] == Abstract(w).caches[c]
  {
    hide Inv, Abstract, RunFrom, SpecRunFrom, Assigns;
    SameNames(w);
    SameNames(RunFrom(w, ops));
    RunRefines(w, ops);
    SpecKeepsCache(Abstract(w), ops, c);
  }

  lemma PrefixIsIsolated(w: World, ops: seq<Op>, p: Name)
    requires Inv(w) && p in w.prefixes
    requires forall i :: 0 <= i < |ops| ==> !AssignsPrefix(ops[i], p)
    ensures p in RunFrom(w, ops).prefixes
    ensures p in Abstract(w).prefixes && p in Abstract(RunFrom(w, ops)).prefixes
    ensures Abstract(RunFrom(w, ops)).prefixes[p] == Abstract(w).prefixes[p]
  {
    hide Inv, Abstract, RunFrom, SpecRunFrom, AssignsPrefix;
    SameNames(w);
    SameNames(RunFrom(w, ops));
    RunRefines(w, ops);
    SpecKeepsPrefix(Abstract(w), ops, p);
  }

  /** Restoring a captured prefix always succeeds and yields exactly the window at capture, whatever was
      done in between: to the source, to its clones, and to other caches restored from the same prefix. */
  lemma RestoreYieldsCapture(w: World, c: Name, p: Name, ops: seq<Op>, d: Name)
    requires Inv(w) && c in w.caches
    requires forall i :: 0 <= i < |ops| ==> !AssignsPrefix(ops[i], p)
    ensures Inv(Step(w, Capture(c, p)).0)
    ensures var w1 := RunFrom(Step(w, Capture(c, p)).0, ops);
            var (w2, r) := Step(w1, Restore(p, d));
            && r == Ok(0) && Inv(w2) && d in w2.caches && d in Abstract(w2).caches && c in Abstract(w).caches
            && Abstract(w2).caches[d] == Abstract(w).caches[c]
  {
    hide Inv, Abstract, Step, RunFrom, AssignsPrefix;
    SameNames(w);
    StepRefines(w, Capture(c, p));
    var w0 := Step(w, Capture(c, p)).0;
    SameNames(w0);
    PrefixIsIsolated(w0, ops, p);
    var w1 := RunFrom(w0, ops);
    StepRefines(w1, Restore(p, d));
    SameNames(Step(w1, Restore(p, d)).0);
  }

  /** Both ways to read row `i` of a cache, through the blocks and through the stages, give row `i` of its window. */
  lemma ReadsAgree(w: World, c: Name, i: nat)
    requires Inv(w) && c in w.caches && i < w.caches[c].meta.tokenCount
    ensures var k := w.caches[c];
            var q := (k.meta.windowStart + i) % k.meta.max;
            && q / BLOCK < |k.blocks| && k.blocks[q / BLOCK].storage in w.cells
            && q % BLOCK < k.blocks[q / BLOCK].tokenCount <= |w.cells[k.blocks[q / BLOCK].storage]|
            && k.keyStage in w.keyStages && k.valueStage in w.valueStages
            && q < |w.keyStages[k.keyStage]| == |w.valueStages[k.valueStage]|
            && w.cells[k.blocks[q / BLOCK].storage][q % BLOCK] == Abstract(w).caches[c].rows[i]
            && Token(w.keyStages[k.keyStage][q], w.valueStages[k.valueStage][q]) == Abstract(w).caches[c].rows[i]
  {
    hide BlocksOk, StagesOk, View, Inv;
    OneCacheOk(w, c);
    ReadRow(w, w.caches[c], i);
  }

  lemma ReadRow(w: World, k: Cache, i: nat)
    requires CacheOk(w, k) && i < k.meta.tokenCount
    ensures var q := (k.meta.windowStart + i) % k.meta.max;
            && q / BLOCK < |k.blocks| && k.blocks[q / BLOCK].storage in w.cells
            && q % BLOCK < k.blocks[q / BLOCK].tokenCount <= |w.cells[k.blocks[q / BLOCK].storage]|
            && k.keyStage in w.keyStages && k.valueStage in w.valueStages
            && q < |w.keyStages[k.keyStage]| == |w.valueStages[k.valueStage]|
            && w.cells[k.blocks[q / BLOCK].storage][q % BLOCK] == Shows(w, k).rows[i]
            && Token(w.keyStages[k.keyStage][q], w.valueStages[k.valueStage][q]) == Shows(w, k).rows[i]
  {
    var q := (k.meta.windowStart + i) % k.meta.max;
    RowIsSlot(w, k, i);
    hide BlockOk, Shows;
    SlotRead(w, k, q);
  }

  lemma RowIsSlot(w: World, k: Cache, i: nat)
    requires CacheOk(w, k) && i < k.meta.tokenCount
    ensures var q := (k.meta.windowStart + i) % k.meta.max;
            q < k.meta.tokenCount && Slots(w, k.meta, k.blocks)[q] == Shows(w, k).rows[i]
  {
    hide Slots, StagesOk;
    WrapOnce(k.meta.windowStart + i, k.meta.max);
  }

  lemma SlotRead(w: World, k: Cache, q: nat)
    requires CacheOk(w, k) && q < k.meta.tokenCount
    ensures q / BLOCK < |k.blocks| && k.blocks[q / BLOCK].storage in w.cells
    ensures q % BLOCK < k.blocks[q / BLOCK].tokenCount <= |w.cells[k.blocks[q / BLOCK].storage]|
    ensures w.cells[k.blocks[q / BLOCK].storage][q % BLOCK] == Slots(w, k.meta, k.blocks)[q]
  {
    hide StagesOk;
    assert BlockOk(w, k.meta, q / BLOCK, k.blocks[q / BLOCK]);
  }
}
