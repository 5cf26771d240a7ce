/** Prefix states of a layer cache: the active blocks retained as they are, and a cache rebuilt from them. */
module LayerPrefix {
  import opened Common
  import opened TokenWindow
  import opened Geometry
  import opened Rows
  import opened BlockRuns
  import opened BitPacking
  import opened Quantize
  import opened LayerState
  import opened Layer

  /** A retained block, the index it belongs at, and its vector length. */
  datatype PrefixBlock = PrefixBlock(blockIndex: nat, retained: CacheBlock, vectorLen: nat)

  /** A captured prefix: retained blocks with the index each belongs at, in window order. */
  datatype PrefixState = PrefixState(revision: nat, format: Format, maxTokens: nat, heads: nat, headDim: nat,
                                     tokenCount: nat, tokensSeen: nat, windowStart: nat, blocks: seq<PrefixBlock>)

  /** The entries are blocks of the cache at their own index: exactly those in use, each once. */
  ghost predicate Retains(entries: seq<PrefixBlock>, blocks: seq<CacheBlock>, n: nat, len: nat) {
    && EntriesOf(entries, blocks, len)
    && (forall i :: 0 <= i < |blocks| ==> (HasEntry(entries, i) <==> Fill(n, i) > 0))
  }

  ghost predicate EntriesOf(entries: seq<PrefixBlock>, blocks: seq<CacheBlock>, len: nat) {
    && (forall e :: 0 <= e < |entries| ==> entries[e].blockIndex < |blocks|)
    && (forall e :: 0 <= e < |entries| ==>
        entries[e] == PrefixBlock(entries[e].blockIndex, blocks[entries[e].blockIndex], len))
    && (forall e, f :: 0 <= e < f < |entries| ==> entries[e].blockIndex != entries[f].blockIndex)
  }

  ghost predicate HasEntry(entries: seq<PrefixBlock>, i: nat) {
    exists e :: 0 <= e < |entries| && entries[e].blockIndex == i
  }

  /** Every logical index lies in a run. */
  lemma {:induction false} RunOf(runs: seq<BlockRun>, n: nat, l: nat, from: nat) returns (k: nat)
    requires Partitions(runs, n) && l < n && from < |runs| && runs[from].logicalStart <= l
    ensures k < |runs| && runs[k].logicalStart <= l < runs[k].logicalStart + runs[k].count
    decreases |runs| - from
  {
    if l < runs[from].logicalStart + runs[from].count {
      k := from;
    } else {
      k := RunOf(runs, n, l, from + 1);
    }
  }

  /** Every block in use has a run. */
  lemma BlockHasRun(table: seq<nat>, start: nat, n: nat, max: nat, i: nat) returns (k: nat)
    requires |table| == NumBlocks(max) && start < max && n <= max && (n < max ==> start == 0) && Fill(n, i) > 0
    ensures k < |Rebuilt(table, start, n, max)| && Rebuilt(table, start, n, max)[k].blockIndex == i
  {
    hide Rebuilt, Slot;
    var runs := Rebuilt(table, start, n, max);
    RebuiltCovers(table, start, n, max);
    var p := i * BLOCK;
    var l := if p >= start then p - start else p + max - start;
    SlotWraps(start, l, max);
    k := RunOf(runs, n, l, 0);
    assert Locates(runs[k], table, start, max, l - runs[k].logicalStart);
  }

  method PrefixCacheState(c: LayerKvCache) returns (state: PrefixState)
    requires c.Valid()
    ensures state ==
      PrefixState(c.revision, c.format, c.maxTokens, c.heads, c.headDim, c.tokenCount, c.tokensSeen, c.windowStart,
                  state.blocks)
    ensures Retains(state.blocks, c.blocks, c.tokenCount, c.VectorLen())
  {
    hide StagesOk, StoresOk, ViewOk, Slots, Rebuilt, BlocksFit, HasEntry;
    var seen: set<nat> := {};
    var entries: seq<PrefixBlock> := [];
    FitsTable(c.blocks, c.blockTable, c.tokenCount, c.maxTokens, c.VectorLen());
    TableMatches(c.blocks, c.blockTable, c.tokenCount, c.maxTokens, c.VectorLen());
    NoEntries();
    for k := 0 to |c.runs|
      invariant EntriesOf(entries, c.blocks, c.VectorLen())
      invariant forall i :: 0 <= i < |c.blocks| ==> (HasEntry(entries, i) <==> c.blockTable[i] in seen)
      invariant forall j :: 0 <= j < k ==> HasEntry(entries, c.runs[j].blockIndex)
      invariant forall i :: 0 <= i < |c.blocks| && HasEntry(entries, i) ==> Fill(c.tokenCount, i) > 0
    {
      var run := c.runs[k];
      RunShown(c.blocks, c.blockTable, c.tokenCount, c.maxTokens, c.VectorLen(), c.windowStart, k);
      RunInUse(c.blockTable, c.windowStart, c.tokenCount, c.maxTokens, k);
      var id := c.blockTable[run.blockIndex];
      if id !in seen {
        seen := seen + {id};
        EntryAdded(entries, c.blocks, run.blockIndex, c.VectorLen());
        entries := entries + [PrefixBlock(run.blockIndex, c.blocks[run.blockIndex], c.VectorLen())];
      }
    }
    forall i | 0 <= i < |c.blocks| && Fill(c.tokenCount, i) > 0 ensures HasEntry(entries, i) {
      var k := BlockHasRun(c.blockTable, c.windowStart, c.tokenCount, c.maxTokens, i);
    }
    state := PrefixState(c.revision, c.format, c.maxTokens, c.heads, c.headDim, c.tokenCount, c.tokensSeen,
                         c.windowStart, entries);
  }

  lemma NoEntries()
    ensures forall i :: !HasEntry([], i)
  {
  }

  lemma EntryAdded(entries: seq<PrefixBlock>, blocks: seq<CacheBlock>, i: nat, len: nat)
    requires EntriesOf(entries, blocks, len) && i < |blocks| && !HasEntry(entries, i)
    ensures EntriesOf(entries + [PrefixBlock(i, blocks[i], len)], blocks, len)
    ensures forall x :: HasEntry(entries + [PrefixBlock(i, blocks[i], len)], x) <==> HasEntry(entries, x) || x == i
  {
    var more := entries + [PrefixBlock(i, blocks[i], len)];
    forall x ensures HasEntry(more, x) <==> HasEntry(entries, x) || x == i {
      EntrySnoc(entries, PrefixBlock(i, blocks[i], len), x);
    }
  }

  lemma EntrySnoc(entries: seq<PrefixBlock>, last: PrefixBlock, x: nat)
    ensures HasEntry(entries + [last], x) <==> HasEntry(entries, x) || x == last.blockIndex
  {
    var more := entries + [last];
    assert more[|entries|] == last;
    if HasEntry(entries, x) {
      var e :| 0 <= e < |entries| && entries[e].blockIndex == x;
      assert more[e].blockIndex == x;
    }
  }

  /** The block of a run holds a token of the window. */
  lemma RunInUse(table: seq<nat>, start: nat, n: nat, max: nat, k: nat)
    requires |table| == NumBlocks(max) && start < max && n <= max && (n < max ==> start == 0)
    requires k < |Rebuilt(table, start, n, max)|
    ensures Fill(n, Rebuilt(table, start, n, max)[k].blockIndex) > 0
  {
    hide Rebuilt, Slot;
    RebuiltCovers(table, start, n, max);
    var run := Rebuilt(table, start, n, max)[k];
    RunEnd(Rebuilt(table, start, n, max), n, k);
    assert Locates(run, table, start, max, 0);
    SlotWraps(start, run.logicalStart, max);
  }

  lemma TableMatches(blocks: seq<CacheBlock>, table: seq<nat>, n: nat, max: nat, len: nat)
    requires BlocksFit(blocks, table, n, max, len)
    ensures Distinct(table) && |table| == |blocks| && forall i :: 0 <= i < |blocks| ==> blocks[i].id == table[i]
  {
    forall i | 0 <= i < |blocks| ensures blocks[i].id == table[i] {
      assert BlockFits(blocks[i], table[i], n, max, len, i);
    }
  }

  // ---------------------------------------------------------------- the blocks of a restored cache

  /** The block made from a retained one: known to be shared. */
  function FromRetained(p: PrefixBlock): Outcome<CacheBlock> {
    var b := p.retained;
    if b.capacity == 0 || p.vectorLen == 0 || b.tokenCount > b.capacity then Err(InvalidShape)
    else if |b.keys| != b.capacity * p.vectorLen || |b.values| != b.capacity * p.vectorLen then Err(InvalidShape)
    else Ok(b.(shared := true))
  }

  /** A retained block that fits a cache of `max` tokens of length `len`. */
  predicate EntryFits(p: PrefixBlock, max: nat, len: nat) {
    && FromRetained(p).Ok? && p.blockIndex < NumBlocks(max) && p.vectorLen == len
    && p.retained.capacity == Capacity(max, p.blockIndex)
  }

  predicate EntriesFit(entries: seq<PrefixBlock>, max: nat, len: nat) {
    forall e :: 0 <= e < |entries| ==> EntryFits(entries[e], max, len)
  }

  function FreshBlocks(firstId: nat, max: nat, len: nat): (r: seq<CacheBlock>)
    ensures |r| == NumBlocks(max)
  {
    seq(NumBlocks(max), i requires 0 <= i < NumBlocks(max) => NewBlock(firstId + i, Capacity(max, i), len))
  }

  /** The blocks after the retained ones have taken their places. */
  function Installed(blocks: seq<CacheBlock>, entries: seq<PrefixBlock>): (r: seq<CacheBlock>)
    requires forall e :: 0 <= e < |entries| ==> entries[e].blockIndex < |blocks|
    ensures |r| == |blocks|
  {
    if entries == [] then blocks
    else
      var last := entries[|entries| - 1];
      Installed(blocks, entries[..|entries| - 1])[last.blockIndex := last.retained.(shared := true)]
  }

  /** Blocks that cut `max` slots into pieces, whatever part of them is in use. */
  ghost predicate Cut(blocks: seq<CacheBlock>, max: nat, len: nat) {
    |blocks| == NumBlocks(max) && forall i :: 0 <= i < |blocks| ==> CutAt(blocks[i], max, len, i)
  }

  ghost predicate CutAt(b: CacheBlock, max: nat, len: nat, i: nat) {
    BlockShape(b, len) && b.capacity == Capacity(max, i)
  }

  lemma FreshIsCut(firstId: nat, max: nat, len: nat)
    ensures Cut(FreshBlocks(firstId, max, len), max, len)
  {
  }

  lemma {:induction false} InstalledIsCut(firstId: nat, max: nat, len: nat, entries: seq<PrefixBlock>)
    requires EntriesFit(entries, max, len)
    ensures var blocks := Installed(FreshBlocks(firstId, max, len), entries);
            Cut(blocks, max, len) && BlocksShaped(blocks, len)
  {
    if entries == [] {
      FreshIsCut(firstId, max, len);
    } else {
      InstalledIsCut(firstId, max, len, entries[..|entries| - 1]);
    }
    var blocks := Installed(FreshBlocks(firstId, max, len), entries);
    forall i | 0 <= i < |blocks| ensures BlockShape(blocks[i], len) {
      assert CutAt(blocks[i], max, len, i);
    }
  }

  /** Succeeds exactly if every retained block fits, and then puts them in place, in the blocks and in the table. */
  method RestoredBlocks(entries: seq<PrefixBlock>, freshBlocks: seq<CacheBlock>, freshTable: seq<nat>, max: nat,
                        len: nat)
    returns (r: Outcome<seq<CacheBlock>>, table: seq<nat>)
    requires Cut(freshBlocks, max, len) && |freshTable| == |freshBlocks|
    requires forall i :: 0 <= i < |freshTable| ==> freshTable[i] == freshBlocks[i].id
    ensures r.Ok? <==> EntriesFit(entries, max, len)
    ensures r.Err? ==> r.error == InvalidShape
    ensures r.Ok? ==> Cut(r.value, max, len) && r.value == Installed(freshBlocks, entries) && |table| == |r.value|
    ensures r.Ok? ==> forall i :: 0 <= i < |table| ==> table[i] == r.value[i].id
  {
    table := freshTable;
    var blocks := freshBlocks;
    for e := 0 to |entries|
      invariant EntriesFit(entries[..e], max, len) && Cut(blocks, max, len) && |table| == |blocks|
      invariant blocks == Installed(freshBlocks, entries[..e])
      invariant forall i :: 0 <= i < |table| ==> table[i] == blocks[i].id
    {
      var i := entries[e].blockIndex;
      assert entries[..e + 1][..e] == entries[..e] && entries[..e + 1][e] == entries[e];
      var block := FromRetained(entries[e]);
      if block.Err? {
        assert !EntryFits(entries[e], max, len);
        return Err(block.error), table;
      }
      if i >= |blocks| || entries[e].vectorLen != len || block.value.capacity != blocks[i].capacity {
        assert i < |blocks| ==> CutAt(blocks[i], max, len, i);
        assert !EntryFits(entries[e], max, len);
        return Err(InvalidShape), table;
      }
      assert CutAt(blocks[i], max, len, i);
      table := table[i := block.value.id];
      blocks := blocks[i := block.value];
    }
    assert entries[..|entries|] == entries;
    return Ok(blocks), table;
  }

  /** What a captured block list installs: the blocks of the source, marked as shared, where they are in use. */
  lemma {:induction false} InstalledAt(blocks: seq<CacheBlock>, entries: seq<PrefixBlock>, source: seq<CacheBlock>,
                                       len: nat, i: nat)
    requires EntriesOf(entries, source, len) && |blocks| == |source| && i < |blocks|
    ensures Installed(blocks, entries)[i] == if HasEntry(entries, i) then source[i].(shared := true) else blocks[i]
  {
    if entries != [] {
      var n := |entries| - 1;
      InstalledAt(blocks, entries[..n], source, len, i);
      assert entries == entries[..n] + [entries[n]];
      EntrySnoc(entries[..n], entries[n], i);
    }
  }

  // ---------------------------------------------------------------- the other parts of a restored cache

  method RebuiltRuns(table: seq<nat>, start: nat, n: nat, max: nat) returns (runs: seq<BlockRun>)
    requires |table| == NumBlocks(max) && start < max
    ensures runs == Rebuilt(table, start, n, max)
  {
    runs := [];
    for l := 0 to n
      invariant runs == Rebuilt(table, start, l, max)
    {
      runs := Extend(runs, table, l, Slot(start, l, max));
    }
  }

  /** Physical slot `p` lies in the part of its block that is in use. */
  ghost predicate InUse(blocks: seq<CacheBlock>, p: nat) {
    p / BLOCK < |blocks| && p % BLOCK < blocks[p / BLOCK].tokenCount
  }

  /** Every token of the window does. */
  ghost predicate WindowInUse(blocks: seq<CacheBlock>, start: nat, n: nat, max: nat)
    requires max > 0
  {
    forall l :: 0 <= l < n ==> InUse(blocks, Slot(start, l, max))
  }

  /** Row `p` of the stages is the token in physical slot `p` of the blocks. */
  ghost predicate StageShows(ks: Vec, vs: Vec, len: nat, blocks: seq<CacheBlock>, p: nat) {
    && InUse(blocks, p) && BlockShape(blocks[p / BLOCK], len) && p * len + len <= |ks| == |vs|
    && BlockToken(blocks[p / BLOCK], len, p % BLOCK) == Some(Token(RowAt(ks, len, p), RowAt(vs, len, p)))
  }

  lemma SlotInCut(blocks: seq<CacheBlock>, start: nat, l: nat, max: nat, len: nat)
    requires Cut(blocks, max, len) && start < max && l < max
    ensures var p := Slot(start, l, max); p < max && p / BLOCK < |blocks| && BlockShape(blocks[p / BLOCK], len)
  {
    SlotWraps(start, l, max);
    var p := Slot(start, l, max);
    assert CutAt(blocks[p / BLOCK], max, len, p / BLOCK);
  }

  /** The stages filled from the blocks in window order, unless a token of the window is not in use. */
  method RebuiltStages(blocks: seq<CacheBlock>, start: nat, n: nat, max: nat, len: nat) returns (r: Outcome<(Vec, Vec)>)
    requires Cut(blocks, max, len) && start < max && n <= max
    ensures r.Ok? <==> WindowInUse(blocks, start, n, max)
    ensures r.Err? ==> r.error == InvalidShape
    ensures r.Ok? ==> |r.value.0| == |r.value.1| == max * len
    ensures r.Ok? ==> forall l :: 0 <= l < n ==> StageShows(r.value.0, r.value.1, len, blocks, Slot(start, l, max))
  {
    hide Slot, PutRow, RowAt, BlockToken, Cut, StageShows;
    var ks, vs := Zeros(max * len), Zeros(max * len);
    for l := 0 to n
      invariant |ks| == |vs| == max * len && WindowInUse(blocks, start, l, max)
      invariant forall q :: 0 <= q < l ==> StageShows(ks, vs, len, blocks, Slot(start, q, max))
    {
      var p := Slot(start, l, max);
      SlotInCut(blocks, start, l, max, len);
      var t := BlockToken(blocks[p / BLOCK], len, p % BLOCK);
      TokenInUse(blocks[p / BLOCK], len, p % BLOCK);
      if t.None? {
        assert !InUse(blocks, p);
        return Err(InvalidShape);
      }
      RowFits(p, max, len);
      TokenSized(blocks[p / BLOCK], len, p % BLOCK);
      forall q | 0 <= q <= l
        ensures StageShows(PutRow(ks, len, p, t.value.key), PutRow(vs, len, p, t.value.value), len, blocks,
                           Slot(start, q, max))
      {
        SlotInCut(blocks, start, q, max, len);
        StageWritten(ks, vs, len, max, blocks, p, t.value, Slot(start, q, max));
      }
      ks, vs := PutRow(ks, len, p, t.value.key), PutRow(vs, len, p, t.value.value);
    }
    return Ok((ks, vs));
  }

  lemma StageWritten(ks: Vec, vs: Vec, len: nat, max: nat, blocks: seq<CacheBlock>, p: nat, t: Token, x: nat)
    requires |ks| == |vs| == max * len && p < max && x < max && |t.key| == |t.value| == len
    requires InUse(blocks, p) && BlockShape(blocks[p / BLOCK], len) &&
      BlockToken(blocks[p / BLOCK], len, p % BLOCK) == Some(t)
    requires x == p || StageShows(ks, vs, len, blocks, x)
    ensures p * len + len <= max * len
    ensures StageShows(PutRow(ks, len, p, t.key), PutRow(vs, len, p, t.value), len, blocks, x)
  {
    hide BlockToken, RowAt, PutRow;
    RowFits(p, max, len);
    RowFits(x, max, len);
    PutRowAt(ks, len, p, t.key, x);
    PutRowAt(vs, len, p, t.value, x);
  }

  lemma TokenSized(b: CacheBlock, len: nat, j: nat)
    requires BlockShape(b, len) && BlockToken(b, len, j).Some?
    ensures |BlockToken(b, len, j).value.key| == len && |BlockToken(b, len, j).value.value| == len
  {
  }

  /** The rows of a block that its format quantises are finite. */
  ghost predicate Quantisable(format: Format, b: CacheBlock, len: nat)
    requires BlockShape(b, len)
  {
    (format.Int8? ==> FiniteBlock(b, len)) && (format.AsymmetricVq? ==> AllFinite(UsedValues(b, len)))
  }

  ghost predicate AllQuantisable(format: Format, blocks: seq<CacheBlock>, len: nat)
    requires BlocksShaped(blocks, len)
  {
    forall i :: 0 <= i < |blocks| ==> Quantisable(format, blocks[i], len)
  }

  /** The stores filled from the blocks, unless a row to be quantised is not finite. */
  method RebuiltStores(format: Format, blocks: seq<CacheBlock>, len: nat)
    returns (r: Outcome<(Option<seq<Option<Int8Block>>>, Option<seq<Option<QuantizedBlock>>>)>)
    requires len > 0 && BlocksShaped(blocks, len)
    ensures r == Err(NonFiniteValue) || r.Ok?
    ensures r.Ok? <==> AllQuantisable(format, blocks, len)
    ensures r.Ok? ==> Int8InSync(r.value.0, format, blocks, len) && QuantizedInSync(r.value.1, format, blocks, len)
  {
    hide FiniteBlock, BlockShape, Int8For, QuantizedFor, AllFinite;
    var codes: seq<Option<Int8Block>>, values: seq<Option<QuantizedBlock>> := [], [];
    for i := 0 to |blocks|
      invariant forall k :: 0 <= k < i ==> Quantisable(format, blocks[k], len)
      invariant format.Int8? ==> |codes| == i && forall k :: 0 <= k < i ==> codes[k] == Int8For(blocks[k], len)
      invariant format.AsymmetricVq? ==>
        |values| == i && forall k :: 0 <= k < i ==> values[k] == QuantizedFor(format.bits, blocks[k], len)
    {
      EmptyStores(format, blocks[i], len);
      if blocks[i].tokenCount == 0 {
        codes, values := codes + [None], values + [None];
      } else if format.Int8? {
        var q := QuantizedInt8(blocks[i], len);
        InUseIsStored(format, blocks[i], len);
        if q.Err? {
          return Err(q.error);
        }
        codes := codes + [Some(q.value)];
      } else if format.AsymmetricVq? {
        var q := QuantizedValues(format.bits, blocks[i], len);
        InUseIsStored(format, blocks[i], len);
        if q.Err? {
          return Err(q.error);
        }
        values := values + [Some(q.value)];
      }
    }
    return Ok((if format.Int8? then Some(codes) else None, if format.AsymmetricVq? then Some(values) else None));
  }

  lemma InUseIsStored(format: Format, b: CacheBlock, len: nat)
    requires BlockShape(b, len) && len > 0 && b.tokenCount > 0
    ensures Int8For(b, len).Some? && (format.AsymmetricVq? ==> QuantizedFor(format.bits, b, len).Some?)
  {
  }

  lemma EmptyStores(format: Format, b: CacheBlock, len: nat)
    requires BlockShape(b, len) && len > 0
    ensures b.tokenCount == 0 ==> Int8For(b, len) == None && Quantisable(format, b, len)
    ensures b.tokenCount == 0 && format.AsymmetricVq? ==> QuantizedFor(format.bits, b, len) == None
  {
  }

  // ---------------------------------------------------------------- restoring

  /** The outcome of a restore, check by check in the order they are made. */
  ghost function RestoreCheck(state: PrefixState, firstId: nat): Outcome<()> {
    var len := state.heads * state.headDim;
    if state.maxTokens == 0 || state.heads == 0 || state.headDim == 0 || state.tokenCount > state.maxTokens
       || state.tokensSeen < state.tokenCount || state.windowStart >= state.maxTokens then Err(InvalidShape)
    else if state.format.F16? then Err(UnsupportedFormat)
    else if !EntriesFit(state.blocks, state.maxTokens, len) then Err(InvalidShape)
    else
      var blocks := Installed(FreshBlocks(firstId, state.maxTokens, len), state.blocks);
      InstalledIsCut(firstId, state.maxTokens, len, state.blocks);
      if !WindowInUse(blocks, state.windowStart, state.tokenCount, state.maxTokens) then Err(InvalidShape)
      else if !AllQuantisable(state.format, blocks, len) then Err(NonFiniteValue)
      else Ok(())
  }

  /** The cache a prefix was captured from, as far as a restore depends on it. */
  ghost predicate CapturedFrom(state: PrefixState, source: seq<CacheBlock>, sourceTable: seq<nat>) {
    var len := state.heads * state.headDim;
    && state.maxTokens > 0 && len > 0 && !state.format.F16?
    && state.tokenCount <= state.maxTokens && state.tokenCount <= state.tokensSeen
    && state.windowStart < state.maxTokens && (state.tokenCount < state.maxTokens ==> state.windowStart == 0)
    && BlocksFit(source, sourceTable, state.tokenCount, state.maxTokens, len)
    && BlocksShaped(source, len) && FiniteRows(state.format, source, len)
    && Retains(state.blocks, source, state.tokenCount, len)
  }

  /** The window a prefix stands for. */
  ghost function PrefixView(state: PrefixState, source: seq<CacheBlock>, sourceTable: seq<nat>): Window
    requires CapturedFrom(state, source, sourceTable)
  {
    var len := state.heads * state.headDim;
    Window(state.maxTokens, len, state.format.Compressed(),
           Rotate(Slots(source, sourceTable, state.tokenCount, state.maxTokens, len), state.windowStart),
           state.tokensSeen, state.revision)
  }

  /** A capture stands for the window of the cache it was taken from. */
  lemma CaptureShowsCache(c: LayerKvCache, state: PrefixState)
    requires c.Valid()
    requires state == PrefixState(c.revision, c.format, c.maxTokens, c.heads, c.headDim, c.tokenCount, c.tokensSeen,
                                  c.windowStart, state.blocks)
    requires Retains(state.blocks, c.blocks, c.tokenCount, c.VectorLen())
    ensures CapturedFrom(state, c.blocks, c.blockTable) && PrefixView(state, c.blocks, c.blockTable) == c.View()
  {
    hide StagesOk, ViewOk, Slots, Rebuilt, BlocksFit, Rotate, Retains;
  }

  /** Every part of `c` is what a restore of `state` makes it. */
  ghost predicate IsRestored(c: LayerKvCache, state: PrefixState, firstId: nat)
    reads c
  {
    var len := state.heads * state.headDim;
    && state.windowStart < state.maxTokens && len > 0
    && c.maxTokens == state.maxTokens && c.heads == state.heads && c.headDim == state.headDim &&
       c.format == state.format
    && c.tokenCount == state.tokenCount && c.tokensSeen == state.tokensSeen && c.windowStart == state.windowStart
    && c.revision == state.revision && c.keyView == None && c.valueView == None
    && BlocksInstalled(c.blocks, c.blockTable, state, firstId)
    && c.runs == Rebuilt(c.blockTable, state.windowStart, state.tokenCount, state.maxTokens)
    && StagesFilled(c.keyStage, c.valueStage, c.blocks, state)
    && BlocksShaped(c.blocks, len) && Int8InSync(c.int8, state.format, c.blocks, len)
    && QuantizedInSync(c.quantized, state.format, c.blocks, len)
  }

  ghost predicate BlocksInstalled(blocks: seq<CacheBlock>, table: seq<nat>, state: PrefixState, firstId: nat) {
    var len := state.heads * state.headDim;
    && EntriesFit(state.blocks, state.maxTokens, len)
    && blocks == Installed(FreshBlocks(firstId, state.maxTokens, len), state.blocks)
    && |table| == |blocks| == NumBlocks(state.maxTokens) && forall i :: 0 <= i < |table| ==> table[i] == blocks[i].id
  }

  ghost predicate StagesFilled(ks: Vec, vs: Vec, blocks: seq<CacheBlock>, state: PrefixState)
    requires state.maxTokens > 0
  {
    var len := state.heads * state.headDim;
    && |ks| == |vs| == state.maxTokens * len
    && forall l :: 0 <= l < state.tokenCount ==>
       StageShows(ks, vs, len, blocks, Slot(state.windowStart, l, state.maxTokens))
  }

  /** Where the first `n` slots lie, the blocks are those of the source under their own ids, marked as shared;
      the others are new. */
  ghost predicate TakesOver(blocks: seq<CacheBlock>, source: seq<CacheBlock>, n: nat, firstId: nat) {
    && |blocks| == |source|
    && forall i :: 0 <= i < |blocks| ==>
         if i * 256 < n then blocks[i] == source[i].(shared := true)
         else blocks[i].id == firstId + i && !blocks[i].shared && blocks[i].tokenCount == blocks[i].revision == 0
  }

  lemma RestoredTakeOver(c: LayerKvCache, state: PrefixState, firstId: nat, source: seq<CacheBlock>,
                         sourceTable: seq<nat>)
    requires CapturedFrom(state, source, sourceTable) && IsRestored(c, state, firstId)
    ensures TakesOver(c.blocks, source, state.tokenCount, firstId)
  {
    hide Installed, StagesFilled, Int8InSync, QuantizedInSync, Rebuilt, FiniteRows, BlocksShaped, EntriesFit;
    var len := state.heads * state.headDim;
    forall i | 0 <= i < |c.blocks|
      ensures if i * 256 < state.tokenCount then c.blocks[i] == source[i].(shared := true)
              else c.blocks[i].id == firstId + i && !c.blocks[i].shared
                   && c.blocks[i].tokenCount == c.blocks[i].revision == 0
    {
      InstalledAt(FreshBlocks(firstId, state.maxTokens, len), state.blocks, source, len, i);
    }
  }

  /** Restores any state. The result is that of the checks; a state captured from a cache passes all of them, and
      the restored cache then shows exactly the captured window and agrees with itself in every part. */
  method FromPrefixState(state: PrefixState, firstId: nat) returns (r: Outcome<LayerKvCache>)
    ensures r.Ok? <==> RestoreCheck(state, firstId).Ok?
    ensures r.Err? ==> r.error == RestoreCheck(state, firstId).error
    ensures r.Ok? ==> fresh(r.value) && IsRestored(r.value, state, firstId)
    ensures forall source, sourceTable ::
      CapturedFrom(state, source, sourceTable) && (forall i :: 0 <= i < |sourceTable| ==> sourceTable[i] < firstId) ==>
        && r.Ok? && r.value.Valid() && r.value.View() == PrefixView(state, source, sourceTable)
        && TakesOver(r.value.blocks, source, state.tokenCount, firstId)
  {
    hide StagesOk, StoresOk, ViewOk, Slots, Rebuilt, BlocksFit, Rotate, Cut, StageShows, EntriesFit, Installed;
    hide FreshBlocks;
    hide NewBlock, CapturedFrom, PrefixView, Int8InSync, QuantizedInSync, WindowInUse, BlocksShaped, AllQuantisable;
    hide IsRestored, TakesOver;
    r := Rebuild(state, firstId);
    forall source, sourceTable |
      CapturedFrom(state, source, sourceTable) && forall i :: 0 <= i < |sourceTable| ==> sourceTable[i] < firstId
      ensures r.Ok? && r.value.Valid() && r.value.View() == PrefixView(state, source, sourceTable)
      ensures TakesOver(r.value.blocks, source, state.tokenCount, firstId)
    {
      CapturedIsAccepted(state, firstId, source, sourceTable);
      RestoredTakeOver(r.value, state, firstId, source, sourceTable);
      RestoredIsValid(r.value, state, firstId, source, sourceTable);
    }
  }

  /** The checks and the rebuilding, step by step. */
  method Rebuild(state: PrefixState, firstId: nat) returns (r: Outcome<LayerKvCache>)
    ensures r.Ok? <==> RestoreCheck(state, firstId).Ok?
    ensures r.Err? ==> r.error == RestoreCheck(state, firstId).error
    ensures r.Ok? ==> fresh(r.value) && IsRestored(r.value, state, firstId)
  {
    hide StagesOk, StoresOk, ViewOk, Slots, Rebuilt, BlocksFit, Rotate, Cut, StageShows, EntriesFit, Installed;
    hide FreshBlocks;
    hide NewBlock, Int8InSync, QuantizedInSync, WindowInUse, BlocksShaped, AllQuantisable, IsRestored;
    if state.maxTokens == 0 || state.heads == 0 || state.headDim == 0 || state.tokenCount > state.maxTokens
       || state.tokensSeen < state.tokenCount || state.windowStart >= state.maxTokens {
      return Err(InvalidShape);
    }
    var created := LayerKvCache.New(state.maxTokens, state.heads, state.headDim, state.format, firstId);
    if created.Err? {
      return Err(created.error);
    }
    var c := created.value;
    var len := state.heads * state.headDim;
    NewIsFresh(c, firstId);
    var blocks, table := RestoredBlocks(state.blocks, c.blocks, c.blockTable, state.maxTokens, len);
    if blocks.Err? {
      return Err(blocks.error);
    }
    InstalledIsCut(firstId, state.maxTokens, len, state.blocks);
    CutSize(blocks.value, state.maxTokens, len);
    var runs := RebuiltRuns(table, state.windowStart, state.tokenCount, state.maxTokens);
    var stages := RebuiltStages(blocks.value, state.windowStart, state.tokenCount, state.maxTokens, len);
    if stages.Err? {
      return Err(stages.error);
    }
    var stores := RebuiltStores(state.format, blocks.value, len);
    if stores.Err? {
      return Err(stores.error);
    }
    MulMonotone(1, state.heads, state.headDim);
    Install(c, state, firstId, blocks.value, table, runs, stages.value.0, stages.value.1, stores.value.0,
            stores.value.1);
    return Ok(c);
  }

  /** Puts the rebuilt parts and the captured counters into a new cache. */
  method Install(c: LayerKvCache, state: PrefixState, ghost firstId: nat, blocks: seq<CacheBlock>, table: seq<nat>,
                 runs: seq<BlockRun>, ks: Vec, vs: Vec, int8: Option<seq<Option<Int8Block>>>,
                 quantized: Option<seq<Option<QuantizedBlock>>>)
    requires state.windowStart < state.maxTokens && state.heads * state.headDim > 0
    requires c.maxTokens == state.maxTokens && c.heads == state.heads && c.headDim == state.headDim &&
      c.format == state.format
    requires BlocksInstalled(blocks, table, state, firstId) && StagesFilled(ks, vs, blocks, state)
    requires runs == Rebuilt(table, state.windowStart, state.tokenCount, state.maxTokens)
    requires BlocksShaped(blocks, state.heads * state.headDim) &&
      Int8InSync(int8, state.format, blocks, state.heads * state.headDim)
    requires QuantizedInSync(quantized, state.format, blocks, state.heads * state.headDim)
    modifies c
    ensures IsRestored(c, state, firstId)
  {
    hide Rebuilt, EntriesFit, Installed, FreshBlocks, StagesFilled, Int8InSync, QuantizedInSync, BlocksShaped;
    c.blocks, c.blockTable, c.runs := blocks, table, runs;
    c.keyStage, c.valueStage, c.keyView, c.valueView := ks, vs, None, None;
    c.int8, c.quantized := int8, quantized;
    c.revision, c.tokenCount, c.tokensSeen, c.windowStart := state.revision, state.tokenCount, state.tokensSeen,
      state.windowStart;
  }

  lemma CutSize(blocks: seq<CacheBlock>, max: nat, len: nat)
    requires Cut(blocks, max, len)
    ensures |blocks| == NumBlocks(max)
  {
  }

  /** Capturing a cache and restoring the capture gives a second cache that shows the same window. */
  method CaptureAndRestore(c: LayerKvCache, firstId: nat) returns (d: LayerKvCache)
    requires c.Valid() && c.IdsBelow(firstId)
    ensures fresh(d) && d.Valid() && d.View() == c.View()
    ensures TakesOver(d.blocks, c.blocks, c.tokenCount, firstId)
  {
    hide StagesOk, StoresOk, ViewOk, Slots, Rebuilt, BlocksFit, Rotate, Retains, CapturedFrom, PrefixView, RestoreCheck;
    hide IsRestored, TakesOver;
    var state := PrefixCacheState(c);
    CaptureShowsCache(c, state);
    var restored := FromPrefixState(state, firstId);
    assert restored.Ok? && restored.value.View() == PrefixView(state, c.blocks, c.blockTable);
    d := restored.value;
  }

  lemma NewIsFresh(c: LayerKvCache, firstId: nat)
    requires c.Valid() && forall i :: 0 <= i < |c.blocks| ==>
      c.blocks[i] == NewBlock(firstId + i, Capacity(c.maxTokens, i), c.VectorLen())
    ensures c.blocks == FreshBlocks(firstId, c.maxTokens, c.VectorLen()) && Cut(c.blocks, c.maxTokens, c.VectorLen())
    ensures |c.blockTable| == |c.blocks| && forall i :: 0 <= i < |c.blocks| ==> c.blockTable[i] == c.blocks[i].id
  {
    hide StagesOk, StoresOk, ViewOk, Rebuilt, Slots;
    FreshIsCut(firstId, c.maxTokens, c.VectorLen());
    TableMatches(c.blocks, c.blockTable, c.tokenCount, c.maxTokens, c.VectorLen());
  }

  // ---------------------------------------------------------------- a captured state is restored exactly

  /** Every check passes for the retained blocks of a cache. */
  lemma CapturedFits(state: PrefixState, source: seq<CacheBlock>, sourceTable: seq<nat>)
    requires CapturedFrom(state, source, sourceTable)
    ensures EntriesFit(state.blocks, state.maxTokens, state.heads * state.headDim)
  {
    var len := state.heads * state.headDim;
    forall e | 0 <= e < |state.blocks| ensures EntryFits(state.blocks[e], state.maxTokens, len) {
      var i := state.blocks[e].blockIndex;
      assert BlockFits(source[i], sourceTable[i], state.tokenCount, state.maxTokens, len, i);
    }
  }

  /** The restored blocks fit, with the same rows in the same slots. */
  lemma RestoredFits(entries: seq<PrefixBlock>, firstId: nat, max: nat, len: nat, n: nat,
                     blocks: seq<CacheBlock>, table: seq<nat>, source: seq<CacheBlock>, sourceTable: seq<nat>)
    requires EntriesFit(entries, max, len) && blocks == Installed(FreshBlocks(firstId, max, len), entries)
    requires |table| == |blocks| && forall i :: 0 <= i < |table| ==> table[i] == blocks[i].id
    requires BlocksFit(source, sourceTable, n, max, len) && Retains(entries, source, n, len)
    requires forall i :: 0 <= i < |sourceTable| ==> sourceTable[i] < firstId
    ensures BlocksFit(blocks, table, n, max, len)
    ensures Slots(blocks, table, n, max, len) == Slots(source, sourceTable, n, max, len)
  {
    forall i | 0 <= i < |blocks|
      ensures BlockFits(blocks[i], table[i], n, max, len, i)
      ensures Fill(n, i) > 0 ==>
        table[i] == sourceTable[i] && blocks[i].keys == source[i].keys && blocks[i].values == source[i].values
      ensures Fill(n, i) == 0 ==> table[i] == firstId + i
    {
      InstalledAt(FreshBlocks(firstId, max, len), entries, source, len, i);
      assert BlockFits(source[i], sourceTable[i], n, max, len, i);
    }
    assert Distinct(table);
    assert BlocksFit(blocks, table, n, max, len);
    forall p | 0 <= p < n ensures TokenIn(blocks, table, n, max, len, p) ==
      TokenIn(source, sourceTable, n, max, len, p) {
      assert Fill(n, p / BLOCK) > 0;
    }
  }

  lemma RestoredFinite(state: PrefixState, firstId: nat, blocks: seq<CacheBlock>, source: seq<CacheBlock>,
                       sourceTable: seq<nat>)
    requires CapturedFrom(state, source, sourceTable)
    requires var len := state.heads * state.headDim;
             && EntriesFit(state.blocks, state.maxTokens, len) && BlocksShaped(blocks, len)
             && blocks == Installed(FreshBlocks(firstId, state.maxTokens, len), state.blocks)
    ensures FiniteRows(state.format, blocks, state.heads * state.headDim)
    ensures AllQuantisable(state.format, blocks, state.heads * state.headDim)
  {
    var len := state.heads * state.headDim;
    if state.format.Compressed() {
      forall i | 0 <= i < |blocks| ensures FiniteBlock(blocks[i], len) {
        InstalledAt(FreshBlocks(firstId, state.maxTokens, len), state.blocks, source, len, i);
        assert FiniteBlock(source[i], len);
        if HasEntry(state.blocks, i) { FiniteSame(source[i], blocks[i], len); }
      }
    }
  }

  lemma CapturedIsAccepted(state: PrefixState, firstId: nat, source: seq<CacheBlock>, sourceTable: seq<nat>)
    requires CapturedFrom(state, source, sourceTable) && forall i :: 0 <= i < |sourceTable| ==> sourceTable[i] < firstId
    ensures RestoreCheck(state, firstId).Ok?
  {
    hide BlocksFit, Retains, FiniteRows, Installed, FreshBlocks, AllQuantisable, WindowInUse, Slots;
    var len := state.heads * state.headDim;
    PositiveFactors(state.heads, state.headDim);
    CapturedFits(state, source, sourceTable);
    InstalledIsCut(firstId, state.maxTokens, len, state.blocks);
    var blocks := Installed(FreshBlocks(firstId, state.maxTokens, len), state.blocks);
    var table := seq(|blocks|, i requires 0 <= i < |blocks| => blocks[i].id);
    RestoredFits(state.blocks, firstId, state.maxTokens, len, state.tokenCount, blocks, table, source, sourceTable);
    FitIsInUse(blocks, table, state.windowStart, state.tokenCount, state.maxTokens, len);
    RestoredFinite(state, firstId, blocks, source, sourceTable);
  }

  lemma RestoredIsValid(c: LayerKvCache, state: PrefixState, firstId: nat, source: seq<CacheBlock>,
                        sourceTable: seq<nat>)
    requires CapturedFrom(state, source, sourceTable) && forall i :: 0 <= i < |sourceTable| ==> sourceTable[i] < firstId
    requires IsRestored(c, state, firstId)
    ensures c.Valid() && c.View() == PrefixView(state, source, sourceTable)
  {
    hide BlocksFit, Retains, FiniteRows, Installed, FreshBlocks, EntriesFit, Slots, Rotate, Rebuilt, StageShows;
    hide StagesOk;
    hide Int8InSync, QuantizedInSync;
    var len := state.heads * state.headDim;
    RestoredFits(state.blocks, firstId, state.maxTokens, len, state.tokenCount, c.blocks, c.blockTable, source,
                 sourceTable);
    RestoredFinite(state, firstId, c.blocks, source, sourceTable);
    StagesHoldSlots(c.keyStage, c.valueStage, c.blocks, c.blockTable, state.windowStart, state.tokenCount,
                    state.maxTokens, len);
  }

  /** A window of blocks that fit is in use, and stages that show it hold the slots. */
  lemma FitIsInUse(blocks: seq<CacheBlock>, table: seq<nat>, start: nat, n: nat, max: nat, len: nat)
    requires BlocksFit(blocks, table, n, max, len) && start < max && (n < max ==> start == 0)
    ensures WindowInUse(blocks, start, n, max)
  {
    hide BlocksFit, Slots, Rotate, BlockToken;
    forall l | 0 <= l < n ensures InUse(blocks, Slot(start, l, max)) {
      RowFound(blocks, table, n, max, len, start, l);
      var p := Slot(start, l, max);
      TokenInUse(blocks[p / BLOCK], len, p % BLOCK);
    }
  }

  lemma StagesHoldSlots(ks: Vec, vs: Vec, blocks: seq<CacheBlock>, table: seq<nat>, start: nat, n: nat, max: nat,
                        len: nat)
    requires BlocksFit(blocks, table, n, max, len) && start < max && (n < max ==> start == 0)
    requires |ks| == |vs| == max * len && forall l :: 0 <= l < n ==>
      StageShows(ks, vs, len, blocks, Slot(start, l, max))
    ensures StagesOk(ks, vs, Slots(blocks, table, n, max, len), max, len)
  {
    var slots := Slots(blocks, table, n, max, len);
    hide Slots, BlocksFit, StageShows, HoldsRows;
    FitsTable(blocks, table, n, max, len);
    forall p | 0 <= p < n ensures RowIs(ks, vs, len, p, slots) {
      var l := if p >= start then p - start else p + max - start;
      SlotWraps(start, l, max);
      SlotIsRow(ks, vs, blocks, table, n, max, len, p);
    }
    AllRowsHeld(ks, vs, slots, max, len);
  }

  ghost predicate RowIs(ks: Vec, vs: Vec, len: nat, p: nat, slots: seq<Token>) {
    && p < |slots| && p * len + len <= |ks| == |vs|
    && RowAt(ks, len, p) == slots[p].key && RowAt(vs, len, p) == slots[p].value
  }

  lemma SlotIsRow(ks: Vec, vs: Vec, blocks: seq<CacheBlock>, table: seq<nat>, n: nat, max: nat, len: nat, p: nat)
    requires BlocksFit(blocks, table, n, max, len) && p < n && StageShows(ks, vs, len, blocks, p)
    ensures RowIs(ks, vs, len, p, Slots(blocks, table, n, max, len))
  {
    assert BlockFits(blocks[p / BLOCK], table[p / BLOCK], n, max, len, p / BLOCK);
    assert Slots(blocks, table, n, max, len)[p] == TokenIn(blocks, table, n, max, len, p);
  }

  lemma AllRowsHeld(ks: Vec, vs: Vec, slots: seq<Token>, max: nat, len: nat)
    requires |slots| <= max && |ks| == max * len && |vs| == max * len
    requires forall p :: 0 <= p < |slots| ==> RowIs(ks, vs, len, p, slots)
    ensures StagesOk(ks, vs, slots, max, len)
  {
    hide RowAt;
    MulMonotone(|slots|, max, len);
    assert HoldsRows(ks, KeysOf(slots), len) by {
      forall p | 0 <= p < |slots| ensures p * len + len <= |ks| && RowAt(ks, len, p) == KeysOf(slots)[p] {
        assert RowIs(ks, vs, len, p, slots);
      }
    }
    assert HoldsRows(vs, ValuesOf(slots), len) by {
      forall p | 0 <= p < |slots| ensures p * len + len <= |vs| && RowAt(vs, len, p) == ValuesOf(slots)[p] {
        assert RowIs(ks, vs, len, p, slots);
      }
    }
  }
}
