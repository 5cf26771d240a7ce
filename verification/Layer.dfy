/**
 One layer's key/value cache: a sliding window kept at once as blocks, as flat ring buffers with lazily
 cached contiguous views, as a list of active block runs and as quantised stores.

 Storage is held by value here. What other holders of shared block storage do to a cache is the
 parameter `storageShared`, true if the storage of the block being written has another holder; ids
 below `nextId` have been given out. `Shared` fixes both for many caches over one memory.
 */
module Layer {
  import opened Common
  import opened TokenWindow
  import opened Geometry
  import opened Rows
  import opened BlockRuns
  import opened BitPacking
  import opened Quantize
  import opened LayerState

  datatype Appended = Appended(tokenIndex: nat, physicalIndex: nat, tokenCount: nat, tokensSeen: nat, revision: nat)

  // ---------------------------------------------------------------- agreement of the parts

  ghost predicate StagesOk(ks: Vec, vs: Vec, slots: seq<Token>, max: nat, len: nat) {
    && |slots| <= max && |ks| == max * len && |vs| == max * len
    && HoldsRows(ks, KeysOf(slots), len) && HoldsRows(vs, ValuesOf(slots), len)
  }

  ghost predicate ViewOk(view: Option<Vec>, stage: Vec, start: nat, n: nat, max: nat, len: nat) {
    view.Some? ==>
      start < max && n <= max && (n < max ==> start == 0) && |stage| == max * len &&
        view.value == StageView(stage, start, n, max, len)
  }

  ghost predicate StoresOk(int8: Option<seq<Option<Int8Block>>>, quantized: Option<seq<Option<QuantizedBlock>>>,
                           format: Format, blocks: seq<CacheBlock>, len: nat)
  {
    && len > 0 && BlocksShaped(blocks, len) && Int8InSync(int8, format, blocks, len)
    && QuantizedInSync(quantized, format, blocks, len) && FiniteRows(format, blocks, len)
  }

  lemma StagesWritten(ks: Vec, vs: Vec, slots: seq<Token>, max: nat, len: nat, p: nat, t: Token)
    requires StagesOk(ks, vs, slots, max, len) && p < max && p <= |slots| && |t.key| == len && |t.value| == len
    ensures p * len + len <= max * len
    ensures StagesOk(PutRow(ks, len, p, t.key), PutRow(vs, len, p, t.value),
                     if p < |slots| then slots[p := t] else slots + [t], max, len)
  {
    hide HoldsRows, PutRow;
    RowFits(p, max, len);
    HoldsWritten(ks, KeysOf(slots), len, max, p, t.key);
    HoldsWritten(vs, ValuesOf(slots), len, max, p, t.value);
    var slots' := if p < |slots| then slots[p := t] else slots + [t];
    assert KeysOf(slots') == if p < |slots| then KeysOf(slots)[p := t.key] else KeysOf(slots) + [t.key];
    assert ValuesOf(slots') == if p < |slots| then ValuesOf(slots)[p := t.value] else ValuesOf(slots) + [t.value];
  }

  /** Replacing one block and refreshing its store entries keeps the stores in step. */
  lemma StoresRefreshed(int8: Option<seq<Option<Int8Block>>>, quantized: Option<seq<Option<QuantizedBlock>>>,
                        int8': Option<seq<Option<Int8Block>>>, quantized': Option<seq<Option<QuantizedBlock>>>,
                        format: Format, blocks: seq<CacheBlock>, len: nat, i: nat, b: CacheBlock)
    requires StoresOk(int8, quantized, format, blocks, len) && i < |blocks| && BlockShape(b, len)
    requires format.Compressed() ==> FiniteBlock(b, len)
    requires int8' == if int8.Some? then Some(int8.value[i := Int8For(b, len)]) else None
    requires quantized' ==
      if quantized.Some? then Some(quantized.value[i := QuantizedFor(format.bits, b, len)]) else None
    ensures StoresOk(int8', quantized', format, blocks[i := b], len)
  {
    hide Int8For, QuantizedFor, FiniteBlock, BlockShape;
  }

  /** Writing a token through a block: what it does to the blocks, the table and the slots. */
  lemma BlockTokenWritten(blocks: seq<CacheBlock>, table: seq<nat>, n: nat, max: nat, len: nat, p: nat, t: Token,
                          appending: bool, storageShared: bool, nextId: nat, compressed: bool)
    requires BlocksFit(blocks, table, n, max, len) && p < max && (if appending then p == n else p < n)
    requires forall i :: 0 <= i < |table| ==> table[i] < nextId
    requires Reject(len, compressed, t).Ok?
    ensures var i := p / BLOCK;
            var m := if appending then n + 1 else n;
            && i < |blocks| && table[i] == blocks[i].id && BlockShape(blocks[i], len)
            && var b := EnsureExclusive(blocks[i], storageShared, nextId);
               var w := if appending then BlockAppend(b, len, t) else BlockWriteAt(b, len, p % BLOCK, t);
               && BlockShape(b, len) && w.Ok? && w.value.id == b.id && BlockShape(w.value, len) &&
                  w.value.tokenCount > 0
               && w.value.shared == b.shared && w.value.revision == b.revision + 1
               && (compressed && FiniteBlock(blocks[i], len) ==> FiniteBlock(w.value, len))
               && BlocksFit(blocks[i := w.value], table[i := b.id], m, max, len)
               && Slots(blocks[i := w.value], table[i := b.id], m, max, len) ==
                  if appending then Slots(blocks, table, n, max, len) + [t]
                    else Slots(blocks, table, n, max, len)[p := t]
  {
    hide Slots, PutRow, UsedKeys, UsedValues, AllFinite;
    var i := p / BLOCK;
    var m := if appending then n + 1 else n;
    assert BlockFits(blocks[i], table[i], n, max, len, i);
    var b := EnsureExclusive(blocks[i], storageShared, nextId);
    var w := if appending then BlockAppend(b, len, t) else BlockWriteAt(b, len, p % BLOCK, t);
    assert w == Ok(WriteRow(b, len, p % BLOCK, t).(tokenCount := Fill(m, i)));
    SlotWritten(blocks, table, n, max, len, p, t, w.value, m);
    if compressed && FiniteBlock(blocks[i], len) {
      FiniteSame(blocks[i], b, len);
      FiniteAfterWrite(b, len, p % BLOCK, t, Fill(m, i));
    }
  }

  /** Only the block of slot `p` changed: it has a fresh id exactly if its id or its storage was shared, and one
      more revision. */
  ghost predicate OneWrite(before: seq<CacheBlock>, after: seq<CacheBlock>, p: nat, storageShared: bool, nextId: nat) {
    var i := p / BLOCK;
    && i < |before| == |after| && after == before[i := after[i]]
    && after[i].id == (if before[i].shared || storageShared then nextId else before[i].id)
    && !after[i].shared && after[i].revision == before[i].revision + 1
  }

  lemma FitsTable(blocks: seq<CacheBlock>, table: seq<nat>, n: nat, max: nat, len: nat)
    requires BlocksFit(blocks, table, n, max, len)
    ensures |table| == |blocks| == NumBlocks(max) && n <= max
  {
  }

  lemma StoresAreFinite(int8: Option<seq<Option<Int8Block>>>, quantized: Option<seq<Option<QuantizedBlock>>>,
                        format: Format, blocks: seq<CacheBlock>, len: nat, i: nat)
    requires StoresOk(int8, quantized, format, blocks, len) && i < |blocks|
    ensures BlockShape(blocks[i], len) && (format.Compressed() ==> FiniteBlock(blocks[i], len))
  {
  }

  lemma FiniteSame(a: CacheBlock, b: CacheBlock, len: nat)
    requires BlockShape(a, len) && BlockShape(b, len) && FiniteBlock(a, len)
    requires b.keys == a.keys && b.values == a.values && b.tokenCount == a.tokenCount
    ensures FiniteBlock(b, len)
  {
  }

  /** The store entry of a block in use, unless a row of it is not finite. */
  method QuantizedInt8(b: CacheBlock, len: nat) returns (r: Outcome<Int8Block>)
    requires BlockShape(b, len) && len > 0 && b.tokenCount > 0
    ensures r == if FiniteBlock(b, len) then Ok(Int8For(b, len).value) else Err(NonFiniteValue)
  {
    hide Int8Of, AllFinite;
    WholeTimes(b.tokenCount, len);
    MulMonotone(1, b.tokenCount, len);
    var keys := QuantizeInt8Rows(UsedKeys(b, len), len);
    if keys.Err? {
      return Err(keys.error);
    }
    var values := QuantizeInt8Rows(UsedValues(b, len), len);
    if values.Err? {
      return Err(values.error);
    }
    return Ok(Int8Block(b.tokenCount, keys.value, values.value));
  }

  method QuantizedValues(bits: Bits, b: CacheBlock, len: nat) returns (r: Outcome<QuantizedBlock>)
    requires BlockShape(b, len) && len > 0 && b.tokenCount > 0
    ensures r == if AllFinite(UsedValues(b, len)) then Ok(QuantizedFor(bits, b, len).value) else Err(NonFiniteValue)
  {
    hide QuantizedOf, AllFinite;
    WholeTimes(b.tokenCount, len);
    MulMonotone(1, b.tokenCount, len);
    r := QuantizeValueBlock(bits, UsedValues(b, len), len);
  }

  /** A run and the block it lies in. */
  datatype ActiveBlock = ActiveBlock(run: BlockRun, block: CacheBlock)

  /** The rows of the run in the block are the window's rows from the run's logical start on. */
  ghost predicate ShowsRows(a: ActiveBlock, rows: seq<Token>, len: nat) {
    && a.run.blockId == a.block.id && BlockShape(a.block, len)
    && a.run.blockStart + a.run.count <= a.block.tokenCount && a.run.logicalStart + a.run.count <= |rows|
    && forall j :: 0 <= j < a.run.count ==> ShowsRow(a, rows, len, j)
  }

  ghost predicate ShowsRow(a: ActiveBlock, rows: seq<Token>, len: nat, j: nat)
    requires BlockShape(a.block, len)
  {
    a.run.logicalStart + j < |rows| &&
      BlockToken(a.block, len, a.run.blockStart + j) == Some(rows[a.run.logicalStart + j])
  }

  lemma RowFound(blocks: seq<CacheBlock>, table: seq<nat>, n: nat, max: nat, len: nat, start: nat, i: nat)
    requires BlocksFit(blocks, table, n, max, len) && start < max && (n < max ==> start == 0) && i < n
    ensures var p := Slot(start, i, max);
            && p / BLOCK < |blocks| == |table| && blocks[p / BLOCK].id == table[p / BLOCK] &&
               BlockShape(blocks[p / BLOCK], len)
            && BlockToken(blocks[p / BLOCK], len, p % BLOCK) ==
               Some(Rotate(Slots(blocks, table, n, max, len), start)[i])
  {
    hide Slot;
    var p := Slot(start, i, max);
    SlotWraps(start, i, max);
    assert BlockFits(blocks[p / BLOCK], table[p / BLOCK], n, max, len, p / BLOCK);
    assert Slots(blocks, table, n, max, len)[p] == TokenIn(blocks, table, n, max, len, p);
  }

  lemma RunShown(blocks: seq<CacheBlock>, table: seq<nat>, n: nat, max: nat, len: nat, start: nat, k: nat)
    requires BlocksFit(blocks, table, n, max, len) && start < max && (n < max ==> start == 0)
    requires k < |Rebuilt(table, start, n, max)|
    ensures var run := Rebuilt(table, start, n, max)[k];
            && run.blockIndex < |table| == |blocks| && table[run.blockIndex] == run.blockId == blocks[run.blockIndex].id
            && ShowsRows(ActiveBlock(run, blocks[run.blockIndex]), Rotate(Slots(blocks, table, n, max, len), start),
                         len)
  {
    hide Slots, Rotate, Rebuilt, Slot, BlockToken, BlocksFit;
    FitsTable(blocks, table, n, max, len);
    RebuiltCovers(table, start, n, max);
    var runs := Rebuilt(table, start, n, max);
    var run := runs[k];
    RunEnd(runs, n, k);
    assert forall j :: 0 <= j < run.count ==> Locates(run, table, start, max, j);
    RunTokenShown(blocks, table, n, max, len, start, run, 0);
    RunTokenShown(blocks, table, n, max, len, start, run, run.count - 1);
    forall j | 0 <= j < run.count
      ensures ShowsRow(ActiveBlock(run, blocks[run.blockIndex]), Rotate(Slots(blocks, table, n, max, len), start), len,
                       j)
    {
      RunTokenShown(blocks, table, n, max, len, start, run, j);
    }
  }

  lemma RunTokenShown(blocks: seq<CacheBlock>, table: seq<nat>, n: nat, max: nat, len: nat, start: nat, run: BlockRun,
                      j: nat)
    requires BlocksFit(blocks, table, n, max, len) && start < max && (n < max ==> start == 0)
    requires run.logicalStart + j < n && Locates(run, table, start, max, j)
    ensures run.blockIndex < |table| == |blocks| && table[run.blockIndex] == run.blockId == blocks[run.blockIndex].id
    ensures BlockShape(blocks[run.blockIndex], len) && run.blockStart + j < blocks[run.blockIndex].tokenCount
    ensures ShowsRow(ActiveBlock(run, blocks[run.blockIndex]), Rotate(Slots(blocks, table, n, max, len), start), len, j)
  {
    hide Slots, Rotate, Slot, BlocksFit, BlockToken;
    RowFound(blocks, table, n, max, len, start, run.logicalStart + j);
    TokenInUse(blocks[run.blockIndex], len, run.blockStart + j);
  }

  lemma TokenInUse(b: CacheBlock, len: nat, j: nat)
    requires BlockShape(b, len)
    ensures BlockToken(b, len, j).Some? <==> j < b.tokenCount
  {
  }

  lemma {:induction false} RunEnd(runs: seq<BlockRun>, n: nat, k: nat)
    requires Partitions(runs, n) && k < |runs|
    ensures runs[k].logicalStart + runs[k].count <= n
    decreases |runs| - k
  {
    if k < |runs| - 1 { RunEnd(runs, n, k + 1); }
  }

  class LayerKvCache {
    const maxTokens: nat
    const heads: nat
    const headDim: nat
    const format: Format
    var revision: nat
    var tokenCount: nat
    var tokensSeen: nat
    var windowStart: nat
    var blockTable: seq<nat>
    var blocks: seq<CacheBlock>
    var runs: seq<BlockRun>
    var keyStage: Vec
    var valueStage: Vec
    var keyView: Option<Vec>
    var valueView: Option<Vec>
    var int8: Option<seq<Option<Int8Block>>>
    var quantized: Option<seq<Option<QuantizedBlock>>>

    function VectorLen(): nat {
      heads * headDim
    }

    ghost predicate CountersOk()
      reads this
    {
      && maxTokens > 0 && VectorLen() > 0 && !format.F16? && tokenCount <= maxTokens && tokenCount <= tokensSeen
      && windowStart < maxTokens && (tokenCount < maxTokens ==> windowStart == 0)
    }

    ghost predicate Valid()
      reads this
    {
      && CountersOk()
      && BlocksFit(blocks, blockTable, tokenCount, maxTokens, VectorLen())
      && runs == Rebuilt(blockTable, windowStart, tokenCount, maxTokens)
      && StagesOk(keyStage, valueStage, Slots(blocks, blockTable, tokenCount, maxTokens, VectorLen()), maxTokens,
                  VectorLen())
      && ViewOk(keyView, keyStage, windowStart, tokenCount, maxTokens, VectorLen())
      && ViewOk(valueView, valueStage, windowStart, tokenCount, maxTokens, VectorLen())
      && StoresOk(int8, quantized, format, blocks, VectorLen())
    }

    /** The window this cache stands for, read from its blocks. */
    ghost function View(): Window
      requires Valid()
      reads this
    {
      Window(maxTokens, VectorLen(), format.Compressed(),
             Rotate(Slots(blocks, blockTable, tokenCount, maxTokens, VectorLen()), windowStart), tokensSeen, revision)
    }

    ghost predicate IdsBelow(nextId: nat)
      reads this
    {
      forall i :: 0 <= i < |blockTable| ==> blockTable[i] < nextId
    }

    /** A new, empty cache whose blocks get the ids from `firstId` on. */
    constructor (maxTokens: nat, heads: nat, headDim: nat, format: Format, firstId: nat)
      requires maxTokens > 0 && heads > 0 && headDim > 0 && !format.F16?
      ensures Valid() && IdsBelow(firstId + NumBlocks(maxTokens))
      ensures this.maxTokens == maxTokens && this.heads == heads && this.headDim == headDim && this.format == format
      ensures tokenCount == tokensSeen == windowStart == revision == 0 &&
        View() == Empty(maxTokens, heads * headDim, format.Compressed())
      ensures |blocks| == |blockTable| == (maxTokens + 255) / 256
      ensures forall i :: 0 <= i < |blockTable| ==> blockTable[i] == firstId + i
      ensures forall i :: 0 <= i < |blocks| ==>
        blocks[i].id == firstId + i && !blocks[i].shared && blocks[i].tokenCount == blocks[i].revision == 0
      ensures forall i :: 0 <= i < |blocks| ==>
        blocks[i] == NewBlock(firstId + i, Capacity(maxTokens, i), heads * headDim)
    {
      this.maxTokens, this.heads, this.headDim, this.format := maxTokens, heads, headDim, format;
      tokenCount, tokensSeen, windowStart, revision := 0, 0, 0, 0;
      var len := heads * headDim;
      var bs, table := NewBlocks(maxTokens, len, firstId);
      blocks, blockTable := bs, table;
      runs := [];
      keyStage, valueStage := Zeros(maxTokens * len), Zeros(maxTokens * len);
      keyView, valueView := None, None;
      int8 := if format.Int8? then Some(Nones(|bs|)) else None;
      quantized := if format.AsymmetricVq? then Some(Nones(|bs|)) else None;
      new;
      hide StoresOk, BlocksFit, HoldsRows, NewBlock;
      assert len > 0 by { MulMonotone(1, heads, headDim); }
      StoresStart(int8, quantized, format, bs, table, maxTokens, len);
      NothingShown(bs, table, maxTokens, len);
      assert StagesOk(keyStage, valueStage, [], maxTokens,
                      len) by { StagesEmpty(keyStage, valueStage, maxTokens, len); }
    }

    /** Creation with the checks on shape and format. */
    static method New(maxTokens: nat, heads: nat, headDim: nat, format: Format, firstId: nat)
      returns (r: Outcome<LayerKvCache>)
      ensures maxTokens == 0 || heads == 0 || headDim == 0 ==> r == Err(InvalidShape)
      ensures maxTokens > 0 && heads > 0 && headDim > 0 && format.F16? ==> r == Err(UnsupportedFormat)
      ensures r.Ok? <==> maxTokens > 0 && heads > 0 && headDim > 0 && !format.F16?
      ensures r.Ok? ==>
        var c := r.value;
        && fresh(c) && c.Valid() && c.IdsBelow(firstId + NumBlocks(maxTokens)) && c.windowStart == 0
        && c.maxTokens == maxTokens && c.heads == heads && c.headDim == headDim && c.format == format
        && c.View() == Empty(maxTokens, heads * headDim, format.Compressed())
        && (forall i :: 0 <= i < |c.blocks| ==>
            c.blocks[i] == NewBlock(firstId + i, Capacity(maxTokens, i), heads * headDim))
    {
      if maxTokens == 0 || heads == 0 || headDim == 0 {
        return Err(InvalidShape);
      }
      if format.F16? {
        return Err(UnsupportedFormat);
      }
      var c := new LayerKvCache(maxTokens, heads, headDim, format, firstId);
      return Ok(c);
    }

    // -------------------------------------------------------------- writing a token

    /** Puts token `t` in physical slot `p`: the block's next free slot when `appending`, else one in use.
        Forks the block's id if its storage or id is shared, and then renames the block in the table and in
        the runs; refreshes the quantised stores of the block. */
    method WriteBlockToken(p: nat, t: Token, appending: bool, storageShared: bool, nextId: nat)
      requires Valid() && IdsBelow(nextId)
      requires p < maxTokens && (if appending then p == tokenCount else p < tokenCount)
      requires Reject(VectorLen(), format.Compressed(), t).Ok?
      modifies this`blocks, this`blockTable, this`runs, this`int8, this`quantized
      ensures IdsBelow(nextId + 1)
      ensures BlocksFit(blocks, blockTable, if appending then tokenCount + 1 else tokenCount, maxTokens, VectorLen())
      ensures var before := old(Slots(blocks, blockTable, tokenCount, maxTokens, VectorLen()));
              Slots(blocks, blockTable, if appending then tokenCount + 1 else tokenCount, maxTokens, VectorLen()) ==
              if appending then before + [t] else before[p := t]
      ensures runs == Rebuilt(blockTable, windowStart, tokenCount, maxTokens)
      ensures StoresOk(int8, quantized, format, blocks, VectorLen()) &&
        OneWrite(old(blocks), blocks, p, storageShared, nextId)
    {
      hide StagesOk, ViewOk, Slots, Rebuilt, StoresOk, BlocksFit, BlockAppend, BlockWriteAt, FiniteBlock, BlockShape;
      var len := VectorLen();
      var i := p / BLOCK;
      BlockTokenWritten(blocks, blockTable, tokenCount, maxTokens, len, p, t, appending, storageShared, nextId,
                        format.Compressed());
      FitsTable(blocks, blockTable, tokenCount, maxTokens, len);
      StoresAreFinite(int8, quantized, format, blocks, len, i);
      ghost var blocks0 := blocks;
      var b := EnsureExclusive(blocks[i], storageShared, nextId);
      if b.id != blockTable[i] {
        WithIdIsRebuilt(blockTable, windowStart, tokenCount, maxTokens, i, b.id);
        blockTable := blockTable[i := b.id];
        runs := RefreshedRuns(runs, i, b.id);
      }
      assert blockTable == old(blockTable)[i := b.id];
      var written := if appending then BlockAppend(b, len, t) else BlockWriteAt(b, len, p % BLOCK, t);
      blocks := blocks[i := written.value];
      RefreshStores(i, written.value, blocks0);
    }

    /** Requantises block `i` for whichever stores the format has. */
    method RefreshStores(i: nat, b: CacheBlock, ghost blocks0: seq<CacheBlock>)
      requires StoresOk(int8, quantized, format, blocks0, VectorLen()) && i < |blocks0| && blocks == blocks0[i := b]
      requires BlockShape(b, VectorLen()) && b.tokenCount > 0 && (format.Compressed() ==> FiniteBlock(b, VectorLen()))
      modifies this`int8, this`quantized
      ensures StoresOk(int8, quantized, format, blocks, VectorLen())
    {
      ghost var int80, quantized0 := int8, quantized;
      if int8.Some? {
        var q := QuantizedInt8(b, VectorLen());
        int8 := Some(int8.value[i := Some(q.value)]);
      }
      if quantized.Some? {
        var q := QuantizedValues(format.bits, b, VectorLen());
        quantized := Some(quantized.value[i := Some(q.value)]);
      }
      StoresRefreshed(int80, quantized0, int8, quantized, format, blocks0, VectorLen(), i, b);
    }

    method WriteStageToken(p: nat, t: Token, ghost slots: seq<Token>)
      requires StagesOk(keyStage, valueStage, slots, maxTokens, VectorLen()) && p < maxTokens && p <= |slots|
      requires |t.key| == VectorLen() && |t.value| == VectorLen()
      modifies this`keyStage, this`valueStage, this`keyView, this`valueView
      ensures keyView == None && valueView == None
      ensures StagesOk(keyStage, valueStage, if p < |slots| then slots[p := t] else slots + [t], maxTokens, VectorLen())
    {
      hide HoldsRows;
      StagesWritten(keyStage, valueStage, slots, maxTokens, VectorLen(), p, t);
      keyStage := PutRow(keyStage, VectorLen(), p, t.key);
      valueStage := PutRow(valueStage, VectorLen(), p, t.value);
      keyView, valueView := None, None;
    }

    /** Appends after the newest token; the window is not full, so it starts at slot 0. */
    method AppendAtEnd(t: Token, storageShared: bool, nextId: nat) returns (r: Appended)
      requires Valid() && IdsBelow(nextId) && tokenCount < maxTokens
      requires Reject(VectorLen(), format.Compressed(), t).Ok?
      modifies this
      ensures Valid() && IdsBelow(nextId + 1) && View() == Push(old(View()), t)
      ensures r == Appended(old(tokenCount), old(tokenCount), tokenCount, tokensSeen, revision)
      ensures windowStart == old(windowStart) && OneWrite(old(blocks), blocks, old(tokenCount), storageShared, nextId)
    {
      hide StagesOk, StoresOk, BlocksFit, Slots, Extend, HoldsRows, OneWrite;
      ghost var slots := Slots(blocks, blockTable, tokenCount, maxTokens, VectorLen());
      var p := tokenCount;
      WriteBlockToken(p, t, true, storageShared, nextId);
      WriteStageToken(p, t, slots);
      FitsTable(blocks, blockTable, tokenCount + 1, maxTokens, VectorLen());
      SlotOfFirst(p, maxTokens);
      runs := Extend(runs, blockTable, p, p);
      tokenCount := tokenCount + 1;
      tokensSeen := tokensSeen + 1;
      revision := revision + 1;
      r := Appended(p, p, tokenCount, tokensSeen, revision);
      assert Rotate(slots + [t], 0) == Rotate(slots, 0) + [t];
    }

    /** Overwrites the oldest token and moves the window by one slot. */
    method Overwrite(t: Token, storageShared: bool, nextId: nat) returns (r: Appended)
      requires Valid() && IdsBelow(nextId) && tokenCount == maxTokens
      requires Reject(VectorLen(), format.Compressed(), t).Ok?
      modifies this
      ensures Valid() && IdsBelow(nextId + 1) && old(View()).rows != []
      ensures View() == Push(old(View()).(rows := old(View()).rows[1..]), t)
      ensures r == Appended(maxTokens - 1, old(windowStart), tokenCount, tokensSeen, revision)
      ensures OneWrite(old(blocks), blocks, old(windowStart), storageShared, nextId)
      ensures windowStart == if old(windowStart) + 1 == maxTokens then 0 else old(windowStart) + 1
    {
      hide OneWrite, StagesOk, StoresOk, BlocksFit, Slots, HoldsRows, Rebuilt, Rotate, DropOldest, Extend;
      ghost var slots := Slots(blocks, blockTable, tokenCount, maxTokens, VectorLen());
      var p := windowStart;
      WriteBlockToken(p, t, false, storageShared, nextId);
      WriteStageToken(p, t, slots);
      FitsTable(blocks, blockTable, tokenCount, maxTokens, VectorLen());
      SlideRuns(blockTable, p, maxTokens);
      runs := WithoutOldest(runs);
      runs := Extend(runs, blockTable, maxTokens - 1, p);
      windowStart := (windowStart + 1) % maxTokens;
      tokensSeen := tokensSeen + 1;
      revision := revision + 1;
      r := Appended(maxTokens - 1, p, tokenCount, tokensSeen, revision);
      RotateOverwrite(slots, p, t);
      RingNext(p, maxTokens);
    }

    method Append(key: Vec, value: Vec, storageShared: bool, nextId: nat) returns (r: Outcome<Appended>)
      requires Valid() && IdsBelow(nextId)
      modifies this
      ensures Valid() && IdsBelow(nextId + 1)
      ensures View() == TokenWindow.Append(old(View()), Token(key, value)).0
      ensures Reports(r, TokenWindow.Append(old(View()), Token(key, value)).1, old(tokenCount))
      ensures |key| != VectorLen() ==> r == Err(ShapeMismatch(VectorLen(), |key|))
      ensures |key| == VectorLen() && |value| != VectorLen() ==> r == Err(ShapeMismatch(VectorLen(), |value|))
      ensures |key| == |value| == VectorLen() && (format.Int8? || format.AsymmetricVq?) ==>
        (AllFinite(key) && AllFinite(value)) || r == Err(NonFiniteValue)
      ensures var sound := |key| == |value| == VectorLen() &&
                           (format.Int8? || format.AsymmetricVq? ==> AllFinite(key) && AllFinite(value));
              && (sound && old(tokenCount) == maxTokens ==> r == Err(CapacityExceeded(1, 0)))
              && (sound && old(tokenCount) < maxTokens ==>
                    r == Ok(Appended(old(tokenCount), old(tokenCount), old(tokenCount) + 1, old(tokensSeen) + 1,
                                     old(revision) + 1)))
      ensures windowStart == old(windowStart)
      ensures r.Err? ==> unchanged(this)
      ensures r.Ok? ==> OneWrite(old(blocks), blocks, r.value.physicalIndex, storageShared, nextId)
    {
      hide OneWrite, StagesOk, StoresOk, BlocksFit, Slots, Rebuilt, ViewOk;
      var t := Token(key, value);
      var check := Reject(VectorLen(), format.Compressed(), t);
      if check.Err? {
        return Err(check.error);
      }
      if tokenCount == maxTokens {
        return Err(CapacityExceeded(1, 0));
      }
      var a := AppendAtEnd(t, storageShared, nextId);
      return Ok(a);
    }

    method AppendSliding(key: Vec, value: Vec, storageShared: bool, nextId: nat) returns (r: Outcome<Appended>)
      requires Valid() && IdsBelow(nextId)
      modifies this
      ensures Valid() && IdsBelow(nextId + 1)
      ensures View() == TokenWindow.AppendSliding(old(View()), Token(key, value)).0
      ensures Reports(r, TokenWindow.AppendSliding(old(View()), Token(key, value)).1,
                      if old(tokenCount) < maxTokens then old(tokenCount) else old(windowStart))
      ensures |key| != VectorLen() ==> r == Err(ShapeMismatch(VectorLen(), |key|))
      ensures |key| == VectorLen() && |value| != VectorLen() ==> r == Err(ShapeMismatch(VectorLen(), |value|))
      ensures |key| == |value| == VectorLen() && (format.Int8? || format.AsymmetricVq?) ==>
        (AllFinite(key) && AllFinite(value)) || r == Err(NonFiniteValue)
      ensures var sound := |key| == |value| == VectorLen() &&
                           (format.Int8? || format.AsymmetricVq? ==> AllFinite(key) && AllFinite(value));
              && (sound && old(tokenCount) < maxTokens ==>
                    r == Ok(Appended(old(tokenCount), old(tokenCount), old(tokenCount) + 1, old(tokensSeen) + 1,
                                     old(revision) + 1)))
              && (sound && old(tokenCount) == maxTokens ==>
                    && r == Ok(Appended(maxTokens - 1, old(windowStart), maxTokens, old(tokensSeen) + 1,
                                        old(revision) + 1))
                    && windowStart == if old(windowStart) + 1 == maxTokens then 0 else old(windowStart) + 1)
      ensures r.Err? ==> unchanged(this)
      ensures r.Ok? ==> OneWrite(old(blocks), blocks, r.value.physicalIndex, storageShared, nextId)
    {
      hide OneWrite, StagesOk, StoresOk, BlocksFit, Slots, Rebuilt, ViewOk;
      var t := Token(key, value);
      var check := Reject(VectorLen(), format.Compressed(), t);
      if check.Err? {
        return Err(check.error);
      }
      var a;
      if tokenCount < maxTokens {
        a := AppendAtEnd(t, storageShared, nextId);
      } else {
        a := Overwrite(t, storageShared, nextId);
      }
      return Ok(a);
    }

    /** The report of an append: the specified index or error, the physical slot, and the new counters. */
    ghost predicate Reports(r: Outcome<Appended>, spec: Outcome<nat>, physical: nat)
      reads this
    {
      match spec
      case Ok(index) => r == Ok(Appended(index, physical, tokenCount, tokensSeen, revision))
      case Err(e) => r == Err(e)
    }

    /** Empties the cache; `sharedBlocks` are the blocks whose storage has another holder. */
    method Clear(sharedBlocks: set<nat>)
      requires Valid()
      modifies this
      ensures Valid() && View() == TokenWindow.Clear(old(View()))
      ensures blockTable == old(blockTable) && runs == [] && |blocks| == |old(blocks)|
      ensures tokenCount == tokensSeen == windowStart == 0 && revision == old(revision) + 1
      ensures forall k :: 0 <= k < |blocks| ==> IsCleared(blocks[k], old(blocks)[k], k in sharedBlocks)
      ensures Blank(keyStage) && Blank(valueStage)
    {
      hide IsCleared, Blank, StoresOk, StagesOk, BlocksFit, Slots, Rotate, Rebuilt;
      ghost var slots := Slots(blocks, blockTable, tokenCount, maxTokens, VectorLen());
      EmptyBlocks(sharedBlocks);
      EmptyStages(slots);
      NothingShown(blocks, blockTable, maxTokens, VectorLen());
      tokenCount, tokensSeen, windowStart := 0, 0, 0;
      runs := [];
      revision := revision + 1;
    }

    method EmptyBlocks(sharedBlocks: set<nat>)
      requires Valid()
      modifies this`blocks, this`int8, this`quantized
      ensures BlocksFit(blocks, blockTable, 0, maxTokens, VectorLen()) &&
        StoresOk(int8, quantized, format, blocks, VectorLen())
      ensures |blocks| == |old(blocks)| && forall k :: 0 <= k < |blocks| ==>
        IsCleared(blocks[k], old(blocks)[k], k in sharedBlocks)
    {
      hide StoresOk, StagesOk, BlocksFit, BlocksShaped, Slots, BlockClear, Rebuilt, IsCleared;
      var cleared := ClearedBlocks(blocks, sharedBlocks);
      BlocksCleared(blocks, cleared, sharedBlocks, blockTable, tokenCount, maxTokens, VectorLen());
      var noValues := if quantized.Some? then Some(Nones(|quantized.value|)) else None;
      var noInt8 := if int8.Some? then Some(Nones(|int8.value|)) else None;
      StoresEmptied(int8, quantized, noInt8, noValues, format, blocks, cleared, VectorLen());
      blocks, int8, quantized := cleared, noInt8, noValues;
    }

    method EmptyStages(ghost slots: seq<Token>)
      requires StagesOk(keyStage, valueStage, slots, maxTokens, VectorLen())
      modifies this`keyStage, this`valueStage, this`keyView, this`valueView
      ensures keyView == None && valueView == None && StagesOk(keyStage, valueStage, [], maxTokens, VectorLen())
      ensures Blank(keyStage) && Blank(valueStage)
    {
      keyStage, valueStage := Zeros(|keyStage|), Zeros(|valueStage|);
      keyView, valueView := None, None;
    }

    // -------------------------------------------------------------- reading

    /** Row `i` of the window through the block table, as `key` and `value` look it up. */
    function Row(i: nat): (r: Option<Token>)
      requires Valid()
      reads this
      ensures r == if i < tokenCount then Some(View().rows[i]) else None
    {
      if i >= tokenCount then None
      else
        RowFound(blocks, blockTable, tokenCount, maxTokens, VectorLen(), windowStart, i);
        var p := Slot(windowStart, i, maxTokens);
        // the source's checks for a missing or stale block table entry, which never fire
        assert p / BLOCK < |blockTable| == |blocks| && blocks[p / BLOCK].id == blockTable[p / BLOCK];
        BlockToken(blocks[p / BLOCK], VectorLen(), p % BLOCK)
    }

    /** The flat keys of the window; a wrapped view is built once and then reused until the next write. */
    method Keys() returns (v: Vec)
      requires Valid()
      modifies this`keyView
      ensures Valid() && View() == old(View()) && IsFlat(v, KeysOf(View().rows), VectorLen())
      ensures v == Flat(KeysOf(View().rows))
    {
      hide StoresOk, Rebuilt, BlocksFit, HoldsRows, Rotate, IsFlat, Flat;
      ghost var slots := Slots(blocks, blockTable, tokenCount, maxTokens, VectorLen());
      hide Slots;
      StageViewIsFlat(keyStage, KeysOf(slots), windowStart, maxTokens, VectorLen());
      RotateCols(slots, windowStart);
      ViewBounds(windowStart, tokenCount, maxTokens, VectorLen());
      if tokenCount <= maxTokens - windowStart {
        v := keyStage[windowStart * VectorLen()..windowStart * VectorLen() + tokenCount * VectorLen()];
      } else {
        if keyView.None? {
          keyView := Some(StageView(keyStage, windowStart, tokenCount, maxTokens, VectorLen()));
        }
        v := keyView.value;
      }
      FlatIsConcatenation(v, KeysOf(View().rows), VectorLen());
    }

    method Values() returns (v: Vec)
      requires Valid()
      modifies this`valueView
      ensures Valid() && View() == old(View()) && IsFlat(v, ValuesOf(View().rows), VectorLen())
      ensures v == Flat(ValuesOf(View().rows))
    {
      hide StoresOk, Rebuilt, BlocksFit, HoldsRows, Rotate, IsFlat, Flat;
      ghost var slots := Slots(blocks, blockTable, tokenCount, maxTokens, VectorLen());
      hide Slots;
      StageViewIsFlat(valueStage, ValuesOf(slots), windowStart, maxTokens, VectorLen());
      RotateCols(slots, windowStart);
      ViewBounds(windowStart, tokenCount, maxTokens, VectorLen());
      if tokenCount <= maxTokens - windowStart {
        v := valueStage[windowStart * VectorLen()..windowStart * VectorLen() + tokenCount * VectorLen()];
      } else {
        if valueView.None? {
          valueView := Some(StageView(valueStage, windowStart, tokenCount, maxTokens, VectorLen()));
        }
        v := valueView.value;
      }
      FlatIsConcatenation(v, ValuesOf(View().rows), VectorLen());
    }

    /** The active runs with their storage. Never refused; together they are the window, in order. */
    method ActiveBlocks() returns (r: Outcome<seq<ActiveBlock>>)
      requires Valid()
      ensures r.Ok? && |r.value| == |runs| <= |blocks| + 1 && Partitions(runs, tokenCount)
      ensures forall k :: 0 <= k < |runs| ==>
        r.value[k].run == runs[k] && ShowsRows(r.value[k], View().rows, VectorLen())
    {
      hide StagesOk, StoresOk, ViewOk, BlocksFit, Slots, Rebuilt, Rotate, ShowsRows, Partitions;
      FitsTable(blocks, blockTable, tokenCount, maxTokens, VectorLen());
      RunCount(blockTable, windowStart, tokenCount, maxTokens);
      RebuiltCovers(blockTable, windowStart, tokenCount, maxTokens);
      var active: seq<ActiveBlock> := [];
      for k := 0 to |runs|
        invariant |active| == k
        invariant forall j :: 0 <= j < k ==> active[j].run == runs[j] && ShowsRows(active[j], View().rows, VectorLen())
      {
        var run := runs[k];
        RunShown(blocks, blockTable, tokenCount, maxTokens, VectorLen(), windowStart, k);
        // the source's checks for a missing or renamed block, which never fire
        assert run.blockIndex < |blockTable| == |blocks|;
        assert blockTable[run.blockIndex] == run.blockId == blocks[run.blockIndex].id;
        active := active + [ActiveBlock(run, blocks[run.blockIndex])];
      }
      return Ok(active);
    }
  }

  /** Removes the oldest token of the run list and renumbers the rest. */
  method WithoutOldest(runs: seq<BlockRun>) returns (r: seq<BlockRun>)
    requires runs != [] && runs[0].count > 0
    ensures r == DropOldest(runs)
  {
    var first := runs[0];
    var kept := if first.count == 1 then runs[1..]
                else runs[0 := first.(physicalStart := first.physicalStart + 1, blockStart := first.blockStart + 1,
                                      count := first.count - 1)];
    r := kept;
    for k := 0 to |kept|
      invariant |r| == |kept|
      invariant forall j :: 0 <= j < k ==> r[j] == Earlier(kept[j])
      invariant forall j :: k <= j < |kept| ==> r[j] == kept[j]
    {
      r := r[k := Earlier(r[k])];
    }
  }

  /** Sliding by one keeps the run list rebuildable. */
  lemma SlideRuns(table: seq<nat>, start: nat, max: nat)
    requires |table| == NumBlocks(max) && start < max
    ensures var runs := Rebuilt(table, start, max, max);
            && runs != [] && runs[0].count > 0 && (start + 1) % max < max
            && Extend(DropOldest(runs), table, max - 1, start) == Rebuilt(table, (start + 1) % max, max, max)
  {
    hide DropOldest, Extend, NumBlocks;
    DropOldestIsRebuilt(table, start, max, max);
    NextSlot(start, max, max);
    SlotWraps(start, max, max);
    assert Slot(start, 1, max) == (start + 1) % max;
  }

  lemma SlotOfFirst(p: nat, max: nat)
    requires p < max
    ensures Slot(0, p, max) == p
  {
    SlotWraps(0, p, max);
  }

  /** An emptied block keeps its id and place, and is marked exactly if its storage had another holder. */
  ghost predicate IsCleared(after: CacheBlock, before: CacheBlock, storageShared: bool) {
    && after.id == before.id && after.capacity == before.capacity && after.tokenCount == 0
    && after.shared == storageShared && after.revision == before.revision + 1
    && |after.keys| == |before.keys| && |after.values| == |before.values| && Blank(after.keys) && Blank(after.values)
  }

  /** Nothing but zeros. */
  ghost predicate Blank(v: Vec) {
    forall i :: 0 <= i < |v| ==> v[i] == Finite(0.0)
  }

  method ClearedBlocks(blocks: seq<CacheBlock>, sharedBlocks: set<nat>) returns (r: seq<CacheBlock>)
    ensures |r| == |blocks| && forall k :: 0 <= k < |blocks| ==> r[k] == BlockClear(blocks[k], k in sharedBlocks)
    ensures forall k :: 0 <= k < |blocks| ==> IsCleared(r[k], blocks[k], k in sharedBlocks)
  {
    r := blocks;
    for i := 0 to |blocks|
      invariant |r| == |blocks|
      invariant forall k :: 0 <= k < i ==> r[k] == BlockClear(blocks[k], k in sharedBlocks)
      invariant forall k :: i <= k < |blocks| ==> r[k] == blocks[k]
    {
      r := r[i := BlockClear(r[i], i in sharedBlocks)];
    }
  }

  lemma BlocksCleared(before: seq<CacheBlock>, after: seq<CacheBlock>, sharedBlocks: set<nat>, table: seq<nat>, n: nat,
                      max: nat, len: nat)
    requires BlocksFit(before, table, n, max, len) && |after| == |before|
    requires forall k :: 0 <= k < |before| ==> after[k] == BlockClear(before[k], k in sharedBlocks)
    ensures BlocksFit(after, table, 0, max, len) && BlocksShaped(after, len)
    ensures forall k :: 0 <= k < |after| ==> after[k].tokenCount == 0
  {
    forall k | 0 <= k < |after| ensures BlockFits(after[k], table[k], 0, max, len, k) {
      assert BlockFits(before[k], table[k], n, max, len, k);
    }
  }

  function Nones<T>(n: nat): (r: seq<Option<T>>)
    ensures |r| == n && forall i :: 0 <= i < n ==> r[i] == None
  {
    seq(n, _ => None)
  }

  lemma StoresEmptied(int8: Option<seq<Option<Int8Block>>>, quantized: Option<seq<Option<QuantizedBlock>>>,
                      int8': Option<seq<Option<Int8Block>>>, quantized': Option<seq<Option<QuantizedBlock>>>,
                      format: Format, before: seq<CacheBlock>, after: seq<CacheBlock>, len: nat)
    requires StoresOk(int8, quantized, format, before, len) && |after| == |before| && BlocksShaped(after, len)
    requires forall k :: 0 <= k < |after| ==> after[k].tokenCount == 0
    requires int8' == if int8.Some? then Some(Nones(|int8.value|)) else None
    requires quantized' == if quantized.Some? then Some(Nones(|quantized.value|)) else None
    ensures StoresOk(int8', quantized', format, after, len)
  {
    forall k | 0 <= k < |after| ensures FiniteBlock(after[k], len) {
      assert BlockShape(after[k], len) && after[k].tokenCount == 0;
    }
  }

  lemma NothingShown(blocks: seq<CacheBlock>, table: seq<nat>, max: nat, len: nat)
    requires BlocksFit(blocks, table, 0, max, len) && max > 0
    ensures Slots(blocks, table, 0, max, len) == [] && Rotate([], 0) == []
    ensures |table| == NumBlocks(max) && Rebuilt(table, 0, 0, max) == []
  {
  }

  lemma StagesEmpty(ks: Vec, vs: Vec, max: nat, len: nat)
    requires |ks| == max * len && |vs| == max * len
    ensures StagesOk(ks, vs, [], max, len)
  {
  }

  method NewBlocks(max: nat, len: nat, firstId: nat) returns (blocks: seq<CacheBlock>, table: seq<nat>)
    ensures BlocksFit(blocks, table, 0, max, len)
    ensures forall i :: 0 <= i < |blocks| ==> blocks[i] == NewBlock(firstId + i, Capacity(max, i), len)
    ensures forall i :: 0 <= i < |table| ==> table[i] == firstId + i
  {
    blocks, table := [], [];
    var remaining := max;
    while remaining > 0
      invariant 0 <= remaining <= max && |blocks| == |table| <= NumBlocks(max)
      invariant remaining == if max <= |blocks| * BLOCK then 0 else max - |blocks| * BLOCK
      invariant remaining > 0 ==> |blocks| < NumBlocks(max)
      invariant remaining == 0 ==> |blocks| == NumBlocks(max)
      invariant forall i :: 0 <= i < |blocks| ==> blocks[i] == NewBlock(firstId + i, Capacity(max, i), len)
      invariant forall i :: 0 <= i < |table| ==> table[i] == firstId + i
    {
      var capacity := if remaining < BLOCK then remaining else BLOCK;
      assert capacity == Capacity(max, |blocks|);
      blocks := blocks + [NewBlock(firstId + |blocks|, capacity, len)];
      table := table + [firstId + |table|];
      remaining := remaining - capacity;
    }
  }

  lemma StoresStart(int8: Option<seq<Option<Int8Block>>>, quantized: Option<seq<Option<QuantizedBlock>>>,
                    format: Format, blocks: seq<CacheBlock>, table: seq<nat>, max: nat, len: nat)
    requires BlocksFit(blocks, table, 0, max, len) && len > 0
    requires int8 == if format.Int8? then Some(Nones(|blocks|)) else None
    requires quantized == if format.AsymmetricVq? then Some(Nones(|blocks|)) else None
    ensures StoresOk(int8, quantized, format, blocks, len)
  {
    FitsAreShaped(blocks, table, 0, max, len);
    forall k | 0 <= k < |blocks| ensures blocks[k].tokenCount == 0 && FiniteBlock(blocks[k], len) {
      assert BlockFits(blocks[k], table[k], 0, max, len, k);
    }
  }

  method RefreshedRuns(runs: seq<BlockRun>, i: nat, id: nat) returns (r: seq<BlockRun>)
    ensures r == WithId(runs, i, id)
  {
    r := runs;
    for k := 0 to |runs|
      invariant |r| == |runs|
      invariant forall j :: 0 <= j < k ==> r[j] == WithId(runs, i, id)[j]
      invariant forall j :: k <= j < |runs| ==> r[j] == runs[j]
    {
      if r[k].blockIndex == i {
        r := r[k := r[k].(blockId := id)];
      }
    }
  }
}
