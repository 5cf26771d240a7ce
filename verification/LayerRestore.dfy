/** Snapshots of a layer cache, caches rebuilt from them, and runs of calls. */
module LayerRestore {
  import opened Common
  import opened TokenWindow
  import opened Geometry
  import opened Rows
  import opened BlockRuns
  import opened BitPacking
  import opened Quantize
  import opened LayerState
  import opened Layer

  // ---------------------------------------------------------------- snapshots

  /** A state of the cache without its identity: the rows in use, flat, and the counters. */
  datatype Snapshot = Snapshot(revision: nat, format: Format, maxTokens: nat, heads: nat, headDim: nat,
                               tokenCount: nat, tokensSeen: nat, keys: Vec, values: Vec)
  {
    function Len(): nat {
      heads * headDim
    }

    ghost predicate Sized() {
      |keys| == tokenCount * Len() && |values| == tokenCount * Len()
    }

    function TokenAt(i: nat): Token
      requires Sized() && i < tokenCount
    {
      RowFits(i, tokenCount, Len());
      Token(RowAt(keys, Len(), i), RowAt(values, Len(), i))
    }

    ghost function Tokens(): (s: seq<Token>)
      requires Sized()
      ensures |s| == tokenCount
    {
      seq(tokenCount, i requires 0 <= i < tokenCount => TokenAt(i))
    }

    /** The window the snapshot describes. */
    ghost function View(): Window
      requires Sized()
    {
      Window(maxTokens, Len(), format.Compressed(), Tokens(), tokensSeen, revision)
    }

    /** The checks of a restore, in the order they are made. */
    ghost function Check(): Outcome<()> {
      if tokenCount > maxTokens || tokensSeen < tokenCount then Err(InvalidShape)
      else if maxTokens == 0 || heads == 0 || headDim == 0 then Err(InvalidShape)
      else if format.F16? then Err(UnsupportedFormat)
      else if |keys| != tokenCount * Len() then Err(ShapeMismatch(tokenCount * Len(), |keys|))
      else if |values| != tokenCount * Len() then Err(ShapeMismatch(tokenCount * Len(), |values|))
      else if !Accepted(tokenCount) then Err(NonFiniteValue)
      else Ok(())
    }

    ghost predicate Accepted(n: nat)
      requires Sized() && n <= tokenCount
    {
      forall i :: 0 <= i < n ==> Reject(Len(), format.Compressed(), TokenAt(i)).Ok?
    }
  }

  method TakeSnapshot(c: LayerKvCache) returns (s: Snapshot)
    requires c.Valid()
    modifies c`keyView, c`valueView
    ensures c.Valid() && c.View() == old(c.View())
    ensures s.Sized() && s.View() == c.View() && s.Check().Ok? && s.format == c.format && s.tokenCount == c.tokenCount
  {
    hide StagesOk, BlocksFit, StoresOk, Rebuilt, ViewOk, Slots;
    var keys := c.Keys();
    var values := c.Values();
    s := Snapshot(c.revision, c.format, c.maxTokens, c.heads, c.headDim, c.tokenCount, c.tokensSeen, keys, values);
    FlatTokens(s, c.View().rows);
    assert s.heads > 0 && s.headDim > 0 by { PositiveFactors(s.heads, s.headDim); }
    RowsAccepted(c);
    assert s.Accepted(s.tokenCount) by {
      forall i | 0 <= i < s.tokenCount ensures Reject(s.Len(), s.format.Compressed(), s.TokenAt(i)).Ok? {
        assert s.TokenAt(i) == s.Tokens()[i] == c.View().rows[i];
      }
    }
  }

  lemma FlatTokens(s: Snapshot, rows: seq<Token>)
    requires s.tokenCount == |rows|
    requires IsFlat(s.keys, KeysOf(rows), s.Len()) && IsFlat(s.values, ValuesOf(rows), s.Len())
    ensures s.Sized() && s.Tokens() == rows
  {
    forall i | 0 <= i < |rows| ensures s.TokenAt(i) == rows[i] {
      RowFits(i, s.tokenCount, s.Len());
      assert RowAt(s.keys, s.Len(), i) == KeysOf(rows)[i];
      assert RowAt(s.values, s.Len(), i) == ValuesOf(rows)[i];
    }
  }

  /** Every row of a valid cache would be accepted again. */
  lemma RowsAccepted(c: LayerKvCache)
    requires c.Valid()
    ensures forall i :: 0 <= i < |c.View().rows| ==> Reject(c.VectorLen(), c.format.Compressed(), c.View().rows[i]).Ok?
  {
    hide StagesOk, Rebuilt, ViewOk, Slots;
    var slots := Slots(c.blocks, c.blockTable, c.tokenCount, c.maxTokens, c.VectorLen());
    forall p | 0 <= p < |slots| ensures Reject(c.VectorLen(), c.format.Compressed(), slots[p]).Ok? {
      SlotAccepted(c.int8, c.quantized, c.format, c.blocks, c.blockTable, c.tokenCount, c.maxTokens, c.VectorLen(), p);
    }
  }

  lemma SlotAccepted(int8: Option<seq<Option<Int8Block>>>, quantized: Option<seq<Option<QuantizedBlock>>>,
                     format: Format,
                     blocks: seq<CacheBlock>, table: seq<nat>, n: nat, max: nat, len: nat, p: nat)
    requires BlocksFit(blocks, table, n, max, len) && StoresOk(int8, quantized, format, blocks, len) && p < n
    ensures Reject(len, format.Compressed(), Slots(blocks, table, n, max, len)[p]).Ok?
  {
    var i, j := p / BLOCK, p % BLOCK;
    StoresAreFinite(int8, quantized, format, blocks, len, i);
    hide StoresOk, FiniteBlock, AllFinite;
    assert BlockFits(blocks[i], table[i], n, max, len, i);
    RowFits(j, blocks[i].capacity, len);
    assert Slots(blocks, table, n, max, len)[p] ==
      Token(RowAt(blocks[i].keys, len, j), RowAt(blocks[i].values, len, j));
    if format.Compressed() { FiniteRow(blocks[i], len, j); }
  }

  lemma FiniteRow(b: CacheBlock, len: nat, j: nat)
    requires BlockShape(b, len) && FiniteBlock(b, len) && j < b.tokenCount
    ensures j * len + len <= |b.keys| == |b.values|
    ensures AllFinite(RowAt(b.keys, len, j)) && AllFinite(RowAt(b.values, len, j))
  {
    RowFits(j, b.tokenCount, len);
    RowFits(j, b.capacity, len);
    FinitePart(b.keys, b.tokenCount * len, j * len, len);
    FinitePart(b.values, b.tokenCount * len, j * len, len);
  }

  lemma FinitePart(v: Vec, used: nat, at: nat, len: nat)
    requires used <= |v| && AllFinite(v[..used]) && at + len <= used
    ensures AllFinite(v[at..at + len])
  {
    var part := v[at..at + len];
    forall k | 0 <= k < len ensures part[k].Finite? {
      assert part[k] == v[..used][at + k];
    }
  }

  method FromSnapshot(s: Snapshot, firstId: nat) returns (r: Outcome<LayerKvCache>)
    ensures r.Ok? <==> s.Check().Ok?
    ensures r.Err? ==> r.error == s.Check().error
    ensures r.Ok? ==>
      var c := r.value;
      && fresh(c) && c.Valid() && c.format == s.format && s.Sized() && c.View() == s.View()
      && c.windowStart == 0 && c.IdsBelow(firstId + NumBlocks(s.maxTokens) + s.tokenCount)
  {
    if s.tokenCount > s.maxTokens || s.tokensSeen < s.tokenCount {
      return Err(InvalidShape);
    }
    var created := LayerKvCache.New(s.maxTokens, s.heads, s.headDim, s.format, firstId);
    if created.Err? {
      return Err(created.error);
    }
    var c := created.value;
    var len := s.heads * s.headDim;
    ProductIsNat(s.tokenCount, len);
    var used := s.tokenCount * len;
    if |s.keys| != used {
      return Err(ShapeMismatch(used, |s.keys|));
    }
    if |s.values| != used {
      return Err(ShapeMismatch(used, |s.values|));
    }
    hide StagesOk, StoresOk, BlocksFit, Slots, Rebuilt, ViewOk, Rotate;
    var appended := AppendRows(c, s, firstId + NumBlocks(s.maxTokens));
    if appended.Err? {
      return Err(appended.error);
    }
    SetCounters(c, s.revision, s.tokensSeen);
    return Ok(c);
  }

  /** The append loop of a restore. */
  method AppendRows(c: LayerKvCache, s: Snapshot, nextId: nat) returns (r: Outcome<()>)
    requires c.Valid() && c.IdsBelow(nextId) && s.Sized() && s.tokenCount <= s.maxTokens
    requires c.View() == Empty(s.maxTokens, s.Len(), s.format.Compressed()) && c.windowStart == 0
    modifies c
    ensures r == if s.Accepted(s.tokenCount) then Ok(()) else Err(NonFiniteValue)
    ensures c.Valid() && c.IdsBelow(nextId + s.tokenCount)
    ensures r.Ok? ==> c.windowStart == 0 && c.View() == s.View().(seen := s.tokenCount, revision := s.tokenCount)
  {
    hide StagesOk, StoresOk, BlocksFit, Slots, Rebuilt, ViewOk, Rotate;
    var i := 0;
    while i < s.tokenCount
      invariant 0 <= i <= s.tokenCount && c.Valid() && c.IdsBelow(nextId + i) && c.windowStart == 0
      invariant s.Accepted(i)
      invariant c.View() == Window(s.maxTokens, s.Len(), s.format.Compressed(), s.Tokens()[..i], i, i)
    {
      var t := s.TokenAt(i);
      ghost var before := c.View();
      var a := c.Append(t.key, t.value, false, nextId + i);
      if a.Err? {
        return Err(a.error);
      }
      assert s.Tokens()[..i + 1] == s.Tokens()[..i] + [t];
      i := i + 1;
    }
    assert s.Tokens()[..s.tokenCount] == s.Tokens();
    return Ok(());
  }

  method SetCounters(c: LayerKvCache, revision: nat, tokensSeen: nat)
    requires c.Valid() && tokensSeen >= c.tokenCount
    modifies c`revision, c`tokensSeen
    ensures c.Valid() && c.View() == old(c.View()).(seen := tokensSeen, revision := revision)
  {
    c.revision := revision;
    c.tokensSeen := tokensSeen;
  }

  // ---------------------------------------------------------------- runs of calls

  /** What else holds a cache's storage when a call is made: the storage of the block about to be written, and
      the blocks, by index, whose storage a clear would find shared. */
  datatype Sharing = Sharing(writeShared: bool, clearShared: set<nat>)

  /** Applies one call to a cache; the report is cut down to the token index. */
  method ApplyTo(c: LayerKvCache, op: CacheOp, sharing: Sharing, nextId: nat) returns (r: Outcome<nat>)
    requires c.Valid() && c.IdsBelow(nextId)
    modifies c
    ensures c.Valid() && c.IdsBelow(nextId + 1) && (c.View(), r) == Apply(old(c.View()), op)
  {
    hide StagesOk, StoresOk, BlocksFit, Slots, Rebuilt, ViewOk;
    match op {
      case OpAppend(t) =>
        var a := c.Append(t.key, t.value, sharing.writeShared, nextId);
        r := if a.Ok? then Ok(a.value.tokenIndex) else Err(a.error);
      case OpSliding(t) =>
        var a := c.AppendSliding(t.key, t.value, sharing.writeShared, nextId);
        r := if a.Ok? then Ok(a.value.tokenIndex) else Err(a.error);
      case OpClear =>
        c.Clear(sharing.clearShared);
        r := Ok(0);
    }
  }

  /** From its creation on, under any calls and however its storage is shared at each, a cache shows exactly the
      last `maxTokens` tokens accepted since the last clear, and has counted all of them. */
  method RunFromNew(maxTokens: nat, heads: nat, headDim: nat, format: Format, firstId: nat, ops: seq<CacheOp>,
                    sharing: seq<Sharing>)
    returns (r: Outcome<LayerKvCache>)
    requires |sharing| == |ops|
    ensures r.Ok? <==> maxTokens > 0 && heads > 0 && headDim > 0 && !format.F16?
    ensures r.Ok? ==>
      var c, start := r.value, Empty(maxTokens, heads * headDim, format.Compressed());
      && fresh(c) && c.Valid() && c.View() == ApplyAll(start, ops)
      && c.View().rows == LastOf(Accepted(start, ops), maxTokens) && c.tokensSeen == |Accepted(start, ops)|
  {
    hide StagesOk, StoresOk, BlocksFit, Slots, Rebuilt, ViewOk, Rotate;
    r := LayerKvCache.New(maxTokens, heads, headDim, format, firstId);
    if r.Err? {
      return;
    }
    var c := r.value;
    ghost var start := Empty(maxTokens, heads * headDim, format.Compressed());
    var next := firstId + NumBlocks(maxTokens);
    for i := 0 to |ops|
      invariant fresh(c) && c.Valid() && c.IdsBelow(next + i) && c.View() == ApplyAll(start, ops[..i])
    {
      var _ := ApplyTo(c, ops[i], sharing[i], next + i);
      assert ops[..i + 1][..i] == ops[..i];
    }
    assert ops[..|ops|] == ops;
    WindowIsLastAccepted(maxTokens, heads * headDim, format.Compressed(), ops);
  }

  /** Restoring a snapshot always succeeds, and from then on the restored cache answers every sequence of
      calls as the original does, with the same rows, next position and revision, although its ring
      starts again at slot 0, and however the storage of either is shared when a call is made. */
  method SnapshotBisimulates(c: LayerKvCache, ops: seq<CacheOp>, forC: seq<Sharing>, forD: seq<Sharing>, firstId: nat)
    returns (d: LayerKvCache, rc: seq<Outcome<nat>>, rd: seq<Outcome<nat>>)
    requires c.Valid() && c.IdsBelow(firstId) && |forC| == |forD| == |ops|
    modifies c
    ensures c.Valid() && fresh(d) && d.Valid() && rc == rd && |rc| == |ops| && d.View() == c.View()
    ensures c.View() == ApplyAll(old(c.View()), ops)
  {
    hide StagesOk, StoresOk, BlocksFit, Slots, Rebuilt, ViewOk, Rotate;
    var s := TakeSnapshot(c);
    var restored := FromSnapshot(s, firstId);
    d := restored.value;
    rc, rd := [], [];
    var next := firstId + NumBlocks(s.maxTokens) + s.tokenCount;
    for i := 0 to |ops|
      invariant |rc| == i && rc == rd && d != c && fresh(d)
      invariant c.Valid() && d.Valid() && d.View() == c.View() && c.IdsBelow(next + 2 * i) && d.IdsBelow(next + 2 * i)
      invariant c.View() == ApplyAll(old(c.View()), ops[..i])
    {
      var a := ApplyTo(c, ops[i], forC[i], next + 2 * i);
      var b := ApplyTo(d, ops[i], forD[i], next + 2 * i + 1);
      rc, rd := rc + [a], rd + [b];
      assert ops[..i + 1][..i] == ops[..i];
    }
    assert ops[..|ops|] == ops;
  }
}
