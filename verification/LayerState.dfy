/** The parts of a layer cache as values, and what each has to agree with. */
module LayerState {
  import opened Common
  import opened TokenWindow
  import opened Geometry
  import opened Rows
  import opened BitPacking
  import opened Quantize

  datatype Format = F32 | F16 | Int8 | AsymmetricVq(bits: Bits) {
    predicate Compressed() {
      Int8? || AsymmetricVq?
    }
  }

  // ---------------------------------------------------------------- one block

  /** A block and its storage: `capacity` key rows and `capacity` value rows, laid out flat. */
  datatype CacheBlock = CacheBlock(id: nat, revision: nat, shared: bool, capacity: nat, tokenCount: nat, keys: Vec,
                                   values: Vec)

  ghost predicate BlockShape(b: CacheBlock, len: nat) {
    b.tokenCount <= b.capacity && |b.keys| == b.capacity * len && |b.values| == b.capacity * len
  }

  function NewBlock(id: nat, capacity: nat, len: nat): CacheBlock {
    CacheBlock(id, 0, false, capacity, 0, Zeros(capacity * len), Zeros(capacity * len))
  }

  /** Takes a fresh id unless this block is known to be the only one with its storage and id. */
  function EnsureExclusive(b: CacheBlock, storageShared: bool, nextId: nat): (r: CacheBlock) {
    if b.shared || storageShared then b.(id := nextId, shared := false) else b
  }

  function WriteRow(b: CacheBlock, len: nat, slot: nat, t: Token): (r: CacheBlock)
    requires BlockShape(b, len) && slot < b.capacity && |t.key| == len && |t.value| == len
    ensures BlockShape(r, len)
  {
    RowFits(slot, b.capacity, len);
    b.(keys := PutRow(b.keys, len, slot, t.key), values := PutRow(b.values, len, slot, t.value),
       revision := b.revision + 1)
  }

  function BlockAppend(b: CacheBlock, len: nat, t: Token): (r: Outcome<CacheBlock>)
    requires BlockShape(b, len) && |t.key| == len && |t.value| == len
  {
    if b.tokenCount == b.capacity then Err(CapacityExceeded(1, 0))
    else Ok(WriteRow(b, len, b.tokenCount, t).(tokenCount := b.tokenCount + 1))
  }

  function BlockWriteAt(b: CacheBlock, len: nat, slot: nat, t: Token): (r: Outcome<CacheBlock>)
    requires BlockShape(b, len) && |t.key| == len && |t.value| == len
  {
    if slot >= b.tokenCount then Err(InvalidShape) else Ok(WriteRow(b, len, slot, t))
  }

  function BlockClear(b: CacheBlock, storageShared: bool): (r: CacheBlock) {
    b.(tokenCount := 0, keys := Zeros(|b.keys|), values := Zeros(|b.values|), shared := storageShared,
       revision := b.revision + 1)
  }

  /** Token `j` of a block, or none beyond its token count. */
  function BlockToken(b: CacheBlock, len: nat, j: nat): (r: Option<Token>)
    requires BlockShape(b, len)
  {
    if j >= b.tokenCount then None
    else
      RowFits(j, b.capacity, len);
      Some(Token(RowAt(b.keys, len, j), RowAt(b.values, len, j)))
  }

  /** The rows in use, flat. */
  function UsedKeys(b: CacheBlock, len: nat): (v: Vec)
    requires BlockShape(b, len)
    ensures |v| == b.tokenCount * len
  {
    MulMonotone(b.tokenCount, b.capacity, len);
    b.keys[..b.tokenCount * len]
  }

  function UsedValues(b: CacheBlock, len: nat): (v: Vec)
    requires BlockShape(b, len)
    ensures |v| == b.tokenCount * len
  {
    MulMonotone(b.tokenCount, b.capacity, len);
    b.values[..b.tokenCount * len]
  }

  // ---------------------------------------------------------------- all blocks

  ghost predicate BlockFits(b: CacheBlock, id: nat, n: nat, max: nat, len: nat, i: nat) {
    && b.id == id && b.capacity == Capacity(max, i) && b.tokenCount == Fill(n, i)
    && |b.keys| == b.capacity * len && |b.values| == b.capacity * len
  }

  /** The blocks cut `max` slots into pieces, of which the first `n` slots are in use. */
  ghost predicate BlocksFit(blocks: seq<CacheBlock>, table: seq<nat>, n: nat, max: nat, len: nat) {
    && n <= max && |blocks| == |table| == NumBlocks(max) && Distinct(table)
    && forall i :: 0 <= i < |blocks| ==> BlockFits(blocks[i], table[i], n, max, len, i)
  }

  /** The token in physical slot `p`. */
  ghost function TokenIn(blocks: seq<CacheBlock>, table: seq<nat>, n: nat, max: nat, len: nat, p: nat): Token
    requires BlocksFit(blocks, table, n, max, len) && p < max
  {
    var b := blocks[p / BLOCK];
    assert BlockFits(b, table[p / BLOCK], n, max, len, p / BLOCK);
    RowFits(p % BLOCK, b.capacity, len);
    Token(RowAt(b.keys, len, p % BLOCK), RowAt(b.values, len, p % BLOCK))
  }

  ghost function Slots(blocks: seq<CacheBlock>, table: seq<nat>, n: nat, max: nat, len: nat): (s: seq<Token>)
    requires BlocksFit(blocks, table, n, max, len)
    ensures |s| == n
  {
    seq(n, p requires 0 <= p < n => TokenIn(blocks, table, n, max, len, p))
  }

  /** Writing slot `p`, the next free one or one in use, with a block id that is kept or new. */
  lemma SlotWritten(blocks: seq<CacheBlock>, table: seq<nat>, n: nat, max: nat, len: nat, p: nat, t: Token,
                    b: CacheBlock, m: nat)
    requires BlocksFit(blocks, table, n, max, len) && p < max && p <= n && |t.key| == len && |t.value| == len
    requires m == if p < n then n else n + 1
    requires var old_ := blocks[p / BLOCK];
             && BlockShape(old_, len) && p % BLOCK < old_.capacity
             && (b.id == old_.id || b.id !in table) && b.capacity == old_.capacity && b.tokenCount == Fill(m, p / BLOCK)
             && b.keys == WriteRow(old_, len, p % BLOCK, t).keys && b.values == WriteRow(old_, len, p % BLOCK, t).values
    ensures var i := p / BLOCK;
            && i < |table| && BlocksFit(blocks[i := b], table[i := b.id], m, max, len)
            && Slots(blocks[i := b], table[i := b.id], m, max, len) ==
               if p < n then Slots(blocks, table, n, max, len)[p := t] else Slots(blocks, table, n, max, len) + [t]
  {
    var i := p / BLOCK;
    var blocks', table' := blocks[i := b], table[i := b.id];
    forall k | 0 <= k < |blocks'| ensures BlockFits(blocks'[k], table'[k], m, max, len, k) {
      assert BlockFits(blocks[k], table[k], n, max, len, k);
    }
    assert table[i] == blocks[i].id by { assert BlockFits(blocks[i], table[i], n, max, len, i); }
    assert BlocksFit(blocks', table', m, max, len);
    forall q | 0 <= q < m
      ensures TokenIn(blocks', table', m, max, len, q) == if q == p then t else TokenIn(blocks, table, n, max, len, q)
    {
      WrittenToken(blocks, table, n, max, len, p, t, b, m, q);
    }
  }

  lemma WrittenToken(blocks: seq<CacheBlock>, table: seq<nat>, n: nat, max: nat, len: nat, p: nat, t: Token,
                     b: CacheBlock, m: nat, q: nat)
    requires BlocksFit(blocks, table, n, max, len) && p < max && |t.key| == len && |t.value| == len && q < max
    requires var old_ := blocks[p / BLOCK];
             && BlockShape(old_, len) && p % BLOCK < old_.capacity
             && b.keys == WriteRow(old_, len, p % BLOCK, t).keys && b.values == WriteRow(old_, len, p % BLOCK, t).values
    requires p / BLOCK < |table| && BlocksFit(blocks[p / BLOCK := b], table[p / BLOCK := b.id], m, max, len)
    ensures TokenIn(blocks[p / BLOCK := b], table[p / BLOCK := b.id], m, max, len, q)
            == if q == p then t else TokenIn(blocks, table, n, max, len, q)
  {
    hide PutRow, RowAt, Distinct;
    var i := p / BLOCK;
    if q / BLOCK == i {
      var old_ := blocks[i];
      RowFits(p % BLOCK, old_.capacity, len);
      assert BlockFits(old_, table[i], n, max, len, i);
      assert BlockFits(blocks[i := b][i], table[i := b.id][i], m, max, len, i);
      RowFits(q % BLOCK, old_.capacity, len);
      PutRowAt(old_.keys, len, p % BLOCK, t.key, q % BLOCK);
      PutRowAt(old_.values, len, p % BLOCK, t.value, q % BLOCK);
      assert q == i * BLOCK + q % BLOCK && p == i * BLOCK + p % BLOCK;
    }
  }

  // ---------------------------------------------------------------- flat buffers

  function KeysOf(rows: seq<Token>): (c: seq<Vec>)
    ensures |c| == |rows|
  {
    seq(|rows|, i requires 0 <= i < |rows| => rows[i].key)
  }

  function ValuesOf(rows: seq<Token>): (c: seq<Vec>)
    ensures |c| == |rows|
  {
    seq(|rows|, i requires 0 <= i < |rows| => rows[i].value)
  }

  /** The buffer starts with the rows `col`, one after the other. */
  ghost predicate HoldsRows(v: Vec, col: seq<Vec>, len: nat) {
    |col| * len <= |v| && forall i :: 0 <= i < |col| ==> i * len + len <= |v| && RowAt(v, len, i) == col[i]
  }

  /** The buffer is exactly the rows `col`. */
  ghost predicate IsFlat(v: Vec, col: seq<Vec>, len: nat) {
    |v| == |col| * len && HoldsRows(v, col, len)
  }

  /** Rows one after the other. */
  function Flat(col: seq<Vec>): Vec {
    if col == [] then [] else Flat(col[..|col| - 1]) + col[|col| - 1]
  }

  /** A buffer that is exactly the rows is their concatenation. */
  lemma {:induction false} FlatIsConcatenation(v: Vec, col: seq<Vec>, len: nat)
    requires IsFlat(v, col, len)
    ensures v == Flat(col)
  {
    if col != [] {
      var n := |col| - 1;
      LastRow(v, len, |col|);
      forall i | 0 <= i < n ensures i * len + len <= n * len && RowAt(v[..n * len], len, i) == col[..n][i] {
        RowFits(i, n, len);
        RowOfPrefix(v, len, n, i);
      }
      hide RowAt;
      FlatIsConcatenation(v[..n * len], col[..n], len);
    }
  }

  lemma HoldsWritten(v: Vec, col: seq<Vec>, len: nat, max: nat, p: nat, row: Vec)
    requires HoldsRows(v, col, len) && |v| == max * len && |row| == len && p < max && p <= |col| <= max
    ensures p * len + len <= |v|
    ensures HoldsRows(PutRow(v, len, p, row), if p < |col| then col[p := row] else col + [row], len)
  {
    hide PutRow, RowAt;
    RowFits(p, max, len);
    var col' := if p < |col| then col[p := row] else col + [row];
    if p == |col| { MulMonotone(|col| + 1, max, len); }
    forall i | 0 <= i < |col'|
      ensures i * len + len <= |v| && RowAt(PutRow(v, len, p, row), len, i) == col'[i]
    {
      RowFits(i, max, len);
      PutRowAt(v, len, p, row, i);
    }
  }

  function RotateCol(col: seq<Vec>, start: nat): (r: seq<Vec>)
    requires start <= |col|
    ensures |r| == |col|
  {
    col[start..] + col[..start]
  }

  lemma RotateCols(slots: seq<Token>, start: nat)
    requires start <= |slots|
    ensures KeysOf(Rotate(slots, start)) == RotateCol(KeysOf(slots), start)
    ensures ValuesOf(Rotate(slots, start)) == RotateCol(ValuesOf(slots), start)
  {
  }

  /** The contiguous view of a stage: a slice if the window does not wrap, two slices put together if it does. */
  function StageView(stage: Vec, start: nat, n: nat, max: nat, len: nat): (v: Vec)
    requires start < max && n <= max && (n < max ==> start == 0) && |stage| == max * len
  {
    ViewBounds(start, n, max, len);
    if n <= max - start then stage[start * len..start * len + n * len]
    else stage[start * len..start * len + (max - start) * len] + stage[..n * len - (max - start) * len]
  }

  lemma ViewBounds(start: nat, n: nat, max: nat, len: nat)
    requires start < max && n <= max
    ensures start * len + (max - start) * len == max * len && n * len <= max * len
    ensures n <= max - start ==> start * len + n * len <= max * len
    ensures n > max - start ==> n * len - (max - start) * len == (n - (max - start)) * len >= 0
  {
    assert start * len + (max - start) * len == max * len;
    MulMonotone(n, max, len);
    if n <= max - start {
      MulMonotone(n, max - start, len);
    } else {
      assert n * len == (n - (max - start)) * len + (max - start) * len;
    }
  }

  lemma StageViewIsFlat(stage: Vec, col: seq<Vec>, start: nat, max: nat, len: nat)
    requires start < max && |col| <= max && (|col| < max ==> start == 0) && |stage| == max * len &&
      HoldsRows(stage, col, len)
    ensures start <= |col| && IsFlat(StageView(stage, start, |col|, max, len), RotateCol(col, start), len)
  {
    var n := |col|;
    ViewBounds(start, n, max, len);
    var v := StageView(stage, start, n, max, len);
    if n < max || start == 0 {
      assert start == 0;
      assert v == stage[..n * len];
      assert RotateCol(col, 0) == col;
      forall i | 0 <= i < n ensures i * len + len <= |v| && RowAt(v, len, i) == col[i] {
        RowOfPrefix(stage, len, n, i);
      }
    } else {
      var a, b := stage[start * len..], stage[..start * len];
      assert n * len - (max - start) * len == start * len;
      assert v == a + b;
      assert |v| == n * len;
      forall i | 0 <= i < n ensures i * len + len <= |v| && RowAt(v, len, i) == RotateCol(col, start)[i] {
        RowFits(i, n, len);
        RowOfConcat(a, b, len, max - start, i);
        if i < max - start {
          RowFits(start + i, max, len);
          RowOfSuffix(stage, len, start, i);
        } else {
          RowFits(i - (max - start), start, len);
          RowOfPrefix(stage, len, start, i - (max - start));
        }
      }
    }
  }

  // ---------------------------------------------------------------- quantised stores

  datatype Int8Block = Int8Block(tokenCount: nat, keys: Int8Rows, values: Int8Rows)

  /** What the int8 store keeps for a block: nothing for an empty one, else its rows quantised one by one. */
  ghost function Int8For(b: CacheBlock, len: nat): Option<Int8Block>
    requires BlockShape(b, len)
  {
    if b.tokenCount == 0 then None
    else Some(Int8Block(b.tokenCount, Int8Of(UsedKeys(b, len), len, b.tokenCount),
                        Int8Of(UsedValues(b, len), len, b.tokenCount)))
  }

  ghost function QuantizedFor(bits: Bits, b: CacheBlock, len: nat): Option<QuantizedBlock>
    requires BlockShape(b, len) && len > 0
  {
    if b.tokenCount == 0 then None else Some(QuantizedOf(bits, UsedValues(b, len), len, b.tokenCount))
  }

  ghost predicate BlocksShaped(blocks: seq<CacheBlock>, len: nat) {
    forall i :: 0 <= i < |blocks| ==> BlockShape(blocks[i], len)
  }

  /** The store matches the current rows of every block. */
  ghost predicate Int8InSync(store: Option<seq<Option<Int8Block>>>, format: Format, blocks: seq<CacheBlock>, len: nat)
    requires BlocksShaped(blocks, len)
  {
    && (store.Some? <==> format.Int8?)
    && (store.Some? ==> |store.value| == |blocks| && forall i :: 0 <= i < |blocks| ==>
        store.value[i] == Int8For(blocks[i], len))
  }

  ghost predicate QuantizedInSync(store: Option<seq<Option<QuantizedBlock>>>, format: Format, blocks: seq<CacheBlock>,
                                  len: nat)
    requires BlocksShaped(blocks, len) && len > 0
  {
    && (store.Some? <==> format.AsymmetricVq?)
    && (store.Some? ==> |store.value| == |blocks| &&
                        forall i :: 0 <= i < |blocks| ==> store.value[i] == QuantizedFor(format.bits, blocks[i], len))
  }

  /** In a compressed cache every stored row is finite. */
  ghost predicate FiniteRows(format: Format, blocks: seq<CacheBlock>, len: nat)
    requires BlocksShaped(blocks, len)
  {
    format.Compressed() ==> forall i :: 0 <= i < |blocks| ==> FiniteBlock(blocks[i], len)
  }

  ghost predicate FiniteBlock(b: CacheBlock, len: nat)
    requires BlockShape(b, len)
  {
    AllFinite(UsedKeys(b, len)) && AllFinite(UsedValues(b, len))
  }

  lemma FitsAreShaped(blocks: seq<CacheBlock>, table: seq<nat>, n: nat, max: nat, len: nat)
    requires BlocksFit(blocks, table, n, max, len)
    ensures BlocksShaped(blocks, len)
  {
    forall i | 0 <= i < |blocks| ensures BlockShape(blocks[i], len) {
      assert BlockFits(blocks[i], table[i], n, max, len, i);
    }
  }

  lemma FiniteAfterWrite(b: CacheBlock, len: nat, slot: nat, t: Token, count: nat)
    requires BlockShape(b, len) && FiniteBlock(b, len) && slot < b.capacity && |t.key| == len && |t.value| == len
    requires AllFinite(t.key) && AllFinite(t.value)
    requires slot <= b.tokenCount && count == (if slot < b.tokenCount then b.tokenCount else b.tokenCount + 1)
    ensures var r := WriteRow(b, len, slot, t).(tokenCount := count);
            BlockShape(r, len) && FiniteBlock(r, len)
  {
    RowFits(slot, b.capacity, len);
    FiniteAfterPut(b.keys, len, b.tokenCount, slot, t.key, count, b.capacity);
    FiniteAfterPut(b.values, len, b.tokenCount, slot, t.value, count, b.capacity);
  }

  lemma FiniteAfterPut(v: Vec, len: nat, n: nat, slot: nat, row: Vec, count: nat, max: nat)
    requires |v| == max * len && slot < max && n <= max && |row| == len && AllFinite(row)
    requires n * len <= |v| && AllFinite(v[..n * len])
    requires slot <= n && count == if slot < n then n else n + 1
    ensures slot * len + len <= |v| && count * len <= |v| && AllFinite(PutRow(v, len, slot, row)[..count * len])
  {
    RowFits(slot, max, len);
    MulMonotone(count, max, len);
    MulMonotone(slot, n, len);
    var r := PutRow(v, len, slot, row);
    assert (n + 1) * len == n * len + len;
    forall x | 0 <= x < count * len ensures r[x].Finite? {
      if x < slot * len {
        assert r[x] == v[..n * len][x];
      } else if x < slot * len + len {
        assert r[x] == row[x - slot * len];
      } else {
        assert r[x] == v[x] == v[..n * len][x];
      }
    }
  }
}
