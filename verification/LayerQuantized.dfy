/** What the quantised stores of a layer cache say about its window. */
module LayerQuantized {
  import opened Common
  import opened TokenWindow
  import opened Geometry
  import opened Rows
  import opened BlockRuns
  import opened BitPacking
  import opened Quantize
  import opened LayerState
  import opened Layer

  datatype Int8Token = Int8Token(keys: Int8Rows, values: Int8Rows)

  /** A row quantised by itself. */
  function Int8Row(row: Vec): Int8Rows {
    Int8Rows(Int8Codes(row), [Int8Scale(row)])
  }

  lemma OneRow(row: Vec, len: nat)
    requires |row| == len > 0
    ensures WholeRows(|row|, len) && |row| / len == 1 && Int8Of(row, len, 1) == Int8Row(row)
  {
    hide Int8Codes, Int8Scale;
    WholeTimes(1, len);
    assert RowAt(row, len, 0) == row;
    assert Int8Of(row, len, 0) == Int8Rows([], []);
  }

  /** The codes handed out for a token that is about to be appended. */
  method DirectToken(c: LayerKvCache, key: Vec, value: Vec) returns (r: Outcome<Option<Int8Token>>)
    requires c.Valid()
    ensures !c.format.Int8? ==> r == Ok(None)
    ensures c.format.Int8? ==>
      var check := Reject(c.VectorLen(), true, Token(key, value));
      r == if check.Err? then Err(check.error) else Ok(Some(Int8Token(Int8Row(key), Int8Row(value))))
  {
    hide StagesOk, StoresOk, ViewOk, Slots, Rebuilt, BlocksFit, Int8Of, Int8Row;
    if !c.format.Int8? {
      return Ok(None);
    }
    var check := Reject(c.VectorLen(), c.format.Compressed(), Token(key, value));
    if check.Err? {
      return Err(check.error);
    }
    OneRow(key, c.VectorLen());
    OneRow(value, c.VectorLen());
    var keys := QuantizeInt8Rows(key, c.VectorLen());
    var values := QuantizeInt8Rows(value, c.VectorLen());
    return Ok(Some(Int8Token(keys.value, values.value)));
  }

  /** Row `j` of a quantised group of rows, as if it had been quantised alone. */
  ghost predicate HasRow(q: Int8Rows, len: nat, j: nat, row: Vec) {
    && j * len + len <= |q.codes| && j < |q.scales|
    && Int8Rows(RowAt(q.codes, len, j), [q.scales[j]]) == Int8Row(row)
  }

  lemma StoreHasRow(b: CacheBlock, len: nat, j: nat)
    requires BlockShape(b, len) && j < b.tokenCount
    ensures Int8For(b, len).Some? && BlockToken(b, len, j).Some?
    ensures HasRow(Int8For(b, len).value.keys, len, j, BlockToken(b, len, j).value.key)
    ensures HasRow(Int8For(b, len).value.values, len, j, BlockToken(b, len, j).value.value)
  {
    hide Int8Codes, Int8Scale, RowAt, Int8Of;
    RowFits(j, b.capacity, len);
    MulMonotone(b.tokenCount, b.capacity, len);
    Int8RowAt(UsedKeys(b, len), len, b.tokenCount, j);
    Int8RowAt(UsedValues(b, len), len, b.tokenCount, j);
    RowOfPrefix(b.keys, len, b.tokenCount, j);
    RowOfPrefix(b.values, len, b.tokenCount, j);
  }

  /** The int8 store agrees, row by row, with the codes the token would be given directly: every row of the
      window is found at its slot exactly as `DirectToken` quantises it. */
  lemma StoredRowsAreDirect(c: LayerKvCache, i: nat)
    requires c.Valid() && c.format.Int8? && i < c.tokenCount
    ensures var p := Slot(c.windowStart, i, c.maxTokens);
            && c.int8.Some? && p / BLOCK < |c.int8.value| && c.int8.value[p / BLOCK].Some?
            && HasRow(c.int8.value[p / BLOCK].value.keys, c.VectorLen(), p % BLOCK, c.View().rows[i].key)
            && HasRow(c.int8.value[p / BLOCK].value.values, c.VectorLen(), p % BLOCK, c.View().rows[i].value)
  {
    var p := Slot(c.windowStart, i, c.maxTokens);
    RowFound(c.blocks, c.blockTable, c.tokenCount, c.maxTokens, c.VectorLen(), c.windowStart, i);
    hide StagesOk, ViewOk, Slots, Rebuilt, BlocksFit, HasRow, Int8For, BlockToken, Rotate;
    var b := c.blocks[p / BLOCK];
    TokenInUse(b, c.VectorLen(), p % BLOCK);
    StoreHasRow(b, c.VectorLen(), p % BLOCK);
    assert c.int8.value[p / BLOCK] == Int8For(b, c.VectorLen());
  }

  /** `d` decodes `row` with the error the INT8 format promises. */
  ghost predicate Int8Close(d: seq<real>, row: Vec) {
    |d| == |row| && forall j :: 0 <= j < |row| ==> Abs(d[j] - Num(row[j])) <= MaxAbs(row) / 254.0
  }

  lemma DecodedIsClose(q: Int8Rows, len: nat, n: nat, j: nat, row: Vec)
    requires |q.codes| == n * len && |q.scales| == n && HasRow(q, len, j, row) && |row| == len && j < n
    ensures |Int8Decoded(q, len, n)| == n * len && j * len + len <= n * len
    ensures Int8Close(RowAt(Int8Decoded(q, len, n), len, j), row)
  {
    hide Int8Codes, Int8Scale, RowAt, MaxAbs, Abs, DecodedRow, Num;
    Int8DecodedRow(q, len, n, j);
    assert q.scales[j] == [q.scales[j]][0] == Int8Scale(row);
    forall k | 0 <= k < |row|
      ensures Abs(RowAt(Int8Decoded(q, len, n), len, j)[k] - Num(row[k])) <= MaxAbs(row) / 254.0
    {
      Int8ValueError(row, k);
    }
  }

  datatype Tensor = Keys | Values

  function PartOf(t: Token, tensor: Tensor): Vec {
    if tensor.Keys? then t.key else t.value
  }

  function RowsOf(q: Int8Block, tensor: Tensor): Int8Rows {
    if tensor.Keys? then q.keys else q.values
  }

  /** Row `i` of the flat decoding is close to row `i` of the window. */
  ghost predicate DecodesPart(d: seq<real>, len: nat, i: nat, t: Token, tensor: Tensor) {
    && i * len + len <= |d|
    && (tensor == Keys ==> Int8Close(RowAt(d, len, i), t.key))
    && (tensor == Values ==> Int8Close(RowAt(d, len, i), t.value))
  }

  /** Decodes the keys or the values of the window token by token, each from its own block. Never refused. */
  method Int8DequantizedTensor(c: LayerKvCache, tensor: Tensor) returns (r: Outcome<Option<seq<real>>>)
    requires c.Valid()
    ensures r.Ok? && (r.value.Some? <==> c.format.Int8?)
    ensures r.value.Some? ==> |r.value.value| == c.tokenCount * c.VectorLen()
    ensures r.value.Some? ==>
      forall i :: 0 <= i < c.tokenCount ==> DecodesPart(r.value.value, c.VectorLen(), i, c.View().rows[i], tensor)
  {
    hide StagesOk, ViewOk, Slots, Rebuilt, BlocksFit, StoresOk, HasRow, RowAt, Int8Decoded, DecodesPart, Rotate;
    hide Int8Close;
    StoresFormat(c.int8, c.quantized, c.format, c.blocks, c.VectorLen());
    if c.int8.None? {
      return Ok(None);
    }
    var len := c.VectorLen();
    var values: seq<real> := [];
    for i := 0 to c.tokenCount
      invariant |values| == i * len
      invariant forall k :: 0 <= k < i ==> DecodesPart(values, len, k, c.View().rows[k], tensor)
    {
      var p := Slot(c.windowStart, i, c.maxTokens);
      StoreCloseAt(c, i, tensor);
      var q := RowsOf(c.int8.value[p / BLOCK].value, tensor);
      var decoded := DequantizeInt8Rows(q.codes, q.scales, len);
      var row := RowAt(decoded.value, len, p % BLOCK);
      DecodesOn(values, row, len, i, c.View().rows, tensor);
      values := values + row;
    }
    return Ok(Some(values));
  }

  /** The store of the block of token `i` decodes, and its row is close to the token. */
  lemma StoreCloseAt(c: LayerKvCache, i: nat, tensor: Tensor)
    requires c.Valid() && c.format.Int8? && i < c.tokenCount
    ensures var p := Slot(c.windowStart, i, c.maxTokens);
            && c.int8.Some? && p / BLOCK < |c.int8.value| && c.int8.value[p / BLOCK].Some?
            && var q := RowsOf(c.int8.value[p / BLOCK].value, tensor);
               var n := |q.scales|;
               && WholeRows(|q.codes|, c.VectorLen()) && |q.codes| / c.VectorLen() == n
               && |q.codes| == n * c.VectorLen() == |Int8Decoded(q, c.VectorLen(), n)|
               && (p % BLOCK) * c.VectorLen() + c.VectorLen() <= n * c.VectorLen()
               && Int8Close(RowAt(Int8Decoded(q, c.VectorLen(), n), c.VectorLen(), p % BLOCK),
                            PartOf(c.View().rows[i], tensor))
  {
    hide StagesOk, ViewOk, Slots, Rebuilt, BlocksFit, StoresOk, HasRow, RowAt, Int8Decoded, Rotate, Int8Close;
    var p := Slot(c.windowStart, i, c.maxTokens);
    StoredRowsAreDirect(c, i);
    StoreSized(c, p / BLOCK, tensor);
    StoreRowCount(c, i);
    TokenSizes(c, i);
    var q := RowsOf(c.int8.value[p / BLOCK].value, tensor);
    WholeTimes(c.int8.value[p / BLOCK].value.tokenCount, c.VectorLen());
    DecodedIsClose(q, c.VectorLen(), |q.scales|, p % BLOCK, PartOf(c.View().rows[i], tensor));
  }

  lemma DecodesOn(values: seq<real>, row: seq<real>, len: nat, i: nat, rows: seq<Token>, tensor: Tensor)
    requires |values| == i * len && |row| == len && i < |rows| && Int8Close(row, PartOf(rows[i], tensor))
    requires forall k :: 0 <= k < i ==> DecodesPart(values, len, k, rows[k], tensor)
    ensures |values + row| == (i + 1) * len
    ensures forall k :: 0 <= k <= i ==> DecodesPart(values + row, len, k, rows[k], tensor)
  {
    hide RowAt, Int8Close;
    LastSize(i + 1, len);
    forall k | 0 <= k <= i ensures DecodesPart(values + row, len, k, rows[k], tensor) {
      RowFits(k, i + 1, len);
      RowOfConcat(values, row, len, i, k);
      if k < i { assert DecodesPart(values, len, k, rows[k], tensor); } else { RowZero(row); }
    }
  }

  lemma StoresFormat(int8: Option<seq<Option<Int8Block>>>, quantized: Option<seq<Option<QuantizedBlock>>>,
                     format: Format, blocks: seq<CacheBlock>, len: nat)
    requires StoresOk(int8, quantized, format, blocks, len)
    ensures int8.Some? <==> format.Int8?
    ensures quantized.Some? <==> format.AsymmetricVq?
  {
  }

  lemma StoreSized(c: LayerKvCache, b: nat, tensor: Tensor)
    requires c.Valid() && c.int8.Some? && b < |c.int8.value| && c.int8.value[b].Some?
    ensures var q := c.int8.value[b].value;
            |RowsOf(q, tensor).codes| == q.tokenCount * c.VectorLen() && |RowsOf(q, tensor).scales| == q.tokenCount
  {
    hide StagesOk, ViewOk, Slots, Rebuilt, BlocksFit, Int8Of;
    var block := c.blocks[b];
    assert c.int8.value[b] == Int8For(block, c.VectorLen());
    Int8Lengths(UsedKeys(block, c.VectorLen()), c.VectorLen(), block.tokenCount);
    Int8Lengths(UsedValues(block, c.VectorLen()), c.VectorLen(), block.tokenCount);
  }

  lemma StoreRowCount(c: LayerKvCache, i: nat)
    requires c.Valid() && c.format.Int8? && i < c.tokenCount
    ensures var p := Slot(c.windowStart, i, c.maxTokens);
            && c.int8.Some? && p / BLOCK < |c.int8.value| && c.int8.value[p / BLOCK].Some?
            && p % BLOCK < c.int8.value[p / BLOCK].value.tokenCount
  {
    var p := Slot(c.windowStart, i, c.maxTokens);
    RowFound(c.blocks, c.blockTable, c.tokenCount, c.maxTokens, c.VectorLen(), c.windowStart, i);
    TokenInUse(c.blocks[p / BLOCK], c.VectorLen(), p % BLOCK);
    hide StagesOk, ViewOk, Slots, Rebuilt, BlocksFit, BlockToken;
    assert c.int8.value[p / BLOCK] == Int8For(c.blocks[p / BLOCK], c.VectorLen());
  }

  lemma TokenSizes(c: LayerKvCache, i: nat)
    requires c.Valid() && i < c.tokenCount
    ensures |c.View().rows[i].key| == c.VectorLen() && |c.View().rows[i].value| == c.VectorLen()
  {
    hide StagesOk, ViewOk, Rebuilt, StoresOk;
    RowFound(c.blocks, c.blockTable, c.tokenCount, c.maxTokens, c.VectorLen(), c.windowStart, i);
  }

  // ---------------------------------------------------------------- the asymmetric store

  /** `d` decodes `row` with the error the asymmetric format promises at this width. */
  ghost predicate AffineClose(bits: Bits, d: seq<real>, row: Vec) {
    && |d| == |row| > 0
    && forall j :: 0 <= j < |row| ==> Abs(d[j] - Num(row[j])) <= (RowMax(row) - RowMin(row)) / (2.0 * Top(bits) as real)
  }

  /** Decoding the stored form of any block in use succeeds, and each row comes back within half a step. */
  lemma StoredValuesAreClose(c: LayerKvCache, i: nat, d: seq<real>)
    requires c.Valid() && c.format.AsymmetricVq? && i < c.tokenCount
    ensures var p := Slot(c.windowStart, i, c.maxTokens);
            && c.quantized.Some? && p / BLOCK < |c.quantized.value| && c.quantized.value[p / BLOCK].Some?
            && var q := c.quantized.value[p / BLOCK].value;
               && WholeRows(q.valueCount, q.len) && |q.payload| == q.bits.PayloadBytes(q.len) * |q.rows|
               && (|d| == |q.rows| * q.len && DecodesRow(q, d, p % BLOCK) ==>
                     (p % BLOCK) * q.len + q.len <= |d|
                     && AffineClose(c.format.bits, RowAt(d, q.len, p % BLOCK), c.View().rows[i].value))
  {
    var p := Slot(c.windowStart, i, c.maxTokens);
    RowFound(c.blocks, c.blockTable, c.tokenCount, c.maxTokens, c.VectorLen(), c.windowStart, i);
    TokenInUse(c.blocks[p / BLOCK], c.VectorLen(), p % BLOCK);
    hide StagesOk, ViewOk, Slots, Rebuilt, BlocksFit, Rotate, BlockToken, QuantizedOf, DecodesRow, RowAt, AffineClose;
    var b := c.blocks[p / BLOCK];
    assert c.quantized.value[p / BLOCK] == QuantizedFor(c.format.bits, b, c.VectorLen());
    BlockValuesAreClose(c.format.bits, b, c.VectorLen(), p % BLOCK, d);
  }

  /** Row `i` of the flat decoding is close to the values of row `i` of the window. */
  ghost predicate DecodesValues(bits: Bits, d: seq<real>, len: nat, i: nat, t: Token) {
    i * len + len <= |d| && AffineClose(bits, RowAt(d, len, i), t.value)
  }

  /** Decodes the values of the window token by token from the asymmetric store. Never refused. */
  method DequantizedValues(c: LayerKvCache) returns (r: Outcome<Option<seq<real>>>)
    requires c.Valid()
    ensures r.Ok? && (r.value.Some? <==> c.format.AsymmetricVq?)
    ensures r.value.Some? ==> |r.value.value| == c.tokenCount * c.VectorLen()
    ensures r.value.Some? ==>
      forall i :: 0 <= i < c.tokenCount ==>
        DecodesValues(c.format.bits, r.value.value, c.VectorLen(), i, c.View().rows[i])
  {
    hide StagesOk, ViewOk, Slots, Rebuilt, BlocksFit, StoresOk, RowAt, DecodesValues, DecodesRow, Rotate, AffineClose;
    StoresFormat(c.int8, c.quantized, c.format, c.blocks, c.VectorLen());
    if c.quantized.None? {
      return Ok(None);
    }
    var len := c.VectorLen();
    var values: seq<real> := [];
    for i := 0 to c.tokenCount
      invariant |values| == i * len
      invariant forall k :: 0 <= k < i ==> DecodesValues(c.format.bits, values, len, k, c.View().rows[k])
    {
      var p := Slot(c.windowStart, i, c.maxTokens);
      StoredValuesAreClose(c, i, []);
      ValueRowCount(c, i);
      var decoded := DequantizeValueBlock(c.quantized.value[p / BLOCK].value);
      StoredValuesAreClose(c, i, decoded.value);
      TokenSizes(c, i);
      var row := RowAt(decoded.value, len, p % BLOCK);
      ValuesOn(c.format.bits, values, row, len, i, c.View().rows);
      values := values + row;
    }
    return Ok(Some(values));
  }

  lemma ValueRowCount(c: LayerKvCache, i: nat)
    requires c.Valid() && c.format.AsymmetricVq? && i < c.tokenCount
    ensures var p := Slot(c.windowStart, i, c.maxTokens);
            && c.quantized.Some? && p / BLOCK < |c.quantized.value| && c.quantized.value[p / BLOCK].Some?
            && var q := c.quantized.value[p / BLOCK].value; q.len == c.VectorLen() && p % BLOCK < |q.rows|
  {
    var p := Slot(c.windowStart, i, c.maxTokens);
    RowFound(c.blocks, c.blockTable, c.tokenCount, c.maxTokens, c.VectorLen(), c.windowStart, i);
    var b := c.blocks[p / BLOCK];
    TokenInUse(b, c.VectorLen(), p % BLOCK);
    hide StagesOk, ViewOk, Slots, Rebuilt, BlocksFit, BlockToken, AffineOf, Rotate;
    assert c.quantized.value[p / BLOCK] == QuantizedFor(c.format.bits, b, c.VectorLen());
    QuantizedIsDecodable(c.format.bits, UsedValues(b, c.VectorLen()), c.VectorLen(), b.tokenCount);
  }

  lemma ValuesOn(bits: Bits, values: seq<real>, row: seq<real>, len: nat, i: nat, rows: seq<Token>)
    requires |values| == i * len && |row| == len && i < |rows| && AffineClose(bits, row, rows[i].value)
    requires forall k :: 0 <= k < i ==> DecodesValues(bits, values, len, k, rows[k])
    ensures |values + row| == (i + 1) * len
    ensures forall k :: 0 <= k <= i ==> DecodesValues(bits, values + row, len, k, rows[k])
  {
    hide RowAt, AffineClose;
    LastSize(i + 1, len);
    forall k | 0 <= k <= i ensures DecodesValues(bits, values + row, len, k, rows[k]) {
      RowFits(k, i + 1, len);
      RowOfConcat(values, row, len, i, k);
      if k < i { assert DecodesValues(bits, values, len, k, rows[k]); } else { RowZero(row); }
    }
  }

  lemma BlockValuesAreClose(bits: Bits, b: CacheBlock, len: nat, j: nat, d: seq<real>)
    requires BlockShape(b, len) && len > 0 && j < b.tokenCount
    ensures BlockToken(b, len, j).Some?
    ensures var q := QuantizedOf(bits, UsedValues(b, len), len, b.tokenCount);
            && q.len == len && WholeRows(q.valueCount, q.len) && |q.payload| == q.bits.PayloadBytes(q.len) * |q.rows|
            && (|d| == |q.rows| * q.len && DecodesRow(q, d, j) ==>
                  j * len + len <= |d| && AffineClose(bits, RowAt(d, len, j), BlockToken(b, len, j).value.value))
  {
    hide AffineOf, DecodesRow, RowAt, RowMin, RowMax, Top, Abs, Num;
    var values := UsedValues(b, len);
    var q := QuantizedOf(bits, values, len, b.tokenCount);
    QuantizedIsDecodable(bits, values, len, b.tokenCount);
    RowFits(j, b.tokenCount, len);
    RowFits(j, b.capacity, len);
    MulMonotone(b.tokenCount, b.capacity, len);
    RowOfPrefix(b.values, len, b.tokenCount, j);
    if |d| == |q.rows| * q.len && DecodesRow(q, d, j) {
      var row := RowAt(values, len, j);
      forall k | 0 <= k < |row|
        ensures Abs(RowAt(d, len, j)[k] - Num(row[k])) <= (RowMax(row) - RowMin(row)) / (2.0 * Top(bits) as real)
      {
        AffineError(bits, values, len, b.tokenCount, d, j, k);
      }
    }
  }
}
