/**
 The two quantised forms of key and value rows, over exact reals.

 INT8 keeps one symmetric scale per row; the asymmetric form keeps a zero point and a scale per row
 and packs 3, 4 or 8 bit codes row by row.
 */
module Quantize {
  import opened TokenWindow
  import opened Rows
  import opened BitPacking

  /** The number an element stands for; only finite elements are ever quantised. */
  function Num(x: Float): real {
    if x.Finite? then x.val else 0.0
  }

  function Abs(x: real): real {
    if x < 0.0 then -x else x
  }

  /** Rounds to the nearest integer, halves away from zero. */
  function Round(x: real): int {
    if x >= 0.0 then (x + 0.5).Floor else -((-x + 0.5).Floor)
  }

  function Clamp(n: int, lo: int, hi: int): int {
    if n < lo then lo else if n > hi then hi else n
  }

  lemma RoundIsNear(x: real)
    ensures Abs(Round(x) as real - x) <= 0.5
  {
  }

  /** Rounding does not leave an interval with integer ends. */
  lemma RoundStays(x: real, lo: int, hi: int)
    requires lo as real <= x <= hi as real
    ensures lo <= Round(x) <= hi
  {
  }

  /** Scaling down, rounding and scaling up again is off by at most half a step. */
  lemma HalfStep(x: real, scale: real, lo: int, hi: int)
    requires scale > 0.0 && lo as real <= x / scale <= hi as real
    ensures Abs(Clamp(Round(x / scale), lo, hi) as real * scale - x) <= scale / 2.0
  {
    var y := x / scale;
    RoundIsNear(y);
    RoundStays(y, lo, hi);
    assert y * scale == x;
    NearTimes(Round(y) as real, y, scale);
  }

  lemma NearTimes(c: real, y: real, scale: real)
    requires Abs(c - y) <= 0.5 && scale > 0.0
    ensures Abs(c * scale - y * scale) <= scale / 2.0
  {
    var half := scale / 2.0;
    NearBelow(c, y, scale, half);
    NearBelow(y, c, scale, half);
    AbsBound(c * scale, y * scale, half);
  }

  lemma NearBelow(a: real, b: real, scale: real, half: real)
    requires a <= b + 0.5 && scale > 0.0 && half + half == scale
    ensures a * scale <= b * scale + half
  {
    var c := b + 0.5;
    TimesMonotone(a, c, scale);
    assert c * scale == b * scale + half by { AddHalf(b, scale, half); }
  }

  lemma AddHalf(b: real, scale: real, half: real)
    requires half + half == scale
    ensures (b + 0.5) * scale == b * scale + half
  {
    assert 0.5 * scale == half;
  }

  lemma AbsBound(p: real, q: real, half: real)
    requires p <= q + half && q <= p + half
    ensures Abs(p - q) <= half
  {
  }

  lemma TimesMonotone(a: real, b: real, scale: real)
    requires a <= b && scale > 0.0
    ensures a * scale <= b * scale
  {
    assert (b - a) * scale >= 0.0;
    assert b * scale == a * scale + (b - a) * scale;
  }

  lemma TimesStrict(a: real, b: real, scale: real)
    requires a < b && scale > 0.0
    ensures a * scale < b * scale
  {
    assert (b - a) * scale > 0.0;
    assert b * scale == a * scale + (b - a) * scale;
  }

  /** A value within `m`, in steps of an equal part of `m`, is within that many steps. */
  lemma QuotientWithin(x: real, m: real, t: real)
    requires m > 0.0 && t > 0.0 && -m <= x <= m
    ensures m / t > 0.0 && -t <= x / (m / t) <= t
  {
    PositiveQuotient(m, t);
    var step := m / t;
    var y := x / step;
    assert y * step == x && t * step == m && (-t) * step == -m;
    if y > t {
      TimesStrict(t, y, step);
    } else if y < -t {
      TimesStrict(y, -t, step);
    }
  }

  lemma PositiveQuotient(m: real, t: real)
    requires m > 0.0 && t > 0.0
    ensures m / t > 0.0 && m / t * t == m
  {
  }

  // ---------------------------------------------------------------- int8

  function MaxAbs(row: Vec): (m: real)
    ensures m >= 0.0
  {
    if row == [] then 0.0
    else
      var rest := MaxAbs(row[..|row| - 1]);
      var last := Abs(Num(row[|row| - 1]));
      if rest < last then last else rest
  }

  lemma {:induction false} MaxAbsBounds(row: Vec, j: nat)
    requires j < |row|
    ensures Abs(Num(row[j])) <= MaxAbs(row)
  {
    if j < |row| - 1 { MaxAbsBounds(row[..|row| - 1], j); }
  }

  function Int8Scale(row: Vec): (s: real) {
    if MaxAbs(row) == 0.0 then 0.0 else MaxAbs(row) / 127.0
  }

  function Int8Code(x: real, scale: real): (c: int) {
    if scale == 0.0 then 0 else Clamp(Round(x / scale), -127, 127)
  }

  function Int8CodesAt(row: Vec, scale: real): (cs: seq<int>)
    ensures |cs| == |row|
  {
    seq(|row|, j requires 0 <= j < |row| => Int8Code(Num(row[j]), scale))
  }

  function Int8Codes(row: Vec): (cs: seq<int>)
    ensures |cs| == |row|
  {
    Int8CodesAt(row, Int8Scale(row))
  }

  datatype Int8Rows = Int8Rows(codes: seq<int>, scales: seq<real>)

  /** The first `n` rows, each quantised by itself. */
  function Int8Of(values: Vec, len: nat, n: nat): (q: Int8Rows)
    requires n * len <= |values|
  {
    if n == 0 then Int8Rows([], [])
    else
      RowFits(n - 1, n, len);
      var before := Int8Of(values, len, n - 1);
      var row := RowAt(values, len, n - 1);
      Int8Rows(before.codes + Int8Codes(row), before.scales + [Int8Scale(row)])
  }

  lemma {:induction false} Int8Lengths(values: Vec, len: nat, n: nat)
    requires n * len <= |values|
    ensures |Int8Of(values, len, n).codes| == n * len && |Int8Of(values, len, n).scales| == n
  {
    if n > 0 {
      RowFits(n - 1, n, len);
      Int8Lengths(values, len, n - 1);
      assert n * len == (n - 1) * len + len;
    }
  }

  /** Each row of codes and each scale depends on its own row alone. */
  lemma {:induction false} Int8RowAt(values: Vec, len: nat, n: nat, i: nat)
    requires n * len <= |values| && i < n
    ensures var q := Int8Of(values, len, n);
            && |q.codes| == n * len && |q.scales| == n && i * len + len <= n * len
            && RowAt(q.codes, len, i) == Int8Codes(RowAt(values, len, i))
            && q.scales[i] == Int8Scale(RowAt(values, len, i))
  {
    hide Int8Codes, Int8Scale, RowAt;
    RowFits(n - 1, n, len);
    RowFits(i, n, len);
    Int8Lengths(values, len, n);
    Int8Lengths(values, len, n - 1);
    var last := Int8Codes(RowAt(values, len, n - 1));
    RowOfConcat(Int8Of(values, len, n - 1).codes, last, len, n - 1, i);
    if i < n - 1 { Int8RowAt(values, len, n - 1, i); } else { RowZero(last); }
  }

  /** The row loop of the scale: the largest magnitude, or an error at the first value that is not finite. */
  method RowMaxAbs(row: Vec) returns (r: Outcome<real>)
    ensures r == if AllFinite(row) then Ok(MaxAbs(row)) else Err(NonFiniteValue)
  {
    var m := 0.0;
    var j := 0;
    while j < |row|
      invariant 0 <= j <= |row| && AllFinite(row[..j]) && m == MaxAbs(row[..j])
    {
      if row[j].NonFinite? {
        return Err(NonFiniteValue);
      }
      assert row[..j + 1][..j] == row[..j];
      var a := Abs(Num(row[j]));
      if m < a { m := a; }
      j := j + 1;
    }
    assert row[..|row|] == row;
    return Ok(m);
  }

  predicate WholeRows(count: nat, len: nat) {
    len > 0 && count % len == 0
  }

  lemma RowCount(count: nat, len: nat)
    requires WholeRows(count, len)
    ensures count / len * len == count
  {
  }

  method QuantizeInt8Rows(values: Vec, len: nat) returns (r: Outcome<Int8Rows>)
    ensures r.Err? && r.error == InvalidShape <==> values == [] || !WholeRows(|values|, len)
    ensures values != [] && WholeRows(|values|, len) ==>
              |values| / len * len == |values|
              && r == if AllFinite(values) then Ok(Int8Of(values, len, |values| / len)) else Err(NonFiniteValue)
  {
    if values == [] || len == 0 || |values| % len != 0 {
      return Err(InvalidShape);
    }
    var n := |values| / len;
    RowCount(|values|, len);
    var codes: seq<int>, scales: seq<real> := [], [];
    var i := 0;
    while i < n
      invariant 0 <= i <= n && i * len <= |values| && AllFinite(values[..i * len])
      invariant Int8Rows(codes, scales) == Int8Of(values, len, i)
    {
      RowFits(i, n, len);
      var row := RowAt(values, len, i);
      var m := RowMaxAbs(row);
      FinitePrefix(values, len, i);
      if m.Err? {
        return Err(NonFiniteValue);
      }
      var scale := if m.value == 0.0 then 0.0 else m.value / 127.0;
      codes := codes + Int8CodesAt(row, scale);
      scales := scales + [scale];
      i := i + 1;
    }
    assert values[..n * len] == values;
    return Ok(Int8Rows(codes, scales));
  }

  /** Finiteness is checked row by row. */
  lemma FinitePrefix(values: Vec, len: nat, i: nat)
    requires i * len + len <= |values|
    ensures (i + 1) * len == i * len + len
    ensures !AllFinite(RowAt(values, len, i)) ==> !AllFinite(values)
    ensures AllFinite(values[..i * len]) && AllFinite(RowAt(values, len, i)) ==> AllFinite(values[..(i + 1) * len])
  {
    var k := i * len;
    assert (i + 1) * len == k + len;
    var row := RowAt(values, len, i);
    if !AllFinite(row) {
      var j :| 0 <= j < |row| && !row[j].Finite?;
      assert values[k + j] == row[j];
    } else {
      assert values[..k + len] == values[..k] + row;
    }
  }

  /** What the rows decode to. */
  function Int8Decoded(q: Int8Rows, len: nat, n: nat): (d: seq<real>)
    requires n * len <= |q.codes| && n <= |q.scales|
  {
    if n == 0 then []
    else
      RowFits(n - 1, n, len);
      Int8Decoded(q, len, n - 1) + DecodedRow(RowAt(q.codes, len, n - 1), 0.0, q.scales[n - 1])
  }

  function DecodedRow(codes: seq<int>, zero: real, scale: real): (d: seq<real>)
    ensures |d| == |codes|
  {
    seq(|codes|, j requires 0 <= j < |codes| => zero + codes[j] as real * scale)
  }

  method DequantizeInt8Rows(codes: seq<int>, scales: seq<real>, len: nat) returns (r: Outcome<seq<real>>)
    ensures !WholeRows(|codes|, len) ==> r == Err(InvalidShape)
    ensures WholeRows(|codes|, len) && |scales| != |codes| / len ==> r == Err(ShapeMismatch(|codes| / len, |scales|))
    ensures WholeRows(|codes|, len) && |scales| == |codes| / len ==>
              |scales| * len == |codes| && r == Ok(Int8Decoded(Int8Rows(codes, scales), len, |scales|))
  {
    if len == 0 || |codes| % len != 0 {
      return Err(InvalidShape);
    }
    var n := |codes| / len;
    RowCount(|codes|, len);
    if |scales| != n {
      return Err(ShapeMismatch(n, |scales|));
    }
    var values := [];
    var i := 0;
    while i < n
      invariant 0 <= i <= n && i * len <= |codes|
      invariant values == Int8Decoded(Int8Rows(codes, scales), len, i)
    {
      RowFits(i, n, len);
      values := values + DecodedRow(RowAt(codes, len, i), 0.0, scales[i]);
      assert (i + 1) * len == i * len + len;
      i := i + 1;
    }
    return Ok(values);
  }

  lemma {:induction false} Int8DecodedLength(q: Int8Rows, len: nat, n: nat)
    requires n * len <= |q.codes| && n <= |q.scales|
    ensures |Int8Decoded(q, len, n)| == n * len
  {
    if n > 0 {
      RowFits(n - 1, n, len);
      Int8DecodedLength(q, len, n - 1);
      assert n * len == (n - 1) * len + len;
    }
  }

  lemma {:induction false} Int8DecodedRow(q: Int8Rows, len: nat, n: nat, i: nat)
    requires n * len <= |q.codes| && n <= |q.scales| && i < n
    ensures |Int8Decoded(q, len, n)| == n * len && i * len + len <= n * len
    ensures RowAt(Int8Decoded(q, len, n), len, i) == DecodedRow(RowAt(q.codes, len, i), 0.0, q.scales[i])
  {
    hide DecodedRow, RowAt;
    RowFits(n - 1, n, len);
    RowFits(i, n, len);
    Int8DecodedLength(q, len, n);
    Int8DecodedLength(q, len, n - 1);
    var last := DecodedRow(RowAt(q.codes, len, n - 1), 0.0, q.scales[n - 1]);
    RowOfConcat(Int8Decoded(q, len, n - 1), last, len, n - 1, i);
    if i < n - 1 { Int8DecodedRow(q, len, n - 1, i); } else { RowZero(last); }
  }

  lemma RowZero<T>(row: seq<T>)
    ensures RowAt(row, |row|, 0) == row
  {
  }

  lemma Int8ValueError(row: Vec, j: nat)
    requires j < |row|
    ensures Abs(DecodedRow(Int8Codes(row), 0.0, Int8Scale(row))[j] - Num(row[j])) <= MaxAbs(row) / 254.0
  {
    hide Round, Clamp, MaxAbs, Num;
    var m := MaxAbs(row);
    var x := Num(row[j]);
    MaxAbsBounds(row, j);
    assert DecodedRow(Int8Codes(row), 0.0, Int8Scale(row))[j] == Int8Code(x, Int8Scale(row)) as real * Int8Scale(row);
    if m > 0.0 {
      var s := m / 127.0;
      QuotientBound(x, m);
      HalfStep(x, s, -127, 127);
      assert s / 2.0 == m / 254.0;
    }
  }

  lemma QuotientBound(x: real, m: real)
    requires m > 0.0 && Abs(x) <= m
    ensures -127.0 <= x / (m / 127.0) <= 127.0
  {
    QuotientWithin(x, m, 127.0);
  }

  /** Decoding quantised rows gives as many values, each within a 254th of its row's largest magnitude. */
  lemma Int8Error(values: Vec, len: nat, n: nat, i: nat, j: nat)
    requires n * len == |values| && i < n && j < len
    ensures var q := Int8Of(values, len, n);
            && |q.codes| == n * len && |q.scales| == n && i * len + len <= |values|
            && var d := Int8Decoded(q, len, n);
               && |d| == |values|
               && Abs(RowAt(d, len, i)[j] - Num(RowAt(values, len, i)[j])) <= MaxAbs(RowAt(values, len, i)) / 254.0
  {
    hide Int8Of, Int8Decoded, DecodedRow, MaxAbs, Int8Codes, Int8Scale, RowAt, Abs;
    Int8RowAt(values, len, n, i);
    Int8DecodedRow(Int8Of(values, len, n), len, n, i);
    Int8ValueError(RowAt(values, len, i), j);
  }

  // ---------------------------------------------------------------- asymmetric

  function RowMin(row: Vec): (m: real)
    requires row != []
  {
    if |row| == 1 then Num(row[0])
    else
      var rest := RowMin(row[..|row| - 1]);
      if Num(row[|row| - 1]) < rest then Num(row[|row| - 1]) else rest
  }

  function RowMax(row: Vec): (m: real)
    requires row != []
  {
    if |row| == 1 then Num(row[0])
    else
      var rest := RowMax(row[..|row| - 1]);
      if Num(row[|row| - 1]) > rest then Num(row[|row| - 1]) else rest
  }

  lemma {:induction false} RowBounds(row: Vec, j: nat)
    requires j < |row|
    ensures RowMin(row) <= Num(row[j]) <= RowMax(row)
  {
    if j < |row| - 1 { RowBounds(row[..|row| - 1], j); }
  }

  datatype ValueRow = ValueRow(zero: real, scale: real)

  function AffineRow(bits: Bits, row: Vec): (p: ValueRow)
    requires row != []
  {
    var lo, hi := RowMin(row), RowMax(row);
    ValueRow(lo, if lo == hi then 0.0 else (hi - lo) / (Top(bits) as real))
  }

  /** The largest code, as a number to divide by. */
  function Top(bits: Bits): (t: nat)
    ensures t == bits.MaxCode() && t > 0
  {
    assert Pow2(3) == 8 && Pow2(4) == 16 && Pow2(8) == 256 by { assert Pow2(2) == 4; assert Pow2(6) == 64; }
    bits.MaxCode()
  }

  function AffineCode(bits: Bits, x: real, p: ValueRow): (c: nat)
    ensures c <= bits.MaxCode()
  {
    if p.scale == 0.0 then 0 else Clamp(Round((x - p.zero) / p.scale), 0, bits.MaxCode())
  }

  function AffineCodesAt(bits: Bits, row: Vec, p: ValueRow): (cs: seq<nat>)
    ensures |cs| == |row| && InRange(cs, bits)
  {
    seq(|row|, j requires 0 <= j < |row| => AffineCode(bits, Num(row[j]), p))
  }

  function AffineCodes(bits: Bits, row: Vec): (cs: seq<nat>)
    requires row != []
    ensures |cs| == |row| && InRange(cs, bits)
  {
    AffineCodesAt(bits, row, AffineRow(bits, row))
  }

  /** The error of one code when the value lies on the grid of `scale` steps above `zero`. */
  lemma AffineStepError(bits: Bits, x: real, p: ValueRow)
    requires p.scale > 0.0 && 0.0 <= (x - p.zero) / p.scale <= Top(bits) as real
    ensures Abs(p.zero + AffineCode(bits, x, p) as real * p.scale - x) <= p.scale / 2.0
  {
    hide Round, Top, Clamp;
    HalfStep(x - p.zero, p.scale, 0, Top(bits));
    assert p.zero + AffineCode(bits, x, p) as real * p.scale - x ==
      AffineCode(bits, x, p) as real * p.scale - (x - p.zero);
  }

  lemma AffineScale(range: real, d: real, t: real)
    requires 0.0 <= d <= range && range > 0.0 && t > 0.0
    ensures range / t > 0.0 && 0.0 <= d / (range / t) <= t && range / t / 2.0 == range / (2.0 * t)
  {
    AffineQuotient(d, range, t);
    HalfOf(range, t);
  }

  lemma HalfOf(range: real, t: real)
    requires t > 0.0
    ensures range / t / 2.0 == range / (2.0 * t)
  {
  }

  lemma DecodedAt(bits: Bits, row: Vec, j: nat)
    requires j < |row|
    ensures var p := AffineRow(bits, row);
            DecodedRow(AffineCodes(bits, row), p.zero, p.scale)[j] ==
              p.zero + AffineCode(bits, Num(row[j]), p) as real * p.scale
  {
    hide AffineCode, AffineRow;
  }

  /** Half a step of the grid over a range. */
  function HalfGrid(bits: Bits, lo: real, hi: real): real {
    (hi - lo) / (2.0 * Top(bits) as real)
  }

  lemma AffineRangeError(bits: Bits, x: real, lo: real, hi: real, p: ValueRow, d: real)
    requires lo <= x <= hi && lo < hi && p == ValueRow(lo, (hi - lo) / (Top(bits) as real))
    requires d == p.zero + AffineCode(bits, x, p) as real * p.scale
    ensures Abs(d - x) <= HalfGrid(bits, lo, hi)
  {
    hide AffineCode, Abs, Top;
    AffineScale(hi - lo, x - lo, Top(bits) as real);
    AffineStepError(bits, x, p);
  }

  /** Each value comes back within half a step: the range of its row over twice the largest code. */
  lemma AffineValueError(bits: Bits, row: Vec, j: nat)
    requires j < |row|
    ensures var p := AffineRow(bits, row);
            Abs(DecodedRow(AffineCodes(bits, row), p.zero, p.scale)[j] - Num(row[j])) <= HalfGrid(bits, RowMin(row),
              RowMax(row))
  {
    hide RowMin, RowMax, Top, DecodedRow, AffineCodes, AffineCode, Num, HalfGrid, Abs;
    var p := AffineRow(bits, row);
    RowBounds(row, j);
    DecodedAt(bits, row, j);
    var d := DecodedRow(AffineCodes(bits, row), p.zero, p.scale)[j];
    if RowMin(row) < RowMax(row) {
      AffineRangeError(bits, Num(row[j]), RowMin(row), RowMax(row), p, d);
    } else {
      AffineFlatError(bits, Num(row[j]), RowMin(row), RowMax(row), p, d);
    }
  }

  lemma AffineFlatError(bits: Bits, x: real, lo: real, hi: real, p: ValueRow, d: real)
    requires lo <= x <= hi && lo >= hi && p == ValueRow(lo, 0.0)
    requires d == p.zero + AffineCode(bits, x, p) as real * p.scale
    ensures Abs(d - x) <= HalfGrid(bits, lo, hi)
  {
    hide AffineCode, Top;
    FlatRow(AffineCode(bits, x, p) as real, Top(bits) as real);
  }

  lemma FlatRow(code: real, top: real)
    requires top > 0.0
    ensures code * 0.0 == 0.0 && 0.0 / (2.0 * top) == 0.0
  {
  }

  lemma AffineQuotient(d: real, range: real, t: real)
    requires 0.0 <= d <= range && range > 0.0 && t > 0.0
    ensures range / t > 0.0 && 0.0 <= d / (range / t) <= t
  {
    QuotientWithin(d, range, t);
    var step := range / t;
    var y := d / step;
    assert y * step == d;
    if y < 0.0 {
      TimesStrict(y, 0.0, step);
    }
  }

  datatype QuantizedBlock = QuantizedBlock(bits: Bits, len: nat, valueCount: nat, rows: seq<ValueRow>,
                                           payload: seq<Byte>)

  /** The first `n` rows, each with its own parameters and its codes packed to whole bytes. */
  function AffineOf(bits: Bits, values: Vec, len: nat, n: nat): (q: (seq<ValueRow>, seq<Byte>))
    requires len > 0 && n * len <= |values|
  {
    if n == 0 then ([], [])
    else
      RowFits(n - 1, n, len);
      var before := AffineOf(bits, values, len, n - 1);
      var row := RowAt(values, len, n - 1);
      (before.0 + [AffineRow(bits, row)], before.1 + Packed(Stream(AffineCodes(bits, row), bits.Width())))
  }

  function QuantizedOf(bits: Bits, values: Vec, len: nat, n: nat): QuantizedBlock
    requires len > 0 && n * len == |values|
  {
    var (rows, payload) := AffineOf(bits, values, len, n);
    QuantizedBlock(bits, len, |values|, rows, payload)
  }

  /** The row loop of the parameters: both extremes, or an error at the first value that is not finite. */
  method RowExtremes(row: Vec) returns (r: Outcome<(real, real)>)
    requires row != []
    ensures r == if AllFinite(row) then Ok((RowMin(row), RowMax(row))) else Err(NonFiniteValue)
  {
    if row[0].NonFinite? {
      return Err(NonFiniteValue);
    }
    var lo, hi := row[0].val, row[0].val;
    var j := 1;
    while j < |row|
      invariant 1 <= j <= |row| && AllFinite(row[..j]) && lo == RowMin(row[..j]) && hi == RowMax(row[..j])
    {
      if row[j].NonFinite? {
        return Err(NonFiniteValue);
      }
      assert row[..j + 1][..j] == row[..j];
      if row[j].val < lo { lo := row[j].val; }
      if row[j].val > hi { hi := row[j].val; }
      j := j + 1;
    }
    assert row[..|row|] == row;
    return Ok((lo, hi));
  }

  method QuantizeValueBlock(bits: Bits, values: Vec, len: nat) returns (r: Outcome<QuantizedBlock>)
    ensures r.Err? && r.error == InvalidShape <==> values == [] || !WholeRows(|values|, len)
    ensures values != [] && WholeRows(|values|, len) ==>
              |values| / len * len == |values|
              && r == if AllFinite(values) then Ok(QuantizedOf(bits, values, len, |values| / len))
                 else Err(NonFiniteValue)
  {
    hide Packed, Stream, AffineCode, RowMin, RowMax, Top, AffineCodesAt;
    if values == [] || len == 0 || |values| % len != 0 {
      return Err(InvalidShape);
    }
    var n := |values| / len;
    RowCount(|values|, len);
    var rows: seq<ValueRow>, payload: seq<Byte> := [], [];
    var i := 0;
    while i < n
      invariant 0 <= i <= n && i * len <= |values| && AllFinite(values[..i * len])
      invariant (rows, payload) == AffineOf(bits, values, len, i)
    {
      RowFits(i, n, len);
      var row := RowAt(values, len, i);
      var extremes := RowExtremes(row);
      FinitePrefix(values, len, i);
      if extremes.Err? {
        return Err(NonFiniteValue);
      }
      var (lo, hi) := extremes.value;
      var p := ValueRow(lo, if lo == hi then 0.0 else (hi - lo) / (Top(bits) as real));
      assert p == AffineRow(bits, row);
      var codes := AffineCodesAt(bits, row, p);
      var packed := PackCodes(bits, codes);
      payload := payload + packed.value;
      rows := rows + [p];
      i := i + 1;
    }
    assert values[..n * len] == values;
    return Ok(QuantizedBlock(bits, len, |values|, rows, payload));
  }

  /** Payload slice `i` of a block of `n` rows. */
  lemma {:induction false} AffineSlice(bits: Bits, values: Vec, len: nat, n: nat, i: nat)
    requires len > 0 && n * len <= |values| && i < n
    ensures var q := AffineOf(bits, values, len, n);
            var size := bits.PayloadBytes(len);
            && |q.0| == n && |q.1| == n * size && i * size + size <= n * size && i * len + len <= n * len
            && q.0[i] == AffineRow(bits, RowAt(values, len, i))
            && RowAt(q.1, size, i) == Packed(Stream(AffineCodes(bits, RowAt(values, len, i)), bits.Width()))
  {
    hide Packed, Stream, AffineCodes, AffineRow, RowAt;
    var size := bits.PayloadBytes(len);
    RowFits(n - 1, n, len);
    RowFits(i, n, len);
    RowFits(i, n, size);
    var before := AffineOf(bits, values, len, n - 1);
    var row := RowAt(values, len, n - 1);
    PackedSize(bits, AffineCodes(bits, row));
    if n > 1 { AffineSlice(bits, values, len, n - 1, if i < n - 1 then i else 0); }
    LastSize(n, size);
    var slice := Packed(Stream(AffineCodes(bits, row), bits.Width()));
    RowOfConcat(before.1, slice, size, n - 1, i);
    if i == n - 1 { RowZero(slice); }
  }

  lemma LastSize(n: nat, size: nat)
    requires n > 0
    ensures n * size == (n - 1) * size + size
  {
  }

  lemma PackedSize(bits: Bits, codes: seq<nat>)
    ensures |Packed(Stream(codes, bits.Width()))| == bits.PayloadBytes(|codes|)
  {
    StreamLength(codes, bits.Width());
  }

  method DequantizeValueBlock(q: QuantizedBlock) returns (r: Outcome<seq<real>>)
    ensures r.Ok? <==> WholeRows(q.valueCount, q.len) && |q.payload| == q.bits.PayloadBytes(q.len) * |q.rows|
    ensures r.Err? ==> r.error == InvalidShape
    ensures r.Ok? ==> |r.value| == |q.rows| * q.len
    ensures r.Ok? ==> forall i :: 0 <= i < |q.rows| ==> DecodesRow(q, r.value, i)
  {
    if q.len == 0 || q.valueCount % q.len != 0 {
      return Err(InvalidShape);
    }
    var size := q.bits.PayloadBytes(q.len);
    if |q.payload| != size * |q.rows| {
      return Err(InvalidShape);
    }
    var values := [];
    var i := 0;
    while i < |q.rows|
      invariant 0 <= i <= |q.rows| && |values| == i * q.len
      invariant forall k :: 0 <= k < i ==> DecodesRow(q, values, k)
    {
      RowFits(i, |q.rows|, size);
      var codes := UnpackCodes(q.bits, q.len, RowAt(q.payload, size, i));
      var row := DecodedRow(codes.value, q.rows[i].zero, q.rows[i].scale);
      DecodesOn(q, values, row, i);
      values := values + row;
      i := i + 1;
    }
    return Ok(values);
  }

  /** Row `i` of `d` is what row `i` of the block decodes to. */
  ghost predicate DecodesRow(q: QuantizedBlock, d: seq<real>, i: nat) {
    var size := q.bits.PayloadBytes(q.len);
    && i < |q.rows| && i * size + size <= |q.payload| && i * q.len + q.len <= |d|
    && q.len * q.bits.Width() <= 8 * size
    && RowAt(d, q.len, i) ==
       DecodedRow(Unpacked(RowAt(q.payload, size, i), q.bits.Width(), q.len), q.rows[i].zero, q.rows[i].scale)
  }

  lemma DecodesOn(q: QuantizedBlock, values: seq<real>, row: seq<real>, i: nat)
    requires i < |q.rows| && |values| == i * q.len && |row| == q.len
    requires |q.payload| == q.bits.PayloadBytes(q.len) * |q.rows|
    requires forall k :: 0 <= k < i ==> DecodesRow(q, values, k)
    requires i * q.bits.PayloadBytes(q.len) + q.bits.PayloadBytes(q.len) <= |q.payload|
    requires row == DecodedRow(Unpacked(RowAt(q.payload, q.bits.PayloadBytes(q.len), i), q.bits.Width(), q.len),
                               q.rows[i].zero, q.rows[i].scale)
    ensures |values + row| == (i + 1) * q.len
    ensures forall k :: 0 <= k <= i ==> DecodesRow(q, values + row, k)
  {
    hide DecodedRow, RowAt, Unpacked, DecodesRow;
    LastSize(i + 1, q.len);
    forall k | 0 <= k <= i ensures DecodesRow(q, values + row, k) {
      if k < i {
        DecodesLonger(q, values, row, i, k);
      } else {
        DecodesLast(q, values, row, i);
      }
    }
  }

  lemma DecodesLonger(q: QuantizedBlock, values: seq<real>, row: seq<real>, i: nat, k: nat)
    requires |values| == i * q.len && k < i && DecodesRow(q, values, k)
    ensures DecodesRow(q, values + row, k)
  {
    hide DecodedRow, RowAt, Unpacked;
    RowFits(k, i, q.len);
    RowOfConcat(values, row, q.len, i, k);
  }

  lemma DecodesLast(q: QuantizedBlock, values: seq<real>, row: seq<real>, i: nat)
    requires i < |q.rows| && |values| == i * q.len && |row| == q.len
    requires i * q.bits.PayloadBytes(q.len) + q.bits.PayloadBytes(q.len) <= |q.payload|
    requires row == DecodedRow(Unpacked(RowAt(q.payload, q.bits.PayloadBytes(q.len), i), q.bits.Width(), q.len),
                               q.rows[i].zero, q.rows[i].scale)
    ensures DecodesRow(q, values + row, i)
  {
    hide DecodedRow, RowAt, Unpacked;
    RowOfConcat(values, row, q.len, i, i);
    RowZero(row);
  }

  /** Dequantising a quantised value block succeeds with as many values, each within half a step of its
      row: the row's range over twice the largest code. */
  lemma AffineError(bits: Bits, values: Vec, len: nat, n: nat, d: seq<real>, i: nat, j: nat)
    requires len > 0 && n * len == |values| && i < n && j < len
    requires |d| == n * len && DecodesRow(QuantizedOf(bits, values, len, n), d, i)
    ensures i * len + len <= |values|
    ensures var row := RowAt(values, len, i);
            Abs(RowAt(d, len, i)[j] - Num(row[j])) <= (RowMax(row) - RowMin(row)) / (2.0 * Top(bits) as real)
  {
    hide Packed, Stream, Unpacked, AffineCodes, AffineRow, RowAt, DecodedRow, RowMin, RowMax, Top, Abs, AffineOf;
    RowFits(i, n, len);
    AffineSlice(bits, values, len, n, i);
    var row := RowAt(values, len, i);
    UnpackPack(bits, AffineCodes(bits, row));
    AffineValueError(bits, row, j);
  }

  /** A quantised block is never refused by the decoder. */
  lemma QuantizedIsDecodable(bits: Bits, values: Vec, len: nat, n: nat)
    requires len > 0 && n > 0 && n * len == |values|
    ensures var q := QuantizedOf(bits, values, len, n);
            WholeRows(q.valueCount, q.len) && |q.payload| == bits.PayloadBytes(len) * |q.rows| && |q.rows| == n
  {
    AffineSlice(bits, values, len, n, 0);
    hide AffineOf, AffineRow, RowAt, Packed, Stream, AffineCodes;
    WholeTimes(n, len);
    Commutes(n, bits.PayloadBytes(len));
  }

  lemma WholeTimes(n: nat, len: nat)
    requires len > 0
    ensures WholeRows(n * len, len) && n * len / len == n
  {
    DivMod(n * len, len, n, 0);
  }

  lemma Commutes(a: nat, b: nat)
    ensures a * b == b * a
  {
  }
}
