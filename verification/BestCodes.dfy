/** The codes a quantiser chooses: no other code of the row's scale decodes closer to the value. */
module BestCodes {
  import opened TokenWindow
  import opened Rows
  import opened BitPacking
  import opened Quantize

  /** How far `n` steps of `scale` are from `x`. */
  function Off(n: real, scale: real, x: real): real {
    Abs(n * scale - x)
  }

  /** `c` steps are nearer to `x` than `n` steps, or as near and then `c` is the one farther from zero. */
  predicate Beats(x: real, scale: real, c: int, n: int) {
    var p, q := Off(c as real, scale, x), Off(n as real, scale, x);
    p < q || (p == q && (n == c || Abs(n as real) < Abs(c as real)))
  }

  /** `c` steps of `scale` come as close to `x` as any number of steps. */
  ghost predicate Best(x: real, scale: real, c: int) {
    forall n: int :: Beats(x, scale, c, n)
  }

  /** Rounding is to the nearest integer, halves away from zero. */
  lemma RoundIsBest(x: real)
    ensures Best(x, 1.0, Round(x))
  {
    forall n: int ensures Beats(x, 1.0, Round(x), n) {
      if x >= 0.0 { NearestAbove(x, n); } else { NearestAbove(-x, -n); }
    }
  }

  lemma NearestAbove(x: real, n: int)
    requires x >= 0.0
    ensures Beats(x, 1.0, (x + 0.5).Floor, n)
  {
    var r := (x + 0.5).Floor;
    assert r as real <= x + 0.5 < r as real + 1.0;
    if n < r {
      assert n as real <= r as real - 1.0;
    } else if n > r {
      assert n as real >= r as real + 1.0;
    }
  }

  lemma BestOfSteps(x: real, scale: real)
    requires scale > 0.0
    ensures Best(x, scale, Round(x / scale))
  {
    var y := x / scale;
    assert y * scale == x;
    RoundIsBest(y);
    hide Round;
    forall n: int ensures Beats(x, scale, Round(y), n) {
      assert Beats(y, 1.0, Round(y), n);
      BeatsStretched(y, scale, x, Round(y), n);
    }
  }

  lemma BeatsStretched(y: real, scale: real, x: real, c: int, n: int)
    requires scale > 0.0 && y * scale == x && Beats(y, 1.0, c, n)
    ensures Beats(x, scale, c, n)
  {
    hide Abs, Off;
    Stretched(c as real, y, scale, x);
    Stretched(n as real, y, scale, x);
    StretchedOrder(Off(c as real, 1.0, y), Off(n as real, 1.0, y), scale);
  }

  lemma StretchedOrder(p: real, q: real, scale: real)
    requires scale > 0.0
    ensures p < q ==> p * scale < q * scale
  {
    if p < q {
      TimesStrict(p, q, scale);
    }
  }

  lemma Stretched(n: real, y: real, scale: real, x: real)
    requires scale > 0.0 && y * scale == x
    ensures Off(n, scale, x) == Off(n, 1.0, y) * scale
  {
    var d := n - y;
    assert n * scale - y * scale == d * scale;
    SignKept(d, scale);
  }

  lemma SignKept(d: real, scale: real)
    requires scale > 0.0
    ensures Abs(d * scale) == Abs(d) * scale
  {
    if d < 0.0 {
      TimesStrict(d, 0.0, scale);
    } else {
      TimesMonotone(0.0, d, scale);
    }
  }

  // ---------------------------------------------------------------- the extremes of a row

  lemma {:induction false} MaxAbsMeans(row: Vec)
    ensures forall j :: 0 <= j < |row| ==> Abs(Num(row[j])) <= MaxAbs(row)
    ensures if row == [] then MaxAbs(row) == 0.0 else exists j :: 0 <= j < |row| && Abs(Num(row[j])) == MaxAbs(row)
  {
    if row != [] {
      var n := |row| - 1;
      MaxAbsMeans(row[..n]);
      if MaxAbs(row) != Abs(Num(row[n])) {
        var j :| 0 <= j < n && Abs(Num(row[..n][j])) == MaxAbs(row[..n]);
        assert Abs(Num(row[j])) == MaxAbs(row);
      }
      forall j | 0 <= j < |row| ensures Abs(Num(row[j])) <= MaxAbs(row) {
        if j < n { assert row[..n][j] == row[j]; }
      }
    }
  }

  lemma {:induction false} RowMinMeans(row: Vec)
    requires row != []
    ensures forall j :: 0 <= j < |row| ==> RowMin(row) <= Num(row[j])
    ensures exists j :: 0 <= j < |row| && Num(row[j]) == RowMin(row)
  {
    var n := |row| - 1;
    if n == 0 {
      assert Num(row[0]) == RowMin(row);
    } else {
      RowMinMeans(row[..n]);
      var j :| 0 <= j < n && Num(row[..n][j]) == RowMin(row[..n]);
      assert Num(row[j]) == RowMin(row) || Num(row[n]) == RowMin(row);
      forall j | 0 <= j < |row| ensures RowMin(row) <= Num(row[j]) {
        if j < n { assert row[..n][j] == row[j]; }
      }
    }
  }

  lemma {:induction false} RowMaxMeans(row: Vec)
    requires row != []
    ensures forall j :: 0 <= j < |row| ==> Num(row[j]) <= RowMax(row)
    ensures exists j :: 0 <= j < |row| && Num(row[j]) == RowMax(row)
  {
    var n := |row| - 1;
    if n == 0 {
      assert Num(row[0]) == RowMax(row);
    } else {
      RowMaxMeans(row[..n]);
      var j :| 0 <= j < n && Num(row[..n][j]) == RowMax(row[..n]);
      assert Num(row[j]) == RowMax(row) || Num(row[n]) == RowMax(row);
      forall j | 0 <= j < |row| ensures Num(row[j]) <= RowMax(row) {
        if j < n { assert row[..n][j] == row[j]; }
      }
    }
  }

  // ---------------------------------------------------------------- the codes

  /** A row of zeros has scale zero and codes zero. In any other row 127 steps make the largest magnitude,
      and every code is the best one for its value. */
  lemma Int8CodesAreBest(row: Vec, j: nat)
    requires j < |row|
    ensures (forall k :: 0 <= k < |row| ==> Num(row[k]) == 0.0) ==> Int8Scale(row) == 0.0 && Int8Codes(row)[j] == 0
    ensures (exists k :: 0 <= k < |row| && Num(row[k]) != 0.0) ==>
              && Int8Scale(row) > 0.0 && Int8Scale(row) * 127.0 == MaxAbs(row)
              && Best(Num(row[j]), Int8Scale(row), Int8Codes(row)[j])
  {
    hide MaxAbs, Round, Num, Best;
    MaxAbsMeans(row);
    var m, x := MaxAbs(row), Num(row[j]);
    if m > 0.0 {
      PositiveQuotient(m, 127.0);
      QuotientBound(x, m);
      RoundStays(x / (m / 127.0), -127, 127);
      BestOfSteps(x, m / 127.0);
      var k :| 0 <= k < |row| && Abs(Num(row[k])) == m;
      assert Num(row[k]) != 0.0;
    }
  }

  /** Codes are 3, 4 or 8 bits wide, and the largest has all bits set. */
  lemma Widths()
    ensures Three.Width() == 3 && Three.MaxCode() == 7
    ensures Four.Width() == 4 && Four.MaxCode() == 15
    ensures Eight.Width() == 8 && Eight.MaxCode() == 255
  {
    assert Pow2(3) == 8;
    assert Pow2(6) == 64;
  }

  /** The zero point is the least value. A constant row has scale zero and codes zero. In any other row as many
      steps as the largest code make the range, and every code is the best one above the zero point. */
  lemma AffineCodesAreBest(bits: Bits, row: Vec, j: nat)
    requires j < |row|
    ensures AffineRow(bits, row).zero == RowMin(row)
    ensures RowMin(row) == RowMax(row) ==> AffineRow(bits, row).scale == 0.0 && AffineCodes(bits, row)[j] == 0
    ensures RowMin(row) != RowMax(row) ==>
              var scale := AffineRow(bits, row).scale;
              && scale > 0.0 && scale * bits.MaxCode() as real == RowMax(row) - RowMin(row)
              && Best(Num(row[j]) - RowMin(row), scale, AffineCodes(bits, row)[j])
  {
    hide RowMin, RowMax, Num, Best, Top, AffineCode, Abs;
    RowBounds(row, j);
    assert AffineCodes(bits, row)[j] == AffineCode(bits, Num(row[j]), AffineRow(bits, row));
    hide AffineCodes;
    if RowMin(row) != RowMax(row) {
      AffineCodeIsBest(bits, Num(row[j]), RowMin(row), RowMax(row));
    } else {
      FlatCode(bits, Num(row[j]), AffineRow(bits, row));
    }
  }

  lemma FlatCode(bits: Bits, x: real, p: ValueRow)
    requires p.scale == 0.0
    ensures AffineCode(bits, x, p) == 0
  {
  }

  lemma AffineCodeIsBest(bits: Bits, x: real, lo: real, hi: real)
    requires lo <= x <= hi && lo < hi
    ensures var p := ValueRow(lo, (hi - lo) / (Top(bits) as real));
            && p.scale > 0.0 && p.scale * bits.MaxCode() as real == hi - lo
            && Best(x - lo, p.scale, AffineCode(bits, x, p))
  {
    hide Best, Top, Round;
    var t := Top(bits) as real;
    PositiveQuotient(hi - lo, t);
    AffineQuotient(x - lo, hi - lo, t);
    RoundStays((x - lo) / ((hi - lo) / t), 0, Top(bits));
    BestOfSteps(x - lo, (hi - lo) / t);
  }
}
