/** Fixed-length rows laid out one after the other in a flat buffer. */
module Rows {

  /** Row `i` of a buffer of rows of length `len`. */
  function RowAt<T>(v: seq<T>, len: nat, i: nat): (r: seq<T>)
    requires i * len + len <= |v|
    ensures |r| == len
  {
    v[i * len..i * len + len]
  }

  function PutRow<T>(v: seq<T>, len: nat, i: nat, row: seq<T>): (r: seq<T>)
    requires i * len + len <= |v| && |row| == len
    ensures |r| == |v|
  {
    v[..i * len] + row + v[i * len + len..]
  }

  lemma RowFits(i: nat, n: nat, len: nat)
    requires i < n
    ensures i * len + len <= n * len
  {
    assert (i + 1) * len <= n * len by { MulMonotone(i + 1, n, len); }
  }

  lemma MulMonotone(a: nat, b: nat, c: nat)
    requires a <= b
    ensures a * c <= b * c
  {
    assert b * c == a * c + (b - a) * c;
  }

  lemma PositiveFactors(a: nat, b: nat)
    requires a * b > 0
    ensures a > 0 && b > 0
  {
  }

  lemma ProductIsNat(a: nat, b: nat)
    ensures 0 <= a * b
  {
  }

  /** Writing one row changes that row and no other. */
  lemma PutRowAt<T>(v: seq<T>, len: nat, i: nat, row: seq<T>, k: nat)
    requires i * len + len <= |v| && |row| == len && k * len + len <= |v|
    ensures RowAt(PutRow(v, len, i, row), len, k) == if k == i then row else RowAt(v, len, k)
  {
    hide RowAt, PutRow;
    if k < i { RowFits(k, i, len); } else if i < k { RowFits(i, k, len); }
    PutRowAtOffset(v, len, i, row, k, i * len, k * len);
  }

  lemma PutRowAtOffset<T>(v: seq<T>, len: nat, i: nat, row: seq<T>, k: nat, a: nat, b: nat)
    requires a == i * len && b == k * len && a + len <= |v| && b + len <= |v| && |row| == len
    requires k < i ==> b + len <= a
    requires i < k ==> a + len <= b
    ensures RowAt(PutRow(v, len, i, row), len, k) == if k == i then row else RowAt(v, len, k)
  {
    RowIsSlice(v, len, k, b);
    RowIsSlice(PutRow(v, len, i, row), len, k, b);
    PutIsSplice(v, len, i, row, a);
    hide RowAt, PutRow;
    SliceOfPut(v, a, row, b);
  }

  lemma RowIsSlice<T>(v: seq<T>, len: nat, i: nat, x: nat)
    requires x == i * len && x + len <= |v|
    ensures RowAt(v, len, i) == v[x..x + len]
  {
  }

  lemma PutIsSplice<T>(v: seq<T>, len: nat, i: nat, row: seq<T>, x: nat)
    requires x == i * len && x + len <= |v| && |row| == len
    ensures PutRow(v, len, i, row) == v[..x] + row + v[x + len..]
  {
  }

  lemma SliceOfPut<T>(v: seq<T>, a: nat, row: seq<T>, b: nat)
    requires a + |row| <= |v| && b + |row| <= |v| && (b + |row| <= a || b == a || a + |row| <= b)
    ensures var r := v[..a] + row + v[a + |row|..];
            r[b..b + |row|] == if b + |row| <= a || a + |row| <= b then v[b..b + |row|] else row
  {
    var n := |row|;
    var r := v[..a] + row + v[a + n..];
    forall x | 0 <= x < n ensures r[b..b + n][x] == if b + n <= a || a + n <= b then v[b..b + n][x] else row[x] {
      assert r[b..b + n][x] == r[b + x];
    }
  }

  lemma RowOfPrefix<T>(v: seq<T>, len: nat, n: nat, i: nat)
    requires n * len <= |v| && i < n
    ensures i * len + len <= n * len && RowAt(v[..n * len], len, i) == RowAt(v, len, i)
  {
    hide RowAt;
    RowFits(i, n, len);
    var k := n * len;
    assert v == v[..k] + v[k..];
    RowOfConcatAt(v[..k], v[k..], len, i, i * len, i, i * len);
  }

  /** Dropping whole rows from the front renumbers the rest. */
  lemma RowOfSuffix<T>(v: seq<T>, len: nat, n: nat, i: nat)
    requires n * len <= |v| && (n + i) * len + len <= |v|
    ensures i * len + len <= |v| - n * len && RowAt(v[n * len..], len, i) == RowAt(v, len, n + i)
  {
    hide RowAt;
    Distributes(n + i, n, len);
    var k := n * len;
    assert v == v[..k] + v[k..];
    RowOfConcatAt(v[..k], v[k..], len, n + i, (n + i) * len, i, i * len);
  }

  lemma RowOfConcat<T>(a: seq<T>, b: seq<T>, len: nat, n: nat, i: nat)
    requires |a| == n * len && i * len + len <= |a| + |b|
    ensures i < n ==> i * len + len <= |a| && RowAt(a + b, len, i) == RowAt(a, len, i)
    ensures i >= n ==> (i - n) * len + len <= |b| && RowAt(a + b, len, i) == RowAt(b, len, i - n)
  {
    hide RowAt;
    if i < n {
      RowFits(i, n, len);
      RowOfConcatAt(a, b, len, i, i * len, i, i * len);
    } else {
      Distributes(i, n, len);
      RowOfConcatAt(a, b, len, i, i * len, i - n, (i - n) * len);
    }
  }

  lemma RowOfConcatAt<T>(a: seq<T>, b: seq<T>, len: nat, i: nat, x: nat, k: nat, y: nat)
    requires x == i * len && y == k * len && x + len <= |a| + |b|
    requires (x == y && x + len <= |a|) || x == |a| + y
    ensures x == y && x + len <= |a| ==> RowAt(a + b, len, i) == RowAt(a, len, k)
    ensures x == |a| + y ==> y + len <= |b| && RowAt(a + b, len, i) == RowAt(b, len, k)
  {
    RowIsSlice(a + b, len, i, x);
    if x == y && x + len <= |a| { RowIsSlice(a, len, k, y); }
    if x == |a| + y { RowIsSlice(b, len, k, y); }
    hide RowAt;
    SliceOfConcat(a, b, x, len);
  }

  lemma Distributes(i: nat, n: nat, len: nat)
    requires i >= n
    ensures i * len == n * len + (i - n) * len
  {
  }

  lemma SliceOfConcat<T>(a: seq<T>, b: seq<T>, x: nat, n: nat)
    requires x + n <= |a| + |b|
    ensures x + n <= |a| ==> (a + b)[x..x + n] == a[x..x + n]
    ensures x >= |a| ==> (a + b)[x..x + n] == b[x - |a|..x - |a| + n]
  {
  }

  lemma LastRow<T>(a: seq<T>, len: nat, n: nat)
    requires n > 0 && |a| == n * len
    ensures (n - 1) * len + len == n * len
    ensures a == a[..(n - 1) * len] + RowAt(a, len, n - 1)
  {
    assert (n - 1) * len + len == n * len;
  }
}
