/** Codes of 3, 4 or 8 bits packed into bytes, least significant bit first, across byte boundaries. */
module BitPacking {
  import opened TokenWindow
  import opened Rows

  datatype Bits = Three | Four | Eight {
    function Width(): (w: nat)
      ensures 0 < w <= 8
    {
      match this case Three => 3 case Four => 4 case Eight => 8
    }

    function Levels(): nat {
      Pow2(Width())
    }

    /** The largest code. */
    function MaxCode(): nat {
      PowPositive(Width());
      Levels() - 1
    }

    function PayloadBytes(valueCount: nat): nat {
      (valueCount * Width() + 7) / 8
    }
  }

  /** An 8-bit byte by its bits; `bits[k]` is bit `k`. Only bit operations are applied to packed bytes. */
  type Byte = bits: seq<bool> | |bits| == 8 witness seq(8, _ => false)

  const ZeroByte: Byte := [false, false, false, false, false, false, false, false]

  function Pow2(k: nat): (r: nat) {
    if k == 0 then 1 else 2 * Pow2(k - 1)
  }

  lemma {:induction false} PowPositive(k: nat)
    ensures Pow2(k) > 0
  {
    if k > 0 { PowPositive(k - 1); }
  }

  /** Bit `k` of a code. */
  function BitOf(code: nat, k: nat): bool {
    PowPositive(k);
    (code / Pow2(k)) % 2 == 1
  }

  function ToBits(code: nat, w: nat): (s: seq<bool>)
    ensures |s| == w
  {
    seq(w, k requires 0 <= k => BitOf(code, k))
  }

  function FromBits(s: seq<bool>): (code: nat) {
    if s == [] then 0 else FromBits(s[..|s| - 1]) + if s[|s| - 1] then Pow2(|s| - 1) else 0
  }

  /** All codes, bit by bit. */
  function Stream(codes: seq<nat>, w: nat): (s: seq<bool>) {
    if codes == [] then [] else Stream(codes[..|codes| - 1], w) + ToBits(codes[|codes| - 1], w)
  }

  /** The bytes that carry a stream of bits, the last one filled up with zeros. */
  function Packed(s: seq<bool>): (bytes: seq<Byte>)
    ensures |bytes| == (|s| + 7) / 8
  {
    seq((|s| + 7) / 8, i requires 0 <= i => ByteAt(s, i))
  }

  function ByteAt(s: seq<bool>, i: nat): Byte {
    seq(8, j requires 0 <= j => 8 * i + j < |s| && s[8 * i + j])
  }

  function BitAt(bytes: seq<Byte>, x: nat): bool
    requires x / 8 < |bytes|
  {
    bytes[x / 8][x % 8]
  }

  /** The code at index `v` of packed bytes. */
  function CodeAt(bytes: seq<Byte>, w: nat, v: nat): nat
    requires v * w + w <= 8 * |bytes|
  {
    FromBits(BitsAt(bytes, v * w, w))
  }

  /** The `w` bits from bit `base` on. */
  function BitsAt(bytes: seq<Byte>, base: nat, w: nat): (s: seq<bool>)
    requires base + w <= 8 * |bytes|
    ensures |s| == w
  {
    seq(w, k requires 0 <= k < w => BitAt(bytes, base + k))
  }

  function Unpacked(bytes: seq<Byte>, w: nat, n: nat): (codes: seq<nat>)
    requires n * w <= 8 * |bytes|
    ensures |codes| == n
  {
    seq(n, v requires 0 <= v < n => (RowFits(v, n, w); CodeAt(bytes, w, v)))
  }

  // ---------------------------------------------------------------- the algorithms

  function InRange(codes: seq<nat>, bits: Bits): bool {
    forall v :: 0 <= v < |codes| ==> codes[v] <= bits.MaxCode()
  }

  /** The bits of `bytes` are those of `s`, then zeros. */
  ghost predicate Carries(bytes: seq<Byte>, s: seq<bool>) {
    |s| <= 8 * |bytes| && forall x :: 0 <= x < 8 * |bytes| ==> (BitAt(bytes, x) <==> x < |s| && s[x])
  }

  lemma CarriesIsPacked(bytes: seq<Byte>, s: seq<bool>)
    requires Carries(bytes, s) && |bytes| == (|s| + 7) / 8
    ensures bytes == Packed(s)
  {
    forall i | 0 <= i < |bytes| ensures bytes[i] == ByteAt(s, i) {
      forall j | 0 <= j < 8 ensures bytes[i][j] == ByteAt(s, i)[j] {
        var x := 8 * i + j;
        assert x / 8 == i && x % 8 == j;
        assert BitAt(bytes, x) <==> x < |s| && s[x];
      }
    }
  }

  lemma {:induction false} StreamLength(codes: seq<nat>, w: nat)
    ensures |Stream(codes, w)| == |codes| * w
  {
    if codes != [] {
      StreamLength(codes[..|codes| - 1], w);
      assert |codes| * w == (|codes| - 1) * w + w;
    }
  }

  /** Setting the next bit of the stream, or leaving it zero. */
  lemma CarryOn(bytes: seq<Byte>, s: seq<bool>, bit: bool)
    requires Carries(bytes, s) && |s| < 8 * |bytes|
    ensures |s| / 8 < |bytes|
    ensures var next := if bit then bytes[|s| / 8 := bytes[|s| / 8][|s| % 8 := true]] else bytes;
            Carries(next, s + [bit])
  {
    var next := if bit then bytes[|s| / 8 := bytes[|s| / 8][|s| % 8 := true]] else bytes;
    forall x | 0 <= x < 8 * |next| ensures BitAt(next, x) <==> x < |s| + 1 && (s + [bit])[x] {
      assert BitAt(bytes, x) <==> x < |s| && s[x];
      assert x / 8 == |s| / 8 && x % 8 == |s| % 8 ==> x == |s|;
    }
  }

  /** The inner loop of packing: writes one code after the bits `done`. */
  method PackCode(bytes: seq<Byte>, ghost done: seq<bool>, base: nat, code: nat, w: nat) returns (r: seq<Byte>)
    requires Carries(bytes, done) && |done| == base && base + w <= 8 * |bytes|
    ensures |r| == |bytes| && Carries(r, done + ToBits(code, w))
  {
    r := bytes;
    var b := 0;
    assert done + ToBits(code, w)[..0] == done;
    while b < w
      invariant 0 <= b <= w
      invariant |r| == |bytes| && Carries(r, done + ToBits(code, w)[..b])
    {
      var x := base + b;
      ghost var s := done + ToBits(code, w)[..b];
      CarryOn(r, s, BitOf(code, b));
      assert done + ToBits(code, w)[..b + 1] == s + [BitOf(code, b)];
      if BitOf(code, b) {
        r := r[x / 8 := r[x / 8][x % 8 := true]];
      }
      b := b + 1;
    }
    assert ToBits(code, w)[..w] == ToBits(code, w);
  }

  method PackCodes(bits: Bits, codes: seq<nat>) returns (r: Outcome<seq<Byte>>)
    ensures r == if InRange(codes, bits) then Ok(Packed(Stream(codes, bits.Width()))) else Err(InvalidShape)
  {
    hide Carries, ToBits, Packed, BitOf, Pow2, Stream;
    var w := bits.Width();
    var bytes: seq<Byte> := seq(bits.PayloadBytes(|codes|), _ => ZeroByte);
    CarriesNothing(bytes);
    NoStream(codes[..0], w);
    var v := 0;
    while v < |codes|
      invariant 0 <= v <= |codes| && InRange(codes[..v], bits)
      invariant |bytes| == bits.PayloadBytes(|codes|) && Carries(bytes, Stream(codes[..v], w))
    {
      if codes[v] > bits.MaxCode() {
        return Err(InvalidShape);
      }
      StreamLength(codes[..v], w);
      RowFits(v, |codes|, w);
      bytes := PackCode(bytes, Stream(codes[..v], w), v * w, codes[v], w);
      StreamOn(codes, v, w);
      v := v + 1;
    }
    assert codes[..|codes|] == codes;
    StreamLength(codes, w);
    CarriesIsPacked(bytes, Stream(codes, w));
    return Ok(bytes);
  }

  lemma NoStream(codes: seq<nat>, w: nat)
    requires codes == []
    ensures Stream(codes, w) == []
  {
  }

  lemma StreamOn(codes: seq<nat>, v: nat, w: nat)
    requires v < |codes|
    ensures Stream(codes[..v + 1], w) == Stream(codes[..v], w) + ToBits(codes[v], w)
  {
    hide ToBits;
    assert codes[..v + 1][..v] == codes[..v];
  }

  lemma CarriesNothing(bytes: seq<Byte>)
    requires forall i :: 0 <= i < |bytes| ==> bytes[i] == ZeroByte
    ensures Carries(bytes, [])
  {
  }

  /** The inner loop of unpacking: reads `w` bits as a code. */
  method UnpackCode(bytes: seq<Byte>, base: nat, w: nat) returns (code: nat)
    requires base + w <= 8 * |bytes|
    ensures code == FromBits(BitsAt(bytes, base, w))
  {
    ghost var all := BitsAt(bytes, base, w);
    code := 0;
    var b := 0;
    while b < w
      invariant 0 <= b <= w && code == FromBits(all[..b])
    {
      var x := base + b;
      assert all[..b + 1][..b] == all[..b];
      assert all[b] == BitAt(bytes, x);
      if bytes[x / 8][x % 8] {
        code := code + Pow2(b);
      }
      b := b + 1;
    }
    assert all[..w] == all;
  }

  method UnpackCodes(bits: Bits, valueCount: nat, bytes: seq<Byte>) returns (r: Outcome<seq<nat>>)
    ensures r.Ok? <==> |bytes| == bits.PayloadBytes(valueCount)
    ensures r.Ok? ==> r.value == Unpacked(bytes, bits.Width(), valueCount)
    ensures r.Err? ==> r.error == InvalidShape
  {
    if |bytes| != bits.PayloadBytes(valueCount) {
      return Err(InvalidShape);
    }
    var w := bits.Width();
    var codes: seq<nat> := [];
    var v := 0;
    while v < valueCount
      invariant 0 <= v <= valueCount && |codes| == v
      invariant forall u :: 0 <= u < v ==> codes[u] == Unpacked(bytes, w, valueCount)[u]
    {
      RowFits(v, valueCount, w);
      var code := UnpackCode(bytes, v * w, w);
      codes := codes + [code];
      v := v + 1;
    }
    return Ok(codes);
  }

  // ---------------------------------------------------------------- the round trip

  lemma {:induction false} StreamAt(codes: seq<nat>, w: nat, v: nat, k: nat)
    requires v < |codes| && k < w
    ensures v * w + k < |Stream(codes, w)| && Stream(codes, w)[v * w + k] == BitOf(codes[v], k)
  {
    var n := |codes| - 1;
    StreamLength(codes, w);
    StreamLength(codes[..n], w);
    RowFits(v, |codes|, w);
    if v < n {
      StreamAt(codes[..n], w, v, k);
    }
  }

  lemma DivMod(c: nat, d: nat, q: nat, r: nat)
    requires 0 < d && c == q * d + r && r < d
    ensures c / d == q && c % d == r
  {
    var q', r' := c / d, c % d;
    assert c == q' * d + r';
    assert (q' + 1) * d == q' * d + d && (q + 1) * d == q * d + d;
    if q' < q {
      MulMonotone(q' + 1, q, d);
    } else if q' > q {
      MulMonotone(q + 1, q', d);
    }
  }

  /** The low `k + 1` bits of a number are its low `k` bits and bit `k`. */
  lemma LowBits(c: nat, k: nat)
    ensures Pow2(k) > 0 && Pow2(k + 1) > 0
    ensures c % Pow2(k + 1) == c % Pow2(k) + if BitOf(c, k) then Pow2(k) else 0
  {
    PowPositive(k);
    var p := Pow2(k);
    LowPart(c, p);
  }

  lemma LowPart(c: nat, p: nat)
    requires p > 0
    ensures c % (2 * p) == c % p + if c / p % 2 == 1 then p else 0
  {
    var q, low := c / p, c % p;
    Divided(c, p);
    if q % 2 == 1 {
      Doubled(q / 2, p);
      Next(2 * (q / 2), p);
      DivMod(c, 2 * p, q / 2, p + low);
    } else {
      Doubled(q / 2, p);
      DivMod(c, 2 * p, q / 2, low);
    }
  }

  lemma Doubled(h: nat, p: nat)
    ensures (2 * h) * p == h * (2 * p)
  {
  }

  lemma Next(q: nat, p: nat)
    ensures (q + 1) * p == q * p + p
  {
  }

  lemma Divided(c: nat, p: nat)
    requires p > 0
    ensures c == c / p * p + c % p && 0 <= c % p < p
  {
  }

  lemma {:induction false} FromToBits(c: nat, w: nat)
    ensures Pow2(w) > 0 && FromBits(ToBits(c, w)) == c % Pow2(w)
  {
    PowPositive(w);
    if w > 0 {
      FromToBits(c, w - 1);
      LowBits(c, w - 1);
      assert ToBits(c, w)[..w - 1] == ToBits(c, w - 1);
    } else {
      assert ToBits(c, 0) == [];
    }
  }

  lemma PackedBit(s: seq<bool>, x: nat)
    requires x < |s|
    ensures x / 8 < |Packed(s)| && BitAt(Packed(s), x) == s[x]
  {
    assert 8 * (x / 8) + x % 8 == x;
  }

  /** Bit `k` of code `v` is bit `(v * w + k) % 8` of byte `(v * w + k) / 8`; the bits left over are zero. */
  lemma PackedLayout(codes: seq<nat>, w: nat, v: nat, k: nat, x: nat)
    requires v < |codes| && k < w
    ensures Pow2(k) > 0
    ensures var bytes, at := Packed(Stream(codes, w)), v * w + k;
            at / 8 < |bytes| && (bytes[at / 8][at % 8] <==> codes[v] / Pow2(k) % 2 == 1)
    ensures var bytes := Packed(Stream(codes, w));
            |codes| * w <= x < 8 * |bytes| ==> !bytes[x / 8][x % 8]
  {
    hide Stream, Pow2;
    StreamAt(codes, w, v, k);
    StreamLength(codes, w);
    PackedBit(Stream(codes, w), v * w + k);
    PowPositive(k);
    if |codes| * w <= x < 8 * |Packed(Stream(codes, w))| {
      assert 8 * (x / 8) + x % 8 == x;
    }
  }

  lemma CodeRoundTrip(codes: seq<nat>, w: nat, v: nat)
    requires v < |codes| && codes[v] < Pow2(w)
    requires v * w + w <= 8 * |Packed(Stream(codes, w))|
    ensures CodeAt(Packed(Stream(codes, w)), w, v) == codes[v]
  {
    hide Stream, Packed, BitOf, FromBits, Pow2;
    var s := Stream(codes, w);
    var got := BitsAt(Packed(s), v * w, w);
    forall k | 0 <= k < w ensures got[k] == ToBits(codes[v], w)[k] {
      StreamAt(codes, w, v, k);
      PackedBit(s, v * w + k);
    }
    assert got == ToBits(codes[v], w);
    FromToBits(codes[v], w);
    Small(codes[v], Pow2(w));
  }

  /** Unpacking what was packed gives the codes back, for every list of in-range codes at every width. */
  lemma UnpackPack(bits: Bits, codes: seq<nat>)
    requires InRange(codes, bits)
    ensures |Packed(Stream(codes, bits.Width()))| == bits.PayloadBytes(|codes|)
    ensures |codes| * bits.Width() <= 8 * |Packed(Stream(codes, bits.Width()))|
    ensures Unpacked(Packed(Stream(codes, bits.Width())), bits.Width(), |codes|) == codes
  {
    hide Stream, CodeAt;
    var w := bits.Width();
    StreamLength(codes, w);
    var bytes := Packed(Stream(codes, w));
    hide Packed;
    forall v | 0 <= v < |codes| ensures Unpacked(bytes, w, |codes|)[v] == codes[v] {
      RowFits(v, |codes|, w);
      PowPositive(w);
      CodeRoundTrip(codes, w, v);
    }
  }

  lemma Small(c: nat, d: nat)
    requires c < d
    ensures c % d == c
  {
  }
}
