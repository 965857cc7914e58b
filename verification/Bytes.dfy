/** Big-endian integers and the Python indexing rules that the byte cursor relies on. */
module Bytes {
  import opened Results

  type byte = b: int | 0 <= b < 256

  type bytes = seq<byte>

  function Pow256(n: nat): (p: nat)
    ensures p > 0
  {
    if n == 0 then 1 else 256 * Pow256(n - 1)
  }

  /** v fits an unsigned field of n bytes. */
  predicate FitsUnsigned(n: nat, v: int) {
    0 <= v < Pow256(n)
  }

  /** v fits a two's complement field of n bytes. */
  predicate FitsSigned(n: nat, v: int) {
    0 <= 2 * v + Pow256(n) < 2 * Pow256(n)
  }

  /** The n low-order bytes of v, most significant first; negative numbers in two's complement. */
  function BigEndian(n: nat, v: int): (s: bytes)
    ensures |s| == n
  {
    if n == 0 then [] else BigEndian(n - 1, v / 256) + [v % 256]
  }

  function Unsigned(s: bytes): (v: nat)
    ensures FitsUnsigned(|s|, v)
  {
    if s == [] then 0 else Unsigned(s[..|s| - 1]) * 256 + s[|s| - 1]
  }

  function Signed(s: bytes): (v: int)
  {
    var u := Unsigned(s);
    if 2 * u < Pow256(|s|) then u else u - Pow256(|s|)
  }

  lemma {:induction false} UnsignedOfBigEndian(n: nat, v: int)
    requires FitsUnsigned(n, v)
    ensures Unsigned(BigEndian(n, v)) == v
  {
    if n > 0 {
      UnsignedOfBigEndian(n - 1, v / 256);
      assert BigEndian(n, v)[..n - 1] == BigEndian(n - 1, v / 256);
    }
  }

  lemma {:induction false} BigEndianPeriodic(n: nat, v: int)
    ensures BigEndian(n, v + Pow256(n)) == BigEndian(n, v)
  {
    if n > 0 {
      assert (v + Pow256(n)) / 256 == v / 256 + Pow256(n - 1);
      BigEndianPeriodic(n - 1, v / 256);
    }
  }

  lemma SignedOfBigEndian(n: nat, v: int)
    requires FitsSigned(n, v)
    ensures Signed(BigEndian(n, v)) == v
  {
    if v < 0 {
      BigEndianPeriodic(n, v);
      UnsignedOfBigEndian(n, v + Pow256(n));
    } else {
      UnsignedOfBigEndian(n, v);
    }
  }

  lemma {:induction false} BigEndianOfUnsigned(s: bytes)
    ensures BigEndian(|s|, Unsigned(s)) == s
  {
    if s != [] {
      BigEndianOfUnsigned(s[..|s| - 1]);
    }
  }

  /** Every signed field that can be read can be written, and gives the same bytes. */
  lemma BigEndianOfSigned(s: bytes)
    ensures FitsSigned(|s|, Signed(s)) && BigEndian(|s|, Signed(s)) == s
  {
    hide BigEndian, Unsigned, Pow256;
    BigEndianOfUnsigned(s);
    if 2 * Unsigned(s) >= Pow256(|s|) {
      BigEndianPeriodic(|s|, Signed(s));
    }
  }

  /** The ranges of the struct formats: b, h, i, q and B, H, I, Q. */
  lemma FormatRanges(v: int)
    ensures FitsSigned(1, v) <==> -0x80 <= v < 0x80
    ensures FitsSigned(2, v) <==> -0x8000 <= v < 0x8000
    ensures FitsSigned(4, v) <==> -0x8000_0000 <= v < 0x8000_0000
    ensures FitsSigned(8, v) <==> -0x8000_0000_0000_0000 <= v < 0x8000_0000_0000_0000
    ensures FitsUnsigned(1, v) <==> 0 <= v < 0x100
    ensures FitsUnsigned(2, v) <==> 0 <= v < 0x1_0000
    ensures FitsUnsigned(4, v) <==> 0 <= v < 0x1_0000_0000
    ensures FitsUnsigned(8, v) <==> 0 <= v < 0x1_0000_0000_0000_0000
  {
    assert Pow256(1) == 0x100 && Pow256(2) == 0x1_0000 && Pow256(3) == 0x100_0000 && Pow256(4) == 0x1_0000_0000;
    assert Pow256(6) == 256 * Pow256(5) && Pow256(5) == 256 * Pow256(4);
    assert Pow256(8) == 0x1_0000_0000_0000_0000;
  }

  lemma DivideTwice(v: int, b: nat)
    requires b > 0
    ensures v / 256 / b == v / (256 * b)
  {
    var q, r := v / 256 / b, v / 256 % b;
    assert v == 256 * b * q + (256 * r + v % 256);
    QuotientIs(v, 256 * b, q, 256 * r + v % 256);
  }

  lemma QuotientIs(v: int, d: nat, q: int, r: nat)
    requires v == d * q + r && r < d
    ensures v / d == q
  {
    var k := v / d - q;
    assert d * (v / d) + v % d == d * q + r;
    assert d * k == r - v % d by { assert d * k == d * (v / d) - d * q; }
    NonzeroMultiple(d, k);
  }

  lemma NonzeroMultiple(d: nat, k: int)
    ensures k >= 1 ==> d * k >= d
    ensures k <= -1 ==> d * k <= -(d as int)
  {
  }

  /** Byte i of n is the digit of weight 256^(n - 1 - i): most significant first, in two's complement. */
  lemma {:induction false} BigEndianDigits(n: nat, v: int, i: nat)
    requires i < n
    ensures BigEndian(n, v)[i] == v / Pow256(n - 1 - i) % 256
  {
    if i < n - 1 {
      BigEndianDigits(n - 1, v / 256, i);
      DivideTwice(v, Pow256(n - 2 - i));
    }
  }

  /** The bytes s stand in data at position off. */
  predicate At(data: bytes, off: int, s: bytes) {
    0 <= off && off + |s| <= |data| && data[off..off + |s|] == s
  }

  lemma AtConcat(data: bytes, off: int, a: bytes, b: bytes)
    ensures At(data, off, a + b) <==> At(data, off, a) && At(data, off + |a|, b)
  {
    if 0 <= off && off + |a + b| <= |data| {
      assert data[off..off + |a + b|] == data[off..off + |a|] + data[off + |a|..off + |a| + |b|];
      if At(data, off, a + b) {
        assert a == (a + b)[..|a|] == data[off..off + |a|];
        assert b == (a + b)[|a|..] == data[off + |a|..off + |a| + |b|];
      }
    }
  }

  /** AtConcat for every split, in the direction a decoder proof needs. */
  lemma AtSplits(data: bytes)
    ensures forall off: int, a: bytes, b: bytes {:trigger At(data, off, a + b)} ::
              At(data, off, a + b) ==> At(data, off, a) && At(data, off + |a|, b)
  {
    forall off: int, a: bytes, b: bytes | At(data, off, a + b)
      ensures At(data, off, a) && At(data, off + |a|, b)
    {
      AtConcat(data, off, a, b);
    }
  }

  /** Regroups what was appended to a buffer that held base before. */
  lemma AppendedTo(base: bytes)
    ensures forall b: bytes, c: bytes {:trigger (base + b) + c} :: (base + b) + c == base + (b + c)
  {
  }

  lemma Regroup(a: bytes, b: bytes, c: bytes)
    ensures (a + b) + c == a + (b + c)
  {
  }

  /** Where struct.unpack_from finds an n-byte field: a negative offset counts from the end. */
  function FieldStart(data: bytes, off: int, n: nat): (r: Option<nat>)
    ensures var start := if off < 0 then off + |data| else off;
            && (r.Some? <==> 0 <= start && start + n <= |data|)
            && (r.Some? ==> r.value == start)
  {
    if off >= 0 then
      if off + n <= |data| then Some(off) else None
    else if off + n > 0 || off + |data| < 0 then
      None
    else
      Some(off + |data|)
  }

  /** The Python slice data[start:stop]. */
  function Slice(data: bytes, start: int, stop: int): (s: bytes)
    ensures 0 <= start <= stop <= |data| ==> s == data[start..stop]
    ensures 0 <= start <= |data| <= stop ==> s == data[start..]
    ensures 0 <= start && -|data| <= stop < 0 ==>
              s == if start <= |data| + stop then data[start..|data| + stop] else []
    ensures |s| <= |data|
  {
    var a := SliceBound(data, start);
    var b := SliceBound(data, stop);
    if a < b then data[a..b] else []
  }

  function SliceBound(data: bytes, i: int): (k: nat)
    ensures k <= |data|
  {
    if i < 0 then
      if i + |data| < 0 then 0 else i + |data|
    else
      if i > |data| then |data| else i
  }
}
