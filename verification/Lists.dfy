/** Self-delimiting codecs in general, and the counted lists that inherit the property. */
module Lists {
  import opened Results
  import opened Bytes
  import opened Wire

  type Decoder<!T> = (bytes, int) -> Read<T>

  /** Wherever x's encoding stands in a buffer, decoding there yields x and stops right behind it. */
  ghost predicate SelfDelimiting<T(!new)>(enc: T -> bytes, dec: Decoder<T>, fits: T -> bool) {
    forall x: T, data: bytes, off: int {:trigger At(data, off, enc(x))} ::
      fits(x) && At(data, off, enc(x)) ==> dec(data, off) == Ok((x, off + |enc(x)|))
  }

  ghost predicate AllFit<T>(fits: T -> bool, xs: seq<T>) {
    forall i | 0 <= i < |xs| :: fits(xs[i])
  }

  /** Two encodings, each followed by anything, are equal only if the values are. */
  lemma PrefixFree<T(!new)>(enc: T -> bytes, dec: Decoder<T>, fits: T -> bool, x: T, s: bytes, y: T, t: bytes)
    requires SelfDelimiting(enc, dec, fits) && fits(x) && fits(y)
    requires enc(x) + s == enc(y) + t
    ensures x == y && s == t
  {
    var data := enc(x) + s;
    assert At(data, 0, enc(x));
    assert At(data, 0, enc(y)) by { assert data == enc(y) + t; }
    assert s == data[|enc(x)|..] && t == (enc(y) + t)[|enc(y)|..];
  }

  /** The elements one after the other. */
  function EncodeAll<T>(enc: T -> bytes, xs: seq<T>): bytes {
    if xs == [] then [] else EncodeAll(enc, xs[..|xs| - 1]) + enc(xs[|xs| - 1])
  }

  /** n decodings one after the other; like range(n), none when n is negative. */
  function ReadMany<T>(dec: Decoder<T>, n: int, data: bytes, off: int): (r: Read<seq<T>>)
    ensures r.Ok? ==> |r.value.0| == if n < 0 then 0 else n
    decreases if n < 0 then 0 else n
  {
    if n <= 0 then Ok(([], off))
    else
      var (xs, o1) :- ReadMany(dec, n - 1, data, off);
      var (x, o2) :- dec(data, o1);
      Ok((xs + [x], o2))
  }

  function EncodeCounted<T>(enc: T -> bytes, xs: seq<T>): bytes {
    EncodeInt(|xs|) + EncodeAll(enc, xs)
  }

  function ReadCounted<T>(dec: Decoder<T>, data: bytes, off: int): Read<seq<T>> {
    var (n, o) :- ReadInt(data, off);
    ReadMany(dec, n, data, o)
  }

  lemma {:induction false} ManyDelimit<T(!new)>(enc: T -> bytes, dec: Decoder<T>, fits: T -> bool,
                                               xs: seq<T>, data: bytes, off: int)
    requires SelfDelimiting(enc, dec, fits) && AllFit(fits, xs)
    requires At(data, off, EncodeAll(enc, xs))
    ensures ReadMany(dec, |xs|, data, off) == Ok((xs, off + |EncodeAll(enc, xs)|))
  {
    if xs != [] {
      var init, last := xs[..|xs| - 1], xs[|xs| - 1];
      AtConcat(data, off, EncodeAll(enc, init), enc(last));
      ManyDelimit(enc, dec, fits, init, data, off);
      assert xs == init + [last];
    }
  }

  /** A counted list of self-delimiting elements is self-delimiting, up to 2^31 - 1 elements. */
  lemma CountedDelimits<T(!new)>(enc: T -> bytes, dec: Decoder<T>, fits: T -> bool,
                                 xs: seq<T>, data: bytes, off: int)
    requires SelfDelimiting(enc, dec, fits) && AllFit(fits, xs) && FitsSigned(4, |xs|)
    requires At(data, off, EncodeCounted(enc, xs))
    ensures ReadCounted(dec, data, off) == Ok((xs, off + |EncodeCounted(enc, xs)|))
  {
    AtConcat(data, off, EncodeInt(|xs|), EncodeAll(enc, xs));
    SignedDelimits(4, |xs|, data, off);
    ManyDelimit(enc, dec, fits, xs, data, off + 4);
  }

  lemma EncodeAllSnoc<T>(enc: T -> bytes, xs: seq<T>, x: T)
    ensures EncodeAll(enc, xs + [x]) == EncodeAll(enc, xs) + enc(x)
  {
    assert (xs + [x])[..|xs|] == xs;
  }

  /** When decoding one more element raises, so does decoding any longer list. */
  lemma {:induction false} ReadManyStuck<T>(dec: Decoder<T>, i: nat, n: int, data: bytes, off: int)
    requires i < n
    requires ReadMany(dec, i, data, off).Ok? && dec(data, ReadMany(dec, i, data, off).value.1).Err?
    ensures ReadMany(dec, n, data, off) == Err(dec(data, ReadMany(dec, i, data, off).value.1).error)
    decreases n
  {
    if i < n - 1 {
      ReadManyStuck(dec, i, n - 1, data, off);
    }
  }

  /** What every decoded element satisfies, every element of a decoded list satisfies. */
  lemma {:induction false} ReadManyAll<T(!new)>(dec: Decoder<T>, p: T -> bool, n: int, data: bytes, off: int)
    requires forall o: int :: dec(data, o).Ok? ==> p(dec(data, o).value.0)
    requires ReadMany(dec, n, data, off).Ok?
    ensures AllFit(p, ReadMany(dec, n, data, off).value.0)
    decreases if n < 0 then 0 else n
  {
    if n > 0 {
      ReadManyAll(dec, p, n - 1, data, off);
    }
  }
}
