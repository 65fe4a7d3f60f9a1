/**
 * `hash_to_bytes(h) = h.to_bytes((h.bit_length() + 7) // 8, 'big')`
 * (gcam_config/gcam_config.py:13-14): the shortest big-endian unsigned
 * encoding of a nonnegative integer, with 0 encoded as no bytes at all.
 */
module HashBytes {

  /** One byte of a Python `bytes` object. */
  newtype Byte = x: int | 0 <= x < 256

  function Pow2(n: nat): nat {
    if n == 0 then 1 else 2 * Pow2(n - 1)
  }

  function Pow256(n: nat): nat {
    if n == 0 then 1 else 256 * Pow256(n - 1)
  }

  /** `int.bit_length()` for a nonnegative integer. */
  function BitLength(h: nat): nat {
    if h == 0 then 0 else 1 + BitLength(h / 2)
  }

  /** `(h.bit_length() + 7) // 8`. */
  function ByteLength(h: nat): nat {
    (BitLength(h) + 7) / 8
  }

  /** `h.to_bytes(len, 'big')` for an `h` that fits in `len` bytes. */
  function ToBigEndian(h: nat, len: nat): (r: seq<Byte>)
    ensures |r| == len
  {
    if len == 0 then [] else ToBigEndian(h / 256, len - 1) + [(h % 256) as Byte]
  }

  /** `int.from_bytes(bs, 'big')`: the reading back. */
  function FromBigEndian(bs: seq<Byte>): nat {
    if bs == [] then 0 else FromBigEndian(bs[..|bs| - 1]) * 256 + bs[|bs| - 1] as int
  }

  /** `to_bytes` raises `OverflowError` for a negative integer, hence the precondition. */
  function HashToBytes(h: int): seq<Byte>
    requires h >= 0
  {
    ToBigEndian(h, ByteLength(h))
  }

  /** A byte string without a leading zero byte. */
  predicate Minimal(bs: seq<Byte>) {
    bs == [] || bs[0] != 0
  }

  lemma {:induction false} Pow2Mono(a: nat, b: nat)
    requires a <= b
    ensures Pow2(a) <= Pow2(b)
    decreases b
  {
    if a < b {
      Pow2Mono(a, b - 1);
    }
  }

  lemma Pow2Reflect(a: nat, b: nat)
    requires Pow2(a) < Pow2(b)
    ensures a < b
  {
    if a >= b {
      Pow2Mono(b, a);
    }
  }

  lemma {:induction false} Pow2Pow256(k: nat)
    ensures Pow2(8 * k) == Pow256(k)
  {
    if k > 0 {
      Pow2Pow256(k - 1);
      var n := 8 * (k - 1);
      assert Pow2(n + 8) == 2 * Pow2(n + 7) == 4 * Pow2(n + 6) == 8 * Pow2(n + 5) == 16 * Pow2(n + 4);
      assert Pow2(n + 4) == 2 * Pow2(n + 3) == 4 * Pow2(n + 2) == 8 * Pow2(n + 1) == 16 * Pow2(n);
    }
  }

  /** `h` needs exactly `bit_length(h)` bits. */
  lemma {:induction false} BitLengthBounds(h: nat)
    ensures h < Pow2(BitLength(h))
    ensures h > 0 ==> Pow2(BitLength(h) - 1) <= h
  {
    if h > 0 {
      BitLengthBounds(h / 2);
    }
  }

  lemma {:induction false} BitLengthExact(h: nat, k: nat)
    requires k > 0 && Pow2(k - 1) <= h < Pow2(k)
    ensures BitLength(h) == k
  {
    if k > 1 {
      BitLengthExact(h / 2, k - 1);
    }
  }

  /** `h` fits in `ByteLength(h)` bytes, and in no fewer. */
  lemma ByteLengthBounds(h: nat)
    ensures h < Pow256(ByteLength(h))
    ensures h > 0 ==> ByteLength(h) > 0 && Pow256(ByteLength(h) - 1) <= h
  {
    var b, n := BitLength(h), ByteLength(h);
    BitLengthBounds(h);
    Pow2Mono(b, 8 * n);
    Pow2Pow256(n);
    if h > 0 {
      Pow2Mono(8 * (n - 1), b - 1);
      Pow2Pow256(n - 1);
    }
  }

  lemma {:induction false} FromToBigEndian(h: nat, len: nat)
    requires h < Pow256(len)
    ensures FromBigEndian(ToBigEndian(h, len)) == h
  {
    if len > 0 {
      var q, b := h / 256, (h % 256) as Byte;
      assert q < Pow256(len - 1);
      var init := ToBigEndian(q, len - 1);
      var r := init + [b];
      assert r[..|r| - 1] == init;
      FromToBigEndian(q, len - 1);
      assert FromBigEndian(r) == q * 256 + b as int;
    }
  }

  lemma {:induction false} LeadingByteNonzero(h: nat, len: nat)
    requires len > 0 && Pow256(len - 1) <= h < Pow256(len)
    ensures ToBigEndian(h, len)[0] != 0
  {
    if len > 1 {
      LeadingByteNonzero(h / 256, len - 1);
    }
  }

  /** Reading the bytes back as a big-endian unsigned integer gives `h`. */
  lemma HashToBytesRoundTrip(h: int)
    requires h >= 0
    ensures FromBigEndian(HashToBytes(h)) == h
  {
    ByteLengthBounds(h);
    FromToBigEndian(h, ByteLength(h));
  }

  /**
   * The encoding has `(bit_length(h) + 7) // 8` bytes, is empty exactly for
   * 0 and otherwise starts with a nonzero byte.
   */
  lemma HashToBytesMinimal(h: int)
    requires h >= 0
    ensures |HashToBytes(h)| == (BitLength(h) + 7) / 8
    ensures HashToBytes(h) == [] <==> h == 0
    ensures Minimal(HashToBytes(h))
  {
    ByteLengthBounds(h);
    if h > 0 {
      LeadingByteNonzero(h, ByteLength(h));
    }
  }

  lemma {:induction false} FromBigEndianBounds(bs: seq<Byte>)
    ensures FromBigEndian(bs) < Pow256(|bs|)
    ensures |bs| > 0 && bs[0] != 0 ==> Pow256(|bs| - 1) <= FromBigEndian(bs)
  {
    if bs != [] {
      var init := bs[..|bs| - 1];
      FromBigEndianBounds(init);
      if |bs| > 1 {
        assert init[0] == bs[0];
      }
    }
  }

  lemma {:induction false} ToFromBigEndian(bs: seq<Byte>)
    ensures ToBigEndian(FromBigEndian(bs), |bs|) == bs
  {
    if bs != [] {
      var init, last := bs[..|bs| - 1], bs[|bs| - 1];
      var v := FromBigEndian(bs);
      assert v == FromBigEndian(init) * 256 + last as int;
      assert v / 256 == FromBigEndian(init) && v % 256 == last as int;
      ToFromBigEndian(init);
      assert bs == init + [last];
    }
  }

  /** A value between `256^(n-1)` and `256^n` has exactly `n` bytes. */
  lemma ByteLengthExact(v: nat, n: nat)
    requires n > 0 && Pow256(n - 1) <= v < Pow256(n)
    ensures ByteLength(v) == n
  {
    BitLengthBounds(v);
    var b := BitLength(v);
    Pow2Pow256(n);
    Pow2Pow256(n - 1);
    Pow2Reflect(8 * (n - 1), b);
    Pow2Reflect(b - 1, 8 * n);
  }

  /** Every byte string without a leading zero is the encoding of exactly one integer. */
  lemma HashToBytesOnto(bs: seq<Byte>)
    requires Minimal(bs)
    ensures HashToBytes(FromBigEndian(bs)) == bs
  {
    var v, n := FromBigEndian(bs), |bs|;
    FromBigEndianBounds(bs);
    ToFromBigEndian(bs);
    if n > 0 {
      ByteLengthExact(v, n);
    }
  }

  /** Two integers that encode alike are equal. */
  lemma HashToBytesInjective(h: int, g: int)
    requires h >= 0 && g >= 0
    ensures HashToBytes(h) == HashToBytes(g) <==> h == g
  {
    HashToBytesRoundTrip(h);
    HashToBytesRoundTrip(g);
  }
}
