/** Big-endian bit strings: the encodings a TON cell builder writes for
    unsigned and two's-complement integers and for bytes, and the readings
    that invert them. */
module Bits {

  /** An octet, as JavaScript's Buffer holds it. */
  type byte = x: int | 0 <= x < 256

  // ---------------------------------------------------------------------
  // Sequence facts: proof plumbing that only regroups concatenations. Each
  // fact is its own lemma, because the solver finds it only at great cost
  // inside a longer proof; none of them is a property of the wrapper.

  lemma Assoc3<X>(a: seq<X>, b: seq<X>, c: seq<X>)
    ensures a + b + c == a + (b + c)
  {
  }

  lemma Assoc4<X>(a: seq<X>, b: seq<X>, c: seq<X>, d: seq<X>)
    ensures a + b + c + d == a + (b + (c + d))
  {
  }

  lemma Assoc5<X>(a: seq<X>, b: seq<X>, c: seq<X>, d: seq<X>, e: seq<X>)
    ensures a + b + c + d + e == a + (b + c + d + e)
    ensures a + b + c + d + e == a + (b + (c + (d + e)))
  {
  }

  lemma Assoc7<X>(a: seq<X>, b: seq<X>, c: seq<X>, d: seq<X>, e: seq<X>, f: seq<X>, g: seq<X>)
    ensures a + b + c + d + e + f + g == a + (b + (c + (d + (e + (f + g)))))
  {
  }

  lemma RightUnit<X>(a: seq<X>)
    ensures a + [] == a && [] + a == a
  {
  }

  lemma Triple<X>(a: X, b: X, c: X, rest: seq<X>)
    ensures [] + [a] + [b] + [c] == [a, b, c]
    ensures [a, b, c] + rest == [a] + ([b] + ([c] + rest))
  {
  }

  lemma DropPrefix<X>(a: seq<X>, b: seq<X>)
    ensures (a + b)[|a|..] == b && (a + b)[..|a|] == a
  {
  }

  function Pow2(n: nat): (r: nat)
    ensures r >= 1
  {
    if n == 0 then 1 else 2 * Pow2(n - 1)
  }

  lemma {:induction false} Pow2Add(a: nat, b: nat)
    ensures Pow2(a + b) == Pow2(a) * Pow2(b)
  {
    if b > 0 {
      Pow2Add(a, b - 1);
      assert Pow2(a + b) == 2 * Pow2(a + b - 1);
    }
  }

  lemma {:induction false} Pow2Monotone(a: nat, b: nat)
    requires a <= b
    ensures Pow2(a) <= Pow2(b)
  {
    if a < b {
      Pow2Monotone(a, b - 1);
    }
  }

  /** The low n bits of v, most significant first: for v < 2^n, the n-bit
      big-endian representation of v that ton-core's writeUint produces. */
  function UintBits(v: nat, n: nat): (r: seq<bool>)
    ensures |r| == n
  {
    if n == 0 then [] else UintBits(v / 2, n - 1) + [v % 2 == 1]
  }

  /** The unsigned number a big-endian bit string denotes (loadUint). */
  function BitsToNat(bs: seq<bool>): (r: nat)
    ensures r < Pow2(|bs|)
  {
    if |bs| == 0 then 0
    else 2 * BitsToNat(bs[..|bs| - 1]) + (if bs[|bs| - 1] then 1 else 0)
  }

  lemma {:induction false} UintBitsRoundTrip(v: nat, n: nat)
    requires v < Pow2(n)
    ensures BitsToNat(UintBits(v, n)) == v
  {
    if n > 0 {
      var bs := UintBits(v, n);
      assert bs[..n - 1] == UintBits(v / 2, n - 1);
      assert bs[n - 1] == (v % 2 == 1);
      assert v / 2 < Pow2(n - 1);
      UintBitsRoundTrip(v / 2, n - 1);
      assert v == 2 * (v / 2) + v % 2;
    }
  }

  /** The other direction: every bit string is the encoding of its value,
      so two encodings of the same width are equal exactly when the values are. */
  lemma {:induction false} BitsToNatRoundTrip(bs: seq<bool>)
    ensures UintBits(BitsToNat(bs), |bs|) == bs
  {
    if |bs| > 0 {
      var init := bs[..|bs| - 1];
      BitsToNatRoundTrip(init);
      assert bs == init + [bs[|bs| - 1]];
    }
  }

  lemma UintBitsInjective(v: nat, w: nat, n: nat)
    requires v < Pow2(n) && w < Pow2(n)
    requires UintBits(v, n) == UintBits(w, n)
    ensures v == w
  {
    UintBitsRoundTrip(v, n);
    UintBitsRoundTrip(w, n);
  }

  /** v is representable as an n-bit two's-complement integer. */
  predicate IntFits(v: int, n: nat)
  {
    n >= 1 && -(Pow2(n - 1) as int) <= v < Pow2(n - 1)
  }

  /** The n-bit two's-complement representation of v (ton-core writeInt):
      a sign bit followed by v, or by 2^(n-1) + v when v is negative. */
  function IntBits(v: int, n: nat): (r: seq<bool>)
    requires IntFits(v, n)
    ensures |r| == n
  {
    var half := Pow2(n - 1);
    if v < 0 then [true] + UintBits(half + v, n - 1) else [false] + UintBits(v, n - 1)
  }

  /** The signed number a two's-complement bit string denotes (loadInt). */
  function BitsToInt(bs: seq<bool>): int
    requires |bs| >= 1
  {
    var magnitude := BitsToNat(bs[1..]);
    if bs[0] then magnitude - Pow2(|bs| - 1) else magnitude
  }

  lemma IntBitsRoundTrip(v: int, n: nat)
    requires IntFits(v, n)
    ensures BitsToInt(IntBits(v, n)) == v
  {
    var bs := IntBits(v, n);
    if v < 0 {
      assert bs[1..] == UintBits(Pow2(n - 1) + v, n - 1);
      UintBitsRoundTrip(Pow2(n - 1) + v, n - 1);
    } else {
      assert bs[1..] == UintBits(v, n - 1);
      UintBitsRoundTrip(v, n - 1);
    }
  }

  /** Bytes laid out one after another, eight bits each, most significant first. */
  function BytesBits(bs: seq<byte>): (r: seq<bool>)
    ensures |r| == 8 * |bs| && |r| % 8 == 0
  {
    if |bs| == 0 then [] else UintBits(bs[0], 8) + BytesBits(bs[1..])
  }

  /** Reads whole bytes off a bit string whose length is a multiple of 8. */
  function BitsToBytes(bits: seq<bool>): (r: seq<byte>)
    requires |bits| % 8 == 0
    ensures 8 * |r| == |bits|
  {
    if |bits| == 0 then []
    else
      var b := BitsToNat(bits[..8]);
      assert Pow2(8) == 256;
      [b] + BitsToBytes(bits[8..])
  }

  lemma {:induction false} BytesRoundTrip(bs: seq<byte>)
    ensures BitsToBytes(BytesBits(bs)) == bs
  {
    if |bs| > 0 {
      assert Pow2(8) == 256;
      var bits := BytesBits(bs);
      assert bits[..8] == UintBits(bs[0], 8);
      assert bits[8..] == BytesBits(bs[1..]);
      UintBitsRoundTrip(bs[0], 8);
      BytesRoundTrip(bs[1..]);
    }
  }

  /** The number of bytes in the shortest big-endian form of v: the length
      prefix ton-core writes in front of a "coins" amount
      (ceil(bitLength(v) / 8), and 0 for v = 0). */
  function ByteLen(v: nat): nat
  {
    if v == 0 then 0 else 1 + ByteLen(v / 256)
  }

  /** v fits in ByteLen(v) bytes, and (when v > 0) in no fewer. */
  lemma {:induction false} ByteLenBounds(v: nat)
    ensures v < Pow2(8 * ByteLen(v))
    ensures v > 0 ==> ByteLen(v) >= 1 && Pow2(8 * (ByteLen(v) - 1)) <= v
  {
    if v > 0 {
      var k := ByteLen(v / 256);
      ByteLenBounds(v / 256);
      Pow2Add(8 * k, 8);
      assert Pow2(8) == 256;
      if v / 256 > 0 {
        Pow2Add(8 * (k - 1), 8);
        assert 8 * (k - 1) + 8 == 8 * k;
      }
    }
  }

  /** A 4-bit byte-length prefix (VarUInteger 16) can hold v exactly when v < 2^120. */
  lemma CoinsLengthFits(v: nat)
    ensures ByteLen(v) < 16 <==> v < Pow2(120)
  {
    ByteLenBounds(v);
    if ByteLen(v) < 16 {
      Pow2Monotone(8 * ByteLen(v), 120);
    } else {
      Pow2Monotone(120, 8 * (ByteLen(v) - 1));
    }
  }
}
