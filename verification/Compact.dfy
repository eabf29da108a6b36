/** The 32-bit compact encoding of difficulty targets: a base-256 float with a sign bit. */
module Compact {
  import opened Bits

  const SIZE_UNIT: nat := 0x100_0000   // the exponent byte sits above 24 bits
  const SIGN_BIT: nat := 0x80_0000

  type Word = x: nat | x < 0x1_0000_0000

  function BitLen(x: nat): (n: nat)
  {
    if x == 0 then 0 else 1 + BitLen(x / 2)
  }

  lemma {:induction false} BitLenBounds(x: nat)
    ensures x < Pow2(BitLen(x))
    ensures x > 0 ==> BitLen(x) > 0 && x >= Pow2(BitLen(x) - 1)
  {
    if x > 0 {
      BitLenBounds(x / 2);
    }
  }

  /** The bounds determine the length. */
  lemma BitLenUnique(x: nat, n: nat)
    requires x < Pow2(n) && (n > 0 ==> x >= Pow2(n - 1))
    ensures n == BitLen(x)
  {
    BitLenBounds(x);
    if n > 0 {
      Pow2Cancel(n - 1, BitLen(x));
    }
    if BitLen(x) > 0 {
      Pow2Cancel(BitLen(x) - 1, n);
    }
  }

  lemma BitLenMono(x: nat, y: nat)
    requires x <= y
    ensures BitLen(x) <= BitLen(y)
  {
    BitLenBounds(x);
    BitLenBounds(y);
    if BitLen(x) > 0 {
      Pow2Cancel(BitLen(x) - 1, BitLen(y));
    }
  }

  /** Exponent byte of a positive value: the fewest bytes that also leave the sign bit clear. */
  function Exponent(x: nat): (e: nat)
    ensures e >= 1
  {
    BitLen(x) / 8 + 1
  }

  /** Mantissa at a given exponent: the top three bytes, rounded down. */
  function Mantissa(x: nat, e: nat): (m: nat)
  {
    if e <= 3 then
      MulMono(0, x, Pow256(3 - e));
      x * Pow256(3 - e)
    else
      DivNonNegative(x, Pow256(e - 3));
      x / Pow256(e - 3)
  }

  /** The value a mantissa and exponent stand for, before any truncation to 256 bits. */
  function Expand(m: nat, e: nat): (v: nat)
  {
    if e <= 3 then
      DivNonNegative(m, Pow256(3 - e));
      m / Pow256(3 - e)
    else
      MulMono(0, m, Pow256(e - 3));
      m * Pow256(e - 3)
  }

  /** What GetCompact() returns. */
  function Encode(x: nat): (w: nat)
  {
    if x == 0 then 0 else Exponent(x) * SIZE_UNIT + Mantissa(x, Exponent(x))
  }

  /** What GetCompact(fNegative) returns: the sign bit is set on a negative number with a mantissa. */
  function EncodeSigned(x: nat, negative: bool): (w: nat)
  {
    if negative && Encode(x) % SIGN_BIT != 0 then Encode(x) + SIGN_BIT else Encode(x)
  }

  /** The value SetCompact() reads, before truncation. */
  function TrueValue(w: Word): (v: nat)
  {
    Expand(w % SIGN_BIT, w / SIZE_UNIT)
  }

  /** The mantissa after SetCompact() shifted it right for small exponents. */
  function ShiftedWord(w: Word): (n: nat)
  {
    if w / SIZE_UNIT <= 3 then Expand(w % SIGN_BIT, w / SIZE_UNIT) else w % SIGN_BIT
  }

  predicate Negative(w: Word)
  {
    ShiftedWord(w) != 0 && (w / SIGN_BIT) % 2 == 1
  }

  predicate Overflow(w: Word)
  {
    var size, n := w / SIZE_UNIT, ShiftedWord(w);
    n != 0 && (size > 34 || (n > 0xff && size > 33) || (n > 0xffff && size > 32))
  }

  /** A value and its exponent bracket each other. */
  lemma ExponentBounds(x: nat)
    requires x > 0
    ensures 8 * Exponent(x) <= 9 || x >= Pow2(8 * Exponent(x) - 9)
    ensures x < Pow2(8 * Exponent(x) - 1)
  {
    BitLenBounds(x);
    var n, e := BitLen(x), Exponent(x);
    Pow2Mono(n, 8 * e - 1);
    if 8 * e > 9 {
      Pow2Mono(8 * e - 9, n - 1);
    }
  }

  lemma ExponentUnique(x: nat, e: nat)
    requires e >= 2 && Pow2(8 * e - 9) <= x < Pow2(8 * e - 1)
    ensures Exponent(x) == e
  {
    BitLenBounds(x);
    Pow2Cancel(BitLen(x) - 1, 8 * e - 1);
    Pow2Cancel(8 * e - 9, BitLen(x));
  }

  /** The mantissa of a positive value uses 16 to 23 bits. */
  lemma MantissaRange(x: nat)
    requires x > 0
    ensures 0x8000 <= Mantissa(x, Exponent(x)) < SIGN_BIT
  {
    var e := Exponent(x);
    ExponentBounds(x);
    if e > 3 {
      ScaledBounds(e);
      QuotientRange(x, 0x8000, SIGN_BIT, Pow256(e - 3));
    } else {
      SmallMantissa(x, e);
    }
  }

  /** The bounds of an exponent above three, as mantissa bounds at its scale. */
  lemma ScaledBounds(e: nat)
    requires e > 3
    ensures Pow2(8 * e - 9) == 0x8000 * Pow256(e - 3) && Pow2(8 * e - 1) == SIGN_BIT * Pow256(e - 3)
  {
    Pow256IsPow2(e - 3);
    Pow2Add(15, 8 * (e - 3));
    Pow2Add(23, 8 * (e - 3));
    assert Pow2(15) == 0x8000 && Pow2(23) == SIGN_BIT;
  }

  lemma QuotientRange(x: nat, lo: nat, hi: nat, m: nat)
    requires m > 0 && lo * m <= x < hi * m
    ensures lo <= x / m < hi
  {
    var q := x / m;
    assert q * m <= x < q * m + m;
    assert q < lo ==> q * m + m <= lo * m by {
      if q < lo {
        MulMono(q + 1, lo, m);
        Distrib(q, 1, m);
      }
    }
    assert q >= hi ==> q * m >= hi * m by {
      if q >= hi {
        MulMono(hi, q, m);
      }
    }
  }

  lemma SmallMantissa(x: nat, e: nat)
    requires 1 <= e <= 3 && x > 0 && x < Pow2(8 * e - 1) && (8 * e <= 9 || x >= Pow2(8 * e - 9))
    ensures 0x8000 <= x * Pow256(3 - e) < SIGN_BIT
  {
    assert Pow2(7) == 0x80 && Pow2(15) == 0x8000 && Pow2(23) == 0x80_0000;
    assert Pow256(0) == 1 && Pow256(1) == 0x100 && Pow256(2) == 0x1_0000;
  }

  /** The word carries exactly its exponent and mantissa, sign bit clear. */
  lemma EncodeFields(x: nat)
    requires 0 < x < TWO_256
    ensures Encode(x) < 0x1_0000_0000
    ensures Encode(x) / SIZE_UNIT == Exponent(x) <= 33
    ensures Encode(x) % SIGN_BIT == Mantissa(x, Exponent(x))
    ensures (Encode(x) / SIGN_BIT) % 2 == 0
  {
    MantissaRange(x);
    AtMost256Bits(x);
    PackedFields(Exponent(x), Mantissa(x, Exponent(x)));
  }

  lemma AtMost256Bits(x: nat)
    requires x < TWO_256
    ensures BitLen(x) <= 256
  {
    Pow2Of256();
    BitLenBounds(x);
    if BitLen(x) > 0 {
      Pow2Cancel(BitLen(x) - 1, 256);
    }
  }

  lemma PackedFields(e: nat, m: nat)
    requires e <= 33 && m < SIGN_BIT
    ensures var w := e * SIZE_UNIT + m;
            w < 0x1_0000_0000 && w / SIZE_UNIT == e && w % SIGN_BIT == m && (w / SIGN_BIT) % 2 == 0
  {
    DivModUnique(e * SIZE_UNIT + m, SIZE_UNIT, e, m);
    DivModUnique(e * SIZE_UNIT + m, SIGN_BIT, 2 * e, m);
  }

  /** Expanding the mantissa loses less than one part in 2^15 and keeps exponent and mantissa. */
  lemma ExpandMantissa(x: nat)
    requires x > 0
    ensures var e := Exponent(x); var d := Expand(Mantissa(x, e), e);
            0 < d <= x && (x - d) * 0x8000 < d && Exponent(d) == e && Mantissa(d, e) == Mantissa(x, e)
  {
    var e := Exponent(x);
    var m := Mantissa(x, e);
    MantissaRange(x);
    if e <= 3 {
      DivModUnique(m, Pow256(3 - e), x, 0);
    } else {
      var t := Pow256(e - 3);
      ExponentBounds(x);
      RoundedDown(x, m, t);
      DivModUnique(m * t, t, m, 0);
      ScaledBounds(e);
      MulMono(0x8000, m, t);
      ExponentUnique(m * t, e);
    }
  }

  lemma RoundedDown(x: nat, m: nat, t: nat)
    requires t > 0 && m == x / t && m >= 0x8000
    ensures 0 < m * t <= x && (x - m * t) * 0x8000 < m * t
  {
    assert x == m * t + x % t;
    MulMono(0x8000, m, t);
  }

  /**
   * Encoding a positive 256-bit value and decoding the word again: neither flag is raised, the
   * decoded value is the original rounded down by less than one part in 2^15, and encoding it
   * once more gives the same word.
   */
  lemma CompactRoundTrip(x: nat)
    requires 0 < x < TWO_256
    ensures var w := Encode(x);
            && w < 0x1_0000_0000
            && !Negative(w) && !Overflow(w)
            && 0 < TrueValue(w) <= x && (x - TrueValue(w)) * 0x8000 < TrueValue(w)
            && Encode(TrueValue(w)) == w
  {
    EncodeFields(x);
    ExpandMantissa(x);
    OverflowExact(Encode(x));
  }

  /** The sign is read back as it was written, beside the same value. */
  lemma SignedRoundTrip(x: nat, negative: bool)
    requires 0 < x < TWO_256
    ensures var w := EncodeSigned(x, negative);
            && w < 0x1_0000_0000 && (Negative(w) <==> negative) && !Overflow(w) && TrueValue(w) == TrueValue(Encode(x))
  {
    hide Expand, Mantissa, Exponent;
    CompactRoundTrip(x);
    EncodeFields(x);
    MantissaRange(x);
    SetSign(Encode(x));
    if Encode(x) / SIZE_UNIT > 3 {
      assert ShiftedWord(Encode(x)) == Encode(x) % SIGN_BIT;
    } else {
      assert ShiftedWord(Encode(x)) == TrueValue(Encode(x));
    }
  }

  lemma SetSign(w: nat)
    requires w < 0x1_0000_0000 && (w / SIGN_BIT) % 2 == 0
    ensures var v := w + SIGN_BIT;
            v < 0x1_0000_0000 && v % SIGN_BIT == w % SIGN_BIT && v / SIZE_UNIT == w / SIZE_UNIT && (v / SIGN_BIT) % 2 == 1
  {
  }

  /** Encoding is monotone: comparing words compares targets. */
  lemma EncodeMonotone(x: nat, y: nat)
    requires x <= y
    ensures Encode(x) <= Encode(y)
  {
    if x > 0 {
      MantissaRange(x);
      MantissaRange(y);
      BitLenMono(x, y);
      if Exponent(x) == Exponent(y) {
        var e := Exponent(x);
        if e <= 3 {
          MulMono(x, y, Pow256(3 - e));
        } else {
          DivMono(x, y, Pow256(e - 3));
        }
      }
    }
  }

  /** The overflow flag is raised exactly when the encoded value does not fit 256 bits. */
  lemma OverflowExact(w: Word)
    ensures Overflow(w) <==> TrueValue(w) >= TWO_256
  {
    var size, n := w / SIZE_UNIT, w % SIGN_BIT;
    if size <= 3 {
      DivNonNegative(n, Pow256(3 - size));
    } else {
      OverflowByBytes(n, size - 3);
    }
  }

  lemma OverflowByBytes(n: nat, k: nat)
    requires n < SIGN_BIT
    ensures n * Pow256(k) >= TWO_256 <==>
              n != 0 && (k > 31 || (n > 0xff && k > 30) || (n > 0xffff && k > 29))
  {
    Pow256Of32();
    assert Pow256(0) == 1 && Pow256(1) == 0x100 && Pow256(2) == 0x1_0000 && Pow256(3) == 0x100_0000;
    if n > 0xffff {
      OverflowAt(n, k, 2);
    } else if n > 0xff {
      OverflowAt(n, k, 1);
    } else if n > 0 {
      OverflowAt(n, k, 0);
    }
  }

  /** A mantissa of j + 1 bytes, scaled by 256^k, crosses 256^32 exactly at j + k == 32. */
  lemma OverflowAt(n: nat, k: nat, j: nat)
    requires Pow256(j) <= n < Pow256(j + 1)
    ensures n * Pow256(k) >= Pow256(32) <==> j + k >= 32
  {
    Pow256Add(j, k);
    Pow256Add(j + 1, k);
    ScaledRange(n, Pow256(j), Pow256(j + 1), Pow256(k));
    if j + k >= 32 {
      Pow256Mono(32, j + k);
    } else {
      Pow256Mono(j + 1 + k, 32);
    }
  }

  lemma ScaledRange(n: nat, lo: nat, hi: nat, t: nat)
    requires lo <= n < hi && t > 0
    ensures lo * t <= n * t < hi * t
  {
    MulMono(lo, n, t);
    MulMono(n + 1, hi, t);
    Distrib(n, 1, t);
  }
}
