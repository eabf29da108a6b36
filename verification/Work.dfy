/** Targets and block work on 256-bit limb integers: SetCompact, GetCompact, GetBlockProof. */
module Work {
  import opened Bits
  import opened Limbs
  import opened LimbSteps
  import opened ArithUint
  import opened Compact

  const WIDTH_256: nat := 8

  lemma FullWeight()
    ensures W(WIDTH_256) == TWO_256
  {
    WIsPow2(8);
    Pow2Of256();
  }

  /** Bits that pass the range check made by every user of a decoded target. */
  predicate ValidBits(w: Word)
  {
    !Negative(w) && !Overflow(w) && TrueValue(w) != 0
  }

  /** The expected number of hashes behind a block: floor(2^256 / (target + 1)), or none for bad bits. */
  function BlockProof(w: Word): (p: nat)
    ensures ValidBits(w) <==> p > 0
    ensures p < TWO_256
  {
    if ValidBits(w) then
      OverflowExact(w);
      ProofRange(TrueValue(w));
      TWO_256 / (TrueValue(w) + 1)
    else 0
  }

  lemma ProofRange(t: nat)
    requires 0 < t < TWO_256
    ensures 0 < TWO_256 / (t + 1) < TWO_256
  {
    var q, r := TWO_256 / (t + 1), TWO_256 % (t + 1);
    assert TWO_256 == q * (t + 1) + r;
    assert q <= 0 ==> q * (t + 1) <= 0;
    assert q >= TWO_256 ==> q * (t + 1) >= TWO_256 * 2;
  }

  /** A compact word has a 23-bit mantissa, so it never denotes 2^256 - 1. */
  lemma NeverAllOnes(w: Word)
    ensures TrueValue(w) != TWO_256 - 1
  {
    var size, n := w / SIZE_UNIT, w % SIGN_BIT;
    if size <= 3 {
      DivNonNegative(n, Pow256(3 - size));
    } else {
      assert n * Pow256(size - 3) == (n * Pow256(size - 4) * 128) * 2;
    }
  }

  method SetCompact(u: BaseUint, w: Word) returns (negative: bool, overflow: bool)
    requires u.pn.Length == WIDTH_256
    modifies u.pn
    ensures u.Value() == TrueValue(w) % TWO_256
    ensures negative == Negative(w) && overflow == Overflow(w)
  {
    FullWeight();
    var size := w / SIZE_UNIT;
    var word := w % SIGN_BIT;
    if size <= 3 {
      word := word / Pow256(3 - size);
      u.AssignU64(word);
      SmallWord(w);
    } else {
      u.AssignU64(word);
      u.ShiftLeft(8 * (size - 3));
      Pow256IsPow2(size - 3);
    }
    negative := word != 0 && (w / SIGN_BIT) % 2 == 1;
    overflow := word != 0 && (size > 34 || (word > 0xff && size > 33) || (word > 0xffff && size > 32));
  }

  lemma SmallWord(w: Word)
    requires w / SIZE_UNIT <= 3
    ensures TrueValue(w) % TWO_256 == TrueValue(w) < SIGN_BIT
  {
    DivNonNegative(w % SIGN_BIT, Pow256(3 - w / SIZE_UNIT));
    DivModUnique(TrueValue(w), TWO_256, 0, TrueValue(w));
  }

  method GetCompact(u: BaseUint, negative: bool) returns (w: nat)
    requires u.pn.Length == WIDTH_256
    ensures w == EncodeSigned(u.Value(), negative)
  {
    hide Mantissa, BitLen, Encode;
    var bits := u.BitLength();
    BitLenUnique(u.Value(), bits);
    var size := (bits + 7) / 8;
    var compact := TopBytes(u, size);
    Normalised(u.Value(), size);
    if (compact / SIGN_BIT) % 2 == 1 {
      compact := compact / 256;
      size := size + 1;
    }
    PackedOr(size, compact);
    w := BitOr(size * SIZE_UNIT, compact);
    if negative && w % SIGN_BIT != 0 {
      // The sign bit is clear, so setting it adds it.
      w := w + SIGN_BIT;
    }
  }

  /** The three most significant bytes of a value that is size bytes long. */
  method TopBytes(u: BaseUint, size: nat) returns (compact: nat)
    requires u.pn.Length == WIDTH_256 && size == (BitLen(u.Value()) + 7) / 8
    ensures compact == Mantissa(u.Value(), size)
  {
    hide Pow256, Pow2, BitLen, Val;
    if size <= 3 {
      LowFits(u.Value(), size);
      var low := u.GetLow64();
      MulMono(0, low, Pow256(3 - size));
      compact := low * Pow256(3 - size);
    } else {
      HighFits(u.Value(), size);
      Pow256IsPow2(size - 3);
      var bn := new BaseUint.Copy(u);
      bn.ShiftRight(8 * (size - 3));
      compact := bn.GetLow64();
    }
  }

  lemma LowFits(x: nat, size: nat)
    requires size == (BitLen(x) + 7) / 8 <= 3
    ensures x % (BASE * BASE) == x
  {
    BitLenBounds(x);
    Pow2Mono(BitLen(x), 24);
    Pow2Literals();
  }

  lemma HighFits(x: nat, size: nat)
    requires size == (BitLen(x) + 7) / 8 && size > 3
    ensures 0 <= x / Pow256(size - 3) < SIZE_UNIT
    ensures (x / Pow256(size - 3)) % (BASE * BASE) == x / Pow256(size - 3)
  {
    BitLenBounds(x);
    Pow2Mono(BitLen(x), 8 * size);
    Pow256IsPow2(size);
    Pow256Add(3, size - 3);
    assert Pow256(3) == SIZE_UNIT;
    DivNonNegative(x, Pow256(size - 3));
    QuotientRange(x, 0, SIZE_UNIT, Pow256(size - 3));
  }

  /** The first three bytes, normalised for the sign bit, are exponent and mantissa. */
  lemma Normalised(x: nat, size: nat)
    requires size == (BitLen(x) + 7) / 8
    ensures var top := Mantissa(x, size);
            if (top / SIGN_BIT) % 2 == 1
            then top / 256 < SIGN_BIT && (size + 1) * SIZE_UNIT + top / 256 == Encode(x)
            else top < SIGN_BIT && size * SIZE_UNIT + top == Encode(x)
  {
    if x == 0 {
      SignClear(0);
    } else {
      NormalisedPositive(x, size);
    }
  }

  lemma NormalisedPositive(x: nat, size: nat)
    requires x > 0 && size == (BitLen(x) + 7) / 8
    ensures var top := Mantissa(x, size);
            if (top / SIGN_BIT) % 2 == 1
            then top / 256 < SIGN_BIT && (size + 1) * SIZE_UNIT + top / 256 == Encode(x)
            else top < SIGN_BIT && size * SIZE_UNIT + top == Encode(x)
  {
    hide Mantissa, BitLen;
    MantissaRange(x);
    TopThreeBytes(x, size);
    if BitLen(x) % 8 == 0 {
      NextExponent(x, size);
      SignSet(Mantissa(x, size), Mantissa(x, size + 1));
    } else {
      SignClear(Mantissa(x, size));
    }
  }

  lemma SignSet(top: nat, m: nat)
    requires top < SIZE_UNIT && m == top / 256 && m >= 0x8000
    ensures (top / SIGN_BIT) % 2 == 1
  {
  }

  lemma SignClear(top: nat)
    requires top < SIGN_BIT
    ensures (top / SIGN_BIT) % 2 == 0
  {
  }

  lemma TopThreeBytes(x: nat, size: nat)
    requires size == (BitLen(x) + 7) / 8
    ensures Mantissa(x, size) < SIZE_UNIT
  {
    if size > 3 {
      HighFits(x, size);
    } else {
      BitLenBounds(x);
      Pow2Mono(BitLen(x), 8 * size);
      Pow256IsPow2(size);
      Pow256Add(size, 3 - size);
      assert Pow256(3) == SIZE_UNIT;
      ScaledRange(x, x, Pow256(size), Pow256(3 - size));
    }
  }

  /** One exponent further the mantissa loses its last byte. */
  lemma NextExponent(x: nat, size: nat)
    ensures Mantissa(x, size) / 256 == Mantissa(x, size + 1)
  {
    if size < 3 {
      assert Pow256(3 - size) == 256 * Pow256(2 - size);
      assert x * Pow256(3 - size) == (x * Pow256(2 - size)) * 256 + 0;
    } else if size == 3 {
      assert Pow256(1) == 256;
    } else {
      DivDiv(x, Pow256(size - 3), 256);
    }
  }

  lemma PackedOr(size: nat, compact: nat)
    requires compact < SIGN_BIT
    ensures BitOr(size * SIZE_UNIT, compact) == size * SIZE_UNIT + compact
  {
    Pow2Literals();
    DivModUnique(size * SIZE_UNIT, SIZE_UNIT, size, 0);
    OrDisjoint(size * SIZE_UNIT, compact, 24);
  }

  /** ~t / (t + 1) + 1 is floor(2^256 / (t + 1)) without ever forming 2^256. */
  lemma ProofFormula(t: nat)
    requires 0 < t < TWO_256 - 1
    ensures (TWO_256 - 1 - t) / (t + 1) + 1 == TWO_256 / (t + 1)
    ensures (t + 1) % TWO_256 == t + 1 && ((TWO_256 - 1 - t) / (t + 1) + 1) % TWO_256 == (TWO_256 - 1 - t) / (t + 1) + 1
  {
    AddMultiple(TWO_256 - 1 - t, 1, t + 1);
    ProofRange(t);
  }

  /** The work of one header: `GetBlockProof`. */
  method GetBlockProof(bits: Word) returns (proof: BaseUint)
    ensures fresh(proof) && fresh(proof.pn) && proof.pn.Length == WIDTH_256
    ensures proof.Value() == BlockProof(bits)
  {
    hide Val, Pow2, TrueValue, Overflow, Negative;
    FullWeight();
    var target := new BaseUint.Zero(WIDTH_256);
    var negative, overflow := SetCompact(target, bits);
    InRange(bits);
    var zero := new BaseUint.Zero(WIDTH_256);
    var isZero := target.CompareTo(zero);
    if negative || overflow || isZero == 0 {
      return zero;
    }
    var ones := zero.Complement();
    var isOnes := target.CompareTo(ones);
    NeverAllOnes(bits);
    if isOnes == 0 {
      // Dead: a compact word never decodes to all ones.
      assert false;
    }
    proof := ProofOfTarget(target);
  }

  lemma InRange(bits: Word)
    ensures !Overflow(bits) ==> TrueValue(bits) % TWO_256 == TrueValue(bits) < TWO_256
  {
    OverflowExact(bits);
  }

  /** `~target / (target + 1) + 1`. */
  method ProofOfTarget(target: BaseUint) returns (proof: BaseUint)
    requires target.pn.Length == WIDTH_256 && 0 < target.Value() < TWO_256 - 1
    ensures fresh(proof) && fresh(proof.pn) && proof.pn.Length == WIDTH_256
    ensures proof.Value() == TWO_256 / (target.Value() + 1)
  {
    hide Val, Pow2;
    FullWeight();
    ProofFormula(target.Value());
    var divisor := new BaseUint.Copy(target);
    divisor.Increment();
    proof := target.Complement();
    var ok := proof.DivAssign(divisor);
    assert ok;
    proof.Increment();
  }

  /** Sum of block proofs, as an unbounded integer. */
  function ProofSum(bits: seq<Word>): (total: nat)
  {
    if |bits| == 0 then 0 else ProofSum(bits[..|bits| - 1]) + BlockProof(bits[|bits| - 1])
  }

  /** `CalculateHeadersWork`: headers with bad bits are skipped; the division there never divides by zero. */
  method CalculateHeadersWork(bits: seq<Word>) returns (total: BaseUint)
    ensures fresh(total) && fresh(total.pn) && total.pn.Length == WIDTH_256
    ensures total.Value() == ProofSum(bits) % TWO_256
  {
    hide Val, Pow2, TrueValue, Overflow, Negative, BlockProof, ProofSum, W;
    FullWeight();
    total := new BaseUint.Zero(WIDTH_256);
    NoSum(bits);
    for i := 0 to |bits|
      invariant fresh(total) && fresh(total.pn) && total.pn.Length == WIDTH_256
      invariant total.Value() == ProofSum(bits[..i]) % TWO_256
    {
      var proof := HeaderWork(bits[i]);
      SumStep(bits, i);
      total.AddAssign(proof);
    }
    assert bits[..|bits|] == bits;
  }

  lemma NoSum(bits: seq<Word>)
    ensures ProofSum(bits[..0]) % TWO_256 == 0
  {
  }

  lemma SumStep(bits: seq<Word>, i: nat)
    requires i < |bits|
    ensures ProofSum(bits[..i + 1]) % TWO_256 == (ProofSum(bits[..i]) % TWO_256 + BlockProof(bits[i])) % TWO_256
  {
    hide BlockProof;
    assert bits[..i + 1][..i] == bits[..i];
    var a, b := ProofSum(bits[..i]), BlockProof(bits[i]);
    ModMultiple(a % TWO_256 + b, a / TWO_256, TWO_256);
  }

  /** The loop body of CalculateHeadersWork: no guard against an all-ones target, none needed. */
  method HeaderWork(bits: Word) returns (proof: BaseUint)
    ensures fresh(proof) && fresh(proof.pn) && proof.pn.Length == WIDTH_256
    ensures proof.Value() == BlockProof(bits)
  {
    hide Val, Pow2, TrueValue, Overflow, Negative;
    FullWeight();
    var target := new BaseUint.Zero(WIDTH_256);
    var negative, overflow := SetCompact(target, bits);
    InRange(bits);
    proof := new BaseUint.Zero(WIDTH_256);
    var isZero := target.CompareTo(proof);
    if !negative && !overflow && isZero != 0 {
      NeverAllOnes(bits);
      proof := ProofOfTarget(target);
    }
  }
}
