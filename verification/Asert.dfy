/** The ASERT difficulty rule: exponential retargeting in 16-bit fixed point. */
module Asert {
  import opened Bits
  import opened Limbs
  import opened LimbSteps
  import opened ArithUint
  import opened Compact
  import opened Work

  const WIDTH_512: nat := 16

  /** C++ integer division: rounds toward zero. */
  function TruncDiv(a: int, b: int): (q: int)
    requires b > 0
  {
    if a >= 0 then a / b else -((-a) / b)
  }

  /** Seconds ahead of (negative) or behind (positive) the ideal schedule. */
  function Drift(timeDiff: int, heightDiff: int, spacing: int): (d: int)
  {
    timeDiff - spacing * (heightDiff + 1)
  }

  /** The drift in half-lives, with 16 fractional bits. */
  function FixedExponent(drift: int, halfLife: int): (e: int)
    requires halfLife > 0
  {
    TruncDiv(drift * 0x1_0000, halfLife)
  }

  /** The cubic under the approximation of 2^x, before the final shift. */
  function Cubic(frac: nat): (c: nat)
  {
    195766423245049 * frac + 971821376 * frac * frac + 5127 * frac * frac * frac + 0x8000_0000_0000
  }

  /** 65536 * 2^(frac / 65536), approximated. */
  function Factor(frac: nat): (f: nat)
  {
    0x1_0000 + Cubic(frac) / 0x1_0000_0000_0000
  }

  /** floor(x * 2^s) for a shift count of either sign. */
  function Scale(x: nat, s: int): (v: int)
  {
    if s <= 0 then x / Pow2(-s) else x * Pow2(s)
  }

  /** The reference target scaled by 2^(exponent / 65536), before any clamping. */
  function RawTarget(refTarget: nat, exponent: int): (t: int)
  {
    Scale(refTarget * Factor(exponent % 0x1_0000), exponent / 0x1_0000 - 16)
  }

  function Clamp(t: int, limit: nat): (r: int)
  {
    if t > limit then limit else if t < 1 then 1 else t
  }

  function Target(refTarget: nat, spacing: int, timeDiff: int, heightDiff: int, limit: nat, halfLife: int): (t: int)
    requires halfLife > 0
  {
    Clamp(RawTarget(refTarget, FixedExponent(Drift(timeDiff, heightDiff, spacing), halfLife)), limit)
  }

  /** Every partial sum of the cubic fits 64 bits and the factor stays within one octave. */
  lemma FactorRange(frac: nat)
    requires frac < 0x1_0000
    ensures Cubic(frac) < 0x1_0000_0000_0000_0000
    ensures 0x1_0000 <= Factor(frac) <= 0x1_ffff
  {
    CubicMono(frac, 0xffff);
  }

  lemma CubicMono(f: nat, g: nat)
    requires f <= g
    ensures Cubic(f) <= Cubic(g)
  {
    assert f * f <= g * g by {
      MulMono(f, g, f);
      MulMono(f, g, g);
    }
    assert f * f * f <= g * g * g by {
      MulMono(f * f, g * g, f);
      MulMono(f, g, g * g);
    }
  }

  lemma {:induction false} ScaleDouble(y: nat, s: int)
    ensures Scale(2 * y, s) == Scale(y, s + 1)
  {
    if s < 0 {
      DivDiv(2 * y, 2, Pow2(-s - 1));
    } else {
      assert Pow2(s + 1) == 2 * Pow2(s);
      assert (2 * y) * Pow2(s) == y * (2 * Pow2(s));
      assert Pow2(0) == 1;
    }
  }

  /** Scaling by one power of two less is halving. */
  lemma ScaleHalve(y: nat, s: int)
    ensures Scale(y, s + 1) / 2 == Scale(y, s)
  {
    if s < 0 {
      DivDiv(y, Pow2(-s - 1), 2);
    } else {
      assert Pow2(s + 1) == 2 * Pow2(s);
      assert y * (2 * Pow2(s)) == (y * Pow2(s)) * 2 + 0;
      DivModUnique(y * (2 * Pow2(s)), 2, y * Pow2(s), 0);
      assert Pow2(0) == 1;
    }
  }

  lemma ScaleMono(x: nat, y: nat, s: int)
    requires x <= y
    ensures Scale(x, s) <= Scale(y, s)
  {
    if s <= 0 {
      DivMono(x, y, Pow2(-s));
    } else {
      MulMono(x, y, Pow2(s));
    }
  }

  lemma {:induction false} ScaleShiftMono(y: nat, s: int, t: int)
    requires s <= t
    ensures Scale(y, s) <= Scale(y, t)
    decreases t - s
  {
    if s < t {
      ScaleMono(y, 2 * y, s);
      ScaleDouble(y, s);
      ScaleShiftMono(y, s + 1, t);
    }
  }

  /** The approximation never decreases, not even where the integer part of the exponent steps. */
  lemma RawTargetMono(refTarget: nat, e1: int, e2: int)
    requires e1 <= e2
    ensures RawTarget(refTarget, e1) <= RawTarget(refTarget, e2)
  {
    hide Scale, Cubic;
    var f1, f2 := e1 % 0x1_0000, e2 % 0x1_0000;
    var s1, s2 := e1 / 0x1_0000 - 16, e2 / 0x1_0000 - 16;
    FactorRange(f1);
    FactorRange(f2);
    var x, y := refTarget * Factor(f1), refTarget * Factor(f2);
    if s1 == s2 {
      CubicMono(f1, f2);
      DivMono(Cubic(f1), Cubic(f2), 0x1_0000_0000_0000);
      MulMono(Factor(f1), Factor(f2), refTarget);
      ScaleMono(x, y, s1);
    } else {
      MulMono(Factor(f1), 2 * Factor(f2), refTarget);
      assert refTarget * (2 * Factor(f2)) == 2 * y;
      ScaleMono(x, 2 * y, s1);
      ScaleDouble(y, s1);
      ScaleShiftMono(y, s1 + 1, s2);
    }
  }

  lemma TruncDivMono(a: int, b: int, m: int)
    requires a <= b && m > 0
    ensures TruncDiv(a, m) <= TruncDiv(b, m)
  {
    if a >= 0 {
      DivMono(a, b, m);
    } else if b < 0 {
      DivMono(-b, -a, m);
    } else {
      DivNonNegative(-a, m);
      DivNonNegative(b, m);
    }
  }

  lemma ExponentMono(d1: int, d2: int, halfLife: int)
    requires d1 <= d2 && halfLife > 0
    ensures FixedExponent(d1, halfLife) <= FixedExponent(d2, halfLife)
  {
    TruncDivMono(d1 * 0x1_0000, d2 * 0x1_0000, halfLife);
  }

  /** A later parent never makes the next target harder. */
  lemma LaterIsNotHarder(refTarget: nat, spacing: int, t1: int, t2: int, height: int, limit: nat, halfLife: int)
    requires t1 <= t2 && halfLife > 0 && limit >= 1
    ensures Target(refTarget, spacing, t1, height, limit, halfLife) <= Target(refTarget, spacing, t2, height, limit, halfLife)
  {
    hide RawTarget, FixedExponent;
    var d1, d2 := Drift(t1, height, spacing), Drift(t2, height, spacing);
    ExponentMono(d1, d2, halfLife);
    RawTargetMono(refTarget, FixedExponent(d1, halfLife), FixedExponent(d2, halfLife));
  }

  /** A greater height never makes the next target easier. */
  lemma HigherIsNotEasier(refTarget: nat, spacing: nat, time: int, h1: int, h2: int, limit: nat, halfLife: int)
    requires h1 <= h2 && halfLife > 0 && limit >= 1
    ensures Target(refTarget, spacing, time, h2, limit, halfLife) <= Target(refTarget, spacing, time, h1, limit, halfLife)
  {
    hide RawTarget, FixedExponent;
    var d1, d2 := Drift(time, h1, spacing), Drift(time, h2, spacing);
    assert d2 <= d1 by {
      Distrib(h2 - h1, h1 + 1, spacing);
      MulMono(0, h2 - h1, spacing);
    }
    ExponentMono(d2, d1, halfLife);
    RawTargetMono(refTarget, FixedExponent(d2, halfLife), FixedExponent(d1, halfLife));
  }

  /** A chain exactly on schedule keeps the reference target. */
  lemma OnScheduleKeepsTarget(refTarget: nat, spacing: int, heightDiff: int, limit: nat, halfLife: int)
    requires halfLife > 0 && 0 < refTarget <= limit
    ensures Target(refTarget, spacing, spacing * (heightDiff + 1), heightDiff, limit, halfLife) == refTarget
  {
    assert FixedExponent(0, halfLife) == 0 by {
      DivModUnique(0, halfLife, 0, 0);
    }
    assert Factor(0) == 0x1_0000;
    Pow2Literals();
    DivModUnique(refTarget * 0x1_0000, 0x1_0000, refTarget, 0);
  }

  /**
   * One half-life more of drift adds exactly one to the integer part of the exponent, except that
   * rounding toward zero loses a unit when the drift crosses zero off the fixed-point grid.
   */
  lemma HalfLifeStep(drift: int, halfLife: int)
    requires halfLife > 0
    ensures FixedExponent(drift + halfLife, halfLife) == FixedExponent(drift, halfLife) + 0x1_0000
            <==> drift >= 0 || drift <= -halfLife || (drift * 0x1_0000) % halfLife == 0
  {
    var a, m := drift * 0x1_0000, halfLife;
    assert (drift + halfLife) * 0x1_0000 == a + 0x1_0000 * m;
    if a >= 0 {
      AddMultiple(a, 0x1_0000, m);
    } else if a <= -0x1_0000 * m {
      AddMultiple(-a - 0x1_0000 * m, 0x1_0000, m);
    } else {
      CrossingZero(a, m);
    }
  }

  lemma CrossingZero(a: int, m: int)
    requires m > 0 && -0x1_0000 * m < a < 0
    ensures TruncDiv(a + 0x1_0000 * m, m) == TruncDiv(a, m) + 0x1_0000 <==> a % m == 0
  {
    var q, r := a / m, a % m;
    assert a == q * m + r;
    DivModUnique(a + 0x1_0000 * m, m, q + 0x1_0000, r);
    if r == 0 {
      DivModUnique(-a, m, -q, 0);
    } else {
      DivModUnique(-a, m, -q - 1, m - r);
    }
  }

  /** So the unclamped target doubles per half-life, on either side of the schedule. */
  lemma DoublesPerHalfLife(refTarget: nat, drift: int, halfLife: int)
    requires halfLife > 0 && (drift >= 0 || drift <= -halfLife)
    ensures RawTarget(refTarget, FixedExponent(drift + halfLife, halfLife)) / 2
            == RawTarget(refTarget, FixedExponent(drift, halfLife))
  {
    hide Scale, Factor, FixedExponent;
    HalfLifeStep(drift, halfLife);
    var e := FixedExponent(drift, halfLife);
    assert (e + 0x1_0000) % 0x1_0000 == e % 0x1_0000 && (e + 0x1_0000) / 0x1_0000 == e / 0x1_0000 + 1;
    ScaleHalve(refTarget * Factor(e % 0x1_0000), e / 0x1_0000 - 16);
  }

  /** `arith_uint512(b)`: the same value on twice as many limbs. */
  method Extend(b: BaseUint) returns (r: BaseUint)
    requires b.pn.Length == WIDTH_256
    ensures fresh(r) && fresh(r.pn) && r.pn.Length == WIDTH_512 && r.Value() == b.Value()
  {
    r := new BaseUint.Zero(WIDTH_512);
    forall i | 0 <= i < WIDTH_256 {
      r.pn[i] := b.pn[i];
    }
    ValLow(r.pn[..], WIDTH_256);
    assert r.pn[..][..WIDTH_256] == b.pn[..];
  }

  /** `ArithU512ToU256`: the low 256 bits. */
  method Truncate(b: BaseUint) returns (r: BaseUint)
    requires b.pn.Length == WIDTH_512
    ensures fresh(r) && fresh(r.pn) && r.pn.Length == WIDTH_256 && r.Value() == b.Value() % TWO_256
  {
    r := new BaseUint.Zero(WIDTH_256);
    forall i | 0 <= i < WIDTH_256 {
      r.pn[i] := b.pn[i];
    }
    assert r.pn[..] == b.pn[..][..WIDTH_256];
    LowHalf(b.pn[..]);
  }

  lemma LowHalf(s: seq<Limb>)
    requires |s| >= WIDTH_256
    ensures Val(s[..WIDTH_256]) == Val(s) % TWO_256
  {
    FullWeight();
    ValSplit(s, WIDTH_256);
    ValBound(s[..WIDTH_256]);
    DivModUnique(Val(s), TWO_256, Val(s[WIDTH_256..]), Val(s[..WIDTH_256]));
  }

  /** The shift counts stay within the 32-bit shift operand of the limb code. */
  predicate ShiftsFit(drift: int, halfLife: int)
  {
    halfLife > 0 && -0x7fff_0000 * halfLife <= drift <= 0x7fff_0000 * halfLife
  }

  lemma ExponentFits(drift: int, halfLife: int)
    requires ShiftsFit(drift, halfLife)
    ensures -0x7fff_0000 <= FixedExponent(drift, halfLife) / 0x1_0000 <= 0x7fff_0000
  {
    hide FixedExponent;
    ExponentMono(-0x7fff_0000 * halfLife, drift, halfLife);
    ExponentMono(drift, 0x7fff_0000 * halfLife, halfLife);
    WholeHalfLives(halfLife);
  }

  lemma WholeHalfLives(halfLife: int)
    requires halfLife > 0
    ensures FixedExponent(0x7fff_0000 * halfLife, halfLife) == 0x7fff_0000 * 0x1_0000
    ensures FixedExponent(-0x7fff_0000 * halfLife, halfLife) == -0x7fff_0000 * 0x1_0000
  {
    DivModUnique(0x7fff_0000 * halfLife * 0x1_0000, halfLife, 0x7fff_0000 * 0x1_0000, 0);
  }

  /**
   * `CalculateASERT`. The preconditions are the source's own assertions, plus the range in which its
   * 64-bit shift counts survive the narrowing to the shift operators' 32-bit operand.
   */
  method CalculateAsert(refTarget: BaseUint, spacing: int, timeDiff: int, heightDiff: int, powLimit: BaseUint, halfLife: int)
    returns (next: BaseUint)
    requires refTarget.pn.Length == WIDTH_256 == powLimit.pn.Length
    requires 0 < refTarget.Value() <= powLimit.Value()
    requires heightDiff >= 0 && halfLife > 0
    requires -0x8000_0000_0000 < Drift(timeDiff, heightDiff, spacing) < 0x8000_0000_0000
    requires ShiftsFit(Drift(timeDiff, heightDiff, spacing), halfLife)
    ensures next.pn.Length == WIDTH_256
    ensures next.Value() == Target(refTarget.Value(), spacing, timeDiff, heightDiff, powLimit.Value(), halfLife)
  {
    hide Val, W, Pow2, Scale, Factor, FixedExponent, ShiftsFit;
    var exponent := FixedExponent(Drift(timeDiff, heightDiff, spacing), halfLife);
    ExponentFits(Drift(timeDiff, heightDiff, spacing), halfLife);
    var shifts := exponent / 0x1_0000;
    var frac := exponent % 0x1_0000;
    assert exponent == shifts * 0x1_0000 + frac;
    FactorRange(frac);
    var next512 := Extend(refTarget);
    next512.MulU32(Factor(frac));
    ProductBelow(refTarget.pn[..], Factor(frac));
    next512 := ApplyShift(next512, shifts - 16, powLimit);
    LimitBelow(powLimit.pn[..]);
    next := ClampTo(next512, powLimit);
  }

  lemma LimitBelow(s: seq<Limb>)
    requires |s| == WIDTH_256
    ensures Val(s) < W(WIDTH_512)
  {
    hide Val, W;
    ValBound(s);
    FullWeight();
    WAdd(8, 8);
  }

  lemma ProductBelow(s: seq<Limb>, f: nat)
    requires |s| == WIDTH_256 && f <= 0x1_ffff
    ensures (f * Val(s)) % W(WIDTH_512) == Val(s) * f
  {
    hide Val;
    ValBound(s);
    FullWeight();
    WAdd(8, 8);
    MulMono(f, TWO_256, Val(s));
    MulMono(Val(s), TWO_256 - 1, TWO_256);
    DivModUnique(f * Val(s), W(WIDTH_512), 0, f * Val(s));
  }

  /** Multiply by 2^shifts, replacing a result that would overflow 512 bits by the limit. */
  method ApplyShift(x: BaseUint, shifts: int, powLimit: BaseUint) returns (r: BaseUint)
    requires x.pn.Length == WIDTH_512 && powLimit.pn.Length == WIDTH_256
    modifies x.pn
    ensures r.pn.Length == WIDTH_512
    ensures r.Value() == Scale(old(x.Value()), shifts)
            || (r.Value() == old(powLimit.Value()) && Scale(old(x.Value()), shifts) >= W(WIDTH_512))
  {
    hide Val, Pow2, W;
    if shifts <= 0 {
      x.ShiftRight(-shifts);
      return x;
    }
    var shifted := new BaseUint.Copy(x);
    shifted.ShiftLeft(shifts);
    var back := new BaseUint.Copy(shifted);
    back.ShiftRight(shifts);
    var c := back.CompareTo(x);
    OverflowSeen(x.pn[..], shifts);
    if c != 0 {
      r := Extend(powLimit);
    } else {
      r := shifted;
    }
  }

  /** Shifting back recovers the number exactly when no bit was lost. */
  lemma OverflowSeen(s: seq<Limb>, k: nat)
    ensures ((Val(s) * Pow2(k)) % W(|s|)) / Pow2(k) == Val(s) <==> Val(s) * Pow2(k) < W(|s|)
    ensures Val(s) * Pow2(k) < W(|s|) ==> (Val(s) * Pow2(k)) % W(|s|) == Val(s) * Pow2(k)
  {
    LostBits(Val(s), Pow2(k), W(|s|));
  }

  lemma LostBits(v: nat, t: nat, m: nat)
    requires t > 0 && m > 0
    ensures ((v * t) % m) / t == v <==> v * t < m
    ensures v * t < m ==> (v * t) % m == v * t
  {
    MulMono(0, v, t);
    if v * t < m {
      DivModUnique(v * t, m, 0, v * t);
      DivModUnique(v * t, t, v, 0);
    } else {
      var r := (v * t) % m;
      assert r == (r / t) * t + r % t;
    }
  }

  /** The two clamps at the end: not above the limit, not zero. */
  method ClampTo(x: BaseUint, powLimit: BaseUint) returns (next: BaseUint)
    requires x.pn.Length == WIDTH_512 && powLimit.pn.Length == WIDTH_256
    requires powLimit.Value() > 0
    ensures next.pn.Length == WIDTH_256
    ensures next.Value() == Clamp(x.Value(), powLimit.Value())
  {
    hide Val;
    FullWeight();
    ValBound(powLimit.pn[..]);
    var limit512 := Extend(powLimit);
    var c := x.CompareTo(limit512);
    var clamped := x;
    if c > 0 {
      clamped := limit512;
    }
    next := Truncate(clamped);
    var zero := new BaseUint.Zero(WIDTH_256);
    var isZero := next.CompareTo(zero);
    var above := next.CompareTo(powLimit);
    if isZero == 0 {
      next.AssignU64(1);
    } else if above > 0 {
      next := powLimit;
    }
  }
}
