/** Fixed-width unsigned integers on 32-bit limbs, updated in place. */
module ArithUint {
  import opened Bits
  import opened Limbs
  import opened LimbSteps

  class BaseUint {
    const pn: array<Limb>

    ghost function Value(): (v: int)
      reads pn
    {
      Val(pn[..])
    }

    constructor Zero(width: nat)
      ensures fresh(pn) && pn.Length == width && Value() == 0
      ensures forall i :: 0 <= i < width ==> pn[i] == 0
    {
      pn := new Limb[width](_ => 0);
      new;
      ValZeros(pn[..]);
    }

    constructor Copy(b: BaseUint)
      ensures fresh(pn) && pn[..] == b.pn[..]
    {
      pn := new Limb[b.pn.Length](i requires 0 <= i < b.pn.Length reads b.pn => b.pn[i]);
    }

    /** `*this = b` for another integer of the same width. */
    method Assign(b: BaseUint)
      requires b.pn.Length == pn.Length
      modifies pn
      ensures pn[..] == old(b.pn[..])
    {
      forall i | 0 <= i < pn.Length {
        pn[i] := b.pn[i];
      }
    }

    /** `*this = b` for a 64-bit word: two limbs, the rest cleared. */
    method AssignU64(b: nat)
      requires b < BASE * BASE && pn.Length >= 2
      modifies pn
      ensures Value() == b
    {
      pn[0] := b % BASE;
      pn[1] := b / BASE;
      for i := 2 to pn.Length
        invariant pn[0] == b % BASE && pn[1] == b / BASE
        invariant forall j :: 2 <= j < i ==> pn[j] == 0
      {
        pn[i] := 0;
      }
      TwoLimbs(pn[..]);
    }

    method AddAssign(b: BaseUint)
      requires b.pn.Length == pn.Length
      modifies pn
      ensures Value() == (old(Value()) + old(b.Value())) % W(pn.Length)
    {
      ghost var x, y := pn[..], b.pn[..];
      var carry := 0;
      for i := 0 to pn.Length
        invariant 0 <= carry <= 1
        invariant forall j :: i <= j < pn.Length ==> pn[j] == x[j] && b.pn[j] == y[j]
        invariant Val(pn[..][..i]) + carry * W(i) == Val(x[..i]) + Val(y[..i])
      {
        ghost var p, c := pn[..], carry;
        var n := carry + pn[i] + b.pn[i];
        pn[i] := n % BASE;
        carry := n / BASE;
        AddStep(p, pn[..], x, y, i, c, carry, pn[i]);
      }
      ValWhole(x);
      ValWhole(y);
      ValWhole(pn[..]);
      Truncated(pn[..], carry, Val(x) + Val(y));
    }

    method Increment()
      modifies pn
      ensures Value() == (old(Value()) + 1) % W(pn.Length)
    {
      ghost var x, total := pn[..], Val(pn[..]) + 1;
      var i := 0;
      ghost var q := 1;
      while i < pn.Length
        invariant 0 <= i <= pn.Length && q == 1
        invariant forall j :: i <= j < pn.Length ==> pn[j] == x[j]
        invariant Val(pn[..]) + W(i) == total
      {
        ghost var p := pn[..];
        pn[i] := (pn[i] + 1) % BASE;
        IncrementStep(p, pn[..], i);
        if pn[i] != 0 {
          q := 0;
          break;
        }
        i := i + 1;
      }
      Truncated(pn[..], q, total);
    }

    /** `~*this`, as a new integer. */
    method Complement() returns (ret: BaseUint)
      ensures fresh(ret) && fresh(ret.pn) && ret.pn.Length == pn.Length
      ensures ret.Value() == W(pn.Length) - 1 - Value()
    {
      ret := new BaseUint.Zero(pn.Length);
      for i := 0 to pn.Length
        invariant fresh(ret) && fresh(ret.pn) && ret.pn.Length == pn.Length
        invariant Val(ret.pn[..][..i]) + Val(pn[..][..i]) == W(i) - 1
      {
        ghost var r := ret.pn[..];
        ret.pn[i] := BASE - 1 - pn[i];
        ComplementStep(r, ret.pn[..], pn[..], i);
      }
      ValWhole(ret.pn[..]);
      ValWhole(pn[..]);
    }

    /** `-*this`, the two's complement. */
    method Negate() returns (ret: BaseUint)
      ensures fresh(ret) && fresh(ret.pn) && ret.pn.Length == pn.Length
      ensures ret.Value() == (W(pn.Length) - Value()) % W(pn.Length)
    {
      ret := Complement();
      ret.Increment();
    }

    method SubAssign(b: BaseUint)
      requires b.pn.Length == pn.Length
      modifies pn
      ensures Value() == (old(Value()) - old(b.Value())) % W(pn.Length)
    {
      ghost var x, y := Value(), b.Value();
      var neg := b.Negate();
      ghost var n := neg.Value();
      AddAssign(neg);
      ModSub(x, y, W(pn.Length), n, Value());
    }

    method MulU32(b32: Limb)
      modifies pn
      ensures Value() == (b32 * old(Value())) % W(pn.Length)
    {
      ghost var x := pn[..];
      var carry := 0;
      for i := 0 to pn.Length
        invariant 0 <= carry < BASE
        invariant forall j :: i <= j < pn.Length ==> pn[j] == x[j]
        invariant Val(pn[..][..i]) + carry * W(i) == b32 * Val(x[..i])
      {
        ghost var p, c := pn[..], carry;
        ProductFits(carry, 0, b32, pn[i]);
        var n := carry + b32 * pn[i];
        pn[i] := n % BASE;
        carry := n / BASE;
        MulU32Step(p, pn[..], x, i, c, b32, carry, pn[i]);
      }
      ValWhole(x);
      ValWhole(pn[..]);
      Truncated(pn[..], carry, b32 * Val(x));
    }

    method ShiftLeft(shift: nat)
      modifies pn
      ensures Value() == (old(Value()) * Pow2(shift)) % W(pn.Length)
    {
      var a := pn[..];
      Clear();
      ShlLoop(a, shift / 32, shift % 32);
    }

    /** The main loop of `<<=`, for a shift of k limbs and s bits. */
    method ShlLoop(a: seq<Limb>, k: nat, s: nat)
      requires |a| == pn.Length && s < 32 && Value() == 0
      requires forall j :: 0 <= j < pn.Length ==> pn[j] == 0
      modifies pn
      ensures Value() == (Val(a) * Pow2(32 * k + s)) % W(pn.Length)
    {
      hide Shifted, Val, W, Pow2;
      ghost var q := 0;
      ShiftStarts(pn[..], a, k, s);
      for i := 0 to pn.Length
        invariant Shifted(pn[..], a, i, k, s, q)
      {
        ghost var p := pn[..];
        ShiftRoom(p, a, i, k, s, q);
        var hi, lo := SplitLeft(a[i], s);
        OrLeft(i + k, s, hi, lo);
        q := ShiftMore(p, pn[..], a, i, k, s, hi, lo, q);
      }
      ShiftEnds(pn[..], a, k, s, q);
    }

    method ShiftRight(shift: nat)
      modifies pn
      ensures Value() == old(Value()) / Pow2(shift)
    {
      hide Pow2, Val;
      var a := pn[..];
      Clear();
      var k, s := shift / 32, shift % 32;
      DivModUnique(0, Pow2(shift), 0, 0);
      EmptyValue(a);
      for i := 0 to pn.Length
        invariant forall j :: 0 <= j < pn.Length && j >= i - k ==> pn[j] == 0
        invariant i - k - 1 >= 0 ==> pn[i - k - 1] < Pow2(32 - s)
        invariant Val(pn[..]) == Val(a[..i]) / Pow2(shift)
      {
        ghost var p := pn[..];
        var hi, lo := SplitRight(a[i], s);
        OrRight(i - k, s, hi, lo);
        ShrStep(p, pn[..], a, i, k, s, hi, lo);
      }
      ValWhole(a);
    }

    /** The loop body of `<<=`: OR the two halves of a shifted limb into positions t + 1 and t, if they exist. */
    method OrLeft(t: nat, s: nat, hi: Limb, lo: Limb)
      requires t + 1 < pn.Length ==> pn[t + 1] == 0
      requires t < pn.Length ==> BitOr(pn[t], lo) == pn[t] + lo < BASE
      modifies pn
      ensures pn[..] == (var p := old(pn[..]);
                         var up := if t + 1 < |p| && s != 0 then p[t + 1 := hi] else p;
                         if t < |p| then up[t := p[t] + lo] else up)
    {
      if t + 1 < pn.Length && s != 0 {
        pn[t + 1] := BitOr(pn[t + 1], hi);
      }
      if t < pn.Length {
        pn[t] := BitOr(pn[t], lo);
      }
    }

    /** The loop body of `>>=`: OR the two halves of a shifted limb into positions t - 1 and t, if they exist. */
    method OrRight(t: int, s: nat, hi: Limb, lo: Limb)
      requires t < pn.Length && (t >= 0 ==> pn[t] == 0)
      requires t >= 1 ==> BitOr(pn[t - 1], lo) == pn[t - 1] + lo < BASE
      modifies pn
      ensures pn[..] == (var p := old(pn[..]);
                         var low := if t - 1 >= 0 && s != 0 then p[t - 1 := p[t - 1] + lo] else p;
                         if t >= 0 then low[t := hi] else low)
    {
      if t - 1 >= 0 && s != 0 {
        pn[t - 1] := BitOr(pn[t - 1], lo);
      }
      if t >= 0 {
        pn[t] := BitOr(pn[t], hi);
      }
    }

    /** The zeroing loop shared by the shifts. */
    method Clear()
      modifies pn
      ensures forall j :: 0 <= j < pn.Length ==> pn[j] == 0
      ensures Value() == 0
    {
      for i := 0 to pn.Length
        invariant forall j :: 0 <= j < i ==> pn[j] == 0
      {
        pn[i] := 0;
      }
      ValZeros(pn[..]);
    }

    /** Schoolbook multiplication, dropping every column at or above the width. */
    method MulAssign(b: BaseUint)
      requires b.pn.Length == pn.Length
      modifies pn
      ensures Value() == (old(Value()) * old(b.Value())) % W(pn.Length)
    {
      ghost var x, y := pn[..], b.pn[..];
      var a := new BaseUint.Zero(pn.Length);
      ghost var q := 0;
      for j := 0 to pn.Length
        invariant fresh(a.pn) && a.pn.Length == pn.Length && pn[..] == x && b.pn[..] == y
        invariant Val(a.pn[..]) + q * W(pn.Length) == Val(x[..j]) * Val(y)
      {
        ghost var a0 := Val(a.pn[..]);
        var carry := a.AddRow(j, pn[j], b);
        q := MulRowSeq(x, y, j, a.Value(), a0, carry, q);
      }
      ValWhole(x);
      Assign(a);
      Truncated(pn[..], q, Val(x) * Val(y));
    }

    /** The inner loop of `*=`: adds pj * b, shifted up by j limbs, to this integer. */
    method AddRow(j: nat, pj: Limb, b: BaseUint) returns (carry: nat)
      requires j < pn.Length == b.pn.Length && b.pn != pn
      modifies pn
      ensures Value() + carry * W(pn.Length) == old(Value()) + pj * W(j) * Val(b.pn[..pn.Length - j])
    {
      ghost var a0, y := pn[..], b.pn[..];
      carry := 0;
      for i := 0 to pn.Length - j
        invariant 0 <= carry < BASE
        invariant forall t :: i + j <= t < pn.Length ==> pn[t] == a0[t]
        invariant Val(pn[..]) + carry * W(i + j) == Val(a0) + pj * W(j) * Val(y[..i])
      {
        ghost var p, c := pn[..], carry;
        ProductFits(carry, pn[i + j], pj, b.pn[i]);
        var n := carry + pn[i + j] + pj * b.pn[i];
        pn[i + j] := n % BASE;
        carry := n / BASE;
        RowStep(p, pn[..], y, i, j, c, pj, carry, pn[i + j]);
      }
      assert b.pn[..pn.Length - j] == y[..pn.Length - j];
    }

    /** Shift-and-subtract division. A zero divisor is an error, reported after the quotient was cleared. */
    method DivAssign(b: BaseUint) returns (ok: bool)
      requires b.pn.Length == pn.Length
      modifies pn
      ensures ok <==> old(b.Value()) != 0
      ensures ok ==> Value() == old(Value()) / old(b.Value())
      ensures !ok ==> Value() == 0
    {
      ghost var x, y := Value(), b.Value();
      var div := new BaseUint.Copy(b);
      var num := new BaseUint.Copy(this);
      Clear();
      var numBits := num.BitLength();
      var divBits := div.BitLength();
      if divBits == 0 {
        return false;
      }
      if divBits > numBits {
        QuotientZero(x, y, numBits, divBits);
        return true;
      }
      div.ShiftLeft(numBits - divBits);
      Aligned(x, y, numBits, divBits, pn.Length);
      DivLoop(num, div, numBits - divBits, x, y);
      return true;
    }

    /** The division loop: one quotient bit per round, from the aligned position down to bit zero. */
    method DivLoop(num: BaseUint, div: BaseUint, top: nat, ghost x: int, ghost y: int)
      requires num.pn.Length == pn.Length == div.pn.Length && top < 32 * pn.Length
      requires num.pn != pn && div.pn != pn && num.pn != div.pn
      requires y > 0 && Value() == 0 && num.Value() == x && div.Value() == y * Pow2(top)
      requires 0 <= x < y * Pow2(top + 1)
      modifies pn, num.pn, div.pn
      ensures Value() == x / y
    {
      var shift := top + 1;
      DivModUnique(0, Pow2(shift), 0, 0);
      while shift > 0
        invariant 0 <= shift <= top + 1
        invariant shift > 0 ==> div.Value() == y * Pow2(shift - 1)
        invariant 0 <= num.Value() < y * Pow2(shift)
        invariant x == Value() * y + num.Value()
        invariant Value() % Pow2(shift) == 0
      {
        shift := shift - 1;
        DivRound(x, Value(), y, num.Value(), shift);
        var c := num.CompareTo(div);
        if c >= 0 {
          SubtractFits(num.pn[..], y * Pow2(shift));
          num.SubAssign(div);
          SetQuotientBit(shift);
        }
        HalfDivisor(y, shift);
        div.ShiftRight(1);
      }
      DivModUnique(x, y, Value(), num.Value());
    }

    /** `pn[shift / 32] |= 1U << (shift & 31)` on a quotient whose bits up to shift are clear. */
    method SetQuotientBit(shift: nat)
      requires shift < 32 * pn.Length && Value() % Pow2(shift + 1) == 0
      modifies pn
      ensures Value() == old(Value()) + Pow2(shift)
    {
      var k, r := shift / 32, shift % 32;
      ghost var p := pn[..];
      LimbLowBits(p, k, r);
      RoomForBit(p[k], r);
      pn[k] := BitOr(pn[k], Pow2(r));
      PutLimb(p, pn[..], k, Pow2(r));
      ShiftWeight(k, r);
    }

    /** -1, 0 or 1, scanning from the most significant limb. */
    method CompareTo(b: BaseUint) returns (r: int)
      requires b.pn.Length == pn.Length
      ensures -1 <= r <= 1
      ensures r < 0 <==> Value() < b.Value()
      ensures r > 0 <==> Value() > b.Value()
    {
      var i := pn.Length;
      while i > 0
        invariant 0 <= i <= pn.Length
        invariant pn[i..] == b.pn[i..]
      {
        i := i - 1;
        if pn[i] < b.pn[i] {
          ValCompare(pn[..], b.pn[..], i);
          return -1;
        }
        if pn[i] > b.pn[i] {
          ValCompare(b.pn[..], pn[..], i);
          return 1;
        }
      }
      assert pn[..] == b.pn[..];
      return 0;
    }

    /** Position of the highest set bit plus one, zero for zero. */
    method BitLength() returns (r: nat)
      ensures r <= 32 * pn.Length
      ensures Value() < Pow2(r)
      ensures r > 0 ==> Value() >= Pow2(r - 1)
    {
      var pos := pn.Length;
      while pos > 0
        invariant 0 <= pos <= pn.Length
        invariant forall j :: pos <= j < pn.Length ==> pn[j] == 0
      {
        pos := pos - 1;
        if pn[pos] != 0 {
          var nbits := TopBit(pn[pos]);
          HighBit(pn[..], pos, nbits);
          return 32 * pos + nbits + 1;
        }
      }
      ValZeros(pn[..]);
      return 0;
    }

    method GetLow64() returns (r: nat)
      requires pn.Length >= 2
      ensures r == Value() % (BASE * BASE)
    {
      LowTwoLimbs(pn[..]);
      r := pn[0] + pn[1] * BASE;
    }
  }

  /** The inner loop of bits(): the highest set bit of a non-zero limb. */
  method TopBit(x: Limb) returns (n: nat)
    requires x != 0
    ensures n < 32 && Pow2(n) <= x < Pow2(n + 1)
  {
    Pow2Literals();
    n := 31;
    while n > 0 && (x / Pow2(n)) % 2 == 0
      invariant n < 32 && x < Pow2(n + 1)
    {
      BitClear(x, Pow2(n));
      n := n - 1;
    }
    if n > 0 {
      BitSet(x, Pow2(n));
    }
  }

  lemma BitClear(x: nat, t: nat)
    requires t > 0 && x < 2 * t && (x / t) % 2 == 0
    ensures x < t
  {
    assert x >= t ==> x == 1 * t + (x - t);
    if x >= t {
      DivModUnique(x, t, 1, x - t);
    }
  }

  lemma BitSet(x: nat, t: nat)
    requires t > 0 && (x / t) % 2 != 0
    ensures x >= t
  {
    if x < t {
      DivModUnique(x, t, 0, x);
    }
  }

  lemma TwoLimbs(s: seq<Limb>)
    requires |s| >= 2 && forall j :: 2 <= j < |s| ==> s[j] == 0
    ensures Val(s) == s[0] + s[1] * BASE
  {
    ValLow(s, 2);
    ValPrefix(s, 1);
    ValPrefix(s, 0);
    WStep(0);
    assert W(0) == 1;
  }

  lemma LowTwoLimbs(s: seq<Limb>)
    requires |s| >= 2
    ensures s[0] + s[1] * BASE == Val(s) % (BASE * BASE)
  {
    ValSplit(s, 2);
    TwoLimbs(s[..2]);
    ValBound(s[..2]);
    WStep(1);
    DivModUnique(Val(s), W(2), Val(s[2..]), Val(s[..2]));
  }

  lemma AddStep(p: seq<Limb>, p': seq<Limb>, x: seq<Limb>, y: seq<Limb>, i: nat, c: int, q: int, r: Limb)
    requires |p| == |p'| == |x| == |y| && i < |p| && p' == p[i := r]
    requires c + x[i] + y[i] == q * BASE + r
    requires Val(p[..i]) + c * W(i) == Val(x[..i]) + Val(y[..i])
    ensures Val(p'[..i + 1]) + q * W(i + 1) == Val(x[..i + 1]) + Val(y[..i + 1])
  {
    CarryStep(p, p', i, c, q, r, Val(x[..i]) + Val(y[..i]), x[i] as int + y[i] as int);
    ValPrefix(x, i);
    ValPrefix(y, i);
    Distrib(x[i], y[i], W(i));
  }

  lemma MulU32Step(p: seq<Limb>, p': seq<Limb>, x: seq<Limb>, i: nat, c: int, b: Limb, q: int, r: Limb)
    requires |p| == |p'| == |x| && i < |p| && p' == p[i := r]
    requires c + b * x[i] == q * BASE + r
    requires Val(p[..i]) + c * W(i) == b * Val(x[..i])
    ensures Val(p'[..i + 1]) + q * W(i + 1) == b * Val(x[..i + 1])
  {
    CarryStep(p, p', i, c, q, r, b * Val(x[..i]), b * x[i]);
    ValPrefix(x, i);
    MulAssoc(b, x[i], W(i));
    Distrib(Val(x[..i]), x[i] * W(i), b);
  }

  /** carry + a + b * x never leaves 64 bits, and its high half is again a limb. */
  lemma ProductFits(c: nat, a: nat, b: Limb, x: Limb)
    requires c < BASE && a < BASE
    ensures 0 <= b * x && c + a + b * x < BASE * BASE && (c + a + b * x) / BASE < BASE
  {
    MulMono(b, BASE - 1, x);
    MulMono(x, BASE - 1, BASE - 1);
  }

  lemma IncrementStep(p: seq<Limb>, p': seq<Limb>, i: nat)
    requires |p| == |p'| && i < |p|
    requires p' == p[i := (p[i] + 1) % BASE]
    ensures p'[i] != 0 ==> Val(p') == Val(p) + W(i)
    ensures p'[i] == 0 ==> Val(p') + W(i + 1) == Val(p) + W(i)
  {
    ValUpdate(p, i, p'[i]);
    WStep(i);
    Distrib(1, BASE, W(i));
    assert p'[i] as int - p[i] as int == 1 || p'[i] as int - p[i] as int == 1 - BASE as int;
  }

  /** The two halves of a limb shifted left by s bits; the low half leaves its bottom s bits free. */
  method SplitLeft(x: Limb, s: nat) returns (hi: Limb, lo: Limb)
    requires s < 32
    ensures x * Pow2(s) == hi * BASE + lo && hi < Pow2(s)
    ensures forall c: nat {:trigger BitOr(c, lo)} | c < Pow2(s) :: BitOr(c, lo) == c + lo < BASE
  {
    hide Pow2, BitOr;
    ShlSplit(x, s);
    Pow2Literals();
    Pow2Mono(s, 32);
    hi := x / Pow2(32 - s);
    lo := (x * Pow2(s)) % BASE;
    FreeBits(lo, s);
  }

  /** The two halves of a limb shifted right by s bits: what stays, and what moves to the limb below. */
  method SplitRight(x: Limb, s: nat) returns (hi: Limb, lo: Limb)
    requires s < 32
    ensures x * Pow2(32 - s) == hi * BASE + lo && hi == x / Pow2(s) && hi < Pow2(32 - s)
    ensures s == 0 ==> lo == 0
    ensures forall c: nat {:trigger BitOr(c, lo)} | c < Pow2(32 - s) :: BitOr(c, lo) == c + lo < BASE
  {
    hide Pow2, BitOr;
    Pow2Literals();
    Pow2Add(s, 32 - s);
    SplitAt(x, Pow2(s), Pow2(32 - s));
    Pow2Mono(32 - s, 32);
    hi := x / Pow2(s);
    lo := (x * Pow2(32 - s)) % BASE;
    FreeBits(lo, 32 - s);
  }

  /** A limb that is a multiple of 2^s takes any value below 2^s by OR, as if by addition. */
  lemma FreeBits(x: Limb, s: nat)
    requires s <= 32 && x % Pow2(s) == 0
    ensures forall c: nat {:trigger BitOr(c, x)} | c < Pow2(s) :: BitOr(c, x) == c + x < BASE
  {
    Pow2Literals();
    Pow2Add(s, 32 - s);
    MultipleBelow(x, Pow2(s), Pow2(32 - s));
    forall c: nat | c < Pow2(s)
      ensures BitOr(c, x) == c + x < BASE
    {
      OrDisjoint(x, c, s);
    }
  }

  /** The limbs hold the first i limbs of a shifted, less q multiples of the modulus. */
  ghost predicate Shifted(p: seq<Limb>, a: seq<Limb>, i: nat, k: nat, s: nat, q: int)
  {
    && |p| == |a| && i <= |a|
    && (forall j :: i + k < j < |p| ==> p[j] == 0) && (i + k < |p| ==> p[i + k] < Pow2(s))
    && Val(p) + q * W(|p|) == Val(a[..i]) * Pow2(32 * k + s)
  }

  lemma ShiftStarts(p: seq<Limb>, a: seq<Limb>, k: nat, s: nat)
    requires |p| == |a| && Val(p) == 0 && forall j :: 0 <= j < |p| ==> p[j] == 0
    ensures Shifted(p, a, 0, k, s, 0)
  {
    hide Val, W, Pow2;
    NoLimbs(a);
    Pow2Positive(s);
  }

  lemma NoLimbs(a: seq<Limb>)
    ensures Val(a[..0]) == 0
  {
  }

  lemma Pow2Positive(s: nat)
    ensures Pow2(s) > 0
  {
  }

  lemma ShiftRoom(p: seq<Limb>, a: seq<Limb>, i: nat, k: nat, s: nat, q: int)
    requires Shifted(p, a, i, k, s, q) && i < |a|
    ensures i + k + 1 < |p| ==> p[i + k + 1] == 0
    ensures i + k < |p| ==> p[i + k] < Pow2(s)
  {
    hide Val, W, Pow2;
  }

  lemma ShiftMore(p: seq<Limb>, p': seq<Limb>, a: seq<Limb>, i: nat, k: nat, s: nat, hi: Limb, lo: Limb, q: int)
    returns (q': int)
    requires Shifted(p, a, i, k, s, q) && i < |a| && |p'| == |p|
    requires a[i] * Pow2(s) == hi * BASE + lo && hi < Pow2(s) && (i + k < |p| ==> p[i + k] + lo < BASE)
    requires p' == (var up := if i + k + 1 < |p| && s != 0 then p[i + k + 1 := hi] else p;
                    if i + k < |p| then up[i + k := p[i + k] + lo] else up)
    ensures Shifted(p', a, i + 1, k, s, q')
  {
    hide Val, W;
    q' := ShlStep(p, p', a, i, k, s, hi, lo, q);
  }

  lemma ShiftEnds(p: seq<Limb>, a: seq<Limb>, k: nat, s: nat, q: int)
    requires Shifted(p, a, |a|, k, s, q)
    ensures Val(p) == (Val(a) * Pow2(32 * k + s)) % W(|p|)
  {
    hide Val, W, Pow2;
    ValWhole(a);
    Truncated(p, q, Val(a) * Pow2(32 * k + s));
  }

  lemma ShlStep(p: seq<Limb>, p': seq<Limb>, x: seq<Limb>, i: nat, k: nat, s: nat, hi: Limb, lo: Limb, q: int)
    returns (q': int)
    requires |p| == |p'| == |x| && i < |x|
    requires x[i] * Pow2(s) == hi * BASE + lo && (s == 0 ==> hi == 0)
    requires i + k + 1 < |p| ==> p[i + k + 1] == 0
    requires i + k < |p| ==> p[i + k] + lo < BASE
    requires p' == (var up := if i + k + 1 < |p| && s != 0 then p[i + k + 1 := hi] else p;
                    if i + k < |p| then up[i + k := p[i + k] + lo] else up)
    requires Val(p) + q * W(|p|) == Val(x[..i]) * Pow2(32 * k + s)
    ensures Val(p') + q' * W(|p|) == Val(x[..i + 1]) * Pow2(32 * k + s)
  {
    var up := if i + k + 1 < |p| && s != 0 then p[i + k + 1 := hi] else p;
    assert i + k + 1 < |p| ==> up == p[i + k + 1 := p[i + k + 1] + hi];
    PutLimb(p, up, i + k + 1, hi);
    PutLimb(up, p', i + k, lo);
    ShlLands(x[i], i, k, s, hi, lo);
    ValPrefix(x, i);
    Distrib(Val(x[..i]), x[i] * W(i), Pow2(32 * k + s));
    var o1 := if i + k + 1 < |p| then 0 else hi * W(i + k + 1 - |p|);
    var o2 := if i + k < |p| then 0 else lo * W(i + k - |p|);
    q' := q + o1 + o2;
    Distrib(q + o1, o2, W(|p|));
    Distrib(q, o1, W(|p|));
  }

  lemma ShrStep(p: seq<Limb>, p': seq<Limb>, x: seq<Limb>, i: nat, k: nat, s: nat, hi: Limb, lo: Limb)
    requires |p| == |p'| == |x| && i < |x| && s < 32
    requires x[i] * Pow2(32 - s) == hi * BASE + lo && hi == x[i] / Pow2(s) && (s == 0 ==> lo == 0)
    requires i - k >= 0 ==> p[i - k] == 0
    requires i - k - 1 >= 0 ==> p[i - k - 1] + lo < BASE
    requires p' == (var low := if i - k - 1 >= 0 && s != 0 then p[i - k - 1 := p[i - k - 1] + lo] else p;
                    if i - k >= 0 then low[i - k := hi] else low)
    requires Val(p) == Val(x[..i]) / Pow2(32 * k + s)
    ensures Val(p') == Val(x[..i + 1]) / Pow2(32 * k + s)
  {
    ValPrefix(x, i);
    ValBound(x[..i]);
    ShrLands(Val(x[..i]), x[i], i, k, s, hi, lo);
    ShrWrite(p, p', i, k, s, hi, lo);
  }

  lemma ShrWrite(p: seq<Limb>, p': seq<Limb>, i: nat, k: nat, s: nat, hi: Limb, lo: Limb)
    requires |p| == |p'| && i < |p| && (s == 0 ==> lo == 0)
    requires i - k >= 0 ==> p[i - k] == 0
    requires i - k - 1 >= 0 ==> p[i - k - 1] + lo < BASE
    requires p' == (var low := if i - k - 1 >= 0 && s != 0 then p[i - k - 1 := p[i - k - 1] + lo] else p;
                    if i - k >= 0 then low[i - k := hi] else low)
    ensures Val(p') == Val(p) + (if i < k then 0 else if i == k then hi else lo * W(i - k - 1) + hi * W(i - k))
  {
    if i == k {
      PutLimb(p, p', 0, hi);
    } else if i > k {
      var low := if s != 0 then p[i - k - 1 := p[i - k - 1] + lo] else p;
      assert low == p[i - k - 1 := p[i - k - 1] + lo];
      PutLimb(p, low, i - k - 1, lo);
      PutLimb(low, p', i - k, hi);
    }
  }

  lemma RowStep(p: seq<Limb>, p': seq<Limb>, y: seq<Limb>, i: nat, j: nat, c: int, pj: Limb, q: int, r: Limb)
    requires |p| == |p'| == |y| && i + j < |p| && p' == p[i + j := r]
    requires c + p[i + j] + pj * y[i] == q * BASE + r
    ensures Val(p') + q * W(i + j + 1) - Val(p) - c * W(i + j) == pj * W(j) * Val(y[..i + 1]) - pj * W(j) * Val(y[..i])
  {
    ValUpdate(p, i + j, r);
    WStep(i + j);
    WAdd(i, j);
    ValPrefix(y, i);
    RowAlgebra(c, p[i + j], pj, y[i], q, r, W(i), W(j), Val(y[..i]));
  }

  lemma RowAlgebra(c: int, a: int, pj: int, yi: int, q: int, r: int, wi: int, wj: int, v: int)
    requires c + a + pj * yi == q * BASE + r
    ensures (r - a) * (wi * wj) + q * (BASE * (wi * wj)) - c * (wi * wj) == pj * wj * (v + yi * wi) - pj * wj * v
  {
    var w := wi * wj;
    assert (r - a) * w + q * (BASE * w) - c * w == (r - a + q * BASE - c) * w;
    assert pj * wj * (v + yi * wi) == pj * wj * v + (pj * yi) * w;
  }

  lemma MulRowSeq(x: seq<Limb>, y: seq<Limb>, j: nat, a: nat, a0: nat, c: nat, q: int) returns (q': int)
    requires |x| == |y| && j < |x|
    requires a + c * W(|x|) == a0 + x[j] * W(j) * Val(y[..|x| - j])
    requires a0 + q * W(|x|) == Val(x[..j]) * Val(y)
    ensures a + q' * W(|x|) == Val(x[..j + 1]) * Val(y)
  {
    var t := |x| - j;
    ValPrefix(x, j);
    ValSplit(y, t);
    WAdd(j, t);
    MulRow(a, a0, c, W(|x|), x[j], W(j), Val(y[..t]), Val(y[t..]), W(t), Val(y), Val(x[..j]), q);
    q' := c + q + x[j] * Val(y[t..]);
  }

  lemma EmptyValue(s: seq<Limb>)
    ensures Val(s[..0]) == 0 && W(0) == 1
  {
  }

  lemma QuotientZero(x: nat, y: nat, m: nat, n: nat)
    requires x < Pow2(m) && m < n && y >= Pow2(n - 1)
    ensures x / y == 0
  {
    Pow2Mono(m, n - 1);
    DivModUnique(x, y, 0, x);
  }

  /** Aligning the top bits: the shifted divisor does not overflow and exceeds half of the numerator. */
  lemma Aligned(x: nat, y: nat, m: nat, n: nat, width: nat)
    requires 0 < n <= m <= 32 * width
    requires Pow2(n - 1) <= y < Pow2(n) && x < Pow2(m)
    ensures (y * Pow2(m - n)) % W(width) == y * Pow2(m - n)
    ensures x < y * Pow2(m - n + 1)
  {
    hide Pow2, W;
    Pow2Add(n, m - n);
    Pow2Add(n - 1, m - n + 1);
    MulMono(y + 1, Pow2(n), Pow2(m - n));
    Distrib(y, 1, Pow2(m - n));
    Pow2Mono(m, 32 * width);
    WIsPow2(width);
    DivModUnique(y * Pow2(m - n), W(width), 0, y * Pow2(m - n));
    MulMono(Pow2(n - 1), y, Pow2(m - n + 1));
  }

  lemma SubtractFits(s: seq<Limb>, d: int)
    requires 0 <= d <= Val(s)
    ensures (Val(s) - d) % W(|s|) == Val(s) - d
  {
    ValBound(s);
    DivModUnique(Val(s) - d, W(|s|), 0, Val(s) - d);
  }

  lemma HalfDivisor(y: nat, shift: nat)
    ensures shift > 0 ==> (y * Pow2(shift)) / Pow2(1) == y * Pow2(shift - 1)
  {
    if shift > 0 {
      assert Pow2(1) == 2;
      assert y * Pow2(shift) == (y * Pow2(shift - 1)) * 2 + 0;
      DivModUnique(y * Pow2(shift), 2, y * Pow2(shift - 1), 0);
    }
  }

  lemma ComplementStep(r: seq<Limb>, r': seq<Limb>, x: seq<Limb>, i: nat)
    requires |r| == |r'| == |x| && i < |x| && r' == r[i := BASE - 1 - x[i]]
    requires Val(r[..i]) + Val(x[..i]) == W(i) - 1
    ensures Val(r'[..i + 1]) + Val(x[..i + 1]) == W(i + 1) - 1
  {
    assert r'[..i] == r[..i];
    ValPrefix(r', i);
    ValPrefix(x, i);
    WStep(i);
    Distrib(BASE - 1, x[i], W(i));
    Distrib(BASE, 1, W(i));
  }

  lemma ModSub(x: int, y: int, m: int, n: int, r: int)
    requires m > 0 && n == (m - y) % m && r == (x + n) % m
    ensures r == (x - y) % m
  {
    var q := (m - y) / m;
    assert n == m - y - q * m;
    Distrib(1, q, m);
    ModMultiple(x - y, 1 - q, m);
  }

  lemma HighBit(s: seq<Limb>, pos: nat, n: nat)
    requires pos < |s| && n < 32 && Pow2(n) <= s[pos] < Pow2(n + 1)
    requires forall j :: pos < j < |s| ==> s[j] == 0
    ensures Pow2(32 * pos + n) <= Val(s) < Pow2(32 * pos + n + 1)
  {
    ValLow(s, pos + 1);
    ValPrefix(s, pos);
    ValBound(s[..pos]);
    ShiftWeight(pos, n);
    ShiftWeight(pos, n + 1);
    Bracket(Val(s[..pos]), s[pos], W(pos), Pow2(n), Pow2(n + 1));
  }

  lemma Bracket(lo: nat, x: nat, w: nat, t: nat, u: nat)
    requires lo < w && t <= x < u
    ensures w * t <= lo + x * w < w * u
  {
    MulMono(t, x, w);
    MulMono(x + 1, u, w);
    Distrib(x, 1, w);
  }
}
