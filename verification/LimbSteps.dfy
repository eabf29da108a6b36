/** One lemma per loop body of the limb arithmetic: what an iteration does to the denoted value. */
module LimbSteps {
  import opened Bits
  import opened Limbs

  /** A running sum with carry, one limb further: p[..i] + c * W(i) is the total of all digits seen so far. */
  lemma CarryStep(p: seq<Limb>, p': seq<Limb>, i: nat, c: int, q: int, r: Limb, total: int, digit: int)
    requires |p| == |p'| && i < |p| && p' == p[i := r]
    requires Val(p[..i]) + c * W(i) == total && c + digit == q * BASE + r
    ensures Val(p'[..i + 1]) + q * W(i + 1) == total + digit * W(i)
  {
    assert p'[..i] == p[..i];
    ValPrefix(p', i);
    WStep(i);
    SplitDigit(q, r, c, digit, W(i));
  }

  lemma SplitDigit(q: int, r: int, c: int, digit: int, w: int)
    requires c + digit == q * BASE + r
    ensures r * w + q * (BASE * w) == c * w + digit * w
  {
    assert (q * BASE + r) * w == (c + digit) * w;
  }

  /** Truncation: a value plus a multiple of the full weight is the value modulo the full weight. */
  lemma Truncated(p: seq<Limb>, q: int, total: int)
    requires Val(p) + q * W(|p|) == total
    ensures Val(p) == total % W(|p|)
  {
    ValBound(p);
    DivModUnique(total, W(|p|), q, Val(p));
  }

  /** Writing v at position pos, where positions past the end fall off the number. */
  lemma PutLimb(p: seq<Limb>, p': seq<Limb>, pos: nat, v: nat)
    requires pos >= |p| ==> p' == p
    requires pos < |p| ==> p[pos] + v < BASE && p' == p[pos := p[pos] + v]
    ensures Val(p') + (if pos < |p| then 0 else v * W(pos - |p|)) * W(|p|) == Val(p) + v * W(pos)
  {
    if pos < |p| {
      ValUpdate(p, pos, p[pos] + v);
      assert p[pos] + v - p[pos] == v;
    } else {
      WAdd(pos - |p|, |p|);
      MulAssoc(v, W(pos - |p|), W(|p|));
    }
  }

  /** A limb shifted left by s bits splits into the part that stays and the part that moves up. */
  lemma ShlSplit(x: Limb, s: nat)
    requires s < 32
    ensures x * Pow2(s) == (x / Pow2(32 - s)) * BASE + (x * Pow2(s)) % BASE
    ensures x / Pow2(32 - s) < Pow2(s)
    ensures ((x * Pow2(s)) % BASE) % Pow2(s) == 0
  {
    Pow2Literals();
    Pow2Add(32 - s, s);
    SplitAt(x, Pow2(32 - s), Pow2(s));
  }

  lemma SplitAt(x: nat, m: nat, t: nat)
    requires m > 0 && t > 0 && x < m * t
    ensures x * t == (x / m) * (m * t) + (x * t) % (m * t)
    ensures x / m < t
    ensures ((x * t) % (m * t)) % t == 0
    ensures (x * t) % (m * t) == (x % m) * t
  {
    SplitAlgebra(x, m, t, x / m, x % m);
    DivModUnique(x * t, m * t, x / m, (x % m) * t);
    DivModUnique((x % m) * t, t, x % m, 0);
  }

  lemma SplitAlgebra(x: nat, m: nat, t: nat, h: nat, l: nat)
    requires x == h * m + l && l < m && x < m * t
    ensures x * t == h * (m * t) + l * t && 0 <= l * t < m * t && h < t
  {
    assert (h * m + l) * t == h * (m * t) + l * t;
    MulMono(l + 1, m, t);
    assert (l + 1) * t == l * t + t;
    assert h >= t ==> h * m >= t * m;
  }

  /** The weight of a shift: whole limbs and left-over bits. */
  lemma ShiftWeight(k: nat, s: nat)
    ensures Pow2(32 * k + s) == W(k) * Pow2(s)
  {
    Pow2Add(32 * k, s);
    WIsPow2(k);
  }

  /** The limb x at position i, moved by 32 * k + s bits, lands in two adjacent positions. */
  lemma ShlLands(x: Limb, i: nat, k: nat, s: nat, hi: nat, lo: nat)
    requires x * Pow2(s) == hi * BASE + lo
    ensures x * W(i) * Pow2(32 * k + s) == hi * W(i + k + 1) + lo * W(i + k)
  {
    ShiftWeight(k, s);
    WAdd(i, k);
    WStep(i + k);
    Regroup(x, W(i), W(k), Pow2(s), hi, lo, W(i + k));
  }

  lemma Regroup(x: int, wi: int, wk: int, t: int, hi: int, lo: int, w: int)
    requires x * t == hi * BASE + lo && w == wi * wk
    ensures x * wi * (wk * t) == hi * (BASE * w) + lo * w
  {
    assert x * wi * (wk * t) == (x * t) * w;
    assert (hi * BASE + lo) * w == hi * (BASE * w) + lo * w;
  }

  /** What limb x at position i adds to a number shifted right by 32 * k + s bits, given the two parts of x. */
  lemma ShrLands(v: nat, x: Limb, i: nat, k: nat, s: nat, hi: nat, lo: nat)
    requires v < W(i) && s < 32
    requires x * Pow2(32 - s) == hi * BASE + lo && hi == x / Pow2(s)
    ensures (v + x * W(i)) / Pow2(32 * k + s) == v / Pow2(32 * k + s)
              + (if i < k then 0 else if i == k then hi else lo * W(i - k - 1) + hi * W(i - k))
  {
    if i > k {
      ShrWeight(i, k, s);
      WStep(i - k - 1);
      ShrAbove(v, x, Pow2(32 - s), W(i - k - 1), Pow2(32 * k + s), hi, lo);
    } else if i == k {
      ShiftWeight(k, s);
      ShrAt(v, x, W(k), Pow2(s));
    } else {
      WStep(i);
      WIsPow2(i + 1);
      Pow2Mono(32 * (i + 1), 32 * k + s);
      ShrBelow(v, x, W(i), Pow2(32 * k + s));
    }
  }

  lemma ShrAbove(v: nat, x: nat, t: nat, w: nat, d: nat, hi: nat, lo: nat)
    requires d > 0 && x * t == hi * BASE + lo
    ensures 0 <= x * ((t * w) * d) && (v + x * ((t * w) * d)) / d == v / d + (lo * w + hi * (BASE * w))
  {
    assert x * (t * w) == lo * w + hi * (BASE * w) by {
      MulAssoc(x, t, w);
      Spread(x * t, hi, lo, w);
    }
    MulAssoc(x, t * w, d);
    MulMono(0, x, t * w);
    AddMultiple(v, x * (t * w), d);
  }

  lemma ShrAt(v: nat, x: nat, w: nat, t: nat)
    requires v < w && t > 0
    ensures w * t > 0 && 0 <= x * w && (v + x * w) / (w * t) == v / (w * t) + x / t
  {
    AddMultiple(v, x, w);
    DivModUnique(v, w, 0, v);
    DivDiv(v + x * w, w, t);
    DivDiv(v, w, t);
  }

  lemma ShrBelow(v: nat, x: Limb, w: nat, d: nat)
    requires v < w && BASE * w <= d
    ensures 0 <= x * w && (v + x * w) / d == v / d
  {
    BelowNext(v, x, w);
    DivModUnique(v + x * w, d, 0, v + x * w);
    DivModUnique(v, d, 0, v);
  }

  lemma BelowNext(v: nat, x: Limb, w: nat)
    requires v < w
    ensures 0 <= x * w && v + x * w < BASE * w
  {
    MulMono(x + 1, BASE, w);
    assert (x + 1) * w == x * w + w;
  }

  lemma AddMultiple(v: nat, q: nat, d: nat)
    requires d > 0
    ensures 0 <= q * d && (v + q * d) / d == v / d + q
  {
    MulMono(0, q, d);
    assert (v / d + q) * d == (v / d) * d + q * d;
    DivModUnique(v + q * d, d, v / d + q, v % d);
  }

  lemma ShrWeight(i: nat, k: nat, s: nat)
    requires i > k && s < 32
    ensures W(i) == (Pow2(32 - s) * W(i - k - 1)) * Pow2(32 * k + s)
  {
    Pow2Add(32 - s, 32 * (i - k - 1));
    Pow2Add(32 - s + 32 * (i - k - 1), 32 * k + s);
    WIsPow2(i);
    WIsPow2(i - k - 1);
  }

  lemma Spread(n: int, q: int, r: int, w: int)
    requires n == q * BASE + r
    ensures n * w == r * w + q * (BASE * w)
  {
    assert (q * BASE + r) * w == r * w + q * (BASE * w);
  }

  /** One row of schoolbook multiplication, reduced modulo the full weight. */
  lemma MulRow(a: nat, a0: nat, c: nat, wn: nat, x: nat, wj: nat, ylo: nat, yhi: nat, wt: nat, y: nat, p: nat, q: int)
    requires wn == wj * wt && y == ylo + wt * yhi
    requires a + c * wn == a0 + x * wj * ylo
    requires a0 + q * wn == p * y
    ensures a + (c + q + x * yhi) * wn == (p + x * wj) * y
  {
    Distrib(c + q, x * yhi, wn);
    Distrib(c, q, wn);
    Distrib(p, x * wj, y);
    Distrib(ylo, wt * yhi, x * wj);
    SwapFactors(x, wj, wt, yhi);
  }

  lemma SwapFactors(x: nat, a: nat, b: nat, y: nat)
    ensures x * a * (b * y) == x * y * (a * b)
  {
    MulAssoc(x * a, b, y);
    MulAssoc(x, a, b);
    MulAssoc(x, a * b, y);
    MulAssoc(x, y, a * b);
  }

  /** Splitting a number at limb k. */
  lemma {:induction false} ValSplit(s: seq<Limb>, k: nat)
    requires k <= |s|
    ensures Val(s) == Val(s[..k]) + W(k) * Val(s[k..])
  {
    if k == |s| {
      assert s[..k] == s;
    } else {
      var n := |s| - 1;
      ValSplit(s[..n], k);
      assert s[..n][..k] == s[..k];
      assert s[..n][k..] == s[k..][..n - k];
      WAdd(k, n - k);
      SplitLast(Val(s[k..][..n - k]), W(k), s[n], W(n - k));
    }
  }

  lemma SplitLast(v: int, wk: int, x: int, w: int)
    ensures wk * v + x * (wk * w) == wk * (v + x * w)
  {
  }

  /** If a number is a multiple of 2^(32k + r + 1) then limb k is a multiple of 2^(r + 1). */
  lemma LimbLowBits(s: seq<Limb>, k: nat, r: nat)
    requires k < |s| && r < 32
    requires Val(s) % Pow2(32 * k + r + 1) == 0
    ensures s[k] % Pow2(r + 1) == 0
  {
    hide Val, W, Pow2;
    ValSplit(s, k + 1);
    ValPrefix(s, k);
    ValBound(s[..k]);
    WStep(k);
    ShiftWeight(k, r + 1);
    AtWeight(s[k], Val(s[k + 1..]), W(k));
    LowPartZero(Val(s), Val(s[..k]), s[k] + BASE * Val(s[k + 1..]), W(k), Pow2(r + 1));
    Pow2Literals();
    Pow2Add(r + 1, 31 - r);
    LowLimbMultiple(s[k], Val(s[k + 1..]), Pow2(r + 1), Pow2(31 - r));
  }

  lemma AtWeight(x: int, v: int, w: int)
    ensures x * w + (BASE * w) * v == w * (x + BASE * v)
  {
  }

  lemma LowLimbMultiple(x: nat, v: nat, m: nat, t: nat)
    requires m > 0 && (x + (m * t) * v) % m == 0
    ensures x % m == 0
  {
    assert (m * t) * v == (t * v) * m;
    ModMultiple(x, t * v, m);
  }

  lemma LowPartZero(v: nat, lo: nat, hi: nat, w: nat, m: nat)
    requires m > 0 && lo < w && v == lo + w * hi && v % (w * m) == 0
    ensures hi % m == 0
  {
    var q := v / (w * m);
    assert v == q * (w * m) == (q * m) * w + 0;
    DivModUnique(v, w, q * m, 0);
    DivModUnique(v, w, hi, lo);
    DivModUnique(hi, m, q, 0);
  }

  /** A multiple of 2^(r + 1) below 2^32 has room for bit r. */
  lemma RoomForBit(x: Limb, r: nat)
    requires r < 32 && x % Pow2(r + 1) == 0
    ensures BitOr(x, Pow2(r)) == x + Pow2(r) && x + Pow2(r) < BASE
  {
    OrDisjoint(x, Pow2(r), r + 1);
    Pow2Literals();
    Pow2Add(r + 1, 31 - r);
    MultipleBelow(x, Pow2(r + 1), Pow2(31 - r));
  }

  lemma MultipleBelow(x: nat, m: nat, t: nat)
    requires m > 0 && x % m == 0 && x < m * t
    ensures x + m <= m * t
  {
    var q := x / m;
    assert x == q * m;
    MultipleBelowQ(q, m, t);
  }

  lemma MultipleBelowQ(q: nat, m: nat, t: nat)
    requires q * m < m * t
    ensures q * m + m <= m * t
  {
    assert q >= t ==> q * m >= t * m;
    MulMono(q + 1, t, m);
    assert (q + 1) * m == q * m + m;
  }

  /** One round of shift-and-subtract division. */
  lemma DivRound(x: nat, q: nat, y: nat, num: nat, shift: nat)
    requires x == q * y + num && num < y * Pow2(shift + 1) && q % Pow2(shift + 1) == 0
    ensures num >= y * Pow2(shift) ==>
              x == (q + Pow2(shift)) * y + (num - y * Pow2(shift)) && num - y * Pow2(shift) < y * Pow2(shift)
    ensures q % Pow2(shift) == 0 && (q + Pow2(shift)) % Pow2(shift) == 0
  {
    var t := Pow2(shift);
    assert y * (2 * t) == 2 * (y * t);
    assert (q + t) * y == q * y + y * t;
    var h := q / (2 * t);
    assert q == h * (2 * t) == (2 * h) * t + 0;
    DivModUnique(q, t, 2 * h, 0);
    assert q + t == (2 * h + 1) * t + 0;
    DivModUnique(q + t, t, 2 * h + 1, 0);
  }
}
