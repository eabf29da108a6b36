/** Little-endian sequences of 32-bit limbs and the integer they denote. */
module Limbs {
  import opened Bits

  const BASE: nat := 0x1_0000_0000

  type Limb = x: nat | x < BASE

  /** The weight of limb i: 2^(32 * i). */
  function W(i: nat): (r: nat)
    ensures r >= 1
  {
    if i == 0 then 1 else BASE * W(i - 1)
  }

  lemma {:induction false} WIsPow2(i: nat)
    ensures W(i) == Pow2(32 * i)
  {
    if i > 0 {
      WIsPow2(i - 1);
      Pow2Literals();
      Pow2Add(32, 32 * (i - 1));
    }
  }

  /** The integer a limb sequence denotes, least significant limb first. */
  function Val(s: seq<Limb>): (v: nat)
  {
    if |s| == 0 then 0
    else
      var n := |s| - 1;
      MulMono(0, s[n], W(n));
      Val(s[..n]) + s[n] * W(n)
  }

  lemma WStep(i: nat)
    ensures W(i + 1) == BASE * W(i)
  {
  }

  lemma WAdd(i: nat, j: nat)
    ensures W(i + j) == W(i) * W(j)
  {
    WIsPow2(i);
    WIsPow2(j);
    WIsPow2(i + j);
    Pow2Add(32 * i, 32 * j);
  }

  /** Appending the next limb of a longer sequence. */
  lemma ValPrefix(s: seq<Limb>, i: nat)
    requires i < |s|
    ensures Val(s[..i + 1]) == Val(s[..i]) + s[i] * W(i)
  {
    assert s[..i + 1][..i] == s[..i];
  }

  lemma ValWhole(s: seq<Limb>)
    ensures Val(s[..|s|]) == Val(s)
  {
    assert s[..|s|] == s;
  }

  lemma {:induction false} ValBound(s: seq<Limb>)
    ensures Val(s) < W(|s|)
  {
    if |s| > 0 {
      var n := |s| - 1;
      ValBound(s[..n]);
      WStep(n);
      MulMono(s[n], BASE - 1, W(n));
      assert (BASE - 1) * W(n) == BASE * W(n) - W(n);
    }
  }

  lemma {:induction false} ValZeros(s: seq<Limb>)
    requires forall i :: 0 <= i < |s| ==> s[i] == 0
    ensures Val(s) == 0
  {
    if |s| > 0 {
      ValZeros(s[..|s| - 1]);
    }
  }

  /** Replacing one limb moves the value by the difference times its weight. */
  lemma {:induction false} ValUpdate(s: seq<Limb>, i: nat, x: Limb)
    requires i < |s|
    ensures Val(s[i := x]) == Val(s) + (x - s[i]) * W(i)
  {
    var n := |s| - 1;
    if i == n {
      assert s[i := x][..n] == s[..n];
      assert (x - s[i]) * W(i) == x * W(i) - s[i] * W(i);
    } else {
      assert s[i := x][..n] == s[..n][i := x];
      ValUpdate(s[..n], i, x);
    }
  }

  /** Zero limbs above position k contribute nothing. */
  lemma {:induction false} ValLow(s: seq<Limb>, k: nat)
    requires k <= |s| && forall i :: k <= i < |s| ==> s[i] == 0
    ensures Val(s) == Val(s[..k])
  {
    if k == |s| {
      assert s[..k] == s;
    } else {
      var n := |s| - 1;
      ValLow(s[..n], k);
      assert s[..n][..k] == s[..k];
    }
  }

  /** Comparing from the most significant limb compares the values. */
  lemma {:induction false} ValCompare(s: seq<Limb>, t: seq<Limb>, i: nat)
    requires |s| == |t| && i < |s| && s[i] < t[i] && s[i + 1..] == t[i + 1..]
    ensures Val(s) < Val(t)
  {
    var n := |s| - 1;
    if i == n {
      ValBound(s[..n]);
      assert (s[n] + 1) * W(n) == s[n] * W(n) + W(n);
      MulMono(s[n] + 1, t[n], W(n));
    } else {
      assert s[n] == s[i + 1..][n - i - 1] == t[n];
      assert s[..n][i + 1..] == s[i + 1..][..n - i - 1] == t[..n][i + 1..];
      ValCompare(s[..n], t[..n], i);
    }
  }
}
