/** Powers of two, exact division facts and the bitwise OR used by the limb code. */
module Bits {

  const TWO_256: nat := 0x1_0000_0000_0000_0000_0000_0000_0000_0000_0000_0000_0000_0000_0000_0000_0000_0000

  function Pow2(n: nat): (r: nat)
    ensures r >= 1
  {
    if n == 0 then 1 else 2 * Pow2(n - 1)
  }

  lemma {:induction false} Pow2Add(a: nat, b: nat)
    ensures Pow2(a + b) == Pow2(a) * Pow2(b)
  {
    if a > 0 {
      Pow2Add(a - 1, b);
      assert Pow2(a) * Pow2(b) == 2 * (Pow2(a - 1) * Pow2(b));
    }
  }

  lemma Pow2Mono(a: nat, b: nat)
    requires a <= b
    ensures Pow2(a) <= Pow2(b)
    decreases b
  {
    if a < b {
      Pow2Mono(a, b - 1);
    }
  }

  /** Powers of two order their exponents. */
  lemma Pow2Cancel(a: nat, b: nat)
    requires Pow2(a) < Pow2(b)
    ensures a < b
  {
    if a >= b {
      Pow2Mono(b, a);
    }
  }

  /** The exponents the sources spell as literals. */
  lemma Pow2Literals()
    ensures Pow2(8) == 0x100 && Pow2(15) == 0x8000 && Pow2(16) == 0x1_0000 && Pow2(24) == 0x100_0000
    ensures Pow2(32) == 0x1_0000_0000
  {
  }

  lemma Pow2Of64()
    ensures Pow2(64) == 0x1_0000_0000_0000_0000
  {
    Pow2Literals();
    Pow2Add(32, 32);
  }

  lemma Pow2Of256()
    ensures Pow2(256) == TWO_256
  {
    Pow2Of64();
    Pow2Add(64, 64);
    Pow2Add(128, 128);
  }

  function Pow256(n: nat): (r: nat)
    ensures r >= 1
  {
    if n == 0 then 1 else 256 * Pow256(n - 1)
  }

  lemma {:induction false} Pow256IsPow2(n: nat)
    ensures Pow256(n) == Pow2(8 * n)
  {
    if n > 0 {
      Pow256IsPow2(n - 1);
      Pow2Literals();
      Pow2Add(8, 8 * (n - 1));
    }
  }

  lemma {:induction false} Pow256Add(a: nat, b: nat)
    ensures Pow256(a + b) == Pow256(a) * Pow256(b)
  {
    if a > 0 {
      Pow256Add(a - 1, b);
      MulAssoc(256, Pow256(a - 1), Pow256(b));
    }
  }

  lemma Pow256Of32()
    ensures Pow256(32) == TWO_256
  {
    assert Pow256(8) == 0x1_0000_0000_0000_0000;
    Pow256Add(8, 8);
    Pow256Add(16, 16);
  }

  lemma Pow256Mono(a: nat, b: nat)
    requires a <= b
    ensures Pow256(a) <= Pow256(b)
    decreases b
  {
    if a < b {
      Pow256Mono(a, b - 1);
    }
  }

  /** Quotient and remainder are the only way to write x as q * m + r with r below m. */
  lemma DivModUnique(x: int, m: int, q: int, r: int)
    requires m > 0 && 0 <= r < m && x == q * m + r
    ensures x / m == q && x % m == r
  {
    var d := x / m - q;
    assert x == (x / m) * m + x % m;
    assert d * m == r - x % m by {
      assert d * m == (x / m) * m - q * m;
    }
    assert d >= 1 ==> d * m >= m;
    assert d <= -1 ==> d * m + m <= 0;
  }

  lemma MulMono(a: nat, b: nat, c: nat)
    requires a <= b
    ensures a * c <= b * c && c * a <= c * b
  {
  }

  lemma MulAssoc(a: int, b: int, c: int)
    ensures a * b * c == a * (b * c)
  {
  }

  lemma Distrib(a: int, b: int, c: int)
    ensures (a + b) * c == a * c + b * c && (a - b) * c == a * c - b * c
    ensures c * (a + b) == c * a + c * b
  {
  }

  lemma ModMultiple(x: int, q: int, m: int)
    requires m > 0
    ensures (x + q * m) % m == x % m
  {
    DivModUnique(x + q * m, m, x / m + q, x % m) by {
      assert (x / m + q) * m == (x / m) * m + q * m;
    }
  }

  lemma DivNonNegative(x: nat, m: nat)
    requires m > 0
    ensures 0 <= x / m <= x
  {
    QuotientBound(x, x / m, m, x % m);
  }

  lemma QuotientBound(x: nat, q: int, m: nat, r: int)
    requires x == q * m + r && 0 <= r < m
    ensures 0 <= q <= x
  {
    assert q <= -1 ==> q * m + m <= 0;
    assert q >= 0 ==> q <= q * m;
  }

  lemma DivMono(x: nat, y: nat, m: nat)
    requires x <= y && m > 0
    ensures x / m <= y / m
  {
    var d: int := y / m - x / m;
    assert d * m == (y / m) * m - (x / m) * m;
    assert d <= -1 ==> d * m + m <= 0;
  }

  /** Dividing by a product is dividing twice. */
  lemma DivDiv(x: nat, a: nat, b: nat)
    requires a > 0 && b > 0
    ensures a * b > 0 && x / a / b == x / (a * b)
  {
    var q, r := x / a, x % a;
    var q2, r2 := q / b, q % b;
    TwoDivisions(q, a, r, q2, b, r2);
    DivModUnique(x, a * b, q2, r2 * a + r);
  }

  lemma TwoDivisions(q: nat, a: nat, r: nat, q2: nat, b: nat, r2: nat)
    requires a > 0 && r < a && r2 < b && q == q2 * b + r2
    ensures a * b > 0 && q * a + r == q2 * (a * b) + (r2 * a + r) && r2 * a + r < a * b
  {
    Distrib(q2 * b, r2, a);
    MulAssoc(q2, b, a);
    MulMono(r2 + 1, b, a);
    Distrib(r2, 1, a);
  }

  /** Bitwise OR of two unsigned integers. */
  function BitOr(x: nat, y: nat): (r: nat)
    decreases x + y
  {
    if x == 0 then y
    else if y == 0 then x
    else 2 * BitOr(x / 2, y / 2) + (if x % 2 == 1 || y % 2 == 1 then 1 else 0)
  }

  /** ORing a multiple of 2^k with a value below 2^k is addition: the operands share no bit. */
  lemma {:induction false} OrDisjoint(x: nat, y: nat, k: nat)
    requires x % Pow2(k) == 0 && y < Pow2(k)
    ensures BitOr(x, y) == x + y && BitOr(y, x) == x + y
  {
    if x != 0 && y != 0 {
      var q := x / Pow2(k);
      assert x == q * Pow2(k) == 2 * (q * Pow2(k - 1));
      assert x / 2 == q * Pow2(k - 1) + 0;
      DivModUnique(x / 2, Pow2(k - 1), q, 0);
      OrDisjoint(x / 2, y / 2, k - 1);
    }
  }

  /** Bitwise AND of two unsigned integers. */
  function BitAnd(x: nat, y: nat): (r: nat)
  {
    if x == 0 || y == 0 then 0
    else 2 * BitAnd(x / 2, y / 2) + (if x % 2 == 1 && y % 2 == 1 then 1 else 0)
  }

  lemma {:induction false} BitAndBelow(x: nat, y: nat)
    ensures BitAnd(x, y) <= x && BitAnd(x, y) <= y
  {
    if x != 0 && y != 0 {
      BitAndBelow(x / 2, y / 2);
    }
  }

  lemma Pow256Of20()
    ensures Pow256(20) == 0x1_0000_0000_0000_0000_0000_0000_0000_0000_0000_0000
  {
    assert Pow256(8) == 0x1_0000_0000_0000_0000;
    assert Pow256(4) == 0x1_0000_0000;
    Pow256Add(8, 8);
    Pow256Add(16, 4);
  }
}
