/** How well the cubic of the difficulty rule approximates a power of two. */
module Exponential {
  import opened Bits
  import opened Asert

  // ---- Real powers ----

  ghost function Power(x: real, n: nat): (y: real)
  {
    if n == 0 then 1.0 else x * Power(x, n - 1)
  }

  lemma {:induction false} PowerPositive(x: real, n: nat)
    requires x > 0.0
    ensures Power(x, n) > 0.0
  {
    if n > 0 {
      PowerPositive(x, n - 1);
    }
  }

  lemma {:induction false} PowerAdds(x: real, m: nat, n: nat)
    ensures Power(x, m + n) == Power(x, m) * Power(x, n)
    decreases n
  {
    if n > 0 {
      PowerAdds(x, m, n - 1);
      Regrouped(x, Power(x, m), Power(x, n - 1));
    }
  }

  lemma Regrouped(a: real, b: real, c: real)
    ensures a * (b * c) == b * (a * c)
  {
  }

  lemma {:induction false} PowerRises(x: real, y: real, n: nat)
    requires 0.0 < x <= y
    ensures Power(x, n) <= Power(y, n)
  {
    if n > 0 {
      PowerRises(x, y, n - 1);
      PowerPositive(x, n - 1);
      ProductRises(x, y, Power(x, n - 1), Power(y, n - 1));
    }
  }

  lemma ProductRises(a: real, b: real, c: real, d: real)
    requires 0.0 <= a <= b && 0.0 <= c <= d
    ensures a * c <= b * d
  {
    assert a * c <= b * c;
    assert b * c <= b * d;
  }

  // ---- Bounds on powers, in units of 2^-40 ----

  const UNIT: nat := 0x100_0000_0000

  /** c units are at most the n-th power of x. */
  ghost predicate AtLeast(x: real, n: nat, c: nat)
  {
    c as real <= Power(x, n) * UNIT as real
  }

  ghost predicate AtMost(x: real, n: nat, c: nat)
  {
    Power(x, n) * UNIT as real <= c as real
  }

  lemma TimesLow(x: real, m: nat, n: nat, c: nat, d: nat, e: nat)
    requires AtLeast(x, m, c) && AtLeast(x, n, d) && e * UNIT <= c * d
    ensures AtLeast(x, m + n, e)
  {
    hide Power;
    var p, q, u := Power(x, m), Power(x, n), UNIT as real;
    PowerAdds(x, m, n);
    ProductRises(c as real, p * u, d as real, q * u);
    assert (p * u) * (q * u) == ((p * q) * u) * u;
    assert (e * UNIT) as real <= ((p * q) * u) * u;
    Cancelled(e as real, (p * q) * u, u);
  }

  lemma TimesHigh(x: real, m: nat, n: nat, c: nat, d: nat, e: nat)
    requires x > 0.0 && AtMost(x, m, c) && AtMost(x, n, d) && c * d <= e * UNIT
    ensures AtMost(x, m + n, e)
  {
    hide Power;
    var p, q, u := Power(x, m), Power(x, n), UNIT as real;
    PowerAdds(x, m, n);
    PowerPositive(x, m);
    PowerPositive(x, n);
    ProductRises(p * u, c as real, q * u, d as real);
    assert (p * u) * (q * u) == ((p * q) * u) * u;
    assert (e * UNIT) as real >= ((p * q) * u) * u;
    Cancelled((p * q) * u, e as real, u);
  }

  lemma Cancelled(a: real, b: real, u: real)
    requires a * u <= b * u && u > 0.0
    ensures a <= b
  {
  }

  lemma SquareLow(x: real, n: nat, c: nat, d: nat)
    requires AtLeast(x, n, c) && d * UNIT <= c * c
    ensures AtLeast(x, 2 * n, d)
  {
    hide AtLeast;
    TimesLow(x, n, n, c, c, d);
  }

  lemma SquareHigh(x: real, n: nat, c: nat, d: nat)
    requires x > 0.0 && AtMost(x, n, c) && c * c <= d * UNIT
    ensures AtMost(x, 2 * n, d)
  {
    hide AtMost;
    TimesHigh(x, n, n, c, c, d);
  }

  // ---- The 65536th root of two ----

  const BELOW: nat := 11629141
  const ABOVE: nat := 11629143

  /** One plus c units. */
  function Ratio(c: nat): (x: real)
    ensures x >= 1.0
  {
    (UNIT + c) as real / UNIT as real
  }

  lemma RatioUnits(c: nat)
    ensures AtLeast(Ratio(c), 1, UNIT + c) && AtMost(Ratio(c), 1, UNIT + c)
  {
    var x := Ratio(c);
    assert Power(x, 1) == x * Power(x, 0) == x;
  }

  /** The lower ratio is below the root. */
  lemma BelowRoot()
    ensures Power(Ratio(BELOW), 0x1_0000) < 2.0
  {
    hide Power, AtMost, Ratio;
    var x := Ratio(BELOW);
    RatioUnits(BELOW);
    SquareHigh(x, 1, 1099523256917, 1099534886181);
    SquareHigh(x, 2, 1099534886181, 1099558145078);
    SquareHigh(x, 4, 1099558145078, 1099604664349);
    SquareHigh(x, 8, 1099604664349, 1099697708795);
    SquareHigh(x, 16, 1099697708795, 1099883821307);
    SquareHigh(x, 32, 1099883821307, 1100256140829);
    SquareHigh(x, 64, 1100256140829, 1101001158015);
    SquareHigh(x, 128, 1101001158015, 1102492706151);
    SquareHigh(x, 256, 1102492706151, 1105481867050);
    SquareHigh(x, 512, 1105481867050, 1111484524133);
    SquareHigh(x, 1024, 1111484524133, 1123587796781);
    SquareHigh(x, 2048, 1123587796781, 1148191165226);
    SquareHigh(x, 4096, 1148191165226, 1199025929876);
    SquareHigh(x, 8192, 1199025929876, 1307547045613);
    SquareHigh(x, 16384, 1307547045613, 1554944243700);
    SquareHigh(x, 32768, 1554944243700, 2199023220798);
    Unfolded(x, 65536, 2199023220798);
  }

  lemma Unfolded(x: real, n: nat, c: nat)
    ensures AtMost(x, n, c) ==> Power(x, n) <= c as real / UNIT as real
    ensures AtLeast(x, n, c) ==> Power(x, n) >= c as real / UNIT as real
  {
    hide Power;
  }

  /** The upper ratio is above the root. */
  lemma AboveRoot()
    ensures Power(Ratio(ABOVE), 0x1_0000) > 2.0
  {
    hide Power, AtLeast, Ratio;
    var x := Ratio(ABOVE);
    RatioUnits(ABOVE);
    SquareLow(x, 1, 1099523256919, 1099534886184);
    SquareLow(x, 2, 1099534886184, 1099558145083);
    SquareLow(x, 4, 1099558145083, 1099604664358);
    SquareLow(x, 8, 1099604664358, 1099697708812);
    SquareLow(x, 16, 1099697708812, 1099883821340);
    SquareLow(x, 32, 1099883821340, 1100256140894);
    SquareLow(x, 64, 1100256140894, 1101001158144);
    SquareLow(x, 128, 1101001158144, 1102492706408);
    SquareLow(x, 256, 1102492706408, 1105481867564);
    SquareLow(x, 512, 1105481867564, 1111484525165);
    SquareLow(x, 1024, 1111484525165, 1123587798866);
    SquareLow(x, 2048, 1123587798866, 1148191169486);
    SquareLow(x, 4096, 1148191169486, 1199025938772);
    SquareLow(x, 8192, 1199025938772, 1307547065014);
    SquareLow(x, 16384, 1307547065014, 1554944289843);
    SquareLow(x, 32768, 1554944289843, 2199023351309);
    Unfolded(x, 65536, 2199023351309);
  }

  /** Powers of the lower ratio where the cubic overshoots most. */
  lemma LowPowers()
    ensures AtLeast(Ratio(BELOW), 7071, 1184893790484) && AtLeast(Ratio(BELOW), 56494, 1998465679072)
  {
    hide Power, AtLeast, Ratio;
    var x := Ratio(BELOW);
    RatioUnits(BELOW);
    SquareLow(x, 1, 1099523256917, 1099534886180);
    SquareLow(x, 2, 1099534886180, 1099558145075);
    SquareLow(x, 4, 1099558145075, 1099604664342);
    SquareLow(x, 8, 1099604664342, 1099697708780);
    SquareLow(x, 16, 1099697708780, 1099883821276);
    SquareLow(x, 32, 1099883821276, 1100256140766);
    SquareLow(x, 64, 1100256140766, 1101001157888);
    SquareLow(x, 128, 1101001157888, 1102492705895);
    SquareLow(x, 256, 1102492705895, 1105481866535);
    SquareLow(x, 512, 1105481866535, 1111484523096);
    SquareLow(x, 1024, 1111484523096, 1123587794683);
    SquareLow(x, 2048, 1123587794683, 1148191160937);
    SquareLow(x, 4096, 1148191160937, 1199025920917);
    SquareLow(x, 8192, 1199025920917, 1307547026072);
    SquareLow(x, 16384, 1307547026072, 1554944197223);
    TimesLow(x, 1, 2, 1099523256917, 1099534886180, 1099546515566);
    TimesLow(x, 3, 4, 1099546515566, 1099558145075, 1099593034341);
    TimesLow(x, 7, 8, 1099593034341, 1099604664342, 1099686077795);
    TimesLow(x, 15, 16, 1099686077795, 1099697708780, 1099872188322);
    TimesLow(x, 31, 128, 1099872188322, 1101001157888, 1101362206892);
    TimesLow(x, 159, 256, 1101362206892, 1102492705895, 1104348302439);
    TimesLow(x, 415, 512, 1104348302439, 1105481866535, 1110344803860);
    TimesLow(x, 927, 2048, 1110344803860, 1123587794683, 1134658186407);
    TimesLow(x, 2975, 4096, 1134658186407, 1148191160937, 1184893790484);
    TimesLow(x, 2, 4, 1099534886180, 1099558145075, 1099581404462);
    TimesLow(x, 6, 8, 1099581404462, 1099604664342, 1099674446932);
    TimesLow(x, 14, 32, 1099674446932, 1099883821276, 1100046695547);
    TimesLow(x, 46, 128, 1100046695547, 1101001157888, 1101536950525);
    TimesLow(x, 174, 1024, 1101536950525, 1111484523096, 1113531900161);
    TimesLow(x, 1198, 2048, 1113531900161, 1123587794683, 1137915071022);
    TimesLow(x, 3246, 4096, 1137915071022, 1148191160937, 1188294869684);
    TimesLow(x, 7342, 16384, 1188294869684, 1307547026072, 1413128687046);
    TimesLow(x, 23726, 32768, 1413128687046, 1554944197223, 1998465679072);
  }

  /** Powers of the upper ratio where the cubic falls short most. */
  lemma HighPowers()
    ensures AtMost(Ratio(ABOVE), 30442, 1517157630259) && AtMost(Ratio(ABOVE), 0x1_0000, 2199023482283)
  {
    hide Power, AtMost, Ratio;
    var x := Ratio(ABOVE);
    RatioUnits(ABOVE);
    SquareHigh(x, 1, 1099523256919, 1099534886185);
    SquareHigh(x, 2, 1099534886185, 1099558145086);
    SquareHigh(x, 4, 1099558145086, 1099604664365);
    SquareHigh(x, 8, 1099604664365, 1099697708827);
    SquareHigh(x, 16, 1099697708827, 1099883821371);
    SquareHigh(x, 32, 1099883821371, 1100256140957);
    SquareHigh(x, 64, 1100256140957, 1101001158271);
    SquareHigh(x, 128, 1101001158271, 1102492706663);
    SquareHigh(x, 256, 1102492706663, 1105481868077);
    SquareHigh(x, 512, 1105481868077, 1111484526198);
    SquareHigh(x, 1024, 1111484526198, 1123587800956);
    SquareHigh(x, 2048, 1123587800956, 1148191173759);
    SquareHigh(x, 4096, 1148191173759, 1199025947698);
    SquareHigh(x, 8192, 1199025947698, 1307547084483);
    SquareHigh(x, 16384, 1307547084483, 1554944336149);
    SquareHigh(x, 32768, 1554944336149, 2199023482283);
    TimesHigh(x, 2, 8, 1099534886185, 1099604664365, 1099627924743);
    TimesHigh(x, 10, 32, 1099627924743, 1099883821371, 1100000157706);
    TimesHigh(x, 42, 64, 1100000157706, 1100256140957, 1100745001686);
    TimesHigh(x, 106, 128, 1100745001686, 1101001158271, 1102236203058);
    TimesHigh(x, 234, 512, 1102236203058, 1105481868077, 1108221237536);
    TimesHigh(x, 746, 1024, 1108221237536, 1111484526198, 1120288977405);
    TimesHigh(x, 1770, 4096, 1120288977405, 1148191173759, 1169888415385);
    TimesHigh(x, 5866, 8192, 1169888415385, 1199025947698, 1275772379775);
    TimesHigh(x, 14058, 16384, 1275772379775, 1307547084483, 1517157630259);
  }

  // ---- Where the cubic grows faster than the power ----

  /** The cubic in units of 2^-48, less d. */
  function Curve(d: nat, f: nat): (c: int)
  {
    0x1_0000_0000_0000_0000 + Cubic(f) - d
  }

  /** Rounding costs at most one of these units, on either side. */
  lemma FactorBetween(f: nat)
    ensures Curve(0x1_0000_0000_0000, f) <= 0x1_0000_0000_0000 * Factor(f) <= Curve(0, f)
  {
    hide Cubic;
  }

  /** How much more the next value is than the present one times the ratio. */
  function Lead(d: nat, c: nat, f: nat): (l: int)
  {
    UNIT * Curve(d, f + 1) - (UNIT + c) * Curve(d, f)
  }

  datatype Polynomial = Polynomial(c0: int, c1: int, c2: int, c3: int)

  function At(p: Polynomial, f: int): (v: int)
  {
    p.c0 + p.c1 * f + p.c2 * (f * f) + p.c3 * (f * f * f)
  }

  /** The lead is a cubic, too. */
  function LeadOf(d: nat, c: nat): (p: Polynomial)
  {
    Polynomial(
      UNIT * (195766423245049 + 971821376 + 5127) - c * (0x1_0000_0000_0000_0000 + 0x8000_0000_0000 - d),
      UNIT * (2 * 971821376 + 3 * 5127) - c * 195766423245049,
      UNIT * (3 * 5127) - c * 971821376,
      -(c * 5127))
  }

  lemma LeadIs(d: nat, c: nat, f: nat)
    ensures Lead(d, c, f) == At(LeadOf(d, c), f)
  {
    hide Curve;
    var g, h := f * f, f * f * f;
    var k := 0x1_0000_0000_0000_0000 + 0x8000_0000_0000 - d;
    CurveIs(d, f, g, h);
    NextCurve(d, f, g);
    Collected(c, f, g, h, k);
    Distrib(UNIT, c, Curve(d, f));
  }

  lemma CurveIs(d: nat, f: nat, g: nat, h: nat)
    requires g == f * f && h == f * f * f
    ensures Curve(d, f) == 195766423245049 * f + 971821376 * g + 5127 * h + (0x1_0000_0000_0000_0000 + 0x8000_0000_0000 - d)
  {
  }

  lemma NextCurve(d: nat, f: nat, g: nat)
    requires g == f * f
    ensures Curve(d, f + 1) == Curve(d, f) + 195766423245049 + 971821376 * (2 * f + 1) + 5127 * (3 * g + 3 * f + 1)
  {
    hide Curve;
    var h := f * f * f;
    CurveIs(d, f, g, h);
    NextPowers(f);
    CurveIs(d, f + 1, g + 2 * f + 1, h + 3 * g + 3 * f + 1);
  }

  lemma NextPowers(f: nat)
    ensures (f + 1) * (f + 1) == f * f + 2 * f + 1
    ensures (f + 1) * (f + 1) * (f + 1) == f * f * f + 3 * (f * f) + 3 * f + 1
  {
  }

  lemma Collected(c: int, f: int, g: int, h: int, k: int)
    ensures c * (195766423245049 * f + 971821376 * g + 5127 * h + k)
            == (c * 195766423245049) * f + (c * 971821376) * g + (c * 5127) * h + c * k
  {
    Distrib(195766423245049 * f + 971821376 * g + 5127 * h, k, c);
    Distrib(195766423245049 * f + 971821376 * g, 5127 * h, c);
    Distrib(195766423245049 * f, 971821376 * g, c);
  }

  /** The slope of the chord from a to f. */
  function Slope(p: Polynomial, a: int, f: int): (s: int)
  {
    p.c1 + p.c2 * (f + a) + p.c3 * (f * f + f * a + a * a)
  }

  lemma Secant(p: Polynomial, a: int, f: int)
    ensures At(p, f) == At(p, a) + (f - a) * Slope(p, a, f)
  {
    assert (f - a) * (f + a) == f * f - a * a;
    assert (f - a) * (f * f + f * a + a * a) == f * f * f - a * a * a;
    assert (f - a) * (p.c2 * (f + a)) == p.c2 * ((f - a) * (f + a));
    assert (f - a) * (p.c3 * (f * f + f * a + a * a)) == p.c3 * ((f - a) * (f * f + f * a + a * a));
    Distrib(p.c1 + p.c2 * (f + a), p.c3 * (f * f + f * a + a * a), f - a);
    Distrib(p.c1, p.c2 * (f + a), f - a);
  }

  /** A chord from a to b lies above the curve where the curve bends upwards, and below it where it bends downwards. */
  lemma Chord(p: Polynomial, a: int, b: int, f: int)
    requires a <= f <= b
    ensures p.c2 + p.c3 * (a + b + f) >= 0 ==> At(p, f) <= At(p, a) + (f - a) * Slope(p, a, b)
    ensures p.c2 + p.c3 * (a + b + f) <= 0 ==> At(p, f) >= At(p, a) + (f - a) * Slope(p, a, b)
  {
    hide At, Slope;
    var m := p.c2 + p.c3 * (a + b + f);
    Secant(p, a, f);
    SlopeStep(p, a, b, f);
    Distrib(Slope(p, a, b), (f - b) * m, f - a);
    Between(f - a, b - f, m);
    assert (f - a) * ((f - b) * m) == -((f - a) * ((b - f) * m));
  }

  lemma SlopeStep(p: Polynomial, a: int, b: int, f: int)
    ensures Slope(p, a, f) == Slope(p, a, b) + (f - b) * (p.c2 + p.c3 * (a + b + f))
  {
    Factored(f, b, a);
    Difference(p, f - b, a + b + f, f + a, b + a, f * f + f * a + a * a, b * b + b * a + a * a);
  }

  lemma Difference(p: Polynomial, u: int, z: int, x1: int, y1: int, x2: int, y2: int)
    requires x1 - y1 == u && x2 - y2 == u * z
    ensures p.c2 * x1 + p.c3 * x2 == p.c2 * y1 + p.c3 * y2 + u * (p.c2 + p.c3 * z)
  {
    Distrib(p.c2, p.c3 * z, u);
    Exchanged(u, p.c3, z);
    Distrib(x2, y2, p.c3);
    Distrib(x1, y1, p.c2);
  }

  lemma Exchanged(x: int, y: int, z: int)
    ensures x * (y * z) == y * (x * z)
  {
  }

  lemma Factored(f: int, b: int, a: int)
    ensures (f - b) * (a + b + f) == f * f + f * a + a * a - (b * b + b * a + a * a)
  {
  }

  lemma Between(x: nat, y: nat, m: int)
    ensures m >= 0 ==> x * (y * m) >= 0
    ensures m <= 0 ==> x * (y * m) <= 0
  {
  }

  /** Between two ends with one sign a line keeps it. */
  lemma Line(v: int, s: int, n: nat, k: nat)
    requires k <= n
    ensures v <= 0 && v + n * s <= 0 ==> v + k * s <= 0
    ensures v >= 0 && v + n * s >= 0 ==> v + k * s >= 0
  {
    if s >= 0 {
      MulMono(k, n, s);
    } else {
      MulMono(k, n, -s);
    }
  }

  lemma OvershootEnds()
    ensures var p := LeadOf(0, BELOW);
            && p.c2 >= 0 && p.c3 <= 0 && p.c1 + p.c2 * (2 * 7070) <= 0 && At(p, 7070) >= 0
            && p.c2 + p.c3 * (7071 + 2 * 30530) >= 0 && At(p, 7071) <= 0 && At(p, 30530) <= 0
            && p.c2 + p.c3 * (2 * 30531 + 56493) <= 0 && At(p, 30531) >= 0 && At(p, 56493) >= 0
            && p.c2 + p.c3 * (3 * 56494) <= 0 && At(p, 56494) <= 0 && Slope(p, 56494, 56494) <= 0
  {
  }

  /** Overshoot: the curve gains on the lower power up to 7071 and from 30531 to 56494, and loses elsewhere. */
  lemma Overshoot(f: nat)
    requires f < 0x1_0000
    ensures f < 7071 || 30531 <= f < 56494 ==> Lead(0, BELOW, f) >= 0
    ensures 7071 <= f < 30531 || 56494 <= f ==> Lead(0, BELOW, f) <= 0
  {
    hide At, Lead, Slope, LeadOf;
    var p := LeadOf(0, BELOW);
    OvershootEnds();
    LeadIs(0, BELOW, f);
    if f < 7071 {
      FallsEarly(p, f, 7070);
    } else if f < 30531 {
      Valley(p, f, 7071, 30530);
    } else if f < 56494 {
      Hill(p, f, 30531, 56493);
    } else {
      FallsLate(p, f, 56494);
    }
  }

  lemma UndershootEnds()
    ensures var p := LeadOf(0x1_0000_0000_0000, ABOVE);
            && p.c2 >= 0 && p.c3 <= 0 && p.c1 + p.c2 * (2 * 7117) <= 0 && At(p, 7117) >= 0
            && p.c2 + p.c3 * (7118 + 2 * 30441) >= 0 && At(p, 7118) <= 0 && At(p, 30441) <= 0
            && p.c2 + p.c3 * (2 * 30442 + 56535) <= 0 && At(p, 30442) >= 0 && At(p, 56535) >= 0
            && p.c2 + p.c3 * (3 * 56536) <= 0 && At(p, 56536) <= 0 && Slope(p, 56536, 56536) <= 0
  {
  }

  /** Undershoot: the same of the curve less one unit and the upper power. */
  lemma Undershoot(f: nat)
    requires f < 0x1_0000
    ensures f < 7118 || 30442 <= f < 56536 ==> Lead(0x1_0000_0000_0000, ABOVE, f) >= 0
    ensures 7118 <= f < 30442 || 56536 <= f ==> Lead(0x1_0000_0000_0000, ABOVE, f) <= 0
  {
    hide At, Lead, Slope, LeadOf;
    var p := LeadOf(0x1_0000_0000_0000, ABOVE);
    UndershootEnds();
    LeadIs(0x1_0000_0000_0000, ABOVE, f);
    if f < 7118 {
      FallsEarly(p, f, 7117);
    } else if f < 30442 {
      Valley(p, f, 7118, 30441);
    } else if f < 56536 {
      Hill(p, f, 30442, 56535);
    } else {
      FallsLate(p, f, 56536);
    }
  }

  /** Before b the polynomial falls towards its value there. */
  lemma FallsEarly(p: Polynomial, f: nat, b: nat)
    requires f <= b && p.c2 >= 0 && p.c3 <= 0 && p.c1 + p.c2 * (2 * b) <= 0 && At(p, b) >= 0
    ensures At(p, f) >= 0
  {
    hide At;
    Secant(p, b, f);
    MulMono(f + b, 2 * b, p.c2);
    Between(f * f + f * b + b * b, 1, p.c3);
    Signs(f - b, Slope(p, b, f));
  }

  /** After a it falls further. */
  lemma FallsLate(p: Polynomial, f: nat, a: nat)
    requires a <= f && p.c3 <= 0 && p.c2 + p.c3 * (3 * a) <= 0 && At(p, a) <= 0 && Slope(p, a, a) <= 0
    ensures At(p, f) <= 0
  {
    hide At, Slope;
    Secant(p, a, f);
    SlopeStep(p, a, a, f);
    MulMono(3 * a, a + a + f, -p.c3);
    Signs(f - a, p.c2 + p.c3 * (a + a + f));
    Signs(f - a, Slope(p, a, f));
  }

  lemma Signs(x: int, y: int)
    requires y <= 0
    ensures x <= 0 ==> x * y >= 0
    ensures x >= 0 ==> x * y <= 0
  {
  }

  lemma Valley(p: Polynomial, f: nat, a: nat, b: nat)
    requires a <= f <= b && p.c3 <= 0 && p.c2 + p.c3 * (a + 2 * b) >= 0 && At(p, a) <= 0 && At(p, b) <= 0
    ensures At(p, f) <= 0
  {
    hide At, Slope;
    MulMono(a + b + f, a + 2 * b, -p.c3);
    Chord(p, a, b, f);
    Secant(p, a, b);
    Line(At(p, a), Slope(p, a, b), b - a, f - a);
  }

  lemma Hill(p: Polynomial, f: nat, a: nat, b: nat)
    requires a <= f <= b && p.c3 <= 0 && p.c2 + p.c3 * (2 * a + b) <= 0 && At(p, a) >= 0 && At(p, b) >= 0
    ensures At(p, f) >= 0
  {
    hide At, Slope;
    MulMono(2 * a + b, a + b + f, -p.c3);
    Chord(p, a, b, f);
    Secant(p, a, b);
    Line(At(p, a), Slope(p, a, b), b - a, f - a);
  }

  // ---- The error of the factor ----

  ghost predicate Under(d: nat, c: nat, k: real, f: nat)
  {
    Curve(d, f) as real <= k * Power(Ratio(c), f)
  }

  ghost predicate Over(d: nat, c: nat, k: real, f: nat)
  {
    Curve(d, f) as real >= k * Power(Ratio(c), f)
  }

  lemma LeadReal(d: nat, c: nat, f: nat)
    ensures Lead(d, c, f) >= 0 ==> Curve(d, f + 1) as real >= Ratio(c) * Curve(d, f) as real
    ensures Lead(d, c, f) <= 0 ==> Curve(d, f + 1) as real <= Ratio(c) * Curve(d, f) as real
  {
    hide Curve;
    var a, b, u, x := Curve(d, f) as real, Curve(d, f + 1) as real, UNIT as real, Ratio(c);
    assert u * x == (UNIT + c) as real;
    assert (u * x) * a == u * (x * a);
    assert Lead(d, c, f) as real == u * b - u * (x * a);
    if Lead(d, c, f) >= 0 {
      Cancelled(x * a, b, u);
    }
    if Lead(d, c, f) <= 0 {
      Cancelled(b, x * a, u);
    }
  }

  /** A bound passes from one value to its neighbour on the side where the curve gains less. */
  lemma Passes(d: nat, c: nat, k: real, f: nat)
    ensures Lead(d, c, f) >= 0 && Under(d, c, k, f + 1) ==> Under(d, c, k, f)
    ensures Lead(d, c, f) <= 0 && Under(d, c, k, f) ==> Under(d, c, k, f + 1)
    ensures Lead(d, c, f) >= 0 && Over(d, c, k, f) ==> Over(d, c, k, f + 1)
    ensures Lead(d, c, f) <= 0 && Over(d, c, k, f + 1) ==> Over(d, c, k, f)
  {
    hide Curve, Lead, Power, Ratio;
    LeadReal(d, c, f);
    PowerNext(Ratio(c), f);
    Neighbours(Curve(d, f) as real, Curve(d, f + 1) as real, Ratio(c), k, Power(Ratio(c), f));
  }

  lemma PowerNext(x: real, f: nat)
    ensures Power(x, f + 1) == x * Power(x, f)
  {
  }

  lemma Neighbours(a: real, b: real, x: real, k: real, p: real)
    requires x >= 1.0
    ensures b >= x * a && b <= k * (x * p) ==> a <= k * p
    ensures b <= x * a && a <= k * p ==> b <= k * (x * p)
    ensures b >= x * a && a >= k * p ==> b >= k * (x * p)
    ensures b <= x * a && b >= k * (x * p) ==> a >= k * p
  {
    assert k * (x * p) == x * (k * p);
    Scaled(x, a, k * p);
  }

  lemma Scaled(x: real, a: real, q: real)
    requires x >= 1.0
    ensures x * a <= x * q <==> a <= q
  {
  }

  /** The largest overshoot and the largest shortfall, per 65536 * 2^48. */
  const MOST: real := 18446744073709551616.0 * 1.00013
  const LEAST: real := 18446744073709551616.0 * 0.99987

  lemma Peaks()
    ensures Under(0, BELOW, MOST, 7071) && Under(0, BELOW, MOST, 56494)
  {
    hide Power, Ratio;
    LowPowers();
    assert Curve(0, 7071) == 19881551942870305536;
    assert Curve(0, 56494) == 33532573099807693254;
  }

  lemma Troughs()
    ensures Over(0x1_0000_0000_0000, ABOVE, LEAST, 0) && Over(0x1_0000_0000_0000, ABOVE, LEAST, 30442)
    ensures Over(0x1_0000_0000_0000, ABOVE, LEAST, 0x1_0000)
  {
    hide Power, Ratio;
    HighPowers();
    PowerZero(Ratio(ABOVE));
    assert Curve(0x1_0000_0000_0000, 0) == 18446603336221196288;
    assert Curve(0x1_0000_0000_0000, 30442) == 25451364744181321586;
    assert Curve(0x1_0000_0000_0000, 0x1_0000) == 36893414883077980160;
  }

  lemma PowerZero(x: real)
    ensures Power(x, 0) == 1.0
  {
  }

  lemma {:induction false} NeverMore(f: nat)
    requires f <= 0x1_0000
    ensures Under(0, BELOW, MOST, f)
    decreases if f <= 7071 then 7071 - f else if f <= 30531 then f - 7071 else if f <= 56494 then 56494 - f else f - 56494
  {
    hide Under, Lead;
    Peaks();
    if f < 7071 || 30531 < f < 56494 {
      Overshoot(f);
      NeverMore(f + 1);
      Passes(0, BELOW, MOST, f);
    } else if f != 7071 && f != 56494 {
      Overshoot(f - 1);
      NeverMore(f - 1);
      Passes(0, BELOW, MOST, f - 1);
    }
  }

  lemma {:induction false} NeverLess(f: nat)
    requires f <= 0x1_0000
    ensures Over(0x1_0000_0000_0000, ABOVE, LEAST, f)
    decreases if f <= 7118 then f else if f <= 30442 then 30442 - f else if f <= 56536 then f - 30442 else 0x1_0000 - f
  {
    hide Over, Lead;
    Troughs();
    if 7118 < f < 30442 || 56536 < f < 0x1_0000 {
      Undershoot(f);
      NeverLess(f + 1);
      Passes(0x1_0000_0000_0000, ABOVE, LEAST, f);
    } else if f != 0 && f != 30442 && f != 0x1_0000 {
      Undershoot(f - 1);
      NeverLess(f - 1);
      Passes(0x1_0000_0000_0000, ABOVE, LEAST, f - 1);
    }
  }

  /** The root of two lies between the ratios. */
  lemma RootBetween(t: real)
    requires t > 0.0
    ensures Power(t, 0x1_0000) >= 2.0 ==> t >= Ratio(BELOW)
    ensures Power(t, 0x1_0000) <= 2.0 ==> t <= Ratio(ABOVE)
  {
    hide Power, Ratio;
    BelowRoot();
    AboveRoot();
    if t < Ratio(BELOW) {
      PowerRises(t, Ratio(BELOW), 0x1_0000);
    }
    if t > Ratio(ABOVE) {
      PowerRises(Ratio(ABOVE), t, 0x1_0000);
    }
  }

  /**
   * The factor of the difficulty rule is 65536 * 2^(f / 65536) to within 0.013 per cent. The power is t^f for the t with
   * t^65536 == 2; the upper bound holds for every t from that root on, the lower one for every t up to it.
   */
  lemma FactorIsExponential(t: real, f: nat)
    requires t > 0.0 && f <= 0x1_0000
    ensures Power(t, 0x1_0000) >= 2.0 ==> Factor(f) as real <= 65536.0 * Power(t, f) * 1.00013
    ensures Power(t, 0x1_0000) <= 2.0 ==> Factor(f) as real >= 65536.0 * Power(t, f) * 0.99987
  {
    hide Power, Ratio, Factor, Curve;
    FactorBetween(f);
    RootBetween(t);
    if Power(t, 0x1_0000) >= 2.0 {
      NeverMore(f);
      PowerRises(Ratio(BELOW), t, f);
    }
    if Power(t, 0x1_0000) <= 2.0 {
      NeverLess(f);
      PowerRises(t, Ratio(ABOVE), f);
    }
  }

  /** A whole step of the exponent doubles it exactly. */
  lemma FactorEnds()
    ensures Factor(0) == 0x1_0000 && Factor(0x1_0000) == 0x2_0000
  {
  }

  // ---- The target ----

  /** 2^s for an exponent of either sign. */
  ghost function TwoTo(s: int): (v: real)
    ensures v > 0.0
  {
    if s >= 0 then Pow2(s) as real else 1.0 / Pow2(-s) as real
  }

  /** Scaling multiplies by 2^s and rounds down. */
  lemma ScaleRounds(x: nat, s: int)
    ensures Scale(x, s) as real <= x as real * TwoTo(s) < Scale(x, s) as real + 1.0
  {
    hide Pow2;
    if s <= 0 {
      var p := Pow2(-s);
      var q := x / p;
      PowZero(s);
      assert x == q * p + x % p;
      Quotient(x as real, q as real, p as real);
    }
  }

  lemma PowZero(s: int)
    ensures s == 0 ==> Pow2(s) == 1 && TwoTo(s) == 1.0
  {
  }

  lemma Quotient(x: real, q: real, p: real)
    requires p >= 1.0 && q * p <= x < q * p + p
    ensures q <= x * (1.0 / p) < q + 1.0
  {
    var y := x * (1.0 / p);
    assert y * p == x;
    Cancelled(q, y, p);
    assert (q + 1.0) * p == q * p + p;
    CancelledStrictly(y, q + 1.0, p);
  }

  lemma CancelledStrictly(a: real, b: real, u: real)
    requires a * u < b * u && u > 0.0
    ensures a < b
  {
  }

  lemma SixteenDown(q: int)
    ensures TwoTo(q - 16) * 65536.0 == TwoTo(q)
  {
    hide Pow2;
    Pow2Literals();
    if q >= 16 {
      Pow2Add(q - 16, 16);
    } else if q >= 0 {
      Pow2Add(16 - q, q);
      Inverse(Pow2(16 - q) as real, Pow2(q) as real);
    } else {
      Pow2Add(-q, 16);
      Inverse2(Pow2(-q) as real);
    }
  }

  lemma Inverse(a: real, b: real)
    requires a >= 1.0 && a * b == 65536.0
    ensures 1.0 / a * 65536.0 == b
  {
    assert 1.0 / a * (a * b) == b;
  }

  lemma Inverse2(a: real)
    requires a >= 1.0
    ensures 1.0 / (a * 65536.0) * 65536.0 == 1.0 / a
  {
    var y := 1.0 / (a * 65536.0);
    assert y * (a * 65536.0) == 1.0;
    assert (y * 65536.0) * a == 1.0;
  }

  /**
   * The unclamped target for the exponent q + r / 65536 is the reference target times 2^q times t^r, where t is the 65536th
   * root of two, to within 0.013 per cent and one unit lost to rounding down.
   */
  lemma TargetIsExponential(t: real, refTarget: nat, q: int, r: nat)
    requires t > 0.0 && r < 0x1_0000
    ensures Power(t, 0x1_0000) >= 2.0 ==>
              RawTarget(refTarget, 0x1_0000 * q + r) as real <= refTarget as real * TwoTo(q) * Power(t, r) * 1.00013
    ensures Power(t, 0x1_0000) <= 2.0 ==>
              RawTarget(refTarget, 0x1_0000 * q + r) as real + 1.0 > refTarget as real * TwoTo(q) * Power(t, r) * 0.99987
  {
    hide Power, Factor, Scale, TwoTo, Pow2;
    DivModUnique(0x1_0000 * q + r, 0x1_0000, q, r);
    FactorIsExponential(t, r);
    var x := refTarget * Factor(r);
    ScaleRounds(x, q - 16);
    SixteenDown(q);
    Combined(refTarget as real, Factor(r) as real, TwoTo(q - 16), Power(t, r));
  }

  lemma Combined(a: real, f: real, w: real, p: real)
    requires a >= 0.0 && w > 0.0
    ensures f <= 65536.0 * p * 1.00013 ==> (a * f) * w <= a * (w * 65536.0) * p * 1.00013
    ensures f >= 65536.0 * p * 0.99987 ==> (a * f) * w >= a * (w * 65536.0) * p * 0.99987
  {
    var k := a * w;
    assert (a * f) * w == k * f;
    Regroups(a, w, p, k, 1.00013);
    Regroups(a, w, p, k, 0.99987);
    if f <= 65536.0 * p * 1.00013 {
      Weighted(k, f, 65536.0 * p * 1.00013);
    }
    if f >= 65536.0 * p * 0.99987 {
      Weighted(k, 65536.0 * p * 0.99987, f);
    }
  }

  lemma Regroups(a: real, w: real, p: real, k: real, c: real)
    requires k == a * w
    ensures a * (w * 65536.0) * p * c == k * (65536.0 * p * c)
  {
  }

  lemma Weighted(k: real, a: real, b: real)
    requires k >= 0.0 && a <= b
    ensures k * a <= k * b
  {
  }
}
