/** Binary floating-point rounding in double precision (section 4.3.1 of IEEE 754-2008): to nearest, ties to even. */
module Doubles {
  import opened Pages

  const TWO_52: int := 0x10_0000_0000_0000
  const FINEST: nat := 2045

  function Pow2(n: nat): (r: nat)
    ensures r >= 1
  {
    if n == 0 then 1 else 2 * Pow2(n - 1)
  }

  /** The spacings of the doubles, from 2^971 at the top of their range down to 2^-1074 at the bottom. */
  function Spacing(k: nat): (u: real)
    ensures u > 0.0
  {
    Pow2(971) as real / Pow2(k) as real
  }

  /** The first spacing, from the widest down, at which `x` takes 53 bits; below the normal range it is the finest. */
  function Exponent(x: real, k: nat): (e: nat)
    requires k <= FINEST
    ensures k <= e <= FINEST
    decreases FINEST - k
  {
    if k == FINEST || x >= TWO_52 as real * Spacing(k) then k else Exponent(x, k + 1)
  }

  /** The nearest integer, and of two the even one. */
  function Nearest(y: real): int {
    var n := y.Floor;
    var d := y - n as real;
    if d < 0.5 then n else if d > 0.5 then n + 1 else if n % 2 == 0 then n else n + 1
  }

  function RoundTo(x: real, u: real): real
    requires u > 0.0
  {
    Nearest(x / u) as real * u
  }

  function RoundAbs(x: real): real {
    RoundTo(x, Spacing(Exponent(x, 0)))
  }

  /** The double nearest to a real within the range of the doubles; what is below the finest of them becomes zero. */
  function Round(x: real): real {
    if x >= 0.0 then RoundAbs(x) else -RoundAbs(-x)
  }

  // ----- Rounding to an integer -----

  lemma {:induction false} NearestInt(n: int)
    ensures Nearest(n as real) == n
  {
  }

  lemma {:induction false} NearestMonotone(x: real, y: real)
    requires x <= y
    ensures Nearest(x) <= Nearest(y)
  {
    if x.Floor == y.Floor {
      assert x - x.Floor as real <= y - y.Floor as real;
    } else {
      assert x.Floor + 1 <= y.Floor;
    }
  }

  lemma {:induction false} NearestClose(y: real)
    ensures -0.5 <= Nearest(y) as real - y <= 0.5
  {
  }

  // ----- Spacings -----

  lemma {:induction false} Pow2Add(a: nat, b: nat)
    ensures Pow2(a + b) == Pow2(a) * Pow2(b)
  {
    if a > 0 {
      Pow2Add(a - 1, b);
      assert a + b - 1 == a - 1 + b;
    }
  }

  lemma {:induction false} Pow2Four()
    ensures Pow2(0) == 1 && Pow2(1) == 2 && Pow2(4) == 16
  {
  }

  lemma {:induction false} Pow2Values()
    ensures Pow2(32) == U32_LIMIT && Pow2(52) == TWO_52
  {
    hide Pow2;
    Pow2Four();
    Pow2Add(4, 4);
    Pow2Add(8, 8);
    Pow2Add(16, 16);
    Pow2Add(16, 4);
    Pow2Add(32, 20);
  }

  lemma {:induction false} QuotientTimes(a: real, b: real)
    requires b > 0.0
    ensures a / b * b == a
  {
  }

  lemma {:induction false} CancelRight(x: real, y: real, k: real)
    requires x * k == y * k && k > 0.0
    ensures x == y
  {
  }

  lemma {:induction false} QuotientOfProduct(top: real, a: real, b: real)
    requires a > 0.0 && b > 0.0 && a * b > 0.0
    ensures top / a == top / (a * b) * b
  {
    var q := top / (a * b);
    QuotientTimes(top, a);
    QuotientTimes(top, a * b);
    assert q * b * a == q * (a * b);
    CancelRight(top / a, q * b, a);
  }

  /** A spacing is the one `j` steps below, times 2^j. */
  lemma {:induction false} SpacingStep(k: nat, j: nat)
    ensures Spacing(k) == Spacing(k + j) * Pow2(j) as real
  {
    hide Pow2;
    Pow2Add(k, j);
    QuotientOfProduct(Pow2(971) as real, Pow2(k) as real, Pow2(j) as real);
  }

  lemma {:induction false} SpacingOne(j: nat)
    ensures Spacing(971 + j) * Pow2(j) as real == 1.0
  {
    hide Pow2, Spacing;
    SpacingStep(971, j);
    SpacingUnit();
  }

  lemma {:induction false} SpacingUnit()
    ensures Spacing(971) == 1.0
  {
    hide Pow2;
    var top := Pow2(971) as real;
    QuotientTimes(top, top);
    CancelRight(top / top, 1.0, top);
  }

  lemma {:induction false} SpacingFalls(k: nat, l: nat)
    requires k <= l
    ensures Spacing(l) <= Spacing(k)
  {
    hide Spacing, Pow2;
    SpacingStep(k, l - k);
    Monotone(1.0, Pow2(l - k) as real, Spacing(l));
  }

  // ----- The spacing of a number -----

  lemma {:induction false} ExponentIs(x: real, k: nat)
    requires k <= FINEST
    ensures var e := Exponent(x, k);
            && (e == FINEST || x >= TWO_52 as real * Spacing(e))
            && (e > k ==> x < TWO_52 as real * Spacing(e - 1))
    decreases FINEST - k
  {
    hide Spacing;
    if !(k == FINEST || x >= TWO_52 as real * Spacing(k)) {
      ExponentIs(x, k + 1);
    }
  }

  lemma {:induction false} ExponentFalls(x: real, y: real, k: nat)
    requires k <= FINEST && x <= y
    ensures Exponent(y, k) <= Exponent(x, k)
    decreases FINEST - k
  {
    hide Spacing;
    if !(k == FINEST || x >= TWO_52 as real * Spacing(k)) {
      ExponentFalls(x, y, k + 1);
    }
  }

  // ----- Monotone -----

  lemma {:induction false} Divided(x: real, y: real, u: real)
    requires x <= y && u > 0.0
    ensures x / u <= y / u
  {
  }

  lemma {:induction false} RoundToMonotone(x: real, y: real, u: real)
    requires x <= y && u > 0.0
    ensures RoundTo(x, u) <= RoundTo(y, u)
  {
    Divided(x, y, u);
    NearestMonotone(x / u, y / u);
    hide Nearest;
    Monotone(Nearest(x / u) as real, Nearest(y / u) as real, u);
  }

  lemma {:induction false} RoundToMultiple(n: int, u: real)
    requires u > 0.0
    ensures RoundTo(n as real * u, u) == n as real * u
  {
    QuotientTimes(n as real * u, u);
    CancelRight(n as real * u / u, n as real, u);
    NearestInt(n);
  }

  lemma {:induction false} RoundAbsMonotone(x: real, y: real)
    requires x <= y
    ensures RoundAbs(x) <= RoundAbs(y)
  {
    hide RoundTo, Exponent, Spacing, Pow2;
    Pow2Four();
    var e, f := Exponent(x, 0), Exponent(y, 0);
    ExponentFalls(x, y, 0);
    if e == f {
      RoundToMonotone(x, y, Spacing(e));
    } else {
      ExponentIs(x, 0);
      ExponentIs(y, 0);
      var edge := TWO_52 as real * Spacing(e - 1);
      SpacingStep(e - 1, 1);
      assert edge == TWO_53 as real * Spacing(e);
      RoundToMonotone(x, edge, Spacing(e));
      RoundToMultiple(TWO_53, Spacing(e));
      SpacingFalls(f, e - 1);
      Monotone(Spacing(e - 1), Spacing(f), TWO_52 as real);
      RoundToMonotone(TWO_52 as real * Spacing(f), y, Spacing(f));
      RoundToMultiple(TWO_52, Spacing(f));
    }
  }

  lemma {:induction false} RoundMonotone(x: real, y: real)
    requires x <= y
    ensures Round(x) <= Round(y)
  {
    hide RoundTo, Exponent, Spacing, RoundAbs;
    if x >= 0.0 {
      RoundAbsMonotone(x, y);
    } else if y < 0.0 {
      RoundAbsMonotone(-y, -x);
    } else {
      RoundAbsMonotone(0.0, y);
      RoundAbsMonotone(0.0, -x);
      RoundZero();
    }
  }

  lemma {:induction false} RoundZero()
    ensures RoundAbs(0.0) == 0.0
  {
    hide RoundTo, Exponent, Spacing;
    var u := Spacing(Exponent(0.0, 0));
    assert 0 as real * u == 0.0;
    RoundToMultiple(0, u);
  }

  // ----- Exact on integers -----

  lemma {:induction false} Regroup(n: nat, m: nat, u: real) returns (k: nat)
    requires u * m as real == 1.0
    ensures k as real * u == n as real
  {
    k := n * m;
    assert k as real == n as real * m as real;
    assert n as real * m as real * u == n as real * (u * m as real);
  }

  lemma {:induction false} RoundFine(n: nat, m: nat, u: real)
    requires u > 0.0 && u * m as real == 1.0
    ensures RoundTo(n as real, u) == n as real
  {
    hide RoundTo;
    var k := Regroup(n, m, u);
    RoundToMultiple(k, u);
  }

  lemma {:induction false} RoundExact(n: nat)
    requires n <= TWO_53
    ensures RoundAbs(n as real) == n as real
  {
    hide RoundTo, Exponent, Spacing, Pow2;
    var e := Exponent(n as real, 0);
    var u := Spacing(e);
    if n == 0 {
      RoundZero();
    } else if e >= 971 {
      SpacingOne(e - 971);
      RoundFine(n, Pow2(e - 971), u);
    } else {
      ExponentIs(n as real, 0);
      WideSpacing(n, e);
      RoundToMultiple(TWO_52, u);
    }
  }

  /** Of the integers up to 2^53 only 2^53 itself takes a spacing above 1, and that is 2. */
  lemma {:induction false} WideSpacing(n: nat, e: nat)
    requires n <= TWO_53 && e < 971 && n as real >= TWO_52 as real * Spacing(e)
    ensures n == TWO_53 && Spacing(e) == 2.0
  {
    hide Spacing, Pow2;
    Pow2Four();
    SpacingOne(0);
    SpacingStep(970, 1);
    SpacingFalls(e, 970);
    if e < 970 {
      SpacingStep(969, 1);
      SpacingFalls(e, 969);
    }
  }

  // ----- Off by at most one part in 2^53 -----

  lemma {:induction false} RoundToClose(x: real, u: real)
    requires u > 0.0
    ensures RoundTo(x, u) - x <= 0.5 * u && x - RoundTo(x, u) <= 0.5 * u
  {
    hide Nearest;
    NearestClose(x / u);
    QuotientTimes(x, u);
    HalfStep(Nearest(x / u) as real, x / u, u, RoundTo(x, u), x);
    HalfStep(x / u, Nearest(x / u) as real, u, x, RoundTo(x, u));
  }

  lemma {:induction false} Distribute(y: real, h: real, u: real)
    ensures (y + h) * u == y * u + h * u
  {
  }

  lemma {:induction false} HalfStep(n: real, y: real, u: real, r: real, x: real)
    requires u > 0.0 && n <= y + 0.5 && r == n * u && x == y * u
    ensures r <= x + 0.5 * u
  {
    Monotone(n, y + 0.5, u);
    Distribute(y, 0.5, u);
  }

  /** At the finest spacing 53 bits stay below 2^-32. */
  lemma {:induction false} FinestIsFine()
    ensures TWO_52 as real * Spacing(FINEST) * U32_LIMIT as real <= 1.0
  {
    hide Spacing, Pow2;
    Pow2Values();
    Pow2Add(52, 32);
    SpacingOne(84);
    SpacingFalls(971 + 84, FINEST);
    assert Pow2(84) == TWO_52 * U32_LIMIT;
  }

  lemma {:induction false} NormalRange(x: real)
    requires 1.0 <= x * U32_LIMIT as real
    ensures x >= TWO_52 as real * Spacing(Exponent(x, 0))
  {
    hide Spacing, Exponent;
    ExponentIs(x, 0);
    FinestIsFine();
  }

  lemma {:induction false} RoundClose(x: real)
    requires 1.0 <= x * U32_LIMIT as real
    ensures Close(RoundAbs(x), x)
  {
    var u := Spacing(Exponent(x, 0));
    NormalRange(x);
    hide RoundTo, Exponent, Spacing;
    RoundToClose(x, u);
  }

  /** Rounding to the nearest double, ties to even, is rounding as the page arithmetic needs it. */
  lemma {:induction false} RoundRounds()
    ensures Rounds(Round)
  {
    hide Round;
    forall x: real, y: real | -TWO_53 as real <= x <= y <= TWO_53 as real
      ensures Round(x) <= Round(y)
    {
      RoundMonotone(x, y);
    }
    forall n: int | -TWO_53 <= n <= TWO_53
      ensures ExactAt(Round, n)
    {
      RoundInteger(n);
    }
    forall x: real | 1.0 <= x * U32_LIMIT as real && x <= TWO_53 as real
      ensures Close(Round(x), x)
    {
      RoundClose(x);
      RoundIs(x);
    }
  }

  lemma {:induction false} RoundIs(x: real)
    requires x >= 0.0
    ensures Round(x) == RoundAbs(x)
  {
  }

  lemma {:induction false} RoundInteger(n: int)
    requires -TWO_53 <= n <= TWO_53
    ensures Round(n as real) == n as real
  {
    hide RoundAbs;
    if n >= 0 {
      RoundExact(n);
    } else {
      RoundExact(-n);
      assert (-n) as real == -(n as real);
    }
  }

  /** The last page, computed in double precision as the code does, is the exact one. */
  lemma {:induction false} LastPageInDoubles(t: nat, p: nat)
    requires t < TWO_53 && 1 <= p < U32_LIMIT
    ensures var c := CeilDiv(t, p);
            LastPage(Round, t, p) == if c < 1 then 1 else if c >= U32_LIMIT then U32_LIMIT - 1 else c
  {
    RoundRounds();
    LastPageExact(Round, t, p);
  }

  // ----- The bound is sharp -----

  lemma {:induction false} ExponentOf(x: real, e: nat)
    requires 0 < e < FINEST && TWO_52 as real * Spacing(e) <= x < TWO_52 as real * Spacing(e - 1)
    ensures Exponent(x, 0) == e
  {
    hide Spacing, Exponent;
    var f := Exponent(x, 0);
    ExponentIs(x, 0);
    if f < e {
      SpacingFalls(f, e - 1);
    } else if f > e {
      SpacingFalls(e, f - 1);
    }
  }

  lemma {:induction false} RoundFirstGap()
    ensures Round((TWO_53 + 1) as real) == TWO_53 as real
  {
    hide Spacing, Exponent, Pow2;
    Pow2Four();
    SpacingOne(0);
    SpacingStep(970, 1);
    SpacingStep(969, 1);
    ExponentOf((TWO_53 + 1) as real, 970);
    assert (TWO_53 + 1) as real / 2.0 == TWO_52 as real + 0.5;
  }

  /** With 2^53 + 1 rows on pages of 2^30 the last page is one too low: the total itself is rounded to 2^53. */
  lemma {:induction false} LastPageTooLow()
    ensures LastPage(Round, TWO_53 + 1, 0x4000_0000) == 0x80_0000 < CeilDiv(TWO_53 + 1, 0x4000_0000)
  {
    hide Round;
    RoundFirstGap();
    RoundInteger(0x4000_0000);
    RoundInteger(0x80_0000);
    assert TWO_53 as real / 0x4000_0000 as real == 0x80_0000 as real;
  }
}
