/** The last page of totals beyond the integers that a double holds exactly. */
module LargeTotals {
  import opened Pages
  import opened Doubles

  const TWO_63: int := 0x8000_0000_0000_0000
  const TWO_19: int := 0x8_0000

  lemma {:induction false} AtMost(x: real, y: real, k: real)
    requires k > 0.0 && x * k <= y * k
    ensures x <= y
  {
    if y < x {
      StrictlyMonotone(y, x, k);
    }
  }

  /** A rounded total divided exactly is as close to the exact quotient as the total was. */
  lemma {:induction false} DividedClose(x: real, t: real, z: real, q: real, p: real)
    requires p > 0.0 && Close(x, t) && z * p == x && q * p == t
    ensures Close(z, q)
  {
    var big := TWO_53 as real;
    assert (z - q) * big * p == (x - t) * big;
    assert (q - z) * big * p == (t - x) * big;
    AtMost((z - q) * big, q, p);
    AtMost((q - z) * big, q, p);
  }

  /** Two roundings in a row are off by at most three parts in 2^53. */
  lemma {:induction false} TwiceClose(y: real, z: real, q: real)
    requires Close(y, z) && Close(z, q) && q >= 0.0
    ensures (y - q) * TWO_53 as real <= 3.0 * q && (q - y) * TWO_53 as real <= 3.0 * q
  {
    assert z <= 2.0 * q;
  }

  /** What `last_page` computes before its bounds are applied. */
  lemma {:induction false} QuotientNear(t: nat, p: nat, q: real) returns (y: real)
    requires t >= 1 && 1 <= p < U32_LIMIT && q * p as real == t as real
    ensures Divide(Round, t, p) == Finite(y)
    ensures q > 0.0 && (y - q) * TWO_53 as real <= 3.0 * q && (q - y) * TWO_53 as real <= 3.0 * q
  {
    hide Round, Close, RoundAbs;
    var x, b := Round(t as real), p as real;
    RoundInteger(p);
    RoundInteger(1);
    RoundMonotone(1.0, t as real);
    RoundIs(t as real);
    RoundClose(t as real);
    var z := x / b;
    y := Round(z);
    QuotientTimes(x, b);
    DividedClose(x, t as real, z, q, b);
    QuotientLarge(z, b, x);
    RoundIs(z);
    RoundClose(z);
    Positive(q, b);
    TwiceClose(y, z, q);
  }

  lemma {:induction false} Positive(q: real, p: real)
    requires p > 0.0 && q * p > 0.0
    ensures q > 0.0
  {
    Cancel(0.0, q, p);
  }

  lemma {:induction false} QuotientLarge(z: real, p: real, x: real)
    requires 1.0 <= p <= U32_LIMIT as real && x >= 1.0 && z * p == x
    ensures z > 0.0 && z * U32_LIMIT as real >= 1.0
  {
    Positive(z, p);
    Monotone(p, U32_LIMIT as real, z);
  }

  /** The last page as it should be: at least 1, and cut off at the largest u32. */
  function Exactly(t: nat, p: nat): int
    requires p >= 1
  {
    var c := CeilDiv(t, p);
    if c < 1 then 1 else if c >= U32_LIMIT then U32_LIMIT - 1 else c
  }

  lemma {:induction false} CeilWithin(y: real, q: real, c: int)
    requires (c - 1) as real < q <= c as real && -1.0 < y - q < 1.0
    ensures c - 1 <= Ceil(y) <= c + 1
  {
  }

  lemma {:induction false} CeilSame(y: real, c: int)
    requires (c - 1) as real < y <= c as real
    ensures Ceil(y) == c
  {
  }

  /** Both bounds keep what is at most one apart at most one apart. */
  lemma {:induction false} Bounds(rnd: real -> real, t: nat, p: nat, y: real, c: int)
    requires Divide(rnd, t, p) == Finite(y) && p >= 1 && c == CeilDiv(t, p)
    ensures c - 1 <= Ceil(y) <= c + 1 ==> Exactly(t, p) - 1 <= LastPage(rnd, t, p) <= Exactly(t, p) + 1
    ensures Ceil(y) == c || (c >= U32_LIMIT && Ceil(y) >= U32_LIMIT - 1) ==> LastPage(rnd, t, p) == Exactly(t, p)
  {
    hide CeilDiv, Divide, Ceil;
  }

  lemma {:induction false} QuotientBeyond(q: real, t: nat, p: nat, k: nat)
    requires p >= 1 && q * p as real == t as real && k * p < t
    ensures k as real < q
  {
    assert k as real * p as real == (k * p) as real;
    Cancel(k as real, q, p as real);
  }

  lemma {:induction false} QuotientBetween(q: real, t: nat, p: nat, c: nat)
    requires p >= 1 && t >= 1 && q * p as real == t as real && c == CeilDiv(t, p)
    ensures c >= 1 && (c - 1) as real < q <= c as real
  {
    CeilDivBounds(t, p);
    hide CeilDiv;
    assert c >= 1 by {
      assert 0 * p == 0;
    }
    QuotientBelow(q, t, p, c);
    QuotientBeyond(q, t, p, c - 1);
  }

  /** A distance of `r` rows in pages of `p`. */
  lemma {:induction false} InPages(d: real, p: nat, r: int)
    requires p >= 1 && d * p as real == r as real && r * TWO_19 >= p
    ensures d * TWO_19 as real >= 1.0
  {
    assert d * TWO_19 as real * p as real == d * p as real * TWO_19 as real;
    AtMost(1.0, d * TWO_19 as real, p as real);
  }

  lemma {:induction false} Distance(q: real, t: nat, p: nat, m: int)
    requires p >= 1 && q * p as real == t as real
    ensures (q - m as real) * p as real == (t - m * p) as real
    ensures (m as real - q) * p as real == (m * p - t) as real
  {
    assert m as real * p as real == (m * p) as real;
  }

  /** The computed quotient, and the exact one below a page count `c` that fits 32 bits or just does not. */
  lemma {:induction false} NearBelow(y: real, q: real, c: int)
    requires 0.0 < q <= U32_LIMIT as real
    requires (y - q) * TWO_53 as real <= 3.0 * q && (q - y) * TWO_53 as real <= 3.0 * q
    ensures -1.0 < (y - q) * TWO_19 as real < 1.0
    ensures (c - 1) as real < q <= c as real ==> c - 1 <= Ceil(y) <= c + 1
  {
    hide Ceil;
    if (c - 1) as real < q <= c as real {
      CeilWithin(y, q, c);
    }
  }

  lemma {:induction false} Clear(y: real, q: real, c: int)
    requires -1.0 < (y - q) * TWO_19 as real < 1.0
    requires (q - (c - 1) as real) * TWO_19 as real >= 1.0 && (c as real - q) * TWO_19 as real >= 1.0
    ensures Ceil(y) == c
  {
    hide Ceil;
    CeilSame(y, c);
  }

  lemma {:induction false} NearAbove(y: real, q: real)
    requires q > U32_LIMIT as real && (q - y) * TWO_53 as real <= 3.0 * q
    ensures Ceil(y) >= U32_LIMIT - 1
  {
    hide Ceil;
    CeilAbove(y, U32_LIMIT - 1);
  }

  lemma {:induction false} CeilAbove(y: real, n: int)
    requires y > (n - 1) as real
    ensures Ceil(y) >= n
  {
  }

  /** The rows on the last page, if the total is not zero. */
  function LastRows(t: nat, p: nat): int
    requires p >= 1
  {
    t - (CeilDiv(t, p) - 1) * p
  }

  /** The last page holds neither almost nothing nor almost a full page: less than a part in 2^19 of one. */
  predicate Amply(t: nat, p: nat)
    requires p >= 1
  {
    LastRows(t, p) * TWO_19 >= p && (p - LastRows(t, p)) * TWO_19 >= p
  }

  lemma {:induction false} AmplyClear(q: real, y: real, t: nat, p: nat, c: int)
    requires p >= 1 && q * p as real == t as real && c == CeilDiv(t, p) && Amply(t, p)
    requires -1.0 < (y - q) * TWO_19 as real < 1.0
    ensures Ceil(y) == c
  {
    hide CeilDiv, Ceil;
    assert c * p == (c - 1) * p + p;
    Distance(q, t, p, c - 1);
    Distance(q, t, p, c);
    InPages(q - (c - 1) as real, p, LastRows(t, p));
    InPages(c as real - q, p, p - LastRows(t, p));
    Clear(y, q, c);
  }

  /**
   * For every 64-bit total the last page is at most one off; and it is exact unless the last page holds less than one
   * part in 2^19 of a full page, or is short of a full one by less than that.
   */
  lemma {:induction false} LastPageNear(t: nat, p: nat)
    requires t < TWO_63 && 1 <= p < U32_LIMIT
    ensures Exactly(t, p) - 1 <= LastPage(Round, t, p) <= Exactly(t, p) + 1
    ensures Amply(t, p) ==> LastPage(Round, t, p) == Exactly(t, p)
  {
    hide CeilDiv, LastPage, Round, Exactly, Amply, Ceil, Divide;
    var c := CeilDiv(t, p);
    if t == 0 {
      LastPageInDoubles(t, p);
      ExactlyIs(t, p);
    } else {
      var q := t as real / p as real;
      QuotientTimes(t as real, p as real);
      QuotientBetween(q, t, p, c);
      var y := QuotientNear(t, p, q);
      Bounds(Round, t, p, y, c);
      if q > U32_LIMIT as real {
        NearAbove(y, q);
      } else {
        NearBelow(y, q, c);
        if Amply(t, p) {
          AmplyClear(q, y, t, p, c);
        }
      }
    }
  }

  lemma {:induction false} ExactlyIs(t: nat, p: nat)
    requires p >= 1
    ensures var c := CeilDiv(t, p); Exactly(t, p) == if c < 1 then 1 else if c >= U32_LIMIT then U32_LIMIT - 1 else c
  {
    hide CeilDiv;
  }
}
