/** Offset pages: the number of the last page, computed in floating point. */
module Pages {

  const U32_LIMIT: int := 0x1_0000_0000
  const TWO_53: int := 0x20_0000_0000_0000

  // ----- Floating-point division, rounding up, and the saturating cast -----

  /**
   * Rounding to a double-precision value (section 4.3.1 of IEEE 754-2008), on the reals that matter here: up to 2^53
   * it is monotone and exact on the integers, and from 2^-32 on it is off by at most one part in 2^53. Nothing is
   * asked of it near zero, where values may underflow, nor beyond 2^53, where they may overflow.
   */
  ghost predicate Rounds(rnd: real -> real) {
    && (forall x: real, y: real :: -TWO_53 as real <= x <= y <= TWO_53 as real ==> rnd(x) <= rnd(y))
    && (forall n: int :: -TWO_53 <= n <= TWO_53 ==> ExactAt(rnd, n))
    && (forall x: real :: 1.0 <= x * U32_LIMIT as real && x <= TWO_53 as real ==> Close(rnd(x), x))
  }

  predicate ExactAt(rnd: real -> real, n: int) {
    rnd(n as real) == n as real
  }

  predicate Close(r: real, x: real) {
    (x - r) * TWO_53 as real <= x && (r - x) * TWO_53 as real <= x
  }

  /** Dividing by zero gives an infinity, or no number at all. */
  datatype Double = Finite(x: real) | Infinite(negative: bool) | NotANumber

  function Divide(rnd: real -> real, total: int, perPage: nat): Double {
    var a, b := rnd(total as real), rnd(perPage as real);
    if b != 0.0 then Finite(rnd(a / b))
    else if a == 0.0 then NotANumber
    else Infinite(a < 0.0)
  }

  function Ceil(x: real): (n: int)
    ensures (n - 1) as real < x <= n as real
  {
    if x == x.Floor as real then x.Floor else x.Floor + 1
  }

  /** `as u32` saturates, and takes what is not a number to 0. */
  function CeilToU32(d: Double): (n: int)
    ensures 0 <= n < U32_LIMIT
  {
    match d
    case NotANumber => 0
    case Infinite(negative) => if negative then 0 else U32_LIMIT - 1
    case Finite(x) =>
      var c := Ceil(x);
      if c < 0 then 0 else if c >= U32_LIMIT then U32_LIMIT - 1 else c
  }

  function LastPage(rnd: real -> real, total: int, perPage: nat): int {
    var n := CeilToU32(Divide(rnd, total, perPage));
    if n < 1 then 1 else n
  }

  /** The exact quotient, rounded up. */
  function CeilDiv(total: nat, perPage: nat): nat
    requires perPage >= 1
  {
    (total + perPage - 1) / perPage
  }

  lemma {:induction false} CeilDivBounds(t: nat, p: nat)
    requires p >= 1
    ensures var c := CeilDiv(t, p); c * p >= t && (c >= 1 ==> (c - 1) * p + 1 <= t)
  {
    var c := CeilDiv(t, p);
    assert c * p + (t + p - 1) % p == t + p - 1;
    assert (c - 1) * p == c * p - p;
  }

  lemma {:induction false} Monotone(x: real, y: real, k: real)
    requires x <= y && k >= 0.0
    ensures x * k <= y * k
  {
  }

  lemma {:induction false} Cancel(x: real, y: real, k: real)
    requires x * k < y * k && k > 0.0
    ensures x < y
  {
    if y <= x {
      Monotone(y, x, k);
    }
  }

  /** What is close to `q` lies above every `m` that is at least `1 / p` below `q`, when `q * p` is less than `big`. */
  lemma {:induction false} CloseIsAbove(r: real, q: real, p: real, big: real, m: real)
    requires p >= 1.0 && big > 0.0 && q * p < big && m * p + 1.0 <= q * p
    requires (q - r) * big <= q
    ensures r > m
  {
    var x := (q - r) * p;
    assert x == q * p - r * p;
    Monotone((q - r) * big, q, p);
    assert x * big == (q - r) * big * p;
    assert 1.0 * big == big;
    Cancel(x, 1.0, big);
    Cancel(m, r, p);
  }

  /** A rounded quotient lies strictly above the integer below the exact one. */
  lemma {:induction false} StaysAbove(r: real, q: real, t: nat, p: nat, c: nat)
    requires p >= 1 && q * p as real == t as real && t < TWO_53 && c >= 1 && (c - 1) * p + 1 <= t
    requires Close(r, q)
    ensures r > (c - 1) as real
  {
    assert (c - 1) as real * p as real == ((c - 1) * p) as real;
    CloseIsAbove(r, q, p as real, TWO_53 as real, (c - 1) as real);
  }

  lemma {:induction false} StrictlyMonotone(x: real, y: real, k: real)
    requires k > 0.0
    ensures x < y ==> x * k < y * k
  {
  }

  /** The rounded quotient of `t` and `p` lies above the integer below the exact quotient, and not above the one above. */
  lemma {:induction false} RoundedQuotient(rnd: real -> real, t: nat, p: nat, q: real)
    requires Rounds(rnd) && t < TWO_53 && 1 <= p < U32_LIMIT && q * p as real == t as real
    ensures var c := CeilDiv(t, p); (c - 1) as real < rnd(q) <= c as real
  {
    hide CeilDiv, Rounds, Close;
    var c := CeilDiv(t, p);
    CeilDivBounds(t, p);
    SmallQuotient(t, p);
    QuotientBelow(q, t, p, c);
    QuotientAbove(q, t, p);
    RoundedBetween(rnd, q, c);
    if c >= 1 {
      NotTooSmall(q, p, t);
      RoundedClose(rnd, q, c);
      StaysAbove(rnd(q), q, t, p, c);
    }
  }

  lemma {:induction false} RoundedBetween(rnd: real -> real, q: real, c: nat)
    requires Rounds(rnd) && c <= TWO_53 && 0.0 <= q <= c as real
    ensures 0.0 <= rnd(q) <= c as real
  {
    hide Close;
    assert ExactAt(rnd, c) && ExactAt(rnd, 0);
    assert rnd(0 as real) <= rnd(q) <= rnd(c as real);
  }

  lemma {:induction false} RoundedClose(rnd: real -> real, q: real, c: nat)
    requires Rounds(rnd) && c <= TWO_53 && q <= c as real && 1.0 <= q * U32_LIMIT as real
    ensures Close(rnd(q), q)
  {
  }

  /** For any such rounding, the ceiling of the rounded quotient is the ceiling of the exact one. */
  lemma {:induction false} CeilExact(rnd: real -> real, t: nat, p: nat)
    requires Rounds(rnd) && t < TWO_53 && 1 <= p < U32_LIMIT
    ensures Divide(rnd, t, p).Finite? && Ceil(Divide(rnd, t, p).x) == CeilDiv(t, p)
  {
    hide CeilDiv, Close;
    var q := t as real / p as real;
    assert ExactAt(rnd, t) && ExactAt(rnd, p);
    assert q * p as real == t as real;
    RoundedQuotient(rnd, t, p, q);
  }

  lemma {:induction false} SmallQuotient(t: nat, p: nat)
    requires t < TWO_53 && p >= 1
    ensures CeilDiv(t, p) <= TWO_53
  {
    CeilDivBounds(t, p);
    hide CeilDiv;
    var c := CeilDiv(t, p);
    if c >= 1 {
      AtLeast(c - 1, p);
    }
  }

  lemma {:induction false} NotTooSmall(q: real, p: nat, t: nat)
    requires 1 <= p < U32_LIMIT && t >= 1 && q * p as real == t as real && q >= 0.0
    ensures 1.0 <= q * U32_LIMIT as real
  {
    var x, big := p as real, U32_LIMIT as real;
    assert 1.0 <= q * x;
    Monotone(x, big, q);
    assert 1.0 <= x * q <= big * q;
    assert 1.0 <= q * big;
  }

  lemma {:induction false} AtLeast(a: nat, p: nat)
    requires p >= 1
    ensures a * p >= a
  {
  }

  lemma {:induction false} QuotientBelow(q: real, t: nat, p: nat, c: nat)
    requires p >= 1 && q * p as real == t as real && c * p >= t
    ensures q <= c as real
  {
    StrictlyMonotone(c as real, q, p as real);
    assert c as real * p as real == (c * p) as real;
  }

  lemma {:induction false} QuotientAbove(q: real, t: nat, p: nat)
    requires p >= 1 && q * p as real == t as real
    ensures 0.0 <= q
  {
    StrictlyMonotone(q, 0.0, p as real);
  }

  /** The last page computed in floating point is exactly max(1, ceil(total / per_page)), cut off at the largest u32. */
  lemma {:induction false} LastPageExact(rnd: real -> real, t: nat, p: nat)
    requires Rounds(rnd) && t < TWO_53 && 1 <= p < U32_LIMIT
    ensures var c := CeilDiv(t, p);
            LastPage(rnd, t, p) == if c < 1 then 1 else if c >= U32_LIMIT then U32_LIMIT - 1 else c
  {
    CeilExact(rnd, t, p);
  }

  /** With a page size of zero there is one page of nothing, or as many pages as the type allows. */
  lemma {:induction false} LastPageOfZero(rnd: real -> real, t: int)
    requires Rounds(rnd) && -TWO_53 <= t <= TWO_53
    ensures LastPage(rnd, t, 0) == if t <= 0 then 1 else U32_LIMIT - 1
  {
    assert ExactAt(rnd, t) && ExactAt(rnd, 0);
  }
}
