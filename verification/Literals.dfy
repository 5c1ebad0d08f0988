/** Turning a parameterised rendering back into literal SQL by replacing `$N` from the highest number down. */
module Literals {
  import opened Text
  import opened Values
  import opened Tokens
  import opened Leaves
  import opened Exprs

  function Mark(k: nat): (s: string)
    ensures s != "" && s[0] == '$'
  {
    "$" + Decimal(k)
  }

  /** The text after the highest-numbered mark has been replaced, then the next, down to `$1`. */
  function InlineDown(s: string, ps: seq<SqlValue>): string
    decreases ps
  {
    if ps == [] then s
    else InlineDown(ReplaceAll(s, Mark(|ps|), ToSqlLiteral(ps[|ps| - 1])), ps[..|ps| - 1])
  }

  function ExprLiteral(e: Expr): string {
    InlineDown(Flatten(ExprToks(Postgres, e, 1)), ExprParams(e))
  }

  lemma {:induction false} NextDown(s: string, ps: seq<SqlValue>, i: nat)
    requires i < |ps|
    ensures InlineDown(s, ps[..i + 1]) == InlineDown(ReplaceAll(s, Mark(i + 1), ToSqlLiteral(ps[i])), ps[..i])
  {
    assert ps[..i + 1][..i] == ps[..i];
  }

  method ExprToLiteral(e: Expr) returns (result: string)
    ensures result == ExprLiteral(e)
  {
    var params := ExprParams(e);
    result := Flatten(ExprToks(Postgres, e, 1));
    var i := |params|;
    assert params[..i] == params;
    while i > 0
      invariant 0 <= i <= |params|
      invariant InlineDown(result, params[..i]) == ExprLiteral(e)
    {
      i := i - 1;
      NextDown(result, params, i);
      result := ReplaceAll(result, Mark(i + 1), ToSqlLiteral(params[i]));
    }
  }

  // ----- What is taken for a placeholder -----

  function DigitValue(c: char): nat
    requires IsDigit(c)
  {
    c as int - '0' as int
  }

  /** Before this text, a `$` is taken for the start of a number from 1 to `k`. */
  predicate Captured(t: string, k: nat) {
    t != "" && IsDigit(t[0]) && 1 <= DigitValue(t[0]) <= k
  }

  /** No `$` of `s` is taken for a number from 1 to `k` when `rest` follows. */
  predicate Passes(s: string, rest: string, k: nat) {
    s == "" || (!(s[0] == '$' && Captured(s[1..] + rest, k)) && Passes(s[1..], rest, k))
  }

  /** None of the `$` outside the placeholders is taken for a number from 1 to `k` when `z` follows. */
  predicate Harmless(ts: seq<Tok>, z: string, k: nat) {
    ts == [] || ((ts[0].Ph? || Passes(Spell(ts[0]), Flatten(ts[1..]) + z, k)) && Harmless(ts[1..], z, k))
  }

  /** The sequence with every placeholder numbered above `k` replaced by its literal. */
  function Replaced(ts: seq<Tok>, k: nat): seq<Tok> {
    seq(|ts|, i requires 0 <= i < |ts| =>
      if ts[i].Ph? && ts[i].n > k then Frag(ToSqlLiteral(ts[i].v)) else ts[i])
  }

  /** Placeholders are numbered from 1 to `k`, and stand for the parameters. */
  ghost predicate SlotsTo(ts: seq<Tok>, ps: seq<SqlValue>, k: nat) {
    forall i :: 0 <= i < |ts| && ts[i].Ph? ==> 1 <= ts[i].n <= k <= |ps| && ts[i].v == ps[ts[i].n - 1]
  }

  /** What may stand behind a placeholder. */
  predicate Breaks(t: string) {
    t == "" || (!IsDigit(t[0]) && t[0] != '$')
  }

  predicate Guarded(ts: seq<Tok>, z: string) {
    ts == [] || ((ts[0].Ph? ==> Breaks(Flatten(ts[1..]) + z)) && Guarded(ts[1..], z))
  }

  /** A float displays as something, and not with a `$` in front. */
  predicate Shown(v: SqlValue) {
    v.Float? ==> v.repr != "" && v.repr[0] != '$'
  }

  predicate AllShown(ps: seq<SqlValue>) {
    forall i :: 0 <= i < |ps| ==> Shown(ps[i])
  }

  lemma {:induction false} ShownStarts(v: SqlValue)
    requires Shown(v)
    ensures ToSqlLiteral(v) != "" && ToSqlLiteral(v)[0] != '$'
  {
    hide Doubled;
    if v.Integer? {
      assert v.n >= 0 ==> IsDigit(Decimal(v.n)[0]);
    }
  }

  lemma {:induction false} SpacedGuarded(ts: seq<Tok>)
    requires Spaced(ts)
    ensures Guarded(ts, "")
  {
    if ts != [] {
      SpacedGuarded(ts[1..]);
      assert Flatten(ts[1..]) + "" == Flatten(ts[1..]);
      if ts[0].Ph? && |ts| > 1 {
        assert Apart(ts[1]) && ts[1..][0] == ts[1];
      }
    }
  }

  // ----- Unfolding -----

  lemma {:induction false} FlatThen(ts: seq<Tok>, z: string)
    requires ts != []
    ensures Flatten(ts) + z == Spell(ts[0]) + (Flatten(ts[1..]) + z)
  {
  }

  lemma {:induction false} ReplacedTail(ts: seq<Tok>, k: nat)
    requires ts != []
    ensures Replaced(ts, k) != [] && Replaced(ts, k)[1..] == Replaced(ts[1..], k)
    ensures Replaced(ts, k)[0] == if ts[0].Ph? && ts[0].n > k then Frag(ToSqlLiteral(ts[0].v)) else ts[0]
  {
  }

  lemma {:induction false} NothingReplaced(k: nat)
    ensures Replaced([], k) == [] && Flatten([]) == "" && Inline([]) == ""
  {
  }

  lemma {:induction false} SpellMark(t: Tok)
    requires t.Ph? && t.n > 0
    ensures Spell(t) == Mark(t.n)
  {
  }

  lemma {:induction false} SpellFrag(s: string)
    ensures Spell(Frag(s)) == s
  {
  }

  lemma {:induction false} SlotsTail(ts: seq<Tok>, ps: seq<SqlValue>, k: nat)
    requires SlotsTo(ts, ps, k) && ts != []
    ensures SlotsTo(ts[1..], ps, k)
    ensures ts[0].Ph? ==> 1 <= ts[0].n <= k <= |ps| && ts[0].v == ps[ts[0].n - 1]
  {
  }

  // ----- One replacement -----

  lemma {:induction false} ReplaceMark(k: nat, rest: string, rep: string)
    ensures ReplaceAll(Mark(k) + rest, Mark(k), rep) == rep + ReplaceAll(rest, Mark(k), rep)
  {
    assert (Mark(k) + rest)[|Mark(k)|..] == rest;
  }

  lemma {:induction false} NotMarked(n: nat, k: nat, rest: string)
    requires n < k && !StartsWithDigit(rest)
    ensures !(Mark(k) <= Mark(n) + rest)
  {
    hide Decimal;
    var s := Mark(n) + rest;
    assert s[1..] == Decimal(n) + rest && Mark(k)[1..] == Decimal(k);
    DecimalPrefix(k, n, rest);
    assert |s| >= |Mark(k)| ==> s[1..][..|Decimal(k)|] == s[..|Mark(k)|][1..];
  }

  lemma {:induction false} ReplaceStep(s: string, k: nat, rep: string)
    requires s != "" && !(Mark(k) <= s)
    ensures ReplaceAll(s, Mark(k), rep) == [s[0]] + ReplaceAll(s[1..], Mark(k), rep)
  {
    hide Decimal;
    assert [s[0]] + s[1..] == s;
    if |s| < |Mark(k)| {
      assert ReplaceAll(s[1..], Mark(k), rep) == s[1..];
    }
  }

  /** A smaller number is not mistaken for a larger one. */
  lemma {:induction false} PassMark(n: nat, k: nat, rest: string, rep: string)
    requires n < k && !StartsWithDigit(rest)
    ensures ReplaceAll(Mark(n) + rest, Mark(k), rep) == Mark(n) + ReplaceAll(rest, Mark(k), rep)
  {
    hide ReplaceAll, Decimal;
    var s := Mark(n) + rest;
    assert s[1..] == Decimal(n) + rest;
    NotMarked(n, k, rest);
    ReplaceStep(s, k, rep);
    ReplaceSkips(Decimal(n), rest, Mark(k), rep);
    assert ['$'] + (Decimal(n) + ReplaceAll(rest, Mark(k), rep)) == Mark(n) + ReplaceAll(rest, Mark(k), rep);
  }

  lemma {:induction false} FirstDigit(k: nat)
    requires k >= 1
    ensures IsDigit(Decimal(k)[0]) && 1 <= DigitValue(Decimal(k)[0]) <= k
  {
    if k >= 10 {
      FirstDigit(k / 10);
    }
  }

  /** A mark is found only where a `$` is taken for the start of a number. */
  lemma {:induction false} MarkCaptures(k: nat, t: string)
    requires k >= 1 && Mark(k) <= "$" + t
    ensures Captured(t, k)
  {
    FirstDigit(k);
    assert Mark(k)[1] == Decimal(k)[0] == ("$" + t)[1] == t[0];
  }

  lemma {:induction false} PassText(s: string, rest: string, k: nat, rep: string)
    requires k >= 1 && Passes(s, rest, k)
    ensures ReplaceAll(s + rest, Mark(k), rep) == s + ReplaceAll(rest, Mark(k), rep)
  {
    hide ReplaceAll, Captured, Decimal;
    if s == "" {
      assert s + rest == rest;
    } else {
      var t := s + rest;
      assert t[0] == s[0] && t[1..] == s[1..] + rest;
      if Mark(k) <= t {
        assert t == "$" + t[1..];
        MarkCaptures(k, t[1..]);
      }
      ReplaceStep(t, k, rep);
      PassText(s[1..], rest, k, rep);
      assert s + ReplaceAll(rest, Mark(k), rep) == [s[0]] + (s[1..] + ReplaceAll(rest, Mark(k), rep));
    }
  }

  /** Without such a `$`, replacing a number replaces its placeholders and nothing else. */
  lemma {:induction false} ReplaceOne(ts: seq<Tok>, z: string, ps: seq<SqlValue>, k: nat)
    requires 1 <= k <= |ps| && Guarded(ts, z) && Harmless(ts, z, k) && SlotsTo(ts, ps, k)
    ensures ReplaceAll(Flatten(ts) + z, Mark(k), ToSqlLiteral(ps[k - 1]))
         == Flatten(Replaced(ts, k - 1)) + ReplaceAll(z, Mark(k), ToSqlLiteral(ps[k - 1]))
  {
    hide ReplaceAll, ToSqlLiteral, Mark, Replaced, Flatten, Spell, Passes, SlotsTo, Breaks;
    var lit := ToSqlLiteral(ps[k - 1]);
    NothingReplaced(k - 1);
    if ts == [] {
      assert "" + z == z;
      assert "" + ReplaceAll(z, Mark(k), lit) == ReplaceAll(z, Mark(k), lit);
    } else {
      var rest := Flatten(ts[1..]) + z;
      FlatThen(ts, z);
      SlotsTail(ts, ps, k);
      ReplaceOne(ts[1..], z, ps, k);
      ReplacedTail(ts, k - 1);
      FlatThen(Replaced(ts, k - 1), ReplaceAll(z, Mark(k), lit));
      SpellFrag(lit);
      if !ts[0].Ph? {
        PassText(Spell(ts[0]), rest, k, lit);
      } else {
        SpellMark(ts[0]);
        if ts[0].n == k {
          ReplaceMark(k, rest, lit);
        } else {
          BreaksDigits(rest);
          PassMark(ts[0].n, k, rest, lit);
        }
      }
    }
  }

  lemma {:induction false} BreaksDigits(t: string)
    requires Breaks(t)
    ensures !StartsWithDigit(t)
  {
  }

  // ----- What a replacement leaves as it was -----

  lemma {:induction false} InlineReplaced(ts: seq<Tok>, k: nat)
    ensures Inline(Replaced(ts, k)) == Inline(ts)
  {
    hide ToSqlLiteral;
    if ts != [] {
      InlineReplaced(ts[1..], k);
      ReplacedTail(ts, k);
    }
  }

  lemma {:induction false} BreaksKept(ts: seq<Tok>, z: string, z': string, ps: seq<SqlValue>, k: nat, j: nat)
    requires SlotsTo(ts, ps, k) && (Breaks(z) ==> Breaks(z')) && Breaks(Flatten(ts) + z)
    ensures Breaks(Flatten(Replaced(ts, j)) + z')
  {
    hide ToSqlLiteral, Replaced, Decimal;
    NothingReplaced(j);
    if ts == [] {
      assert "" + z == z && "" + z' == z';
    } else {
      FlatThen(ts, z);
      SlotsTail(ts, ps, k);
      ReplacedTail(ts, j);
      FlatThen(Replaced(ts, j), z');
      if Spell(ts[0]) == "" {
        assert "" + (Flatten(ts[1..]) + z) == Flatten(ts[1..]) + z;
        BreaksKept(ts[1..], z, z', ps, k, j);
        assert "" + (Flatten(Replaced(ts[1..], j)) + z') == Flatten(Replaced(ts[1..], j)) + z';
      }
    }
  }

  lemma {:induction false} GuardedReplaced(ts: seq<Tok>, z: string, z': string, ps: seq<SqlValue>, k: nat, j: nat)
    requires SlotsTo(ts, ps, k) && (Breaks(z) ==> Breaks(z')) && Guarded(ts, z)
    ensures Guarded(Replaced(ts, j), z')
  {
    hide ToSqlLiteral, Replaced, Breaks, Flatten;
    NothingReplaced(j);
    if ts != [] {
      SlotsTail(ts, ps, k);
      ReplacedTail(ts, j);
      GuardedReplaced(ts[1..], z, z', ps, k, j);
      if ts[0].Ph? {
        BreaksKept(ts[1..], z, z', ps, k, j);
      }
    }
  }

  lemma {:induction false} SlotsReplaced(ts: seq<Tok>, ps: seq<SqlValue>, k: nat, j: nat)
    requires SlotsTo(ts, ps, k) && j <= |ps|
    ensures SlotsTo(Replaced(ts, j), ps, j)
    ensures j <= k ==> forall i :: 0 <= i <= j ==> Replaced(Replaced(ts, j), i) == Replaced(ts, i)
  {
    hide ToSqlLiteral;
  }

  // ----- A `$` that is taken for a number shows in the end -----

  lemma {:induction false} StrayIn(s: string, rest: string, k: nat) returns (a: string, b: string)
    requires !Passes(s, rest, k)
    ensures s == a + "$" + b && Captured(b + rest, k)
  {
    hide Captured;
    if s[0] == '$' && Captured(s[1..] + rest, k) {
      a, b := "", s[1..];
    } else {
      a, b := StrayIn(s[1..], rest, k);
      a := [s[0]] + a;
    }
  }

  /** The sequence up to such a `$`, and the text behind it. */
  lemma {:induction false} Stray(ts: seq<Tok>, z: string, ps: seq<SqlValue>, k: nat) returns (v: seq<Tok>, rest: string)
    requires !Harmless(ts, z, k) && Guarded(ts, z) && SlotsTo(ts, ps, k)
    ensures Flatten(ts) + z == Flatten(v) + ("$" + rest) && Captured(rest, k)
    ensures Inline(v) + "$" <= Inline(ts) && |Flatten(v)| < |Flatten(ts)|
    ensures Guarded(v, "$" + rest) && SlotsTo(v, ps, k)
  {
    hide ToSqlLiteral, Passes, Captured, Breaks, SlotsTo, Spell, Flatten, Inline;
    var after := Flatten(ts[1..]) + z;
    FlatThen(ts, z);
    FlatThen(ts, "");
    InlineIs(ts);
    SlotsTail(ts, ps, k);
    if !ts[0].Ph? && !Passes(Spell(ts[0]), after, k) {
      var a, b := StrayIn(Spell(ts[0]), after, k);
      v, rest := [Frag(a)], b + after;
      OneFrag(a, "$" + rest, ps, k);
      assert InlineTok(ts[0]) == Spell(ts[0]);
      CutAt(a, b, after, Inline(ts[1..]));
    } else {
      var w;
      w, rest := Stray(ts[1..], z, ps, k);
      v := [ts[0]] + w;
      assert v[1..] == w;
      FlatThen(v, "$" + rest);
      FlatThen(v, "");
      InlineIs(v);
      SlotsCons(ts[0], w, ps, k);
      PrefixAfter(InlineTok(ts[0]), Inline(w), Inline(ts[1..]));
    }
  }

  lemma {:induction false} CutAt(a: string, b: string, after: string, more: string)
    ensures a + "$" + b + after == a + ("$" + (b + after)) && a + "$" <= a + "$" + b + more
  {
  }

  lemma {:induction false} PrefixAfter(head: string, part: string, whole: string)
    requires part + "$" <= whole
    ensures head + part + "$" <= head + whole
  {
  }

  lemma {:induction false} OneFrag(a: string, z: string, ps: seq<SqlValue>, k: nat)
    ensures Flatten([Frag(a)]) == a == Inline([Frag(a)]) && Guarded([Frag(a)], z) && SlotsTo([Frag(a)], ps, k)
  {
    assert [Frag(a)][1..] == [] && a + "" == a;
  }

  lemma {:induction false} SlotsCons(t: Tok, w: seq<Tok>, ps: seq<SqlValue>, k: nat)
    requires SlotsTo(w, ps, k) && (t.Ph? ==> 1 <= t.n <= k <= |ps| && t.v == ps[t.n - 1])
    ensures SlotsTo([t] + w, ps, k)
  {
  }

  /** Text that does not begin with a `$`, or with one that some later replacement takes for a number. */
  predicate Doomed(z: string, k: nat) {
    z == "" || z[0] != '$' || Captured(z[1..], k)
  }

  /** A replacement leaves such text such, for the replacements to come. */
  lemma {:induction false} DoomedStays(z: string, k: nat, rep: string)
    requires k >= 1 && Doomed(z, k) && rep != "" && rep[0] != '$'
    ensures Doomed(ReplaceAll(z, Mark(k), rep), k - 1) && (z != "" ==> ReplaceAll(z, Mark(k), rep) != "")
    ensures Breaks(z) ==> Breaks(ReplaceAll(z, Mark(k), rep))
  {
    if z != "" && z[0] == '$' {
      DollarStays(z, k, rep);
    } else if z != "" {
      ReplaceStep(z, k, rep);
    }
  }

  lemma {:induction false} DollarStays(z: string, k: nat, rep: string)
    requires k >= 1 && z != "" && z[0] == '$' && Captured(z[1..], k) && rep != "" && rep[0] != '$'
    ensures Doomed(ReplaceAll(z, Mark(k), rep), k - 1) && ReplaceAll(z, Mark(k), rep) != ""
  {
    hide ReplaceAll, Decimal;
    if Mark(k) <= z {
      var rest := z[|Mark(k)|..];
      assert z == Mark(k) + rest;
      ReplaceMark(k, rest, rep);
    } else {
      OneDigit(k, z);
      ReplaceStep(z, k, rep);
      assert !(Mark(k) <= z[1..]);
      ReplaceStep(z[1..], k, rep);
      var t := ReplaceAll(z, Mark(k), rep);
      assert t[0] == '$' && t[1] == z[1];
    }
  }

  lemma {:induction false} OneDigit(k: nat, z: string)
    requires |z| > 1 && z[0] == '$' && IsDigit(z[1])
    ensures DigitValue(z[1]) == k ==> Mark(k) <= z
  {
    if DigitValue(z[1]) == k {
      assert Decimal(k) == [z[1]];
      assert z[..2] == ['$', z[1]] == Mark(k);
    }
  }

  /** The texts differ at a place that both have. */
  ghost predicate Clash(a: string, b: string) {
    exists i :: 0 <= i < |a| && i < |b| && a[i] != b[i]
  }

  lemma {:induction false} ClashLonger(a: string, a': string, b: string)
    requires Clash(a, b) && a <= a'
    ensures Clash(a', b)
  {
    var i :| 0 <= i < |a| && i < |b| && a[i] != b[i];
    assert a'[i] == a[i];
  }

  lemma {:induction false} ClashInside(head: string, a: string, b: string, x: string, y: string)
    requires Clash(a, b)
    ensures Clash(head + a + x, head + b + y)
  {
    var i :| 0 <= i < |a| && i < |b| && a[i] != b[i];
    assert (head + a + x)[|head| + i] == a[i] && (head + b + y)[|head| + i] == b[i];
  }

  /** Text in front of a `$` that is lost comes out followed by something else, or has changed itself. */
  lemma {:induction false} DollarLost(ts: seq<Tok>, z: string, ps: seq<SqlValue>, k: nat)
    requires k <= |ps| && AllShown(ps) && Guarded(ts, z) && SlotsTo(ts, ps, k) && Doomed(z, k) && z != ""
    ensures Clash(Inline(ts) + "$", InlineDown(Flatten(ts) + z, ps[..k]))
    decreases k, |Flatten(ts)|
  {
    hide ToSqlLiteral, Replaced, Flatten, Inline, ReplaceAll, Harmless, Guarded, SlotsTo, Doomed, Shown, Mark, Breaks, Clash;
    if !Harmless(ts, z, k) {
      var v, rest := Stray(ts, z, ps, k);
      DollarDoomed(rest, k);
      DollarLost(v, "$" + rest, ps, k);
      ClashLonger(Inline(v) + "$", Inline(ts) + "$", InlineDown(Flatten(ts) + z, ps[..k]));
    } else if k == 0 {
      NoSlotsLeft(ts, ps);
      NotDoomed(Inline(ts), z);
      assert ps[..0] == [];
    } else {
      var lit := ToSqlLiteral(ps[k - 1]);
      ShownStarts(ps[k - 1]);
      ReplaceOne(ts, z, ps, k);
      NextDown(Flatten(ts) + z, ps, k - 1);
      DoomedStays(z, k, lit);
      var z' := ReplaceAll(z, Mark(k), lit);
      GuardedReplaced(ts, z, z', ps, k, k - 1);
      SlotsReplaced(ts, ps, k, k - 1);
      InlineReplaced(ts, k - 1);
      DollarLost(Replaced(ts, k - 1), z', ps, k - 1);
    }
  }

  lemma {:induction false} DollarDoomed(rest: string, k: nat)
    requires Captured(rest, k)
    ensures Doomed("$" + rest, k)
  {
    assert ("$" + rest)[1..] == rest;
  }

  lemma {:induction false} NotDoomed(s: string, z: string)
    requires Doomed(z, 0) && z != ""
    ensures Clash(s + "$", s + z)
  {
    assert (s + "$")[|s|] == '$' && (s + z)[|s|] == z[0];
  }

  lemma {:induction false} NoSlotsLeft(ts: seq<Tok>, ps: seq<SqlValue>)
    requires SlotsTo(ts, ps, 0)
    ensures Flatten(ts) == Inline(ts)
  {
    hide ToSqlLiteral;
    if ts != [] {
      SlotsTail(ts, ps, 0);
      NoSlotsLeft(ts[1..], ps);
    }
  }

  // ----- Repeated replacement is simultaneous substitution -----

  lemma {:induction false} DownIff(ts: seq<Tok>, ps: seq<SqlValue>, k: nat)
    requires Guarded(ts, "") && SlotsTo(ts, ps, |ps|) && AllShown(ps) && k <= |ps|
    ensures InlineDown(Flatten(Replaced(ts, k)), ps[..k]) == Inline(ts)
       <==> forall j :: 1 <= j <= k ==> Harmless(Replaced(ts, j), "", j)
    ensures (forall j :: 1 <= j <= k ==> Harmless(Replaced(ts, j), "", j))
            || Clash(Inline(ts), InlineDown(Flatten(Replaced(ts, k)), ps[..k]))
  {
    hide ToSqlLiteral, Replaced, Flatten, Inline, ReplaceAll, Harmless, Guarded, SlotsTo, Shown, Mark, Captured, Clash;
    var now := Replaced(ts, k);
    GuardedReplaced(ts, "", "", ps, |ps|, k);
    SlotsReplaced(ts, ps, |ps|, k);
    InlineReplaced(ts, k);
    assert Flatten(now) + "" == Flatten(now);
    if k == 0 {
      NoSlotsLeft(now, ps);
      assert ps[..0] == [];
    } else if Harmless(now, "", k) {
      ReplaceOne(now, "", ps, k);
      ReplaceNothing(k, ToSqlLiteral(ps[k - 1]));
      NextDown(Flatten(now), ps, k - 1);
      DownIff(ts, ps, k - 1);
      assert Flatten(Replaced(ts, k - 1)) + "" == Flatten(Replaced(ts, k - 1));
    } else {
      var v, rest := Stray(now, "", ps, k);
      DollarDoomed(rest, k);
      DollarLost(v, "$" + rest, ps, k);
      ClashLonger(Inline(v) + "$", Inline(ts), InlineDown(Flatten(now), ps[..k]));
      ClashDiffers(Inline(ts), InlineDown(Flatten(now), ps[..k]));
    }
  }

  lemma {:induction false} ClashDiffers(a: string, b: string)
    requires Clash(a, b)
    ensures a != b
  {
  }

  lemma {:induction false} ReplaceNothing(k: nat, rep: string)
    ensures ReplaceAll("", Mark(k), rep) == ""
  {
  }

  lemma {:induction false} AllSlots(ts: seq<Tok>, ps: seq<SqlValue>)
    requires Slots(ts) == Numbered(Postgres, ps, 1)
    ensures SlotsTo(ts, ps, |ps|) && Replaced(ts, |ps|) == ts
  {
    hide Slots, Spell;
    forall i | 0 <= i < |ts| && ts[i].Ph?
      ensures 1 <= ts[i].n <= |ps| && ts[i].v == ps[ts[i].n - 1]
    {
      PlaceholdersAreSlots(ts, ts[i]);
      var j :| 0 <= j < |ps| && Numbered(Postgres, ps, 1)[j] == ts[i];
      assert ts[i] == Ph(Number(Postgres, 1 + j), ps[j]);
    }
  }

  /** When number `k` is the next to be replaced, no `$` outside the placeholders is taken for a number up to `k`. */
  predicate Inlinable(ts: seq<Tok>, n: nat) {
    forall k :: 1 <= k <= n ==> Harmless(Replaced(ts, k), "", k)
  }

  /**
   * Replacing `$N` one number at a time from the highest down equals substituting every placeholder at once, exactly
   * when at no point a `$` of a fragment, or of a literal put in before, is followed by a digit from 1 to the number
   * that is next.
   */
  lemma {:induction false} InlineDownIff(ts: seq<Tok>, ps: seq<SqlValue>)
    requires Spaced(ts) && Slots(ts) == Numbered(Postgres, ps, 1) && AllShown(ps)
    ensures InlineDown(Flatten(ts), ps) == Inline(ts) <==> Inlinable(ts, |ps|)
    ensures Inlinable(ts, |ps|) || Clash(Inline(ts), InlineDown(Flatten(ts), ps))
  {
    hide Slots, Numbered, Flatten, Inline, Spaced, InlineDown, Harmless, SlotsTo, Clash;
    SpacedGuarded(ts);
    AllSlots(ts, ps);
    DownIff(ts, ps, |ps|);
    assert ps[..|ps|] == ps;
  }

  // ----- When that is sure to hold -----

  lemma {:induction false} QuietPasses(s: string, rest: string, k: nat)
    requires Quiet(s) && (EndsWithDollar(s) ==> !StartsWithDigit(rest))
    ensures Passes(s, rest, k)
  {
    if s != "" {
      QuietPasses(s[1..], rest, k);
      if s[0] == '$' {
        if |s| > 1 {
          assert (s[1..] + rest)[0] == s[1];
        } else {
          assert s[1..] + rest == rest;
        }
      }
    }
  }

  lemma {:induction false} QuietParts(a: string, b: string)
    requires Quiet(a + b)
    ensures Quiet(a) && Quiet(b) && (EndsWithDollar(a) ==> !StartsWithDigit(b))
  {
    var t := a + b;
    assert forall i :: 0 <= i < |a| ==> t[i] == a[i];
    assert forall i :: 0 <= i < |b| ==> t[|a| + i] == b[i];
  }

  /** A text that begins with a digit does so because a fragment does. */
  lemma {:induction false} DigitFirst(ts: seq<Tok>)
    requires StartsWithDigit(Flatten(ts)) && forall i :: 0 <= i < |ts| && ts[i].Ph? ==> ts[i].n > 0
    ensures StartsWithDigit(Inline(ts))
  {
    hide ToSqlLiteral, Decimal;
    if Spell(ts[0]) == "" {
      assert "" + Flatten(ts[1..]) == Flatten(ts[1..]) && "" + Inline(ts[1..]) == Inline(ts[1..]);
      DigitFirst(ts[1..]);
    } else {
      assert Flatten(ts)[0] == Spell(ts[0])[0];
    }
  }

  lemma {:induction false} QuietHarmless(ts: seq<Tok>, k: nat)
    requires Quiet(Inline(ts)) && forall i :: 0 <= i < |ts| && ts[i].Ph? ==> ts[i].n > 0
    ensures Harmless(ts, "", k)
  {
    hide Passes, Quiet, Spell, Flatten, Inline, ToSqlLiteral;
    if ts != [] {
      InlineIs(ts);
      QuietParts(InlineTok(ts[0]), Inline(ts[1..]));
      QuietHarmless(ts[1..], k);
      assert Flatten(ts[1..]) + "" == Flatten(ts[1..]);
      if !ts[0].Ph? {
        if StartsWithDigit(Flatten(ts[1..])) {
          DigitFirst(ts[1..]);
        }
        QuietPasses(Spell(ts[0]), Flatten(ts[1..]), k);
      }
    }
  }

  /** It holds whenever the literal text itself has no `$` before a digit. */
  lemma {:induction false} QuietInlinable(ts: seq<Tok>, ps: seq<SqlValue>)
    requires Slots(ts) == Numbered(Postgres, ps, 1) && Quiet(Inline(ts))
    ensures Inlinable(ts, |ps|)
  {
    hide Slots, Numbered, Inline, Quiet, Harmless, Replaced;
    AllSlots(ts, ps);
    forall k | 1 <= k <= |ps|
      ensures Harmless(Replaced(ts, k), "", k)
    {
      InlineReplaced(ts, k);
      SlotsReplaced(ts, ps, |ps|, k);
      QuietHarmless(Replaced(ts, k), k);
    }
  }

  /** No fragment of the expression, and no literal of a value in it, makes a `$` look like a placeholder. */
  predicate InlinableExpr(e: Expr) {
    Inlinable(ExprToks(Postgres, e, 1), |ExprParams(e)|)
  }

  /** For every expression, with any number of parameters. */
  lemma {:induction false} ExprLiteralIff(e: Expr)
    requires AllShown(ExprParams(e))
    ensures ExprLiteral(e) == Inline(ExprToks(Postgres, e, 1)) <==> InlinableExpr(e)
    ensures InlinableExpr(e) || Clash(Inline(ExprToks(Postgres, e, 1)), ExprLiteral(e))
    ensures Quiet(Inline(ExprToks(Postgres, e, 1))) ==> InlinableExpr(e)
  {
    hide ExprToks, ExprParams, Inline, Flatten, Slots, InlineDown, Shown, Inlinable, Quiet, Clash;
    ExprSpaced(Postgres, e, 1);
    ExprNumbering(Postgres, e, 1);
    InlineDownIff(ExprToks(Postgres, e, 1), ExprParams(e));
    if Quiet(Inline(ExprToks(Postgres, e, 1))) {
      QuietInlinable(ExprToks(Postgres, e, 1), ExprParams(e));
    }
  }

  lemma {:induction false} SecondMark(rep: string)
    ensures ReplaceAll("a IN (" + (Mark(1) + (", " + (Mark(2) + ")"))), Mark(2), rep)
         == "a IN (" + (Mark(1) + (", " + (rep + ")")))
  {
    ReplaceSkips("a IN (", Mark(1) + (", " + (Mark(2) + ")")), Mark(2), rep);
    PassMark(1, 2, ", " + (Mark(2) + ")"), rep);
    ReplaceSkips(", ", Mark(2) + ")", Mark(2), rep);
    ReplaceMark(2, ")", rep);
    ReplaceSkips(")", "", Mark(2), rep);
    ReplaceNothing(2, rep);
    assert ")" + "" == ")";
  }

  lemma {:induction false} FirstMark(rep: string)
    ensures ReplaceAll("a IN (" + (Mark(1) + (", '" + (Mark(1) + "')"))), Mark(1), rep)
         == "a IN (" + (rep + (", '" + (rep + "')")))
  {
    ReplaceSkips("a IN (", Mark(1) + (", '" + (Mark(1) + "')")), Mark(1), rep);
    ReplaceMark(1, ", '" + (Mark(1) + "')"), rep);
    ReplaceSkips(", '", Mark(1) + "')", Mark(1), rep);
    ReplaceMark(1, "')", rep);
    ReplaceSkips("')", "", Mark(1), rep);
    ReplaceNothing(1, rep);
    assert "')" + "" == "')";
  }

  const SEVEN: SqlValue := Integer(7)
  const MARKED: SqlValue := Txt("$1")

  lemma {:induction false} MarkedToks()
    ensures var ts := ExprToks(Postgres, InList(false, "a", [SEVEN, MARKED]), 1);
            && Flatten(ts) == "a IN (" + (Mark(1) + (", " + (Mark(2) + ")")))
            && Inline(ts) == "a IN (" + (ToSqlLiteral(SEVEN) + (", " + (ToSqlLiteral(MARKED) + ")")))
  {
    hide Flatten, Inline, ToSqlLiteral, Decimal;
    InTwo();
    Six(Frag("a"), Frag(" IN ("), Ph(1, SEVEN), Frag(", "), Ph(2, MARKED), Frag(")"));
  }

  lemma {:induction false} InTwo()
    ensures ExprToks(Postgres, InList(false, "a", [SEVEN, MARKED]), 1)
         == [Frag("a"), Frag(" IN ("), Ph(1, SEVEN), Frag(", "), Ph(2, MARKED), Frag(")")]
  {
    assert [SEVEN, MARKED][1..] == [MARKED];
    assert ListToks(Postgres, [MARKED], 2) == [Ph(2, MARKED)];
    assert ListToks(Postgres, [SEVEN, MARKED], 1) == [Ph(1, SEVEN)] + [Frag(", ")] + [Ph(2, MARKED)];
  }

  lemma {:induction false} Six(a: Tok, b: Tok, c: Tok, d: Tok, e: Tok, f: Tok)
    ensures Flatten([a, b, c, d, e, f]) == Spell(a) + Spell(b) + (Spell(c) + (Spell(d) + (Spell(e) + Spell(f))))
    ensures Inline([a, b, c, d, e, f])
         == InlineTok(a) + InlineTok(b) + (InlineTok(c) + (InlineTok(d) + (InlineTok(e) + InlineTok(f))))
  {
    hide *;
    Three(d, e, f);
    Then(c, [d, e, f]);
    Then(b, [c] + [d, e, f]);
    Then(a, [b] + ([c] + [d, e, f]));
    assert [a, b, c, d, e, f] == [a] + ([b] + ([c] + [d, e, f]));
  }

  lemma {:induction false} Three(d: Tok, e: Tok, f: Tok)
    ensures Flatten([d, e, f]) == Spell(d) + (Spell(e) + Spell(f))
    ensures Inline([d, e, f]) == InlineTok(d) + (InlineTok(e) + InlineTok(f))
  {
    hide *;
    Two(e, f);
    Then(d, [e, f]);
    assert [d] + [e, f] == [d, e, f];
  }

  lemma {:induction false} Two(e: Tok, f: Tok)
    ensures Flatten([e, f]) == Spell(e) + Spell(f) && Inline([e, f]) == InlineTok(e) + InlineTok(f)
  {
    Then(f, []);
    Then(e, [f]);
    assert [f] + [] == [f] && [e] + [f] == [e, f];
    assert Spell(f) + "" == Spell(f) && InlineTok(f) + "" == InlineTok(f);
  }

  lemma {:induction false} Then(t: Tok, ts: seq<Tok>)
    ensures Flatten([t] + ts) == Spell(t) + Flatten(ts) && Inline([t] + ts) == InlineTok(t) + Inline(ts)
  {
    assert ([t] + ts)[1..] == ts;
  }

  lemma {:induction false} DownTwice(s: string, x: SqlValue, y: SqlValue)
    ensures InlineDown(s, [x, y])
         == ReplaceAll(ReplaceAll(s, Mark(2), ToSqlLiteral(y)), Mark(1), ToSqlLiteral(x))
  {
    hide ReplaceAll, ToSqlLiteral;
    assert [x, y][..1] == [x] && [x][..0] == [];
    var t := ReplaceAll(s, Mark(2), ToSqlLiteral(y));
    assert InlineDown(s, [x, y]) == InlineDown(t, [x]);
    assert InlineDown(t, [x]) == InlineDown(ReplaceAll(t, Mark(1), ToSqlLiteral(x)), []);
  }

  /** A `$` in a literal breaks it: the text of one value is taken for the placeholder of another. */
  lemma {:induction false} DollarBreaks()
    ensures var e := InList(false, "a", [SEVEN, MARKED]);
            && Inline(ExprToks(Postgres, e, 1)) == "a IN (7, '$1')"
            && ExprLiteral(e) == "a IN (7, '7')"
  {
    hide ReplaceAll, Flatten, Inline, ExprToks, InlineDown, ToSqlLiteral;
    MarkedToks();
    MarkedLiteral();
    SecondMark("'$1'");
    FirstMark("7");
    DownTwice("a IN (" + (Mark(1) + (", " + (Mark(2) + ")"))), SEVEN, MARKED);
    assert Mark(1) + (", " + ("'$1'" + ")")) == Mark(1) + (", '" + (Mark(1) + "')"));
  }

  lemma {:induction false} MarkedLiteral()
    ensures ToSqlLiteral(MARKED) == "'$1'" && ToSqlLiteral(SEVEN) == "7" && Mark(1) == "$1"
  {
    assert "$1"[1..] == "1" && "1"[1..] == "";
    assert Doubled("$1", '\'') == "$1";
  }
}
