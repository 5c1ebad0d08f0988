/** Rendered SQL as a sequence of tokens, and the text it spells. */
module Tokens {
  import opened Text
  import opened Values

  datatype Dialect = Postgres | Qmark

  /**
   * `Frag` is verbatim text. `Ph(n, v)` is the placeholder `$n` (or `?` when `n` is 0) written for the
   * value `v`; the value is not part of the spelling. The rest are the connectives of a predicate.
   */
  datatype Tok = Frag(s: string) | Ph(n: nat, v: SqlValue) | LP | RP | AND | OR | NOT

  function Spell(t: Tok): string {
    match t
    case Frag(s) => s
    case Ph(n, _) => if n == 0 then "?" else "$" + Decimal(n)
    case LP => "("
    case RP => ")"
    case AND => " AND "
    case OR => " OR "
    case NOT => "NOT "
  }

  function Flatten(ts: seq<Tok>): string {
    if ts == [] then "" else Spell(ts[0]) + Flatten(ts[1..])
  }

  function InlineTok(t: Tok): string {
    if t.Ph? then ToSqlLiteral(t.v) else Spell(t)
  }

  /** The text with every placeholder replaced, all at once, by the literal of its value. */
  function Inline(ts: seq<Tok>): string {
    if ts == [] then "" else InlineTok(ts[0]) + Inline(ts[1..])
  }

  /** The placeholders in the order they are written. */
  function Slots(ts: seq<Tok>): seq<Tok> {
    if ts == [] then []
    else if ts[0].Ph? then [ts[0]] + Slots(ts[1..])
    else Slots(ts[1..])
  }

  function Number(d: Dialect, n: nat): nat {
    if d.Postgres? then n else 0
  }

  /** The placeholders a parameter list calls for when its first parameter has number `off`. */
  function Numbered(d: Dialect, ps: seq<SqlValue>, off: nat): seq<Tok> {
    seq(|ps|, i requires 0 <= i < |ps| => Ph(Number(d, off + i), ps[i]))
  }

  /** The token sequence with the numbers of its placeholders erased. */
  function Erase(ts: seq<Tok>): seq<Tok> {
    seq(|ts|, i requires 0 <= i < |ts| => if ts[i].Ph? then Ph(0, ts[i].v) else ts[i])
  }

  function ShiftTok(t: Tok, a: nat): Tok {
    if t.Ph? && t.n > 0 then Ph(t.n + a, t.v) else t
  }

  function Shift(ts: seq<Tok>, a: nat): seq<Tok> {
    seq(|ts|, i requires 0 <= i < |ts| => ShiftTok(ts[i], a))
  }

  // ----- Concatenation -----

  lemma {:induction false} FlattenIs(ts: seq<Tok>)
    ensures Flatten(ts) == if ts == [] then "" else Spell(ts[0]) + Flatten(ts[1..])
  {
  }

  lemma {:induction false} FlattenOne(t: Tok)
    ensures Flatten([t]) == Spell(t)
  {
    assert [t][1..] == [] && Spell(t) + "" == Spell(t);
  }

  lemma {:induction false} SpelledFrag(s: string)
    ensures Flatten([Frag(s)]) == s
  {
    FlattenOne(Frag(s));
  }

  lemma {:induction false} FlattenCat(a: seq<Tok>, b: seq<Tok>)
    ensures Flatten(a + b) == Flatten(a) + Flatten(b)
  {
    hide *;
    FlattenIs(a);
    FlattenIs(a + b);
    if a == [] {
      assert a + b == b;
    } else {
      FlattenCat(a[1..], b);
      assert (a + b)[1..] == a[1..] + b;
    }
  }

  lemma {:induction false} InlineIs(ts: seq<Tok>)
    ensures Inline(ts) == if ts == [] then "" else InlineTok(ts[0]) + Inline(ts[1..])
  {
  }

  lemma {:induction false} InlineCat(a: seq<Tok>, b: seq<Tok>)
    ensures Inline(a + b) == Inline(a) + Inline(b)
  {
    hide *;
    InlineIs(a);
    InlineIs(a + b);
    if a == [] {
      assert a + b == b;
    } else {
      InlineCat(a[1..], b);
      assert (a + b)[1..] == a[1..] + b;
    }
  }

  lemma {:induction false} InlineOne(s: string)
    ensures Inline([Frag(s)]) == s
  {
    assert [Frag(s)][1..] == [] && s + "" == s;
  }

  lemma {:induction false} SlotsCat(a: seq<Tok>, b: seq<Tok>)
    ensures Slots(a + b) == Slots(a) + Slots(b)
  {
    if a == [] {
      assert a + b == b;
    } else {
      SlotsCat(a[1..], b);
      assert (a + b)[1..] == a[1..] + b;
    }
  }

  lemma {:induction false} SlotsCats()
    ensures forall t: Tok {:trigger Slots([t])} :: Slots([t]) == if t.Ph? then [t] else []
    ensures forall a: seq<Tok>, b: seq<Tok> {:trigger Slots(a + b)} :: Slots(a + b) == Slots(a) + Slots(b)
  {
    forall a: seq<Tok>, b: seq<Tok> {
      SlotsCat(a, b);
    }
  }

  lemma {:induction false} SlotAlone(slot: Tok)
    requires slot.Ph?
    ensures Slots([slot]) == [slot]
  {
    assert [slot][1..] == [];
  }

  lemma {:induction false} NothingNumbered(d: Dialect, off: nat)
    ensures Slots([]) == Numbered(d, [], off) == []
  {
  }

  lemma {:induction false} NumberedCat(d: Dialect, p: seq<SqlValue>, q: seq<SqlValue>, off: nat)
    ensures Numbered(d, p + q, off) == Numbered(d, p, off) + Numbered(d, q, off + |p|)
  {
  }

  lemma {:induction false} SlotsShift(ts: seq<Tok>, a: nat)
    ensures Slots(Shift(ts, a)) == Shift(Slots(ts), a)
  {
    if ts != [] {
      SlotsShift(ts[1..], a);
      assert Shift(ts, a)[1..] == Shift(ts[1..], a);
    }
  }

  lemma {:induction false} PlaceholdersAreSlots(ts: seq<Tok>, t: Tok)
    requires t in ts && t.Ph?
    ensures t in Slots(ts)
  {
    if ts[0] != t {
      PlaceholdersAreSlots(ts[1..], t);
    }
  }

  // ----- renumber_params -----

  /** One more than the largest usize of a 64-bit target. */
  const USIZE_LIMIT: nat := 0x1_0000_0000_0000_0000

  function DigitRun(s: string): (n: nat)
    ensures n <= |s| && AllDigits(s[..n]) && !StartsWithDigit(s[n..])
  {
    if StartsWithDigit(s) then 1 + DigitRun(s[1..]) else 0
  }

  /** Digits that do not fit the machine word read as 0. */
  function ParseUsize(s: string): (n: nat)
    requires AllDigits(s)
    ensures n < USIZE_LIMIT
  {
    if ParseNat(s) < USIZE_LIMIT then ParseNat(s) else 0
  }

  predicate AtPlaceholder(s: string) {
    |s| > 1 && s[0] == '$' && IsDigit(s[1])
  }

  /** usize addition, which wraps in a release build. */
  function WrapAdd(k: nat, a: nat): (n: nat)
    ensures n < USIZE_LIMIT
  {
    (k + a) % USIZE_LIMIT
  }

  lemma {:induction false} WrapAddTwice(k: nat, a: nat, b: nat)
    ensures WrapAdd(WrapAdd(k, a), b) == WrapAdd(k, a + b)
  {
  }

  /** Every maximal `$digits` of the text with `a` added to its number. */
  function Bump(s: string, a: nat): string {
    if s == "" then ""
    else if AtPlaceholder(s) then
      var n := DigitRun(s[1..]);
      "$" + Decimal(WrapAdd(ParseUsize(s[1..][..n]), a)) + Bump(s[1..][n..], a)
    else [s[0]] + Bump(s[1..], a)
  }

  function Renumbered(s: string, a: nat): string {
    if a == 0 then s else Bump(s, a)
  }

  lemma {:induction false} DigitAt(s: string, end: nat)
    requires end <= |s|
    ensures DigitRun(s[end..]) == if end < |s| && IsDigit(s[end]) then 1 + DigitRun(s[end + 1..]) else 0
  {
    if end < |s| {
      assert s[end..][1..] == s[end + 1..];
    }
  }

  lemma {:induction false} BumpAt(s: string, a: nat)
    requires |s| > 1 && s[0] == '$' && IsDigit(s[1])
    ensures var n := DigitRun(s[1..]);
            Bump(s, a) == "$" + Decimal(WrapAdd(ParseUsize(s[1..][..n]), a)) + Bump(s[1..][n..], a)
  {
    hide Decimal, ParseUsize, WrapAdd, IsDigit;
  }

  lemma {:induction false} BumpStep(done: string, s: string, i: nat, end: nat, a: nat)
    requires i + 1 < end <= |s| && s[i] == '$' && IsDigit(s[i + 1]) && DigitRun(s[i + 1..]) == end - (i + 1)
    ensures AllDigits(s[i + 1..end])
    ensures done + "$" + Decimal(WrapAdd(ParseUsize(s[i + 1..end]), a)) + Bump(s[end..], a) == done + Bump(s[i..], a)
  {
    hide *;
    var rest := s[i..];
    var n := end - (i + 1);
    assert rest[1..] == s[i + 1..];
    assert rest[1..][..n] == s[i + 1..end] && rest[1..][n..] == s[end..];
    BumpAt(rest, a);
  }

  lemma {:induction false} BumpSkip(done: string, s: string, i: nat, a: nat)
    requires i < |s| && !(s[i] == '$' && i + 1 < |s| && IsDigit(s[i + 1]))
    ensures done + [s[i]] + Bump(s[i + 1..], a) == done + Bump(s[i..], a)
  {
    assert s[i..][1..] == s[i + 1..];
  }

  lemma {:induction false} RenumberedIs(s: string, a: nat)
    ensures Renumbered(s, a) == if a == 0 then s else Bump(s, a)
    ensures Bump("", a) == ""
  {
  }

  method RenumberParams(sql: string, offset: nat) returns (result: string)
    ensures result == Renumbered(sql, offset)
  {
    hide *;
    RenumberedIs(sql, offset);
    if offset == 0 {
      return sql;
    }
    result := "";
    var i := 0;
    assert sql[0..] == sql;
    while i < |sql|
      invariant 0 <= i <= |sql|
      invariant result + Bump(sql[i..], offset) == Bump(sql, offset)
    {
      if sql[i] == '$' && i + 1 < |sql| && IsDigit(sql[i + 1]) {
        var end := i + 1;
        DigitAt(sql, end);
        while end < |sql| && IsDigit(sql[end])
          invariant i + 1 <= end <= |sql|
          invariant end == i + 1 ==> end < |sql| && IsDigit(sql[end])
          invariant DigitRun(sql[i + 1..]) == end - (i + 1) + DigitRun(sql[end..])
        {
          DigitAt(sql, end);
          end := end + 1;
        }
        DigitAt(sql, end);
        BumpStep(result, sql, i, end, offset);
        result := result + "$" + Decimal(WrapAdd(ParseUsize(sql[i + 1..end]), offset));
        i := end;
      } else {
        BumpSkip(result, sql, i, offset);
        result := result + [sql[i]];
        i := i + 1;
      }
    }
    assert sql[i..] == "";
  }

  lemma {:induction false} DigitRunOf(ds: string, rest: string)
    requires AllDigits(ds) && !StartsWithDigit(rest)
    ensures DigitRun(ds + rest) == |ds|
  {
    if ds == "" {
      assert ds + rest == rest;
    } else {
      DigitRunOf(ds[1..], rest);
      assert (ds + rest)[1..] == ds[1..] + rest;
    }
  }

  lemma {:induction false} BumpNumeral(k: nat, rest: string, b: nat)
    requires k < USIZE_LIMIT && !StartsWithDigit(rest)
    ensures Bump("$" + Decimal(k) + rest, b) == "$" + Decimal(WrapAdd(k, b)) + Bump(rest, b)
  {
    var s := "$" + Decimal(k) + rest;
    assert s[1..] == Decimal(k) + rest;
    DigitRunOf(Decimal(k), rest);
    assert s[1..][..|Decimal(k)|] == Decimal(k) && s[1..][|Decimal(k)|..] == rest;
    ParseDecimal(k);
  }

  lemma {:induction false} BumpStart(s: string, a: nat)
    ensures StartsWithDigit(Bump(s, a)) <==> StartsWithDigit(s)
  {
  }

  lemma {:induction false} BumpTwice(s: string, a: nat, b: nat)
    ensures Bump(Bump(s, a), b) == Bump(s, a + b)
    decreases |s|
  {
    if s == "" {
    } else if AtPlaceholder(s) {
      var n := DigitRun(s[1..]);
      var k, rest := ParseUsize(s[1..][..n]), s[1..][n..];
      BumpStart(rest, a);
      BumpNumeral(WrapAdd(k, a), Bump(rest, a), b);
      BumpTwice(rest, a, b);
      WrapAddTwice(k, a, b);
    } else {
      BumpTwice(s[1..], a, b);
      BumpStart(s[1..], a);
      var t := Bump(s, a);
      assert t[1..] == Bump(s[1..], a);
      assert !AtPlaceholder(t);
    }
  }

  /** Renumbering is a shift action on every text: 0 is the identity, and shifts compose by addition. */
  lemma {:induction false} RenumberIsShiftAction(s: string, a: nat, b: nat)
    ensures Renumbered(s, 0) == s
    ensures Renumbered(Renumbered(s, a), b) == Renumbered(s, a + b)
  {
    hide Bump;
    if a > 0 && b > 0 {
      BumpTwice(s, a, b);
    }
  }

  // ----- Text that cannot be mistaken for a placeholder -----

  /** No `$` in the text is followed by a digit. */
  ghost predicate Quiet(s: string) {
    forall i, j :: 0 <= i < j < |s| && j == i + 1 && s[i] == '$' ==> !IsDigit(s[j])
  }

  predicate EndsWithDollar(s: string) {
    |s| > 0 && s[|s| - 1] == '$'
  }

  predicate Opens(t: Tok) {
    t.Ph? || (t.Frag? && EndsWithDollar(t.s))
  }

  predicate SafeStart(t: Tok) {
    !t.Ph? && (t.Frag? ==> t.s != "" && !IsDigit(t.s[0]))
  }

  /** The only `$digits` in the spelling are the placeholders, and no digit runs on from one. */
  ghost predicate Clean(ts: seq<Tok>) {
    && (forall i :: 0 <= i < |ts| && ts[i].Frag? ==> Quiet(ts[i].s))
    && (forall i, j :: 0 <= i < j < |ts| && j == i + 1 && Opens(ts[i]) ==> SafeStart(ts[j]))
  }

  lemma {:induction false} CleanCat(a: seq<Tok>, b: seq<Tok>)
    requires Clean(a) && Clean(b)
    requires a != [] && b != [] && Opens(a[|a| - 1]) ==> SafeStart(b[0])
    ensures Clean(a + b)
  {
  }

  lemma {:induction false} CleanTail(ts: seq<Tok>)
    requires Clean(ts) && ts != []
    ensures Clean(ts[1..])
    ensures Opens(ts[0]) ==> !StartsWithDigit(Flatten(ts[1..]))
  {
    if Opens(ts[0]) && |ts| > 1 {
      assert SafeStart(ts[1]);
      assert ts[1..][0] == ts[1];
    }
  }

  lemma {:induction false} BumpQuiet(s: string, rest: string, a: nat)
    requires Quiet(s)
    requires EndsWithDollar(s) ==> !StartsWithDigit(rest)
    ensures Bump(s + rest, a) == s + Bump(rest, a)
  {
    if s == "" {
      assert s + rest == rest;
    } else {
      var t := s + rest;
      assert t[1..] == s[1..] + rest;
      assert !AtPlaceholder(t);
      BumpQuiet(s[1..], rest, a);
      assert s + Bump(rest, a) == [s[0]] + (s[1..] + Bump(rest, a));
    }
  }

  lemma {:induction false} KeywordQuiet(t: Tok)
    requires !t.Frag? && !t.Ph?
    ensures Quiet(Spell(t)) && !EndsWithDollar(Spell(t))
  {
  }

  lemma {:induction false} BumpToken(t: Tok, rest: string, a: nat)
    requires t.Frag? ==> Quiet(t.s)
    requires t.Ph? ==> t.n + a < USIZE_LIMIT
    requires Opens(t) ==> !StartsWithDigit(rest)
    ensures Bump(Spell(t) + rest, a) == Spell(ShiftTok(t, a)) + Bump(rest, a)
  {
    if t.Ph? && t.n > 0 {
      assert WrapAdd(t.n, a) == t.n + a;
      BumpNumeral(t.n, rest, a);
    } else {
      if !t.Frag? && !t.Ph? {
        KeywordQuiet(t);
      }
      BumpQuiet(Spell(t), rest, a);
    }
  }

  /** On a flattened token sequence, renumbering adds the offset to every placeholder and touches nothing else. */
  lemma {:induction false} RenumberFlatten(ts: seq<Tok>, a: nat)
    requires Clean(ts)
    requires forall t :: t in ts && t.Ph? ==> t.n + a < USIZE_LIMIT
    ensures Renumbered(Flatten(ts), a) == Flatten(Shift(ts, a))
  {
    if a == 0 {
      assert Shift(ts, 0) == ts;
    } else if ts == [] {
    } else {
      var rest := Flatten(ts[1..]);
      CleanTail(ts);
      RenumberFlatten(ts[1..], a);
      assert Shift(ts, a)[1..] == Shift(ts[1..], a);
      BumpToken(ts[0], rest, a);
    }
  }

  /** The numbers of the `$digits` in a text, left to right. */
  function ScanPlaceholders(s: string): seq<nat> {
    if s == "" then []
    else if AtPlaceholder(s) then
      var n := DigitRun(s[1..]);
      [ParseNat(s[1..][..n])] + ScanPlaceholders(s[1..][n..])
    else ScanPlaceholders(s[1..])
  }

  lemma {:induction false} ScanQuiet(s: string, rest: string)
    requires Quiet(s)
    requires EndsWithDollar(s) ==> !StartsWithDigit(rest)
    ensures ScanPlaceholders(s + rest) == ScanPlaceholders(rest)
  {
    if s == "" {
      assert s + rest == rest;
    } else {
      var t := s + rest;
      assert t[1..] == s[1..] + rest;
      assert !AtPlaceholder(t);
      ScanQuiet(s[1..], rest);
    }
  }

  lemma {:induction false} ScanNumeral(k: nat, rest: string)
    requires !StartsWithDigit(rest)
    ensures ScanPlaceholders("$" + Decimal(k) + rest) == [k] + ScanPlaceholders(rest)
  {
    var s := "$" + Decimal(k) + rest;
    assert s[1..] == Decimal(k) + rest;
    DigitRunOf(Decimal(k), rest);
    assert s[1..][..|Decimal(k)|] == Decimal(k) && s[1..][|Decimal(k)|..] == rest;
    ParseDecimal(k);
  }

  /** The numbers of the placeholder tokens, left to right. */
  function Numbers(ts: seq<Tok>): seq<nat> {
    if ts == [] then []
    else if ts[0].Ph? then [ts[0].n] + Numbers(ts[1..])
    else Numbers(ts[1..])
  }

  lemma {:induction false} NumbersOfSlots(ts: seq<Tok>)
    ensures Numbers(ts) == Numbers(Slots(ts))
  {
    if ts != [] {
      NumbersOfSlots(ts[1..]);
      if ts[0].Ph? {
        assert Slots(ts)[1..] == Slots(ts[1..]);
      }
    }
  }

  lemma {:induction false} ScanToken(t: Tok, rest: string)
    requires t.Frag? ==> Quiet(t.s)
    requires t.Ph? ==> 0 < t.n
    requires Opens(t) ==> !StartsWithDigit(rest)
    ensures ScanPlaceholders(Spell(t) + rest) == if t.Ph? then [t.n] + ScanPlaceholders(rest) else ScanPlaceholders(rest)
  {
    if t.Ph? {
      ScanNumeral(t.n, rest);
    } else {
      if !t.Frag? {
        KeywordQuiet(t);
      }
      ScanQuiet(Spell(t), rest);
    }
  }

  /** Scanning the text finds exactly the numbers of the placeholder tokens. */
  lemma {:induction false} ScanFlatten(ts: seq<Tok>)
    requires Clean(ts)
    requires forall t :: t in ts && t.Ph? ==> 0 < t.n
    ensures ScanPlaceholders(Flatten(ts)) == Numbers(ts)
  {
    if ts != [] {
      CleanTail(ts);
      ScanFlatten(ts[1..]);
      ScanToken(ts[0], Flatten(ts[1..]));
    }
  }

  /** The text with every `$digits` written as `?`. */
  function Unnumber(s: string): string {
    if s == "" then ""
    else if AtPlaceholder(s) then "?" + Unnumber(s[1..][DigitRun(s[1..])..])
    else [s[0]] + Unnumber(s[1..])
  }

  lemma {:induction false} UnnumberQuiet(s: string, rest: string)
    requires Quiet(s)
    requires EndsWithDollar(s) ==> !StartsWithDigit(rest)
    ensures Unnumber(s + rest) == s + Unnumber(rest)
  {
    if s == "" {
      assert s + rest == rest;
    } else {
      var t := s + rest;
      assert t[1..] == s[1..] + rest;
      assert !AtPlaceholder(t);
      UnnumberQuiet(s[1..], rest);
      assert s + Unnumber(rest) == [s[0]] + (s[1..] + Unnumber(rest));
    }
  }

  lemma {:induction false} UnnumberNumeral(k: nat, rest: string)
    requires !StartsWithDigit(rest)
    ensures Unnumber("$" + Decimal(k) + rest) == "?" + Unnumber(rest)
  {
    var s := "$" + Decimal(k) + rest;
    assert s[1..] == Decimal(k) + rest;
    DigitRunOf(Decimal(k), rest);
    assert s[1..][|Decimal(k)|..] == rest;
  }

  lemma {:induction false} UnnumberToken(t: Tok, rest: string)
    requires t.Frag? ==> Quiet(t.s)
    requires t.Ph? ==> 0 < t.n
    requires Opens(t) ==> !StartsWithDigit(rest)
    ensures Unnumber(Spell(t) + rest) == (if t.Ph? then "?" else Spell(t)) + Unnumber(rest)
  {
    if t.Ph? {
      UnnumberNumeral(t.n, rest);
    } else {
      if !t.Frag? {
        KeywordQuiet(t);
      }
      UnnumberQuiet(Spell(t), rest);
    }
  }

  /** On a flattened token sequence, unnumbering erases the numbers of the placeholders and nothing else. */
  lemma {:induction false} UnnumberFlatten(ts: seq<Tok>)
    requires Clean(ts)
    requires forall t :: t in ts && t.Ph? ==> 0 < t.n
    ensures Unnumber(Flatten(ts)) == Flatten(Erase(ts))
  {
    if ts != [] {
      CleanTail(ts);
      UnnumberFlatten(ts[1..]);
      UnnumberToken(ts[0], Flatten(ts[1..]));
      assert Erase(ts)[1..] == Erase(ts[1..]);
    }
  }
}
