/** Character-level text: decimal numerals, joining, quote doubling and substring replacement. */
module Text {

  predicate IsDigit(c: char) {
    '0' <= c <= '9'
  }

  predicate AllDigits(s: string) {
    forall i :: 0 <= i < |s| ==> IsDigit(s[i])
  }

  predicate StartsWithDigit(s: string) {
    |s| > 0 && IsDigit(s[0])
  }

  predicate Free(s: string, c: char) {
    forall i :: 0 <= i < |s| ==> s[i] != c
  }

  function DigitChar(d: nat): (c: char)
    requires d < 10
    ensures IsDigit(c) && c as int - '0' as int == d
  {
    (d + '0' as int) as char
  }

  /** The decimal numeral of a natural number, without leading zeros. */
  function Decimal(n: nat): (s: string)
    ensures |s| > 0 && AllDigits(s)
  {
    if n < 10 then [DigitChar(n)] else Decimal(n / 10) + [DigitChar(n % 10)]
  }

  function IntText(n: int): string {
    if n < 0 then "-" + Decimal(-n) else Decimal(n)
  }

  function ParseNat(s: string): nat
    requires AllDigits(s)
  {
    if s == [] then 0
    else ParseNat(s[..|s| - 1]) * 10 + (s[|s| - 1] as int - '0' as int)
  }

  lemma {:induction false} ParseDecimal(n: nat)
    ensures ParseNat(Decimal(n)) == n
  {
    if n >= 10 {
      ParseDecimal(n / 10);
      assert Decimal(n)[..|Decimal(n)| - 1] == Decimal(n / 10);
    }
  }

  lemma {:induction false} DecimalInjective(m: nat, n: nat)
    requires Decimal(m) == Decimal(n)
    ensures m == n
  {
    ParseDecimal(m);
    ParseDecimal(n);
  }

  lemma {:induction false} IntTextInjective(m: int, n: int)
    requires IntText(m) == IntText(n)
    ensures m == n
  {
    assert m < 0 <==> IntText(m)[0] == '-';
    assert n < 0 <==> IntText(n)[0] == '-';
    if m < 0 {
      assert Decimal(-m) == IntText(m)[1..] == IntText(n)[1..] == Decimal(-n);
      DecimalInjective(-m, -n);
    } else {
      DecimalInjective(m, n);
    }
  }

  lemma {:induction false} DecimalLengthMonotone(m: nat, n: nat)
    requires m <= n
    ensures |Decimal(m)| <= |Decimal(n)|
  {
    if m >= 10 {
      DecimalLengthMonotone(m / 10, n / 10);
    }
  }

  /** No numeral of a smaller number, followed by text that is not a digit, begins with a larger numeral. */
  lemma {:induction false} DecimalPrefix(k: nat, m: nat, rest: string)
    requires m <= k
    requires !StartsWithDigit(rest)
    ensures Decimal(k) <= Decimal(m) + rest <==> k == m
  {
    if Decimal(k) <= Decimal(m) + rest {
      DecimalLengthMonotone(m, k);
      var text := Decimal(m) + rest;
      assert forall i :: 0 <= i < |Decimal(k)| ==> IsDigit(text[i]);
      if |rest| > 0 {
        assert text[|Decimal(m)|] == rest[0];
      }
      assert Decimal(k) == text[..|Decimal(k)|] == Decimal(m);
      DecimalInjective(k, m);
    }
  }

  function Join(parts: seq<string>, sep: string): string {
    if parts == [] then ""
    else if |parts| == 1 then parts[0]
    else parts[0] + sep + Join(parts[1..], sep)
  }

  /** Clauses, each with a space in front. */
  function Spaces(cs: seq<string>): string {
    if cs == [] then "" else " " + cs[0] + Spaces(cs[1..])
  }

  /** Clauses are written in their order. */
  lemma {:induction false} SpacesInOrder(before: seq<string>, clause: string, rest: seq<string>)
    ensures Spaces(before + [clause] + rest) == Spaces(before) + " " + clause + Spaces(rest)
  {
    var all := before + [clause] + rest;
    if before == [] {
      assert all[0] == clause && all[1..] == rest;
    } else {
      assert all[1..] == before[1..] + [clause] + rest;
      SpacesInOrder(before[1..], clause, rest);
    }
  }

  /** Every occurrence of the quote character is written twice. */
  function Doubled(s: string, q: char): string {
    if s == [] then ""
    else if s[0] == q then [q, q] + Doubled(s[1..], q)
    else [s[0]] + Doubled(s[1..], q)
  }

  lemma {:induction false} NothingToDouble(s: string, q: char)
    requires q !in s
    ensures Doubled(s, q) == s
  {
    if s != "" {
      NothingToDouble(s[1..], q);
    }
  }

  /** How often a character occurs. */
  function Count(s: string, c: char): nat {
    if s == "" then 0 else (if s[0] == c then 1 else 0) + Count(s[1..], c)
  }

  lemma {:induction false} CountIs(s: string, c: char)
    requires s != ""
    ensures Count(s, c) == (if s[0] == c then 1 else 0) + Count(s[1..], c)
  {
  }

  lemma {:induction false} CountCat(a: string, b: string, c: char)
    ensures Count(a + b, c) == Count(a, c) + Count(b, c)
  {
    if a == "" {
      assert a + b == b;
    } else {
      CountCat(a[1..], b, c);
      assert (a + b)[1..] == a[1..] + b;
    }
  }

  lemma {:induction false} CountNone(s: string, c: char)
    ensures Count(s, c) == 0 <==> c !in s
  {
    if s != "" {
      CountNone(s[1..], c);
      assert c in s <==> s[0] == c || c in s[1..] by {
        assert s == [s[0]] + s[1..];
      }
    }
  }

  lemma {:induction false} CountOne(c: char)
    ensures Count([c], c) == 1
  {
    assert [c][1..] == [];
  }

  /** Leftmost, non-overlapping replacement of a non-empty pattern. */
  function ReplaceAll(s: string, pat: string, rep: string): string
    requires pat != ""
  {
    if |s| < |pat| then s
    else if pat <= s then rep + ReplaceAll(s[|pat|..], pat, rep)
    else [s[0]] + ReplaceAll(s[1..], pat, rep)
  }

  /** Text without the first character of the pattern is passed over unchanged. */
  lemma {:induction false} ReplaceSkips(s: string, rest: string, pat: string, rep: string)
    requires pat != "" && Free(s, pat[0])
    ensures ReplaceAll(s + rest, pat, rep) == s + ReplaceAll(rest, pat, rep)
  {
    if s == [] {
      assert s + rest == rest;
    } else {
      ReplaceSkips(s[1..], rest, pat, rep);
      assert (s + rest)[0] == s[0] && (s + rest)[1..] == s[1..] + rest;
      if |s + rest| < |pat| {
        assert ReplaceAll(rest, pat, rep) == rest;
      } else {
        assert s + ReplaceAll(rest, pat, rep) == [s[0]] + (s[1..] + ReplaceAll(rest, pat, rep));
      }
    }
  }

  // ----- Reading words and lists of names -----

  /** The length of the first word of a text. */
  function WordRun(s: string): (n: nat)
    ensures n <= |s| && (s != "" && s[0] != ' ' ==> n > 0)
    ensures (forall i :: 0 <= i < n ==> s[i] != ' ') && (n < |s| ==> s[n] == ' ')
  {
    if s != "" && s[0] != ' ' then 1 + WordRun(s[1..]) else 0
  }

  lemma {:induction false} WordRunOf(w: string, rest: string)
    requires ' ' !in w && (rest == "" || rest[0] == ' ')
    ensures WordRun(w + rest) == |w|
  {
    if w == "" {
      assert w + rest == rest;
    } else {
      WordRunOf(w[1..], rest);
      assert (w + rest)[1..] == w[1..] + rest;
    }
  }

  function CommaRun(s: string): (n: nat)
    ensures n <= |s| && (n < |s| ==> s[n] == ',')
  {
    if s != "" && s[0] != ',' then 1 + CommaRun(s[1..]) else 0
  }

  /** Names with a comma and a blank between them. */
  function SplitNames(s: string): seq<string> {
    var n := CommaRun(s);
    if n + 2 <= |s| then [s[..n]] + SplitNames(s[n + 2..]) else [s]
  }

  lemma {:induction false} CommaRunOf(n: string, rest: string)
    requires ',' !in n && (rest == "" || rest[0] == ',')
    ensures CommaRun(n + rest) == |n|
  {
    if n == "" {
      assert n + rest == rest;
    } else {
      assert (n + rest)[1..] == n[1..] + rest;
      CommaRunOf(n[1..], rest);
    }
  }

  lemma {:induction false} NamesSplit(ns: seq<string>)
    requires ns != [] && forall i :: 0 <= i < |ns| ==> ',' !in ns[i]
    ensures SplitNames(Join(ns, ", ")) == ns
  {
    if |ns| == 1 {
      CommaRunOf(ns[0], "");
      assert ns[0] + "" == ns[0] && [ns[0]] == ns;
    } else {
      NamesSplit(ns[1..]);
      FirstSplit(ns[0], Join(ns[1..], ", "));
      assert [ns[0]] + ns[1..] == ns;
    }
  }

  lemma {:induction false} FirstSplit(n: string, more: string)
    requires ',' !in n
    ensures SplitNames(n + ", " + more) == [n] + SplitNames(more)
  {
    var s := n + ", " + more;
    assert s == n + (", " + more);
    CommaRunOf(n, ", " + more);
    assert s[|n| + 2..] == more && s[..|n|] == n;
  }
}
