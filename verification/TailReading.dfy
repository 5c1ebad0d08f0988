/** What ends a statement of the typed builder, read back: order, counts, lock and set operations. */
module TailReading {
  import opened Text
  import opened Values
  import opened Tokens
  import opened Selects

  // ----- Reading what follows the predicates -----

  datatype Tail = Tail(orders: seq<Order>, limit: Option<nat>, offset: Option<nat>, locking: Option<Locking>,
                       setParts: seq<SetPart>)

  function ReadNulls(s: string): (r: (Nulls, string))
    ensures |r.1| <= |s|
  {
    if " NULLS FIRST" <= s then (NullsFirst, s[12..])
    else if " NULLS LAST" <= s then (NullsLast, s[11..])
    else (DefaultNulls, s)
  }

  /** A column, its direction, and where nulls go. */
  function ReadOrder(s: string): (r: Option<(Order, string)>)
    ensures r.Some? ==> |r.value.1| < |s|
  {
    var n := WordRun(s);
    var col, after := s[..n], s[n..];
    if " ASC" <= after then Some((Order(col, false, ReadNulls(after[4..]).0), ReadNulls(after[4..]).1))
    else if " DESC" <= after then Some((Order(col, true, ReadNulls(after[5..]).0), ReadNulls(after[5..]).1))
    else None
  }

  function ReadOrderList(s: string): Option<(seq<Order>, string)>
    decreases |s|
  {
    match ReadOrder(s)
    case None => None
    case Some(first) =>
      if ", " <= first.1 then
        match ReadOrderList(first.1[2..])
        case None => None
        case Some(more) => Some(([first.0] + more.0, more.1))
      else Some(([first.0], first.1))
  }

  function ReadOrders(s: string): Option<(seq<Order>, string)> {
    if " ORDER BY " <= s then ReadOrderList(s[10..]) else Some(([], s))
  }

  function ReadCount(word: string, s: string): (Option<nat>, string) {
    if word <= s then
      var after := s[|word|..];
      (Some(ParseNat(after[..DigitRun(after)])), after[DigitRun(after)..])
    else (None, s)
  }

  function ReadConflict(lock: Lock, s: string): (Option<Locking>, string) {
    if " SKIP LOCKED" <= s then (Some(Locking(lock, Some(SkipLocked))), s[12..])
    else if " NOWAIT" <= s then (Some(Locking(lock, Some(NoWait))), s[7..])
    else (Some(Locking(lock, None)), s)
  }

  function ReadLock(s: string): (Option<Locking>, string) {
    if " FOR UPDATE" <= s then ReadConflict(ForUpdate, s[11..])
    else if " FOR NO KEY UPDATE" <= s then ReadConflict(ForNoKeyUpdate, s[18..])
    else if " FOR SHARE" <= s then ReadConflict(ForShare, s[10..])
    else if " FOR KEY SHARE" <= s then ReadConflict(ForKeyShare, s[14..])
    else (None, s)
  }

  function ReadJoint(s: string): (r: Option<(Joint, string)>)
    ensures r.Some? ==> |r.value.1| < |s|
  {
    if " UNION (" <= s then Some((Union, s[8..]))
    else if " UNION ALL (" <= s then Some((UnionAll, s[12..]))
    else if " INTERSECT (" <= s then Some((Intersect, s[12..]))
    else if " EXCEPT (" <= s then Some((Except, s[9..]))
    else None
  }

  function Nested(c: char): int {
    if c == '(' then 1 else if c == ')' then -1 else 0
  }

  /** Where the parenthesis that was opened last before a text is closed in it. */
  function ClosesAt(s: string, d: nat): (i: Option<nat>)
    ensures i.Some? ==> i.value < |s|
  {
    if s == "" then None
    else if d + Nested(s[0]) <= 0 then Some(0)
    else
      match ClosesAt(s[1..], d + Nested(s[0]))
      case None => None
      case Some(i) => Some(i + 1)
  }

  function ReadSetParts(s: string): Option<seq<SetPart>>
    decreases |s|
  {
    if s == "" then Some([])
    else
      match ReadJoint(s)
      case None => None
      case Some(joint) =>
        match ClosesAt(joint.1, 1)
        case None => None
        case Some(i) =>
          match ReadSetParts(joint.1[i + 1..])
          case None => None
          case Some(more) => Some([SetPart(joint.0, joint.1[..i])] + more)
  }

  function ReadTail(s: string): Option<Tail> {
    match ReadOrders(s)
    case None => None
    case Some(orders) =>
      var limit := ReadCount(" LIMIT ", orders.1);
      var offset := ReadCount(" OFFSET ", limit.1);
      var lock := ReadLock(offset.1);
      match ReadSetParts(lock.1)
      case None => None
      case Some(parts) => Some(Tail(orders.0, limit.0, offset.0, lock.0, parts))
  }

  // ----- The tail that was written is read -----

  /** Nothing, or text whose first character is a blank and whose third is one of these. */
  predicate Third(s: string, cs: string) {
    s == "" || (|s| > 2 && s[0] == ' ' && s[2] in cs)
  }

  lemma {:induction false} NotThird(s: string, cs: string, word: string)
    requires Third(s, cs) && |word| > 2 && word[2] !in cs
    ensures !(word <= s)
  {
    if |s| > 2 {
      PrefixAt(s, word, 2);
    }
  }

  lemma {:induction false} PrefixAt(s: string, word: string, i: nat)
    requires i < |s| && i < |word|
    ensures word <= s ==> s[i] == word[i]
  {
  }

  lemma {:induction false} ThirdCat(a: string, b: string, as': string, bs: string)
    requires Third(a, as') && Third(b, bs)
    ensures Third(a + b, as' + bs)
  {
    if a == "" {
      assert a + b == b;
    } else {
      assert (a + b)[2] == a[2];
    }
  }

  lemma {:induction false} NullsRead(nulls: Nulls, rest: string)
    requires !(" NULLS FIRST" <= rest) && !(" NULLS LAST" <= rest)
    ensures ReadNulls(NullsText(nulls) + rest) == (nulls, rest)
  {
    var s := NullsText(nulls) + rest;
    match nulls
    case DefaultNulls => assert s == rest;
    case NullsFirst => assert s[12..] == rest;
    case NullsLast =>
      assert s[11..] == rest;
      assert s[7] == 'L' && " NULLS FIRST"[7] == 'F';
  }

  lemma {:induction false} OrderRead(o: Order, rest: string)
    requires ' ' !in o.col && !(" NULLS FIRST" <= rest) && !(" NULLS LAST" <= rest)
    ensures ReadOrder(OrderText(o) + rest) == Some((o, rest))
  {
    hide ReadNulls, NullsText, OrderText, ReadOrder;
    NullsRead(o.nulls, rest);
    DirectionRead(o.col, o.descending, NullsText(o.nulls) + rest);
    OrderTextIs(o);
    Regroup(o.col, if o.descending then " DESC" else " ASC", NullsText(o.nulls), rest);
  }

  lemma {:induction false} Regroup(a: string, b: string, c: string, d: string)
    ensures a + b + c + d == a + (b + (c + d))
  {
  }

  lemma {:induction false} OrderTextIs(o: Order)
    ensures OrderText(o) == o.col + (if o.descending then " DESC" else " ASC") + NullsText(o.nulls)
  {
    hide NullsText;
    if o.descending {
      assert " " + "DESC" == " DESC";
      assert o.col + " " + "DESC" == o.col + " DESC";
    } else {
      assert " " + "ASC" == " ASC";
      assert o.col + " " + "ASC" == o.col + " ASC";
    }
  }

  lemma {:induction false} DirectionRead(col: string, descending: bool, after: string)
    requires ' ' !in col
    ensures ReadOrder(col + ((if descending then " DESC" else " ASC") + after))
         == Some((Order(col, descending, ReadNulls(after).0), ReadNulls(after).1))
  {
    hide ReadNulls;
    var word := if descending then " DESC" else " ASC";
    WordRunOf(col, word + after);
    var s := col + (word + after);
    assert s[..|col|] == col && s[|col|..] == word + after && (word + after)[|word|..] == after;
    assert descending ==> (word + after)[1] == 'D';
    assert " ASC"[1] == 'A';
  }

  /** What may come after the list of orders. */
  predicate AfterOrders(s: string) {
    !(", " <= s) && !(" NULLS FIRST" <= s) && !(" NULLS LAST" <= s)
  }

  predicate PlainColumns(os: seq<Order>) {
    forall i :: 0 <= i < |os| ==> ' ' !in os[i].col
  }

  lemma {:induction false} OrderListRead(os: seq<Order>, rest: string)
    requires os != [] && PlainColumns(os) && AfterOrders(rest)
    ensures ReadOrderList(Join(OrderTexts(os), ", ") + rest) == Some((os, rest))
  {
    hide OrderText, ReadOrder;
    var texts := OrderTexts(os);
    if |os| == 1 {
      OrderRead(os[0], rest);
      assert [os[0]] == os;
    } else {
      assert texts[1..] == OrderTexts(os[1..]);
      var more := Join(texts[1..], ", ") + rest;
      OrderListRead(os[1..], rest);
      assert (", " + more)[0] == ',' && " NULLS FIRST"[0] == ' ' && " NULLS LAST"[0] == ' ';
      OrderRead(os[0], ", " + more);
      assert Join(texts, ", ") + rest == texts[0] + (", " + more);
      assert (", " + more)[2..] == more && [os[0]] + os[1..] == os;
    }
  }

  lemma {:induction false} OrdersRead(os: seq<Order>, rest: string)
    requires PlainColumns(os) && AfterOrders(rest) && !(" ORDER BY " <= rest)
    ensures ReadOrders(OrdersText(os) + rest) == Some((os, rest))
  {
    hide PlainColumns, AfterOrders, OrderTexts, Join, ReadOrderList;
    if os == [] {
      assert OrdersText(os) + rest == rest;
    } else {
      var list := Join(OrderTexts(os), ", ") + rest;
      OrderListRead(os, rest);
      assert OrdersText(os) + rest == " ORDER BY " + list && (" ORDER BY " + list)[10..] == list;
    }
  }

  lemma {:induction false} DigitRunOf(s: string, rest: string)
    requires AllDigits(s) && !StartsWithDigit(rest)
    ensures DigitRun(s + rest) == |s|
  {
    if s == "" {
      assert s + rest == rest;
    } else {
      assert (s + rest)[1..] == s[1..] + rest;
      DigitRunOf(s[1..], rest);
    }
  }

  lemma {:induction false} CountRead(word: string, n: Option<nat>, rest: string)
    requires !StartsWithDigit(rest) && !(word <= rest)
    ensures ReadCount(word, CountText(word, n) + rest) == (n, rest)
  {
    hide Decimal, ParseNat, IsDigit;
    var s := CountText(word, n) + rest;
    if n.None? {
      assert s == rest;
    } else {
      var t := Decimal(n.value);
      assert s == word + (t + rest) && s[|word|..] == t + rest;
      DigitRunOf(t, rest);
      ParseDecimal(n.value);
      assert (t + rest)[..|t|] == t && (t + rest)[|t|..] == rest;
    }
  }

  lemma {:induction false} ConflictRead(lock: Lock, c: Option<Conflict>, rest: string)
    requires !(" SKIP LOCKED" <= rest) && !(" NOWAIT" <= rest)
    ensures ReadConflict(lock, ConflictText(c) + rest) == (Some(Locking(lock, c)), rest)
  {
    var s := ConflictText(c) + rest;
    match c
    case None => assert s == rest;
    case Some(SkipLocked) => assert s[12..] == rest;
    case Some(NoWait) =>
      assert s[7..] == rest;
      assert s[1] == 'N' && " SKIP LOCKED"[1] == 'S';
  }

  lemma {:induction false} LockWordRead(l: Lock, after: string)
    ensures ReadLock(" " + LockWords(l) + after) == ReadConflict(l, after)
  {
    hide ReadLock, ReadConflict;
    match l
    case ForUpdate => UpdateRead(after);
    case ForNoKeyUpdate => NoKeyUpdateRead(after);
    case ForShare => ShareRead(after);
    case ForKeyShare => KeyShareRead(after);
  }

  lemma {:induction false} UpdateRead(after: string)
    ensures ReadLock(" " + LockWords(ForUpdate) + after) == ReadConflict(ForUpdate, after)
  {
    hide ReadConflict;
    var s := " " + LockWords(ForUpdate) + after;
    assert s == " FOR UPDATE" + after && s[11..] == after;
  }

  lemma {:induction false} NoKeyUpdateRead(after: string)
    ensures ReadLock(" " + LockWords(ForNoKeyUpdate) + after) == ReadConflict(ForNoKeyUpdate, after)
  {
    hide ReadConflict;
    var s := " " + LockWords(ForNoKeyUpdate) + after;
    assert s == " FOR NO KEY UPDATE" + after && s[18..] == after;
    PrefixAt(s, " FOR UPDATE", 5);
  }

  lemma {:induction false} ShareRead(after: string)
    ensures ReadLock(" " + LockWords(ForShare) + after) == ReadConflict(ForShare, after)
  {
    hide ReadConflict;
    var s := " " + LockWords(ForShare) + after;
    assert s == " FOR SHARE" + after && s[10..] == after;
    PrefixAt(s, " FOR UPDATE", 5);
    PrefixAt(s, " FOR NO KEY UPDATE", 5);
  }

  lemma {:induction false} KeyShareRead(after: string)
    ensures ReadLock(" " + LockWords(ForKeyShare) + after) == ReadConflict(ForKeyShare, after)
  {
    hide ReadConflict;
    var s := " " + LockWords(ForKeyShare) + after;
    assert s == " FOR KEY SHARE" + after && s[14..] == after;
    PrefixAt(s, " FOR UPDATE", 5);
    PrefixAt(s, " FOR NO KEY UPDATE", 5);
    PrefixAt(s, " FOR SHARE", 5);
  }

  lemma {:induction false} LockRead(l: Option<Locking>, rest: string)
    requires Third(rest, "NX")
    ensures ReadLock(LockText(l) + rest) == (l, rest)
  {
    hide Third, ReadLock, ReadConflict, LockWords, ConflictText;
    if l.None? {
      assert LockText(l) + rest == rest;
      NoLock(rest);
    } else {
      var after := ConflictText(l.value.conflict) + rest;
      NoConflict(rest);
      ConflictRead(l.value.lock, l.value.conflict, rest);
      LockWordRead(l.value.lock, after);
      assert LockText(l) + rest == " " + LockWords(l.value.lock) + after;
    }
  }

  lemma {:induction false} NoConflict(rest: string)
    requires Third(rest, "NX")
    ensures !(" SKIP LOCKED" <= rest) && !(" NOWAIT" <= rest)
  {
    hide Third;
    NotThird(rest, "NX", " SKIP LOCKED");
    NotThird(rest, "NX", " NOWAIT");
  }

  lemma {:induction false} NoLock(rest: string)
    requires Third(rest, "NX")
    ensures ReadLock(rest) == (None, rest)
  {
    NotThird(rest, "NX", " FOR UPDATE");
    NotThird(rest, "NX", " FOR NO KEY UPDATE");
    NotThird(rest, "NX", " FOR SHARE");
    NotThird(rest, "NX", " FOR KEY SHARE");
  }

  /** The depth of parentheses after a text that starts at depth `d`, or -1 if it falls below 0. */
  function Depth(s: string, d: nat): int {
    if s == "" then d else if d + Nested(s[0]) < 0 then -1 else Depth(s[1..], d + Nested(s[0]))
  }

  lemma {:induction false} ClosesAtOf(s: string, rest: string, d: nat)
    requires Depth(s, d) == 0
    ensures ClosesAt(s + ")" + rest, d + 1) == Some(|s|)
  {
    var t := s + ")" + rest;
    if s == "" {
      assert t[0] == ')';
    } else {
      assert t[0] == s[0] && t[1..] == s[1..] + ")" + rest;
      ClosesAtOf(s[1..], rest, d + Nested(s[0]));
    }
  }

  lemma {:induction false} JointRead(j: Joint, after: string)
    ensures ReadJoint(" " + JointWords(j) + " (" + after) == Some((j, after))
  {
    var s := " " + JointWords(j) + " (" + after;
    match j
    case Union => assert s == " UNION (" + after && s[8..] == after;
    case UnionAll =>
      assert s == " UNION ALL (" + after && s[12..] == after;
      assert s[7] == 'A' && " UNION ("[7] == '(';
    case Intersect =>
      assert s == " INTERSECT (" + after && s[12..] == after;
      assert s[1] == 'I' && " UNION ("[1] == 'U' && " UNION ALL ("[1] == 'U';
    case Except => ExceptRead(after);
  }

  lemma {:induction false} ExceptRead(after: string)
    ensures ReadJoint(" " + JointWords(Except) + " (" + after) == Some((Except, after))
  {
    var s := " " + JointWords(Except) + " (" + after;
    assert s == " EXCEPT (" + after && s[9..] == after;
    assert s[1] == 'E' && " UNION ("[1] == 'U' && " UNION ALL ("[1] == 'U' && " INTERSECT ("[1] == 'I';
  }

  /** The other side of every set operation closes its parentheses. */
  predicate Closed(parts: seq<SetPart>) {
    forall i :: 0 <= i < |parts| ==> Depth(parts[i].sql, 0) == 0
  }

  lemma {:induction false} SetPartsRead(parts: seq<SetPart>)
    requires Closed(parts)
    ensures ReadSetParts(SetText(parts)) == Some(parts)
  {
    hide JointWords, ReadJoint, Depth;
    if parts != [] {
      var p, more := parts[0], SetText(parts[1..]);
      SetPartsRead(parts[1..]);
      ClosesAtOf(p.sql, more, 0);
      JointRead(p.joint, p.sql + ")" + more);
      assert SetText(parts) == " " + JointWords(p.joint) + " (" + (p.sql + ")" + more);
      PartRead(p, more, SetText(parts));
      assert [SetPart(p.joint, p.sql)] + parts[1..] == parts;
    }
  }

  lemma {:induction false} PartRead(p: SetPart, more: string, s: string)
    requires ReadJoint(s) == Some((p.joint, p.sql + ")" + more)) && ClosesAt(p.sql + ")" + more, 1) == Some(|p.sql|)
    requires s != "" && ReadSetParts(more).Some?
    ensures ReadSetParts(s) == Some([p] + ReadSetParts(more).value)
  {
    hide ReadJoint, ClosesAt;
    var after := p.sql + ")" + more;
    assert after[..|p.sql|] == p.sql && after[|p.sql| + 1..] == more;
  }

  lemma {:induction false} SetThird(parts: seq<SetPart>)
    ensures Third(SetText(parts), "NX")
  {
    hide SetText;
    if parts != [] {
      var more := " (" + parts[0].sql + ")" + SetText(parts[1..]);
      SetTextIs(parts);
      JointThird(parts[0].joint, more);
    } else {
      NoSetText();
    }
  }

  lemma {:induction false} NoSetText()
    ensures SetText([]) == ""
  {
  }

  lemma {:induction false} SetTextIs(parts: seq<SetPart>)
    requires parts != []
    ensures SetText(parts) == " " + JointWords(parts[0].joint) + (" (" + parts[0].sql + ")" + SetText(parts[1..]))
  {
    hide JointWords;
  }

  lemma {:induction false} JointThird(j: Joint, more: string)
    ensures Third(" " + JointWords(j) + more, "NX")
  {
    var s := " " + JointWords(j) + more;
    assert s[0] == ' ' && s[2] == JointWords(j)[1];
    assert 'N' in "NX" && 'X' in "NX" by {
      assert "NX"[0] == 'N' && "NX"[1] == 'X';
    }
  }

  lemma {:induction false} LockThird(l: Option<Locking>)
    ensures Third(LockText(l), "O")
  {
    if l.Some? {
      var s := LockText(l);
      assert s[0] == ' ' && s[2] == LockWords(l.value.lock)[1] == 'O';
      assert "O"[0] == 'O';
    }
  }

  lemma {:induction false} CountThird(word: string, n: Option<nat>)
    requires |word| > 2 && word[0] == ' '
    ensures Third(CountText(word, n), [word[2]])
  {
    hide Decimal;
    if n.Some? {
      assert CountText(word, n)[2] == word[2] && [word[2]][0] == word[2];
    }
  }

  lemma {:induction false} TailThirds(s: Select)
    ensures var r4 := LockText(s.locking) + SetText(s.setParts);
            var r3 := CountText(" OFFSET ", s.offset) + r4;
            && Third(r4, "O" + "NX") && Third(r3, "F" + ("O" + "NX"))
            && Third(CountText(" LIMIT ", s.limit) + r3, "I" + ("F" + ("O" + "NX")))
  {
    hide Third, LockText, SetText, CountText;
    var r4 := LockText(s.locking) + SetText(s.setParts);
    var r3 := CountText(" OFFSET ", s.offset) + r4;
    SetThird(s.setParts);
    LockThird(s.locking);
    CountThird(" OFFSET ", s.offset);
    CountThird(" LIMIT ", s.limit);
    assert [" OFFSET "[2]] == "F" && [" LIMIT "[2]] == "I";
    ThirdCat(LockText(s.locking), SetText(s.setParts), "O", "NX");
    ThirdCat(CountText(" OFFSET ", s.offset), r4, "F", "O" + "NX");
    ThirdCat(CountText(" LIMIT ", s.limit), r3, "I", "F" + ("O" + "NX"));
  }

  lemma {:induction false} NoDigitThird(s: string, cs: string)
    requires Third(s, cs)
    ensures !StartsWithDigit(s) && !(", " <= s)
  {
    assert ", "[0] == ',';
  }

  lemma {:induction false} AfterOrdersThird(s: string)
    requires Third(s, "I" + ("F" + ("O" + "NX")))
    ensures AfterOrders(s) && !(" ORDER BY " <= s)
  {
    hide Third;
    var cs := "I" + ("F" + ("O" + "NX"));
    assert cs == "IFONX";
    NoDigitThird(s, cs);
    NotThird(s, cs, " NULLS FIRST");
    NotThird(s, cs, " NULLS LAST");
    NotThird(s, cs, " ORDER BY ");
  }

  lemma {:induction false} CountsThird(r3: string, r4: string)
    requires Third(r3, "F" + ("O" + "NX")) && Third(r4, "O" + "NX")
    ensures !(" LIMIT " <= r3) && !(" OFFSET " <= r4) && !StartsWithDigit(r3) && !StartsWithDigit(r4)
  {
    hide Third, StartsWithDigit;
    assert "F" + ("O" + "NX") == "FONX" && "O" + "NX" == "ONX";
    NoDigitThird(r3, "FONX");
    NoDigitThird(r4, "ONX");
    NotThird(r3, "FONX", " LIMIT ");
    NotThird(r4, "ONX", " OFFSET ");
  }

  /** The end of a statement is read back: columns with direction and nulls, counts, lock and set operations. */
  lemma {:induction false} TailReads(s: Select)
    requires PlainColumns(s.orders) && Closed(s.setParts)
    ensures ReadTail(TailText(s)) == Some(Tail(s.orders, s.limit, s.offset, s.locking, s.setParts))
  {
    hide PlainColumns, Closed, Third, LockText, SetText, CountText, OrdersText, ReadOrders, ReadCount, ReadLock, ReadSetParts;
    hide AfterOrders, StartsWithDigit;
    var r5 := SetText(s.setParts);
    var r4 := LockText(s.locking) + r5;
    var r3 := CountText(" OFFSET ", s.offset) + r4;
    var r2 := CountText(" LIMIT ", s.limit) + r3;
    TailThirds(s);
    AfterOrdersThird(r2);
    CountsThird(r3, r4);
    SetThird(s.setParts);
    OrdersRead(s.orders, r2);
    CountRead(" LIMIT ", s.limit, r3);
    CountRead(" OFFSET ", s.offset, r4);
    LockRead(s.locking, r5);
    SetPartsRead(s.setParts);
    assert TailText(s) == OrdersText(s.orders) + r2;
  }
}
