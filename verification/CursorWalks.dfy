/** Walking a filtered result page by page, by cursor. */
module CursorWalks {
  import opened Text
  import opened Values
  import opened Tokens
  import opened Leaves
  import opened Search
  import opened Meaning
  import opened BridgeBack
  import opened AppendedTests
  import opened Cursor
  import opened Walks
  import C = Conditions

  /** A table in key order, and what each record makes of each atomic predicate. */
  datatype Table = Table(rows: seq<Record>, truth: (Record, seq<Tok>) -> Tri)

  ghost predicate Ascending(rows: seq<Record>) {
    forall i, j :: 0 <= i < j < |rows| ==> rows[i].pk < rows[j].pk
  }

  function RowOfRecord(db: Table, r: Record): Row {
    atom => db.truth(r, atom)
  }

  function Admits(db: Table, tree: Tree, r: Record): bool {
    Eval(tree, RowOfRecord(db, r)).True?
  }

  function Selected(db: Table, rows: seq<Record>, tree: Tree): seq<Record> {
    if rows == [] then []
    else (if Admits(db, tree, rows[0]) then [rows[0]] else []) + Selected(db, rows[1..], tree)
  }

  /** The records that the WHERE clause admits, in key order; a clause that cannot be read is an error. */
  function Fetch(db: Table, conds: seq<C.Item>): Option<seq<Record>> {
    if conds == [] then Some(db.rows)
    else
      match Read(C.ItemsToks(Postgres, conds, 1))
      case None => None
      case Some(tree) => Some(Selected(db, db.rows, tree))
  }

  /** The test that a cursor appends to the conditions. */
  function After(col: string, id: i64): C.Condition {
    C.Compare(Gt, col, Integer(id))
  }

  function FetchAfter(db: Table, conds: seq<C.Item>, col: string, after: Option<i64>): Option<seq<Record>> {
    Fetch(db, if after.Some? then With(conds, After(col, after.value)) else conds)
  }

  /** The cursor column is the unique key, in whose order the table is kept. */
  ghost predicate Keyed(db: Table, col: string) {
    && Ascending(db.rows)
    && forall r: Record, id: i64 :: r in db.rows ==>
         db.truth(r, AtomOf(After(col, id))) == if r.pk > id then True else False
  }

  // ----- Pages -----

  datatype CursorPage = CursorPage(data: seq<Record>, nextCursor: Option<string>, prevCursor: Option<string>)

  /** A token that does not decode asks for the first page. */
  function CursorId(token: Option<string>): Option<i64> {
    if token.None? then None else DecodeCursor(token.value)
  }

  /** `CursorPage::new`: the extra row is cut off, and without it there is no next page. */
  method NewCursorPage(rows: seq<Record>, perPage: nat, next: Option<string>, prev: Option<string>)
    returns (page: CursorPage)
    ensures page.data == Take(rows, perPage) && page.prevCursor == prev
    ensures page.nextCursor == if |rows| > perPage then next else None
  {
    var data := rows;
    var hasMore := |data| > perPage;
    if hasMore {
      data := data[..perPage];
    }
    page := CursorPage(data, if hasMore then next else None, prev);
  }

  function PageOf(found: seq<Record>, perPage: nat, after: Option<i64>): CursorPage
    requires perPage >= 1
  {
    CursorPage(Take(found, perPage),
               if |found| > perPage then Some(EncodeCursor(found[perPage - 1].pk)) else None,
               if after.Some? then Some(EncodeCursor(after.value)) else None)
  }

  function PageAfter(db: Table, conds: seq<C.Item>, col: string, perPage: nat, after: Option<i64>): Option<CursorPage>
    requires perPage >= 1
  {
    match FetchAfter(db, conds, col, after)
    case None => None
    case Some(found) => Some(PageOf(found, perPage, after))
  }

  /** One row more than the page holds tells whether rows follow, and is cut off again. */
  lemma {:induction false} ExtraRow(rows: seq<Record>, n: nat)
    ensures var more := Take(rows, n + 1);
            && Take(more, n) == Take(rows, n) && (|more| > n <==> |rows| > n)
            && forall i :: 0 <= i < n && i < |more| ==> more[i] == rows[i]
  {
  }

  /** The previous cursor of a page stands for the id that was asked for, and the next one for the last row shown. */
  lemma {:induction false} CursorsNameRows(db: Table, conds: seq<C.Item>, col: string, perPage: nat, token: Option<string>)
    requires perPage >= 1 && PageAfter(db, conds, col, perPage, CursorId(token)).Some?
    ensures var page := PageAfter(db, conds, col, perPage, CursorId(token)).value;
            && CursorId(page.prevCursor) == CursorId(token)
            && (page.nextCursor.Some? ==> |page.data| == perPage && CursorId(page.nextCursor) == Some(page.data[perPage - 1].pk))
  {
    hide FetchAfter, EncodeCursor, DecodeCursor;
    var after := CursorId(token);
    var found := FetchAfter(db, conds, col, after).value;
    if after.Some? {
      CursorRoundTrip(after.value);
    }
    if |found| > perPage {
      CursorRoundTrip(found[perPage - 1].pk);
    }
  }

  method CursorPaginate(db: Table, conds: seq<C.Item>, col: string, perPage: nat, token: Option<string>)
    returns (page: Option<CursorPage>)
    requires perPage >= 1
    ensures page == PageAfter(db, conds, col, perPage, CursorId(token))
  {
    hide EncodeCursor, DecodeCursor, Fetch;
    var b := conds;
    var prev: Option<string> := None;
    if token.Some? {
      var id := DecodeCursor(token.value);
      if id.Some? {
        b := With(b, After(col, id.value));
        prev := Some(EncodeCursor(id.value));
      }
    }
    var found := Fetch(db, b);
    if found.None? {
      return None;
    }
    var data := Take(found.value, perPage + 1);
    ExtraRow(found.value, perPage);
    var next: Option<string> := None;
    if |data| > perPage {
      next := Some(EncodeCursor(data[perPage - 1].pk));
    }
    var made := NewCursorPage(data, perPage, next, prev);
    page := Some(made);
  }

  // ----- Without an OR the cursor is a filter on the result -----

  function Above(rows: seq<Record>, id: i64): seq<Record> {
    if rows == [] then [] else (if rows[0].pk > id then [rows[0]] else []) + Above(rows[1..], id)
  }

  lemma {:induction false} AboveCat(a: seq<Record>, b: seq<Record>, id: i64)
    ensures Above(a + b, id) == Above(a, id) + Above(b, id)
  {
    hide Above;
    if a == [] {
      assert a + b == b;
      NothingAbove(id);
    } else {
      AboveCat(a[1..], b, id);
      assert (a + b)[1..] == a[1..] + b;
      AboveIs(a, id);
      AboveIs(a + b, id);
    }
  }

  lemma {:induction false} NothingAbove(id: i64)
    ensures Above([], id) == []
  {
  }

  lemma {:induction false} AboveIs(rows: seq<Record>, id: i64)
    requires rows != []
    ensures Above(rows, id) == (if rows[0].pk > id then [rows[0]] else []) + Above(rows[1..], id)
  {
  }

  lemma {:induction false} AboveOne(r: Record, id: i64)
    ensures Above([r], id) == if r.pk > id then [r] else []
  {
    assert [r][1..] == [];
  }

  lemma {:induction false} SelectedAbove(db: Table, rows: seq<Record>, tree: Tree, all: Tree, id: i64)
    requires forall r :: r in rows ==> (Admits(db, all, r) <==> Admits(db, tree, r) && r.pk > id)
    ensures Selected(db, rows, all) == Above(Selected(db, rows, tree), id)
  {
    hide Admits;
    if rows != [] {
      SelectedAbove(db, rows[1..], tree, all, id);
      var first := if Admits(db, tree, rows[0]) then [rows[0]] else [];
      AboveCat(first, Selected(db, rows[1..], tree), id);
      AboveOne(rows[0], id);
      assert rows[0] in rows;
    }
  }

  lemma {:induction false} AllAbove(db: Table, rows: seq<Record>, all: Tree, id: i64)
    requires forall r :: r in rows ==> (Admits(db, all, r) <==> r.pk > id)
    ensures Selected(db, rows, all) == Above(rows, id)
  {
    hide Admits;
    if rows != [] {
      AllAbove(db, rows[1..], all, id);
      assert rows[0] in rows;
    }
  }

  lemma {:induction false} ReadSolid(conds: seq<C.Item>, row: Row)
    requires conds != []
    ensures Read(C.ItemsToks(Postgres, conds, 1)).Some? <==> SolidItems(conds)
  {
    hide *;
    WhereMeans(conds, 1, row);
  }

  /** The rows behind a cursor are those of the whole result with a higher key. */
  lemma {:induction false} FetchAbove(db: Table, conds: seq<C.Item>, col: string, id: i64)
    requires Keyed(db, col) && SolidItems(conds) && OnlyAnds(ItemOps(conds))
    ensures Fetch(db, conds).Some?
    ensures FetchAfter(db, conds, col, Some(id)) == Some(Above(Fetch(db, conds).value, id))
  {
    hide Read, Eval, C.ItemsToks, SolidItems, AtomOf, Above, Selected;
    var test := After(col, id);
    var any: Row := _ => Unknown;
    if conds == [] {
      AloneMeans(test, 1, any);
      var all := Read(C.ItemsToks(Postgres, With(conds, test), 1)).value;
      forall r | r in db.rows
        ensures Admits(db, all, r) <==> r.pk > id
      {
        AloneMeans(test, 1, RowOfRecord(db, r));
      }
      AllAbove(db, db.rows, all, id);
    } else {
      AppendedMeans(conds, test, 1, any);
      var tree := Read(C.ItemsToks(Postgres, conds, 1)).value;
      var all := Read(C.ItemsToks(Postgres, With(conds, test), 1)).value;
      forall r | r in db.rows
        ensures Admits(db, all, r) <==> Admits(db, tree, r) && r.pk > id
      {
        AppendedMeans(conds, test, 1, RowOfRecord(db, r));
      }
      SelectedAbove(db, db.rows, tree, all, id);
    }
  }

  lemma {:induction false} SelectedOrdered(db: Table, rows: seq<Record>, tree: Tree)
    requires Ascending(rows)
    ensures Ascending(Selected(db, rows, tree))
    ensures forall r :: r in Selected(db, rows, tree) ==> r in rows
  {
    hide Admits;
    if rows != [] {
      var rest := Selected(db, rows[1..], tree);
      SelectedOrdered(db, rows[1..], tree);
      forall r | r in rest
        ensures rows[0].pk < r.pk && r in rows
      {
        var i :| 0 <= i < |rows[1..]| && rows[1..][i] == r;
        assert r == rows[i + 1];
      }
      SelectedIs(db, rows, tree);
      hide Selected;
      AscendingCons(rows[0], rest);
    }
  }

  lemma {:induction false} SelectedIs(db: Table, rows: seq<Record>, tree: Tree)
    requires rows != []
    ensures Selected(db, rows, tree)
         == (if Admits(db, tree, rows[0]) then [rows[0]] else []) + Selected(db, rows[1..], tree)
  {
    hide Admits;
  }

  lemma {:induction false} AscendingCons(r: Record, rest: seq<Record>)
    requires Ascending(rest) && forall s :: s in rest ==> r.pk < s.pk
    ensures Ascending([r] + rest)
  {
    forall i | 0 < i < |rest| + 1
      ensures r.pk < ([r] + rest)[i].pk
    {
      assert ([r] + rest)[i] in rest;
    }
  }

  lemma {:induction false} FetchOrdered(db: Table, conds: seq<C.Item>, col: string)
    requires Keyed(db, col) && Fetch(db, conds).Some?
    ensures Ascending(Fetch(db, conds).value)
  {
    hide Read, Eval, C.ItemsToks, AtomOf, Selected;
    if conds != [] {
      SelectedOrdered(db, db.rows, Read(C.ItemsToks(Postgres, conds, 1)).value);
    }
  }

  // ----- Following the cursors -----

  lemma {:induction false} AboveSplit(rows: seq<Record>, n: nat, id: i64)
    requires n <= |rows|
    requires forall i :: 0 <= i < n ==> rows[i].pk <= id
    requires forall i :: n <= i < |rows| ==> rows[i].pk > id
    ensures Above(rows, id) == rows[n..]
    decreases |rows|
  {
    if rows != [] {
      if n == 0 {
        AboveSplit(rows[1..], 0, id);
      } else {
        AboveSplit(rows[1..], n - 1, id);
      }
    }
  }

  /** The token that names the n-th row leads to exactly the rows after it. */
  lemma {:induction false} ResumeAt(db: Table, conds: seq<C.Item>, col: string, rows: seq<Record>, n: nat)
    requires Keyed(db, col) && SolidItems(conds) && OnlyAnds(ItemOps(conds)) && Fetch(db, conds) == Some(rows)
    requires 0 < n <= |rows|
    ensures FetchAfter(db, conds, col, CursorId(Some(EncodeCursor(rows[n - 1].pk)))) == Some(rows[n..])
  {
    hide EncodeCursor, DecodeCursor, Fetch, FetchAfter, AtomOf, SolidItems;
    CursorRoundTrip(rows[n - 1].pk);
    FetchAbove(db, conds, col, rows[n - 1].pk);
    FetchOrdered(db, conds, col);
    AboveSplit(rows, n, rows[n - 1].pk);
  }

  lemma {:induction false} StartsBefore(db: Table, conds: seq<C.Item>, col: string)
    requires Keyed(db, col) && SolidItems(conds)
    ensures Fetch(db, conds).Some? && FetchAfter(db, conds, col, CursorId(None)) == Some(Fetch(db, conds).value[0..])
  {
    hide Read, Eval, C.ItemsToks, SolidItems, AtomOf, Selected;
    if conds != [] {
      ReadSolid(conds, _ => Unknown);
    }
    var rows := Fetch(db, conds).value;
    assert rows[0..] == rows;
  }

  /** The page asked for after `n` rows holds the next ones, and names its last row if more follow. */
  lemma {:induction false} PageFrom(db: Table, conds: seq<C.Item>, col: string, perPage: nat, token: Option<string>,
                                    rows: seq<Record>, n: nat)
    requires perPage >= 1 && n <= |rows| && FetchAfter(db, conds, col, CursorId(token)) == Some(rows[n..])
    ensures var page := PageAfter(db, conds, col, perPage, CursorId(token));
            var k := if n + perPage < |rows| then perPage else |rows| - n;
            && page.Some? && page.value.data == rows[n..n + k]
            && page.value.nextCursor
               == if n + perPage < |rows| then Some(EncodeCursor(rows[n + perPage - 1].pk)) else None
  {
    hide EncodeCursor, FetchAfter, CursorId;
  }

  lemma {:induction false} ConcatNothing()
    ensures Concat([]) == []
  {
  }

  /**
   * With no OR among the conditions, following `next_cursor` from the first page ends, and visits every row of the
   * result exactly once, in ascending key order: the pages, put together, are the result. All but the last are full.
   */
  method FollowCursors(db: Table, conds: seq<C.Item>, col: string, perPage: nat) returns (pages: seq<seq<Record>>)
    requires perPage >= 1 && Keyed(db, col) && SolidItems(conds) && OnlyAnds(ItemOps(conds))
    ensures Fetch(db, conds) == Some(Concat(pages)) && Ascending(Concat(pages))
    ensures forall i :: 0 <= i < |pages| - 1 ==> |pages[i]| == perPage
    ensures |pages| > 0 && |pages[|pages| - 1]| <= perPage
    ensures Concat(pages) != [] ==> pages[|pages| - 1] != []
  {
    hide *;
    var token: Option<string> := None;
    pages := [];
    ConcatNothing();
    StartsBefore(db, conds, col);
    FetchOrdered(db, conds, col);
    ghost var rows := Fetch(db, conds).value;
    ghost var n: nat := 0;
    var more := true;
    while more
      invariant n <= |rows| && Concat(pages) == rows[..n]
      invariant more ==> FetchAfter(db, conds, col, CursorId(token)) == Some(rows[n..]) && (n > 0 ==> n < |rows|)
      invariant more ==> forall i :: 0 <= i < |pages| ==> |pages[i]| == perPage
      invariant !more ==> n == |rows|
      invariant !more ==> forall i :: 0 <= i < |pages| - 1 ==> |pages[i]| == perPage
      invariant !more ==> |pages| > 0 && |pages[|pages| - 1]| <= perPage && (rows != [] ==> pages[|pages| - 1] != [])
      decreases more, |rows| - n
    {
      var answer := CursorPaginate(db, conds, col, perPage, token);
      PageFrom(db, conds, col, perPage, token, rows, n);
      var page := answer.value;
      ConcatSnoc(pages, page.data);
      pages := pages + [page.data];
      assert rows[..n] + page.data == rows[..n + |page.data|];
      n := n + |page.data|;
      if page.nextCursor.Some? {
        ResumeAt(db, conds, col, rows, n);
      }
      token := page.nextCursor;
      more := token.Some?;
    }
    assert rows[..n] == rows;
  }

  // ----- Exactly when -----

  lemma {:induction false} AfterAtom(col: string, id: i64)
    ensures AtomOf(After(col, id)) == [Frag(col)] + [Frag(" > ")] + [Ph(0, Integer(id))]
    ensures !IsNumeral(AtomOf(After(col, id)))
  {
  }

  /** A record fails the tests for keys that are not below its own, and passes all else. */
  function PassesAllElse(col: string, r: Record, atom: seq<Tok>): Tri {
    if |atom| == 3 && atom[2].Ph? && atom[2].v.Integer? && atom == [Frag(col)] + [Frag(" > ")] + [Ph(0, atom[2].v)]
       && r.pk as int <= atom[2].v.n
    then False else True
  }

  lemma {:induction false} PassesIsKeyed(db: Table, col: string)
    requires Ascending(db.rows) && forall r, atom :: db.truth(r, atom) == PassesAllElse(col, r, atom)
    ensures Keyed(db, col)
  {
    hide AtomOf;
    forall r: Record, id: i64 | r in db.rows
      ensures db.truth(r, AtomOf(After(col, id))) == if r.pk > id then True else False
    {
      AfterAtom(col, id);
    }
  }

  lemma {:induction false} PassesNumerals(col: string, r: Record, k: nat)
    ensures PassesAllElse(col, r, [Frag(Decimal(k))]) == True
  {
  }

  /** Such a record is admitted by its first run, whatever the cursor asks for. */
  lemma {:induction false} AdmittedAnyway(ops: seq<JoinOp>, i: nat, col: string, db: Table, r: Record, after: Option<i64>)
    requires 0 < i < |ops| && ops[i].JoinOr? && forall atom :: db.truth(r, atom) == PassesAllElse(col, r, atom)
    ensures var conds := Named(ops, 0);
            var t := Read(C.ItemsToks(Postgres, if after.Some? then With(conds, After(col, after.value)) else conds, 1));
            t.Some? && Admits(db, t.value, r)
  {
    hide AtomOf, Decimal, Named, ItemVals, Read, Eval, C.ItemsToks, OrOfRuns, SolidItems, PassesAllElse;
    var row, vals, items := RowOfRecord(db, r), seq(|ops|, k => True), Named(ops, 0);
    forall k: nat | k < |vals|
      ensures row([Frag(Decimal(k))]) == vals[k]
    {
      PassesNumerals(col, r, k);
    }
    NamedValsIn(ops, 0, vals, row);
    assert vals[0..0 + |ops|] == vals;
    NamedSolid(ops);
    if after.Some? {
      var test := After(col, after.value);
      WithVals(items, test, row);
      WhereMeans(With(items, test), 1, row);
      FirstRunTrue(ItemVals(With(items, test), row), i);
    } else {
      assert items != [] by {
        assert |ItemVals(items, row)| == |items|;
      }
      WhereMeans(items, 1, row);
      FirstRunTrue(ItemVals(items, row), i);
    }
  }

  lemma {:induction false} AllSelected(db: Table, rows: seq<Record>, tree: Tree)
    requires forall r :: r in rows ==> Admits(db, tree, r)
    ensures Selected(db, rows, tree) == rows
  {
    hide Admits;
    if rows != [] {
      AllSelected(db, rows[1..], tree);
      assert rows[0] in rows;
    }
  }

  /**
   * With an OR after the first of some distinct atoms there is a table of which every page behind every cursor is the
   * first page.
   */
  lemma {:induction false} StuckTable(ops: seq<JoinOp>, i: nat, col: string) returns (db: Table)
    requires 0 < i < |ops| && ops[i].JoinOr?
    ensures Keyed(db, col) && db.rows == [Record(0, ""), Record(1, "")]
    ensures forall after: Option<i64> :: FetchAfter(db, Named(ops, 0), col, after) == Some(db.rows)
  {
    hide AtomOf, Named, Read, Eval, C.ItemsToks, PassesAllElse, Admits, Selected;
    db := Table([Record(0, ""), Record(1, "")], (r, atom) => PassesAllElse(col, r, atom));
    PassesIsKeyed(db, col);
    forall after: Option<i64>
      ensures FetchAfter(db, Named(ops, 0), col, after) == Some(db.rows)
    {
      forall r | r in db.rows
        ensures var conds := if after.Some? then With(Named(ops, 0), After(col, after.value)) else Named(ops, 0);
                var t := Read(C.ItemsToks(Postgres, conds, 1));
                t.Some? && Admits(db, t.value, r)
      {
        AdmittedAnyway(ops, i, col, db, r, after);
      }
      var conds := if after.Some? then With(Named(ops, 0), After(col, after.value)) else Named(ops, 0);
      NamedSolid(ops);
      assert |ItemOps(Named(ops, 0))| == |Named(ops, 0)|;
      assert db.rows[0] in db.rows;
      AllSelected(db, db.rows, Read(C.ItemsToks(Postgres, conds, 1)).value);
    }
  }

  /** The page reached after following `next_cursor` `k` times, if the walk gets that far. */
  function NthPage(db: Table, conds: seq<C.Item>, col: string, perPage: nat, k: nat): Option<CursorPage>
    requires perPage >= 1
  {
    if k == 0 then PageAfter(db, conds, col, perPage, None)
    else
      var before := NthPage(db, conds, col, perPage, k - 1);
      if before.None? || before.value.nextCursor.None? then None
      else PageAfter(db, conds, col, perPage, CursorId(before.value.nextCursor))
  }

  /**
   * With an OR after the first of some distinct atoms there is a table whose walk never ends and shows its first row
   * for ever.
   */
  lemma {:induction false} WalkNeverEnds(ops: seq<JoinOp>, i: nat, col: string) returns (db: Table)
    requires 0 < i < |ops| && ops[i].JoinOr?
    ensures Keyed(db, col) && |db.rows| == 2
    ensures forall k: nat :: var page := NthPage(db, Named(ops, 0), col, 1, k);
              page.Some? && page.value.data == [db.rows[0]] && page.value.nextCursor.Some?
  {
    hide AtomOf, Named, FetchAfter, CursorId;
    db := StuckTable(ops, i, col);
    forall k: nat
      ensures var page := NthPage(db, Named(ops, 0), col, 1, k);
              page.Some? && page.value.data == [db.rows[0]] && page.value.nextCursor.Some?
    {
      Stuck(db, Named(ops, 0), col, k);
    }
  }

  lemma {:induction false} Stuck(db: Table, conds: seq<C.Item>, col: string, k: nat)
    requires |db.rows| == 2 && forall after: Option<i64> :: FetchAfter(db, conds, col, after) == Some(db.rows)
    ensures var page := NthPage(db, conds, col, 1, k);
            page.Some? && page.value.data == [db.rows[0]] && page.value.nextCursor.Some?
  {
    hide FetchAfter, CursorId, EncodeCursor;
    if k > 0 {
      Stuck(db, conds, col, k - 1);
    }
  }

  /** What a cursor leads to, on every table: the rows of the whole result with a higher key. */
  ghost predicate CursorsResume(ops: seq<JoinOp>, col: string) {
    forall db: Table, id: i64 :: Keyed(db, col) ==> ResumesIn(db, Named(ops, 0), col, id)
  }

  predicate ResumesIn(db: Table, conds: seq<C.Item>, col: string, id: i64) {
    Fetch(db, conds).Some? && FetchAfter(db, conds, col, Some(id)) == Some(Above(Fetch(db, conds).value, id))
  }

  /** With distinct atoms cursors lead on, on every table, exactly when no atom but the first is joined by OR. */
  lemma {:induction false} CursorsResumeIff(ops: seq<JoinOp>, col: string)
    ensures CursorsResume(ops, col) <==> OnlyAnds(ops)
  {
    hide Named, Fetch, FetchAfter, Keyed;
    NamedSolid(ops);
    if OnlyAnds(ops) {
      forall db: Table, id: i64 | Keyed(db, col)
        ensures ResumesIn(db, Named(ops, 0), col, id)
      {
        FetchAbove(db, Named(ops, 0), col, id);
      }
    } else {
      var i :| 0 < i < |ops| && !ops[i].JoinAnd?;
      var db := StuckTable(ops, i, col);
      StartsBefore(db, Named(ops, 0), col);
      FirstFetch(db, Named(ops, 0), col);
      AboveSplit(db.rows, 1, 0);
      assert !ResumesIn(db, Named(ops, 0), col, 0);
    }
  }

  lemma {:induction false} FirstFetch(db: Table, conds: seq<C.Item>, col: string)
    ensures FetchAfter(db, conds, col, None) == Fetch(db, conds)
  {
  }
}
