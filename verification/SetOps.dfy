/** Set operations on row lists, and the words that ask for them. */
module SetOps {
  import opened Text
  import opened Values
  import opened Queries

  datatype Verb = Unite | Meet | Subtract

  /** What the words between two SELECTs ask for; without ALL no row occurs twice. */
  datatype Combination = Combination(verb: Verb, all: bool)

  // ----- How often a row occurs -----

  function Min(a: nat, b: nat): nat {
    if a < b then a else b
  }

  /** How often a row occurs in the result, from how often it occurs on either side. */
  function Times(c: Combination, left: nat, right: nat): nat {
    if c.all then
      match c.verb
      case Unite => left + right
      case Meet => Min(left, right)
      case Subtract => if left > right then left - right else 0
    else
      match c.verb
      case Unite => if left > 0 || right > 0 then 1 else 0
      case Meet => if left > 0 && right > 0 then 1 else 0
      case Subtract => if left > 0 && right == 0 then 1 else 0
  }

  /** The rows of the result, in no particular order. */
  ghost predicate Combines<R(!new)>(c: Combination, left: multiset<R>, right: multiset<R>, out: multiset<R>) {
    forall r: R :: out[r] == Times(c, left[r], right[r])
  }

  // ----- What was asked for -----

  /** The rows that a set operation of the builder stands for. */
  ghost predicate Asks<R(!new)>(k: SetKind, left: multiset<R>, right: multiset<R>, out: multiset<R>) {
    match k
    case Union => (forall r: R :: r in out <==> r in left || r in right) && NoneTwice(out)
    case UnionAll => out == left + right
    case Intersect => (forall r: R :: r in out <==> r in left && r in right) && NoneTwice(out)
    case IntersectAll => out == left * right
    case Except => (forall r: R :: r in out <==> r in left && r !in right) && NoneTwice(out)
    case ExceptAll => out == left - right
  }

  ghost predicate NoneTwice<R(!new)>(m: multiset<R>) {
    forall r: R :: m[r] <= 1
  }

  // ----- Reading the words -----

  /** The words of a text, each without the blanks around it. */
  function Words(s: string): seq<string> {
    if s == "" then []
    else if s[0] == ' ' then Words(s[1..])
    else [s[..WordRun(s)]] + Words(s[WordRun(s)..])
  }

  function ReadVerb(word: string): Option<Verb> {
    if word == "UNION" then Some(Unite)
    else if word == "INTERSECT" then Some(Meet)
    else if word == "EXCEPT" then Some(Subtract)
    else None
  }

  /** A verb, ALL if it is there, and SELECT. */
  function ReadCombination(s: string): Option<Combination> {
    var ws := Words(s);
    if ws == [] || ReadVerb(ws[0]).None? then None
    else if ws[1..] == ["SELECT"] then Some(Combination(ReadVerb(ws[0]).value, false))
    else if ws[1..] == ["ALL", "SELECT"] then Some(Combination(ReadVerb(ws[0]).value, true))
    else None
  }

  lemma {:induction false} NextWord(w: string, rest: string)
    requires w != "" && ' ' !in w && (rest == "" || rest[0] == ' ')
    ensures Words(" " + w + rest) == [w] + Words(rest)
  {
    var s := " " + w + rest;
    assert s[1..] == w + rest;
    WordRunOf(w, rest);
    assert (w + rest)[0] == w[0] && w[0] in w;
    assert (w + rest)[..|w|] == w && (w + rest)[|w|..] == rest;
  }

  lemma {:induction false} LastBlank()
    ensures Words(" ") == []
  {
    assert " "[1..] == "";
  }

  lemma {:induction false} TwoWords(a: string, b: string)
    requires a != "" && ' ' !in a && b != "" && ' ' !in b
    ensures Words(" " + a + " " + b + " ") == [a, b]
  {
    hide Words;
    NextWord(a, " " + b + " ");
    NextWord(b, " ");
    LastBlank();
    assert " " + a + (" " + b + " ") == " " + a + " " + b + " ";
  }

  lemma {:induction false} ThreeWords(a: string, b: string, c: string)
    requires a != "" && ' ' !in a && b != "" && ' ' !in b && c != "" && ' ' !in c
    ensures Words(" " + a + " " + b + " " + c + " ") == [a, b, c]
  {
    hide Words;
    NextWord(a, " " + b + " " + c + " ");
    TwoWords(b, c);
    assert " " + a + (" " + b + " " + c + " ") == " " + a + " " + b + " " + c + " ";
  }

  function Meant(k: SetKind): Combination {
    match k
    case Union => Combination(Unite, false)
    case UnionAll => Combination(Unite, true)
    case Intersect => Combination(Meet, false)
    case IntersectAll => Combination(Meet, true)
    case Except => Combination(Subtract, false)
    case ExceptAll => Combination(Subtract, true)
  }

  lemma {:induction false} KindReads(k: SetKind)
    ensures ReadCombination(" " + KindText(k) + " SELECT ") == Some(Meant(k))
  {
    var verb := if k.Union? || k.UnionAll? then "UNION" else if k.Intersect? || k.IntersectAll? then "INTERSECT" else "EXCEPT";
    if Meant(k).all {
      KindHasAll(k, verb);
      hide KindText, ReadCombination;
      AllReads(verb);
    } else {
      assert KindText(k) == verb;
      hide KindText, ReadCombination;
      PlainReads(verb);
    }
  }

  lemma {:induction false} AllReads(verb: string)
    requires ReadVerb(verb).Some? && verb != "" && ' ' !in verb
    ensures ReadCombination(" " + (verb + " ALL") + " SELECT ") == Some(Combination(ReadVerb(verb).value, true))
  {
    hide Words, ReadVerb;
    ThreeWords(verb, "ALL", "SELECT");
    assert " " + (verb + " ALL") + " SELECT " == " " + verb + " " + "ALL" + " " + "SELECT" + " ";
    assert [verb, "ALL", "SELECT"][1..] == ["ALL", "SELECT"];
  }

  lemma {:induction false} PlainReads(verb: string)
    requires ReadVerb(verb).Some? && verb != "" && ' ' !in verb
    ensures ReadCombination(" " + verb + " SELECT ") == Some(Combination(ReadVerb(verb).value, false))
  {
    hide Words, ReadVerb;
    TwoWords(verb, "SELECT");
    assert " " + verb + " SELECT " == " " + verb + " " + "SELECT" + " ";
    assert [verb, "SELECT"][1..] == ["SELECT"];
  }

  lemma {:induction false} KindHasAll(k: SetKind, verb: string)
    requires Meant(k).all
    requires verb == if k.UnionAll? then "UNION" else if k.IntersectAll? then "INTERSECT" else "EXCEPT"
    ensures KindText(k) == verb + " ALL"
  {
    match k
    case UnionAll => assert "UNION" + " ALL" == "UNION ALL";
    case IntersectAll => assert "INTERSECT" + " ALL" == "INTERSECT ALL";
    case ExceptAll => assert "EXCEPT" + " ALL" == "EXCEPT ALL";
  }

  /** What the words are read to combine is what the operation asks for, on all rows of both sides. */
  lemma {:induction false} MeantIsAsked<R(!new)>(k: SetKind, left: multiset<R>, right: multiset<R>, out: multiset<R>)
    ensures Combines(Meant(k), left, right, out) <==> Asks(k, left, right, out)
  {
    var c := Meant(k);
    if Combines(c, left, right, out) {
      assert forall r: R :: out[r] == Times(c, left[r], right[r]);
      assert forall r: R :: (left + right)[r] == left[r] + right[r];
      assert forall r: R :: (left * right)[r] == Min(left[r], right[r]);
      assert forall r: R :: (left - right)[r] == if left[r] > right[r] then left[r] - right[r] else 0;
      assert Asks(k, left, right, out);
    } else {
      var r: R :| out[r] != Times(c, left[r], right[r]);
      assert (left + right)[r] == left[r] + right[r];
      assert (left * right)[r] == Min(left[r], right[r]);
      assert (left - right)[r] == if left[r] > right[r] then left[r] - right[r] else 0;
      assert r in out <==> out[r] > 0;
    }
  }

  // ----- A set operation on the right side of another -----

  /** INTERSECT binds tighter than the others, which are taken from left to right. */
  function AsRead(a: Combination, b: Combination, x: nat, y: nat, z: nat): nat {
    if b.verb.Meet? && !a.verb.Meet? then Times(a, x, Times(b, y, z)) else Times(b, Times(a, x, y), z)
  }

  /** The builder means the operation on the right to be done first. */
  function AsBuilt(a: Combination, b: Combination, x: nat, y: nat, z: nat): nat {
    Times(a, x, Times(b, y, z))
  }

  predicate Associates(a: Combination, b: Combination) {
    b.verb.Meet? || (a == b && a.verb.Unite?) || (a.verb.Meet? && b == Combination(Subtract, false))
  }

  /**
   * A statement with two set operations means what was built, on all rows of the three sides, exactly when the second
   * is an INTERSECT, or both are UNION or both UNION ALL, or an EXCEPT follows an INTERSECT.
   */
  lemma {:induction false} NestedSetIff(a: Combination, b: Combination)
    ensures (forall x: nat, y: nat, z: nat :: AsRead(a, b, x, y, z) == AsBuilt(a, b, x, y, z)) <==> Associates(a, b)
  {
    if Associates(a, b) {
      forall x: nat, y: nat, z: nat
        ensures AsRead(a, b, x, y, z) == AsBuilt(a, b, x, y, z)
      {
      }
    } else {
      Witness(a, b);
    }
  }

  lemma {:induction false} Witness(a: Combination, b: Combination)
    requires !Associates(a, b)
    ensures exists x: nat, y: nat, z: nat :: AsRead(a, b, x, y, z) != AsBuilt(a, b, x, y, z)
  {
    if AsRead(a, b, 0, 0, 1) != AsBuilt(a, b, 0, 0, 1) {
    } else if AsRead(a, b, 1, 0, 1) != AsBuilt(a, b, 1, 0, 1) {
    } else if AsRead(a, b, 0, 0, 2) != AsBuilt(a, b, 0, 0, 2) {
    } else if AsRead(a, b, 0, 2, 1) != AsBuilt(a, b, 0, 2, 1) {
    } else {
      assert AsRead(a, b, 1, 2, 1) != AsBuilt(a, b, 1, 2, 1);
    }
  }
}
