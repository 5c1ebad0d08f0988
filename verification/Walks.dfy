/** Walking a result in chunks. */
module Walks {
  import opened Values
  import opened Cursor

  /** A record with its integer primary key; the rest of it is opaque. */
  datatype Record = Record(pk: i64, data: string)

  function Take(rows: seq<Record>, n: nat): seq<Record> {
    if n < |rows| then rows[..n] else rows
  }

  function Drop(rows: seq<Record>, n: nat): seq<Record> {
    if n < |rows| then rows[n..] else []
  }

  function Concat(batches: seq<seq<Record>>): seq<Record> {
    if batches == [] then [] else batches[0] + Concat(batches[1..])
  }

  lemma {:induction false} ConcatSnoc(batches: seq<seq<Record>>, last: seq<Record>)
    ensures Concat(batches + [last]) == Concat(batches) + last
  {
    if batches == [] {
      assert [] + [last] == [last] && [last][1..] == [];
    } else {
      ConcatSnoc(batches[1..], last);
      assert (batches + [last])[1..] == batches[1..] + [last];
    }
  }

  // ----- Chunks -----

  /** The batches of a result, the last one being the first that is not full. */
  function Chunks(rows: seq<Record>, size: nat): (batches: seq<seq<Record>>)
    requires size >= 1
    decreases |rows|
  {
    if |rows| < size then [rows] else [rows[..size]] + Chunks(rows[size..], size)
  }

  /** Batches are handed over until one is not full, or the callback refuses the batch numbered `refuses`. */
  method Chunk(rows: seq<Record>, size: nat, refuses: Option<nat>) returns (handed: seq<seq<Record>>, ok: bool)
    requires size >= 1
    ensures var all := Chunks(rows, size);
            if refuses.Some? && refuses.value < |all| then handed == all[..refuses.value + 1] && !ok
            else handed == all && ok
  {
    hide Chunks, Take, Drop;
    handed := [];
    var offset := 0;
    ghost var all, rest := Chunks(rows, size), Chunks(rows, size);
    assert rows[0..] == rows;
    var isLast := false;
    while !isLast
      invariant all == handed + rest
      invariant if isLast then rest == [] else offset <= |rows| && rest == Chunks(rows[offset..], size)
      invariant refuses.Some? ==> refuses.value >= |handed|
      decreases !isLast, |rows| - offset
    {
      var batch := Take(Drop(rows, offset), size);
      isLast := |batch| < size;
      ChunkStep(rows, size, offset, batch);
      assert rest[0] == batch && rest == [batch] + rest[1..];
      handed, rest := handed + [batch], rest[1..];
      if refuses == Some(|handed| - 1) {
        assert handed == all[..|handed|];
        return handed, false;
      }
      offset := offset + size;
    }
    return handed, true;
  }

  lemma {:induction false} ChunkStep(rows: seq<Record>, size: nat, offset: nat, batch: seq<Record>)
    requires size >= 1 && offset <= |rows| && batch == Take(Drop(rows, offset), size)
    ensures if |batch| < size then Chunks(rows[offset..], size) == [batch]
            else offset + size <= |rows| && Chunks(rows[offset..], size) == [batch] + Chunks(rows[offset + size..], size)
  {
    assert Drop(rows, offset) == rows[offset..];
    if |batch| >= size {
      assert rows[offset..][..size] == batch;
      assert rows[offset..][size..] == rows[offset + size..];
    }
  }

  /** The batches concatenate to the whole result; all are full but the last, which is not. */
  lemma {:induction false} ChunksCover(rows: seq<Record>, size: nat)
    requires size >= 1
    ensures Concat(Chunks(rows, size)) == rows
    ensures var n := |Chunks(rows, size)|;
            && n == |rows| / size + 1
            && (forall i :: 0 <= i < n - 1 ==> |Chunks(rows, size)[i]| == size)
            && |Chunks(rows, size)[n - 1]| == |rows| % size
    decreases |rows|
  {
    if |rows| < size {
      assert [rows][1..] == [];
      SmallQuotient(|rows|, size);
    } else {
      var rest := Chunks(rows[size..], size);
      ChunksCover(rows[size..], size);
      StepQuotient(|rows|, size);
      assert Chunks(rows, size)[1..] == rest;
      assert rows == rows[..size] + rows[size..];
    }
  }

  lemma {:induction false} SmallQuotient(n: nat, d: nat)
    requires n < d
    ensures n / d == 0 && n % d == n
  {
  }

  lemma {:induction false} StepQuotient(n: nat, d: nat)
    requires 0 < d <= n
    ensures n / d == (n - d) / d + 1 && n % d == (n - d) % d
  {
    var q, r := (n - d) / d, (n - d) % d;
    assert n == (q + 1) * d + r;
    DivisionUnique(n, d, q + 1, r);
  }

  lemma {:induction false} DivisionUnique(n: nat, d: nat, q: nat, r: nat)
    requires n == q * d + r && r < d
    ensures n / d == q && n % d == r
  {
    var q', r' := n / d, n % d;
    assert n == q' * d + r';
    assert (q - q') * d == r' - r;
    Multiple(q - q', d);
  }

  lemma {:induction false} Multiple(k: int, d: nat)
    ensures k >= 1 ==> k * d >= d
    ensures k <= -1 ==> k * d + d <= 0
  {
  }
}
