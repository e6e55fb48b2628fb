/**
 * `agrupar_mov`: one movement log summed per product id, and the left
 * join that reads a product's total out of the result (0 when the id has
 * no rows).
 */
module Movements {
  import opened Records

  /** The ids that occur in a movement log. */
  function Ids(rows: seq<Movement>): set<string>
  {
    set r | r in rows :: r.productId
  }

  /** The sum of the coerced quantities of the rows that carry `id`. */
  function SumFor(rows: seq<Movement>, id: string): int
  {
    if rows == [] then 0
    else (if rows[0].productId == id then Coerce(rows[0].quantity) else 0) + SumFor(rows[1..], id)
  }

  /** The grouped table `agrupar_mov` returns, read as a map from id to total. */
  function Grouped(rows: seq<Movement>): map<string, int>
  {
    map id | id in Ids(rows) :: SumFor(rows, id)
  }

  /** The value a left join plus `fillna(0)` gives a product: its total, or 0 when unmatched. */
  function Term(totals: map<string, int>, id: string): int
  {
    if id in totals then totals[id] else 0
  }

  /** An id with no rows sums to 0. */
  lemma {:induction false} SumForAbsent(rows: seq<Movement>, id: string)
    requires id !in Ids(rows)
    ensures SumFor(rows, id) == 0
  {
    if rows != [] {
      assert Ids(rows[1..]) <= Ids(rows) by {
        forall r | r in rows[1..] ensures r in rows { }
      }
      SumForAbsent(rows[1..], id);
    }
  }

  /** Sums over two consecutive stretches of a log add up. */
  lemma {:induction false} SumForAppend(a: seq<Movement>, b: seq<Movement>, id: string)
    ensures SumFor(a + b, id) == SumFor(a, id) + SumFor(b, id)
  {
    if a == [] {
      assert a + b == b;
    } else {
      assert (a + b)[1..] == a[1..] + b;
      SumForAppend(a[1..], b, id);
    }
  }

  /** The total an id gets does not depend on the order of the rows. */
  lemma {:induction false} SumForPermutation(a: seq<Movement>, b: seq<Movement>, id: string)
    requires multiset(a) == multiset(b)
    ensures SumFor(a, id) == SumFor(b, id)
    decreases |a|
  {
    if a != [] {
      var x := a[0];
      assert x in multiset(b);
      var j :| 0 <= j < |b| && b[j] == x;
      var rest := b[..j] + b[j + 1..];
      assert b == b[..j] + [x] + b[j + 1..];
      assert a == [x] + a[1..];
      assert SumFor(a, id) == SumFor([x], id) + SumFor(a[1..], id);
      assert multiset(b) == multiset(b[..j]) + multiset{x} + multiset(b[j + 1..]);
      assert multiset(rest) == multiset(b[..j]) + multiset(b[j + 1..]);
      assert multiset(a) == multiset{x} + multiset(a[1..]);
      assert multiset(a[1..]) == multiset(a) - multiset{x};
      assert multiset(rest) == multiset(b) - multiset{x};
      SumForPermutation(a[1..], rest, id);
      SumForRemoveAt(b, j, id);
    }
  }

  /** Taking row `j` out of a log takes exactly that row's share out of each id's total. */
  lemma SumForRemoveAt(b: seq<Movement>, j: nat, id: string)
    requires j < |b|
    ensures SumFor(b, id) == SumFor([b[j]], id) + SumFor(b[..j] + b[j + 1..], id)
  {
    assert b == b[..j] + [b[j]] + b[j + 1..];
    SumForAppend(b[..j] + [b[j]], b[j + 1..], id);
    SumForAppend(b[..j], [b[j]], id);
    SumForAppend(b[..j], b[j + 1..], id);
  }

  /**
   * Absent means zero: reading any id out of the grouped log gives that
   * id's total, and an id the log never mentions reads as exactly 0.
   */
  lemma {:induction false} TermOfGrouped(rows: seq<Movement>, id: string)
    ensures Term(Grouped(rows), id) == SumFor(rows, id)
    ensures id !in Ids(rows) ==> id !in Grouped(rows) && Term(Grouped(rows), id) == 0
  {
    if id !in Ids(rows) {
      SumForAbsent(rows, id);
    }
  }

  /** An unreadable log groups to the empty mapping, so every term drawn from it is 0. */
  lemma GroupedEmpty(id: string)
    ensures Grouped([]) == map[]
    ensures Term(Grouped([]), id) == 0
  {
    assert Ids([]) == {};
  }

  /**
   * Appending one row adds its coerced quantity to its id's group and
   * leaves every other group alone; a row whose quantity is not a number
   * still creates or keeps its group, contributing 0.
   */
  lemma GroupedSnoc(rows: seq<Movement>, r: Movement)
    ensures Grouped(rows + [r]) == Grouped(rows)[r.productId := Term(Grouped(rows), r.productId) + Coerce(r.quantity)]
  {
    var m := Grouped(rows);
    var m' := Grouped(rows + [r]);
    var expected := m[r.productId := Term(m, r.productId) + Coerce(r.quantity)];
    assert Ids(rows + [r]) == Ids(rows) + {r.productId} by {
      forall x | x in rows + [r] ensures x in rows || x == r { }
      forall x | x in rows ensures x in rows + [r] { }
    }
    forall id | id in m'
      ensures m'[id] == expected[id]
    {
      SumForAppend(rows, [r], id);
      assert SumFor([r], id) == (if r.productId == id then Coerce(r.quantity) else 0);
      TermOfGrouped(rows, id);
    }
    assert m'.Keys == expected.Keys;
  }

  /** Permuting the rows of a movement log leaves the grouped result unchanged. */
  lemma GroupedPermutation(a: seq<Movement>, b: seq<Movement>)
    requires multiset(a) == multiset(b)
    ensures Grouped(a) == Grouped(b)
  {
    assert Ids(a) == Ids(b) by {
      forall x | x in a ensures x in b { assert x in multiset(a); }
      forall x | x in b ensures x in a { assert x in multiset(b); }
    }
    forall id | id in Ids(a)
      ensures SumFor(a, id) == SumFor(b, id)
    {
      SumForPermutation(a, b, id);
    }
  }

  /**
   * `agrupar_mov` (app.py): an empty log gives an empty mapping; otherwise
   * every row is visited once, its quantity coerced and added to its id's
   * running total. Each id occurs once in the result, mapped to the sum of
   * that id's coerced quantities.
   */
  method GroupMovements(rows: seq<Movement>) returns (totals: map<string, int>)
    ensures totals.Keys == Ids(rows)
    ensures forall id :: id in totals ==> totals[id] == SumFor(rows, id)
    ensures totals == Grouped(rows)
  {
    if |rows| == 0 {
      GroupedEmpty("");
      return map[];
    }
    totals := map[];
    var i := 0;
    while i < |rows|
      invariant 0 <= i <= |rows|
      invariant totals == Grouped(rows[..i])
    {
      var row := rows[i];
      var prior := if row.productId in totals then totals[row.productId] else 0;
      GroupedSnoc(rows[..i], row);
      assert rows[..i + 1] == rows[..i] + [row];
      totals := totals[row.productId := prior + Coerce(row.quantity)];
      i := i + 1;
    }
    assert rows[..i] == rows;
  }
}
