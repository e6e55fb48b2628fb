/**
 * Row filters over ordered tables. A boolean mask applied to a table
 * (`df[mask]`) keeps the rows the mask selects, in their original order;
 * `Filter` is that operation on a sequence of rows.
 */
module Tables {

  /** The rows of `s` that satisfy `f`, in the order they appear in `s`. */
  function Filter<T(==,!new)>(f: T -> bool, s: seq<T>): (r: seq<T>)
    ensures |r| <= |s|
  {
    if s == [] then []
    else (if f(s[0]) then [s[0]] else []) + Filter(f, s[1..])
  }

  /** A row is kept exactly when it is in the table and satisfies the mask. */
  lemma {:induction false} FilterMembers<T(!new)>(f: T -> bool, s: seq<T>)
    ensures forall x :: x in Filter(f, s) <==> x in s && f(x)
  {
    if s != [] {
      FilterMembers(f, s[1..]);
      assert s == [s[0]] + s[1..];
    }
  }

  /** Each row the mask selects is kept as many times as it occurs; every other row, never. */
  lemma {:induction false} FilterCount<T(!new)>(f: T -> bool, s: seq<T>)
    ensures forall x :: multiset(Filter(f, s))[x] == if f(x) then multiset(s)[x] else 0
  {
    if s != [] {
      FilterCount(f, s[1..]);
      assert s == [s[0]] + s[1..];
    }
  }

  /** Filtering distributes over concatenation: the mask never reorders rows. */
  lemma {:induction false} FilterAppend<T(!new)>(f: T -> bool, a: seq<T>, b: seq<T>)
    ensures Filter(f, a + b) == Filter(f, a) + Filter(f, b)
  {
    if a == [] {
      assert a + b == b;
    } else {
      var head := if f(a[0]) then [a[0]] else [];
      assert (a + b)[0] == a[0];
      assert (a + b)[1..] == a[1..] + b;
      FilterAppend(f, a[1..], b);
      calc {
        Filter(f, a + b);
        head + Filter(f, a[1..] + b);
        head + (Filter(f, a[1..]) + Filter(f, b));
        (head + Filter(f, a[1..])) + Filter(f, b);
        Filter(f, a) + Filter(f, b);
      }
    }
  }

  /** A mask and its negation split a table: every row is counted by exactly one of them. */
  lemma {:induction false} FilterComplement<T(!new)>(f: T -> bool, g: T -> bool, s: seq<T>)
    requires forall x :: g(x) == !f(x)
    ensures |Filter(f, s)| + |Filter(g, s)| == |s|
  {
    if s != [] {
      FilterComplement(f, g, s[1..]);
    }
  }

  /** Applying one mask after another is applying their conjunction once. */
  lemma {:induction false} FilterFilter<T(!new)>(f: T -> bool, g: T -> bool, h: T -> bool, s: seq<T>)
    requires forall x :: h(x) == (g(x) && f(x))
    ensures Filter(f, Filter(g, s)) == Filter(h, s)
  {
    if s != [] {
      var rest := Filter(g, s[1..]);
      FilterFilter(f, g, h, s[1..]);
      if g(s[0]) {
        assert Filter(g, s) == [s[0]] + rest;
        FilterAppend(f, [s[0]], rest);
        assert Filter(f, [s[0]]) == (if f(s[0]) then [s[0]] else []);
      } else {
        assert Filter(g, s) == rest;
      }
    }
  }

  /** A weaker mask never keeps more rows than a stronger one lets through. */
  lemma {:induction false} FilterMonotone<T(!new)>(f: T -> bool, g: T -> bool, s: seq<T>)
    requires forall x :: f(x) ==> g(x)
    ensures |Filter(f, s)| <= |Filter(g, s)|
  {
    if s != [] {
      FilterMonotone(f, g, s[1..]);
    }
  }
}
