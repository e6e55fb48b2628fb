/**
 * The dashboard's row filters over a ledger: the stock > 0 view, the
 * critical-stock count, the pharmacy's expiry window and its
 * name / active-ingredient search.
 */
module Views {
  import opened Wrappers
  import opened Records
  import opened Tables

  /** Stock at or below this level is critical. */
  const CRITICAL_STOCK := 5

  /** The expiry window counts a month as this many days. */
  const DAYS_PER_MONTH := 30

  predicate InStock(e: Entry) { e.stock > 0 }

  predicate OutOfStock(e: Entry) { e.stock <= 0 }

  predicate IsCritical(e: Entry) { e.stock <= CRITICAL_STOCK }

  predicate AboveCritical(e: Entry) { e.stock > CRITICAL_STOCK }

  /** The rows a location's table shows: those with positive stock, in ledger order. */
  function VisibleRows(ledger: seq<Entry>): seq<Entry>
  {
    Filter(InStock, ledger)
  }

  /** The critical-stock metric: the number of ledger rows with stock at most 5. */
  function CriticalCount(ledger: seq<Entry>): nat
  {
    |Filter(IsCritical, ledger)|
  }

  /** The view holds exactly the rows with positive stock, each as often as the ledger does. */
  lemma VisibleRowsExact(ledger: seq<Entry>)
    ensures forall e :: e in VisibleRows(ledger) <==> e in ledger && e.stock > 0
    ensures forall e :: multiset(VisibleRows(ledger))[e] == if e.stock > 0 then multiset(ledger)[e] else 0
  {
    FilterMembers(InStock, ledger);
    FilterCount(InStock, ledger);
  }

  /**
   * The critical count is taken over the whole ledger, not over the view:
   * it is the number of rows not above 5, and it includes every row the
   * view hides because its stock is zero or negative.
   */
  lemma CriticalCountCoversHiddenRows(ledger: seq<Entry>)
    ensures CriticalCount(ledger) == |ledger| - |Filter(AboveCritical, ledger)|
    ensures CriticalCount(ledger) >= |ledger| - |VisibleRows(ledger)|
  {
    FilterComplement(IsCritical, AboveCritical, ledger);
    FilterComplement(InStock, OutOfStock, ledger);
    FilterMonotone(OutOfStock, IsCritical, ledger);
  }

  /**
   * The expiry window: a row whose expiry date parsed, falls on or after
   * today, and lies at most `months` * 30 days ahead. A date that did
   * not parse never satisfies the comparisons.
   */
  predicate ExpiresWithin(e: Entry, today: int, months: int)
  {
    match e.product.expiry
    case None => false
    case Some(day) => day >= today && day - today <= months * DAYS_PER_MONTH
  }

  /** ASCII case folding, as used for the case-insensitive search. */
  function Lower(c: char): char
  {
    if 'A' <= c <= 'Z' then (c as int + 32) as char else c
  }

  function LowerText(s: string): string
  {
    seq(|s|, i requires 0 <= i < |s| => Lower(s[i]))
  }

  /** True when `term` occurs as a contiguous piece of `text`. */
  predicate ContainsText(text: string, term: string)
    decreases |text|
  {
    term <= text || (text != [] && ContainsText(text[1..], term))
  }

  /** The search mask: the term occurs, ignoring case, in the product name or its active ingredient. */
  predicate MatchesSearch(e: Entry, term: string)
  {
    ContainsText(LowerText(e.product.name), LowerText(term))
    || ContainsText(LowerText(e.product.ingredient), LowerText(term))
  }

  /** The search is applied only when a term was typed. */
  function SearchRows(rows: seq<Entry>, term: string): seq<Entry>
  {
    if term == "" then rows else Filter(e => MatchesSearch(e, term), rows)
  }

  /** The pharmacy table: positive stock, then the expiry window, then the search. */
  function PharmacyView(ledger: seq<Entry>, today: int, months: int, term: string): seq<Entry>
  {
    SearchRows(Filter(e => ExpiresWithin(e, today, months), VisibleRows(ledger)), term)
  }

  /** The warehouse table: positive stock only. */
  function WarehouseView(ledger: seq<Entry>): seq<Entry>
  {
    VisibleRows(ledger)
  }

  /** The warehouse table holds exactly the ledger rows with positive stock, in ledger order. */
  lemma WarehouseViewExact(ledger: seq<Entry>)
    ensures forall e :: e in WarehouseView(ledger) <==> e in ledger && e.stock > 0
    ensures forall e :: multiset(WarehouseView(ledger))[e] == if e.stock > 0 then multiset(ledger)[e] else 0
  {
    VisibleRowsExact(ledger);
  }

  /** Whether the pharmacy table shows a ledger row. */
  predicate Shown(e: Entry, today: int, months: int, term: string)
  {
    e.stock > 0 && ExpiresWithin(e, today, months) && (term == "" || MatchesSearch(e, term))
  }

  /**
   * The three pharmacy filters in a row are one mask over the ledger: the
   * table is the ledger's rows that are in stock, expire within the window
   * and match the search, in ledger order.
   */
  lemma PharmacyViewExact(ledger: seq<Entry>, today: int, months: int, term: string)
    ensures PharmacyView(ledger, today, months, term) == Filter(e => Shown(e, today, months, term), ledger)
    ensures forall e :: e in PharmacyView(ledger, today, months, term) <==> e in ledger && Shown(e, today, months, term)
  {
    var expiring := e => ExpiresWithin(e, today, months);
    var current := e => InStock(e) && ExpiresWithin(e, today, months);
    var shown := e => Shown(e, today, months, term);
    FilterFilter(expiring, InStock, current, ledger);
    if term == "" {
      assert forall e :: current(e) == shown(e);
      FilterSameMask(current, shown, ledger);
    } else {
      FilterFilter(e => MatchesSearch(e, term), current, shown, ledger);
    }
    FilterMembers(shown, ledger);
  }

  /**
   * With the month setting between 1 and 12, every row the pharmacy table
   * shows is in stock and expires between today and 360 days from today.
   */
  lemma PharmacyViewWithinWindow(ledger: seq<Entry>, today: int, months: int, term: string)
    requires 1 <= months <= 12
    ensures forall e :: e in PharmacyView(ledger, today, months, term) ==>
      e.stock > 0 && e.product.expiry.Some? && today <= e.product.expiry.value <= today + 360
  {
    PharmacyViewExact(ledger, today, months, term);
  }

  /** Two masks that agree on every row keep the same rows. */
  lemma {:induction false} FilterSameMask(f: Entry -> bool, g: Entry -> bool, s: seq<Entry>)
    requires forall x :: f(x) == g(x)
    ensures Filter(f, s) == Filter(g, s)
  {
    if s != [] {
      FilterSameMask(f, g, s[1..]);
    }
  }

  /** `term` occupies the window of `text` that starts at `k`. */
  predicate OccursAt(text: string, term: string, k: int)
  {
    0 <= k <= |text| - |term| && text[k..k + |term|] == term
  }

  /** The recursive substring test agrees with "some window of the text equals the term". */
  lemma {:induction false} ContainsTextAt(text: string, term: string)
    ensures ContainsText(text, term) <==> exists k :: OccursAt(text, term, k)
    decreases |text|
  {
    if term <= text {
      assert OccursAt(text, term, 0);
    } else if text == [] {
    } else {
      ContainsTextAt(text[1..], term);
      if exists k :: OccursAt(text, term, k) {
        var k :| OccursAt(text, term, k);
        assert k != 0;
        assert text[1..][k - 1..k - 1 + |term|] == term;
        assert OccursAt(text[1..], term, k - 1);
      }
      if ContainsText(text[1..], term) {
        var k :| OccursAt(text[1..], term, k);
        assert text[k + 1..k + 1 + |term|] == term;
        assert OccursAt(text, term, k + 1);
      }
    }
  }

  /** Folding case twice is folding it once. */
  lemma LowerTextIdempotent(s: string)
    ensures LowerText(LowerText(s)) == LowerText(s)
  {
  }

  /** The search ignores how the term is capitalised. */
  lemma SearchIgnoresTermCase(e: Entry, term: string)
    ensures MatchesSearch(e, term) <==> MatchesSearch(e, LowerText(term))
  {
    LowerTextIdempotent(term);
  }
}
