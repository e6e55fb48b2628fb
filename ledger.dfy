/**
 * The two location ledgers: the group filter on each catalog, the left
 * join of the catalog against the grouped movement logs, and each
 * location's `Stock_Real` formula.
 */
module Ledger {
  import opened Records
  import opened Tables
  import opened Movements

  /** A catalog row in one of the two tracked groups. */
  predicate IsTracked(p: Product)
  {
    p.group == "FARMACIA" || p.group == "CAFETIN"
  }

  /** The group filter applied to a catalog as soon as it is loaded. */
  function TrackedProducts(catalog: seq<Product>): seq<Product>
  {
    Filter(IsTracked, catalog)
  }

  /**
   * The group filter keeps exactly the rows of group FARMACIA or CAFETIN,
   * each as many times as the catalog holds it; other rows never pass.
   */
  lemma TrackedProductsExact(catalog: seq<Product>)
    ensures |TrackedProducts(catalog)| <= |catalog|
    ensures forall p :: p in TrackedProducts(catalog) <==> p in catalog && (p.group == "FARMACIA" || p.group == "CAFETIN")
    ensures forall p :: multiset(TrackedProducts(catalog))[p] == if IsTracked(p) then multiset(catalog)[p] else 0
  {
    FilterMembers(IsTracked, catalog);
    FilterCount(IsTracked, catalog);
  }

  /** The filter keeps the catalog's order: filtering two stretches is filtering their concatenation. */
  lemma TrackedProductsInOrder(a: seq<Product>, b: seq<Product>)
    ensures TrackedProducts(a + b) == TrackedProducts(a) + TrackedProducts(b)
  {
    FilterAppend(IsTracked, a, b);
  }

  /** A single catalog row survives the filter exactly when its group is tracked. */
  lemma TrackedSingle(p: Product)
    ensures TrackedProducts([p]) == if IsTracked(p) then [p] else []
  {
    assert [p][1..] == [];
  }

  /** The pharmacy row for `p`: baseline + inbound - returned - sold. */
  function PharmacyEntry(p: Product, sales: map<string, int>, inbound: map<string, int>, returned: map<string, int>): Entry
  {
    var base := Coerce(p.baseline);
    var terms := PharmacyTerms(Term(inbound, p.id), Term(returned, p.id), Term(sales, p.id));
    Entry(p, base, terms, base + terms.inbound - terms.returned - terms.sold)
  }

  /** The warehouse row for `p`: baseline + purchased - shrinkage - sent to the pharmacy + returned from it. */
  function WarehouseEntry(p: Product, purchases: map<string, int>, shrinkage: map<string, int>,
                          inbound: map<string, int>, returned: map<string, int>): Entry
  {
    var base := Coerce(p.baseline);
    var terms := WarehouseTerms(Term(purchases, p.id), Term(shrinkage, p.id), Term(inbound, p.id), Term(returned, p.id));
    Entry(p, base, terms, base + terms.purchased - terms.shrinkage - terms.sentToPharmacy + terms.returnedFromPharmacy)
  }

  /** The pharmacy ledger over an already filtered catalog: one row per catalog row, in order. */
  function PharmacyLedger(catalog: seq<Product>, sales: map<string, int>, inbound: map<string, int>,
                          returned: map<string, int>): seq<Entry>
  {
    seq(|catalog|, i requires 0 <= i < |catalog| => PharmacyEntry(catalog[i], sales, inbound, returned))
  }

  /** The warehouse ledger over an already filtered catalog: one row per catalog row, in order. */
  function WarehouseLedger(catalog: seq<Product>, purchases: map<string, int>, shrinkage: map<string, int>,
                           inbound: map<string, int>, returned: map<string, int>): seq<Entry>
  {
    seq(|catalog|, i requires 0 <= i < |catalog| => WarehouseEntry(catalog[i], purchases, shrinkage, inbound, returned))
  }

  /**
   * Builds the pharmacy ledger row by row: each catalog row is joined
   * against the three grouped logs (an unmatched id reads 0) and gets its
   * `Stock_Real`, which is kept as it is, negative or not.
   */
  method BuildPharmacyLedger(catalog: seq<Product>, sales: map<string, int>, inbound: map<string, int>,
                             returned: map<string, int>) returns (ledger: seq<Entry>)
    ensures |ledger| == |catalog|
    ensures forall i :: 0 <= i < |catalog| ==>
      && ledger[i].product == catalog[i]
      && ledger[i].baseline == Coerce(catalog[i].baseline)
      && ledger[i].terms == PharmacyTerms(Term(inbound, catalog[i].id), Term(returned, catalog[i].id), Term(sales, catalog[i].id))
      && ledger[i].stock == ledger[i].baseline + ledger[i].terms.inbound - ledger[i].terms.returned - ledger[i].terms.sold
    ensures ledger == PharmacyLedger(catalog, sales, inbound, returned)
  {
    ledger := [];
    var i := 0;
    while i < |catalog|
      invariant 0 <= i <= |catalog|
      invariant |ledger| == i
      invariant forall k :: 0 <= k < i ==> ledger[k] == PharmacyEntry(catalog[k], sales, inbound, returned)
    {
      var p := catalog[i];
      var base := Coerce(p.baseline);
      var terms := PharmacyTerms(Term(inbound, p.id), Term(returned, p.id), Term(sales, p.id));
      ledger := ledger + [Entry(p, base, terms, base + terms.inbound - terms.returned - terms.sold)];
      i := i + 1;
    }
  }

  /**
   * Builds the warehouse ledger row by row, joining each catalog row
   * against purchases, shrinkage and the two pharmacy transfer logs.
   */
  method BuildWarehouseLedger(catalog: seq<Product>, purchases: map<string, int>, shrinkage: map<string, int>,
                              inbound: map<string, int>, returned: map<string, int>) returns (ledger: seq<Entry>)
    ensures |ledger| == |catalog|
    ensures forall i :: 0 <= i < |catalog| ==>
      && ledger[i].product == catalog[i]
      && ledger[i].baseline == Coerce(catalog[i].baseline)
      && ledger[i].terms == WarehouseTerms(Term(purchases, catalog[i].id), Term(shrinkage, catalog[i].id),
                                           Term(inbound, catalog[i].id), Term(returned, catalog[i].id))
      && ledger[i].stock == ledger[i].baseline + ledger[i].terms.purchased - ledger[i].terms.shrinkage
                            - ledger[i].terms.sentToPharmacy + ledger[i].terms.returnedFromPharmacy
    ensures ledger == WarehouseLedger(catalog, purchases, shrinkage, inbound, returned)
  {
    ledger := [];
    var i := 0;
    while i < |catalog|
      invariant 0 <= i <= |catalog|
      invariant |ledger| == i
      invariant forall k :: 0 <= k < i ==> ledger[k] == WarehouseEntry(catalog[k], purchases, shrinkage, inbound, returned)
    {
      var p := catalog[i];
      var base := Coerce(p.baseline);
      var terms := WarehouseTerms(Term(purchases, p.id), Term(shrinkage, p.id), Term(inbound, p.id), Term(returned, p.id));
      ledger := ledger + [Entry(p, base, terms,
                                base + terms.purchased - terms.shrinkage - terms.sentToPharmacy + terms.returnedFromPharmacy)];
      i := i + 1;
    }
  }

  /** The product column of a ledger. */
  function Products(ledger: seq<Entry>): seq<Product>
  {
    seq(|ledger|, i requires 0 <= i < |ledger| => ledger[i].product)
  }

  /** The left join keeps the catalog as it is: one pharmacy row per catalog row, in order. */
  lemma PharmacyLedgerProducts(catalog: seq<Product>, sales: map<string, int>, inbound: map<string, int>,
                               returned: map<string, int>)
    ensures Products(PharmacyLedger(catalog, sales, inbound, returned)) == catalog
  {
  }

  /** The left join keeps the catalog as it is: one warehouse row per catalog row, in order. */
  lemma WarehouseLedgerProducts(catalog: seq<Product>, purchases: map<string, int>, shrinkage: map<string, int>,
                                inbound: map<string, int>, returned: map<string, int>)
    ensures Products(WarehouseLedger(catalog, purchases, shrinkage, inbound, returned)) == catalog
  {
  }
}
