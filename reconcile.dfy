/**
 * One reconciliation run (`cargar_y_procesar_datos` in app.py): filter
 * both catalogs, group the five movement logs, and build the pharmacy
 * and warehouse ledgers. The inbound and return logs feed both ledgers
 * with opposite signs.
 */
module Reconcile {
  import opened Wrappers
  import opened Records
  import opened Movements
  import opened Ledger

  /** The two ledgers one run produces. */
  datatype Ledgers = Ledgers(pharmacy: seq<Entry>, warehouse: seq<Entry>)

  /**
   * Why a run aborts. A catalog sheet that could not be read, or that has
   * no data rows, loads as a table without columns, and reading its
   * quantity column then fails.
   */
  datatype Failure = MissingColumn(column: string)

  /** The result of one run over a workbook. */
  function Reconciliation(w: Workbook): (r: Result<Ledgers, Failure>)
    ensures r.Err? <==> w.pharmacyCatalog == [] || w.warehouseCatalog == []
    ensures w.pharmacyCatalog == [] ==> r == Err(MissingColumn("2.1_Cantidad"))
    ensures w.pharmacyCatalog != [] && w.warehouseCatalog == [] ==> r == Err(MissingColumn("2.6_Cantidad"))
    ensures r.Ok? ==> |r.value.pharmacy| == |TrackedProducts(w.pharmacyCatalog)|
    ensures r.Ok? ==> |r.value.warehouse| == |TrackedProducts(w.warehouseCatalog)|
  {
    if w.pharmacyCatalog == [] then Err(MissingColumn("2.1_Cantidad"))
    else if w.warehouseCatalog == [] then Err(MissingColumn("2.6_Cantidad"))
    else
      var inbound := Grouped(w.pharmacyInbound);
      var returned := Grouped(w.pharmacyReturns);
      Ok(Ledgers(
        PharmacyLedger(TrackedProducts(w.pharmacyCatalog), Grouped(w.sales), inbound, returned),
        WarehouseLedger(TrackedProducts(w.warehouseCatalog), Grouped(w.warehousePurchases),
                        Grouped(w.warehouseShrinkage), inbound, returned)))
  }

  /**
   * The run itself: both catalogs filtered, the five logs grouped once
   * each, then the pharmacy ledger and the warehouse ledger, each aborting
   * the run when its catalog loaded without columns.
   */
  method Reconcile(w: Workbook) returns (r: Result<Ledgers, Failure>)
    ensures r.Err? <==> w.pharmacyCatalog == [] || w.warehouseCatalog == []
    ensures r == Reconciliation(w)
  {
    var pharmacyCatalog := TrackedProducts(w.pharmacyCatalog);
    var warehouseCatalog := TrackedProducts(w.warehouseCatalog);
    var sales := GroupMovements(w.sales);
    var inbound := GroupMovements(w.pharmacyInbound);
    var returned := GroupMovements(w.pharmacyReturns);
    var purchases := GroupMovements(w.warehousePurchases);
    var shrinkage := GroupMovements(w.warehouseShrinkage);
    if w.pharmacyCatalog == [] {
      return Err(MissingColumn("2.1_Cantidad"));
    }
    var pharmacy := BuildPharmacyLedger(pharmacyCatalog, sales, inbound, returned);
    if w.warehouseCatalog == [] {
      return Err(MissingColumn("2.6_Cantidad"));
    }
    var warehouse := BuildWarehouseLedger(warehouseCatalog, purchases, shrinkage, inbound, returned);
    r := Ok(Ledgers(pharmacy, warehouse));
  }

  /**
   * One ledger row per filtered catalog row, in catalog order: the
   * ledgers' product columns are exactly the filtered catalogs. A row of
   * any group other than FARMACIA or CAFETIN never reaches a ledger, and
   * every tracked catalog row does.
   */
  lemma LedgerRowsFollowCatalog(w: Workbook, l: Ledgers)
    requires Reconciliation(w) == Ok(l)
    ensures Products(l.pharmacy) == TrackedProducts(w.pharmacyCatalog)
    ensures Products(l.warehouse) == TrackedProducts(w.warehouseCatalog)
    ensures forall p :: p in Products(l.pharmacy) <==> p in w.pharmacyCatalog && IsTracked(p)
    ensures forall p :: p in Products(l.warehouse) <==> p in w.warehouseCatalog && IsTracked(p)
  {
    TrackedProductsExact(w.pharmacyCatalog);
    TrackedProductsExact(w.warehouseCatalog);
    PharmacyLedgerProducts(TrackedProducts(w.pharmacyCatalog), Grouped(w.sales),
                           Grouped(w.pharmacyInbound), Grouped(w.pharmacyReturns));
    WarehouseLedgerProducts(TrackedProducts(w.warehouseCatalog), Grouped(w.warehousePurchases),
                            Grouped(w.warehouseShrinkage), Grouped(w.pharmacyInbound), Grouped(w.pharmacyReturns));
  }

  /** Pharmacy stock in terms of the raw logs: baseline + inbound - returned - sold, never clamped. */
  lemma PharmacyStockFromLogs(w: Workbook, i: nat)
    requires Reconciliation(w).Ok? && i < |Reconciliation(w).value.pharmacy|
    ensures var e := Reconciliation(w).value.pharmacy[i];
      e.stock == Coerce(e.product.baseline) + SumFor(w.pharmacyInbound, e.product.id)
                 - SumFor(w.pharmacyReturns, e.product.id) - SumFor(w.sales, e.product.id)
  {
    var id := Reconciliation(w).value.pharmacy[i].product.id;
    TermOfGrouped(w.pharmacyInbound, id);
    TermOfGrouped(w.pharmacyReturns, id);
    TermOfGrouped(w.sales, id);
  }

  /** Warehouse stock in terms of the raw logs: baseline + purchased - shrinkage - sent + returned. */
  lemma WarehouseStockFromLogs(w: Workbook, j: nat)
    requires Reconciliation(w).Ok? && j < |Reconciliation(w).value.warehouse|
    ensures var e := Reconciliation(w).value.warehouse[j];
      e.stock == Coerce(e.product.baseline) + SumFor(w.warehousePurchases, e.product.id)
                 - SumFor(w.warehouseShrinkage, e.product.id) - SumFor(w.pharmacyInbound, e.product.id)
                 + SumFor(w.pharmacyReturns, e.product.id)
  {
    var id := Reconciliation(w).value.warehouse[j].product.id;
    TermOfGrouped(w.warehousePurchases, id);
    TermOfGrouped(w.warehouseShrinkage, id);
    TermOfGrouped(w.pharmacyInbound, id);
    TermOfGrouped(w.pharmacyReturns, id);
  }

  /**
   * Transfer conservation: for a product in both ledgers, the two stocks
   * together are both baselines plus purchases minus shrinkage minus
   * sales. The inbound and return logs cancel out.
   */
  lemma TransferConservation(w: Workbook, i: nat, j: nat)
    requires Reconciliation(w).Ok?
    requires i < |Reconciliation(w).value.pharmacy| && j < |Reconciliation(w).value.warehouse|
    requires Reconciliation(w).value.pharmacy[i].product.id == Reconciliation(w).value.warehouse[j].product.id
    ensures var ph, wh := Reconciliation(w).value.pharmacy[i], Reconciliation(w).value.warehouse[j];
      ph.stock + wh.stock == ph.baseline + wh.baseline + SumFor(w.warehousePurchases, ph.product.id)
                             - SumFor(w.warehouseShrinkage, ph.product.id) - SumFor(w.sales, ph.product.id)
  {
    PharmacyStockFromLogs(w, i);
    WarehouseStockFromLogs(w, j);
  }

  /**
   * Transfers create no units: two workbooks that differ only in their
   * inbound and return logs give every shared product the same combined
   * stock in the two ledgers.
   */
  lemma TransfersCreateNoUnits(w: Workbook, inbound: seq<Movement>, returned: seq<Movement>, i: nat, j: nat)
    requires Reconciliation(w).Ok?
    requires i < |Reconciliation(w).value.pharmacy| && j < |Reconciliation(w).value.warehouse|
    requires Reconciliation(w).value.pharmacy[i].product.id == Reconciliation(w).value.warehouse[j].product.id
    ensures var w' := w.(pharmacyInbound := inbound, pharmacyReturns := returned);
      && Reconciliation(w').Ok?
      && i < |Reconciliation(w').value.pharmacy| && j < |Reconciliation(w').value.warehouse|
      && Reconciliation(w').value.pharmacy[i].stock + Reconciliation(w').value.warehouse[j].stock
         == Reconciliation(w).value.pharmacy[i].stock + Reconciliation(w).value.warehouse[j].stock
  {
    var w' := w.(pharmacyInbound := inbound, pharmacyReturns := returned);
    TransferConservation(w, i, j);
    TransferConservation(w', i, j);
  }

  /**
   * Absence is zero: a product that no log mentions keeps its baseline as
   * its stock, in either ledger.
   */
  lemma NoMovementsKeepsBaseline(w: Workbook, l: Ledgers)
    requires Reconciliation(w) == Ok(l)
    ensures forall i :: 0 <= i < |l.pharmacy| ==>
      (l.pharmacy[i].product.id !in Ids(w.sales) + Ids(w.pharmacyInbound) + Ids(w.pharmacyReturns) ==>
       l.pharmacy[i].stock == l.pharmacy[i].baseline && l.pharmacy[i].terms == PharmacyTerms(0, 0, 0))
    ensures forall j :: 0 <= j < |l.warehouse| ==>
      (l.warehouse[j].product.id !in
         Ids(w.warehousePurchases) + Ids(w.warehouseShrinkage) + Ids(w.pharmacyInbound) + Ids(w.pharmacyReturns) ==>
       l.warehouse[j].stock == l.warehouse[j].baseline && l.warehouse[j].terms == WarehouseTerms(0, 0, 0, 0))
  {
    forall i | 0 <= i < |l.pharmacy| && l.pharmacy[i].product.id !in
        Ids(w.sales) + Ids(w.pharmacyInbound) + Ids(w.pharmacyReturns)
      ensures l.pharmacy[i].stock == l.pharmacy[i].baseline && l.pharmacy[i].terms == PharmacyTerms(0, 0, 0)
    {
      var id := l.pharmacy[i].product.id;
      TermOfGrouped(w.sales, id);
      TermOfGrouped(w.pharmacyInbound, id);
      TermOfGrouped(w.pharmacyReturns, id);
    }
    forall j | 0 <= j < |l.warehouse| && l.warehouse[j].product.id !in
        Ids(w.warehousePurchases) + Ids(w.warehouseShrinkage) + Ids(w.pharmacyInbound) + Ids(w.pharmacyReturns)
      ensures l.warehouse[j].stock == l.warehouse[j].baseline && l.warehouse[j].terms == WarehouseTerms(0, 0, 0, 0)
    {
      var id := l.warehouse[j].product.id;
      TermOfGrouped(w.warehousePurchases, id);
      TermOfGrouped(w.warehouseShrinkage, id);
      TermOfGrouped(w.pharmacyInbound, id);
      TermOfGrouped(w.pharmacyReturns, id);
    }
  }

  /**
   * An unreadable sales sheet forces only the sold term to 0: each
   * pharmacy row gains back what it had sold and the warehouse ledger is
   * exactly as before.
   */
  lemma UnreadableSalesSheet(w: Workbook, l: Ledgers)
    requires Reconciliation(w) == Ok(l)
    ensures var w' := w.(sales := []);
      && Reconciliation(w').Ok?
      && Reconciliation(w').value.warehouse == l.warehouse
      && |Reconciliation(w').value.pharmacy| == |l.pharmacy|
      && forall i :: 0 <= i < |l.pharmacy| ==>
           && Reconciliation(w').value.pharmacy[i].terms == l.pharmacy[i].terms.(sold := 0)
           && Reconciliation(w').value.pharmacy[i].stock == l.pharmacy[i].stock + l.pharmacy[i].terms.sold
  {
    var w' := w.(sales := []);
    GroupedEmpty("");
    var l' := Reconciliation(w').value;
    forall i | 0 <= i < |l.pharmacy|
      ensures l'.pharmacy[i].terms == l.pharmacy[i].terms.(sold := 0)
      ensures l'.pharmacy[i].stock == l.pharmacy[i].stock + l.pharmacy[i].terms.sold
    {
      GroupedEmpty(l.pharmacy[i].product.id);
    }
  }

  /**
   * An unreadable pharmacy-inbound sheet forces that term to 0 in both
   * ledgers: each pharmacy row loses its inbound units and each warehouse
   * row gets back the units it had sent; every other term is unchanged.
   */
  lemma UnreadableInboundSheet(w: Workbook, l: Ledgers)
    requires Reconciliation(w) == Ok(l)
    ensures var w' := w.(pharmacyInbound := []);
      && Reconciliation(w').Ok?
      && |Reconciliation(w').value.pharmacy| == |l.pharmacy|
      && |Reconciliation(w').value.warehouse| == |l.warehouse|
      && (forall i :: 0 <= i < |l.pharmacy| ==>
           && Reconciliation(w').value.pharmacy[i].terms == l.pharmacy[i].terms.(inbound := 0)
           && Reconciliation(w').value.pharmacy[i].stock == l.pharmacy[i].stock - l.pharmacy[i].terms.inbound)
      && (forall j :: 0 <= j < |l.warehouse| ==>
           && Reconciliation(w').value.warehouse[j].terms == l.warehouse[j].terms.(sentToPharmacy := 0)
           && Reconciliation(w').value.warehouse[j].stock == l.warehouse[j].stock + l.warehouse[j].terms.sentToPharmacy)
  {
    var w' := w.(pharmacyInbound := []);
    GroupedEmpty("");
    var l' := Reconciliation(w').value;
    forall i | 0 <= i < |l.pharmacy|
      ensures l'.pharmacy[i].terms == l.pharmacy[i].terms.(inbound := 0)
      ensures l'.pharmacy[i].stock == l.pharmacy[i].stock - l.pharmacy[i].terms.inbound
    {
      GroupedEmpty(l.pharmacy[i].product.id);
    }
    forall j | 0 <= j < |l.warehouse|
      ensures l'.warehouse[j].terms == l.warehouse[j].terms.(sentToPharmacy := 0)
      ensures l'.warehouse[j].stock == l.warehouse[j].stock + l.warehouse[j].terms.sentToPharmacy
    {
      GroupedEmpty(l.warehouse[j].product.id);
    }
  }

  /** The order of the rows in any movement log does not change either ledger. */
  lemma RowOrderIrrelevant(w: Workbook, w': Workbook)
    requires w'.pharmacyCatalog == w.pharmacyCatalog && w'.warehouseCatalog == w.warehouseCatalog
    requires multiset(w'.sales) == multiset(w.sales)
    requires multiset(w'.pharmacyInbound) == multiset(w.pharmacyInbound)
    requires multiset(w'.pharmacyReturns) == multiset(w.pharmacyReturns)
    requires multiset(w'.warehousePurchases) == multiset(w.warehousePurchases)
    requires multiset(w'.warehouseShrinkage) == multiset(w.warehouseShrinkage)
    ensures Reconciliation(w') == Reconciliation(w)
  {
    GroupedPermutation(w'.sales, w.sales);
    GroupedPermutation(w'.pharmacyInbound, w.pharmacyInbound);
    GroupedPermutation(w'.pharmacyReturns, w.pharmacyReturns);
    GroupedPermutation(w'.warehousePurchases, w.warehousePurchases);
    GroupedPermutation(w'.warehouseShrinkage, w.warehouseShrinkage);
  }

  /** A catalog row with only the fields the ledgers read. */
  function Item(id: string, group: string, baseline: Quantity): Product
  {
    Product(id, group, baseline, "", "", "", None)
  }

  /**
   * A sample workbook. Pharmacy: A1 has baseline 100, inbound 20,
   * returned 5 and sold 30; A2 has no movements; A3 belongs to group
   * OTROS; A4's baseline is not a number and it sold 3. Warehouse: A1 has
   * baseline 200, purchases 30 and 20 plus a row whose quantity is not a
   * number, and shrinkage 10; it shares A1's inbound and return logs.
   */
  function SampleWorkbook(): Workbook
  {
    Workbook(
      [Item("A1", "FARMACIA", Some(100)), Item("A2", "CAFETIN", Some(40)),
       Item("A3", "OTROS", Some(7)), Item("A4", "FARMACIA", None)],
      [Item("A1", "FARMACIA", Some(200))],
      [Movement("A1", Some(30)), Movement("A4", Some(3))],
      [Movement("A1", Some(20))],
      [Movement("A1", Some(5))],
      [Movement("A1", Some(30)), Movement("A1", None), Movement("A1", Some(20))],
      [Movement("A1", Some(10))])
  }

  /** The sample's group filter: A3 (group OTROS) is the only row dropped. */
  lemma SampleTrackedCatalogs()
    ensures var c := SampleWorkbook().pharmacyCatalog;
      TrackedProducts(c) == [c[0], c[1], c[3]]
    ensures TrackedProducts(SampleWorkbook().warehouseCatalog) == SampleWorkbook().warehouseCatalog
  {
    var c := SampleWorkbook().pharmacyCatalog;
    assert c == [c[0]] + ([c[1]] + ([c[2]] + [c[3]]));
    assert |c[2].group| == 5;
    TrackedSingle(c[3]);
    TrackedProductsInOrder([c[2]], [c[3]]);
    TrackedSingle(c[2]);
    TrackedProductsInOrder([c[1]], [c[2]] + [c[3]]);
    TrackedSingle(c[1]);
    TrackedProductsInOrder([c[0]], [c[1]] + ([c[2]] + [c[3]]));
    TrackedSingle(c[0]);
    var wc := SampleWorkbook().warehouseCatalog;
    assert wc == [wc[0]];
    TrackedSingle(wc[0]);
  }

  /** The terms the sample's logs give each tracked product, read through the left join. */
  lemma SampleTerms()
    ensures var w := SampleWorkbook();
      && Term(Grouped(w.sales), "A1") == 30 && Term(Grouped(w.sales), "A2") == 0 && Term(Grouped(w.sales), "A4") == 3
      && Term(Grouped(w.pharmacyInbound), "A1") == 20 && Term(Grouped(w.pharmacyInbound), "A2") == 0
      && Term(Grouped(w.pharmacyInbound), "A4") == 0
      && Term(Grouped(w.pharmacyReturns), "A1") == 5 && Term(Grouped(w.pharmacyReturns), "A2") == 0
      && Term(Grouped(w.pharmacyReturns), "A4") == 0
      && Term(Grouped(w.warehousePurchases), "A1") == 50 && Term(Grouped(w.warehouseShrinkage), "A1") == 10
  {
    var w := SampleWorkbook();
    forall id | id in {"A1", "A2", "A4"}
      ensures Term(Grouped(w.sales), id) == SumFor(w.sales, id)
      ensures Term(Grouped(w.pharmacyInbound), id) == SumFor(w.pharmacyInbound, id)
      ensures Term(Grouped(w.pharmacyReturns), id) == SumFor(w.pharmacyReturns, id)
    {
      TermOfGrouped(w.sales, id);
      TermOfGrouped(w.pharmacyInbound, id);
      TermOfGrouped(w.pharmacyReturns, id);
    }
    TermOfGrouped(w.warehousePurchases, "A1");
    TermOfGrouped(w.warehouseShrinkage, "A1");
  }

  /**
   * The pharmacy side of the sample: 100 + 20 - 5 - 30 = 85; a product
   * with no movements keeps its baseline 40; the OTROS row is dropped; a
   * baseline that is not a number counts as 0, and 0 - 3 = -3 is kept.
   */
  lemma PharmacyExample()
    ensures Reconciliation(SampleWorkbook()).Ok?
    ensures var l := Reconciliation(SampleWorkbook()).value.pharmacy;
      && |l| == 3
      && l[0].product.id == "A1" && l[0].stock == 85
      && l[1].product.id == "A2" && l[1].stock == 40
      && l[2].product.id == "A4" && l[2].stock == -3
  {
    var w := SampleWorkbook();
    SampleTrackedCatalogs();
    SampleTerms();
    var c := w.pharmacyCatalog;
    var l := Reconciliation(w).value.pharmacy;
    assert l == PharmacyLedger([c[0], c[1], c[3]], Grouped(w.sales), Grouped(w.pharmacyInbound), Grouped(w.pharmacyReturns));
    assert l[0].baseline == 100 && l[0].terms == PharmacyTerms(20, 5, 30);
    assert l[1].baseline == 40 && l[1].terms == PharmacyTerms(0, 0, 0);
    assert l[2].baseline == 0 && l[2].terms == PharmacyTerms(0, 0, 3);
  }

  /**
   * The warehouse side of the sample: purchases 30 + 0 + 20 = 50, and
   * 200 + 50 - 10 - 20 + 5 = 225. Together with the pharmacy's 85 that
   * is 310 = 100 + 200 + 50 - 10 - 30: the transfers cancel.
   */
  lemma WarehouseExample()
    ensures Reconciliation(SampleWorkbook()).Ok?
    ensures var l := Reconciliation(SampleWorkbook()).value.warehouse;
      && |l| == 1 && l[0].product.id == "A1" && l[0].stock == 225
  {
    var w := SampleWorkbook();
    SampleTrackedCatalogs();
    SampleTerms();
    var l := Reconciliation(w).value.warehouse;
    assert l[0] == WarehouseEntry(w.warehouseCatalog[0], Grouped(w.warehousePurchases), Grouped(w.warehouseShrinkage),
                                  Grouped(w.pharmacyInbound), Grouped(w.pharmacyReturns));
    assert l[0].baseline == 200;
    assert l[0].terms == WarehouseTerms(50, 10, 20, 5);
  }
}
