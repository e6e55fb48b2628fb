# Stock reconciliation for a clinic's pharmacy and warehouse

A Dafny model of the stock-reconciliation engine of a clinic inventory
dashboard (`app.py`). Each run reads two product catalogs, one for the
pharmacy floor and one for the warehouse. It also reads five movement logs:
sales, pharmacy inbound, pharmacy-to-warehouse returns, warehouse purchases
and warehouse shrinkage. The run then computes `Stock_Real` for every
product of the two tracked groups, FARMACIA and CAFETIN. The dashboard
filters the two ledgers for display.

The model follows the run step by step:

- **Catalog filter** (`Ledger.TrackedProducts`): only rows of group
  FARMACIA or CAFETIN are kept, in catalog order.
- **Aggregation** (`Movements.GroupMovements`, specified by
  `Movements.Grouped`): each log is summed per product id. A quantity that
  is not a number counts as 0, and its row still forms a group.
- **Left join** (`Movements.Term`): a product reads its total from the
  grouped log, or 0 when the log has no row for it.
- **Stock formulas** (`Ledger.BuildPharmacyLedger`,
  `Ledger.BuildWarehouseLedger`):
  - pharmacy: baseline + inbound − returned − sold;
  - warehouse: baseline + purchased − shrinkage − sent to the pharmacy +
    returned from it.
  Negative stock is kept as it is.
- **The run** (`Reconcile.Reconcile`, specified by
  `Reconcile.Reconciliation`): it returns both ledgers, or an error when a
  catalog sheet loaded as a table without columns.
- **Views** (`Views`): the table of rows with stock > 0, the critical count
  (stock ≤ 5), the pharmacy's expiry window (0 ≤ days to expiry ≤
  months × 30), and the case-insensitive search on name or active
  ingredient.

The central property is transfer conservation. The inbound and return
logs feed both formulas with opposite signs. So for a product in both
ledgers, the two stocks add up to both baselines + purchases − shrinkage −
sales (`Reconcile.TransferConservation`). Changing the transfer logs never
changes that sum (`Reconcile.TransfersCreateNoUnits`).

Modelling choices:

- Ids are canonical strings.
- A quantity cell is `Option<int>`: `None` is a cell that does not read as
  a number.
- An expiry date is a day number, `None` when it does not parse. "Today"
  is a parameter.
- A sheet that could not be read is the empty sequence of rows.

Two behaviours of `app.py` shape the model:

- **An empty catalog aborts the run.** A catalog sheet that could not be
  read, or that has no data rows, loads as a table without columns. The
  code then fails reading its quantity column (app.py:109 for the
  pharmacy, app.py:127 for the warehouse), and the whole run ends with an
  exception, so neither ledger is produced.
  `Reconcile.Reconciliation` returns `Err(MissingColumn(..))` in exactly
  these cases.
- **Missing ids become text.** The code turns a blank id into text with
  `astype(str)` (app.py:55, 65, 76-92), and that text joins like any other
  id.

## Model

| member | source | states |
|---|---|---|
| `Movements.GroupMovements` | app.py:96-99 | The result's keys are exactly the ids in the log, one entry per id. Each id maps to the sum of its rows' coerced quantities. An empty log gives the empty mapping. The result equals `Grouped(rows)`. |
| `Movements.GroupedEmpty` | app.py:97 | An empty or unreadable log groups to the empty mapping, so every term drawn from it is 0. |
| `Movements.GroupedSnoc` | app.py:98-99 | Appending a row adds its coerced quantity to its id's group and leaves every other group unchanged. A row whose quantity is not a number still creates its group and contributes 0. |
| `Movements.SumForAppend` | app.py:99 | The per-id sum over two stretches of a log is the sum of the two per-id sums. |
| `Movements.SumForAbsent` | app.py:99 | An id with no rows in a log sums to 0. |
| `Movements.SumForPermutation` | app.py:99 | Any two logs with the same multiset of rows give each id the same total. |
| `Movements.GroupedPermutation` | app.py:99 | Permuting the rows of a movement log leaves the grouped mapping unchanged. |
| `Movements.TermOfGrouped` | app.py:112-115 | The left join plus zero-fill reads each id's total from the grouped log. An id the log never mentions is absent from the mapping and reads exactly 0. |
| `Ledger.TrackedProductsExact` | app.py:58-61 | The group filter keeps a row exactly when it is in the catalog and its group is FARMACIA or CAFETIN. Each kept row appears as often as in the catalog; no other row passes. |
| `Ledger.TrackedProductsInOrder` | app.py:59-61 | Filtering a concatenation gives the concatenation of the filtered parts, so the catalog's order is kept. |
| `Ledger.TrackedSingle` | app.py:60 | A single row survives the filter exactly when its group is tracked. |
| `Ledger.BuildPharmacyLedger` | app.py:107-123 | One ledger row per catalog row, in catalog order, carrying that catalog row. Baseline is the coerced quantity. The terms are the joined inbound, returned and sold totals (0 when unmatched). Stock = baseline + inbound − returned − sold, unclamped. |
| `Ledger.BuildWarehouseLedger` | app.py:125-143 | One ledger row per catalog row, in order. The terms are the joined purchased, shrinkage, sent-to-pharmacy and returned-from-pharmacy totals. Stock = baseline + purchased − shrinkage − sent + returned, unclamped. |
| `Ledger.PharmacyLedgerProducts` | app.py:112-114 | The pharmacy ledger's product column is exactly the catalog it was built from. |
| `Ledger.WarehouseLedgerProducts` | app.py:130-133 | The warehouse ledger's product column is exactly the catalog it was built from. |
| `Reconcile.Reconciliation` | app.py:37-145 | The run fails exactly when a catalog sheet is empty. An empty pharmacy catalog fails on `2.1_Cantidad`; otherwise an empty warehouse catalog fails on `2.6_Cantidad`. On success each ledger has one row per filtered catalog row. |
| `Reconcile.Reconcile` | app.py:37-145 | The run filters both catalogs, groups the five logs once each, then builds the two ledgers. It fails exactly when a catalog is empty, and its result equals `Reconciliation(w)`. |
| `Reconcile.LedgerRowsFollowCatalog` | app.py:58-71 | Each ledger's product column equals the group-filtered catalog. A product is in a ledger exactly when it is in that location's catalog with group FARMACIA or CAFETIN. |
| `Reconcile.PharmacyStockFromLogs` | app.py:109-123 | Every pharmacy row's stock is its coerced baseline plus the raw inbound sum, minus the return sum and the sales sum for its id. |
| `Reconcile.WarehouseStockFromLogs` | app.py:127-143 | Every warehouse row's stock is its coerced baseline plus purchases, minus shrinkage and pharmacy inbound, plus pharmacy returns, each summed from the raw logs for its id. |
| `Reconcile.TransferConservation` | app.py:118-143 | For a product in both ledgers, pharmacy stock + warehouse stock = both baselines + purchases − shrinkage − sales; the inbound and return terms cancel. |
| `Reconcile.TransfersCreateNoUnits` | app.py:130-143 | Replacing the inbound and return logs by any others leaves the combined stock of every shared product unchanged. |
| `Reconcile.NoMovementsKeepsBaseline` | app.py:112-134 | A product that none of its location's logs mentions gets every term exactly 0, and its stock equals its baseline. |
| `Reconcile.UnreadableSalesSheet` | app.py:41-48 | An unreadable sales sheet still gives a successful run. Only the sold term becomes 0: each pharmacy row gains back its sold units and the warehouse ledger is identical. |
| `Reconcile.UnreadableInboundSheet` | app.py:41-48 | An unreadable inbound sheet zeroes that term in both ledgers. Pharmacy stock drops by the inbound units and warehouse stock rises by the sent units; all other terms stay. |
| `Reconcile.RowOrderIrrelevant` | app.py:96-105 | Workbooks with the same catalogs whose five logs are permutations of each other reconcile to identical results. |
| `Reconcile.SampleTrackedCatalogs` | app.py:58-71 | In the sample workbook the group filter drops only the OTROS row and keeps the warehouse catalog whole. |
| `Reconcile.SampleTerms` | app.py:101-105 | The sample's grouped logs give the expected terms. The purchase rows 30, a non-number and 20 total 50, and ids without rows read 0. |
| `Reconcile.PharmacyExample` | app.py:118-123 | Sample pharmacy ledger: 100 + 20 − 5 − 30 = 85. A product with no movements keeps 40. A non-numeric baseline counts as 0, giving −3, which is kept. The OTROS row is absent. |
| `Reconcile.WarehouseExample` | app.py:137-143 | Sample warehouse ledger: 200 + 50 − 10 − 20 + 5 = 225. |
| `Views.VisibleRowsExact` | app.py:239-240 | The pharmacy table before its other filters holds exactly the ledger rows with stock > 0, each as often as in the ledger. |
| `Views.WarehouseViewExact` | app.py:315-316 | The warehouse table holds exactly the ledger rows with stock > 0, each as often as in the ledger. |
| `Views.CriticalCountCoversHiddenRows` | app.py:221 | The critical count is the number of ledger rows not above 5. It is at least the number of rows the table hides for stock ≤ 0, since it is taken over the whole ledger. |
| `Views.PharmacyViewWithinWindow` | app.py:201-255 | With the month setting between 1 and 12, every row the pharmacy table shows has positive stock and an expiry date that parsed and lies between today and 360 days from today. |
| `Views.PharmacyViewExact` | app.py:239-266 | The pharmacy table is the ledger filtered, in order, by one mask: stock > 0, expiry in the window, and (no search term, or the term matches). |
| `Views.ContainsTextAt` | app.py:263-264 | The substring test holds exactly when some window of the text equals the term. |
| `Views.LowerTextIdempotent` | app.py:263 | Case folding applied twice is case folding applied once. |
| `Views.SearchIgnoresTermCase` | app.py:263-264 | A row matches a search term exactly when it matches the case-folded term. |

## Left out

- Google Sheets connection and per-sheet loading (app.py:15-48): network
  I/O. Only their effect is modelled: an unreadable sheet is an empty
  table. The warning text shown for it is left out.
- Result caching for 600 seconds (app.py:36): framework machinery. Every
  call to `Reconcile` recomputes, and the result is a pure function of
  the workbook.
- Password check (app.py:148-188): session state and a secret comparison.
- Presentation: page layout and tabs, the item-count and stock-total
  metrics and their formatting, column selection and renaming, CSV export,
  and the `color_stock` highlighting (app.py:223-229, 268-295, 322-329).
- Date parsing with `pd.to_datetime(..., dayfirst=True)` and the clock
  (app.py:247-248): library code and the clock. Expiry dates are day
  numbers, and today is a parameter.
- Identifier normalisation with `astype(str)` on float or missing ids
  (app.py:55, 65, 76-92), and float arithmetic from `pd.to_numeric`: ids
  are already-normalised strings and quantities are integers.
- `fillna(0)` on descriptive columns (app.py:115, 134): only the numeric
  movement terms are zero-filled.
- `agrupar_mov` writing the coerced quantity column back into its caller's
  table (app.py:98): nothing reads that column afterwards.
  `GroupMovements` reads the rows and builds only the totals.
- Sheets without an expected column: rows are typed, so every column is
  always present. The code skips the group filter when a catalog has no
  group column: `2.5_Grupo` in sheet 2.1_Productos (app.py:58-61) or
  `2.6_Grupo` in sheet 2.6_Almacen (app.py:68-71). Then rows of any group,
  OTROS included, reach that ledger. This branch is not modelled.
  Neither is the failure of a movement sheet that has rows but lacks its
  id or quantity column.
- Views.MatchesSearch: `str.contains` treats the search term as a regular
  expression and folds Unicode case. The model reads the term as literal
  text and folds only ASCII letters. Product names and ingredients are
  always text, so the `na=False` case for non-text cells does not arise.
