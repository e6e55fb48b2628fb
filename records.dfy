/**
 * The rows the reconciliation reads and writes. Each sheet of the
 * workbook is a sequence of typed rows; identifiers are already the
 * canonical strings the loader produces, and a quantity cell is either a
 * number or something that does not read as one.
 */
module Records {
  import opened Wrappers

  /** A quantity cell: `Some(n)` when it reads as a number, `None` for text or a blank. */
  type Quantity = Option<int>

  /** The numeric coercion applied to every quantity column: a cell that is not a number counts as 0. */
  function Coerce(q: Quantity): int
  {
    match q
    case Some(n) => n
    case None => 0
  }

  /**
   * One row of a location's product catalog (sheet "2.1_Productos" for the
   * pharmacy, "2.6_Almacen" for the warehouse). `expiry` is the expiry
   * date as a day number, `None` when it does not parse as a date. The
   * warehouse sheet has no active-ingredient column; its rows carry "".
   */
  datatype Product = Product(
    id: string,
    group: string,
    baseline: Quantity,
    name: string,
    ingredient: string,
    lot: string,
    expiry: Option<int>)

  /** One row of a movement log: the product it moves and how many units. */
  datatype Movement = Movement(productId: string, quantity: Quantity)

  /** The movement terms joined onto a ledger row, one variant per location. */
  datatype Terms =
    | PharmacyTerms(inbound: int, returned: int, sold: int)
    | WarehouseTerms(purchased: int, shrinkage: int, sentToPharmacy: int, returnedFromPharmacy: int)

  /** A ledger row: the catalog row, its coerced baseline, its joined terms and `Stock_Real`. */
  datatype Entry = Entry(product: Product, baseline: int, terms: Terms, stock: int)

  /**
   * The seven sheets the run loads. A sheet that could not be read is the
   * empty sequence, as `get_df` returns an empty table for it.
   */
  datatype Workbook = Workbook(
    pharmacyCatalog: seq<Product>,      // "2.1_Productos"
    warehouseCatalog: seq<Product>,     // "2.6_Almacen"
    sales: seq<Movement>,               // "4.2_VentasDetalle"
    pharmacyInbound: seq<Movement>,     // "2.4_EntradaProducto"
    pharmacyReturns: seq<Movement>,     // "2.421_SalidaProducto"
    warehousePurchases: seq<Movement>,  // "2.7_EntradaAlmacen"
    warehouseShrinkage: seq<Movement>)  // "2.61_SalidaAlmacen"
}
