/** The records of the application state (types.ts). Numbers are the
    unbounded integers of the model; the source's JavaScript numbers hold
    whole pesos and stay far below 2^53. Dates are not modelled. */
module Types {

  datatype Option<+T> = None | Some(value: T)

  datatype Result<+R, +E> = Success(value: R) | Failure(error: E)

  /** A catalog entry. `price` is the gross sale price copied from
      `saleIva` when the product is created. */
  datatype Product = Product(
    id: int,
    name: string,
    barcode: string,
    category: string,
    supplierId: Option<int>,
    quantity: int,
    lastPurchase: int,
    saleNet: int,
    saleIva: int,
    price: int)

  /** A cart line and, once sold, a line of a sale: a snapshot of the
      product's id, name, gross price and barcode, never a reference. */
  datatype SaleItem = SaleItem(id: int, name: string, price: int, quantity: int, barcode: string)

  /** The closed set of payment methods, with the identifiers that the
      source stores in a sale. */
  datatype PaymentMethod = Efectivo | Tarjeta | Transferencia
  {
    function Id(): string
    {
      match this
      case Efectivo => "efectivo"
      case Tarjeta => "tarjeta"
      case Transferencia => "transferencia"
    }
  }

  /** A completed sale. Every field is fixed when the sale is made. */
  datatype Sale = Sale(
    id: int,
    ticketNumber: nat,
    items: seq<SaleItem>,
    total: int,
    paymentMethod: PaymentMethod,
    cashier: string,
    paidAmount: int,
    change: int)

  datatype EntryKind = Apertura | Cierre | Venta

  /** One line of a register's history. Only sale entries carry the
      ticket number of their sale. */
  datatype HistoryEntry = HistoryEntry(kind: EntryKind, amount: int, description: string, ticketNumber: Option<nat>)

  /** One cashier's register: whether a shift is open, the amount it was
      opened with, every sale the cashier made, the drawer's cash balance
      and the append-only history. */
  datatype CashRegister = CashRegister(
    isOpen: bool,
    openingAmount: int,
    sales: seq<Sale>,
    balance: int,
    history: seq<HistoryEntry>)

  /** The errors the sales screen reports, and the guards it returns on
      silently (a closed register, an empty cart). */
  datatype SaleError = RegisterClosed | OutOfStock | NoMoreStock | ProductNotFound | EmptyCart | InsufficientAmount
}
