# Point-of-sale register engine, modelled in Dafny

This project models the register engine of a small point-of-sale
application. The engine is written as React event handlers in `App.tsx`,
over the state declared in `types.ts` and seeded by `constants.ts`. It
covers:

- the inventory catalog: add, delete, search and exact barcode lookup;
- the cart of the sales screen: add one unit, change a quantity, the
  total and the change due;
- checkout (`processPayment`): the guards, the sale record, the ticket
  counter, the stock decrement and the register's books;
- the cashier's shift: opening and closing a register;
- the read-only aggregates of the dashboard and the reports.

Each handler is one atomic transition of the class `Pos.Store`. Its fields
are the `AppData` of `types.ts` plus the cart. The value-level pieces are
functions in separate modules:

| module | file | contents |
|---|---|---|
| `Types` | types.dfy | the records of `types.ts` |
| `Constants` | constants.dfy | `constants.ts` |
| `Folds` | folds.dfy | the `reduce` and `filter` folds |
| `Text` | text.dfy | `${n}`, `toLowerCase`, `includes` |
| `Rounding` | rounding.dfy | `Math.round` of a quotient |
| `Catalog` | catalog.dfy | the inventory handlers |
| `Cart` | cart.dfy | the cart updaters |
| `Checkout` | checkout.dfy | the pure side of `processPayment` |
| `Ledger` | ledger.dfy | a register's history and balance |
| `Reports` | reports.dfy | the aggregates |
| `Pos` | store.dfy | the state class and its invariant |

The store keeps one invariant, `Pos.Store.Valid`, across every handler:

- the ticket counter is the next ticket, and the global sales are
  numbered consecutively from 1001;
- every register holds exactly its cashier's sales from the global list,
  in order;
- each register's balance is its opening amount plus the cash taken since
  its shift began (a ghost map records where each shift began);
- each register's history refers to its sales' tickets, in order;
- catalog ids and barcodes are unique;
- the cart keeps one line per product, each line at least 1 and within
  its product's stock.

The model follows `App.tsx` as written, not an idealised design:

- Checkout subtracts each line's quantity without checking stock. Stock
  stays non-negative only because the cart handlers keep each line within
  stock.
- Opening and closing check nothing themselves. The screen offers opening
  only when the register is closed and closing only when it is open, so
  these gates are preconditions.
- `processPayment` computes the change as `tendered - total` for every
  method. An amount can be entered only for cash, and choosing a method
  clears it (App.tsx:832-834, 845-866), so card and transfer sales always
  record the total as paid and no change. The model states that gate as a
  precondition of `Pos.Store.ProcessPayment`.

## Model

| member | source | states |
|---|---|---|
| `Text.Decimal` | App.tsx:177 | `${n}` of a non-negative number is a non-empty string of digits with no leading zero |
| `Text.ParseDecimalInverts` | App.tsx:294 | reading the decimal rendering back gives the number |
| `Text.DecimalInjective` | App.tsx:294 | distinct numbers render as distinct digit strings |
| `Text.LowerChar` | App.tsx:701 | `toLowerCase` on a character: an upper-case letter (ASCII or Latin-1) moves down by 32, and anything else is unchanged; the result is never upper-case |
| `Text.ToLowerIdempotent` | App.tsx:701 | lower-casing twice is lower-casing once |
| `Text.ContainsEmpty` | App.tsx:701 | every string includes the empty string |
| `Text.ContainsItself` | App.tsx:701 | every string includes itself |
| `Rounding.RoundDiv` | App.tsx:1008 | `Math.round(a / b)`: the result is within half of `b` of the exact quotient, and halves round up |
| `Rounding.RoundDivUnique` | App.tsx:1008 | no other integer meets RoundDiv's bound, so that bound defines `Math.round` of the quotient |
| `Constants.InitialRegisters` | constants.ts:14-18 | one register per login identity, each closed, with opening amount 0, balance 0, and no sales or history |
| `Constants.CashiersAreTheIdentities` | constants.ts:4-8 | the register keys, in declaration order, are exactly the identities of USER_PASSWORDS, each once |
| `Constants.CashiersDistinct` | constants.ts:14-18 | no register key is listed twice |
| `Constants.IdentityListed` | constants.ts:4-8 | every login identity has a register |
| `Constants.MethodFromId` | constants.ts:23-27 | a method identifier names exactly one payment method, and any other string names none |
| `Constants.PaymentMethodsListed` | constants.ts:23-27 | the payment methods are exactly efectivo, tarjeta and transferencia, and each identifier leads back to its method |
| `Catalog.FindByBarcode` | App.tsx:771 | finds a product with that exact barcode exactly when one exists, and it is the first such product in catalog order |
| `Catalog.FindIndex` | App.tsx:283 | `findIndex` by id: the first position with that id, or -1 exactly when no product has it |
| `Catalog.FindIndexOfMember` | App.tsx:283 | with unique ids, looking up a product's id finds that product's position |
| `Catalog.ResolvedBarcode` | App.tsx:177 | the barcode used is never empty: the one given, or `PROD-<stamp>` |
| `Catalog.AutoBarcodeInjective` | App.tsx:177 | distinct stamps generate distinct `PROD-<n>` barcodes |
| `Catalog.NewProduct` | App.tsx:172-195 | fails exactly when the name is empty, or when the resolved barcode already exists. On success the product has: the fresh id; the name; a barcode new to the catalog; the category given, or `Sin categoría` when blank; the supplier given, or none for 0; the quantity, last purchase price and net price of the form; and `price == saleIva` |
| `Catalog.NewProductKeepsCatalogUnique` | App.tsx:178-197 | appending an accepted product keeps ids and barcodes unique |
| `Catalog.RemoveProduct` | App.tsx:204 | the result holds no product with the id, and every other product stays |
| `Catalog.RemoveProductKeepsCatalogUnique` | App.tsx:204 | deleting keeps ids and barcodes unique |
| `Catalog.Search` | App.tsx:701 | lists exactly the catalog's products whose lower-cased name includes the lower-cased term, or whose barcode includes the term |
| `Catalog.SearchEmptyTermListsAll` | App.tsx:701 | an empty term lists the whole catalog, in order |
| `Catalog.SearchFindsByName` | App.tsx:701 | searching for a product's own name lists it |
| `Catalog.NetFromGross` | App.tsx:634 | the net price is the integer nearest to gross / 1.19, and never a tie |
| `Catalog.EditGross` | App.tsx:632-635 | editing the gross price sets it and the derived net price, and leaves every other field of the form alone |
| `Cart.CartTotal` | App.tsx:251 | the total of an empty cart is 0, and no total is negative when prices and quantities are not |
| `Cart.Snapshot` | App.tsx:231 | a new line copies the product's id, name, barcode and gross price, with quantity 1 |
| `Cart.FindLine` | App.tsx:223 | `find` by id in the cart: the first line with the id, or none exactly when no line has it |
| `Cart.UpdateLines` | App.tsx:229 | the `map` over the cart keeps the length and every line's id |
| `Cart.UpdateLinesAt` | App.tsx:229 | with one line per product, the `map` changes exactly that product's line |
| `Cart.AddToCart` | App.tsx:212-232 | fails with RegisterClosed exactly when the register is closed; with OutOfStock exactly when it is open and stock is at most 0; with NoMoreStock exactly when the existing line already holds the whole stock. A product not yet in the cart gets a new line snapshotting its id, name, `saleIva`, quantity 1 and barcode |
| `Cart.AddToCartAddsOneUnit` | App.tsx:223-231 | a successful add gives the product exactly one more unit and changes no other product's units. The total rises by one unit price: the line's frozen price, or the current gross price for a new line |
| `Cart.AddToCartKeepsWellFormed` | App.tsx:217-229 | adding keeps one line per product, every quantity at least 1, and every line within stock |
| `Cart.UpdateQuantity` | App.tsx:236-249 | an unknown id leaves the cart alone, and no line of another product is added or lost |
| `Cart.RemoveLineEffect` | App.tsx:241 | removing a line takes out all of its product's units, no other product's units, and exactly its extension from the total |
| `Cart.SetLineEffect` | App.tsx:247 | setting a line's quantity gives its product exactly that many units, and moves the total by price times the change |
| `Cart.UpdateQuantityEffect` | App.tsx:236-249 | the product ends with 0 units when the new quantity is below 1, the new quantity when it is within current stock (or the product is gone), and the cart unchanged when it exceeds stock; other products are untouched, and the total moves by the frozen price times the change |
| `Cart.UpdateQuantityKeepsWellFormed` | App.tsx:240-247 | changing a quantity keeps one line per product, each at least 1 and within stock |
| `Checkout.ChangeDue` | App.tsx:253-256 | when something positive was tendered, the total plus the change is the amount tendered; otherwise the change is 0 |
| `Checkout.PaidAmount` | App.tsx:275 | the amount tendered for cash, or the total when nothing was tendered or the method is not cash; for cash, paid minus change is the total |
| `Checkout.MakeSale` | App.tsx:266-277 | the sale carries the id, ticket, cart, cart total, method and cashier; for cash, paid minus change is the total; for a card or transfer with nothing tendered, paid is the total and the change 0 |
| `Checkout.Payment` | App.tsx:253-277 | fails with RegisterClosed, EmptyCart and InsufficientAmount (cash below the total), each exactly when its guard applies, in that order. On success the sale holds the ticket, the cart as items, the cart total, the method and the cashier. For cash, the paid amount is the amount tendered (the total when nothing was tendered), the change is tendered minus total (0 when nothing was tendered), and with a non-negative amount the change is not negative and paid minus change is the total. Otherwise the paid amount is the total, and with nothing tendered the change is 0 |
| `Checkout.ApplyLine` | App.tsx:283-284 | one pass of the loop keeps every product's position and id |
| `Checkout.DecrementStock` | App.tsx:281-285 | the whole loop adds and removes no product, and keeps every id |
| `Checkout.DecrementInventory` | App.tsx:281-285 | the loop over the copied inventory yields exactly DecrementStock of the cart |
| `Checkout.DecrementStockOnlyQuantities` | App.tsx:284 | checkout changes only quantities: every other field of every product is kept |
| `Checkout.DecrementStockKeepsIds` | App.tsx:281-285 | checkout keeps catalog ids unique |
| `Checkout.DecrementStockAt` | App.tsx:281-285 | each product loses exactly the units that the cart holds of it, and a product no line names keeps its stock |
| `Checkout.CheckoutKeepsStockNonNegative` | App.tsx:281-285 | with every line within stock (kept at App.tsx:225 and 243), no stock that was non-negative goes negative |
| `Ledger.SaleEntry` | App.tsx:290-296 | a `venta` entry carries the sale's total and ticket, described as `Venta #<ticket>` |
| `Ledger.SaleEntryIdentifiesTicket` | App.tsx:294 | two `venta` entries with the same description are for the same ticket |
| `Ledger.OpenShift` | App.tsx:322-333 | opening sets the register open with opening amount and balance both the amount, keeps its sales, and appends one `apertura` entry to the history |
| `Ledger.CloseShift` | App.tsx:931-938 | closing sets the register closed, keeps opening amount, balance and sales, and appends one `cierre` entry carrying the balance |
| `Ledger.RecordSale` | App.tsx:287-296 | recording a sale appends it to the register's sales, raises the balance by the total only for cash, appends its `venta` entry, and keeps the open flag and opening amount |
| `Ledger.TicketRefsAppend` | App.tsx:290-296 | appending a history entry adds its ticket reference, if it has one, to the history's references |
| `Ledger.OpenShiftBalanced` | App.tsx:320-333 | after opening, the balance is the opening amount, no cash of the shift is counted yet, and the history gains no ticket |
| `Ledger.CloseShiftBalanced` | App.tsx:928-938 | closing keeps the shift's books, and the `cierre` entry records the balance it leaves untouched |
| `Ledger.RecordSaleBalanced` | App.tsx:287-296 | recording a sale keeps the books: the balance rises by the total exactly for cash, and the history gains the sale's ticket |
| `Ledger.CashierTicketsIncreasing` | App.tsx:288 | with consecutive global tickets, each cashier's sales come in strictly increasing ticket order |
| `Reports.TotalUnits` | App.tsx:341 | 0 for an empty catalog, and not negative when no stock is |
| `Reports.InventoryValue` | App.tsx:342 | 0 for an empty catalog, and not negative when no price or stock is |
| `Reports.TotalBalance` | App.tsx:348 | not negative when no register's balance is |
| `Reports.SalesTotal` | App.tsx:1006 | 0 with no sales, and not negative when no sale total is |
| `Reports.CashierTotal` | App.tsx:1053-1055 | 0 for a cashier who made none of the sales |
| `Reports.MethodTotal` | App.tsx:1033 | 0 for a method none of the sales used |
| `Reports.AverageTicket` | App.tsx:1008 | 0 with no sales; otherwise the historical total over the count, rounded to the nearest peso |
| `Reports.MethodBreakdown` | App.tsx:1032-1034 | one total per payment method, in the order of PAYMENT_METHODS |
| `Reports.AggregatesOfNothing` | App.tsx:340-351 | units, valuation, cart total, historical total, average ticket, per-cashier and per-method totals are 0 on empty data, and so is the sum of the initial balances |
| `Reports.MethodBreakdownAddsUp` | App.tsx:1032-1034 | the per-method totals add up to the historical total |
| `Reports.CashIsEfectivoTotal` | App.tsx:289 | the cash counted into balances is the efectivo slice of the breakdown |
| `Reports.CashierTotalsAddUp` | App.tsx:1053-1055 | when every sale was made at a known register, the per-cashier totals add up to the historical total |
| `Reports.AverageTicketWithin` | App.tsx:1008 | the average ticket lies between the smallest and the largest sale total |
| `Reports.TotalBalanceUpdate` | App.tsx:348 | replacing one register changes the sum of balances by the change in that register's balance |
| `Reports.ApplyLineUnits` | App.tsx:341 | one line takes its quantity off the units on hand, or nothing when its product is gone |
| `Reports.DecrementStockUnits` | App.tsx:341 | after checkout the units on hand drop by exactly the units sold of products still in the catalog |
| `Reports.ApplyLineValue` | App.tsx:342 | one line lowers the valuation at cost by its product's last purchase price times its units, or by nothing when its product is gone |
| `Reports.DecrementStockValue` | App.tsx:342 | after checkout the valuation at cost drops by exactly the cost of the units sold of products still in the catalog |
| `Pos.Store.Valid` | App.tsx:298-304 | the invariant of the state; in particular every recorded ticket is below the counter, and every login identity has a register |
| `Pos.Store.constructor` | constants.ts:10-21 | the initial state: empty catalog, sales and cart, the initial registers and categories, ticket counter 1001, invariant established |
| `Pos.Store.AddProduct` | App.tsx:172-200 | appends exactly the accepted product, and leaves the catalog alone on either error |
| `Pos.Store.DeleteProduct` | App.tsx:202-206 | the catalog becomes the filtered catalog; sales, registers and cart are not in its frame |
| `Pos.Store.AddToCart` | App.tsx:212-234 | on success the cart becomes the updated cart; on failure it reports the error and leaves the cart unchanged |
| `Pos.Store.ScanBarcode` | App.tsx:771-777 | an unknown barcode reports ProductNotFound and leaves the cart alone; a known one adds that product as AddToCart does |
| `Pos.Store.UpdateCartQuantity` | App.tsx:236-249 | the cart becomes UpdateQuantity against the live catalog, and stays well formed |
| `Pos.Store.ProcessPayment` | App.tsx:258-313 | returns Payment's verdict. On failure nothing changes. On success: the counter advances by one; the sale goes on the global list and into the cashier's register (other registers untouched); stock is decremented; the cart is emptied; the new ticket exceeds every earlier one; a card or transfer sale records the total as paid and no change; the cashier's balance and the sum of all balances rise by the cash amount; stock that was non-negative stays so |
| `Pos.Store.RecordPayment` | App.tsx:280-307 | the state update of a payment, keeping the invariant |
| `Pos.Store.ConfirmOpening` | App.tsx:320-336 | the register becomes open, with opening amount and balance both set to the amount and an `apertura` entry appended; nothing else changes |
| `Pos.Store.CloseRegister` | App.tsx:928-940 | the register becomes closed with a `cierre` entry carrying its balance; the balance is not reset |
| `Pos.InitialStateValid` | constants.ts:10-21 | the initial data satisfies the invariant |
| `Pos.InitialRegistersAgree` | constants.ts:14-18 | the initial registers agree with the empty list of sales |
| `Pos.OpeningKeepsState` | App.tsx:320-336 | opening keeps the invariant, with the shift starting at the end of the register's sales |
| `Pos.ClosingKeepsState` | App.tsx:928-940 | closing keeps the invariant |
| `Pos.SaleKeepsState` | App.tsx:287-303 | storing a sale with the current ticket, globally and in its register, keeps the invariant with the counter advanced |
| `Pos.StockKeepsState` | App.tsx:281-285 | decrementing stock and emptying the cart keeps the invariant |
| `Pos.PaymentEffects` | App.tsx:266-303 | a payment's ticket exceeds every earlier one; the drawer and the sum of drawers rise by the cash amount; non-negative stock stays non-negative |
| `Pos.RecordSaleAgrees` | App.tsx:288-301 | a sale recorded globally and in its cashier's register keeps both sets of books in agreement |
| `Pos.OpenShiftAgrees` | App.tsx:320-336 | opening a register starts its shift at the end of its sales and keeps the books in agreement |
| `Pos.CloseShiftAgrees` | App.tsx:928-940 | closing a register keeps the books in agreement |

## Left out

- Rendering, modals, alerts and their timers, `confirm`, `window.print` and `formatCurrency`: user interface only.
- The Chart.js datasets are modelled only through their integer sums. The XLSX export is left out because it calls a foreign library.
- The localStorage load and save are left out: they are I/O and JSON serialisation.
- Login and the role derivation are left out. The logged-in cashier is a parameter that must be a key of the registers.
- The calculateProfit margin preview is left out: it is floating-point percentages.
- Today's sales, the monthly chart and the month filter are left out: they depend on the clock and the time zone. Dates are not modelled in any record.
- `Date.now()` ids and stamps are parameters supplied by the caller. Freshness is a precondition.
- Supplier and Cierre are left out: no modelled handler uses them. A register has no `cierres` field.
- `categories` is kept as part of the state. No modelled handler changes it.
- BILL_OPTIONS and the choice between a bill and a custom amount are left out. The model takes the resulting `tendered` amount, with 0 for none.
- `parseInt` of the form fields is left out, and so is the NaN it can produce. Numbers enter the model as integers.
- React batching and closure timing are not modelled: each handler is one atomic transition.
- `toLowerCase` is modelled for ASCII and Latin-1 letters only. Other scripts are not case-mapped.
- Pos.Store.RecordPayment: the `forEach` rewrites `newInventory[idx].quantity` on Product objects that the copied array shares with the previous state. The model rewrites a value sequence, so that aliasing is not captured.
- Pos.Store.ConfirmOpening: requires a closed register, because the only gate is the screen (App.tsx:925-927). The code itself would reopen an open register and reset its balance.
- Pos.Store.CloseRegister: requires an open register, for the same reason.
- Pos.Store.ProcessPayment: the payment method is a PaymentMethod value, because the pay button is disabled until a method is chosen (App.tsx:894).
- Pos.Store.ProcessPayment: requires no amount tendered for card or transfer, because choosing a method clears the amount and only the cash panel can enter one (App.tsx:832-834, 845-866).
- Pos.Store.AddToCart: requires the product to be in the catalog, because the screen only offers catalog products.
- Checkout.CheckoutKeepsStockNonNegative: requires non-negative stock beforehand, because handleAddProduct accepts any quantity.
- Checkout.Payment: the paid-minus-change identity for cash is stated for a non-negative amount tendered.
