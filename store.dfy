/** The application state (AppData of types.ts) together with the cart of
    the sales screen, and the App.tsx handlers that change them. Each
    handler is one atomic transition. The cashier who is logged in is a
    parameter, and so are the readings of the clock that the source uses
    as fresh ids. */
module Pos {
  import opened Types
  import opened Folds
  import opened Constants
  import opened Catalog
  import opened Cart
  import opened Checkout
  import opened Ledger
  import opened Reports

  class Store {
    var inventory: seq<Product>
    var sales: seq<Sale>
    var cashRegisters: map<string, CashRegister>
    var categories: seq<string>
    var ticketCounter: nat
    var cart: seq<SaleItem>
    /** Where each register's current shift began in that register's
        list of sales. */
    ghost var shiftStart: map<string, nat>

    /** What every handler keeps true:
        - one register per identity, for good;
        - the counter is the next ticket, and the sales are numbered
          consecutively from the first ticket;
        - every sale belongs to a register, and each register's sales are
          exactly the global sales of its cashier, in order;
        - each register's balance is its opening amount plus the cash
          taken since its shift began, and its history refers to the
          tickets of its sales;
        - catalog ids and barcodes are unique, and the cart keeps one
          line per product, each within stock. */
    ghost predicate Valid()
      reads this
      ensures Valid() ==> forall i :: 0 <= i < |sales| ==> sales[i].ticketNumber < ticketCounter
      ensures Valid() ==> forall c :: c in UserPasswords ==> c in cashRegisters
    {
      StateValid(inventory, sales, cashRegisters, ticketCounter, cart, shiftStart)
    }

    /** INITIAL_APP_DATA and an empty cart. */
    constructor ()
      ensures Valid()
      ensures inventory == [] && sales == [] && cart == []
      ensures cashRegisters == InitialRegisters()
      ensures categories == InitialCategories
      ensures ticketCounter == FirstTicket
    {
      inventory := [];
      sales := [];
      cashRegisters := InitialRegisters();
      categories := InitialCategories;
      ticketCounter := FirstTicket;
      cart := [];
      shiftStart := map c | c in Cashiers :: 0;
      InitialStateValid();
    }

    /** handleAddProduct. `id` and `stamp` are the clock readings; a fresh
        id is one no product and no cart line has. */
    method AddProduct(draft: ProductDraft, id: int, stamp: nat) returns (r: Result<Product, ProductError>)
      requires Valid()
      requires forall j :: 0 <= j < |inventory| ==> inventory[j].id != id
      requires forall i :: 0 <= i < |cart| ==> cart[i].id != id
      modifies this`inventory
      ensures Valid()
      ensures r == NewProduct(old(inventory), draft, id, stamp)
      ensures inventory == if r.Success? then old(inventory) + [r.value] else old(inventory)
    {
      r := NewProduct(inventory, draft, id, stamp);
      if r.Success? {
        NewProductKeepsCatalogUnique(inventory, draft, id, stamp);
        inventory := inventory + [r.value];
      }
    }

    /** handleDeleteProduct: past sales keep their snapshots. */
    method DeleteProduct(id: int)
      requires Valid()
      modifies this`inventory
      ensures Valid()
      ensures inventory == RemoveProduct(old(inventory), id)
    {
      var before := inventory;
      RemoveProductKeepsCatalogUnique(inventory, id);
      inventory := RemoveProduct(inventory, id);
      forall i, j | 0 <= i < |cart| && 0 <= j < |inventory| && cart[i].id == inventory[j].id
        ensures cart[i].quantity <= inventory[j].quantity
      {
        var m :| 0 <= m < |before| && before[m] == inventory[j];
      }
    }

    /** handleAddToCart for `cashier`'s screen, with a product of the
        catalog. */
    method AddToCart(cashier: string, p: Product) returns (e: Option<SaleError>)
      requires Valid() && cashier in cashRegisters && p in inventory
      modifies this`cart
      ensures Valid()
      ensures var r := Cart.AddToCart(old(cart), p, cashRegisters[cashier].isOpen);
        && (r.Success? ==> e == None && cart == r.value)
        && (r.Failure? ==> e == Some(r.error) && cart == old(cart))
    {
      var r := Cart.AddToCart(cart, p, cashRegisters[cashier].isOpen);
      if r.Success? {
        var j :| 0 <= j < |inventory| && inventory[j] == p;
        AddToCartKeepsWellFormed(cart, inventory, j, cashRegisters[cashier].isOpen);
        cart := r.value;
        e := None;
      } else {
        e := Some(r.error);
      }
    }

    /** The barcode field of the sales screen: the product with that exact
        barcode goes to the cart, or the product is reported not found. */
    method ScanBarcode(cashier: string, code: string) returns (e: Option<SaleError>)
      requires Valid() && cashier in cashRegisters
      modifies this`cart
      ensures Valid()
      ensures FindByBarcode(inventory, code).None? ==> e == Some(ProductNotFound) && cart == old(cart)
      ensures FindByBarcode(inventory, code).Some? ==>
        var r := Cart.AddToCart(old(cart), FindByBarcode(inventory, code).value, cashRegisters[cashier].isOpen);
        && (r.Success? ==> e == None && cart == r.value)
        && (r.Failure? ==> e == Some(r.error) && cart == old(cart))
    {
      match FindByBarcode(inventory, code)
      case None =>
        e := Some(ProductNotFound);
      case Some(p) =>
        e := AddToCart(cashier, p);
    }

    /** updateCartQuantity, checked against the live catalog. */
    method UpdateCartQuantity(id: int, delta: int)
      requires Valid()
      modifies this`cart
      ensures Valid()
      ensures cart == UpdateQuantity(old(cart), inventory, id, delta)
    {
      UpdateQuantityKeepsWellFormed(cart, inventory, id, delta);
      cart := UpdateQuantity(cart, inventory, id, delta);
    }

    /** processPayment at `cashier`'s register. `tendered` is the amount
        entered (0 for none) and `saleId` the clock reading. An amount can
        be entered only for cash: choosing a method clears it. */
    method ProcessPayment(cashier: string, pay: PaymentMethod, tendered: int, saleId: int) returns (r: Result<Sale, SaleError>)
      requires Valid() && cashier in cashRegisters
      requires pay != Efectivo ==> tendered == 0
      modifies this`inventory, this`sales, this`cashRegisters, this`ticketCounter, this`cart
      ensures Valid()
      ensures r == Payment(old(cashRegisters[cashier].isOpen), old(cart), pay, tendered, cashier, saleId, old(ticketCounter))
      ensures r.Failure? ==>
        && inventory == old(inventory) && sales == old(sales) && cashRegisters == old(cashRegisters)
        && ticketCounter == old(ticketCounter) && cart == old(cart)
      ensures r.Success? ==>
        && ticketCounter == old(ticketCounter) + 1
        && sales == old(sales) + [r.value]
        && cashRegisters == old(cashRegisters)[cashier := RecordSale(old(cashRegisters[cashier]), r.value)]
        && inventory == DecrementStock(old(inventory), old(cart))
        && cart == []
      ensures r.Success? ==> forall i :: 0 <= i < |old(sales)| ==> old(sales)[i].ticketNumber < r.value.ticketNumber
      ensures r.Success? && pay != Efectivo ==> r.value.paidAmount == r.value.total && r.value.change == 0
      ensures r.Success? ==>
        cashRegisters[cashier].balance == old(cashRegisters[cashier].balance) + CashAmount(r.value) &&
        TotalBalance(cashRegisters) == TotalBalance(old(cashRegisters)) + CashAmount(r.value)
      ensures r.Success? && (forall j :: 0 <= j < |old(inventory)| ==> old(inventory)[j].quantity >= 0) ==>
        forall j :: 0 <= j < |inventory| ==> inventory[j].quantity >= 0
    {
      r := Payment(cashRegisters[cashier].isOpen, cart, pay, tendered, cashier, saleId, ticketCounter);
      if r.Success? {
        PaymentEffects(inventory, sales, cashRegisters, ticketCounter, cart, shiftStart, r.value);
        RecordPayment(r.value);
      }
    }

    /** The state update of processPayment, for a sale made from the cart
        with the current ticket number: stock decremented line by line,
        the sale stored globally and in its cashier's register with a
        `venta` entry, cash added to the drawer, the counter advanced and
        the cart emptied. */
    method RecordPayment(sale: Sale)
      requires Valid() && sale.cashier in cashRegisters
      requires sale.ticketNumber == ticketCounter
      modifies this`inventory, this`sales, this`cashRegisters, this`ticketCounter, this`cart
      ensures Valid()
      ensures ticketCounter == old(ticketCounter) + 1
      ensures sales == old(sales) + [sale]
      ensures cashRegisters == old(cashRegisters)[sale.cashier := RecordSale(old(cashRegisters[sale.cashier]), sale)]
      ensures inventory == DecrementStock(old(inventory), old(cart))
      ensures cart == []
    {
      var newInventory := DecrementInventory(inventory, cart);
      var reg := cashRegisters[sale.cashier];
      reg := reg.(sales := reg.sales + [sale]);
      reg := reg.(balance := reg.balance + (if sale.paymentMethod == Efectivo then sale.total else 0));
      reg := reg.(history := reg.history + [SaleEntry(sale)]);
      assert reg == RecordSale(cashRegisters[sale.cashier], sale);
      SaleKeepsState(inventory, sales, cashRegisters, ticketCounter, cart, shiftStart, sale);
      StockKeepsState(inventory, sales + [sale], cashRegisters[sale.cashier := reg], ticketCounter + 1, cart, shiftStart);
      inventory := newInventory;
      sales := sales + [sale];
      cashRegisters := cashRegisters[sale.cashier := reg];
      ticketCounter := ticketCounter + 1;
      cart := [];
    }

    /** confirmOpening. The register is closed: the screen offers opening
        only then. */
    method ConfirmOpening(cashier: string, amount: int)
      requires Valid() && cashier in cashRegisters
      requires !cashRegisters[cashier].isOpen
      modifies this`cashRegisters, this`shiftStart
      ensures Valid()
      ensures cashRegisters == old(cashRegisters)[cashier := OpenShift(old(cashRegisters[cashier]), amount)]
      ensures cashRegisters[cashier].balance == cashRegisters[cashier].openingAmount == amount
    {
      var reg := cashRegisters[cashier];
      OpeningKeepsState(inventory, sales, cashRegisters, ticketCounter, cart, shiftStart, cashier, amount);
      ghost var reopened := OpenShift(reg, amount);
      ghost var start := |reg.sales|;
      reg := reg.(isOpen := true);
      reg := reg.(openingAmount := amount);
      reg := reg.(balance := amount);
      reg := reg.(history := reg.history + [OpeningEntry(amount)]);
      assert reg == reopened;
      cashRegisters := cashRegisters[cashier := reg];
      shiftStart := shiftStart[cashier := start];
    }

    /** The close button. The register is open: the screen offers closing
        only then. */
    method CloseRegister(cashier: string)
      requires Valid() && cashier in cashRegisters
      requires cashRegisters[cashier].isOpen
      modifies this`cashRegisters
      ensures Valid()
      ensures cashRegisters == old(cashRegisters)[cashier := CloseShift(old(cashRegisters[cashier]))]
      ensures cashRegisters[cashier].balance == old(cashRegisters[cashier].balance)
      ensures Last(cashRegisters[cashier].history) == ClosingEntry(old(cashRegisters[cashier].balance))
    {
      var reg := cashRegisters[cashier];
      ClosingKeepsState(inventory, sales, cashRegisters, ticketCounter, cart, shiftStart, cashier);
      ghost var closed := CloseShift(reg);
      reg := reg.(isOpen := false);
      reg := reg.(history := reg.history + [ClosingEntry(reg.balance)]);
      assert reg == closed;
      cashRegisters := cashRegisters[cashier := reg];
    }
  }

  /** The invariant of the application state, on its values. */
  ghost predicate StateValid(inventory: seq<Product>, sales: seq<Sale>, regs: map<string, CashRegister>,
                             ticketCounter: nat, cart: seq<SaleItem>, starts: map<string, nat>)
  {
    && ticketCounter == FirstTicket + |sales|
    && Consecutive(sales, FirstTicket)
    && RegistersAgree(sales, regs, starts)
    && UniqueIds(inventory) && UniqueBarcodes(inventory)
    && WellFormed(cart, inventory)
  }

  lemma OpeningKeepsState(inventory: seq<Product>, sales: seq<Sale>, regs: map<string, CashRegister>,
                          ticketCounter: nat, cart: seq<SaleItem>, starts: map<string, nat>, c: string, amount: int)
    requires StateValid(inventory, sales, regs, ticketCounter, cart, starts) && c in regs
    ensures StateValid(inventory, sales, regs[c := OpenShift(regs[c], amount)], ticketCounter, cart,
                       starts[c := |regs[c].sales|])
  {
    OpenShiftAgrees(sales, regs, starts, c, amount);
  }

  lemma ClosingKeepsState(inventory: seq<Product>, sales: seq<Sale>, regs: map<string, CashRegister>,
                          ticketCounter: nat, cart: seq<SaleItem>, starts: map<string, nat>, c: string)
    requires StateValid(inventory, sales, regs, ticketCounter, cart, starts) && c in regs
    ensures StateValid(inventory, sales, regs[c := CloseShift(regs[c])], ticketCounter, cart, starts)
  {
    CloseShiftAgrees(sales, regs, starts, c);
  }

  lemma InitialStateValid()
    ensures StateValid([], [], InitialRegisters(), FirstTicket, [], map c | c in Cashiers :: 0)
  {
    InitialRegistersAgree();
    assert UniqueIds([]) && UniqueBarcodes([]);
    assert WellFormed([], []);
    assert Consecutive([], FirstTicket);
  }

  /** Recording a sale with the current counter, globally and in its
      cashier's register, keeps the invariant. */
  lemma SaleKeepsState(inventory: seq<Product>, sales: seq<Sale>, regs: map<string, CashRegister>,
                       ticketCounter: nat, cart: seq<SaleItem>, starts: map<string, nat>, sale: Sale)
    requires StateValid(inventory, sales, regs, ticketCounter, cart, starts)
    requires sale.cashier in regs && sale.ticketNumber == ticketCounter
    ensures StateValid(inventory, sales + [sale], regs[sale.cashier := RecordSale(regs[sale.cashier], sale)],
                       ticketCounter + 1, cart, starts)
  {
    RecordSaleAgrees(sales, regs, starts, sale);
    var all := sales + [sale];
    assert Consecutive(all, FirstTicket) by {
      forall i | 0 <= i < |all|
        ensures all[i].ticketNumber == FirstTicket + i
      {
        if i < |sales| {
          assert all[i] == sales[i];
        }
      }
    }
  }

  /** Taking the cart's units out of stock and emptying the cart keeps the
      invariant: ids and barcodes do not change. */
  lemma StockKeepsState(inventory: seq<Product>, sales: seq<Sale>, regs: map<string, CashRegister>,
                        ticketCounter: nat, cart: seq<SaleItem>, starts: map<string, nat>)
    requires StateValid(inventory, sales, regs, ticketCounter, cart, starts)
    ensures StateValid(DecrementStock(inventory, cart), sales, regs, ticketCounter, [], starts)
  {
    var newInventory := DecrementStock(inventory, cart);
    DecrementStockKeepsIds(inventory, cart);
    DecrementStockOnlyQuantities(inventory, cart);
    assert UniqueBarcodes(newInventory) by {
      forall a, b | 0 <= a < b < |newInventory|
        ensures BarcodeOf(newInventory[a]) != BarcodeOf(newInventory[b])
      {
        assert BarcodeOf(inventory[a]) != BarcodeOf(inventory[b]);
      }
    }
    assert WellFormed([], newInventory);
  }

  /** What a payment means beyond the invariant: the new ticket comes
      after every earlier one, the cashier's drawer and the sum of all
      drawers grow by the sale's cash amount, and stock that was never
      negative stays so. */
  lemma PaymentEffects(inventory: seq<Product>, sales: seq<Sale>, regs: map<string, CashRegister>,
                       ticketCounter: nat, cart: seq<SaleItem>, starts: map<string, nat>, sale: Sale)
    requires StateValid(inventory, sales, regs, ticketCounter, cart, starts)
    requires sale.cashier in regs && sale.ticketNumber == ticketCounter
    ensures forall i :: 0 <= i < |sales| ==> sales[i].ticketNumber < sale.ticketNumber
    ensures RecordSale(regs[sale.cashier], sale).balance == regs[sale.cashier].balance + CashAmount(sale)
    ensures TotalBalance(regs[sale.cashier := RecordSale(regs[sale.cashier], sale)]) == TotalBalance(regs) + CashAmount(sale)
    ensures (forall j :: 0 <= j < |inventory| ==> inventory[j].quantity >= 0) ==>
      forall j :: 0 <= j < |inventory| ==> DecrementStock(inventory, cart)[j].quantity >= 0
  {
    if forall j :: 0 <= j < |inventory| ==> inventory[j].quantity >= 0 {
      CheckoutKeepsStockNonNegative(inventory, cart);
    }
    IdentityListed(sale.cashier);
    TotalBalanceUpdate(regs, sale.cashier, RecordSale(regs[sale.cashier], sale));
  }

  /** The registers agree with the global sales: one register per
      identity, each sale made at one of them, each register holding
      exactly its cashier's sales in order, and each balanced for the
      shift that began at `starts`. */
  ghost predicate RegistersAgree(sales: seq<Sale>, regs: map<string, CashRegister>, starts: map<string, nat>)
  {
    && regs.Keys == UserPasswords.Keys
    && starts.Keys == regs.Keys
    && (forall i :: 0 <= i < |sales| ==> sales[i].cashier in regs)
    && (forall c {:trigger RegisterAgrees(sales, regs, starts, c)} :: c in regs ==> RegisterAgrees(sales, regs, starts, c))
  }

  /** Cashier `c`'s register holds exactly that cashier's sales, in order,
      and is balanced for the shift that began at `starts[c]`. */
  ghost predicate RegisterAgrees(sales: seq<Sale>, regs: map<string, CashRegister>, starts: map<string, nat>, c: string)
  {
    && c in regs && c in starts
    && regs[c].sales == Filter(sales, ByCashier(c))
    && Balanced(regs[c], starts[c])
  }

  lemma InitialRegistersAgree()
    ensures RegistersAgree([], InitialRegisters(), map c | c in Cashiers :: 0)
  {
    CashiersAreTheIdentities();
  }

  /** A sale recorded both globally and in its cashier's register keeps
      the two sets of books in agreement. */
  lemma RecordSaleAgrees(sales: seq<Sale>, regs: map<string, CashRegister>, starts: map<string, nat>, sale: Sale)
    requires RegistersAgree(sales, regs, starts) && sale.cashier in regs
    ensures RegistersAgree(sales + [sale], regs[sale.cashier := RecordSale(regs[sale.cashier], sale)], starts)
  {
    var c0 := sale.cashier;
    var after := regs[c0 := RecordSale(regs[c0], sale)];
    assert after.Keys == regs.Keys;
    var all := sales + [sale];
    forall i | 0 <= i < |all|
      ensures all[i].cashier in after
    {
      if i < |sales| {
        assert all[i] == sales[i];
      }
    }
    forall c | c in after
      ensures RegisterAgrees(sales + [sale], after, starts, c)
    {
      assert RegisterAgrees(sales, regs, starts, c);
      FilterAppend(sales, sale, ByCashier(c));
      if c == c0 {
        RecordSaleBalanced(regs[c0], starts[c0], sale);
      }
    }
  }

  /** Opening a register starts its shift at the end of its sales. */
  lemma OpenShiftAgrees(sales: seq<Sale>, regs: map<string, CashRegister>, starts: map<string, nat>, c0: string, amount: int)
    requires RegistersAgree(sales, regs, starts) && c0 in regs
    ensures RegistersAgree(sales, regs[c0 := OpenShift(regs[c0], amount)], starts[c0 := |regs[c0].sales|])
  {
    var after := regs[c0 := OpenShift(regs[c0], amount)];
    var starts' := starts[c0 := |regs[c0].sales|];
    assert RegisterAgrees(sales, regs, starts, c0);
    OpenShiftBalanced(regs[c0], amount);
    assert after.Keys == regs.Keys;
    assert starts'.Keys == starts.Keys;
    forall c | c in after
      ensures RegisterAgrees(sales, after, starts', c)
    {
      assert RegisterAgrees(sales, regs, starts, c);
    }
  }

  /** Closing a register keeps its shift's books. */
  lemma CloseShiftAgrees(sales: seq<Sale>, regs: map<string, CashRegister>, starts: map<string, nat>, c0: string)
    requires RegistersAgree(sales, regs, starts) && c0 in regs
    ensures RegistersAgree(sales, regs[c0 := CloseShift(regs[c0])], starts)
  {
    var after := regs[c0 := CloseShift(regs[c0])];
    assert after.Keys == regs.Keys;
    assert forall i :: 0 <= i < |sales| ==> sales[i].cashier in after;
    forall c | c in after
      ensures RegisterAgrees(sales, after, starts, c)
    {
      assert RegisterAgrees(sales, regs, starts, c);
      if c == c0 {
        CloseShiftBalanced(regs[c0], starts[c0]);
      } else {
        assert after[c] == regs[c];
      }
    }
  }

  function Last<T>(s: seq<T>): T
    requires s != []
  {
    s[|s| - 1]
  }
}
