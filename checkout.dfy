/** The pure side of processPayment (App.tsx): its three guards, the
    sale record it builds, the change and the amount paid, and the stock
    decrement that the `cart.forEach` loop performs. */
module Checkout {
  import opened Types
  import opened Folds
  import opened Catalog
  import opened Cart

  /** `changeDue`: the tendered amount less the total, or 0 when nothing
      positive was tendered. `tendered` stands for
      `selectedBillAmount || customAmount || 0`, with 0 for nothing. */
  function ChangeDue(tendered: int, total: int): (change: int)
    ensures tendered > 0 ==> total + change == tendered
    ensures tendered <= 0 ==> change == 0
  {
    if tendered > 0 then tendered - total else 0
  }

  /** The sale's `paidAmount`: for cash the amount tendered, or the total
      when nothing was tendered; for the other methods the total. */
  function PaidAmount(pay: PaymentMethod, tendered: int, total: int): (paid: int)
    ensures pay != Efectivo || tendered == 0 ==> paid == total
    ensures pay == Efectivo && tendered != 0 ==> paid == tendered
    ensures pay == Efectivo && tendered >= 0 ==> paid - ChangeDue(tendered, total) == total
  {
    if pay == Efectivo && tendered != 0 then tendered else total
  }

  /** The sale record for the current cart. `id` stands for `Date.now()`. */
  function MakeSale(id: int, ticket: nat, cart: seq<SaleItem>, pay: PaymentMethod, cashier: string, tendered: int): (s: Sale)
    ensures s.id == id && s.ticketNumber == ticket && s.items == cart
    ensures s.total == CartTotal(cart) && s.paymentMethod == pay && s.cashier == cashier
    ensures pay == Efectivo && tendered >= 0 ==> s.paidAmount - s.change == s.total
    ensures pay != Efectivo && tendered == 0 ==> s.paidAmount == s.total && s.change == 0
  {
    var total := CartTotal(cart);
    Sale(id, ticket, cart, total, pay, cashier, PaidAmount(pay, tendered, total), ChangeDue(tendered, total))
  }

  /** processPayment up to the state update: the guards in their order
      and, when they pass, the sale it records. */
  function Payment(registerOpen: bool, cart: seq<SaleItem>, pay: PaymentMethod, tendered: int,
                   cashier: string, id: int, ticket: nat): (r: Result<Sale, SaleError>)
    ensures r == Failure(RegisterClosed) <==> !registerOpen
    ensures r == Failure(EmptyCart) <==> registerOpen && cart == []
    ensures r == Failure(InsufficientAmount) <==>
      registerOpen && cart != [] && pay == Efectivo && tendered < CartTotal(cart)
    ensures r.Failure? ==> r.error in {RegisterClosed, EmptyCart, InsufficientAmount}
    ensures r.Success? ==>
      && r.value.id == id
      && r.value.ticketNumber == ticket
      && r.value.items == cart && r.value.items != []
      && r.value.total == CartTotal(cart)
      && r.value.paymentMethod == pay
      && r.value.cashier == cashier
    ensures r.Success? && pay == Efectivo && tendered >= 0 ==>
      r.value.paidAmount >= r.value.total && r.value.change >= 0 &&
      r.value.paidAmount - r.value.change == r.value.total
    ensures r.Success? && pay == Efectivo ==>
      r.value.paidAmount == (if tendered != 0 then tendered else r.value.total) &&
      r.value.change == (if tendered > 0 then tendered - r.value.total else 0)
    ensures r.Success? && pay != Efectivo ==>
      r.value.paidAmount == r.value.total &&
      r.value.change == (if tendered > 0 then tendered - r.value.total else 0)
    ensures r.Success? && pay != Efectivo && tendered == 0 ==>
      r.value.paidAmount == r.value.total && r.value.change == 0
  {
    if !registerOpen then Failure(RegisterClosed)
    else if cart == [] then Failure(EmptyCart)
    else if pay == Efectivo && tendered < CartTotal(cart) then Failure(InsufficientAmount)
    else Success(MakeSale(id, ticket, cart, pay, cashier, tendered))
  }

  /** One pass of the `cart.forEach`: the first product with the line's
      id loses the line's quantity; a line whose product is gone changes
      nothing. */
  function ApplyLine(inv: seq<Product>, line: SaleItem): (r: seq<Product>)
    ensures |r| == |inv|
    ensures forall j :: 0 <= j < |inv| ==> r[j].id == inv[j].id
  {
    var j := FindIndex(inv, line.id);
    if j == -1 then inv else inv[j := inv[j].(quantity := inv[j].quantity - line.quantity)]
  }

  /** The catalog after the whole `forEach`, line by line in cart order.
      Only quantities change, and no product is added or removed. */
  function DecrementStock(inv: seq<Product>, lines: seq<SaleItem>): (r: seq<Product>)
    ensures |r| == |inv|
    ensures forall j :: 0 <= j < |inv| ==> r[j].id == inv[j].id
    decreases |lines|
  {
    if lines == [] then inv
    else ApplyLine(DecrementStock(inv, lines[..|lines| - 1]), lines[|lines| - 1])
  }

  /** The `forEach` itself, over the copy `[...prev.inventory]`, whose
      entries it rewrites one position at a time. */
  method DecrementInventory(inv: seq<Product>, cart: seq<SaleItem>) returns (r: seq<Product>)
    ensures r == DecrementStock(inv, cart)
  {
    r := inv;
    for k := 0 to |cart|
      invariant r == DecrementStock(inv, cart[..k])
    {
      var line := cart[k];
      var idx := FindIndex(r, line.id);
      if idx != -1 {
        r := r[idx := r[idx].(quantity := r[idx].quantity - line.quantity)];
      }
      assert cart[..k + 1][..k] == cart[..k];
    }
    assert cart[..|cart|] == cart;
  }

  /** Checkout changes only quantities: every product keeps its other
      fields. */
  lemma {:induction false} DecrementStockOnlyQuantities(inv: seq<Product>, lines: seq<SaleItem>)
    ensures var r := DecrementStock(inv, lines);
      forall j :: 0 <= j < |inv| ==> r[j].(quantity := inv[j].quantity) == inv[j]
    decreases |lines|
  {
    if lines != [] {
      DecrementStockOnlyQuantities(inv, lines[..|lines| - 1]);
    }
  }

  /** Decrementing keeps the catalog's ids distinct. */
  lemma DecrementStockKeepsIds(inv: seq<Product>, lines: seq<SaleItem>)
    requires UniqueIds(inv)
    ensures UniqueIds(DecrementStock(inv, lines))
  {
    var r := DecrementStock(inv, lines);
    forall a, b | 0 <= a < b < |r|
      ensures IdOf(r[a]) != IdOf(r[b])
    {
      assert IdOf(inv[a]) != IdOf(inv[b]);
    }
  }

  /** With distinct ids, each product loses exactly the units of it that
      the lines hold together, and a product no line names keeps its
      stock. */
  lemma {:induction false} DecrementStockAt(inv: seq<Product>, lines: seq<SaleItem>, j: nat)
    requires UniqueIds(inv) && j < |inv|
    ensures DecrementStock(inv, lines)[j].quantity == inv[j].quantity - QuantityOf(lines, inv[j].id)
    decreases |lines|
  {
    var f := KeepOrZero(WithItemId(inv[j].id), LineQuantity);
    if lines == [] {
    } else {
      var init, last := lines[..|lines| - 1], lines[|lines| - 1];
      DecrementStockAt(inv, init, j);
      var m := DecrementStock(inv, init);
      assert lines == init + [last];
      SumAppend(init, last, f);
      DecrementStockKeepsIds(inv, init);
      if last.id == inv[j].id {
        FindIndexOfMember(m, j);
      }
    }
  }

  /** When every stock is non-negative and the cart is well formed, no
      stock goes negative at checkout. */
  lemma CheckoutKeepsStockNonNegative(inv: seq<Product>, cart: seq<SaleItem>)
    requires UniqueIds(inv) && WellFormed(cart, inv)
    requires forall j :: 0 <= j < |inv| ==> inv[j].quantity >= 0
    ensures forall j :: 0 <= j < |inv| ==> DecrementStock(inv, cart)[j].quantity >= 0
  {
    forall j | 0 <= j < |inv|
      ensures DecrementStock(inv, cart)[j].quantity >= 0
    {
      DecrementStockAt(inv, cart, j);
      match FindLine(cart, inv[j].id)
      case None =>
        QuantityOfAbsent(cart, inv[j].id);
      case Some(k) =>
        QuantityOfLine(cart, k);
    }
  }
}
