/** The cart of the sales screen: adding a product one unit at a time,
    changing a line's quantity, and the cart total (App.tsx). The cart is
    a list of SaleItem snapshots. */
module Cart {
  import opened Types
  import opened Folds
  import opened Catalog

  function LineId(item: SaleItem): int { item.id }

  function LineQuantity(item: SaleItem): int { item.quantity }

  /** A line's extension, `price * quantity`. */
  function LineAmount(item: SaleItem): int { item.price * item.quantity }

  /** `cart.reduce((sum, item) => sum + item.price * item.quantity, 0)`. */
  function CartTotal(cart: seq<SaleItem>): (total: int)
    ensures cart == [] ==> total == 0
    ensures (forall i :: 0 <= i < |cart| ==> cart[i].price >= 0 && cart[i].quantity >= 0) ==> total >= 0
  {
    SumNonNegative(cart, LineAmount);
    Sum(cart, LineAmount)
  }

  function WithItemId(id: int): SaleItem -> bool
  {
    (l: SaleItem) => l.id == id
  }

  function NotItemId(id: int): SaleItem -> bool
  {
    (l: SaleItem) => l.id != id
  }

  /** The units of product `id` that the lines hold together. */
  function QuantityOf(lines: seq<SaleItem>, id: int): int
  {
    Sum(lines, KeepOrZero(WithItemId(id), LineQuantity))
  }

  predicate DistinctLines(cart: seq<SaleItem>)
  {
    Distinct(cart, LineId)
  }

  predicate PositiveQuantities(cart: seq<SaleItem>)
  {
    forall i :: 0 <= i < |cart| ==> cart[i].quantity >= 1
  }

  /** No line asks for more units than its product has in stock; lines
      whose product is no longer in the catalog are not constrained. */
  predicate WithinStock(cart: seq<SaleItem>, inv: seq<Product>)
  {
    forall i, j :: 0 <= i < |cart| && 0 <= j < |inv| && cart[i].id == inv[j].id ==>
      cart[i].quantity <= inv[j].quantity
  }

  /** What the cart handlers keep true of the cart. */
  predicate WellFormed(cart: seq<SaleItem>, inv: seq<Product>)
  {
    DistinctLines(cart) && PositiveQuantities(cart) && WithinStock(cart, inv)
  }

  /** `cart.find(item => item.id === id)`, as the line's position. */
  function FindLine(cart: seq<SaleItem>, id: int): (r: Option<nat>)
    ensures r.None? <==> forall i :: 0 <= i < |cart| ==> cart[i].id != id
    ensures r.Some? ==> r.value < |cart| && cart[r.value].id == id
    ensures r.Some? ==> forall i :: 0 <= i < r.value ==> cart[i].id != id
  {
    if cart == [] then None
    else if cart[0].id == id then Some(0)
    else
      var k := FindLine(cart[1..], id);
      assert forall i :: 1 <= i < |cart| ==> cart[i] == cart[1..][i - 1];
      if k.None? then None else Some(k.value + 1)
  }

  lemma QuantityOfAbsent(lines: seq<SaleItem>, id: int)
    requires forall i :: 0 <= i < |lines| ==> lines[i].id != id
    ensures QuantityOf(lines, id) == 0
  {
    SumOfNone(lines, KeepOrZero(WithItemId(id), LineQuantity));
  }

  /** With one line per product, the units of a product are its line's
      quantity. */
  lemma QuantityOfLine(lines: seq<SaleItem>, k: nat)
    requires DistinctLines(lines) && k < |lines|
    ensures QuantityOf(lines, lines[k].id) == lines[k].quantity
  {
    var f := KeepOrZero(WithItemId(lines[k].id), LineQuantity);
    forall i | 0 <= i < |lines| && i != k
      ensures f(lines[i]) == 0
    {
      assert LineId(lines[i]) != LineId(lines[k]);
    }
    SumOfOne(lines, k, f);
  }

  /** The line a product gets when it first enters the cart: one unit at
      the product's current gross price. */
  function Snapshot(p: Product): (line: SaleItem)
    ensures line.id == p.id && line.name == p.name && line.barcode == p.barcode
    ensures line.price == p.saleIva && line.quantity == 1
  {
    SaleItem(p.id, p.name, p.saleIva, 1, p.barcode)
  }

  /** `cart.map(item => item.id === id ? {...item, quantity: f(item)} : item)`. */
  function UpdateLines(cart: seq<SaleItem>, id: int, increment: bool, q: int): (r: seq<SaleItem>)
    ensures |r| == |cart|
    ensures forall i :: 0 <= i < |cart| ==> r[i].id == cart[i].id
  {
    seq(|cart|, i requires 0 <= i < |cart| =>
      if cart[i].id != id then cart[i]
      else cart[i].(quantity := if increment then cart[i].quantity + 1 else q))
  }

  /** With one line per product, updating the lines of a product updates
      exactly its line. */
  lemma UpdateLinesAt(cart: seq<SaleItem>, k: nat, increment: bool, q: int)
    requires DistinctLines(cart) && k < |cart|
    ensures UpdateLines(cart, cart[k].id, increment, q) ==
      cart[k := cart[k].(quantity := if increment then cart[k].quantity + 1 else q)]
  {
    forall i | 0 <= i < |cart| && i != k
      ensures cart[i].id != cart[k].id
    {
      assert LineId(cart[i]) != LineId(cart[k]);
    }
  }

  /** handleAddToCart (the register gate, the stock gate, and the cart
      updater). `registerOpen` is the state of the cashier's register. */
  function AddToCart(cart: seq<SaleItem>, p: Product, registerOpen: bool): (r: Result<seq<SaleItem>, SaleError>)
    ensures r == Failure(RegisterClosed) <==> !registerOpen
    ensures r == Failure(OutOfStock) <==> registerOpen && p.quantity <= 0
    ensures r == Failure(NoMoreStock) <==>
      && registerOpen && p.quantity > 0
      && FindLine(cart, p.id).Some? && cart[FindLine(cart, p.id).value].quantity >= p.quantity
    ensures r.Failure? ==> r.error in {RegisterClosed, OutOfStock, NoMoreStock}
    ensures r.Success? && FindLine(cart, p.id).None? ==> r.value == cart + [Snapshot(p)]
  {
    if !registerOpen then Failure(RegisterClosed)
    else if p.quantity <= 0 then Failure(OutOfStock)
    else match FindLine(cart, p.id)
      case Some(k) =>
        if cart[k].quantity >= p.quantity then Failure(NoMoreStock)
        else Success(UpdateLines(cart, p.id, true, 0))
      case None => Success(cart + [Snapshot(p)])
  }

  /** A successful add puts exactly one more unit of the product in the
      cart, leaves every other product's units alone, and raises the total
      by one unit price: the line's frozen price, or the product's current
      gross price for a new line. */
  lemma AddToCartAddsOneUnit(cart: seq<SaleItem>, p: Product, registerOpen: bool)
    requires DistinctLines(cart)
    requires AddToCart(cart, p, registerOpen).Success?
    ensures DistinctLines(AddToCart(cart, p, registerOpen).value)
    ensures QuantityOf(AddToCart(cart, p, registerOpen).value, p.id) == QuantityOf(cart, p.id) + 1
    ensures forall id :: id != p.id ==>
      QuantityOf(AddToCart(cart, p, registerOpen).value, id) == QuantityOf(cart, id)
    ensures CartTotal(AddToCart(cart, p, registerOpen).value) == CartTotal(cart) +
      (match FindLine(cart, p.id) case Some(k) => cart[k].price case None => p.saleIva)
  {
    var r := AddToCart(cart, p, registerOpen).value;
    match FindLine(cart, p.id)
    case None =>
      assert r == cart + [Snapshot(p)];
      assert forall i :: 0 <= i < |cart| ==> r[i] == cart[i];
      assert DistinctLines(r) by {
        forall i, j | 0 <= i < j < |r|
          ensures LineId(r[i]) != LineId(r[j])
        {
          if j == |cart| {
            assert r[j].id == p.id;
          } else {
            assert LineId(cart[i]) != LineId(cart[j]);
          }
        }
      }
      SumAppend(cart, Snapshot(p), LineAmount);
      forall id
        ensures QuantityOf(r, id) == QuantityOf(cart, id) + (if id == p.id then 1 else 0)
      {
        SumAppend(cart, Snapshot(p), KeepOrZero(WithItemId(id), LineQuantity));
        var line := Snapshot(p);
        assert WithItemId(id)(line) == (id == p.id) && LineQuantity(line) == 1;
      }
    case Some(k) =>
      var line := cart[k].(quantity := cart[k].quantity + 1);
      UpdateLinesAt(cart, k, true, 0);
      assert r == cart[k := line];
      assert DistinctLines(r) by {
        forall i, j | 0 <= i < j < |r|
          ensures LineId(r[i]) != LineId(r[j])
        {
          assert LineId(cart[i]) != LineId(cart[j]);
        }
      }
      SumUpdate(cart, k, line, LineAmount);
      assert LineAmount(line) == LineAmount(cart[k]) + cart[k].price;
      forall id
        ensures QuantityOf(r, id) == QuantityOf(cart, id) + (if id == p.id then 1 else 0)
      {
        SumUpdate(cart, k, line, KeepOrZero(WithItemId(id), LineQuantity));
      }
  }

  /** A successful add keeps the cart within the stock of the product it
      was given, when that product is the catalog's current entry. */
  lemma AddToCartKeepsWellFormed(cart: seq<SaleItem>, inv: seq<Product>, j: nat, registerOpen: bool)
    requires UniqueIds(inv) && j < |inv|
    requires WellFormed(cart, inv)
    requires AddToCart(cart, inv[j], registerOpen).Success?
    ensures WellFormed(AddToCart(cart, inv[j], registerOpen).value, inv)
  {
    var p := inv[j];
    var r := AddToCart(cart, p, registerOpen).value;
    AddToCartAddsOneUnit(cart, p, registerOpen);
    forall i, m | 0 <= i < |r| && 0 <= m < |inv| && r[i].id == inv[m].id
      ensures r[i].quantity <= inv[m].quantity
    {
      if r[i].id == p.id {
        assert IdOf(inv[m]) == IdOf(inv[j]);
        assert m == j;
      }
    }
  }

  /** updateCartQuantity's updater: `delta` is added to the quantity of
      product `id`'s line. Below 1 the line is removed; above the product's
      current stock the cart is left as it was; a product no longer in the
      catalog is not checked against any stock. */
  function UpdateQuantity(cart: seq<SaleItem>, inv: seq<Product>, id: int, delta: int): (r: seq<SaleItem>)
    ensures FindLine(cart, id).None? ==> r == cart
    ensures forall i :: 0 <= i < |r| ==> r[i].id != id ==> r[i] in cart
    ensures forall i :: 0 <= i < |cart| ==> cart[i].id != id ==> cart[i] in r
  {
    match FindLine(cart, id)
    case None => cart
    case Some(k) =>
      var newQty := cart[k].quantity + delta;
      if newQty < 1 then Filter(cart, NotItemId(id))
      else
        var j := FindIndex(inv, id);
        if j != -1 && newQty > inv[j].quantity then cart
        else
          var r := UpdateLines(cart, id, false, newQty);
          assert forall i :: 0 <= i < |cart| && cart[i].id != id ==> r[i] == cart[i];
          r
  }

  lemma FindLineOfMember(cart: seq<SaleItem>, k: nat)
    requires DistinctLines(cart) && k < |cart|
    ensures FindLine(cart, cart[k].id) == Some(k)
  {
    var m := FindLine(cart, cart[k].id).value;
    assert LineId(cart[m]) == LineId(cart[k]);
  }

  /** Removing a product's line (`cart.filter(i => i.id !== id)`) takes
      all its units out, leaves the other products' units, and lowers the
      total by that line's extension. */
  lemma RemoveLineEffect(cart: seq<SaleItem>, k: nat)
    requires DistinctLines(cart) && k < |cart|
    ensures var id, r := cart[k].id, Filter(cart, NotItemId(cart[k].id));
      && DistinctLines(r)
      && (forall i :: 0 <= i < |r| ==> r[i].id != id)
      && QuantityOf(r, id) == 0
      && (forall other :: other != id ==> QuantityOf(r, other) == QuantityOf(cart, other))
      && CartTotal(r) == CartTotal(cart) - LineAmount(cart[k])
  {
    var id := cart[k].id;
    var keep := NotItemId(id);
    var r := Filter(cart, keep);
    FilterDistinct(cart, keep, LineId);
    QuantityOfAbsent(r, id);
    forall other | other != id
      ensures QuantityOf(r, other) == QuantityOf(cart, other)
    {
      var f := KeepOrZero(WithItemId(other), LineQuantity);
      SumFilter(cart, keep, f);
      SumPointwise(cart, KeepOrZero(keep, f), f);
    }
    var g := KeepOrZero(WithItemId(id), LineAmount);
    SumFilter(cart, keep, LineAmount);
    SumAdd(cart, LineAmount, KeepOrZero(keep, LineAmount), g);
    forall i | 0 <= i < |cart| && i != k
      ensures g(cart[i]) == 0
    {
      assert LineId(cart[i]) != LineId(cart[k]);
    }
    SumOfOne(cart, k, g);
  }

  /** Setting one line's quantity to `q` gives its product exactly `q`
      units, leaves the other products' units, and moves the total by the
      line's price times the change. */
  lemma SetLineEffect(cart: seq<SaleItem>, k: nat, q: int)
    requires DistinctLines(cart) && k < |cart|
    ensures var id, r := cart[k].id, cart[k := cart[k].(quantity := q)];
      && DistinctLines(r)
      && QuantityOf(r, id) == q
      && (forall other :: other != id ==> QuantityOf(r, other) == QuantityOf(cart, other))
      && CartTotal(r) == CartTotal(cart) + cart[k].price * (q - cart[k].quantity)
  {
    var id := cart[k].id;
    var line := cart[k].(quantity := q);
    var r := cart[k := line];
    assert DistinctLines(r) by {
      forall i, m | 0 <= i < m < |r|
        ensures LineId(r[i]) != LineId(r[m])
      {
        assert LineId(cart[i]) != LineId(cart[m]);
      }
    }
    QuantityOfLine(r, k);
    forall other | other != id
      ensures QuantityOf(r, other) == QuantityOf(cart, other)
    {
      SumUpdate(cart, k, line, KeepOrZero(WithItemId(other), LineQuantity));
    }
    SumUpdate(cart, k, line, LineAmount);
    assert LineAmount(line) - LineAmount(cart[k]) == cart[k].price * (q - cart[k].quantity);
  }

  /** With one line per product: the product's units become the new
      quantity, or 0 when that falls below 1, or stay as they were when the
      new quantity exceeds the stock; no other product's units change; the
      total moves by the line's frozen price times the change in units. */
  lemma UpdateQuantityEffect(cart: seq<SaleItem>, inv: seq<Product>, k: nat, delta: int)
    requires DistinctLines(cart) && k < |cart|
    ensures var r := UpdateQuantity(cart, inv, cart[k].id, delta);
      var id, newQty, j := cart[k].id, cart[k].quantity + delta, FindIndex(inv, cart[k].id);
      && DistinctLines(r)
      && (newQty < 1 ==> QuantityOf(r, id) == 0 && forall i :: 0 <= i < |r| ==> r[i].id != id)
      && (newQty >= 1 && j != -1 && newQty > inv[j].quantity ==> r == cart)
      && (newQty >= 1 && (j == -1 || newQty <= inv[j].quantity) ==> QuantityOf(r, id) == newQty)
      && (forall other :: other != id ==> QuantityOf(r, other) == QuantityOf(cart, other))
      && CartTotal(r) == CartTotal(cart) + cart[k].price * (QuantityOf(r, id) - cart[k].quantity)
  {
    var id := cart[k].id;
    var newQty := cart[k].quantity + delta;
    FindLineOfMember(cart, k);
    QuantityOfLine(cart, k);
    var r := UpdateQuantity(cart, inv, id, delta);
    if newQty < 1 {
      assert r == Filter(cart, NotItemId(id));
      RemoveLineEffect(cart, k);
      assert cart[k].price * (0 - cart[k].quantity) == -LineAmount(cart[k]);
    } else {
      var j := FindIndex(inv, id);
      if j == -1 || newQty <= inv[j].quantity {
        assert r == UpdateLines(cart, id, false, newQty);
        UpdateLinesAt(cart, k, false, newQty);
        SetLineEffect(cart, k, newQty);
      } else {
        assert r == cart;
        assert cart[k].price * (cart[k].quantity - cart[k].quantity) == 0;
      }
    }
  }

  /** Changing a quantity keeps one line per product, every quantity at
      least 1, and every line within its product's current stock. */
  lemma UpdateQuantityKeepsWellFormed(cart: seq<SaleItem>, inv: seq<Product>, id: int, delta: int)
    requires UniqueIds(inv)
    requires WellFormed(cart, inv)
    ensures WellFormed(UpdateQuantity(cart, inv, id, delta), inv)
  {
    var r := UpdateQuantity(cart, inv, id, delta);
    match FindLine(cart, id)
    case None =>
    case Some(k) =>
      UpdateQuantityEffect(cart, inv, k, delta);
      var newQty := cart[k].quantity + delta;
      var j := FindIndex(inv, id);
      if newQty >= 1 && (j == -1 || newQty <= inv[j].quantity) {
        UpdateLinesAt(cart, k, false, newQty);
        forall i, m | 0 <= i < |r| && 0 <= m < |inv| && r[i].id == inv[m].id
          ensures r[i].quantity <= inv[m].quantity
        {
          if i == k {
            assert IdOf(inv[m]) == IdOf(inv[j]);
          }
        }
      }
  }
}
