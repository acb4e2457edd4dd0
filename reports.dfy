/** The read-only aggregates of the dashboard and the reports screen
    (App.tsx): units on hand, the catalog valued at cost, the sum of the
    register balances, the historical total, count and average ticket,
    and the totals per cashier and per payment method. Each is a fold that
    starts at 0. */
module Reports {
  import opened Types
  import opened Folds
  import opened Rounding
  import opened Constants
  import opened Catalog
  import opened Cart
  import opened Checkout
  import opened Ledger

  function ProductUnits(p: Product): int { p.quantity }

  function CostValue(p: Product): int { p.lastPurchase * p.quantity }

  /** Units on hand across the catalog. */
  function TotalUnits(inv: seq<Product>): (units: int)
    ensures inv == [] ==> units == 0
    ensures (forall j :: 0 <= j < |inv| ==> inv[j].quantity >= 0) ==> units >= 0
  {
    SumNonNegative(inv, ProductUnits);
    Sum(inv, ProductUnits)
  }

  /** The catalog valued at the last purchase price. */
  function InventoryValue(inv: seq<Product>): (value: int)
    ensures inv == [] ==> value == 0
    ensures (forall j :: 0 <= j < |inv| ==> inv[j].lastPurchase >= 0 && inv[j].quantity >= 0) ==> value >= 0
  {
    SumNonNegative(inv, CostValue);
    Sum(inv, CostValue)
  }

  function BalanceIn(regs: map<string, CashRegister>): string -> int
  {
    (c: string) => if c in regs then regs[c].balance else 0
  }

  /** The balances of all registers, summed in the order the registers
      are declared. */
  function TotalBalance(regs: map<string, CashRegister>): (total: int)
    ensures (forall c :: c in regs ==> regs[c].balance >= 0) ==> total >= 0
  {
    SumNonNegative(Cashiers, BalanceIn(regs));
    Sum(Cashiers, BalanceIn(regs))
  }

  /** "Total Ventas Histórico". */
  function SalesTotal(sales: seq<Sale>): (total: int)
    ensures sales == [] ==> total == 0
    ensures (forall i :: 0 <= i < |sales| ==> sales[i].total >= 0) ==> total >= 0
  {
    SumNonNegative(sales, SaleTotal);
    Sum(sales, SaleTotal)
  }

  /** "Ticket Promedio": the historical total over the number of sales,
      rounded to the nearest peso, or 0 when there are no sales. */
  function AverageTicket(sales: seq<Sale>): (r: int)
    ensures |sales| == 0 ==> r == 0
    ensures |sales| > 0 ==> -|sales| <= 2 * (SalesTotal(sales) - r * |sales|) < |sales|
  {
    if |sales| > 0 then RoundDiv(SalesTotal(sales), |sales|) else 0
  }

  /** One cashier's total sold, from the global list of sales. */
  function CashierTotal(sales: seq<Sale>, c: string): (total: int)
    ensures (forall i :: 0 <= i < |sales| ==> sales[i].cashier != c) ==> total == 0
  {
    FilterNone(sales, ByCashier(c));
    Sum(Filter(sales, ByCashier(c)), SaleTotal)
  }

  /** One payment method's total sold. */
  function MethodTotal(sales: seq<Sale>, m: PaymentMethod): (total: int)
    ensures (forall i :: 0 <= i < |sales| ==> sales[i].paymentMethod != m) ==> total == 0
  {
    FilterNone(sales, ByMethod(m));
    Sum(Filter(sales, ByMethod(m)), SaleTotal)
  }

  /** The doughnut's data: the totals for cash, card and transfer, mapped
      over the list of methods. */
  function MethodBreakdown(sales: seq<Sale>): (r: seq<int>)
    ensures |r| == |PaymentMethods|
    ensures forall i :: 0 <= i < |r| ==> r[i] == MethodTotal(sales, PaymentMethods[i])
  {
    seq(|PaymentMethods|, i requires 0 <= i < |PaymentMethods| => MethodTotal(sales, PaymentMethods[i]))
  }

  /** Every aggregate is 0 on empty data. */
  lemma AggregatesOfNothing()
    ensures TotalUnits([]) == 0 && InventoryValue([]) == 0 && SalesTotal([]) == 0
    ensures CartTotal([]) == 0
    ensures AverageTicket([]) == 0
    ensures forall c :: CashierTotal([], c) == 0
    ensures forall m :: MethodTotal([], m) == 0
    ensures TotalBalance(InitialRegisters()) == 0
  {
    var regs := InitialRegisters();
    forall i | 0 <= i < |Cashiers|
      ensures BalanceIn(regs)(Cashiers[i]) == 0
    {
    }
    SumOfNone(Cashiers, BalanceIn(regs));
  }

  lemma {:induction false} SumsByMethod(s: seq<Sale>)
    ensures Sum(s, KeepOrZero(ByMethod(Efectivo), SaleTotal))
          + Sum(s, KeepOrZero(ByMethod(Tarjeta), SaleTotal))
          + Sum(s, KeepOrZero(ByMethod(Transferencia), SaleTotal)) == Sum(s, SaleTotal)
  {
    if s != [] {
      SumsByMethod(s[1..]);
    }
  }

  /** Every sale is counted under exactly one payment method, so the
      breakdown adds up to the historical total. */
  lemma MethodBreakdownAddsUp(sales: seq<Sale>)
    ensures var b := MethodBreakdown(sales); b[0] + b[1] + b[2] == SalesTotal(sales)
  {
    SumFilter(sales, ByMethod(Efectivo), SaleTotal);
    SumFilter(sales, ByMethod(Tarjeta), SaleTotal);
    SumFilter(sales, ByMethod(Transferencia), SaleTotal);
    SumsByMethod(sales);
  }

  /** The cash total that drives the register balance is the `efectivo`
      slice of the breakdown. */
  lemma CashIsEfectivoTotal(sales: seq<Sale>)
    ensures CashTotal(sales) == MethodTotal(sales, Efectivo)
  {
    SumFilter(sales, ByMethod(Efectivo), SaleTotal);
    SumPointwise(sales, CashAmount, KeepOrZero(ByMethod(Efectivo), SaleTotal));
  }

  /** What one sale contributes to each cashier's total. */
  function ShareOf(x: Sale): string -> int
  {
    (c: string) => if x.cashier == c then x.total else 0
  }

  function CashierTotals(sales: seq<Sale>): string -> int
  {
    (c: string) => CashierTotal(sales, c)
  }

  lemma CashierTotalCons(sales: seq<Sale>, c: string)
    requires sales != []
    ensures CashierTotal(sales, c) == ShareOf(sales[0])(c) + CashierTotal(sales[1..], c)
  {
    var head := if sales[0].cashier == c then [sales[0]] else [];
    SumConcat(head, Filter(sales[1..], ByCashier(c)), SaleTotal);
  }

  /** Splitting off the first sale splits every cashier's total. */
  lemma CashierTotalsStep(sales: seq<Sale>)
    requires sales != [] && sales[0].cashier in Cashiers
    ensures Sum(Cashiers, CashierTotals(sales)) == sales[0].total + Sum(Cashiers, CashierTotals(sales[1..]))
  {
    var x := sales[0];
    forall i | 0 <= i < |Cashiers|
      ensures CashierTotals(sales)(Cashiers[i]) == ShareOf(x)(Cashiers[i]) + CashierTotals(sales[1..])(Cashiers[i])
    {
      CashierTotalCons(sales, Cashiers[i]);
    }
    SumAdd(Cashiers, CashierTotals(sales), ShareOf(x), CashierTotals(sales[1..]));
    CashiersDistinct();
    var k :| 0 <= k < |Cashiers| && Cashiers[k] == x.cashier;
    SumOfOne(Cashiers, k, ShareOf(x));
  }

  /** When every sale was made at a known register, the per-cashier
      totals add up to the historical total. */
  lemma {:induction false} CashierTotalsAddUp(sales: seq<Sale>)
    requires forall i :: 0 <= i < |sales| ==> sales[i].cashier in Cashiers
    ensures Sum(Cashiers, CashierTotals(sales)) == SalesTotal(sales)
  {
    if sales == [] {
      SumOfNone(Cashiers, CashierTotals(sales));
    } else {
      CashierTotalsAddUp(sales[1..]);
      CashierTotalsStep(sales);
    }
  }

  /** With every sale's total between `lo` and `hi`, so is the average
      ticket. */
  lemma AverageTicketWithin(sales: seq<Sale>, lo: int, hi: int)
    requires |sales| > 0
    requires forall i :: 0 <= i < |sales| ==> lo <= sales[i].total <= hi
    ensures lo <= AverageTicket(sales) <= hi
  {
    var n, r := |sales|, AverageTicket(sales);
    SalesTotalBounds(sales, lo, hi);
    MulBounds(r - hi, n);
    MulBounds(r - lo, n);
    assert (r - hi) * n == r * n - hi * n;
    assert (r - lo) * n == r * n - lo * n;
  }

  lemma {:induction false} SalesTotalBounds(sales: seq<Sale>, lo: int, hi: int)
    requires forall i :: 0 <= i < |sales| ==> lo <= sales[i].total <= hi
    ensures lo * |sales| <= SalesTotal(sales) <= hi * |sales|
  {
    if sales != [] {
      SalesTotalBounds(sales[1..], lo, hi);
      assert lo * |sales| == lo + lo * (|sales| - 1);
      assert hi * |sales| == hi + hi * (|sales| - 1);
    }
  }

  /** Replacing one register changes the sum of balances by the change of
      that register's balance. */
  lemma TotalBalanceUpdate(regs: map<string, CashRegister>, c: string, reg: CashRegister)
    requires c in regs && c in Cashiers
    ensures TotalBalance(regs[c := reg]) == TotalBalance(regs) - regs[c].balance + reg.balance
  {
    var after, before := BalanceIn(regs[c := reg]), BalanceIn(regs);
    var delta := (x: string) => after(x) - before(x);
    SumAdd(Cashiers, after, before, delta);
    CashiersDistinct();
    var k :| 0 <= k < |Cashiers| && Cashiers[k] == c;
    SumOfOne(Cashiers, k, delta);
  }

  /** The units that the lines take out of the catalog: those of lines
      whose product is still in it. */
  function UnitsSold(inv: seq<Product>, lines: seq<SaleItem>): int
  {
    Sum(lines, KeepOrZero(InCatalog(inv), LineQuantity))
  }

  function InCatalog(inv: seq<Product>): SaleItem -> bool
  {
    (l: SaleItem) => FindIndex(inv, l.id) != -1
  }

  /** One line takes its quantity out of the units on hand when its
      product is in the catalog, and nothing otherwise. */
  lemma ApplyLineUnits(inv: seq<Product>, line: SaleItem)
    ensures TotalUnits(ApplyLine(inv, line)) ==
      TotalUnits(inv) - (if FindIndex(inv, line.id) != -1 then line.quantity else 0)
  {
    var j := FindIndex(inv, line.id);
    if j != -1 {
      SumUpdate(inv, j, inv[j].(quantity := inv[j].quantity - line.quantity), ProductUnits);
    }
  }

  /** Lookups by id only see the ids. */
  lemma FindIndexSameIds(a: seq<Product>, b: seq<Product>, id: int)
    requires |a| == |b| && forall j :: 0 <= j < |a| ==> a[j].id == b[j].id
    ensures FindIndex(a, id) == FindIndex(b, id)
  {
    var x, y := FindIndex(a, id), FindIndex(b, id);
    if x != -1 && y != -1 {
      assert !(x < y) && !(y < x);
    }
  }

  /** After a checkout the units on hand drop by the units sold of
      products still in the catalog. */
  lemma {:induction false} DecrementStockUnits(inv: seq<Product>, lines: seq<SaleItem>)
    ensures TotalUnits(DecrementStock(inv, lines)) == TotalUnits(inv) - UnitsSold(inv, lines)
    decreases |lines|
  {
    if lines != [] {
      var init, last := lines[..|lines| - 1], lines[|lines| - 1];
      DecrementStockUnits(inv, init);
      var m := DecrementStock(inv, init);
      assert lines == init + [last];
      SumAppend(init, last, KeepOrZero(InCatalog(inv), LineQuantity));
      FindIndexSameIds(m, inv, last.id);
      ApplyLineUnits(m, last);
    }
  }

  /** What one line costs the catalog's valuation: the last purchase
      price of its product times the units, or nothing when the product is
      gone. */
  function LineCost(inv: seq<Product>): SaleItem -> int
  {
    (l: SaleItem) => var j := FindIndex(inv, l.id); if j != -1 then inv[j].lastPurchase * l.quantity else 0
  }

  /** The valuation at cost of the units that the lines take out of the
      catalog. */
  function CostSold(inv: seq<Product>, lines: seq<SaleItem>): int
  {
    Sum(lines, LineCost(inv))
  }

  /** One line lowers the valuation by its cost. */
  lemma ApplyLineValue(inv: seq<Product>, line: SaleItem)
    ensures InventoryValue(ApplyLine(inv, line)) == InventoryValue(inv) - LineCost(inv)(line)
  {
    var j := FindIndex(inv, line.id);
    if j != -1 {
      var cost, q, sold := inv[j].lastPurchase, inv[j].quantity, line.quantity;
      var p := inv[j].(quantity := q - sold);
      assert ApplyLine(inv, line) == inv[j := p];
      assert LineCost(inv)(line) == cost * sold;
      SumUpdate(inv, j, p, CostValue);
      MulSub(cost, q, sold);
    } else {
      assert ApplyLine(inv, line) == inv;
    }
  }

  lemma MulSub(a: int, b: int, c: int)
    ensures a * (b - c) == a * b - a * c
  {
  }

  /** After a checkout the catalog's valuation at cost drops by exactly
      the cost of the units sold of products still in the catalog. */
  lemma {:induction false} DecrementStockValue(inv: seq<Product>, lines: seq<SaleItem>)
    ensures InventoryValue(DecrementStock(inv, lines)) == InventoryValue(inv) - CostSold(inv, lines)
    decreases |lines|
  {
    if lines != [] {
      var init, last := lines[..|lines| - 1], lines[|lines| - 1];
      DecrementStockValue(inv, init);
      var m := DecrementStock(inv, init);
      assert lines == init + [last];
      SumAppend(init, last, LineCost(inv));
      FindIndexSameIds(m, inv, last.id);
      DecrementStockOnlyQuantities(inv, init);
      var j := FindIndex(inv, last.id);
      if j != -1 {
        assert m[j].(quantity := inv[j].quantity) == inv[j];
      }
      ApplyLineValue(m, last);
    }
  }
}
