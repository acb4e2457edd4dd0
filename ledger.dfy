/** A cashier's register over one shift (App.tsx): the history entries
    that opening, closing and each sale append, the cash a sale puts in
    the drawer, and the bookkeeping that ties the balance and the history
    to the register's own list of sales. */
module Ledger {
  import opened Types
  import opened Folds
  import opened Text

  /** The `apertura` entry of confirmOpening. */
  function OpeningEntry(amount: int): HistoryEntry
  {
    HistoryEntry(Apertura, amount, "Apertura de caja", None)
  }

  /** The `cierre` entry of the close button, carrying the balance at
      closing. */
  function ClosingEntry(balance: int): HistoryEntry
  {
    HistoryEntry(Cierre, balance, "Cierre de caja", None)
  }

  /** The `venta` entry of processPayment, "Venta #<ticket>". */
  function SaleEntry(sale: Sale): (e: HistoryEntry)
    ensures e.kind == Venta && e.amount == sale.total && e.ticketNumber == Some(sale.ticketNumber)
    ensures e.description == "Venta #" + Decimal(sale.ticketNumber)
  {
    HistoryEntry(Venta, sale.total, "Venta #" + Decimal(sale.ticketNumber), Some(sale.ticketNumber))
  }

  /** The description of a `venta` entry alone tells which ticket it is
      for. */
  lemma SaleEntryIdentifiesTicket(a: Sale, b: Sale)
    requires SaleEntry(a).description == SaleEntry(b).description
    ensures a.ticketNumber == b.ticketNumber
  {
    assert Decimal(a.ticketNumber) == SaleEntry(a).description[7..];
    assert Decimal(b.ticketNumber) == SaleEntry(b).description[7..];
    DecimalInjective(a.ticketNumber, b.ticketNumber);
  }

  function SaleTotal(s: Sale): int { s.total }

  function ByCashier(c: string): Sale -> bool
  {
    (s: Sale) => s.cashier == c
  }

  function ByMethod(m: PaymentMethod): Sale -> bool
  {
    (s: Sale) => s.paymentMethod == m
  }

  /** What a sale adds to the drawer: its total when paid in cash. */
  function CashAmount(s: Sale): int
  {
    if s.paymentMethod == Efectivo then s.total else 0
  }

  function CashTotal(sales: seq<Sale>): int
  {
    Sum(sales, CashAmount)
  }

  /** The register after confirmOpening: open, with the amount as both
      the opening amount and the balance, and an `apertura` entry. The
      sales already recorded stay. */
  function OpenShift(reg: CashRegister, amount: int): (r: CashRegister)
    ensures r.isOpen && r.openingAmount == r.balance == amount
    ensures r.sales == reg.sales
    ensures |r.history| == |reg.history| + 1 && r.history[..|reg.history|] == reg.history
    ensures r.history[|reg.history|] == OpeningEntry(amount)
  {
    reg.(isOpen := true, openingAmount := amount, balance := amount,
         history := reg.history + [OpeningEntry(amount)])
  }

  /** The register after the close button: closed, with a `cierre` entry
      for the current balance. The balance is not reset. */
  function CloseShift(reg: CashRegister): (r: CashRegister)
    ensures !r.isOpen
    ensures r.openingAmount == reg.openingAmount && r.balance == reg.balance && r.sales == reg.sales
    ensures |r.history| == |reg.history| + 1 && r.history[..|reg.history|] == reg.history
    ensures r.history[|reg.history|] == ClosingEntry(reg.balance)
  {
    reg.(isOpen := false, history := reg.history + [ClosingEntry(reg.balance)])
  }

  /** The register after processPayment records `sale` in it. */
  function RecordSale(reg: CashRegister, sale: Sale): (r: CashRegister)
    ensures r.isOpen == reg.isOpen && r.openingAmount == reg.openingAmount
    ensures r.sales == reg.sales + [sale]
    ensures r.balance == reg.balance + (if sale.paymentMethod == Efectivo then sale.total else 0)
    ensures |r.history| == |reg.history| + 1 && r.history[..|reg.history|] == reg.history
    ensures r.history[|reg.history|] == SaleEntry(sale)
  {
    reg.(sales := reg.sales + [sale], balance := reg.balance + CashAmount(sale),
         history := reg.history + [SaleEntry(sale)])
  }

  /** The ticket numbers that the history's entries carry, in order. */
  function TicketRefs(h: seq<HistoryEntry>): seq<nat>
    decreases |h|
  {
    if h == [] then []
    else
      var t := h[|h| - 1].ticketNumber;
      TicketRefs(h[..|h| - 1]) + (if t.Some? then [t.value] else [])
  }

  function Tickets(sales: seq<Sale>): (r: seq<nat>)
    ensures |r| == |sales| && forall i :: 0 <= i < |sales| ==> r[i] == sales[i].ticketNumber
  {
    seq(|sales|, i requires 0 <= i < |sales| => sales[i].ticketNumber)
  }

  /** A register agrees with its own sales when the shift began at
      position `start` of them: the balance is the opening amount plus the
      cash taken since, and the history's ticket references are the
      tickets of its sales, one each, in order. */
  predicate Balanced(reg: CashRegister, start: nat)
  {
    && start <= |reg.sales|
    && reg.balance == reg.openingAmount + CashTotal(reg.sales[start..])
    && TicketRefs(reg.history) == Tickets(reg.sales)
  }

  lemma TicketRefsAppend(h: seq<HistoryEntry>, e: HistoryEntry)
    ensures TicketRefs(h + [e]) == TicketRefs(h) + (if e.ticketNumber.Some? then [e.ticketNumber.value] else [])
  {
    assert (h + [e])[..|h|] == h;
  }

  /** Opening starts a shift at the end of the sales so far: the balance
      is the opening amount, no cash is yet counted, and the history gains
      no ticket reference. */
  lemma OpenShiftBalanced(reg: CashRegister, amount: int)
    requires TicketRefs(reg.history) == Tickets(reg.sales)
    ensures Balanced(OpenShift(reg, amount), |reg.sales|)
    ensures OpenShift(reg, amount).balance == amount
  {
    TicketRefsAppend(reg.history, OpeningEntry(amount));
    assert reg.sales[|reg.sales|..] == [];
  }

  /** Closing keeps the register balanced for the same shift and records
      the balance it leaves untouched. */
  lemma CloseShiftBalanced(reg: CashRegister, start: nat)
    requires Balanced(reg, start)
    ensures Balanced(CloseShift(reg), start)
    ensures CloseShift(reg).history[|reg.history|].amount == reg.balance
  {
    TicketRefsAppend(reg.history, ClosingEntry(reg.balance));
  }

  /** Recording a sale keeps the register balanced: the balance moves by
      the sale's total exactly when it was paid in cash, and the history
      gains the sale's ticket. */
  lemma RecordSaleBalanced(reg: CashRegister, start: nat, sale: Sale)
    requires Balanced(reg, start)
    ensures Balanced(RecordSale(reg, sale), start)
    ensures RecordSale(reg, sale).balance ==
      reg.balance + (if sale.paymentMethod == Efectivo then sale.total else 0)
  {
    var r := RecordSale(reg, sale);
    TicketRefsAppend(reg.history, SaleEntry(sale));
    assert r.sales[start..] == reg.sales[start..] + [sale];
    SumAppend(reg.sales[start..], sale, CashAmount);
    assert Tickets(r.sales) == Tickets(reg.sales) + [sale.ticketNumber];
  }

  /** Sales numbered consecutively from `first`. */
  predicate Consecutive(sales: seq<Sale>, first: nat)
  {
    forall i :: 0 <= i < |sales| ==> sales[i].ticketNumber == first + i
  }

  predicate Increasing(sales: seq<Sale>)
  {
    forall i, j :: 0 <= i < j < |sales| ==> sales[i].ticketNumber < sales[j].ticketNumber
  }

  /** A selection of sales that all come after ticket `t` also does. */
  lemma {:induction false} FilterAfter(sales: seq<Sale>, keep: Sale -> bool, t: nat)
    requires forall i :: 0 <= i < |sales| ==> t < sales[i].ticketNumber
    ensures forall m :: 0 <= m < |Filter(sales, keep)| ==> t < Filter(sales, keep)[m].ticketNumber
  {
    if sales != [] {
      FilterAfter(sales[1..], keep, t);
      var head: seq<Sale> := if keep(sales[0]) then [sales[0]] else [];
      assert Filter(sales, keep) == head + Filter(sales[1..], keep);
    }
  }

  /** Putting a sale in front of increasing later sales keeps the order. */
  lemma ConsIncreasing(head: seq<Sale>, rest: seq<Sale>)
    requires |head| <= 1 && Increasing(rest)
    requires forall m :: 0 <= m < |rest| ==> forall h :: 0 <= h < |head| ==> head[h].ticketNumber < rest[m].ticketNumber
    ensures Increasing(head + rest)
  {
    var r := head + rest;
    forall i, j | 0 <= i < j < |r|
      ensures r[i].ticketNumber < r[j].ticketNumber
    {
      if i < |head| {
        assert r[j] == rest[j - |head|];
      } else {
        assert r[i] == rest[i - |head|] && r[j] == rest[j - |head|];
      }
    }
  }

  /** Any selection of sales in increasing ticket order, such as one
      cashier's, is in increasing ticket order too. */
  lemma {:induction false} FilterKeepsIncreasing(sales: seq<Sale>, keep: Sale -> bool)
    requires Increasing(sales)
    ensures Increasing(Filter(sales, keep))
  {
    if sales != [] {
      var tail := sales[1..];
      assert Increasing(tail) by {
        forall i, j | 0 <= i < j < |tail|
          ensures tail[i].ticketNumber < tail[j].ticketNumber
        {
          assert tail[i] == sales[i + 1] && tail[j] == sales[j + 1];
        }
      }
      FilterKeepsIncreasing(tail, keep);
      assert forall i :: 0 <= i < |tail| ==> tail[i] == sales[i + 1];
      FilterAfter(tail, keep, sales[0].ticketNumber);
      var head: seq<Sale> := if keep(sales[0]) then [sales[0]] else [];
      ConsIncreasing(head, Filter(tail, keep));
      assert Filter(sales, keep) == head + Filter(tail, keep);
    }
  }

  /** Numbered consecutively, the sales of any one cashier come in
      strictly increasing ticket order. */
  lemma CashierTicketsIncreasing(sales: seq<Sale>, first: nat, c: string)
    requires Consecutive(sales, first)
    ensures Increasing(Filter(sales, ByCashier(c)))
  {
    FilterKeepsIncreasing(sales, ByCashier(c));
  }
}
