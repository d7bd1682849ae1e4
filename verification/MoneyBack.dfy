/**
 Returning everything gives the money back. Once every unit of an order is back through completed returns, the
 refunds paid for those returns, plus what was deducted at inspection, come to the order's total within half a
 penny for each returned item.
 */
module MoneyBack {
  import opened Prelude
  import opened ReturnRules
  import opened ReturnFlow
  import opened ReturnSafety
  import opened RefundSafety
  import opened FullReturn
  import opened Payouts

  // ---------- paid refunds, return by return ----------

  function ReturnPaid(f: Refund): int { if f.forReturn.Some? && f.status == Processed then f.amount else 0 }

  /** The processed refunds made for returns. */
  function PaidBack(d: Db): int { Sum(d.refunds, ReturnPaid) }

  function PaidUpTo(refunds: seq<Refund>, n: nat): int {
    if n == 0 then 0 else PaidUpTo(refunds, n - 1) + Sum(refunds, PaidForReturn(n - 1))
  }

  lemma {:induction false} PaidUpToAppend(refunds: seq<Refund>, f: Refund, n: nat)
    ensures PaidUpTo(refunds + [f], n) ==
              PaidUpTo(refunds, n) + if f.forReturn.Some? && f.forReturn.value < n then ReturnPaid(f) else 0
  {
    if n > 0 {
      PaidUpToAppend(refunds, f, n - 1);
      SumAppend(refunds, f, PaidForReturn(n - 1));
    }
  }

  lemma {:induction false} PaidByReturn(refunds: seq<Refund>, n: nat)
    requires forall r :: 0 <= r < |refunds| ==> refunds[r].forReturn.Some? ==> refunds[r].forReturn.value < n
    ensures Sum(refunds, ReturnPaid) == PaidUpTo(refunds, n)
    decreases |refunds|
  {
    if refunds == [] {
      NothingPaid(n);
    } else {
      var init, f := refunds[..|refunds| - 1], refunds[|refunds| - 1];
      assert refunds == init + [f];
      PaidByReturn(init, n);
      PaidUpToAppend(init, f, n);
    }
  }

  lemma {:induction false} NothingPaid(n: nat)
    ensures PaidUpTo([], n) == 0
  {
    if n > 0 { NothingPaid(n - 1); }
  }

  function CompletedDue(r: ReturnRequest): int { if r.status == Completed then Due(r) else 0 }

  /** While returns are approved for refund one at a time, what a completed return has been paid is what its rows
      say; any other return has been paid nothing. */
  lemma PaidForIsDue(d: Db, id: nat)
    requires Books(d) && id < |d.requests|
    ensures PaidFor(d, id) == CompletedDue(d.requests[id])
  {
    assert PayoutOk(d.requests[id].status, Opens(d, id), Actives(d, id));
    PaidIsOneRefund(d, id);
  }

  lemma {:induction false} PaidUpToIsSum(refunds: seq<Refund>, requests: seq<ReturnRequest>, n: nat)
    requires n <= |requests|
    requires forall id: nat :: id < |requests| ==> Sum(refunds, PaidForReturn(id)) == CompletedDue(requests[id])
    ensures PaidUpTo(refunds, n) == Sum(requests[..n], CompletedDue)
  {
    if n > 0 {
      PaidUpToIsSum(refunds, requests, n - 1);
      assert requests[..n] == requests[..n - 1] + [requests[n - 1]];
      SumAppend(requests[..n - 1], requests[n - 1], CompletedDue);
    }
  }

  lemma PaidBackIsDue(d: Db)
    requires Books(d)
    ensures PaidBack(d) == Sum(d.requests, CompletedDue)
  {
    forall r | 0 <= r < |d.refunds|
      ensures d.refunds[r].forReturn.Some? ==> d.refunds[r].forReturn.value < |d.requests|
    {
      assert RefundShape(d, d.refunds[r]);
    }
    PaidByReturn(d.refunds, |d.requests|);
    forall id: nat | id < |d.requests| ensures Sum(d.refunds, PaidForReturn(id)) == CompletedDue(d.requests[id]) {
      PaidForIsDue(d, id);
    }
    PaidUpToIsSum(d.refunds, d.requests, |d.requests|);
    assert d.requests[..|d.requests|] == d.requests;
  }

  // ---------- completed returns, item by item ----------

  function ReturnedItems(rs: seq<ReturnRequest>): seq<ReturnItem> {
    if rs == [] then []
    else
      var r := rs[|rs| - 1];
      ReturnedItems(rs[..|rs| - 1]) + (if r.status == Completed then r.items else [])
  }

  function CompletedDelivery(r: ReturnRequest): int { if r.status == Completed then r.shippingRefund else 0 }

  function AcceptedOn(line: nat): ReturnItem -> int {
    (item: ReturnItem) => if item.line == line then GetOr(item.accepted, 0) else 0
  }

  lemma {:induction false} DueByItem(rs: seq<ReturnRequest>)
    ensures Sum(rs, CompletedDue) == Sum(ReturnedItems(rs), StoredRefund) + Sum(rs, CompletedDelivery)
  {
    if rs != [] {
      var r := rs[|rs| - 1];
      DueByItem(rs[..|rs| - 1]);
      SumConcat(ReturnedItems(rs[..|rs| - 1]), if r.status == Completed then r.items else [], StoredRefund);
    }
  }

  lemma {:induction false} BackByItem(rs: seq<ReturnRequest>, line: nat)
    ensures ReturnedUnits(rs, line) == Sum(ReturnedItems(rs), AcceptedOn(line))
  {
    if rs != [] {
      var r := rs[|rs| - 1];
      var items := if r.status == Completed then r.items else [];
      BackByItem(rs[..|rs| - 1], line);
      SumConcat(ReturnedItems(rs[..|rs| - 1]), items, AcceptedOn(line));
      ReturnedOnlyWhenCompleted(r, line);
      SumEq(r.items, r.items, ItemReturnedOn(line, Completed), AcceptedOn(line));
    }
  }

  lemma {:induction false} CompletedItemShape(order: Order, rs: seq<ReturnRequest>, item: ReturnItem)
    requires forall id :: 0 <= id < |rs| ==> RequestShape(order, rs[id])
    requires item in ReturnedItems(rs)
    ensures ItemShape(order, item, Completed)
  {
    var r := rs[|rs| - 1];
    if item in ReturnedItems(rs[..|rs| - 1]) {
      CompletedItemShape(order, rs[..|rs| - 1], item);
    } else {
      assert RequestShape(order, r);
      var k :| 0 <= k < |r.items| && r.items[k] == item;
      assert ItemShape(order, r.items[k], r.status);
    }
  }

  lemma DeliveryPaidBack(d: Db)
    requires DeliveryOnce(d) && AllBack(d) && Shape(d)
    ensures Sum(d.requests, CompletedDelivery) == d.order.money.shippingCharge
  {
    forall id | 0 <= id < |d.requests| ensures CompletedDelivery(d.requests[id]) > 0 ==> PaidDelivery(d.requests[id]) {
      assert RequestShape(d.order, d.requests[id]);
    }
    if id: nat :| id < |d.requests| && PaidDelivery(d.requests[id]) {
      SumSingle(d.requests, id, CompletedDelivery);
    } else {
      SumZero(d.requests, CompletedDelivery);
    }
  }

  // ---------- exact prices, item by item and line by line ----------

  /** The exact price paid for one unit of a line. */
  function UnitPrice(order: Order, line: nat): real {
    var l := LineOf(order, line);
    if l.quantity == 0 then 0.0 else LineNetPaid(l, order.money) / l.quantity as real
  }

  function PriceIn(order: Order): nat -> real { (line: nat) => UnitPrice(order, line) }

  function ExactAt(price: nat -> real): ReturnItem -> real {
    (item: ReturnItem) => price(item.line) * GetOr(item.accepted, 0) as real
  }

  function UpTo(f: nat -> real, n: nat): real { if n == 0 then 0.0 else UpTo(f, n - 1) + f(n - 1) }

  /** The exact price of the items of each line. */
  function PerLine(price: nat -> real, items: seq<ReturnItem>): nat -> real {
    (line: nat) => price(line) * Sum(items, AcceptedOn(line)) as real
  }

  lemma {:induction false} UpToChange(f: nat -> real, g: nat -> real, at: nat, x: real, n: nat)
    requires forall k: nat :: g(k) == if k == at then f(k) + x else f(k)
    ensures UpTo(g, n) == if at < n then UpTo(f, n) + x else UpTo(f, n)
  {
    if n > 0 { UpToChange(f, g, at, x, n - 1); }
  }

  lemma PerLineAppend(price: nat -> real, items: seq<ReturnItem>, item: ReturnItem, line: nat)
    ensures PerLine(price, items + [item])(line) ==
              if line == item.line then PerLine(price, items)(line) + ExactAt(price)(item)
              else PerLine(price, items)(line)
  {
    SumAppend(items, item, AcceptedOn(line));
    var added := if item.line == line then GetOr(item.accepted, 0) else 0;
    Distribute(price(line), Sum(items, AcceptedOn(line)), added, Sum(items + [item], AcceptedOn(line)));
  }

  lemma Distribute(x: real, a: int, b: int, sum: int)
    requires sum == a + b
    ensures x * sum as real == x * a as real + x * b as real
  {}

  lemma {:induction false} ExactByLine(price: nat -> real, items: seq<ReturnItem>, n: nat)
    requires forall k :: 0 <= k < |items| ==> items[k].line < n
    ensures SumR(items, ExactAt(price)) == UpTo(PerLine(price, items), n)
    decreases |items|
  {
    if items == [] {
      NothingPerLine(price, n);
    } else {
      var init, item := items[..|items| - 1], items[|items| - 1];
      assert items == init + [item];
      ExactByLine(price, init, n);
      forall line: nat
        ensures PerLine(price, items)(line) ==
                if line == item.line then PerLine(price, init)(line) + ExactAt(price)(item)
                else PerLine(price, init)(line)
      {
        PerLineAppend(price, init, item, line);
      }
      UpToChange(PerLine(price, init), PerLine(price, items), item.line, ExactAt(price)(item), n);
    }
  }

  lemma {:induction false} NothingPerLine(price: nat -> real, n: nat)
    ensures UpTo(PerLine(price, []), n) == 0.0
  {
    if n > 0 {
      NothingPerLine(price, n - 1);
      Distribute(price(n - 1), 0, 0, Sum([], AcceptedOn(n - 1)));
    }
  }

  lemma {:induction false} UpToIsSum(f: nat -> real, lines: seq<OrderLine>, net: OrderLine -> real, n: nat)
    requires n <= |lines| && forall line: nat :: line < n ==> f(line) == net(lines[line])
    ensures UpTo(f, n) == SumR(lines[..n], net)
  {
    if n > 0 {
      UpToIsSum(f, lines, net, n - 1);
      assert lines[..n] == lines[..n - 1] + [lines[n - 1]];
      SumRAppend(lines[..n - 1], lines[n - 1], net);
    }
  }

  function NetOf(money: OrderMoney): OrderLine -> real { (l: OrderLine) => LineNetPaid(l, money) }

  /** At these unit prices, all the units of a line come to the net price of the line. */
  predicate PricedWhole(lines: seq<OrderLine>, net: OrderLine -> real, price: nat -> real) {
    forall line :: 0 <= line < |lines| ==> price(line) * lines[line].quantity as real == net(lines[line])
  }

  lemma ShareTimesOver(x: real, q: real)
    requires q != 0.0
    ensures x / q * q == x
  {}

  lemma {:induction false} WholeLine(order: Order, line: nat)
    requires line < |order.lines| && order.lines[line].quantity > 0
    ensures UnitPrice(order, line) * order.lines[line].quantity as real == LineNetPaid(order.lines[line], order.money)
  {
    var net, q := LineNetPaid(order.lines[line], order.money), order.lines[line].quantity as real;
    assert UnitPrice(order, line) == net / q;
    ShareTimesOver(net, q);
  }

  lemma {:induction false} PricedLine(order: Order, line: nat)
    requires line < |order.lines| && order.lines[line].quantity > 0
    ensures PriceIn(order)(line) * order.lines[line].quantity as real == NetOf(order.money)(order.lines[line])
  {
    WholeLine(order, line);
    assert PriceIn(order)(line) == UnitPrice(order, line);
  }

  /** The units of a line, all of them, come to the price of the line. */
  lemma {:induction false} WholeLines(order: Order)
    requires forall k :: 0 <= k < |order.lines| ==> order.lines[k].quantity > 0
    ensures PricedWhole(order.lines, NetOf(order.money), PriceIn(order))
  {
    forall line: nat | line < |order.lines|
      ensures PriceIn(order)(line) * order.lines[line].quantity as real == NetOf(order.money)(order.lines[line])
    {
      PricedLine(order, line);
    }
  }

  // ---------- checkout's totals ----------

  function LineSubtotal(l: OrderLine): int { l.subtotal }

  /** An order's money as checkout leaves it: the subtotal is the sum of the lines, no line carries a discount
      of its own, and the order's discount is at most the subtotal. */
  predicate CheckoutTotals(order: Order) {
    && order.money.subtotal == Sum(order.lines, LineSubtotal)
    && order.money.discountTotal <= order.money.subtotal
    && forall k :: 0 <= k < |order.lines| ==> order.lines[k].discount == 0
  }

  /** The part of a line that is left when it bears its share of a discount. */
  lemma ShareLeft(line: real, discount: real, subtotal: real)
    requires 0.0 <= discount <= subtotal && subtotal > 0.0 && line >= 0.0
    ensures line - discount * line / subtotal == (1.0 - discount / subtotal) * line >= 0.0
  {
    var k := discount / subtotal;
    assert k * subtotal == discount;
    assert discount * line / subtotal == k * line;
    KeepsSign(1.0 - k, line);
  }

  lemma KeepsSign(k: real, x: real)
    requires k >= 0.0 && x >= 0.0
    ensures k * x >= 0.0
  {}

  lemma Remainder(discount: real, subtotal: real)
    requires subtotal != 0.0
    ensures (1.0 - discount / subtotal) * subtotal == subtotal - discount
  {
    ShareTimesOver(discount, subtotal);
  }

  function ShareOf(money: OrderMoney): real {
    if money.subtotal == 0 then 0.0 else 1.0 - money.discountTotal as real / money.subtotal as real
  }

  lemma {:induction false} NetIsShare(l: OrderLine, money: OrderMoney)
    requires l.discount == 0 && money.discountTotal <= money.subtotal && (money.subtotal == 0 ==> l.subtotal == 0)
    ensures LineNetPaid(l, money) == ShareOf(money) * l.subtotal as real
  {
    if money.subtotal > 0 {
      ShareLeft(l.subtotal as real, money.discountTotal as real, money.subtotal as real);
      assert (money.discountTotal * l.subtotal) as real == money.discountTotal as real * l.subtotal as real;
    }
  }

  lemma {:induction false} NetPricesScale(lines: seq<OrderLine>, net: OrderLine -> real, share: real)
    requires EachShares(lines, net, share)
    ensures SumR(lines, net) == share * Sum(lines, LineSubtotal) as real
  {
    SumRScaled(lines, net, LineSubtotal, share);
  }

  lemma {:induction false} LineWithinSubtotal(order: Order, l: OrderLine)
    requires CheckoutTotals(order) && l in order.lines
    ensures l.discount == 0 && l.subtotal <= order.money.subtotal
  {
    SumNonNegative(order.lines, LineSubtotal);
    var k :| 0 <= k < |order.lines| && order.lines[k] == l;
    assert LineSubtotal(order.lines[k]) <= order.money.subtotal;
  }

  lemma {:induction false} ShareOfSubtotal(money: OrderMoney)
    requires money.discountTotal <= money.subtotal
    ensures ShareOf(money) * money.subtotal as real == (money.subtotal - money.discountTotal) as real
  {
    if money.subtotal > 0 { Remainder(money.discountTotal as real, money.subtotal as real); }
  }

  predicate EachShares(lines: seq<OrderLine>, net: OrderLine -> real, share: real) {
    forall l :: l in lines ==> net(l) == share * LineSubtotal(l) as real
  }

  lemma {:induction false} LineShares(order: Order, l: OrderLine)
    requires CheckoutTotals(order) && l in order.lines
    ensures NetOf(order.money)(l) == ShareOf(order.money) * LineSubtotal(l) as real
  {
    LineWithinSubtotal(order, l);
    NetIsShare(l, order.money);
  }

  lemma {:induction false} LinesShare(order: Order)
    requires CheckoutTotals(order)
    ensures EachShares(order.lines, NetOf(order.money), ShareOf(order.money))
  {
    forall l | l in order.lines ensures NetOf(order.money)(l) == ShareOf(order.money) * LineSubtotal(l) as real {
      LineShares(order, l);
    }
  }

  /** The net prices of the lines add up to the subtotal less the order's discount, exactly. */
  lemma {:induction false} NetPricesAddUp(order: Order)
    requires CheckoutTotals(order)
    ensures SumR(order.lines, NetOf(order.money)) == (order.money.subtotal - order.money.discountTotal) as real
  {
    LinesShare(order);
    NetPricesScale(order.lines, NetOf(order.money), ShareOf(order.money));
    ShareOfSubtotal(order.money);
  }

  // ---------- rounding, item by item ----------

  function RefundAndDeduction(item: ReturnItem): int { StoredRefund(item) + item.deduction }

  function Deducted(item: ReturnItem): int { item.deduction }

  function Counted(item: ReturnItem): int { if GetOr(item.accepted, 0) > 0 then 1 else 0 }

  /** Refund plus deduction is the price of the accepted units, rounded once. */
  lemma ItemClose(order: Order, item: ReturnItem)
    requires ItemShape(order, item, Completed) && order.lines[item.line].quantity > 0
    requires GetOr(item.accepted, 0) <= order.lines[item.line].quantity
    ensures -0.5 * Counted(item) as real
            <= RefundAndDeduction(item) as real - ExactAt(PriceIn(order))(item)
            <= 0.5 * Counted(item) as real
  {
    var line := order.lines[item.line];
    assert RefundAndDeduction(item) == UnitsRefund(line, order.money, item.accepted.value);
    if item.accepted.value > 0 { UnitsRefundClose(line, order.money, item.accepted.value); }
  }

  lemma {:induction false} ItemsClose(order: Order, items: seq<ReturnItem>)
    requires forall item :: item in items ==>
               && ItemShape(order, item, Completed) && order.lines[item.line].quantity > 0
               && GetOr(item.accepted, 0) <= order.lines[item.line].quantity
    ensures var slack := 0.5 * Sum(items, Counted) as real;
            -slack <= Sum(items, RefundAndDeduction) as real - SumR(items, ExactAt(PriceIn(order))) <= slack
  {
    if items != [] {
      var n := |items| - 1;
      assert items[n] in items;
      ItemsClose(order, items[..n]);
      ItemClose(order, items[n]);
    }
  }

  lemma {:induction false} SplitDeductions(items: seq<ReturnItem>)
    ensures Sum(items, RefundAndDeduction) == Sum(items, StoredRefund) + Sum(items, Deducted)
  {
    if items != [] { SplitDeductions(items[..|items| - 1]); }
  }

  // ---------- the whole order ----------

  /** Returns made good cannot hold more than was ordered, so `back` is `ordered`. */
  lemma {:induction false} BackWithinHeld(rs: seq<ReturnRequest>, order: Order, line: nat)
    requires forall id :: 0 <= id < |rs| ==> RequestShape(order, rs[id])
    ensures ReturnedUnits(rs, line) <= Sum(rs, HeldIn(line))
  {
    forall id | 0 <= id < |rs| ensures ReturnedIn(line)(rs[id]) <= HeldIn(line)(rs[id]) {
      var r := rs[id];
      forall k | 0 <= k < |r.items|
        ensures ItemReturnedOn(line, r.status)(r.items[k]) <= ItemHeldOn(line, r.status)(r.items[k])
      {
        assert RequestShape(order, r) && ItemShape(order, r.items[k], r.status);
      }
      SumLe(r.items, r.items, ItemReturnedOn(line, r.status), ItemHeldOn(line, r.status));
    }
    SumLe(rs, rs, ReturnedIn(line), HeldIn(line));
  }

  lemma AcceptedWithinLine(items: seq<ReturnItem>, item: ReturnItem)
    requires item in items
    ensures GetOr(item.accepted, 0) <= Sum(items, AcceptedOn(item.line))
  {
    SumNonNegative(items, AcceptedOn(item.line));
    var k :| 0 <= k < |items| && items[k] == item;
    assert AcceptedOn(item.line)(items[k]) == GetOr(item.accepted, 0);
  }

  /** Twice the pennies by which the refunds and deductions miss the order's total. */
  function Miss(d: Db): int {
    var money := d.order.money;
    2 * (PaidBack(d) + Sum(ReturnedItems(d.requests), Deducted)
         - (money.subtotal - money.discountTotal + money.shippingCharge))
  }

  /** Every unit of every line is accepted exactly once among the returned items. */
  lemma LinesWhole(d: Db)
    requires Shape(d) && WithinOrder(d) && AllBack(d)
    ensures var items := ReturnedItems(d.requests);
            && (forall line: nat :: line < |d.order.lines| ==>
                 Sum(items, AcceptedOn(line)) == d.order.lines[line].quantity)
            && (forall item :: item in items ==>
                  && ItemShape(d.order, item, Completed)
                  && GetOr(item.accepted, 0) <= d.order.lines[item.line].quantity)
  {
    var items, order := ReturnedItems(d.requests), d.order;
    forall line: nat | line < |order.lines| ensures Sum(items, AcceptedOn(line)) == order.lines[line].quantity {
      BackByItem(d.requests, line);
      BackWithinHeld(d.requests, order, line);
    }
    forall item | item in items
      ensures ItemShape(order, item, Completed) && GetOr(item.accepted, 0) <= order.lines[item.line].quantity
    {
      CompletedItemShape(order, d.requests, item);
      AcceptedWithinLine(items, item);
    }
  }

  lemma LineIsNet(lines: seq<OrderLine>, net: OrderLine -> real, price: nat -> real, items: seq<ReturnItem>, line: nat)
    requires PricedWhole(lines, net, price) && line < |lines| && Sum(items, AcceptedOn(line)) == lines[line].quantity
    ensures PerLine(price, items)(line) == net(lines[line])
  {}

  /** Exactly priced, items that cover every line come to the price of the lines. */
  lemma {:induction false} ItemsCoverLines(
      lines: seq<OrderLine>, net: OrderLine -> real, price: nat -> real, items: seq<ReturnItem>)
    requires PricedWhole(lines, net, price)
    requires forall line: nat :: line < |lines| ==> Sum(items, AcceptedOn(line)) == lines[line].quantity
    requires forall k :: 0 <= k < |items| ==> items[k].line < |lines|
    ensures SumR(items, ExactAt(price)) == SumR(lines, net)
  {
    ExactByLine(price, items, |lines|);
    forall line: nat | line < |lines| ensures PerLine(price, items)(line) == net(lines[line]) {
      LineIsNet(lines, net, price, items, line);
    }
    UpToIsSum(PerLine(price, items), lines, net, |lines|);
    assert lines[..|lines|] == lines;
  }

  lemma {:induction false} ExactTotal(order: Order, items: seq<ReturnItem>)
    requires CheckoutTotals(order) && Sold(order)
    requires forall line: nat :: line < |order.lines| ==> Sum(items, AcceptedOn(line)) == order.lines[line].quantity
    requires forall k :: 0 <= k < |items| ==> items[k].line < |order.lines|
    ensures SumR(items, ExactAt(PriceIn(order))) == (order.money.subtotal - order.money.discountTotal) as real
  {
    NetPricesAddUp(order);
    WholeLines(order);
    ItemsCoverLines(order.lines, NetOf(order.money), PriceIn(order), items);
  }

  /** Twice the pennies by which the refunds calculated for the returned items, with what was deducted from them,
      miss what was paid for the lines. */
  function ItemMiss(d: Db): int {
    2 * (Sum(ReturnedItems(d.requests), RefundAndDeduction) - (d.order.money.subtotal - d.order.money.discountTotal))
  }

  /** When every unit is back, the item totals come to the price of the lines within half a penny per item, however
      the units were split over items and returns. */
  lemma ItemTotalsClose(d: Db)
    requires Shape(d) && WithinOrder(d) && Sold(d.order) && CheckoutTotals(d.order) && AllBack(d)
    ensures Abs(ItemMiss(d)) <= Sum(ReturnedItems(d.requests), Counted)
  {
    var items := ReturnedItems(d.requests);
    LinesWhole(d);
    ItemsClose(d.order, items);
    ExactTotal(d.order, items);
    var total := d.order.money.subtotal - d.order.money.discountTotal;
    WithinHalves(Sum(items, RefundAndDeduction), total, Sum(items, Counted));
  }

  lemma WithinHalves(paid: int, total: int, count: int)
    requires var slack := 0.5 * count as real; -slack <= paid as real - total as real <= slack
    ensures -count <= 2 * (paid - total) <= count
  {}

  /** And the money is paid back: the refunds made for the returns miss the order's total by no more. */
  lemma FullReturnPaysBack(d: Db)
    requires Books(d) && DeliveryOnce(d) && Sold(d.order) && WithinOrder(d) && CheckoutTotals(d.order) && AllBack(d)
    ensures Miss(d) == ItemMiss(d) && Abs(Miss(d)) <= Sum(ReturnedItems(d.requests), Counted)
  {
    ItemTotalsClose(d);
    SplitDeductions(ReturnedItems(d.requests));
    PaidBackIsDue(d);
    DueByItem(d.requests);
    DeliveryPaidBack(d);
  }

  // ---------- any run ----------

  lemma {:induction false} UnderSplit(d: Db, es: seq<Event>)
    requires Along(d, es, H2) && Along(d, es, H4)
    ensures Along(d, es, Under)
    decreases |es|
  {
    if es != [] { UnderSplit(Step(d, es[0]), es[1..]); }
  }

  /** A delivered order and any run of returns and refunds against it, each guarantee under the hypothesis it needs:
      - the order's status says how much is back (none);
      - no line is returned beyond what was ordered (H1);
      - each return is paid by one attempt, in full, once it is completed (H2);
      - the delivery charge goes to exactly one return, just when everything is back (H4);
      - each completed return has been paid what its rows say (H2 and H4). */
  lemma ReturnsOfAnyRun(d: Db, es: seq<Event>)
    requires Fresh(d) && d.status == Delivered && Sold(d.order)
    ensures StatusAgrees(Run(d, es))
    ensures Along(d, es, H1) ==> WithinOrder(Run(d, es))
    ensures Along(d, es, H2) ==> forall id: nat :: id < |Run(d, es).requests| ==> PaidByOneAttempt(d, es, id)
    ensures Along(d, es, H4) ==> DeliveryOnce(Run(d, es))
    ensures Along(d, es, H2) && Along(d, es, H4) ==>
              forall id: nat :: id < |Run(d, es).requests| ==>
                  PaidFor(Run(d, es), id) == CompletedDue(Run(d, es).requests[id])
  {
    FreshIsSafe(d);
    FreshOrder(d);
    StatusOfAnyRun(d, es);
    if Along(d, es, H1) { NoOverReturn(d, es); }
    if Along(d, es, H2) { PaidOfAnyRun(d, es); }
    if Along(d, es, H4) { DeliveryOfAnyRun(d, es); }
    if Along(d, es, H2) && Along(d, es, H4) {
      UnderSplit(d, es);
      BooksRun(d, es);
      forall id: nat | id < |Run(d, es).requests|
        ensures PaidFor(Run(d, es), id) == CompletedDue(Run(d, es).requests[id])
      {
        PaidForIsDue(Run(d, es), id);
      }
    }
  }

  /** And when such a run ends with every unit back: the order is RETURNED; the item totals come to the price of the
      lines within half a penny per returned item (H1); the delivery charge went to a return (H4); and the customer
      has been paid the order's total, less deductions, within the same bound (all three). */
  lemma FullReturnOfAnyRun(d: Db, es: seq<Event>)
    requires Fresh(d) && d.status == Delivered && Sold(d.order) && CheckoutTotals(d.order) && AllBack(Run(d, es))
    ensures Run(d, es).status == Returned
    ensures Along(d, es, H1) ==> Abs(ItemMiss(Run(d, es))) <= Sum(ReturnedItems(Run(d, es).requests), Counted)
    ensures Along(d, es, H4) && d.order.money.shippingCharge > 0 ==> !NobodyPaidDelivery(Run(d, es))
    ensures Along(d, es, H1) && Along(d, es, H2) && Along(d, es, H4) ==>
              Abs(Miss(Run(d, es))) <= Sum(ReturnedItems(Run(d, es).requests), Counted)
  {
    var end := Run(d, es);
    FreshIsSafe(d);
    FreshOrder(d);
    OneOpenRun(d, es);
    StatusOfAnyRun(d, es);
    assert end.order.lines[0].quantity > 0;
    if Along(d, es, H1) {
      NoOverReturn(d, es);
      ItemTotalsClose(end);
    }
    if Along(d, es, H4) { DeliveryOfAnyRun(d, es); }
    if Along(d, es, H1) && Along(d, es, H2) && Along(d, es, H4) {
      UnderSplit(d, es);
      BooksRun(d, es);
      FullReturnPaysBack(end);
    }
  }
}
