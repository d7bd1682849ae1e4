/**
 The pure rules of order-line returns: how many units a return holds, and how much money goes back.
 Money is whole pennies; amounts that are not whole pennies are exact reals until they are rounded.
 */
module ReturnRules {
  import opened Prelude

  datatype RequestStatus =
    | ReturnRequested | ReturnApproved | ReturnRejected | PickupScheduled | PickedUp | ReturnReceived
    | Inspection | RefundApproved | RefundProcessing | Completed | Cancelled

  datatype InspectionResult = Accepted | PartiallyAccepted | RejectedAtInspection

  datatype OrderStatus =
    | Pending | AwaitingPayment | Processing | Packed | Shipped | Delivered
    | OrderCancelled | OrderFailed | PartiallyReturned | Returned

  /** One order line within a return, with its quantity at each stage. */
  datatype ReturnItem = ReturnItem(
    line: nat, quantity: nat, approved: Option<nat>, received: Option<nat>, accepted: Option<nat>,
    result: Option<InspectionResult>, deduction: nat, refundAmount: Option<nat>)

  datatype OrderMoney = OrderMoney(subtotal: nat, discountTotal: nat, shippingCharge: nat)

  datatype OrderLine = OrderLine(
    quantity: nat, subtotal: nat, discount: nat,
    itemCancelled: bool, returnEligible: bool, returnDeadline: Option<int>)

  const MILLIS_IN_A_DAY := 24 * 60 * 60 * 1000

  predicate Released(status: RequestStatus) { status == ReturnRejected || status == Cancelled }

  predicate GoodsDelivered(status: OrderStatus) {
    status == Delivered || status == PartiallyReturned || status == Returned
  }

  function HeldQuantity(item: ReturnItem, status: RequestStatus): nat {
    if Released(status) then 0
    else if item.result.Some? then GetOr(item.accepted, 0)
    else if item.received.Some? then item.received.value
    else if item.approved.Some? then item.approved.value
    else item.quantity
  }

  function ReturnedQuantity(item: ReturnItem, status: RequestStatus): nat {
    if status == Completed then GetOr(item.accepted, 0) else 0
  }

  /** Half a penny rounds up, as Math.round does. */
  function Round(x: real): int { (x + 0.5).Floor }

  function LineNetPaid(line: OrderLine, order: OrderMoney): (net: real)
    ensures net >= 0.0
  {
    var couponShare :=
      if order.subtotal > 0
      then (order.discountTotal * line.subtotal) as real / order.subtotal as real
      else 0.0;
    var rest := (line.subtotal - line.discount) as real - couponShare;
    if rest > 0.0 then rest else 0.0
  }

  /** The exact price paid for `units` units, before it is rounded to a penny. */
  function UnitsPrice(line: OrderLine, order: OrderMoney, units: nat): real
    requires line.quantity > 0
  {
    LineNetPaid(line, order) * Min(units, line.quantity) as real / line.quantity as real
  }

  function UnitsRefund(line: OrderLine, order: OrderMoney, units: nat): (r: nat) {
    if units == 0 || line.quantity == 0 then 0
    else
      UnitsPriceWithin(line, order, units);
      Round(UnitsPrice(line, order, units))
  }

  /** `deduction` is never negative, so the source's Math.max(0, deduction) is the deduction itself;
      both operands are whole pennies, so the outer rounding changes nothing. */
  function ItemRefund(line: OrderLine, order: OrderMoney, accepted: nat, deduction: nat): nat {
    Max(0, UnitsRefund(line, order, accepted) - deduction)
  }

  datatype Eligibility = Eligibility(returnable: nat, eligible: bool)

  function ItemEligibility(status: OrderStatus, line: OrderLine, held: int, now: int): Eligibility {
    var delivered := if GoodsDelivered(status) then line.quantity else 0;
    var returnable := Max(0, delivered - held);
    var windowClosed :=
      line.returnDeadline.Some? && line.returnDeadline.value + MILLIS_IN_A_DAY - 1 < now;
    Eligibility(returnable,
      !line.itemCancelled && delivered > 0 && line.returnEligible && !windowClosed && returnable != 0)
  }

  datatype LineCount = LineCount(ordered: nat, returned: nat)

  function Ordered(l: LineCount): int { l.ordered }

  function Back(l: LineCount): int { Min(l.returned, l.ordered) }

  function Missing(l: LineCount): int { Ordered(l) - Back(l) }

  function OrderStatusAfterReturns(current: OrderStatus, lines: seq<LineCount>): OrderStatus {
    var returned := Sum(lines, Back);
    var ordered := Sum(lines, Ordered);
    if returned == 0 then current
    else if returned >= ordered then Returned else PartiallyReturned
  }

  // ---------- what the rules promise ----------

  lemma RoundClose(x: real)
    ensures x - 0.5 < Round(x) as real <= x + 0.5
  {}

  lemma RoundMonotone(x: real, y: real)
    requires x <= y
    ensures Round(x) <= Round(y)
  {}

  lemma ScaleMonotone(k: real, a: real, b: real)
    requires k >= 0.0 && a <= b
    ensures k * a <= k * b
  {}

  lemma TimesOver(x: real, q: real)
    requires q != 0.0
    ensures x * q / q == x
  {}

  /** The exact price grows with the units and stays between nothing and the whole line. */
  lemma UnitsPriceMonotone(line: OrderLine, order: OrderMoney, a: nat, b: nat)
    requires line.quantity > 0 && a <= b
    ensures UnitsPrice(line, order, a) <= UnitsPrice(line, order, b)
  {
    var net, q := LineNetPaid(line, order), line.quantity as real;
    var x, y := Min(a, line.quantity) as real, Min(b, line.quantity) as real;
    ScaleMonotone(net, x, y);
    ScaleMonotone(1.0 / q, net * x, net * y);
  }

  lemma UnitsPriceWithin(line: OrderLine, order: OrderMoney, units: nat)
    requires line.quantity > 0
    ensures 0.0 <= UnitsPrice(line, order, units) <= LineNetPaid(line, order)
  {
    UnitsPriceMonotone(line, order, 0, units);
    WholeLinePrice(line, order);
    if units <= line.quantity {
      UnitsPriceMonotone(line, order, units, line.quantity);
    }
  }

  lemma WholeLinePrice(line: OrderLine, order: OrderMoney)
    requires line.quantity > 0
    ensures UnitsPrice(line, order, line.quantity) == LineNetPaid(line, order)
  {
    var net, q := LineNetPaid(line, order), line.quantity as real;
    assert Min(line.quantity, line.quantity) as real == q;
    assert UnitsPrice(line, order, line.quantity) == net * q / q;
    TimesOver(net, q);
  }

  /** Up to the ordered quantity the exact price is linear in the units. */
  lemma UnitsPriceLinear(line: OrderLine, order: OrderMoney, units: nat)
    requires 0 < line.quantity && units <= line.quantity
    ensures UnitsPrice(line, order, units) == LineNetPaid(line, order) / line.quantity as real * units as real
  {}

  /** Returning more units never refunds less, and never more than the rounded price of the line. */
  lemma UnitsRefundMonotone(line: OrderLine, order: OrderMoney, a: nat, b: nat)
    requires a <= b
    ensures UnitsRefund(line, order, a) <= UnitsRefund(line, order, b) <= Round(LineNetPaid(line, order))
  {
    if a > 0 && line.quantity > 0 {
      UnitsPriceMonotone(line, order, a, b);
      RoundMonotone(UnitsPrice(line, order, a), UnitsPrice(line, order, b));
    }
    if b > 0 && line.quantity > 0 {
      UnitsPriceWithin(line, order, b);
      RoundMonotone(UnitsPrice(line, order, b), LineNetPaid(line, order));
    }
  }

  /** Returning a line in two parts refunds within one penny of returning it at once. */
  lemma UnitsRefundAdditive(line: OrderLine, order: OrderMoney, a: nat, b: nat)
    requires a + b <= line.quantity
    ensures -1 <= UnitsRefund(line, order, a + b) - UnitsRefund(line, order, a) - UnitsRefund(line, order, b) <= 1
  {
    if a > 0 && b > 0 {
      var unit := LineNetPaid(line, order) / line.quantity as real;
      UnitsPriceLinear(line, order, a);
      UnitsPriceLinear(line, order, b);
      UnitsPriceLinear(line, order, a + b);
      assert unit * (a + b) as real == unit * a as real + unit * b as real;
      RoundClose(UnitsPrice(line, order, a));
      RoundClose(UnitsPrice(line, order, b));
      RoundClose(UnitsPrice(line, order, a + b));
    }
  }

  /** A refund of accepted units is within half a penny of the price paid for them. */
  lemma UnitsRefundClose(line: OrderLine, order: OrderMoney, units: nat)
    requires 0 < line.quantity && units <= line.quantity
    ensures var exact := LineNetPaid(line, order) / line.quantity as real * units as real;
            exact - 0.5 <= UnitsRefund(line, order, units) as real <= exact + 0.5
  {
    UnitsPriceLinear(line, order, units);
    RoundClose(UnitsPrice(line, order, units));
  }

  /** What was paid for a line, times the order's subtotal: the line less its own discount and its share of the
      order's. */
  function PaidShare(line: OrderLine, order: OrderMoney): nat {
    Max(0, (line.subtotal - line.discount) * order.subtotal - order.discountTotal * line.subtotal)
  }

  lemma DividedBack(x: real, k: real)
    requires k > 0.0
    ensures x / k * k == x
  {}

  lemma Positive(x: real, k: real)
    requires k > 0.0
    ensures x * k > 0.0 <==> x > 0.0
  {}

  lemma RealProduct(a: int, b: int)
    ensures a as real * b as real == (a * b) as real
  {}

  lemma NetPaidIs(line: OrderLine, order: OrderMoney)
    ensures order.subtotal > 0 ==>
              LineNetPaid(line, order) * order.subtotal as real == PaidShare(line, order) as real
    ensures order.subtotal == 0 ==> LineNetPaid(line, order) == Max(0, line.subtotal - line.discount) as real
  {
    if order.subtotal > 0 {
      var k, left := order.subtotal as real, line.subtotal - line.discount;
      var share := (order.discountTotal * line.subtotal) as real / k;
      DividedBack((order.discountTotal * line.subtotal) as real, k);
      RealProduct(left, order.subtotal);
      assert (left as real - share) * k == left as real * k - share * k;
      assert (left as real - share) * k == (left * order.subtotal - order.discountTotal * line.subtotal) as real;
      Positive(left as real - share, k);
    }
  }

  lemma {:induction false} GapTimes(x: real, r: real, k: real, exact: real, whole: real)
    requires k > 0.0 && exact == x * k && whole == r * k && x - 0.5 < r <= x + 0.5
    ensures -k < 2.0 * (whole - exact) <= k
  {
    var gap := r - x;
    assert whole - exact == gap * k;
    assert -0.5 * k < gap * k <= 0.5 * k;
  }

  lemma {:induction false} WholeGap(whole: int, exact: int, k: int, w: real, e: real)
    requires w == whole as real && e == exact as real && -(k as real) < 2.0 * (w - e) <= k as real
    ensures -k < 2 * (whole - exact) <= k
  {}

  /** Rounding half up, times a factor that leaves whole numbers. */
  lemma {:induction false} RoundTimes(x: real, k: int, exact: int)
    requires k > 0 && x * k as real == exact as real
    ensures -k < 2 * (Round(x) * k - exact) <= k
  {
    var whole := Round(x) * k;
    RoundClose(x);
    RealProduct(Round(x), k);
    GapTimes(x, Round(x) as real, k as real, exact as real, whole as real);
    WholeGap(whole, exact, k, whole as real, exact as real);
  }

  lemma UnitsPriceTimes(line: OrderLine, order: OrderMoney, units: nat)
    requires 0 < line.quantity && units <= line.quantity && order.subtotal > 0
    ensures UnitsPrice(line, order, units) * (order.subtotal * line.quantity) as real ==
              (PaidShare(line, order) * units) as real
  {
    var net, s, q := LineNetPaid(line, order), order.subtotal as real, line.quantity as real;
    NetPaidIs(line, order);
    DividedBack(net * units as real, q);
    RealProduct(order.subtotal, line.quantity);
    RealProduct(PaidShare(line, order), units);
    assert UnitsPrice(line, order, units) * q == net * units as real;
    assert UnitsPrice(line, order, units) * (s * q) == net * units as real * s;
    assert net * units as real * s == net * s * units as real;
  }

  /** The refund of some units is their part of what was paid for the line, to the nearest penny, half a penny rounding
      up: all in whole numbers, over the order's subtotal and the ordered quantity. */
  lemma UnitsRefundExact(line: OrderLine, order: OrderMoney, units: nat)
    requires 0 < units <= line.quantity && order.subtotal > 0
    ensures var k := order.subtotal * line.quantity;
            -k < 2 * (UnitsRefund(line, order, units) * k - PaidShare(line, order) * units) <= k
  {
    UnitsPriceTimes(line, order, units);
    assert order.subtotal * line.quantity > 0;
    RoundTimes(UnitsPrice(line, order, units), order.subtotal * line.quantity, PaidShare(line, order) * units);
  }

  /** RETURNED means every line is back, and an order keeps its status only while nothing is. */
  lemma OrderStatusAfterReturnsMeaning(current: OrderStatus, lines: seq<LineCount>)
    requires Sum(lines, Ordered) > 0
    ensures var next := OrderStatusAfterReturns(current, lines);
            var untouched := forall i :: 0 <= i < |lines| ==> Back(lines[i]) == 0;
            var whole := forall i :: 0 <= i < |lines| ==> lines[i].returned >= lines[i].ordered;
            next == if untouched then current else if whole then Returned else PartiallyReturned
  {
    SumNonNegative(lines, Back);
    SumNonNegative(lines, Missing);
    MissingIsDifference(lines);
    if forall i :: 0 <= i < |lines| ==> Back(lines[i]) == 0 { SumZero(lines, Back); }
    if forall i :: 0 <= i < |lines| ==> Missing(lines[i]) == 0 { SumZero(lines, Missing); }
  }

  lemma {:induction false} MissingIsDifference(lines: seq<LineCount>)
    ensures Sum(lines, Missing) == Sum(lines, Ordered) - Sum(lines, Back)
  {
    if lines != [] { MissingIsDifference(lines[..|lines| - 1]); }
  }
}
