/**
 The sales report: orders are grouped by the day, week or month they were placed in, and a cursor lists every
 period of the range.
 */
module Reports {
  import opened Prelude
  import opened Calendar
  import Flow = ReturnFlow

  datatype Order = Order(placedAt: int, payment: Flow.PaymentStatus, total: nat, refunds: seq<Flow.Refund>)

  datatype Value = Value(gross: int, refunds: int, count: int)

  datatype Point = Point(period: int, gross: int, refunds: int, revenue: int, count: int)

  datatype Report = Points(points: seq<Point>) | BadRequest

  predicate Reported(o: Order, dateFrom: int, dateTo: int) {
    && dateFrom <= o.placedAt <= dateTo
    && (o.payment == Flow.Paid || o.payment == Flow.PartiallyRefunded || o.payment == Flow.Refunded)
  }

  function Select(orders: seq<Order>, dateFrom: int, dateTo: int): seq<Order> {
    if orders == [] then []
    else
      var n := |orders| - 1;
      Select(orders[..n], dateFrom, dateTo) + if Reported(orders[n], dateFrom, dateTo) then [orders[n]] else []
  }

  lemma {:induction false} SelectMeaning(orders: seq<Order>, dateFrom: int, dateTo: int)
    ensures forall o :: multiset(Select(orders, dateFrom, dateTo))[o] ==
              if (&& dateFrom <= o.placedAt <= dateTo
                  && o.payment in {Flow.Paid, Flow.PartiallyRefunded, Flow.Refunded})
              then multiset(orders)[o] else 0
    ensures forall o :: o in Select(orders, dateFrom, dateTo) <==> o in orders && Reported(o, dateFrom, dateTo)
  {
    if orders != [] {
      var n := |orders| - 1;
      SelectMeaning(orders[..n], dateFrom, dateTo);
      assert orders == orders[..n] + [orders[n]];
    }
  }

  function GrossOf(o: Order): int { o.total }

  function RefundsOf(o: Order): int { Sum(o.refunds, Flow.ProcessedAmount) }

  function PaidBack(f: Flow.Refund): int { if f.status == Flow.Processed then f.amount else 0 }

  /** Only refunds that have been paid count. */
  lemma RefundsArePaid(o: Order)
    ensures RefundsOf(o) == Sum(o.refunds, PaidBack)
  {
    SumEq(o.refunds, o.refunds, Flow.ProcessedAmount, PaidBack);
  }

  function One(o: Order): int { 1 }

  function PeriodOf(o: Order, g: Grouping): int { g.period(DayOf(o.placedAt)) }

  /** What an order adds to a period: f of the order if it falls in it, else nothing. */
  function In(period: int, g: Grouping, f: Order -> int): Order -> int {
    (o: Order) => if PeriodOf(o, g) == period then f(o) else 0
  }

  function TotalIn(orders: seq<Order>, g: Grouping, f: Order -> int): int -> int {
    (period: int) => Sum(orders, In(period, g, f))
  }

  function ValueIn(orders: seq<Order>, g: Grouping, period: int): Value {
    Value(
      Sum(orders, In(period, g, GrossOf)), Sum(orders, In(period, g, RefundsOf)), Sum(orders, In(period, g, One)))
  }

  function At(values: map<int, Value>, period: int): Value {
    if period in values then values[period] else Value(0, 0, 0)
  }

  function PointOf(period: int, v: Value): Point { Point(period, v.gross, v.refunds, v.gross - v.refunds, v.count) }

  /** Periods in order: the first is `first`, each is the next of the one before, and the one that would come
      after the last is past the end of the range. */
  predicate Covers(periods: seq<int>, g: Grouping, first: int, end: int) {
    && periods != [] && periods[0] == first && IsPeriod(first, g)
    && (forall i :: 0 <= i < |periods| - 1 ==> periods[i + 1] == g.next(periods[i]))
    && (forall i :: 0 <= i < |periods| ==> periods[i] <= end)
    && end < g.next(periods[|periods| - 1])
  }

  lemma {:induction false} PeriodsIncrease(periods: seq<int>, g: Grouping, first: int, end: int)
    requires Sound(g) && periods != [] && periods[0] == first && IsPeriod(first, g)
    requires forall i :: 0 <= i < |periods| - 1 ==> periods[i + 1] == g.next(periods[i])
    ensures forall i :: 0 <= i < |periods| ==> IsPeriod(periods[i], g)
    ensures forall i, j :: 0 <= i < j < |periods| ==> periods[i] < periods[j]
    decreases |periods|
  {
    var n := |periods| - 1;
    if n > 0 {
      PeriodsIncrease(periods[..n], g, first, end);
      assert periods[..n][n - 1] == periods[n - 1];
      assert IsPeriod(periods[n - 1], g);
      forall i, j | 0 <= i < j < |periods| ensures periods[i] < periods[j] {
        if j < n {
          assert periods[..n][i] < periods[..n][j];
        } else if i < n - 1 {
          assert periods[..n][i] < periods[..n][n - 1];
        }
      }
      forall i | 0 <= i < |periods| ensures IsPeriod(periods[i], g) {
        if i < n { assert IsPeriod(periods[..n][i], g); }
      }
    }
  }

  /** No gap: the period of any day of the range is listed, and listed once. */
  lemma {:induction false} DayIsCovered(periods: seq<int>, g: Grouping, first: int, end: int, day: int)
    requires Sound(g) && Covers(periods, g, first, end) && first <= day <= end
    ensures exists i :: 0 <= i < |periods| && periods[i] == g.period(day)
    decreases |periods|
  {
    PeriodsIncrease(periods, g, first, end);
    var n := |periods| - 1;
    if periods[n] <= day {
      assert Contains(periods[n], day, g);
    } else {
      var before := periods[..n];
      assert periods[n] == g.next(before[n - 1]);
      DayIsCovered(before, g, first, periods[n] - 1, day);
    }
  }

  predicate Once(periods: seq<int>) { forall i, j :: 0 <= i < j < |periods| ==> periods[i] != periods[j] }

  /** Summed over the periods, each order counts once. */
  lemma {:induction false} EveryOrderOnce(periods: seq<int>, orders: seq<Order>, g: Grouping, f: Order -> int)
    requires Once(periods) && forall o :: o in orders ==> PeriodOf(o, g) in periods
    ensures Sum(periods, TotalIn(orders, g, f)) == Sum(orders, f)
    decreases |orders|
  {
    if orders == [] {
      SumZero(periods, TotalIn(orders, g, f));
    } else {
      var n := |orders| - 1;
      var o := orders[n];
      assert orders == orders[..n] + [o];
      EveryOrderOnce(periods, orders[..n], g, f);
      AddOrder(periods, orders[..n], o, g, f);
    }
  }

  function Share(o: Order, g: Grouping, f: Order -> int): int -> int {
    (period: int) => In(period, g, f)(o)
  }

  lemma {:induction false} AddOrders(periods: seq<int>, orders: seq<Order>, o: Order, g: Grouping, f: Order -> int)
    ensures Sum(periods, TotalIn(orders + [o], g, f)) ==
              Sum(periods, TotalIn(orders, g, f)) + Sum(periods, Share(o, g, f))
    decreases |periods|
  {
    if periods != [] {
      var n := |periods| - 1;
      AddOrders(periods[..n], orders, o, g, f);
      SumAppend(orders, o, In(periods[n], g, f));
    }
  }

  lemma AddOrder(periods: seq<int>, orders: seq<Order>, o: Order, g: Grouping, f: Order -> int)
    requires Once(periods) && PeriodOf(o, g) in periods
    ensures Sum(periods, TotalIn(orders + [o], g, f)) == Sum(periods, TotalIn(orders, g, f)) + f(o)
  {
    AddOrders(periods, orders, o, g, f);
    var i :| 0 <= i < |periods| && periods[i] == PeriodOf(o, g);
    SumSingle(periods, i, Share(o, g, f));
  }

  function PeriodsOf(points: seq<Point>): (r: seq<int>)
    ensures |r| == |points| && forall i :: 0 <= i < |points| ==> r[i] == points[i].period
  {
    seq(|points|, i requires 0 <= i < |points| => points[i].period)
  }

  function PointGross(p: Point): int { p.gross }

  function PointRefunds(p: Point): int { p.refunds }

  function PointCount(p: Point): int { p.count }

  function PointRevenue(p: Point): int { p.revenue }

  lemma {:induction false} RevenueIsNet(points: seq<Point>, orders: seq<Order>, g: Grouping)
    requires Tallied(points, orders, g)
    ensures Sum(points, PointRevenue) == Sum(points, PointGross) - Sum(points, PointRefunds)
    decreases |points|
  {
    if points != [] {
      var n := |points| - 1;
      assert forall i :: 0 <= i < n ==> points[..n][i] == points[i];
      RevenueIsNet(points[..n], orders, g);
    }
  }

  predicate Tallied(points: seq<Point>, orders: seq<Order>, g: Grouping) {
    forall i :: 0 <= i < |points| ==> points[i] == PointOf(points[i].period, ValueIn(orders, g, points[i].period))
  }

  /** The counts, the gross revenue and the refunds of the points are those of the orders, all of them. */
  lemma ReportConserves(points: seq<Point>, orders: seq<Order>, g: Grouping, dateFrom: int, dateTo: int)
    requires Sound(g) && Covers(PeriodsOf(points), g, g.period(DayOf(dateFrom)), DayOf(dateTo))
    requires Tallied(points, orders, g)
    requires forall o :: o in orders ==> Reported(o, dateFrom, dateTo)
    ensures Sum(points, PointCount) == |orders|
    ensures Sum(points, PointGross) == Sum(orders, GrossOf)
    ensures Sum(points, PointRefunds) == Sum(orders, RefundsOf)
  {
    var periods, first, end := PeriodsOf(points), g.period(DayOf(dateFrom)), DayOf(dateTo);
    PeriodsIncrease(periods, g, first, end);
    assert Contains(first, DayOf(dateFrom), g);
    forall o | o in orders ensures PeriodOf(o, g) in periods {
      DayMonotone(dateFrom, o.placedAt);
      DayMonotone(o.placedAt, dateTo);
      DayIsCovered(periods, g, first, end, DayOf(o.placedAt));
    }
    EveryOrderOnce(periods, orders, g, One);
    EveryOrderOnce(periods, orders, g, GrossOf);
    EveryOrderOnce(periods, orders, g, RefundsOf);
    SumAcross(points, periods, PointCount, TotalIn(orders, g, One));
    SumAcross(points, periods, PointGross, TotalIn(orders, g, GrossOf));
    SumAcross(points, periods, PointRefunds, TotalIn(orders, g, RefundsOf));
    CountIsLength(orders);
  }

  lemma DayMonotone(a: int, b: int)
    requires a <= b
    ensures DayOf(a) <= DayOf(b)
  {}

  lemma {:induction false} SumAcross(points: seq<Point>, periods: seq<int>, f: Point -> int, g: int -> int)
    requires |points| == |periods| && forall i :: 0 <= i < |points| ==> f(points[i]) == g(periods[i])
    ensures Sum(points, f) == Sum(periods, g)
  {
    if points != [] {
      var n := |points| - 1;
      assert forall i :: 0 <= i < n ==> points[..n][i] == points[i] && periods[..n][i] == periods[i];
      SumAcross(points[..n], periods[..n], f, g);
    }
  }

  lemma {:induction false} CountIsLength(orders: seq<Order>)
    ensures Sum(orders, One) == |orders|
  {
    if orders != [] { CountIsLength(orders[..|orders| - 1]); }
  }

  lemma ValueAppend(orders: seq<Order>, o: Order, g: Grouping, period: int)
    ensures var before, after := ValueIn(orders, g, period), ValueIn(orders + [o], g, period);
            after == if PeriodOf(o, g) == period
                     then Value(before.gross + o.total, before.refunds + RefundsOf(o), before.count + 1) else before
  {
    SumAppend(orders, o, In(period, g, GrossOf));
    SumAppend(orders, o, In(period, g, RefundsOf));
    SumAppend(orders, o, In(period, g, One));
    assert In(period, g, GrossOf)(o) == if PeriodOf(o, g) == period then GrossOf(o) else 0;
    assert In(period, g, RefundsOf)(o) == if PeriodOf(o, g) == period then RefundsOf(o) else 0;
    assert In(period, g, One)(o) == if PeriodOf(o, g) == period then One(o) else 0;
  }

  method GroupByPeriod(orders: seq<Order>, g: Grouping) returns (values: map<int, Value>)
    ensures forall period :: At(values, period) == ValueIn(orders, g, period)
  {
    values := map[];
    for i := 0 to |orders|
      invariant forall period :: At(values, period) == ValueIn(orders[..i], g, period)
    {
      var o := orders[i];
      var key := PeriodOf(o, g);
      var point := At(values, key);
      ghost var before := values;
      values := values[key := Value(point.gross + o.total, point.refunds + RefundsOf(o), point.count + 1)];
      forall period ensures At(values, period) == ValueIn(orders[..i + 1], g, period) {
        assert At(before, period) == ValueIn(orders[..i], g, period);
        assert orders[..i + 1] == orders[..i] + [o];
        ValueAppend(orders[..i], o, g, period);
      }
    }
    assert orders[..|orders|] == orders;
  }

  /** The points so far, with the cursor on the period after the last of them. */
  predicate Listed(points: seq<Point>, orders: seq<Order>, g: Grouping, first: int, cursor: int, end: int) {
    && IsPeriod(cursor, g) && Tallied(points, orders, g)
    && (if points == [] then cursor == first
        else points[0].period == first && cursor == g.next(points[|points| - 1].period))
    && (forall i :: 0 <= i < |points| - 1 ==> points[i + 1].period == g.next(points[i].period))
    && (forall i :: 0 <= i < |points| ==> points[i].period <= end)
  }

  lemma PointListed(points: seq<Point>, orders: seq<Order>, g: Grouping, first: int, cursor: int, end: int)
    requires Sound(g) && Listed(points, orders, g, first, cursor, end) && cursor <= end
    ensures Listed(points + [PointOf(cursor, ValueIn(orders, g, cursor))], orders, g, first, g.next(cursor), end)
    ensures cursor < g.next(cursor)
  {
    var point := PointOf(cursor, ValueIn(orders, g, cursor));
    var more := points + [point];
    forall i | 0 <= i < |more| - 1 ensures more[i + 1].period == g.next(more[i].period) {
      if i == |points| - 1 { assert more[i + 1] == point; }
    }
  }

  lemma ListedCovers(points: seq<Point>, orders: seq<Order>, g: Grouping, first: int, cursor: int, end: int)
    requires Listed(points, orders, g, first, cursor, end) && IsPeriod(first, g) && first <= end < cursor
    ensures Covers(PeriodsOf(points), g, first, end)
  {}

  method SalesBy(orders: seq<Order>, g: Grouping, dateFrom: int, dateTo: int) returns (r: Report)
    requires Sound(g)
    ensures r.BadRequest? <==> dateFrom > dateTo
    ensures r.Points? ==>
              && Covers(PeriodsOf(r.points), g, g.period(DayOf(dateFrom)), DayOf(dateTo))
              && Tallied(r.points, Select(orders, dateFrom, dateTo), g)
    ensures r.Points? ==> Sum(r.points, PointCount) == |Select(orders, dateFrom, dateTo)|
    ensures r.Points? ==> Sum(r.points, PointGross) == Sum(Select(orders, dateFrom, dateTo), GrossOf)
    ensures r.Points? ==> Sum(r.points, PointRefunds) == Sum(Select(orders, dateFrom, dateTo), RefundsOf)
    ensures r.Points? ==> Sum(r.points, PointRevenue) == Sum(r.points, PointGross) - Sum(r.points, PointRefunds)
  {
    if dateFrom > dateTo { return BadRequest; }
    var found := Select(orders, dateFrom, dateTo);
    SelectMeaning(orders, dateFrom, dateTo);
    var values := GroupByPeriod(found, g);
    var points: seq<Point> := [];
    var end := DayOf(dateTo);
    var first := g.period(DayOf(dateFrom));
    assert Contains(first, DayOf(dateFrom), g);
    DayMonotone(dateFrom, dateTo);
    var cursor := first;
    while cursor <= end
      invariant Listed(points, found, g, first, cursor, end)
      decreases end - cursor
    {
      PointListed(points, found, g, first, cursor, end);
      points := points + [PointOf(cursor, At(values, cursor))];
      cursor := g.next(cursor);
    }
    ListedCovers(points, found, g, first, cursor, end);
    ReportConserves(points, found, g, dateFrom, dateTo);
    RevenueIsNet(points, found, g);
    r := Points(points);
  }

  /** The report by day, week or month: every point of the range once and in order, with no gap, and between
      them all the orders of the range. */
  method Sales(orders: seq<Order>, unit: Unit, dateFrom: int, dateTo: int) returns (r: Report)
    ensures r.BadRequest? <==> dateFrom > dateTo
    ensures r.Points? ==>
              && Covers(PeriodsOf(r.points), By(unit), By(unit).period(DayOf(dateFrom)), DayOf(dateTo))
              && Tallied(r.points, Select(orders, dateFrom, dateTo), By(unit))
    ensures r.Points? ==> Sum(r.points, PointCount) == |Select(orders, dateFrom, dateTo)|
    ensures r.Points? ==> Sum(r.points, PointGross) == Sum(Select(orders, dateFrom, dateTo), GrossOf)
    ensures r.Points? ==> Sum(r.points, PointRefunds) == Sum(Select(orders, dateFrom, dateTo), RefundsOf)
    ensures r.Points? ==> Sum(r.points, PointRevenue) == Sum(r.points, PointGross) - Sum(r.points, PointRefunds)
  {
    AllSound(unit);
    r := SalesBy(orders, By(unit), dateFrom, dateTo);
  }
}
