/** Runs of checkouts, payments and sweeps, from a shop without orders, that end where they should not. */
module StockWitnesses {
  import opened Prelude
  import opened Stock
  import Rules = ReturnRules
  import Flow = ReturnFlow

  lemma RunOne(d: Db, e: Event)
    ensures Run(d, [e]) == Step(d, e)
  {
    assert [e][1..] == [];
  }

  lemma {:induction false} RunLast(d: Db, es: seq<Event>, e: Event)
    ensures Run(d, es + [e]) == Step(Run(d, es), e)
    decreases |es|
  {
    if es == [] {
      assert es + [e] == [e] && [e][1..] == [];
    } else {
      assert (es + [e])[1..] == es[1..] + [e];
      RunLast(Step(d, es[0]), es[1..], e);
    }
  }

  // ---------- H3: a payment lands on a cancelled order ----------

  const SHELF := Db(map[3 := 1], [], map[], map[], [])
  const LAST_ONE := Request(None, Some(1), [Item(3, 1)], None, 0)
  const UNPAID := Order(Rules.AwaitingPayment, Flow.PaymentPending, [Item(3, 1)], None, Some(1), None, 0)
  const CANCELLED_UNPAID :=
    Db(map[3 := 1], [UNPAID.(status := Rules.OrderCancelled)], map[], map[], [Call(LAST_ONE, Replied(0))])

  const BOUGHT := Db(map[3 := 0], [UNPAID], map[], map[], [Call(LAST_ONE, Replied(0))])
  const TO_BOUGHT := [ECheck(LAST_ONE), ECommit(0)]
  const TO_CANCELLED := TO_BOUGHT + [ECancel(0, 1)]

  lemma BoughtReached()
    ensures Run(SHELF, TO_BOUGHT) == BOUGHT
  {
    var checked := SHELF.(calls := [Call(LAST_ONE, Priced)]);
    var items := LAST_ONE.items;
    assert Step(SHELF, ECheck(LAST_ONE)) == checked;
    assert Take(checked.stock, items[..0]) == Some(checked.stock) && checked.stock[3 := 0] == map[3 := 0];
    assert Take(checked.stock, items) == Some(map[3 := 0]);
    assert Step(checked, ECommit(0)) == BOUGHT;
    RunOne(SHELF, ECheck(LAST_ONE));
    RunLast(SHELF, [ECheck(LAST_ONE)], ECommit(0));
    assert TO_BOUGHT == [ECheck(LAST_ONE)] + [ECommit(0)];
  }

  lemma CancelledReached()
    ensures Run(SHELF, TO_CANCELLED) == CANCELLED_UNPAID
  {
    BoughtReached();
    RunLast(SHELF, TO_BOUGHT, ECancel(0, 1));
    assert Restock(BOUGHT.stock, LAST_ONE.items[..0]) == BOUGHT.stock && BOUGHT.stock[3 := 1] == map[3 := 1];
    assert Restock(BOUGHT.stock, LAST_ONE.items) == map[3 := 1];
  }

  lemma OneHeld(o: Order)
    requires o.items == [Item(3, 1)] && o.status != Rules.OrderCancelled
    ensures Sum([o], HoldsOf(3)) == 1
  {
    assert [o] == [] + [o] && [Item(3, 1)] == [] + [Item(3, 1)];
    SumAppend([], o, HoldsOf(3));
    SumAppend([], Item(3, 1), UnitsOf(3));
  }

  const REVIVED := CANCELLED_UNPAID.(orders := [UNPAID.(payment := Flow.Paid, status := Rules.Processing)])

  lemma RevivedReached()
    ensures Run(SHELF, TO_CANCELLED + [EPaymentLands(0, true)]) == REVIVED
  {
    CancelledReached();
    RunLast(SHELF, TO_CANCELLED, EPaymentLands(0, true));
    assert PaymentLands(CANCELLED_UNPAID, 0, true) == REVIVED;
  }

  /** Without H3, from an empty shop: the last one is bought, cancelled and given back, and the payment that
      lands afterwards revives the order over it. */
  lemma PaymentRevivesCancelled()
    ensures NeverOversold(SHELF) && !SameUnits(SHELF, Run(SHELF, TO_CANCELLED + [EPaymentLands(0, true)]))
  {
    RevivedReached();
    OneHeld(REVIVED.orders[0]);
    assert Held(REVIVED, 3) == 1 && Held(SHELF, 3) == 0;
  }

  // ---------- a failed payment keeps the stock ----------

  const FAILED_UNPAID := BOUGHT.(orders := [UNPAID.(payment := Flow.PaymentFailed, status := Rules.OrderFailed)])

  lemma FailedReached()
    ensures Run(SHELF, TO_BOUGHT + [EPaymentLands(0, false)]) == FAILED_UNPAID
  {
    BoughtReached();
    RunLast(SHELF, TO_BOUGHT, EPaymentLands(0, false));
    assert PaymentLands(BOUGHT, 0, false) == FAILED_UNPAID;
  }

  lemma NothingStale(cutoff: int)
    ensures Stale(FAILED_UNPAID.orders, cutoff) == []
  {
    assert FAILED_UNPAID.orders[..0] == [];
  }

  /** A sweep takes only orders that still await payment: the last one is bought, its payment fails, and no sweep ever
      gives it back. */
  lemma FailedPaymentKeepsStock(cutoff: int)
    ensures var end := Run(SHELF, TO_BOUGHT + [EPaymentLands(0, false)]);
            && end.stock == map[3 := 0] && Held(end, 3) == 1
            && Stale(end.orders, cutoff) == [] && ExpireAll(end, Stale(end.orders, cutoff)) == end
  {
    FailedReached();
    NothingStale(cutoff);
    OneHeld(FAILED_UNPAID.orders[0]);
  }

  // ---------- two checkouts share the last use of a coupon ----------

  /** Coupon 7 may be used once; two customers check out with it at the same time. */
  const ONE_USE := Db(map[3 := 2], [], map[7 := 0], map[7 := 1], [])
  const ONE_OF_TWO := Request(None, Some(1), [Item(3, 1)], Some(7), 0)
  const OTHER_OF_TWO := Request(None, Some(2), [Item(3, 1)], Some(7), 0)
  const BOTH_PRICED := ONE_USE.(calls := [Call(ONE_OF_TWO, Priced), Call(OTHER_OF_TWO, Priced)])

  lemma TakesOne(n: int)
    requires n >= 1
    ensures Take(map[3 := n], [Item(3, 1)]) == Some(map[3 := n - 1])
  {
    assert [Item(3, 1)][..0] == [];
    assert Take(map[3 := n], [Item(3, 1)][..0]) == Some(map[3 := n]);
    assert map[3 := n][3 := n - 1] == map[3 := n - 1];
  }

  lemma BothPriced()
    ensures Step(Step(ONE_USE, ECheck(ONE_OF_TWO)), ECheck(OTHER_OF_TWO)) == BOTH_PRICED
  {
    assert Step(ONE_USE, ECheck(ONE_OF_TWO)).calls == [Call(ONE_OF_TWO, Priced)];
  }

  lemma BothCommit()
    ensures Step(Step(BOTH_PRICED, ECommit(0)), ECommit(1)).couponUse == map[7 := 2]
    ensures Step(Step(BOTH_PRICED, ECommit(0)), ECommit(1)).couponLimit == map[7 := 1]
  {
    TakesOne(2);
    TakesOne(1);
    var one := Step(BOTH_PRICED, ECommit(0));
    assert one.couponUse == map[7 := 1] && one.calls[1] == Call(OTHER_OF_TWO, Priced) && one.stock == map[3 := 1];
  }

  /** Both checks pass before either commit, and the coupon is used once more than it may be. */
  lemma CouponOverused()
    ensures WithinLimits(ONE_USE)
    ensures !WithinLimits(Run(ONE_USE, [ECheck(ONE_OF_TWO), ECheck(OTHER_OF_TWO), ECommit(0), ECommit(1)]))
  {
    BothPriced();
    BothCommit();
    RunOne(ONE_USE, ECheck(ONE_OF_TWO));
    RunLast(ONE_USE, [ECheck(ONE_OF_TWO)], ECheck(OTHER_OF_TWO));
    RunLast(ONE_USE, [ECheck(ONE_OF_TWO), ECheck(OTHER_OF_TWO)], ECommit(0));
    RunLast(ONE_USE, [ECheck(ONE_OF_TWO), ECheck(OTHER_OF_TWO), ECommit(0)], ECommit(1));
    assert [ECheck(ONE_OF_TWO)] + [ECheck(OTHER_OF_TWO)] == [ECheck(ONE_OF_TWO), ECheck(OTHER_OF_TWO)];
    assert [ECheck(ONE_OF_TWO), ECheck(OTHER_OF_TWO)] + [ECommit(0)] ==
             [ECheck(ONE_OF_TWO), ECheck(OTHER_OF_TWO), ECommit(0)];
    assert [ECheck(ONE_OF_TWO), ECheck(OTHER_OF_TWO), ECommit(0)] + [ECommit(1)]
        == [ECheck(ONE_OF_TWO), ECheck(OTHER_OF_TWO), ECommit(0), ECommit(1)];
  }
}
