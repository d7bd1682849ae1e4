/**
 What each step of checkout, cancelling, expiring and paying does to one order and to the shelf, in the shop's own
 words: the statuses an order may be cancelled from, when a checkout goes through, what it leaves. Statuses are
 written out here.
 */
module StockOutcomes {
  import opened Prelude
  import opened Stock
  import Rules = ReturnRules
  import Flow = ReturnFlow
  import Pay = PaymentAttempts

  // ---------- what an order is made of ----------

  /** Something is bought, at least one of each line, and all of it is sold here. */
  predicate Bought(items: seq<Item>, variants: set<nat>) {
    && items != []
    && forall i :: 0 <= i < |items| ==> items[i].quantity >= 1 && items[i].variant in variants
  }

  /** So of every order and of every checkout about to create one. */
  predicate AllBought(d: Db) {
    && (forall o :: 0 <= o < |d.orders| ==> Bought(d.orders[o].items, d.stock.Keys))
    && (forall c :: 0 <= c < |d.calls| && d.calls[c].phase == Priced ==> Bought(d.calls[c].request.items, d.stock.Keys))
  }

  lemma {:induction false} TakeKeepsKeys(stock: map<nat, int>, items: seq<Item>)
    ensures Take(stock, items).Some? ==> Take(stock, items).value.Keys == stock.Keys
  {
    if items != [] { TakeKeepsKeys(stock, items[..|items| - 1]); }
  }

  lemma CommitBought(d: Db, c: nat)
    requires AllBought(d)
    ensures AllBought(Commit(d, c))
  {
    if c < |d.calls| { TakeKeepsKeys(d.stock, d.calls[c].request.items); }
  }

  lemma ReleaseBought(d: Db, o: nat)
    requires AllBought(d) && o < |d.orders|
    ensures AllBought(Release(d, o))
  {
    RestockMoves(d.stock, d.orders[o].items);
  }

  lemma CheckBought(d: Db, request: Request)
    requires AllBought(d)
    ensures AllBought(Check(d, request))
  {}

  lemma BoughtStep(d: Db, e: Event)
    requires AllBought(d)
    ensures AllBought(Step(d, e))
  {
    match e
    case ECheck(request) => CheckBought(d, request);
    case ECommit(c) => CommitBought(d, c);
    case ECancel(o, user) => if o < |d.orders| { ReleaseBought(d, o); }
    case EExpire(o) => if o < |d.orders| { ReleaseBought(d, o); }
    case _ =>
  }

  lemma {:induction false} BoughtOfAnyRun(d: Db, es: seq<Event>)
    requires AllBought(d)
    ensures AllBought(Run(d, es))
    decreases |es|
  {
    if es != [] {
      BoughtStep(d, es[0]);
      BoughtOfAnyRun(Step(d, es[0]), es[1..]);
    }
  }

  // ---------- checkout ----------

  /** The order that already carries a request's key. */
  predicate Carries(d: Db, request: Request, o: nat) {
    o < |d.orders| && request.key.Some? && d.orders[o].key == request.key
  }

  /** What a checkout with a new key needs: something in the cart, every line in stock, its coupon below its limit. */
  predicate CanPrice(d: Db, request: Request) {
    && request.items != []
    && (forall i :: 0 <= i < |request.items| ==>
          var item := request.items[i];
          item.variant in d.stock && 1 <= item.quantity <= d.stock[item.variant])
    && (request.coupon.Some? ==>
          var coupon := request.coupon.value;
          coupon in d.couponUse && (coupon in d.couponLimit ==> d.couponUse[coupon] < d.couponLimit[coupon]))
  }

  /** How the first check answers: with the customer's own order of that key, with a refusal when the key is another's
      or the cart cannot be had, or by going on. */
  lemma CheckIff(d: Db, request: Request)
    requires OneOrderPerKey(d)
    ensures var next := Check(d, request);
            && next == d.(calls := next.calls)
            && |next.calls| == |d.calls| + 1 && next.calls[..|d.calls|] == d.calls
            && var call := next.calls[|d.calls|];
            && call.request == request
            && (forall o: nat :: Carries(d, request, o) ==>
                  call.phase == if d.orders[o].user == request.user then Replied(o) else Rejected)
            && ((forall o: nat :: !Carries(d, request, o)) ==>
                  call.phase == if CanPrice(d, request) then Priced else Rejected)
  {
    if request.key.Some? {
      var found := FindKey(d.orders, request.key.value);
      forall o: nat | Carries(d, request, o) ensures o == found {}
      if found < |d.orders| { assert Carries(d, request, found); }
    }
  }

  /** What a priced checkout's transaction does: with its key still unused and the stock still there it creates the
      customer's order, awaiting its payment, takes the stock of every line and counts the coupon; with its key used
      it goes looking for that order; with too little stock it is refused. Only the first leaves anything behind. */
  lemma CommitIff(d: Db, c: nat)
    requires NeverOversold(d) && AllBought(d) && c < |d.calls| && d.calls[c].phase == Priced
    ensures var request, next := d.calls[c].request, Commit(d, c);
            var used := exists o: nat :: Carries(d, request, o);
            var there := forall v :: v in d.stock ==> Sum(request.items, UnitsOf(v)) <= d.stock[v];
            && next.calls == d.calls[c := Call(request,
                 if used then Recovering else if there then Replied(|d.orders|) else Rejected)]
            && (used || !there ==> next == d.(calls := next.calls))
            && (!used && there ==>
                  && next.orders == d.orders + [Order(Rules.AwaitingPayment, Flow.PaymentPending, request.items,
                                                      request.key, request.user, request.coupon, request.now)]
                  && next.stock.Keys == d.stock.Keys && next.couponUse.Keys == d.couponUse.Keys
                  && (forall v :: v in d.stock ==> next.stock[v] == d.stock[v] - Sum(request.items, UnitsOf(v)))
                  && (forall k :: k in d.couponUse ==>
                        next.couponUse[k] == d.couponUse[k] + if request.coupon == Some(k) then 1 else 0))
  {
    var request := d.calls[c].request;
    if request.key.Some? {
      var found := FindKey(d.orders, request.key.value);
      if found < |d.orders| { assert Carries(d, request, found); }
    }
    assert (exists o: nat :: Carries(d, request, o)) <==> Winner(d, request).Some?;
    TakeIff(d.stock, request.items);
    if Take(d.stock, request.items).Some? { TakeMoves(d.stock, request.items); }
  }

  /** A checkout that lost the race for its key is answered with the customer's own order, or refused. */
  lemma RecoverIff(d: Db, c: nat)
    requires OneOrderPerKey(d) && c < |d.calls| && d.calls[c].phase == Recovering
    ensures Recover(d, c) == d.(calls := Recover(d, c).calls)
    ensures forall o: nat :: Carries(d, d.calls[c].request, o) ==>
              Recover(d, c).calls == d.calls[c := Call(d.calls[c].request,
                if d.orders[o].user == d.calls[c].request.user then Replied(o) else Rejected)]
    ensures (forall o: nat :: !Carries(d, d.calls[c].request, o)) ==>
              Recover(d, c).calls == d.calls[c := Call(d.calls[c].request, Rejected)]
  {
    var request := d.calls[c].request;
    if request.key.Some? {
      var found := FindKey(d.orders, request.key.value);
      forall o: nat | Carries(d, request, o) ensures o == found {}
      if found < |d.orders| { assert Carries(d, request, found); }
    }
  }

  // ---------- cancelling and expiring ----------

  /** A step cancels an order exactly when its own customer asks while it is pending, awaits its payment or is being
      processed, or a sweep finds it still awaiting its payment. */
  lemma CancelledIff(d: Db, e: Event, o: nat)
    requires o < |d.orders| && d.orders[o].status != Rules.OrderCancelled
    ensures o < |Step(d, e).orders|
    ensures Step(d, e).orders[o].status == Rules.OrderCancelled <==>
              match e
              case ECancel(order, user) =>
                && order == o && d.orders[o].user == Some(user)
                && d.orders[o].status in {Rules.Pending, Rules.AwaitingPayment, Rules.Processing}
              case EExpire(order) =>
                && order == o && d.orders[o].status == Rules.AwaitingPayment
                && d.orders[o].payment == Flow.PaymentPending
              case _ => false
  {}

  /** And it then gives every unit of the order back, and changes nothing else. */
  lemma CancelGivesBack(d: Db, e: Event, o: nat)
    requires o < |d.orders| && d.orders[o].status != Rules.OrderCancelled
    requires Step(d, e).orders[o].status == Rules.OrderCancelled
    ensures var next := Step(d, e);
            && next == d.(orders := d.orders[o := d.orders[o].(status := Rules.OrderCancelled)], stock := next.stock)
            && next.stock.Keys == d.stock.Keys
            && forall v :: v in d.stock ==> next.stock[v] == d.stock[v] + Sum(d.orders[o].items, UnitsOf(v))
  {
    CancelledIff(d, e, o);
    RestockMoves(d.stock, d.orders[o].items);
  }

  /** A cancelled order is never opened again, unless a payment lands on it. */
  lemma {:induction false} CancelledForGood(d: Db, es: seq<Event>, o: nat)
    requires o < |d.orders| && d.orders[o].status == Rules.OrderCancelled && Along(d, es, H3)
    ensures o < |Run(d, es).orders| && Run(d, es).orders[o] == d.orders[o]
    decreases |es|
  {
    if es != [] { CancelledForGood(Step(d, es[0]), es[1..], o); }
  }

  // ---------- paying ----------

  /** An outcome lands on an order as the payments service writes it: the status of a payment's order changes in the
      same way there and here, unless that payment cannot be recorded. */
  lemma PaymentLandsAsWritten(d: Db, o: nat, p: Pay.Db, c: nat)
    requires o < |d.orders| && p.status == d.orders[o].status && p.payment == d.orders[o].payment
    requires Pay.Sound(p) && c < |p.calls| && p.calls[c].phase == Pay.Moved
    requires p.calls[c].outcome.captured ==> !Pay.IdTaken(p, Pay.IdOf(p.calls[c])) && p.invoices == []
    ensures var written, landed := Pay.WriteOrder(p, c), PaymentLands(d, o, p.calls[c].outcome.captured);
            landed == d.(orders := d.orders[o := d.orders[o].(status := written.status, payment := written.payment)])
  {
    assert Pay.CallAgrees(p, p.calls[c]);
    assert d.orders[o := d.orders[o]] == d.orders;
  }
}
