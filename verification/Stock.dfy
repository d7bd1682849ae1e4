/**
 Orders and stock: checkout takes the stock of every line or none, cancelling and expiring give it back, and an
 idempotency key names one order however many times checkout is called with it.
 */
module Stock {
  import opened Prelude
  import Rules = ReturnRules
  import Flow = ReturnFlow

  type OrderStatus = Rules.OrderStatus
  type PaymentStatus = Flow.PaymentStatus

  datatype Item = Item(variant: nat, quantity: nat)

  datatype Order = Order(
    status: OrderStatus, payment: PaymentStatus, items: seq<Item>,
    key: Option<nat>, user: Option<nat>, coupon: Option<nat>, placedAt: int)

  datatype Request = Request(
    key: Option<nat>, user: Option<nat>, items: seq<Item>, coupon: Option<nat>, now: int)

  /** Where a checkout stands: checked and priced, refused for a key somebody else has just used, answered with
      an order, or rejected. */
  datatype Phase = Priced | Recovering | Replied(order: nat) | Rejected

  datatype Call = Call(request: Request, phase: Phase)

  /** `couponLimit` has the coupons whose total use is limited. */
  datatype Db = Db(
    stock: map<nat, int>, orders: seq<Order>, couponUse: map<nat, nat>, couponLimit: map<nat, nat>, calls: seq<Call>)

  // ---------- stock of the lines ----------

  /** The conditional decrements in order; None when one of them finds too little, and nothing is taken. */
  function Take(stock: map<nat, int>, items: seq<Item>): Option<map<nat, int>> {
    if items == [] then Some(stock)
    else
      var before := Take(stock, items[..|items| - 1]);
      var item := items[|items| - 1];
      if before.None? || item.variant !in before.value || before.value[item.variant] < item.quantity then None
      else Some(before.value[item.variant := before.value[item.variant] - item.quantity])
  }

  function Restock(stock: map<nat, int>, items: seq<Item>): map<nat, int> {
    if items == [] then stock
    else
      var before := Restock(stock, items[..|items| - 1]);
      var item := items[|items| - 1];
      if item.variant in before then before[item.variant := before[item.variant] + item.quantity] else before
  }

  function UnitsOf(variant: nat): Item -> int {
    (item: Item) => if item.variant == variant then item.quantity else 0
  }

  /** The units of a variant an order holds: none once it is cancelled. */
  function HoldsOf(variant: nat): Order -> int {
    (o: Order) => if o.status == Rules.OrderCancelled then 0 else Sum(o.items, UnitsOf(variant))
  }

  function Held(d: Db, variant: nat): int { Sum(d.orders, HoldsOf(variant)) }

  function UsesOf(coupon: nat): Order -> int { (o: Order) => if o.coupon == Some(coupon) then 1 else 0 }

  // ---------- checkout ----------

  function FindKey(orders: seq<Order>, key: nat): (o: nat)
    ensures o <= |orders|
    ensures o < |orders| ==> orders[o].key == Some(key)
    ensures o == |orders| ==> forall j :: 0 <= j < |orders| ==> orders[j].key != Some(key)
  {
    if orders == [] then 0
    else
      var init := orders[..|orders| - 1];
      var o := FindKey(init, key);
      if o < |init| || orders[|orders| - 1].key == Some(key) then o else |orders|
  }

  /** The order a key already names. */
  function Winner(d: Db, request: Request): Option<nat> {
    if request.key.None? then None
    else
      var o := FindKey(d.orders, request.key.value);
      if o < |d.orders| then Some(o) else None
  }

  predicate InStock(d: Db, item: Item) {
    item.quantity > 0 && item.variant in d.stock && item.quantity <= d.stock[item.variant]
  }

  predicate CouponOpen(d: Db, coupon: Option<nat>) {
    coupon.Some? ==>
      coupon.value in d.couponUse
      && (coupon.value in d.couponLimit ==> d.couponUse[coupon.value] < d.couponLimit[coupon.value])
  }

  function PhaseAfterCheck(d: Db, request: Request): Phase {
    var winner := Winner(d, request);
    if winner.Some? then
      if d.orders[winner.value].user == request.user then Replied(winner.value) else Rejected
    else if request.items == [] || !(forall i :: 0 <= i < |request.items| ==> InStock(d, request.items[i]))
    then Rejected
    else if !CouponOpen(d, request.coupon) then Rejected
    else Priced
  }

  function Check(d: Db, request: Request): Db {
    d.(calls := d.calls + [Call(request, PhaseAfterCheck(d, request))])
  }

  function At(d: Db, c: nat, phase: Phase): Db
    requires c < |d.calls|
  {
    d.(calls := d.calls[c := d.calls[c].(phase := phase)])
  }

  function NewOrder(request: Request): Order {
    Order(Rules.AwaitingPayment, Flow.PaymentPending, request.items, request.key, request.user, request.coupon,
        request.now)
  }

  /** The database transaction: a used key or too little stock leaves nothing behind. */
  function Commit(d: Db, c: nat): Db {
    if c >= |d.calls| || d.calls[c].phase != Priced then d
    else
      var request := d.calls[c].request;
      if Winner(d, request).Some? then At(d, c, Recovering)
      else
        var taken := Take(d.stock, request.items);
        if taken.None? then At(d, c, Rejected)
        else
          var uses := if request.coupon.Some? && request.coupon.value in d.couponUse
                      then d.couponUse[request.coupon.value := d.couponUse[request.coupon.value] + 1] else d.couponUse;
          At(d, c, Replied(|d.orders|)).(
              stock := taken.value, orders := d.orders + [NewOrder(request)], couponUse := uses)
  }

  function Recover(d: Db, c: nat): Db {
    if c >= |d.calls| || d.calls[c].phase != Recovering then d
    else
      var winner := Winner(d, d.calls[c].request);
      if winner.Some? && d.orders[winner.value].user == d.calls[c].request.user then At(d, c, Replied(winner.value))
      else At(d, c, Rejected)
  }

  // ---------- cancelling and expiring ----------

  predicate Cancellable(status: OrderStatus) {
    status in {Rules.Pending, Rules.AwaitingPayment, Rules.Processing}
  }

  function Release(d: Db, o: nat): Db
    requires o < |d.orders|
  {
    d.(orders := d.orders[o := d.orders[o].(status := Rules.OrderCancelled)],
        stock := Restock(d.stock, d.orders[o].items))
  }

  function Cancel(d: Db, o: nat, user: nat): Db {
    if o >= |d.orders| || d.orders[o].user != Some(user) || !Cancellable(d.orders[o].status) then d else Release(d, o)
  }

  predicate Awaiting(order: Order) {
    order.status == Rules.AwaitingPayment && order.payment == Flow.PaymentPending
  }

  /** One order of a sweep; guarded so that a payment that landed meanwhile wins. */
  function Expire(d: Db, o: nat): Db {
    if o >= |d.orders| || !Awaiting(d.orders[o]) then d else Release(d, o)
  }

  /** A payment outcome for an order: it looks only at the payment status. */
  function PaymentLands(d: Db, o: nat, captured: bool): Db {
    if o >= |d.orders| || d.orders[o].payment == Flow.Paid then d
    else if captured then d.(orders := d.orders[o := d.orders[o].(payment := Flow.Paid, status := Rules.Processing)])
    else d.(orders := d.orders[o := d.orders[o].(payment := Flow.PaymentFailed, status := Rules.OrderFailed)])
  }

  /** Packing, shipping, delivery and returns move the status of orders that are not cancelled. */
  function Progress(d: Db, o: nat, to: OrderStatus): Db {
    if o >= |d.orders| || d.orders[o].status == Rules.OrderCancelled || to == Rules.OrderCancelled then d
    else d.(orders := d.orders[o := d.orders[o].(status := to)])
  }

  // ---------- runs ----------

  datatype Event =
    | ECheck(request: Request)
    | ECommit(call: nat)
    | ERecover(call: nat)
    | ECancel(order: nat, user: nat)
    | EExpire(order: nat)
    | EPaymentLands(order: nat, captured: bool)
    | EProgress(order: nat, to: OrderStatus)

  function Step(d: Db, e: Event): Db {
    match e
    case ECheck(request) => Check(d, request)
    case ECommit(c) => Commit(d, c)
    case ERecover(c) => Recover(d, c)
    case ECancel(o, user) => Cancel(d, o, user)
    case EExpire(o) => Expire(d, o)
    case EPaymentLands(o, captured) => PaymentLands(d, o, captured)
    case EProgress(o, to) => Progress(d, o, to)
  }

  function Run(d: Db, es: seq<Event>): Db
    decreases |es|
  {
    if es == [] then d else Run(Step(d, es[0]), es[1..])
  }

  /** No payment outcome lands on an order that is already cancelled. */
  predicate H3(d: Db, e: Event) {
    e.EPaymentLands? && e.order < |d.orders| ==> d.orders[e.order].status != Rules.OrderCancelled
  }

  ghost predicate Along(d: Db, es: seq<Event>, p: (Db, Event) -> bool)
    decreases |es|
  {
    es != [] ==> p(d, es[0]) && Along(Step(d, es[0]), es[1..], p)
  }

  // ---------- stock is conserved ----------

  lemma {:induction false} TakeMoves(stock: map<nat, int>, items: seq<Item>)
    requires Take(stock, items).Some?
    requires forall v :: v in stock ==> stock[v] >= 0
    ensures var after := Take(stock, items).value;
            && after.Keys == stock.Keys
            && (forall v :: v in stock ==> after[v] >= 0 && after[v] + Sum(items, UnitsOf(v)) == stock[v])
            && (forall i :: 0 <= i < |items| ==> items[i].variant in stock)
    decreases |items|
  {
    if items != [] {
      var n := |items| - 1;
      TakeMoves(stock, items[..n]);
      forall i | 0 <= i < |items| ensures items[i].variant in stock {
        if i < n { assert items[..n][i] == items[i]; }
      }
    }
  }

  /** The transaction fails exactly when the lines together ask for more of some variant than there is. */
  lemma {:induction false} TakeIff(stock: map<nat, int>, items: seq<Item>)
    requires forall v :: v in stock ==> stock[v] >= 0
    requires forall i :: 0 <= i < |items| ==> items[i].variant in stock
    ensures Take(stock, items).Some? <==> forall v :: v in stock ==> Sum(items, UnitsOf(v)) <= stock[v]
    decreases |items|
  {
    if items != [] {
      var n := |items| - 1;
      var item := items[n];
      forall i | 0 <= i < n ensures items[..n][i].variant in stock { assert items[..n][i] == items[i]; }
      TakeIff(stock, items[..n]);
      if Take(stock, items[..n]).Some? {
        TakeMoves(stock, items[..n]);
        assert Sum(items, UnitsOf(item.variant)) == Sum(items[..n], UnitsOf(item.variant)) + item.quantity;
      } else {
        var v :| v in stock && Sum(items[..n], UnitsOf(v)) > stock[v];
        assert Sum(items, UnitsOf(v)) >= Sum(items[..n], UnitsOf(v));
      }
    }
  }

  lemma {:induction false} RestockMoves(stock: map<nat, int>, items: seq<Item>)
    ensures var after := Restock(stock, items);
            after.Keys == stock.Keys && forall v :: v in stock ==> after[v] == stock[v] + Sum(items, UnitsOf(v))
    decreases |items|
  {
    if items != [] { RestockMoves(stock, items[..|items| - 1]); }
  }

  lemma UnitsNonNegative(items: seq<Item>, v: nat)
    ensures Sum(items, UnitsOf(v)) >= 0
  {
    SumNonNegative(items, UnitsOf(v));
  }

  predicate NeverOversold(d: Db) { forall v :: v in d.stock ==> d.stock[v] >= 0 }

  /** Between two states nothing of any variant is made or lost: what left the shelf is held by an order. */
  predicate SameUnits(d: Db, next: Db) {
    && next.stock.Keys == d.stock.Keys
    && forall v :: v in d.stock ==> next.stock[v] + Held(next, v) == d.stock[v] + Held(d, v)
  }

  lemma CommitConserves(d: Db, c: nat)
    requires NeverOversold(d)
    ensures NeverOversold(Commit(d, c)) && SameUnits(d, Commit(d, c))
  {
    var next := Commit(d, c);
    if next.stock != d.stock || next.orders != d.orders {
      var request := d.calls[c].request;
      TakeMoves(d.stock, request.items);
      forall v | v in d.stock ensures Held(next, v) == Held(d, v) + Sum(request.items, UnitsOf(v)) {
        SumAppend(d.orders, NewOrder(request), HoldsOf(v));
      }
    }
  }

  lemma ReleaseConserves(d: Db, o: nat)
    requires NeverOversold(d) && o < |d.orders| && d.orders[o].status != Rules.OrderCancelled
    ensures NeverOversold(Release(d, o)) && SameUnits(d, Release(d, o))
  {
    var next := Release(d, o);
    RestockMoves(d.stock, d.orders[o].items);
    forall v | v in d.stock
      ensures Held(next, v) == Held(d, v) - Sum(d.orders[o].items, UnitsOf(v))
              && Sum(d.orders[o].items, UnitsOf(v)) >= 0
    {
      SumUpdate(d.orders, o, next.orders[o], HoldsOf(v));
      UnitsNonNegative(d.orders[o].items, v);
    }
  }

  lemma RewriteConserves(d: Db, o: nat, order: Order)
    requires NeverOversold(d) && o < |d.orders| && order.items == d.orders[o].items
    requires order.status == Rules.OrderCancelled <==> d.orders[o].status == Rules.OrderCancelled
    ensures SameUnits(d, d.(orders := d.orders[o := order]))
  {
    forall v | v in d.stock ensures Held(d.(orders := d.orders[o := order]), v) == Held(d, v) {
      SumUpdate(d.orders, o, order, HoldsOf(v));
    }
  }

  lemma StepConserves(d: Db, e: Event)
    requires NeverOversold(d) && H3(d, e)
    ensures NeverOversold(Step(d, e)) && SameUnits(d, Step(d, e))
  {
    match e
    case ECheck(_) =>
    case ECommit(c) => CommitConserves(d, c);
    case ERecover(_) =>
    case ECancel(o, user) => if o < |d.orders| && Cancellable(d.orders[o].status) { ReleaseConserves(d, o); }
    case EExpire(o) => if o < |d.orders| && Awaiting(d.orders[o]) { ReleaseConserves(d, o); }
    case EPaymentLands(o, captured) => if o < |d.orders| { RewriteConserves(d, o, Step(d, e).orders[o]); }
    case EProgress(o, to) => if o < |d.orders| { RewriteConserves(d, o, Step(d, e).orders[o]); }
  }

  /** In every reachable state no stock is negative, and stock plus the units in orders that are not cancelled
      is what it was at the start, for every variant: across checkouts that succeed, sell out midway or lose
      the race for their key, cancellations, sweeps, and payments landing in the middle of them. */
  lemma {:induction false} StockConserved(d: Db, es: seq<Event>)
    requires NeverOversold(d) && Along(d, es, H3)
    ensures NeverOversold(Run(d, es)) && SameUnits(d, Run(d, es))
    decreases |es|
  {
    if es != [] {
      StepConserves(d, es[0]);
      StockConserved(Step(d, es[0]), es[1..]);
    }
  }

  /** Exactly when a payment outcome conserves stock: the order is not cancelled, or has been paid already. */
  lemma PaymentConservesIff(d: Db, o: nat, captured: bool)
    requires NeverOversold(d) && o < |d.orders|
    requires d.orders[o].items != [] && forall i :: 0 <= i < |d.orders[o].items| ==>
               d.orders[o].items[i].quantity > 0 && d.orders[o].items[i].variant in d.stock
    ensures SameUnits(d, PaymentLands(d, o, captured)) <==>
              d.orders[o].status != Rules.OrderCancelled || d.orders[o].payment == Flow.Paid
  {
    var order, next := d.orders[o], PaymentLands(d, o, captured);
    if order.status != Rules.OrderCancelled {
      RewriteConserves(d, o, next.orders[o]);
    } else if order.payment != Flow.Paid {
      var v := order.items[0].variant;
      SumUpdate(d.orders, o, next.orders[o], HoldsOf(v));
      SumNonNegative(order.items, UnitsOf(v));
      assert UnitsOf(v)(order.items[0]) > 0;
    }
  }

  // ---------- checkout is idempotent ----------

  predicate OneOrderPerKey(d: Db) {
    forall i, j :: 0 <= i < j < |d.orders| ==> d.orders[i].key.None? || d.orders[j].key != d.orders[i].key
  }

  predicate AnswerNames(d: Db, call: Call) {
    call.phase.Replied? ==>
      && call.phase.order < |d.orders|
      && (call.request.key.Some? ==>
            d.orders[call.phase.order].key == call.request.key && d.orders[call.phase.order].user == call.request.user)
  }

  /** The uses recorded on each coupon, beyond those at the start, are the orders that carry it. */
  predicate CouponsCounted(d: Db, start: map<nat, int>) {
    && d.couponUse.Keys == start.Keys
    && forall c :: c in start ==> d.couponUse[c] == start[c] + Sum(d.orders, UsesOf(c))
  }

  predicate Checkouts(d: Db, start: map<nat, int>) {
    && OneOrderPerKey(d) && CouponsCounted(d, start)
    && forall c :: 0 <= c < |d.calls| ==> AnswerNames(d, d.calls[c])
  }

  /** Everything but a successful commit leaves each order's key, user and coupon alone. */
  predicate SameOrders(d: Db, next: Db) {
    && |next.orders| == |d.orders| && next.couponUse == d.couponUse
    && forall o :: 0 <= o < |d.orders| ==>
         next.orders[o] == d.orders[o].(status := next.orders[o].status, payment := next.orders[o].payment)
  }

  lemma SameOrdersCheckouts(d: Db, next: Db, start: map<nat, int>)
    requires Checkouts(d, start) && SameOrders(d, next)
    requires forall c :: 0 <= c < |next.calls| ==> AnswerNames(d, next.calls[c])
    ensures Checkouts(next, start)
  {
    forall c | c in start ensures Sum(next.orders, UsesOf(c)) == Sum(d.orders, UsesOf(c)) {
      SumEq(next.orders, d.orders, UsesOf(c), UsesOf(c));
    }
    forall c | 0 <= c < |next.calls| ensures AnswerNames(next, next.calls[c]) { assert AnswerNames(d, next.calls[c]); }
  }

  lemma OrderCounted(d: Db, next: Db, order: Order, start: map<nat, int>)
    requires CouponsCounted(d, start) && next.orders == d.orders + [order] && next.couponUse.Keys == d.couponUse.Keys
    requires forall k :: k in d.couponUse ==> next.couponUse[k] == d.couponUse[k] + UsesOf(k)(order)
    ensures CouponsCounted(next, start)
  {
    forall k | k in start ensures next.couponUse[k] == start[k] + Sum(next.orders, UsesOf(k)) {
      SumAppend(d.orders, order, UsesOf(k));
    }
  }

  lemma OrderAnswered(d: Db, next: Db, c: nat, order: Order)
    requires forall k :: 0 <= k < |d.calls| ==> AnswerNames(d, d.calls[k])
    requires next.orders == d.orders + [order] && c < |d.calls|
    requires next.calls == d.calls[c := d.calls[c].(phase := Replied(|d.orders|))]
    requires order.key == d.calls[c].request.key && order.user == d.calls[c].request.user
    ensures forall k :: 0 <= k < |next.calls| ==> AnswerNames(next, next.calls[k])
  {
    forall k | 0 <= k < |next.calls| ensures AnswerNames(next, next.calls[k]) {
      if k != c { assert AnswerNames(d, d.calls[k]); }
    }
  }

  lemma CommitCheckouts(d: Db, c: nat, start: map<nat, int>)
    requires Checkouts(d, start)
    ensures Checkouts(Commit(d, c), start)
  {
    var next := Commit(d, c);
    if next.orders == d.orders {
      forall k | 0 <= k < |next.calls| ensures AnswerNames(d, next.calls[k]) { assert AnswerNames(d, d.calls[k]); }
      SameOrdersCheckouts(d, next, start);
    } else {
      var order := NewOrder(d.calls[c].request);
      OrderCounted(d, next, order, start);
      OrderAnswered(d, next, c, order);
    }
  }

  lemma SameCallsCheckouts(d: Db, next: Db, start: map<nat, int>)
    requires Checkouts(d, start) && SameOrders(d, next) && next.calls == d.calls
    ensures Checkouts(next, start)
  {
    forall c | 0 <= c < |next.calls| ensures AnswerNames(d, next.calls[c]) { assert AnswerNames(d, d.calls[c]); }
    SameOrdersCheckouts(d, next, start);
  }

  lemma ReleaseCheckouts(d: Db, o: nat, start: map<nat, int>)
    requires Checkouts(d, start) && o < |d.orders|
    ensures Checkouts(Release(d, o), start)
  {
    SameCallsCheckouts(d, Release(d, o), start);
  }

  lemma AnswerCheckouts(d: Db, next: Db, c: nat, start: map<nat, int>)
    requires Checkouts(d, start) && next == d.(calls := next.calls) && c < |next.calls|
    requires forall k :: 0 <= k < |next.calls| && k != c ==> k < |d.calls| && next.calls[k] == d.calls[k]
    requires AnswerNames(d, next.calls[c])
    ensures Checkouts(next, start)
  {
    forall k | 0 <= k < |next.calls| ensures AnswerNames(d, next.calls[k]) {
      if k != c { var call := next.calls[k]; assert AnswerNames(d, d.calls[k]); }
    }
    SameOrdersCheckouts(d, next, start);
  }

  lemma CheckCheckouts(d: Db, request: Request, start: map<nat, int>)
    requires Checkouts(d, start)
    ensures Checkouts(Check(d, request), start)
  {
    AnswerCheckouts(d, Check(d, request), |d.calls|, start);
  }

  lemma RecoverCheckouts(d: Db, c: nat, start: map<nat, int>)
    requires Checkouts(d, start)
    ensures Checkouts(Recover(d, c), start)
  {
    if Recover(d, c) != d { AnswerCheckouts(d, Recover(d, c), c, start); }
  }

  lemma CheckoutsStep(d: Db, e: Event, start: map<nat, int>)
    requires Checkouts(d, start)
    ensures Checkouts(Step(d, e), start)
  {
    match e
    case ECheck(request) => CheckCheckouts(d, request, start);
    case ECommit(c) => CommitCheckouts(d, c, start);
    case ERecover(c) => RecoverCheckouts(d, c, start);
    case ECancel(o, user) => if o < |d.orders| { ReleaseCheckouts(d, o, start); }
    case EExpire(o) => if o < |d.orders| { ReleaseCheckouts(d, o, start); }
    case EPaymentLands(o, captured) => SameCallsCheckouts(d, PaymentLands(d, o, captured), start);
    case EProgress(o, to) => SameCallsCheckouts(d, Progress(d, o, to), start);
  }

  /** For one idempotency key, over any interleaving of checks, transactions and lost-race recoveries: at most
      one order carries the key, every checkout that is answered is answered with it, and the coupon of each
      order was counted once. */
  lemma {:induction false} CheckoutIdempotent(d: Db, es: seq<Event>, start: map<nat, int>)
    requires Checkouts(d, start)
    ensures var end := Run(d, es);
            && Checkouts(end, start)
            && (forall a, b ::
                  (0 <= a < |end.calls| && 0 <= b < |end.calls| && end.calls[a].phase.Replied?
                      && end.calls[b].phase.Replied?
                   && end.calls[a].request.key.Some? && end.calls[a].request.key == end.calls[b].request.key) ==>
                  end.calls[a].phase.order == end.calls[b].phase.order)
    decreases |es|
  {
    if es != [] {
      CheckoutsStep(d, es[0], start);
      CheckoutIdempotent(Step(d, es[0]), es[1..], start);
    } else {
      forall a, b | 0 <= a < |d.calls| && 0 <= b < |d.calls| && d.calls[a].phase.Replied? && d.calls[b].phase.Replied?
                    && d.calls[a].request.key.Some? && d.calls[a].request.key == d.calls[b].request.key
        ensures d.calls[a].phase.order == d.calls[b].phase.order
      {
        assert AnswerNames(d, d.calls[a]) && AnswerNames(d, d.calls[b]);
      }
    }
  }

  // ---------- limited coupons ----------

  predicate WithinLimits(d: Db) {
    forall c :: c in d.couponLimit && c in d.couponUse ==> d.couponUse[c] <= d.couponLimit[c]
  }

  /** The checkouts whose transaction will go through. */
  predicate Succeeds(d: Db, c: nat) {
    && c < |d.calls| && d.calls[c].phase == Priced && Winner(d, d.calls[c].request).None?
    && Take(d.stock, d.calls[c].request.items).Some?
  }

  /** Exactly when a checkout keeps its coupon within its limit: the transaction does not look at the limit again, so
      the coupon must still be open when it begins. */
  lemma CommitWithinLimitIff(d: Db, c: nat)
    requires WithinLimits(d) && c < |d.calls|
             && (d.calls[c].request.coupon.Some? ==> d.calls[c].request.coupon.value in d.couponUse)
    ensures WithinLimits(Commit(d, c)) <==> (Succeeds(d, c) ==> CouponOpen(d, d.calls[c].request.coupon))
  {
    var coupon, next := d.calls[c].request.coupon, Commit(d, c);
    if Succeeds(d, c) && !CouponOpen(d, coupon) {
      assert next.couponUse[coupon.value] == d.couponUse[coupon.value] + 1 > next.couponLimit[coupon.value];
    }
  }

  /** A commit finds its coupon still open. */
  predicate StillOpen(d: Db, e: Event) {
    e.ECommit? && e.call < |d.calls| ==> CouponOpen(d, d.calls[e.call].request.coupon)
  }

  lemma LimitStep(d: Db, e: Event)
    requires WithinLimits(d) && StillOpen(d, e)
    ensures WithinLimits(Step(d, e))
  {
    if e.ECommit? && e.call < |d.calls| { CommitWithinLimitIff(d, e.call); }
  }

  lemma {:induction false} LimitsOfAnyRun(d: Db, es: seq<Event>)
    requires WithinLimits(d) && Along(d, es, StillOpen)
    ensures WithinLimits(Run(d, es))
    decreases |es|
  {
    if es != [] {
      LimitStep(d, es[0]);
      LimitsOfAnyRun(Step(d, es[0]), es[1..]);
    }
  }

  // ---------- the sweep ----------

  /** The orders awaiting payment since before the cutoff, in order. */
  function Stale(orders: seq<Order>, cutoff: int): seq<nat> {
    if orders == [] then []
    else
      var n := |orders| - 1;
      Stale(orders[..n], cutoff) + if Awaiting(orders[n]) && orders[n].placedAt < cutoff then [n] else []
  }

  function ExpireAll(d: Db, stale: seq<nat>): Db
    decreases |stale|
  {
    if stale == [] then d else Expire(ExpireAll(d, stale[..|stale| - 1]), stale[|stale| - 1])
  }

  lemma {:induction false} StaleMeaning(orders: seq<Order>, cutoff: int)
    ensures forall i :: 0 <= i < |Stale(orders, cutoff)| ==> Stale(orders, cutoff)[i] < |orders|
    ensures forall o :: 0 <= o < |orders| ==>
              (o in Stale(orders, cutoff) <==> Awaiting(orders[o]) && orders[o].placedAt < cutoff)
    ensures forall i, j :: 0 <= i < j < |Stale(orders, cutoff)| ==> Stale(orders, cutoff)[i] < Stale(orders, cutoff)[j]
    decreases |orders|
  {
    if orders != [] {
      var n := |orders| - 1;
      StaleMeaning(orders[..n], cutoff);
      var before := Stale(orders[..n], cutoff);
      forall o | 0 <= o < |orders|
        ensures o in Stale(orders, cutoff) <==> Awaiting(orders[o]) && orders[o].placedAt < cutoff
      {
        if o < n {
          assert orders[..n][o] == orders[o];
        } else {
          assert forall i :: 0 <= i < |before| ==> before[i] != n;
        }
      }
    }
  }

  /** A sweep that nothing interrupts cancels exactly the orders it was given, each of them once. */
  lemma {:induction false} SweepCancels(d: Db, stale: seq<nat>)
    requires forall i :: 0 <= i < |stale| ==> stale[i] < |d.orders| && Awaiting(d.orders[stale[i]])
    requires forall i, j :: 0 <= i < j < |stale| ==> stale[i] < stale[j]
    ensures var end := ExpireAll(d, stale);
            && |end.orders| == |d.orders|
            && forall o :: 0 <= o < |d.orders| ==>
                 end.orders[o] == if o in stale then d.orders[o].(status := Rules.OrderCancelled) else d.orders[o]
    decreases |stale|
  {
    if stale != [] {
      var n := |stale| - 1;
      forall i | 0 <= i < n
        ensures stale[..n][i] < |d.orders| && Awaiting(d.orders[stale[..n][i]])
      {
        assert stale[..n][i] == stale[i];
      }
      SweepCancels(d, stale[..n]);
      assert stale[n] !in stale[..n];
      assert forall o :: o in stale <==> o in stale[..n] || o == stale[n];
    }
  }

  predicate Sweepable(d: Db, stale: seq<nat>) {
    && (forall i :: 0 <= i < |stale| ==> stale[i] < |d.orders| && Awaiting(d.orders[stale[i]]))
    && (forall i, j :: 0 <= i < j < |stale| ==> stale[i] < stale[j])
  }

  lemma StaleSweepable(d: Db, cutoff: int)
    ensures Sweepable(d, Stale(d.orders, cutoff))
  {
    StaleMeaning(d.orders, cutoff);
    var stale := Stale(d.orders, cutoff);
    forall i | 0 <= i < |stale| ensures Awaiting(d.orders[stale[i]]) { assert stale[i] in stale; }
  }

  /** Exactly which orders an uninterrupted sweep cancels: those that still await payment since before the cutoff. */
  lemma SweepIff(d: Db, cutoff: int, o: nat)
    requires o < |d.orders|
    ensures var end := ExpireAll(d, Stale(d.orders, cutoff));
            && |end.orders| == |d.orders|
            && end.orders[o] ==
               if (&& d.orders[o].status == Rules.AwaitingPayment && d.orders[o].payment == Flow.PaymentPending
                   && d.orders[o].placedAt < cutoff)
               then d.orders[o].(status := Rules.OrderCancelled) else d.orders[o]
  {
    StaleSweepable(d, cutoff);
    StaleMeaning(d.orders, cutoff);
    SweepCancels(d, Stale(d.orders, cutoff));
  }

  lemma StillAwaiting(d: Db, stale: seq<nat>, i: nat)
    requires Sweepable(d, stale) && i < |stale|
    ensures stale[..i + 1][..i] == stale[..i]
    ensures var before := ExpireAll(d, stale[..i]); stale[i] < |before.orders| && Awaiting(before.orders[stale[i]])
  {
    forall k | 0 <= k < i
      ensures stale[..i][k] < |d.orders| && Awaiting(d.orders[stale[..i][k]])
    {
      assert stale[..i][k] == stale[k];
    }
    SweepCancels(d, stale[..i]);
    assert stale[i] !in stale[..i];
  }

  class OrdersDatabase {
    var stock: map<nat, int>
    var orders: seq<Order>
    var couponUse: map<nat, nat>
    const couponLimit: map<nat, nat>
    var calls: seq<Call>

    ghost function Rows(): Db
      reads this
    {
      Db(stock, orders, couponUse, couponLimit, calls)
    }

    method BeginCheckout(request: Request)
      modifies `calls
      ensures Rows() == Check(old(Rows()), request)
    {
      var phase := Priced;
      var existing := if request.key.Some? then FindKey(orders, request.key.value) else |orders|;
      if existing < |orders| {
        phase := if orders[existing].user == request.user then Replied(existing) else Rejected;
      } else if request.items == [] {
        phase := Rejected;
      } else {
        for i := 0 to |request.items|
          invariant phase == if forall j :: 0 <= j < i ==> InStock(Rows(), request.items[j]) then Priced else Rejected
        {
          var item := request.items[i];
          if item.quantity == 0 || item.variant !in stock || item.quantity > stock[item.variant] { phase := Rejected; }
        }
        if request.coupon.Some? {
          var coupon := request.coupon.value;
          if coupon !in couponUse || (coupon in couponLimit && couponUse[coupon] >= couponLimit[coupon]) {
            phase := Rejected;
          }
        }
      }
      calls := calls + [Call(request, phase)];
    }

    /** The conditional decrements, up to the first that finds too little; the caller rolls back. */
    method TakeStock(items: seq<Item>) returns (ok: bool)
      modifies `stock
      ensures Take(old(stock), items) == if ok then Some(stock) else None
    {
      for i := 0 to |items|
        invariant Take(old(stock), items[..i]) == Some(stock)
      {
        assert items[..i + 1][..i] == items[..i];
        if items[i].variant !in stock || stock[items[i].variant] < items[i].quantity {
          TakeFails(old(stock), items, i + 1);
          return false;
        }
        stock := stock[items[i].variant := stock[items[i].variant] - items[i].quantity];
      }
      assert items[..|items|] == items;
      ok := true;
    }

    method CommitCheckout(c: nat)
      modifies this
      ensures Rows() == Commit(old(Rows()), c)
    {
      if c >= |calls| || calls[c].phase != Priced { return; }
      var request := calls[c].request;
      if request.key.Some? && FindKey(orders, request.key.value) < |orders| {
        calls := calls[c := calls[c].(phase := Recovering)];
        return;
      }
      var saved := stock;
      var o := |orders|;
      orders := orders + [NewOrder(request)];
      var taken := TakeStock(request.items);
      if !taken {
        stock, orders := saved, orders[..o];
        calls := calls[c := calls[c].(phase := Rejected)];
        return;
      }
      if request.coupon.Some? && request.coupon.value in couponUse {
        couponUse := couponUse[request.coupon.value := couponUse[request.coupon.value] + 1];
      }
      calls := calls[c := calls[c].(phase := Replied(o))];
    }

    method RecoverCheckout(c: nat)
      modifies `calls
      ensures Rows() == Recover(old(Rows()), c)
    {
      if c >= |calls| || calls[c].phase != Recovering { return; }
      var request := calls[c].request;
      var o := if request.key.Some? then FindKey(orders, request.key.value) else |orders|;
      var mine := o < |orders| && orders[o].user == request.user;
      calls := calls[c := calls[c].(phase := if mine then Replied(o) else Rejected)];
    }

    /** The status is written first, then the stock of each line is given back. */
    method ReleaseOrder(o: nat)
      requires o < |orders|
      modifies `orders, `stock
      ensures Rows() == Release(old(Rows()), o)
    {
      orders := orders[o := orders[o].(status := Rules.OrderCancelled)];
      var items := orders[o].items;
      for i := 0 to |items|
        invariant stock == Restock(old(stock), items[..i])
        invariant orders == old(orders)[o := old(orders)[o].(status := Rules.OrderCancelled)]
      {
        assert items[..i + 1][..i] == items[..i];
        if items[i].variant in stock {
          stock := stock[items[i].variant := stock[items[i].variant] + items[i].quantity];
        }
      }
      assert items[..|items|] == items;
    }

    method CancelOrder(o: nat, user: nat)
      modifies `orders, `stock
      ensures Rows() == Cancel(old(Rows()), o, user)
    {
      if o >= |orders| || orders[o].user != Some(user) || !Cancellable(orders[o].status) { return; }
      ReleaseOrder(o);
    }

    /** Reads the stale orders once, then expires each under its own guard; answers how many it cancelled. */
    method ExpireStale(cutoff: int) returns (expired: nat)
      modifies `orders, `stock
      ensures Rows() == ExpireAll(old(Rows()), Stale(old(orders), cutoff))
      ensures expired == |Stale(old(orders), cutoff)|
    {
      var stale := [];
      for i := 0 to |orders|
        invariant stale == Stale(orders[..i], cutoff)
      {
        assert orders[..i + 1][..i] == orders[..i];
        if Awaiting(orders[i]) && orders[i].placedAt < cutoff { stale := stale + [i]; }
      }
      assert orders[..|orders|] == orders;
      StaleSweepable(old(Rows()), cutoff);
      expired := 0;
      for i := 0 to |stale|
        invariant Rows() == ExpireAll(old(Rows()), stale[..i]) && expired == i
      {
        StillAwaiting(old(Rows()), stale, i);
        if Awaiting(orders[stale[i]]) {
          ReleaseOrder(stale[i]);
          expired := expired + 1;
        }
      }
      assert stale[..|stale|] == stale;
    }
  }

  /** Once a decrement fails, so does the whole list. */
  lemma {:induction false} TakeFails(stock: map<nat, int>, items: seq<Item>, n: nat)
    requires n <= |items| && Take(stock, items[..n]).None?
    ensures Take(stock, items).None?
    decreases |items| - n
  {
    if n == |items| {
      assert items[..n] == items;
    } else {
      assert items[..n + 1][..n] == items[..n];
      TakeFails(stock, items, n + 1);
    }
  }
}
