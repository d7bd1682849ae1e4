/**
 What every run of the return flow keeps: the quantities of an item only shrink from stage to stage, a
 released return never comes back, and the returns of an order line never hold more units than were ordered.
 */
module ReturnSafety {
  import opened Prelude
  import opened ReturnRules
  import opened ReturnFlow

  /** Accepted <= received <= approved <= requested, and each is recorded exactly from its stage on. */
  predicate ItemShape(order: Order, item: ReturnItem, status: RequestStatus) {
    && item.line < |order.lines|
    && (item.approved.Some? ==> item.approved.value <= item.quantity)
    && (item.received.Some? ==> item.approved.Some? && item.received.value <= item.approved.value)
    && (item.result.Some? <==> item.accepted.Some?)
    && (item.result.Some? ==> item.received.Some? && item.accepted.value <= item.received.value)
    && (item.result.Some? ==>
          var line := order.lines[item.line];
          && item.deduction <= UnitsRefund(line, order.money, item.accepted.value)
          && item.refundAmount == Some(ItemRefund(line, order.money, item.accepted.value, item.deduction)))
    && (item.result.None? ==> item.deduction == 0)
    && (status == ReturnRequested ==> item.approved.None?)
    && (status in {ReturnApproved, PickupScheduled, PickedUp} ==> item.approved.Some? && item.received.None?)
    && (status == ReturnReceived ==> item.received.Some? && item.result.None?)
    && (status == Inspection ==> item.received.Some?)
    && (status in {RefundApproved, RefundProcessing, Completed} ==> item.result.Some?)
  }

  predicate DistinctLines(items: seq<ReturnItem>) {
    forall i, j :: 0 <= i < j < |items| ==> items[i].line != items[j].line
  }

  predicate RequestShape(order: Order, r: ReturnRequest) {
    && r.items != []
    && DistinctLines(r.items)
    && (forall k :: 0 <= k < |r.items| ==> ItemShape(order, r.items[k], r.status))
  }

  predicate PastInspection(r: ReturnRequest) { InRefund(r) || r.status == Completed }

  predicate RefundShape(d: Db, f: Refund) {
    && 0 < f.amount
    && d.order.captured.Some?
    && (f.forReturn.Some? ==> f.forReturn.value < |d.requests| && PastInspection(d.requests[f.forReturn.value]))
  }

  /** A waiting call has written nothing yet: its refund is pending and no webhook can find it. */
  predicate CallShape(f: Refund, call: Call) {
    && (call == Waiting <==> f.status == RefundPending)
    && (call == Waiting ==> f.providerRefundId.None?)
    && (call.Answered? ==> call.verdict != Undecided)
    && f.status != RefundCancelled
  }

  predicate Shape(d: Db) {
    && |d.calls| == |d.refunds|
    && (forall id :: 0 <= id < |d.requests| ==> RequestShape(d.order, d.requests[id]))
    && (forall r :: 0 <= r < |d.refunds| ==> RefundShape(d, d.refunds[r]) && CallShape(d.refunds[r], d.calls[r]))
  }

  // ---------- the shape of the rows survives every step ----------

  /** Only the statuses past inspection may replace one another under a refund. */
  predicate Replaces(before: ReturnRequest, after: ReturnRequest) { PastInspection(before) ==> PastInspection(after) }

  lemma WithKeepsShape(d: Db, id: nat, r: ReturnRequest)
    requires Shape(d) && id < |d.requests|
    requires RequestShape(d.order, r) && Replaces(d.requests[id], r)
    ensures Shape(With(d, id, r))
  {
    forall j | 0 <= j < |d.refunds| ensures RefundShape(With(d, id, r), d.refunds[j]) {
      assert RefundShape(d, d.refunds[j]);
    }
  }

  lemma ReserveKeepsShape(d: Db, amount: nat, forReturn: Option<nat>)
    requires Shape(d)
    requires forReturn.Some? ==> forReturn.value < |d.requests| && PastInspection(d.requests[forReturn.value])
    ensures Shape(Reserve(d, amount, forReturn).0)
  {
    var after := Reserve(d, amount, forReturn).0;
    forall j | 0 <= j < |after.refunds|
      ensures RefundShape(after, after.refunds[j]) && CallShape(after.refunds[j], after.calls[j])
    {
      if j < |d.refunds| { assert RefundShape(d, d.refunds[j]); }
    }
  }

  lemma SendKeepsShape(d: Db, id: nat, amount: nat)
    requires Shape(d) && id < |d.requests| && d.requests[id].status == RefundApproved
    ensures Shape(SendRefund(d, id, amount).0)
  {
    WithKeepsShape(d, id, d.requests[id].(status := RefundProcessing));
    WithKeepsShape(d, id, d.requests[id].(status := RefundApproved));
    ReserveKeepsShape(SetStatus(d, id, RefundProcessing), amount, Some(id));
  }

  /** Rows whose calls may be ahead of them at r, where a settlement follows the call's own bookkeeping. */
  predicate ShapeBut(d: Db, r: nat) {
    && |d.calls| == |d.refunds|
    && (forall id :: 0 <= id < |d.requests| ==> RequestShape(d.order, d.requests[id]))
    && (forall j :: 0 <= j < |d.refunds| ==> RefundShape(d, d.refunds[j]))
    && (forall j :: 0 <= j < |d.refunds| && j != r ==> CallShape(d.refunds[j], d.calls[j]))
  }

  lemma SettledRowKeepsShape(d: Db, r: nat, refund: Refund)
    requires r < |d.refunds| && ShapeBut(d, r)
    requires refund == d.refunds[r].(status := refund.status) && CallShape(refund, d.calls[r])
    ensures Shape(WithRefund(d, r, refund))
  {
    var written := WithRefund(d, r, refund);
    forall j | 0 <= j < |written.refunds|
      ensures RefundShape(written, written.refunds[j]) && CallShape(written.refunds[j], written.calls[j])
    {
      assert RefundShape(d, d.refunds[j]);
    }
  }

  lemma PaymentKeepsShape(d: Db, payment: PaymentStatus, status: OrderStatus)
    requires Shape(d)
    ensures Shape(d.(payment := payment, status := status))
  {
    var next := d.(payment := payment, status := status);
    forall j | 0 <= j < |d.refunds| ensures RefundShape(next, next.refunds[j]) { assert RefundShape(d, d.refunds[j]); }
  }

  lemma PaidBackKeepsShape(d: Db, id: nat, to: RequestStatus)
    requires Shape(d) && id < |d.requests| && PastInspection(d.requests[id]) && to in {RefundApproved, Completed}
    ensures Shape(SetStatus(d, id, to))
  {
    WithKeepsShape(d, id, d.requests[id].(status := to));
  }

  lemma SettleKeepsShape(d: Db, r: nat, verdict: Verdict)
    requires r < |d.refunds| && verdict != Undecided && ShapeBut(d, r)
    requires d.calls[r] != Waiting && (d.calls[r].Answered? ==> d.calls[r].verdict != Undecided)
    requires d.refunds[r].status != RefundCancelled
    requires d.refunds[r].status == RefundPending ==> verdict == Declined
    ensures Shape(Settle(d, r, verdict))
  {
    var refund := d.refunds[r];
    if !SettleIgnored(refund.status, verdict) {
      SettledRowKeepsShape(d, r, refund.(status := SettledAs(verdict)));
      var written := WithRefund(d, r, refund.(status := SettledAs(verdict)));
      var paid := if verdict == Confirmed then ApplyPaymentStatus(written) else written;
      PaymentKeepsShape(written, paid.payment, paid.status);
      assert RefundShape(d, refund);
      if refund.forReturn.Some? {
        var id := refund.forReturn.value;
        var to := if verdict == Confirmed then Completed else RefundApproved;
        PaidBackKeepsShape(paid, id, to);
        var moved := SetStatus(paid, id, to);
        PaymentKeepsShape(moved, moved.payment, SettleOrderStatus(moved).status);
      }
    }
  }

  lemma CloseKeepsShape(order: Order, r: ReturnRequest, shipping: nat)
    requires RequestShape(order, r) && r.status == Inspection
    ensures RequestShape(order, ReturnRequest(RefundApproved, Close(r.items), shipping))
  {
    forall k | 0 <= k < |r.items| ensures ItemShape(order, Close(r.items)[k], RefundApproved) {
      assert ItemShape(order, r.items[k], Inspection);
    }
  }

  lemma CreateKeepsShape(d: Db, asks: seq<Ask>, now: int)
    requires Shape(d)
    ensures Shape(Create(d, asks, now).0)
  {
    var after := Create(d, asks, now).0;
    forall j | 0 <= j < |d.refunds| ensures RefundShape(after, d.refunds[j]) {
      assert RefundShape(d, d.refunds[j]);
    }
  }

  lemma ApproveKeepsShape(d: Db, id: nat, q: map<nat, nat>)
    requires Shape(d)
    ensures Shape(Approve(d, id, q).0)
  {
    var approved := Approve(d, id, q);
    if approved.1 == Ok {
      var r := d.requests[id];
      assert RequestShape(d.order, r);
      assert forall k :: 0 <= k < |r.items| ==> ItemShape(d.order, r.items[k], r.status);
      WithKeepsShape(d, id, approved.0.requests[id]);
    }
  }

  lemma ReceiveKeepsShape(d: Db, id: nat, q: map<nat, nat>)
    requires Shape(d)
    ensures Shape(Receive(d, id, q).0)
  {
    var received := Receive(d, id, q);
    if received.1 == Ok {
      var r := d.requests[id];
      assert RequestShape(d.order, r);
      assert forall k :: 0 <= k < |r.items| ==> ItemShape(d.order, r.items[k], r.status);
      WithKeepsShape(d, id, received.0.requests[id]);
    }
  }

  /** The five operations that only move the status. */
  lemma MoveKeepsShape(d: Db, id: nat, to: RequestStatus)
    requires Shape(d)
    requires to in {Cancelled, ReturnRejected, PickupScheduled, PickedUp, Inspection}
    ensures match to
            case Cancelled => Shape(Cancel(d, id).0)
            case ReturnRejected => Shape(Reject(d, id).0)
            case PickupScheduled => Shape(SchedulePickup(d, id).0)
            case PickedUp => Shape(MarkPickedUp(d, id).0)
            case _ => Shape(StartInspection(d, id).0)
  {
    if id >= |d.requests| { return; }
    var r := d.requests[id];
    var moved := r.(status := to);
    assert forall k :: 0 <= k < |r.items| ==> ItemShape(d.order, r.items[k], r.status);
    if RequestShape(d.order, moved) && Replaces(r, moved) { WithKeepsShape(d, id, moved); }
  }

  lemma InspectKeepsShape(d: Db, id: nat, k: nat, dto: InspectionDto)
    requires Shape(d)
    ensures Shape(InspectItem(d, id, k, dto).0)
  {
    var after := InspectItem(d, id, k, dto);
    if after.1 == Ok {
      var r := d.requests[id];
      assert RequestShape(d.order, r);
      assert ItemShape(d.order, r.items[k], r.status);
      WithKeepsShape(d, id, after.0.requests[id]);
    }
  }

  lemma RecordKeepsShape(d: Db, r: nat, answer: Answer)
    requires Shape(d) && r < |d.calls| && d.calls[r] == Waiting && answer != Threw
    ensures Shape(ProviderAnswers(d, r, answer))
  {
    var after := ProviderAnswers(d, r, answer);
    forall j | 0 <= j < |after.refunds|
      ensures RefundShape(after, after.refunds[j]) && CallShape(after.refunds[j], after.calls[j])
    {
      assert RefundShape(d, d.refunds[j]) && CallShape(d.refunds[j], d.calls[j]);
    }
  }

  lemma ApprovedKeepsShape(d: Db, id: nat, shipping: nat)
    requires Shape(d) && id < |d.requests| && d.requests[id].status == Inspection
    ensures Shape(With(d, id, ReturnRequest(RefundApproved, Close(d.requests[id].items), shipping)))
  {
    CloseKeepsShape(d.order, d.requests[id], shipping);
    WithKeepsShape(d, id, ReturnRequest(RefundApproved, Close(d.requests[id].items), shipping));
  }

  lemma ApproveRefundKeepsShape(d: Db, id: nat)
    requires Shape(d)
    ensures Shape(ApproveRefund(d, id).0)
  {
    if id < |d.requests| && d.requests[id].status == Inspection {
      ApprovedKeepsShape(d, id, ShippingDue(d, id));
      var next := With(d, id, ReturnRequest(RefundApproved, Close(d.requests[id].items), ShippingDue(d, id)));
      if Total(d, id) > 0 {
        SendKeepsShape(next, id, Total(d, id));
      } else {
        PaidBackKeepsShape(next, id, Completed);
        var done := SetStatus(next, id, Completed);
        PaymentKeepsShape(done, done.payment, SettleOrderStatus(done).status);
      }
    }
  }

  lemma RetryKeepsShape(d: Db, id: nat)
    requires Shape(d)
    ensures Shape(RetryRefund(d, id).0)
  {
    if id < |d.requests| && d.requests[id].status == RefundApproved {
      var outstanding := Total(d, id) - Sum(d.refunds, NotFailedFor(id));
      if outstanding > 0 { SendKeepsShape(d, id, outstanding); }
    }
  }

  lemma AnswerKeepsShape(d: Db, r: nat, answer: Answer)
    requires Shape(d)
    ensures Shape(ProviderAnswers(d, r, answer))
  {
    if r < |d.calls| && d.calls[r] == Waiting {
      if answer == Threw {
        SettleKeepsShape(WithCall(d, r, Finished), r, Declined);
      } else {
        RecordKeepsShape(d, r, answer);
      }
    }
  }

  lemma SettlementKeepsShape(d: Db, e: Event)
    requires Shape(d) && (e.ESettleAnswer? || e.EWebhook?)
    ensures Shape(Step(d, e))
  {
    match e
    case ESettleAnswer(r) =>
      if r < |d.calls| && d.calls[r].Answered? {
        assert CallShape(d.refunds[r], d.calls[r]);
        SettleKeepsShape(WithCall(d, r, Finished), r, d.calls[r].verdict);
      }
    case EWebhook(p, verdict) =>
      var r := Find(d.refunds, p);
      if verdict != Undecided && r < |d.refunds| {
        assert CallShape(d.refunds[r], d.calls[r]);
        SettleKeepsShape(d, r, verdict);
      }
  }

  lemma ShapeStep(d: Db, e: Event)
    requires Shape(d)
    ensures Shape(Step(d, e))
  {
    match e
    case ECreate(asks, now) => CreateKeepsShape(d, asks, now);
    case EApprove(id, q) => ApproveKeepsShape(d, id, q);
    case EReceive(id, q) => ReceiveKeepsShape(d, id, q);
    case ECancel(id) => MoveKeepsShape(d, id, Cancelled);
    case EReject(id) => MoveKeepsShape(d, id, ReturnRejected);
    case ESchedulePickup(id) => MoveKeepsShape(d, id, PickupScheduled);
    case EMarkPickedUp(id) => MoveKeepsShape(d, id, PickedUp);
    case EStartInspection(id) => MoveKeepsShape(d, id, Inspection);
    case EInspectItem(id, k, dto) => InspectKeepsShape(d, id, k, dto);
    case EApproveRefund(id) => ApproveRefundKeepsShape(d, id);
    case ERetryRefund(id) => RetryKeepsShape(d, id);
    case ERefundOrder(amount) => ReserveKeepsShape(d, amount, None);
    case EProviderAnswers(r, answer) => AnswerKeepsShape(d, r, answer);
    case ESettleAnswer(r) => SettlementKeepsShape(d, e);
    case EWebhook(p, verdict) => SettlementKeepsShape(d, e);
  }

  lemma {:induction false} ShapeRun(d: Db, es: seq<Event>)
    requires Shape(d)
    ensures Shape(Run(d, es))
    decreases |es|
  {
    if es != [] {
      ShapeStep(d, es[0]);
      ShapeRun(Step(d, es[0]), es[1..]);
    }
  }

  // ---------- no over-return ----------

  /** What one step may do to a return: hold no more of any line, and nothing at all once released. */
  predicate Evolves(r: ReturnRequest, next: ReturnRequest) {
    && |next.items| == |r.items|
    && (forall k :: 0 <= k < |r.items| ==>
          && next.items[k].line == r.items[k].line
          && HeldQuantity(next.items[k], next.status) <= HeldQuantity(r.items[k], r.status))
    && (Released(r.status) ==> next == r)
  }

  predicate AllEvolve(d: Db, next: Db) {
    && next.order == d.order
    && |next.requests| == |d.requests|
    && forall id :: 0 <= id < |d.requests| ==> Evolves(d.requests[id], next.requests[id])
  }

  /** A refund step rewrites at most the status of one return that is past inspection. */
  predicate RefundFrame(d: Db, next: Db) {
    && next.order == d.order
    && |next.requests| == |d.requests|
    && forall id :: 0 <= id < |d.requests| ==>
         next.requests[id] == d.requests[id] ||
         (PastInspection(d.requests[id]) && PastInspection(next.requests[id])
          && next.requests[id] == d.requests[id].(status := next.requests[id].status))
  }

  lemma SettleFrame(d: Db, r: nat, verdict: Verdict)
    requires r < |d.refunds| && verdict != Undecided && RefundShape(d, d.refunds[r])
    ensures RefundFrame(d, Settle(d, r, verdict))
  {}

  lemma RetryFrame(d: Db, id: nat)
    ensures RefundFrame(d, RetryRefund(d, id).0)
  {
    if id < |d.requests| && d.requests[id].status == RefundApproved {
      var outstanding := Total(d, id) - Sum(d.refunds, NotFailedFor(id));
      if outstanding > 0 { SendFrame(d, id, outstanding); }
    }
  }

  lemma ProviderAnswersFrame(d: Db, r: nat, answer: Answer)
    requires Shape(d)
    ensures RefundFrame(d, ProviderAnswers(d, r, answer))
  {
    if r < |d.calls| && d.calls[r] == Waiting && answer == Threw {
      assert RefundShape(d, d.refunds[r]);
      SettleFrame(WithCall(d, r, Finished), r, Declined);
    }
  }

  lemma SettleAnswerFrame(d: Db, r: nat)
    requires Shape(d)
    ensures RefundFrame(d, SettleAnswer(d, r))
  {
    if r < |d.calls| && d.calls[r].Answered? && d.calls[r].verdict != Undecided {
      assert RefundShape(d, d.refunds[r]);
      SettleFrame(WithCall(d, r, Finished), r, d.calls[r].verdict);
    }
  }

  lemma WebhookFrame(d: Db, p: nat, verdict: Verdict)
    requires Shape(d)
    ensures RefundFrame(d, Webhook(d, p, verdict))
  {
    var r := Find(d.refunds, p);
    if verdict != Undecided && r < |d.refunds| { SettleFrame(d, r, verdict); }
  }

  lemma RefundEventFrame(d: Db, e: Event)
    requires Shape(d)
    requires e.ERetryRefund? || e.ERefundOrder? || e.EProviderAnswers? || e.ESettleAnswer? || e.EWebhook?
    ensures RefundFrame(d, Step(d, e))
  {
    match e
    case ERetryRefund(id) => RetryFrame(d, id);
    case ERefundOrder(amount) =>
    case EProviderAnswers(r, answer) => ProviderAnswersFrame(d, r, answer);
    case ESettleAnswer(r) => SettleAnswerFrame(d, r);
    case EWebhook(p, verdict) => WebhookFrame(d, p, verdict);
  }

  lemma FrameEvolves(d: Db, next: Db)
    requires Shape(d) && RefundFrame(d, next)
    ensures AllEvolve(d, next)
  {
    forall id | 0 <= id < |d.requests| ensures Evolves(d.requests[id], next.requests[id]) {
      assert RequestShape(d.order, d.requests[id]);
    }
  }

  lemma QuantitiesEvolve(d: Db, id: nat, q: map<nat, nat>)
    requires Shape(d)
    ensures AllEvolve(d, Approve(d, id, q).0) && AllEvolve(d, Receive(d, id, q).0)
  {
    if id < |d.requests| {
      var r := d.requests[id];
      assert RequestShape(d.order, r);
      assert forall k :: 0 <= k < |r.items| ==> ItemShape(d.order, r.items[k], r.status);
    }
  }

  lemma InspectEvolves(d: Db, id: nat, k: nat, dto: InspectionDto)
    requires Shape(d) && H1(d, EInspectItem(id, k, dto))
    ensures AllEvolve(d, InspectItem(d, id, k, dto).0)
  {
    if id < |d.requests| && k < |d.requests[id].items| {
      var r := d.requests[id];
      assert RequestShape(d.order, r);
      assert ItemShape(d.order, r.items[k], r.status);
    }
  }

  lemma SendFrame(d: Db, id: nat, amount: nat)
    requires id < |d.requests|
    ensures var next := SendRefund(d, id, amount).0;
            next.order == d.order && next.status == d.status && next.payment == d.payment &&
            exists to :: to in {RefundApproved, RefundProcessing}
                && next.requests == d.requests[id := d.requests[id].(status := to)]
  {
    var sent := Reserve(SetStatus(d, id, RefundProcessing), amount, Some(id));
    var to := if sent.1 == Ok then RefundProcessing else RefundApproved;
    assert SendRefund(d, id, amount).0.requests == d.requests[id := d.requests[id].(status := to)];
  }

  /** Approving a refund closes the return's items and touches no other return. */
  lemma ApproveRefundFrame(d: Db, id: nat)
    ensures var next := ApproveRefund(d, id).0;
            next == d ||
            (id < |d.requests| && d.requests[id].status == Inspection && next.order == d.order &&
             exists to :: to in {RefundApproved, RefundProcessing, Completed} &&
               next.requests == d.requests[id := ReturnRequest(to, Close(d.requests[id].items), ShippingDue(d, id))])
  {
    if id < |d.requests| && d.requests[id].status == Inspection {
      var r := ReturnRequest(RefundApproved, Close(d.requests[id].items), ShippingDue(d, id));
      var approved := With(d, id, r);
      if Total(d, id) > 0 {
        SendFrame(approved, id, Total(d, id));
      } else {
        assert SetStatus(approved, id, Completed).requests == d.requests[id := r.(status := Completed)];
      }
    }
  }

  lemma ApproveRefundEvolves(d: Db, id: nat)
    requires Shape(d)
    ensures AllEvolve(d, ApproveRefund(d, id).0)
  {
    ApproveRefundFrame(d, id);
    if id < |d.requests| { assert RequestShape(d.order, d.requests[id]); }
  }

  lemma StepEvolves(d: Db, e: Event)
    requires Shape(d) && H1(d, e) && !e.ECreate?
    ensures AllEvolve(d, Step(d, e))
  {
    match e
    case EApprove(id, q) => QuantitiesEvolve(d, id, q);
    case EReceive(id, q) => QuantitiesEvolve(d, id, q);
    case EInspectItem(id, k, dto) => InspectEvolves(d, id, k, dto);
    case EApproveRefund(id) => ApproveRefundEvolves(d, id);
    case ECancel(id) => MoveEvolves(d, id, Cancelled);
    case EReject(id) => MoveEvolves(d, id, ReturnRejected);
    case ESchedulePickup(id) => MoveEvolves(d, id, PickupScheduled);
    case EMarkPickedUp(id) => MoveEvolves(d, id, PickedUp);
    case EStartInspection(id) => MoveEvolves(d, id, Inspection);
    case _ => RefundEventFrame(d, e); FrameEvolves(d, Step(d, e));
  }

  lemma StatusEvolves(d: Db, id: nat, to: RequestStatus)
    requires id < |d.requests| && !Released(d.requests[id].status)
    ensures AllEvolve(d, SetStatus(d, id, to))
  {
    var r, n := d.requests[id], d.requests[id].(status := to);
    assert forall k :: 0 <= k < |r.items| ==> HeldQuantity(n.items[k], n.status) <= HeldQuantity(r.items[k], r.status);
  }

  lemma MoveEvolves(d: Db, id: nat, to: RequestStatus)
    ensures match to
            case Cancelled => AllEvolve(d, Cancel(d, id).0)
            case ReturnRejected => AllEvolve(d, Reject(d, id).0)
            case PickupScheduled => AllEvolve(d, SchedulePickup(d, id).0)
            case PickedUp => AllEvolve(d, MarkPickedUp(d, id).0)
            case Inspection => AllEvolve(d, StartInspection(d, id).0)
            case _ => true
  {
    if id < |d.requests| && !Released(d.requests[id].status) { StatusEvolves(d, id, to); }
  }

  lemma HeldShrinks(d: Db, next: Db, line: nat)
    requires AllEvolve(d, next)
    ensures Held(next, line) <= Held(d, line)
  {
    forall id | 0 <= id < |d.requests| ensures HeldIn(line)(next.requests[id]) <= HeldIn(line)(d.requests[id]) {
      var r, n := d.requests[id], next.requests[id];
      assert Evolves(r, n);
      SumLe(n.items, r.items, ItemHeldOn(line, n.status), ItemHeldOn(line, r.status));
    }
    SumLe(next.requests, d.requests, HeldIn(line), HeldIn(line));
  }

  /** A new return takes from a line exactly what it asks of it. */
  lemma {:induction false} NewItemsHold(asks: seq<Ask>, items: seq<ReturnItem>, line: nat)
    requires WellFormedAsks(asks) && |items| == |asks|
    requires forall k :: 0 <= k < |asks| ==> items[k] == NewItem(asks[k])
    ensures var held := Sum(items, ItemHeldOn(line, ReturnRequested));
            || (held == 0 && forall k :: 0 <= k < |asks| ==> asks[k].line != line)
            || exists k :: 0 <= k < |asks| && asks[k].line == line && held == asks[k].quantity
  {
    if k :| 0 <= k < |asks| && asks[k].line == line {
      SumSingle(items, k, ItemHeldOn(line, ReturnRequested));
    } else {
      SumZero(items, ItemHeldOn(line, ReturnRequested));
    }
  }

  lemma CreateHolds(d: Db, asks: seq<Ask>, now: int, line: nat)
    requires line < |d.order.lines| && Held(d, line) <= d.order.lines[line].quantity
    ensures Held(Create(d, asks, now).0, line) <= d.order.lines[line].quantity
  {
    var after := Create(d, asks, now);
    if after.1 == Ok {
      var r := after.0.requests[|d.requests|];
      SumAppend(d.requests, r, HeldIn(line));
      NewItemsHold(asks, r.items, line);
      forall k | 0 <= k < |asks| ensures Askable(d, asks[k], now) {}
    }
  }

  predicate WithinOrder(d: Db) {
    forall line :: 0 <= line < |d.order.lines| ==> Held(d, line) <= d.order.lines[line].quantity
  }

  lemma WithinOrderStep(d: Db, e: Event)
    requires Shape(d) && WithinOrder(d) && H1(d, e)
    ensures WithinOrder(Step(d, e))
  {
    var next := Step(d, e);
    if e.ECreate? {
      forall line | 0 <= line < |d.order.lines| ensures Held(next, line) <= d.order.lines[line].quantity {
        CreateHolds(d, e.asks, e.now, line);
      }
    } else {
      StepEvolves(d, e);
      forall line | 0 <= line < |d.order.lines| ensures Held(next, line) <= d.order.lines[line].quantity {
        HeldShrinks(d, next, line);
      }
    }
  }

  /** No over-return: in every state a run can reach, however its steps are interleaved, the units of a
      line held by all returns together are at most the units ordered. */
  lemma {:induction false} NoOverReturn(d: Db, es: seq<Event>)
    requires Shape(d) && WithinOrder(d) && Along(d, es, H1)
    ensures Shape(Run(d, es)) && WithinOrder(Run(d, es))
    decreases |es|
  {
    if es != [] {
      ShapeStep(d, es[0]);
      WithinOrderStep(d, es[0]);
      NoOverReturn(Step(d, es[0]), es[1..]);
    }
  }

  lemma FreshIsSafe(d: Db)
    requires Fresh(d)
    ensures Shape(d) && WithinOrder(d)
  {}

  /** A return that was rejected or cancelled stays exactly as it is, whatever happens afterwards. */
  lemma {:induction false} ReleasedForGood(d: Db, es: seq<Event>, id: nat)
    requires Shape(d) && id < |d.requests| && Released(d.requests[id].status)
    ensures id < |Run(d, es).requests| && Run(d, es).requests[id] == d.requests[id]
    decreases |es|
  {
    if es != [] {
      var e := es[0];
      ShapeStep(d, e);
      ReleasedStep(d, e, id);
      ReleasedForGood(Step(d, e), es[1..], id);
    }
  }

  lemma ReleasedStays(d: Db, e: Event, id: nat)
    requires id < |d.requests| && Released(d.requests[id].status)
    requires match e
             case EApprove(_, _) => true
             case EReceive(_, _) => true
             case ECancel(_) => true
             case EReject(_) => true
             case ESchedulePickup(_) => true
             case EMarkPickedUp(_) => true
             case EStartInspection(_) => true
             case EInspectItem(_, _, _) => true
             case _ => false
    ensures id < |Step(d, e).requests| && Step(d, e).requests[id] == d.requests[id]
  {}

  lemma ReleasedStep(d: Db, e: Event, id: nat)
    requires Shape(d) && id < |d.requests| && Released(d.requests[id].status)
    ensures id < |Step(d, e).requests| && Step(d, e).requests[id] == d.requests[id]
  {
    match e
    case ERetryRefund(_) => RefundEventFrame(d, e);
    case EProviderAnswers(_, _) => RefundEventFrame(d, e);
    case ESettleAnswer(_) => RefundEventFrame(d, e);
    case EWebhook(_, _) => RefundEventFrame(d, e);
    case EApproveRefund(j) => ApproveRefundEvolves(d, j);
    case ECreate(_, _) =>
    case ERefundOrder(_) =>
    case _ => ReleasedStays(d, e, id);
  }

  /** Exactly when inspecting an item keeps its line within the order: the accepted units must fit in what
      the item held before plus what is still free. (A first inspection always fits.) */
  lemma InspectWithinOrderIff(d: Db, id: nat, k: nat, dto: InspectionDto)
    requires Shape(d) && WithinOrder(d)
    requires InspectItem(d, id, k, dto).1 == Ok
    ensures var item := d.requests[id].items[k];
            WithinOrder(InspectItem(d, id, k, dto).0) <==>
              AcceptedBy(item, dto).value <=
                HeldQuantity(item, Inspection) + d.order.lines[item.line].quantity - Held(d, item.line)
  {
    var r := d.requests[id];
    var item := r.items[k];
    var after := InspectItem(d, id, k, dto).0;
    var next := after.requests[id];
    assert ItemShape(d.order, item, r.status);
    forall line | 0 <= line < |d.order.lines|
      ensures Held(after, line) - Held(d, line) ==
              if line == item.line then AcceptedBy(item, dto).value - HeldQuantity(item, Inspection) else 0
    {
      SumUpdate(d.requests, id, next, HeldIn(line));
      SumUpdate(r.items, k, next.items[k], ItemHeldOn(line, Inspection));
    }
  }

  /** In every reachable state, the refund recorded for an inspected item and its deduction make up the price
      of the accepted units. */
  lemma DeductionsAddUp(d: Db, es: seq<Event>, id: nat, k: nat)
    requires Shape(d)
    requires id < |Run(d, es).requests| && k < |Run(d, es).requests[id].items|
    ensures var item := Run(d, es).requests[id].items[k];
            item.result.Some? ==>
              && item.accepted.Some? && item.refundAmount.Some?
              && item.refundAmount.value + item.deduction ==
                   UnitsRefund(LineOf(Run(d, es).order, item.line), Run(d, es).order.money, item.accepted.value)
  {
    ShapeRun(d, es);
    var r := Run(d, es).requests[id];
    assert ItemShape(Run(d, es).order, r.items[k], r.status);
  }
}
