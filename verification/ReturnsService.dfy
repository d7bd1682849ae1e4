/**
 The services that write the rows: the customer's returns, the admin's review, the refund calls and their
 settlement. Every method is proved to leave exactly the rows, and give exactly the reply, of its transition in
 ReturnFlow, and to keep the history of the calls so far; what is proved of every run of transitions then holds of
 the rows the services write (ServicesAreSafe).
 */
module ReturnsService {
  import opened Prelude
  import opened ReturnRules
  import opened ReturnFlow
  import opened ReturnSafety
  import opened RefundSafety
  import opened FullReturn
  import opened Payouts
  import opened MoneyBack

  lemma {:induction false} RunExtends(d: Db, es: seq<Event>, e: Event)
    ensures Run(d, es + [e]) == Step(Run(d, es), e)
    decreases |es|
  {
    if es == [] {
      assert [e][1..] == [];
    } else {
      assert (es + [e])[1..] == es[1..] + [e];
      RunExtends(Step(d, es[0]), es[1..], e);
    }
  }

  /** The settlement a webhook asks for, if it is about a refund and final. */
  function Deliveries(notice: Notice): seq<Event> {
    if NoticeRefund(notice).None? || NoticeVerdict(notice) == Undecided then []
    else [EWebhook(NoticeRefund(notice).value, NoticeVerdict(notice))]
  }

  class ReturnsDatabase {
    const order: Order
    var status: OrderStatus
    var payment: PaymentStatus
    var requests: seq<ReturnRequest>
    var refunds: seq<Refund>
    var calls: seq<Call>

    ghost function Rows(): Db
      reads this
    {
      Db(order, status, payment, requests, refunds, calls)
    }

    /** The rows as they were before any return, and the endpoints called since. */
    ghost const start: Db
    ghost var history: seq<Event>

    ghost predicate Valid()
      reads this
    {
      Fresh(start) && start.order == order && Rows() == Run(start, history)
    }

    constructor (order: Order, status: OrderStatus)
      ensures Fresh(Rows()) && Rows().order == order && Rows().status == status && Rows().payment == Paid
      ensures Valid() && start == Rows() && history == []
    {
      this.order, this.status, payment := order, status, Paid;
      requests, refunds, calls := [], [], [];
      start, history := Db(order, status, Paid, [], [], []), [];
    }

    /** Enters the endpoint about to write; it is then to leave the rows that the history comes to. */
    ghost method Enter(e: Event)
      requires Valid()
      modifies `history
      ensures history == old(history) + [e] && Run(start, history) == Step(Rows(), e)
    {
      RunExtends(start, history, e);
      history := history + [e];
    }

    // ---------- the customer ----------

    method CreateReturn(asks: seq<Ask>, now: int) returns (reply: Reply)
      requires Valid()
      modifies this
      ensures Valid() && history == old(history) + [ECreate(asks, now)]
      ensures (Rows(), reply) == Create(old(Rows()), asks, now)
    {
      Enter(ECreate(asks, now));
      if !WellFormedAsks(asks) { return BadRequest; }
      for i := 0 to |asks|
        invariant forall k :: 0 <= k < i ==> Askable(Rows(), asks[k], now)
      {
        if asks[i].line >= |order.lines| { return BadRequest; }
        var e := ItemEligibility(status, order.lines[asks[i].line], Sum(requests, HeldIn(asks[i].line)), now);
        if !e.eligible || asks[i].quantity > e.returnable { return BadRequest; }
      }
      InsertRequest(asks);
      reply := Ok;
    }

    method InsertRequest(asks: seq<Ask>)
      modifies `requests
      ensures requests == old(requests)
        + [ReturnRequest(ReturnRequested, seq(|asks|, i requires 0 <= i < |asks| => NewItem(asks[i])), 0)]
    {
      var id := |requests|;
      requests := requests + [ReturnRequest(ReturnRequested, [], 0)];
      for i := 0 to |asks|
        invariant |requests| == id + 1 && requests[..id] == old(requests)
        invariant requests[id].status == ReturnRequested && requests[id].shippingRefund == 0
        invariant |requests[id].items| == i
        invariant forall k :: 0 <= k < i ==> requests[id].items[k] == NewItem(asks[k])
      {
        requests := requests[id := requests[id].(items := requests[id].items + [NewItem(asks[i])])];
      }
      ghost var items := seq(|asks|, i requires 0 <= i < |asks| => NewItem(asks[i]));
      assert requests[id].items == items;
      assert requests == old(requests) + [ReturnRequest(ReturnRequested, items, 0)];
    }

    method CancelReturn(id: nat) returns (reply: Reply)
      requires Valid()
      modifies this
      ensures Valid() && history == old(history) + [ECancel(id)]
      ensures (Rows(), reply) == Cancel(old(Rows()), id)
    {
      Enter(ECancel(id));
      if id >= |requests| { return NotFound; }
      if requests[id].status != ReturnRequested { return Conflict; }
      WriteStatus(id, Cancelled);
      reply := Ok;
    }

    // ---------- the admin's review ----------

    method WriteStatus(id: nat, to: RequestStatus)
      requires id < |requests|
      modifies `requests
      ensures Rows() == SetStatus(old(Rows()), id, to)
    {
      requests := requests[id := requests[id].(status := to)];
    }

    method WriteApproved(id: nat, quantities: map<nat, nat>)
      requires id < |requests| && forall k :: 0 <= k < |requests[id].items| ==> k in quantities
      modifies `requests
      ensures var r := old(requests)[id];
              requests == old(requests)[id := r.(items := seq(|r.items|, k requires 0 <= k < |r.items| =>
                                                            r.items[k].(approved := Some(quantities[k]))))]
    {
      var r := requests[id];
      for k := 0 to |r.items|
        invariant |requests| == |old(requests)| && requests == old(requests)[id := requests[id]]
        invariant requests[id] == r.(items := requests[id].items) && |requests[id].items| == |r.items|
        invariant forall j :: 0 <= j < k ==> requests[id].items[j] == r.items[j].(approved := Some(quantities[j]))
        invariant forall j :: k <= j < |r.items| ==> requests[id].items[j] == r.items[j]
      {
        var item := requests[id].items[k].(approved := Some(quantities[k]));
        requests := requests[id := requests[id].(items := requests[id].items[k := item])];
      }
      assert requests[id].items ==
             seq(|r.items|, k requires 0 <= k < |r.items| => r.items[k].(approved := Some(quantities[k])));
    }

    /** Every item is named exactly once, none beyond what was asked, and not all are zero. */
    method CheckApproval(items: seq<ReturnItem>, quantities: map<nat, nat>) returns (fits: bool)
      ensures fits <==> (forall k :: 0 <= k < |items| ==> k in quantities && quantities[k] <= items[k].quantity)
                        && |quantities| == |items| && exists k :: k in quantities && quantities[k] != 0
    {
      if (exists k :: 0 <= k < |items| && k !in quantities) || |quantities| != |items| { return false; }
      for k := 0 to |items|
        invariant forall j :: 0 <= j < k ==> quantities[j] <= items[j].quantity
      {
        if quantities[k] > items[k].quantity { return false; }
      }
      fits := exists k :: k in quantities && quantities[k] != 0;
    }

    method ApproveReturn(id: nat, quantities: map<nat, nat>) returns (reply: Reply)
      requires Valid()
      modifies this
      ensures Valid() && history == old(history) + [EApprove(id, quantities)]
      ensures (Rows(), reply) == Approve(old(Rows()), id, quantities)
    {
      Enter(EApprove(id, quantities));
      if id >= |requests| { return NotFound; }
      var r := requests[id];
      if r.status != ReturnRequested { return Conflict; }
      var fits := CheckApproval(r.items, quantities);
      if !fits { return BadRequest; }
      WriteApproved(id, quantities);
      WriteStatus(id, ReturnApproved);
      reply := Ok;
    }

    method WriteReceived(id: nat, quantities: map<nat, nat>)
      requires id < |requests| && forall k :: 0 <= k < |requests[id].items| ==> k in quantities
      modifies `requests
      ensures var r := old(requests)[id];
              requests == old(requests)[id := r.(items := seq(|r.items|, k requires 0 <= k < |r.items| =>
                                                            r.items[k].(received := Some(quantities[k]))))]
    {
      var r := requests[id];
      for k := 0 to |r.items|
        invariant |requests| == |old(requests)| && requests == old(requests)[id := requests[id]]
        invariant requests[id] == r.(items := requests[id].items) && |requests[id].items| == |r.items|
        invariant forall j :: 0 <= j < k ==> requests[id].items[j] == r.items[j].(received := Some(quantities[j]))
        invariant forall j :: k <= j < |r.items| ==> requests[id].items[j] == r.items[j]
      {
        var item := requests[id].items[k].(received := Some(quantities[k]));
        requests := requests[id := requests[id].(items := requests[id].items[k := item])];
      }
      assert requests[id].items ==
             seq(|r.items|, k requires 0 <= k < |r.items| => r.items[k].(received := Some(quantities[k])));
    }

    method ReceiveReturn(id: nat, quantities: map<nat, nat>) returns (reply: Reply)
      requires Valid()
      modifies this
      ensures Valid() && history == old(history) + [EReceive(id, quantities)]
      ensures (Rows(), reply) == Receive(old(Rows()), id, quantities)
    {
      Enter(EReceive(id, quantities));
      if id >= |requests| { return NotFound; }
      var r := requests[id];
      if r.status != PickupScheduled && r.status != PickedUp { return Conflict; }
      for k := 0 to |r.items|
        invariant forall j :: 0 <= j < k ==> j in quantities && quantities[j] <= GetOr(r.items[j].approved, 0)
      {
        if k !in quantities { return BadRequest; }
        if quantities[k] > GetOr(r.items[k].approved, 0) { return BadRequest; }
      }
      WriteReceived(id, quantities);
      WriteStatus(id, ReturnReceived);
      reply := Ok;
    }

    /** The check and the write that the four endpoints below share. */
    method MoveReturn(id: nat, allowed: set<RequestStatus>, to: RequestStatus) returns (reply: Reply)
      modifies `requests
      ensures (Rows(), reply) == Move(old(Rows()), id, allowed, to)
    {
      if id >= |requests| { return NotFound; }
      if requests[id].status !in allowed { return Conflict; }
      WriteStatus(id, to);
      reply := Ok;
    }

    method RejectReturn(id: nat) returns (reply: Reply)
      requires Valid()
      modifies this
      ensures Valid() && history == old(history) + [EReject(id)]
      ensures (Rows(), reply) == Reject(old(Rows()), id)
    {
      Enter(EReject(id));
      reply := MoveReturn(id, {ReturnRequested, ReturnApproved, PickupScheduled}, ReturnRejected);
    }

    /** Also reschedules a pickup. */
    method ScheduleReturnPickup(id: nat) returns (reply: Reply)
      requires Valid()
      modifies this
      ensures Valid() && history == old(history) + [ESchedulePickup(id)]
      ensures (Rows(), reply) == SchedulePickup(old(Rows()), id)
    {
      Enter(ESchedulePickup(id));
      reply := MoveReturn(id, {ReturnApproved, PickupScheduled}, PickupScheduled);
    }

    method MarkReturnPickedUp(id: nat) returns (reply: Reply)
      requires Valid()
      modifies this
      ensures Valid() && history == old(history) + [EMarkPickedUp(id)]
      ensures (Rows(), reply) == MarkPickedUp(old(Rows()), id)
    {
      Enter(EMarkPickedUp(id));
      reply := MoveReturn(id, {PickupScheduled}, PickedUp);
    }

    method StartReturnInspection(id: nat) returns (reply: Reply)
      requires Valid()
      modifies this
      ensures Valid() && history == old(history) + [EStartInspection(id)]
      ensures (Rows(), reply) == StartInspection(old(Rows()), id)
    {
      Enter(EStartInspection(id));
      reply := MoveReturn(id, {ReturnReceived}, Inspection);
    }

    method Inspect(id: nat, k: nat, dto: InspectionDto) returns (reply: Reply)
      requires Valid()
      modifies this
      ensures Valid() && history == old(history) + [EInspectItem(id, k, dto)]
      ensures (Rows(), reply) == InspectItem(old(Rows()), id, k, dto)
    {
      Enter(EInspectItem(id, k, dto));
      if id >= |requests| { return NotFound; }
      var r := requests[id];
      if r.status != Inspection { return Conflict; }
      if k >= |r.items| { return NotFound; }
      var item := r.items[k];
      var received := GetOr(item.received, 0);
      var accepted :=
        if dto.result == Accepted then Some(received)
        else if dto.result == RejectedAtInspection then Some(0)
        else dto.acceptedQuantity;
      if dto.result == PartiallyAccepted && (accepted.None? || accepted.value < 1 || accepted.value >= received) {
        return BadRequest;
      }
      if dto.result == RejectedAtInspection && !dto.rejectionReason { return BadRequest; }
      var deduction := if dto.result == RejectedAtInspection then 0 else dto.deduction;
      if deduction > 0 && !dto.deductionReason { return BadRequest; }
      var line := LineOf(order, item.line);
      if deduction > UnitsRefund(line, order.money, accepted.value) { return BadRequest; }
      var refundAmount := ItemRefund(line, order.money, accepted.value, deduction);
      requests := requests[id := r.(items := r.items[k := item.(
        result := Some(dto.result), accepted := accepted, deduction := deduction,
            refundAmount := Some(refundAmount))])];
      reply := Ok;
    }

    // ---------- refunds ----------

    method WriteOrderStatus()
      modifies `status
      ensures Rows() == SettleOrderStatus(old(Rows()))
    {
      var counts := [];
      for k := 0 to |order.lines|
        invariant |counts| == k
        invariant forall j :: 0 <= j < k ==> counts[j] == Counts(Rows())[j]
      {
        counts := counts + [LineCount(order.lines[k].quantity, Max(0, Sum(requests, ReturnedIn(k))))];
      }
      assert counts == Counts(Rows());
      var next := OrderStatusAfterReturns(status, counts);
      if next != status { status := next; }
    }

    /** Phase 1: reserve the amount so that concurrent requests cannot over-refund. */
    method ReserveRefund(amount: nat, forReturn: Option<nat>) returns (reply: Reply)
      modifies `refunds, `calls
      ensures (Rows(), reply) == Reserve(old(Rows()), amount, forReturn)
    {
      if amount == 0 { return BadRequest; }
      if order.captured.None? { return Conflict; }
      if Sum(refunds, ActiveAmount) + amount > order.captured.value { return BadRequest; }
      refunds := refunds + [Refund(amount, RefundPending, None, forReturn)];
      calls := calls + [Waiting];
      reply := Ok;
    }

    /** A refund straight from the order, for no return. */
    method RefundOrderAmount(amount: nat) returns (reply: Reply)
      requires Valid()
      modifies this
      ensures Valid() && history == old(history) + [ERefundOrder(amount)]
      ensures (Rows(), reply) == RefundOrder(old(Rows()), amount)
    {
      Enter(ERefundOrder(amount));
      reply := ReserveRefund(amount, None);
    }

    method Send(id: nat, amount: nat) returns (reply: Reply)
      requires id < |requests|
      modifies `requests, `refunds, `calls
      ensures (Rows(), reply) == SendRefund(old(Rows()), id, amount)
    {
      WriteStatus(id, RefundProcessing);
      reply := ReserveRefund(amount, Some(id));
      if reply != Ok {
        WriteStatus(id, RefundApproved);
        assert requests == old(requests)[id := old(requests)[id].(status := RefundApproved)];
      }
    }

    /** Items that were never received are closed as rejected. */
    method CloseItems(id: nat)
      requires id < |requests|
      modifies `requests
      ensures requests == old(requests)[id := old(requests)[id].(items := Close(old(requests)[id].items))]
    {
      var r := requests[id];
      for k := 0 to |r.items|
        invariant |requests| == |old(requests)| && requests == old(requests)[id := requests[id]]
        invariant requests[id] == r.(items := requests[id].items) && |requests[id].items| == |r.items|
        invariant forall j :: 0 <= j < k ==> requests[id].items[j] == Closed(r.items[j])
        invariant forall j :: k <= j < |r.items| ==> requests[id].items[j] == r.items[j]
      {
        if r.items[k].result.None? {
          requests := requests[id := requests[id].(items := requests[id].items[k := Closed(r.items[k])])];
        }
      }
      assert requests[id].items == Close(r.items);
    }

    method WriteRefundApproved(id: nat, shipping: nat)
      requires id < |requests|
      modifies `requests
      ensures Rows() ==
              With(old(Rows()), id, ReturnRequest(RefundApproved, Close(old(requests)[id].items), shipping))
    {
      CloseItems(id);
      requests := requests[id := requests[id].(status := RefundApproved, shippingRefund := shipping)];
    }

    method Complete(id: nat)
      requires id < |requests|
      modifies `requests, `status
      ensures Rows() == SettleOrderStatus(SetStatus(old(Rows()), id, Completed))
    {
      WriteStatus(id, Completed);
      WriteOrderStatus();
    }

    method ApproveRefundOf(id: nat) returns (reply: Reply)
      requires Valid()
      modifies this
      ensures Valid() && history == old(history) + [EApproveRefund(id)]
      ensures (Rows(), reply) == ApproveRefund(old(Rows()), id)
    {
      Enter(EApproveRefund(id));
      if id >= |requests| { return NotFound; }
      var r := requests[id];
      if r.status != Inspection { return Conflict; }
      if exists k :: 0 <= k < |r.items| && GetOr(r.items[k].received, 0) > 0 && r.items[k].result.None? {
        return BadRequest;
      }
      var d := Db(order, status, payment, requests, refunds, calls);
      var total, shipping := Total(d, id), ShippingDue(d, id);
      WriteRefundApproved(id, shipping);
      if total <= 0 {
        Complete(id);
        return Ok;
      }
      reply := Send(id, total);
    }

    method Retry(id: nat) returns (reply: Reply)
      requires Valid()
      modifies this
      ensures Valid() && history == old(history) + [ERetryRefund(id)]
      ensures (Rows(), reply) == RetryRefund(old(Rows()), id)
    {
      Enter(ERetryRefund(id));
      if id >= |requests| { return NotFound; }
      if requests[id].status != RefundApproved { return Conflict; }
      var outstanding := Outstanding(id);
      if outstanding <= 0 { return Conflict; }
      reply := Send(id, outstanding);
    }

    method Outstanding(id: nat) returns (amount: int)
      requires id < |requests|
      ensures amount == Total(Rows(), id) - Sum(refunds, NotFailedFor(id))
    {
      amount := Total(Db(order, status, payment, requests, refunds, calls), id) - Sum(refunds, NotFailedFor(id));
    }

    /** The one place a refund becomes final. */
    method SettleRefund(r: nat, verdict: Verdict)
      requires r < |refunds| && verdict != Undecided
      modifies `refunds, `payment, `requests, `status
      ensures Rows() == Settle(old(Rows()), r, verdict)
    {
      var refund := refunds[r];
      if refund.status == SettledAs(verdict) || refund.status == Processed { return; }
      refunds := refunds[r := refund.(status := SettledAs(verdict))];
      if verdict == Confirmed {
        payment := PaymentAfter(Captured(order), Sum(refunds, ProcessedAmount));
      }
      if refund.forReturn.Some? && refund.forReturn.value < |requests| {
        var id := refund.forReturn.value;
        if verdict == Declined {
          WriteStatus(id, RefundApproved);
        } else if Sum(refunds, OpenFor(id)) == 0 {
          Complete(id);
        }
      }
    }

    /** Phases 2 and 3: the provider throws, or its answer is recorded before it is settled. */
    method RecordAnswer(r: nat, answer: Answer)
      requires Valid()
      modifies this
      ensures Valid() && history == old(history) + [EProviderAnswers(r, answer)]
      ensures Rows() == ProviderAnswers(old(Rows()), r, answer)
    {
      Enter(EProviderAnswers(r, answer));
      if r >= |calls| || r >= |refunds| || calls[r] != Waiting { return; }
      match answer {
        case Threw =>
          calls := calls[r := Finished];
          SettleRefund(r, Declined);
        case Offline =>
          refunds := refunds[r := refunds[r].(status := RefundSent)];
          calls := calls[r := Answered(Confirmed)];
        case Replied(providerRefundId, providerStatus) =>
          refunds := refunds[r := refunds[r].(status := RefundSent, providerRefundId := Some(providerRefundId))];
          var verdict := RefundOutcome(providerStatus);
          calls := calls[r := if verdict == Undecided then Finished else Answered(verdict)];
      }
    }

    method SettleRecorded(r: nat)
      requires Valid()
      modifies this
      ensures Valid() && history == old(history) + [ESettleAnswer(r)]
      ensures Rows() == SettleAnswer(old(Rows()), r)
    {
      Enter(ESettleAnswer(r));
      if r >= |calls| || r >= |refunds| || !calls[r].Answered? || calls[r].verdict == Undecided { return; }
      var verdict := calls[r].verdict;
      calls := calls[r := Finished];
      SettleRefund(r, verdict);
    }

    /** Finds the refund that carries the provider's id, if there is one, and settles it. */
    method SettleByProviderId(providerRefundId: nat, verdict: Verdict)
      requires Valid()
      modifies this
      ensures Valid() && history == old(history) + [EWebhook(providerRefundId, verdict)]
      ensures Rows() == Webhook(old(Rows()), providerRefundId, verdict)
    {
      Enter(EWebhook(providerRefundId, verdict));
      if verdict == Undecided { return; }
      var r := FindRefund(providerRefundId);
      if r < |refunds| { SettleRefund(r, verdict); }
    }

    method FindRefund(providerRefundId: nat) returns (r: nat)
      ensures r == Find(refunds, providerRefundId)
    {
      r := 0;
      while r < |refunds| && refunds[r].providerRefundId != Some(providerRefundId)
        invariant r <= |refunds|
        invariant forall j :: 0 <= j < r ==> refunds[j].providerRefundId != Some(providerRefundId)
      {
        r := r + 1;
      }
    }

    method ReceiveWebhook(notice: Notice)
      requires Valid()
      modifies this
      ensures Valid() && history == old(history) + Deliveries(notice)
      ensures Rows() == Receipt(old(Rows()), notice)
    {
      match notice {
        case StripeNotice(eventType, refund, status) =>
          if eventType == "refund.updated" || eventType == "charge.refund.updated" || eventType == "refund.failed" {
            var verdict := if eventType == "refund.failed" then Declined else RefundOutcome(GetOr(status, ""));
            if verdict != Undecided { SettleByProviderId(refund, verdict); }
          }
        case PaypalNotice(eventType, refund, status) =>
          if eventType == "PAYMENT.CAPTURE.REFUNDED" {
            var verdict := RefundOutcome(GetOr(status, "COMPLETED"));
            if refund.Some? && verdict != Undecided { SettleByProviderId(refund.value, verdict); }
          }
      }
    }
  }

  /** After any calls on a delivered order, whatever their order: the rows keep their shape, a return being refunded has
      one open refund, and each guarantee of ReturnsOfAnyRun holds under its own hypothesis on the calls. */
  lemma ServicesAreSafe(db: ReturnsDatabase)
    requires db.Valid() && db.start.status == Delivered && Sold(db.order)
    ensures Shape(db.Rows()) && OneOpen(db.Rows()) && StatusAgrees(db.Rows())
    ensures Along(db.start, db.history, H1) ==> WithinOrder(db.Rows())
    ensures Along(db.start, db.history, H2) ==> WithinCaptured(db.Rows()) && OnePayout(db.Rows())
    ensures Along(db.start, db.history, H4) ==> DeliveryOnce(db.Rows())
    ensures Along(db.start, db.history, H2) && Along(db.start, db.history, H4) ==>
              forall id: nat :: id < |db.requests| ==> PaidFor(db.Rows(), id) == CompletedDue(db.requests[id])
  {
    var d, es := db.start, db.history;
    ShapeRun(d, es);
    FreshOrder(d);
    OneOpenRun(d, es);
    ReturnsOfAnyRun(d, es);
    if Along(d, es, H2) {
      NeverOverRefunded(d, es);
      PaysOutOnce(d, es);
    }
  }
}
