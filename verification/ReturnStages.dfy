/**
 What each operation on a return asks of its caller and writes, in the words of the shop: who may return what and
 until when, the quantities the administrator gives, what a verdict accepts and what it is worth. Every status and
 limit is written out here.
 */
module ReturnStages {
  import opened Prelude
  import opened ReturnRules
  import opened ReturnFlow
  import opened ReturnSafety
  import opened RefundSafety
  import opened FullReturn

  // ---------- what a return holds ----------

  /** A return item holds the quantity of the stage its return has reached. */
  lemma HeldByStage(order: Order, item: ReturnItem, status: RequestStatus)
    requires ItemShape(order, item, status)
    ensures Some(HeldQuantity(item, status)) ==
            match status
            case ReturnRequested => Some(item.quantity)
            case ReturnApproved => item.approved
            case PickupScheduled => item.approved
            case PickedUp => item.approved
            case ReturnReceived => item.received
            case Inspection => if item.result.Some? then item.accepted else item.received
            case RefundApproved => item.accepted
            case RefundProcessing => item.accepted
            case Completed => item.accepted
            case ReturnRejected => Some(0)
            case Cancelled => Some(0)
  {}

  /** Only the units accepted by a completed return count as brought back. */
  lemma BackByStage(order: Order, item: ReturnItem, status: RequestStatus)
    requires ItemShape(order, item, status)
    ensures Some(ReturnedQuantity(item, status)) == if status == Completed then item.accepted else Some(0)
  {}

  /** What an item is calculated to be worth: the price of the units of the stage it has reached, once judged less its
      deduction. */
  lemma WorthByStage(order: Order, item: ReturnItem, status: RequestStatus)
    requires ItemShape(order, item, status) && !Released(status)
    ensures RefundOf(order)(item) ==
              Max(0, UnitsRefund(order.lines[item.line], order.money, HeldQuantity(item, status)) - item.deduction)
  {}

  // ---------- asking for a return ----------

  /** The line may be returned now: its order has arrived, the line was not cancelled, the product can be returned, and
      the last day for it is not over. */
  predicate MayReturn(d: Db, line: OrderLine, now: int) {
    && d.status in {Delivered, PartiallyReturned, Returned}
    && !line.itemCancelled && line.returnEligible
    && (line.returnDeadline.Some? ==> now < line.returnDeadline.value + 86_400_000)
  }

  /** A request is granted exactly when it names one to fifty lines of the order, each once and each returnable now, for
      at least a unit and for no more than no return holds yet. */
  lemma CreateIff(d: Db, asks: seq<Ask>, now: int)
    ensures Create(d, asks, now).1 == Ok <==>
              && 1 <= |asks| <= 50
              && (forall i, j :: 0 <= i < j < |asks| ==> asks[i].line != asks[j].line)
              && (forall i :: 0 <= i < |asks| ==>
                    && asks[i].line < |d.order.lines|
                    && MayReturn(d, d.order.lines[asks[i].line], now)
                    && 1 <= asks[i].quantity
                    && Held(d, asks[i].line) + asks[i].quantity <= d.order.lines[asks[i].line].quantity)
    ensures Create(d, asks, now).1 != Ok ==> Create(d, asks, now).0 == d
  {
    if WellFormedAsks(asks) {
      forall i | 0 <= i < |asks|
        ensures Askable(d, asks[i], now) <==>
                  && asks[i].line < |d.order.lines|
                  && MayReturn(d, d.order.lines[asks[i].line], now)
                  && Held(d, asks[i].line) + asks[i].quantity <= d.order.lines[asks[i].line].quantity
      {
        HeldNonNegative(d, asks[i].line);
        AskableIff(d, asks[i], now);
      }
    }
  }

  lemma AskableIff(d: Db, ask: Ask, now: int)
    requires ask.quantity > 0 && Held(d, ask.line) >= 0
    ensures Askable(d, ask, now) <==>
              && ask.line < |d.order.lines|
              && MayReturn(d, d.order.lines[ask.line], now)
              && Held(d, ask.line) + ask.quantity <= d.order.lines[ask.line].quantity
  {}

  lemma HeldNonNegative(d: Db, line: nat)
    ensures Held(d, line) >= 0
  {
    forall r | r in d.requests ensures HeldIn(line)(r) >= 0 { SumNonNegative(r.items, ItemHeldOn(line, r.status)); }
    SumNonNegative(d.requests, HeldIn(line));
  }

  /** A granted request adds one return of the items asked for, nothing decided about them, and holds those units. */
  lemma CreateRecords(d: Db, asks: seq<Ask>, now: int)
    requires Create(d, asks, now).1 == Ok
    ensures var next := Create(d, asks, now).0;
            && next == d.(requests := next.requests)
            && |next.requests| == |d.requests| + 1 && next.requests[..|d.requests|] == d.requests
            && var r := next.requests[|d.requests|];
            && r.status == ReturnRequested && r.shippingRefund == 0 && |r.items| == |asks|
            && forall i :: 0 <= i < |asks| ==>
                 r.items[i] == ReturnItem(asks[i].line, asks[i].quantity, None, None, None, None, 0, None)
    ensures forall i :: 0 <= i < |asks| ==>
              Held(Create(d, asks, now).0, asks[i].line) == Held(d, asks[i].line) + asks[i].quantity
  {
    var next := Create(d, asks, now).0;
    var r := next.requests[|d.requests|];
    assert next.requests == d.requests + [r];
    forall i | 0 <= i < |asks| ensures Held(next, asks[i].line) == Held(d, asks[i].line) + asks[i].quantity {
      SumAppend(d.requests, r, HeldIn(asks[i].line));
      SumSingle(r.items, i, ItemHeldOn(asks[i].line, r.status));
    }
  }

  // ---------- the statuses ----------

  /** Which statuses each endpoint accepts, and that the status is all it writes. */
  lemma EndpointsIff(d: Db, id: nat)
    requires id < |d.requests|
    ensures var s := d.requests[id].status;
            && (Cancel(d, id).1 == Ok <==> s == ReturnRequested)
            && (Reject(d, id).1 == Ok <==> s in {ReturnRequested, ReturnApproved, PickupScheduled})
            && (SchedulePickup(d, id).1 == Ok <==> s in {ReturnApproved, PickupScheduled})
            && (MarkPickedUp(d, id).1 == Ok <==> s == PickupScheduled)
            && (StartInspection(d, id).1 == Ok <==> s == ReturnReceived)
    ensures Cancel(d, id).1 == Ok ==> OnlyStatus(d, Cancel(d, id).0, id, Cancelled)
    ensures Reject(d, id).1 == Ok ==> OnlyStatus(d, Reject(d, id).0, id, ReturnRejected)
    ensures SchedulePickup(d, id).1 == Ok ==> OnlyStatus(d, SchedulePickup(d, id).0, id, PickupScheduled)
    ensures MarkPickedUp(d, id).1 == Ok ==> OnlyStatus(d, MarkPickedUp(d, id).0, id, PickedUp)
    ensures StartInspection(d, id).1 == Ok ==> OnlyStatus(d, StartInspection(d, id).0, id, Inspection)
  {}

  predicate OnlyStatus(d: Db, next: Db, id: nat, to: RequestStatus)
    requires id < |d.requests|
  {
    next == d.(requests := d.requests[id := d.requests[id].(status := to)])
  }

  /** The ways a return's status may change, whatever happens. */
  predicate Follows(from: RequestStatus, to: RequestStatus) {
    match to
    case ReturnRequested => false
    case ReturnApproved => from == ReturnRequested
    case ReturnRejected => from in {ReturnRequested, ReturnApproved, PickupScheduled}
    case Cancelled => from == ReturnRequested
    case PickupScheduled => from == ReturnApproved
    case PickedUp => from == PickupScheduled
    case ReturnReceived => from in {PickupScheduled, PickedUp}
    case Inspection => from == ReturnReceived
    case RefundApproved => from in {Inspection, RefundProcessing}
    case RefundProcessing => from in {Inspection, RefundApproved}
    case Completed => from in {Inspection, RefundApproved, RefundProcessing}
  }

  predicate Keeps(d: Db, next: Db, id: nat) {
    && id < |d.requests| && id < |next.requests|
    && var from, to := d.requests[id].status, next.requests[id].status; to == from || Follows(from, to)
  }

  lemma PaidKeeps(d: Db, next: Db, id: nat)
    requires id < |d.requests| && RefundFrame(d, next) && (Steady(d, next) || exists j: nat :: Completes(d, next, j))
    ensures Keeps(d, next, id)
  {}

  lemma ApprovalKeeps(d: Db, j: nat, id: nat)
    requires id < |d.requests|
    ensures Keeps(d, ApproveRefund(d, j).0, id)
  {
    ApproveRefundFrame(d, j);
  }

  lemma ReviewKeeps(d: Db, e: Event, id: nat)
    requires id < |d.requests|
    requires e.ECancel? || e.EReject? || e.ESchedulePickup? || e.EMarkPickedUp? || e.EStartInspection?
    ensures Keeps(d, Step(d, e), id)
  {
    if e.id < |d.requests| { EndpointsIff(d, e.id); }
  }

  lemma HandlingKeeps(d: Db, e: Event, id: nat)
    requires id < |d.requests|
    requires e.ECreate? || e.EApprove? || e.EReceive? || e.EInspectItem?
    ensures Keeps(d, Step(d, e), id)
  {}

  /** Goods that have left the customer are never rejected or cancelled unseen, no stage is skipped, and a return that
      ended stays ended. */
  lemma StatusFollows(d: Db, e: Event, id: nat)
    requires Shape(d) && OneOpen(d) && id < |d.requests|
    ensures id < |Step(d, e).requests|
    ensures var from, to := d.requests[id].status, Step(d, e).requests[id].status; to == from || Follows(from, to)
  {
    if e.EApproveRefund? {
      ApprovalKeeps(d, e.id, id);
    } else if e.ECancel? || e.EReject? || e.ESchedulePickup? || e.EMarkPickedUp? || e.EStartInspection? {
      ReviewKeeps(d, e, id);
    } else if e.ECreate? || e.EApprove? || e.EReceive? || e.EInspectItem? {
      HandlingKeeps(d, e, id);
    } else {
      StepKind(d, e);
      RefundEventFrame(d, e);
      PaidKeeps(d, Step(d, e), id);
    }
    assert Keeps(d, Step(d, e), id);
  }

  // ---------- the quantities the administrator gives ----------

  /** Every item of the return is named and nothing else is. */
  predicate NamesItems(quantities: map<nat, nat>, items: seq<ReturnItem>) {
    && |quantities| == |items|
    && forall k :: 0 <= k < |items| ==> k in quantities
  }

  /** A request is approved exactly when it is still to be reviewed and every item is given a quantity, at most the one
      asked for and not all of them zero. */
  lemma ApproveIff(d: Db, id: nat, quantities: map<nat, nat>)
    ensures Approve(d, id, quantities).1 == Ok <==>
              && id < |d.requests| && d.requests[id].status == ReturnRequested
              && NamesItems(quantities, d.requests[id].items)
              && (forall k :: 0 <= k < |d.requests[id].items| ==> quantities[k] <= d.requests[id].items[k].quantity)
              && exists k :: 0 <= k < |d.requests[id].items| && quantities[k] > 0
    ensures Approve(d, id, quantities).1 != Ok ==> Approve(d, id, quantities).0 == d
  {
    if id < |d.requests| && NamesItems(quantities, d.requests[id].items) {
      NoOtherKeys(quantities, |d.requests[id].items|);
    }
  }

  function Firsts(n: nat): set<nat> { if n == 0 then {} else Firsts(n - 1) + {n - 1} }

  lemma {:induction false} CountFirsts(n: nat)
    ensures |Firsts(n)| == n && forall k: nat :: k in Firsts(n) <==> k < n
  {
    if n > 0 {
      CountFirsts(n - 1);
      assert n - 1 !in Firsts(n - 1);
    }
  }

  lemma NoOtherKeys(quantities: map<nat, nat>, n: nat)
    requires |quantities| == n && forall k :: 0 <= k < n ==> k in quantities
    ensures forall k :: k in quantities ==> k < n
  {
    CountFirsts(n);
    if k :| k in quantities && k >= n { SubsetIsSmaller(Firsts(n) + {k}, quantities.Keys); }
  }

  lemma SubsetIsSmaller(a: set<nat>, b: set<nat>)
    requires a <= b
    ensures |a| <= |b|
  {
    assert |b| == |a| + |b - a| by { assert b == a + (b - a); }
  }

  /** Approval writes the given quantities and the status, and nothing else. */
  lemma ApproveRecords(d: Db, id: nat, quantities: map<nat, nat>)
    requires Approve(d, id, quantities).1 == Ok
    ensures id < |d.requests| && NamesItems(quantities, d.requests[id].items)
    ensures var r, after := d.requests[id], Approve(d, id, quantities).0;
            && after == d.(requests := d.requests[id := after.requests[id]])
            && after.requests[id].status == ReturnApproved && after.requests[id].shippingRefund == r.shippingRefund
            && |after.requests[id].items| == |r.items|
            && forall k :: 0 <= k < |r.items| ==>
                 after.requests[id].items[k] == r.items[k].(approved := Some(quantities[k]))
  {}

  /** A return is received exactly while it is being collected and every item is given a quantity, at most the approved
      one. */
  lemma ReceiveIff(d: Db, id: nat, quantities: map<nat, nat>)
    requires Shape(d)
    ensures Receive(d, id, quantities).1 == Ok <==>
              && id < |d.requests| && d.requests[id].status in {PickupScheduled, PickedUp}
              && forall k :: 0 <= k < |d.requests[id].items| ==>
                   k in quantities && d.requests[id].items[k].approved.Some?
                   && quantities[k] <= d.requests[id].items[k].approved.value
    ensures Receive(d, id, quantities).1 != Ok ==> Receive(d, id, quantities).0 == d
  {
    if id < |d.requests| {
      var r := d.requests[id];
      assert RequestShape(d.order, r);
      forall k | 0 <= k < |r.items| && r.status in {PickupScheduled, PickedUp} ensures r.items[k].approved.Some? {
        assert ItemShape(d.order, r.items[k], r.status);
      }
    }
  }

  lemma ReceiveRecords(d: Db, id: nat, quantities: map<nat, nat>)
    requires Receive(d, id, quantities).1 == Ok
    ensures id < |d.requests| && forall k :: 0 <= k < |d.requests[id].items| ==> k in quantities
    ensures var r, after := d.requests[id], Receive(d, id, quantities).0;
            && after == d.(requests := d.requests[id := after.requests[id]])
            && after.requests[id].status == ReturnReceived && after.requests[id].shippingRefund == r.shippingRefund
            && |after.requests[id].items| == |r.items|
            && forall k :: 0 <= k < |r.items| ==>
                 after.requests[id].items[k] == r.items[k].(received := Some(quantities[k]))
  {}

  // ---------- the verdict on an item ----------

  /** What the administrator says of an item, and what it may be said with. */
  predicate Fits(item: ReturnItem, dto: InspectionDto) {
    match dto.result
    case Accepted => true
    case RejectedAtInspection => dto.rejectionReason
    case PartiallyAccepted =>
      dto.acceptedQuantity.Some? && item.received.Some? && 1 <= dto.acceptedQuantity.value < item.received.value
  }

  /** An item carries its verdict: accepted in full, in part, or not at all; what is rejected is worth nothing. */
  predicate Judged(item: ReturnItem) {
    match item.result
    case None => item.accepted.None? && item.deduction == 0
    case Some(Accepted) => item.accepted == item.received
    case Some(PartiallyAccepted) =>
      item.accepted.Some? && item.received.Some? && 1 <= item.accepted.value < item.received.value
    case Some(RejectedAtInspection) =>
      item.accepted == Some(0) && item.deduction == 0 && item.refundAmount == Some(0)
  }

  /** A recorded verdict accepts what it says: all received units, the part named, or none, for no money. */
  lemma InspectRecords(d: Db, id: nat, k: nat, dto: InspectionDto)
    requires Shape(d) && InspectItem(d, id, k, dto).1 == Ok
    ensures id < |d.requests| && d.requests[id].status == Inspection && k < |d.requests[id].items|
    ensures var r, next := d.requests[id], InspectItem(d, id, k, dto).0;
            && next == d.(requests := d.requests[id := next.requests[id]])
            && next.requests[id] == r.(items := r.items[k := next.requests[id].items[k]])
            && var item, after := r.items[k], next.requests[id].items[k];
            && after == item.(result := after.result, accepted := after.accepted, deduction := after.deduction,
                              refundAmount := after.refundAmount)
            && after.result == Some(dto.result) && Fits(item, dto) && Judged(after)
            && (dto.result == PartiallyAccepted ==> after.accepted == dto.acceptedQuantity)
            && (dto.result != RejectedAtInspection ==> after.deduction == dto.deduction)
            && (after.deduction > 0 ==> dto.deductionReason)
  {
    assert RequestShape(d.order, d.requests[id]);
    assert ItemShape(d.order, d.requests[id].items[k], Inspection);
  }

  /** The units a verdict accepts, once it fits. */
  function UnitsAccepted(item: ReturnItem, dto: InspectionDto): nat
    requires Fits(item, dto) && item.received.Some?
  {
    match dto.result
    case Accepted => item.received.value
    case PartiallyAccepted => dto.acceptedQuantity.value
    case RejectedAtInspection => 0
  }

  /** Exactly when an inspection is recorded: the verdict fits the item, and a deduction, which a rejected item has none
      of, has its reason and is no more than the accepted units are worth. */
  lemma InspectIff(d: Db, id: nat, k: nat, dto: InspectionDto)
    requires Shape(d)
    ensures InspectItem(d, id, k, dto).1 == Ok <==>
              && id < |d.requests| && d.requests[id].status == Inspection && k < |d.requests[id].items|
              && var item := d.requests[id].items[k];
              && item.received.Some? && Fits(item, dto)
              && (dto.deduction > 0 && dto.result != RejectedAtInspection ==>
                    && dto.deductionReason && item.line < |d.order.lines|
                    && dto.deduction <= UnitsRefund(d.order.lines[item.line], d.order.money, UnitsAccepted(item, dto)))
    ensures InspectItem(d, id, k, dto).1 != Ok ==> InspectItem(d, id, k, dto).0 == d
  {
    if id < |d.requests| && d.requests[id].status == Inspection && k < |d.requests[id].items| {
      assert RequestShape(d.order, d.requests[id]);
      assert ItemShape(d.order, d.requests[id].items[k], Inspection);
    }
  }

  predicate ItemsJudged(items: seq<ReturnItem>) { forall k :: 0 <= k < |items| ==> Judged(items[k]) }

  predicate AllJudged(d: Db) { forall id :: 0 <= id < |d.requests| ==> ItemsJudged(d.requests[id].items) }

  lemma OneJudged(d: Db, next: Db, id: nat)
    requires AllJudged(d) && id < |d.requests| == |next.requests|
    requires next.requests == d.requests[id := next.requests[id]]
    requires ItemsJudged(next.requests[id].items)
    ensures AllJudged(next)
  {}

  lemma HandledJudged(d: Db, e: Event)
    requires Shape(d) && AllJudged(d) && (e.EApprove? || e.EReceive? || e.EInspectItem?)
    ensures AllJudged(Step(d, e))
  {
    var next := Step(d, e);
    if next != d {
      var r := d.requests[e.id];
      assert RequestShape(d.order, r) && ItemsJudged(r.items);
      forall k | 0 <= k < |r.items| ensures Judged(next.requests[e.id].items[k]) {
        assert ItemShape(d.order, r.items[k], r.status);
        assert Judged(r.items[k]);
        if e.EInspectItem? { InspectRecords(d, e.id, e.item, e.dto); }
      }
      OneJudged(d, next, e.id);
    }
  }

  lemma ClosedJudged(order: Order, items: seq<ReturnItem>)
    requires ItemsJudged(items)
    ensures ItemsJudged(Close(items))
  {
    forall k | 0 <= k < |items| ensures Judged(Close(items)[k]) { assert Judged(items[k]); }
  }

  lemma ApprovalJudged(d: Db, id: nat)
    requires AllJudged(d)
    ensures AllJudged(ApproveRefund(d, id).0)
  {
    ApproveRefundFrame(d, id);
    if ApproveRefund(d, id).0 != d {
      ClosedJudged(d.order, d.requests[id].items);
      OneJudged(d, ApproveRefund(d, id).0, id);
    }
  }

  lemma JudgedStep(d: Db, e: Event)
    requires Shape(d) && AllJudged(d)
    ensures AllJudged(Step(d, e))
  {
    if e.EApproveRefund? {
      ApprovalJudged(d, e.id);
    } else if e.EApprove? || e.EReceive? || e.EInspectItem? {
      HandledJudged(d, e);
    } else if e.ECreate? {
      assert forall id :: 0 <= id < |d.requests| ==> ItemsJudged(d.requests[id].items);
    } else if e.ECancel? || e.EReject? || e.ESchedulePickup? || e.EMarkPickedUp? || e.EStartInspection? {
      if e.id < |d.requests| { EndpointsIff(d, e.id); }
    } else {
      RefundEventFrame(d, e);
    }
  }

  /** In every reachable state every item carries its verdict, however often it was inspected. */
  lemma {:induction false} VerdictsOfAnyRun(d: Db, es: seq<Event>)
    requires Shape(d) && AllJudged(d)
    ensures AllJudged(Run(d, es))
    decreases |es|
  {
    if es != [] {
      ShapeStep(d, es[0]);
      JudgedStep(d, es[0]);
      VerdictsOfAnyRun(Step(d, es[0]), es[1..]);
    }
  }

  // ---------- approving the refund ----------

  /** Every item that arrived has its verdict. */
  predicate AllInspected(items: seq<ReturnItem>) {
    forall k :: 0 <= k < |items| ==> items[k].received.Some? && items[k].received.value > 0 ==> items[k].result.Some?
  }

  /** The refund of a return is approved exactly during inspection, once every item that arrived has its verdict; its
      items then keep theirs, those that never arrived are rejected, and it has left inspection for good, even when the
      refund itself is refused. */
  lemma ApproveRefundIff(d: Db, id: nat)
    requires Shape(d) && id < |d.requests|
    ensures var r, next := d.requests[id], ApproveRefund(d, id).0;
            var approved := r.status == Inspection && AllInspected(r.items);
            && (!approved ==> ApproveRefund(d, id) == (d, if r.status == Inspection then BadRequest else Conflict))
            && (approved ==>
                  && next.requests == d.requests[id := next.requests[id]]
                  && next.requests[id].status in {RefundApproved, RefundProcessing, Completed}
                  && |next.requests[id].items| == |r.items|
                  && forall k :: 0 <= k < |r.items| ==>
                       next.requests[id].items[k] ==
                         if r.items[k].result.Some? then r.items[k]
                         else r.items[k].(
                           result := Some(RejectedAtInspection), accepted := Some(0), refundAmount := Some(0)))
  {
    var r := d.requests[id];
    assert AllInspected(r.items) <==>
             !exists k :: 0 <= k < |r.items| && GetOr(r.items[k].received, 0) > 0 && r.items[k].result.None?;
    if r.status == Inspection && AllInspected(r.items) {
      ApprovedIs(d, id);
    }
  }

  lemma ApprovedIs(d: Db, id: nat)
    requires id < |d.requests| && d.requests[id].status == Inspection && AllInspected(d.requests[id].items)
    ensures var next := ApproveRefund(d, id).0;
            exists to :: to in {RefundApproved, RefundProcessing, Completed} &&
              next.requests == d.requests[id := ReturnRequest(to, Close(d.requests[id].items), ShippingDue(d, id))]
  {
    var r := ReturnRequest(RefundApproved, Close(d.requests[id].items), ShippingDue(d, id));
    var approved := With(d, id, r);
    if Total(d, id) > 0 {
      SendFrame(approved, id, Total(d, id));
    } else {
      assert SetStatus(approved, id, Completed).requests == d.requests[id := r.(status := Completed)];
    }
  }

  // ---------- a return that is rejected at inspection ----------

  /** Nothing of it was accepted: what arrived was rejected. */
  predicate NothingAccepted(r: ReturnRequest) {
    forall k :: 0 <= k < |r.items| ==>
      r.items[k].result == Some(RejectedAtInspection) || (r.items[k].result.None? && r.items[k].received == Some(0))
  }

  lemma NothingToRefund(d: Db, id: nat)
    requires Shape(d) && AllJudged(d) && id < |d.requests| && NothingAccepted(d.requests[id])
    ensures ItemsTotal(d.order, d.requests[id].items) == 0
  {
    var r := d.requests[id];
    forall k | 0 <= k < |r.items| ensures RefundOf(d.order)(r.items[k]) == 0 { assert Judged(r.items[k]); }
    SumZero(r.items, RefundOf(d.order));
  }

  /** A return of which nothing was accepted is worth nothing: unless it is owed the delivery charge, approving its
      refund completes it, and no refund is made. */
  lemma RejectedPaysNothing(d: Db, id: nat)
    requires Shape(d) && AllJudged(d) && id < |d.requests|
    requires d.requests[id].status == Inspection && NothingAccepted(d.requests[id]) && ShippingDue(d, id) == 0
    ensures Total(d, id) == 0 && ApproveRefund(d, id).1 == Ok
    ensures var next := ApproveRefund(d, id).0;
            && next.requests[id].status == Completed
            && next.refunds == d.refunds && next.calls == d.calls && next.payment == d.payment
  {
    NothingToRefund(d, id);
    forall k | 0 <= k < |d.requests[id].items|
      ensures GetOr(d.requests[id].items[k].received, 0) > 0 ==> d.requests[id].items[k].result.Some?
    {}
  }
}
