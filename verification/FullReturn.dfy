/**
 How the parts of the return flow compose: what a completed return has paid out, which return hands back the
 delivery charge, how the order's status follows its returned units, and that returning everything gives the
 customer's money back to within half a penny for each returned item.
 */
module FullReturn {
  import opened Prelude
  import opened ReturnRules
  import opened ReturnFlow
  import opened ReturnSafety
  import opened RefundSafety

  function StoredRefund(item: ReturnItem): int { GetOr(item.refundAmount, 0) }

  /** What the rows of a return say it pays back. */
  function Due(r: ReturnRequest): int { Sum(r.items, StoredRefund) + r.shippingRefund }

  function Back(d: Db, line: nat): int { ReturnedUnits(d.requests, line) }

  predicate AllBack(d: Db) {
    forall line :: 0 <= line < |d.order.lines| ==> Back(d, line) >= d.order.lines[line].quantity
  }

  predicate NobodyPaidDelivery(d: Db) {
    forall id :: 0 <= id < |d.requests| ==> !PaidDelivery(d.requests[id])
  }

  /** The delivery charge due to a return that is not itself completed. */
  function DeliveryDue(d: Db, items: seq<ReturnItem>): nat {
    if NobodyPaidDelivery(d) &&
       (forall line :: 0 <= line < |d.order.lines| ==>
           Back(d, line) + AcceptedHere(items, line) >= d.order.lines[line].quantity)
    then d.order.money.shippingCharge else 0
  }

  /** A return that is not completed has no units back, so the others have all of them. */
  lemma OthersBack(d: Db, id: nat, line: nat)
    requires id < |d.requests| && d.requests[id].status != Completed
    ensures ReturnedUnits(Others(d, id), line) == Back(d, line)
  {
    var r := d.requests[id];
    SumZero(r.items, ItemReturnedOn(line, r.status));
    SumConcat(d.requests[..id], d.requests[id + 1..], ReturnedIn(line));
    SumAppend(d.requests[..id], r, ReturnedIn(line));
    SumConcat(d.requests[..id] + [r], d.requests[id + 1..], ReturnedIn(line));
    assert d.requests == d.requests[..id] + [r] + d.requests[id + 1..];
  }

  lemma OthersPaidDelivery(d: Db, id: nat)
    requires id < |d.requests| && d.requests[id].status != Completed
    ensures (forall o :: o in Others(d, id) ==> !PaidDelivery(o)) <==> NobodyPaidDelivery(d)
  {
    var others := Others(d, id);
    assert forall j :: 0 <= j < id ==> others[j] == d.requests[j];
    assert forall j :: id < j < |d.requests| ==> others[j - 1] == d.requests[j];
  }

  lemma ShippingDueOfIncomplete(d: Db, id: nat)
    requires id < |d.requests| && d.requests[id].status != Completed
    ensures ShippingDue(d, id) == DeliveryDue(d, d.requests[id].items)
  {
    forall line: nat ensures ReturnedUnits(Others(d, id), line) == Back(d, line) { OthersBack(d, id, line); }
    OthersPaidDelivery(d, id);
  }

  // ---------- items that are closed ----------

  predicate Inspected(items: seq<ReturnItem>) {
    forall k :: 0 <= k < |items| ==> items[k].result.Some? && items[k].accepted.Some?
  }

  /** Each line occurs once, so looking a line up and adding it up agree. */
  lemma {:induction false} AcceptedHereIsSum(items: seq<ReturnItem>, line: nat)
    requires DistinctLines(items) && Inspected(items)
    ensures AcceptedHere(items, line) == Sum(items, ItemReturnedOn(line, Completed))
  {
    if items != [] {
      var n := |items| - 1;
      if items[n].line == line {
        SumZero(items[..n], ItemReturnedOn(line, Completed));
      } else {
        AcceptedHereIsSum(items[..n], line);
      }
    }
  }

  /** Everything that was received has been inspected. */
  predicate ReadyToClose(order: Order, r: ReturnRequest) {
    && r.status == Inspection
    && RequestShape(order, r)
    && forall k :: 0 <= k < |r.items| ==> GetOr(r.items[k].received, 0) > 0 ==> r.items[k].result.Some?
  }

  lemma ClosedItem(order: Order, r: ReturnRequest, k: nat)
    requires ReadyToClose(order, r) && k < |r.items|
    ensures UnitsHere(Closed(r.items[k])) == UnitsHere(r.items[k])
    ensures RefundOf(order)(r.items[k]) == StoredRefund(Closed(r.items[k]))
  {
    assert ItemShape(order, r.items[k], Inspection);
  }

  /** Closing a return changes neither the units it returns nor the refund calculated for it. */
  lemma ClosingKeepsCalculation(order: Order, r: ReturnRequest, line: nat)
    requires ReadyToClose(order, r)
    ensures AcceptedHere(Close(r.items), line) == AcceptedHere(r.items, line)
    ensures ItemsTotal(order, r.items) == Sum(Close(r.items), StoredRefund)
    ensures Inspected(Close(r.items)) && DistinctLines(Close(r.items))
  {
    forall k | 0 <= k < |r.items|
      ensures RefundOf(order)(r.items[k]) == StoredRefund(Close(r.items)[k])
      ensures UnitsHere(Close(r.items)[k]) == UnitsHere(r.items[k])
    {
      ClosedItem(order, r, k);
      assert ItemShape(order, r.items[k], Inspection);
    }
    SumEq(r.items, Close(r.items), RefundOf(order), StoredRefund);
    SameUnitsHere(r.items, Close(r.items), line);
  }

  lemma {:induction false} SameUnitsHere(a: seq<ReturnItem>, b: seq<ReturnItem>, line: nat)
    requires |a| == |b|
    requires forall k :: 0 <= k < |a| ==> a[k].line == b[k].line && UnitsHere(a[k]) == UnitsHere(b[k])
    ensures AcceptedHere(a, line) == AcceptedHere(b, line)
  {
    if a != [] {
      assert forall k :: 0 <= k < |a| - 1 ==> a[..|a| - 1][k] == a[k] && b[..|a| - 1][k] == b[k];
      SameUnitsHere(a[..|a| - 1], b[..|b| - 1], line);
    }
  }

  /** A return past inspection is worth, on recalculation, exactly what its rows say. */
  lemma InspectedTotal(order: Order, r: ReturnRequest)
    requires RequestShape(order, r) && PastInspection(r)
    ensures ItemsTotal(order, r.items) == Sum(r.items, StoredRefund)
    ensures Inspected(r.items)
  {
    forall k | 0 <= k < |r.items|
      ensures RefundOf(order)(r.items[k]) == StoredRefund(r.items[k]) && r.items[k].result.Some?
    {
      assert ItemShape(order, r.items[k], r.status);
    }
    SumEq(r.items, r.items, RefundOf(order), StoredRefund);
  }

  // ---------- the two kinds of step ----------

  predicate Enters(d: Db, next: Db, id: nat)
    requires id < |d.requests| <= |next.requests|
  {
    && ReadyToClose(d.order, d.requests[id])
    && next.requests[id] == ReturnRequest(next.requests[id].status, Close(d.requests[id].items), ShippingDue(d, id))
  }

  /** No return completes: rows past inspection keep their items and delivery refund, and a return that
      becomes refundable has just been closed. The order's status may be settled again. */
  predicate Steady(d: Db, next: Db) {
    && next.order == d.order
    && (next.status == d.status || next.status == OrderStatusAfterReturns(d.status, Counts(d)))
    && |d.requests| <= |next.requests|
    && (forall id :: |d.requests| <= id < |next.requests| ==> !PastInspection(next.requests[id]))
    && (forall id :: 0 <= id < |d.requests| ==>
          var r, n := d.requests[id], next.requests[id];
          && (r.status == Completed ==> n == r)
          && (r.status != Completed ==> n.status != Completed)
          && (InRefund(r) ==> InRefund(n) && n == r.(status := n.status))
          && (InRefund(n) && !InRefund(r) ==> Enters(d, next, id)))
  }

  predicate BecomesCompleted(d: Db, next: Db, id: nat) {
    && next.order == d.order
    && id < |d.requests| == |next.requests|
    && next.requests == d.requests[id := next.requests[id]]
    && next.requests[id].status == Completed
    && next.status == OrderStatusAfterReturns(d.status, Counts(next))
  }

  /** By the confirmation of a refund. */
  predicate CompletesPaid(d: Db, next: Db, id: nat) {
    && BecomesCompleted(d, next, id)
    && InRefund(d.requests[id]) && next.requests[id] == d.requests[id].(status := Completed) && Actives(next, id) >= 1
  }

  /** At its approval, because nothing is due. */
  predicate CompletesUnpaid(d: Db, next: Db, id: nat) {
    BecomesCompleted(d, next, id) && Enters(d, next, id) && Total(d, id) <= 0
  }

  predicate Completes(d: Db, next: Db, id: nat) { CompletesPaid(d, next, id) || CompletesUnpaid(d, next, id) }

  lemma SameCounts(d: Db, next: Db)
    ensures next.order == d.order && next.requests == d.requests ==> Counts(next) == Counts(d)
  {}

  /** A refund that has just been processed is an active one. */
  lemma ProcessedIsActive(d: Db, r: nat, id: nat)
    requires r < |d.refunds| && d.refunds[r].status == Processed && d.refunds[r].forReturn == Some(id)
    ensures Actives(d, id) >= 1
  {
    SumNonNegative(d.refunds, ActiveFor(id));
    assert ActiveFor(id)(d.refunds[r]) == 1;
  }

  lemma ConfirmationRows(d: Db, r: nat)
    requires r < |d.refunds| && RefundShape(d, d.refunds[r]) && d.refunds[r].status != Processed
    ensures var next := Settle(d, r, Confirmed);
            && next.order == d.order && next.refunds == d.refunds[r := d.refunds[r].(status := Processed)]
            && (|| (next.requests == d.requests && next.status == d.status)
                || (&& d.refunds[r].forReturn.Some?
                    && var id := d.refunds[r].forReturn.value;
                    && next.requests == d.requests[id := d.requests[id].(status := Completed)]
                    && next.status == OrderStatusAfterReturns(d.status, Counts(next))))
  {
    if d.refunds[r].forReturn.Some? {
      var id := d.refunds[r].forReturn.value;
      SameCounts(Settle(d, r, Confirmed), SetStatus(d, id, Completed));
    }
  }

  lemma ConfirmationKind(d: Db, r: nat)
    requires r < |d.refunds| && RefundShape(d, d.refunds[r]) && d.refunds[r].status != Processed
    ensures var next := Settle(d, r, Confirmed);
            Steady(d, next) || (d.refunds[r].forReturn.Some? && CompletesPaid(d, next, d.refunds[r].forReturn.value))
  {
    var next := Settle(d, r, Confirmed);
    ConfirmationRows(d, r);
    SameCounts(d, next);
    if next.requests != d.requests { ProcessedIsActive(next, r, d.refunds[r].forReturn.value); }
  }

  lemma SettleKind(d: Db, r: nat, verdict: Verdict)
    requires OneOpen(d) && r < |d.refunds| && verdict != Undecided && RefundShape(d, d.refunds[r])
    requires d.refunds[r].status != RefundCancelled
    ensures var next := Settle(d, r, verdict);
            Steady(d, next) || (d.refunds[r].forReturn.Some? && CompletesPaid(d, next, d.refunds[r].forReturn.value))
  {
    if !SettleIgnored(d.refunds[r].status, verdict) {
      if verdict == Confirmed { ConfirmationKind(d, r); } else { OpenIsProcessing(d, r); }
    }
  }

  lemma ApprovalSends(d: Db, id: nat)
    requires id < |d.requests| && ReadyToClose(d.order, d.requests[id]) && Total(d, id) > 0
    ensures Steady(d, ApproveRefund(d, id).0)
  {
    var r := ReturnRequest(RefundApproved, Close(d.requests[id].items), ShippingDue(d, id));
    var approved := With(d, id, r);
    var next := SendRefund(approved, id, Total(d, id)).0;
    assert ApproveRefund(d, id).0 == next;
    SendFrame(approved, id, Total(d, id));
    var to :| to in {RefundApproved, RefundProcessing} && next.requests == approved.requests[id := r.(status := to)];
    assert next.requests == d.requests[id := r.(status := to)];
  }

  lemma ApprovalCompletes(d: Db, id: nat)
    requires id < |d.requests| && ReadyToClose(d.order, d.requests[id]) && Total(d, id) <= 0
    ensures Completes(d, ApproveRefund(d, id).0, id)
  {
    var r := ReturnRequest(RefundApproved, Close(d.requests[id].items), ShippingDue(d, id));
    var done := SetStatus(With(d, id, r), id, Completed);
    var next := SettleOrderStatus(done);
    assert ApproveRefund(d, id).0 == next;
    assert done.requests == d.requests[id := r.(status := Completed)];
    SameCounts(done, next);
  }

  lemma ApproveRefundKind(d: Db, id: nat)
    requires Shape(d)
    ensures var next := ApproveRefund(d, id).0; Steady(d, next) || Completes(d, next, id)
  {
    if id < |d.requests| && d.requests[id].status == Inspection {
      assert RequestShape(d.order, d.requests[id]);
      if !ReadyToClose(d.order, d.requests[id]) {
        assert ApproveRefund(d, id).0 == d;
      } else if Total(d, id) > 0 {
        ApprovalSends(d, id);
      } else {
        ApprovalCompletes(d, id);
      }
    }
  }

  lemma ThrownKind(d: Db, r: nat)
    requires Shape(d) && OneOpen(d) && r < |d.calls| && d.calls[r] == Waiting
    ensures Steady(d, Settle(WithCall(d, r, Finished), r, Declined))
  {
    assert RefundShape(d, d.refunds[r]) && CallShape(d.refunds[r], Waiting);
    OpenIsProcessing(d, r);
  }

  lemma ProviderAnswerKind(d: Db, r: nat, answer: Answer)
    requires Shape(d) && OneOpen(d)
    ensures Steady(d, ProviderAnswers(d, r, answer))
  {
    if r < |d.calls| && d.calls[r] == Waiting && answer == Threw { ThrownKind(d, r); }
  }

  lemma SettleAnswerKind(d: Db, r: nat)
    requires Shape(d) && OneOpen(d)
    ensures Steady(d, SettleAnswer(d, r)) || exists id: nat :: Completes(d, SettleAnswer(d, r), id)
  {
    if r < |d.calls| && d.calls[r].Answered? {
      assert RefundShape(d, d.refunds[r]) && CallShape(d.refunds[r], d.calls[r]);
      var over := WithCall(d, r, Finished);
      var next := SettleAnswer(d, r);
      SettleKind(over, r, d.calls[r].verdict);
      if !Steady(over, next) {
        assert CompletesPaid(d, next, d.refunds[r].forReturn.value);
        assert Completes(d, next, d.refunds[r].forReturn.value);
      }
    }
  }

  lemma WebhookKind(d: Db, p: nat, verdict: Verdict)
    requires Shape(d) && OneOpen(d)
    ensures Steady(d, Webhook(d, p, verdict)) || exists id: nat :: Completes(d, Webhook(d, p, verdict), id)
  {
    var r := Find(d.refunds, p);
    if verdict != Undecided && r < |d.refunds| {
      assert RefundShape(d, d.refunds[r]) && CallShape(d.refunds[r], d.calls[r]);
      SettleKind(d, r, verdict);
      if !Steady(d, Webhook(d, p, verdict)) {
        assert Completes(d, Webhook(d, p, verdict), d.refunds[r].forReturn.value);
      }
    }
  }

  lemma CreateKind(d: Db, asks: seq<Ask>, now: int)
    ensures Steady(d, Create(d, asks, now).0)
  {}

  lemma RetryKind(d: Db, id: nat)
    ensures Steady(d, RetryRefund(d, id).0)
  {
    if id < |d.requests| && d.requests[id].status == RefundApproved {
      var outstanding := Total(d, id) - Sum(d.refunds, NotFailedFor(id));
      if outstanding > 0 { SendFrame(d, id, outstanding); }
    }
  }

  lemma QuietKind(d: Db, next: Db)
    requires Quiet(d, next)
    ensures Steady(d, next)
  {}

  lemma StepKind(d: Db, e: Event)
    requires Shape(d) && OneOpen(d)
    ensures Steady(d, Step(d, e)) || exists id: nat :: Completes(d, Step(d, e), id)
  {
    match e
    case ECreate(asks, now) => CreateKind(d, asks, now);
    case ERetryRefund(id) => RetryKind(d, id);
    case ERefundOrder(_) =>
    case EApproveRefund(id) => ApproveRefundKind(d, id);
    case EProviderAnswers(r, answer) => ProviderAnswerKind(d, r, answer);
    case ESettleAnswer(r) => SettleAnswerKind(d, r);
    case EWebhook(p, verdict) => WebhookKind(d, p, verdict);
    case _ => QuietStep(d, e); QuietKind(d, Step(d, e));
  }

  // ---------- units that are back ----------

  lemma ReturnedOnlyWhenCompleted(r: ReturnRequest, line: nat)
    ensures r.status != Completed ==> ReturnedIn(line)(r) == 0
    ensures ReturnedIn(line)(r) >= 0
  {
    if r.status != Completed { SumZero(r.items, ItemReturnedOn(line, r.status)); }
    SumNonNegative(r.items, ItemReturnedOn(line, r.status));
  }

  lemma BackNonNegative(d: Db, line: nat)
    ensures Back(d, line) >= 0
  {
    forall r | r in d.requests ensures ReturnedIn(line)(r) >= 0 { ReturnedOnlyWhenCompleted(r, line); }
    SumNonNegative(d.requests, ReturnedIn(line));
  }

  lemma SteadyBack(d: Db, next: Db, line: nat)
    requires Steady(d, next)
    ensures Back(next, line) == Back(d, line)
  {
    var n := |d.requests|;
    var before, added := next.requests[..n], next.requests[n..];
    forall id | 0 <= id < n ensures ReturnedIn(line)(before[id]) == ReturnedIn(line)(d.requests[id]) {
      ReturnedOnlyWhenCompleted(before[id], line);
      ReturnedOnlyWhenCompleted(d.requests[id], line);
    }
    SumEq(before, d.requests, ReturnedIn(line), ReturnedIn(line));
    forall k | 0 <= k < |added| ensures ReturnedIn(line)(added[k]) == 0 { ReturnedOnlyWhenCompleted(added[k], line); }
    SumZero(added, ReturnedIn(line));
    SumConcat(before, added, ReturnedIn(line));
    assert next.requests == before + added;
  }

  lemma SteadyPaid(d: Db, next: Db)
    requires Steady(d, next)
    ensures forall id :: 0 <= id < |d.requests| ==> (PaidDelivery(next.requests[id]) <==> PaidDelivery(d.requests[id]))
    ensures NobodyPaidDelivery(next) <==> NobodyPaidDelivery(d)
    ensures AllBack(next) <==> AllBack(d)
  {
    forall line: nat ensures Back(next, line) == Back(d, line) { SteadyBack(d, next, line); }
    forall id | 0 <= id < |next.requests|
      ensures PaidDelivery(next.requests[id]) ==> id < |d.requests| && PaidDelivery(d.requests[id])
    {}
  }

  lemma CompletedItems(d: Db, next: Db, id: nat)
    requires Shape(d) && Completes(d, next, id)
    ensures d.requests[id].status != Completed
    ensures Inspected(next.requests[id].items) && DistinctLines(next.requests[id].items)
            && next.requests[id].items != []
    ensures forall line: nat :: AcceptedHere(next.requests[id].items, line) == AcceptedHere(d.requests[id].items, line)
  {
    var r := d.requests[id];
    assert RequestShape(d.order, r);
    if InRefund(r) {
      InspectedTotal(d.order, r);
    } else {
      forall line: nat ensures AcceptedHere(next.requests[id].items, line) == AcceptedHere(r.items, line) {
        ClosingKeepsCalculation(d.order, r, line);
      }
      ClosingKeepsCalculation(d.order, r, 0);
    }
  }

  lemma CompletesBack(d: Db, next: Db, id: nat, line: nat)
    requires Shape(d) && Completes(d, next, id)
    ensures Back(next, line) == Back(d, line) + AcceptedHere(d.requests[id].items, line)
  {
    CompletedItems(d, next, id);
    SumUpdate(d.requests, id, next.requests[id], ReturnedIn(line));
    ReturnedOnlyWhenCompleted(d.requests[id], line);
    AcceptedHereIsSum(next.requests[id].items, line);
  }

  // ---------- the delivery charge ----------

  /** At most one return is being refunded at a time, and its delivery refund is the one due now. */
  predicate ShippingFixed(d: Db) {
    && (forall i, j :: 0 <= i < j < |d.requests| ==> !InRefund(d.requests[i]) || !InRefund(d.requests[j]))
    && (forall id :: 0 <= id < |d.requests| && InRefund(d.requests[id]) ==>
          d.requests[id].shippingRefund == DeliveryDue(d, d.requests[id].items))
  }

  /** At most one return has refunded the delivery charge; with a positive charge one has, exactly when every
      unit of the order is back. */
  predicate DeliveryOnce(d: Db) {
    && (forall i, j :: 0 <= i < j < |d.requests| ==> !PaidDelivery(d.requests[i]) || !PaidDelivery(d.requests[j]))
    && (forall id :: 0 <= id < |d.requests| && PaidDelivery(d.requests[id]) ==>
          d.requests[id].shippingRefund == d.order.money.shippingCharge && AllBack(d))
    && (AllBack(d) && d.order.money.shippingCharge > 0 ==> !NobodyPaidDelivery(d))
  }

  lemma SteadyDelivery(d: Db, next: Db)
    requires Steady(d, next) && DeliveryOnce(d)
    ensures DeliveryOnce(next)
  {
    SteadyPaid(d, next);
  }

  lemma SteadyDue(d: Db, next: Db, items: seq<ReturnItem>)
    requires Steady(d, next)
    ensures DeliveryDue(next, items) == DeliveryDue(d, items)
  {
    SteadyPaid(d, next);
    forall line: nat ensures Back(next, line) == Back(d, line) { SteadyBack(d, next, line); }
  }

  /** What a return is to be paid for delivery when it enters its refund. */
  lemma EntersDue(d: Db, next: Db, id: nat)
    requires Shape(d) && id < |d.requests| <= |next.requests| && Enters(d, next, id)
    ensures next.requests[id].shippingRefund == DeliveryDue(d, d.requests[id].items)
            == DeliveryDue(d, next.requests[id].items)
    ensures Due(next.requests[id]) == Total(d, id)
  {
    ShippingDueOfIncomplete(d, id);
    forall line: nat ensures AcceptedHere(next.requests[id].items, line) == AcceptedHere(d.requests[id].items, line) {
      ClosingKeepsCalculation(d.order, d.requests[id], line);
    }
    ClosingKeepsCalculation(d.order, d.requests[id], 0);
  }

  lemma CompletionRow(d: Db, next: Db, id: nat)
    requires Shape(d) && ShippingFixed(d) && Completes(d, next, id)
    ensures next.requests[id].shippingRefund == DeliveryDue(d, d.requests[id].items)
    ensures PaidDelivery(next.requests[id]) <==> next.requests[id].shippingRefund > 0
    ensures !PaidDelivery(d.requests[id])
    ensures forall j :: 0 <= j < |d.requests| && j != id ==> next.requests[j] == d.requests[j]
  {
    CompletedItems(d, next, id);
    if !InRefund(d.requests[id]) { EntersDue(d, next, id); }
  }

  lemma CompletionDelivery(d: Db, next: Db, id: nat)
    requires Shape(d) && ShippingFixed(d) && DeliveryOnce(d) && Completes(d, next, id)
    ensures DeliveryOnce(next)
  {
    CompletionRow(d, next, id);
    forall line: nat ensures Back(next, line) == Back(d, line) + AcceptedHere(d.requests[id].items, line) {
      CompletesBack(d, next, id, line);
    }
    CompletionCases(d, next, id);
  }

  /** The first return to bring everything back is the one that finds nobody paid; later ones find somebody. */
  lemma CompletionCases(d: Db, next: Db, id: nat)
    requires id < |d.requests| == |next.requests| && next.order == d.order && DeliveryOnce(d)
    requires var r := next.requests[id];
             r.shippingRefund == DeliveryDue(d, d.requests[id].items) && (PaidDelivery(r) <==> r.shippingRefund > 0)
    requires !PaidDelivery(d.requests[id])
    requires forall j :: 0 <= j < |d.requests| && j != id ==> next.requests[j] == d.requests[j]
    requires forall line: nat :: Back(next, line) == Back(d, line) + AcceptedHere(d.requests[id].items, line)
    ensures DeliveryOnce(next)
  {
    if j :| 0 <= j < |d.requests| && PaidDelivery(d.requests[j]) {
      assert next.requests[j] == d.requests[j];
      assert next.requests[id].shippingRefund == 0;
    } else {
      assert NobodyPaidDelivery(d);
      assert AllBack(next) <==> forall line :: 0 <= line < |d.order.lines| ==>
        Back(d, line) + AcceptedHere(d.requests[id].items, line) >= d.order.lines[line].quantity;
    }
  }

  /** Exactly when the completion of a refunded return keeps the delivery charge right: the amount fixed at its
      approval is what the calculation comes to now. H4 is what keeps the two the same. */
  lemma CompletionDeliveryIff(d: Db, next: Db, id: nat)
    requires Shape(d) && DeliveryOnce(d) && Completes(d, next, id) && InRefund(d.requests[id])
    requires d.order.money.shippingCharge > 0 && d.requests[id].shippingRefund in {0, d.order.money.shippingCharge}
    ensures DeliveryOnce(next) <==> d.requests[id].shippingRefund == DeliveryDue(d, d.requests[id].items)
  {
    CompletedItems(d, next, id);
    forall line: nat ensures Back(next, line) == Back(d, line) + AcceptedHere(d.requests[id].items, line) {
      CompletesBack(d, next, id, line);
    }
    DeliveryCases(d, next, id);
  }

  lemma DeliveryCases(d: Db, next: Db, id: nat)
    requires id < |d.requests| == |next.requests| && next.order == d.order && DeliveryOnce(d)
    requires d.order.money.shippingCharge > 0 && next.requests[id].shippingRefund in {0, d.order.money.shippingCharge}
    requires PaidDelivery(next.requests[id]) <==> next.requests[id].shippingRefund > 0
    requires !PaidDelivery(d.requests[id])
    requires forall j :: 0 <= j < |d.requests| && j != id ==> next.requests[j] == d.requests[j]
    requires forall line: nat :: Back(next, line) == Back(d, line) + AcceptedHere(d.requests[id].items, line)
    ensures DeliveryOnce(next) <==> next.requests[id].shippingRefund == DeliveryDue(d, d.requests[id].items)
  {
    if next.requests[id].shippingRefund == DeliveryDue(d, d.requests[id].items) {
      CompletionCases(d, next, id);
    } else if j :| 0 <= j < |d.requests| && PaidDelivery(d.requests[j]) {
      assert next.requests[j] == d.requests[j] && PaidDelivery(next.requests[id]);
      assert !DeliveryOnce(next);
    } else {
      assert NobodyPaidDelivery(d);
      assert AllBack(next) <==> forall line :: 0 <= line < |d.order.lines| ==>
        Back(d, line) + AcceptedHere(d.requests[id].items, line) >= d.order.lines[line].quantity;
      assert AllBack(next) <==> next.requests[id].shippingRefund == 0;
      if AllBack(next) { assert NobodyPaidDelivery(next); }
    }
  }

  lemma SteadyShipping(d: Db, e: Event)
    requires Shape(d) && ShippingFixed(d) && H4(d, e) && Steady(d, Step(d, e))
    ensures ShippingFixed(Step(d, e))
  {
    var next := Step(d, e);
    forall id | 0 <= id < |d.requests| && InRefund(next.requests[id]) && !InRefund(d.requests[id])
      ensures e == EApproveRefund(id)
    {
      PassesByApproval(d, e, id);
    }
    forall id | 0 <= id < |next.requests| && InRefund(next.requests[id])
      ensures next.requests[id].shippingRefund == DeliveryDue(next, next.requests[id].items)
    {
      SteadyDue(d, next, next.requests[id].items);
      if !InRefund(d.requests[id]) { EntersDue(d, next, id); }
    }
  }

  lemma CompletionShipping(d: Db, e: Event, id: nat)
    requires Shape(d) && ShippingFixed(d) && H4(d, e) && Completes(d, Step(d, e), id)
    ensures ShippingFixed(Step(d, e))
  {
    var next := Step(d, e);
    forall j | 0 <= j < |next.requests| ensures !InRefund(next.requests[j]) {
      if j != id { assert next.requests[j] == d.requests[j]; }
      if !InRefund(d.requests[id]) { PassesByApproval(d, e, id); }
    }
  }

  lemma ShippingFixedStep(d: Db, e: Event)
    requires Shape(d) && OneOpen(d) && ShippingFixed(d) && H4(d, e)
    ensures ShippingFixed(Step(d, e))
  {
    StepKind(d, e);
    if Steady(d, Step(d, e)) {
      SteadyShipping(d, e);
    } else {
      var id: nat :| Completes(d, Step(d, e), id);
      CompletionShipping(d, e, id);
    }
  }

  /** A return gets past inspection only by the approval of its refund. */
  lemma PassesByApproval(d: Db, e: Event, id: nat)
    requires Shape(d) && id < |d.requests| && !PastInspection(d.requests[id])
    requires id < |Step(d, e).requests| && PastInspection(Step(d, e).requests[id])
    ensures e == EApproveRefund(id)
  {
    match e
    case EApproveRefund(j) => ApproveRefundFrame(d, j);
    case ERetryRefund(_) => RefundEventFrame(d, e);
    case ERefundOrder(_) => RefundEventFrame(d, e);
    case EProviderAnswers(_, _) => RefundEventFrame(d, e);
    case ESettleAnswer(_) => RefundEventFrame(d, e);
    case EWebhook(_, _) => RefundEventFrame(d, e);
    case ECreate(_, _) =>
    case _ => QuietStep(d, e);
  }

  // ---------- what has been paid ----------

  /** Every refund of a return that is open or paid is for exactly what the return's rows say, and a return
      completed without a refund is worth nothing. */
  predicate AmountsDue(d: Db) {
    && (forall r :: 0 <= r < |d.refunds| && Active(d.refunds[r]) && d.refunds[r].forReturn.Some? ==>
          var id := d.refunds[r].forReturn.value;
          id < |d.requests| && d.refunds[r].amount == Due(d.requests[id]))
    && (forall id :: 0 <= id < |d.requests| && d.requests[id].status == Completed && Actives(d, id) == 0 ==>
          Due(d.requests[id]) == 0)
  }

  lemma DueNonNegative(r: ReturnRequest)
    ensures Due(r) >= 0
  {
    SumNonNegative(r.items, StoredRefund);
  }

  /** Calculated again, a return awaiting its refund comes to the same amount as when it was approved. */
  lemma RetryTotal(d: Db, id: nat)
    requires Shape(d) && ShippingFixed(d) && id < |d.requests| && InRefund(d.requests[id])
    ensures Total(d, id) == Due(d.requests[id])
  {
    assert RequestShape(d.order, d.requests[id]);
    InspectedTotal(d.order, d.requests[id]);
    ShippingDueOfIncomplete(d, id);
  }

  lemma NothingCommitted(d: Db, id: nat)
    requires Shape(d) && Actives(d, id) == 0
    ensures Sum(d.refunds, NotFailedFor(id)) == 0
  {
    SumNonNegative(d.refunds, ActiveFor(id));
    forall r | 0 <= r < |d.refunds| ensures NotFailedFor(id)(d.refunds[r]) == 0 {
      assert CallShape(d.refunds[r], d.calls[r]);
      assert ActiveFor(id)(d.refunds[r]) <= 0;
    }
    SumZero(d.refunds, NotFailedFor(id));
  }

  /** A retry goes through exactly when the captured payment still has room for the whole total; until it has,
      the return stays approved for refund and nothing else changes. */
  lemma RetryGoesThroughIff(d: Db, id: nat)
    requires Shape(d) && OnePayout(d) && id < |d.requests| && d.requests[id].status == RefundApproved
    ensures RetryRefund(d, id).1 == Ok <==>
              Total(d, id) > 0 && d.order.captured.Some? && Committed(d) + Total(d, id) <= Captured(d.order)
    ensures RetryRefund(d, id).1 != Ok ==> RetryRefund(d, id).0 == d
  {
    NothingCommitted(d, id);
    if Total(d, id) > 0 {
      var refused := SetStatus(SetStatus(d, id, RefundProcessing), id, RefundApproved);
      assert refused.requests == d.requests;
    }
  }

  lemma ApprovalSendsTotal(d: Db, id: nat)
    requires |ApproveRefund(d, id).0.refunds| > |d.refunds|
    ensures var f := ApproveRefund(d, id).0.refunds[|d.refunds|];
            f.forReturn == Some(id) && id < |d.requests| && f.amount == Total(d, id)
  {
    var approved := With(d, id, ReturnRequest(RefundApproved, Close(d.requests[id].items), ShippingDue(d, id)));
    SendRefunds(approved, id, Total(d, id));
  }

  lemma RetrySendsTotal(d: Db, id: nat)
    requires Shape(d) && OnePayout(d) && |RetryRefund(d, id).0.refunds| > |d.refunds|
    ensures var f := RetryRefund(d, id).0.refunds[|d.refunds|];
            f.forReturn == Some(id) && id < |d.requests| && InRefund(d.requests[id]) && f.amount == Total(d, id)
  {
    NothingCommitted(d, id);
    SendRefunds(d, id, Total(d, id));
  }

  /** Every refund sent for a return is the whole total calculated for it at that moment. */
  lemma RefundSentIsTotal(d: Db, e: Event)
    requires Shape(d) && OnePayout(d) && |Step(d, e).refunds| > |d.refunds|
    ensures var f := Step(d, e).refunds[|d.refunds|];
            match e
            case EApproveRefund(id) => f.forReturn == Some(id) && id < |d.requests| && f.amount == Total(d, id)
            case ERetryRefund(id) => f.forReturn == Some(id) && id < |d.requests| && InRefund(d.requests[id])
                                     && f.amount == Total(d, id)
            case _ => f.forReturn == None
  {
    match e
    case EApproveRefund(id) => ApprovalSendsTotal(d, id);
    case ERetryRefund(id) => RetrySendsTotal(d, id);
    case EProviderAnswers(_, _) => StepRefunds(d, e);
    case ESettleAnswer(_) => StepRefunds(d, e);
    case EWebhook(_, _) => StepRefunds(d, e);
    case ECreate(_, _) =>
    case ERefundOrder(_) =>
    case _ => QuietStep(d, e);
  }

  lemma ApprovalSendsDue(d: Db, id: nat)
    requires Shape(d) && |ApproveRefund(d, id).0.refunds| > |d.refunds|
    ensures var next := ApproveRefund(d, id).0;
            id < |d.requests| == |next.requests| && Due(next.requests[id]) == Total(d, id)
  {
    var next := ApproveRefund(d, id).0;
    ApproveRefundFrame(d, id);
    ApproveRefundKind(d, id);
    EntersDue(d, next, id);
  }

  lemma SentAmountDue(d: Db, e: Event)
    requires Shape(d) && OnePayout(d) && ShippingFixed(d) && H2(d, e) && Added(d, Step(d, e))
    ensures var f := Step(d, e).refunds[|d.refunds|];
            f.forReturn.Some? ==> f.forReturn.value < |d.requests| <= |Step(d, e).requests|
                                  && f.amount == Due(Step(d, e).requests[f.forReturn.value])
  {
    RefundSentIsTotal(d, e);
    match e
    case EApproveRefund(id) => ApprovalSendsDue(d, id);
    case ERetryRefund(id) =>
      RetryTotal(d, id);
      SendFrame(d, id, Total(d, id));
      NothingCommitted(d, id);
    case _ =>
  }

  /** Past inspection, what a return is worth no longer changes. */
  lemma DueKept(d: Db, next: Db, id: nat)
    requires id < |d.requests| && PastInspection(d.requests[id])
    requires Steady(d, next) || exists j: nat :: Completes(d, next, j)
    ensures id < |next.requests| && Due(next.requests[id]) == Due(d.requests[id])
  {
    if j: nat :| Completes(d, next, j) {
      if j != id { assert next.requests[id] == d.requests[id]; }
    }
  }

  /** A refund active after a step was active before it with the same amount, or was just sent. */
  lemma ActiveBefore(d: Db, e: Event, r: nat)
    requires Shape(d) && H2(d, e) && r < |d.refunds| && r < |Step(d, e).refunds| && Active(Step(d, e).refunds[r])
    ensures Active(d.refunds[r])
    ensures Step(d, e).refunds[r].amount == d.refunds[r].amount
            && Step(d, e).refunds[r].forReturn == d.refunds[r].forReturn
  {
    StepRefunds(d, e);
    assert CallShape(d.refunds[r], d.calls[r]);
  }

  lemma AmountsStep(d: Db, e: Event, r: nat)
    requires Shape(d) && OnePayout(d) && ShippingFixed(d) && AmountsDue(d) && H2(d, e)
    requires r < |Step(d, e).refunds| && Active(Step(d, e).refunds[r]) && Step(d, e).refunds[r].forReturn.Some?
    ensures var next := Step(d, e);
            var id := next.refunds[r].forReturn.value;
            id < |next.requests| && next.refunds[r].amount == Due(next.requests[id])
  {
    StepRefunds(d, e);
    OnePayoutOpens(d);
    StepKind(d, e);
    if r < |d.refunds| {
      ActiveBefore(d, e, r);
      assert RefundShape(d, d.refunds[r]);
      DueKept(d, Step(d, e), d.refunds[r].forReturn.value);
    } else {
      SentAmountDue(d, e);
    }
  }

  lemma PaidRefundOf(d: Db, id: nat) returns (r: nat)
    requires Shape(d) && Opens(d, id) == 0 && Actives(d, id) > 0
    ensures r < |d.refunds| && d.refunds[r].status == Processed && d.refunds[r].forReturn == Some(id)
  {
    SumNonNegative(d.refunds, OpenFor(id));
    if forall j :: 0 <= j < |d.refunds| ==> ActiveFor(id)(d.refunds[j]) == 0 { SumZero(d.refunds, ActiveFor(id)); }
    r :| r < |d.refunds| && ActiveFor(id)(d.refunds[r]) != 0;
    assert OpenFor(id)(d.refunds[r]) <= 0;
  }

  lemma PaidStaysPaid(d: Db, e: Event, id: nat)
    requires Shape(d) && Opens(d, id) == 0 && Actives(d, id) > 0
    ensures Actives(Step(d, e), id) > 0
  {
    var r := PaidRefundOf(d, id);
    ConfirmedStep(d, e, r);
    var refunds := Step(d, e).refunds;
    SumNonNegative(refunds, ActiveFor(id));
    assert ActiveFor(id)(refunds[r]) == 1;
  }

  /** A return that completes with no refund active was closed because nothing was due. */
  lemma UnpaidCompletion(d: Db, next: Db, id: nat)
    requires Shape(d) && Completes(d, next, id) && Actives(next, id) == 0
    ensures CompletesUnpaid(d, next, id) && Due(next.requests[id]) == 0
  {
    EntersDue(d, next, id);
    DueNonNegative(next.requests[id]);
  }

  /** A return that was completed before with no refund active was worth nothing then and now. */
  lemma StillUnpaid(d: Db, e: Event, id: nat)
    requires Shape(d) && OnePayout(d) && AmountsDue(d) && id < |d.requests| && d.requests[id].status == Completed
    requires Actives(Step(d, e), id) == 0
    ensures Due(d.requests[id]) == 0
  {
    assert PayoutOk(d.requests[id].status, Opens(d, id), Actives(d, id));
    OpensWithinActives(d, id);
    if Actives(d, id) > 0 { PaidStaysPaid(d, e, id); }
  }

  lemma UnpaidStep(d: Db, e: Event, id: nat)
    requires Shape(d) && OnePayout(d) && AmountsDue(d)
    requires var next := Step(d, e);
             id < |next.requests| && next.requests[id].status == Completed && Actives(next, id) == 0
    ensures Due(Step(d, e).requests[id]) == 0
  {
    var next := Step(d, e);
    OnePayoutOpens(d);
    StepKind(d, e);
    if id < |d.requests| && d.requests[id].status == Completed {
      DueKept(d, next, id);
      StillUnpaid(d, e, id);
    } else {
      var j: nat :| Completes(d, next, j);
      UnpaidCompletion(d, next, id);
    }
  }

  lemma AmountsDueStep(d: Db, e: Event)
    requires Shape(d) && OnePayout(d) && ShippingFixed(d) && AmountsDue(d) && H2(d, e)
    ensures AmountsDue(Step(d, e))
  {
    var next := Step(d, e);
    forall r | 0 <= r < |next.refunds| && Active(next.refunds[r]) && next.refunds[r].forReturn.Some?
      ensures next.refunds[r].forReturn.value < |next.requests|
      ensures next.refunds[r].amount == Due(next.requests[next.refunds[r].forReturn.value])
    {
      AmountsStep(d, e, r);
    }
    forall id | 0 <= id < |next.requests| && next.requests[id].status == Completed && Actives(next, id) == 0
      ensures Due(next.requests[id]) == 0
    {
      UnpaidStep(d, e, id);
    }
  }

  // ---------- the order's status ----------

  /** An order as checkout leaves it: at least one line, and at least one unit on each. */
  predicate Sold(order: Order) {
    order.lines != [] && forall k :: 0 <= k < |order.lines| ==> order.lines[k].quantity > 0
  }

  predicate NothingBack(d: Db) { forall line :: 0 <= line < |d.order.lines| ==> Back(d, line) == 0 }

  /** DELIVERED while nothing is back, RETURNED when everything is, PARTIALLY_RETURNED in between. */
  predicate StatusAgrees(d: Db) {
    d.status == if NothingBack(d) then Delivered else if AllBack(d) then Returned else PartiallyReturned
  }

  lemma CountsMeaning(d: Db, current: OrderStatus)
    requires Sold(d.order) && forall line: nat :: Back(d, line) >= 0
    ensures OrderStatusAfterReturns(current, Counts(d)) ==
              if NothingBack(d) then current else if AllBack(d) then Returned else PartiallyReturned
  {
    var counts := Counts(d);
    SumNonNegative(counts, Ordered);
    assert Ordered(counts[0]) > 0;
    OrderStatusAfterReturnsMeaning(current, counts);
    forall i | 0 <= i < |counts|
      ensures ReturnRules.Back(counts[i]) == 0 <==> Back(d, i) == 0
      ensures counts[i].returned >= counts[i].ordered <==> Back(d, i) >= d.order.lines[i].quantity
    {}
  }

  lemma CompletionStatus(d: Db, next: Db, id: nat)
    requires Shape(d) && Sold(d.order) && StatusAgrees(d) && Completes(d, next, id)
    ensures StatusAgrees(next)
  {
    forall line: nat ensures Back(next, line) >= Back(d, line) >= 0 {
      CompletesBack(d, next, id, line);
      BackNonNegative(d, line);
    }
    CountsMeaning(next, d.status);
    assert NothingBack(next) ==> NothingBack(d);
  }

  lemma SteadyStatus(d: Db, next: Db)
    requires Sold(d.order) && StatusAgrees(d) && Steady(d, next)
    ensures StatusAgrees(next)
  {
    forall line: nat ensures Back(next, line) == Back(d, line) >= 0 {
      SteadyBack(d, next, line);
      BackNonNegative(d, line);
    }
    CountsMeaning(d, d.status);
  }

  lemma StatusAgreesStep(d: Db, e: Event)
    requires Shape(d) && OneOpen(d) && Sold(d.order) && StatusAgrees(d)
    ensures StatusAgrees(Step(d, e)) && Step(d, e).order == d.order
  {
    var next := Step(d, e);
    StepKind(d, e);
    if Steady(d, next) {
      SteadyStatus(d, next);
    } else {
      var id: nat :| Completes(d, next, id);
      CompletionStatus(d, next, id);
    }
  }

  function StatusRank(status: OrderStatus): nat {
    match status
    case Delivered => 0
    case PartiallyReturned => 1
    case Returned => 2
    case _ => 3
  }

  lemma BackGrows(d: Db, e: Event, line: nat)
    requires Shape(d) && OneOpen(d)
    ensures Back(Step(d, e), line) >= Back(d, line) >= 0
  {
    var next := Step(d, e);
    StepKind(d, e);
    BackNonNegative(d, line);
    if Steady(d, next) {
      SteadyBack(d, next, line);
    } else {
      var id: nat :| Completes(d, next, id);
      CompletesBack(d, next, id, line);
    }
  }

  lemma MoreBackIsForward(d: Db, next: Db)
    requires StatusAgrees(d) && StatusAgrees(next) && next.order == d.order
    requires forall line: nat :: Back(next, line) >= Back(d, line) >= 0
    ensures StatusRank(d.status) <= StatusRank(next.status)
  {}

  lemma StatusForward(d: Db, e: Event)
    requires Shape(d) && OneOpen(d) && Sold(d.order) && StatusAgrees(d)
    ensures StatusRank(d.status) <= StatusRank(Step(d, e).status)
  {
    StatusAgreesStep(d, e);
    forall line: nat ensures Back(Step(d, e), line) >= Back(d, line) >= 0 { BackGrows(d, e, line); }
    MoreBackIsForward(d, Step(d, e));
  }

  // ---------- whole runs ----------

  /** On every run, whatever is asked for, inspected, answered and confirmed, the order's status says how much of
      it completed returns have brought back, and never moves backwards. */
  lemma {:induction false} StatusOfAnyRun(d: Db, es: seq<Event>)
    requires Shape(d) && OneOpen(d) && Sold(d.order) && StatusAgrees(d)
    ensures StatusAgrees(Run(d, es)) && StatusRank(d.status) <= StatusRank(Run(d, es).status)
    decreases |es|
  {
    if es != [] {
      ShapeStep(d, es[0]);
      OneOpenStep(d, es[0]);
      StatusAgreesStep(d, es[0]);
      StatusForward(d, es[0]);
      StatusOfAnyRun(Step(d, es[0]), es[1..]);
    }
  }

  lemma DeliveryStep(d: Db, e: Event)
    requires Shape(d) && OneOpen(d) && ShippingFixed(d) && DeliveryOnce(d) && H4(d, e)
    ensures ShippingFixed(Step(d, e)) && DeliveryOnce(Step(d, e))
  {
    ShippingFixedStep(d, e);
    StepKind(d, e);
    if Steady(d, Step(d, e)) {
      SteadyDelivery(d, Step(d, e));
    } else {
      var id: nat :| Completes(d, Step(d, e), id);
      CompletionDelivery(d, Step(d, e), id);
    }
  }

  /** While returns are approved for refund one at a time, the delivery charge is refunded by exactly one return
      once every unit is back, and by none before. */
  lemma {:induction false} DeliveryOfAnyRun(d: Db, es: seq<Event>)
    requires Shape(d) && OneOpen(d) && ShippingFixed(d) && DeliveryOnce(d) && Along(d, es, H4)
    ensures ShippingFixed(Run(d, es)) && DeliveryOnce(Run(d, es))
    decreases |es|
  {
    if es != [] {
      ShapeStep(d, es[0]);
      OneOpenStep(d, es[0]);
      DeliveryStep(d, es[0]);
      DeliveryOfAnyRun(Step(d, es[0]), es[1..]);
    }
  }

  predicate Under(d: Db, e: Event) { H2(d, e) && H4(d, e) }

  /** Refunds in step with the rows of their returns: one payout for each return, of the amount its rows say. */
  predicate Books(d: Db) { Shape(d) && OnePayout(d) && ShippingFixed(d) && AmountsDue(d) }

  lemma BooksStep(d: Db, e: Event)
    requires Books(d) && Under(d, e)
    ensures Books(Step(d, e))
  {
    ShapeStep(d, e);
    OnePayoutStep(d, e);
    OnePayoutOpens(d);
    ShippingFixedStep(d, e);
    AmountsDueStep(d, e);
  }

  lemma {:induction false} BooksRun(d: Db, es: seq<Event>)
    requires Books(d) && Along(d, es, Under)
    ensures Books(Run(d, es))
    decreases |es|
  {
    if es != [] {
      BooksStep(d, es[0]);
      BooksRun(Step(d, es[0]), es[1..]);
    }
  }

  /** A delivered order before any return or refund. */
  lemma FreshOrder(d: Db)
    requires Fresh(d) && Sold(d.order) && d.status == Delivered
    ensures Books(d) && OneOpen(d) && DeliveryOnce(d) && StatusAgrees(d)
  {
    forall line: nat ensures Back(d, line) == 0 {}
    assert d.order.lines[0].quantity > 0;
  }
}
