/**
 Where the money goes: never more than was captured, one payment for one return, and a settlement that
 ends the same way however often and in whatever order the provider's answers and webhooks arrive.
 */
module RefundSafety {
  import opened Prelude
  import opened ReturnRules
  import opened ReturnFlow
  import opened ReturnSafety

  // ---------- what one step may do to the refunds ----------

  predicate Added(d: Db, next: Db) {
    && |next.refunds| == |d.refunds| + 1
    && var f := next.refunds[|d.refunds|];
    && next.refunds == d.refunds + [f]
    && f.status == RefundPending && f.amount > 0
    && Committed(d) + f.amount <= Captured(d.order)
    && next.payment == d.payment
  }

  predicate Rewritten(d: Db, next: Db, r: nat) {
    && r < |d.refunds| == |next.refunds|
    && next.refunds == d.refunds[r := next.refunds[r]]
    && next.refunds[r].amount == d.refunds[r].amount
    && next.refunds[r].forReturn == d.refunds[r].forReturn
  }

  /** Pending to sent, open to failed, or anything not yet processed to processed. */
  predicate Advances(d: Db, next: Db, r: nat, confirmed: Option<nat>)
    requires Rewritten(d, next, r)
  {
    var before, after := d.refunds[r].status, next.refunds[r].status;
    || (before == RefundPending && after == RefundSent && next.payment == d.payment)
    || (Open(d.refunds[r]) && after == Failed && next.payment == d.payment)
    || (before != Processed && after == Processed && confirmed == Some(r)
        && next.payment == PaymentAfter(Captured(d.order), Sum(next.refunds, ProcessedAmount)))
  }

  predicate Untouched(d: Db, next: Db) { next.refunds == d.refunds && next.payment == d.payment }

  ghost predicate RefundStep(d: Db, next: Db, confirmed: Option<nat>) {
    && next.order == d.order
    && (|| Untouched(d, next)
        || Added(d, next)
        || exists r: nat :: Rewritten(d, next, r) && Advances(d, next, r, confirmed))
  }

  lemma SettleRefunds(d: Db, r: nat, verdict: Verdict)
    requires r < |d.refunds| && verdict != Undecided && d.refunds[r].status != RefundCancelled
    ensures RefundStep(d, Settle(d, r, verdict), if verdict == Confirmed then Some(r) else None)
  {
    var next := Settle(d, r, verdict);
    if !SettleIgnored(d.refunds[r].status, verdict) {
      assert next.refunds == d.refunds[r := d.refunds[r].(status := SettledAs(verdict))];
      assert Rewritten(d, next, r) && Advances(d, next, r, if verdict == Confirmed then Some(r) else None);
    }
  }

  /** The call's own progress is not part of the refund rows. */
  lemma SameRows(d: Db, over: Db, next: Db, confirmed: Option<nat>)
    requires over.order == d.order && over.refunds == d.refunds && over.payment == d.payment
    requires RefundStep(over, next, confirmed)
    ensures RefundStep(d, next, confirmed)
  {
    if r: nat :| Rewritten(over, next, r) && Advances(over, next, r, confirmed) {
      assert Rewritten(d, next, r) && Advances(d, next, r, confirmed);
    }
  }

  lemma SendRefunds(d: Db, id: nat, amount: nat)
    requires id < |d.requests|
    ensures var sent := SendRefund(d, id, amount);
            sent.0.order == d.order && sent.0.payment == d.payment &&
            sent.0.refunds ==
              if sent.1 == Ok then d.refunds + [Refund(amount, RefundPending, None, Some(id))] else d.refunds
    ensures SendRefund(d, id, amount).1 == Ok ==> amount > 0 && Committed(d) + amount <= Captured(d.order)
  {}

  lemma ApproveRefundRefunds(d: Db, id: nat)
    ensures RefundStep(d, ApproveRefund(d, id).0, None)
  {
    if id < |d.requests| && d.requests[id].status == Inspection && Total(d, id) > 0 {
      var approved := With(d, id, ReturnRequest(RefundApproved, Close(d.requests[id].items), ShippingDue(d, id)));
      SendRefunds(approved, id, Total(d, id));
      assert Committed(approved) == Committed(d);
    }
  }

  lemma RetryRefunds(d: Db, id: nat)
    ensures RefundStep(d, RetryRefund(d, id).0, None)
  {
    if id < |d.requests| && d.requests[id].status == RefundApproved {
      var outstanding := Total(d, id) - Sum(d.refunds, NotFailedFor(id));
      if outstanding > 0 { SendRefunds(d, id, outstanding); }
    }
  }

  lemma AnswerRefunds(d: Db, r: nat, answer: Answer)
    requires Shape(d)
    ensures RefundStep(d, ProviderAnswers(d, r, answer), None)
  {
    if r < |d.calls| && d.calls[r] == Waiting {
      assert CallShape(d.refunds[r], Waiting);
      var next := ProviderAnswers(d, r, answer);
      if answer == Threw {
        var over := WithCall(d, r, Finished);
        SettleRefunds(over, r, Declined);
        SameRows(d, over, next, None);
      } else {
        assert Rewritten(d, next, r) && Advances(d, next, r, None);
      }
    }
  }

  lemma SettlementRefunds(d: Db, e: Event)
    requires Shape(d) && (e.ESettleAnswer? || e.EWebhook?)
    ensures RefundStep(d, Step(d, e), ConfirmedBy(d, e))
  {
    match e
    case ESettleAnswer(r) =>
      if r < |d.calls| && d.calls[r].Answered? {
        assert CallShape(d.refunds[r], d.calls[r]);
        SettleRefunds(WithCall(d, r, Finished), r, d.calls[r].verdict);
        SameRows(d, WithCall(d, r, Finished), Step(d, e), ConfirmedBy(d, e));
      }
    case EWebhook(p, verdict) =>
      var r := Find(d.refunds, p);
      if verdict != Undecided && r < |d.refunds| {
        assert CallShape(d.refunds[r], d.calls[r]);
        SettleRefunds(d, r, verdict);
      }
  }

  lemma StepRefunds(d: Db, e: Event)
    requires Shape(d)
    ensures RefundStep(d, Step(d, e), ConfirmedBy(d, e))
  {
    match e
    case EApproveRefund(id) => ApproveRefundRefunds(d, id);
    case ERetryRefund(id) => RetryRefunds(d, id);
    case EProviderAnswers(r, answer) => AnswerRefunds(d, r, answer);
    case ESettleAnswer(_) => SettlementRefunds(d, e);
    case EWebhook(_, _) => SettlementRefunds(d, e);
    case _ =>
  }

  // ---------- never refund more than was captured ----------

  predicate WithinCaptured(d: Db) { Committed(d) <= Captured(d.order) }

  lemma WithinCapturedStep(d: Db, e: Event)
    requires Shape(d) && WithinCaptured(d) && H2(d, e)
    ensures WithinCaptured(Step(d, e))
  {
    StepRefunds(d, e);
    var next := Step(d, e);
    if Added(d, next) {
      SumAppend(d.refunds, next.refunds[|d.refunds|], ActiveAmount);
    } else if r: nat :| Rewritten(d, next, r) && Advances(d, next, r, ConfirmedBy(d, e)) {
      SumUpdate(d.refunds, r, next.refunds[r], ActiveAmount);
    }
  }

  /** In every reachable state the pending, sent and processed refunds together stay within the captured
      payment, with return refunds and direct refunds, replies and webhooks mixed freely. */
  lemma {:induction false} NeverOverRefunded(d: Db, es: seq<Event>)
    requires Shape(d) && WithinCaptured(d) && Along(d, es, H2)
    ensures WithinCaptured(Run(d, es))
    decreases |es|
  {
    if es != [] {
      ShapeStep(d, es[0]);
      WithinCapturedStep(d, es[0]);
      NeverOverRefunded(Step(d, es[0]), es[1..]);
    }
  }

  /** Exactly when confirming a refund keeps the order within its captured payment. */
  lemma ConfirmWithinCapturedIff(d: Db, r: nat)
    requires r < |d.refunds| && WithinCaptured(d)
    ensures WithinCaptured(Settle(d, r, Confirmed)) <==>
              (d.refunds[r].status == Failed || d.refunds[r].status == RefundCancelled ==>
                 Committed(d) + d.refunds[r].amount <= Captured(d.order))
  {
    SumUpdate(d.refunds, r, d.refunds[r].(status := Processed), ActiveAmount);
  }

  // ---------- settlement ----------

  /** The payment status is decided by the confirmed refunds alone: PAID while there are none, REFUNDED once they reach
      the captured amount, PARTIALLY_REFUNDED in between. */
  predicate PaymentFollows(d: Db) {
    var confirmed, captured := Sum(d.refunds, ProcessedAmount), Captured(d.order);
    && d.payment in {Paid, PartiallyRefunded, Refunded}
    && (d.payment == Paid <==> confirmed == 0)
    && (d.payment == PartiallyRefunded <==> 0 < confirmed < captured)
    && (d.payment == Refunded <==> confirmed > 0 && confirmed >= captured)
  }

  lemma AddedFollows(d: Db, next: Db)
    requires PaymentFollows(d) && next.order == d.order && Added(d, next)
    ensures PaymentFollows(next)
  {
    SumAppend(d.refunds, next.refunds[|d.refunds|], ProcessedAmount);
  }

  lemma RewrittenFollows(d: Db, next: Db, r: nat, confirmed: Option<nat>)
    requires PaymentFollows(d) && next.order == d.order && Rewritten(d, next, r) && Advances(d, next, r, confirmed)
    requires d.refunds[r].amount > 0
    ensures PaymentFollows(next)
  {
    SumUpdate(d.refunds, r, next.refunds[r], ProcessedAmount);
    SumNonNegative(next.refunds, ProcessedAmount);
    assert ProcessedAmount(next.refunds[r]) <= Sum(next.refunds, ProcessedAmount);
  }

  lemma PaymentFollowsStep(d: Db, e: Event)
    requires Shape(d) && PaymentFollows(d)
    ensures PaymentFollows(Step(d, e))
  {
    StepRefunds(d, e);
    var next := Step(d, e);
    if Added(d, next) {
      AddedFollows(d, next);
    } else if r: nat :| Rewritten(d, next, r) && Advances(d, next, r, ConfirmedBy(d, e)) {
      assert RefundShape(d, d.refunds[r]);
      RewrittenFollows(d, next, r, ConfirmedBy(d, e));
    }
  }

  /** From a paid order, under any run: PAID while nothing is confirmed, REFUNDED once the confirmed
      refunds reach the captured amount, PARTIALLY_REFUNDED in between. */
  lemma {:induction false} PaymentStatusIsProcessedSum(d: Db, es: seq<Event>)
    requires Shape(d) && PaymentFollows(d)
    ensures PaymentFollows(Run(d, es))
    decreases |es|
  {
    if es != [] {
      ShapeStep(d, es[0]);
      PaymentFollowsStep(d, es[0]);
      PaymentStatusIsProcessedSum(Step(d, es[0]), es[1..]);
    }
  }

  /** Some step of the run settles refund r as confirmed. */
  ghost predicate EverConfirmed(d: Db, es: seq<Event>, r: nat)
    decreases |es|
  {
    es != [] && (ConfirmedBy(d, es[0]) == Some(r) || EverConfirmed(Step(d, es[0]), es[1..], r))
  }

  lemma ConfirmedStep(d: Db, e: Event, r: nat)
    requires Shape(d) && r < |d.refunds|
    ensures r < |Step(d, e).refunds|
    ensures Step(d, e).refunds[r].amount == d.refunds[r].amount
            && Step(d, e).refunds[r].forReturn == d.refunds[r].forReturn
    ensures Step(d, e).refunds[r].status == Processed <==>
              d.refunds[r].status == Processed || ConfirmedBy(d, e) == Some(r)
  {
    StepRefunds(d, e);
    if ConfirmedBy(d, e) == Some(r) { ConfirmedSettles(d, e, r); }
  }

  lemma ConfirmedSettles(d: Db, e: Event, r: nat)
    requires Shape(d) && r < |d.refunds| && ConfirmedBy(d, e) == Some(r)
    ensures r < |Step(d, e).refunds| && Step(d, e).refunds[r].status == Processed
  {
    match e
    case ESettleAnswer(_) => var over := WithCall(d, r, Finished); assert Step(d, e) == Settle(over, r, Confirmed);
    case EWebhook(_, _) => assert Step(d, e) == Settle(d, r, Confirmed);
  }

  /** A refund ends processed exactly if it started so or some step confirmed it; duplicates, reordering and
      the unconditional write of the provider's reply make no difference, and its amount and return never
      change. */
  lemma {:induction false} ProcessedIffConfirmed(d: Db, es: seq<Event>, r: nat)
    requires Shape(d) && r < |d.refunds|
    ensures r < |Run(d, es).refunds|
    ensures Run(d, es).refunds[r].amount == d.refunds[r].amount
            && Run(d, es).refunds[r].forReturn == d.refunds[r].forReturn
    ensures Run(d, es).refunds[r].status == Processed <==> d.refunds[r].status == Processed || EverConfirmed(d, es, r)
    decreases |es|
  {
    if es != [] {
      ShapeStep(d, es[0]);
      ConfirmedStep(d, es[0], r);
      ProcessedIffConfirmed(Step(d, es[0]), es[1..], r);
    }
  }

  /** Settling one refund over and over. */
  function SettleAll(d: Db, r: nat, verdicts: seq<Verdict>): (next: Db)
    requires r < |d.refunds| && Undecided !in verdicts
    ensures |next.refunds| == |d.refunds|
    decreases |verdicts|
  {
    if verdicts == [] then d
    else
      SettleAll(Settle(d, r, verdicts[0]), r, verdicts[1..])
  }

  lemma {:induction false} SettleAllOutcome(d: Db, r: nat, verdicts: seq<Verdict>)
    requires r < |d.refunds| && Undecided !in verdicts
    ensures SettleAll(d, r, verdicts).refunds[r].status ==
              if d.refunds[r].status == Processed || Confirmed in verdicts then Processed
              else if verdicts == [] then d.refunds[r].status else Failed
    decreases |verdicts|
  {
    if verdicts != [] {
      assert verdicts == [verdicts[0]] + verdicts[1..];
      var next := Settle(d, r, verdicts[0]);
      SettleAllOutcome(next, r, verdicts[1..]);
      if verdicts[0] == Declined && Confirmed !in verdicts && verdicts[1..] != [] { assert verdicts[1] in verdicts; }
    }
  }

  // ---------- one open refund for one return ----------

  function ActiveFor(id: nat): Refund -> int {
    (f: Refund) => if f.forReturn == Some(id) && Active(f) then 1 else 0
  }

  function Opens(d: Db, id: nat): int { Sum(d.refunds, OpenFor(id)) }

  function Actives(d: Db, id: nat): int { Sum(d.refunds, ActiveFor(id)) }

  lemma OpensWithinActives(d: Db, id: nat)
    ensures 0 <= Opens(d, id) <= Actives(d, id)
  {
    SumLe(d.refunds, d.refunds, OpenFor(id), ActiveFor(id));
    SumNonNegative(d.refunds, OpenFor(id));
  }

  lemma ReserveOpens(d: Db, amount: nat, forReturn: Option<nat>, id: nat)
    ensures var sent := Reserve(d, amount, forReturn);
            Opens(sent.0, id) == Opens(d, id) + if sent.1 == Ok && forReturn == Some(id) then 1 else 0
  {
    SumAppend(d.refunds, Refund(amount, RefundPending, None, forReturn), OpenFor(id));
  }

  lemma ReserveActives(d: Db, amount: nat, forReturn: Option<nat>, id: nat)
    ensures var sent := Reserve(d, amount, forReturn);
            Actives(sent.0, id) == Actives(d, id) + if sent.1 == Ok && forReturn == Some(id) then 1 else 0
  {
    SumAppend(d.refunds, Refund(amount, RefundPending, None, forReturn), ActiveFor(id));
  }

  lemma ReservePayouts(d: Db, amount: nat, forReturn: Option<nat>, id: nat)
    ensures var sent := Reserve(d, amount, forReturn);
            var one := if sent.1 == Ok && forReturn == Some(id) then 1 else 0;
            sent.0.requests == d.requests && Opens(sent.0, id) == Opens(d, id) + one
                && Actives(sent.0, id) == Actives(d, id) + one
  {
    ReserveOpens(d, amount, forReturn, id);
    ReserveActives(d, amount, forReturn, id);
  }

  lemma RewritePayouts(d: Db, r: nat, f: Refund, id: nat)
    requires r < |d.refunds| && f.forReturn == d.refunds[r].forReturn
    ensures var next := WithRefund(d, r, f);
            Opens(next, id) == Opens(d, id) - OpenFor(id)(d.refunds[r]) + OpenFor(id)(f) &&
            Actives(next, id) == Actives(d, id) - ActiveFor(id)(d.refunds[r]) + ActiveFor(id)(f)
  {
    SumUpdate(d.refunds, r, f, OpenFor(id));
    SumUpdate(d.refunds, r, f, ActiveFor(id));
  }

  /** The steps before a refund: they touch no refund, and no return at or past its refund. */
  predicate Quiet(d: Db, next: Db) {
    && next.order == d.order && next.refunds == d.refunds && next.payment == d.payment && next.status == d.status
    && |next.requests| == |d.requests|
    && forall id :: 0 <= id < |d.requests| ==>
         next.requests[id] == d.requests[id] || (!PastInspection(d.requests[id]) && !PastInspection(next.requests[id]))
  }

  lemma QuietStep(d: Db, e: Event)
    requires e.ECancel? || e.EApprove? || e.EReject? || e.ESchedulePickup? || e.EMarkPickedUp? || e.EReceive?
          || e.EStartInspection? || e.EInspectItem?
    ensures Quiet(d, Step(d, e))
  {}

  /** A return that is being refunded has exactly one open refund, any other return has none. */
  predicate OneOpen(d: Db) {
    forall id :: 0 <= id < |d.requests| ==> OpenOk(d.requests[id].status, Opens(d, id))
  }

  predicate OpenOk(status: RequestStatus, opens: int) { opens == if status == RefundProcessing then 1 else 0 }

  lemma OpenIsProcessing(d: Db, r: nat)
    requires OneOpen(d) && r < |d.refunds| && Open(d.refunds[r]) && RefundShape(d, d.refunds[r])
    ensures d.refunds[r].forReturn.Some? ==>
              d.requests[d.refunds[r].forReturn.value].status == RefundProcessing
                  && Opens(d, d.refunds[r].forReturn.value) == 1
  {
    if d.refunds[r].forReturn.Some? {
      var id := d.refunds[r].forReturn.value;
      SumNonNegative(d.refunds, OpenFor(id));
      assert OpenFor(id)(d.refunds[r]) == 1 && OpenOk(d.requests[id].status, Opens(d, id));
    }
  }

  lemma SendOpens(d: Db, id: nat, amount: nat)
    requires OneOpen(d) && id < |d.requests| && d.requests[id].status == RefundApproved
    ensures OneOpen(SendRefund(d, id, amount).0)
  {
    var next := SendRefund(d, id, amount).0;
    forall j | 0 <= j < |d.requests| ensures OpenOk(next.requests[j].status, Opens(next, j)) {
      ReserveOpens(SetStatus(d, id, RefundProcessing), amount, Some(id), j);
      assert OpenOk(d.requests[j].status, Opens(d, j));
    }
  }

  lemma ApproveRefundOpens(d: Db, id: nat)
    requires OneOpen(d)
    ensures OneOpen(ApproveRefund(d, id).0)
  {
    if id < |d.requests| && d.requests[id].status == Inspection {
      var approved := With(d, id, ReturnRequest(RefundApproved, Close(d.requests[id].items), ShippingDue(d, id)));
      assert OneOpen(approved) by {
        forall j | 0 <= j < |d.requests| ensures OpenOk(approved.requests[j].status, Opens(approved, j)) {
          assert OpenOk(d.requests[j].status, Opens(d, j));
        }
      }
      if Total(d, id) > 0 {
        SendOpens(approved, id, Total(d, id));
      } else {
        MovedOpens(approved, id, Completed);
      }
    }
  }

  lemma MovedOpens(d: Db, id: nat, to: RequestStatus)
    requires OneOpen(d) && id < |d.requests| && d.requests[id].status != RefundProcessing && to != RefundProcessing
    ensures OneOpen(SetStatus(d, id, to)) && OneOpen(SettleOrderStatus(SetStatus(d, id, to)))
  {
    forall j | 0 <= j < |d.requests| ensures OpenOk(SetStatus(d, id, to).requests[j].status, Opens(d, j)) {
      assert OpenOk(d.requests[j].status, Opens(d, j));
    }
  }

  lemma RetryOpens(d: Db, id: nat)
    requires OneOpen(d)
    ensures OneOpen(RetryRefund(d, id).0)
  {
    if id < |d.requests| && d.requests[id].status == RefundApproved {
      var outstanding := Total(d, id) - Sum(d.refunds, NotFailedFor(id));
      if outstanding > 0 { SendOpens(d, id, outstanding); }
    }
  }

  /** A late confirmation closes a return that has no refund open, and leaves one that is being refunded. */
  lemma SettleOpens(d: Db, r: nat, verdict: Verdict)
    requires OneOpen(d) && r < |d.refunds| && verdict != Undecided && RefundShape(d, d.refunds[r])
    requires d.refunds[r].status != RefundCancelled
    ensures OneOpen(Settle(d, r, verdict))
  {
    var refund := d.refunds[r];
    if !SettleIgnored(refund.status, verdict) {
      var settled := refund.(status := SettledAs(verdict));
      var next := Settle(d, r, verdict);
      assert next.refunds == d.refunds[r := settled];
      if Open(refund) { OpenIsProcessing(d, r); }
      forall id | 0 <= id < |d.requests| ensures OpenOk(next.requests[id].status, Opens(next, id)) {
        SumUpdate(d.refunds, r, settled, OpenFor(id));
        assert OpenOk(d.requests[id].status, Opens(d, id));
      }
    }
  }

  lemma AnswerOpens(d: Db, r: nat, answer: Answer)
    requires Shape(d) && OneOpen(d)
    ensures OneOpen(ProviderAnswers(d, r, answer))
  {
    if r < |d.calls| && d.calls[r] == Waiting {
      assert RefundShape(d, d.refunds[r]) && CallShape(d.refunds[r], Waiting);
      if answer == Threw {
        SettleOpens(WithCall(d, r, Finished), r, Declined);
      } else {
        var next := ProviderAnswers(d, r, answer);
        forall id | 0 <= id < |d.requests| ensures OpenOk(next.requests[id].status, Opens(next, id)) {
          SumUpdate(d.refunds, r, next.refunds[r], OpenFor(id));
          assert OpenOk(d.requests[id].status, Opens(d, id));
        }
      }
    }
  }

  lemma SettleAnswerOpens(d: Db, r: nat)
    requires Shape(d) && OneOpen(d)
    ensures OneOpen(SettleAnswer(d, r))
  {
    if r < |d.calls| && d.calls[r].Answered? {
      assert RefundShape(d, d.refunds[r]) && CallShape(d.refunds[r], d.calls[r]);
      SettleOpens(WithCall(d, r, Finished), r, d.calls[r].verdict);
    }
  }

  lemma WebhookOpens(d: Db, p: nat, verdict: Verdict)
    requires Shape(d) && OneOpen(d)
    ensures OneOpen(Webhook(d, p, verdict))
  {
    var r := Find(d.refunds, p);
    if verdict != Undecided && r < |d.refunds| {
      assert RefundShape(d, d.refunds[r]) && CallShape(d.refunds[r], d.calls[r]);
      SettleOpens(d, r, verdict);
    }
  }

  lemma CreateOpens(d: Db, asks: seq<Ask>, now: int)
    requires Shape(d) && OneOpen(d)
    ensures OneOpen(Create(d, asks, now).0)
  {
    var id := |d.requests|;
    forall r | 0 <= r < |d.refunds| ensures OpenFor(id)(d.refunds[r]) == 0 {
      assert RefundShape(d, d.refunds[r]);
    }
    SumZero(d.refunds, OpenFor(id));
  }

  lemma QuietOpens(d: Db, next: Db)
    requires OneOpen(d) && Quiet(d, next)
    ensures OneOpen(next)
  {
    forall id | 0 <= id < |d.requests| ensures OpenOk(next.requests[id].status, Opens(next, id)) {
      assert OpenOk(d.requests[id].status, Opens(d, id));
    }
  }

  lemma RefundOrderOpens(d: Db, amount: nat)
    requires OneOpen(d)
    ensures OneOpen(RefundOrder(d, amount).0)
  {
    var next := RefundOrder(d, amount).0;
    forall id | 0 <= id < |d.requests| ensures OpenOk(next.requests[id].status, Opens(next, id)) {
      ReserveOpens(d, amount, None, id);
    }
  }

  lemma OneOpenStep(d: Db, e: Event)
    requires Shape(d) && OneOpen(d)
    ensures OneOpen(Step(d, e))
  {
    match e
    case ECreate(asks, now) => CreateOpens(d, asks, now);
    case EApproveRefund(id) => ApproveRefundOpens(d, id);
    case ERetryRefund(id) => RetryOpens(d, id);
    case ERefundOrder(amount) => RefundOrderOpens(d, amount);
    case EProviderAnswers(r, answer) => AnswerOpens(d, r, answer);
    case ESettleAnswer(r) => SettleAnswerOpens(d, r);
    case EWebhook(p, verdict) => WebhookOpens(d, p, verdict);
    case _ => QuietStep(d, e); QuietOpens(d, Step(d, e));
  }

  /** Whatever providers answer and however late, REFUND_PROCESSING means exactly one open refund, and no other
      status has one. */
  lemma {:induction false} OneOpenRun(d: Db, es: seq<Event>)
    requires Shape(d) && OneOpen(d)
    ensures Shape(Run(d, es)) && OneOpen(Run(d, es)) && Run(d, es).order == d.order
    decreases |es|
  {
    if es != [] {
      ShapeStep(d, es[0]);
      OneOpenStep(d, es[0]);
      StepRefunds(d, es[0]);
      OneOpenRun(Step(d, es[0]), es[1..]);
    }
  }

  // ---------- settlement is confluent ----------

  /** A failure first makes no difference to a confirmation: not to the refund, the payment, the return or the
      order. */
  lemma ConfirmedAfterDeclined(d: Db, r: nat)
    requires OneOpen(d) && r < |d.refunds| && RefundShape(d, d.refunds[r]) && d.refunds[r].status != RefundCancelled
    ensures Settle(Settle(d, r, Declined), r, Confirmed) == Settle(d, r, Confirmed)
  {
    var refund := d.refunds[r];
    if Open(refund) {
      var failed, confirmed := refund.(status := Failed), refund.(status := Processed);
      OpenIsProcessing(d, r);
      assert d.refunds[r := failed][r := confirmed] == d.refunds[r := confirmed];
      if refund.forReturn.Some? {
        var id := refund.forReturn.value;
        SumUpdate(d.refunds, r, confirmed, OpenFor(id));
        var row := d.requests[id];
        assert d.requests[id := row.(status := RefundApproved)][id := row.(status := Completed)]
            == d.requests[id := row.(status := Completed)];
      }
    }
  }

  lemma {:induction false} DeliveriesIgnored(d: Db, r: nat, verdicts: seq<Verdict>)
    requires r < |d.refunds| && Undecided !in verdicts
    requires forall k :: 0 <= k < |verdicts| ==> SettleIgnored(d.refunds[r].status, verdicts[k])
    ensures SettleAll(d, r, verdicts) == d
    decreases |verdicts|
  {
    if verdicts != [] {
      var rest := verdicts[1..];
      assert forall k :: 0 <= k < |rest| ==> rest[k] == verdicts[k + 1];
      DeliveriesIgnored(d, r, rest);
    }
  }

  /** The rows after any deliveries for one refund: confirmed once if one of them was a confirmation, else
      declined once. */
  lemma {:induction false} SettleAllIs(d: Db, r: nat, verdicts: seq<Verdict>)
    requires OneOpen(d) && r < |d.refunds| && RefundShape(d, d.refunds[r]) && d.refunds[r].status != RefundCancelled
    requires Undecided !in verdicts
    ensures SettleAll(d, r, verdicts) ==
              if Confirmed in verdicts then Settle(d, r, Confirmed)
              else if verdicts == [] then d else Settle(d, r, Declined)
    decreases |verdicts|
  {
    if verdicts != [] {
      assert verdicts == [verdicts[0]] + verdicts[1..];
      var next := Settle(d, r, verdicts[0]);
      if verdicts[0] == Confirmed {
        DeliveriesIgnored(next, r, verdicts[1..]);
      } else if Confirmed !in verdicts {
        forall k | 0 <= k < |verdicts[1..]| ensures verdicts[1..][k] == Declined { assert verdicts[k + 1] in verdicts; }
        DeliveriesIgnored(next, r, verdicts[1..]);
      } else {
        SettleOpens(d, r, Declined);
        SettleFrame(d, r, Declined);
        SettleAllIs(next, r, verdicts[1..]);
        ConfirmedAfterDeclined(d, r);
      }
    }
  }

  /** Confluence: two deliveries of the same verdicts for one refund, in any order and with any repeats, leave
      the same rows: the refund, the payment, the return and the order. */
  lemma SettlementConfluent(d: Db, r: nat, a: seq<Verdict>, b: seq<Verdict>)
    requires Shape(d) && OneOpen(d) && r < |d.refunds|
    requires Undecided !in a && forall v :: v in a <==> v in b
    ensures SettleAll(d, r, a) == SettleAll(d, r, b)
  {
    assert RefundShape(d, d.refunds[r]) && CallShape(d.refunds[r], d.calls[r]);
    SettleAllIs(d, r, a);
    SettleAllIs(d, r, b);
    assert (a == []) == (b == []) by {
      if a != [] { assert a[0] in a; }
      if b != [] { assert b[0] in b; }
    }
  }

  // ---------- one payment for one return ----------

  /** Being refunded means exactly one refund, and it is open; approved for refund means none is open or
      processed; completed means nothing is open any more and at most one refund was paid. */
  predicate PayoutOk(status: RequestStatus, opens: int, actives: int) {
    match status
    case RefundProcessing => opens == 1 && actives == 1
    case Completed => opens == 0 && actives <= 1
    case _ => actives == 0
  }

  predicate OnePayout(d: Db) {
    forall id :: 0 <= id < |d.requests| ==> PayoutOk(d.requests[id].status, Opens(d, id), Actives(d, id))
  }

  lemma OnePayoutOpens(d: Db)
    requires OnePayout(d)
    ensures OneOpen(d)
  {
    forall id | 0 <= id < |d.requests| ensures OpenOk(d.requests[id].status, Opens(d, id)) {
      assert PayoutOk(d.requests[id].status, Opens(d, id), Actives(d, id));
      OpensWithinActives(d, id);
    }
  }

  lemma SendPayouts(d: Db, id: nat, amount: nat)
    requires OnePayout(d) && id < |d.requests| && d.requests[id].status == RefundApproved
    ensures OnePayout(SendRefund(d, id, amount).0)
  {
    var next := SendRefund(d, id, amount).0;
    forall j | 0 <= j < |d.requests| ensures PayoutOk(next.requests[j].status, Opens(next, j), Actives(next, j)) {
      ReservePayouts(SetStatus(d, id, RefundProcessing), amount, Some(id), j);
      OpensWithinActives(d, j);
    }
  }

  lemma ApproveRefundPayouts(d: Db, id: nat)
    requires OnePayout(d)
    ensures OnePayout(ApproveRefund(d, id).0)
  {
    if id < |d.requests| && d.requests[id].status == Inspection {
      var approved := With(d, id, ReturnRequest(RefundApproved, Close(d.requests[id].items), ShippingDue(d, id)));
      assert OnePayout(approved);
      if Total(d, id) > 0 { SendPayouts(approved, id, Total(d, id)); } else { OpensWithinActives(d, id); }
    }
  }

  lemma RetryPayouts(d: Db, id: nat)
    requires OnePayout(d)
    ensures OnePayout(RetryRefund(d, id).0)
  {
    if id < |d.requests| && d.requests[id].status == RefundApproved {
      var outstanding := Total(d, id) - Sum(d.refunds, NotFailedFor(id));
      if outstanding > 0 { SendPayouts(d, id, outstanding); }
    }
  }

  /** An open refund's return is being refunded by that refund alone. */
  lemma OpenMeansProcessing(d: Db, r: nat)
    requires OnePayout(d) && r < |d.refunds| && Open(d.refunds[r]) && RefundShape(d, d.refunds[r])
    ensures d.refunds[r].forReturn.Some? ==>
              var id := d.refunds[r].forReturn.value;
              d.requests[id].status == RefundProcessing && Opens(d, id) == 1 == Actives(d, id)
  {
    if d.refunds[r].forReturn.Some? {
      var id := d.refunds[r].forReturn.value;
      SumNonNegative(d.refunds, OpenFor(id));
      assert OpenFor(id)(d.refunds[r]) == 1;
      OpensWithinActives(d, id);
    }
  }

  lemma SettlePayouts(d: Db, r: nat, verdict: Verdict)
    requires OnePayout(d) && r < |d.refunds| && verdict != Undecided && RefundShape(d, d.refunds[r])
    requires d.refunds[r].status != RefundCancelled
    requires verdict == Confirmed ==> d.refunds[r].status != Failed
    ensures OnePayout(Settle(d, r, verdict))
  {
    var refund := d.refunds[r];
    if !SettleIgnored(refund.status, verdict) {
      var settled := refund.(status := SettledAs(verdict));
      var next := Settle(d, r, verdict);
      OpenMeansProcessing(d, r);
      assert next.refunds == d.refunds[r := settled];
      forall id | 0 <= id < |d.requests|
        ensures PayoutOk(next.requests[id].status, Opens(next, id), Actives(next, id))
      {
        RewritePayouts(d, r, settled, id);
      }
    }
  }

  lemma AnswerPayouts(d: Db, r: nat, answer: Answer)
    requires Shape(d) && OnePayout(d)
    ensures OnePayout(ProviderAnswers(d, r, answer))
  {
    if r < |d.calls| && d.calls[r] == Waiting {
      assert RefundShape(d, d.refunds[r]) && CallShape(d.refunds[r], Waiting);
      if answer == Threw {
        SettlePayouts(WithCall(d, r, Finished), r, Declined);
      } else {
        var next := ProviderAnswers(d, r, answer);
        forall id | 0 <= id < |d.requests|
          ensures PayoutOk(next.requests[id].status, Opens(next, id), Actives(next, id))
        {
          RewritePayouts(d, r, next.refunds[r], id);
        }
      }
    }
  }

  lemma SettlementPayouts(d: Db, e: Event)
    requires Shape(d) && OnePayout(d) && H2(d, e) && (e.ESettleAnswer? || e.EWebhook?)
    ensures OnePayout(Step(d, e))
  {
    match e
    case ESettleAnswer(r) =>
      if r < |d.calls| && d.calls[r].Answered? {
        assert RefundShape(d, d.refunds[r]) && CallShape(d.refunds[r], d.calls[r]);
        SettlePayouts(WithCall(d, r, Finished), r, d.calls[r].verdict);
      }
    case EWebhook(p, verdict) =>
      var r := Find(d.refunds, p);
      if verdict != Undecided && r < |d.refunds| {
        assert RefundShape(d, d.refunds[r]) && CallShape(d.refunds[r], d.calls[r]);
        SettlePayouts(d, r, verdict);
      }
  }

  lemma CreatePayouts(d: Db, asks: seq<Ask>, now: int)
    requires Shape(d) && OnePayout(d)
    ensures OnePayout(Create(d, asks, now).0)
  {
    var id := |d.requests|;
    forall r | 0 <= r < |d.refunds| ensures ActiveFor(id)(d.refunds[r]) == 0 {
      assert RefundShape(d, d.refunds[r]);
    }
    SumZero(d.refunds, ActiveFor(id));
  }

  lemma QuietPayouts(d: Db, next: Db)
    requires OnePayout(d) && Quiet(d, next)
    ensures OnePayout(next)
  {
    forall id | 0 <= id < |d.requests| ensures PayoutOk(next.requests[id].status, Opens(next, id), Actives(next, id)) {
      assert PayoutOk(d.requests[id].status, Opens(d, id), Actives(d, id));
    }
  }

  lemma OnePayoutStep(d: Db, e: Event)
    requires Shape(d) && OnePayout(d) && H2(d, e)
    ensures OnePayout(Step(d, e))
  {
    match e
    case ECreate(asks, now) => CreatePayouts(d, asks, now);
    case EApproveRefund(id) => ApproveRefundPayouts(d, id);
    case ERetryRefund(id) => RetryPayouts(d, id);
    case ERefundOrder(amount) =>
      forall id | 0 <= id < |d.requests|
        ensures PayoutOk(Step(d, e).requests[id].status, Opens(Step(d, e), id), Actives(Step(d, e), id))
      {
        ReservePayouts(d, amount, None, id);
      }
    case EProviderAnswers(r, answer) => AnswerPayouts(d, r, answer);
    case ESettleAnswer(_) => SettlementPayouts(d, e);
    case EWebhook(_, _) => SettlementPayouts(d, e);
    case _ => QuietStep(d, e); QuietPayouts(d, Step(d, e));
  }

  /** A return pays out once, after any number of failed attempts and retries. */
  lemma {:induction false} PaysOutOnce(d: Db, es: seq<Event>)
    requires Shape(d) && OnePayout(d) && Along(d, es, H2)
    ensures OnePayout(Run(d, es))
    decreases |es|
  {
    if es != [] {
      ShapeStep(d, es[0]);
      OnePayoutStep(d, es[0]);
      PaysOutOnce(Step(d, es[0]), es[1..]);
    }
  }
}
