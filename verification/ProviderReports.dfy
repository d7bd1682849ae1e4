/**
 From a provider's words to the final rows: what a reply or a webhook says of a refund, and what becomes of the
 refund, its return and the order's payment. The words and event types are written out here.
 */
module ProviderReports {
  import opened Prelude
  import opened ReturnRules
  import opened ReturnFlow
  import opened ReturnSafety
  import opened RefundSafety

  // ---------- the words ----------

  predicate SaysPaid(status: string) { SameWord(status, "succeeded") || SameWord(status, "completed") }

  predicate SaysFailed(status: string) {
    || SameWord(status, "failed") || SameWord(status, "denied")
    || SameWord(status, "canceled") || SameWord(status, "cancelled")
  }

  lemma LowerSpells(text: string, word: string)
    requires forall i :: 0 <= i < |word| ==> 'a' <= word[i] <= 'z'
    ensures Lower(text) == word <==> SameWord(text, word)
  {
    assert Lower(word) == word;
    LowerSame(text, word);
  }

  /** Six words decide, whatever their letter case; every other status leaves the refund open. */
  lemma WordsDecide(status: string)
    ensures RefundOutcome(status) == Confirmed <==> SaysPaid(status)
    ensures RefundOutcome(status) == Declined <==> SaysFailed(status)
  {
    LowerSpells(status, "succeeded");
    LowerSpells(status, "completed");
    LowerSpells(status, "failed");
    LowerSpells(status, "canceled");
    LowerSpells(status, "cancelled");
    LowerSpells(status, "denied");
  }

  // ---------- the provider's answer to the call ----------

  function StatusSaid(status: string): RefundStatus {
    if SaysPaid(status) then Processed else if SaysFailed(status) then Failed else RefundSent
  }

  /** An answer, once recorded and settled, leaves the refund as the provider's word says, findable by its id. */
  lemma ReplySettles(d: Db, r: nat, providerRefundId: nat, status: string)
    requires Shape(d) && r < |d.calls| && d.calls[r] == Waiting
    ensures var end := SettleAnswer(ProviderAnswers(d, r, Replied(providerRefundId, status)), r);
            end.refunds == d.refunds[r := d.refunds[r].(
              providerRefundId := Some(providerRefundId), status := StatusSaid(status))]
  {
    WordsDecide(status);
    assert CallShape(d.refunds[r], d.calls[r]);
  }

  /** A call that throws fails the refund; without an online provider it is done at once. */
  lemma OtherAnswersSettle(d: Db, r: nat)
    requires Shape(d) && r < |d.calls| && d.calls[r] == Waiting
    ensures ProviderAnswers(d, r, Threw).refunds == d.refunds[r := d.refunds[r].(status := Failed)]
    ensures SettleAnswer(ProviderAnswers(d, r, Offline), r).refunds ==
              d.refunds[r := d.refunds[r].(status := Processed)]
  {
    assert CallShape(d.refunds[r], d.calls[r]);
  }

  function ReturnAfter(status: RefundStatus): RequestStatus {
    if status == Processed then Completed else if status == Failed then RefundApproved else RefundProcessing
  }

  /** The return follows its refund: completed when it is paid, back for a retry when it failed, else still waiting. */
  lemma ReplyMovesReturn(d: Db, r: nat, providerRefundId: nat, status: string)
    requires Shape(d) && OneOpen(d) && r < |d.calls| && d.calls[r] == Waiting && d.refunds[r].forReturn.Some?
    ensures var id := d.refunds[r].forReturn.value;
            var end := SettleAnswer(ProviderAnswers(d, r, Replied(providerRefundId, status)), r);
            && id < |d.requests|
            && end.requests == d.requests[id := d.requests[id].(status := ReturnAfter(StatusSaid(status)))]
  {
    WordsDecide(status);
    assert RefundShape(d, d.refunds[r]) && CallShape(d.refunds[r], d.calls[r]);
    var id := d.refunds[r].forReturn.value;
    OpenIsProcessing(d, r);
    var sent := d.refunds[r].(status := RefundSent, providerRefundId := Some(providerRefundId));
    SumUpdate(d.refunds, r, sent, OpenFor(id));
    SumUpdate(d.refunds[r := sent], r, sent.(status := Processed), OpenFor(id));
    assert d.requests[id := d.requests[id]] == d.requests;
  }

  // ---------- webhooks ----------

  function RefundNamed(notice: Notice): Option<nat> {
    match notice
    case StripeNotice(_, refund, _) => Some(refund)
    case PaypalNotice(_, refund, _) => refund
  }

  predicate NoticeSaysPaid(notice: Notice) {
    match notice
    case StripeNotice(eventType, _, status) =>
      eventType in {"refund.updated", "charge.refund.updated"} && status.Some? && SaysPaid(status.value)
    case PaypalNotice(eventType, _, status) =>
      eventType == "PAYMENT.CAPTURE.REFUNDED" && (status.Some? ==> SaysPaid(status.value))
  }

  predicate NoticeSaysFailed(notice: Notice) {
    match notice
    case StripeNotice(eventType, _, status) =>
      || eventType == "refund.failed"
      || (eventType in {"refund.updated", "charge.refund.updated"} && status.Some? && SaysFailed(status.value))
    case PaypalNotice(eventType, _, status) =>
      eventType == "PAYMENT.CAPTURE.REFUNDED" && status.Some? && SaysFailed(status.value)
  }

  lemma NoticeDecides(notice: Notice)
    ensures NoticeVerdict(notice) == Confirmed <==> NoticeSaysPaid(notice)
    ensures NoticeVerdict(notice) == Declined <==> NoticeSaysFailed(notice)
  {
    assert SameWord("COMPLETED", "completed");
    WordsDecide("COMPLETED");
    WordsDecide("");
    match notice
    case StripeNotice(_, _, status) => if status.Some? { WordsDecide(status.value); }
    case PaypalNotice(_, _, status) => if status.Some? { WordsDecide(status.value); }
  }

  /** The first refund that carries the id the notice names. */
  predicate IsAbout(d: Db, notice: Notice, r: nat)
    requires r < |d.refunds|
  {
    && RefundNamed(notice).Some? && d.refunds[r].providerRefundId == RefundNamed(notice)
    && forall j :: 0 <= j < r ==> d.refunds[j].providerRefundId != RefundNamed(notice)
  }

  /** Exactly what a notice does to every refund: paid for good once a notice says so, failed when one says that and it
      is not paid, and otherwise as it was. */
  lemma NoticeSettles(d: Db, notice: Notice, r: nat)
    requires r < |d.refunds|
    ensures |Receipt(d, notice).refunds| == |d.refunds|
    ensures Receipt(d, notice).refunds[r] == d.refunds[r].(status :=
              if !IsAbout(d, notice, r) || d.refunds[r].status == Processed then d.refunds[r].status
              else if NoticeSaysPaid(notice) then Processed
              else if NoticeSaysFailed(notice) then Failed
              else d.refunds[r].status)
  {
    NoticeDecides(notice);
    if RefundNamed(notice).Some? {
      var found := Find(d.refunds, RefundNamed(notice).value);
      assert IsAbout(d, notice, r) <==> found == r;
    }
  }

  // ---------- no refund is paid unless a provider said so ----------

  /** This step says that refund r is paid: the provider's answer to its call, or a confirmation of its id. */
  predicate SaidPaid(d: Db, e: Event, r: nat) {
    match e
    case EProviderAnswers(refund, answer) =>
      refund == r && (answer == Offline || (answer.Replied? && SaysPaid(answer.providerStatus)))
    case EWebhook(providerRefundId, verdict) =>
      verdict == Confirmed && r < |d.refunds| && d.refunds[r].providerRefundId == Some(providerRefundId)
    case _ => false
  }

  ghost predicate EverSaidPaid(d: Db, es: seq<Event>, r: nat)
    decreases |es|
  {
    es != [] && (SaidPaid(d, es[0], r) || EverSaidPaid(Step(d, es[0]), es[1..], r))
  }

  /** Paid already, or about to be settled as paid. */
  predicate PaidOrAnswered(d: Db, r: nat)
    requires |d.calls| == |d.refunds|
  {
    r < |d.refunds| && (d.refunds[r].status == Processed || d.calls[r] == Answered(Confirmed))
  }

  lemma ReserveAnswers(d: Db, amount: nat, forReturn: Option<nat>)
    ensures var next := Reserve(d, amount, forReturn).0;
            next.calls == d.calls || next.calls == d.calls + [Waiting]
  {}

  lemma ApprovalAnswers(d: Db, id: nat)
    ensures var next := ApproveRefund(d, id).0; next.calls == d.calls || next.calls == d.calls + [Waiting]
  {}

  lemma RetryAnswers(d: Db, id: nat)
    ensures var next := RetryRefund(d, id).0; next.calls == d.calls || next.calls == d.calls + [Waiting]
  {}

  lemma SettlementAnswers(d: Db, e: Event)
    requires e.ESettleAnswer? || e.EWebhook?
    ensures |Step(d, e).calls| == |d.calls|
    ensures forall r :: 0 <= r < |d.calls| ==> Step(d, e).calls[r] in {d.calls[r], Finished}
  {}

  lemma AnswerSaid(d: Db, k: nat, answer: Answer, r: nat)
    requires Shape(d) && r < |d.calls|
    requires ProviderAnswers(d, k, answer).calls[r] == Answered(Confirmed) && d.calls[r] != Answered(Confirmed)
    ensures SaidPaid(d, EProviderAnswers(k, answer), r)
  {
    if answer.Replied? { WordsDecide(answer.providerStatus); }
  }

  lemma CallAnswered(d: Db, e: Event, r: nat)
    requires Shape(d) && r < |Step(d, e).calls| && Step(d, e).calls[r] == Answered(Confirmed)
    ensures (r < |d.calls| && d.calls[r] == Answered(Confirmed)) || SaidPaid(d, e, r)
  {
    match e
    case EProviderAnswers(k, answer) =>
      if r < |d.calls| && d.calls[r] != Answered(Confirmed) { AnswerSaid(d, k, answer, r); }
    case EApproveRefund(id) => ApprovalAnswers(d, id);
    case ERetryRefund(id) => RetryAnswers(d, id);
    case ERefundOrder(amount) => ReserveAnswers(d, amount, None);
    case ESettleAnswer(_) => SettlementAnswers(d, e);
    case EWebhook(_, _) => SettlementAnswers(d, e);
    case _ =>
  }

  lemma NewRefundIsPending(d: Db, e: Event, r: nat)
    requires Shape(d) && |d.refunds| <= r < |Step(d, e).refunds|
    ensures Step(d, e).refunds[r].status != Processed
  {
    StepRefunds(d, e);
  }

  lemma PaidStep(d: Db, e: Event, r: nat)
    requires Shape(d) && Shape(Step(d, e)) && PaidOrAnswered(Step(d, e), r)
    ensures PaidOrAnswered(d, r) || SaidPaid(d, e, r)
  {
    if Step(d, e).calls[r] == Answered(Confirmed) { CallAnswered(d, e, r); }
    if Step(d, e).refunds[r].status == Processed {
      if r < |d.refunds| { ConfirmedStep(d, e, r); } else { NewRefundIsPending(d, e, r); }
    }
  }

  /** On every run of an order, a refund ends as paid only if some step said so: the provider's answer was one of its
      words for success, or a confirmation of the refund's id arrived. */
  lemma {:induction false} PaidOnlyIfSaid(d: Db, es: seq<Event>, r: nat)
    requires Shape(d) && r < |Run(d, es).refunds| && Run(d, es).refunds[r].status == Processed
    ensures PaidOrAnswered(d, r) || EverSaidPaid(d, es, r)
    decreases |es|
  {
    if es != [] {
      ShapeStep(d, es[0]);
      PaidOnlyIfSaid(Step(d, es[0]), es[1..], r);
      if PaidOrAnswered(Step(d, es[0]), r) { PaidStep(d, es[0], r); }
    }
  }

  // ---------- the order's payment ----------

  lemma RunOfThree(d: Db, e1: Event, d1: Db, e2: Event, d2: Db, e3: Event, d3: Db)
    requires Step(d, e1) == d1 && Step(d1, e2) == d2 && Step(d2, e3) == d3
    ensures Run(d, [e1, e2, e3]) == d3
  {
    assert [e1, e2, e3][1..] == [e2, e3] && [e2, e3][1..] == [e3] && [e3][1..] == [];
    assert Run(d3, []) == d3;
    assert Run(d2, [e3]) == d3;
    assert Run(d1, [e2, e3]) == d3;
  }

  lemma Reserved(d: Db, captured: nat, amount: nat)
    requires Fresh(d) && d.order.captured == Some(captured) && 0 < amount <= captured
    ensures Step(d, ERefundOrder(amount)) ==
              d.(refunds := [Refund(amount, RefundPending, None, None)], calls := [Waiting])
  {
    assert Committed(d) == 0;
  }

  lemma Heard(d: Db, refund: Refund, providerRefundId: nat, status: string)
    requires d.refunds == [refund] && d.calls == [Waiting] && refund.status == RefundPending && refund.forReturn.None?
    ensures var end := SettleAnswer(ProviderAnswers(d, 0, Replied(providerRefundId, status)), 0);
            && end.refunds == [refund.(status := StatusSaid(status), providerRefundId := Some(providerRefundId))]
            && end.payment == if !SaysPaid(status) then d.payment else PaymentAfter(Captured(d.order), refund.amount)
  {
    WordsDecide(status);
    var end := SettleAnswer(ProviderAnswers(d, 0, Replied(providerRefundId, status)), 0);
    assert end.refunds == [refund.(status := StatusSaid(status), providerRefundId := Some(providerRefundId))];
    SumSingle(end.refunds, 0, ProcessedAmount);
  }

  lemma HeardRun(d: Db, reserved: Db, reserve: Event, providerRefundId: nat, status: string)
    requires Step(d, reserve) == reserved
    ensures Run(d, [reserve, EProviderAnswers(0, Replied(providerRefundId, status)), ESettleAnswer(0)]) ==
              SettleAnswer(ProviderAnswers(reserved, 0, Replied(providerRefundId, status)), 0)
  {
    var answer := EProviderAnswers(0, Replied(providerRefundId, status));
    var answered := ProviderAnswers(reserved, 0, Replied(providerRefundId, status));
    var end := SettleAnswer(answered, 0);
    RunOfThree(d, reserve, reserved, answer, answered, ESettleAnswer(0), end);
  }

  /** From a paid order: refunding part or all of it and hearing the provider's word leaves PAID, PARTIALLY_REFUNDED or
      REFUNDED. */
  lemma RefundedOrder(d: Db, captured: nat, amount: nat, providerRefundId: nat, status: string)
    requires Fresh(d) && d.payment == Paid && d.order.captured == Some(captured) && 0 < amount <= captured
    ensures var answer := EProviderAnswers(0, Replied(providerRefundId, status));
            var end := Run(d, [ERefundOrder(amount), answer, ESettleAnswer(0)]);
            && end.refunds == [Refund(amount, StatusSaid(status), Some(providerRefundId), None)]
            && end.payment ==
               if !SaysPaid(status) then Paid else if amount == captured then Refunded else PartiallyRefunded
  {
    var reserved := d.(refunds := [Refund(amount, RefundPending, None, None)], calls := [Waiting]);
    Reserved(d, captured, amount);
    Heard(reserved, reserved.refunds[0], providerRefundId, status);
    HeardRun(d, reserved, ERefundOrder(amount), providerRefundId, status);
  }
}
