/**
 What each return has been paid, and for which attempt. A return may be sent for refund many times; it is paid by
 one of those attempts, the total calculated for it at that moment, or was closed because nothing was due.
 */
module Payouts {
  import opened Prelude
  import opened ReturnRules
  import opened ReturnFlow
  import opened ReturnSafety
  import opened RefundSafety
  import opened FullReturn

  function PaidForReturn(id: nat): Refund -> int {
    (f: Refund) => if f.forReturn == Some(id) && f.status == Processed then f.amount else 0
  }

  function PaidFor(d: Db, id: nat): int { Sum(d.refunds, PaidForReturn(id)) }

  lemma ProcessedIsNotOpen(d: Db, r: nat, id: nat)
    requires r < |d.refunds| && d.refunds[r].status == Processed && d.refunds[r].forReturn == Some(id)
    ensures Actives(d, id) > Opens(d, id)
    ensures Actives(d, id) == 1 ==> forall j :: 0 <= j < |d.refunds| && j != r ==> PaidForReturn(id)(d.refunds[j]) == 0
  {
    var dead := d.refunds[r].(status := Failed);
    RewritePayouts(d, r, dead, id);
    var without := WithRefund(d, r, dead);
    OpensWithinActives(without, id);
    SumNonNegative(without.refunds, ActiveFor(id));
    forall j | 0 <= j < |d.refunds| && j != r ensures Actives(d, id) == 1 ==> PaidForReturn(id)(d.refunds[j]) == 0 {
      assert ActiveFor(id)(without.refunds[j]) <= Actives(d, id) - 1;
    }
  }

  /** This step sends refund r for a return: its approval or a retry, for the total calculated at that moment. */
  predicate Sends(d: Db, e: Event, r: nat, id: nat, amount: int) {
    && (e == EApproveRefund(id) || e == ERetryRefund(id))
    && id < |d.requests| && r == |d.refunds| < |Step(d, e).refunds|
    && amount == Total(d, id) == Step(d, e).refunds[r].amount
  }

  ghost predicate EverSent(d: Db, es: seq<Event>, r: nat, id: nat, amount: int)
    decreases |es|
  {
    es != [] && (Sends(d, es[0], r, id, amount) || EverSent(Step(d, es[0]), es[1..], r, id, amount))
  }

  /** This step closes a return without a refund, because the total calculated for it is nothing. */
  predicate ClosesUnpaid(d: Db, e: Event, id: nat) {
    e == EApproveRefund(id) && id < |d.requests| && d.requests[id].status == Inspection && Total(d, id) <= 0
  }

  ghost predicate EverClosedUnpaid(d: Db, es: seq<Event>, id: nat)
    decreases |es|
  {
    es != [] && (ClosesUnpaid(d, es[0], id) || EverClosedUnpaid(Step(d, es[0]), es[1..], id))
  }

  lemma NewRefundIsSent(d: Db, e: Event, id: nat)
    requires Shape(d) && OnePayout(d) && |Step(d, e).refunds| > |d.refunds|
    requires Step(d, e).refunds[|d.refunds|].forReturn == Some(id)
    ensures Sends(d, e, |d.refunds|, id, Step(d, e).refunds[|d.refunds|].amount)
  {
    RefundSentIsTotal(d, e);
  }

  lemma AtMostOneNew(d: Db, e: Event)
    requires Shape(d)
    ensures |d.refunds| <= |Step(d, e).refunds| <= |d.refunds| + 1
  {
    StepRefunds(d, e);
  }

  lemma SentThenKept(d: Db, e: Event, es: seq<Event>, r: nat, id: nat)
    requires Shape(d) && OnePayout(d) && Shape(Step(d, e)) && |d.refunds| <= r < |Step(d, e).refunds|
    requires r < |Run(Step(d, e), es).refunds| && Run(Step(d, e), es).refunds[r].forReturn == Some(id)
    ensures Sends(d, e, r, id, Run(Step(d, e), es).refunds[r].amount)
  {
    AtMostOneNew(d, e);
    ProcessedIffConfirmed(Step(d, e), es, r);
    NewRefundIsSent(d, e, id);
  }

  /** Every refund of a return was sent for it by some step of the run, for the total of that step. */
  lemma {:induction false} RefundWasSent(d: Db, es: seq<Event>, r: nat, id: nat)
    requires Shape(d) && OnePayout(d) && Along(d, es, H2)
    requires |d.refunds| <= r < |Run(d, es).refunds| && Run(d, es).refunds[r].forReturn == Some(id)
    ensures EverSent(d, es, r, id, Run(d, es).refunds[r].amount)
    decreases |es|
  {
    ShapeStep(d, es[0]);
    OnePayoutStep(d, es[0]);
    if |Step(d, es[0]).refunds| <= r {
      RefundWasSent(Step(d, es[0]), es[1..], r, id);
    } else {
      SentThenKept(d, es[0], es[1..], r, id);
    }
  }

  lemma PaidRefundStays(d: Db, es: seq<Event>, id: nat)
    requires Shape(d) && Opens(d, id) == 0 && Actives(d, id) > 0
    ensures Actives(Run(d, es), id) > 0
  {
    var r := PaidRefundOf(d, id);
    ProcessedIffConfirmed(d, es, r);
    ProcessedIsActive(Run(d, es), r, id);
  }

  lemma NewlyCompleted(d: Db, next: Db, id: nat)
    requires Steady(d, next) || exists j: nat :: Completes(d, next, j)
    requires id < |next.requests| && next.requests[id].status == Completed
    ensures (id < |d.requests| && d.requests[id].status == Completed) || Completes(d, next, id)
  {}

  /** A step that completes a return with no refund active closes it unpaid. */
  lemma {:induction false} CompletionIsUnpaid(d: Db, e: Event, id: nat)
    requires Shape(d) && OneOpen(d)
    requires id < |Step(d, e).requests| && Step(d, e).requests[id].status == Completed && Actives(Step(d, e), id) == 0
    ensures (id < |d.requests| && d.requests[id].status == Completed) || ClosesUnpaid(d, e, id)
  {
    var next := Step(d, e);
    if !(id < |d.requests| && d.requests[id].status == Completed) {
      StepKind(d, e);
      NewlyCompleted(d, next, id);
      UnpaidCompletion(d, next, id);
      PassesByApproval(d, e, id);
    }
  }

  lemma {:induction false} CompletedUnpaid(d: Db, es: seq<Event>, id: nat)
    requires Shape(d) && OnePayout(d) && Along(d, es, H2) && id < |Run(d, es).requests|
    requires Run(d, es).requests[id].status == Completed && Actives(Run(d, es), id) == 0
    ensures (id < |d.requests| && d.requests[id].status == Completed) || EverClosedUnpaid(d, es, id)
    decreases |es|
  {
    if es != [] {
      var next := Step(d, es[0]);
      ShapeStep(d, es[0]);
      OnePayoutStep(d, es[0]);
      CompletedUnpaid(next, es[1..], id);
      if id < |next.requests| && next.requests[id].status == Completed {
        OpensWithinActives(next, id);
        assert PayoutOk(next.requests[id].status, Opens(next, id), Actives(next, id));
        if Actives(next, id) > 0 { PaidRefundStays(next, es[1..], id); }
        OnePayoutOpens(d);
        CompletionIsUnpaid(d, es[0], id);
      }
    }
  }

  /** With one payout for each return, what a return has been paid is the amount of its one processed refund. */
  lemma PaidIsOneRefund(d: Db, id: nat)
    requires Shape(d) && OnePayout(d) && id < |d.requests|
    ensures (PaidFor(d, id) == 0 && Actives(d, id) == Opens(d, id)) ||
            (&& d.requests[id].status == Completed
             && exists r: nat ::
                  && r < |d.refunds|
                  && d.refunds[r].status == Processed
                  && d.refunds[r].forReturn == Some(id)
                  && d.refunds[r].amount == PaidFor(d, id))
  {
    assert PayoutOk(d.requests[id].status, Opens(d, id), Actives(d, id));
    OpensWithinActives(d, id);
    if r: nat :| r < |d.refunds| && d.refunds[r].status == Processed && d.refunds[r].forReturn == Some(id) {
      ProcessedIsNotOpen(d, r, id);
      SumSingle(d.refunds, r, PaidForReturn(id));
    } else {
      SumZero(d.refunds, PaidForReturn(id));
      SumEq(d.refunds, d.refunds, OpenFor(id), ActiveFor(id));
    }
  }

  /** At the end of the run, a return has been paid nothing unless it is completed; completed, it has been paid by
      one of the refunds sent for it, the total calculated at that moment, or was closed because that was nothing. */
  ghost predicate PaidByOneAttempt(d: Db, es: seq<Event>, id: nat)
    requires id < |Run(d, es).requests|
  {
    var end := Run(d, es);
    if end.requests[id].status != Completed then PaidFor(end, id) == 0
    else
      || (PaidFor(end, id) == 0 && EverClosedUnpaid(d, es, id))
      || exists r: nat ::
           r < |end.refunds| && end.refunds[r].status == Processed && EverSent(d, es, r, id, PaidFor(end, id))
  }

  /** A return pays out exactly once, after any number of failed attempts and retries. */
  lemma PaidOfAnyRun(d: Db, es: seq<Event>)
    requires Fresh(d) && Along(d, es, H2)
    ensures forall id: nat :: id < |Run(d, es).requests| ==> PaidByOneAttempt(d, es, id)
  {
    var end := Run(d, es);
    ShapeRun(d, es);
    PaysOutOnce(d, es);
    forall id: nat | id < |end.requests| ensures PaidByOneAttempt(d, es, id) {
      PaidIsOneRefund(end, id);
      assert PayoutOk(end.requests[id].status, Opens(end, id), Actives(end, id));
      if end.requests[id].status == Completed {
        if Actives(end, id) == 0 && PaidFor(end, id) == 0 {
          CompletedUnpaid(d, es, id);
        } else {
          var r: nat :| r < |end.refunds| && end.refunds[r].status == Processed && end.refunds[r].forReturn == Some(id)
                        && end.refunds[r].amount == PaidFor(end, id);
          RefundWasSent(d, es, r, id);
        }
      }
    }
  }
}
