/**
 Runs from an order with no returns or refunds that show what goes wrong without each hypothesis, and how
 rounding locks out the last part of a split return.
 */
module ReturnWitnesses {
  import opened Prelude
  import opened ReturnRules
  import opened ReturnFlow
  import opened ReturnSafety
  import opened RefundSafety
  import opened FullReturn
  import Journeys = ReturnJourneys

  const TWO_UNITS := OrderLine(2, 100, 0, false, true, None)

  function Start(lines: seq<OrderLine>, money: OrderMoney, captured: nat): Db {
    Db(Order(lines, money, Some(captured)), Delivered, Paid, [], [], [])
  }

  lemma SumOfOne<T>(x: T, f: T -> int)
    ensures Sum([x], f) == f(x)
  {
    SumAppend([], x, f);
    assert [] + [x] == [x];
  }

  lemma SumOfTwo<T>(x: T, y: T, f: T -> int)
    ensures Sum([x, y], f) == f(x) + f(y)
  {
    SumOfOne(x, f);
    SumAppend([x], y, f);
    assert [x] + [y] == [x, y];
  }

  // ---------- H2: the provider confirms a refund it reported as failed ----------

  const LATE := Start([TWO_UNITS], OrderMoney(100, 0, 0), 100)
  const FIRST := Refund(100, RefundSent, Some(7), None)
  const SECOND := Refund(100, RefundPending, None, None)

  lemma LateReserve()
    ensures Step(LATE, ERefundOrder(100)) == LATE.(refunds := [SECOND], calls := [Waiting])
  {}

  lemma LateReply()
    ensures Step(LATE.(refunds := [SECOND], calls := [Waiting]), EProviderAnswers(0, Replied(7, "pending")))
         == LATE.(refunds := [FIRST], calls := [Finished])
  {
    assert |Lower("pending")| == 7 && Lower("pending")[0] == 'p';
    assert RefundOutcome("pending") == Undecided;
  }

  lemma LateFailure()
    ensures Step(LATE.(refunds := [FIRST], calls := [Finished]), EWebhook(7, Declined))
         == LATE.(refunds := [FIRST.(status := Failed)], calls := [Finished])
  {
    assert Find([FIRST], 7) == 0;
  }

  lemma LateReplacement()
    ensures Step(LATE.(refunds := [FIRST.(status := Failed)], calls := [Finished]), ERefundOrder(100))
         == LATE.(refunds := [FIRST.(status := Failed), SECOND], calls := [Finished, Waiting])
  {
    SumZero([FIRST.(status := Failed)], ActiveAmount);
  }

  lemma LateConfirmation()
    ensures Step(LATE.(refunds := [FIRST.(status := Failed), SECOND], calls := [Finished, Waiting]),
                 EWebhook(7, Confirmed)).refunds
         == [FIRST.(status := Processed), SECOND]
  {
    var refunds := [FIRST.(status := Failed), SECOND];
    assert refunds[..1] == [FIRST.(status := Failed)];
    assert Find(refunds[..1], 7) == 0;
    assert Find(refunds, 7) == 0;
  }

  const RESERVE := ERefundOrder(100)
  const REPLY := EProviderAnswers(0, Replied(7, "pending"))
  const FAILURE := EWebhook(7, Declined)
  const CONFIRMATION := EWebhook(7, Confirmed)
  const LATE_RUN := [RESERVE, REPLY, FAILURE, RESERVE, CONFIRMATION]

  lemma FiveSteps(d: Db, es: seq<Event>)
    requires |es| == 5
    ensures Run(d, es) == Step(Step(Step(Step(Step(d, es[0]), es[1]), es[2]), es[3]), es[4])
  {
    var d1 := Step(d, es[0]);
    var d2 := Step(d1, es[1]);
    var d3 := Step(d2, es[2]);
    Journeys.RunStep(d, es[0], es[1..]);
    Journeys.RunStep(d1, es[1], es[2..]);
    Journeys.RunStep(d2, es[2], es[3..]);
    Journeys.RunTwo(d3, es[3], es[4]);
    assert es == [es[0]] + es[1..] && es[1..] == [es[1]] + es[2..] && es[2..] == [es[2]] + es[3..]
           && es[3..] == [es[3], es[4]];
  }

  lemma LateEnds()
    ensures Run(LATE, LATE_RUN).refunds == [FIRST.(status := Processed), SECOND]
            && Run(LATE, LATE_RUN).order == LATE.order
  {
    LateReserve();
    LateReply();
    LateFailure();
    LateReplacement();
    LateConfirmation();
    FiveSteps(LATE, LATE_RUN);
  }

  /** Without H2 a refund reported failed, replaced, and confirmed after all pays twice what was captured. */
  lemma LateConfirmationOverRefunds()
    ensures Fresh(LATE) && Along(LATE, LATE_RUN, H1) && Along(LATE, LATE_RUN, H4)
    ensures !WithinCaptured(Run(LATE, LATE_RUN))
  {
    Journeys.NothingInspected(LATE, LATE_RUN);
    Journeys.NothingApproved(LATE, LATE_RUN);
    LateEnds();
    SumOfTwo(FIRST.(status := Processed), SECOND, ActiveAmount);
  }

  // ---------- H1: an item is inspected again, for more ----------

  function Item(line: nat, quantity: nat, accepted: nat, refund: nat): ReturnItem {
    ReturnItem(line, quantity, Some(quantity), Some(quantity), Some(accepted),
               Some(if accepted == quantity then Accepted else PartiallyAccepted), 0, Some(refund))
  }

  const HALF_ACCEPTED := LATE.(requests := [ReturnRequest(Inspection, [Item(0, 2, 1, 50)], 0)])
  const PARTIAL := InspectionDto(PartiallyAccepted, Some(1), false, 0, false)
  const HALF_RUN := Journeys.Journey(LATE, Ask(0, 2), 0, PARTIAL)
  const ASK_AGAIN := ECreate([Ask(0, 1)], 0)
  const INSPECT_AGAIN := EInspectItem(0, 0, InspectionDto(Accepted, None, false, 0, false))

  lemma HalfAcceptedIsSafe()
    ensures Shape(HALF_ACCEPTED) && WithinOrder(HALF_ACCEPTED) && Held(HALF_ACCEPTED, 0) == 1
  {
    SumOfOne(Item(0, 2, 1, 50), ItemHeldOn(0, Inspection));
    SumOfOne(HALF_ACCEPTED.requests[0], HeldIn(0));
    HalfPrice();
  }

  lemma HalfPrice()
    ensures UnitsRefund(TWO_UNITS, OrderMoney(100, 0, 0), 1) == 50
    ensures UnitsRefund(TWO_UNITS, OrderMoney(100, 0, 0), 2) == 100
  {
    assert LineNetPaid(TWO_UNITS, OrderMoney(100, 0, 0)) == 100.0;
  }

  lemma HalfAcceptedReached()
    ensures Run(LATE, HALF_RUN) == HALF_ACCEPTED
  {
    HalfPrice();
    assert Askable(LATE, Ask(0, 2), 0);
    Journeys.JourneyReaches(LATE, Ask(0, 2), 0, PARTIAL, 1);
    assert Journeys.Judgement(LATE, Journeys.ReceivedItem(Ask(0, 2)), PARTIAL, 1) == Item(0, 2, 1, 50);
    assert HALF_ACCEPTED.requests == [] + HALF_ACCEPTED.requests;
  }

  /** Without H1 the units a partial inspection released are asked for again and then accepted twice. */
  lemma SecondInspectionOverReturns()
    ensures var es := HALF_RUN + [ASK_AGAIN, INSPECT_AGAIN];
            && Fresh(LATE) && Along(LATE, es, H2) && Along(LATE, es, H4)
            && !WithinOrder(Run(LATE, es))
  {
    Journeys.NothingConfirmed(LATE, HALF_RUN + [ASK_AGAIN, INSPECT_AGAIN]);
    Journeys.NothingApproved(LATE, HALF_RUN + [ASK_AGAIN, INSPECT_AGAIN]);
    HalfAcceptedReached();
    Journeys.RunConcat(LATE, HALF_RUN, [ASK_AGAIN, INSPECT_AGAIN]);
    AcceptedTwice();
  }

  lemma AcceptedTwice()
    ensures !WithinOrder(Run(HALF_ACCEPTED, [ASK_AGAIN, INSPECT_AGAIN]))
  {
    HalfAcceptedIsSafe();
    HalfPrice();
    Journeys.RunTwo(HALF_ACCEPTED, ASK_AGAIN, INSPECT_AGAIN);
    var asked := Step(HALF_ACCEPTED, ASK_AGAIN);
    assert Askable(HALF_ACCEPTED, Ask(0, 1), 0);
    assert Create(HALF_ACCEPTED, [Ask(0, 1)], 0).1 == Ok;
    var second := ReturnRequest(ReturnRequested, [NewItem(Ask(0, 1))], 0);
    assert asked.requests[1].items == second.items;
    assert asked.requests == HALF_ACCEPTED.requests + [second];
    var again := Step(asked, INSPECT_AGAIN);
    var raised := ReturnRequest(Inspection, [Item(0, 2, 2, 100)], 0);
    assert LineOf(asked.order, 0) == TWO_UNITS;
    assert asked.requests[0].items[0 := Item(0, 2, 2, 100)] == raised.items;
    assert again.requests == [raised, second];
    SumOfTwo(raised, second, HeldIn(0));
    SumOfOne(raised.items[0], ItemHeldOn(0, Inspection));
    SumOfOne(second.items[0], ItemHeldOn(0, ReturnRequested));
    assert Held(again, 0) == 3;
  }

  // ---------- H4: two returns of one order are refunded at once ----------

  const ONE_UNIT := OrderLine(1, 50, 0, false, true, None)
  const OVERLAP_ORDER := Order([ONE_UNIT, ONE_UNIT], OrderMoney(100, 0, 5), Some(105))
  const SENT := Refund(50, RefundSent, None, Some(0))
  const PENDING := Refund(50, RefundPending, None, Some(1))
  const FIRST_ITEM := Item(0, 1, 1, 50)
  const SECOND_ITEM := Item(1, 1, 1, 50)

  /** The first return's refund is confirmed but not yet settled; the second return has been inspected. */
  const OVERLAP := Db(OVERLAP_ORDER, Delivered, Paid,
    [ReturnRequest(RefundProcessing, [FIRST_ITEM], 0), ReturnRequest(Inspection, [SECOND_ITEM], 0)],
    [SENT], [Answered(Confirmed)])

  const OVERLAP_RUN := [EApproveRefund(1), ESettleAnswer(0), EProviderAnswers(1, Offline), ESettleAnswer(1)]

  lemma SettleCompletes(d: Db, r: nat, id: nat)
    requires r < |d.calls| == |d.refunds| && d.calls[r] == Answered(Confirmed)
    requires d.refunds[r].status == RefundSent && d.refunds[r].forReturn == Some(id)
    requires id < |d.requests| && Opens(d, id) == 1
    ensures var next := SettleAnswer(d, r);
            && next.requests == d.requests[id := d.requests[id].(status := Completed)]
            && next.refunds == d.refunds[r := d.refunds[r].(status := Processed)]
            && next.calls == d.calls[r := Finished] && next.order == d.order
  {
    SumUpdate(d.refunds, r, d.refunds[r].(status := Processed), OpenFor(id));
  }

  lemma OverlapPrice()
    ensures UnitsRefund(ONE_UNIT, OrderMoney(100, 0, 5), 1) == 50
  {
    assert LineNetPaid(ONE_UNIT, OrderMoney(100, 0, 5)) == 50.0;
  }

  lemma OverlapTotal()
    ensures Total(OVERLAP, 1) == 50 && ShippingDue(OVERLAP, 1) == 0
  {
    OverlapPrice();
    SumOfOne(SECOND_ITEM, RefundOf(OVERLAP_ORDER));
    var others := Others(OVERLAP, 1);
    assert others == [OVERLAP.requests[0]];
    SumOfOne(OVERLAP.requests[0], ReturnedIn(0));
    SumOfOne(FIRST_ITEM, ItemReturnedOn(0, RefundProcessing));
    assert AcceptedHere([SECOND_ITEM], 0) == 0;
    assert !EverythingReturned(OVERLAP, 1);
  }

  lemma OverlapApproval()
    ensures Step(OVERLAP, EApproveRefund(1)) ==
              OVERLAP.(requests := [OVERLAP.requests[0], ReturnRequest(RefundProcessing, [SECOND_ITEM], 0)],
                       refunds := [SENT, PENDING], calls := [Answered(Confirmed), Waiting])
  {
    OverlapTotal();
    SumOfOne(SENT, ActiveAmount);
    assert Close([SECOND_ITEM]) == [SECOND_ITEM];
  }

  lemma OverlapSettles(d: Db)
    requires d == Step(OVERLAP, EApproveRefund(1))
    ensures var end := SettleAnswer(ProviderAnswers(SettleAnswer(d, 0), 1, Offline), 1);
            end.order == OVERLAP_ORDER &&
            end.requests == [ReturnRequest(Completed, [FIRST_ITEM], 0), ReturnRequest(Completed, [SECOND_ITEM], 0)]
  {
    OverlapApproval();
    SumOfTwo(SENT, PENDING, OpenFor(0));
    SettleCompletes(d, 0, 0);
    var d2 := SettleAnswer(d, 0);
    var d3 := ProviderAnswers(d2, 1, Offline);
    assert d3.refunds == [SENT.(status := Processed), PENDING.(status := RefundSent)]
           && d3.calls == [Finished, Answered(Confirmed)];
    SumOfTwo(SENT.(status := Processed), PENDING.(status := RefundSent), OpenFor(1));
    SettleCompletes(d3, 1, 1);
  }

  lemma OverlapEnds(end: Db)
    requires end.order == OVERLAP_ORDER
    requires end.requests == [ReturnRequest(Completed, [FIRST_ITEM], 0), ReturnRequest(Completed, [SECOND_ITEM], 0)]
    ensures AllBack(end) && NobodyPaidDelivery(end)
  {
    forall line | 0 <= line < 2 ensures FullReturn.Back(end, line) >= 1 {
      SumOfTwo(end.requests[0], end.requests[1], ReturnedIn(line));
      SumOfOne(FIRST_ITEM, ItemReturnedOn(line, Completed));
      SumOfOne(SECOND_ITEM, ItemReturnedOn(line, Completed));
    }
  }

  lemma AnswerSteps(d: Db, r: nat, answer: Answer)
    ensures Step(d, ESettleAnswer(r)) == SettleAnswer(d, r)
    ensures Step(d, EProviderAnswers(r, answer)) == ProviderAnswers(d, r, answer)
  {}

  lemma OverlapRuns(d: Db, es: seq<Event>)
    requires es == [EApproveRefund(1), ESettleAnswer(0), EProviderAnswers(1, Offline), ESettleAnswer(1)]
    ensures Run(d, es) == SettleAnswer(ProviderAnswers(SettleAnswer(Step(d, EApproveRefund(1)), 0), 1, Offline), 1)
  {
    var d1 := Step(d, es[0]);
    var d2 := SettleAnswer(d1, 0);
    var d3 := ProviderAnswers(d2, 1, Offline);
    FourSteps(d, es);
    AnswerSteps(d1, 0, Offline);
    AnswerSteps(d2, 1, Offline);
    AnswerSteps(d3, 1, Offline);
  }

  lemma NothingBackYet(d: Db, line: nat)
    requires |d.requests| == 2 && d.requests[0].status != Completed && d.requests[1].status != Completed
    ensures FullReturn.Back(d, line) == 0
  {
    assert d.requests == [d.requests[0], d.requests[1]];
    SumOfTwo(d.requests[0], d.requests[1], ReturnedIn(line));
    ReturnedOnlyWhenCompleted(d.requests[0], line);
    ReturnedOnlyWhenCompleted(d.requests[1], line);
  }

  lemma OverlapShape()
    ensures Shape(OVERLAP)
  {
    OverlapPrice();
  }

  lemma OverlapPayouts()
    ensures OnePayout(OVERLAP) && AmountsDue(OVERLAP)
  {
    forall id: nat ensures Opens(OVERLAP, id) == Actives(OVERLAP, id) == if id == 0 then 1 else 0 {
      SumOfOne(SENT, OpenFor(id));
      SumOfOne(SENT, ActiveFor(id));
    }
    SumOfOne(FIRST_ITEM, StoredRefund);
  }

  /** Every invariant of the return flow holds where the overlapping run starts. */
  lemma OverlapIsSound()
    ensures Books(OVERLAP) && DeliveryOnce(OVERLAP) && StatusAgrees(OVERLAP)
  {
    OverlapShape();
    OverlapPayouts();
    NothingBackYet(OVERLAP, 0);
    NothingBackYet(OVERLAP, 1);
    assert AcceptedHere([FIRST_ITEM], 1) == 0;
    assert !AllBack(OVERLAP) && NothingBack(OVERLAP);
  }

  const ACCEPT := InspectionDto(Accepted, None, false, 0, false)

  const OVERLAP_START := OVERLAP.(requests := [], refunds := [], calls := [])
  const ONE_INSPECTED := OVERLAP_START.(requests := [ReturnRequest(Inspection, [FIRST_ITEM], 0)])
  const ONE_SENT := OVERLAP.(requests := [OVERLAP.requests[0]])
  const TO_ONE_INSPECTED := Journeys.Journey(OVERLAP_START, Ask(0, 1), 0, ACCEPT)
  const TO_ONE_SENT := [EApproveRefund(0), EProviderAnswers(0, Offline)]
  const TO_OVERLAP := Journeys.Journey(ONE_SENT, Ask(1, 1), 0, ACCEPT)

  lemma OneInspectedReached()
    ensures Run(OVERLAP_START, TO_ONE_INSPECTED) == ONE_INSPECTED
  {
    OverlapPrice();
    assert Askable(OVERLAP_START, Ask(0, 1), 0);
    Journeys.JourneyReaches(OVERLAP_START, Ask(0, 1), 0, ACCEPT, 1);
    assert Journeys.Judgement(OVERLAP_START, Journeys.ReceivedItem(Ask(0, 1)), ACCEPT, 1) == FIRST_ITEM;
    assert ONE_INSPECTED.requests == [] + ONE_INSPECTED.requests;
  }

  lemma OneTotal()
    ensures Total(ONE_INSPECTED, 0) == 50 && ShippingDue(ONE_INSPECTED, 0) == 0
  {
    OverlapPrice();
    SumOfOne(FIRST_ITEM, RefundOf(OVERLAP_ORDER));
    assert Others(ONE_INSPECTED, 0) == [];
    assert AcceptedHere([FIRST_ITEM], 1) == 0;
    assert !EverythingReturned(ONE_INSPECTED, 0);
  }

  lemma OneApproved()
    ensures Step(ONE_INSPECTED, EApproveRefund(0)) ==
              ONE_SENT.(refunds := [SENT.(status := RefundPending)], calls := [Waiting])
  {
    OneTotal();
    assert Close([FIRST_ITEM]) == [FIRST_ITEM];
  }

  lemma OneSentReached()
    ensures Run(ONE_INSPECTED, TO_ONE_SENT) == ONE_SENT
  {
    var approved := ONE_SENT.(refunds := [SENT.(status := RefundPending)], calls := [Waiting]);
    OneApproved();
    assert Step(approved, EProviderAnswers(0, Offline)) == ONE_SENT;
    Journeys.RunTwo(ONE_INSPECTED, EApproveRefund(0), EProviderAnswers(0, Offline));
  }

  lemma OverlapReached()
    ensures Run(ONE_SENT, TO_OVERLAP) == OVERLAP
  {
    OverlapPrice();
    SumOfOne(ONE_SENT.requests[0], HeldIn(1));
    SumOfOne(FIRST_ITEM, ItemHeldOn(1, RefundProcessing));
    assert Askable(ONE_SENT, Ask(1, 1), 0);
    Journeys.JourneyReaches(ONE_SENT, Ask(1, 1), 0, ACCEPT, 1);
    assert Journeys.Judgement(ONE_SENT, Journeys.ReceivedItem(Ask(1, 1)), ACCEPT, 1) == SECOND_ITEM;
    assert OVERLAP.requests == ONE_SENT.requests + [OVERLAP.requests[1]];
  }

  const TO_LOSS := TO_ONE_INSPECTED + TO_ONE_SENT + TO_OVERLAP + OVERLAP_RUN

  lemma LossRuns()
    ensures Run(OVERLAP_START, TO_LOSS) == Run(OVERLAP, OVERLAP_RUN)
  {
    OneInspectedReached();
    OneSentReached();
    OverlapReached();
    Journeys.RunConcat(OVERLAP_START, TO_ONE_INSPECTED, TO_ONE_SENT);
    Journeys.RunConcat(OVERLAP_START, TO_ONE_INSPECTED + TO_ONE_SENT, TO_OVERLAP);
    Journeys.RunConcat(OVERLAP_START, TO_ONE_INSPECTED + TO_ONE_SENT + TO_OVERLAP, OVERLAP_RUN);
  }

  lemma FirstLegKeeps()
    ensures var es := TO_ONE_INSPECTED + TO_ONE_SENT; Along(OVERLAP_START, es, H1) && Along(OVERLAP_START, es, H2)
    ensures Run(OVERLAP_START, TO_ONE_INSPECTED + TO_ONE_SENT) == ONE_SENT
  {
    OneInspectedReached();
    OneSentReached();
    assert Askable(OVERLAP_START, Ask(0, 1), 0);
    Journeys.JourneyKeeps(OVERLAP_START, Ask(0, 1), 0, ACCEPT, 1);
    Journeys.NothingInspected(ONE_INSPECTED, TO_ONE_SENT);
    Journeys.NothingConfirmed(ONE_INSPECTED, TO_ONE_SENT);
    Journeys.AlongConcat(OVERLAP_START, TO_ONE_INSPECTED, TO_ONE_SENT, H1);
    Journeys.AlongConcat(OVERLAP_START, TO_ONE_INSPECTED, TO_ONE_SENT, H2);
    Journeys.RunConcat(OVERLAP_START, TO_ONE_INSPECTED, TO_ONE_SENT);
  }

  lemma SecondAskable()
    ensures Askable(ONE_SENT, Ask(1, 1), 0)
  {
    SumOfOne(ONE_SENT.requests[0], HeldIn(1));
    SumOfOne(FIRST_ITEM, ItemHeldOn(1, RefundProcessing));
  }

  /** Both refunds are confirmed while they are open. */
  lemma OverlapConfirmsOpen()
    ensures Along(OVERLAP, OVERLAP_RUN, H2)
  {
    var es := OVERLAP_RUN;
    var d1 := Step(OVERLAP, es[0]);
    var d2 := Step(d1, es[1]);
    var d3 := Step(d2, es[2]);
    OverlapApproval();
    AnswerSteps(d1, 0, Offline);
    AnswerSteps(d2, 1, Offline);
    OverlapRefunds(d1);
    assert es[1..] == [es[1], es[2], es[3]] && es[2..] == [es[2], es[3]] && es[3..] == [es[3]] && es[4..] == [];
    assert H2(OVERLAP, es[0]) && H2(d1, es[1]) && H2(d2, es[2]) && H2(d3, es[3]);
    Journeys.AlongOne(d3, es[3], H2);
    assert Along(d2, es[2..], H2) by { assert es[2..][1..] == es[3..]; }
    assert Along(d1, es[1..], H2) by { assert es[1..][1..] == es[2..]; }
  }

  lemma OverlapRefunds(d: Db)
    requires d == Step(OVERLAP, EApproveRefund(1))
    ensures d.refunds == [SENT, PENDING]
    ensures ProviderAnswers(SettleAnswer(d, 0), 1, Offline).refunds ==
              [SENT.(status := Processed), PENDING.(status := RefundSent)]
  {
    OverlapApproval();
    SumOfTwo(SENT, PENDING, OpenFor(0));
    SettleCompletes(d, 0, 0);
  }

  lemma LossKeeps()
    ensures Along(OVERLAP_START, TO_LOSS, H1) && Along(OVERLAP_START, TO_LOSS, H2)
  {
    var first := TO_ONE_INSPECTED + TO_ONE_SENT;
    FirstLegKeeps();
    SecondAskable();
    OverlapReached();
    Journeys.JourneyKeeps(ONE_SENT, Ask(1, 1), 0, ACCEPT, 1);
    Journeys.AlongConcat(OVERLAP_START, first, TO_OVERLAP, H1);
    Journeys.AlongConcat(OVERLAP_START, first, TO_OVERLAP, H2);
    Journeys.RunConcat(OVERLAP_START, first, TO_OVERLAP);
    Journeys.NothingInspected(OVERLAP, OVERLAP_RUN);
    OverlapConfirmsOpen();
    Journeys.AlongConcat(OVERLAP_START, first + TO_OVERLAP, OVERLAP_RUN, H1);
    Journeys.AlongConcat(OVERLAP_START, first + TO_OVERLAP, OVERLAP_RUN, H2);
  }

  /** Without H4, on a run that keeps H1 and H2, both returns find the order incomplete and nobody refunds the
      delivery charge. Refunds, delivery and status are all in order until the second approval. */
  lemma OverlappingRefundsLoseDelivery()
    ensures Fresh(OVERLAP_START) && Along(OVERLAP_START, TO_LOSS, H1) && Along(OVERLAP_START, TO_LOSS, H2)
    ensures Run(OVERLAP_START, TO_ONE_INSPECTED + TO_ONE_SENT + TO_OVERLAP) == OVERLAP
    ensures Books(OVERLAP) && DeliveryOnce(OVERLAP) && StatusAgrees(OVERLAP)
    ensures var end := Run(OVERLAP_START, TO_LOSS); AllBack(end) && NobodyPaidDelivery(end) && !DeliveryOnce(end)
  {
    LossKeeps();
    FirstLegKeeps();
    OverlapReached();
    Journeys.RunConcat(OVERLAP_START, TO_ONE_INSPECTED + TO_ONE_SENT, TO_OVERLAP);
    LossRuns();
    OverlapIsSound();
    OverlapLoses();
  }

  lemma OverlapLoses()
    ensures var end := Run(OVERLAP, OVERLAP_RUN); AllBack(end) && NobodyPaidDelivery(end) && !DeliveryOnce(end)
  {
    OverlapRuns(OVERLAP, OVERLAP_RUN);
    var end := Run(OVERLAP, OVERLAP_RUN);
    assert end.order == OVERLAP_ORDER &&
           end.requests == [ReturnRequest(Completed, [FIRST_ITEM], 0), ReturnRequest(Completed, [SECOND_ITEM], 0)] by {
      OverlapSettles(Step(OVERLAP, EApproveRefund(1)));
    }
    OverlapEnds(end);
  }

  lemma FourSteps(d: Db, es: seq<Event>)
    requires |es| == 4
    ensures Run(d, es) == Step(Step(Step(Step(d, es[0]), es[1]), es[2]), es[3])
  {
    Journeys.RunStep(d, es[0], es[1..]);
    Journeys.RunStep(Step(d, es[0]), es[1], es[2..]);
    Journeys.RunTwo(Step(Step(d, es[0]), es[1]), es[2], es[3]);
    assert es == [es[0]] + es[1..] && es[1..] == [es[1]] + es[2..] && es[2..] == [es[2], es[3]];
  }

  // ---------- rounding: the last part of a split return can be refused ----------

  /** One line of two units bought for 99 pence; one unit is back and half a penny over has been paid for it. */
  const SPLIT_ORDER := Order([TWO_UNITS], OrderMoney(100, 1, 0), Some(99))
  const PAID_HALF := Refund(50, Processed, None, Some(0))
  const SPLIT := Db(SPLIT_ORDER, PartiallyReturned, PartiallyRefunded,
    [ReturnRequest(Completed, [Item(0, 1, 1, 50)], 0), ReturnRequest(Inspection, [Item(0, 1, 1, 50)], 0)],
    [PAID_HALF], [Finished])

  lemma SplitPrice()
    ensures UnitsRefund(TWO_UNITS, OrderMoney(100, 1, 0), 1) == 50
  {
    assert LineNetPaid(TWO_UNITS, OrderMoney(100, 1, 0)) == 99.0;
  }

  lemma SplitPayouts()
    ensures OnePayout(SPLIT) && Actives(SPLIT, 0) == 1
  {
    forall id: nat ensures Opens(SPLIT, id) == 0 && Actives(SPLIT, id) == if id == 0 then 1 else 0 {
      SumOfOne(PAID_HALF, OpenFor(id));
      SumOfOne(PAID_HALF, ActiveFor(id));
    }
  }

  lemma SplitBack()
    ensures FullReturn.Back(SPLIT, 0) == 1
  {
    SumOfTwo(SPLIT.requests[0], SPLIT.requests[1], ReturnedIn(0));
    SumOfOne(Item(0, 1, 1, 50), ItemReturnedOn(0, Completed));
    ReturnedOnlyWhenCompleted(SPLIT.requests[1], 0);
  }

  lemma SplitShape()
    ensures Shape(SPLIT) && Due(SPLIT.requests[0]) == 50
  {
    SplitPrice();
    SumOfOne(Item(0, 1, 1, 50), StoredRefund);
  }

  /** Every invariant of the return flow holds there. */
  lemma SplitIsSound()
    ensures Books(SPLIT) && DeliveryOnce(SPLIT) && StatusAgrees(SPLIT)
  {
    SplitPayouts();
    SplitBack();
    SplitShape();
    assert !AllBack(SPLIT) && !NothingBack(SPLIT);
  }

  const SPLIT_STUCK := SPLIT.(requests := [SPLIT.requests[0], ReturnRequest(RefundApproved, [Item(0, 1, 1, 50)], 0)])

  lemma SplitApproval()
    ensures Total(SPLIT, 1) == 50 && ShippingDue(SPLIT, 1) == 0 && Committed(SPLIT) == 50
  {
    SplitPrice();
    SplitBack();
    SumOfOne(Item(0, 1, 1, 50), RefundOf(SPLIT_ORDER));
    SumOfOne(PAID_HALF, ActiveAmount);
  }

  lemma SplitRetry()
    ensures Sum(SPLIT.refunds, NotFailedFor(1)) == 0 && Total(SPLIT_STUCK, 1) == 50
    ensures RetryRefund(SPLIT_STUCK, 1) == (SPLIT_STUCK, BadRequest)
  {
    SplitApproval();
    SumOfOne(PAID_HALF, NotFailedFor(1));
    assert Others(SPLIT_STUCK, 1) == Others(SPLIT, 1);
    assert SetStatus(SPLIT_STUCK, 1, RefundApproved) == SPLIT_STUCK;
  }

  lemma SplitRefused()
    ensures ApproveRefund(SPLIT, 1) == (SPLIT_STUCK, BadRequest)
  {
    SplitApproval();
    assert Close([Item(0, 1, 1, 50)]) == [Item(0, 1, 1, 50)];
    assert With(SPLIT, 1, ReturnRequest(RefundApproved, [Item(0, 1, 1, 50)], 0)) == SPLIT_STUCK;
    assert SetStatus(SPLIT_STUCK, 1, RefundApproved) == SPLIT_STUCK;
  }

  const SPLIT_START := Db(SPLIT_ORDER, Delivered, Paid, [], [], [])
  const HALF_INSPECTED := SPLIT_START.(requests := [ReturnRequest(Inspection, [Item(0, 1, 1, 50)], 0)])
  const HALF_PAID := SPLIT.(requests := [SPLIT.requests[0]])
  const TO_HALF_INSPECTED := Journeys.Journey(SPLIT_START, Ask(0, 1), 0, ACCEPT)
  const TO_HALF_PAID := [EApproveRefund(0), EProviderAnswers(0, Offline), ESettleAnswer(0)]
  const TO_SPLIT := Journeys.Journey(HALF_PAID, Ask(0, 1), 0, ACCEPT)

  lemma HalfInspectedReached()
    ensures Run(SPLIT_START, TO_HALF_INSPECTED) == HALF_INSPECTED
  {
    SplitPrice();
    assert Askable(SPLIT_START, Ask(0, 1), 0);
    Journeys.JourneyReaches(SPLIT_START, Ask(0, 1), 0, ACCEPT, 1);
    assert Journeys.Judgement(SPLIT_START, Journeys.ReceivedItem(Ask(0, 1)), ACCEPT, 1) == Item(0, 1, 1, 50);
    assert HALF_INSPECTED.requests == [] + HALF_INSPECTED.requests;
  }

  const HALF_SENT := HALF_INSPECTED.(
    requests := [ReturnRequest(RefundProcessing, [Item(0, 1, 1, 50)], 0)],
    refunds := [PAID_HALF.(status := RefundSent)], calls := [Answered(Confirmed)])

  lemma HalfSentReached()
    ensures Step(Step(HALF_INSPECTED, EApproveRefund(0)), EProviderAnswers(0, Offline)) == HALF_SENT
  {
    SplitPrice();
    SumOfOne(Item(0, 1, 1, 50), RefundOf(SPLIT_ORDER));
    assert Others(HALF_INSPECTED, 0) == [];
    assert !EverythingReturned(HALF_INSPECTED, 0);
    assert Close([Item(0, 1, 1, 50)]) == [Item(0, 1, 1, 50)];
    assert Step(HALF_INSPECTED, EApproveRefund(0)) ==
             HALF_SENT.(refunds := [PAID_HALF.(status := RefundPending)], calls := [Waiting]);
  }

  lemma HalfSettles()
    ensures SettleAnswer(HALF_SENT, 0) == HALF_PAID
  {
    var completed := HALF_PAID.requests[0];
    var done := SetStatus(HALF_SENT, 0, Completed);
    SumOfOne(PAID_HALF, OpenFor(0));
    SumOfOne(PAID_HALF, ProcessedAmount);
    SumOfOne(completed, ReturnedIn(0));
    SumOfOne(completed.items[0], ItemReturnedOn(0, Completed));
    assert done.requests == [completed];
    assert Counts(done) == [LineCount(2, 1)];
    SumOfOne(LineCount(2, 1), ReturnRules.Back);
    SumOfOne(LineCount(2, 1), Ordered);
  }

  lemma HalfPaidReached()
    ensures Run(HALF_INSPECTED, TO_HALF_PAID) == HALF_PAID
  {
    HalfSentReached();
    HalfSettles();
    Journeys.RunThree(HALF_INSPECTED, EApproveRefund(0), EProviderAnswers(0, Offline), ESettleAnswer(0));
    AnswerSteps(HALF_SENT, 0, Offline);
  }

  lemma SplitReached()
    ensures Run(HALF_PAID, TO_SPLIT) == SPLIT
  {
    SplitPrice();
    SumOfOne(HALF_PAID.requests[0], HeldIn(0));
    SumOfOne(Item(0, 1, 1, 50), ItemHeldOn(0, Completed));
    assert Askable(HALF_PAID, Ask(0, 1), 0);
    Journeys.JourneyReaches(HALF_PAID, Ask(0, 1), 0, ACCEPT, 1);
    assert Journeys.Judgement(HALF_PAID, Journeys.ReceivedItem(Ask(0, 1)), ACCEPT, 1) == Item(0, 1, 1, 50);
    assert SPLIT.requests == HALF_PAID.requests + [SPLIT.requests[1]];
  }

  lemma SplitRuns()
    ensures Run(SPLIT_START, TO_HALF_INSPECTED + TO_HALF_PAID + TO_SPLIT) == SPLIT
  {
    HalfInspectedReached();
    HalfPaidReached();
    SplitReached();
    Journeys.RunConcat(SPLIT_START, TO_HALF_INSPECTED, TO_HALF_PAID);
    Journeys.RunConcat(SPLIT_START, TO_HALF_INSPECTED + TO_HALF_PAID, TO_SPLIT);
  }

  /** Each half is rounded up to 50 pence, together a penny more than was captured: the second refund is
      refused, and refused again on every retry. The return stays approved for refund. */
  lemma SplitReturnIsRefused()
    ensures Fresh(SPLIT_START) && Run(SPLIT_START, TO_HALF_INSPECTED + TO_HALF_PAID + TO_SPLIT) == SPLIT
    ensures Books(SPLIT) && DeliveryOnce(SPLIT) && StatusAgrees(SPLIT)
    ensures ApproveRefund(SPLIT, 1) == (SPLIT_STUCK, BadRequest)
    ensures RetryRefund(SPLIT_STUCK, 1) == (SPLIT_STUCK, BadRequest)
  {
    SplitRuns();
    SplitIsSound();
    SplitRefused();
    SplitRetry();
  }
}
