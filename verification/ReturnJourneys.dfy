/** The usual course of one return: asked for, approved, collected, received and inspected. */
module ReturnJourneys {
  import opened Prelude
  import opened ReturnRules
  import opened ReturnFlow

  lemma RunStep(d: Db, e: Event, es: seq<Event>)
    ensures Run(d, [e] + es) == Run(Step(d, e), es)
  {
    assert ([e] + es)[1..] == es;
  }

  lemma {:induction false} RunConcat(d: Db, a: seq<Event>, b: seq<Event>)
    ensures Run(d, a + b) == Run(Run(d, a), b)
    decreases |a|
  {
    if a == [] {
      assert a + b == b;
    } else {
      assert a + b == [a[0]] + (a[1..] + b);
      RunStep(d, a[0], a[1..] + b);
      RunConcat(Step(d, a[0]), a[1..], b);
    }
  }

  lemma RunOne(d: Db, e: Event)
    ensures Run(d, [e]) == Step(d, e)
  {
    RunStep(d, e, []);
    assert [e] + [] == [e];
  }

  lemma RunTwo(d: Db, e: Event, f: Event)
    ensures Run(d, [e, f]) == Step(Step(d, e), f)
  {
    RunStep(d, e, [f]);
    RunOne(Step(d, e), f);
    assert [e, f] == [e] + [f];
  }

  lemma RunThree(d: Db, e: Event, f: Event, g: Event)
    ensures Run(d, [e, f, g]) == Step(Step(Step(d, e), f), g)
  {
    RunStep(d, e, [f, g]);
    RunTwo(Step(d, e), f, g);
    assert [e, f, g] == [e] + [f, g];
  }

  /** The rows with one more return, of a single item. */
  function WithReturn(d: Db, status: RequestStatus, item: ReturnItem): Db {
    d.(requests := d.requests + [ReturnRequest(status, [item], 0)])
  }

  function All(item: ReturnItem): map<nat, nat> { map[0 := item.quantity] }

  /** The events of such a return up to its inspection. */
  function Collected(d: Db, ask: Ask, now: int): seq<Event> {
    [ECreate([ask], now), EApprove(|d.requests|, map[0 := ask.quantity]), ESchedulePickup(|d.requests|)]
  }

  function Examined(d: Db, ask: Ask, dto: InspectionDto): seq<Event> {
    [EReceive(|d.requests|, map[0 := ask.quantity]), EStartInspection(|d.requests|), EInspectItem(|d.requests|, 0, dto)]
  }

  function Journey(d: Db, ask: Ask, now: int, dto: InspectionDto): seq<Event> {
    Collected(d, ask, now) + Examined(d, ask, dto)
  }

  lemma Asked(d: Db, ask: Ask, now: int)
    requires ask.quantity > 0 && Askable(d, ask, now)
    ensures Step(d, ECreate([ask], now)) == WithReturn(d, ReturnRequested, NewItem(ask))
  {
    var items := seq(1, i requires 0 <= i < 1 => NewItem([ask][i]));
    assert items == [NewItem(ask)];
  }

  lemma Approved(d: Db, item: ReturnItem)
    requires item.quantity > 0
    ensures Step(WithReturn(d, ReturnRequested, item), EApprove(|d.requests|, All(item)))
         == WithReturn(d, ReturnApproved, item.(approved := Some(item.quantity)))
  {
    var asked, id := WithReturn(d, ReturnRequested, item), |d.requests|;
    var approved := item.(approved := Some(item.quantity));
    assert 0 in All(item) && All(item)[0] == item.quantity;
    var next := Approve(asked, id, All(item)).0;
    assert next.requests[id].items == [approved];
    assert next.requests == d.requests + [ReturnRequest(ReturnApproved, [approved], 0)];
  }

  lemma Received(d: Db, item: ReturnItem)
    requires item.approved == Some(item.quantity)
    ensures Step(WithReturn(d, PickupScheduled, item), EReceive(|d.requests|, All(item)))
         == WithReturn(d, ReturnReceived, item.(received := Some(item.quantity)))
  {
    var collected, id := WithReturn(d, PickupScheduled, item), |d.requests|;
    var received := item.(received := Some(item.quantity));
    assert 0 in All(item) && All(item)[0] == item.quantity;
    var next := Receive(collected, id, All(item)).0;
    assert next.requests[id].items == [received];
    assert next.requests == d.requests + [ReturnRequest(ReturnReceived, [received], 0)];
  }

  lemma Moved(d: Db, item: ReturnItem)
    ensures Step(WithReturn(d, ReturnApproved, item), ESchedulePickup(|d.requests|)) ==
              WithReturn(d, PickupScheduled, item)
    ensures Step(WithReturn(d, ReturnReceived, item), EStartInspection(|d.requests|)) == WithReturn(d, Inspection, item)
  {
    var id := |d.requests|;
    assert SetStatus(WithReturn(d, ReturnApproved, item), id, PickupScheduled).requests ==
             WithReturn(d, PickupScheduled, item).requests;
    assert SetStatus(WithReturn(d, ReturnReceived, item), id, Inspection).requests ==
             WithReturn(d, Inspection, item).requests;
  }

  function Judgement(d: Db, item: ReturnItem, dto: InspectionDto, accepted: nat): ReturnItem {
    item.(result := Some(dto.result), accepted := Some(accepted),
          refundAmount := Some(UnitsRefund(LineOf(d.order, item.line), d.order.money, accepted)))
  }

  lemma Judged(d: Db, item: ReturnItem, dto: InspectionDto, accepted: nat)
    requires item.deduction == 0 && AcceptedBy(item, dto) == Some(accepted) && dto.deduction == 0
    ensures Step(WithReturn(d, Inspection, item), EInspectItem(|d.requests|, 0, dto))
         == WithReturn(d, Inspection, Judgement(d, item, dto, accepted))
  {
    var next := InspectItem(WithReturn(d, Inspection, item), |d.requests|, 0, dto).0;
    assert next.requests[|d.requests|].items == [Judgement(d, item, dto, accepted)];
    assert next.requests == d.requests + [ReturnRequest(Inspection, [Judgement(d, item, dto, accepted)], 0)];
  }

  function ReceivedItem(ask: Ask): ReturnItem {
    NewItem(ask).(approved := Some(ask.quantity), received := Some(ask.quantity))
  }

  lemma JourneyInspects(d: Db, ask: Ask, now: int, dto: InspectionDto)
    requires ask.quantity > 0 && Askable(d, ask, now)
    ensures Run(d, Journey(d, ask, now, dto)[..5]) == WithReturn(d, Inspection, ReceivedItem(ask))
  {
    var id, asked := |d.requests|, NewItem(ask);
    var approved := asked.(approved := Some(ask.quantity));
    assert All(asked) == All(approved) == map[0 := ask.quantity];
    Asked(d, ask, now);
    Approved(d, asked);
    Moved(d, approved);
    RunThree(d, ECreate([ask], now), EApprove(id, All(asked)), ESchedulePickup(id));
    var collected := WithReturn(d, PickupScheduled, approved);
    Received(d, approved);
    Moved(d, ReceivedItem(ask));
    RunTwo(collected, EReceive(id, All(approved)), EStartInspection(id));
    RunConcat(d, Collected(d, ask, now), [EReceive(id, All(approved)), EStartInspection(id)]);
    assert Journey(d, ask, now, dto)[..5] ==
             Collected(d, ask, now) + [EReceive(id, All(approved)), EStartInspection(id)];
  }

  /** From any rows, units that may be asked for reach inspection, and nothing else changes. */
  lemma JourneyReaches(d: Db, ask: Ask, now: int, dto: InspectionDto, accepted: nat)
    requires ask.quantity > 0 && Askable(d, ask, now)
    requires AcceptedBy(ReceivedItem(ask), dto) == Some(accepted) && dto.deduction == 0
    ensures Run(d, Journey(d, ask, now, dto)) ==
              WithReturn(d, Inspection, Judgement(d, ReceivedItem(ask), dto, accepted))
  {
    var es := Journey(d, ask, now, dto);
    var inspect := EInspectItem(|d.requests|, 0, dto);
    JourneyInspects(d, ask, now, dto);
    Judged(d, ReceivedItem(ask), dto, accepted);
    RunOne(Run(d, es[..5]), inspect);
    RunConcat(d, es[..5], [inspect]);
    assert es == es[..5] + [inspect];
  }

  // ---------- hypotheses along a run ----------

  lemma {:induction false} AlongConcat(d: Db, a: seq<Event>, b: seq<Event>, p: (Db, Event) -> bool)
    requires Along(d, a, p) && Along(Run(d, a), b, p)
    ensures Along(d, a + b, p)
    decreases |a|
  {
    if a == [] {
      assert a + b == b;
    } else {
      assert (a + b)[1..] == a[1..] + b;
      AlongConcat(Step(d, a[0]), a[1..], b, p);
    }
  }

  /** The hypotheses hold of every step of a run without the events they speak of. */
  lemma {:induction false} NothingInspected(d: Db, es: seq<Event>)
    requires forall k :: 0 <= k < |es| ==> !es[k].EInspectItem?
    ensures Along(d, es, H1)
    decreases |es|
  {
    if es != [] { NothingInspected(Step(d, es[0]), es[1..]); }
  }

  lemma {:induction false} NothingConfirmed(d: Db, es: seq<Event>)
    requires forall k :: 0 <= k < |es| ==> !es[k].ESettleAnswer? && !es[k].EWebhook?
    ensures Along(d, es, H2)
    decreases |es|
  {
    if es != [] { NothingConfirmed(Step(d, es[0]), es[1..]); }
  }

  lemma {:induction false} NothingApproved(d: Db, es: seq<Event>)
    requires forall k :: 0 <= k < |es| ==> !es[k].EApproveRefund?
    ensures Along(d, es, H4)
    decreases |es|
  {
    if es != [] { NothingApproved(Step(d, es[0]), es[1..]); }
  }

  lemma AlongOne(d: Db, e: Event, p: (Db, Event) -> bool)
    requires p(d, e)
    ensures Along(d, [e], p)
  {
    assert [e][1..] == [];
  }

  /** Such a return is inspected once, confirms nothing and approves no refund. */
  lemma JourneyKeeps(d: Db, ask: Ask, now: int, dto: InspectionDto, accepted: nat)
    requires ask.quantity > 0 && Askable(d, ask, now)
    requires AcceptedBy(ReceivedItem(ask), dto) == Some(accepted) && dto.deduction == 0
    ensures var es := Journey(d, ask, now, dto); Along(d, es, H1) && Along(d, es, H2) && Along(d, es, H4)
  {
    var es := Journey(d, ask, now, dto);
    var uninspected, inspect := es[..5], EInspectItem(|d.requests|, 0, dto);
    NothingConfirmed(d, es);
    NothingApproved(d, es);
    NothingInspected(d, uninspected);
    JourneyInspects(d, ask, now, dto);
    AlongOne(Run(d, uninspected), inspect, H1);
    AlongConcat(d, uninspected, [inspect], H1);
    assert es == uninspected + [inspect];
  }
}
