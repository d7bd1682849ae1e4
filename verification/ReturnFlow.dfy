/**
 Returns and refunds of one order, as transitions over its rows. Row ids are positions in the sequences:
 rows are only ever appended. Each operation answers with the new rows and what the caller is told; a
 refused operation may still have written (a refund refused after approval leaves the return approved).
 */
module ReturnFlow {
  import opened Prelude
  import opened ReturnRules

  datatype PaymentStatus = PaymentPending | Paid | PaymentFailed | Refunded | PartiallyRefunded

  datatype RefundStatus = RefundPending | RefundSent | Processed | Failed | RefundCancelled

  /** What a provider's refund status means to us. */
  datatype Verdict = Confirmed | Declined | Undecided

  datatype ReturnRequest = ReturnRequest(status: RequestStatus, items: seq<ReturnItem>, shippingRefund: nat)

  datatype Refund = Refund(
    amount: nat, status: RefundStatus, providerRefundId: Option<nat>, forReturn: Option<nat>)

  /** How far the call that created a refund has got: waiting for the provider, holding an answer that
      is recorded but not yet settled, or over. */
  datatype Call = Waiting | Answered(verdict: Verdict) | Finished

  /** `captured` is the order's captured payment; PaymentAttempts proves there is at most one. */
  datatype Order = Order(lines: seq<OrderLine>, money: OrderMoney, captured: Option<nat>)

  datatype Db = Db(
    order: Order, status: OrderStatus, payment: PaymentStatus,
    requests: seq<ReturnRequest>, refunds: seq<Refund>, calls: seq<Call>)

  datatype Reply = Ok | BadRequest | Conflict | NotFound

  datatype Ask = Ask(line: nat, quantity: nat)

  datatype InspectionDto = InspectionDto(
    result: InspectionResult, acceptedQuantity: Option<nat>, rejectionReason: bool,
    deduction: nat, deductionReason: bool)

  datatype Answer = Threw | Offline | Replied(providerRefundId: nat, providerStatus: string)

  const MAX_ITEMS_PER_RETURN := 50

  // ---------- sums over the rows ----------

  function ItemHeldOn(line: nat, status: RequestStatus): ReturnItem -> int {
    (item: ReturnItem) => if item.line == line then HeldQuantity(item, status) else 0
  }

  function HeldIn(line: nat): ReturnRequest -> int {
    (r: ReturnRequest) => Sum(r.items, ItemHeldOn(line, r.status))
  }

  /** Units of an order line held by all the returns made against it. */
  function Held(d: Db, line: nat): int { Sum(d.requests, HeldIn(line)) }

  function ItemReturnedOn(line: nat, status: RequestStatus): ReturnItem -> int {
    (item: ReturnItem) => if item.line == line then ReturnedQuantity(item, status) else 0
  }

  function ReturnedIn(line: nat): ReturnRequest -> int {
    (r: ReturnRequest) => Sum(r.items, ItemReturnedOn(line, r.status))
  }

  function ReturnedUnits(rs: seq<ReturnRequest>, line: nat): int { Sum(rs, ReturnedIn(line)) }

  predicate Open(refund: Refund) { refund.status == RefundPending || refund.status == RefundSent }

  predicate Active(refund: Refund) { Open(refund) || refund.status == Processed }

  function ActiveAmount(refund: Refund): int { if Active(refund) then refund.amount else 0 }

  function ProcessedAmount(refund: Refund): int { if refund.status == Processed then refund.amount else 0 }

  function OpenFor(id: nat): Refund -> int {
    (f: Refund) => if f.forReturn == Some(id) && Open(f) then 1 else 0
  }

  function NotFailedFor(id: nat): Refund -> int {
    (f: Refund) => if f.forReturn == Some(id) && f.status != Failed && f.status != RefundCancelled then f.amount else 0
  }

  function Committed(d: Db): int { Sum(d.refunds, ActiveAmount) }

  function Captured(order: Order): nat { GetOr(order.captured, 0) }

  // ---------- writing one row ----------

  function With(d: Db, id: nat, r: ReturnRequest): Db
    requires id < |d.requests|
  {
    d.(requests := d.requests[id := r])
  }

  function SetStatus(d: Db, id: nat, status: RequestStatus): Db
    requires id < |d.requests|
  {
    With(d, id, d.requests[id].(status := status))
  }

  function WithRefund(d: Db, r: nat, refund: Refund): Db
    requires r < |d.refunds|
  {
    d.(refunds := d.refunds[r := refund])
  }

  function WithCall(d: Db, r: nat, call: Call): Db
    requires r < |d.calls|
  {
    d.(calls := d.calls[r := call])
  }

  // ---------- the customer's side ----------

  predicate Askable(d: Db, ask: Ask, now: int) {
    ask.line < |d.order.lines| &&
    var e := ItemEligibility(d.status, d.order.lines[ask.line], Held(d, ask.line), now);
    e.eligible && ask.quantity <= e.returnable
  }

  function NewItem(ask: Ask): ReturnItem {
    ReturnItem(ask.line, ask.quantity, None, None, None, None, 0, None)
  }

  predicate WellFormedAsks(asks: seq<Ask>) {
    && 0 < |asks| <= MAX_ITEMS_PER_RETURN
    && (forall i :: 0 <= i < |asks| ==> asks[i].quantity > 0)
    && (forall i, j :: 0 <= i < j < |asks| ==> asks[i].line != asks[j].line)
  }

  function Create(d: Db, asks: seq<Ask>, now: int): (Db, Reply) {
    if !WellFormedAsks(asks) || !(forall i :: 0 <= i < |asks| ==> Askable(d, asks[i], now)) then (d, BadRequest)
    else
      var items := seq(|asks|, i requires 0 <= i < |asks| => NewItem(asks[i]));
      (d.(requests := d.requests + [ReturnRequest(ReturnRequested, items, 0)]), Ok)
  }

  function Cancel(d: Db, id: nat): (Db, Reply) {
    if id >= |d.requests| then (d, NotFound)
    else if d.requests[id].status != ReturnRequested then (d, Conflict)
    else (SetStatus(d, id, Cancelled), Ok)
  }

  // ---------- the admin's side ----------

  function Approve(d: Db, id: nat, quantities: map<nat, nat>): (Db, Reply) {
    if id >= |d.requests| then (d, NotFound)
    else
      var r := d.requests[id];
      if r.status != ReturnRequested then (d, Conflict)
      else if !(forall k :: 0 <= k < |r.items| ==> k in quantities) || |quantities| != |r.items| then (d, BadRequest)
      else if !(forall k :: 0 <= k < |r.items| ==> quantities[k] <= r.items[k].quantity) then (d, BadRequest)
      else if forall k :: k in quantities ==> quantities[k] == 0 then (d, BadRequest)
      else
        var items := seq(|r.items|, k requires 0 <= k < |r.items| => r.items[k].(approved := Some(quantities[k])));
        (With(d, id, ReturnRequest(ReturnApproved, items, r.shippingRefund)), Ok)
  }

  /** Reject, schedule a pickup, mark as picked up and start inspecting only check and set the status. */
  function Move(d: Db, id: nat, allowed: set<RequestStatus>, to: RequestStatus): (Db, Reply) {
    if id >= |d.requests| then (d, NotFound)
    else if d.requests[id].status !in allowed then (d, Conflict)
    else (SetStatus(d, id, to), Ok)
  }

  function Reject(d: Db, id: nat): (Db, Reply) {
    Move(d, id, {ReturnRequested, ReturnApproved, PickupScheduled}, ReturnRejected)
  }

  function SchedulePickup(d: Db, id: nat): (Db, Reply) {
    Move(d, id, {ReturnApproved, PickupScheduled}, PickupScheduled)
  }

  function MarkPickedUp(d: Db, id: nat): (Db, Reply) { Move(d, id, {PickupScheduled}, PickedUp) }

  function StartInspection(d: Db, id: nat): (Db, Reply) { Move(d, id, {ReturnReceived}, Inspection) }

  function Receive(d: Db, id: nat, quantities: map<nat, nat>): (Db, Reply) {
    if id >= |d.requests| then (d, NotFound)
    else
      var r := d.requests[id];
      if r.status != PickupScheduled && r.status != PickedUp then (d, Conflict)
      else if !(forall k :: 0 <= k < |r.items| ==> k in quantities && quantities[k] <= GetOr(r.items[k].approved, 0))
      then (d, BadRequest)
      else
        var items := seq(|r.items|, k requires 0 <= k < |r.items| => r.items[k].(received := Some(quantities[k])));
        (With(d, id, ReturnRequest(ReturnReceived, items, r.shippingRefund)), Ok)
  }

  function LineOf(order: Order, k: nat): OrderLine {
    if k < |order.lines| then order.lines[k] else OrderLine(0, 0, 0, false, false, None)
  }

  /** The accepted quantity an inspection records, if the request for it is valid. */
  function AcceptedBy(item: ReturnItem, dto: InspectionDto): Option<nat> {
    var received := GetOr(item.received, 0);
    match dto.result
    case Accepted => Some(received)
    case RejectedAtInspection => if dto.rejectionReason then Some(0) else None
    case PartiallyAccepted =>
      if dto.acceptedQuantity.Some? && 1 <= dto.acceptedQuantity.value < received then dto.acceptedQuantity else None
  }

  function InspectItem(d: Db, id: nat, k: nat, dto: InspectionDto): (Db, Reply) {
    if id >= |d.requests| then (d, NotFound)
    else
      var r := d.requests[id];
      if r.status != Inspection then (d, Conflict)
      else if k >= |r.items| then (d, NotFound)
      else
        var item := r.items[k];
        var accepted := AcceptedBy(item, dto);
        var deduction := if dto.result == RejectedAtInspection then 0 else dto.deduction;
        var line := LineOf(d.order, item.line);
        if accepted.None? || (deduction > 0 && !dto.deductionReason) then (d, BadRequest)
        else if deduction > UnitsRefund(line, d.order.money, accepted.value) then (d, BadRequest)
        else
          var inspected := item.(
            result := Some(dto.result), accepted := accepted, deduction := deduction,
            refundAmount := Some(ItemRefund(line, d.order.money, accepted.value, deduction)));
          (With(d, id, r.(items := r.items[k := inspected])), Ok)
  }

  // ---------- what a return pays back ----------

  function UnitsHere(item: ReturnItem): nat {
    if item.result.Some? then GetOr(item.accepted, 0)
    else GetOr(item.received, GetOr(item.approved, item.quantity))
  }

  function RefundOf(order: Order): ReturnItem -> int {
    (item: ReturnItem) =>
      if item.result.Some?
      then ItemRefund(LineOf(order, item.line), order.money, UnitsHere(item), item.deduction)
      else UnitsRefund(LineOf(order, item.line), order.money, UnitsHere(item))
  }

  function ItemsTotal(order: Order, items: seq<ReturnItem>): int { Sum(items, RefundOf(order)) }

  /** Keyed by order line, a later item of the same line replacing an earlier one. */
  function AcceptedHere(items: seq<ReturnItem>, line: nat): nat {
    if items == [] then 0
    else if items[|items| - 1].line == line then UnitsHere(items[|items| - 1])
    else AcceptedHere(items[..|items| - 1], line)
  }

  function Others(d: Db, id: nat): seq<ReturnRequest>
    requires id < |d.requests|
  {
    d.requests[..id] + d.requests[id + 1..]
  }

  predicate PaidDelivery(r: ReturnRequest) { r.status == Completed && r.items != [] && r.shippingRefund > 0 }

  predicate EverythingReturned(d: Db, id: nat)
    requires id < |d.requests|
  {
    forall line :: 0 <= line < |d.order.lines| ==>
      ReturnedUnits(Others(d, id), line) + AcceptedHere(d.requests[id].items, line) >= d.order.lines[line].quantity
  }

  /** The delivery charge, when this return completes the order and no earlier one has refunded it. */
  function ShippingDue(d: Db, id: nat): nat
    requires id < |d.requests|
  {
    if (forall r :: r in Others(d, id) ==> !PaidDelivery(r)) && EverythingReturned(d, id)
    then d.order.money.shippingCharge else 0
  }

  function Total(d: Db, id: nat): int
    requires id < |d.requests|
  {
    ItemsTotal(d.order, d.requests[id].items) + ShippingDue(d, id)
  }

  function Closed(item: ReturnItem): ReturnItem {
    if item.result.Some? then item
    else item.(result := Some(RejectedAtInspection), accepted := Some(0), refundAmount := Some(0))
  }

  function Close(items: seq<ReturnItem>): seq<ReturnItem> {
    seq(|items|, k requires 0 <= k < |items| => Closed(items[k]))
  }

  function Counts(d: Db): seq<LineCount> {
    seq(|d.order.lines|, k requires 0 <= k < |d.order.lines| =>
      LineCount(d.order.lines[k].quantity, Max(0, ReturnedUnits(d.requests, k))))
  }

  function SettleOrderStatus(d: Db): Db { d.(status := OrderStatusAfterReturns(d.status, Counts(d))) }

  // ---------- refunds ----------

  /** Phase 1 of a refund: reserve the amount against the captured payment. */
  function Reserve(d: Db, amount: nat, forReturn: Option<nat>): (Db, Reply) {
    if amount == 0 then (d, BadRequest)
    else if d.order.captured.None? then (d, Conflict)
    else if Committed(d) + amount > Captured(d.order) then (d, BadRequest)
    else (d.(refunds := d.refunds + [Refund(amount, RefundPending, None, forReturn)], calls := d.calls + [Waiting]), Ok)
  }

  function SendRefund(d: Db, id: nat, amount: nat): (Db, Reply)
    requires id < |d.requests|
  {
    var sent := Reserve(SetStatus(d, id, RefundProcessing), amount, Some(id));
    if sent.1 == Ok then sent else (SetStatus(d, id, RefundApproved), sent.1)
  }

  function ApproveRefund(d: Db, id: nat): (Db, Reply) {
    if id >= |d.requests| then (d, NotFound)
    else
      var r := d.requests[id];
      if r.status != Inspection then (d, Conflict)
      else if exists k :: 0 <= k < |r.items| && GetOr(r.items[k].received, 0) > 0 && r.items[k].result.None?
      then (d, BadRequest)
      else
        var total := Total(d, id);
        var approved := With(d, id, ReturnRequest(RefundApproved, Close(r.items), ShippingDue(d, id)));
        if total <= 0 then (SettleOrderStatus(SetStatus(approved, id, Completed)), Ok)
        else SendRefund(approved, id, total)
  }

  function RetryRefund(d: Db, id: nat): (Db, Reply) {
    if id >= |d.requests| then (d, NotFound)
    else if d.requests[id].status != RefundApproved then (d, Conflict)
    else
      var outstanding := Total(d, id) - Sum(d.refunds, NotFailedFor(id));
      if outstanding <= 0 then (d, Conflict) else SendRefund(d, id, outstanding)
  }

  function RefundOrder(d: Db, amount: nat): (Db, Reply) { Reserve(d, amount, None) }

  function RefundOutcome(providerStatus: string): Verdict {
    var status := Lower(providerStatus);
    if status == "succeeded" || status == "completed" then Confirmed
    else if status == "failed" || status == "canceled" || status == "cancelled" || status == "denied" then Declined
    else Undecided
  }

  function PaymentAfter(captured: nat, processed: int): PaymentStatus {
    if processed >= captured then Refunded else PartiallyRefunded
  }

  function ApplyPaymentStatus(d: Db): Db {
    d.(payment := PaymentAfter(Captured(d.order), Sum(d.refunds, ProcessedAmount)))
  }

  function SettledAs(verdict: Verdict): RefundStatus
    requires verdict != Undecided
  {
    if verdict == Confirmed then Processed else Failed
  }

  /** A settlement that changes nothing: the refund is already there, or already paid. */
  predicate SettleIgnored(status: RefundStatus, verdict: Verdict)
    requires verdict != Undecided
  {
    status == SettledAs(verdict) || status == Processed
  }

  function Settle(d: Db, r: nat, verdict: Verdict): Db
    requires r < |d.refunds| && verdict != Undecided
  {
    var refund := d.refunds[r];
    if SettleIgnored(refund.status, verdict) then d
    else
      var written := WithRefund(d, r, refund.(status := SettledAs(verdict)));
      var paid := if verdict == Confirmed then ApplyPaymentStatus(written) else written;
      if refund.forReturn.None? || refund.forReturn.value >= |d.requests| then paid
      else
        var id := refund.forReturn.value;
        if verdict == Declined then SetStatus(paid, id, RefundApproved)
        else if Sum(paid.refunds, OpenFor(id)) == 0 then SettleOrderStatus(SetStatus(paid, id, Completed))
        else paid
  }

  /** Phases 2 and 3 of a refund: a rejected call settles it as failed; an answer is recorded first. */
  function ProviderAnswers(d: Db, r: nat, answer: Answer): Db {
    if r >= |d.calls| || r >= |d.refunds| || d.calls[r] != Waiting then d
    else match answer
      case Threw => Settle(WithCall(d, r, Finished), r, Declined)
      case Offline =>
        WithCall(WithRefund(d, r, d.refunds[r].(status := RefundSent)), r, Answered(Confirmed))
      case Replied(providerRefundId, providerStatus) =>
        var sent := d.refunds[r].(status := RefundSent, providerRefundId := Some(providerRefundId));
        var recorded := WithRefund(d, r, sent);
        var verdict := RefundOutcome(providerStatus);
        WithCall(recorded, r, if verdict == Undecided then Finished else Answered(verdict))
  }

  function SettleAnswer(d: Db, r: nat): Db {
    if r >= |d.calls| || r >= |d.refunds| || !d.calls[r].Answered? || d.calls[r].verdict == Undecided then d
    else Settle(WithCall(d, r, Finished), r, d.calls[r].verdict)
  }

  /** The first refund row carrying a provider's refund id; the number of rows if there is none. */
  function Find(refunds: seq<Refund>, providerRefundId: nat): (r: nat)
    ensures r <= |refunds|
    ensures r < |refunds| ==> refunds[r].providerRefundId == Some(providerRefundId)
    ensures forall j :: 0 <= j < r ==> refunds[j].providerRefundId != Some(providerRefundId)
  {
    if refunds == [] then 0
    else
      var init := refunds[..|refunds| - 1];
      var r := Find(init, providerRefundId);
      if r < |init| || refunds[|refunds| - 1].providerRefundId == Some(providerRefundId) then r else |refunds|
  }

  function Webhook(d: Db, providerRefundId: nat, verdict: Verdict): Db {
    var r := Find(d.refunds, providerRefundId);
    if verdict == Undecided || r == |d.refunds| then d else Settle(d, r, verdict)
  }

  /** What a webhook says of a refund: the provider's event type, its refund, and its status. */
  datatype Notice =
    | StripeNotice(eventType: string, refund: nat, status: Option<string>)
    | PaypalNotice(eventType: string, paypalRefund: Option<nat>, status: Option<string>)

  /** Events that are not about refunds decide nothing; PayPal's refund event without a status is a completion. */
  function NoticeVerdict(notice: Notice): Verdict {
    match notice
    case StripeNotice(eventType, _, status) =>
      if eventType == "refund.failed" then Declined
      else if eventType == "refund.updated" || eventType == "charge.refund.updated"
      then RefundOutcome(GetOr(status, ""))
      else Undecided
    case PaypalNotice(eventType, _, status) =>
      if eventType == "PAYMENT.CAPTURE.REFUNDED" then RefundOutcome(GetOr(status, "COMPLETED")) else Undecided
  }

  function NoticeRefund(notice: Notice): Option<nat> {
    if notice.StripeNotice? then Some(notice.refund) else notice.paypalRefund
  }

  function Receipt(d: Db, notice: Notice): Db {
    if NoticeRefund(notice).None? then d else Webhook(d, NoticeRefund(notice).value, NoticeVerdict(notice))
  }

  // ---------- runs ----------

  datatype Event =
    | ECreate(asks: seq<Ask>, now: int)
    | ECancel(id: nat)
    | EApprove(id: nat, quantities: map<nat, nat>)
    | EReject(id: nat)
    | ESchedulePickup(id: nat)
    | EMarkPickedUp(id: nat)
    | EReceive(id: nat, quantities: map<nat, nat>)
    | EStartInspection(id: nat)
    | EInspectItem(id: nat, item: nat, dto: InspectionDto)
    | EApproveRefund(id: nat)
    | ERetryRefund(id: nat)
    | ERefundOrder(amount: nat)
    | EProviderAnswers(refund: nat, answer: Answer)
    | ESettleAnswer(refund: nat)
    | EWebhook(providerRefundId: nat, verdict: Verdict)

  function Step(d: Db, e: Event): Db {
    match e
    case ECreate(asks, now) => Create(d, asks, now).0
    case ECancel(id) => Cancel(d, id).0
    case EApprove(id, quantities) => Approve(d, id, quantities).0
    case EReject(id) => Reject(d, id).0
    case ESchedulePickup(id) => SchedulePickup(d, id).0
    case EMarkPickedUp(id) => MarkPickedUp(d, id).0
    case EReceive(id, quantities) => Receive(d, id, quantities).0
    case EStartInspection(id) => StartInspection(d, id).0
    case EInspectItem(id, item, dto) => InspectItem(d, id, item, dto).0
    case EApproveRefund(id) => ApproveRefund(d, id).0
    case ERetryRefund(id) => RetryRefund(d, id).0
    case ERefundOrder(amount) => RefundOrder(d, amount).0
    case EProviderAnswers(refund, answer) => ProviderAnswers(d, refund, answer)
    case ESettleAnswer(refund) => SettleAnswer(d, refund)
    case EWebhook(providerRefundId, verdict) => Webhook(d, providerRefundId, verdict)
  }

  function Run(d: Db, es: seq<Event>): Db
    decreases |es|
  {
    if es == [] then d else Run(Step(d, es[0]), es[1..])
  }

  /** p holds of every step of the run. */
  ghost predicate Along(d: Db, es: seq<Event>, p: (Db, Event) -> bool)
    decreases |es|
  {
    es != [] ==> p(d, es[0]) && Along(Step(d, es[0]), es[1..], p)
  }

  /** An order before any return or refund is made against it. */
  predicate Fresh(d: Db) { d.requests == [] && d.refunds == [] && d.calls == [] }

  /** Re-inspecting an item never raises the quantity accepted for it. */
  predicate H1(d: Db, e: Event) {
    e.EInspectItem? && e.id < |d.requests| && e.item < |d.requests[e.id].items| ==>
      var item := d.requests[e.id].items[e.item];
      var accepted := AcceptedBy(item, e.dto);
      item.result.Some? && accepted.Some? ==> accepted.value <= GetOr(item.accepted, 0)
  }

  /** The refund an event settles as confirmed, if it does. */
  function ConfirmedBy(d: Db, e: Event): Option<nat> {
    match e
    case EWebhook(providerRefundId, verdict) =>
      var r := Find(d.refunds, providerRefundId);
      if verdict == Confirmed && r < |d.refunds| then Some(r) else None
    case ESettleAnswer(r) =>
      if r < |d.calls| && r < |d.refunds| && d.calls[r] == Answered(Confirmed) then Some(r) else None
    case _ => None
  }

  /** No refund already recorded as failed is later reported as confirmed. */
  predicate H2(d: Db, e: Event) {
    var r := ConfirmedBy(d, e);
    r.Some? && r.value < |d.refunds| ==> d.refunds[r.value].status != Failed
  }

  predicate InRefund(r: ReturnRequest) { r.status == RefundApproved || r.status == RefundProcessing }

  /** No return is approved for refund while another return's refund has yet to settle. */
  predicate H4(d: Db, e: Event) {
    e.EApproveRefund? ==> forall j :: 0 <= j < |d.requests| ==> !InRefund(d.requests[j])
  }
}
