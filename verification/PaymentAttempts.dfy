/**
 Payment attempts of one order. finalizeCapture is called by the capture endpoint, by webhooks and by the
 reconciliation sweep; each call checks the attempt, moves its status, and then writes the order, and calls may
 interleave at those boundaries and disagree about the outcome.
 */
module PaymentAttempts {
  import opened Prelude
  import Rules = ReturnRules
  import Flow = ReturnFlow

  type OrderStatus = Rules.OrderStatus
  type PaymentStatus = Flow.PaymentStatus

  datatype AttemptStatus =
    | Created | RequiresCustomerAction | Processing | Authorized | Captured
    | Declined | Failed | Cancelled | Expired | Unknown

  datatype Provider = Stripe | Paypal

  /** `atProvider` is set once the provider knows the attempt. */
  datatype Attempt = Attempt(
    provider: Provider, key: nat, status: AttemptStatus, amount: nat, currency: string, createdAt: int,
    atProvider: bool)

  /** What the provider reported. */
  datatype Outcome = Outcome(
    captured: bool, providerTransactionId: Option<nat>, paidAmount: Option<nat>, paidCurrency: Option<string>)

  datatype TransactionId = FromProvider(id: nat) | AttemptUuid(attempt: nat)

  datatype Transaction = Transaction(id: TransactionId, attempt: nat, amount: nat)

  /** Where a call of finalizeCapture stands: it has checked the attempt, or has moved its status and still has
      to write the order, or is over. */
  datatype Phase = Checked(flagged: bool) | Moved | Over

  datatype Call = Call(attempt: nat, outcome: Outcome, phase: Phase)

  /** `idsElsewhere` and `keysElsewhere` are the transaction ids and idempotency keys of other orders. */
  datatype Db = Db(
    total: nat, status: OrderStatus, payment: PaymentStatus,
    attempts: seq<Attempt>, transactions: seq<Transaction>, invoices: seq<nat>,
    idsElsewhere: set<TransactionId>, keysElsewhere: set<(Provider, nat)>, calls: seq<Call>)

  datatype Reply = Ok(attempt: nat) | Conflict | Refused

  function Transitions(from: AttemptStatus): set<AttemptStatus> {
    match from
    case Created =>
      {RequiresCustomerAction, Processing, Authorized, Captured, Declined, Failed, Cancelled, Expired, Unknown}
    case RequiresCustomerAction =>
      {Processing, Authorized, Captured, Declined, Failed, Cancelled, Expired, Unknown}
    case Processing => {Authorized, Captured, Declined, Failed, Cancelled, Unknown}
    case Authorized => {Captured, Failed, Cancelled, Unknown}
    case Unknown =>
      {RequiresCustomerAction, Processing, Authorized, Captured, Declined, Failed, Cancelled, Expired}
    case _ => {}
  }

  predicate Terminal(status: AttemptStatus) { status in {Captured, Failed, Declined, Cancelled, Expired} }

  predicate Settled(payment: PaymentStatus) {
    payment in {Flow.Paid, Flow.PartiallyRefunded, Flow.Refunded}
  }

  predicate Payable(status: OrderStatus) {
    status in {Rules.Pending, Rules.AwaitingPayment, Rules.OrderFailed}
  }

  // ---------- creating an attempt ----------

  predicate Keyed(attempt: Attempt, provider: Provider, key: nat) {
    attempt.provider == provider && attempt.key == key
  }

  function FindKey(attempts: seq<Attempt>, provider: Provider, key: nat): (i: nat)
    ensures i <= |attempts|
    ensures i < |attempts| ==> Keyed(attempts[i], provider, key)
    ensures i == |attempts| ==> forall j :: 0 <= j < |attempts| ==> !Keyed(attempts[j], provider, key)
  {
    if attempts == [] then 0
    else
      var init := attempts[..|attempts| - 1];
      var i := FindKey(init, provider, key);
      if i < |init| || Keyed(attempts[|attempts| - 1], provider, key) then i else |attempts|
  }

  /** An amount of zero breaks a constraint of the attempts table. */
  function Create(d: Db, provider: Provider, key: nat, currency: string, now: int): (Db, Reply) {
    if Settled(d.payment) || !Payable(d.status) then (d, Conflict)
    else if (provider, key) in d.keysElsewhere then (d, Conflict)
    else
      var i := FindKey(d.attempts, provider, key);
      if i < |d.attempts| then (d, Ok(i))
      else if d.total == 0 then (d, Refused)
      else (d.(attempts := d.attempts + [Attempt(provider, key, Created, d.total, currency, now, false)]), Ok(i))
  }

  // ---------- finalising a capture ----------

  /** What the provider took must match what was asked for. */
  predicate Mismatch(attempt: Attempt, outcome: Outcome) {
    outcome.captured &&
    (|| (outcome.paidAmount.Some? && outcome.paidAmount.value != attempt.amount)
     || (outcome.paidCurrency.Some? && Lower(outcome.paidCurrency.value) != Lower(attempt.currency)))
  }

  /** Phase 1. An attempt already resolved ends the call at once. */
  function Check(d: Db, a: nat, outcome: Outcome): Db {
    if a >= |d.attempts| || Terminal(d.attempts[a].status) then d
    else d.(calls := d.calls + [Call(a, outcome, Checked(Mismatch(d.attempts[a], outcome)))])
  }

  /** The serializable status change; asking for the status it already has succeeds. */
  function Transition(d: Db, a: nat, to: AttemptStatus): (Db, bool) {
    if a >= |d.attempts| then (d, false)
    else if d.attempts[a].status == to then (d, true)
    else if to !in Transitions(d.attempts[a].status) then (d, false)
    else (d.(attempts := d.attempts[a := d.attempts[a].(status := to)]), true)
  }

  function Target(call: Call): AttemptStatus {
    if call.outcome.captured && !(call.phase.Checked? && call.phase.flagged) then Captured else Failed
  }

  /** Phase 2. A refused transition throws; a flagged payment stops here for manual review. */
  function Move(d: Db, c: nat): Db {
    if c >= |d.calls| || !d.calls[c].phase.Checked? then d
    else
      var call := d.calls[c];
      var moved := Transition(d, call.attempt, Target(call));
      var phase := if moved.1 && !call.phase.flagged then Moved else Over;
      moved.0.(calls := d.calls[c := call.(phase := phase)])
  }

  function IdOf(call: Call): TransactionId {
    if call.outcome.providerTransactionId.Some? then FromProvider(call.outcome.providerTransactionId.value)
    else AttemptUuid(call.attempt)
  }

  predicate IdTaken(d: Db, id: TransactionId) {
    id in d.idsElsewhere || exists t :: 0 <= t < |d.transactions| && d.transactions[t].id == id
  }

  /** Phase 3, one database transaction: a taken transaction id ends it, a second invoice aborts it. */
  function WriteOrder(d: Db, c: nat): Db {
    if c >= |d.calls| || d.calls[c].phase != Moved || d.calls[c].attempt >= |d.attempts| then d
    else
      var call := d.calls[c];
      var over := d.(calls := d.calls[c := call.(phase := Over)]);
      if d.payment == Flow.Paid then over
      else if !call.outcome.captured then over.(payment := Flow.PaymentFailed, status := Rules.OrderFailed)
      else if IdTaken(d, IdOf(call)) || d.invoices != [] then over
      else over.(
        transactions := d.transactions + [Transaction(IdOf(call), call.attempt, d.attempts[call.attempt].amount)],
        payment := Flow.Paid, status := Rules.Processing, invoices := [d.total])
  }

  // ---------- runs ----------

  datatype Event =
    | ECreate(provider: Provider, key: nat, currency: string, now: int)
    /** the provider has been told of an attempt */
    | EAtProvider(attempt: nat)
    | ECheck(attempt: nat, outcome: Outcome)
    | EMove(call: nat)
    | EWriteOrder(call: nat)
    | ECrash(call: nat)
    /** any other change of an attempt's status through the transition table */
    | EAttemptMoves(attempt: nat, to: AttemptStatus)
    /** a refund of the captured payment is confirmed, in part or in full */
    | ERefundConfirmed(full: bool)
    /** shipping, delivery, cancellation, returns: the order's status, not its payment */
    | EOrderMoves(status: OrderStatus)

  function Step(d: Db, e: Event): Db {
    match e
    case ECreate(provider, key, currency, now) => Create(d, provider, key, currency, now).0
    case EAtProvider(a) =>
      if a < |d.attempts| then d.(attempts := d.attempts[a := d.attempts[a].(atProvider := true)]) else d
    case ECheck(a, outcome) => Check(d, a, outcome)
    case EMove(c) => Move(d, c)
    case EWriteOrder(c) => WriteOrder(d, c)
    case ECrash(c) => if c < |d.calls| then d.(calls := d.calls[c := d.calls[c].(phase := Over)]) else d
    case EAttemptMoves(a, to) => Transition(d, a, to).0
    case ERefundConfirmed(full) =>
      if d.transactions == [] then d else d.(payment := if full then Flow.Refunded else Flow.PartiallyRefunded)
    case EOrderMoves(status) => d.(status := status)
  }

  function Run(d: Db, es: seq<Event>): Db
    decreases |es|
  {
    if es == [] then d else Run(Step(d, es[0]), es[1..])
  }

  predicate Fresh(d: Db) {
    d.attempts == [] && d.transactions == [] && d.invoices == [] && d.calls == [] && d.payment == Flow.PaymentPending
  }

  // ---------- what every run keeps ----------

  predicate CallAgrees(d: Db, call: Call) {
    && call.attempt < |d.attempts|
    && (call.phase == Moved ==> d.attempts[call.attempt].status == if call.outcome.captured then Captured else Failed)
  }

  predicate Priced(attempts: seq<Attempt>, total: nat) {
    forall a :: 0 <= a < |attempts| ==> attempts[a].amount == total > 0
  }

  predicate KeysDiffer(attempts: seq<Attempt>) {
    forall a, b :: 0 <= a < b < |attempts| ==> !Keyed(attempts[b], attempts[a].provider, attempts[a].key)
  }

  /** At most one payment, with its invoice, and both for the order's total. */
  predicate Recorded(transactions: seq<Transaction>, invoices: seq<nat>, total: nat) {
    && |transactions| == |invoices| <= 1
    && forall t :: 0 <= t < |transactions| ==> transactions[t].amount == total == invoices[t]
  }

  predicate Sound(d: Db) {
    && (forall c :: 0 <= c < |d.calls| ==> CallAgrees(d, d.calls[c]))
    && Priced(d.attempts, d.total) && KeysDiffer(d.attempts) && Recorded(d.transactions, d.invoices, d.total)
    && (Settled(d.payment) ==> |d.transactions| == 1)
  }

  /** The terminal statuses are exactly those with no way out. */
  lemma TerminalIffNoWayOut(status: AttemptStatus)
    ensures Terminal(status) <==> Transitions(status) == {}
  {
    if !Terminal(status) { assert Captured in Transitions(status); }
  }

  lemma CreateSound(d: Db, provider: Provider, key: nat, currency: string, now: int)
    requires Sound(d)
    ensures Sound(Create(d, provider, key, currency, now).0)
  {
    var next := Create(d, provider, key, currency, now).0;
    forall c | 0 <= c < |next.calls| ensures CallAgrees(next, next.calls[c]) { assert CallAgrees(d, d.calls[c]); }
  }

  /** A change of one attempt's status along the table: calls that have moved their attempt keep it. */
  lemma TransitionSound(d: Db, a: nat, to: AttemptStatus)
    requires Sound(d)
    ensures Sound(Transition(d, a, to).0)
  {
    var next := Transition(d, a, to).0;
    forall c | 0 <= c < |next.calls| ensures CallAgrees(next, next.calls[c]) { assert CallAgrees(d, d.calls[c]); }
  }

  lemma AtProviderSound(d: Db, a: nat)
    requires Sound(d)
    ensures Sound(Step(d, EAtProvider(a)))
  {
    var next := Step(d, EAtProvider(a));
    forall c | 0 <= c < |next.calls| ensures CallAgrees(next, next.calls[c]) { assert CallAgrees(d, d.calls[c]); }
  }

  lemma CallSound(d: Db, c: nat, call: Call)
    requires Sound(d) && c < |d.calls| && CallAgrees(d, call)
    ensures Sound(d.(calls := d.calls[c := call]))
  {
    var next := d.(calls := d.calls[c := call]);
    forall k | 0 <= k < |next.calls| ensures CallAgrees(next, next.calls[k]) {
      if k != c { assert CallAgrees(d, d.calls[k]); }
    }
  }

  lemma CheckSound(d: Db, a: nat, outcome: Outcome)
    requires Sound(d)
    ensures Sound(Check(d, a, outcome))
  {
    var next := Check(d, a, outcome);
    forall c | 0 <= c < |next.calls| ensures CallAgrees(next, next.calls[c]) {
      if c < |d.calls| { assert CallAgrees(d, d.calls[c]); }
    }
  }

  lemma MoveSound(d: Db, c: nat)
    requires Sound(d)
    ensures Sound(Move(d, c))
  {
    if c < |d.calls| && d.calls[c].phase.Checked? {
      var call := d.calls[c];
      assert CallAgrees(d, call);
      TransitionSound(d, call.attempt, Target(call));
      var moved := Transition(d, call.attempt, Target(call)).0;
      CallSound(moved, c, Move(d, c).calls[c]);
    }
  }

  lemma WriteOrderSound(d: Db, c: nat)
    requires Sound(d)
    ensures Sound(WriteOrder(d, c))
  {
    if c < |d.calls| && d.calls[c].phase == Moved {
      assert CallAgrees(d, d.calls[c]);
      CallSound(d, c, d.calls[c].(phase := Over));
      var next := WriteOrder(d, c);
      forall k | 0 <= k < |next.calls| ensures CallAgrees(next, next.calls[k]) { assert CallAgrees(d, d.calls[k]); }
    }
  }

  lemma SoundStep(d: Db, e: Event)
    requires Sound(d)
    ensures Sound(Step(d, e))
  {
    match e
    case ECreate(provider, key, currency, now) => CreateSound(d, provider, key, currency, now);
    case EAtProvider(a) => AtProviderSound(d, a);
    case ECheck(a, outcome) => CheckSound(d, a, outcome);
    case EMove(c) => MoveSound(d, c);
    case EWriteOrder(c) => WriteOrderSound(d, c);
    case ECrash(c) =>
      if c < |d.calls| {
        assert CallAgrees(d, d.calls[c]);
        CallSound(d, c, d.calls[c].(phase := Over));
      }
    case EAttemptMoves(a, to) => TransitionSound(d, a, to);
    case ERefundConfirmed(_) =>
      forall c | 0 <= c < |d.calls| ensures CallAgrees(Step(d, e), d.calls[c]) { assert CallAgrees(d, d.calls[c]); }
    case EOrderMoves(_) =>
      forall c | 0 <= c < |d.calls| ensures CallAgrees(Step(d, e), d.calls[c]) { assert CallAgrees(d, d.calls[c]); }
  }

  lemma {:induction false} SoundRun(d: Db, es: seq<Event>)
    requires Sound(d)
    ensures Sound(Run(d, es))
    decreases |es|
  {
    if es != [] {
      SoundStep(d, es[0]);
      SoundRun(Step(d, es[0]), es[1..]);
    }
  }

  /** In any interleaving of any calls, a call about to write the order carries the outcome stored on its
      attempt, and two such calls of one attempt carry the same outcome. */
  lemma OrderWriteMatchesAttempt(d: Db, es: seq<Event>)
    requires Fresh(d)
    ensures var end := Run(d, es);
            && (forall c :: 0 <= c < |end.calls| && end.calls[c].phase == Moved ==>
                  && end.calls[c].attempt < |end.attempts|
                  && end.attempts[end.calls[c].attempt].status ==
                     if end.calls[c].outcome.captured then Captured else Failed)
            && (forall b, c ::
                  (0 <= b < |end.calls| && 0 <= c < |end.calls| && end.calls[b].phase == Moved == end.calls[c].phase
                   && end.calls[b].attempt == end.calls[c].attempt) ==>
                  end.calls[b].outcome.captured == end.calls[c].outcome.captured)
  {
    SoundRun(d, es);
    var end := Run(d, es);
    forall c | 0 <= c < |end.calls| ensures CallAgrees(end, end.calls[c]) {}
  }

  /** An attempt never leaves a terminal status. */
  lemma {:induction false} TerminalForGood(d: Db, es: seq<Event>, a: nat)
    requires a < |d.attempts| && Terminal(d.attempts[a].status)
    ensures a < |Run(d, es).attempts|
    ensures Run(d, es).attempts[a] == d.attempts[a].(atProvider := Run(d, es).attempts[a].atProvider)
    decreases |es|
  {
    if es != [] { TerminalForGood(Step(d, es[0]), es[1..], a); }
  }

  // ---------- paid exactly once ----------

  /** Before any refund: PAID means the payment is recorded, and nothing else is. */
  predicate PaidIsRecorded(d: Db) {
    && (d.payment == Flow.Paid <==> |d.transactions| == 1)
    && d.payment != Flow.Refunded && d.payment != Flow.PartiallyRefunded
  }

  predicate NoRefunds(es: seq<Event>) { forall i :: 0 <= i < |es| ==> !es[i].ERefundConfirmed? }

  lemma {:induction false} PaidRun(d: Db, es: seq<Event>)
    requires Sound(d) && PaidIsRecorded(d) && NoRefunds(es)
    ensures Sound(Run(d, es)) && PaidIsRecorded(Run(d, es))
    decreases |es|
  {
    if es != [] {
      SoundStep(d, es[0]);
      PaidRun(Step(d, es[0]), es[1..]);
    }
  }

  /** Before any refund, over any number of attempts and any interleaving of their calls: the order is PAID
      exactly when it has one payment transaction and one invoice, and both are for the order's total. */
  lemma PaidIffRecordedOnce(d: Db, es: seq<Event>)
    requires Fresh(d) && NoRefunds(es)
    ensures var end := Run(d, es);
            && (end.payment == Flow.Paid <==> |end.transactions| == 1 && |end.invoices| == 1)
            && (end.payment != Flow.Paid ==> end.transactions == [] && end.invoices == [])
            && (end.payment == Flow.Paid ==> end.transactions[0].amount == d.total == end.invoices[0])
  {
    PaidRun(d, es);
    TotalKept(d, es);
  }

  lemma {:induction false} TotalKept(d: Db, es: seq<Event>)
    ensures Run(d, es).total == d.total
    decreases |es|
  {
    if es != [] { TotalKept(Step(d, es[0]), es[1..]); }
  }

  /** With refunds mixed in as well, an order never has a second captured payment or a second invoice. */
  lemma AtMostOnePayment(d: Db, es: seq<Event>)
    requires Fresh(d)
    ensures var end := Run(d, es);
            |end.transactions| == |end.invoices| <= 1 && (Settled(end.payment) ==> |end.transactions| == 1)
  {
    SoundRun(d, es);
  }

  /** Exactly when writing a call's outcome leaves a paid or refunded order's payment status standing: a
      failure overwrites it unless the order is PAID, because only PAID is looked at. */
  lemma PaymentStatusStandsIff(d: Db, c: nat)
    requires Sound(d) && Settled(d.payment) && c < |d.calls| && d.calls[c].phase == Moved
    ensures Settled(WriteOrder(d, c).payment) <==> d.calls[c].outcome.captured || d.payment == Flow.Paid
    ensures WriteOrder(d, c).payment == d.payment || WriteOrder(d, c).payment == Flow.PaymentFailed
  {
    assert CallAgrees(d, d.calls[c]);
  }

  // ---------- captured but not recorded ----------

  /** The writes of a call that add its payment: nothing else has paid the order, and its transaction id is new. */
  predicate Records(d: Db, c: nat) {
    && c < |d.calls| && d.calls[c].phase == Moved && d.calls[c].attempt < |d.attempts| && d.calls[c].outcome.captured
    && d.payment != Flow.Paid && !IdTaken(d, IdOf(d.calls[c])) && d.invoices == []
  }

  /** Exactly when a captured call that reaches the order leaves its own payment recorded. */
  lemma CaptureIsRecordedIff(d: Db, c: nat)
    requires Sound(d) && c < |d.calls| && d.calls[c].phase == Moved && d.calls[c].outcome.captured
    ensures var own := Transaction(IdOf(d.calls[c]), d.calls[c].attempt, d.total);
            WriteOrder(d, c).transactions == d.transactions + [own] <==>
              d.payment != Flow.Paid && !IdTaken(d, IdOf(d.calls[c])) && d.invoices == []
    ensures !Records(d, c) ==> WriteOrder(d, c).transactions == d.transactions
  {
    assert CallAgrees(d, d.calls[c]);
    assert |d.transactions| != |d.transactions + [Transaction(IdOf(d.calls[c]), d.calls[c].attempt, d.total)]|;
  }

  predicate HasTransaction(d: Db, a: nat) { exists t :: 0 <= t < |d.transactions| && d.transactions[t].attempt == a }

  predicate RecordsFor(d: Db, e: Event, a: nat) { e.EWriteOrder? && Records(d, e.call) && d.calls[e.call].attempt == a }

  /** Some step of the run records the payment of attempt a. */
  ghost predicate EverRecorded(d: Db, es: seq<Event>, a: nat)
    decreases |es|
  {
    es != [] && (RecordsFor(d, es[0], a) || EverRecorded(Step(d, es[0]), es[1..], a))
  }

  lemma RecordedStep(d: Db, e: Event, a: nat)
    ensures HasTransaction(Step(d, e), a) <==> HasTransaction(d, a) || RecordsFor(d, e, a)
  {
    var next := Step(d, e);
    if e.EWriteOrder? && Records(d, e.call) {
      var own := next.transactions[|d.transactions|];
      assert next.transactions == d.transactions + [own] && own.attempt == d.calls[e.call].attempt;
      if HasTransaction(d, a) {
        var t :| 0 <= t < |d.transactions| && d.transactions[t].attempt == a;
        assert next.transactions[t].attempt == a;
      }
    } else {
      assert next.transactions == d.transactions;
    }
  }

  /** Over any run, an attempt has a transaction exactly if it had one or some step recorded its payment: a CAPTURED
      attempt has none exactly when no call of it reached the order while that was still unpaid. */
  lemma {:induction false} TransactionIffRecorded(d: Db, es: seq<Event>, a: nat)
    ensures HasTransaction(Run(d, es), a) <==> HasTransaction(d, a) || EverRecorded(d, es, a)
    decreases |es|
  {
    if es != [] {
      RecordedStep(d, es[0], a);
      TransactionIffRecorded(Step(d, es[0]), es[1..], a);
    }
  }

  /** Of two captured attempts of one order, one has no transaction, on every run. */
  lemma SecondCaptureHasNone(d: Db, es: seq<Event>, a: nat, b: nat)
    requires Fresh(d) && a != b
    ensures !HasTransaction(Run(d, es), a) || !HasTransaction(Run(d, es), b)
  {
    SoundRun(d, es);
  }

  /** A captured attempt without a transaction, and no call of it under way. */
  predicate Stranded(d: Db, a: nat) {
    && a < |d.attempts| && d.attempts[a].status == Captured && !HasTransaction(d, a)
    && forall c :: 0 <= c < |d.calls| && d.calls[c].attempt == a ==> d.calls[c].phase == Over
  }

  lemma StrandedStep(d: Db, e: Event, a: nat)
    requires Stranded(d, a)
    ensures Stranded(Step(d, e), a)
  {
    RecordedStep(d, e, a);
    var next := Step(d, e);
    forall c | 0 <= c < |next.calls| && next.calls[c].attempt == a ensures next.calls[c].phase == Over {
      if c < |d.calls| { assert next.calls[c].attempt == d.calls[c].attempt; }
    }
  }

  /** It stays so: later calls stop at the status, and its payment is never recorded. */
  lemma {:induction false} StrandedForGood(d: Db, es: seq<Event>, a: nat)
    requires Stranded(d, a)
    ensures Stranded(Run(d, es), a)
    decreases |es|
  {
    if es != [] {
      StrandedStep(d, es[0], a);
      StrandedForGood(Step(d, es[0]), es[1..], a);
    }
  }
}
