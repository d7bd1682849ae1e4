/**
 What a payment that reaches the order is worth: the provider took the order's total in the attempt's currency, or
 the order is left as it was. Statuses and amounts are written out here.
 */
module PaymentOutcomes {
  import opened Prelude
  import opened PaymentAttempts
  import opened PaymentsService
  import Rules = ReturnRules
  import Flow = ReturnFlow

  // ---------- what the provider took ----------

  /** What the provider says it took, as far as it says so, is the order's total in the attempt's currency. */
  predicate TookTotal(total: nat, attempt: Attempt, outcome: Outcome) {
    && (outcome.paidAmount.Some? ==> outcome.paidAmount.value == total)
    && (outcome.paidCurrency.Some? ==> SameWord(outcome.paidCurrency.value, attempt.currency))
  }

  lemma MismatchIff(attempt: Attempt, outcome: Outcome)
    ensures Mismatch(attempt, outcome) <==> outcome.captured && !TookTotal(attempt.amount, attempt, outcome)
  {
    if outcome.paidCurrency.Some? { LowerSame(outcome.paidCurrency.value, attempt.currency); }
  }

  /** A captured call that may still write the order took the total. */
  predicate CallTookTotal(total: nat, attempts: seq<Attempt>, call: Call) {
    call.outcome.captured && (call.phase == Moved || call.phase == Checked(false)) ==>
      call.attempt < |attempts| && TookTotal(total, attempts[call.attempt], call.outcome)
  }

  /** The transaction is that of a captured call, under the provider's id or else the attempt's own, for the total that
      the call took. */
  predicate RecordedBy(total: nat, attempts: seq<Attempt>, t: Transaction, call: Call) {
    && call.outcome.captured && call.attempt == t.attempt < |attempts| && t.amount == total
    && TookTotal(total, attempts[call.attempt], call.outcome)
    && t.id == match call.outcome.providerTransactionId
               case Some(id) => FromProvider(id)
               case None => AttemptUuid(call.attempt)
  }

  predicate HasCall(total: nat, attempts: seq<Attempt>, t: Transaction, calls: seq<Call>) {
    exists c :: 0 <= c < |calls| && RecordedBy(total, attempts, t, calls[c])
  }

  predicate Honest(d: Db) {
    && (forall c :: 0 <= c < |d.calls| ==> CallTookTotal(d.total, d.attempts, d.calls[c]))
    && (forall t :: 0 <= t < |d.transactions| ==> HasCall(d.total, d.attempts, d.transactions[t], d.calls))
  }

  /** Attempts keep their currency and are only added to; calls keep their attempt and outcome. */
  predicate Grows(d: Db, next: Db) {
    && next.total == d.total && |d.attempts| <= |next.attempts| && |d.calls| <= |next.calls|
    && (forall a :: 0 <= a < |d.attempts| ==> next.attempts[a].currency == d.attempts[a].currency)
    && (forall c :: 0 <= c < |d.calls| ==>
          next.calls[c].attempt == d.calls[c].attempt && next.calls[c].outcome == d.calls[c].outcome)
  }

  lemma CallKept(d: Db, next: Db, t: Transaction)
    requires Grows(d, next) && HasCall(d.total, d.attempts, t, d.calls)
    ensures HasCall(next.total, next.attempts, t, next.calls)
  {
    var c :| 0 <= c < |d.calls| && RecordedBy(d.total, d.attempts, t, d.calls[c]);
    assert RecordedBy(next.total, next.attempts, t, next.calls[c]);
  }

  /** Calls and attempts may change as long as no call becomes able to write that was not. */
  lemma SameTransactionsHonest(d: Db, next: Db)
    requires Honest(d) && Grows(d, next) && next.transactions == d.transactions
    requires forall c :: 0 <= c < |next.calls| ==> CallTookTotal(next.total, next.attempts, next.calls[c])
    ensures Honest(next)
  {
    forall t | 0 <= t < |next.transactions|
      ensures HasCall(next.total, next.attempts, next.transactions[t], next.calls)
    {
      CallKept(d, next, d.transactions[t]);
    }
  }

  lemma CheckHonest(d: Db, a: nat, outcome: Outcome)
    requires Sound(d) && Honest(d)
    ensures Honest(Check(d, a, outcome))
  {
    var next := Check(d, a, outcome);
    if next != d {
      MismatchIff(d.attempts[a], outcome);
      forall c | 0 <= c < |next.calls| ensures CallTookTotal(next.total, next.attempts, next.calls[c]) {
        if c < |d.calls| { assert CallTookTotal(d.total, d.attempts, d.calls[c]); }
      }
      SameTransactionsHonest(d, next);
    }
  }

  lemma MoveHonest(d: Db, c: nat)
    requires Sound(d) && Honest(d)
    ensures Honest(Move(d, c))
  {
    var next := Move(d, c);
    if next != d {
      assert CallTookTotal(d.total, d.attempts, d.calls[c]);
      forall k | 0 <= k < |next.calls| ensures CallTookTotal(next.total, next.attempts, next.calls[k]) {
        assert CallTookTotal(d.total, d.attempts, d.calls[k]);
      }
      SameTransactionsHonest(d, next);
    }
  }

  lemma WriteHonest(d: Db, c: nat)
    requires Sound(d) && Honest(d)
    ensures Honest(WriteOrder(d, c))
  {
    var next := WriteOrder(d, c);
    if next != d {
      assert CallTookTotal(d.total, d.attempts, d.calls[c]);
      forall k | 0 <= k < |next.calls| ensures CallTookTotal(next.total, next.attempts, next.calls[k]) {
        assert CallTookTotal(d.total, d.attempts, d.calls[k]);
      }
      forall t | 0 <= t < |next.transactions|
        ensures HasCall(next.total, next.attempts, next.transactions[t], next.calls)
      {
        if t < |d.transactions| {
          CallKept(d, next, d.transactions[t]);
        } else {
          assert RecordedBy(next.total, next.attempts, next.transactions[t], next.calls[c]);
        }
      }
    }
  }

  lemma HonestStep(d: Db, e: Event)
    requires Sound(d) && Honest(d)
    ensures Honest(Step(d, e))
  {
    match e
    case ECheck(a, outcome) => CheckHonest(d, a, outcome);
    case EMove(c) => MoveHonest(d, c);
    case EWriteOrder(c) => WriteHonest(d, c);
    case _ =>
      var next := Step(d, e);
      forall c | 0 <= c < |next.calls| ensures CallTookTotal(next.total, next.attempts, next.calls[c]) {
        assert CallTookTotal(d.total, d.attempts, d.calls[c]);
      }
      SameTransactionsHonest(d, next);
  }

  lemma {:induction false} HonestRun(d: Db, es: seq<Event>)
    requires Sound(d) && Honest(d)
    ensures Honest(Run(d, es))
    decreases |es|
  {
    if es != [] {
      SoundStep(d, es[0]);
      HonestStep(d, es[0]);
      HonestRun(Step(d, es[0]), es[1..]);
    }
  }

  /** Over any interleaving: every recorded payment was reported by a call whose amount, if given, is the order's total
      and whose currency, if given, is the attempt's; and no captured call that says otherwise is ever about to write
      the order. */
  lemma PaymentsOfAnyRun(d: Db, es: seq<Event>)
    requires Fresh(d)
    ensures var end := Run(d, es);
            && (forall t :: 0 <= t < |end.transactions| ==>
                  HasCall(d.total, end.attempts, end.transactions[t], end.calls))
            && (forall c :: 0 <= c < |end.calls| && end.calls[c].phase == Moved && end.calls[c].outcome.captured ==>
                  && end.calls[c].attempt < |end.attempts|
                  && TookTotal(d.total, end.attempts[end.calls[c].attempt], end.calls[c].outcome))
  {
    HonestRun(d, es);
    TotalKept(d, es);
    var end := Run(d, es);
    forall c | 0 <= c < |end.calls| && end.calls[c].phase == Moved && end.calls[c].outcome.captured
      ensures CallTookTotal(end.total, end.attempts, end.calls[c])
    {}
  }

  // ---------- the table of statuses ----------

  predicate Live(status: AttemptStatus) { status in {Created, RequiresCustomerAction, Processing, Authorized, Unknown} }

  /** How far a payment has got; the five resolved statuses come last. */
  function Rank(status: AttemptStatus): nat {
    match status
    case Created => 0
    case RequiresCustomerAction => 1
    case Processing => 2
    case Authorized => 3
    case Unknown => 0
    case _ => 4
  }

  /** An attempt moves only forward, except by way of UNKNOWN; money that is under way no longer expires, and money that
      is authorized is no longer declined. */
  lemma TransitionIff(from: AttemptStatus, to: AttemptStatus)
    ensures to in Transitions(from) <==>
              && Live(from) && to != from && to != Created
              && (to == Unknown || Rank(from) < Rank(to))
              && (to == Expired ==> from !in {Processing, Authorized})
              && (to == Declined ==> from != Authorized)
  {}

  // ---------- creating an attempt ----------

  /** An attempt is added exactly for a positive total that is neither paid nor refunded, of an order that may be paid,
      under a key that nobody has used; otherwise nothing changes. */
  lemma CreateIff(d: Db, provider: Provider, key: nat, currency: string, now: int)
    ensures var unused := forall a :: 0 <= a < |d.attempts| ==>
                           d.attempts[a].provider != provider || d.attempts[a].key != key;
            Create(d, provider, key, currency, now).0 ==
              if (&& d.payment !in {Flow.Paid, Flow.PartiallyRefunded, Flow.Refunded}
                  && d.status in {Rules.Pending, Rules.AwaitingPayment, Rules.OrderFailed}
                  && (provider, key) !in d.keysElsewhere && unused && d.total > 0)
              then d.(attempts := d.attempts + [Attempt(provider, key, Created, d.total, currency, now, false)])
              else d
  {
    var i := FindKey(d.attempts, provider, key);
    if i < |d.attempts| { assert Keyed(d.attempts[i], provider, key); }
    if exists a :: 0 <= a < |d.attempts| && Keyed(d.attempts[a], provider, key) {
      var a :| 0 <= a < |d.attempts| && Keyed(d.attempts[a], provider, key);
    }
  }

  // ---------- an uninterrupted call ----------

  /** The rows once a call of attempt a is over and its attempt has the given status. */
  function Ended(d: Db, a: nat, outcome: Outcome, status: AttemptStatus): Db
    requires a < |d.attempts|
  {
    d.(attempts := d.attempts[a := d.attempts[a].(status := status)], calls := d.calls + [Call(a, outcome, Over)])
  }

  lemma ResolvedIsIgnored(d: Db, a: nat, outcome: Outcome)
    requires a >= |d.attempts| || d.attempts[a].status in {Captured, Failed, Declined, Cancelled, Expired}
    ensures Finalize(d, a, outcome) == (d, false)
  {}

  lemma MovedTo(d: Db, a: nat, outcome: Outcome, flagged: bool, status: AttemptStatus)
    requires a < |d.attempts| && Live(d.attempts[a].status)
    requires status == if outcome.captured && !flagged then Captured else Failed
    ensures var checked := d.(calls := d.calls + [Call(a, outcome, Checked(flagged))]);
            && !MoveThrows(checked, |d.calls|)
            && Move(checked, |d.calls|) ==
               Ended(d, a, outcome, status).(calls := d.calls + [Call(a, outcome, if flagged then Over else Moved)])
  {
    TransitionIff(d.attempts[a].status, status);
    var checked := d.(calls := d.calls + [Call(a, outcome, Checked(flagged))]);
    assert checked.calls[|d.calls| := Call(a, outcome, if flagged then Over else Moved)] ==
             d.calls + [Call(a, outcome, if flagged then Over else Moved)];
  }

  /** A payment of another amount or in another currency fails its attempt, and leaves the order as it was. */
  lemma WrongPaymentFails(d: Db, a: nat, outcome: Outcome)
    requires Sound(d) && a < |d.attempts| && Live(d.attempts[a].status)
    requires outcome.captured && !TookTotal(d.total, d.attempts[a], outcome)
    ensures Finalize(d, a, outcome) == (Ended(d, a, outcome, Failed), false)
  {
    MismatchIff(d.attempts[a], outcome);
    MovedTo(d, a, outcome, true, Failed);
  }

  /** A failed payment fails its attempt, and its order unless that is paid. */
  lemma FailedPaymentFails(d: Db, a: nat, outcome: Outcome)
    requires Sound(d) && a < |d.attempts| && Live(d.attempts[a].status) && !outcome.captured
    ensures var ended := Ended(d, a, outcome, Failed);
            Finalize(d, a, outcome) ==
              (if d.payment == Flow.Paid then ended
               else ended.(payment := Flow.PaymentFailed, status := Rules.OrderFailed), false)
  {
    MismatchIff(d.attempts[a], outcome);
    MovedTo(d, a, outcome, false, Failed);
    WrittenOver(d, a, outcome, Failed);
  }

  lemma WrittenOver(d: Db, a: nat, outcome: Outcome, status: AttemptStatus)
    requires a < |d.attempts|
    ensures (d.calls + [Call(a, outcome, Moved)])[|d.calls| := Call(a, outcome, Over)] ==
              Ended(d, a, outcome, status).calls
  {}

  /** A payment of the total captures its attempt. It is recorded, with its invoice, and the order PAID and in
      processing, exactly when the order is not PAID yet, the transaction id is new and there is no invoice; else the
      order is as it was, and a second invoice throws. */
  lemma RightPaymentPays(d: Db, a: nat, outcome: Outcome, id: TransactionId)
    requires Sound(d) && a < |d.attempts| && Live(d.attempts[a].status)
    requires outcome.captured && TookTotal(d.total, d.attempts[a], outcome)
    requires id == match outcome.providerTransactionId case Some(t) => FromProvider(t) case None => AttemptUuid(a)
    ensures var ended := Ended(d, a, outcome, Captured);
            var taken := id in d.idsElsewhere || exists t :: 0 <= t < |d.transactions| && d.transactions[t].id == id;
            Finalize(d, a, outcome) ==
              if d.payment == Flow.Paid || taken then (ended, false)
              else if d.invoices != [] then (ended, true)
              else (ended.(payment := Flow.Paid, status := Rules.Processing, invoices := [d.total],
                           transactions := d.transactions + [Transaction(id, a, d.total)]), false)
  {
    MismatchIff(d.attempts[a], outcome);
    MovedTo(d, a, outcome, false, Captured);
    WrittenOver(d, a, outcome, Captured);
    assert IdOf(Call(a, outcome, Moved)) == id;
  }

  // ---------- two calls of one attempt ----------

  /** Two calls that both found an attempt unresolved: the first resolves it; the second goes on exactly when it brings
      the same outcome, and otherwise throws and writes nothing. */
  lemma SecondCallIff(d: Db, b: nat, c: nat)
    requires b < |d.calls| && c < |d.calls| && b != c && d.calls[b].attempt == d.calls[c].attempt < |d.attempts|
    requires d.calls[b].phase == Checked(false) == d.calls[c].phase && Live(d.attempts[d.calls[b].attempt].status)
    ensures var first, agree := Move(d, b), d.calls[b].outcome.captured == d.calls[c].outcome.captured;
            var second := Move(first, c);
            && first.calls[b].phase == Moved && second.attempts == first.attempts
            && second.attempts[d.calls[b].attempt].status == (if d.calls[b].outcome.captured then Captured else Failed)
            && second.calls[c].phase == (if agree then Moved else Over)
            && (MoveThrows(first, c) <==> !agree)
  {
    TransitionIff(d.attempts[d.calls[b].attempt].status, Captured);
    TransitionIff(d.attempts[d.calls[b].attempt].status, Failed);
  }

  // ---------- the sweep ----------

  predicate FoundPaid(a: nat, answers: map<nat, Outcome>) { a in answers && answers[a].captured }

  /** What a sweep leaves of an attempt. */
  function SweptStatus(total: nat, attempt: Attempt, outcome: Outcome): AttemptStatus {
    if TookTotal(total, attempt, outcome) then Captured else Failed
  }

  predicate Distinct(pending: seq<nat>) { forall i, j :: 0 <= i < j < |pending| ==> pending[i] != pending[j] }

  lemma FinalizeResolves(d: Db, a: nat, outcome: Outcome)
    requires Sound(d) && a < |d.attempts| && Live(d.attempts[a].status) && outcome.captured
    ensures var next := Finalize(d, a, outcome).0;
            && next.total == d.total
            && next.attempts == d.attempts[a := d.attempts[a].(status := SweptStatus(d.total, d.attempts[a], outcome))]
  {
    if TookTotal(d.total, d.attempts[a], outcome) {
      RightPaymentPays(d, a, outcome,
        match outcome.providerTransactionId case Some(t) => FromProvider(t) case None => AttemptUuid(a));
    } else {
      WrongPaymentFails(d, a, outcome);
    }
  }

  /** A sweep over different live attempts resolves exactly those that were found paid, as captured when the provider
      took the order's total and as failed otherwise, and counts no more than it looked at. */
  lemma {:induction false} SweepResolves(d: Db, pending: seq<nat>, answers: map<nat, Outcome>)
    requires Sound(d) && Distinct(pending)
    requires forall i :: 0 <= i < |pending| ==> pending[i] < |d.attempts| && Live(d.attempts[pending[i]].status)
    ensures var end := Reconcile(d, pending, answers).0;
            && end.total == d.total && |end.attempts| == |d.attempts|
            && forall a :: 0 <= a < |d.attempts| ==>
                 end.attempts[a] ==
                   if a in pending && FoundPaid(a, answers)
                   then d.attempts[a].(status := SweptStatus(d.total, d.attempts[a], answers[a])) else d.attempts[a]
    ensures Reconcile(d, pending, answers).1 <= |pending|
    decreases |pending|
  {
    if pending != [] {
      var n := |pending| - 1;
      var last := pending[n];
      var before := Reconcile(d, pending[..n], answers).0;
      forall i | 0 <= i < n ensures pending[..n][i] < |d.attempts| && Live(d.attempts[pending[..n][i]].status) {
        assert pending[..n][i] == pending[i];
      }
      assert Distinct(pending[..n]);
      SweepResolves(d, pending[..n], answers);
      assert last !in pending[..n];
      assert forall a :: a in pending <==> a in pending[..n] || a == last;
      if FoundPaid(last, answers) {
        ReconcileIsSound(d, pending[..n], answers);
        FinalizeResolves(before, last, answers[last]);
      }
    }
  }
}
