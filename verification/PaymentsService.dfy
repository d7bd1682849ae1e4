/**
 The payment services over their rows: creating attempts, the three phases of finalizeCapture, and the sweep that
 asks providers about payments whose webhooks never arrived. Each method leaves exactly the rows of its transition in
 PaymentAttempts.
 */
module PaymentsService {
  import opened Prelude
  import opened PaymentAttempts
  import Rules = ReturnRules
  import Flow = ReturnFlow

  // ---------- the reconciliation sweep ----------

  const SETTLE_GRACE_MILLIS := 10 * 60 * 1000
  const GIVE_UP_MILLIS := 24 * 60 * 60 * 1000

  /** Unsettled, known to the provider, and neither too young nor too old. */
  predicate IsPending(attempt: Attempt, now: int) {
    && attempt.status in {Created, RequiresCustomerAction, Processing} && attempt.atProvider
    && now - GIVE_UP_MILLIS < attempt.createdAt < now - SETTLE_GRACE_MILLIS
  }

  function Pending(attempts: seq<Attempt>, now: int): seq<nat> {
    if attempts == [] then []
    else
      var n := |attempts| - 1;
      Pending(attempts[..n], now) + if IsPending(attempts[n], now) then [n] else []
  }

  lemma {:induction false} PendingMeaning(attempts: seq<Attempt>, now: int)
    ensures forall i :: 0 <= i < |Pending(attempts, now)| ==> Pending(attempts, now)[i] < |attempts|
    ensures forall a :: 0 <= a < |attempts| ==> (a in Pending(attempts, now) <==> IsPending(attempts[a], now))
    ensures forall a :: 0 <= a < |attempts| ==>
              (a in Pending(attempts, now) <==>
                 && attempts[a].status in {Created, RequiresCustomerAction, Processing} && attempts[a].atProvider
                 && attempts[a].createdAt + 600_000 < now < attempts[a].createdAt + 86_400_000)
    ensures forall i, j :: 0 <= i < j < |Pending(attempts, now)| ==>
              Pending(attempts, now)[i] < Pending(attempts, now)[j]
    decreases |attempts|
  {
    if attempts != [] {
      var n := |attempts| - 1;
      PendingMeaning(attempts[..n], now);
      var before := Pending(attempts[..n], now);
      forall a | 0 <= a < |attempts| ensures a in Pending(attempts, now) <==> IsPending(attempts[a], now) {
        if a < n {
          assert attempts[..n][a] == attempts[a];
        } else {
          assert forall i :: 0 <= i < |before| ==> before[i] != n;
        }
      }
    }
  }

  /** A refused status change throws. */
  predicate MoveThrows(d: Db, c: nat) {
    c < |d.calls| && d.calls[c].phase.Checked? && !Transition(d, d.calls[c].attempt, Target(d.calls[c])).1
  }

  /** So does a second invoice for the order. */
  predicate WriteThrows(d: Db, c: nat) {
    && c < |d.calls| && d.calls[c].phase == Moved && d.calls[c].attempt < |d.attempts| && d.calls[c].outcome.captured
    && d.payment != Flow.Paid && !IdTaken(d, IdOf(d.calls[c])) && d.invoices != []
  }

  /** The three phases of one call with nothing in between; the call may throw. */
  function Finalize(d: Db, a: nat, outcome: Outcome): (Db, bool) {
    var checked, c := Check(d, a, outcome), |d.calls|;
    if |checked.calls| == c then (checked, false)
    else (WriteOrder(Move(checked, c), c), MoveThrows(checked, c) || WriteThrows(Move(checked, c), c))
  }

  predicate Paying(answer: Option<Outcome>) { answer.Some? && answer.value.captured }

  /** For each pending attempt, what its provider says when asked: nothing, an unpaid session, or a payment. An
      attempt counts as settled when it was found paid and its call did not throw. */
  function Reconcile(d: Db, pending: seq<nat>, answers: map<nat, Outcome>): (Db, nat)
    decreases |pending|
  {
    if pending == [] then (d, 0)
    else
      var last := |pending| - 1;
      var before := Reconcile(d, pending[..last], answers);
      var answer := if pending[last] in answers then Some(answers[pending[last]]) else None;
      if !Paying(answer) then before
      else
        var done := Finalize(before.0, pending[last], answer.value);
        (done.0, if done.1 then before.1 else before.1 + 1)
  }

  /** A sweep is one of the interleavings: whatever it settles, it settles as a run would. */
  lemma FinalizeIsRun(d: Db, a: nat, outcome: Outcome)
    requires Sound(d)
    ensures Sound(Finalize(d, a, outcome).0)
    ensures |Finalize(d, a, outcome).0.calls| > |d.calls| ==>
              Finalize(d, a, outcome).0 ==
                  Step(Step(Step(d, ECheck(a, outcome)), EMove(|d.calls|)), EWriteOrder(|d.calls|))
  {
    SoundStep(d, ECheck(a, outcome));
    SoundStep(Check(d, a, outcome), EMove(|d.calls|));
    SoundStep(Move(Check(d, a, outcome), |d.calls|), EWriteOrder(|d.calls|));
  }

  lemma {:induction false} ReconcileIsSound(d: Db, pending: seq<nat>, answers: map<nat, Outcome>)
    requires Sound(d)
    ensures Sound(Reconcile(d, pending, answers).0)
    decreases |pending|
  {
    if pending != [] {
      var last := |pending| - 1;
      ReconcileIsSound(d, pending[..last], answers);
      if pending[last] in answers {
        FinalizeIsRun(Reconcile(d, pending[..last], answers).0, pending[last], answers[pending[last]]);
      }
    }
  }

  class PaymentsDatabase {
    const total: nat
    var status: OrderStatus
    var payment: PaymentStatus
    var attempts: seq<Attempt>
    var transactions: seq<Transaction>
    var invoices: seq<nat>
    const idsElsewhere: set<TransactionId>
    const keysElsewhere: set<(Provider, nat)>
    var calls: seq<Call>

    ghost function Rows(): Db
      reads this
    {
      Db(total, status, payment, attempts, transactions, invoices, idsElsewhere, keysElsewhere, calls)
    }

    method CreateAttempt(provider: Provider, key: nat, currency: string, now: int) returns (reply: Reply)
      modifies this
      ensures (Rows(), reply) == Create(old(Rows()), provider, key, currency, now)
    {
      if payment in {Flow.Paid, Flow.PartiallyRefunded, Flow.Refunded} { return Conflict; }
      if !Payable(status) { return Conflict; }
      if (provider, key) in keysElsewhere { return Conflict; }
      var i := FindKey(attempts, provider, key);
      if i < |attempts| { return Ok(i); }
      if total == 0 { return Refused; }
      attempts := attempts + [Attempt(provider, key, Created, total, currency, now, false)];
      reply := Ok(i);
    }

    method ChangeStatus(a: nat, to: AttemptStatus) returns (allowed: bool)
      modifies `attempts
      ensures (Rows(), allowed) == Transition(old(Rows()), a, to)
    {
      if a >= |attempts| { return false; }
      if attempts[a].status == to { return true; }
      if to !in Transitions(attempts[a].status) { return false; }
      attempts := attempts[a := attempts[a].(status := to)];
      allowed := true;
    }

    /** Phase 1: whether the call goes on. */
    method BeginCapture(a: nat, outcome: Outcome) returns (live: bool)
      modifies `calls
      ensures Rows() == Check(old(Rows()), a, outcome)
      ensures live <==> |calls| == |old(calls)| + 1
      ensures !live ==> calls == old(calls)
    {
      if a >= |attempts| { return false; }
      if Terminal(attempts[a].status) { return false; }
      calls := calls + [Call(a, outcome, Checked(Mismatch(attempts[a], outcome)))];
      live := true;
    }

    /** Phase 2. */
    method MoveAttempt(c: nat) returns (threw: bool)
      modifies this
      ensures Rows() == Move(old(Rows()), c) && threw == MoveThrows(old(Rows()), c)
    {
      if c >= |calls| || !calls[c].phase.Checked? { return false; }
      var call := calls[c];
      if call.phase.flagged {
        var done := ChangeStatus(call.attempt, Failed);
        calls := calls[c := call.(phase := Over)];
        return !done;
      }
      var allowed := ChangeStatus(call.attempt, if call.outcome.captured then Captured else Failed);
      calls := calls[c := call.(phase := if allowed then Moved else Over)];
      threw := !allowed;
    }

    /** Phase 3: the rows written before the invoice are rolled back when the order already has one. */
    method WriteOutcome(c: nat) returns (threw: bool)
      modifies this
      ensures Rows() == WriteOrder(old(Rows()), c) && threw == WriteThrows(old(Rows()), c)
    {
      if c >= |calls| || calls[c].phase != Moved || calls[c].attempt >= |attempts| { return false; }
      var call := calls[c];
      calls := calls[c := call.(phase := Over)];
      if payment == Flow.Paid { return false; }
      if call.outcome.captured {
        var id := IdOf(call);
        if id in idsElsewhere || exists t :: 0 <= t < |transactions| && transactions[t].id == id { return false; }
        var saved := (transactions, payment, status);
        transactions := transactions + [Transaction(id, call.attempt, attempts[call.attempt].amount)];
        payment, status := Flow.Paid, Rules.Processing;
        if invoices != [] {
          transactions, payment, status := saved.0, saved.1, saved.2;
          return true;
        }
        invoices := invoices + [total];
      } else {
        payment, status := Flow.PaymentFailed, Rules.OrderFailed;
      }
      threw := false;
    }

    method FinalizeCapture(a: nat, outcome: Outcome) returns (threw: bool)
      modifies this
      ensures (Rows(), threw) == Finalize(old(Rows()), a, outcome)
    {
      var c := |calls|;
      var live := BeginCapture(a, outcome);
      if !live { return false; }
      threw := MoveAttempt(c);
      if !threw { threw := WriteOutcome(c); }
    }

    method FindPending(now: int) returns (pending: seq<nat>)
      ensures pending == Pending(attempts, now)
    {
      pending := [];
      for a := 0 to |attempts|
        invariant pending == Pending(attempts[..a], now)
      {
        assert attempts[..a + 1][..a] == attempts[..a];
        if IsPending(attempts[a], now) { pending := pending + [a]; }
      }
      assert attempts[..|attempts|] == attempts;
    }

    /** The sweep: reads the pending attempts once, finalises those found paid, and counts the calls that went
        through. */
    method SettlePending(now: int, answers: map<nat, Outcome>) returns (settled: nat)
      modifies this
      ensures (Rows(), settled) == Reconcile(old(Rows()), Pending(old(attempts), now), answers)
    {
      var pending := FindPending(now);
      settled := 0;
      for i := 0 to |pending|
        invariant (Rows(), settled) == Reconcile(old(Rows()), pending[..i], answers)
      {
        assert pending[..i + 1][..i] == pending[..i];
        if pending[i] in answers && answers[pending[i]].captured {
          var threw := FinalizeCapture(pending[i], answers[pending[i]]);
          if !threw { settled := settled + 1; }
        }
      }
      assert pending[..|pending|] == pending;
    }
  }
}
