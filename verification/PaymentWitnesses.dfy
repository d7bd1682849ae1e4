/** Runs of one order's payment attempts, from an unpaid order, that end where they should not. */
module PaymentWitnesses {
  import opened Prelude
  import opened PaymentAttempts
  import Rules = ReturnRules
  import Flow = ReturnFlow

  const NOT_PAID := Outcome(false, None, None, None)
  const PAID := Outcome(true, Some(9), None, None)
  const FIRST := Attempt(Stripe, 1, Created, 100, "GBP", 0, false)
  const SECOND := Attempt(Stripe, 2, Created, 100, "GBP", 0, false)

  const UNPAID := Db(100, Rules.AwaitingPayment, Flow.PaymentPending, [], [], [], {}, {}, [])
  const TWO_TRIED := UNPAID.(attempts := [FIRST, SECOND])
  const FIRST_FAILED := TWO_TRIED.(
    attempts := [FIRST.(status := Failed), SECOND], calls := [Call(0, NOT_PAID, Moved)])
  const SECOND_CAPTURED := FIRST_FAILED.(
    attempts := [FIRST.(status := Failed), SECOND.(status := Captured)],
    calls := [Call(0, NOT_PAID, Moved), Call(1, PAID, Moved)])
  const PAID_ONCE := SECOND_CAPTURED.(
    status := Rules.Processing, payment := Flow.Paid, transactions := [Transaction(FromProvider(9), 1, 100)],
    invoices := [100], calls := [Call(0, NOT_PAID, Moved), Call(1, PAID, Over)])

  const TRIES := [ECreate(Stripe, 1, "GBP", 0), ECreate(Stripe, 2, "GBP", 0)]
  const FAILURE := [ECheck(0, NOT_PAID), EMove(0)]
  const CAPTURE := [ECheck(1, PAID), EMove(1)]
  const LATE := [ERefundConfirmed(false), EWriteOrder(0)]
  const LATE_FAILURE := TRIES + FAILURE + CAPTURE + [EWriteOrder(1)] + LATE

  lemma BothTried()
    ensures Step(Step(UNPAID, ECreate(Stripe, 1, "GBP", 0)), ECreate(Stripe, 2, "GBP", 0)) == TWO_TRIED
  {
    assert Step(UNPAID, ECreate(Stripe, 1, "GBP", 0)).attempts == [FIRST];
    assert FindKey([FIRST], Stripe, 2) == 1;
  }

  lemma FirstFails()
    ensures Step(Step(TWO_TRIED, ECheck(0, NOT_PAID)), EMove(0)) == FIRST_FAILED
  {
    assert Step(TWO_TRIED, ECheck(0, NOT_PAID)).calls == [Call(0, NOT_PAID, Checked(false))];
  }

  lemma SecondCaptured()
    ensures Step(Step(FIRST_FAILED, ECheck(1, PAID)), EMove(1)) == SECOND_CAPTURED
  {
    assert Step(FIRST_FAILED, ECheck(1, PAID)).calls == [Call(0, NOT_PAID, Moved), Call(1, PAID, Checked(false))];
  }

  lemma SecondPays()
    ensures Step(SECOND_CAPTURED, EWriteOrder(1)) == PAID_ONCE
  {
    var id := FromProvider(9);
    assert !IdTaken(SECOND_CAPTURED, id);
  }

  lemma {:induction false} RunSteps(d: Db, es: seq<Event>, n: nat)
    requires n <= |es|
    ensures Run(d, es) == Run(Run(d, es[..n]), es[n..])
    decreases n
  {
    if n == 0 {
      assert es[0..] == es;
    } else {
      assert es[1..][..n - 1] == es[..n][1..] && es[1..][n - 1..] == es[n..];
      RunSteps(Step(d, es[0]), es[1..], n - 1);
    }
  }

  lemma RunTwo(d: Db, e: Event, f: Event)
    ensures Run(d, [e, f]) == Step(Step(d, e), f)
  {
    assert [e, f][1..] == [f] && [f][1..] == [];
    assert Run(Step(d, e), [f]) == Step(Step(d, e), f);
  }

  lemma {:induction false} RunConcat(d: Db, a: seq<Event>, b: seq<Event>)
    ensures Run(d, a + b) == Run(Run(d, a), b)
  {
    assert (a + b)[..|a|] == a && (a + b)[|a|..] == b;
    RunSteps(d, a + b, |a|);
  }

  lemma RunOne(d: Db, e: Event)
    ensures Run(d, [e]) == Step(d, e)
  {
    assert [e][1..] == [];
  }

  lemma BothTriedRun()
    ensures Run(UNPAID, TRIES) == TWO_TRIED
  {
    BothTried();
    RunTwo(UNPAID, TRIES[0], TRIES[1]);
  }

  lemma FirstFailsRun()
    ensures Run(TWO_TRIED, FAILURE) == FIRST_FAILED
  {
    FirstFails();
    RunTwo(TWO_TRIED, FAILURE[0], FAILURE[1]);
  }

  lemma SecondCapturedRun()
    ensures Run(FIRST_FAILED, CAPTURE) == SECOND_CAPTURED
  {
    SecondCaptured();
    RunTwo(FIRST_FAILED, CAPTURE[0], CAPTURE[1]);
  }

  lemma PaidOnceReached()
    ensures Run(UNPAID, TRIES + FAILURE + CAPTURE + [EWriteOrder(1)]) == PAID_ONCE
  {
    BothTriedRun();
    FirstFailsRun();
    SecondCapturedRun();
    SecondPays();
    RunOne(SECOND_CAPTURED, EWriteOrder(1));
    RunConcat(UNPAID, TRIES, FAILURE);
    RunConcat(UNPAID, TRIES + FAILURE, CAPTURE);
    RunConcat(UNPAID, TRIES + FAILURE + CAPTURE, [EWriteOrder(1)]);
  }

  /** From an unpaid order: its second attempt is captured and pays it, part of it is refunded, and then the
      late failure of the first attempt marks the refunded order as failed. */
  lemma LateFailureOverwritesRefund()
    ensures Fresh(UNPAID) && Run(UNPAID, LATE_FAILURE).payment == Flow.PaymentFailed
  {
    PaidOnceReached();
    RunTwo(PAID_ONCE, LATE[0], LATE[1]);
    RunConcat(UNPAID, TRIES + FAILURE + CAPTURE + [EWriteOrder(1)], LATE);
  }

  // ---------- two attempts are captured ----------

  const ALSO_PAID := Outcome(true, Some(8), None, None)
  const BOTH_CAPTURED := TWO_TRIED.(
    attempts := [FIRST.(status := Captured), SECOND.(status := Captured)],
    calls := [Call(0, ALSO_PAID, Moved), Call(1, PAID, Moved)])
  const ONE_LOST := BOTH_CAPTURED.(
    status := Rules.Processing, payment := Flow.Paid, transactions := [Transaction(FromProvider(9), 1, 100)],
    invoices := [100], calls := [Call(0, ALSO_PAID, Over), Call(1, PAID, Over)])

  const CAPTURES := [ECheck(0, ALSO_PAID), EMove(0)] + CAPTURE
  const WRITES := [EWriteOrder(1), EWriteOrder(0)]

  lemma BothCaptured()
    ensures Run(TWO_TRIED, CAPTURES) == BOTH_CAPTURED
  {
    var one := TWO_TRIED.(
      attempts := [FIRST.(status := Captured), SECOND], calls := [Call(0, ALSO_PAID, Moved)]);
    assert Step(TWO_TRIED, ECheck(0, ALSO_PAID)).calls == [Call(0, ALSO_PAID, Checked(false))];
    assert Step(Step(TWO_TRIED, ECheck(0, ALSO_PAID)), EMove(0)) == one;
    assert Step(one, ECheck(1, PAID)).calls == [Call(0, ALSO_PAID, Moved), Call(1, PAID, Checked(false))];
    assert Step(Step(one, ECheck(1, PAID)), EMove(1)) == BOTH_CAPTURED;
    RunTwo(TWO_TRIED, ECheck(0, ALSO_PAID), EMove(0));
    RunTwo(one, ECheck(1, PAID), EMove(1));
    RunConcat(TWO_TRIED, [ECheck(0, ALSO_PAID), EMove(0)], CAPTURE);
  }

  lemma OnePays()
    ensures Run(BOTH_CAPTURED, WRITES) == ONE_LOST
  {
    assert !IdTaken(BOTH_CAPTURED, FromProvider(9));
    var paid := ONE_LOST.(calls := [Call(0, ALSO_PAID, Moved), Call(1, PAID, Over)]);
    assert Step(BOTH_CAPTURED, EWriteOrder(1)) == paid;
    assert Step(paid, EWriteOrder(0)) == ONE_LOST;
    RunTwo(BOTH_CAPTURED, EWriteOrder(1), EWriteOrder(0));
  }

  lemma LostReached()
    ensures Run(UNPAID, TRIES + CAPTURES + WRITES) == ONE_LOST
  {
    BothTriedRun();
    BothCaptured();
    OnePays();
    RunConcat(UNPAID, TRIES, CAPTURES);
    RunConcat(UNPAID, TRIES + CAPTURES, WRITES);
  }

  /** From an unpaid order: both attempts take the customer's money, one pays the order, and the other is captured
      with no transaction, for good: no refund can ever reach it. */
  lemma SecondCaptureIsLost(es: seq<Event>)
    ensures Fresh(UNPAID) && Run(UNPAID, TRIES + CAPTURES + WRITES) == ONE_LOST
    ensures Stranded(ONE_LOST, 0) && Stranded(Run(ONE_LOST, es), 0)
  {
    LostReached();
    StrandedForGood(ONE_LOST, es, 0);
  }

  // ---------- a call stops between its phases ----------

  const CRASHED := UNPAID.(attempts := [FIRST.(status := Captured)], calls := [Call(0, PAID, Over)])
  const CRASH := [ECreate(Stripe, 1, "GBP", 0), ECheck(0, PAID), EMove(0), ECrash(0)]

  lemma CrashReached()
    ensures Run(UNPAID, CRASH) == CRASHED
  {
    var tried := UNPAID.(attempts := [FIRST]);
    var checked := tried.(calls := [Call(0, PAID, Checked(false))]);
    var moved := UNPAID.(attempts := [FIRST.(status := Captured)], calls := [Call(0, PAID, Moved)]);
    assert Step(UNPAID, CRASH[0]) == tried;
    assert Step(tried, ECheck(0, PAID)) == checked;
    assert Step(checked, EMove(0)) == moved;
    assert Step(moved, ECrash(0)) == CRASHED;
    RunTwo(UNPAID, CRASH[0], ECheck(0, PAID));
    RunTwo(checked, EMove(0), ECrash(0));
    RunConcat(UNPAID, [CRASH[0], ECheck(0, PAID)], [EMove(0), ECrash(0)]);
    assert CRASH == [CRASH[0], ECheck(0, PAID)] + [EMove(0), ECrash(0)];
  }

  /** A call that stops after its attempt is captured leaves an unpaid order that nothing ever marks as paid for it. */
  lemma CrashLosesPayment(es: seq<Event>)
    ensures Fresh(UNPAID) && Run(UNPAID, CRASH) == CRASHED
    ensures CRASHED.payment == Flow.PaymentPending && Stranded(CRASHED, 0) && Stranded(Run(CRASHED, es), 0)
  {
    CrashReached();
    StrandedForGood(CRASHED, es, 0);
  }
}
