/**
  * Delivery of STK-push callbacks (backend/app/routers/payments.py:493-511, 544-587, 740-760;
  * backend/app/services/webhook_security.py:250-304): every delivery is recorded, processed in one transaction, and
  * retried while it fails. Here each is one step of a state; StkSession runs them on a database session.
  */
module StkDelivery {
  import opened Wrappers
  import opened Money
  import opened Sequences
  import opened Loans
  import opened Repayments
  import opened LoanLifecycle

  datatype TxnStatus = Waiting | InProgress | Succeeded | Failed

  /** ref holds the checkout id until a success overwrites it with the receipt. */
  datatype StkTxn = StkTxn(loanId: int, amount: Cents, ref: string, status: TxnStatus)

  /** amount 0 stands for a callback without one; receipt "" for one without a receipt number. */
  datatype Callback = Callback(checkoutId: string, resultCode: string, receipt: string, amount: Cents, paidOn: int)

  /** One run of apply_payment that was not a duplicate: which transaction it was for and what the loan took. */
  datatype Credit = Credit(txn: nat, loanId: int, ref: string, resultCode: string, applied: Cents)

  /** usedRefs: the references of the tenant's repayments and suspense entries. */
  datatype Store = Store(txns: seq<StkTxn>, loans: map<int, LoanState>, usedRefs: set<string>, credits: seq<Credit>)

  predicate Settled(status: TxnStatus) {
    status == Succeeded || status == Failed
  }

  /** The first stk_push transaction with the reference. */
  function Find(txns: seq<StkTxn>, ref: string): (r: Option<nat>)
    ensures r.Some? ==> r.value < |txns| && txns[r.value].ref == ref
    ensures r.None? ==> forall i :: 0 <= i < |txns| ==> txns[i].ref != ref
  {
    if txns == [] then None
    else if txns[0].ref == ref then Some(0)
    else
      var rest := Find(txns[1..], ref);
      if rest.Some? then Some(rest.value + 1) else None
  }

  /** What the processor needs from outside: a generated receipt when the callback has none, and the settings. */
  datatype Env = Env(generatedReceipt: string, settings: Settings)

  predicate EnvSound(env: Env) {
    SettingsSound(env.settings)
  }

  function ReceiptOf(cb: Callback, env: Env): string {
    if cb.receipt != "" then cb.receipt else env.generatedReceipt
  }

  function AmountPaid(cb: Callback, txn: StkTxn): Cents {
    if cb.amount != 0 then cb.amount else txn.amount
  }

  /** apply_payment behind its duplicate check. */
  function CreditLoan(s: Store, i: nat, cb: Callback, env: Env): Store
    requires i < |s.txns| && EnvSound(env)
  {
    var txn, ref := s.txns[i], ReceiptOf(cb, env);
    var amount := AmountPaid(cb, txn);
    if txn.loanId !in s.loans || amount <= 0 || ref in s.usedRefs then s
    else
      var loan := s.loans[txn.loanId];
      var r := ApplyPayment(loan, amount, cb.paidOn, env.settings);
      var refs := if !IsOpen(loan.status) then {ref}
                  else (if r.applied > 0 then {ref} else {}) + (if r.excess > 0 then {ref + "-OVR"} else {})
                       + (if r.interestRefund > 0 then {ref + "-INT"} else {});
      s.(loans := s.loans[txn.loanId := r.loan], usedRefs := s.usedRefs + refs,
      credits := s.credits + [Credit(i, txn.loanId, ref, cb.resultCode, r.applied)])
  }

  datatype Outcome = Acked(store: Store) | Unresolved

  /** _process_stk_callback */
  function Process(s: Store, cb: Callback, env: Env): Outcome
    requires EnvSound(env)
  {
    if cb.checkoutId == "" then Acked(s)
    else
      var found := Find(s.txns, cb.checkoutId);
      if found.None? then Unresolved
      else
        var i := found.value;
        var txn := s.txns[i];
        if Settled(txn.status) then Acked(s)
        else if cb.resultCode != "0" then Acked(s.(txns := s.txns[i := txn.(status := Failed)]))
        else
          var settled := txn.(status := Succeeded, ref := ReceiptOf(cb, env));
          Acked(CreditLoan(s, i, cb, env).(txns := s.txns[i := settled]))
  }

  // ---------------------------------------------------------------- events and steps

  datatype EventStatus = Received | Processed | ToRetry | Dead
  datatype Event = Event(callback: Callback, status: EventStatus, attempts: nat)

  datatype System = System(store: Store, events: seq<Event>)

  /** Where an attempt breaks down: nowhere, before the processor commits, or between that and marking the event. */
  datatype Fault = NoFault | BeforeCommit | AfterCommit

  function MarkFailed(e: Event, maxAttempts: nat): Event {
    var attempts := e.attempts + 1;
    Event(e.callback, if attempts >= Max(1, maxAttempts) then Dead else ToRetry, attempts)
  }

  function Attempt(sys: System, e: nat, env: Env, fault: Fault, maxAttempts: nat): System
    requires e < |sys.events| && EnvSound(env)
  {
    var event := sys.events[e];
    var outcome := Process(sys.store, event.callback, env);
    if fault == BeforeCommit || outcome == Unresolved then
      sys.(events := sys.events[e := MarkFailed(event, maxAttempts)])
    else if fault == AfterCommit then
      System(outcome.store, sys.events[e := MarkFailed(event, maxAttempts)])
    else
      System(outcome.store, sys.events[e := event.(status := Processed)])
  }

  datatype Step =
    | Push(loanId: int, amount: Cents, checkoutId: string)
    | Deliver(callback: Callback, env: Env, fault: Fault)
    | Retry(event: nat, env: Env, fault: Fault)
    | OtherLoanStep(id: int, change: LoanLifecycle.Step)
    | OtherReference(ref: string)

  predicate Sound(step: Step) {
    match step
    case Push(_, _, _) => true
    case Deliver(_, env, _) => EnvSound(env)
    case Retry(_, env, _) => EnvSound(env)
    case OtherLoanStep(_, change) => StepSound(change)
    case OtherReference(_) => true
  }

  function Take(sys: System, step: Step, maxAttempts: nat): System
    requires Sound(step)
  {
    match step
    case Push(loanId, amount, checkoutId) =>
      sys.(store := sys.store.(txns := sys.store.txns + [StkTxn(loanId, amount, checkoutId, Waiting)]))
    case Deliver(cb, env, fault) =>
      Attempt(sys.(events := sys.events + [Event(cb, Received, 0)]), |sys.events|, env, fault, maxAttempts)
    case Retry(e, env, fault) =>
      if e < |sys.events| && sys.events[e].status == ToRetry then Attempt(sys, e, env, fault, maxAttempts) else sys
    case OtherLoanStep(id, change) =>
      if id in sys.store.loans
      then sys.(store := sys.store.(loans := sys.store.loans[id := Apply(sys.store.loans[id], change)])) else sys
    case OtherReference(ref) =>
      sys.(store := sys.store.(usedRefs := sys.store.usedRefs + {ref}))
  }

  ghost predicate AllSound(steps: seq<Step>) {
    forall k :: 0 <= k < |steps| ==> Sound(steps[k])
  }

  function Run(sys: System, steps: seq<Step>, maxAttempts: nat): System
    requires AllSound(steps)
  {
    if steps == [] then sys else Take(Run(sys, steps[..|steps| - 1], maxAttempts), steps[|steps| - 1], maxAttempts)
  }

  // ---------------------------------------------------------------- at most once

  /**
    * Every credit belongs to a transaction of its own, one that succeeded on result code 0 under the credited receipt.
    */
  ghost predicate CreditsSound(s: Store) {
    && (forall k :: 0 <= k < |s.credits| ==>
                      && s.credits[k].txn < |s.txns| && s.txns[s.credits[k].txn].status == Succeeded
                      && s.credits[k].resultCode == "0" && s.credits[k].ref == s.txns[s.credits[k].txn].ref
                      && s.credits[k].loanId == s.txns[s.credits[k].txn].loanId)
    && (forall j, k :: 0 <= j < k < |s.credits| ==> s.credits[j].txn != s.credits[k].txn)
  }

  lemma SuccessKeepsCredits(s: Store, i: nat, cb: Callback, env: Env)
    requires CreditsSound(s) && EnvSound(env) && i < |s.txns| && !Settled(s.txns[i].status) && cb.resultCode == "0"
    ensures var settled := s.txns[i].(status := Succeeded, ref := ReceiptOf(cb, env));
            CreditsSound(CreditLoan(s, i, cb, env).(txns := s.txns[i := settled]))
  {
    assert forall k :: 0 <= k < |s.credits| ==> s.credits[k].txn != i;
  }

  lemma ProcessKeepsCredits(s: Store, cb: Callback, env: Env)
    requires CreditsSound(s) && EnvSound(env)
    ensures Process(s, cb, env).Acked? ==> CreditsSound(Process(s, cb, env).store)
  {
    var found := Find(s.txns, cb.checkoutId);
    if found.Some? && !Settled(s.txns[found.value].status) && cb.resultCode == "0" {
      SuccessKeepsCredits(s, found.value, cb, env);
    }
  }

  lemma TakeKeepsCredits(sys: System, step: Step, maxAttempts: nat)
    requires CreditsSound(sys.store) && Sound(step)
    ensures CreditsSound(Take(sys, step, maxAttempts).store)
  {
    match step
    case Deliver(cb, env, fault) =>
      var events := sys.events + [Event(cb, Received, 0)];
      assert events[|sys.events|].callback == cb;
      ProcessKeepsCredits(sys.store, cb, env);
    case Retry(e, env, fault) =>
      if e < |sys.events| {
        ProcessKeepsCredits(sys.store, sys.events[e].callback, env);
      }
    case _ =>
  }

  function CreditsFor(credits: seq<Credit>, i: nat): nat {
    if credits == [] then 0 else (if credits[0].txn == i then 1 else 0) + CreditsFor(credits[1..], i)
  }

  lemma {:induction false} DistinctCredits(credits: seq<Credit>, i: nat)
    requires forall j, k :: 0 <= j < k < |credits| ==> credits[j].txn != credits[k].txn
    ensures CreditsFor(credits, i) <= 1
    ensures CreditsFor(credits, i) == 1 <==> exists k :: 0 <= k < |credits| && credits[k].txn == i
  {
    if credits != [] {
      DistinctCredits(credits[1..], i);
      if CreditsFor(credits[1..], i) == 1 {
        var k :| 0 <= k < |credits[1..]| && credits[1..][k].txn == i;
        assert credits[k + 1].txn == i;
      } else if credits[0].txn != i {
        forall k | 0 <= k < |credits| ensures credits[k].txn != i {
          if k > 0 {
            assert credits[1..][k - 1] == credits[k];
          }
        }
      }
    }
  }

  lemma {:induction false} RunKeepsCredits(sys: System, steps: seq<Step>, maxAttempts: nat)
    requires CreditsSound(sys.store) && AllSound(steps)
    ensures CreditsSound(Run(sys, steps, maxAttempts).store)
  {
    if steps != [] {
      var before := steps[..|steps| - 1];
      RunKeepsCredits(sys, before, maxAttempts);
      TakeKeepsCredits(Run(sys, before, maxAttempts), steps[|steps| - 1], maxAttempts);
    }
  }

  /**
    * Whatever is delivered, duplicated, retried or fails, a transaction credits its loan at most once, and only on a
    * success.
    */
  lemma CreditedAtMostOnce(sys: System, steps: seq<Step>, maxAttempts: nat, i: nat)
    requires sys.store.credits == [] && AllSound(steps)
    ensures var after := Run(sys, steps, maxAttempts).store;
            && CreditsFor(after.credits, i) <= 1
            && (CreditsFor(after.credits, i) == 1 ==> i < |after.txns| && after.txns[i].status == Succeeded)
  {
    RunKeepsCredits(sys, steps, maxAttempts);
    DistinctCredits(Run(sys, steps, maxAttempts).store.credits, i);
  }

  /** A settled transaction never changes again, and none disappears. */
  lemma SettledForever(sys: System, step: Step, maxAttempts: nat, i: nat)
    requires Sound(step) && i < |sys.store.txns|
    ensures i < |Take(sys, step, maxAttempts).store.txns|
    ensures Settled(sys.store.txns[i].status) ==> Take(sys, step, maxAttempts).store.txns[i] == sys.store.txns[i]
  {
  }

  /** How many steps of the run take transaction i out of pending/processing. */
  function Departures(sys: System, steps: seq<Step>, maxAttempts: nat, i: nat): nat
    requires AllSound(steps) && i < |sys.store.txns|
    decreases |steps|
  {
    if steps == [] then 0
    else
      SettledForever(sys, steps[0], maxAttempts, i);
      var next := Take(sys, steps[0], maxAttempts);
      (if !Settled(sys.store.txns[i].status) && Settled(next.store.txns[i].status) then 1 else 0)
      + Departures(next, steps[1..], maxAttempts, i)
  }

  lemma {:induction false} LeavesAtMostOnce(sys: System, steps: seq<Step>, maxAttempts: nat, i: nat)
    requires AllSound(steps) && i < |sys.store.txns|
    ensures Departures(sys, steps, maxAttempts, i) <= if Settled(sys.store.txns[i].status) then 0 else 1
    decreases |steps|
  {
    if steps != [] {
      SettledForever(sys, steps[0], maxAttempts, i);
      LeavesAtMostOnce(Take(sys, steps[0], maxAttempts), steps[1..], maxAttempts, i);
    }
  }

  // ---------------------------------------------------------------- conservation

  function CreditedTo(id: int): Credit -> int {
    (c: Credit) => if c.loanId == id then c.applied else 0
  }

  ghost predicate LoansSound(s: Store) {
    forall id :: id in s.loans ==> Inv(s.loans[id])
  }

  /** What the loan has repaid, less what the credits so far account for. */
  function Unexplained(s: Store, id: int): Cents
    requires id in s.loans
  {
    Repaid(s.loans[id]) - Total(s.credits, CreditedTo(id))
  }

  lemma CreditKeepsLoansSound(s: Store, i: nat, cb: Callback, env: Env)
    requires i < |s.txns| && EnvSound(env) && LoansSound(s)
    ensures LoansSound(CreditLoan(s, i, cb, env))
  {
    var txn, amount := s.txns[i], AmountPaid(cb, s.txns[i]);
    if txn.loanId in s.loans && amount > 0 {
      PaymentKeepsInv(s.loans[txn.loanId], amount, cb.paidOn, env.settings);
    }
  }

  lemma CreditConserves(s: Store, i: nat, cb: Callback, env: Env, id: int)
    requires i < |s.txns| && EnvSound(env) && LoansSound(s) && id in s.loans
    ensures var after := CreditLoan(s, i, cb, env);
            id in after.loans && Unexplained(after, id) == Unexplained(s, id)
  {
    var txn, amount := s.txns[i], AmountPaid(cb, s.txns[i]);
    if txn.loanId in s.loans && amount > 0 && ReceiptOf(cb, env) !in s.usedRefs {
      var loan, after := s.loans[txn.loanId], CreditLoan(s, i, cb, env);
      assert Repaid(after.loans[txn.loanId]) == Repaid(loan) + after.credits[|s.credits|].applied by {
        PaymentEffect(loan, amount, cb.paidOn, env.settings);
      }
      TotalAppend(s.credits, [after.credits[|s.credits|]], CreditedTo(id));
    }
  }

  lemma ProcessConserves(s: Store, cb: Callback, env: Env, id: int)
    requires EnvSound(env) && LoansSound(s) && id in s.loans && Process(s, cb, env).Acked?
    ensures var after := Process(s, cb, env).store;
            id in after.loans && Unexplained(after, id) == Unexplained(s, id) && LoansSound(after)
  {
    var found := Find(s.txns, cb.checkoutId);
    if found.Some? {
      CreditConserves(s, found.value, cb, env, id);
      CreditKeepsLoansSound(s, found.value, cb, env);
    }
  }

  lemma TakeConserves(sys: System, step: Step, maxAttempts: nat, id: int)
    requires Sound(step) && LoansSound(sys.store) && id in sys.store.loans
    requires step.OtherLoanStep? ==> !step.change.Payment?
    ensures var after := Take(sys, step, maxAttempts).store;
            id in after.loans && Unexplained(after, id) == Unexplained(sys.store, id) && LoansSound(after)
  {
    match step
    case Deliver(cb, env, fault) =>
      if Process(sys.store, cb, env).Acked? {
        ProcessConserves(sys.store, cb, env, id);
      }
    case Retry(e, env, fault) =>
      if e < |sys.events| && Process(sys.store, sys.events[e].callback, env).Acked? {
        ProcessConserves(sys.store, sys.events[e].callback, env, id);
      }
    case OtherLoanStep(other, change) =>
      if other in sys.store.loans {
        StepKeepsInv(sys.store.loans[other], change);
        StepLeavesRows(sys.store.loans[other], change);
      }
    case _ =>
  }

  lemma StepLeavesRows(s: LoanState, change: LoanLifecycle.Step)
    requires StepSound(change) && !change.Payment?
    ensures Apply(s, change).rows == s.rows
  {
  }

  /**
    * When STK callbacks are the only payments, a loan's repayments are exactly its credits: no delivery pays it twice
    * or in vain.
    */
  lemma {:induction false} RepaidIsCredited(sys: System, steps: seq<Step>, maxAttempts: nat, id: int)
    requires AllSound(steps) && LoansSound(sys.store) && id in sys.store.loans
    requires forall k :: 0 <= k < |steps| ==> steps[k].OtherLoanStep? ==> !steps[k].change.Payment?
    ensures var after := Run(sys, steps, maxAttempts).store;
            && LoansSound(after) && id in after.loans
            && Repaid(after.loans[id]) - Repaid(sys.store.loans[id])
               == Total(after.credits, CreditedTo(id)) - Total(sys.store.credits, CreditedTo(id))
  {
    if steps != [] {
      var before := steps[..|steps| - 1];
      RepaidIsCredited(sys, before, maxAttempts, id);
      TakeConserves(Run(sys, before, maxAttempts), steps[|steps| - 1], maxAttempts, id);
    }
  }

  // ---------------------------------------------------------------- exactly one credit

  /** The callback is about a push still under its checkout id, and not settled yet. */
  predicate FindsOpenPush(s: Store, cb: Callback, i: nat) {
    cb.checkoutId != "" && Find(s.txns, cb.checkoutId) == Some(i) && i < |s.txns|
    && (s.txns[i].status == Waiting || s.txns[i].status == InProgress)
  }

  /** Its loan is known, there is something to apply, and nothing was booked under the receipt. */
  predicate Creditable(s: Store, i: nat, cb: Callback, env: Env)
    requires i < |s.txns|
  {
    && s.txns[i].loanId in s.loans
    && (cb.amount > 0 || (cb.amount == 0 && s.txns[i].amount > 0))
    && (if cb.receipt != "" then cb.receipt else env.generatedReceipt) !in s.usedRefs
  }

  /** The other transactions are as they were. */
  ghost predicate OnlyTxn(was: seq<StkTxn>, now: seq<StkTxn>, i: nat) {
    |now| == |was| && i < |was| && forall j :: 0 <= j < |was| && j != i ==> now[j] == was[j]
  }

  /** A success settles the push under its receipt and, if it can be credited,
    repays its loan with what applying it takes. */
  lemma SuccessCredits(s: Store, i: nat, cb: Callback, env: Env)
    requires EnvSound(env) && LoansSound(s) && FindsOpenPush(s, cb, i) && cb.resultCode == "0"
    ensures var receipt := if cb.receipt != "" then cb.receipt else env.generatedReceipt;
            var after, id := Process(s, cb, env).store, s.txns[i].loanId;
            && Process(s, cb, env).Acked? && OnlyTxn(s.txns, after.txns, i)
            && after.txns[i].status == Succeeded && after.txns[i].ref == receipt
            && after.txns[i].loanId == id && after.txns[i].amount == s.txns[i].amount
            && after.loans.Keys == s.loans.Keys
            && (forall x :: x in s.loans && x != id ==> after.loans[x] == s.loans[x])
            && s.usedRefs <= after.usedRefs
            && if Creditable(s, i, cb, env) then
                 var amount := if cb.amount != 0 then cb.amount else s.txns[i].amount;
                 var applied := Repaid(after.loans[id]) - Repaid(s.loans[id]);
                 && after.credits == s.credits + [Credit(i, id, receipt, "0", applied)]
                 && after.loans[id] == ApplyPayment(s.loans[id], amount, cb.paidOn, env.settings).loan
                 && (receipt in after.usedRefs <==> !IsOpen(s.loans[id].status) || applied > 0)
               else after.loans == s.loans && after.credits == s.credits && after.usedRefs == s.usedRefs
  {
    CreditIs(s, i, cb, env);
  }

  lemma CreditIs(s: Store, i: nat, cb: Callback, env: Env)
    requires EnvSound(env) && LoansSound(s) && i < |s.txns|
    ensures var receipt := if cb.receipt != "" then cb.receipt else env.generatedReceipt;
            var after, id := CreditLoan(s, i, cb, env), s.txns[i].loanId;
            && after.txns == s.txns && after.loans.Keys == s.loans.Keys && s.usedRefs <= after.usedRefs
            && (forall x :: x in s.loans && x != id ==> after.loans[x] == s.loans[x])
            && if Creditable(s, i, cb, env) then
                 var amount := if cb.amount != 0 then cb.amount else s.txns[i].amount;
                 var applied := Repaid(after.loans[id]) - Repaid(s.loans[id]);
                 && after.credits == s.credits + [Credit(i, id, receipt, cb.resultCode, applied)]
                 && after.loans[id] == ApplyPayment(s.loans[id], amount, cb.paidOn, env.settings).loan
                 && (receipt in after.usedRefs <==> !IsOpen(s.loans[id].status) || applied > 0)
               else after == s
  {
    var id, receipt := s.txns[i].loanId, ReceiptOf(cb, env);
    assert |receipt + "-OVR"| != |receipt| && |receipt + "-INT"| != |receipt|;
    if Creditable(s, i, cb, env) {
      PaymentEffect(s.loans[id], AmountPaid(cb, s.txns[i]), cb.paidOn, env.settings);
    }
  }

  /** Any other code fails the push; a settled push, or a callback without an id,
    changes nothing; an unknown id is unresolved. */
  lemma OtherCallbacks(s: Store, cb: Callback, env: Env)
    requires EnvSound(env)
    ensures cb.checkoutId == "" ==> Process(s, cb, env) == Acked(s)
    ensures cb.checkoutId != "" && Unknown(s, cb.checkoutId) ==> Process(s, cb, env) == Unresolved
    ensures forall i: nat :: FindsOpenPush(s, cb, i) && cb.resultCode != "0" ==>
                               && Process(s, cb, env).Acked?
                               && var after := Process(s, cb, env).store;
                               && OnlyTxn(s.txns, after.txns, i) && after.txns[i] == s.txns[i].(status := Failed)
                               && after == s.(txns := after.txns)
    ensures cb.checkoutId != "" && !Unknown(s, cb.checkoutId) && (forall i: nat :: !FindsOpenPush(s, cb, i)) ==>
              Process(s, cb, env) == Acked(s)
  {
    if Find(s.txns, cb.checkoutId).None? {
      assert Unknown(s, cb.checkoutId);
    } else {
      assert !Unknown(s, cb.checkoutId);
      if forall i: nat :: !FindsOpenPush(s, cb, i) {
        assert !FindsOpenPush(s, cb, Find(s.txns, cb.checkoutId).value);
      }
    }
  }

  /** The callback a step delivers, or retries while it is still to be retried. */
  function Delivered(sys: System, step: Step): Option<(Callback, Env)> {
    match step
    case Deliver(cb, env, _) => Some((cb, env))
    case Retry(e, env, _) =>
      if e < |sys.events| && sys.events[e].status == ToRetry then Some((sys.events[e].callback, env)) else None
    case _ => None
  }

  /** The step makes push i succeed. */
  predicate Succeeds(sys: System, step: Step, maxAttempts: nat, i: nat)
    requires Sound(step)
  {
    i < |sys.store.txns| && !Settled(sys.store.txns[i].status)
    && i < |Take(sys, step, maxAttempts).store.txns| && Take(sys, step, maxAttempts).store.txns[i].status == Succeeded
  }

  lemma DeliveryTakes(sys: System, step: Step, maxAttempts: nat)
    requires Sound(step)
    ensures var d, after := Delivered(sys, step), Take(sys, step, maxAttempts).store;
            match d
            case None => after.credits == sys.store.credits && sys.store.txns <= after.txns
            case Some((cb, env)) =>
              EnvSound(env) && (after == sys.store || Process(sys.store, cb, env) == Acked(after))
  {
  }

  lemma {:induction false} CreditsForAppend(a: seq<Credit>, c: Credit, i: nat)
    ensures CreditsFor(a + [c], i) == CreditsFor(a, i) + if c.txn == i then 1 else 0
  {
    if a != [] {
      assert (a + [c])[1..] == a[1..] + [c];
      CreditsForAppend(a[1..], c, i);
    }
  }

  lemma {:induction false} NoCredits(credits: seq<Credit>, i: nat)
    requires forall k :: 0 <= k < |credits| ==> credits[k].txn != i
    ensures CreditsFor(credits, i) == 0
  {
    if credits != [] {
      assert forall k :: 0 <= k < |credits[1..]| ==> credits[1..][k] == credits[k + 1];
      NoCredits(credits[1..], i);
    }
  }

  /** Only a success of push i itself adds a credit for it. */
  lemma OthersAddNone(sys: System, step: Step, maxAttempts: nat, i: nat)
    requires Sound(step) && LoansSound(sys.store) && i < |sys.store.txns| && !Succeeds(sys, step, maxAttempts, i)
    ensures CreditsFor(Take(sys, step, maxAttempts).store.credits, i) == CreditsFor(sys.store.credits, i)
  {
    DeliveryTakes(sys, step, maxAttempts);
    var after := Take(sys, step, maxAttempts).store;
    if Delivered(sys, step).Some? && after != sys.store {
      var (cb, env) := Delivered(sys, step).value;
      ProcessAddsForItsPush(sys.store, cb, env, i);
    }
  }

  lemma ProcessAddsForItsPush(s: Store, cb: Callback, env: Env, i: nat)
    requires EnvSound(env) && LoansSound(s) && i < |s.txns| && Process(s, cb, env).Acked?
    requires var after := Process(s, cb, env).store;
             Settled(s.txns[i].status) || after.txns[i].status != Succeeded
    ensures CreditsFor(Process(s, cb, env).store.credits, i) == CreditsFor(s.credits, i)
  {
    var found := Find(s.txns, cb.checkoutId);
    if found.Some? && FindsOpenPush(s, cb, found.value) && cb.resultCode == "0" {
      var j := found.value;
      SuccessCredits(s, j, cb, env);
      if Creditable(s, j, cb, env) {
        CreditsForAppend(s.credits, Process(s, cb, env).store.credits[|s.credits|], i);
      }
    } else {
      OtherCallbacks(s, cb, env);
    }
  }

  /** A delivery that makes push i succeed credits it once exactly if it could be credited. */
  lemma SuccessAddsOne(sys: System, step: Step, maxAttempts: nat, i: nat)
    requires Sound(step) && LoansSound(sys.store) && Succeeds(sys, step, maxAttempts, i)
    ensures Delivered(sys, step).Some?
    ensures var (cb, env) := Delivered(sys, step).value;
            CreditsFor(Take(sys, step, maxAttempts).store.credits, i)
            == CreditsFor(sys.store.credits, i) + if Creditable(sys.store, i, cb, env) then 1 else 0
  {
    DeliveryTakes(sys, step, maxAttempts);
    var s, after := sys.store, Take(sys, step, maxAttempts).store;
    var (cb, env) := Delivered(sys, step).value;
    var found := Find(s.txns, cb.checkoutId);
    OtherCallbacks(s, cb, env);
    assert found == Some(i) && FindsOpenPush(s, cb, i) && cb.resultCode == "0";
    SuccessCredits(s, i, cb, env);
    if Creditable(s, i, cb, env) {
      CreditsForAppend(s.credits, after.credits[|s.credits|], i);
    }
  }

  lemma {:induction false} RunKeepsLoansSound(sys: System, steps: seq<Step>, maxAttempts: nat)
    requires AllSound(steps) && LoansSound(sys.store)
    ensures LoansSound(Run(sys, steps, maxAttempts).store)
  {
    if steps != [] {
      RunKeepsLoansSound(sys, steps[..|steps| - 1], maxAttempts);
      TakeKeepsLoansSound(Run(sys, steps[..|steps| - 1], maxAttempts), steps[|steps| - 1], maxAttempts);
    }
  }

  lemma ProcessKeepsLoansSound(s: Store, cb: Callback, env: Env)
    requires EnvSound(env) && LoansSound(s) && Process(s, cb, env).Acked?
    ensures LoansSound(Process(s, cb, env).store)
  {
    var found := Find(s.txns, cb.checkoutId);
    if found.Some? {
      CreditKeepsLoansSound(s, found.value, cb, env);
    }
  }

  lemma TakeKeepsLoansSound(sys: System, step: Step, maxAttempts: nat)
    requires Sound(step) && LoansSound(sys.store)
    ensures LoansSound(Take(sys, step, maxAttempts).store)
  {
    match step
    case OtherLoanStep(id, change) =>
      if id in sys.store.loans {
        StepKeepsInv(sys.store.loans[id], change);
      }
    case Push(_, _, _) =>
    case OtherReference(_) =>
    case _ =>
      DeliveryTakes(sys, step, maxAttempts);
      if Delivered(sys, step).Some?
         && Process(sys.store, Delivered(sys, step).value.0, Delivered(sys, step).value.1).Acked? {
        ProcessKeepsLoansSound(sys.store, Delivered(sys, step).value.0, Delivered(sys, step).value.1);
      }
  }

  lemma {:induction false} SettledAddsNone(sys: System, steps: seq<Step>, maxAttempts: nat, i: nat)
    requires AllSound(steps) && LoansSound(sys.store) && i < |sys.store.txns| && Settled(sys.store.txns[i].status)
    ensures var after := Run(sys, steps, maxAttempts).store;
            && i < |after.txns| && Settled(after.txns[i].status)
            && CreditsFor(after.credits, i) == CreditsFor(sys.store.credits, i)
  {
    if steps != [] {
      var was, step := Run(sys, steps[..|steps| - 1], maxAttempts), steps[|steps| - 1];
      SettledAddsNone(sys, steps[..|steps| - 1], maxAttempts, i);
      RunKeepsLoansSound(sys, steps[..|steps| - 1], maxAttempts);
      SettledForever(was, step, maxAttempts, i);
      OthersAddNone(was, step, maxAttempts, i);
    }
  }

  /**
    * Over any run: a push that a delivery made succeed has, whatever follows, exactly one credit if and only if it
    * could be credited at that step, and none otherwise.
    */
  lemma CreditedExactlyOnceIff(sys: System, before: seq<Step>, step: Step, later: seq<Step>, maxAttempts: nat, i: nat)
    requires sys.store.credits == [] && LoansSound(sys.store)
    requires AllSound(before) && Sound(step) && AllSound(later)
    requires Succeeds(Run(sys, before, maxAttempts), step, maxAttempts, i)
    ensures var was := Run(sys, before, maxAttempts);
            var after := Run(Take(was, step, maxAttempts), later, maxAttempts);
            && Delivered(was, step).Some?
            && var (cb, env) := Delivered(was, step).value;
            CreditsFor(after.store.credits, i) == if Creditable(was.store, i, cb, env) then 1 else 0
  {
    var was := Run(sys, before, maxAttempts);
    RunKeepsCredits(sys, before, maxAttempts);
    RunKeepsLoansSound(sys, before, maxAttempts);
    NoCredits(was.store.credits, i);
    SuccessAddsOne(was, step, maxAttempts, i);
    TakeKeepsLoansSound(was, step, maxAttempts);
    SettledAddsNone(Take(was, step, maxAttempts), later, maxAttempts, i);
  }

  /** An event's fate: processed if nothing broke down and its id was known, otherwise one more failed attempt. */
  lemma EventMarked(sys: System, e: nat, env: Env, fault: Fault, maxAttempts: nat)
    requires e < |sys.events| && EnvSound(env)
    ensures var event, after := sys.events[e], Attempt(sys, e, env, fault, maxAttempts);
            var resolved := event.callback.checkoutId == "" || !Unknown(sys.store, event.callback.checkoutId);
            && after.events == sys.events[e := after.events[e]] && after.events[e].callback == event.callback
            && (if fault == NoFault && resolved
                then after.events[e].status == Processed && after.events[e].attempts == event.attempts
                else after.events[e].attempts == event.attempts + 1 && after.events[e].status != Processed)
            && (fault == BeforeCommit || !resolved ==> after.store == sys.store)
  {
    OtherCallbacks(sys.store, sys.events[e].callback, env);
  }

  // ---------------------------------------------------------------- later duplicates

  /**
    * A second delivery of a checkout id whose push succeeded is unresolved exactly when the receipt replaced the only
    * use of it.
    */
  lemma DuplicateAfterSuccess(s: Store, cb: Callback, env: Env, again: Callback, env': Env)
    requires EnvSound(env) && EnvSound(env') && cb.checkoutId != "" && cb.resultCode == "0"
    requires again.checkoutId == cb.checkoutId
    requires Find(s.txns, cb.checkoutId).Some? && !Settled(s.txns[Find(s.txns, cb.checkoutId).value].status)
    ensures var i := Find(s.txns, cb.checkoutId).value;
            Process(Process(s, cb, env).store, again, env') == Unresolved
            <==> ReceiptOf(cb, env) != cb.checkoutId
                 && forall j :: 0 <= j < |s.txns| && j != i ==> s.txns[j].ref != cb.checkoutId
  {
    var i := Find(s.txns, cb.checkoutId).value;
    var after := Process(s, cb, env).store;
    var found := Find(after.txns, cb.checkoutId);
    if found.None? {
      assert after.txns[i].ref == ReceiptOf(cb, env);
      forall j | 0 <= j < |s.txns| && j != i ensures s.txns[j].ref != cb.checkoutId {
        assert after.txns[j] == s.txns[j];
      }
    } else {
      assert found.value == i || after.txns[found.value] == s.txns[found.value];
    }
  }

  predicate Unknown(s: Store, ref: string) {
    forall j :: 0 <= j < |s.txns| ==> s.txns[j].ref != ref
  }

  /** A step that brings the id back: a new push under it, or a success whose receipt equals it. */
  predicate Reuses(sys: System, step: Step, ref: string) {
    match step
    case Push(_, _, checkoutId) => checkoutId == ref
    case Deliver(cb, env, _) => ReceiptOf(cb, env) == ref
    case Retry(e, env, _) => e < |sys.events| && ReceiptOf(sys.events[e].callback, env) == ref
    case _ => false
  }

  ghost predicate NeverReused(sys: System, steps: seq<Step>, maxAttempts: nat, ref: string)
    requires AllSound(steps)
  {
    steps == []
    || (NeverReused(sys, steps[..|steps| - 1], maxAttempts, ref)
        && !Reuses(Run(sys, steps[..|steps| - 1], maxAttempts), steps[|steps| - 1], ref))
  }

  lemma {:induction false} StaysUnknown(sys: System, steps: seq<Step>, maxAttempts: nat, ref: string)
    requires AllSound(steps) && Unknown(sys.store, ref) && NeverReused(sys, steps, maxAttempts, ref)
    ensures Unknown(Run(sys, steps, maxAttempts).store, ref)
  {
    if steps != [] {
      var before := steps[..|steps| - 1];
      StaysUnknown(sys, before, maxAttempts, ref);
      UnknownStep(Run(sys, before, maxAttempts), steps[|steps| - 1], maxAttempts, ref);
    }
  }

  /**
    * Once overwritten, a checkout id nobody reuses stays unknown: every later duplicate of it is unresolved, not
    * reapplied.
    */
  lemma DuplicatesStayUnresolved(sys: System, steps: seq<Step>, maxAttempts: nat, again: Callback, env: Env)
    requires AllSound(steps) && EnvSound(env) && again.checkoutId != ""
    requires Unknown(sys.store, again.checkoutId) && NeverReused(sys, steps, maxAttempts, again.checkoutId)
    ensures Process(Run(sys, steps, maxAttempts).store, again, env) == Unresolved
  {
    StaysUnknown(sys, steps, maxAttempts, again.checkoutId);
  }

  lemma UnknownStep(sys: System, step: Step, maxAttempts: nat, ref: string)
    requires Sound(step) && Unknown(sys.store, ref) && !Reuses(sys, step, ref)
    ensures Unknown(Take(sys, step, maxAttempts).store, ref)
  {
  }

  // ---------------------------------------------------------------- bounded retries

  ghost predicate AttemptsBounded(sys: System, maxAttempts: nat) {
    forall e :: 0 <= e < |sys.events| ==>
                  && sys.events[e].attempts <= Max(1, maxAttempts)
                  && (sys.events[e].status == Dead <==> sys.events[e].attempts == Max(1, maxAttempts))
  }

  lemma RetriesBoundedStep(sys: System, step: Step, maxAttempts: nat)
    requires AttemptsBounded(sys, maxAttempts) && Sound(step)
    ensures AttemptsBounded(Take(sys, step, maxAttempts), maxAttempts)
  {
  }

  /** An event is dead exactly when it has failed max-attempts times; it is never tried again after that. */
  lemma {:induction false} RetriesBounded(sys: System, steps: seq<Step>, maxAttempts: nat)
    requires AttemptsBounded(sys, maxAttempts) && AllSound(steps)
    ensures AttemptsBounded(Run(sys, steps, maxAttempts), maxAttempts)
  {
    if steps != [] {
      RetriesBounded(sys, steps[..|steps| - 1], maxAttempts);
      RetriesBoundedStep(Run(sys, steps[..|steps| - 1], maxAttempts), steps[|steps| - 1], maxAttempts);
    }
  }
}
