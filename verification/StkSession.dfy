/** The webhook code on a database session: a working copy that a commit publishes and a rollback throws away. */
module StkSession {
  import opened Wrappers
  import opened Loans
  import opened Repayments
  import opened StkDelivery

  datatype Processing = Done | UnresolvedCheckout | Broke

  class Session {
    const maxAttempts: nat
    var committed: Store
    var work: Store
    var events: seq<Event>

    predicate Clean()
      reads this
    {
      work == committed
    }

    function View(): System
      reads this
    {
      System(committed, events)
    }

    constructor (store: Store, maxAttempts: nat)
      ensures Clean() && View() == System(store, []) && this.maxAttempts == maxAttempts
    {
      committed, work, events, this.maxAttempts := store, store, [], maxAttempts;
    }

    method Commit()
      modifies this`committed
      ensures committed == work
    {
      committed := work;
    }

    method Rollback()
      modifies this`work
      ensures work == committed
    {
      work := committed;
    }

    method FindTxn(ref: string) returns (i: nat, found: bool)
      ensures Find(work.txns, ref) == if found then Some(i) else None
    {
      i, found := 0, false;
      while i < |work.txns| && !found
        invariant i <= |work.txns|
        invariant if found then Find(work.txns, ref) == Some(i)
                  else Find(work.txns, ref) == (var rest := Find(work.txns[i..], ref);
                                                if rest.Some? then Some(rest.value + i) else None)
        decreases |work.txns| - i, !found
      {
        if work.txns[i].ref == ref {
          found := true;
        } else {
          assert work.txns[i..][1..] == work.txns[i + 1..];
          i := i + 1;
        }
      }
    }

    /** Writes to the working copy and commits at the end; `breaks` is an exception raised before that commit. */
    method ProcessStkCallback(cb: Callback, env: Env, breaks: bool) returns (r: Processing)
      requires Clean() && EnvSound(env)
      modifies this`work, this`committed
      ensures r == Done <==> !breaks && Process(old(committed), cb, env).Acked?
      ensures r == Done ==> Clean() && Process(old(committed), cb, env) == Acked(committed)
      ensures r != Done ==> committed == old(committed)
      ensures r == UnresolvedCheckout ==> Process(old(committed), cb, env) == Unresolved
    {
      if cb.checkoutId == "" {
        return if breaks then Broke else Done;
      }
      var i, found := FindTxn(cb.checkoutId);
      if !found {
        return UnresolvedCheckout;
      }
      var txn := work.txns[i];
      if txn.status != Waiting && txn.status != InProgress {
        return if breaks then Broke else Done;
      }
      if cb.resultCode != "0" {
        work := work.(txns := work.txns[i := txn.(status := Failed)]);
      } else {
        work := work.(txns := work.txns[i := txn.(status := Succeeded, ref := ReceiptOf(cb, env))]);
        ApplyToLoan(i, txn, cb, env);
      }
      if breaks {
        return Broke;
      }
      Commit();
      return Done;
    }

    method ApplyToLoan(i: nat, txn: StkTxn, cb: Callback, env: Env)
      requires i < |committed.txns| && txn == committed.txns[i] && EnvSound(env)
      requires work == committed.(txns := work.txns)
      modifies this`work
      ensures work == CreditLoan(committed, i, cb, env).(txns := old(work).txns)
    {
      var amount, ref := AmountPaid(cb, txn), ReceiptOf(cb, env);
      if txn.loanId !in work.loans || amount <= 0 || ref in work.usedRefs {
        return;
      }
      var loan := work.loans[txn.loanId];
      var r := ApplyPayment(loan, amount, cb.paidOn, env.settings);
      var refs := if IsOpen(loan.status) && r.applied <= 0 then {} else {ref};
      if IsOpen(loan.status) && r.excess > 0 {
        refs := refs + {ref + "-OVR"};
      }
      if IsOpen(loan.status) && r.interestRefund > 0 {
        refs := refs + {ref + "-INT"};
      }
      work := work.(loans := work.loans[txn.loanId := r.loan], usedRefs := work.usedRefs + refs,
      credits := work.credits + [Credit(i, txn.loanId, ref, cb.resultCode, r.applied)]);
    }

    method MarkEventFailed(e: nat)
      requires e < |events|
      modifies this`events
      ensures events == old(events)[e := MarkFailed(old(events)[e], maxAttempts)]
    {
      var attempts := events[e].attempts + 1;
      var status := if attempts >= (if maxAttempts > 1 then maxAttempts else 1) then Dead else ToRetry;
      events := events[e := Event(events[e].callback, status, attempts)];
    }

    /** The try/except both the webhook and the retry worker wrap around the processor. */
    method RunProcessor(e: nat, env: Env, fault: Fault) returns (ok: bool)
      requires Clean() && e < |events| && EnvSound(env)
      modifies this
      ensures Clean() && View() == Attempt(old(View()), e, env, fault, maxAttempts)
      ensures ok <==> events[e].status == Processed && fault == NoFault
                      && Process(old(committed), old(events)[e].callback, env).Acked?
    {
      var r := ProcessStkCallback(events[e].callback, env, fault == BeforeCommit);
      if r == Done && fault == NoFault {
        events := events[e := events[e].(status := Processed)];
        return true;
      }
      Rollback();
      MarkEventFailed(e);
      return false;
    }

    /** _ingest_and_process: persist the event first, then process it. */
    method IngestAndProcess(cb: Callback, env: Env, fault: Fault)
      requires Clean() && EnvSound(env)
      modifies this
      ensures Clean() && View() == Take(old(View()), Deliver(cb, env, fault), maxAttempts)
    {
      events := events + [Event(cb, Received, 0)];
      var ok := RunProcessor(|events| - 1, env, fault);
    }

    /** The retry worker: reprocess_event on an event still marked failed. */
    method ReprocessEvent(e: nat, env: Env, fault: Fault) returns (ok: bool)
      requires Clean() && EnvSound(env)
      modifies this
      ensures Clean() && View() == Take(old(View()), Retry(e, env, fault), maxAttempts)
    {
      if e >= |events| || events[e].status != ToRetry {
        return false;
      }
      ok := RunProcessor(e, env, fault);
    }
  }
}
