/**
  * The requests that change pending actions, suspense entries and refunds in place, each against its step in
  * MakerChecker.
  */
module ApprovalDesk {
  import opened Wrappers
  import opened Money
  import opened Sequences
  import opened MakerChecker

  class Office {
    var overpaid: map<int, int>
    var entries: seq<Entry>
    var actions: seq<Action>
    var refunds: seq<Refund>
    var now: nat
    ghost var rulings: seq<Ruling>

    ghost function View(): Desk
      reads this
    {
      Desk(overpaid, entries, actions, refunds, rulings, now)
    }

    constructor (overpaid: map<int, int>, entries: seq<Entry>)
      requires forall e :: e in entries ==> e.status == Open
      ensures Opened(View()) && View().overpaid == overpaid && View().entries == entries
    {
      this.overpaid, this.entries, actions, refunds := overpaid, entries, [], [];
      rulings, now := [], 0;
    }

    method RefundableOverpayment(loanId: int, countPending: bool) returns (r: Cents)
      requires loanId in overpaid
      ensures r == Refundable(View(), loanId, countPending)
    {
      var pending, sent := 0, 0;
      for i := 0 to |actions|
        invariant pending == Total(actions[..i], PendingOn(loanId))
      {
        TotalStep(actions, PendingOn(loanId), i);
        var a := actions[i];
        if a.loanId == Some(loanId) && a.kind == LoanRefund && a.status == AwaitingApproval {
          pending := pending + a.amount;
        }
      }
      for i := 0 to |refunds|
        invariant sent == Total(refunds[..i], SentOn(loanId))
      {
        TotalStep(refunds, SentOn(loanId), i);
        if refunds[i].loanId == Some(loanId) && refunds[i].status != RefundFailed {
          sent := sent + refunds[i].amount;
        }
      }
      assert actions[..|actions|] == actions && refunds[..|refunds|] == refunds;
      if !countPending {
        pending := 0;
      }
      r := Max(overpaid[loanId] - pending - sent, 0);
    }

    /** refund_payment */
    method RequestRefund(loanId: int, amount: Option<Cents>, maker: int) returns (r: Result<(), Failure>)
      modifies this
      ensures View() == Take(old(View()), Request(loanId, amount, maker))
      ensures match MakerChecker.RequestRefund(old(View()), loanId, amount, maker)
              case Ok(_) => r == Ok(())
              case Err(e) => r == Err(e)
    {
      var madeAt := now;
      now := now + 1;
      if loanId !in overpaid {
        return Err(LoanNotFound);
      }
      var available := RefundableOverpayment(loanId, true);
      if available <= 0 {
        return Err(NothingRefundable);
      }
      var wanted := if amount.Some? then amount.value else available;
      if wanted <= 0 {
        return Err(NotPositive);
      }
      if wanted > available {
        return Err(ExceedsOverpayment);
      }
      actions := actions + [Action(LoanRefund, Some(loanId), wanted, maker, madeAt, AwaitingApproval, None)];
      return Ok(());
    }

    /** refund_suspense */
    method RequestSuspenseRefund(e: nat, maker: int) returns (r: Result<(), Failure>)
      modifies this
      ensures View() == Take(old(View()), RequestOfEntry(e, maker))
      ensures r.Ok? <==> e < |old(entries)| && old(entries)[e].status == Open
    {
      var madeAt := now;
      now := now + 1;
      if e >= |entries| || entries[e].status != Open {
        return Err(EntryResolved);
      }
      var entry := entries[e];
      var kind := SuspenseRefund(e);
      actions := actions + [Action(kind, entry.loanId, entry.amount, maker, madeAt, AwaitingApproval, None)];
      entries := entries[e := entry.(status := Parked)];
      return Ok(());
    }

    method Check(id: nat, checker: int, permitted: bool) returns (r: Result<(), Failure>)
      ensures r == CheckDecision(View(), id, checker, permitted)
    {
      if id >= |actions| || actions[id].status != AwaitingApproval {
        return Err(NotAwaiting);
      }
      if actions[id].maker == checker {
        return Err(OwnAction);
      }
      if !permitted {
        return Err(NotPermitted);
      }
      return Ok(());
    }

    /** decide_pending_action with "reject", and on_rejected. */
    method RejectAction(id: nat, checker: int, permitted: bool) returns (r: Result<(), Failure>)
      modifies this
      ensures View() == Take(old(View()), Reject(id, checker, permitted))
      ensures match MakerChecker.RejectAction(old(View()), id, checker, permitted)
              case Ok(_) => r == Ok(())
              case Err(e) => r == Err(e)
    {
      r := Check(id, checker, permitted);
      if r.Err? {
        now := now + 1;
        return;
      }
      var a := actions[id];
      actions := actions[id := a.(status := ActionRejected, checker := Some(checker))];
      if a.kind.SuspenseRefund? && a.kind.entry < |entries| && entries[a.kind.entry].status == Parked {
        entries := entries[a.kind.entry := entries[a.kind.entry].(status := Open)];
      }
      rulings := rulings + [Ruling(id, checker, now, now, Rejection, None)];
      now := now + 1;
    }

    /**
      * decide_pending_action with "approve" up to the commit of the intent, or of the whole action if it sends nothing.
      */
    method BeginApproval(id: nat, checker: int, permitted: bool) returns (r: Result<(), Failure>)
      modifies this
      ensures View() == Take(old(View()), Approve(id, checker, permitted))
      ensures match MakerChecker.BeginApproval(old(View()), id, checker, permitted)
              case Ok(after) => r == Ok(()) && |rulings| == |old(rulings)| + 1 && InProgress(View(), |old(rulings)|)
              case Err(e) => r == Err(e)
    {
      r := Check(id, checker, permitted);
      ghost var began := now;
      now := now + 1;
      if r.Err? {
        return;
      }
      var a := actions[id];
      match a.kind {
        case OtherAction =>
          rulings := rulings + [Ruling(id, checker, began, began, Ongoing, None)];
        case LoanRefund =>
          if a.loanId.None? || a.loanId.value !in overpaid {
            return Err(LoanNotFound);
          }
          var available := RefundableOverpayment(a.loanId.value, false);
          if a.amount > available {
            return Err(NoLongerRefundable);
          }
          if a.amount <= 0 {
            return Err(NotPositive);
          }
          rulings := rulings + [Ruling(id, checker, began, began, Ongoing, Some(|refunds|))];
          refunds := refunds + [Refund(a.loanId, CeilShilling(a.amount), Initiated, None)];
        case SuspenseRefund(e) =>
          if e >= |entries| || entries[e].status != Parked {
            return Err(EntryNotAwaiting);
          }
          if a.amount <= 0 {
            return Err(NotPositive);
          }
          entries := entries[e := entries[e].(status := BeingRefunded)];
          rulings := rulings + [Ruling(id, checker, began, began, Ongoing, Some(|refunds|))];
          refunds := refunds + [Refund(a.loanId, CeilShilling(a.amount), Initiated, Some(e))];
      }
    }

    method ReopenEntry(e: Option<nat>)
      modifies this`entries
      ensures entries == Reopen(old(entries), e)
    {
      if e.Some? && e.value < |entries| && entries[e.value].status in {BeingRefunded, Parked} {
        entries := entries[e.value := entries[e.value].(status := Open)];
      }
    }

    /** The rest of the approval of action id, by the checker whose request is ruling k and saved refund r, if any. */
    method FinishApproval(ghost k: nat, id: nat, checker: int, refund: Option<nat>, answer: Answer)
      returns (r: Result<(), Failure>)
      requires InProgress(View(), k) && rulings[k].id == id && rulings[k].checker == checker
               && rulings[k].refund == refund
      modifies this
      ensures View() == Take(old(View()), Reply(k, answer))
      ensures r == MakerChecker.FinishApproval(old(View()), k, answer).1
    {
      rulings := rulings[k := rulings[k].(ended := now, outcome := Answered(answer))];
      now := now + 1;
      if refund.Some? && refund.value < |refunds| {
        var txn := refunds[refund.value];
        refunds := refunds[refund.value := txn.(status := if answer == Refused then RefundFailed else Pending)];
        if answer == Refused {
          ReopenEntry(txn.entry);
        }
      }
      match answer
      case Refused => return Err(ProviderRefused);
      case Unknown => return Err(OutcomeUnknown);
      case Accepted =>
        actions := actions[id := actions[id].(status := ActionApproved, checker := Some(checker))];
        return Ok(());
    }

    /** decide_pending_action with "approve" when nobody comes between: the two steps in turn. */
    method ApproveAction(id: nat, checker: int, permitted: bool, answer: Answer) returns (r: Result<(), Failure>)
      modifies this
      ensures var begun := Take(old(View()), Approve(id, checker, permitted));
              match MakerChecker.BeginApproval(old(View()), id, checker, permitted)
              case Ok(_) =>
                View() == Take(begun, Reply(|old(rulings)|, answer))
                && (r.Ok? <==> answer == Accepted) && (r.Ok? ==> View().actions[id].status == ActionApproved)
              case Err(e) => r == Err(e) && View() == begun
    {
      ghost var k := |rulings|;
      var refund: Option<nat> := if id < |actions| && actions[id].kind != OtherAction then Some(|refunds|) else None;
      r := BeginApproval(id, checker, permitted);
      if r.Ok? {
        r := FinishApproval(k, id, checker, refund, answer);
      }
    }

    /** apply_refund_result, from the provider's callback or a person resolving the payout. */
    method Settle(r: nat, paid: bool)
      modifies this
      ensures View() == Take(old(View()), RefundResult(r, paid))
    {
      now := now + 1;
      if r < |refunds| && refunds[r].status in {Initiated, Pending} {
        var e := refunds[r].entry;
        refunds := refunds[r := refunds[r].(status := if paid then Completed else RefundFailed)];
        if !paid {
          ReopenEntry(e);
        } else if e.Some? && e.value < |entries| {
          entries := entries[e.value := entries[e.value].(status := Refunded)];
        }
      }
    }
  }
}
