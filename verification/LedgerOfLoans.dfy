/** The ledger over repayment rows that only apply_payment wrote. */
module LedgerOfLoans {
  import Loans
  import LoanLifecycle
  import opened GeneralLedger
  import opened LedgerBalance
  import opened LedgerWindows

  function RowOf(r: Repayment): Loans.Row {
    Loans.Row(r.amount, r.principal, r.interest, r.fee)
  }

  /** A loan from its application, and everything that happened to it. */
  datatype History = History(start: Loans.LoanState, steps: seq<LoanLifecycle.Step>)

  ghost predicate IsHistory(h: History) {
    LoanLifecycle.NewLoan(h.start) && LoanLifecycle.StepsSound(h.steps)
  }

  /** The row was written by some payment of the history. */
  ghost predicate Wrote(h: History, r: Repayment) {
    IsHistory(h) && RowOf(r) in LoanLifecycle.Run(h.start, h.steps).rows
  }

  /** Such rows always meet the ledger's preconditions: exports over them compose, and their entries balance. */
  lemma PaymentsWriteSoundRows(repayments: seq<Repayment>, histories: seq<History>)
    requires forall r :: r in repayments ==> exists h :: h in histories && Wrote(h, r)
    ensures AlwaysComposes(repayments)
    ensures forall r :: r in repayments ==> ComponentsSum(r) && SplitSound(r)
  {
    forall r | r in repayments ensures Loans.RowSound(RowOf(r)) {
      var h :| h in histories && Wrote(h, r);
      LoanLifecycle.ReachableInv(h.start, h.steps);
    }
    NoFeeAfterUnbooked(repayments);
  }
}
