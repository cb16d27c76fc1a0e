/** The ledger over suspense refunds that only approvals sent. */
module LedgerOfRefunds {
  import opened Wrappers
  import opened Money
  import opened GeneralLedger
  import MakerChecker
  import RefundBounds

  /** The books' suspense rows are the desk's entries, and their suspense refunds were saved by its approvals. */
  ghost predicate KeptFor(b: Books, d: MakerChecker.Desk) {
    && (forall s :: s in b.suspense ==> 1 <= s.id <= |d.entries| && s.amount == d.entries[s.id - 1].amount)
    && (forall t :: t in b.txns && IsSuspenseRefund(t) ==>
                      exists r :: r in d.refunds && r.entry.Some? && t.suspenseId == r.entry.value + 1
                                  && t.amount == r.amount)
  }

  /** Whatever was requested, decided, answered and settled: every suspense refund sent covers its entry. */
  lemma RefundsCoverEntries(b: Books, start: MakerChecker.Desk, steps: seq<MakerChecker.Step>, s: SuspenseEntry)
    requires MakerChecker.Opened(start) && MakerChecker.AllSound(steps)
    requires KeptFor(b, MakerChecker.Run(start, steps)) && s in b.suspense
    ensures SentFor(s, RefundSent(b.txns)) >= s.amount
  {
    var d := MakerChecker.Run(start, steps);
    RefundBounds.RunKeepsLinked(start, steps);
    RefundSentIsLast(b.txns, s.id);
    if s.id in RefundSent(b.txns) {
      var i :| LastRefundOf(b.txns, i, s.id);
      assert b.txns[i] in b.txns;
      var r :| r in d.refunds && r.entry.Some? && b.txns[i].suspenseId == r.entry.value + 1
               && b.txns[i].amount == r.amount;
      assert RefundBounds.RefundLinked(r, d.entries);
    }
  }
}
