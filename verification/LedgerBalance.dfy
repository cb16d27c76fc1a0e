/** Debits equal credits in every export, and exactly which stored rows would break that. */
module LedgerBalance {
  import opened Money
  import opened Sequences
  import opened StableSort
  import opened GeneralLedger

  predicate Balanced(lines: seq<Line>) {
    Total(lines, DebitOf) == Total(lines, CreditOf)
  }

  /** What one optional line adds to a total. */
  lemma TotalOptional(a: seq<Line>, present: bool, l: Line, f: Line -> int)
    ensures Total(a + (if present then [l] else []), f) == Total(a, f) + if present then f(l) else 0
  {
    TotalAppend(a, if present then [l] else [], f);
  }

  lemma TotalPair(a: Line, b: Line, f: Line -> int)
    ensures Total([a, b], f) == f(a) + f(b)
  {
    assert [a, b][1..] == [b];
    assert Total([b], f) == f(b);
  }

  lemma BalancedAppend(a: seq<Line>, b: seq<Line>)
    requires Balanced(a)
    ensures Balanced(a + b) <==> Balanced(b)
  {
    TotalAppend(a, b, DebitOf);
    TotalAppend(a, b, CreditOf);
  }

  // ---------------------------------------------------------------- one event at a time

  lemma DisbursementBalanced(t: Txn)
    ensures Balanced(DisbursementLines(t)) <==> DeductedExcise(t) >= 0
  {
    var d, ref, desc := Date(t.createdAt), TxnRef(t), LoanDisbursement(t.loanId);
    var excise, fee := DeductedExcise(t), FeeKept(t);
    var pair := [Line(d, LoansReceivable, desc, DisbursedPrincipal(t), 0, ref), Line(d, Cash, desc, 0, t.amount, ref)];
    var duty, kept := Line(d, ExcisePayable, desc, 0, excise, ref), Line(d, FeeIncome, desc, 0, fee, ref);
    var rounding := Line(d, FeeIncome, DisbursementRounding(t.loanId), -fee, 0, ref);
    var dutied := pair + (if excise > 0 then [duty] else []);
    assert DisbursementLines(t) == dutied + (if fee != 0 then [if fee > 0 then kept else rounding] else []);
    forall f | f == DebitOf || f == CreditOf
      ensures Total(DisbursementLines(t), f)
           == f(pair[0]) + f(pair[1]) + (if excise > 0 then f(duty) else 0)
              + if fee != 0 then f(if fee > 0 then kept else rounding) else 0
    {
      TotalPair(pair[0], pair[1], f);
      TotalOptional(pair, excise > 0, duty, f);
      TotalOptional(dutied, fee != 0, if fee > 0 then kept else rounding, f);
    }
  }

  /** What a repayment must satisfy for its entry to balance. */
  predicate SplitSound(r: Repayment) {
    if ComponentsSum(r) then r.principal >= 0 && r.interest >= 0 && r.fee >= 0 else r.amount >= 0
  }

  ghost predicate ShareWithinOne(info: FeeTerms) {
    0 <= info.shareNum <= info.shareDen
  }

  /** Any measure of a repayment's cash, principal and interest lines. */
  lemma PlainLineTotal(r: Repayment, f: Line -> int)
    ensures var d, ref, desc := Date(r.paidAt), RepaymentRef(r), LoanRepayment(r.loanId);
            var principal, interest := BookedPrincipal(r), BookedInterest(r);
            Total(PlainLines(r), f)
            == f(Line(d, Cash, desc, r.amount, 0, ref))
            + (if principal > 0 then f(Line(d, LoansReceivable, desc, 0, principal, ref)) else 0)
            + if interest > 0 then f(Line(d, InterestIncome, desc, 0, interest, ref)) else 0
  {
    var d, ref, desc := Date(r.paidAt), RepaymentRef(r), LoanRepayment(r.loanId);
    var cash := [Line(d, Cash, desc, r.amount, 0, ref)];
    assert Total(cash, f) == f(cash[0]);
    var owed := Line(d, LoansReceivable, desc, 0, BookedPrincipal(r), ref);
    TotalOptional(cash, BookedPrincipal(r) > 0, owed, f);
    TotalOptional(cash + (if BookedPrincipal(r) > 0 then [owed] else []), BookedInterest(r) > 0,
                  Line(d, InterestIncome, desc, 0, BookedInterest(r), ref), f);
  }

  /** Any measure of a fee's three optional lines. */
  lemma FeeLineTotal(r: Repayment, info: FeeTerms, paidBefore: Cents, f: Line -> int)
    ensures var d, ref, desc := Date(r.paidAt), RepaymentRef(r), LoanRepayment(r.loanId);
            var product := ProductPart(r.fee, info.inBalance, paidBefore);
            var excise := ExcisePart(product, info);
            Total(FeeLines(r, info, paidBefore), f)
            == (if product - excise > 0 then f(Line(d, FeeIncome, desc, 0, product - excise, ref)) else 0)
            + (if excise > 0 then f(Line(d, ExcisePayable, desc, 0, excise, ref)) else 0)
            + if r.fee - product > 0 then f(Line(d, PenaltyIncome, desc, 0, r.fee - product, ref)) else 0
  {
    var d, ref, desc := Date(r.paidAt), RepaymentRef(r), LoanRepayment(r.loanId);
    var product := ProductPart(r.fee, info.inBalance, paidBefore);
    var excise := ExcisePart(product, info);
    var a := if product - excise > 0 then [Line(d, FeeIncome, desc, 0, product - excise, ref)] else [];
    var duty := Line(d, ExcisePayable, desc, 0, excise, ref);
    TotalOptional(a, excise > 0, duty, f);
    TotalOptional(a + (if excise > 0 then [duty] else []), r.fee - product > 0,
                  Line(d, PenaltyIncome, desc, 0, r.fee - product, ref), f);
  }

  /** 0 <= excise <= product fee <= fee, so the three parts are all booked or all zero. */
  lemma FeePartsWithin(fee: Cents, info: FeeTerms, paidBefore: Cents)
    requires fee >= 0 && ShareWithinOne(info)
    ensures var product := ProductPart(fee, info.inBalance, paidBefore);
            0 <= ExcisePart(product, info) <= product <= fee
  {
    RoundedShareWithin(ProductPart(fee, info.inBalance, paidBefore), info.shareNum, info.shareDen);
  }

  lemma FeeTotals(r: Repayment, info: FeeTerms, paidBefore: Cents)
    requires r.fee > 0 && ShareWithinOne(info)
    ensures Total(FeeLines(r, info, paidBefore), DebitOf) == 0
    ensures Total(FeeLines(r, info, paidBefore), CreditOf) == r.fee
  {
    FeePartsWithin(r.fee, info, paidBefore);
    FeeLineTotal(r, info, paidBefore, DebitOf);
    FeeLineTotal(r, info, paidBefore, CreditOf);
  }

  lemma RepaymentBalanced(r: Repayment, info: FeeTerms, paidBefore: Cents)
    requires ShareWithinOne(info)
    ensures Balanced(RepaymentLines(r, info, paidBefore)) <==> SplitSound(r)
  {
    PlainLineTotal(r, DebitOf);
    PlainLineTotal(r, CreditOf);
    if BookedFee(r) > 0 {
      FeeTotals(r, info, paidBefore);
      TotalAppend(PlainLines(r), FeeLines(r, info, paidBefore), DebitOf);
      TotalAppend(PlainLines(r), FeeLines(r, info, paidBefore), CreditOf);
    } else {
      assert RepaymentLines(r, info, paidBefore) == PlainLines(r);
    }
  }

  lemma LoanRefundBalanced(t: Txn)
    ensures Balanced(LoanRefundLines(t))
  {
    if t.suspenseId == 0 {
      var lines := LoanRefundLines(t);
      TotalPair(lines[0], lines[1], DebitOf);
      TotalPair(lines[0], lines[1], CreditOf);
    }
  }

  lemma SuspenseBalanced(s: SuspenseEntry, refundSent: map<int, Cents>, dfrom: int, dto: int)
    ensures Balanced(SuspenseLines(refundSent, dfrom, dto)(s))
       <==> (ResolvedIn(s, dfrom, dto) ==> SentFor(s, refundSent) >= s.amount)
  {
    var receipt, sent := ReceiptLines(s, dfrom, dto), SentFor(s, refundSent);
    var resolution := ResolutionLines(s, sent, dfrom, dto);
    if ReceivedIn(s, dfrom, dto) {
      TotalPair(receipt[0], receipt[1], DebitOf);
      TotalPair(receipt[0], receipt[1], CreditOf);
    }
    if ResolvedIn(s, dfrom, dto) {
      var d, ref, desc := Date(s.resolvedAt.value), SuspenseRef(s), SuspenseResolved(s.status);
      var pair := [Line(d, Suspense, desc, s.amount, 0, ref), Line(d, Cash, desc, 0, sent, ref)];
      TotalPair(pair[0], pair[1], DebitOf);
      TotalPair(pair[0], pair[1], CreditOf);
      var rounding := Line(d, FeeIncome, SuspenseRounding(s.status), sent - s.amount, 0, ref);
      TotalOptional(pair, sent > s.amount, rounding, DebitOf);
      TotalOptional(pair, sent > s.amount, rounding, CreditOf);
    }
    BalancedAppend(receipt, resolution);
  }

  // ---------------------------------------------------------------- whole exports

  ghost predicate TermsSound(b: Books) {
    forall id :: id in b.loans ==> b.loans[id].totalFees >= 0 && b.loans[id].exciseDuty >= 0
  }

  /** The stored-data preconditions, for the rows an export of [dfrom, dto] books. */
  ghost predicate RowsSound(b: Books, dfrom: int, dto: int) {
    && TermsSound(b)
    && (forall t :: t in b.txns && IsDisbursement(t, dfrom, dto) ==> DeductedExcise(t) >= 0)
    && (forall r :: r in b.repayments && InWindow(r.paidAt, dfrom, dto) ==> SplitSound(r))
    && (forall s :: s in b.suspense && ResolvedIn(s, dfrom, dto) ==> SentFor(s, RefundSent(b.txns)) >= s.amount)
  }

  lemma ShareOfTerms(b: Books, loanId: int)
    requires TermsSound(b)
    ensures ShareWithinOne(FeeInfoOf(b, loanId))
  {
  }

  lemma {:induction false} FlatMapBalanced<T>(s: seq<T>, f: T -> seq<Line>)
    requires forall x :: x in s ==> Balanced(f(x))
    ensures Balanced(FlatMap(s, f))
  {
    FlatMapTotals(s, f, DebitOf, CreditOf);
  }

  lemma {:induction false} RepaymentPassBalanced(b: Books, dfrom: int, rows: seq<Repayment>, n: nat)
    requires n <= |rows| && TermsSound(b) && forall r :: r in rows ==> SplitSound(r)
    ensures Balanced(RepaymentPassTo(b, dfrom, rows, n))
  {
    if n > 0 {
      RepaymentPassBalanced(b, dfrom, rows, n - 1);
      var r := rows[n - 1];
      ShareOfTerms(b, r.loanId);
      RepaymentBalanced(r, FeeInfoOf(b, r.loanId), FeesPaidBefore(b, dfrom, rows, n - 1, r.loanId));
      BalancedAppend(RepaymentPassTo(b, dfrom, rows, n - 1), LinesAt(b, dfrom, rows, n - 1));
    }
  }

  lemma RepaymentsInMembers(b: Books, dfrom: int, dto: int)
    ensures forall r :: r in RepaymentsIn(b, dfrom, dto) <==> r in b.repayments && InWindow(r.paidAt, dfrom, dto)
  {
    var p := (r: Repayment) => InWindow(r.paidAt, dfrom, dto);
    forall r ensures r in RepaymentsIn(b, dfrom, dto) <==> r in b.repayments && InWindow(r.paidAt, dfrom, dto) {
      SortMembers(Filter(b.repayments, p), RepaymentLe, r);
      FilterMember(b.repayments, p, r);
    }
  }

  /** Total debits equal total credits in every export over sound rows, before and after the sort. */
  lemma ExportBalanced(b: Books, dfrom: int, dto: int)
    requires RowsSound(b, dfrom, dto)
    ensures Balanced(UnsortedLines(b, dfrom, dto)) && Balanced(GlLines(b, dfrom, dto))
  {
    var disbursed := t => IsDisbursement(t, dfrom, dto);
    forall t | t in Filter(b.txns, disbursed) ensures Balanced(DisbursementLines(t)) {
      FilterMember(b.txns, disbursed, t);
      DisbursementBalanced(t);
    }
    FlatMapBalanced(Filter(b.txns, disbursed), DisbursementLines);
    RepaymentsInMembers(b, dfrom, dto);
    var rows := RepaymentsIn(b, dfrom, dto);
    RepaymentPassBalanced(b, dfrom, rows, |rows|);
    var refunds := Filter(b.txns, t => IsLoanRefund(t, dfrom, dto));
    forall t | t in refunds ensures Balanced(LoanRefundLines(t)) {
      LoanRefundBalanced(t);
    }
    FlatMapBalanced(refunds, LoanRefundLines);
    var sent := RefundSent(b.txns);
    forall s | s in b.suspense ensures Balanced(SuspenseLines(sent, dfrom, dto)(s)) {
      SuspenseBalanced(s, sent, dfrom, dto);
    }
    FlatMapBalanced(b.suspense, SuspenseLines(sent, dfrom, dto));
    var d, r, l, s := DisbursementPass(b, dfrom, dto), RepaymentPass(b, dfrom, dto), LoanRefundPass(b, dfrom, dto),
                      SuspensePass(b, dfrom, dto);
    BalancedAppend(d, r);
    BalancedAppend(d + r, l);
    BalancedAppend(d + r + l, s);
    TotalSort(UnsortedLines(b, dfrom, dto), LineLe, DebitOf);
    TotalSort(UnsortedLines(b, dfrom, dto), LineLe, CreditOf);
  }
}
