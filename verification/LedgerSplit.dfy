/** How fee payments divide between fee income, excise duty and penalty income over any run of repayments. */
module LedgerSplit {
  import opened Money
  import opened Sequences
  import opened GeneralLedger
  import opened LedgerBalance

  function CreditedTo(accounts: set<Account>, loanId: int): Line -> int {
    (l: Line) => if l.description == LoanRepayment(loanId) && l.account in accounts then l.credit else 0
  }

  const PRODUCT_FEES: set<Account> := {FeeIncome, ExcisePayable}
  const EXCISE: set<Account> := {ExcisePayable}
  const PENALTIES: set<Account> := {PenaltyIncome}

  /** The product part of each fee the loan paid among the first n rows. */
  function ProductFees(b: Books, dfrom: int, rows: seq<Repayment>, n: nat, loanId: int): seq<Cents>
    requires n <= |rows|
  {
    if n == 0 then []
    else
      ProductFees(b, dfrom, rows, n - 1, loanId)
      + if rows[n - 1].loanId == loanId && BookedFee(rows[n - 1]) > 0
      then [ProductPart(rows[n - 1].fee, FeeInfoOf(b, loanId).inBalance, FeesPaidBefore(b, dfrom, rows, n - 1, loanId))]
      else []
  }

  /** One row's credits, by account. */
  lemma RowCredits(b: Books, dfrom: int, rows: seq<Repayment>, i: nat, loanId: int)
    requires i < |rows| && ShareWithinOne(FeeInfoOf(b, loanId))
    ensures var r, info := rows[i], FeeInfoOf(b, loanId);
            var lines := LinesAt(b, dfrom, rows, i);
            if r.loanId == loanId && BookedFee(r) > 0 then
              var product := ProductPart(r.fee, info.inBalance, FeesPaidBefore(b, dfrom, rows, i, loanId));
              && Total(lines, CreditedTo(PRODUCT_FEES, loanId)) == product
              && Total(lines, CreditedTo(EXCISE, loanId)) == ExcisePart(product, info)
              && Total(lines, CreditedTo(PENALTIES, loanId)) == r.fee - product
            else
              && Total(lines, CreditedTo(PRODUCT_FEES, loanId)) == 0
              && Total(lines, CreditedTo(EXCISE, loanId)) == 0
              && Total(lines, CreditedTo(PENALTIES, loanId)) == 0
  {
    var r := rows[i];
    var info, paid := FeeInfoOf(b, r.loanId), FeesPaidBefore(b, dfrom, rows, i, r.loanId);
    forall accounts | accounts == PRODUCT_FEES || accounts == EXCISE || accounts == PENALTIES
      ensures Total(LinesAt(b, dfrom, rows, i), CreditedTo(accounts, loanId))
           == if BookedFee(r) > 0 then Total(FeeLines(r, info, paid), CreditedTo(accounts, loanId)) else 0
    {
      OnlyFeeLines(b, dfrom, rows, i, accounts, loanId);
    }
    if BookedFee(r) > 0 {
      FeeLineCredits(r, info, paid, loanId);
    }
  }

  lemma OnlyFeeLines(b: Books, dfrom: int, rows: seq<Repayment>, i: nat, accounts: set<Account>, loanId: int)
    requires i < |rows| && accounts <= PRODUCT_FEES + PENALTIES
    ensures var r := rows[i];
            Total(LinesAt(b, dfrom, rows, i), CreditedTo(accounts, loanId))
            == if BookedFee(r) > 0
            then Total(FeeLines(r, FeeInfoOf(b, r.loanId), FeesPaidBefore(b, dfrom, rows, i, r.loanId)),
                       CreditedTo(accounts, loanId))
            else 0
  {
    var r := rows[i];
    var info, paid := FeeInfoOf(b, r.loanId), FeesPaidBefore(b, dfrom, rows, i, r.loanId);
    PlainLineTotal(r, CreditedTo(accounts, loanId));
    TotalAppend(PlainLines(r), if BookedFee(r) > 0 then FeeLines(r, info, paid) else [], CreditedTo(accounts, loanId));
  }

  lemma FeeLineCredits(r: Repayment, info: FeeTerms, paid: Cents, loanId: int)
    requires r.fee > 0 && (r.loanId == loanId ==> ShareWithinOne(info))
    ensures var lines, product := FeeLines(r, info, paid), ProductPart(r.fee, info.inBalance, paid);
            if r.loanId != loanId then
              forall accounts :: Total(lines, CreditedTo(accounts, loanId)) == 0
            else
              && Total(lines, CreditedTo(PRODUCT_FEES, loanId)) == product
              && Total(lines, CreditedTo(EXCISE, loanId)) == ExcisePart(product, info)
              && Total(lines, CreditedTo(PENALTIES, loanId)) == r.fee - product
  {
    if r.loanId == loanId {
      FeePartsWithin(r.fee, info, paid);
      FeeLineTotal(r, info, paid, CreditedTo(PRODUCT_FEES, loanId));
      FeeLineTotal(r, info, paid, CreditedTo(EXCISE, loanId));
      FeeLineTotal(r, info, paid, CreditedTo(PENALTIES, loanId));
    } else {
      forall accounts ensures Total(FeeLines(r, info, paid), CreditedTo(accounts, loanId)) == 0 {
        FeeLineTotal(r, info, paid, CreditedTo(accounts, loanId));
      }
    }
  }

  /**
    * With cumulative fees rising from F_start to F_end against B of fees in the balance, fee income and excise together
    * are credited min(F_end, B) - min(F_start, B); everything above B goes to penalty income.
    */
  lemma {:induction false} SplitTelescopes(b: Books, dfrom: int, rows: seq<Repayment>, n: nat, loanId: int)
    requires n <= |rows| && ShareWithinOne(FeeInfoOf(b, loanId))
    ensures var inBalance := FeeInfoOf(b, loanId).inBalance;
            var start, end := PriorFees(b, dfrom, loanId), FeesPaidBefore(b, dfrom, rows, n, loanId);
            var lines := RepaymentPassTo(b, dfrom, rows, n);
            var product := Min(end, inBalance) - Min(start, inBalance);
            && Total(lines, CreditedTo(PRODUCT_FEES, loanId)) == product == Sum(ProductFees(b, dfrom, rows, n, loanId))
            && Total(lines, CreditedTo(PENALTIES, loanId)) == (end - start) - product
  {
    if n == 0 {
      assert RepaymentPassTo(b, dfrom, rows, 0) == [];
    } else {
      var m := n - 1;
      SplitTelescopes(b, dfrom, rows, m, loanId);
      RowTelescopes(b, dfrom, rows, m, loanId);
    }
  }

  lemma RowTelescopes(b: Books, dfrom: int, rows: seq<Repayment>, m: nat, loanId: int)
    requires m < |rows| && ShareWithinOne(FeeInfoOf(b, loanId))
    ensures var inBalance := FeeInfoOf(b, loanId).inBalance;
            var paid, after := FeesPaidBefore(b, dfrom, rows, m, loanId), FeesPaidBefore(b, dfrom, rows, m + 1, loanId);
            var product := Min(after, inBalance) - Min(paid, inBalance);
            var before, lines := RepaymentPassTo(b, dfrom, rows, m), RepaymentPassTo(b, dfrom, rows, m + 1);
            && Total(lines, CreditedTo(PRODUCT_FEES, loanId))
               == Total(before, CreditedTo(PRODUCT_FEES, loanId)) + product
            && Sum(ProductFees(b, dfrom, rows, m + 1, loanId)) == Sum(ProductFees(b, dfrom, rows, m, loanId)) + product
            && Total(lines, CreditedTo(PENALTIES, loanId))
               == Total(before, CreditedTo(PENALTIES, loanId)) + (after - paid) - product
  {
    var r, paid := rows[m], FeesPaidBefore(b, dfrom, rows, m, loanId);
    assert FeesPaidBefore(b, dfrom, rows, m + 1, loanId) == paid + BookedFeeOf(loanId)(r) by {
      FeesPaidStep(b, dfrom, rows, m);
    }
    RowCredits(b, dfrom, rows, m, loanId);
    AppendedRow(b, dfrom, rows, m, loanId);
    if r.loanId == loanId && BookedFee(r) > 0 {
      PartTelescopes(r.fee, FeeInfoOf(b, loanId).inBalance, paid);
    }
  }

  lemma PartTelescopes(fee: Cents, inBalance: Cents, paid: Cents)
    requires fee >= 0
    ensures ProductPart(fee, inBalance, paid) == Min(paid + fee, inBalance) - Min(paid, inBalance)
  {
  }

  /** One more row adds its own credits, and its product part if it paid a fee for the loan. */
  lemma AppendedRow(b: Books, dfrom: int, rows: seq<Repayment>, m: nat, loanId: int)
    requires m < |rows|
    ensures forall accounts :: Total(RepaymentPassTo(b, dfrom, rows, m + 1), CreditedTo(accounts, loanId))
                               == Total(RepaymentPassTo(b, dfrom, rows, m), CreditedTo(accounts, loanId))
                                  + Total(LinesAt(b, dfrom, rows, m), CreditedTo(accounts, loanId))
    ensures Sum(ProductFees(b, dfrom, rows, m + 1, loanId))
         == Sum(ProductFees(b, dfrom, rows, m, loanId))
            + if rows[m].loanId == loanId && BookedFee(rows[m]) > 0
            then ProductPart(rows[m].fee, FeeInfoOf(b, loanId).inBalance, FeesPaidBefore(b, dfrom, rows, m, loanId))
            else 0
  {
    forall accounts
      ensures Total(RepaymentPassTo(b, dfrom, rows, m + 1), CreditedTo(accounts, loanId))
           == Total(RepaymentPassTo(b, dfrom, rows, m), CreditedTo(accounts, loanId))
              + Total(LinesAt(b, dfrom, rows, m), CreditedTo(accounts, loanId))
    {
      TotalAppend(RepaymentPassTo(b, dfrom, rows, m), LinesAt(b, dfrom, rows, m), CreditedTo(accounts, loanId));
    }
    var fees, earlier := ProductFees(b, dfrom, rows, m + 1, loanId), ProductFees(b, dfrom, rows, m, loanId);
    if fees != earlier {
      SumAdd(earlier, fees[|earlier|]);
    }
  }

  lemma RoundedSharesAppend(amounts: seq<Cents>, x: Cents, num: int, den: int)
    requires den > 0
    ensures Sum(RoundedShares(amounts + [x], num, den))
         == Sum(RoundedShares(amounts, num, den)) + RoundHalfUp(x * num, den)
  {
    assert RoundedShares(amounts + [x], num, den) == RoundedShares(amounts, num, den) + [RoundHalfUp(x * num, den)];
    SumAdd(RoundedShares(amounts, num, den), RoundHalfUp(x * num, den));
  }

  lemma {:induction false} ExciseIsRoundedShares(b: Books, dfrom: int, rows: seq<Repayment>, n: nat, loanId: int)
    requires n <= |rows| && ShareWithinOne(FeeInfoOf(b, loanId))
    ensures var info := FeeInfoOf(b, loanId);
            Total(RepaymentPassTo(b, dfrom, rows, n), CreditedTo(EXCISE, loanId))
            == Sum(RoundedShares(ProductFees(b, dfrom, rows, n, loanId), info.shareNum, info.shareDen))
  {
    if n > 0 {
      var m, info := n - 1, FeeInfoOf(b, loanId);
      ExciseIsRoundedShares(b, dfrom, rows, m, loanId);
      var fees, earlier := ProductFees(b, dfrom, rows, n, loanId), ProductFees(b, dfrom, rows, m, loanId);
      assert Total(RepaymentPassTo(b, dfrom, rows, n), CreditedTo(EXCISE, loanId))
          == Total(RepaymentPassTo(b, dfrom, rows, m), CreditedTo(EXCISE, loanId))
             + Total(LinesAt(b, dfrom, rows, m), CreditedTo(EXCISE, loanId)) by {
        AppendedRow(b, dfrom, rows, m, loanId);
      }
      ExciseOfRow(b, dfrom, rows, m, loanId);
      if |fees| > |earlier| {
        assert fees == earlier + [fees[|earlier|]];
        RoundedSharesAppend(earlier, fees[|earlier|], info.shareNum, info.shareDen);
      }
    }
  }

  lemma ExciseOfRow(b: Books, dfrom: int, rows: seq<Repayment>, m: nat, loanId: int)
    requires m < |rows| && ShareWithinOne(FeeInfoOf(b, loanId))
    ensures var fees, earlier := ProductFees(b, dfrom, rows, m + 1, loanId), ProductFees(b, dfrom, rows, m, loanId);
            && (fees == earlier || (|fees| == |earlier| + 1 && fees[..|earlier|] == earlier))
            && Total(LinesAt(b, dfrom, rows, m), CreditedTo(EXCISE, loanId))
               == if fees == earlier then 0 else ExcisePart(fees[|earlier|], FeeInfoOf(b, loanId))
  {
    RowCredits(b, dfrom, rows, m, loanId);
  }

  /** Excise credited stays within half a cent per fee payment of the loan's exact share of its product fees. */
  lemma ExciseDrift(b: Books, dfrom: int, rows: seq<Repayment>, n: nat, loanId: int)
    requires n <= |rows| && ShareWithinOne(FeeInfoOf(b, loanId))
    ensures var info, fees := FeeInfoOf(b, loanId), ProductFees(b, dfrom, rows, n, loanId);
            var booked := Sum(RoundedShares(fees, info.shareNum, info.shareDen));
            && Sum(fees) == Min(FeesPaidBefore(b, dfrom, rows, n, loanId), info.inBalance)
                            - Min(PriorFees(b, dfrom, loanId), info.inBalance)
            && Total(RepaymentPassTo(b, dfrom, rows, n), CreditedTo(EXCISE, loanId)) == booked
            && WithinHalfCents(booked, Sum(fees), |fees|, info.shareNum, info.shareDen)
  {
    var info := FeeInfoOf(b, loanId);
    ExciseIsRoundedShares(b, dfrom, rows, n, loanId);
    SplitTelescopes(b, dfrom, rows, n, loanId);
    RoundedSharesDrift(ProductFees(b, dfrom, rows, n, loanId), info.shareNum, info.shareDen);
  }

  // ---------------------------------------------------------------- by the loan's own columns

  /** What an unknown or unpriced loan has of each column is nothing. */
  function FeesInBalance(b: Books, loanId: int): Cents {
    if loanId in b.loans then b.loans[loanId].feesInBalance else 0
  }

  predicate Priced(b: Books, loanId: int) {
    loanId in b.loans && b.loans[loanId].totalFees + b.loans[loanId].exciseDuty > 0
  }

  /**
    * By the loan's columns: fee income and excise together take min(F_end, B) - min(F_start, B) of the fees paid, for B
    * the fees in its balance, and penalty income the rest.
    */
  lemma SplitByTerms(b: Books, dfrom: int, rows: seq<Repayment>, n: nat, loanId: int)
    requires n <= |rows| && TermsSound(b)
    ensures var inBalance := FeesInBalance(b, loanId);
            var start, end := PriorFees(b, dfrom, loanId), FeesPaidBefore(b, dfrom, rows, n, loanId);
            var product := Min(end, inBalance) - Min(start, inBalance);
            && Total(RepaymentPassTo(b, dfrom, rows, n), CreditedTo(PRODUCT_FEES, loanId)) == product
            && Total(RepaymentPassTo(b, dfrom, rows, n), CreditedTo(PENALTIES, loanId)) == end - start - product
  {
    ShareOfTerms(b, loanId);
    SplitTelescopes(b, dfrom, rows, n, loanId);
  }

  /**
    * Of that, excise is exciseDuty in priced = totalFees + exciseDuty, to within half a cent for each fee payment:
    * every payment's product part times that share, rounded to the cent.
    */
  lemma ExciseByTerms(b: Books, dfrom: int, rows: seq<Repayment>, n: nat, loanId: int, excise: Cents, priced: Cents)
    requires n <= |rows| && TermsSound(b) && Priced(b, loanId)
    requires excise == b.loans[loanId].exciseDuty && priced == b.loans[loanId].totalFees + b.loans[loanId].exciseDuty
    ensures var fees := ProductFees(b, dfrom, rows, n, loanId);
            && Sum(fees) == Min(FeesPaidBefore(b, dfrom, rows, n, loanId), FeesInBalance(b, loanId))
                            - Min(PriorFees(b, dfrom, loanId), FeesInBalance(b, loanId))
            && Total(RepaymentPassTo(b, dfrom, rows, n), CreditedTo(EXCISE, loanId))
               == Sum(RoundedShares(fees, excise, priced))
            && WithinHalfCents(Sum(RoundedShares(fees, excise, priced)), Sum(fees), |fees|, excise, priced)
  {
    SharesByTerms(b, dfrom, rows, n, loanId, excise, priced);
    RoundedSharesDrift(ProductFees(b, dfrom, rows, n, loanId), excise, priced);
  }

  lemma SharesByTerms(b: Books, dfrom: int, rows: seq<Repayment>, n: nat, loanId: int, excise: Cents, priced: Cents)
    requires n <= |rows| && TermsSound(b) && Priced(b, loanId)
    requires excise == b.loans[loanId].exciseDuty && priced == b.loans[loanId].totalFees + b.loans[loanId].exciseDuty
    ensures var fees := ProductFees(b, dfrom, rows, n, loanId);
            && Total(RepaymentPassTo(b, dfrom, rows, n), CreditedTo(EXCISE, loanId))
               == Sum(RoundedShares(fees, excise, priced))
            && Sum(fees) == Min(FeesPaidBefore(b, dfrom, rows, n, loanId), FeesInBalance(b, loanId))
                            - Min(PriorFees(b, dfrom, loanId), FeesInBalance(b, loanId))
  {
    assert FeeInfoOf(b, loanId) == FeeInfo(FeesInBalance(b, loanId), excise, priced);
    ShareOfTerms(b, loanId);
    ExciseIsRoundedShares(b, dfrom, rows, n, loanId);
    SplitTelescopes(b, dfrom, rows, n, loanId);
  }

  /** And nothing for a loan that is unknown or not priced. */
  lemma NoShareNoExcise(b: Books, dfrom: int, rows: seq<Repayment>, n: nat, loanId: int)
    requires n <= |rows| && TermsSound(b) && !Priced(b, loanId)
    ensures Total(RepaymentPassTo(b, dfrom, rows, n), CreditedTo(EXCISE, loanId)) == 0
  {
    assert FeeInfoOf(b, loanId).shareNum == 0;
    ExciseIsRoundedShares(b, dfrom, rows, n, loanId);
    ZeroShares(ProductFees(b, dfrom, rows, n, loanId), FeeInfoOf(b, loanId).shareDen);
  }

  lemma {:induction false} ZeroShares(amounts: seq<Cents>, den: int)
    requires den > 0
    ensures Sum(RoundedShares(amounts, 0, den)) == 0
  {
    if amounts != [] {
      assert RoundedShares(amounts, 0, den)[1..] == RoundedShares(amounts[1..], 0, den);
      RoundExact(0, den);
      ZeroShares(amounts[1..], den);
    }
  }

  /** A loan that pays all its priced fees at once, and nothing else of them, books exactly its excise and its fees. */
  lemma PaidAtOnce(b: Books, dfrom: int, rows: seq<Repayment>, i: nat)
    requires i < |rows| && TermsSound(b) && Priced(b, rows[i].loanId) && ComponentsSum(rows[i])
    requires FeesPaidBefore(b, dfrom, rows, i, rows[i].loanId) == 0
    requires var terms := b.loans[rows[i].loanId];
             rows[i].fee == terms.totalFees + terms.exciseDuty == terms.feesInBalance
    ensures var r, terms, lines := rows[i], b.loans[rows[i].loanId], LinesAt(b, dfrom, rows, i);
            && Total(lines, CreditedTo({ExcisePayable}, r.loanId)) == terms.exciseDuty
            && Total(lines, CreditedTo({FeeIncome}, r.loanId)) == terms.totalFees
            && Total(lines, CreditedTo({PenaltyIncome}, r.loanId)) == 0
  {
    var r, terms, lines := rows[i], b.loans[rows[i].loanId], LinesAt(b, dfrom, rows, i);
    ShareOfTerms(b, r.loanId);
    RowCredits(b, dfrom, rows, i, r.loanId);
    assert r.fee * terms.exciseDuty == terms.exciseDuty * r.fee;
    RoundExact(terms.exciseDuty, r.fee);
    CreditsApart(lines, r.loanId);
  }

  lemma {:induction false} CreditsApart(lines: seq<Line>, loanId: int)
    ensures Total(lines, CreditedTo(PRODUCT_FEES, loanId))
         == Total(lines, CreditedTo({FeeIncome}, loanId)) + Total(lines, CreditedTo(EXCISE, loanId))
  {
    if lines != [] {
      CreditsApart(lines[1..], loanId);
    }
  }
}
