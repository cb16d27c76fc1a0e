/** What a loan row holds, and the amounts derived from its terms (backend/app/models/lending.py:149-208). */
module Loans {
  import opened Wrappers
  import opened Money
  import opened Sequences

  datatype Status =
    | Pending | Underwriting | Approved | Processing
    | Active | Overdue | Defaulted
    | Paid | Rejected

  /** A repayment row of the loan. */
  datatype Row = Row(amount: Cents, principal: Cents, interest: Cents, fee: Cents)

  /** Rates are thousandths of a percent; dates are day numbers. */
  datatype LoanState = LoanState(
    principal: Cents,
    interestRate: int,
    penaltyRate: int,
    status: Status,
    balance: Cents,
    feesInBalance: Cents,
    penalties: Cents,
    rebate: Cents,
    rows: seq<Row>,
    disbursedOn: Option<int>,
    dueOn: Option<int>,
    escalation: Option<string>)

  const PERCENT: int := 100_000

  predicate IsOpen(status: Status) {
    status in {Active, Overdue, Defaulted}
  }

  function FlatInterest(s: LoanState): Cents {
    RoundHalfUp(s.principal * s.interestRate, PERCENT)
  }

  /** money(principal * (1 + rate / 100)) */
  function TotalDue(s: LoanState): Cents {
    RoundHalfUp(s.principal * (PERCENT + s.interestRate), PERCENT)
  }

  function AmountOf(r: Row): Cents {
    r.amount
  }

  function PrincipalOf(r: Row): Cents {
    r.principal
  }

  function InterestOf(r: Row): Cents {
    r.interest
  }

  function Repaid(s: LoanState): Cents {
    Total(s.rows, AmountOf)
  }

  ghost predicate TermsSound(s: LoanState) {
    s.principal >= 0 && s.interestRate >= 0
  }

  /** Rounding principal plus interest is adding the rounded interest. */
  lemma TotalDueIsPrincipalPlusInterest(s: LoanState)
    requires TermsSound(s)
    ensures TotalDue(s) == s.principal + FlatInterest(s) && FlatInterest(s) >= 0
  {
    var interest := s.principal * s.interestRate;
    ScaleUp(0, s.principal, s.interestRate);
    assert s.principal * (PERCENT + s.interestRate) == s.principal * PERCENT + interest;
    RoundHalfUpShift(s.principal, interest, PERCENT);
  }

  /** Total due + fees in the balance + penalties - repaid - interest written off, as the integrity check expects it. */
  function ExpectedBalance(s: LoanState): Cents {
    TotalDue(s) + s.feesInBalance + s.penalties - Repaid(s) - s.rebate
  }

  predicate RowSound(r: Row) {
    r.principal >= 0 && r.interest >= 0 && r.fee >= 0 && r.principal + r.interest + r.fee == r.amount
  }

  predicate RowsSound(s: LoanState) {
    forall r :: r in s.rows ==> RowSound(r)
  }
}
