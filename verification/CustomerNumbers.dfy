/** Customer numbers and their Luhn check digit (backend/app/core/customer_number.py; ISO/IEC 7812-1, Annex B). */
module CustomerNumbers {
  import opened Wrappers
  import opened Sequences
  import opened Decimals

  const CUSTOMER_NUMBER_LENGTH: nat := 7
  const PAYLOAD_MIN: nat := 100_000
  const PAYLOAD_SPAN: nat := 900_000
  const MAX_ATTEMPTS: nat := 50

  // ---------------------------------------------------------------- the check digit

  function Weight(d: int, doubled: bool): int {
    if doubled then (if 2 * d > 9 then 2 * d - 9 else 2 * d) else d
  }

  /** The weighted sum of digits taken from the right, the rightmost doubled or not and the others alternating. */
  function WeightedSum(s: string, doubled: bool): int
    requires IsDigits(s)
  {
    if s == "" then 0
    else Weight(DigitOf(s[|s| - 1]), doubled) + WeightedSum(s[..|s| - 1], !doubled)
  }

  function CheckDigit(payload: string): (d: int)
    requires IsDigits(payload)
    ensures 0 <= d <= 9
  {
    (10 - WeightedSum(payload, true) % 10) % 10
  }

  method LuhnCheckDigit(payload: string) returns (d: int)
    requires IsDigits(payload)
    ensures d == CheckDigit(payload)
  {
    var total, double, i := 0, true, |payload|;
    assert payload[..|payload|] == payload;
    while i > 0
      invariant 0 <= i <= |payload|
      invariant total + WeightedSum(payload[..i], double) == WeightedSum(payload, true)
    {
      i := i - 1;
      assert payload[..i + 1][..i] == payload[..i];
      var digit := DigitOf(payload[i]);
      if double {
        digit := digit * 2;
        if digit > 9 {
          digit := digit - 9;
        }
      }
      total := total + digit;
      double := !double;
    }
    d := (10 - total % 10) % 10;
  }

  /** A number whose last digit is the check digit of the rest. */
  predicate LuhnValid(s: string) {
    s != "" && IsDigits(s) && CheckDigit(s[..|s| - 1]) == DigitOf(s[|s| - 1])
  }

  lemma ValidIffSumDivisible(s: string)
    requires s != "" && IsDigits(s)
    ensures LuhnValid(s) <==> WeightedSum(s, false) % 10 == 0
  {
    var total, last := WeightedSum(s[..|s| - 1], true), DigitOf(s[|s| - 1]);
    assert WeightedSum(s, false) == last + total;
    Complement(total, last);
  }

  lemma Complement(total: int, last: int)
    requires 0 <= last <= 9
    ensures (10 - total % 10) % 10 == last <==> (last + total) % 10 == 0
  {
  }

  /** Whether the digit at position k is doubled, when the rightmost one is or is not. */
  predicate DoubledAt(s: string, k: nat, doubled: bool)
    requires k < |s|
  {
    doubled != ((|s| - 1 - k) % 2 == 1)
  }

  lemma {:induction false} SumAfterChange(s: string, k: nat, c: char, doubled: bool)
    requires IsDigits(s) && k < |s| && IsDigit(c)
    ensures WeightedSum(s[k := c], doubled)
         == WeightedSum(s, doubled) - Weight(DigitOf(s[k]), DoubledAt(s, k, doubled))
            + Weight(DigitOf(c), DoubledAt(s, k, doubled))
  {
    var n := |s| - 1;
    if k == n {
      assert s[k := c][..n] == s[..n];
    } else {
      assert s[k := c][..n] == s[..n][k := c];
      SumAfterChange(s[..n], k, c, !doubled);
      assert s[..n][k] == s[k];
      assert DoubledAt(s[..n], k, !doubled) == DoubledAt(s, k, doubled) by {
        assert |s| - 1 - k == (|s[..n]| - 1 - k) + 1;
      }
    }
  }

  /** Changing any one digit of a valid number, the check digit included, makes it invalid. */
  lemma OneDigitDetected(s: string, k: nat, c: char)
    requires LuhnValid(s) && k < |s| && IsDigit(c) && c != s[k]
    ensures !LuhnValid(s[k := c])
  {
    var before, after := WeightedSum(s, false), WeightedSum(s[k := c], false);
    assert LuhnValid(s[k := c]) <==> (after - before) % 10 == 0 by {
      ValidIffSumDivisible(s);
      ValidIffSumDivisible(s[k := c]);
      SameRemainder(before, after);
    }
    SumAfterChange(s, k, c, false);
    ChangedWeight(DigitOf(s[k]), DigitOf(c), DoubledAt(s, k, false));
  }

  lemma ChangedWeight(a: int, b: int, doubled: bool)
    requires 0 <= a <= 9 && 0 <= b <= 9 && a != b
    ensures (Weight(b, doubled) - Weight(a, doubled)) % 10 != 0
  {
    var difference := Weight(b, doubled) - Weight(a, doubled);
    assert difference != 0 && -9 <= difference <= 9;
  }

  function SwapAt(s: string, k: nat): string
    requires k + 1 < |s|
  {
    s[k := s[k + 1]][k + 1 := s[k]]
  }

  /** Swapping two adjacent digits keeps a valid number valid exactly when they are equal or are a 0 and a 9. */
  lemma AdjacentSwapDetected(s: string, k: nat)
    requires LuhnValid(s) && k + 1 < |s|
    ensures LuhnValid(SwapAt(s, k))
       <==> s[k] == s[k + 1] || (s[k], s[k + 1]) == ('0', '9') || (s[k], s[k + 1]) == ('9', '0')
  {
    var before, after := WeightedSum(s, false), WeightedSum(SwapAt(s, k), false);
    assert LuhnValid(SwapAt(s, k)) <==> (after - before) % 10 == 0 by {
      ValidIffSumDivisible(s);
      ValidIffSumDivisible(SwapAt(s, k));
      SameRemainder(before, after);
    }
    SumAfterSwap(s, k);
    SwappedWeights(DigitOf(s[k]), DigitOf(s[k + 1]), DoubledAt(s, k, false));
  }

  lemma SameRemainder(a: int, b: int)
    requires a % 10 == 0
    ensures b % 10 == 0 <==> (b - a) % 10 == 0
  {
  }

  lemma SumAfterSwap(s: string, k: nat)
    requires IsDigits(s) && k + 1 < |s|
    ensures var a, b, doubled := DigitOf(s[k]), DigitOf(s[k + 1]), DoubledAt(s, k, false);
            WeightedSum(SwapAt(s, k), false)
            == WeightedSum(s, false) + Weight(b, doubled) - Weight(a, doubled)
            + Weight(a, !doubled) - Weight(b, !doubled)
  {
    SumAfterChange(s, k, s[k + 1], false);
    SecondChange(s, s[k := s[k + 1]], k);
  }

  lemma SecondChange(s: string, once: string, k: nat)
    requires IsDigits(s) && k + 1 < |s| && once == s[k := s[k + 1]]
    ensures var a, b, doubled := DigitOf(s[k]), DigitOf(s[k + 1]), DoubledAt(s, k, false);
            WeightedSum(once[k + 1 := s[k]], false)
            == WeightedSum(once, false) - Weight(b, !doubled) + Weight(a, !doubled)
  {
    SumAfterChange(once, k + 1, s[k], false);
    NextPosition(s, k);
  }

  lemma NextPosition(s: string, k: nat)
    requires k + 1 < |s|
    ensures DoubledAt(s, k + 1, false) == !DoubledAt(s, k, false)
  {
    assert |s| - 1 - k == (|s| - 1 - (k + 1)) + 1;
  }

  lemma SwappedWeights(a: int, b: int, doubled: bool)
    requires 0 <= a <= 9 && 0 <= b <= 9
    ensures (Weight(b, doubled) + Weight(a, !doubled) - Weight(a, doubled) - Weight(b, !doubled)) % 10 == 0
       <==> a == b || (a == 0 && b == 9) || (a == 9 && b == 0)
  {
  }

  // ---------------------------------------------------------------- what a payer types

  /** ASCII whitespace, as str.strip() removes it. */
  predicate IsSpace(c: char) {
    c == ' ' || '\t' <= c <= '\r' || 28 <= c as int <= 31
  }

  function StripLeft(s: string): string {
    if s != "" && IsSpace(s[0]) then StripLeft(s[1..]) else s
  }

  function StripRight(s: string): string {
    if s != "" && IsSpace(s[|s| - 1]) then StripRight(s[..|s| - 1]) else s
  }

  predicate NotSeparator(c: char) {
    c != ' ' && c != '-'
  }

  function Normalise(value: Option<string>): Option<string> {
    if value.None? then None
    else
      var s := Filter(StripRight(StripLeft(value.value)), NotSeparator);
      if s == "" || !IsDigits(s) then None else Some(s)
  }

  function IsValid(value: Option<string>): bool {
    var s := Normalise(value);
    s.Some? && |s.value| == CUSTOMER_NUMBER_LENGTH && LuhnValid(s.value)
  }

  predicate Typable(c: char) {
    IsDigit(c) || c == ' ' || c == '-'
  }

  lemma {:induction false} StripKeepsDigits(s: string)
    requires forall i :: 0 <= i < |s| ==> Typable(s[i])
    ensures Filter(StripLeft(s), NotSeparator) == Filter(s, NotSeparator)
    ensures forall i :: 0 <= i < |StripLeft(s)| ==> Typable(StripLeft(s)[i])
    ensures Filter(StripRight(s), NotSeparator) == Filter(s, NotSeparator)
    decreases |s|
  {
    if s != "" && IsSpace(s[0]) {
      StripKeepsDigits(s[1..]);
    }
    if s != "" && IsSpace(s[|s| - 1]) {
      var n := |s| - 1;
      StripKeepsDigits(s[..n]);
      assert s == s[..n] + [s[n]];
      FilterAppend(s[..n], [s[n]], NotSeparator);
    }
  }

  lemma {:induction false} FilterDigits(s: string)
    requires forall i :: 0 <= i < |s| ==> Typable(s[i])
    ensures IsDigits(Filter(s, NotSeparator))
  {
    if s != "" {
      FilterDigits(s[1..]);
    }
  }

  /** Digits typed with spaces and dashes anywhere read as those digits. */
  lemma SeparatorsIgnored(s: string)
    requires (forall i :: 0 <= i < |s| ==> Typable(s[i])) && Filter(s, NotSeparator) != ""
    ensures Normalise(Some(s)) == Some(Filter(s, NotSeparator))
  {
    StripKeepsDigits(s);
    StripKeepsDigits(StripLeft(s));
    FilterDigits(s);
  }

  /** So typing a customer number with one wrong digit is refused however it is spaced. */
  lemma MistypedRefused(typed: string, number: string, k: nat, c: char)
    requires IsValid(Some(number)) && IsDigits(number) && k < |number| && IsDigit(c) && c != number[k]
    requires (forall i :: 0 <= i < |typed| ==> Typable(typed[i])) && Filter(typed, NotSeparator) == number[k := c]
    ensures !IsValid(Some(typed))
  {
    SeparatorsIgnored(typed);
    PlainNumber(number);
    OneDigitDetected(number, k, c);
  }

  lemma PlainNumber(s: string)
    requires IsDigits(s) && s != ""
    ensures Normalise(Some(s)) == Some(s)
  {
    FilterAll(s, NotSeparator);
    SeparatorsIgnored(s);
  }

  /** Typed with digits, spaces and dashes, it is valid exactly if the digits are seven and pass the check. */
  lemma ValidIs(s: string)
    requires forall i :: 0 <= i < |s| ==> Typable(s[i])
    ensures var digits := Filter(s, IsDigit);
            IsValid(Some(s)) <==> |digits| == 7 && LuhnValid(digits)
  {
    DigitsKept(s);
    if Filter(s, NotSeparator) != "" {
      SeparatorsIgnored(s);
    } else {
      StripKeepsDigits(s);
      StripKeepsDigits(StripLeft(s));
    }
  }

  lemma {:induction false} DigitsKept(s: string)
    requires forall i :: 0 <= i < |s| ==> Typable(s[i])
    ensures Filter(s, NotSeparator) == Filter(s, IsDigit)
  {
    if s != "" {
      assert Typable(s[0]);
      DigitsKept(s[1..]);
    }
  }

  /** Anything else in it, a letter say, and it is refused. */
  lemma OthersRefused(s: string, c: char)
    requires c in s && !IsDigit(c) && !IsSpace(c) && NotSeparator(c)
    ensures Normalise(Some(s)) == None && !IsValid(Some(s))
  {
    StripKeeps(s, c);
    StripKeeps(StripLeft(s), c);
    var typed := Filter(StripRight(StripLeft(s)), NotSeparator);
    FilterMember(StripRight(StripLeft(s)), NotSeparator, c);
    var i :| 0 <= i < |typed| && typed[i] == c;
    assert !IsDigits(typed);
  }

  lemma {:induction false} StripKeeps(s: string, c: char)
    requires c in s && !IsSpace(c)
    ensures c in StripLeft(s) && c in StripRight(s)
    decreases |s|
  {
    if IsSpace(s[0]) {
      assert s == [s[0]] + s[1..];
      StripKeeps(s[1..], c);
    }
    if IsSpace(s[|s| - 1]) {
      assert s == s[..|s| - 1] + [s[|s| - 1]];
      StripKeeps(s[..|s| - 1], c);
    }
  }

  // ---------------------------------------------------------------- issuing numbers

  /** draw is what secrets.randbelow returned. */
  function Candidate(draw: int): string
    requires 0 <= draw < PAYLOAD_SPAN
  {
    var payload := Numeral(PAYLOAD_MIN + draw);
    payload + Numeral(CheckDigit(payload))
  }

  /** Every generated candidate is a valid 7-digit number, and different draws give different numbers. */
  lemma CandidateValid(draw: int)
    requires 0 <= draw < PAYLOAD_SPAN
    ensures IsValid(Some(Candidate(draw))) && |Candidate(draw)| == CUSTOMER_NUMBER_LENGTH && IsDigits(Candidate(draw))
    ensures Candidate(draw)[..6] == Numeral(PAYLOAD_MIN + draw)
  {
    var payload := Numeral(PAYLOAD_MIN + draw);
    assert PowerOfTen(5) == 100_000 && PowerOfTen(6) == 1_000_000 by { Powers(); }
    NumeralLength(PAYLOAD_MIN + draw, 5);
    var s := Candidate(draw);
    assert Numeral(CheckDigit(payload)) == [Digit(CheckDigit(payload))];
    assert s[..|s| - 1] == payload;
    PlainNumber(s);
  }

  lemma Powers()
    ensures PowerOfTen(5) == 100_000 && PowerOfTen(6) == 1_000_000
  {
    assert PowerOfTen(1) == 10;
    assert PowerOfTen(3) == 1000;
  }

  lemma CandidatesDiffer(a: int, b: int)
    requires 0 <= a < PAYLOAD_SPAN && 0 <= b < PAYLOAD_SPAN && Candidate(a) == Candidate(b)
    ensures a == b
  {
    CandidateValid(a);
    CandidateValid(b);
    NumeralInjective(PAYLOAD_MIN + a, PAYLOAD_MIN + b);
  }

  datatype IssueError = NoFreeNumber

  /** generate_unique: the first of at most fifty draws whose number is free; it fails only when all fifty are taken. */
  method GenerateUnique(draws: seq<int>, taken: set<string>) returns (r: Result<string, IssueError>)
    requires |draws| >= MAX_ATTEMPTS && forall i :: 0 <= i < |draws| ==> 0 <= draws[i] < PAYLOAD_SPAN
    ensures r.Ok? ==> r.value !in taken && IsValid(Some(r.value))
                      && exists i :: 0 <= i < MAX_ATTEMPTS && Candidate(draws[i]) == r.value
                                     && forall j :: 0 <= j < i ==> Candidate(draws[j]) in taken
    ensures r.Err? <==> forall i :: 0 <= i < MAX_ATTEMPTS ==> Candidate(draws[i]) in taken
  {
    for i := 0 to MAX_ATTEMPTS
      invariant forall j :: 0 <= j < i ==> Candidate(draws[j]) in taken
    {
      var payload := Numeral(PAYLOAD_MIN + draws[i]);
      var check := LuhnCheckDigit(payload);
      var candidate := payload + Numeral(check);
      if candidate !in taken {
        CandidateValid(draws[i]);
        return Ok(candidate);
      }
    }
    return Err(NoFreeNumber);
  }
}
