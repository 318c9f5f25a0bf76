/** Monthly income tax (ISR) from a fixed progressive bracket table. */
module Isr {
  import opened Numbers

  /** One row of the tax table: the income from `lower` upward pays
      `fixedFee` plus `rate` times the part of the income above `lower`. */
  datatype Bracket = Bracket(lower: real, fixedFee: real, rate: real)

  /** The eleven monthly brackets, ascending by lower bound. */
  const Table: seq<Bracket> := [
    Bracket(0.01,      0.00,      0.0192),
    Bracket(746.05,    14.32,     0.0640),
    Bracket(6332.06,   371.83,    0.1088),
    Bracket(11128.02,  893.63,    0.16),
    Bracket(12935.83,  1182.88,   0.1792),
    Bracket(15487.72,  1640.18,   0.2136),
    Bracket(31236.50,  5004.12,   0.2352),
    Bracket(49233.01,  9236.89,   0.30),
    Bracket(93993.91,  22665.17,  0.32),
    Bracket(125325.21, 32691.18,  0.34),
    Bracket(375975.62, 117912.32, 0.35)
  ]

  /** The lowest income any bracket covers. */
  const FirstLower: real := 0.01

  /** The highest marginal rate of the table. */
  const TopRate: real := 0.35

  ghost predicate StrictlyAscending(t: seq<Bracket>) {
    forall i, j :: 0 <= i < j < |t| ==> t[i].lower < t[j].lower
  }

  /** The table's shape: eleven rows, starting at one cent, strictly ascending
      lower bounds, rates that never fall and never exceed the top rate, and
      fixed fees that are at most the top rate applied to the lower bound. */
  lemma TableWellFormed()
    ensures |Table| == 11 && Table[0].lower == FirstLower
    ensures StrictlyAscending(Table)
    ensures forall i, j :: 0 <= i < j < |Table| ==> Table[i].rate <= Table[j].rate
    ensures forall i :: 0 <= i < |Table| ==> 0.0 <= Table[i].rate <= TopRate
    ensures forall i :: 0 <= i < |Table| ==> 0.0 <= Table[i].fixedFee <= TopRate * Table[i].lower
  {
  }

  /** Continuity at each boundary: the fixed fee of every bracket is, within
      one cent, the tax the bracket below charges at that boundary. */
  lemma TableContinuousWithinOneCent()
    ensures forall k :: 0 <= k < |Table| - 1 ==>
      -0.01 <= Table[k].fixedFee + (Table[k + 1].lower - Table[k].lower) * Table[k].rate - Table[k + 1].fixedFee <= 0.01
  {
  }

  /** `salary` lies in bracket `k`: at or above its lower bound and below the
      next one's (the top bracket is unbounded). */
  ghost predicate InBracket(salary: real, k: int) {
    0 <= k < |Table| && Table[k].lower <= salary &&
    (k + 1 == |Table| || salary < Table[k + 1].lower)
  }

  /** The loop over the table from the top down, with `n` rows still to look at:
      the first row whose lower bound is at most `salary`. */
  function Scan(salary: real, n: nat): (k: Option<nat>)
    requires n <= |Table|
    ensures k.Some? ==> k.value < n && Table[k.value].lower <= salary
    ensures k.Some? ==> forall j :: k.value < j < n ==> salary < Table[j].lower
    ensures k.None? <==> forall j :: 0 <= j < n ==> salary < Table[j].lower
    decreases n
  {
    if n == 0 then None
    else if salary >= Table[n - 1].lower then Some(n - 1)
    else Scan(salary, n - 1)
  }

  /** The bracket the tax calculation uses, if any. */
  function Select(salary: real): Option<nat> {
    Scan(salary, |Table|)
  }

  /** The top-down scan selects exactly the bracket the salary lies in, and
      selects none exactly when the salary is below one cent. */
  lemma SelectIsInBracket(salary: real, k: int)
    ensures Select(salary) == Some(k) <==> InBracket(salary, k)
    ensures Select(salary).None? <==> salary < FirstLower
  {
    TableWellFormed();
    var s := Select(salary);
    assert s.Some? ==> s.value < |Table| - 1 ==> Table[s.value + 1].lower > salary;
    assert InBracket(salary, k) ==> forall j :: k < j < |Table| ==> salary < Table[j].lower;
    assert s.None? ==> salary < Table[0].lower;
    assert salary < Table[0].lower ==> forall j :: 0 <= j < |Table| ==> salary < Table[j].lower;
  }

  /** The tax before rounding: fee plus marginal rate on the excess over the
      selected bracket's lower bound; all three are zero when no bracket is
      selected. */
  function Unrounded(salary: real): real {
    match Select(salary)
    case None => (salary - 0.0) * 0.0 + 0.0
    case Some(k) => (salary - Table[k].lower) * Table[k].rate + Table[k].fixedFee
  }

  /** `calcularISR`: the monthly income tax, in cents. */
  function Tax(salary: real): (r: real)
    ensures IsCents(r)
    ensures r >= 0.0
    ensures salary < FirstLower ==> r == 0.0
    ensures forall k :: InBracket(salary, k) ==>
      r == Round2((salary - Table[k].lower) * Table[k].rate + Table[k].fixedFee)
  {
    UnroundedFacts(salary);
    Round2(Unrounded(salary))
  }

  lemma UnroundedFacts(salary: real)
    ensures Unrounded(salary) >= 0.0
    ensures salary < FirstLower ==> Unrounded(salary) == 0.0
    ensures forall k :: InBracket(salary, k) ==>
      Unrounded(salary) == (salary - Table[k].lower) * Table[k].rate + Table[k].fixedFee
  {
    SelectIsInBracket(salary, 0);
    match Select(salary)
    case None =>
    case Some(k) =>
      forall j | InBracket(salary, j)
        ensures j == k
      {
        SelectIsInBracket(salary, j);
      }
      RateNonNegative(k);
      NonNegativeProduct(salary - Table[k].lower, Table[k].rate);
  }

  lemma RateNonNegative(k: nat)
    requires k < |Table|
    ensures 0.0 <= Table[k].rate <= TopRate
    ensures 0.0 <= Table[k].fixedFee <= TopRate * Table[k].lower
  {
    TableWellFormed();
  }

  lemma NonNegativeProduct(a: real, b: real)
    requires a >= 0.0 && b >= 0.0
    ensures a * b >= 0.0
  {
  }

  /** Tax never exceeds the top rate applied to the whole salary, plus half a
      cent of rounding. */
  lemma TaxAtMostTopRate(salary: real)
    requires salary >= 0.0
    ensures Tax(salary) <= TopRate * salary + 0.005
  {
    assert Unrounded(salary) <= TopRate * salary by {
      match Select(salary)
      case None =>
      case Some(k) =>
        RateNonNegative(k);
        var b := Table[k];
        var excess := salary - b.lower;
        assert excess >= 0.0;
        NonNegativeProduct(excess, TopRate - b.rate);
        assert Unrounded(salary) == excess * b.rate + b.fixedFee;
    }
  }

  /** Worked examples: no tax at zero or one cent; a salary of 10000 falls in
      the third bracket and pays 770.90. */
  lemma TaxExamples()
    ensures Tax(0.0) == 0.0
    ensures Tax(0.01) == 0.0
    ensures Tax(10000.0) == 770.90
  {
    SelectIsInBracket(0.01, 0);
    SelectIsInBracket(10000.0, 2);
  }

  /** The rounded tax is not monotone: just below the 125325.21 boundary it is
      one cent higher than at the boundary. */
  lemma TaxNotMonotone()
    ensures Tax(125325.209) == 32691.19
    ensures Tax(125325.21) == 32691.18
  {
    SelectIsInBracket(125325.209, 8);
    SelectIsInBracket(125325.21, 9);
  }
}
