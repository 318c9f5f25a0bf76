/** The employee's monthly social-security (IMSS) withholding. */
module Imss {
  import opened Numbers

  /** The UMA (base unit of measure and update), daily, in pesos. */
  const Uma: real := 113.14

  /** Rates of the five withholding components. */
  const ExcessRate: real := 0.004
  const CashBenefitsRate: real := 0.0025
  const MedicalExpensesRate: real := 0.00375
  const DisabilityRate: real := 0.00625
  const RetirementRate: real := 0.01125

  /** The daily contribution base never exceeds 25 UMA. */
  const DailyCap: real := Uma * 25.0

  /** The part of the daily base above 3 UMA pays the excess rate. */
  const ExcessThreshold: real := 3.0 * Uma

  /** Default integration factor and days per month of the calculator. */
  const DefaultFactor: real := 1.049031
  const DefaultDays: real := 30.0

  /** The integrated daily contribution base: the monthly salary spread over
      30 days, times the integration factor, capped at 25 UMA. */
  function DailyBase(monthly: real, factor: real): (b: real)
    ensures b <= DailyCap
    ensures b <= monthly / 30.0 * factor
    ensures b == DailyCap || b == monthly / 30.0 * factor
    ensures monthly >= 0.0 && factor >= 0.0 ==> b >= 0.0
  {
    Min(monthly / 30.0 * factor, DailyCap)
  }

  /** The part of the daily base above 3 UMA, or zero. */
  function ExcessBase(daily: real): (e: real)
    ensures e >= 0.0
    ensures e >= daily - ExcessThreshold
    ensures e == 0.0 <==> daily <= ExcessThreshold
  {
    Max(daily - ExcessThreshold, 0.0)
  }

  /** The unrounded sum of the five components for a daily base and a
      number of days. */
  function Components(daily: real, days: real): real {
    ExcessBase(daily) * ExcessRate * days
    + daily * CashBenefitsRate * days
    + daily * MedicalExpensesRate * days
    + daily * DisabilityRate * days
    + daily * RetirementRate * days
  }

  /** The combined rate of the four components charged on the whole base. */
  const BaseRate: real := CashBenefitsRate + MedicalExpensesRate + DisabilityRate + RetirementRate

  /** `calcularImssFactorIntegre`: the monthly withholding, in cents: the
      excess rate on the part of the capped daily base above 3 UMA plus the
      other four rates on the whole capped base, for each day, rounded. */
  function Contribution(monthly: real, factor: real, days: real): (r: real)
    ensures IsCents(r)
    ensures var b := DailyBase(monthly, factor);
      var exact := (ExcessRate * ExcessBase(b) + BaseRate * b) * days;
      exact - 0.005 < r <= exact + 0.005
    ensures monthly >= 0.0 && factor >= 0.0 && days >= 0.0 ==> r >= 0.0
  {
    ComponentsNonNegative(DailyBase(monthly, factor), days);
    Round2(Components(DailyBase(monthly, factor), days))
  }

  lemma ComponentsNonNegative(daily: real, days: real)
    ensures daily >= 0.0 && days >= 0.0 ==> Components(daily, days) >= 0.0
  {
    if daily >= 0.0 && days >= 0.0 {
      var e := ExcessBase(daily);
      assert e * ExcessRate * days >= 0.0;
      assert daily * BaseRate * days >= 0.0;
    }
  }

  /** The withholding with the calculator's default factor and days. */
  function DefaultContribution(monthly: real): real {
    Contribution(monthly, DefaultFactor, DefaultDays)
  }

  /** The cap: all salaries whose integrated daily base reaches 25 UMA pay the
      same withholding. */
  lemma ContributionCapped(m1: real, m2: real, factor: real, days: real)
    requires m1 / 30.0 * factor >= DailyCap && m2 / 30.0 * factor >= DailyCap
    ensures Contribution(m1, factor, days) == Contribution(m2, factor, days)
    ensures DailyBase(m1, factor) == DailyCap
  {
  }

  /** With the default factor the cap is reached from a monthly salary of
      80888.94 on (25 UMA times 30 days over the factor, rounded up to cents). */
  lemma DefaultContributionCapped(monthly: real)
    requires monthly >= 80888.94
    ensures DefaultContribution(monthly) == DefaultContribution(80888.94)
  {
    ContributionCapped(monthly, 80888.94, DefaultFactor, DefaultDays);
  }

  /** With the default factor and days the withholding never decreases as the
      salary grows. */
  lemma DefaultContributionMonotone(m1: real, m2: real)
    requires m1 <= m2
    ensures DefaultContribution(m1) <= DefaultContribution(m2)
  {
    var b1, b2 := DailyBase(m1, DefaultFactor), DailyBase(m2, DefaultFactor);
    assert b1 <= b2;
    assert ExcessBase(b1) <= ExcessBase(b2);
    Round2Monotone(Components(b1, DefaultDays), Components(b2, DefaultDays));
  }

  /** With the default factor and days the withholding is at most 2.92% of a
      non-negative salary, plus half a cent of rounding. */
  lemma DefaultContributionAtMost(monthly: real)
    requires monthly >= 0.0
    ensures DefaultContribution(monthly) <= 0.0292 * monthly + 0.005
  {
    var b := DailyBase(monthly, DefaultFactor);
    assert ExcessBase(b) <= b;
  }
}
