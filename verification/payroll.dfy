/** Gross to net: income tax and social-security withholding taken from a
    gross monthly salary. */
module Payroll {
  import opened Numbers
  import Isr
  import Imss

  /** The result of one calculation: net pay and the two deductions. */
  datatype Breakdown = Breakdown(net: real, isr: real, imss: real)

  /** The zero-filled result returned for input that is not a valid salary. */
  const Zero: Breakdown := Breakdown(0.0, 0.0, 0.0)

  /** `calcularNetoDetallado`: NaN or negative gross gives the zero result;
      otherwise the deductions are exactly the two calculators' values and
      net plus deductions give back the gross to within half a cent. */
  function NetDetail(gross: Num): (b: Breakdown)
    ensures gross.NaN? || gross.v < 0.0 ==> b == Zero
    ensures gross.Val? && gross.v >= 0.0 ==>
      b.isr == Isr.Tax(gross.v) && b.imss == Imss.DefaultContribution(gross.v)
    ensures gross.Val? && gross.v >= 0.0 ==>
      gross.v - 0.005 < b.net + b.isr + b.imss <= gross.v + 0.005
    ensures IsCents(b.net) && IsCents(b.isr) && IsCents(b.imss)
    ensures b.isr >= 0.0 && b.imss >= 0.0
  {
    if gross.NaN? || gross.v < 0.0 then
      CentsZero();
      Zero
    else
      var isr := Isr.Tax(gross.v);
      var imss := Imss.DefaultContribution(gross.v);
      Breakdown(Round2(gross.v - isr - imss), isr, imss)
  }

  lemma CentsZero()
    ensures IsCents(0.0)
  {
  }

  /** The net pay of a gross salary (the search's objective function). */
  function NetOf(gross: real): real {
    NetDetail(Val(gross)).net
  }

  /** Net pay keeps at least 62.08% of a valid gross, less a cent and a half:
      the tax takes at most 35% and the withholding at most 2.92%. */
  lemma NetAtLeast(gross: real)
    requires gross >= 0.0
    ensures NetOf(gross) >= 0.6208 * gross - 0.015
  {
    Isr.TaxAtMostTopRate(gross);
    Imss.DefaultContributionAtMost(gross);
  }

  /** Worked examples: a gross of 10000 nets 8978.72 after 770.90 of tax and
      250.38 of withholding; NaN and negative gross give the zero result. */
  lemma NetDetailExamples()
    ensures NetDetail(Val(10000.0)) == Breakdown(8978.72, 770.90, 250.38)
    ensures NetDetail(Val(-5.0)) == Zero && NetDetail(NaN) == Zero
  {
    Isr.TaxExamples();
  }

  /** Net pay is not monotone in the gross: one ten-thousandth of a peso more
      gross yields one cent less net, because the tax and the net round
      separately. */
  lemma NetNotMonotone()
    ensures NetOf(10000.0287) == 8978.75
    ensures NetOf(10000.0288) == 8978.74
  {
    NetAtLowerPoint();
    NetAtUpperPoint();
  }

  lemma NetAtLowerPoint()
    ensures NetOf(10000.0287) == 8978.75
  {
    Isr.SelectIsInBracket(10000.0287, 2);
  }

  lemma NetAtUpperPoint()
    ensures NetOf(10000.0288) == 8978.74
  {
    Isr.SelectIsInBracket(10000.0288, 2);
  }

  /** The net can fall by two cents: between these two gross salaries the
      tax and the withholding each step up by a cent while the gross grows by
      less than half a cent. */
  lemma NetDropsTwoCents()
    ensures NetOf(56462.759) == 43454.02
    ensures NetOf(56462.761) == 43454.00
  {
    NetBeforeDrop();
    NetAfterDrop();
  }

  lemma NetBeforeDrop()
    ensures NetOf(56462.759) == 43454.02
  {
    TaxBeforeDrop();
    ImssBeforeDrop();
  }

  lemma NetAfterDrop()
    ensures NetOf(56462.761) == 43454.00
  {
    TaxAfterDrop();
    ImssAfterDrop();
  }

  lemma TaxBeforeDrop()
    ensures Isr.Tax(56462.759) == 11405.81
  {
    Isr.SelectIsInBracket(56462.759, 7);
  }

  lemma TaxAfterDrop()
    ensures Isr.Tax(56462.761) == 11405.82
  {
    Isr.SelectIsInBracket(56462.761, 7);
  }

  lemma ImssBeforeDrop()
    ensures Imss.DefaultContribution(56462.759) == 1602.93
  {
  }

  lemma ImssAfterDrop()
    ensures Imss.DefaultContribution(56462.761) == 1602.94
  {
  }
}
