/** Cumulative PAYE and the payslip over it (app/domain/payroll/paye.py,
    app/domain/payroll/payslip.py). */
module Payslips {
  import opened Base
  import Money

  datatype PayError = NegativeInput | NegativeNet | LoanExceedsNet | NoBracket | EmptyPackage

  // ----- Income tax -----

  /** One slice of income: its cumulative ceiling, None for the open top. */
  datatype Band = Band(upTo: Option<int>, rate: int)

  datatype Rules = Rules(bands: seq<Band>, pensionRate: int, nhfRate: int, rentReliefRate: int, rentReliefCap: int)

  predicate IsRate(rate: int) {
    0 <= rate <= Money.PPM
  }

  /** Ceilings rise from `floor`, and every rate is between 0% and 100%. */
  predicate AreBands(bands: seq<Band>, floor: int) {
    bands != [] ==>
      && IsRate(bands[0].rate)
      && (bands[0].upTo.Some? ==> floor < bands[0].upTo.value && AreBands(bands[1..], bands[0].upTo.value))
  }

  predicate AreRules(rules: Rules) {
    && AreBands(rules.bands, 0)
    && IsRate(rules.pensionRate) && IsRate(rules.nhfRate) && IsRate(rules.rentReliefRate) && rules.rentReliefCap >= 0
  }

  function Min(a: int, b: int): int {
    if a <= b then a else b
  }

  function Max(a: int, b: int): int {
    if a >= b then a else b
  }

  /** A rate on a non-negative amount. */
  function Part(amount: int, rate: int): int
    requires amount >= 0 && IsRate(rate)
  {
    Money.ApplyRatePpm(amount, rate).value
  }

  /** Tax on `income` above `floor`, band by band, each rounded on its own. */
  function Tax(income: int, floor: int, bands: seq<Band>): int
    requires AreBands(bands, floor)
  {
    if bands == [] || income <= 0 then 0
    else if bands[0].upTo.None? then Part(income, bands[0].rate)
    else
      var width := bands[0].upTo.value - floor;
      Part(Min(income, width), bands[0].rate) + Tax(income - width, bands[0].upTo.value, bands[1..])
  }

  /** compute_paye_annual's loop. */
  method ComputePayeAnnual(chargeable: int, bands: seq<Band>) returns (r: Result<int, PayError>)
    requires AreBands(bands, 0)
    ensures r.Ok? <==> chargeable >= 0
    ensures r.Ok? ==> r.value == Tax(chargeable, 0, bands) == SlicesTax(bands, chargeable, |bands|)
  {
    if chargeable < 0 {
      return Err(NegativeInput);
    }
    TaxIsBandByBand(chargeable, bands);
    if chargeable == 0 {
      return Ok(0);
    }
    var tax, previousCeiling, remaining := 0, 0, chargeable;
    var i := 0;
    while i < |bands|
      invariant 0 <= i <= |bands| && remaining > 0
      invariant AreBands(bands[i..], previousCeiling)
      invariant tax + Tax(remaining, previousCeiling, bands[i..]) == Tax(chargeable, 0, bands)
    {
      var band := bands[i];
      assert bands[i..][1..] == bands[i + 1..];
      var width := if band.upTo.None? then remaining else band.upTo.value - previousCeiling;
      var taxable := Min(remaining, width);
      if taxable <= 0 {
        break;
      }
      tax := tax + Part(taxable, band.rate);
      remaining := remaining - taxable;
      if band.upTo.Some? {
        previousCeiling := band.upTo.value;
      }
      if remaining <= 0 {
        break;
      }
      i := i + 1;
    }
    return Ok(tax);
  }

  // ----- What tax is, band by band -----

  /** Where band i begins: at the ceiling of the one before. */
  function Floor(bands: seq<Band>, i: nat): int
    requires i < |bands|
  {
    if i == 0 || bands[i - 1].upTo.None? then 0 else bands[i - 1].upTo.value
  }

  /** Whether an open band comes before band i, so that nothing is left for it. */
  predicate IsPastTop(bands: seq<Band>, i: nat)
    requires i <= |bands|
  {
    exists j :: 0 <= j < i && bands[j].upTo.None?
  }

  /** The part of an income that falls into band i. */
  function Slice(bands: seq<Band>, income: int, i: nat): (part: int)
    requires i < |bands|
    ensures part >= 0
  {
    if IsPastTop(bands, i) then 0
    else Max(0, (if bands[i].upTo.None? then income else Min(income, bands[i].upTo.value)) - Floor(bands, i))
  }

  /** Each band's rate on its part, rounded half up, over the first n bands. */
  function SlicesTax(bands: seq<Band>, income: int, n: nat): int
    requires n <= |bands|
  {
    if n == 0 then 0
    else SlicesTax(bands, income, n - 1) + Money.Rounded(Slice(bands, income, n - 1) * bands[n - 1].rate)
  }

  /** The same without rounding, in millionths. */
  function SlicesExact(bands: seq<Band>, income: int, n: nat): int
    requires n <= |bands|
  {
    if n == 0 then 0 else SlicesExact(bands, income, n - 1) + Slice(bands, income, n - 1) * bands[n - 1].rate
  }

  lemma NothingRounded(rate: int)
    ensures Money.Rounded(0 * rate) == 0
  {
  }

  /** Where tax has got to before band k: what is left of the income is above
      the band's floor. */
  lemma {:induction false} TaxFromBand(bands: seq<Band>, income: nat, k: nat)
    requires k < |bands| && !IsPastTop(bands, k) && AreBands(bands[k..], Floor(bands, k)) && Floor(bands, k) >= 0
    ensures SlicesTax(bands, income, |bands|) - SlicesTax(bands, income, k)
            == Tax(income - Floor(bands, k), Floor(bands, k), bands[k..])
    decreases |bands| - k
  {
    hide Money.Rounded;
    var rest, floor := bands[k..], Floor(bands, k);
    assert rest[0] == bands[k] && rest[1..] == bands[k + 1..];
    SliceIsPart(bands, income, k);
    if bands[k].upTo.None? {
      NothingPastTop(bands, income, k + 1);
    } else if k + 1 < |bands| {
      TaxFromBand(bands, income, k + 1);
      TaxOfNothing(Min(0, income - floor), floor, rest);
      TaxOfNothing(Min(0, income - bands[k].upTo.value), bands[k].upTo.value, bands[k + 1..]);
    } else {
      TaxOfNothing(Min(0, income - floor), floor, rest);
    }
  }

  lemma SliceIsPart(bands: seq<Band>, income: nat, k: nat)
    requires k < |bands| && !IsPastTop(bands, k) && IsRate(bands[k].rate)
    requires bands[k].upTo.Some? ==> Floor(bands, k) < bands[k].upTo.value
    ensures var left := income - Floor(bands, k);
            var taken := if bands[k].upTo.None? then left else Min(left, bands[k].upTo.value - Floor(bands, k));
            Money.Rounded(Slice(bands, income, k) * bands[k].rate)
            == if left <= 0 then 0 else Part(taken, bands[k].rate)
  {
    NothingRounded(bands[k].rate);
  }

  lemma {:induction false} NothingPastTop(bands: seq<Band>, income: nat, k: nat)
    requires 0 < k <= |bands| && bands[k - 1].upTo.None?
    ensures SlicesTax(bands, income, |bands|) == SlicesTax(bands, income, k)
  {
    for n := k to |bands|
      invariant SlicesTax(bands, income, n) == SlicesTax(bands, income, k)
    {
      NothingRounded(bands[n].rate);
      assert IsPastTop(bands, n);
    }
  }

  /** Tax is what the bands take one by one: on each band's own part of the
      income, at its rate, rounded half up. */
  lemma TaxIsBandByBand(income: nat, bands: seq<Band>)
    requires AreBands(bands, 0)
    ensures Tax(income, 0, bands) == SlicesTax(bands, income, |bands|)
  {
    if bands != [] {
      assert bands[0..] == bands;
      TaxFromBand(bands, income, 0);
    }
  }

  lemma {:induction false} SlicesNearExact(bands: seq<Band>, income: nat, n: nat)
    requires n <= |bands|
    ensures -Money.HALF * n <= Money.PPM * SlicesTax(bands, income, n) - SlicesExact(bands, income, n) <= Money.HALF * n
  {
    if n > 0 {
      SlicesNearExact(bands, income, n - 1);
      var scaled := Slice(bands, income, n - 1) * bands[n - 1].rate;
      Money.RoundedIsTheNearest(scaled, Money.Rounded(scaled));
    }
  }

  /** So it is within half a unit a band of the exact tax, on either side. */
  lemma TaxNearExact(income: nat, bands: seq<Band>)
    requires AreBands(bands, 0)
    ensures var off := Money.PPM * Tax(income, 0, bands) - SlicesExact(bands, income, |bands|);
            -Money.HALF * |bands| <= off <= Money.HALF * |bands|
  {
    TaxIsBandByBand(income, bands);
    SlicesNearExact(bands, income, |bands|);
  }

  function SumOfSlices(bands: seq<Band>, income: int, n: nat): int
    requires n <= |bands|
  {
    if n == 0 then 0 else SumOfSlices(bands, income, n - 1) + Slice(bands, income, n - 1)
  }

  /** And the parts are a split of the income: up to a closed band they add up to
      all of it that is below the band's ceiling. */
  lemma {:induction false} SlicesSplitIncome(bands: seq<Band>, income: nat, n: nat)
    requires 0 < n <= |bands| && !IsPastTop(bands, n - 1)
    requires forall i :: 0 <= i < n && bands[i].upTo.Some? ==> Floor(bands, i) < bands[i].upTo.value
    ensures SumOfSlices(bands, income, n)
            == if bands[n - 1].upTo.None? then income else Min(income, bands[n - 1].upTo.value)
  {
    if n > 1 {
      SlicesSplitIncome(bands, income, n - 1);
      assert bands[n - 2].upTo.Some?;
    }
  }

  /** The Nigerian bands of 2026, in kobo (app/compliance/versions/ng_2026_1.py). */
  const NIGERIA_2026: seq<Band> := [
    Band(Some(80_000_000), 0), Band(Some(300_000_000), 150_000), Band(Some(1_200_000_000), 180_000),
    Band(Some(2_500_000_000), 210_000), Band(Some(5_000_000_000), 230_000), Band(None, 250_000)]

  /** The worked example of the statutory reference: on 3,162,000 naira, 330,000
      from the second band and 29,160 from the third. */
  lemma WorkedExample()
    ensures AreBands(NIGERIA_2026, 0)
    ensures Tax(316_200_000, 0, NIGERIA_2026) == 35_916_000
  {
    var b := NIGERIA_2026;
    assert b[5..] == [b[5]] && b[4..] == [b[4]] + b[5..] && b[3..] == [b[3]] + b[4..];
    assert b[2..] == [b[2]] + b[3..] && b[1..] == [b[1]] + b[2..] && b == [b[0]] + b[1..];
    assert AreBands(b[5..], 5_000_000_000) && AreBands(b[4..], 2_500_000_000) && AreBands(b[3..], 1_200_000_000);
    assert AreBands(b[2..], 300_000_000) && AreBands(b[1..], 80_000_000);
    assert Part(220_000_000, 150_000) == 33_000_000 && Part(16_200_000, 180_000) == 2_916_000;
    assert Tax(16_200_000 - 900_000_000, 1_200_000_000, b[3..]) == 0;
    assert Tax(16_200_000, 300_000_000, b[2..]) == 2_916_000;
    assert Tax(236_200_000, 80_000_000, b[1..]) == 35_916_000;
  }

  /** One more unit of income costs nothing or one unit of tax, at any rate up
      to 100%, and tax never exceeds income. */
  lemma {:induction false} TaxStep(income: int, floor: int, bands: seq<Band>)
    requires AreBands(bands, floor)
    ensures 0 <= Tax(income + 1, floor, bands) - Tax(income, floor, bands) <= 1
    decreases |bands|
  {
    hide Money.ApplyRatePpm;
    if bands != [] && income >= 0 {
      PartOfNothing(bands[0].rate);
      if bands[0].upTo.None? {
        Money.ApplyRateStep(income, bands[0].rate);
      } else {
        var width := bands[0].upTo.value - floor;
        TaxStep(income - width, bands[0].upTo.value, bands[1..]);
        if income < width {
          Money.ApplyRateStep(income, bands[0].rate);
          TaxOfNothing(income + 1 - width, bands[0].upTo.value, bands[1..]);
          TaxOfNothing(income - width, bands[0].upTo.value, bands[1..]);
        }
      }
    }
  }

  lemma PartOfNothing(rate: int)
    requires IsRate(rate)
    ensures Part(0, rate) == 0
  {
  }

  lemma TaxOfNothing(income: int, floor: int, bands: seq<Band>)
    requires AreBands(bands, floor) && income <= 0
    ensures Tax(income, floor, bands) == 0
  {
  }

  /** Tax is between nothing and the income itself. */
  lemma {:induction false} TaxNeverExceedsIncome(income: nat, floor: int, bands: seq<Band>)
    requires AreBands(bands, floor)
    ensures 0 <= Tax(income, floor, bands) <= income
    decreases income
  {
    if income > 0 {
      TaxNeverExceedsIncome(income - 1, floor, bands);
      TaxStep(income - 1, floor, bands);
    }
  }

  /** The rate of the open top band, or 0 where there is none. */
  function TopRate(bands: seq<Band>): int {
    if bands == [] then 0
    else if bands[0].upTo.None? then bands[0].rate
    else TopRate(bands[1..])
  }

  /** How much income the bands below the open top one span, from `floor` up. */
  function Width(bands: seq<Band>, floor: int): (w: int)
    requires AreBands(bands, floor)
    ensures w >= 0
  {
    if bands == [] || bands[0].upTo.None? then 0
    else bands[0].upTo.value - floor + Width(bands[1..], bands[0].upTo.value)
  }

  lemma {:induction false} TopRateIsRate(bands: seq<Band>, floor: int)
    requires AreBands(bands, floor)
    ensures IsRate(TopRate(bands))
  {
    if bands != [] && bands[0].upTo.Some? {
      TopRateIsRate(bands[1..], bands[0].upTo.value);
    }
  }

  /** Extra income is taxed at the top rate at most, once the lower bands are
      paid for in full and one unit of rounding allowed. */
  lemma {:induction false} TaxGrowth(income: int, extra: nat, floor: int, bands: seq<Band>)
    requires AreBands(bands, floor)
    ensures Money.PPM * (Tax(income + extra, floor, bands) - Tax(income, floor, bands))
            <= Money.PPM * (Width(bands, floor) + 1) + extra * TopRate(bands)
    decreases |bands|
  {
    hide Part;
    if bands == [] {
      assert extra * TopRate(bands) == 0;
    } else if bands[0].upTo.None? {
      TopTaxGrowth(income, extra, floor, bands);
    } else {
      var width := bands[0].upTo.value - floor;
      TaxGrowth(income - width, extra, bands[0].upTo.value, bands[1..]);
      FirstBandTax(income, floor, bands);
      FirstBandTax(income + extra, floor, bands);
    }
  }

  /** A closed band takes between nothing and its width; the rest goes on. */
  lemma FirstBandTax(income: int, floor: int, bands: seq<Band>)
    requires AreBands(bands, floor) && bands != [] && bands[0].upTo.Some?
    ensures var width := bands[0].upTo.value - floor;
            0 <= Tax(income, floor, bands) - Tax(income - width, bands[0].upTo.value, bands[1..]) <= width
  {
    var width := bands[0].upTo.value - floor;
    if income > 0 {
      Money.ApplyRateIsMonotone(Min(income, width), Min(income, width), bands[0].rate, bands[0].rate);
    }
  }

  lemma TopTaxGrowth(income: int, extra: nat, floor: int, bands: seq<Band>)
    requires AreBands(bands, floor) && bands != [] && bands[0].upTo.None?
    ensures Money.PPM * (Tax(income + extra, floor, bands) - Tax(income, floor, bands))
            <= Money.PPM + extra * bands[0].rate
  {
    var rate := bands[0].rate;
    var from, to := Max(income, 0), Max(income + extra, 0);
    PartOfNothing(rate);
    PartGrowth(from, to, rate);
    Scaled(to - from, extra, rate);
  }

  lemma Scaled(a: int, b: int, rate: int)
    requires a <= b && rate >= 0
    ensures a * rate <= b * rate
  {
  }

  /** A rate on a growing amount: the growth at that rate, to within a unit. */
  lemma PartGrowth(from: int, to: int, rate: int)
    requires 0 <= from <= to && IsRate(rate)
    ensures (to - from) * rate - Money.PPM < Money.PPM * (Part(to, rate) - Part(from, rate))
        < (to - from) * rate + Money.PPM
  {
    Money.RoundedIsTheNearest(to * rate, Money.Rounded(to * rate));
    Money.RoundedIsTheNearest(from * rate, Money.Rounded(from * rate));
    assert to * rate - from * rate == (to - from) * rate;
  }

  /** Where the open top band takes everything, so does tax on any income past
      the lower bands. */
  lemma {:induction false} FullTopRateTakesAll(income: int, floor: int, bands: seq<Band>)
    requires AreBands(bands, floor) && TopRate(bands) == Money.PPM
    ensures Tax(income, floor, bands) >= income - Width(bands, floor)
    decreases |bands|
  {
    if bands[0].upTo.None? {
      if income > 0 {
        assert Part(income, Money.PPM) == income;
      }
    } else {
      FirstBandTax(income, floor, bands);
      FullTopRateTakesAll(income - (bands[0].upTo.value - floor), bands[0].upTo.value, bands[1..]);
    }
  }

  // ----- The payslip -----

  /** Everything a payslip reads besides the components being solved for. */
  datatype Year = Year(
    annualRent: int, periodsElapsed: int, periodsPerYear: int,
    grossBefore: int, pensionBefore: int, nhfBefore: int, payeBefore: int)

  predicate IsYear(y: Year) {
    && y.annualRent >= 0 && y.periodsElapsed >= 0 && y.periodsPerYear > 0
    && y.grossBefore >= 0 && y.pensionBefore >= 0 && y.nhfBefore >= 0 && y.payeBefore >= 0
  }

  datatype Pay = Pay(basic: int, housing: int, transport: int, other: int)

  datatype Payslip = Payslip(gross: int, pension: int, nhf: int, chargeable: int, paye: int, net: int)

  /** Rent relief to date: a capped share of the rent, recognised pro rata. */
  function RentRelief(y: Year, rules: Rules): int
    requires IsYear(y) && AreRules(rules)
  {
    Min(Part(y.annualRent, rules.rentReliefRate), rules.rentReliefCap)
      * Min(y.periodsElapsed, y.periodsPerYear) / y.periodsPerYear
  }

  function Chargeable(y: Year, gross: int, pension: int, nhf: int, rules: Rules): int
    requires IsYear(y) && AreRules(rules)
  {
    Max(0, y.grossBefore + gross - (y.pensionBefore + pension) - (y.nhfBefore + nhf) - RentRelief(y, rules))
  }

  /** compute_incremental_paye: tax on the year so far, less what was withheld. */
  function IncrementalPaye(y: Year, chargeable: int, rules: Rules): int
    requires AreRules(rules)
  {
    Max(0, Tax(chargeable, 0, rules.bands) - y.payeBefore)
  }

  /** The figures before the checks on the net. */
  function Figures(y: Year, p: Pay, rules: Rules): Payslip
    requires IsYear(y) && AreRules(rules) && p.basic >= 0 && p.basic + p.housing + p.transport >= 0
  {
    var pensionable := p.basic + p.housing + p.transport;
    var pension, nhf := Part(pensionable, rules.pensionRate), Part(p.basic, rules.nhfRate);
    var gross := pensionable + p.other;
    var chargeable := Chargeable(y, gross, pension, nhf, rules);
    var paye := IncrementalPaye(y, chargeable, rules);
    Payslip(gross, pension, nhf, chargeable, paye, gross - pension - nhf - paye)
  }

  /** compute_payslip. */
  function ComputePayslip(y: Year, p: Pay, loan: int, rules: Rules): Result<Payslip, PayError>
    requires IsYear(y) && AreRules(rules)
  {
    if p.other < 0 || loan < 0 || p.basic < 0 || p.housing < 0 || p.transport < 0 then Err(NegativeInput)
    else
      var slip := Figures(y, p, rules);
      if slip.net < 0 then Err(NegativeNet)
      else if loan > slip.net then Err(LoanExceedsNet)
      else Ok(slip.(net := slip.net - loan))
  }

  /** Tax climbs with income, by no more than the income does. */
  lemma {:induction false} TaxClimbs(income: int, more: nat, bands: seq<Band>)
    requires AreBands(bands, 0)
    ensures 0 <= Tax(income + more, 0, bands) - Tax(income, 0, bands) <= more
    decreases more
  {
    if more > 0 {
      TaxClimbs(income, more - 1, bands);
      TaxStep(income + more - 1, 0, bands);
    }
  }

  /** So what is withheld climbs with chargeable income, by no more than it. */
  lemma PayeClimbs(y: Year, from: int, to: int, rules: Rules)
    requires AreRules(rules) && from <= to
    ensures 0 <= IncrementalPaye(y, to, rules) - IncrementalPaye(y, from, rules) <= to - from
  {
    hide Tax;
    TaxClimbs(from, to - from, rules.bands);
  }

  /** And by no more than the tax does. */
  lemma PayeGrowth(y: Year, from: int, to: int, rules: Rules)
    requires AreRules(rules) && from <= to
    ensures Money.PPM * (IncrementalPaye(y, to, rules) - IncrementalPaye(y, from, rules))
            <= Money.PPM * (Width(rules.bands, 0) + 1) + (to - from) * TopRate(rules.bands)
  {
    hide Tax, TopRate;
    TaxClimbs(from, to - from, rules.bands);
    TaxGrowth(from, to - from, 0, rules.bands);
  }

  // ----- What a payslip adds up to -----

  /** Gross pay is its components, and goes to pension, housing fund, PAYE, the
      loan and the employee, nothing over and nothing short; each contribution is
      the nearest integer to its rate on its own base. */
  lemma PayslipAddsUp(y: Year, p: Pay, loan: int, rules: Rules)
    requires IsYear(y) && AreRules(rules) && ComputePayslip(y, p, loan, rules).Ok?
    ensures var slip := ComputePayslip(y, p, loan, rules).value;
            && slip.gross == p.basic + p.housing + p.transport + p.other
            && slip.gross == slip.pension + slip.nhf + slip.paye + loan + slip.net
            && slip.paye >= 0 && slip.net >= 0
            && slip.chargeable
               == Max(0, y.grossBefore + slip.gross - y.pensionBefore - slip.pension - y.nhfBefore - slip.nhf
                         - RentRelief(y, rules))
            && y.payeBefore + slip.paye == Max(y.payeBefore, Tax(slip.chargeable, 0, rules.bands))
            && Money.IsNearestTiesUp((p.basic + p.housing + p.transport) * rules.pensionRate, slip.pension)
            && Money.IsNearestTiesUp(p.basic * rules.nhfRate, slip.nhf)
  {
    var slip := ComputePayslip(y, p, loan, rules).value;
    Money.RoundedIsTheNearest((p.basic + p.housing + p.transport) * rules.pensionRate, slip.pension);
    Money.RoundedIsTheNearest(p.basic * rules.nhfRate, slip.nhf);
  }

  /** A payslip is refused exactly for a negative input or a loan the net does not
      cover. */
  lemma PayslipIsMadeIff(y: Year, p: Pay, loan: int, rules: Rules)
    requires IsYear(y) && AreRules(rules)
    ensures ComputePayslip(y, p, loan, rules).Ok?
            <==> && p.basic >= 0 && p.housing >= 0 && p.transport >= 0 && p.other >= 0 && loan >= 0
                 && loan <= Figures(y, p, rules).net
  {
    hide Tax, Part, RentRelief;
  }

  /** Rent relief is within its cap, nothing at the start of the year, and at its
      end the capped share of the rent. */
  lemma RentReliefIsCapped(y: Year, rules: Rules)
    requires IsYear(y) && AreRules(rules)
    ensures 0 <= RentRelief(y, rules) <= rules.rentReliefCap
    ensures y.periodsElapsed == 0 ==> RentRelief(y, rules) == 0
    ensures y.periodsElapsed >= y.periodsPerYear ==>
              RentRelief(y, rules) == Min(Part(y.annualRent, rules.rentReliefRate), rules.rentReliefCap)
  {
    hide Part;
    var share := Min(Part(y.annualRent, rules.rentReliefRate), rules.rentReliefCap);
    var elapsed := Min(y.periodsElapsed, y.periodsPerYear);
    PartIsNat(y.annualRent, rules.rentReliefRate);
    ProRata(share, elapsed, y.periodsPerYear);
  }

  lemma PartIsNat(amount: int, rate: int)
    requires amount >= 0 && IsRate(rate)
    ensures Part(amount, rate) >= 0
  {
  }

  lemma ProRata(share: nat, elapsed: nat, periods: nat)
    requires elapsed <= periods && periods > 0
    ensures 0 <= share * elapsed / periods <= share
    ensures elapsed == periods ==> share * elapsed / periods == share
    ensures elapsed == 0 ==> share * elapsed / periods == 0
  {
    var q := share * elapsed / periods;
    assert q * periods <= share * elapsed < q * periods + periods;
    Scaled(elapsed, periods, share);
    assert share * elapsed == elapsed * share && share * periods == periods * share;
    assert (share + 1) * periods == share * periods + periods;
    assert (q + 1) * periods == q * periods + periods;
    if q > share {
      Scaled(share + 1, q, periods);
    }
    if elapsed == periods && q < share {
      Scaled(q + 1, share, periods);
    }
    if q < 0 {
      Scaled(q, -1, periods);
    }
  }

  /** What has been withheld after periods with these cumulative incomes. */
  function Withheld(y: Year, chargeables: seq<int>, rules: Rules): int
    requires AreRules(rules)
  {
    if chargeables == [] then y.payeBefore
    else
      var before := Withheld(y, chargeables[..|chargeables| - 1], rules);
      before + IncrementalPaye(y.(payeBefore := before), chargeables[|chargeables| - 1], rules)
  }

  /** Withholding follows the tax to date: after any periods it is the highest tax
      there has been on the income to date, or what was withheld before. */
  lemma {:induction false} WithheldIsTheHighestTax(y: Year, chargeables: seq<int>, rules: Rules)
    requires AreRules(rules)
    ensures var w := Withheld(y, chargeables, rules);
            && y.payeBefore <= w
            && (forall i :: 0 <= i < |chargeables| ==> Tax(chargeables[i], 0, rules.bands) <= w)
            && (w == y.payeBefore || exists i :: 0 <= i < |chargeables| && Tax(chargeables[i], 0, rules.bands) == w)
  {
    hide Tax;
    if chargeables != [] {
      var front := chargeables[..|chargeables| - 1];
      WithheldIsTheHighestTax(y, front, rules);
      assert forall i :: 0 <= i < |front| ==> chargeables[i] == front[i];
      if Withheld(y, front, rules) == Withheld(y, chargeables, rules) && Withheld(y, front, rules) != y.payeBefore {
        var i :| 0 <= i < |front| && Tax(front[i], 0, rules.bands) == Withheld(y, front, rules);
        assert Tax(chargeables[i], 0, rules.bands) == Withheld(y, chargeables, rules);
      }
    }
  }
}
