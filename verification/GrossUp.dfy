/** Solving for the gross pay that nets a target
    (app/domain/payroll/gross_up.py): a one-off lump sum, and a whole package. */
module GrossUp {
  import opened Base
  import Money
  import opened Payslips
  import opened Bisection

  // ----- A one-off lump sum -----

  /** What a lump sum is worth on its own: itself less the PAYE it alone adds. */
  function LumpNet(y: Year, p: Pay, baseline: Payslip, rules: Rules, lump: int): Result<int, PayError>
    requires IsYear(y) && AreRules(rules)
  {
    var slip := ComputePayslip(y, p.(other := p.other + lump), 0, rules);
    if slip.Err? then Err(slip.error) else Ok(lump - (slip.value.paye - baseline.paye))
  }

  function LumpOutput(y: Year, p: Pay, baseline: Payslip, rules: Rules): Output
    requires IsYear(y) && AreRules(rules)
  {
    lump => LumpNet(y, p, baseline, rules, lump)
  }

  /** solve_lump_sum_gross_for_net_minor. */
  method SolveLumpSum(y: Year, p: Pay, target: int, rules: Rules) returns (r: Result<int, PayError>)
    requires IsYear(y) && AreRules(rules)
    ensures var baseline := ComputePayslip(y, p, 0, rules);
            r == if baseline.Err? then Err(baseline.error)
                 else Solution(LumpOutput(y, p, baseline.value, rules), target, target)
    ensures r.Ok? && target > 0 ==>
              && r.value > 0
              && var baseline := ComputePayslip(y, p, 0, rules);
              && baseline.Ok?
              && var net := LumpNet(y, p, baseline.value, rules, r.value); net.Ok? && net.value >= target
  {
    var baseline := ComputePayslip(y, p, 0, rules);
    if baseline.Err? {
      return Err(baseline.error);
    }
    var answer, probes := Bisect(LumpOutput(y, p, baseline.value, rules), target, target);
    return answer;
  }

  /** One more unit of lump sum is worth nothing or one unit, and the payslip
      never turns negative on the way. */
  lemma LumpStep(y: Year, p: Pay, baseline: Payslip, rules: Rules, lump: nat)
    requires IsYear(y) && AreRules(rules)
    requires LumpNet(y, p, baseline, rules, lump).Ok?
    ensures LumpNet(y, p, baseline, rules, lump + 1).Ok?
    ensures 0 <= LumpNet(y, p, baseline, rules, lump + 1).value - LumpNet(y, p, baseline, rules, lump).value <= 1
  {
    hide Tax, Part, RentRelief, AreBands;
    var a := p.(other := p.other + lump);
    var b := p.(other := p.other + (lump + 1));
    TaxStep(Figures(y, a, rules).chargeable, 0, rules.bands);
  }

  /** So the worth of a lump sum climbs from nothing without a jump. */
  lemma {:induction false} LumpClimbs(y: Year, p: Pay, baseline: Payslip, rules: Rules, lump: nat, more: nat)
    requires IsYear(y) && AreRules(rules) && ComputePayslip(y, p, 0, rules) == Ok(baseline)
    ensures LumpNet(y, p, baseline, rules, 0) == Ok(0)
    ensures LumpNet(y, p, baseline, rules, lump).Ok? && LumpNet(y, p, baseline, rules, lump + more).Ok?
    ensures LumpNet(y, p, baseline, rules, lump).value <= LumpNet(y, p, baseline, rules, lump + more).value
    decreases lump + more
  {
    assert p.(other := p.other + 0) == p;
    if more > 0 {
      LumpClimbs(y, p, baseline, rules, lump, more - 1);
      LumpStep(y, p, baseline, rules, lump + more - 1);
    } else if lump > 0 {
      LumpClimbs(y, p, baseline, rules, lump - 1, 0);
      LumpStep(y, p, baseline, rules, lump - 1);
    }
  }

  /** What a payslip raises is never the search's own failure. */
  lemma LumpNeverRaisesNoBracket(y: Year, p: Pay, baseline: Payslip, rules: Rules)
    requires IsYear(y) && AreRules(rules)
    ensures var f := LumpOutput(y, p, baseline, rules); forall x :: f(x).Err? ==> f(x).error != NoBracket
  {
    hide Tax, Part, RentRelief;
  }

  /** Whatever the bands, once a bracket is found that 128 halvings can close,
      the answer is the least lump sum that reaches the target. The docstring
      asks for at least the target; the answer nets it exactly. */
  lemma LumpSumIsLeastAndExact(y: Year, p: Pay, baseline: Payslip, rules: Rules, target: int)
    requires IsYear(y) && AreRules(rules) && ComputePayslip(y, p, 0, rules) == Ok(baseline) && target > 0
    requires Fits(LumpOutput(y, p, baseline, rules), target, target)
    requires Bracket(LumpOutput(y, p, baseline, rules), target, target, MAX_ITERATIONS).Ok?
    ensures var r := Solution(LumpOutput(y, p, baseline, rules), target, target);
            && r.Ok? && r.value > 0
            && LumpNet(y, p, baseline, rules, r.value) == Ok(target)
            && forall z :: 0 <= z < r.value ==>
                 LumpNet(y, p, baseline, rules, z).Ok? && LumpNet(y, p, baseline, rules, z).value < target
  {
    hide LumpNet, ComputePayslip, AreRules, IsYear, Bracket, Solution, Fits, MAX_ITERATIONS;
    var f := LumpOutput(y, p, baseline, rules);
    LumpIsTotal(y, p, baseline, rules);
    LumpClimbs(y, p, baseline, rules, 0, 0);
    TotalSolution(f, target, target);
    SolutionIsACrossing(f, target, target);
    CrossingIsExact(y, p, baseline, rules, target, Solution(f, target, target).value);
  }

  lemma CrossingIsExact(y: Year, p: Pay, baseline: Payslip, rules: Rules, target: int, x: int)
    requires IsYear(y) && AreRules(rules) && ComputePayslip(y, p, 0, rules) == Ok(baseline)
    requires x > 0 && Reaches(LumpOutput(y, p, baseline, rules), x, target)
    requires LumpNet(y, p, baseline, rules, x - 1).Ok? && LumpNet(y, p, baseline, rules, x - 1).value < target
    ensures LumpNet(y, p, baseline, rules, x) == Ok(target)
    ensures forall z :: 0 <= z < x ==>
              LumpNet(y, p, baseline, rules, z).Ok? && LumpNet(y, p, baseline, rules, z).value < target
  {
    hide LumpNet, ComputePayslip, AreRules, IsYear;
    LumpStep(y, p, baseline, rules, x - 1);
    forall z | 0 <= z < x
      ensures LumpNet(y, p, baseline, rules, z).Ok? && LumpNet(y, p, baseline, rules, z).value < target
    {
      LumpClimbs(y, p, baseline, rules, z, x - 1 - z);
    }
  }

  lemma LumpIsTotal(y: Year, p: Pay, baseline: Payslip, rules: Rules)
    requires IsYear(y) && AreRules(rules) && ComputePayslip(y, p, 0, rules) == Ok(baseline)
    ensures forall x :: x >= 0 ==>
              && LumpOutput(y, p, baseline, rules)(x) == LumpNet(y, p, baseline, rules, x)
              && LumpNet(y, p, baseline, rules, x).Ok?
  {
    forall x | x >= 0
      ensures LumpNet(y, p, baseline, rules, x).Ok?
    {
      LumpClimbs(y, p, baseline, rules, x, 0);
    }
  }

  /** Below a 100% top rate every target is reached, by a lump sum this large at
      the latest. */
  lemma LumpIsEnough(y: Year, p: Pay, baseline: Payslip, rules: Rules, target: int, lump: nat)
    requires IsYear(y) && AreRules(rules) && ComputePayslip(y, p, 0, rules) == Ok(baseline)
    requires TopRate(rules.bands) < Money.PPM && lump >= Money.PPM * (target + Width(rules.bands, 0) + 1)
    ensures LumpNet(y, p, baseline, rules, lump).Ok? && LumpNet(y, p, baseline, rules, lump).value >= target
  {
    LumpClimbs(y, p, baseline, rules, lump, 0);
    hide Tax, Part, RentRelief, AreBands, IncrementalPaye, TopRate, Width;
    var before := Figures(y, p, rules).chargeable;
    var after := Figures(y, p.(other := p.other + lump), rules).chargeable;
    assert before <= after <= before + lump;
    PayeGrowth(y, before, after, rules);
    AtMostLess(after - before, lump, TopRate(rules.bands));
  }

  lemma AtMostLess(n: nat, m: nat, rate: int)
    requires n <= m && rate < Money.PPM
    ensures n * rate <= m * (Money.PPM - 1)
  {
    Scaled(n, m, Money.PPM - 1);
    assert n * rate <= n * (Money.PPM - 1);
  }

  /** At a 100% top rate no lump sum nets more than a fixed amount. */
  lemma LumpIsCapped(y: Year, p: Pay, baseline: Payslip, rules: Rules, lump: nat)
    requires IsYear(y) && AreRules(rules) && ComputePayslip(y, p, 0, rules) == Ok(baseline)
    requires TopRate(rules.bands) == Money.PPM
    ensures LumpNet(y, p, baseline, rules, lump).Ok?
    ensures LumpNet(y, p, baseline, rules, lump).value <= LumpCap(y, p, baseline, rules)
  {
    LumpClimbs(y, p, baseline, rules, lump, 0);
    hide Tax, Part, RentRelief, AreBands;
    FullTopRateTakesAll(Figures(y, p.(other := p.other + lump), rules).chargeable, 0, rules.bands);
  }

  function LumpCap(y: Year, p: Pay, baseline: Payslip, rules: Rules): int
    requires IsYear(y) && AreRules(rules)
  {
    Width(rules.bands, 0) + y.payeBefore + baseline.paye
    - (y.grossBefore + baseline.gross - y.pensionBefore - baseline.pension - y.nhfBefore - baseline.nhf
       - RentRelief(y, rules))
  }

  ghost predicate IsReachable(f: Output, target: int) {
    exists lump: nat :: Reaches(f, lump, target)
  }

  /** So some lump sum reaches every target if and only if the open top band
      takes less than everything. */
  lemma EveryTargetIsReachableIff(y: Year, p: Pay, baseline: Payslip, rules: Rules)
    requires IsYear(y) && AreRules(rules) && ComputePayslip(y, p, 0, rules) == Ok(baseline)
    ensures (forall target: int :: IsReachable(LumpOutput(y, p, baseline, rules), target))
            <==> TopRate(rules.bands) < Money.PPM
  {
    hide LumpNet, ComputePayslip, AreRules, IsYear, TopRate, LumpCap;
    var f := LumpOutput(y, p, baseline, rules);
    AreBandsOf(rules);
    TopRateIsRate(rules.bands, 0);
    if TopRate(rules.bands) < Money.PPM {
      forall target: int
        ensures IsReachable(f, target)
      {
        var lump := Max(0, Money.PPM * (target + Width(rules.bands, 0) + 1));
        LumpIsEnough(y, p, baseline, rules, target, lump);
        assert Reaches(f, lump, target);
      }
    } else {
      var target := LumpCap(y, p, baseline, rules) + 1;
      forall lump: nat
        ensures !Reaches(f, lump, target)
      {
        LumpIsCapped(y, p, baseline, rules, lump);
      }
      assert !IsReachable(f, target);
    }
  }

  lemma AreBandsOf(rules: Rules)
    requires AreRules(rules)
    ensures AreBands(rules.bands, 0)
  {
  }

  /** And then the search brackets every target up to about 2^127 millionths. */
  lemma LumpSumIsAlwaysBracketed(y: Year, p: Pay, baseline: Payslip, rules: Rules, target: int)
    requires IsYear(y) && AreRules(rules) && ComputePayslip(y, p, 0, rules) == Ok(baseline)
    requires TopRate(rules.bands) < Money.PPM && target > 0
    requires Money.PPM * (target + Width(rules.bands, 0) + 1) <= Pow2(MAX_ITERATIONS - 1)
    ensures Fits(LumpOutput(y, p, baseline, rules), target, target)
    ensures Bracket(LumpOutput(y, p, baseline, rules), target, target, MAX_ITERATIONS).Ok?
  {
    AreBandsOf(rules);
    hide LumpNet, ComputePayslip, AreRules, IsYear, Pow2, TopRate;
    var f, enough := LumpOutput(y, p, baseline, rules), Money.PPM * (target + Width(rules.bands, 0) + 1);
    LumpIsTotal(y, p, baseline, rules);
    LumpNeverRaisesNoBracket(y, p, baseline, rules);
    forall x | 0 < x && enough <= x
      ensures Reaches(f, x, target)
    {
      LumpIsEnough(y, p, baseline, rules, target, x);
    }
    PowersClimb(MAX_ITERATIONS - 1, MAX_ITERATIONS);
    AtLeastTheTarget(target, Width(rules.bands, 0));
    BracketAppears(f, target, target, enough);
    TotalBracket(f, target, target, MAX_ITERATIONS);
  }

  lemma AtLeastTheTarget(target: nat, width: nat)
    ensures target <= Money.PPM * (target + width + 1)
  {
  }

  // ----- A regular package -----

  /** A package has parts, none negative. */
  predicate IsPackage(p: Pay) {
    p.basic >= 0 && p.housing >= 0 && p.transport >= 0 && p.basic + p.housing + p.transport > 0
  }

  /** scale_components_to_total: the same shape at another total, with transport
      taking the remainder. */
  function Scale(p: Pay, total: int): Pay
    requires p.basic + p.housing + p.transport > 0
  {
    var current := p.basic + p.housing + p.transport;
    var basic, housing := p.basic * total / current, p.housing * total / current;
    p.(basic := basic, housing := housing, transport := total - basic - housing)
  }

  /** The scaled parts add up to the new total, none is negative, and each is
      within two units of its exact share. */
  lemma ScaleConserves(p: Pay, total: nat)
    requires IsPackage(p)
    ensures var q, current := Scale(p, total), p.basic + p.housing + p.transport;
            && q.basic + q.housing + q.transport == total
            && q.basic >= 0 && q.housing >= 0 && q.transport >= 0
            && 0 <= p.basic * total - q.basic * current < current
            && 0 <= p.housing * total - q.housing * current < current
            && 0 <= q.transport * current - p.transport * total < 2 * current
  {
    SharesConserve(p.basic, p.housing, p.transport, total);
  }

  lemma SharesConserve(b: nat, h: nat, t: nat, total: nat)
    requires b + h + t > 0
    ensures var current := b + h + t;
            var (b', h') := (b * total / current, h * total / current);
            var t' := total - b' - h';
            && b' >= 0 && h' >= 0 && t' >= 0
            && 0 <= b * total - b' * current < current
            && 0 <= h * total - h' * current < current
            && 0 <= t' * current - t * total < 2 * current
  {
    Distribute3(b, h, t, total);
    QuotientsConserve(b * total, h * total, t * total, total, b + h + t);
  }

  lemma QuotientsConserve(b: nat, h: nat, t: nat, total: nat, current: nat)
    requires current > 0 && b + h + t == total * current
    ensures var (b', h') := (b / current, h / current);
            var t' := total - b' - h';
            && b' >= 0 && h' >= 0 && t' >= 0
            && 0 <= b - b' * current < current
            && 0 <= h - h' * current < current
            && 0 <= t' * current - t < 2 * current
  {
    DivideExactly(b, current);
    DivideExactly(h, current);
    Distribute(total, b / current, h / current, current);
    NotNegative(total - b / current - h / current, current);
  }

  lemma Distribute(n: int, a: int, b: int, d: int)
    ensures (n - a - b) * d == n * d - a * d - b * d
  {
  }

  lemma Distribute3(a: nat, b: nat, c: nat, n: nat)
    ensures n * (a + b + c) == a * n + b * n + c * n
    ensures a * n >= 0 && b * n >= 0 && c * n >= 0
  {
  }

  lemma DivideExactly(n: int, d: int)
    requires d > 0
    ensures 0 <= n - n / d * d < d
    ensures n >= 0 ==> n / d >= 0
  {
  }

  lemma NotNegative(n: int, d: int)
    requires d > 0 && n * d >= 0
    ensures n >= 0
  {
    if n < 0 {
      NegativeProduct(n, d);
    }
  }

  lemma NegativeProduct(n: int, d: int)
    requires d > 0 && n <= -1
    ensures n * d <= -d
  {
  }

  function PackageNet(y: Year, p: Pay, loan: int, rules: Rules, total: int): Result<int, PayError>
    requires IsYear(y) && AreRules(rules) && p.basic + p.housing + p.transport > 0
  {
    var slip := ComputePayslip(y, Scale(p, total), loan, rules);
    if slip.Err? then Err(slip.error) else Ok(slip.value.net)
  }

  function PackageOutput(y: Year, p: Pay, loan: int, rules: Rules): Output
    requires IsYear(y) && AreRules(rules) && p.basic + p.housing + p.transport > 0
  {
    total => PackageNet(y, p, loan, rules, total)
  }

  /** solve_regular_package_gross_up: the parts returned add up to the solved
      total, in the old shape, and their payslip nets at least the target. */
  method SolvePackage(y: Year, p: Pay, target: int, loan: int, rules: Rules) returns (r: Result<Pay, PayError>)
    requires IsYear(y) && AreRules(rules)
    ensures p.basic + p.housing + p.transport <= 0 ==> r == Err(EmptyPackage)
    ensures p.basic + p.housing + p.transport > 0 ==>
              var seed := Max(p.basic + p.housing + p.transport, target);
              var total := Solution(PackageOutput(y, p, loan, rules), target, seed);
              && (total.Err? ==> r == Err(total.error))
              && (total.Ok? && target > 0 ==> r.Ok?)
              && (r.Ok? ==> total == Ok(r.value.basic + r.value.housing + r.value.transport)
                            && r.value == Scale(p, total.value))
    ensures r.Ok? && target > 0 ==>
              && r.value.basic + r.value.housing + r.value.transport > 0
              && var slip := ComputePayslip(y, r.value, loan, rules); slip.Ok? && slip.value.net >= target
  {
    hide PackageNet, Scale, ComputePayslip, MAX_ITERATIONS;
    var current := p.basic + p.housing + p.transport;
    if current <= 0 {
      return Err(EmptyPackage);
    }
    var total, probes := Bisect(PackageOutput(y, p, loan, rules), target, Max(current, target));
    if total.Err? {
      return Err(total.error);
    }
    var net := PackageNet(y, p, loan, rules, total.value);
    if net.Err? {
      return Err(net.error);
    }
    ScaleAddsUp(p, total.value);
    NetOfScaled(y, p, loan, rules, total.value);
    return Ok(Scale(p, total.value));
  }

  lemma ScaleAddsUp(p: Pay, total: int)
    requires p.basic + p.housing + p.transport > 0
    ensures Scale(p, total).basic + Scale(p, total).housing + Scale(p, total).transport == total
  {
  }

  lemma NetOfScaled(y: Year, p: Pay, loan: int, rules: Rules, total: int)
    requires IsYear(y) && AreRules(rules) && p.basic + p.housing + p.transport > 0
    ensures var net, slip := PackageNet(y, p, loan, rules, total), ComputePayslip(y, Scale(p, total), loan, rules);
            (net.Ok? <==> slip.Ok?) && (net.Ok? ==> net.value == slip.value.net)
  {
    hide ComputePayslip, Scale;
  }

  /** How the parts of a package move when its total grows by one unit. */
  lemma ScaleStep(p: Pay, total: nat)
    requires IsPackage(p)
    ensures 0 <= Scale(p, total + 1).basic - Scale(p, total).basic <= 1
  {
    assert p.basic * (total + 1) == p.basic * total + p.basic;
    QuotientStep(p.basic * total, p.basic, p.basic + p.housing + p.transport);
  }

  lemma QuotientStep(n: int, k: int, d: int)
    requires d > 0 && 0 <= k <= d
    ensures 0 <= (n + k) / d - n / d <= 1
  {
    DivideExactly(n, d);
    DivideExactly(n + k, d);
    var a, b := n / d, (n + k) / d;
    assert b * d - a * d == (b - a) * d;
    assert -d < (b - a) * d < 2 * d;
    BoundedByProduct(b - a, d);
  }

  lemma BoundedByProduct(n: int, d: int)
    requires d > 0 && -d < n * d < 2 * d
    ensures 0 <= n <= 1
  {
  }

  lemma BasicGrows(p: Pay, from: nat, to: nat)
    requires IsPackage(p) && from <= to
    ensures 0 <= Scale(p, to).basic - Scale(p, from).basic <= to - from
  {
    QuotientGrows(p.basic, p.basic + p.housing + p.transport, from, to);
  }

  lemma QuotientGrows(b: nat, d: nat, from: nat, to: nat)
    requires b <= d && 0 < d && from <= to
    ensures 0 <= b * to / d - b * from / d <= to - from
  {
    ProductGrows(b, d, from, to);
    QuotientsOf(b * from, b * to, to - from, d);
  }

  lemma ProductGrows(b: nat, d: nat, from: nat, to: nat)
    requires b <= d && from <= to
    ensures 0 <= b * to - b * from <= (to - from) * d
  {
    assert b * to - b * from == b * (to - from);
    Scaled(b, d, to - from);
    assert b * (to - from) >= 0;
  }

  lemma QuotientsOf(m: int, n: int, k: int, d: nat)
    requires 0 < d && 0 <= n - m <= k * d
    ensures 0 <= n / d - m / d <= k
  {
    DivideExactly(m, d);
    DivideExactly(n, d);
    QuotientsApart(m / d, n / d, m, n, k, d);
  }

  lemma QuotientsApart(q: int, r: int, m: int, n: int, k: int, d: nat)
    requires 0 < d && 0 <= m - q * d < d && 0 <= n - r * d < d && 0 <= n - m <= k * d
    ensures 0 <= r - q <= k
  {
    if r < q {
      assert (r - q) * d == r * d - q * d;
      NegativeProduct(r - q, d);
    }
    if r > q + k {
      assert (q + k - r) * d == q * d + k * d - r * d;
      NegativeProduct(q + k - r, d);
    }
  }

  /** The figures of a package total. */
  function PackageFigures(y: Year, p: Pay, rules: Rules, total: nat): Payslip
    requires IsYear(y) && AreRules(rules)
    requires IsPackage(p)
  {
    ScaleConserves(p, total);
    Figures(y, Scale(p, total), rules)
  }

  /** The source's claim that one more unit of gross never lowers the net fails
      exactly where pension and housing fund both round up on that unit and PAYE
      does not fall in return; then the net drops by one unit. */
  lemma PackageNetFallsIff(y: Year, p: Pay, rules: Rules, total: nat)
    requires IsYear(y) && AreRules(rules)
    requires IsPackage(p)
    ensures var (a, b) := (PackageFigures(y, p, rules, total), PackageFigures(y, p, rules, total + 1));
            && b.net >= a.net - 1
            && (b.net < a.net <==> b.pension > a.pension && b.nhf > a.nhf && b.paye == a.paye)
  {
    ContributionsStep(y, p, rules, total);
    FiguresMove(y, p, rules, total, total + 1);
    hide PackageFigures, IncrementalPaye, AreBands;
    var a, b := PackageFigures(y, p, rules, total), PackageFigures(y, p, rules, total + 1);
    if a.chargeable <= b.chargeable {
      PayeClimbs(y, a.chargeable, b.chargeable, rules);
    } else {
      PayeClimbs(y, b.chargeable, a.chargeable, rules);
    }
  }

  lemma ContributionsStep(y: Year, p: Pay, rules: Rules, total: nat)
    requires IsYear(y) && AreRules(rules) && IsPackage(p)
    ensures var (a, b) := (PackageFigures(y, p, rules, total), PackageFigures(y, p, rules, total + 1));
            0 <= b.pension - a.pension <= 1 && 0 <= b.nhf - a.nhf <= 1
  {
    ContributionsOf(y, p, rules, total);
    ContributionsOf(y, p, rules, total + 1);
    ScaleStep(p, total);
    hide Scale, PackageFigures, AreBands, Money.ApplyRatePpm;
    Money.ApplyRateStep(total, rules.pensionRate);
    Money.ApplyRateStep(Scale(p, total).basic, rules.nhfRate);
  }

  /** The net falls at no total: pension and housing fund never both round up
      while PAYE stands still. */
  ghost predicate NetNeverFalls(y: Year, p: Pay, rules: Rules)
    requires IsYear(y) && AreRules(rules)
    requires IsPackage(p)
  {
    forall t: nat :: PackageFigures(y, p, rules, t).net <= PackageFigures(y, p, rules, t + 1).net
  }

  /** Without a pension rate, or without a housing fund rate, it never does. */
  lemma OneContributionNeverFalls(y: Year, p: Pay, rules: Rules)
    requires IsYear(y) && AreRules(rules) && (rules.pensionRate == 0 || rules.nhfRate == 0)
    requires IsPackage(p)
    ensures NetNeverFalls(y, p, rules)
  {
    forall t: nat
      ensures PackageFigures(y, p, rules, t).net <= PackageFigures(y, p, rules, t + 1).net
    {
      PackageNetFallsIff(y, p, rules, t);
      ScaleConserves(p, t);
      ScaleConserves(p, t + 1);
    }
  }

  /** Between any two totals, contributions grow by no more than their joint
      rate, to within two units of rounding. */
  lemma ContributionsGrow(y: Year, p: Pay, rules: Rules, from: nat, to: nat)
    requires IsYear(y) && AreRules(rules) && IsPackage(p) && from <= to
    ensures var (a, b) := (PackageFigures(y, p, rules, from), PackageFigures(y, p, rules, to));
            && a.pension <= b.pension && a.nhf <= b.nhf
            && Money.PPM * (b.pension - a.pension + b.nhf - a.nhf)
               < (to - from) * (rules.pensionRate + rules.nhfRate) + 2 * Money.PPM
  {
    ContributionsOf(y, p, rules, from);
    ContributionsOf(y, p, rules, to);
    BasicGrows(p, from, to);
    ScaleConserves(p, from);
    hide Scale, Part, PackageFigures, AreBands;
    var basicFrom, basicTo := Scale(p, from).basic, Scale(p, to).basic;
    PartClimbs(from, to, rules.pensionRate);
    PartClimbs(basicFrom, basicTo, rules.nhfRate);
    GrowthsAddUp(Part(to, rules.pensionRate) - Part(from, rules.pensionRate), to - from, rules.pensionRate,
                 Part(basicTo, rules.nhfRate) - Part(basicFrom, rules.nhfRate), basicTo - basicFrom, rules.nhfRate);
  }

  lemma ContributionsOf(y: Year, p: Pay, rules: Rules, total: nat)
    requires IsYear(y) && AreRules(rules) && IsPackage(p)
    ensures Scale(p, total).basic >= 0
    ensures PackageFigures(y, p, rules, total).pension == Part(total, rules.pensionRate)
    ensures PackageFigures(y, p, rules, total).nhf == Part(Scale(p, total).basic, rules.nhfRate)
  {
    ScaleConserves(p, total);
    hide Scale, Part, IncrementalPaye, RentRelief, AreBands;
  }

  lemma PartClimbs(from: int, to: int, rate: int)
    requires 0 <= from <= to && IsRate(rate)
    ensures 0 <= Part(to, rate) - Part(from, rate)
    ensures Money.PPM * (Part(to, rate) - Part(from, rate)) < (to - from) * rate + Money.PPM
  {
    Money.ApplyRateIsMonotone(from, to, rate, rate);
    PartGrowth(from, to, rate);
  }

  lemma GrowthsAddUp(p: int, d: int, rate: int, q: int, e: int, other: int)
    requires Money.PPM * p < d * rate + Money.PPM && Money.PPM * q < e * other + Money.PPM
    requires e <= d && other >= 0
    ensures Money.PPM * (p + q) < d * (rate + other) + 2 * Money.PPM
  {
    Scaled(e, d, other);
    assert d * (rate + other) == d * rate + d * other;
  }

  /** What is left of more gross after contributions, `kept`, is either taxed or
      netted; chargeable income moves with it, by no more than it does. */
  lemma FiguresMove(y: Year, p: Pay, rules: Rules, from: nat, to: nat)
    requires IsYear(y) && AreRules(rules) && IsPackage(p) && from <= to
    ensures var (a, b) := (PackageFigures(y, p, rules, from), PackageFigures(y, p, rules, to));
            var kept := to - from - (b.pension - a.pension) - (b.nhf - a.nhf);
            && b.net - a.net == kept - (b.paye - a.paye)
            && a.paye == IncrementalPaye(y, a.chargeable, rules) && b.paye == IncrementalPaye(y, b.chargeable, rules)
            && (kept >= 0 ==> a.chargeable <= b.chargeable <= a.chargeable + kept)
            && (kept <= 0 ==> a.chargeable + kept <= b.chargeable <= a.chargeable)
  {
    ScaleConserves(p, from);
    ScaleConserves(p, to);
    hide Scale, Part, Tax, RentRelief, AreBands, IncrementalPaye;
  }

  /** Contributions that do not take more than the whole of the pay. */
  predicate LeavesSomething(rules: Rules) {
    rules.pensionRate + rules.nhfRate <= Money.PPM
  }

  /** Then no total nets less than any smaller one by more than a unit. */
  lemma NetFallsByAUnitAtMost(y: Year, p: Pay, rules: Rules, from: nat, to: nat)
    requires IsYear(y) && AreRules(rules) && IsPackage(p) && LeavesSomething(rules) && from <= to
    ensures PackageFigures(y, p, rules, from).net <= PackageFigures(y, p, rules, to).net + 1
  {
    ContributionsGrow(y, p, rules, from, to);
    FiguresMove(y, p, rules, from, to);
    Scaled2(to - from, rules.pensionRate + rules.nhfRate);
    hide PackageFigures, IncrementalPaye, AreBands;
    var a, b := PackageFigures(y, p, rules, from), PackageFigures(y, p, rules, to);
    if a.chargeable <= b.chargeable {
      PayeClimbs(y, a.chargeable, b.chargeable, rules);
    } else {
      PayeClimbs(y, b.chargeable, a.chargeable, rules);
    }
  }

  lemma Scaled2(n: nat, rate: int)
    requires rate <= Money.PPM
    ensures n * rate <= n * Money.PPM
  {
  }

  /** What a total nets: its figures' net less the loan, if that covers it. */
  lemma PackageNetIs(y: Year, p: Pay, loan: int, rules: Rules, total: nat)
    requires IsYear(y) && AreRules(rules) && IsPackage(p) && loan >= 0 && p.other >= 0
    ensures var net := PackageFigures(y, p, rules, total).net;
            PackageNet(y, p, loan, rules, total)
            == if net < 0 then Err(NegativeNet) else if net < loan then Err(LoanExceedsNet) else Ok(net - loan)
  {
    ScaleConserves(p, total);
    hide Part, Tax, RentRelief, AreBands, IncrementalPaye, Scale;
  }

  lemma PackageNeverRaisesNoBracket(y: Year, p: Pay, loan: int, rules: Rules)
    requires IsYear(y) && AreRules(rules) && IsPackage(p)
    ensures var f := PackageOutput(y, p, loan, rules); forall x :: f(x).Err? ==> f(x).error != NoBracket
  {
    hide Tax, Part, RentRelief, Scale;
  }

  /** Pension and housing fund both round up on the next unit of total, and PAYE
      stands still. */
  predicate BothRoundUp(y: Year, p: Pay, rules: Rules, t: nat)
    requires IsYear(y) && AreRules(rules) && IsPackage(p)
  {
    var (a, b) := (PackageFigures(y, p, rules, t), PackageFigures(y, p, rules, t + 1));
    b.pension > a.pension && b.nhf > a.nhf && b.paye == a.paye
  }

  lemma FallsWhereBothRoundUp(y: Year, p: Pay, loan: int, rules: Rules, t: nat)
    requires IsYear(y) && AreRules(rules) && IsPackage(p) && loan >= 0 && p.other >= 0
    ensures FallsAt(PackageOutput(y, p, loan, rules), t)
            <==> PackageFigures(y, p, rules, t).net > loan && BothRoundUp(y, p, rules, t)
  {
    PackageNetFallsIff(y, p, rules, t);
    PackageNetIs(y, p, loan, rules, t);
    PackageNetIs(y, p, loan, rules, t + 1);
    hide PackageFigures, PackageNet;
  }

  // ----- Packages of one shape, and the seed the code gives each -----

  /** A package of the same shape, k times as large; other earnings stay. */
  function Times(p: Pay, k: nat): (q: Pay)
    requires IsPackage(p) && k > 0
    ensures IsPackage(q)
  {
    ProductsArePositive(p.basic, p.housing, p.transport, k);
    p.(basic := k * p.basic, housing := k * p.housing, transport := k * p.transport)
  }

  lemma ProductsArePositive(b: nat, h: nat, t: nat, k: nat)
    requires k > 0 && b + h + t > 0
    ensures k * b >= 0 && k * h >= 0 && k * t >= 0
    ensures k * b + k * h + k * t == k * (b + h + t) > 0
  {
  }

  /** solve_regular_package_gross_up's seed for the package k times as large. */
  function OwnSeed(p: Pay, k: nat, target: int): int
    requires IsPackage(p) && k > 0
  {
    Max(Times(p, k).basic + Times(p, k).housing + Times(p, k).transport, target)
  }

  lemma OwnSeedIs(p: Pay, k: nat, target: int)
    requires IsPackage(p) && k > 0
    ensures OwnSeed(p, k, target) == Max(k * (p.basic + p.housing + p.transport), target)
  {
    ProductsArePositive(p.basic, p.housing, p.transport, k);
  }

  /** Packages of one shape net the same at every total. */
  lemma SameShapeSameScale(p: Pay, k: nat, total: int)
    requires IsPackage(p) && k > 0
    ensures Scale(Times(p, k), total) == Scale(p, total)
  {
    var current := p.basic + p.housing + p.transport;
    ProductsArePositive(p.basic, p.housing, p.transport, k);
    SameQuotient(p.basic, total, current, k);
    SameQuotient(p.housing, total, current, k);
  }

  lemma SameQuotient(b: nat, total: int, current: nat, k: nat)
    requires current > 0 && k > 0
    ensures k * current > 0 && k * b * total / (k * current) == b * total / current
  {
    var n := b * total;
    assert k * b * total == k * n;
    DivideExactly(n, current);
    ScaledRemainder(n, n / current, current, k);
    QuotientIs(k * n, n / current, k * current);
  }

  lemma ScaledRemainder(n: int, q: int, d: nat, k: nat)
    requires d > 0 && k > 0 && 0 <= n - q * d < d
    ensures k * d > 0 && 0 <= k * n - q * (k * d) < k * d
  {
    assert k * n - q * (k * d) == k * (n - q * d);
    assert 0 <= k * (n - q * d) < k * d;
  }

  lemma QuotientIs(n: int, q: int, d: nat)
    requires d > 0 && 0 <= n - q * d < d
    ensures n / d == q
  {
    DivideExactly(n, d);
    QuotientsApart(q, n / d, n, n, 0, d);
  }

  lemma SameShapeSameNet(y: Year, p: Pay, loan: int, rules: Rules, k: nat, total: int)
    requires IsYear(y) && AreRules(rules) && IsPackage(p) && k > 0
    ensures PackageNet(y, Times(p, k), loan, rules, total) == PackageNet(y, p, loan, rules, total)
  {
    SameShapeSameScale(p, k, total);
    hide Scale, Times, ComputePayslip;
  }

  /** For every package of the shape and every target, the code's call, with its
      own seed, answers the least total there is within the limit's reach, or a
      payslip raises. */
  ghost predicate OwnCallsFindTheLeast(y: Year, p: Pay, loan: int, rules: Rules, limit: nat)
    requires IsYear(y) && AreRules(rules) && IsPackage(p)
  {
    forall k: nat, target: int, z: int ::
      k > 0 && InRange(target, OwnSeed(p, k, target), limit, z)
      && Reaches(PackageOutput(y, Times(p, k), loan, rules), z, target) ==>
        IsAtMost(Search(PackageOutput(y, Times(p, k), loan, rules), target, OwnSeed(p, k, target), limit), z)
  }

  /** A total that nets something and at which both contributions round up. */
  predicate IsFall(y: Year, p: Pay, loan: int, rules: Rules, t: nat)
    requires IsYear(y) && AreRules(rules) && IsPackage(p)
  {
    PackageFigures(y, p, rules, t).net > loan && BothRoundUp(y, p, rules, t)
  }

  lemma FallsOfShape(y: Year, p: Pay, loan: int, rules: Rules, k: nat, t: nat)
    requires IsYear(y) && AreRules(rules) && IsPackage(p) && loan >= 0 && p.other >= 0 && k > 0
    ensures FallsAt(PackageOutput(y, Times(p, k), loan, rules), t) <==> IsFall(y, p, loan, rules, t)
  {
    FallsWhereBothRoundUp(y, p, loan, rules, t);
    SameShapeSameNet(y, p, loan, rules, k, t);
    SameShapeSameNet(y, p, loan, rules, k, t + 1);
    hide PackageNet, PackageFigures, BothRoundUp, Times;
  }

  /** Without a fall below 2^limit, every such call finds the least. */
  lemma NoFallOwnCallsFindTheLeast(y: Year, p: Pay, loan: int, rules: Rules, limit: nat)
    requires IsYear(y) && AreRules(rules) && IsPackage(p) && loan >= 0 && p.other >= 0
    requires forall t: nat :: 0 < t < Pow2(limit) ==> !IsFall(y, p, loan, rules, t)
    ensures OwnCallsFindTheLeast(y, p, loan, rules, limit)
  {
    hide IsFall, FallsAt, PackageOutput, OwnSeed, InRange, Times;
    forall k: nat, target: int, z: int |
      k > 0 && InRange(target, OwnSeed(p, k, target), limit, z)
      && Reaches(PackageOutput(y, Times(p, k), loan, rules), z, target)
      ensures IsAtMost(Search(PackageOutput(y, Times(p, k), loan, rules), target, OwnSeed(p, k, target), limit), z)
    {
      var f := PackageOutput(y, Times(p, k), loan, rules);
      PackageNeverRaisesNoBracket(y, Times(p, k), loan, rules);
      forall t | 0 < t < Pow2(limit)
        ensures !FallsAt(f, t)
      {
        FallsOfShape(y, p, loan, rules, k, t);
      }
      NoFallFindsTheLeast(f, target, OwnSeed(p, k, target), limit, z);
    }
  }

  /** A power of two at least n, and less than twice it. */
  lemma {:induction false} PowerNear(n: nat) returns (j: nat)
    requires n > 0
    ensures n <= Pow2(j) < 2 * n
  {
    if n == 1 {
      assert Pow2(0) == 1;
      j := 0;
    } else {
      var i := PowerNear((n + 1) / 2);
      j := i + 1;
      if Pow2(j) >= 2 * n {
        j := i;
      }
    }
  }

  /** Some multiple of `current` halves to m, and is at least the target. */
  lemma MultipleThatHalves(current: nat, target: nat, m: nat) returns (k: nat, j: nat)
    requires current > 0 && m > 0
    ensures k > 0 && HalvesTo(k * current, j, m)
    ensures target <= k * current <= 2 * (current + target) * (m + 1)
  {
    j := PowerNear(current + target);
    var from := Pow2(j) * m;
    AtLeastOnce(Pow2(j), m);
    k := (from + current - 1) / current;
    DivideExactly(from + current - 1, current);
    assert from <= k * current < from + current;
    assert Pow2(j) * (m + 1) == from + Pow2(j);
    Scaled(Pow2(j), 2 * (current + target), m + 1);
    if k <= 0 {
      NoMultiple(k, current);
    }
  }

  lemma NoMultiple(k: int, d: nat)
    requires k <= 0
    ensures k * d <= 0
  {
  }

  /** Wherever there is a fall, the code's own call misses for some package of
      the shape: asked for what t nets, it fails or answers more than t + 1.
      Which package, and how large its seed, is bounded. */
  lemma RoundingUpDefeatsTheSolver(y: Year, p: Pay, loan: int, rules: Rules, t: nat, limit: nat) returns (k: nat)
    requires IsYear(y) && AreRules(rules) && IsPackage(p) && loan >= 0 && p.other >= 0
    requires IsFall(y, p, loan, rules, t)
    ensures k > 0
    ensures var target := PackageFigures(y, p, rules, t).net - loan;
            var f := PackageOutput(y, Times(p, k), loan, rules);
            var r := Search(f, target, OwnSeed(p, k, target), limit);
            && f(t) == Ok(target)
            && OwnSeed(p, k, target) <= 2 * (p.basic + p.housing + p.transport + target) * (t + 2)
            && (r.Ok? ==> r.value > t + 1)
            && ((forall x :: x > t ==> f(x).Ok?) ==> !IsAtMost(r, t))
  {
    hide PackageFigures, BothRoundUp, PackageNet, Times, HalvesTo, OwnSeed, Search;
    var target := PackageFigures(y, p, rules, t).net - loan;
    var j: nat;
    k, j := MultipleThatHalves(p.basic + p.housing + p.transport, target, t + 1);
    OwnSeedIs(p, k, target);
    PackageNetIs(y, p, loan, rules, t);
    SameShapeSameNet(y, p, loan, rules, k, t);
    FallsOfShape(y, p, loan, rules, k, t);
    FallDefeatsTheSearch(PackageOutput(y, Times(p, k), loan, rules), t, OwnSeed(p, k, target), j, limit);
  }

  /** So within a limit's reach the calls do not all find the least. */
  lemma FallSpoilsAnOwnCall(y: Year, p: Pay, loan: int, rules: Rules, t: nat, limit: nat)
    requires IsYear(y) && AreRules(rules) && IsPackage(p) && LeavesSomething(rules) && loan >= 0 && p.other >= 0
    requires t > 0 && IsFall(y, p, loan, rules, t) && SeedBound(y, p, loan, rules, t) <= Pow2(limit)
    ensures !OwnCallsFindTheLeast(y, p, loan, rules, limit)
  {
    hide PackageFigures, BothRoundUp, PackageNet, Times, OwnSeed, Search, FallsAt, IsAtMost;
    var k := RoundingUpDefeatsTheSolver(y, p, loan, rules, t, limit);
    var target := PackageFigures(y, p, rules, t).net - loan;
    var f := PackageOutput(y, Times(p, k), loan, rules);
    PackageNetIs(y, p, loan, rules, t);
    forall x | x > t
      ensures f(x).Ok?
    {
      NetsOnceNetsAlways(y, p, loan, rules, t, x);
      SameShapeSameNet(y, p, loan, rules, k, x);
    }
    SmallerThanSeed(p.basic + p.housing + p.transport + target, t, limit);
    assert InRange(target, OwnSeed(p, k, target), limit, t) && Reaches(f, t, target);
  }

  /** What bounds the seed of the call that a fall at t spoils. */
  function SeedBound(y: Year, p: Pay, loan: int, rules: Rules, t: nat): int
    requires IsYear(y) && AreRules(rules) && IsPackage(p)
  {
    2 * (p.basic + p.housing + p.transport + PackageFigures(y, p, rules, t).net - loan) * (t + 2)
  }

  lemma SmallerThanSeed(n: nat, t: nat, limit: nat)
    requires n > 0 && 2 * n * (t + 2) <= Pow2(limit)
    ensures limit > 0 && t <= Pow2(limit - 1)
  {
    Scaled(2, 2 * n, t + 2);
    assert Pow2(0) == 1;
  }

  /** The promise of the least package, over all packages of one shape, the seeds
      the code gives them and all targets: it holds at every iteration limit if
      and only if pension and housing fund never both round up, with PAYE
      standing still, at a total that nets something. */
  lemma PackageIsLeastIff(y: Year, p: Pay, loan: int, rules: Rules)
    requires IsYear(y) && AreRules(rules) && IsPackage(p) && LeavesSomething(rules) && loan >= 0 && p.other >= 0
    ensures (forall limit: nat :: OwnCallsFindTheLeast(y, p, loan, rules, limit))
            <==> forall t: nat :: t > 0 ==> !IsFall(y, p, loan, rules, t)
  {
    hide IsFall, OwnCallsFindTheLeast, SeedBound;
    if forall t: nat :: t > 0 ==> !IsFall(y, p, loan, rules, t) {
      forall limit: nat
        ensures OwnCallsFindTheLeast(y, p, loan, rules, limit)
      {
        NoFallOwnCallsFindTheLeast(y, p, loan, rules, limit);
      }
    }
    if t: nat :| t > 0 && IsFall(y, p, loan, rules, t) {
      var limit := Max(0, SeedBound(y, p, loan, rules, t));
      PowerAbove(limit);
      FallSpoilsAnOwnCall(y, p, loan, rules, t, limit);
    }
  }

  /** At the code's own 128: no fall below 2^128 is enough, and a fall whose
      spoiled call has a seed up to 2^128 is too much. */
  lemma PackageIsLeastAtTheCodesLimit(y: Year, p: Pay, loan: int, rules: Rules)
    requires IsYear(y) && AreRules(rules) && IsPackage(p) && LeavesSomething(rules) && loan >= 0 && p.other >= 0
    ensures (forall t: nat :: 0 < t < Pow2(MAX_ITERATIONS) ==> !IsFall(y, p, loan, rules, t))
            ==> OwnCallsFindTheLeast(y, p, loan, rules, MAX_ITERATIONS)
    ensures OwnCallsFindTheLeast(y, p, loan, rules, MAX_ITERATIONS)
            ==> forall t: nat :: t > 0 && SeedBound(y, p, loan, rules, t) <= Pow2(MAX_ITERATIONS) ==>
                  !IsFall(y, p, loan, rules, t)
  {
    hide IsFall, OwnCallsFindTheLeast, SeedBound, MAX_ITERATIONS, Pow2;
    if forall t: nat :: 0 < t < Pow2(MAX_ITERATIONS) ==> !IsFall(y, p, loan, rules, t) {
      NoFallOwnCallsFindTheLeast(y, p, loan, rules, MAX_ITERATIONS);
    }
    forall t: nat | t > 0 && SeedBound(y, p, loan, rules, t) <= Pow2(MAX_ITERATIONS) && IsFall(y, p, loan, rules, t)
      ensures !OwnCallsFindTheLeast(y, p, loan, rules, MAX_ITERATIONS)
    {
      FallSpoilsAnOwnCall(y, p, loan, rules, t, MAX_ITERATIONS);
    }
  }

  lemma NetsOnceNetsAlways(y: Year, p: Pay, loan: int, rules: Rules, t: nat, x: nat)
    requires IsYear(y) && AreRules(rules) && IsPackage(p) && LeavesSomething(rules) && loan >= 0 && p.other >= 0
    requires t < x && PackageOutput(y, p, loan, rules)(t).Ok? && PackageOutput(y, p, loan, rules)(t).value > 0
    ensures PackageOutput(y, p, loan, rules)(x).Ok?
  {
    hide PackageNet, PackageFigures;
    NetFallsByAUnitAtMost(y, p, rules, t, x);
    PackageNetIs(y, p, loan, rules, t);
    PackageNetIs(y, p, loan, rules, x);
  }

  /** What the solver always gives, loan or not: a package that nets the target,
      such that no smaller one nets more than the target. */
  lemma PackageIsNearlyLeast(y: Year, p: Pay, loan: int, rules: Rules, target: int, seed: int)
    requires IsYear(y) && AreRules(rules) && IsPackage(p) && LeavesSomething(rules)
    requires target > 0 && Fits(PackageOutput(y, p, loan, rules), target, seed)
    requires Solution(PackageOutput(y, p, loan, rules), target, seed).Ok?
    ensures var x := Solution(PackageOutput(y, p, loan, rules), target, seed).value;
            && x > 0 && PackageNet(y, p, loan, rules, x).Ok? && PackageNet(y, p, loan, rules, x).value >= target
            && forall z :: 0 < z < x && PackageNet(y, p, loan, rules, z).Ok? ==>
                 PackageNet(y, p, loan, rules, z).value <= target
  {
    hide PackageNet, PackageFigures, Fits, MAX_ITERATIONS;
    SolutionIsACrossing(PackageOutput(y, p, loan, rules), target, seed);
    var x := Solution(PackageOutput(y, p, loan, rules), target, seed).value;
    AnswerMeansNothingNegative(y, p, loan, rules, x);
    forall z | 0 < z < x && PackageNet(y, p, loan, rules, z).Ok?
      ensures PackageNet(y, p, loan, rules, z).value <= target
    {
      NetFallsByAUnitAtMost(y, p, rules, z, x - 1);
      PackageNetIs(y, p, loan, rules, z);
      PackageNetIs(y, p, loan, rules, x - 1);
    }
  }

  lemma AnswerMeansNothingNegative(y: Year, p: Pay, loan: int, rules: Rules, total: int)
    requires IsYear(y) && AreRules(rules) && IsPackage(p) && PackageNet(y, p, loan, rules, total).Ok?
    ensures loan >= 0 && p.other >= 0
  {
  }

  /** Where they never do, the solved package is the least: every smaller one
      raises or nets less. */
  lemma PackageIsLeast(y: Year, p: Pay, loan: int, rules: Rules, target: int, seed: int)
    requires IsYear(y) && AreRules(rules) && IsPackage(p)
    requires forall t: nat :: t > 0 && PackageFigures(y, p, rules, t).net > loan ==> !BothRoundUp(y, p, rules, t)
    requires target > 0 && Fits(PackageOutput(y, p, loan, rules), target, seed)
    requires Solution(PackageOutput(y, p, loan, rules), target, seed).Ok?
    ensures var x := Solution(PackageOutput(y, p, loan, rules), target, seed).value;
            && x > 0 && PackageNet(y, p, loan, rules, x).Ok? && PackageNet(y, p, loan, rules, x).value >= target
            && forall z :: 0 < z < x && PackageNet(y, p, loan, rules, z).Ok? ==>
                 PackageNet(y, p, loan, rules, z).value < target
  {
    hide PackageNet, PackageFigures, BothRoundUp, FallsAt, Fits, MAX_ITERATIONS;
    var f := PackageOutput(y, p, loan, rules);
    SolutionIsACrossing(f, target, seed);
    var x := Solution(f, target, seed).value;
    AnswerMeansNothingNegative(y, p, loan, rules, x);
    forall t | t > 0
      ensures !FallsAt(f, t)
    {
      FallsWhereBothRoundUp(y, p, loan, rules, t);
    }
    forall z | 0 < z < x && PackageNet(y, p, loan, rules, z).Ok?
      ensures PackageNet(y, p, loan, rules, z).value < target
    {
      if Reaches(f, z, target) {
        ReachesEverAfter(f, target, z, x - 1);
      }
    }
  }

  // ----- When a loan stops the solver -----

  /** The solver raises a payslip error if and only if its first probe short of
      the target, among the seed and its successive halves, nets less than the
      loan before it is deducted; or nets just the loan, and a later probe one
      unit less. */
  lemma LoanStopsTheSolverIff(y: Year, p: Pay, loan: int, rules: Rules, target: int, seed: int)
    requires IsYear(y) && AreRules(rules) && IsPackage(p) && LeavesSomething(rules) && loan >= 0 && p.other >= 0
    requires target > 0
    ensures var f := PackageOutput(y, p, loan, rules);
            var m, r := FirstMiss(f, target, Max(seed, 1), MAX_ITERATIONS), Solution(f, target, seed);
            && (m.Some? ==> m.value > 0)
            && (m.None? ==> r.Ok?)
            && (m.Some? ==>
                  var net := PackageFigures(y, p, rules, m.value).net;
                  && (net < loan ==> r == Err(if net < 0 then NegativeNet else LoanExceedsNet))
                  && (net > loan ==> r.Ok? || r.error == NoBracket)
                  && (net == loan ==>
                        (r.Err? && r.error != NoBracket
                         <==> ProbesOneLess(y, p, loan, rules, Probes(f, target, seed, MAX_ITERATIONS)))))
  {
    hide PackageNet, PackageFigures, MAX_ITERATIONS, Probes, Solution, ProbesOneLess;
    var f := PackageOutput(y, p, loan, rules);
    var m := FirstMiss(f, target, Max(seed, 1), MAX_ITERATIONS);
    PackageNeverRaisesNoBracket(y, p, loan, rules);
    FirstMissIsPositive(f, target, Max(seed, 1), MAX_ITERATIONS);
    if m.None? {
      NoMissNoError(f, target, seed);
    } else {
      PackageNetIs(y, p, loan, rules, m.value);
      if PackageFigures(y, p, rules, m.value).net == loan {
        JustTheLoan(y, p, loan, rules, target, seed, m.value);
      } else {
        forall x | x > m.value && f(m.value).Ok?
          ensures f(x).Ok?
        {
          NetFallsByAUnitAtMost(y, p, rules, m.value, x);
          PackageNetIs(y, p, loan, rules, x);
        }
        RaisesIffFirstMissDoes(f, target, seed);
      }
    }
  }

  /** Some probe nets one unit less than the loan. */
  predicate ProbesOneLess(y: Year, p: Pay, loan: int, rules: Rules, probes: seq<int>)
    requires IsYear(y) && AreRules(rules) && IsPackage(p)
  {
    exists x: nat :: x in probes && PackageFigures(y, p, rules, x).net == loan - 1
  }

  lemma JustTheLoan(y: Year, p: Pay, loan: int, rules: Rules, target: int, seed: int, m: nat)
    requires IsYear(y) && AreRules(rules) && IsPackage(p) && LeavesSomething(rules) && loan >= 0 && p.other >= 0
    requires target > 0 && PackageFigures(y, p, rules, m).net == loan
    requires FirstMiss(PackageOutput(y, p, loan, rules), target, Max(seed, 1), MAX_ITERATIONS) == Some(m)
    ensures var f := PackageOutput(y, p, loan, rules);
            var r := Solution(f, target, seed);
            r.Err? && r.error != NoBracket
            <==> ProbesOneLess(y, p, loan, rules, Probes(f, target, seed, MAX_ITERATIONS))
  {
    hide PackageNet, PackageFigures, MAX_ITERATIONS, Probes, Search;
    var f := PackageOutput(y, p, loan, rules);
    var probes := Probes(f, target, seed, MAX_ITERATIONS);
    PackageNeverRaisesNoBracket(y, p, loan, rules);
    RaisesIffAProbeDoes(f, target, seed, MAX_ITERATIONS);
    forall x | x in probes && f(x).Err?
      ensures x >= 0 && PackageFigures(y, p, rules, x).net == loan - 1
    {
      ProbesPastFirstMiss(f, target, seed, MAX_ITERATIONS, x);
      NetFallsByAUnitAtMost(y, p, rules, m, x);
      PackageNetIs(y, p, loan, rules, x);
    }
    forall x: nat | x in probes && PackageFigures(y, p, rules, x).net == loan - 1
      ensures f(x).Err?
    {
      PackageNetIs(y, p, loan, rules, x);
    }
  }

  // ----- When every net is reachable -----

  /** Of a large enough raise something is left: contributions, the housing fund's
      on the basic share, take less than the whole, and so does the top band. */
  predicate KeepsSomething(p: Pay, rules: Rules) {
    var current := p.basic + p.housing + p.transport;
    current * rules.pensionRate + p.basic * rules.nhfRate < current * Money.PPM && TopRate(rules.bands) < Money.PPM
  }

  /** Contributions on a total, to within three units, at the shape's own rate. */
  lemma ContributionsFromNothing(y: Year, p: Pay, rules: Rules, total: nat)
    requires IsYear(y) && AreRules(rules) && IsPackage(p)
    ensures var a, current := PackageFigures(y, p, rules, total), p.basic + p.housing + p.transport;
            var taken := total * (current * rules.pensionRate + p.basic * rules.nhfRate);
            && taken - 3 * (current * Money.PPM) < current * Money.PPM * (a.pension + a.nhf)
            && current * Money.PPM * (a.pension + a.nhf) < taken + 2 * (current * Money.PPM)
  {
    ScaleConserves(p, total);
    ContributionsOf(y, p, rules, total);
    hide Scale, PackageFigures, Part, AreBands;
    var basic, current := Scale(p, total).basic, p.basic + p.housing + p.transport;
    PartGrowth(0, total, rules.pensionRate);
    PartGrowth(0, basic, rules.nhfRate);
    PartOfNothing(rules.pensionRate);
    PartOfNothing(rules.nhfRate);
    SharesOfTotal(current, p.basic, total, basic, rules.pensionRate, rules.nhfRate,
                  Part(total, rules.pensionRate), Part(basic, rules.nhfRate));
  }

  lemma SharesOfTotal(c: nat, b: nat, t: nat, basic: nat, rate: int, other: int, p: int, q: int)
    requires c > 0 && 0 <= b * t - basic * c < c && 0 <= other <= Money.PPM
    requires t * rate - Money.PPM < Money.PPM * p < t * rate + Money.PPM
    requires basic * other - Money.PPM < Money.PPM * q < basic * other + Money.PPM
    ensures var taken := t * (c * rate + b * other);
            taken - 3 * (c * Money.PPM) < c * Money.PPM * (p + q) < taken + 2 * (c * Money.PPM)
  {
    WithinOneUnit(c, t * rate, p);
    WithinOneUnit(c, basic * other, q);
    ShareOfBasic(c, b, t, basic, other);
    SplitTaken(c, b, t, rate, other, p, q);
  }

  lemma WithinOneUnit(c: nat, exact: int, rounded: int)
    requires c > 0 && exact - Money.PPM < Money.PPM * rounded < exact + Money.PPM
    ensures c * exact - c * Money.PPM < c * Money.PPM * rounded < c * exact + c * Money.PPM
  {
    Between(c, exact - Money.PPM, Money.PPM * rounded, exact + Money.PPM);
    assert c * (Money.PPM * rounded) == c * Money.PPM * rounded;
  }

  lemma ShareOfBasic(c: nat, b: nat, t: nat, basic: nat, other: int)
    requires 0 <= b * t - basic * c < c && 0 <= other <= Money.PPM
    ensures b * t * other - c * Money.PPM <= c * (basic * other) <= b * t * other
  {
    var rest := b * t - basic * c;
    Scaled(0, rest, other);
    Scaled(rest, c, other);
    Scaled(other, Money.PPM, c);
    assert c * (basic * other) == basic * c * other;
    assert rest * other == b * t * other - basic * c * other;
    assert other * c == c * other && Money.PPM * c == c * Money.PPM;
  }

  lemma SplitTaken(c: nat, b: nat, t: nat, rate: int, other: int, p: int, q: int)
    ensures c * Money.PPM * (p + q) == c * Money.PPM * p + c * Money.PPM * q
    ensures t * (c * rate + b * other) == c * (t * rate) + b * t * other
  {
    assert t * (c * rate + b * other) == t * (c * rate) + t * (b * other);
    assert t * (c * rate) == c * (t * rate) && t * (b * other) == b * t * other;
  }

  lemma Between(c: nat, a: int, n: int, b: int)
    requires c > 0 && a < n < b
    ensures c * a < c * n < c * b
  {
  }

  /** A total that nets the target whatever the bands below the top one take. */
  function EnoughPackage(y: Year, p: Pay, loan: int, rules: Rules, target: int): int
    requires IsYear(y) && AreRules(rules) && IsPackage(p)
  {
    var need := Max(0, Max(target, 0) + loan - PackageFigures(y, p, rules, 0).net);
    (p.basic + p.housing + p.transport) * Money.PPM * (Money.PPM * (need + Width(rules.bands, 0) + 1) + 2)
  }

  lemma PackageIsEnough(y: Year, p: Pay, loan: int, rules: Rules, target: int, total: nat)
    requires IsYear(y) && AreRules(rules) && IsPackage(p) && loan >= 0 && p.other >= 0
    requires KeepsSomething(p, rules) && EnoughPackage(y, p, loan, rules, target) <= total
    ensures PackageFigures(y, p, rules, total).net >= Max(target, 0) + loan
  {
    var a, b := PackageFigures(y, p, rules, 0), PackageFigures(y, p, rules, total);
    NothingOfNothing(y, p, rules);
    ContributionsFromNothing(y, p, rules, total);
    FiguresMove(y, p, rules, 0, total);
    hide PackageFigures, IncrementalPaye, AreBands, TopRate, Width;
    var need := Max(0, Max(target, 0) + loan - a.net);
    var most := Money.PPM * (need + Width(rules.bands, 0) + 1);
    var current := p.basic + p.housing + p.transport;
    var kept := total - b.pension - b.nhf;
    KeptIsEnough(current, total, current * rules.pensionRate + p.basic * rules.nhfRate, b.pension + b.nhf, most);
    PayeGrowth(y, a.chargeable, b.chargeable, rules);
    AtMostLess(b.chargeable - a.chargeable, kept, TopRate(rules.bands));
  }

  lemma NothingOfNothing(y: Year, p: Pay, rules: Rules)
    requires IsYear(y) && AreRules(rules) && IsPackage(p)
    ensures PackageFigures(y, p, rules, 0).pension == 0 && PackageFigures(y, p, rules, 0).nhf == 0
  {
    ContributionsOf(y, p, rules, 0);
    ScaleConserves(p, 0);
    hide PackageFigures, Part, AreBands;
    PartOfNothing(rules.pensionRate);
    PartOfNothing(rules.nhfRate);
  }

  lemma KeptIsEnough(c: nat, t: nat, rate: int, taken: int, most: int)
    requires c > 0 && rate < c * Money.PPM && most >= 0
    requires c * Money.PPM * taken < t * rate + 2 * (c * Money.PPM)
    requires c * Money.PPM * (most + 2) <= t
    ensures t - taken >= most
  {
    var unit := c * Money.PPM;
    Scaled(rate, unit - 1, t);
    assert t * rate == rate * t;
    assert (unit - 1) * t == unit * t - t;
    assert unit * (t - taken) == unit * t - unit * taken;
    assert unit * (most + 2) == unit * most + 2 * unit;
    assert unit * (t - taken) > unit * most;
    if t - taken < most {
      Scaled(t - taken, most, unit);
    }
  }

  /** Otherwise no total nets more than a fixed amount. */
  lemma PackageIsCapped(y: Year, p: Pay, rules: Rules, total: nat)
    requires IsYear(y) && AreRules(rules) && IsPackage(p) && !KeepsSomething(p, rules)
    ensures PackageFigures(y, p, rules, total).net <= PackageCap(y, p, rules)
  {
    AreBandsOf(rules);
    TopRateIsRate(rules.bands, 0);
    if TopRate(rules.bands) == Money.PPM {
      CappedByTax(y, p, rules, total);
    } else {
      ContributionsFromNothing(y, p, rules, total);
      NetWithoutPaye(y, p, rules, total);
      hide PackageFigures, AreBands, TopRate, Width, RentRelief;
      var current := p.basic + p.housing + p.transport;
      var a := PackageFigures(y, p, rules, total);
      AllIsTaken(current, total, current * rules.pensionRate + p.basic * rules.nhfRate, a.pension + a.nhf);
    }
  }

  function PackageCap(y: Year, p: Pay, rules: Rules): int
    requires IsYear(y) && AreRules(rules)
  {
    Max(p.other + 2, Width(rules.bands, 0) + y.payeBefore + RentRelief(y, rules)
                     - (y.grossBefore - y.pensionBefore - y.nhfBefore))
  }

  lemma AllIsTaken(c: nat, t: nat, rate: int, taken: int)
    requires c > 0 && rate >= c * Money.PPM && t * rate - 3 * (c * Money.PPM) < c * Money.PPM * taken
    ensures t - taken <= 2
  {
    var unit := c * Money.PPM;
    Scaled(unit, rate, t);
    assert t * rate == rate * t;
    assert unit * (t - taken) == unit * t - unit * taken;
    assert unit * (t - taken) < 3 * unit;
    if t - taken >= 3 {
      Scaled(3, t - taken, unit);
    }
  }

  lemma NetWithoutPaye(y: Year, p: Pay, rules: Rules, total: nat)
    requires IsYear(y) && AreRules(rules) && IsPackage(p)
    ensures var a := PackageFigures(y, p, rules, total); a.net <= total + p.other - a.pension - a.nhf
  {
    ScaleConserves(p, total);
    hide Scale, Part, Tax, RentRelief, AreBands;
  }

  lemma CappedByTax(y: Year, p: Pay, rules: Rules, total: nat)
    requires IsYear(y) && AreRules(rules) && IsPackage(p) && TopRate(rules.bands) == Money.PPM
    ensures PackageFigures(y, p, rules, total).net <= PackageCap(y, p, rules)
  {
    ScaleConserves(p, total);
    hide Scale, Part, Tax, RentRelief, AreBands, TopRate, Width;
    FullTopRateTakesAll(PackageFigures(y, p, rules, total).chargeable, 0, rules.bands);
  }

  /** So some package of the shape nets every target if and only if it keeps
      something. */
  lemma EveryNetIsReachableIff(y: Year, p: Pay, loan: int, rules: Rules)
    requires IsYear(y) && AreRules(rules) && IsPackage(p) && loan >= 0 && p.other >= 0
    ensures (forall target: int :: IsReachable(PackageOutput(y, p, loan, rules), target)) <==> KeepsSomething(p, rules)
  {
    hide PackageNet, PackageFigures, KeepsSomething, EnoughPackage, PackageCap;
    var f := PackageOutput(y, p, loan, rules);
    if KeepsSomething(p, rules) {
      forall target: int
        ensures IsReachable(f, target)
      {
        var total := Max(0, EnoughPackage(y, p, loan, rules, target));
        PackageIsEnough(y, p, loan, rules, target, total);
        PackageNetIs(y, p, loan, rules, total);
        assert Reaches(f, total, target);
      }
    } else {
      var target := PackageCap(y, p, rules) + 1;
      forall total: nat
        ensures !Reaches(f, total, target)
      {
        PackageIsCapped(y, p, rules, total);
        PackageNetIs(y, p, loan, rules, total);
      }
      assert !IsReachable(f, target);
    }
  }

  /** And then the search never runs out of doublings, up to a bound on the
      target. */
  lemma PackageIsAlwaysBracketed(y: Year, p: Pay, loan: int, rules: Rules, target: int, seed: int)
    requires IsYear(y) && AreRules(rules) && IsPackage(p) && loan >= 0 && p.other >= 0 && KeepsSomething(p, rules)
    requires EnoughPackage(y, p, loan, rules, target) <= Pow2(MAX_ITERATIONS - 1) && seed <= Pow2(MAX_ITERATIONS)
    ensures Fits(PackageOutput(y, p, loan, rules), target, seed)
    ensures var b := Bracket(PackageOutput(y, p, loan, rules), target, Max(seed, 1), MAX_ITERATIONS);
            b.Err? ==> b.error != NoBracket
  {
    hide PackageNet, PackageFigures, MAX_ITERATIONS, EnoughPackage, KeepsSomething, Pow2;
    var f, enough := PackageOutput(y, p, loan, rules), EnoughPackage(y, p, loan, rules, target);
    PackageNeverRaisesNoBracket(y, p, loan, rules);
    forall x | 0 < x && enough <= x
      ensures Reaches(f, x, target)
    {
      PackageIsEnough(y, p, loan, rules, target, x);
      PackageNetIs(y, p, loan, rules, x);
    }
    BracketAppears(f, target, seed, enough);
  }

  // ----- Two inputs that defeat the package solver -----

  const FIRST_OF_YEAR: Year := Year(0, 1, 12, 0, 0, 0, 0)

  /** Pension 8%, housing fund 2.5%, nothing taxed below 80,000,000. */
  const EXAMPLE_RULES: Rules :=
    Rules([Band(Some(80_000_000), 0), Band(None, 150_000)], 80_000, 25_000, 200_000, 50_000_000)

  lemma ExampleNet(total: nat)
    requires total <= 1_000
    ensures AreRules(EXAMPLE_RULES)
    ensures PackageNet(FIRST_OF_YEAR, Pay(5, 3, 0, 0), 0, EXAMPLE_RULES, total)
            == Ok(total - (total * 80_000 + 500_000) / 1_000_000 - ((5 * total / 8) * 25_000 + 500_000) / 1_000_000)
  {
    hide Part, Tax, RentRelief, AreBands, ComputePayslip, EXAMPLE_RULES;
    var q := Scale(Pay(5, 3, 0, 0), total);
    ScaleConserves(Pay(5, 3, 0, 0), total);
    ExampleParts(total, q.basic);
    ExampleSlip(q, (total * 80_000 + 500_000) / 1_000_000, (q.basic * 25_000 + 500_000) / 1_000_000);
  }

  lemma ExampleParts(total: nat, basic: nat)
    requires basic <= total
    ensures Part(total, 80_000) == (total * 80_000 + 500_000) / 1_000_000
    ensures Part(basic, 25_000) == (basic * 25_000 + 500_000) / 1_000_000
    ensures (total * 80_000 + 500_000) / 1_000_000 + (basic * 25_000 + 500_000) / 1_000_000 <= total
  {
  }

  lemma ExampleSlip(q: Pay, pension: nat, nhf: nat)
    requires q.basic >= 0 && q.housing >= 0 && q.transport >= 0 && q.other == 0
    requires pension + nhf <= q.basic + q.housing + q.transport <= 1_000
    requires pension == Part(q.basic + q.housing + q.transport, 80_000)
    requires nhf == Part(q.basic, 25_000)
    ensures AreRules(EXAMPLE_RULES)
    ensures var net := q.basic + q.housing + q.transport - pension - nhf;
            var slip := ComputePayslip(FIRST_OF_YEAR, q, 0, EXAMPLE_RULES);
            slip.Ok? && slip.value.net == net
  {
    hide Part, Tax, RentRelief;
    ExampleIsUntaxed(q.basic + q.housing + q.transport - pension - nhf);
  }

  lemma ExampleIsUntaxed(income: nat)
    requires income <= 1_000
    ensures AreRules(EXAMPLE_RULES) && RentRelief(FIRST_OF_YEAR, EXAMPLE_RULES) == 0
    ensures Tax(income, 0, EXAMPLE_RULES.bands) == 0
  {
    assert AreBands(EXAMPLE_RULES.bands[1..], 80_000_000);
    PartOfNothing(EXAMPLE_RULES.rentReliefRate);
  }

  /** A package of shape 5 : 3 : 0 nets 29 at a total of 31, but 28 at 32, and the
      solver, asked for 29, answers 33. */
  lemma PackageSolverCanMissTheLeast()
    ensures AreRules(EXAMPLE_RULES)
    ensures PackageNet(FIRST_OF_YEAR, Pay(5, 3, 0, 0), 0, EXAMPLE_RULES, 31) == Ok(29)
    ensures PackageNet(FIRST_OF_YEAR, Pay(5, 3, 0, 0), 0, EXAMPLE_RULES, 32) == Ok(28)
    ensures Solution(PackageOutput(FIRST_OF_YEAR, Pay(5, 3, 0, 0), 0, EXAMPLE_RULES), 29, 29) == Ok(33)
  {
    hide PackageNet, AreRules, EXAMPLE_RULES, Solution;
    ExampleNets();
    BisectionTrace(PackageOutput(FIRST_OF_YEAR, Pay(5, 3, 0, 0), 0, EXAMPLE_RULES));
  }

  /** Totals, and what each nets. */
  const EXAMPLES: set<(nat, int)> :=
    {(29, 27), (31, 29), (32, 28), (33, 29), (34, 30), (36, 32), (43, 39), (58, 52)}

  /** They do, worked out. */
  lemma ExampleNets()
    ensures AreRules(EXAMPLE_RULES)
    ensures forall total, net :: (total, net) in EXAMPLES
              ==> PackageNet(FIRST_OF_YEAR, Pay(5, 3, 0, 0), 0, EXAMPLE_RULES, total) == Ok(net)
  {
    hide PackageNet, AreRules, EXAMPLE_RULES;
    ExampleNet(0);
    forall total, net | (total, net) in EXAMPLES
      ensures PackageNet(FIRST_OF_YEAR, Pay(5, 3, 0, 0), 0, EXAMPLE_RULES, total) == Ok(net)
    {
      ExampleNet(total);
    }
  }

  lemma BisectionTrace(f: Output)
    requires f(29) == Ok(27) && f(58) == Ok(52) && f(43) == Ok(39) && f(36) == Ok(32)
    requires f(32) == Ok(28) && f(34) == Ok(30) && f(33) == Ok(29)
    ensures Solution(f, 29, 29) == Ok(33)
  {
    assert Bracket(f, 29, 58, 127) == Ok(58) == Bracket(f, 29, 29, 128);
    assert Narrow(f, 29, 32, 33, 122) == Ok(33) == Narrow(f, 29, 32, 34, 123);
    assert Narrow(f, 29, 32, 36, 124) == Narrow(f, 29, 29, 36, 125) == Ok(33);
    assert Narrow(f, 29, 29, 43, 126) == Narrow(f, 29, 29, 58, 127) == Narrow(f, 29, 0, 58, 128) == Ok(33);
  }

  /** More totals of that package, and what each nets. */
  const LARGER_EXAMPLES: set<(nat, int)> :=
    {(492, 445), (984, 890), (738, 667), (615, 556), (553, 500), (522, 472), (537, 486), (545, 492), (541, 490),
     (543, 492), (542, 491), (544, 491)}

  lemma LargerExampleNets()
    ensures AreRules(EXAMPLE_RULES)
    ensures forall total, net :: (total, net) in LARGER_EXAMPLES
              ==> PackageNet(FIRST_OF_YEAR, Pay(5, 3, 0, 0), 0, EXAMPLE_RULES, total) == Ok(net)
  {
    hide PackageNet, AreRules, EXAMPLE_RULES;
    ExampleNet(0);
    forall total, net | (total, net) in LARGER_EXAMPLES
      ensures PackageNet(FIRST_OF_YEAR, Pay(5, 3, 0, 0), 0, EXAMPLE_RULES, total) == Ok(net)
    {
      ExampleNet(total);
    }
  }

  /** A fall does not spoil the call of every package of its shape: this one nets
      492 at 543 and 491 at 544, and asked for 492 is solved at 543. */
  lemma FallNeedNotSpoilEveryCall()
    ensures AreRules(EXAMPLE_RULES)
    ensures PackageNet(FIRST_OF_YEAR, Pay(5, 3, 0, 0), 0, EXAMPLE_RULES, 543) == Ok(492)
    ensures PackageNet(FIRST_OF_YEAR, Pay(5, 3, 0, 0), 0, EXAMPLE_RULES, 544) == Ok(491)
    ensures Solution(PackageOutput(FIRST_OF_YEAR, Pay(5, 3, 0, 0), 0, EXAMPLE_RULES), 492, 492) == Ok(543)
  {
    hide PackageNet, AreRules, EXAMPLE_RULES, Solution;
    LargerExampleNets();
    LuckyTrace(PackageOutput(FIRST_OF_YEAR, Pay(5, 3, 0, 0), 0, EXAMPLE_RULES));
  }

  lemma LuckyTrace(f: Output)
    requires f(492) == Ok(445) && f(984) == Ok(890) && f(738) == Ok(667) && f(615) == Ok(556) && f(553) == Ok(500)
    requires f(522) == Ok(472) && f(537) == Ok(486) && f(545) == Ok(492) && f(541) == Ok(490)
    requires f(543) == Ok(492) && f(542) == Ok(491)
    ensures Solution(f, 492, 492) == Ok(543)
  {
    assert Bracket(f, 492, 984, 127) == Ok(984) == Bracket(f, 492, 492, 128);
    assert Narrow(f, 492, 542, 543, 119) == Ok(543) == Narrow(f, 492, 541, 543, 120);
    assert Narrow(f, 492, 541, 545, 121) == Narrow(f, 492, 537, 545, 122) == Ok(543);
    assert Narrow(f, 492, 522, 553, 123) == Narrow(f, 492, 492, 553, 124) == Ok(543);
    assert Narrow(f, 492, 492, 615, 125) == Narrow(f, 492, 492, 738, 126) == Ok(543);
    assert Narrow(f, 492, 492, 984, 127) == Narrow(f, 492, 0, 984, 128) == Ok(543);
  }

  /** A loan deduction can stop the solver altogether: with no other deduction, a
      package of 100 nets 40 after a loan of 60, yet asking for 40 raises, since
      the bisection first probes 50. */
  lemma LoanCanStopTheSolver(rules: Rules)
    requires AreRules(rules) && rules.bands == [] && rules.pensionRate == 0 && rules.nhfRate == 0
    ensures PackageNet(FIRST_OF_YEAR, Pay(100, 0, 0, 0), 60, rules, 100) == Ok(40)
    ensures Solution(PackageOutput(FIRST_OF_YEAR, Pay(100, 0, 0, 0), 60, rules), 40, 100) == Err(LoanExceedsNet)
  {
    var p := Pay(100, 0, 0, 0);
    assert Scale(p, 100) == p && Scale(p, 50) == Pay(50, 0, 0, 0);
    var f := PackageOutput(FIRST_OF_YEAR, p, 60, rules);
    assert f(100) == Ok(40) && f(50) == Err(LoanExceedsNet);
    assert Bracket(f, 40, 100, 128) == Ok(100);
  }
}
