/** Fixed-point rates on integer minor units (app/domain/money.py). */
module Money {
  import opened Base

  datatype MoneyError = NegativeAmount | NegativeRate

  const PPM: int := 1_000_000
  const HALF: int := 500_000

  /** Rounds amount * rate / 1_000_000, or rejects a negative argument. */
  function ApplyRatePpm(amount: int, rate: int): (r: Result<int, MoneyError>)
    ensures r.Ok? <==> amount >= 0 && rate >= 0
    ensures r.Ok? ==> r.value >= 0
  {
    if amount < 0 then Err(NegativeAmount)
    else if rate < 0 then Err(NegativeRate)
    else
      assert amount * rate >= 0;
      Ok(Rounded(amount * rate))
  }

  /** Round half up: `scaled` counts millionths. */
  function Rounded(scaled: int): int {
    (scaled + HALF) / PPM
  }

  /** `r` is within half a unit of scaled / 1_000_000, and a tie goes up. */
  predicate IsNearestTiesUp(scaled: int, r: int) {
    2 * PPM * r - PPM <= 2 * scaled < 2 * PPM * r + PPM
  }

  /** Rounded is the one integer that is nearest, ties up. */
  lemma RoundedIsTheNearest(scaled: int, r: int)
    ensures IsNearestTiesUp(scaled, r) <==> r == Rounded(scaled)
  {
  }

  /** Order in either argument is kept, and a rate of at most 100% never
      takes more than the amount. */
  lemma ApplyRateIsMonotone(a: int, b: int, p: int, q: int)
    requires 0 <= a <= b && 0 <= p <= q
    ensures ApplyRatePpm(a, p).value <= ApplyRatePpm(b, q).value
    ensures q <= PPM ==> ApplyRatePpm(b, q).value <= b
  {
    assert a * p <= b * q by {
      assert a * p <= b * p;
      assert b * p <= b * q;
    }
    if q <= PPM {
      assert b * q <= b * PPM;
    }
  }

  /** One more minor unit of income adds nothing or one unit, for a rate of at
      most 100%. */
  lemma ApplyRateStep(a: int, p: int)
    requires 0 <= a && 0 <= p <= PPM
    ensures 0 <= ApplyRatePpm(a + 1, p).value - ApplyRatePpm(a, p).value <= 1
  {
    assert (a + 1) * p == a * p + p;
  }

  /** A rate below 50% never rounds up to the whole of a positive amount. */
  lemma LowRateLeavesARest(a: int, p: int)
    requires a > 0 && 0 <= p < HALF
    ensures ApplyRatePpm(a, p).value < a
  {
    ScaledBelow(a, p, HALF - 1);
    RoundedBelow(a, a * p);
  }

  lemma ScaledBelow(a: int, p: int, q: int)
    requires a >= 0 && p <= q
    ensures a * p <= a * q
  {
  }

  lemma RoundedBelow(a: int, scaled: int)
    requires a > 0 && scaled <= a * (HALF - 1)
    ensures Rounded(scaled) < a
  {
  }

  function Sum(xs: seq<int>): int {
    if xs == [] then 0 else xs[0] + Sum(xs[1..])
  }

  /** Each amount rounded on its own, then added up. */
  function SumRounded(xs: seq<int>, rate: int): int
    requires rate >= 0
    requires forall i :: 0 <= i < |xs| ==> xs[i] >= 0
  {
    if xs == [] then 0 else ApplyRatePpm(xs[0], rate).value + SumRounded(xs[1..], rate)
  }

  /** Rounding n amounts one by one strays from the exact total by at most n/2. */
  lemma {:induction false} SumRoundedNearExact(xs: seq<int>, rate: int)
    requires rate >= 0
    requires forall i :: 0 <= i < |xs| ==> xs[i] >= 0
    ensures Sum(xs) >= 0
    ensures -HALF * |xs| <= PPM * SumRounded(xs, rate) - Sum(xs) * rate <= HALF * |xs|
    ensures |xs| > 0 ==> -HALF * |xs| < PPM * SumRounded(xs, rate) - Sum(xs) * rate
  {
    if xs != [] {
      hide ApplyRatePpm;
      SumRoundedNearExact(xs[1..], rate);
      PartNearExact(xs[0], rate);
      Distribute(xs[0], Sum(xs[1..]), rate);
    }
  }

  /** One rounded amount is within half a unit of the exact one. */
  lemma PartNearExact(a: int, rate: int)
    requires a >= 0 && rate >= 0
    ensures -HALF < PPM * ApplyRatePpm(a, rate).value - a * rate <= HALF
  {
    RoundedIsTheNearest(a * rate, Rounded(a * rate));
  }

  lemma Distribute(a: int, b: int, rate: int)
    ensures (a + b) * rate == a * rate + b * rate
  {
  }

  /** The rounded parts differ from the rounded total by at most half a unit
      per part: n/2, one half less than the (n+1)/2 of naive counting. */
  lemma SumOfRoundedVersusRoundedSum(xs: seq<int>, rate: int)
    requires rate >= 0
    requires forall i :: 0 <= i < |xs| ==> xs[i] >= 0
    ensures Sum(xs) >= 0
    ensures -|xs| <= 2 * (SumRounded(xs, rate) - ApplyRatePpm(Sum(xs), rate).value) <= |xs|
  {
    SumRoundedNearExact(xs, rate);
    RoundedIsTheNearest(Sum(xs) * rate, Rounded(Sum(xs) * rate));
  }

  function Ones(n: nat): (s: seq<int>)
    ensures |s| == n && forall i :: 0 <= i < n ==> s[i] == 1
  {
    if n == 0 then [] else [1] + Ones(n - 1)
  }

  /** The bound is attained for every n: n parts of one unit at 50% drift by
      n/2, rounded down. */
  lemma {:induction false} SumOfRoundedBoundIsTight(n: nat)
    ensures SumRounded(Ones(n), HALF) == n && Sum(Ones(n)) == n
    ensures SumRounded(Ones(n), HALF) - ApplyRatePpm(n, HALF).value == n / 2
  {
    if n > 0 {
      SumOfRoundedBoundIsTight(n - 1);
      assert Ones(n)[1..] == Ones(n - 1);
    }
  }
}
