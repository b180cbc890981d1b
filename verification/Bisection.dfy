/** The search shared by the gross-up solvers: double until the target is
    reached, then halve (app/domain/payroll/gross_up.py:15-41). */
module Bisection {
  import opened Base
  import opened Payslips

  const MAX_ITERATIONS: nat := 128

  /** What is solved for: an output for an input, or the error it raised. */
  type Output = int -> Result<int, PayError>

  /** Doubles `hi` until its output reaches the target. */
  function Bracket(f: Output, target: int, hi: int, tries: nat): Result<int, PayError>
    decreases tries
  {
    if tries == 0 then Err(NoBracket)
    else if f(hi).Err? then Err(f(hi).error)
    else if f(hi).value >= target then Ok(hi)
    else Bracket(f, target, hi * 2, tries - 1)
  }

  /** Halves (lo, hi] while it is wider than one unit. */
  function Narrow(f: Output, target: int, lo: int, hi: int, tries: nat): Result<int, PayError>
    decreases tries
  {
    if tries == 0 || hi - lo <= 1 then Ok(hi)
    else
      var mid := (lo + hi) / 2;
      if f(mid).Err? then Err(f(mid).error)
      else if f(mid).value >= target then Narrow(f, target, lo, mid, tries - 1)
      else Narrow(f, target, mid, hi, tries - 1)
  }

  /** The search with `limit` doublings and `limit` halvings. */
  function Search(f: Output, target: int, seed: int, limit: nat): Result<int, PayError> {
    if target <= 0 then Ok(0)
    else
      var hi := Bracket(f, target, Max(seed, 1), limit);
      if hi.Err? then hi else Narrow(f, target, 0, hi.value, limit)
  }

  function Solution(f: Output, target: int, seed: int): Result<int, PayError> {
    Search(f, target, seed, MAX_ITERATIONS)
  }

  /** The inputs the doubling evaluates, in order. */
  function BracketProbes(f: Output, target: int, hi: int, tries: nat): seq<int>
    decreases tries
  {
    if tries == 0 then []
    else if f(hi).Err? || f(hi).value >= target then [hi]
    else [hi] + BracketProbes(f, target, hi * 2, tries - 1)
  }

  /** And those the halving does. */
  function NarrowProbes(f: Output, target: int, lo: int, hi: int, tries: nat): seq<int>
    decreases tries
  {
    if tries == 0 || hi - lo <= 1 then []
    else
      var mid := (lo + hi) / 2;
      if f(mid).Err? then [mid]
      else if f(mid).value >= target then [mid] + NarrowProbes(f, target, lo, mid, tries - 1)
      else [mid] + NarrowProbes(f, target, mid, hi, tries - 1)
  }

  /** Every input the search evaluates. */
  function Probes(f: Output, target: int, seed: int, limit: nat): seq<int> {
    if target <= 0 then []
    else
      var hi := Bracket(f, target, Max(seed, 1), limit);
      BracketProbes(f, target, Max(seed, 1), limit)
      + if hi.Ok? then NarrowProbes(f, target, 0, hi.value, limit) else []
  }

  lemma BracketThenNarrow(f: Output, target: int, seed: int)
    ensures target <= 0 ==> Solution(f, target, seed) == Ok(0) && Probes(f, target, seed, MAX_ITERATIONS) == []
    ensures target > 0 ==>
              var b := Bracket(f, target, Max(seed, 1), MAX_ITERATIONS);
              var doubled := BracketProbes(f, target, Max(seed, 1), MAX_ITERATIONS);
              && Solution(f, target, seed) == (if b.Err? then b else Narrow(f, target, 0, b.value, MAX_ITERATIONS))
              && Probes(f, target, seed, MAX_ITERATIONS)
                 == doubled + if b.Err? then [] else NarrowProbes(f, target, 0, b.value, MAX_ITERATIONS)
  {
    hide MAX_ITERATIONS;
  }

  /** One turn of the doubling, after `before` was probed. */
  lemma DoublesOnce(f: Output, target: int, hi: int, tries: nat, before: seq<int>)
    requires tries > 0
    ensures var b, probes := Bracket(f, target, hi, tries), before + BracketProbes(f, target, hi, tries);
            if f(hi).Err? then b == Err(f(hi).error) && probes == before + [hi]
            else if f(hi).value >= target then b == Ok(hi) && probes == before + [hi]
            else b == Bracket(f, target, hi * 2, tries - 1)
                 && probes == before + [hi] + BracketProbes(f, target, hi * 2, tries - 1)
  {
  }

  lemma DoublesNoMore(f: Output, target: int, hi: int, before: seq<int>)
    ensures Bracket(f, target, hi, 0) == Err(NoBracket) && before + BracketProbes(f, target, hi, 0) == before
  {
  }

  /** One turn of the halving. */
  lemma NarrowsOnce(f: Output, target: int, lo: int, hi: int, tries: nat, before: seq<int>)
    requires tries > 0 && hi - lo > 1
    ensures var r, probes := Narrow(f, target, lo, hi, tries), before + NarrowProbes(f, target, lo, hi, tries);
            var mid := (lo + hi) / 2;
            if f(mid).Err? then r == Err(f(mid).error) && probes == before + [mid]
            else if f(mid).value >= target
            then r == Narrow(f, target, lo, mid, tries - 1)
                 && probes == before + [mid] + NarrowProbes(f, target, lo, mid, tries - 1)
            else r == Narrow(f, target, mid, hi, tries - 1)
                 && probes == before + [mid] + NarrowProbes(f, target, mid, hi, tries - 1)
  {
    var mid := (lo + hi) / 2;
    var below, above := NarrowProbes(f, target, lo, mid, tries - 1), NarrowProbes(f, target, mid, hi, tries - 1);
    assert NarrowProbes(f, target, lo, hi, tries)
        == if f(mid).Err? then [mid] else if f(mid).value >= target then [mid] + below else [mid] + above;
    Appended(before, mid, below);
    Appended(before, mid, above);
  }

  lemma Appended(before: seq<int>, x: int, after: seq<int>)
    ensures before + ([x] + after) == before + [x] + after
  {
  }

  lemma NarrowsNoMore(f: Output, target: int, lo: int, hi: int, tries: nat, before: seq<int>)
    requires tries == 0 || hi - lo <= 1
    ensures Narrow(f, target, lo, hi, tries) == Ok(hi) && before + NarrowProbes(f, target, lo, hi, tries) == before
  {
  }

  /** _bisect_minimal_input_for_target_output. */
  method Bisect(f: Output, target: int, seed: int) returns (r: Result<int, PayError>, ghost probes: seq<int>)
    ensures r == Solution(f, target, seed)
    ensures r.Ok? && target > 0 ==> r.value > 0 && Reaches(f, r.value, target)
    ensures probes == Probes(f, target, seed, MAX_ITERATIONS)
  {
    hide MAX_ITERATIONS, Pow2, Reaches, Solution, Search, Probes, Bracket, BracketProbes, Narrow, NarrowProbes;
    SolutionReaches(f, target, seed);
    BracketThenNarrow(f, target, seed);
    probes := [];
    if target <= 0 {
      return Ok(0), probes;
    }
    var lo, hi := 0, Max(seed, 1);
    var tries := MAX_ITERATIONS;
    while tries > 0
      invariant 0 <= tries <= MAX_ITERATIONS
      invariant Bracket(f, target, hi, tries) == Bracket(f, target, Max(seed, 1), MAX_ITERATIONS)
      invariant probes + BracketProbes(f, target, hi, tries) == BracketProbes(f, target, Max(seed, 1), MAX_ITERATIONS)
    {
      var output := f(hi);
      DoublesOnce(f, target, hi, tries, probes);
      probes := probes + [hi];
      if output.Err? {
        return Err(output.error), probes;
      }
      if output.value >= target {
        break;
      }
      hi := hi * 2;
      tries := tries - 1;
    }
    DoublesNoMore(f, target, hi, probes);
    if tries == 0 {
      return Err(NoBracket), probes;
    }
    tries := MAX_ITERATIONS;
    while tries > 0 && hi - lo > 1
      invariant 0 <= tries <= MAX_ITERATIONS
      invariant Narrow(f, target, lo, hi, tries) == Solution(f, target, seed)
      invariant probes + NarrowProbes(f, target, lo, hi, tries) == Probes(f, target, seed, MAX_ITERATIONS)
    {
      var mid := (lo + hi) / 2;
      var output := f(mid);
      NarrowsOnce(f, target, lo, hi, tries, probes);
      probes := probes + [mid];
      if output.Err? {
        return Err(output.error), probes;
      }
      if output.value >= target {
        hi := mid;
      } else {
        lo := mid;
      }
      tries := tries - 1;
    }
    NarrowsNoMore(f, target, lo, hi, tries, probes);
    return Ok(hi), probes;
  }

  // ----- What any answer is -----

  predicate Reaches(f: Output, x: int, target: int) {
    f(x).Ok? && f(x).value >= target
  }

  function Pow2(n: nat): int {
    if n == 0 then 1 else 2 * Pow2(n - 1)
  }

  lemma {:induction false} BracketReaches(f: Output, target: int, hi: int, tries: nat)
    requires hi > 0 && Bracket(f, target, hi, tries).Ok?
    ensures var x := Bracket(f, target, hi, tries).value;
            && hi <= x && Reaches(f, x, target)
            && (x == hi || (x % 2 == 0 && hi <= x / 2 && f(x / 2).Ok? && f(x / 2).value < target))
    decreases tries
  {
    if f(hi).value < target {
      BracketReaches(f, target, hi * 2, tries - 1);
    }
  }

  /** Narrowing keeps the target reached and never comes down to `lo`. Where the
      tries can halve the whole interval, one unit less misses the target, or
      has never been looked at. */
  lemma {:induction false} NarrowReaches(f: Output, target: int, lo: int, hi: int, tries: nat)
    requires 0 <= lo < hi && Reaches(f, hi, target) && Narrow(f, target, lo, hi, tries).Ok?
    ensures var x := Narrow(f, target, lo, hi, tries).value;
            && lo < x <= hi && Reaches(f, x, target)
            && (hi - lo <= Pow2(tries) ==> x == lo + 1 || (f(x - 1).Ok? && f(x - 1).value < target))
    decreases tries
  {
    if tries > 0 && hi - lo > 1 {
      var mid := (lo + hi) / 2;
      if f(mid).value >= target {
        NarrowReaches(f, target, lo, mid, tries - 1);
      } else {
        NarrowReaches(f, target, mid, hi, tries - 1);
      }
    }
  }

  /** The bracket is one that 128 halvings can close. */
  predicate Fits(f: Output, target: int, seed: int) {
    var hi := Bracket(f, target, Max(seed, 1), MAX_ITERATIONS);
    hi.Ok? ==> hi.value <= Pow2(MAX_ITERATIONS)
  }

  /** Whatever the output does, raise included: an answer reaches the target. */
  lemma SolutionReaches(f: Output, target: int, seed: int)
    ensures var r := Solution(f, target, seed); r.Ok? && target > 0 ==> r.value > 0 && Reaches(f, r.value, target)
  {
    hide MAX_ITERATIONS;
    if target > 0 && Solution(f, target, seed).Ok? {
      BracketReaches(f, target, Max(seed, 1), MAX_ITERATIONS);
      NarrowReaches(f, target, 0, Bracket(f, target, Max(seed, 1), MAX_ITERATIONS).value, MAX_ITERATIONS);
    }
  }

  /** And one unit less misses it, unless the answer is a single unit. */
  lemma SolutionIsACrossing(f: Output, target: int, seed: int)
    requires target > 0 && Fits(f, target, seed) && Solution(f, target, seed).Ok?
    ensures var x := Solution(f, target, seed).value;
            x > 0 && Reaches(f, x, target) && (x == 1 || (f(x - 1).Ok? && f(x - 1).value < target))
  {
    SearchIsACrossing(f, target, seed, MAX_ITERATIONS);
  }

  lemma SearchIsACrossing(f: Output, target: int, seed: int, limit: nat)
    requires target > 0 && Search(f, target, seed, limit).Ok?
    requires Bracket(f, target, Max(seed, 1), limit).value <= Pow2(limit)
    ensures var x := Search(f, target, seed, limit).value;
            && 0 < x <= Bracket(f, target, Max(seed, 1), limit).value && Reaches(f, x, target)
            && (x == 1 || (f(x - 1).Ok? && f(x - 1).value < target))
  {
    hide Pow2;
    BracketReaches(f, target, Max(seed, 1), limit);
    NarrowReaches(f, target, 0, Bracket(f, target, Max(seed, 1), limit).value, limit);
  }

  /** An output that never raises has an answer wherever it has a bracket. */
  lemma TotalSolution(f: Output, target: int, seed: int)
    requires target > 0 && Bracket(f, target, Max(seed, 1), MAX_ITERATIONS).Ok?
    requires forall x :: x > 0 ==> f(x).Ok?
    ensures Solution(f, target, seed).Ok?
  {
    hide MAX_ITERATIONS;
    BracketReaches(f, target, Max(seed, 1), MAX_ITERATIONS);
    NarrowIsTotal(f, target, 0, Bracket(f, target, Max(seed, 1), MAX_ITERATIONS).value, MAX_ITERATIONS);
  }

  // ----- When the answer is the least -----

  /** One more unit lowers an output that was worth something, or raises. */
  predicate FallsAt(f: Output, t: int) {
    f(t).Ok? && f(t).value > 0 && !Reaches(f, t + 1, f(t).value)
  }

  /** The solver's promise for one input z that reaches the target: an answer no
      greater than z. An error raised by the output itself is the only excuse. */
  predicate IsAtMost(r: Result<int, PayError>, z: int) {
    if r.Ok? then r.value <= z else r.error != NoBracket
  }

  /** For every target and seed, and every iteration limit that can double past
      z and halve back down, the answer is the least. */
  ghost predicate FindsTheLeast(f: Output) {
    forall target: int, seed: int, limit: nat, z: int ::
      InRange(target, seed, limit, z) && Reaches(f, z, target) ==> IsAtMost(Search(f, target, seed, limit), z)
  }

  predicate InRange(target: int, seed: int, limit: nat, z: int) {
    target > 0 && z > 0 && limit > 0 && z <= Pow2(limit - 1) && seed <= Pow2(limit)
  }

  /** From a total that reaches the target, an output that never falls reaches
      it ever after. */
  lemma {:induction false} ReachesEverAfter(f: Output, target: int, z: int, w: int)
    requires target > 0 && z <= w && Reaches(f, z, target) && forall t :: z <= t < w ==> !FallsAt(f, t)
    ensures Reaches(f, w, target)
    decreases w - z
  {
    if z < w {
      ReachesEverAfter(f, target, z, w - 1);
      assert !FallsAt(f, w - 1);
    }
  }

  lemma {:induction false} BracketFound(f: Output, target: int, hi: int, tries: nat, z: int)
    requires hi > 0 && tries > 0 && z <= hi * Pow2(tries - 1)
    requires forall w :: z <= w && (w == hi || w < 2 * z) ==> Reaches(f, w, target)
    requires forall x :: f(x).Err? ==> f(x).error != NoBracket
    ensures var b := Bracket(f, target, hi, tries);
            if b.Ok? then b.value == hi || b.value < 2 * z else b.error != NoBracket
    decreases tries
  {
    if f(hi).Ok? && f(hi).value < target {
      assert !Reaches(f, hi, target);
      Doubled(hi, tries - 1, z);
      assert hi * 2 < 2 * z;
      BracketFound(f, target, hi * 2, tries - 1, z);
    }
  }

  lemma Doubled(hi: int, n: nat, z: int)
    requires hi < z <= hi * Pow2(n)
    ensures n > 0 && z <= hi * 2 * Pow2(n - 1)
  {
    assert Pow2(0) == 1;
    assert hi * (2 * Pow2(n - 1)) == hi * 2 * Pow2(n - 1);
  }

  lemma {:induction false} NarrowRaisesOnly(f: Output, target: int, lo: int, hi: int, tries: nat)
    requires forall x :: f(x).Err? ==> f(x).error != NoBracket
    ensures var r := Narrow(f, target, lo, hi, tries); r.Err? ==> r.error != NoBracket
    decreases tries
  {
    if tries > 0 && hi - lo > 1 {
      var mid := (lo + hi) / 2;
      NarrowRaisesOnly(f, target, lo, mid, tries - 1);
      NarrowRaisesOnly(f, target, mid, hi, tries - 1);
    }
  }

  /** An output that falls nowhere within reach is searched to its least input,
      if it does not raise. */
  lemma NoFallFindsTheLeast(f: Output, target: int, seed: int, limit: nat, z: int)
    requires forall x :: f(x).Err? ==> f(x).error != NoBracket
    requires forall t :: 0 < t < Pow2(limit) ==> !FallsAt(f, t)
    requires InRange(target, seed, limit, z) && Reaches(f, z, target)
    ensures IsAtMost(Search(f, target, seed, limit), z)
  {
    assert Pow2(limit) == 2 * Pow2(limit - 1);
    PowersClimb(0, limit);
    forall w | z <= w <= Pow2(limit)
      ensures Reaches(f, w, target)
    {
      ReachesEverAfter(f, target, z, w);
    }
    ReachedIsAtMost(f, target, seed, limit, z);
  }

  /** The same where the target is reached ever after z, within the limit. */
  lemma ReachedIsAtMost(f: Output, target: int, seed: int, limit: nat, z: int)
    requires forall x :: f(x).Err? ==> f(x).error != NoBracket
    requires forall w :: z <= w <= Pow2(limit) ==> Reaches(f, w, target)
    requires InRange(target, seed, limit, z)
    ensures IsAtMost(Search(f, target, seed, limit), z)
  {
    var hi := Max(seed, 1);
    assert Pow2(limit) == 2 * Pow2(limit - 1);
    PowersClimb(0, limit);
    AtLeast(hi, limit - 1, z);
    hide Pow2;
    BracketFound(f, target, hi, limit, z);
    SearchRaisesOnly(f, target, seed, limit);
    hide Search, Bracket;
    if Search(f, target, seed, limit).Ok? {
      SearchIsACrossing(f, target, seed, limit);
      assert Search(f, target, seed, limit).value == 1 || !Reaches(f, Search(f, target, seed, limit).value - 1, target);
    }
  }

  /** A search that found its bracket raises what the output raises, or nothing. */
  lemma SearchRaisesOnly(f: Output, target: int, seed: int, limit: nat)
    requires target > 0 && forall x :: f(x).Err? ==> f(x).error != NoBracket
    ensures var b, r := Bracket(f, target, Max(seed, 1), limit), Search(f, target, seed, limit);
            (r.Ok? ==> b.Ok?) && (b.Ok? && r.Err? ==> r.error != NoBracket) && (b.Err? ==> r == b)
  {
    if Bracket(f, target, Max(seed, 1), limit).Ok? {
      NarrowRaisesOnly(f, target, 0, Bracket(f, target, Max(seed, 1), limit).value, limit);
    }
  }

  lemma AtLeast(hi: int, n: nat, z: int)
    requires hi >= 1 && 0 < z <= Pow2(n)
    ensures z <= hi * Pow2(n)
  {
    assert (hi - 1) * Pow2(n) >= 0;
  }

  lemma {:induction false} PowersClimb(m: nat, n: nat)
    requires m <= n
    ensures 0 < Pow2(m) <= Pow2(n)
    decreases n
  {
    if n > m {
      PowersClimb(m, n - 1);
    } else if m > 0 {
      PowersClimb(m - 1, m - 1);
    }
  }

  lemma {:induction false} PowerAbove(n: nat)
    ensures n < Pow2(n)
  {
    if n > 0 {
      PowerAbove(n - 1);
    }
  }

  /** Halving h, j times over, comes down to m. */
  predicate HalvesTo(h: int, j: nat, m: int) {
    Pow2(j) * m <= h < Pow2(j) * (m + 1)
  }

  lemma HalvesOnce(h: int, j: nat, m: int)
    requires HalvesTo(h, j, m) && m > 0
    ensures 0 < m <= h
    ensures if j == 0 then h == m else HalvesTo(h / 2, j - 1, m) && 2 * m <= h
  {
    if j == 0 {
      assert Pow2(0) == 1;
    } else {
      PowersClimb(0, j - 1);
      assert Pow2(j) == 2 * Pow2(j - 1);
      AtLeastOnce(Pow2(j - 1), m);
      TwiceProduct(Pow2(j - 1), m);
      TwiceProduct(Pow2(j - 1), m + 1);
      HalfBetween(h, Pow2(j - 1) * m, Pow2(j - 1) * (m + 1));
    }
  }

  lemma AtLeastOnce(n: int, m: int)
    requires n > 0 && m > 0
    ensures n <= n * m && m <= n * m
  {
    assert (n - 1) * m >= 0 && n * (m - 1) >= 0;
  }

  lemma TwiceProduct(n: int, m: int)
    ensures 2 * n * m == 2 * (n * m)
  {
  }

  lemma HalfBetween(h: int, a: int, b: int)
    requires 2 * a <= h < 2 * b
    ensures a <= h / 2 < b
  {
  }

  /** Narrowing down from such an h stays above an m that misses the target, and
      does not raise if nothing from m on does. */
  lemma {:induction false} NarrowStaysAbove(f: Output, target: int, h: int, j: nat, m: int, tries: nat)
    requires m > 0 && HalvesTo(h, j, m) && Reaches(f, h, target) && !Reaches(f, m, target)
    ensures var r := Narrow(f, target, 0, h, tries);
            && (r.Ok? ==> r.value > m)
            && ((forall x :: x >= m ==> f(x).Ok?) ==> r.Ok?)
    decreases tries
  {
    hide HalvesTo;
    HalvesOnce(h, j, m);
    if tries > 0 {
      var mid := h / 2;
      if Reaches(f, mid, target) {
        NarrowStaysAbove(f, target, mid, j - 1, m, tries - 1);
      } else if f(mid).Ok? {
        HalvesOnce(mid, j - 1, m);
        if Narrow(f, target, mid, h, tries - 1).Ok? {
          NarrowReaches(f, target, mid, h, tries - 1);
        }
        if forall x :: x >= m ==> f(x).Ok? {
          NarrowIsTotal(f, target, mid, h, tries - 1);
        }
      } else {
        HalvesOnce(mid, j - 1, m);
      }
    }
  }

  /** A fall defeats the search from every seed that halves to t + 1: asked for
      what t gives, it never comes back down to t. Nor does it raise on the way,
      if nothing past t raises: it answers too much, or finds no bracket. */
  lemma FallDefeatsTheSearch(f: Output, t: nat, seed: int, j: nat, limit: nat)
    requires FallsAt(f, t) && HalvesTo(seed, j, t + 1)
    ensures var r := Search(f, f(t).value, seed, limit);
            && (r.Ok? ==> r.value > t + 1)
            && ((forall x :: x > t ==> f(x).Ok?) ==> !IsAtMost(r, t))
  {
    HalvesOnce(seed, j, t + 1);
    var target, b := f(t).value, Bracket(f, f(t).value, seed, limit);
    if b.Ok? {
      BracketReaches(f, target, seed, limit);
      if b.value == seed {
        NarrowStaysAbove(f, target, seed, j, t + 1, limit);
      } else {
        DoubledStaysAbove(f, target, b.value, t + 1, limit);
      }
    }
    if forall x :: x > t ==> f(x).Ok? {
      TotalBracket(f, target, seed, limit);
    }
  }

  lemma DoubledStaysAbove(f: Output, target: int, h: int, m: int, limit: nat)
    requires limit > 0 && 0 < m <= h / 2 && Reaches(f, h, target) && f(h / 2).Ok? && !Reaches(f, h / 2, target)
    ensures var r := Narrow(f, target, 0, h, limit);
            && (r.Ok? ==> r.value > m)
            && ((forall x :: x >= m ==> f(x).Ok?) ==> r.Ok?)
  {
    if Narrow(f, target, h / 2, h, limit - 1).Ok? {
      NarrowReaches(f, target, h / 2, h, limit - 1);
    }
    if forall x :: x >= m ==> f(x).Ok? {
      NarrowIsTotal(f, target, h / 2, h, limit - 1);
    }
  }

  lemma {:induction false} TotalBracket(f: Output, target: int, hi: int, tries: nat)
    requires hi > 0 && forall x :: x >= hi ==> f(x).Ok?
    ensures var b := Bracket(f, target, hi, tries); b.Ok? || b.error == NoBracket
    decreases tries
  {
    if tries > 0 && f(hi).value < target {
      TotalBracket(f, target, hi * 2, tries - 1);
    }
  }

  lemma {:induction false} NarrowIsTotal(f: Output, target: int, lo: int, hi: int, tries: nat)
    requires lo < hi && forall x :: x > lo ==> f(x).Ok?
    ensures Narrow(f, target, lo, hi, tries).Ok?
    decreases tries
  {
    if tries > 0 && hi - lo > 1 {
      var mid := (lo + hi) / 2;
      NarrowIsTotal(f, target, lo, mid, tries - 1);
      NarrowIsTotal(f, target, mid, hi, tries - 1);
    }
  }

  /** Both ways, for an output that once worth something never raises again: the
      search finds the least input for every target, seed and limit if and only
      if the output falls nowhere. */
  lemma FindsTheLeastIff(f: Output)
    requires forall x :: f(x).Err? ==> f(x).error != NoBracket
    requires forall t, x :: 0 < t < x && f(t).Ok? && f(t).value > 0 ==> f(x).Ok?
    ensures FindsTheLeast(f) <==> forall t :: t > 0 ==> !FallsAt(f, t)
  {
    if forall t :: t > 0 ==> !FallsAt(f, t) {
      forall target, seed, limit: nat, z | InRange(target, seed, limit, z) && Reaches(f, z, target)
        ensures IsAtMost(Search(f, target, seed, limit), z)
      {
        NoFallFindsTheLeast(f, target, seed, limit, z);
      }
    }
    if t :| t > 0 && FallsAt(f, t) {
      PowerAbove(t + 1);
      assert Pow2(t + 2) == 2 * Pow2(t + 1);
      assert InRange(f(t).value, 2 * (t + 1), t + 2, t) && Reaches(f, t, f(t).value);
      assert HalvesTo(2 * (t + 1), 1, t + 1) by {
        assert Pow2(1) == 2;
      }
      FallDefeatsTheSearch(f, t, 2 * (t + 1), 1, t + 2);
    }
  }

  // ----- When the search raises -----

  /** The first of h, h / 2, h / 4, ... that does not reach the target. */
  function FirstMiss(f: Output, target: int, h: int, tries: nat): Option<int>
    decreases tries
  {
    if !Reaches(f, h, target) then Some(h)
    else if tries == 0 || h <= 1 then None
    else FirstMiss(f, target, h / 2, tries - 1)
  }

  lemma {:induction false} FirstMissIsPositive(f: Output, target: int, h: int, tries: nat)
    requires h > 0
    ensures FirstMiss(f, target, h, tries).Some? ==> FirstMiss(f, target, h, tries).value > 0
    decreases tries
  {
    if Reaches(f, h, target) && tries > 0 && h > 1 {
      FirstMissIsPositive(f, target, h / 2, tries - 1);
    }
  }

  lemma {:induction false} NarrowRaisesAtFirstMiss(f: Output, target: int, h: int, tries: nat)
    requires h > 0 && Reaches(f, h, target)
    ensures var m, r := FirstMiss(f, target, h, tries), Narrow(f, target, 0, h, tries);
            && (m.None? ==> r.Ok?)
            && (m.Some? && f(m.value).Err? ==> r == Err(f(m.value).error))
            && (m.Some? && f(m.value).Ok? && (forall x :: x > m.value ==> f(x).Ok?) ==> r.Ok?)
    decreases tries
  {
    if tries > 0 && h > 1 {
      var mid := h / 2;
      if Reaches(f, mid, target) {
        NarrowRaisesAtFirstMiss(f, target, mid, tries - 1);
      } else if f(mid).Ok? && forall x :: x > mid ==> f(x).Ok? {
        NarrowIsTotal(f, target, mid, h, tries - 1);
      }
    }
  }

  lemma NoMissNoError(f: Output, target: int, seed: int)
    requires target > 0 && FirstMiss(f, target, Max(seed, 1), MAX_ITERATIONS).None?
    ensures Solution(f, target, seed).Ok?
  {
    NarrowRaisesAtFirstMiss(f, target, Max(seed, 1), MAX_ITERATIONS);
  }

  /** If nothing past the first probe that misses the target raises, the search
      raises if and only if that probe does, among the seed and its successive
      halves; and it raises that error. */
  lemma RaisesIffFirstMissDoes(f: Output, target: int, seed: int)
    requires target > 0
    requires forall x :: f(x).Err? ==> f(x).error != NoBracket
    requires var m := FirstMiss(f, target, Max(seed, 1), MAX_ITERATIONS);
             m.Some? && f(m.value).Ok? ==> forall x :: x > m.value ==> f(x).Ok?
    ensures var m, r := FirstMiss(f, target, Max(seed, 1), MAX_ITERATIONS), Solution(f, target, seed);
            && (r.Err? && r.error != NoBracket <==> m.Some? && f(m.value).Err?)
            && (m.Some? && f(m.value).Err? ==> r.error == f(m.value).error)
  {
    var h := Max(seed, 1);
    if Reaches(f, h, target) {
      NarrowRaisesAtFirstMiss(f, target, h, MAX_ITERATIONS);
    } else if f(h).Ok? {
      TotalBracket(f, target, h, MAX_ITERATIONS);
      var b := Bracket(f, target, h, MAX_ITERATIONS);
      if b.Ok? {
        BracketReaches(f, target, h, MAX_ITERATIONS);
        NarrowIsTotal(f, target, b.value / 2, b.value, MAX_ITERATIONS - 1);
      }
    }
  }

  /** In any case it raises exactly when one of its probes does. */
  lemma RaisesIffAProbeDoes(f: Output, target: int, seed: int, limit: nat)
    requires forall x :: f(x).Err? ==> f(x).error != NoBracket
    ensures var r, probes := Search(f, target, seed, limit), Probes(f, target, seed, limit);
            && (r.Err? && r.error != NoBracket <==> exists x :: x in probes && f(x).Err?)
            && (r.Err? && r.error != NoBracket ==> exists x :: x in probes && f(x) == r)
  {
    BracketRaises(f, target, Max(seed, 1), limit);
    var b := Bracket(f, target, Max(seed, 1), limit);
    if b.Ok? {
      NarrowRaises(f, target, 0, b.value, limit);
    }
  }

  lemma {:induction false} BracketRaises(f: Output, target: int, hi: int, tries: nat)
    requires forall x :: f(x).Err? ==> f(x).error != NoBracket
    ensures var b, probes := Bracket(f, target, hi, tries), BracketProbes(f, target, hi, tries);
            && (b.Err? && b.error != NoBracket <==> exists x :: x in probes && f(x).Err?)
            && (b.Err? && b.error != NoBracket ==> exists x :: x in probes && f(x) == b)
    decreases tries
  {
    if tries > 0 && f(hi).Ok? && f(hi).value < target {
      BracketRaises(f, target, hi * 2, tries - 1);
    }
  }

  lemma {:induction false} NarrowRaises(f: Output, target: int, lo: int, hi: int, tries: nat)
    ensures var r, probes := Narrow(f, target, lo, hi, tries), NarrowProbes(f, target, lo, hi, tries);
            && (r.Err? <==> exists x :: x in probes && f(x).Err?)
            && (r.Err? ==> exists x :: x in probes && f(x) == r)
    decreases tries
  {
    if tries > 0 && hi - lo > 1 {
      var mid := (lo + hi) / 2;
      if f(mid).Ok? {
        if f(mid).value >= target {
          NarrowRaises(f, target, lo, mid, tries - 1);
        } else {
          NarrowRaises(f, target, mid, hi, tries - 1);
        }
      }
    }
  }

  /** Every probe reaches the target, or is the first miss or past it. */
  lemma ProbesPastFirstMiss(f: Output, target: int, seed: int, limit: nat, x: int)
    requires x in Probes(f, target, seed, limit)
    ensures var m := FirstMiss(f, target, Max(seed, 1), limit); Reaches(f, x, target) || (m.Some? && x >= m.value > 0)
  {
    var h := Max(seed, 1);
    BracketProbesAbove(f, target, h, limit);
    var b := Bracket(f, target, h, limit);
    if b.Ok? && x !in BracketProbes(f, target, h, limit) {
      BracketReaches(f, target, h, limit);
      if b.value == h {
        NarrowProbesPastFirstMiss(f, target, h, limit, x);
      } else {
        assert !Reaches(f, h, target);
        HalfOfDoubled(f, target, b.value, limit, x);
      }
    }
  }

  lemma HalfOfDoubled(f: Output, target: int, b: int, tries: nat, x: int)
    requires b > 1 && tries > 0 && f(b / 2).Ok? && f(b / 2).value < target && x in NarrowProbes(f, target, 0, b, tries)
    ensures x >= b / 2
  {
    NarrowProbesAbove(f, target, b / 2, b, tries - 1);
  }

  lemma {:induction false} BracketProbesAbove(f: Output, target: int, hi: int, tries: nat)
    requires hi > 0
    ensures forall x :: x in BracketProbes(f, target, hi, tries) ==> x >= hi
    decreases tries
  {
    if tries > 0 && f(hi).Ok? && f(hi).value < target {
      BracketProbesAbove(f, target, hi * 2, tries - 1);
    }
  }

  lemma {:induction false} NarrowProbesAbove(f: Output, target: int, lo: int, hi: int, tries: nat)
    ensures forall x :: x in NarrowProbes(f, target, lo, hi, tries) ==> x > lo
    decreases tries
  {
    if tries > 0 && hi - lo > 1 {
      var mid := (lo + hi) / 2;
      NarrowProbesAbove(f, target, lo, mid, tries - 1);
      NarrowProbesAbove(f, target, mid, hi, tries - 1);
    }
  }

  lemma {:induction false} NarrowProbesPastFirstMiss(f: Output, target: int, h: int, tries: nat, x: int)
    requires h > 0 && Reaches(f, h, target) && x in NarrowProbes(f, target, 0, h, tries)
    ensures var m := FirstMiss(f, target, h, tries); Reaches(f, x, target) || (m.Some? && x >= m.value > 0)
    decreases tries
  {
    var mid := h / 2;
    if x != mid {
      if Reaches(f, mid, target) {
        NarrowProbesPastFirstMiss(f, target, mid, tries - 1, x);
      } else {
        NarrowProbesAbove(f, target, mid, h, tries - 1);
      }
    }
  }

  // ----- When a bracket is found -----

  /** It is, once doubling can pass a point whose output, and every later one,
      reaches the target; or the output raises first. */
  lemma BracketAppears(f: Output, target: int, seed: int, enough: int)
    requires enough <= Pow2(MAX_ITERATIONS - 1) && seed <= Pow2(MAX_ITERATIONS)
    requires forall w :: 0 < w && enough <= w ==> Reaches(f, w, target)
    requires forall x :: f(x).Err? ==> f(x).error != NoBracket
    ensures Fits(f, target, seed)
    ensures var b := Bracket(f, target, Max(seed, 1), MAX_ITERATIONS); b.Err? ==> b.error != NoBracket
  {
    BracketWithin(f, target, seed, enough, MAX_ITERATIONS);
  }

  lemma BracketWithin(f: Output, target: int, seed: int, enough: int, limit: nat)
    requires limit > 0 && enough <= Pow2(limit - 1) && seed <= Pow2(limit)
    requires forall w :: 0 < w && enough <= w ==> Reaches(f, w, target)
    requires forall x :: f(x).Err? ==> f(x).error != NoBracket
    ensures var b := Bracket(f, target, Max(seed, 1), limit);
            if b.Ok? then b.value <= Pow2(limit) else b.error != NoBracket
  {
    var h, z := Max(seed, 1), Max(enough, 1);
    PowersClimb(0, limit - 1);
    AtLeast(h, limit - 1, z);
    BracketFound(f, target, h, limit, z);
    assert Pow2(limit) == 2 * Pow2(limit - 1);
  }
}
