/** Calendar recurrence (app/domain/recurrence.py) over the proleptic Gregorian
    calendar of Python's `date`, years 1 to 9999. */
module Recurrence {
  import opened Base

  const MIN_YEAR: int := 1
  const MAX_YEAR: int := 9999

  predicate IsLeap(year: int) {
    year % 4 == 0 && (year % 100 != 0 || year % 400 == 0)
  }

  function DaysInMonth(year: int, month: int): (n: int)
    requires 1 <= month <= 12
    ensures 28 <= n <= 31
  {
    if month == 2 then (if IsLeap(year) then 29 else 28)
    else if month in {4, 6, 9, 11} then 30
    else 31
  }

  datatype RawDate = RawDate(year: int, month: int, day: int)

  predicate IsDate(d: RawDate) {
    && MIN_YEAR <= d.year <= MAX_YEAR
    && 1 <= d.month <= 12
    && 1 <= d.day <= DaysInMonth(d.year, d.month)
  }

  type Date = d: RawDate | IsDate(d) witness RawDate(1, 1, 1)

  /** Chronological order, as Python compares dates: year, month, day. */
  predicate Before(a: Date, b: Date) {
    a.year < b.year || (a.year == b.year && (a.month < b.month || (a.month == b.month && a.day < b.day)))
  }

  datatype DateError = YearOutOfRange

  function Min(a: int, b: int): int {
    if a <= b then a else b
  }

  /** The month `months` later, with the day clamped to that month's length.
      `//` and `%` round down, as in Python. */
  function AddMonths(start: Date, months: int): (r: Result<Date, DateError>) {
    var monthIndex := start.month - 1 + months;
    var year := start.year + monthIndex / 12;
    var month := monthIndex % 12 + 1;
    var day := Min(start.day, DaysInMonth(year, month));
    if MIN_YEAR <= year <= MAX_YEAR then Ok(RawDate(year, month, day)) else Err(YearOutOfRange)
  }

  datatype Frequency = Monthly | Quarterly | Annually

  function MonthsPerOccurrence(f: Frequency): (k: int)
    ensures k == 1 || k == 3 || k == 12
  {
    match f
    case Monthly => 1
    case Quarterly => 3
    case Annually => 12
  }

  function NextOccurrence(current: Date, f: Frequency): Result<Date, DateError> {
    AddMonths(current, MonthsPerOccurrence(f))
  }

  // ----- Months counted from year 0 -----

  const MIN_INDEX: int := MIN_YEAR * 12
  const MAX_INDEX: int := MAX_YEAR * 12 + 11

  function MonthIndex(d: Date): (i: int)
    ensures MIN_INDEX <= i <= MAX_INDEX
  {
    d.year * 12 + d.month - 1
  }

  function MonthLength(index: int): int {
    DaysInMonth(index / 12, index % 12 + 1)
  }

  /** AddMonths moves exactly `months` months, fails exactly outside years
      1..9999, and keeps the largest day both the start and the target month
      allow. */
  lemma AddMonthsLands(start: Date, months: int)
    ensures var r := AddMonths(start, months); var target := MonthIndex(start) + months;
            && (r.Ok? <==> MIN_INDEX <= target <= MAX_INDEX)
            && (r.Ok? ==> MonthIndex(r.value) == target && r.value.day == Min(start.day, MonthLength(target)))
  {
    hide DaysInMonth;
    YearAndMonth(start.year, start.month - 1 + months);
  }

  lemma YearAndMonth(year: int, n: int)
    ensures (year * 12 + n) / 12 == year + n / 12 && (year * 12 + n) % 12 == n % 12
    ensures 0 <= n % 12 < 12
  {
  }

  /** A later start never gives an earlier result. */
  lemma AddMonthsIsMonotone(a: Date, b: Date, months: int)
    requires !Before(b, a)
    requires AddMonths(a, months).Ok? && AddMonths(b, months).Ok?
    ensures !Before(AddMonths(b, months).value, AddMonths(a, months).value)
  {
    AddMonthsLands(a, months);
    AddMonthsLands(b, months);
  }

  // ----- The real day count -----

  function DaysBeforeYear(year: int): int {
    var y := year - 1;
    y * 365 + y / 4 - y / 100 + y / 400
  }

  function DaysBeforeMonth(year: int, month: int): int
    requires 1 <= month <= 12
    decreases month
  {
    if month == 1 then 0 else DaysBeforeMonth(year, month - 1) + DaysInMonth(year, month - 1)
  }

  /** Days since 31 December of year 0: Python's date.toordinal. */
  function Ordinal(d: Date): int {
    DaysBeforeYear(d.year) + DaysBeforeMonth(d.year, d.month) + d.day
  }

  /** Days before the first of a month, over month indices. */
  function MonthStart(index: int): int {
    DaysBeforeYear(index / 12) + DaysBeforeMonth(index / 12, index % 12 + 1)
  }

  lemma YearLength(year: int)
    ensures DaysBeforeYear(year + 1) - DaysBeforeYear(year) == (if IsLeap(year) then 366 else 365)
  {
    var y := year - 1;
    assert (y + 1) / 4 - y / 4 == if year % 4 == 0 then 1 else 0;
    assert (y + 1) / 100 - y / 100 == if year % 100 == 0 then 1 else 0;
    assert (y + 1) / 400 - y / 400 == if year % 400 == 0 then 1 else 0;
    assert year % 400 == 0 ==> year % 100 == 0;
    assert year % 100 == 0 ==> year % 4 == 0;
  }

  lemma DaysBeforeDecember(year: int)
    ensures DaysBeforeMonth(year, 12) + 31 == (if IsLeap(year) then 366 else 365)
  {
    assert DaysBeforeMonth(year, 3) == 31 + DaysInMonth(year, 2);
    assert DaysBeforeMonth(year, 6) == DaysBeforeMonth(year, 3) + 92;
    assert DaysBeforeMonth(year, 9) == DaysBeforeMonth(year, 6) + 92;
  }

  /** Each month starts where the previous one ends. */
  lemma MonthsAreContiguous(index: int)
    ensures MonthStart(index + 1) == MonthStart(index) + MonthLength(index)
  {
    var year := index / 12;
    if index % 12 == 11 {
      assert (index + 1) / 12 == year + 1 && (index + 1) % 12 == 0;
      YearLength(year);
      DaysBeforeDecember(year);
    } else {
      assert (index + 1) / 12 == year && (index + 1) % 12 == index % 12 + 1;
    }
  }

  lemma {:induction false} MonthStartGap(i: int, j: int)
    requires i <= j
    ensures 28 * (j - i) <= MonthStart(j) - MonthStart(i) <= 31 * (j - i)
    decreases j - i
  {
    if i < j {
      MonthStartGap(i, j - 1);
      MonthsAreContiguous(j - 1);
    }
  }

  lemma OrdinalByIndex(d: Date)
    ensures Ordinal(d) == MonthStart(MonthIndex(d)) + d.day
    ensures d.day <= MonthLength(MonthIndex(d))
  {
    assert MonthIndex(d) / 12 == d.year && MonthIndex(d) % 12 == d.month - 1;
  }

  /** The day count agrees with the date order in both directions. */
  lemma OrdinalIsTheDateOrder(a: Date, b: Date)
    ensures Before(a, b) <==> Ordinal(a) < Ordinal(b)
    ensures a == b <==> Ordinal(a) == Ordinal(b)
  {
    hide MonthIndex, MonthStart, MonthLength, Ordinal, DaysInMonth;
    var i, j := MonthIndex(a), MonthIndex(b);
    BeforeByIndex(a, b);
    OrdinalByIndex(a);
    OrdinalByIndex(b);
    MonthsAreContiguous(i);
    MonthsAreContiguous(j);
    if i < j {
      MonthStartGap(i + 1, j);
    } else if j < i {
      MonthStartGap(j + 1, i);
    }
  }

  lemma BeforeByIndex(a: Date, b: Date)
    ensures Before(a, b) <==> MonthIndex(a) < MonthIndex(b) || (MonthIndex(a) == MonthIndex(b) && a.day < b.day)
    ensures a == b <==> MonthIndex(a) == MonthIndex(b) && a.day == b.day
  {
  }

  /** A month on the calendar is 28 to 31 days, whatever the clamp does; a
      quarter and a year are at least 89 and 365. */
  lemma OccurrenceAdvances(d: Date, f: Frequency)
    requires NextOccurrence(d, f).Ok?
    ensures var days := Ordinal(NextOccurrence(d, f).value) - Ordinal(d);
            match f
            case Monthly => 28 <= days <= 31
            case Quarterly => 89 <= days <= 92
            case Annually => 365 <= days <= 366
    ensures Before(d, NextOccurrence(d, f).value)
  {
    hide MonthIndex, MonthStart, MonthLength, Ordinal, DaysInMonth, Before, AddMonths;
    var next := NextOccurrence(d, f).value;
    var i := MonthIndex(d);
    AddMonthsLands(d, MonthsPerOccurrence(f));
    OrdinalByIndex(d);
    OrdinalByIndex(next);
    StrideLength(i, d.day, f);
    OrdinalIsTheDateOrder(d, next);
  }

  /** The same bounds over month indices, for any day the month has. */
  lemma StrideLength(index: int, day: int, f: Frequency)
    requires 1 <= day <= MonthLength(index)
    ensures var k := MonthsPerOccurrence(f);
            var days := MonthStart(index + k) + Min(day, MonthLength(index + k)) - MonthStart(index) - day;
            match f
            case Monthly => 28 <= days <= 31
            case Quarterly => 89 <= days <= 92
            case Annually => 365 <= days <= 366
  {
    hide MonthStart;
    match f {
      case Monthly => MonthsAreContiguous(index);
      case Quarterly =>
        MonthsAreContiguous(index);
        MonthsAreContiguous(index + 1);
        MonthsAreContiguous(index + 2);
        QuarterLength(index);
      case Annually => AnnualStride(index, day);
    }
  }

  /** The length of the month in place m of its year. */
  predicate IsLengthAt(m: int, days: int) {
    if m == 1 then 28 <= days <= 29 else days == if m == 3 || m == 5 || m == 8 || m == 10 then 30 else 31
  }

  lemma MonthLengthAt(index: int)
    ensures IsLengthAt(index % 12, MonthLength(index))
  {
  }

  function NextPlace(m: int): int {
    if m == 11 then 0 else m + 1
  }

  lemma PlaceAfter(index: int)
    ensures (index + 1) % 12 == NextPlace(index % 12)
  {
  }

  lemma QuarterOfPlaces(m: int, a: int, b: int, c: int, d: int)
    requires 0 <= m < 12 && IsLengthAt(m, a) && IsLengthAt(NextPlace(m), b)
    requires IsLengthAt(NextPlace(NextPlace(m)), c) && IsLengthAt(NextPlace(NextPlace(NextPlace(m))), d)
    ensures 89 <= a + b + c <= 92 && (d < a ==> 89 <= b + c + d)
  {
  }

  lemma QuarterLength(index: int)
    ensures var (a, b, c, d) := (MonthLength(index), MonthLength(index + 1), MonthLength(index + 2),
        MonthLength(index + 3));
            89 <= a + b + c <= 92 && (d < a ==> 89 <= b + c + d)
  {
    hide MonthLength, IsLengthAt, NextPlace;
    MonthLengthAt(index);
    MonthLengthAt(index + 1);
    MonthLengthAt(index + 2);
    MonthLengthAt(index + 3);
    PlaceAfter(index);
    PlaceAfter(index + 1);
    PlaceAfter(index + 2);
    QuarterOfPlaces(index % 12, MonthLength(index), MonthLength(index + 1), MonthLength(index + 2),
        MonthLength(index + 3));
  }

  lemma AnnualStride(index: int, day: int)
    requires 1 <= day <= MonthLength(index)
    ensures 365 <= MonthStart(index + 12) + Min(day, MonthLength(index + 12)) - MonthStart(index) - day <= 366
  {
    var year, month := index / 12, index % 12 + 1;
    TwelveMonthsOn(index);
    hide IsLeap, DaysInMonth, DaysBeforeYear, DaysBeforeMonth;
    YearLength(year);
    AnnualGap(year, month);
    FebruaryLength(year);
    FebruaryLength(year + 1);
    LeapYearsAreApart(year);
    if month != 2 {
      OtherMonthLength(year, month);
    }
  }

  lemma TwelveMonthsOn(index: int)
    ensures (index + 12) / 12 == index / 12 + 1 && (index + 12) % 12 == index % 12
  {
  }

  lemma FebruaryLength(year: int)
    ensures DaysInMonth(year, 2) == if IsLeap(year) then 29 else 28
  {
  }

  lemma OtherMonthLength(year: int, month: int)
    requires 1 <= month <= 12 && month != 2
    ensures DaysInMonth(year + 1, month) == DaysInMonth(year, month)
  {
    hide IsLeap;
  }

  lemma LeapYearsAreApart(year: int)
    ensures !IsLeap(year) || !IsLeap(year + 1)
  {
    assert year % 4 == 0 ==> (year + 1) % 4 == 1;
  }

  /** Days gone by before a month, this year against next. */
  lemma {:induction false} AnnualGap(year: int, month: int)
    requires 1 <= month <= 12
    ensures DaysBeforeMonth(year + 1, month) - DaysBeforeMonth(year, month)
            == if month <= 2 then 0 else DaysInMonth(year + 1, 2) - DaysInMonth(year, 2)
    decreases month
  {
    if month > 1 {
      AnnualGap(year, month - 1);
    }
  }

  // ----- Repeating: n occurrences in a row -----

  function Iterate(start: Date, f: Frequency, n: nat): Result<Date, DateError> {
    if n == 0 then Ok(start)
    else
      var previous := Iterate(start, f, n - 1);
      if previous.Err? then previous else NextOccurrence(previous.value, f)
  }

  /** `day` is the least of the start day and the lengths of the n months
      visited, `stride` apart. */
  ghost predicate IsLeastOfVisited(day: int, startDay: int, index: int, stride: int, n: nat) {
    && day <= startDay
    && (forall i :: 1 <= i <= n ==> day <= MonthLength(index + i * stride))
    && (day == startDay || exists i :: 1 <= i <= n && day == MonthLength(index + i * stride))
  }

  /** n occurrences land exactly n strides later, fail exactly when that month
      is past year 9999, and the day is the least of the start day and every
      month length met on the way: a clamp is permanent. */
  lemma {:induction false} IterateLands(start: Date, f: Frequency, n: nat)
    ensures var r := Iterate(start, f, n);
            var k := MonthsPerOccurrence(f);
            && (r.Ok? <==> MonthIndex(start) + n * k <= MAX_INDEX)
            && (r.Ok? ==>
                  && MonthIndex(r.value) == MonthIndex(start) + n * k
                  && IsLeastOfVisited(r.value.day, start.day, MonthIndex(start), k, n))
  {
    hide MonthIndex, MonthLength, AddMonths, MonthsPerOccurrence;
    var k := MonthsPerOccurrence(f);
    var index := MonthIndex(start);
    if n > 0 {
      IterateLands(start, f, n - 1);
      assert n * k == (n - 1) * k + k;
      var previous := Iterate(start, f, n - 1);
      if previous.Ok? {
        AddMonthsLands(previous.value, k);
        if Iterate(start, f, n).Ok? {
          LeastOfOneMore(previous.value.day, start.day, index, k, n);
        }
      } else {
        assert k > 0;
      }
    }
  }

  lemma LeastOfOneMore(previous: int, startDay: int, index: int, stride: int, n: nat)
    requires n > 0 && IsLeastOfVisited(previous, startDay, index, stride, n - 1)
    ensures IsLeastOfVisited(Min(previous, MonthLength(index + n * stride)), startDay, index, stride, n)
  {
    hide MonthLength;
    var day := Min(previous, MonthLength(index + n * stride));
    if day != startDay && day != MonthLength(index + n * stride) {
      var i :| 1 <= i <= n - 1 && previous == MonthLength(index + i * stride);
      assert 1 <= i <= n && day == MonthLength(index + i * stride);
    }
  }

  /** Stepping n times never gets past the single n-stride jump, and the two
      agree exactly when no month visited is shorter than the day the jump
      lands on: always, for a start day up to 28. */
  lemma IterateVersusJump(start: Date, f: Frequency, n: nat)
    requires Iterate(start, f, n).Ok?
    ensures var k := MonthsPerOccurrence(f);
            var jump := AddMonths(start, n * k);
            && jump.Ok?
            && !Before(jump.value, Iterate(start, f, n).value)
            && (Iterate(start, f, n) == jump <==>
                  forall i :: 1 <= i <= n ==> jump.value.day <= MonthLength(MonthIndex(start) + i * k))
            && (start.day <= 28 ==> Iterate(start, f, n) == jump)
  {
    hide MonthLength, AddMonths, MonthsPerOccurrence, MonthIndex;
    var k := MonthsPerOccurrence(f);
    var index := MonthIndex(start);
    IterateLands(start, f, n);
    assert n * k >= 0;
    AddMonthsLands(start, n * k);
    OrdinalByIndex(start);
    var stepped := Iterate(start, f, n).value;
    var jump := AddMonths(start, n * k).value;
    BeforeByIndex(jump, stepped);
    LeastReachesJump(stepped.day, start.day, index, k, n);
  }

  lemma MonthIsAtLeast28(index: int)
    ensures MonthLength(index) >= 28
  {
  }

  lemma LeastReachesJump(least: int, startDay: int, index: int, stride: int, n: nat)
    requires IsLeastOfVisited(least, startDay, index, stride, n)
    requires startDay <= MonthLength(index)
    ensures var jump := Min(startDay, MonthLength(index + n * stride));
            && least <= jump
            && (least == jump <==> forall i :: 1 <= i <= n ==> jump <= MonthLength(index + i * stride))
            && (startDay <= 28 ==> least == jump)
  {
    hide MonthLength;
    forall i
      ensures MonthLength(index + i * stride) >= 28
    {
      MonthIsAtLeast28(index + i * stride);
    }
    var jump := Min(startDay, MonthLength(index + n * stride));
    if n == 0 {
      assert n * stride == 0;
    } else {
      assert least <= MonthLength(index + n * stride);
    }
  }

  /** The clamp does not come undone: 31 January stepped twice is 28 March,
      jumped once it is 31 March. */
  lemma ClampIsPermanent()
    ensures Iterate(RawDate(2026, 1, 31), Monthly, 2) == Ok(RawDate(2026, 3, 28))
    ensures AddMonths(RawDate(2026, 1, 31), 2) == Ok(RawDate(2026, 3, 31))
  {
    assert Iterate(RawDate(2026, 1, 31), Monthly, 1) == Ok(RawDate(2026, 2, 28));
  }

  lemma OccurrenceMovesOn(d: Date, f: Frequency)
    requires NextOccurrence(d, f).Ok?
    ensures Ordinal(NextOccurrence(d, f).value) >= Ordinal(d) + 28
  {
    hide Ordinal, NextOccurrence;
    OccurrenceAdvances(d, f);
  }

  /** Occurrences only move forward, so none is ever repeated. */
  lemma {:induction false} IterateStrictlyIncreases(start: Date, f: Frequency, m: nat, n: nat)
    requires m < n && Iterate(start, f, n).Ok?
    ensures Iterate(start, f, m).Ok?
    ensures Ordinal(Iterate(start, f, m).value) + 28 * (n - m) <= Ordinal(Iterate(start, f, n).value)
    ensures Before(Iterate(start, f, m).value, Iterate(start, f, n).value)
    decreases n
  {
    hide Before, Ordinal, NextOccurrence;
    var previous := Iterate(start, f, n - 1);
    OccurrenceMovesOn(previous.value, f);
    if m < n - 1 {
      IterateStrictlyIncreases(start, f, m, n - 1);
    }
    OrdinalIsTheDateOrder(Iterate(start, f, m).value, Iterate(start, f, n).value);
  }
}
