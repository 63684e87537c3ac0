/** UTC dates as ECMA-262 defines them, and `addBillingMonth` of
    src/billing/billing-proration.ts.

    A `Date` is an integer number of milliseconds since 1970.  `Date.UTC` reads a
    year from 0 to 99 as a year of the twentieth century, so `addBillingMonth`
    advances the calendar by one month exactly when the month after the given date
    lies outside those years. */
module Calendar {
  import opened Numbers

  const MS_PER_DAY := 86400000

  predicate IsLeap(y: int) {
    y % 4 == 0 && (y % 100 != 0 || y % 400 == 0)
  }

  function DaysInYear(y: int): int {
    if IsLeap(y) then 366 else 365
  }

  /** Months count from 0. */
  function DaysInMonth(y: int, m: nat): int
    requires m < 12
  {
    if m == 1 then (if IsLeap(y) then 29 else 28)
    else if m == 3 || m == 5 || m == 8 || m == 10 then 30
    else 31
  }

  /** Days from 1 January 1970 to 1 January of year `y`. */
  function DayFromYear(y: int): int {
    365 * (y - 1970) + (y - 1969) / 4 - (y - 1901) / 100 + (y - 1601) / 400
  }

  lemma QuotientStep(x: int, n: int)
    requires n > 0
    ensures (x + 1) / n - x / n == if (x + 1) % n == 0 then 1 else 0
  {
    var q, r := x / n, x % n;
    assert x == n * q + r;
    if r == n - 1 {
      assert x + 1 == n * (q + 1);
      QuotientOf(x + 1, n, q + 1, 0);
    } else {
      QuotientOf(x + 1, n, q, r + 1);
    }
  }

  lemma Multiples(n: int, d: int)
    requires n > 0
    ensures d >= 1 ==> n * d >= n
    ensures d <= -1 ==> n * d <= -n
  {
  }

  lemma QuotientOf(x: int, n: int, q: int, r: int)
    requires n > 0 && 0 <= r < n && x == n * q + r
    ensures x / n == q && x % n == r
  {
    var d := x / n - q;
    assert n * (x / n) + x % n == n * q + r;
    assert n * d == r - x % n;
    Multiples(n, d);
  }

  lemma YearLength(y: int)
    ensures DayFromYear(y + 1) - DayFromYear(y) == DaysInYear(y)
  {
    QuotientStep(y - 1969, 4);
    QuotientStep(y - 1901, 100);
    QuotientStep(y - 1601, 400);
    LeapByRemainders(y);
  }

  lemma LeapByRemainders(y: int)
    ensures (y - 1968) % 4 == 0 <==> y % 4 == 0
    ensures (y - 1900) % 100 == 0 <==> y % 100 == 0
    ensures (y - 1600) % 400 == 0 <==> y % 400 == 0
    ensures y % 400 == 0 ==> y % 100 == 0
    ensures y % 100 == 0 ==> y % 4 == 0
  {
    RemainderShift(y, 4, 492);
    RemainderShift(y, 100, 19);
    RemainderShift(y, 400, 4);
    var a, b := y / 400, y / 100;
    if y % 400 == 0 {
      QuotientOf(y, 100, 4 * a, 0);
    }
    if y % 100 == 0 {
      QuotientOf(y, 4, 25 * b, 0);
    }
  }

  lemma RemainderShift(y: int, n: int, k: int)
    requires n > 0
    ensures (y - n * k) % n == y % n
  {
    var q, r := y / n, y % n;
    assert y - n * k == n * (q - k) + r;
    QuotientOf(y - n * k, n, q - k, r);
  }

  lemma {:induction false} YearsAscend(a: int, b: int)
    requires a <= b
    ensures DayFromYear(a) + 365 * (b - a) <= DayFromYear(b)
    decreases b - a
  {
    if a < b {
      YearsAscend(a, b - 1);
      YearLength(b - 1);
    }
  }

  /** Days before month `m` in year `y`; `m == 12` gives the whole year. */
  function MonthStart(y: int, m: nat): int
    requires m <= 12
  {
    if m == 0 then 0 else MonthStart(y, m - 1) + DaysInMonth(y, m - 1)
  }

  lemma WholeYear(y: int)
    ensures MonthStart(y, 12) == DaysInYear(y)
  {
    var leap := if IsLeap(y) then 1 else 0;
    assert MonthStart(y, 1) == 31;
    assert MonthStart(y, 2) == 59 + leap;
    assert MonthStart(y, 3) == 90 + leap;
    assert MonthStart(y, 4) == 120 + leap;
    assert MonthStart(y, 5) == 151 + leap;
    assert MonthStart(y, 6) == 181 + leap;
    assert MonthStart(y, 7) == 212 + leap;
    assert MonthStart(y, 8) == 243 + leap;
    assert MonthStart(y, 9) == 273 + leap;
    assert MonthStart(y, 10) == 304 + leap;
    assert MonthStart(y, 11) == 334 + leap;
  }

  lemma {:induction false} MonthsAscend(y: int, a: nat, b: nat)
    requires a <= b <= 12
    ensures MonthStart(y, a) + 28 * (b - a) <= MonthStart(y, b)
    decreases b - a
  {
    if a < b {
      MonthsAscend(y, a, b - 1);
    }
  }

  /** The number of day `d` of month `m` of year `y`. */
  function DayNumber(y: int, m: nat, d: int): int
    requires m < 12
  {
    DayFromYear(y) + MonthStart(y, m) + d - 1
  }

  // ---------------------------------------------------------------- reading a date

  /** A year that begins no later than day `n`. */
  function EarlyYear(n: int): (y: int)
    ensures DayFromYear(y) <= n
  {
    if n >= 0 then 1970 else 1970 + n / 365
  }

  function ClimbYear(n: int, y: int): (r: int)
    requires DayFromYear(y) <= n
    ensures DayFromYear(r) <= n < DayFromYear(r + 1)
    decreases n - DayFromYear(y)
  {
    YearLength(y);
    if n < DayFromYear(y + 1) then y else ClimbYear(n, y + 1)
  }

  function YearOfDay(n: int): (y: int)
    ensures DayFromYear(y) <= n < DayFromYear(y + 1)
  {
    ClimbYear(n, EarlyYear(n))
  }

  function ClimbMonth(y: int, w: int, m: nat): (r: nat)
    requires m < 12 && MonthStart(y, m) <= w < MonthStart(y, 12)
    ensures r < 12 && MonthStart(y, r) <= w < MonthStart(y, r + 1)
    decreases 12 - m
  {
    if w < MonthStart(y, m + 1) then m else ClimbMonth(y, w, m + 1)
  }

  function MonthOfDay(n: int): (m: nat)
    ensures m < 12
    ensures var y := YearOfDay(n); MonthStart(y, m) <= n - DayFromYear(y) < MonthStart(y, m + 1)
  {
    var y := YearOfDay(n);
    YearLength(y);
    WholeYear(y);
    ClimbMonth(y, n - DayFromYear(y), 0)
  }

  function DateOfDay(n: int): (d: int)
    ensures 1 <= d <= DaysInMonth(YearOfDay(n), MonthOfDay(n))
    ensures n == DayNumber(YearOfDay(n), MonthOfDay(n), d)
  {
    n - DayFromYear(YearOfDay(n)) - MonthStart(YearOfDay(n), MonthOfDay(n)) + 1
  }

  lemma YearUnique(n: int, y: int)
    requires DayFromYear(y) <= n < DayFromYear(y + 1)
    ensures YearOfDay(n) == y
  {
    hide DayFromYear;
    var r := YearOfDay(n);
    if r < y {
      YearsAscend(r + 1, y);
    } else if y < r {
      YearsAscend(y + 1, r);
    }
  }

  lemma MonthUnique(y: int, w: int, a: nat, b: nat)
    requires a < 12 && b < 12
    requires MonthStart(y, a) <= w < MonthStart(y, a + 1)
    requires MonthStart(y, b) <= w < MonthStart(y, b + 1)
    ensures a == b
  {
    if a < b {
      MonthsAscend(y, a + 1, b);
    } else if b < a {
      MonthsAscend(y, b + 1, a);
    }
  }

  /** Reading a day number gives back the date it was made from. */
  lemma DateRoundTrip(y: int, m: nat, d: int)
    requires m < 12 && 1 <= d <= DaysInMonth(y, m)
    ensures YearOfDay(DayNumber(y, m, d)) == y
    ensures MonthOfDay(DayNumber(y, m, d)) == m
    ensures DateOfDay(DayNumber(y, m, d)) == d
  {
    var n := DayNumber(y, m, d);
    MonthsAscend(y, 0, m);
    MonthsAscend(y, m + 1, 12);
    WholeYear(y);
    YearLength(y);
    YearUnique(n, y);
    MonthUnique(y, n - DayFromYear(y), MonthOfDay(n), m);
  }

  // ---------------------------------------------------------------- Date and Date.UTC

  /** `getUTCFullYear`, `getUTCMonth`, `getUTCDate` and the time within the day. */
  function Year(t: int): int { YearOfDay(t / MS_PER_DAY) }
  function Month(t: int): nat { MonthOfDay(t / MS_PER_DAY) }
  function DateOf(t: int): int { DateOfDay(t / MS_PER_DAY) }
  function TimeInDay(t: int): nat { t % MS_PER_DAY }

  /** Years 0 to 99 mean 1900 to 1999. */
  function FullYear(y: int): int {
    if 0 <= y <= 99 then 1900 + y else y
  }

  /** `Date.UTC(year, month, date, ...)`: months and dates may overflow. */
  function DateUtc(year: int, month: nat, date: int, time: nat): int {
    var y := FullYear(year) + month / 12;
    DayNumber(y, month % 12, date) * MS_PER_DAY + time
  }

  /** The month after the one `t` lies in. */
  function NextYear(t: int): int { if Month(t) == 11 then Year(t) + 1 else Year(t) }
  function NextMonth(t: int): (m: nat) ensures m < 12 { (Month(t) + 1) % 12 }

  /** `addBillingMonth(from)` */
  function AddBillingMonth(from: int): int {
    var year, month := NextYear(from), NextMonth(from);
    var lastDayOfTargetMonth := DateOf(DateUtc(year, month + 1, 0, 0));
    DateUtc(year, month, Min(DateOf(from), lastDayOfTargetMonth), TimeInDay(from))
  }

  // ---------------------------------------------------------------- what it computes

  lemma DayOfUtc(n: int, time: nat)
    requires time < MS_PER_DAY
    ensures (n * MS_PER_DAY + time) / MS_PER_DAY == n && (n * MS_PER_DAY + time) % MS_PER_DAY == time
  {
  }

  /** Day 0 of the month after `m` is the last day of `m`. */
  lemma LastDay(year: int, m: nat)
    requires m < 12
    ensures DateOf(DateUtc(year, m + 1, 0, 0)) == DaysInMonth(FullYear(year), m)
  {
    hide DayFromYear, YearOfDay, MonthOfDay, DateOfDay, DaysInMonth;
    MonthLengths(FullYear(year), m);
    var y := FullYear(year);
    var n := DayNumber(y, m, DaysInMonth(y, m));
    assert DateUtc(year, m + 1, 0, 0) == n * MS_PER_DAY + 0 by {
      if m == 11 {
        YearLength(y);
        WholeYear(y);
        assert MonthStart(y, 12) == MonthStart(y, 11) + DaysInMonth(y, 11);
      }
    }
    DayOfUtc(n, 0);
    DateRoundTrip(y, m, DaysInMonth(y, m));
  }

  /** The result, field by field, for every date. */
  lemma AddBillingMonthFields(from: int)
    ensures var r := AddBillingMonth(from); var y := FullYear(NextYear(from)); var m := NextMonth(from);
      && Year(r) == y && Month(r) == m
      && DateOf(r) == Min(DateOf(from), DaysInMonth(y, m))
      && TimeInDay(r) == TimeInDay(from)
  {
    hide YearOfDay, MonthOfDay, DateOfDay, DayNumber, DaysInMonth, DayFromYear, MonthStart;
    var y, m := FullYear(NextYear(from)), NextMonth(from);
    LastDay(NextYear(from), m);
    var d := Min(DateOf(from), DaysInMonth(y, m));
    ClampedDate(from, y, m);
    var n := DayNumber(y, m, d);
    DayOfUtc(n, TimeInDay(from));
    DateRoundTrip(y, m, d);
  }

  lemma ClampedDate(from: int, y: int, m: nat)
    requires m < 12
    ensures 1 <= Min(DateOf(from), DaysInMonth(y, m)) <= DaysInMonth(y, m)
  {
  }

  /** Where an instant lies, in days. */
  lemma InstantOfFields(t: int)
    ensures t == DayNumber(Year(t), Month(t), DateOf(t)) * MS_PER_DAY + TimeInDay(t)
  {
  }

  function MonthIndex(t: int): int {
    12 * Year(t) + Month(t)
  }

  /** The month after `t` is one that `Date.UTC` reads as written. */
  predicate PlainTarget(t: int) {
    !(0 <= NextYear(t) <= 99)
  }

  /** `addBillingMonth` moves on by exactly one calendar month exactly when the target
      year is not one of 0 to 99. */
  lemma AdvancesOneMonth(from: int)
    ensures MonthIndex(AddBillingMonth(from)) == MonthIndex(from) + 1 <==> PlainTarget(from)
  {
    hide AddBillingMonth, YearOfDay, MonthOfDay, DaysInMonth, DayFromYear;
    AddBillingMonthFields(from);
  }

  /** The day number where the next cycle ends, counted from the month start. */
  lemma NextMonthStart(from: int)
    requires PlainTarget(from)
    ensures DayNumber(NextYear(from), NextMonth(from), 1)
         == DayNumber(Year(from), Month(from), 1) + DaysInMonth(Year(from), Month(from))
  {
    hide YearOfDay, MonthOfDay, DaysInMonth;
    var y := Year(from);
    if Month(from) == 11 {
      YearLength(y);
      WholeYear(y);
      assert MonthStart(y, 12) == MonthStart(y, 11) + DaysInMonth(y, 11);
    } else {
      assert NextMonth(from) == Month(from) + 1;
    }
  }

  lemma MonthLengths(y: int, m: nat)
    requires m < 12
    ensures 28 <= DaysInMonth(y, m) <= 31
  {
  }

  lemma DayWithinMonth(y: int, m: nat, d: int)
    requires m < 12
    ensures DayNumber(y, m, d) == DayNumber(y, m, 1) + d - 1
  {
  }

  /** A cycle is a whole number of days, 28 to 31 of them, and at most the length of the
      month it starts in. */
  lemma CycleLength(from: int)
    requires PlainTarget(from)
    ensures var days := DaysInMonth(Year(from), Month(from)) - DateOf(from)
                      + Min(DateOf(from), DaysInMonth(NextYear(from), NextMonth(from)));
      && AddBillingMonth(from) - from == days * MS_PER_DAY
      && 28 <= days <= DaysInMonth(Year(from), Month(from)) <= 31
  {
    var r := AddBillingMonth(from);
    hide AddBillingMonth, YearOfDay, MonthOfDay, DateOfDay, DayNumber, DaysInMonth;
    AddBillingMonthFields(from);
    InstantOfFields(from);
    InstantOfFields(r);
    DayWithinMonth(Year(from), Month(from), DateOf(from));
    DayWithinMonth(NextYear(from), NextMonth(from), DateOf(r));
    NextMonthStart(from);
    MonthLengths(Year(from), Month(from));
    MonthLengths(NextYear(from), NextMonth(from));
    assert DateOf(from) <= DaysInMonth(Year(from), Month(from));
  }

  /** Time only moves forward, by at least 28 days, also where the year is misread. */
  lemma AddBillingMonthLater(from: int)
    ensures from + 28 * MS_PER_DAY <= AddBillingMonth(from)
  {
    var r := AddBillingMonth(from);
    hide AddBillingMonth, DayNumber, DaysInMonth, MonthOfDay, DateOfDay;
    if PlainTarget(from) {
      CycleLength(from);
    } else {
      AddBillingMonthFields(from);
      YearsAscend(Year(from) + 1, Year(r));
    }
  }

  // ---------------------------------------------------------------- many months

  /** The boundary after `k` rollovers of a cycle that started at `start`. */
  function Boundary(start: int, k: nat): int {
    if k == 0 then start else AddBillingMonth(Boundary(start, k - 1))
  }

  /** The shortest of the `k` months after `start`'s, and of `start`'s own day. */
  function DriftedDay(start: int, k: nat): int {
    if k == 0 then DateOf(start)
    else
      var i := MonthIndex(start) + k;
      Min(DriftedDay(start, k - 1), DaysInMonth(i / 12, i % 12))
  }

  /** None of the `k` months after `start`'s lies in a year that `Date.UTC` misreads. */
  predicate PlainMonths(start: int, k: nat) {
    k == 0 || MonthIndex(start) + 1 >= 1200 || MonthIndex(start) + k < 0
  }

  lemma PlainTargetByIndex(t: int)
    ensures PlainTarget(t) <==> !(0 <= MonthIndex(t) + 1 < 1200)
  {
    hide YearOfDay, MonthOfDay;
  }

  /** No step goes back, and none goes less than a month. */
  lemma AdvancesAtLeastOneMonth(from: int)
    ensures MonthIndex(AddBillingMonth(from)) >= MonthIndex(from) + 1
  {
    hide AddBillingMonth, YearOfDay, MonthOfDay, DaysInMonth, DayFromYear;
    AddBillingMonthFields(from);
  }

  /** `k` rollovers move the boundary by exactly `k` calendar months exactly when the years
      0 to 99 are not among the months passed; they never move it by fewer. */
  lemma {:induction false} BoundaryMonths(start: int, k: nat)
    ensures MonthIndex(Boundary(start, k)) >= MonthIndex(start) + k
    ensures MonthIndex(Boundary(start, k)) == MonthIndex(start) + k <==> PlainMonths(start, k)
  {
    hide AddBillingMonth, MonthIndex, PlainTarget;
    if k > 0 {
      var b := Boundary(start, k - 1);
      BoundaryMonths(start, k - 1);
      AdvancesOneMonth(b);
      AdvancesAtLeastOneMonth(b);
      PlainTargetByIndex(b);
    }
  }

  /** The boundary after `k` rollovers lies between 28 and 31 days per month later, at the
      same time of day, on the smallest day that fits all months passed: a short month
      pulls every later boundary down. */
  lemma {:induction false} BoundaryExact(start: int, k: nat)
    requires PlainMonths(start, k)
    ensures var b := Boundary(start, k);
      && DateOf(b) == DriftedDay(start, k)
      && TimeInDay(b) == TimeInDay(start)
      && start + 28 * k * MS_PER_DAY <= b <= start + 31 * k * MS_PER_DAY
  {
    hide AddBillingMonth, DateOf, DaysInMonth, TimeInDay, MonthIndex, PlainTarget, Year, Month, NextYear, NextMonth;
    if k > 0 {
      var b := Boundary(start, k - 1);
      BoundaryMonths(start, k);
      BoundaryMonths(start, k - 1);
      PlainTargetByIndex(b);
      BoundaryExact(start, k - 1);
      AddBillingMonthFields(b);
      CycleLength(b);
      TargetByIndex(b);
    }
  }

  /** The `i`-th month after `start`'s has the day of `start`. */
  predicate MonthFits(start: int, i: nat) {
    var m := MonthIndex(start) + i;
    DateOf(start) <= DaysInMonth(m / 12, m % 12)
  }

  /** The boundary keeps the day of the start exactly when no month passed is too short for it. */
  lemma KeepsDayExactly(start: int, k: nat)
    requires PlainMonths(start, k)
    ensures DateOf(Boundary(start, k)) == DateOf(start) <==> forall i :: 1 <= i <= k ==> MonthFits(start, i)
  {
    hide Boundary, DateOf, DaysInMonth, MonthIndex;
    BoundaryExact(start, k);
    DriftedDayExactly(start, k);
  }

  lemma {:induction false} DriftedDayExactly(start: int, k: nat)
    ensures DriftedDay(start, k) <= DateOf(start)
    ensures DriftedDay(start, k) == DateOf(start) <==> forall i :: 1 <= i <= k ==> MonthFits(start, i)
  {
    hide DateOf, DaysInMonth, MonthIndex;
    if k > 0 {
      DriftedDayExactly(start, k - 1);
      assert (forall i :: 1 <= i <= k ==> MonthFits(start, i)) <==>
        (forall i :: 1 <= i <= k - 1 ==> MonthFits(start, i)) && MonthFits(start, k);
    }
  }

  /** The instant a date begins, read back. */
  lemma MidnightFields(y: int, m: nat, d: int)
    requires m < 12 && 1 <= d <= DaysInMonth(y, m)
    ensures var t := DayNumber(y, m, d) * MS_PER_DAY; Year(t) == y && Month(t) == m && DateOf(t) == d
  {
    hide YearOfDay, MonthOfDay, DateOfDay, DayNumber, DaysInMonth;
    DayOfUtc(DayNumber(y, m, d), 0);
    DateRoundTrip(y, m, d);
  }

  /** A month after 1 June of the year 50 lies 1 July 1950. */
  lemma MisreadYear()
    ensures var t := DayNumber(50, 5, 1) * MS_PER_DAY; var r := AddBillingMonth(t);
      Year(r) == 1950 && Month(r) == 6 && DateOf(r) == 1 && MonthIndex(r) != MonthIndex(t) + 1
  {
    hide AddBillingMonth, Year, Month, DateOf, DayNumber;
    MidnightFields(50, 5, 1);
    AddBillingMonthFields(DayNumber(50, 5, 1) * MS_PER_DAY);
  }

  /** A cycle anchored on 31 January 2023 turns over on 28 February and then on 28 March. */
  lemma DayDrifts()
    ensures var t := DayNumber(2023, 0, 31) * MS_PER_DAY;
      && DateOf(Boundary(t, 1)) == 28
      && DateOf(Boundary(t, 2)) == 28 && Month(Boundary(t, 2)) == 2 && Year(Boundary(t, 2)) == 2023
  {
    hide AddBillingMonth, Year, Month, DateOf, DayNumber;
    var t := DayNumber(2023, 0, 31) * MS_PER_DAY;
    MidnightFields(2023, 0, 31);
    AddBillingMonthFields(t);
    assert Boundary(t, 1) == AddBillingMonth(Boundary(t, 0));
    AddBillingMonthFields(AddBillingMonth(t));
    assert Boundary(t, 2) == AddBillingMonth(Boundary(t, 1));
  }

  lemma TargetByIndex(t: int)
    requires PlainTarget(t)
    ensures FullYear(NextYear(t)) == (MonthIndex(t) + 1) / 12 && NextMonth(t) == (MonthIndex(t) + 1) % 12
  {
    hide YearOfDay, MonthOfDay;
  }

  // ---------------------------------------------------------------- known dates

  /** Days count from 1 January 1970; a year has 366 days exactly when 4 divides it, but 100 does
      not unless 400 does. */
  lemma DaysCounted(y: int)
    ensures DayNumber(1970, 0, 1) == 0 && MS_PER_DAY == 24 * 60 * 60 * 1000
    ensures DayNumber(y + 1, 0, 1) - DayNumber(y, 0, 1)
         == if y % 4 == 0 && (y % 100 != 0 || y % 400 == 0) then 366 else 365
  {
    hide DayFromYear;
    YearLength(y);
    FirstDay();
  }

  lemma FirstDay()
    ensures DayFromYear(1970) == 0
  {
  }

  /** The lengths of the months. */
  lemma MonthTable(y: int)
    ensures DaysInMonth(y, 1) == if DaysInYear(y) == 366 then 29 else 28
    ensures forall m :: m in {0, 2, 4, 6, 7, 9, 11} ==> DaysInMonth(y, m) == 31
    ensures forall m :: m in {3, 5, 8, 10} ==> DaysInMonth(y, m) == 30
  {
  }
}
