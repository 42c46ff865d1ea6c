/**
 Calendar dates in the proleptic Gregorian calendar, as Python's
 `datetime.date` represents them: a year, a month and a day of the month.

 Day arithmetic is Python's: `date + timedelta(days=n)` is the date whose
 ordinal (`date.toordinal`, day 1 = 0001-01-01) is `n` more. Stepping one
 calendar day at a time is defined independently and proved to reach the
 same date.
 */
module Dates {

  datatype Date = Date(year: int, month: int, day: int)

  predicate IsLeap(y: int) {
    y % 4 == 0 && (y % 100 != 0 || y % 400 == 0)
  }

  function DaysInMonth(y: int, m: int): (n: int)
    requires 1 <= m <= 12
    ensures 28 <= n <= 31
    ensures n == 29 <==> m == 2 && IsLeap(y)
  {
    if m == 2 then (if IsLeap(y) then 29 else 28)
    else if m == 4 || m == 6 || m == 9 || m == 11 then 30
    else 31
  }

  predicate Valid(d: Date) {
    1 <= d.month <= 12 && 1 <= d.day <= DaysInMonth(d.year, d.month)
  }

  /** Strictly earlier: lexicographic on (year, month, day). */
  predicate Before(a: Date, b: Date) {
    || a.year < b.year
    || (a.year == b.year && a.month < b.month)
    || (a.year == b.year && a.month == b.month && a.day < b.day)
  }

  /** `a <= b` on dates. */
  predicate NotAfter(a: Date, b: Date) {
    !Before(b, a)
  }

  /** Number of the date's month counted from year 0, January. */
  function MonthIndex(d: Date): int {
    d.year * 12 + d.month - 1
  }

  /** An integer that orders valid dates as `Before` does; used as a termination measure. */
  function Key(d: Date): int {
    MonthIndex(d) * 31 + d.day - 1
  }

  lemma KeyOrder(a: Date, b: Date)
    requires Valid(a) && Valid(b)
    ensures Before(a, b) <==> Key(a) < Key(b)
    ensures a == b <==> Key(a) == Key(b)
  {
    if MonthIndex(a) < MonthIndex(b) {
      assert Key(a) < MonthIndex(a) * 31 + 31 <= MonthIndex(b) * 31 <= Key(b);
    } else if MonthIndex(b) < MonthIndex(a) {
      assert Key(b) < MonthIndex(b) * 31 + 31 <= MonthIndex(a) * 31 <= Key(a);
    }
  }

  lemma MonthIndexOrder(a: Date, b: Date)
    requires Valid(a) && Valid(b)
    requires MonthIndex(a) < MonthIndex(b)
    ensures Before(a, b)
  {
  }

  function NextDay(d: Date): (r: Date)
    requires Valid(d)
    ensures Valid(r)
    ensures Before(d, r)
    ensures Key(r) > Key(d)
  {
    if d.day < DaysInMonth(d.year, d.month) then Date(d.year, d.month, d.day + 1)
    else if d.month < 12 then Date(d.year, d.month + 1, 1)
    else Date(d.year + 1, 1, 1)
  }

  function PrevDay(d: Date): (r: Date)
    requires Valid(d)
    ensures Valid(r)
    ensures Before(r, d)
    ensures Key(r) < Key(d)
  {
    if d.day > 1 then Date(d.year, d.month, d.day - 1)
    else if d.month > 1 then Date(d.year, d.month - 1, DaysInMonth(d.year, d.month - 1))
    else Date(d.year - 1, 12, 31)
  }

  lemma PrevNext(d: Date)
    requires Valid(d)
    ensures PrevDay(NextDay(d)) == d
    ensures NextDay(PrevDay(d)) == d
  {
  }

  /** `n` single calendar days forward (or back, for negative `n`). */
  function StepDays(d: Date, n: int): (r: Date)
    requires Valid(d)
    ensures Valid(r)
    ensures n > 0 ==> Before(d, r)
    ensures n < 0 ==> Before(r, d)
    decreases if n < 0 then -n else n
  {
    if n > 0 then StepDays(NextDay(d), n - 1)
    else if n < 0 then StepDays(PrevDay(d), n + 1)
    else d
  }

  // ---------------------------------------------------------------------------
  // Python's ordinal numbering, as an independent reference for day arithmetic

  function DaysBeforeYear(y: int): int {
    var p := y - 1;
    365 * p + p / 4 - p / 100 + p / 400
  }

  function DaysBeforeMonth(y: int, m: int): int
    requires 1 <= m <= 12
  {
    var table :=
      if m == 1 then 0 else if m == 2 then 31 else if m == 3 then 59
      else if m == 4 then 90 else if m == 5 then 120 else if m == 6 then 151
      else if m == 7 then 181 else if m == 8 then 212 else if m == 9 then 243
      else if m == 10 then 273 else if m == 11 then 304 else 334;
    if m > 2 && IsLeap(y) then table + 1 else table
  }

  /** `date.toordinal()`: 0001-01-01 is day 1. */
  function Ordinal(d: Date): int
    requires Valid(d)
  {
    DaysBeforeYear(d.year) + DaysBeforeMonth(d.year, d.month) + d.day
  }

  /** Going from `y - 1` to `y`, the quotient by 4, 100 or 400 grows by one exactly when that divides `y`. */
  lemma FloorSteps(y: int)
    ensures y / 4 - (y - 1) / 4 == if y % 4 == 0 then 1 else 0
    ensures y / 100 - (y - 1) / 100 == if y % 100 == 0 then 1 else 0
    ensures y / 400 - (y - 1) / 400 == if y % 400 == 0 then 1 else 0
  {
    assert y / 4 - (y - 1) / 4 == if y % 4 == 0 then 1 else 0 by {
      var q, r := (y - 1) / 4, (y - 1) % 4;
      assert y == 4 * q + r + 1;
    }
    assert y / 100 - (y - 1) / 100 == if y % 100 == 0 then 1 else 0 by {
      var q, r := (y - 1) / 100, (y - 1) % 100;
      assert y == 100 * q + r + 1;
    }
    assert y / 400 - (y - 1) / 400 == if y % 400 == 0 then 1 else 0 by {
      var q, r := (y - 1) / 400, (y - 1) % 400;
      assert y == 400 * q + r + 1;
    }
  }

  /** A multiple of 400 is a multiple of 100, and a multiple of 100 one of 4. */
  lemma DivisorChain(y: int)
    ensures y % 100 == 0 ==> y % 4 == 0
    ensures y % 400 == 0 ==> y % 100 == 0
  {
    if y % 100 == 0 {
      var k := y / 100;
      assert y == 4 * (25 * k);
      assert y / 4 == 25 * k;
    }
    if y % 400 == 0 {
      var k := y / 400;
      assert y == 100 * (4 * k);
      assert y / 100 == 4 * k;
    }
  }

  lemma YearLength(y: int)
    ensures DaysBeforeYear(y + 1) - DaysBeforeYear(y) == if IsLeap(y) then 366 else 365
  {
    FloorSteps(y);
    DivisorChain(y);
    var a, b, c := y / 4 - (y - 1) / 4, y / 100 - (y - 1) / 100, y / 400 - (y - 1) / 400;
    assert DaysBeforeYear(y + 1) - DaysBeforeYear(y) == 365 + a - b + c;
  }

  lemma {:induction false} OrdinalNextDay(d: Date)
    requires Valid(d)
    ensures Ordinal(NextDay(d)) == Ordinal(d) + 1
  {
    if d.day == DaysInMonth(d.year, d.month) && d.month == 12 {
      YearLength(d.year);
    }
  }

  /** Stepping `n` days moves the ordinal by `n`. */
  lemma {:induction false} OrdinalStepDays(d: Date, n: int)
    requires Valid(d)
    ensures Ordinal(StepDays(d, n)) == Ordinal(d) + n
    decreases if n < 0 then -n else n
  {
    if n > 0 {
      OrdinalNextDay(d);
      OrdinalStepDays(NextDay(d), n - 1);
    } else if n < 0 {
      OrdinalNextDay(PrevDay(d));
      PrevNext(d);
      OrdinalStepDays(PrevDay(d), n + 1);
    }
  }

  lemma OrdinalWithinYear(d: Date)
    requires Valid(d)
    ensures DaysBeforeYear(d.year) < Ordinal(d) <= DaysBeforeYear(d.year + 1)
  {
    YearLength(d.year);
  }

  lemma {:induction false} DaysBeforeYearMonotone(y1: int, y2: int)
    requires y1 <= y2
    ensures DaysBeforeYear(y1) + 365 * (y2 - y1) <= DaysBeforeYear(y2)
    decreases y2 - y1
  {
    if y1 < y2 {
      YearLength(y1);
      DaysBeforeYearMonotone(y1 + 1, y2);
    }
  }

  /** The ordinal orders dates exactly as `Before` does. */
  lemma OrdinalOrder(a: Date, b: Date)
    requires Valid(a) && Valid(b)
    ensures Before(a, b) <==> Ordinal(a) < Ordinal(b)
    ensures a == b <==> Ordinal(a) == Ordinal(b)
  {
    OrdinalWithinYear(a);
    OrdinalWithinYear(b);
    if a.year < b.year {
      DaysBeforeYearMonotone(a.year + 1, b.year);
    } else if b.year < a.year {
      DaysBeforeYearMonotone(b.year + 1, a.year);
    }
  }

  /** A valid date is determined by its ordinal. */
  lemma OrdinalInjective()
    ensures forall a, b :: Valid(a) && Valid(b) && Ordinal(a) == Ordinal(b) ==> a == b
  {
    forall a, b | Valid(a) && Valid(b) && Ordinal(a) == Ordinal(b) ensures a == b {
      OrdinalOrder(a, b);
    }
  }

  /** `d + timedelta(days=n)`: the date `n` ordinals on. */
  function AddDays(d: Date, n: int): (r: Date)
    requires Valid(d)
    ensures Valid(r)
    ensures Ordinal(r) == Ordinal(d) + n
    ensures n > 0 ==> Before(d, r)
    ensures n < 0 ==> Before(r, d)
    ensures n == 0 ==> r == d
  {
    OrdinalStepDays(d, n);
    OrdinalInjective();
    var r :| Valid(r) && Ordinal(r) == Ordinal(d) + n;
    OrdinalOrder(d, r);
    r
  }

  /** Adding days is stepping over them one calendar day at a time. */
  lemma AddDaysSteps(d: Date, n: int)
    requires Valid(d)
    ensures AddDays(d, n) == StepDays(d, n)
  {
    OrdinalStepDays(d, n);
    OrdinalInjective();
  }

  /** Subtracting `n` days after adding them gives the date back. */
  lemma AddDaysInverse(d: Date, n: int)
    requires Valid(d)
    ensures AddDays(AddDays(d, n), -n) == d
  {
    OrdinalInjective();
  }

  /** Adding more days gives a strictly later date. */
  lemma AddDaysStrict(d: Date, a: int, b: int)
    requires Valid(d)
    requires a < b
    ensures Before(AddDays(d, a), AddDays(d, b))
  {
    OrdinalOrder(AddDays(d, a), AddDays(d, b));
  }

  /** Adding `a` days and then `b` days is adding `a + b` days. */
  lemma AddDaysCompose(d: Date, a: int, b: int)
    requires Valid(d)
    ensures AddDays(AddDays(d, a), b) == AddDays(d, a + b)
  {
    OrdinalInjective();
  }
}
