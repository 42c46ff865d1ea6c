/**
 Recurrence codes and the calendar increments they stand for
 (`get_relative` in dashboard/utility.py), and the application of such an
 increment to a date with the semantics of dateutil's `relativedelta`:
 years and months move the month, the day of the month is clamped to the
 length of the month reached, and then whole days are added.
 */
module Recurrence {
  import opened Dates
  import opened Optional

  /** The fields of a `relativedelta` that the recurrence codes use. */
  datatype Delta = Delta(years: int, months: int, days: int)

  /** The five recurrence codes, named after the labels the forms give them. */
  datatype Code = Weekly | Fortnightly | Monthly | Quarterly | Annually

  /** The stored code strings `1W`, `2W`, `1M`, `1Q`, `1Y`. */
  function ParseCode(s: string): (r: Option<Code>)
    ensures r == Some(Weekly) <==> s == "1W"
    ensures r == Some(Fortnightly) <==> s == "2W"
    ensures r == Some(Monthly) <==> s == "1M"
    ensures r == Some(Quarterly) <==> s == "1Q"
    ensures r == Some(Annually) <==> s == "1Y"
  {
    if s == "1W" then Some(Weekly)
    else if s == "2W" then Some(Fortnightly)
    else if s == "1M" then Some(Monthly)
    else if s == "1Q" then Some(Quarterly)
    else if s == "1Y" then Some(Annually)
    else None
  }

  predicate IsCode(s: string) {
    ParseCode(s).Some?
  }

  /**
   A delta that is either a positive number of days, or a positive
   number of months and years with no days: each code's increment is one.
   */
  predicate Forward(delta: Delta) {
    || (delta.years == 0 && delta.months == 0 && delta.days > 0)
    || (delta.days == 0 && delta.years >= 0 && delta.months >= 0 && delta.years + delta.months > 0)
  }

  function Increment(c: Code): (delta: Delta)
    ensures Forward(delta)
  {
    match c
    case Weekly => Delta(0, 0, 7)
    case Fortnightly => Delta(0, 0, 14)
    case Monthly => Delta(0, 1, 0)
    case Quarterly => Delta(0, 3, 0)
    case Annually => Delta(1, 0, 0)
  }

  /** `get_relative`: the increment of a code string, or nothing for an unknown string. */
  function GetRelative(s: string): (r: Option<Delta>)
    ensures r.Some? <==> IsCode(s)
    ensures r.Some? ==> Forward(r.value)
    ensures s == "1W" ==> r == Some(Delta(0, 0, 7))
    ensures s == "2W" ==> r == Some(Delta(0, 0, 14))
    ensures s == "1M" ==> r == Some(Delta(0, 1, 0))
    ensures s == "1Q" ==> r == Some(Delta(0, 3, 0))
    ensures s == "1Y" ==> r == Some(Delta(1, 0, 0))
  {
    match ParseCode(s)
    case Some(c) => Some(Increment(c))
    case None => None
  }

  function Negate(delta: Delta): Delta {
    Delta(-delta.years, -delta.months, -delta.days)
  }

  /** `k * delta`, as `relativedelta.__mul__` scales every field. */
  function Scale(delta: Delta, k: int): Delta {
    Delta(delta.years * k, delta.months * k, delta.days * k)
  }

  function Min(a: int, b: int): int {
    if a <= b then a else b
  }

  /**
   The year-and-month part of `relativedelta` addition: move to the month
   `years * 12 + months` months away and clamp the day to that month's length.
   */
  function MoveMonths(d: Date, years: int, months: int): (r: Date)
    requires Valid(d)
    ensures Valid(r)
  {
    var index := (d.year + years) * 12 + (d.month - 1) + months;
    var y := index / 12;
    var m := index % 12 + 1;
    Date(y, m, Min(d.day, DaysInMonth(y, m)))
  }

  /**
   `d + delta` with `relativedelta` semantics: months first, then days.
   The first two branches are the cases where one of the two moves is
   empty; `ApplyMonthsThenDays` shows all three agree with the general one.
   */
  function Apply(d: Date, delta: Delta): (r: Date)
    requires Valid(d)
    ensures Valid(r)
  {
    if delta.days == 0 then MoveMonths(d, delta.years, delta.months)
    else if delta.years == 0 && delta.months == 0 then AddDays(d, delta.days)
    else AddDays(MoveMonths(d, delta.years, delta.months), delta.days)
  }

  /** `date + get_relative(code)`; `AddSubApply` shows it is the increment applied as a `relativedelta`. */
  function Add(d: Date, code: Code): (r: Date)
    requires Valid(d)
    ensures Valid(r)
  {
    match code
    case Weekly => AddDays(d, 7)
    case Fortnightly => AddDays(d, 14)
    case Monthly => MoveMonths(d, 0, 1)
    case Quarterly => MoveMonths(d, 0, 3)
    case Annually => MoveMonths(d, 1, 0)
  }

  /** `date - get_relative(code)`. */
  function Sub(d: Date, code: Code): (r: Date)
    requires Valid(d)
    ensures Valid(r)
  {
    match code
    case Weekly => AddDays(d, -7)
    case Fortnightly => AddDays(d, -14)
    case Monthly => MoveMonths(d, 0, -1)
    case Quarterly => MoveMonths(d, 0, -3)
    case Annually => MoveMonths(d, -1, 0)
  }

  /**
   `date + k * get_relative(code)`: `k` increments counted from one anchor,
   with one clamp of the day at the end rather than one per increment.
   `ShiftScales` shows it is the scaled increment `k * delta` applied once.
   */
  function Shift(d: Date, code: Code, k: int): (r: Date)
    requires Valid(d)
    ensures Valid(r)
  {
    match code
    case Weekly => AddDays(d, 7 * k)
    case Fortnightly => AddDays(d, 14 * k)
    case Monthly => MoveMonths(d, 0, k)
    case Quarterly => MoveMonths(d, 0, 3 * k)
    case Annually => MoveMonths(d, k, 0)
  }

  // ---------------------------------------------------------------------------
  // How a delta moves a date

  lemma DivMod12(y: int, r: int)
    requires 0 <= r < 12
    ensures (y * 12 + r) / 12 == y
    ensures (y * 12 + r) % 12 == r
  {
    var q, s := (y * 12 + r) / 12, (y * 12 + r) % 12;
    assert (y - q) * 12 == s - r;
  }

  /** Moving by no months leaves a date unchanged. */
  lemma MoveNoMonths(d: Date)
    requires Valid(d)
    ensures MoveMonths(d, 0, 0) == d
  {
    DivMod12(d.year, d.month - 1);
  }

  /** Every delta moves the month first and then adds the days. */
  lemma ApplyMonthsThenDays(d: Date, delta: Delta)
    requires Valid(d)
    ensures Apply(d, delta) == AddDays(MoveMonths(d, delta.years, delta.months), delta.days)
  {
    MoveNoMonths(d);
  }

  /** A delta of days only is plain day arithmetic. */
  lemma ApplyDays(d: Date, n: int)
    requires Valid(d)
    ensures Apply(d, Delta(0, 0, n)) == AddDays(d, n)
  {
    MoveNoMonths(d);
  }

  /** Moving by years and months moves the month index by `12 * years + months`. */
  lemma MoveMonthsIndex(d: Date, years: int, months: int)
    requires Valid(d)
    ensures MonthIndex(MoveMonths(d, years, months)) == MonthIndex(d) + 12 * years + months
  {
    var index := (d.year + years) * 12 + (d.month - 1) + months;
    assert index == index / 12 * 12 + index % 12;
  }

  /** A delta of years and months moves the month index and clamps the day. */
  lemma ApplyMonths(d: Date, years: int, months: int)
    requires Valid(d)
    ensures Apply(d, Delta(years, months, 0)) == MoveMonths(d, years, months)
    ensures MonthIndex(MoveMonths(d, years, months)) == MonthIndex(d) + 12 * years + months
  {
    MoveMonthsIndex(d, years, months);
  }

  /** A forward delta moves every date strictly forward, its negation strictly backward. */
  lemma ApplyForward(d: Date, delta: Delta)
    requires Valid(d)
    requires Forward(delta)
    ensures Before(d, Apply(d, delta))
    ensures Before(Apply(d, Negate(delta)), d)
  {
    if delta.days > 0 {
      ApplyDays(d, delta.days);
      ApplyDays(d, -delta.days);
    } else {
      ApplyMonths(d, delta.years, delta.months);
      ApplyMonths(d, -delta.years, -delta.months);
      MonthIndexOrder(d, Apply(d, delta));
      MonthIndexOrder(Apply(d, Negate(delta)), d);
    }
  }

  /** Adding and subtracting a code is applying its increment, or the negated increment, as a `relativedelta`. */
  lemma AddSubApply(d: Date, code: Code)
    requires Valid(d)
    ensures Add(d, code) == Apply(d, Increment(code))
    ensures Sub(d, code) == Apply(d, Negate(Increment(code)))
  {
    match code
    case Weekly =>
    case Fortnightly =>
    case Monthly =>
    case Quarterly =>
    case Annually =>
  }

  /** Adding a code's increment gives a strictly later date, subtracting it a strictly earlier one. */
  lemma AddSubMove(d: Date, code: Code)
    requires Valid(d)
    ensures Before(d, Add(d, code))
    ensures Before(Sub(d, code), d)
  {
    AddSubApply(d, code);
    ApplyForward(d, Increment(code));
  }

  /** The increments of the five codes: 7 and 14 days, 1, 3 and 12 months. */
  lemma CodeIncrements(d: Date, code: Code)
    requires Valid(d)
    ensures code == Weekly ==> Ordinal(Add(d, code)) == Ordinal(d) + 7
    ensures code == Fortnightly ==> Ordinal(Add(d, code)) == Ordinal(d) + 14
    ensures code == Monthly ==> MonthIndex(Add(d, code)) == MonthIndex(d) + 1
    ensures code == Quarterly ==> MonthIndex(Add(d, code)) == MonthIndex(d) + 3
    ensures code == Annually ==> MonthIndex(Add(d, code)) == MonthIndex(d) + 12
  {
    match code
    case Weekly =>
    case Fortnightly =>
    case Monthly => MoveMonthsIndex(d, 0, 1);
    case Quarterly => MoveMonthsIndex(d, 0, 3);
    case Annually => MoveMonthsIndex(d, 1, 0);
  }

  /** `k * delta` applied once: the shift is the scaled increment. */
  lemma ShiftScales(d: Date, code: Code, k: int)
    requires Valid(d)
    ensures Shift(d, code, k) == Apply(d, Scale(Increment(code), k))
  {
    match code
    case Weekly =>
      assert Scale(Increment(code), k) == Delta(0, 0, 7 * k);
      ApplyDays(d, 7 * k);
    case Fortnightly =>
      assert Scale(Increment(code), k) == Delta(0, 0, 14 * k);
      ApplyDays(d, 14 * k);
    case Monthly =>
      assert Scale(Increment(code), k) == Delta(0, k, 0);
      ApplyMonths(d, 0, k);
    case Quarterly =>
      assert Scale(Increment(code), k) == Delta(0, 3 * k, 0);
      ApplyMonths(d, 0, 3 * k);
    case Annually =>
      assert Scale(Increment(code), k) == Delta(k, 0, 0);
      ApplyMonths(d, k, 0);
  }

  lemma ShiftZero(d: Date, code: Code)
    requires Valid(d)
    ensures Shift(d, code, 0) == d
  {
    MoveNoMonths(d);
  }

  lemma ShiftOne(d: Date, code: Code)
    requires Valid(d)
    ensures Shift(d, code, 1) == Add(d, code)
    ensures Shift(d, code, -1) == Sub(d, code)
  {
  }

  /** Multiples of one increment from a fixed anchor are strictly increasing in the multiple. */
  lemma ShiftStrict(d: Date, code: Code, i: int, j: int)
    requires Valid(d)
    requires i < j
    ensures Before(Shift(d, code, i), Shift(d, code, j))
  {
    match code
    case Weekly => AddDaysStrict(d, 7 * i, 7 * j);
    case Fortnightly => AddDaysStrict(d, 14 * i, 14 * j);
    case Monthly =>
      MoveMonthsIndex(d, 0, i);
      MoveMonthsIndex(d, 0, j);
      MonthIndexOrder(Shift(d, code, i), Shift(d, code, j));
    case Quarterly =>
      MoveMonthsIndex(d, 0, 3 * i);
      MoveMonthsIndex(d, 0, 3 * j);
      MonthIndexOrder(Shift(d, code, i), Shift(d, code, j));
    case Annually =>
      MoveMonthsIndex(d, i, 0);
      MoveMonthsIndex(d, j, 0);
      MonthIndexOrder(Shift(d, code, i), Shift(d, code, j));
  }

  /** For the week codes subtraction undoes addition. */
  lemma WeekRoundTrip(d: Date, code: Code)
    requires Valid(d)
    requires code == Weekly || code == Fortnightly
    ensures Sub(Add(d, code), code) == d
  {
    var n := Increment(code).days;
    ApplyDays(d, n);
    ApplyDays(Add(d, code), -n);
    AddDaysInverse(d, n);
  }

  /** For the week codes one increment moves the `k`-th multiple to the `(k + 1)`-th, and back. */
  lemma WeekShiftStep(d: Date, code: Code, k: int)
    requires Valid(d)
    requires code == Weekly || code == Fortnightly
    ensures Add(Shift(d, code, k), code) == Shift(d, code, k + 1)
    ensures Sub(Shift(d, code, k), code) == Shift(d, code, k - 1)
  {
    if code == Weekly {
      AddDaysCompose(d, 7 * k, 7);
      AddDaysCompose(d, 7 * k, -7);
    } else {
      AddDaysCompose(d, 14 * k, 14);
      AddDaysCompose(d, 14 * k, -14);
    }
  }

  /** For the month codes it does not: 2023-01-31 + 1M is 2023-02-28, and that - 1M is 2023-01-28. */
  lemma MonthRoundTripClamps()
    ensures Add(Date(2023, 1, 31), Monthly) == Date(2023, 2, 28)
    ensures Sub(Add(Date(2023, 1, 31), Monthly), Monthly) == Date(2023, 1, 28)
  {
    DivMod12(2023, 1);
    assert MoveMonths(Date(2023, 1, 31), 0, 1) == Date(2023, 2, 28);
    assert Add(Date(2023, 1, 31), Monthly) == Date(2023, 2, 28);
    DivMod12(2023, 0);
    assert MoveMonths(Date(2023, 2, 28), 0, -1) == Date(2023, 1, 28);
  }
}
