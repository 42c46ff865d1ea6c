/**
 Period derivation: `get_periods` of dashboard/utility.py.

 For every row of the date-sorted listing, `get_periods` starts at the
 user's `period_start`, subtracts the range's increment until the start is
 no later than the row's date, and records `(start, start + increment)`.
 `PeriodFor` and `GetPeriods` keep that algorithm as written. Next to them,
 `GridPeriodFor` and `GetGridPeriods` count whole increments from
 `period_start` instead (`period_start - k * increment`), which is what the
 periods are meant to be: the two agree for the week codes and differ for
 the month codes, where repeated subtraction clamps the day of the month.
 */
module Periods {
  import opened Dates
  import opened Recurrence
  import opened Records
  import opened Listing
  import opened Ladders
  import opened Optional

  // ---------------------------------------------------------------------------
  // The loop as written

  /** The loop of `get_periods`: `while date < start: start -= get_relative(range)`. */
  function WalkBackFrom(start: Date, code: Code, date: Date): (r: Date)
    requires Valid(start) && Valid(date)
    ensures Valid(r)
    ensures NotAfter(r, start)
    ensures NotAfter(r, date)
    ensures NotAfter(start, date) ==> r == start
    decreases Key(start) - Key(date)
  {
    if Before(date, start) then
      AddSubMove(start, code);
      KeyOrder(Sub(start, code), start);
      KeyOrder(date, start);
      WalkBackFrom(Sub(start, code), code, date)
    else start
  }

  /** A later date never walks further back. */
  lemma {:induction false} WalkBackFromMonotone(start: Date, code: Code, d1: Date, d2: Date)
    requires Valid(start) && Valid(d1) && Valid(d2)
    requires NotAfter(d1, d2)
    ensures NotAfter(WalkBackFrom(start, code, d1), WalkBackFrom(start, code, d2))
    decreases Key(start) - Key(d1)
  {
    if Before(d2, start) {
      AddSubMove(start, code);
      KeyOrder(Sub(start, code), start);
      KeyOrder(d1, start);
      WalkBackFromMonotone(Sub(start, code), code, d1, d2);
    }
  }

  /** The period `get_periods` records for a row dated `date`. */
  function PeriodFor(periodStart: Date, code: Code, date: Date): (p: Period)
    requires Valid(periodStart) && Valid(date)
    ensures Valid(p.start) && Valid(p.end)
    ensures p.end == Add(p.start, code)
    ensures Before(p.start, p.end)
    ensures NotAfter(p.start, periodStart)
    ensures NotAfter(p.start, date)
    ensures NotAfter(periodStart, date) ==> p.start == periodStart
  {
    var start := WalkBackFrom(periodStart, code, date);
    AddSubMove(start, code);
    Period(start, Add(start, code))
  }

  lemma PeriodForStart(periodStart: Date, code: Code, date: Date)
    requires Valid(periodStart) && Valid(date)
    ensures PeriodFor(periodStart, code, date).start == WalkBackFrom(periodStart, code, date)
  {
  }

  /** `period_start` with the increment subtracted `n` times, one subtraction after another. */
  function SubChain(start: Date, code: Code, n: nat): (r: Date)
    requires Valid(start)
    ensures Valid(r)
    ensures NotAfter(r, start)
    ensures n > 0 ==> Before(r, start)
    decreases n
  {
    if n == 0 then start
    else
      AddSubMove(start, code);
      SubChain(Sub(start, code), code, n - 1)
  }

  /** Dropping the first subtraction of a chain leaves a chain from the next point. */
  lemma SubChainShift(start: Date, code: Code, m: nat)
    requires Valid(start) && m > 0
    ensures Valid(Sub(start, code))
    ensures SubChain(start, code, m) == SubChain(Sub(start, code), code, m - 1)
  {
    AddSubMove(start, code);
  }

  /** One turn of the loop: the start moves one increment back and the outcome is unchanged. */
  lemma WalkBackStep(start: Date, code: Code, date: Date) returns (next: Date)
    requires Valid(start) && Valid(date)
    requires Before(date, start)
    ensures next == Sub(start, code) && Valid(next)
    ensures Key(next) < Key(start) && Key(date) < Key(start)
    ensures WalkBackFrom(start, code, date) == WalkBackFrom(next, code, date)
  {
    next := Sub(start, code);
    AddSubMove(start, code);
    KeyOrder(next, start);
    KeyOrder(date, start);
  }

  /** The loop stops at the first point of the chain that is not later than the date. */
  lemma {:induction false} WalkBackIsFirstChainPoint(start: Date, code: Code, date: Date) returns (n: nat)
    requires Valid(start) && Valid(date)
    ensures WalkBackFrom(start, code, date) == SubChain(start, code, n)
    ensures NotAfter(SubChain(start, code, n), date)
    ensures forall m :: 0 <= m < n ==> Before(date, SubChain(start, code, m))
    decreases Key(start) - Key(date)
  {
    if Before(date, start) {
      var next := WalkBackStep(start, code, date);
      var n' := WalkBackIsFirstChainPoint(next, code, date);
      n := n' + 1;
      SubChainShift(start, code, n);
      forall m | 0 <= m < n ensures Before(date, SubChain(start, code, m)) {
        if m > 0 {
          SubChainShift(start, code, m);
        }
      }
    } else {
      n := 0;
    }
  }

  /**
   The start is the first of `period_start`, `period_start - increment`,
   `(period_start - increment) - increment`, ... that is not later than the date.
   */
  ghost predicate FirstChainStart(periodStart: Date, code: Code, date: Date, start: Date)
    requires Valid(periodStart)
  {
    exists n: nat ::
      && start == SubChain(periodStart, code, n)
      && NotAfter(start, date)
      && (forall m :: 0 <= m < n ==> Before(date, SubChain(periodStart, code, m)))
  }

  lemma PeriodForStartsOnChain(periodStart: Date, code: Code, date: Date)
    requires Valid(periodStart) && Valid(date)
    ensures FirstChainStart(periodStart, code, date, PeriodFor(periodStart, code, date).start)
  {
    var n := WalkBackIsFirstChainPoint(periodStart, code, date);
  }

  // ---------------------------------------------------------------------------
  // get_periods

  /**
   What `get_periods` records for a row dated `date`: a valid start no later
   than the date, reached from `period_start` by the loop, and the end one
   increment after the start.
   */
  ghost predicate RecordedPeriod(periodStart: Date, code: Code, date: Date, p: Period)
    requires Valid(periodStart)
  {
    && Valid(p.start)
    && p.end == Add(p.start, code)
    && NotAfter(p.start, date)
    && FirstChainStart(periodStart, code, date, p.start)
  }

  lemma PeriodForRecorded(periodStart: Date, code: Code, date: Date)
    requires Valid(periodStart) && Valid(date)
    ensures RecordedPeriod(periodStart, code, date, PeriodFor(periodStart, code, date))
  {
    PeriodForStartsOnChain(periodStart, code, date);
  }

  predicate UserValid(u: UserDetails) {
    Valid(u.periodStart) && DatesValid(u.accounts)
  }

  /** The sorted listing has one row per transaction, each with a valid date. */
  lemma ListingDatesValid(accounts: seq<Account>)
    requires DatesValid(accounts)
    ensures |SortedListing(accounts)| == Count(accounts)
    ensures RowDatesValid(SortedListing(accounts))
  {
    SortedListingFacts(accounts);
    var rows := SortedListing(accounts);
    forall k | 0 <= k < |rows| ensures Valid(rows[k].date) {
      assert rows[k] in rows;
    }
  }

  /** Every row carries a valid date. */
  predicate RowDatesValid(rows: seq<Entry>) {
    forall k :: 0 <= k < |rows| ==> Valid(rows[k].date)
  }

  /** The loop of `get_periods` over `rows`, for a known code: row by row, in order. */
  function PeriodsOf(periodStart: Date, code: Code, rows: seq<Entry>): (r: seq<Period>)
    requires Valid(periodStart) && RowDatesValid(rows)
    ensures |r| == |rows|
    ensures forall k :: 0 <= k < |rows| ==> r[k] == PeriodFor(periodStart, code, rows[k].date)
  {
    seq(|rows|, k requires 0 <= k < |rows| => PeriodFor(periodStart, code, rows[k].date))
  }

  /**
   `get_periods`: one period per row of the sorted listing, in the same
   order and without deduplication. An unknown range code has no increment,
   so the first row fails on it; with no transactions the result is empty.
   */
  function GetPeriods(u: UserDetails): (r: Option<seq<Period>>)
    requires UserValid(u)
    ensures r.None? <==> !IsCode(u.range) && Count(u.accounts) > 0
    ensures r.Some? ==> |r.value| == |SortedListing(u.accounts)| == Count(u.accounts)
    ensures r.Some? && IsCode(u.range) ==>
      var rows := SortedListing(u.accounts);
      forall k :: 0 <= k < |r.value| ==>
        RecordedPeriod(u.periodStart, ParseCode(u.range).value, rows[k].date, r.value[k])
  {
    var rows := SortedListing(u.accounts);
    ListingDatesValid(u.accounts);
    match ParseCode(u.range)
    case None => if |rows| == 0 then Some([]) else None
    case Some(code) =>
      var r := PeriodsOf(u.periodStart, code, rows);
      assert forall k :: 0 <= k < |r| ==> RecordedPeriod(u.periodStart, code, rows[k].date, r[k]) by {
        forall k | 0 <= k < |r| ensures RecordedPeriod(u.periodStart, code, rows[k].date, r[k]) {
          PeriodForRecorded(u.periodStart, code, rows[k].date);
        }
      }
      Some(r)
  }

  /** Each recorded period is the one `PeriodFor` gives the row's date. */
  lemma GetPeriodsRow(u: UserDetails, k: nat)
    requires UserValid(u) && IsCode(u.range)
    requires k < Count(u.accounts)
    ensures |SortedListing(u.accounts)| == Count(u.accounts)
    ensures RowDatesValid(SortedListing(u.accounts))
    ensures GetPeriods(u).Some? && k < |GetPeriods(u).value|
    ensures GetPeriods(u).value[k] == PeriodFor(u.periodStart, ParseCode(u.range).value, SortedListing(u.accounts)[k].date)
  {
    ListingDatesValid(u.accounts);
  }

  /** A later row never gets an earlier period start. */
  lemma PeriodForMonotone(periodStart: Date, code: Code, d1: Date, d2: Date)
    requires Valid(periodStart) && Valid(d1) && Valid(d2)
    requires NotAfter(d1, d2)
    ensures NotAfter(PeriodFor(periodStart, code, d1).start, PeriodFor(periodStart, code, d2).start)
  {
    WalkBackFromMonotone(periodStart, code, d1, d2);
  }

  /** Period starts are non-decreasing along the output of `get_periods`, since the rows are sorted. */
  lemma PeriodStartsNonDecreasing(u: UserDetails, k1: nat, k2: nat)
    requires UserValid(u)
    requires IsCode(u.range)
    requires k1 <= k2 < Count(u.accounts)
    ensures GetPeriods(u).Some?
    ensures NotAfter(GetPeriods(u).value[k1].start, GetPeriods(u).value[k2].start)
  {
    var rows := SortedListing(u.accounts);
    GetPeriodsRow(u, k1);
    GetPeriodsRow(u, k2);
    var d1, d2 := rows[k1].date, rows[k2].date;
    assert NotAfter(d1, d2) by {
      SortedRowsOrdered(rows, k1, k2);
    }
    PeriodForMonotone(u.periodStart, ParseCode(u.range).value, d1, d2);
  }

  lemma SortedRowsOrdered(rows: seq<Entry>, k1: nat, k2: nat)
    requires SortedByDate(rows)
    requires k1 <= k2 < |rows|
    ensures NotAfter(rows[k1].date, rows[k2].date)
  {
  }

  // ---------------------------------------------------------------------------
  // Defect: for the month codes the period need not contain its transaction

  /** The last day of February of year `y`. */
  function FebruaryEnd(y: int): Date {
    Date(y, 2, DaysInMonth(y, 2))
  }

  lemma SubMarch31(y: int)
    ensures Sub(Date(y, 3, 31), Monthly) == FebruaryEnd(y)
  {
    DivMod12(y, 1);
    assert MoveMonths(Date(y, 3, 31), 0, -1) == FebruaryEnd(y);
  }

  lemma AddFebruaryEnd(y: int)
    ensures Add(FebruaryEnd(y), Monthly) == Date(y, 3, DaysInMonth(y, 2))
  {
    DivMod12(y, 2);
    assert MoveMonths(FebruaryEnd(y), 0, 1) == Date(y, 3, DaysInMonth(y, 2));
  }

  /**
   In any year, with `period_start` on 31 March and range `1M`, a
   transaction dated 29 March walks back to the end of February and is
   given the period from there to 28 or 29 March,
   */
  lemma WalkBackMissesTransaction(y: int)
    ensures PeriodFor(Date(y, 3, 31), Monthly, Date(y, 3, 29))
      == Period(FebruaryEnd(y), Date(y, 3, DaysInMonth(y, 2)))
  {
    PeriodForStart(Date(y, 3, 31), Monthly, Date(y, 3, 29));
    SubMarch31(y);
    AddFebruaryEnd(y);
  }

  /** which does not contain it. */
  lemma PeriodMissesTransaction(y: int)
    ensures !InPeriod(Date(y, 3, 29), PeriodFor(Date(y, 3, 31), Monthly, Date(y, 3, 29)))
  {
    WalkBackMissesTransaction(y);
  }

  // ---------------------------------------------------------------------------
  // Corrected derivation: whole increments counted from `period_start`

  /** `anchor + k * get_relative(range)` for every integer `k`. */
  function ShiftLadder(anchor: Date, code: Code): (f: int -> Date)
    requires Valid(anchor)
    ensures Ladder(f)
    ensures forall k :: f(k) == Shift(anchor, code, k)
  {
    // A lambda cannot carry `Shift`'s precondition on `anchor`, so it tests
    // it again; the `else` branch is never taken under this function's `requires`.
    var f := k => if Valid(anchor) then Shift(anchor, code, k) else anchor;
    assert Ladder(f) by {
      forall i, j | i < j ensures Before(f(i), f(j)) {
        ShiftStrict(anchor, code, i, j);
      }
    }
    f
  }

  /** The corrected period of a row dated `date`: `[period_start + j * inc, period_start + (j + 1) * inc)` for some `j <= 0`. */
  function GridPeriodFor(periodStart: Date, code: Code, date: Date): (p: Period)
    requires Valid(periodStart) && Valid(date)
    ensures exists j :: j <= 0 && p == Period(Shift(periodStart, code, j), Shift(periodStart, code, j + 1))
    ensures NotAfter(p.start, date)
    ensures NotAfter(p.start, periodStart)
    ensures Before(date, Add(periodStart, code)) ==> InPeriod(date, p)
    ensures NotAfter(periodStart, date) ==> p == Period(periodStart, Add(periodStart, code))
  {
    var f := ShiftLadder(periodStart, code);
    ShiftZero(periodStart, code);
    ShiftOne(periodStart, code);
    LadderPeriodFor(f, date)
  }

  /** Two rows are given the same corrected period or periods with no date in common. */
  lemma GridPeriodsDisjoint(periodStart: Date, code: Code, d1: Date, d2: Date, d: Date)
    requires Valid(periodStart) && Valid(d1) && Valid(d2)
    ensures var p1, p2 := GridPeriodFor(periodStart, code, d1), GridPeriodFor(periodStart, code, d2);
      p1 == p2 || !(InPeriod(d, p1) && InPeriod(d, p2))
  {
    var f := ShiftLadder(periodStart, code);
    var p1, p2 := GridPeriodFor(periodStart, code, d1), GridPeriodFor(periodStart, code, d2);
    var j1 :| j1 <= 0 && p1 == Period(Shift(periodStart, code, j1), Shift(periodStart, code, j1 + 1));
    var j2 :| j2 <= 0 && p2 == Period(Shift(periodStart, code, j2), Shift(periodStart, code, j2 + 1));
    assert p1 == Rung(f, j1) && p2 == Rung(f, j2);
    if j1 != j2 {
      RungsDisjoint(f, j1, j2, d);
    }
  }

  lemma GridPeriodOnLadder(periodStart: Date, code: Code, date: Date)
    requires Valid(periodStart) && Valid(date)
    ensures GridPeriodFor(periodStart, code, date) == LadderPeriodFor(ShiftLadder(periodStart, code), date)
  {
  }

  lemma ShiftLadderMarch31(y: int)
    ensures ShiftLadder(Date(y, 3, 31), Monthly)(0) == Date(y, 3, 31)
    ensures ShiftLadder(Date(y, 3, 31), Monthly)(-1) == FebruaryEnd(y)
  {
    ShiftZero(Date(y, 3, 31), Monthly);
    ShiftOne(Date(y, 3, 31), Monthly);
    SubMarch31(y);
  }

  /** The corrected derivation gives the transaction of 29 March the period from the end of February to 31 March, */
  lemma GridPeriodMarch29(y: int)
    ensures GridPeriodFor(Date(y, 3, 31), Monthly, Date(y, 3, 29)) == Period(FebruaryEnd(y), Date(y, 3, 31))
  {
    ShiftLadderMarch31(y);
    LadderPeriodBelow(ShiftLadder(Date(y, 3, 31), Monthly), Date(y, 3, 29));
    GridPeriodOnLadder(Date(y, 3, 31), Monthly, Date(y, 3, 29));
  }

  /** which contains it. */
  lemma GridPeriodContainsTransaction(y: int)
    ensures InPeriod(Date(y, 3, 29), GridPeriodFor(Date(y, 3, 31), Monthly, Date(y, 3, 29)))
  {
    GridPeriodMarch29(y);
  }

  /**
   For the week codes one subtraction moves each multiple of the increment to
   the one below, so the loop stops on the greatest multiple not later than
   the date.
   */
  lemma {:induction false} WeekWalkOnLadder(periodStart: Date, code: Code, date: Date, i: int)
    requires Valid(periodStart) && Valid(date)
    requires code == Weekly || code == Fortnightly
    ensures var f := ShiftLadder(periodStart, code);
      WalkBackFrom(f(i), code, date) == f(RungAtOrBelow(f, date, i))
    decreases Key(ShiftLadder(periodStart, code)(i)) - Key(date)
  {
    var f := ShiftLadder(periodStart, code);
    if Before(date, f(i)) {
      WeekWalkStep(periodStart, code, date, i);
      WeekWalkOnLadder(periodStart, code, date, i - 1);
    }
  }

  /** One round of the loop from a grid point later than the date: both sides move one grid point down. */
  lemma WeekWalkStep(periodStart: Date, code: Code, date: Date, i: int)
    requires Valid(periodStart) && Valid(date)
    requires code == Weekly || code == Fortnightly
    requires Before(date, ShiftLadder(periodStart, code)(i))
    ensures var f := ShiftLadder(periodStart, code);
      && Key(f(i - 1)) - Key(date) < Key(f(i)) - Key(date)
      && WalkBackFrom(f(i), code, date) == WalkBackFrom(f(i - 1), code, date)
      && RungAtOrBelow(f, date, i) == RungAtOrBelow(f, date, i - 1)
  {
    var f := ShiftLadder(periodStart, code);
    RungBelow(f, i);
    KeyOrder(date, f(i));
    WeekShiftStep(periodStart, code, i);
    assert Sub(f(i), code) == f(i - 1);
  }

  /** For the week codes the loop as written already lands on the grid. */
  lemma WeekCodesAgree(periodStart: Date, code: Code, date: Date)
    requires Valid(periodStart) && Valid(date)
    requires code == Weekly || code == Fortnightly
    ensures PeriodFor(periodStart, code, date) == GridPeriodFor(periodStart, code, date)
  {
    var f := ShiftLadder(periodStart, code);
    var j := RungAtOrBelow(f, date, 0);
    ShiftZero(periodStart, code);
    WeekWalkOnLadder(periodStart, code, date, 0);
    PeriodForStart(periodStart, code, date);
    WeekShiftStep(periodStart, code, j);
    GridPeriodOnLadder(periodStart, code, date);
    assert LadderPeriodFor(f, date) == Rung(f, j);
  }

  /**
   `p` is a corrected period for a row dated `date`: a grid interval at or
   below the current one, starting on or before the date, and containing it
   whenever the date is before the current period's end.
   */
  ghost predicate OnGrid(periodStart: Date, code: Code, date: Date, p: Period)
    requires Valid(periodStart)
  {
    && (exists j :: j <= 0 && p == Period(Shift(periodStart, code, j), Shift(periodStart, code, j + 1)))
    && NotAfter(p.start, date)
    && (Before(date, Add(periodStart, code)) ==> InPeriod(date, p))
  }

  /** The corrected periods of `rows`, row by row, in order. */
  function GridPeriodsOf(periodStart: Date, code: Code, rows: seq<Entry>): (r: seq<Period>)
    requires Valid(periodStart) && RowDatesValid(rows)
    ensures |r| == |rows|
    ensures forall k :: 0 <= k < |rows| ==> OnGrid(periodStart, code, rows[k].date, r[k])
  {
    seq(|rows|, k requires 0 <= k < |rows| => GridPeriodFor(periodStart, code, rows[k].date))
  }

  /**
   The corrected periods: like `GetPeriods`, one per sorted row, but each on
   the grid of whole increments from `period_start`, so each contains its
   row whenever the row is dated before the end of the current period.
   */
  function GetGridPeriods(u: UserDetails): (r: Option<seq<Period>>)
    requires UserValid(u)
    ensures r.None? <==> !IsCode(u.range) && Count(u.accounts) > 0
    ensures r.Some? ==> |r.value| == |SortedListing(u.accounts)| == Count(u.accounts)
    ensures r.Some? && IsCode(u.range) ==>
      var rows := SortedListing(u.accounts);
      forall k :: 0 <= k < |r.value| ==> OnGrid(u.periodStart, ParseCode(u.range).value, rows[k].date, r.value[k])
  {
    var rows := SortedListing(u.accounts);
    ListingDatesValid(u.accounts);
    match ParseCode(u.range)
    case None => if |rows| == 0 then Some([]) else None
    case Some(code) => Some(GridPeriodsOf(u.periodStart, code, rows))
  }
}
