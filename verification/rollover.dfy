/**
 What the dashboard's index page does before it renders (`render_index` in
 dashboard/routes.py): it starts a new budgeting period when today has
 reached the end of the last one, moves every bill that is due on or before
 the period's first day one increment forward, and lists the bills whose
 next due date falls inside the period, both ends included.

 Today's date is a parameter. Each call advances the period and each bill
 at most ONE step, however far behind they are; the lemmas below make that
 visible.
 */
module Rollover {
  import opened Dates
  import opened Recurrence
  import opened Records
  import opened Optional

  // ---------------------------------------------------------------------------
  // Periods

  predicate PeriodValid(p: Period) {
    Valid(p.start) && Valid(p.end)
  }

  predicate PeriodsValid(periods: seq<Period>) {
    forall i :: 0 <= i < |periods| ==> PeriodValid(periods[i])
  }

  /** Each recorded period begins where the one before it ends. */
  predicate Contiguous(periods: seq<Period>) {
    forall i, j :: 0 <= i < |periods| && 0 <= j < |periods| && j == i + 1 ==> periods[i].end == periods[j].start
  }

  function Last(periods: seq<Period>): Period
    requires |periods| > 0
  {
    periods[|periods| - 1]
  }

  /** The period that follows `p`: it starts on `p`'s end and lasts one increment of the user's range. */
  function NextPeriod(p: Period, code: Code): (r: Period)
    requires Valid(p.end)
    ensures PeriodValid(r)
    ensures Before(r.start, r.end)
    ensures r.start == p.end
    ensures r.end == Add(p.end, code)
  {
    AddSubMove(p.end, code);
    Period(p.end, Add(p.end, code))
  }

  /** Today has reached the end of period `p`. */
  predicate Expired(p: Period, today: Date) {
    NotAfter(p.end, today)
  }

  /**
   The recorded periods after the rollover step: one new period is appended
   when today is on or after the end of the last one. Nothing when there is
   no period to index, or when a new period is needed and the user's range
   is not a recurrence code.
   */
  function RollPeriods(periods: seq<Period>, range: string, today: Date): (r: Option<seq<Period>>)
    requires PeriodsValid(periods)
    ensures r.None? <==> |periods| == 0 || (Expired(Last(periods), today) && !IsCode(range))
    ensures r.Some? ==> PeriodsValid(r.value)
    ensures r.Some? && !Expired(Last(periods), today) ==> r.value == periods
    ensures r.Some? && Expired(Last(periods), today) ==>
      && |r.value| == |periods| + 1
      && r.value[..|periods|] == periods
      && Last(r.value).start == Last(periods).end
      && Last(r.value).end == Add(Last(periods).end, ParseCode(range).value)
      && Before(Last(r.value).start, Last(r.value).end)
  {
    if |periods| == 0 then None
    else if !Expired(Last(periods), today) then Some(periods)
    else match ParseCode(range)
      case None => None
      case Some(code) =>
        var next := NextPeriod(Last(periods), code);
        assert forall i :: 0 <= i < |periods| ==> (periods + [next])[i] == periods[i];
        Some(periods + [next])
  }

  /** Rolling the periods over keeps them contiguous. */
  lemma RollPeriodsContiguous(periods: seq<Period>, range: string, today: Date)
    requires PeriodsValid(periods)
    requires Contiguous(periods)
    requires RollPeriods(periods, range, today).Some?
    ensures Contiguous(RollPeriods(periods, range, today).value)
  {
    var r := RollPeriods(periods, range, today).value;
    if Expired(Last(periods), today) {
      forall i, j | 0 <= i < |r| && 0 <= j < |r| && j == i + 1 ensures r[i].end == r[j].start {
        if j < |periods| {
          assert r[i] == periods[i] && r[j] == periods[j];
        } else {
          assert r[i] == periods[i] == Last(periods);
        }
      }
    }
  }

  /**
   One call advances by one period only: when today is a whole increment or
   more past the last period's end, today is still not inside the new period.
   */
  lemma RollPeriodsNotCaughtUp(periods: seq<Period>, code: Code, range: string, today: Date)
    requires PeriodsValid(periods) && |periods| > 0
    requires ParseCode(range) == Some(code)
    requires NotAfter(Add(Last(periods).end, code), today)
    ensures RollPeriods(periods, range, today).Some?
    ensures Expired(Last(RollPeriods(periods, range, today).value), today)
  {
    AddSubMove(Last(periods).end, code);
  }

  /**
   Rolling over is not idempotent: a second call on the same day appends
   another period when the first did not reach today.
   */
  lemma RollPeriodsTwice(periods: seq<Period>, code: Code, range: string, today: Date)
    requires PeriodsValid(periods) && |periods| > 0
    requires ParseCode(range) == Some(code)
    requires NotAfter(Add(Last(periods).end, code), today)
    ensures RollPeriods(periods, range, today).Some?
    ensures var once := RollPeriods(periods, range, today).value;
      && RollPeriods(once, range, today).Some?
      && |RollPeriods(once, range, today).value| == |periods| + 2
  {
    RollPeriodsNotCaughtUp(periods, code, range, today);
  }

  /** When today lies within one increment after the last end, the new period contains today. */
  lemma RollPeriodsCatchesUp(periods: seq<Period>, code: Code, range: string, today: Date)
    requires PeriodsValid(periods) && |periods| > 0
    requires ParseCode(range) == Some(code)
    requires Expired(Last(periods), today)
    requires Before(today, Add(Last(periods).end, code))
    ensures RollPeriods(periods, range, today).Some?
    ensures var p := Last(RollPeriods(periods, range, today).value);
      NotAfter(p.start, today) && Before(today, p.end)
  {
  }

  // ---------------------------------------------------------------------------
  // Bills

  predicate BillsValid(bills: seq<Bill>) {
    forall i :: 0 <= i < |bills| ==> Valid(bills[i].start)
  }

  /** A bill is due for moving on when its next date is on or before the period's first day. */
  predicate Due(b: Bill, periodStart: Date) {
    NotAfter(b.start, periodStart)
  }

  /**
   One bill's rollover step: a due bill moves one increment of its own
   recurrence forward; a bill with an unknown recurrence string that is due
   fails the whole page (the lookup of its increment fails). Only `start` changes.
   */
  function RollBill(b: Bill, periodStart: Date): (r: Option<Bill>)
    requires Valid(b.start)
    ensures r.None? <==> Due(b, periodStart) && !IsCode(b.occurence)
    ensures r.Some? ==> Valid(r.value.start) && r.value == b.(start := r.value.start)
    ensures !Due(b, periodStart) ==> r == Some(b)
    ensures r.Some? && Due(b, periodStart) ==>
      && Before(b.start, r.value.start)
      && r.value.start == Add(b.start, ParseCode(b.occurence).value)
  {
    if !Due(b, periodStart) then Some(b)
    else match ParseCode(b.occurence)
      case None => None
      case Some(code) =>
        AddSubMove(b.start, code);
        Some(b.(start := Add(b.start, code)))
  }

  /** Every bill's rollover step, in order; nothing when any step fails. */
  function RollBills(bills: seq<Bill>, periodStart: Date): (r: Option<seq<Bill>>)
    requires BillsValid(bills)
    ensures r.None? <==> exists i :: 0 <= i < |bills| && RollBill(bills[i], periodStart).None?
    ensures r.Some? ==> |r.value| == |bills| && BillsValid(r.value)
    ensures r.Some? ==> forall i :: 0 <= i < |bills| ==> RollBill(bills[i], periodStart) == Some(r.value[i])
  {
    if |bills| == 0 then Some([])
    else match RollBill(bills[0], periodStart)
      case None => None
      case Some(b) =>
        match RollBills(bills[1..], periodStart)
        case None =>
          assert forall i :: 0 <= i < |bills| - 1 ==> bills[1..][i] == bills[i + 1];
          None
        case Some(rest) =>
          assert forall i :: 0 < i < |bills| ==> bills[i] == bills[1..][i - 1];
          Some([b] + rest)
  }

  /** The bill is due inside the period, both the first and the last day counting. */
  predicate Active(b: Bill, p: Period) {
    NotAfter(p.start, b.start) && NotAfter(b.start, p.end)
  }

  /** The active bills, in their original order. */
  function ActiveBills(bills: seq<Bill>, p: Period): (r: seq<Bill>)
    ensures |r| <= |bills|
    ensures forall b :: b in r <==> b in bills && Active(b, p)
    ensures forall b :: multiset(r)[b] == if Active(b, p) then multiset(bills)[b] else 0
  {
    if |bills| == 0 then []
    else
      assert bills == [bills[0]] + bills[1..];
      if Active(bills[0], p) then [bills[0]] + ActiveBills(bills[1..], p)
      else ActiveBills(bills[1..], p)
  }

  /** The index page's data: the current period, all bills after their rollover, and the active ones. */
  datatype IndexView = IndexView(periods: seq<Period>, bills: seq<Bill>, active: seq<Bill>)

  /** `render_index` without the template: rollover of period and bills, then selection of active bills. */
  function RenderIndex(range: string, periods: seq<Period>, bills: seq<Bill>, today: Date): (r: Option<IndexView>)
    requires PeriodsValid(periods) && BillsValid(bills)
    ensures RollPeriods(periods, range, today).None? ==> r.None?
    ensures RollPeriods(periods, range, today).Some? ==>
      var current := Last(RollPeriods(periods, range, today).value);
      && (r.None? <==> exists i :: 0 <= i < |bills| && Due(bills[i], current.start) && !IsCode(bills[i].occurence))
      && (r.Some? ==>
        && r.value.periods == RollPeriods(periods, range, today).value
        && |r.value.bills| == |bills|
        && (forall i :: 0 <= i < |bills| ==> r.value.bills[i] == bills[i].(start := r.value.bills[i].start))
        && (forall i :: 0 <= i < |bills| ==>
              r.value.bills[i].start ==
                (if Due(bills[i], current.start) then Add(bills[i].start, ParseCode(bills[i].occurence).value)
                 else bills[i].start))
        && r.value.active == ActiveBills(r.value.bills, current)
        && (forall b :: b in r.value.active <==> b in r.value.bills && Active(b, current)))
  {
    match RollPeriods(periods, range, today)
    case None => None
    case Some(ps) =>
      var current := Last(ps);
      match RollBills(bills, current.start)
      case None => None
      case Some(rolled) => Some(IndexView(ps, rolled, ActiveBills(rolled, current)))
  }

  /**
   A bill two or more increments behind stays behind after one call and is
   not listed, although its due date has passed.
   */
  lemma RollBillNotCaughtUp(b: Bill, code: Code, p: Period)
    requires Valid(b.start) && PeriodValid(p)
    requires ParseCode(b.occurence) == Some(code)
    requires Before(Add(b.start, code), p.start)
    ensures RollBill(b, p.start).Some?
    ensures Due(RollBill(b, p.start).value, p.start)
    ensures !Active(RollBill(b, p.start).value, p)
  {
    AddSubMove(b.start, code);
  }

  /** Rolling a bill over is not idempotent: a bill still due moves again on the next call. */
  lemma RollBillTwice(b: Bill, code: Code, periodStart: Date)
    requires Valid(b.start) && Valid(periodStart)
    requires ParseCode(b.occurence) == Some(code)
    requires NotAfter(Add(b.start, code), periodStart)
    ensures RollBill(b, periodStart).Some?
    ensures var once := RollBill(b, periodStart).value;
      && RollBill(once, periodStart).Some?
      && RollBill(once, periodStart).value.start == Add(Add(b.start, code), code)
      && RollBill(once, periodStart).value != once
  {
    AddSubMove(b.start, code);
    AddSubMove(Add(b.start, code), code);
  }

  /**
   The active test alone is inclusive at both ends, so it accepts a bill due
   on the day a period ends both for that period and for the next one, which
   starts that day. On the page the bill is moved on before the next period's
   test is made (`BillOnFirstDayMoved`), so it is listed with that date once.
   */
  lemma BoundaryBillActiveTwice(b: Bill, p: Period, code: Code)
    requires PeriodValid(p) && NotAfter(p.start, p.end)
    requires b.start == p.end
    ensures Active(b, p)
    ensures Active(b, NextPeriod(p, code))
  {
  }

  /**
   A bill due exactly on the first day of the current period is moved one
   increment on before the active test, so that day's occurrence is not listed.
   */
  lemma BillOnFirstDayMoved(b: Bill, code: Code, p: Period)
    requires Valid(b.start) && PeriodValid(p)
    requires ParseCode(b.occurence) == Some(code)
    requires b.start == p.start
    ensures RollBill(b, p.start).Some?
    ensures RollBill(b, p.start).value.start == Add(p.start, code)
    ensures Before(p.start, RollBill(b, p.start).value.start)
  {
  }
}
