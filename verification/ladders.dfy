/**
 Ladders: strictly increasing families of dates indexed by the integers,
 such as the multiples of one increment counted from an anchor date.
 Consecutive rungs bound half-open intervals that tile the calendar, and
 `LadderPeriodFor` picks the interval holding a date. Nothing here depends
 on how the rungs are computed; module Periods instantiates a ladder with
 the recurrence increments.
 */
module Ladders {
  import opened Dates
  import opened Records
  import opened Listing

  /** Valid dates, strictly increasing with the index. */
  ghost predicate Ladder(f: int -> Date) {
    && (forall k :: Valid(f(k)))
    && (forall i, j :: i < j ==> Before(f(i), f(j)))
  }

  lemma RungBelow(f: int -> Date, k: int)
    requires Ladder(f)
    ensures Valid(f(k - 1)) && Valid(f(k)) && Before(f(k - 1), f(k))
    ensures Key(f(k - 1)) < Key(f(k))
  {
    KeyOrder(f(k - 1), f(k));
  }

  /** The greatest index `j <= i` with `f(j) <= date`. */
  function RungAtOrBelow(f: int -> Date, date: Date, i: int): (j: int)
    requires Ladder(f) && Valid(date)
    ensures j <= i
    ensures NotAfter(f(j), date)
    ensures forall m :: j < m <= i ==> Before(date, f(m))
    decreases Key(f(i)) - Key(date)
  {
    if Before(date, f(i)) then
      RungBelow(f, i);
      KeyOrder(date, f(i));
      RungAtOrBelow(f, date, i - 1)
    else i
  }

  /** The rung interval `[f(j), f(j + 1))`. */
  function Rung(f: int -> Date, j: int): Period {
    Period(f(j), f(j + 1))
  }

  /**
   The rung interval at or below `f(0)` holding `date`: the one starting at
   the latest rung not after the date. Dates from `f(1)` on are given the
   interval starting at `f(0)`.
   */
  function LadderPeriodFor(f: int -> Date, date: Date): (p: Period)
    requires Ladder(f) && Valid(date)
    ensures exists j :: j <= 0 && p == Rung(f, j)
    ensures NotAfter(p.start, date)
    ensures NotAfter(p.start, f(0))
    ensures Before(date, f(1)) ==> InPeriod(date, p)
    ensures NotAfter(f(0), date) ==> p == Rung(f, 0)
  {
    var j := RungAtOrBelow(f, date, 0);
    assert Before(date, f(1)) ==> Before(date, f(j + 1)) by {
      if j < 0 {
        assert Before(date, f(j + 1));
      }
    }
    Rung(f, j)
  }

  /** A date below `f(0)` but not below `f(-1)` is given the rung interval `[f(-1), f(0))`. */
  lemma LadderPeriodBelow(f: int -> Date, date: Date)
    requires Ladder(f) && Valid(date)
    requires Before(date, f(0)) && NotAfter(f(-1), date)
    ensures LadderPeriodFor(f, date) == Period(f(-1), f(0))
  {
    assert RungAtOrBelow(f, date, -1) == -1;
    assert RungAtOrBelow(f, date, 0) == -1;
  }

  /** Rung intervals meet end to start, and an earlier one ends no later than a later one starts. */
  lemma RungsContiguous(f: int -> Date, j1: int, j2: int)
    requires Ladder(f)
    requires j1 < j2
    ensures Rung(f, j1 + 1).start == Rung(f, j1).end
    ensures Before(Rung(f, j1).start, Rung(f, j1).end)
    ensures NotAfter(Rung(f, j1).end, Rung(f, j2).start)
  {
    assert f(j1) == Rung(f, j1).start;
  }

  /** Different rung intervals share no date. */
  lemma RungsDisjoint(f: int -> Date, j1: int, j2: int, d: Date)
    requires Ladder(f)
    requires j1 != j2
    ensures !(InPeriod(d, Rung(f, j1)) && InPeriod(d, Rung(f, j2)))
  {
    if j1 < j2 {
      RungsContiguous(f, j1, j2);
    } else {
      RungsContiguous(f, j2, j1);
    }
  }
}
