# dontbudge budgeting core in Dafny

This project models the budgeting core of dontbudge, a Flask personal-budgeting
application. The core holds accounts with cached balances and their
transactions, recurring bills, and budgeting periods. Each period lasts one
increment of the user's range: a week, a fortnight, a month, a quarter or a year.

The modules follow the program's structure:

- `Dates` covers calendar dates with Python's `date` arithmetic. `AddDays` is
  day arithmetic on ordinals, and stepping one calendar day at a time is proved
  to reach the same date.
- `Recurrence` covers `get_relative` and dateutil's `relativedelta`
  arithmetic. Month moves clamp the day to the length of the month they reach.
- `Listing` covers `get_sorted_transactions` and `get_reverse_sorted_transactions`.
  The listing flattens every account's transactions and sorts them by date with
  Python's stable sort. `PeriodListing` is `view_period`'s filtered listing.
- `Periods` covers `get_periods`: the period recorded for each listed
  transaction, found by walking back from the current period's start. The
  module also defines a corrected derivation on the grid of whole increments
  from the period start. `Ladders` holds the facts about such grids.
- `Rollover` covers what the index page does before rendering. It starts a
  new period when today has reached the end of the last one, moves every due
  bill on by one increment, and selects the bills due inside the period.
- `Ledger` covers creating a deposit or a withdrawal and editing a
  transaction, both after the form is submitted. An account's starting balance
  is its balance minus the sum of its transaction amounts (`Drift`). The edit
  is modelled twice: `Ledger.EditAsWritten` follows the route line by line,
  and `Ledger.Edit` is the corrected edit, which keeps every starting balance.

Amounts are integer cents. Today's date is a parameter. Database commits are
modelled as the returned new state. A failing lookup or a Python exception on
a path the code does not guard is modelled as `None`.

Four behaviours of the code worth knowing:

- A bill moves on by exactly one increment per page load. Both ends of the
  active-bill test are inclusive.
- `get_periods` records one period per transaction, with no de-duplication.
  `get_reverse_sorted_transactions` does not reverse the listing.
- The new period's length is the user's range code applied with `relativedelta`.
  The code calls `timedelta(days=range)` on the stored code string.
- `create_withdraw` calls `Transaction` with four arguments where the
  constructor takes five. The model follows the evident intent.

## Model

| member | source | states |
|---|---|---|
| Recurrence.ParseCode | dontbudge/dashboard/utility.py:20-26 | exactly the five strings `1W`, `2W`, `1M`, `1Q`, `1Y` name a code, each its own one |
| Recurrence.GetRelative | dontbudge/dashboard/utility.py:19-28 | an increment exists iff the string is a known code; it is the literal increment of that code and moves a date forward |
| Recurrence.AddSubApply | dontbudge/dashboard/utility.py:20-26 | adding or subtracting a code's increment is applying its `relativedelta` (or the negated one) to the date |
| Recurrence.AddSubMove | dontbudge/dashboard/utility.py:57-59 | adding an increment gives a strictly later date and subtracting one a strictly earlier date |
| Recurrence.CodeIncrements | dontbudge/dashboard/utility.py:21-25 | a week code moves the date's ordinal by 7 or 14 days; a month code moves its month number by 1, 3 or 12 |
| Recurrence.MonthRoundTripClamps | dontbudge/dashboard/utility.py:58-59 | a month added and taken off again need not give the date back: 31 January goes to 28 February and back to 28 January |
| Recurrence.WeekRoundTrip | dontbudge/dashboard/utility.py:58-59 | for the week codes, subtracting the increment undoes adding it |
| Recurrence.ShiftScales | dontbudge/dashboard/utility.py:55-59 | `k` increments counted from one anchor are the `k`-fold `relativedelta` applied once |
| Recurrence.ShiftStrict | dontbudge/dashboard/utility.py:55-59 | more increments from the same anchor give a strictly later date |
| Dates.AddDays | dontbudge/dashboard/utility.py:21-22 | `date + timedelta(days=n)` is the valid date whose ordinal is `n` more; positive `n` goes forward, negative `n` back |
| Dates.AddDaysSteps | dontbudge/dashboard/utility.py:21-22 | adding `n` days is stepping over `n` calendar days one at a time |
| Dates.AddDaysInverse | dontbudge/dashboard/utility.py:58-59 | subtracting `n` days after adding them gives the date back |
| Dates.OrdinalOrder | dontbudge/dashboard/utility.py:57 | the ordinal orders dates exactly as the date comparison does, and equal ordinals mean equal dates |
| Listing.FlattenFacts | dontbudge/dashboard/utility.py:31-41 | the flattened rows are exactly one row per transaction of every account, each naming its account and its position, in account-then-transaction order |
| Listing.SortByDate | dontbudge/dashboard/utility.py:43 | the sort is a permutation of its input and leaves the rows in date order |
| Listing.SortStable | dontbudge/dashboard/utility.py:43 | rows of the same date keep their flattening order, as Python's stable sort keeps them |
| Listing.GetSortedTransactions | dontbudge/dashboard/utility.py:30-44 | the loops build the listing: one row per transaction, each traced to its account and position, stably sorted by date |
| Listing.GetReverseSortedTransactions | dontbudge/dashboard/utility.py:46-48 | the "reverse" listing is the same ascending listing |
| Listing.FilterPeriod | dontbudge/dashboard/routes.py:295-305 | a row is kept iff it is in the input and its date lies in `[start, end)`; source order is kept |
| Listing.PeriodListing | dontbudge/dashboard/routes.py:292-307 | the period page lists a transaction iff its date lies in `[start, end)`, every row traced to its source, stably sorted by date |
| Ladders.LadderPeriodFor | dontbudge/dashboard/utility.py:55-59 | a date is given the grid interval starting at the latest grid point not after it, at or below the anchor, and lies inside it when it is before the next grid point |
| Ladders.RungsDisjoint | dontbudge/dashboard/utility.py:55-59 | two different grid intervals share no date |
| Periods.WalkBackFrom | dontbudge/dashboard/utility.py:56-58 | the walk back ends at a date not after the transaction and not after the period start, and does not move when the transaction is not before the start |
| Periods.WalkBackIsFirstChainPoint | dontbudge/dashboard/utility.py:57-58 | the walk stops at the first point of the chain of repeated subtractions that is not after the transaction; every earlier point is after it |
| Periods.WalkBackFromMonotone | dontbudge/dashboard/utility.py:56-58 | a later transaction date never walks further back |
| Periods.PeriodFor | dontbudge/dashboard/utility.py:56-59 | the recorded period starts where the walk stops and ends one increment later; it starts on or before both the transaction and the period start |
| Periods.PeriodForRecorded | dontbudge/dashboard/utility.py:56-59 | the recorded period starts at the first chain point not after the transaction and ends one increment later |
| Periods.GetPeriods | dontbudge/dashboard/utility.py:50-61 | it fails iff the range is no known code and there is a transaction; otherwise one period per listed row, each the recorded period of that row |
| Periods.GetPeriodsRow | dontbudge/dashboard/utility.py:55-59 | the `k`-th period is the period of the `k`-th sorted row's date |
| Periods.PeriodStartsNonDecreasing | dontbudge/dashboard/utility.py:55-59 | along the output, period starts never decrease, because the rows are sorted by date |
| Periods.WalkBackMissesTransaction | dontbudge/dashboard/utility.py:57-59 | with period start 31 March and a monthly range, a transaction of 29 March gets the period from the end of February to 28 or 29 March |
| Periods.PeriodMissesTransaction | dontbudge/dashboard/utility.py:57-59 | that period does not contain the transaction it was recorded for |
| Periods.GridPeriodFor | dontbudge/dashboard/utility.py:55-59 | the corrected period is `[start + j*inc, start + (j+1)*inc)` for some `j <= 0`, starts on or before the transaction, and contains every transaction dated before the current period's end |
| Periods.GridPeriodsDisjoint | dontbudge/dashboard/utility.py:55-59 | two transactions get the same corrected period or periods with no date in common |
| Periods.GridPeriodMarch29 | dontbudge/dashboard/utility.py:57-59 | with period start 31 March and a monthly range, a transaction of 29 March gets the corrected period from the end of February to 31 March |
| Periods.GridPeriodContainsTransaction | dontbudge/dashboard/utility.py:57-59 | that corrected period contains the transaction |
| Periods.WeekWalkOnLadder | dontbudge/dashboard/utility.py:57-58 | for the week codes, the walk back from any grid point lands on the grid point at or below the transaction |
| Periods.WeekCodesAgree | dontbudge/dashboard/utility.py:55-59 | for the week codes, the loop as written and the corrected derivation give the same period |
| Periods.GetGridPeriods | dontbudge/dashboard/utility.py:50-61 | the corrected `get_periods`: same failure case and length, each period on the grid and containing its row when the row is before the current period's end |
| Rollover.NextPeriod | dontbudge/dashboard/routes.py:48-51 | the new period starts where the last one ends and ends one increment of the range later, which is strictly later |
| Rollover.RollPeriods | dontbudge/dashboard/routes.py:44-53 | with no period it fails; a new period is appended iff today is on or after the last end (failing then on an unknown range), keeping the earlier periods, starting at the last end and ending one increment after it |
| Rollover.RollPeriodsContiguous | dontbudge/dashboard/routes.py:47-51 | rolling over keeps the periods contiguous, each starting where the previous one ends |
| Rollover.RollPeriodsNotCaughtUp | dontbudge/dashboard/routes.py:47-51 | one page load advances one period only: today a whole increment or more past the last end is still past the new end |
| Rollover.RollPeriodsTwice | dontbudge/dashboard/routes.py:47-51 | rolling over is not idempotent: when today is a whole increment or more past the last end, a second load on the same day appends another period |
| Rollover.RollPeriodsCatchesUp | dontbudge/dashboard/routes.py:47-51 | when today is less than one increment past the last end, the new period contains today |
| Rollover.RollBill | dontbudge/dashboard/routes.py:59-68 | a bill fails iff it is due and its recurrence is unknown; a due bill moves strictly later by one increment of its code, a bill not due is unchanged, and nothing but the date changes |
| Rollover.RollBills | dontbudge/dashboard/routes.py:58-68 | the bill loop fails iff some bill's step fails; otherwise each bill is replaced by its own step, in order |
| Rollover.ActiveBills | dontbudge/dashboard/routes.py:69-70 | a bill is listed iff it is due inside the period with both ends included, as many times as it occurs |
| Rollover.RenderIndex | dontbudge/dashboard/routes.py:42-72 | the page fails iff the period rollover fails or a due bill has an unknown recurrence; otherwise it records the rolled periods, moves exactly the due bills by one increment and changes nothing else about any bill, and lists the rolled bills active in the current period, in their order and with their multiplicity |
| Rollover.RollBillNotCaughtUp | dontbudge/dashboard/routes.py:59-70 | a bill two or more increments behind is still due after one load and is not listed |
| Rollover.RollBillTwice | dontbudge/dashboard/routes.py:59-68 | rolling a bill over is not idempotent: a bill still due moves again on the next load |
| Rollover.BoundaryBillActiveTwice | dontbudge/dashboard/routes.py:69 | the active test of line 69 alone accepts a bill due on a period's last day both for that period and for the next one, which starts that day |
| Rollover.BillOnFirstDayMoved | dontbudge/dashboard/routes.py:59-69 | a bill due on the current period's first day is moved one increment on before the active test |
| Ledger.ParseKind | dontbudge/dashboard/routes.py:226-227 | exactly `deposit` and `withdraw` are transaction types |
| Ledger.Signed | dontbudge/dashboard/routes.py:244-251 | the stored amount is the form amount, negated for a withdrawal; for a positive amount the edit form shows the same type and amount again |
| Ledger.Prefill | dontbudge/dashboard/routes.py:199-204 | the edit form is filled with the transaction's description, date and account and the size of its amount, and the shown type and size give back the stored amount |
| Ledger.CreateTransaction | dontbudge/dashboard/routes.py:226-254 | an unknown type or a rejected form changes nothing; otherwise exactly the chosen account gains the new transaction, and its balance falls by a withdrawal's amount or rises by a deposit's |
| Ledger.CreateKeepsDrift | dontbudge/dashboard/routes.py:244-251 | creating a transaction keeps every account's starting balance |
| Ledger.CreateMovesTotal | dontbudge/dashboard/routes.py:244-251 | the total of all balances moves by the stored amount |
| Ledger.EditAsWritten | dontbudge/dashboard/routes.py:170-192 | the edit as written: a rejected form changes nothing; other accounts are untouched and the touched ones keep their ids and names; the amount is replaced only when the stored amount differs from the form's unsigned one; the old account loses the old amount on a move, then on an amount change is credited a withdrawal's or debited a deposit's old amount and gains the new signed amount; a moved transaction leaves the old account's list and its old amount is added to the new account |
| Ledger.Edit | dontbudge/dashboard/routes.py:179-192 | the corrected edit: the transaction takes the form's description, date and signed amount, moves to the chosen account, both touched accounts keep their ids and names, and the total balance changes by new minus old amount |
| Ledger.EditKeepsDrift | dontbudge/dashboard/routes.py:182-190 | the corrected edit keeps every account's starting balance |
| Ledger.EditPrefilledUnchanged | dontbudge/dashboard/routes.py:179-204 | submitting the form as the page fills it in changes nothing |
| Ledger.EditKeepsBalances | dontbudge/dashboard/routes.py:180-192 | a corrected edit of description or date only leaves every balance as it was |
| Ledger.DepositEditAsWritten | dontbudge/dashboard/routes.py:187-190 | as written, editing a deposit's amount moves the balance by the new amount minus the old and keeps the starting balance |
| Ledger.MoveAsWrittenConserves | dontbudge/dashboard/routes.py:182-186 | as written, moving a deposit without changing its amount keeps the sum of the two balances, the total and every starting balance |
| Ledger.MoveKeepsTotal | dontbudge/dashboard/routes.py:182-186 | the corrected edit moving a transaction with its signed amount unchanged takes that amount off the old balance and adds it to the new one, keeping the total and every starting balance |
| Ledger.WithdrawMoveAsWrittenDebitsBoth | dontbudge/dashboard/routes.py:182-190 | as written, moving a withdrawal without changing its amount lowers both balances by the amount, so the old account's starting balance and the total fall by twice the amount; the corrected edit credits the old account and debits the new one |
| Ledger.WithdrawEditAsWrittenDrops | dontbudge/dashboard/routes.py:187-190 | as written, submitting a withdrawal's edit form unchanged lowers the balance by twice the amount; the corrected edit keeps it |
| Ledger.MoveAndChangeAsWrittenDrifts | dontbudge/dashboard/routes.py:182-190 | as written, moving a deposit while changing its amount shifts the old account's starting balance up by the change and the new account's down by it |
| Ledger.KindSwitchAsWrittenIgnored | dontbudge/dashboard/routes.py:187-189 | as written, turning a deposit into a withdrawal of the same size leaves it a deposit; the corrected edit stores the withdrawal |

## Left out

- Rendering, redirects, JWT authentication, the database session and every route other than the ones above. Budgets, categories and the bill-creation and settings routes are also left out.
- The `Period` table and the `UserDetails.periods` relationship, which `render_index` and `view_period` use. `dontbudge/api/models.py` declares neither, so periods are a sequence of `Period` records passed in.
- Persistence after a failure: when a later bill's recurrence is unknown, bills processed earlier in the loop have already been committed. `Rollover.RenderIndex` returns only the failure.
- Time of day: the model has dates only. Every stored date comes from a form's `DateField` or from `date.today()`, so each `DateTime` value is at midnight and comparing whole datetimes (dontbudge/dashboard/utility.py:57, dontbudge/dashboard/routes.py:297) orders them as their dates, as the `.date()` comparisons at routes.py:47, 59 and 69 do. Python's year range 1..9999 and its `OverflowError` are not modelled; years are unbounded.
- Decimal amounts: `Numeric(scale=2)` is modelled as integer cents.
- The debugging `print(userdetails.range)` in `get_periods` (dontbudge/dashboard/utility.py:52), which changes no state.
- WTForms validation beyond the amount, description, type and account choice. A description that is empty or whitespace only is rejected, with whitespace as Python's `str.isspace` defines it. A zero amount is rejected because `DataRequired` treats it as missing.
- Rollover.RollPeriods: the new period's length is the range code applied as a `relativedelta`, not the `timedelta(days=range)` the code builds from a string, which cannot run.
- Ledger.CreateTransaction: the transaction is built with the evidently intended constructor arguments, not the four-argument call the code makes.
- Ledger.EditAsWritten: the URL indices are required to be in range, where Python would raise `IndexError` (or accept a negative index).
- Ledger.EditAsWritten: the account choice is compared with the transaction's account as an integer id. In the code the `SelectField` (dontbudge/dashboard/forms.py:23) has no `coerce=int`, so its data is a string. The comparison at routes.py:182 is therefore always unequal, and lines 183-186 run on every accepted edit. When the account is unchanged, the query returns the same session object as `account`, so the debit and the credit cancel. The model skips the branch in that case, which gives the same balances and transaction lists.
- The moved transaction is placed at the end of its new account's list. The database's load order may differ.
- The order of the account and transaction indices in `view_period`'s row tuples, which is the reverse of the `Transaction` named tuple's, is not modelled.

## Findings

| source | as written | input that shows it | evidently intended | confidence | as-written member | corrected member |
|---|---|---|---|---|---|---|
| dontbudge/dashboard/utility.py:57-59 | the loop subtracts one month at a time, and each subtraction clamps the day | period start 31 March, range `1M`, a transaction of 29 March: the loop stops at 29 February (28 February in a common year) and records the period from then to 29 (28) March, which does not contain 29 March | the period `[start + j*inc, start + (j+1)*inc)` that contains the transaction | not executed | Periods.PeriodMissesTransaction | Periods.GridPeriodContainsTransaction |
| dontbudge/dashboard/routes.py:187-190 | the stored negative amount is compared with the form's positive amount, and the reversal adds the withdrawal instead of subtracting it | a withdrawal of 50, edit form submitted unchanged: the balance falls by 100 | an edit that leaves the amount as it is leaves the balance as it is | not executed | Ledger.WithdrawEditAsWrittenDrops | Ledger.EditPrefilledUnchanged |
| dontbudge/dashboard/routes.py:182-190 | after a move, the amount change is applied to the old account | a deposit of 50 moved to another account and changed to 80 in one edit: the old account keeps +30 it no longer holds and the new one lacks 30 | the new amount is counted in the account the transaction now belongs to | not executed | Ledger.MoveAndChangeAsWrittenDrifts | Ledger.EditKeepsDrift |
| dontbudge/dashboard/routes.py:187-189 | the amount branch runs only when the stored amount differs from the form's unsigned amount | a deposit of 50 edited to a withdrawal of 50: the transaction stays a deposit of 50 | the transaction becomes a withdrawal of 50 | not executed | Ledger.KindSwitchAsWrittenIgnored | Ledger.Edit |
| dontbudge/dashboard/routes.py:182-190 | a moved withdrawal with an unchanged amount also enters the amount branch, whose reversal adds the withdrawal to the old account again | a withdrawal of 50 moved to another account, amount left as it is: both accounts' balances fall by 50 | the old account's balance rises by 50 and the new one's falls by 50 | not executed | Ledger.WithdrawMoveAsWrittenDebitsBoth | Ledger.MoveKeepsTotal |
