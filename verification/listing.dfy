/**
 Transaction listings: `get_sorted_transactions` and
 `get_reverse_sorted_transactions` of dashboard/utility.py, and the
 date-window listing of `view_period` in dashboard/routes.py.

 A listing flattens the accounts' transactions, account by account and
 within an account in load order, and then sorts the rows by date with a
 stable sort (Python's `list.sort`), modelled here as an insertion sort.
 */
module Listing {
  import opened Dates
  import opened Records

  /** The row for transaction `j` of account `i`. */
  function EntryOf(accounts: seq<Account>, i: nat, j: nat): Entry
    requires i < |accounts| && j < |accounts[i].transactions|
  {
    var t := accounts[i].transactions[j];
    Entry(t.amount, t.description, accounts[i].name, t.date, j, i)
  }

  /** The row records the data of the transaction it points at. */
  predicate Sourced(accounts: seq<Account>, e: Entry) {
    && e.accountIndex < |accounts|
    && e.transactionIndex < |accounts[e.accountIndex].transactions|
    && e == EntryOf(accounts, e.accountIndex, e.transactionIndex)
  }

  function Row(accounts: seq<Account>, i: nat): (r: seq<Entry>)
    requires i < |accounts|
  {
    seq(|accounts[i].transactions|, j requires 0 <= j < |accounts[i].transactions| => EntryOf(accounts, i, j))
  }

  /** The rows of the first `n` accounts, in the order of the two nested loops. */
  function FlattenTo(accounts: seq<Account>, n: nat): seq<Entry>
    requires n <= |accounts|
  {
    if n == 0 then [] else FlattenTo(accounts, n - 1) + Row(accounts, n - 1)
  }

  function Flatten(accounts: seq<Account>): seq<Entry> {
    FlattenTo(accounts, |accounts|)
  }

  /** The number of transactions of the first `n` accounts. */
  function CountTo(accounts: seq<Account>, n: nat): nat
    requires n <= |accounts|
  {
    if n == 0 then 0 else CountTo(accounts, n - 1) + |accounts[n - 1].transactions|
  }

  function Count(accounts: seq<Account>): nat {
    CountTo(accounts, |accounts|)
  }

  /** Source order: by account, then by position within the account. */
  predicate PosLess(a: Entry, b: Entry) {
    a.accountIndex < b.accountIndex ||
    (a.accountIndex == b.accountIndex && a.transactionIndex < b.transactionIndex)
  }

  /** Rows strictly in source order. */
  predicate InSourceOrder(s: seq<Entry>) {
    forall i, j :: 0 <= i < j < |s| ==> PosLess(s[i], s[j])
  }

  /** Rows ordered by date (non-decreasing). */
  predicate SortedByDate(s: seq<Entry>) {
    forall i, j :: 0 <= i < j < |s| ==> NotAfter(s[i].date, s[j].date)
  }

  /** By date, and among equal dates in source order. */
  predicate Precedes(a: Entry, b: Entry) {
    Before(a.date, b.date) || (a.date == b.date && PosLess(a, b))
  }

  /** Ordered as a stable sort by date orders rows that start out in source order. */
  predicate StablySorted(s: seq<Entry>) {
    forall i, j :: 0 <= i < j < |s| ==> Precedes(s[i], s[j])
  }

  // ---------------------------------------------------------------------------
  // Flattening

  /** The flattened rows are exactly the accounts' transactions, each once, in source order. */
  lemma {:induction false} FlattenToFacts(accounts: seq<Account>, n: nat)
    requires n <= |accounts|
    ensures |FlattenTo(accounts, n)| == CountTo(accounts, n)
    ensures forall e :: e in FlattenTo(accounts, n) ==> Sourced(accounts, e) && e.accountIndex < n
    ensures forall i, j :: 0 <= i < n && 0 <= j < |accounts[i].transactions| ==>
      EntryOf(accounts, i, j) in FlattenTo(accounts, n)
    ensures InSourceOrder(FlattenTo(accounts, n))
  {
    if n > 0 {
      FlattenToFacts(accounts, n - 1);
      var prefix, row := FlattenTo(accounts, n - 1), Row(accounts, n - 1);
      assert FlattenTo(accounts, n) == prefix + row;
      forall i, j | 0 <= i < n && 0 <= j < |accounts[i].transactions|
        ensures EntryOf(accounts, i, j) in FlattenTo(accounts, n)
      {
        if i == n - 1 {
          assert row[j] == EntryOf(accounts, i, j);
        }
      }
    }
  }

  lemma FlattenFacts(accounts: seq<Account>)
    ensures |Flatten(accounts)| == Count(accounts)
    ensures forall e :: e in Flatten(accounts) ==> Sourced(accounts, e)
    ensures forall i, j :: 0 <= i < |accounts| && 0 <= j < |accounts[i].transactions| ==>
      EntryOf(accounts, i, j) in Flatten(accounts)
    ensures InSourceOrder(Flatten(accounts))
  {
    FlattenToFacts(accounts, |accounts|);
  }

  // ---------------------------------------------------------------------------
  // Stable sort by date

  /** Insert `e` in front of the first row whose date is not earlier than `e`'s. */
  function Insert(e: Entry, s: seq<Entry>): (r: seq<Entry>)
    ensures multiset(r) == multiset(s) + multiset{e}
    ensures forall x :: x in r <==> x == e || x in s
  {
    if |s| == 0 || NotAfter(e.date, s[0].date) then [e] + s
    else
      assert s == [s[0]] + s[1..];
      [s[0]] + Insert(e, s[1..])
  }

  lemma {:induction false} InsertSorted(e: Entry, s: seq<Entry>)
    requires SortedByDate(s)
    ensures SortedByDate(Insert(e, s))
  {
    if |s| > 0 && !NotAfter(e.date, s[0].date) {
      InsertSorted(e, s[1..]);
      var rest := Insert(e, s[1..]);
      assert Insert(e, s) == [s[0]] + rest;
      forall k | 0 <= k < |rest| ensures NotAfter(s[0].date, rest[k].date) {
        assert rest[k] in rest;
        if rest[k] != e {
          var m :| 0 <= m < |s[1..]| && s[1..][m] == rest[k];
          assert s[m + 1] == rest[k];
        }
      }
    }
  }

  /** `list.sort(key = date)`: a permutation of the input, ordered by date. */
  function SortByDate(s: seq<Entry>): (r: seq<Entry>)
    ensures multiset(r) == multiset(s)
    ensures |r| == |s|
    ensures forall x :: x in r <==> x in s
    ensures SortedByDate(r)
  {
    if |s| == 0 then []
    else
      assert s == [s[0]] + s[1..];
      InsertSorted(s[0], SortByDate(s[1..]));
      Insert(s[0], SortByDate(s[1..]))
  }

  lemma {:induction false} InsertStable(e: Entry, s: seq<Entry>)
    requires StablySorted(s)
    requires forall x :: x in s ==> PosLess(e, x)
    ensures StablySorted(Insert(e, s))
  {
    if |s| == 0 || NotAfter(e.date, s[0].date) {
      assert Insert(e, s) == [e] + s;
      forall k | 0 <= k < |s| ensures Precedes(e, s[k]) {
        assert s[k] in s;
        if k > 0 {
          assert Precedes(s[0], s[k]);
        }
      }
    } else {
      InsertStable(e, s[1..]);
      var rest := Insert(e, s[1..]);
      assert Insert(e, s) == [s[0]] + rest;
      forall k | 0 <= k < |rest| ensures Precedes(s[0], rest[k]) {
        assert rest[k] in rest;
        if rest[k] != e {
          var m :| 0 <= m < |s[1..]| && s[1..][m] == rest[k];
          assert Precedes(s[0], s[m + 1]);
        }
      }
    }
  }

  /** The sort is stable: rows given in source order come out ordered by date, then source order. */
  lemma {:induction false} SortStable(s: seq<Entry>)
    requires InSourceOrder(s)
    ensures StablySorted(SortByDate(s))
  {
    if |s| > 0 {
      SortStable(s[1..]);
      forall x | x in SortByDate(s[1..]) ensures PosLess(s[0], x) {
        var m :| 0 <= m < |s[1..]| && s[1..][m] == x;
        assert s[m + 1] == x;
      }
      InsertStable(s[0], SortByDate(s[1..]));
    }
  }

  // ---------------------------------------------------------------------------
  // get_sorted_transactions and get_reverse_sorted_transactions

  /** The listing `get_sorted_transactions` returns. */
  function SortedListing(accounts: seq<Account>): seq<Entry> {
    SortByDate(Flatten(accounts))
  }

  /** Every row of the sorted listing is a transaction of some account, and every transaction has a row. */
  lemma SortedListingFacts(accounts: seq<Account>)
    ensures |SortedListing(accounts)| == Count(accounts)
    ensures multiset(SortedListing(accounts)) == multiset(Flatten(accounts))
    ensures forall e :: e in SortedListing(accounts) ==> Sourced(accounts, e)
    ensures forall i, j :: 0 <= i < |accounts| && 0 <= j < |accounts[i].transactions| ==>
      EntryOf(accounts, i, j) in SortedListing(accounts)
    ensures SortedByDate(SortedListing(accounts))
    ensures StablySorted(SortedListing(accounts))
  {
    FlattenFacts(accounts);
    SortStable(Flatten(accounts));
  }

  /** `get_sorted_transactions`: the two nested loops, then the sort by date. */
  method GetSortedTransactions(accounts: seq<Account>) returns (r: seq<Entry>)
    ensures r == SortedListing(accounts)
    ensures |r| == Count(accounts)
    ensures forall e :: e in r ==> Sourced(accounts, e)
    ensures forall i, j :: 0 <= i < |accounts| && 0 <= j < |accounts[i].transactions| ==>
      EntryOf(accounts, i, j) in r
    ensures StablySorted(r)
  {
    var rows: seq<Entry> := [];
    var i := 0;
    while i < |accounts|
      invariant 0 <= i <= |accounts|
      invariant rows == FlattenTo(accounts, i)
    {
      var j := 0;
      while j < |accounts[i].transactions|
        invariant 0 <= j <= |accounts[i].transactions|
        invariant rows == FlattenTo(accounts, i) + Row(accounts, i)[..j]
      {
        rows := rows + [EntryOf(accounts, i, j)];
        j := j + 1;
      }
      assert Row(accounts, i)[..j] == Row(accounts, i);
      i := i + 1;
    }
    r := SortByDate(rows);
    SortedListingFacts(accounts);
  }

  /** `get_reverse_sorted_transactions`: despite its name, the same ascending listing. */
  method GetReverseSortedTransactions(accounts: seq<Account>) returns (r: seq<Entry>)
    ensures r == SortedListing(accounts)
    ensures SortedByDate(r)
  {
    r := GetSortedTransactions(accounts);
  }

  // ---------------------------------------------------------------------------
  // view_period

  /** `period.start <= date < period.end`. */
  predicate InPeriod(d: Date, p: Period) {
    NotAfter(p.start, d) && Before(d, p.end)
  }

  function FilterPeriod(s: seq<Entry>, p: Period): (r: seq<Entry>)
    ensures forall x :: x in r <==> x in s && InPeriod(x.date, p)
    ensures InSourceOrder(s) ==> InSourceOrder(r)
  {
    if |s| == 0 then []
    else if InPeriod(s[0].date, p) then
      assert forall x :: x in s[1..] ==> x in s;
      [s[0]] + FilterPeriod(s[1..], p)
    else FilterPeriod(s[1..], p)
  }

  /** The rows `view_period` lists for period `p`: the transactions dated in `[p.start, p.end)`, sorted by date. */
  function PeriodListing(accounts: seq<Account>, p: Period): (r: seq<Entry>)
    ensures forall x :: x in r ==> Sourced(accounts, x) && InPeriod(x.date, p)
    ensures forall i, j :: 0 <= i < |accounts| && 0 <= j < |accounts[i].transactions| ==>
      (EntryOf(accounts, i, j) in r <==> InPeriod(accounts[i].transactions[j].date, p))
    ensures StablySorted(r)
  {
    FlattenFacts(accounts);
    var rows := FilterPeriod(Flatten(accounts), p);
    SortStable(rows);
    SortByDate(rows)
  }
}
