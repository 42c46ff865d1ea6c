/**
 The records of the budgeting core, after the tables in api/models.py.
 Amounts are integer cents (the columns are `Numeric(scale=2)`); identifiers
 not used by the modelled operations are omitted.
 */
module Records {
  import opened Dates

  /** A transaction: deposits carry a positive amount, withdrawals a negative one. */
  datatype Txn = Txn(description: string, date: Date, amount: int)

  /** An account with its cached balance and the transactions it owns, in load order. */
  datatype Account = Account(id: int, name: string, balance: int, transactions: seq<Txn>)

  /** A recurring bill: `start` is its next due date, `occurence` a recurrence code string. */
  datatype Bill = Bill(id: int, name: string, start: Date, occurence: string, amount: int)

  /** A budgeting period; `[start, end)` for transactions. */
  datatype Period = Period(start: Date, end: Date)

  /**
   The per-user record as `get_periods` reads it: the recurrence code, the
   current period's start and the accounts. The bills are passed to the
   index page's model on their own.
   */
  datatype UserDetails = UserDetails(
    range: string,
    periodStart: Date,
    accounts: seq<Account>)

  /**
   One row of a transaction listing (the `Transaction` named tuple of
   dashboard/utility.py): the transaction's data, its account's name, and
   where it came from.
   */
  datatype Entry = Entry(
    amount: int,
    description: string,
    accountName: string,
    date: Date,
    transactionIndex: nat,
    accountIndex: nat)

  /** Every transaction date is a real calendar date. */
  predicate DatesValid(accounts: seq<Account>) {
    forall i, j :: 0 <= i < |accounts| && 0 <= j < |accounts[i].transactions| ==>
      Valid(accounts[i].transactions[j].date)
  }
}
