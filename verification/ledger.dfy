/**
 Account balances and the transactions that move them: creating a deposit or
 a withdrawal (`create_withdraw` in dashboard/routes.py) and editing a
 transaction (`view_transaction`), both after the form has been submitted.

 An account keeps a cached balance next to its transactions. The invariant
 the routes are meant to keep is that the balance minus the sum of the
 account's transaction amounts, its `Drift` (the starting balance), never
 changes. Creation keeps it. The edit route as written does not, in three
 ways shown below; `Edit` is the corrected edit, which keeps it.
 */
module Ledger {
  import opened Dates
  import opened Records
  import opened Optional

  datatype Kind = Deposit | Withdraw

  /** The transaction type strings the routes and the form accept. */
  function ParseKind(s: string): (r: Option<Kind>)
    ensures r == Some(Deposit) <==> s == "deposit"
    ensures r == Some(Withdraw) <==> s == "withdraw"
    ensures r.None? <==> s != "deposit" && s != "withdraw"
  {
    if s == "deposit" then Some(Deposit)
    else if s == "withdraw" then Some(Withdraw)
    else None
  }

  /** The type the edit form shows for a stored amount: a deposit when it is not negative. */
  function KindOf(amount: int): (k: Kind)
    ensures k == Deposit <==> amount >= 0
  {
    if amount >= 0 then Deposit else Withdraw
  }

  function KindName(k: Kind): (s: string)
    ensures ParseKind(s) == Some(k)
  {
    match k
    case Deposit => "deposit"
    case Withdraw => "withdraw"
  }

  /** The amount the edit form shows for a stored amount: its size, without the sign. */
  function Magnitude(amount: int): (m: nat)
    ensures m == amount || m == -amount
  {
    if amount > 0 then amount else -amount
  }

  /** The stored amount for a form amount of a kind: deposits positive, withdrawals negative. */
  function Signed(kind: Kind, amount: int): (r: int)
    ensures amount > 0 ==> KindOf(r) == kind && Magnitude(r) == amount
    ensures r == amount || r == -amount
  {
    match kind
    case Deposit => amount
    case Withdraw => -amount
  }

  /** The form's type and amount for a stored amount give that amount back. */
  lemma SignedOfShown(amount: int)
    ensures Signed(KindOf(amount), Magnitude(amount)) == amount
  {
  }

  // ---------------------------------------------------------------------------
  // Sums

  function Sum(ts: seq<Txn>): int {
    if |ts| == 0 then 0 else ts[0].amount + Sum(ts[1..])
  }

  lemma {:induction false} SumConcat(a: seq<Txn>, b: seq<Txn>)
    ensures Sum(a + b) == Sum(a) + Sum(b)
  {
    if |a| == 0 {
      assert a + b == b;
    } else {
      assert (a + b)[1..] == a[1..] + b;
      SumConcat(a[1..], b);
    }
  }

  /** Appending a transaction adds its amount. */
  lemma SumAppend(ts: seq<Txn>, t: Txn)
    ensures Sum(ts + [t]) == Sum(ts) + t.amount
  {
    SumConcat(ts, [t]);
    assert [t][1..] == [];
  }

  /** The transactions without the one at `i`. */
  function Remove(ts: seq<Txn>, i: nat): (r: seq<Txn>)
    requires i < |ts|
    ensures |r| == |ts| - 1
    ensures forall k :: 0 <= k < i ==> r[k] == ts[k]
    ensures forall k :: i <= k < |r| ==> r[k] == ts[k + 1]
  {
    ts[..i] + ts[i + 1..]
  }

  lemma SumRemove(ts: seq<Txn>, i: nat)
    requires i < |ts|
    ensures Sum(Remove(ts, i)) == Sum(ts) - ts[i].amount
  {
    var a, b := ts[..i], ts[i + 1..];
    assert ts == a + ts[i..];
    assert ts[i..][1..] == b;
    SumConcat(a, ts[i..]);
    SumConcat(a, b);
  }

  lemma SumUpdate(ts: seq<Txn>, i: nat, t: Txn)
    requires i < |ts|
    ensures Sum(ts[i := t]) == Sum(ts) - ts[i].amount + t.amount
  {
    var a, b := ts[..i], ts[i + 1..];
    var u := ts[i := t];
    assert ts == a + ts[i..];
    assert u == a + u[i..];
    assert ts[i..][1..] == b == u[i..][1..];
    SumConcat(a, ts[i..]);
    SumConcat(a, u[i..]);
  }

  /** The part of a balance no transaction accounts for: the account's starting balance. */
  function Drift(a: Account): int {
    a.balance - Sum(a.transactions)
  }

  /** The sum of all balances. */
  function Total(accounts: seq<Account>): int {
    if |accounts| == 0 then 0
    else Total(accounts[..|accounts| - 1]) + accounts[|accounts| - 1].balance
  }

  lemma {:induction false} TotalUpdate(accounts: seq<Account>, i: nat, a: Account)
    requires i < |accounts|
    ensures Total(accounts[i := a]) == Total(accounts) - accounts[i].balance + a.balance
    decreases |accounts|
  {
    var n := |accounts| - 1;
    if i < n {
      assert accounts[i := a][..n] == accounts[..n][i := a];
      TotalUpdate(accounts[..n], i, a);
    } else {
      assert accounts[i := a][..n] == accounts[..n];
    }
  }

  // ---------------------------------------------------------------------------
  // Looking an account up by id

  predicate HasId(accounts: seq<Account>, id: int) {
    exists i :: 0 <= i < |accounts| && accounts[i].id == id
  }

  /** The first account with the id (ids are primary keys, so the only one). */
  function IndexOfId(accounts: seq<Account>, id: int): (i: nat)
    requires HasId(accounts, id)
    ensures i < |accounts| && accounts[i].id == id
    ensures forall j :: 0 <= j < i ==> accounts[j].id != id
  {
    if accounts[0].id == id then 0
    else
      assert HasId(accounts[1..], id) by {
        var k :| 0 <= k < |accounts| && accounts[k].id == id;
        assert accounts[1..][k - 1] == accounts[k];
      }
      1 + IndexOfId(accounts[1..], id)
  }

  // ---------------------------------------------------------------------------
  // Creating a transaction

  /** The characters Python's `str.isspace` accepts, which `str.strip` removes. */
  predicate IsSpace(c: char) {
    || '\t' <= c <= '\r' || '\U{1c}' <= c <= '\U{1f}' || c == ' '
    || c == '\U{85}' || c == '\U{a0}' || c == '\U{1680}'
    || '\U{2000}' <= c <= '\U{200a}' || c == '\U{2028}' || c == '\U{2029}'
    || c == '\U{202f}' || c == '\U{205f}' || c == '\U{3000}'
  }

  /** Nothing is left of the string once whitespace is stripped. */
  predicate Blank(s: string) {
    forall i :: 0 <= i < |s| ==> IsSpace(s[i])
  }

  /**
   The form's validators: a description that is not empty or whitespace
   only, an amount that is present and not negative (a zero amount counts
   as missing), and one of the user's accounts.
   */
  predicate Accepted(accounts: seq<Account>, description: string, accountId: int, amount: int) {
    !Blank(description) && amount > 0 && HasId(accounts, accountId)
  }

  /**
   `create_withdraw` after a submit: an unknown type or a rejected form
   changes nothing; otherwise the signed amount is recorded as a new
   transaction of the chosen account and added to its balance.
   */
  function CreateTransaction(accounts: seq<Account>, kind: string, accountId: int,
                             description: string, date: Date, amount: int): (r: seq<Account>)
    ensures |r| == |accounts|
    ensures ParseKind(kind).None? || !Accepted(accounts, description, accountId, amount) ==> r == accounts
    ensures ParseKind(kind).Some? && Accepted(accounts, description, accountId, amount) ==>
      var i := IndexOfId(accounts, accountId);
      var stored := Signed(ParseKind(kind).value, amount);
      && (forall j :: 0 <= j < |accounts| && j != i ==> r[j] == accounts[j])
      && r[i].id == accounts[i].id && r[i].name == accounts[i].name
      && r[i].transactions == accounts[i].transactions + [Txn(description, date, stored)]
      && (ParseKind(kind) == Some(Withdraw) ==> r[i].balance == accounts[i].balance - amount)
      && (ParseKind(kind) == Some(Deposit) ==> r[i].balance == accounts[i].balance + amount)
  {
    match ParseKind(kind)
    case None => accounts
    case Some(k) =>
      if !Accepted(accounts, description, accountId, amount) then accounts
      else
        var i := IndexOfId(accounts, accountId);
        var a := accounts[i];
        var stored := Signed(k, amount);
        accounts[i := a.(balance := a.balance + stored,
                         transactions := a.transactions + [Txn(description, date, stored)])]
  }

  /**
   Creating a transaction moves the account's balance by exactly the stored
   amount, so no account's starting balance changes.
   */
  lemma CreateKeepsDrift(accounts: seq<Account>, kind: string, accountId: int,
                         description: string, date: Date, amount: int, j: nat)
    requires j < |accounts|
    ensures Drift(CreateTransaction(accounts, kind, accountId, description, date, amount)[j]) == Drift(accounts[j])
  {
    if ParseKind(kind).Some? && Accepted(accounts, description, accountId, amount) && j == IndexOfId(accounts, accountId) {
      var a := accounts[j];
      SumAppend(a.transactions, Txn(description, date, Signed(ParseKind(kind).value, amount)));
    }
  }

  /** The total of all balances moves by the stored amount of the new transaction. */
  lemma CreateMovesTotal(accounts: seq<Account>, kind: string, accountId: int,
                         description: string, date: Date, amount: int)
    ensures Total(CreateTransaction(accounts, kind, accountId, description, date, amount)) == Total(accounts) +
      if ParseKind(kind).Some? && Accepted(accounts, description, accountId, amount)
      then Signed(ParseKind(kind).value, amount) else 0
  {
    if ParseKind(kind).Some? && Accepted(accounts, description, accountId, amount) {
      var i := IndexOfId(accounts, accountId);
      var r := CreateTransaction(accounts, kind, accountId, description, date, amount);
      TotalUpdate(accounts, i, r[i]);
      assert r == accounts[i := r[i]];
    }
  }

  // ---------------------------------------------------------------------------
  // Editing a transaction

  /** What the edit form submits. */
  datatype EditForm = EditForm(description: string, accountId: int, amount: int, kind: string, date: Date)

  predicate EditAccepted(accounts: seq<Account>, f: EditForm) {
    Accepted(accounts, f.description, f.accountId, f.amount) && ParseKind(f.kind).Some?
  }

  /** The transaction at `ti` of account `ai`, as the route's URL indices pick it. */
  predicate Picks(accounts: seq<Account>, ai: int, ti: int) {
    0 <= ai < |accounts| && 0 <= ti < |accounts[ai].transactions|
  }

  /** The form as the page fills it in before the user changes anything. */
  function Prefill(accounts: seq<Account>, ai: nat, ti: nat): (f: EditForm)
    requires Picks(accounts, ai, ti)
    ensures ParseKind(f.kind) == Some(KindOf(accounts[ai].transactions[ti].amount))
    ensures var t := accounts[ai].transactions[ti];
      && f.description == t.description && f.date == t.date
      && f.accountId == accounts[ai].id
      && f.amount == Magnitude(t.amount)
      && Signed(ParseKind(f.kind).value, f.amount) == t.amount
  {
    var t := accounts[ai].transactions[ti];
    SignedOfShown(t.amount);
    EditForm(t.description, accounts[ai].id, Magnitude(t.amount), KindName(KindOf(t.amount)), t.date)
  }

  /**
   The accounts after the transaction at (`ai`, `ti`) becomes `t2`, with
   balance changes `dOld` to account `ai` and, when the transaction moves to
   a different account `ni`, `dNew` to that one. A moved transaction leaves
   its old account's list and is appended to the new account's.
   */
  function Place(accounts: seq<Account>, ai: nat, ti: nat, ni: nat, t2: Txn, dOld: int, dNew: int): (r: seq<Account>)
    requires Picks(accounts, ai, ti) && ni < |accounts|
    ensures |r| == |accounts|
    ensures forall k :: 0 <= k < |accounts| && k != ai && k != ni ==> r[k] == accounts[k]
    ensures r[ai].id == accounts[ai].id && r[ni].id == accounts[ni].id
    ensures r[ai].name == accounts[ai].name && r[ni].name == accounts[ni].name
    ensures r[ai].balance == accounts[ai].balance + dOld
    ensures ni == ai ==> r[ai].transactions == accounts[ai].transactions[ti := t2]
    ensures ni != ai ==>
      && r[ai].transactions == Remove(accounts[ai].transactions, ti)
      && r[ni].transactions == accounts[ni].transactions + [t2]
      && r[ni].balance == accounts[ni].balance + dNew
    ensures var t := accounts[ai].transactions[ti];
      && (ni == ai ==> Drift(r[ai]) == Drift(accounts[ai]) + dOld + t.amount - t2.amount)
      && (ni != ai ==> Drift(r[ai]) == Drift(accounts[ai]) + dOld + t.amount)
      && (ni != ai ==> Drift(r[ni]) == Drift(accounts[ni]) + dNew - t2.amount)
    ensures Total(r) == Total(accounts) + dOld + (if ni != ai then dNew else 0)
  {
    var a := accounts[ai];
    if ni == ai then
      SumUpdate(a.transactions, ti, t2);
      var a2 := a.(balance := a.balance + dOld, transactions := a.transactions[ti := t2]);
      TotalUpdate(accounts, ai, a2);
      accounts[ai := a2]
    else
      var b := accounts[ni];
      SumRemove(a.transactions, ti);
      var ts := b.transactions + [t2];
      SumAppend(b.transactions, t2);
      var a2 := a.(balance := a.balance + dOld, transactions := Remove(a.transactions, ti));
      var b2 := b.(balance := b.balance + dNew, transactions := ts);
      TotalUpdate(accounts, ai, a2);
      TotalUpdate(accounts[ai := a2], ni, b2);
      accounts[ai := a2][ni := b2]
  }

  /** Where the edited transaction goes: the account the form names, found by id. */
  function Target(accounts: seq<Account>, ai: nat, f: EditForm): (ni: nat)
    requires ai < |accounts| && HasId(accounts, f.accountId)
    ensures ni < |accounts| && accounts[ni].id == f.accountId
    ensures ni == ai <==> f.accountId == accounts[ai].id
  {
    if f.accountId == accounts[ai].id then ai else IndexOfId(accounts, f.accountId)
  }

  /**
   `view_transaction` after a submit, step for step as written: the
   description is replaced; a move subtracts the old amount from the old
   account and adds it to the new one; when the stored amount differs from
   the form's (unsigned) amount, the OLD account is credited with the old
   amount for a withdrawal or debited with it for a deposit, the amount is
   replaced by the form's signed amount, and that is added to the OLD
   account; the date is replaced.
   */
  function EditAsWritten(accounts: seq<Account>, ai: nat, ti: nat, f: EditForm): (r: seq<Account>)
    requires Picks(accounts, ai, ti)
    ensures |r| == |accounts|
    ensures !EditAccepted(accounts, f) ==> r == accounts
    ensures EditAccepted(accounts, f) ==>
      var t := accounts[ai].transactions[ti];
      var ni := Target(accounts, ai, f);
      var stored := if t.amount != f.amount then Signed(ParseKind(f.kind).value, f.amount) else t.amount;
      && (forall k :: 0 <= k < |accounts| && k != ai && k != ni ==> r[k] == accounts[k])
      && r[ai].id == accounts[ai].id && r[ai].name == accounts[ai].name
      && r[ni].id == accounts[ni].id && r[ni].name == accounts[ni].name
      && r[ai].balance == accounts[ai].balance
           + (if ni != ai then -t.amount else 0)
           + (if t.amount != f.amount then (if f.kind == "withdraw" then t.amount else -t.amount) + stored else 0)
      && (ni == ai ==> r[ai].transactions == accounts[ai].transactions[ti := Txn(f.description, f.date, stored)])
      && (ni != ai ==> r[ai].transactions == Remove(accounts[ai].transactions, ti))
      && (ni != ai ==> r[ni].transactions == accounts[ni].transactions + [Txn(f.description, f.date, stored)])
      && (ni != ai ==> r[ni].balance == accounts[ni].balance + t.amount)
  {
    if !EditAccepted(accounts, f) then accounts
    else
      var t := accounts[ai].transactions[ti];
      var ni := Target(accounts, ai, f);
      var moveOut := if ni != ai then -t.amount else 0;
      var changed := t.amount != f.amount;
      var reversal := if f.kind == "withdraw" then t.amount else -t.amount;
      var stored := if changed then (if f.kind == "deposit" then f.amount else -f.amount) else t.amount;
      var dOld := moveOut + (if changed then reversal + stored else 0);
      Place(accounts, ai, ti, ni, Txn(f.description, f.date, stored), dOld, t.amount)
  }

  /**
   The corrected edit: the old amount leaves the old account, the form's
   signed amount arrives in the account the transaction now belongs to.
   */
  function Edit(accounts: seq<Account>, ai: nat, ti: nat, f: EditForm): (r: seq<Account>)
    requires Picks(accounts, ai, ti)
    ensures |r| == |accounts|
    ensures !EditAccepted(accounts, f) ==> r == accounts
    ensures EditAccepted(accounts, f) ==>
      var t := accounts[ai].transactions[ti];
      var ni := Target(accounts, ai, f);
      var t2 := Txn(f.description, f.date, Signed(ParseKind(f.kind).value, f.amount));
      && (forall k :: 0 <= k < |accounts| && k != ai && k != ni ==> r[k] == accounts[k])
      && r[ai].id == accounts[ai].id && r[ai].name == accounts[ai].name
      && r[ni].id == accounts[ni].id && r[ni].name == accounts[ni].name
      && (ni == ai ==> r[ai].transactions == accounts[ai].transactions[ti := t2])
      && (ni != ai ==> r[ai].transactions == Remove(accounts[ai].transactions, ti))
      && (ni != ai ==> r[ni].transactions == accounts[ni].transactions + [t2])
      && Total(r) == Total(accounts) - t.amount + t2.amount
  {
    if !EditAccepted(accounts, f) then accounts
    else
      var t := accounts[ai].transactions[ti];
      var ni := Target(accounts, ai, f);
      var stored := Signed(ParseKind(f.kind).value, f.amount);
      if ni == ai then Place(accounts, ai, ti, ai, Txn(f.description, f.date, stored), stored - t.amount, 0)
      else Place(accounts, ai, ti, ni, Txn(f.description, f.date, stored), -t.amount, stored)
  }

  /** The corrected edit keeps every account's starting balance. */
  lemma EditKeepsDrift(accounts: seq<Account>, ai: nat, ti: nat, f: EditForm)
    requires Picks(accounts, ai, ti)
    ensures forall k :: 0 <= k < |accounts| ==> Drift(Edit(accounts, ai, ti, f)[k]) == Drift(accounts[k])
  {
  }

  /** Submitting the form as the page fills it in changes nothing. */
  lemma EditPrefilledUnchanged(accounts: seq<Account>, ai: nat, ti: nat)
    requires Picks(accounts, ai, ti)
    ensures Edit(accounts, ai, ti, Prefill(accounts, ai, ti)) == accounts
  {
    var t := accounts[ai].transactions[ti];
    var f := Prefill(accounts, ai, ti);
    assert HasId(accounts, f.accountId);
    assert accounts[ai].transactions[ti := t] == accounts[ai].transactions;
    assert Edit(accounts, ai, ti, f)[ai] == accounts[ai];
  }

  /**
   A corrected edit that keeps the account and the signed amount (a change
   of description or date only) leaves every balance as it was.
   */
  lemma EditKeepsBalances(accounts: seq<Account>, ai: nat, ti: nat, f: EditForm)
    requires Picks(accounts, ai, ti) && EditAccepted(accounts, f)
    requires f.accountId == accounts[ai].id
    requires Signed(ParseKind(f.kind).value, f.amount) == accounts[ai].transactions[ti].amount
    ensures forall k :: 0 <= k < |accounts| ==> Edit(accounts, ai, ti, f)[k].balance == accounts[k].balance
  {
  }

  // ---------------------------------------------------------------------------
  // The edit as written: what it gets right

  /** Editing a deposit's amount moves the balance by the new amount minus the old. */
  lemma DepositEditAsWritten(accounts: seq<Account>, ai: nat, ti: nat, f: EditForm)
    requires Picks(accounts, ai, ti) && EditAccepted(accounts, f)
    requires f.accountId == accounts[ai].id
    requires accounts[ai].transactions[ti].amount >= 0 && f.kind == "deposit"
    ensures var r := EditAsWritten(accounts, ai, ti, f);
      && r[ai].balance == accounts[ai].balance + f.amount - accounts[ai].transactions[ti].amount
      && Drift(r[ai]) == Drift(accounts[ai])
  {
  }

  /**
   Moving a transaction without changing its signed amount moves that
   amount from one balance to the other: the two balances' sum, the total
   and every starting balance stay.
   */
  lemma MoveKeepsTotal(accounts: seq<Account>, ai: nat, ti: nat, f: EditForm)
    requires Picks(accounts, ai, ti) && EditAccepted(accounts, f)
    requires f.accountId != accounts[ai].id
    requires Signed(ParseKind(f.kind).value, f.amount) == accounts[ai].transactions[ti].amount
    ensures var r := Edit(accounts, ai, ti, f);
      var ni := Target(accounts, ai, f);
      var t := accounts[ai].transactions[ti];
      && r[ai].balance == accounts[ai].balance - t.amount
      && r[ni].balance == accounts[ni].balance + t.amount
      && Total(r) == Total(accounts)
      && forall k :: 0 <= k < |accounts| ==> Drift(r[k]) == Drift(accounts[k])
  {
    EditKeepsDrift(accounts, ai, ti, f);
  }

  /**
   As written, moving a deposit without changing its amount moves the
   amount from one balance to the other: the two balances' sum and every
   starting balance stay. (The form's amount is positive, so only a
   deposit's stored amount can equal it.)
   */
  lemma MoveAsWrittenConserves(accounts: seq<Account>, ai: nat, ti: nat, f: EditForm)
    requires Picks(accounts, ai, ti) && EditAccepted(accounts, f)
    requires f.accountId != accounts[ai].id
    requires f.amount == accounts[ai].transactions[ti].amount
    ensures var r := EditAsWritten(accounts, ai, ti, f);
      var ni := Target(accounts, ai, f);
      && r[ai].balance + r[ni].balance == accounts[ai].balance + accounts[ni].balance
      && Total(r) == Total(accounts)
      && forall k :: 0 <= k < |accounts| ==> Drift(r[k]) == Drift(accounts[k])
  {
  }

  // ---------------------------------------------------------------------------
  // The edit as written: what it gets wrong

  /**
   Submitting a withdrawal's edit form unchanged (or with a new description
   or date only) lowers the balance by twice the amount: the stored negative
   amount differs from the form's positive one, and the reversal adds the
   negative amount instead of subtracting it. The corrected edit changes nothing.
   */
  lemma WithdrawEditAsWrittenDrops(accounts: seq<Account>, ai: nat, ti: nat, f: EditForm)
    requires Picks(accounts, ai, ti) && EditAccepted(accounts, f)
    requires f.accountId == accounts[ai].id
    requires accounts[ai].transactions[ti].amount < 0
    requires f.kind == "withdraw" && f.amount == -accounts[ai].transactions[ti].amount
    ensures var r := EditAsWritten(accounts, ai, ti, f);
      && r[ai].balance == accounts[ai].balance - 2 * f.amount
      && Drift(r[ai]) == Drift(accounts[ai]) - 2 * f.amount
    ensures Edit(accounts, ai, ti, f)[ai].balance == accounts[ai].balance
  {
  }

  /**
   Moving a withdrawal without changing its amount takes the amount off
   BOTH accounts: the stored negative amount differs from the form's
   positive one, so the amount branch reverses the withdrawal the wrong way
   on the old account after the move has already credited it. The old
   account's starting balance falls by twice the amount and the total by
   twice the amount; the corrected edit credits the old account and debits
   the new one.
   */
  lemma WithdrawMoveAsWrittenDebitsBoth(accounts: seq<Account>, ai: nat, ti: nat, f: EditForm)
    requires Picks(accounts, ai, ti) && EditAccepted(accounts, f)
    requires f.accountId != accounts[ai].id
    requires accounts[ai].transactions[ti].amount < 0
    requires f.kind == "withdraw" && f.amount == -accounts[ai].transactions[ti].amount
    ensures var r := EditAsWritten(accounts, ai, ti, f);
      var ni := Target(accounts, ai, f);
      && r[ai].balance == accounts[ai].balance - f.amount
      && r[ni].balance == accounts[ni].balance - f.amount
      && Drift(r[ai]) == Drift(accounts[ai]) - 2 * f.amount
      && Total(r) == Total(accounts) - 2 * f.amount
    ensures var r := Edit(accounts, ai, ti, f);
      var ni := Target(accounts, ai, f);
      && r[ai].balance == accounts[ai].balance + f.amount
      && r[ni].balance == accounts[ni].balance - f.amount
  {
  }

  /**
   Moving a deposit and changing its amount in one edit applies the change
   to the OLD account: the old account's starting balance rises by the
   change and the new account's falls by it.
   */
  lemma MoveAndChangeAsWrittenDrifts(accounts: seq<Account>, ai: nat, ti: nat, f: EditForm)
    requires Picks(accounts, ai, ti) && EditAccepted(accounts, f)
    requires f.accountId != accounts[ai].id
    requires accounts[ai].transactions[ti].amount >= 0 && f.kind == "deposit"
    ensures var r := EditAsWritten(accounts, ai, ti, f);
      var ni := Target(accounts, ai, f);
      var change := f.amount - accounts[ai].transactions[ti].amount;
      && Drift(r[ai]) == Drift(accounts[ai]) + change
      && Drift(r[ni]) == Drift(accounts[ni]) - change
  {
  }

  /**
   Turning a deposit into a withdrawal of the same size is ignored: the
   stored amount equals the form's amount, so the amount branch is skipped
   and the transaction stays a deposit. The corrected edit stores the withdrawal.
   */
  lemma KindSwitchAsWrittenIgnored(accounts: seq<Account>, ai: nat, ti: nat, f: EditForm)
    requires Picks(accounts, ai, ti) && EditAccepted(accounts, f)
    requires f.accountId == accounts[ai].id
    requires f.kind == "withdraw" && f.amount == accounts[ai].transactions[ti].amount
    ensures EditAsWritten(accounts, ai, ti, f)[ai].transactions[ti].amount == f.amount
    ensures KindOf(EditAsWritten(accounts, ai, ti, f)[ai].transactions[ti].amount) == Deposit
    ensures Edit(accounts, ai, ti, f)[ai].transactions[ti].amount == -f.amount
  {
  }
}
