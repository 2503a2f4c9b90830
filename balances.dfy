/**
 * Balances: the opening balance of a period (`get_balance_before_date`),
 * the per-account balances (`get_accounts_with_balance`) and net worth
 * (`get_net_worth`).
 */
module Balances {
  import opened Wrappers
  import opened Numbers
  import opened Dates
  import opened Ledger

  /** The account filter of the balance queries: standard accounts, and only the named one when a name is given. */
  predicate AccountSelected(a: Account, accountName: Option<string>) {
    a.kind == Standard && (!Given(accountName) || a.name == accountName.value)
  }

  /** The transaction joins a selected account. */
  predicate OnSelectedAccount(accounts: seq<Account>, t: Transaction, accountName: Option<string>) {
    match AccountWithId(accounts, t.accountId)
    case Some(a) => AccountSelected(a, accountName)
    case None => false
  }

  /** `SELECT COALESCE(SUM(opening_balance), 0) FROM accounts WHERE type = 'standard' [AND name = ?]`. */
  function OpeningTotal(accounts: seq<Account>, accountName: Option<string>): real {
    if accounts == [] then 0.0
    else (if AccountSelected(accounts[0], accountName) then accounts[0].openingBalance else 0.0)
         + OpeningTotal(accounts[1..], accountName)
  }

  /** The amounts of transactions on selected accounts dated strictly before `start`. */
  function AmountBefore(accounts: seq<Account>, txs: seq<Transaction>, start: CalendarDate, accountName: Option<string>): real {
    if txs == [] then 0.0
    else (if OnSelectedAccount(accounts, txs[0], accountName) && Before(txs[0].date, start) then txs[0].amount else 0.0)
         + AmountBefore(accounts, txs[1..], start, accountName)
  }

  /** The amounts of transactions on selected accounts dated `d`. */
  function AmountOn(accounts: seq<Account>, txs: seq<Transaction>, d: CalendarDate, accountName: Option<string>): real {
    if txs == [] then 0.0
    else (if OnSelectedAccount(accounts, txs[0], accountName) && txs[0].date == d then txs[0].amount else 0.0)
         + AmountOn(accounts, txs[1..], d, accountName)
  }

  /**
   * `get_balance_before_date(start_date, account_name)`: before the first
   * day of the calendar only the opening balances count, and a name that no
   * standard account carries selects nothing.
   */
  function BalanceBeforeDate(accounts: seq<Account>, txs: seq<Transaction>, start: CalendarDate,
                             accountName: Option<string>): (r: real)
    ensures start == Date(1, 1, 1) ==> r == OpeningTotal(accounts, accountName)
    ensures (forall a :: a in accounts ==> !AccountSelected(a, accountName)) ==> r == 0.0
  {
    AmountBeforeFirstDay(accounts, txs, accountName);
    NothingSelected(accounts, txs, start, accountName);
    OpeningTotal(accounts, accountName) + AmountBefore(accounts, txs, start, accountName)
  }

  lemma {:induction false} NothingSelected(accounts: seq<Account>, txs: seq<Transaction>, start: CalendarDate,
                                           accountName: Option<string>)
    ensures (forall a :: a in accounts ==> !AccountSelected(a, accountName))
            ==> OpeningTotal(accounts, accountName) == 0.0 && AmountBefore(accounts, txs, start, accountName) == 0.0
  {
    if forall a :: a in accounts ==> !AccountSelected(a, accountName) {
      NoOpening(accounts, accountName);
      NoAmountBefore(accounts, txs, start, accountName);
    }
  }

  lemma {:induction false} NoOpening(accounts: seq<Account>, accountName: Option<string>)
    requires forall a :: a in accounts ==> !AccountSelected(a, accountName)
    ensures OpeningTotal(accounts, accountName) == 0.0
  {
    if accounts != [] {
      assert accounts[0] in accounts;
      assert forall a :: a in accounts[1..] ==> a in accounts;
      NoOpening(accounts[1..], accountName);
    }
  }

  lemma {:induction false} NoAmountBefore(accounts: seq<Account>, txs: seq<Transaction>, start: CalendarDate,
                                          accountName: Option<string>)
    requires forall a :: a in accounts ==> !AccountSelected(a, accountName)
    ensures AmountBefore(accounts, txs, start, accountName) == 0.0
  {
    if txs != [] {
      NoAmountBefore(accounts, txs[1..], start, accountName);
    }
  }

  /** The balance before the next day is the balance before this one plus this day's movements. */
  lemma {:induction false} AmountBeforeNextDay(accounts: seq<Account>, txs: seq<Transaction>, d: CalendarDate,
                                               accountName: Option<string>)
    ensures AmountBefore(accounts, txs, NextDay(d), accountName)
            == AmountBefore(accounts, txs, d, accountName) + AmountOn(accounts, txs, d, accountName)
  {
    if txs != [] {
      var t := txs[0];
      BeforeIsDayNumberOrder(t.date, NextDay(d));
      BeforeIsDayNumberOrder(t.date, d);
      if DayNumber(t.date) == DayNumber(d) {
        DayNumberInjective(t.date, d);
      }
      AmountBeforeNextDay(accounts, txs[1..], d, accountName);
    }
  }

  lemma BalanceBeforeNextDay(accounts: seq<Account>, txs: seq<Transaction>, d: CalendarDate, accountName: Option<string>)
    ensures BalanceBeforeDate(accounts, txs, NextDay(d), accountName)
            == BalanceBeforeDate(accounts, txs, d, accountName) + AmountOn(accounts, txs, d, accountName)
  {
    AmountBeforeNextDay(accounts, txs, d, accountName);
  }

  /** No transaction is dated before the first day of the calendar. */
  lemma {:induction false} AmountBeforeFirstDay(accounts: seq<Account>, txs: seq<Transaction>, accountName: Option<string>)
    ensures AmountBefore(accounts, txs, Date(1, 1, 1), accountName) == 0.0
  {
    if txs != [] {
      AmountBeforeFirstDay(accounts, txs[1..], accountName);
    }
  }

  // ---- get_accounts_with_balance ----

  /** The sum of an account's transactions: `COALESCE(SUM(t.amount), 0)` over the LEFT JOIN. */
  function OwnTotal(txs: seq<Transaction>, accountId: int): real {
    if txs == [] then 0.0
    else (if txs[0].accountId == accountId then txs[0].amount else 0.0) + OwnTotal(txs[1..], accountId)
  }

  /**
   * One row of `get_accounts_with_balance`. For a standard account the
   * display balance is the opening balance plus its transactions; for a
   * credit card it is the remaining credit (limit plus transactions, NULL
   * without a limit) and the amount due is the transactions' sum.
   */
  datatype AccountBalance = AccountBalance(name: string, kind: AccountKind, creditLimit: Option<real>,
                                           display: Option<real>, amountDue: Option<real>)

  function BalanceRow(a: Account, txs: seq<Transaction>): (r: AccountBalance)
    ensures r.name == a.name && r.kind == a.kind && r.creditLimit == a.creditLimit
    ensures a.kind == Standard ==> r.display == Some(a.openingBalance + OwnTotal(txs, a.id)) && r.amountDue.None?
    ensures a.kind == CreditCard ==> r.amountDue == Some(OwnTotal(txs, a.id))
    ensures a.kind == CreditCard ==> (r.display.Some? <==> a.creditLimit.Some?)
    ensures a.kind == CreditCard && a.creditLimit.Some? ==> r.display == Some(a.creditLimit.value + OwnTotal(txs, a.id))
  {
    var s := OwnTotal(txs, a.id);
    match a.kind
    case Standard => AccountBalance(a.name, a.kind, a.creditLimit, Some(a.openingBalance + s), None)
    case CreditCard =>
      AccountBalance(a.name, a.kind, a.creditLimit,
                     (match a.creditLimit case Some(l) => Some(l + s) case None => None), Some(s))
  }

  /** `get_accounts_with_balance()`, one row per account (in rowid order; the ORDER BY name is not modelled). */
  function AccountsWithBalance(accounts: seq<Account>, txs: seq<Transaction>): (r: seq<AccountBalance>)
    ensures |r| == |accounts|
    ensures forall i :: 0 <= i < |accounts| ==> r[i] == BalanceRow(accounts[i], txs)
  {
    if accounts == [] then [] else [BalanceRow(accounts[0], txs)] + AccountsWithBalance(accounts[1..], txs)
  }

  // ---- get_net_worth ----

  /** `sum(row[3] for row in rows if row[1] == 'standard')`. */
  function Liquidity(rows: seq<AccountBalance>): real {
    if rows == [] then 0.0
    else (if rows[0].kind == Standard then rows[0].display.GetOr(0.0) else 0.0) + Liquidity(rows[1..])
  }

  /** `sum(row[4] for row in rows if row[1] == 'credit_card')`. */
  function CardBalances(rows: seq<AccountBalance>): real {
    if rows == [] then 0.0
    else (if rows[0].kind == CreditCard then rows[0].amountDue.GetOr(0.0) else 0.0) + CardBalances(rows[1..])
  }

  /** `SELECT COALESCE(SUM(amount), 0) FROM debts WHERE type = 'borrowed' AND status = 'outstanding'`. */
  function OutstandingBorrowed(debts: seq<Debt>): real {
    if debts == [] then 0.0
    else (if debts[0].kind == Borrowed && debts[0].status == Outstanding then debts[0].amount else 0.0)
         + OutstandingBorrowed(debts[1..])
  }

  /**
   * `get_net_worth()`: the standard accounts' opening balances plus every
   * booked transaction (credit-card spending counts as the negative amount
   * due), minus what is still owed on borrowed money.
   */
  function NetWorth(accounts: seq<Account>, txs: seq<Transaction>, debts: seq<Debt>): (r: real)
    ensures UniqueIds(accounts, AccountId)
            ==> r == StandardOpening(accounts) + BookedTotal(accounts, txs) - OutstandingBorrowed(debts)
  {
    LiquidityAndCards(accounts, txs);
    assert UniqueIds(accounts, AccountId) ==> OwnTotals(accounts, txs) == BookedTotal(accounts, txs) by {
      if UniqueIds(accounts, AccountId) {
        OwnTotalsIsBooked(accounts, txs);
      }
    }
    var rows := AccountsWithBalance(accounts, txs);
    Liquidity(rows) + CardBalances(rows) - OutstandingBorrowed(debts)
  }

  /** The opening balances of the standard accounts. */
  function StandardOpening(accounts: seq<Account>): real {
    if accounts == [] then 0.0
    else (if accounts[0].kind == Standard then accounts[0].openingBalance else 0.0) + StandardOpening(accounts[1..])
  }

  /** The amounts of all transactions that belong to an existing account. */
  function BookedTotal(accounts: seq<Account>, txs: seq<Transaction>): real {
    if txs == [] then 0.0
    else (if AccountWithId(accounts, txs[0].accountId).Some? then txs[0].amount else 0.0)
         + BookedTotal(accounts, txs[1..])
  }

  /** The per-account transaction sums, over all accounts. */
  function OwnTotals(accounts: seq<Account>, txs: seq<Transaction>): real {
    if accounts == [] then 0.0 else OwnTotal(txs, accounts[0].id) + OwnTotals(accounts[1..], txs)
  }

  /** What one transaction adds to the per-account sums. */
  function Matches(accounts: seq<Account>, t: Transaction): real {
    if accounts == [] then 0.0
    else (if accounts[0].id == t.accountId then t.amount else 0.0) + Matches(accounts[1..], t)
  }

  lemma {:induction false} LiquidityAndCards(accounts: seq<Account>, txs: seq<Transaction>)
    ensures var rows := AccountsWithBalance(accounts, txs);
            Liquidity(rows) + CardBalances(rows) == StandardOpening(accounts) + OwnTotals(accounts, txs)
  {
    if accounts != [] {
      var rows := AccountsWithBalance(accounts, txs);
      assert rows[1..] == AccountsWithBalance(accounts[1..], txs);
      LiquidityAndCards(accounts[1..], txs);
    }
  }

  lemma {:induction false} OwnTotalsCons(accounts: seq<Account>, t: Transaction, rest: seq<Transaction>)
    ensures OwnTotals(accounts, [t] + rest) == Matches(accounts, t) + OwnTotals(accounts, rest)
  {
    if accounts != [] {
      assert ([t] + rest)[1..] == rest;
      OwnTotalsCons(accounts[1..], t, rest);
    }
  }

  lemma {:induction false} OwnTotalsEmpty(accounts: seq<Account>)
    ensures OwnTotals(accounts, []) == 0.0
  {
    if accounts != [] {
      OwnTotalsEmpty(accounts[1..]);
    }
  }

  lemma {:induction false} MatchesAbsent(accounts: seq<Account>, t: Transaction)
    requires forall a :: a in accounts ==> a.id != t.accountId
    ensures Matches(accounts, t) == 0.0
  {
    if accounts != [] {
      assert forall a :: a in accounts[1..] ==> a in accounts;
      MatchesAbsent(accounts[1..], t);
    }
  }

  /** With unique account ids a transaction is counted once if its account exists, else not at all. */
  lemma {:induction false} MatchesOnce(accounts: seq<Account>, t: Transaction)
    requires UniqueIds(accounts, AccountId)
    ensures Matches(accounts, t) == if AccountWithId(accounts, t.accountId).Some? then t.amount else 0.0
  {
    if accounts != [] {
      TailKeepsIds(accounts, AccountId);
      if accounts[0].id == t.accountId {
        MatchesAbsent(accounts[1..], t);
      } else {
        MatchesOnce(accounts[1..], t);
        assert AccountWithId(accounts, t.accountId).Some? <==> AccountWithId(accounts[1..], t.accountId).Some? by {
          assert forall a :: a in accounts <==> a == accounts[0] || a in accounts[1..];
        }
      }
    }
  }

  lemma {:induction false} OwnTotalsIsBooked(accounts: seq<Account>, txs: seq<Transaction>)
    requires UniqueIds(accounts, AccountId)
    ensures OwnTotals(accounts, txs) == BookedTotal(accounts, txs)
  {
    if txs == [] {
      OwnTotalsEmpty(accounts);
    } else {
      assert txs == [txs[0]] + txs[1..];
      OwnTotalsCons(accounts, txs[0], txs[1..]);
      MatchesOnce(accounts, txs[0]);
      OwnTotalsIsBooked(accounts, txs[1..]);
    }
  }

  lemma {:induction false} BookedTotalAppend(accounts: seq<Account>, txs: seq<Transaction>, t: Transaction)
    ensures BookedTotal(accounts, txs + [t])
            == BookedTotal(accounts, txs) + (if AccountWithId(accounts, t.accountId).Some? then t.amount else 0.0)
  {
    if txs != [] {
      assert (txs + [t])[1..] == txs[1..] + [t];
      BookedTotalAppend(accounts, txs[1..], t);
    }
  }

  lemma {:induction false} OutstandingBorrowedSettled(debts: seq<Debt>, id: int)
    requires UniqueIds(debts, DebtId)
    requires DebtWithId(debts, id).Some?
    ensures var d := DebtWithId(debts, id).value;
            OutstandingBorrowed(MarkSettled(debts, id))
            == OutstandingBorrowed(debts) - (if d.kind == Borrowed && d.status == Outstanding then d.amount else 0.0)
  {
    TailKeepsIds(debts, DebtId);
    var r := MarkSettled(debts, id);
    assert r[1..] == MarkSettled(debts[1..], id);
    if debts[0].id == id {
      MarkSettledAbsent(debts[1..], id);
    } else {
      assert forall d :: d in debts <==> d == debts[0] || d in debts[1..];
      OutstandingBorrowedSettled(debts[1..], id);
    }
  }

  lemma {:induction false} MarkSettledAbsent(debts: seq<Debt>, id: int)
    requires forall d :: d in debts ==> d.id != id
    ensures MarkSettled(debts, id) == debts
  {
    if debts != [] {
      assert forall d :: d in debts[1..] ==> d in debts;
      MarkSettledAbsent(debts[1..], id);
    }
  }

  /**
   * Settling an outstanding debt moves net worth by what comes back: a loan
   * given out adds its amount, a loan taken changes nothing (the payment
   * and the debt cancel).
   */
  lemma SettlingDebtNetWorth(accounts: seq<Account>, txs: seq<Transaction>, debts: seq<Debt>, id: int, t: Transaction)
    requires UniqueIds(accounts, AccountId) && UniqueIds(debts, DebtId)
    requires DebtWithId(debts, id).Some? && DebtWithId(debts, id).value.status == Outstanding
    requires t.amount == SettlementEntry(DebtWithId(debts, id).value).amount
    requires AccountWithId(accounts, t.accountId).Some?
    ensures var d := DebtWithId(debts, id).value;
            NetWorth(accounts, txs + [t], MarkSettled(debts, id))
            == NetWorth(accounts, txs, debts) + (if d.kind == Lent then d.amount else 0.0)
  {
    BookedTotalAppend(accounts, txs, t);
    OutstandingBorrowedSettled(debts, id);
  }
}
