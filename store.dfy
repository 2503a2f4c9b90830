/**
 * The database file as one object whose tables the data layer's writing
 * operations update in place. Each method is one `with conn() as c:` block
 * of the source: either all its statements take effect, or (on an
 * exception) none of them.
 */
module Store {
  import opened Wrappers
  import opened Numbers
  import opened Dates
  import opened DateText
  import opened Text
  import opened Ledger
  import opened Rules
  import opened Schema

  /** The ids `bulk_update_transactions` assigns: each given, non-empty name that names a row. */
  datatype Targets = Targets(categoryId: Option<int>, accountId: Option<int>)

  function BulkTargets(accounts: seq<Account>, categories: seq<Category>,
                       newCategoryName: Option<string>, newAccountName: Option<string>): (r: Targets)
    ensures r.categoryId.Some? <==> Given(newCategoryName) && CategoryNamed(categories, newCategoryName.value).Some?
    ensures r.categoryId.Some? ==> exists c :: c in categories && c.name == newCategoryName.value && c.id == r.categoryId.value
    ensures r.accountId.Some? <==> Given(newAccountName) && AccountNamed(accounts, newAccountName.value).Some?
    ensures r.accountId.Some? ==> exists a :: a in accounts && a.name == newAccountName.value && a.id == r.accountId.value
  {
    Targets(
      if Given(newCategoryName) then
        (match CategoryNamed(categories, newCategoryName.value) case Some(c) => Some(c.id) case None => None)
      else None,
      if Given(newAccountName) then
        (match AccountNamed(accounts, newAccountName.value) case Some(a) => Some(a.id) case None => None)
      else None)
  }

  class LedgerStore {
    var accounts: seq<Account>
    var categories: seq<Category>
    var transactions: seq<Transaction>
    var recurring: seq<RecurringRule>
    var planned: seq<PlannedTransaction>
    var goals: seq<Goal>
    var debts: seq<Debt>
    var rules: seq<CategoryRule>

    /** The schema's key constraints, and goal amounts stored as costs. */
    predicate Valid()
      reads this
    {
      TablesValid(accounts, categories, transactions, planned, goals, rules)
      && UniqueIds(debts, DebtId)
    }

    /** A database with empty tables. */
    constructor ()
      ensures Valid()
      ensures accounts == [] && categories == [] && transactions == [] && recurring == []
      ensures planned == [] && goals == [] && debts == [] && rules == []
    {
      accounts := [];
      categories := [];
      transactions := [];
      recurring := [];
      planned := [];
      goals := [];
      debts := [];
      rules := [];
    }

    /**
     * `add_tx`: nothing happens for an unreadable date; otherwise the
     * category is found or created and the transaction appended, unless no
     * account has the name, in which case the INSERT fails and nothing is
     * written.
     */
    method AddTx(date: DateInput, accountName: string, categoryName: string, amount: real,
                 description: Option<string>) returns (added: bool)
      requires Valid()
      modifies this`categories, this`transactions
      ensures Valid()
      ensures added <==> ParseDate(date).Some? && (exists a :: a in accounts && a.name == accountName)
      ensures !added ==> categories == old(categories) && transactions == old(transactions)
      ensures added ==>
                var ins := NewTransaction(accounts, old(categories), old(transactions), ParseDate(date).value,
                                          accountName, categoryName, amount, description).value;
                categories == ins.categories && transactions == old(transactions) + [ins.tx]
    {
      var d := ParseDate(date);
      var ins := if d.Some? then NewTransaction(accounts, categories, transactions, d.value, accountName,
                                                categoryName, amount, description)
                 else None;
      if ins.Some? {
        NewTransactionKeepsKeys(accounts, categories, transactions, planned, goals, rules, d.value, accountName,
                                categoryName, amount, description);
        categories := ins.value.categories;
        transactions := transactions + [ins.value.tx];
      }
      added := ins.Some?;
    }

    /**
     * `reconcile_tx`: books the transaction and deletes the planned row it
     * realises, both or neither. An unreadable date or a failing INSERT
     * leaves every table as it was.
     */
    method ReconcileTx(plannedId: int, date: DateInput, categoryName: string, accountName: string,
                       amount: real, description: Option<string>) returns (done: bool)
      requires Valid()
      modifies this`categories, this`transactions, this`planned
      ensures Valid()
      ensures done <==> ParseDate(date).Some? && (exists a :: a in accounts && a.name == accountName)
      ensures !done ==> categories == old(categories) && transactions == old(transactions) && planned == old(planned)
      ensures done ==>
                var ins := NewTransaction(accounts, old(categories), old(transactions), ParseDate(date).value,
                                          accountName, categoryName, amount, description).value;
                categories == ins.categories && transactions == old(transactions) + [ins.tx]
                && planned == WithoutPlanned(old(planned), plannedId)
    {
      done := AddTx(date, accountName, categoryName, amount, description);
      if done {
        WithoutPlannedKeepsIds(planned, plannedId);
        planned := WithoutPlanned(planned, plannedId);
      }
    }

    /**
     * `bulk_update_transactions`: moves the listed transactions to the named
     * category and/or account. Empty or unknown names are skipped, and with
     * nothing to set no row changes.
     */
    method BulkUpdateTransactions(ids: seq<int>, newCategoryName: Option<string>, newAccountName: Option<string>)
      requires Valid()
      modifies this`transactions
      ensures Valid()
      ensures var t := BulkTargets(accounts, categories, newCategoryName, newAccountName);
              transactions == if ids == [] || (t.categoryId.None? && t.accountId.None?) then old(transactions)
                              else Reassign(old(transactions), ids, t.categoryId, t.accountId)
    {
      if ids == [] || (newCategoryName.None? && newAccountName.None?) {
        return;
      }
      var t := BulkTargets(accounts, categories, newCategoryName, newAccountName);
      if t.categoryId.None? && t.accountId.None? {
        return;
      }
      transactions := Reassign(transactions, ids, t.categoryId, t.accountId);
    }

    /** `bulk_delete_transactions`: deletes the listed transactions and reports how many rows went. */
    method BulkDeleteTransactions(ids: seq<int>) returns (count: nat)
      requires Valid()
      modifies this`transactions
      ensures Valid()
      ensures transactions == WithoutIds(old(transactions), ids)
      ensures count == |old(transactions)| - |transactions|
    {
      if ids == [] {
        assert forall t :: t in transactions ==> t.id !in ids;
        WithoutIdsUnchanged(transactions, ids);
        return 0;
      }
      WithoutIdsKeepsIds(transactions, ids);
      WithoutIdsCount(transactions, ids);
      count := CountListed(transactions, ids);
      transactions := WithoutIds(transactions, ids);
    }

    /**
     * `settle_debt`: books the repayment on the account today and marks the
     * debt settled. An unknown debt changes nothing; when the booking fails
     * (no such account) its exception stops the update as well.
     */
    method SettleDebt(debtId: int, accountName: string, today: CalendarDate) returns (settled: bool)
      requires Valid()
      modifies this`categories, this`transactions, this`debts
      ensures Valid()
      ensures settled <==> DebtWithId(old(debts), debtId).Some? && (exists a :: a in accounts && a.name == accountName)
      ensures !settled ==> categories == old(categories) && transactions == old(transactions) && debts == old(debts)
      ensures settled ==>
                var e := SettlementEntry(DebtWithId(old(debts), debtId).value);
                var ins := NewTransaction(accounts, old(categories), old(transactions), today,
                                          accountName, e.categoryName, e.amount, Some(e.description)).value;
                categories == ins.categories && transactions == old(transactions) + [ins.tx]
                && debts == MarkSettled(old(debts), debtId)
    {
      settled := false;
      var debt := DebtWithId(debts, debtId);
      if debt.Some? {
        var e := SettlementEntry(debt.value);
        settled := AddTx(DateValue(today), accountName, e.categoryName, e.amount, Some(e.description));
        if settled {
          debts := MarkSettled(debts, debtId);
        }
      }
    }

    /** `add_goal`: appends the goal with its cost stored as a non-positive amount. */
    method AddGoal(description: string, amount: real)
      requires Valid()
      modifies this`goals
      ensures Valid()
      ensures goals == old(goals) + [NewGoal(old(goals), description, amount)]
    {
      var g := NewGoal(goals, description, amount);
      AppendFreshKeepsIds(goals, g, GoalId);
      goals := goals + [g];
    }

    /**
     * `add_rule`, with the category found by name whatever its type (and
     * created as an expense when new); see `RuleCategoryAsWritten` for the
     * lookup as written, which fails for income and transfer categories.
     */
    method AddRule(keyword: string, categoryName: string)
      requires Valid()
      modifies this`categories, this`rules
      ensures Valid()
      ensures var l := RuleCategory(old(categories), categoryName);
              categories == CategoriesAfter(old(categories), l)
              && rules == WithRule(old(rules), keyword, LookupId(l).value)
    {
      var l := RuleCategory(categories, categoryName);
      AddRuleKeepsKeys(accounts, categories, transactions, planned, goals, rules, keyword, categoryName);
      categories := CategoriesAfter(categories, l);
      rules := WithRule(rules, keyword, LookupId(l).value);
    }
  }

  /** The rows `add_tx` writes keep the key constraints. */
  lemma NewTransactionKeepsKeys(accounts: seq<Account>, categories: seq<Category>, txs: seq<Transaction>,
                                planned: seq<PlannedTransaction>, goals: seq<Goal>, rules: seq<CategoryRule>,
                                date: CalendarDate, accountName: string, categoryName: string,
                                amount: real, description: Option<string>)
    requires TablesValid(accounts, categories, txs, planned, goals, rules)
    requires NewTransaction(accounts, categories, txs, date, accountName, categoryName, amount, description).Some?
    ensures var ins := NewTransaction(accounts, categories, txs, date, accountName, categoryName, amount, description).value;
            TablesValid(accounts, ins.categories, txs + [ins.tx], planned, goals, rules)
  {
    var ins := NewTransaction(accounts, categories, txs, date, accountName, categoryName, amount, description).value;
    CategoryLookupKeepsKeys(categories, categoryName, Some(KindForName(categories, categoryName)));
    AppendFreshKeepsIds(txs, ins.tx, TransactionId);
  }

  /** The rows `add_rule` writes keep the key constraints of both tables. */
  lemma AddRuleKeepsKeys(accounts: seq<Account>, categories: seq<Category>, txs: seq<Transaction>,
                         planned: seq<PlannedTransaction>, goals: seq<Goal>, rules: seq<CategoryRule>,
                         keyword: string, categoryName: string)
    requires TablesValid(accounts, categories, txs, planned, goals, rules)
    ensures var l := RuleCategory(categories, categoryName);
            TablesValid(accounts, CategoriesAfter(categories, l), txs, planned, goals,
                        WithRule(rules, keyword, LookupId(l).value))
  {
    var l := RuleCategory(categories, categoryName);
    RuleCategoryKeepsKeys(categories, categoryName);
    WithRuleKeepsIds(rules, keyword, LookupId(l).value);
    WithRuleKeepsKeywordsUnique(rules, keyword, LookupId(l).value);
  }

  lemma {:induction false} WithoutIdsUnchanged(txs: seq<Transaction>, ids: seq<int>)
    requires forall t :: t in txs ==> t.id !in ids
    ensures WithoutIds(txs, ids) == txs
  {
    if txs != [] {
      assert forall t :: t in txs[1..] ==> t in txs;
      WithoutIdsUnchanged(txs[1..], ids);
    }
  }
}
