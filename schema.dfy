/**
 * The constraints the database schema puts on the tables: the primary keys
 * and UNIQUE columns, and the sign convention for goal amounts.
 */
module Schema {
  import opened Ledger
  import opened Rules

  /** No two accounts share a name (the UNIQUE constraint on `accounts.name`). */
  predicate UniqueAccountNames(accounts: seq<Account>) {
    forall i, j :: 0 <= i < j < |accounts| ==> accounts[i].name != accounts[j].name
  }

  /** The key constraints of the tables that have them, and goal amounts stored as costs. */
  predicate TablesValid(accounts: seq<Account>, categories: seq<Category>, transactions: seq<Transaction>,
                        planned: seq<PlannedTransaction>, goals: seq<Goal>, rules: seq<CategoryRule>) {
    UniqueIds(accounts, AccountId) && UniqueAccountNames(accounts)
    && UniqueIds(categories, CategoryId) && UniqueCategoryNames(categories)
    && UniqueIds(transactions, TransactionId)
    && UniqueIds(planned, PlannedId)
    && UniqueIds(goals, GoalId) && CostsStored(goals)
    && UniqueIds(rules, RuleId) && UniqueKeywords(rules)
  }
}
