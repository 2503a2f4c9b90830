/**
 * Keyword rules: `apply_rules` suggests a category for a description, and
 * `add_rule` stores a keyword with its category.
 */
module Rules {
  import opened Wrappers
  import opened Numbers
  import opened Text
  import opened Sorting
  import opened Ledger

  /** The category name given when no rule applies. */
  const Uncategorized: string := "Da categorizzare"

  /** `ORDER BY length(keyword) DESC` as an ascending key. */
  function KeywordOrder(r: CategoryRule): real {
    -(|r.keyword| as real)
  }

  predicate MatchesText(text: string, r: CategoryRule) {
    Contains(text, r.keyword)
  }

  /**
   * The rule `apply_rules` stops at: the first, in order of decreasing
   * keyword length, whose keyword occurs in `text`. Among keywords of equal
   * length the rowid order is taken.
   */
  function MatchingRule(rules: seq<CategoryRule>, text: string): (r: Option<CategoryRule>)
    ensures r.Some? ==> r.value in rules && Contains(text, r.value.keyword)
    ensures r.Some? ==> forall x :: x in rules && Contains(text, x.keyword) ==> |x.keyword| <= |r.value.keyword|
    ensures r.None? <==> forall x :: x in rules ==> !Contains(text, x.keyword)
  {
    var ordered := SortBy(rules, KeywordOrder);
    SortBySorted(rules, KeywordOrder);
    assert forall x :: x in rules <==> x in ordered by {
      assert forall x :: x in rules <==> x in multiset(rules);
      assert forall x :: x in ordered <==> x in multiset(ordered);
    }
    match FirstIndex(ordered, (x: CategoryRule) => MatchesText(text, x))
    case None => None
    case Some(i) =>
      assert forall x :: x in ordered && Contains(text, x.keyword) ==> |x.keyword| <= |ordered[i].keyword| by {
        forall x | x in ordered && Contains(text, x.keyword) ensures |x.keyword| <= |ordered[i].keyword| {
          var k :| 0 <= k < |ordered| && ordered[k] == x;
          assert MatchesText(text, ordered[k]);
          assert i <= k;
          if i < k {
            assert KeywordOrder(ordered[i]) <= KeywordOrder(ordered[k]);
          }
        }
      }
      Some(ordered[i])
  }

  /** `x` matches `text` and every other matching rule has a strictly shorter keyword. */
  predicate LongestMatch(rules: seq<CategoryRule>, text: string, x: CategoryRule) {
    x in rules && Contains(text, x.keyword)
    && forall y :: y in rules && y != x && Contains(text, y.keyword) ==> |y.keyword| < |x.keyword|
  }

  /**
   * `apply_rules(description)`: the name of the category of the longest
   * keyword found in the lower-cased description, "Da categorizzare" when
   * there is no description, no keyword occurs, or that category is gone.
   */
  function ApplyRules(description: Option<string>, rules: seq<CategoryRule>, categories: seq<Category>): (r: string)
    ensures !Given(description) ==> r == Uncategorized
    ensures forall x, c :: Given(description) && LongestMatch(rules, Lower(description.value), x)
                           && c in categories && c.id == x.categoryId && UniqueIds(categories, CategoryId) ==>
                             r == c.name
    ensures forall x :: Given(description) && LongestMatch(rules, Lower(description.value), x)
                        && (forall c :: c in categories ==> c.id != x.categoryId) ==>
                          r == Uncategorized
    ensures Given(description) && (forall x :: x in rules ==> !Contains(Lower(description.value), x.keyword)) ==>
              r == Uncategorized
    ensures r != Uncategorized ==>
              exists x, c :: x in rules && c in categories && Contains(Lower(description.value), x.keyword)
                             && c.id == x.categoryId && c.name == r
                             && forall y :: y in rules && Contains(Lower(description.value), y.keyword) ==>
                                              |y.keyword| <= |x.keyword|
  {
    if !Given(description) then Uncategorized
    else
      match MatchingRule(rules, Lower(description.value))
      case None => Uncategorized
      case Some(x) =>
        match CategoryWithId(categories, x.categoryId)
        case Some(c) => c.name
        case None => Uncategorized
  }

  /** The suggestion does not depend on the case of the description. */
  lemma ApplyRulesIgnoresCase(description: string, rules: seq<CategoryRule>, categories: seq<Category>)
    ensures ApplyRules(Some(description), rules, categories) == ApplyRules(Some(Lower(description)), rules, categories)
  {
    LowerIdempotent(description);
  }

  // ---- add_rule ----

  /** Keywords are unique (the UNIQUE constraint on `rules.keyword`). */
  predicate UniqueKeywords(rules: seq<CategoryRule>) {
    forall i, j :: 0 <= i < j < |rules| ==> rules[i].keyword != rules[j].keyword
  }

  /**
   * `INSERT OR REPLACE INTO rules (keyword, category_id)`: the rule with the
   * same lower-cased keyword, if any, is deleted and the new row appended
   * with a fresh rowid.
   */
  function WithRule(rules: seq<CategoryRule>, keyword: string, categoryId: int): (r: seq<CategoryRule>)
    ensures |r| >= 1 && r[|r| - 1] == CategoryRule(NextId(rules, RuleId), Lower(keyword), categoryId)
    ensures forall x :: x in r[..|r| - 1] <==> x in rules && x.keyword != Lower(keyword)
  {
    KeepOtherKeywords(rules, Lower(keyword)) + [CategoryRule(NextId(rules, RuleId), Lower(keyword), categoryId)]
  }

  function KeepOtherKeywords(rules: seq<CategoryRule>, keyword: string): (r: seq<CategoryRule>)
    ensures forall x :: x in r <==> x in rules && x.keyword != keyword
    ensures forall i :: 0 <= i < |r| ==> exists j :: 0 <= j < |rules| && rules[j] == r[i]
  {
    if rules == [] then []
    else
      assert forall x :: x in rules <==> x == rules[0] || x in rules[1..];
      var rest := KeepOtherKeywords(rules[1..], keyword);
      if rules[0].keyword != keyword then
        assert forall i :: 0 <= i < |rest| ==> exists j :: 0 <= j < |rules| && rules[j] == rest[i] by {
          forall i | 0 <= i < |rest| ensures exists j :: 0 <= j < |rules| && rules[j] == rest[i] {
            var j :| 0 <= j < |rules[1..]| && rules[1..][j] == rest[i];
            assert rules[j + 1] == rest[i];
          }
        }
        [rules[0]] + rest
      else rest
  }

  /** Adding a rule keeps keywords unique. */
  lemma WithRuleKeepsKeywordsUnique(rules: seq<CategoryRule>, keyword: string, categoryId: int)
    requires UniqueKeywords(rules)
    ensures UniqueKeywords(WithRule(rules, keyword, categoryId))
  {
    var kept := KeepOtherKeywords(rules, Lower(keyword));
    KeepOtherKeywordsUnique(rules, Lower(keyword));
    var r := WithRule(rules, keyword, categoryId);
    assert r[..|r| - 1] == kept;
    forall i | 0 <= i < |kept| ensures kept[i].keyword != Lower(keyword) {
      assert kept[i] in kept;
    }
  }

  lemma {:induction false} KeepOtherKeywordsUnique(rules: seq<CategoryRule>, keyword: string)
    requires UniqueKeywords(rules)
    ensures UniqueKeywords(KeepOtherKeywords(rules, keyword))
  {
    if rules != [] {
      KeepOtherKeywordsUnique(rules[1..], keyword);
      var rest := KeepOtherKeywords(rules[1..], keyword);
      forall i | 0 <= i < |rest| ensures rest[i].keyword != rules[0].keyword {
        assert rest[i] in rest;
        var j :| 0 <= j < |rules[1..]| && rules[1..][j] == rest[i];
        assert rules[j + 1] == rest[i];
      }
    }
  }

  /** Adding a rule keeps rule ids unique. */
  lemma WithRuleKeepsIds(rules: seq<CategoryRule>, keyword: string, categoryId: int)
    requires UniqueIds(rules, RuleId)
    ensures UniqueIds(WithRule(rules, keyword, categoryId), RuleId)
  {
    KeepOtherKeywordsKeepsIds(rules, Lower(keyword));
    var kept := KeepOtherKeywords(rules, Lower(keyword));
    AppendFreshKeepsIds(kept, CategoryRule(NextId(rules, RuleId), Lower(keyword), categoryId), RuleId);
  }

  lemma {:induction false} KeepOtherKeywordsKeepsIds(rules: seq<CategoryRule>, keyword: string)
    requires UniqueIds(rules, RuleId)
    ensures UniqueIds(KeepOtherKeywords(rules, keyword), RuleId)
  {
    if rules != [] {
      TailKeepsIds(rules, RuleId);
      KeepOtherKeywordsKeepsIds(rules[1..], keyword);
      if rules[0].keyword != keyword {
        ConsKeepsIds(rules[0], KeepOtherKeywords(rules[1..], keyword), RuleId);
      }
    }
  }

  /** Once a rule is added, a description containing its keyword always gets a rule at least as specific. */
  lemma AddedRuleApplies(rules: seq<CategoryRule>, keyword: string, categoryId: int, text: string)
    requires Contains(Lower(text), Lower(keyword))
    ensures var m := MatchingRule(WithRule(rules, keyword, categoryId), Lower(text));
            m.Some? && |m.value.keyword| >= |keyword|
  {
    var r := WithRule(rules, keyword, categoryId);
    assert r[|r| - 1] in r;
  }

  /**
   * The category lookup `add_rule` makes as written: `get_or_create` with
   * the type fixed to expense.
   */
  function RuleCategoryAsWritten(categories: seq<Category>, name: string): (r: Lookup)
    ensures r.Found? <==> exists c :: c in categories && c.name == name && c.kind == Expense
  {
    CategoryLookup(categories, name, Some(Expense))
  }

  /**
   * As written, naming an income or transfer category in a rule fails: the
   * lookup by name and type misses, and inserting the name again breaks its
   * UNIQUE constraint, so the rule is never stored.
   */
  lemma RuleForNonExpenseCategoryFails(categories: seq<Category>, name: string)
    requires UniqueCategoryNames(categories)
    requires exists c :: c in categories && c.name == name && c.kind != Expense
    ensures RuleCategoryAsWritten(categories, name) == Failed(UniqueViolation)
  {
  }

  /** The same failure on the income category the default data ships with. */
  lemma RuleForSalaryFails()
    ensures RuleCategoryAsWritten([Category(1, "Stipendio", Income)], "Stipendio") == Failed(UniqueViolation)
  {
    RuleForNonExpenseCategoryFails([Category(1, "Stipendio", Income)], "Stipendio");
  }

  /**
   * The lookup `add_rule` evidently intends: the category with that name
   * whatever its type, created as an expense only when the name is new.
   */
  function RuleCategory(categories: seq<Category>, name: string): (r: Lookup)
    ensures r.Found? || r.Created?
    ensures r.Found? <==> exists c :: c in categories && c.name == name
    ensures r.Found? ==> exists c :: c in categories && c.name == name && c.id == r.id
    ensures r.Created? ==> r.row == Category(NextId(categories, CategoryId), name, Expense)
  {
    match CategoryNamed(categories, name)
    case Some(c) => Found(c.id)
    case None => Created(Category(NextId(categories, CategoryId), name, Expense))
  }

  /** The corrected lookup keeps category identifiers and names unique. */
  lemma RuleCategoryKeepsKeys(categories: seq<Category>, name: string)
    requires UniqueIds(categories, CategoryId) && UniqueCategoryNames(categories)
    ensures var after := CategoriesAfter(categories, RuleCategory(categories, name));
            UniqueIds(after, CategoryId) && UniqueCategoryNames(after)
  {
    var l := RuleCategory(categories, name);
    if l.Created? {
      var after := categories + [l.row];
      forall i | 0 <= i < |categories|
        ensures CategoryId(after[i]) != CategoryId(after[|categories|]) && after[i].name != name
      {
        assert after[i] in categories;
      }
    }
  }

  /** The corrected lookup agrees with the written one wherever the written one succeeds. */
  lemma RuleCategoryAgrees(categories: seq<Category>, name: string)
    requires UniqueCategoryNames(categories)
    requires !RuleCategoryAsWritten(categories, name).Failed?
    ensures RuleCategory(categories, name) == RuleCategoryAsWritten(categories, name)
  {
    var w := RuleCategoryAsWritten(categories, name);
    if w.Found? {
      var c :| c in categories && c.name == name && c.id == w.id && c.kind == Expense;
      var d := CategoryNamed(categories, name).value;
      var i :| 0 <= i < |categories| && categories[i] == c;
      var j :| 0 <= j < |categories| && categories[j] == d;
      assert i == j;
    }
  }
}
