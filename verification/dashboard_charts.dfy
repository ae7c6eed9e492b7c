/**
 * The aggregation inside `refreshCharts` of scripts/dashboard.js: expenses
 * by category with an "Uncategorized" default, and income/expense per
 * `YYYY-MM` month, the months in ascending text order.
 */
module DashboardCharts {
  import opened Wrappers
  import opened Seqs
  import opened Text
  import opened Records
  import opened Tally
  import opened Charts

  const UNCATEGORIZED: string := "Uncategorized"

  /** `x.category || 'Uncategorized'`. */
  function CategoryLabel(x: Item): string
  {
    if x.category == "" then UNCATEGORIZED else x.category
  }

  /** Only expenses are keyed in `catMap`. */
  function ExpenseKey(x: Item): Option<string>
  {
    if x.kind == Expense then Some(CategoryLabel(x)) else None
  }

  function AddItemAmount(x: Item, v: int): int
  {
    v + x.amount
  }

  /** `(x.date || '').slice(0, 7)`: the `YYYY-MM` part of an ISO date. */
  function MonthOf(x: Item): string
  {
    Prefix(x.date, 7)
  }

  /** An empty month key skips the record: `if (!m) return`. */
  function MonthKey(x: Item): Option<string>
  {
    if MonthOf(x) == "" then None else Some(MonthOf(x))
  }

  /** `buckets[m][x.type] += Number(x.amount)`; another type writes a property no series reads. */
  function CreditItem(x: Item, c: Cash): Cash
  {
    match x.kind
    case Income => c.(income := c.income + x.amount)
    case Expense => c.(expense := c.expense + x.amount)
    case Other(_) => c
  }

  function ItemIncome(x: Item): int
  {
    if x.kind == Income then x.amount else 0
  }

  function ItemExpense(x: Item): int
  {
    if x.kind == Expense then x.amount else 0
  }

  /** Reference definitions, record by record. */
  function ExpenseLabelled(k: string): Item -> int
  {
    (x: Item) => if x.kind == Expense && CategoryLabel(x) == k then x.amount else 0
  }

  function IncomeInMonth(m: string): Item -> int
  {
    (x: Item) => if MonthKey(x) == Some(m) && x.kind == Income then x.amount else 0
  }

  function ExpenseInMonth(m: string): Item -> int
  {
    (x: Item) => if MonthKey(x) == Some(m) && x.kind == Expense then x.amount else 0
  }

  /** Income and expense of the records that have a date; undated ones are in no bucket. */
  function DatedIncome(x: Item): int
  {
    if MonthKey(x).Some? then ItemIncome(x) else 0
  }

  function DatedExpense(x: Item): int
  {
    if MonthKey(x).Some? then ItemExpense(x) else 0
  }

  function CategoryMap(items: seq<Item>): Table<string, int>
  {
    Fold(items, ExpenseKey, 0, AddItemAmount)
  }

  function MonthBuckets(items: seq<Item>): Table<string, Cash>
  {
    Fold(items, MonthKey, Cash(0, 0), CreditItem)
  }

  function MonthIncome(buckets: Table<string, Cash>): string -> int
  {
    m => Get(buckets, m, Cash(0, 0)).income
  }

  function MonthExpense(buckets: Table<string, Cash>): string -> int
  {
    m => Get(buckets, m, Cash(0, 0)).expense
  }

  /**
   * The doughnut: one label per distinct category of an expense (an empty
   * one shown as "Uncategorized"), the sum of those expenses, and the
   * values together make up all the expenses.
   */
  method ExpensesByCategory(items: seq<Item>) returns (labels: seq<string>, values: seq<int>)
    ensures |labels| == |values| && Distinct(labels)
    ensures forall k :: k in labels <==> exists x :: x in items && x.kind == Expense && CategoryLabel(x) == k
    ensures "" !in labels
    ensures forall i :: 0 <= i < |labels| ==> values[i] == Sum(Map(items, ExpenseLabelled(labels[i])))
    ensures Sum(values) == Sum(Map(items, ItemExpense))
  {
    var catMap: Table<string, int> := [];
    var i := 0;
    while i < |items|
      invariant 0 <= i <= |items|
      invariant catMap == CategoryMap(items[..i])
    {
      var x := items[i];
      if x.kind == Expense {
        catMap := Upsert(catMap, CategoryLabel(x), 0, AddItemAmount, x);
      }
      assert items[..i + 1][..i] == items[..i];
      i := i + 1;
    }
    assert items[..|items|] == items;
    labels := Keys(catMap);
    values := Values(catMap);

    CategoryLabels(items);
    forall j | 0 <= j < |labels| ensures values[j] == Sum(Map(items, ExpenseLabelled(labels[j]))) {
      GetAt(catMap, j, 0);
      FoldGet(items, ExpenseKey, 0, AddItemAmount, Identity, ItemAmount, labels[j], ExpenseLabelled(labels[j]));
    }
    FoldColumnSum(items, ExpenseKey, 0, AddItemAmount, Identity, ItemAmount, ItemExpense);
    assert Map(values, Identity) == values;
  }

  /** The category table has one distinct key per category label of an expense. */
  lemma CategoryLabels(items: seq<Item>)
    ensures Distinct(Keys(CategoryMap(items)))
    ensures forall k :: k in Keys(CategoryMap(items)) <==> exists x :: x in items && x.kind == Expense && CategoryLabel(x) == k
  {
    FoldKeys(items, ExpenseKey, 0, AddItemAmount);
    forall k ensures k in Keys(CategoryMap(items)) <==> exists x :: x in items && x.kind == Expense && CategoryLabel(x) == k {
      if k in Keys(CategoryMap(items)) {
        var j :| 0 <= j < |items| && ExpenseKey(items[j]) == Some(k);
        assert items[j] in items;
      }
      if exists x :: x in items && x.kind == Expense && CategoryLabel(x) == k {
        var x :| x in items && x.kind == Expense && CategoryLabel(x) == k;
        var j :| 0 <= j < |items| && items[j] == x;
        assert ExpenseKey(items[j]) == Some(k);
      }
    }
  }

  function ItemAmount(x: Item): int
  {
    x.amount
  }

  /** Every non-empty month key of some record has exactly one bucket. */
  lemma MonthBucketKeys(items: seq<Item>)
    ensures Distinct(Keys(MonthBuckets(items)))
    ensures forall m :: m in Keys(MonthBuckets(items)) <==> exists x :: x in items && MonthKey(x) == Some(m)
  {
    FoldKeys(items, MonthKey, Cash(0, 0), CreditItem);
    forall m ensures m in Keys(MonthBuckets(items)) <==> exists x :: x in items && MonthKey(x) == Some(m) {
      if m in Keys(MonthBuckets(items)) {
        var j :| 0 <= j < |items| && MonthKey(items[j]) == Some(m);
        assert items[j] in items;
      }
      if exists x :: x in items && MonthKey(x) == Some(m) {
        var x :| x in items && MonthKey(x) == Some(m);
        var j :| 0 <= j < |items| && items[j] == x;
      }
    }
  }

  /** Listed in any order, the bucket keys are exactly the months of the dated records, each a non-empty key of at most seven characters. */
  lemma MonthsPresent(items: seq<Item>, months: seq<string>)
    requires multiset(months) == multiset(Keys(MonthBuckets(items)))
    ensures forall m :: m in months <==> exists x :: x in items && x.date != "" && MonthOf(x) == m
    ensures forall i :: 0 <= i < |months| ==> 1 <= |months[i]| <= 7
  {
    MonthBucketKeys(items);
    forall m ensures m in months <==> exists x :: x in items && x.date != "" && MonthOf(x) == m {
      assert m in months <==> m in multiset(months);
      if m in months {
        var x :| x in items && MonthKey(x) == Some(m);
        assert x.date != "";
      }
      if exists x :: x in items && x.date != "" && MonthOf(x) == m {
        var x :| x in items && x.date != "" && MonthOf(x) == m;
        assert MonthKey(x) == Some(m);
      }
    }
    forall j | 0 <= j < |months| ensures 1 <= |months[j]| <= 7 {
      assert months[j] in multiset(Keys(MonthBuckets(items)));
      var x :| x in items && MonthKey(x) == Some(months[j]);
    }
  }

  /** A month's bucket holds the income and the expense of that month's records. */
  lemma MonthBucketValue(items: seq<Item>, m: string)
    ensures MonthIncome(MonthBuckets(items))(m) == Sum(Map(items, IncomeInMonth(m)))
    ensures MonthExpense(MonthBuckets(items))(m) == Sum(Map(items, ExpenseInMonth(m)))
  {
    FoldGet(items, MonthKey, Cash(0, 0), CreditItem, CashIncome, ItemIncome, m, IncomeInMonth(m));
    FoldGet(items, MonthKey, Cash(0, 0), CreditItem, CashExpense, ItemExpense, m, ExpenseInMonth(m));
  }

  /** Read off in any order of the months, the buckets add up to the dated income and expense. */
  lemma MonthSeriesSums(items: seq<Item>, months: seq<string>)
    requires multiset(months) == multiset(Keys(MonthBuckets(items)))
    ensures Sum(Map(months, MonthIncome(MonthBuckets(items)))) == Sum(Map(items, DatedIncome))
    ensures Sum(Map(months, MonthExpense(MonthBuckets(items)))) == Sum(Map(items, DatedExpense))
  {
    var buckets := MonthBuckets(items);
    FoldKeys(items, MonthKey, Cash(0, 0), CreditItem);
    ColumnByKeys(buckets, months, Cash(0, 0), CashIncome, MonthIncome(buckets));
    ColumnByKeys(buckets, months, Cash(0, 0), CashExpense, MonthExpense(buckets));
    FoldColumnSum(items, MonthKey, Cash(0, 0), CreditItem, CashIncome, ItemIncome, DatedIncome);
    FoldColumnSum(items, MonthKey, Cash(0, 0), CreditItem, CashExpense, ItemExpense, DatedExpense);
  }

  /**
   * The line chart: the distinct `YYYY-MM` keys of the dated records,
   * sorted as text (`Object.keys(buckets).sort()`), and per month its
   * income and expense.
   */
  method MonthlySeries(items: seq<Item>) returns (months: seq<string>, incomeData: seq<int>, expenseData: seq<int>)
    ensures SortedBy(months, StrLe) && Distinct(months)
    ensures forall m :: m in months <==> exists x :: x in items && x.date != "" && MonthOf(x) == m
    ensures forall i :: 0 <= i < |months| ==> 1 <= |months[i]| <= 7
    ensures |incomeData| == |months| && |expenseData| == |months|
    ensures forall i :: 0 <= i < |months| ==>
              incomeData[i] == Sum(Map(items, IncomeInMonth(months[i])))
              && expenseData[i] == Sum(Map(items, ExpenseInMonth(months[i])))
    ensures Sum(incomeData) == Sum(Map(items, DatedIncome))
    ensures Sum(expenseData) == Sum(Map(items, DatedExpense))
  {
    var buckets: Table<string, Cash> := [];
    var i := 0;
    while i < |items|
      invariant 0 <= i <= |items|
      invariant buckets == MonthBuckets(items[..i])
    {
      var x := items[i];
      var m := MonthOf(x);
      if m != "" {
        buckets := Upsert(buckets, m, Cash(0, 0), CreditItem, x);
      }
      assert items[..i + 1][..i] == items[..i];
      i := i + 1;
    }
    assert items[..|items|] == items;
    months := SortBy(Keys(buckets), StrLe);
    incomeData := Map(months, MonthIncome(buckets));
    expenseData := Map(months, MonthExpense(buckets));

    StrLeIsTotalPreorder();
    SortBySorted(Keys(buckets), StrLe);
    MonthBucketKeys(items);
    DistinctPerm(Keys(buckets), months);
    MonthsPresent(items, months);
    forall j | 0 <= j < |months|
      ensures incomeData[j] == Sum(Map(items, IncomeInMonth(months[j])))
      ensures expenseData[j] == Sum(Map(items, ExpenseInMonth(months[j])))
    {
      MonthBucketValue(items, months[j]);
    }
    MonthSeriesSums(items, months);
  }

  /** Records without a date are left out of the monthly series only; with every record dated, the series sum to all income and expense. */
  lemma AllDatedSeriesSums(items: seq<Item>)
    requires forall i :: 0 <= i < |items| ==> items[i].date != ""
    ensures Map(items, DatedIncome) == Map(items, ItemIncome)
    ensures Map(items, DatedExpense) == Map(items, ItemExpense)
  {
    forall i | 0 <= i < |items|
      ensures Map(items, DatedIncome)[i] == Map(items, ItemIncome)[i]
      ensures Map(items, DatedExpense)[i] == Map(items, ItemExpense)[i]
    {
      var x := items[i];
      assert |MonthOf(x)| >= 1;
      assert MonthOf(x) != "";
      assert DatedIncome(x) == ItemIncome(x) && DatedExpense(x) == ItemExpense(x);
    }
  }
}
