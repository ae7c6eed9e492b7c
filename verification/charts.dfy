/** The data behind the two charts of js/charts.js (`renderCharts`). */
module Charts {
  import opened Wrappers
  import opened Seqs
  import opened Records
  import opened Summary
  import opened Tally

  /** The `{income: 0, expense: 0}` record of one bucket. */
  datatype Cash = Cash(income: int, expense: int)

  function CashIncome(c: Cash): int
  {
    c.income
  }

  function CashExpense(c: Cash): int
  {
    c.expense
  }

  /**
   * `bucket[t.type] += Number(t.amount)`. A record of another type writes to
   * a property the chart never reads, so the income and expense stay.
   */
  function Credit(t: Transaction, c: Cash): Cash
  {
    match t.kind
    case Income => c.(income := c.income + t.amount)
    case Expense => c.(expense := c.expense + t.amount)
    case Other(_) => c
  }

  /** Only expenses are keyed in the category map, by their literal category. */
  function CategoryKey(t: Transaction): Option<string>
  {
    if t.kind == Expense then Some(t.category) else None
  }

  /** `(categories[k] || 0) + Number(t.amount)`. */
  function AddAmount(t: Transaction, v: int): int
  {
    v + t.amount
  }

  /** Every record has a day bucket, whatever its type. */
  function DayKey(t: Transaction): Option<Date>
  {
    Some(t.date)
  }

  function CategoryTotals(txs: seq<Transaction>): Table<string, int>
  {
    Fold(txs, CategoryKey, 0, AddAmount)
  }

  function DailyBuckets(txs: seq<Transaction>): Table<Date, Cash>
  {
    Fold(txs, DayKey, Cash(0, 0), Credit)
  }

  /** Reference definitions: what one record adds to a category or a day. */
  function ExpenseIn(k: string): Transaction -> int
  {
    (t: Transaction) => if t.kind == Expense && t.category == k then t.amount else 0
  }

  function IncomeOn(d: Date): Transaction -> int
  {
    (t: Transaction) => if t.date == d && t.kind == Income then t.amount else 0
  }

  function ExpenseOn(d: Date): Transaction -> int
  {
    (t: Transaction) => if t.date == d && t.kind == Expense then t.amount else 0
  }

  function IncomeSeries(daily: Table<Date, Cash>): Date -> int
  {
    d => Get(daily, d, Cash(0, 0)).income
  }

  function ExpenseSeries(daily: Table<Date, Cash>): Date -> int
  {
    d => Get(daily, d, Cash(0, 0)).expense
  }

  /**
   * The pie chart's labels and values: one label per distinct category of
   * an expense record (case kept, no default label), with the sum of those
   * expenses; the values add up to the total expense.
   */
  method ExpensesByCategory(txs: seq<Transaction>) returns (labels: seq<string>, values: seq<int>)
    ensures |labels| == |values| && Distinct(labels)
    ensures forall k :: k in labels <==> exists t :: t in txs && t.kind == Expense && t.category == k
    ensures forall i :: 0 <= i < |labels| ==> values[i] == Sum(Map(txs, ExpenseIn(labels[i])))
    ensures Sum(values) == TotalExpense(txs)
  {
    var categories: Table<string, int> := [];
    var i := 0;
    while i < |txs|
      invariant 0 <= i <= |txs|
      invariant categories == CategoryTotals(txs[..i])
    {
      var t := txs[i];
      if t.kind == Expense {
        categories := Upsert(categories, t.category, 0, AddAmount, t);
      }
      assert txs[..i + 1][..i] == txs[..i];
      i := i + 1;
    }
    assert txs[..|txs|] == txs;
    labels := Keys(categories);
    values := Values(categories);

    CategoryKeys(txs);
    forall j | 0 <= j < |labels| ensures values[j] == Sum(Map(txs, ExpenseIn(labels[j]))) {
      GetAt(categories, j, 0);
      FoldGet(txs, CategoryKey, 0, AddAmount, Identity, Amount, labels[j], ExpenseIn(labels[j]));
    }
    FoldColumnSum(txs, CategoryKey, 0, AddAmount, Identity, Amount, ExpenseOf);
    assert Map(values, Identity) == values;
    TotalsPerRecord(txs);
  }

  /** The category table has one distinct key per category of an expense. */
  lemma CategoryKeys(txs: seq<Transaction>)
    ensures Distinct(Keys(CategoryTotals(txs)))
    ensures forall k :: k in Keys(CategoryTotals(txs)) <==> exists t :: t in txs && t.kind == Expense && t.category == k
  {
    FoldKeys(txs, CategoryKey, 0, AddAmount);
    forall k ensures k in Keys(CategoryTotals(txs)) <==> exists t :: t in txs && t.kind == Expense && t.category == k {
      if k in Keys(CategoryTotals(txs)) {
        var j :| 0 <= j < |txs| && CategoryKey(txs[j]) == Some(k);
        assert txs[j] in txs;
      }
      if exists t :: t in txs && t.kind == Expense && t.category == k {
        var t :| t in txs && t.kind == Expense && t.category == k;
        var j :| 0 <= j < |txs| && txs[j] == t;
        assert CategoryKey(txs[j]) == Some(k);
      }
    }
  }

  /** Every day on which some record falls has exactly one bucket. */
  lemma DailyBucketKeys(txs: seq<Transaction>)
    ensures Distinct(Keys(DailyBuckets(txs)))
    ensures forall d :: d in Keys(DailyBuckets(txs)) <==> exists t :: t in txs && t.date == d
  {
    FoldKeys(txs, DayKey, Cash(0, 0), Credit);
    forall d ensures d in Keys(DailyBuckets(txs)) <==> exists t :: t in txs && t.date == d {
      if d in Keys(DailyBuckets(txs)) {
        var j :| 0 <= j < |txs| && DayKey(txs[j]) == Some(d);
        assert txs[j] in txs;
      }
      if exists t :: t in txs && t.date == d {
        var t :| t in txs && t.date == d;
        var j :| 0 <= j < |txs| && txs[j] == t;
        assert DayKey(txs[j]) == Some(d);
      }
    }
  }

  /** Listed in any order, the day buckets are exactly the days of the records. */
  lemma DatesPresent(txs: seq<Transaction>, dates: seq<Date>)
    requires multiset(dates) == multiset(Keys(DailyBuckets(txs)))
    ensures forall d :: d in dates <==> exists t :: t in txs && t.date == d
  {
    DailyBucketKeys(txs);
    forall d ensures d in dates <==> d in Keys(DailyBuckets(txs)) {
      assert d in dates <==> d in multiset(dates);
    }
  }

  /** A day's bucket holds the income and the expense of that day's records. */
  lemma DailyBucketValue(txs: seq<Transaction>, d: Date)
    ensures IncomeSeries(DailyBuckets(txs))(d) == Sum(Map(txs, IncomeOn(d)))
    ensures ExpenseSeries(DailyBuckets(txs))(d) == Sum(Map(txs, ExpenseOn(d)))
  {
    FoldGet(txs, DayKey, Cash(0, 0), Credit, CashIncome, IncomeOf, d, IncomeOn(d));
    FoldGet(txs, DayKey, Cash(0, 0), Credit, CashExpense, ExpenseOf, d, ExpenseOn(d));
  }

  /** Read off in any order of its days, the buckets add up to the totals. */
  lemma DailySeriesSums(txs: seq<Transaction>, days: seq<Date>)
    requires multiset(days) == multiset(Keys(DailyBuckets(txs)))
    ensures Sum(Map(days, IncomeSeries(DailyBuckets(txs)))) == TotalIncome(txs)
    ensures Sum(Map(days, ExpenseSeries(DailyBuckets(txs)))) == TotalExpense(txs)
  {
    var daily := DailyBuckets(txs);
    FoldKeys(txs, DayKey, Cash(0, 0), Credit);
    ColumnByKeys(daily, days, Cash(0, 0), CashIncome, IncomeSeries(daily));
    ColumnByKeys(daily, days, Cash(0, 0), CashExpense, ExpenseSeries(daily));
    FoldColumnSum(txs, DayKey, Cash(0, 0), Credit, CashIncome, IncomeOf, IncomeOf);
    FoldColumnSum(txs, DayKey, Cash(0, 0), Credit, CashExpense, ExpenseOf, ExpenseOf);
    TotalsPerRecord(txs);
  }

  /**
   * The line chart: the distinct days of the records in ascending order,
   * and per day the income and the expense of that day; the two series sum
   * to the total income and the total expense.
   */
  method CashflowOverTime(txs: seq<Transaction>) returns (sortedDates: seq<Date>, incomeData: seq<int>, expenseData: seq<int>)
    ensures SortedBy(sortedDates, DateLe) && Distinct(sortedDates)
    ensures forall d :: d in sortedDates <==> exists t :: t in txs && t.date == d
    ensures |incomeData| == |sortedDates| && |expenseData| == |sortedDates|
    ensures forall i :: 0 <= i < |sortedDates| ==>
              incomeData[i] == Sum(Map(txs, IncomeOn(sortedDates[i])))
              && expenseData[i] == Sum(Map(txs, ExpenseOn(sortedDates[i])))
    ensures Sum(incomeData) == TotalIncome(txs) && Sum(expenseData) == TotalExpense(txs)
  {
    var daily: Table<Date, Cash> := [];
    var i := 0;
    while i < |txs|
      invariant 0 <= i <= |txs|
      invariant daily == DailyBuckets(txs[..i])
    {
      var t := txs[i];
      daily := Upsert(daily, t.date, Cash(0, 0), Credit, t);
      assert txs[..i + 1][..i] == txs[..i];
      i := i + 1;
    }
    assert txs[..|txs|] == txs;
    sortedDates := SortBy(Keys(daily), DateLe);
    incomeData := Map(sortedDates, IncomeSeries(daily));
    expenseData := Map(sortedDates, ExpenseSeries(daily));

    DateLeIsTotalPreorder();
    SortBySorted(Keys(daily), DateLe);
    DailyBucketKeys(txs);
    DistinctPerm(Keys(daily), sortedDates);
    DatesPresent(txs, sortedDates);
    forall j | 0 <= j < |sortedDates|
      ensures incomeData[j] == Sum(Map(txs, IncomeOn(sortedDates[j])))
      ensures expenseData[j] == Sum(Map(txs, ExpenseOn(sortedDates[j])))
    {
      DailyBucketValue(txs, sortedDates[j]);
    }
    DailySeriesSums(txs, sortedDates);
  }

  datatype ChartData = ChartData(
    catLabels: seq<string>,
    catValues: seq<int>,
    sortedDates: seq<Date>,
    incomeData: seq<int>,
    expenseData: seq<int>)

  /**
   * What both charts show for `txs`: one pie slice per distinct expense
   * category with that category's expense sum, and one point per distinct
   * day, in date order, with that day's income and expense sums.
   */
  ghost predicate ChartsOf(data: ChartData, txs: seq<Transaction>)
  {
    && |data.catLabels| == |data.catValues| && Distinct(data.catLabels)
    && (forall k :: k in data.catLabels <==> exists t :: t in txs && t.kind == Expense && t.category == k)
    && (forall i :: 0 <= i < |data.catLabels| ==> data.catValues[i] == Sum(Map(txs, ExpenseIn(data.catLabels[i]))))
    && SortedBy(data.sortedDates, DateLe) && Distinct(data.sortedDates)
    && (forall d :: d in data.sortedDates <==> exists t :: t in txs && t.date == d)
    && |data.incomeData| == |data.sortedDates| == |data.expenseData|
    && (forall i :: 0 <= i < |data.sortedDates| ==>
          data.incomeData[i] == Sum(Map(txs, IncomeOn(data.sortedDates[i])))
          && data.expenseData[i] == Sum(Map(txs, ExpenseOn(data.sortedDates[i]))))
  }

  /** `renderCharts(transactions)`: both charts' data; drawing them is left to the chart library. */
  method RenderCharts(txs: seq<Transaction>) returns (data: ChartData)
    ensures ChartsOf(data, txs)
    ensures Sum(data.catValues) == TotalExpense(txs)
    ensures Sum(data.incomeData) == TotalIncome(txs) && Sum(data.expenseData) == TotalExpense(txs)
  {
    var labels, values := ExpensesByCategory(txs);
    var dates, incomeData, expenseData := CashflowOverTime(txs);
    data := ChartData(labels, values, dates, incomeData, expenseData);
  }
}
