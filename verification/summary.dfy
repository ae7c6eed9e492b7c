/** `updateSummary` of js/app.js: the income, expense and balance cards. */
module Summary {
  import opened Wrappers
  import opened Seqs
  import opened Records
  import opened Filters

  function Amount(t: Transaction): int
  {
    t.amount
  }

  /** What a record adds to the income total (reference definition, record by record). */
  function IncomeOf(t: Transaction): int
  {
    if t.kind == Income then t.amount else 0
  }

  /** What a record adds to the expense total (reference definition, record by record). */
  function ExpenseOf(t: Transaction): int
  {
    if t.kind == Expense then t.amount else 0
  }

  /** `list.filter(t => t.kind === "income").reduce((sum, t) => sum + Number(t.amount), 0)`. */
  function TotalIncome(list: seq<Transaction>): int
  {
    Sum(Map(FilterTransactions(list, OnlyType(Income), None, None), Amount))
  }

  /** `list.filter(t => t.kind === "expense").reduce((sum, t) => sum + Number(t.amount), 0)`. */
  function TotalExpense(list: seq<Transaction>): int
  {
    Sum(Map(FilterTransactions(list, OnlyType(Expense), None, None), Amount))
  }

  datatype Totals = Totals(income: int, expense: int, balance: int)

  /** The three numbers the summary cards display. */
  function UpdateSummary(list: seq<Transaction>): (r: Totals)
    ensures r.income == Sum(Map(list, IncomeOf))
    ensures r.expense == Sum(Map(list, ExpenseOf))
    ensures r.balance == r.income - r.expense
  {
    TotalsPerRecord(list);
    var income := TotalIncome(list);
    var expense := TotalExpense(list);
    Totals(income, expense, income - expense)
  }

  /** The filter-then-reduce totals equal the record-by-record sums. */
  lemma TotalsPerRecord(list: seq<Transaction>)
    ensures TotalIncome(list) == Sum(Map(list, IncomeOf))
    ensures TotalExpense(list) == Sum(Map(list, ExpenseOf))
  {
    SumSelected(list, Keeper(OnlyType(Income), None, None), Amount, IncomeOf);
    SumSelected(list, Keeper(OnlyType(Expense), None, None), Amount, ExpenseOf);
  }

  /** The totals of a concatenation are the sums of the totals. */
  lemma TotalsAppend(a: seq<Transaction>, b: seq<Transaction>)
    ensures TotalIncome(a + b) == TotalIncome(a) + TotalIncome(b)
    ensures TotalExpense(a + b) == TotalExpense(a) + TotalExpense(b)
    ensures UpdateSummary(a + b).balance == UpdateSummary(a).balance + UpdateSummary(b).balance
  {
    TotalsPerRecord(a);
    TotalsPerRecord(b);
    TotalsPerRecord(a + b);
    MapAppend(a, b, IncomeOf);
    MapAppend(a, b, ExpenseOf);
    SumAppend(Map(a, IncomeOf), Map(b, IncomeOf));
    SumAppend(Map(a, ExpenseOf), Map(b, ExpenseOf));
  }

  /** Appending one record adds exactly its own contribution to each total. */
  lemma AppendOne(list: seq<Transaction>, t: Transaction)
    ensures TotalIncome(list + [t]) == TotalIncome(list) + IncomeOf(t)
    ensures TotalExpense(list + [t]) == TotalExpense(list) + ExpenseOf(t)
  {
    TotalsPerRecord(list);
    TotalsPerRecord(list + [t]);
    MapAppend(list, [t], IncomeOf);
    MapAppend(list, [t], ExpenseOf);
    assert Map([t], IncomeOf) == [IncomeOf(t)];
    assert Map([t], ExpenseOf) == [ExpenseOf(t)];
    SumAppend(Map(list, IncomeOf), [IncomeOf(t)]);
    SumAppend(Map(list, ExpenseOf), [ExpenseOf(t)]);
  }

  /** Appending one record moves the balance by its amount: up for income, down for expense, not at all otherwise. */
  lemma AppendMovesBalance(list: seq<Transaction>, t: Transaction)
    ensures UpdateSummary(list + [t]).balance == UpdateSummary(list).balance
              + (match t.kind
                 case Income => t.amount
                 case Expense => -t.amount
                 case Other(_) => 0)
  {
    AppendOne(list, t);
  }

  /** A record of any other type moves neither total. */
  lemma OtherCountsNeither(list: seq<Transaction>, t: Transaction)
    requires t.kind.Other?
    ensures TotalIncome(list + [t]) == TotalIncome(list)
    ensures TotalExpense(list + [t]) == TotalExpense(list)
  {
    AppendOne(list, t);
  }

  /** With non-negative amounts both totals are non-negative. */
  lemma TotalsNonNegative(list: seq<Transaction>)
    requires forall k :: 0 <= k < |list| ==> list[k].amount >= 0
    ensures TotalIncome(list) >= 0 && TotalExpense(list) >= 0
  {
    TotalsPerRecord(list);
    forall k | 0 <= k < |list| ensures Map(list, IncomeOf)[k] >= 0 && Map(list, ExpenseOf)[k] >= 0 {
      assert list[k].amount >= 0;
      assert Map(list, IncomeOf)[k] == IncomeOf(list[k]);
      assert Map(list, ExpenseOf)[k] == ExpenseOf(list[k]);
    }
    SumNonNegative(Map(list, IncomeOf));
    SumNonNegative(Map(list, ExpenseOf));
  }
}
