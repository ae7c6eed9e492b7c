/** The transaction record shared by the local list view, its filter and its charts. */
module Records {
  import Seqs

  /**
   * The `type` field (named `kind` here, `type` being a Dafny keyword). `Other` stands for any string other than "income" and
   * "expense": records created elsewhere may carry one, and the code then
   * counts them in neither total.
   */
  datatype TxType = Income | Expense | Other(name: string)

  /** A calendar date. The code compares `new Date(...)` values, i.e. chronologically. */
  datatype Date = Date(year: int, month: int, day: int)

  /** Chronological order on valid dates: by year, then month, then day. */
  predicate DateLe(a: Date, b: Date)
  {
    a.year < b.year || (a.year == b.year && (a.month < b.month || (a.month == b.month && a.day <= b.day)))
  }

  lemma DateLeIsTotalPreorder()
    ensures Seqs.TotalPreorder(DateLe)
  {
  }

  lemma DateLeAntisymmetric(a: Date, b: Date)
    requires DateLe(a, b) && DateLe(b, a)
    ensures a == b
  {
  }

  /** One entry of the `transactions` array. `amount` is in minor currency units. */
  datatype Transaction = Transaction(
    id: int,
    kind: TxType,
    amount: int,
    category: string,
    date: Date,
    description: string)

  /**
   * A transaction as scripts/dashboard.js sees it: the JSON of the backend
   * or a draft row of the import preview. The date is the ISO text as
   * received (possibly empty), a missing category or description is the
   * empty string, and `amount` is in minor currency units.
   */
  datatype Item = Item(
    date: string,
    kind: TxType,
    category: string,
    description: string,
    amount: int)
}
