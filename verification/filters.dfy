/** `filterTransactions` of js/filters.js. */
module Filters {
  import opened Wrappers
  import opened Seqs
  import opened Records

  /** The type select: "all" or one record type. */
  datatype TypeFilter = AllTypes | OnlyType(t: TxType)

  /**
   * The predicate handed to `list.filter`. An absent bound (`null` or the
   * empty string of a cleared date input) imposes nothing; both bounds are
   * inclusive.
   */
  predicate Matches(t: Transaction, kind: TypeFilter, from: Option<Date>, to: Option<Date>)
  {
    && (kind.AllTypes? || t.kind == kind.t)
    && (from.None? || DateLe(from.value, t.date))
    && (to.None? || DateLe(t.date, to.value))
  }

  function Keeper(kind: TypeFilter, from: Option<Date>, to: Option<Date>): Transaction -> bool
  {
    t => Matches(t, kind, from, to)
  }

  /**
   * The records of `list` that match, in their original order. The input is
   * a value, so it cannot be changed by the call.
   */
  function FilterTransactions(list: seq<Transaction>, kind: TypeFilter, from: Option<Date>, to: Option<Date>)
    : (r: seq<Transaction>)
    ensures IsSubseq(r, list)
    ensures forall t :: t in r ==> Matches(t, kind, from, to)
    ensures kind.OnlyType? ==> forall t :: t in r ==> t.kind == kind.t
    ensures from.Some? ==> forall t :: t in r ==> DateLe(from.value, t.date)
    ensures to.Some? ==> forall t :: t in r ==> DateLe(t.date, to.value)
    ensures forall t :: t in list && Matches(t, kind, from, to) ==> t in r
    ensures forall t :: multiset(r)[t] == if Matches(t, kind, from, to) then multiset(list)[t] else 0
  {
    SelectIsSubseq(list, Keeper(kind, from, to));
    SelectCount(list, Keeper(kind, from, to));
    assert forall t :: t in list ==> multiset(list)[t] > 0;
    Select(list, Keeper(kind, from, to))
  }

  /** With type "all" and no bounds every record is kept. */
  lemma FilterAllIsIdentity(list: seq<Transaction>)
    ensures FilterTransactions(list, AllTypes, None, None) == list
  {
    SelectAll(list, Keeper(AllTypes, None, None));
  }

  /** Filtering a filtered list again with the same arguments changes nothing. */
  lemma FilterIdempotent(list: seq<Transaction>, kind: TypeFilter, from: Option<Date>, to: Option<Date>)
    ensures var once := FilterTransactions(list, kind, from, to);
            FilterTransactions(once, kind, from, to) == once
  {
    var once := FilterTransactions(list, kind, from, to);
    SelectAll(once, Keeper(kind, from, to));
  }

  /** Filtering distributes over concatenation of record lists. */
  lemma FilterAppend(a: seq<Transaction>, b: seq<Transaction>, kind: TypeFilter, from: Option<Date>, to: Option<Date>)
    ensures FilterTransactions(a + b, kind, from, to)
         == FilterTransactions(a, kind, from, to) + FilterTransactions(b, kind, from, to)
  {
    SelectAppend(a, b, Keeper(kind, from, to));
  }
}
