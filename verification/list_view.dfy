/**
 * The page state of js/app.js: the global `transactions` array and
 * `currentPage`, the list rendering, its pagination controls and the event
 * handlers that change them. The DOM is replaced by the values a render
 * produces.
 */
module ListView {
  import opened Wrappers
  import opened Seqs
  import opened Records
  import opened Filters
  import opened Summary
  import opened Paging
  import opened Charts

  /** The three filter inputs as `renderList` reads them; an empty date input is `None`. */
  datatype FilterInputs = FilterInputs(kind: TypeFilter, from: Option<Date>, to: Option<Date>)

  function Filtered(list: seq<Transaction>, f: FilterInputs): seq<Transaction>
  {
    FilterTransactions(list, f.kind, f.from, f.to)
  }

  /** One numbered page button. */
  datatype PageButton = PageButton(number: nat, disabled: bool)

  /** "Prev", the numbered buttons and "Next". */
  datatype Controls = Controls(prevDisabled: bool, buttons: seq<PageButton>, nextDisabled: bool)

  /**
   * What the pagination area shows for `page` of `totalPages`: nothing for a
   * single page; otherwise "Prev" disabled on the first page, one button per
   * page with the current one disabled, and "Next" disabled on the last page.
   */
  predicate ShowsPagination(c: Option<Controls>, page: int, totalPages: nat)
  {
    if totalPages <= 1 then c.None?
    else
      && c.Some?
      && c.value.prevDisabled == (page == 1)
      && |c.value.buttons| == totalPages
      && (forall i :: 0 <= i < totalPages ==> c.value.buttons[i] == PageButton(i + 1, i + 1 == page))
      && c.value.nextDisabled == (page == totalPages)
  }

  /**
   * On a page within range, with more than one page, exactly one numbered
   * button is disabled (the current page), and "Prev" and "Next" are never
   * both disabled.
   */
  lemma OneCurrentButton(c: Option<Controls>, page: int, totalPages: nat)
    requires ShowsPagination(c, page, totalPages)
    requires 1 <= page <= totalPages && totalPages > 1
    ensures c.Some? && c.value.buttons[page - 1].disabled
    ensures forall i :: 0 <= i < |c.value.buttons| && i != page - 1 ==> !c.value.buttons[i].disabled
    ensures !(c.value.prevDisabled && c.value.nextDisabled)
  {
  }

  /** Everything one `renderList` call puts on the page. */
  datatype View = View(
    pageItems: seq<Transaction>,
    totalPages: nat,
    controls: Option<Controls>,
    summary: Totals,
    charts: Option<ChartData>)

  /** A submitted form; `amount` is `None` when `Number(...)` gives NaN, `date` when the input is empty. */
  datatype TxForm = TxForm(
    kind: TxType,
    amount: Option<int>,
    category: string,
    date: Option<Date>,
    description: string)

  /** `!amount || !category`: NaN, zero or an empty category is refused. */
  predicate Rejected(form: TxForm)
  {
    form.amount.None? || form.amount.value == 0 || form.category == ""
  }

  /** Ids numbered 1, 2, 3, ... in array order, as `transactions.length + 1` keeps them. */
  predicate SequentialIds(list: seq<Transaction>)
  {
    forall k :: 0 <= k < |list| ==> list[k].id == k + 1
  }

  /** Sequential ids are pairwise distinct. */
  lemma SequentialIdsUnique(list: seq<Transaction>)
    requires SequentialIds(list)
    ensures forall j, k :: 0 <= j < k < |list| ==> list[j].id != list[k].id
  {
  }

  /** Appending the record with the next id keeps the ids sequential. */
  lemma AppendNextId(list: seq<Transaction>, t: Transaction)
    requires SequentialIds(list) && t.id == |list| + 1
    ensures SequentialIds(list + [t])
  {
    forall k | 0 <= k < |list| + 1 ensures (list + [t])[k].id == k + 1 {
      if k < |list| {
        assert (list + [t])[k] == list[k];
      }
    }
  }

  class TransactionList {
    var transactions: seq<Transaction>
    var currentPage: int

    ghost predicate Valid()
      reads this
    {
      currentPage >= 1
    }

    constructor(initial: seq<Transaction>)
      ensures Valid()
      ensures transactions == initial && currentPage == 1
    {
      transactions := initial;
      currentPage := 1;
    }

    /** `renderPagination(totalPages)`: builds the controls for the current page. */
    method RenderPagination(totalPages: nat) returns (controls: Option<Controls>)
      ensures ShowsPagination(controls, currentPage, totalPages)
    {
      if totalPages <= 1 {
        return None;
      }
      var prevDisabled := currentPage == 1;
      var buttons: seq<PageButton> := [];
      var i := 1;
      while i <= totalPages
        invariant 1 <= i <= totalPages + 1
        invariant |buttons| == i - 1
        invariant forall k :: 0 <= k < i - 1 ==> buttons[k] == PageButton(k + 1, k + 1 == currentPage)
      {
        buttons := buttons + [PageButton(i, i == currentPage)];
        i := i + 1;
      }
      var nextDisabled := currentPage == totalPages;
      controls := Some(Controls(prevDisabled, buttons, nextDisabled));
    }

    /**
     * `renderList()`: filters, pulls `currentPage` back to the last page,
     * cuts out that page, draws the controls, and refreshes the summary and
     * (when the chart script is loaded) the charts from ALL records.
     */
    method RenderList(filter: FilterInputs, chartsLoaded: bool) returns (view: View)
      requires Valid()
      modifies this
      ensures Valid() && transactions == old(transactions)
      ensures view.totalPages == TotalPages(|Filtered(transactions, filter)|)
      ensures currentPage == ClampPage(old(currentPage), view.totalPages)
      ensures currentPage <= view.totalPages
      ensures view.pageItems == PageItems(Filtered(transactions, filter), currentPage)
      ensures view.pageItems == [] <==> Filtered(transactions, filter) == []
      ensures ShowsPagination(view.controls, currentPage, view.totalPages)
      ensures view.summary == UpdateSummary(transactions)
      ensures view.charts.Some? <==> chartsLoaded
      ensures view.charts.Some? ==>
                && ChartsOf(view.charts.value, transactions)
                && Sum(view.charts.value.catValues) == view.summary.expense
                && Sum(view.charts.value.incomeData) == view.summary.income
                && Sum(view.charts.value.expenseData) == view.summary.expense
    {
      var filtered := Filtered(transactions, filter);
      var totalPages := TotalPages(|filtered|);
      if currentPage > totalPages {
        currentPage := totalPages;
      }
      var pageItems := PageItems(filtered, currentPage);
      var controls := RenderPagination(totalPages);
      var summary := UpdateSummary(transactions);
      TotalsPerRecord(transactions);
      var charts := None;
      if chartsLoaded {
        var data := RenderCharts(transactions);
        charts := Some(data);
      }
      view := View(pageItems, totalPages, controls, summary, charts);
    }

    /** The "Prev" button; it is disabled, so cannot be clicked, on page 1. */
    method ClickPrev(filter: FilterInputs, chartsLoaded: bool) returns (view: View)
      requires Valid() && currentPage != 1
      modifies this
      ensures Valid() && transactions == old(transactions)
      ensures currentPage == ClampPage(old(currentPage) - 1, view.totalPages)
      ensures view.pageItems == PageItems(Filtered(transactions, filter), currentPage)
    {
      currentPage := currentPage - 1;
      view := RenderList(filter, chartsLoaded);
    }

    /** The "Next" button; it is disabled on the last page the controls were drawn for. */
    method ClickNext(filter: FilterInputs, chartsLoaded: bool) returns (view: View)
      requires Valid()
      modifies this
      ensures Valid() && transactions == old(transactions)
      ensures currentPage == ClampPage(old(currentPage) + 1, view.totalPages)
      ensures old(currentPage) < view.totalPages ==> currentPage == old(currentPage) + 1
      ensures view.pageItems == PageItems(Filtered(transactions, filter), currentPage)
    {
      currentPage := currentPage + 1;
      view := RenderList(filter, chartsLoaded);
    }

    /** Numbered button `i` (1-based) of the controls. */
    method ClickPage(i: nat, filter: FilterInputs, chartsLoaded: bool) returns (view: View)
      requires Valid() && 1 <= i
      modifies this
      ensures Valid() && transactions == old(transactions)
      ensures currentPage == ClampPage(i, view.totalPages)
      ensures i <= view.totalPages ==> currentPage == i
      ensures view.pageItems == PageItems(Filtered(transactions, filter), currentPage)
    {
      currentPage := i;
      view := RenderList(filter, chartsLoaded);
    }

    /** "Apply" and a change of the type select: back to the first page, then render. */
    method ApplyFilter(filter: FilterInputs, chartsLoaded: bool) returns (view: View)
      requires Valid()
      modifies this
      ensures Valid() && transactions == old(transactions)
      ensures currentPage == 1
      ensures view.pageItems == PageItems(Filtered(transactions, filter), 1)
      ensures |view.pageItems| == if |Filtered(transactions, filter)| < PAGE_SIZE then |Filtered(transactions, filter)| else PAGE_SIZE
    {
      currentPage := 1;
      view := RenderList(filter, chartsLoaded);
    }

    /**
     * The form's submit handler: a refused form changes nothing and renders
     * nothing; an accepted one appends a record with id `length + 1` and the
     * given date or `today`, then renders. The page is not reset.
     */
    method SubmitTransaction(form: TxForm, today: Date, filter: FilterInputs, chartsLoaded: bool)
      returns (view: Option<View>)
      requires Valid()
      modifies this
      ensures Valid()
      ensures view.None? <==> Rejected(form)
      ensures Rejected(form) ==> transactions == old(transactions) && currentPage == old(currentPage)
      ensures !Rejected(form) ==>
                transactions == old(transactions) + [Transaction(|old(transactions)| + 1, form.kind,
                  form.amount.value, form.category, form.date.GetOr(today), form.description)]
      ensures SequentialIds(old(transactions)) ==> SequentialIds(transactions)
      ensures !Rejected(form) ==>
                && view.value.totalPages == TotalPages(|Filtered(transactions, filter)|)
                && currentPage == ClampPage(old(currentPage), view.value.totalPages)
                && view.value.pageItems == PageItems(Filtered(transactions, filter), currentPage)
                && view.value.summary == UpdateSummary(transactions)
      ensures !Rejected(form) ==>
                UpdateSummary(transactions).balance == UpdateSummary(old(transactions)).balance
                  + (match form.kind
                     case Income => form.amount.value
                     case Expense => -form.amount.value
                     case Other(_) => 0)
    {
      if Rejected(form) {
        return None;
      }
      var t := Transaction(|transactions| + 1, form.kind, form.amount.value, form.category,
                           form.date.GetOr(today), form.description);
      AppendMovesBalance(transactions, t);
      if SequentialIds(transactions) {
        AppendNextId(transactions, t);
      }
      transactions := transactions + [t];
      var v := RenderList(filter, chartsLoaded);
      view := Some(v);
    }
  }
}
