/**
 * `window.state` of scripts/dashboard.js and the handlers that change it:
 * the filter inputs, the server-side page cursor and its controls, and the
 * import preview's draft rows. Requests to the backend are represented by
 * the entries of their query string and by the rows they carry.
 */
module DashboardState {
  import opened Wrappers
  import opened Seqs
  import opened Text
  import opened Records
  import opened DashboardHelpers
  import opened Preview

  /** `state.pageSize`. */
  const LIST_PAGE_SIZE: int := 20

  /** `maxButtons` of `renderPagination`. */
  const MAX_BUTTONS: int := 7

  /** `state.filters`. */
  datatype FilterText = FilterText(q: string, start: string, end: string, category: string)

  /** The filter entries in the order `loadTransactions` lists them. */
  function FilterEntries(f: FilterText): seq<(string, string)>
  {
    [("q", f.q), ("start", f.start), ("end", f.end), ("category", f.category)]
  }

  /** The four filter inputs. */
  datatype FilterField = Search | StartDate | EndDate | CategorySelect

  /** The filters after one input changed; the search text is trimmed (`.value.trim()`), the others are not. */
  function WithField(f: FilterText, field: FilterField, value: string): FilterText
  {
    match field
    case Search => f.(q := Trim(value))
    case StartDate => f.(start := value)
    case EndDate => f.(end := value)
    case CategorySelect => f.(category := value)
  }

  /** `Math.max(1, state.page - 3)`. */
  function WindowStart(page: int): int
  {
    if page - 3 > 1 then page - 3 else 1
  }

  /** `Math.min(state.pages, start + maxButtons - 1)`. */
  function WindowEnd(page: int, pages: int): int
  {
    var e := WindowStart(page) + MAX_BUTTONS - 1;
    if pages < e then pages else e
  }

  /**
   * The window holds at most seven pages, all within `1..pages`, and the
   * current page when it is in range; away from the last three pages it is
   * a full seven.
   */
  lemma WindowBounds(page: int, pages: int)
    ensures WindowEnd(page, pages) - WindowStart(page) + 1 <= MAX_BUTTONS
    ensures WindowStart(page) >= 1 && WindowEnd(page, pages) <= pages
    ensures 1 <= page <= pages ==> WindowStart(page) <= page <= WindowEnd(page, pages)
    ensures 1 <= page <= pages - 3 && pages >= MAX_BUTTONS ==> WindowEnd(page, pages) - WindowStart(page) + 1 == MAX_BUTTONS
  {
  }

  /** One numbered button; `active` is the `page-btn active` class. */
  datatype PageButton = PageButton(page: int, active: bool)

  /** What `renderPagination` shows: "Page x of y", the two arrows and the numbered window. */
  datatype Pager = Pager(current: int, shownPages: int, prevDisabled: bool, nextDisabled: bool, buttons: seq<PageButton>)

  /** How `commitPreview` ends. */
  datatype CommitOutcome = NothingToImport | Imported(count: nat) | NetworkError

  class Dashboard {
    var page: int
    var pages: int
    var total: int
    var filters: FilterText
    var previewItems: seq<Item>
    /** The figure last written into the preview total; only a full redraw of the table updates it. */
    var shownTotal: int

    ghost predicate Valid()
      reads this
    {
      page >= 1
    }

    constructor()
      ensures Valid()
      ensures page == 1 && pages == 1 && total == 0
      ensures filters == FilterText("", "", "", "") && previewItems == [] && shownTotal == 0
    {
      page := 1;
      pages := 1;
      total := 0;
      filters := FilterText("", "", "", "");
      previewItems := [];
      shownTotal := 0;
    }

    /** The query entries of the list request of `loadTransactions`. */
    function ListQuery(): seq<(string, Param)>
      reads this
    {
      QsEntries(ListParams(page, LIST_PAGE_SIZE, FilterEntries(filters)))
    }

    /** The list request always names the page and size, then exactly the non-empty filters. */
    lemma ListQueryShape()
      ensures ListQuery() == [("page", Num(page)), ("page_size", Num(LIST_PAGE_SIZE))] + NonEmptyEntries(FilterEntries(filters))
      ensures filters == FilterText("", "", "", "") ==> ListQuery() == [("page", Num(page)), ("page_size", Num(LIST_PAGE_SIZE))]
    {
      ListParamsQuery(page, LIST_PAGE_SIZE, FilterEntries(filters));
      var fs := FilterEntries(filters);
      if filters == FilterText("", "", "", "") {
        assert fs[1..][1..][1..][1..] == [];
      }
    }

    /**
     * A filter input changed: the search text is trimmed, the others are
     * taken as they are, and the list goes back to page 1.
     */
    method SetFilter(field: FilterField, value: string)
      requires Valid()
      modifies this
      ensures Valid() && page == 1
      ensures filters == WithField(old(filters), field, value)
      ensures pages == old(pages) && total == old(total)
      ensures previewItems == old(previewItems) && shownTotal == old(shownTotal)
    {
      var updated := WithField(filters, field, value);
      filters := updated;
      page := 1;
    }

    /** `state.pages = data.pages || 1; state.total = data.total || 0` for a successful response. */
    method ApplyListResponse(respPages: Option<int>, respTotal: Option<int>)
      requires Valid()
      modifies this
      ensures Valid() && page == old(page) && filters == old(filters)
      ensures pages == if respPages.None? || respPages.value == 0 then 1 else respPages.value
      ensures total == respTotal.GetOr(0)
      ensures pages != 0
      ensures previewItems == old(previewItems) && shownTotal == old(shownTotal)
    {
      pages := if respPages.None? || respPages.value == 0 then 1 else respPages.value;
      total := respTotal.GetOr(0);
    }

    /**
     * `renderPagination()`: the arrows are disabled at the ends, and the
     * buttons run over the window, the current page marked.
     */
    method RenderPagination() returns (pager: Pager)
      ensures pager.current == page
      ensures pager.shownPages == if pages == 0 then 1 else pages
      ensures pager.prevDisabled <==> page <= 1
      ensures pager.nextDisabled <==> page >= pages
      ensures var start := WindowStart(page);
              && |pager.buttons| == (if WindowEnd(page, pages) < start then 0 else WindowEnd(page, pages) - start + 1)
              && forall k :: 0 <= k < |pager.buttons| ==> pager.buttons[k] == PageButton(start + k, start + k == page)
      ensures |pager.buttons| <= MAX_BUTTONS
      ensures forall k :: 0 <= k < |pager.buttons| ==> 1 <= pager.buttons[k].page <= pages
      ensures 1 <= page <= pages ==> exists k :: 0 <= k < |pager.buttons| && pager.buttons[k].active
    {
      var start := WindowStart(page);
      var end := WindowEnd(page, pages);
      WindowBounds(page, pages);
      var buttons: seq<PageButton> := [];
      var p := start;
      while p <= end
        invariant start <= p && (p <= end + 1 || end < start)
        invariant end < start ==> p == start
        invariant |buttons| == p - start
        invariant forall k :: 0 <= k < |buttons| ==> buttons[k] == PageButton(start + k, start + k == page)
      {
        buttons := buttons + [PageButton(p, p == page)];
        p := p + 1;
      }
      pager := Pager(page, if pages == 0 then 1 else pages, page <= 1, page >= pages, buttons);
      if 1 <= page <= pages {
        assert buttons[page - start].active;
      }
    }

    /** The "Prev" arrow: steps back unless on the first page. */
    method ClickPrev()
      requires Valid()
      modifies this
      ensures Valid()
      ensures page == if old(page) > 1 then old(page) - 1 else old(page)
      ensures 1 <= old(page) <= pages ==> 1 <= page <= pages
      ensures pages == old(pages) && filters == old(filters) && previewItems == old(previewItems)
      ensures total == old(total) && shownTotal == old(shownTotal)
    {
      if page > 1 {
        page := page - 1;
      }
    }

    /** The "Next" arrow: steps forward unless on the last page. */
    method ClickNext()
      requires Valid()
      modifies this
      ensures Valid()
      ensures page == if old(page) < pages then old(page) + 1 else old(page)
      ensures 1 <= old(page) <= pages ==> 1 <= page <= pages
      ensures pages == old(pages) && filters == old(filters) && previewItems == old(previewItems)
      ensures total == old(total) && shownTotal == old(shownTotal)
    {
      if page < pages {
        page := page + 1;
      }
    }

    /**
     * A numbered button of the pager on screen. The pager is redrawn only
     * after a successful load, so the button may belong to a window drawn
     * around an earlier page; its number is still within `1..pages`.
     */
    method ClickPageButton(p: int)
      requires Valid() && 1 <= p <= pages
      modifies this
      ensures Valid() && page == p && 1 <= page <= pages
      ensures pages == old(pages) && filters == old(filters) && previewItems == old(previewItems)
      ensures total == old(total) && shownTotal == old(shownTotal)
    {
      page := p;
    }

    /**
     * A parsed receipt: the rows that are present are normalised and become
     * the drafts, and the table (with its total) is drawn. With no rows the
     * preview does not open and nothing changes.
     */
    method OpenPreview(parsed: seq<Option<RawItem>>, today: string) returns (shown: bool)
      requires Valid()
      modifies this
      ensures Valid() && page == old(page) && pages == old(pages) && filters == old(filters) && total == old(total)
      ensures shown <==> exists k :: 0 <= k < |parsed| && parsed[k].Some?
      ensures !shown ==> previewItems == old(previewItems) && shownTotal == old(shownTotal)
      ensures shown ==> previewItems == Map(PresentRows(parsed), NormalizeFor(today))
                         && (forall x :: x in previewItems ==> x.kind == Income || x.kind == Expense)
                         && shownTotal == PreviewTotal(previewItems)
    {
      var rows: seq<RawItem> := [];
      var i := 0;
      while i < |parsed|
        invariant 0 <= i <= |parsed|
        invariant rows == PresentRows(parsed[..i])
      {
        assert parsed[..i + 1][..i] == parsed[..i];
        if parsed[i].Some? {
          rows := rows + [parsed[i].value];
        }
        i := i + 1;
      }
      assert parsed[..i] == parsed;
      if rows == [] {
        return false;
      }
      previewItems := Map(rows, NormalizeFor(today));
      shownTotal := PreviewTotal(previewItems);
      shown := true;
    }

    /** Typing into a draft cell: one field of row `i` changes; the total shown is not redrawn. */
    method EditPreview(i: nat, e: Edit)
      requires Valid() && i < |previewItems|
      modifies this
      ensures Valid()
      ensures previewItems == old(previewItems)[i := ApplyEdit(old(previewItems)[i], e)]
      ensures shownTotal == old(shownTotal)
      ensures PreviewTotal(previewItems) == PreviewTotal(old(previewItems)) - Signed(old(previewItems)[i]) + Signed(previewItems[i])
      ensures page == old(page) && pages == old(pages) && filters == old(filters) && total == old(total)
    {
      ReplaceTotal(previewItems, i, ApplyEdit(previewItems[i], e));
      previewItems := previewItems[i := ApplyEdit(previewItems[i], e)];
    }

    /** The delete button of row `i`: the row is spliced out and the table, total included, redrawn. */
    method DeletePreview(i: nat)
      requires Valid() && i < |previewItems|
      modifies this
      ensures Valid()
      ensures previewItems == Remove(old(previewItems), i)
      ensures shownTotal == PreviewTotal(previewItems) == PreviewTotal(old(previewItems)) - Signed(old(previewItems)[i])
      ensures page == old(page) && pages == old(pages) && filters == old(filters) && total == old(total)
    {
      RemoveTotal(previewItems, i);
      previewItems := Remove(previewItems, i);
      shownTotal := PreviewTotal(previewItems);
    }

    /**
     * `commitPreview()`: posts the selected rows one request at a time, in
     * order. `failAt` is the index of the request whose `fetch` rejects, if
     * any; that request and the ones before it are the ones attempted. Only
     * a complete run resets the page. The drafts themselves stay.
     */
    method CommitPreview(today: string, failAt: Option<nat>) returns (attempted: seq<Item>, outcome: CommitOutcome)
      requires Valid()
      modifies this
      ensures Valid()
      ensures outcome == NothingToImport <==> CommitSelection(old(previewItems), today) == []
      ensures outcome == NothingToImport ==> attempted == []
      ensures outcome.Imported? <==>
                CommitSelection(old(previewItems), today) != []
                && (failAt.None? || failAt.value >= |CommitSelection(old(previewItems), today)|)
      ensures outcome.Imported? ==>
                attempted == CommitSelection(old(previewItems), today) && outcome.count == |attempted| && page == 1
      ensures outcome == NetworkError ==>
                failAt.Some? && failAt.value < |CommitSelection(old(previewItems), today)|
                && attempted == CommitSelection(old(previewItems), today)[..failAt.value + 1] && page == old(page)
      ensures forall x :: x in attempted ==> x.amount > 0
      ensures previewItems == old(previewItems) && pages == old(pages) && filters == old(filters)
      ensures total == old(total) && shownTotal == old(shownTotal)
    {
      var items := CommitSelection(previewItems, today);
      if items == [] {
        return [], NothingToImport;
      }
      var failed;
      attempted, failed := PostInOrder(items, failAt);
      if failed {
        return attempted, NetworkError;
      }
      page := 1;
      outcome := Imported(|items|);
    }

    /**
     * The `for (const it of items) await fetch(...)` loop: one request per
     * row, in order, stopping at the first one whose `fetch` rejects.
     */
    method PostInOrder(items: seq<Item>, failAt: Option<nat>) returns (attempted: seq<Item>, failed: bool)
      ensures failed <==> failAt.Some? && failAt.value < |items|
      ensures !failed ==> attempted == items
      ensures failed ==> attempted == items[..failAt.value + 1]
    {
      attempted := [];
      var i := 0;
      while i < |items|
        invariant 0 <= i <= |items|
        invariant attempted == items[..i]
        invariant failAt.None? || failAt.value >= i
      {
        attempted := attempted + [items[i]];
        if failAt == Some(i) {
          return attempted, true;
        }
        i := i + 1;
      }
      assert items[..|items|] == items;
      failed := false;
    }
  }
}
