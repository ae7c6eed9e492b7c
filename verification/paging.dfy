/** The page arithmetic of `renderList` in js/app.js (local, fixed-size pages). */
module Paging {

  /** `PAGE_SIZE` of js/app.js. */
  const PAGE_SIZE: nat := 5

  /** `Math.ceil(n / d)` for a natural `n` and a positive `d`. */
  function CeilDiv(n: nat, d: nat): nat
    requires d > 0
  {
    (n + d - 1) / d
  }

  /** `Math.max(1, Math.ceil(total / PAGE_SIZE))`: the fewest pages that hold `n` records, but at least one. */
  function TotalPages(n: nat): (r: nat)
    ensures r >= 1
    ensures n <= r * PAGE_SIZE
    ensures n > 0 ==> (r - 1) * PAGE_SIZE < n
    ensures n == 0 ==> r == 1
  {
    var c := CeilDiv(n, PAGE_SIZE);
    if c < 1 then 1 else c
  }

  /** `if (currentPage > totalPages) currentPage = totalPages;` */
  function ClampPage(page: int, totalPages: nat): (r: int)
    ensures r <= totalPages
    ensures page <= totalPages ==> r == page
    ensures page >= 1 && totalPages >= 1 ==> r >= 1
  {
    if page > totalPages then totalPages else page
  }

  /** `s.slice(start, end)` for non-negative bounds: both are cut down to the length. */
  function JsSlice<T>(s: seq<T>, start: nat, end: nat): seq<T>
  {
    var lo := if start <= |s| then start else |s|;
    var hi := if end <= |s| then end else |s|;
    if hi <= lo then [] else s[lo..hi]
  }

  /** `filtered.slice(start, start + PAGE_SIZE)` with `start = (page - 1) * PAGE_SIZE`. */
  function PageItems<T>(list: seq<T>, page: int): (r: seq<T>)
    requires page >= 1
    ensures |r| <= PAGE_SIZE
    ensures forall k :: 0 <= k < |r| ==> (page - 1) * PAGE_SIZE + k < |list| && r[k] == list[(page - 1) * PAGE_SIZE + k]
    ensures |r| == PAGE_SIZE || (page - 1) * PAGE_SIZE + |r| >= |list|
    ensures list != [] && page <= TotalPages(|list|) ==> r != []
  {
    var start := (page - 1) * PAGE_SIZE;
    JsSlice(list, start, start + PAGE_SIZE)
  }

  /** After clamping, a page request beyond the end yields the last page, never an empty overrun. */
  lemma ClampedPageIsLast<T>(list: seq<T>, page: int)
    requires page > TotalPages(|list|)
    ensures ClampPage(page, TotalPages(|list|)) == TotalPages(|list|)
    ensures list != [] ==> PageItems(list, ClampPage(page, TotalPages(|list|))) != []
  {
  }

  /** The pages from `p` on, concatenated. */
  function PagesFrom<T>(list: seq<T>, p: nat): seq<T>
    requires p >= 1
    decreases TotalPages(|list|) + 1 - p
  {
    if p > TotalPages(|list|) then [] else PageItems(list, p) + PagesFrom(list, p + 1)
  }

  lemma {:induction false} PagesFromIsSuffix<T>(list: seq<T>, p: nat)
    requires 1 <= p <= TotalPages(|list|) + 1
    ensures (p - 1) * PAGE_SIZE <= |list| || p == TotalPages(|list|) + 1
    ensures PagesFrom(list, p) == if (p - 1) * PAGE_SIZE <= |list| then list[(p - 1) * PAGE_SIZE..] else []
    decreases TotalPages(|list|) + 1 - p
  {
    if p <= TotalPages(|list|) {
      PagesFromIsSuffix(list, p + 1);
      var start := (p - 1) * PAGE_SIZE;
      var page := PageItems(list, p);
      assert start <= |list|;
      assert page == list[start..start + |page|];
      if start + PAGE_SIZE <= |list| {
        assert list[start..] == list[start..start + PAGE_SIZE] + list[start + PAGE_SIZE..];
      } else {
        assert p == TotalPages(|list|);
      }
    }
  }

  /** The pages 1..totalPages, in order, are exactly the list: every record is on one page. */
  lemma PagesPartitionList<T>(list: seq<T>)
    ensures PagesFrom(list, 1) == list
  {
    PagesFromIsSuffix(list, 1);
  }

  /** Twelve records, five per page: page 1 holds records 1-5 and page 100 clamps to page 3, records 11-12. */
  lemma TwelveRecordsExample<T>(list: seq<T>)
    requires |list| == 12
    ensures TotalPages(12) == 3
    ensures PageItems(list, 1) == list[..5]
    ensures ClampPage(100, 3) == 3 && PageItems(list, 3) == list[10..]
  {
  }
}
