/** The accumulated list of loaded performances: how a fetched page is merged into
    it and how the "more pages" flag is recomputed from the page metadata
    (components/AfishaCalendar.tsx:47-64). */
module Accumulator {
  import opened Listing
  import opened Query

  /** One page as the server returns it: its items and `meta.pagination`. */
  datatype PageResponse = PageResponse(items: seq<Performance>, page: int, pageSize: int, total: int)

  /** What the fetch of one page produced:
      - `Fetched`: a page with its items and its pagination metadata;
      - `FetchedWithoutMeta`: items whose response lacks `meta.pagination`, so the
        read of the total throws after the items were already merged;
      - `Failed`: an exception before any item is seen (transport failure, or a
        response without `data`), which the controller logs and otherwise ignores. */
  datatype Outcome =
    | Fetched(response: PageResponse)
    | FetchedWithoutMeta(items: seq<Performance>)
    | Failed

  /** The list after merging a page: in reset mode exactly the page's items, in
      append mode the old list, untouched and in order, followed by the page's items. */
  function Merge(prev: seq<Performance>, items: seq<Performance>, reset: bool): (r: seq<Performance>)
    ensures reset ==> r == items
    ensures !reset ==> |r| == |prev| + |items| && r[..|prev|] == prev && r[|prev|..] == items
  {
    if reset then items else prev + items
  }

  /** Whether pages remain after page `page`: the pages seen so far hold fewer
      items than the server's total. */
  function HasMore(page: int, pageSize: int, total: int): bool {
    page * pageSize < total
  }

  /** Total 25 at ten per page: pages 1, 2 and 3 report true, true, false, and the
      three pages (10, 10 and 5 items) accumulate all 25 items. */
  lemma TwentyFiveItems(p1: seq<Performance>, p2: seq<Performance>, p3: seq<Performance>)
    requires |p1| == 10 && |p2| == 10 && |p3| == 5
    ensures HasMore(1, PageSize, 25) && HasMore(2, PageSize, 25) && !HasMore(3, PageSize, 25)
    ensures |Merge(Merge(Merge([], p1, true), p2, false), p3, false)| == 25
  {
  }

  /** The items of a list of pages, in page order and item order within a page. */
  function Concat(pages: seq<seq<Performance>>): seq<Performance>
  {
    if pages == [] then [] else pages[0] + Concat(pages[1..])
  }

  function TotalSize(pages: seq<seq<Performance>>): nat
  {
    if pages == [] then 0 else |pages[0]| + TotalSize(pages[1..])
  }

  /** Appending the pages one after another, as the visibility trigger does. */
  function AppendAll(prev: seq<Performance>, pages: seq<seq<Performance>>): seq<Performance>
    decreases |pages|
  {
    if pages == [] then prev else AppendAll(Merge(prev, pages[0], false), pages[1..])
  }

  /** After any sequence of appends the list is the old list followed by every
      page's items in page order, and its length grows by the sum of the page sizes. */
  lemma {:induction false} AppendAllIsConcat(prev: seq<Performance>, pages: seq<seq<Performance>>)
    ensures AppendAll(prev, pages) == prev + Concat(pages)
    ensures |AppendAll(prev, pages)| == |prev| + TotalSize(pages)
    decreases |pages|
  {
    if pages != [] {
      AppendAllIsConcat(prev + pages[0], pages[1..]);
      assert prev + pages[0] + Concat(pages[1..]) == prev + (pages[0] + Concat(pages[1..]));
    }
  }

  function Min(a: int, b: int): int {
    if a <= b then a else b
  }

  /** The page a server holding the sorted, filtered list `all` answers for
      page `p` (counting from 1) at ten items per page. */
  function ServerPage(all: seq<Performance>, p: int): (r: PageResponse)
    requires p >= 1
    ensures r.total == |all| && r.pageSize == PageSize && r.page == p
  {
    var lo := Min((p - 1) * PageSize, |all|);
    var hi := Min(p * PageSize, |all|);
    PageResponse(all[lo..hi], p, PageSize, |all|)
  }

  /** The list and the flag after a reset load of page 1 followed by appends of
      pages 2 to `k`, each answered by `ServerPage(all, _)`. */
  function LoadPages(all: seq<Performance>, k: int): (seq<Performance>, bool)
    requires k >= 1
  {
    var page := ServerPage(all, k);
    var prev := if k == 1 then [] else LoadPages(all, k - 1).0;
    (Merge(prev, page.items, k == 1), HasMore(k, page.pageSize, page.total))
  }

  /** Loading pages 1 to `k` yields exactly the first `10 k` items of the server's
      list (or all of them), and the flag says whether items are still missing. */
  lemma {:induction false} LoadPagesPrefix(all: seq<Performance>, k: int)
    requires k >= 1
    ensures LoadPages(all, k).0 == all[..Min(k * PageSize, |all|)]
    ensures LoadPages(all, k).1 <==> k * PageSize < |all|
  {
    if k > 1 {
      LoadPagesPrefix(all, k - 1);
      var lo := Min((k - 1) * PageSize, |all|);
      var hi := Min(k * PageSize, |all|);
      assert all[..lo] + all[lo..hi] == all[..hi];
    }
  }

  /** The flag turns false exactly when the whole list has been loaded, so the
      visibility trigger stops with nothing missing and nothing duplicated. */
  lemma LoadPagesComplete(all: seq<Performance>, k: int)
    requires k >= 1
    ensures !LoadPages(all, k).1 <==> LoadPages(all, k).0 == all
    ensures LoadPages(all, k).1 ==> |LoadPages(all, k).0| == k * PageSize
  {
    LoadPagesPrefix(all, k);
    assert all[..|all|] == all;
  }
}
