/** frontend/src/app/page.tsx: the page-number window of the pagination bar and
    the items it renders, and the filter state with the URL it pushes. */
module HomePage {
  import opened Wrappers
  import opened Strings
  import opened UrlParams
  import opened ClientSchemas

  // ---------------------------------------------------------------------------
  // renderPagination: the window of page numbers

  function Min(a: int, b: int): int { if a <= b then a else b }

  function Max(a: int, b: int): int { if a >= b then a else b }

  /** How many numbered links the bar shows: five, or all pages when fewer. */
  function WindowSize(totalPages: int): int { Min(5, totalPages) }

  /** The first numbered page: two before the current one, moved right or left
      so that a full window fits inside 1..totalPages. */
  function WindowStart(page: int, totalPages: int): int
    requires totalPages > 1
  {
    Max(1, Min(page - 2, totalPages - WindowSize(totalPages) + 1))
  }

  function WindowEnd(page: int, totalPages: int): int
    requires totalPages > 1
  {
    WindowStart(page, totalPages) + WindowSize(totalPages) - 1
  }

  /** The window always lies inside the pages, has the full size, and holds
      the current page whenever that page exists. */
  lemma WindowBounds(page: int, totalPages: int)
    requires totalPages > 1
    ensures 1 <= WindowStart(page, totalPages) <= WindowEnd(page, totalPages) <= totalPages
    ensures WindowEnd(page, totalPages) - WindowStart(page, totalPages) + 1 == Min(5, totalPages)
    ensures 1 <= page <= totalPages ==> WindowStart(page, totalPages) <= page <= WindowEnd(page, totalPages)
  {
  }

  /** The window as the code computes it: centred on the page, then widened at
      either end. */
  method PageWindow(page: int, totalPages: int) returns (startPage: int, endPage: int)
    requires totalPages > 1
    ensures startPage == WindowStart(page, totalPages)
    ensures endPage == WindowEnd(page, totalPages)
  {
    startPage := Max(1, page - 2);
    endPage := Min(totalPages, page + 2);
    if page <= 3 {
      endPage := Min(5, totalPages);
    }
    if page >= totalPages - 2 {
      startPage := Max(totalPages - 4, 1);
    }
  }

  // ---------------------------------------------------------------------------
  // renderPagination: the items

  /** One element of the bar. Previous and Next carry the page they navigate to,
      if any; a link carries its number and whether it is the active one. */
  datatype Item = Previous(target: Option<int>) | Link(number: int, active: bool) | Ellipsis | Next(target: Option<int>)

  /** The numbered links `startPage..endPage`. */
  function Links(startPage: int, endPage: int, page: int): (links: seq<Item>)
    requires startPage <= endPage
    ensures |links| == endPage - startPage + 1
    ensures forall k :: 0 <= k < |links| ==> links[k] == Link(startPage + k, startPage + k == page)
  {
    seq(endPage - startPage + 1, k requires 0 <= k <= endPage - startPage => Link(startPage + k, startPage + k == page))
  }

  /** The shortcut to page 1 and, when pages are skipped, the leading ellipsis. */
  function Head(startPage: int): seq<Item> {
    if startPage > 1 then [Link(1, false)] + (if startPage > 2 then [Ellipsis] else []) else []
  }

  /** The trailing ellipsis, when pages are skipped, and the shortcut to the last page. */
  function Tail(endPage: int, totalPages: int): seq<Item> {
    if endPage < totalPages then (if endPage < totalPages - 1 then [Ellipsis] else []) + [Link(totalPages, false)] else []
  }

  /** The shortcuts and ellipses around the window of numbered links. */
  function Body(page: int, totalPages: int): seq<Item>
    requires totalPages > 1
  {
    WindowBounds(page, totalPages);
    var s := WindowStart(page, totalPages);
    var e := WindowEnd(page, totalPages);
    Head(s) + Links(s, e, page) + Tail(e, totalPages)
  }

  /** The whole bar. */
  function Items(page: int, totalPages: int): seq<Item>
    requires totalPages > 1
  {
    [Previous(if page > 1 then Some(page - 1) else None)]
    + Body(page, totalPages)
    + [Next(if page < totalPages then Some(page + 1) else None)]
  }

  /** The pagination block of a search response, when there is one. */
  datatype PageInfo = PageInfo(page: int, totalPages: int)

  /** `renderPagination`: nothing without a pagination block or with at most
      one page, otherwise the bar. */
  method RenderPagination(info: Option<PageInfo>) returns (bar: Option<seq<Item>>)
    ensures bar.None? <==> info.None? || info.value.totalPages <= 1
    ensures bar.Some? ==> bar.value == Items(info.value.page, info.value.totalPages)
  {
    if info.None? || info.value.totalPages <= 1 {
      return None;
    }
    var page, total := info.value.page, info.value.totalPages;
    var startPage, endPage := PageWindow(page, total);
    var items := [];
    if startPage > 1 {
      items := items + [Link(1, false)];
      if startPage > 2 {
        items := items + [Ellipsis];
      }
    }
    assert items == Head(startPage);
    WindowBounds(page, total);
    items := items + Links(startPage, endPage, page);
    var tail := [];
    if endPage < total {
      if endPage < total - 1 {
        tail := tail + [Ellipsis];
      }
      tail := tail + [Link(total, false)];
    }
    assert tail == Tail(endPage, total);
    items := [Previous(if page > 1 then Some(page - 1) else None)] + (items + tail)
             + [Next(if page < total then Some(page + 1) else None)];
    return Some(items);
  }

  // ---------------------------------------------------------------------------
  // Properties of the bar

  /** Adjacent links show consecutive numbers, and every ellipsis stands between
      two links whose numbers leave a gap. */
  predicate Steps(b: seq<Item>) {
    (forall i :: 0 <= i < |b| - 1 && b[i].Link? && b[i + 1].Link? ==> b[i + 1].number == b[i].number + 1)
    && (forall i :: 0 <= i < |b| && b[i].Ellipsis? ==>
          0 < i < |b| - 1 && b[i - 1].Link? && b[i + 1].Link? && b[i + 1].number > b[i - 1].number + 1)
  }

  predicate OnlyLinksAndEllipses(b: seq<Item>) {
    forall i :: 0 <= i < |b| ==> b[i].Link? || b[i].Ellipsis?
  }

  /** A bar body: it starts at page 1, ends at the last page, and skips pages
      only where an ellipsis stands. */
  predicate Covers(b: seq<Item>, first: int, last: int) {
    |b| > 0 && OnlyLinksAndEllipses(b) && b[0].Link? && b[0].number == first
    && b[|b| - 1].Link? && b[|b| - 1].number == last && Steps(b)
  }

  lemma LinksCover(s: int, e: int, page: int)
    requires s <= e
    ensures Covers(Links(s, e, page), s, e)
  {
  }

  /** Two covering pieces whose numbers meet join into one. */
  lemma {:induction false} JoinAdjacent(x: seq<Item>, y: seq<Item>, a: int, m: int, c: int)
    requires Covers(x, a, m) && Covers(y, m + 1, c)
    ensures Covers(x + y, a, c)
  {
    var b := x + y;
    forall i | 0 <= i < |b| - 1 && b[i].Link? && b[i + 1].Link?
      ensures b[i + 1].number == b[i].number + 1
    {
      if i < |x| - 1 {
        assert b[i] == x[i] && b[i + 1] == x[i + 1];
      } else if i >= |x| {
        assert b[i] == y[i - |x|] && b[i + 1] == y[i + 1 - |x|];
      }
    }
    forall i | 0 <= i < |b| && b[i].Ellipsis?
      ensures 0 < i < |b| - 1 && b[i - 1].Link? && b[i + 1].Link? && b[i + 1].number > b[i - 1].number + 1
    {
      if i < |x| {
        assert b[i] == x[i];
        assert b[i - 1] == x[i - 1] && b[i + 1] == x[i + 1];
      } else {
        assert b[i] == y[i - |x|];
        assert b[i - 1] == y[i - 1 - |x|] && b[i + 1] == y[i + 1 - |x|];
      }
    }
  }

  /** Two covering pieces with a gap between them join through an ellipsis. */
  lemma {:induction false} JoinWithEllipsis(x: seq<Item>, y: seq<Item>, a: int, m: int, n: int, c: int)
    requires Covers(x, a, m) && Covers(y, n, c) && n > m + 1
    ensures Covers(x + [Ellipsis] + y, a, c)
  {
    var b := x + [Ellipsis] + y;
    forall i | 0 <= i < |b| - 1 && b[i].Link? && b[i + 1].Link?
      ensures b[i + 1].number == b[i].number + 1
    {
      if i < |x| - 1 {
        assert b[i] == x[i] && b[i + 1] == x[i + 1];
      } else if i > |x| {
        assert b[i] == y[i - |x| - 1] && b[i + 1] == y[i - |x|];
      }
    }
    forall i | 0 <= i < |b| && b[i].Ellipsis?
      ensures 0 < i < |b| - 1 && b[i - 1].Link? && b[i + 1].Link? && b[i + 1].number > b[i - 1].number + 1
    {
      if i < |x| {
        assert b[i] == x[i];
        assert b[i - 1] == x[i - 1] && b[i + 1] == x[i + 1];
      } else if i == |x| {
        assert b[i - 1] == x[|x| - 1] && b[i + 1] == y[0];
      } else {
        assert b[i] == y[i - |x| - 1];
        assert b[i - 1] == y[i - |x| - 2] && b[i + 1] == y[i - |x|];
      }
    }
    assert b[|b| - 1] == y[|y| - 1];
  }

  lemma {:induction false} JoinGap(x: seq<Item>, y: seq<Item>, a: int, m: int, n: int, c: int)
    requires Covers(x, a, m) && Covers(y, n, c) && n > m
    ensures Covers(x + (if n > m + 1 then [Ellipsis] else []) + y, a, c)
  {
    if n > m + 1 {
      JoinWithEllipsis(x, y, a, m, n, c);
    } else {
      assert x + [] + y == x + y;
      JoinAdjacent(x, y, a, m, c);
    }
  }

  lemma {:induction false} HeadJoins(mid: seq<Item>, s: int, e: int)
    requires Covers(mid, s, e) && s >= 1
    ensures Covers(Head(s) + mid, 1, e)
  {
    if s > 1 {
      JoinGap([Link(1, false)], mid, 1, 1, s, e);
      assert Head(s) + mid == [Link(1, false)] + (if s > 1 + 1 then [Ellipsis] else []) + mid;
    } else {
      assert Head(s) + mid == mid;
    }
  }

  lemma {:induction false} TailJoins(left: seq<Item>, e: int, totalPages: int)
    requires Covers(left, 1, e) && e <= totalPages
    ensures Covers(left + Tail(e, totalPages), 1, totalPages)
  {
    if e < totalPages {
      JoinGap(left, [Link(totalPages, false)], 1, e, totalPages, totalPages);
      assert left + Tail(e, totalPages) == left + (if totalPages > e + 1 then [Ellipsis] else []) + [Link(totalPages, false)];
    } else {
      assert left + Tail(e, totalPages) == left;
    }
  }

  /** Between its Previous and Next buttons the bar runs from page 1 to the last
      page, with consecutive numbers, an ellipsis exactly where pages are
      skipped, and so no page number twice. */
  lemma {:induction false} BodyCoversAllPages(page: int, totalPages: int)
    requires totalPages > 1
    ensures Covers(Body(page, totalPages), 1, totalPages)
  {
    WindowBounds(page, totalPages);
    var s := WindowStart(page, totalPages);
    var e := WindowEnd(page, totalPages);
    var mid := Links(s, e, page);
    LinksCover(s, e, page);
    HeadJoins(mid, s, e);
    TailJoins(Head(s) + mid, e, totalPages);
  }

  /** Numbers along a covering piece strictly increase: no page is shown twice. */
  lemma {:induction false} CoversIncreasing(b: seq<Item>, first: int, last: int, i: int, j: int)
    requires Covers(b, first, last)
    requires 0 <= i < j < |b| && b[i].Link? && b[j].Link?
    ensures b[i].number < b[j].number
    decreases j - i
  {
    if b[i + 1].Link? {
      if i + 1 < j {
        CoversIncreasing(b, first, last, i + 1, j);
      }
    } else {
      assert b[i + 2].Link?;
      if i + 2 < j {
        CoversIncreasing(b, first, last, i + 2, j);
      }
    }
  }

  /** The active link is the current page's, and there is exactly one when the
      page exists and none otherwise. */
  lemma {:induction false} ActiveIsCurrent(page: int, totalPages: int)
    requires totalPages > 1
    ensures forall k :: (0 <= k < |Body(page, totalPages)| && Body(page, totalPages)[k].Link? && Body(page, totalPages)[k].active
                         ==> Body(page, totalPages)[k].number == page)
    ensures (1 <= page <= totalPages) <==> Link(page, true) in Body(page, totalPages)
  {
    WindowBounds(page, totalPages);
    var s := WindowStart(page, totalPages);
    var e := WindowEnd(page, totalPages);
    var b := Body(page, totalPages);
    var mid := Links(s, e, page);
    if 1 <= page <= totalPages {
      assert mid[page - s] == Link(page, true);
      assert Link(page, true) in mid;
    }
    if Link(page, true) in b {
      var k :| 0 <= k < |b| && b[k] == Link(page, true);
      BodyCoversAllPages(page, totalPages);
      assert 1 <= page <= totalPages by {
        if page < 1 {
          if k > 0 { CoversIncreasing(b, 1, totalPages, 0, k); }
        } else if page > totalPages {
          if k < |b| - 1 { CoversIncreasing(b, 1, totalPages, k, |b| - 1); }
        }
      }
    }
  }

  /** Previous leads to the page before and Next to the page after, each only
      when that page exists. */
  lemma PreviousAndNext(page: int, totalPages: int)
    requires totalPages > 1
    ensures Items(page, totalPages)[0] == Previous(if page > 1 then Some(page - 1) else None)
    ensures Items(page, totalPages)[|Items(page, totalPages)| - 1] == Next(if page < totalPages then Some(page + 1) else None)
  {
  }

  // ---------------------------------------------------------------------------
  // updateFilters and the debounced search term

  /** The part of `PolicyFilters` a call passes in; a present field overrides. */
  datatype FiltersPatch = FiltersPatch(term: Option<string>, page: Option<int>, pageSize: Option<int>, category: Option<string>)

  /** `{ ...filters, ...newFilters }` */
  function Merge(f: PolicyFilters, patch: FiltersPatch): (m: PolicyFilters)
    ensures m.term == (if patch.term.Some? then patch.term else f.term)
    ensures m.page == (if patch.page.Some? then patch.page else f.page)
    ensures m.pageSize == (if patch.pageSize.Some? then patch.pageSize else f.pageSize)
    ensures m.category == (if patch.category.Some? then patch.category else f.category)
  {
    PolicyFilters(
      if patch.term.Some? then patch.term else f.term,
      if patch.page.Some? then patch.page else f.page,
      if patch.pageSize.Some? then patch.pageSize else f.pageSize,
      if patch.category.Some? then patch.category else f.category)
  }

  predicate ShowsTerm(f: PolicyFilters) {
    f.term.Some? && f.term.value != ""
  }

  predicate ShowsPage(f: PolicyFilters) {
    f.page.Some? && f.page.value > 1
  }

  /** The search parameters `updateFilters` sets: the term when it is non-empty,
      then the page as its decimal text when it is past the first. */
  function PushedParams(f: PolicyFilters): (ps: seq<Param>)
    ensures Keys(ps) == (if ShowsTerm(f) then ["term"] else []) + (if ShowsPage(f) then ["page"] else [])
    ensures forall i :: 0 <= i < |ps| && ps[i].key == "term" ==> ps[i].value == f.term.value
    ensures forall i :: 0 <= i < |ps| && ps[i].key == "page" ==> ps[i].value == IntToString(f.page.value)
  {
    (if ShowsTerm(f) then [Param("term", f.term.value)] else [])
    + (if ShowsPage(f) then [Param("page", IntToString(f.page.value))] else [])
  }

  /** The page's filter state and the addresses it has pushed to the router. */
  class HomeFilters {
    var filters: PolicyFilters
    var pushed: seq<string>

    /** The initial state: the page and term read from the address, nine
        policies per page. */
    constructor(initialPage: int, initialTerm: string)
      ensures filters == PolicyFilters(Some(initialTerm), Some(initialPage), Some(9), None)
      ensures pushed == []
    {
      filters := PolicyFilters(Some(initialTerm), Some(initialPage), Some(9), None);
      pushed := [];
    }

    /** `updateFilters`: merge, then push the address that carries the term when
        it is non-empty and the page when it is past the first. */
    method UpdateFilters(patch: FiltersPatch, encode: string -> string)
      modifies this
      ensures filters == Merge(old(filters), patch)
      ensures pushed == old(pushed) + [WithQuery("", "/", PushedParams(filters), encode)]
      ensures pushed[|pushed| - 1] == "/" <==> !ShowsTerm(filters) && !ShowsPage(filters)
    {
      var updated := Merge(filters, patch);
      filters := updated;
      var ps: seq<Param> := [];
      if ShowsTerm(updated) {
        ps := ps + [Param("term", updated.term.value)];
      }
      if ShowsPage(updated) {
        ps := ps + [Param("page", IntToString(updated.page.value))];
      }
      assert ps == PushedParams(updated);
      var url := WithQuery("", "/", ps, encode);
      pushed := pushed + [url];
    }

    /** `handlePageChange` */
    method ChangePage(page: int, encode: string -> string)
      modifies this
      ensures filters == old(filters).(page := Some(page))
      ensures pushed == old(pushed) + [WithQuery("", "/", PushedParams(filters), encode)]
    {
      UpdateFilters(FiltersPatch(None, Some(page), None, None), encode);
    }

    /** The effect on the debounced search value: a new term replaces the old
        one and sends the list back to page 1, so the address carries the term
        alone, or nothing when the term is empty. */
    method OnDebouncedTerm(value: string, encode: string -> string)
      modifies this
      ensures filters == DebounceStep(old(filters), value)
      ensures Some(value) == old(filters.term) ==> pushed == old(pushed)
      ensures Some(value) != old(filters.term) ==>
        pushed == old(pushed) + [WithQuery("", "/", if value == "" then [] else [Param("term", value)], encode)]
    {
      if Some(value) != filters.term {
        UpdateFilters(FiltersPatch(Some(value), Some(1), None, None), encode);
      }
    }
  }

  /** The filters after the effect has seen the debounced value. */
  function DebounceStep(f: PolicyFilters, value: string): (g: PolicyFilters)
    ensures g.term == Some(value) && g.pageSize == f.pageSize && g.category == f.category
    ensures g.page == (if f.term == Some(value) then f.page else Some(1))
  {
    if Some(value) != f.term then Merge(f, FiltersPatch(Some(value), Some(1), None, None)) else f
  }

  /** Once the term has caught up, the effect changes nothing more. */
  lemma DebounceSettles(f: PolicyFilters, value: string)
    ensures DebounceStep(DebounceStep(f, value), value) == DebounceStep(f, value)
  {
  }
}
