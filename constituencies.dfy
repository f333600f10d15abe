/** The all-constituencies table (`src/pages/Constituencies.tsx`): the search
    filter, the page slice, the page-number strip and the page state that the
    search box, the page-size selector and the navigation buttons update. */
module Constituencies {
  import opened Text
  import opened Seqs
  import opened ElectionTypes

  // ---------------------------------------------------------------- search

  /** The lower-cased query occurs in the lower-cased name, in the decimal AC
      number, in the lower-cased winner's name or in the lower-cased winner's
      party. The query is lower-cased but not trimmed. */
  predicate Matches(c: Constituency, query: string) {
    var q := Lower(query);
    || Includes(Lower(c.name), q)
    || Includes(IntToString(c.acNo), q)
    || Includes(Lower(c.winner.name), q)
    || Includes(Lower(c.winner.party), q)
  }

  /** `filteredConstituencies`: everything for a blank query, otherwise the
      matching constituencies in their original order. */
  function FilterConstituencies(cs: seq<Constituency>, query: string): (r: seq<Constituency>)
    ensures IsBlank(query) ==> r == cs
    ensures IsSubsequence(r, cs) && |r| <= |cs|
    ensures !IsBlank(query) ==> forall i :: 0 <= i < |r| ==> Matches(r[i], query)
    ensures forall i :: 0 <= i < |cs| && Matches(cs[i], query) ==> cs[i] in r
  {
    if IsBlank(query) then
      assert IsSubsequence(Filter(cs, c => true), cs) by { FilterIsSubsequence(cs, c => true); }
      FilterAll(cs, c => true);
      cs
    else
      FilterIsSubsequence(cs, c => Matches(c, query));
      Filter(cs, c => Matches(c, query))
  }

  // ------------------------------------------------------------ pagination

  const ItemsPerPageOptions: seq<nat> := [10, 25, 50, 100]

  /** The values the page-size selector hands to its change handler. */
  const ItemsPerPageLabels: seq<string> := ["10", "25", "50", "100"]

  const DefaultItemsPerPage: nat := 25

  lemma MulMonotone(a: int, b: int, n: nat)
    ensures a <= b ==> a * n <= b * n
  {
    assert b * n - a * n == (b - a) * n;
  }

  lemma MulPred(k: int, n: int)
    ensures (k - 1) * n == k * n - n
  {
  }

  /** Euclidean division is determined by quotient and remainder. */
  lemma DivUnique(a: int, p: int, q: int, r: int)
    requires p > 0 && 0 <= r < p && a == q * p + r
    ensures a / p == q && a % p == r
  {
    var q', r' := a / p, a % p;
    assert a == q' * p + r' && 0 <= r' < p;
    if q' < q {
      MulMonotone(q', q - 1, p);
      MulPred(q, p);
    } else if q' > q {
      MulMonotone(q + 1, q', p);
      MulPred(q + 1, p);
    }
  }

  /** `Math.ceil(count / perPage)`: the least number of pages of `perPage` rows
      that holds `count` rows. */
  function TotalPages(count: nat, perPage: nat): (tp: nat)
    requires perPage > 0
    ensures tp * perPage >= count
    ensures tp > 0 ==> (tp - 1) * perPage < count
    ensures tp == 0 <==> count == 0
  {
    var tp := (count + perPage - 1) / perPage;
    assert tp * perPage <= count + perPage - 1 < tp * perPage + perPage;
    MulPred(tp, perPage);
    tp
  }

  /** The page count in quotient-and-remainder form: one page per full
      `perPage` rows, plus one for the remainder. */
  lemma TotalPagesDivMod(count: nat, perPage: nat)
    requires perPage > 0
    ensures TotalPages(count, perPage) == count / perPage + (if count % perPage == 0 then 0 else 1)
  {
    var q, r := count / perPage, count % perPage;
    if r == 0 {
      DivUnique(count + perPage - 1, perPage, q, perPage - 1);
    } else {
      DivUnique(count + perPage - 1, perPage, q + 1, r - 1);
    }
  }

  /** Normalise one argument of `Array.prototype.slice`: a negative index
      counts from the end, and the result is clamped to `[0, len]`. */
  function SliceIndex(i: int, len: nat): (k: nat)
    ensures k <= len
    ensures 0 <= i ==> k == if i < len then i else len
  {
    if i < 0 then (if len + i < 0 then 0 else len + i)
    else if i > len then len
    else i
  }

  /** `s.slice(start, end)`. */
  function JsSlice<T>(s: seq<T>, start: int, end: int): seq<T> {
    var a, b := SliceIndex(start, |s|), SliceIndex(end, |s|);
    if a < b then s[a..b] else []
  }

  /** The index of the first row of page `page`. */
  function PageStart(page: int, perPage: nat): (start: nat)
    requires page >= 1
    ensures start == (page - 1) * perPage
  {
    MulMonotone(0, page - 1, perPage);
    (page - 1) * perPage
  }

  /** `paginatedData`: rows `(page - 1) * perPage` up to `page * perPage` of
      `items`, clipped to the list. */
  function PageSlice<T>(items: seq<T>, page: int, perPage: nat): (r: seq<T>)
    requires page >= 1 && perPage > 0
    ensures var start := PageStart(page, perPage);
            r == if start < |items| then items[start..if start + perPage < |items| then start + perPage else |items|] else []
    ensures |r| <= perPage
    ensures page > TotalPages(|items|, perPage) ==> r == []
  {
    var start := PageStart(page, perPage);
    var tp := TotalPages(|items|, perPage);
    MulMonotone(tp, page - 1, perPage);
    JsSlice(items, start, start + perPage)
  }

  /** Pages 1 to `k`, one after the other. */
  function PagesUpTo<T>(items: seq<T>, perPage: nat, k: nat): seq<T>
    requires perPage > 0
  {
    if k == 0 then [] else PagesUpTo(items, perPage, k - 1) + PageSlice(items, k, perPage)
  }

  lemma {:induction false} PagesUpToIsPrefix<T>(items: seq<T>, perPage: nat, k: nat)
    requires perPage > 0
    ensures PagesUpTo(items, perPage, k) == items[..if k * perPage < |items| then k * perPage else |items|]
  {
    if k > 0 {
      PagesUpToIsPrefix(items, perPage, k - 1);
      var start := PageStart(k, perPage);
      MulPred(k, perPage);
      PagesUpToStep(items, perPage, k, start, start + perPage);
    }
  }

  /** One more page extends the prefix by that page's rows. */
  lemma PagesUpToStep<T>(items: seq<T>, perPage: nat, k: nat, start: nat, end: nat)
    requires perPage > 0 && k > 0
    requires start == PageStart(k, perPage) && end == start + perPage
    requires PagesUpTo(items, perPage, k - 1) == items[..if start < |items| then start else |items|]
    ensures PagesUpTo(items, perPage, k) == items[..if end < |items| then end else |items|]
  {
    PrefixThenPage(items, start, perPage);
    assert PagesUpTo(items, perPage, k) == PagesUpTo(items, perPage, k - 1) + PageSlice(items, k, perPage);
  }

  /** The rows before `start`, followed by the page starting there, are the
      rows before the end of that page. */
  lemma PrefixThenPage<T>(items: seq<T>, start: nat, perPage: nat)
    ensures var a := if start < |items| then start else |items|;
            var e := if start + perPage < |items| then start + perPage else |items|;
            items[..a] + (if start < |items| then items[start..e] else []) == items[..e]
  {
    var e := if start + perPage < |items| then start + perPage else |items|;
    if start < |items| {
      assert items[..start] + items[start..e] == items[..e];
    }
  }

  /** Concatenating pages 1 to `totalPages` gives back the whole list, each row
      once and in order. */
  lemma PagesCoverList<T>(items: seq<T>, perPage: nat)
    requires perPage > 0
    ensures PagesUpTo(items, perPage, TotalPages(|items|, perPage)) == items
  {
    PagesUpToIsPrefix(items, perPage, TotalPages(|items|, perPage));
  }

  /** The last page holds `count % perPage` rows, or a full page when the count
      divides evenly. */
  lemma LastPageLength<T>(items: seq<T>, perPage: nat)
    requires perPage > 0 && |items| > 0
    ensures var tp := TotalPages(|items|, perPage);
            |PageSlice(items, tp, perPage)| == if |items| % perPage == 0 then perPage else |items| % perPage
  {
    var n, tp := |items|, TotalPages(|items|, perPage);
    var q, r := n / perPage, n % perPage;
    TotalPagesDivMod(n, perPage);
    var start := PageStart(tp, perPage);
    if r == 0 {
      assert tp == q;
      MulPred(q, perPage);
      assert start == n - perPage;
    } else {
      assert tp == q + 1;
      assert start == q * perPage;
    }
  }
  // ----------------------------------------------------- page-number strip

  datatype PageItem = PageNumber(n: int) | Ellipsis

  const MaxVisible: int := 5

  /** The buttons `lo`, `lo + 1`, ..., `hi`. */
  function Run(lo: int, hi: int): (r: seq<PageItem>)
    ensures |r| == if lo <= hi then hi - lo + 1 else 0
    ensures forall i :: 0 <= i < |r| ==> r[i] == PageNumber(lo + i)
  {
    seq(if lo <= hi then hi - lo + 1 else 0, i => PageNumber(lo + i))
  }

  /** The strip of page buttons: every page when there are at most five;
      otherwise the first four pages, `...`, the last page while the current
      page is among the first three; the first page, `...`, the last four pages
      while it is among the last three; else the first page, `...`, the pages
      around the current one, `...`, the last page. */
  function PageWindow(current: int, totalPages: int): seq<PageItem> {
    if totalPages <= MaxVisible then Run(1, totalPages)
    else if current <= 3 then Run(1, 4) + [Ellipsis, PageNumber(totalPages)]
    else if current >= totalPages - 2 then [PageNumber(1), Ellipsis] + Run(totalPages - 3, totalPages)
    else [PageNumber(1), Ellipsis] + Run(current - 1, current + 1) + [Ellipsis, PageNumber(totalPages)]
  }

  /** `getPageNumbers`: pushes the strip's items one at a time. */
  method GetPageNumbers(current: int, totalPages: int) returns (pages: seq<PageItem>)
    ensures pages == PageWindow(current, totalPages)
  {
    pages := [];
    if totalPages <= MaxVisible {
      var i := 1;
      while i <= totalPages
        invariant 1 <= i <= (if totalPages < 1 then 1 else totalPages + 1)
        invariant pages == Run(1, i - 1)
      {
        pages := pages + [PageNumber(i)];
        i := i + 1;
      }
    } else {
      if current <= 3 {
        var i := 1;
        while i <= 4
          invariant 1 <= i <= 5
          invariant pages == Run(1, i - 1)
        {
          pages := pages + [PageNumber(i)];
          i := i + 1;
        }
        pages := pages + [Ellipsis];
        pages := pages + [PageNumber(totalPages)];
      } else if current >= totalPages - 2 {
        pages := pages + [PageNumber(1)];
        pages := pages + [Ellipsis];
        var i := totalPages - 3;
        while i <= totalPages
          invariant totalPages - 3 <= i <= totalPages + 1
          invariant pages == [PageNumber(1), Ellipsis] + Run(totalPages - 3, i - 1)
        {
          pages := pages + [PageNumber(i)];
          i := i + 1;
        }
      } else {
        pages := pages + [PageNumber(1)];
        pages := pages + [Ellipsis];
        var i := current - 1;
        while i <= current + 1
          invariant current - 1 <= i <= current + 2
          invariant pages == [PageNumber(1), Ellipsis] + Run(current - 1, i - 1)
        {
          pages := pages + [PageNumber(i)];
          i := i + 1;
        }
        pages := pages + [Ellipsis];
        pages := pages + [PageNumber(totalPages)];
      }
    }
  }

  /** Every page number of `w` lies in `[1, totalPages]`. */
  ghost predicate NumbersInRange(w: seq<PageItem>, totalPages: int) {
    forall i :: 0 <= i < |w| && w[i].PageNumber? ==> 1 <= w[i].n <= totalPages
  }

  /** The page numbers of `w` strictly increase from left to right. */
  ghost predicate NumbersIncreasing(w: seq<PageItem>) {
    forall i, j :: 0 <= i < j < |w| && w[i].PageNumber? && w[j].PageNumber? ==> w[i].n < w[j].n
  }

  /** The strip's page numbers lie in `[1, totalPages]` and strictly increase. */
  lemma WindowNumbersIncreasing(current: int, totalPages: int)
    ensures NumbersInRange(PageWindow(current, totalPages), totalPages)
    ensures NumbersIncreasing(PageWindow(current, totalPages))
  {
    WindowCases(current, totalPages);
    if totalPages <= MaxVisible {
      RunNumbers(1, totalPages);
    } else if current <= 3 {
      HeadShapeNumbers(totalPages);
    } else if current >= totalPages - 2 {
      TailShapeNumbers(totalPages);
    } else {
      MiddleShapeNumbers(current, totalPages);
    }
  }

  lemma RunNumbers(lo: int, hi: int)
    requires 1 <= lo
    ensures NumbersInRange(Run(lo, hi), hi) && NumbersIncreasing(Run(lo, hi))
  {
  }

  lemma HeadShapeNumbers(totalPages: int)
    requires totalPages > MaxVisible
    ensures var w := [PageNumber(1), PageNumber(2), PageNumber(3), PageNumber(4), Ellipsis, PageNumber(totalPages)];
            NumbersInRange(w, totalPages) && NumbersIncreasing(w)
  {
  }

  lemma TailShapeNumbers(totalPages: int)
    requires totalPages > MaxVisible
    ensures var w := [PageNumber(1), Ellipsis, PageNumber(totalPages - 3), PageNumber(totalPages - 2),
                      PageNumber(totalPages - 1), PageNumber(totalPages)];
            NumbersInRange(w, totalPages) && NumbersIncreasing(w)
  {
  }

  lemma MiddleShapeNumbers(current: int, totalPages: int)
    requires 3 < current < totalPages - 2
    ensures var w := [PageNumber(1), Ellipsis, PageNumber(current - 1), PageNumber(current), PageNumber(current + 1),
                      Ellipsis, PageNumber(totalPages)];
            NumbersInRange(w, totalPages) && NumbersIncreasing(w)
  {
  }

  /** For a current page in range, the strip starts at page 1, ends at the
      last page, shows the current page and has at most seven items. */
  lemma WindowShape(current: int, totalPages: int)
    requires 1 <= current <= totalPages
    ensures var w := PageWindow(current, totalPages);
            && 1 <= |w| <= 7
            && w[0] == PageNumber(1)
            && w[|w| - 1] == PageNumber(totalPages)
            && PageNumber(current) in w
  {
    var w := PageWindow(current, totalPages);
    if totalPages <= MaxVisible {
      assert w[current - 1] == PageNumber(current);
    } else if current <= 3 {
      assert w[current - 1] == PageNumber(current);
    } else if current >= totalPages - 2 {
      assert w[current - totalPages + 5] == PageNumber(current);
    } else {
      assert w[3] == PageNumber(current);
    }
  }

  /** Every `...` stands between two page numbers more than one apart. */
  ghost predicate EllipsesAtGaps(w: seq<PageItem>) {
    forall i :: 0 <= i < |w| && w[i] == Ellipsis ==>
      0 < i < |w| - 1 && w[i - 1].PageNumber? && w[i + 1].PageNumber? && w[i + 1].n > w[i - 1].n + 1
  }

  /** Neighbouring page numbers are consecutive. */
  ghost predicate NeighboursConsecutive(w: seq<PageItem>) {
    forall i :: 0 <= i < |w| - 1 && w[i].PageNumber? && w[i + 1].PageNumber? ==> w[i + 1].n == w[i].n + 1
  }

  /** An `...` stands exactly where pages are skipped: it sits between two page
      numbers more than one apart, and two neighbouring page numbers with no
      `...` between them are consecutive. */
  lemma WindowEllipsisMarksGaps(current: int, totalPages: int)
    ensures EllipsesAtGaps(PageWindow(current, totalPages))
    ensures NeighboursConsecutive(PageWindow(current, totalPages))
  {
    WindowCases(current, totalPages);
    if totalPages <= MaxVisible {
      RunGaps(1, totalPages);
    } else if current <= 3 {
      HeadShapeGaps(totalPages);
    } else if current >= totalPages - 2 {
      TailShapeGaps(totalPages);
    } else {
      MiddleShapeGaps(current, totalPages);
    }
  }

  lemma RunGaps(lo: int, hi: int)
    ensures EllipsesAtGaps(Run(lo, hi)) && NeighboursConsecutive(Run(lo, hi))
  {
  }

  lemma HeadShapeGaps(totalPages: int)
    requires totalPages > MaxVisible
    ensures var w := [PageNumber(1), PageNumber(2), PageNumber(3), PageNumber(4), Ellipsis, PageNumber(totalPages)];
            EllipsesAtGaps(w) && NeighboursConsecutive(w)
  {
  }

  lemma TailShapeGaps(totalPages: int)
    requires totalPages > MaxVisible
    ensures var w := [PageNumber(1), Ellipsis, PageNumber(totalPages - 3), PageNumber(totalPages - 2),
                      PageNumber(totalPages - 1), PageNumber(totalPages)];
            EllipsesAtGaps(w) && NeighboursConsecutive(w)
  {
  }

  lemma MiddleShapeGaps(current: int, totalPages: int)
    requires 3 < current < totalPages - 2
    ensures var w := [PageNumber(1), Ellipsis, PageNumber(current - 1), PageNumber(current), PageNumber(current + 1),
                      Ellipsis, PageNumber(totalPages)];
            EllipsesAtGaps(w) && NeighboursConsecutive(w)
  {
  }

  /** The strip spelled out item by item in each of its four shapes. */
  lemma WindowCases(current: int, totalPages: int)
    ensures var w := PageWindow(current, totalPages);
            if totalPages <= MaxVisible then w == Run(1, totalPages)
            else if current <= 3 then w == [PageNumber(1), PageNumber(2), PageNumber(3), PageNumber(4), Ellipsis, PageNumber(totalPages)]
            else if current >= totalPages - 2 then
              w == [PageNumber(1), Ellipsis, PageNumber(totalPages - 3), PageNumber(totalPages - 2), PageNumber(totalPages - 1), PageNumber(totalPages)]
            else
              w == [PageNumber(1), Ellipsis, PageNumber(current - 1), PageNumber(current), PageNumber(current + 1), Ellipsis, PageNumber(totalPages)]
  {
  }

  // ------------------------------------------------------------ page state

  /** The page's state: the search text, the current page and the page size. */
  datatype ListView = ListView(query: string, page: int, itemsPerPage: nat)

  const InitialView: ListView := ListView("", 1, DefaultItemsPerPage)

  /** The page-size selector offers exactly the four sizes, and `parseInt`
      reads each label back as its size. */
  lemma ItemsPerPageLabelsParse()
    ensures |ItemsPerPageLabels| == |ItemsPerPageOptions|
    ensures forall i :: 0 <= i < |ItemsPerPageLabels| ==>
      ItemsPerPageLabels[i] == IntToString(ItemsPerPageOptions[i]) &&
      ParseInt(ItemsPerPageLabels[i]) == Some(ItemsPerPageOptions[i] as int)
  {
    forall i | 0 <= i < |ItemsPerPageLabels|
      ensures ItemsPerPageLabels[i] == IntToString(ItemsPerPageOptions[i])
    {
      var n := ItemsPerPageOptions[i];
      assert NatToString(n) == NatToString(n / 10) + [DigitChar(n % 10)];
      if n == 100 {
        assert NatToString(10) == NatToString(1) + [DigitChar(0)];
      }
    }
    forall i | 0 <= i < |ItemsPerPageLabels|
      ensures ParseInt(ItemsPerPageLabels[i]) == Some(ItemsPerPageOptions[i] as int)
    {
      ParseIntOfIntToString(ItemsPerPageOptions[i]);
    }
  }

  /** `handleSearch`: a new query sends the table back to page 1. */
  function HandleSearch(v: ListView, value: string): (r: ListView)
    ensures r.query == value && r.page == 1 && r.itemsPerPage == v.itemsPerPage
  {
    v.(query := value, page := 1)
  }

  /** `handleItemsPerPageChange`: `parseInt` of the chosen label becomes the
      page size, and the table goes back to page 1. */
  function HandleItemsPerPageChange(v: ListView, value: string): (r: ListView)
    requires value in ItemsPerPageLabels
    ensures r.itemsPerPage in ItemsPerPageOptions
    ensures Some(r.itemsPerPage as int) == ParseInt(value) && IntToString(r.itemsPerPage) == value
    ensures r.page == 1 && r.query == v.query
  {
    ItemsPerPageLabelsParse();
    var i := IndexOf(ItemsPerPageLabels, value);
    assert ParseInt(ItemsPerPageLabels[i]) == Some(ItemsPerPageOptions[i] as int);
    var n := ParseInt(value).value;
    assert n == ItemsPerPageOptions[i] as int;
    v.(itemsPerPage := n, page := 1)
  }

  /** The previous-page button: `Math.max(1, p - 1)`. */
  function PrevPage(v: ListView): (r: ListView)
    ensures r.page >= 1
    ensures v.page > 1 ==> r.page == v.page - 1
    ensures v.page <= 1 ==> r.page == 1
    ensures r.query == v.query && r.itemsPerPage == v.itemsPerPage
  {
    v.(page := if v.page - 1 > 1 then v.page - 1 else 1)
  }

  /** The next-page button: `Math.min(totalPages, p + 1)`. */
  function NextPage(v: ListView, totalPages: int): (r: ListView)
    ensures r.page <= totalPages
    ensures v.page < totalPages ==> r.page == v.page + 1
    ensures v.page >= totalPages ==> r.page == totalPages
    ensures r.query == v.query && r.itemsPerPage == v.itemsPerPage
  {
    v.(page := if totalPages < v.page + 1 then totalPages else v.page + 1)
  }

  /** The number of pages the state's query and page size give. */
  function ViewTotalPages(v: ListView, cs: seq<Constituency>): nat
    requires v.itemsPerPage > 0
  {
    TotalPages(|FilterConstituencies(cs, v.query)|, v.itemsPerPage)
  }

  /** The user's actions on the page. The navigation buttons are rendered only
      while there is more than one page. */
  datatype Action =
    | Search(value: string)
    | ChangeItemsPerPage(choice: string)
    | Prev
    | Next
    | ClickPage(n: int)

  /** The page's standing invariant: a page size from the selector and a
      current page between 1 and the last page (page 1 when nothing matches). */
  predicate ViewValid(v: ListView, cs: seq<Constituency>) {
    && v.itemsPerPage in ItemsPerPageOptions
    && v.itemsPerPage > 0
    && 1 <= v.page
    && (v.page == 1 || v.page <= ViewTotalPages(v, cs))
  }

  /** Whether the page offers `a` in state `v`. */
  predicate Offered(v: ListView, cs: seq<Constituency>, a: Action)
    requires ViewValid(v, cs)
  {
    match a
    case Search(_) => true
    case ChangeItemsPerPage(choice) => choice in ItemsPerPageLabels
    case Prev => ViewTotalPages(v, cs) > 1
    case Next => ViewTotalPages(v, cs) > 1
    case ClickPage(n) => ViewTotalPages(v, cs) > 1 && PageNumber(n) in PageWindow(v.page, ViewTotalPages(v, cs))
  }

  function Step(v: ListView, cs: seq<Constituency>, a: Action): ListView
    requires ViewValid(v, cs) && Offered(v, cs, a)
  {
    match a
    case Search(value) => HandleSearch(v, value)
    case ChangeItemsPerPage(choice) => HandleItemsPerPageChange(v, choice)
    case Prev => PrevPage(v)
    case Next => NextPage(v, ViewTotalPages(v, cs))
    case ClickPage(n) => v.(page := n)
  }

  /** Every offered action keeps the page state valid. */
  lemma StepKeepsViewValid(v: ListView, cs: seq<Constituency>, a: Action)
    requires ViewValid(v, cs) && Offered(v, cs, a)
    ensures ViewValid(Step(v, cs, a), cs)
  {
    var tp := ViewTotalPages(v, cs);
    var r := Step(v, cs, a);
    match a
    case Search(value) =>
      ResetViewValid(r, cs);
    case ChangeItemsPerPage(choice) =>
      ResetViewValid(r, cs);
    case Prev =>
      MoveViewValid(v, r, cs);
    case Next =>
      MoveViewValid(v, r, cs);
    case ClickPage(n) =>
      WindowButtonInRange(v.page, tp, n);
      MoveViewValid(v, r, cs);
  }

  /** A listed page size on page 1 is a valid state, whatever the query. */
  lemma ResetViewValid(r: ListView, cs: seq<Constituency>)
    requires r.itemsPerPage in ItemsPerPageOptions && r.page == 1
    ensures ViewValid(r, cs)
  {
  }

  /** Moving to another existing page of the same listing keeps the state valid. */
  lemma MoveViewValid(v: ListView, r: ListView, cs: seq<Constituency>)
    requires ViewValid(v, cs)
    requires r.query == v.query && r.itemsPerPage == v.itemsPerPage
    requires 1 <= r.page && (r.page == 1 || r.page <= ViewTotalPages(v, cs))
    ensures ViewValid(r, cs)
  {
  }

  /** A page button of the strip names a page that exists. */
  lemma WindowButtonInRange(current: int, totalPages: int, n: int)
    requires PageNumber(n) in PageWindow(current, totalPages)
    ensures 1 <= n <= totalPages
  {
    var w := PageWindow(current, totalPages);
    WindowNumbersIncreasing(current, totalPages);
    var i := IndexOf(w, PageNumber(n));
    assert w[i].PageNumber?;
  }

  /** In a valid state the table shows at least one row whenever something
      matches the query. */
  lemma ValidViewShowsRows(v: ListView, cs: seq<Constituency>)
    requires ViewValid(v, cs)
    requires FilterConstituencies(cs, v.query) != []
    ensures PageSlice(FilterConstituencies(cs, v.query), v.page, v.itemsPerPage) != []
  {
    PageNonEmpty(FilterConstituencies(cs, v.query), v.page, v.itemsPerPage);
  }

  /** Every page from 1 to the last one of a non-empty list has a row. */
  lemma PageNonEmpty<T>(items: seq<T>, page: int, perPage: nat)
    requires perPage > 0 && items != []
    requires 1 <= page && (page == 1 || page <= TotalPages(|items|, perPage))
    ensures PageSlice(items, page, perPage) != []
  {
    var tp := TotalPages(|items|, perPage);
    MulMonotone(page - 1, tp - 1, perPage);
  }

  lemma InitialViewValid(cs: seq<Constituency>)
    ensures ViewValid(InitialView, cs)
  {
  }
}
