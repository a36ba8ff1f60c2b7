/** The pagination shared by every listing view: a page-number request
    parameter and a paginator over one ordered list with a fixed page size.
    The paginator follows Django's `Paginator(list, per_page).get_page(n)`
    with no orphans and an allowed empty first page. */
module Pagination {

  /** The configured page size. */
  const POSTS_ON_PAGE: nat := 10

  /** The `page` query parameter: absent, not an integer, or an integer. */
  datatype PageParam = NoPage | NotAnInteger | Number(n: int)

  /** The page handed to a template: its items, its 1-based number and the
      number of pages of the whole list. */
  datatype Page<T> = Page(objectList: seq<T>, number: nat, numPages: nat)
  {
    predicate HasNext() { number < numPages }
    predicate HasPrevious() { number > 1 }
  }


  /** Where page `number` starts in the list, counted as a sum of page
      sizes; OffsetIsProduct shows it is `(number - 1) * perPage`. */
  function Offset(number: nat, perPage: nat): nat
    requires number >= 1
  {
    if number == 1 then 0 else Offset(number - 1, perPage) + perPage
  }

  lemma {:induction false} OffsetIsProduct(number: nat, perPage: nat)
    requires number >= 1
    ensures Offset(number, perPage) == (number - 1) * perPage
  {
    if number > 1 {
      OffsetIsProduct(number - 1, perPage);
    }
  }

  /** Later pages start later: page b starts at least one page size after
      page a for a < b. */
  lemma {:induction false} OffsetMonotone(a: nat, b: nat, perPage: nat)
    requires 1 <= a < b
    ensures Offset(a, perPage) + perPage <= Offset(b, perPage)
    decreases b
  {
    if a < b - 1 {
      OffsetMonotone(a, b - 1, perPage);
    }
  }

  /** The number of pages of a list of `count` items; an empty list has one
      (empty) page. The last page starts inside the list and reaches its
      end. */
  function NumPages(count: nat, perPage: nat): (n: nat)
    requires perPage > 0
    ensures n >= 1
    ensures Offset(n, perPage) <= count <= Offset(n, perPage) + perPage
    ensures count > 0 ==> Offset(n, perPage) < count
    decreases count
  {
    if count <= perPage then 1
    else
      var m := NumPages(count - perPage, perPage);
      assert Offset(m + 1, perPage) == Offset(m, perPage) + perPage;
      m + 1
  }

  /** A list longer than one page has one page more than the list without
      its first page. */
  lemma NumPagesStep(count: nat, perPage: nat)
    requires 0 < perPage < count
    ensures NumPages(count, perPage) == NumPages(count - perPage, perPage) + 1
  {
  }

  /** Page `number` starts inside the list, and a page before the last one
      ends inside it. */
  lemma SliceBounds(count: nat, perPage: nat, number: nat)
    requires perPage > 0 && 1 <= number <= NumPages(count, perPage)
    ensures Offset(number, perPage) <= count
    ensures number < NumPages(count, perPage) ==> Offset(number, perPage) + perPage < count
  {
    var n := NumPages(count, perPage);
    if number < n {
      OffsetMonotone(number, n, perPage);
    }
  }

  /** The page number that `get_page` settles on: a missing or non-integer
      parameter selects the first page, an integer outside 1..numPages the
      last one, and any other integer itself. */
  function PageNumber(param: PageParam, numPages: nat): (k: nat)
    requires numPages >= 1
    ensures 1 <= k <= numPages
    ensures param.Number? && 1 <= param.n <= numPages ==> k == param.n
    ensures param.Number? && !(1 <= param.n <= numPages) ==> k == numPages
    ensures !param.Number? ==> k == 1
  {
    match param
    case Number(n) => if 1 <= n <= numPages then n else numPages
    case _ => 1
  }

  /** The items of page `number`: the run of at most `perPage` consecutive
      items that starts at item `(number - 1) * perPage`. Every page but the
      last is full, and the last one ends with the list. */
  function PageSlice<T>(items: seq<T>, perPage: nat, number: nat): (s: seq<T>)
    requires perPage > 0 && 1 <= number <= NumPages(|items|, perPage)
    ensures |s| <= perPage
    ensures Offset(number, perPage) + |s| <= |items|
    ensures number < NumPages(|items|, perPage) ==> |s| == perPage
    ensures number == NumPages(|items|, perPage) ==> Offset(number, perPage) + |s| == |items|
    ensures s == items[Offset(number, perPage)..Offset(number, perPage) + |s|]
  {
    SliceBounds(|items|, perPage, number);
    var bottom := Offset(number, perPage);
    var top := bottom + perPage;
    if top >= |items| then items[bottom..] else items[bottom..top]
  }

  /** `Paginator(items, perPage).get_page(param)`. */
  function GetPage<T>(items: seq<T>, perPage: nat, param: PageParam): (page: Page<T>)
    requires perPage > 0
    ensures page.numPages == NumPages(|items|, perPage)
    ensures 1 <= page.number <= page.numPages
    ensures page.number == PageNumber(param, page.numPages)
    ensures page.objectList == PageSlice(items, perPage, page.number)
  {
    var n := NumPages(|items|, perPage);
    var k := PageNumber(param, n);
    Page(PageSlice(items, perPage, k), k, n)
  }

  /** The shared pagination helper: a page of at most POSTS_ON_PAGE items,
      chosen by the request's page parameter, drawn from `items` alone. */
  function Paging<T>(items: seq<T>, param: PageParam): (page: Page<T>)
    ensures page == GetPage(items, POSTS_ON_PAGE, param)
    ensures |page.objectList| <= POSTS_ON_PAGE
    ensures forall i :: 0 <= i < |page.objectList| ==> page.objectList[i] in items
  {
    var page := GetPage(items, POSTS_ON_PAGE, param);
    assert forall i :: 0 <= i < |page.objectList| ==>
      page.objectList[i] == items[Offset(page.number, POSTS_ON_PAGE) + i];
    page
  }

  /** With `perPage + extra` items (0 < extra < perPage) page 1 is full,
      page 2 holds the `extra` remaining items and is the last page. */
  lemma {:induction false} OverflowPage<T>(items: seq<T>, perPage: nat, extra: nat)
    requires 0 < extra < perPage && |items| == perPage + extra
    ensures |GetPage(items, perPage, Number(1)).objectList| == perPage
    ensures |GetPage(items, perPage, Number(2)).objectList| == extra
    ensures GetPage(items, perPage, Number(2)).objectList == items[perPage..]
    ensures !GetPage(items, perPage, Number(2)).HasNext()
    ensures GetPage(items, perPage, Number(2)).HasPrevious()
  {
    assert NumPages(extra, perPage) == 1;
    assert NumPages(|items|, perPage) == 2;
  }

  /** The configured instance: POSTS_ON_PAGE + 3 items give a full first
      page and a second page of 3. */
  lemma PagingThreeExtra<T>(items: seq<T>)
    requires |items| == POSTS_ON_PAGE + 3
    ensures |Paging(items, Number(1)).objectList| == POSTS_ON_PAGE
    ensures |Paging(items, Number(2)).objectList| == 3
    ensures !Paging(items, Number(2)).HasNext()
  {
    OverflowPage(items, POSTS_ON_PAGE, 3);
  }

  /** Splitting a list into runs of `perPage`, written independently of the
      paginator: the last run holds what is left, and an empty list is one
      empty run. */
  function Chunks<T>(items: seq<T>, perPage: nat): seq<seq<T>>
    requires perPage > 0
    decreases |items|
  {
    if |items| <= perPage then [items]
    else [items[..perPage]] + Chunks(items[perPage..], perPage)
  }

  function Flatten<T>(ss: seq<seq<T>>): seq<T>
  {
    if ss == [] then [] else ss[0] + Flatten(ss[1..])
  }

  lemma {:induction false} FlattenChunks<T>(items: seq<T>, perPage: nat)
    requires perPage > 0
    ensures Flatten(Chunks(items, perPage)) == items
    decreases |items|
  {
    if |items| > perPage {
      FlattenChunks(items[perPage..], perPage);
      assert items == items[..perPage] + items[perPage..];
    }
  }

  /** Past the first page, page k + 1 of a list is page k of the list
      without its first page. */
  lemma PageOfRest<T>(items: seq<T>, perPage: nat, k: nat)
    requires perPage > 0 && |items| > perPage
    requires 1 <= k <= NumPages(|items| - perPage, perPage)
    ensures NumPages(|items|, perPage) == NumPages(|items| - perPage, perPage) + 1
    ensures PageSlice(items, perPage, k + 1) == PageSlice(items[perPage..], perPage, k)
  {
    NumPagesStep(|items|, perPage);
    ShiftedPage(items, items[perPage..], perPage, k);
  }

  /** If `rest` is `items` without its first `perPage` items, page k + 1 of
      `items` is page k of `rest`. */
  lemma ShiftedPage<T>(items: seq<T>, rest: seq<T>, perPage: nat, k: nat)
    requires perPage > 0 && |items| > perPage && |rest| == |items| - perPage
    requires forall i :: 0 <= i < |rest| ==> rest[i] == items[perPage + i]
    requires 1 <= k <= NumPages(|rest|, perPage)
    ensures k + 1 <= NumPages(|items|, perPage)
    ensures PageSlice(items, perPage, k + 1) == PageSlice(rest, perPage, k)
  {
    NumPagesStep(|items|, perPage);
    SliceBounds(|rest|, perPage, k);
    PageSliceSpan(rest, perPage, k);
    PageSliceSpan(items, perPage, k + 1);
    ShiftedSpan(items, rest, perPage, k);
  }

  /** The span of page k + 1 of `items` holds the items of the span of page
      k of `rest`, `rest` being `items` without its first `perPage` items. */
  lemma ShiftedSpan<T>(items: seq<T>, rest: seq<T>, perPage: nat, k: nat)
    requires |items| > perPage && |rest| == |items| - perPage && k >= 1
    requires forall i :: 0 <= i < |rest| ==> rest[i] == items[perPage + i]
    requires Offset(k, perPage) <= |rest|
    ensures items[Offset(k + 1, perPage)..PageEnd(|items|, perPage, k + 1)] ==
      rest[Offset(k, perPage)..PageEnd(|rest|, perPage, k)]
  {
    var o := Offset(k, perPage);
    var e := PageEnd(|rest|, perPage, k);
    assert Offset(k + 1, perPage) == perPage + o;
    assert PageEnd(|items|, perPage, k + 1) == perPage + e;
    var s := items[perPage + o..perPage + e];
    var t := rest[o..e];
    forall i | 0 <= i < |t| ensures s[i] == t[i] {
      assert t[i] == rest[o + i];
      assert s[i] == items[perPage + o + i];
    }
  }

  /** Where page `number` of a list of `count` items ends: one page size
      after its start, or at the end of the list if that comes first. */
  function PageEnd(count: nat, perPage: nat, number: nat): nat
    requires number >= 1
  {
    if Offset(number, perPage) + perPage >= count then count else Offset(number, perPage) + perPage
  }

  /** Page `number` is the run from its start to its end. */
  lemma PageSliceSpan<T>(items: seq<T>, perPage: nat, number: nat)
    requires perPage > 0 && 1 <= number <= NumPages(|items|, perPage)
    ensures Offset(number, perPage) <= PageEnd(|items|, perPage, number) <= |items|
    ensures PageSlice(items, perPage, number) ==
      items[Offset(number, perPage)..PageEnd(|items|, perPage, number)]
  {
    SliceBounds(|items|, perPage, number);
  }

  /** The paginator's pages are exactly the runs of Chunks, in order. */
  lemma {:induction false} ChunksArePages<T>(items: seq<T>, perPage: nat)
    requires perPage > 0
    ensures |Chunks(items, perPage)| == NumPages(|items|, perPage)
    ensures forall k :: 0 <= k < |Chunks(items, perPage)| ==>
      Chunks(items, perPage)[k] == PageSlice(items, perPage, k + 1)
    decreases |items|
  {
    var cs := Chunks(items, perPage);
    if |items| > perPage {
      var rest := items[perPage..];
      ChunksArePages(rest, perPage);
      PageOfRest(items, perPage, 1);
      forall k | 0 <= k < |cs|
        ensures cs[k] == PageSlice(items, perPage, k + 1)
      {
        if k == 0 {
          PageSliceSpan(items, perPage, 1);
        } else {
          assert cs[k] == Chunks(rest, perPage)[k - 1];
          PageOfRest(items, perPage, k);
        }
      }
    }
  }

  /** Every page of the list, page 1 first. */
  function AllPages<T>(items: seq<T>, perPage: nat): (pages: seq<seq<T>>)
    requires perPage > 0
    ensures |pages| == NumPages(|items|, perPage)
    ensures forall k :: 0 <= k < |pages| ==> pages[k] == PageSlice(items, perPage, k + 1)
  {
    var n := NumPages(|items|, perPage);
    seq(n, k requires 0 <= k < n => PageSlice(items, perPage, k + 1))
  }

  /** Reading every page in turn yields the whole list, once and in order:
      no item is lost or repeated by pagination. */
  lemma PagesConcatenateToList<T>(items: seq<T>, perPage: nat)
    requires perPage > 0
    ensures Flatten(AllPages(items, perPage)) == items
  {
    ChunksArePages(items, perPage);
    FlattenChunks(items, perPage);
    assert AllPages(items, perPage) == Chunks(items, perPage);
  }

  /** Asking for page k, for k in range, gives page k of the list: the
      k-th entry of AllPages. */
  lemma PagingByNumber<T>(items: seq<T>, k: int)
    requires 1 <= k <= NumPages(|items|, POSTS_ON_PAGE)
    ensures Paging(items, Number(k)).number == k
    ensures Paging(items, Number(k)).objectList == AllPages(items, POSTS_ON_PAGE)[k - 1]
  {
  }
}
