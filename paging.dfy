/**
 * Fixed-size pagination as the list views compute it: 15 rows per page,
 * 1-based page numbers, `Array.prototype.slice` for the page's rows, and
 * the Prev/Next setters `Math.max(1, p - 1)` and `Math.min(total, p + 1)`.
 */
module Paging {

  /** ITEMS_PER_PAGE and WALKIN_PAGE_SIZE. */
  const PAGE_SIZE: nat := 15

  /** `Math.max(1, Math.ceil(n / 15))` */
  function TotalPages(n: nat): (r: nat)
    ensures r >= 1 && n <= r * PAGE_SIZE
    ensures r == 1 || (r - 1) * PAGE_SIZE < n
  {
    var pages := (n + PAGE_SIZE - 1) / PAGE_SIZE;
    if pages < 1 then 1 else pages
  }

  /** `Math.min(page, totalPages)` */
  function PageSafe(page: int, totalPages: nat): (r: int)
    ensures r <= totalPages
    ensures page <= totalPages ==> r == page
    ensures 1 <= page ==> 1 <= r || totalPages == 0
  {
    if page < totalPages then page else totalPages
  }

  /** Where `slice` puts a possibly negative index: negative ones count from the end. */
  function SliceIndex(i: int, len: nat): (r: nat)
    ensures r <= len
  {
    if i < 0 then (if len + i < 0 then 0 else len + i)
    else if i > len then len
    else i
  }

  /** `s.slice(start, end)` */
  function JsSlice<T>(s: seq<T>, start: int, end: int): (r: seq<T>)
    ensures start <= end ==> |r| <= end - start
    ensures 0 <= start <= end ==> r == s[SliceIndex(start, |s|)..SliceIndex(end, |s|)]
  {
    var a, b := SliceIndex(start, |s|), SliceIndex(end, |s|);
    if a < b then s[a..b] else []
  }

  /** `s.slice((page - 1) * 15, page * 15)` */
  function PageItems<T>(s: seq<T>, page: int): (r: seq<T>)
    ensures |r| <= PAGE_SIZE
  {
    JsSlice(s, (page - 1) * PAGE_SIZE, page * PAGE_SIZE)
  }

  /** From page 1 on, page p holds the rows at positions (p-1)·15, (p-1)·15 + 1, … in order, as many as exist up to 15. */
  lemma PageItemsAt<T>(s: seq<T>, page: int)
    requires page >= 1
    ensures var first := (page - 1) * PAGE_SIZE;
            var r := PageItems(s, page);
            && (first < |s| ==> |r| == (if |s| - first < PAGE_SIZE then |s| - first else PAGE_SIZE))
            && (first >= |s| ==> r == [])
            && forall k :: 0 <= k < |r| ==> r[k] == s[first + k]
  {
  }

  /** Every row shows up on a page that exists: row i is entry i % 15 of page i / 15 + 1. */
  lemma PagesCoverRows<T>(s: seq<T>, i: nat)
    requires i < |s|
    ensures 1 <= i / PAGE_SIZE + 1 <= TotalPages(|s|)
    ensures i % PAGE_SIZE < |PageItems(s, i / PAGE_SIZE + 1)|
    ensures PageItems(s, i / PAGE_SIZE + 1)[i % PAGE_SIZE] == s[i]
  {
    var page := i / PAGE_SIZE + 1;
    PageItemsAt(s, page);
    assert (page - 1) * PAGE_SIZE + i % PAGE_SIZE == i;
  }

  /** A page past the last one is empty. */
  lemma PageBeyondLastIsEmpty<T>(s: seq<T>, page: int)
    requires page > TotalPages(|s|)
    ensures PageItems(s, page) == []
  {
    PageItemsAt(s, page);
  }

  /** Clamping the requested page to the page count always lands on a page with rows, if there are any rows. */
  lemma ClampedPageNotEmpty<T>(s: seq<T>, page: int)
    requires s != [] && page >= 1
    ensures PageItems(s, PageSafe(page, TotalPages(|s|))) != []
  {
    var p := PageSafe(page, TotalPages(|s|));
    PageItemsAt(s, p);
  }

  /** The Prev button's setter `Math.max(1, p - 1)`. */
  function Prev(p: int): int
  {
    if 1 > p - 1 then 1 else p - 1
  }

  /** The Next button's setter `Math.min(totalPages, p + 1)`. */
  function Next(p: int, totalPages: int): int
  {
    if totalPages < p + 1 then totalPages else p + 1
  }

  /** Prev never goes below page 1, Next never past the last page, and each undoes the other away from the ends. */
  lemma PrevNextStayInRange(p: int, totalPages: int)
    requires 1 <= p <= totalPages
    ensures 1 <= Prev(p) <= totalPages && 1 <= Next(p, totalPages) <= totalPages
    ensures p < totalPages ==> Prev(Next(p, totalPages)) == p
    ensures 1 < p ==> Next(Prev(p), totalPages) == p
  {
  }
}
