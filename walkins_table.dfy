/**
 * The station dashboard's walk-in table: it shows one 15-row slice of the
 * walk-ins it is given, a date filter whose changes send the view back to
 * page 1, and Prev/Next buttons. The page number and the filter belong to
 * the parent; the table only computes the slice and the next values.
 */
module WalkinsTable {
  import opened Paging

  /** `(walkinPage - 1) * WALKIN_PAGE_SIZE` */
  function StartIndex(walkinPage: int): int
  {
    (walkinPage - 1) * PAGE_SIZE
  }

  /** `walkins.slice(startIndex, startIndex + WALKIN_PAGE_SIZE)` */
  function PagedWalkins<T>(walkins: seq<T>, walkinPage: int): seq<T>
  {
    JsSlice(walkins, StartIndex(walkinPage), StartIndex(walkinPage) + PAGE_SIZE)
  }

  /**
   * From page 1 on, the slice holds at most 15 walk-ins, starting with
   * walk-in (page − 1)·15 and in list order; it is the same page the
   * manager pages compute.
   */
  lemma PagedWalkinsShape<T>(walkins: seq<T>, walkinPage: int)
    requires walkinPage >= 1
    ensures |PagedWalkins(walkins, walkinPage)| <= PAGE_SIZE
    ensures forall k :: 0 <= k < |PagedWalkins(walkins, walkinPage)| ==>
              PagedWalkins(walkins, walkinPage)[k] == walkins[StartIndex(walkinPage) + k]
    ensures StartIndex(walkinPage) < |walkins| ==> PagedWalkins(walkins, walkinPage) != []
    ensures PagedWalkins(walkins, walkinPage) == PageItems(walkins, walkinPage)
  {
    PageItemsAt(walkins, walkinPage);
  }

  /** `totalWalkinPages || 1`: the label never says "of 0", and otherwise shows the count it is given. */
  function PageCountLabel(totalWalkinPages: int): (r: int)
    ensures r != 0
    ensures totalWalkinPages != 0 ==> r == totalWalkinPages
  {
    if totalWalkinPages == 0 then 1 else totalWalkinPages
  }

  /** The page number and date filter the table's controls change. */
  datatype TableState = TableState(walkinPage: int, walkinDateFilter: string)

  /** The date input's change handler. */
  function OnDateChange(s: TableState, value: string): TableState
  {
    TableState(1, value)
  }

  /** The Clear button, shown only while a date is set. */
  function OnClearDate(s: TableState): TableState
  {
    TableState(1, "")
  }

  predicate ClearShown(s: TableState)
  {
    s.walkinDateFilter != ""
  }

  predicate PrevEnabled(s: TableState)
  {
    !(s.walkinPage <= 1)
  }

  predicate NextEnabled(s: TableState, totalWalkinPages: int)
  {
    !(s.walkinPage >= totalWalkinPages)
  }

  /** `setWalkinPage(p => Math.max(1, p - 1))` */
  function OnPrev(s: TableState): TableState
  {
    s.(walkinPage := Prev(s.walkinPage))
  }

  /** `setWalkinPage(p => Math.min(totalWalkinPages, p + 1))` */
  function OnNext(s: TableState, totalWalkinPages: int): TableState
  {
    s.(walkinPage := Next(s.walkinPage, totalWalkinPages))
  }

  /** Setting or clearing the date always shows page 1, and clearing empties the filter. */
  lemma DateChangesResetPage(s: TableState, value: string)
    ensures OnDateChange(s, value).walkinPage == 1 && OnDateChange(s, value).walkinDateFilter == value
    ensures OnClearDate(s).walkinPage == 1 && !ClearShown(OnClearDate(s))
  {
  }

  /**
   * An enabled Prev moves back exactly one page and an enabled Next
   * forward exactly one; neither changes the filter. From a page in
   * [1, total], every click the table allows keeps the page in that range.
   */
  lemma PrevNextMoves(s: TableState, totalWalkinPages: int)
    ensures PrevEnabled(s) ==> OnPrev(s).walkinPage == s.walkinPage - 1
    ensures NextEnabled(s, totalWalkinPages) ==> OnNext(s, totalWalkinPages).walkinPage == s.walkinPage + 1
    ensures OnPrev(s).walkinDateFilter == s.walkinDateFilter
    ensures OnNext(s, totalWalkinPages).walkinDateFilter == s.walkinDateFilter
    ensures 1 <= s.walkinPage <= totalWalkinPages ==>
              1 <= OnPrev(s).walkinPage <= totalWalkinPages
              && (NextEnabled(s, totalWalkinPages) ==> 1 <= OnNext(s, totalWalkinPages).walkinPage <= totalWalkinPages)
  {
  }
}
