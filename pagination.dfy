/** Paging through the filtered view, ten rows at a time. */
module Pagination {
  import opened Sales

  const RowsPerPage: nat := 10

  /** `n // 10`, plus one for a partial last page: the ceiling of n / 10. */
  function NumPages(n: nat): (k: nat)
    ensures k == 0 <==> n == 0
    ensures n > 0 ==> (k - 1) * RowsPerPage < n <= k * RowsPerPage
  {
    n / RowsPerPage + (if n % RowsPerPage > 0 then 1 else 0)
  }

  /** The page the slider hands back: it cannot leave [1, numPages], and within
      that range it is whatever the user picked. */
  function SliderPage(choice: int, numPages: nat): (page: int)
    requires numPages >= 1
    ensures 1 <= page <= numPages
    ensures 1 <= choice <= numPages ==> page == choice
  {
    if choice < 1 then 1 else if choice > numPages then numPages else choice
  }

  /** How a Python slice bound is read against a sequence of length `len`: a
      negative bound counts from the end, and the result is clamped to [0, len]. */
  function SliceBound(b: int, len: nat): (c: nat)
    ensures c <= len
    ensures 0 <= b <= len ==> c == b
  {
    if b < 0 then (if b + len < 0 then 0 else b + len)
    else if b > len then len
    else b
  }

  /** Python's `s[start:stop]`: never fails, empty when the bounds cross. */
  function PySlice(s: seq<Record>, start: int, stop: int): (r: seq<Record>)
    ensures |r| <= |s|
  {
    var lo, hi := SliceBound(start, |s|), SliceBound(stop, |s|);
    if lo < hi then s[lo..hi] else []
  }

  /** The rows shown for a page: `view[(page - 1) * 10 : page * 10]`. Never
      more than ten, and from page 1 on they are the view's rows from
      position (page - 1) * 10. */
  function PageRows(view: seq<Record>, page: int): (rows: seq<Record>)
    ensures |rows| <= RowsPerPage && |rows| <= |view|
    ensures page >= 1 ==> forall i :: 0 <= i < |rows| ==>
              (page - 1) * RowsPerPage + i < |view| && rows[i] == view[(page - 1) * RowsPerPage + i]
  {
    PySlice(view, (page - 1) * RowsPerPage, page * RowsPerPage)
  }

  /** A page the slider can offer holds between one and ten rows, a full ten
      on every page but the last, and they are the view's rows from
      position (page - 1) * 10 on. */
  lemma PageInRange(view: seq<Record>, page: int)
    requires 1 <= page <= NumPages(|view|)
    ensures 1 <= |PageRows(view, page)| <= RowsPerPage
    ensures page < NumPages(|view|) ==> |PageRows(view, page)| == RowsPerPage
    ensures forall i :: 0 <= i < |PageRows(view, page)| ==>
              PageRows(view, page)[i] == view[(page - 1) * RowsPerPage + i]
  {
  }

  /** A page past the last one shows nothing rather than failing. */
  lemma PagePastEndIsEmpty(view: seq<Record>, page: int)
    requires page > NumPages(|view|)
    ensures PageRows(view, page) == []
  {
  }

  /** Pages 1 to k, joined in order. */
  function JoinPages(view: seq<Record>, k: nat): seq<Record>
  {
    if k == 0 then [] else JoinPages(view, k - 1) + PageRows(view, k)
  }

  /** The first k pages are the first min(10 k, n) rows of the view. */
  lemma {:induction false} JoinPagesIsPrefix(view: seq<Record>, k: nat)
    ensures k * RowsPerPage <= |view| ==> JoinPages(view, k) == view[..k * RowsPerPage]
    ensures k * RowsPerPage > |view| ==> JoinPages(view, k) == view
  {
    if k > 0 {
      JoinPagesIsPrefix(view, k - 1);
      var lo := (k - 1) * RowsPerPage;
      var hi := k * RowsPerPage;
      if lo < |view| {
        if hi <= |view| {
          assert view[..lo] + view[lo..hi] == view[..hi];
        } else {
          assert view[..lo] + view[lo..] == view;
        }
      }
    }
  }

  /** Paging loses and repeats nothing: the pages 1 to NumPages, joined in
      order, give back the whole view. */
  lemma PagesCoverView(view: seq<Record>)
    ensures JoinPages(view, NumPages(|view|)) == view
  {
    var k := NumPages(|view|);
    JoinPagesIsPrefix(view, k);
    if k * RowsPerPage <= |view| {
      assert view[..k * RowsPerPage] == view;
    }
  }

  /** Two pagination examples: the full 440-row table has 44 pages, and a
      25-row view has 3 pages, the last holding 5 rows. */
  lemma PaginationExamples(view: seq<Record>)
    ensures NumPages(440) == 44
    ensures |view| == 25 ==> NumPages(|view|) == 3 && |PageRows(view, 3)| == 5
  {
  }
}
