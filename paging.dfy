/**
 * Cursor-paged scans as the driver serves them: `execute` with a fetch size
 * and an optional paging state returns one page of rows and, when rows remain,
 * the paging state that resumes the scan after the last row returned.
 */
module Paging {
  import opened Wrappers
  import opened Ints

  /** The driver's continuation token; callers pass it back verbatim. It wraps the number of rows already served. */
  datatype PagingState = PagingState(offset: nat)

  /** One page of a scan (`results.current_rows`) and the paging state for the next (`results.paging_state`). */
  datatype Page<T> = Page(rows: seq<T>, next: Option<PagingState>)

  /** Where a scan resumes: the start without a paging state, otherwise the wrapped offset (at most the end). */
  function Start<T>(rows: seq<T>, state: Option<PagingState>): nat
  {
    if state.None? then 0 else Min(state.value.offset, |rows|)
  }

  /**
   * The page `execute` returns for a scan over `rows` with fetch size
   * `pageSize`. A fetch size of zero or less turns paging off: the rest of
   * the scan comes back as one page.
   */
  function FetchPage<T>(rows: seq<T>, pageSize: int, state: Option<PagingState>): (p: Page<T>)
    ensures Start(rows, state) + |p.rows| <= |rows|
    ensures p.rows == rows[Start(rows, state)..Start(rows, state) + |p.rows|]
    ensures pageSize > 0 ==> |p.rows| == Min(pageSize, |rows| - Start(rows, state))
    ensures pageSize <= 0 ==> Start(rows, state) + |p.rows| == |rows|
    ensures p.next.None? <==> Start(rows, state) + |p.rows| == |rows|
    ensures p.next.Some? ==> p.next.value.offset == Start(rows, state) + |p.rows| && |p.rows| == pageSize
  {
    var start := Start(rows, state);
    if pageSize <= 0 then
      Page(rows[start..], None)
    else
      var end := Min(start + pageSize, |rows|);
      Page(rows[start..end], if end < |rows| then Some(PagingState(end)) else None)
  }

  /** Everything a caller collects by fetching a page, then passing each returned paging state back until none comes back. */
  function ScanFrom<T>(rows: seq<T>, pageSize: int, state: Option<PagingState>): seq<T>
    decreases |rows| - Start(rows, state)
  {
    var page := FetchPage(rows, pageSize, state);
    if page.next.None? then page.rows else page.rows + ScanFrom(rows, pageSize, page.next)
  }

  /** Following the paging states yields every row from the resumption point on, each once and in order. */
  lemma {:induction false} ScanFromRest<T>(rows: seq<T>, pageSize: int, state: Option<PagingState>)
    ensures ScanFrom(rows, pageSize, state) == rows[Start(rows, state)..]
    decreases |rows| - Start(rows, state)
  {
    var page := FetchPage(rows, pageSize, state);
    var start := Start(rows, state);
    if page.next.Some? {
      var end := start + |page.rows|;
      assert Start(rows, page.next) == end;
      ScanFromRest(rows, pageSize, page.next);
      assert rows[start..] == rows[start..end] + rows[end..];
    }
  }

  /** A full scan, begun without a paging state, returns the whole partition: no gaps, no repeats. */
  lemma ScanAll<T>(rows: seq<T>, pageSize: int)
    ensures ScanFrom(rows, pageSize, None) == rows
  {
    ScanFromRest(rows, pageSize, None);
  }
}
