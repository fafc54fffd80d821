/** Cursor paging of log queries: the `next` computation of query_log_page_handler (rust/src/lib.rs) and
    the page walk over QueryLogPage (logpage.go). The query's full result is a fixed sequence of rows. */
module Paging {
  import opened Wrappers
  import opened StreamProtocol

  /** Entries, Next and the RowsReturned of Stats. */
  datatype LogPage<T> = LogPage(entries: seq<T>, next: Option<nat>, rowsReturned: nat)

  /** The engine's page: skip the rows consumed so far, keep at most `limit` (`deflt` when unset). */
  function PageRows<T>(rows: seq<T>, limit: int, deflt: nat, offset: nat): seq<T> {
    var from := if offset <= |rows| then offset else |rows|;
    var n := if limit > 0 then limit else deflt;
    if from + n <= |rows| then rows[from..from + n] else rows[from..]
  }

  /** The metadata the handler stashes: a cursor past the rows consumed iff the page was full. */
  function PageMetaOf(limit: int, prevOffset: nat, rowsReturned: nat): PageMeta {
    PageMeta(if limit > 0 && rowsReturned >= limit then Some(prevOffset + rowsReturned) else None, rowsReturned)
  }

  /** Cursor.HasMore */
  predicate HasMore(next: Option<nat>) {
    next.Some?
  }

  /** One QueryLogPage call that ends without an error. */
  function QueryLogPage<T>(rows: seq<T>, limit: int, deflt: nat, after: Option<nat>): LogPage<T> {
    var offset := if after.Some? then after.value else 0;
    var entries := PageRows(rows, limit, deflt, offset);
    var meta := PageMetaOf(limit, offset, |entries|);
    LogPage(entries, meta.next, meta.rowsReturned)
  }

  lemma MultiplesSpread(k: int, d: int)
    requires d > 0
    ensures k >= 1 ==> k * d >= d
    ensures k <= -1 ==> k * d <= -d
  {
  }

  lemma QuotientIs(n: nat, d: nat, q: nat, r: nat)
    requires d > 0 && n == q * d + r && r < d
    ensures n / d == q
  {
    MultiplesSpread(n / d - q, d);
    assert (n / d - q) * d == r - n % d;
  }

  /** Rows `from`, `from` + 1, ... of the result: as many as `most`, or all that are left. */
  ghost predicate IsStretch<T>(rows: seq<T>, from: nat, most: nat, part: seq<T>) {
    && |part| == (if from >= |rows| then 0 else if |rows| - from < most then |rows| - from else most)
    && forall i :: 0 <= i < |part| ==> from + i < |rows| && part[i] == rows[from + i]
  }

  /** One page, for every limit and cursor: the rows from the cursor's offset on, at most `limit` of them or
      the engine's default without one; a cursor exactly when a limit was given and reached, and it stands
      behind the rows of this page; the statistics count them. */
  lemma PageIs<T>(rows: seq<T>, limit: int, deflt: nat, after: Option<nat>)
    ensures var p, from := QueryLogPage(rows, limit, deflt, after), if after.Some? then after.value else 0;
            && IsStretch(rows, from, if limit > 0 then limit else deflt, p.entries)
            && (HasMore(p.next) <==> limit > 0 && |p.entries| == limit)
            && (HasMore(p.next) ==> p.next == Some(from + |p.entries|))
            && p.rowsReturned == |p.entries|
  {
  }

  /** The documented walk: start without a cursor, follow Next while HasMore. With a limit it ends after
      exactly n/limit + 1 pages, which concatenate to the unpaged result; without one after a single page
      of the engine's default size. */
  method WalkPages<T>(rows: seq<T>, limit: int, deflt: nat) returns (got: seq<T>, pages: nat)
    ensures limit > 0 ==> got == rows && pages == |rows| / limit + 1
    ensures limit <= 0 ==> pages == 1 && IsStretch(rows, 0, deflt, got)
  {
    var page := QueryLogPage(rows, limit, deflt, None);
    PageIs(rows, limit, deflt, None);
    got, pages := page.entries, 1;
    while HasMore(page.next)
      invariant pages > 0 && limit <= 0 ==> !HasMore(page.next) && pages == 1 && IsStretch(rows, 0, deflt, got)
      invariant limit > 0 ==> WalkedTo(rows, limit, got, pages, page)
      decreases |rows| - |got| + (if HasMore(page.next) then 1 else 0)
    {
      ghost var before := page.next.value;
      PageIs(rows, limit, deflt, page.next);
      page := QueryLogPage(rows, limit, deflt, page.next);
      WalkOn(rows, limit, got, pages, before, page);
      got := got + page.entries;
      pages := pages + 1;
    }
    if limit > 0 {
      QuotientIs(|rows|, limit, pages - 1, |page.entries|);
      assert rows[..|rows|] == rows;
    }
  }

  /** After `pages` pages: all were full but perhaps the last, and they are the front of the result. */
  ghost predicate WalkedTo<T>(rows: seq<T>, limit: nat, got: seq<T>, pages: nat, page: LogPage<T>) {
    && pages > 0 && |page.entries| <= limit
    && |got| == (pages - 1) * limit + |page.entries| <= |rows| && got == rows[..|got|]
    && (if HasMore(page.next) then |page.entries| == limit && page.next == Some(|got|)
        else |page.entries| < limit && |got| == |rows|)
  }

  lemma WalkOn<T>(rows: seq<T>, limit: nat, got: seq<T>, pages: nat, from: nat, page: LogPage<T>)
    requires limit > 0 && pages > 0 && |got| == pages * limit == from <= |rows| && got == rows[..|got|]
    requires IsStretch(rows, from, limit, page.entries)
    requires HasMore(page.next) <==> |page.entries| == limit
    requires HasMore(page.next) ==> page.next == Some(from + |page.entries|)
    ensures WalkedTo(rows, limit, got + page.entries, pages + 1, page)
  {
    var more := got + page.entries;
    forall i | 0 <= i < |more|
      ensures more[i] == rows[i]
    {
      assert i >= from ==> more[i] == page.entries[i - from] == rows[from + (i - from)];
    }
    assert more == rows[..|more|];
  }

  /** HasMore promises "a following page exists"; there is one, but it holds no row exactly when this
      page ended at the last row. */
  lemma HasMoreExactly<T>(rows: seq<T>, limit: int, deflt: nat, offset: nat)
    requires offset <= |rows|
    ensures var p := QueryLogPage(rows, limit, deflt, Some(offset));
            && (HasMore(p.next) <==> limit > 0 && |p.entries| == limit)
            && (HasMore(p.next) ==>
                  (QueryLogPage(rows, limit, deflt, p.next).entries == [] <==> offset + limit == |rows|))
            && (limit > 0 && !HasMore(p.next) ==> offset + |p.entries| == |rows|)
  {
    var p := QueryLogPage(rows, limit, deflt, Some(offset));
    if HasMore(p.next) {
      assert p.next == Some(offset + limit);
    }
  }
}
