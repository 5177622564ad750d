/** Walking the pages of a list that does not change meanwhile
    (internal/tools/helpers_pagination.go, internal/tools/entries.go). */
module Pagination {
  import opened JsonValue

  const DEFAULT_MAX_ROWS := 5000
  const HARD_MAX_ROWS := 50000
  const SCAN_PAGE_SIZE := 200
  const SAFETY_STOP_PAGES := 1000

  datatype Args = Args(page: Option<int>, pageSize: Option<int>, autoPaginate: bool, maxRows: Option<int>)

  /** The server's list, and the (page, page size) requests that fail. */
  datatype Upstream<T> = Upstream(rows: seq<T>, failing: set<(int, int)>)

  datatype Batch<T> = Batch(items: seq<T>, page: int, pageSize: int) | Failed

  function IntArg(arg: Option<int>, fallback: int): int {
    match arg
    case Some(n) => n
    case None => fallback
  }

  function PaginationFromArgs(args: Args): (r: (int, int))
    ensures r.0 >= 1 && 1 <= r.1 <= 200
    ensures r.0 == if args.page.Some? && args.page.value >= 1 then args.page.value else 1
    ensures args.pageSize.None? || args.pageSize.value < 1 ==> r.1 == 50
    ensures args.pageSize.Some? && args.pageSize.value >= 1 ==> r.1 == Min(args.pageSize.value, 200)
  {
    var page := IntArg(args.page, 1);
    var pageSize := IntArg(args.pageSize, 50);
    var pageSize := if pageSize < 1 then 50 else pageSize;
    (if page < 1 then 1 else page, if pageSize > 200 then 200 else pageSize)
  }

  function MaxRowsArg(args: Args): (n: int)
    ensures 1 <= n <= HARD_MAX_ROWS
    ensures args.maxRows.None? || args.maxRows.value <= 0 ==> n == 5000
    ensures args.maxRows.Some? && args.maxRows.value >= 1 ==> n == Min(args.maxRows.value, 50000)
  {
    var n := IntArg(args.maxRows, DEFAULT_MAX_ROWS);
    if n <= 0 then DEFAULT_MAX_ROWS else if n > HARD_MAX_ROWS then HARD_MAX_ROWS else n
  }

  /** How many rows come before a page. */
  function Offset(page: int, size: int): (offset: int)
    requires page >= 1 && size >= 1
    ensures offset >= 0
    ensures page == 1 <==> offset == 0
  {
    (page - 1) * size
  }

  function PageOf<T>(rows: seq<T>, page: int, size: int): (items: seq<T>)
    requires page >= 1 && size >= 1
    ensures |items| <= size
  {
    var from := Min(Offset(page, size), |rows|);
    rows[from..Min(from + size, |rows|)]
  }

  /** One list call: the request carries the clamped page and page size. */
  function List<T>(up: Upstream<T>, args: Args): Batch<T> {
    var (page, size) := PaginationFromArgs(args);
    if (page, size) in up.failing then Failed else Batch(PageOf(up.rows, page, size), page, size)
  }

  // ---------------------------------------------------------------------
  // Pages and the list they cut up
  // ---------------------------------------------------------------------

  ghost function Pages<T>(rows: seq<T>, size: int, count: nat): seq<T>
    requires size >= 1
  {
    if count == 0 then [] else Pages(rows, size, count - 1) + PageOf(rows, count, size)
  }

  /** The first pages, one after the other, are the start of the list: no row is
      skipped or repeated, whatever the page size. */
  lemma {:induction false} PagesConcatenate<T>(rows: seq<T>, size: int, count: nat)
    requires size >= 1
    ensures 0 <= count * size
    ensures Pages(rows, size, count) == rows[..Min(count * size, |rows|)]
  {
    if count > 0 {
      PagesConcatenate(rows, size, count - 1);
      assert count * size == (count - 1) * size + size;
    }
  }

  /** A page is short exactly when the list ends within it. */
  lemma ShortPage<T>(rows: seq<T>, page: int, size: int)
    requires page >= 1 && size >= 1
    ensures |PageOf(rows, page, size)| < size <==> |rows| < page * size
  {
    assert page * size == (page - 1) * size + size;
    assert (page - 1) * size >= 0;
  }

  /** What a client has after asking for the first `count` pages one by one. */
  ghost function Collected<T>(up: Upstream<T>, size: int, count: nat): Option<seq<T>> {
    if count == 0 then Some([]) else
      var before := Collected(up, size, count - 1);
      match List(up, Args(Some(count), Some(size), false, None))
      case Batch(items, _, _) => if before.Some? then Some(before.value + items) else None
      case Failed => None
  }

  lemma {:induction false} CollectedArePages<T>(up: Upstream<T>, size: int, count: nat)
    requires 1 <= size <= 200
    ensures Collected(up, size, count).Some? ==> Collected(up, size, count).value == Pages(up.rows, size, count)
  {
    if count > 0 {
      CollectedArePages(up, size, count - 1);
    }
  }

  /** `items` are what single-page calls collect, whatever their page size and
      number: one is the start of the other, and a result that is not truncated
      is never the shorter one. */
  ghost predicate AgreesWithPages<T>(up: Upstream<T>, items: seq<T>, truncated: bool) {
    forall size: int, count: nat :: 1 <= size <= 200 && Collected(up, size, count).Some? ==>
      var collected := Collected(up, size, count).value;
      (items <= collected || collected <= items) && (!truncated ==> collected <= items)
  }

  lemma PrefixAgrees<T>(up: Upstream<T>, items: seq<T>, truncated: bool)
    requires items <= up.rows && (!truncated ==> items == up.rows)
    ensures AgreesWithPages(up, items, truncated)
  {
    forall size: int, count: nat | 1 <= size <= 200 && Collected(up, size, count).Some?
      ensures Collected(up, size, count).value <= up.rows
    {
      CollectedArePages(up, size, count);
      PagesConcatenate(up.rows, size, count);
    }
  }

  // ---------------------------------------------------------------------
  // Auto-pagination
  // ---------------------------------------------------------------------

  /** How many pages a scan of `total` rows fetches when it stops at a short page
      or once `enough` rows are there. */
  function PagesFetched(total: nat, enough: int): int {
    if total >= enough then (enough + SCAN_PAGE_SIZE - 1) / SCAN_PAGE_SIZE else total / SCAN_PAGE_SIZE + 1
  }

  /** A scan asks for a page exactly if the pages before it were full and held fewer
      rows than `enough`. */
  lemma FetchedExactly(total: nat, enough: int, page: int)
    requires page >= 1 && enough >= 1
    ensures page <= PagesFetched(total, enough) <==>
            page == 1 || ((page - 1) * 200 <= total && (page - 1) * 200 < enough)
  {
  }

  ghost predicate SomePageFails<T>(up: Upstream<T>, pages: int) {
    exists p :: 1 <= p <= pages && (p, SCAN_PAGE_SIZE) in up.failing
  }

  method RunListWithAutoPaginate<T>(up: Upstream<T>, args: Args)
    returns (items: seq<T>, page: int, pageSize: int, autoPaginated: bool, truncated: bool, failed: bool)
    ensures (page, pageSize) == PaginationFromArgs(args) && autoPaginated == args.autoPaginate
    ensures !autoPaginated ==>
              && (failed <==> (page, pageSize) in up.failing)
              && (!failed ==> items == PageOf(up.rows, page, pageSize))
              && !truncated
    ensures autoPaginated ==>
              var maxRows := MaxRowsArg(args);
              && (failed <==> SomePageFails(up, PagesFetched(|up.rows|, maxRows)))
              && (!failed ==> items == up.rows[..Min(|up.rows|, maxRows)])
              && (!failed ==> (truncated <==> |up.rows| >= maxRows))
              // the flag is wrong about a complete result at exactly one length
              && (!failed ==> (truncated && items == up.rows <==> |up.rows| == maxRows))
    ensures !failed && autoPaginated && !truncated ==> items == up.rows
    ensures !failed && autoPaginated ==> AgreesWithPages(up, items, truncated)
    ensures failed ==> items == [] && !truncated
  {
    hide PageOf;
    hide AgreesWithPages;
    var (requestedPage, requestedPageSize) := PaginationFromArgs(args);
    if !args.autoPaginate {
      var batch := List(up, args);
      items, page, pageSize, failed := [], 0, 0, batch.Failed?;
      if batch.Batch? {
        items, page, pageSize := batch.items, batch.page, batch.pageSize;
      }
      if page == 0 {
        page := requestedPage;
      }
      if pageSize == 0 {
        pageSize := requestedPageSize;
      }
      return items, page, pageSize, false, false, failed;
    }
    var maxRows := MaxRowsArg(args);
    var all: seq<T> := [];
    var pageNumber := 1;
    while pageNumber <= SAFETY_STOP_PAGES
      invariant 1 <= pageNumber <= SAFETY_STOP_PAGES + 1
      invariant all == Pages(up.rows, SCAN_PAGE_SIZE, pageNumber - 1)
      invariant (pageNumber - 1) * SCAN_PAGE_SIZE <= |up.rows| && (pageNumber - 1) * SCAN_PAGE_SIZE < maxRows
      invariant !SomePageFails(up, pageNumber - 1)
    {
      var scanArgs := Args(Some(pageNumber), Some(SCAN_PAGE_SIZE), false, None);
      var batch := List(up, scanArgs);
      PagesConcatenate(up.rows, SCAN_PAGE_SIZE, pageNumber);
      ShortPage(up.rows, pageNumber, SCAN_PAGE_SIZE);
      if batch.Failed? {
        return [], requestedPage, requestedPageSize, true, false, true;
      }
      all := all + batch.items;
      if |all| >= maxRows {
        if |all| > maxRows {
          all := all[..maxRows];
        }
        PrefixAgrees(up, all, true);
        return all, requestedPage, requestedPageSize, true, true, false;
      }
      if batch.pageSize == 0 || |batch.items| < batch.pageSize {
        PrefixAgrees(up, all, false);
        return all, requestedPage, requestedPageSize, true, false, false;
      }
      pageNumber := pageNumber + 1;
    }
    // 1000 full pages are 200000 rows, four times the largest row cap.
    assert false;
  }

  // ---------------------------------------------------------------------
  // Entries of one project
  // ---------------------------------------------------------------------

  datatype Scan<T> =
    | Scan(selected: seq<T>, filteredCount: nat, pagesFetched: nat, entriesScanned: nat)
    | UpstreamError
    | SafetyStop

  /** The rows a scan keeps: all of them when the server did the filtering. */
  function Kept<T>(rows: seq<T>, byServer: bool, matches: T -> bool): seq<T> {
    if rows == [] then [] else
      var last := rows[|rows| - 1];
      Kept(rows[..|rows| - 1], byServer, matches) + if byServer || matches(last) then [last] else []
  }

  /** What is kept is the rows, in the server's order, at exactly the places where the
      server did the filtering or the row matches. */
  lemma {:induction false} KeptExactly<T>(rows: seq<T>, byServer: bool, matches: T -> bool) returns (places: seq<nat>)
    ensures forall i, j :: 0 <= i < j < |places| ==> places[i] < places[j]
    ensures forall p: nat :: p in places <==> p < |rows| && (byServer || matches(rows[p]))
    ensures |Kept(rows, byServer, matches)| == |places|
    ensures forall i :: 0 <= i < |places| ==> places[i] < |rows| && Kept(rows, byServer, matches)[i] == rows[places[i]]
  {
    places := [];
    if rows != [] {
      var n := |rows| - 1;
      places := KeptExactly(rows[..n], byServer, matches);
      forall i | 0 <= i < |places|
        ensures places[i] < n
      {
        assert places[i] in places;
      }
      if byServer || matches(rows[n]) {
        places := places + [n];
      }
    }
  }

  lemma {:induction false} KeptInParts<T>(a: seq<T>, b: seq<T>, byServer: bool, matches: T -> bool)
    ensures Kept(a + b, byServer, matches) == Kept(a, byServer, matches) + Kept(b, byServer, matches)
    decreases |b|
  {
    if b == [] {
      assert a + b == a;
    } else {
      assert (a + b)[..|a + b| - 1] == a + b[..|b| - 1];
      KeptInParts(a, b[..|b| - 1], byServer, matches);
    }
  }

  /** The part of `rows` at offsets from `from` up to `to`. */
  function Window<T>(rows: seq<T>, from: int, to: int): seq<T>
    requires 0 <= from <= to
  {
    rows[Min(from, |rows|)..Min(to, |rows|)]
  }

  lemma WindowGrows<T>(rows: seq<T>, row: T, from: int, to: int)
    requires 0 <= from <= to
    ensures Window(rows + [row], from, to) == Window(rows, from, to) + if from <= |rows| < to then [row] else []
  {
  }

  lemma WindowIsPage<T>(rows: seq<T>, page: int, size: int)
    requires page >= 1 && size >= 1
    ensures Window(rows, Offset(page, size), Offset(page, size) + size) == PageOf(rows, page, size)
  {
    hide Offset;
  }

  lemma NothingKept<T>(byServer: bool, matches: T -> bool, from: int, to: int)
    requires 0 <= from <= to
    ensures Kept([], byServer, matches) == [] && Window(Kept([], byServer, matches), from, to) == []
  {
  }

  /** A page follows on from the rows before it, and is short only at the end. */
  lemma PageExtends<T>(rows: seq<T>, page: int, size: int, seen: int)
    requires page >= 1 && size >= 1 && seen == Offset(page, size) <= |rows|
    ensures var items := PageOf(rows, page, size);
            && |items| == Min(size, |rows| - seen)
            && rows[..seen + |items|] == rows[..seen] + items
            && (|items| < size ==> rows[..seen + |items|] == rows)
  {
    hide Offset;
  }

  lemma ScanOffset(page: int)
    requires page >= 1
    ensures Offset(page, SCAN_PAGE_SIZE) == (page - 1) * SCAN_PAGE_SIZE
  {
  }

  method SelectFrom<T>(batch: seq<T>, byServer: bool, matches: T -> bool, from: int, to: int, ghost before: seq<T>,
                       selected0: seq<T>, filteredCount0: nat)
    returns (selected: seq<T>, filteredCount: nat)
    requires 0 <= from <= to
    requires selected0 == Window(before, from, to) && filteredCount0 == |before|
    ensures selected == Window(before + Kept(batch, byServer, matches), from, to)
    ensures filteredCount == |before + Kept(batch, byServer, matches)|
  {
    hide Window;
    selected, filteredCount := selected0, filteredCount0;
    assert before + Kept(batch[..0], byServer, matches) == before;
    for i := 0 to |batch|
      invariant selected == Window(before + Kept(batch[..i], byServer, matches), from, to)
      invariant filteredCount == |before + Kept(batch[..i], byServer, matches)|
    {
      var entry := batch[i];
      assert batch[..i + 1][..i] == batch[..i];
      if !byServer && !matches(entry) {
        assert Kept(batch[..i + 1], byServer, matches) == Kept(batch[..i], byServer, matches);
        continue;
      }
      assert before + Kept(batch[..i + 1], byServer, matches) == before + Kept(batch[..i], byServer, matches) + [entry];
      WindowGrows(before + Kept(batch[..i], byServer, matches), entry, from, to);
      if filteredCount >= from && filteredCount < to {
        selected := selected + [entry];
      }
      filteredCount := filteredCount + 1;
    }
    assert batch[..|batch|] == batch;
  }

  /** The scan after the first `seen` rows. */
  ghost predicate Scanned<T>(rows: seq<T>, byServer: bool, matches: T -> bool, from: int, to: int, seen: int,
                             selected: seq<T>, filteredCount: int)
    requires 0 <= from <= to
  {
    && 0 <= seen <= |rows|
    && selected == Window(Kept(rows[..seen], byServer, matches), from, to)
    && filteredCount == |Kept(rows[..seen], byServer, matches)|
  }

  method ScanBatch<T>(ghost rows: seq<T>, byServer: bool, matches: T -> bool, from: int, to: int, ghost seen: int,
                      batch: seq<T>, selected0: seq<T>, filteredCount0: nat)
    returns (selected: seq<T>, filteredCount: nat)
    requires 0 <= from <= to && Scanned(rows, byServer, matches, from, to, seen, selected0, filteredCount0)
    requires seen + |batch| <= |rows| && rows[..seen + |batch|] == rows[..seen] + batch
    ensures Scanned(rows, byServer, matches, from, to, seen + |batch|, selected, filteredCount)
  {
    hide Window;
    hide Kept;
    KeptInParts(rows[..seen], batch, byServer, matches);
    selected, filteredCount := SelectFrom(batch, byServer, matches, from, to,
                                          Kept(rows[..seen], byServer, matches), selected0, filteredCount0);
  }

  lemma ScanStarts<T>(rows: seq<T>, byServer: bool, matches: T -> bool, from: int, to: int)
    requires 0 <= from <= to
    ensures Scanned(rows, byServer, matches, from, to, 0, [], 0)
  {
    assert rows[..0] == [];
    NothingKept(byServer, matches, from, to);
  }

  lemma ScanEnds<T>(rows: seq<T>, byServer: bool, matches: T -> bool, page: int, pageSize: int,
                    selected: seq<T>, filteredCount: int)
    requires page >= 1 && pageSize >= 1
    requires var from := Offset(page, pageSize);
             Scanned(rows, byServer, matches, from, from + pageSize, |rows|, selected, filteredCount)
    ensures selected == PageOf(Kept(rows, byServer, matches), page, pageSize)
    ensures filteredCount == |Kept(rows, byServer, matches)|
  {
    assert rows[..|rows|] == rows;
    WindowIsPage(Kept(rows, byServer, matches), page, pageSize);
    hide Window;
    hide PageOf;
    hide Kept;
    hide Offset;
  }

  /** A page of the scan follows on from the rows seen, and is short only at the end. */
  lemma ScanPage<T>(rows: seq<T>, page: int, seen: int)
    requires page >= 1 && seen == (page - 1) * SCAN_PAGE_SIZE <= |rows|
    ensures var batch := PageOf(rows, page, SCAN_PAGE_SIZE);
            && seen + |batch| <= |rows| && rows[..seen + |batch|] == rows[..seen] + batch
            && |batch| <= SCAN_PAGE_SIZE
            && (|batch| < SCAN_PAGE_SIZE ==> seen + |batch| == |rows| && |rows| / SCAN_PAGE_SIZE + 1 == page)
  {
    ScanOffset(page);
    PageExtends(rows, page, SCAN_PAGE_SIZE, seen);
    hide PageOf;
    hide Offset;
  }

  method ListEntriesWithProjectFilter<T>(up: Upstream<T>, byServer: bool, matches: T -> bool, page: int, pageSize: int)
    returns (r: Scan<T>)
    requires page >= 1 && pageSize >= 1
    ensures var needed := |up.rows| / SCAN_PAGE_SIZE + 1;
            var kept := Kept(up.rows, byServer, matches);
            r == if SomePageFails(up, Min(needed, SAFETY_STOP_PAGES)) then UpstreamError
                 else if |up.rows| >= 200000 then SafetyStop
                 else Scan(PageOf(kept, page, pageSize), |kept|, needed, |up.rows|)
  {
    hide Kept;
    hide PageOf;
    hide Offset;
    hide Window;
    hide Scanned;
    var selected: seq<T> := [];
    var filteredCount := 0;
    var entriesScanned := 0;
    var pagesFetched := 0;
    var startOffset := Offset(page, pageSize);
    var endOffset := startOffset + pageSize;
    ScanStarts(up.rows, byServer, matches, startOffset, endOffset);
    var upstreamPage := 1;
    while upstreamPage <= SAFETY_STOP_PAGES
      invariant 1 <= upstreamPage <= SAFETY_STOP_PAGES + 1
      invariant entriesScanned == (upstreamPage - 1) * SCAN_PAGE_SIZE <= |up.rows| && pagesFetched == upstreamPage - 1
      invariant Scanned(up.rows, byServer, matches, startOffset, endOffset, entriesScanned, selected, filteredCount)
      invariant !SomePageFails(up, upstreamPage - 1)
    {
      if (upstreamPage, SCAN_PAGE_SIZE) in up.failing {
        return UpstreamError;
      }
      var batch := PageOf(up.rows, upstreamPage, SCAN_PAGE_SIZE);
      ScanPage(up.rows, upstreamPage, entriesScanned);
      pagesFetched := pagesFetched + 1;
      selected, filteredCount := ScanBatch(up.rows, byServer, matches, startOffset, endOffset, entriesScanned,
                                           batch, selected, filteredCount);
      entriesScanned := entriesScanned + |batch|;
      if |batch| < SCAN_PAGE_SIZE {
        ScanEnds(up.rows, byServer, matches, page, pageSize, selected, filteredCount);
        return Scan(selected, filteredCount, pagesFetched, entriesScanned);
      }
      upstreamPage := upstreamPage + 1;
    }
    return SafetyStop;
  }

  /** Walking the filtered pages in order collects the filtered rows, each once
      and in the server's order. */
  lemma FilteredPagesConcatenate<T>(rows: seq<T>, byServer: bool, matches: T -> bool, pageSize: int, count: nat)
    requires pageSize >= 1 && count * pageSize >= |rows|
    ensures Pages(Kept(rows, byServer, matches), pageSize, count) == Kept(rows, byServer, matches)
  {
    KeptIsShorter(rows, byServer, matches);
    PagesConcatenate(Kept(rows, byServer, matches), pageSize, count);
  }

  lemma {:induction false} KeptIsShorter<T>(rows: seq<T>, byServer: bool, matches: T -> bool)
    ensures |Kept(rows, byServer, matches)| <= |rows|
  {
    if rows != [] {
      KeptIsShorter(rows[..|rows| - 1], byServer, matches);
    }
  }
}
