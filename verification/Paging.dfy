/**
 Result paging over a streamed file.

 One pass serves an ascending page by counting and a descending page through a sliding window of the last rows.
 Following the cursors delivers every matching row exactly once, for any page sizes.
 */
module Paging {
  import opened Outcomes
  import opened Sequences

  datatype Sort = IndexAsc | IndexDesc

  /** One parsed row; the time is an instant on one scale. */
  datatype ResultPoint<V> = ResultPoint(index: nat, time: int, value: V)

  /** What the CSV reader yields: a parsed row or one it rejects. */
  datatype CsvRow<V> = Row(point: ResultPoint<V>) | InvalidRow

  datatype ResultQuery = ResultQuery(limit: nat, sort: Sort, indexFrom: Option<int>, indexTo: Option<int>,
                                     from: Option<int>, to: Option<int>, after: Option<int>)

  datatype ResultPage<V> = ResultPage(items: seq<ResultPoint<V>>, hasMore: bool, nextCursor: Option<int>, total: nat)

  // ---------------------------------------------------------------- which rows belong to a query

  predicate MatchesResultFilter<V>(point: ResultPoint<V>, query: ResultQuery) {
    && !(query.indexFrom.Some? && point.index < query.indexFrom.value)
    && !(query.indexTo.Some? && point.index > query.indexTo.value)
    && !(query.from.Some? && point.time < query.from.value)
    && !(query.to.Some? && point.time > query.to.value)
  }

  /** Whether the cursor lets the row through. */
  predicate PastCursor<V>(point: ResultPoint<V>, query: ResultQuery) {
    match query.sort
    case IndexAsc => !(query.after.Some? && point.index <= query.after.value)
    case IndexDesc => !(query.after.Some? && point.index >= query.after.value)
  }

  /** The rows that match the filters, in file order. */
  function Matching<V>(points: seq<ResultPoint<V>>, query: ResultQuery): seq<ResultPoint<V>> {
    if points == [] then []
    else
      var last := |points| - 1;
      Matching(points[..last], query) + if MatchesResultFilter(points[last], query) then [points[last]] else []
  }

  /** The rows that also lie past the cursor, in file order. */
  function Eligible<V>(points: seq<ResultPoint<V>>, query: ResultQuery): seq<ResultPoint<V>> {
    if points == [] then []
    else
      var last := |points| - 1;
      Eligible(points[..last], query)
      + if MatchesResultFilter(points[last], query) && PastCursor(points[last], query) then [points[last]] else []
  }

  /** What is still to be delivered, in the order of delivery. */
  function Remaining<V>(points: seq<ResultPoint<V>>, query: ResultQuery): seq<ResultPoint<V>> {
    if query.sort.IndexAsc? then Eligible(points, query) else Reversed(Eligible(points, query))
  }

  function Min(a: nat, b: nat): nat {
    if a < b then a else b
  }

  /** The page a query deserves: the first rows still to be delivered, and whether there are more. */
  function PageOf<V>(points: seq<ResultPoint<V>>, query: ResultQuery): (page: ResultPage<V>)
    requires query.limit > 0
  {
    var remaining := Remaining(points, query);
    var items := remaining[..Min(query.limit, |remaining|)];
    var hasMore := |remaining| > query.limit;
    ResultPage(items, hasMore, if hasMore then Some(items[|items| - 1].index) else None, |Matching(points, query)|)
  }

  // ---------------------------------------------------------------- the streaming reader

  function Points<V>(rows: seq<CsvRow<V>>): (points: seq<ResultPoint<V>>)
    requires InvalidRow !in rows
    ensures |points| == |rows|
  {
    seq(|rows|, i requires 0 <= i < |rows| => assert rows[i] in rows; rows[i].point)
  }

  /**
   The one pass over the file. The window of a descending page never holds more rows than the page, which is the
   bound on memory.
   */
  method ReadResultCsvPage<V(==)>(rows: seq<CsvRow<V>>, query: ResultQuery) returns (r: Result<ResultPage<V>>)
    requires query.limit > 0
    ensures InvalidRow in rows ==> r == Failed("ARTIFACT_INTEGRITY_ERROR")
    ensures InvalidRow !in rows ==> r == Ok(PageOf(Points(rows), query))
  {
    hide Matching, Eligible, MatchesResultFilter, PastCursor, FirstRows, LastRows, PageOf;
    var items: seq<ResultPoint<V>> := [];
    var descendingRing: seq<ResultPoint<V>> := [];
    var hasMore, total := false, 0;
    NothingScanned<V>(query);
    for n := 0 to |rows|
      invariant InvalidRow !in rows[..n]
      invariant Scanned(Points(rows[..n]), query, items, descendingRing, hasMore, total)
    {
      assert rows[..n + 1] == rows[..n] + [rows[n]];
      if rows[n].InvalidRow? {
        return Failed("ARTIFACT_INTEGRITY_ERROR");
      }
      var point := rows[n].point;
      ghost var before := Points(rows[..n]);
      assert Points(rows[..n + 1]) == before + [point];
      ScanStep(before, point, query);
      FirstRowsAppend(Eligible(before, query), point, query.limit);
      LastRowsAppend(Eligible(before, query), point, query.limit);
      if MatchesResultFilter(point, query) {
        total := total + 1;
        if PastCursor(point, query) {
          if query.sort.IndexAsc? {
            if |items| < query.limit {
              items := items + [point];
            } else {
              hasMore := true;
            }
          } else {
            if |descendingRing| == query.limit {
              descendingRing := descendingRing[1..];
              hasMore := true;
            }
            descendingRing := descendingRing + [point];
          }
        }
      }
    }
    assert rows[..|rows|] == rows;
    if query.sort.IndexDesc? {
      for k := |descendingRing| downto 0
        invariant |items| == |descendingRing| - k
        invariant forall j :: 0 <= j < |items| ==> items[j] == descendingRing[|descendingRing| - 1 - j]
      {
        items := items + [descendingRing[k]];
      }
      assert items == Reversed(descendingRing);
    }
    var nextCursor: Option<int> := None;
    if |items| > 0 && hasMore {
      nextCursor := Some(items[|items| - 1].index);
    }
    PageAssembled(Points(rows), query, items, hasMore, nextCursor, total);
    return Ok(ResultPage(items, hasMore, nextCursor, total));
  }

  /** What the loop has gathered from the rows read so far. */
  ghost predicate Scanned<V>(points: seq<ResultPoint<V>>, query: ResultQuery, items: seq<ResultPoint<V>>,
                             ring: seq<ResultPoint<V>>, hasMore: bool, total: nat) {
    && total == |Matching(points, query)|
    && (hasMore <==> |Eligible(points, query)| > query.limit)
    && (query.sort.IndexAsc? ==> ring == [] && items == FirstRows(Eligible(points, query), query.limit))
    && (query.sort.IndexDesc? ==> items == [] && ring == LastRows(Eligible(points, query), query.limit))
    && |items| <= query.limit && |ring| <= query.limit
  }

  lemma NothingScanned<V>(query: ResultQuery)
    ensures Scanned<V>([], query, [], [], false, 0)
  {
  }

  lemma ScanStep<V>(points: seq<ResultPoint<V>>, point: ResultPoint<V>, query: ResultQuery)
    ensures Matching(points + [point], query)
         == Matching(points, query) + if MatchesResultFilter(point, query) then [point] else []
    ensures Eligible(points + [point], query)
         == Eligible(points, query)
            + if MatchesResultFilter(point, query) && PastCursor(point, query) then [point] else []
  {
    assert (points + [point])[..|points|] == points;
  }

  lemma FirstRowsAppend<T>(s: seq<T>, p: T, limit: nat)
    ensures FirstRows(s + [], limit) == FirstRows(s, limit) && |FirstRows(s, limit)| == Min(limit, |s|)
    ensures FirstRows(s + [p], limit) == if |s| < limit then FirstRows(s, limit) + [p] else FirstRows(s, limit)
  {
    assert s + [] == s;
  }

  lemma LastRowsAppend<T>(s: seq<T>, p: T, limit: nat)
    requires limit > 0
    ensures LastRows(s + [], limit) == LastRows(s, limit) && |LastRows(s, limit)| == Min(limit, |s|)
    ensures LastRows(s + [p], limit) == (if |s| < limit then LastRows(s, limit) else LastRows(s, limit)[1..]) + [p]
  {
    assert s + [] == s;
  }

  lemma PageAssembled<V>(points: seq<ResultPoint<V>>, query: ResultQuery, items: seq<ResultPoint<V>>, hasMore: bool,
                         nextCursor: Option<int>, total: nat)
    requires query.limit > 0 && total == |Matching(points, query)|
    requires items == if query.sort.IndexAsc? then FirstRows(Eligible(points, query), query.limit)
                      else Reversed(LastRows(Eligible(points, query), query.limit))
    requires hasMore <==> |Eligible(points, query)| > query.limit
    requires nextCursor == if |items| > 0 && hasMore then Some(items[|items| - 1].index) else None
    ensures ResultPage(items, hasMore, nextCursor, total) == PageOf(points, query)
  {
    hide Matching, Eligible;
    LastRowsReversed(Eligible(points, query), query.limit);
  }

  function FirstRows<T>(s: seq<T>, limit: nat): seq<T> {
    s[..Min(limit, |s|)]
  }

  function LastRows<T>(s: seq<T>, limit: nat): seq<T> {
    s[|s| - Min(limit, |s|)..]
  }

  lemma LastRowsReversed<T>(s: seq<T>, limit: nat)
    ensures Reversed(LastRows(s, limit)) == FirstRows(Reversed(s), limit)
  {
  }

  // ---------------------------------------------------------------- following the cursors

  ghost predicate StrictlyIncreasing<V>(points: seq<ResultPoint<V>>) {
    forall i, j :: 0 <= i < j < |points| ==> points[i].index < points[j].index
  }

  function WithCursor(query: ResultQuery, limit: nat, after: Option<int>): ResultQuery {
    query.(limit := limit, after := after)
  }

  lemma {:induction false} LimitDoesNotSelect<V>(points: seq<ResultPoint<V>>, query: ResultQuery, limit: nat,
                                                 after: Option<int>)
    ensures Eligible(points, WithCursor(query, limit, after)) == Eligible(points, query.(after := after))
    ensures Matching(points, WithCursor(query, limit, after)) == Matching(points, query)
  {
    if points != [] {
      LimitDoesNotSelect(points[..|points| - 1], query, limit, after);
    }
  }

  /** The eligible rows are the matching rows past the cursor. */
  lemma {:induction false} EligibleOfMatching<V>(points: seq<ResultPoint<V>>, query: ResultQuery)
    ensures Eligible(points, query) == Eligible(Matching(points, query), query)
  {
    if points != [] {
      var last := |points| - 1;
      EligibleOfMatching(points[..last], query);
      var before := Matching(points[..last], query);
      if MatchesResultFilter(points[last], query) {
        assert (before + [points[last]])[..|before|] == before;
      } else {
        assert Matching(points, query) == before;
      }
    }
  }

  lemma {:induction false} MatchingAllMatch<V>(points: seq<ResultPoint<V>>, query: ResultQuery)
    ensures forall i :: 0 <= i < |Matching(points, query)| ==> MatchesResultFilter(Matching(points, query)[i], query)
  {
    if points != [] {
      MatchingAllMatch(points[..|points| - 1], query);
    }
  }

  /** Without a cursor every matching row is eligible. */
  lemma {:induction false} NoCursor<V>(points: seq<ResultPoint<V>>, query: ResultQuery)
    requires query.after == None
    ensures Eligible(points, query) == Matching(points, query)
  {
    if points != [] {
      NoCursor(points[..|points| - 1], query);
    }
  }

  /** On increasing rows an ascending cursor leaves the rows from some position on. */
  lemma {:induction false} AscendingCut<V>(rows: seq<ResultPoint<V>>, query: ResultQuery, k: nat)
    requires StrictlyIncreasing(rows) && query.sort.IndexAsc? && k <= |rows|
    requires forall i :: 0 <= i < |rows| ==> MatchesResultFilter(rows[i], query)
    requires forall i :: 0 <= i < |rows| ==> (PastCursor(rows[i], query) <==> i >= k)
    ensures Eligible(rows, query) == rows[k..]
  {
    if rows != [] {
      var last := |rows| - 1;
      if k <= last {
        AscendingCut(rows[..last], query, k);
        assert rows[k..] == rows[..last][k..] + [rows[last]];
      } else {
        AscendingCut(rows[..last], query, last);
      }
    }
  }

  /** On increasing rows a descending cursor leaves the rows before some position. */
  lemma {:induction false} DescendingCut<V>(rows: seq<ResultPoint<V>>, query: ResultQuery, k: nat)
    requires StrictlyIncreasing(rows) && query.sort.IndexDesc? && k <= |rows|
    requires forall i :: 0 <= i < |rows| ==> MatchesResultFilter(rows[i], query)
    requires forall i :: 0 <= i < |rows| ==> (PastCursor(rows[i], query) <==> i < k)
    ensures Eligible(rows, query) == rows[..k]
  {
    if rows != [] {
      var last := |rows| - 1;
      if k <= last {
        DescendingCut(rows[..last], query, k);
        assert rows[..k] == rows[..last][..k];
      } else {
        DescendingCut(rows[..last], query, last);
        assert rows[..last] + [rows[last]] == rows;
      }
    }
  }

  /** Where a cursor cuts increasing rows. */
  lemma {:induction false} CutPosition<V>(rows: seq<ResultPoint<V>>, bound: int) returns (k: nat)
    requires StrictlyIncreasing(rows)
    ensures k <= |rows| && forall i :: 0 <= i < |rows| ==> (rows[i].index < bound <==> i < k)
  {
    if rows == [] || rows[|rows| - 1].index < bound {
      k := |rows|;
    } else {
      k := CutPosition(rows[..|rows| - 1], bound);
    }
  }

  /** The rows left for an ascending query are a suffix, for a descending one a prefix, of the matching rows. */
  lemma EligibleIsCut<V>(points: seq<ResultPoint<V>>, query: ResultQuery) returns (k: nat)
    requires StrictlyIncreasing(Matching(points, query))
    ensures k <= |Matching(points, query)|
    ensures Eligible(points, query)
      == if query.sort.IndexAsc? then Matching(points, query)[k..] else Matching(points, query)[..k]
  {
    var rows := Matching(points, query);
    MatchingAllMatch(points, query);
    EligibleOfMatching(points, query);
    match (query.sort, query.after)
    case (IndexAsc, None) =>
      k := 0;
      AscendingCut(rows, query, k);
    case (IndexDesc, None) =>
      k := |rows|;
      DescendingCut(rows, query, k);
    case (IndexAsc, Some(after)) =>
      k := CutPosition(rows, after + 1);
      AscendingCut(rows, query, k);
    case (IndexDesc, Some(after)) =>
      k := CutPosition(rows, after);
      DescendingCut(rows, query, k);
  }

  ghost predicate SameFilters(a: ResultQuery, b: ResultQuery) {
    && a.sort == b.sort
    && a.indexFrom == b.indexFrom && a.indexTo == b.indexTo
    && a.from == b.from && a.to == b.to
  }

  lemma {:induction false} FiltersSelect<V>(points: seq<ResultPoint<V>>, a: ResultQuery, b: ResultQuery)
    requires SameFilters(a, b)
    ensures Matching(points, a) == Matching(points, b)
  {
    if points != [] {
      FiltersSelect(points[..|points| - 1], a, b);
    }
  }

  /** The page after a page continues exactly where it stopped. */
  lemma NextPageContinues<V>(points: seq<ResultPoint<V>>, now: ResultQuery, next: ResultQuery)
    requires StrictlyIncreasing(Matching(points, now)) && now.limit > 0 && SameFilters(now, next)
    requires PageOf(points, now).hasMore && next.after == PageOf(points, now).nextCursor
    ensures PageOf(points, now).items + Remaining(points, next) == Remaining(points, now)
  {
    FiltersSelect(points, now, next);
    var k := EligibleIsCut(points, now);
    hide Matching, Eligible, StrictlyIncreasing;
    if now.sort.IndexAsc? {
      AscendingContinues(points, now, next, k);
    } else {
      DescendingContinues(points, now, next, k);
    }
  }

  lemma AscendingContinues<V>(points: seq<ResultPoint<V>>, now: ResultQuery, next: ResultQuery, k: nat)
    requires StrictlyIncreasing(Matching(points, now)) && now.limit > 0 && SameFilters(now, next) && now.sort.IndexAsc?
    requires PageOf(points, now).hasMore && next.after == PageOf(points, now).nextCursor
    requires k <= |Matching(points, now)| && Eligible(points, now) == Matching(points, now)[k..]
    ensures PageOf(points, now).items + Remaining(points, next) == Remaining(points, now)
  {
    hide Matching, Eligible;
    var rows, limit := Matching(points, now), now.limit;
    AscendingPage(rows, k, limit);
    FiltersSelect(points, now, next);
    CursorCutsAscending(points, next, k + limit);
  }

  lemma DescendingContinues<V>(points: seq<ResultPoint<V>>, now: ResultQuery, next: ResultQuery, k: nat)
    requires StrictlyIncreasing(Matching(points, now)) && now.limit > 0 && SameFilters(now, next) && now.sort.IndexDesc?
    requires PageOf(points, now).hasMore && next.after == PageOf(points, now).nextCursor
    requires k <= |Matching(points, now)| && Eligible(points, now) == Matching(points, now)[..k]
    ensures PageOf(points, now).items + Remaining(points, next) == Remaining(points, now)
  {
    hide Matching, Eligible;
    var rows, limit := Matching(points, now), now.limit;
    DescendingPage(rows, k, limit);
    FiltersSelect(points, now, next);
    CursorCutsDescending(points, next, k - limit);
  }

  lemma AscendingPage<T>(rows: seq<T>, k: nat, limit: nat)
    requires 0 < limit && k + limit <= |rows|
    ensures rows[k..][limit - 1] == rows[k + limit - 1]
    ensures rows[k..][..limit] + rows[k + limit..] == rows[k..]
  {
  }

  lemma DescendingPage<T>(rows: seq<T>, k: nat, limit: nat)
    requires 0 < limit <= k <= |rows|
    ensures Reversed(rows[..k])[limit - 1] == rows[k - limit]
    ensures Reversed(rows[..k])[..limit] + Reversed(rows[..k - limit]) == Reversed(rows[..k])
  {
  }

  /** An ascending cursor on the row before position k leaves the rows from k on. */
  lemma CursorCutsAscending<V>(points: seq<ResultPoint<V>>, query: ResultQuery, k: nat)
    requires StrictlyIncreasing(Matching(points, query)) && query.sort.IndexAsc?
    requires 0 < k <= |Matching(points, query)| && query.after == Some(Matching(points, query)[k - 1].index)
    ensures Eligible(points, query) == Matching(points, query)[k..]
  {
    hide Matching, Eligible;
    EligibleOfMatching(points, query);
    MatchingAllMatch(points, query);
    AscendingCut(Matching(points, query), query, k);
  }

  /** A descending cursor on the row at position k leaves the rows before k. */
  lemma CursorCutsDescending<V>(points: seq<ResultPoint<V>>, query: ResultQuery, k: nat)
    requires StrictlyIncreasing(Matching(points, query)) && query.sort.IndexDesc?
    requires k < |Matching(points, query)| && query.after == Some(Matching(points, query)[k].index)
    ensures Eligible(points, query) == Matching(points, query)[..k]
  {
    hide Matching, Eligible;
    EligibleOfMatching(points, query);
    MatchingAllMatch(points, query);
    DescendingCut(Matching(points, query), query, k);
  }

  /** A cursor taken from a row still to be delivered leaves fewer rows to deliver, in any file. */
  lemma {:induction false} CursorShrinks<V>(points: seq<ResultPoint<V>>, now: ResultQuery, next: ResultQuery,
                                            row: ResultPoint<V>)
    requires next.sort == now.sort && next.after == Some(row.index) && PastCursor(row, now)
    requires next.indexFrom == now.indexFrom && next.indexTo == now.indexTo && next.from == now.from
      && next.to == now.to
    ensures |Eligible(points, next)| <= |Eligible(points, now)|
    ensures row in points && MatchesResultFilter(row, now) ==> |Eligible(points, next)| < |Eligible(points, now)|
  {
    if points != [] {
      CursorShrinks(points[..|points| - 1], now, next, row);
      if row in points && row !in points[..|points| - 1] {
        assert row == points[|points| - 1];
      }
    }
  }

  lemma {:induction false} EligibleComeFromFile<V>(points: seq<ResultPoint<V>>, query: ResultQuery)
    ensures forall i :: 0 <= i < |Eligible(points, query)| ==>
      var row := Eligible(points, query)[i];
      row in points && MatchesResultFilter(row, query) && PastCursor(row, query)
  {
    if points != [] {
      EligibleComeFromFile(points[..|points| - 1], query);
    }
  }

  lemma PageShrinks<V>(points: seq<ResultPoint<V>>, query: ResultQuery, after: Option<int>, limit: nat)
    requires limit > 0 && PageOf(points, WithCursor(query, limit, after)).hasMore
    ensures var page := PageOf(points, WithCursor(query, limit, after));
      |Remaining(points, WithCursor(query, 1, page.nextCursor))| < |Remaining(points, WithCursor(query, 1, after))|
  {
    hide Eligible;
    var now := WithCursor(query, limit, after);
    var page := PageOf(points, now);
    SameRemaining(points, query, after, limit, 1);
    EligibleComeFromFile(points, now);
    var last := page.items[|page.items| - 1];
    assert last in Eligible(points, now);
    CursorShrinks(points, now, WithCursor(query, 1, page.nextCursor), last);
  }

  /**
   A client that follows nextCursor until hasMore is false, asking for limits(k) rows on its k-th request. On any
   file the rows still to be delivered shrink with every request, so the run ends.
   */
  ghost function Walk<V>(points: seq<ResultPoint<V>>, query: ResultQuery, after: Option<int>, limits: nat -> nat,
                         k: nat): seq<ResultPoint<V>>
    requires forall n: nat :: limits(n) > 0
    decreases |Remaining(points, WithCursor(query, 1, after))|
  {
    var page := PageOf(points, WithCursor(query, limits(k), after));
    if page.hasMore then
      PageShrinks(points, query, after, limits(k));
      page.items + Walk(points, query, page.nextCursor, limits, k + 1)
    else page.items
  }

  lemma SameRemaining<V>(points: seq<ResultPoint<V>>, query: ResultQuery, after: Option<int>, limit: nat, limit': nat)
    ensures Remaining(points, WithCursor(query, limit, after)) == Remaining(points, WithCursor(query, limit', after))
  {
    LimitDoesNotSelect(points, query, limit, after);
    LimitDoesNotSelect(points, query, limit', after);
  }

  /** Following the cursors delivers exactly the rows still to be delivered, in order, for any page sizes. */
  lemma {:induction false} WalkDelivers<V>(points: seq<ResultPoint<V>>, query: ResultQuery, after: Option<int>,
                                           limits: nat -> nat, k: nat)
    requires StrictlyIncreasing(Matching(points, query))
    requires forall n: nat :: limits(n) > 0
    ensures Walk(points, query, after, limits, k) == Remaining(points, WithCursor(query, 1, after))
    decreases |Remaining(points, WithCursor(query, 1, after))|
  {
    hide Remaining;
    var page := PageOf(points, WithCursor(query, limits(k), after));
    SameRemaining(points, query, after, limits(k), 1);
    if page.hasMore {
      var now := WithCursor(query, limits(k), after);
      FiltersSelect(points, query, now);
      NextPageContinues(points, now, WithCursor(query, 1, page.nextCursor));
      PageShrinks(points, query, after, limits(k));
      WalkDelivers(points, query, page.nextCursor, limits, k + 1);
    }
  }

  /** What a walk should deliver: the matching rows, in file order or reversed. */
  function Expected<V>(points: seq<ResultPoint<V>>, query: ResultQuery): seq<ResultPoint<V>> {
    if query.sort.IndexAsc? then Matching(points, query) else Reversed(Matching(points, query))
  }

  /** From the start that is every matching row exactly once: in file order ascending, reversed descending. */
  lemma WalkIsComplete<V>(points: seq<ResultPoint<V>>, query: ResultQuery, limits: nat -> nat)
    requires StrictlyIncreasing(Matching(points, query))
    requires forall n: nat :: limits(n) > 0
    ensures Walk(points, query, None, limits, 0) == Expected(points, query)
  {
    WalkDelivers(points, query, None, limits, 0);
    LimitDoesNotSelect(points, query, 1, None);
    NoCursor(points, WithCursor(query, 1, None));
  }

  /** Every page of a run reports the same total. */
  lemma TotalIsStable<V>(points: seq<ResultPoint<V>>, query: ResultQuery, after: Option<int>, limit: nat)
    requires limit > 0
    ensures PageOf(points, WithCursor(query, limit, after)).total == |Matching(points, query)|
  {
    LimitDoesNotSelect(points, query, limit, after);
  }

  // ---------------------------------------------------------------- why the file has to be increasing

  ghost predicate StrictlyDecreasing<V>(points: seq<ResultPoint<V>>) {
    forall i, j :: 0 <= i < j < |points| ==> points[i].index > points[j].index
  }

  function OneRow(k: nat): nat {
    1
  }

  /** A walk by single rows is strictly ordered by index, whatever the file. */
  lemma {:induction false} UnitWalkIsOrdered<V>(points: seq<ResultPoint<V>>, query: ResultQuery, after: Option<int>,
                                                k: nat)
    ensures var walk := Walk(points, query, after, OneRow, k);
      && (forall i :: 0 <= i < |walk| ==> PastCursor(walk[i], WithCursor(query, 1, after)))
      && (query.sort.IndexAsc? ==> StrictlyIncreasing(walk))
      && (query.sort.IndexDesc? ==> StrictlyDecreasing(walk))
    decreases |Remaining(points, WithCursor(query, 1, after))|
  {
    hide Eligible, PastCursor, Remaining;
    var now := WithCursor(query, 1, after);
    var page := PageOf(points, now);
    SinglePage(points, now);
    if page.hasMore {
      PageShrinks(points, query, after, 1);
      UnitWalkIsOrdered(points, query, page.nextCursor, k + 1);
      var rest := Walk(points, query, page.nextCursor, OneRow, k + 1);
      assert Walk(points, query, after, OneRow, k) == page.items + rest;
      hide Walk, PageOf;
      PrependOrdered(query, after, page.items[0], rest);
      assert page.items == [page.items[0]];
    }
  }

  /** A page of one row carries its own index as cursor. */
  lemma SinglePage<V>(points: seq<ResultPoint<V>>, now: ResultQuery)
    requires now.limit == 1
    ensures var page := PageOf(points, now);
      && |page.items| <= 1
      && (forall i :: 0 <= i < |page.items| ==> PastCursor(page.items[i], now))
      && (page.hasMore ==> |page.items| == 1 && page.nextCursor == Some(page.items[0].index))
  {
    hide Eligible, PastCursor;
    EligibleComeFromFile(points, now);
    var page := PageOf(points, now);
    if |page.items| == 1 {
      assert page.items[0] in Eligible(points, now);
    }
  }

  lemma PrependOrdered<V>(query: ResultQuery, after: Option<int>, first: ResultPoint<V>, rest: seq<ResultPoint<V>>)
    requires PastCursor(first, WithCursor(query, 1, after))
    requires forall i :: 0 <= i < |rest| ==> PastCursor(rest[i], WithCursor(query, 1, Some(first.index)))
    requires query.sort.IndexAsc? ==> StrictlyIncreasing(rest)
    requires query.sort.IndexDesc? ==> StrictlyDecreasing(rest)
    ensures forall i :: 0 <= i < |rest| ==> PastCursor(rest[i], WithCursor(query, 1, after))
    ensures query.sort.IndexAsc? ==> StrictlyIncreasing([first] + rest)
    ensures query.sort.IndexDesc? ==> StrictlyDecreasing([first] + rest)
  {
  }

  /** Paging by single rows delivers all matching rows exactly when their indices strictly increase in the file. */
  lemma UnitWalkCompleteExactlyWhen<V>(points: seq<ResultPoint<V>>, query: ResultQuery)
    ensures Walk(points, query, None, OneRow, 0) == Expected(points, query)
      <==> StrictlyIncreasing(Matching(points, query))
  {
    hide Matching, Walk;
    var rows := Matching(points, query);
    UnitWalkIsOrdered(points, query, None, 0);
    if StrictlyIncreasing(rows) {
      WalkIsComplete(points, query, OneRow);
    }
    if query.sort.IndexDesc? && StrictlyDecreasing(Reversed(rows)) {
      forall i, j | 0 <= i < j < |rows| ensures rows[i].index < rows[j].index {
        assert Reversed(rows)[|rows| - 1 - j] == rows[j] && Reversed(rows)[|rows| - 1 - i] == rows[i];
      }
    }
  }

  ghost predicate Delivers<V>(points: seq<ResultPoint<V>>, query: ResultQuery, limits: nat -> nat) {
    (forall n: nat :: limits(n) > 0) && Walk(points, query, None, limits, 0) == Expected(points, query)
  }

  /** Walks of all page sizes deliver the matching rows exactly when the indices strictly increase. */
  lemma WalksCompleteExactlyWhen<V>(points: seq<ResultPoint<V>>, query: ResultQuery)
    ensures (forall limits: nat -> nat :: (forall n: nat :: limits(n) > 0) ==> Delivers(points, query, limits))
      <==> StrictlyIncreasing(Matching(points, query))
  {
    hide Walk, Matching, Expected;
    UnitWalkCompleteExactlyWhen(points, query);
    if StrictlyIncreasing(Matching(points, query)) {
      forall limits: nat -> nat | forall n: nat :: limits(n) > 0 ensures Delivers(points, query, limits) {
        WalkIsComplete(points, query, limits);
      }
    } else {
      assert !Delivers(points, query, OneRow);
    }
  }

  /** The condition is needed: of two rows with one index, no walk by single rows delivers both. */
  lemma RepeatedIndexIsLost<V>(a: ResultPoint<V>, b: ResultPoint<V>, sort: Sort)
    requires a.index == b.index
    ensures var query := ResultQuery(1, sort, None, None, None, None, None);
      && Matching([a, b], query) == [a, b]
      && |Walk([a, b], query, None, OneRow, 0)| < 2
  {
    var query := ResultQuery(1, sort, None, None, None, None, None);
    TwoMatch(a, b, query);
    hide Walk, Matching, Remaining, PastCursor;
    UnitWalkIsOrdered([a, b], query, None, 0);
    WalkComesFromFile([a, b], query, None, OneRow, 0);
    AtMostOne(Walk([a, b], query, None, OneRow, 0), a, b);
  }

  lemma TwoMatch<V>(a: ResultPoint<V>, b: ResultPoint<V>, query: ResultQuery)
    requires query.indexFrom.None? && query.indexTo.None? && query.from.None? && query.to.None?
    ensures Matching([a, b], query) == [a, b]
  {
    assert [a, b][..1] == [a] && [a][..0] == [];
    assert Matching([a], query) == [a];
  }

  lemma AtMostOne<V>(walk: seq<ResultPoint<V>>, a: ResultPoint<V>, b: ResultPoint<V>)
    requires a.index == b.index && forall row :: row in walk ==> row in [a, b]
    requires StrictlyIncreasing(walk) || StrictlyDecreasing(walk)
    ensures |walk| < 2
  {
    forall i | 0 <= i < |walk| ensures walk[i].index == a.index {
      assert walk[i] in [a, b];
    }
    OneIndexOnly(walk, a.index);
  }

  lemma OneIndexOnly<V>(walk: seq<ResultPoint<V>>, index: int)
    requires forall i :: 0 <= i < |walk| ==> walk[i].index == index
    ensures StrictlyIncreasing(walk) || StrictlyDecreasing(walk) ==> |walk| < 2
  {
    if |walk| >= 2 {
      assert walk[0].index == walk[1].index;
    }
  }

  lemma PageComesFromFile<V>(points: seq<ResultPoint<V>>, query: ResultQuery)
    requires query.limit > 0
    ensures forall row :: row in PageOf(points, query).items ==> row in points
  {
    hide Eligible;
    EligibleComeFromFile(points, query);
    var page := PageOf(points, query);
    forall k | 0 <= k < |page.items| ensures page.items[k] in points {
      assert page.items[k] in Eligible(points, query);
    }
  }

  lemma {:induction false} WalkComesFromFile<V>(points: seq<ResultPoint<V>>, query: ResultQuery, after: Option<int>,
                                                limits: nat -> nat, k: nat)
    requires forall n: nat :: limits(n) > 0
    ensures forall row :: row in Walk(points, query, after, limits, k) ==> row in points
    decreases |Remaining(points, WithCursor(query, 1, after))|
  {
    hide PageOf, Remaining;
    var now := WithCursor(query, limits(k), after);
    var page := PageOf(points, now);
    PageComesFromFile(points, now);
    if page.hasMore {
      PageShrinks(points, query, after, limits(k));
      WalkComesFromFile(points, query, page.nextCursor, limits, k + 1);
    }
  }

  // ---------------------------------------------------------------- the asked ranges

  /** Both ends of both ranges are included; an end that is not given does not bound. */
  predicate IsAsked<V>(row: ResultPoint<V>, query: ResultQuery) {
    && (query.indexFrom.Some? ==> query.indexFrom.value <= row.index)
    && (query.indexTo.Some? ==> row.index <= query.indexTo.value)
    && (query.from.Some? ==> query.from.value <= row.time)
    && (query.to.Some? ==> row.time <= query.to.value)
  }

  /** The file's order is kept: the rows of a first part before those of a second. */
  lemma {:induction false} MatchingKeepsOrder<V>(points: seq<ResultPoint<V>>, more: seq<ResultPoint<V>>,
                                                 query: ResultQuery)
    ensures Matching(points + more, query) == Matching(points, query) + Matching(more, query)
  {
    hide MatchesResultFilter;
    if more == [] {
      assert points + more == points;
    } else {
      var last := |more| - 1;
      MatchingKeepsOrder(points, more[..last], query);
      assert (points + more)[..|points| + last] == points + more[..last];
    }
  }

  /** The matching rows are the asked ones, each as often as the file has it. */
  lemma {:induction false} MatchingIsAsked<V>(points: seq<ResultPoint<V>>, query: ResultQuery, row: ResultPoint<V>)
    ensures multiset(Matching(points, query))[row] == (if IsAsked(row, query) then multiset(points)[row] else 0)
  {
    if points != [] {
      var last := |points| - 1;
      MatchingIsAsked(points[..last], query, row);
      assert MatchesResultFilter(points[last], query) == IsAsked(points[last], query);
      hide MatchesResultFilter, IsAsked;
      assert points == points[..last] + [points[last]];
    }
  }

  /** Every delivered row is in the file, asked for, and past the cursor. */
  lemma DeliveredIsAsked<V>(points: seq<ResultPoint<V>>, query: ResultQuery)
    requires query.limit > 0
    ensures forall row :: row in PageOf(points, query).items ==>
      && row in points && IsAsked(row, query)
      && (query.after.Some? ==>
            if query.sort.IndexAsc? then row.index > query.after.value else row.index < query.after.value)
  {
    hide Eligible;
    EligibleComeFromFile(points, query);
    var page := PageOf(points, query);
    forall k | 0 <= k < |page.items|
      ensures var row := page.items[k]; row in points && MatchesResultFilter(row, query) && PastCursor(row, query)
    {
      var remaining := Eligible(points, query);
      assert page.items[k] in remaining;
    }
  }
}
