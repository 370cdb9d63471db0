/** Stores on which the governance history loses records, whatever else its pages do right. */
module HistoryLosses {
  import opened Common
  import opened GovernanceHistory
  import opened HistoryCompleteness
  import opened HistoryExactness
  import opened HistoryTruncation

  // ----- a run of equal times at the cut of a scan

  /** The first `a` rows share their time, and the rows from there to `m` share another one. */
  ghost predicate TwoTimes(rows: seq<Entry>, a: nat, m: nat) {
    && Frozen([rows]) && LatestFirst(rows) && a < MAX_SOURCE_SCAN <= m < |rows|
    && (forall i :: 0 <= i < a ==> rows[i].time == rows[0].time)
    && (forall i :: a <= i <= m ==> rows[i].time == rows[a].time)
    && (a > 0 ==> forall k :: a <= k < MAX_SOURCE_SCAN ==> KeyLess(rows[k], rows[m]))
  }

  /** The first scan is the scan for every cursor at the first time. */
  lemma FirstTimeScan(rows: seq<Entry>, cursor: Option<Entry>)
    requires LatestFirst(rows) && rows != [] && (cursor.Some? ==> cursor.value.time == rows[0].time)
    ensures QueryFrom(rows, cursor, 0)
  {
    var g := QueryStarts(rows, cursor);
    assert cursor.Some? ==> rows[0].time <= cursor.value.time;
  }

  ghost predicate FoundAtFirstTime(rows: seq<Entry>, limit: nat, matches: Entry -> bool, e: Entry,
                                   cursor: Option<Entry>)
  {
    && rows != [] && e in AllPages([rows], cursor, limit, matches)
    && (cursor.Some? ==> cursor.value.time == rows[0].time)
  }

  lemma CandidateOfScan(rows: seq<Entry>, cursor: Option<Entry>, e: Entry) returns (k: nat)
    requires Frozen([rows]) && QueryFrom(rows, cursor, 0) && e in Candidates([rows], cursor)
    ensures k < |rows| && k < MAX_SOURCE_SCAN && rows[k] == e
  {
    PlainDistinct(rows);
    OneSource(rows, cursor);
    ProjectedMembers(rows, cursor, e);
    k :| 0 <= k < |rows| && rows[k] == e;
    ProjectedExactly(rows, cursor, 0, k);
  }

  lemma NextIsCandidate(store: Store, cursor: Option<Entry>, limit: nat, matches: Entry -> bool)
    requires PageOf(store, cursor, limit, matches).next.Some?
    ensures PageOf(store, cursor, limit, matches).next.value in Candidates(store, cursor)
  {
    var sorted := SortedCandidates(store, cursor);
    var next := PageOf(store, cursor, limit, matches).next.value;
    assert next in sorted;
    SortMembers(Candidates(store, cursor), next);
  }

  lemma NotOnPage(rows: seq<Entry>, m: nat, limit: nat, matches: Entry -> bool, cursor: Option<Entry>)
    requires Frozen([rows]) && QueryFrom(rows, cursor, 0) && MAX_SOURCE_SCAN <= m < |rows|
    ensures rows[m] !in PageOf([rows], cursor, limit, matches).records
  {
    if rows[m] in PageOf([rows], cursor, limit, matches).records {
      PageMembers([rows], cursor, limit, matches, rows[m]);
      PlainDistinct(rows);
      OneSource(rows, cursor);
      ProjectedExactly(rows, cursor, 0, m);
    }
  }

  lemma FoundLater(rows: seq<Entry>, a: nat, m: nat, limit: nat, matches: Entry -> bool, cursor: Option<Entry>)
    requires TwoTimes(rows, a, m) && FoundAtFirstTime(rows, limit, matches, rows[m], cursor)
    ensures var next := PageOf([rows], cursor, limit, matches).next;
            FoundAtFirstTime(rows, limit, matches, rows[m], next)
            && |Remaining([rows], next)| < |Remaining([rows], cursor)|
  {
    var next := PageOf([rows], cursor, limit, matches).next;
    FirstTimeScan(rows, cursor);
    NotOnPage(rows, m, limit, matches, cursor);
    PagesFrom([rows], cursor, limit, matches, rows[m]);
    NextIsBelow([rows], cursor, limit, matches);
    NextIsCandidate([rows], cursor, limit, matches);
    var k := CandidateOfScan(rows, cursor, next.value);
    if k >= a && a > 0 {
      NotBothLess(rows[k], rows[m]);
      NotAfter([rows], rows[k], limit, matches, rows[m]);
    }
  }

  /**
   A time that does not fill a scan, and a longer one after it whose first rows in the scan have the lower
   identifiers: no row beyond the cut is ever served, at any limit and for any filter. The same holds of
   the rows beyond a scan that a single time fills, in any order.
   */
  lemma TieIsLost(rows: seq<Entry>, a: nat, m: nat, limit: nat, matches: Entry -> bool)
    requires TwoTimes(rows, a, m)
    ensures rows[m] !in AllPages([rows], None, limit, matches)
  {
    if rows[m] in AllPages([rows], None, limit, matches) {
      var found := (c: Option<Entry>) => FoundAtFirstTime(rows, limit, matches, rows[m], c);
      var size := (c: Option<Entry>) => |Remaining([rows], c)|;
      forall c | found(c)
        ensures GoesOn(found, size, c)
      {
        FoundLater(rows, a, m, limit, matches, c);
        var next := PageOf([rows], c, limit, matches).next;
        assert found(next) && size(next) < size(c);
      }
      SearchEnds(found, size, false, None);
    }
  }

  /** 400 rows at one time, and 400 a second earlier of which the scan takes the 100 with the lowest identifiers. */
  function TiedRow(i: int): Entry {
    Entry(if i < 400 then 2 * SECOND else SECOND, if i < 400 then 2000 - i else i, "", "")
  }

  lemma TiedRowsAreLost(m: nat, limit: nat, matches: Entry -> bool)
    requires MAX_SOURCE_SCAN <= m < 800
    ensures var rows := seq(800, i => TiedRow(i));
            Plain(rows) && rows[m] !in AllPages([rows], None, limit, matches)
  {
    var rows := seq(800, i => TiedRow(i));
    forall w, f | InStore([rows], w) && InStore([rows], f)
      ensures !MixedPair(w, f)
    {
      InOneSource(rows, f);
    }
    assert [rows][0] == rows;
    TieIsLost(rows, 400, m, limit, matches);
  }

  /** 501 or more rows at one time, in any order: those beyond the scan are never served. */
  lemma OneTimeIsLost(rows: seq<Entry>, m: nat, limit: nat, matches: Entry -> bool)
    requires Frozen([rows]) && MAX_SOURCE_SCAN <= m < |rows|
             && forall i :: 0 <= i < |rows| ==> rows[i].time == rows[0].time
    ensures rows[m] !in AllPages([rows], None, limit, matches)
  {
    TieIsLost(rows, 0, m, limit, matches);
  }

  /**
   A filter that none of the first 500 rows matches: the first page walks over all of them, and a match
   beyond the cut is lost when it belongs above some row that was walked over.
   */
  lemma FilteredTieIsLost(rows: seq<Entry>, k: nat, m: nat, limit: nat, matches: Entry -> bool)
    requires Frozen([rows]) && LatestFirst(rows) && k < MAX_SOURCE_SCAN <= m < |rows| && KeyLess(rows[k], rows[m])
             && limit >= 1
    requires forall i :: 0 <= i < MAX_SOURCE_SCAN ==> !matches(rows[i])
    ensures rows[m] !in AllPages([rows], None, limit, matches)
  {
    var sorted := SortedCandidates([rows], None);
    PlainDistinct(rows);
    var g := QueryStarts(rows, None);
    OneSource(rows, None);
    SortedCandidatesOk([rows], None);
    ProjectedExactly(rows, None, 0, k);
    LowestIsReached(rows, None);
    forall e | e in sorted
      ensures !matches(e)
    {
      var i := CandidateOfScan(rows, None, e);
    }
    WalksOn(sorted, limit, matches, 0);
    PageFrom([rows], None, limit, matches, sorted, |sorted|);
    NotOnPage(rows, m, limit, matches, None);
    PagesFrom([rows], None, limit, matches, rows[m]);
    var i :| 0 <= i < |sorted| && sorted[i] == rows[k];
    LowerThanTie(sorted, i, rows[m]);
    NotAfter([rows], sorted[|sorted| - 1], limit, matches, rows[m]);
  }

  lemma LowerThanTie(sorted: seq<Entry>, i: nat, e: Entry)
    requires Descending(sorted) && i < |sorted| && KeyLess(sorted[i], e)
    ensures !KeyLess(e, sorted[|sorted| - 1])
  {
    NotBothLess(sorted[i], e);
    if i < |sorted| - 1 && KeyLess(e, sorted[|sorted| - 1]) {
      KeyTransitive(e, sorted[|sorted| - 1], sorted[i]);
    }
  }

  /** 501 rows a second apart, but the last one at the time of the one before it and with a higher identifier. */
  function CutRow(i: int): Entry {
    Entry((2000 - if i < 500 then i else 499) * SECOND, if i < 500 then 2000 - i else 5000, "", "")
  }

  lemma LastRowIsLost(limit: nat)
    requires limit >= 1
    ensures var rows := seq(501, i requires 0 <= i < 501 => CutRow(i));
            && LatestFirst(rows) && InStore([rows], rows[500])
            && rows[500] !in AllPages([rows], None, limit, (e: Entry) => e.historyId == 5000)
  {
    var rows := seq(501, i requires 0 <= i < 501 => CutRow(i));
    assert [rows][0] == rows && rows[500] in rows;
    FilteredTieIsLost(rows, 499, 500, limit, (e: Entry) => e.historyId == 5000);
  }

  // ----- a filter over a long source and an older record of another

  /** A long source with a time of its own for every row, and one record of another source below it. */
  ghost predicate LongAndOld(rows: seq<Entry>, oldest: Entry) {
    && Frozen([rows, [oldest]]) && Descending(rows)
    && (forall i, j :: 0 <= i < j < |rows| ==> rows[j].time < rows[i].time)
    && (forall i :: 0 <= i < |rows| ==> oldest.time < rows[i].time && KeyLess(oldest, rows[i]))
  }

  lemma SortedOnce(store: Store, cursor: Option<Entry>, sorted: seq<Entry>)
    requires Frozen(store) && Candidates(store, cursor) == sorted && Descending(sorted)
    ensures SortedCandidates(store, cursor) == sorted
  {
    SortedCandidatesOk(store, cursor);
    DescendingUnique(SortedCandidates(store, cursor), sorted);
  }

  lemma TwoSources(rows: seq<Entry>, oldest: Entry, cursor: Option<Entry>)
    ensures Candidates([rows, [oldest]], cursor) == Projected(rows, cursor) + Projected([oldest], cursor)
    ensures Truncated(rows, cursor) ==> AnyTruncated([rows, [oldest]], cursor)
    ensures !Truncated(rows, cursor) && !Truncated([oldest], cursor) ==> !AnyTruncated([rows, [oldest]], cursor)
  {
    var store := [rows, [oldest]];
    FlatMapSnoc(store, (r: seq<Entry>) => Projected(r, cursor), 1);
    FlatMapSnoc(store, (r: seq<Entry>) => Projected(r, cursor), 0);
    assert store[..2] == store && store[..0] == [];
    assert store[0] == rows && store[1] == [oldest];
  }

  lemma KeepOne(e: Entry, test: Entry -> bool)
    ensures Keep([e], test) == (if test(e) then [e] else []) && Keep([], test) == []
  {
    assert [e][..0] == [];
  }

  lemma OneRow(oldest: Entry, cursor: Option<Entry>)
    ensures Projected([oldest], cursor) ==
            if Below(oldest, cursor) && (cursor.Some? ==> oldest.time <= cursor.value.time) then [oldest] else []
    ensures !Truncated([oldest], cursor)
  {
    KeepOne(oldest, (e: Entry) => cursor.Some? ==> e.time <= cursor.value.time);
    KeepOne(oldest, (e: Entry) => Below(e, cursor));
  }

  lemma WithOldest(rows: seq<Entry>, oldest: Entry, k: nat, r: nat)
    requires LongAndOld(rows, oldest) && k <= r <= |rows|
    ensures Descending(rows[k..r] + [oldest])
  {
    SliceDescends(rows, k, r);
    DescendingAppend(rows[k..r], [oldest]);
  }

  /** Where the scan after the first `k` rows starts: at the last of them. */
  function ScanStart(k: nat): nat {
    if k == 0 then 0 else k - 1
  }

  lemma QueryAfter(rows: seq<Entry>, oldest: Entry, k: nat)
    requires LongAndOld(rows, oldest) && k <= |rows|
    ensures QueryFrom(rows, CursorAt(rows, k), ScanStart(k))
  {
    var start := QueryStarts(rows, CursorAt(rows, k));
    if k > 1 {
      assert rows[k - 1].time < rows[k - 2].time;
    }
  }

  lemma BelowAfter(rows: seq<Entry>, k: nat)
    requires Descending(rows) && k <= |rows|
    ensures forall i :: 0 <= i < |rows| ==> (Below(rows[i], CursorAt(rows, k)) <==> i >= k)
  {
  }

  lemma KeptOfSlice(rows: seq<Entry>, test: Entry -> bool, g: nat, k: nat, end: nat)
    requires g <= k <= end <= |rows| && forall i :: 0 <= i < |rows| ==> (test(rows[i]) <==> i >= k)
    ensures Keep(rows[g..end], test) == rows[k..end]
  {
    var scanned := rows[g..end];
    assert forall i :: 0 <= i < |scanned| ==> scanned[i] == rows[g + i];
    KeepFrom(scanned, test, k - g);
    assert scanned[k - g..] == rows[k..end];
  }

  /** The long source alone, after its first `k` rows. */
  lemma ProjectedAfter(rows: seq<Entry>, oldest: Entry, k: nat)
    requires LongAndOld(rows, oldest) && k <= |rows| && ScanStart(k) + MAX_SOURCE_SCAN <= |rows|
    ensures QueryFrom(rows, CursorAt(rows, k), ScanStart(k))
    ensures Projected(rows, CursorAt(rows, k)) == rows[k..ScanStart(k) + MAX_SOURCE_SCAN]
  {
    QueryAfter(rows, oldest, k);
    ScanTakes(rows, CursorAt(rows, k), ScanStart(k));
    BelowAfter(rows, k);
    KeptOfSlice(rows, (e: Entry) => Below(e, CursorAt(rows, k)), ScanStart(k), k, ScanStart(k) + MAX_SOURCE_SCAN);
  }

  lemma CandidatesAfter(rows: seq<Entry>, oldest: Entry, k: nat)
    requires LongAndOld(rows, oldest) && k <= |rows| && ScanStart(k) + MAX_SOURCE_SCAN < |rows|
    ensures Candidates([rows, [oldest]], CursorAt(rows, k)) == rows[k..ScanStart(k) + MAX_SOURCE_SCAN] + [oldest]
    ensures AnyTruncated([rows, [oldest]], CursorAt(rows, k))
  {
    ProjectedAfter(rows, oldest, k);
    CutWhenBeyond(rows, CursorAt(rows, k), ScanStart(k));
    OneRow(oldest, CursorAt(rows, k));
    TwoSources(rows, oldest, CursorAt(rows, k));
  }

  /** The walk after the first `k` rows of the long source. */
  lemma MergedAt(rows: seq<Entry>, oldest: Entry, k: nat)
    requires LongAndOld(rows, oldest) && k <= |rows| && ScanStart(k) + MAX_SOURCE_SCAN < |rows|
    ensures SortedCandidates([rows, [oldest]], CursorAt(rows, k)) == rows[k..ScanStart(k) + MAX_SOURCE_SCAN] + [oldest]
    ensures AnyTruncated([rows, [oldest]], CursorAt(rows, k))
  {
    CandidatesAfter(rows, oldest, k);
    WithOldest(rows, oldest, k, ScanStart(k) + MAX_SOURCE_SCAN);
    SortedOnce([rows, [oldest]], CursorAt(rows, k), rows[k..ScanStart(k) + MAX_SOURCE_SCAN] + [oldest]);
  }

  lemma NothingBelowOld(rows: seq<Entry>, oldest: Entry, limit: nat, matches: Entry -> bool)
    requires LongAndOld(rows, oldest)
    ensures AllPages([rows, [oldest]], Some(oldest), limit, matches) == []
  {
    var cursor := Some(oldest);
    KeepNone(rows, (e: Entry) => cursor.Some? ==> e.time <= cursor.value.time);
    OneRow(oldest, cursor);
    TwoSources(rows, oldest, cursor);
    var none: seq<Entry> := [];
    assert none[..0] == none && Keep(none, matches) == [] && Examined(none, limit, matches, 0) == 0;
    SortedOnce([rows, [oldest]], cursor, none);
    PageFrom([rows, [oldest]], cursor, limit, matches, none, 0);
    FinalPage([rows, [oldest]], cursor, limit, matches);
  }

  /** A walk that meets no match goes on to the scan limit. */
  lemma {:induction false} WalksToLimit(sorted: seq<Entry>, limit: nat, matches: Entry -> bool, from: nat)
    requires limit >= 1 && from <= MAX_SOURCE_SCAN <= |sorted|
    requires forall i :: 0 <= i < MAX_SOURCE_SCAN ==> !matches(sorted[i])
    ensures Examined(sorted, limit, matches, from) == MAX_SOURCE_SCAN
    ensures Keep(sorted[..MAX_SOURCE_SCAN], matches) == []
    decreases MAX_SOURCE_SCAN - from
  {
    KeepNone(sorted[..from], matches);
    if from < MAX_SOURCE_SCAN {
      assert !Stops(sorted, limit, matches, from);
      WalksToLimit(sorted, limit, matches, from + 1);
    }
  }

  /** A page without a match whose walk ends at the scan limit. */
  lemma EmptyPage(store: Store, cursor: Option<Entry>, limit: nat, matches: Entry -> bool, sorted: seq<Entry>)
    requires sorted == SortedCandidates(store, cursor) && limit >= 1 && |sorted| >= MAX_SOURCE_SCAN
    requires forall i :: 0 <= i < MAX_SOURCE_SCAN ==> !matches(sorted[i])
    requires |sorted| > MAX_SOURCE_SCAN || AnyTruncated(store, cursor)
    ensures AllPages(store, cursor, limit, matches) ==
            AllPages(store, Some(sorted[MAX_SOURCE_SCAN - 1]), limit, matches)
  {
    WalksToLimit(sorted, limit, matches, 0);
    PageFrom(store, cursor, limit, matches, sorted, MAX_SOURCE_SCAN);
    PagesUnfold(store, cursor, limit, matches, sorted[MAX_SOURCE_SCAN - 1]);
  }

  lemma SkipFirst(rows: seq<Entry>, oldest: Entry, limit: nat, matches: Entry -> bool)
    requires LongAndOld(rows, oldest) && |rows| >= 2 * MAX_SOURCE_SCAN && limit >= 1
    requires forall i :: 0 <= i < MAX_SOURCE_SCAN ==> !matches(rows[i])
    ensures AllPages([rows, [oldest]], None, limit, matches) ==
            AllPages([rows, [oldest]], CursorAt(rows, MAX_SOURCE_SCAN), limit, matches)
  {
    MergedAt(rows, oldest, 0);
    var first := rows[0..MAX_SOURCE_SCAN] + [oldest];
    EmptyPage([rows, [oldest]], None, limit, matches, first);
    assert first[MAX_SOURCE_SCAN - 1] == rows[MAX_SOURCE_SCAN - 1];
  }

  lemma SkipSecond(rows: seq<Entry>, oldest: Entry, limit: nat, matches: Entry -> bool)
    requires LongAndOld(rows, oldest) && |rows| >= 2 * MAX_SOURCE_SCAN && limit >= 1
    requires !matches(oldest) && forall i :: MAX_SOURCE_SCAN <= i < 2 * MAX_SOURCE_SCAN - 1 ==> !matches(rows[i])
    ensures AllPages([rows, [oldest]], CursorAt(rows, MAX_SOURCE_SCAN), limit, matches) ==
            AllPages([rows, [oldest]], Some(oldest), limit, matches)
  {
    MergedAt(rows, oldest, MAX_SOURCE_SCAN);
    var second := rows[MAX_SOURCE_SCAN..2 * MAX_SOURCE_SCAN - 1] + [oldest];
    EmptyPage([rows, [oldest]], CursorAt(rows, MAX_SOURCE_SCAN), limit, matches, second);
  }

  /**
   When nothing matches among the first 999 rows of a long source, the second page's walk runs over
   its scan onto an older record of another source, and the cursor left there skips every row in
   between: matches among them are never served, at any limit.
   */
  lemma FilteredPagesSkip(rows: seq<Entry>, oldest: Entry, limit: nat, matches: Entry -> bool)
    requires LongAndOld(rows, oldest) && |rows| >= 2 * MAX_SOURCE_SCAN && limit >= 1
    requires !matches(oldest) && forall i :: 0 <= i < 2 * MAX_SOURCE_SCAN - 1 ==> !matches(rows[i])
    ensures AllPages([rows, [oldest]], None, limit, matches) == []
  {
    SkipFirst(rows, oldest, limit, matches);
    SkipSecond(rows, oldest, limit, matches);
    NothingBelowOld(rows, oldest, limit, matches);
  }

  function SpacedRow(i: int): Entry {
    Entry((2000 - i) * SECOND, 2000 - i, "", if i == 999 then "x" else "")
  }

  lemma SpacedRank(i: int)
    ensures TextRank(SpacedRow(i).time) == (2000 - i) * (SECOND + 1) + SECOND && IsWhole(SpacedRow(i))
  {
    assert (2000 - i) * SECOND / SECOND == 2000 - i && (2000 - i) * SECOND % SECOND == 0;
  }

  lemma SpacedOrder(i: int, j: int)
    requires i < j
    ensures KeyLess(SpacedRow(j), SpacedRow(i)) && SpacedRow(j).time < SpacedRow(i).time
  {
    SpacedRank(i);
    SpacedRank(j);
  }

  lemma SpacedDescends(rows: seq<Entry>)
    requires |rows| <= 1999 && forall i :: 0 <= i < |rows| ==> rows[i] == SpacedRow(i)
    ensures Descending(rows) && forall i, j :: 0 <= i < j < |rows| ==> rows[j].time < rows[i].time
    ensures forall i :: 0 <= i < |rows| ==> SpacedRow(1999).time < rows[i].time && KeyLess(SpacedRow(1999), rows[i])
  {
    forall i, j | 0 <= i < j < |rows|
      ensures KeyLess(rows[j], rows[i]) && rows[j].time < rows[i].time
    {
      SpacedOrder(i, j);
    }
    forall i | 0 <= i < |rows|
      ensures SpacedRow(1999).time < rows[i].time && KeyLess(SpacedRow(1999), rows[i])
    {
      SpacedOrder(i, 1999);
    }
  }

  lemma SpacedIsLong(rows: seq<Entry>)
    requires |rows| == 1000 && forall i :: 0 <= i < |rows| ==> rows[i] == SpacedRow(i)
    ensures LongAndOld(rows, SpacedRow(1999))
  {
    SpacedDescends(rows);
  }

  /** An input: 1000 rows a second apart, one older record, and a filter that only the thousandth row matches. */
  lemma ThousandthRowIsLost(limit: nat)
    requires limit >= 1
    ensures var rows := seq(1000, i => SpacedRow(i));
            && InStore([rows, [SpacedRow(1999)]], SpacedRow(999))
            && AllPages([rows, [SpacedRow(1999)]], None, limit, (e: Entry) => e.subject == "x") == []
  {
    var rows := seq(1000, i => SpacedRow(i));
    SpacedIsLong(rows);
    FilteredPagesSkip(rows, SpacedRow(1999), limit, (e: Entry) => e.subject == "x");
    assert [rows, [SpacedRow(1999)]][0] == rows && rows[999] == SpacedRow(999);
  }
}
