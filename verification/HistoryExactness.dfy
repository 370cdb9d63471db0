/**
 Exactly when the pages of the governance history miss nothing, for any store: any number of sources
 of any length, rows of one time in any order, seconds mixed or not.

 A scan leaves a record behind when the record is below the cursor and yet not among the candidates:
 the scan was cut before it, or its time is past the cursor's although its text is not.
 */
module HistoryExactness {
  import opened Common
  import opened GovernanceHistory
  import opened HistoryCompleteness

  function Min(a: nat, b: nat): nat {
    if a <= b then a else b
  }

  /** The cursor after the first `k` records of a list. */
  function CursorAt(all: seq<Entry>, k: nat): Option<Entry>
    requires k <= |all|
  {
    if k == 0 then None else Some(all[k - 1])
  }

  ghost predicate LeftBehind(store: Store, cursor: Option<Entry>, e: Entry) {
    InStore(store, e) && Below(e, cursor) && e !in Candidates(store, cursor)
  }

  /** The walk, however far it goes, stays above the record and leaves a cursor for it. */
  ghost predicate StaysAbove(store: Store, cursor: Option<Entry>, e: Entry) {
    var sorted := SortedCandidates(store, cursor);
    && sorted != []
    && KeyLess(e, sorted[Min(MAX_SOURCE_SCAN, |sorted|) - 1])
    && (AnyTruncated(store, cursor) || |sorted| > MAX_SOURCE_SCAN)
  }

  /** No walk from this cursor passes a record that its scans leave behind. */
  ghost predicate ScanHolds(store: Store, cursor: Option<Entry>) {
    forall e :: LeftBehind(store, cursor, e) ==> StaysAbove(store, cursor, e)
  }

  ghost predicate AlwaysHolds(store: Store) {
    forall cursor :: ValidCursor(store, cursor) ==> ScanHolds(store, cursor)
  }

  /** At any limit and for any filter, every matching record is on some page. */
  ghost predicate ServesEverything(store: Store) {
    forall limit: nat, matches: Entry -> bool, e ::
      limit >= 1 && InStore(store, e) && matches(e) ==> e in AllPages(store, None, limit, matches)
  }

  // ----- pages and walks

  lemma {:induction false} KeepNone(rows: seq<Entry>, test: Entry -> bool)
    requires forall e :: e in rows ==> !test(e)
    ensures Keep(rows, test) == []
    decreases |rows|
  {
    if rows != [] {
      KeepNone(rows[..|rows| - 1], test);
    }
  }

  lemma {:induction false} KeepAll(rows: seq<Entry>, test: Entry -> bool)
    requires forall e :: e in rows ==> test(e)
    ensures Keep(rows, test) == rows
    decreases |rows|
  {
    if rows != [] {
      KeepAll(rows[..|rows| - 1], test);
      assert rows == rows[..|rows| - 1] + [rows[|rows| - 1]];
    }
  }

  lemma SliceDescends(rows: seq<Entry>, a: nat, b: nat)
    requires Descending(rows) && a <= b <= |rows|
    ensures Descending(rows[a..b])
  {
  }

  /** A page, given the sorted candidates it walks. */
  lemma PageFrom(store: Store, cursor: Option<Entry>, limit: nat, matches: Entry -> bool, sorted: seq<Entry>, n: nat)
    requires sorted == SortedCandidates(store, cursor) && n == Examined(sorted, limit, matches, 0)
    ensures var more := n > 0 && (n < |sorted| || AnyTruncated(store, cursor));
            PageOf(store, cursor, limit, matches) ==
            Page(Keep(sorted[..n], matches), if more then Some(sorted[n - 1]) else None)
  {
  }

  lemma FinalPage(store: Store, cursor: Option<Entry>, limit: nat, matches: Entry -> bool)
    requires PageOf(store, cursor, limit, matches).next.None?
    ensures AllPages(store, cursor, limit, matches) == PageOf(store, cursor, limit, matches).records
  {
  }

  lemma ExaminesOne(sorted: seq<Entry>, limit: nat, matches: Entry -> bool)
    requires sorted != [] && limit >= 1
    ensures Examined(sorted, limit, matches, 0) >= 1
  {
    assert sorted[..0] == [];
    assert !Stops(sorted, limit, matches, 0);
  }

  lemma {:induction false} ExaminesAtMost(sorted: seq<Entry>, limit: nat, matches: Entry -> bool, from: nat)
    requires from <= Min(MAX_SOURCE_SCAN, |sorted|)
    ensures Examined(sorted, limit, matches, from) <= Min(MAX_SOURCE_SCAN, |sorted|)
    decreases |sorted| - from
  {
    if !Stops(sorted, limit, matches, from) {
      ExaminesAtMost(sorted, limit, matches, from + 1);
    }
  }

  /** A walk that meets no match goes on to its end. */
  lemma {:induction false} WalksOn(sorted: seq<Entry>, limit: nat, matches: Entry -> bool, from: nat)
    requires limit >= 1 && from <= Min(MAX_SOURCE_SCAN, |sorted|) && forall e :: e in sorted ==> !matches(e)
    ensures Examined(sorted, limit, matches, from) == Min(MAX_SOURCE_SCAN, |sorted|)
    decreases |sorted| - from
  {
    KeepNone(sorted[..from], matches);
    if from < Min(MAX_SOURCE_SCAN, |sorted|) {
      WalksOn(sorted, limit, matches, from + 1);
    }
  }

  /** A page of at most one record ends with it. */
  lemma {:induction false} EndsWithMatch(sorted: seq<Entry>, matches: Entry -> bool, from: nat)
    requires from <= |sorted|
    requires Keep(sorted[..from], matches) == [] || (from > 0 && Keep(sorted[..from], matches) == [sorted[from - 1]])
    ensures var n := Examined(sorted, 1, matches, from);
            Keep(sorted[..n], matches) == [] || (n > 0 && Keep(sorted[..n], matches) == [sorted[n - 1]])
    decreases |sorted| - from
  {
    if !Stops(sorted, 1, matches, from) {
      assert sorted[..from + 1][..from] == sorted[..from];
      EndsWithMatch(sorted, matches, from + 1);
    }
  }

  /** The pages from a cursor are its page and the pages after it. */
  lemma PagesFrom(store: Store, cursor: Option<Entry>, limit: nat, matches: Entry -> bool, e: Entry)
    ensures var page := PageOf(store, cursor, limit, matches);
            e in AllPages(store, cursor, limit, matches) <==>
            e in page.records || (page.next.Some? && e in AllPages(store, page.next, limit, matches))
  {
    var page := PageOf(store, cursor, limit, matches);
    if page.next.Some? {
      PagesUnfold(store, cursor, limit, matches, page.next.value);
    } else {
      FinalPage(store, cursor, limit, matches);
    }
  }

  // ----- scans that hold lose nothing

  /** A candidate is examined, or the walk stops above it. */
  lemma CandidateExaminedOrAhead(sorted: seq<Entry>, n: nat, e: Entry)
    requires Descending(sorted) && e in sorted && 0 < n <= |sorted|
    ensures e in sorted[..n] || (n < |sorted| && KeyLess(e, sorted[n - 1]))
  {
    var i :| 0 <= i < |sorted| && sorted[i] == e;
    assert i < n ==> sorted[..n][i] == e;
  }

  /** Below the last record that can be examined is below every one that is. */
  lemma BelowLast(sorted: seq<Entry>, n: nat, m: nat, e: Entry)
    requires Descending(sorted) && 0 < n <= m <= |sorted| && KeyLess(e, sorted[m - 1])
    ensures KeyLess(e, sorted[n - 1])
  {
    if n < m {
      KeyTransitive(e, sorted[m - 1], sorted[n - 1]);
    }
  }

  lemma WalkIsBounded(store: Store, cursor: Option<Entry>, limit: nat, matches: Entry -> bool, sorted: seq<Entry>,
                      n: nat)
    requires sorted == SortedCandidates(store, cursor) && sorted != [] && limit >= 1
    requires n == Examined(sorted, limit, matches, 0)
    ensures 0 < n <= Min(MAX_SOURCE_SCAN, |sorted|)
    ensures var page := PageOf(store, cursor, limit, matches);
            if n < |sorted| || AnyTruncated(store, cursor) then page.next == Some(sorted[n - 1]) else page.next.None?
  {
    ExaminesOne(sorted, limit, matches);
    ExaminesAtMost(sorted, limit, matches, 0);
    PageFrom(store, cursor, limit, matches, sorted, n);
  }

  lemma LeftIsAhead(store: Store, cursor: Option<Entry>, limit: nat, matches: Entry -> bool, e: Entry)
    requires Frozen(store) && StaysAbove(store, cursor, e) && limit >= 1
    ensures var page := PageOf(store, cursor, limit, matches); page.next.Some? && KeyLess(e, page.next.value)
  {
    var sorted := SortedCandidates(store, cursor);
    var n := Examined(sorted, limit, matches, 0);
    SortedCandidatesOk(store, cursor);
    WalkIsBounded(store, cursor, limit, matches, sorted, n);
    BelowLast(sorted, n, Min(MAX_SOURCE_SCAN, |sorted|), e);
  }

  lemma CandidateIsSeen(store: Store, cursor: Option<Entry>, limit: nat, matches: Entry -> bool, e: Entry)
    requires Frozen(store) && e in SortedCandidates(store, cursor) && matches(e) && limit >= 1
    ensures var page := PageOf(store, cursor, limit, matches);
            e in page.records || (page.next.Some? && KeyLess(e, page.next.value))
  {
    var sorted := SortedCandidates(store, cursor);
    var n := Examined(sorted, limit, matches, 0);
    SortedCandidatesOk(store, cursor);
    WalkIsBounded(store, cursor, limit, matches, sorted, n);
    CandidateExaminedOrAhead(sorted, n, e);
    PageFrom(store, cursor, limit, matches, sorted, n);
    KeepMembers(sorted[..n], matches, e);
  }

  /** A matching record below the cursor is on the page, or the page leaves a cursor above it. */
  lemma ServedOrAhead(store: Store, cursor: Option<Entry>, limit: nat, matches: Entry -> bool, e: Entry)
    requires Frozen(store) && ScanHolds(store, cursor) && InStore(store, e) && Below(e, cursor) && matches(e)
             && limit >= 1
    ensures var page := PageOf(store, cursor, limit, matches);
            e in page.records || (page.next.Some? && KeyLess(e, page.next.value))
  {
    if e in Candidates(store, cursor) {
      SortMembers(Candidates(store, cursor), e);
      CandidateIsSeen(store, cursor, limit, matches, e);
    } else {
      assert LeftBehind(store, cursor, e);
      LeftIsAhead(store, cursor, limit, matches, e);
    }
  }

  lemma {:induction false} EverythingIsServed(store: Store, cursor: Option<Entry>, limit: nat, matches: Entry -> bool,
                                              e: Entry)
    requires Frozen(store) && AlwaysHolds(store) && ValidCursor(store, cursor) && limit >= 1
    requires InStore(store, e) && Below(e, cursor) && matches(e)
    ensures e in AllPages(store, cursor, limit, matches)
    decreases |Remaining(store, cursor)|
  {
    var page := PageOf(store, cursor, limit, matches);
    ServedOrAhead(store, cursor, limit, matches, e);
    PagesFrom(store, cursor, limit, matches, e);
    if e !in page.records {
      NextIsBelow(store, cursor, limit, matches);
      EverythingIsServed(store, page.next, limit, matches, e);
    }
  }

  // ----- a scan that does not hold loses something

  /** Matches the record of the cursor and one more. */
  function Just(cursor: Option<Entry>, e: Entry): Entry -> bool {
    (x: Entry) => x == e || cursor == Some(x)
  }

  /** What is not below a cursor is not on the pages from it. */
  lemma NotAfter(store: Store, cursor: Entry, limit: nat, matches: Entry -> bool, e: Entry)
    requires !KeyLess(e, cursor)
    ensures e !in AllPages(store, Some(cursor), limit, matches)
  {
    if e in AllPages(store, Some(cursor), limit, matches) {
      PagesMembers(store, Some(cursor), limit, matches, e);
    }
  }

  /** From a cursor whose walk passes `e`, looking for nothing else, `e` is not found. */
  lemma PassedIsLost(store: Store, cursor: Option<Entry>, e: Entry)
    requires Frozen(store) && LeftBehind(store, cursor, e) && !StaysAbove(store, cursor, e)
    ensures e !in AllPages(store, cursor, 1, Just(cursor, e))
  {
    var sorted, matches := SortedCandidates(store, cursor), Just(cursor, e);
    var n := Min(MAX_SOURCE_SCAN, |sorted|);
    SortedCandidatesOk(store, cursor);
    forall x | x in sorted
      ensures !matches(x)
    {
      CandidateMembers(store, cursor, x);
    }
    WalksOn(sorted, 1, matches, 0);
    KeepNone(sorted[..n], matches);
    PageFrom(store, cursor, 1, matches, sorted, n);
    PagesFrom(store, cursor, 1, matches, e);
    if n > 0 && !KeyLess(e, sorted[n - 1]) {
      NotAfter(store, sorted[n - 1], 1, matches, e);
    }
  }

  /** A page of at most one record leaves a cursor at that record, if any. */
  lemma SingleRecord(store: Store, cursor: Option<Entry>, matches: Entry -> bool)
    ensures var page := PageOf(store, cursor, 1, matches);
            page.records == [] || (|page.records| == 1 && (page.next.Some? ==> page.records == [page.next.value]))
  {
    var sorted := SortedCandidates(store, cursor);
    assert sorted[..0] == [];
    EndsWithMatch(sorted, matches, 0);
    PageFrom(store, cursor, 1, matches, sorted, Examined(sorted, 1, matches, 0));
  }

  lemma OrderOfFinding(page: Page, x: Entry, e: Entry, xLater: bool, eLater: bool)
    requires x != e && (page.records == [] || (|page.records| == 1 && page.records[0] in [x, e]))
    requires page.records != [] && page.next.Some? ==> page.records == [page.next.value]
    requires (x in page.records || (page.next.Some? && xLater)) && (e in page.records || (page.next.Some? && eLater))
    requires page.next == Some(e) ==> !xLater && !eLater
    ensures page.next.Some? && eLater && (page.next == Some(x) || xLater)
  {
  }

  /** Of two records found one a page, the lower one is found after the higher one. */
  lemma FoundInOrder(store: Store, from: Option<Entry>, page: Page, matches: Entry -> bool, x: Entry, e: Entry)
    requires KeyLess(e, x) && page == PageOf(store, from, 1, matches)
    requires page.records != [] ==> page.records[0] in [x, e]
    requires x in AllPages(store, from, 1, matches) && e in AllPages(store, from, 1, matches)
    ensures page.next.Some? && e in AllPages(store, page.next, 1, matches)
    ensures page.next == Some(x) || x in AllPages(store, page.next, 1, matches)
  {
    SingleRecord(store, from, matches);
    PagesFrom(store, from, 1, matches, e);
    PagesFrom(store, from, 1, matches, x);
    NotBothLess(e, x);
    NotAfter(store, e, 1, matches, x);
    NotAfter(store, e, 1, matches, e);
    OrderOfFinding(page, x, e, page.next.Some? && x in AllPages(store, page.next, 1, matches),
                   page.next.Some? && e in AllPages(store, page.next, 1, matches));
  }

  lemma RecordsMatch(store: Store, cursor: Option<Entry>, limit: nat, matches: Entry -> bool)
    ensures forall e :: e in PageOf(store, cursor, limit, matches).records ==> matches(e)
  {
    forall e | e in PageOf(store, cursor, limit, matches).records
      ensures matches(e)
    {
      PageMembers(store, cursor, limit, matches, e);
    }
  }

  /** Both records are on the pages from a cursor, one a page. */
  ghost predicate BothFound(store: Store, matches: Entry -> bool, x: Entry, e: Entry, from: Option<Entry>) {
    x in AllPages(store, from, 1, matches) && e in AllPages(store, from, 1, matches)
  }

  lemma FoundNext(store: Store, matches: Entry -> bool, x: Entry, e: Entry, from: Option<Entry>)
    requires KeyLess(e, x) && (forall r :: matches(r) ==> r == x || r == e) && BothFound(store, matches, x, e, from)
    ensures var next := PageOf(store, from, 1, matches).next;
            && next.Some? && |Remaining(store, next)| < |Remaining(store, from)|
            && (if next == Some(x) then e in AllPages(store, Some(x), 1, matches)
                else BothFound(store, matches, x, e, next))
  {
    var page := PageOf(store, from, 1, matches);
    RecordsMatch(store, from, 1, matches);
    assert page.records != [] ==> page.records[0] in page.records;
    FoundInOrder(store, from, page, matches, x, e);
    NextIsBelow(store, from, 1, matches);
  }

  ghost predicate GoesOn(found: Option<Entry> -> bool, size: Option<Entry> -> nat, from: Option<Entry>) {
    exists next :: found(next) && size(next) < size(from)
  }

  /** A search that goes on to smaller cursors until it meets its goal meets it. */
  lemma {:induction false} SearchEnds(found: Option<Entry> -> bool, size: Option<Entry> -> nat, goal: bool,
                                      from: Option<Entry>)
    requires found(from) && forall c :: found(c) ==> goal || GoesOn(found, size, c)
    ensures goal
    decreases size(from)
  {
    if !goal {
      var next :| found(next) && size(next) < size(from);
      SearchEnds(found, size, goal, next);
    }
  }

  /** And so from the cursor that the higher one leaves. */
  lemma LowerIsFoundAfter(store: Store, from: Option<Entry>, matches: Entry -> bool, x: Entry, e: Entry)
    requires KeyLess(e, x) && (forall r :: matches(r) ==> r == x || r == e) && BothFound(store, matches, x, e, from)
    ensures e in AllPages(store, Some(x), 1, matches)
  {
    var found, size :=
      (c: Option<Entry>) => BothFound(store, matches, x, e, c), (c: Option<Entry>) => |Remaining(store, c)|;
    var goal := e in AllPages(store, Some(x), 1, matches);
    forall c | found(c)
      ensures goal || GoesOn(found, size, c)
    {
      FoundNext(store, matches, x, e, c);
      var next := PageOf(store, c, 1, matches).next;
      assert goal || (found(next) && size(next) < size(c));
    }
    SearchEnds(found, size, goal, from);
  }

  lemma PassedIsMissing(store: Store, cursor: Option<Entry>, e: Entry)
    requires Frozen(store) && ValidCursor(store, cursor) && LeftBehind(store, cursor, e)
             && !StaysAbove(store, cursor, e)
    ensures !ServesEverything(store)
  {
    var matches := Just(cursor, e);
    PassedIsLost(store, cursor, e);
    assert matches(e);
    if cursor.Some? {
      var x := cursor.value;
      assert matches(x);
      if x in AllPages(store, None, 1, matches) && e in AllPages(store, None, 1, matches) {
        LowerIsFoundAfter(store, None, matches, x, e);
      }
    }
  }

  /**
   For any store: every limit and filter serves every matching record exactly when no walk, from any
   record of the store or from the start, passes a record that its scans leave behind.
   */
  lemma CompleteForEveryFilter(store: Store)
    requires Frozen(store)
    ensures ServesEverything(store) <==> AlwaysHolds(store)
  {
    if AlwaysHolds(store) {
      forall limit: nat, matches: Entry -> bool, e | limit >= 1 && InStore(store, e) && matches(e)
        ensures e in AllPages(store, None, limit, matches)
      {
        EverythingIsServed(store, None, limit, matches, e);
      }
    } else {
      var cursor :| ValidCursor(store, cursor) && !ScanHolds(store, cursor);
      var e :| LeftBehind(store, cursor, e) && !StaysAbove(store, cursor, e);
      PassedIsMissing(store, cursor, e);
    }
  }

  // ----- a mixed second never holds

  /** Between a fraction and its whole second, by text, lies only that whole second. */
  lemma AboveFraction(w: Entry, f: Entry, e: Entry)
    requires MixedPair(w, f) && e.time <= w.time && KeyLess(f, e)
    ensures e.time == w.time
  {
    var a, b := e.time / SECOND, w.time / SECOND;
    assert a <= b;
    assert a < b ==> TextRank(e.time) <= a * (SECOND + 1) + SECOND < b * (SECOND + 1);
  }

  lemma {:induction false} MixedNeverHolds(store: Store, w: Entry, f: Entry)
    requires Frozen(store) && InStore(store, w) && InStore(store, f) && MixedPair(w, f)
    ensures !AlwaysHolds(store)
    decreases |Remaining(store, Some(w))|
  {
    var cursor := Some(w);
    FractionIsBelowWhole(w, f);
    if f in Candidates(store, cursor) {
      CandidateMembers(store, cursor, f);
    }
    assert ValidCursor(store, cursor) && LeftBehind(store, cursor, f);
    if StaysAbove(store, cursor, f) {
      var sorted := SortedCandidates(store, cursor);
      var last := sorted[Min(MAX_SOURCE_SCAN, |sorted|) - 1];
      SortedCandidatesOk(store, cursor);
      assert last in sorted;
      CandidateMembers(store, cursor, last);
      AboveFraction(w, f, last);
      RemainingShrinks(store, cursor, last);
      MixedNeverHolds(store, last, f);
    }
  }

  lemma RemainingShrinks(store: Store, cursor: Option<Entry>, e: Entry)
    requires InStore(store, e) && Below(e, cursor)
    ensures |Remaining(store, Some(e))| < |Remaining(store, cursor)|
  {
    forall x | x in Remaining(store, Some(e))
      ensures x in Remaining(store, cursor)
    {
      RemainingMembers(store, Some(e), x);
      RemainingMembers(store, cursor, x);
      if cursor.Some? {
        KeyTransitive(x, e, cursor.value);
      }
    }
    RemainingMembers(store, cursor, e);
    NotBothLess(e, e);
    assert e !in Remaining(store, Some(e));
    ProperSubsetSize(Remaining(store, Some(e)), Remaining(store, cursor), e);
  }
}
