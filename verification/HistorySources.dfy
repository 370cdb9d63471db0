/**
 The unfiltered listing over any number of sources of any length. A page of `limit` records is right
 as long as every scan that is cut short still brings `limit` new records above each one it leaves
 behind: then none of those belongs on the page.
 */
module HistorySources {
  import opened Common
  import opened GovernanceHistory
  import opened HistoryCompleteness
  import opened HistoryExactness
  import opened HistoryTruncation

  /** Every source lists later times first, and no second is mixed. */
  ghost predicate AllLatestFirst(store: Store) {
    Frozen(store) && NoMixedSecond(store) && forall i :: 0 <= i < |store| ==> LatestFirst(store[i])
  }

  /** What a scan from the first row of a time takes beyond that time and above row `m`. */
  function Ahead(rows: seq<Entry>, g: nat, m: nat): set<Entry>
    requires g < |rows| && m < |rows|
  {
    set k | g <= k < g + MAX_SOURCE_SCAN && k < |rows| && rows[k].time != rows[g].time
            && KeyLess(rows[m], rows[k]) :: rows[k]
  }

  /** Every scan that is cut short brings `limit` records above each row beyond the cut. */
  ghost predicate Brings(rows: seq<Entry>, limit: nat) {
    forall g: nat, m: nat :: StartsTime(rows, g) && g + MAX_SOURCE_SCAN <= m < |rows| ==> |Ahead(rows, g, m)| >= limit
  }

  ghost predicate AllBring(store: Store, limit: nat) {
    forall i :: 0 <= i < |store| ==> Brings(store[i], limit)
  }

  /** The records of the store, latest first. */
  ghost predicate IsHistory(store: Store, all: seq<Entry>) {
    Descending(all) && forall e :: e in all <==> InStore(store, e)
  }

  // ----- conditions on a source by its rows

  /** No more than `room` rows share their time. */
  ghost predicate Roomy(rows: seq<Entry>, room: nat) {
    forall i, j :: 0 <= i < j < |rows| && rows[i].time == rows[j].time ==> j - i < room
  }

  lemma {:induction false} SliceCount(rows: seq<Entry>, lo: nat, hi: nat)
    requires DistinctKeys(rows) && lo <= hi <= |rows|
    ensures |Elements(rows[lo..hi])| == hi - lo
    decreases hi
  {
    if lo < hi {
      SliceCount(rows, lo, hi - 1);
      assert rows[lo..hi] == rows[lo..hi - 1] + [rows[hi - 1]];
      assert rows[hi - 1] !in rows[lo..hi - 1];
      assert Elements(rows[lo..hi]) == Elements(rows[lo..hi - 1]) + {rows[hi - 1]};
    } else {
      assert Elements(rows[lo..hi]) == {};
    }
  }

  lemma SliceIsAhead(rows: seq<Entry>, g: nat, m: nat, lo: nat, hi: nat)
    requires DistinctKeys(rows) && m < |rows| && g <= lo <= hi <= g + MAX_SOURCE_SCAN && hi <= |rows| && g < |rows|
    requires forall k :: lo <= k < hi ==> rows[k].time != rows[g].time && KeyLess(rows[m], rows[k])
    ensures |Ahead(rows, g, m)| >= hi - lo
  {
    forall e | e in Elements(rows[lo..hi])
      ensures e in Ahead(rows, g, m)
    {
      var k :| 0 <= k < |rows[lo..hi]| && rows[lo..hi][k] == e;
      assert rows[lo + k] == e;
    }
    SliceCount(rows, lo, hi);
    SubsetSize(Elements(rows[lo..hi]), Ahead(rows, g, m));
  }

  /** With equal times in the order of the identifiers it is enough that no time has more than 500 - `limit` rows. */
  lemma OrderedBrings(rows: seq<Entry>, limit: nat)
    requires Plain(rows) && InIdentifierOrder(rows) && 1 <= limit < MAX_SOURCE_SCAN
    requires Roomy(rows, MAX_SOURCE_SCAN - limit)
    ensures Brings(rows, limit)
  {
    PlainDistinct(rows);
    forall g: nat, m: nat | StartsTime(rows, g) && g + MAX_SOURCE_SCAN <= m < |rows|
      ensures |Ahead(rows, g, m)| >= limit
    {
      var lo, hi := g + MAX_SOURCE_SCAN - limit, g + MAX_SOURCE_SCAN;
      forall k | lo <= k < hi
        ensures rows[k].time != rows[g].time && KeyLess(rows[m], rows[k])
      {
        if rows[k].time != rows[m].time {
          LaterIsAbove(rows, k, m);
        }
      }
      SliceIsAhead(rows, g, m, lo, hi);
    }
  }

  /** Whatever the order of equal times, it is enough that twice the rows of a time leave room for the page. */
  lemma SparseBrings(rows: seq<Entry>, room: nat, limit: nat)
    requires Plain(rows) && 1 <= room && 1 <= limit && 2 * room + limit <= MAX_SOURCE_SCAN + 1 && Roomy(rows, room)
    ensures Brings(rows, limit)
  {
    PlainDistinct(rows);
    forall g: nat, m: nat | StartsTime(rows, g) && g + MAX_SOURCE_SCAN <= m < |rows|
      ensures |Ahead(rows, g, m)| >= limit
    {
      var lo, hi := g + room, g + MAX_SOURCE_SCAN - room + 1;
      forall k | lo <= k < hi
        ensures rows[k].time != rows[g].time && KeyLess(rows[m], rows[k])
      {
        LaterIsAbove(rows, k, m);
      }
      SliceIsAhead(rows, g, m, lo, hi);
    }
  }

  // ----- what a cut scan still brings

  lemma SourceIsPlain(store: Store, s: nat)
    requires AllLatestFirst(store) && s < |store|
    ensures Plain(store[s])
  {
    var rows := store[s];
    forall w, f | InStore([rows], w) && InStore([rows], f)
      ensures !MixedPair(w, f)
    {
      InOneSource(rows, w);
      InOneSource(rows, f);
      assert w in store[s] && f in store[s] && InStore(store, w) && InStore(store, f);
    }
  }

  /** A cursor of the store, and a row of a source no later than it. */
  lemma RowIsBelow(store: Store, s: nat, cursor: Option<Entry>, k: nat)
    requires AllLatestFirst(store) && ValidCursor(store, cursor) && s < |store| && k < |store[s]|
    ensures cursor.Some? && store[s][k].time < cursor.value.time ==> Below(store[s][k], cursor)
    ensures cursor.Some? && Below(store[s][k], cursor) ==> store[s][k].time <= cursor.value.time
  {
    assert store[s][k] in store[s] && InStore(store, store[s][k]);
    if cursor.Some? {
      if store[s][k].time < cursor.value.time {
        EarlierIsLess(store[s][k], cursor.value);
      }
      if Below(store[s][k], cursor) {
        TextsOrderTimes(store[s][k], cursor.value);
      }
    }
  }

  /** A row below the cursor that its scan does not take lies beyond the scan. */
  lemma NotTakenIsBeyond(store: Store, s: nat, cursor: Option<Entry>, g: nat, m: nat)
    requires AllLatestFirst(store) && ValidCursor(store, cursor) && s < |store| && m < |store[s]|
    requires QueryFrom(store[s], cursor, g) && Below(store[s][m], cursor) && store[s][m] !in Projected(store[s], cursor)
    ensures g + MAX_SOURCE_SCAN <= m && StartsTime(store[s], g)
  {
    SourceIsPlain(store, s);
    PlainDistinct(store[s]);
    RowIsBelow(store, s, cursor, m);
    ProjectedExactly(store[s], cursor, g, m);
  }

  lemma AheadIsTaken(store: Store, s: nat, cursor: Option<Entry>, g: nat, m: nat, e: Entry)
    requires AllLatestFirst(store) && ValidCursor(store, cursor) && s < |store| && g < |store[s]| && m < |store[s]|
    requires QueryFrom(store[s], cursor, g) && e in Ahead(store[s], g, m)
    ensures e in Projected(store[s], cursor)
  {
    var rows := store[s];
    var k :| g <= k < g + MAX_SOURCE_SCAN && k < |rows| && rows[k].time != rows[g].time && rows[k] == e;
    SourceIsPlain(store, s);
    PlainDistinct(rows);
    assert rows[k].time < rows[g].time;
    RowIsBelow(store, s, cursor, k);
    ProjectedExactly(rows, cursor, g, k);
  }

  lemma ProjectedIsCandidate(store: Store, s: nat, cursor: Option<Entry>, e: Entry)
    requires Frozen(store) && s < |store| && e in Projected(store[s], cursor)
    ensures e in SortedCandidates(store, cursor)
  {
    FlatMapMembers(store, rows => Projected(rows, cursor), e);
    assert e in (rows => Projected(rows, cursor))(store[s]);
    SortedCandidatesOk(store, cursor);
  }

  // ----- the page is the top of the history

  lemma {:induction false} DistinctCount(s: seq<Entry>)
    requires Descending(s)
    ensures |Elements(s)| == |s|
    decreases |s|
  {
    if s == [] {
      assert Elements(s) == {};
    } else {
      var front, last := s[..|s| - 1], s[|s| - 1];
      DistinctCount(front);
      assert last !in front;
      assert s == front + [last];
      assert Elements(s) == Elements(front) + {last};
    }
  }

  /** Members of a descending list above one of its members come before it. */
  lemma AboveComesBefore(all: seq<Entry>, i: nat, above: set<Entry>)
    requires Descending(all) && i < |all|
    requires forall e :: e in above ==> e in all && KeyLess(all[i], e)
    ensures |above| <= i
  {
    var front := all[..i];
    forall e | e in above
      ensures e in Elements(front)
    {
      var j :| 0 <= j < |all| && all[j] == e;
      NotBothLess(all[i], e);
      assert j < i;
      assert front[j] == e;
    }
    SliceDescends(all, 0, i);
    assert all[0..i] == front;
    DistinctCount(front);
    SubsetSize(above, Elements(front));
  }

  /** Where two descending lists agree so far, the next record of one is not among them in the other. */
  lemma NotAmongFirst(a: seq<Entry>, b: seq<Entry>, k: nat, i: nat)
    requires Descending(b) && k <= |a| && k < |b| && a[..k] == b[..k] && i < |a| && a[i] == b[k]
    ensures i >= k
  {
    assert i < k ==> a[..k][i] == b[..k][i];
    assert i < k ==> KeyLess(b[k], b[i]);
  }

  /** Lists that agree so far agree at the next index, when the one holds the next of the other. */
  lemma NextSame(sorted: seq<Entry>, all: seq<Entry>, k: nat)
    requires Descending(sorted) && Descending(all) && k <= |sorted| && k < |all| && sorted[..k] == all[..k]
    requires all[k] in sorted && forall e :: e in sorted ==> e in all
    ensures k < |sorted| && sorted[k] == all[k]
  {
    var i :| 0 <= i < |sorted| && sorted[i] == all[k];
    NotAmongFirst(sorted, all, k, i);
    assert sorted[k] in all;
    var j :| 0 <= j < |all| && all[j] == sorted[k];
    NotAmongFirst(all, sorted, k, j);
    NotBothLess(sorted[k], all[k]);
    assert i > k ==> KeyLess(all[k], sorted[k]);
    assert j > k ==> KeyLess(sorted[k], all[k]);
  }

  lemma {:induction false} SamePrefix(sorted: seq<Entry>, all: seq<Entry>, n: nat)
    requires Descending(sorted) && Descending(all) && n <= |all|
    requires forall e :: e in sorted ==> e in all
    requires forall i :: 0 <= i < n ==> all[i] in sorted
    ensures n <= |sorted| && sorted[..n] == all[..n]
    decreases n
  {
    if n > 0 {
      SamePrefix(sorted, all, n - 1);
      NextSame(sorted, all, n - 1);
      assert sorted[..n] == sorted[..n - 1] + [sorted[n - 1]] && all[..n] == all[..n - 1] + [all[n - 1]];
    }
  }

  /** `rest` are the records of the store below the cursor, latest first. */
  ghost predicate IsRest(store: Store, cursor: Option<Entry>, rest: seq<Entry>) {
    Descending(rest) && forall e :: e in rest <==> InStore(store, e) && Below(e, cursor)
  }

  lemma CandidatesAreRest(store: Store, cursor: Option<Entry>, rest: seq<Entry>, e: Entry)
    requires Frozen(store) && IsRest(store, cursor, rest) && e in SortedCandidates(store, cursor)
    ensures e in rest
  {
    SortedCandidatesOk(store, cursor);
    CandidateMembers(store, cursor, e);
  }

  /** A record that its scan leaves behind is not among the `limit` latest. */
  lemma LeftBehindIsLow(store: Store, s: nat, cursor: Option<Entry>, rest: seq<Entry>, m: nat, limit: nat, i: nat)
    requires AllLatestFirst(store) && s < |store| && ValidCursor(store, cursor) && IsRest(store, cursor, rest)
    requires Brings(store[s], limit) && i < |rest| && m < |store[s]| && store[s][m] == rest[i]
    requires rest[i] !in Projected(store[s], cursor)
    ensures limit <= i
  {
    assert rest[i] in rest;
    var g := QueryStarts(store[s], cursor);
    NotTakenIsBeyond(store, s, cursor, g, m);
    forall e | e in Ahead(store[s], g, m)
      ensures e in rest && KeyLess(rest[i], e)
    {
      AheadIsTaken(store, s, cursor, g, m, e);
      ProjectedIsCandidate(store, s, cursor, e);
      CandidatesAreRest(store, cursor, rest, e);
    }
    AboveComesBefore(rest, i, Ahead(store[s], g, m));
  }

  lemma RestIsStored(store: Store, cursor: Option<Entry>, rest: seq<Entry>, i: nat) returns (s: nat, m: nat)
    requires IsRest(store, cursor, rest) && i < |rest|
    ensures s < |store| && m < |store[s]| && store[s][m] == rest[i] && Below(rest[i], cursor)
  {
    assert rest[i] in rest;
    s :| 0 <= s < |store| && rest[i] in store[s];
    m :| 0 <= m < |store[s]| && store[s][m] == rest[i];
  }

  /** One of the `limit` latest records below the cursor is always scanned. */
  lemma TopIsScanned(store: Store, cursor: Option<Entry>, rest: seq<Entry>, limit: nat, i: nat)
    requires AllLatestFirst(store) && ValidCursor(store, cursor) && IsRest(store, cursor, rest)
    requires AllBring(store, limit) && i < limit && i < |rest|
    ensures rest[i] in SortedCandidates(store, cursor)
  {
    var s, m := RestIsStored(store, cursor, rest, i);
    if rest[i] !in Projected(store[s], cursor) {
      LeftBehindIsLow(store, s, cursor, rest, m, limit, i);
    }
    ProjectedIsCandidate(store, s, cursor, rest[i]);
  }

  lemma UncutIsRest(store: Store, cursor: Option<Entry>, rest: seq<Entry>, i: nat)
    requires AllLatestFirst(store) && ValidCursor(store, cursor) && IsRest(store, cursor, rest)
    requires !AnyTruncated(store, cursor) && i < |rest|
    ensures rest[i] in SortedCandidates(store, cursor)
  {
    var s, m := RestIsStored(store, cursor, rest, i);
    var g := QueryStarts(store[s], cursor);
    assert !Truncated(store[s], cursor);
    if rest[i] !in Projected(store[s], cursor) {
      NotTakenIsBeyond(store, s, cursor, g, m);
    }
    ProjectedIsCandidate(store, s, cursor, rest[i]);
  }

  lemma {:induction false} ExaminesLimit(sorted: seq<Entry>, limit: nat, from: nat)
    requires 1 <= limit < MAX_SOURCE_SCAN && from <= Min(limit, |sorted|)
    ensures Examined(sorted, limit, Everything(), from) == Min(limit, |sorted|)
    decreases |sorted| - from
  {
    KeepAll(sorted[..from], Everything());
    if from < Min(limit, |sorted|) {
      ExaminesLimit(sorted, limit, from + 1);
    }
  }

  /** An unfiltered page holds the next `limit` records of the history, or what is left of it. */
  lemma TopPage(store: Store, cursor: Option<Entry>, rest: seq<Entry>, limit: nat)
    requires AllLatestFirst(store) && ValidCursor(store, cursor) && IsRest(store, cursor, rest)
    requires 1 <= limit < MAX_SOURCE_SCAN && AllBring(store, limit)
    ensures var n, page := Min(limit, |rest|), PageOf(store, cursor, limit, Everything());
            && page.records == rest[..n]
            && (if page.next.Some? then n > 0 && page.next.value == rest[n - 1] else n == |rest|)
  {
    var sorted, n := SortedCandidates(store, cursor), Min(limit, |rest|);
    SortedCandidatesOk(store, cursor);
    forall e | e in sorted
      ensures e in rest
    {
      CandidatesAreRest(store, cursor, rest, e);
    }
    forall i | 0 <= i < n
      ensures rest[i] in sorted
    {
      TopIsScanned(store, cursor, rest, limit, i);
    }
    SamePrefix(sorted, rest, n);
    NoLonger(sorted, rest, limit);
    ExaminesLimit(sorted, limit, 0);
    KeepAll(sorted[..n], Everything());
    PageFrom(store, cursor, limit, Everything(), sorted, n);
    if !AnyTruncated(store, cursor) && n == |sorted| {
      UncutEnds(store, cursor, rest, n);
    }
  }

  lemma NoLonger(sorted: seq<Entry>, rest: seq<Entry>, limit: nat)
    requires Descending(sorted) && Descending(rest) && forall e :: e in sorted ==> e in rest
    requires Min(limit, |rest|) <= |sorted|
    ensures Min(limit, |sorted|) == Min(limit, |rest|)
  {
    DistinctCount(sorted);
    DistinctCount(rest);
    SubsetSize(Elements(sorted), Elements(rest));
  }

  lemma UncutEnds(store: Store, cursor: Option<Entry>, rest: seq<Entry>, n: nat)
    requires AllLatestFirst(store) && ValidCursor(store, cursor) && IsRest(store, cursor, rest)
    requires !AnyTruncated(store, cursor) && n == |SortedCandidates(store, cursor)| <= |rest|
    ensures n == |rest|
  {
    var sorted := SortedCandidates(store, cursor);
    SortedCandidatesOk(store, cursor);
    forall i | 0 <= i < |rest|
      ensures rest[i] in sorted
    {
      UncutIsRest(store, cursor, rest, i);
    }
    DistinctCount(sorted);
    DistinctCount(rest);
    assert Elements(rest) <= Elements(sorted);
    SubsetSize(Elements(rest), Elements(sorted));
  }

  // ----- all pages

  lemma {:induction false} Downward(top: nat, holds: nat -> bool, k: nat)
    requires k <= top && holds(top)
    requires forall i: nat :: i < top && (forall j: nat :: i < j <= top ==> holds(j)) ==> holds(i)
    ensures forall j: nat :: k <= j <= top ==> holds(j)
    decreases top - k
  {
    if k < top {
      Downward(top, holds, k + 1);
    }
  }

  lemma RestAfter(store: Store, all: seq<Entry>, k: nat)
    requires Frozen(store) && IsHistory(store, all) && k <= |all|
    ensures IsRest(store, CursorAt(all, k), all[k..]) && ValidCursor(store, CursorAt(all, k))
  {
    SliceDescends(all, k, |all|);
    assert all[k..|all|] == all[k..];
    if k == 0 {
      assert all[0..] == all;
    } else {
      forall e
        ensures e in all[k..] <==> InStore(store, e) && Below(e, CursorAt(all, k))
      {
        AfterIndex(all, k, e);
      }
      assert all[k - 1] in all;
    }
  }

  ghost predicate Listed(store: Store, all: seq<Entry>, k: nat, limit: nat) {
    k <= |all| && AllPages(store, CursorAt(all, k), limit, Everything()) == all[k..]
  }

  lemma ListedBy(store: Store, cursor: Option<Entry>, page: Page, rest: seq<Entry>, n: nat, limit: nat)
    requires page == PageOf(store, cursor, limit, Everything()) && n <= |rest| && page.records == rest[..n]
    requires if page.next.Some? then AllPages(store, page.next, limit, Everything()) == rest[n..] else n == |rest|
    ensures AllPages(store, cursor, limit, Everything()) == rest
  {
    if page.next.Some? {
      PagesUnfold(store, cursor, limit, Everything(), page.next.value);
      assert rest == rest[..n] + rest[n..];
    } else {
      FinalPage(store, cursor, limit, Everything());
      assert rest == rest[..n];
    }
  }

  lemma ListedStep(store: Store, all: seq<Entry>, k: nat, limit: nat)
    requires AllLatestFirst(store) && IsHistory(store, all) && k <= |all|
    requires 1 <= limit < MAX_SOURCE_SCAN && AllBring(store, limit)
    requires forall j: nat :: k < j <= |all| ==> Listed(store, all, j, limit)
    ensures Listed(store, all, k, limit)
  {
    var cursor, rest := CursorAt(all, k), all[k..];
    RestAfter(store, all, k);
    TopPage(store, cursor, rest, limit);
    var n, page := Min(limit, |rest|), PageOf(store, cursor, limit, Everything());
    if page.next.Some? {
      assert page.next == CursorAt(all, k + n);
      assert Listed(store, all, k + n, limit);
      assert rest[n..] == all[k + n..];
    }
    ListedBy(store, cursor, page, rest, n, limit);
  }

  /**
   Whatever the number and length of the sources and the order of their equal times: when no second is
   mixed and every cut scan brings `limit` records above what it leaves behind, the unfiltered pages of
   that limit are the whole history.
   */
  lemma UnfilteredPagesAreTheHistory(store: Store, all: seq<Entry>, limit: nat)
    requires AllLatestFirst(store) && IsHistory(store, all)
    requires 1 <= limit < MAX_SOURCE_SCAN && AllBring(store, limit)
    ensures AllPages(store, None, limit, Everything()) == all
  {
    var holds := (k: nat) => Listed(store, all, k, limit);
    ListedStep(store, all, |all|, limit);
    forall i: nat | i < |all| && (forall j: nat :: i < j <= |all| ==> holds(j))
      ensures holds(i)
    {
      forall j: nat | i < j <= |all|
        ensures Listed(store, all, j, limit)
      {
        assert holds(j);
      }
      ListedStep(store, all, i, limit);
    }
    Downward(|all|, holds, 0);
    assert holds(0);
    assert all[0..] == all;
  }
}
