/**
 Merged history pages over several sources with an opaque cursor. Records are ordered by the text of
 their time and by history identifier; the database filters and orders by the time itself.

 A time is in microseconds. Its text has a fraction only when there is one, and '.' sorts before
 'Z', so within a second the whole second sorts after every fraction.
 */
module GovernanceHistory {
  import opened Common

  const MAX_SOURCE_SCAN := 500
  const SECOND := 1_000_000

  /** History identifiers are distinct; only their order matters. */
  datatype Entry = Entry(time: int, historyId: int, outcome: string, subject: string)

  /** The rows of each selected and available source, in the database's order. */
  type Store = seq<seq<Entry>>

  /** Orders times as their texts sort. */
  function TextRank(time: int): int {
    time / SECOND * (SECOND + 1) + if time % SECOND == 0 then SECOND else time % SECOND
  }

  predicate KeyLess(a: Entry, b: Entry) {
    TextRank(a.time) < TextRank(b.time) || (TextRank(a.time) == TextRank(b.time) && a.historyId < b.historyId)
  }

  predicate Below(e: Entry, cursor: Option<Entry>) {
    cursor.Some? ==> KeyLess(e, cursor.value)
  }

  function Keep(rows: seq<Entry>, test: Entry -> bool): seq<Entry> {
    if rows == [] then []
    else Keep(rows[..|rows| - 1], test) + if test(rows[|rows| - 1]) then [rows[|rows| - 1]] else []
  }

  // ----- one page

  /** What the query for one source returns: rows no later than the cursor, one more than are scanned. */
  function Selected(rows: seq<Entry>, cursor: Option<Entry>): seq<Entry> {
    Keep(rows, (e: Entry) => cursor.Some? ==> e.time <= cursor.value.time)
  }

  predicate Truncated(rows: seq<Entry>, cursor: Option<Entry>) {
    |Selected(rows, cursor)| > MAX_SOURCE_SCAN
  }

  function Projected(rows: seq<Entry>, cursor: Option<Entry>): seq<Entry> {
    var selected := Selected(rows, cursor);
    Keep(if |selected| > MAX_SOURCE_SCAN then selected[..MAX_SOURCE_SCAN] else selected, (e: Entry) => Below(e, cursor))
  }

  function Candidates(store: Store, cursor: Option<Entry>): seq<Entry> {
    FlatMap(store, rows => Projected(rows, cursor))
  }

  function Insert(e: Entry, sorted: seq<Entry>): seq<Entry> {
    if sorted == [] || !KeyLess(e, sorted[0]) then [e] + sorted else [sorted[0]] + Insert(e, sorted[1..])
  }

  /** Latest first. */
  function SortDescending(entries: seq<Entry>): seq<Entry> {
    if entries == [] then [] else Insert(entries[|entries| - 1], SortDescending(entries[..|entries| - 1]))
  }

  datatype Page = Page(records: seq<Entry>, next: Option<Entry>)

  /** The walk stops at the scan limit or as soon as the page is full. */
  predicate Stops(sorted: seq<Entry>, limit: nat, matches: Entry -> bool, n: nat)
    requires n <= |sorted|
  {
    n == |sorted| || n >= MAX_SOURCE_SCAN || |Keep(sorted[..n], matches)| >= limit
  }

  /** How many records are examined when the walk stands at `from`. */
  function Examined(sorted: seq<Entry>, limit: nat, matches: Entry -> bool, from: nat): (n: nat)
    requires from <= |sorted|
    ensures from <= n <= |sorted| && Stops(sorted, limit, matches, n)
    decreases |sorted| - from
  {
    if Stops(sorted, limit, matches, from) then from else Examined(sorted, limit, matches, from + 1)
  }

  ghost predicate AnyTruncated(store: Store, cursor: Option<Entry>) {
    exists i :: 0 <= i < |store| && Truncated(store[i], cursor)
  }

  ghost function PageOf(store: Store, cursor: Option<Entry>, limit: nat, matches: Entry -> bool): Page {
    var sorted := SortDescending(Candidates(store, cursor));
    var n := Examined(sorted, limit, matches, 0);
    Page(Keep(sorted[..n], matches),
         if n > 0 && (n < |sorted| || AnyTruncated(store, cursor)) then Some(sorted[n - 1]) else None)
  }

  lemma TruncatedSnoc(store: Store, cursor: Option<Entry>, i: nat)
    requires i < |store|
    ensures AnyTruncated(store[..i + 1], cursor) <==> AnyTruncated(store[..i], cursor) || Truncated(store[i], cursor)
  {
    if AnyTruncated(store[..i], cursor) {
      var k :| 0 <= k < i && Truncated(store[..i][k], cursor);
      assert store[..i + 1][k] == store[..i][k];
    }
    if AnyTruncated(store[..i + 1], cursor) {
      var k :| 0 <= k < i + 1 && Truncated(store[..i + 1][k], cursor);
      assert k == i || store[..i][k] == store[..i + 1][k];
    }
    assert store[..i + 1][i] == store[i];
  }

  /** Reads every source; some scan may have been cut short. */
  method ReadSources(store: Store, cursor: Option<Entry>) returns (records: seq<Entry>, truncated: bool)
    ensures records == Candidates(store, cursor)
    ensures truncated == AnyTruncated(store, cursor)
  {
    records, truncated := [], false;
    for i := 0 to |store|
      invariant records == Candidates(store[..i], cursor)
      invariant truncated == AnyTruncated(store[..i], cursor)
    {
      FlatMapSnoc(store, rows => Projected(rows, cursor), i);
      TruncatedSnoc(store, cursor, i);
      records := records + Projected(store[i], cursor);
      truncated := truncated || Truncated(store[i], cursor);
    }
    assert store[..|store|] == store;
  }

  /** Lists matching records until the page is full or the scan limit is reached. */
  method WalkPage(sorted: seq<Entry>, limit: nat, matches: Entry -> bool) returns (listed: seq<Entry>, examined: nat)
    ensures examined == Examined(sorted, limit, matches, 0) && listed == Keep(sorted[..examined], matches)
  {
    listed, examined := [], 0;
    while examined < |sorted| && examined < MAX_SOURCE_SCAN && |listed| < limit
      invariant examined <= |sorted| && listed == Keep(sorted[..examined], matches)
      invariant Examined(sorted, limit, matches, 0) == Examined(sorted, limit, matches, examined)
    {
      assert sorted[..examined + 1][..examined] == sorted[..examined];
      if matches(sorted[examined]) {
        listed := listed + [sorted[examined]];
      }
      examined := examined + 1;
    }
  }

  method ListHistory(store: Store, cursor: Option<Entry>, limit: nat, matches: Entry -> bool) returns (page: Page)
    requires limit >= 1
    ensures page == PageOf(store, cursor, limit, matches)
  {
    var records, truncated := ReadSources(store, cursor);
    var sorted := SortDescending(records);
    var listed, examined := WalkPage(sorted, limit, matches);
    var more := examined < |sorted| || truncated;
    page := Page(listed, if examined > 0 && more then Some(sorted[examined - 1]) else None);
  }

  // ----- sorting and filtering

  ghost predicate Descending(s: seq<Entry>) {
    forall i, j :: 0 <= i < j < |s| ==> KeyLess(s[j], s[i])
  }

  ghost predicate DistinctKeys(s: seq<Entry>) {
    forall i, j :: 0 <= i < j < |s| ==> s[i].historyId != s[j].historyId
  }

  lemma {:induction false} KeepMembers(rows: seq<Entry>, test: Entry -> bool, e: Entry)
    ensures e in Keep(rows, test) <==> e in rows && test(e)
    decreases |rows|
  {
    if rows != [] {
      KeepMembers(rows[..|rows| - 1], test, e);
      assert rows == rows[..|rows| - 1] + [rows[|rows| - 1]];
    }
  }

  lemma {:induction false} KeepSplit(a: seq<Entry>, b: seq<Entry>, test: Entry -> bool)
    ensures Keep(a + b, test) == Keep(a, test) + Keep(b, test)
    decreases |b|
  {
    if b == [] {
      assert a + b == a;
    } else {
      KeepSplit(a, b[..|b| - 1], test);
      assert (a + b)[..|a + b| - 1] == a + b[..|b| - 1];
    }
  }

  lemma {:induction false} KeepLength(rows: seq<Entry>, test: Entry -> bool)
    ensures |Keep(rows, test)| <= |rows|
    decreases |rows|
  {
    if rows != [] {
      KeepLength(rows[..|rows| - 1], test);
    }
  }

  lemma {:induction false} KeepDistinct(rows: seq<Entry>, test: Entry -> bool)
    requires DistinctKeys(rows)
    ensures DistinctKeys(Keep(rows, test))
    decreases |rows|
  {
    if rows != [] {
      var front, last := rows[..|rows| - 1], rows[|rows| - 1];
      KeepDistinct(front, test);
      forall i | 0 <= i < |Keep(front, test)|
        ensures Keep(front, test)[i].historyId != last.historyId
      {
        KeepMembers(front, test, Keep(front, test)[i]);
      }
    }
  }

  lemma {:induction false} KeepDescending(rows: seq<Entry>, test: Entry -> bool)
    requires Descending(rows)
    ensures Descending(Keep(rows, test))
    decreases |rows|
  {
    if rows != [] {
      var front, last := rows[..|rows| - 1], rows[|rows| - 1];
      KeepDescending(front, test);
      forall i | 0 <= i < |Keep(front, test)|
        ensures KeyLess(last, Keep(front, test)[i])
      {
        KeepMembers(front, test, Keep(front, test)[i]);
      }
    }
  }

  lemma {:induction false} InsertMembers(e: Entry, sorted: seq<Entry>, x: Entry)
    ensures x in Insert(e, sorted) <==> x == e || x in sorted
    decreases |sorted|
  {
    if sorted != [] && KeyLess(e, sorted[0]) {
      InsertMembers(e, sorted[1..], x);
      assert sorted == [sorted[0]] + sorted[1..];
    }
  }

  lemma {:induction false} SortMembers(entries: seq<Entry>, x: Entry)
    ensures x in SortDescending(entries) <==> x in entries
    decreases |entries|
  {
    if entries != [] {
      SortMembers(entries[..|entries| - 1], x);
      InsertMembers(entries[|entries| - 1], SortDescending(entries[..|entries| - 1]), x);
      assert entries == entries[..|entries| - 1] + [entries[|entries| - 1]];
    }
  }

  lemma DescendingCons(e: Entry, s: seq<Entry>)
    requires Descending(s) && forall x :: x in s ==> KeyLess(x, e)
    ensures Descending([e] + s)
  {
  }

  lemma {:induction false} InsertSorts(e: Entry, sorted: seq<Entry>)
    requires Descending(sorted) && forall x :: x in sorted ==> x.historyId != e.historyId
    ensures Descending(Insert(e, sorted))
    decreases |sorted|
  {
    if sorted == [] || !KeyLess(e, sorted[0]) {
      forall x | x in sorted
        ensures KeyLess(x, e)
      {
        assert KeyLess(sorted[0], e) by { if sorted != [] { assert sorted[0] in sorted; } }
        if x != sorted[0] {
          var i :| 0 <= i < |sorted| && sorted[i] == x;
        }
      }
      DescendingCons(e, sorted);
    } else {
      InsertSorts(e, sorted[1..]);
      forall x | x in Insert(e, sorted[1..])
        ensures KeyLess(x, sorted[0])
      {
        InsertMembers(e, sorted[1..], x);
        if x != e {
          var i :| 0 <= i < |sorted[1..]| && sorted[1..][i] == x;
          assert sorted[i + 1] == x;
        }
      }
      DescendingCons(sorted[0], Insert(e, sorted[1..]));
    }
  }

  lemma {:induction false} SortSorts(entries: seq<Entry>)
    requires DistinctKeys(entries)
    ensures Descending(SortDescending(entries))
    decreases |entries|
  {
    if entries != [] {
      var front, last := entries[..|entries| - 1], entries[|entries| - 1];
      SortSorts(front);
      forall x | x in SortDescending(front)
        ensures x.historyId != last.historyId
      {
        SortMembers(front, x);
        var i :| 0 <= i < |front| && front[i] == x;
        assert entries[i] == x;
      }
      InsertSorts(last, SortDescending(front));
    }
  }

  /** A strictly descending list is determined by its members. */
  lemma {:induction false} DescendingUnique(a: seq<Entry>, b: seq<Entry>)
    requires Descending(a) && Descending(b) && forall x :: x in a <==> x in b
    ensures a == b
    decreases |a|
  {
    assert b == [] || b[0] in b;
    if a != [] {
      assert a[0] in b && b[0] in a;
      var i :| 0 <= i < |b| && b[i] == a[0];
      var j :| 0 <= j < |a| && a[j] == b[0];
      assert i == 0;
      TailMembers(a);
      TailMembers(b);
      DescendingUnique(a[1..], b[1..]);
      assert a == [a[0]] + a[1..] && b == [b[0]] + b[1..];
    }
  }

  lemma TailMembers(a: seq<Entry>)
    requires a != [] && Descending(a)
    ensures forall x :: x in a[1..] <==> x in a && x != a[0]
  {
    forall x
      ensures x in a[1..] <==> x in a && x != a[0]
    {
      if x in a[1..] {
        var i :| 0 <= i < |a[1..]| && a[1..][i] == x;
        assert KeyLess(a[i + 1], a[0]);
      }
    }
  }

  // ----- what every walk of the pages keeps

  ghost predicate Frozen(store: Store) {
    && (forall i :: 0 <= i < |store| ==> DistinctKeys(store[i]))
    && (forall i, j, e, f :: 0 <= i < j < |store| && e in store[i] && f in store[j] ==> e.historyId != f.historyId)
  }

  ghost predicate InStore(store: Store, e: Entry) {
    exists i :: 0 <= i < |store| && e in store[i]
  }

  lemma ProjectedMembers(rows: seq<Entry>, cursor: Option<Entry>, e: Entry)
    requires e in Projected(rows, cursor)
    ensures e in rows && Below(e, cursor) && (cursor.Some? ==> e.time <= cursor.value.time)
  {
    var selected := Selected(rows, cursor);
    KeepMembers(if |selected| > MAX_SOURCE_SCAN then selected[..MAX_SOURCE_SCAN] else selected,
                (x: Entry) => Below(x, cursor), e);
    assert e in selected;
    KeepMembers(rows, (x: Entry) => cursor.Some? ==> x.time <= cursor.value.time, e);
  }

  lemma CandidateMembers(store: Store, cursor: Option<Entry>, e: Entry)
    requires e in Candidates(store, cursor)
    ensures InStore(store, e) && Below(e, cursor) && (cursor.Some? ==> e.time <= cursor.value.time)
  {
    FlatMapMembers(store, rows => Projected(rows, cursor), e);
    var i :| 0 <= i < |store| && e in (rows => Projected(rows, cursor))(store[i]);
    ProjectedMembers(store[i], cursor, e);
  }

  lemma ProjectedDistinct(rows: seq<Entry>, cursor: Option<Entry>)
    requires DistinctKeys(rows)
    ensures DistinctKeys(Projected(rows, cursor))
  {
    var selected := Selected(rows, cursor);
    KeepDistinct(rows, (x: Entry) => cursor.Some? ==> x.time <= cursor.value.time);
    KeepDistinct(if |selected| > MAX_SOURCE_SCAN then selected[..MAX_SOURCE_SCAN] else selected,
                 (x: Entry) => Below(x, cursor));
  }

  lemma DistinctAppend(a: seq<Entry>, b: seq<Entry>)
    requires DistinctKeys(a) && DistinctKeys(b) && forall e, f :: e in a && f in b ==> e.historyId != f.historyId
    ensures DistinctKeys(a + b)
  {
    forall i, j | 0 <= i < j < |a + b|
      ensures (a + b)[i].historyId != (a + b)[j].historyId
    {
      assert i < |a| <= j ==> a[i] in a && b[j - |a|] in b;
    }
  }

  lemma DescendingAppend(a: seq<Entry>, b: seq<Entry>)
    requires Descending(a) && Descending(b) && forall e, f :: e in a && f in b ==> KeyLess(f, e)
    ensures Descending(a + b)
  {
    forall i, j | 0 <= i < j < |a + b|
      ensures KeyLess((a + b)[j], (a + b)[i])
    {
      assert i < |a| <= j ==> a[i] in a && b[j - |a|] in b;
    }
  }

  lemma CandidatesApart(store: Store, front: Store, last: seq<Entry>, cursor: Option<Entry>, e: Entry, f: Entry)
    requires Frozen(store) && store != [] && front == store[..|store| - 1] && last == store[|store| - 1]
    requires e in Candidates(front, cursor) && f in Projected(last, cursor)
    ensures e.historyId != f.historyId
  {
    CandidateMembers(front, cursor, e);
    ProjectedMembers(last, cursor, f);
    var k :| 0 <= k < |front| && e in front[k];
    assert store[k] == front[k];
  }

  lemma {:induction false} CandidatesDistinct(store: Store, cursor: Option<Entry>)
    requires Frozen(store)
    ensures DistinctKeys(Candidates(store, cursor))
    decreases |store|
  {
    if store != [] {
      var n := |store| - 1;
      var front, last := store[..n], store[n];
      assert Frozen(front);
      CandidatesDistinct(front, cursor);
      ProjectedDistinct(last, cursor);
      forall e, f | e in Candidates(front, cursor) && f in Projected(last, cursor)
        ensures e.historyId != f.historyId
      {
        CandidatesApart(store, front, last, cursor, e, f);
      }
      DistinctAppend(Candidates(front, cursor), Projected(last, cursor));
      FlatMapSnoc(store, rows => Projected(rows, cursor), n);
      assert store[..n + 1] == store;
    }
  }

  function SortedCandidates(store: Store, cursor: Option<Entry>): seq<Entry> {
    SortDescending(Candidates(store, cursor))
  }

  lemma SortedCandidatesOk(store: Store, cursor: Option<Entry>)
    requires Frozen(store)
    ensures Descending(SortedCandidates(store, cursor))
    ensures forall e :: e in SortedCandidates(store, cursor) <==> e in Candidates(store, cursor)
  {
    CandidatesDistinct(store, cursor);
    SortSorts(Candidates(store, cursor));
    forall e
      ensures e in SortedCandidates(store, cursor) <==> e in Candidates(store, cursor)
    {
      SortMembers(Candidates(store, cursor), e);
    }
  }

  /** Everything in the store below the cursor. */
  ghost function Remaining(store: Store, cursor: Option<Entry>): set<Entry> {
    set i, e | 0 <= i < |store| && e in store[i] && Below(e, cursor) :: e
  }

  lemma RemainingMembers(store: Store, cursor: Option<Entry>, e: Entry)
    ensures e in Remaining(store, cursor) <==> InStore(store, e) && Below(e, cursor)
  {
    if InStore(store, e) && Below(e, cursor) {
      var i :| 0 <= i < |store| && e in store[i];
    }
  }

  lemma KeyTransitive(a: Entry, b: Entry, c: Entry)
    requires KeyLess(a, b) && KeyLess(b, c)
    ensures KeyLess(a, c)
  {
  }

  /** A next cursor is a record of the store, below the cursor it follows and not above its time. */
  lemma NextIsBelow(store: Store, cursor: Option<Entry>, limit: nat, matches: Entry -> bool)
    requires PageOf(store, cursor, limit, matches).next.Some?
    ensures var next := PageOf(store, cursor, limit, matches).next.value;
            && InStore(store, next) && Below(next, cursor) && (cursor.Some? ==> next.time <= cursor.value.time)
            && |Remaining(store, Some(next))| < |Remaining(store, cursor)|
  {
    var sorted := SortedCandidates(store, cursor);
    var next := PageOf(store, cursor, limit, matches).next.value;
    assert next in sorted;
    SortMembers(Candidates(store, cursor), next);
    CandidateMembers(store, cursor, next);
    forall e | e in Remaining(store, Some(next))
      ensures e in Remaining(store, cursor)
    {
      RemainingMembers(store, Some(next), e);
      RemainingMembers(store, cursor, e);
      if cursor.Some? {
        KeyTransitive(e, next, cursor.value);
      }
    }
    RemainingMembers(store, cursor, next);
    assert next in Remaining(store, cursor) && next !in Remaining(store, Some(next));
    ProperSubsetSize(Remaining(store, Some(next)), Remaining(store, cursor), next);
  }

  lemma ProperSubsetSize(a: set<Entry>, b: set<Entry>, e: Entry)
    requires a <= b && e in b && e !in a
    ensures |a| < |b|
  {
    SubsetSize(a, b - {e});
  }

  lemma {:induction false} SubsetSize(a: set<Entry>, b: set<Entry>)
    requires a <= b
    ensures |a| <= |b|
    decreases |a|
  {
    if a != {} {
      var x :| x in a;
      SubsetSize(a - {x}, b - {x});
    }
  }

  /** All records of all pages, following cursors to their end. */
  ghost function AllPages(store: Store, cursor: Option<Entry>, limit: nat, matches: Entry -> bool): seq<Entry>
    decreases |Remaining(store, cursor)|
  {
    var page := PageOf(store, cursor, limit, matches);
    if page.next.None? then page.records
    else
      NextIsBelow(store, cursor, limit, matches);
      page.records + AllPages(store, page.next, limit, matches)
  }

  lemma PageMembers(store: Store, cursor: Option<Entry>, limit: nat, matches: Entry -> bool, e: Entry)
    requires e in PageOf(store, cursor, limit, matches).records
    ensures e in Candidates(store, cursor) && matches(e)
  {
    var sorted := SortedCandidates(store, cursor);
    var n := Examined(sorted, limit, matches, 0);
    KeepMembers(sorted[..n], matches, e);
    assert e in sorted;
    SortMembers(Candidates(store, cursor), e);
  }

  /** Every record served lies in the store, below the cursor and not above its time, and matches. */
  lemma {:induction false} PagesMembers(store: Store, cursor: Option<Entry>, limit: nat, matches: Entry -> bool,
                                        e: Entry)
    requires e in AllPages(store, cursor, limit, matches)
    ensures InStore(store, e) && Below(e, cursor) && matches(e) && (cursor.Some? ==> e.time <= cursor.value.time)
    decreases |Remaining(store, cursor)|
  {
    var page := PageOf(store, cursor, limit, matches);
    if e in page.records {
      PageMembers(store, cursor, limit, matches, e);
      CandidateMembers(store, cursor, e);
    } else {
      NextIsBelow(store, cursor, limit, matches);
      PagesMembers(store, page.next, limit, matches, e);
      if cursor.Some? {
        KeyTransitive(e, page.next.value, cursor.value);
      }
    }
  }

  lemma PageIsDescending(store: Store, cursor: Option<Entry>, limit: nat, matches: Entry -> bool)
    requires Frozen(store)
    ensures var page := PageOf(store, cursor, limit, matches);
            && Descending(page.records)
            && (page.next.Some? ==>
                  forall e :: e in page.records ==> e == page.next.value || KeyLess(page.next.value, e))
  {
    SortedCandidatesOk(store, cursor);
    var sorted := SortedCandidates(store, cursor);
    var n := Examined(sorted, limit, matches, 0);
    KeepDescending(sorted[..n], matches);
    var page := PageOf(store, cursor, limit, matches);
    if page.next.Some? {
      forall e | e in page.records
        ensures e == page.next.value || KeyLess(page.next.value, e)
      {
        KeepMembers(sorted[..n], matches, e);
        var i :| 0 <= i < n && sorted[i] == e;
      }
    }
  }

  /**
   Following cursors over a frozen store ends and serves strictly descending keys, so nothing is
   served twice, whether or not scans are truncated.
   */
  lemma {:induction false} PagesDescend(store: Store, cursor: Option<Entry>, limit: nat, matches: Entry -> bool)
    requires Frozen(store)
    ensures Descending(AllPages(store, cursor, limit, matches))
    decreases |Remaining(store, cursor)|
  {
    var page := PageOf(store, cursor, limit, matches);
    PageIsDescending(store, cursor, limit, matches);
    if page.next.Some? {
      NextIsBelow(store, cursor, limit, matches);
      PagesDescend(store, page.next, limit, matches);
      var rest := AllPages(store, page.next, limit, matches);
      forall e, f | e in page.records && f in rest
        ensures KeyLess(f, e)
      {
        PagesMembers(store, page.next, limit, matches, f);
        if e != page.next.value {
          KeyTransitive(f, page.next.value, e);
        }
      }
      DescendingAppend(page.records, rest);
    }
  }
}
