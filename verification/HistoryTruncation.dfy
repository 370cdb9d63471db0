/**
 Pages over sources with more rows than one scan reads. The query takes the first rows no later than
 the cursor, those at the cursor's own time included, and drops afterwards what is not below it. It
 lists equal times by native identifier, whose order is not that of the history identifiers by which
 pages and cursors go: rows of one time may come in any order.
 */
module HistoryTruncation {
  import opened Common
  import opened GovernanceHistory
  import opened HistoryCompleteness
  import opened HistoryExactness

  // ----- one source as the query lists it

  /** Later times come first; nothing is said about rows of one time. */
  ghost predicate LatestFirst(rows: seq<Entry>) {
    forall i, j :: 0 <= i < j < |rows| ==> rows[j].time <= rows[i].time
  }

  /** What the query for a cursor takes: the rows from `g` on. */
  ghost predicate QueryFrom(rows: seq<Entry>, cursor: Option<Entry>, g: nat) {
    && g <= |rows| && Selected(rows, cursor) == rows[g..]
    && (if cursor.None? then g == 0
        else forall i :: 0 <= i < |rows| ==> (rows[i].time <= cursor.value.time <==> i >= g))
  }

  lemma {:induction false} KeepFrom(rows: seq<Entry>, test: Entry -> bool, g: nat)
    requires g <= |rows|
    requires forall i :: 0 <= i < |rows| ==> (test(rows[i]) <==> i >= g)
    ensures Keep(rows, test) == rows[g..]
    decreases |rows|
  {
    if rows != [] {
      var front, last := rows[..|rows| - 1], rows[|rows| - 1];
      KeepFrom(front, test, if g == |rows| then g - 1 else g);
      assert g < |rows| ==> front[g..] + [last] == rows[g..];
    }
  }

  lemma {:induction false} FirstNotLater(rows: seq<Entry>, time: int) returns (g: nat)
    requires LatestFirst(rows)
    ensures g <= |rows| && forall i :: 0 <= i < |rows| ==> (rows[i].time <= time <==> i >= g)
    decreases |rows|
  {
    if rows == [] || rows[|rows| - 1].time > time {
      g := |rows|;
    } else {
      var front := rows[..|rows| - 1];
      assert forall i :: 0 <= i < |front| ==> front[i] == rows[i];
      g := FirstNotLater(front, time);
    }
  }

  lemma QueryStarts(rows: seq<Entry>, cursor: Option<Entry>) returns (g: nat)
    requires LatestFirst(rows)
    ensures QueryFrom(rows, cursor, g)
  {
    g := 0;
    if cursor.Some? {
      g := FirstNotLater(rows, cursor.value.time);
    }
    KeepFrom(rows, (e: Entry) => cursor.Some? ==> e.time <= cursor.value.time, g);
  }

  lemma InSlice(rows: seq<Entry>, g: nat, end: nat, i: nat)
    requires DistinctKeys(rows) && g <= end <= |rows| && i < |rows|
    ensures rows[i] in rows[g..end] <==> g <= i < end
  {
    if rows[i] in rows[g..end] {
      var k :| 0 <= k < |rows[g..end]| && rows[g..end][k] == rows[i];
      assert rows[g + k] == rows[i];
    }
    assert g <= i < end ==> rows[g..end][i - g] == rows[i];
  }

  /** What the scan takes of the query. */
  lemma ScanTakes(rows: seq<Entry>, cursor: Option<Entry>, g: nat)
    requires QueryFrom(rows, cursor, g)
    ensures Projected(rows, cursor) == Keep(rows[g..Min(g + MAX_SOURCE_SCAN, |rows|)], (e: Entry) => Below(e, cursor))
  {
    assert rows[g..Min(g + MAX_SOURCE_SCAN, |rows|)] ==
           if |rows[g..]| > MAX_SOURCE_SCAN then rows[g..][..MAX_SOURCE_SCAN] else rows[g..];
  }

  /** A row is projected exactly when the scan reaches it and it is below the cursor. */
  lemma ProjectedExactly(rows: seq<Entry>, cursor: Option<Entry>, g: nat, i: nat)
    requires QueryFrom(rows, cursor, g) && DistinctKeys(rows) && i < |rows|
    ensures rows[i] in Projected(rows, cursor) <==> g <= i < g + MAX_SOURCE_SCAN && Below(rows[i], cursor)
  {
    var end := Min(g + MAX_SOURCE_SCAN, |rows|);
    ScanTakes(rows, cursor, g);
    KeepMembers(rows[g..end], (e: Entry) => Below(e, cursor), rows[i]);
    InSlice(rows, g, end, i);
  }

  lemma CutWhenBeyond(rows: seq<Entry>, cursor: Option<Entry>, g: nat)
    requires QueryFrom(rows, cursor, g) && g + MAX_SOURCE_SCAN < |rows|
    ensures Truncated(rows, cursor)
  {
  }

  lemma EarlierIsLess(e: Entry, c: Entry)
    requires e.time < c.time && !MixedPair(e, c)
    ensures KeyLess(e, c)
  {
    var a, b := e.time / SECOND, c.time / SECOND;
    assert a < b || (a == b && e.time % SECOND < c.time % SECOND);
  }

  lemma OneSource(rows: seq<Entry>, cursor: Option<Entry>)
    ensures Candidates([rows], cursor) == Projected(rows, cursor)
    ensures AnyTruncated([rows], cursor) <==> Truncated(rows, cursor)
  {
    FlatMapSnoc([rows], (r: seq<Entry>) => Projected(r, cursor), 0);
    assert [rows][..1] == [rows] && [rows][..0] == [];
    assert [rows][0] == rows;
  }

  lemma InOneSource(rows: seq<Entry>, e: Entry)
    ensures InStore([rows], e) <==> e in rows
  {
    assert [rows][0] == rows;
  }

  // ----- when one source is served whatever the filter

  /** The first row of its time. */
  predicate StartsTime(rows: seq<Entry>, g: nat) {
    g < |rows| && (g > 0 ==> rows[g - 1].time != rows[g].time)
  }

  /**
   The scan that starts at `g` gets beyond the rows of that time, and where it cuts a run of equal times
   the rows it takes are the ones with the higher identifiers.
   */
  ghost predicate Fair(rows: seq<Entry>, g: nat) {
    g + MAX_SOURCE_SCAN < |rows| ==>
      && rows[g].time != rows[g + MAX_SOURCE_SCAN - 1].time
      && forall k, m :: g <= k < g + MAX_SOURCE_SCAN <= m < |rows| && rows[k].time == rows[m].time ==>
           KeyLess(rows[m], rows[k])
  }

  ghost predicate FairScans(rows: seq<Entry>) {
    forall g: nat :: StartsTime(rows, g) ==> Fair(rows, g)
  }

  /** A single source of the store as its pages see it. */
  ghost predicate Plain(rows: seq<Entry>) {
    Frozen([rows]) && LatestFirst(rows) && NoMixedSecond([rows])
  }

  lemma PlainDistinct(rows: seq<Entry>)
    requires Frozen([rows])
    ensures DistinctKeys(rows)
  {
    assert [rows][0] == rows;
  }

  lemma LaterIsAbove(rows: seq<Entry>, k: nat, m: nat)
    requires Plain(rows) && k < m < |rows| && rows[k].time != rows[m].time
    ensures KeyLess(rows[m], rows[k])
  {
    InOneSource(rows, rows[k]);
    InOneSource(rows, rows[m]);
    EarlierIsLess(rows[m], rows[k]);
  }

  /** The query for a cursor of the source starts at a row that is the first of its time. */
  lemma QueryStartsTime(rows: seq<Entry>, cursor: Option<Entry>, g: nat)
    requires Plain(rows) && ValidCursor([rows], cursor) && QueryFrom(rows, cursor, g) && rows != []
    ensures StartsTime(rows, g) && (cursor.Some? ==> rows[g].time == cursor.value.time)
  {
    if cursor.Some? {
      InOneSource(rows, cursor.value);
      var c :| 0 <= c < |rows| && rows[c] == cursor.value;
      assert g <= c;
    }
  }

  lemma LeftIsBeyond(rows: seq<Entry>, cursor: Option<Entry>, g: nat, m: nat)
    requires Plain(rows) && ValidCursor([rows], cursor) && QueryFrom(rows, cursor, g) && m < |rows|
    ensures LeftBehind([rows], cursor, rows[m]) <==> Below(rows[m], cursor) && m >= g + MAX_SOURCE_SCAN
  {
    PlainDistinct(rows);
    OneSource(rows, cursor);
    ProjectedExactly(rows, cursor, g, m);
    InOneSource(rows, rows[m]);
    if cursor.Some? && Below(rows[m], cursor) {
      TextsOrderTimes(rows[m], cursor.value);
    }
  }

  /** Such a scan takes a row beyond the cursor's time. */
  lemma BringsSomething(rows: seq<Entry>, cursor: Option<Entry>, g: nat)
    requires Plain(rows) && ValidCursor([rows], cursor) && QueryFrom(rows, cursor, g)
    requires g + MAX_SOURCE_SCAN < |rows| && (cursor.Some? ==> rows[g].time == cursor.value.time)
    requires rows[g].time != rows[g + MAX_SOURCE_SCAN - 1].time
    ensures rows[g + MAX_SOURCE_SCAN - 1] in Projected(rows, cursor)
  {
    var last := g + MAX_SOURCE_SCAN - 1;
    PlainDistinct(rows);
    if cursor.Some? {
      InOneSource(rows, cursor.value);
      InOneSource(rows, rows[last]);
      EarlierIsLess(rows[last], cursor.value);
    }
    ProjectedExactly(rows, cursor, g, last);
  }

  /** A fair scan takes only rows above what it leaves behind. */
  lemma TakesOnlyAbove(rows: seq<Entry>, cursor: Option<Entry>, g: nat, m: nat, e: Entry)
    requires Plain(rows) && QueryFrom(rows, cursor, g) && Fair(rows, g) && e in Projected(rows, cursor)
    requires g + MAX_SOURCE_SCAN <= m < |rows|
    ensures KeyLess(rows[m], e)
  {
    PlainDistinct(rows);
    ProjectedMembers(rows, cursor, e);
    var k :| 0 <= k < |rows| && rows[k] == e;
    ProjectedExactly(rows, cursor, g, k);
    if rows[k].time != rows[m].time {
      LaterIsAbove(rows, k, m);
    }
  }

  /** A fair scan stays above what it leaves behind. */
  lemma FairStaysAbove(rows: seq<Entry>, cursor: Option<Entry>, g: nat, m: nat)
    requires Plain(rows) && ValidCursor([rows], cursor) && QueryFrom(rows, cursor, g)
    requires (cursor.Some? ==> rows[g].time == cursor.value.time) && Fair(rows, g)
    requires g + MAX_SOURCE_SCAN <= m < |rows|
    ensures StaysAbove([rows], cursor, rows[m])
  {
    OneSource(rows, cursor);
    CutWhenBeyond(rows, cursor, g);
    BringsSomething(rows, cursor, g);
    var sorted := SortedCandidates([rows], cursor);
    SortedCandidatesOk([rows], cursor);
    assert rows[g + MAX_SOURCE_SCAN - 1] in sorted;
    var lowest := sorted[Min(MAX_SOURCE_SCAN, |sorted|) - 1];
    assert lowest in sorted;
    TakesOnlyAbove(rows, cursor, g, m, lowest);
  }

  lemma FairHolds(rows: seq<Entry>)
    requires Plain(rows) && FairScans(rows)
    ensures AlwaysHolds([rows])
  {
    forall cursor, e | ValidCursor([rows], cursor) && LeftBehind([rows], cursor, e)
      ensures StaysAbove([rows], cursor, e)
    {
      InOneSource(rows, e);
      var m :| 0 <= m < |rows| && rows[m] == e;
      var g := QueryStarts(rows, cursor);
      LeftIsBeyond(rows, cursor, g, m);
      QueryStartsTime(rows, cursor, g);
      FairStaysAbove(rows, cursor, g, m);
    }
  }

  // ----- and when it is not

  /** The first row at the time of row `c`. */
  function GroupStart(rows: seq<Entry>, c: nat): (g: nat)
    requires c < |rows|
    ensures g <= c && rows[g].time == rows[c].time && (g > 0 ==> rows[g - 1].time != rows[g].time)
    ensures forall i :: g <= i <= c ==> rows[i].time == rows[c].time
  {
    if c == 0 || rows[c - 1].time != rows[c].time then c else GroupStart(rows, c - 1)
  }

  lemma {:induction false} InsertLength(e: Entry, sorted: seq<Entry>)
    ensures |Insert(e, sorted)| == |sorted| + 1
    decreases |sorted|
  {
    if sorted != [] && KeyLess(e, sorted[0]) {
      InsertLength(e, sorted[1..]);
    }
  }

  lemma {:induction false} SortLength(entries: seq<Entry>)
    ensures |SortDescending(entries)| == |entries|
    decreases |entries|
  {
    if entries != [] {
      SortLength(entries[..|entries| - 1]);
      InsertLength(entries[|entries| - 1], SortDescending(entries[..|entries| - 1]));
    }
  }

  /** One source brings no more than a scan, so a walk without a match gets to its lowest candidate. */
  lemma LowestIsReached(rows: seq<Entry>, cursor: Option<Entry>)
    ensures |SortedCandidates([rows], cursor)| <= MAX_SOURCE_SCAN
  {
    var selected := Selected(rows, cursor);
    OneSource(rows, cursor);
    SortLength(Candidates([rows], cursor));
    KeepLength(if |selected| > MAX_SOURCE_SCAN then selected[..MAX_SOURCE_SCAN] else selected,
               (x: Entry) => Below(x, cursor));
  }

  /** A record left behind above some candidate is passed. */
  lemma PassedByLower(rows: seq<Entry>, cursor: Option<Entry>, e: Entry, c: Entry)
    requires Frozen([rows]) && c in SortedCandidates([rows], cursor) && KeyLess(c, e)
    ensures !StaysAbove([rows], cursor, e)
  {
    var sorted := SortedCandidates([rows], cursor);
    LowestIsReached(rows, cursor);
    SortedCandidatesOk([rows], cursor);
    var i :| 0 <= i < |sorted| && sorted[i] == c;
    NotBothLess(c, e);
    if i < |sorted| - 1 && KeyLess(e, sorted[|sorted| - 1]) {
      KeyTransitive(e, sorted[|sorted| - 1], c);
    }
  }

  lemma GroupEnds(rows: seq<Entry>, c: nat, last: nat)
    requires c < |rows| && GroupStart(rows, c) <= last < |rows| && rows[last].time != rows[c].time
    ensures c < last
  {
  }

  /** The scan from the time before gets to the first row of this one. */
  lemma FirstIsReached(rows: seq<Entry>, g: nat, earlier: nat)
    requires 0 < g < |rows| && earlier == GroupStart(rows, g - 1) && earlier + MAX_SOURCE_SCAN < |rows|
    requires rows[earlier].time != rows[earlier + MAX_SOURCE_SCAN - 1].time
    ensures earlier <= g < earlier + MAX_SOURCE_SCAN
  {
    GroupEnds(rows, g - 1, earlier + MAX_SOURCE_SCAN - 1);
  }

  lemma FairOrders(rows: seq<Entry>, g: nat, k: nat, m: nat)
    requires Fair(rows, g) && g <= k < g + MAX_SOURCE_SCAN <= m < |rows| && rows[k].time == rows[m].time
    ensures KeyLess(rows[m], rows[k])
  {
  }

  lemma FairGetsBeyond(rows: seq<Entry>, g: nat)
    requires Fair(rows, g) && g + MAX_SOURCE_SCAN < |rows|
    ensures rows[g].time != rows[g + MAX_SOURCE_SCAN - 1].time
  {
  }

  /** A row beyond the scan from `g` is below that first row, which an earlier fair scan takes. */
  lemma FirstIsAbove(rows: seq<Entry>, g: nat, m: nat, earlier: nat)
    requires 0 < g && g + MAX_SOURCE_SCAN <= m < |rows| && rows[m].time == rows[g].time
    requires earlier == GroupStart(rows, g - 1) && Fair(rows, earlier)
    ensures KeyLess(rows[m], rows[g])
  {
    FairGetsBeyond(rows, earlier);
    FirstIsReached(rows, g, earlier);
    FairOrders(rows, earlier, g, m);
  }

  /** The cursor `rows[g]`, or none for the first time: every row beyond the scan from `g` is left behind. */
  function CursorOf(rows: seq<Entry>, g: nat): Option<Entry>
    requires g < |rows|
  {
    if g == 0 then None else Some(rows[g])
  }

  lemma CursorQuery(rows: seq<Entry>, g: nat)
    requires Plain(rows) && StartsTime(rows, g)
    ensures ValidCursor([rows], CursorOf(rows, g)) && QueryFrom(rows, CursorOf(rows, g), g)
  {
    InOneSource(rows, rows[g]);
    var start := QueryStarts(rows, CursorOf(rows, g));
    if g > 0 {
      assert rows[g].time < rows[g - 1].time;
    }
  }

  /** A run of equal times that a scan cuts with a higher identifier beyond the cut. */
  lemma TornIsPassed(rows: seq<Entry>, g: nat, k: nat, m: nat)
    requires Plain(rows) && StartsTime(rows, g) && (g > 0 ==> Fair(rows, GroupStart(rows, g - 1)))
    requires g <= k < g + MAX_SOURCE_SCAN <= m < |rows| && rows[k].time == rows[m].time && !KeyLess(rows[m], rows[k])
    ensures !AlwaysHolds([rows])
  {
    var cursor := CursorOf(rows, g);
    CursorQuery(rows, g);
    PlainDistinct(rows);
    if g > 0 {
      if rows[m].time != rows[g].time {
        LaterIsAbove(rows, g, m);
      } else {
        FirstIsAbove(rows, g, m, GroupStart(rows, g - 1));
      }
      KeyTransitive(rows[k], rows[m], rows[g]);
    }
    LeftIsBeyond(rows, cursor, g, m);
    ProjectedExactly(rows, cursor, g, k);
    OneSource(rows, cursor);
    SortedCandidatesOk([rows], cursor);
    PassedByLower(rows, cursor, rows[m], rows[k]);
    assert LeftBehind([rows], cursor, rows[m]) && !ScanHolds([rows], cursor);
  }

  lemma {:induction false} LowestOf(rows: seq<Entry>, g: nat, end: nat) returns (x: nat)
    requires g < end <= |rows|
    ensures g <= x < end && forall i :: g <= i < end ==> !KeyLess(rows[i], rows[x])
    decreases end
  {
    if end == g + 1 {
      x := g;
      NotBothLess(rows[g], rows[g]);
    } else {
      x := LowestOf(rows, g, end - 1);
      if KeyLess(rows[end - 1], rows[x]) {
        forall i | g <= i < end - 1
          ensures !KeyLess(rows[i], rows[end - 1])
        {
          if KeyLess(rows[i], rows[end - 1]) {
            KeyTransitive(rows[i], rows[end - 1], rows[x]);
          }
        }
        x := end - 1;
        NotBothLess(rows[x], rows[x]);
      }
    }
  }

  /** A run of equal times that fills the scan and is not torn: its lowest scanned row has nothing after it. */
  lemma CrowdIsPassed(rows: seq<Entry>, g: nat)
    requires Plain(rows) && StartsTime(rows, g) && g + MAX_SOURCE_SCAN < |rows|
    requires rows[g].time == rows[g + MAX_SOURCE_SCAN - 1].time
    requires forall k, m :: g <= k < g + MAX_SOURCE_SCAN <= m < |rows| && rows[k].time == rows[m].time ==>
               KeyLess(rows[m], rows[k])
    ensures !AlwaysHolds([rows])
  {
    var m := g + MAX_SOURCE_SCAN;
    var x := LowestOf(rows, g, m);
    var cursor := Some(rows[x]);
    InOneSource(rows, rows[x]);
    var start := QueryStarts(rows, cursor);
    assert rows[x].time == rows[g].time;
    assert start == g;
    if rows[m].time != rows[x].time {
      LaterIsAbove(rows, x, m);
    }
    LeftIsBeyond(rows, cursor, g, m);
    NothingScannedBelow(rows, cursor, g, x);
    assert LeftBehind([rows], cursor, rows[m]) && !ScanHolds([rows], cursor);
  }

  lemma NothingScannedBelow(rows: seq<Entry>, cursor: Option<Entry>, g: nat, x: nat)
    requires Frozen([rows]) && x < |rows| && cursor == Some(rows[x]) && QueryFrom(rows, cursor, g)
    requires g + MAX_SOURCE_SCAN <= |rows| && forall i :: g <= i < g + MAX_SOURCE_SCAN ==> !KeyLess(rows[i], rows[x])
    ensures SortedCandidates([rows], cursor) == []
  {
    var sorted := SortedCandidates([rows], cursor);
    PlainDistinct(rows);
    OneSource(rows, cursor);
    SortedCandidatesOk([rows], cursor);
    if sorted != [] {
      assert sorted[0] in sorted;
      ProjectedMembers(rows, cursor, sorted[0]);
      var i :| 0 <= i < |rows| && rows[i] == sorted[0];
      ProjectedExactly(rows, cursor, g, i);
    }
  }

  lemma {:induction false} UnfairIsPassed(rows: seq<Entry>, g: nat)
    requires Plain(rows) && StartsTime(rows, g) && !Fair(rows, g)
    ensures !AlwaysHolds([rows])
    decreases g
  {
    if g > 0 && !Fair(rows, GroupStart(rows, g - 1)) {
      UnfairIsPassed(rows, GroupStart(rows, g - 1));
    } else if k, m :| g <= k < g + MAX_SOURCE_SCAN <= m < |rows| && rows[k].time == rows[m].time
                      && !KeyLess(rows[m], rows[k]) {
      TornIsPassed(rows, g, k, m);
    } else {
      CrowdIsPassed(rows, g);
    }
  }

  /**
   One source of any length, its rows of one time in any order: every limit and filter serves every
   matching record exactly when no second is mixed and every scan that starts at the first row of a
   time gets beyond that time and cuts runs of equal times in the order of the identifiers.
   */
  lemma LongSourceExactly(rows: seq<Entry>)
    requires Frozen([rows]) && LatestFirst(rows)
    ensures ServesEverything([rows]) <==> NoMixedSecond([rows]) && FairScans(rows)
  {
    CompleteForEveryFilter([rows]);
    if w, f :| InStore([rows], w) && InStore([rows], f) && MixedPair(w, f) {
      MixedNeverHolds([rows], w, f);
    } else if FairScans(rows) {
      FairHolds(rows);
    } else {
      var g: nat :| StartsTime(rows, g) && !Fair(rows, g);
      UnfairIsPassed(rows, g);
    }
  }

  /** Rows of one time come in the order of their history identifiers. */
  ghost predicate InIdentifierOrder(rows: seq<Entry>) {
    forall i, j :: 0 <= i < j < |rows| && rows[i].time == rows[j].time ==> KeyLess(rows[j], rows[i])
  }

  /** A time whose rows fill a scan that more rows follow. */
  predicate FillsScan(rows: seq<Entry>, g: nat) {
    StartsTime(rows, g) && g + MAX_SOURCE_SCAN < |rows| && rows[g].time == rows[g + MAX_SOURCE_SCAN - 1].time
  }

  /** With the identifiers in order, all that a caller has to see to is that no time fills a scan. */
  lemma OrderedIsFair(rows: seq<Entry>)
    requires Frozen([rows]) && LatestFirst(rows) && InIdentifierOrder(rows) && NoMixedSecond([rows])
    ensures ServesEverything([rows]) <==> forall g: nat :: !FillsScan(rows, g)
  {
    LongSourceExactly(rows);
    assert FairScans(rows) ==> forall g: nat :: StartsTime(rows, g) ==> Fair(rows, g);
    if forall g: nat :: !FillsScan(rows, g) {
      forall g: nat | StartsTime(rows, g)
        ensures Fair(rows, g)
      {
        assert !FillsScan(rows, g);
      }
    }
  }
}
