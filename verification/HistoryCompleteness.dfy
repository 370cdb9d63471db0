/**
 When the pages of the governance history miss nothing. The query keeps rows by time, the cursor by
 the text of time; the two disagree exactly inside a second that holds both a whole-second row and
 a row with a fraction.
 */
module HistoryCompleteness {
  import opened Common
  import opened GovernanceHistory

  predicate Untruncated(store: Store) {
    forall i :: 0 <= i < |store| ==> |store[i]| <= MAX_SOURCE_SCAN
  }

  predicate IsWhole(e: Entry) {
    e.time % SECOND == 0
  }

  /** A whole second and a fraction of that same second. */
  predicate MixedPair(w: Entry, f: Entry) {
    w.time / SECOND == f.time / SECOND && IsWhole(w) && !IsWhole(f)
  }

  ghost predicate NoMixedSecond(store: Store) {
    forall w, f :: InStore(store, w) && InStore(store, f) ==> !MixedPair(w, f)
  }

  ghost predicate ValidCursor(store: Store, cursor: Option<Entry>) {
    cursor.Some? ==> InStore(store, cursor.value)
  }

  /** Outside a mixed second, texts order times as the times themselves. */
  lemma TextsOrderTimes(e: Entry, c: Entry)
    requires KeyLess(e, c) && !MixedPair(c, e)
    ensures e.time <= c.time
  {
    var a, b := e.time / SECOND, c.time / SECOND;
    var x := if e.time % SECOND == 0 then SECOND else e.time % SECOND;
    var y := if c.time % SECOND == 0 then SECOND else c.time % SECOND;
    RanksCompare(a, x, b, y);
  }

  lemma RanksCompare(a: int, x: int, b: int, y: int)
    requires 1 <= x <= SECOND && 1 <= y <= SECOND && a * (SECOND + 1) + x <= b * (SECOND + 1) + y
    ensures a < b || (a == b && x <= y)
  {
  }

  lemma ProjectedComplete(rows: seq<Entry>, cursor: Option<Entry>, e: Entry)
    requires |rows| <= MAX_SOURCE_SCAN && e in rows && Below(e, cursor)
             && (cursor.Some? ==> e.time <= cursor.value.time)
    ensures e in Projected(rows, cursor)
  {
    var selected := Selected(rows, cursor);
    KeepLength(rows, (x: Entry) => cursor.Some? ==> x.time <= cursor.value.time);
    KeepMembers(rows, (x: Entry) => cursor.Some? ==> x.time <= cursor.value.time, e);
    KeepMembers(selected, (x: Entry) => Below(x, cursor), e);
  }

  lemma CandidatesComplete(store: Store, cursor: Option<Entry>, e: Entry)
    requires Untruncated(store) && InStore(store, e) && Below(e, cursor)
             && (cursor.Some? ==> e.time <= cursor.value.time)
    ensures e in Candidates(store, cursor)
  {
    var i :| 0 <= i < |store| && e in store[i];
    ProjectedComplete(store[i], cursor, e);
    FlatMapMembers(store, rows => Projected(rows, cursor), e);
    assert e in (rows => Projected(rows, cursor))(store[i]);
  }

  lemma NothingTruncated(store: Store, cursor: Option<Entry>)
    requires Untruncated(store)
    ensures !AnyTruncated(store, cursor)
  {
    forall i | 0 <= i < |store|
      ensures !Truncated(store[i], cursor)
    {
      KeepLength(store[i], (x: Entry) => cursor.Some? ==> x.time <= cursor.value.time);
    }
  }

  lemma SortedMembers(store: Store, cursor: Option<Entry>, e: Entry)
    requires Frozen(store) && Untruncated(store) && NoMixedSecond(store) && ValidCursor(store, cursor)
    ensures e in SortedCandidates(store, cursor) <==> InStore(store, e) && Below(e, cursor)
  {
    SortedCandidatesOk(store, cursor);
    if e in Candidates(store, cursor) {
      CandidateMembers(store, cursor, e);
    }
    if InStore(store, e) && Below(e, cursor) {
      if cursor.Some? {
        TextsOrderTimes(e, cursor.value);
      }
      CandidatesComplete(store, cursor, e);
    }
  }

  lemma AfterIndex(sorted: seq<Entry>, n: nat, e: Entry)
    requires Descending(sorted) && 0 < n <= |sorted|
    ensures e in sorted[n..] <==> e in sorted && KeyLess(e, sorted[n - 1])
  {
    if e in sorted[n..] {
      var i :| 0 <= i < |sorted[n..]| && sorted[n..][i] == e;
      assert sorted[n + i] == e;
    }
    if e in sorted && KeyLess(e, sorted[n - 1]) {
      var i :| 0 <= i < |sorted| && sorted[i] == e;
      assert i >= n;
      assert sorted[n..][i - n] == e;
    }
  }

  lemma BelowBoth(e: Entry, next: Entry, cursor: Option<Entry>)
    requires Below(next, cursor)
    ensures KeyLess(e, next) ==> Below(e, cursor)
  {
    if cursor.Some? && KeyLess(e, next) {
      KeyTransitive(e, next, cursor.value);
    }
  }

  lemma NextMember(store: Store, cursor: Option<Entry>, sorted: seq<Entry>, n: nat, e: Entry)
    requires Frozen(store) && Untruncated(store) && NoMixedSecond(store) && ValidCursor(store, cursor)
    requires sorted == SortedCandidates(store, cursor) && Descending(sorted) && 0 < n <= |sorted|
    requires InStore(store, sorted[n - 1]) && Below(sorted[n - 1], cursor)
    ensures e in SortedCandidates(store, Some(sorted[n - 1])) <==> e in sorted[n..]
  {
    SortedMembers(store, Some(sorted[n - 1]), e);
    SortedMembers(store, cursor, e);
    AfterIndex(sorted, n, e);
    BelowBoth(e, sorted[n - 1], cursor);
  }

  lemma TailDescends(sorted: seq<Entry>, n: nat)
    requires Descending(sorted) && n <= |sorted|
    ensures Descending(sorted[n..])
  {
  }

  /** The records a next page starts from are exactly those not yet examined. */
  lemma NextContinues(store: Store, cursor: Option<Entry>, n: nat)
    requires Frozen(store) && Untruncated(store) && NoMixedSecond(store) && ValidCursor(store, cursor)
    requires 0 < n <= |SortedCandidates(store, cursor)|
    ensures var sorted := SortedCandidates(store, cursor);
            ValidCursor(store, Some(sorted[n - 1])) && SortedCandidates(store, Some(sorted[n - 1])) == sorted[n..]
  {
    var sorted := SortedCandidates(store, cursor);
    var next := sorted[n - 1];
    SortedCandidatesOk(store, cursor);
    assert next in sorted;
    SortedMembers(store, cursor, next);
    SortedCandidatesOk(store, Some(next));
    TailDescends(sorted, n);
    forall e
      ensures e in SortedCandidates(store, Some(next)) <==> e in sorted[n..]
    {
      NextMember(store, cursor, sorted, n, e);
    }
    DescendingUnique(SortedCandidates(store, Some(next)), sorted[n..]);
  }

  lemma PageEnds(store: Store, cursor: Option<Entry>, limit: nat, matches: Entry -> bool)
    requires Untruncated(store) && limit >= 1
    ensures var sorted, page := SortedCandidates(store, cursor), PageOf(store, cursor, limit, matches);
            var n := Examined(sorted, limit, matches, 0);
            && page.records == Keep(sorted[..n], matches)
            && if n < |sorted| then n > 0 && page.next == Some(sorted[n - 1]) else page.next.None?
  {
    NothingTruncated(store, cursor);
    assert SortedCandidates(store, cursor)[..0] == [];
  }

  lemma KeepParts(sorted: seq<Entry>, n: nat, matches: Entry -> bool)
    requires n <= |sorted|
    ensures Keep(sorted[..n], matches) + Keep(sorted[n..], matches) == Keep(sorted, matches)
  {
    KeepSplit(sorted[..n], sorted[n..], matches);
    assert sorted[..n] + sorted[n..] == sorted;
  }

  lemma PagesUnfold(store: Store, cursor: Option<Entry>, limit: nat, matches: Entry -> bool, next: Entry)
    requires PageOf(store, cursor, limit, matches).next == Some(next)
    ensures AllPages(store, cursor, limit, matches) ==
            PageOf(store, cursor, limit, matches).records + AllPages(store, Some(next), limit, matches)
  {
  }

  lemma LastPage(store: Store, cursor: Option<Entry>, limit: nat, matches: Entry -> bool)
    requires Untruncated(store) && limit >= 1 && PageOf(store, cursor, limit, matches).next.None?
    ensures AllPages(store, cursor, limit, matches) == Keep(SortedCandidates(store, cursor), matches)
  {
    PageEnds(store, cursor, limit, matches);
    var sorted := SortedCandidates(store, cursor);
    assert sorted[..|sorted|] == sorted;
  }

  lemma NextIsLastExamined(store: Store, cursor: Option<Entry>, limit: nat, matches: Entry -> bool, next: Entry)
    requires Untruncated(store) && limit >= 1 && PageOf(store, cursor, limit, matches).next == Some(next)
    ensures var sorted := SortedCandidates(store, cursor);
            var n := Examined(sorted, limit, matches, 0);
            0 < n <= |sorted| && next == sorted[n - 1]
            && PageOf(store, cursor, limit, matches).records == Keep(sorted[..n], matches)
  {
    PageEnds(store, cursor, limit, matches);
  }

  lemma NextPages(store: Store, cursor: Option<Entry>, limit: nat, matches: Entry -> bool, next: Entry)
    requires Frozen(store) && Untruncated(store) && NoMixedSecond(store) && ValidCursor(store, cursor) && limit >= 1
    requires PageOf(store, cursor, limit, matches).next == Some(next)
    requires AllPages(store, Some(next), limit, matches) == Keep(SortedCandidates(store, Some(next)), matches)
    ensures AllPages(store, cursor, limit, matches) == Keep(SortedCandidates(store, cursor), matches)
  {
    PagesUnfold(store, cursor, limit, matches, next);
    NextIsLastExamined(store, cursor, limit, matches, next);
    Continues(store, cursor, Examined(SortedCandidates(store, cursor), limit, matches, 0), matches);
  }

  lemma Continues(store: Store, cursor: Option<Entry>, n: nat, matches: Entry -> bool)
    requires Frozen(store) && Untruncated(store) && NoMixedSecond(store) && ValidCursor(store, cursor)
    requires 0 < n <= |SortedCandidates(store, cursor)|
    ensures var sorted := SortedCandidates(store, cursor);
            Keep(sorted[..n], matches) + Keep(SortedCandidates(store, Some(sorted[n - 1])), matches) ==
            Keep(sorted, matches)
  {
    NextContinues(store, cursor, n);
    KeepParts(SortedCandidates(store, cursor), n, matches);
  }

  /** All pages together are the matching records below the cursor, latest first. */
  lemma {:induction false} PagesAreTheHistory(store: Store, cursor: Option<Entry>, limit: nat, matches: Entry -> bool)
    requires Frozen(store) && Untruncated(store) && NoMixedSecond(store) && ValidCursor(store, cursor) && limit >= 1
    ensures AllPages(store, cursor, limit, matches) == Keep(SortedCandidates(store, cursor), matches)
    decreases |Remaining(store, cursor)|
  {
    var next := PageOf(store, cursor, limit, matches).next;
    if next.Some? {
      NextIsBelow(store, cursor, limit, matches);
      PagesAreTheHistory(store, next, limit, matches);
      NextPages(store, cursor, limit, matches, next.value);
    } else {
      LastPage(store, cursor, limit, matches);
    }
  }

  /** For any filter and limit: with no scan truncated and no mixed second, every matching record is served. */
  lemma NothingIsMissed(store: Store, limit: nat, matches: Entry -> bool, e: Entry)
    requires Frozen(store) && Untruncated(store) && NoMixedSecond(store) && limit >= 1
    ensures e in AllPages(store, None, limit, matches) <==> InStore(store, e) && matches(e)
  {
    PagesAreTheHistory(store, None, limit, matches);
    KeepMembers(SortedCandidates(store, None), matches, e);
    SortedMembers(store, None, e);
  }

  // ----- why a mixed second loses records

  function Everything(): Entry -> bool {
    e => true
  }

  lemma FirstOfPage(store: Store, cursor: Option<Entry>)
    requires Frozen(store) && SortedCandidates(store, cursor) != []
    ensures Examined(SortedCandidates(store, cursor), 1, Everything(), 0) == 1
    ensures PageOf(store, cursor, 1, Everything()).records == [SortedCandidates(store, cursor)[0]]
  {
    var sorted := SortedCandidates(store, cursor);
    assert sorted[..0] == [] && sorted[..1] == [sorted[0]];
    assert Keep(sorted[..0], Everything()) == [];
    assert sorted[..1][..0] == [];
    assert Keep(sorted[..1], Everything()) == [sorted[0]];
    assert !Stops(sorted, 1, Everything(), 0) && Stops(sorted, 1, Everything(), 1);
  }

  /** A whole-second row is found from every cursor above it. */
  lemma WholeIsCandidate(store: Store, cursor: Option<Entry>, w: Entry)
    requires Frozen(store) && Untruncated(store) && InStore(store, w) && IsWhole(w) && Below(w, cursor)
    ensures w in SortedCandidates(store, cursor)
  {
    if cursor.Some? {
      assert !MixedPair(cursor.value, w);
      TextsOrderTimes(w, cursor.value);
    }
    CandidatesComplete(store, cursor, w);
    SortedCandidatesOk(store, cursor);
  }

  lemma NotBothLess(a: Entry, b: Entry)
    ensures !(KeyLess(a, b) && KeyLess(b, a))
  {
  }

  lemma FractionIsBelowWhole(w: Entry, f: Entry)
    requires MixedPair(w, f)
    ensures KeyLess(f, w) && w.time < f.time
  {
  }

  /** One record a page: the page that ends at the whole second skips every fraction of that second. */
  lemma {:induction false} FractionIsLost(store: Store, cursor: Option<Entry>, w: Entry, f: Entry)
    requires Frozen(store) && Untruncated(store) && InStore(store, w) && MixedPair(w, f) && Below(w, cursor)
    ensures f !in AllPages(store, cursor, 1, Everything())
    decreases |Remaining(store, cursor)|
  {
    FractionIsBelowWhole(w, f);
    WholeIsCandidate(store, cursor, w);
    FirstOfPage(store, cursor);
    SortedCandidatesOk(store, cursor);
    var sorted, page := SortedCandidates(store, cursor), PageOf(store, cursor, 1, Everything());
    var top := sorted[0];
    var i :| 0 <= i < |sorted| && sorted[i] == w;
    assert top == w || KeyLess(w, top);
    NotBothLess(w, f);
    if page.next.Some? {
      assert page.next == Some(top);
      NextIsBelow(store, cursor, 1, Everything());
      if top != w {
        FractionIsLost(store, page.next, w, f);
      } else if f in AllPages(store, page.next, 1, Everything()) {
        PagesMembers(store, page.next, 1, Everything(), f);
      }
    }
  }

  /** With no scan truncated, every limit serves everything exactly when no second is mixed. */
  lemma CompleteExactly(store: Store)
    requires Frozen(store) && Untruncated(store)
    ensures (forall limit: nat, e ::
               limit >= 1 && InStore(store, e) ==> e in AllPages(store, None, limit, Everything()))
            <==> NoMixedSecond(store)
  {
    if NoMixedSecond(store) {
      forall limit: nat, e | limit >= 1 && InStore(store, e)
        ensures e in AllPages(store, None, limit, Everything())
      {
        NothingIsMissed(store, limit, Everything(), e);
      }
    } else {
      var w, f :| InStore(store, w) && InStore(store, f) && MixedPair(w, f);
      FractionIsLost(store, None, w, f);
    }
  }
}
