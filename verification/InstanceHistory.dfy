/** Stored-history pages: the chain checks of the store, and the byte-bound trimming of the reader. */
module InstanceHistory {
  import opened Common
  import opened InstanceRecords
  import opened InstanceRecordRuns

  datatype Page = Page(records: seq<Outcome>, next: Option<int>)

  // ----- the store's query

  ghost predicate IsMax(s: set<int>, m: int) {
    m in s && forall x :: x in s ==> x <= m
  }

  lemma {:induction false} MaxExists(s: set<int>)
    requires s != {}
    ensures exists m :: IsMax(s, m)
    decreases |s|
  {
    assert (forall a: int :: a !in s) ==> s == {};
    var a: int :| a in s;
    var rest := s - {a};
    if rest == {} {
      assert s == {a};
      assert IsMax(s, a);
    } else {
      MaxExists(rest);
      var m :| IsMax(rest, m);
      var top := if a > m then a else m;
      assert forall x :: x in s ==> x == a || x in rest;
      assert IsMax(s, top);
    }
  }

  /** The `count` greatest elements, in descending order. */
  ghost function TopDown(s: set<int>, count: nat): seq<int>
    decreases count
  {
    if s == {} || count == 0 then [] else
      MaxExists(s);
      var m :| IsMax(s, m);
      [m] + TopDown(s - {m}, count - 1)
  }

  /** Versions present for `key` that do not exceed `start`. */
  ghost function VersionsUpTo(db: Db, key: RecordKey, start: int): set<int> {
    set rk | rk in db.revisions && rk.record == key && rk.version <= start :: rk.version
  }

  function Min(a: int, b: int): int {
    if a < b then a else b
  }

  /** The revision and the operation its receipt names pass every integrity check. */
  ghost predicate Joins(db: Db, rk: RevisionKey) {
    && rk in db.revisions
    && OperationOutcome(rk, db.revisions[rk], OperationOf(db, rk), Get(db.operations, OperationOf(db, rk))).Ok?
  }

  ghost predicate Joined(db: Db, key: RecordKey, rows: seq<int>) {
    forall i :: 0 <= i < |rows| ==> Joins(db, RevisionKey(key, rows[i]))
  }

  ghost function Stored(db: Db, key: RecordKey, version: int): Outcome
    requires RevisionKey(key, version) in db.revisions
  {
    var revision := db.revisions[RevisionKey(key, version)];
    Outcome(revision.value, revision.receipt)
  }

  ghost function StoredRows(db: Db, key: RecordKey, rows: seq<int>): (outcomes: seq<Outcome>)
    requires Joined(db, key, rows)
    ensures |outcomes| == |rows| && forall i :: 0 <= i < |rows| ==>
              RevisionKey(key, rows[i]) in db.revisions && outcomes[i] == Stored(db, key, rows[i])
  {
    seq(|rows|, i requires 0 <= i < |rows| => assert Joins(db, RevisionKey(key, rows[i])); Stored(db, key, rows[i]))
  }

  ghost predicate Linked(newer: Outcome, older: Outcome) {
    newer.receipt.body.previous == Some(Stamp(older.receipt.body.version, older.receipt.body.recordDigest))
  }

  ghost predicate Consecutive(rows: seq<int>, start: int) {
    forall i :: 0 <= i < |rows| ==> rows[i] == start - i
  }

  ghost predicate AllLinked(results: seq<Outcome>) {
    forall i :: 0 <= i < |results| - 1 ==> Linked(results[i], results[i + 1])
  }

  /** The rows the query returned, checked for gaps, integrity and links, cut to `limit`. */
  ghost function CheckedPage(db: Db, key: RecordKey, start: int, rows: seq<int>, limit: int): Result<Page, Error>
    requires 1 <= limit
  {
    if |rows| != Min(start, limit + 1) || !Consecutive(rows, start) || !Joined(db, key, rows) then Err(Unavailable)
    else if !AllLinked(StoredRows(db, key, rows)) then Err(Unavailable)
    else if |rows| > limit then Ok(Page(StoredRows(db, key, rows)[..limit], Some(rows[limit - 1])))
    else Ok(Page(StoredRows(db, key, rows), None))
  }

  /** Where a page starts: the head, or just below the cursor. */
  function PageStart(head: int, before: Option<int>): int {
    if before.Some? then Min(head, before.value - 1) else head
  }

  /** One page of the stored chain, newest first; None when there is no such record. */
  ghost function History(db: Db, key: RecordKey, before: Option<int>, limit: int): Result<Option<Page>, Error> {
    if !(1 <= limit <= 100) || (before.Some? && before.value < 1) then Err(Invalid) else
      match Current(db, key)
      case Err(e) => Err(e)
      case Ok(None) => Ok(None)
      case Ok(Some(current)) =>
        var start := PageStart(current.receipt.body.version, before);
        match CheckedPage(db, key, start, TopDown(VersionsUpTo(db, key, start), limit + 1), limit)
        case Err(e) => Err(e)
        case Ok(page) => Ok(Some(page))
  }

  // ----- a reachable chain is complete

  /** The versions from `start` down, `count` of them. */
  function Down(start: int, count: int): (rows: seq<int>)
    requires 0 <= count
    ensures |rows| == count && forall i :: 0 <= i < count ==> rows[i] == start - i
  {
    seq(count, i requires 0 <= i < count => start - i)
  }

  lemma {:induction false} TopDownOfRange(s: set<int>, start: nat, count: nat)
    requires forall x :: x in s <==> 1 <= x <= start
    ensures TopDown(s, count) == Down(start, Min(start, count))
    decreases count
  {
    if start > 0 && count > 0 {
      assert start in s;
      MaxExists(s);
      assert forall m :: IsMax(s, m) ==> m == start;
      TopDownOfRange(s - {start}, start - 1, count - 1);
      assert TopDown(s, count) == [start] + TopDown(s - {start}, count - 1);
    } else if start == 0 {
      assert forall x :: x !in s;
      assert s == {};
    }
  }

  lemma ReachableVersions(db: Db, key: RecordKey, start: nat, count: nat)
    requires Intact(db) && key in db.records && start <= db.records[key].version
    ensures TopDown(VersionsUpTo(db, key, start), count) == Down(start, Min(start, count))
  {
    var versions := VersionsUpTo(db, key, start);
    forall x
      ensures x in versions <==> 1 <= x <= start
    {
      ChainBounds(db, key, x);
      var rk := RevisionKey(key, x);
      assert rk in db.revisions && x <= start ==> x in versions;
    }
    TopDownOfRange(versions, start, count);
  }

  lemma RevisionJoins(db: Db, rk: RevisionKey)
    requires rk in db.revisions && RevisionIntact(db, rk) && OperationIntact(db, OperationOf(db, rk))
    ensures Joins(db, rk)
  {
  }

  /** `outcome` is the stored revision number `v`. */
  ghost predicate IsVersion(db: Db, key: RecordKey, outcome: Outcome, v: int) {
    RevisionKey(key, v) in db.revisions && outcome == Stored(db, key, v) && outcome.receipt.body.version == v
  }

  /** Versions 1 to `head` pass every check, and each is linked to the one before. */
  ghost predicate ChainComplete(db: Db, key: RecordKey, head: int) {
    && (forall v :: 1 <= v <= head ==> Joins(db, RevisionKey(key, v)) && IsVersion(db, key, Stored(db, key, v), v))
    && forall v, newer, older :: 2 <= v <= head && IsVersion(db, key, newer, v) && IsVersion(db, key, older, v - 1) ==>
         Linked(newer, older)
  }

  lemma IntactIsComplete(db: Db, key: RecordKey)
    requires Intact(db) && key in db.records
    ensures ChainComplete(db, key, db.records[key].version)
  {
    var head := db.records[key].version;
    forall v | 1 <= v <= head
      ensures Joins(db, RevisionKey(key, v)) && IsVersion(db, key, Stored(db, key, v), v)
    {
      ChainBounds(db, key, v);
      RevisionJoins(db, RevisionKey(key, v));
      assert RevisionIntact(db, RevisionKey(key, v));
    }
    forall v, newer, older | 2 <= v <= head && IsVersion(db, key, newer, v) && IsVersion(db, key, older, v - 1)
      ensures Linked(newer, older)
    {
      ChainLink(db, key, RevisionKey(key, v), RevisionKey(key, v - 1));
    }
  }

  /** The revisions of consecutive versions from `start` down. */
  ghost predicate ListsVersions(db: Db, key: RecordKey, records: seq<Outcome>, start: int) {
    forall i :: 0 <= i < |records| ==> IsVersion(db, key, records[i], start - i)
  }

  lemma RowsJoin(db: Db, key: RecordKey, head: int, start: nat, rows: seq<int>)
    requires ChainComplete(db, key, head) && start <= head
    requires |rows| <= start && Consecutive(rows, start)
    ensures Joined(db, key, rows) && ListsVersions(db, key, StoredRows(db, key, rows), start)
  {
    forall i | 0 <= i < |rows|
      ensures Joins(db, RevisionKey(key, rows[i])) && IsVersion(db, key, Stored(db, key, rows[i]), rows[i])
    {
      assert 1 <= rows[i] <= head;
    }
  }

  lemma RowsLink(db: Db, key: RecordKey, head: int, start: nat, records: seq<Outcome>)
    requires ChainComplete(db, key, head) && start <= head
    requires |records| <= start && ListsVersions(db, key, records, start)
    ensures AllLinked(records)
  {
    forall i | 0 <= i < |records| - 1
      ensures Linked(records[i], records[i + 1])
    {
      assert IsVersion(db, key, records[i], start - i);
      assert IsVersion(db, key, records[i + 1], start - (i + 1));
      assert 2 <= start - i <= head;
    }
  }

  /** On a complete chain the store's checks pass and the page holds the versions asked for. */
  lemma CompleteChainPage(db: Db, key: RecordKey, head: int, start: nat, rows: seq<int>, limit: int)
    returns (page: Page)
    requires ChainComplete(db, key, head) && start <= head && 1 <= limit
    requires |rows| == Min(start, limit + 1) && Consecutive(rows, start)
    ensures CheckedPage(db, key, start, rows, limit) == Ok(page)
    ensures |page.records| == Min(start, limit) && ListsVersions(db, key, page.records, start)
    ensures page.next == if start > limit then Some(start - limit + 1) else None
  {
    RowsJoin(db, key, head, start, rows);
    var results := StoredRows(db, key, rows);
    RowsLink(db, key, head, start, results);
    page := if |rows| > limit then Page(results[..limit], Some(rows[limit - 1])) else Page(results, None);
    forall i | 0 <= i < |page.records|
      ensures IsVersion(db, key, page.records[i], start - i)
    {
      assert page.records[i] == results[i];
    }
  }

  lemma HeadVersion(db: Db, key: RecordKey)
    requires Reachable(db) && key in db.records
    ensures Current(db, key).Ok? && Current(db, key).value.Some?
    ensures Current(db, key).value.value.receipt.body.version == db.records[key].version >= 1
  {
    CurrentReads(db, key);
    ReachableIsIntact(db);
    assert RowIntact(db, key);
    assert RevisionIntact(db, RevisionKey(key, db.records[key].version));
  }

  lemma ReachableChain(db: Db, key: RecordKey, start: nat, count: nat)
    requires Reachable(db) && key in db.records && start <= db.records[key].version
    ensures ChainComplete(db, key, db.records[key].version)
    ensures TopDown(VersionsUpTo(db, key, start), count) == Down(start, Min(start, count))
  {
    ReachableIsIntact(db);
    ReachableVersions(db, key, start, count);
    IntactIsComplete(db, key);
  }

  /** On a reachable database a well-formed history request never reports an incomplete or broken chain. */
  lemma HistoryIsComplete(db: Db, key: RecordKey, before: Option<int>, limit: int) returns (page: Page)
    requires Reachable(db) && key in db.records && 1 <= limit <= 100 && (before.Some? ==> before.value >= 1)
    ensures History(db, key, before, limit) == Ok(Some(page))
    ensures var start := PageStart(db.records[key].version, before);
            && |page.records| == Min(start, limit) && ListsVersions(db, key, page.records, start)
            && page.next == if start > limit then Some(start - limit + 1) else None
  {
    HeadVersion(db, key);
    var head := db.records[key].version;
    var start := PageStart(head, before);
    ReachableChain(db, key, start, limit + 1);
    page := CompleteChainPage(db, key, head, start, TopDown(VersionsUpTo(db, key, start), limit + 1), limit);
  }

  /** The receipt names the version below by number and digest, and that version is stored. */
  ghost predicate LinkedBelow(db: Db, key: RecordKey, o: Outcome, version: int) {
    RevisionKey(key, version - 1) in db.revisions && Linked(o, Stored(db, key, version - 1))
  }

  /** The page lists versions from `start` down, each as stored and linked to the version below it. */
  ghost predicate IsChain(db: Db, key: RecordKey, start: int, limit: int, page: Page) {
    && |page.records| == Min(start, limit)
    && page.next == (if start > limit then Some(start - limit + 1) else None)
    && (forall i :: 0 <= i < |page.records| ==> RevisionReads(db, RevisionKey(key, start - i), page.records[i]))
    && forall i :: 0 <= i < |page.records| && i + 1 < start ==> LinkedBelow(db, key, page.records[i], start - i)
  }

  lemma RowsRead(db: Db, key: RecordKey, rows: seq<int>, i: int)
    requires Joined(db, key, rows) && 0 <= i < |rows|
    ensures RevisionReads(db, RevisionKey(key, rows[i]), StoredRows(db, key, rows)[i])
  {
    var rk := RevisionKey(key, rows[i]);
    assert Joins(db, rk);
    RevisionReadsExactly(db, rk, Stored(db, key, rows[i]));
  }

  lemma CheckedRowsRead(db: Db, key: RecordKey, start: int, rows: seq<int>, limit: int, i: int)
    requires 1 <= limit && CheckedPage(db, key, start, rows, limit).Ok?
    requires 0 <= i < |CheckedPage(db, key, start, rows, limit).value.records|
    ensures RevisionReads(db, RevisionKey(key, start - i), CheckedPage(db, key, start, rows, limit).value.records[i])
  {
    RowsRead(db, key, rows, i);
  }

  lemma CheckedRowsLink(db: Db, key: RecordKey, start: int, rows: seq<int>, limit: int, i: int)
    requires 1 <= limit && CheckedPage(db, key, start, rows, limit).Ok?
    requires 0 <= i < |CheckedPage(db, key, start, rows, limit).value.records| && i + 1 < start
    ensures LinkedBelow(db, key, CheckedPage(db, key, start, rows, limit).value.records[i], start - i)
  {
    var stored := StoredRows(db, key, rows);
    assert rows[i + 1] == start - (i + 1);
    assert Linked(stored[i], stored[i + 1]);
  }

  lemma CheckedIsChain(db: Db, key: RecordKey, start: int, rows: seq<int>, limit: int)
    requires 1 <= limit && CheckedPage(db, key, start, rows, limit).Ok?
    ensures IsChain(db, key, start, limit, CheckedPage(db, key, start, rows, limit).value)
  {
    var page := CheckedPage(db, key, start, rows, limit).value;
    forall i | 0 <= i < |page.records|
      ensures RevisionReads(db, RevisionKey(key, start - i), page.records[i])
    {
      CheckedRowsRead(db, key, start, rows, limit, i);
    }
    forall i | 0 <= i < |page.records| && i + 1 < start
      ensures LinkedBelow(db, key, page.records[i], start - i)
    {
      CheckedRowsLink(db, key, start, rows, limit, i);
    }
  }

  /** Whatever the tables hold, a page that is served is a whole and unbroken stretch of the stored chain. */
  lemma ServedIsChain(db: Db, key: RecordKey, before: Option<int>, limit: int, page: Page)
    requires History(db, key, before, limit) == Ok(Some(page))
    ensures exists o :: ReadsAs(db, key, o)
    ensures IsChain(db, key, PageStart(db.records[key].version, before), limit, page)
  {
    ReadsExactly(db, key);
    var current := Current(db, key).value.value;
    assert ReadsAs(db, key, current);
    var start := PageStart(db.records[key].version, before);
    CheckedIsChain(db, key, start, TopDown(VersionsUpTo(db, key, start), limit + 1), limit);
  }

  // ----- byte-bound trimming

  const MAX_RESPONSE_BYTES := 524_288

  /** The cursor that goes with the first `k` records of a page. */
  function CursorAt(page: Page, k: nat): Option<int>
    requires k <= |page.records|
  {
    if k == |page.records| then page.next
    else if k == 0 then None
    else Some(page.records[k - 1].receipt.body.version)
  }

  function Fits(page: Page, size: Page -> nat, k: nat): bool
    requires k <= |page.records|
  {
    size(Page(page.records[..k], CursorAt(page, k))) <= MAX_RESPONSE_BYTES
  }

  /** The longest prefix, with its own cursor, that fits the response bound; possibly empty. */
  ghost predicate LongestFit(page: Page, size: Page -> nat, k: nat) {
    && k <= |page.records|
    && (k > 0 ==> Fits(page, size, k))
    && forall longer :: k < longer <= |page.records| ==> !Fits(page, size, longer)
  }

  /** Pops records, rewriting the cursor each time, until the response fits. */
  method TrimToFit(page: Page, size: Page -> nat) returns (trimmed: Page)
    ensures exists k: nat :: LongestFit(page, size, k) && trimmed == Page(page.records[..k], CursorAt(page, k))
  {
    trimmed := page;
    ghost var k := |page.records|;
    assert page.records[..k] == page.records;
    while trimmed.records != [] && size(trimmed) > MAX_RESPONSE_BYTES
      invariant k <= |page.records| && trimmed == Page(page.records[..k], CursorAt(page, k))
      invariant forall longer :: k < longer <= |page.records| ==> !Fits(page, size, longer)
      decreases |trimmed.records|
    {
      var records := trimmed.records[..|trimmed.records| - 1];
      assert !Fits(page, size, k);
      k := k - 1;
      assert records == page.records[..k];
      trimmed := Page(records, if records != [] then Some(records[|records| - 1].receipt.body.version) else None);
    }
    assert LongestFit(page, size, k);
  }

  ghost predicate ServedFrom(full: Page, before: Option<int>, size: Page -> nat, page: Page) {
    && (exists k: nat :: LongestFit(full, size, k) && page == Page(full.records[..k], CursorAt(full, k)))
    && (page.records != [] || before == Some(1))
  }

  /** `page` is what the bounded reader answers to a history request. */
  ghost predicate Serves(db: Db, key: RecordKey, before: Option<int>, limit: int, size: Page -> nat, page: Page) {
    && History(db, key, before, limit).Ok? && History(db, key, before, limit).value.Some?
    && ServedFrom(History(db, key, before, limit).value.value, before, size, page)
  }

  /** What trimming leaves of a page of consecutive versions. */
  lemma TrimmedVersions(db: Db, key: RecordKey, full: Page, start: int, k: nat)
    requires ListsVersions(db, key, full.records, start) && k <= |full.records|
    ensures ListsVersions(db, key, full.records[..k], start)
    ensures 0 < k < |full.records| ==> CursorAt(full, k) == Some(start - k + 1)
  {
    forall i | 0 <= i < k
      ensures IsVersion(db, key, full.records[..k][i], start - i)
    {
      assert IsVersion(db, key, full.records[i], start - i);
    }
    if 0 < k < |full.records| {
      assert IsVersion(db, key, full.records[k - 1], start - (k - 1));
    }
  }

  ghost function HeadOf(db: Db, key: RecordKey): int {
    if key in db.records then db.records[key].version else 0
  }

  /** The page lists consecutive versions from its start down to where its cursor says the next page starts. */
  ghost predicate Covers(db: Db, key: RecordKey, before: Option<int>, page: Page) {
    var start := PageStart(HeadOf(db, key), before);
    && ListsVersions(db, key, page.records, start) && |page.records| <= start
    && (page.next.None? ==> |page.records| == start)
    && (page.next.Some? ==> |page.records| >= 1 && page.next.value == start - |page.records| + 1 >= 2)
  }

  lemma ServedPageCovers(db: Db, key: RecordKey, before: Option<int>, limit: int, size: Page -> nat, page: Page)
    requires Reachable(db) && key in db.records && 1 <= limit <= 100
    requires before.Some? ==> before.value >= 1
    requires Serves(db, key, before, limit, size, page)
    ensures Covers(db, key, before, page)
  {
    HeadVersion(db, key);
    var full := HistoryIsComplete(db, key, before, limit);
    var start := PageStart(db.records[key].version, before);
    var k: nat :| LongestFit(full, size, k) && page == Page(full.records[..k], CursorAt(full, k));
    TrimmedVersions(db, key, full, start, k);
  }

  /** The reader answers exactly when some non-empty prefix fits, or nothing is left below version 1. */
  lemma ServesWhenOneFits(db: Db, key: RecordKey, before: Option<int>, limit: int, size: Page -> nat)
    returns (full: Page)
    requires Reachable(db) && key in db.records && 1 <= limit <= 100 && (before.Some? ==> before.value >= 1)
    ensures History(db, key, before, limit) == Ok(Some(full))
    ensures (exists page :: Serves(db, key, before, limit, size, page)) <==>
            (before == Some(1) || exists k :: 1 <= k <= |full.records| && Fits(full, size, k))
  {
    full := HistoryIsComplete(db, key, before, limit);
    OneFits(full, before, size);
    assert forall page :: Serves(db, key, before, limit, size, page) <==> ServedFrom(full, before, size, page);
  }

  lemma OneFits(full: Page, before: Option<int>, size: Page -> nat)
    ensures (exists page :: ServedFrom(full, before, size, page)) <==>
            (before == Some(1) || exists k :: 1 <= k <= |full.records| && Fits(full, size, k))
  {
    var best := LongestFitExists(full, size, |full.records|);
    if before == Some(1) || exists k :: 1 <= k <= |full.records| && Fits(full, size, k) {
      assert ServedFrom(full, before, size, Page(full.records[..best], CursorAt(full, best)));
    }
    if page :| ServedFrom(full, before, size, page) {
      var k: nat :| LongestFit(full, size, k) && page == Page(full.records[..k], CursorAt(full, k));
      assert k > 0 ==> Fits(full, size, k);
    }
  }

  lemma {:induction false} LongestFitExists(page: Page, size: Page -> nat, top: nat) returns (k: nat)
    requires top <= |page.records|
    requires forall longer :: top < longer <= |page.records| ==> !Fits(page, size, longer)
    ensures LongestFit(page, size, k)
    decreases top
  {
    if top == 0 || Fits(page, size, top) {
      k := top;
    } else {
      k := LongestFitExists(page, size, top - 1);
    }
  }

  // ----- following cursors while commits go on

  /** Each page is read at its own moment with the cursor of the page before. */
  ghost predicate Followed(dbs: seq<Db>, key: RecordKey, before: Option<int>, limits: seq<int>, size: Page -> nat,
                           pages: seq<Page>)
    decreases |pages|
  {
    && |dbs| == |limits| == |pages| && pages != []
    && Reachable(dbs[0]) && 1 <= limits[0] <= 100
    && Serves(dbs[0], key, before, limits[0], size, pages[0])
    && (|pages| > 1 ==>
          && pages[0].next.Some? && Grows(dbs[0], dbs[1])
          && Followed(dbs[1..], key, pages[0].next, limits[1..], size, pages[1..]))
  }

  /** Pages followed to the end: the last one has no cursor. */
  ghost predicate PageChain(dbs: seq<Db>, key: RecordKey, before: Option<int>, limits: seq<int>, size: Page -> nat,
                            pages: seq<Page>)
  {
    Followed(dbs, key, before, limits, size, pages) && pages[|pages| - 1].next.None?
  }

  function AllRecords(pages: seq<Page>): seq<Outcome> {
    if pages == [] then [] else pages[0].records + AllRecords(pages[1..])
  }

  /** Listed versions are the same revisions in a later database. */
  lemma StoredStays(before: Db, after: Db, key: RecordKey, records: seq<Outcome>, start: int)
    requires Grows(before, after) && ListsVersions(before, key, records, start)
    ensures ListsVersions(after, key, records, start)
  {
    forall i | 0 <= i < |records|
      ensures IsVersion(after, key, records[i], start - i)
    {
      assert IsVersion(before, key, records[i], start - i);
    }
  }

  lemma JoinLists(db: Db, key: RecordKey, first: seq<Outcome>, rest: seq<Outcome>, start: int)
    requires ListsVersions(db, key, first, start) && ListsVersions(db, key, rest, start - |first|)
    ensures ListsVersions(db, key, first + rest, start)
  {
    forall i | 0 <= i < |first + rest|
      ensures IsVersion(db, key, (first + rest)[i], start - i)
    {
      if i >= |first| {
        assert (first + rest)[i] == rest[i - |first|];
        assert IsVersion(db, key, rest[i - |first|], start - |first| - (i - |first|));
      }
    }
  }

  lemma GrowsTransitive(a: Db, b: Db, c: Db)
    requires Grows(a, b) && Grows(b, c)
    ensures Grows(a, c)
  {
  }

  /** The page after `first` starts where `first` stopped, even if the head has moved since. */
  lemma NextStart(db: Db, later: Db, key: RecordKey, before: Option<int>, first: Page, start: int)
    requires Grows(db, later) && key in db.records && start == PageStart(HeadOf(db, key), before)
    requires first.next.Some? && first.next.value == start - |first.records| + 1 >= 2 && |first.records| >= 1
    ensures key in later.records
    ensures PageStart(HeadOf(later, key), first.next) == start - |first.records|
  {
  }

  /** Covering pages over growing databases, each starting where the one before stopped. */
  ghost predicate CoverChain(dbs: seq<Db>, key: RecordKey, before: Option<int>, pages: seq<Page>)
    decreases |pages|
  {
    && |dbs| == |pages| && pages != [] && key in dbs[0].records
    && Covers(dbs[0], key, before, pages[0])
    && (|pages| > 1 ==>
          pages[0].next.Some? && Grows(dbs[0], dbs[1]) && CoverChain(dbs[1..], key, pages[0].next, pages[1..]))
  }

  lemma {:induction false} FollowedCovers(dbs: seq<Db>, key: RecordKey, before: Option<int>, limits: seq<int>,
                                          size: Page -> nat, pages: seq<Page>)
    requires Followed(dbs, key, before, limits, size, pages)
    requires key in dbs[0].records && (before.Some? ==> before.value >= 1)
    ensures CoverChain(dbs, key, before, pages)
    decreases |pages|
  {
    ServedPageCovers(dbs[0], key, before, limits[0], size, pages[0]);
    if |pages| > 1 {
      NextStart(dbs[0], dbs[1], key, before, pages[0], PageStart(HeadOf(dbs[0], key), before));
      FollowedCovers(dbs[1..], key, pages[0].next, limits[1..], size, pages[1..]);
    }
  }

  lemma {:induction false} CoverChainEnds(dbs: seq<Db>, key: RecordKey, before: Option<int>, pages: seq<Page>)
    requires CoverChain(dbs, key, before, pages)
    ensures var start := PageStart(HeadOf(dbs[0], key), before);
            if pages[|pages| - 1].next.Some? then |pages| < start else |pages| <= start || |pages| == 1
    decreases |pages|
  {
    if |pages| > 1 {
      NextStart(dbs[0], dbs[1], key, before, pages[0], PageStart(HeadOf(dbs[0], key), before));
      CoverChainEnds(dbs[1..], key, pages[0].next, pages[1..]);
      assert pages[1..][|pages| - 2] == pages[|pages| - 1];
    }
  }

  /**
   Following cursors ends: as long as the last page still has one, fewer pages were read than there
   are versions from the start down, however many commits happen meanwhile.
   */
  lemma CursorsEnd(dbs: seq<Db>, key: RecordKey, before: Option<int>, limits: seq<int>, size: Page -> nat,
                   pages: seq<Page>)
    requires Followed(dbs, key, before, limits, size, pages)
    requires key in dbs[0].records && (before.Some? ==> before.value >= 1)
    ensures var start := PageStart(dbs[0].records[key].version, before);
            if pages[|pages| - 1].next.Some? then |pages| < start else |pages| <= start || |pages| == 1
  {
    FollowedCovers(dbs, key, before, limits, size, pages);
    CoverChainEnds(dbs, key, before, pages);
  }

  /** From its start downwards a finished chain of pages lists every version, as stored in the last database. */
  lemma {:induction false} ChainCovers(dbs: seq<Db>, key: RecordKey, before: Option<int>, pages: seq<Page>)
    requires CoverChain(dbs, key, before, pages) && pages[|pages| - 1].next.None?
    ensures |AllRecords(pages)| == PageStart(HeadOf(dbs[0], key), before)
    ensures Grows(dbs[0], dbs[|dbs| - 1])
    ensures ListsVersions(dbs[|dbs| - 1], key, AllRecords(pages), PageStart(HeadOf(dbs[0], key), before))
    decreases |pages|
  {
    var start := PageStart(HeadOf(dbs[0], key), before);
    var first := pages[0];
    if |pages| == 1 {
      assert AllRecords(pages[1..]) == [];
      assert AllRecords(pages) == first.records;
    } else {
      var last := dbs[|dbs| - 1];
      NextStart(dbs[0], dbs[1], key, before, first, start);
      assert pages[1..][|pages| - 2] == pages[|pages| - 1];
      ChainCovers(dbs[1..], key, first.next, pages[1..]);
      assert dbs[1..][|dbs[1..]| - 1] == last;
      GrowsTransitive(dbs[0], dbs[1], last);
      StoredStays(dbs[0], last, key, first.records, start);
      JoinLists(last, key, first.records, AllRecords(pages[1..]), start);
    }
  }

  /** Versions of a complete chain are the same revisions in any earlier database that holds them. */
  lemma ListedEarlier(db: Db, last: Db, key: RecordKey, all: seq<Outcome>, head: int, start: int)
    requires ChainComplete(db, key, head) && Grows(db, last) && start <= head
    requires |all| == start && ListsVersions(last, key, all, start)
    ensures ListsVersions(db, key, all, start)
  {
    forall i | 0 <= i < |all|
      ensures IsVersion(db, key, all[i], start - i)
    {
      assert Joins(db, RevisionKey(key, start - i));
      assert IsVersion(last, key, all[i], start - i);
    }
  }

  /**
   Pages followed to the end, from the head or from any cursor, give the revisions from there down to
   version 1, each exactly once, although commits happen in between and pages are trimmed.
   */
  lemma PagesCoverHistory(dbs: seq<Db>, key: RecordKey, before: Option<int>, limits: seq<int>, size: Page -> nat,
                          pages: seq<Page>)
    requires PageChain(dbs, key, before, limits, size, pages) && key in dbs[0].records
    requires before.Some? ==> before.value >= 1
    ensures var start := PageStart(dbs[0].records[key].version, before);
            |AllRecords(pages)| == start && ListsVersions(dbs[0], key, AllRecords(pages), start)
  {
    FollowedCovers(dbs, key, before, limits, size, pages);
    ChainCovers(dbs, key, before, pages);
    HeadVersion(dbs[0], key);
    ReachableChain(dbs[0], key, 0, 0);
    ListedEarlier(dbs[0], dbs[|dbs| - 1], key, AllRecords(pages), HeadOf(dbs[0], key),
                  PageStart(HeadOf(dbs[0], key), before));
  }
}
