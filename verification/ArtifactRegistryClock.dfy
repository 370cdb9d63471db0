/**
 Where stored times come from: over every interleaving each entry's times are those of the clock that its own
 call read, moved behind the superseded artifact only when that clock is not later.
 */
module ArtifactRegistryClock {
  import opened Common
  import opened Unicode
  import opened ArtifactContents
  import opened ArtifactRegistry
  import opened ArtifactRegistryRuns

  /** The storage time is the clock's, or one past the superseded artifact when the clock is not later. */
  predicate ByClock(entries: map<Text, Entry>, supersedes: Option<ArtifactRef>, storedAt: int, now: int) {
    match supersedes
    case None => storedAt == now
    case Some(ref) =>
      && ref.digest in entries
      && storedAt == if entries[ref.digest].persistedAt >= now then entries[ref.digest].persistedAt + 1 else now
  }

  /** The call is there, its object bound, and about to read the clock. */
  predicate WaitsForClock(s: System, pid: Pid) {
    pid in s.calls && s.calls[pid].phase.Bound?
  }

  /** At event `i` the call reads the clock. */
  ghost predicate ReadsClock(v: Service, events: seq<Event>, i: nat, pid: Pid, now: int)
    requires ValidService(v)
  {
    i < |events| && events[i] == Event.ReadClock(pid, now) && WaitsForClock(Run(v, events[..i]), pid)
  }

  ghost predicate Traced(v: Service, events: seq<Event>, entries: map<Text, Entry>, pid: Pid,
                         supersedes: Option<ArtifactRef>, storedAt: int)
    requires ValidService(v)
  {
    exists i, now :: ReadsClock(v, events, i, pid, now) && ByClock(entries, supersedes, storedAt, now)
  }

  predicate HasTimes(phase: Phase) {
    phase.Timed? || phase.Inserting?
  }

  /** The call's request, as accepted. */
  predicate Accepted(v: Service, s: System, pid: Pid, p: Prepared) {
    pid in s.calls && Request(v, s.calls[pid].raw) == Ok(p)
  }

  ghost predicate CallTraced(v: Service, events: seq<Event>, s: System, pid: Pid)
    requires ValidService(v)
  {
    forall p :: Accepted(v, s, pid, p) && HasTimes(s.calls[pid].phase) ==>
      Traced(v, events, s.db.entries, pid, p.supersedes, s.calls[pid].phase.times.storage)
  }

  /** Some call registered this digest and read the clock for it; the other times follow a second apart. */
  ghost predicate EntryTraced(v: Service, events: seq<Event>, s: System, d: Text)
    requires ValidService(v) && d in s.db.entries && d in s.db.receipts
  {
    var storedAt := s.db.receipts[d].receipt.body.storedAt;
    && s.db.receipts[d].persistedAt == storedAt + 1 && s.db.entries[d].persistedAt == storedAt + 2
    && exists pid, p ::
         && Accepted(v, s, pid, p) && p.digest == d
         && Traced(v, events, s.db.entries, pid, s.db.entries[d].supersedes, storedAt)
  }

  // ----- one step

  /** Times come into a phase only by reading the clock. */
  lemma PhaseAfter(v: Service, s: System, e: Event, p: Prepared)
    requires ValidService(v) && e.pid in s.calls && |p.digest| >= 7
    ensures var t, phase := NextState(v, s, e, p), s.calls[e.pid].phase;
            && e.pid in t.calls && t.calls == s.calls[e.pid := t.calls[e.pid]]
            && t.calls[e.pid].raw == s.calls[e.pid].raw
            && (HasTimes(t.calls[e.pid].phase) ==>
                  || (HasTimes(phase) && t.calls[e.pid].phase.times == phase.times)
                  || (e.ReadClock? && phase.Bound?
                      && t.calls[e.pid].phase.times == PersistenceTimeline(e.now, phase.head)))
  {
  }

  /** A new entry is a commit's, with the lineage of its request and the times of its phase. */
  lemma EntriesAfter(v: Service, s: System, e: Event, p: Prepared)
    requires ValidService(v) && e.pid in s.calls && |p.digest| >= 7
    ensures var t, phase := NextState(v, s, e, p), s.calls[e.pid].phase;
            forall d :: d in t.db.entries && d !in s.db.entries ==>
              && phase.Inserting? && d == p.digest && d in t.db.receipts
              && t.db.entries[d].supersedes == p.supersedes && t.db.entries[d].persistedAt == phase.times.artifact
              && t.db.receipts[d].receipt.body.storedAt == phase.times.storage
              && t.db.receipts[d].persistedAt == phase.times.receipt
  {
  }

  lemma ReadingStays(v: Service, events: seq<Event>, e: Event, i: nat, pid: Pid, now: int)
    requires ValidService(v) && ReadsClock(v, events, i, pid, now)
    ensures ReadsClock(v, events + [e], i, pid, now)
  {
    assert (events + [e])[..i] == events[..i];
  }

  lemma ByClockStays(before: map<Text, Entry>, after: map<Text, Entry>, supersedes: Option<ArtifactRef>, storedAt: int,
                     now: int)
    requires Extends(before, after) && ByClock(before, supersedes, storedAt, now)
    ensures ByClock(after, supersedes, storedAt, now)
  {
  }

  lemma TraceStays(v: Service, events: seq<Event>, e: Event, before: map<Text, Entry>, after: map<Text, Entry>,
                   pid: Pid, supersedes: Option<ArtifactRef>, storedAt: int)
    requires ValidService(v) && Extends(before, after) && Traced(v, events, before, pid, supersedes, storedAt)
    ensures Traced(v, events + [e], after, pid, supersedes, storedAt)
  {
    var i, now :| ReadsClock(v, events, i, pid, now) && ByClock(before, supersedes, storedAt, now);
    ReadingStays(v, events, e, i, pid, now);
    ByClockStays(before, after, supersedes, storedAt, now);
  }

  lemma HeadIsSuperseded(entries: map<Text, Entry>, p: Prepared, head: Option<Entry>, now: int,
                         receipts: map<Text, ReceiptRow>)
    requires HeadFits(Db(entries, receipts), p, head)
    ensures ByClock(entries, p.supersedes, PersistenceTimeline(now, head).storage, now)
  {
  }

  lemma LastReading(v: Service, events: seq<Event>, pid: Pid, now: int)
    requires ValidService(v) && WaitsForClock(Run(v, events), pid)
    ensures ReadsClock(v, events + [Event.ReadClock(pid, now)], |events|, pid, now)
  {
    assert (events + [Event.ReadClock(pid, now)])[..|events|] == events;
  }

  lemma RunNext(v: Service, events: seq<Event>, e: Event)
    requires ValidService(v)
    ensures Run(v, events + [e]) == Take(v, Run(v, events), e)
  {
    assert (events + [e])[..|events|] == events;
  }

  /** The step is one of a call that stands, or an arrival, or nothing. */
  lemma StepIs(v: Service, s: System, e: Event) returns (p: Option<Prepared>)
    requires ValidService(v)
    ensures p.Some? ==>
              Accepted(v, s, e.pid, p.value) && |p.value.digest| >= 7 && Take(v, s, e) == NextState(v, s, e, p.value)
    ensures p.None? ==>
              var t := Take(v, s, e);
              t == s
              || (e.pid !in s.calls && t == s.(calls := s.calls[e.pid := t.calls[e.pid]])
                  && t.calls[e.pid].phase.Arrived?)
  {
    p := None;
    if !e.Arrive? && At(v, s, e.pid) {
      DigestOfRequest(v, s.calls[e.pid].raw);
      p := Some(Request(v, s.calls[e.pid].raw).value);
    }
  }

  lemma AcceptedStays(v: Service, s: System, e: Event, pid: Pid, p: Prepared)
    requires ValidService(v)
    ensures pid in s.calls ==> (Accepted(v, s, pid, p) <==> Accepted(v, Take(v, s, e), pid, p))
  {
    var q := StepIs(v, s, e);
    if q.Some? {
      PhaseAfter(v, s, e, q.value);
    }
  }

  /** The later phase has its times from the earlier one, or from the clock just read. */
  predicate TimesFrom(before: Phase, e: Event, pid: Pid, after: Phase)
    requires HasTimes(after)
  {
    || (HasTimes(before) && after.times == before.times)
    || (e.ReadClock? && e.pid == pid && before.Bound? && after.times == PersistenceTimeline(e.now, before.head))
  }

  lemma TimesAfter(v: Service, s: System, e: Event, t: System, pid: Pid)
    requires ValidService(v) && t == Take(v, s, e) && pid in t.calls && HasTimes(t.calls[pid].phase)
    ensures pid in s.calls && TimesFrom(s.calls[pid].phase, e, pid, t.calls[pid].phase)
  {
    var q := StepIs(v, s, e);
    if q.Some? {
      PhaseAfter(v, s, e, q.value);
    }
  }

  lemma CallStaysTraced(v: Service, world: set<seq<Byte>>, events: seq<Event>, e: Event, pid: Pid, p: Prepared)
    requires ValidService(v) && Sound(v, world, Run(v, events)) && CallTraced(v, events, Run(v, events), pid)
    requires var t := Take(v, Run(v, events), e); Accepted(v, t, pid, p) && HasTimes(t.calls[pid].phase)
    ensures var t := Take(v, Run(v, events), e);
            Traced(v, events + [e], t.db.entries, pid, p.supersedes, t.calls[pid].phase.times.storage)
  {
    var s, t := Run(v, events), Take(v, Run(v, events), e);
    StepGrows(v, s, e);
    TimesAfter(v, s, e, t, pid);
    AcceptedStays(v, s, e, pid, p);
    var before, times := s.calls[pid].phase, t.calls[pid].phase.times;
    if HasTimes(before) && times == before.times {
      TraceStays(v, events, e, s.db.entries, t.db.entries, pid, p.supersedes, times.storage);
    } else {
      CallIsOk(v, world, s, pid, p);
      HeadIsSuperseded(s.db.entries, p, before.head, e.now, s.db.receipts);
      ByClockStays(s.db.entries, t.db.entries, p.supersedes, times.storage, e.now);
      LastReading(v, events, pid, e.now);
    }
  }

  lemma CallIsOk(v: Service, world: set<seq<Byte>>, s: System, pid: Pid, p: Prepared)
    requires ValidService(v) && Sound(v, world, s) && Accepted(v, s, pid, p)
    ensures |p.digest| >= 7 && PhaseOk(v, s, p, s.calls[pid].phase)
  {
    assert CallOk(v, world, s, s.calls[pid]);
  }

  lemma OldEntryStaysTraced(v: Service, world: set<seq<Byte>>, events: seq<Event>, e: Event, d: Text)
    requires ValidService(v) && d in Run(v, events).db.entries && d in Run(v, events).db.receipts
    requires EntryTraced(v, events, Run(v, events), d)
    ensures var t := Take(v, Run(v, events), e);
            d in t.db.entries && d in t.db.receipts && EntryTraced(v, events + [e], t, d)
  {
    var s, t := Run(v, events), Take(v, Run(v, events), e);
    StepGrows(v, s, e);
    var pid, p :| Accepted(v, s, pid, p) && p.digest == d &&
                  Traced(v, events, s.db.entries, pid, s.db.entries[d].supersedes,
                         s.db.receipts[d].receipt.body.storedAt);
    AcceptedStays(v, s, e, pid, p);
    TraceStays(v, events, e, s.db.entries, t.db.entries, pid, s.db.entries[d].supersedes,
               s.db.receipts[d].receipt.body.storedAt);
    assert Accepted(v, t, pid, p);
  }

  lemma NewEntryIsTraced(v: Service, world: set<seq<Byte>>, events: seq<Event>, e: Event, d: Text)
    requires ValidService(v) && Sound(v, world, Run(v, events))
    requires d in Take(v, Run(v, events), e).db.entries && d !in Run(v, events).db.entries
    requires CallTraced(v, events, Run(v, events), e.pid)
    ensures var t := Take(v, Run(v, events), e);
            d in t.db.receipts && EntryTraced(v, events + [e], t, d)
  {
    var s, t := Run(v, events), Take(v, Run(v, events), e);
    StepGrows(v, s, e);
    var q := StepIs(v, s, e);
    var p := q.value;
    EntriesAfter(v, s, e, p);
    CallIsOk(v, world, s, e.pid, p);
    AcceptedStays(v, s, e, e.pid, p);
    TraceStays(v, events, e, s.db.entries, t.db.entries, e.pid, p.supersedes, s.calls[e.pid].phase.times.storage);
    assert Accepted(v, t, e.pid, p);
  }

  // ----- whole runs

  ghost predicate AllTraced(v: Service, events: seq<Event>)
    requires ValidService(v)
  {
    var s := Run(v, events);
    && (forall pid :: CallTraced(v, events, s, pid))
    && (forall d :: d in s.db.entries ==> d in s.db.receipts && EntryTraced(v, events, s, d))
  }

  lemma StepTraces(v: Service, world: set<seq<Byte>>, events: seq<Event>, e: Event)
    requires ValidService(v) && Sound(v, world, Run(v, events)) && AllTraced(v, events)
    ensures AllTraced(v, events + [e])
  {
    var s, t := Run(v, events), Run(v, events + [e]);
    RunNext(v, events, e);
    forall pid
      ensures CallTraced(v, events + [e], t, pid)
    {
      forall p | Accepted(v, t, pid, p) && HasTimes(t.calls[pid].phase)
        ensures Traced(v, events + [e], t.db.entries, pid, p.supersedes, t.calls[pid].phase.times.storage)
      {
        CallStaysTraced(v, world, events, e, pid, p);
      }
    }
    forall d | d in t.db.entries
      ensures d in t.db.receipts && EntryTraced(v, events + [e], t, d)
    {
      if d in s.db.entries {
        OldEntryStaysTraced(v, world, events, e, d);
      } else {
        NewEntryIsTraced(v, world, events, e, d);
      }
    }
  }

  lemma {:induction false} RunTraces(v: Service, world: set<seq<Byte>>, events: seq<Event>)
    requires ValidService(v) && CollisionFree(v, world) && Within(v, world, events)
    ensures AllTraced(v, events)
    decreases |events|
  {
    if events != [] {
      var front, e := events[..|events| - 1], events[|events| - 1];
      assert forall i :: 0 <= i < |front| ==> front[i] == events[i];
      RunTraces(v, world, front);
      RunSound(v, world, front);
      StepTraces(v, world, front, e);
      assert events == front + [e];
    }
  }

  /**
   Whatever interleaves and whatever the clocks say: an entry was made by a call for its digest, which read the
   clock once its object was bound; the storage time is that reading, unless the superseded artifact is not
   earlier, and then one second past it. Receipt and artifact times follow a second apart.
   */
  lemma StoredByClock(v: Service, world: set<seq<Byte>>, events: seq<Event>, d: Text)
    requires ValidService(v) && CollisionFree(v, world) && Within(v, world, events)
    requires d in Run(v, events).db.entries
    ensures var s := Run(v, events);
            && d in s.db.receipts
            && var storedAt := s.db.receipts[d].receipt.body.storedAt;
            && s.db.receipts[d].persistedAt == storedAt + 1 && s.db.entries[d].persistedAt == storedAt + 2
            && exists pid, p, i, now ::
                 && Accepted(v, s, pid, p) && p.digest == d && ReadsClock(v, events, i, pid, now)
                 && ByClock(s.db.entries, s.db.entries[d].supersedes, storedAt, now)
  {
    var s := Run(v, events);
    RunTraces(v, world, events);
    assert EntryTraced(v, events, s, d);
    var storedAt := s.db.receipts[d].receipt.body.storedAt;
    var pid, p :| Accepted(v, s, pid, p) && p.digest == d
                  && Traced(v, events, s.db.entries, pid, s.db.entries[d].supersedes, storedAt);
    var i, now :| ReadsClock(v, events, i, pid, now)
                  && ByClock(s.db.entries, s.db.entries[d].supersedes, storedAt, now);
  }
}
