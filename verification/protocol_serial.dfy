// Serializability: what a committed transaction read is what it would have
// read alone, just before its own events (internal/tx/tx.go, Commit).
module ProtocolSerial {
  import opened Wrappers
  import opened Lists
  import opened Dcb
  import opened Tables
  import opened StoreSpec
  import opened Reads
  import opened TxSpec
  import opened Net
  import opened RegistrySpec
  import opened Protocol
  import opened ProtocolShape
  import opened ProtocolFrames
  import opened ProtocolPause
  import ProtocolCounts

  // What a filter says of a list of facts: the matching ones, in the
  // direction of the filter, up to its limit.
  function Answer(f: Filter, facts: seq<PendingEvent>): seq<PendingEvent> {
    Limited(f.limit, Directed(f.backwards, Matching(f.query, facts)))
  }

  // What o recorded is true of this log and these pending events.
  ghost predicate Recorded(o: Observation, log: seq<Event>, events: seq<PendingEvent>) {
    && o.at <= |log| && o.before <= |events|
    && o.position == SnapshotPosition(o.filter.query, log[..o.at])
    && o.sent == FullRead(o.filter, log[..o.at], events[..o.before])
  }

  function EndOf(o: Observation): nat {
    if o.written.Some? then o.before + |o.written.value| else o.before
  }

  // A decision closed by a write: its condition, and its own events.
  ghost predicate Decided(o: Observation, c: AppendCondition, events: seq<PendingEvent>) {
    && c == AppendCondition(o.filter.query, o.position)
    && o.written.Some? && EndOf(o) <= |events|
    && events[o.before..EndOf(o)] == o.written.value
  }

  // The decisions lie end to end over the first n events.
  ghost predicate Chained(seen: seq<Observation>, n: nat) {
    if seen == [] then n == 0
    else
      var o := seen[|seen| - 1];
      EndOf(o) == n && Chained(seen[..|seen| - 1], o.before)
  }

  // A transaction's decisions make up its events, the last one perhaps still
  // open; each read recorded what it saw.
  ghost predicate SeenOk(log: seq<Event>, d: TxData, seen: seq<Observation>) {
    && |seen| == |d.conditions| + (if d.open.Some? then 1 else 0)
    && (forall i :: 0 <= i < |seen| ==> Recorded(seen[i], log, d.events))
    && Chained(seen, |d.events|)
    && (forall i :: 0 <= i < |d.conditions| ==> Decided(seen[i], d.conditions[i], d.events))
    && (d.open.Some? ==>
          var o := seen[|seen| - 1];
          o.written.None? && d.open.value == OpenCondition(o.filter.query, o.position))
  }

  ghost predicate LogOk(s: Sys) {
    CounterExact(s) && forall e :: e in s.store.log ==> e.sequence >= 1
  }

  ghost predicate AllSeen(s: Sys) {
    && LogOk(s)
    && forall id :: id in s.data ==> id in s.seen && SeenOk(s.store.log, s.data[id], s.seen[id])
  }

  // ---- The log only grows.

  lemma SeenOnLongerLog(log: seq<Event>, more: seq<Event>, d: TxData, seen: seq<Observation>)
    requires SeenOk(log, d, seen)
    ensures SeenOk(log + more, d, seen)
  {
    forall i | 0 <= i < |seen| ensures Recorded(seen[i], log + more, d.events) {
      assert (log + more)[..seen[i].at] == log[..seen[i].at];
    }
  }

  // What an append does to the log and the counter, whoever asks for it.
  lemma AppendExtends(s: StoreState, events: seq<PendingEvent>, conditions: seq<AppendCondition>,
                      w: Writes, v: Versions, t: StoreState, outcome: AppendOutcome) returns (more: seq<Event>)
    requires VersionsFor(w, v) && AppendStep(s, events, conditions, w, v, t, outcome) && s.nextSeq >= 1
    ensures t.log == s.log + more && forall e :: e in more ==> e.sequence >= 1
    ensures more == if outcome.Appended? then Stamped(events, s.nextSeq) else []
    ensures t.nextSeq == s.nextSeq + |more|
  {
    more := if outcome.Appended? then outcome.stored else [];
  }

  lemma WorkedExtends(s: Sys, work: Work, l: Label, u: Sys, limits: Limits) returns (more: seq<Event>)
    requires l.RunWork? && Worked(s, work, l, u, limits) && !work.DeleteEventsWork? && s.store.nextSeq >= 1
    ensures u.store.log == s.store.log + more && forall e :: e in more ==> e.sequence >= 1
    ensures u.store.nextSeq == s.store.nextSeq + |more|
    ensures more == if work.CommitWork? && l.outcome.Appended? then Stamped(work.data.events, s.store.nextSeq) else []
  {
    more := [];
    match work {
      case CommitWork(_, d) =>
        more := AppendExtends(s.store, d.events, d.conditions, NetWrites(d), l.versions, u.store, l.outcome);
      case ProjectionsWork(w) =>
        more := AppendExtends(s.store, [], [], w, l.versions, u.store, l.outcome);
      case _ => LogUntouched(s, work, l, u, limits);
    }
  }

  lemma RunExtends(s: Sys, l: Label, t: Sys, limits: Limits) returns (more: seq<Event>)
    requires l.RunWork? && RunStep(s, l, t, limits) && !DeletesLog(s, l) && s.store.nextSeq >= 1
    ensures t.store.log == s.store.log + more && forall e :: e in more ==> e.sequence >= 1
    ensures t.store.nextSeq == s.store.nextSeq + |more|
    ensures more == if s.jobs[l.ticket].work.CommitWork? && l.outcome.Appended? then
                      Stamped(s.jobs[l.ticket].work.data.events, s.store.nextSeq)
                    else []
  {
    more := WorkedExtends(s, s.jobs[l.ticket].work, l, t.(jobs := s.jobs), limits);
  }

  lemma NextIsPositive(s: Sys)
    requires LogOk(s)
    ensures s.store.nextSeq >= 1
  {
    var log := s.store.log;
    if log != [] {
      assert log[|log| - 1] in log;
    }
  }

  lemma RunKeepsSeen(s: Sys, l: Label, t: Sys, limits: Limits)
    requires AllSeen(s) && l.RunWork? && RunStep(s, l, t, limits) && !DeletesLog(s, l)
    ensures AllSeen(t)
  {
    RunFrame(s, l, t, limits);
    WorkKeepsCounterExact(s, l, t, limits);
    NextIsPositive(s);
    var more := RunExtends(s, l, t, limits);
    forall id | id in t.data ensures id in t.seen && SeenOk(t.store.log, t.data[id], t.seen[id]) {
      SeenOnLongerLog(s.store.log, more, s.data[id], s.seen[id]);
    }
  }

  // ---- The transactions' own steps.

  // One transaction moved on, to d and seen; the others and the log stayed.
  ghost predicate Moved(s: Sys, t: Sys, id: TxId, d: TxData, seen: seq<Observation>) {
    t.store == s.store && t.data == s.data[id := d] && t.seen == s.seen[id := seen]
  }

  lemma MovedKeepsSeen(s: Sys, t: Sys, id: TxId, d: TxData, seen: seq<Observation>)
    requires AllSeen(s) && Moved(s, t, id, d, seen) && SeenOk(s.store.log, d, seen)
    ensures AllSeen(t)
  {
  }

  lemma FewerTransactions(s: Sys, t: Sys)
    requires AllSeen(s) && t.store == s.store && t.seen == s.seen
    requires forall id :: id in t.data ==> id in s.data && t.data[id] == s.data[id]
    ensures AllSeen(t)
  {
  }

  lemma AddRecorded(log: seq<Event>, d: TxData, seen: seq<Observation>, o: Observation)
    requires SeenOk(log, d, seen) && d.open.None? && Recorded(o, log, d.events)
    requires o.before == |d.events| && o.written.None?
    ensures SeenOk(log, d.(open := Some(OpenCondition(o.filter.query, o.position))), seen + [o])
  {
    var after := seen + [o];
    assert after[..|seen|] == seen;
    forall i | 0 <= i < |after| ensures Recorded(after[i], log, d.events) {
      assert i < |seen| ==> after[i] == seen[i];
    }
    forall i | 0 <= i < |d.conditions| ensures Decided(after[i], d.conditions[i], d.events) {
      assert after[i] == seen[i];
    }
  }

  lemma ReadRecorded(log: seq<Event>, d: TxData, seen: seq<Observation>, f: Filter)
    requires SeenOk(log, d, seen) && d.open.None?
    ensures var o := Observation(f, SnapshotPosition(f.query, log), FullRead(f, log, d.events),
                              |log|, |d.events|, None);
            SeenOk(log, WithEventsRead(d, f, log), seen + [o])
  {
    assert log[..|log|] == log && d.events[..|d.events|] == d.events;
    AddRecorded(log, d, seen,
                Observation(f, SnapshotPosition(f.query, log), FullRead(f, log, d.events), |log|, |d.events|, None));
  }

  lemma RecordedWithMore(o: Observation, log: seq<Event>, events: seq<PendingEvent>, more: seq<PendingEvent>)
    requires Recorded(o, log, events)
    ensures Recorded(o, log, events + more)
    ensures forall c :: Decided(o, c, events) ==> Decided(o, c, events + more)
  {
    assert (events + more)[..o.before] == events[..o.before];
    if EndOf(o) <= |events| {
      assert (events + more)[o.before..EndOf(o)] == events[o.before..EndOf(o)];
    }
  }

  lemma WriteRecorded(log: seq<Event>, d: TxData, seen: seq<Observation>, events: seq<EventData>, time: nat)
    requires SeenOk(log, d, seen) && d.open.Some?
    ensures SeenOk(log, WithEventsWritten(d, events, time), LastWritten(seen, PendingAt(events, time)))
  {
    var more := PendingAt(events, time);
    var all, after, n := d.events + more, LastWritten(seen, more), |seen| - 1;
    forall i | 0 <= i < |after| ensures Recorded(after[i], log, all) {
      RecordedWithMore(seen[i], log, d.events, more);
    }
    forall i | 0 <= i < n ensures Decided(after[i], d.conditions[i], all) {
      RecordedWithMore(seen[i], log, d.events, more);
    }
    assert after[..n] == seen[..n];
    assert all[after[n].before..EndOf(after[n])] == more;
  }

  lemma RefuseKeepsSeen(s: Sys, id: TxId, error: CallError)
    requires AllSeen(s)
    ensures AllSeen(Refuse(s, id, error))
  {
    FewerTransactions(s, Refuse(s, id, error));
  }

  lemma ReadKeepsSeen(s: Sys, id: TxId, f: Filter, limits: Limits)
    requires AllSeen(s) && Uses(s, id)
    ensures AllSeen(ReadEventsStep(s, id, f, limits))
  {
    var d := s.data[id];
    match ReadRefusal(d, f, s.store.log, limits) {
      case Some(error) => RefuseKeepsSeen(s, id, error);
      case None =>
        var t := ReadEventsStep(s, id, f, limits);
        ReadRecorded(s.store.log, d, s.seen[id], f);
        MovedKeepsSeen(s, t, id, t.data[id], t.seen[id]);
    }
  }

  lemma WriteKeepsSeen(s: Sys, id: TxId, events: seq<EventData>, time: nat, limits: Limits)
    requires AllSeen(s) && Uses(s, id)
    ensures AllSeen(WriteEventsStep(s, id, events, time, limits))
  {
    var d := s.data[id];
    match WriteRefusal(d, |events|, limits) {
      case Some(error) => RefuseKeepsSeen(s, id, error);
      case None =>
        var t := WriteEventsStep(s, id, events, time, limits);
        WriteRecorded(s.store.log, d, s.seen[id], events, time);
        MovedKeepsSeen(s, t, id, t.data[id], t.seen[id]);
    }
  }

  // A transaction's projections have no part in what it read.
  lemma SameDecisions(log: seq<Event>, d: TxData, e: TxData, seen: seq<Observation>)
    requires SeenOk(log, d, seen) && e.events == d.events && e.open == d.open && e.conditions == d.conditions
    ensures SeenOk(log, e, seen)
  {
  }

  lemma {:induction false} ChangesKeepDecisions(d: TxData, changes: seq<Change>)
    ensures var e := ChangedAll(d, changes);
            e.events == d.events && e.open == d.open && e.conditions == d.conditions
  {
    if changes != [] {
      ChangesKeepDecisions(d, changes[..|changes| - 1]);
    }
  }

  lemma WritesKeepDecisions(d: TxData, w: TxWrites)
    ensures var e := WithWrites(d, w);
            e.events == d.events && e.open == d.open && e.conditions == d.conditions
  {
    ChangesKeepDecisions(d.(written := WrittenAfter(d, w)), Changes(w));
  }

  lemma SucceedKeepsSeen(s: Sys, t: Sys, id: TxId, d: TxData)
    requires AllSeen(s) && Uses(s, id) && t == Succeed(s, id, d).(firstRead := t.firstRead, made := t.made)
    requires d.events == s.data[id].events && d.open == s.data[id].open && d.conditions == s.data[id].conditions
    ensures AllSeen(t)
  {
    SameDecisions(s.store.log, s.data[id], d, s.seen[id]);
    assert t.seen == s.seen[id := s.seen[id]];
    MovedKeepsSeen(s, t, id, d, s.seen[id]);
  }

  lemma GetKeepsSeen(s: Sys, id: TxId, key: Key)
    requires AllSeen(s) && Uses(s, id)
    ensures AllSeen(GetProjectionStep(s, id, key))
  {
    SucceedKeepsSeen(s, GetProjectionStep(s, id, key), id, WithRead(s.data[id], key, Row(s.store.projections, key)));
  }

  lemma WriteProjectionsKeepsSeen(s: Sys, id: TxId, w: TxWrites, limits: Limits)
    requires AllSeen(s) && Uses(s, id)
    ensures AllSeen(WriteProjectionsStep(s, id, w, limits))
  {
    var d := s.data[id];
    if !WritesAllowed(d, w) {
      RefuseKeepsSeen(s, id, DesignError);
    } else if WrittenAfter(d, w) > limits.maxProjections {
      RefuseKeepsSeen(s, id, TooLarge);
    } else {
      WritesKeepDecisions(d, w);
      SucceedKeepsSeen(s, WriteProjectionsStep(s, id, w, limits), id, WithWrites(d, w));
    }
  }

  lemma ProjectionsKeepSeen(s: Sys, l: Label, t: Sys, limits: Limits)
    requires AllSeen(s) && (l.GetProjection? || l.WriteProjections? || l.ReadFails?) && Step(s, l, t, limits)
    ensures AllSeen(t)
  {
    match l {
      case GetProjection(id, key) => GetKeepsSeen(s, id, key);
      case WriteProjections(id, w) => WriteProjectionsKeepsSeen(s, id, w, limits);
      case ReadFails(id) => RefuseKeepsSeen(s, id, StoreError);
    }
  }

  lemma BeginKeepsSeen(s: Sys, id: TxId, now: int, limits: Limits)
    requires AllSeen(s)
    ensures AllSeen(BeginStep(s, id, now, limits))
  {
    var t := BeginStep(s, id, now, limits);
    if BeginResultOf(s.reg, limits).Begun? {
      MovedKeepsSeen(s, t, id, NEW_TX, []);
    } else {
      FewerTransactions(s, t);
    }
  }

  lemma ExpireKeepsSeen(s: Sys, now: int, limits: Limits)
    requires AllSeen(s)
    ensures AllSeen(Expire(s, now, limits))
  {
    FewerTransactions(s, Expire(s, now, limits));
  }

  lemma AcquireKeepsSeen(s: Sys, id: TxId, intent: Intent)
    requires AllSeen(s)
    ensures AllSeen(AcquireStep(s, id, intent))
  {
    TakenKeeps(s.reg, id);
    FewerTransactions(s, AcquireStep(s, id, intent));
  }

  lemma SectionKeepsSeen(s: Sys, id: TxId, now: int, todo: Todo)
    requires AllSeen(s)
    ensures AllSeen(SectionStep(s, id, now, todo))
  {
    FewerTransactions(s, SectionStep(s, id, now, todo));
  }

  lemma RegistryKeepsSeen(s: Sys, l: Label, t: Sys, limits: Limits)
    requires AllSeen(s) && OfRegistry(l) && Step(s, l, t, limits)
    ensures AllSeen(t)
  {
    var c := Expire(s, l.now, limits);
    ExpireKeepsSeen(s, l.now, limits);
    match l {
      case Begin(id, now) => BeginKeepsSeen(c, id, now, limits);
      case Acquire(id, now, intent) => AcquireKeepsSeen(c, id, intent);
      case Section(id, now) => SectionKeepsSeen(c, id, now, s.calls[id].todo);
    }
  }

  lemma ReopenedExact(s: StoreState)
    requires ValidState(s)
    ensures ValidState(Reopened(s)) && Reopened(s).log == s.log && Reopened(s).nextSeq == MaxSequence(s.log) + 1
  {
    MaxIsLast(s.log);
  }

  lemma RestartKeepsSeen(s: Sys)
    requires AllSeen(s)
    ensures AllSeen(Restarted(s))
  {
    var t := Restarted(s);
    ReopenedExact(s.store);
    assert t.data == map[] && t.store == Reopened(s.store);
  }

  lemma StepKeepsSeen(s: Sys, l: Label, t: Sys, limits: Limits)
    requires AllSeen(s) && Step(s, l, t, limits) && !DeletesLog(s, l)
    ensures AllSeen(t)
  {
    if OfRegistry(l) {
      RegistryKeepsSeen(s, l, t, limits);
    } else if l.ReadEvents? {
      ReadKeepsSeen(s, l.id, l.filter, limits);
    } else if l.WriteEvents? {
      WriteKeepsSeen(s, l.id, l.events, l.time, limits);
    } else if WorksOn(l) {
      ProjectionsKeepSeen(s, l, t, limits);
    } else if l.RunWork? {
      RunKeepsSeen(s, l, t, limits);
    } else if l.Restart? {
      RestartKeepsSeen(s);
    } else if l.Commit? {
      CommitFrame(s, l.id);
      FewerTransactions(s, t);
    } else {
      LineFrame(s, l, t, limits);
      FewerTransactions(s, t);
    }
  }

  lemma {:induction false} AlwaysSeen(ss: seq<Sys>, ls: seq<Label>, limits: Limits, n: nat)
    requires Run(ss, ls, limits) && AppendOnly(ss, ls) && n < |ss|
    ensures AllSeen(ss[n])
  {
    if n == 0 {
      MaxIsLast(ss[0].store.log);
    } else {
      AlwaysSeen(ss, ls, limits, n - 1);
      StepKeepsSeen(ss[n - 1], ls[n - 1], ss[n], limits);
    }
  }

  // ---- The theorem.

  // The transaction's events start at base in log. o sent exactly the lines
  // of a read of the log up to there, with its earlier events still pending:
  // the events o's filter selects before its own decision's, the committed
  // ones with the positions they have in log. Its own events follow.
  ghost predicate Serial(o: Observation, log: seq<Event>, base: nat) {
    && o.written.Some? && base + EndOf(o) <= |log|
    && o.sent == FullRead(o.filter, log[..base], Facts(log[base..base + o.before]))
    && FactsOf(o.sent) == Answer(o.filter, Facts(log[..base + o.before]))
    && Facts(log[base + o.before..base + EndOf(o)]) == o.written.value
  }

  lemma LateEventsDiffer(o: Observation, early: seq<Event>, late: seq<Event>)
    requires Ascending(early + late) && (forall e :: e in early + late ==> e.sequence >= 1)
    requires ConditionHolds(AppendCondition(o.filter.query, SnapshotPosition(o.filter.query, early)), early + late)
    ensures forall e :: e in late ==> !Matches(o.filter.query, e.data)
  {
    var log := early + late;
    forall e | e in late ensures !Matches(o.filter.query, e.data) {
      var i :| 0 <= i < |late| && late[i] == e;
      assert log[|early| + i] == e && e in log;
      if early != [] {
        assert log[|early| - 1] == early[|early| - 1];
      }
    }
  }

  // The condition holds: nothing after the read matched.
  lemma NothingMatchedSince(o: Observation, log: seq<Event>)
    requires Ascending(log) && (forall e :: e in log ==> e.sequence >= 1) && o.at <= |log|
    requires o.position == SnapshotPosition(o.filter.query, log[..o.at])
    requires ConditionHolds(AppendCondition(o.filter.query, o.position), log)
    ensures Selected(o.filter.query, 0, log) == Selected(o.filter.query, 0, log[..o.at])
  {
    var early, late := log[..o.at], log[o.at..];
    assert early + late == log;
    LateEventsDiffer(o, early, late);
    SelectedAfterAll(o.filter.query, 0, late);
    SelectedConcat(o.filter.query, 0, early, late);
  }

  lemma StampedFacts(log: seq<Event>, events: seq<PendingEvent>, start: int, i: nat, j: nat)
    requires i <= j <= |events|
    ensures var log' := log + Stamped(events, start);
            Facts(log'[..|log| + i]) == Facts(log) + events[..i] && Facts(log'[|log| + i..|log| + j]) == events[i..j]
  {
  }

  lemma CommittedIsSerial(o: Observation, c: AppendCondition, log: seq<Event>, events: seq<PendingEvent>, start: int)
    requires Recorded(o, log, events) && Decided(o, c, events) && ConditionHolds(c, log)
    requires Ascending(log) && (forall e :: e in log ==> e.sequence >= 1)
    ensures Serial(o, log + Stamped(events, start), |log|)
  {
    NothingMatchedSince(o, log);
    LinesAreFiltered(o.filter, log, events[..o.before]);
    StampedFacts(log, events, start, 0, o.before);
    StampedFacts(log, events, start, o.before, EndOf(o));
    assert (log + Stamped(events, start))[..|log|] == log;
  }

  lemma SerialOnLongerLog(o: Observation, log: seq<Event>, base: nat, log': seq<Event>)
    requires Serial(o, log, base) && log <= log'
    ensures Serial(o, log', base)
  {
    assert log'[..base] == log[..base] && log'[base..base + o.before] == log[base..base + o.before];
    assert log'[..base + o.before] == log[..base + o.before];
    assert log'[base + o.before..base + EndOf(o)] == log[base + o.before..base + EndOf(o)];
  }

  // The decisions of seen, in order, make up d's events, and each is serial
  // in log, where they start at base.
  ghost predicate AllSerial(d: TxData, seen: seq<Observation>, log: seq<Event>, base: nat) {
    && |seen| == |d.conditions|
    && base + |d.events| <= |log| && Facts(log[base..base + |d.events|]) == d.events
    && Chained(seen, |d.events|)
    && forall i :: 0 <= i < |seen| ==> Serial(seen[i], log, base)
  }

  lemma AppendedIsSerial(s: StoreState, d: TxData, seen: seq<Observation>, v: Versions,
                          t: StoreState, outcome: AppendOutcome)
    requires Ascending(s.log) && (forall e :: e in s.log ==> e.sequence >= 1)
    requires SeenOk(s.log, d, seen) && d.open.None?
    requires VersionsFor(NetWrites(d), v) && AppendStep(s, d.events, d.conditions, NetWrites(d), v, t, outcome)
    requires outcome.Appended?
    ensures AllSerial(d, seen, t.log, |s.log|)
  {
    forall i | 0 <= i < |seen| ensures Serial(seen[i], t.log, |s.log|) {
      CommittedIsSerial(seen[i], d.conditions[i], s.log, d.events, s.nextSeq);
    }
    StampedFacts(s.log, d.events, s.nextSeq, 0, |d.events|);
  }

  // A commit has no read open when it joins the line, nor while it waits.
  ghost predicate ClosedInLine(s: Sys) {
    forall k :: k in s.jobs && s.jobs[k].work.CommitWork? ==> s.jobs[k].work.data.open.None?
  }

  lemma FewerJobs(s: Sys, t: Sys)
    requires ClosedInLine(s)
    requires forall k :: k in t.jobs && t.jobs[k].work.CommitWork? ==> k in s.jobs && s.jobs[k].work == t.jobs[k].work
    ensures ClosedInLine(t)
  {
  }

  lemma TicketClosedInLine(s: Sys, t: Sys, work: Work)
    requires ClosedInLine(s) && (work.CommitWork? ==> work.data.open.None?)
    requires t.jobs == s.jobs || t.jobs == s.jobs[s.requests.line.next := Job(work, Unchecked)]
    ensures ClosedInLine(t)
  {
  }

  lemma CommitClosedInLine(s: Sys, id: TxId)
    requires ClosedInLine(s) && id in s.data
    ensures ClosedInLine(CommitStep(s, id))
  {
    CommitJobs(s, id);
    TicketClosedInLine(s, CommitStep(s, id),
                       if s.data[id].open.None? then CommitWork(id, s.data[id]) else OptimizeWork);
  }

  lemma WakeClosedInLine(s: Sys, ticket: nat)
    requires ClosedInLine(s) && ticket in s.jobs && ticket in s.requests.phase
    ensures ClosedInLine(WakeStep(s, ticket))
  {
    FewerJobs(s, WakeStep(s, ticket));
  }

  lemma DoneClosedInLine(s: Sys, ticket: nat)
    requires ClosedInLine(s) && ticket in s.jobs && s.jobs[ticket].stage.Over?
    ensures ClosedInLine(DoneStep(s, ticket))
  {
    FewerJobs(s, DoneStep(s, ticket));
  }

  lemma CheckedClosedInLine(s: Sys, ticket: nat)
    requires ClosedInLine(s) && ticket in s.jobs
    ensures ClosedInLine(CheckClosedStep(s, ticket))
  {
    FewerJobs(s, CheckClosedStep(s, ticket));
  }

  lemma LineClosedInLine(s: Sys, l: Label, t: Sys, limits: Limits)
    requires ClosedInLine(s) && OfLine(l) && Step(s, l, t, limits)
    ensures ClosedInLine(t)
  {
    match l {
      case Join(work) => TicketClosedInLine(s, Joined(s, work), work);
      case Wake(ticket) => WakeClosedInLine(s, ticket);
      case Done(ticket) => DoneClosedInLine(s, ticket);
      case CheckClosed(ticket) => CheckedClosedInLine(s, ticket);
      case CloseWriter => FewerJobs(s, t);
      case CloseLine => FewerJobs(s, t);
    }
  }

  lemma StepClosedInLine(s: Sys, l: Label, t: Sys, limits: Limits)
    requires ClosedInLine(s) && Step(s, l, t, limits)
    ensures ClosedInLine(t)
  {
    if OfRegistry(l) {
      RegistryFrame(s, l, t, limits);
    } else if WorksOn(l) {
      WorkMovesOn(s, l, t, limits);
    } else if l.Commit? {
      CommitClosedInLine(s, l.id);
    } else if OfLine(l) {
      LineClosedInLine(s, l, t, limits);
    }
  }

  lemma {:induction false} AlwaysClosedInLine(ss: seq<Sys>, ls: seq<Label>, limits: Limits, n: nat)
    requires Run(ss, ls, limits) && n < |ss|
    ensures ClosedInLine(ss[n])
  {
    if n > 0 {
      AlwaysClosedInLine(ss, ls, limits, n - 1);
      StepClosedInLine(ss[n - 1], ls[n - 1], ss[n], limits);
    }
  }

  // The log of an append-only run only grows at its end.
  lemma StepExtends(s: Sys, l: Label, t: Sys, limits: Limits)
    requires LogOk(s) && Step(s, l, t, limits) && !DeletesLog(s, l)
    ensures s.store.log <= t.store.log
  {
    if l.RunWork? {
      NextIsPositive(s);
      var more := RunExtends(s, l, t, limits);
    } else if !l.Restart? {
      OnlyTurnsWrite(s, l, t, limits);
    }
  }

  lemma {:induction false} LogOnlyGrows(ss: seq<Sys>, ls: seq<Label>, limits: Limits, i: nat, j: nat)
    requires Run(ss, ls, limits) && AppendOnly(ss, ls) && i <= j < |ss|
    ensures ss[i].store.log <= ss[j].store.log
    decreases j
  {
    if i < j {
      LogOnlyGrows(ss, ls, limits, i, j - 1);
      AlwaysSeen(ss, ls, limits, j - 1);
      StepExtends(ss[j - 1], ls[j - 1], ss[j], limits);
    }
  }

  // The transaction that the step commits is serial in log.
  ghost predicate CommitsSerially(s: Sys, l: Label, log: seq<Event>)
    requires Commits(s, l)
  {
    forall id, d :: s.jobs[l.ticket].work == CommitWork(id, d) ==>
      id in s.seen && AllSerial(d, s.seen[id], log, |s.store.log|)
  }

  lemma CommitStepSerial(s: Sys, l: Label, t: Sys, limits: Limits)
    requires Shaped(s) && AllSeen(s) && ClosedInLine(s) && Step(s, l, t, limits) && Commits(s, l)
    ensures CommitsSerially(s, l, t.store.log)
  {
    var work := s.jobs[l.ticket].work;
    assert JobOk(s, l.ticket);
    assert CallOk(s, work.id);
    AppendedIsSerial(s.store, work.data, s.seen[work.id], l.versions, t.store, l.outcome);
  }

  // What is known of every state of a run.
  ghost predicate Known(s: Sys) {
    Shaped(s) && AllSeen(s) && ClosedInLine(s)
  }

  lemma AlwaysKnown(ss: seq<Sys>, ls: seq<Label>, limits: Limits, n: nat)
    requires Run(ss, ls, limits) && AppendOnly(ss, ls) && n < |ss|
    ensures Known(ss[n])
  {
    AlwaysShaped(ss, ls, limits, n);
    AlwaysSeen(ss, ls, limits, n);
    AlwaysClosedInLine(ss, ls, limits, n);
  }

  lemma AllSerialLater(d: TxData, seen: seq<Observation>, log: seq<Event>, base: nat, log': seq<Event>)
    requires AllSerial(d, seen, log, base) && log <= log'
    ensures AllSerial(d, seen, log', base)
  {
    forall i | 0 <= i < |seen| ensures Serial(seen[i], log', base) {
      SerialOnLongerLog(seen[i], log, base, log');
    }
    assert log'[base..base + |d.events|] == log[base..base + |d.events|];
  }

  lemma SerialLater(s: Sys, l: Label, log: seq<Event>, log': seq<Event>)
    requires Commits(s, l) && CommitsSerially(s, l, log) && log <= log'
    ensures CommitsSerially(s, l, log')
  {
    var work := s.jobs[l.ticket].work;
    AllSerialLater(work.data, s.seen[work.id], log, |s.store.log|, log');
  }

  lemma SerialInRun(ss: seq<Sys>, ls: seq<Label>, limits: Limits, n: nat, log: seq<Event>)
    requires Run(ss, ls, limits) && AppendOnly(ss, ls) && n < |ls| && Commits(ss[n], ls[n])
             && ss[n + 1].store.log <= log
    ensures CommitsSerially(ss[n], ls[n], log)
  {
    AlwaysKnown(ss, ls, limits, n);
    CommitStepSerial(ss[n], ls[n], ss[n + 1], limits);
    SerialLater(ss[n], ls[n], ss[n + 1].store.log, log);
  }

  lemma LogFrom(ss: seq<Sys>, ls: seq<Label>, limits: Limits, n: nat, m: nat, log: seq<Event>)
    requires Run(ss, ls, limits) && AppendOnly(ss, ls) && n < |ls| && n < m < |ss| && log == ss[m].store.log
    ensures ss[n + 1].store.log <= log
  {
    LogOnlyGrows(ss, ls, limits, n + 1, m);
  }

  // At any moment after a commit has written, however calls interleaved:
  // every read of the transaction sent what its filter says of the log
  // strictly before its decision's own events, which follow there.
  lemma Serializable(ss: seq<Sys>, ls: seq<Label>, limits: Limits, n: nat, m: nat)
    requires Run(ss, ls, limits) && AppendOnly(ss, ls) && n < m < |ss| && Commits(ss[n], ls[n])
    ensures CommitsSerially(ss[n], ls[n], ss[m].store.log)
  {
    LogFrom(ss, ls, limits, n, m, ss[m].store.log);
    SerialInRun(ss, ls, limits, n, ss[m].store.log);
  }

  // The commit's work is done in the one step, and changes nothing else.
  predicate OverAtOnce(s: Sys, id: TxId)
    requires id in s.data
  {
    CommitStep(s, id) == s.(calls := s.calls[id := Tail(COMMITTED)])
  }

  // No event, and every projection back where it started or never changed.
  predicate HasNothing(d: TxData) {
    d.events == [] && forall k :: k in d.projections ==> NetKind(d.projections[k]).None?
  }

  lemma OverWithoutTurn(s: Sys, id: TxId)
    requires Uses(s, id) && Tracked(s.data[id])
    ensures OverAtOnce(s, id) <==> s.data[id].open.None? && HasNothing(s.data[id])
  {
    NothingToWrite(s.data[id]);
    assert s.(calls := s.calls[id := Tail(COMMITTED)]).calls[id] == Tail(COMMITTED);
  }

  // A commit with nothing to write takes no turn, and so checks nothing. In
  // every run, exactly those commits are over without a turn.
  lemma CommitWithoutTurn(ss: seq<Sys>, ls: seq<Label>, limits: Limits, n: nat, id: TxId)
    requires Run(ss, ls, limits) && n < |ss| && Uses(ss[n], id)
    ensures OverAtOnce(ss[n], id) <==> ss[n].data[id].open.None? && HasNothing(ss[n].data[id])
  {
    ProtocolCounts.AlwaysAccounted(ss, ls, limits, n);
    OverWithoutTurn(ss[n], id);
  }

  // ---- Positions.

  lemma GapFreeStep(s: Sys, l: Label, t: Sys, limits: Limits)
    requires LogOk(s) && LogOk(t) && Step(s, l, t, limits) && !DeletesLog(s, l)
    requires (forall i :: 0 <= i < |s.store.log| ==> s.store.log[i].sequence == i + 1)
             && LastSequence(s.store) == |s.store.log|
    ensures forall i :: 0 <= i < |t.store.log| ==> t.store.log[i].sequence == i + 1
    ensures LastSequence(t.store) == |t.store.log|
  {
    if l.RunWork? {
      NextIsPositive(s);
      var more := RunExtends(s, l, t, limits);
    } else if !l.Restart? {
      OnlyTurnsWrite(s, l, t, limits);
    }
  }

  // Over any run of appends and restarts from an empty log, the log is
  // exactly the sequences 1, 2, ..., in the order of the commits.
  lemma {:induction false} NoGaps(ss: seq<Sys>, ls: seq<Label>, limits: Limits, n: nat)
    requires Run(ss, ls, limits) && AppendOnly(ss, ls) && n < |ss| && ss[0].store.log == []
    ensures forall i :: 0 <= i < |ss[n].store.log| ==> ss[n].store.log[i].sequence == i + 1
    ensures LastSequence(ss[n].store) == |ss[n].store.log|
  {
    if n > 0 {
      NoGaps(ss, ls, limits, n - 1);
      AlwaysSeen(ss, ls, limits, n - 1);
      AlwaysSeen(ss, ls, limits, n);
      GapFreeStep(ss[n - 1], ls[n - 1], ss[n], limits);
    }
  }
}
