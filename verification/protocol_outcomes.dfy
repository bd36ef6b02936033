// What the turn of a commit answers about its conditions, over every run
// (internal/store/append.go).
module ProtocolOutcomes {
  import opened Wrappers
  import opened Dcb
  import opened StoreSpec
  import opened TxSpec
  import opened Net
  import opened Protocol
  import opened ProtocolShape
  import opened ProtocolFrames
  import opened ProtocolPause
  import opened ProtocolSerial

  // Since the read, an event that it asked for was appended.
  ghost predicate Overtaken(o: Observation, log: seq<Event>) {
    exists e :: e in log && e.sequence > o.position && Matches(o.filter.query, e.data)
  }

  // What the outcome says of the reads: a conflict names the first overtaken,
  // and the projections are only tried, and all is only written, if none is.
  ghost predicate JudgesReads(outcome: AppendOutcome, seen: seq<Observation>, log: seq<Event>) {
    match outcome
    case ConditionConflict(i) =>
      i < |seen| && Overtaken(seen[i], log) && forall j :: 0 <= j < i ==> !Overtaken(seen[j], log)
    case Appended(_, _) => forall o :: o in seen ==> !Overtaken(o, log)
    case ProjectionConflict(_, _) => forall o :: o in seen ==> !Overtaken(o, log)
    case NoTime(_) => true
    case Failed => true
  }

  lemma HoldsIff(o: Observation, c: AppendCondition, log: seq<Event>)
    requires c == AppendCondition(o.filter.query, o.position)
    ensures ConditionHolds(c, log) <==> !Overtaken(o, log)
  {
  }

  lemma AllHold(d: TxData, seen: seq<Observation>, log: seq<Event>, n: nat)
    requires SeenOk(log, d, seen) && d.open.None? && n <= |d.conditions|
    ensures ConditionsHold(d.conditions, n, log) <==> forall j :: 0 <= j < n ==> !Overtaken(seen[j], log)
  {
    forall j | 0 <= j < n ensures ConditionHolds(d.conditions[j], log) <==> !Overtaken(seen[j], log) {
      assert Decided(seen[j], d.conditions[j], d.events);
      HoldsIff(seen[j], d.conditions[j], log);
    }
  }

  lemma AppendJudges(s: StoreState, d: TxData, seen: seq<Observation>, v: Versions, t: StoreState,
                     outcome: AppendOutcome)
    requires SeenOk(s.log, d, seen) && d.open.None? && VersionsFor(NetWrites(d), v)
    requires AppendStep(s, d.events, d.conditions, NetWrites(d), v, t, outcome)
    ensures JudgesReads(outcome, seen, s.log)
  {
    AllHold(d, seen, s.log, |d.conditions|);
    match outcome {
      case ConditionConflict(i) =>
        AllHold(d, seen, s.log, i);
        assert Decided(seen[i], d.conditions[i], d.events);
        HoldsIff(seen[i], d.conditions[i], s.log);
      case _ =>
    }
  }

  lemma CommitJudgesReads(s: Sys, l: Label, t: Sys, limits: Limits)
    requires Known(s) && RunsCommit(s, l) && Step(s, l, t, limits)
    ensures var id := s.jobs[l.ticket].work.id;
            id in s.seen && JudgesReads(l.outcome, s.seen[id], s.store.log)
  {
    var work := s.jobs[l.ticket].work;
    assert JobOk(s, l.ticket) && CallOk(s, work.id);
    AppendJudges(s.store, work.data, s.seen[work.id], l.versions, t.store, l.outcome);
  }

  // In every run that doesn't delete the log: a condition conflict is real,
  // on the first read of the transaction that an event overtook; and a commit
  // that writes, or gets as far as its projections, has none overtaken.
  lemma ConflictsAreReal(ss: seq<Sys>, ls: seq<Label>, limits: Limits, n: nat)
    requires Run(ss, ls, limits) && AppendOnly(ss, ls) && n < |ls| && RunsCommit(ss[n], ls[n])
    ensures var id := ss[n].jobs[ls[n].ticket].work.id;
            id in ss[n].seen && JudgesReads(ls[n].outcome, ss[n].seen[id], ss[n].store.log)
  {
    AlwaysKnown(ss, ls, limits, n);
    CommitJudgesReads(ss[n], ls[n], ss[n + 1], limits);
  }

  // ---- Every event has a time.

  ghost predicate AllTimed(log: seq<Event>) {
    forall e :: e in log ==> e.time != 0
  }

  lemma WorkedTimed(s: Sys, work: Work, l: Label, u: Sys, limits: Limits)
    requires AllTimed(s.store.log) && l.RunWork? && Worked(s, work, l, u, limits)
    ensures AllTimed(u.store.log)
  {
    match work {
      case CommitWork(_, d) =>
      case ProjectionsWork(w) => NoEventNoChange(s, w, l.versions, l.outcome, u);
      case DeleteEventsWork =>
      case _ => LogUntouched(s, work, l, u, limits);
    }
  }

  lemma StepTimed(s: Sys, l: Label, t: Sys, limits: Limits)
    requires AllTimed(s.store.log) && Step(s, l, t, limits)
    ensures AllTimed(t.store.log)
  {
    if l.RunWork? {
      WorkedTimed(s, s.jobs[l.ticket].work, l, t.(jobs := s.jobs), limits);
    } else if !l.Restart? {
      OnlyTurnsWrite(s, l, t, limits);
    }
  }

  // In every run from a log whose events have a time, all always have one:
  // a write with an event that has none is refused.
  lemma {:induction false} AlwaysTimed(ss: seq<Sys>, ls: seq<Label>, limits: Limits, n: nat)
    requires Run(ss, ls, limits) && n < |ss| && AllTimed(ss[0].store.log)
    ensures AllTimed(ss[n].store.log)
  {
    if n > 0 {
      AlwaysTimed(ss, ls, limits, n - 1);
      StepTimed(ss[n - 1], ls[n - 1], ss[n], limits);
    }
  }
}
