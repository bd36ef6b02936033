// How a transaction's reads and writes of events stand, from what its reads
// recorded, over every run, even one that deletes the log
// (internal/tx/tx.go).
module ProtocolReads {
  import opened Wrappers
  import opened Dcb
  import opened Tables
  import opened Reads
  import opened TxSpec
  import opened RegistrySpec
  import opened Protocol
  import opened ProtocolShape
  import opened ProtocolFrames
  import ProtocolSerial

  // A read waits for its write.
  predicate ReadOpen(seen: seq<Observation>) {
    seen != [] && seen[|seen| - 1].written.None?
  }

  // How many events the reads' decisions wrote.
  function EventsWritten(seen: seq<Observation>): nat {
    if seen == [] then 0
    else
      var o := seen[|seen| - 1];
      EventsWritten(seen[..|seen| - 1]) + if o.written.Some? then |o.written.value| else 0
  }

  // What the transaction holds agrees with what its reads recorded.
  predicate Agrees(d: TxData, seen: seq<Observation>) {
    && (ReadOpen(seen) <==> d.open.Some?)
    && |d.events| == EventsWritten(seen) && |d.conditions| + (if d.open.Some? then 1 else 0) == |seen|
  }

  ghost predicate AllAgree(s: Sys) {
    forall id :: id in s.data ==> id in s.seen && Agrees(s.data[id], s.seen[id])
  }

  lemma ReadAgrees(d: TxData, seen: seq<Observation>, f: Filter, log: seq<Event>, o: Observation)
    requires Agrees(d, seen) && d.open.None? && o.written.None?
    ensures Agrees(WithEventsRead(d, f, log), seen + [o])
  {
    assert (seen + [o])[..|seen|] == seen;
  }

  lemma WriteAgrees(d: TxData, seen: seq<Observation>, events: seq<EventData>, time: nat)
    requires Agrees(d, seen) && d.open.Some?
    ensures Agrees(WithEventsWritten(d, events, time), LastWritten(seen, PendingAt(events, time)))
  {
    var after := LastWritten(seen, PendingAt(events, time));
    assert after[..|after| - 1] == seen[..|seen| - 1];
  }

  // ---- Steps.

  lemma SameAgrees(s: Sys, t: Sys)
    requires AllAgree(s) && t.seen == s.seen
    requires forall id :: id in t.data ==> id in s.data && t.data[id] == s.data[id]
    ensures AllAgree(t)
  {
  }

  lemma OneAgrees(s: Sys, t: Sys, id: TxId, d: TxData, seen: seq<Observation>)
    requires AllAgree(s) && Agrees(d, seen) && t.data == s.data[id := d] && t.seen == s.seen[id := seen]
    ensures AllAgree(t)
  {
  }

  lemma BeginAgrees(s: Sys, id: TxId, now: int, limits: Limits)
    requires AllAgree(s)
    ensures AllAgree(BeginStep(s, id, now, limits))
  {
    BeginCases(s, id, now, limits);
    if BeginResultOf(s.reg, limits).Begun? {
      OneAgrees(s, BeginStep(s, id, now, limits), id, NEW_TX, []);
    } else {
      SameAgrees(s, BeginStep(s, id, now, limits));
    }
  }

  lemma AcquireAgrees(s: Sys, id: TxId, intent: Intent)
    requires AllAgree(s)
    ensures AllAgree(AcquireStep(s, id, intent))
  {
    AcquireCases(s, id, intent);
    SameAgrees(s, AcquireStep(s, id, intent));
  }

  lemma SectionAgrees(s: Sys, id: TxId, now: int, todo: Todo)
    requires AllAgree(s)
    ensures AllAgree(SectionStep(s, id, now, todo))
  {
    SectionCases(s, id, now, todo);
    SameAgrees(s, SectionStep(s, id, now, todo));
  }

  lemma ExpireAgrees(s: Sys, now: int, limits: Limits)
    requires AllAgree(s)
    ensures AllAgree(Expire(s, now, limits))
  {
    SameAgrees(s, Expire(s, now, limits));
  }

  lemma RegistryAgrees(s: Sys, l: Label, t: Sys, limits: Limits)
    requires AllAgree(s) && OfRegistry(l) && Step(s, l, t, limits)
    ensures AllAgree(t)
  {
    var c := Expire(s, l.now, limits);
    ExpireAgrees(s, l.now, limits);
    match l {
      case Begin(id, now) => BeginAgrees(c, id, now, limits);
      case Acquire(id, _, intent) => AcquireAgrees(c, id, intent);
      case Section(id, now) => SectionAgrees(c, id, now, s.calls[id].todo);
    }
  }

  lemma RefuseAgrees(s: Sys, id: TxId, error: CallError)
    requires AllAgree(s)
    ensures AllAgree(Refuse(s, id, error))
  {
    SameAgrees(s, Refuse(s, id, error));
  }

  lemma ReadStepAgrees(s: Sys, id: TxId, f: Filter, limits: Limits)
    requires AllAgree(s) && Uses(s, id)
    ensures AllAgree(ReadEventsStep(s, id, f, limits))
  {
    var d, log, t := s.data[id], s.store.log, ReadEventsStep(s, id, f, limits);
    match ReadRefusal(d, f, log, limits) {
      case Some(error) => RefuseAgrees(s, id, error);
      case None =>
        var o := Observation(f, SnapshotPosition(f.query, log), FullRead(f, log, d.events), |log|, |d.events|, None);
        ReadAgrees(d, s.seen[id], f, log, o);
        OneAgrees(s, t, id, WithEventsRead(d, f, log), s.seen[id] + [o]);
    }
  }

  lemma WriteStepAgrees(s: Sys, id: TxId, events: seq<EventData>, time: nat, limits: Limits)
    requires AllAgree(s) && Uses(s, id)
    ensures AllAgree(WriteEventsStep(s, id, events, time, limits))
  {
    var d, t := s.data[id], WriteEventsStep(s, id, events, time, limits);
    match WriteRefusal(d, |events|, limits) {
      case Some(error) => RefuseAgrees(s, id, error);
      case None =>
        WriteAgrees(d, s.seen[id], events, time);
        OneAgrees(s, t, id, WithEventsWritten(d, events, time), LastWritten(s.seen[id], PendingAt(events, time)));
    }
  }

  // A call on projections leaves the rest of its transaction alone.
  lemma ProjectionsAgree(s: Sys, t: Sys, id: TxId, d: TxData)
    requires AllAgree(s) && id in s.data && t.data == s.data[id := d] && t.seen == s.seen
    requires d.events == s.data[id].events && d.open == s.data[id].open && d.conditions == s.data[id].conditions
    ensures AllAgree(t)
  {
    assert t.seen == s.seen[id := s.seen[id]];
    OneAgrees(s, t, id, d, s.seen[id]);
  }

  lemma GetStepAgrees(s: Sys, id: TxId, key: Key)
    requires AllAgree(s) && Uses(s, id)
    ensures AllAgree(GetProjectionStep(s, id, key))
  {
    var d := WithRead(s.data[id], key, Row(s.store.projections, key));
    ProjectionsAgree(s, GetProjectionStep(s, id, key), id, d);
  }

  lemma WriteProjectionsAgrees(s: Sys, id: TxId, w: TxWrites, limits: Limits)
    requires AllAgree(s) && Uses(s, id)
    ensures AllAgree(WriteProjectionsStep(s, id, w, limits))
  {
    var d, t := s.data[id], WriteProjectionsStep(s, id, w, limits);
    if WritesAllowed(d, w) && WrittenAfter(d, w) <= limits.maxProjections {
      ProtocolSerial.WritesKeepDecisions(d, w);
      ProjectionsAgree(s, t, id, WithWrites(d, w));
    } else {
      SameAgrees(s, t);
    }
  }

  lemma WorkAgrees(s: Sys, l: Label, t: Sys, limits: Limits)
    requires AllAgree(s) && WorksOn(l) && Step(s, l, t, limits)
    ensures AllAgree(t)
  {
    match l {
      case ReadEvents(id, f) => ReadStepAgrees(s, id, f, limits);
      case WriteEvents(id, events, time) => WriteStepAgrees(s, id, events, time, limits);
      case GetProjection(id, key) => GetStepAgrees(s, id, key);
      case WriteProjections(id, w) => WriteProjectionsAgrees(s, id, w, limits);
      case ReadFails(id) => RefuseAgrees(s, id, StoreError);
    }
  }

  lemma StepAgrees(s: Sys, l: Label, t: Sys, limits: Limits)
    requires AllAgree(s) && Step(s, l, t, limits)
    ensures AllAgree(t)
  {
    if OfRegistry(l) {
      RegistryAgrees(s, l, t, limits);
    } else if WorksOn(l) {
      WorkAgrees(s, l, t, limits);
    } else if l.RunWork? {
      RunFrame(s, l, t, limits);
      SameAgrees(s, t);
    } else if l.Commit? {
      CommitFrame(s, l.id);
      SameAgrees(s, t);
    } else if !l.Restart? {
      LineFrame(s, l, t, limits);
      SameAgrees(s, t);
    }
  }

  lemma {:induction false} AlwaysAgree(ss: seq<Sys>, ls: seq<Label>, limits: Limits, n: nat)
    requires Run(ss, ls, limits) && n < |ss|
    ensures AllAgree(ss[n])
  {
    if n > 0 {
      AlwaysAgree(ss, ls, limits, n - 1);
      StepAgrees(ss[n - 1], ls[n - 1], ss[n], limits);
    }
  }
}
