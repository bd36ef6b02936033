// A commit with nothing to write checks nothing: a whole run that ends with
// one about to commit on a read that is no longer true.
module ProtocolStale {
  import opened Wrappers
  import opened Dcb
  import opened StoreSpec
  import opened Reads
  import opened TxSpec
  import opened Net
  import opened RegistrySpec
  import opened Protocol
  import opened ProtocolSerial
  import Line

  const A: TxId := "a"
  const B: TxId := "b"

  // Two transactions open at once, each making one read and one write.
  predicate Roomy(limits: Limits) {
    && limits.idleTimeout > 0 && (limits.maxOpen > 0 ==> limits.maxOpen > 1)
    && limits.maxReads > 0 && limits.maxEvents > 0
  }

  function NewStore(): StoreState { StoreState([], map[], None, 1) }

  function NewLine(): Line.Requests { Line.Requests(Line.Line(0, 0, false, 0), map[], []) }

  const EVERYTHING := Filter(All, false, 0)

  // ---- States in which A and B are open, and were used at time 0.

  function Idle(busy: set<TxId>): map<TxId, TxState> {
    map[A := TxState(A in busy, 0), B := TxState(B in busy, 0)]
  }

  function Open(busy: set<TxId>): RegState {
    RegState(Idle(busy), NO_STATS.(begun := 2), Running)
  }

  function Both(calls: map<TxId, Call>, data: map<TxId, TxData>, seen: map<TxId, seq<Observation>>): Sys {
    Sys(NewStore(), Open(calls.Keys), data, calls, NewLine(), map[], false,
        {A, B}, map[], seen, {}, map[], map[A := map[], B := map[]], map[A := [], B := []])
  }

  lemma NoneIdle(s: Sys, limits: Limits)
    requires Roomy(limits) && forall id :: id in s.reg.txs ==> s.reg.txs[id].lastUsed == 0
    ensures Expire(s, 0, limits) == s
  {
    assert IdleIds(s.reg, 0, limits) == {};
    assert s.reg.txs - {} == s.reg.txs && s.data - {} == s.data;
    assert s.counted + (map id | id in IdleIds(s.reg, 0, limits) :: Expired) == s.counted;
  }

  // ---- One step more.

  // Some run ends in this state.
  ghost predicate Reachable(s: Sys, limits: Limits) {
    exists ss, ls :: Run(ss, ls, limits) && s == ss[|ls|]
  }

  lemma LongerRun(ss: seq<Sys>, ls: seq<Label>, l: Label, t: Sys, limits: Limits)
    requires Run(ss, ls, limits) && Step(ss[|ls|], l, t, limits)
    ensures Run(ss + [t], ls + [l], limits)
  {
    var ss', ls' := ss + [t], ls + [l];
    forall i {:trigger ls'[i]} | 0 <= i < |ls'| ensures Step(ss'[i], ls'[i], ss'[i + 1], limits) {
      if i < |ls| {
        assert ls'[i] == ls[i];
      }
    }
  }

  lemma OneMore(s: Sys, l: Label, t: Sys, limits: Limits)
    requires Reachable(s, limits) && Step(s, l, t, limits)
    ensures Reachable(t, limits)
  {
    var ss, ls :| Run(ss, ls, limits) && s == ss[|ls|];
    LongerRun(ss, ls, l, t, limits);
    assert t == (ss + [t])[|ls + [l]|];
  }

  lemma Onward(s: Sys, l: Label, t: Sys, limits: Limits)
    requires Reachable(s, limits)
    ensures Step(s, l, t, limits) ==> Reachable(t, limits)
  {
    if Step(s, l, t, limits) {
      OneMore(s, l, t, limits);
    }
  }

  lemma IdleTaken(busy: set<TxId>, id: TxId)
    requires id in {A, B} && id !in busy
    ensures AcquireResultOf(Open(busy), id).Acquired? && Taken(Open(busy), id) == Open(busy + {id})
  {
    assert Idle(busy)[id := TxState(true, 0)] == Idle(busy + {id});
  }

  lemma IdleFreed(busy: set<TxId>, id: TxId)
    requires id in {A, B} && id !in busy
    ensures Freed(Open(busy + {id}), id, 0) == Open(busy)
  {
    assert Idle(busy + {id})[id := TxState(false, 0)] == Idle(busy);
  }

  lemma CallKeys(calls: map<TxId, Call>, id: TxId, call: Call)
    requires id !in calls
    ensures calls[id := call].Keys == calls.Keys + {id} && calls[id := call] - {id} == calls
    ensures calls[id := Working][id := call] == calls[id := call]
  {
  }

  lemma Acquires(id: TxId, calls: map<TxId, Call>, data: map<TxId, TxData>, seen: map<TxId, seq<Observation>>,
                 limits: Limits)
    requires Roomy(limits) && id in {A, B} && id !in calls && Reachable(Both(calls, data, seen), limits)
    ensures Reachable(Both(calls[id := Working], data, seen), limits)
  {
    var s, t := Both(calls, data, seen), Both(calls[id := Working], data, seen);
    NoneIdle(s, limits);
    IdleTaken(calls.Keys, id);
    CallKeys(calls, id, Working);
    assert t == AcquireStep(s, id, Use);
    Onward(s, Acquire(id, 0, Use), t, limits);
  }

  lemma ReleasesFrom(s: Sys, t: Sys, id: TxId, limits: Limits)
    requires Reachable(s, limits) && Expire(s, 0, limits) == s && id in s.calls && s.calls[id] == Tail(Release)
    requires t == SectionStep(s, id, 0, Release)
    ensures Reachable(t, limits)
  {
    Onward(s, Section(id, 0), t, limits);
  }

  lemma Releases(id: TxId, calls: map<TxId, Call>, data: map<TxId, TxData>, seen: map<TxId, seq<Observation>>,
                 limits: Limits)
    requires Roomy(limits) && id in {A, B} && id !in calls
    requires Reachable(Both(calls[id := Tail(Release)], data, seen), limits)
    ensures Reachable(Both(calls, data, seen), limits)
  {
    var s, t := Both(calls[id := Tail(Release)], data, seen), Both(calls, data, seen);
    NoneIdle(s, limits);
    IdleFreed(calls.Keys, id);
    CallKeys(calls, id, Tail(Release));
    assert t == SectionStep(s, id, 0, Release);
    ReleasesFrom(s, t, id, limits);
  }

  // ---- A transaction reads everything, then writes, and starts a next call.

  const READING := NEW_TX.(open := Some(OpenCondition(All, 0)))

  function Looked(written: Option<seq<PendingEvent>>): Observation {
    Observation(EVERYTHING, 0, [], 0, 0, written)
  }

  lemma NothingToSee(limits: Limits)
    requires Roomy(limits)
    ensures ReadRefusal(NEW_TX, EVERYTHING, [], limits) == None && WithEventsRead(NEW_TX, EVERYTHING, []) == READING
    ensures SnapshotPosition(All, []) == 0 && FullRead(EVERYTHING, [], []) == []
  {
  }

  lemma SeesNothing(s: Sys, id: TxId, limits: Limits)
    requires Roomy(limits) && s.store.log == []
    requires id in s.data && s.data[id] == NEW_TX && id in s.seen && s.seen[id] == []
    ensures ReadEventsStep(s, id, EVERYTHING, limits) ==
            s.(calls := s.calls[id := Tail(Release)], data := s.data[id := READING],
               seen := s.seen[id := [Looked(None)]])
  {
    NothingToSee(limits);
    assert [] + [Looked(None)] == [Looked(None)];
    var o := Observation(EVERYTHING, SnapshotPosition(All, []), FullRead(EVERYTHING, [], []), 0, 0, None);
    assert o == Looked(None);
    assert ReadEventsStep(s, id, EVERYTHING, limits) ==
           Succeed(s, id, WithEventsRead(NEW_TX, EVERYTHING, [])).(seen := s.seen[id := [] + [o]]);
  }

  lemma ReadsFrom(s: Sys, id: TxId, t: Sys, limits: Limits)
    requires Roomy(limits) && Reachable(s, limits) && Uses(s, id)
    requires t == ReadEventsStep(s, id, EVERYTHING, limits)
    ensures Reachable(t, limits)
  {
    Onward(s, ReadEvents(id, EVERYTHING), t, limits);
  }

  lemma ReadsAll(id: TxId, calls: map<TxId, Call>, data: map<TxId, TxData>, seen: map<TxId, seq<Observation>>,
                 limits: Limits)
    requires Roomy(limits) && id in {A, B} && id !in calls
    requires id in data && data[id] == NEW_TX && id in seen && seen[id] == []
    requires Reachable(Both(calls[id := Working], data, seen), limits)
    ensures Reachable(Both(calls[id := Tail(Release)], data[id := READING], seen[id := [Looked(None)]]), limits)
  {
    var s := Both(calls[id := Working], data, seen);
    var t := Both(calls[id := Tail(Release)], data[id := READING], seen[id := [Looked(None)]]);
    CallKeys(calls, id, Working);
    CallKeys(calls, id, Tail(Release));
    SeesNothing(s, id, limits);
    ReadsFrom(s, id, t, limits);
  }

  lemma ReadsOnce(id: TxId, calls: map<TxId, Call>, data: map<TxId, TxData>, seen: map<TxId, seq<Observation>>,
                 limits: Limits)
    requires Roomy(limits) && id in {A, B} && id !in calls
    requires id in data && data[id] == NEW_TX && id in seen && seen[id] == []
    requires Reachable(Both(calls, data, seen), limits)
    ensures Reachable(Both(calls, data[id := READING], seen[id := [Looked(None)]]), limits)
  {
    Acquires(id, calls, data, seen, limits);
    ReadsAll(id, calls, data, seen, limits);
    Releases(id, calls, data[id := READING], seen[id := [Looked(None)]], limits);
  }

  function Wrote(events: seq<EventData>, time: nat): TxData {
    NEW_TX.(events := PendingAt(events, time), conditions := [AppendCondition(All, 0)])
  }

  lemma ClosesRead(events: seq<EventData>, time: nat)
    ensures WithEventsWritten(READING, events, time) == Wrote(events, time)
  {
    assert [] + PendingAt(events, time) == PendingAt(events, time);
    assert [] + [AppendCondition(All, 0)] == [AppendCondition(All, 0)];
  }

  lemma WritesEvents(id: TxId, calls: map<TxId, Call>, data: map<TxId, TxData>, seen: map<TxId, seq<Observation>>,
                     events: seq<EventData>, time: nat, limits: Limits)
    requires Roomy(limits) && id in {A, B} && id !in calls && |events| <= 1
    requires id in data && data[id] == READING && id in seen && seen[id] == [Looked(None)]
    requires Reachable(Both(calls[id := Working], data, seen), limits)
    ensures Reachable(Both(calls[id := Tail(Release)], data[id := Wrote(events, time)],
                           seen[id := [Looked(Some(PendingAt(events, time)))]]), limits)
  {
    var s, closed := Both(calls[id := Working], data, seen), Looked(Some(PendingAt(events, time)));
    var t := Both(calls[id := Tail(Release)], data[id := Wrote(events, time)], seen[id := [closed]]);
    assert [Looked(None)][0 := closed] == [closed];
    ClosesRead(events, time);
    CallKeys(calls, id, Working);
    CallKeys(calls, id, Tail(Release));
    assert t == WriteEventsStep(s, id, events, time, limits);
    Onward(s, WriteEvents(id, events, time), t, limits);
  }

  lemma ReadsAndWrites(id: TxId, calls: map<TxId, Call>, data: map<TxId, TxData>, seen: map<TxId, seq<Observation>>,
                       events: seq<EventData>, time: nat, limits: Limits)
    requires Roomy(limits) && id in {A, B} && id !in calls && |events| <= 1
    requires id in data && data[id] == NEW_TX && id in seen && seen[id] == []
    requires Reachable(Both(calls, data, seen), limits)
    ensures Reachable(Both(calls[id := Working], data[id := Wrote(events, time)],
                           seen[id := [Looked(Some(PendingAt(events, time)))]]), limits)
  {
    var data1, seen1 := data[id := READING], seen[id := [Looked(None)]];
    var data2, seen2 := data[id := Wrote(events, time)], seen[id := [Looked(Some(PendingAt(events, time)))]];
    assert data1[id := Wrote(events, time)] == data2 && seen1[id := seen2[id]] == seen2;
    ReadsOnce(id, calls, data, seen, limits);
    Acquires(id, calls, data1, seen1, limits);
    WritesEvents(id, calls, data1, seen1, events, time, limits);
    Releases(id, calls, data2, seen2, limits);
    Acquires(id, calls, data2, seen2, limits);
  }

  // ---- The start: A and B begin.

  function Empty(): Sys {
    Sys(NewStore(), RegState(map[], NO_STATS, Running), map[], map[], NewLine(), map[], false,
        {}, map[], map[], {}, map[], map[], map[])
  }

  function OnlyA(): Sys {
    Sys(NewStore(), RegState(map[A := TxState(false, 0)], NO_STATS.(begun := 1), Running), map[A := NEW_TX], map[],
        NewLine(), map[], false, {A}, map[], map[A := []], {}, map[], map[A := map[]], map[A := []])
  }

  lemma StartsEmpty(limits: Limits)
    ensures Reachable(Empty(), limits)
  {
    assert Run([Empty()], [], limits);
  }

  lemma BeginsA(limits: Limits)
    requires Roomy(limits)
    ensures Reachable(OnlyA(), limits)
  {
    StartsEmpty(limits);
    NoneIdle(Empty(), limits);
    Onward(Empty(), Begin(A, 0), BeginStep(Empty(), A, 0, limits), limits);
  }

  lemma BothOpen(limits: Limits)
    requires Roomy(limits)
    ensures BeginStep(OnlyA(), B, 0, limits) == Both(map[], map[A := NEW_TX, B := NEW_TX], map[A := [], B := []])
  {
    var txs := OnlyA().reg.txs;
    assert |txs| == |txs.Keys| && txs.Keys == {A};
  }

  lemma BeginsB(limits: Limits)
    requires Roomy(limits)
    ensures Reachable(Both(map[], map[A := NEW_TX, B := NEW_TX], map[A := [], B := []]), limits)
  {
    var s := OnlyA();
    BeginsA(limits);
    NoneIdle(s, limits);
    BothOpen(limits);
    Onward(s, Begin(B, 0), BeginStep(s, B, 0, limits), limits);
  }

  // ---- The turn of B's commit.

  // B's commit in the line and in its turn.
  function InTurn(store: StoreState, requests: Line.Requests, job: Job, data: map<TxId, TxData>,
                  seen: map<TxId, seq<Observation>>): Sys {
    Sys(store, Open({A, B}), data, map[A := Working, B := InLine(0)], requests,
        map[0 := job], false, {A, B}, map[], seen, {}, map[], map[A := map[], B := map[]], map[A := [], B := []])
  }

  function Waiting(): Line.Requests { Line.Requests(Line.Line(1, 0, false, 0), map[0 := Line.Queued], []) }

  function Served(): Line.Requests { Line.Requests(Line.Line(1, 0, false, 0), map[0 := Line.HoldsTurn], [0]) }

  function Holding(e: PendingEvent): StoreState {
    StoreState([Event(1, e.time, e.data)], map[], None, 2)
  }

  lemma Joins(data: map<TxId, TxData>, seen: map<TxId, seq<Observation>>, limits: Limits)
    requires B in data && B in seen && data[B].open.None? && data[B].events != []
    requires Reachable(Both(map[A := Working, B := Working], data, seen), limits)
    ensures Reachable(InTurn(NewStore(), Waiting(), Job(CommitWork(B, data[B]), Unchecked), data, seen), limits)
  {
    var calls: map<TxId, Call> := map[A := Working, B := Working];
    assert calls.Keys == {A, B} && calls[B := InLine(0)] == map[A := Working, B := InLine(0)];
    var s := Both(calls, data, seen);
    Onward(s, Commit(B), CommitStep(s, B), limits);
  }

  lemma Wakes(work: Work, data: map<TxId, TxData>, seen: map<TxId, seq<Observation>>, limits: Limits)
    requires Reachable(InTurn(NewStore(), Waiting(), Job(work, Unchecked), data, seen), limits)
    ensures Reachable(InTurn(NewStore(), Served(), Job(work, Unchecked), data, seen), limits)
  {
    var s := InTurn(NewStore(), Waiting(), Job(work, Unchecked), data, seen);
    OneMore(s, Wake(0), WakeStep(s, 0), limits);
  }

  lemma Clears(work: Work, data: map<TxId, TxData>, seen: map<TxId, seq<Observation>>, limits: Limits)
    requires Reachable(InTurn(NewStore(), Served(), Job(work, Unchecked), data, seen), limits)
    ensures Reachable(InTurn(NewStore(), Served(), Job(work, Cleared), data, seen), limits)
  {
    var s := InTurn(NewStore(), Served(), Job(work, Unchecked), data, seen);
    assert s.jobs[0 := Job(work, Cleared)] == map[0 := Job(work, Cleared)];
    OneMore(s, CheckClosed(0), CheckClosedStep(s, 0), limits);
  }

  lemma EventWritten(e: PendingEvent)
    requires e.time > 0
    ensures var d, v := Wrote([e.data], e.time), Versions([], []);
            AppendStep(NewStore(), d.events, d.conditions, NetWrites(d), v, Holding(e), Appended(Holding(e).log, v))
  {
    var d := Wrote([e.data], e.time);
    assert d.events == [e];
    assert Holding(e).log == Stamped(d.events, 1);
    assert [] + Holding(e).log == Holding(e).log;
    assert WritesLen(NetWrites(d)) == 0;
  }

  lemma NothingElseWritten(s: Sys, d: TxData)
    requires d.touched == [] && s.epochs == map[]
    ensures WritesLen(NetWrites(d)) == 0
    ensures VersionSet(Versions([], [])) == {} && Bumped(s, {}) == map[]
  {
  }

  lemma TurnEnds(s: Sys, t: Sys, work: Work, v: Versions, outcome: AppendOutcome, limits: Limits)
    requires Reachable(s, limits) && s.jobs == map[0 := Job(work, Cleared)] && outcome.Appended?
    requires t.jobs == map[0 := Job(work, Over(COMMITTED))]
    requires Worked(s, work, RunWork(0, 0, v, outcome), t.(jobs := s.jobs), limits)
    ensures Reachable(t, limits)
  {
    assert t.jobs == s.jobs[0 := Job(work, Over(COMMITTED))];
    OneMore(s, RunWork(0, 0, v, outcome), t, limits);
  }

  lemma TurnWrites(e: PendingEvent, data: map<TxId, TxData>, seen: map<TxId, seq<Observation>>, limits: Limits)
    requires B in data && data[B] == Wrote([e.data], e.time) && e.time > 0
    requires Reachable(InTurn(NewStore(), Served(), Job(CommitWork(B, data[B]), Cleared), data, seen), limits)
    ensures Reachable(InTurn(Holding(e), Served(), Job(CommitWork(B, data[B]), Over(COMMITTED)), data, seen), limits)
  {
    var work, v := CommitWork(B, data[B]), Versions([], []);
    var s := InTurn(NewStore(), Served(), Job(work, Cleared), data, seen);
    var t := InTurn(Holding(e), Served(), Job(work, Over(COMMITTED)), data, seen);
    EventWritten(e);
    NothingElseWritten(s, data[B]);
    assert AppendWork(s, data[B].events, data[B].conditions, NetWrites(data[B]), v, Appended(Holding(e).log, v),
                      t.(jobs := s.jobs));
    TurnEnds(s, t, work, v, Appended(Holding(e).log, v), limits);
  }

  lemma CommitsB(e: PendingEvent, data: map<TxId, TxData>, seen: map<TxId, seq<Observation>>, limits: Limits)
    requires B in data && B in seen && data[B] == Wrote([e.data], e.time) && e.time > 0
    requires Reachable(Both(map[A := Working, B := Working], data, seen), limits)
    ensures Reachable(InTurn(Holding(e), Served(), Job(CommitWork(B, data[B]), Over(COMMITTED)), data, seen), limits)
  {
    assert |data[B].events| == 1;
    Joins(data, seen, limits);
    Wakes(CommitWork(B, data[B]), data, seen, limits);
    Clears(CommitWork(B, data[B]), data, seen, limits);
    TurnWrites(e, data, seen, limits);
  }

  lemma ReadAgain(e: PendingEvent)
    ensures FactsOf([]) == [] && Answer(EVERYTHING, Facts(Holding(e).log)) == [e]
  {
    assert Facts(Holding(e).log) == [e];
    assert [e][1..] == [] && Matching(All, [e]) == [e];
    assert FactsOf([]) == [];
  }

  // For any event and limits with room for two transactions: a state some run
  // ends in, in which A read everything on an empty log and closed its read
  // with an empty write, and B then appended the event. A's commit is over at
  // once, though the read would no longer send what it sent.
  lemma StaleCommit(e: PendingEvent, limits: Limits) returns (s: Sys, o: Observation)
    requires e.time > 0 && Roomy(limits)
    ensures Reachable(s, limits) && Uses(s, A) && o in s.seen[A] && o.before == 0
    ensures OverAtOnce(s, A) && B in s.data && s.jobs == map[0 := Job(CommitWork(B, s.data[B]), Over(COMMITTED))]
    ensures FactsOf(o.sent) == [] && Answer(o.filter, Facts(s.store.log)) == [e]
  {
    var new1: map<TxId, TxData> := map[A := NEW_TX, B := NEW_TX];
    var new2: map<TxId, seq<Observation>> := map[A := [], B := []];
    var a, b := Wrote([], 0), Wrote([e.data], e.time);
    var ofA, ofB := Looked(Some(PendingAt([], 0))), Looked(Some(PendingAt([e.data], e.time)));
    BeginsB(limits);
    ReadsAndWrites(A, map[], new1, new2, [], 0, limits);
    ReadsAndWrites(B, map[][A := Working], new1[A := a], new2[A := [ofA]], [e.data], e.time, limits);
    var data, seen := new1[A := a][B := b], new2[A := [ofA]][B := [ofB]];
    assert map[][A := Working][B := Working] == map[A := Working, B := Working];
    CommitsB(e, data, seen, limits);
    s, o := InTurn(Holding(e), Served(), Job(CommitWork(B, b), Over(COMMITTED)), data, seen), ofA;
    assert seen[A] == [ofA];
    ReadAgain(e);
  }
}
