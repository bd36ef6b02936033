// What the calls of a transaction answer (internal/tx/tx.go,
// internal/tx/projections.go), from what it did before.
module ProtocolAnswers {
  import opened Wrappers
  import opened Dcb
  import opened Tables
  import opened Reads
  import opened TxSpec
  import opened Net
  import opened History
  import opened RegistrySpec
  import opened Protocol
  import opened ProtocolShape
  import opened ProtocolFrames
  import opened ProtocolReads
  import opened ProtocolEnds
  import ProtocolCounts
  import ProtocolEpochs
  import ProtocolCollapse

  // ---- Reads and writes of events.

  function ReadEventsError(seen: seq<Observation>, answer: nat, limits: Limits): Option<CallError> {
    if ReadOpen(seen) then Some(DesignError)
    else if |seen| >= limits.maxReads || answer > limits.maxEventsPerRead then Some(TooLarge)
    else None
  }

  function WriteEventsError(seen: seq<Observation>, n: nat, limits: Limits): Option<CallError> {
    if !ReadOpen(seen) then Some(DesignError)
    else if EventsWritten(seen) + n > limits.maxEvents then Some(TooLarge)
    else None
  }

  lemma ReadAnswered(s: Sys, id: TxId, f: Filter, limits: Limits)
    requires Uses(s, id) && Agrees(s.data[id], s.seen[id])
    ensures Answers(ReadEventsStep(s, id, f, limits), id,
                    ReadEventsError(s.seen[id], |FullRead(f, s.store.log, s.data[id].events)|, limits))
  {
  }

  lemma WriteAnswered(s: Sys, id: TxId, events: seq<EventData>, time: nat, limits: Limits)
    requires Uses(s, id) && Agrees(s.data[id], s.seen[id])
    ensures Answers(WriteEventsStep(s, id, events, time, limits), id, WriteEventsError(s.seen[id], |events|, limits))
  {
  }

  // In every run: a read of events is a design error if and only if the last
  // one still waits for its write, and too large if and only if it is one read
  // too many, or would send one event too many.
  lemma ReadEventsAnswer(ss: seq<Sys>, ls: seq<Label>, limits: Limits, n: nat)
    requires Run(ss, ls, limits) && n < |ls| && ls[n].ReadEvents?
    ensures var s, id := ss[n], ls[n].id;
            && id in s.data && id in s.seen
            && Answers(ss[n + 1], id,
                       ReadEventsError(s.seen[id], |FullRead(ls[n].filter, s.store.log, s.data[id].events)|, limits))
  {
    AlwaysAgree(ss, ls, limits, n);
    assert Step(ss[n], ls[n], ss[n + 1], limits);
    ReadAnswered(ss[n], ls[n].id, ls[n].filter, limits);
  }

  // In every run: a write of events is a design error if and only if no read
  // waits for it, and too large if and only if the transaction would have
  // written one event too many.
  lemma WriteEventsAnswer(ss: seq<Sys>, ls: seq<Label>, limits: Limits, n: nat)
    requires Run(ss, ls, limits) && n < |ls| && ls[n].WriteEvents?
    ensures ls[n].id in ss[n].seen
    ensures Answers(ss[n + 1], ls[n].id, WriteEventsError(ss[n].seen[ls[n].id], |ls[n].events|, limits))
  {
    AlwaysAgree(ss, ls, limits, n);
    assert Step(ss[n], ls[n], ss[n + 1], limits);
    WriteAnswered(ss[n], ls[n].id, ls[n].events, ls[n].time, limits);
  }

  // ---- Writes of projections.

  lemma ViewOf(d: TxData, calls: seq<ProjectionCall>)
    requires ProtocolCollapse.MadeBy(d, calls)
    ensures d.projections.Keys == NamedBy(calls) && Sees(d, View(calls))
    ensures WrittenKeys(d.projections) == WrittenBy(calls)
  {
    CallsSeen(calls);
    CallsWritten(calls);
  }

  lemma AllowedIff(d: TxData, calls: seq<ProjectionCall>, w: TxWrites)
    requires ProtocolCollapse.MadeBy(d, calls)
    ensures WritesAllowed(d, w) <==> d.open.None? && MayWrite(calls, w)
  {
    ViewOf(d, calls);
    KeyListIs(w);
    AllowedByView(d, w, calls);
  }

  lemma WrittenCount(d: TxData, calls: seq<ProjectionCall>, w: TxWrites, limits: Limits)
    requires ProtocolCollapse.MadeBy(d, calls) && ValidTx(d, limits)
    ensures WrittenAfter(d, w) == |WrittenBy(calls) + KeysIn(w)|
  {
    ViewOf(d, calls);
    KeyListIs(w);
    UnionSize(WrittenBy(calls), KeysIn(w));
  }

  function WriteRefused(refused: bool, after: nat, limits: Limits): Option<CallError> {
    if refused then Some(DesignError) else if after > limits.maxProjections then Some(TooLarge) else None
  }

  ghost predicate WriteAnswers(s: Sys, t: Sys, id: TxId, w: TxWrites, error: Option<CallError>)
    requires id in s.made
  {
    Answers(t, id, error) && t.made == if error.None? then s.made[id := s.made[id] + [Write(w)]] else s.made
  }

  lemma WriteStepAnswers(s: Sys, id: TxId, w: TxWrites, limits: Limits)
    requires Uses(s, id)
    ensures var d := s.data[id];
            WriteAnswers(s, WriteProjectionsStep(s, id, w, limits), id, w,
                         WriteRefused(!WritesAllowed(d, w), WrittenAfter(d, w), limits))
  {
  }

  lemma WriteProjectionsAnswered(s: Sys, id: TxId, w: TxWrites, limits: Limits)
    requires Uses(s, id) && Agrees(s.data[id], s.seen[id])
    requires ProtocolCollapse.MadeBy(s.data[id], s.made[id]) && ValidTx(s.data[id], limits)
    ensures WriteAnswers(s, WriteProjectionsStep(s, id, w, limits), id, w,
                         WriteRefused(ReadOpen(s.seen[id]) || !MayWrite(s.made[id], w),
                                      |WrittenBy(s.made[id]) + KeysIn(w)|, limits))
  {
    var d := s.data[id];
    AllowedIff(d, s.made[id], w);
    WrittenCount(d, s.made[id], w, limits);
    WriteStepAnswers(s, id, w, limits);
  }

  // In every run: a write of projections is a design error if and only if a
  // read waits for its write or the write breaks a rule, from the calls alone
  // (MayWrite); and too large if and only if the transaction would then have
  // written too many projections, each counted once.
  lemma WriteProjectionsAnswer(ss: seq<Sys>, ls: seq<Label>, limits: Limits, n: nat)
    requires Run(ss, ls, limits) && n < |ls| && ls[n].WriteProjections?
    ensures var s, id, w := ss[n], ls[n].id, ls[n].w;
            && id in s.seen && id in s.made
            && WriteAnswers(s, ss[n + 1], id, w,
                            WriteRefused(ReadOpen(s.seen[id]) || !MayWrite(s.made[id], w),
                                         |WrittenBy(s.made[id]) + KeysIn(w)|, limits))
  {
    AlwaysAgree(ss, ls, limits, n);
    ProtocolCollapse.AlwaysRemade(ss, ls, limits, n);
    ProtocolCounts.AlwaysAccounted(ss, ls, limits, n);
    assert Step(ss[n], ls[n], ss[n + 1], limits);
    WriteProjectionsAnswered(ss[n], ls[n].id, ls[n].w, limits);
  }

  // ---- Reads of projections.

  // What the store holds of k.
  function StoreAt(s: Sys, k: Key): Option<string> {
    At(Net.ContentOf(s.store.projections), k)
  }

  // What the call answers, from where the class reads it.
  function AnswerAt(s: Sys, id: TxId, key: Key): Option<string>
    requires id in s.data && key in s.data[id].projections
  {
    if s.data[id].projections[key].found then Some(s.data[id].projections[key].payload) else None
  }

  lemma GetAnswered(s: Sys, id: TxId, key: Key)
    requires Uses(s, id) && ProtocolCollapse.MadeBy(s.data[id], s.made[id])
    ensures var t := GetProjectionStep(s, id, key);
            && Answers(t, id, None) && id in t.data && key in t.data[id].projections
            && t.made == s.made[id := s.made[id] + [Get(key, Row(s.store.projections, key))]]
            && AnswerAt(t, id, key) ==
                 if key in NamedBy(s.made[id]) then At(View(s.made[id]), key) else StoreAt(s, key)
  {
    ViewOf(s.data[id], s.made[id]);
  }

  // In every run: the first read of a projection answers what the store holds
  // then, and a later one what the transaction sees.
  lemma GetProjectionAnswer(ss: seq<Sys>, ls: seq<Label>, limits: Limits, n: nat)
    requires Run(ss, ls, limits) && n < |ls| && ls[n].GetProjection?
    ensures var s, t, id, key := ss[n], ss[n + 1], ls[n].id, ls[n].key;
            && Answers(t, id, None) && id in s.made && id in t.data && key in t.data[id].projections
            && AnswerAt(t, id, key) ==
                 if key in NamedBy(s.made[id]) then At(View(s.made[id]), key) else StoreAt(s, key)
  {
    ProtocolCollapse.AlwaysRemade(ss, ls, limits, n);
    assert Step(ss[n], ls[n], ss[n + 1], limits);
    GetAnswered(ss[n], ls[n].id, ls[n].key);
  }

  // ---- Where what a transaction sees comes from.

  // The step gives id this value of key: the store's at its first read, or
  // what a write of its own leaves.
  ghost predicate Gives(s: Sys, l: Label, id: TxId, key: Key, v: Option<string>)
    requires id in s.made
  {
    || (l == GetProjection(id, key) && key !in NamedBy(s.made[id]) && v == StoreAt(s, key))
    || (l.WriteProjections? && l.id == id && key in KeysIn(l.w) && Leaves(l.w, key, v))
  }

  ghost predicate NotWrittenFrom(calls: seq<ProjectionCall>, i: nat, key: Key) {
    forall j :: i <= j < |calls| && calls[j].Write? ==> key !in KeysIn(calls[j].w)
  }

  // What the transaction did on projections since s: nothing, one read, or
  // one accepted write.
  ghost predicate MadeOne(s: Sys, l: Label, id: TxId, more: seq<ProjectionCall>) {
    || more == []
    || (exists key :: l == GetProjection(id, key) && more == [Get(key, Row(s.store.projections, key))])
    || (l.WriteProjections? && l.id == id && more == [Write(l.w)])
  }

  // The step m of the run gave it, as a call that was accepted, and no later
  // write of the transaction is of key.
  ghost predicate GivenAt(ss: seq<Sys>, ls: seq<Label>, m: nat, id: TxId, key: Key, calls: seq<ProjectionCall>)
    requires m < |ls| < |ss|
  {
    && id in ss[m].made && |ss[m].made[id]| < |calls| && ss[m].made[id] <= calls
    && MadeOne(ss[m], ls[m], id, [calls[|ss[m].made[id]|]])
    && Gives(ss[m], ls[m], id, key, At(View(calls), key)) && NotWrittenFrom(calls, |ss[m].made[id]| + 1, key)
  }

  lemma BeginMakes(c: Sys, other: TxId, now: int, limits: Limits, id: TxId)
    ensures var t := BeginStep(c, other, now, limits);
            id in t.data && id in t.made ==>
              (other == id && t.made[id] == []) || (id in c.data && id in c.made && t.made[id] == c.made[id])
  {
    BeginCases(c, other, now, limits);
  }

  lemma SectionMakes(c: Sys, other: TxId, now: int, todo: Todo, id: TxId)
    ensures var t := SectionStep(c, other, now, todo);
            id in t.data && id in t.made ==> id in c.data && id in c.made && t.made[id] == c.made[id]
  {
    SectionCases(c, other, now, todo);
  }

  lemma RegistryMakes(s: Sys, l: Label, t: Sys, limits: Limits, id: TxId)
    requires OfRegistry(l) && Step(s, l, t, limits) && id in t.data && id in t.made
    ensures (l.Begin? && l.id == id && t.made[id] == []) || (id in s.data && id in s.made && t.made[id] == s.made[id])
  {
    var c := Expire(s, l.now, limits);
    match l {
      case Begin(other, now) => BeginMakes(c, other, now, limits, id);
      case Acquire(other, _, intent) => AcquireCases(c, other, intent);
      case Section(other, now) => SectionMakes(c, other, now, s.calls[other].todo, id);
    }
  }

  lemma EventsMake(s: Sys, l: Label, t: Sys, limits: Limits)
    requires (l.ReadEvents? || l.WriteEvents? || l.ReadFails?) && Step(s, l, t, limits)
    ensures t.made == s.made && t.data.Keys == s.data.Keys
  {
    match l {
      case ReadEvents(id, f) => ProtocolEpochs.ReadEventsOnly(s, id, f, limits);
      case WriteEvents(id, events, time) => ProtocolEpochs.WriteEventsOnly(s, id, events, time, limits);
      case ReadFails(_) =>
    }
  }

  lemma GetMakes(s: Sys, other: TxId, key: Key, id: TxId) returns (more: seq<ProjectionCall>)
    requires Uses(s, other) && id in s.made
    ensures var t := GetProjectionStep(s, other, key);
            id in t.made && t.made[id] == s.made[id] + more && MadeOne(s, GetProjection(other, key), id, more)
  {
    more := if other == id then [Get(key, Row(s.store.projections, key))] else [];
  }

  lemma WriteMakesOne(s: Sys, other: TxId, w: TxWrites, limits: Limits, id: TxId) returns (more: seq<ProjectionCall>)
    requires Uses(s, other) && id in s.made
    ensures var t := WriteProjectionsStep(s, other, w, limits);
            id in t.made && t.made[id] == s.made[id] + more && MadeOne(s, WriteProjections(other, w), id, more)
  {
    WriteStepAnswers(s, other, w, limits);
    more := if WriteProjectionsStep(s, other, w, limits).made != s.made && other == id then [Write(w)] else [];
  }

  lemma WorkMakes(s: Sys, l: Label, t: Sys, limits: Limits, id: TxId) returns (more: seq<ProjectionCall>)
    requires WorksOn(l) && Step(s, l, t, limits) && id in t.data && id in t.made
    ensures id in s.data && id in s.made && t.made[id] == s.made[id] + more && MadeOne(s, l, id, more)
  {
    more := [];
    WorkMovesOn(s, l, t, limits);
    if l.GetProjection? {
      more := GetMakes(s, l.id, l.key, id);
    } else if l.WriteProjections? {
      more := WriteMakesOne(s, l.id, l.w, limits, id);
    } else {
      EventsMake(s, l, t, limits);
    }
  }

  lemma StepMakes(s: Sys, l: Label, t: Sys, limits: Limits, id: TxId) returns (more: seq<ProjectionCall>)
    requires Step(s, l, t, limits) && id in t.data && id in t.made
    ensures (l.Begin? && l.id == id && t.made[id] == [])
            || (id in s.data && id in s.made && t.made[id] == s.made[id] + more && MadeOne(s, l, id, more))
  {
    more := [];
    if OfRegistry(l) {
      RegistryMakes(s, l, t, limits, id);
    } else if WorksOn(l) {
      more := WorkMakes(s, l, t, limits, id);
    } else if l.RunWork? {
      RunFrame(s, l, t, limits);
    } else if l.Commit? {
      CommitFrame(s, l.id);
    } else if !l.Restart? {
      LineFrame(s, l, t, limits);
    }
  }

  // One read or write more: it gives key its value, or leaves what the
  // transaction saw of it.
  lemma OneGives(s: Sys, l: Label, id: TxId, key: Key, more: seq<ProjectionCall>) returns (given: bool)
    requires id in s.made && MadeOne(s, l, id, more) && more != []
    requires Accepted(s.made[id]) && Accepted(s.made[id] + more) && key in NamedBy(s.made[id] + more)
    ensures given ==> Gives(s, l, id, key, At(View(s.made[id] + more), key))
    ensures !given ==> key in NamedBy(s.made[id]) && At(View(s.made[id] + more), key) == At(View(s.made[id]), key)
    ensures !given ==> more[0].Write? ==> key !in KeysIn(more[0].w)
  {
    var calls := s.made[id];
    OneCall(calls, more[0]);
    assert (calls + more)[..|calls|] == calls;
    CallsSeen(calls);
    match more[0] {
      case Get(read, row) => given := read == key && key !in NamedBy(calls);
      case Write(w) =>
        given := key in KeysIn(w);
        AcceptedIff(calls, w);
        WriteMakes(View(calls), w, key);
    }
  }

  lemma GivenNow(ss: seq<Sys>, ls: seq<Label>, m: nat, id: TxId, key: Key, c: ProjectionCall)
    requires m < |ls| < |ss| && id in ss[m].made && Gives(ss[m], ls[m], id, key, At(View(ss[m].made[id] + [c]), key))
    requires MadeOne(ss[m], ls[m], id, [c])
    ensures GivenAt(ss, ls, m, id, key, ss[m].made[id] + [c])
  {
  }

  lemma NotWrittenLonger(calls: seq<ProjectionCall>, more: seq<ProjectionCall>, i: nat, key: Key)
    requires NotWrittenFrom(calls, i, key) && |more| <= 1
    requires more != [] && more[0].Write? ==> key !in KeysIn(more[0].w)
    ensures NotWrittenFrom(calls + more, i, key)
  {
  }

  // What is left of a value after one step that doesn't give it.
  ghost predicate LeavesValue(calls: seq<ProjectionCall>, more: seq<ProjectionCall>, key: Key) {
    && |more| <= 1 && key in NamedBy(calls) && At(View(calls + more), key) == At(View(calls), key)
    && (more != [] && more[0].Write? ==> key !in KeysIn(more[0].w))
  }

  lemma GivenBefore(ss: seq<Sys>, ls: seq<Label>, m: nat, id: TxId, key: Key, calls: seq<ProjectionCall>,
                    more: seq<ProjectionCall>)
    requires m < |ls| < |ss| && GivenAt(ss, ls, m, id, key, calls) && LeavesValue(calls, more, key)
    ensures GivenAt(ss, ls, m, id, key, calls + more)
  {
    var i := |ss[m].made[id]|;
    assert (calls + more)[i] == calls[i];
    NotWrittenLonger(calls, more, i + 1, key);
  }

  lemma SeenStep(ss: seq<Sys>, ls: seq<Label>, limits: Limits, k: nat, id: TxId, key: Key)
    returns (given: bool, more: seq<ProjectionCall>)
    requires Run(ss, ls, limits) && k < |ls| && id in ss[k + 1].data && id in ss[k + 1].made
    requires key in NamedBy(ss[k + 1].made[id])
    ensures given ==> GivenAt(ss, ls, k, id, key, ss[k + 1].made[id])
    ensures !given ==>
              && id in ss[k].data && id in ss[k].made && ss[k + 1].made[id] == ss[k].made[id] + more
              && LeavesValue(ss[k].made[id], more, key)
  {
    ProtocolCollapse.AlwaysRemade(ss, ls, limits, k);
    ProtocolCollapse.AlwaysRemade(ss, ls, limits, k + 1);
    more := StepMakes(ss[k], ls[k], ss[k + 1], limits, id);
    given := false;
    if more == [] {
      assert ss[k].made[id] + [] == ss[k].made[id];
    } else {
      given := OneGives(ss[k], ls[k], id, key, more);
      assert more == [more[0]];
      if given {
        GivenNow(ss, ls, k, id, key, more[0]);
      }
    }
  }

  lemma NothingAtFirst(ss: seq<Sys>, ls: seq<Label>, limits: Limits, id: TxId)
    requires Run(ss, ls, limits)
    ensures id !in ss[0].data
  {
  }

  // In every run, of each projection a transaction read or created, what it
  // sees is what some step gave: the first read, from the store, if the
  // transaction never wrote it since; or its own last write of it.
  lemma {:induction false} SeenFrom(ss: seq<Sys>, ls: seq<Label>, limits: Limits, n: nat, id: TxId, key: Key)
    returns (m: nat)
    requires Run(ss, ls, limits) && n < |ss| && id in ss[n].data && id in ss[n].made && key in NamedBy(ss[n].made[id])
    ensures m < n && GivenAt(ss, ls, m, id, key, ss[n].made[id])
    decreases n
  {
    NothingAtFirst(ss, ls, limits, id);
    var given, more := SeenStep(ss, ls, limits, n - 1, id, key);
    if given {
      m := n - 1;
    } else {
      m := SeenFrom(ss, ls, limits, n - 1, id, key);
      GivenBefore(ss, ls, m, id, key, ss[n - 1].made[id], more);
    }
  }
}
