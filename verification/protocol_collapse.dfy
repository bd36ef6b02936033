// What a commit leaves of the projections in a run: what the accepted writes
// of its transaction would have left one by one (internal/tx/projections.go).
module ProtocolCollapse {
  import opened Wrappers
  import opened Tables
  import opened StoreSpec
  import opened TxSpec
  import opened Net
  import opened RegistrySpec
  import opened Protocol
  import opened ProtocolShape
  import opened ProtocolFrames
  import opened ProtocolEpochs

  // ---- A transaction's projections are what its calls made of them.

  ghost predicate SameView(a: TxData, b: TxData) {
    a.projections == b.projections && a.touched == b.touched
  }

  ghost predicate MadeBy(d: TxData, calls: seq<ProjectionCall>) {
    Accepted(calls) && SameView(d, RunCalls(calls))
  }

  ghost predicate Remade(s: Sys) {
    forall id :: id in s.data ==> id in s.made && MadeBy(s.data[id], s.made[id])
  }

  lemma {:induction false} SameChanges(a: TxData, b: TxData, changes: seq<Change>)
    requires SameView(a, b)
    ensures SameView(ChangedAll(a, changes), ChangedAll(b, changes))
  {
    if changes != [] {
      SameChanges(a, b, changes[..|changes| - 1]);
    }
  }

  lemma GetMade(d: TxData, calls: seq<ProjectionCall>, key: Key, row: Option<ProjectionRow>)
    requires MadeBy(d, calls)
    ensures MadeBy(WithRead(d, key, row), calls + [Get(key, row)])
  {
    OneCall(calls, Get(key, row));
  }

  lemma WriteMade(d: TxData, calls: seq<ProjectionCall>, w: TxWrites)
    requires MadeBy(d, calls) && WritesAllowed(d, w)
    ensures MadeBy(WithWrites(d, w), calls + [Write(w)])
  {
    var e := RunCalls(calls);
    OneCall(calls, Write(w));
    CallsOpenNothing(calls);
    assert WritesAllowed(e, w);
    SameChanges(d.(written := WrittenAfter(d, w)), e.(written := WrittenAfter(e, w)), Changes(w));
  }

  // ---- Steps.

  lemma SameMade(s: Sys, t: Sys)
    requires Remade(s) && t.made == s.made
    requires forall id :: id in t.data ==> id in s.data && t.data[id] == s.data[id]
    ensures Remade(t)
  {
  }

  lemma OneMade(s: Sys, t: Sys, id: TxId, d: TxData, calls: seq<ProjectionCall>)
    requires Remade(s) && MadeBy(d, calls) && t.data == s.data[id := d] && t.made == s.made[id := calls]
    ensures Remade(t)
  {
  }

  lemma BeginMade(s: Sys, id: TxId, now: int, limits: Limits)
    requires Remade(s)
    ensures Remade(BeginStep(s, id, now, limits))
  {
    var t := BeginStep(s, id, now, limits);
    BeginCases(s, id, now, limits);
    if BeginResultOf(s.reg, limits).Begun? {
      assert MadeBy(NEW_TX, []);
      OneMade(s, t, id, NEW_TX, []);
    } else {
      SameMade(s, t);
    }
  }

  lemma AcquireMade(s: Sys, id: TxId, intent: Intent)
    requires Remade(s)
    ensures Remade(AcquireStep(s, id, intent))
  {
    AcquireCases(s, id, intent);
    SameMade(s, AcquireStep(s, id, intent));
  }

  lemma SectionMade(s: Sys, id: TxId, now: int, todo: Todo)
    requires Remade(s)
    ensures Remade(SectionStep(s, id, now, todo))
  {
    SectionCases(s, id, now, todo);
    SameMade(s, SectionStep(s, id, now, todo));
  }

  lemma ExpireMade(s: Sys, now: int, limits: Limits)
    requires Remade(s)
    ensures Remade(Expire(s, now, limits))
  {
    SameMade(s, Expire(s, now, limits));
  }

  lemma RegistryMade(s: Sys, l: Label, t: Sys, limits: Limits)
    requires Remade(s) && OfRegistry(l) && Step(s, l, t, limits)
    ensures Remade(t)
  {
    var c := Expire(s, l.now, limits);
    ExpireMade(s, l.now, limits);
    match l {
      case Begin(id, now) => BeginMade(c, id, now, limits);
      case Acquire(id, _, intent) => AcquireMade(c, id, intent);
      case Section(id, now) => SectionMade(c, id, now, s.calls[id].todo);
    }
  }

  lemma GetRemade(s: Sys, id: TxId, key: Key)
    requires Remade(s) && Uses(s, id)
    ensures Remade(GetProjectionStep(s, id, key))
  {
    var row := Row(s.store.projections, key);
    GetMade(s.data[id], s.made[id], key, row);
    OneMade(s, GetProjectionStep(s, id, key), id, WithRead(s.data[id], key, row), s.made[id] + [Get(key, row)]);
  }

  lemma EventsMade(s: Sys, t: Sys, id: TxId)
    requires Remade(s) && EventsOnly(s, t, id)
    ensures Remade(t)
  {
    assert s.made == s.made[id := s.made[id]];
    OneMade(s, t, id, t.data[id], s.made[id]);
  }

  lemma WriteRemade(s: Sys, id: TxId, w: TxWrites, limits: Limits)
    requires Remade(s) && Uses(s, id)
    ensures Remade(WriteProjectionsStep(s, id, w, limits))
  {
    var d, t := s.data[id], WriteProjectionsStep(s, id, w, limits);
    if WritesAllowed(d, w) && WrittenAfter(d, w) <= limits.maxProjections {
      WriteMade(d, s.made[id], w);
      OneMade(s, t, id, WithWrites(d, w), s.made[id] + [Write(w)]);
    } else {
      SameMade(s, t);
    }
  }

  lemma WorkMade(s: Sys, l: Label, t: Sys, limits: Limits)
    requires Remade(s) && WorksOn(l) && Step(s, l, t, limits)
    ensures Remade(t)
  {
    match l {
      case ReadEvents(id, f) =>
        ReadEventsOnly(s, id, f, limits);
        EventsMade(s, t, id);
      case WriteEvents(id, events, time) =>
        WriteEventsOnly(s, id, events, time, limits);
        EventsMade(s, t, id);
      case GetProjection(id, key) => GetRemade(s, id, key);
      case WriteProjections(id, w) => WriteRemade(s, id, w, limits);
      case ReadFails(id) =>
        RefuseEventsOnly(s, id, StoreError);
        EventsMade(s, t, id);
    }
  }

  lemma StepMade(s: Sys, l: Label, t: Sys, limits: Limits)
    requires Remade(s) && Step(s, l, t, limits)
    ensures Remade(t)
  {
    if OfRegistry(l) {
      RegistryMade(s, l, t, limits);
    } else if WorksOn(l) {
      WorkMade(s, l, t, limits);
    } else if l.RunWork? {
      RunFrame(s, l, t, limits);
      SameMade(s, t);
    } else if l.Commit? {
      CommitFrame(s, l.id);
      SameMade(s, t);
    } else if !l.Restart? {
      LineFrame(s, l, t, limits);
      SameMade(s, t);
    }
  }

  lemma {:induction false} AlwaysRemade(ss: seq<Sys>, ls: seq<Label>, limits: Limits, n: nat)
    requires Run(ss, ls, limits) && n < |ss|
    ensures Remade(ss[n])
  {
    if n > 0 {
      AlwaysRemade(ss, ls, limits, n - 1);
      StepMade(ss[n - 1], ls[n - 1], ss[n], limits);
    }
  }

  // ---- The theorem.

  // From p to q, the projections changed as these calls change them; only
  // those back to absent are as they were.
  ghost predicate Collapsed(p: map<Key, ProjectionRow>, q: map<Key, ProjectionRow>, d: TxData,
                            calls: seq<ProjectionCall>) {
    forall k :: if BackToAbsent(d, k) then SameAt(ContentOf(q), ContentOf(p), k) && k !in MakeCalls(ContentOf(p), calls)
                else SameAt(ContentOf(q), MakeCalls(ContentOf(p), calls), k)
  }

  // No projection that is back to absent came to exist meanwhile.
  ghost predicate NoneCameBack(p: map<Key, ProjectionRow>, d: TxData) {
    forall k :: BackToAbsent(d, k) ==> k !in p
  }

  lemma CollapsedWhole(p: map<Key, ProjectionRow>, q: map<Key, ProjectionRow>, d: TxData, calls: seq<ProjectionCall>)
    requires Collapsed(p, q, d, calls)
    ensures ContentOf(q) == MakeCalls(ContentOf(p), calls) <==> NoneCameBack(p, d)
  {
    var left, made := ContentOf(q), MakeCalls(ContentOf(p), calls);
    if NoneCameBack(p, d) {
      forall k ensures (k in left <==> k in made) && (k in left ==> left[k] == made[k]) {
        assert SameAt(left, made, k);
      }
      assert left == made;
    } else {
      var k :| BackToAbsent(d, k) && k in p;
      assert k in ContentOf(p);
      assert SameAt(left, ContentOf(p), k) && k !in made;
    }
  }

  lemma WrittenCollapses(d: TxData, calls: seq<ProjectionCall>, v: Versions, p: map<Key, ProjectionRow>)
    requires MadeBy(d, calls) && VersionsFor(NetWrites(d), v)
    ensures Collapsed(p, ApplyAll(Ops(NetWrites(d), v), p), d, calls)
  {
    assert NetWrites(d) == NetWrites(RunCalls(calls));
    forall k
      ensures var q := ApplyAll(Ops(NetWrites(d), v), p);
              if BackToAbsent(d, k) then SameAt(ContentOf(q), ContentOf(p), k) && k !in MakeCalls(ContentOf(p), calls)
              else SameAt(ContentOf(q), MakeCalls(ContentOf(p), calls), k)
    {
      CollapsesAt(calls, v, p, k);
    }
  }

  ghost predicate Collapses(s: Sys, t: Sys, id: TxId) {
    && id in s.data && id in s.made && Accepted(s.made[id])
    && Collapsed(s.store.projections, t.store.projections, s.data[id], s.made[id])
  }

  lemma CommitCollapses(s: Sys, l: Label, t: Sys, limits: Limits)
    requires Shaped(s) && Remade(s) && Commits(s, l) && Step(s, l, t, limits)
    ensures Collapses(s, t, s.jobs[l.ticket].work.id)
  {
    var id := s.jobs[l.ticket].work.id;
    assert JobOk(s, l.ticket);
    assert CallOk(s, id);
    WrittenCollapses(s.data[id], s.made[id], l.versions, s.store.projections);
  }

  // In every run, however calls interleave: a commit that succeeds leaves the
  // projections as its transaction's accepted writes, made one by one on the
  // store at the commit, would have left them, but for those it created and
  // deleted again; and so leaves exactly those contents if and only if none
  // of the latter came to exist meanwhile.
  lemma CommitsCollapse(ss: seq<Sys>, ls: seq<Label>, limits: Limits, n: nat)
    requires Run(ss, ls, limits) && n < |ls| && Commits(ss[n], ls[n])
    ensures var s, t, id := ss[n], ss[n + 1], ss[n].jobs[ls[n].ticket].work.id;
            && Collapses(s, t, id)
            && (ContentOf(t.store.projections) == MakeCalls(ContentOf(s.store.projections), s.made[id]) <==>
                  NoneCameBack(s.store.projections, s.data[id]))
  {
    var s, t, id := ss[n], ss[n + 1], ss[n].jobs[ls[n].ticket].work.id;
    AlwaysShaped(ss, ls, limits, n);
    AlwaysRemade(ss, ls, limits, n);
    CommitCollapses(s, ls[n], t, limits);
    CollapsedWhole(s.store.projections, t.store.projections, s.data[id], s.made[id]);
  }
}
