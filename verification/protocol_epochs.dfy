// No ABA on projections (internal/store/projection.go,
// internal/tx/projections.go): versions are never given twice, so a version
// still there means a projection nobody wrote or deleted since.
module ProtocolEpochs {
  import opened Wrappers
  import opened Dcb
  import opened Tables
  import opened StoreSpec
  import opened Reads
  import opened TxSpec
  import opened Net
  import opened RegistrySpec
  import opened Protocol
  import opened ProtocolShape
  import opened ProtocolFrames
  import opened ProtocolCounts

  // Every version in the store was given by it.
  ghost predicate VersionsIssued(p: map<Key, ProjectionRow>, issued: set<string>) {
    forall k :: k in p ==> p[k].version in issued
  }

  // What a transaction remembers of a projection read when it had been
  // written or deleted `read` times.
  ghost predicate Remembers(s: Sys, k: Key, state: ProjectionState, read: nat) {
    && read <= Epoch(s, k)
    && (state.readFound ==> state.readVersion in s.issued)
    && (read == Epoch(s, k) ==> AsFirstRead(s.store.projections, k, state))
    && (read < Epoch(s, k) && state.readFound ==> !AsFirstRead(s.store.projections, k, state))
  }

  // Each projection was read by the transaction, or created without a read.
  ghost predicate RememberedBy(s: Sys, id: TxId)
    requires id in s.data && id in s.firstRead
  {
    && s.firstRead[id].Keys <= s.data[id].projections.Keys
    && forall k :: k in s.data[id].projections ==>
         var state := s.data[id].projections[k];
         && (k in s.firstRead[id] <==> !state.unread)
         && if k in s.firstRead[id] then Remembers(s, k, state, s.firstRead[id][k]) else !state.readFound
  }

  ghost predicate Fresh(s: Sys) {
    && VersionsIssued(s.store.projections, s.issued)
    && forall id :: id in s.data ==> id in s.firstRead && RememberedBy(s, id)
  }

  // ---- What writes do to the rows and the epochs.

  // From s to t, the projections in keys were written or deleted, with
  // versions never given before, and no other was.
  ghost predicate Touches(s: Sys, t: Sys, keys: set<Key>) {
    && s.issued <= t.issued && VersionsIssued(t.store.projections, t.issued)
    && (forall k :: Epoch(t, k) == Epoch(s, k) + if k in keys then 1 else 0)
    && (forall k :: k in keys && k in t.store.projections ==> t.store.projections[k].version !in s.issued)
    && (forall k :: k !in keys ==> Row(t.store.projections, k) == Row(s.store.projections, k))
  }

  lemma TouchedRemembers(s: Sys, t: Sys, keys: set<Key>, k: Key, state: ProjectionState, read: nat)
    requires Touches(s, t, keys) && Remembers(s, k, state, read)
    ensures Remembers(t, k, state, read)
  {
    if k !in keys {
      assert Row(t.store.projections, k) == Row(s.store.projections, k);
    }
  }

  lemma TouchedFresh(s: Sys, t: Sys, keys: set<Key>)
    requires Fresh(s) && Touches(s, t, keys) && t.firstRead == s.firstRead
    requires forall id :: id in t.data ==> id in s.data && t.data[id] == s.data[id]
    ensures Fresh(t)
  {
    forall id | id in t.data ensures RememberedBy(t, id) {
      forall k | k in t.data[id].projections && k in t.firstRead[id]
        ensures Remembers(t, k, t.data[id].projections[k], t.firstRead[id][k])
      {
        assert RememberedBy(s, id);
        TouchedRemembers(s, t, keys, k, s.data[id].projections[k], s.firstRead[id][k]);
      }
    }
  }

  function OpKeysOf(ops: seq<Op>): set<Key> {
    set i | 0 <= i < |ops| :: ops[i].key
  }

  function Given(ops: seq<Op>): set<string> {
    set i | 0 <= i < |ops| && !ops[i].kind.Deleting? :: ops[i].version
  }

  // The operations leave their own versions, and the other rows alone.
  lemma {:induction false} AppliedAt(ops: seq<Op>, p: map<Key, ProjectionRow>, k: Key)
    ensures var r := ApplyAll(ops, p);
            && (k in OpKeysOf(ops) && k in r ==> r[k].version in Given(ops))
            && (k !in OpKeysOf(ops) ==> Row(r, k) == Row(p, k))
    decreases |ops|
  {
    if ops != [] {
      AppliedAt(ops[1..], Apply(ops[0], p), k);
      assert forall i :: 0 <= i < |ops[1..]| ==> ops[1..][i] == ops[i + 1];
      assert Given(ops[1..]) <= Given(ops);
      assert OpKeysOf(ops) == OpKeysOf(ops[1..]) + {ops[0].key};
      assert !ops[0].kind.Deleting? ==> ops[0].version in Given(ops);
    }
  }

  lemma GivenVersions(w: Writes, v: Versions)
    requires VersionsFor(w, v)
    ensures Given(Ops(w, v)) <= VersionSet(v)
  {
    var ops := Ops(w, v);
    forall i | 0 <= i < |ops| ensures ops[i].kind.Deleting? || ops[i].version in VersionSet(v) {
      if i < |w.create| {
        assert ops[i] == CreateOps(w.create, v.create)[i];
        assert ops[i].version == v.create[i];
      } else if i < |w.create| + |w.replace| {
        assert ops[i] == ReplaceOps(w.replace, v.replace)[i - |w.create|];
        assert ops[i].version == v.replace[i - |w.create|];
      } else {
        assert ops[i] == DeleteOps(w.delete)[i - |w.create| - |w.replace|];
      }
    }
  }

  lemma BumpedEpochs(s: Sys, t: Sys, keys: set<Key>, k: Key)
    requires t.epochs == Bumped(s, keys)
    ensures Epoch(t, k) == Epoch(s, k) + if k in keys then 1 else 0
  {
  }

  lemma OpsTouch(s: Sys, t: Sys, w: Writes, v: Versions)
    requires Fresh(s) && VersionsFor(w, v) && FreshVersions(v, s.issued) && t.issued == s.issued + VersionSet(v)
    requires t.store.projections == ApplyAll(Ops(w, v), s.store.projections)
    requires t.epochs == Bumped(s, OpKeysOf(Ops(w, v)))
    ensures Touches(s, t, OpKeysOf(Ops(w, v)))
  {
    var ops := Ops(w, v);
    GivenVersions(w, v);
    forall k
      ensures Epoch(t, k) == Epoch(s, k) + if k in OpKeysOf(ops) then 1 else 0
      ensures k !in OpKeysOf(ops) ==> Row(t.store.projections, k) == Row(s.store.projections, k)
      ensures k in OpKeysOf(ops) && k in t.store.projections ==> t.store.projections[k].version in VersionSet(v)
    {
      AppliedAt(ops, s.store.projections, k);
      BumpedEpochs(s, t, OpKeysOf(ops), k);
    }
    forall k | k in t.store.projections ensures t.store.projections[k].version in t.issued {
      if k !in OpKeysOf(ops) {
        assert Row(t.store.projections, k) == Row(s.store.projections, k);
      }
    }
  }

  lemma AppendTouches(s: Sys, events: seq<PendingEvent>, conditions: seq<AppendCondition>, w: Writes, v: Versions,
                      outcome: AppendOutcome, t: Sys)
    requires Fresh(s) && AppendWork(s, events, conditions, w, v, outcome, t)
    ensures Touches(s, t, if outcome.Appended? then OpKeysOf(Ops(w, v)) else {})
  {
    if outcome.Appended? {
      assert (set i | 0 <= i < WritesLen(w) :: Ops(w, v)[i].key) == OpKeysOf(Ops(w, v));
      OpsTouch(s, t, w, v);
    }
  }

  lemma DeletesTouch(s: Sys, t: Sys, keys: set<Key>)
    requires Fresh(s)
             && t == s.(store := s.store.(projections := s.store.projections - keys), epochs := Bumped(s, keys))
    ensures Touches(s, t, keys)
  {
    forall k ensures Epoch(t, k) == Epoch(s, k) + if k in keys then 1 else 0 {
      BumpedEpochs(s, t, keys, k);
    }
  }

  lemma NothingTouched(s: Sys, t: Sys)
    requires Fresh(s) && t.store.projections == s.store.projections && t.issued == s.issued && t.epochs == s.epochs
    ensures Touches(s, t, {})
  {
  }

  lemma WorkedTouches(s: Sys, work: Work, l: Label, u: Sys, limits: Limits) returns (keys: set<Key>)
    requires Fresh(s) && l.RunWork? && Worked(s, work, l, u, limits)
    ensures Touches(s, u, keys)
  {
    keys := {};
    match work {
      case CommitWork(_, d) =>
        AppendTouches(s, d.events, d.conditions, NetWrites(d), l.versions, l.outcome, u);
        if l.outcome.Appended? { keys := OpKeysOf(Ops(NetWrites(d), l.versions)); }
      case ProjectionsWork(w) =>
        AppendTouches(s, [], [], w, l.versions, l.outcome, u);
        if l.outcome.Appended? { keys := OpKeysOf(Ops(w, l.versions)); }
      case DeleteTypeWork(typ) =>
        if u != s {
          keys := set k | k in s.store.projections && k.typ == typ;
          assert DeletedType(s.store, typ).projections == s.store.projections - keys;
          DeletesTouch(s, u, keys);
        } else {
          NothingTouched(s, u);
        }
      case DeleteProjectionsWork =>
        if u != s {
          keys := s.store.projections.Keys;
          assert s.store.projections - keys == map[];
          DeletesTouch(s, u, keys);
        } else {
          NothingTouched(s, u);
        }
      case _ => NothingTouched(s, u);
    }
  }

  // ---- Steps.

  lemma SameFresh(s: Sys, t: Sys)
    requires Fresh(s) && SameStore(s, t) && t.firstRead == s.firstRead
    requires forall id :: id in t.data ==> id in s.data && t.data[id] == s.data[id]
    ensures Fresh(t)
  {
    NothingTouched(s, t);
    TouchedFresh(s, t, {});
  }

  lemma RunFresh(s: Sys, l: Label, t: Sys, limits: Limits)
    requires Fresh(s) && l.RunWork? && RunStep(s, l, t, limits)
    ensures Fresh(t)
  {
    var u := t.(jobs := s.jobs);
    var keys := WorkedTouches(s, s.jobs[l.ticket].work, l, u, limits);
    WorkedFrame(s, s.jobs[l.ticket].work, l, u, limits);
    TouchedFresh(s, u, keys);
    SameFresh(u, t);
  }

  lemma OneRemembers(s: Sys, t: Sys, id: TxId)
    requires id in s.data && id in s.firstRead && RememberedBy(s, id) && SameStore(s, t)
    requires id in t.data && id in t.firstRead && t.data[id] == s.data[id] && t.firstRead[id] == s.firstRead[id]
    ensures RememberedBy(t, id)
  {
    forall k | k in t.data[id].projections && k in t.firstRead[id]
      ensures Remembers(t, k, t.data[id].projections[k], t.firstRead[id][k])
    {
      assert Remembers(s, k, s.data[id].projections[k], s.firstRead[id][k]);
    }
  }

  lemma BeginFresh(s: Sys, id: TxId, now: int, limits: Limits)
    requires Fresh(s)
    ensures Fresh(BeginStep(s, id, now, limits))
  {
    var t := BeginStep(s, id, now, limits);
    if BeginResultOf(s.reg, limits).Begun? {
      forall i | i in t.data ensures RememberedBy(t, i) {
        if i != id {
          OneRemembers(s, t, i);
        }
      }
    } else {
      SameFresh(s, t);
    }
  }

  lemma ExpireFresh(s: Sys, now: int, limits: Limits)
    requires Fresh(s)
    ensures Fresh(Expire(s, now, limits))
  {
    SameFresh(s, Expire(s, now, limits));
  }

  lemma AcquireFresh(s: Sys, id: TxId, intent: Intent)
    requires Fresh(s)
    ensures Fresh(AcquireStep(s, id, intent))
  {
    TakenKeeps(s.reg, id);
    AcquireFrame(s, id, intent);
    SameFresh(s, AcquireStep(s, id, intent));
  }

  lemma SectionFresh(s: Sys, id: TxId, now: int, todo: Todo)
    requires Fresh(s)
    ensures Fresh(SectionStep(s, id, now, todo))
  {
    SameFresh(s, SectionStep(s, id, now, todo));
  }

  lemma RegistryFresh(s: Sys, l: Label, t: Sys, limits: Limits)
    requires Fresh(s) && OfRegistry(l) && Step(s, l, t, limits)
    ensures Fresh(t)
  {
    var c := Expire(s, l.now, limits);
    ExpireFresh(s, l.now, limits);
    match l {
      case Begin(id, now) => BeginFresh(c, id, now, limits);
      case Acquire(id, now, intent) => AcquireFresh(c, id, intent);
      case Section(id, now) => SectionFresh(c, id, now, s.calls[id].todo);
    }
  }

  // One transaction moved on; the rest stayed.
  lemma OneFresh(s: Sys, t: Sys, id: TxId)
    requires Fresh(s) && SameStore(s, t) && id in t.data && id in t.firstRead && RememberedBy(t, id)
    requires t.data == s.data[id := t.data[id]] && t.firstRead == s.firstRead[id := t.firstRead[id]]
    ensures Fresh(t)
  {
    forall i | i in t.data ensures i in t.firstRead && RememberedBy(t, i) {
      if i != id {
        OneRemembers(s, t, i);
      }
    }
  }

  lemma FirstReadFresh(s: Sys, t: Sys, id: TxId, key: Key, epochs: map<Key, nat>)
    requires Fresh(s) && SameStore(s, t) && id in s.data && id in s.firstRead && key !in s.data[id].projections
    requires t.data == s.data[id := WithRead(s.data[id], key, Row(s.store.projections, key))]
    requires epochs == s.firstRead[id][key := Epoch(s, key)] && t.firstRead == s.firstRead[id := epochs]
    ensures Fresh(t)
  {
    assert RememberedBy(s, id);
    forall k | k in t.data[id].projections && k in t.firstRead[id]
      ensures Remembers(t, k, t.data[id].projections[k], t.firstRead[id][k])
    {
      if k != key {
        assert Remembers(s, k, s.data[id].projections[k], s.firstRead[id][k]);
      }
    }
    OneFresh(s, t, id);
  }

  lemma GetFresh(s: Sys, id: TxId, key: Key)
    requires Fresh(s) && Uses(s, id)
    ensures Fresh(GetProjectionStep(s, id, key))
  {
    var t := GetProjectionStep(s, id, key);
    if key in s.data[id].projections {
      assert s.data == s.data[id := s.data[id]];
      SameFresh(s, t);
    } else {
      FirstReadFresh(s, t, id, key, t.firstRead[id]);
    }
  }

  // A write keeps what the transaction remembers of its reads.
  ghost predicate SameReads(p: map<Key, ProjectionState>, q: map<Key, ProjectionState>) {
    forall k :: k in q ==>
      if k in p then q[k].readFound == p[k].readFound && q[k].readVersion == p[k].readVersion
        && q[k].unread == p[k].unread
      else !q[k].readFound && q[k].unread
  }

  lemma {:induction false} ChangesKeepReads(d: TxData, changes: seq<Change>)
    ensures SameReads(d.projections, ChangedAll(d, changes).projections)
    ensures d.projections.Keys <= ChangedAll(d, changes).projections.Keys
  {
    if changes != [] {
      ChangesKeepReads(d, changes[..|changes| - 1]);
    }
  }

  lemma WriteFresh(s: Sys, t: Sys, id: TxId, d: TxData)
    requires Fresh(s) && Uses(s, id) && t == Succeed(s, id, d).(made := t.made)
    requires SameReads(s.data[id].projections, d.projections) && s.data[id].projections.Keys <= d.projections.Keys
    ensures Fresh(t)
  {
    assert RememberedBy(s, id);
    forall k | k in d.projections
      ensures if k in t.firstRead[id] then Remembers(t, k, d.projections[k], t.firstRead[id][k])
              else !d.projections[k].readFound
    {
      if k in s.data[id].projections && k in s.firstRead[id] {
        assert Remembers(s, k, s.data[id].projections[k], s.firstRead[id][k]);
      }
    }
    assert t.firstRead == s.firstRead[id := t.firstRead[id]];
    OneFresh(s, t, id);
  }

  lemma RefuseFresh(s: Sys, id: TxId, error: CallError)
    requires Fresh(s)
    ensures Fresh(Refuse(s, id, error))
  {
    SameFresh(s, Refuse(s, id, error));
  }

  lemma WriteProjectionsFresh(s: Sys, id: TxId, w: TxWrites, limits: Limits)
    requires Fresh(s) && Uses(s, id)
    ensures Fresh(WriteProjectionsStep(s, id, w, limits))
  {
    var d := s.data[id];
    if !WritesAllowed(d, w) {
      RefuseFresh(s, id, DesignError);
    } else if WrittenAfter(d, w) > limits.maxProjections {
      RefuseFresh(s, id, TooLarge);
    } else {
      ChangesKeepReads(d.(written := WrittenAfter(d, w)), Changes(w));
      WriteFresh(s, WriteProjectionsStep(s, id, w, limits), id, WithWrites(d, w));
    }
  }

  // A read or a write of events leaves its transaction's projections alone.
  ghost predicate EventsOnly(s: Sys, t: Sys, id: TxId) {
    && SameStore(s, t) && t.firstRead == s.firstRead && t.made == s.made && id in s.data && id in t.data
    && t.data == s.data[id := t.data[id]] && t.data[id].projections == s.data[id].projections
    && t.data[id].touched == s.data[id].touched
  }

  lemma SameProjectionsFresh(s: Sys, t: Sys, id: TxId)
    requires Fresh(s) && EventsOnly(s, t, id)
    ensures Fresh(t)
  {
    forall k | k in t.data[id].projections && k in t.firstRead[id]
      ensures Remembers(t, k, t.data[id].projections[k], t.firstRead[id][k])
    {
      assert RememberedBy(s, id);
      assert Remembers(s, k, s.data[id].projections[k], s.firstRead[id][k]);
    }
    assert t.firstRead == s.firstRead[id := t.firstRead[id]];
    OneFresh(s, t, id);
  }

  lemma RefuseEventsOnly(s: Sys, id: TxId, error: CallError)
    requires id in s.data
    ensures EventsOnly(s, Refuse(s, id, error), id)
  {
    assert s.data == s.data[id := s.data[id]];
  }

  lemma ReadEventsOnly(s: Sys, id: TxId, f: Filter, limits: Limits)
    requires Uses(s, id)
    ensures EventsOnly(s, ReadEventsStep(s, id, f, limits), id)
  {
    match ReadRefusal(s.data[id], f, s.store.log, limits) {
      case Some(error) => RefuseEventsOnly(s, id, error);
      case None =>
    }
  }

  lemma WriteEventsOnly(s: Sys, id: TxId, events: seq<EventData>, time: nat, limits: Limits)
    requires Uses(s, id)
    ensures EventsOnly(s, WriteEventsStep(s, id, events, time, limits), id)
  {
    match WriteRefusal(s.data[id], |events|, limits) {
      case Some(error) => RefuseEventsOnly(s, id, error);
      case None =>
    }
  }

  lemma WorkFresh(s: Sys, l: Label, t: Sys, limits: Limits)
    requires Fresh(s) && WorksOn(l) && Step(s, l, t, limits)
    ensures Fresh(t)
  {
    match l {
      case ReadEvents(id, f) =>
        ReadEventsOnly(s, id, f, limits);
        SameProjectionsFresh(s, t, id);
      case WriteEvents(id, events, time) =>
        WriteEventsOnly(s, id, events, time, limits);
        SameProjectionsFresh(s, t, id);
      case GetProjection(id, key) => GetFresh(s, id, key);
      case WriteProjections(id, w) => WriteProjectionsFresh(s, id, w, limits);
      case ReadFails(id) => RefuseFresh(s, id, StoreError);
    }
  }

  lemma StepFresh(s: Sys, l: Label, t: Sys, limits: Limits)
    requires Fresh(s) && Step(s, l, t, limits)
    ensures Fresh(t)
  {
    if OfRegistry(l) {
      RegistryFresh(s, l, t, limits);
    } else if WorksOn(l) {
      WorkFresh(s, l, t, limits);
    } else if l.RunWork? {
      RunFresh(s, l, t, limits);
    } else if l.Commit? {
      CommitFrame(s, l.id);
      SameFresh(s, t);
    } else if !l.Restart? {
      LineFrame(s, l, t, limits);
      SameFresh(s, t);
    }
  }

  lemma {:induction false} AlwaysFresh(ss: seq<Sys>, ls: seq<Label>, limits: Limits, n: nat)
    requires Run(ss, ls, limits) && n < |ss|
    ensures Fresh(ss[n])
  {
    if n > 0 {
      AlwaysFresh(ss, ls, limits, n - 1);
      StepFresh(ss[n - 1], ls[n - 1], ss[n], limits);
    }
  }

  // ---- Only writes and deletions change a projection.

  ghost predicate KeepsRows(s: Sys, t: Sys) {
    forall k :: Epoch(t, k) >= Epoch(s, k)
                && (Epoch(t, k) == Epoch(s, k) ==> Row(t.store.projections, k) == Row(s.store.projections, k))
  }

  lemma TouchesKeep(s: Sys, t: Sys, keys: set<Key>)
    requires Touches(s, t, keys)
    ensures KeepsRows(s, t)
  {
    forall k
      ensures Epoch(t, k) >= Epoch(s, k)
      ensures Epoch(t, k) == Epoch(s, k) ==> Row(t.store.projections, k) == Row(s.store.projections, k)
    {
      assert Epoch(t, k) == Epoch(s, k) + if k in keys then 1 else 0;
    }
  }

  lemma SameRows(s: Sys, t: Sys)
    requires t.store.projections == s.store.projections && t.epochs == s.epochs
    ensures KeepsRows(s, t)
  {
  }

  lemma StepKeepsRows(s: Sys, l: Label, t: Sys, limits: Limits)
    requires Fresh(s) && Step(s, l, t, limits)
    ensures KeepsRows(s, t)
  {
    if l.RunWork? {
      var u := t.(jobs := s.jobs);
      var keys := WorkedTouches(s, s.jobs[l.ticket].work, l, u, limits);
      TouchesKeep(s, u, keys);
      SameRows(u, t);
    } else if l.Restart? {
      SameRows(s, t);
    } else {
      OnlyTurnsWrite(s, l, t, limits);
      SameRows(s, t);
    }
  }

  lemma RowsKept(r: Sys, s: Sys, t: Sys)
    requires KeepsRows(r, s) && KeepsRows(s, t)
    ensures KeepsRows(r, t)
  {
  }

  // In every run, restarts included: a projection with no write and no
  // deletion in between has the same version and payload, or is still absent.
  lemma {:induction false} OnlyWritesChange(ss: seq<Sys>, ls: seq<Label>, limits: Limits, i: nat, j: nat)
    requires Run(ss, ls, limits) && i <= j < |ss|
    ensures KeepsRows(ss[i], ss[j])
    decreases j
  {
    if i < j {
      OnlyWritesChange(ss, ls, limits, i, j - 1);
      AlwaysFresh(ss, ls, limits, j - 1);
      StepKeepsRows(ss[j - 1], ls[j - 1], ss[j], limits);
      RowsKept(ss[i], ss[j - 1], ss[j]);
    }
  }

  // ---- The theorem.

  // Nothing happened to k that its net operation may not ignore: it was not
  // written or deleted since the transaction first found it, or it is absent
  // where the transaction first found nothing.
  ghost predicate Stands(s: Sys, id: TxId, k: Key)
    requires id in s.data && id in s.firstRead && k in s.data[id].projections
  {
    if s.data[id].projections[k].readFound then k in s.firstRead[id] && s.firstRead[id][k] == Epoch(s, k)
    else k !in s.store.projections
  }

  lemma StandsAsRead(s: Sys, id: TxId, k: Key)
    requires Fresh(s) && id in s.data && k in s.data[id].projections
    ensures Stands(s, id, k) <==> AsFirstRead(s.store.projections, k, s.data[id].projections[k])
  {
    assert RememberedBy(s, id);
    if k in s.firstRead[id] {
      assert Remembers(s, k, s.data[id].projections[k], s.firstRead[id][k]);
    }
  }

  ghost predicate AllStand(s: Sys, id: TxId)
    requires id in s.data && id in s.firstRead
  {
    forall k :: k in s.data[id].projections && NetKind(s.data[id].projections[k]).Some? ==> Stands(s, id, k)
  }

  // The conflict is on a projection that needs this operation, that no
  // longer stands, with the right note of whether it was ever read.
  ghost predicate BlamesRight(s: Sys, id: TxId, op: OpKind, at: int)
    requires id in s.data && id in s.firstRead
  {
    var d := s.data[id];
    var key := ConflictKey(NetOpKeys(d), op, at);
    && key.Some? && key.value in d.projections && NetKind(d.projections[key.value]) == Some(op)
    && !Stands(s, id, key.value)
    && (op.Creating? ==> at < |NetOpKeys(d).unread|
                         && (NetOpKeys(d).unread[at] <==> key.value !in s.firstRead[id]))
  }

  // What a commit's turn says of its projections.
  ghost predicate Judged(s: Sys, id: TxId, outcome: AppendOutcome)
    requires id in s.data && id in s.firstRead
  {
    && (outcome.Appended? ==> AllStand(s, id))
    && (outcome.ProjectionConflict? ==> !AllStand(s, id) && BlamesRight(s, id, outcome.op, outcome.at))
  }

  lemma CommitJudged(s: Sys, id: TxId, v: Versions, outcome: AppendOutcome, t: StoreState, limits: Limits)
    requires Fresh(s) && id in s.data && ValidTx(s.data[id], limits)
    requires var d := s.data[id];
             VersionsFor(NetWrites(d), v) && AppendStep(s.store, d.events, d.conditions, NetWrites(d), v, t, outcome)
    ensures Judged(s, id, outcome)
  {
    var d := s.data[id];
    NetAppliesIff(d, v, s.store.projections);
    forall k | k in d.projections
      ensures Stands(s, id, k) <==> AsFirstRead(s.store.projections, k, d.projections[k])
    {
      StandsAsRead(s, id, k);
    }
    if outcome.ProjectionConflict? {
      var n :| RefusedAt(Ops(NetWrites(d), v), n, s.store.projections)
               && (outcome.op, outcome.at) == ConflictAt(NetWrites(d), n);
      OneRefusal(Ops(NetWrites(d), v), n, n, s.store.projections);
      ConflictNamesProjection(d, v, s.store.projections, n);
      assert RememberedBy(s, id);
    }
  }

  lemma CommitStepJudged(s: Sys, l: Label, t: Sys, limits: Limits)
    requires Shaped(s) && Fresh(s) && Accounted(s, limits) && RunsCommit(s, l) && Step(s, l, t, limits)
    ensures var id := s.jobs[l.ticket].work.id;
            id in s.data && id in s.firstRead && Judged(s, id, l.outcome)
  {
    var work := s.jobs[l.ticket].work;
    assert JobOk(s, l.ticket);
    assert CallOk(s, work.id);
    CommitJudged(s, work.id, l.versions, l.outcome, t.store, limits);
  }

  // In every run, however calls interleave: a commit writes its projections
  // exactly when each of them stands, even if one was deleted and created
  // again with the same payload; a conflict names one that doesn't.
  lemma NoAba(ss: seq<Sys>, ls: seq<Label>, limits: Limits, n: nat)
    requires Run(ss, ls, limits) && n < |ls| && RunsCommit(ss[n], ls[n])
    ensures var id := ss[n].jobs[ls[n].ticket].work.id;
            id in ss[n].data && id in ss[n].firstRead && Judged(ss[n], id, ls[n].outcome)
  {
    AlwaysShaped(ss, ls, limits, n);
    AlwaysFresh(ss, ls, limits, n);
    AlwaysAccounted(ss, ls, limits, n);
    CommitStepJudged(ss[n], ls[n], ss[n + 1], limits);
  }
}
