// What the store holds, without its tables: the log, the projections, the
// counter, and the pause. The operations of the class Store are specified
// here; the protocol of the transactions is built on these specifications.
module StoreSpec {
  import opened Wrappers
  import opened Lists
  import opened Sorting
  import opened Dcb
  import opened Tables

  datatype StoreState = StoreState(
    log: seq<Event>,
    projections: map<Key, ProjectionRow>,
    pausedAt: Option<nat>,
    nextSeq: int)

  function LastSequence(s: StoreState): int { s.nextSeq - 1 }

  // SELECT coalesce(max(sequence), 0) FROM events.
  function MaxSequence(log: seq<Event>): int {
    if log == [] then 0 else log[|log| - 1].sequence
  }

  // Every committed sequence has been given by the counter.
  ghost predicate CounterAhead(s: StoreState) {
    forall e :: e in s.log ==> e.sequence <= LastSequence(s)
  }

  ghost predicate ValidState(s: StoreState) {
    Ascending(s.log) && CounterAhead(s)
  }

  // What a restart finds: the file, and a counter started from it.
  function Reopened(s: StoreState): StoreState {
    s.(nextSeq := MaxSequence(s.log) + 1)
  }

  lemma MaxIsLast(log: seq<Event>)
    requires Ascending(log)
    ensures forall e :: e in log ==> e.sequence <= MaxSequence(log)
  {
  }

  // ---- Reads.

  function Fact(e: Event): PendingEvent { PendingEvent(e.time, e.data) }

  function Facts(log: seq<Event>): (r: seq<PendingEvent>)
    ensures |r| == |log| && forall i :: 0 <= i < |r| ==> r[i] == Fact(log[i])
  {
    seq(|log|, i requires 0 <= i < |log| => Fact(log[i]))
  }

  // The events after a position that a query matches, in order.
  function Selected(q: Query, after: int, log: seq<Event>): seq<Event> {
    if log == [] then []
    else if log[0].sequence > after && Matches(q, log[0].data) then [log[0]] + Selected(q, after, log[1..])
    else Selected(q, after, log[1..])
  }

  // The events a query matches.
  function Matching(q: Query, events: seq<PendingEvent>): seq<PendingEvent> {
    if events == [] then []
    else if Matches(q, events[0].data) then [events[0]] + Matching(q, events[1..])
    else Matching(q, events[1..])
  }

  lemma {:induction false} MatchingConcat(q: Query, a: seq<PendingEvent>, b: seq<PendingEvent>)
    ensures Matching(q, a + b) == Matching(q, a) + Matching(q, b)
  {
    if a == [] {
      assert a + b == b;
    } else {
      MatchingConcat(q, a[1..], b);
      assert (a + b)[1..] == a[1..] + b && (a + b)[0] == a[0];
      if Matches(q, a[0].data) {
        Associative([a[0]], Matching(q, a[1..]), Matching(q, b));
      }
    }
  }

  lemma {:induction false} SelectedConcat(q: Query, after: int, a: seq<Event>, b: seq<Event>)
    ensures Selected(q, after, a + b) == Selected(q, after, a) + Selected(q, after, b)
  {
    if a == [] {
      assert a + b == b;
    } else {
      SelectedConcat(q, after, a[1..], b);
      assert (a + b)[1..] == a[1..] + b && (a + b)[0] == a[0];
      if a[0].sequence > after && Matches(q, a[0].data) {
        Associative([a[0]], Selected(q, after, a[1..]), Selected(q, after, b));
      }
    }
  }

  lemma {:induction false} SelectedAfterAll(q: Query, after: int, log: seq<Event>)
    requires forall e :: e in log ==> e.sequence <= after || !Matches(q, e.data)
    ensures Selected(q, after, log) == []
  {
    if log != [] {
      SelectedAfterAll(q, after, log[1..]);
    }
  }

  // ---- Append.

  // No event after the condition's position matches its query.
  ghost predicate ConditionHolds(c: AppendCondition, log: seq<Event>) {
    forall e :: e in log && e.sequence > c.after ==> !Matches(c.query, e.data)
  }

  function Stamped(events: seq<PendingEvent>, start: int): (r: seq<Event>)
    ensures |r| == |events|
    ensures forall i :: 0 <= i < |r| ==> r[i] == Event(start + i, events[i].time, events[i].data)
  {
    seq(|events|, i requires 0 <= i < |events| => Event(start + i, events[i].time, events[i].data))
  }

  datatype Create = Create(key: Key, payload: string)
  datatype Replace = Replace(key: Key, version: string, payload: string)
  datatype Delete = Delete(key: Key, version: string)

  datatype Writes = Writes(create: seq<Create>, replace: seq<Replace>, delete: seq<Delete>)

  datatype Versions = Versions(create: seq<string>, replace: seq<string>)

  datatype OpKind = Creating | Replacing | Deleting

  // One conditional write, with the new version it gives.
  datatype Op = Op(kind: OpKind, key: Key, read: string, version: string, payload: string)

  function WritesLen(w: Writes): nat { |w.create| + |w.replace| + |w.delete| }

  predicate VersionsFor(w: Writes, v: Versions) {
    |v.create| == |w.create| && |v.replace| == |w.replace|
  }

  function CreateOps(create: seq<Create>, versions: seq<string>): (r: seq<Op>)
    requires |create| == |versions|
    ensures |r| == |create|
    ensures forall i :: 0 <= i < |r| ==> r[i] == Op(Creating, create[i].key, "", versions[i], create[i].payload)
  {
    seq(|create|, i requires 0 <= i < |create| => Op(Creating, create[i].key, "", versions[i], create[i].payload))
  }

  function ReplaceOps(replace: seq<Replace>, versions: seq<string>): (r: seq<Op>)
    requires |replace| == |versions|
    ensures |r| == |replace|
    ensures forall i :: 0 <= i < |r| ==>
      r[i] == Op(Replacing, replace[i].key, replace[i].version, versions[i], replace[i].payload)
  {
    seq(|replace|, i requires 0 <= i < |replace| =>
      Op(Replacing, replace[i].key, replace[i].version, versions[i], replace[i].payload))
  }

  function DeleteOps(delete: seq<Delete>): (r: seq<Op>)
    ensures |r| == |delete|
    ensures forall i :: 0 <= i < |r| ==> r[i] == Op(Deleting, delete[i].key, delete[i].version, "", "")
  {
    seq(|delete|, i requires 0 <= i < |delete| => Op(Deleting, delete[i].key, delete[i].version, "", ""))
  }

  // The writes in the order they run.
  function Ops(w: Writes, v: Versions): (r: seq<Op>)
    requires VersionsFor(w, v)
    ensures |r| == WritesLen(w)
  {
    CreateOps(w.create, v.create) + ReplaceOps(w.replace, v.replace) + DeleteOps(w.delete)
  }

  // The n-th write as a conflict names it.
  function ConflictAt(w: Writes, n: nat): (OpKind, int) {
    if n < |w.create| then (Creating, n)
    else if n < |w.create| + |w.replace| then (Replacing, n - |w.create|)
    else (Deleting, n - |w.create| - |w.replace|)
  }

  // A create needs the key to be free, a replace or a delete the version read.
  predicate Applies(op: Op, projections: map<Key, ProjectionRow>) {
    if op.kind.Creating? then op.key !in projections
    else op.key in projections && projections[op.key].version == op.read
  }

  function Apply(op: Op, projections: map<Key, ProjectionRow>): map<Key, ProjectionRow> {
    if op.kind.Deleting? then projections - {op.key}
    else projections[op.key := ProjectionRow(op.version, op.payload)]
  }

  function ApplyAll(ops: seq<Op>, projections: map<Key, ProjectionRow>): map<Key, ProjectionRow> {
    if ops == [] then projections else ApplyAll(ops[1..], Apply(ops[0], projections))
  }

  // Each write applies to what the ones before it left.
  predicate AllApply(ops: seq<Op>, projections: map<Key, ProjectionRow>) {
    ops == [] || (Applies(ops[0], projections) && AllApply(ops[1..], Apply(ops[0], projections)))
  }

  // The n-th write is the first one that doesn't apply.
  predicate RefusedAt(ops: seq<Op>, n: nat, projections: map<Key, ProjectionRow>): (refused: bool)
    ensures refused ==> n < |ops|
  {
    ops != [] &&
    if n == 0 then !Applies(ops[0], projections)
    else Applies(ops[0], projections) && RefusedAt(ops[1..], n - 1, Apply(ops[0], projections))
  }

  lemma {:induction false} RefusedInFirstPart(a: seq<Op>, b: seq<Op>, n: nat, p: map<Key, ProjectionRow>)
    requires RefusedAt(a, n, p)
    ensures RefusedAt(a + b, n, p)
    decreases n
  {
    assert (a + b)[1..] == a[1..] + b;
    if n > 0 {
      RefusedInFirstPart(a[1..], b, n - 1, Apply(a[0], p));
    }
  }

  lemma {:induction false} RefusedInSecondPart(a: seq<Op>, b: seq<Op>, n: nat, p: map<Key, ProjectionRow>)
    requires AllApply(a, p) && RefusedAt(b, n, ApplyAll(a, p))
    ensures RefusedAt(a + b, |a| + n, p)
    decreases |a|
  {
    if a == [] {
      assert a + b == b;
    } else {
      assert (a + b)[1..] == a[1..] + b;
      RefusedInSecondPart(a[1..], b, n, Apply(a[0], p));
    }
  }

  lemma {:induction false} BothPartsApply(a: seq<Op>, b: seq<Op>, p: map<Key, ProjectionRow>)
    ensures AllApply(a + b, p) <==> AllApply(a, p) && AllApply(b, ApplyAll(a, p))
    ensures ApplyAll(a + b, p) == ApplyAll(b, ApplyAll(a, p))
    decreases |a|
  {
    if a == [] {
      assert a + b == b;
    } else {
      assert (a + b)[1..] == a[1..] + b;
      BothPartsApply(a[1..], b, Apply(a[0], p));
    }
  }

  // Writes all apply, or exactly one of them is the first that doesn't.
  lemma {:induction false} FirstRefusal(ops: seq<Op>, p: map<Key, ProjectionRow>) returns (n: nat)
    requires !AllApply(ops, p)
    ensures RefusedAt(ops, n, p)
    decreases |ops|
  {
    if !Applies(ops[0], p) {
      return 0;
    }
    n := FirstRefusal(ops[1..], Apply(ops[0], p));
    n := n + 1;
  }

  lemma {:induction false} OneRefusal(ops: seq<Op>, n: nat, m: nat, p: map<Key, ProjectionRow>)
    requires RefusedAt(ops, n, p)
    ensures !AllApply(ops, p) && (RefusedAt(ops, m, p) ==> n == m)
    decreases n
  {
    if n > 0 {
      OneRefusal(ops[1..], n - 1, if m > 0 then m - 1 else 0, Apply(ops[0], p));
    }
  }

  datatype AppendOutcome =
    | Appended(stored: seq<Event>, versions: Versions)
    | NoTime(index: nat)
    | ConditionConflict(failed: nat)
    | ProjectionConflict(op: OpKind, at: int)
    | Failed  // an error of SQLite, or a panic

  ghost predicate Timed(events: seq<PendingEvent>, n: nat)
    requires n <= |events|
  {
    forall i :: 0 <= i < n ==> events[i].time != 0
  }

  ghost predicate ConditionsHold(conditions: seq<AppendCondition>, n: nat, log: seq<Event>)
    requires n <= |conditions|
  {
    forall i :: 0 <= i < n ==> ConditionHolds(conditions[i], log)
  }

  // Append turns s into t with this outcome. Whatever goes wrong, nothing
  // changes; a conflict names the first condition, or else the first
  // projection write, that fails; on success the events follow the log at
  // the counter's next positions, in their order.
  ghost predicate AppendStep(s: StoreState, events: seq<PendingEvent>, conditions: seq<AppendCondition>,
                             w: Writes, v: Versions, t: StoreState, outcome: AppendOutcome)
    requires VersionsFor(w, v)
  {
    match outcome
    case Failed => t == s
    case NoTime(i) => t == s && i < |events| && events[i].time == 0 && Timed(events, i)
    case ConditionConflict(i) =>
      && t == s && Timed(events, |events|)
      && i < |conditions| && !ConditionHolds(conditions[i], s.log) && ConditionsHold(conditions, i, s.log)
    case ProjectionConflict(op, at) =>
      && t == s && Timed(events, |events|) && ConditionsHold(conditions, |conditions|, s.log)
      && exists n :: RefusedAt(Ops(w, v), n, s.projections) && (op, at) == ConflictAt(w, n)
    case Appended(stored, versions) =>
      && Timed(events, |events|) && ConditionsHold(conditions, |conditions|, s.log)
      && AllApply(Ops(w, v), s.projections)
      && stored == Stamped(events, s.nextSeq)
      && versions == v
      && t == s.(log := s.log + stored,
                 projections := ApplyAll(Ops(w, v), s.projections),
                 nextSeq := s.nextSeq + |events|)
  }

  lemma AppendKeepsValid(s: StoreState, events: seq<PendingEvent>, conditions: seq<AppendCondition>,
                         w: Writes, v: Versions, t: StoreState, outcome: AppendOutcome)
    requires VersionsFor(w, v) && ValidState(s) && AppendStep(s, events, conditions, w, v, t, outcome)
    ensures ValidState(t) && t.log[..|s.log|] == s.log
    ensures t.log != s.log ==> outcome.Appended? && events != []
  {
    if outcome.Appended? {
      assert t.log == s.log + outcome.stored;
    }
  }

  // ---- Import and deletion.

  // The projections of one type, deleted.
  function DeletedType(s: StoreState, typ: string): StoreState {
    s.(projections := map k | k in s.projections && k.typ != typ :: s.projections[k])
  }

  function Highest(events: seq<Event>): int {
    if events == [] then 0
    else
      var h := Highest(events[..|events| - 1]);
      if events[|events| - 1].sequence > h then events[|events| - 1].sequence else h
  }

  lemma {:induction false} HighestBounds(events: seq<Event>)
    ensures forall e :: e in events ==> e.sequence <= Highest(events)
  {
    if events != [] {
      HighestBounds(events[..|events| - 1]);
      assert forall e :: e in events ==> e in events[..|events| - 1] || e == events[|events| - 1];
    }
  }

  // log with events added at their own sequences, none of them taken.
  ghost predicate Imported(log: seq<Event>, events: seq<Event>, log': seq<Event>) {
    && Ascending(log')
    && multiset(log') == multiset(log) + multiset(events)
  }

  ghost predicate ImportStep(s: StoreState, events: seq<Event>, t: StoreState) {
    && Imported(s.log, events, t.log)
    && t == s.(log := t.log,
               nextSeq := if events != [] && Highest(events) + 1 > s.nextSeq then Highest(events) + 1 else s.nextSeq)
  }

  lemma ImportKeepsValid(s: StoreState, events: seq<Event>, t: StoreState)
    requires ValidState(s) && ImportStep(s, events, t)
    ensures ValidState(t)
  {
    HighestBounds(events);
    forall e | e in t.log ensures e.sequence <= LastSequence(t) {
      assert e in multiset(t.log);
      assert e in s.log || e in events;
    }
  }

  lemma AscendingUnique(a: seq<Event>, b: seq<Event>)
    requires Ascending(a) && Ascending(b) && multiset(a) == multiset(b)
    ensures a == b
  {
    SortedFormUnique(a, b, (x: Event, y: Event) => x.sequence <= y.sequence);
  }

  // Events imported in order, after the last one, follow the log.
  lemma ImportAfterLast(log: seq<Event>, events: seq<Event>, log': seq<Event>)
    requires Ascending(log + events) && Imported(log, events, log')
    ensures log' == log + events
  {
    assert multiset(log + events) == multiset(log');
    AscendingUnique(log + events, log');
  }
}
