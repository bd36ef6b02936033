// What a transaction holds, and what each call does to it (internal/tx):
// the specification of the class Transaction and of the protocol's steps.
module TxSpec {
  import opened Wrappers
  import opened Lists
  import opened Dcb
  import opened Tables
  import opened Reads

  datatype OpenCondition = OpenCondition(query: Query, position: int)

  // How a projection was when first read, and how it is now in the
  // transaction. One created without a read is taken as absent.
  datatype ProjectionState = ProjectionState(
    readFound: bool, readVersion: string, unread: bool, found: bool, payload: string, written: bool)

  datatype TxData = TxData(
    open: Option<OpenCondition>,
    conditions: seq<AppendCondition>,
    events: seq<PendingEvent>,
    projections: map<Key, ProjectionState>,
    touched: seq<Key>,
    written: nat)

  const NEW_TX := TxData(None, [], [], map[], [], 0)

  datatype Limits = Limits(
    idleTimeout: int, maxEvents: nat, maxReads: nat, maxProjections: nat, maxEventsPerRead: nat, maxOpen: nat)

  datatype CallError = DesignError | TooLarge | StoreError

  // ---- Reads and writes of events.

  // Why a read of events is refused, if it is.
  function ReadRefusal(t: TxData, f: Filter, log: seq<Event>, limits: Limits): Option<CallError> {
    if t.open.Some? then Some(DesignError)
    else if |t.conditions| + 1 > limits.maxReads || |FullRead(f, log, t.events)| > limits.maxEventsPerRead then
      Some(TooLarge)
    else None
  }

  function WithEventsRead(t: TxData, f: Filter, log: seq<Event>): TxData {
    t.(open := Some(OpenCondition(f.query, SnapshotPosition(f.query, log))))
  }

  // Why a write of n events is refused, if it is.
  function WriteRefusal(t: TxData, n: nat, limits: Limits): Option<CallError> {
    if t.open.None? then Some(DesignError)
    else if |t.events| + n > limits.maxEvents then Some(TooLarge)
    else None
  }

  function PendingAt(events: seq<EventData>, time: nat): (r: seq<PendingEvent>)
    ensures |r| == |events| && forall i :: 0 <= i < |r| ==> r[i] == PendingEvent(time, events[i])
  {
    seq(|events|, i requires 0 <= i < |events| => PendingEvent(time, events[i]))
  }

  // A write closes the open condition with the events of its decision.
  function WithEventsWritten(t: TxData, events: seq<EventData>, time: nat): TxData
    requires t.open.Some?
  {
    t.(events := t.events + PendingAt(events, time), open := None,
       conditions := t.conditions + [AppendCondition(t.open.value.query, t.open.value.position)])
  }

  // ---- The writes of projections of one call.

  datatype TxProjection = TxProjection(key: Key, payload: string)

  datatype TxWrites = TxWrites(create: seq<TxProjection>, replace: seq<TxProjection>, delete: seq<Key>)

  datatype Change = Put(key: Key, payload: string, creates: bool) | Remove(key: Key)

  function Puts(ps: seq<TxProjection>, creates: bool): (r: seq<Change>)
    ensures |r| == |ps| && forall i :: 0 <= i < |r| ==> r[i] == Put(ps[i].key, ps[i].payload, creates)
  {
    seq(|ps|, i requires 0 <= i < |ps| => Put(ps[i].key, ps[i].payload, creates))
  }

  function Removes(ks: seq<Key>): (r: seq<Change>)
    ensures |r| == |ks| && forall i :: 0 <= i < |r| ==> r[i] == Remove(ks[i])
  {
    seq(|ks|, i requires 0 <= i < |ks| => Remove(ks[i]))
  }

  // The changes of one write, in the order they are made.
  function Changes(w: TxWrites): seq<Change> {
    Puts(w.create, true) + Puts(w.replace, false) + Removes(w.delete)
  }

  function KeysOf(changes: seq<Change>): (r: seq<Key>)
    ensures |r| == |changes| && forall i :: 0 <= i < |r| ==> r[i] == changes[i].key
  {
    seq(|changes|, i requires 0 <= i < |changes| => changes[i].key)
  }

  // A create needs the projection not to exist in the transaction, a
  // replace needs it to, a delete needs only that it was read or created.
  predicate Allowed(c: Change, projections: map<Key, ProjectionState>) {
    match c
    case Put(k, _, creates) =>
      if creates then !(k in projections && projections[k].found) else k in projections && projections[k].found
    case Remove(k) => k in projections
  }

  ghost predicate WritesAllowed(t: TxData, w: TxWrites) {
    && t.open.None? && Changes(w) != []
    && Distinct(KeysOf(Changes(w)))
    && forall c :: c in Changes(w) ==> Allowed(c, t.projections)
  }

  function WrittenKeys(projections: map<Key, ProjectionState>): set<Key> {
    set k | k in projections && projections[k].written
  }

  // How many projections the transaction would have written.
  function WrittenAfter(t: TxData, w: TxWrites): nat {
    t.written + |Elements(KeysOf(Changes(w))) - WrittenKeys(t.projections)|
  }

  function Changed(t: TxData, c: Change): TxData {
    match c
    case Put(k, payload, _) =>
      var s := if k in t.projections then t.projections[k] else ProjectionState(false, "", true, false, "", false);
      t.(projections := t.projections[k := s.(found := true, payload := payload, written := true)],
         touched := if k in t.projections then t.touched else t.touched + [k])
    case Remove(k) =>
      if k in t.projections then
        t.(projections := t.projections[k := t.projections[k].(found := false, payload := "", written := true)])
      else t
  }

  function ChangedAll(t: TxData, changes: seq<Change>): TxData {
    if changes == [] then t else Changed(ChangedAll(t, changes[..|changes| - 1]), changes[|changes| - 1])
  }

  function WithWrites(t: TxData, w: TxWrites): TxData {
    ChangedAll(t.(written := WrittenAfter(t, w)), Changes(w))
  }

  // The first read of a projection; a later one changes nothing.
  function WithRead(t: TxData, key: Key, row: Option<ProjectionRow>): TxData {
    if key in t.projections then t
    else
      var s := match row
        case None => ProjectionState(false, "", false, false, "", false)
        case Some(r) => ProjectionState(true, r.version, false, true, r.payload, false);
      t.(projections := t.projections[key := s], touched := t.touched + [key])
  }

  // ---- What a transaction keeps.

  // touched lists every projection once; only a read can find a projection,
  // and only a write can change it.
  ghost predicate Tracked(t: TxData) {
    && Distinct(t.touched) && Elements(t.touched) == t.projections.Keys
    && (forall k :: k in t.projections ==> (t.projections[k].unread ==> !t.projections[k].readFound))
    && (forall k :: k in t.projections && !t.projections[k].written ==>
          t.projections[k].found == t.projections[k].readFound)
  }

  // written counts the projections written; the totals are within the limits.
  ghost predicate ValidTx(t: TxData, limits: Limits) {
    && Tracked(t)
    && t.written == |WrittenKeys(t.projections)| <= limits.maxProjections
    && |t.events| <= limits.maxEvents
    && |t.conditions| + (if t.open.Some? then 1 else 0) <= limits.maxReads
  }

  lemma ChangedTracked(t: TxData, c: Change)
    requires Tracked(t) && (c.Remove? ==> c.key in t.projections)
    ensures Tracked(Changed(t, c))
    ensures WrittenKeys(Changed(t, c).projections) == WrittenKeys(t.projections) + {c.key}
    ensures Changed(t, c) == t.(projections := Changed(t, c).projections, touched := Changed(t, c).touched)
    ensures Changed(t, c).projections.Keys == t.projections.Keys + {c.key}
  {
    var u := Changed(t, c);
    if c.key !in t.projections {
      assert c.key !in Elements(t.touched);
      assert Elements(u.touched) == Elements(t.touched) + {c.key};
    }
  }

  ghost predicate RemovesKnown(changes: seq<Change>, t: TxData) {
    forall c :: c in changes && c.Remove? ==> c.key in t.projections
  }

  lemma ElementsSnoc(changes: seq<Change>)
    requires changes != []
    ensures Elements(KeysOf(changes)) == Elements(KeysOf(changes[..|changes| - 1])) + {changes[|changes| - 1].key}
  {
    assert KeysOf(changes) == KeysOf(changes[..|changes| - 1]) + [changes[|changes| - 1].key];
  }

  lemma {:induction false} ChangedAllTracked(t: TxData, changes: seq<Change>)
    requires Tracked(t) && RemovesKnown(changes, t)
    ensures var u := ChangedAll(t, changes);
            && Tracked(u) && u == t.(projections := u.projections, touched := u.touched)
            && WrittenKeys(u.projections) == WrittenKeys(t.projections) + Elements(KeysOf(changes))
            && t.projections.Keys <= u.projections.Keys
  {
    if changes != [] {
      var init, c := changes[..|changes| - 1], changes[|changes| - 1];
      assert c in changes && forall x :: x in init ==> x in changes;
      ChangedAllTracked(t, init);
      ElementsSnoc(changes);
      ChangedTracked(ChangedAll(t, init), c);
    }
  }

  lemma UnionSize(a: set<Key>, b: set<Key>)
    ensures |a + b| == |a| + |b - a|
  {
    assert a + b == a + (b - a);
  }

  lemma WritesKnown(t: TxData, w: TxWrites)
    requires WritesAllowed(t, w)
    ensures RemovesKnown(Changes(w), t)
  {
    forall c | c in Changes(w) && c.Remove? ensures c.key in t.projections {
      assert Allowed(c, t.projections);
    }
  }

  lemma WritesKeepValid(t: TxData, w: TxWrites, limits: Limits)
    requires ValidTx(t, limits) && WritesAllowed(t, w) && WrittenAfter(t, w) <= limits.maxProjections
    ensures ValidTx(WithWrites(t, w), limits)
  {
    WritesKnown(t, w);
    ChangedAllTracked(t.(written := WrittenAfter(t, w)), Changes(w));
    UnionSize(WrittenKeys(t.projections), Elements(KeysOf(Changes(w))));
  }

  lemma ReadTracked(t: TxData, key: Key, row: Option<ProjectionRow>)
    requires Tracked(t)
    ensures Tracked(WithRead(t, key, row))
    ensures WrittenKeys(WithRead(t, key, row).projections) == WrittenKeys(t.projections)
  {
    if key !in t.projections {
      assert key !in Elements(t.touched);
      assert Elements(WithRead(t, key, row).touched) == Elements(t.touched) + {key};
    }
  }

  lemma ReadKeepsValid(t: TxData, key: Key, row: Option<ProjectionRow>, limits: Limits)
    requires ValidTx(t, limits)
    ensures ValidTx(WithRead(t, key, row), limits)
  {
    ReadTracked(t, key, row);
  }
}
