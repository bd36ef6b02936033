// A transaction's projections from its calls alone (internal/tx/projections.go):
// what it sees of each, and which writes it may make.
module History {
  import opened Wrappers
  import opened Lists
  import opened Tables
  import opened TxSpec
  import opened Net

  // ---- What one write does.

  function KeyList(w: TxWrites): (r: seq<Key>)
    ensures |r| == |w.create| + |w.replace| + |w.delete|
  {
    seq(|w.create|, i requires 0 <= i < |w.create| => w.create[i].key)
    + seq(|w.replace|, i requires 0 <= i < |w.replace| => w.replace[i].key) + w.delete
  }

  function KeysIn(w: TxWrites): set<Key> {
    Elements(KeyList(w))
  }

  lemma KeyListIs(w: TxWrites)
    ensures KeyList(w) == KeysOf(Changes(w)) && |Changes(w)| == |KeyList(w)|
  {
  }

  // What w leaves of k.
  ghost predicate Leaves(w: TxWrites, k: Key, v: Option<string>) {
    && (forall p :: p in w.create && p.key == k ==> v == Some(p.payload))
    && (forall p :: p in w.replace && p.key == k ==> v == Some(p.payload))
    && (k in w.delete ==> v == None)
  }

  function At(content: map<Key, string>, k: Key): Option<string> {
    if k in content then Some(content[k]) else None
  }

  lemma {:induction false} ChangeStays(content: map<Key, string>, changes: seq<Change>, i: nat)
    requires Distinct(KeysOf(changes)) && i < |changes|
    ensures At(MakeChanges(content, changes), changes[i].key) ==
              match changes[i] case Put(_, payload, _) => Some(payload) case Remove(_) => None
    decreases |changes|
  {
    var init := changes[..|changes| - 1];
    assert KeysOf(init) == KeysOf(changes)[..|init|];
    if i < |init| {
      ChangeStays(content, init, i);
      assert KeysOf(changes)[i] != KeysOf(changes)[|init|];
    }
  }

  lemma {:induction false} OthersStay(content: map<Key, string>, changes: seq<Change>, k: Key)
    requires k !in Elements(KeysOf(changes))
    ensures At(MakeChanges(content, changes), k) == At(content, k)
  {
    if changes != [] {
      ElementsSnoc(changes);
      OthersStay(content, changes[..|changes| - 1], k);
    }
  }

  // A write of distinct projections leaves each as it says, and no other
  // changes.
  lemma WriteMakes(content: map<Key, string>, w: TxWrites, k: Key)
    requires Distinct(KeyList(w))
    ensures var left := MakeChanges(content, Changes(w));
            if k in KeysIn(w) then Leaves(w, k, At(left, k)) else At(left, k) == At(content, k)
  {
    var changes := Changes(w);
    KeyListIs(w);
    if k in KeysIn(w) {
      forall i | 0 <= i < |changes| && changes[i].key == k
        ensures At(MakeChanges(content, changes), k) ==
                  match changes[i] case Put(_, payload, _) => Some(payload) case Remove(_) => None
      {
        ChangeStays(content, changes, i);
      }
      forall p | p in w.create && p.key == k ensures At(MakeChanges(content, changes), k) == Some(p.payload) {
        var i :| 0 <= i < |w.create| && w.create[i] == p;
        assert changes[i] == Put(k, p.payload, true);
      }
      forall p | p in w.replace && p.key == k ensures At(MakeChanges(content, changes), k) == Some(p.payload) {
        var i :| 0 <= i < |w.replace| && w.replace[i] == p;
        assert changes[|w.create| + i] == Put(k, p.payload, false);
      }
      if k in w.delete {
        var i :| 0 <= i < |w.delete| && w.delete[i] == k;
        assert changes[|w.create| + |w.replace| + i] == Remove(k);
      }
    } else {
      OthersStay(content, changes, k);
    }
  }

  // ---- What the calls make.

  // The projections read or created.
  function NamedBy(calls: seq<ProjectionCall>): set<Key> {
    if calls == [] then {}
    else
      NamedBy(calls[..|calls| - 1]) + match calls[|calls| - 1] case Get(key, _) => {key} case Write(w) => KeysIn(w)
  }

  function WrittenBy(calls: seq<ProjectionCall>): set<Key> {
    if calls == [] then {}
    else
      WrittenBy(calls[..|calls| - 1]) + match calls[|calls| - 1] case Get(_, _) => {} case Write(w) => KeysIn(w)
  }

  // What the transaction sees: each projection as its first read found it,
  // and then as its own writes left it.
  function View(calls: seq<ProjectionCall>): map<Key, string> {
    if calls == [] then map[]
    else
      var init := calls[..|calls| - 1];
      match calls[|calls| - 1]
      case Get(key, row) =>
        if key !in NamedBy(init) && row.Some? then View(init)[key := row.value.payload] else View(init)
      case Write(w) => MakeChanges(View(init), Changes(w))
  }

  // t sees v: it has every projection of v, and of those it has, it has found
  // the ones in v, with their payloads.
  ghost predicate Sees(t: TxData, v: map<Key, string>) {
    && v.Keys <= t.projections.Keys
    && forall k :: k in t.projections ==>
         t.projections[k].found == (k in v) && t.projections[k].payload == if k in v then v[k] else ""
  }

  lemma ChangeSeen(t: TxData, c: Change, v: map<Key, string>)
    requires Sees(t, v)
    ensures Sees(Changed(t, c), MakeChange(v, c))
  {
  }

  lemma {:induction false} ChangesSeen(t: TxData, changes: seq<Change>, v: map<Key, string>)
    requires Sees(t, v)
    ensures Sees(ChangedAll(t, changes), MakeChanges(v, changes))
  {
    if changes != [] {
      var init, c := changes[..|changes| - 1], changes[|changes| - 1];
      ChangesSeen(t, init, v);
      ChangeSeen(ChangedAll(t, init), c, MakeChanges(v, init));
    }
  }

  lemma ReadSeen(t: TxData, key: Key, row: Option<ProjectionRow>, v: map<Key, string>)
    requires Sees(t, v)
    ensures Sees(WithRead(t, key, row), if key !in t.projections && row.Some? then v[key := row.value.payload] else v)
  {
  }

  lemma {:induction false} ChangesName(t: TxData, changes: seq<Change>)
    requires RemovesKnown(changes, t)
    ensures ChangedAll(t, changes).projections.Keys == t.projections.Keys + Elements(KeysOf(changes))
  {
    if changes != [] {
      var init, c := changes[..|changes| - 1], changes[|changes| - 1];
      assert c in changes && forall x :: x in init ==> x in changes;
      ChangesName(t, init);
      ElementsSnoc(changes);
    }
  }

  // For every history: the transaction has the projections it read or
  // created, and sees of each what its first read found and its own writes
  // then made of it.
  lemma {:induction false} CallsSeen(calls: seq<ProjectionCall>)
    requires Accepted(calls)
    ensures RunCalls(calls).projections.Keys == NamedBy(calls) && Sees(RunCalls(calls), View(calls))
  {
    if calls != [] {
      var init, c := calls[..|calls| - 1], calls[|calls| - 1];
      var t := RunCalls(init);
      CallsSeen(init);
      match c {
        case Get(key, row) => ReadSeen(t, key, row, View(init));
        case Write(w) =>
          var u := t.(written := WrittenAfter(t, w));
          WritesKnown(t, w);
          KeyListIs(w);
          ChangesName(u, Changes(w));
          ChangesSeen(u, Changes(w), View(init));
      }
    }
  }

  lemma {:induction false} CallsWritten(calls: seq<ProjectionCall>)
    requires Accepted(calls)
    ensures WrittenKeys(RunCalls(calls).projections) == WrittenBy(calls)
  {
    if calls != [] {
      var init, c := calls[..|calls| - 1], calls[|calls| - 1];
      var t := RunCalls(init);
      CallsWritten(init);
      CallsTracked(init);
      match c {
        case Get(key, row) => ReadTracked(t, key, row);
        case Write(w) =>
          WritesKnown(t, w);
          KeyListIs(w);
          ChangedAllTracked(t.(written := WrittenAfter(t, w)), Changes(w));
      }
    }
  }

  // ---- Which writes are accepted.

  // What a write may do after these calls, whatever else is open: each
  // projection once, a create of none the transaction sees, a replace only of
  // those it sees, and a delete only of those it read or created.
  ghost predicate MayWrite(calls: seq<ProjectionCall>, w: TxWrites) {
    && KeyList(w) != [] && Distinct(KeyList(w))
    && (forall p :: p in w.create ==> p.key !in View(calls))
    && (forall p :: p in w.replace ==> p.key in View(calls))
    && forall k :: k in w.delete ==> k in NamedBy(calls)
  }

  lemma AllowedByView(t: TxData, w: TxWrites, calls: seq<ProjectionCall>)
    requires t.projections.Keys == NamedBy(calls) && Sees(t, View(calls))
    ensures (forall c :: c in Changes(w) ==> Allowed(c, t.projections)) <==>
              (forall p :: p in w.create ==> p.key !in View(calls))
              && (forall p :: p in w.replace ==> p.key in View(calls))
              && forall k :: k in w.delete ==> k in NamedBy(calls)
  {
    var changes := Changes(w);
    if forall c :: c in changes ==> Allowed(c, t.projections) {
      forall p | p in w.create ensures p.key !in View(calls) {
        var i :| 0 <= i < |w.create| && w.create[i] == p;
        assert changes[i] in changes;
      }
      forall p | p in w.replace ensures p.key in View(calls) {
        var i :| 0 <= i < |w.replace| && w.replace[i] == p;
        assert changes[|w.create| + i] in changes;
      }
      forall k | k in w.delete ensures k in NamedBy(calls) {
        var i :| 0 <= i < |w.delete| && w.delete[i] == k;
        assert changes[|w.create| + |w.replace| + i] in changes;
      }
    }
  }

  // For every history and every write: with no read open, the write is
  // accepted if and only if it keeps these rules.
  lemma AcceptedIff(calls: seq<ProjectionCall>, w: TxWrites)
    requires Accepted(calls)
    ensures Accepted(calls + [Write(w)]) <==> MayWrite(calls, w)
  {
    CallsSeen(calls);
    CallsOpenNothing(calls);
    OneCall(calls, Write(w));
    KeyListIs(w);
    AllowedByView(RunCalls(calls), w, calls);
  }
}
