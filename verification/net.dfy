// A transaction's projections turned into one operation each
// (internal/tx/projections.go), and what those do to a store.
module Net {
  import opened Wrappers
  import opened Lists
  import opened Tables
  import opened StoreSpec
  import opened TxSpec

  // The one operation a projection needs, if any: none when it was only
  // read, or is back to absent.
  function NetKind(s: ProjectionState): Option<OpKind> {
    if !s.written then None
    else if !s.readFound then if s.found then Some(Creating) else None
    else if s.found then Some(Replacing) else Some(Deleting)
  }

  // The touched projections that need an operation of this kind, in order.
  function NetKeys(kind: OpKind, touched: seq<Key>, projections: map<Key, ProjectionState>): (r: seq<Key>)
    ensures forall k :: k in r ==> k in projections && NetKind(projections[k]) == Some(kind)
  {
    if touched == [] then []
    else
      var k := touched[|touched| - 1];
      var init := NetKeys(kind, touched[..|touched| - 1], projections);
      if k in projections && NetKind(projections[k]) == Some(kind) then init + [k] else init
  }

  function NetWrites(t: TxData): (w: Writes)
  {
    var c, r, d := NetKeys(Creating, t.touched, t.projections), NetKeys(Replacing, t.touched, t.projections),
                   NetKeys(Deleting, t.touched, t.projections);
    Writes(
      seq(|c|, i requires 0 <= i < |c| => Create(c[i], t.projections[c[i]].payload)),
      seq(|r|, i requires 0 <= i < |r| => Replace(r[i], t.projections[r[i]].readVersion, t.projections[r[i]].payload)),
      seq(|d|, i requires 0 <= i < |d| => Delete(d[i], t.projections[d[i]].readVersion)))
  }

  // What maps each operation back to its projection.
  datatype OpKeys = OpKeys(create: seq<Key>, replace: seq<Key>, delete: seq<Key>, unread: seq<bool>)

  function NetOpKeys(t: TxData): OpKeys {
    var c := NetKeys(Creating, t.touched, t.projections);
    OpKeys(c, NetKeys(Replacing, t.touched, t.projections), NetKeys(Deleting, t.touched, t.projections),
           seq(|c|, i requires 0 <= i < |c| => t.projections[c[i]].unread))
  }

  lemma {:induction false} NetKeysComplete(kind: OpKind, touched: seq<Key>, projections: map<Key, ProjectionState>)
    ensures forall k :: k in NetKeys(kind, touched, projections) <==>
              k in touched && k in projections && NetKind(projections[k]) == Some(kind)
    ensures Distinct(touched) ==> Distinct(NetKeys(kind, touched, projections))
  {
    if touched != [] {
      NetKeysComplete(kind, touched[..|touched| - 1], projections);
    }
  }

  // The operation on projection k, in state s, that its net kind asks for.
  predicate NetOp(op: Op, k: Key, s: ProjectionState) {
    && op.key == k && NetKind(s) == Some(op.kind)
    && (!op.kind.Creating? ==> op.read == s.readVersion)
    && (!op.kind.Deleting? ==> op.payload == s.payload)
  }

  ghost predicate DistinctKeys(ops: seq<Op>) {
    forall i, j :: 0 <= i < j < |ops| ==> ops[i].key != ops[j].key
  }

  // The projection of the i-th operation, by the three lists of keys.
  function KeyAt(keys: OpKeys, i: nat): Option<Key> {
    var c, r := |keys.create|, |keys.replace|;
    if i < c then Some(keys.create[i])
    else if i < c + r then Some(keys.replace[i - c])
    else if i < c + r + |keys.delete| then Some(keys.delete[i - c - r])
    else None
  }

  // opKeys.conflict: the projection of the at-th operation of a list.
  function ConflictKey(keys: OpKeys, op: OpKind, at: int): Option<Key> {
    var list := match op case Creating => keys.create case Replacing => keys.replace case Deleting => keys.delete;
    if 0 <= at < |list| then Some(list[at]) else None
  }

  // Each operation is the one its projection needs.
  lemma NetOpAt(t: TxData, v: Versions, i: nat)
    requires VersionsFor(NetWrites(t), v) && i < WritesLen(NetWrites(t))
    ensures var op := Ops(NetWrites(t), v)[i];
            && KeyAt(NetOpKeys(t), i) == Some(op.key) && op.key in t.projections
            && NetOp(op, op.key, t.projections[op.key])
    ensures ConflictAt(NetWrites(t), i).0 == Ops(NetWrites(t), v)[i].kind
    ensures ConflictKey(NetOpKeys(t), ConflictAt(NetWrites(t), i).0, ConflictAt(NetWrites(t), i).1)
            == KeyAt(NetOpKeys(t), i)
  {
    var w := NetWrites(t);
    var c, r := |w.create|, |w.replace|;
    assert |NetOpKeys(t).create| == c && |NetOpKeys(t).replace| == r && |NetOpKeys(t).delete| == |w.delete|;
    if i < c {
      assert Ops(w, v)[i] == CreateOps(w.create, v.create)[i];
    } else if i < c + r {
      assert Ops(w, v)[i] == ReplaceOps(w.replace, v.replace)[i - c];
    } else {
      assert Ops(w, v)[i] == DeleteOps(w.delete)[i - c - r];
    }
  }

  // Each projection that needs an operation has one.
  lemma NetOpFor(t: TxData, v: Versions, k: Key) returns (i: nat)
    requires Tracked(t) && VersionsFor(NetWrites(t), v)
    requires k in t.projections && NetKind(t.projections[k]).Some?
    ensures i < WritesLen(NetWrites(t)) && Ops(NetWrites(t), v)[i].key == k
  {
    var keys := NetOpKeys(t);
    var kind := NetKind(t.projections[k]).value;
    NetKeysComplete(kind, t.touched, t.projections);
    assert k in t.touched by { assert k in Elements(t.touched); }
    var list := NetKeys(kind, t.touched, t.projections);
    var j :| 0 <= j < |list| && list[j] == k;
    i := j + match kind case Creating => 0 case Replacing => |keys.create|
         case Deleting => |keys.create| + |keys.replace|;
    NetOpAt(t, v, i);
  }

  lemma NothingToWrite(d: TxData)
    requires Tracked(d)
    ensures WritesLen(NetWrites(d)) == 0 <==> forall k :: k in d.projections ==> NetKind(d.projections[k]).None?
  {
    var w := NetWrites(d);
    var v := Versions(seq(|w.create|, i => ""), seq(|w.replace|, i => ""));
    if WritesLen(w) > 0 {
      NetOpAt(d, v, 0);
    } else {
      forall k | k in d.projections ensures NetKind(d.projections[k]).None? {
        if NetKind(d.projections[k]).Some? {
          var i := NetOpFor(d, v, k);
        }
      }
    }
  }

  // No projection has two operations.
  lemma NetOpsDistinct(t: TxData, v: Versions)
    requires Tracked(t) && VersionsFor(NetWrites(t), v)
    ensures DistinctKeys(Ops(NetWrites(t), v))
  {
    var ops, keys := Ops(NetWrites(t), v), NetOpKeys(t);
    NetKeysComplete(Creating, t.touched, t.projections);
    NetKeysComplete(Replacing, t.touched, t.projections);
    NetKeysComplete(Deleting, t.touched, t.projections);
    forall i, j | 0 <= i < j < |ops| ensures ops[i].key != ops[j].key {
      NetOpAt(t, v, i);
      NetOpAt(t, v, j);
    }
  }

  // Operations on distinct projections don't see each other.
  lemma {:induction false} DistinctOps(ops: seq<Op>, p: map<Key, ProjectionRow>)
    requires DistinctKeys(ops)
    ensures AllApply(ops, p) <==> forall i :: 0 <= i < |ops| ==> Applies(ops[i], p)
    ensures forall n: nat :: RefusedAt(ops, n, p) <==>
              n < |ops| && !Applies(ops[n], p) && forall i :: 0 <= i < n ==> Applies(ops[i], p)
    decreases |ops|
  {
    if ops != [] {
      var rest, q := ops[1..], Apply(ops[0], p);
      DistinctOps(rest, q);
      forall i | 0 <= i < |rest| ensures Applies(rest[i], q) <==> Applies(ops[i + 1], p) {
        assert ops[0].key != ops[i + 1].key;
      }
      forall n: nat ensures RefusedAt(ops, n, p) <==>
        n < |ops| && !Applies(ops[n], p) && forall i :: 0 <= i < n ==> Applies(ops[i], p)
      {
        if 0 < n < |ops| {
          assert RefusedAt(ops, n, p) <==> Applies(ops[0], p) && RefusedAt(rest, n - 1, q);
          assert (forall i :: 0 <= i < n ==> Applies(ops[i], p)) <==>
                 Applies(ops[0], p) && forall i :: 0 <= i < n - 1 ==> Applies(rest[i], q) by {
            assert forall i :: 0 < i < n ==> ops[i] == rest[i - 1];
          }
        }
      }
    }
  }

  // What the operations leave of one projection.
  lemma {:induction false} DistinctOpsResult(ops: seq<Op>, p: map<Key, ProjectionRow>, k: Key)
    requires DistinctKeys(ops)
    ensures var r := ApplyAll(ops, p);
            && (forall i :: 0 <= i < |ops| && ops[i].key == k ==>
                  if ops[i].kind.Deleting? then k !in r
                  else k in r && r[k] == ProjectionRow(ops[i].version, ops[i].payload))
            && ((forall i :: 0 <= i < |ops| ==> ops[i].key != k) ==> (k in r <==> k in p) && (k in p ==> r[k] == p[k]))
    decreases |ops|
  {
    if ops != [] {
      DistinctOpsResult(ops[1..], Apply(ops[0], p), k);
      assert forall i :: 0 < i < |ops| ==> ops[i] == ops[1..][i - 1];
      if ops[0].key == k {
        forall i | 0 <= i < |ops[1..]| ensures ops[1..][i].key != k {
          assert ops[0].key != ops[i + 1].key;
        }
      }
    }
  }

  // The projection is in p as the transaction first read it, or took it.
  predicate AsFirstRead(p: map<Key, ProjectionRow>, k: Key, s: ProjectionState) {
    if s.readFound then k in p && p[k].version == s.readVersion else k !in p
  }

  // Every projection that needs an operation is still as first read.
  ghost predicate AllAsFirstRead(t: TxData, p: map<Key, ProjectionRow>) {
    forall k :: k in t.projections && NetKind(t.projections[k]).Some? ==> AsFirstRead(p, k, t.projections[k])
  }

  lemma NetOpApplies(t: TxData, v: Versions, p: map<Key, ProjectionRow>, i: nat)
    requires VersionsFor(NetWrites(t), v) && i < WritesLen(NetWrites(t))
    ensures var op := Ops(NetWrites(t), v)[i];
            && op.key in t.projections && NetKind(t.projections[op.key]).Some?
            && (Applies(op, p) <==> AsFirstRead(p, op.key, t.projections[op.key]))
  {
    NetOpAt(t, v, i);
  }

  // The commit's projections are all written exactly then.
  lemma NetAppliesIff(t: TxData, v: Versions, p: map<Key, ProjectionRow>)
    requires Tracked(t) && VersionsFor(NetWrites(t), v)
    ensures AllApply(Ops(NetWrites(t), v), p) <==> AllAsFirstRead(t, p)
  {
    var ops := Ops(NetWrites(t), v);
    NetOpsDistinct(t, v);
    DistinctOps(ops, p);
    if AllAsFirstRead(t, p) {
      forall i | 0 <= i < |ops| ensures Applies(ops[i], p) {
        NetOpApplies(t, v, p, i);
      }
    }
    if AllApply(ops, p) {
      forall k | k in t.projections && NetKind(t.projections[k]).Some? ensures AsFirstRead(p, k, t.projections[k]) {
        var i := NetOpFor(t, v, k);
        NetOpApplies(t, v, p, i);
      }
    }
  }

  // ---- A conflict names the right projection.

  lemma ConflictNamesProjection(t: TxData, v: Versions, p: map<Key, ProjectionRow>, n: nat)
    requires Tracked(t) && VersionsFor(NetWrites(t), v) && RefusedAt(Ops(NetWrites(t), v), n, p)
    ensures var (op, at) := ConflictAt(NetWrites(t), n);
            var key := ConflictKey(NetOpKeys(t), op, at);
            && key.Some? && key.value in t.projections
            && NetKind(t.projections[key.value]) == Some(op)
            && !AsFirstRead(p, key.value, t.projections[key.value])
            && (op.Creating? ==>
                  at < |NetOpKeys(t).unread| && NetOpKeys(t).unread[at] == t.projections[key.value].unread)
  {
    NetOpsDistinct(t, v);
    DistinctOps(Ops(NetWrites(t), v), p);
    NetOpAt(t, v, n);
  }

  // ---- A whole history of reads and writes collapses.

  datatype ProjectionCall = Get(key: Key, row: Option<ProjectionRow>) | Write(w: TxWrites)

  function RunCall(t: TxData, c: ProjectionCall): TxData {
    match c
    case Get(key, row) => WithRead(t, key, row)
    case Write(w) => WithWrites(t, w)
  }

  function RunCalls(calls: seq<ProjectionCall>): TxData {
    if calls == [] then NEW_TX else RunCall(RunCalls(calls[..|calls| - 1]), calls[|calls| - 1])
  }

  ghost predicate Accepted(calls: seq<ProjectionCall>) {
    calls != [] ==>
      var init, c := calls[..|calls| - 1], calls[|calls| - 1];
      Accepted(init) && (c.Write? ==> WritesAllowed(RunCalls(init), c.w))
  }

  // The same writes, one by one, on the contents of projections.
  function MakeChange(content: map<Key, string>, c: Change): map<Key, string> {
    match c
    case Put(k, payload, _) => content[k := payload]
    case Remove(k) => content - {k}
  }

  function MakeChanges(content: map<Key, string>, changes: seq<Change>): map<Key, string> {
    if changes == [] then content
    else MakeChange(MakeChanges(content, changes[..|changes| - 1]), changes[|changes| - 1])
  }

  function MakeCalls(content: map<Key, string>, calls: seq<ProjectionCall>): map<Key, string> {
    if calls == [] then content
    else
      var before := MakeCalls(content, calls[..|calls| - 1]);
      match calls[|calls| - 1]
      case Get(_, _) => before
      case Write(w) => MakeChanges(before, Changes(w))
  }

  function ContentOf(p: map<Key, ProjectionRow>): map<Key, string> {
    map k | k in p :: p[k].payload
  }

  predicate SameAt(a: map<Key, string>, b: map<Key, string>, k: Key) {
    (k in a <==> k in b) && (k in a ==> a[k] == b[k])
  }

  // What the transaction knows of k is what the writes made of it.
  predicate KnownAt(t: TxData, content: map<Key, string>, now: map<Key, string>, k: Key) {
    if k in t.projections && t.projections[k].written then
      (k in now <==> t.projections[k].found) && (k in now ==> now[k] == t.projections[k].payload)
    else SameAt(content, now, k)
  }

  lemma ChangeKnown(t: TxData, c: Change, content: map<Key, string>, now: map<Key, string>, k: Key)
    requires KnownAt(t, content, now, k) && (c.Remove? ==> c.key in t.projections)
    ensures KnownAt(Changed(t, c), content, MakeChange(now, c), k)
  {
  }

  lemma {:induction false} ChangesKnown(t: TxData, changes: seq<Change>, content: map<Key, string>,
                                       now: map<Key, string>, k: Key)
    requires Tracked(t) && RemovesKnown(changes, t) && KnownAt(t, content, now, k)
    ensures KnownAt(ChangedAll(t, changes), content, MakeChanges(now, changes), k)
  {
    if changes != [] {
      var init, c := changes[..|changes| - 1], changes[|changes| - 1];
      assert forall x :: x in init ==> x in changes;
      assert c in changes;
      ChangesKnown(t, init, content, now, k);
      ChangedAllTracked(t, init);
      ChangeKnown(ChangedAll(t, init), c, content, MakeChanges(now, init), k);
    }
  }

  lemma {:induction false} CallsTracked(calls: seq<ProjectionCall>)
    requires Accepted(calls)
    ensures Tracked(RunCalls(calls))
  {
    if calls != [] {
      var init, c := calls[..|calls| - 1], calls[|calls| - 1];
      CallsTracked(init);
      match c {
        case Get(key, row) => ReadTracked(RunCalls(init), key, row);
        case Write(w) =>
          WritesKnown(RunCalls(init), w);
          ChangedAllTracked(RunCalls(init).(written := WrittenAfter(RunCalls(init), w)), Changes(w));
      }
    }
  }

  lemma {:induction false} CallsOpenNothing(calls: seq<ProjectionCall>)
    requires Accepted(calls)
    ensures RunCalls(calls).open.None?
  {
    if calls != [] {
      var init, c := calls[..|calls| - 1], calls[|calls| - 1];
      CallsOpenNothing(init);
      if c.Write? {
        CallsTracked(init);
        WritesKnown(RunCalls(init), c.w);
        ChangedAllTracked(RunCalls(init).(written := WrittenAfter(RunCalls(init), c.w)), Changes(c.w));
      }
    }
  }

  lemma {:induction false} CallsKnown(calls: seq<ProjectionCall>, content: map<Key, string>, k: Key)
    requires Accepted(calls)
    ensures KnownAt(RunCalls(calls), content, MakeCalls(content, calls), k)
  {
    if calls != [] {
      var init, c := calls[..|calls| - 1], calls[|calls| - 1];
      CallsKnown(init, content, k);
      if c.Write? {
        var t := RunCalls(init);
        CallsTracked(init);
        WritesKnown(t, c.w);
        ChangesKnown(t.(written := WrittenAfter(t, c.w)), Changes(c.w), content, MakeCalls(content, init), k);
      }
    }
  }

  // What the net operations leave of one projection: what the transaction
  // has for it when it needs an operation, and the row as it was, whatever
  // it was, when it needs none.
  lemma NetResultAt(t: TxData, v: Versions, p: map<Key, ProjectionRow>, k: Key)
    requires Tracked(t) && VersionsFor(NetWrites(t), v)
    ensures var r := ApplyAll(Ops(NetWrites(t), v), p);
            if k in t.projections && NetKind(t.projections[k]).Some? then
              (k in r <==> t.projections[k].found) && (k in r ==> r[k].payload == t.projections[k].payload)
            else (k in r <==> k in p) && (k in p ==> r[k] == p[k])
  {
    var ops := Ops(NetWrites(t), v);
    NetOpsDistinct(t, v);
    DistinctOpsResult(ops, p, k);
    if k in t.projections && NetKind(t.projections[k]).Some? {
      var i := NetOpFor(t, v, k);
      NetOpAt(t, v, i);
    } else {
      forall i | 0 <= i < |ops| ensures ops[i].key != k {
        NetOpAt(t, v, i);
      }
    }
  }

  // Created and deleted again: what the transaction wrote of k is gone, and
  // it needs no operation.
  predicate BackToAbsent(t: TxData, k: Key) {
    k in t.projections && t.projections[k].written && NetKind(t.projections[k]).None?
  }

  // On any store at all, the net operations leave of k what the writes would
  // have left one by one; only a projection back to absent, which the writes
  // would have deleted, stays as it was.
  lemma CollapsesAt(calls: seq<ProjectionCall>, v: Versions, p: map<Key, ProjectionRow>, k: Key)
    requires Accepted(calls) && VersionsFor(NetWrites(RunCalls(calls)), v)
    ensures var t, content := RunCalls(calls), ContentOf(p);
            var left, made := ContentOf(ApplyAll(Ops(NetWrites(t), v), p)), MakeCalls(content, calls);
            if BackToAbsent(t, k) then SameAt(left, content, k) && k !in made else SameAt(left, made, k)
  {
    CallsKnown(calls, ContentOf(p), k);
    CallsTracked(calls);
    NetResultAt(RunCalls(calls), v, p, k);
  }

  // Whatever the reads and writes were, the net operations, on a store
  // where each projection written is as first read, leave the contents the
  // writes would have left one by one.
  lemma NetCollapses(calls: seq<ProjectionCall>, v: Versions, p: map<Key, ProjectionRow>)
    requires Accepted(calls) && VersionsFor(NetWrites(RunCalls(calls)), v)
    requires var t := RunCalls(calls);
             forall k :: k in t.projections && t.projections[k].written ==> AsFirstRead(p, k, t.projections[k])
    ensures var ops := Ops(NetWrites(RunCalls(calls)), v);
            AllApply(ops, p) && ContentOf(ApplyAll(ops, p)) == MakeCalls(ContentOf(p), calls)
  {
    var left, made := ContentOf(ApplyAll(Ops(NetWrites(RunCalls(calls)), v), p)), MakeCalls(ContentOf(p), calls);
    CallsTracked(calls);
    NetAppliesIff(RunCalls(calls), v, p);
    forall k ensures (k in left <==> k in made) && (k in left ==> left[k] == made[k]) {
      CollapsesAt(calls, v, p, k);
    }
    assert left == made;
  }

  const CREATED := ProjectionState(false, "", true, true, "", true)
  const DELETED := CREATED.(found := false)

  function Creates(k: Key): TxWrites { TxWrites([TxProjection(k, "")], [], []) }

  function Deletes(k: Key): TxWrites { TxWrites([], [], [k]) }

  lemma CreatedThenDeleted(k: Key)
    ensures var t := WithWrites(NEW_TX, Creates(k));
            && t.projections == map[k := CREATED] && t.open.None? && WritesAllowed(NEW_TX, Creates(k))
            && WithWrites(t, Deletes(k)).projections == map[k := DELETED] && WritesAllowed(t, Deletes(k))
  {
    var t := WithWrites(NEW_TX, Creates(k));
    assert Changes(Creates(k)) == [Put(k, "", true)] && Changes(Deletes(k)) == [Remove(k)];
    assert ChangedAll(NEW_TX.(written := WrittenAfter(NEW_TX, Creates(k))), []) ==
           NEW_TX.(written := WrittenAfter(NEW_TX, Creates(k)));
    assert [Put(k, "", true)][..0] == [] && [Remove(k)][..0] == [];
    assert ChangedAll(t.(written := WrittenAfter(t, Deletes(k))), []) == t.(written := WrittenAfter(t, Deletes(k)));
  }

  lemma OneCall(init: seq<ProjectionCall>, c: ProjectionCall)
    ensures RunCalls(init + [c]) == RunCall(RunCalls(init), c)
    ensures Accepted(init + [c]) <==> Accepted(init) && (c.Write? ==> WritesAllowed(RunCalls(init), c.w))
  {
    assert (init + [c])[..|init|] == init;
  }

  lemma TwoCalls(a: ProjectionCall, b: ProjectionCall)
    ensures RunCalls([a]) == RunCall(NEW_TX, a) && RunCalls([a, b]) == RunCall(RunCall(NEW_TX, a), b)
    ensures Accepted([a, b]) <==>
            (a.Write? ==> WritesAllowed(NEW_TX, a.w)) && (b.Write? ==> WritesAllowed(RunCall(NEW_TX, a), b.w))
  {
    assert [] + [a] == [a] && [a] + [b] == [a, b];
    OneCall([], a);
    OneCall([a], b);
  }

  lemma NothingIsWritten(calls: seq<ProjectionCall>, k: Key, content: map<Key, string>)
    requires Accepted(calls) && RunCalls(calls).projections == map[k := DELETED]
    ensures WritesLen(NetWrites(RunCalls(calls))) == 0 && k !in MakeCalls(content, calls)
  {
    CallsTracked(calls);
    NothingToWrite(RunCalls(calls));
    CallsKnown(calls, content, k);
  }

  // A projection created and deleted again needs no operation, so one that
  // another transaction created meanwhile stays, which the writes would have
  // deleted.
  lemma BackToAbsentIsLeft(k: Key, row: ProjectionRow)
    ensures var calls, p := [Write(Creates(k)), Write(Deletes(k))], map[k := row];
            && Accepted(calls) && WritesLen(NetWrites(RunCalls(calls))) == 0
            && k in ContentOf(p) && k !in MakeCalls(ContentOf(p), calls)
  {
    var calls := [Write(Creates(k)), Write(Deletes(k))];
    TwoCalls(Write(Creates(k)), Write(Deletes(k)));
    CreatedThenDeleted(k);
    NothingIsWritten(calls, k, ContentOf(map[k := row]));
  }
}
