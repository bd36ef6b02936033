// The checks of a write of projections (internal/api/projection.go): the
// store relies on no projection being named twice.
module Validation {
  import opened Wrappers
  import opened Lists
  import opened Tables
  import opened StoreSpec
  import opened Net

  // One projection of a request, where it stands in it. A deletion has no
  // payload.
  datatype Entry = Entry(op: OpKind, at: nat, key: Key, payload: Option<string>)

  datatype Rejection = Invalid(entry: Entry) | Repeats(entry: Entry, first: Entry) | Oversize(entry: Entry)

  // The rules on one projection, and the length of a text in bytes.
  datatype Rules = Rules(valid: Entry -> bool, length: string -> nat, maxSize: nat)

  function SizeOf(e: Entry, rules: Rules): nat {
    rules.length(e.key.typ) + rules.length(e.key.id) + (if e.payload.Some? then rules.length(e.payload.value) else 0)
  }

  function CreateEntries(create: seq<Create>): (r: seq<Entry>)
    ensures |r| == |create|
            && forall i :: 0 <= i < |r| ==> r[i] == Entry(Creating, i, create[i].key, Some(create[i].payload))
  {
    seq(|create|, i requires 0 <= i < |create| => Entry(Creating, i, create[i].key, Some(create[i].payload)))
  }

  function ReplaceEntries(replace: seq<Replace>): (r: seq<Entry>)
    ensures |r| == |replace|
            && forall i :: 0 <= i < |r| ==> r[i] == Entry(Replacing, i, replace[i].key, Some(replace[i].payload))
  {
    seq(|replace|, i requires 0 <= i < |replace| => Entry(Replacing, i, replace[i].key, Some(replace[i].payload)))
  }

  function DeleteEntries(delete: seq<Delete>): (r: seq<Entry>)
    ensures |r| == |delete| && forall i :: 0 <= i < |r| ==> r[i] == Entry(Deleting, i, delete[i].key, None)
  {
    seq(|delete|, i requires 0 <= i < |delete| => Entry(Deleting, i, delete[i].key, None))
  }

  function EntriesOf(w: Writes): seq<Entry> {
    CreateEntries(w.create) + ReplaceEntries(w.replace) + DeleteEntries(w.delete)
  }

  ghost predicate DistinctEntries(entries: seq<Entry>) {
    forall i, j :: 0 <= i < j < |entries| ==> entries[i].key != entries[j].key
  }

  ghost predicate Acceptable(entries: seq<Entry>, rules: Rules) {
    DistinctEntries(entries) && forall e :: e in entries ==> rules.valid(e) && SizeOf(e, rules) <= rules.maxSize
  }

  // The rejection is of entry n, for its first fault; those before are fine.
  ghost predicate RejectsAt(r: Rejection, entries: seq<Entry>, n: nat, rules: Rules) {
    n < |entries| && r.entry == entries[n] && Acceptable(entries[..n], rules)
    && match r
       case Invalid(e) => !rules.valid(e)
       case Repeats(e, first) => rules.valid(e) && first in entries[..n] && first.key == e.key
       case Oversize(e) => rules.valid(e) && DistinctEntries(entries[..n + 1]) && SizeOf(e, rules) > rules.maxSize
  }

  ghost predicate Rejects(r: Rejection, entries: seq<Entry>, rules: Rules) {
    exists n: nat :: RejectsAt(r, entries, n, rules)
  }

  // seen maps each key so far to where it stands.
  ghost predicate Seen(seen: map<Key, Entry>, entries: seq<Entry>) {
    && (forall k :: k in seen ==> seen[k] in entries && seen[k].key == k)
    && (forall e :: e in entries ==> e.key in seen)
  }

  lemma NewKey(before: seq<Entry>, e: Entry, seen: map<Key, Entry>)
    requires Seen(seen, before) && DistinctEntries(before) && e.key !in seen
    ensures DistinctEntries(before + [e])
  {
    assert forall i :: 0 <= i < |before| ==> before[i] in before;
  }

  // check, on the next entry after those accepted so far.
  method CheckEntry(seen: map<Key, Entry>, e: Entry, rules: Rules, ghost before: seq<Entry>)
    returns (r: Option<Rejection>, seen': map<Key, Entry>)
    requires Seen(seen, before) && Acceptable(before, rules)
    ensures r.None? ==> Seen(seen', before + [e]) && Acceptable(before + [e], rules)
    ensures r.Some? ==> Rejects(r.value, before + [e], rules)
  {
    ghost var all := before + [e];
    assert all[..|before|] == before && all[|before|] == e;
    seen' := seen;
    if !rules.valid(e) {
      assert RejectsAt(Invalid(e), all, |before|, rules);
      return Some(Invalid(e)), seen;
    }
    if e.key in seen {
      assert RejectsAt(Repeats(e, seen[e.key]), all, |before|, rules);
      return Some(Repeats(e, seen[e.key])), seen;
    }
    seen' := seen[e.key := e];
    NewKey(before, e, seen);
    if SizeOf(e, rules) > rules.maxSize {
      assert all[..|before| + 1] == all;
      assert RejectsAt(Oversize(e), all, |before|, rules);
      return Some(Oversize(e)), seen';
    }
    r := None;
  }

  lemma RejectsLonger(r: Rejection, entries: seq<Entry>, more: seq<Entry>, rules: Rules)
    requires Rejects(r, entries, rules)
    ensures Rejects(r, entries + more, rules)
  {
    var n: nat :| RejectsAt(r, entries, n, rules);
    var all := entries + more;
    assert all[..n] == entries[..n] && all[..n + 1] == entries[..n + 1] && all[n] == entries[n];
    assert RejectsAt(r, all, n, rules);
  }

  lemma RejectedIsFaulty(r: Rejection, entries: seq<Entry>, rules: Rules)
    requires Rejects(r, entries, rules)
    ensures !Acceptable(entries, rules)
  {
    var n: nat :| RejectsAt(r, entries, n, rules);
    if r.Repeats? {
      var i :| 0 <= i < n && entries[..n][i] == r.first;
      assert entries[i].key == entries[n].key;
    }
    assert entries[n] in entries;
  }

  // One of the three loops of validateProjections.
  method CheckList(seen: map<Key, Entry>, list: seq<Entry>, rules: Rules, ghost before: seq<Entry>)
    returns (r: Option<Rejection>, seen': map<Key, Entry>)
    requires Seen(seen, before) && Acceptable(before, rules)
    ensures r.None? ==> Seen(seen', before + list) && Acceptable(before + list, rules)
    ensures r.Some? ==> Rejects(r.value, before + list, rules)
  {
    r, seen' := None, seen;
    assert before + list[..0] == before;
    for i := 0 to |list|
      invariant Seen(seen', before + list[..i]) && Acceptable(before + list[..i], rules)
    {
      assert before + list[..i] + [list[i]] == before + list[..i + 1];
      r, seen' := CheckEntry(seen', list[i], rules, before + list[..i]);
      if r.Some? {
        RejectsLonger(r.value, before + list[..i + 1], list[i + 1..], rules);
        assert before + list[..i + 1] + list[i + 1..] == before + list;
        return;
      }
    }
    assert list[..|list|] == list;
    r := None;
  }

  // validateProjections: accepts a request or names the first projection at
  // fault.
  method ValidateProjections(w: Writes, rules: Rules) returns (r: Option<Rejection>)
    ensures r.None? <==> Acceptable(EntriesOf(w), rules)
    ensures r.Some? ==> Rejects(r.value, EntriesOf(w), rules)
  {
    var c, p, d := CreateEntries(w.create), ReplaceEntries(w.replace), DeleteEntries(w.delete);
    var seen: map<Key, Entry> := map[];
    assert [] + c == c;
    r, seen := CheckList(seen, c, rules, []);
    if r.Some? {
      RejectsLonger(r.value, c, p, rules);
      RejectsLonger(r.value, c + p, d, rules);
      RejectedIsFaulty(r.value, c + p + d, rules);
      return;
    }
    r, seen := CheckList(seen, p, rules, c);
    if r.Some? {
      RejectsLonger(r.value, c + p, d, rules);
      RejectedIsFaulty(r.value, c + p + d, rules);
      return;
    }
    r, seen := CheckList(seen, d, rules, c + p);
    if r.Some? {
      RejectedIsFaulty(r.value, c + p + d, rules);
    }
  }

  lemma KeyOfOp(w: Writes, v: Versions, i: nat)
    requires VersionsFor(w, v) && i < WritesLen(w)
    ensures |EntriesOf(w)| == WritesLen(w) && Ops(w, v)[i].key == EntriesOf(w)[i].key
  {
    var c, r := |w.create|, |w.replace|;
    if i < c {
      assert Ops(w, v)[i] == CreateOps(w.create, v.create)[i] && EntriesOf(w)[i] == CreateEntries(w.create)[i];
    } else if i < c + r {
      assert Ops(w, v)[i] == ReplaceOps(w.replace, v.replace)[i - c]
             && EntriesOf(w)[i] == ReplaceEntries(w.replace)[i - c];
    } else {
      assert Ops(w, v)[i] == DeleteOps(w.delete)[i - c - r] && EntriesOf(w)[i] == DeleteEntries(w.delete)[i - c - r];
    }
  }

  // What the store relies on: the writes of an accepted request don't see
  // each other, so all apply exactly when each applies to the store as it
  // was, and the one refused is the first that doesn't.
  lemma AcceptedWritesStandAlone(w: Writes, v: Versions, rules: Rules, p: map<Key, ProjectionRow>)
    requires VersionsFor(w, v) && Acceptable(EntriesOf(w), rules)
    ensures AllApply(Ops(w, v), p) <==> forall i :: 0 <= i < WritesLen(w) ==> Applies(Ops(w, v)[i], p)
    ensures forall n: nat :: RefusedAt(Ops(w, v), n, p) <==>
              n < WritesLen(w) && !Applies(Ops(w, v)[n], p) && forall i :: 0 <= i < n ==> Applies(Ops(w, v)[i], p)
  {
    var ops := Ops(w, v);
    forall i, j | 0 <= i < j < |ops| ensures ops[i].key != ops[j].key {
      KeyOfOp(w, v, i);
      KeyOfOp(w, v, j);
    }
    DistinctOps(ops, p);
  }
}
