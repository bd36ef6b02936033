// The tables of the database file (internal/store/schema.go).
module Tables {
  import opened Wrappers
  import opened Dcb

  datatype TagRow = TagRow(sequence: int, name: string, value: string)

  datatype Key = Key(typ: string, id: string)

  datatype ProjectionRow = ProjectionRow(version: string, payload: string)

  // events is in the order of its primary key, sequence.
  datatype Db = Db(
    events: seq<Event>,
    identifiers: set<TagRow>,
    metadata: set<TagRow>,
    projections: map<Key, ProjectionRow>,
    pausedAt: Option<nat>)

  ghost predicate Ascending(events: seq<Event>) {
    forall i, j :: 0 <= i < j < |events| ==> events[i].sequence < events[j].sequence
  }

  datatype TagTable = Identifiers | Metadata

  function TagsIn(table: TagTable, e: EventData): seq<Tag> {
    if table.Identifiers? then e.identifiers else e.metadata
  }

  function Rows(db: Db, table: TagTable): set<TagRow> {
    if table.Identifiers? then db.identifiers else db.metadata
  }

  ghost predicate Carried(table: TagTable, events: seq<Event>, r: TagRow) {
    exists e :: e in events && e.sequence == r.sequence && Tag(r.name, r.value) in TagsIn(table, e.data)
  }

  // The tag tables hold the tags of the events, and nothing else.
  ghost predicate TagsAgree(db: Db) {
    forall table, r :: r in Rows(db, table) <==> Carried(table, db.events, r)
  }

  ghost predicate Consistent(db: Db) {
    Ascending(db.events) && TagsAgree(db)
  }

  lemma TagsOfEvent(db: Db, table: TagTable, e: Event, t: Tag)
    requires Consistent(db) && e in db.events
    ensures TagRow(e.sequence, t.name, t.value) in Rows(db, table) <==> t in TagsIn(table, e.data)
  {
    var r := TagRow(e.sequence, t.name, t.value);
    assert Tag(r.name, r.value) == t;
    assert forall f :: f in db.events && f.sequence == r.sequence ==> f == e;
    assert r in Rows(db, table) <==> Carried(table, db.events, r);
  }
}

// The SQL a query becomes (internal/store/query.go), and what SQLite
// computes from it. A fragment holds placeholders only: its values are in
// the list of arguments beside it, in the order of the placeholders.
module Sql {
  import opened Wrappers
  import opened Dcb
  import opened Tables

  datatype Arg = Text(text: string) | Number(number: int)

  datatype Expr =
    | False                      // 0
    | TypeIn(values: nat)        // events.type IN (?, ...)
    | TaggedIn(table: TagTable)  // events.sequence IN (SELECT event_sequence FROM table
                                 //   WHERE name = ? AND value = ? AND event_sequence > ?)
    | And(operands: seq<Expr>)
    | Or(operands: seq<Expr>)

  function Placeholders(e: Expr): nat {
    match e
    case False => 0
    case TypeIn(values) => values
    case TaggedIn(_) => 3
    case And(operands) => PlaceholdersOfAll(operands)
    case Or(operands) => PlaceholdersOfAll(operands)
  }

  function PlaceholdersOfAll(es: seq<Expr>): nat {
    if es == [] then 0 else Placeholders(es[0]) + PlaceholdersOfAll(es[1..])
  }

  // The value of e for the row of events holding event, with args bound to
  // its placeholders from left to right.
  predicate Holds(e: Expr, args: seq<Arg>, event: Event, db: Db)
    requires |args| == Placeholders(e)
    decreases e, 0
  {
    match e
    case False => false
    case TypeIn(_) => Text(event.data.typ) in args
    case TaggedIn(table) =>
      exists r :: r in Rows(db, table)
        && event.sequence == r.sequence
        && args[0] == Text(r.name) && args[1] == Text(r.value)
        && args[2].Number? && r.sequence > args[2].number
    case And(operands) => HoldAll(operands, args, event, db)
    case Or(operands) => HoldsAny(operands, args, event, db)
  }

  predicate HoldAll(es: seq<Expr>, args: seq<Arg>, event: Event, db: Db)
    requires |args| == PlaceholdersOfAll(es)
    decreases es, 1
  {
    es == [] ||
    var n := Placeholders(es[0]);
    Holds(es[0], args[..n], event, db) && HoldAll(es[1..], args[n..], event, db)
  }

  predicate HoldsAny(es: seq<Expr>, args: seq<Arg>, event: Event, db: Db)
    requires |args| == PlaceholdersOfAll(es)
    decreases es, 1
  {
    es != [] &&
    var n := Placeholders(es[0]);
    Holds(es[0], args[..n], event, db) || HoldsAny(es[1..], args[n..], event, db)
  }

  lemma {:induction false} PlaceholdersAppend(es: seq<Expr>, e: Expr)
    ensures PlaceholdersOfAll(es + [e]) == PlaceholdersOfAll(es) + Placeholders(e)
  {
    if es == [] {
      assert es + [e] == [e];
      assert PlaceholdersOfAll([e][1..]) == 0;
    } else {
      PlaceholdersAppend(es[1..], e);
      assert (es + [e])[1..] == es[1..] + [e];
    }
  }

  // A clause added at the end, with its arguments, adds its value.
  lemma {:induction false} HoldsAppend(es: seq<Expr>, args: seq<Arg>, e: Expr, more: seq<Arg>, event: Event, db: Db)
    requires |args| == PlaceholdersOfAll(es) && |more| == Placeholders(e)
    ensures PlaceholdersOfAll(es + [e]) == |args + more|
    ensures HoldAll(es + [e], args + more, event, db) <==> HoldAll(es, args, event, db) && Holds(e, more, event, db)
    ensures HoldsAny(es + [e], args + more, event, db) <==> HoldsAny(es, args, event, db) || Holds(e, more, event, db)
    decreases |es|
  {
    PlaceholdersAppend(es, e);
    var all, given := es + [e], args + more;
    var n := Placeholders(all[0]);
    if es == [] {
      assert all == [e] && all[1..] == [] && given == more && given[..n] == more && given[n..] == [];
    } else {
      HoldsAppend(es[1..], args[n..], e, more, event, db);
      assert all[1..] == es[1..] + [e] && given[..n] == args[..n] && given[n..] == args[n..] + more;
    }
  }

  // A fragment as the caller gets it: None is "", no constraint.
  predicate Selects(where: Option<Expr>, args: seq<Arg>, event: Event, db: Db)
    requires |args| == if where.Some? then Placeholders(where.value) else 0
  {
    where.Some? ==> Holds(where.value, args, event, db)
  }

  predicate CarriesAll(table: TagTable, tags: seq<Tag>, e: EventData) {
    forall t :: t in tags ==> t in TagsIn(table, e)
  }

  // What an item constrains in SQL: like ItemMatches, except for a list of
  // types that is present and empty.
  predicate ItemSelects(item: QueryItem, e: EventData) {
    && (Listed(item.types) != [] ==> e.typ in Listed(item.types))
    && CarriesAll(Identifiers, Listed(item.identifiers), e)
    && CarriesAll(Metadata, Listed(item.metadata), e)
  }

  ghost predicate Scanned(db: Db, event: Event, after: int) {
    Consistent(db) && event in db.events && event.sequence > after
  }

  function Texts(texts: seq<string>): (r: seq<Arg>)
    ensures |r| == |texts| && forall i :: 0 <= i < |r| ==> r[i] == Text(texts[i])
  {
    seq(|texts|, i requires 0 <= i < |texts| => Text(texts[i]))
  }

  lemma TypeClauseMeaning(types: seq<string>, event: Event, db: Db)
    ensures Holds(TypeIn(|types|), Texts(types), event, db) <==> event.data.typ in types
  {
    if event.data.typ in types {
      var i :| 0 <= i < |types| && types[i] == event.data.typ;
      assert Texts(types)[i] == Text(event.data.typ);
    }
  }

  lemma TagClauseMeaning(table: TagTable, t: Tag, after: int, event: Event, db: Db)
    requires Scanned(db, event, after)
    ensures Holds(TaggedIn(table), [Text(t.name), Text(t.value), Number(after)], event, db)
        <==> t in TagsIn(table, event.data)
  {
    TagsOfEvent(db, table, event, t);
    var r := TagRow(event.sequence, t.name, t.value);
    assert r in Rows(db, table) ==> Holds(TaggedIn(table), [Text(t.name), Text(t.value), Number(after)], event, db);
  }

  // One clause per tag, appended to the clauses so far.
  method AppendTagClauses(table: TagTable, tags: seq<Tag>, after: int, clauses: seq<Expr>, args: seq<Arg>)
    returns (clauses': seq<Expr>, args': seq<Arg>)
    requires |args| == PlaceholdersOfAll(clauses)
    ensures |args'| == PlaceholdersOfAll(clauses') && |clauses'| == |clauses| + |tags|
    ensures forall event, db :: Scanned(db, event, after) ==>
      (HoldAll(clauses', args', event, db) <==>
        HoldAll(clauses, args, event, db)
        && CarriesAll(table, tags, event.data))
  {
    clauses', args' := clauses, args;
    for i := 0 to |tags|
      invariant |args'| == PlaceholdersOfAll(clauses') && |clauses'| == |clauses| + i
      invariant forall event, db :: Scanned(db, event, after) ==>
        (HoldAll(clauses', args', event, db) <==>
          HoldAll(clauses, args, event, db)
          && CarriesAll(table, tags[..i], event.data))
    {
      var more := [Text(tags[i].name), Text(tags[i].value), Number(after)];
      PlaceholdersAppend(clauses', TaggedIn(table));
      forall event, db | Scanned(db, event, after)
        ensures HoldAll(clauses' + [TaggedIn(table)], args' + more, event, db) <==>
                HoldAll(clauses, args, event, db) && CarriesAll(table, tags[..i + 1], event.data)
      {
        HoldsAppend(clauses', args', TaggedIn(table), more, event, db);
        TagClauseMeaning(table, tags[i], after, event, db);
        assert tags[..i + 1] == tags[..i] + [tags[i]];
      }
      clauses', args' := clauses' + [TaggedIn(table)], args' + more;
    }
    assert tags[..|tags|] == tags;
  }

  method QueryItemToSql(item: QueryItem, after: int) returns (where: Option<Expr>, args: seq<Arg>)
    ensures |args| == if where.Some? then Placeholders(where.value) else 0
    ensures where.None? ==> forall e :: ItemSelects(item, e)
    ensures forall event, db :: Scanned(db, event, after) ==>
      (Selects(where, args, event, db) <==> ItemSelects(item, event.data))
  {
    var clauses: seq<Expr> := [];
    args := [];
    var types := Listed(item.types);
    if |types| > 0 {
      clauses, args := [TypeIn(|types|)], Texts(types);
      forall event, db
        ensures PlaceholdersOfAll(clauses) == |args|
        ensures HoldAll(clauses, args, event, db) <==> event.data.typ in types
      {
        TypeClauseMeaning(types, event, db);
        HoldsAppend([], [], TypeIn(|types|), args, event, db);
        assert [] + clauses == clauses && [] + args == args;
      }
    }
    assert PlaceholdersOfAll(clauses) == |args| by {
      PlaceholdersAppend([], TypeIn(|types|));
      assert [] + [TypeIn(|types|)] == [TypeIn(|types|)];
    }
    clauses, args := AppendTagClauses(Identifiers, Listed(item.identifiers), after, clauses, args);
    clauses, args := AppendTagClauses(Metadata, Listed(item.metadata), after, clauses, args);
    if |clauses| == 0 {
      return None, [];
    }
    where := Some(And(clauses));
  }

  predicate QuerySelects(q: Query, e: EventData) {
    match q
    case All => true
    case NoEvent => false
    case Items(items) => exists item :: item in items && ItemSelects(item, e)
  }

  // A list of types present but empty is the one thing the two readings of
  // an item disagree on: no constraint in SQL, no match in memory. A query
  // means the same in both when, for each such item, another names no types
  // and asks for none but its tags.
  ghost predicate EmptyTypesCovered(q: Query) {
    q.Items? ==>
      forall d :: d in q.items && d.types == Some([]) ==> exists a :: a in q.items && a.types.None? && TagsWithin(a, d)
  }

  // What Validate lets through has no such item.
  lemma ValidIsCovered(q: Query)
    requires ValidQuery(q)
    ensures EmptyTypesCovered(q)
  {
  }

  lemma CoveredItem(q: Query, e: EventData, item: QueryItem)
    requires q.Items? && EmptyTypesCovered(q) && item in q.items && ItemSelects(item, e)
    ensures Matches(q, e)
  {
    if item.types == Some([]) {
      var a :| a in q.items && a.types.None? && TagsWithin(a, item);
      assert ItemMatches(a, e);
    } else {
      assert ItemMatches(item, e);
    }
  }

  lemma CoveredMeansSame(q: Query, e: EventData)
    requires EmptyTypesCovered(q)
    ensures QuerySelects(q, e) <==> Matches(q, e)
  {
    if q.Items? {
      if QuerySelects(q, e) {
        var item :| item in q.items && ItemSelects(item, e);
        CoveredItem(q, e, item);
      }
      if Matches(q, e) {
        var item :| item in q.items && ItemMatches(item, e);
        assert ItemSelects(item, e);
      }
    }
  }

  // The query as SQL selects the events that match it, whatever they are,
  // exactly when its empty lists of types are covered.
  lemma QueryReadingsAgree(q: Query)
    ensures (forall e :: QuerySelects(q, e) <==> Matches(q, e)) <==> EmptyTypesCovered(q)
  {
    if EmptyTypesCovered(q) {
      forall e ensures QuerySelects(q, e) <==> Matches(q, e) {
        CoveredMeansSame(q, e);
      }
    }
    if q.Items? && forall e :: QuerySelects(q, e) <==> Matches(q, e) {
      forall d | d in q.items && d.types == Some([])
        ensures exists a :: a in q.items && a.types.None? && TagsWithin(a, d)
      {
        var e := WitnessFor(q.items, d);
        assert ItemSelects(d, e);
        assert QuerySelects(q, e);
        var a :| a in q.items && ItemMatches(a, e);
        WitnessMatches(q.items, d, a);
      }
    }
  }

  method QueryToSql(q: Query, after: int) returns (where: Option<Expr>, args: seq<Arg>)
    ensures |args| == if where.Some? then Placeholders(where.value) else 0
    ensures forall event, db :: Scanned(db, event, after) ==>
      (Selects(where, args, event, db) <==> QuerySelects(q, event.data))
    ensures ValidQuery(q) || EmptyTypesCovered(q) ==> forall event, db :: Scanned(db, event, after) ==>
      (Selects(where, args, event, db) <==> Matches(q, event.data))
  {
    if ValidQuery(q) || EmptyTypesCovered(q) {
      if ValidQuery(q) { ValidIsCovered(q); }
      QueryReadingsAgree(q);
    }
    if q.All? {
      return None, [];
    }
    if q.NoEvent? || |q.items| == 0 {
      return Some(False), [];
    }
    var clauses: seq<Expr> := [];
    args := [];
    for i := 0 to |q.items|
      invariant |args| == PlaceholdersOfAll(clauses)
      invariant forall event, db :: Scanned(db, event, after) ==>
        (HoldsAny(clauses, args, event, db) <==> exists item :: item in q.items[..i] && ItemSelects(item, event.data))
    {
      var clause, itemArgs := QueryItemToSql(q.items[i], after);
      if clause.None? {
        assert q.items[i] in q.items;
        return None, [];
      }
      PlaceholdersAppend(clauses, clause.value);
      forall event, db | Scanned(db, event, after)
        ensures HoldsAny(clauses + [clause.value], args + itemArgs, event, db) <==>
                exists item :: item in q.items[..i + 1] && ItemSelects(item, event.data)
      {
        HoldsAppend(clauses, args, clause.value, itemArgs, event, db);
        assert Selects(clause, itemArgs, event, db) <==> ItemSelects(q.items[i], event.data);
        assert forall item :: item in q.items[..i + 1] <==> item in q.items[..i] || item == q.items[i];
      }
      clauses, args := clauses + [clause.value], args + itemArgs;
    }
    assert q.items[..|q.items|] == q.items;
    where := Some(Or(clauses));
  }

  // The two readings of one item agree on every event exactly when its
  // list of types is not present and empty: what Validate refuses.
  lemma ItemReadingsAgree(item: QueryItem)
    ensures (forall e :: ItemSelects(item, e) <==> ItemMatches(item, e)) <==> item.types != Some([])
  {
    if item.types == Some([]) {
      var e := EventData("t", Listed(item.identifiers), Listed(item.metadata), "");
      assert ItemSelects(item, e) && !ItemMatches(item, e);
    }
  }
}
