// Inserting rows: what one multi-row INSERT does, and the batches a long
// list of rows is cut into (internal/store/append.go).
module Inserts {
  import opened Wrappers
  import opened Lists
  import opened Dcb
  import opened Tables
  import opened StoreSpec

  datatype Row = EventRow(event: Event) | TagIn(table: TagTable, tag: TagRow)

  // events with e at the place its primary key gives it, or None if taken.
  function InsertEvent(events: seq<Event>, e: Event): Option<seq<Event>> {
    if events == [] || e.sequence < events[0].sequence then Some([e] + events)
    else if e.sequence == events[0].sequence then None
    else
      var rest := InsertEvent(events[1..], e);
      if rest.None? then None else Some([events[0]] + rest.value)
  }

  // A tag row needs its event (a foreign key) and a free primary key.
  function InsertRow(db: Db, row: Row): Option<Db> {
    match row
    case EventRow(e) =>
      var events := InsertEvent(db.events, e);
      if events.None? then None else Some(db.(events := events.value))
    case TagIn(table, tag) =>
      if tag in Rows(db, table) || !(exists e :: e in db.events && e.sequence == tag.sequence) then None
      else if table.Identifiers? then Some(db.(identifiers := db.identifiers + {tag}))
      else Some(db.(metadata := db.metadata + {tag}))
  }

  // What inserting rows one after the other gives: None once one is refused.
  function InsertRows(db: Option<Db>, rows: seq<Row>): Option<Db>
    decreases |rows|
  {
    if db.None? || rows == [] then db else InsertRows(InsertRow(db.value, rows[0]), rows[1..])
  }

  lemma {:induction false} InsertRowsConcat(db: Option<Db>, a: seq<Row>, b: seq<Row>)
    ensures InsertRows(db, a + b) == InsertRows(InsertRows(db, a), b)
    decreases |a|
  {
    if a == [] {
      assert a + b == b;
    } else if db.Some? {
      InsertRowsConcat(InsertRow(db.value, a[0]), a[1..], b);
      assert (a + b)[1..] == a[1..] + b;
    }
  }

  const MAX_BATCH_VARIABLES := 32000

  // A statement inserting n rows of cols values each is within the cap.
  predicate Fits(n: nat, cols: nat) {
    0 < n && n * cols <= MAX_BATCH_VARIABLES
  }

  lemma QuotientFits(n: nat, d: nat)
    requires 1 <= d <= n
    ensures 1 <= n / d && n / d * d <= n
  {
    assert n == n / d * d + n % d;
  }

  lemma ProductGrows(a: int, b: int, c: nat)
    requires a <= b
    ensures a * c <= b * c
  {
  }

  // Where the chunk that begins at start ends.
  function ChunkEnd(start: nat, n: nat, cols: nat): (end: nat)
    requires start < n && 1 <= cols <= MAX_BATCH_VARIABLES
    ensures start < end <= n && Fits(end - start, cols)
  {
    var rowsPerChunk := MAX_BATCH_VARIABLES / cols;
    QuotientFits(MAX_BATCH_VARIABLES, cols);
    var end := if start + rowsPerChunk < n then start + rowsPerChunk else n;
    ProductGrows(end - start, rowsPerChunk, cols);
    end
  }

  // Rows of cols values each, in as many statements as the cap on bound
  // parameters requires: no statement is over it, and together they insert
  // every row once, in order.
  method ExecBatchInsert(tx: Db, cols: nat, rows: seq<Row>) returns (r: Option<Db>, statements: seq<seq<Row>>)
    requires 1 <= cols <= MAX_BATCH_VARIABLES
    ensures r == InsertRows(Some(tx), rows)
    ensures r.Some? ==> Concat(statements) == rows
    ensures forall s :: s in statements ==> Fits(|s|, cols)
  {
    r, statements := Some(tx), [];
    var start := 0;
    while start < |rows|
      invariant 0 <= start <= |rows|
      invariant r.Some? && InsertRows(r, rows[start..]) == InsertRows(Some(tx), rows)
      invariant Concat(statements) == rows[..start]
      invariant forall s :: s in statements ==> Fits(|s|, cols)
    {
      var end := ChunkEnd(start, |rows|, cols);
      var chunk := rows[start..end];
      assert rows[start..] == chunk + rows[end..];
      InsertRowsConcat(r, chunk, rows[end..]);
      assert rows[..end] == rows[..start] + chunk;
      ConcatSnoc(statements, chunk);
      r, statements := InsertRows(r, chunk), statements + [chunk];
      if r.None? {
        return;
      }
      start := end;
    }
    assert rows[..|rows|] == rows && rows[|rows|..] == [];
  }

  // ---- The rows of events and of their tags.

  function EventRows(events: seq<Event>): (r: seq<Row>)
    ensures |r| == |events| && forall i :: 0 <= i < |r| ==> r[i] == EventRow(events[i])
  {
    seq(|events|, i requires 0 <= i < |events| => EventRow(events[i]))
  }

  function TagRowsOfEvent(table: TagTable, e: Event): (r: seq<Row>)
    ensures |r| == |TagsIn(table, e.data)|
    ensures forall i :: 0 <= i < |r| ==>
      r[i] == TagIn(table, TagRow(e.sequence, TagsIn(table, e.data)[i].name, TagsIn(table, e.data)[i].value))
  {
    var tags := TagsIn(table, e.data);
    seq(|tags|, i requires 0 <= i < |tags| => TagIn(table, TagRow(e.sequence, tags[i].name, tags[i].value)))
  }

  function TagRows(table: TagTable, events: seq<Event>): seq<Row> {
    if events == [] then []
    else TagRows(table, events[..|events| - 1]) + TagRowsOfEvent(table, events[|events| - 1])
  }

  // The rows of insertIdentifiersBatch, and of insertMetadataBatch.
  method BuildTagRows(table: TagTable, events: seq<Event>) returns (rows: seq<Row>)
    ensures rows == TagRows(table, events)
  {
    rows := [];
    for i := 0 to |events|
      invariant rows == TagRows(table, events[..i])
    {
      ghost var before := rows;
      var e := events[i];
      var tags := TagsIn(table, e.data);
      for j := 0 to |tags|
        invariant rows == before + TagRowsOfEvent(table, e)[..j]
      {
        rows := rows + [TagIn(table, TagRow(e.sequence, tags[j].name, tags[j].value))];
      }
      assert rows == before + TagRowsOfEvent(table, e);
      assert events[..i + 1][..i] == events[..i];
    }
    assert events[..|events|] == events;
  }

  lemma {:induction false} TagRowsAreCarried(table: TagTable, events: seq<Event>, r: TagRow)
    ensures TagIn(table, r) in TagRows(table, events) <==> Carried(table, events, r)
  {
    if events != [] {
      var init, e := events[..|events| - 1], events[|events| - 1];
      TagRowsAreCarried(table, init, r);
      var rows := TagRowsOfEvent(table, e);
      if TagIn(table, r) in rows {
        var i :| 0 <= i < |rows| && rows[i] == TagIn(table, r);
        assert Tag(r.name, r.value) == TagsIn(table, e.data)[i];
      }
      if e.sequence == r.sequence && Tag(r.name, r.value) in TagsIn(table, e.data) {
        var i :| 0 <= i < |TagsIn(table, e.data)| && TagsIn(table, e.data)[i] == Tag(r.name, r.value);
        assert rows[i] == TagIn(table, r);
      }
      assert forall f :: f in events <==> f == e || f in init;
    }
  }

  ghost predicate OnlyTagRows(table: TagTable, rows: seq<Row>) {
    forall row :: row in rows ==> row.TagIn? && row.table == table
  }

  lemma {:induction false} TagRowsOnly(table: TagTable, events: seq<Event>)
    ensures OnlyTagRows(table, TagRows(table, events))
  {
    if events != [] {
      TagRowsOnly(table, events[..|events| - 1]);
    }
  }

  // ---- What the inserts leave.

  lemma PlacedBehind(first: Event, events: seq<Event>, e: Event, placed: seq<Event>)
    requires Ascending([first] + events) && first.sequence < e.sequence && Imported(events, [e], placed)
    ensures Imported([first] + events, [e], [first] + placed)
  {
    forall f | f in placed ensures first.sequence < f.sequence {
      assert f in multiset(placed);
      assert f in events || f == e;
      if f in events {
        var i :| 0 <= i < |events| && events[i] == f;
        assert ([first] + events)[0].sequence < ([first] + events)[i + 1].sequence;
      }
    }
  }

  lemma {:induction false} InsertEventPlaces(events: seq<Event>, e: Event)
    requires Ascending(events) && InsertEvent(events, e).Some?
    ensures Imported(events, [e], InsertEvent(events, e).value)
  {
    if events != [] && events[0].sequence < e.sequence {
      InsertEventPlaces(events[1..], e);
      assert events == [events[0]] + events[1..];
      PlacedBehind(events[0], events[1..], e, InsertEvent(events[1..], e).value);
    }
  }

  lemma {:induction false} EventsInserted(db: Db, events: seq<Event>)
    requires Ascending(db.events)
    ensures var r := InsertRows(Some(db), EventRows(events));
            r.Some? ==> Imported(db.events, events, r.value.events) && r.value == db.(events := r.value.events)
    decreases |events|
  {
    if events != [] {
      var first := InsertRow(db, EventRow(events[0]));
      assert EventRows(events)[1..] == EventRows(events[1..]);
      if first.Some? {
        InsertEventPlaces(db.events, events[0]);
        EventsInserted(first.value, events[1..]);
        assert events == [events[0]] + events[1..];
      }
    }
  }

  lemma {:induction false} InsertEventLast(events: seq<Event>, e: Event)
    requires forall f :: f in events ==> f.sequence < e.sequence
    ensures InsertEvent(events, e) == Some(events + [e])
  {
    if events == [] {
      assert [e] + events == events + [e];
    } else {
      assert events[0] in events;
      InsertEventLast(events[1..], e);
      assert events + [e] == [events[0]] + (events[1..] + [e]);
    }
  }

  lemma {:induction false} EventsInsertedLast(db: Db, events: seq<Event>)
    requires Ascending(db.events + events)
    ensures InsertRows(Some(db), EventRows(events)) == Some(db.(events := db.events + events))
    decreases |events|
  {
    if events == [] {
      assert db.events + events == db.events;
    } else {
      forall f | f in db.events ensures f.sequence < events[0].sequence {
        var i :| 0 <= i < |db.events| && db.events[i] == f;
        assert (db.events + events)[i].sequence < (db.events + events)[|db.events|].sequence;
      }
      InsertEventLast(db.events, events[0]);
      assert db.events + events == (db.events + [events[0]]) + events[1..];
      EventsInsertedLast(db.(events := db.events + [events[0]]), events[1..]);
      assert EventRows(events)[1..] == EventRows(events[1..]);
    }
  }

  lemma {:induction false} TagsInserted(db: Db, table: TagTable, rows: seq<Row>)
    requires OnlyTagRows(table, rows)
    ensures var r := InsertRows(Some(db), rows);
            r.Some? ==>
              && (forall tag :: tag in Rows(r.value, table) <==> tag in Rows(db, table) || TagIn(table, tag) in rows)
              && r.value == if table.Identifiers? then db.(identifiers := r.value.identifiers)
                                                 else db.(metadata := r.value.metadata)
    decreases |rows|
  {
    if rows != [] {
      var first := InsertRow(db, rows[0]);
      if first.Some? {
        TagsInserted(first.value, table, rows[1..]);
      }
    }
  }

  lemma {:induction false} FreshTagsInserted(db: Db, table: TagTable, rows: seq<Row>)
    requires OnlyTagRows(table, rows) && Distinct(rows)
    requires forall row :: row in rows ==> row.tag !in Rows(db, table)
    requires forall row :: row in rows ==> exists e :: e in db.events && e.sequence == row.tag.sequence
    ensures InsertRows(Some(db), rows).Some?
    decreases |rows|
  {
    if rows != [] {
      assert rows[0] in rows;
      var first := InsertRow(db, rows[0]).value;
      forall row | row in rows[1..] ensures row.tag !in Rows(first, table) {
        var i :| 0 <= i < |rows[1..]| && rows[1..][i] == row;
        assert rows[0] != rows[i + 1] == row;
      }
      FreshTagsInserted(first, table, rows[1..]);
    }
  }

  // What Validate asks of an event's tags: none twice within one set.
  ghost predicate TagsDistinct(e: EventData) {
    Distinct(e.identifiers) && Distinct(e.metadata)
  }

  lemma {:induction false} TagRowsDistinct(table: TagTable, events: seq<Event>)
    requires Ascending(events) && forall e :: e in events ==> TagsDistinct(e.data)
    ensures Distinct(TagRows(table, events))
    ensures forall row :: row in TagRows(table, events) ==>
      row.TagIn? && exists e :: e in events && e.sequence == row.tag.sequence
  {
    TagRowsOnly(table, events);
    if events != [] {
      var init, e := events[..|events| - 1], events[|events| - 1];
      var before, last := TagRows(table, init), TagRowsOfEvent(table, e);
      TagRowsDistinct(table, init);
      assert TagsDistinct(e.data);
      var tags := TagsIn(table, e.data);
      forall i, j | 0 <= i < j < |last| ensures last[i] != last[j] {
        assert tags[i] != tags[j];
        assert tags[i] == Tag(tags[i].name, tags[i].value) && tags[j] == Tag(tags[j].name, tags[j].value);
      }
      forall row | row in before ensures row.tag.sequence < e.sequence {
        var f :| f in init && f.sequence == row.tag.sequence;
      }
      assert forall row :: row in last ==> row.tag.sequence == e.sequence;
      assert e in events;
    }
  }

  // Rows of new events, validated, are never refused.
  lemma FreshTagRowsInserted(tx: Db, events: seq<Event>, table: TagTable, db: Db)
    requires Consistent(tx) && Ascending(tx.events + events) && forall e :: e in events ==> TagsDistinct(e.data)
    requires db.events == tx.events + events && Rows(db, table) == Rows(tx, table)
    ensures InsertRows(Some(db), TagRows(table, events)).Some?
  {
    var rows := TagRows(table, events);
    assert Ascending(events) by {
      assert forall i :: 0 <= i < |events| ==> events[i] == (tx.events + events)[|tx.events| + i];
    }
    TagRowsOnly(table, events);
    TagRowsDistinct(table, events);
    forall row | row in rows
      ensures row.tag !in Rows(db, table)
      ensures exists e :: e in db.events && e.sequence == row.tag.sequence
    {
      var e :| e in events && e.sequence == row.tag.sequence;
      assert e in db.events;
      var j :| 0 <= j < |events| && events[j] == e;
      forall f | f in tx.events ensures f.sequence < e.sequence {
        var i :| 0 <= i < |tx.events| && tx.events[i] == f;
        assert (tx.events + events)[i].sequence < (tx.events + events)[|tx.events| + j].sequence;
      }
      assert row.tag in Rows(tx, table) <==> Carried(table, tx.events, row.tag);
    }
    FreshTagsInserted(db, table, rows);
  }

  // The table gained the tags of events, and nothing else.
  ghost predicate Grown(table: TagTable, tx: Db, events: seq<Event>, db: Db) {
    forall tag :: tag in Rows(db, table) <==> tag in Rows(tx, table) || Carried(table, events, tag)
  }

  // The tables agree again once the tags are in.
  lemma GrownAgree(tx: Db, events: seq<Event>, db: Db)
    requires Consistent(tx) && Imported(tx.events, events, db.events)
    requires Grown(Identifiers, tx, events, db) && Grown(Metadata, tx, events, db)
    ensures Consistent(db)
  {
    forall e ensures e in db.events <==> e in tx.events || e in events {
      assert e in db.events <==> e in multiset(db.events);
    }
    forall table: TagTable, r ensures r in Rows(db, table) <==> Carried(table, db.events, r) {
      assert Grown(table, tx, events, db);
    }
  }

  // What inserting events, then their identifiers, then their metadata gives.
  function InsertedRows(tx: Db, events: seq<Event>): Option<Db> {
    InsertRows(InsertRows(InsertRows(Some(tx), EventRows(events)), TagRows(Identifiers, events)),
               TagRows(Metadata, events))
  }

  lemma TagRowsGrow(db: Db, table: TagTable, events: seq<Event>)
    ensures var r := InsertRows(Some(db), TagRows(table, events));
            r.Some? ==>
              && Grown(table, db, events, r.value)
              && r.value == if table.Identifiers? then db.(identifiers := r.value.identifiers)
                                                 else db.(metadata := r.value.metadata)
  {
    TagRowsOnly(table, events);
    TagsInserted(db, table, TagRows(table, events));
    forall tag ensures TagIn(table, tag) in TagRows(table, events) <==> Carried(table, events, tag) {
      TagRowsAreCarried(table, events, tag);
    }
  }

  lemma InsertedRowsConsistent(tx: Db, events: seq<Event>)
    requires Consistent(tx) && InsertedRows(tx, events).Some?
    ensures var db := InsertedRows(tx, events).value;
            && Consistent(db) && Imported(tx.events, events, db.events)
            && db.projections == tx.projections && db.pausedAt == tx.pausedAt
  {
    var a := InsertRows(Some(tx), EventRows(events));
    EventsInserted(tx, events);
    TagRowsGrow(a.value, Identifiers, events);
    var b := InsertRows(a, TagRows(Identifiers, events));
    TagRowsGrow(b.value, Metadata, events);
    var c := InsertRows(b, TagRows(Metadata, events));
    assert Rows(c.value, Identifiers) == Rows(b.value, Identifiers);
    assert Rows(b.value, Metadata) == Rows(a.value, Metadata) == Rows(tx, Metadata);
    GrownAgree(tx, events, c.value);
  }

  // Validated events after the last one are never refused.
  lemma InsertedRowsAfterLast(tx: Db, events: seq<Event>)
    requires Consistent(tx) && Ascending(tx.events + events) && forall e :: e in events ==> TagsDistinct(e.data)
    ensures InsertedRows(tx, events).Some?
  {
    EventsInsertedLast(tx, events);
    var a := tx.(events := tx.events + events);
    FreshTagRowsInserted(tx, events, Identifiers, a);
    TagRowsOnly(Identifiers, events);
    TagsInserted(a, Identifiers, TagRows(Identifiers, events));
    var b := InsertRows(Some(a), TagRows(Identifiers, events)).value;
    FreshTagRowsInserted(tx, events, Metadata, b);
  }
}
