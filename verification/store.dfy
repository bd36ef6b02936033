// The store over its tables (internal/store): SQL, batched inserts, the
// counter in memory. Each method is proved against StoreSpec.
module Store {
  import opened Wrappers
  import opened Lists
  import opened Dcb
  import opened Tables
  import opened Sql
  import opened StoreSpec
  import opened Inserts

  // Where an error of SQLite, or a panic, ends a write; NoFault: nowhere.
  datatype Fault = NoFault | AtBegin | AtCondition(index: nat) | AtProjections | AfterReserve | AtInsert | AtCommit

  // Whether a condition can be decided from the counter alone.
  function ResolveWithoutQuery(q: Query, after: int, lastAssigned: int): (r: (bool, bool))
    ensures r.1 ==> r.0
  {
    if q.NoEvent? then (true, true)
    else if after == lastAssigned then (true, true)
    else (false, false)
  }

  // The shortcut never changes an answer: where it decides, no event after
  // the position matches.
  lemma ShortcutAgrees(q: Query, after: int, s: StoreState)
    requires CounterAhead(s) && ResolveWithoutQuery(q, after, LastSequence(s)).1
    ensures ConditionHolds(AppendCondition(q, after), s.log)
  {
  }

  // Rows of an event scan: WHERE sequence > after AND where, in key order.
  function Scan(rows: seq<Event>, after: int, where: Option<Expr>, args: seq<Arg>, db: Db): seq<Event>
    requires |args| == if where.Some? then Placeholders(where.value) else 0
  {
    if rows == [] then []
    else if rows[0].sequence > after && Selects(where, args, rows[0], db) then
      [rows[0]] + Scan(rows[1..], after, where, args, db)
    else Scan(rows[1..], after, where, args, db)
  }

  lemma {:induction false} ScanSelects(rows: seq<Event>, q: Query, after: int, where: Option<Expr>, args: seq<Arg>,
                                       db: Db)
    requires |args| == if where.Some? then Placeholders(where.value) else 0
    requires Consistent(db) && forall e :: e in rows ==> e in db.events
    requires forall e, d :: Scanned(d, e, after) ==> (Selects(where, args, e, d) <==> Matches(q, e.data))
    ensures Scan(rows, after, where, args, db) == Selected(q, after, rows)
  {
    if rows != [] {
      ScanSelects(rows[1..], q, after, where, args, db);
      assert rows[0] in db.events;
      assert rows[0].sequence > after ==> Scanned(db, rows[0], after);
    }
  }

  datatype Statement = Statement(where: Option<Expr>, descending: bool, limited: bool)

  predicate Bound(statement: Statement, args: seq<Arg>) {
    var n := if statement.where.Some? then Placeholders(statement.where.value) else 0;
    && |args| == 1 + n + (if statement.limited then 1 else 0)
    && args[0].Number?
    && (statement.limited ==> args[n + 1].Number? && args[n + 1].number >= 0)
  }

  // SELECT ... FROM events WHERE sequence > ? [AND where] ORDER BY sequence [LIMIT ?].
  function RunSelect(db: Db, statement: Statement, args: seq<Arg>): seq<Event>
    requires Bound(statement, args)
  {
    var n := if statement.where.Some? then Placeholders(statement.where.value) else 0;
    var rows := Directed(statement.descending, Scan(db.events, args[0].number, statement.where, args[1..n + 1], db));
    if statement.limited then Take(args[n + 1].number, rows) else rows
  }

  method BuildEventsSql(q: Query, after: int, backwards: bool, limit: Option<nat>)
    returns (statement: Statement, args: seq<Arg>)
    ensures Bound(statement, args)
    ensures EmptyTypesCovered(q) ==> forall db :: Consistent(db) ==>
      RunSelect(db, statement, args)
        == var rows := Directed(backwards, Selected(q, after, db.events));
           if limit.Some? then Take(limit.value, rows) else rows
  {
    var where, whereArgs := QueryToSql(q, after);
    statement := Statement(where, backwards, limit.Some?);
    args := [Number(after)] + whereArgs + if limit.Some? then [Number(limit.value)] else [];
    assert args[1..|whereArgs| + 1] == whereArgs;
    forall db | EmptyTypesCovered(q) && Consistent(db)
      ensures Scan(db.events, after, where, whereArgs, db) == Selected(q, after, db.events)
    {
      ScanSelects(db.events, q, after, where, whereArgs, db);
    }
  }

  datatype Page = Page(events: seq<Event>, hasMore: bool)

  datatype Decision = Decision(events: seq<Event>, position: int)

  class Store {
    var db: Db           // the database file
    var nextSeq: int     // the next sequence to assign
    var pausedAt: Option<nat>

    ghost function State(): StoreState
      reads this
    {
      StoreState(db.events, db.projections, pausedAt, nextSeq)
    }

    ghost predicate Valid()
      reads this
    {
      Consistent(db) && CounterAhead(State()) && pausedAt == db.pausedAt
    }

    // Open on an existing file, or on an empty one.
    constructor Open(file: Db)
      requires Consistent(file)
      ensures Valid() && db == file
      ensures State() == Reopened(StoreState(file.events, file.projections, file.pausedAt, 0))
    {
      db, nextSeq, pausedAt := file, MaxSequence(file.events) + 1, file.pausedAt;
      MaxIsLast(file.events);
    }

    // ---- Reads.

    method Read(q: Query, afterSequence: Option<int>, limit: nat, backwards: bool) returns (page: Option<Page>)
      requires Valid() && EmptyTypesCovered(q)
      ensures page.None? <==> limit < 1
      ensures page.Some? ==>
        var after := if afterSequence.Some? then afterSequence.value else 0;
        var all := Directed(backwards, Selected(q, after, State().log));
        page.value == Page(Take(limit, all), |all| > limit)
    {
      if limit < 1 {
        return None;
      }
      var after := if afterSequence.Some? then afterSequence.value else 0;
      var statement, args := BuildEventsSql(q, after, backwards, Some(limit + 1));
      var events := RunSelect(db, statement, args);
      if |events| > limit {
        return Some(Page(events[..limit], true));
      }
      page := Some(Page(events, false));
    }

    lemma SelectedNone(log: seq<Event>)
      ensures Selected(NoEvent, 0, log) == []
    {
      SelectedAfterAll(NoEvent, 0, log);
    }

    // The events a decision rests on and the position, of one snapshot.
    method ReadDecision(q: Query, backwards: bool, limit: nat) returns (d: Decision)
      requires Valid() && EmptyTypesCovered(q)
      ensures d == Decision(Limited(limit, Directed(backwards, Selected(q, 0, State().log))), MaxSequence(State().log))
    {
      var position := MaxSequence(db.events);
      if q.NoEvent? {
        SelectedNone(db.events);
        return Decision([], position);
      }
      var statement, args := BuildEventsSql(q, 0, backwards, if limit > 0 then Some(limit) else None);
      d := Decision(RunSelect(db, statement, args), position);
    }

    method GetProjection(key: Key) returns (row: Option<ProjectionRow>)
      requires Valid()
      ensures row == if key in State().projections then Some(State().projections[key]) else None
    {
      row := if key in db.projections then Some(db.projections[key]) else None;
    }

    // ---- Append.

    method CheckFailIfEventsMatch(tx: Db, q: Query, after: int) returns (holds: bool)
      requires Consistent(tx) && EmptyTypesCovered(q)
      ensures holds <==> ConditionHolds(AppendCondition(q, after), tx.events)
    {
      var where, args := QueryToSql(q, after);
      holds := !(exists e :: e in tx.events && e.sequence > after && Selects(where, args, e, tx));
      assert forall e :: e in tx.events && e.sequence > after ==> Scanned(tx, e, after);
    }

    method CheckCondition(tx: Db, c: AppendCondition) returns (holds: bool)
      requires Valid() && tx == db && EmptyTypesCovered(c.query)
      ensures holds <==> ConditionHolds(c, State().log)
    {
      var (answer, decided) := ResolveWithoutQuery(c.query, c.after, nextSeq - 1);
      if decided {
        ShortcutAgrees(c.query, c.after, State());
        return answer;
      }
      holds := CheckFailIfEventsMatch(tx, c.query, c.after);
    }

    method ReserveSequences(n: nat) returns (start: int)
      modifies this`nextSeq
      ensures start == old(nextSeq) && nextSeq == start + n
    {
      start := nextSeq;
      nextSeq := nextSeq + n;
    }

    method ReleaseSequences(start: int)
      modifies this`nextSeq
      ensures nextSeq == start
    {
      nextSeq := start;
    }

    // Runs the writes of one list, each on what the ones before it left.
    method ExecEach(before: map<Key, ProjectionRow>, ops: seq<Op>)
      returns (after: map<Key, ProjectionRow>, refused: Option<nat>)
      ensures refused.None? ==> AllApply(ops, before) && after == ApplyAll(ops, before)
      ensures refused.Some? ==> RefusedAt(ops, refused.value, before)
    {
      after := before;
      for i := 0 to |ops|
        invariant AllApply(ops[..i], before) && after == ApplyAll(ops[..i], before)
      {
        assert ops == ops[..i] + ops[i..] && ops[..i + 1] == ops[..i] + [ops[i]];
        if !Applies(ops[i], after) {
          RefusedInSecondPart(ops[..i], ops[i..], 0, before);
          return after, Some(i);
        }
        BothPartsApply(ops[..i], [ops[i]], before);
        after := Apply(ops[i], after);
      }
      assert ops[..|ops|] == ops;
      refused := None;
    }

    method WriteProjections(before: map<Key, ProjectionRow>, w: Writes, v: Versions)
      returns (after: map<Key, ProjectionRow>, conflict: Option<(OpKind, int)>)
      requires VersionsFor(w, v)
      ensures conflict.None? ==> AllApply(Ops(w, v), before) && after == ApplyAll(Ops(w, v), before)
      ensures conflict.Some? ==>
        exists n :: RefusedAt(Ops(w, v), n, before) && conflict.value == ConflictAt(w, n)
    {
      var inserts, updates := CreateOps(w.create, v.create), ReplaceOps(w.replace, v.replace);
      var removals := DeleteOps(w.delete);
      var refused: Option<nat>;
      after, refused := ExecEach(before, inserts);
      if refused.Some? {
        RefusedInFirstPart(inserts, updates, refused.value, before);
        RefusedInFirstPart(inserts + updates, removals, refused.value, before);
        assert ConflictAt(w, refused.value) == (Creating, refused.value);
        return after, Some((Creating, refused.value));
      }
      after, refused := ExecEach(after, updates);
      if refused.Some? {
        RefusedInSecondPart(inserts, updates, refused.value, before);
        RefusedInFirstPart(inserts + updates, removals, |inserts| + refused.value, before);
        assert ConflictAt(w, |inserts| + refused.value) == (Replacing, refused.value);
        return after, Some((Replacing, refused.value));
      }
      BothPartsApply(inserts, updates, before);
      after, refused := ExecEach(after, removals);
      if refused.Some? {
        RefusedInSecondPart(inserts + updates, removals, refused.value, before);
        assert ConflictAt(w, |inserts| + |updates| + refused.value) == (Deleting, refused.value);
        return after, Some((Deleting, refused.value));
      }
      BothPartsApply(inserts + updates, removals, before);
      conflict := None;
    }

    // The rows of the events, then those of their tags.
    method InsertAll(tx: Db, events: seq<Event>) returns (r: Option<Db>)
      requires Consistent(tx)
      ensures r == InsertedRows(tx, events)
    {
      var statements;
      r, statements := ExecBatchInsert(tx, 6, EventRows(events));
      if r.None? {
        return;
      }
      var rows := BuildTagRows(Identifiers, events);
      r, statements := ExecBatchInsert(r.value, 3, rows);
      if r.None? {
        return;
      }
      rows := BuildTagRows(Metadata, events);
      r, statements := ExecBatchInsert(r.value, 3, rows);
    }

    static method FirstUntimed(events: seq<PendingEvent>) returns (untimed: Option<nat>)
      ensures untimed.None? ==> Timed(events, |events|)
      ensures untimed.Some? ==>
        untimed.value < |events| && events[untimed.value].time == 0 && Timed(events, untimed.value)
    {
      for i := 0 to |events|
        invariant Timed(events, i)
      {
        if events[i].time == 0 {
          return Some(i);
        }
      }
      untimed := None;
    }

    // The first condition that doesn't hold, unless a check breaks before it.
    method CheckConditions(tx: Db, conditions: seq<AppendCondition>, fault: Fault)
      returns (failed: Option<nat>, broken: bool)
      requires Valid() && tx == db && forall c :: c in conditions ==> EmptyTypesCovered(c.query)
      ensures broken ==> fault.AtCondition?
      ensures !broken && failed.None? ==> ConditionsHold(conditions, |conditions|, State().log)
      ensures failed.Some? ==>
        && failed.value < |conditions| && ConditionsHold(conditions, failed.value, State().log)
        && !ConditionHolds(conditions[failed.value], State().log)
    {
      for i := 0 to |conditions|
        invariant ConditionsHold(conditions, i, State().log)
      {
        if fault == AtCondition(i) {
          return None, true;
        }
        var holds := CheckCondition(tx, conditions[i]);
        if !holds {
          return Some(i), false;
        }
      }
      return None, false;
    }

    // Events stamped from the counter follow the log, and keep the tables consistent.
    static lemma StampedInserted(file: Db, tx: Db, events: seq<PendingEvent>, start: int)
      requires Consistent(file) && tx == file.(projections := tx.projections)
      requires forall e :: e in file.events ==> e.sequence < start
      ensures var stored := Stamped(events, start);
              var r := InsertedRows(tx, stored);
              && (r.Some? ==> Consistent(r.value) && r.value.events == file.events + stored
                              && r.value.projections == tx.projections && r.value.pausedAt == file.pausedAt)
              && ((forall e :: e in events ==> TagsDistinct(e.data)) ==> r.Some?)
    {
      var stored := Stamped(events, start);
      assert Ascending(file.events + stored);
      assert Consistent(tx) by {
        assert forall table :: Rows(tx, table) == Rows(file, table);
      }
      if InsertedRows(tx, stored).Some? {
        InsertedRowsConsistent(tx, stored);
        ImportAfterLast(tx.events, stored, InsertedRows(tx, stored).value.events);
      }
      if forall e :: e in events ==> TagsDistinct(e.data) {
        InsertedRowsAfterLast(tx, stored);
      }
    }

    // The events at the counter's next positions, and the commit; on an error
    // the positions are given back.
    method InsertNext(tx: Db, events: seq<PendingEvent>, fault: Fault) returns (stored: Option<seq<Event>>)
      requires Valid() && tx == db.(projections := tx.projections)
      modifies this
      ensures Valid()
      ensures stored.None? ==> State() == old(State())
      ensures stored.Some? ==> stored.value == Stamped(events, old(nextSeq))
                               && State() == old(State()).(log := old(State()).log + stored.value,
                                                           projections := tx.projections,
                                                           nextSeq := old(nextSeq) + |events|)
      ensures fault.NoFault? && (forall e :: e in events ==> TagsDistinct(e.data)) ==> stored.Some?
    {
      var start := ReserveSequences(|events|);
      if fault.AfterReserve? || fault.AtInsert? || fault.AtCommit? {
        ReleaseSequences(start);
        return None;
      }
      StampedInserted(db, tx, events, start);
      var inserted := InsertAll(tx, Stamped(events, start));
      if inserted.None? {
        ReleaseSequences(start);
        return None;
      }
      db := inserted.value;
      stored := Some(Stamped(events, start));
    }

    // One SQLite transaction: the checks, the projections, the events, the
    // commit. v are the versions it gives; fault is where it breaks, if it does.
    method Append(events: seq<PendingEvent>, conditions: seq<AppendCondition>, w: Writes, v: Versions, fault: Fault)
      returns (outcome: AppendOutcome)
      requires Valid() && VersionsFor(w, v)
      requires forall c :: c in conditions ==> EmptyTypesCovered(c.query)
      modifies this
      ensures Valid()
      ensures AppendStep(old(State()), events, conditions, w, v, State(), outcome)
      ensures fault.NoFault? && (forall e :: e in events ==> TagsDistinct(e.data)) ==> !outcome.Failed?
    {
      var untimed := FirstUntimed(events);
      if untimed.Some? {
        return NoTime(untimed.value);
      }
      if |events| == 0 && |conditions| == 0 && WritesLen(w) == 0 {
        assert State() == State().(log := State().log + []);
        return Appended([], v);
      }
      if fault.AtBegin? {
        return Failed;
      }
      var tx := db;
      var failed, broken := CheckConditions(tx, conditions, fault);
      if broken {
        return Failed;
      }
      if failed.Some? {
        return ConditionConflict(failed.value);
      }
      if fault.AtProjections? {
        return Failed;
      }
      var projections, conflict := WriteProjections(tx.projections, w, v);
      if conflict.Some? {
        return ProjectionConflict(conflict.value.0, conflict.value.1);
      }
      tx := tx.(projections := projections);
      var stored := InsertNext(tx, events, fault);
      if stored.None? {
        return Failed;
      }
      outcome := Appended(stored.value, v);
    }

    static method HighestSequence(events: seq<Event>) returns (highest: int)
      ensures highest == Highest(events)
    {
      highest := 0;
      for i := 0 to |events|
        invariant highest == Highest(events[..i])
      {
        assert events[..i + 1][..i] == events[..i];
        if events[i].sequence > highest {
          highest := events[i].sequence;
        }
      }
      assert events[..|events|] == events;
    }

    // Events with their own sequences, as the backup and the import tools
    // write them; fault is an error at the commit.
    method Import(events: seq<Event>, fault: bool) returns (ok: bool)
      requires Valid()
      modifies this
      ensures Valid()
      ensures if ok then ImportStep(old(State()), events, State()) else State() == old(State())
      ensures !fault && Ascending(old(State().log) + events) && (forall e :: e in events ==> TagsDistinct(e.data))
              ==> ok
    {
      if |events| == 0 {
        return true;
      }
      var inserted := InsertAll(db, events);
      if Ascending(db.events + events) && forall e :: e in events ==> TagsDistinct(e.data) {
        InsertedRowsAfterLast(db, events);
      }
      if inserted.None? || fault {
        return false;
      }
      InsertedRowsConsistent(db, events);
      ghost var before := State();
      var highest := HighestSequence(events);
      db := inserted.value;
      if highest + 1 > nextSeq {
        nextSeq := highest + 1;
      }
      ImportKeepsValid(before, events, State());
      ok := true;
    }

    // The tag tables first: a tag row needs its event.
    method DeleteAllEvents(fault: bool) returns (ok: bool)
      requires Valid()
      modifies this
      ensures Valid() && ok == !fault
      ensures State() == if ok then old(State()).(log := []) else old(State())
    {
      var tx := db.(identifiers := {});
      tx := tx.(metadata := {});
      tx := tx.(events := []);
      if fault {
        return false;
      }
      db := tx;
      assert forall table, r :: !Carried(table, db.events, r);
      ok := true;
    }

    method DeleteProjectionsByType(typ: string)
      requires Valid()
      modifies this
      ensures Valid()
      ensures State() == DeletedType(old(State()), typ)
      ensures forall k :: k in State().projections <==> k in old(State()).projections && k.typ != typ
    {
      db := db.(projections := map k | k in db.projections && k.typ != typ :: db.projections[k]);
    }

    method DeleteAllProjections()
      requires Valid()
      modifies this
      ensures Valid()
      ensures State() == old(State()).(projections := map[])
    {
      db := db.(projections := map[]);
    }

    // ---- The pause.

    method SetPause(at: nat, fault: bool) returns (last: Option<int>)
      requires Valid()
      modifies this
      ensures Valid()
      ensures last == if fault then None else Some(LastSequence(old(State())))
      ensures State() == if fault then old(State()) else old(State()).(pausedAt := Some(at))
    {
      if fault {
        return None;
      }
      db := db.(pausedAt := Some(at));
      pausedAt := Some(at);
      last := Some(nextSeq - 1);
    }

    method ClearPause(fault: bool) returns (ok: bool)
      requires Valid()
      modifies this
      ensures Valid() && ok == !fault
      ensures State() == if ok then old(State()).(pausedAt := None) else old(State())
    {
      if fault {
        return false;
      }
      db := db.(pausedAt := None);
      pausedAt := None;
      ok := true;
    }
  }
}
