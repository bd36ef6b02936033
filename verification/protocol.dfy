// The transactions, the pause, and the line running together. A step is one
// hold of a mutex, one read of the store, or the work of one turn; calls
// interleave step by step, and the process can restart at any moment.
module Protocol {
  import opened Wrappers
  import opened Lists
  import opened Dcb
  import opened Tables
  import opened StoreSpec
  import opened Reads
  import opened TxSpec
  import opened Net
  import opened RegistrySpec
  import Registry
  import Line

  // What is left of a call after its work: the holds of the registry's mutex
  // still to come, the last of which makes the transaction free again.
  datatype Todo = Release | End(rest: Todo) | Count(stat: Stat, rest: Todo)

  // Where a call on a transaction is.
  datatype Call = Working | InLine(ticket: nat) | Tail(todo: Todo)

  // What a request does in its turn.
  datatype Work =
    | CommitWork(id: TxId, data: TxData)
    | ProjectionsWork(w: Writes)
    | DeleteTypeWork(typ: string)
    | DeleteProjectionsWork
    | DeleteEventsWork  // dev mode only
    | OptimizeWork
    | PauseWork
    | ResumeWork

  // In its turn: before the writer's closed check, after it, or over, with
  // what a commit's call still has to do.
  datatype Stage = Unchecked | Cleared | Over(todo: Todo)

  datatype Job = Job(work: Work, stage: Stage)

  // History: what a read sent, how many events the log held and how many were
  // pending before it, and the events of its decision once written.
  datatype Observation = Observation(
    filter: Filter, position: int, sent: seq<Reads.Line>, at: nat, before: nat, written: Option<seq<PendingEvent>>)

  datatype Sys = Sys(
    store: StoreState,
    reg: RegState,
    data: map<TxId, TxData>,
    calls: map<TxId, Call>,
    requests: Line.Requests,
    jobs: map<nat, Job>,
    writerClosed: bool,
    // History, which no step reads: the transactions begun, the one count
    // each got, what their reads saw, what they did to projections, the
    // versions ever given, and how often each projection was written or
    // deleted, now and at each first read.
    begun: set<TxId>,
    counted: map<TxId, Stat>,
    seen: map<TxId, seq<Observation>>,
    issued: set<string>,
    epochs: map<Key, nat>,
    firstRead: map<TxId, map<Key, nat>>,
    made: map<TxId, seq<ProjectionCall>>)

  datatype Intent = Use | AbandonIt | RejectIt(design: bool)

  datatype Label =
    | Begin(id: TxId, now: nat)
    | Acquire(id: TxId, now: nat, intent: Intent)
    // The request has validated its query, so no item's list of types is both
    // present and empty: the store's SQL and Matches then read it alike (see
    // QueryReadingsAgree in sql.dfy).
    | ReadEvents(id: TxId, filter: Filter)
    | WriteEvents(id: TxId, events: seq<EventData>, time: nat)
    | GetProjection(id: TxId, key: Key)
    | WriteProjections(id: TxId, w: TxWrites)
    | ReadFails(id: TxId)
    | Commit(id: TxId)
    | Section(id: TxId, now: nat)
    | Join(work: Work)
    | Wake(ticket: nat)
    | CheckClosed(ticket: nat)
    | RunWork(ticket: nat, now: nat, versions: Versions, outcome: AppendOutcome)
    | Done(ticket: nat)
    | CloseWriter
    | CloseLine
    | Restart

  // ---- Registry sections.

  // Every hold of the registry's mutex first ends the idle transactions.
  function Expire(s: Sys, now: int, limits: Limits): Sys {
    var idle := IdleIds(s.reg, now, limits);
    s.(reg := Cleaned(s.reg, now, limits), data := s.data - idle, counted := s.counted + map id | id in idle :: Expired)
  }

  function BeginStep(s: Sys, id: TxId, now: int, limits: Limits): Sys {
    if BeginResultOf(s.reg, limits).Begun? then
      s.(reg := Admitted(s.reg, id, now, limits), data := s.data[id := NEW_TX], begun := s.begun + {id},
         seen := s.seen[id := []], firstRead := s.firstRead[id := map[]], made := s.made[id := []])
    else s.(reg := Admitted(s.reg, id, now, limits))
  }

  function FirstCall(intent: Intent): Call {
    match intent
    case Use => Working
    case AbandonIt => Tail(End(Count(Abandoned, Release)))
    case RejectIt(design) => Tail(End(if design then Count(DesignErrors, Release) else Release))
  }

  function AcquireStep(s: Sys, id: TxId, intent: Intent): Sys {
    if AcquireResultOf(s.reg, id).Acquired? then s.(reg := Taken(s.reg, id), calls := s.calls[id := FirstCall(intent)])
    else s.(reg := Taken(s.reg, id))
  }

  function SectionStep(s: Sys, id: TxId, now: int, todo: Todo): Sys {
    match todo
    case Release => s.(reg := Freed(s.reg, id, now), calls := s.calls - {id})
    case End(rest) => s.(reg := Ended(s.reg, id), data := s.data - {id}, calls := s.calls[id := Tail(rest)])
    case Count(stat, rest) =>
      s.(reg := Tallied(s.reg, stat), calls := s.calls[id := Tail(rest)], counted := s.counted[id := stat])
  }

  // ---- The work of a call between two sections.

  function AfterError(error: CallError): Call {
    Tail(End(if error.DesignError? then Count(DesignErrors, Release) else Release))
  }

  function Refuse(s: Sys, id: TxId, error: CallError): Sys {
    s.(calls := s.calls[id := AfterError(error)])
  }

  function Succeed(s: Sys, id: TxId, d: TxData): Sys {
    s.(calls := s.calls[id := Tail(Release)], data := s.data[id := d])
  }

  function ReadEventsStep(s: Sys, id: TxId, f: Filter, limits: Limits): Sys
    requires id in s.data && id in s.seen
  {
    var d, log := s.data[id], s.store.log;
    match ReadRefusal(d, f, log, limits)
    case Some(error) => Refuse(s, id, error)
    case None =>
      Succeed(s, id, WithEventsRead(d, f, log))
        .(seen := s.seen[id := s.seen[id] + [
            Observation(f, SnapshotPosition(f.query, log), FullRead(f, log, d.events), |log|, |d.events|, None)]])
  }

  // The last read's decision wrote these events.
  function LastWritten(seen: seq<Observation>, events: seq<PendingEvent>): seq<Observation> {
    if seen == [] then [] else seen[|seen| - 1 := seen[|seen| - 1].(written := Some(events))]
  }

  function WriteEventsStep(s: Sys, id: TxId, events: seq<EventData>, time: nat, limits: Limits): Sys
    requires id in s.data && id in s.seen
  {
    match WriteRefusal(s.data[id], |events|, limits)
    case Some(error) => Refuse(s, id, error)
    case None =>
      Succeed(s, id, WithEventsWritten(s.data[id], events, time))
        .(seen := s.seen[id := LastWritten(s.seen[id], PendingAt(events, time))])
  }

  function Row(p: map<Key, ProjectionRow>, key: Key): Option<ProjectionRow> {
    if key in p then Some(p[key]) else None
  }

  function Epoch(s: Sys, key: Key): nat {
    if key in s.epochs then s.epochs[key] else 0
  }

  function GetProjectionStep(s: Sys, id: TxId, key: Key): Sys
    requires id in s.data && id in s.firstRead && id in s.made
  {
    var d, row := s.data[id], Row(s.store.projections, key);
    var t := Succeed(s, id, WithRead(d, key, row)).(made := s.made[id := s.made[id] + [Get(key, row)]]);
    if key in d.projections then t
    else
      var epochs: map<Key, nat> := s.firstRead[id][key := Epoch(s, key)];
      t.(firstRead := s.firstRead[id := epochs])
  }

  ghost function WriteProjectionsStep(s: Sys, id: TxId, w: TxWrites, limits: Limits): Sys
    requires id in s.data && id in s.made
  {
    var d := s.data[id];
    if !WritesAllowed(d, w) then Refuse(s, id, DesignError)
    else if WrittenAfter(d, w) > limits.maxProjections then Refuse(s, id, TooLarge)
    else Succeed(s, id, WithWrites(d, w)).(made := s.made[id := s.made[id] + [Write(w)]])
  }

  const COMMITTED: Todo := Count(RegistrySpec.Committed, End(Release))
  const NOT_COMMITTED: Todo := End(End(Release))

  // A request takes a ticket, or is refused at once.
  function Joined(s: Sys, work: Work): Sys {
    var line := s.requests.line;
    if Line.JoinResultOf(line).Ticket? then
      s.(requests := Line.Requests(Line.AfterJoin(line), s.requests.phase[line.next := Line.Queued], s.requests.turns),
         jobs := s.jobs[line.next := Job(work, Unchecked)])
    else s
  }

  // A commit with nothing to write is over at once; any other joins the line.
  function CommitStep(s: Sys, id: TxId): Sys
    requires id in s.data
  {
    var d := s.data[id];
    if d.open.Some? then Refuse(s, id, DesignError)
    else if d.events == [] && WritesLen(NetWrites(d)) == 0 then s.(calls := s.calls[id := Tail(COMMITTED)])
    else if Line.JoinResultOf(s.requests.line).Ticket? then
      Joined(s, CommitWork(id, d)).(calls := s.calls[id := InLine(s.requests.line.next)])
    else s.(calls := s.calls[id := Tail(NOT_COMMITTED)])
  }

  // ---- The line and the turn.

  // The call of a commit goes on with todo; other requests are just over.
  function Resumed(s: Sys, work: Work, todo: Todo): Sys {
    if work.CommitWork? then s.(calls := s.calls[work.id := Tail(todo)]) else s
  }

  function WakeStep(s: Sys, ticket: nat): Sys
    requires ticket in s.jobs && ticket in s.requests.phase
  {
    var r := s.requests;
    match Line.WakeResultOf(r.line, ticket)
    case KeepsWaiting => s
    case HasTurn => s.(requests := r.(phase := r.phase[ticket := Line.HoldsTurn], turns := r.turns + [ticket]))
    case TurnedAway =>
      Resumed(s.(requests := r.(phase := r.phase - {ticket}), jobs := s.jobs - {ticket}),
              s.jobs[ticket].work, NOT_COMMITTED)
  }

  function CheckClosedStep(s: Sys, ticket: nat): Sys
    requires ticket in s.jobs
  {
    s.(jobs := s.jobs[ticket := s.jobs[ticket].(stage := if s.writerClosed then Over(NOT_COMMITTED) else Cleared)])
  }

  function DoneStep(s: Sys, ticket: nat): Sys
    requires ticket in s.jobs && s.jobs[ticket].stage.Over?
  {
    var r := s.requests;
    Resumed(s.(requests := Line.Requests(Line.AfterDone(r.line), r.phase - {ticket}, r.turns),
               jobs := s.jobs - {ticket}),
            s.jobs[ticket].work, s.jobs[ticket].stage.todo)
  }

  // ---- Work in a turn.

  function VersionSet(v: Versions): set<string> {
    Elements(v.create) + Elements(v.replace)
  }

  // New versions: never given before, and all different.
  ghost predicate FreshVersions(v: Versions, issued: set<string>) {
    VersionSet(v) !! issued && Distinct(v.create + v.replace)
  }

  // One more write or deletion of each of these projections.
  function Bumped(s: Sys, keys: set<Key>): map<Key, nat> {
    map k | k in s.epochs.Keys + keys :: if k in keys then Epoch(s, k) + 1 else Epoch(s, k)
  }

  ghost predicate AppendWork(s: Sys, events: seq<PendingEvent>, conditions: seq<AppendCondition>, w: Writes,
                             v: Versions, outcome: AppendOutcome, t: Sys) {
    && VersionsFor(w, v) && FreshVersions(v, s.issued)
    && AppendStep(s.store, events, conditions, w, v, t.store, outcome)
    && t == s.(store := t.store,
               issued := s.issued + VersionSet(v),
               epochs := if outcome.Appended? then Bumped(s, set i | 0 <= i < WritesLen(w) :: Ops(w, v)[i].key)
                         else s.epochs)
  }

  // The work itself; a work that fails may leave the store as it was.
  ghost predicate Worked(s: Sys, work: Work, l: Label, t: Sys, limits: Limits)
    requires l.RunWork?
  {
    match work
    case CommitWork(_, d) => AppendWork(s, d.events, d.conditions, NetWrites(d), l.versions, l.outcome, t)
    case ProjectionsWork(w) => AppendWork(s, [], [], w, l.versions, l.outcome, t)
    case DeleteTypeWork(typ) =>
      t == s || t == s.(store := DeletedType(s.store, typ),
                        epochs := Bumped(s, set k | k in s.store.projections && k.typ == typ))
    case DeleteProjectionsWork =>
      t == s || t == s.(store := s.store.(projections := map[]), epochs := Bumped(s, s.store.projections.Keys))
    case DeleteEventsWork => t == s || t == s.(store := s.store.(log := []))
    case OptimizeWork => t == s
    case PauseWork =>
      var c := Expire(s, l.now, limits);
      && t == c.(reg := t.reg, store := t.store)
      && exists last, open :: Registry.PauseStep(c.reg, c.store, l.now, t.reg, t.store, last, open)
    case ResumeWork =>
      var c := Expire(s, l.now, limits);
      && t == c.(reg := t.reg, store := t.store)
      && Registry.ResumeStep(c.reg, c.store, t.reg, t.store)
  }

  ghost predicate RunStep(s: Sys, l: Label, t: Sys, limits: Limits)
    requires l.RunWork?
  {
    && l.ticket in s.jobs && s.jobs[l.ticket].stage == Cleared
    && var job := s.jobs[l.ticket];
       var todo := if l.outcome.Appended? then COMMITTED else NOT_COMMITTED;
       && l.ticket in t.jobs
       && t.jobs == s.jobs[l.ticket := job.(stage := Over(todo))]
       && Worked(s, job.work, l, t.(jobs := s.jobs), limits)
  }

  // ---- The step relation.

  function Restarted(s: Sys): Sys {
    Sys(Reopened(s.store),
        RegState(map[], NO_STATS, if s.store.pausedAt.Some? then Paused else Running),
        map[], map[], Line.Requests(Line.Line(0, 0, false, s.requests.line.maxQueued), map[], []), map[], false,
        {}, map[], map[], s.issued, s.epochs, map[], map[])
  }

  // A call is at work on the transaction, which is then open (see Shaped).
  predicate Uses(s: Sys, id: TxId) {
    && id in s.calls && s.calls[id].Working?
    && id in s.data && id in s.seen && id in s.firstRead && id in s.made
  }

  ghost predicate Step(s: Sys, l: Label, t: Sys, limits: Limits) {
    match l
    case Begin(id, now) => id !in s.begun && t == BeginStep(Expire(s, now, limits), id, now, limits)
    case Acquire(id, now, intent) => t == AcquireStep(Expire(s, now, limits), id, intent)
    case ReadEvents(id, f) => Uses(s, id) && t == ReadEventsStep(s, id, f, limits)
    case WriteEvents(id, events, time) => Uses(s, id) && t == WriteEventsStep(s, id, events, time, limits)
    case GetProjection(id, key) => Uses(s, id) && t == GetProjectionStep(s, id, key)
    case WriteProjections(id, w) => Uses(s, id) && t == WriteProjectionsStep(s, id, w, limits)
    case ReadFails(id) => Uses(s, id) && t == Refuse(s, id, StoreError)
    case Commit(id) => Uses(s, id) && t == CommitStep(s, id)
    case Section(id, now) =>
      id in s.calls && s.calls[id].Tail? && t == SectionStep(Expire(s, now, limits), id, now, s.calls[id].todo)
    case Join(work) => !work.CommitWork? && t == Joined(s, work)
    case Wake(ticket) =>
      ticket in s.jobs && ticket in s.requests.phase && s.requests.phase[ticket].Queued? && t == WakeStep(s, ticket)
    case CheckClosed(ticket) =>
      && ticket in s.jobs && s.jobs[ticket].stage.Unchecked?
      && ticket in s.requests.phase && s.requests.phase[ticket].HoldsTurn? && t == CheckClosedStep(s, ticket)
    case RunWork(ticket, _, _, _) => RunStep(s, l, t, limits)
    case Done(ticket) => ticket in s.jobs && s.jobs[ticket].stage.Over? && t == DoneStep(s, ticket)
    case CloseWriter => t == s.(writerClosed := true)
    case CloseLine => t == s.(requests := s.requests.(line := Line.AfterClose(s.requests.line)))
    case Restart => t == Restarted(s)
  }

  // A process starts on any file its store could have left.
  ghost predicate Init(s: Sys) {
    && s.reg == RegState(map[], NO_STATS, if s.store.pausedAt.Some? then Paused else Running)
    && s.data == map[] && s.calls == map[] && s.jobs == map[] && !s.writerClosed
    && Line.Start(s.requests) && !s.requests.line.closed
    && s.begun == {} && s.counted == map[] && s.seen == map[] && s.firstRead == map[] && s.made == map[]
    && s.store.nextSeq == MaxSequence(s.store.log) + 1
    && Ascending(s.store.log) && (forall e :: e in s.store.log ==> e.sequence >= 1)
    && (forall k :: k in s.store.projections ==> s.store.projections[k].version in s.issued)
  }

  ghost predicate Run(ss: seq<Sys>, ls: seq<Label>, limits: Limits) {
    && |ss| == |ls| + 1 && Init(ss[0])
    && forall i {:trigger ls[i]} :: 0 <= i < |ls| ==> Step(ss[i], ls[i], ss[i + 1], limits)
  }

  // The step deletes the log: dev mode's DELETE /events.
  predicate DeletesLog(s: Sys, l: Label) {
    l.RunWork? && l.ticket in s.jobs && s.jobs[l.ticket].work.DeleteEventsWork?
  }

  predicate RunsCommit(s: Sys, l: Label) {
    l.RunWork? && l.ticket in s.jobs && s.jobs[l.ticket].work.CommitWork?
  }

  predicate Commits(s: Sys, l: Label) {
    RunsCommit(s, l) && l.outcome.Appended?
  }

  predicate RequestsPause(s: Sys, l: Label) {
    l.RunWork? && l.ticket in s.jobs && s.jobs[l.ticket].work.PauseWork?
  }

  predicate ResumesPause(s: Sys, l: Label) {
    l.RunWork? && l.ticket in s.jobs && s.jobs[l.ticket].work.ResumeWork?
  }

  ghost predicate AppendOnly(ss: seq<Sys>, ls: seq<Label>)
    requires |ss| == |ls| + 1
  {
    forall i {:trigger ls[i]} :: 0 <= i < |ls| ==> !DeletesLog(ss[i], ls[i])
  }
}
