// Who may do what: the invariants of the calls, the transactions, and the
// line, over every interleaving.
module ProtocolShape {
  import opened Wrappers
  import opened Dcb
  import opened Tables
  import opened StoreSpec
  import opened Reads
  import opened TxSpec
  import opened Net
  import opened RegistrySpec
  import opened Protocol
  import Line

  // A call may end like this: it counts its transaction at most once, and a
  // transaction that was counted leaves before the call frees it.
  predicate TailOk(todo: Todo, open: bool, counted: bool) {
    match todo
    case Release => !(open && counted)
    case End(rest) => TailOk(rest, false, counted)
    case Count(_, rest) => !counted && TailOk(rest, open, true)
  }

  ghost predicate CallOk(s: Sys, id: TxId)
    requires id in s.calls
  {
    match s.calls[id]
    case Working => id in s.reg.txs && id !in s.counted
    case InLine(ticket) =>
      && id in s.reg.txs && id !in s.counted && id in s.data
      && ticket in s.jobs && s.jobs[ticket].work == CommitWork(id, s.data[id])
    case Tail(todo) => TailOk(todo, id in s.reg.txs, id in s.counted)
  }

  // One call at a time uses a transaction, and it is busy exactly then; a
  // commit in the line keeps its transaction in the registry.
  ghost predicate CallsShaped(s: Sys) {
    && s.data.Keys == s.reg.txs.Keys
    && (forall id :: id in s.reg.txs ==> (s.reg.txs[id].busy <==> id in s.calls))
    && (forall id :: id in s.reg.txs ==> id in s.begun && id in s.seen && id in s.firstRead && id in s.made)
    && (forall id :: id in s.reg.txs && id !in s.calls ==> id !in s.counted)
    && (forall id :: id in s.counted ==> id in s.begun)
    && (forall id :: id in s.calls ==> id in s.begun && CallOk(s, id))
  }

  ghost predicate JobOk(s: Sys, ticket: nat)
    requires ticket in s.jobs
  {
    var job := s.jobs[ticket];
    && ticket in s.requests.phase && ticket < s.requests.line.next
    && (!job.stage.Unchecked? ==> s.requests.phase[ticket].HoldsTurn?)
    && (job.stage.Over? ==> job.stage.todo == COMMITTED || job.stage.todo == NOT_COMMITTED)
    && (job.work.CommitWork? ==> job.work.id in s.calls && s.calls[job.work.id] == InLine(ticket))
  }

  ghost predicate JobsShaped(s: Sys) {
    && (forall k :: k in s.requests.phase ==> k in s.jobs)
    && (forall k :: k in s.jobs ==> JobOk(s, k))
  }

  ghost predicate Shaped(s: Sys) {
    CallsShaped(s) && JobsShaped(s)
  }

  lemma InitShaped(s: Sys)
    requires Init(s)
    ensures Shaped(s)
  {
  }

  // ---- What a step leaves alone stays well shaped.

  lemma CallOkSame(s: Sys, t: Sys, id: TxId)
    requires id in s.calls && CallOk(s, id) && id in t.calls && t.calls[id] == s.calls[id]
    requires (id in t.reg.txs <==> id in s.reg.txs) && (id in t.counted <==> id in s.counted)
    requires id in s.data && s.calls[id].InLine? ==>
               id in t.data && t.data[id] == s.data[id] && s.calls[id].ticket in t.jobs
               && t.jobs[s.calls[id].ticket].work == s.jobs[s.calls[id].ticket].work
    ensures CallOk(t, id)
  {
  }

  lemma JobsSame(s: Sys, t: Sys)
    requires JobsShaped(s) && t.jobs == s.jobs && t.requests == s.requests
    requires forall id :: id in s.calls && s.calls[id].InLine? ==> id in t.calls && t.calls[id] == s.calls[id]
    ensures JobsShaped(t)
  {
    forall k | k in t.jobs ensures JobOk(t, k) {
      assert JobOk(s, k);
    }
  }

  // ---- The registry's sections.

  lemma ExpireShaped(s: Sys, now: int, limits: Limits)
    requires Shaped(s)
    ensures Shaped(Expire(s, now, limits)) && Expire(s, now, limits).calls == s.calls
  {
    var t := Expire(s, now, limits);
    forall id | id in s.calls ensures CallOk(t, id) {
      assert CallOk(s, id);
      CallOkSame(s, t, id);
    }
    JobsSame(s, t);
  }

  // A new transaction, which no call uses yet.
  ghost predicate Opened(s: Sys, t: Sys, id: TxId, state: TxState) {
    && t == s.(reg := t.reg, data := s.data[id := NEW_TX], begun := s.begun + {id}, seen := s.seen[id := []],
               firstRead := s.firstRead[id := map[]], made := s.made[id := []])
    && t.reg.txs == s.reg.txs[id := state] && t.reg.pause == s.reg.pause
  }

  ghost predicate SameTxs(s: Sys, t: Sys) {
    t == s.(reg := t.reg) && t.reg.txs == s.reg.txs && t.reg.pause == s.reg.pause
  }

  lemma BeginCases(s: Sys, id: TxId, now: int, limits: Limits)
    ensures if BeginResultOf(s.reg, limits).Begun?
            then Opened(s, BeginStep(s, id, now, limits), id, TxState(false, now))
            else SameTxs(s, BeginStep(s, id, now, limits))
  {
    AdmittedKeeps(s.reg, id, now, limits);
  }

  // A hold of the mutex after the work: the transaction is freed, ended, or
  // counted.
  ghost predicate Held(s: Sys, t: Sys, id: TxId, todo: Todo) {
    match todo
    case Release => t == s.(reg := t.reg, calls := t.calls) && t.reg.txs.Keys == s.reg.txs.Keys
    case End(_) => t == s.(reg := t.reg, data := s.data - {id}, calls := t.calls) && t.reg.txs == s.reg.txs - {id}
    case Count(stat, _) =>
      t == s.(reg := t.reg, calls := t.calls, counted := s.counted[id := stat]) && t.reg.txs == s.reg.txs
  }

  lemma SectionCases(s: Sys, id: TxId, now: int, todo: Todo)
    ensures Held(s, SectionStep(s, id, now, todo), id, todo)
  {
  }

  // A call takes its transaction, or is refused.
  ghost predicate TakenOrNot(s: Sys, t: Sys) {
    && t == s.(reg := t.reg, calls := t.calls)
    && t.reg.txs.Keys == s.reg.txs.Keys && t.reg.pause == s.reg.pause
  }

  lemma AcquireCases(s: Sys, id: TxId, intent: Intent)
    ensures TakenOrNot(s, AcquireStep(s, id, intent))
  {
    TakenKeeps(s.reg, id);
  }

  lemma OpenedShaped(s: Sys, t: Sys, id: TxId, state: TxState)
    requires Shaped(s) && id !in s.begun && !state.busy && Opened(s, t, id, state)
    ensures Shaped(t)
  {
    forall i | i in t.calls ensures CallOk(t, i) {
      CallOkSame(s, t, i);
    }
    JobsSame(s, t);
  }

  lemma CallsSame(s: Sys, t: Sys)
    requires CallsShaped(s)
    requires t.calls == s.calls && t.data == s.data && t.reg.txs == s.reg.txs
             && t.counted == s.counted && t.jobs == s.jobs
    requires t.begun == s.begun && t.seen == s.seen && t.firstRead == s.firstRead && t.made == s.made
    ensures CallsShaped(t)
  {
    forall i | i in t.calls ensures CallOk(t, i) {
      assert CallOk(s, i);
      CallOkSame(s, t, i);
    }
  }

  lemma RefusedShaped(s: Sys, t: Sys)
    requires Shaped(s) && SameTxs(s, t)
    ensures Shaped(t)
  {
    CallsSame(s, t);
    JobsSame(s, t);
  }

  lemma BeginShaped(s: Sys, id: TxId, now: int, limits: Limits)
    requires Shaped(s) && id !in s.begun
    ensures Shaped(BeginStep(s, id, now, limits))
  {
    var t := BeginStep(s, id, now, limits);
    BeginCases(s, id, now, limits);
    if BeginResultOf(s.reg, limits).Begun? {
      OpenedShaped(s, t, id, TxState(false, now));
    } else {
      RefusedShaped(s, t);
    }
  }

  lemma AcquireShaped(s: Sys, id: TxId, intent: Intent)
    requires Shaped(s)
    ensures Shaped(AcquireStep(s, id, intent))
  {
    var t := AcquireStep(s, id, intent);
    TakenKeeps(s.reg, id);
    forall i | i in t.calls ensures CallOk(t, i) {
      if i in s.calls && (i != id || !AcquireResultOf(s.reg, id).Acquired?) { CallOkSame(s, t, i); }
    }
    JobsSame(s, t);
  }

  // The last section: the call is over.
  lemma FreedShaped(s: Sys, id: TxId, now: int)
    requires Shaped(s) && id in s.calls && s.calls[id] == Tail(Release)
    ensures Shaped(SectionStep(s, id, now, Release))
  {
    var t := SectionStep(s, id, now, Release);
    assert CallOk(s, id);
    forall i | i in t.calls ensures CallOk(t, i) {
      CallOkSame(s, t, i);
    }
    JobsSame(s, t);
  }

  // A section that ends or counts the transaction: the call goes on.
  lemma TailShaped(s: Sys, t: Sys, id: TxId)
    requires Shaped(s) && id in s.calls && s.calls[id].Tail?
    requires id in t.calls && t.calls == s.calls[id := t.calls[id]] && t.calls[id].Tail? && CallOk(t, id)
    requires t.jobs == s.jobs && t.requests == s.requests && t.begun == s.begun
    requires t.seen == s.seen && t.firstRead == s.firstRead && t.made == s.made
    requires t.data.Keys == t.reg.txs.Keys
    requires forall i :: i != id ==> (i in t.reg.txs <==> i in s.reg.txs) && (i in t.data <==> i in s.data)
    requires forall i :: i != id ==> (i in t.counted <==> i in s.counted)
    requires forall i :: i in t.reg.txs ==> i in s.reg.txs && t.reg.txs[i] == s.reg.txs[i]
    requires forall i :: i in t.data ==> i in s.data && t.data[i] == s.data[i]
    ensures Shaped(t)
  {
    forall i | i in t.calls ensures CallOk(t, i) {
      if i != id { CallOkSame(s, t, i); }
    }
    JobsSame(s, t);
  }

  lemma EndedShaped(s: Sys, id: TxId, now: int, rest: Todo)
    requires Shaped(s) && id in s.calls && s.calls[id] == Tail(End(rest))
    ensures Shaped(SectionStep(s, id, now, End(rest)))
  {
    assert CallOk(s, id);
    TailShaped(s, SectionStep(s, id, now, End(rest)), id);
  }

  lemma CountedShaped(s: Sys, id: TxId, now: int, stat: Stat, rest: Todo)
    requires Shaped(s) && id in s.calls && s.calls[id] == Tail(Count(stat, rest))
    ensures Shaped(SectionStep(s, id, now, Count(stat, rest)))
  {
    assert CallOk(s, id);
    TailShaped(s, SectionStep(s, id, now, Count(stat, rest)), id);
  }

  lemma SectionShaped(s: Sys, id: TxId, now: int)
    requires Shaped(s) && id in s.calls && s.calls[id].Tail?
    ensures Shaped(SectionStep(s, id, now, s.calls[id].todo))
  {
    assert CallOk(s, id);
    match s.calls[id].todo {
      case Release => FreedShaped(s, id, now);
      case End(rest) => EndedShaped(s, id, now, rest);
      case Count(stat, rest) => CountedShaped(s, id, now, stat, rest);
    }
  }

  // ---- The work of a call.

  // The call of id moves on, with what the transaction holds; the rest of
  // the system stays as it is.
  ghost predicate MovesOn(s: Sys, t: Sys, id: TxId) {
    && id in t.calls && t.calls[id].Tail? && TailOk(t.calls[id].todo, true, false)
    && t.calls == s.calls[id := t.calls[id]]
    && id in t.data && t.data == s.data[id := t.data[id]]
    && t.reg == s.reg && t.counted == s.counted && t.begun == s.begun && t.jobs == s.jobs && t.requests == s.requests
    && t.store == s.store && t.issued == s.issued && t.epochs == s.epochs && t.writerClosed == s.writerClosed
    && t.seen.Keys == s.seen.Keys && t.firstRead.Keys == s.firstRead.Keys && t.made.Keys == s.made.Keys
  }

  lemma MovesOnShaped(s: Sys, t: Sys, id: TxId)
    requires Shaped(s) && Uses(s, id) && MovesOn(s, t, id)
    ensures Shaped(t)
  {
    assert CallOk(s, id);
    forall i | i in t.calls ensures CallOk(t, i) {
      if i != id { CallOkSame(s, t, i); }
    }
    JobsSame(s, t);
  }

  predicate WorksOn(l: Label) {
    l.ReadEvents? || l.WriteEvents? || l.GetProjection? || l.WriteProjections? || l.ReadFails?
  }

  lemma RefuseMovesOn(s: Sys, id: TxId, error: CallError)
    requires id in s.data
    ensures MovesOn(s, Refuse(s, id, error), id)
  {
  }

  lemma SucceedMovesOn(s: Sys, t: Sys, id: TxId, d: TxData)
    requires t == Succeed(s, id, d).(seen := t.seen, firstRead := t.firstRead, made := t.made)
    requires t.seen.Keys == s.seen.Keys && t.firstRead.Keys == s.firstRead.Keys && t.made.Keys == s.made.Keys
    ensures MovesOn(s, t, id)
  {
  }

  lemma TailMovesOn(s: Sys, id: TxId, todo: Todo)
    requires id in s.data && TailOk(todo, true, false)
    ensures MovesOn(s, s.(calls := s.calls[id := Tail(todo)]), id)
  {
  }

  lemma ReadEventsMovesOn(s: Sys, id: TxId, f: Filter, limits: Limits)
    requires Uses(s, id)
    ensures MovesOn(s, ReadEventsStep(s, id, f, limits), id)
  {
    match ReadRefusal(s.data[id], f, s.store.log, limits) {
      case Some(error) => RefuseMovesOn(s, id, error);
      case None =>
        var t := ReadEventsStep(s, id, f, limits);
        SucceedMovesOn(s, t, id, t.data[id]);
    }
  }

  lemma WriteEventsMovesOn(s: Sys, id: TxId, events: seq<EventData>, time: nat, limits: Limits)
    requires Uses(s, id)
    ensures MovesOn(s, WriteEventsStep(s, id, events, time, limits), id)
  {
    match WriteRefusal(s.data[id], |events|, limits) {
      case Some(error) => RefuseMovesOn(s, id, error);
      case None =>
        var t := WriteEventsStep(s, id, events, time, limits);
        SucceedMovesOn(s, t, id, t.data[id]);
    }
  }

  lemma GetProjectionMovesOn(s: Sys, id: TxId, key: Key)
    requires Uses(s, id)
    ensures MovesOn(s, GetProjectionStep(s, id, key), id)
  {
    var t := GetProjectionStep(s, id, key);
    SucceedMovesOn(s, t, id, t.data[id]);
  }

  lemma WriteProjectionsMovesOn(s: Sys, id: TxId, w: TxWrites, limits: Limits)
    requires Uses(s, id)
    ensures MovesOn(s, WriteProjectionsStep(s, id, w, limits), id)
  {
    var d := s.data[id];
    if !WritesAllowed(d, w) {
      RefuseMovesOn(s, id, DesignError);
    } else if WrittenAfter(d, w) > limits.maxProjections {
      RefuseMovesOn(s, id, TooLarge);
    } else {
      SucceedMovesOn(s, WriteProjectionsStep(s, id, w, limits), id, WithWrites(d, w));
    }
  }

  lemma WorkMovesOn(s: Sys, l: Label, t: Sys, limits: Limits)
    requires WorksOn(l) && Step(s, l, t, limits)
    ensures MovesOn(s, t, l.id)
  {
    match l {
      case ReadEvents(id, f) => ReadEventsMovesOn(s, id, f, limits);
      case WriteEvents(id, events, time) => WriteEventsMovesOn(s, id, events, time, limits);
      case GetProjection(id, key) => GetProjectionMovesOn(s, id, key);
      case WriteProjections(id, w) => WriteProjectionsMovesOn(s, id, w, limits);
      case ReadFails(id) => RefuseMovesOn(s, id, StoreError);
    }
  }

  // A commit takes its ticket: its transaction stays, busy, in the registry.
  lemma EnterLineShaped(s: Sys, t: Sys, id: TxId)
    requires Shaped(s) && Uses(s, id) && Line.JoinResultOf(s.requests.line).Ticket?
    requires var ticket := s.requests.line.next;
             t == Joined(s, CommitWork(id, s.data[id])).(calls := s.calls[id := InLine(ticket)])
    ensures Shaped(t)
  {
    var ticket := s.requests.line.next;
    assert CallOk(s, id);
    forall i | i in t.calls ensures CallOk(t, i) {
      if i != id {
        assert CallOk(s, i);
        assert s.calls[i].InLine? ==> JobOk(s, s.calls[i].ticket);
        CallOkSame(s, t, i);
      }
    }
    forall k | k in t.jobs ensures JobOk(t, k) {
      if k != ticket { assert JobOk(s, k); }
    }
  }

  lemma CommitShaped(s: Sys, id: TxId)
    requires Shaped(s) && Uses(s, id)
    ensures Shaped(CommitStep(s, id))
  {
    var d := s.data[id];
    var entered := Joined(s, CommitWork(id, d)).(calls := s.calls[id := InLine(s.requests.line.next)]);
    var over := (todo: Todo) => s.(calls := s.calls[id := Tail(todo)]);
    if d.open.Some? {
      RefuseMovesOn(s, id, DesignError);
      MovesOnShaped(s, Refuse(s, id, DesignError), id);
    } else if d.events == [] && WritesLen(NetWrites(d)) == 0 {
      TailMovesOn(s, id, COMMITTED);
      MovesOnShaped(s, over(COMMITTED), id);
    } else if Line.JoinResultOf(s.requests.line).Ticket? {
      EnterLineShaped(s, entered, id);
    } else {
      TailMovesOn(s, id, NOT_COMMITTED);
      MovesOnShaped(s, over(NOT_COMMITTED), id);
    }
  }

  // ---- The line.

  // A request that is no commit takes a ticket.
  lemma TicketShaped(s: Sys, t: Sys, work: Work)
    requires Shaped(s) && !work.CommitWork?
    requires var r, next := s.requests, s.requests.line.next;
             && t == s.(requests := t.requests, jobs := s.jobs[next := Job(work, Unchecked)])
             && t.requests.phase == r.phase[next := Line.Queued] && t.requests.line.next == next + 1
    ensures Shaped(t)
  {
    forall i | i in t.calls ensures CallOk(t, i) {
      assert CallOk(s, i);
      assert s.calls[i].InLine? ==> JobOk(s, s.calls[i].ticket);
      CallOkSame(s, t, i);
    }
    forall k | k in t.jobs ensures JobOk(t, k) {
      if k != s.requests.line.next { assert JobOk(s, k); }
    }
  }

  lemma JoinShaped(s: Sys, work: Work)
    requires Shaped(s) && !work.CommitWork?
    ensures Shaped(Joined(s, work))
  {
    if Line.JoinResultOf(s.requests.line).Ticket? {
      TicketShaped(s, Joined(s, work), work);
    }
  }

  lemma LeftShaped(s: Sys, t: Sys, ticket: nat, id: TxId)
    requires Shaped(s) && ticket in s.jobs && id in s.calls && s.calls[id] == InLine(ticket)
             && id in t.calls && CallOk(t, id)
    requires t == s.(requests := t.requests, jobs := s.jobs - {ticket}, calls := s.calls[id := t.calls[id]])
    requires t.requests.phase == s.requests.phase - {ticket} && t.requests.line.next == s.requests.line.next
    ensures Shaped(t)
  {
    forall i | i in t.calls ensures CallOk(t, i) {
      assert CallOk(s, i);
      if i != id {
        assert s.calls[i].InLine? ==> JobOk(s, s.calls[i].ticket);
        CallOkSame(s, t, i);
      }
    }
    forall k | k in t.jobs ensures JobOk(t, k) {
      assert JobOk(s, k);
    }
  }

  // A request leaves the line, by an error or once its turn is done; a
  // commit's call goes on.
  lemma LeaveShaped(s: Sys, t: Sys, ticket: nat, todo: Todo)
    requires Shaped(s) && ticket in s.jobs && TailOk(todo, true, false)
    requires t.requests.phase == s.requests.phase - {ticket} && t.requests.line.next == s.requests.line.next
    requires t == Resumed(s.(requests := t.requests, jobs := s.jobs - {ticket}), s.jobs[ticket].work, todo)
    ensures Shaped(t)
  {
    var work := s.jobs[ticket].work;
    assert JobOk(s, ticket);
    if work.CommitWork? {
      assert CallOk(s, work.id);
      LeftShaped(s, t, ticket, work.id);
    } else {
      forall i | i in t.calls ensures CallOk(t, i) {
        assert CallOk(s, i);
        CallOkSame(s, t, i);
      }
      forall k | k in t.jobs ensures JobOk(t, k) {
        assert JobOk(s, k);
      }
    }
  }

  // The request at the front gets the turn.
  lemma TurnShaped(s: Sys, t: Sys, ticket: nat)
    requires Shaped(s) && ticket in s.requests.phase
    requires t == s.(requests := t.requests)
    requires t.requests.phase == s.requests.phase[ticket := Line.HoldsTurn] && t.requests.line == s.requests.line
    ensures Shaped(t)
  {
    CallsSame(s, t);
    forall k | k in t.jobs ensures JobOk(t, k) {
      assert JobOk(s, k);
    }
  }

  lemma WakeShaped(s: Sys, ticket: nat)
    requires Shaped(s) && ticket in s.jobs && ticket in s.requests.phase && s.requests.phase[ticket].Queued?
    ensures Shaped(WakeStep(s, ticket))
  {
    var t := WakeStep(s, ticket);
    match Line.WakeResultOf(s.requests.line, ticket) {
      case KeepsWaiting =>
      case TurnedAway => LeaveShaped(s, t, ticket, NOT_COMMITTED);
      case HasTurn => TurnShaped(s, t, ticket);
    }
  }

  // A job moves to its next stage in its turn.
  lemma StageShaped(s: Sys, t: Sys, ticket: nat, stage: Stage)
    requires Shaped(s) && ticket in s.jobs && t.jobs == s.jobs[ticket := s.jobs[ticket].(stage := stage)]
    requires ticket in s.requests.phase && s.requests.phase[ticket].HoldsTurn? && t.requests == s.requests
    requires stage.Over? ==> stage.todo == COMMITTED || stage.todo == NOT_COMMITTED
    requires CallsShaped(t.(jobs := s.jobs)) && t.calls == s.calls
    ensures Shaped(t)
  {
    var u := t.(jobs := s.jobs);
    forall i | i in t.calls ensures CallOk(t, i) {
      assert CallOk(u, i);
      CallOkSame(u, t, i);
    }
    forall k | k in t.jobs ensures JobOk(t, k) {
      assert JobOk(s, k);
    }
  }

  lemma DoneShaped(s: Sys, ticket: nat)
    requires Shaped(s) && ticket in s.jobs && s.jobs[ticket].stage.Over?
    ensures Shaped(DoneStep(s, ticket))
  {
    var t := DoneStep(s, ticket);
    assert JobOk(s, ticket);
    LeaveShaped(s, t, ticket, s.jobs[ticket].stage.todo);
  }

  // Pausing and resuming change only the pause, after the idle ones left.
  lemma PauseFrame(s: Sys, work: Work, l: Label, u: Sys, limits: Limits)
    requires l.RunWork? && Worked(s, work, l, u, limits) && (work.PauseWork? || work.ResumeWork?)
    ensures var c := Expire(s, l.now, limits);
            u == c.(reg := u.reg, store := u.store) && u.reg == c.reg.(pause := u.reg.pause)
  {
  }

  // Any other work changes only the store.
  lemma StoreWorkFrame(s: Sys, work: Work, l: Label, u: Sys, limits: Limits)
    requires l.RunWork? && Worked(s, work, l, u, limits) && !work.PauseWork? && !work.ResumeWork?
    ensures u == s.(store := u.store, issued := u.issued, epochs := u.epochs)
  {
  }

  lemma WorkedCallsShaped(s: Sys, work: Work, l: Label, u: Sys, limits: Limits)
    requires Shaped(s) && l.RunWork? && Worked(s, work, l, u, limits)
    ensures CallsShaped(u) && u.calls == s.calls && u.requests == s.requests && u.jobs == s.jobs
  {
    if work.PauseWork? || work.ResumeWork? {
      PauseFrame(s, work, l, u, limits);
      ExpireShaped(s, l.now, limits);
      CallsSame(Expire(s, l.now, limits), u);
    } else {
      StoreWorkFrame(s, work, l, u, limits);
      CallsSame(s, u);
    }
  }

  lemma RunShaped(s: Sys, l: Label, t: Sys, limits: Limits)
    requires Shaped(s) && l.RunWork? && RunStep(s, l, t, limits)
    ensures Shaped(t)
  {
    var job := s.jobs[l.ticket];
    assert JobOk(s, l.ticket);
    WorkedCallsShaped(s, job.work, l, t.(jobs := s.jobs), limits);
    StageShaped(s, t, l.ticket, t.jobs[l.ticket].stage);
  }

  lemma RegistryStepShaped(s: Sys, l: Label, t: Sys, limits: Limits)
    requires Shaped(s) && (l.Begin? || l.Acquire? || l.Section?) && Step(s, l, t, limits)
    ensures Shaped(t)
  {
    ExpireShaped(s, l.now, limits);
    var c := Expire(s, l.now, limits);
    match l {
      case Begin(id, now) => BeginShaped(c, id, now, limits);
      case Acquire(id, now, intent) => AcquireShaped(c, id, intent);
      case Section(id, now) => SectionShaped(c, id, now);
    }
  }

  lemma TurnStepShaped(s: Sys, l: Label, t: Sys, limits: Limits)
    requires Shaped(s) && (l.Wake? || l.CheckClosed? || l.Done?) && Step(s, l, t, limits)
    ensures Shaped(t)
  {
    match l {
      case Wake(ticket) => WakeShaped(s, ticket);
      case CheckClosed(ticket) =>
        CallsSame(s, t.(jobs := s.jobs));
        StageShaped(s, t, ticket, t.jobs[ticket].stage);
      case Done(ticket) => DoneShaped(s, ticket);
    }
  }

  lemma CloseShaped(s: Sys, l: Label, t: Sys, limits: Limits)
    requires Shaped(s) && (l.CloseWriter? || l.CloseLine?) && Step(s, l, t, limits)
    ensures Shaped(t)
  {
    CallsSame(s, t);
    forall k | k in t.jobs ensures JobOk(t, k) {
      assert JobOk(s, k);
    }
  }

  lemma StepShaped(s: Sys, l: Label, t: Sys, limits: Limits)
    requires Shaped(s) && Step(s, l, t, limits)
    ensures Shaped(t)
  {
    if l.Begin? || l.Acquire? || l.Section? {
      RegistryStepShaped(s, l, t, limits);
    } else if WorksOn(l) {
      WorkMovesOn(s, l, t, limits);
      MovesOnShaped(s, t, l.id);
    } else if l.Commit? {
      CommitShaped(s, l.id);
    } else if l.Join? {
      JoinShaped(s, l.work);
    } else if l.Wake? || l.CheckClosed? || l.Done? {
      TurnStepShaped(s, l, t, limits);
    } else if l.RunWork? {
      RunShaped(s, l, t, limits);
    } else if l.CloseWriter? || l.CloseLine? {
      CloseShaped(s, l, t, limits);
    }
  }

  lemma {:induction false} AlwaysShaped(ss: seq<Sys>, ls: seq<Label>, limits: Limits, n: nat)
    requires Run(ss, ls, limits) && n < |ss|
    ensures Shaped(ss[n])
  {
    if n == 0 {
      InitShaped(ss[0]);
    } else {
      AlwaysShaped(ss, ls, limits, n - 1);
      StepShaped(ss[n - 1], ls[n - 1], ss[n], limits);
    }
  }

  lemma RefusedStep(s: Sys, id: TxId, now: nat, intent: Intent, t: Sys, limits: Limits)
    requires Shaped(s) && Step(s, Acquire(id, now, intent), t, limits)
    requires id in s.calls || id !in s.reg.txs
    ensures t == Expire(s, now, limits).(reg := t.reg) && t.reg.txs == Expire(s, now, limits).reg.txs
    ensures id in s.data && id in s.reg.txs ==> id in t.data && t.data[id] == s.data[id]
  {
  }

  // In every run: a call on a transaction that another call is using, or that
  // has left, changes nothing but the counters and the idle transactions.
  lemma RefusedCallChangesNothing(ss: seq<Sys>, ls: seq<Label>, limits: Limits, n: nat)
    requires Run(ss, ls, limits) && n < |ls| && ls[n].Acquire?
    requires ls[n].id in ss[n].calls || ls[n].id !in ss[n].reg.txs
    ensures var c := Expire(ss[n], ls[n].now, limits);
            ss[n + 1] == c.(reg := ss[n + 1].reg) && ss[n + 1].reg.txs == c.reg.txs
    ensures ls[n].id in ss[n].data ==> ls[n].id in ss[n + 1].data && ss[n + 1].data[ls[n].id] == ss[n].data[ls[n].id]
  {
    AlwaysShaped(ss, ls, limits, n);
    RefusedStep(ss[n], ls[n].id, ls[n].now, ls[n].intent, ss[n + 1], limits);
  }
}
