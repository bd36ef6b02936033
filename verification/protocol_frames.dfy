// What each kind of step leaves alone.
module ProtocolFrames {
  import opened Wrappers
  import opened TxSpec
  import opened RegistrySpec
  import opened Protocol
  import opened ProtocolShape
  import Line

  // Nothing was written.
  ghost predicate SameStore(s: Sys, t: Sys) {
    t.store == s.store && t.issued == s.issued && t.epochs == s.epochs
  }

  ghost predicate SameLine(s: Sys, t: Sys) {
    t.requests == s.requests && t.jobs == s.jobs && t.writerClosed == s.writerClosed
  }

  // The pause stays as it is, and lets nothing new in.
  ghost predicate SamePause(s: Sys, t: Sys) {
    t.reg.pause == s.reg.pause && (s.reg.pause != Running ==> t.reg.txs.Keys <= s.reg.txs.Keys)
  }

  ghost predicate SameTransactions(s: Sys, t: Sys) {
    && t.reg == s.reg && t.data == s.data && t.begun == s.begun && t.counted == s.counted
    && t.seen == s.seen && t.firstRead == s.firstRead && t.made == s.made
  }

  predicate OfRegistry(l: Label) { l.Begin? || l.Acquire? || l.Section? }

  predicate OfLine(l: Label) { l.Join? || l.Wake? || l.CheckClosed? || l.Done? || l.CloseWriter? || l.CloseLine? }

  ghost predicate RegistryOnly(s: Sys, t: Sys) {
    SameStore(s, t) && SameLine(s, t) && SamePause(s, t)
  }

  lemma ExpireFrame(s: Sys, now: int, limits: Limits)
    ensures RegistryOnly(s, Expire(s, now, limits))
  {
  }

  lemma BeginFrame(s: Sys, id: TxId, now: int, limits: Limits)
    ensures RegistryOnly(s, BeginStep(s, id, now, limits))
  {
    AdmittedKeeps(s.reg, id, now, limits);
  }

  lemma AcquireFrame(s: Sys, id: TxId, intent: Intent)
    ensures RegistryOnly(s, AcquireStep(s, id, intent))
  {
    TakenKeeps(s.reg, id);
  }

  lemma SectionFrame(s: Sys, id: TxId, now: int, todo: Todo)
    ensures RegistryOnly(s, SectionStep(s, id, now, todo))
  {
  }

  lemma FramesJoin(s: Sys, c: Sys, t: Sys)
    requires RegistryOnly(s, c) && RegistryOnly(c, t)
    ensures RegistryOnly(s, t)
  {
  }

  lemma RegistryFrame(s: Sys, l: Label, t: Sys, limits: Limits)
    requires OfRegistry(l) && Step(s, l, t, limits)
    ensures RegistryOnly(s, t)
  {
    var c := Expire(s, l.now, limits);
    ExpireFrame(s, l.now, limits);
    match l {
      case Begin(id, now) => BeginFrame(c, id, now, limits);
      case Acquire(id, now, intent) => AcquireFrame(c, id, intent);
      case Section(id, now) => SectionFrame(c, id, now, s.calls[id].todo);
    }
    FramesJoin(s, c, t);
  }

  lemma JoinedIs(s: Sys, work: Work)
    ensures Joined(s, work) == s.(requests := Joined(s, work).requests, jobs := Joined(s, work).jobs)
  {
  }

  lemma JoinedFrame(s: Sys, work: Work)
    ensures var t := Joined(s, work);
            SameStore(s, t) && SameTransactions(s, t) && t.calls == s.calls && t.writerClosed == s.writerClosed
  {
    JoinedIs(s, work);
  }

  // A step on the line touches only the line, and the calls behind it.
  ghost predicate LineOnly(s: Sys, t: Sys) {
    t == s.(requests := t.requests, jobs := t.jobs, calls := t.calls)
  }

  // The call went on at once, or its commit took a ticket.
  ghost predicate CommitsOrJoins(s: Sys, id: TxId, t: Sys)
    requires id in s.data
  {
    var u := Joined(s, CommitWork(id, s.data[id]));
    || t == s.(calls := t.calls)
    || (s.data[id].open.None? && Line.JoinResultOf(s.requests.line).Ticket? && t == u.(calls := t.calls))
  }

  lemma CommitCases(s: Sys, id: TxId)
    requires id in s.data
    ensures CommitsOrJoins(s, id, CommitStep(s, id))
  {
  }

  lemma CommitIs(s: Sys, id: TxId)
    requires id in s.data
    ensures LineOnly(s, CommitStep(s, id))
  {
    CommitCases(s, id);
    JoinedIs(s, CommitWork(id, s.data[id]));
  }

  // A commit takes at most one ticket, and none with a read open.
  lemma CommitJobs(s: Sys, id: TxId)
    requires id in s.data
    ensures var t := CommitStep(s, id);
            || t.jobs == s.jobs
            || (s.data[id].open.None?
                && t.jobs == s.jobs[s.requests.line.next := Job(CommitWork(id, s.data[id]), Unchecked)])
  {
    CommitCases(s, id);
  }

  lemma CommitFrame(s: Sys, id: TxId)
    requires id in s.data
    ensures var t := CommitStep(s, id);
            SameStore(s, t) && SameTransactions(s, t) && t.writerClosed == s.writerClosed
  {
    CommitIs(s, id);
  }

  lemma ResumedIs(s: Sys, work: Work, todo: Todo)
    ensures Resumed(s, work, todo) == s.(calls := Resumed(s, work, todo).calls)
  {
  }

  lemma LineOnlyFrame(s: Sys, t: Sys)
    requires LineOnly(s, t)
    ensures SameStore(s, t) && SameTransactions(s, t) && t.writerClosed == s.writerClosed
  {
  }

  lemma WakeIs(s: Sys, ticket: nat)
    requires ticket in s.jobs && ticket in s.requests.phase
    ensures LineOnly(s, WakeStep(s, ticket))
  {
    var r := s.requests;
    ResumedIs(s.(requests := r.(phase := r.phase - {ticket}), jobs := s.jobs - {ticket}),
              s.jobs[ticket].work, NOT_COMMITTED);
  }

  lemma WakeFrame(s: Sys, ticket: nat)
    requires ticket in s.jobs && ticket in s.requests.phase
    ensures var t := WakeStep(s, ticket);
            SameStore(s, t) && SameTransactions(s, t) && t.writerClosed == s.writerClosed
  {
    WakeIs(s, ticket);
    LineOnlyFrame(s, WakeStep(s, ticket));
  }

  lemma DoneFrame(s: Sys, ticket: nat)
    requires ticket in s.jobs && s.jobs[ticket].stage.Over?
    ensures var t := DoneStep(s, ticket);
            SameStore(s, t) && SameTransactions(s, t) && t.writerClosed == s.writerClosed
  {
    var r := s.requests;
    var left := s.(requests := Line.Requests(Line.AfterDone(r.line), r.phase - {ticket}, r.turns),
                  jobs := s.jobs - {ticket});
    ResumedIs(left, s.jobs[ticket].work, s.jobs[ticket].stage.todo);
    LineOnlyFrame(s, DoneStep(s, ticket));
  }

  lemma LineFrame(s: Sys, l: Label, t: Sys, limits: Limits)
    requires OfLine(l) && Step(s, l, t, limits)
    ensures SameStore(s, t) && SameTransactions(s, t)
    ensures s.writerClosed ==> t.writerClosed
  {
    match l {
      case Join(work) => JoinedFrame(s, work);
      case Wake(ticket) => WakeFrame(s, ticket);
      case Done(ticket) => DoneFrame(s, ticket);
      case CheckClosed(_) =>
      case CloseWriter =>
      case CloseLine =>
    }
  }

  ghost predicate CallsAlone(s: Sys, t: Sys) {
    && t.requests == s.requests && t.writerClosed == s.writerClosed && t.calls == s.calls
    && t.seen == s.seen && t.firstRead == s.firstRead && t.made == s.made && t.begun == s.begun
    && forall id :: id in t.data ==> id in s.data && t.data[id] == s.data[id]
  }

  lemma WorkedFrame(s: Sys, work: Work, l: Label, u: Sys, limits: Limits)
    requires l.RunWork? && Worked(s, work, l, u, limits)
    ensures CallsAlone(s, u) && u.jobs == s.jobs
  {
    if work.PauseWork? || work.ResumeWork? {
      PauseFrame(s, work, l, u, limits);
    } else {
      StoreWorkFrame(s, work, l, u, limits);
    }
  }

  // The work of a turn is on the store and the registry only.
  lemma RunFrame(s: Sys, l: Label, t: Sys, limits: Limits)
    requires l.RunWork? && RunStep(s, l, t, limits)
    ensures CallsAlone(s, t)
  {
    WorkedFrame(s, s.jobs[l.ticket].work, l, t.(jobs := s.jobs), limits);
  }

  // Only the work of a turn writes, pauses, or resumes.
  lemma OnlyTurnsWrite(s: Sys, l: Label, t: Sys, limits: Limits)
    requires Step(s, l, t, limits) && !l.RunWork? && !l.Restart?
    ensures SameStore(s, t) && SamePause(s, t)
  {
    if OfRegistry(l) {
      RegistryFrame(s, l, t, limits);
    } else if WorksOn(l) {
      WorkMovesOn(s, l, t, limits);
    } else if l.Commit? {
      CommitFrame(s, l.id);
    } else {
      LineFrame(s, l, t, limits);
    }
  }
}
