// The line serves the protocol: turns go in ticket order, the work of one
// request runs at a time, and a closed writer starts nothing new.
module ProtocolLine {
  import opened StoreSpec
  import opened TxSpec
  import opened Net
  import opened RegistrySpec
  import opened Protocol
  import opened ProtocolShape
  import opened ProtocolFrames
  import Line

  lemma JoinedOrdered(s: Sys, work: Work)
    requires Line.InOrder(s.requests)
    ensures Line.InOrder(Joined(s, work).requests)
  {
    Line.StepKeepsOrder(s.requests, Line.Join, Joined(s, work).requests);
  }

  lemma CommitOrdered(s: Sys, id: TxId)
    requires Line.InOrder(s.requests) && id in s.data
    ensures Line.InOrder(CommitStep(s, id).requests)
  {
    CommitCases(s, id);
    JoinedOrdered(s, CommitWork(id, s.data[id]));
  }

  lemma WakeOrdered(s: Sys, ticket: nat)
    requires Line.InOrder(s.requests) && ticket in s.jobs && ticket in s.requests.phase
             && s.requests.phase[ticket].Queued?
    ensures Line.InOrder(WakeStep(s, ticket).requests)
  {
    Line.StepKeepsOrder(s.requests, Line.Wake(ticket), WakeStep(s, ticket).requests);
  }

  lemma DoneOrdered(s: Sys, ticket: nat)
    requires Line.InOrder(s.requests) && Shaped(s) && ticket in s.jobs && s.jobs[ticket].stage.Over?
    ensures Line.InOrder(DoneStep(s, ticket).requests)
  {
    assert JobOk(s, ticket);
    Line.StepKeepsOrder(s.requests, Line.Done(ticket), DoneStep(s, ticket).requests);
  }

  lemma LineStepOrdered(s: Sys, l: Label, t: Sys, limits: Limits)
    requires Shaped(s) && Line.InOrder(s.requests) && OfLine(l) && Step(s, l, t, limits)
    ensures Line.InOrder(t.requests)
  {
    match l {
      case Join(work) => JoinedOrdered(s, work);
      case Wake(ticket) => WakeOrdered(s, ticket);
      case Done(ticket) => DoneOrdered(s, ticket);
      case CloseLine => Line.StepKeepsOrder(s.requests, Line.Close, t.requests);
      case CheckClosed(_) =>
      case CloseWriter =>
    }
  }

  lemma NextIsFree(s: Sys)
    requires JobsShaped(s)
    ensures s.requests.line.next !in s.jobs
  {
    assert s.requests.line.next in s.jobs ==> JobOk(s, s.requests.line.next);
  }

  // Every step is a step of the line, leaves it alone, or starts it anew.
  lemma StepOrdered(s: Sys, l: Label, t: Sys, limits: Limits)
    requires Shaped(s) && Line.InOrder(s.requests) && Step(s, l, t, limits)
    ensures Line.InOrder(t.requests)
  {
    if OfRegistry(l) {
      RegistryFrame(s, l, t, limits);
    } else if WorksOn(l) {
      WorkMovesOn(s, l, t, limits);
    } else if l.Commit? {
      CommitOrdered(s, l.id);
    } else if l.RunWork? {
      RunFrame(s, l, t, limits);
    } else if OfLine(l) {
      LineStepOrdered(s, l, t, limits);
    }
  }

  lemma {:induction false} AlwaysOrdered(ss: seq<Sys>, ls: seq<Label>, limits: Limits, n: nat)
    requires Run(ss, ls, limits) && n < |ss|
    ensures Line.InOrder(ss[n].requests)
  {
    if n > 0 {
      AlwaysOrdered(ss, ls, limits, n - 1);
      AlwaysShaped(ss, ls, limits, n - 1);
      StepOrdered(ss[n - 1], ls[n - 1], ss[n], limits);
    }
  }

  // In every run: a request that joins gets a ticket if and only if the line
  // is open and, with a cap, holds no more requests than the cap.
  lemma JoinsWhileRoom(ss: seq<Sys>, ls: seq<Label>, limits: Limits, n: nat)
    requires Run(ss, ls, limits) && n < |ls| && ls[n].Join?
    ensures var s, t := ss[n], ss[n + 1];
            if Line.HasRoom(s.requests) then
              && t.requests.phase == s.requests.phase[s.requests.line.next := Line.Queued]
              && t.jobs == s.jobs[s.requests.line.next := Job(ls[n].work, Unchecked)]
              && s.requests.line.next !in s.jobs
            else t == s
  {
    AlwaysOrdered(ss, ls, limits, n);
    AlwaysShaped(ss, ls, limits, n);
    Line.RoomByRequests(ss[n].requests);
    NextIsFree(ss[n]);
    assert Step(ss[n], ls[n], ss[n + 1], limits);
  }

  // The same of a commit with something to write and no read open: it takes
  // its ticket, or is not committed.
  lemma CommitJoinsWhileRoom(ss: seq<Sys>, ls: seq<Label>, limits: Limits, n: nat)
    requires Run(ss, ls, limits) && n < |ls| && ls[n].Commit? && ls[n].id in ss[n].data
    requires var d := ss[n].data[ls[n].id]; d.open.None? && (d.events != [] || WritesLen(NetWrites(d)) > 0)
    ensures var s, t, id := ss[n], ss[n + 1], ls[n].id;
            if Line.HasRoom(s.requests) then
              && t.requests.phase == s.requests.phase[s.requests.line.next := Line.Queued]
              && t.calls == s.calls[id := InLine(s.requests.line.next)]
              && t.jobs == s.jobs[s.requests.line.next := Job(CommitWork(id, s.data[id]), Unchecked)]
            else t == s.(calls := s.calls[id := Tail(NOT_COMMITTED)])
  {
    AlwaysOrdered(ss, ls, limits, n);
    Line.RoomByRequests(ss[n].requests);
    assert Step(ss[n], ls[n], ss[n + 1], limits);
  }

  // The work of one request runs at a time: the one that has the turn.
  lemma OneWorkAtATime(ss: seq<Sys>, ls: seq<Label>, limits: Limits, n: nat, i: nat, j: nat)
    requires Run(ss, ls, limits) && n < |ss|
    requires i in ss[n].jobs && j in ss[n].jobs && !ss[n].jobs[i].stage.Unchecked? && !ss[n].jobs[j].stage.Unchecked?
    ensures i == j == ss[n].requests.line.served
  {
    AlwaysOrdered(ss, ls, limits, n);
    AlwaysShaped(ss, ls, limits, n);
    assert JobOk(ss[n], i) && JobOk(ss[n], j);
  }

  // ---- Closing.

  predicate ClearedIn(s: Sys, k: nat) {
    k in s.jobs && s.jobs[k].stage.Cleared?
  }

  lemma WakeClosed(s: Sys, ticket: nat, k: nat)
    requires ticket in s.jobs && ticket in s.requests.phase
    ensures ClearedIn(WakeStep(s, ticket), k) ==> ClearedIn(s, k)
  {
  }

  lemma DoneClosed(s: Sys, ticket: nat, k: nat)
    requires ticket in s.jobs && s.jobs[ticket].stage.Over?
    ensures ClearedIn(DoneStep(s, ticket), k) ==> ClearedIn(s, k)
  {
  }

  lemma LineStepClosed(s: Sys, l: Label, t: Sys, limits: Limits, k: nat)
    requires s.writerClosed && OfLine(l) && Step(s, l, t, limits)
    ensures ClearedIn(t, k) ==> ClearedIn(s, k)
  {
    match l {
      case Wake(ticket) => WakeClosed(s, ticket, k);
      case Done(ticket) => DoneClosed(s, ticket, k);
      case Join(work) => assert ClearedIn(Joined(s, work), k) ==> ClearedIn(s, k);
      case CheckClosed(_) =>
      case CloseWriter =>
      case CloseLine =>
    }
  }

  lemma TicketClosed(s: Sys, t: Sys, work: Work, k: nat)
    requires t.jobs == s.jobs || t.jobs == s.jobs[s.requests.line.next := Job(work, Unchecked)]
    ensures ClearedIn(t, k) ==> ClearedIn(s, k)
  {
  }

  lemma CommitClosed(s: Sys, id: TxId, k: nat)
    requires id in s.data
    ensures ClearedIn(CommitStep(s, id), k) ==> ClearedIn(s, k)
  {
    CommitJobs(s, id);
    TicketClosed(s, CommitStep(s, id), CommitWork(id, s.data[id]), k);
  }

  lemma ClosedStep(s: Sys, l: Label, t: Sys, limits: Limits, k: nat)
    requires s.writerClosed && Step(s, l, t, limits) && !l.Restart?
    ensures t.writerClosed
    ensures ClearedIn(t, k) ==> ClearedIn(s, k)
  {
    if OfRegistry(l) {
      RegistryFrame(s, l, t, limits);
    } else if WorksOn(l) {
      WorkMovesOn(s, l, t, limits);
    } else if l.Commit? {
      CommitFrame(s, l.id);
      CommitClosed(s, l.id, k);
    } else if l.RunWork? {
      RunFrame(s, l, t, limits);
    } else {
      LineFrame(s, l, t, limits);
      LineStepClosed(s, l, t, limits, k);
    }
  }

  lemma {:induction false} ClosedRun(ss: seq<Sys>, ls: seq<Label>, limits: Limits, n: nat, m: nat, k: nat)
    requires Run(ss, ls, limits) && n <= m < |ss| && ss[n].writerClosed
    requires forall i :: n <= i < m ==> !ls[i].Restart?
    ensures ss[m].writerClosed
    ensures ClearedIn(ss[m], k) ==> ClearedIn(ss[n], k)
    decreases m
  {
    if n < m {
      ClosedRun(ss, ls, limits, n, m - 1, k);
      ClosedStep(ss[m - 1], ls[m - 1], ss[m], limits, k);
    }
  }

  // Once the writer is closed, and until a restart, work runs only for a
  // request that was past the closed check in its turn by then.
  lemma ClosedWriterRunsNothingNew(ss: seq<Sys>, ls: seq<Label>, limits: Limits, n: nat, m: nat)
    requires Run(ss, ls, limits) && n <= m < |ls| && ss[n].writerClosed
    requires forall i :: n <= i < m ==> !ls[i].Restart?
    requires ls[m].RunWork?
    ensures ClearedIn(ss[n], ls[m].ticket)
  {
    assert Step(ss[m], ls[m], ss[m + 1], limits);
    ClosedRun(ss, ls, limits, n, m, ls[m].ticket);
  }

  // So is it from the step that closes it.
  lemma NothingNewAfterClose(ss: seq<Sys>, ls: seq<Label>, limits: Limits, n: nat, m: nat)
    requires Run(ss, ls, limits) && n < m < |ls| && ls[n].CloseWriter? && ls[m].RunWork?
    requires forall i :: n < i < m ==> !ls[i].Restart?
    ensures ClearedIn(ss[n], ls[m].ticket)
  {
    assert Step(ss[n], ls[n], ss[n + 1], limits);
    ClosedWriterRunsNothingNew(ss, ls, limits, n + 1, m);
  }

  // ---- Closing the line.

  // The line is closed, and took no request since s.
  ghost predicate TakesNone(s: Sys, t: Sys) {
    t.requests.line.closed && t.requests.phase.Keys <= s.requests.phase.Keys
  }

  lemma CommitTakesNone(s: Sys, id: TxId)
    requires s.requests.line.closed && id in s.data
    ensures TakesNone(s, CommitStep(s, id))
  {
    CommitCases(s, id);
  }

  lemma WakeTakesNone(s: Sys, ticket: nat)
    requires s.requests.line.closed && ticket in s.jobs && ticket in s.requests.phase
    ensures TakesNone(s, WakeStep(s, ticket))
  {
  }

  lemma DoneTakesNone(s: Sys, ticket: nat)
    requires s.requests.line.closed && ticket in s.jobs && s.jobs[ticket].stage.Over?
    ensures TakesNone(s, DoneStep(s, ticket))
  {
  }

  lemma LineStepTakesNone(s: Sys, l: Label, t: Sys, limits: Limits)
    requires s.requests.line.closed && OfLine(l) && Step(s, l, t, limits)
    ensures TakesNone(s, t)
  {
    match l {
      case Wake(ticket) => WakeTakesNone(s, ticket);
      case Done(ticket) => DoneTakesNone(s, ticket);
      case Join(_) =>
      case CheckClosed(_) =>
      case CloseWriter =>
      case CloseLine =>
    }
  }

  lemma StepTakesNone(s: Sys, l: Label, t: Sys, limits: Limits)
    requires s.requests.line.closed && Step(s, l, t, limits) && !l.Restart?
    ensures TakesNone(s, t)
  {
    if OfRegistry(l) {
      RegistryFrame(s, l, t, limits);
    } else if WorksOn(l) {
      WorkMovesOn(s, l, t, limits);
    } else if l.Commit? {
      CommitTakesNone(s, l.id);
    } else if l.RunWork? {
      RunFrame(s, l, t, limits);
    } else {
      LineStepTakesNone(s, l, t, limits);
    }
  }

  // In every run: from the step that closes the line, and until a restart, it
  // takes no request, be it a commit or another.
  lemma {:induction false} ClosedLineTakesNone(ss: seq<Sys>, ls: seq<Label>, limits: Limits, n: nat, m: nat)
    requires Run(ss, ls, limits) && n < m < |ss| && ls[n].CloseLine?
    requires forall i :: n < i < m ==> !ls[i].Restart?
    ensures TakesNone(ss[n], ss[m])
    decreases m
  {
    var k := m - 1;
    assert Step(ss[k], ls[k], ss[m], limits);
    if n < k {
      ClosedLineTakesNone(ss, ls, limits, n, k);
      StepTakesNone(ss[k], ls[k], ss[m], limits);
    }
  }
}
