// How a call on a transaction ends (internal/tx/tx.go): whether its
// transaction is still open once the call is over, and what it counts as.
module ProtocolEnds {
  import opened Wrappers
  import opened StoreSpec
  import opened TxSpec
  import opened Net
  import opened RegistrySpec
  import opened Protocol
  import opened ProtocolShape
  import opened ProtocolFrames
  import opened ProtocolSerial
  import Line
  import ProtocolCounts

  datatype Standing = Standing(open: bool, counted: Option<Stat>)

  function StandingOf(s: Sys, id: TxId): Standing {
    Standing(id in s.reg.txs, if id in s.counted then Some(s.counted[id]) else None)
  }

  // Where what is left of a call takes its transaction.
  function After(todo: Todo, now: Standing): Standing {
    match todo
    case Release => now
    case End(rest) => After(rest, now.(open := false))
    case Count(stat, rest) => After(rest, now.(counted := Some(stat)))
  }

  // The call of id has done its work, and todo is left of it.
  predicate HasLeft(s: Sys, id: TxId, todo: Todo) {
    id in s.calls && match s.calls[id]
                     case Working => false
                     case InLine(k) => k in s.jobs && s.jobs[k].stage == Over(todo)
                     case Tail(rest) => rest == todo
  }

  // The call was not touched.
  ghost predicate SameCall(s: Sys, t: Sys, id: TxId, todo: Todo) {
    StandingOf(t, id) == StandingOf(s, id) && HasLeft(t, id, todo)
  }

  // The call is over, or goes on to the same end.
  ghost predicate GoesOn(s: Sys, t: Sys, id: TxId, todo: Todo, rest: Option<Todo>) {
    if rest.None? then id !in t.calls && StandingOf(t, id) == After(todo, StandingOf(s, id))
    else HasLeft(t, id, rest.value) && After(rest.value, StandingOf(t, id)) == After(todo, StandingOf(s, id))
  }

  // ---- Steps.

  lemma ExpireSameCall(s: Sys, now: int, limits: Limits, id: TxId, todo: Todo)
    requires CallsShaped(s) && HasLeft(s, id, todo)
    ensures SameCall(s, Expire(s, now, limits), id, todo)
  {
  }

  lemma BeginSameCall(c: Sys, other: TxId, now: int, limits: Limits, id: TxId, todo: Todo)
    requires CallsShaped(c) && HasLeft(c, id, todo) && other !in c.begun
    ensures SameCall(c, BeginStep(c, other, now, limits), id, todo)
  {
    BeginCases(c, other, now, limits);
  }

  lemma AcquireSameCall(c: Sys, other: TxId, intent: Intent, id: TxId, todo: Todo)
    requires CallsShaped(c) && HasLeft(c, id, todo)
    ensures SameCall(c, AcquireStep(c, other, intent), id, todo)
  {
    TakenKeeps(c.reg, other);
  }

  lemma OtherSection(c: Sys, other: TxId, now: int, rest: Todo, id: TxId, todo: Todo)
    requires HasLeft(c, id, todo) && other != id
    ensures SameCall(c, SectionStep(c, other, now, rest), id, todo)
  {
    SectionCases(c, other, now, rest);
    assert SectionStep(c, other, now, rest).calls == match rest
             case Release => c.calls - {other} case End(r) => c.calls[other := Tail(r)]
             case Count(_, r) => c.calls[other := Tail(r)];
  }

  function RestOf(todo: Todo): Option<Todo> {
    match todo
    case Release => None
    case End(rest) => Some(rest)
    case Count(_, rest) => Some(rest)
  }

  lemma OwnSection(c: Sys, id: TxId, now: int, todo: Todo)
    requires id in c.calls && c.calls[id] == Tail(todo)
    ensures GoesOn(c, SectionStep(c, id, now, todo), id, todo, RestOf(todo))
  {
    SectionCases(c, id, now, todo);
    match todo {
      case Release =>
      case End(_) =>
      case Count(_, _) =>
    }
  }

  lemma SectionGoesOn(c: Sys, other: TxId, now: int, id: TxId, todo: Todo) returns (rest: Option<Todo>)
    requires HasLeft(c, id, todo) && other in c.calls && c.calls[other].Tail?
    ensures GoesOn(c, SectionStep(c, other, now, c.calls[other].todo), id, todo, rest)
  {
    if other == id {
      rest := RestOf(todo);
      OwnSection(c, id, now, todo);
    } else {
      rest := Some(todo);
      OtherSection(c, other, now, c.calls[other].todo, id, todo);
    }
  }

  lemma RegistryGoesOn(s: Sys, l: Label, t: Sys, limits: Limits, id: TxId, todo: Todo) returns (rest: Option<Todo>)
    requires Shaped(s) && HasLeft(s, id, todo) && OfRegistry(l) && Step(s, l, t, limits)
    ensures GoesOn(s, t, id, todo, rest)
  {
    var c := Expire(s, l.now, limits);
    ExpireShaped(s, l.now, limits);
    ExpireSameCall(s, l.now, limits, id, todo);
    rest := Some(todo);
    match l {
      case Begin(other, now) => BeginSameCall(c, other, now, limits, id, todo);
      case Acquire(other, _, intent) => AcquireSameCall(c, other, intent, id, todo);
      case Section(other, now) => rest := SectionGoesOn(c, other, now, id, todo);
    }
  }

  lemma WorkSameCall(s: Sys, l: Label, t: Sys, limits: Limits, id: TxId, todo: Todo)
    requires HasLeft(s, id, todo) && WorksOn(l) && Step(s, l, t, limits)
    ensures SameCall(s, t, id, todo)
  {
    WorkMovesOn(s, l, t, limits);
  }

  lemma OverIsServed(s: Sys, id: TxId, todo: Todo)
    requires Shaped(s) && HasLeft(s, id, todo) && s.calls[id].InLine?
    ensures var k := s.calls[id].ticket;
            k in s.requests.phase && s.requests.phase[k].HoldsTurn? && s.jobs[k].work == CommitWork(id, s.data[id])
    ensures s.calls[id].ticket != s.requests.line.next
  {
    assert JobOk(s, s.calls[id].ticket) && CallOk(s, id);
  }

  // A request takes a ticket, or doesn't.
  lemma TicketSameCall(s: Sys, t: Sys, work: Work, id: TxId, todo: Todo)
    requires Shaped(s) && HasLeft(s, id, todo) && StandingOf(t, id) == StandingOf(s, id)
    requires id in t.calls && t.calls[id] == s.calls[id]
    requires t.jobs == s.jobs || t.jobs == s.jobs[s.requests.line.next := Job(work, Unchecked)]
    ensures SameCall(s, t, id, todo)
  {
    if s.calls[id].InLine? {
      OverIsServed(s, id, todo);
    }
  }

  lemma CommitSameCall(s: Sys, other: TxId, id: TxId, todo: Todo)
    requires Shaped(s) && HasLeft(s, id, todo) && other in s.data && other in s.calls && s.calls[other].Working?
    ensures SameCall(s, CommitStep(s, other), id, todo)
  {
    var t := CommitStep(s, other);
    CommitFrame(s, other);
    CommitJobs(s, other);
    assert id != other && t.calls == s.calls[other := t.calls[other]];
    TicketSameCall(s, t, CommitWork(other, s.data[other]), id, todo);
  }

  lemma JobSameCall(s: Sys, t: Sys, ticket: nat, job: Job, id: TxId, todo: Todo)
    requires HasLeft(s, id, todo) && ticket in s.jobs && !s.jobs[ticket].stage.Over?
    requires t.calls == s.calls && t.jobs == s.jobs[ticket := job] && StandingOf(t, id) == StandingOf(s, id)
    ensures SameCall(s, t, id, todo)
  {
  }

  lemma WorkedStanding(s: Sys, work: Work, l: Label, u: Sys, limits: Limits, id: TxId, todo: Todo)
    requires CallsShaped(s) && HasLeft(s, id, todo) && l.RunWork? && Worked(s, work, l, u, limits)
    ensures u.calls == s.calls && StandingOf(u, id) == StandingOf(s, id)
  {
    if work.PauseWork? || work.ResumeWork? {
      PauseFrame(s, work, l, u, limits);
      ExpireSameCall(s, l.now, limits, id, todo);
    } else {
      StoreWorkFrame(s, work, l, u, limits);
    }
  }

  lemma RunSameCall(s: Sys, l: Label, t: Sys, limits: Limits, id: TxId, todo: Todo)
    requires Shaped(s) && HasLeft(s, id, todo) && l.RunWork? && RunStep(s, l, t, limits)
    ensures SameCall(s, t, id, todo)
  {
    WorkedStanding(s, s.jobs[l.ticket].work, l, t.(jobs := s.jobs), limits, id, todo);
    JobSameCall(s, t, l.ticket, t.jobs[l.ticket], id, todo);
  }

  lemma OtherLeaves(s: Sys, t: Sys, ticket: nat, calls: map<TxId, Call>, id: TxId, todo: Todo)
    requires HasLeft(s, id, todo) && s.calls[id] != InLine(ticket)
    requires t == s.(requests := t.requests, jobs := s.jobs - {ticket}, calls := calls)
    requires id in calls && calls[id] == s.calls[id]
    ensures SameCall(s, t, id, todo)
  {
  }

  // A request leaves the line; if it is the commit itself, with what is left.
  lemma LeaveSameCall(s: Sys, t: Sys, ticket: nat, rest: Todo, id: TxId, todo: Todo)
    requires Shaped(s) && HasLeft(s, id, todo) && ticket in s.jobs
    requires t == Resumed(s.(requests := t.requests, jobs := s.jobs - {ticket}), s.jobs[ticket].work, rest)
    requires s.calls[id] == InLine(ticket) ==> rest == todo
    ensures SameCall(s, t, id, todo)
  {
    var work := s.jobs[ticket].work;
    assert JobOk(s, ticket) && CallOk(s, id);
    if work.CommitWork? {
      if work.id != id {
        OtherLeaves(s, t, ticket, s.calls[work.id := Tail(rest)], id, todo);
      }
    } else {
      OtherLeaves(s, t, ticket, s.calls, id, todo);
    }
  }

  lemma RequestsSameCall(s: Sys, t: Sys, id: TxId, todo: Todo)
    requires HasLeft(s, id, todo) && t == s.(requests := t.requests)
    ensures SameCall(s, t, id, todo)
  {
  }

  lemma TurnedAwaySameCall(s: Sys, ticket: nat, id: TxId, todo: Todo)
    requires Shaped(s) && HasLeft(s, id, todo) && Line.WakeResultOf(s.requests.line, ticket).TurnedAway?
    requires ticket in s.jobs && ticket in s.requests.phase && s.requests.phase[ticket].Queued?
    ensures SameCall(s, WakeStep(s, ticket), id, todo)
  {
    if s.calls[id].InLine? {
      OverIsServed(s, id, todo);
    }
    LeaveSameCall(s, WakeStep(s, ticket), ticket, NOT_COMMITTED, id, todo);
  }

  lemma WakeSameCall(s: Sys, ticket: nat, id: TxId, todo: Todo)
    requires Shaped(s) && HasLeft(s, id, todo)
    requires ticket in s.jobs && ticket in s.requests.phase && s.requests.phase[ticket].Queued?
    ensures SameCall(s, WakeStep(s, ticket), id, todo)
  {
    var t := WakeStep(s, ticket);
    match Line.WakeResultOf(s.requests.line, ticket) {
      case TurnedAway => TurnedAwaySameCall(s, ticket, id, todo);
      case HasTurn => RequestsSameCall(s, t, id, todo);
      case KeepsWaiting => RequestsSameCall(s, t, id, todo);
    }
  }

  lemma DoneSameCall(s: Sys, ticket: nat, id: TxId, todo: Todo)
    requires Shaped(s) && HasLeft(s, id, todo) && ticket in s.jobs && s.jobs[ticket].stage.Over?
    ensures SameCall(s, DoneStep(s, ticket), id, todo)
  {
    LeaveSameCall(s, DoneStep(s, ticket), ticket, s.jobs[ticket].stage.todo, id, todo);
  }

  lemma JoinSameCall(s: Sys, work: Work, id: TxId, todo: Todo)
    requires Shaped(s) && HasLeft(s, id, todo)
    ensures SameCall(s, Joined(s, work), id, todo)
  {
    JoinedFrame(s, work);
    TicketSameCall(s, Joined(s, work), work, id, todo);
  }

  lemma CheckSameCall(s: Sys, ticket: nat, id: TxId, todo: Todo)
    requires HasLeft(s, id, todo) && ticket in s.jobs && s.jobs[ticket].stage.Unchecked?
    ensures SameCall(s, CheckClosedStep(s, ticket), id, todo)
  {
    var t := CheckClosedStep(s, ticket);
    JobSameCall(s, t, ticket, t.jobs[ticket], id, todo);
  }

  lemma LineSameCall(s: Sys, l: Label, t: Sys, limits: Limits, id: TxId, todo: Todo)
    requires Shaped(s) && HasLeft(s, id, todo) && OfLine(l) && Step(s, l, t, limits)
    ensures SameCall(s, t, id, todo)
  {
    match l {
      case Wake(ticket) => WakeSameCall(s, ticket, id, todo);
      case Done(ticket) => DoneSameCall(s, ticket, id, todo);
      case Join(work) => JoinSameCall(s, work, id, todo);
      case CheckClosed(ticket) => CheckSameCall(s, ticket, id, todo);
      case CloseWriter =>
      case CloseLine =>
    }
  }

  lemma StepGoesOn(s: Sys, l: Label, t: Sys, limits: Limits, id: TxId, todo: Todo) returns (rest: Option<Todo>)
    requires Shaped(s) && HasLeft(s, id, todo) && Step(s, l, t, limits) && !l.Restart?
    ensures GoesOn(s, t, id, todo, rest)
  {
    rest := Some(todo);
    if OfRegistry(l) {
      rest := RegistryGoesOn(s, l, t, limits, id, todo);
    } else if WorksOn(l) {
      WorkSameCall(s, l, t, limits, id, todo);
    } else if l.Commit? {
      CommitSameCall(s, l.id, id, todo);
    } else if l.RunWork? {
      RunSameCall(s, l, t, limits, id, todo);
    } else {
      LineSameCall(s, l, t, limits, id, todo);
    }
  }

  // ---- The end of a call.

  // From n, the call goes on until m, where it is over; the process lives.
  ghost predicate OverAt(ss: seq<Sys>, ls: seq<Label>, n: nat, m: nat, id: TxId)
    requires m < |ss| == |ls| + 1
  {
    && (forall k :: n <= k < m ==> id in ss[k].calls) && id !in ss[m].calls
    && forall k :: n <= k < m ==> !ls[k].Restart?
  }

  lemma {:induction false} EndsAfter(ss: seq<Sys>, ls: seq<Label>, limits: Limits, n: nat, m: nat, id: TxId, todo: Todo)
    requires Run(ss, ls, limits) && n < m < |ss| && OverAt(ss, ls, n, m, id) && HasLeft(ss[n], id, todo)
    ensures StandingOf(ss[m], id) == After(todo, StandingOf(ss[n], id))
    decreases m - n
  {
    AlwaysShaped(ss, ls, limits, n);
    var rest := StepGoesOn(ss[n], ls[n], ss[n + 1], limits, id, todo);
    if n + 1 < m {
      EndsAfter(ss, ls, limits, n + 1, m, id, rest.value);
    }
  }

  // What the call leaves: an open transaction that is not counted, or one
  // that is gone, counted as stat if it counts at all.
  ghost predicate LeavesOpen(t: Sys, id: TxId) {
    id in t.reg.txs && id !in t.counted
  }

  ghost predicate LeavesGone(t: Sys, id: TxId, stat: Option<Stat>) {
    && id !in t.reg.txs && (id in t.counted <==> stat.Some?)
    && (id in t.counted ==> t.counted[id] == stat.value)
  }

  // What a call that ends its transaction counts it as, if it does.
  function StatOf(todo: Todo): Option<Stat> {
    After(todo, Standing(true, None)).counted
  }

  lemma EndsGone(ss: seq<Sys>, ls: seq<Label>, limits: Limits, n: nat, m: nat, id: TxId, todo: Todo)
    requires Run(ss, ls, limits) && n < m < |ss| && OverAt(ss, ls, n, m, id) && HasLeft(ss[n], id, todo)
    requires StandingOf(ss[n], id) == Standing(true, None) && !After(todo, Standing(true, None)).open
    ensures LeavesGone(ss[m], id, StatOf(todo))
  {
    EndsAfter(ss, ls, limits, n, m, id, todo);
  }

  lemma CommitStat()
    ensures !After(COMMITTED, Standing(true, None)).open && StatOf(COMMITTED) == Some(RegistrySpec.Committed)
    ensures !After(NOT_COMMITTED, Standing(true, None)).open && StatOf(NOT_COMMITTED) == None
  {
  }

  predicate RunsCommitOf(s: Sys, l: Label, id: TxId) {
    RunsCommit(s, l) && s.jobs[l.ticket].work.id == id
  }

  function CommitTodo(l: Label): Todo
    requires l.RunWork?
  {
    if l.outcome.Appended? then COMMITTED else NOT_COMMITTED
  }

  lemma CommitHasLeft(s: Sys, l: Label, t: Sys, limits: Limits, id: TxId)
    requires Shaped(s) && Shaped(t) && Step(s, l, t, limits) && RunsCommitOf(s, l, id)
    ensures HasLeft(t, id, CommitTodo(l)) && StandingOf(t, id) == Standing(true, None)
  {
    assert JobOk(s, l.ticket) && CallOk(s, id);
    RunFrame(s, l, t, limits);
    assert CallOk(t, id);
  }

  // In every run: once a commit's turn has run, its transaction is gone when
  // its call is over, and is counted as committed if and only if the append
  // succeeded.
  lemma CommitCounts(ss: seq<Sys>, ls: seq<Label>, limits: Limits, n: nat, m: nat, id: TxId)
    requires Run(ss, ls, limits) && n < |ls| && RunsCommitOf(ss[n], ls[n], id)
    requires n + 1 < m < |ss| && OverAt(ss, ls, n + 1, m, id)
    ensures LeavesGone(ss[m], id, if ls[n].outcome.Appended? then Some(RegistrySpec.Committed) else None)
  {
    AlwaysShaped(ss, ls, limits, n);
    AlwaysShaped(ss, ls, limits, n + 1);
    CommitHasLeft(ss[n], ls[n], ss[n + 1], limits, id);
    CommitStat();
    EndsGone(ss, ls, limits, n + 1, m, id, CommitTodo(ls[n]));
  }

  // The call was refused with this error, or succeeded.
  predicate Answers(t: Sys, id: TxId, error: Option<CallError>) {
    id in t.calls && t.calls[id] == match error case None => Tail(Release) case Some(e) => AfterError(e)
  }

  function ErrorStat(error: CallError): Option<Stat> {
    if error.DesignError? then Some(DesignErrors) else None
  }

  // A transaction a call is at work on is open, and was not counted.
  lemma UsedStanding(s: Sys, id: TxId)
    requires Shaped(s) && Uses(s, id)
    ensures StandingOf(s, id) == Standing(true, None)
  {
    assert CallOk(s, id);
  }

  lemma AnswerEnds(ss: seq<Sys>, ls: seq<Label>, limits: Limits, n: nat, m: nat, id: TxId, error: Option<CallError>)
    requires Run(ss, ls, limits) && n < m < |ss| && OverAt(ss, ls, n, m, id) && Answers(ss[n], id, error)
    requires StandingOf(ss[n], id) == Standing(true, None)
    ensures if error.None? then LeavesOpen(ss[m], id) else LeavesGone(ss[m], id, ErrorStat(error.value))
  {
    match error {
      case None => EndsAfter(ss, ls, limits, n, m, id, Release);
      case Some(e) => EndsGone(ss, ls, limits, n, m, id, AfterError(e).todo);
    }
  }

  // In every run: a call that reads or writes and is refused ends its
  // transaction, which counts as a design error if that is what it was; one
  // that succeeds leaves it open.
  lemma CallCounts(ss: seq<Sys>, ls: seq<Label>, limits: Limits, n: nat, m: nat, error: Option<CallError>)
    requires Run(ss, ls, limits) && n < |ls| && WorksOn(ls[n]) && Answers(ss[n + 1], ls[n].id, error)
    requires n + 1 < m < |ss| && OverAt(ss, ls, n + 1, m, ls[n].id)
    ensures if error.None? then LeavesOpen(ss[m], ls[n].id) else LeavesGone(ss[m], ls[n].id, ErrorStat(error.value))
  {
    AlwaysShaped(ss, ls, limits, n);
    assert Step(ss[n], ls[n], ss[n + 1], limits);
    UsedStanding(ss[n], ls[n].id);
    WorkMovesOn(ss[n], ls[n], ss[n + 1], limits);
    AnswerEnds(ss, ls, limits, n + 1, m, ls[n].id, error);
  }

  // A commit that takes no ticket: with a read open it is a design error,
  // with nothing to write it counts as committed, and with no room in the
  // line it counts as nothing; its transaction ends in any case.
  function StatWithoutTicket(d: TxData): Option<Stat> {
    if d.open.Some? then Some(DesignErrors) else if HasNothing(d) then Some(RegistrySpec.Committed) else None
  }

  function TodoWithoutTicket(d: TxData): Todo {
    if d.open.Some? then AfterError(DesignError).todo else if HasNothing(d) then COMMITTED else NOT_COMMITTED
  }

  lemma WithoutTicketStat(d: TxData)
    ensures !After(TodoWithoutTicket(d), Standing(true, None)).open
    ensures StatOf(TodoWithoutTicket(d)) == StatWithoutTicket(d)
  {
  }

  lemma NoTicketHasLeft(s: Sys, id: TxId)
    requires Uses(s, id) && Tracked(s.data[id])
    ensures var t := CommitStep(s, id);
            t.calls == s.calls[id := InLine(s.requests.line.next)]
            || t.calls == s.calls[id := Tail(TodoWithoutTicket(s.data[id]))]
  {
    var d := s.data[id];
    NothingToWrite(d);
    assert HasNothing(d) <==> d.events == [] && WritesLen(NetWrites(d)) == 0;
  }

  lemma CommitWithoutTicketCounts(ss: seq<Sys>, ls: seq<Label>, limits: Limits, n: nat, m: nat, id: TxId)
    requires Run(ss, ls, limits) && n < |ls| && ls[n] == Commit(id)
    requires id in ss[n + 1].calls && ss[n + 1].calls[id].Tail?
    requires n + 1 < m < |ss| && OverAt(ss, ls, n + 1, m, id)
    ensures id in ss[n].data && LeavesGone(ss[m], id, StatWithoutTicket(ss[n].data[id]))
  {
    AlwaysShaped(ss, ls, limits, n);
    ProtocolCounts.AlwaysAccounted(ss, ls, limits, n);
    assert Step(ss[n], ls[n], ss[n + 1], limits);
    UsedStanding(ss[n], id);
    CommitFrame(ss[n], id);
    NoTicketHasLeft(ss[n], id);
    WithoutTicketStat(ss[n].data[id]);
    EndsGone(ss, ls, limits, n + 1, m, id, TodoWithoutTicket(ss[n].data[id]));
  }

  // A commit's request is turned away: the line closed before its turn came,
  // or the writer closed before its work started.
  predicate TurnsAway(s: Sys, l: Label, id: TxId) {
    && (l.Wake? || l.CheckClosed?) && l.ticket in s.jobs && s.jobs[l.ticket].work.CommitWork?
    && s.jobs[l.ticket].work.id == id
    && if l.Wake? then s.requests.line.closed && l.ticket != s.requests.line.served else s.writerClosed
  }

  lemma TurnedAwayHasLeft(s: Sys, l: Label, t: Sys, limits: Limits, id: TxId)
    requires Shaped(s) && Step(s, l, t, limits) && TurnsAway(s, l, id)
    ensures HasLeft(t, id, NOT_COMMITTED) && StandingOf(t, id) == Standing(true, None)
  {
    assert JobOk(s, l.ticket) && CallOk(s, id);
    LineFrame(s, l, t, limits);
  }

  // In every run: then its transaction ends all the same, and counts as
  // nothing.
  lemma TurnedAwayCounts(ss: seq<Sys>, ls: seq<Label>, limits: Limits, n: nat, m: nat, id: TxId)
    requires Run(ss, ls, limits) && n < |ls| && TurnsAway(ss[n], ls[n], id)
    requires n + 1 < m < |ss| && OverAt(ss, ls, n + 1, m, id)
    ensures LeavesGone(ss[m], id, None)
  {
    AlwaysShaped(ss, ls, limits, n);
    TurnedAwayHasLeft(ss[n], ls[n], ss[n + 1], limits, id);
    CommitStat();
    EndsGone(ss, ls, limits, n + 1, m, id, NOT_COMMITTED);
  }

  function IntentStat(intent: Intent): Option<Stat>
    requires !intent.Use?
  {
    match intent
    case AbandonIt => Some(Abandoned)
    case RejectIt(design) => if design then Some(DesignErrors) else None
  }

  lemma IntentEnds(intent: Intent)
    requires !intent.Use?
    ensures FirstCall(intent).Tail? && !After(FirstCall(intent).todo, Standing(true, None)).open
    ensures StatOf(FirstCall(intent).todo) == IntentStat(intent)
  {
    match intent {
      case AbandonIt =>
      case RejectIt(_) =>
    }
  }

  lemma TakenStanding(s: Sys, l: Label, t: Sys, limits: Limits)
    requires Shaped(s) && l.Acquire? && Step(s, l, t, limits) && l.id !in s.calls && l.id in t.calls
    ensures t.calls[l.id] == FirstCall(l.intent) && StandingOf(t, l.id) == Standing(true, None)
  {
    ExpireShaped(s, l.now, limits);
    TakenKeeps(Expire(s, l.now, limits).reg, l.id);
  }

  // In every run: an Abandon or a Reject that gets its transaction ends it,
  // and it counts as abandoned, as a design error, or as nothing.
  lemma EndingCallCounts(ss: seq<Sys>, ls: seq<Label>, limits: Limits, n: nat, m: nat)
    requires Run(ss, ls, limits) && n < |ls| && ls[n].Acquire? && !ls[n].intent.Use?
    requires ls[n].id !in ss[n].calls && ls[n].id in ss[n + 1].calls
    requires n + 1 < m < |ss| && OverAt(ss, ls, n + 1, m, ls[n].id)
    ensures LeavesGone(ss[m], ls[n].id, IntentStat(ls[n].intent))
  {
    AlwaysShaped(ss, ls, limits, n);
    TakenStanding(ss[n], ls[n], ss[n + 1], limits);
    IntentEnds(ls[n].intent);
    EndsGone(ss, ls, limits, n + 1, m, ls[n].id, FirstCall(ls[n].intent).todo);
  }
}
