// The registry's limits and counts over every run (internal/tx/tx.go): what
// every transaction keeps, and that each is counted at most once.
module ProtocolCounts {
  import opened Wrappers
  import opened Dcb
  import opened Tables
  import opened Reads
  import opened TxSpec
  import opened RegistrySpec
  import opened Protocol
  import opened ProtocolShape
  import opened ProtocolFrames

  function Having(counted: map<TxId, Stat>, stat: Stat): set<TxId> {
    set id | id in counted && counted[id] == stat
  }

  // The statistics are the tallies of the transactions begun and counted.
  ghost predicate Tallies(stats: Stats, begun: set<TxId>, counted: map<TxId, Stat>) {
    && stats.begun == |begun|
    && stats.committed == |Having(counted, RegistrySpec.Committed)|
    && stats.abandoned == |Having(counted, Abandoned)|
    && stats.expired == |Having(counted, Expired)|
    && stats.designErrors == |Having(counted, DesignErrors)|
  }

  ghost predicate WithinLimits(s: Sys, limits: Limits) {
    && (limits.maxOpen > 0 ==> |s.reg.txs| <= limits.maxOpen)
    && forall id :: id in s.data ==> ValidTx(s.data[id], limits)
  }

  ghost predicate Accounted(s: Sys, limits: Limits) {
    Tallies(s.reg.stats, s.begun, s.counted) && WithinLimits(s, limits)
  }

  // ---- One count more.

  lemma CountOne(counted: map<TxId, Stat>, id: TxId, stat: Stat, other: Stat)
    requires id !in counted
    ensures |Having(counted[id := stat], other)| == |Having(counted, other)| + if stat == other then 1 else 0
  {
    var before := Having(counted, other);
    assert Having(counted[id := stat], other) == if stat == other then before + {id} else before;
  }

  lemma CountIdle(counted: map<TxId, Stat>, idle: set<TxId>, other: Stat)
    requires idle !! counted.Keys
    ensures var after := counted + map id | id in idle :: Expired;
            |Having(after, other)| == |Having(counted, other)| + if other == Expired then |idle| else 0
  {
    var before := Having(counted, other);
    var after := counted + map id | id in idle :: Expired;
    assert Having(after, other) == if other == Expired then before + idle else before;
  }

  lemma TallyOne(stats: Stats, begun: set<TxId>, counted: map<TxId, Stat>, id: TxId, stat: Stat)
    requires Tallies(stats, begun, counted) && id !in counted
    ensures Tallies(Counted(stats, stat), begun, counted[id := stat])
  {
    CountOne(counted, id, stat, RegistrySpec.Committed);
    CountOne(counted, id, stat, Abandoned);
    CountOne(counted, id, stat, Expired);
    CountOne(counted, id, stat, DesignErrors);
  }

  // ---- The registry's sections.

  lemma TallyIdle(stats: Stats, begun: set<TxId>, counted: map<TxId, Stat>, idle: set<TxId>)
    requires Tallies(stats, begun, counted) && idle !! counted.Keys
    ensures Tallies(stats.(expired := stats.expired + |idle|), begun, counted + map id | id in idle :: Expired)
  {
    CountIdle(counted, idle, RegistrySpec.Committed);
    CountIdle(counted, idle, Abandoned);
    CountIdle(counted, idle, Expired);
    CountIdle(counted, idle, DesignErrors);
  }

  // An idle transaction has no call, so it has not been counted yet.
  lemma IdleNotCounted(s: Sys, now: int, limits: Limits)
    requires CallsShaped(s)
    ensures IdleIds(s.reg, now, limits) !! s.counted.Keys
  {
  }

  lemma Smaller(a: set<TxId>, b: set<TxId>)
    requires a <= b
    ensures |a| <= |b|
  {
    assert b == a + (b - a);
  }

  lemma FewerOpen(txs: map<TxId, TxState>, gone: set<TxId>)
    ensures |txs - gone| <= |txs|
  {
    assert (txs - gone).Keys <= txs.Keys;
    Smaller((txs - gone).Keys, txs.Keys);
  }

  lemma ExpireAccounted(s: Sys, now: int, limits: Limits)
    requires CallsShaped(s) && Accounted(s, limits)
    ensures Accounted(Expire(s, now, limits), limits)
  {
    var idle := IdleIds(s.reg, now, limits);
    IdleNotCounted(s, now, limits);
    TallyIdle(s.reg.stats, s.begun, s.counted, idle);
    FewerOpen(s.reg.txs, idle);
  }

  lemma OneMoreOpen(txs: map<TxId, TxState>, id: TxId, state: TxState)
    ensures |txs[id := state]| <= |txs| + 1
  {
    assert txs[id := state].Keys == txs.Keys + {id};
    assert |txs[id := state]| == |txs[id := state].Keys| && |txs| == |txs.Keys|;
  }

  lemma NewIsValid(limits: Limits)
    ensures ValidTx(NEW_TX, limits)
  {
    assert WrittenKeys(NEW_TX.projections) == {};
  }

  lemma OpenedAccounted(s: Sys, t: Sys, id: TxId, state: TxState, limits: Limits)
    requires Accounted(s, limits) && id !in s.begun && BeginResultOf(s.reg, limits).Begun?
    requires t.reg.txs == s.reg.txs[id := state] && t.reg.stats == s.reg.stats.(begun := s.reg.stats.begun + 1)
    requires t.data == s.data[id := NEW_TX] && t.begun == s.begun + {id} && t.counted == s.counted
    ensures Accounted(t, limits)
  {
    OneMoreOpen(s.reg.txs, id, state);
    assert Tallies(t.reg.stats, t.begun, t.counted);
    NewIsValid(limits);
  }

  lemma BeginAccounted(s: Sys, id: TxId, now: int, limits: Limits)
    requires Accounted(s, limits) && id !in s.begun
    ensures Accounted(BeginStep(s, id, now, limits), limits)
  {
    if BeginResultOf(s.reg, limits).Begun? {
      OpenedAccounted(s, BeginStep(s, id, now, limits), id, TxState(false, now), limits);
    }
  }

  // Nothing that is accounted for changed.
  ghost predicate SameAccounts(s: Sys, t: Sys) {
    && t.reg.txs.Keys == s.reg.txs.Keys && t.data == s.data && t.begun == s.begun && t.counted == s.counted
    && t.reg.stats == s.reg.stats.(busy := t.reg.stats.busy)
  }

  lemma SameAccounted(s: Sys, t: Sys, limits: Limits)
    requires Accounted(s, limits) && SameAccounts(s, t)
    ensures Accounted(t, limits)
  {
    assert |t.reg.txs| == |t.reg.txs.Keys| && |s.reg.txs| == |s.reg.txs.Keys|;
  }

  lemma AcquireAccounted(s: Sys, id: TxId, intent: Intent, limits: Limits)
    requires Accounted(s, limits)
    ensures Accounted(AcquireStep(s, id, intent), limits)
  {
    TakenKeeps(s.reg, id);
    SameAccounted(s, AcquireStep(s, id, intent), limits);
  }

  lemma FreedAccounted(s: Sys, id: TxId, now: int, limits: Limits)
    requires Accounted(s, limits)
    ensures Accounted(SectionStep(s, id, now, Release), limits)
  {
    SameAccounted(s, SectionStep(s, id, now, Release), limits);
  }

  lemma EndedAccounted(s: Sys, id: TxId, now: int, rest: Todo, limits: Limits)
    requires Accounted(s, limits)
    ensures Accounted(SectionStep(s, id, now, End(rest)), limits)
  {
    FewerOpen(s.reg.txs, {id});
  }

  lemma CountedAccounted(s: Sys, id: TxId, now: int, stat: Stat, rest: Todo, limits: Limits)
    requires Accounted(s, limits) && id !in s.counted
    ensures Accounted(SectionStep(s, id, now, Count(stat, rest)), limits)
  {
    TallyOne(s.reg.stats, s.begun, s.counted, id, stat);
  }

  lemma SectionAccounted(s: Sys, id: TxId, now: int, limits: Limits)
    requires CallsShaped(s) && Accounted(s, limits) && id in s.calls && s.calls[id].Tail?
    ensures Accounted(SectionStep(s, id, now, s.calls[id].todo), limits)
  {
    assert CallOk(s, id);
    match s.calls[id].todo {
      case Release => FreedAccounted(s, id, now, limits);
      case End(rest) => EndedAccounted(s, id, now, rest, limits);
      case Count(stat, rest) => CountedAccounted(s, id, now, stat, rest, limits);
    }
  }

  lemma RegistryAccounted(s: Sys, l: Label, t: Sys, limits: Limits)
    requires Shaped(s) && Accounted(s, limits) && OfRegistry(l) && Step(s, l, t, limits)
    ensures Accounted(t, limits)
  {
    var c := Expire(s, l.now, limits);
    ExpireShaped(s, l.now, limits);
    ExpireAccounted(s, l.now, limits);
    match l {
      case Begin(id, now) => BeginAccounted(c, id, now, limits);
      case Acquire(id, now, intent) => AcquireAccounted(c, id, intent, limits);
      case Section(id, now) => SectionAccounted(c, id, now, limits);
    }
  }

  // ---- A transaction's own steps keep it valid.

  lemma OneTransactionAccounted(s: Sys, t: Sys, id: TxId, limits: Limits)
    requires Accounted(s, limits) && MovesOn(s, t, id) && ValidTx(t.data[id], limits)
    ensures Accounted(t, limits)
  {
  }

  lemma RefuseValid(s: Sys, id: TxId, error: CallError, limits: Limits)
    requires id in s.data && ValidTx(s.data[id], limits)
    ensures ValidTx(Refuse(s, id, error).data[id], limits)
  {
  }

  lemma EventsValid(d: TxData, e: TxData, limits: Limits)
    requires ValidTx(d, limits) && e == d.(events := e.events, open := e.open, conditions := e.conditions)
    requires |e.events| <= limits.maxEvents && |e.conditions| + (if e.open.Some? then 1 else 0) <= limits.maxReads
    ensures ValidTx(e, limits)
  {
  }

  lemma ReadValid(s: Sys, id: TxId, f: Filter, limits: Limits)
    requires Uses(s, id) && ValidTx(s.data[id], limits)
    ensures id in ReadEventsStep(s, id, f, limits).data && ValidTx(ReadEventsStep(s, id, f, limits).data[id], limits)
  {
    var d := s.data[id];
    if ReadRefusal(d, f, s.store.log, limits).None? {
      EventsValid(d, WithEventsRead(d, f, s.store.log), limits);
    }
  }

  lemma WriteValid(s: Sys, id: TxId, events: seq<EventData>, time: nat, limits: Limits)
    requires Uses(s, id) && ValidTx(s.data[id], limits)
    ensures id in WriteEventsStep(s, id, events, time, limits).data
    ensures ValidTx(WriteEventsStep(s, id, events, time, limits).data[id], limits)
  {
    var d := s.data[id];
    if WriteRefusal(d, |events|, limits).None? {
      EventsValid(d, WithEventsWritten(d, events, time), limits);
    }
  }

  lemma GetValid(s: Sys, id: TxId, key: Key, limits: Limits)
    requires Uses(s, id) && ValidTx(s.data[id], limits)
    ensures ValidTx(GetProjectionStep(s, id, key).data[id], limits)
  {
    ReadKeepsValid(s.data[id], key, Row(s.store.projections, key), limits);
  }

  lemma WriteProjectionsValid(s: Sys, id: TxId, w: TxWrites, limits: Limits)
    requires Uses(s, id) && ValidTx(s.data[id], limits)
    ensures ValidTx(WriteProjectionsStep(s, id, w, limits).data[id], limits)
  {
    if WritesAllowed(s.data[id], w) && WrittenAfter(s.data[id], w) <= limits.maxProjections {
      WritesKeepValid(s.data[id], w, limits);
    }
  }

  lemma RefuseAccounted(s: Sys, id: TxId, error: CallError, limits: Limits)
    requires Accounted(s, limits) && Uses(s, id)
    ensures Accounted(Refuse(s, id, error), limits)
  {
    RefuseMovesOn(s, id, error);
    RefuseValid(s, id, error, limits);
    OneTransactionAccounted(s, Refuse(s, id, error), id, limits);
  }

  lemma ReadAccounted(s: Sys, id: TxId, f: Filter, limits: Limits)
    requires Accounted(s, limits) && Uses(s, id)
    ensures Accounted(ReadEventsStep(s, id, f, limits), limits)
  {
    ReadEventsMovesOn(s, id, f, limits);
    ReadValid(s, id, f, limits);
    OneTransactionAccounted(s, ReadEventsStep(s, id, f, limits), id, limits);
  }

  lemma WriteAccounted(s: Sys, id: TxId, events: seq<EventData>, time: nat, limits: Limits)
    requires Accounted(s, limits) && Uses(s, id)
    ensures Accounted(WriteEventsStep(s, id, events, time, limits), limits)
  {
    WriteEventsMovesOn(s, id, events, time, limits);
    WriteValid(s, id, events, time, limits);
    OneTransactionAccounted(s, WriteEventsStep(s, id, events, time, limits), id, limits);
  }

  lemma GetAccounted(s: Sys, id: TxId, key: Key, limits: Limits)
    requires Accounted(s, limits) && Uses(s, id)
    ensures Accounted(GetProjectionStep(s, id, key), limits)
  {
    GetProjectionMovesOn(s, id, key);
    GetValid(s, id, key, limits);
    OneTransactionAccounted(s, GetProjectionStep(s, id, key), id, limits);
  }

  lemma WriteProjectionsAccounted(s: Sys, id: TxId, w: TxWrites, limits: Limits)
    requires Accounted(s, limits) && Uses(s, id)
    ensures Accounted(WriteProjectionsStep(s, id, w, limits), limits)
  {
    WriteProjectionsMovesOn(s, id, w, limits);
    WriteProjectionsValid(s, id, w, limits);
    OneTransactionAccounted(s, WriteProjectionsStep(s, id, w, limits), id, limits);
  }

  lemma WorkAccounted(s: Sys, l: Label, t: Sys, limits: Limits)
    requires Accounted(s, limits) && WorksOn(l) && Step(s, l, t, limits)
    ensures Accounted(t, limits)
  {
    match l {
      case ReadEvents(id, f) => ReadAccounted(s, id, f, limits);
      case WriteEvents(id, events, time) => WriteAccounted(s, id, events, time, limits);
      case GetProjection(id, key) => GetAccounted(s, id, key, limits);
      case WriteProjections(id, w) => WriteProjectionsAccounted(s, id, w, limits);
      case ReadFails(id) => RefuseAccounted(s, id, StoreError, limits);
    }
  }

  // ---- The other steps.

  lemma PauseAccounted(c: Sys, u: Sys, limits: Limits)
    requires Accounted(c, limits) && u == c.(reg := u.reg, store := u.store)
    requires u.reg == c.reg.(pause := u.reg.pause)
    ensures Accounted(u, limits)
  {
    SameAccounted(c, u, limits);
  }

  lemma StoreWorkAccounted(s: Sys, work: Work, l: Label, u: Sys, limits: Limits)
    requires Accounted(s, limits) && l.RunWork? && Worked(s, work, l, u, limits)
             && !work.PauseWork? && !work.ResumeWork?
    ensures Accounted(u, limits)
  {
    StoreWorkFrame(s, work, l, u, limits);
    assert SameAccounts(s, u);
    SameAccounted(s, u, limits);
  }

  lemma WorkedAccounted(s: Sys, work: Work, l: Label, u: Sys, limits: Limits)
    requires Shaped(s) && Accounted(s, limits) && l.RunWork? && Worked(s, work, l, u, limits)
    ensures Accounted(u, limits)
  {
    if work.PauseWork? || work.ResumeWork? {
      PauseFrame(s, work, l, u, limits);
      ExpireAccounted(s, l.now, limits);
      PauseAccounted(Expire(s, l.now, limits), u, limits);
    } else {
      StoreWorkAccounted(s, work, l, u, limits);
    }
  }

  lemma RunAccounted(s: Sys, l: Label, t: Sys, limits: Limits)
    requires Shaped(s) && Accounted(s, limits) && l.RunWork? && RunStep(s, l, t, limits)
    ensures Accounted(t, limits)
  {
    var u := t.(jobs := s.jobs);
    WorkedAccounted(s, s.jobs[l.ticket].work, l, u, limits);
    SameAccounted(u, t, limits);
  }

  lemma StartAccounted(s: Sys, limits: Limits)
    requires s.reg.txs == map[] && s.reg.stats == NO_STATS && s.begun == {} && s.counted == map[] && s.data == map[]
    ensures Accounted(s, limits)
  {
    assert forall stat :: Having(s.counted, stat) == {};
  }

  lemma StepAccounted(s: Sys, l: Label, t: Sys, limits: Limits)
    requires Shaped(s) && Accounted(s, limits) && Step(s, l, t, limits)
    ensures Accounted(t, limits)
  {
    if OfRegistry(l) {
      RegistryAccounted(s, l, t, limits);
    } else if WorksOn(l) {
      WorkAccounted(s, l, t, limits);
    } else if l.RunWork? {
      RunAccounted(s, l, t, limits);
    } else if l.Restart? {
      StartAccounted(t, limits);
    } else if l.Commit? {
      CommitFrame(s, l.id);
      SameAccounted(s, t, limits);
    } else {
      LineFrame(s, l, t, limits);
      SameAccounted(s, t, limits);
    }
  }

  lemma InitAccounted(s: Sys, limits: Limits)
    requires Init(s)
    ensures Accounted(s, limits)
  {
    StartAccounted(s, limits);
  }

  // At every moment of every run: the statistics are exactly the tallies of
  // the transactions, each counted at most once; the open ones and what each
  // holds are within the limits.
  lemma {:induction false} AlwaysAccounted(ss: seq<Sys>, ls: seq<Label>, limits: Limits, n: nat)
    requires Run(ss, ls, limits) && n < |ss|
    ensures Accounted(ss[n], limits)
  {
    if n == 0 {
      InitAccounted(ss[0], limits);
    } else {
      AlwaysShaped(ss, ls, limits, n - 1);
      AlwaysAccounted(ss, ls, limits, n - 1);
      StepAccounted(ss[n - 1], ls[n - 1], ss[n], limits);
    }
  }

  // ---- A transaction leaves once, for good, and keeps its count.

  // Of a transaction of s: what it was counted as stands, and if it has left
  // it stays away.
  ghost predicate StaysSettled(s: Sys, t: Sys, id: TxId) {
    && (id in s.begun ==> id in t.begun)
    && (id in s.counted ==> id in t.counted && t.counted[id] == s.counted[id])
    && (id in s.begun && id !in s.reg.txs ==> id !in t.reg.txs)
  }

  lemma ExpireSettles(s: Sys, now: int, limits: Limits, id: TxId)
    requires CallsShaped(s)
    ensures StaysSettled(s, Expire(s, now, limits), id)
  {
  }

  lemma SectionSettles(s: Sys, id: TxId, now: int, limits: Limits, i: TxId)
    requires CallsShaped(s) && id in s.calls && s.calls[id].Tail?
    ensures StaysSettled(s, SectionStep(s, id, now, s.calls[id].todo), i)
  {
    assert CallOk(s, id);
    SectionCases(s, id, now, s.calls[id].todo);
  }

  lemma BeginSettles(s: Sys, id: TxId, now: int, limits: Limits, i: TxId)
    requires id !in s.begun
    ensures StaysSettled(s, BeginStep(s, id, now, limits), i)
  {
    BeginCases(s, id, now, limits);
  }

  lemma AcquireSettles(s: Sys, id: TxId, intent: Intent, i: TxId)
    ensures StaysSettled(s, AcquireStep(s, id, intent), i)
  {
    TakenKeeps(s.reg, id);
  }

  lemma RegistrySettles(s: Sys, l: Label, t: Sys, limits: Limits, id: TxId)
    requires Shaped(s) && OfRegistry(l) && Step(s, l, t, limits)
    ensures StaysSettled(s, t, id)
  {
    var c := Expire(s, l.now, limits);
    ExpireShaped(s, l.now, limits);
    ExpireSettles(s, l.now, limits, id);
    match l {
      case Begin(i, now) => BeginSettles(c, i, now, limits, id);
      case Acquire(i, now, intent) => AcquireSettles(c, i, intent, id);
      case Section(i, now) => SectionSettles(c, i, now, limits, id);
    }
  }

  lemma SameSettles(s: Sys, t: Sys, id: TxId)
    requires t.begun == s.begun && t.counted == s.counted && t.reg.txs.Keys == s.reg.txs.Keys
    ensures StaysSettled(s, t, id)
  {
  }

  lemma WorkedSettles(s: Sys, work: Work, l: Label, u: Sys, limits: Limits, id: TxId)
    requires Shaped(s) && l.RunWork? && Worked(s, work, l, u, limits)
    ensures StaysSettled(s, u, id)
  {
    if work.PauseWork? || work.ResumeWork? {
      PauseFrame(s, work, l, u, limits);
      ExpireSettles(s, l.now, limits, id);
      SameSettles(Expire(s, l.now, limits), u, id);
    } else {
      StoreWorkFrame(s, work, l, u, limits);
      SameSettles(s, u, id);
    }
  }

  lemma StepSettles(s: Sys, l: Label, t: Sys, limits: Limits, id: TxId)
    requires Shaped(s) && Step(s, l, t, limits) && !l.Restart?
    ensures StaysSettled(s, t, id)
  {
    if OfRegistry(l) {
      RegistrySettles(s, l, t, limits, id);
    } else if WorksOn(l) {
      WorkMovesOn(s, l, t, limits);
    } else if l.RunWork? {
      WorkedSettles(s, s.jobs[l.ticket].work, l, t.(jobs := s.jobs), limits, id);
    } else if l.Commit? {
      CommitFrame(s, l.id);
    } else {
      LineFrame(s, l, t, limits);
    }
  }

  lemma {:induction false} LeavesOnce(ss: seq<Sys>, ls: seq<Label>, limits: Limits, i: nat, j: nat, id: TxId)
    requires Run(ss, ls, limits) && i <= j < |ss|
    requires forall k {:trigger ls[k]} :: i <= k < j ==> !ls[k].Restart?
    ensures StaysSettled(ss[i], ss[j], id)
    decreases j
  {
    if i < j {
      LeavesOnce(ss, ls, limits, i, j - 1, id);
      AlwaysShaped(ss, ls, limits, j - 1);
      StepSettles(ss[j - 1], ls[j - 1], ss[j], limits, id);
    }
  }

  // ---- A transaction that a call is using, or that waits in the line,
  // never expires, and keeps all it holds.

  lemma BusyStays(s: Sys, now: int, limits: Limits, id: TxId)
    requires CallsShaped(s) && id in s.calls && id in s.reg.txs
    ensures id in Expire(s, now, limits).reg.txs && id in s.data
    ensures id in Expire(s, now, limits).data && Expire(s, now, limits).data[id] == s.data[id]
  {
  }

  ghost predicate KeepsFor(s: Sys, t: Sys, id: TxId) {
    id in s.data && id in t.reg.txs && id in t.data && t.data[id] == s.data[id]
  }

  lemma SameKeeps(s: Sys, t: Sys, id: TxId)
    requires id in s.data && id in s.reg.txs && t.reg == s.reg && id in t.data && t.data[id] == s.data[id]
    ensures KeepsFor(s, t, id)
  {
  }

  lemma WaitingIsOpen(s: Sys, id: TxId)
    requires CallsShaped(s) && id in s.calls && s.calls[id].InLine?
    ensures id in s.data && id in s.reg.txs
  {
    assert CallOk(s, id);
  }

  lemma MovesOnKeeps(s: Sys, t: Sys, id: TxId, i: TxId)
    requires MovesOn(s, t, id) && i in s.data && i in s.reg.txs && i != id
    ensures KeepsFor(s, t, i)
  {
  }

  lemma OthersKeepWaiting(s: Sys, l: Label, t: Sys, limits: Limits, id: TxId)
    requires CallsShaped(s) && id in s.calls && s.calls[id].InLine?
    requires (WorksOn(l) || OfLine(l) || l.Commit?) && Step(s, l, t, limits)
    ensures KeepsFor(s, t, id)
  {
    WaitingIsOpen(s, id);
    if WorksOn(l) {
      WorkMovesOn(s, l, t, limits);
      MovesOnKeeps(s, t, l.id, id);
    } else if l.Commit? {
      CommitFrame(s, l.id);
      SameKeeps(s, t, id);
    } else {
      LineFrame(s, l, t, limits);
      SameKeeps(s, t, id);
    }
  }

  lemma BeginKeeps(s: Sys, id: TxId, now: int, limits: Limits, i: TxId)
    requires i != id && KeepsFor(s, s, i)
    ensures KeepsFor(s, BeginStep(s, id, now, limits), i)
  {
    BeginCases(s, id, now, limits);
  }

  lemma AcquireKeeps(s: Sys, id: TxId, intent: Intent, i: TxId)
    requires KeepsFor(s, s, i)
    ensures KeepsFor(s, AcquireStep(s, id, intent), i)
  {
    AcquireCases(s, id, intent);
  }

  lemma SectionKeeps(s: Sys, id: TxId, now: int, todo: Todo, i: TxId)
    requires i != id && KeepsFor(s, s, i)
    ensures KeepsFor(s, SectionStep(s, id, now, todo), i)
  {
  }

  lemma RegistryKeepsWaiting(s: Sys, l: Label, t: Sys, limits: Limits, id: TxId)
    requires CallsShaped(s) && id in s.calls && s.calls[id].InLine? && OfRegistry(l) && Step(s, l, t, limits)
    ensures KeepsFor(s, t, id)
  {
    assert CallOk(s, id);
    BusyStays(s, l.now, limits, id);
    var c := Expire(s, l.now, limits);
    match l {
      case Begin(i, now) => BeginKeeps(c, i, now, limits, id);
      case Acquire(i, now, intent) => AcquireKeeps(c, i, intent, id);
      case Section(i, now) => SectionKeeps(c, i, now, s.calls[i].todo, id);
    }
  }

  lemma WorkedKeepsWaiting(s: Sys, work: Work, l: Label, u: Sys, limits: Limits, id: TxId)
    requires CallsShaped(s) && id in s.calls && s.calls[id].InLine? && l.RunWork? && Worked(s, work, l, u, limits)
    ensures KeepsFor(s, u, id)
  {
    assert CallOk(s, id);
    if work.PauseWork? || work.ResumeWork? {
      BusyStays(s, l.now, limits, id);
      PauseFrame(s, work, l, u, limits);
    } else {
      StoreWorkFrame(s, work, l, u, limits);
    }
  }

  lemma RunKeepsWaiting(s: Sys, l: Label, t: Sys, limits: Limits, id: TxId)
    requires CallsShaped(s) && id in s.calls && s.calls[id].InLine? && l.RunWork? && RunStep(s, l, t, limits)
    ensures KeepsFor(s, t, id)
  {
    var u := t.(jobs := s.jobs);
    WorkedKeepsWaiting(s, s.jobs[l.ticket].work, l, u, limits, id);
    assert KeepsFor(s, u, id);
  }

  lemma WaitingCommitKept(s: Sys, l: Label, t: Sys, limits: Limits, id: TxId)
    requires CallsShaped(s) && id in s.calls && s.calls[id].InLine? && Step(s, l, t, limits) && !l.Restart?
    ensures KeepsFor(s, t, id)
  {
    if OfRegistry(l) {
      RegistryKeepsWaiting(s, l, t, limits, id);
    } else if l.RunWork? {
      RunKeepsWaiting(s, l, t, limits, id);
    } else {
      OthersKeepWaiting(s, l, t, limits, id);
    }
  }

  lemma WaitsOneStep(ss: seq<Sys>, ls: seq<Label>, limits: Limits, k: nat, id: TxId)
    requires Run(ss, ls, limits) && k < |ls| && id in ss[k].calls && ss[k].calls[id].InLine? && !ls[k].Restart?
    ensures KeepsFor(ss[k], ss[k + 1], id)
  {
    AlwaysShaped(ss, ls, limits, k);
    WaitingCommitKept(ss[k], ls[k], ss[k + 1], limits, id);
  }

  ghost predicate WaitsFrom(ss: seq<Sys>, ls: seq<Label>, n: nat, m: nat, id: TxId)
    requires m < |ss| == |ls| + 1
  {
    && (forall i :: n <= i < m ==> id in ss[i].calls && ss[i].calls[id].InLine?)
    && forall i :: n <= i < m ==> !ls[i].Restart?
  }

  // In every run, as long as a commit is in the line and the process lives:
  // whatever other steps run, its transaction stays open and as it is.
  lemma {:induction false} CommitInLineStays(ss: seq<Sys>, ls: seq<Label>, limits: Limits, n: nat, m: nat, id: TxId)
    requires Run(ss, ls, limits) && n < m < |ss| && WaitsFrom(ss, ls, n, m, id)
    ensures KeepsFor(ss[n], ss[m], id)
  {
    var k := m - 1;
    WaitsOneStep(ss, ls, limits, k, id);
    if n < k {
      CommitInLineStays(ss, ls, limits, n, k, id);
    }
  }
}
