// The pause over every run (internal/tx/pause.go): once Pause answers, the
// log stands still until Resume, across restarts.
module ProtocolPause {
  import opened Wrappers
  import opened Dcb
  import opened StoreSpec
  import opened TxSpec
  import opened Net
  import opened RegistrySpec
  import opened Protocol
  import opened ProtocolShape
  import opened ProtocolFrames
  import Registry
  import Store

  // In place means no transaction is open, and the store keeps it.
  ghost predicate PauseKept(s: Sys) {
    && (s.reg.pause == Paused ==> s.reg.txs == map[])
    && (s.reg.pause == Paused <==> s.store.pausedAt.Some?)
  }

  lemma WorkKeepsPause(s: Sys, work: Work, l: Label, u: Sys, limits: Limits)
    requires PauseKept(s) && l.RunWork? && Worked(s, work, l, u, limits)
    ensures PauseKept(u)
  {
  }

  lemma SameKeepsPause(s: Sys, t: Sys)
    requires PauseKept(s) && SameStore(s, t) && SamePause(s, t)
    ensures PauseKept(t)
  {
    assert s.reg.pause == Paused ==> t.reg.txs.Keys == {};
  }

  lemma StepKeepsPause(s: Sys, l: Label, t: Sys, limits: Limits)
    requires PauseKept(s) && Step(s, l, t, limits)
    ensures PauseKept(t)
  {
    if l.RunWork? {
      WorkKeepsPause(s, s.jobs[l.ticket].work, l, t.(jobs := s.jobs), limits);
    } else if !l.Restart? {
      OnlyTurnsWrite(s, l, t, limits);
      SameKeepsPause(s, t);
    }
  }

  lemma {:induction false} PauseAlwaysKept(ss: seq<Sys>, ls: seq<Label>, limits: Limits, n: nat)
    requires Run(ss, ls, limits) && n < |ss|
    ensures PauseKept(ss[n])
  {
    if n > 0 {
      PauseAlwaysKept(ss, ls, limits, n - 1);
      StepKeepsPause(ss[n - 1], ls[n - 1], ss[n], limits);
    }
  }

  // ---- What can change the log.

  // A write of no event leaves the log and the counter alone.
  lemma NoEventNoChange(s: Sys, w: Writes, v: Versions, outcome: AppendOutcome, t: Sys)
    requires AppendWork(s, [], [], w, v, outcome, t)
    ensures t.store.log == s.store.log && t.store.nextSeq == s.store.nextSeq
  {
    if outcome.Appended? {
      assert outcome.stored == [];
    }
  }

  // The log and the counter stay, or the log is emptied.
  ghost predicate LogStands(s: Sys, l: Label, t: Sys) {
    && t.reg.pause == Paused
    && (t.store.log == s.store.log || (DeletesLog(s, l) && t.store.log == []))
    && t.store.nextSeq == if l.Restart? then MaxSequence(s.store.log) + 1 else s.store.nextSeq
  }

  lemma QueuedIsOpen(s: Sys, ticket: nat)
    requires Shaped(s) && ticket in s.jobs
    ensures s.jobs[ticket].work.CommitWork? ==> s.jobs[ticket].work.id in s.reg.txs
  {
    assert JobOk(s, ticket);
    if s.jobs[ticket].work.CommitWork? {
      assert CallOk(s, s.jobs[ticket].work.id);
    }
  }

  // In every run, from its ticket until its turn is done, a commit has its
  // transaction in the registry.
  lemma CommitStaysOpen(ss: seq<Sys>, ls: seq<Label>, limits: Limits, n: nat, ticket: nat)
    requires Run(ss, ls, limits) && n < |ss| && ticket in ss[n].jobs && ss[n].jobs[ticket].work.CommitWork?
    ensures ss[n].jobs[ticket].work.id in ss[n].reg.txs && ss[n].reg.pause != Paused
  {
    AlwaysShaped(ss, ls, limits, n);
    PauseAlwaysKept(ss, ls, limits, n);
    QueuedIsOpen(ss[n], ticket);
  }

  lemma NoCommitWhilePaused(s: Sys, ticket: nat)
    requires Shaped(s) && PauseKept(s) && s.reg.pause == Paused && ticket in s.jobs
    ensures !s.jobs[ticket].work.CommitWork?
  {
    QueuedIsOpen(s, ticket);
  }

  // Pause again, with the pause in place: it stays.
  lemma PauseStays(s: Sys, l: Label, u: Sys, limits: Limits)
    requires s.reg.pause == Paused && l.RunWork? && Worked(s, PauseWork, l, u, limits)
    ensures u.reg.pause == Paused
  {
  }

  // No other work touches the log or the counter, but for the deletion.
  lemma LogUntouched(s: Sys, work: Work, l: Label, u: Sys, limits: Limits)
    requires l.RunWork? && Worked(s, work, l, u, limits)
    requires !work.CommitWork? && !work.ProjectionsWork? && !work.DeleteEventsWork?
    ensures u.store.log == s.store.log && u.store.nextSeq == s.store.nextSeq
  {
  }

  lemma PausedWorked(s: Sys, work: Work, l: Label, u: Sys, limits: Limits)
    requires PauseKept(s) && s.reg.pause == Paused && !work.CommitWork? && !work.ResumeWork?
    requires l.RunWork? && Worked(s, work, l, u, limits)
    ensures u.reg.pause == Paused && u.store.nextSeq == s.store.nextSeq
    ensures u.store.log == s.store.log || (work.DeleteEventsWork? && u.store.log == [])
  {
    match work {
      case ProjectionsWork(w) => NoEventNoChange(s, w, l.versions, l.outcome, u);
      case DeleteEventsWork => StoreWorkFrame(s, work, l, u, limits);
      case PauseWork =>
        LogUntouched(s, work, l, u, limits);
        PauseStays(s, l, u, limits);
      case _ =>
        StoreWorkFrame(s, work, l, u, limits);
        LogUntouched(s, work, l, u, limits);
    }
  }

  lemma PausedWork(s: Sys, l: Label, t: Sys, limits: Limits)
    requires Shaped(s) && PauseKept(s) && s.reg.pause == Paused
    requires l.RunWork? && RunStep(s, l, t, limits) && !ResumesPause(s, l)
    ensures LogStands(s, l, t)
  {
    NoCommitWhilePaused(s, l.ticket);
    PausedWorked(s, s.jobs[l.ticket].work, l, t.(jobs := s.jobs), limits);
  }

  lemma PausedStep(s: Sys, l: Label, t: Sys, limits: Limits)
    requires Shaped(s) && PauseKept(s) && s.reg.pause == Paused
    requires Step(s, l, t, limits) && !ResumesPause(s, l)
    ensures LogStands(s, l, t)
  {
    if l.RunWork? {
      PausedWork(s, l, t, limits);
    } else if !l.Restart? {
      OnlyTurnsWrite(s, l, t, limits);
    }
  }

  // ---- Who may begin.

  // In every run: a transaction begins if and only if no pause is in place or
  // requested and, with a cap, fewer are open once the idle ones are gone;
  // and a Begin, admitted or not, changes no other transaction but those.
  lemma BeginsIff(ss: seq<Sys>, ls: seq<Label>, limits: Limits, n: nat)
    requires Run(ss, ls, limits) && n < |ls| && ls[n].Begin?
    ensures var s, t, id := ss[n], ss[n + 1], ls[n].id;
            var open := Expire(s, ls[n].now, limits).reg.txs;
            && id !in open
            && (id in t.reg.txs <==> s.reg.pause == Running && (limits.maxOpen == 0 || |open| < limits.maxOpen))
            && t.reg.txs == if id in t.reg.txs then open[id := TxState(false, ls[n].now)] else open
  {
    AlwaysShaped(ss, ls, limits, n);
    assert Step(ss[n], ls[n], ss[n + 1], limits);
    BeginCases(Expire(ss[n], ls[n].now, limits), ls[n].id, ls[n].now, limits);
  }

  // A pause is requested or in place, and nothing was let in.
  ghost predicate KeepsOut(s: Sys, t: Sys) {
    t.reg.pause != Running && t.reg.txs.Keys <= s.reg.txs.Keys
  }

  lemma PauseWorkKeepsOut(s: Sys, l: Label, u: Sys, limits: Limits)
    requires l.RunWork? && Worked(s, PauseWork, l, u, limits)
    requires s.reg.pause != Running || Expire(s, l.now, limits).reg.txs != map[]
    ensures KeepsOut(s, u) && u.reg.txs == Expire(s, l.now, limits).reg.txs
  {
    PauseFrame(s, PauseWork, l, u, limits);
  }

  lemma WorkKeepsOut(s: Sys, l: Label, t: Sys, limits: Limits)
    requires s.reg.pause != Running && l.RunWork? && RunStep(s, l, t, limits) && !ResumesPause(s, l)
    ensures KeepsOut(s, t)
  {
    var work, u := s.jobs[l.ticket].work, t.(jobs := s.jobs);
    if work.PauseWork? {
      PauseWorkKeepsOut(s, l, u, limits);
    } else {
      StoreWorkFrame(s, work, l, u, limits);
    }
  }

  lemma StepKeepsOut(s: Sys, l: Label, t: Sys, limits: Limits)
    requires s.reg.pause != Running && Step(s, l, t, limits) && !ResumesPause(s, l) && !l.Restart?
    ensures KeepsOut(s, t)
  {
    if l.RunWork? {
      WorkKeepsOut(s, l, t, limits);
    } else {
      OnlyTurnsWrite(s, l, t, limits);
    }
  }

  // No Resume, and no restart, which forgets a pause not yet in place.
  ghost predicate NoneResumes(ss: seq<Sys>, ls: seq<Label>, i: nat, j: nat)
    requires j < |ss| == |ls| + 1
  {
    forall k {:trigger ls[k]} :: i <= k < j ==> !ResumesPause(ss[k], ls[k]) && !ls[k].Restart?
  }

  lemma {:induction false} StaysOut(ss: seq<Sys>, ls: seq<Label>, limits: Limits, i: nat, j: nat)
    requires Run(ss, ls, limits) && i <= j < |ss| && ss[i].reg.pause != Running && NoneResumes(ss, ls, i, j)
    ensures KeepsOut(ss[i], ss[j])
    decreases j
  {
    if i < j {
      StaysOut(ss, ls, limits, i, j - 1);
      StepKeepsOut(ss[j - 1], ls[j - 1], ss[j], limits);
    }
  }

  // In every run: a Pause that finds transactions open lets no other begin
  // from its turn on until Resume, however long they stay; it ends none.
  lemma PauseKeepsOthersOut(ss: seq<Sys>, ls: seq<Label>, limits: Limits, i: nat, j: nat)
    requires Run(ss, ls, limits) && i < j < |ss| && RequestsPause(ss[i], ls[i])
    requires Expire(ss[i], ls[i].now, limits).reg.txs != map[] && NoneResumes(ss, ls, i + 1, j)
    ensures ss[i + 1].reg.txs == Expire(ss[i], ls[i].now, limits).reg.txs
    ensures ss[j].reg.pause != Running && ss[j].reg.txs.Keys <= ss[i + 1].reg.txs.Keys
  {
    assert Step(ss[i], ls[i], ss[i + 1], limits);
    PauseWorkKeepsOut(ss[i], ls[i], ss[i + 1].(jobs := ss[i].jobs), limits);
    StaysOut(ss, ls, limits, i + 1, j);
  }

  // ---- The counter is the table's maximum while nothing deletes the log.

  ghost predicate CounterExact(s: Sys) {
    ValidState(s.store) && s.store.nextSeq == MaxSequence(s.store.log) + 1
  }

  lemma AppendKeepsCounterExact(s: StoreState, events: seq<PendingEvent>, conditions: seq<AppendCondition>,
                                w: Writes, v: Versions, t: StoreState, outcome: AppendOutcome)
    requires VersionsFor(w, v) && AppendStep(s, events, conditions, w, v, t, outcome)
    requires ValidState(s) && s.nextSeq == MaxSequence(s.log) + 1
    ensures ValidState(t) && t.nextSeq == MaxSequence(t.log) + 1
  {
    AppendKeepsValid(s, events, conditions, w, v, t, outcome);
    if outcome.Appended? && events == [] {
      assert t.log == s.log + [];
    }
  }

  lemma WorkedKeepsCounterExact(s: Sys, work: Work, l: Label, u: Sys, limits: Limits)
    requires CounterExact(s) && l.RunWork? && Worked(s, work, l, u, limits) && !work.DeleteEventsWork?
    ensures CounterExact(u)
  {
    match work {
      case CommitWork(_, d) =>
        AppendKeepsCounterExact(s.store, d.events, d.conditions, NetWrites(d), l.versions, u.store, l.outcome);
      case ProjectionsWork(w) =>
        AppendKeepsCounterExact(s.store, [], [], w, l.versions, u.store, l.outcome);
      case _ => LogUntouched(s, work, l, u, limits);
    }
  }

  lemma WorkKeepsCounterExact(s: Sys, l: Label, t: Sys, limits: Limits)
    requires CounterExact(s) && l.RunWork? && RunStep(s, l, t, limits) && !DeletesLog(s, l)
    ensures CounterExact(t)
  {
    WorkedKeepsCounterExact(s, s.jobs[l.ticket].work, l, t.(jobs := s.jobs), limits);
  }

  lemma StepKeepsCounterExact(s: Sys, l: Label, t: Sys, limits: Limits)
    requires CounterExact(s) && Step(s, l, t, limits) && !DeletesLog(s, l)
    ensures CounterExact(t)
  {
    if l.RunWork? {
      WorkKeepsCounterExact(s, l, t, limits);
    } else if !l.Restart? {
      OnlyTurnsWrite(s, l, t, limits);
    }
  }

  lemma {:induction false} CounterAlwaysExact(ss: seq<Sys>, ls: seq<Label>, limits: Limits, n: nat)
    requires Run(ss, ls, limits) && AppendOnly(ss, ls) && n < |ss|
    ensures CounterExact(ss[n])
  {
    if n == 0 {
      MaxIsLast(ss[0].store.log);
    } else {
      CounterAlwaysExact(ss, ls, limits, n - 1);
      StepKeepsCounterExact(ss[n - 1], ls[n - 1], ss[n], limits);
    }
  }

  // ---- The pause is safe.

  // The pause's turn answers that the log ends at last.
  ghost predicate PauseAnswers(s: Sys, l: Label, t: Sys, limits: Limits, last: int)
    requires l.RunWork?
  {
    var c := Expire(s, l.now, limits);
    exists open :: Registry.PauseStep(c.reg, c.store, l.now, t.reg, t.store, Some(last), open)
  }

  lemma PauseAnswersLast(s: Sys, l: Label, t: Sys, limits: Limits, last: int)
    requires l.RunWork? && PauseAnswers(s, l, t, limits, last)
    ensures t.reg.pause == Paused && last == LastSequence(t.store) && t.store.log == s.store.log
  {
  }

  // From any moment the pause is in place until Resume, over any steps of
  // any calls and any restarts: the log and the counter stay as they are.
  lemma {:induction false} PausedLogStandsStill(ss: seq<Sys>, ls: seq<Label>, limits: Limits, i: nat, j: nat)
    requires Run(ss, ls, limits) && AppendOnly(ss, ls) && i <= j < |ss|
    requires ss[i].reg.pause == Paused
    requires forall k {:trigger ls[k]} :: i <= k < j ==> !ResumesPause(ss[k], ls[k])
    ensures ss[j].reg.pause == Paused && ss[j].reg.txs == map[] && ss[j].store.pausedAt.Some?
    ensures ss[j].store.log == ss[i].store.log && LastSequence(ss[j].store) == LastSequence(ss[i].store)
    decreases j
  {
    PauseAlwaysKept(ss, ls, limits, j);
    if i < j {
      PausedLogStandsStill(ss, ls, limits, i, j - 1);
      PauseAlwaysKept(ss, ls, limits, j - 1);
      AlwaysShaped(ss, ls, limits, j - 1);
      CounterAlwaysExact(ss, ls, limits, j - 1);
      PausedStep(ss[j - 1], ls[j - 1], ss[j], limits);
    }
  }

  // So once Pause has answered last, and until Resume, the log is the one it
  // answered for, and last is where it and the counter stay.
  lemma PauseIsSafe(ss: seq<Sys>, ls: seq<Label>, limits: Limits, i: nat, j: nat, last: int)
    requires Run(ss, ls, limits) && AppendOnly(ss, ls) && i < |ls| && i < j < |ss|
    requires ls[i].RunWork? && PauseAnswers(ss[i], ls[i], ss[i + 1], limits, last)
    requires forall k {:trigger ls[k]} :: i < k < j ==> !ResumesPause(ss[k], ls[k])
    ensures ss[j].reg.pause == Paused && ss[j].reg.txs == map[] && ss[j].store.log == ss[i].store.log
    ensures LastSequence(ss[j].store) == MaxSequence(ss[j].store.log) == last
  {
    PauseAnswersLast(ss[i], ls[i], ss[i + 1], limits, last);
    PausedLogStandsStill(ss, ls, limits, i + 1, j);
    CounterAlwaysExact(ss, ls, limits, j);
  }

  // With DELETE /events, in dev mode, the log can still only be emptied.
  lemma {:induction false} PausedLogNeverGrows(ss: seq<Sys>, ls: seq<Label>, limits: Limits, i: nat, j: nat)
    requires Run(ss, ls, limits) && i <= j < |ss|
    requires ss[i].reg.pause == Paused
    requires forall k {:trigger ls[k]} :: i <= k < j ==> !ResumesPause(ss[k], ls[k])
    ensures ss[j].reg.pause == Paused && (ss[j].store.log == ss[i].store.log || ss[j].store.log == [])
    decreases j
  {
    if i < j {
      PausedLogNeverGrows(ss, ls, limits, i, j - 1);
      PauseAlwaysKept(ss, ls, limits, j - 1);
      AlwaysShaped(ss, ls, limits, j - 1);
      PausedStep(ss[j - 1], ls[j - 1], ss[j], limits);
    }
  }

  // ---- The counter is ahead of the log in every run, even one that deletes
  // the log, so the answer it gives without a query is never wrong.

  lemma WorkedKeepsValid(s: Sys, work: Work, l: Label, u: Sys, limits: Limits)
    requires ValidState(s.store) && l.RunWork? && Worked(s, work, l, u, limits)
    ensures ValidState(u.store)
  {
    match work {
      case CommitWork(_, d) =>
        AppendKeepsValid(s.store, d.events, d.conditions, NetWrites(d), l.versions, u.store, l.outcome);
      case ProjectionsWork(w) => AppendKeepsValid(s.store, [], [], w, l.versions, u.store, l.outcome);
      case DeleteEventsWork =>
      case _ => LogUntouched(s, work, l, u, limits);
    }
  }

  lemma StepKeepsValid(s: Sys, l: Label, t: Sys, limits: Limits)
    requires ValidState(s.store) && Step(s, l, t, limits)
    ensures ValidState(t.store)
  {
    if l.RunWork? {
      WorkedKeepsValid(s, s.jobs[l.ticket].work, l, t.(jobs := s.jobs), limits);
    } else if l.Restart? {
      MaxIsLast(s.store.log);
    } else {
      OnlyTurnsWrite(s, l, t, limits);
    }
  }

  lemma {:induction false} AlwaysValid(ss: seq<Sys>, ls: seq<Label>, limits: Limits, n: nat)
    requires Run(ss, ls, limits) && n < |ss|
    ensures ValidState(ss[n].store)
  {
    if n == 0 {
      MaxIsLast(ss[0].store.log);
    } else {
      AlwaysValid(ss, ls, limits, n - 1);
      StepKeepsValid(ss[n - 1], ls[n - 1], ss[n], limits);
    }
  }

  lemma ShortcutNeverWrong(ss: seq<Sys>, ls: seq<Label>, limits: Limits, n: nat, q: Query, after: int)
    requires Run(ss, ls, limits) && n < |ss|
    requires Store.ResolveWithoutQuery(q, after, LastSequence(ss[n].store)).1
    ensures ConditionHolds(AppendCondition(q, after), ss[n].store.log)
  {
    AlwaysValid(ss, ls, limits, n);
    Store.ShortcutAgrees(q, after, ss[n].store);
  }
}
