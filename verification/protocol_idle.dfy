// How long a transaction lives without a call (internal/tx/tx.go): each call
// renews it as it ends, and the first hold of the mutex that finds it idle
// for the timeout ends it.
module ProtocolIdle {
  import opened RegistrySpec
  import opened TxSpec
  import opened Protocol
  import opened ProtocolShape
  import opened ProtocolFrames

  // The step begins the transaction, or ends a call on it, and leaves it
  // open with no call using it.
  predicate Renews(l: Label, t: Sys, id: TxId) {
    (l.Begin? || l.Section?) && l.id == id && id in t.reg.txs && id !in t.calls
  }

  // The step holds the registry's mutex.
  predicate Holds(s: Sys, l: Label) {
    OfRegistry(l) || RequestsPause(s, l) || ResumesPause(s, l)
  }

  // This hold finds a transaction last renewed at u idle for the timeout.
  predicate FindsIdle(s: Sys, l: Label, u: int, limits: Limits) {
    Holds(s, l) && l.now - u >= limits.idleTimeout
  }

  ghost predicate NeverIdle(ss: seq<Sys>, ls: seq<Label>, limits: Limits, i: nat, n: nat, u: int)
    requires n < |ss| == |ls| + 1
  {
    forall j {:trigger ls[j]} :: i < j < n ==> !FindsIdle(ss[j], ls[j], u, limits)
  }

  // No call uses the transaction after step i, and the process lives.
  ghost predicate Unused(ss: seq<Sys>, ls: seq<Label>, i: nat, n: nat, id: TxId)
    requires n < |ss| == |ls| + 1
  {
    && (forall j :: i < j <= n ==> id !in ss[j].calls)
    && forall j :: i < j < n ==> !ls[j].Restart?
  }

  // A transaction begun and last renewed at u is open, or has expired.
  ghost predicate Left(s: Sys, id: TxId, u: int, open: bool) {
    && id in s.begun && (id in s.reg.txs <==> open) && (id in s.counted <==> !open)
    && (if open then s.reg.txs[id] == TxState(false, u) else s.counted[id] == Expired)
  }

  // ---- Steps.

  lemma BegunNow(c: Sys, id: TxId, now: int, limits: Limits)
    requires id !in c.reg.txs && id in BeginStep(c, id, now, limits).reg.txs
    ensures var t := BeginStep(c, id, now, limits);
            id in t.begun && t.reg.txs[id] == TxState(false, now)
  {
    BeginCases(c, id, now, limits);
  }

  lemma FreedNow(c: Sys, id: TxId, now: int, todo: Todo)
    requires id in SectionStep(c, id, now, todo).reg.txs && id !in SectionStep(c, id, now, todo).calls
    ensures var t := SectionStep(c, id, now, todo);
            t.begun == c.begun && t.reg.txs[id] == TxState(false, now)
  {
    match todo {
      case Release =>
      case End(_) =>
      case Count(_, _) =>
    }
  }

  lemma RenewedNow(s: Sys, l: Label, t: Sys, limits: Limits, id: TxId)
    requires Shaped(s) && Step(s, l, t, limits) && Renews(l, t, id)
    ensures Left(t, id, l.now, true)
  {
    StepShaped(s, l, t, limits);
    var c := Expire(s, l.now, limits);
    if l.Begin? {
      BegunNow(c, id, l.now, limits);
    } else {
      FreedNow(c, id, l.now, s.calls[id].todo);
    }
  }

  ghost predicate KeepsIt(s: Sys, t: Sys, id: TxId) {
    && id in t.begun && (id in t.reg.txs <==> id in s.reg.txs)
    && (id in t.reg.txs ==> t.reg.txs[id] == s.reg.txs[id])
    && (id in t.counted <==> id in s.counted) && (id in t.counted ==> t.counted[id] == s.counted[id])
  }

  lemma ExpireIdle(s: Sys, now: int, limits: Limits, id: TxId, u: int, open: bool)
    requires Left(s, id, u, open)
    ensures Left(Expire(s, now, limits), id, u, open && now - u < limits.idleTimeout)
  {
  }

  lemma AcquireKeepsIt(c: Sys, other: TxId, intent: Intent, id: TxId)
    requires id in c.begun && id !in AcquireStep(c, other, intent).calls
    ensures KeepsIt(c, AcquireStep(c, other, intent), id)
  {
    TakenKeeps(c.reg, other);
  }

  lemma SectionKeepsIt(c: Sys, other: TxId, now: int, todo: Todo, id: TxId)
    requires id in c.begun && other != id
    ensures KeepsIt(c, SectionStep(c, other, now, todo), id)
  {
  }

  lemma RegistryKeepsIt(s: Sys, l: Label, t: Sys, limits: Limits, id: TxId)
    requires OfRegistry(l) && Step(s, l, t, limits) && id in s.begun && id !in s.calls && id !in t.calls
    ensures KeepsIt(Expire(s, l.now, limits), t, id)
  {
    var c := Expire(s, l.now, limits);
    match l {
      case Begin(other, now) => BeginCases(c, other, now, limits);
      case Acquire(other, _, intent) => AcquireKeepsIt(c, other, intent, id);
      case Section(other, now) => SectionKeepsIt(c, other, now, s.calls[other].todo, id);
    }
  }

  lemma WorkKeepsIt(s: Sys, work: Work, l: Label, u: Sys, limits: Limits, id: TxId)
    requires l.RunWork? && Worked(s, work, l, u, limits) && id in s.begun
    ensures KeepsIt(if work.PauseWork? || work.ResumeWork? then Expire(s, l.now, limits) else s, u, id)
  {
    if work.PauseWork? || work.ResumeWork? {
      PauseFrame(s, work, l, u, limits);
    } else {
      StoreWorkFrame(s, work, l, u, limits);
    }
  }

  lemma RunKeepsIt(s: Sys, l: Label, t: Sys, limits: Limits, id: TxId)
    requires l.RunWork? && RunStep(s, l, t, limits) && id in s.begun
    ensures KeepsIt(if Holds(s, l) then Expire(s, l.now, limits) else s, t, id)
  {
    WorkKeepsIt(s, s.jobs[l.ticket].work, l, t.(jobs := s.jobs), limits, id);
  }

  lemma KeptLeft(s: Sys, t: Sys, id: TxId, u: int, open: bool)
    requires Left(s, id, u, open) && KeepsIt(s, t, id)
    ensures Left(t, id, u, open)
  {
  }

  lemma OthersKeepIt(s: Sys, l: Label, t: Sys, limits: Limits, id: TxId)
    requires Step(s, l, t, limits) && !OfRegistry(l) && !l.RunWork? && !l.Restart? && id in s.begun
    ensures KeepsIt(s, t, id)
  {
    if WorksOn(l) {
      WorkMovesOn(s, l, t, limits);
    } else if l.Commit? {
      CommitFrame(s, l.id);
    } else {
      LineFrame(s, l, t, limits);
    }
  }

  // While no call uses it, a step ends it exactly if it finds it idle; once
  // gone it stays away.
  lemma UnusedStep(s: Sys, l: Label, t: Sys, limits: Limits, id: TxId, u: int, open: bool)
    requires Step(s, l, t, limits) && !l.Restart? && id !in s.calls && id !in t.calls && Left(s, id, u, open)
    ensures Left(t, id, u, open && !FindsIdle(s, l, u, limits))
  {
    if OfRegistry(l) {
      ExpireIdle(s, l.now, limits, id, u, open);
      RegistryKeepsIt(s, l, t, limits, id);
      KeptLeft(Expire(s, l.now, limits), t, id, u, open && l.now - u < limits.idleTimeout);
    } else if l.RunWork? {
      ExpireIdle(s, l.now, limits, id, u, open);
      RunKeepsIt(s, l, t, limits, id);
    } else {
      OthersKeepIt(s, l, t, limits, id);
    }
  }

  // ---- The theorem.

  lemma OneMoreHold(ss: seq<Sys>, ls: seq<Label>, limits: Limits, i: nat, k: nat, u: int)
    requires i < k < |ls| && |ss| == |ls| + 1
    ensures NeverIdle(ss, ls, limits, i, k + 1, u) <==>
              NeverIdle(ss, ls, limits, i, k, u) && !FindsIdle(ss[k], ls[k], u, limits)
  {
    assert ls[k] == ls[k];
  }

  lemma FirstLeft(ss: seq<Sys>, ls: seq<Label>, limits: Limits, i: nat, id: TxId)
    requires Run(ss, ls, limits) && i < |ls| && Renews(ls[i], ss[i + 1], id)
    ensures Left(ss[i + 1], id, ls[i].now, true)
  {
    AlwaysShaped(ss, ls, limits, i);
    RenewedNow(ss[i], ls[i], ss[i + 1], limits, id);
  }

  lemma NextLeft(ss: seq<Sys>, ls: seq<Label>, limits: Limits, i: nat, k: nat, id: TxId, u: int)
    requires Run(ss, ls, limits) && i < k < |ls| && Unused(ss, ls, i, k + 1, id)
    requires Left(ss[k], id, u, NeverIdle(ss, ls, limits, i, k, u))
    ensures Left(ss[k + 1], id, u, NeverIdle(ss, ls, limits, i, k + 1, u))
  {
    OneMoreHold(ss, ls, limits, i, k, u);
    UnusedStep(ss[k], ls[k], ss[k + 1], limits, id, u, NeverIdle(ss, ls, limits, i, k, u));
  }

  lemma {:induction false} UnusedRun(ss: seq<Sys>, ls: seq<Label>, limits: Limits, i: nat, n: nat, id: TxId)
    requires Run(ss, ls, limits) && i < n < |ss| && Renews(ls[i], ss[i + 1], id) && Unused(ss, ls, i, n, id)
    ensures Left(ss[n], id, ls[i].now, NeverIdle(ss, ls, limits, i, n, ls[i].now))
    decreases n
  {
    if n == i + 1 {
      FirstLeft(ss, ls, limits, i, id);
    } else {
      UnusedRun(ss, ls, limits, i, n - 1, id);
      NextLeft(ss, ls, limits, i, n - 1, id, ls[i].now);
    }
  }

  // In every run, while no call uses a transaction: it is open if and only
  // if no hold of the mutex since came the timeout or more after the step that
  // last began it or ended a call on it; so it goes at the first that does,
  // and is counted as expired.
  lemma OpenUntilIdle(ss: seq<Sys>, ls: seq<Label>, limits: Limits, i: nat, n: nat, id: TxId)
    requires Run(ss, ls, limits) && i < n < |ss| && Renews(ls[i], ss[i + 1], id) && Unused(ss, ls, i, n, id)
    ensures id in ss[n].reg.txs <==> NeverIdle(ss, ls, limits, i, n, ls[i].now)
    ensures if id in ss[n].reg.txs then id !in ss[n].counted else id in ss[n].counted && ss[n].counted[id] == Expired
  {
    UnusedRun(ss, ls, limits, i, n, id);
  }

  // And so the next call on it gets it, or doesn't find it.
  lemma CallFindsIt(ss: seq<Sys>, ls: seq<Label>, limits: Limits, i: nat, n: nat, id: TxId)
    requires Run(ss, ls, limits) && i < n < |ls| && Renews(ls[i], ss[i + 1], id) && Unused(ss, ls, i, n, id)
    requires ls[n].Acquire? && ls[n].id == id
    ensures id in ss[n + 1].calls <==>
              NeverIdle(ss, ls, limits, i, n, ls[i].now) && ls[n].now - ls[i].now < limits.idleTimeout
  {
    UnusedRun(ss, ls, limits, i, n, id);
    ExpireIdle(ss[n], ls[n].now, limits, id, ls[i].now, NeverIdle(ss, ls, limits, i, n, ls[i].now));
    assert Step(ss[n], ls[n], ss[n + 1], limits);
  }
}
