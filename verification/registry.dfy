// The registry of the open transactions as values: one function for each
// hold of its mutex (internal/tx/tx.go).
module RegistrySpec {
  import opened Wrappers
  import opened Dcb
  import opened TxSpec

  type TxId = string

  // A transaction as the registry sees it: the mutex guards only this. What
  // the transaction holds is touched by no one but the call that uses it.
  datatype TxState = TxState(busy: bool, lastUsed: int)

  datatype Stat = Committed | Abandoned | Expired | DesignErrors

  datatype Stats = Stats(
    begun: nat, committed: nat, abandoned: nat, expired: nat, designErrors: nat, paused: nat, busy: nat, tooMany: nat)

  datatype PauseState = Running | PauseRequested | Paused

  datatype RegState = RegState(txs: map<TxId, TxState>, stats: Stats, pause: PauseState)

  const NO_STATS := Stats(0, 0, 0, 0, 0, 0, 0, 0)

  function Counted(s: Stats, stat: Stat): Stats {
    match stat
    case Committed => s.(committed := s.committed + 1)
    case Abandoned => s.(abandoned := s.abandoned + 1)
    case Expired => s.(expired := s.expired + 1)
    case DesignErrors => s.(designErrors := s.designErrors + 1)
  }

  predicate Idle(t: TxState, now: int, limits: Limits) {
    !t.busy && now - t.lastUsed >= limits.idleTimeout
  }

  function IdleIds(r: RegState, now: int, limits: Limits): set<TxId> {
    set id | id in r.txs && Idle(r.txs[id], now, limits)
  }

  // Every hold of the mutex starts with this: the idle transactions end.
  function Cleaned(r: RegState, now: int, limits: Limits): RegState {
    var idle := IdleIds(r, now, limits);
    r.(txs := r.txs - idle, stats := r.stats.(expired := r.stats.expired + |idle|))
  }

  datatype BeginResult = Begun | RefusedPaused | TooMany

  function BeginResultOf(r: RegState, limits: Limits): BeginResult {
    if r.pause != Running then RefusedPaused
    else if limits.maxOpen > 0 && |r.txs| >= limits.maxOpen then TooMany
    else Begun
  }

  function Admitted(c: RegState, id: TxId, now: int, limits: Limits): RegState {
    match BeginResultOf(c, limits)
    case RefusedPaused => c.(stats := c.stats.(paused := c.stats.paused + 1))
    case TooMany => c.(stats := c.stats.(tooMany := c.stats.tooMany + 1))
    case Begun => c.(txs := c.txs[id := TxState(false, now)], stats := c.stats.(begun := c.stats.begun + 1))
  }

  function AfterBegin(r: RegState, id: TxId, now: int, limits: Limits): RegState {
    Admitted(Cleaned(r, now, limits), id, now, limits)
  }

  datatype AcquireResult = Acquired | NotFound | Busy

  function AcquireResultOf(r: RegState, id: TxId): AcquireResult {
    if id !in r.txs then NotFound else if r.txs[id].busy then Busy else Acquired
  }

  function Taken(c: RegState, id: TxId): RegState {
    match AcquireResultOf(c, id)
    case NotFound => c
    case Busy => c.(stats := c.stats.(busy := c.stats.busy + 1))
    case Acquired => c.(txs := c.txs[id := c.txs[id].(busy := true)])
  }

  function AfterAcquire(r: RegState, id: TxId, now: int, limits: Limits): RegState {
    Taken(Cleaned(r, now, limits), id)
  }

  // What a refusal or a call taken changes in the registry.
  lemma TakenKeeps(c: RegState, id: TxId)
    ensures var r := Taken(c, id);
            && r.pause == c.pause && r.txs.Keys == c.txs.Keys && r.stats == c.stats.(busy := r.stats.busy)
            && r.txs == if AcquireResultOf(c, id).Acquired? then c.txs[id := c.txs[id].(busy := true)] else c.txs
  {
  }

  lemma AdmittedKeeps(c: RegState, id: TxId, now: int, limits: Limits)
    ensures var r := Admitted(c, id, now, limits);
            && r.pause == c.pause
            && r.txs == if BeginResultOf(c, limits).Begun? then c.txs[id := TxState(false, now)] else c.txs
  {
  }

  function Freed(c: RegState, id: TxId, now: int): RegState {
    if id in c.txs then c.(txs := c.txs[id := c.txs[id].(busy := false, lastUsed := now)]) else c
  }

  function AfterRelease(r: RegState, id: TxId, now: int, limits: Limits): RegState {
    Freed(Cleaned(r, now, limits), id, now)
  }

  function Ended(c: RegState, id: TxId): RegState {
    c.(txs := c.txs - {id})
  }

  function AfterEnd(r: RegState, id: TxId, now: int, limits: Limits): RegState {
    Ended(Cleaned(r, now, limits), id)
  }

  function Tallied(c: RegState, stat: Stat): RegState {
    c.(stats := Counted(c.stats, stat))
  }

  function AfterCount(r: RegState, stat: Stat, now: int, limits: Limits): RegState {
    Tallied(Cleaned(r, now, limits), stat)
  }
}

// The registry and its transactions as objects (internal/tx). Each method
// here is one hold of the mutex, or the work of one call between two
// holds; the module Protocol runs them in any order the calls can take.
module Registry {
  import opened Wrappers
  import opened Lists
  import opened Dcb
  import opened Tables
  import opened Sql
  import opened StoreSpec
  import opened Reads
  import opened TxSpec
  import opened Net
  import opened RegistrySpec
  import Store

  datatype Outcome<T> = Done(value: T) | Refused(error: CallError)

  class Transaction {
    const id: TxId
    var busy: bool
    var lastUsed: int
    var open: Option<OpenCondition>
    var conditions: seq<AppendCondition>
    var events: seq<PendingEvent>
    var projections: map<Key, ProjectionState>
    var touched: seq<Key>
    var written: nat

    ghost function Data(): TxData
      reads this
    {
      TxData(open, conditions, events, projections, touched, written)
    }

    ghost function View(): TxState
      reads this`busy, this`lastUsed
    {
      TxState(busy, lastUsed)
    }

    constructor (id: TxId, now: int)
      ensures this.id == id && View() == TxState(false, now) && Data() == NEW_TX
    {
      this.id := id;
      busy, lastUsed := false, now;
      open, conditions, events, projections, touched, written := None, [], [], map[], [], 0;
    }

    method MatchPending(q: Query) returns (pending: seq<PendingEvent>)
      ensures pending == Matching(q, events)
    {
      pending := [];
      for i := 0 to |events|
        invariant pending == Matching(q, events[..i])
      {
        MatchingConcat(q, events[..i], [events[i]]);
        assert events[..i + 1] == events[..i] + [events[i]];
        if Matches(q, events[i].data) {
          pending := pending + [events[i]];
        }
      }
      assert events[..|events|] == events;
    }

    // The rows of the store's snapshot and its position; "none" reads nothing.
    method LoadCommitted(st: Store.Store, limits: Limits, f: Filter) returns (position: int, committed: seq<Event>)
      requires st.Valid() && EmptyTypesCovered(f.query)
      ensures position == if f.query.NoEvent? then 0 else MaxSequence(st.State().log)
      ensures committed == Take(LoadLimit(f.limit, limits.maxEventsPerRead),
                                Directed(f.backwards, Selected(f.query, 0, st.State().log)))
    {
      if f.query.NoEvent? {
        SelectedAfterAll(f.query, 0, st.State().log);
        return 0, [];
      }
      var d := st.ReadDecision(f.query, f.backwards, LoadLimit(f.limit, limits.maxEventsPerRead));
      position, committed := d.position, d.events;
    }

    static lemma ReadsAll(f: Filter, max: nat, log: seq<Event>, events: seq<PendingEvent>)
      ensures var c := Directed(f.backwards, Selected(f.query, 0, log));
              var p := Directed(f.backwards, Matching(f.query, events));
              var loaded := Take(LoadLimit(f.limit, max), c);
              var n := CountOf(f.limit, |loaded| + |Matching(f.query, events)|);
              var full := Limited(f.limit, AllLines(f, log, events));
              && (n <= max <==> |full| <= max)
              && (n <= max ==> n == |full| && Limited(f.limit, LoadedLines(f, Read(loaded, p, n))) == full)
    {
      var c := Directed(f.backwards, Selected(f.query, 0, log));
      var p := Directed(f.backwards, Matching(f.query, events));
      AllLinesInDirection(f, log, events);
      LoadIsEnough(f, max, c, p);
    }

    // Reads the events f.query matches and opens a condition on them. The
    // read is refused for its length exactly when the whole read, after its
    // limit, is over the maximum, however few rows the store loaded.
    method ReadEvents(st: Store.Store, limits: Limits, f: Filter) returns (r: Outcome<Read>)
      requires st.Valid() && EmptyTypesCovered(f.query)
      modifies this`open
      ensures var refusal := ReadRefusal(old(Data()), f, st.State().log, limits);
              && (r.Done? <==> refusal.None?) && (r.Refused? ==> refusal == Some(r.error))
      ensures Data() == if r.Done? then WithEventsRead(old(Data()), f, st.State().log) else old(Data())
      ensures var full := FullRead(f, st.State().log, events);
              r.Done? ==> Limited(f.limit, LoadedLines(f, r.value)) == full && r.value.count == |full|
    {
      if open.Some? {
        return Refused(DesignError);
      }
      if |conditions| + 1 > limits.maxReads {
        return Refused(TooLarge);
      }
      var pending := MatchPending(f.query);
      var position, committed := LoadCommitted(st, limits, f);
      var n := CountOf(f.limit, |committed| + |pending|);
      ReadsAll(f, limits.maxEventsPerRead, st.State().log, events);
      if n > limits.maxEventsPerRead {
        return Refused(TooLarge);
      }
      if f.backwards {
        pending := Reverse(pending);
      }
      open := Some(OpenCondition(f.query, position));
      r := Done(Read(committed, pending, n));
    }

    // Closes the open condition, with the events of its decision.
    method WriteEvents(limits: Limits, data: seq<EventData>, now: nat) returns (r: Outcome<nat>)
      modifies this`events, this`conditions, this`open
      ensures var refusal := WriteRefusal(old(Data()), |data|, limits);
              && (r.Done? <==> refusal.None?) && (r.Refused? ==> refusal == Some(r.error))
      ensures Data() == if r.Done? then WithEventsWritten(old(Data()), data, now) else old(Data())
    {
      if open.None? {
        return Refused(DesignError);
      }
      if |events| + |data| > limits.maxEvents {
        return Refused(TooLarge);
      }
      events := events + PendingAt(data, now);
      conditions := conditions + [AppendCondition(open.value.query, open.value.position)];
      open := None;
      r := Done(now);
    }

    // The first read remembers the version read; a later one sees the
    // projection as the transaction left it.
    method GetProjection(st: Store.Store, key: Key) returns (payload: string, found: bool)
      requires st.Valid()
      modifies this`projections, this`touched
      ensures Data() == WithRead(old(Data()), key,
                if key in st.State().projections then Some(st.State().projections[key]) else None)
      ensures key in projections && found == projections[key].found && payload == projections[key].payload
      ensures key !in old(projections) ==>
                (found <==> key in st.State().projections) && (found ==> payload == st.State().projections[key].payload)
    {
      if key !in projections {
        var row := st.GetProjection(key);
        var s := match row
          case None => ProjectionState(false, "", false, false, "", false)
          case Some(p) => ProjectionState(true, p.version, false, true, p.payload, false);
        projections := projections[key := s];
        touched := touched + [key];
      }
      payload, found := projections[key].payload, projections[key].found;
    }

    // The checks of one list of changes, in its order: each key once in the
    // whole write, each change allowed.
    method CheckChanges(changes: seq<Change>, seen: set<Key>) returns (ok: bool, seen': set<Key>)
      ensures ok <==> Distinct(KeysOf(changes)) && Elements(KeysOf(changes)) !! seen
                      && forall c :: c in changes ==> Allowed(c, projections)
      ensures ok ==> seen' == seen + Elements(KeysOf(changes))
    {
      seen' := seen;
      for i := 0 to |changes|
        invariant seen' == seen + Elements(KeysOf(changes[..i]))
        invariant Distinct(KeysOf(changes[..i])) && Elements(KeysOf(changes[..i])) !! seen
        invariant forall c :: c in changes[..i] ==> Allowed(c, projections)
      {
        var c := changes[i];
        assert KeysOf(changes)[i] == c.key && c in changes;
        assert KeysOf(changes[..i + 1]) == KeysOf(changes[..i]) + [c.key];
        if c.key in seen' {
          if c.key !in seen {
            var j :| 0 <= j < i && KeysOf(changes[..i])[j] == c.key;
            assert KeysOf(changes)[j] == KeysOf(changes)[i];
          } else {
            assert c.key in Elements(KeysOf(changes));
          }
          return false, seen';
        }
        if !Allowed(c, projections) {
          return false, seen';
        }
        seen' := seen' + {c.key};
      }
      assert changes[..|changes|] == changes;
      ok := true;
    }

    method Make(c: Change)
      modifies this`projections, this`touched
      ensures Data() == Changed(old(Data()), c)
    {
      match c {
        case Put(k, payload, _) =>
          if k !in projections {
            projections := projections[k := ProjectionState(false, "", true, false, "", false)];
            touched := touched + [k];
          }
          projections := projections[k := projections[k].(found := true, payload := payload, written := true)];
        case Remove(k) =>
          if k in projections {
            projections := projections[k := projections[k].(found := false, payload := "", written := true)];
          }
      }
    }

    // The three loops that change the projections.
    method MakeAll(changes: seq<Change>)
      modifies this`projections, this`touched
      ensures Data() == ChangedAll(old(Data()), changes)
    {
      for i := 0 to |changes|
        invariant Data() == ChangedAll(old(Data()), changes[..i])
      {
        assert changes[..i + 1][..i] == changes[..i];
        Make(changes[i]);
      }
      assert changes[..|changes|] == changes;
    }

    // The three loops of checks.
    method CheckWrites(w: TxWrites) returns (ok: bool, seen: set<Key>)
      ensures ok <==> Distinct(KeysOf(Changes(w))) && forall c :: c in Changes(w) ==> Allowed(c, projections)
      ensures ok ==> seen == Elements(KeysOf(Changes(w)))
    {
      ok, seen := CheckChanges(Changes(w), {});
    }

    // A projection written again counts once.
    method CountWritten(seen: set<Key>) returns (n: nat)
      ensures n == written + |seen - WrittenKeys(projections)|
    {
      n := written;
      var left := seen;
      while left != {}
        invariant left <= seen
        invariant n + |left - WrittenKeys(projections)| == written + |seen - WrittenKeys(projections)|
        decreases |left|
      {
        var k :| k in left;
        if k !in projections || !projections[k].written {
          assert left - WrittenKeys(projections) == (left - {k} - WrittenKeys(projections)) + {k};
          n := n + 1;
        } else {
          assert left - WrittenKeys(projections) == left - {k} - WrittenKeys(projections);
        }
        left := left - {k};
      }
    }

    method WriteProjections(limits: Limits, w: TxWrites) returns (r: Outcome<()>)
      modifies this`projections, this`touched, this`written
      ensures r == Refused(DesignError) <==> !WritesAllowed(old(Data()), w)
      ensures r.Done? <==> WritesAllowed(old(Data()), w) && WrittenAfter(old(Data()), w) <= limits.maxProjections
      ensures Data() == if r.Done? then WithWrites(old(Data()), w) else old(Data())
    {
      var allowed, seen := CheckWrites(w);
      assert WritesAllowed(Data(), w) <==> open.None? && Changes(w) != [] && allowed;
      if open.Some? || Changes(w) == [] || !allowed {
        return Refused(DesignError);
      }
      var n := CountWritten(seen);
      if n > limits.maxProjections {
        return Refused(TooLarge);
      }
      written := n;
      MakeAll(Changes(w));
      r := Done(());
    }

    method NetProjections() returns (w: Writes, keys: OpKeys)
      requires Tracked(Data())
      ensures w == NetWrites(Data()) && keys == NetOpKeys(Data())
    {
      w, keys := Writes([], [], []), OpKeys([], [], [], []);
      assert forall k :: k in touched ==> k in Elements(Data().touched);
      for i := 0 to |touched|
        invariant w == NetWrites(Data().(touched := touched[..i]))
                  && keys == NetOpKeys(Data().(touched := touched[..i]))
      {
        assert touched[..i + 1][..i] == touched[..i];
        var k := touched[i];
        var s := projections[k];
        if !s.written {
          continue;
        }
        if !s.readFound && s.found {
          w := w.(create := w.create + [Create(k, s.payload)]);
          keys := keys.(create := keys.create + [k], unread := keys.unread + [s.unread]);
        } else if s.readFound && s.found {
          w := w.(replace := w.replace + [Replace(k, s.readVersion, s.payload)]);
          keys := keys.(replace := keys.replace + [k]);
        } else if s.readFound && !s.found {
          w := w.(delete := w.delete + [Delete(k, s.readVersion)]);
          keys := keys.(delete := keys.delete + [k]);
        }
      }
      assert touched[..|touched|] == touched;
    }
  }

  // What Pause does in its turn, on the cleaned registry c: last is the
  // position it answers once the pause is in place, open how many
  // transactions hold it back. An error of the store changes nothing.
  ghost predicate PauseStep(c: RegState, s: StoreState, now: nat, r: RegState, s': StoreState,
                            last: Option<int>, open: nat) {
    if c.pause == Paused then
      r == c && s' == s && last == Some(LastSequence(s)) && open == 0
    else if c.txs != map[] then
      r == c.(pause := PauseRequested) && s' == s && last == None && open == |c.txs|
    else
      || (r == c && s' == s && last == None && open == 0)
      || (r == c.(pause := Paused) && s' == s.(pausedAt := Some(now)) && last == Some(LastSequence(s)) && open == 0)
  }

  ghost predicate ResumeStep(c: RegState, s: StoreState, r: RegState, s': StoreState) {
    if c.pause == Paused then
      (r == c && s' == s) || (r == c.(pause := Running) && s' == s.(pausedAt := None))
    else r == c.(pause := Running) && s' == s
  }

  class Registry {
    const limits: Limits
    var txs: map<TxId, Transaction>
    var stats: Stats
    var pause: PauseState

    ghost predicate Valid()
      reads this
    {
      forall id :: id in txs ==> txs[id].id == id
    }

    static ghost function Views(txs: map<TxId, Transaction>): (views: map<TxId, TxState>)
      reads txs.Values`busy, txs.Values`lastUsed
      ensures views.Keys == txs.Keys
    {
      map id | id in txs :: txs[id].View()
    }

    ghost function State(): RegState
      reads this, txs.Values`busy, txs.Values`lastUsed
    {
      RegState(Views(txs), stats, pause)
    }

    constructor (limits: Limits, paused: bool)
      ensures Valid() && State() == RegState(map[], NO_STATS, if paused then Paused else Running)
      ensures this.limits == limits
    {
      this.limits := limits;
      txs, stats, pause := map[], NO_STATS, if paused then Paused else Running;
    }

    ghost function IdleNow(txs: map<TxId, Transaction>, now: int): set<TxId>
      reads txs.Values`busy, txs.Values`lastUsed
    {
      set id | id in txs && Idle(txs[id].View(), now, limits)
    }

    method RemoveIfIdle(id: TxId, now: int)
      requires id in txs
      modifies this
      ensures pause == old(pause)
      ensures if Idle(old(txs)[id].View(), now, limits) then
                txs == old(txs) - {id} && stats == old(stats).(expired := old(stats).expired + 1)
              else txs == old(txs) && stats == old(stats)
    {
      var t := txs[id];
      if !t.busy && now - t.lastUsed >= limits.idleTimeout {
        txs := txs - {id};
        stats := stats.(expired := stats.expired + 1);
      }
    }

    static lemma RemoveOne(all: map<TxId, Transaction>, removed: set<TxId>, id: TxId)
      ensures all - removed - {id} == all - (removed + {id})
    {
    }

    // The walk over the whole registry.
    method RemoveIdle(now: int)
      modifies this
      ensures txs == old(txs) - IdleNow(old(txs), now) && pause == old(pause)
      ensures stats == old(stats).(expired := old(stats).expired + |IdleNow(old(txs), now)|)
    {
      var left := txs.Keys;
      ghost var all, idle, removed := txs, IdleNow(txs, now), {};
      while left != {}
        invariant left <= all.Keys && pause == old(pause)
        invariant forall id :: id in removed <==> id in idle && id !in left
        invariant txs == all - removed && stats == old(stats).(expired := old(stats).expired + |removed|)
        decreases |left|
      {
        var id :| id in left;
        RemoveIfIdle(id, now);
        left := left - {id};
        if id in idle {
          RemoveOne(all, removed, id);
          removed := removed + {id};
        }
      }
      assert removed == idle;
    }

    method Lock(now: int)
      requires Valid()
      modifies this
      ensures Valid() && State() == Cleaned(old(State()), now, limits)
      ensures txs == old(txs) - IdleNow(old(txs), now)
    {
      RemoveIdle(now);
      assert IdleNow(old(txs), now) == IdleIds(old(State()), now, limits);
      assert Views(txs) == old(Views(txs)) - IdleNow(old(txs), now);
    }

    method CountOpen() returns (n: nat)
      requires Valid()
      ensures n == |Views(txs)|
    {
      n := |txs.Keys|;
      assert n == |Views(txs).Keys|;
    }

    method AddOpen(t: Transaction, now: int)
      requires Valid() && t.View() == TxState(false, now)
      modifies this
      ensures Valid() && pause == old(pause) && stats == old(stats).(begun := old(stats).begun + 1)
      ensures Views(txs) == old(Views(txs))[t.id := TxState(false, now)]
    {
      txs := txs[t.id := t];
      stats := stats.(begun := stats.begun + 1);
    }

    method Admit(t: Transaction, now: int) returns (r: BeginResult)
      requires Valid() && t.id !in txs && t.View() == TxState(false, now)
      modifies this
      ensures Valid() && State() == Admitted(old(State()), t.id, now, limits)
      ensures r == BeginResultOf(old(State()), limits)
    {
      var n := CountOpen();
      if pause != Running {
        stats := stats.(paused := stats.paused + 1);
        return RefusedPaused;
      }
      if limits.maxOpen > 0 && n >= limits.maxOpen {
        stats := stats.(tooMany := stats.tooMany + 1);
        return TooMany;
      }
      AddOpen(t, now);
      r := Begun;
    }

    // id is fresh: no open transaction has it.
    method Begin(id: TxId, now: int) returns (r: BeginResult)
      requires Valid() && id !in txs
      modifies this
      ensures Valid() && State() == AfterBegin(old(State()), id, now, limits)
      ensures r == BeginResultOf(Cleaned(old(State()), now, limits), limits)
      ensures (r.RefusedPaused? <==> old(pause) != Running) && (r.Begun? <==> id in txs)
    {
      var t := new Transaction(id, now);
      Lock(now);
      r := Admit(t, now);
    }

    method TakeFree(id: TxId) returns (r: AcquireResult, t: Transaction?)
      requires Valid()
      modifies this, txs.Values`busy
      ensures Valid() && txs == old(txs) && State() == Taken(old(State()), id)
      ensures r == AcquireResultOf(old(State()), id)
      ensures if r.Acquired? then id in txs && t == txs[id] else t == null
    {
      if id !in txs {
        return NotFound, null;
      }
      t := txs[id];
      if t.busy {
        stats := stats.(busy := stats.busy + 1);
        return Busy, null;
      }
      t.busy := true;
      r := Acquired;
    }

    method Acquire(id: TxId, now: int) returns (r: AcquireResult, t: Transaction?)
      requires Valid()
      modifies this, txs.Values`busy
      ensures Valid() && State() == AfterAcquire(old(State()), id, now, limits)
      ensures r == AcquireResultOf(Cleaned(old(State()), now, limits), id)
      ensures if r.Acquired? then id in txs && t == txs[id] else t == null
      ensures r.NotFound? <==> id !in txs
      ensures r.Busy? <==> id in txs && old(txs[id].busy)
    {
      Lock(now);
      r, t := TakeFree(id);
    }

    method Free(t: Transaction, now: int)
      requires Valid() && (t.id in txs ==> txs[t.id] == t)
      modifies t`busy, t`lastUsed
      ensures Valid() && State() == Freed(old(State()), t.id, now)
    {
      t.busy := false;
      t.lastUsed := now;
    }

    // t may have left the registry; no other transaction has its id.
    method Release(t: Transaction, now: int)
      requires Valid() && (t.id in txs ==> txs[t.id] == t)
      modifies this, t`busy, t`lastUsed
      ensures Valid() && State() == AfterRelease(old(State()), t.id, now, limits)
    {
      Lock(now);
      Free(t, now);
    }

    method End(t: Transaction, now: int)
      requires Valid()
      modifies this
      ensures Valid() && State() == AfterEnd(old(State()), t.id, now, limits)
    {
      Lock(now);
      txs := txs - {t.id};
    }

    method Count(stat: Stat, now: int)
      requires Valid()
      modifies this
      ensures Valid() && State() == AfterCount(old(State()), stat, now, limits)
    {
      Lock(now);
      stats := Counted(stats, stat);
    }

    method TryPause(st: Store.Store, now: nat, fault: bool) returns (last: Option<int>, open: nat)
      requires Valid() && st.Valid()
      modifies this`pause, st
      ensures Valid() && st.Valid()
      ensures PauseStep(old(State()), old(st.State()), now, State(), st.State(), last, open)
      ensures last.None? && open == 0 ==> fault
    {
      var n := CountOpen();
      open := 0;
      if pause == Paused {
        last := Some(st.nextSeq - 1);
      } else if n > 0 {
        if pause == Running {
          pause := PauseRequested;
        }
        last, open := None, n;
      } else {
        last := st.SetPause(now, fault);
        if last.Some? {
          pause := Paused;
        }
      }
    }

    // Pause, once it has the turn: it never waits for a transaction.
    method PauseInTurn(st: Store.Store, now: nat, fault: bool) returns (last: Option<int>, open: nat)
      requires Valid() && st.Valid()
      modifies this, st
      ensures Valid() && st.Valid()
      ensures PauseStep(Cleaned(old(State()), now, limits), old(st.State()), now, State(), st.State(), last, open)
      ensures last.None? && open == 0 ==> fault
      ensures open > 0 <==> old(pause) != Paused && txs != map[]
      ensures open > 0 ==> pause != Running && open == |txs| && last.None?
      ensures last.Some? ==> pause == Paused && last.value == LastSequence(st.State())
    {
      Lock(now);
      last, open := TryPause(st, now, fault);
    }

    method EndPause(st: Store.Store, fault: bool)
      requires Valid() && st.Valid()
      modifies this`pause, st
      ensures Valid() && st.Valid()
      ensures ResumeStep(old(State()), old(st.State()), State(), st.State())
      ensures !fault ==> pause == Running
    {
      if pause == Paused {
        var ok := st.ClearPause(fault);
        if !ok {
          return;
        }
      }
      if pause != Running {
        pause := Running;
      }
    }

    method ResumeInTurn(st: Store.Store, now: nat, fault: bool)
      requires Valid() && st.Valid()
      modifies this, st
      ensures Valid() && st.Valid()
      ensures ResumeStep(Cleaned(old(State()), now, limits), old(st.State()), State(), st.State())
      ensures !fault ==> pause == Running
    {
      Lock(now);
      EndPause(st, fault);
    }
  }
}
