// The ticket line as values (internal/queue): one function for each hold of
// its mutex, and the runs those make.
module Line {

  // next is the ticket the next request gets, served the one that holds the
  // turn. maxQueued 0 means uncapped.
  datatype Line = Line(next: nat, served: nat, closed: bool, maxQueued: nat)

  function Waiting(l: Line): int {
    if l.next == l.served then 0 else l.next - l.served - 1
  }

  datatype JoinResult = Ticket(ticket: nat) | Closed | Full

  function JoinResultOf(l: Line): JoinResult {
    if l.closed then Closed
    else if l.maxQueued > 0 && Waiting(l) >= l.maxQueued then Full
    else Ticket(l.next)
  }

  function AfterJoin(l: Line): Line {
    if JoinResultOf(l).Ticket? then l.(next := l.next + 1) else l
  }

  datatype WakeResult = HasTurn | TurnedAway | KeepsWaiting

  // What a request that holds a ticket finds each time it wakes.
  function WakeResultOf(l: Line, ticket: nat): WakeResult {
    if ticket == l.served then HasTurn else if l.closed then TurnedAway else KeepsWaiting
  }

  function AfterDone(l: Line): Line { l.(served := l.served + 1) }

  function AfterClose(l: Line): Line { l.(closed := true) }

  // ---- Runs: the requests that joined and have not left, and every turn
  // given so far, in order.

  datatype Phase = Queued | HoldsTurn

  datatype Requests = Requests(line: Line, phase: map<nat, Phase>, turns: seq<nat>)

  ghost predicate Start(r: Requests) {
    r.line.next == 0 && r.line.served == 0 && r.phase == map[] && r.turns == []
  }

  datatype LineStep = Join | Wake(ticket: nat) | Done(ticket: nat) | Close

  ghost predicate Step(r: Requests, step: LineStep, t: Requests) {
    match step
    case Join =>
      if JoinResultOf(r.line).Ticket? then
        t == Requests(AfterJoin(r.line), r.phase[r.line.next := Queued], r.turns)
      else t == r
    case Wake(ticket) =>
      && ticket in r.phase && r.phase[ticket].Queued?
      && t == (match WakeResultOf(r.line, ticket)
               case HasTurn => r.(phase := r.phase[ticket := HoldsTurn], turns := r.turns + [ticket])
               case TurnedAway => r.(phase := r.phase - {ticket})
               case KeepsWaiting => r)
    case Done(ticket) =>
      && ticket in r.phase && r.phase[ticket].HoldsTurn?
      && t == Requests(AfterDone(r.line), r.phase - {ticket}, r.turns)
    case Close => t == r.(line := AfterClose(r.line))
  }

  // Only the served ticket holds the turn; the others are behind it, and none
  // is missing until the line closes; turns went to the tickets 0, 1, 2, ...
  // in order; the line is within its cap.
  ghost predicate InOrder(r: Requests) {
    && r.line.served <= r.line.next
    && (forall k :: k in r.phase ==> r.line.served <= k < r.line.next)
    && (!r.line.closed ==> forall k :: r.line.served <= k < r.line.next ==> k in r.phase)
    && (forall k :: k in r.phase && r.phase[k].HoldsTurn? ==> k == r.line.served)
    && (forall i :: 0 <= i < |r.turns| ==> r.turns[i] == i)
    && |r.turns| == r.line.served + (if r.line.served in r.phase && r.phase[r.line.served].HoldsTurn? then 1 else 0)
    && (r.line.maxQueued > 0 ==> r.line.next - r.line.served <= r.line.maxQueued + 1)
  }

  lemma StepKeepsOrder(r: Requests, step: LineStep, t: Requests)
    requires InOrder(r) && Step(r, step, t)
    ensures InOrder(t) && t.line.maxQueued == r.line.maxQueued && r.turns <= t.turns
  {
  }

  ghost predicate Run(rs: seq<Requests>, steps: seq<LineStep>) {
    && |rs| == |steps| + 1 && Start(rs[0])
    && forall i :: 0 <= i < |steps| ==> Step(rs[i], steps[i], rs[i + 1])
  }

  // In every run, at every moment: at most one request holds the turn, and
  // turns go in ticket order, one each.
  lemma {:induction false} TurnsInTicketOrder(rs: seq<Requests>, steps: seq<LineStep>, n: nat)
    requires Run(rs, steps) && n < |rs|
    ensures InOrder(rs[n])
    ensures forall i, j ::
              i in rs[n].phase && j in rs[n].phase && rs[n].phase[i].HoldsTurn? && rs[n].phase[j].HoldsTurn? ==> i == j
  {
    if n > 0 {
      TurnsInTicketOrder(rs, steps, n - 1);
      StepKeepsOrder(rs[n - 1], steps[n - 1], rs[n]);
    }
  }

  lemma {:induction false} IntervalSize(s: set<nat>, lo: nat, hi: nat)
    requires lo <= hi && forall k: nat :: k in s <==> lo <= k < hi
    ensures |s| == hi - lo
    decreases hi
  {
    if lo < hi {
      var k: nat := hi - 1;
      IntervalSize(s - {k}, lo, k);
    }
  }

  // Whether a request gets a ticket, by the requests in the line: none once
  // it is closed, and otherwise any with no cap, or with at most as many in
  // it as the cap, since the one that has the turn doesn't wait.
  predicate HasRoom(r: Requests) {
    !r.line.closed && (r.line.maxQueued == 0 || |r.phase| <= r.line.maxQueued)
  }

  lemma RoomByRequests(r: Requests)
    requires InOrder(r)
    ensures !r.line.closed ==> |r.phase| == r.line.next - r.line.served
    ensures !r.line.closed ==> Waiting(r.line) == if r.phase == map[] then 0 else |r.phase| - 1
    ensures JoinResultOf(r.line) == if HasRoom(r) then Ticket(r.line.next) else if r.line.closed then Closed else Full
  {
    if !r.line.closed {
      IntervalSize(r.phase.Keys, r.line.served, r.line.next);
      assert |r.phase| == |r.phase.Keys| && (r.phase == map[] <==> r.phase.Keys == {});
    }
  }

  // In every run: a request that joins is in the line afterwards if and only
  // if there is room for it, and if not nothing changes.
  lemma JoinsWhileRoom(rs: seq<Requests>, steps: seq<LineStep>, n: nat)
    requires Run(rs, steps) && n < |steps| && steps[n].Join?
    ensures !rs[n].line.closed ==> |rs[n].phase| == rs[n].line.next - rs[n].line.served
    ensures if HasRoom(rs[n]) then
              rs[n].line.next !in rs[n].phase && rs[n + 1].phase == rs[n].phase[rs[n].line.next := Queued]
            else rs[n + 1] == rs[n]
  {
    TurnsInTicketOrder(rs, steps, n);
    RoomByRequests(rs[n]);
    assert Step(rs[n], steps[n], rs[n + 1]);
  }

  // In every run: once the line closes it stays closed, and takes no request.
  lemma {:induction false} ClosedTakesNone(rs: seq<Requests>, steps: seq<LineStep>, i: nat, j: nat)
    requires Run(rs, steps) && i < j < |rs| && (steps[i].Close? || rs[i].line.closed)
    ensures rs[j].line.closed && rs[j].phase.Keys <= rs[i].phase.Keys
    decreases j
  {
    if i + 1 < j {
      ClosedTakesNone(rs, steps, i, j - 1);
    }
    assert Step(rs[j - 1], steps[j - 1], rs[j]);
  }

  // How far a waiting request is from the turn.
  function Distance(r: Requests, ticket: nat): int { ticket - r.line.served }

  // A waiting request is never passed: its distance never grows, each turn
  // done brings it one nearer, and at distance 0 its next wake is its turn.
  lemma WaitingGetsNearer(r: Requests, step: LineStep, t: Requests, ticket: nat)
    requires InOrder(r) && Step(r, step, t)
    requires ticket in r.phase && r.phase[ticket].Queued?
    ensures Distance(r, ticket) >= 0
    ensures step.Done? ==>
              ticket in t.phase && t.phase[ticket].Queued? && Distance(t, ticket) == Distance(r, ticket) - 1
    ensures !step.Done? ==> Distance(t, ticket) == Distance(r, ticket)
    ensures step == Wake(ticket) && Distance(r, ticket) == 0 ==> t.turns == r.turns + [ticket]
    ensures ticket !in t.phase <==> step == Wake(ticket) && r.line.closed && Distance(r, ticket) > 0
  {
  }

  function DonesBetween(steps: seq<LineStep>, i: nat, j: nat): nat
    requires i <= j <= |steps|
    decreases j
  {
    if i == j then 0 else DonesBetween(steps, i, j - 1) + if steps[j - 1].Done? then 1 else 0
  }

  lemma {:induction false} ServedCountsDones(rs: seq<Requests>, steps: seq<LineStep>, i: nat, j: nat)
    requires Run(rs, steps) && i <= j < |rs|
    ensures rs[j].line.served == rs[i].line.served + DonesBetween(steps, i, j)
    decreases j
  {
    if i < j {
      ServedCountsDones(rs, steps, i, j - 1);
    }
  }

  // In every run, a request waits for exactly the turns ahead of it: while it
  // waits, each turn done brings it one nearer, and nothing else moves it.
  lemma WaitsForTurnsAhead(rs: seq<Requests>, steps: seq<LineStep>, i: nat, j: nat, ticket: nat)
    requires Run(rs, steps) && i <= j < |rs|
    requires ticket in rs[j].phase && rs[j].phase[ticket].Queued?
    ensures DonesBetween(steps, i, j) == Distance(rs[i], ticket) - Distance(rs[j], ticket) <= Distance(rs[i], ticket)
  {
    TurnsInTicketOrder(rs, steps, j);
    ServedCountsDones(rs, steps, i, j);
  }
}

module Queue {
  import opened Line

  class Manager {
    var closed: bool
    var next: nat
    var served: nat
    const maxQueued: nat

    ghost function State(): Line
      reads this
    {
      Line(next, served, closed, maxQueued)
    }

    constructor (maxQueued: nat)
      ensures State() == Line(0, 0, false, maxQueued)
    {
      this.maxQueued := maxQueued;
      closed, next, served := false, 0, 0;
    }

    method Close()
      modifies this
      ensures closed && State() == AfterClose(old(State()))
    {
      closed := true;
    }

    method CountWaiting() returns (n: int)
      ensures n == Waiting(State())
    {
      n := if next == served then 0 else next - served - 1;
    }

    // The first hold of the mutex in Join: the refusals, or a ticket.
    method TakeTicket() returns (r: JoinResult)
      requires served <= next
      modifies this
      ensures r == JoinResultOf(old(State())) && State() == AfterJoin(old(State()))
      ensures r.Ticket? <==> !old(closed) && (maxQueued == 0 || old(next) - served <= maxQueued)
      ensures next == old(next) + if r.Ticket? then 1 else 0
    {
      if closed {
        return Closed;
      }
      var waiting := CountWaiting();
      if maxQueued > 0 && waiting >= maxQueued {
        return Full;
      }
      r := Ticket(next);
      next := next + 1;
    }

    // What Join's loop does once awake: a turn, an error, or another wait.
    method Wake(ticket: nat) returns (r: WakeResult, turn: Turn?)
      ensures r == WakeResultOf(State(), ticket)
      ensures r.HasTurn? <==> turn != null
      ensures turn != null ==> fresh(turn) && turn.m == this && !turn.done
    {
      if ticket != served && !closed {
        return KeepsWaiting, null;
      }
      if ticket != served {
        return TurnedAway, null;
      }
      turn := new Turn(this);
      r := HasTurn;
    }

    method Done()
      modifies this
      ensures State() == AfterDone(old(State()))
    {
      served := served + 1;
    }
  }

  class Turn {
    const m: Manager
    var done: bool

    constructor (m: Manager)
      ensures this.m == m && !done
    {
      this.m := m;
      done := false;
    }

    // Gives the turn to the next ticket, once.
    method Done()
      modifies this, m
      ensures done
      ensures m.State() == if old(done) then old(m.State()) else AfterDone(old(m.State()))
    {
      if !done {
        done := true;
        m.Done();
      }
    }
  }
}
