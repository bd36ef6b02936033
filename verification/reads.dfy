// What a transaction's read of events sends (internal/tx/tx.go,
// internal/api/tx.go): the committed events that match, then the pending
// ones, or both newest first with the pending ones before.
module Reads {
  import opened Lists
  import opened Dcb
  import opened StoreSpec

  datatype Line = Committed(event: Event) | Pending(pending: PendingEvent)

  datatype Filter = Filter(query: Query, backwards: bool, limit: nat)

  // The result of ReadEvents: both lists already in the read's direction.
  datatype Read = Read(committed: seq<Event>, pending: seq<PendingEvent>, count: nat)

  function CommittedLines(events: seq<Event>): (r: seq<Line>)
    ensures |r| == |events| && forall i :: 0 <= i < |r| ==> r[i] == Committed(events[i])
  {
    seq(|events|, i requires 0 <= i < |events| => Committed(events[i]))
  }

  function PendingLines(events: seq<PendingEvent>): (r: seq<Line>)
    ensures |r| == |events| && forall i :: 0 <= i < |r| ==> r[i] == Pending(events[i])
  {
    seq(|events|, i requires 0 <= i < |events| => Pending(events[i]))
  }

  // Every line of a read, with no limit.
  function AllLines(f: Filter, log: seq<Event>, pending: seq<PendingEvent>): seq<Line> {
    Directed(f.backwards, CommittedLines(Selected(f.query, 0, log)) + PendingLines(Matching(f.query, pending)))
  }

  // What a read sends: every line, up to its limit.
  function FullRead(f: Filter, log: seq<Event>, pending: seq<PendingEvent>): seq<Line> {
    Limited(f.limit, AllLines(f, log, pending))
  }

  // The position a read opens its condition at: that of its snapshot. A read
  // of no event has none.
  function SnapshotPosition(q: Query, log: seq<Event>): int {
    if q.NoEvent? then 0 else MaxSequence(log)
  }

  // The lines of a read as it was loaded.
  function LoadedLines(f: Filter, read: Read): seq<Line> {
    if f.backwards then PendingLines(read.pending) + CommittedLines(read.committed)
    else CommittedLines(read.committed) + PendingLines(read.pending)
  }

  lemma {:induction false} ReverseCommitted(events: seq<Event>)
    ensures Reverse(CommittedLines(events)) == CommittedLines(Reverse(events))
  {
    if events != [] {
      ReverseCommitted(events[1..]);
      assert CommittedLines(events)[1..] == CommittedLines(events[1..]);
    }
  }

  lemma {:induction false} ReversePending(pending: seq<PendingEvent>)
    ensures Reverse(PendingLines(pending)) == PendingLines(Reverse(pending))
  {
    if pending != [] {
      ReversePending(pending[1..]);
      assert PendingLines(pending)[1..] == PendingLines(pending[1..]);
    }
  }

  lemma AllLinesInDirection(f: Filter, log: seq<Event>, pending: seq<PendingEvent>)
    ensures var c, p := Directed(f.backwards, Selected(f.query, 0, log)),
                        Directed(f.backwards, Matching(f.query, pending));
            AllLines(f, log, pending) == LoadedLines(f, Read(c, p, 0))
  {
    if f.backwards {
      ReverseConcat(CommittedLines(Selected(f.query, 0, log)), PendingLines(Matching(f.query, pending)));
      ReverseCommitted(Selected(f.query, 0, log));
      ReversePending(Matching(f.query, pending));
    }
  }

  // How many rows the store loads for a read: one more than the maximum
  // is enough to refuse it.
  function LoadLimit(limit: nat, max: nat): nat {
    if 0 < limit < max + 1 then limit else max + 1
  }

  function CountOf(limit: nat, n: nat): nat {
    if limit > 0 && n > limit then limit else n
  }

  // Loading only LoadLimit rows is enough: the read is refused exactly when
  // the full one, after its limit, is over the maximum, and an accepted read
  // sends the first lines of the full one.
  lemma LoadIsEnough(f: Filter, max: nat, c: seq<Event>, p: seq<PendingEvent>)
    ensures var loaded := Take(LoadLimit(f.limit, max), c);
            var n := CountOf(f.limit, |loaded| + |p|);
            var full := Limited(f.limit, LoadedLines(f, Read(c, p, 0)));
            && |loaded| <= max + 1 && (f.limit > 0 ==> |loaded| <= f.limit)
            && (n <= max <==> |full| <= max)
            && (n <= max ==> n == |full| && Limited(f.limit, LoadedLines(f, Read(loaded, p, n))) == full)
  {
    var loaded := Take(LoadLimit(f.limit, max), c);
    assert CommittedLines(loaded) == Take(LoadLimit(f.limit, max), CommittedLines(c));
  }

  // The facts a line tells: an event's time and data.
  function FactOf(line: Line): PendingEvent {
    match line
    case Committed(e) => Fact(e)
    case Pending(p) => p
  }

  function FactsOf(lines: seq<Line>): (r: seq<PendingEvent>)
    ensures |r| == |lines| && forall i :: 0 <= i < |r| ==> r[i] == FactOf(lines[i])
  {
    seq(|lines|, i requires 0 <= i < |lines| => FactOf(lines[i]))
  }

  lemma {:induction false} FactsOfReverse(lines: seq<Line>)
    ensures FactsOf(Reverse(lines)) == Reverse(FactsOf(lines))
  {
    if lines != [] {
      FactsOfReverse(lines[1..]);
      assert FactsOf(lines)[1..] == FactsOf(lines[1..]);
    }
  }

  lemma {:induction false} SelectedFacts(q: Query, log: seq<Event>)
    requires forall e :: e in log ==> e.sequence > 0
    ensures Facts(Selected(q, 0, log)) == Matching(q, Facts(log))
  {
    if log != [] {
      assert log[0] in log;
      SelectedFacts(q, log[1..]);
      assert Facts(log)[1..] == Facts(log[1..]);
    }
  }

  lemma LimitedFacts(limit: nat, lines: seq<Line>)
    ensures FactsOf(Limited(limit, lines)) == Limited(limit, FactsOf(lines))
  {
  }

  // What a read sends says, of each event, what its filter says of the log
  // followed by the pending events.
  lemma LinesAreFiltered(f: Filter, log: seq<Event>, pending: seq<PendingEvent>)
    requires forall e :: e in log ==> e.sequence > 0
    ensures FactsOf(Limited(f.limit, AllLines(f, log, pending)))
         == Limited(f.limit, Directed(f.backwards, Matching(f.query, Facts(log) + pending)))
  {
    var c, p := CommittedLines(Selected(f.query, 0, log)), PendingLines(Matching(f.query, pending));
    SelectedFacts(f.query, log);
    MatchingConcat(f.query, Facts(log), pending);
    assert FactsOf(c + p) == Matching(f.query, Facts(log)) + Matching(f.query, pending);
    FactsOfReverse(c + p);
    LimitedFacts(f.limit, AllLines(f, log, pending));
  }

  lemma LimitedInTwo(limit: nat, a: seq<Line>, b: seq<Line>)
    ensures Limited(limit, Limited(limit, a) + b) == Limited(limit, a + b)
  {
  }

  // One of the loops of writeTxEvents: sent counts the lines written so far.
  method WriteLines(limit: nat, written: seq<Line>, events: seq<Line>) returns (lines: seq<Line>)
    requires limit == 0 || |written| <= limit
    ensures written == [] ==> lines == Limited(limit, events)
    ensures lines == Limited(limit, written + events)
  {
    lines := written;
    var sent := |written|;
    for i := 0 to |events|
      invariant lines == written + events[..i] && sent == |lines|
      invariant limit == 0 || sent <= limit
    {
      if !(limit == 0 || sent < limit) {
        assert lines == Limited(limit, written + events);
        assert written == [] ==> written + events == events;
        return;
      }
      lines := lines + [events[i]];
      sent := sent + 1;
    }
    assert events[..|events|] == events;
    assert written == [] ==> written + events == events;
  }

  // writeTxEvents: the two lists in the read's order, at most limit lines.
  method WriteTxEvents(f: Filter, read: Read) returns (lines: seq<Line>)
    ensures lines == Limited(f.limit, LoadedLines(f, read))
  {
    var first, second := CommittedLines(read.committed), PendingLines(read.pending);
    if f.backwards {
      first, second := second, first;
    }
    lines := WriteLines(f.limit, [], first);
    LimitedInTwo(f.limit, first, second);
    lines := WriteLines(f.limit, lines, second);
  }
}
