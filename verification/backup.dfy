// Copying a log from one store to another: page by page from a server that
// goes on appending (cmd/tamarackdb-backup), and in batches from a dump
// (cmd/tamarackdb-init).
module Paging {
  import opened Wrappers
  import opened Lists
  import opened Dcb
  import opened Tables
  import opened StoreSpec
  import Store

  // A page of a read, oldest first.
  function PageOf(q: Query, after: int, limit: nat, log: seq<Event>): Store.Page {
    var all := Selected(q, after, log);
    Store.Page(Take(limit, all), |all| > limit)
  }

  lemma {:induction false} SelectedIsWithin(q: Query, after: int, log: seq<Event>)
    ensures forall e :: e in Selected(q, after, log) ==> e in log
  {
    if log != [] {
      SelectedIsWithin(q, after, log[1..]);
    }
  }

  lemma FirstIsLeast(log: seq<Event>)
    requires Ascending(log) && log != []
    ensures forall e :: e in log[1..] ==> e.sequence > log[0].sequence
    ensures Ascending(log[1..])
  {
  }

  lemma {:induction false} SameAfter(q: Query, a: int, b: int, log: seq<Event>)
    requires forall e :: e in log ==> e.sequence > a && e.sequence > b
    ensures Selected(q, a, log) == Selected(q, b, log)
  {
    if log != [] {
      assert log[0] in log;
      SameAfter(q, a, b, log[1..]);
    }
  }

  // The first event is not read again after a later one.
  lemma ReadOnLater(q: Query, last: int, log: seq<Event>, rest: seq<Event>, n: nat)
    requires Ascending(log) && log != [] && n < |rest|
             && last == rest[n].sequence && forall e :: e in rest ==> e in log[1..]
    ensures Selected(q, last, log) == Selected(q, last, log[1..])
  {
    assert rest[n] in rest;
    FirstIsLeast(log);
  }

  // Reading on from one of the events read gives the ones after it.
  lemma {:induction false} ReadOn(q: Query, after: int, log: seq<Event>, n: nat)
    requires Ascending(log) && n < |Selected(q, after, log)|
    ensures Selected(q, Selected(q, after, log)[n].sequence, log) == Selected(q, after, log)[n + 1..]
    decreases |log|
  {
    var all := Selected(q, after, log);
    var rest := Selected(q, after, log[1..]);
    SelectedIsWithin(q, after, log[1..]);
    FirstIsLeast(log);
    if log[0].sequence > after && Matches(q, log[0].data) {
      assert all == [log[0]] + rest;
      if n == 0 {
        SameAfter(q, after, log[0].sequence, log[1..]);
      } else {
        assert all[n] == rest[n - 1];
        ReadOnLater(q, rest[n - 1].sequence, log, rest, n - 1);
        ReadOn(q, after, log[1..], n - 1);
        assert all[n + 1..] == rest[n..];
      }
    } else {
      ReadOnLater(q, rest[n].sequence, log, rest, n);
      ReadOn(q, after, log[1..], n);
    }
  }

  // Page after page, each from the last event of the one before.
  function Pages(q: Query, after: int, limit: nat, log: seq<Event>): seq<Event>
    requires limit > 0 && Ascending(log)
    decreases |Selected(q, after, log)|
  {
    var page := PageOf(q, after, limit, log);
    if !page.hasMore then page.events
    else
      ReadOn(q, after, log, limit - 1);
      page.events + Pages(q, page.events[limit - 1].sequence, limit, log)
  }

  // Every matching event, once, in order.
  lemma {:induction false} PagesReadAll(q: Query, after: int, limit: nat, log: seq<Event>)
    requires limit > 0 && Ascending(log)
    ensures Pages(q, after, limit, log) == Selected(q, after, log)
    decreases |Selected(q, after, log)|
  {
    var page := PageOf(q, after, limit, log);
    if page.hasMore {
      ReadOn(q, after, log, limit - 1);
      PagesReadAll(q, page.events[limit - 1].sequence, limit, log);
    }
  }

  // ---- Pages of a log that grows meanwhile: logs[k] is what page k finds.

  ghost predicate Growing(logs: seq<seq<Event>>) {
    && (forall i :: 0 <= i < |logs| ==> Ascending(logs[i]))
    && (forall i, j :: 0 <= i <= j < |logs| ==> logs[i] <= logs[j])
  }

  // The events read, in how many pages, and whether the last one said that
  // there are no more.
  datatype Reading = Reading(events: seq<Event>, pages: nat, done: bool)

  function PagesOver(q: Query, after: int, limit: nat, logs: seq<seq<Event>>): Reading
    requires limit > 0
    decreases |logs|
  {
    if logs == [] then Reading([], 0, false)
    else
      var page := PageOf(q, after, limit, logs[0]);
      if !page.hasMore then Reading(page.events, 1, true)
      else
        var rest := PagesOver(q, page.events[limit - 1].sequence, limit, logs[1..]);
        Reading(page.events + rest.events, rest.pages + 1, rest.done)
  }

  // A first page of a log, and what it leaves to read of a longer one.
  lemma FirstPage(q: Query, after: int, limit: nat, log: seq<Event>, longer: seq<Event>)
    requires limit > 0 && log <= longer && Ascending(longer) && PageOf(q, after, limit, log).hasMore
    ensures var events, all := PageOf(q, after, limit, log).events, Selected(q, after, longer);
            |events| == limit && all == events + Selected(q, events[limit - 1].sequence, longer)
  {
    var all := Selected(q, after, longer);
    SelectedConcat(q, after, log, longer[|log|..]);
    assert longer == log + longer[|log|..];
    assert all[..limit] == PageOf(q, after, limit, log).events;
    ReadOn(q, after, longer, limit - 1);
  }

  // A reading that ended has every match, once and in order, of the log its
  // last page found; one cut short has the first of them.
  ghost predicate ReadsAll(r: Reading, q: Query, after: int, logs: seq<seq<Event>>) {
    0 < r.pages <= |logs|
    && if r.done then r.events == Selected(q, after, logs[r.pages - 1])
       else r.pages == |logs| && r.events <= Selected(q, after, logs[|logs| - 1])
  }

  lemma OnePageMore(q: Query, after: int, limit: nat, logs: seq<seq<Event>>, rest: Reading)
    requires limit > 0 && Growing(logs) && |logs| > 1 && PageOf(q, after, limit, logs[0]).hasMore
    requires ReadsAll(rest, q, PageOf(q, after, limit, logs[0]).events[limit - 1].sequence, logs[1..])
    ensures ReadsAll(Reading(PageOf(q, after, limit, logs[0]).events + rest.events, rest.pages + 1, rest.done),
                    q, after, logs)
  {
    assert logs[1..][rest.pages - 1] == logs[rest.pages];
    FirstPage(q, after, limit, logs[0], logs[rest.pages]);
  }

  // However the log grows between pages.
  lemma {:induction false} GrowingPagesReadAll(q: Query, after: int, limit: nat, logs: seq<seq<Event>>)
    requires limit > 0 && Growing(logs) && logs != []
    ensures ReadsAll(PagesOver(q, after, limit, logs), q, after, logs)
    decreases |logs|
  {
    var page, later := PageOf(q, after, limit, logs[0]), logs[1..];
    if page.hasMore {
      if later == [] {
        FirstPage(q, after, limit, logs[0], logs[0]);
      } else {
        GrowingPagesReadAll(q, page.events[limit - 1].sequence, limit, later);
        OnePageMore(q, after, limit, logs, PagesOver(q, page.events[limit - 1].sequence, limit, later));
      }
    }
  }
}

module Backup {
  import opened Wrappers
  import opened Lists
  import opened Inserts
  import opened Dcb
  import opened Tables
  import opened StoreSpec
  import opened Paging
  import Store

  // ---- One response, perhaps cut short.

  datatype ResponseLine = EventLine(event: Event) | TrailerLine(hasMore: bool) | GarbledLine

  function EventLines(events: seq<Event>): (r: seq<ResponseLine>)
    ensures |r| == |events| && forall i :: 0 <= i < |r| ==> r[i] == EventLine(events[i])
  {
    seq(|events|, i requires 0 <= i < |events| => EventLine(events[i]))
  }

  // A whole response: its page, then the trailer.
  function Response(page: Store.Page): seq<ResponseLine> {
    EventLines(page.events) + [TrailerLine(page.hasMore)]
  }

  function EventsIn(lines: seq<ResponseLine>): seq<Event> {
    if lines == [] then []
    else if lines[|lines| - 1].EventLine? then EventsIn(lines[..|lines| - 1]) + [lines[|lines| - 1].event]
    else EventsIn(lines[..|lines| - 1])
  }

  function LastTrailer(lines: seq<ResponseLine>): Option<bool> {
    if lines == [] then None
    else if lines[|lines| - 1].TrailerLine? then Some(lines[|lines| - 1].hasMore)
    else LastTrailer(lines[..|lines| - 1])
  }

  method FetchPage(lines: seq<ResponseLine>, broken: bool) returns (page: Option<Store.Page>)
    ensures page.None? <==> GarbledLine in lines || broken || LastTrailer(lines).None?
    ensures page.Some? ==> page.value == Store.Page(EventsIn(lines), LastTrailer(lines).value)
  {
    var events: seq<Event> := [];
    var trailer: Option<bool> := None;
    for n := 0 to |lines|
      invariant GarbledLine !in lines[..n]
      invariant events == EventsIn(lines[..n]) && trailer == LastTrailer(lines[..n])
    {
      assert lines[..n + 1][..n] == lines[..n];
      match lines[n] {
        case TrailerLine(hasMore) => trailer := Some(hasMore);
        case EventLine(e) => events := events + [e];
        case GarbledLine => return None;
      }
    }
    assert lines[..|lines|] == lines;
    if broken || trailer.None? {
      return None;
    }
    page := Some(Store.Page(events, trailer.value));
  }

  lemma {:induction false} NoTrailerYet(events: seq<Event>)
    ensures LastTrailer(EventLines(events)).None? && EventsIn(EventLines(events)) == events
  {
    if events != [] {
      var init := events[..|events| - 1];
      NoTrailerYet(init);
      assert EventLines(events)[..|events| - 1] == EventLines(init);
      assert events == init + [events[|events| - 1]];
    }
  }

  // A whole response is its page; one cut at any line, or in the middle of
  // one, is no page at all.
  lemma WholeOrNothing(page: Store.Page, n: nat)
    ensures GarbledLine !in Response(page)
    ensures EventsIn(Response(page)) == page.events && LastTrailer(Response(page)) == Some(page.hasMore)
    ensures n < |Response(page)| ==>
              LastTrailer(Response(page)[..n]).None? && GarbledLine in Response(page)[..n] + [GarbledLine]
  {
    NoTrailerYet(page.events);
    assert Response(page)[..|page.events|] == EventLines(page.events);
    if n < |Response(page)| {
      NoTrailerYet(page.events[..n]);
      assert Response(page)[..n] == EventLines(page.events[..n]);
      assert (Response(page)[..n] + [GarbledLine])[n] == GarbledLine;
    }
  }

  // ---- A run.

  // One page asked for: what the source's log is by then, where the
  // response is cut, if it is, and whether the import fails.
  datatype Attempt = Attempt(log: seq<Event>, cut: Option<(nat, bool)>, fault: bool)

  function Received(page: Store.Page, cut: Option<(nat, bool)>): seq<ResponseLine> {
    var lines := Response(page);
    match cut
    case Some((n, inLine)) => if n < |lines| then lines[..n] + (if inLine then [GarbledLine] else []) else lines
    case None => lines
  }

  ghost predicate Positions(log: seq<Event>) {
    Ascending(log) && forall e :: e in log ==> e.sequence >= 1
  }

  // The source only appends: its log grows, from at least `from`, to `to`.
  ghost predicate Grows(attempts: seq<Attempt>, from: seq<Event>, to: seq<Event>) {
    && from <= to && Positions(to)
    && (forall i :: 0 <= i < |attempts| ==> from <= attempts[i].log <= to)
    && (forall i, j :: 0 <= i <= j < |attempts| ==> attempts[i].log <= attempts[j].log)
  }

  lemma {:induction false} AllBetween(log: seq<Event>, last: int, n: nat)
    requires n <= |log|
    requires (forall i :: 0 <= i < n ==> log[i].sequence <= last)
             && forall i :: n <= i < |log| ==> log[i].sequence > last
    ensures Selected(All, last, log) == log[n..]
  {
    if log != [] {
      if n == 0 {
        AllBetween(log[1..], last, 0);
        assert log == [log[0]] + log[1..];
      } else {
        AllBetween(log[1..], last, n - 1);
        assert log[1..][n - 1..] == log[n..];
      }
    }
  }

  // After the events of a prefix of the log come the others.
  lemma AllAfter(log: seq<Event>, n: nat)
    requires n <= |log| && Positions(log)
    ensures Selected(All, MaxSequence(log[..n]), log) == log[n..]
  {
    var last := MaxSequence(log[..n]);
    assert n > 0 ==> log[..n][n - 1] == log[n - 1];
    assert forall i :: 0 <= i < n ==> log[i].sequence <= last;
    assert forall i :: n <= i < |log| ==> log[i] in log && log[i].sequence > last;
    AllBetween(log, last, n);
  }

  // The backup file as its run finds and leaves it.
  ghost predicate HoldsPrefix(s: StoreState, log: seq<Event>) {
    s.log <= log && s.nextSeq == MaxSequence(s.log) + 1
  }

  // The next page of the source is the next stretch of its log.
  lemma PageIsNext(backup: seq<Event>, log: seq<Event>, limit: nat)
    requires limit > 0 && backup <= log && Positions(log)
    ensures var page := PageOf(All, MaxSequence(backup), limit, log);
            && backup + page.events <= log
            && (!page.hasMore ==> backup + page.events == log)
  {
    assert log[..|backup|] == backup;
    AllAfter(log, |backup|);
    var events := PageOf(All, MaxSequence(backup), limit, log).events;
    assert backup + events == log[..|backup| + |events|];
  }

  lemma LaterPositions(log: seq<Event>, events: seq<Event>)
    requires Positions(log + events)
    ensures Positions(events) && (events != [] ==> MaxSequence(log) < MaxSequence(events))
  {
    var all := log + events;
    forall i | 0 <= i < |events|
      ensures events[i].sequence >= 1
      ensures forall j :: i < j < |events| ==> events[i].sequence < events[j].sequence
    {
      assert all[|log| + i] == events[i] && all[|log| + i] in all;
      forall j | i < j < |events| ensures events[i].sequence < events[j].sequence {
        assert all[|log| + j] == events[j];
      }
    }
    if events != [] && log != [] {
      assert all[|log| - 1].sequence < all[|all| - 1].sequence;
    }
  }

  lemma {:induction false} HighestOfAscending(events: seq<Event>)
    requires Ascending(events) && forall e :: e in events ==> e.sequence >= 1
    ensures Highest(events) == MaxSequence(events)
  {
    if events != [] {
      var init := events[..|events| - 1];
      HighestOfAscending(init);
      assert init != [] ==> init[|init| - 1] == events[|events| - 2];
      assert events[|events| - 1] in events;
    }
  }

  lemma ImportsNext(s: StoreState, events: seq<Event>, t: StoreState)
    requires ImportStep(s, events, t) && Positions(s.log + events) && s.nextSeq == MaxSequence(s.log) + 1
    ensures t.log == s.log + events && t.nextSeq == MaxSequence(t.log) + 1
    ensures events != [] ==> MaxSequence(t.log) == events[|events| - 1].sequence
  {
    ImportAfterLast(s.log, events, t.log);
    LaterPositions(s.log, events);
    HighestOfAscending(events);
  }

  lemma PositionsOfPrefix(log: seq<Event>, to: seq<Event>)
    requires log <= to && Positions(to)
    ensures Positions(log)
  {
    assert forall e :: e in log ==> e in to;
  }

  // The next page, imported.
  lemma PageExtends(s: StoreState, log: seq<Event>, limit: nat, t: StoreState)
    requires limit > 0 && HoldsPrefix(s, log) && Positions(log)
    requires ImportStep(s, PageOf(All, MaxSequence(s.log), limit, log).events, t)
    ensures HoldsPrefix(t, log) && s.log <= t.log
    ensures !PageOf(All, MaxSequence(s.log), limit, log).hasMore ==> t.log == log
    ensures var events := PageOf(All, MaxSequence(s.log), limit, log).events;
            events != [] ==> MaxSequence(t.log) == events[|events| - 1].sequence
  {
    var events := PageOf(All, MaxSequence(s.log), limit, log).events;
    PageIsNext(s.log, log, limit);
    PositionsOfPrefix(s.log + events, log);
    ImportsNext(s, events, t);
  }

  lemma ImportsNothing(s: StoreState)
    requires Ascending(s.log)
    ensures ImportStep(s, [], s)
  {
  }

  // An empty page needs no import.
  method ImportPage(st: Store.Store, events: seq<Event>, fault: bool) returns (ok: bool)
    requires st.Valid()
    modifies st
    ensures st.Valid()
    ensures if ok then ImportStep(old(st.State()), events, st.State()) else st.State() == old(st.State())
    ensures !fault && Ascending(old(st.State().log) + events) && (forall e :: e in events ==> TagsDistinct(e.data))
            ==> ok
  {
    ok := true;
    if |events| > 0 {
      ok := st.Import(events, fault);
    } else {
      ImportsNothing(st.State());
    }
  }

  lemma PageImportable(backup: seq<Event>, log: seq<Event>, limit: nat)
    requires limit > 0 && backup <= log && Positions(log)
    ensures var events := PageOf(All, MaxSequence(backup), limit, log).events;
            && Ascending(backup + events)
            && ((forall e :: e in log ==> TagsDistinct(e.data)) ==> forall e :: e in events ==> TagsDistinct(e.data))
  {
    PageIsNext(backup, log, limit);
    var next := backup + PageOf(All, MaxSequence(backup), limit, log).events;
    assert forall e :: e in next ==> e in log;
    PositionsOfPrefix(next, log);
  }

  lemma FetchedWhole(sent: Store.Page, cut: Option<(nat, bool)>, page: Option<Store.Page>)
    requires var lines := Received(sent, cut);
             && (page.None? <==> GarbledLine in lines || LastTrailer(lines).None?)
             && (page.Some? ==> page.value == Store.Page(EventsIn(lines), LastTrailer(lines).value))
    ensures page.Some? ==> page.value == sent
    ensures cut.None? ==> page.Some?
  {
    WholeOrNothing(sent, if cut.Some? then cut.value.0 else 0);
    if cut.Some? && cut.value.0 < |Response(sent)| {
      assert Response(sent)[..cut.value.0] + [] == Response(sent)[..cut.value.0];
    }
  }

  // One turn of the loop of Run; None is an error.
  method CopyPage(st: Store.Store, a: Attempt, limit: nat, lastSeq: int)
    returns (page: Option<Store.Page>, lastSeq': int)
    requires st.Valid() && limit > 0 && Positions(a.log)
             && HoldsPrefix(st.State(), a.log) && lastSeq == MaxSequence(st.State().log)
    modifies st
    ensures st.Valid() && HoldsPrefix(st.State(), a.log) && old(st.State().log) <= st.State().log
    ensures st.State() == old(st.State()).(log := st.State().log, nextSeq := st.State().nextSeq)
    ensures page.Some? ==> lastSeq' == MaxSequence(st.State().log)
    ensures page.Some? ==> page.value == PageOf(All, lastSeq, limit, a.log)
    ensures page.Some? && !page.value.hasMore ==> st.State().log == a.log
    ensures a.cut.None? && !a.fault && (forall e :: e in a.log ==> TagsDistinct(e.data)) ==> page.Some?
  {
    lastSeq' := lastSeq;
    PageImportable(st.State().log, a.log, limit);
    var sent := PageOf(All, lastSeq, limit, a.log);
    page := FetchPage(Received(sent, a.cut), false);
    FetchedWhole(sent, a.cut, page);
    if page.None? {
      return;
    }
    ghost var before := st.State();
    var ok := ImportPage(st, page.value.events, a.fault);
    if !ok {
      return None, lastSeq;
    }
    if |page.value.events| > 0 {
      lastSeq' := page.value.events[|page.value.events| - 1].sequence;
    }
    PageExtends(before, a.log, limit, st.State());
  }

  // Copies what the backup lacks, until a page says there is no more. The
  // run can end at any page, by an error or because the process is stopped:
  // whatever happens the backup holds the start of the source's log, and
  // when it completes, all of it as of the last page.
  method Run(st: Store.Store, attempts: seq<Attempt>, limit: nat, ghost to: seq<Event>)
    returns (done: bool, ghost last: nat)
    requires st.Valid() && limit > 0 && Grows(attempts, st.State().log, to) && HoldsPrefix(st.State(), to)
    modifies st
    ensures st.Valid() && HoldsPrefix(st.State(), to) && old(st.State().log) <= st.State().log
    ensures st.State() == old(st.State()).(log := st.State().log, nextSeq := st.State().nextSeq)
    ensures done ==> last < |attempts| && st.State().log == attempts[last].log
  {
    last := 0;
    var lastSeq := st.nextSeq - 1;
    for k := 0 to |attempts|
      invariant st.Valid() && HoldsPrefix(st.State(), to) && old(st.State().log) <= st.State().log
      invariant st.State() == old(st.State()).(log := st.State().log, nextSeq := st.State().nextSeq)
      invariant lastSeq == MaxSequence(st.State().log)
      invariant k < |attempts| ==> st.State().log <= attempts[k].log
    {
      last := k;
      PositionsOfPrefix(attempts[k].log, to);
      var page;
      page, lastSeq := CopyPage(st, attempts[k], limit, lastSeq);
      if page.None? {
        return false, last;
      }
      if !page.value.hasMore {
        return true, last;
      }
      assert k + 1 < |attempts| ==> attempts[k].log <= attempts[k + 1].log;
    }
    done := false;
  }

  lemma GrowsFrom(attempts: seq<Attempt>, backup: seq<Event>, from: seq<Event>, to: seq<Event>)
    requires Grows(attempts, from, to) && backup <= from
    ensures Grows(attempts, backup, to)
  {
  }

  // A backup that holds the start of the source's log holds exactly its
  // events up to the backup's own last sequence.
  lemma BackupIsExact(backup: seq<Event>, log: seq<Event>)
    requires backup <= log && Positions(log)
    ensures forall e :: e in backup <==> e in log && e.sequence <= MaxSequence(backup)
  {
    forall e | e in log && e.sequence <= MaxSequence(backup) ensures e in backup {
      var i :| 0 <= i < |log| && log[i] == e;
      if i >= |backup| && backup != [] {
        assert log[|backup| - 1] == backup[|backup| - 1];
      }
    }
    forall e | e in backup ensures e in log && e.sequence <= MaxSequence(backup) {
      var i :| 0 <= i < |backup| && backup[i] == e;
      assert log[i] == e && log[|backup| - 1] == backup[|backup| - 1];
    }
  }

  // Any number of runs, completed or not, each on the file the one before
  // left. sources[k] is the source's log when run k starts.
  method Runs(file: Db, runs: seq<seq<Attempt>>, limit: nat, ghost sources: seq<seq<Event>>) returns (file': Db)
    requires Consistent(file) && file.events == [] && limit > 0
    requires |sources| == |runs| + 1 && forall k :: 0 <= k < |runs| ==> Grows(runs[k], sources[k], sources[k + 1])
    requires Positions(sources[|runs|])
    ensures Consistent(file') && file'.events <= sources[|runs|]
    ensures forall e :: e in file'.events <==> e in sources[|runs|] && e.sequence <= MaxSequence(file'.events)
  {
    file' := file;
    for k := 0 to |runs|
      invariant Consistent(file') && file'.events <= sources[k]
    {
      var st := new Store.Store.Open(file');
      GrowsFrom(runs[k], st.State().log, sources[k], sources[k + 1]);
      var done, last := Run(st, runs[k], limit, sources[k + 1]);
      file' := st.db;
    }
    BackupIsExact(file'.events, sources[|runs|]);
  }
}

// A dump written into an empty store, some events at a time.
module DumpImport {
  import opened Wrappers
  import opened Lists
  import opened Dcb
  import opened Tables
  import opened StoreSpec
  import opened Inserts
  import opened Backup
  import Store

  // What reading one line gives: an event, or an error.
  datatype Line = Good(event: Event) | Bad

  // parseLine accepts no other event.
  ghost predicate Sound(line: Line) {
    line.Good? ==> line.event.sequence >= 1 && TagsDistinct(line.event.data)
  }

  type DumpLine = line: Line | Sound(line) witness Bad

  datatype Summary = Summary(count: nat, first: int, last: int)

  // The events of the first n lines.
  function EventsUpTo(dump: seq<DumpLine>, n: nat): seq<Event>
    requires n <= |dump|
  {
    if n == 0 then []
    else if dump[n - 1].Good? then EventsUpTo(dump, n - 1) + [dump[n - 1].event]
    else EventsUpTo(dump, n - 1)
  }

  // The first n lines may be imported: every one reads, and the sequences
  // follow one another with no gap.
  ghost predicate Importable(dump: seq<DumpLine>, n: nat)
    requires n <= |dump|
  {
    && (forall i :: 0 <= i < n ==> dump[i].Good?)
    && (forall i :: 0 <= i < n ==> dump[i].event.sequence == dump[0].event.sequence + i)
  }

  lemma {:induction false} EventsOfGood(dump: seq<DumpLine>, n: nat)
    requires n <= |dump| && Importable(dump, n)
    ensures |EventsUpTo(dump, n)| == n && Positions(EventsUpTo(dump, n))
    ensures forall i :: 0 <= i < n ==> EventsUpTo(dump, n)[i] == dump[i].event
  {
    if n > 0 {
      EventsOfGood(dump, n - 1);
    }
  }

  // The summary of the first n lines.
  ghost predicate Sums(sum: Summary, dump: seq<DumpLine>, n: nat)
    requires n <= |dump| && Importable(dump, n)
  {
    sum == if n == 0 then Summary(0, 0, 0) else Summary(n, dump[0].event.sequence, dump[n - 1].event.sequence)
  }

  ghost predicate ReadSoFar(sum: Summary, dump: seq<DumpLine>, n: nat) {
    n <= |dump| && Importable(dump, n) && Sums(sum, dump, n)
  }

  // What is in the store and in the batch make up the first n lines.
  ghost predicate WrittenAndHeld(s: StoreState, batch: seq<Event>, dump: seq<DumpLine>, n: nat) {
    n <= |dump| && s.log + batch == EventsUpTo(dump, n) && s.nextSeq == MaxSequence(s.log) + 1
  }

  lemma BatchImports(s: StoreState, batch: seq<Event>, dump: seq<DumpLine>, n: nat, t: StoreState)
    requires n <= |dump| && Importable(dump, n) && WrittenAndHeld(s, batch, dump, n) && ImportStep(s, batch, t)
    ensures WrittenAndHeld(t, [], dump, n)
  {
    EventsOfGood(dump, n);
    ImportsNext(s, batch, t);
    assert t.log + [] == t.log;
  }

  // The store holds the whole dump, and nothing else.
  ghost predicate Loaded(s: StoreState, sum: Summary, dump: seq<DumpLine>) {
    && dump != [] && Importable(dump, |dump|) && s.log == EventsUpTo(dump, |dump|)
    && sum.count == |dump| == sum.last - sum.first + 1
    && sum.first == dump[0].event.sequence && sum.last == LastSequence(s) == dump[|dump| - 1].event.sequence
  }

  lemma WholeDump(s: StoreState, sum: Summary, dump: seq<DumpLine>)
    requires ReadSoFar(sum, dump, |dump|) && dump != [] && WrittenAndHeld(s, [], dump, |dump|)
    ensures Loaded(s, sum, dump)
  {
    EventsOfGood(dump, |dump|);
    assert s.log + [] == s.log;
  }

  datatype Outcome = Imported(sum: Summary) | BadLine(line: nat) | Gap(line: nat) | EmptyDump | ImportFailed

  // The next line's sequence must be the one after the last.
  predicate InOrder(sum: Summary, ev: Event) {
    sum.count == 0 || ev.sequence == sum.last + 1
  }

  function Added(sum: Summary, ev: Event): Summary {
    Summary(sum.count + 1, if sum.count == 0 then ev.sequence else sum.first, ev.sequence)
  }

  lemma NextLine(sum: Summary, dump: seq<DumpLine>, n: nat)
    requires n < |dump| && dump[n].Good? && ReadSoFar(sum, dump, n) && InOrder(sum, dump[n].event)
    ensures ReadSoFar(Added(sum, dump[n].event), dump, n + 1)
  {
  }

  lemma BatchFollows(s: StoreState, batch: seq<Event>, dump: seq<DumpLine>, n: nat)
    requires n <= |dump| && Importable(dump, n) && WrittenAndHeld(s, batch, dump, n)
    ensures Ascending(s.log + batch) && forall e :: e in batch ==> TagsDistinct(e.data)
  {
    EventsOfGood(dump, n);
    forall e | e in batch ensures TagsDistinct(e.data) {
      assert e in s.log + batch;
      var i :| 0 <= i < n && EventsUpTo(dump, n)[i] == e;
      assert dump[i].event == e;
    }
  }

  method ImportBatch(st: Store.Store, batch: seq<Event>, fault: bool, ghost dump: seq<DumpLine>, ghost n: nat)
    returns (ok: bool)
    requires st.Valid() && n <= |dump| && Importable(dump, n) && WrittenAndHeld(st.State(), batch, dump, n)
    modifies st
    ensures st.Valid() && (ok ==> WrittenAndHeld(st.State(), [], dump, n))
    ensures !fault ==> ok
  {
    ghost var before := st.State();
    BatchFollows(before, batch, dump, n);
    ok := st.Import(batch, fault);
    if ok {
      BatchImports(before, batch, dump, n, st.State());
    }
  }

  method ImportIfFull(st: Store.Store, batch: seq<Event>, batchSize: nat, fault: bool,
                      ghost dump: seq<DumpLine>, ghost n: nat)
    returns (ok: bool, batch': seq<Event>)
    requires st.Valid() && n <= |dump| && Importable(dump, n) && WrittenAndHeld(st.State(), batch, dump, n)
    modifies st
    ensures st.Valid() && (ok ==> WrittenAndHeld(st.State(), batch', dump, n))
    ensures ok && batchSize > 0 && |batch| <= batchSize ==> |batch'| < batchSize
    ensures !fault ==> ok
  {
    ok, batch' := true, batch;
    if |batch| == batchSize {
      ok := ImportBatch(st, batch, fault, dump, n);
      batch' := [];
    }
  }

  lemma ReadMore(s: StoreState, batch: seq<Event>, dump: seq<DumpLine>, n: nat)
    requires n < |dump| && dump[n].Good? && WrittenAndHeld(s, batch, dump, n)
    ensures WrittenAndHeld(s, batch + [dump[n].event], dump, n + 1)
  {
    assert s.log + (batch + [dump[n].event]) == (s.log + batch) + [dump[n].event];
  }

  // The whole dump is in the store, or the error is right: about the first
  // line at fault, an empty dump, or an import that failed.
  ghost predicate RightOutcome(r: Outcome, s: StoreState, dump: seq<DumpLine>, failing: set<nat>) {
    match r
    case Imported(sum) => Loaded(s, sum, dump)
    case BadLine(n) => n < |dump| && Importable(dump, n) && dump[n].Bad?
    case Gap(n) =>
      && 0 < n < |dump| && Importable(dump, n) && dump[n].Good?
      && dump[n].event.sequence != dump[n - 1].event.sequence + 1
    case EmptyDump => dump == []
    case ImportFailed => failing != {}
  }

  // The end of WriteEvents: the last batch.
  method ImportRest(st: Store.Store, sum: Summary, batch: seq<Event>, ghost dump: seq<DumpLine>,
                    n: nat, failing: set<nat>)
    returns (r: Outcome)
    requires st.Valid() && n == |dump| && ReadSoFar(sum, dump, n) && WrittenAndHeld(st.State(), batch, dump, n)
    modifies st
    ensures st.Valid() && RightOutcome(r, st.State(), dump, failing)
  {
    if sum.count == 0 {
      return EmptyDump;
    }
    var done := ImportBatch(st, batch, n in failing, dump, n);
    if !done {
      return ImportFailed;
    }
    WholeDump(st.State(), sum, dump);
    r := Imported(sum);
  }

  // One turn of the loop of WriteEvents.
  method TakeLine(st: Store.Store, sum: Summary, batch: seq<Event>,
                  dump: seq<DumpLine>, n: nat, batchSize: nat, failing: set<nat>)
    returns (error: Option<Outcome>, sum': Summary, batch': seq<Event>)
    requires st.Valid() && n < |dump| && |batch| < batchSize
    requires ReadSoFar(sum, dump, n) && WrittenAndHeld(st.State(), batch, dump, n)
    modifies st
    ensures st.Valid()
    ensures error.None? ==>
              ReadSoFar(sum', dump, n + 1) && WrittenAndHeld(st.State(), batch', dump, n + 1) && |batch'| < batchSize
    ensures error.Some? ==> RightOutcome(error.value, st.State(), dump, failing)
  {
    sum', batch' := sum, batch;
    if dump[n].Bad? {
      error := Some(BadLine(n));
      return;
    }
    var ev := dump[n].event;
    if !InOrder(sum, ev) {
      error := Some(Gap(n));
      return;
    }
    NextLine(sum, dump, n);
    sum' := Added(sum, ev);
    ReadMore(st.State(), batch, dump, n);
    var done;
    done, batch' := ImportIfFull(st, batch + [ev], batchSize, n in failing, dump, n + 1);
    error := if done then None else Some(ImportFailed);
  }

  // For any batch size: either the store holds exactly the dump's events, in
  // order, or the error names the first line that is at fault.
  method WriteEvents(st: Store.Store, dump: seq<DumpLine>, batchSize: nat, failing: set<nat>) returns (r: Outcome)
    requires st.Valid() && st.State().log == [] && st.State().nextSeq == 1 && batchSize > 0
    modifies st
    ensures st.Valid()
    ensures RightOutcome(r, st.State(), dump, failing)
  {
    var sum, batch := Summary(0, 0, 0), [];
    for n := 0 to |dump|
      invariant st.Valid() && ReadSoFar(sum, dump, n) && WrittenAndHeld(st.State(), batch, dump, n)
      invariant |batch| < batchSize
    {
      var error;
      error, sum, batch := TakeLine(st, sum, batch, dump, n, batchSize, failing);
      if error.Some? {
        return error.value;
      }
    }
    r := ImportRest(st, sum, batch, dump, |dump|, failing);
  }
}
