# A verified model of TamarackDB

TamarackDB is an event store with optimistic transactions that make several
decisions. A transaction reads events (which opens a condition at the position
of the snapshot read), writes pending events (which closes it), reads and
writes projections against the versions it remembers, and commits everything
in one turn of a first-in first-out line. This project models that protocol
and the algorithms around it in Dafny 4.11, and proves what each promises.

`dafny verify dfyconfig.toml` checks everything.

## How it is built

* `collections.dfy`: options, lists, sorting.
* `dcb.dfy`, `sql.dfy`: events and queries; the matcher, the deduplication
  key, and the SQL a query compiles to, as a small expression language with
  placeholders, evaluated over the tables.
* `store_spec.dfy`, `inserts.dfy`, `store.dfy`: the store as a value (log,
  projections, counter, pause), the batch inserts, and the class `Store`,
  whose methods are proved against that value.
* `reads.dfy`, `tx_spec.dfy`, `net.dfy`, `history.dfy`: what a transaction
  holds, what its reads send, how its writes to projections collapse, and what
  it sees and may write from its calls alone. `validation.dfy`: the checks of
  a request that writes projections, on which the store relies.
* `registry.dfy`, `queue.dfy`, `writer.dfy`: the registry and its
  transactions, the ticket line, and the checkpoint threshold, as classes
  whose methods are each one hold of a mutex, and as functions of values.
* `protocol.dfy`: all of it running together. A step is one hold of a mutex,
  one read of the store, or the work of one turn; calls interleave step by
  step, works fail, and the process can restart at any moment. The step
  relation uses the same functions as the contracts of the classes.
* `protocol_shape.dfy`, `protocol_frames.dfy`: who may do what, and what each
  kind of step leaves alone. On these rest `protocol_line.dfy`,
  `protocol_pause.dfy`, `protocol_serial.dfy`, `protocol_counts.dfy`,
  `protocol_epochs.dfy`, `protocol_collapse.dfy`, `protocol_reads.dfy` and
  `protocol_idle.dfy`, each an invariant over every run and its theorem.
  `protocol_answers.dfy`, `protocol_outcomes.dfy` and `protocol_ends.dfy` say
  what calls and commits answer and how they leave their transaction.
  `protocol_stale.dfy` builds one run, step by step.
* `ndjson.dfy`, `dump.dfy`, `compact.dfy`, `backup.dfy`: the JSON string
  writer against a reader of RFC 8259, section 7, on UTF-8 as in section 3 of
  RFC 3629; the duplicate-key stack machine; the compact form of tags; paging,
  backup runs and batched imports.

A state of the protocol also carries history that no step reads: what each
read sent and when, which transactions were counted, which versions were ever
given, how often each projection was written or deleted, and what each
transaction did to projections. The theorems are stated in terms of it.

## Where the code is not what one would expect

* `internal/store/doc.go:97-98` describes a second shortcut of the counter
  that `resolveWithoutQuery` (`internal/store/append.go:185-198`) does not
  have. The model follows the code.
* `Matches` reads a list of types that is present but empty as matching
  nothing, the SQL as matching anything. `Sql.ItemReadingsAgree` shows that
  this is the only difference for an item, `Sql.QueryReadingsAgree` gives the
  exact condition for a query; `Validate` refuses such lists.
* Deduplication runs before `Validate`, and its key does not tell an empty
  list from a missing one, so it can change what a query means.
  `Dcb.DedupeKeepsMeaningIff` says exactly for which items it does not,
  `Dcb.HiddenItemLosesMeaning` gives a smallest input on which it does, and
  `Dcb.AcceptedQueryKeepsMeaning` shows that no query `Validate` accepts is
  affected.
* A commit with nothing to write takes no turn, so it checks nothing:
  `ProtocolSerial.CommitWithoutTurn` says exactly which commits those are, and
  `ProtocolStale.StaleCommit` gives a run that ends with one about to commit on
  a read no longer true. Serializability is claimed for the others.
* A projection a transaction created and deleted again needs no operation, so
  its commit does not check it: one that another transaction created meanwhile
  stays. `ProtocolCollapse.CommitsCollapse` is exact about it, and
  `Net.BackToAbsentIsLeft` gives a smallest input.
* After `DELETE /events` and a restart the counter starts again from the
  table. `ProtocolPause.ShortcutNeverWrong` covers those runs;
  `ProtocolSerial.NoGaps` and `ProtocolSerial.Serializable` are for runs that
  do not delete the log.

## Model

| member | source | states |
|---|---|---|
| ProtocolSerial.Serializable | internal/tx/tx.go:344-455 | In every run of any interleaving of calls, turns, failures and restarts that only appends: once a commit's turn has written, and for ever after, each read the transaction made sent exactly the lines that its filter (query, direction, limit) gives on the log strictly before that decision's own events, the committed ones with the sequences they have there, and its own events follow, the decisions end to end in order |
| ProtocolSerial.CommittedIsSerial | internal/store/append.go:40-99 | One decision whose condition holds at the append: the answer recorded at the read is the answer on the log at the commit followed by the transaction's earlier events |
| ProtocolSerial.NothingMatchedSince | internal/store/read.go:86-107 | A condition that holds at the position of the read's snapshot means nothing appended since matches the query, for an empty log and for the query that matches nothing too |
| ProtocolSerial.CommitWithoutTurn | internal/tx/tx.go:439-443 | In every run: a commit is over at once, changing nothing but its own call, if and only if no read is open, no event is pending, and no projection needs an operation |
| ProtocolStale.StaleCommit | internal/tx/tx.go:439-443 | For any event and limits with room for two transactions, a whole run in which A reads everything on an empty log and closes its read with an empty write, and B's commit then appends the event: A's commit is over at once, although its read would now send the event |
| ProtocolSerial.NoGaps | internal/store/append.go:124-177 | Over any run of appends and restarts from an empty log, whatever fails, the log is the sequences 1, 2, ... without gap and the counter is its length |
| ProtocolSerial.LogOnlyGrows | internal/store/append.go:40-99 | Without a deletion, each state's log is a prefix of every later one's |
| ProtocolPause.PauseIsSafe | internal/tx/pause.go:60-113 | From the turn in which Pause answers a position until Resume, over any other steps and any restarts: the pause stays, the registry is empty, the log is unchanged, and the position is where the log and the counter end |
| ProtocolPause.PausedLogNeverGrows | internal/tx/pause.go:49-59 | Even with DELETE /events in the run, while the pause is in place the log only stays or is emptied |
| ProtocolPause.PauseAlwaysKept | internal/tx/tx.go:194-213 | In every run the registry is empty while paused, and the registry and the store agree on whether the pause is in place, across restarts |
| ProtocolPause.CommitStaysOpen | internal/tx/tx.go:425-432 | In every run, from its ticket until its turn is done, a commit has its transaction in the registry, and the pause is not in place |
| ProtocolPause.CounterAlwaysExact | internal/store/sqlite.go:126-140 | Without a deletion the counter is always one past the table's maximum, after failures and restarts too |
| ProtocolPause.ShortcutNeverWrong | internal/store/append.go:179-198 | In every state of every run, deletions included, where the counter alone decides a condition, no event after the position matches |
| ProtocolPause.PauseKeepsOthersOut | internal/tx/pause.go:49-87 | In every run: the turn of a Pause that finds transactions open ends none of them, and until Resume or a restart only those may stay open, however long they do: nothing else begins |
| ProtocolPause.BeginsIff | internal/tx/tx.go:194-213 | In every run: a Begin opens its transaction if and only if no pause is in place or requested and, with a cap, fewer are open once the idle ones are gone; it changes no other |
| ProtocolEpochs.NoAba | internal/tx/projections.go:176-222 | In every run: a commit's turn succeeds only if each projection it replaces or deletes was never written or deleted since its first read (even if recreated with the same payload) and each it creates is absent; a projection conflict names one for which this fails, of the right kind, with the right note of whether it was ever read |
| ProtocolEpochs.StandsAsRead | internal/store/projection.go:74-143 | The version remembered is still there if and only if the projection was not written or deleted since it was read |
| ProtocolEpochs.AlwaysFresh | internal/store/projection.go:64-106 | Every version in the store or remembered was given by the store once, over bulk deletions, failed writes and restarts |
| ProtocolEpochs.OnlyWritesChange | internal/store/projection.go:64-143 | In every run, restarts included, a projection with no write and no deletion in between keeps its version and payload, or stays absent |
| ProtocolCollapse.CommitsCollapse | internal/tx/projections.go:57-199 | In every run, however calls interleave: the turn of a commit that succeeds leaves each projection as its transaction's accepted writes, made one by one on the store at the commit, would have left it, but for those created and deleted again, which stay as they are; so the contents are those the writes would leave if and only if none of the latter exists by then |
| ProtocolCollapse.AlwaysRemade | internal/tx/projections.go:15-170 | In every run, what each open transaction holds of projections is what its accepted calls, one by one, make of a new transaction |
| History.CallsSeen | internal/tx/projections.go:57-169 | For every history of reads and accepted writes, the transaction has exactly the projections it read or created, and of each, written or not, what its first read found and its own writes then made |
| History.AcceptedIff | internal/tx/projections.go:88-140 | For every history and every write, with no read open: accepted if and only if it names some projection, each once, creates none the transaction sees, replaces only those it sees, and deletes only those it read or created |
| History.WriteMakes | internal/tx/projections.go:150-165 | A write of distinct projections leaves each as it says, payload or absence, and every other as it was |
| ProtocolAnswers.GetProjectionAnswer | internal/tx/projections.go:57-79 | In every run: the first read of a projection answers the payload the store holds then, or that it holds none; a later one what the history makes of it |
| ProtocolAnswers.SeenFrom | internal/tx/projections.go:57-169 | In every run: what a transaction sees of a projection was given by one step, either its first read of it, from the store, with no write of its own since, or its own last accepted write of it |
| ProtocolAnswers.WriteProjectionsAnswer | internal/tx/projections.go:88-149 | In every run: a write of projections is a design error if and only if a read waits for its write or the write breaks a rule of History.AcceptedIff, and is too large if and only if the distinct projections written would then be over the maximum |
| ProtocolAnswers.ReadEventsAnswer | internal/tx/tx.go:344-391 | In every run: a read of events is a design error if and only if the last one still waits for its write, and too large if and only if it is one read too many or would send one event too many |
| ProtocolAnswers.WriteEventsAnswer | internal/tx/tx.go:399-418 | In every run: a write of events is a design error if and only if no read waits for it, and too large if and only if all events written would then be over the maximum |
| ProtocolReads.AlwaysAgree | internal/tx/tx.go:344-418 | In every run, even one that deletes the log, the conditions, events and open read of each transaction agree in number with what its reads recorded |
| ProtocolOutcomes.ConflictsAreReal | internal/store/append.go:40-99 | Without a deletion: a condition conflict names the first read of the transaction for which a matching event was appended since, and a commit that writes, or gets as far as its projections, has none |
| ProtocolOutcomes.AlwaysTimed | internal/store/append.go:40-60 | In every run from a log whose events have a time, every event has one |
| ProtocolCounts.AlwaysAccounted | internal/tx/tx.go:150-313 | In every run the statistics are the tallies of the transactions begun and counted, each in at most one of committed, abandoned, expired, design errors; open transactions, events, reads and written projections are within their limits; written counts the projections written and touched lists each once |
| ProtocolCounts.LeavesOnce | internal/tx/tx.go:259-272 | A transaction that left the registry never comes back, and what it was counted as never changes, until a restart |
| ProtocolCounts.CommitInLineStays | internal/tx/tx.go:150-180 | In every run, over as many steps as a commit waits in the line or writes, whatever they are but a restart: its transaction stays open and keeps everything it holds |
| ProtocolIdle.OpenUntilIdle | internal/tx/tx.go:150-161 | In every run, while no call uses a transaction: it is open if and only if no hold of the mutex came the idle timeout or more after the step that last began it or ended a call on it; once gone it is counted as expired |
| ProtocolIdle.CallFindsIt | internal/tx/tx.go:243-264 | In every run, the next call on it gets it if and only if neither a hold in between nor the call itself came that late |
| ProtocolEnds.CommitCounts | internal/tx/tx.go:433-461 | In every run: when the call of a commit whose turn ran is over, its transaction is gone, counted as committed if and only if the append succeeded, and as nothing otherwise |
| ProtocolEnds.CommitWithoutTicketCounts | internal/tx/tx.go:433-455 | In every run: a commit that takes no ticket ends its transaction, which counts as a design error with a read open, as committed with nothing to write, and as nothing when the line has no room |
| ProtocolEnds.TurnedAwayCounts | internal/queue/queue.go:76-82 | In every run: a commit that the line or the writer turns away as it closes ends its transaction, which counts as nothing |
| ProtocolEnds.CallCounts | internal/tx/tx.go:215-234 | In every run: a call that reads or writes and is refused ends its transaction, counted as a design error if and only if that is the refusal; one that succeeds leaves it open and uncounted |
| ProtocolEnds.EndingCallCounts | internal/tx/tx.go:278-313 | In every run: an Abandon or Reject that gets its transaction ends it, counted as abandoned, as a design error, or as nothing |
| ProtocolShape.AlwaysShaped | internal/tx/tx.go:217-264 | In every run one call at a time uses a transaction, and it is busy exactly then; a commit in the line has its transaction registered and holds what it holds |
| ProtocolShape.RefusedCallChangesNothing | internal/tx/tx.go:236-256 | In every run a call on a transaction in use, or gone, changes nothing but the counters and the transactions that were idle |
| ProtocolLine.OneWorkAtATime | internal/queue/queue.go:62-107 | In every run only the request that holds the served ticket is past the closed check |
| ProtocolLine.ClosedWriterRunsNothingNew | internal/writer/writer.go:100-121 | Once the writer is closed, work runs only for a request that was already past the closed check in its turn |
| ProtocolLine.ClosedLineTakesNone | internal/queue/queue.go:62-82 | In every run, from the step that closes the line until a restart, it takes no request, be it a commit or another |
| ProtocolLine.AlwaysOrdered | internal/queue/queue.go:62-91 | Every step of the protocol keeps the line in order: turns went to tickets 0, 1, 2, ... one each, and the line is within its cap |
| ProtocolLine.JoinsWhileRoom | internal/queue/queue.go:62-75 | In every run: a request that joins gets the next ticket if and only if the line is open and, with a cap, holds no more requests than the cap; else nothing changes |
| ProtocolLine.CommitJoinsWhileRoom | internal/tx/tx.go:439-446 | The same of a commit with something to write and no read open, which is not committed when there is no room |
| Line.TurnsInTicketOrder | internal/queue/queue.go:62-91 | In every run of the line alone, turns go in ticket order, at most one is held, and next - served never exceeds maxQueued + 1 when capped |
| Line.RoomByRequests | internal/queue/queue.go:62-95 | In an open line the requests are one for each ticket from the served one on, so a ticket is given if and only if there is no cap or they are no more than the cap, and all but one of them wait |
| Line.JoinsWhileRoom | internal/queue/queue.go:62-75 | In every run of the line alone: a request that joins is in it afterwards if and only if there is room |
| Line.ClosedTakesNone | internal/queue/queue.go:62-82 | In every run, once the line closes it stays closed and takes no request |
| Line.WaitsForTurnsAhead | internal/queue/queue.go:76-91 | In every run, while a request waits, the turns done are exactly how much nearer it came: it is never passed, and waits for no more turns than were ahead of it |
| Line.WaitingGetsNearer | internal/queue/queue.go:76-91 | Each turn done brings a waiting request one nearer, nothing else moves it, at distance 0 its next wake is its turn, and only closing turns it away |
| Queue.Manager.TakeTicket | internal/queue/queue.go:62-75 | Refuses a closed or full line unchanged, else gives the next ticket: exactly when it is open and, with a cap, the requests from the served one on are no more than the cap |
| Queue.Manager.Wake | internal/queue/queue.go:76-82 | The served ticket gets a turn even after Close, another is turned away once closed, else waits |
| Queue.Turn.Done | internal/queue/turn.go:16-20 | Gives the turn on once, however often it is called |
| Registry.Registry.Lock | internal/tx/tx.go:150-161 | Ends exactly the idle transactions that no call uses, and counts each |
| Registry.Registry.Begin | internal/tx/tx.go:194-213 | Refused by the pause, then by the cap, else opens the transaction; idle ones end first |
| Registry.Registry.Acquire | internal/tx/tx.go:243-256 | Takes a free transaction and marks it busy, else says not found or busy |
| Registry.Registry.Release | internal/tx/tx.go:259-264 | Frees the transaction and renews it at this time, if it is still there (what that is worth to it is ProtocolIdle.OpenUntilIdle) |
| Registry.Registry.PauseInTurn | internal/tx/pause.go:62-87 | In place: answers the position; transactions open: requests the pause and says how many; else records it in the store, or leaves everything as it was if that fails |
| Registry.Registry.ResumeInTurn | internal/tx/pause.go:100-113 | Ends the pause in the store, then in memory, or neither |
| Registry.Transaction.ReadEvents | internal/tx/tx.go:344-391 | Refused with a read open, past the number of reads, or exactly when the full read after its limit is over the maximum, although at most min(limit, maximum + 1) rows are loaded; else what it returns is the full read, and the condition opens at the snapshot's position |
| Registry.Transaction.WriteEvents | internal/tx/tx.go:399-418 | Closes the open condition and appends the events with one time, or changes nothing |
| Registry.Transaction.GetProjection | internal/tx/projections.go:57-79 | The first read remembers the version found; a later one sees what the transaction left |
| Registry.Transaction.WriteProjections | internal/tx/projections.go:88-169 | All the changes or none: refused unless each key is written once and each change is allowed, or past the number of projections |
| Registry.Transaction.NetProjections | internal/tx/projections.go:176-199 | The loop computes the net operations and what maps each back to its projection |
| Net.NetCollapses | internal/tx/projections.go:57-199 | For any history of reads and accepted writes: on a store where what was written is as first read, the net operations all apply and leave the contents the writes would have left one by one |
| Net.BackToAbsentIsLeft | internal/tx/projections.go:172-199 | A create and a delete of one projection are accepted and need no operation, while made one by one they would delete a projection that exists by then |
| Net.NetAppliesIff | internal/store/projection.go:74-106 | The net operations all apply if and only if every projection that needs one is as first read |
| Net.NetOpsDistinct | internal/tx/projections.go:176-199 | No projection has two operations across the three lists |
| Net.NetResultAt | internal/tx/projections.go:176-199 | A projection that needs no operation, such as one back to absent, is left as it was, whatever it was |
| Net.ConflictNamesProjection | internal/tx/projections.go:202-222 | The first operation that does not apply maps back to its projection and to whether it was read |
| Validation.ValidateProjections | internal/api/projection.go:125-159 | Accepts exactly the requests whose projections are each valid, within the size, and named once across the three lists; else the rejection is of the first one at fault, for its first fault, and a repetition names the earlier one |
| Validation.AcceptedWritesStandAlone | internal/store/projection.go:64-106 | The writes of an accepted request all apply exactly when each applies to the store as it was, and the one refused is the first that does not |
| TxSpec.WritesKeepValid | internal/tx/projections.go:88-169 | An accepted write keeps written equal to the number of projections written, within the limit, and touched without repetition |
| Reads.LoadIsEnough | internal/tx/tx.go:344-391 | Loading min(limit, maximum + 1) rows refuses the same reads, and sends the same lines, as loading all |
| Reads.LinesAreFiltered | internal/api/tx.go:150-202 | Committed then pending matches, or both reversed with pending first, up to the limit, are the filter's answer on the log followed by the pending events |
| Reads.WriteTxEvents | internal/api/tx.go:150-202 | The two counted loops send exactly the first limit lines of the merge, in either direction |
| Store.Store.Append | internal/store/append.go:40-99 | All or nothing under any error or panic: on success the events follow the log at the counter's next positions in their order and the projections are written; else log, tag tables, projections and counter are as before, and a conflict names the first condition, or then the first write, that fails |
| Store.Store.Import | internal/store/import.go:18-60 | Adds the events at their own sequences and moves the counter past the highest, even unsorted, or changes nothing |
| Store.Store.Read | internal/store/read.go:45-66 | The page is the first limit matches after the position, and hasMore says whether there are more |
| Store.Store.ReadDecision | internal/store/read.go:86-107 | The events and the position are of one snapshot, whatever the limit |
| Store.Store.CheckCondition | internal/store/append.go:108-118 | With or without the shortcut and the query, true exactly when no later event matches |
| Store.Store.WriteProjections | internal/store/projection.go:74-106 | All three loops apply, or the conflict is the first write that does not, by list and index |
| Store.Store.ExecEach | internal/store/projection.go:111-143 | Stops at the first write that touches no row, with the ones before it applied |
| Store.Store.Open | internal/store/sqlite.go:126-141 | The counter restarts past the table's maximum and the pause is the file's |
| Store.Store.DeleteAllEvents | internal/store/sqlite.go:229-246 | Empties the log and its tag tables together, or nothing, and leaves the counter |
| Store.Store.DeleteProjectionsByType | internal/store/projection.go:44-47 | Deletes exactly the projections of the type, and nothing else |
| Store.Store.DeleteAllProjections | internal/store/projection.go:52-55 | Deletes every projection, and nothing else |
| Store.Store.SetPause | internal/store/pause.go:23-32 | Records the pause and answers the last sequence, or does nothing |
| StoreSpec.AppendKeepsValid | internal/store/append.go:153-177 | The counter never falls behind the log, and the old log stays its prefix |
| StoreSpec.ImportAfterLast | internal/store/import.go:18-60 | Events imported in order after the last one follow the log |
| StoreSpec.OneRefusal | internal/store/projection.go:111-127 | At most one write is the first that does not apply, and then not all do |
| Inserts.ExecBatchInsert | internal/store/append.go:227-260 | The chunks concatenate to the rows, none exceeds 32000 parameters, and the result is that of inserting the rows one by one |
| Inserts.InsertedRowsConsistent | internal/store/append.go:267-311 | After inserting events the tag tables agree with the events again |
| Sql.QueryToSql | internal/store/query.go:21-40 | On tables that agree with the events, the expression selects exactly the events after the position that Matches accepts, for every query Validate accepts and, more than that, whenever QueryReadingsAgree's condition holds |
| Sql.QueryItemToSql | internal/store/query.go:56-81 | The same for one item, with its tag subqueries each bounded by the position; no clause at all only for an item that selects everything |
| Sql.ItemReadingsAgree | internal/dcb/query.go:165-180 | The matcher and the SQL agree on an item for every event if and only if its list of types is not present and empty |
| Sql.QueryReadingsAgree | internal/store/query.go:21-81 | A query selects in SQL the events it matches in memory, for every event, if and only if for each item with an empty list of types another item names no types and asks for no tags but its own |
| Dcb.KeyIdentifiesContent | internal/dcb/query.go:108-139 | Two items have one key if and only if they hold the same types, identifiers and metadata in some order, whatever characters the names hold |
| Dcb.DedupeQueryItems | internal/dcb/query.go:87-102 | Keeps the first item of each content, in order |
| Dcb.DedupeKeepsMeaningIff | internal/dcb/query.go:82-139 | For all items received: deduplication keeps which events they match if and only if, for each item without types, some item without types asks for no tags but its own and has no item before it with an empty list of types and the same tags |
| Dcb.AcceptedQueryKeepsMeaning | internal/dcb/query.go:215-232 | A deduplicated query that Validate accepts matches exactly the events the items received match |
| Dcb.HiddenItemLosesMeaning | internal/dcb/query.go:82-102 | An empty list of types before a missing one, with no tags: after deduplication the two match other events than before |
| Quoting.QuotedSelfDelimiting | internal/dcb/query.go:108-139 | A quoted string can be read off the front of any text, so keys cannot be confused |
| Writer.GivingUpBacksOff | internal/writer/writer.go:123-164 | Over any turns, k checkpoints given up since the last that worked mean the WAL had reached k steps at the k-th, and the threshold is at least k + 1 steps |
| Writer.LastDecides | internal/writer/writer.go:141-164 | Over any turns, the threshold is one step past the size at which the last decisive checkpoint gave up, or one step if that one emptied the WAL or there was none |
| Writer.RunsOnceGrown | internal/writer/writer.go:141-164 | A turn runs a checkpoint if and only if it finds the WAL one step past the size the last decisive one gave up at, or at one step if there is none such |
| Writer.Writer.Checkpoint | internal/writer/writer.go:141-164 | The threshold after a turn is the one the history of turns gives, never below one step |
| Ndjson.AppendString | internal/ndjson/encoder.go:57-105 | The chunk-copying loop appends to what was there exactly what escaping character by character gives |
| Ndjson.StringReadsBack | internal/ndjson/encoder.go:50-56 | A reader by section 7 of RFC 8259 gets back the characters of the input, with U+FFFD for each byte of invalid UTF-8 |
| Ndjson.StringsComeBack | internal/ndjson/encoder.go:35-45 | Strings of any bytes written one a line come back line by line: one value is one line |
| Ndjson.EscapedIsPrintable | internal/ndjson/encoder.go:57-105 | The output holds no byte below 0x20 |
| Ndjson.Writer.WriteString | internal/ndjson/encoder.go:10-45 | The stream is the values written so far, each followed by a newline, though one buffer serves every line |
| Utf8.BrokenIff | internal/ndjson/encoder.go:86-92 | A byte is taken as invalid exactly where no code point's encoding, by section 3 of RFC 3629, starts |
| DuplicateKeys.CheckNoDuplicateKeys | cmd/tamarackdb-init/dump.go:147-188 | On the tokens of any JSON value, accepts if and only if no object anywhere in it repeats a key |
| DuplicateKeys.RunOnValue | cmd/tamarackdb-init/dump.go:147-188 | Whatever is open around it and whatever follows, the stack machine refuses a value with a repeated key and passes over any other |
| Compact.MarshalCompact | internal/dcb/event.go:78-116 | Each name once, sorted, with its values in order, a single one bare |
| Compact.UnmarshalCompact | internal/dcb/event.go:122-146 | In whatever order the map gives the names, each name's values in order, null read as an empty string; refused exactly when some value is an empty array or of another kind |
| Compact.ReadBack | internal/dcb/event.go:74-146 | Any tags marshalled, parsed into a map, read back in whatever order it gives their names, and marshalled again: never refused, a permutation that keeps the value order under each name, and the same form |
| Compact.OneForm | internal/dcb/event.go:74-116 | Two sets of tags have one form if and only if they have the same values in the same order under each name |
| Compact.DuplicateExists | internal/dcb/event.go:262-271 | Tells exactly whether two entries are equal |
| Paging.GrowingPagesReadAll | internal/store/read.go:45-66 | Following the pages by the last sequence, over a log that grows between pages, for any query and page size: a reading that ends has every match of the log its last page found, once and in order; one cut short has the first of them |
| Paging.PagesReadAll | internal/store/read.go:45-66 | On a log that stays, following the pages ends, and gives every matching event once, in order |
| Paging.ReadOn | internal/store/read.go:133-164 | Reading on from an event read gives exactly the matches after it |
| Backup.Runs | cmd/tamarackdb-backup/run.go:79-117 | After any number of runs, completed, failed or stopped at any page, against a source that only appends, the file holds exactly the source's events up to the file's own last sequence |
| Backup.Run | cmd/tamarackdb-backup/run.go:95-113 | Whatever happens the backup holds the start of the source's log; a completed run holds all of it as of its last page |
| Backup.FetchPage | cmd/tamarackdb-backup/run.go:153-184 | A page only from lines that all parse and hold a trailer |
| Backup.WholeOrNothing | cmd/tamarackdb-backup/run.go:70-76 | A whole response is its page; one cut at any line or within one is no page |
| DumpImport.WriteEvents | cmd/tamarackdb-init/import.go:71-107 | For any batch size: the store holds exactly the dump's events in order, count = last - first + 1, or the error is right about the line at fault, the empty dump, or a failed import |

## Left out

- SQLite itself: a write transaction is atomic, a read sees one snapshot, and its failures are the parameter `fault`; pools, pragmas, the lock file and WAL mechanics are not modelled.
- HTTP, authentication, request bodies, error envelopes, timeouts, server start and stop, configuration, file creation and renaming: no property beyond one branch each.
- Clocks, transaction ids and versions are inputs; ids and versions are taken as never given twice.
- Strings are sequences of characters of valid UTF-8, compared by character, which for UTF-8 is byte order; only `Ndjson` and `Utf8` work on bytes.
- Sequences, counters and tickets are unbounded integers; the wrap-around of 64-bit numbers is not modelled.
- The rules on names, values, sizes and numbers of entries, beyond their place in a request's checks: one branch each.
- The JSON text of the compact form: the object is modelled as its entries in order, and decoding as the map they make.
- Import as a step beside the server: only the offline tools call it, and they are modelled on the class `Store`.
- A panic in the middle of a call on a transaction, and the early answer of Resume when nothing is paused: a Resume of the model may also take a turn then, and change nothing.
- Statistics other than those of the registry that count transactions, and when the pause began.
- Quoting.QuotedSelfDelimiting: which characters print is a parameter, since it depends on the Unicode tables of Go.
- Queue.Manager.Wake: waiting for the condition variable is the step that changes nothing; that a waiter wakes at all is not stated.
