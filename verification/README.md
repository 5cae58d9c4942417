# AgenLeash: what its algorithms promise

AgenLeash runs coding agents on a machine, keeps a catalogue of their sessions
and shows them to remote viewers. Five parts of it are algorithms: reconciling
the catalogue with the transcripts found on disk, loading a page of a
transcript, turning agent output into a stream of messages that late viewers
can replay, the statistics report, and two byte-level structures. This project
models these parts and proves what they promise.

Code that updates state step by step is modelled by classes and methods with
loops (`Catalogue`, `Pump`, `EventBuffer`, `Conn`, `SessionFeed`, `Hub`, the
merge, the tail reader, the report). Each such method is proved against a
function of its inputs and the old state, and the lemmas are about those
functions. A Go map is iterated by picking any remaining key, so a method that
equals a function does not depend on the iteration order.

- `Text`, `Ordering`, `Model`: string operations, stable sorting, the records.
- `Matching`: the greedy, cursor-driven match of creation times in one workspace.
- `Reconcile` is the specification of one reconciliation, `Catalogue` the
  program; `QueueFacts`, `ReconcileFacts`, `BindingFacts`, `Idempotence` are
  its properties, and `SessionFacts` says what it does to one session, field by field.
- `Transcript` merges tool results into calls; `TranscriptFacts` and `ResultFacts`
  say what comes of it; `Paging` and `PageAgreement` relate the merge to pages read
  from the tail of a file.
- `LiveStream` is the output pump, `LiveFacts` and `LiveContent` its properties, of
  form and of content; `Hub` is the replay hub, `HubProtocol` all interleavings of its operations.
- `Stats`, `StatsFacts` and `StatsCounts`: the statistics report.
- `EventBuffer`, `Frames` and `WireFormat`: the bounded event buffer and WebSocket framing
  (RFC 6455, sections 5.2, 5.3 and 5.5).

Time is an integer number of nanoseconds with 0 for the zero `time.Time`, and
is passed in where the program asks the clock. A file is a string of bytes.
What is not modelled stands in as an arbitrary function: the decoders of
transcript and output lines, path cleaning, the text filters, the random part
of new message ids.

Three promises hold only under conditions the code does not check; the
conditions are proved to be exact:

- The page read from the tail of a transcript is the page of the whole
  transcript if and only if no line before the tail is too long for the scanner
  and the page is undisturbed by results whose call lies only before the tail
  (`PageAgreement.TailPageAgrees`; the "only if" takes distinct message ids).
  `Paging.TailPageCanDiffer` gives a family of files on which the pages differ.
- After a reconciliation the discovered sessions of the adapter are exactly the
  records given if and only if no record id is blank and the table held no id
  that differs from a record's by padding alone (`ReconcileFacts.DiscoveredExactly`).
- For a sequence number up to the newest, `EventBuffer.Since` returns the log after
  it without a gap if and only if it is at least the newest number less the capacity
  (`EventBuffer.SinceIsLogSuffix`).

## Model

| member | source | states |
|---|---|---|
| `Matching.CursorIsFullScan` | internal/app/app.go:518-543 | The moving cursor and the early break lose nothing: on lists sorted by time every managed session gets the candidate that a scan of the whole list for the first unconsumed one in its window would find |
| `Matching.FullScanAt` | internal/app/app.go:525-543 | Session by session: the i-th takes the first candidate in its window that none of the earlier sessions took |
| `Matching.NeverCross` | internal/app/app.go:524-570 | Matched pairs lie in the window, follow the order of both lists and never share a candidate |
| `Matching.NothingLeftOver` | internal/app/app.go:524-570 | A session left without a candidate has no unconsumed candidate in its window |
| `Matching.Exchange` | internal/app/app.go:671-685 | The exchange step: when the first session takes its slot, any other assignment becomes one for the remaining sessions behind that slot and loses one pair at most (windows are equally long) |
| `Matching.GreedyIsMaximum` | internal/app/app.go:518-571 | No injective assignment that respects the window of 30 seconds before to 20 minutes after matches more sessions than the greedy scan |
| `Catalogue.Catalogue.ScanCandidates` | internal/app/app.go:525-543 | The inner loop returns an unconsumed candidate in the window behind the cursor or -1; while nothing behind the cursor is consumed it is exactly the first one in the window, in spite of giving up at the first later one |
| `Catalogue.Catalogue.UpsertSession` | internal/store/store.go:73-84 | Refuses an empty id, otherwise changes the one entry |
| `Catalogue.Catalogue.UpsertHistoryRecords` | internal/app/app.go:370-383 | Stores the records in order; on the first record with an empty id stops, and the three tables are exactly what the records before it and the accepted parts of it give |
| `Catalogue.Catalogue.IndexByNative` | internal/app/app.go:577-596 | Indexes for each native id the usable record seen last, the first among equals |
| `Catalogue.Catalogue.RefreshSession` | internal/app/app.go:598-666 | Refreshes one managed session from the record of its native id, unless it is busy or the paths differ, and writes its conversation exactly when the session changed |
| `Catalogue.Catalogue.BackfillByNativeId` | internal/app/app.go:576-669 | The session table becomes a function of the old one whatever the iteration order; conversations are written for the changed sessions and no others |
| `Catalogue.Catalogue.CollectUsed` | internal/app/app.go:430-443 | Collects exactly the native ids held by managed sessions of the adapter |
| `Catalogue.Catalogue.GroupCandidates` | internal/app/app.go:445-477 | Per workspace the free records, sorted by creation time, last seen and id |
| `Catalogue.Catalogue.GroupWaiting` | internal/app/app.go:479-516 | Per workspace the waiting managed sessions in their unique order, whatever order the map was iterated in |
| `Catalogue.Catalogue.BindSession` | internal/app/app.go:548-566 | Writes the bound session and its conversation |
| `Catalogue.Catalogue.BindWorkspace` | internal/app/app.go:519-571 | One workspace: only admissible bindings are made on any records; with distinct record ids they are the specified ones |
| `Catalogue.Catalogue.BackfillWaiting` | internal/app/app.go:427-574 | Every changed session was waiting and took one free record of its workspace and window; with distinct record ids the table is the specified function of the old one for every iteration order |
| `Catalogue.Catalogue.BackfillManaged` | internal/app/app.go:418-574 | Only codex and opencode are touched; a conversation changes only for a managed session that changed, and then carries its native id |
| `Catalogue.Catalogue.PurgeStale` | internal/app/app.go:393-413 | Deletes exactly the discovered sessions of the adapter whose trimmed id was not reported |
| `Catalogue.Catalogue.PruneConversations` | internal/app/app.go:723-746 | Keeps exactly the conversations some session refers to, unchanged |
| `Catalogue.Catalogue.PruneWorkspaces` | internal/app/app.go:723-756 | Keeps exactly the workspaces some session refers to, unchanged |
| `Catalogue.Catalogue.Reconcile` | internal/app/app.go:385-416 | A whole run: what is stored when it stops early; otherwise the session table and both key sets are the specified functions of the old tables for every iteration order (distinct record ids, or an adapter without backfill), every binding is admissible, and each remaining entry is an old or given one or the conversation of a changed managed session |
| `Catalogue.Binding` | internal/app/app.go:687-713 | The conversation written carries the session's native id, keeps everything known about it and fills in workspace and creation time if it can |
| `Catalogue.Catalogue.UpsertBinding` | internal/app/app.go:687-713 | Writes that conversation and no other, or nothing for a session without one |
| `ReconcileFacts.UpsertShape` | internal/app/app.go:370-383 | With distinct ids storing adds or replaces exactly the records' sessions |
| `ReconcileFacts.ManagedShape` | internal/app/app.go:418-574 | Refreshing and binding keep every session's identity, place and creation time, never move last seen back, touch no session of another kind, no busy one, and never replace a native id |
| `ReconcileFacts.DiscoveredExactly` | internal/app/app.go:385-414 | After a run the adapter's discovered sessions are exactly the records given if and only if no record id is blank and the table held no padded alias of one |
| `ReconcileFacts.NothingElseLost` | internal/app/app.go:385-416 | If no record carries the id of such a session, no managed session and no session of another adapter is lost; foreign and busy ones are unchanged |
| `ReconcileFacts.OrphansExactly` | internal/app/app.go:723-756 | Every remaining conversation and workspace is referenced by a session and no referenced one was deleted (unpadded ids) |
| `BindingFacts.BoundIsFeasible` | internal/app/app.go:445-571 | The backfill makes only admissible bindings and, record ids being distinct, uses no record twice |
| `BindingFacts.BindingsKeepOrder` | internal/app/app.go:464-571 | Inside a workspace bindings never cross in time order |
| `BindingFacts.FirstComeFirstServed` | internal/app/app.go:518-570 | Each queued session is bound to the first record of its window that none before it took |
| `BindingFacts.NativesStayApart` | internal/app/app.go:430-462 | No native id is given twice or taken from a managed session that holds it (distinct native ids in the records) |
| `BindingFacts.PartIsMaximum` | internal/app/app.go:519-571 | In one workspace no admissible binding has more pairs than the backfill's |
| `BindingFacts.BackfillIsMaximum` | internal/app/app.go:418-574 | Over all workspaces no admissible binding binds more sessions than the backfill does |
| `SessionFacts.RefreshIsExact` | internal/app/app.go:576-669 | Field by field: a managed session that is not busy, whose native id was discovered and whose path does not conflict, gets the detail path, state and non-blank preview of the record seen last, the later time and the capabilities of both, and keeps everything else; every other session is unchanged |
| `SessionFacts.RunRefreshes` | internal/app/app.go:385-416 | For codex and opencode that is what a whole run leaves of such a session |
| `SessionFacts.RunBinds` | internal/app/app.go:385-416 | For codex and opencode a whole run leaves of a managed session what refreshing and binding make of it |
| `SessionFacts.OthersOnlyPurge` | internal/app/app.go:385-422 | A run for any other adapter leaves managed sessions as they were, and every run leaves the sessions of other adapters |
| `SessionFacts.MayBindMeans` | internal/app/app.go:430-516 | When a session may take over a record, written out: managed, idle, without native id; discovered, complete, of the same workspace, from 30 seconds before to 20 minutes after; native id not held |
| `SessionFacts.BindingIsExact` | internal/app/app.go:546-566 | Field by field: a bound session has native id, detail path and state of such a record, its non-blank preview, the later time, supports native conversations, resumes if either did, and keeps everything else |
| `SessionFacts.NobodyLeftOut` | internal/app/app.go:518-571 | Where a record fits a waiting session, that session was bound or another waiting one took the record |
| `SessionFacts.EarlierGetsEarlier` | internal/app/app.go:464-571 | Of two sessions bound in a workspace the one created earlier (then seen earlier, then with the smaller id) never has the later record |
| `SessionFacts.AsManyAsPossible` | internal/app/app.go:418-574 | As many sessions change as any way of giving fitting records to waiting sessions, each record once, could bind |
| `Idempotence.NothingToRefresh` | internal/app/app.go:576-669 | After the backfill no managed session would be refreshed again |
| `Idempotence.NothingBindable` | internal/app/app.go:479-571 | After the backfill no waiting session may still be bound to any record |
| `Idempotence.BackfillTwice` | internal/app/app.go:418-574 | Binding again after purging changes nothing |
| `Idempotence.RecordsSurvive` | internal/app/app.go:385-414 | Every record given is in the table after the run, unchanged |
| `Idempotence.ReconcileTwice` | internal/app/app.go:385-416 | For records with distinct ids and native ids, none of the ids blank, a second run with the same busy sessions leaves the session table and the key sets of conversations and workspaces unchanged |
| `Transcript.LatestIsLatest` | internal/history/history.go:1396-1402 | The call a reference stands for is the latest earlier non-tool call of its id |
| `Transcript.AbsorbInto` | internal/history/history.go:1368-1383 | Field by field: the state is overwritten by a non-blank one, output, completion time and artifacts are taken if absent, the description if blank |
| `Transcript.MergeResults` | internal/history/history.go:1358-1388 | The results of one tool message change exactly the calls they answer and the others are left over in order |
| `Transcript.AddRefs` | internal/history/history.go:1391-1403 | After a non-tool message the references point at the latest call of every id so far |
| `Transcript.Merge` | internal/history/history.go:1347-1406 | The loop over positions and references computes the declarative merge: each call with all results it owns absorbed, each tool message with the results nobody owns |
| `TranscriptFacts.RefsPointAtLatestCall` | internal/history/history.go:1352-1403 | Every reference is in bounds and is the latest earlier non-tool call with that id |
| `TranscriptFacts.ResultReachesOwner` | internal/history/history.go:1360-1383 | Each result reaches exactly the call it names, in order, or stays in its message |
| `TranscriptFacts.StateIsLast` | internal/history/history.go:1369-1371 | A call ends with the last non-blank state it met |
| `TranscriptFacts.OutputIsFirst` | internal/history/history.go:1372-1374 | A call ends with the first non-empty output it met, its own included |
| `TranscriptFacts.CallAfterMerge` | internal/history/history.go:1347-1406 | After any run a call is found at its place with everything it owns absorbed |
| `TranscriptFacts.NonToolMessagesKept` | internal/history/history.go:1391-1406 | Merging never drops, reorders or renames a non-tool message or one of its calls |
| `TranscriptFacts.MergeConservesUses` | internal/history/history.go:1347-1406 | Tool uses in = tool uses out + results merged |
| `TranscriptFacts.FixedPoints` | internal/history/history.go:1347-1406 | A transcript is left alone if and only if no result in it answers an earlier call |
| `TranscriptFacts.MergeTwice` | internal/history/history.go:1347-1406 | Merging is idempotent |
| `TranscriptFacts.MergeDistributes` | internal/history/history.go:1347-1406 | Merging distributes over concatenation if and only if no result of the second part names a call that only the first part has |
| `ResultFacts.CompletionIsFirst` | internal/history/history.go:1375-1377 | A call ends with the first completion time it met, its own included |
| `ResultFacts.ArtifactsAreFirst` | internal/history/history.go:1381-1383 | A call ends with the first non-empty list of artifacts it met, its own included |
| `ResultFacts.DescriptionIsFirst` | internal/history/history.go:1378-1380 | A call ends with the first non-blank description it met, its own included, or the last one if all are blank |
| `ResultFacts.MergedCall` | internal/history/history.go:1347-1406 | In terms of positions: exactly the results for which this call is the latest earlier one of their id complete it, in order, each field by its own rule |
| `ResultFacts.MergedToolMessage` | internal/history/history.go:1358-1390 | A tool message keeps exactly the results no earlier call answers to, in order, and is gone if there are none |
| `Paging.ParseMessages` | internal/history/history.go:1329-1345 | Decodes line by line up to the first line of 16 MiB or more, and merges |
| `Paging.ReadTailChunk` | internal/history/history.go:871-905 | The last bytes of the file, from behind the first newline unless nothing follows it |
| `Paging.LoadMessagePage` | internal/history/history.go:1288-1327 | The doubling loop terminates; the page is that of the tail it settles on, or empty if there is no file |
| `Paging.PageHolds` | internal/history/history.go:781-819 | Limits of 500 or more become 500, others that are not positive 100, negative offsets 0; the page is the messages from offset to offset + limit counted from the end, HasMore says whether older ones are left, and NextOffset is where they begin |
| `Paging.TailBegins` | internal/history/history.go:884-903 | The tail begins behind the first newline of the last bytes, or with them if nothing follows a newline |
| `Paging.ReadsNoMoreThanNeeded` | internal/history/history.go:1303-1324 | The page comes from the shortest of the tails of 256 KiB, 512 KiB and so on that holds enough messages, or from the whole file |
| `Paging.FirstLineIsDecoded` | internal/history/history.go:1333-1343 | A line is trimmed and decoded; a blank one and one that does not decode give nothing |
| `Paging.LongLineEndsReading` | internal/history/history.go:1331-1344 | A line of 16 MiB or more ends the reading |
| `Paging.RawConcat` | internal/history/history.go:1329-1345 | Decoding is line by line: whole lines in front contribute their messages and nothing else changes, until a line is too long |
| `Paging.PartialLineIsTooLittle` | internal/history/history.go:871-905 | A chunk that keeps its partial first line yields one message at most, and so never the two or more needed |
| `Paging.LoadSettles` | internal/history/history.go:1303-1324 | The loop settles on the whole file or on whole lines that hold enough messages |
| `Paging.TailPageIsWholePage` | internal/history/history.go:1288-1327 | If no result in the tail names a call that lies only before it (and no line before it is too long), the page is the whole file's: messages, HasMore and NextOffset |
| `Paging.TailPageCanDiffer` | internal/history/history.go:1303-1326 | Files on which the page of the last two messages shows a result of an earlier call on its own, where the whole file shows two texts |
| `Paging.PagesCoverAll` | internal/history/history.go:781-819 | Following NextOffset until HasMore is false terminates and the pages in reverse order are the whole list, each message once, for every requested limit |
| `PageAgreement.CrossedChanges` | internal/history/history.go:1358-1388 | A message of the tail looks the same with and without what lies before it if and only if none of its results crosses; otherwise it loses tool uses or is gone |
| `PageAgreement.AgreesIf` | internal/history/history.go:794-819 | It is enough that no message of the page has a crossing result and none after it consists of nothing else |
| `PageAgreement.AgreesOnlyIf` | internal/history/history.go:794-819 | With distinct message ids that is also necessary |
| `PageAgreement.TailPageAgrees` | internal/history/history.go:1288-1327 | The page read from the tail is the whole file's exactly under that condition and if no line before the tail is too long |
| `LiveStream.Pump.ConsumeLine` | internal/app/app.go:1645-1679 | One line in each JSON mode: skipped, or bound, published at once, streamed or completed, as specified |
| `LiveStream.Pump.PublishDelta` | internal/app/app.go:1885-1897 | Starts a message if none is open, then adds a delta to the open one |
| `LiveStream.Pump.ConsumeOutput` | internal/app/app.go:1832-1883 | Splitting the buffer and carrying over the last piece handles exactly the complete lines |
| `LiveStream.Pump.HandlePlain` | internal/app/app.go:1023-1072 | Plain output is one delta of the open message; a request for input completes it |
| `LiveStream.Pump.HandleExit` | internal/app/app.go:1073-1116 | The exit flushes a non-blank remainder and completes an open message |
| `LiveStream.Pump.Handle` | internal/app/app.go:953-1126 | Every runtime event moves state, remainder and published events as specified |
| `LiveStream.SplitConsume` | internal/app/app.go:1637-1643 | Splitting at newlines and handling all but the last piece is consuming line by line |
| `LiveFacts.PrefixIsDropped` | internal/app/app.go:1910-1916 | A line that is stdout or stderr, an optional colon or equals sign, and JSON is taken for its JSON |
| `LiveFacts.OthersAreKept` | internal/app/app.go:1910-1916 | Every other line is left alone |
| `LiveFacts.ConsumeConcat` | internal/app/app.go:1636-1643 | Carrying the remainder over is the same as having had one longer chunk |
| `LiveFacts.RemainderHasNoNewline` | internal/app/app.go:1639-1642 | What is carried over never contains a newline |
| `LiveFacts.ChunkIndependence` | internal/app/app.go:953-1019 | For every split of the output into chunks the events (raw chunks aside), the message ids drawn and the final state equal those of one single chunk |
| `LiveFacts.ExitFlushes` | internal/app/app.go:1073-1109 | With the newline fed at the exit every line of the output was handled, the unfinished last one too |
| `LiveFacts.StepKeepsStep` | internal/app/app.go:953-1126 | In every mode the pump's message id is the one open message, which has a delta and, in the streaming modes, was streamed; after an exit none is open |
| `LiveFacts.MessagesAreFlat` | internal/app/app.go:953-1126 | Over every run the message events are a flat sequence of started, one or more deltas, completed, each with the id of the latest started; at most the last one is open |
| `LiveContent.EverythingIsTold` | internal/app/app.go:953-1126 | On every run in every mode the message events are exactly the messages heard when listening to the decoded lines or chunks, with their texts and ids, and the other events are the notices: new conversation ids, requests for input, state changes |
| `LiveContent.OneMessageALine` | internal/app/app.go:1645-1789 | Listening in the modes without streaming: one message for each line with text, which only opencode names |
| `LiveContent.EveryLineIsAMessage` | internal/app/app.go:1636-1789 | Codex, opencode, claudecode, for every split into chunks and then the exit: the messages told are, in order, one for each line that decodes to some text, with just that text, and for opencode with the id it names |
| `LiveContent.EveryStreamIsTold` | internal/app/app.go:1832-1908 | For every split into chunks and then the exit the messages told are those heard line by line |
| `LiveContent.StreamedTextsAreTold` | internal/app/app.go:1866-1897 | The streaming modes: the deltas are the texts of the streaming lines and of the whole lines that come while no stream is open |
| `LiveContent.PlainTextsAreTold` | internal/app/app.go:1023-1072 | Plain mode: the deltas are the sanitized chunks that are not empty |
| `Hub.SessionFeed.PublishLocked` | internal/event/hub.go:90-109 | The locked part puts the event behind the stored ones, forgets the oldest beyond the buffer and picks the subscribed channels, or refuses on a closed feed |
| `Hub.SessionFeed.Publish` | internal/event/hub.go:90-116 | Every subscribed channel with room gets the event, a full one drops it |
| `Hub.SessionFeed.Subscribe` | internal/event/hub.go:127-154 | A new open channel with the recent events, or a closed one and nothing on a closed feed |
| `Hub.SessionFeed.Unsubscribe` | internal/event/hub.go:145-152 | Removes and closes the channel once, however often it is called |
| `Hub.SessionFeed.Close` | internal/event/hub.go:156-173 | Closes the feed and every channel still subscribed, once |
| `Hub.Hub.Publish` | internal/event/hub.go:38-45 | Reaches the feed of the session, created on first use, and no other session's feed or channels |
| `Hub.Hub.Subscribe` | internal/event/hub.go:52-55 | Subscribes to the feed of the session and to no other |
| `Hub.Hub.Close` | internal/event/hub.go:57-66 | Forgets the feed and closes it with all its channels; other sessions are untouched |
| `HubProtocol.ActionKeeps` | internal/event/hub.go:90-173 | Every action of every interleaving, with publish split at its unlock, keeps the invariant |
| `HubProtocol.RunKeeps` | internal/event/hub.go:90-173 | So does every run |
| `HubProtocol.ReplayIsExact` | internal/event/hub.go:90-173 | On every run each accepted event was either accepted before a still open subscription (and is in its Recent if among the last buffered) or has it in its send set: never both, never neither; Recent is, element by element, the suffix of what was accepted, as long as the buffer allows |
| `HubProtocol.SendsAreExact` | internal/event/hub.go:90-173 | Nothing is put into a channel twice or without having been picked for it; every other picked send is pending or was dropped; no channel is closed twice |
| `HubProtocol.DeliverIsExact` | internal/event/hub.go:110-115 | A send goes behind what is in a channel with room for it and is dropped only by one that holds 64 events |
| `HubProtocol.ClosedForGood` | internal/event/hub.go:90-95 | A closed feed accepts nothing any more, whatever happens later |
| `Stats.Count` | internal/httpapi/stats.go:134-163 | Counts one session by origin, state and highlight |
| `Stats.CountIntoAdapters` | internal/httpapi/stats.go:171-210 | One session more in the accumulator of its adapter and no other |
| `Stats.CountIntoWorkspaces` | internal/httpapi/stats.go:212-240 | One session more in the accumulator of its workspace and no other |
| `Stats.SetToSortedSlice` | internal/httpapi/stats.go:342-356 | Sorted, and each name once for every value that trims to it, blank ones never |
| `Stats.ListAdapters` | internal/httpapi/stats.go:257-266 | The adapter table, the same for every iteration order of the map |
| `Stats.ListWorkspaces` | internal/httpapi/stats.go:268-281 | The ranking of the workspaces, the same for every iteration order of the map |
| `Stats.BuildStatsResponse` | internal/httpapi/stats.go:105-288 | The single loop over four accumulators, the two sorts and the truncation compute the report defined by tallying the sessions |
| `StatsFacts.ReportIgnoresOrder` | internal/httpapi/stats.go:105-288 | The report is a function of the multiset of sessions |
| `StatsFacts.AdapterTableIsExact` | internal/httpapi/stats.go:257-266 | One row for each adapter name that occurs, each the tally of its sessions, busiest first |
| `StatsFacts.RankingIsExact` | internal/httpapi/stats.go:268-281 | Likewise for workspaces, with no two rows tied |
| `StatsFacts.KeptBeforeDropped` | internal/httpapi/stats.go:272-285 | If workspaces are dropped, exactly the requested number is kept and each kept one ranks strictly before each dropped one |
| `StatsFacts.GroupsAddUp` | internal/httpapi/stats.go:120-254 | Grouping the sessions by any key loses nothing: the groups' tallies add up to the tally of all |
| `StatsFacts.AdaptersAddUp` | internal/httpapi/stats.go:120-266 | Every counter summed over the adapters is the total; total unique workspaces lie between the largest adapter's and the sum |
| `StatsFacts.WorkspacesAddUp` | internal/httpapi/stats.go:120-285 | Before truncation the workspaces' sessions, managed and discovered counts sum to the totals; primary plus subagent equals the claudecode sessions, which the workspaces count alike |
| `StatsCounts.CountersMean` | internal/model/highlight.go:37-116 | Which counters a session is counted by: one each for origin and state, review (paused, failed, or stopped in the last 45 minutes) and recent activity |
| `StatsCounts.KeysMean` | internal/httpapi/stats.go:311-332 | The adapter and workspace a session is counted for |
| `StatsCounts.TotalsAreCounts` | internal/httpapi/stats.go:120-255 | Each total is the number of sessions with its property, and of different workspaces and conversations |
| `StatsCounts.AdapterRowsAreCounts` | internal/httpapi/stats.go:171-259 | Each number of an adapter is that of its own sessions, and its time the latest one was seen |
| `StatsCounts.WorkspaceRowsAreCounts` | internal/httpapi/stats.go:212-271 | Likewise for a workspace, which also lists its adapters in order, each once |
| `StatsCounts.ClaudecodeIsCounted` | internal/httpapi/stats.go:242-287 | The claudecode section is there exactly if there are such sessions, and counts them, the subagents, the others and the workspaces |
| `StatsCounts.TablesAreOrdered` | internal/httpapi/stats.go:261-282 | Adapters with more sessions come first, then by name; workspaces by sessions, then latest seen, then name |
| `StatsCounts.TopIsCut` | internal/httpapi/stats.go:268-298 | The first workspaces of the ranking are shown: as many as there are, up to the number asked for, 15 if that is not positive and 100 at most |
| `EventBuffer.EventBuffer.constructor` | internal/runtime/buffer.go:15-23 | An empty buffer; a capacity that is not positive becomes 128 |
| `EventBuffer.EventBuffer.Append` | internal/runtime/buffer.go:25-43 | Appends to the unbounded log that the buffer is the window of, with the next 64-bit sequence number |
| `EventBuffer.EventBuffer.Store` | internal/runtime/buffer.go:35-42 | Appends to the array, or shifts it by one and overwrites the last place |
| `EventBuffer.EventBuffer.LatestSequence` | internal/runtime/buffer.go:45-50 | The number of the newest event of the log |
| `EventBuffer.EventBuffer.Snapshot` | internal/runtime/buffer.go:52-59 | The newest events of the log, as many as fit |
| `EventBuffer.EventBuffer.Since` | internal/runtime/buffer.go:61-76 | The filtering loop: the events of that window with a larger number, in order |
| `EventBuffer.WindowIsConsecutive` | internal/runtime/buffer.go:25-59 | The window holds the last min(n, capacity) events with consecutive numbers ending at n |
| `EventBuffer.SinceIsLogSuffix` | internal/runtime/buffer.go:61-76 | The result is the log after the number asked for, without a gap, if and only if that number is at least n - capacity |
| `Frames.MaskTwice` | internal/ws/conn.go:202-206 | Masking with the same key twice restores the payload (section 5.3 of RFC 6455) |
| `Frames.Unmask` | internal/ws/conn.go:202-206 | The loop unmasks the payload in place: each bit becomes set exactly when it differs from the key bit |
| `Frames.Conn.WriteFrame` | internal/ws/conn.go:139-164 | Appends the encoding of a final, unmasked frame, or refuses on a closed connection |
| `Frames.Conn.ReadFrame` | internal/ws/conn.go:166-209 | Reads exactly one frame off the stream, or says why not, and leaves the rest |
| `Frames.Conn.ReadMessage` | internal/ws/conn.go:101-125 | The loop over frames: the message, the bytes written meanwhile and the bytes left |
| `Frames.LengthRoundTrip` | internal/ws/conn.go:145-154 | The three length forms are read back as the length they were written for |
| `Frames.DecodeEncode` | internal/ws/conn.go:139-209 | Decoding an encoded frame gives it back and leaves what follows, with any 4-byte key or none |
| `Frames.StreamRoundTrip` | internal/ws/conn.go:139-209 | So do whole streams, to the last byte |
| `Frames.EncodingIsShortest` | internal/ws/conn.go:145-154 | No byte string that decodes to the frame with the same masking is shorter than the one written (section 5.2 of RFC 6455) |
| `Frames.ReadsFirstMessage` | internal/ws/conn.go:101-125 | On any frames with known opcodes the result is the first final data frame or the first close, after exactly one pong for each earlier ping, in order and with its payload (sections 5.5.2 and 5.5.3 of RFC 6455) |
| `Frames.ReadsToTheEnd` | internal/ws/conn.go:101-125 | Without such a frame every ping is answered before the end of the stream is reported |
| `Frames.XorIsBitwise` | internal/ws/conn.go:202-206 | Exclusive or sets a bit exactly when the two bits differ |
| `WireFormat.ReadsWireFormat` | internal/ws/conn.go:166-209 | By position in the byte stream: a frame is read exactly when the stream starts with a complete one; final bit, opcode, network-order length and rest are where section 5.2 of RFC 6455 puts them, and a bit of an unmasked payload is set exactly when the received bit and the key bit differ (section 5.3) |
| `WireFormat.StopsBecause` | internal/ws/conn.go:166-201 | Why no frame is read: a length beyond 63 bits, the end of the stream between two parts, or inside one |
| `WireFormat.WritesWireFormat` | internal/ws/conn.go:139-164 | What is written, byte by byte: final bit and opcode, an unmasked header of 2, 4 or 10 bytes with the length in network order, the payload as it is |
| `WireFormat.PongAt` | internal/ws/conn.go:113-116 | Each ping has its pong: final, unmasked, opcode 10, the ping payload; nothing else has |
| `Ordering.StableSortSorts` | internal/app/app.go:504-516 | A stable sort by a strict weak order sorts |
| `Text.TrimIsCore` | internal/app/app.go:715-721 | Trimming takes white space, and nothing else, off both ends |
| `Text.BeforeIsLexicographic` | internal/app/app.go:475 | The order of strings is lexicographic |
| `Ordering.TiesKeepOrder` | internal/app/app.go:464-477 | Elements that tie keep their order |
| `Ordering.SortedUnique` | internal/app/app.go:464-516 | Without ties the sorted sequence depends on the multiset of elements alone, so not on the order of iteration |

## Left out

- PageAgreement.TailPageAgrees: the "only if" half takes messages with distinct ids, because pages of equal messages can agree by coincidence.
- Paging.TailPageIsWholePage: one direction only; `PageAgreement.TailPageAgrees` has the exact condition.
- Catalogue.Catalogue.BackfillWaiting: on records that share a session id only the safety of the bindings is stated, because which session gets a shared id then depends on the order in which the map of workspaces is iterated.
- Catalogue.Catalogue.Reconcile: which of several sessions that share a conversation decides its value depends on the iteration order and is not fixed; `UpdatedAt` of the catalogue is not modelled. A run is one atomic step.
- BindingFacts.BackfillIsMaximum: optimal among bindings that use each record once, for the sessions waiting when the backfill begins.
- HubProtocol.SendsAreExact: a send to a channel that is closed by then is not enabled; what the program does there is not modelled.
- EventBuffer.SinceIsLogSuffix: for logs shorter than 2^64; the wrap-around of the sequence number itself is modelled.
- LiveStream.Pump.Handle: session snapshots, previews, the events about pausing and resuming a session and the writes to the store are not modelled; the four tests for the output format, which exclude one another, are one enumeration.
- Frames.Conn.ReadFrame: a length of 2^63 or more, on which the program panics, is an error value; writes never fail on an open connection.
- Stats.BuildStatsResponse: counters are unbounded integers.
- Transcript.Merge: messages are values, so that a tool message's slice of uses shared with the caller is not captured.
- Decoding of transcript and output lines, `filepath.Clean`, prompt detection and output filtering: arbitrary functions.
- Case folding of adapter names: ASCII letters only, which is exact for codex, opencode and claudecode and for the two markers of subagent sessions.
- Processes, terminals, pipes and signals: operating system behaviour.
- The SQLite transcripts, file walking, `stableID` and the persistence of the catalogue: input and output.
- HTTP routing, authentication, configuration and the web pages: plumbing.
- File preview and path containment: file system behaviour.
- Reassembly of fragmented WebSocket messages: the reader does not do it; a data frame without the final bit is skipped, as in the code.
- The session transition table, adapter version comparison, argument and environment building: would only add easy members.
