# Sniff4Hound: a verified model of the sensor's algorithms

Sniff4Hound watches a network, plays decoy services and keeps a history of what it saw. This project
models the algorithms and state machines beneath its I/O and proves what the rest of the program
relies on, for all inputs and all runs.

| files | component | main results |
|---|---|---|
| `Suffixes.dfy`, `BreadthFirst.dfy`, `LinkCost.dfy`, `Matcher.dfy` | multi-pattern matcher | a scan finds exactly the non-empty patterns that occur; failure-link steps are bounded for the build and for each scan |
| `JobQueue.dfy`, `JobRuns.dfy`, `JobOutcomes.dfy`, `JobOrder.dfy`, `JobShutdown.dfy` | background job queue | pool size, one settlement and where it comes from, one report, one finish hook, first come first taken and nothing stranded, in every interleaving |
| `Aggregation.dfy`, `HistoryRows.dfy`, `HistoryStore.dfy`, `HistoryPeers.dfy`, `HistoryRecorder.dfy`, `ArpEvents.dfy` | DNS and ARP history | any flush schedule with at most four failed writes in a row comes to a plain fold over the observations; the event log rebuilds the bindings |
| `Ipc.dfy`, `IpcRuns.dfy`, `IpcAnswers.dfy` | reconnecting RPC client | pending calls ride the live link, old cleanups are harmless, no call is stranded, a response reaches its call and nothing else passes for one, in every interleaving |
| `DnsCodec.dfy` | DNS responder | name decoding agrees with a recursive reading and stops; responses parse back to the questions and carry the configured address |
| `Window.dfy`, `FloodDetector.dfy`, `UdpLimiter.dfy`, `AuthLimiter.dfy` | sliding windows | trimmed deques equal a filter over the whole history; alert spacing, response limit, lockouts |
| `RangeIndex.dfy` | address registry | bisect lookup in the merged table equals a linear scan |
| `PublicSuffix.dfy` | registrable domains | the Public Suffix List algorithm, fixed point, rebuilding the name |
| `ResourceGuard.dfy` | resource guard | stops and starts alternate, no breach is missed |
| `ChunkedCoding.dfy`, `ChunkSizes.dfy`, `ChunkedBodies.dfy` | chunked transfer coding | printing then decoding; which size lines are read, and what becomes of every body; when the decoder stops |
| `SetSums.dfy`, `Options.dfy`, `Octets.dfy` | shared definitions | |

`dafny verify dfyconfig.toml` checks everything.

## How the model is built

* Time is a parameter that never decreases; a block the program runs under one lock is one step.
* Objects the program updates in place are classes whose `Valid()` ties the fields to a history kept in
  ghost fields; the methods promise the new history and `Valid()`, and lemmas say what the history means.
  `HistoryRecorder` collects what it proves of one moment in `Sound(r.Now(), r.maxPending)`, which is
  part of `Valid()`; the lemmas about `Sound` therefore hold after every call of every method.
* The job queue and the IPC client run on many threads, and their locks are taken and released in the
  middle of their functions. Both are modelled as labelled step systems over values: a state, a set of
  labels, when each is enabled and what it does. The theorems quantify over every run, that is over every
  interleaving of those steps.
* Loops of the program are loops here, proved against a specification function.

## What turned out false

* `app.py` decodes a chunk size with a sign. A negative size sends the decoder back, and a body such as
  `-4` followed by a line end is read for ever (`NegativeSizeNeverStops`). The decoder never returns if
  and only if it comes back to a size line it has read (`NeverReturnsExactly`); unless a size line it
  reads is negative it returns, whatever the data holds (`DecoderStops`), and as many passes as the body
  has bytes always decide (`PassesAreEnough`).
* An empty chunk prints as the terminator: printing and decoding gives the concatenation if and only if
  no data follows an empty chunk (`RoundTripExactly`).
* A DNS compression pointer has 14 bits: the k-th answer's owner name points at the k-th question if and
  only if that question's offset is below 0x4000 (`AnswerPointer`).
* Bisect looks at one row only, so a range nested in another under a different label hides the rest of
  it (`NestedRangeHides`). In a table sorted by start every covered address is found if and only if no
  row ends before an earlier one does without the next row taking over at once (`FindsAllExactly`); the
  answers are exactly the labels of the rows if and only if, besides, no address has two labels
  (`AnswersExactlyWhen`), and for rows that are never empty, as the registries give them, that alone
  decides (`AnswersExactlyOneLabel`). An answer is never wrong (`AnswerSound`).
* "No strike inside an earlier lockout" fails when the full table evicts the locked client
  (`EvictionForgetsLockout`); a success during a lockout forgets it as well. A failing request is refused
  if and only if a lockout of the client's present stay in the table is running (`Guard`, with `Locked`);
  a lockout of an earlier stay may still be running then and refuses nothing. Within one stay lockouts
  never overlap, and below the cap no other client is ever dropped (`Guard`).
* The clients and resolvers of a DNS row are not always all that were seen: a row lists all of them if and
  only if there are at most twenty (`StoredPeersExactly`).
* History rows can be lost: a failed batch is kept whole if and only if none of its lists exceeds four
  times the pending limit. Four failed writes in a row cut nothing (`FourFailuresCutNothing`), five can
  (`FiveFailuresLose`). A table comes to the fold of its observations if and only if none of its rows was
  cut (`FoldExactlyUncut`), and after a cut its counts stay below the observations
  (`NothingLostOrDoubled`).
* Shutdown posts a marker for every worker, and each worker that waits has one (`WaitersAreWoken`); but the
  final sweep takes what is still queued when its joins have timed out. A worker can be left waiting for
  ever if and only if it still waits when the sweep begins (`StrandedExactly`, `SweepMayStrand`).
* A reader whose wait runs out raises a timeout even if its job settles with a value in that moment
  (`TimedOutWithValue`). The outcome on the job is that timeout, then and for ever, if and only if the
  job was not settled otherwise when the wait ran out (`ReaderTimesOutExactly`).
* A call that is retried may return the failure of the connection it tried first although its second
  frame was sent in full on a newer link (`MixUpHappens` is such a run from the start,
  `RetryMayReturnOldFailure` finds one from every state with a call about to send). Once its first send has
  failed, the call may come back with a message about that first request if and only if the request's
  entry was gone from the table when the call came to take it out; an entry found there is never answered,
  in any run (`RetryMixUpExactly`). The half that builds the run asks that the client is not closed, not
  refused for good and not connecting at that moment. A call that made one request cannot be told about
  another (`SingleAttemptIsExact`).

## Model

| member | source | states |
|---|---|---|
| Matcher.BuildAndScan | sniff4hound/ahocorasick.py:38-101 | for every pattern list and text, a word is returned exactly if it is listed, is not empty and occurs as a contiguous substring; the existence test is true exactly if there is such a word |
| Matcher.AhoCorasick.constructor | sniff4hound/ahocorasick.py:38-44 | the patterns are the distinct non-empty inputs; every node but the root fails to the longest proper suffix in the trie and outputs all patterns that are suffixes of its string |
| Matcher.AhoCorasick.Insert | sniff4hound/ahocorasick.py:46-54 | the trie keeps its shape, spans exactly the prefixes of the patterns, and the pattern is added |
| Matcher.AhoCorasick.BuildFailLinks | sniff4hound/ahocorasick.py:56-75 | every node is linked correctly, with no more failure-link steps than the summed pattern lengths |
| Matcher.AhoCorasick.LinkTop | sniff4hound/ahocorasick.py:58-60 | the breadth-first pass starts with the root's children linked and no cost |
| Matcher.AhoCorasick.Expand | sniff4hound/ahocorasick.py:62-65 | one queue entry is taken and all its edges are linked; the cost grows by the steps made |
| Matcher.AhoCorasick.LinkEdge | sniff4hound/ahocorasick.py:65-75 | one edge's child is queued and linked, and the pass keeps its invariant |
| Matcher.AhoCorasick.FindFail | sniff4hound/ahocorasick.py:66-69 | the walk over failure links ends at the longest proper suffix, and its steps are paid for by the loss of depth |
| Matcher.AhoCorasick.Search | sniff4hound/ahocorasick.py:77-89 | returns exactly the patterns that occur in the text, with at most one failure-link step per character |
| Matcher.AhoCorasick.ContainsAny | sniff4hound/ahocorasick.py:91-101 | true exactly if some pattern occurs, with at most one failure-link step per character |
| Matcher.AhoCorasick.Advance | sniff4hound/ahocorasick.py:84-88 | the scan node stays the longest suffix of the consumed text in the trie, and its output is all patterns that end here |
| Suffixes.WalkFindsFail | sniff4hound/ahocorasick.py:66-69 | a walk that gave up only on suffixes without the edge ends at the longest proper suffix |
| Suffixes.WalkFindsLongest | sniff4hound/ahocorasick.py:84-86 | the same walk during a scan ends at the longest suffix of the text read so far |
| Suffixes.EndingViaFail | sniff4hound/ahocorasick.py:75-75 | the patterns that are suffixes of a node's string are its own and those of its failure node |
| Suffixes.EndingViaLongest | sniff4hound/ahocorasick.py:87-88 | the patterns that end in a text are those that end in its longest suffix in the trie |
| Suffixes.FoundSnoc | sniff4hound/ahocorasick.py:83-88 | one more character adds exactly the patterns that end at it |
| BreadthFirst.Exhausted | sniff4hound/ahocorasick.py:62-64 | when the queue is empty every node has been linked |
| LinkCost.TotalCost | sniff4hound/ahocorasick.py:56-75 | link steps that each path pays for with depth sum to at most the summed pattern lengths |
| JobRuns.PoolKeepsItsSize | sniff4hound/jobs.py:166-172 | before shutdown the unretired workers are the limit plus the surplus, the surplus is the number of abandoned handlers still running and lies between zero and the limit, so exactly the limit are not lost to one |
| JobRuns.SettlesOnce | sniff4hound/jobs.py:305-338 | a settled job never changes its outcome or status: a late result never replaces a timeout; every answer a caller was given is that outcome and every reply is final |
| JobRuns.ReaderTimesOutExactly | sniff4hound/jobs.py:197-208 | after a reader's wait ran out, the outcome on its job is the timeout the reader raises, at every later point, if and only if the job was unsettled then or had already settled with a timeout |
| JobRuns.TimedOutWithValue | sniff4hound/jobs.py:197-208 | a run in which a reader raises its timeout although its job settled with a value |
| JobOutcomes.OutcomeHasCause | sniff4hound/jobs.py:305-338 | in every run a settled job has an outcome that one step put there: what its handler returned, a timeout of a reader or of a handler that ran too long, or the shutdown error of a queue that was stopping |
| JobOutcomes.StepSettles | sniff4hound/jobs.py:305-338 | a step settles an unsettled job if and only if it is one of those, and with exactly that outcome |
| JobOutcomes.StartHasCause | sniff4hound/jobs.py:258-279 | the start time of a job is the clock of the step in which a worker went into its handler |
| JobOutcomes.WatchdogIsPatient | sniff4hound/jobs.py:347-362 | the watchdog gives up only on jobs that a step of the run started more than the timeout before |
| JobOutcomes.WatchdogGivesUp | sniff4hound/jobs.py:347-362 | a job whose handler ran longer than the timeout is settled with a timeout by the watchdog's next pass |
| JobOutcomes.HandlerAnswersCaller | sniff4hound/jobs.py:197-215 | what a handler returns or raises is what a caller that still waits is answered |
| JobOutcomes.ServedAsSubmitted | sniff4hound/jobs.py:176-231 | a read is never handed an id nor marked for polling, a job that may be polled is never given up by its caller, and a caller that was answered leaves no record |
| JobOrder.FirstComeFirstTaken | sniff4hound/jobs.py:102-115 | in every run a job queued behind another does not start while the other is queued |
| JobRuns.ReportedOnce | sniff4hound/jobs.py:258-303 | each enqueued item gets at most one task completion and lacks it exactly while queued, in one worker's hands or with shutdown; the queue's unfinished count is the number of items that lack it |
| JobRuns.FinishedOnce | sniff4hound/jobs.py:176-231 | a job id is returned only for a job marked before it settled; such a job gets exactly one finish when it settles, any other none, ever |
| JobRuns.ShutdownStrandsNothing | sniff4hound/jobs.py:426-462 | once shutdown has drained the queue, an unsettled job is in a worker's hands, and from then on the queue never holds a job again, only markers |
| JobShutdown.WaitersAreWoken | sniff4hound/jobs.py:448-449 | when shutdown has posted one marker per worker, the queue holds a marker for each worker that still waits, and nothing else |
| JobShutdown.NoneWaitsAgain | sniff4hound/jobs.py:258-264 | once the stop flag is set no worker begins to wait for a job |
| JobShutdown.StrandedExactly | sniff4hound/jobs.py:450-462 | after the last marker is posted, some run leaves a given worker waiting for ever if and only if it waits when the final sweep begins |
| JobShutdown.SweepMayStrand | sniff4hound/jobs.py:450-462 | a run from the start that leaves a worker waiting, its marker taken by the sweep |
| JobRuns.RunInv | sniff4hound/jobs.py:118-462 | every state of every run satisfies the invariant that ties jobs, workers, the queue and the counters together |
| JobRuns.StepInv | sniff4hound/jobs.py:176-462 | every step of submitter, worker, watchdog, reaper and shutdown keeps that invariant |
| JobRuns.RunGrows | sniff4hound/jobs.py:62-100 | along every run outcomes, marks, counts and final replies of jobs stay, retired workers stay retired, and a drained shutdown stays drained |
| JobQueue.CountSettle | sniff4hound/jobs.py:305-338 | settling keeps the pool count: giving up a worker starts one replacement |
| JobQueue.WithoutProps | sniff4hound/jobs.py:102-115 | discarding a queued job removes exactly its own entry and keeps all others |
| JobQueue.WithoutKeepsOrder | sniff4hound/jobs.py:102-115 | discarding takes out the first entry of the job and leaves the others in their order |
| Aggregation.Accepts | sniff4hound/history_recorder.py:127-178 | adding an observation to a key's pending row keeps the agreement of stored, waiting and pending rows with the plain fold, for every key |
| Aggregation.Flushes | sniff4hound/history_recorder.py:274-281 | moving the pending rows behind the kept ones keeps that agreement |
| Aggregation.Writes | sniff4hound/history_store.py:154-156 | merging the first waiting row into its stored row keeps that agreement |
| Aggregation.AcceptsAccounted | sniff4hound/history_recorder.py:154-161 | accepting an observation keeps the audit of every additive count: what is missing in all and at each key stays the same |
| Aggregation.FlushesAccounted | sniff4hound/history_recorder.py:277-281 | a flush keeps the audit of every additive count |
| Aggregation.WritesAccounted | sniff4hound/history_store.py:165-219 | a write keeps the audit of every additive count |
| Aggregation.CutAccounted | sniff4hound/history_recorder.py:290-291 | cutting rows from the front of the queue makes the counts fall short, in all and at some key, for good |
| Aggregation.CutShows | sniff4hound/history_recorder.py:290-291 | after a cut the rows do not come to the plain fold |
| Aggregation.ListKeys | sniff4hound/history_recorder.py:278-279 | lists every key of a table once, in any order |
| HistoryRows.DnsLawful | sniff4hound/history_store.py:191-219 | merging a row that took in one more observation is the merge of the row with that observation added, on counts, time to live, return code, peers, source and times |
| HistoryRows.ArpLawful | sniff4hound/history_store.py:221-243 | merging a row that took in one more claim is the merge of the row with that claim added |
| HistoryRows.DnsAdditive | sniff4hound/history_recorder.py:154-161 | queries plus responses count every observation once and add up in a merge |
| HistoryRows.FoldMeans | sniff4hound/history_recorder.py:127-178 | the fold over a key's observations holds the number of queries, responses and errors, the least, greatest and last time to live, the last return code, client, resolver, source and transport, and the first and last time seen |
| HistoryRows.ArpFoldMeans | sniff4hound/history_recorder.py:200-215 | the fold over a pairing's claims holds the number of packets, requests, replies, gratuitous claims and mismatches, the last interface named, and the first and last time seen |
| HistoryRows.Remember | sniff4hound/history_recorder.py:167-174 | the peers of a collected row stay in place and the new one joins exactly if it is not empty and there is room; they stay distinct and at most twenty |
| HistoryStore.MergePeers | sniff4hound/history_store.py:112-118 | the newest twenty of the known and new peers joined in order, without duplicates |
| HistoryStore.JoinedIs | sniff4hound/history_store.py:114-117 | the joined list keeps the known peers first, has no duplicate, and holds exactly the known and the non-empty new peers |
| HistoryPeers.SeenMeans | sniff4hound/history_store.py:112-118 | the peers seen for a key, each once: exactly those of the row at the start and those of the observations |
| HistoryPeers.Roomy | sniff4hound/history_recorder.py:167-174 | while all peers seen fit, the recorder's cap on a collected row turns none away |
| HistoryPeers.NoneForgotten | sniff4hound/history_store.py:112-118 | while all peers seen fit, the store's cap cuts none |
| HistoryStore.Store.MergeDnsRow | sniff4hound/history_store.py:165-219 | the row under the key becomes the merged row, or the new one with its peers capped; nothing else changes |
| HistoryStore.Store.MergeArpRow | sniff4hound/history_store.py:221-243 | the row under the pairing becomes the merged row or the new one; nothing else changes |
| HistoryStore.Store.WriteHistory | sniff4hound/history_store.py:143-163 | a batch is merged row by row in order and its events are appended |
| HistoryStore.Store.WriteDns | sniff4hound/history_store.py:154-156 | the queued DNS rows are merged one after the other |
| HistoryStore.Store.WriteArp | sniff4hound/history_store.py:157-159 | the queued ARP rows are merged one after the other |
| HistoryStore.WrittenDnsAgrees | sniff4hound/history_store.py:154-156 | writing a whole queue of DNS rows keeps the agreement with the plain fold and the audit of every additive count |
| HistoryStore.WrittenArpAgrees | sniff4hound/history_store.py:157-159 | the same for ARP rows |
| HistoryRecorder.HistoryIsFold | sniff4hound/history_recorder.py:127-294 | under every schedule, while no row of its table was cut, each key's stored row with its waiting and pending rows merged in is the one-at-a-time fold of its accepted observations |
| HistoryRecorder.FoldExactlyUncut | sniff4hound/history_recorder.py:274-294 | each table comes to the fold of its observations if and only if none of its rows was cut |
| HistoryRecorder.FourFailuresCutNothing | sniff4hound/history_recorder.py:287-291 | until five writes have failed in a row no row of either table is cut |
| HistoryRecorder.StoredRowMeans | sniff4hound/history_recorder.py:127-178 | once everything is written and no DNS row was cut, a row that started empty says exactly what its observations say |
| HistoryRecorder.StoredArpRowMeans | sniff4hound/history_recorder.py:200-215 | the same for ARP: once everything is written and no ARP row was cut, a row that started empty says exactly what its claims say |
| HistoryRecorder.StoredPeersExactly | sniff4hound/history_recorder.py:167-174 | once everything is written and no DNS row was cut, a row lists all clients, and all resolvers, ever seen, in order of appearance, if and only if there are at most twenty |
| HistoryRecorder.NothingLostOrDoubled | sniff4hound/history_recorder.py:154-161 | summed over all rows, queries plus responses never exceed those at the start by more than the recorder's count of DNS observations, and by exactly that if and only if no DNS row was cut; likewise ARP packets |
| HistoryRecorder.EventsTellTheStory | sniff4hound/history_recorder.py:180-270 | while no event was lost, replaying the recorded events over the loaded bindings gives the current address map, each unknown device and pairing is reported exactly once, each address's moves chain from its first MAC to its current one, and every event is explained by a claim |
| HistoryRecorder.KeepsAll | sniff4hound/history_recorder.py:287-291 | a batch of at most four rounds of pending rows is kept whole after a failed write |
| HistoryRecorder.KeepsEnds | sniff4hound/history_recorder.py:290-291 | what is kept after a failed write is the end of each list, of four times the pending limit |
| HistoryRecorder.FiveFailuresLose | sniff4hound/history_recorder.py:290-291 | a run of five failed writes in a row after which the rows no longer come to the fold and count fewer than the observations, so four is exact |
| HistoryRecorder.Recorder.constructor | sniff4hound/history_recorder.py:49-87 | starts empty, with the store's tables as the base of the history |
| HistoryRecorder.Recorder.AddDns | sniff4hound/history_recorder.py:127-178 | an observation is refused and counted as dropped exactly if its key is new and the table full; otherwise it is counted and joins the history |
| HistoryRecorder.Recorder.AddArp | sniff4hound/history_recorder.py:180-238 | a claim is refused exactly if its pairing is new and the table full, and then only counted as dropped; otherwise it is counted and joins the history, memory learns it, and what it changes is reported, together with a mismatch that is due, in order and as far as there is room; what is lost is counted, and nothing else of the history changes |
| HistoryRecorder.Recorder.AcceptArp | sniff4hound/history_recorder.py:200-238 | an accepted claim is counted, joins the history and is learned; its events follow those pending, in order, and one is lost only when the list is full |
| HistoryRecorder.Recorder.LoadArpState | sniff4hound/history_recorder.py:256-270 | the bindings on record are learned once, in their order; none if they cannot be read |
| HistoryRecorder.Announce | sniff4hound/history_recorder.py:240-254 | as many events are taken, in order, as there is room for, and the rest are counted |
| HistoryRecorder.NoteMismatch | sniff4hound/history_recorder.py:228-235 | a mismatch is reported exactly if the pairing has none noted within the interval, and is then noted at the current time, unless that overflows the table, which is cleared |
| HistoryRecorder.Recorder.BeginFlush | sniff4hound/history_recorder.py:276-284 | the batch is what was kept, then every pending DNS and ARP row once and all pending events in order; a write follows exactly if there is anything |
| HistoryRecorder.Recorder.FlushWritten | sniff4hound/history_recorder.py:285-294 | the batch is merged into the tables and nothing is kept |
| HistoryRecorder.Recorder.FlushFailed | sniff4hound/history_recorder.py:287-292 | the store is untouched and each list of the batch is kept, cut to four times the pending limit; the history notes which lists were cut |
| ArpEvents.LogRebuildsBindings | sniff4hound/history_recorder.py:217-238 | for every run of claims, replaying its events over the loaded bindings gives the current ones |
| ArpEvents.ReportedOnce | sniff4hound/history_recorder.py:218-224 | a device gets one new-device event if it was unknown and made a claim, else none; a pairing gets one new-device or new-address event if it was unknown and was claimed, else none |
| ArpEvents.MovesFormAChain | sniff4hound/history_recorder.py:217-227 | each address's move events lead without a gap from the MAC it had first to the one it has now, each going elsewhere |
| ArpEvents.EventsAreExplained | sniff4hound/history_recorder.py:217-254 | every event reports one claim, with its address, device, interface and time, and what was there before: nothing for a new device, the device's last address for a new pairing, the address's last owner, another one, for a move |
| ArpEvents.LatestClaimWins | sniff4hound/history_recorder.py:236-238 | an address belongs to its last claimant, and a device's last address is the one it claimed last |
| ArpEvents.LoadedCoherent | sniff4hound/history_recorder.py:267-270 | loaded pairs give every known pairing's address a current MAC |
| ArpEvents.LoadedMeans | sniff4hound/history_recorder.py:267-270 | loading learns exactly the pairs on record, and of each address the last owner |
| IpcRuns.PendingRidesTheLink | sniff4hound/ipc.py:613-638 | in every reachable state a pending call has the current generation, the link is up, and the call has no second entry |
| IpcRuns.OldCleanupIsHarmless | sniff4hound/ipc.py:572-593 | cleaning up after an older connection, by its reader or by a call, changes no entry, no other call, not the link and not its socket |
| IpcRuns.LiveCleanupFailsAll | sniff4hound/ipc.py:572-611 | retiring the live connection takes the link down and sends every pending call the failure |
| IpcRuns.NoneStranded | sniff4hound/ipc.py:549-611 | a waiting call has its message, has one on the way, or has its entry on a live link whose socket is open and whose reader has not left |
| IpcRuns.SentAtMostOnce | sniff4hound/ipc.py:613-645 | a call completes at most one frame send and tries again only before it |
| IpcRuns.AnswersAreOwn | sniff4hound/ipc.py:595-611 | what a call returns is about a request of its own, no request is answered twice, and a finished call leaves no entry |
| IpcAnswers.ResponseIsReturned | sniff4hound/ipc.py:549-600 | from every reachable state in which a sent call waits on the live link, the response that comes in next, word for word, is what the call returns |
| IpcAnswers.FirstCallIsAnswered | sniff4hound/ipc.py:613-661 | a run from the start in which a call connects, sends and returns the response |
| IpcAnswers.TimeOutIsReturned | sniff4hound/ipc.py:646-653 | a call whose wait runs out says so and leaves no entry |
| IpcAnswers.MessageHasCause | sniff4hound/ipc.py:572-611 | in every run, a reply on its way to a call, held or returned is a response received while the call's entry was there; a loss is that of the connection the request was made on; and the news of a close comes from a close |
| IpcAnswers.StepSends | sniff4hound/ipc.py:572-611 | a step tells a call something new if and only if it finds the entry of one of its requests and is such a receipt, loss or close |
| IpcAnswers.ResultHasCause | sniff4hound/ipc.py:622-661 | a finished call was ended by one step: with the message it left with or a timeout, without a link at its second attempt, with a second failed send, or refused |
| IpcAnswers.RefusedForGood | sniff4hound/ipc.py:466-508 | a client whose token was rejected stays refused and never connects again, and nothing else has it refused |
| IpcRuns.CloseTakesEffect | sniff4hound/ipc.py:663-665 | after a close, no connect can start, and a link that came up meanwhile has a reader that can only find the stop flag and retire it |
| IpcRuns.RetryMayReturnOldFailure | sniff4hound/ipc.py:622-643 | from every reachable state with a call about to send, some run ends with that call sent on a newer live link and the older connection's failure returned |
| IpcRuns.RetryMixUpExactly | sniff4hound/ipc.py:630-637 | after a first send that failed, a run in which the call sends its second frame in full and returns a message about the first request exists only if the entry was gone when the call popped it, and if and only if, unless the client is closed, refused or connecting |
| IpcRuns.EntryFoundNeverTold | sniff4hound/ipc.py:633-635 | if the failed send still finds its entry, no later state of any run has the call return about that request |
| IpcRuns.SendingIsReached | sniff4hound/ipc.py:622-629 | a run from the start to a call about to send its first frame while the reader waits |
| IpcRuns.MixUpHappens | sniff4hound/ipc.py:622-643 | a run from the start in which a call, its second frame sent in full on the link that is up, returns the message about its first request |
| IpcRuns.SingleAttemptIsExact | sniff4hound/ipc.py:622-643 | a call that made one request is told only about that request |
| IpcRuns.RunInv | sniff4hound/ipc.py:392-665 | every state of every run satisfies the invariant over the link, its readers, the calls and the messages on their way |
| Ipc.DropIs | sniff4hound/ipc.py:572-611 | dropping a connection either fails exactly all entries, if it is the current one, or changes nothing but its own socket |
| IpcRuns.LabelInv | sniff4hound/ipc.py:466-665 | every step of connect, call, reader, delivery and close keeps that invariant |
| DnsCodec.DecodeName | sniff4hound/honeypot.py:359-397 | agrees with a recursive reading of section 4.1.4 of RFC 1035 with a budget of 20 jumps, on the labels, on every error and on where the name ends; on success start < next <= length; at most 21 times the packet length in steps |
| DnsCodec.ParseQuestions | sniff4hound/honeypot.py:400-430 | the questions that the recursive reading finds, up to the first malformed one |
| DnsCodec.ParseQuestion | sniff4hound/honeypot.py:410-429 | one question with its name, type, class, offset and bytes, or none if it is malformed or cut short |
| DnsCodec.Layout | sniff4hound/honeypot.py:433-459 | a response has the query's identifier, the flags of an answer, both counts, no other records, the question bytes in place, and 16 bytes per answer: type A, class IN, 60 seconds, length 4 and the configured address |
| DnsCodec.AnswersCarryAddress | sniff4hound/honeypot.py:446-450 | byte for byte, every answer is of type A, class IN, 60 seconds to live, and carries the four bytes of the address |
| DnsCodec.OtherResponses | sniff4hound/honeypot.py:433-440 | a query shorter than a header gets the banner, one without a readable first question a bare header with the server-failure flags, and one with an offset beyond two bytes no response |
| DnsCodec.ResponseRoundTrip | sniff4hound/honeypot.py:433-459 | if the offsets are below 0x4000 and the names stay inside the question section, parsing the response gives the same questions, each answer's pointer decodes to its own question's name, and the length is 12 plus the question bytes plus 16 per answer |
| DnsCodec.QuestionsComeBack | sniff4hound/honeypot.py:400-459 | a message with the query's question section and question count parses to the query's questions |
| DnsCodec.OwnersComeBack | sniff4hound/honeypot.py:446-459 | if the answers follow the question section, each answer's owner name decodes to its question's name |
| DnsCodec.OffsetsBelow | sniff4hound/honeypot.py:410-429 | every parsed question starts no later than the last one |
| DnsCodec.EncodedQueryIsAnswered | sniff4hound/honeypot.py:400-459 | every query encoded with pointer-free names whose last question starts below 0x4000 is answered with its own identifier and questions, 16 bytes per answer, each owned by the name asked and carrying the configured address |
| DnsCodec.QueryIsAnswered | sniff4hound/honeypot.py:433-459 | the same for any query whose questions parse as those asked |
| DnsCodec.EncodedQueryParses | sniff4hound/honeypot.py:400-430 | parsing an encoded query gives back the questions asked |
| DnsCodec.EncodedNameReads | sniff4hound/honeypot.py:366-397 | an encoded name reads back as its labels, without a jump |
| DnsCodec.PointerReach | sniff4hound/honeypot.py:448-448 | the two bytes of a pointer lead to its offset if and only if the offset is below 0x4000 |
| DnsCodec.AnswerPointer | sniff4hound/honeypot.py:446-450 | the k-th answer begins with a pointer, and it leads to the k-th question if and only if that question's offset is below 0x4000 |
| DnsCodec.AnswerNamesQuestion | sniff4hound/honeypot.py:447-450 | the owner name of the k-th answer decodes to the k-th question's name |
| DnsCodec.Reparse | sniff4hound/honeypot.py:407-430 | two packets that agree on the question section parse to the same questions |
| DnsCodec.WireIsSlice | sniff4hound/honeypot.py:426-443 | the questions' bytes joined are a contiguous part of the query |
| Window.Trim | sniff4hound/anomaly.py:77-78 | popping old times off the front of a rising deque is filtering it |
| Window.FilterCounts | sniff4hound/anomaly.py:77-78 | a filter keeps as many entries as come at the cutoff or later, or after it if it is strict |
| FloodDetector.Detector.Record | sniff4hound/anomaly.py:72-82 | an alert is raised exactly if the events of the source call for one |
| FloodDetector.AlertsExactlyWhen | sniff4hound/anomaly.py:72-82 | an event raises an alert if and only if, counted from the first event after the last alert, enough events of the source lie in the window that ends with it |
| FloodDetector.ExactlyOneAlert | sniff4hound/anomaly.py:72-82 | any threshold consecutive events that span at most the window contain exactly one alert |
| FloodDetector.AlertsAreApart | sniff4hound/anomaly.py:79-81 | two alerts of a source are at least threshold events apart |
| FloodDetector.DequeSteps | sniff4hound/anomaly.py:74-81 | the trimmed, cleared deque stays the filter over the whole history since the last alert |
| UdpLimiter.Limiter.ResponseAllowed | sniff4hound/honeypot.py:2073-2095 | a response is allowed exactly if the source is known and fewer than the limit were allowed to that port and source within the window, whatever was evicted |
| UdpLimiter.Limiter.Evict | sniff4hound/honeypot.py:2081-2088 | dropping stale keys keeps the windows faithful to the history |
| UdpLimiter.NoWindowOverLimit | sniff4hound/honeypot.py:2089-2095 | no window ever holds more allowed responses than the limit |
| UdpLimiter.SpacedSnoc | sniff4hound/honeypot.py:2092-2095 | an allowed response keeps any limit+1 responses at least a window apart |
| AuthLimiter.Limiter.constructor | sniff4hound/auth.py:328-343 | starts empty and valid |
| AuthLimiter.Limiter.Check | sniff4hound/auth.py:372-387 | refuses exactly while the client's lockout lasts, with the time left; only the time seen changes |
| AuthLimiter.Limiter.RegisterFailure | sniff4hound/auth.py:389-409 | a failure is counted with the failures since the last strike, success or eviction that lie in the window; at the threshold the k-th strike locks out for the k-th term of the lockout series; other clients change only by eviction |
| AuthLimiter.Limiter.RegisterSuccess | sniff4hound/auth.py:411-418 | the client is forgotten and no other |
| AuthLimiter.Limiter.GetEntry | sniff4hound/auth.py:349-356 | the client's entry, new if there was none; other clients stay as they are if it was known or there is room, and go in eviction order otherwise |
| AuthLimiter.Limiter.Evict | sniff4hound/auth.py:358-370 | nothing happens below the cap; at the cap all idle clients go, then the longest unseen, no more than needed, and what is left is unchanged |
| AuthLimiter.IdleMeans | sniff4hound/auth.py:361-365 | a client is idle exactly if no lockout of its present stay is running and no failure since its last strike lies in the window |
| AuthLimiter.LongestUnseen | sniff4hound/auth.py:369-369 | the client seen longest ago |
| AuthLimiter.Limiter.Guard | sniff4hound/app.py:1127-1158 | with requests taken one at a time: authenticated requests always pass and clear the client; others are refused, with the time left, if and only if a lockout of the client's present stay in the table is running, else counted; lockouts of one stay never overlap; other clients change only by eviction at the cap |
| AuthLimiter.LockedIsBlocked | sniff4hound/auth.py:372-387 | the entry blocks its client exactly while some lockout of its present stay is running; such a lockout is on the record of all lockouts |
| AuthLimiter.LockoutSeries | sniff4hound/auth.py:405-407 | the first lockout is the base, each next one doubles up to the maximum |
| AuthLimiter.StrikeApart | sniff4hound/auth.py:403-408 | a strike outside the current lockout keeps the lockouts apart |
| AuthLimiter.EvictionForgetsLockout | sniff4hound/auth.py:358-370 | a run of the guard in which a client is rejected and locked out twice, the second time inside its first lockout, because eviction forgot it |
| AuthLimiter.FaithfulFailure | sniff4hound/auth.py:398-404 | the trimmed deque stays the filter of the failures since the last strike, and below the threshold |
| AuthLimiter.FaithfulStrike | sniff4hound/auth.py:405-408 | a strike empties the deque and adds one lockout to the client's life |
| RangeIndex.Merge | scripts/build_ip_registry.py:100-117 | for any rows, the merged table covers exactly the same pairs of address and label, is sorted and no longer; rows that are separate stay disjoint |
| RangeIndex.SortSorts | scripts/build_ip_registry.py:107-107 | the rows come sorted by start and end |
| RangeIndex.SortKeepsRows | scripts/build_ip_registry.py:107-107 | sorting keeps every row and adds none |
| RangeIndex.AbsorbCovers | scripts/build_ip_registry.py:109-116 | taking in one row adds exactly the pairs it covers |
| RangeIndex.BisectRight | sniff4hound/ip_registry.py:78-78 | the number of starts at or below the value |
| RangeIndex.Search | sniff4hound/ip_registry.py:73-82 | the rightmost range that starts at or below the value, if it reaches it |
| RangeIndex.Lookup | sniff4hound/ip_registry.py:85-102 | building the table and bisecting it: the answer is a label some row gives the address, and if rows are never empty and never disagree it is the one a linear scan of the original rows finds, for every address |
| RangeIndex.FindsAllExactly | sniff4hound/ip_registry.py:73-82 | in a table sorted by start, every covered address is found if and only if no row ends before an earlier one without the next row taking over at once |
| RangeIndex.AnswerSound | sniff4hound/ip_registry.py:76-82 | for any rows, an answer is a label that some row gives the address |
| RangeIndex.AnswersExactlyWhen | sniff4hound/ip_registry.py:73-82 | for any rows, the answers are exactly the labels of the rows if and only if no address has two labels and the merged table cuts no row short |
| RangeIndex.AnswersExactlyOneLabel | scripts/build_ip_registry.py:100-117 | for non-empty rows, the answers are exactly the labels of the rows if and only if no address has two labels |
| RangeIndex.NestedRangeHides | sniff4hound/ip_registry.py:76-82 | two overlapping rows for which the lookup in the merged table misses a covered address |
| RangeIndex.ScanFinds | sniff4hound/ip_registry.py:85-110 | the linear scan finds a covering label exactly if there is one |
| PublicSuffix.RegistrableDomain | sniff4hound/domain_names.py:87-126 | an empty name, an address and a single label come back unchanged; any other name is cut to one label more than the public suffix the list's algorithm prescribes, if it has that many |
| PublicSuffix.CountSuffixLabels | sniff4hound/domain_names.py:107-123 | the three running maxima give the number of labels of the public suffix |
| PublicSuffix.FollowsTheList | sniff4hound/domain_names.py:107-123 | that number is the one the Public Suffix List algorithm prescribes: an exception rule first, else the matching rule with most labels over exact and wildcard rules, else one label |
| PublicSuffix.SuffixIsPrescribed | sniff4hound/domain_names.py:107-123 | and it is the only number the algorithm prescribes |
| PublicSuffix.CutAsPrescribed | sniff4hound/domain_names.py:107-126 | the base is the last labels of the name, one more than prescribed |
| PublicSuffix.IsLabelSuffix | sniff4hound/domain_names.py:124-126 | the registrable domain is a suffix of whole labels |
| PublicSuffix.FixedPoint | sniff4hound/domain_names.py:87-126 | the registrable domain of a registrable domain is itself, for every rule set and name |
| PublicSuffix.BaseKeepsSuffix | sniff4hound/domain_names.py:110-126 | a name cut to its registrable domain keeps its public suffix |
| PublicSuffix.SubdomainRebuilds | sniff4hound/domain_names.py:129-140 | the subdomain is non-empty exactly if the name differs from its base, and then subdomain, dot and base rebuild the name |
| PublicSuffix.JoinSplit | sniff4hound/domain_names.py:102-102 | splitting a name at its dots and joining it gives the name back |
| PublicSuffix.SplitJoin | sniff4hound/domain_names.py:111-126 | joining labels without dots and splitting gives the labels back |
| ResourceGuard.Guard.TakeSample | sniff4hound/resource_guard.py:191-219 | one sample moves the guard's counters, pause and list of stops and starts as the state machine does; the kinds reported are those that reach the trip count |
| ResourceGuard.Guard.CountKinds | sniff4hound/resource_guard.py:196-204 | each kind's counter grows or resets, and the kinds at the trip count are listed |
| ResourceGuard.Guard.BelowResume | sniff4hound/resource_guard.py:230-235 | true exactly if every limited kind is below its resume share |
| ResourceGuard.GuardInvariant | sniff4hound/resource_guard.py:191-270 | over every run of samples and configurations within bounds, stops and starts alternate, each start follows its stop by at least the cooldown in force, and counters are at most one while unpaused |
| ResourceGuard.CountersAreStreaks | sniff4hound/resource_guard.py:197-204 | a kind's counter is the number of its latest consecutive breaches |
| ResourceGuard.TripsOnSecondBreach | sniff4hound/resource_guard.py:201-211 | an unpaused guard stops exactly when some kind exceeds its limit for the second sample in a row |
| ResourceGuard.StopIsTimed | sniff4hound/resource_guard.py:237-241 | a stop carries the time of the sample that stopped |
| ResourceGuard.ActsAreEarned | sniff4hound/resource_guard.py:201-216 | in every run, each stop carries the time of a sample on which, as on the one before, some kind exceeded its limit, and each start that of one on which all were below their resume share |
| ResourceGuard.ResumesWhenClear | sniff4hound/resource_guard.py:212-216 | a paused guard starts exactly when the cooldown has passed since the stop and every kind is below its resume share, and then all counters are zero; the start carries the time of the sample |
| ChunkedCoding.WriteChunks | sniff4hound/app.py:222-232 | the writer's loop emits the frame of its chunks and the terminator |
| ChunkedCoding.DecodeChunkedBody | sniff4hound/app.py:1375-1404 | the decoder's loop returns what its passes determine |
| ChunkedCoding.ChunksRoundTrip | sniff4hound/app.py:1375-1404 | non-empty chunks printed and decoded give their concatenation, even if the data contains line ends |
| ChunkedCoding.RoundTripExactly | sniff4hound/app.py:222-232 | printing and decoding gives the concatenation if and only if no data follows an empty chunk |
| ChunkedCoding.SizeReadsBack | sniff4hound/app.py:1388-1390 | a size printed in hexadecimal reads back as itself |
| ChunkSizes.IntExactly | sniff4hound/app.py:1389-1390 | a text is read as a number if and only if it is an optional sign, an optional `0x` and hexadecimal digits in either case with single underscores between them, and then as its value |
| ChunkSizes.SizeLineExactly | sniff4hound/app.py:1381-1393 | a size line is read if and only if, up to the first CRLF or, without one, the first line feed, it is such a number with spaces around it and anything behind a semicolon; its data starts behind the line end |
| ChunkedBodies.BodyDecodes | sniff4hound/app.py:1375-1404 | a body whose chunks follow each other, however their sizes and line ends are written, up to its end or a zero size decodes to their bytes; one that breaks off or goes wrong after some chunks comes back as it is |
| ChunkedBodies.BodyKind | sniff4hound/app.py:1375-1404 | every body without a minus sign is of one of these two kinds |
| ChunkedCoding.PassOverChunk | sniff4hound/app.py:1381-1403 | one pass over a printed chunk takes exactly that chunk, whatever bytes it holds |
| ChunkedCoding.PassesAreEnough | sniff4hound/app.py:1380-1404 | the answer after as many passes as the body has bytes is final: later passes do not change it, and a decoder without one never returns |
| ChunkedCoding.DecoderStops | sniff4hound/app.py:1380-1404 | unless a size line it reads is negative, the decoder returns within as many passes as the body has bytes, whatever its data holds |
| ChunkedCoding.NeverReturnsExactly | sniff4hound/app.py:1380-1404 | the decoder never returns if and only if it comes back to a size line it has read |
| ChunkedCoding.NoMinusNoneNegative | sniff4hound/app.py:1388-1390 | in a body without a minus sign no size line is negative |
| ChunkedCoding.NegativeSizeNeverStops | sniff4hound/app.py:1390-1399 | a body with a negative size on which the decoder never returns |

## Left out

- HTTP routes, WebSocket feeds, cross-origin checks, TLS, QUIC, mDNS and the desktop shell: plumbing over foreign interfaces.
- Service emulations, banners, device classification, port and signature tables: constant tables with one claim per branch.
- Token signing, base64, JSON, text previews and internationalised names: taken as given; public-suffix names arrive normalised and the test for an IP literal is a parameter.
- Packet cache, log rotation, export grouping, and the port-scan, login and ARP-spoof detectors: variations on the windows modelled here that would only add easy members.
- JobQueue: locks, threads and the clock are steps of a labelled system on values, so object identity and aliasing are not modelled, nor is any bound on how long a step takes; a worker is gone when it leaves its loop; `shutdown` is called once; a handler that raises outside `Exception` (sniff4hound/jobs.py:271), which ends its worker with the job unsettled and so breaks the pool count, is not modelled; what the SQLite row of a job ends as is not claimed, since `submit` writes it outside the job's lock.
- Ipc: the same form; what a response says is one opaque value, which the call returns; frames, tokens and the reconnect cooldown are abstracted into which step comes next, closing a socket belongs to the step that retires it, and a call may be refused at any time before it takes the link.
- HistoryRecorder.Recorder: `observe`, the refresh of the configuration, pruning and clearing are left out; a flush is two steps between which observations may arrive, and the pending rows are handed over in any order.
- HistoryStore.Store.WriteHistory: a transaction that fails leaves the tables as they were; identifiers of rows are not modelled.
- HistoryRows.FoldMeans: which twenty of more than twenty clients or resolvers a row keeps depends on the flushes (the recorder keeps the first of a round, the store the newest), so it is not claimed; times are ordered numbers instead of texts.
- ArpEvents.ReportedOnce: mismatch events are not part of the replayed log, and the explanatory text of events is left out.
- DnsCodec.DecodeName: labels are byte sequences, without the replacement of malformed UTF-8 and without the dotted text.
- AuthLimiter.Limiter.Guard: arithmetic is over real numbers, so the overflow of a float after very many strikes is not modelled, nor is the setting that switches the limiter off; the clock is read once per request.
- ResourceGuard.Guard.TakeSample: the persisted state, its counters and the measuring itself are left out; the clock is read once per sample.
- ChunkedCoding.DecodeChunkedBody: takes the number of passes as a parameter because the original may not end; `PassesAreEnough` shows that the number of bytes decides, so the bound hides nothing.
- RangeIndex.Lookup: parsing the address text, the choice between the two address families and the region table are left out.
