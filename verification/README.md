# Verified models of the anti-VPN runtime

This project models the stateful cores of the anti-VPN supervisor (Go, `internal/antivpn`) and of two
bundled Python addons, and proves what they keep over whole runs. Check it with
`dafny verify dfyconfig.toml` (Dafny 4.11).

| file | what it models |
|---|---|
| `Delivery.dfy`, `DeliveryRuns.dfy`, `Backlog.dfy`, `Dispatcher.dfy` | the event dispatcher: the interleavings of `deliver`, whole runs and the drop counter, what a single publisher gets, and the objects |
| `Flight.dfy`, `FlightWindow.dfy`, `FlightAnswers.dfy` | `CheckIP` and the single-flight group, over every interleaving |
| `Cache.dfy` | the write-behind decision cache and its file |
| `Tracker.dfy`, `SessionHistory.dfy` | the slot tracker, the RCON guard, and both read off the history of log lines |
| `Dedupe.dfy` | the two self-pruning dedupe tables |
| `LogTail.dfy` | the log-file fallback and its offset |
| `Match.dfy`, `Quoting.dfy` | the match announcer and its quoting |
| `Rotation.dfy` | the rotating log file |
| `Aka.dfy` | the name-history store |
| `Scheduler.dfy` | the scheduled announcer |
| `Gate.dfy` | the provider rate gate |
| `Scoring.dfy` | the decision score |
| `Userinfo.dfy`, `HostPort.dfy`, `PlayerName.dfy` | the hand-written parsers |
| `Text.dfy`, `Sets.dfy` | helpers |

Code that changes objects is a class whose methods are tied to functions of the old state; the properties
of whole runs are lemmas about those functions. Code that several goroutines run at once is a state
machine whose actions are the locked sections, channel operations and clock samples; the lemmas range
over every sequence of actions.

Inputs of the model, chosen by the environment: every clock sample (integers; real numbers for the match
announcer), the success of every file operation and RCON write, the outcomes of provider queries and
dispatches, and the order of steps. Go's mutexes, channels and wait groups behave as documented.

## What the code does not do

Where a claim one might expect is false of the code, the code is modelled as it is; an input shows the
failure, and the condition under which the claim holds is proved:

- Under drop-oldest the `dropped` counter is not the number of lost events: one count can stand for none, one or
  two, at every buffer size (`CountedWithoutLoss`, `CountedOnceLostTwice`); it is the number exactly under
  drop-newest (`CounterCountsLossesExactly`).
- After the first stored expiry, two queries for one address can follow each other at one instant, because
  `Get` deletes what it finds after it has released the lock under which it looked (`LaterWindowsCanAskTwice`,
  `LateDeleteDropsAFreshEntry`). A stored entry spares all queries up to its expiry exactly when nobody stands in
  that gap as it is stored (`StoredWindowExactly`).
- A cache that starts beside a file it cannot read is not dirty and does not agree with it
  (`StartIsCoherentExactly`).
- `load` and `Get` disagree about an entry at the very instant of its expiry, and only there
  (`TestsAgreeExactly`).
- The archive-name search gives up after the suffix `-999` and then reuses a name, so an archive can be overwritten.
  When that happens is stated by `MoveKeepsExactly`; never with fewer than a thousand archives
  (`FewArchivesLoseNothing`).
- After a failed archive the file is reopened for appending and the tracked size restarts at zero, so the size
  bound fails (`FailedArchiveBreaksTheBound`); when it holds is stated by `Rotation.RotatingFile.Write`: for a
  write that has to rotate, exactly when the archiving works.
- The log-tail offset leaves the end of the content when carriage returns or an unterminated line were
  scanned (`OffsetMeetsEndExactly`; `OffsetMissesTheEnd` has an input for each).
- Pruning shows for dedupe intervals longer than the prune horizon (`PruningIsInvisibleExactly`).
- A disconnect clears the dedupe entry of the tracked address only (`DisconnectKeepsOtherAddresses`,
  `FreshCheckExactly`).
- The schedule loop does not sleep while a due slot keeps failing (`NoSleepExactly`, `FailedSlotStaysDue`), and
  its computed wait is wrong when midnight falls between two clock samples (`WaitIsExact`, `AcrossMidnightIsReached`).
- Announcements of an every_seconds entry can be closer than its period, because the deadline counts from the head
  of the pass and earlier entries are dispatched first; they cannot exactly when it is the first entry
  (`AlwaysSpacedExactly`). How much closer is bounded by `AnnouncementsLag`.
- With a result of negative total weight the score does not fail open (`FailOpenExactly`). Every weight in
  `providers.go` lies between 10 and 80, so no provider of the program produces such a result.
- The summary of an allowed decision says "insufficient confidence" also when the score is below the threshold, and
  "below threshold" only when it is not, with the mode off (`EvaluateDecision`).
- The branch of the shutdown handler for a summary that was already sent is never taken (`AlwaysSettled`).

## Model

| member | source | states |
|---|---|---|
| DeliveryRuns.EveryDeliveryOnce | internal/antivpn/dispatcher.go:128-228 | under every interleaving and either policy the queue stays within its capacity, every started delivery is in exactly one of handled, queued, evicted, rejected or in progress, and `deliver` answers true exactly for what was sent |
| DeliveryRuns.SendOrderSurvives | internal/antivpn/dispatcher.go:128-212 | handled followed by queued is a subsequence of the channel's send order and keeps each publisher's own order |
| DeliveryRuns.LossesAgainstTheCounter | internal/antivpn/dispatcher.go:181-228 | with nobody inside `deliver`: lost plus spared equals counted plus doubled, hence at most twice the counter, and exactly the counter under drop-newest |
| Delivery.AccountedKept | internal/antivpn/dispatcher.go:181-212 | each step moves an event between places without losing or copying it |
| DeliveryRuns.BalanceKept | internal/antivpn/dispatcher.go:196-228 | each step keeps the balance between losses, recorded drops and drops still to be recorded |
| Delivery.OrderKept | internal/antivpn/dispatcher.go:128-212 | each step keeps the queue equal to the sent events that have not left, in order |
| Backlog.LonePublisherIsNeverRefused | internal/antivpn/dispatcher.go:193-211 | with one publisher drop-oldest always enqueues the new event, whatever the handler does meanwhile |
| Backlog.WhichEventsStay | internal/antivpn/dispatcher.go:181-212 | with one publisher and no handling the queue is exactly the last min(n, capacity) events under drop-oldest, the first under drop-newest |
| Backlog.UninterruptedDelivery | internal/antivpn/dispatcher.go:181-228 | the steps of one delivery run through without interference do what one call of the object does |
| Backlog.CountedWithoutLoss | internal/antivpn/dispatcher.go:193-205 | for every buffer size, a run from an empty drop-oldest dispatcher that comes to rest with one drop counted and nothing lost |
| Backlog.CountedOnceLostTwice | internal/antivpn/dispatcher.go:196-210 | for every buffer size, such a run with one drop counted and two events lost |
| Backlog.CounterCountsLossesExactly | internal/antivpn/dispatcher.go:181-228 | for every buffer size, the counter is the number of lost events in all runs that come to rest exactly when the policy is drop-newest |
| Backlog.GettingStuck | internal/antivpn/dispatcher.go:181-199 | for every buffer size, the run from an empty dispatcher that fills the queue and leaves a delivery behind it |
| Dispatcher.EventDispatcher.constructor | internal/antivpn/dispatcher.go:92-101 | a size that is not positive becomes 256 |
| Dispatcher.EventDispatcher.Subscribe | internal/antivpn/dispatcher.go:106-126 | appends a new empty entry, or does nothing after Close |
| Dispatcher.EventDispatcher.Deliver | internal/antivpn/dispatcher.go:181-212 | the queue, the counter and the answer after one delivery |
| Dispatcher.EventDispatcher.DeliverAll | internal/antivpn/dispatcher.go:172-178 | the loop over a snapshot of distinct entries delivers once to each and counts those that accept |
| Dispatcher.EventDispatcher.Publish | internal/antivpn/dispatcher.go:159-179 | every registered handler gets one delivery, the result is the number that accepted, and a closed dispatcher delivers to none |
| Dispatcher.EventDispatcher.RemoveEntry | internal/antivpn/dispatcher.go:230-242 | exactly the entry leaves the list, the others keep their order, and its queue is handed to the handler unless cancelled |
| Dispatcher.EventDispatcher.DrainAll | internal/antivpn/dispatcher.go:257-260 | the loop closes every entry and hands each queue over in order, unless cancelled |
| Dispatcher.Entry.Shut | internal/antivpn/dispatcher.go:258-259 | closing one entry and waiting for its handler |
| Dispatcher.EventDispatcher.Close | internal/antivpn/dispatcher.go:246-261 | every entry is closed and drained in order unless cancelled; nothing is registered afterwards |
| Dispatcher.Entry.TrySend | internal/antivpn/dispatcher.go:182-186 | succeeds exactly when there is room, and then appends |
| Dispatcher.Entry.TryReceive | internal/antivpn/dispatcher.go:197-200 | takes the oldest event if there is one |
| Dispatcher.Entry.RecordDrop | internal/antivpn/dispatcher.go:214-228 | counts one, and warns exactly the first time |
| Dispatcher.Entry.RunHandler | internal/antivpn/dispatcher.go:128-153 | hands the queue to the handler in order up to a cancellation |
| Dispatcher.AllAcceptDropOldest | internal/antivpn/dispatcher.go:159-179 | under drop-oldest `Publish` reports every handler |
| Dispatcher.FoldKeepsAWindow | internal/antivpn/dispatcher.go:181-212 | publishing a list keeps the last capacity elements of the whole backlog, or the first under drop-newest |
| Flight.LeadersKept | internal/antivpn/engine.go:199-223 | each step keeps one running leader per address, whose call is the one in the table |
| Flight.LeaderDeletesItsOwnCall | internal/antivpn/engine.go:218-220 | the closing delete removes the leader's own call and no other |
| Flight.ResultsKept | internal/antivpn/engine.go:199-223 | each step keeps one result per call: everyone who returned from it returned the leader's decision |
| Flight.KeysKept | internal/antivpn/engine.go:199-223 | each step keeps one address per call: whoever leads, follows or returned from it asked for the address it was made for |
| Flight.WaitKept | internal/antivpn/engine.go:204-208 | a follower's call has a running leader or a result |
| FlightWindow.OneQueryInTheFirstWindow | internal/antivpn/engine.go:42-83 | from a cold cache, over every interleaving, at most one provider query per address up to the first stored expiry |
| FlightWindow.StoredWindowExactly | internal/antivpn/engine.go:42-83 | for every store in every run from a cold cache: no continuation issues another query for the address up to the stored expiry, exactly when nobody is about to delete its entry as it is stored, or the expiry has passed by then |
| FlightWindow.CoveredKept | internal/antivpn/cache.go:55-82 | an unexpired entry that nobody is about to delete or works on stays so, until its expiry, whatever step comes |
| FlightWindow.LateDeleteAsksAgain | internal/antivpn/cache.go:58-68 | from any state with a caller about to delete a fresh entry: the steps by which it deletes the entry and asks again at once |
| FlightWindow.CallsAreShared | internal/antivpn/engine.go:199-223 | over whole runs: one leader per address, nobody waits in vain, and all who return from a call asked for the same address and agree |
| FlightWindow.WindowKept | internal/antivpn/engine.go:68-83 | each step keeps the first-window bookkeeping from which the query bound follows |
| FlightWindow.AloneItAsks | internal/antivpn/engine.go:42-83 | a caller that finds nothing cached and nothing running asks once, stores and returns its evaluation, one TTL ahead, and leaves the table as it was |
| FlightWindow.LaterWindowsCanAskTwice | internal/antivpn/cache.go:58-68 | a run from a cold cache with two queries at one instant, after the first expiry |
| FlightAnswers.EveryAnswerWasEvaluated | internal/antivpn/engine.go:42-83 | in every run from a cold cache every returned decision, and every cached one, was evaluated by a leader from its own query for that address, one TTL ahead, and stored under it; a first-lookup answer was the cached entry, unexpired when the caller asked; a call's result was made in that call, or was the entry its leader found cached, unexpired at a sample taken in the call |
| FlightAnswers.EveryQuestionIsAnsweredOnce | internal/antivpn/engine.go:42-83 | in every run each caller is answered about the addresses it asked for, in order, once each, at most the last one still open |
| FlightAnswers.EveryRunHasAStory | internal/antivpn/engine.go:42-83 | the runs told state by state are all the runs |
| FlightAnswers.UnexpiredIsReturned | internal/antivpn/engine.go:64-66 | a caller that asks while an unexpired entry is cached is answered with it, and nothing else changes |
| FlightAnswers.AloneItReuses | internal/antivpn/engine.go:68-71 | a leader that finds an unexpired entry at its second lookup returns it and asks nobody |
| FlightAnswers.StaleIsAskedAgain | internal/antivpn/engine.go:68-79 | a leader that finds an expired entry there deletes it and asks |
| Cache.TestsAgreeExactly | internal/antivpn/cache.go:64-155 | the test of `Get` and the test of `load` agree except at the expiry instant |
| Cache.StartIsCoherentExactly | internal/antivpn/cache.go:31-53 | a new cache agrees with its file exactly when the file was read or has nothing fresh to read |
| Cache.CacheAndFileAgree | internal/antivpn/cache.go:55-185 | in every run from any start: after a save the file is a whole past value of memory, and no hit was expired when sampled; if the start agrees with its file, then in every state that is not dirty a reload at any later time gives memory's unexpired entries |
| Cache.SaveRestoresAgreement | internal/antivpn/cache.go:118-130 | after any run from any file, readable or not, one save restores the agreement for the rest of the run |
| Cache.EverythingIsAsLastWritten | internal/antivpn/cache.go:55-185 | in every run memory holds for each address what was last stored and not deleted since, the dirty flag tells whether anything was written since the last flush that worked, and the file holds what that flush found |
| Cache.LookupAlone | internal/antivpn/cache.go:55-74 | a lookup without interference: the entry, nothing, or the deletion of an expired entry |
| Cache.LateDeleteDropsAFreshEntry | internal/antivpn/cache.go:58-68 | from every start, a run in which a delete decided on a stale entry removes an unexpired one stored in between |
| Cache.DecisionCache.constructor | internal/antivpn/cache.go:31-53 | memory is what `load` accepts of the file, and is clean |
| Cache.DecisionCache.Read | internal/antivpn/cache.go:55-74 | what the read-locked part finds, and whether it has expired |
| Cache.DecisionCache.Get | internal/antivpn/cache.go:55-74 | uninterrupted: a hit exactly for an unexpired entry, and an expired one is deleted |
| Cache.DecisionCache.Delete | internal/antivpn/cache.go:65-68 | the entry goes and the cache is dirty |
| Cache.DecisionCache.Set | internal/antivpn/cache.go:76-82 | the entry is replaced and the cache is dirty |
| Cache.DecisionCache.SaveLocked | internal/antivpn/cache.go:162-185 | the file becomes the whole memory or stays what it was |
| Cache.DecisionCache.FlushDirty | internal/antivpn/cache.go:118-130 | clean afterwards unless the save fails |
| Cache.DecisionCache.Close | internal/antivpn/cache.go:84-98 | the answer and the new state for either outcome of the save; where there is a path and success is reported, the file gives back memory's unexpired entries at every later time exactly when the cache was dirty or already agreed with its file |
| Tracker.BurstWindow | internal/antivpn/supervisor.go:708-725 | 5 s up to a spacing of 625 ms, 30 s from 3750 ms on, eight times the spacing between |
| Tracker.Supervisor.HandleLogLine | internal/antivpn/supervisor.go:561-661 | one line changes the tracker, the checks and the events as the reference step does, and only a bad-RCON line writes guard commands |
| Tracker.Supervisor.HandleUserinfo | internal/antivpn/supervisor.go:634-660 | a check is started only for an address that is new to the slot |
| Tracker.Supervisor.MarkBurst | internal/antivpn/supervisor.go:708-725 | a marker never shortens the open window |
| Tracker.Supervisor.ClassifyConnect | internal/antivpn/supervisor.go:669-691 | re-emission only in the window and at the tracked address |
| Tracker.Supervisor.StoreConnectionState | internal/antivpn/supervisor.go:784-799 | address, name and time of the slot |
| Tracker.Supervisor.ClearConnectionState | internal/antivpn/supervisor.go:842-862 | the slot is forgotten, and so is the dedupe entry of its tracked address |
| Tracker.Supervisor.UpdateConnectionStateName | internal/antivpn/supervisor.go:864-876 | only the name of a tracked slot changes |
| Tracker.Supervisor.ProcessConnectionEvent | internal/antivpn/supervisor.go:733-745 | a check is started exactly when there is an engine and the dedupe table accepts |
| Tracker.Supervisor.LookupSlotByIP | internal/antivpn/supervisor.go:816-840 | the most recently seen slot at an address, or none when no slot is there |
| Tracker.Supervisor.HandleBadRcon | internal/antivpn/rconguard.go:136-223 | what the guard writes for a line |
| Tracker.GuardIsIgnoredHost | internal/antivpn/rconguard.go:253-272 | the search answers whether some entry matches the host or the address |
| SessionHistory.TrackerRefinesHistory | internal/antivpn/supervisor.go:784-862 | a slot is tracked at the last address its lines gave it since its last disconnect, at the time they gave it |
| SessionHistory.NameRefinesHistory | internal/antivpn/supervisor.go:784-876 | a tracked slot carries the last nonblank name its session's lines gave it |
| SessionHistory.WindowRefinesMarkers | internal/antivpn/supervisor.go:708-731 | the window is open exactly when a marker is younger than 5 s, or than both 30 s and eight spacings |
| SessionHistory.ReinitConnectExactly | internal/antivpn/supervisor.go:669-691 | a connect is a re-emission exactly when a marker is recent and the history has the slot at the same address |
| SessionHistory.NoSessionGoesUnchecked | internal/antivpn/supervisor.go:613-661 | with an engine, after every line of every run each tracked pair has a started check no older than the dedupe interval before the pairing began |
| SessionHistory.SeenEntriesWereChecked | internal/antivpn/supervisor.go:733-743 | every dedupe entry is the instant of a started check of its key |
| SessionHistory.DisconnectAllowsAFreshCheck | internal/antivpn/supervisor.go:842-862 | after a disconnect the tracked pair is checked at its next connect, even inside the interval |
| SessionHistory.FreshCheckExactly | internal/antivpn/supervisor.go:733-862 | after any history, a connect is checked exactly when no earlier check of its pair, not released by a disconnect of the slot at that address, is younger than the interval and the horizon |
| SessionHistory.EntriesStand | internal/antivpn/supervisor.go:842-862 | every dedupe entry is the instant of a check that no later disconnect has released |
| SessionHistory.StandingIsRemembered | internal/antivpn/supervisor.go:1241-1259 | such a check is remembered, or overtaken by a later one, until it is behind the horizon |
| SessionHistory.DisconnectKeepsOtherAddresses | internal/antivpn/supervisor.go:857-861 | a player who moved address, left and came back at the old one is not checked again |
| SessionHistory.GuardKicksTheLatestAtTheSource | internal/antivpn/rconguard.go:136-223 | at most one kick per line, only for a slot whose history address is the source, and the most recently seen one |
| SessionHistory.GuardIsSilentOnlyForStrangers | internal/antivpn/rconguard.go:136-223 | the guard stays silent exactly when it is off, trusts the host or address, is not to kick, or the history has no slot at the source |
| SessionHistory.KeysDoNotCollide | internal/antivpn/supervisor.go:738-743 | different slot and address pairs give different dedupe texts |
| Dedupe.DedupeTable.MarkKey | internal/antivpn/supervisor.go:1241-1259 | the prune loop, the answer and the entry after one mark |
| Dedupe.BroadcastGate.ShouldBroadcast | internal/antivpn/supervisor.go:1198-1239 | mode first, then no cooldown or a genuine connect, then the table |
| Dedupe.PruningIsInvisible | internal/antivpn/supervisor.go:1241-1259 | for intervals up to the horizon and one clock tick, every answer over any trace equals that of a table that never forgets |
| Dedupe.PruningIsInvisibleExactly | internal/antivpn/supervisor.go:1198-1259 | that holds over all traces exactly for intervals up to the horizon and one clock tick |
| Dedupe.PruningShowsPastTheHorizon | internal/antivpn/supervisor.go:1247-1251 | for every longer interval a trace on which the answers differ |
| Dedupe.AcceptedAreSpaced | internal/antivpn/supervisor.go:1241-1259 | accepted marks of a key with no drop between are at least min(interval, horizon) apart, for any interval |
| Dedupe.RejectedExactly | internal/antivpn/supervisor.go:1253-1255 | a mark is rejected exactly for an accepted, undropped mark less than the interval old, so rejected ones never extend the window |
| Dedupe.EntriesAreAccepted | internal/antivpn/supervisor.go:1241-1259 | a rejected mark leaves no trace in the table |
| LogTail.NextLogOffset | internal/antivpn/supervisor.go:453-462 | never past the end, at most the cap unread, forward unless the file shrank |
| LogTail.Tailer.PollOnce | internal/antivpn/supervisor.go:464-559 | one turn of the loop hands on and moves as the reference poll |
| LogTail.ScanAll | internal/antivpn/supervisor.go:529-558 | the scan loop hands on the lines of the remaining text and adds their lengths |
| LogTail.AdvanceIsExact | internal/antivpn/supervisor.go:536-550 | the offset's drift: less the carriage returns at line ends, plus one for an unterminated last line |
| LogTail.LinesAppend | internal/antivpn/supervisor.go:529-550 | scanning in two goes at a line boundary is scanning in one |
| LogTail.OverlongLineEndsTheScan | internal/antivpn/supervisor.go:543-550 | a line of a mebibyte or more, and what follows it, is not handed on |
| LogTail.EveryLineOnce | internal/antivpn/supervisor.go:464-559 | for an append-only file of short LF lines growing by at most the cap, the lines handed on are exactly the file's lines after the attach point, in order |
| LogTail.AttachThenEveryLineOnce | internal/antivpn/supervisor.go:464-510 | the same from the first poll, without replay |
| LogTail.BacklogKeepsTheOffsetInside | internal/antivpn/supervisor.go:453-559 | over any run with backlogs, failed seeks and unavailable files: the offset moves forward, never passes the end of the file, and what is handed on are the lines of ascending stretches, each from where reading stopped or exactly the cap before the size taken |
| LogTail.BacklogPoll | internal/antivpn/supervisor.go:453-550 | one poll with any backlog lands on the end of the content and hands on the lines behind its starting point |
| LogTail.SkippedLinesAreCut | internal/antivpn/supervisor.go:453-550 | reading from the middle of whole lines gives the text's own lines from some line on, the first perhaps without its beginning |
| LogTail.OffsetMeetsEndExactly | internal/antivpn/supervisor.go:536-550 | when the offset after a poll is the end of the content |
| LogTail.OffsetMissesTheEnd | internal/antivpn/supervisor.go:536-550 | one poll that ends before the content does, and one that ends behind it, after which the next poll reports a shrunken file |
| LogTail.NoOldByteIsRead | internal/antivpn/supervisor.go:464-559 | after an attach or an observed shrink no byte present then is ever read, through any appends, truncations and polls |
| Match.MatchAnnouncer.HandleEvent | bundled-addons/defaults/match-announcer.py:502-527 | one turn: the handler's lines, then the pump's |
| Match.MatchAnnouncer.RawLineEvent | bundled-addons/defaults/match-announcer.py:532-573 | state and output after a raw line |
| Match.MatchAnnouncer.InitGameEvent | bundled-addons/defaults/match-announcer.py:575-605 | state after an init_game, which emits nothing |
| Match.MatchAnnouncer.ShutdownGameEvent | bundled-addons/defaults/match-announcer.py:607-619 | state and output after a shutdown |
| Match.MatchAnnouncer.PumpPendingStart | bundled-addons/defaults/match-announcer.py:646-670 | the deferred start line |
| Match.MatchAnnouncer.SendSummary | bundled-addons/defaults/match-announcer.py:699-721 | one end line, and everything of the match forgotten |
| Match.MatchAnnouncer.ResetMatchFields | bundled-addons/defaults/match-announcer.py:482-491 | the match forgotten, the arming kept |
| Match.OutputGrammar | bundled-addons/defaults/match-announcer.py:477-721 | what each activation emits is nothing, a start, an end, or a start and an end, the start no earlier than 2 s after it, and nothing is emitted outside |
| Match.AlwaysSettled | bundled-addons/defaults/match-announcer.py:607-619 | between events no summary is half sent and no score remembered |
| Match.EndLinesTellTheScore | bundled-addons/defaults/match-announcer.py:532-619 | an end line for two readable numbers carries them and names red, blue or neither as the first, the second or neither is greater; with a refused number, and for the scoreboard and the shutdown, it is a draw |
| Match.EndsExactly | bundled-addons/defaults/match-announcer.py:532-619 | over any run an end line comes exactly when a match is on and a score line or the final scoreboard comes, or a shutdown after an exit line of that match |
| Match.StartedMeansOngoing | bundled-addons/defaults/match-announcer.py:532-619 | a match is on exactly when an input activated it and none has ended or replaced it since; its end is expected exactly when an exit line came meanwhile |
| Match.StartSentExactly | bundled-addons/defaults/match-announcer.py:646-670 | the start line of a match is sent exactly by the first pump 2 s or more after its activation, unless the match ends or is replaced before |
| Match.ActivationNeedsAVote | bundled-addons/defaults/match-announcer.py:493-605 | an init_game activates exactly for a supported type and, with the vote required, an unused vote at most 30 s old |
| Match.VotesAreNotShared | bundled-addons/defaults/match-announcer.py:575-605 | different activations use different votes, each after the previous activation |
| Match.EndsBelowActivationsBelowVotes | bundled-addons/defaults/match-announcer.py:532-605 | end lines are at most activations, which are at most passed votes |
| Quoting.QuotedArgumentReadsBack | bundled-addons/defaults/match-announcer.py:418-421 | for every value, reading the quoted argument back gives the value |
| Quoting.QuoteRconArgIsInjective | bundled-addons/defaults/match-announcer.py:418-421 | any two values that quote alike are equal |
| Quoting.NoUnescapedInnerQuote | bundled-addons/defaults/match-announcer.py:418-421 | every inner quote has an odd run of backslashes before it |
| Rotation.RotatingFile.constructor | internal/antivpn/rotatingfile.go:51-99 | opening conserves the bytes, and archives existing content when asked to |
| Rotation.RotatingFile.Start | internal/antivpn/rotatingfile.go:70-98 | the same for the body after the arguments are checked |
| Rotation.RotatingFile.ArchiveExisting | internal/antivpn/rotatingfile.go:77-83 | existing content is archived exactly when asked to and there is some, and stays otherwise |
| Rotation.RotatingFile.Write | internal/antivpn/rotatingfile.go:101-134 | a write rotates first exactly when the tracked size is positive and would pass a positive limit; no write is split between files and archives plus file equal initial content plus writes; the limit is met, or the file is exactly that write, exactly when a rotation it needed could archive, and without one exactly when the tracked size is the file's or the file still fits; a rotation prunes to keepCount |
| Rotation.RotatingFile.Rotate | internal/antivpn/rotatingfile.go:154-174 | the live file is archived under the chosen name and the archives are pruned, or it is kept, appended to and no longer tracked; the bytes are conserved either way |
| Rotation.RotatingFile.MakeRoom | internal/antivpn/rotatingfile.go:113-119 | a write that would pass a positive limit rotates a nonempty file first; any other leaves everything alone |
| Rotation.FailedArchiveBreaksTheBound | internal/antivpn/rotatingfile.go:101-174 | for every positive limit and any two writes that together pass it: with a rename failing before the second, both are in the live file and the bound is broken |
| Rotation.WriteKeepsTheNewest | internal/antivpn/rotatingfile.go:101-273 | a rotating write leaves exactly the newest keepCount compressed archives when times are distinct and removals work |
| Rotation.RotatingFile.ArchiveCurrent | internal/antivpn/rotatingfile.go:179-205 | rename, compress and prune as one step of the directory |
| Rotation.RotatingFile.Archive | internal/antivpn/rotatingfile.go:179-205 | the same step in terms of the ledger of archives, with what pruning left |
| Rotation.RotatingFile.Reopen | internal/antivpn/rotatingfile.go:166-173 | opening for append keeps what is there |
| Rotation.RotatingFile.AppendBlock | internal/antivpn/rotatingfile.go:125-131 | the block is appended whole and the size follows |
| Rotation.ConservedBytes | internal/antivpn/rotatingfile.go:101-205 | archives in rotation order, pruned ones included, then the live file, are the initial bytes and all writes |
| Rotation.ArchiveConserves | internal/antivpn/rotatingfile.go:179-205 | an archiving attempt conserves the bytes whether or not it succeeds |
| Rotation.ArchiveStaysTraceable | internal/antivpn/rotatingfile.go:179-223 | while a name is available every archive not pruned keeps its own file with its content |
| Rotation.UniqueArchivePath | internal/antivpn/rotatingfile.go:207-223 | the loop returns the first unused candidate, or the last |
| Rotation.UnusedStampIsTaken | internal/antivpn/rotatingfile.go:207-223 | an unused time stamp is the archive's name |
| Rotation.FirstUnusedNumberIsTaken | internal/antivpn/rotatingfile.go:207-223 | otherwise the name is the stamp with the least number from 1 to 999 whose name is unused, or with 999 |
| Rotation.FewArchivesLoseNothing | internal/antivpn/rotatingfile.go:179-223 | with fewer than a thousand archives in the directory nothing is lost |
| Rotation.FirstFreeIsFree | internal/antivpn/rotatingfile.go:207-223 | that name is unused exactly when some candidate is |
| Rotation.MoveKeepsExactly | internal/antivpn/rotatingfile.go:179-205 | when moving the live file away overwrites no archive |
| Rotation.AvailableNameLosesNothing | internal/antivpn/rotatingfile.go:207-223 | with a candidate unused nothing is lost, whatever the compression does |
| Rotation.ExhaustedNamesLoseAnArchive | internal/antivpn/rotatingfile.go:207-223 | with all candidates in use by archives of other content, a move whose compression succeeds always loses one |
| Rotation.SortArchives | internal/antivpn/rotatingfile.go:225-260 | the archives by modification time |
| Rotation.PruneOldArchives | internal/antivpn/rotatingfile.go:225-273 | the oldest above the count are removed, except those whose removal fails |
| Rotation.NewestAreLeft | internal/antivpn/rotatingfile.go:225-273 | with distinct times exactly the newest keepCount compressed archives remain |
| Aka.AkaStore.Record | internal/antivpn/aka_store.go:55-107 | one call is one step of the store; the answer is the representative of the last maximal run of equivalent names before the current one since the record last survived pruning, or a dash; the names of other addresses stay |
| Aka.AnswersFollowTheRuns | internal/antivpn/aka_store.go:55-107 | the same for every call of every run from an empty store over any addresses, with the names read off the run; and a positive limit is kept |
| Aka.AnswersByTimes | internal/antivpn/aka_store.go:55-185 | in every run with a forward clock the answer is told by the turns alone: the previous run of equivalent names, or a dash, among the names of the address since two neighbouring ones were more than the time to live apart or the limit evicted it |
| Aka.SurvivesExactly | internal/antivpn/aka_store.go:156-185 | a call finds the record of its address exactly when no more than the time to live has passed since it was last named and the limit has not evicted it |
| Aka.FewAreNeverPushed | internal/antivpn/aka_store.go:167-184 | the limit evicts nobody while no more addresses were named than it allows |
| Aka.RecordsByTimes | internal/antivpn/aka_store.go:55-107 | first and last time, count, latest and previous name of every stored record, by the turns alone |
| Aka.NothingStaleIsLeft | internal/antivpn/aka_store.go:156-165 | no call with an address leaves a record last named longer ago than the time to live |
| Aka.AkaStore.RecordAt | internal/antivpn/aka_store.go:72-107 | the part of a call under the lock |
| Aka.StoreTellsAll | internal/antivpn/aka_store.go:55-107 | throughout such a run every stored record tells exactly the names of its address since it was last missing after a pruning |
| Aka.AkaStore.Touch | internal/antivpn/aka_store.go:76-99 | the same for the update between the two prunings |
| Aka.AkaStore.PruneLocked | internal/antivpn/aka_store.go:156-185 | age first, then number |
| Aka.PruneRecords | internal/antivpn/aka_store.go:156-185 | the loops keep the records of a valid age and number |
| Aka.DropExpired | internal/antivpn/aka_store.go:157-165 | exactly the expired records go |
| Aka.UpdateTellsRuns | internal/antivpn/aka_store.go:76-99 | one more name keeps the record truthful about the runs, and the answer names the run before the current one |
| Aka.RunsAreMaximal | internal/antivpn/aka_store.go:187-189 | the runs are those found by comparing neighbours, and neighbouring runs differ |
| Aka.StoredNamesDiffer | internal/antivpn/aka_store.go:76-99 | the stored previous and latest names are never equivalent |
| Aka.NewestSurvives | internal/antivpn/aka_store.go:156-185 | a strictly newest record survives pruning |
| Aka.RecordKeepsTheNewest | internal/antivpn/aka_store.go:55-107 | through one call the new record survives and a positive limit is met |
| Aka.EvictedAreOldest | internal/antivpn/aka_store.go:55-185 | in every run with a forward clock, an unexpired record that a call evicts in either of its two prunings is no newer than any record the call leaves, and the store is then exactly full; the evicted record may be the address's own |
| Aka.OwnRecordLosesOnlyTies | internal/antivpn/aka_store.go:55-185 | in every such run, a call whose own new record is gone at its end leaves a full store in which every record was seen at that same instant |
| Scheduler.DailyOncePerDate | bundled-addons/defaults/announcer.py:799-848 | with forward clocks any two successes of a daily entry are of different dates, in order, also when the sleep crosses midnight after the date was sampled |
| Scheduler.NeverBeforeItsTime | bundled-addons/defaults/announcer.py:655-669 | every dispatch of a daily entry in such a run is at or after its time of that day |
| Scheduler.DailyAlways | bundled-addons/defaults/announcer.py:799-848 | the invariant behind it, for every number of rounds |
| Scheduler.PeriodicIsSpaced | bundled-addons/defaults/announcer.py:766-835 | the passes that find an every_seconds entry due have clock samples at least its period apart, and as far from the start |
| Scheduler.AnnouncementsLag | bundled-addons/defaults/announcer.py:819-843 | two announcements of an every_seconds entry are at least its period apart, less what earlier dispatches of the first one's pass took |
| Scheduler.AnnouncementsAreSpaced | bundled-addons/defaults/announcer.py:819-843 | with every dispatch within a limit they are at least the period, less one limit for each earlier entry, apart |
| Scheduler.AlwaysSpacedExactly | bundled-addons/defaults/announcer.py:819-843 | the announcements of an every_seconds entry of positive period are its period apart in all runs whose passes do not overlap exactly when it is the first of the schedule |
| Scheduler.LaterEntryComesTooSoon | bundled-addons/defaults/announcer.py:819-843 | for every later entry of every such schedule, a run of two rounds in which it is announced too soon |
| Scheduler.FixedScheduleStaysMatched | bundled-addons/defaults/announcer.py:780-796 | the reconciliation changes nothing while the schedule stays, in any round |
| Scheduler.WaitIsExact | bundled-addons/defaults/announcer.py:635-652 | the computed wait is the wait to the first due instant, except exactly when midnight falls between the two samples, the slot fired on the old date and is due on the new |
| Scheduler.NothingIsSleptThrough | bundled-addons/defaults/announcer.py:798-818 | counted from its own clock sample, no entry becomes due within the planned sleep, unless midnight caught a daily one between its samples |
| Scheduler.AcrossMidnightIsLate | bundled-addons/defaults/announcer.py:635-652 | in that case the slot is due at its sample and the computed wait is to its time on the day after |
| Scheduler.AcrossMidnightIsReached | bundled-addons/defaults/announcer.py:635-652 | for every time of day, a run with forward clocks that leads to that case |
| Scheduler.NoSleepExactly | bundled-addons/defaults/announcer.py:811-818 | the loop goes on without sleeping exactly when an entry is due |
| Scheduler.FailedSlotStaysDue | bundled-addons/defaults/announcer.py:826-848 | for any dispatch of a due slot: it stays due for the rest of the day exactly when the dispatch failed or there was no message to send |
| Scheduler.RotationIsFair | bundled-addons/defaults/announcer.py:679-685 | successive calls go round the list in order |
| Scheduler.DailyFiresExactly | bundled-addons/defaults/announcer.py:822-848 | in every round with forward clocks a daily entry is announced exactly when its clock has reached its time and it was not announced with success on the date sampled before the sleep |
| Scheduler.PeriodicFiresExactly | bundled-addons/defaults/announcer.py:822-835 | in every round of every run an every_seconds entry is announced exactly when its period has passed since the pass that last found it due, or since the start |
| Scheduler.MessagesGoRound | bundled-addons/defaults/announcer.py:837-843 | over a run with a fixed list, entries with a literal message send it, and all other announcements together take the list's messages in turn from its head |
| Scheduler.Worker.constructor | bundled-addons/defaults/announcer.py:755-769 | the state before the first round |
| Scheduler.Worker.Reconcile | bundled-addons/defaults/announcer.py:780-796 | missing deadlines are added and stale entries dropped |
| Scheduler.Worker.PlanSleep | bundled-addons/defaults/announcer.py:798-816 | at most 60 s, at most every entry's wait, and one of these |
| Scheduler.Worker.TakeMessage | bundled-addons/defaults/announcer.py:679-685 | the message at the cursor, and the cursor moved on |
| Scheduler.Worker.SendDue | bundled-addons/defaults/announcer.py:837-848 | the message chosen, the dispatch, and the date noted only on success |
| Scheduler.Worker.FireOne | bundled-addons/defaults/announcer.py:822-848 | one entry of the pass: whether it is due, what is sent, the new deadline or date |
| Scheduler.Worker.FireDue | bundled-addons/defaults/announcer.py:822-848 | the pass over the entries, in order |
| Gate.ProviderGate.Wait | internal/antivpn/providers.go:25-51 | the reservation, which a cancelled waiter keeps, and nobody proceeds before it |
| Gate.RunIsSpaced | internal/antivpn/providers.go:30-36 | consecutive reservations are minInterval apart under any interleaving |
| Gate.AtMostKPerWindow | internal/antivpn/providers.go:25-51 | a half-open window of k intervals holds at most k reservations |
| Gate.BurstFillsWindows | internal/antivpn/providers.go:25-51 | the bound is reached by a burst |
| Gate.NoLaterThanNeeded | internal/antivpn/providers.go:30-36 | every reservation is that of a waiter served as it came, or of the gate's last request, plus one interval for each waiter since and the time between their clock readings |
| Scoring.EvaluateDecision | internal/antivpn/engine.go:101-186 | blocked exactly in block mode with a usable provider, the threshold met, and a strong signal or two detecting providers, by the decision's own fields; these count the usable and detecting results and the strong signals, and add up the weights; the summary with its numbers |
| Scoring.Tally | internal/antivpn/engine.go:120-150 | the loops compute the sums over the usable results |
| Scoring.TallySignals | internal/antivpn/engine.go:134-146 | the inner loop over one result's signals |
| Scoring.TalliesCount | internal/antivpn/engine.go:120-150 | the totals are the numbers of usable and of detecting results and of strong signals, and the sum of all weights |
| Scoring.VerdictIsOrderFree | internal/antivpn/engine.go:101-186 | permuting the results keeps score and verdict |
| Scoring.FailuresNeverBlock | internal/antivpn/engine.go:101-186 | with nonnegative weights, turning any of the results into signal-free failures never blocks an allowed player |
| Scoring.AllFailuresAllow | internal/antivpn/engine.go:101-186 | with all providers failed everybody is allowed |
| Scoring.LossesNeverBlock | internal/antivpn/engine.go:101-186 | the same when only each lost result's total weight is nonnegative |
| Scoring.FailOpenExactly | internal/antivpn/engine.go:101-186 | losing a result is harmless, beside any other results and at any threshold, exactly when its total weight is nonnegative |
| Scoring.NegativeWeightBreaksFailOpen | internal/antivpn/engine.go:101-186 | for every result of negative total weight there are others beside which its failure blocks |
| Userinfo.ExtractUserinfoValue | internal/antivpn/supervisor.go:1387-1424 | the loop finds the value the reference lookup gives |
| Userinfo.LookupUndoesRender | internal/antivpn/supervisor.go:1387-1424 | looking a key up in a printed list gives the first value bound to it |
| Userinfo.FieldsSplitTheLine | internal/antivpn/supervisor.go:1393-1397 | splitting gives separator-free fields that join back |
| Userinfo.FieldsOfJoin | internal/antivpn/supervisor.go:1393-1397 | splitting undoes joining |
| HostPort.SplitUndoesPlainPrint | internal/antivpn/rconguard.go:77-115 | host and port come back from host:port for colon-free hosts and every port 1 to 65535 |
| HostPort.SplitUndoesBracketedPrint | internal/antivpn/rconguard.go:77-115 | the same for a bracketed literal (section 3.2.2 of RFC 3986) |
| HostPort.SplitKeepsBareHost | internal/antivpn/rconguard.go:77-115 | a bare IPv6 literal is never cut |
| HostPort.PortComesFromAPrintedShape | internal/antivpn/rconguard.go:77-115 | a nonzero port is only read from a printed shape and is in range |
| HostPort.PortExactly | internal/antivpn/rconguard.go:88-108 | a port text is a number from 1 to 65535 in digits, perhaps behind a plus |
| HostPort.AtoiExactly | internal/antivpn/rconguard.go:88-108 | what is read as which number |
| HostPort.BracketedWithoutPort | internal/antivpn/rconguard.go:83-94 | a bracketed literal with anything else behind it is the host |
| HostPort.PlainWithoutPort | internal/antivpn/rconguard.go:96-108 | a token with one colon and no port behind it is the host |
| HostPort.UnclosedBracketIsDropped | internal/antivpn/rconguard.go:83-86 | a literal without its closing bracket |
| HostPort.AtoiUndoesPrint | internal/antivpn/rconguard.go:88-108 | reading a printed number gives the number |
| PlayerName.NormalizeLoggedPlayerName | internal/antivpn/supervisor.go:1426-1439 | the loop terminates with the reference normal form |
| PlayerName.TrimTrailingColorCode | internal/antivpn/supervisor.go:1441-1454 | takes off exactly one trailing code if there is one |
| PlayerName.CodesExactly | internal/antivpn/supervisor.go:1441-1470 | a code is a caret and a digit or letter, or a caret, an x and six hexadecimal digits |
| PlayerName.NormalizedIsClean | internal/antivpn/supervisor.go:1426-1454 | no outer white space and no trailing code remains |
| PlayerName.NormalizedIsAPrefix | internal/antivpn/supervisor.go:1426-1454 | nothing but the right end of the trimmed name is touched |
| PlayerName.NormalizedIsIdempotent | internal/antivpn/supervisor.go:1426-1454 | normalizing twice is normalizing once |
| PlayerName.NormalizedKeepsCleanNames | internal/antivpn/supervisor.go:1426-1454 | a clean name is left alone |
| PlayerName.AppendedCodeIsStripped | internal/antivpn/supervisor.go:1426-1454 | appending a code to any name does not change its normal form |
| PlayerName.SanitizePlayerName | internal/antivpn/supervisor.go:1472-1508 | never empty or blank, and at most 35 characters, counted as the code counts them |
| PlayerName.SanitizedName | internal/antivpn/supervisor.go:1472-1508 | "Unknown Player" when nothing is shown, the trimmed shown characters up to 32 of them, else the first 32 and three dots |
| PlayerName.PlainNameIsKept | internal/antivpn/supervisor.go:1472-1508 | a trimmed name of up to 32 shown characters is kept as it is |
| PlayerName.VisibleExactly | internal/antivpn/supervisor.go:1479-1497 | shown are all characters but carets, digits behind a caret and control characters |
| PlayerName.SanitizeNameLoop | internal/antivpn/supervisor.go:1472-1497 | the character loop keeps what the reference keeps |
| PlayerName.VisibleIsPrintable | internal/antivpn/supervisor.go:1472-1497 | no caret and no control character is kept |

## Left out

- The dispatcher's queues are assumed to be closed once, and never while a `Publish` that took its snapshot earlier is still sending; a closed queue panics in the program.
- Delivery follows one handler's queue; the entries of a dispatcher do not share state, so each has its own such machine.
- A handler that panics is recovered by the dispatcher and loses nothing but that event's processing; the model counts it as handled.
- Match.MatchAnnouncer.HandleEvent: the sender is total; stripping, truncation and templates of `_emit` and the RCON send are not modelled.
- Aka.AkaStore.Record: name equivalence is an arbitrary key function instead of Unicode case folding, and the country field and the JSON file are not modelled.
- HostPort.AtoiUndoesPrint: numbers beyond Go's integer width are read as numbers, which the port range rejects all the same.
- Scheduler.DailyOncePerDate: the schedule is fixed and local time has no daylight-saving changes; edits of the schedule carry deadlines over by index.
- Scheduler.AnnouncementsLag: within a pass only the dispatches take time.
- Dispatcher.EventDispatcher.RemoveEntry: list updates are on values, so the sharing of backing arrays between slices is not modelled; `Publish` copies its snapshot for that reason.
- FlightAnswers.EveryAnswerWasEvaluated: the from-cache mark that `Get` puts on its answer is not part of the compared decision.
- Flight does not model provider errors: every query ends in a decision, as `CheckIP` makes of failed results.
- The tracker treats one `handleLogLine` call as one step at one instant; two scanners can interleave inside it in the program.
- Log-line regular expressions, chat and team parsers: the models start from parsed lines.
- HTTP lookups, JSON, gzip contents, sockets, RCON, processes, signals and file locks are steps with a success flag or are absent.
- Enforcement, audit records, the broadcast queue and its worker: formatting and plumbing around the modelled decisions.
- Configuration, shell scripts, addon processes, the live feed, the chat logger and the team announcer: thinner repeats or wiring.
- `sanitizePlayerNameForConsoleCommand` and country clean-up: character filters that add no new kind of property.
- Text is a sequence of characters that stand for bytes or code points as the code reads them; lower-casing is ASCII.
