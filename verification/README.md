# SpinLab: timers, sessions, live view, replay tracks and exact numerics

SpinLab drills speed-run segments on an emulator and models how long each takes. This project models
the parts of it that turn a stream of game events into numbers, and proves what those numbers mean.

* **Timers** (`HyperPlayTimer.dfy`, `PracticeTimer.dfy`). The two attempt timers are classes with the
  source's fields. Each is proved against a function on the value of those fields. Beside it runs a
  ledger, an observer that looks only at phases and at the wall clock. The main results compare the
  two over every run with a monotone clock; and what each input does is stated from the ledger's notes,
  the plan or request and the event alone.
* **Hyper play** (`HyperPlayLevels.dfy`, `HyperPlaySession.dfy`, `HyperPlaySystem.dfy`,
  `HyperPlayTrail.dfy`, `HyperPlayRecords.dfy`, `HyperPlayDrops.dfy`, `HyperPlayLoop.dfy`). The session coroutine is cut at its
  `await` points and composed with the timer, the FIFO event bus and the session's queue. Schedules are
  arbitrary sequences of enabled steps. A trail follows every dispatched event: pending, handled or lost.
* **Practice** (`PracticeSession.dfy`, `PracticeSystem.dfy`, `PracticeDelivery.dfy`). The same for the
  practice loop, its history and cursor, navigation, pausing, and the elapsed clock as the route bar shows
  it; and the loop together with the timer that its commands arm and the results on their way to it.
* **Live view** (`LiveView.dfy`). Any number of loads in flight, one generation counter, one interval.
* **Replay track** (`ReplayTrack.dfy`). An encoder written from the layout, and the counter that walks it.
* **Queues** (`ColdFill.dfy`, `Broadcaster.dfy`). The cold-fill queue and the bounded subscriber queues.
* **Numerics in exact arithmetic** (`ColdDistribution.dfy`, `Simpson.dfy`, `PaddedLikelihood.dfy`,
  `FiniteDiffHessian.dfy`, `Binning.dfy`, `PiecewiseHazard.dfy`, `FormatTime.dfy`).

## Where the code and its description differ

The model follows the code.

* `python/spinlab/timing.py:290-291` and `:307` say that the split timer restarts at checkpoints. It does
  not: only arming and respawning restart it (`:343`, `:398`), which is why death splits alone add up to
  the elapsed time.
* After a death reload the hyper-play session empties its queue (`python/spinlab/hyper_play.py:288-296`).
  A record then names the sub-segment it measures exactly when no checkpoint before it was lost
  (`HyperPlayRecords.RecordMeasuresColdStartIff`), and the session waits for an event that nobody will send
  exactly when the completion was lost (`HyperPlayDrops.StalledForever`). Both happen in some run
  (`HyperPlayDrops.DroppedCheckpointMisrecords`, `HyperPlayDrops.DroppedCompletionStalls`); synchronous
  delivery loses nothing.
* A practice result is not matched against the segment in flight (`python/spinlab/practice.py:228-234`).
  `PracticeDelivery.CycleCountsOwnIff` says exactly when a cycle can count the result of another attempt, or of
  another segment: when the event bus or the timer still holds one as the cycle's command is sent. Skipping, going
  back or pausing while the cycle's load is awaited or a result is on the bus leads there
  (`PracticeDelivery.UncleanDropCanMiscount`), and these are exactly the drops that do
  (`PracticeDelivery.DropIsCleanIff`, `PracticeDelivery.CleanDropsCountOwn`). A resume's load does not: the event
  loop takes nothing else while it awaits one (`python/spinlab/dashboard.py:98-112`), so none is left as a cycle
  begins (`PracticeDelivery.NoLoadAtBegin`).
* Stopping while paused drops the open paused span from the offset (`python/spinlab/practice.py:215-221`),
  so the displayed time jumps: `PracticeSystem.StopWhilePausedJumps` says exactly when.
* A load whose summary fetch fails leaves the earlier load's route data in place, and its interval renders
  that data into the new hosts, over the error note (`frontend/src/live-view.ts:66-101`):
  `LiveView.TickShowsNewestIff`, `LiveView.OlderDataTicks`.
* `destroyLiveView` does not advance the generation (`frontend/src/live-view.ts:112-122`), so a load that is
  still in flight restarts the interval: `LiveView.DestroyIsFinalUnlessLoading` is the exact condition.
* `ckpt_frames` counts a checkpoint frame once its token was read (`scripts/count_replay_frames.py:86`):
  `ReplayTrack.CheckpointsOvercountByMark` is the exact condition for the extra one.
* `handle_spawn` returns False when the rows left all lack their files
  (`python/spinlab/capture/cold_fill.py:131-132`): `ColdFillRuns.DoneIffDrained` is the exact condition.
* A spawn event that names another segment than the one being filled makes `handle_spawn` save that other
  segment and store its path for the current row's waypoint (`python/spinlab/capture/cold_fill.py:102-124`):
  `ColdFillRuns.CapturesSaveOwnIff`, `ColdFillRuns.LateSpawnMisfiled`.
* `python/spinlab/_segments_v07/binning.py:8-9` says that narrow bins are collapsed. The width is enforced
  between interior edges only: `Binning.WideIff` and `Binning.NarrowFirstBin`.
* A practice clean tail after deaths needs a positive clock (`python/spinlab/timing.py:227`):
  `PracticeLedger.CleanTailNeedsPositiveClock`.
* A negative duration that rounds to zero still prints its sign: `FormatTime.NegativeZero`.
* Negative times land in the first bin without being at risk there. They make its hazard exceed one exactly
  when there are more of them than `ColdDistribution.HazardsAreProportionsIff` allows;
  `ColdDistribution.NegativeTimeBreaksHazard` is an instance.
* `PracticeTiming` resets before its result listener runs and `HyperPlayTiming` after
  (`python/spinlab/timing.py:242-247`, `:404-408`), so a listener can arm the former again but not the latter:
  `PracticeTimer.PracticeTiming.TickRearming`, `HyperPlayTimer.HyperPlayTiming.TickRearming`.

## What is taken from outside

Clock readings are parameters, monotone where a result needs them to be. Files on disk, cold save states,
connection flags, scheduler picks, event-episode ids and fetch answers are parameters of each step, so they
may differ from step to step; the scheduler's picks within one step are a finite list, at whose end it has
none. A handler between two `await`s is one step; the backend's pause and stop commands do not suspend
(`python/spinlab/retroarch/orchestrator.py:263-269`), so they belong to the step that sends them. Rows written to the database are sequences of records. Integers are unbounded, as in Python;
floating point is read as exact arithmetic. Weights in the cold panel are all one in the source, so weighted
counts are counts.

## Model

| member | source | states |
|---|---|---|
| HyperPlayTimer.HyperPlayTiming.Arm | python/spinlab/timing.py:325-344 | arming forgets everything and starts both timers at the same reading |
| HyperPlayTimer.HyperPlayTiming.ObserveEvent | python/spinlab/timing.py:346-387 | the new fields and the event sent, for deaths, aborts, checkpoints within and past the plan, exits, and every other phase |
| HyperPlayTimer.HyperPlayTiming.Tick | python/spinlab/timing.py:389-411 | a respawn shifts the start by the blackout and restarts the split; a completion is sent once and resets |
| HyperPlayTimer.HyperPlayTiming.TickRearming | python/spinlab/timing.py:402-409 | arming from the completion's listener is lost: the reset comes after it |
| HyperPlayTimer.HyperPlayTiming.ObserveRearming | python/spinlab/timing.py:358-366 | an attempt armed from a death's listener starts out dying |
| HyperPlayLedger.InputsDecide | python/spinlab/timing.py:346-411 | after every run the next input is decided by plan, phase and wall clock: a death or an exit with the goal "abort" means dying and one death event, any other exit the result, a tick a respawn or a completion once its delay is over; every event dispatched was caused by an input of its kind |
| HyperPlayLedger.WrittenEntryBalanced | python/spinlab/timing.py:352-380 | each dispatched event agrees with the observer's wall-clock books and with the death splits before it |
| HyperPlayLedger.BookKeepsConsistent | python/spinlab/timing.py:346-411 | one input at a time no earlier than the last keeps timer and books in agreement |
| HyperPlayLedger.RunConservesTime | python/spinlab/timing.py:346-411 | over every run with a monotone clock: a death's elapsed time is the sum of death splits so far, a completion's is that sum plus its own split, both are the time spent playing, and each blackout is left out exactly once |
| HyperPlayLevels.FinalizeLevel | python/spinlab/hyper_play.py:136-172 | a level plan with one loadable checkpoint state per later segment, or the first segment whose state is missing |
| HyperPlayLevels.StatesNeeded | python/spinlab/hyper_play.py:109-159 | which save state a row needs: its own at a level's start, else the cold state of its start if that is on disk, and its own if not |
| HyperPlayLevels.BuildLevels | python/spinlab/hyper_play.py:89-107 | success exactly when every needed state exists; then the levels cover the rows in order, with a new level at each entrance and nowhere else; otherwise the first row at fault |
| HyperPlayLevels.ColdStateExists | python/spinlab/hyper_play.py:117-134 | a cold state is found exactly for indices that name a segment, and it is the one that segment needs |
| HyperPlaySession.HyperPlaySession.HandleEvent | python/spinlab/hyper_play.py:249-307 | handling one queued event: what is recorded, how the index and the cold flag move, which state a death reloads, where the coroutine waits next |
| HyperPlaySession.HyperPlaySession.BeginLevel | python/spinlab/hyper_play.py:205-224 | the level loaded next, or the end of the loop |
| HyperPlaySession.HyperPlaySession.ColdStateReloaded | python/spinlab/hyper_play.py:288-296 | a reload ends with an empty queue and leaves everything else alone |
| HyperPlaySystem.PendingTaken | python/spinlab/hyper_play.py:249-307 | taking an event off the queue keeps index plus pending checkpoints within those dispatched, and nothing follows a completion |
| HyperPlaySystem.PendingDropped | python/spinlab/hyper_play.py:292-296 | so does throwing the queue, or the head of the bus, away |
| HyperPlaySystem.NextPlaced | python/spinlab/hyper_play.py:204-312 | every step of timer, bus and session keeps what may be pending where the coroutine waits |
| HyperPlaySystem.IndexAlwaysInRange | python/spinlab/hyper_play.py:117-134 | over every interleaving, drops included, the index never passes the checkpoints dispatched, names a segment, and a death finds that segment's cold state on disk |
| HyperPlayRecords.RecordsStrictlyIncrease | python/spinlab/hyper_play.py:249-306 | over every interleaving the recorded attempts name existing segments and their (level, sub-segment) indices strictly increase |
| HyperPlayTrail.NextTracked | python/spinlab/hyper_play.py:233-307 | every step of timer, bus and session keeps each dispatched event handled, lost or pending, in order, and the index and cold flag what the handled ones make them |
| HyperPlayRecords.IndexAccount | python/spinlab/hyper_play.py:249-257 | index, pending checkpoints and lost checkpoints add up to those dispatched |
| HyperPlayRecords.IndexIsRightIff | python/spinlab/hyper_play.py:249-257 | the index is the number of checkpoints before the event about to be handled exactly when none of these was lost |
| HyperPlayRecords.RecordMeasuresColdStartIff | python/spinlab/hyper_play.py:249-305 | over every interleaving: an attempt recorded measures its own sub-segment, from its cold start with no checkpoint in between, exactly when no checkpoint before it was lost; then, unless the router drops events, one is recorded exactly for a checkpoint or completion that arrives cold |
| HyperPlayRecords.SynchronousNeverLoses | python/spinlab/hyper_play.py:233-247 | delivery to a waiting session with an empty queue never loses an event |
| HyperPlayRecords.SynchronousRecordsAreCold | python/spinlab/hyper_play.py:249-305 | hence under synchronous delivery an attempt is recorded exactly for what arrives cold, and every recorded time is a cold time |
| HyperPlayDrops.DroppedCheckpointMisrecords | python/spinlab/hyper_play.py:288-296 | a run of a level that can be built in which the condition fails: a dropped checkpoint leads to a record for the wrong sub-segment |
| HyperPlayDrops.CompletionLostIff | python/spinlab/hyper_play.py:292-296 | a step loses a level's completion exactly when it drains a queue that holds it, or drops it from the bus |
| HyperPlayDrops.StalledIff | python/spinlab/hyper_play.py:233-247 | with the timer idle in a level the completion is lost or the last of the pending events; the session stalls exactly when nothing is pending and it was lost |
| HyperPlayDrops.StalledForever | python/spinlab/hyper_play.py:233-247 | over every run and every continuation: a stalled session never completes a level again |
| HyperPlayDrops.DroppedCompletionStalls | python/spinlab/hyper_play.py:288-296 | a run of a level that can be built in which a reload's drain takes the completion and the session stalls |
| HyperPlayLoop.LevelsPlayedInOrder | python/spinlab/hyper_play.py:204-224 | over every interleaving the level index is the number of completions taken, and a running, connected session loads just that level, or leaves the loop exactly when none is left |
| HyperPlayLoop.LoadArmsLevel | python/spinlab/hyper_play.py:210-231 | loading a level arms the timer with its first segment, the ordinals of its checkpoints in order and the session's delays, and the session waits cold at its first sub-segment |
| HyperPlayLoop.LoopLeftIff | python/spinlab/hyper_play.py:204-347 | over every interleaving a step leaves the loop exactly when the load failed, no level is left, or a check finds the session stopped or disconnected; the timer is then idle |
| HyperPlayLoop.EventAnswered | python/spinlab/hyper_play.py:252-307 | over every interleaving a death reloads the same sub-segment, after the blackout if there is one; a checkpoint moves to the next; a completion ends the level; a reload ends with an empty queue |
| PracticeTimer.PracticeTiming.ObserveEvent | python/spinlab/timing.py:138-172 | the new fields and the event row for each kind of event, segment end and phase, with both clock readings of a completion |
| PracticeTimer.PracticeTiming.Tick | python/spinlab/timing.py:174-183 | the result is given once, after the delay, and the timer is idle again |
| PracticeTimer.PracticeTiming.TickRearming | python/spinlab/timing.py:242-247 | arming from the result's listener stands: the reset comes before it |
| PracticeLedger.InputsDecide | python/spinlab/timing.py:138-183 | after every run the next input is decided by request, phase and wall clock: where a segment ends at a checkpoint only a checkpoint ends it, elsewhere any level exit; rows stand for deaths and completing events only; no attempt that a checkpoint ends is aborted |
| PracticeLedger.BookConsistent | python/spinlab/timing.py:138-247 | one input with a monotone clock keeps the rows, the observer's notes and the timer in agreement |
| PracticeLedger.RowsTelescope | python/spinlab/timing.py:193-212 | the times of an attempt's rows add up to the span from arming to the last row |
| PracticeLedger.RowsAgreeWithResult | python/spinlab/timing.py:138-247 | over every run: the rows are the deaths and then one survived row under one episode, and their total plus penalties falls short of the result's time, and the last row of the clean tail, by exactly the gap between the two finish readings |
| PracticeLedger.CleanTailNeedsPositiveClock | python/spinlab/timing.py:222-233 | a completed attempt has a clean tail exactly when it had no death or its last death's reading is positive |
| PracticeSession.PracticeSession.SegmentAtCursor | python/spinlab/practice.py:378-398 | from the old cursor on every entry without its file is skipped, the cursor stays on the first that has it, and picks are asked for only past the end; with none left, none of them has its file; in grind mode the pinned segment |
| PracticeSession.PracticeSession.BeginCycle | python/spinlab/practice.py:443-464 | a cycle's whole state as its load command is sent, or the end of the loop |
| PracticeSession.PracticeSession.EndCycle | python/spinlab/practice.py:482-503 | a navigation wins over a result; a result is counted once and moves the cursor once |
| PracticeSession.PracticeSession.TogglePause | python/spinlab/practice.py:303-333 | pausing and resuming touch the clock and the episode only, and only while an attempt is in flight |
| PracticeSystem.InFlightMeansLoaded | python/spinlab/practice.py:378-464 | over every interleaving: with an attempt in flight, the cursor is inside the history and the entry there is the loaded command, exactly outside grind mode |
| PracticeSystem.OneMovePerCycle | python/spinlab/practice.py:400-503 | over every interleaving: a cycle moves the cursor at most once, by one, never both by completion and by navigation |
| PracticeSystem.HistoryAppendOnly | python/spinlab/practice.py:386-391 | over every continuation of a run the history only grows at its end |
| PracticeSystem.LoadsAtCursor | python/spinlab/practice.py:378-464 | over every run a cycle that begins with the cursor on a visited entry whose state is on disk loads just that one |
| PracticeSystem.NavigationLands | python/spinlab/practice.py:404-437 | over every run the cycle after going back loads the previous entry, and after a skip the next, whatever happens in between |
| PracticeDelivery.NoLoadAtBegin | python/spinlab/dashboard.py:98-112 | over every run no resume's load is awaited as a cycle begins, and every result counted names the segment of the cycle that armed its timer |
| PracticeDelivery.ReachesArmed | python/spinlab/practice.py:436-464 | over every run, as a cycle's command is sent it has counted nothing, and what is on the bus or in the timer comes from earlier cycles |
| PracticeDelivery.CountedFromIff | python/spinlab/practice.py:228-234 | the cycles whose results an armed cycle can count over all its continuations: its own, that of the armed timer, and those on the bus, and no other |
| PracticeDelivery.CycleCountsOwnIff | python/spinlab/practice.py:228-234 | whatever happens after it is armed, a cycle counts only its own attempts if and only if the bus is empty and the timer idle as its command is sent, and only its own segment if and only if they name no other |
| PracticeDelivery.CleanDropsCountOwn | python/spinlab/practice.py:303-333 | over every run in which attempts are dropped only with their load done and no result on the bus, every result counted is of its cycle's own load and segment |
| PracticeDelivery.UncleanDropCanMiscount | python/spinlab/practice.py:303-434 | any other skip, step back or pause has a continuation in which the next cycle, even when it loads a segment new to the history, counts a result of the dropped cycle |
| PracticeDelivery.DropIsCleanIff | python/spinlab/practice.py:303-434 | after clean drops only, a drop finds its load done and the bus empty if and only if every cycle counts its own, as long as later drops are clean |
| PracticeDelivery.NextOrderly | python/spinlab/retroarch/orchestrator.py:252-269 | with clean drops, between cycles nothing is on its way, and within one at most one of a load, an armed timer and a result, and it is of the cycle's own load |
| PracticeDelivery.TallyCounts | python/spinlab/practice.py:505-537 | over every run the tally is the number of results counted, and of the completed among them |
| PracticeSystem.DisplayedIsUnpausedTime | frontend/src/route-bar.ts:66-76 | the displayed time is the unpaused time plus whatever a stop cut out of a pause; it stands still while paused and does not jump on resume; paused holds exactly with a pause mark |
| PracticeSystem.StopWhilePausedJumps | python/spinlab/practice.py:215-221 | a stop changes the displayed time exactly when it ends a pause that has lasted |
| LiveView.LiveViewModule.BeginLoad | frontend/src/live-view.ts:60-62 | a load takes the next generation, clears the interval and leaves the panels alone |
| LiveView.LiveViewModule.ResolveLoad | frontend/src/live-view.ts:73-96 | a stale load writes and starts nothing; the newest renders its answers and ticks unless frozen |
| LiveView.LiveViewModule.Destroy | frontend/src/live-view.ts:112-122 | destroying clears the interval and blanks the panels, and keeps the generation |
| LiveView.OneLiveInterval | frontend/src/live-view.ts:52-122 | over every interleaving at most one interval is live, and it is the one the module holds |
| LiveView.AnswersShown | frontend/src/live-view.ts:71-96 | over every interleaving: an older load's answers do nothing; the newest's go into its own hosts, each to its two panels, the clock is the session's end if it has one, and an interval runs afterwards exactly if not |
| LiveView.ShownDataNeverGoesBack | frontend/src/live-view.ts:71-102 | over every interleaving each write of data is by the load that was newest at that moment, into its own hosts, and neither the panels nor the route bar, ticks included, go back to an earlier load's data |
| LiveView.TickShowsNewestIff | frontend/src/live-view.ts:78-102 | over every interleaving a tick writes to the newest load's hosts, and shows the newest load's data exactly when its summary fetch answered, otherwise an earlier load's |
| LiveView.OlderDataTicks | frontend/src/live-view.ts:66-101 | a run in which a tick puts an earlier load's summary over the newest load's error note |
| LiveView.FrozenStaysQuiet | frontend/src/live-view.ts:75-95 | once the newest load resolved frozen, no interval is live until another load begins |
| LiveView.FrozenClockStands | frontend/src/live-view.ts:75-101 | once the newest load resolved frozen, the route bar's clock stands at the session's end until another load begins |
| LiveView.DestroyIsFinalUnlessLoading | frontend/src/live-view.ts:112-122 | after a destroy no interval comes back until another load begins, exactly when the newest load was not in flight |
| ReplayTrack.Parse | scripts/count_replay_frames.py:30-108 | the header's count, and the frames and checkpoint tokens of the track read from where the header says it starts; an error exactly for a file cut before that, by where it is cut |
| ReplayTrack.SkipRecord | scripts/count_replay_frames.py:59-104 | one pass reads a whole record, or breaks off where the data does, with no read past the end |
| ReplayTrack.ReadFrameSound | scripts/count_replay_frames.py:59-104 | a record read whole is an encodable frame whose encoding is just the data it was read from |
| ReplayTrack.ReadFrameComplete | scripts/count_replay_frames.py:8-12 | an encoded frame is read back, whatever follows it |
| ReplayTrack.CountIsLongestPrefix | scripts/count_replay_frames.py:14-15 | for any data, the count is the length of the longest frame sequence it starts with |
| ReplayTrack.EveryCutWithin | scripts/count_replay_frames.py:14-15 | every cut of a track lies after some number of whole frames and within the next, or at the end |
| ReplayTrack.CutTrackCountsWholeFrames | scripts/count_replay_frames.py:14-15 | of a track cut after k whole frames exactly these are read |
| ReplayTrack.CutFileCounts | scripts/count_replay_frames.py:53-108 | what is reported of every encoded file cut at any point of its track: the seventh header word, the frames wholly before the cut, and their checkpoints plus the exact extra one; uncut, all of them |
| ReplayTrack.CheckpointsOvercountByMark | scripts/count_replay_frames.py:85-100 | the checkpoint count exceeds the whole checkpoint frames, by one, exactly when the cut frame is a checkpoint frame cut after its token |
| ColdFill.ColdFillController.Start | python/spinlab/capture/cold_fill.py:37-53 | starting with gaps replaces the queue and loads the first row that has its file |
| ColdFill.ColdFillController.LoadNext | python/spinlab/capture/cold_fill.py:55-92 | rows without a file are dropped up to the first that has one, which becomes current |
| ColdFill.ColdFillController.HandleSpawn | python/spinlab/capture/cold_fill.py:94-132 | an ignored, failed or successful spawn: queue, retry counts, stored state and answer |
| ColdFillRuns.NextSound | python/spinlab/capture/cold_fill.py:37-166 | every handler keeps a current segment exactly with a non-empty queue, its head, and settled plus queued rows equal to the gaps in order |
| ColdFillRuns.RunConserves | python/spinlab/capture/cold_fill.py:37-183 | over every run: captured, skipped, missing and queued rows add up to the total, and progress stays within it |
| ColdFillRuns.CapturesSaveOwnIff | python/spinlab/capture/cold_fill.py:102-124 | over every run: each capture writes its row's own waypoint, and saves its row's own segment exactly when its spawn named no other; then the saved segments are a subsequence of the gaps, without repetition if the gaps have none |
| ColdFillRuns.LateSpawnMisfiled | python/spinlab/capture/cold_fill.py:102-124 | a run in which a late spawn saves the skipped segment and is stored for the current one |
| ColdFillRuns.DoneIffDrained | python/spinlab/capture/cold_fill.py:125-132 | a successful spawn reports done exactly when it drains the queue, unless more rows were queued and none has its file |
| ColdFillRuns.RetriesCounted | python/spinlab/capture/cold_fill.py:102-119 | over every run a retry counter is the number of failed saves of its segment since it last succeeded, was skipped or all was given up |
| Broadcaster.OfferKeepsLatest | python/spinlab/sse.py:45-56 | a push keeps the queue on the latest states, the new one last, and drops one only when full |
| Broadcaster.SSEBroadcaster.Unsubscribe | python/spinlab/sse.py:26-30 | one subscription is removed if there is one, nothing else changes |
| Broadcaster.SSEBroadcaster.Broadcast | python/spinlab/sse.py:40-62 | every subscriber gets the state as if alone, and no subscriber is dropped as dead |
| Broadcaster.QueueHoldsLatestBroadcasts | python/spinlab/sse.py:21-62 | after any mix of broadcasts and reads a queue holds exactly the last broadcasts, newest included, within its bound; read, dropped and held add up; reads keep the order |
| ColdDistribution.BinCountMeets | python/spinlab/cold_distribution.py:50-54 | the bin count stays in 5..20 and reaches k exactly beyond (k-1) squared events |
| ColdDistribution.GridOf | python/spinlab/cold_distribution.py:76-83 | the axis is the least whole number of seconds, one at least, that holds every event |
| ColdDistribution.AxisRoot | python/spinlab/cold_distribution.py:50-54 | the axis has as many bins as the root of the number of events, rounded up, within 5 and 20 |
| ColdDistribution.BinOfReached | python/spinlab/cold_distribution.py:97-105 | landing in bin i or later is having lived to the start of bin i |
| ColdDistribution.Compute | python/spinlab/cold_distribution.py:57-186 | an error exactly for no events; otherwise the bins, at-risk counts, hazards, means, variance and death rates of the whole list |
| ColdDistribution.BinsCount | python/spinlab/cold_distribution.py:85-162 | each bin is an equal stretch of the axis and counts the events of either outcome within it, those that lived to its start, and the deaths' share of these |
| ColdDistribution.TotalsCount | python/spinlab/cold_distribution.py:164-177 | mean times per outcome, the share of events that are deaths and the share of episodes that have one |
| ColdDistribution.TimesCount | python/spinlab/cold_distribution.py:130-150 | the times summed up for an outcome are those of its events, as often as they occur |
| ColdDistribution.EveryEventOnce | python/spinlab/cold_distribution.py:130-143 | every event is counted in exactly one bin |
| ColdDistribution.AtRiskDrops | python/spinlab/cold_distribution.py:153-162 | the at-risk count falls from bin to bin by exactly what landed, corrected for negative times |
| ColdDistribution.BinsAccount | python/spinlab/cold_distribution.py:153-162 | at-risk starts at n exactly when no time is negative; then it drops by what lands in each bin; a hazard is undefined exactly when nobody is at risk |
| ColdDistribution.HazardsAreProportionsIff | python/spinlab/cold_distribution.py:153-162 | every hazard lies in [0, 1] exactly when all times are negative or the negative ones are at most the completions in the first bin and the events past it; so whenever no time is negative |
| ColdDistribution.HazardsGiveSurvival | python/spinlab/cold_distribution.py:153-162 | with deaths only, the product of one less the hazards is the share still running |
| ColdDistribution.VarianceIsMeanSpread | python/spinlab/cold_distribution.py:189-205 | the variance is the mean squared distance from the mean, so its clamp never acts |
| ColdDistribution.NegativeTimeBreaksHazard | python/spinlab/cold_distribution.py:153-162 | an instance of the other case: two deaths, one at a negative time, give a hazard of two |
| FiniteDiffHessian.Hessian | python/spinlab/_segments_v07/inference.py:43-59 | for any function the matrix holds the central differences and is symmetric |
| FiniteDiffHessian.StepSignIrrelevant | python/spinlab/_segments_v07/inference.py:43-59 | for any function every entry is central: the sign of the step does not matter |
| FiniteDiffHessian.QuadraticHessianExact | python/spinlab/_segments_v07/inference.py:43-59 | for any quadratic, dimension and non-zero step every entry is A plus its transpose |
| Simpson.WeightsArePanels | python/spinlab/_segments_v07/learning_model_v07_jax.py:109-117 | the weights 1, 4, 2, ..., 4, 1 are parabola panels laid end to end |
| Simpson.SimpsonExactOnCubics | python/spinlab/_segments_v07/learning_model_v07_jax.py:109-141 | even point counts are refused; for odd ones from three on and any interval every cubic is integrated exactly |
| Simpson.FourthPowerExcess | python/spinlab/_segments_v07/learning_model_v07_jax.py:109-141 | for every odd point count and interval it overshoots the fourth power's integral by 2/15 of the width times the spacing to the fourth, so it is exact there only for width zero |
| PaddedLikelihood.MaskedIsPrefix | python/spinlab/_segments_v07/learning_model_v07_jax.py:280-311 | the masked sum is the plain sum of the first valid_n attempts, whatever the padding |
| PaddedLikelihood.BucketIsLeast | python/spinlab/_segments_v07/learning_model_v07_jax.py:328-330 | the bucket is the least multiple of the base that holds the data |
| PaddedLikelihood.PaddingIsInert | python/spinlab/_segments_v07/learning_model_v07_jax.py:333-343 | padding fails exactly when the target is too small, and otherwise the padded likelihood is the unpadded one |
| PaddedLikelihood.BucketedAgrees | python/spinlab/_segments_v07/learning_model_v07_jax.py:280-343 | any data padded to its bucket is accepted and scores as before |
| PaddedLikelihood.ImpossibleIff | python/spinlab/_segments_v07/learning_model_v07_jax.py:187-192 | the sum is minus infinity exactly when some attempt's score is |
| PaddedLikelihood.PossibleIsTotal | python/spinlab/_segments_v07/learning_model_v07_jax.py:187-192 | otherwise it is the sum of the attempts' scores, numbered from one |
| Binning.Finalize | python/spinlab/_segments_v07/binning.py:20-31 | the loop keeps what the greedy rule keeps of the sorted list, between 0 and 1 |
| Binning.FinalizedEdges | python/spinlab/_segments_v07/binning.py:20-31 | edges rise strictly from 0 to 1, inner bins have the minimum width, every edge kept was requested, and no requested edge is lost by more than the width |
| Binning.WideIff | python/spinlab/_segments_v07/binning.py:8-9 | every bin has the minimum width exactly when no requested edge is that close to 0, and each one that close to 1 is less than the width above the last edge kept before that stretch |
| Binning.NarrowFirstBin | python/spinlab/_segments_v07/binning.py:25-31 | any single requested edge that close to 0 makes a narrow first bin |
| Binning.UniformEdges | python/spinlab/_segments_v07/binning.py:34-38 | bins of equal width, refused below one bin |
| PiecewiseHazard.Cum | python/spinlab/_segments_v07/hazard.py:85-92 | the loop adds up each bin's share |
| PiecewiseHazard.RateInBin | python/spinlab/_segments_v07/hazard.py:77-83 | inside a bin, right edge included, the rate is that bin's |
| PiecewiseHazard.CumMonotone | python/spinlab/_segments_v07/hazard.py:85-92 | zero up to 0, and never falling for non-negative rates |
| PiecewiseHazard.CumIntegratesRate | python/spinlab/_segments_v07/hazard.py:77-92 | inside a bin it grows by the rate times the distance |
| PiecewiseHazard.CumIsTheIntegral | python/spinlab/_segments_v07/hazard.py:33-39 | on [0, 1] a function is the integral of the rate from 0 exactly when it agrees with the cumulative hazard |
| PiecewiseHazard.PickedHazardIntegrates | python/spinlab/_segments_v07/hazard.py:65-92 | any edges a picker makes are accepted, and the cumulative hazard on them is the integral of the rate |
| PiecewiseHazard.FlatOutside | python/spinlab/_segments_v07/hazard.py:82-87 | outside [0, 1] the rate is zero and the cumulative hazard constant |
| FormatTime.Split | frontend/src/format.ts:51-58 | every count of tenths carries into fields in range that add up to it |
| FormatTime.FormatTime | frontend/src/format.ts:47-66 | the successive divisions print that carrying of the once-rounded duration with its sign, or a dash for none |
| FormatTime.Layout | frontend/src/format.ts:37-65 | the largest field in use without a leading zero, every field below it as two digits, one digit of tenths |
| FormatTime.RenderReadBack | frontend/src/format.ts:60-65 | reading a printed duration gives back its sign and its exact tenths |
| FormatTime.PrintedAlikeIff | frontend/src/format.ts:37-66 | two durations print alike exactly when sign and rounded tenths agree |
| FormatTime.TextsAlikeIff | frontend/src/format.ts:47-66 | so with missing durations too: these print alike, and like no duration |
| FormatTime.RoundedOnce | frontend/src/format.ts:50 | the tenths are the nearest, a half upwards |
| FormatTime.NegativeZero | frontend/src/format.ts:49-65 | a small negative duration prints as "-0.0s", zero as "0.0s" |

## Left out

- Callbacks that call back into a timer, other than to arm it: events are dispatched to a queue.
- Emulator, network, HTTP routes, database queries, CLI and process handling: I/O.
- SessionManager's mode transitions: only the delivery, or the dropping, of timer events is modelled.
- Event rows on the practice bus, and a second session on the same bus: results alone decide what a cycle counts.
- Timeouts of awaited events and their log counters, labels, descriptions, expected-time totals and the science flag: no effect on what is proved.
- DOM and chart rendering: a write to a panel is a record of what was written where.
- Optimizers, automatic differentiation, Beta-mixture and lognormal densities: transcendental functions; the score of one attempt is a parameter of the padding proof, and the integrand one of the quadrature.
- `quantile`, `kde_valleys` and `_kmeans_1d` in `binning.py`: only what `_finalize` makes of their edges.
- ColdDistribution.Compute: gives the variance instead of its square root and leaves out the log moments.
- PiecewiseHazard.RateInBin: is about edges the pickers produce; the constructor accepts unsorted edges, for which the binary search has no stated meaning.
- FormatTime.FormatTime: durations are finite and exact; JavaScript prints day counts from 10^21 on in exponent form.
- ReplayTrack.Parse: the header's other fields are only printed by the source and are not modelled.
- Floating-point rounding throughout.
