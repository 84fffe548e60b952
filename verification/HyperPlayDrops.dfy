/** What the queue drain after a death reload can cost: runs in which it drops an event that matters. */
module HyperPlayDrops {
  import opened Wrappers
  import opened Protocol
  import opened HyperPlayTimer
  import opened HyperPlayLedger
  import opened HyperPlayLevels
  import opened HyperPlaySession
  import opened HyperPlaySystem
  import opened HyperPlayTrail
  import opened HyperPlayRecords

  lemma Extend(start: System, schedule: seq<Action>, a: Action, here: System)
    requires Possible(start, schedule) && After(start, schedule) == here && Enabled(here, a)
    ensures Possible(start, schedule + [a]) && After(start, schedule + [a]) == Next(here, a)
  {
    assert (schedule + [a])[..|schedule|] == schedule;
  }

  const ROW := Row("a", ENTRANCE, 0, None, Some("a.state"))
  const NEXT_ROW := Row("b", "checkpoint", 1, None, Some("b.state"))
  const LAST_ROW := Row("c", "checkpoint", 2, None, Some("c.state"))
  const LEVEL := LevelPlan("a.state", [ROW, NEXT_ROW, LAST_ROW],
                           [CheckpointState(1, "b.state"), CheckpointState(2, "c.state")])
  const WORLD := World({"a.state", "b.state", "c.state"}, map[])

  /** The level is on its first sub-segment: nothing recorded, both checkpoints ahead. */
  predicate OnFirstSub(s: System) {
    && s.session.isRunning && s.session.levels == [LEVEL] && s.session.currentLevelIndex == 0
    && s.session.deathDelayMs == 0 && s.session.currentSubIndex == 0 && s.session.coldSince
    && s.session.recorded == [] && s.session.levelsCompleted == 0
    && s.bus == [] && s.session.queue == []
    && s.ledger.timer.listening && |s.ledger.timer.ordinals| == 2 && s.ledger.timer.cpIndex == 0
    && s.ledger.timer.deathDelayMs == 0 && s.ledger.timer.autoAdvanceDelayMs == 0
  }

  lemma {:induction false} LevelPlaying() returns (schedule: seq<Action>, s: System)
    ensures Possible(Initial([LEVEL], 0, 0), schedule) && After(Initial([LEVEL], 0, 0), schedule) == s
    ensures OnFirstSub(s) && s.session.at == Waiting
    ensures s.ledger.timer.phase == Playing && s.ledger.timer.startMs == 0 == s.ledger.timer.splitMs
    ensures s.ledger.lastAt == 0 && s.ledger.log == [] && s.trail == NO_TRAIL
  {
    var start := Initial([LEVEL], 0, 0);
    assert Possible(start, []) && After(start, []) == start;
    hide Possible, After;
    schedule := [];
    var s1 := Next(start, Start);
    Extend(start, schedule, Start, start);
    schedule := schedule + [Start];
    var s2 := Next(s1, Begin(true));
    Extend(start, schedule, Begin(true), s1);
    schedule := schedule + [Begin(true)];
    s := Next(s2, LoadDone(0));
    Extend(start, schedule, LoadDone(0), s2);
    schedule := schedule + [LoadDone(0)];
  }

  /** The first death has been dispatched at 1 and delivered. */
  lemma DeathDelivered() returns (schedule: seq<Action>, s: System)
    ensures Possible(Initial([LEVEL], 0, 0), schedule) && After(Initial([LEVEL], 0, 0), schedule) == s
    ensures OnFirstSub(s.(session := s.session.(queue := []))) && s.session.at == Waiting
    ensures s.session.queue == [HyperDeath(1, 1)]
    ensures s.ledger.timer.phase == Dying && s.ledger.timer.startMs == 0 && s.ledger.timer.deathStartedMs == 1
    ensures s.ledger.lastAt == 1 && |s.ledger.log| == 1 && s.trail == NO_TRAIL.(pending := [0])
  {
    var start := Initial([LEVEL], 0, 0);
    hide Possible, After;
    var s1;
    schedule, s1 := LevelPlaying();
    var s2 := Next(s1, Game(Death, 1));
    Extend(start, schedule, Game(Death, 1), s1);
    schedule := schedule + [Game(Death, 1)];
    s := Next(s2, Deliver);
    Extend(start, schedule, Deliver, s2);
    schedule := schedule + [Deliver];
  }

  /** A death is being answered by a reload when play has already resumed at 2. */
  lemma {:induction false} ReloadingAfterDeath() returns (schedule: seq<Action>, s: System)
    ensures Possible(Initial([LEVEL], 0, 0), schedule) && After(Initial([LEVEL], 0, 0), schedule) == s
    ensures OnFirstSub(s) && s.session.at == Reloading
    ensures s.ledger.timer.phase == Playing && s.ledger.timer.startMs == 1 && s.ledger.timer.splitMs == 2
    ensures s.ledger.lastAt == 2 && s.ledger.passed == 0 && |s.ledger.log| == 1
    ensures s.trail == NO_TRAIL.(handledAt := {0}, lastHandled := Some(0))
  {
    var start := Initial([LEVEL], 0, 0);
    hide Possible, After;
    var s1;
    schedule, s1 := DeathDelivered();
    var s2 := Next(s1, Handle(true));
    Extend(start, schedule, Handle(true), s1);
    schedule := schedule + [Handle(true)];
    s := Next(s2, Action.Tick(2));
    Extend(start, schedule, Action.Tick(2), s2);
    schedule := schedule + [Action.Tick(2)];
  }

  /** An event dispatched during the reload reaches the queue and is then dropped. */
  lemma DroppedDuringReload(start: System, schedule: seq<Action>, s: System) returns (longer: seq<Action>, next: System)
    requires Possible(start, schedule) && After(start, schedule) == s
    requires s.session.at == Reloading && s.session.queue == [] && |s.bus| == 1
    ensures Possible(start, longer) && After(start, longer) == next
    ensures next == s.(bus := [], session := s.session.(at := Waiting), trail := Drained(s.trail, 1))
  {
    var s1 := Next(s, Deliver);
    Extend(start, schedule, Deliver, s);
    next := Next(s1, ReloadDone);
    Extend(start, schedule + [Deliver], ReloadDone, s1);
    longer := schedule + [Deliver] + [ReloadDone];
  }

  lemma CheckpointSent(s: System)
    requires OnFirstSub(s) && s.session.at == Reloading
    requires s.ledger.timer.phase == Playing && s.ledger.lastAt == 2 && s.ledger.passed == 0 && |s.ledger.log| == 1
    requires s.trail == NO_TRAIL.(handledAt := {0}, lastHandled := Some(0))
    ensures var next := Next(s, Game(Checkpoint, 5));
            && next.session == s.session && |next.bus| == 1 && next.trail == s.trail.(pending := [1])
            && next.ledger.timer.phase == Playing && next.ledger.timer.listening && next.ledger.lastAt == 5
            && next.ledger.timer.cpIndex == 1 && |next.ledger.timer.ordinals| == 2 && next.ledger.passed == 1
            && |next.ledger.log| == 2 && next.ledger.log[1].event.HyperCheckpoint?
  {
  }

  /** The first checkpoint is lost and the second lies ahead. */
  predicate BeforeMisrecord(s: System) {
    && s.session.isRunning && s.session.levels == [LEVEL] && s.session.currentLevelIndex == 0
    && s.session.at == Waiting && s.session.currentSubIndex == 0 && s.session.coldSince
    && s.bus == [] && s.session.queue == [] && s.trail.pending == [] && 1 in s.trail.lostAt
    && s.ledger.timer.phase == Playing && s.ledger.timer.listening && s.ledger.lastAt == 5
    && s.ledger.timer.cpIndex == 1 && |s.ledger.timer.ordinals| == 2 && s.ledger.passed == 1
    && |s.ledger.log| == 2 && s.ledger.log[1].event.HyperCheckpoint?
  }

  /** A checkpoint dispatched during the reload is lost; play goes on towards the next one. */
  lemma CheckpointLost() returns (schedule: seq<Action>, s: System)
    ensures Possible(Initial([LEVEL], 0, 0), schedule) && After(Initial([LEVEL], 0, 0), schedule) == s
    ensures BeforeMisrecord(s)
  {
    var start := Initial([LEVEL], 0, 0);
    var before, s0 := ReloadingAfterDeath();
    var s1 := Next(s0, Game(Checkpoint, 5));
    Extend(start, before, Game(Checkpoint, 5), s0);
    CheckpointSent(s0);
    hide Next;
    schedule, s := DroppedDuringReload(start, before + [Game(Checkpoint, 5)], s1);
    assert s1.trail.pending[0] in s.trail.lostAt;
  }

  /** The next event is recorded for sub-segment 0 although a checkpoint before it was dispatched. */
  predicate Misrecords(s: System) {
    && s.trail.pending == [2] && |s.ledger.log| == 3 && !NoCheckpointLost(s, 2)
    && Enabled(s, Handle(true)) && s.session.queue == [s.ledger.log[2].event]
    && Addition(s, true) != [] && Addition(s, true)[0].sub == 0 && s.ledger.log[2].passed == 1
  }

  lemma NextCheckpointMisrecords(s: System)
    requires BeforeMisrecord(s)
    ensures var s1 := Next(s, Game(Checkpoint, 9));
            s1.bus != [] && Misrecords(Next(s1, Deliver))
  {
    var next := Next(Next(s, Game(Checkpoint, 9)), Deliver);
    AdditionIs(next, true);
    assert next.ledger.log[1].event.HyperCheckpoint?;
  }

  lemma MisrecordEnabled(s: System)
    requires BeforeMisrecord(s)
    ensures Enabled(s, Game(Checkpoint, 9))
    ensures Next(s, Game(Checkpoint, 9)).bus != [] ==> Enabled(Next(s, Game(Checkpoint, 9)), Deliver)
  {
  }

  /** The condition fails in some run: a checkpoint is dropped, and then an attempt is recorded for the wrong
      sub-segment. */
  lemma {:induction false} DroppedCheckpointMisrecords()
    ensures Grouped([LEVEL], WORLD)
    ensures exists schedule: seq<Action> ::
              Possible(Initial([LEVEL], 0, 0), schedule) && Misrecords(After(Initial([LEVEL], 0, 0), schedule))
  {
    hide Misrecords, BeforeMisrecord, After, Possible;
    var start := Initial([LEVEL], 0, 0);
    var schedule, s := CheckpointLost();
    MisrecordEnabled(s);
    NextCheckpointMisrecords(s);
    hide Next, Enabled;
    Extend(start, schedule, Game(Checkpoint, 9), s);
    Extend(start, schedule + [Game(Checkpoint, 9)], Deliver, Next(s, Game(Checkpoint, 9)));
    assert Possible(start, schedule + [Game(Checkpoint, 9)] + [Deliver]);
  }

  /** The session waits for an event that no timer will send any more. */
  predicate Stalled(s: System) {
    Idling(s) && s.ledger.timer.phase == Idle
  }

  /** The level's completion was dispatched and thrown away. */
  predicate CompletionLost(s: System) {
    Playable(s) && AfterCompletion(s.ledger.log) && |s.ledger.log| - 1 in s.trail.lostAt
  }

  /** With the timer idle in a level, the completion is either lost or the last of the pending events; so the
      session stalls exactly when nothing is pending and the completion was lost. */
  lemma {:induction false} StalledIff(s: System)
    requires Playable(s) && Sound(s) && Tracked(s)
    ensures s.ledger.timer.phase == Idle ==>
              var pending := s.session.queue + s.bus;
              !CompletionLost(s) <==> pending != [] && pending[|pending| - 1].HyperComplete?
    ensures Stalled(s) <==> Idling(s) && CompletionLost(s)
  {
    hide Counted, LossesBehind, Balanced, PendingFits;
    var t, log := s.trail, s.ledger.log;
    if s.ledger.timer.phase == Idle {
      var last := |log| - 1;
      assert last !in t.handledAt;
      if last in t.pending {
        var i :| 0 <= i < |t.pending| && t.pending[i] == last;
        assert t.pending[|t.pending| - 1] <= last;
        assert i == |t.pending| - 1;
      } else {
        assert last in t.lostAt;
        var pending := s.session.queue + s.bus;
        if pending != [] && pending[|pending| - 1].HyperComplete? {
          var p := t.pending[|pending| - 1];
          assert log[p].event.HyperComplete? && p < last;
          CompletionIsLast(s.ledger, p);
        }
      }
    }
  }

  lemma DropLosesCompletion(s: System)
    requires Playable(s) && Sound(s) && Tracked(s) && s.bus != [] && !CompletionLost(s)
    ensures CompletionLost(Next(s, DropDelivery)) <==> s.bus[0].HyperComplete?
  {
    hide Counted, LossesBehind, Balanced, PendingFits;
    var events, n := s.session.queue + s.bus, |s.session.queue|;
    assert events[n] == s.bus[0] && s.trail.pending[n] < |s.ledger.log|;
    if s.bus[0].HyperComplete? {
      CompletionIsLast(s.ledger, s.trail.pending[n]);
    }
  }

  lemma HandlingLosesNothing(s: System, connected: bool)
    requires Playable(s) && !CompletionLost(s) && Enabled(s, Handle(connected))
    ensures !CompletionLost(Next(s, Handle(connected)))
  {
    hide Handled;
    HandledSession(s.session, connected);
  }

  lemma OthersLoseNothing(s: System, a: Action)
    requires Playable(s) && !CompletionLost(s) && Enabled(s, a)
    requires !a.Game? && !a.Tick? && !a.Handle? && !a.DropDelivery? && !a.ReloadDone?
    ensures !CompletionLost(Next(s, a))
  {
  }

  lemma DrainedLoses(t: Trail, n: nat, p: nat)
    requires n <= |t.pending|
    ensures p in Drained(t, n).lostAt <==> p in t.lostAt || p in t.pending[..n]
  {
    if p in t.pending[..n] {
      var i :| 0 <= i < n && t.pending[..n][i] == p;
      assert t.pending[i] == p;
    }
  }

  /** A queued event is the completion exactly when its place is the log's last. */
  lemma QueuedCompletion(s: System)
    requires Followed(s.trail, s.ledger.log, s.session.queue + s.bus) && AfterCompletion(s.ledger.log)
    requires Balanced(s.ledger.log, s.ledger.plan, s.ledger.armedAt)
    ensures |s.session.queue| <= |s.trail.pending|
    ensures |s.ledger.log| - 1 in s.trail.pending[..|s.session.queue|]
       <==> exists i :: 0 <= i < |s.session.queue| && s.session.queue[i].HyperComplete?
  {
    hide Balanced, Partitioned;
    var t, log, n := s.trail, s.ledger.log, |s.session.queue|;
    forall i | 0 <= i < n
      ensures s.session.queue[i].HyperComplete? <==> t.pending[..n][i] == |log| - 1
    {
      assert (s.session.queue + s.bus)[i] == s.session.queue[i] == log[t.pending[i]].event;
      if s.session.queue[i].HyperComplete? {
        CompletionIsLast(s.ledger, t.pending[i]);
      }
    }
  }

  lemma DrainLosesCompletion(s: System, queued: bool)
    requires s.session.at == Reloading && !CompletionLost(s) && AfterCompletion(s.ledger.log)
    requires |s.session.queue| <= |s.trail.pending|
    requires queued <==> |s.ledger.log| - 1 in s.trail.pending[..|s.session.queue|]
    ensures CompletionLost(Next(s, ReloadDone)) <==> queued
  {
    DrainedLoses(s.trail, |s.session.queue|, |s.ledger.log| - 1);
    hide Drained, AfterCompletion;
  }

  lemma SentNotLost(s: System, input: Input, at: int)
    requires Playable(s) && Sound(s) && Tracked(s) && (input.Observe? || input.Tick?) && !CompletionLost(s)
    ensures !CompletionLost(Fed(s, input, at))
  {
    hide Counted, LossesBehind, Balanced, PendingFits, InStep;
    if Step(s.ledger.timer, input, at).1 != [] {
      FedGrows(s, input, at);
      hide Fed;
    } else {
      assert Fed(s, input, at).ledger.log == s.ledger.log;
    }
  }

  /** Before the completion is dispatched it is not in the queue either. */
  lemma NoneToLose(s: System)
    requires s.session.at == Reloading && !AfterCompletion(s.ledger.log)
    requires Followed(s.trail, s.ledger.log, s.session.queue + s.bus)
    requires Balanced(s.ledger.log, s.ledger.plan, s.ledger.armedAt)
    ensures !CompletionLost(Next(s, ReloadDone))
    ensures forall i :: 0 <= i < |s.session.queue| ==> !s.session.queue[i].HyperComplete?
  {
    hide Balanced, Partitioned;
    forall i | 0 <= i < |s.session.queue|
      ensures !s.session.queue[i].HyperComplete?
    {
      assert (s.session.queue + s.bus)[i] == s.session.queue[i];
      if s.session.queue[i].HyperComplete? {
        CompletionIsLast(s.ledger, s.trail.pending[i]);
        assert false;
      }
    }
  }

  /** Exactly the drain of a queue that holds the completion, or a drop of it by the router, loses it. */
  lemma {:induction false} CompletionLostIff(s: System, a: Action)
    requires Playable(s) && Sound(s) && Tracked(s) && Enabled(s, a) && !CompletionLost(s)
    ensures CompletionLost(Next(s, a))
       <==> || (a.ReloadDone? && exists i :: 0 <= i < |s.session.queue| && s.session.queue[i].HyperComplete?)
            || (a.DropDelivery? && s.bus[0].HyperComplete?)
  {
    match a
    case ReloadDone =>
      if AfterCompletion(s.ledger.log) {
        QueuedCompletion(s);
        DrainLosesCompletion(s, |s.ledger.log| - 1 in s.trail.pending[..|s.session.queue|]);
      } else {
        NoneToLose(s);
      }
    case DropDelivery => DropLosesCompletion(s);
    case Handle(connected) => HandlingLosesNothing(s, connected);
    case Game(event, at) => SentNotLost(s, Observe(event), at);
    case Tick(at) => SentNotLost(s, Input.Tick, at);
    case _ => OthersLoseNothing(s, a);
  }

  lemma IdleSendsNothing(s: System, input: Input, at: int)
    requires CompletionLost(s) && Consistent(s.ledger) && (input.Observe? || input.Tick?)
    ensures CompletionLost(Fed(s, input, at)) && Fed(s, input, at).session == s.session
  {
    hide Balanced, InStep;
    assert s.ledger.timer.phase == Idle;
  }

  lemma HeadNotCompletion(s: System)
    requires CompletionLost(s) && Sound(s) && Tracked(s) && s.session.queue != []
    ensures !s.session.queue[0].HyperComplete?
  {
    hide Counted, LossesBehind, Unfinished, Balanced, PendingFits;
    var events := s.session.queue + s.bus;
    HeadLocated(s.trail, s.ledger.log, events);
    assert events[0] == s.session.queue[0];
    if s.session.queue[0].HyperComplete? {
      CompletionIsLast(s.ledger, s.trail.pending[0]);
      assert false;
    }
  }

  lemma StillLost(s: System, next: System)
    requires CompletionLost(s) && next.session.at in {Waiting, Sleeping, Reloading, Finished}
    requires next.trail.lostAt == s.trail.lostAt && (next.session.at != Finished ==> next.ledger == s.ledger)
    ensures CompletionLost(next) || next.session.at == Finished
  {
  }

  lemma TookLosesNothing(t: Trail)
    ensures Took(t).lostAt == t.lostAt
  {
  }

  lemma HandleFrame(s: System, connected: bool)
    requires Enabled(s, Handle(connected))
    ensures var next := Next(s, Handle(connected));
            && next.session == Handled(s.session, connected) && next.trail == Took(s.trail)
            && (next.session.at != Finished ==> next.ledger == s.ledger)
  {
    hide Handled, Book, Took;
  }

  lemma HandledStaysLost(s: System, connected: bool)
    requires CompletionLost(s) && Enabled(s, Handle(connected)) && !s.session.queue[0].HyperComplete?
    ensures var next := Next(s, Handle(connected));
            && (CompletionLost(next) || next.session.at == Finished)
            && next.session.levelsCompleted == s.session.levelsCompleted
  {
    HandleFrame(s, connected);
    TookLosesNothing(s.trail);
    HandledSession(s.session, connected);
    hide Handled, Took, Next, CompletionLost;
    StillLost(s, Next(s, Handle(connected)));
  }

  lemma OtherStaysLost(s: System, a: Action)
    requires CompletionLost(s) && Enabled(s, a) && !a.Game? && !a.Tick? && !a.Handle?
    ensures CompletionLost(Next(s, a)) || Next(s, a).session.at == Finished
    ensures Next(s, a).session.levelsCompleted == s.session.levelsCompleted
  {
  }

  /** A level whose completion was lost is never completed: no step completes one, and the loss stays. */
  lemma LostStaysLost(s: System, a: Action)
    requires CompletionLost(s) && Sound(s) && Tracked(s) && Enabled(s, a)
    ensures CompletionLost(Next(s, a)) || Next(s, a).session.at == Finished
    ensures Next(s, a).session.levelsCompleted == s.session.levelsCompleted
  {
    match a
    case Game(event, at) => IdleSendsNothing(s, Observe(event), at);
    case Tick(at) => IdleSendsNothing(s, Input.Tick, at);
    case Handle(connected) =>
      HeadNotCompletion(s);
      HandledStaysLost(s, connected);
    case _ => OtherStaysLost(s, a);
  }

  lemma FinishedStays(s: System, a: Action)
    requires s.session.at == Finished && Enabled(s, a)
    ensures Next(s, a).session.at == Finished && Next(s, a).session.levelsCompleted == s.session.levelsCompleted
  {
  }

  /** Over every continuation of a run, once the completion was lost no level is ever completed again. */
  lemma {:induction false} LostCompletionEndsProgress(start: System, schedule: seq<Action>)
    requires CompletionLost(start) && Sound(start) && Tracked(start) && Possible(start, schedule)
    ensures After(start, schedule).session.levelsCompleted == start.session.levelsCompleted
    ensures CompletionLost(After(start, schedule)) || After(start, schedule).session.at == Finished
  {
    hide CompletionLost, Sound, Tracked, Next, Enabled;
    if schedule != [] {
      var earlier, a := schedule[..|schedule| - 1], schedule[|schedule| - 1];
      LostCompletionEndsProgress(start, earlier);
      var s := After(start, earlier);
      if s.session.at == Finished {
        FinishedStays(s, a);
      } else {
        ReachableSound(start, earlier);
        ReachableTracked(start, earlier);
        LostStaysLost(s, a);
      }
    }
  }

  /** Over every run: a session stalls exactly when it waits with nothing pending after its level's completion
      was thrown away, and from then on, in every continuation, it completes no level. */
  lemma {:induction false} StalledForever(levels: seq<LevelPlan>, deathDelayMs: int, autoAdvanceDelayMs: int,
                                          before: seq<Action>, after: seq<Action>)
    requires Possible(Initial(levels, deathDelayMs, autoAdvanceDelayMs), before)
    requires Possible(After(Initial(levels, deathDelayMs, autoAdvanceDelayMs), before), after)
    ensures var s := After(Initial(levels, deathDelayMs, autoAdvanceDelayMs), before);
            && (Stalled(s) <==> Idling(s) && CompletionLost(s))
            && (Stalled(s) ==> After(s, after).session.levelsCompleted == s.session.levelsCompleted)
  {
    hide CompletionLost, Sound, Tracked;
    var start := Initial(levels, deathDelayMs, autoAdvanceDelayMs);
    InitialSound(levels, deathDelayMs, autoAdvanceDelayMs);
    ReachableSound(start, before);
    ReachableTracked(start, before);
    var s := After(start, before);
    if Playable(s) {
      StalledIff(s);
      if Stalled(s) {
        LostCompletionEndsProgress(s, after);
      }
    }
  }

  /** The level's completion is dispatched while the reload is awaited. */
  lemma CompletedDuringReload() returns (schedule: seq<Action>, s: System)
    ensures Possible(Initial([LEVEL], 0, 0), schedule) && After(Initial([LEVEL], 0, 0), schedule) == s
    ensures s.session.at == Reloading && s.session.queue == [] && |s.bus| == 1
    ensures s.ledger.timer.phase == Idle && s.session.levelsCompleted == 0
    ensures |s.ledger.log| == 2 && s.ledger.log[1].event == HyperComplete(9, 8) && s.trail.pending == [1]
  {
    var start := Initial([LEVEL], 0, 0);
    hide Possible, After;
    var exit := Game(LevelExit("goal"), 10);
    var s0;
    schedule, s0 := ReloadingAfterDeath();
    var s1 := Next(s0, exit);
    Extend(start, schedule, exit, s0);
    schedule := schedule + [exit];
    s := Next(s1, Action.Tick(11));
    Extend(start, schedule, Action.Tick(11), s1);
    schedule := schedule + [Action.Tick(11)];
  }

  /** The condition is met in some run: a completion that lands while a death reload is awaited is dropped,
      and the session stalls. */
  lemma {:induction false} DroppedCompletionStalls()
    ensures Grouped([LEVEL], WORLD)
    ensures exists schedule: seq<Action> ::
              && Possible(Initial([LEVEL], 0, 0), schedule)
              && Stalled(After(Initial([LEVEL], 0, 0), schedule))
              && CompletionLost(After(Initial([LEVEL], 0, 0), schedule))
  {
    hide Next, Possible, After;
    var start := Initial([LEVEL], 0, 0);
    var schedule, s := CompletedDuringReload();
    var longer, next := DroppedDuringReload(start, schedule, s);
    assert s.trail.pending[0] in next.trail.lostAt;
    assert Stalled(After(start, longer)) && CompletionLost(After(start, longer));
  }
}
