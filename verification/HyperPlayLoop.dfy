/** The session's way through its levels: which level it plays next, when it sleeps or reloads, and when it
    leaves the loop. */
module HyperPlayLoop {
  import opened Wrappers
  import opened HyperPlayTimer
  import opened HyperPlayLedger
  import opened HyperPlayLevels
  import opened HyperPlaySession
  import opened HyperPlaySystem
  import opened HyperPlayTrail
  import opened HyperPlayRecords

  predicate TakesCompletion(s: System, a: Action)
    requires Enabled(s, a)
  {
    a.Handle? && s.session.queue[0].HyperComplete?
  }

  /** How many level completions the session has taken from its queue. */
  function CompletionsTaken(start: System, schedule: seq<Action>): nat
    requires Possible(start, schedule)
  {
    if schedule == [] then 0
    else
      var before := schedule[..|schedule| - 1];
      CompletionsTaken(start, before)
      + if TakesCompletion(After(start, before), schedule[|schedule| - 1]) then 1 else 0
  }

  /** Only a completion moves the session on, by one level. */
  lemma {:induction false} LevelStep(s: System, a: Action)
    requires Enabled(s, a)
    ensures var taken := if TakesCompletion(s, a) then 1 else 0;
            && Next(s, a).session.levelsCompleted == s.session.levelsCompleted + taken
            && Next(s, a).session.currentLevelIndex == s.session.currentLevelIndex + taken
            && (taken == 1 ==> s.session.currentLevelIndex < |s.session.levels|)
  {
    hide Book, Step;
  }

  lemma KeepsDelays(s: System, a: Action)
    requires Enabled(s, a)
    ensures Next(s, a).session.deathDelayMs == s.session.deathDelayMs
    ensures Next(s, a).session.autoAdvanceDelayMs == s.session.autoAdvanceDelayMs
  {
    hide Book, Step;
    if a.Handle? {
      hide Handled;
      HandledSession(s.session, a.connected);
    }
  }

  lemma {:induction false} LevelsCounted(levels: seq<LevelPlan>, deathDelayMs: int, autoAdvanceDelayMs: int,
                                         schedule: seq<Action>)
    requires Possible(Initial(levels, deathDelayMs, autoAdvanceDelayMs), schedule)
    ensures var start := Initial(levels, deathDelayMs, autoAdvanceDelayMs); var s := After(start, schedule).session;
            && s.levels == levels && s.deathDelayMs == deathDelayMs && s.autoAdvanceDelayMs == autoAdvanceDelayMs
            && s.levelsCompleted == s.currentLevelIndex == CompletionsTaken(start, schedule) <= |levels|
  {
    hide Next, Enabled, TakesCompletion;
    if schedule != [] {
      var start, earlier, a :=
        Initial(levels, deathDelayMs, autoAdvanceDelayMs), schedule[..|schedule| - 1], schedule[|schedule| - 1];
      LevelsCounted(levels, deathDelayMs, autoAdvanceDelayMs, earlier);
      LevelStep(After(start, earlier), a);
      KeepsLevels(After(start, earlier), a);
      KeepsDelays(After(start, earlier), a);
    }
  }

  /** Levels are played in order, one after the other, over every interleaving: the session stands at the level
      after those whose completions it has taken; at the top of the loop a running, connected session loads
      just that level, and leaves the loop exactly when none is left. */
  lemma {:induction false} LevelsPlayedInOrder(levels: seq<LevelPlan>, deathDelayMs: int, autoAdvanceDelayMs: int,
                                               schedule: seq<Action>, connected: bool)
    requires Possible(Initial(levels, deathDelayMs, autoAdvanceDelayMs), schedule)
    ensures var start := Initial(levels, deathDelayMs, autoAdvanceDelayMs); var s := After(start, schedule);
            var done := CompletionsTaken(start, schedule);
            && s.session.levelsCompleted == s.session.currentLevelIndex == done <= |levels|
            && (Enabled(s, Begin(connected)) ==>
                  var next := Next(s, Begin(connected)).session;
                  if s.session.isRunning && connected && done < |levels|
                  then next.at == Loading && next.InLevel() && next.Level() == levels[done]
                  else next.at == Finished && !next.isRunning)
  {
    LevelsCounted(levels, deathDelayMs, autoAdvanceDelayMs, schedule);
    hide Possible, After, CompletionsTaken, Book;
  }

  /** What loading the level arms the timer with: the level's first segment, the ordinals of its checkpoints in
      order, and the session's own delays. */
  lemma {:induction false} LoadArmsLevel(levels: seq<LevelPlan>, deathDelayMs: int, autoAdvanceDelayMs: int,
                                         schedule: seq<Action>, at: int, world: World)
    requires Grouped(levels, world)
    requires Possible(Initial(levels, deathDelayMs, autoAdvanceDelayMs), schedule)
    requires Enabled(After(Initial(levels, deathDelayMs, autoAdvanceDelayMs), schedule), LoadDone(at))
    ensures var start := Initial(levels, deathDelayMs, autoAdvanceDelayMs); var s := After(start, schedule);
            var done := CompletionsTaken(start, schedule); var next := Next(s, LoadDone(at));
            && done < |levels|
            && var plan, segments := next.ledger.plan, levels[done].segments;
               && |segments| > 0 && |plan.ordinals| == |segments| - 1
               && plan.segmentId == segments[0].id && plan.listening
               && plan.deathDelayMs == deathDelayMs && plan.autoAdvanceDelayMs == autoAdvanceDelayMs
               && (forall k :: 1 <= k < |segments| ==> plan.ordinals[k - 1] == Some(segments[k].startOrdinal))
               && next.ledger.timer.phase == Playing && next.ledger.armedAt == at && next.ledger.log == []
               && next.session.at == Waiting && next.session.coldSince && next.session.currentSubIndex == 0
  {
    LevelsCounted(levels, deathDelayMs, autoAdvanceDelayMs, schedule);
    hide Possible, After, CompletionsTaken, Loadable, NeededState;
    var done := CompletionsTaken(Initial(levels, deathDelayMs, autoAdvanceDelayMs), schedule);
    assert WellPlanned(levels[done], world);
  }

  /** Outside the loop the timer is idle and the session has stopped. */
  predicate OutOfLoop(s: System) {
    s.session.at == Finished ==> s.ledger.timer.phase == Idle && !s.session.isRunning
  }

  lemma NextOutOfLoop(s: System, a: Action)
    requires OutOfLoop(s) && Enabled(s, a)
    ensures OutOfLoop(Next(s, a))
  {
  }

  lemma {:induction false} ReachableOutOfLoop(start: System, schedule: seq<Action>)
    requires OutOfLoop(start) && Possible(start, schedule)
    ensures OutOfLoop(After(start, schedule))
  {
    hide OutOfLoop, Next, Enabled;
    if schedule != [] {
      ReachableOutOfLoop(start, schedule[..|schedule| - 1]);
      NextOutOfLoop(After(start, schedule[..|schedule| - 1]), schedule[|schedule| - 1]);
    }
  }

  /** The checks at which a session that was stopped, or has lost its backend, leaves the loop: at the top, at the
      head of the level's loop, after the blackout, and right before a reload without one. */
  predicate Checks(s: Session, a: Action, connected: bool) {
    match a
    case Begin(c) => c == connected
    case CheckHead(c) => c == connected
    case Wake(c) => c == connected
    case Handle(c) => c == connected && s.queue != [] && s.queue[0].HyperDeath? && s.deathDelayMs <= 0
    case _ => false
  }

  /** Inside a level, the cold state of the present sub-segment exists. */
  predicate CanReload(s: Session) {
    s.at in {Waiting, Sleeping, Reloading} ==> s.InLevel() && ColdStateForSubIndex(s.Level(), s.currentSubIndex).Some?
  }

  predicate Leaves(s: System, a: Action) {
    || s.session.at == Finished || a.LoadFailed?
    || (a.Begin? && s.session.levelsCompleted == |s.session.levels|)
    || Checks(s.session, a, false) || (Checks(s.session, a, true) && !s.session.isRunning)
  }

  lemma LeavesStep(s: System, a: Action)
    requires CanReload(s.session) && Enabled(s, a)
    requires s.session.levelsCompleted == s.session.currentLevelIndex <= |s.session.levels|
    ensures Next(s, a).session.at == Finished <==> Leaves(s, a)
  {
    hide Book, Step, ColdStateForSubIndex, Recorded, ArmingPlan;
  }

  /** Everything that the two theorems below need of a reachable state. */
  lemma {:induction false} Reached(levels: seq<LevelPlan>, deathDelayMs: int, autoAdvanceDelayMs: int,
                                   schedule: seq<Action>, world: World)
    requires Grouped(levels, world)
    requires Possible(Initial(levels, deathDelayMs, autoAdvanceDelayMs), schedule)
    ensures var s := After(Initial(levels, deathDelayMs, autoAdvanceDelayMs), schedule);
            && CanReload(s.session) && OutOfLoop(s)
            && s.session.levels == levels && s.session.deathDelayMs == deathDelayMs
            && s.session.levelsCompleted == s.session.currentLevelIndex <= |levels|
  {
    LevelsCounted(levels, deathDelayMs, autoAdvanceDelayMs, schedule);
    ReachableOutOfLoop(Initial(levels, deathDelayMs, autoAdvanceDelayMs), schedule);
    IndexAlwaysInRange(levels, deathDelayMs, autoAdvanceDelayMs, schedule, world);
    hide Possible, After, CompletionsTaken, Grouped, ColdStateForSubIndex, NeededState, OutOfLoop;
  }

  /** Over every interleaving, a step leaves the loop exactly when the load failed, the last level is over, or one
      of the checks finds the session stopped or disconnected; the timer is then idle. */
  lemma {:induction false} LoopLeftIff(levels: seq<LevelPlan>, deathDelayMs: int, autoAdvanceDelayMs: int,
                                       schedule: seq<Action>, a: Action, world: World)
    requires Grouped(levels, world)
    requires Possible(Initial(levels, deathDelayMs, autoAdvanceDelayMs), schedule)
    requires Enabled(After(Initial(levels, deathDelayMs, autoAdvanceDelayMs), schedule), a)
    ensures var s := After(Initial(levels, deathDelayMs, autoAdvanceDelayMs), schedule); var next := Next(s, a);
            && OutOfLoop(next) && s.session.levels == levels
            && (next.session.at == Finished <==> Leaves(s, a))
  {
    Reached(levels, deathDelayMs, autoAdvanceDelayMs, schedule, world);
    hide *;
    var s := After(Initial(levels, deathDelayMs, autoAdvanceDelayMs), schedule);
    NextOutOfLoop(s, a);
    LeavesStep(s, a);
  }

  /** How an event moves the session: a death makes it cold at the same sub-segment and has that segment's start
      reloaded, after the blackout if there is one; a checkpoint makes it wait on at the next; a completion ends
      the level. */
  predicate Answers(here: Session, next: Session, event: HyperEvent, connected: bool) {
    match event
    case HyperDeath(_, _) =>
      && next.coldSince && next.currentSubIndex == here.currentSubIndex
      && next.at == if here.deathDelayMs > 0 then Sleeping
                    else if here.isRunning && connected then Reloading else Finished
    case HyperCheckpoint(_, _, _) =>
      !next.coldSince && next.currentSubIndex == here.currentSubIndex + 1 && next.at == Waiting
    case HyperComplete(_, _) => next.at == BetweenLevels
  }

  lemma AnswerStep(s: System, connected: bool)
    requires CanReload(s.session) && Enabled(s, Handle(connected))
    ensures var next := Next(s, Handle(connected)).session;
            next.queue == s.session.queue[1..] && Answers(s.session, next, s.session.queue[0], connected)
  {
    hide Book, ColdStateForSubIndex, Recorded;
  }

  lemma ReloadStep(s: System, connected: bool)
    ensures Enabled(s, Wake(connected)) && s.session.isRunning && connected ==>
              Next(s, Wake(connected)).session == s.session.(at := Reloading)
    ensures Enabled(s, ReloadDone) ==> Next(s, ReloadDone).session == s.session.(at := Waiting, queue := [])
    ensures !Next(s, Action.Stop).session.isRunning
  {
    hide Book;
  }

  /** What the session does about an event, over every interleaving: it takes just that one and answers it; and a
      reload ends with an empty queue. */
  lemma {:induction false} EventAnswered(levels: seq<LevelPlan>, deathDelayMs: int, autoAdvanceDelayMs: int,
                                         schedule: seq<Action>, connected: bool, world: World)
    requires Grouped(levels, world)
    requires Possible(Initial(levels, deathDelayMs, autoAdvanceDelayMs), schedule)
    ensures var s := After(Initial(levels, deathDelayMs, autoAdvanceDelayMs), schedule); var here := s.session;
            && (Enabled(s, Handle(connected)) ==>
                  && here.queue != []
                  && var next := Next(s, Handle(connected)).session;
                     next.queue == here.queue[1..] && Answers(here, next, here.queue[0], connected))
            && (Enabled(s, Wake(connected)) && here.isRunning && connected ==>
                  Next(s, Wake(connected)).session == here.(at := Reloading))
            && (Enabled(s, ReloadDone) ==> Next(s, ReloadDone).session == here.(at := Waiting, queue := []))
            && !Next(s, Stop).session.isRunning
  {
    Reached(levels, deathDelayMs, autoAdvanceDelayMs, schedule, world);
    var s := After(Initial(levels, deathDelayMs, autoAdvanceDelayMs), schedule);
    assert Enabled(s, Handle(connected)) ==> s.session.queue != [];
    hide *;
    ReloadStep(s, connected);
    if Enabled(s, Handle(connected)) {
      AnswerStep(s, connected);
    }
  }
}
