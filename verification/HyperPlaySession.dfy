/** The session coroutine that plays levels in order and records cold attempts, cut at its awaits. */
module HyperPlaySession {
  import opened Wrappers
  import opened HyperPlayTimer
  import opened HyperPlayLevels

  /** Where the coroutine is suspended. */
  datatype Await =
    | BetweenLevels  // about to play the next level
    | Loading        // awaiting the level's load command
    | Waiting        // awaiting the next event of the queue
    | Sleeping       // awaiting the end of the death blackout
    | Reloading      // awaiting the reload of a cold state
    | Finished       // the loop has been left

  /** A row of the attempts table, beside the level and sub-segment index it was written from. */
  datatype Record = Record(level: nat, sub: nat, segmentId: string, timeMs: int)

  datatype Session = Session(
    levels: seq<LevelPlan>,
    deathDelayMs: int,
    autoAdvanceDelayMs: int,
    isRunning: bool,
    currentLevelIndex: nat,
    levelsCompleted: nat,
    queue: seq<HyperEvent>,
    at: Await,
    currentSubIndex: nat,
    coldSince: bool,
    recorded: seq<Record>)
  {
    predicate InLevel() {
      at in {Loading, Waiting, Sleeping, Reloading} && currentLevelIndex < |levels|
    }

    function Level(): LevelPlan
      requires InLevel()
    {
      levels[currentLevelIndex]
    }
  }

  function Created(levels: seq<LevelPlan>, deathDelayMs: int, autoAdvanceDelayMs: int): Session {
    Session(levels, deathDelayMs, autoAdvanceDelayMs, false, 0, 0, [], BetweenLevels, 0, true, [])
  }

  function Recorded(s: Session, timeMs: int): seq<Record>
    requires s.InLevel()
  {
    if s.coldSince && s.currentSubIndex < |s.Level().segments| then
      s.recorded + [Record(s.currentLevelIndex, s.currentSubIndex, s.Level().segments[s.currentSubIndex].id, timeMs)]
    else s.recorded
  }

  /** The run loop's check, then either the next level's load command or the end. */
  function Begun(s: Session, connected: bool): Session
    requires s.at == BetweenLevels
  {
    if s.isRunning && connected && s.currentLevelIndex < |s.levels| then s.(at := Loading)
    else s.(at := Finished, isRunning := false)
  }

  function Loaded(s: Session): Session
    requires s.at == Loading
  {
    s.(at := Waiting, coldSince := true, currentSubIndex := 0)
  }

  /** Leaving the loop stops the session. */
  function HeadChecked(s: Session, connected: bool): Session {
    if s.isRunning && connected then s else s.(at := Finished, isRunning := false)
  }

  function Handled(s: Session, connected: bool): Session
    requires s.at == Waiting && s.InLevel() && s.queue != []
  {
    var event := s.queue[0];
    var rest := s.(queue := s.queue[1..]);
    match event
    case HyperCheckpoint(_, _, splitMs) =>
      rest.(recorded := Recorded(s, splitMs), currentSubIndex := s.currentSubIndex + 1, coldSince := false)
    case HyperDeath(_, _) =>
      var dead := rest.(coldSince := true);
      if ColdStateForSubIndex(s.Level(), s.currentSubIndex).None? then dead
      else if s.deathDelayMs > 0 then dead.(at := Sleeping)
      else HeadChecked(dead.(at := Reloading), connected)
    case HyperComplete(_, splitMs) =>
      rest.(recorded := Recorded(s, splitMs), levelsCompleted := s.levelsCompleted + 1,
            currentLevelIndex := s.currentLevelIndex + 1, at := BetweenLevels)
  }

  function Woken(s: Session, connected: bool): Session
    requires s.at == Sleeping
  {
    HeadChecked(s.(at := Reloading), connected)
  }

  /** Whether or not the reload succeeded, what landed in the queue meanwhile is dropped. */
  function Reloaded(s: Session): Session
    requires s.at == Reloading
  {
    s.(queue := [], at := Waiting)
  }

  class HyperPlaySession {
    const levels: seq<LevelPlan>
    const deathDelayMs: int
    const autoAdvanceDelayMs: int
    var isRunning: bool
    var currentLevelIndex: nat
    var levelsCompleted: nat
    var eventQueue: seq<HyperEvent>
    var await: Await
    var currentSubIndex: nat
    var coldSince: bool
    var attempts: seq<Record>

    function View(): Session
      reads this
    {
      Session(levels, deathDelayMs, autoAdvanceDelayMs, isRunning, currentLevelIndex, levelsCompleted, eventQueue,
              await, currentSubIndex, coldSince, attempts)
    }

    constructor (levels: seq<LevelPlan>, deathDelayMs: int, autoAdvanceDelayMs: int)
      ensures View() == Created(levels, deathDelayMs, autoAdvanceDelayMs)
    {
      this.levels, this.deathDelayMs, this.autoAdvanceDelayMs := levels, deathDelayMs, autoAdvanceDelayMs;
      isRunning, currentLevelIndex, levelsCompleted, eventQueue := false, 0, 0, [];
      await, currentSubIndex, coldSince, attempts := BetweenLevels, 0, true, [];
    }

    method Start()
      modifies this
      ensures View() == old(View()).(isRunning := true, currentLevelIndex := 0)
    {
      isRunning := true;
      currentLevelIndex := 0;
    }

    method Receive(event: HyperEvent)
      modifies this
      ensures View() == old(View()).(queue := old(eventQueue) + [event])
    {
      eventQueue := eventQueue + [event];
    }

    /** Resume at the top of the run loop; the result is the state to load and the level's plan. */
    method BeginLevel(connected: bool) returns (command: Option<LevelPlan>)
      requires await == BetweenLevels
      modifies this
      ensures View() == Begun(old(View()), connected)
      ensures command == if await == Loading then Some(levels[currentLevelIndex]) else None
    {
      command := None;
      if !isRunning || !connected || currentLevelIndex >= |levels| {
        Finish();
        return;
      }
      command := Some(levels[currentLevelIndex]);
      await := Loading;
    }

    method LevelLoaded()
      requires await == Loading
      modifies this
      ensures View() == Loaded(old(View()))
    {
      coldSince := true;
      currentSubIndex := 0;
      await := Waiting;
    }

    method CheckHead(connected: bool)
      modifies this
      ensures View() == HeadChecked(old(View()), connected)
    {
      if !isRunning || !connected {
        Finish();
      }
    }

    /** Resume with the next queued event; the result is the cold state to reload, if any. */
    method HandleEvent(connected: bool) returns (reload: Option<string>)
      requires await == Waiting && currentLevelIndex < |levels| && eventQueue != []
      modifies this
      ensures View() == Handled(old(View()), connected)
      ensures reload.Some? <==> await in {Sleeping, Reloading}
      ensures reload.Some? ==> reload == ColdStateForSubIndex(levels[currentLevelIndex], currentSubIndex)
    {
      reload := None;
      var event := eventQueue[0];
      eventQueue := eventQueue[1..];
      match event
      case HyperCheckpoint(_, _, splitMs) =>
        if coldSince && currentSubIndex < |levels[currentLevelIndex].segments| {
          RecordAttempt(splitMs);
        }
        currentSubIndex := currentSubIndex + 1;
        coldSince := false;
      case HyperDeath(_, _) =>
        coldSince := true;
        var coldState := ColdStateForSubIndex(levels[currentLevelIndex], currentSubIndex);
        if coldState.Some? {
          if deathDelayMs > 0 {
            await := Sleeping;
          } else {
            await := Reloading;
            CheckHead(connected);
          }
          if await != Finished {
            reload := coldState;
          }
        }
      case HyperComplete(_, splitMs) =>
        if coldSince && currentSubIndex < |levels[currentLevelIndex].segments| {
          RecordAttempt(splitMs);
        }
        levelsCompleted := levelsCompleted + 1;
        currentLevelIndex := currentLevelIndex + 1;
        await := BetweenLevels;
    }

    method WakeFromBlackout(connected: bool)
      requires await == Sleeping
      modifies this
      ensures View() == Woken(old(View()), connected)
    {
      await := Reloading;
      CheckHead(connected);
    }

    method ColdStateReloaded()
      requires await == Reloading
      modifies this
      ensures View() == Reloaded(old(View()))
    {
      while eventQueue != []
        decreases |eventQueue|
        invariant View() == old(View()).(queue := eventQueue)
      {
        eventQueue := eventQueue[1..];
      }
      await := Waiting;
    }

    method Stop()
      modifies this
      ensures View() == old(View()).(isRunning := false)
    {
      isRunning := false;
    }

    method RecordAttempt(timeMs: int)
      requires currentLevelIndex < |levels| && currentSubIndex < |levels[currentLevelIndex].segments|
      modifies this
      ensures View() == old(View().(recorded := attempts + [Record(currentLevelIndex, currentSubIndex,
                                      levels[currentLevelIndex].segments[currentSubIndex].id, timeMs)]))
    {
      attempts := attempts + [Record(currentLevelIndex, currentSubIndex,
                                     levels[currentLevelIndex].segments[currentSubIndex].id, timeMs)];
    }

    method Finish()
      modifies this
      ensures View() == old(View()).(at := Finished, isRunning := false)
    {
      isRunning := false;
      await := Finished;
    }
  }
}
