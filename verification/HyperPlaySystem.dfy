/** Timer, event bus and session together, over every interleaving of their steps. */
module HyperPlaySystem {
  import opened Wrappers
  import opened Protocol
  import opened HyperPlayTimer
  import opened HyperPlayLedger
  import opened HyperPlayLevels
  import opened HyperPlaySession

  /** The backend's bus is FIFO; the router moves its head to the session's queue, or drops it when the
      mode has changed. The trail is the observer's. */
  datatype System = System(
    ledger: Ledger,
    bus: seq<HyperEvent>,
    session: Session,
    trail: Trail)

  /** Where the events dispatched in this level have gone, by their places in the log: on their way to the
      session, in order; processed by it, and which of them last; or thrown away unprocessed. `dropped` says
      whether the router threw any away. */
  datatype Trail = Trail(pending: seq<nat>, handledAt: set<nat>, lastHandled: Option<nat>,
                         lostAt: set<nat>, dropped: bool)

  const NO_TRAIL := Trail([], {}, None, {}, false)

  function Sent(t: Trail, sent: seq<HyperEvent>, place: nat): Trail {
    if sent == [] then t else t.(pending := t.pending + [place])
  }

  /** The session takes the first pending event. */
  function Took(t: Trail): Trail {
    if t.pending == [] then t
    else t.(pending := t.pending[1..], handledAt := t.handledAt + {t.pending[0]}, lastHandled := Some(t.pending[0]))
  }

  /** The first `n` pending events are thrown away. */
  function Drained(t: Trail, n: nat): Trail {
    if n > |t.pending| then t
    else t.(pending := t.pending[n..], lostAt := t.lostAt + set i | 0 <= i < n :: t.pending[i])
  }

  function Without<T>(items: seq<T>, n: nat): seq<T>
    requires n < |items|
  {
    items[..n] + items[n + 1..]
  }

  /** The router throws the n-th pending event away. */
  function DroppedAt(t: Trail, n: nat): Trail {
    if n >= |t.pending| then t.(dropped := true)
    else t.(pending := Without(t.pending, n), lostAt := t.lostAt + {t.pending[n]}, dropped := true)
  }

  datatype Action =
    | Game(event: GameEvent, at: int)
    | Tick(at: int)
    | Deliver
    | DropDelivery
    | Start
    | Begin(connected: bool)
    | LoadDone(at: int)
    | LoadFailed
    | Handle(connected: bool)
    | Wake(connected: bool)
    | ReloadDone
    | CheckHead(connected: bool)
    | Stop

  /** The clock is monotone while an attempt is timed. */
  predicate InTime(l: Ledger, at: int) {
    l.timer.phase != Idle ==> l.lastAt <= at
  }

  predicate Enabled(s: System, a: Action) {
    match a
    case Game(_, at) => InTime(s.ledger, at)
    case Tick(at) => InTime(s.ledger, at)
    case Deliver => s.bus != []
    case DropDelivery => s.bus != []
    case Start => s.session.at == BetweenLevels && s.session.currentLevelIndex == 0
    case Begin(_) => s.session.at == BetweenLevels
    case LoadDone(_) => s.session.at == Loading && s.session.InLevel()
    case LoadFailed => s.session.at == Loading
    case Handle(_) => s.session.at == Waiting && s.session.InLevel() && s.session.queue != []
    case Wake(_) => s.session.at == Sleeping
    case ReloadDone => s.session.at == Reloading
    case CheckHead(_) => s.session.at == Waiting
    case Stop => true
  }

  /** What a level's load command arms the timer with. */
  function ArmingPlan(level: LevelPlan, deathDelayMs: int, autoAdvanceDelayMs: int): Plan {
    Plan(if level.segments == [] then "" else level.segments[0].id,
         seq(|level.checkpoints|, k requires 0 <= k < |level.checkpoints| => Some(level.checkpoints[k].ordinal)),
         true, deathDelayMs, autoAdvanceDelayMs)
  }

  function SessionPlan(s: Session): Plan
    requires s.InLevel()
  {
    ArmingPlan(s.Level(), s.deathDelayMs, s.autoAdvanceDelayMs)
  }

  function Fed(s: System, input: Input, at: int): System {
    var sent := Step(s.ledger.timer, input, at).1;
    s.(ledger := Book(s.ledger, Timed(input, at)), bus := s.bus + sent, trail := Sent(s.trail, sent, |s.ledger.log|))
  }

  /** Leaving the loop disarms the timer. */
  function Settled(s: System): System {
    if s.session.at == Finished then s.(ledger := Book(s.ledger, Timed(Disarm, s.ledger.lastAt))) else s
  }

  function Next(s: System, a: Action): System
    requires Enabled(s, a)
  {
    match a
    case Game(event, at) => Fed(s, Observe(event), at)
    case Tick(at) => Fed(s, Input.Tick, at)
    case Deliver => s.(bus := s.bus[1..], session := s.session.(queue := s.session.queue + [s.bus[0]]))
    case DropDelivery => s.(bus := s.bus[1..], trail := DroppedAt(s.trail, |s.session.queue|))
    case Start => s.(session := s.session.(isRunning := true, currentLevelIndex := 0))
    case Begin(connected) => Settled(s.(session := Begun(s.session, connected)))
    case LoadDone(at) =>
      System(Book(s.ledger, Timed(Arm(SessionPlan(s.session)), at)), s.bus, Loaded(s.session), NO_TRAIL)
    case LoadFailed => Settled(s.(session := s.session.(at := Finished, isRunning := false)))
    case Handle(connected) =>
      Settled(s.(session := Handled(s.session, connected), trail := Took(s.trail)))
    case Wake(connected) => Settled(s.(session := Woken(s.session, connected)))
    case ReloadDone => s.(session := Reloaded(s.session), trail := Drained(s.trail, |s.session.queue|))
    case CheckHead(connected) => Settled(s.(session := HeadChecked(s.session, connected)))
    case Stop => s.(session := s.session.(isRunning := false))
  }

  function Initial(levels: seq<LevelPlan>, deathDelayMs: int, autoAdvanceDelayMs: int): System {
    System(OPENING, [], Created(levels, deathDelayMs, autoAdvanceDelayMs), NO_TRAIL)
  }

  /** The state after a schedule; the schedule must be one the coroutine's awaits allow. */
  predicate Possible(start: System, schedule: seq<Action>)
    decreases |schedule|, 0
  {
    schedule == [] ||
    (Possible(start, schedule[..|schedule| - 1])
     && Enabled(After(start, schedule[..|schedule| - 1]), schedule[|schedule| - 1]))
  }

  function After(start: System, schedule: seq<Action>): System
    requires Possible(start, schedule)
    decreases |schedule|, 1
  {
    if schedule == [] then start
    else Next(After(start, schedule[..|schedule| - 1]), schedule[|schedule| - 1])
  }

  function Passed(events: seq<HyperEvent>): nat {
    if events == [] then 0 else (if events[0].HyperCheckpoint? then 1 else 0) + Passed(events[1..])
  }

  lemma {:induction false} PassedConcat(a: seq<HyperEvent>, b: seq<HyperEvent>)
    ensures Passed(a + b) == Passed(a) + Passed(b)
  {
    if a == [] {
      assert a + b == b;
    } else {
      assert (a + b)[1..] == a[1..] + b;
      PassedConcat(a[1..], b);
    }
  }

  predicate Playable(s: System) {
    s.session.at in {Waiting, Sleeping, Reloading}
  }

  /** A completion is the last event of its level: nothing follows it and the timer is idle. */
  predicate CompletionLast(pending: seq<HyperEvent>, phase: Phase) {
    forall i :: 0 <= i < |pending| && pending[i].HyperComplete? ==> i == |pending| - 1 && phase == Idle
  }

  /** The events still on their way to a session at index `sub`, when `dispatched` checkpoints were sent. */
  predicate PendingFits(pending: seq<HyperEvent>, sub: nat, dispatched: nat, phase: Phase) {
    sub + Passed(pending) <= dispatched && CompletionLast(pending, phase)
  }

  lemma PendingGrows(pending: seq<HyperEvent>, sent: seq<HyperEvent>, sub: nat, dispatched: nat,
                     before: Phase, after: Phase)
    requires PendingFits(pending, sub, dispatched, before)
    requires before == Idle ==> sent == [] && after == Idle
    requires |sent| <= 1 && (sent != [] && sent[0].HyperComplete? ==> after == Idle)
    ensures PendingFits(pending + sent, sub, dispatched + Passed(sent), after)
  {
    PassedConcat(pending, sent);
    forall i | 0 <= i < |pending + sent| && (pending + sent)[i].HyperComplete?
      ensures i == |pending + sent| - 1 && after == Idle
    {
      if i < |pending| {
        assert pending[i].HyperComplete?;
      }
    }
  }

  /** The session takes the first pending event. */
  lemma PendingTaken(queue: seq<HyperEvent>, bus: seq<HyperEvent>, sub: nat, dispatched: nat, phase: Phase)
    requires queue != [] && PendingFits(queue + bus, sub, dispatched, phase)
    ensures PendingFits(queue[1..] + bus, sub + if queue[0].HyperCheckpoint? then 1 else 0, dispatched, phase)
    ensures queue[0].HyperComplete? ==> queue[1..] == [] && bus == [] && phase == Idle
  {
    var pending := queue + bus;
    var rest := queue[1..] + bus;
    assert pending == [queue[0]] + rest && pending[0] == queue[0];
    PassedConcat([queue[0]], rest);
    forall i | 0 <= i < |rest| && rest[i].HyperComplete?
      ensures i == |rest| - 1 && phase == Idle
    {
      assert pending[i + 1] == rest[i];
    }
  }

  /** Pending events are thrown away: the whole queue, or the bus's head. */
  lemma PendingDropped(queue: seq<HyperEvent>, bus: seq<HyperEvent>, sub: nat, dispatched: nat, phase: Phase)
    requires PendingFits(queue + bus, sub, dispatched, phase)
    ensures PendingFits([] + bus, sub, dispatched, phase)
    ensures bus != [] ==> PendingFits(queue + bus[1..], sub, dispatched, phase)
  {
    var pending := queue + bus;
    PassedConcat(queue, bus);
    assert [] + bus == bus;
    forall i | 0 <= i < |bus| && bus[i].HyperComplete?
      ensures i == |bus| - 1 && phase == Idle
    {
      assert pending[|queue| + i] == bus[i];
    }
    if bus != [] {
      var rest := queue + bus[1..];
      PassedConcat([bus[0]], bus[1..]);
      assert [bus[0]] + bus[1..] == bus;
      PassedConcat(queue, bus[1..]);
      forall i | 0 <= i < |rest| && rest[i].HyperComplete?
        ensures i == |rest| - 1 && phase == Idle
      {
        var p := if i < |queue| then i else i + 1;
        assert pending[p] == rest[i];
      }
    }
  }

  /** Where the coroutine is suspended decides what may be pending. */
  predicate Placed(s: System) {
    && (s.session.at in {BetweenLevels, Loading} ==>
          s.bus == [] && s.session.queue == [] && s.ledger.timer.phase == Idle)
    && (s.session.at == Loading ==> s.session.InLevel())
    && (Playable(s) ==>
          && s.session.InLevel()
          && s.ledger.plan == SessionPlan(s.session)
          && PendingFits(s.session.queue + s.bus, s.session.currentSubIndex, Checkpoints(s.ledger.log),
                         s.ledger.timer.phase))
  }

  /** What one input other than arming does to the timer's phase and to the count of checkpoints. */
  lemma BookCounts(l: Ledger, i: Timed)
    requires !i.input.Arm?
    ensures var sent := Step(l.timer, i.input, i.at).1;
            && |sent| <= 1
            && Checkpoints(Book(l, i).log) == Checkpoints(l.log) + Passed(sent)
            && (l.timer.phase == Idle ==> sent == [] && Book(l, i).timer.phase == Idle)
            && (sent != [] && sent[0].HyperComplete? ==> Book(l, i).timer.phase == Idle)
            && Book(l, i).plan == l.plan
  {
    if Step(l.timer, i.input, i.at).1 != [] {
      var e := Book(l, i).log[|l.log|];
      assert Book(l, i).log == l.log + [e];
      Appended(l.log, e);
    }
  }

  lemma FedPlaced(s: System, input: Input, at: int)
    requires Placed(s)
    requires input.Observe? || input.Tick?
    ensures Placed(Fed(s, input, at))
  {
    BookCounts(s.ledger, Timed(input, at));
    var fed := Fed(s, input, at);
    var sent := Step(s.ledger.timer, input, at).1;
    if Playable(s) {
      PendingGrows(s.session.queue + s.bus, sent, s.session.currentSubIndex, Checkpoints(s.ledger.log),
                   s.ledger.timer.phase, fed.ledger.timer.phase);
      assert fed.session.queue + fed.bus == (s.session.queue + s.bus) + sent;
    }
  }

  lemma SettledPlaced(s: System)
    requires s.session.at != Finished ==> Placed(s)
    ensures Placed(Settled(s))
    ensures Settled(s).session == s.session
  {
  }

  /** The session's side of handling one event: what moves, and where the coroutine goes next. */
  lemma HandledSession(s: Session, connected: bool)
    requires s.at == Waiting && s.InLevel() && s.queue != []
    ensures var next := Handled(s, connected); var event := s.queue[0];
            && next.levels == s.levels && next.deathDelayMs == s.deathDelayMs
            && next.autoAdvanceDelayMs == s.autoAdvanceDelayMs && next.queue == s.queue[1..]
            && (event.HyperComplete? ==> next.at == BetweenLevels)
            && (!event.HyperComplete? ==>
                  && next.currentLevelIndex == s.currentLevelIndex
                  && next.currentSubIndex == s.currentSubIndex + (if event.HyperCheckpoint? then 1 else 0)
                  && next.coldSince == event.HyperDeath?
                  && (next.at in {Sleeping, Reloading} ==> event.HyperDeath?)
                  && next.levelsCompleted == s.levelsCompleted
                  && next.at in {Waiting, Sleeping, Reloading, Finished})
  {
  }

  lemma HandledPlaced(s: System, connected: bool)
    requires Placed(s) && Enabled(s, Handle(connected))
    ensures Placed(Next(s, Handle(connected)))
    ensures Next(s, Handle(connected)).session.levels == s.session.levels
  {
    PendingTaken(s.session.queue, s.bus, s.session.currentSubIndex, Checkpoints(s.ledger.log), s.ledger.timer.phase);
    HandledSession(s.session, connected);
    var handled := s.(session := Handled(s.session, connected), trail := Took(s.trail));
    if handled.session.at in {Waiting, Sleeping, Reloading} {
      assert SessionPlan(handled.session) == SessionPlan(s.session);
    }
    assert handled.session.at != Finished ==> Placed(handled);
    SettledPlaced(handled);
  }

  lemma DroppedPlaced(s: System, a: Action)
    requires Placed(s) && Enabled(s, a) && (a.DropDelivery? || a.ReloadDone?)
    ensures Placed(Next(s, a))
  {
    if Playable(s) {
      PendingDropped(s.session.queue, s.bus, s.session.currentSubIndex, Checkpoints(s.ledger.log), s.ledger.timer.phase);
    }
  }

  lemma DeliverPlaced(s: System)
    requires Placed(s) && s.bus != []
    ensures Placed(Next(s, Deliver))
  {
    hide PendingFits, Checkpoints, ArmingPlan;
    assert Next(s, Deliver).session.queue + Next(s, Deliver).bus == s.session.queue + s.bus;
  }

  lemma LoadPlaced(s: System, at: int)
    requires Placed(s) && Enabled(s, LoadDone(at))
    ensures Placed(Next(s, LoadDone(at)))
  {
    hide ArmingPlan;
    assert Next(s, LoadDone(at)).session.queue + Next(s, LoadDone(at)).bus == [];
  }

  /** The steps at which the coroutine goes on to its next await, or leaves the loop. */
  lemma AwaitPlaced(s: System, a: Action)
    requires Placed(s) && Enabled(s, a)
    requires a.Begin? || a.LoadFailed? || a.Wake? || a.CheckHead? || a.Start? || a.Stop?
    ensures Placed(Next(s, a))
  {
    hide PendingFits, Checkpoints, ArmingPlan, Book;
  }

  lemma KeepsLevels(s: System, a: Action)
    requires Enabled(s, a)
    ensures Next(s, a).session.levels == s.session.levels
  {
    hide Book, Step;
    if a.Handle? {
      hide Handled;
      HandledSession(s.session, a.connected);
    }
  }

  lemma NextPlaced(s: System, a: Action)
    requires Placed(s) && Enabled(s, a)
    ensures Placed(Next(s, a))
    ensures Next(s, a).session.levels == s.session.levels
  {
    hide Placed;
    KeepsLevels(s, a);
    match a
    case Game(event, at) => FedPlaced(s, Observe(event), at);
    case Tick(at) => FedPlaced(s, Input.Tick, at);
    case Deliver => DeliverPlaced(s);
    case Handle(connected) => HandledPlaced(s, connected);
    case DropDelivery => DroppedPlaced(s, a);
    case ReloadDone => DroppedPlaced(s, a);
    case LoadDone(at) => LoadPlaced(s, at);
    case _ => AwaitPlaced(s, a);
  }

  lemma {:induction false} NextConsistent(s: System, a: Action)
    requires Consistent(s.ledger) && Placed(s) && Enabled(s, a)
    ensures Consistent(Next(s, a).ledger)
  {
    match a
    case Game(event, at) => BookKeepsConsistent(s.ledger, Timed(Observe(event), at));
    case Tick(at) => BookKeepsConsistent(s.ledger, Timed(Input.Tick, at));
    case LoadDone(at) => BookKeepsConsistent(s.ledger, Timed(Arm(SessionPlan(s.session)), at));
    case _ => BookKeepsConsistent(s.ledger, Timed(Disarm, s.ledger.lastAt));
  }

  predicate Sound(s: System) {
    Consistent(s.ledger) && Placed(s)
  }

  lemma {:induction false} ReachableSound(start: System, schedule: seq<Action>)
    requires Sound(start) && Possible(start, schedule)
    ensures Sound(After(start, schedule))
    ensures After(start, schedule).session.levels == start.session.levels
  {
    if schedule != [] {
      var earlier := schedule[..|schedule| - 1];
      ReachableSound(start, earlier);
      NextConsistent(After(start, earlier), schedule[|schedule| - 1]);
      NextPlaced(After(start, earlier), schedule[|schedule| - 1]);
    }
  }

  /** Index safety over every interleaving, events dropped after a reload included: inside a level the
      sub-segment index never passes the checkpoints the timer has dispatched, so it names a segment
      and a death always finds the cold state of that very segment on disk. */
  lemma {:induction false} IndexAlwaysInRange(levels: seq<LevelPlan>, deathDelayMs: int, autoAdvanceDelayMs: int,
                           schedule: seq<Action>, world: World)
    requires Grouped(levels, world)
    requires Possible(Initial(levels, deathDelayMs, autoAdvanceDelayMs), schedule)
    ensures var s := After(Initial(levels, deathDelayMs, autoAdvanceDelayMs), schedule);
            Playable(s) ==>
              && s.session.currentLevelIndex < |levels|
              && s.session.currentSubIndex <= Checkpoints(s.ledger.log)
              && s.session.currentSubIndex < |levels[s.session.currentLevelIndex].segments|
              && (var level := levels[s.session.currentLevelIndex]; var sub := s.session.currentSubIndex;
                  && ColdStateForSubIndex(level, sub) == NeededState(level.segments[sub], sub == 0, world)
                  && ColdStateForSubIndex(level, sub).Some?
                  && ColdStateForSubIndex(level, sub).value in world.files)
  {
    var start := Initial(levels, deathDelayMs, autoAdvanceDelayMs);
    assert Balanced([], OPENING.plan, 0);
    ReachableSound(start, schedule);
    var s := After(start, schedule);
    if Playable(s) {
      ColdStateExists(levels[s.session.currentLevelIndex], s.session.currentSubIndex, world);
    }
  }
}
