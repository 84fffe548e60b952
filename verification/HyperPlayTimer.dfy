/** The full-level timer: it turns deaths, checkpoints, exits and ticks into split events. */
module HyperPlayTimer {
  import opened Wrappers
  import opened Protocol

  datatype Phase = Idle | Playing | Dying | Result

  datatype HyperEvent =
    | HyperCheckpoint(ordinal: int, elapsedMs: int, splitMs: int)
    | HyperDeath(elapsedMs: int, splitMs: int)
    | HyperComplete(elapsedMs: int, splitMs: int)

  /** The timer's fields as one value. An ordinal is absent when a checkpoint entry carries none. */
  datatype Timer = Timer(
    phase: Phase,
    segmentId: string,
    ordinals: seq<Option<int>>,
    cpIndex: nat,
    listening: bool,
    startMs: int,
    splitMs: int,
    deathDelayMs: int,
    autoAdvanceDelayMs: int,
    deathStartedMs: int,
    elapsedMs: int,
    resultStartMs: int,
    resultSplitMs: int)

  const RESET := Timer(Idle, "", [], 0, false, 0, 0, 0, 0, 0, 0, 0, 0)

  datatype Plan = Plan(segmentId: string, ordinals: seq<Option<int>>, listening: bool,
                       deathDelayMs: int, autoAdvanceDelayMs: int)

  function Armed(plan: Plan, now: int): Timer {
    RESET.(segmentId := plan.segmentId, ordinals := plan.ordinals, listening := plan.listening,
           deathDelayMs := plan.deathDelayMs, autoAdvanceDelayMs := plan.autoAdvanceDelayMs,
           startMs := now, splitMs := now, phase := Playing)
  }

  /** What the listener receives when the timer dispatches `event`. */
  function Dispatched(t: Timer, event: HyperEvent): seq<HyperEvent> {
    if t.listening then [event] else []
  }

  predicate CountsAsDeath(event: GameEvent) {
    event.Death? || (event.LevelExit? && event.goal == ABORT)
  }

  function Ordinal(ordinals: seq<Option<int>>, k: nat): int
    requires k < |ordinals|
  {
    if ordinals[k].Some? then ordinals[k].value else k + 1
  }

  function Observed(t: Timer, event: GameEvent, now: int): (Timer, seq<HyperEvent>) {
    if t.phase != Playing then (t, [])
    else if CountsAsDeath(event) then
      (t.(phase := Dying, deathStartedMs := now),
       Dispatched(t, HyperDeath(now - t.startMs, now - t.splitMs)))
    else if event.Checkpoint? && t.cpIndex < |t.ordinals| then
      (t.(cpIndex := t.cpIndex + 1),
       Dispatched(t, HyperCheckpoint(Ordinal(t.ordinals, t.cpIndex), now - t.startMs, now - t.splitMs)))
    else if event.LevelExit? then
      (t.(phase := Result, elapsedMs := now - t.startMs, resultSplitMs := now - t.splitMs, resultStartMs := now), [])
    else (t, [])
  }

  function Ticked(t: Timer, now: int): (Timer, seq<HyperEvent>) {
    if t.phase == Dying && now - t.deathStartedMs >= t.deathDelayMs then
      (t.(phase := Playing, startMs := t.startMs + (now - t.deathStartedMs), splitMs := now), [])
    else if t.phase == Result && now - t.resultStartMs >= t.autoAdvanceDelayMs then
      (RESET, Dispatched(t, HyperComplete(t.elapsedMs, t.resultSplitMs)))
    else (t, [])
  }

  class HyperPlayTiming {
    var state: Phase
    var segmentId: string
    var checkpoints: seq<Option<int>>
    var cpIndex: nat
    var listening: bool
    var startMs: int
    var splitMs: int
    var deathDelayMs: int
    var autoAdvanceDelayMs: int
    var deathStartedMs: int
    var elapsedMs: int
    var resultStartMs: int
    var resultSplitMs: int

    function View(): Timer
      reads this
    {
      Timer(state, segmentId, checkpoints, cpIndex, listening, startMs, splitMs, deathDelayMs,
            autoAdvanceDelayMs, deathStartedMs, elapsedMs, resultStartMs, resultSplitMs)
    }

    constructor ()
      ensures View() == RESET
    {
      state := Idle;
      segmentId, checkpoints, cpIndex, listening := "", [], 0, false;
      startMs, splitMs, deathDelayMs, autoAdvanceDelayMs := 0, 0, 0, 0;
      deathStartedMs, elapsedMs, resultStartMs, resultSplitMs := 0, 0, 0, 0;
    }

    predicate IsArmed()
      reads this
    {
      state != Idle
    }

    method Arm(plan: Plan, now: int)
      modifies this
      ensures View() == Armed(plan, now)
    {
      Reset();
      segmentId := plan.segmentId;
      checkpoints := plan.ordinals;
      listening := plan.listening;
      deathDelayMs := plan.deathDelayMs;
      autoAdvanceDelayMs := plan.autoAdvanceDelayMs;
      startMs := now;
      splitMs := now;
      state := Playing;
    }

    /** `sent` is what the listener receives during the call. */
    method ObserveEvent(event: GameEvent, now: int) returns (sent: seq<HyperEvent>)
      modifies this
      ensures (View(), sent) == Observed(old(View()), event, now)
    {
      sent := [];
      if state != Playing {
        return;
      }
      if CountsAsDeath(event) {
        sent := Dispatch(HyperDeath(now - startMs, now - splitMs));
        state := Dying;
        deathStartedMs := now;
      } else if event.Checkpoint? {
        if cpIndex < |checkpoints| {
          sent := Dispatch(HyperCheckpoint(Ordinal(checkpoints, cpIndex), now - startMs, now - splitMs));
          cpIndex := cpIndex + 1;
        }
      } else if event.LevelExit? {
        elapsedMs := now - startMs;
        resultSplitMs := now - splitMs;
        resultStartMs := now;
        state := Result;
      }
    }

    /** `finished` tells the caller that the completion was emitted by this tick. */
    method Tick(now: int) returns (finished: bool, sent: seq<HyperEvent>)
      modifies this
      ensures (View(), sent) == Ticked(old(View()), now)
      ensures finished <==> old(state) == Result && state == Idle
    {
      finished, sent := false, [];
      if state == Dying {
        if now - deathStartedMs >= deathDelayMs {
          var blackout := now - deathStartedMs;
          startMs := startMs + blackout;
          splitMs := now;
          state := Playing;
        }
        return;
      }
      if state == Result {
        if now - resultStartMs >= autoAdvanceDelayMs {
          sent := Dispatch(HyperComplete(elapsedMs, resultSplitMs));
          Reset();
          finished := true;
        }
      }
    }

    /** A tick whose listener arms the timer again on the completion: the arming comes before the reset and is
        lost. */
    method TickRearming(now: int, plan: Plan, armedAt: int) returns (sent: seq<HyperEvent>)
      modifies this
      ensures (View(), sent) == Ticked(old(View()), now)
    {
      if state == Result && now - resultStartMs >= autoAdvanceDelayMs {
        sent := Dispatch(HyperComplete(elapsedMs, resultSplitMs));
        if sent != [] {
          Arm(plan, armedAt);
        }
        Reset();
      } else {
        var _, unanswered := Tick(now);
        sent := unanswered;
      }
    }

    /** A death whose listener arms the timer again: the new attempt starts out dying. */
    method ObserveRearming(event: GameEvent, now: int, plan: Plan, armedAt: int) returns (sent: seq<HyperEvent>)
      requires event == Death || event == LevelExit("abort")
      modifies this
      ensures sent == Observed(old(View()), event, now).1
      ensures View() == if sent == [] then Observed(old(View()), event, now).0
                        else Armed(plan, armedAt).(phase := Dying, deathStartedMs := now)
    {
      sent := [];
      if state != Playing {
        return;
      }
      sent := Dispatch(HyperDeath(now - startMs, now - splitMs));
      if sent != [] {
        Arm(plan, armedAt);
      }
      state := Dying;
      deathStartedMs := now;
    }

    method Disarm()
      modifies this
      ensures View() == RESET
    {
      Reset();
    }

    method Dispatch(event: HyperEvent) returns (sent: seq<HyperEvent>)
      ensures sent == Dispatched(View(), event)
    {
      sent := if listening then [event] else [];
    }

    method Reset()
      modifies this
      ensures View() == RESET
    {
      state, cpIndex := Idle, 0;
      ForgetPlan();
      startMs, splitMs, deathStartedMs := 0, 0, 0;
      elapsedMs, resultStartMs, resultSplitMs := 0, 0, 0;
    }

    /** The fields that an arming call fills in from its arguments. */
    method ForgetPlan()
      modifies this
      ensures View() == old(View()).(segmentId := "", ordinals := [], listening := false, deathDelayMs := 0,
                                     autoAdvanceDelayMs := 0)
    {
      segmentId, checkpoints, listening, deathDelayMs, autoAdvanceDelayMs := "", [], false, 0, 0;
    }
  }
}

/** Whole runs of the full-level timer, and the time accounting that every run keeps. */
module HyperPlayLedger {
  import opened Protocol
  import opened HyperPlayTimer

  datatype Input = Arm(plan: Plan) | Observe(event: GameEvent) | Tick | Disarm

  datatype Timed = Timed(input: Input, at: int)

  function Step(t: Timer, input: Input, at: int): (Timer, seq<HyperEvent>) {
    match input
    case Arm(plan) => (Armed(plan, at), [])
    case Observe(event) => Observed(t, event, at)
    case Tick => Ticked(t, at)
    case Disarm => (RESET, [])
  }

  /** A dispatched event beside what an outside observer measured for it: `at` is when the measured
      stretch of play ended, `coldStart` when play last began (at arming or after a respawn), `played`
      and `dead` the time spent playing and blacked out since arming, `passed` the checkpoints dispatched
      since `coldStart`, and `cause` the input that made the timer dispatch it. */
  datatype Entry = Entry(event: HyperEvent, at: int, coldStart: int, played: int, dead: int, passed: nat, cause: Input)

  /** The observer's books. They look only at the phases the timer goes through and at the wall clock,
      never at the fields the timer computes its splits from. */
  datatype Ledger = Ledger(
    timer: Timer,
    plan: Plan,
    lastAt: int,
    armedAt: int,
    coldStart: int,
    diedAt: int,
    finishedAt: int,
    played: int,
    dead: int,
    passed: nat,
    log: seq<Entry>)

  const OPENING := Ledger(RESET, Plan("", [], false, 0, 0), 0, 0, 0, 0, 0, 0, 0, 0, [])

  function Opened(plan: Plan, at: int): Ledger {
    Ledger(Armed(plan, at), plan, at, at, at, at, at, 0, 0, 0, [])
  }

  function Entered(l: Ledger, sent: seq<HyperEvent>, i: Timed, played: int, dead: int): seq<Entry> {
    if sent == [] then l.log
    else
      var end := if l.timer.phase == Result then l.finishedAt else i.at;
      l.log + [Entry(sent[0], end, l.coldStart, played, dead, l.passed, i.input)]
  }

  function Book(l: Ledger, i: Timed): Ledger {
    if i.input.Arm? then Opened(i.input.plan, i.at)
    else
      var (timer, sent) := Step(l.timer, i.input, i.at);
      var played := l.played + if l.timer.phase == Playing then i.at - l.lastAt else 0;
      var dead := l.dead + if l.timer.phase == Dying then i.at - l.lastAt else 0;
      var respawned := l.timer.phase == Dying && timer.phase == Playing;
      var died := l.timer.phase == Playing && timer.phase == Dying;
      var finished := l.timer.phase == Playing && timer.phase == Result;
      l.(timer := timer,
         lastAt := i.at,
         coldStart := if respawned then i.at else l.coldStart,
         diedAt := if died then i.at else l.diedAt,
         finishedAt := if finished then i.at else l.finishedAt,
         played := played,
         dead := dead,
         passed := if respawned then 0
                   else if sent != [] && sent[0].HyperCheckpoint? then l.passed + 1
                   else l.passed,
         log := Entered(l, sent, i, played, dead))
  }

  function Run(inputs: seq<Timed>): Ledger {
    if inputs == [] then OPENING else Book(Run(inputs[..|inputs| - 1]), inputs[|inputs| - 1])
  }

  predicate Chronological(inputs: seq<Timed>) {
    forall i, j :: 0 <= i < j < |inputs| ==> inputs[i].at <= inputs[j].at
  }

  function DeathSplits(log: seq<Entry>): int {
    if log == [] then 0
    else
      var last := log[|log| - 1].event;
      DeathSplits(log[..|log| - 1]) + if last.HyperDeath? then last.splitMs else 0
  }

  function Checkpoints(log: seq<Entry>): nat {
    if log == [] then 0
    else Checkpoints(log[..|log| - 1]) + if log[|log| - 1].event.HyperCheckpoint? then 1 else 0
  }

  predicate AfterDeath(log: seq<Entry>) {
    log != [] && log[|log| - 1].event.HyperDeath?
  }

  predicate AfterCompletion(log: seq<Entry>) {
    log != [] && log[|log| - 1].event.HyperComplete?
  }

  /** An entry arrives cold when nothing, or a death, was dispatched right before it. */
  predicate ArrivesCold(log: seq<Entry>, k: nat)
    requires k < |log|
  {
    k == 0 || log[k - 1].event.HyperDeath?
  }

  /** The ordinal of a planned checkpoint is its own, or else its place counted from one. */
  predicate OrdinalRight(before: seq<Entry>, e: Entry, plan: Plan) {
    e.event.HyperCheckpoint? ==>
      var passed := Checkpoints(before);
      && passed < |plan.ordinals|
      && e.event.ordinal == if plan.ordinals[passed].Some? then plan.ordinals[passed].value else passed + 1
  }

  /** What an entry must say, given the entries before it. */
  predicate EntryBalanced(before: seq<Entry>, e: Entry, plan: Plan, armedAt: int) {
    && e.event.elapsedMs == DeathSplits(before) + e.event.splitMs
    && e.event.elapsedMs == e.played == e.at - armedAt - e.dead
    && e.event.splitMs == e.at - e.coldStart
    && armedAt <= e.coldStart <= e.at
    && 0 <= e.dead
    && OrdinalRight(before, e, plan)
  }

  predicate Balanced(log: seq<Entry>, plan: Plan, armedAt: int) {
    forall k :: 0 <= k < |log| ==>
      && EntryBalanced(log[..k], log[k], plan, armedAt)
      && (ArrivesCold(log, k) ==> log[k].passed == 0)
      && (log[k].event.HyperComplete? ==> k == |log| - 1)
  }

  predicate InStep(l: Ledger) {
    && l.timer.listening == l.plan.listening
    && l.timer.ordinals == l.plan.ordinals
    && l.timer.cpIndex <= |l.timer.ordinals|
    && (l.timer.listening ==> l.timer.cpIndex == Checkpoints(l.log))
    && l.armedAt <= l.coldStart <= l.lastAt
    && 0 <= l.played && 0 <= l.dead
    && (l.timer.phase == Playing ==>
          && l.timer.splitMs == l.coldStart
          && l.lastAt - l.timer.startMs == l.played == l.lastAt - l.armedAt - l.dead
          && (l.timer.listening ==> l.timer.splitMs - l.timer.startMs == DeathSplits(l.log))
          && (l.timer.listening && (l.log == [] || AfterDeath(l.log)) ==> l.passed == 0))
    && (l.timer.phase == Dying ==>
          && l.timer.deathStartedMs <= l.lastAt
          && l.timer.deathStartedMs - l.timer.startMs == l.played
          && l.played + l.dead == l.lastAt - l.armedAt
          && (l.timer.listening ==> l.played == DeathSplits(l.log) && AfterDeath(l.log)))
    && (l.timer.phase == Result ==>
          && l.coldStart <= l.finishedAt <= l.lastAt
          && l.timer.elapsedMs == l.played == l.finishedAt - l.armedAt - l.dead
          && l.timer.resultSplitMs == l.finishedAt - l.coldStart
          && (l.timer.listening ==> l.played == DeathSplits(l.log) + l.timer.resultSplitMs)
          && (l.timer.listening && (l.log == [] || AfterDeath(l.log)) ==> l.passed == 0))
  }

  predicate Kept(l: Ledger) {
    && (AfterCompletion(l.log) ==> l.timer.phase == Idle)
    && Checkpoints(l.log) <= |l.plan.ordinals|
    && (!l.plan.listening ==> l.log == [])
    && (l.timer.phase != Idle ==> InStep(l))
  }

  /** What holds of the books and the timer's own fields between two inputs. */
  predicate Consistent(l: Ledger) {
    Balanced(l.log, l.plan, l.armedAt) && Kept(l)
  }

  lemma {:induction false} AppendBalanced(log: seq<Entry>, e: Entry, plan: Plan, armedAt: int)
    requires Balanced(log, plan, armedAt)
    requires !AfterCompletion(log)
    requires EntryBalanced(log, e, plan, armedAt)
    requires log == [] || AfterDeath(log) ==> e.passed == 0
    ensures Balanced(log + [e], plan, armedAt)
  {
    var grown := log + [e];
    assert grown[..|log|] == log;
    forall k | 0 <= k < |grown|
      ensures EntryBalanced(grown[..k], grown[k], plan, armedAt)
      ensures ArrivesCold(grown, k) ==> grown[k].passed == 0
      ensures grown[k].event.HyperComplete? ==> k == |grown| - 1
    {
      if k < |log| {
        assert grown[..k] == log[..k];
        assert ArrivesCold(grown, k) == ArrivesCold(log, k);
      }
    }
  }

  lemma {:induction false} Appended(log: seq<Entry>, e: Entry)
    ensures DeathSplits(log + [e]) == DeathSplits(log) + if e.event.HyperDeath? then e.event.splitMs else 0
    ensures Checkpoints(log + [e]) == Checkpoints(log) + if e.event.HyperCheckpoint? then 1 else 0
  {
    assert (log + [e])[..|log|] == log;
  }

  /** The entry an input writes agrees with what the observer measured. */
  lemma WrittenEntryBalanced(l: Ledger, i: Timed)
    requires Kept(l) && !i.input.Arm?
    requires l.timer.phase != Idle ==> l.lastAt <= i.at
    requires Step(l.timer, i.input, i.at).1 != []
    ensures |Book(l, i).log| == |l.log| + 1
    ensures var e := Book(l, i).log[|l.log|];
            && Book(l, i).log == l.log + [e]
            && EntryBalanced(l.log, e, l.plan, l.armedAt)
            && !AfterCompletion(l.log)
            && (l.log == [] || AfterDeath(l.log) ==> e.passed == 0)
  {
  }

  lemma ObserveKept(l: Ledger, i: Timed)
    requires Kept(l) && i.input.Observe?
    requires l.timer.phase != Idle ==> l.lastAt <= i.at
    ensures Kept(Book(l, i))
  {
    hide Ticked, DeathSplits, Checkpoints;
    if Observed(l.timer, i.input.event, i.at).1 != [] {
      WrittenEntryBalanced(l, i);
      Appended(l.log, Book(l, i).log[|l.log|]);
    }
  }

  lemma TickKept(l: Ledger, i: Timed)
    requires Kept(l) && i.input.Tick?
    requires l.timer.phase != Idle ==> l.lastAt <= i.at
    ensures Kept(Book(l, i))
  {
    hide Observed, DeathSplits, Checkpoints;
    if Ticked(l.timer, i.at).1 != [] {
      WrittenEntryBalanced(l, i);
      Appended(l.log, Book(l, i).log[|l.log|]);
    }
  }

  lemma BookKept(l: Ledger, i: Timed)
    requires Kept(l) && !i.input.Arm?
    requires l.timer.phase != Idle ==> l.lastAt <= i.at
    ensures Kept(Book(l, i))
  {
    match i.input
    case Observe(_) => ObserveKept(l, i);
    case Tick => TickKept(l, i);
    case Disarm => assert Book(l, i).timer == RESET;
  }

  /** One input, at a time no earlier than the last, keeps the books consistent. */
  lemma {:induction false} BookKeepsConsistent(l: Ledger, i: Timed)
    requires Consistent(l)
    requires l.timer.phase != Idle ==> l.lastAt <= i.at
    ensures Consistent(Book(l, i))
  {
    if i.input.Arm? {
    } else {
      BookKept(l, i);
      if Step(l.timer, i.input, i.at).1 != [] {
        WrittenEntryBalanced(l, i);
        AppendBalanced(l.log, Book(l, i).log[|l.log|], l.plan, l.armedAt);
      }
    }
  }

  /** Over every run with a monotone clock the books balance. */
  lemma {:induction false} RunConsistent(inputs: seq<Timed>)
    requires Chronological(inputs)
    ensures Consistent(Run(inputs))
    ensures inputs != [] ==> Run(inputs).lastAt == inputs[|inputs| - 1].at
  {
    if inputs != [] {
      var earlier := inputs[..|inputs| - 1];
      RunConsistent(earlier);
      if earlier == [] {
        assert Run(earlier) == OPENING;
      }
      BookKeepsConsistent(Run(earlier), inputs[|inputs| - 1]);
    }
  }

  lemma {:induction false} SplitWithinElapsed(l: Ledger, k: nat)
    requires Consistent(l) && k < |l.log|
    ensures 0 <= DeathSplits(l.log[..k])
    decreases k
  {
    if k > 0 {
      SplitWithinElapsed(l, k - 1);
      assert l.log[..k][..k - 1] == l.log[..k - 1];
      assert EntryBalanced(l.log[..k - 1], l.log[k - 1], l.plan, l.armedAt);
    } else {
      assert l.log[..k] == [];
    }
  }

  /** What conservation says of the k-th dispatched event. */
  predicate EntryConserves(l: Ledger, k: nat)
    requires k < |l.log|
  {
    var e := l.log[k];
    && (e.event.HyperDeath? ==> e.event.elapsedMs == DeathSplits(l.log[..k + 1]))
    && (e.event.HyperCheckpoint? || e.event.HyperComplete? ==>
          e.event.elapsedMs == DeathSplits(l.log[..k + 1]) + e.event.splitMs)
    && e.event.elapsedMs == e.played
    && e.event.elapsedMs + e.dead == e.at - l.armedAt
    && 0 <= e.event.splitMs <= e.event.elapsedMs
  }

  lemma BalancedAt(l: Ledger, k: nat)
    requires Consistent(l) && k < |l.log|
    ensures EntryBalanced(l.log[..k], l.log[k], l.plan, l.armedAt)
  {
    hide EntryBalanced, Kept, ArrivesCold;
  }

  lemma SplitsThrough(log: seq<Entry>, k: nat)
    requires k < |log|
    ensures DeathSplits(log[..k + 1])
         == DeathSplits(log[..k]) + if log[k].event.HyperDeath? then log[k].event.splitMs else 0
  {
    assert log[..k + 1] == log[..k] + [log[k]];
    Appended(log[..k], log[k]);
  }

  lemma EntriesConserve(l: Ledger, k: nat)
    requires Consistent(l) && k < |l.log|
    ensures EntryConserves(l, k)
  {
    BalancedAt(l, k);
    SplitWithinElapsed(l, k);
    SplitsThrough(l.log, k);
    hide DeathSplits, Consistent, OrdinalRight;
  }

  /** Conservation of time over whole runs: every death reports the sum of the death splits so far,
      every completion the death splits plus its own split, both equal the wall time spent playing,
      and every blackout is left out of it exactly once. */
  lemma RunConservesTime(inputs: seq<Timed>, k: nat)
    requires Chronological(inputs)
    requires k < |Run(inputs).log|
    ensures EntryConserves(Run(inputs), k)
  {
    hide Run, EntryConserves;
    RunConsistent(inputs);
    EntriesConserve(Run(inputs), k);
  }

  /** A pit fall shows up as an exit with the goal "abort" only, and is a death like any other. */
  predicate Dies(input: Input) {
    input == Observe(Death) || input == Observe(LevelExit("abort"))
  }

  predicate Finishes(input: Input) {
    input.Observe? && input.event.LevelExit? && input.event.goal != "abort"
  }

  /** What each kind of dispatched event comes from. */
  predicate Caused(e: Entry) {
    && (e.event.HyperDeath? <==> Dies(e.cause))
    && (e.event.HyperCheckpoint? <==> e.cause == Observe(Checkpoint))
    && (e.event.HyperComplete? <==> e.cause == Tick)
  }

  /** The blackout after a death, or the display of a result, has lasted as long as the plan says. */
  predicate Elapsed(l: Ledger, i: Timed) {
    i.input.Tick? && i.at >= if l.timer.phase == Dying then l.diedAt + l.plan.deathDelayMs
                             else l.finishedAt + l.plan.autoAdvanceDelayMs
  }

  /** The phase after an input, from the phase before it, the books and the input. */
  predicate PhaseDecided(l: Ledger, i: Timed) {
    Book(l, i).timer.phase ==
      if i.input.Arm? then Playing
      else if i.input.Disarm? then Idle
      else
        match l.timer.phase
        case Idle => Idle
        case Playing => if Dies(i.input) then Dying else if Finishes(i.input) then Result else Playing
        case Dying => if Elapsed(l, i) then Playing else Dying
        case Result => if Elapsed(l, i) then Idle else Result
  }

  /** An input makes the timer dispatch one event or none: with a listener, one for each death, each checkpoint
      that is still planned, and each completion whose display is over. */
  predicate EventsDecided(l: Ledger, i: Timed) {
    var next := Book(l, i);
    if i.input.Arm? then next.log == []
    else if l.plan.listening
            && (|| (l.timer.phase == Playing && Dies(i.input))
                || (l.timer.phase == Playing && i.input == Observe(Checkpoint) && Checkpoints(l.log) < |l.plan.ordinals|)
                || (l.timer.phase == Result && Elapsed(l, i)))
    then |next.log| == |l.log| + 1 && next.log[..|l.log|] == l.log && next.log[|l.log|].cause == i.input
    else next.log == l.log
  }

  /** The armed timer works by its plan, and its own notes agree with the observer's. */
  predicate Attuned(l: Ledger) {
    var t := l.timer;
    t.phase != Idle ==>
      && t == Timer(t.phase, l.plan.segmentId, l.plan.ordinals, t.cpIndex, l.plan.listening, t.startMs, t.splitMs,
                    l.plan.deathDelayMs, l.plan.autoAdvanceDelayMs, t.deathStartedMs, t.elapsedMs, t.resultStartMs,
                    t.resultSplitMs)
      && (t.listening ==> t.cpIndex == Checkpoints(l.log))
      && (t.phase == Dying ==> t.deathStartedMs == l.diedAt)
      && (t.phase == Result ==> t.resultStartMs == l.finishedAt)
  }

  lemma OpeningAttuned()
    ensures Attuned(OPENING)
  {
  }

  lemma NoCheckpoints()
    ensures Checkpoints([]) == 0
  {
  }

  lemma StepDecided(l: Ledger, i: Timed)
    requires Attuned(l)
    ensures PhaseDecided(l, i) && EventsDecided(l, i)
    ensures forall e <- Book(l, i).log :: e in l.log || Caused(e)
  {
    hide Checkpoints;
    if !i.input.Arm? && Step(l.timer, i.input, i.at).1 != [] {
      var e := Book(l, i).log[|l.log|];
      assert Book(l, i).log == l.log + [e];
    }
  }

  lemma BookAttuned(l: Ledger, i: Timed)
    requires Attuned(l)
    ensures Attuned(Book(l, i))
  {
    hide Checkpoints;
    if i.input.Arm? {
      NoCheckpoints();
    } else if Step(l.timer, i.input, i.at).1 != [] {
      var e := Book(l, i).log[|l.log|];
      assert Book(l, i).log == l.log + [e];
      Appended(l.log, e);
    }
  }

  lemma {:induction false} RunAttuned(inputs: seq<Timed>)
    ensures Attuned(Run(inputs))
    ensures forall e <- Run(inputs).log :: Caused(e)
  {
    hide Attuned, Caused, Book;
    if inputs == [] {
      OpeningAttuned();
    } else {
      var earlier := inputs[..|inputs| - 1];
      RunAttuned(earlier);
      StepDecided(Run(earlier), inputs[|inputs| - 1]);
      BookAttuned(Run(earlier), inputs[|inputs| - 1]);
    }
  }

  /** After every run, whatever the clock, what the next input does is decided by the plan, the phase and the
      wall clock alone; and every event dispatched since the last arming was caused by an input of its kind. */
  lemma {:induction false} InputsDecide(inputs: seq<Timed>, i: Timed)
    ensures PhaseDecided(Run(inputs), i) && EventsDecided(Run(inputs), i)
    ensures forall e <- Run(inputs + [i]).log :: Caused(e)
  {
    RunAttuned(inputs);
    RunAttuned(inputs + [i]);
    hide *;
    StepDecided(Run(inputs), i);
  }
}
