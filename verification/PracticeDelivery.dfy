/** The practice session together with the timer its commands arm and the results on their way to it. */
module PracticeDelivery {
  import opened Wrappers
  import opened Protocol
  import opened PracticeTimer
  import opened PracticeSession

  /** A result, and the cycle whose load armed the timer it came from. */
  datatype Posted = Posted(result: AttemptResult, armedIn: nat)

  /** What a cycle counted. */
  datatype Count = Count(cycle: nat, posted: Posted)

  /** A load sent by a resume, still awaiting its state. */
  datatype Load = Load(cmd: LoadCmd, sentIn: nat)

  /** The session, the backend's timer, the results on the event bus, and the resume whose load is awaited. The
      rest is the observer's: the command of every cycle armed (that of cycle n stands at n - 1), the cycle that
      armed the timer, the one that the held result came from, and what was counted. */
  datatype Desk = Desk(
    session: Session,
    timer: Timer,
    bus: seq<Posted>,
    resuming: Option<Load>,
    lastAt: int,
    commands: seq<LoadCmd>,
    armedIn: nat,
    heldFrom: nat,
    counted: seq<Count>)

  datatype Action =
    | Begin(offer: Offer)
    | LoadSent(episodeId: string, at: int)
    | LoadFailed
    | Game(event: GameEvent, at: int, later: int)
    | Tick(at: int)
    | Deliver
    | DropDelivery
    | SkipNext
    | GoPrev
    | TogglePause(now: real)
    | ResumeLoaded(episodeId: string, at: int)
    | ResumeFailed
    | EndCycle
    | LeaveCycle
    | RequestStop
    | Stop

  /** What the event loop handles, one event after the other: while it awaits a resume's load it takes none. */
  predicate FromEventLoop(a: Action) {
    a.Deliver? || a.DropDelivery? || a.SkipNext? || a.GoPrev? || a.TogglePause?
  }

  /** A cycle ends when its event is set, or is left when the session has stopped or lost its backend. */
  predicate Enabled(d: Desk, a: Action) {
    && (FromEventLoop(a) ==> d.resuming.None?)
    && match a
       case Begin(_) => d.session.at == Top
       case LoadSent(_, at) => d.session.at == Sending && d.session.flight.loadCmd.Some? && d.lastAt <= at
       case LoadFailed => d.session.at == Sending
       case Game(_, at, later) => d.lastAt <= at <= later
       case Tick(at) => d.lastAt <= at
       case Deliver => d.bus != []
       case DropDelivery => d.bus != []
       case ResumeLoaded(_, at) => d.resuming.Some? && d.lastAt <= at
       case ResumeFailed => d.resuming.Some?
       case EndCycle => d.session.at == Waiting && d.session.delivery.ready
       case LeaveCycle => d.session.at == Waiting
       case Stop => d.session.at == Stopping
       case _ => true
  }

  /** A load command arms the timer once its state is loaded, with a fresh episode and a listener. */
  function Arming(cmd: LoadCmd, episodeId: string): Request {
    Request(cmd.id, cmd.endType, cmd.deathPenaltyMs, cmd.autoAdvanceDelayMs, true, episodeId)
  }

  predicate Pauses(s: Session) {
    s.isRunning && s.flight.statePath.Some? && !s.clock.paused
  }

  predicate Resumes(s: Session) {
    s.isRunning && s.flight.statePath.Some? && s.clock.paused
  }

  /** The cycle being run, counted from 1. */
  function Cycle(d: Desk): nat {
    |d.commands|
  }

  /** A command that drops the attempt disarms the timer before anything else runs. */
  function Dropped(d: Desk, session: Session): Desk {
    d.(session := NavFinished(session), timer := RESET)
  }

  function Began(d: Desk, offer: Offer): Desk {
    var s := CycleStarted(d.session, offer);
    d.(session := s,
       commands := if s.at == Sending && s.flight.loadCmd.Some? then d.commands + [s.flight.loadCmd.value]
                   else d.commands)
  }

  function Delivered(d: Desk, posted: Posted, bus: seq<Posted>): Desk {
    d.(session := ResultReceived(d.session, posted.result), heldFrom := posted.armedIn, bus := bus)
  }

  function Ended(d: Desk): Desk {
    var s := d.session;
    d.(session := CycleEnded(s),
       counted := if s.navPending || s.delivery.data.None? then d.counted
                  else d.counted + [Count(Cycle(d), Posted(s.delivery.data.value, d.heldFrom))])
  }

  function Next(d: Desk, a: Action): Desk
    requires Enabled(d, a)
  {
    var s := d.session;
    match a
    case Begin(offer) => Began(d, offer)
    case LoadSent(episodeId, at) =>
      d.(session := s.(at := Waiting), timer := Armed(Arming(s.flight.loadCmd.value, episodeId), at),
         armedIn := Cycle(d), lastAt := at)
    case LoadFailed => d.(session := s.(at := Stopping))
    case Game(event, at, later) => d.(timer := Observed(d.timer, event, at, later).0, lastAt := later)
    case Tick(at) =>
      var (timer, result) := Ticked(d.timer, at);
      d.(timer := timer, bus := if result.Some? then d.bus + [Posted(result.value, d.armedIn)] else d.bus, lastAt := at)
    case Deliver => Delivered(d, d.bus[0], d.bus[1..])
    case DropDelivery => d.(bus := d.bus[1..])
    case SkipNext => if NavOk(s) then Dropped(d, SkippedNext(s)) else d
    case GoPrev => if NavOk(s) && s.cursor > 0 then Dropped(d, WentPrev(s)) else d
    case TogglePause(now) =>
      d.(session := PauseToggled(s, now), timer := if Pauses(s) then RESET else d.timer,
         resuming := if Resumes(s) && s.flight.loadCmd.Some? then Some(Load(s.flight.loadCmd.value, Cycle(d))) else None)
    case ResumeLoaded(episodeId, at) =>
      d.(timer := Armed(Arming(d.resuming.value.cmd, episodeId), at), armedIn := d.resuming.value.sentIn,
         resuming := None, lastAt := at)
    case ResumeFailed => d.(resuming := None)
    case EndCycle => Ended(d)
    case LeaveCycle => Ended(d).(session := CycleEnded(s).(at := Stopping))
    case RequestStop => d.(session := s.(isRunning := false))
    case Stop => d.(session := SessionStopped(s), timer := RESET)
  }

  predicate Possible(start: Desk, schedule: seq<Action>)
    decreases |schedule|, 0
  {
    schedule == [] ||
    (Possible(start, schedule[..|schedule| - 1])
     && Enabled(After(start, schedule[..|schedule| - 1]), schedule[|schedule| - 1]))
  }

  function After(start: Desk, schedule: seq<Action>): Desk
    requires Possible(start, schedule)
    decreases |schedule|, 1
  {
    if schedule == [] then start
    else Next(After(start, schedule[..|schedule| - 1]), schedule[|schedule| - 1])
  }

  function Initial(grindSegmentId: Option<string>, at: int): Desk {
    Desk(Created(grindSegmentId).(isRunning := true), RESET, [], None, at, [], 0, 0, [])
  }

  predicate InCycle(s: Session) {
    s.at in {Sending, Waiting}
  }

  /** A resume belongs to the cycle it runs in, whose result event is not set while it lasts; so none outlives
      its cycle. */
  predicate LoadsSound(d: Desk) {
    var s := d.session;
    && s.flight.loadCmd == (if d.commands == [] then None else Some(d.commands[|d.commands| - 1]))
    && (s.at == Top ==> d.resuming.None? && s.flight.statePath.None?)
    && (InCycle(s) ==>
          && d.commands != []
          && (s.delivery.ready ==> s.flight.statePath.None? && d.resuming.None?)
          && (d.resuming.Some? ==> d.resuming.value.sentIn == Cycle(d)))
  }

  /** Outside grind mode the cursor stays where the next cycle finds an entry or asks for one. */
  predicate CursorSound(s: Session) {
    && (InCycle(s) && s.navPending ==> s.flight.statePath.None?)
    && (s.grindSegmentId.None? && s.at == Top ==> s.cursor <= |s.history|)
    && (s.grindSegmentId.None? && InCycle(s) ==>
          s.cursor <= |s.history| && (!s.navPending ==> s.cursor < |s.history|))
  }

  predicate Names(commands: seq<LoadCmd>, cycle: nat, id: string) {
    1 <= cycle <= |commands| && commands[cycle - 1].id == id
  }

  /** Every result names the segment of the cycle it came from, whichever cycle counts it. */
  predicate Named(d: Desk) {
    var data := d.session.delivery.data;
    && (forall i :: 0 <= i < |d.bus| ==> Names(d.commands, d.bus[i].armedIn, d.bus[i].result.segmentId))
    && (d.timer.phase != Idle ==> Names(d.commands, d.armedIn, d.timer.request.segmentId))
    && (d.resuming.Some? ==> Names(d.commands, d.resuming.value.sentIn, d.resuming.value.cmd.id))
    && (data.Some? ==> Names(d.commands, d.heldFrom, data.value.segmentId))
    && (forall i :: 0 <= i < |d.counted| ==>
          && 1 <= d.counted[i].cycle <= |d.commands|
          && Names(d.commands, d.counted[i].posted.armedIn, d.counted[i].posted.result.segmentId))
  }

  predicate Sound(d: Desk) {
    LoadsSound(d) && CursorSound(d.session) && Named(d)
  }

  lemma TimerKeepsRequest(t: Timer, event: GameEvent, at: int, later: int)
    ensures Observed(t, event, at, later).0.request == t.request
    ensures Observed(t, event, at, later).0.phase == Idle <==> t.phase == Idle
    ensures Ticked(t, at).1.Some? ==>
              && t.phase != Idle && Ticked(t, at).1.value.segmentId == t.request.segmentId
              && Ticked(t, at).0.phase == Idle
    ensures Ticked(t, at).1.None? ==> Ticked(t, at).0 == t
  {
  }

  lemma BeginSound(d: Desk, offer: Offer)
    requires Sound(d) && d.session.at == Top
    ensures Sound(Began(d, offer)) && d.commands <= Began(d, offer).commands
    ensures Began(d, offer).session.at == Sending ==> |Began(d, offer).commands| == |d.commands| + 1
  {
    var next := Began(d, offer);
    assert forall i :: 0 <= i < |d.commands| ==> next.commands[i] == d.commands[i];
  }

  lemma TimerSound(d: Desk, a: Action)
    requires Sound(d) && Enabled(d, a) && (a.Game? || a.Tick?)
    ensures Sound(Next(d, a))
  {
    hide Observed, Ticked;
    match a
    case Game(event, at, later) => TimerKeepsRequest(d.timer, event, at, later);
    case Tick(at) => TimerKeepsRequest(d.timer, OtherEvent, at, at);
  }

  lemma DeliverySound(d: Desk, a: Action)
    requires Sound(d) && Enabled(d, a) && (a.Deliver? || a.DropDelivery?)
    ensures Sound(Next(d, a))
  {
  }

  lemma NavSound(d: Desk, a: Action)
    requires Sound(d) && Enabled(d, a) && (a.SkipNext? || a.GoPrev?)
    ensures Sound(Next(d, a))
  {
  }

  lemma PauseSound(d: Desk, a: Action)
    requires Sound(d) && Enabled(d, a) && a.TogglePause?
    ensures Sound(Next(d, a))
  {
  }

  lemma LoadingSound(d: Desk, a: Action)
    requires Sound(d) && Enabled(d, a) && (a.LoadSent? || a.LoadFailed? || a.ResumeLoaded? || a.ResumeFailed?)
    ensures Sound(Next(d, a))
  {
  }

  lemma EndingSound(d: Desk, a: Action)
    requires Sound(d) && Enabled(d, a) && (a.EndCycle? || a.LeaveCycle?)
    ensures Sound(Next(d, a))
  {
  }

  lemma StoppingSound(d: Desk, a: Action)
    requires Sound(d) && Enabled(d, a) && (a.RequestStop? || a.Stop?)
    ensures Sound(Next(d, a))
  {
  }

  lemma {:induction false} NextSound(d: Desk, a: Action)
    requires Sound(d) && Enabled(d, a)
    ensures Sound(Next(d, a)) && d.commands <= Next(d, a).commands
  {
    if a.Begin? {
      BeginSound(d, a.offer);
    } else {
      assert Next(d, a).commands == d.commands by {
        hide Observed, Ticked;
      }
      hide Sound, Next, Enabled;
      if a.Game? || a.Tick? {
        TimerSound(d, a);
      } else if a.Deliver? || a.DropDelivery? {
        DeliverySound(d, a);
      } else if a.SkipNext? || a.GoPrev? {
        NavSound(d, a);
      } else if a.TogglePause? {
        PauseSound(d, a);
      } else if a.EndCycle? || a.LeaveCycle? {
        EndingSound(d, a);
      } else if a.RequestStop? || a.Stop? {
        StoppingSound(d, a);
      } else {
        LoadingSound(d, a);
      }
    }
  }

  lemma {:induction false} StaysSound(start: Desk, schedule: seq<Action>)
    requires Sound(start) && Possible(start, schedule)
    ensures Sound(After(start, schedule)) && start.commands <= After(start, schedule).commands
  {
    hide Sound, Next, Enabled;
    if schedule != [] {
      StaysSound(start, schedule[..|schedule| - 1]);
      NextSound(After(start, schedule[..|schedule| - 1]), schedule[|schedule| - 1]);
    }
  }

  /** Over every run: no resume's load is awaited as a cycle begins, and every result counted names the segment of
      the cycle that armed its timer. */
  lemma {:induction false} NoLoadAtBegin(grindSegmentId: Option<string>, at: int, schedule: seq<Action>)
    requires Possible(Initial(grindSegmentId, at), schedule)
    ensures var d := After(Initial(grindSegmentId, at), schedule);
            && Sound(d)
            && (d.session.at == Top ==> d.resuming.None?)
            && forall i :: 0 <= i < |d.counted| ==>
                 Names(d.commands, d.counted[i].posted.armedIn, d.counted[i].posted.result.segmentId)
  {
    StaysSound(Initial(grindSegmentId, at), schedule);
  }

  function CompletedCounts(counted: seq<Count>): nat {
    if counted == [] then 0
    else
      CompletedCounts(counted[..|counted| - 1]) + if counted[|counted| - 1].posted.result.completed then 1 else 0
  }

  predicate Tallied(d: Desk) {
    d.session.tally == Tally(|d.counted|, CompletedCounts(d.counted))
  }

  lemma NextTallied(d: Desk, a: Action)
    requires Tallied(d) && Enabled(d, a)
    ensures Tallied(Next(d, a))
  {
    hide Chosen, Observed, Ticked;
    var next := Next(d, a);
    assert next.counted == d.counted || next.counted[..|next.counted| - 1] == d.counted;
  }

  lemma NothingTallied(grindSegmentId: Option<string>, at: int)
    ensures Tallied(Initial(grindSegmentId, at))
  {
  }

  /** Over every run the session's tally is that of the results it counted, and of the completed ones. */
  lemma {:induction false} TallyCounts(grindSegmentId: Option<string>, at: int, schedule: seq<Action>)
    requires Possible(Initial(grindSegmentId, at), schedule)
    ensures var d := After(Initial(grindSegmentId, at), schedule);
            && d.session.tally.attempted == |d.counted|
            && d.session.tally.completed == CompletedCounts(d.counted)
  {
    hide Next, Enabled, CompletedCounts;
    if schedule != [] {
      TallyCounts(grindSegmentId, at, schedule[..|schedule| - 1]);
      NextTallied(After(Initial(grindSegmentId, at), schedule[..|schedule| - 1]), schedule[|schedule| - 1]);
    } else {
      NothingTallied(grindSegmentId, at);
    }
  }

  /** The cycles whose results can still reach this one: those on the bus, that of the armed timer, and its own. */
  function Origins(d: Desk): set<nat> {
    (set i | 0 <= i < |d.bus| :: d.bus[i].armedIn) + (if d.timer.phase != Idle then {d.armedIn} else {}) + {Cycle(d)}
  }

  predicate CountsFrom(d: Desk, cycle: nat, origin: nat) {
    exists i :: 0 <= i < |d.counted| && d.counted[i].cycle == cycle && d.counted[i].posted.armedIn == origin
  }

  /** As long as cycle n runs, everything on its way comes from `origins`; and so does all it counted. */
  predicate Confined(d: Desk, n: nat, origins: set<nat>) {
    && n <= Cycle(d) && n in origins
    && (forall i :: 0 <= i < |d.counted| && d.counted[i].cycle == n ==> d.counted[i].posted.armedIn in origins)
    && (Cycle(d) == n ==>
          && (forall i :: 0 <= i < |d.bus| ==> d.bus[i].armedIn in origins)
          && (d.timer.phase != Idle ==> d.armedIn in origins)
          && (d.resuming.Some? ==> d.resuming.value.sentIn in origins)
          && (d.session.delivery.data.Some? ==> d.heldFrom in origins))
  }

  lemma {:induction false} StepConfined(d: Desk, a: Action, n: nat, origins: set<nat>)
    requires Confined(d, n, origins) && Enabled(d, a)
    ensures Confined(Next(d, a), n, origins)
  {
    hide Observed, Ticked, Chosen;
    match a
    case Game(event, at, later) => TimerKeepsRequest(d.timer, event, at, later);
    case Tick(at) => TimerKeepsRequest(d.timer, OtherEvent, at, at);
    case _ =>
  }

  lemma {:induction false} StaysConfined(start: Desk, schedule: seq<Action>, n: nat, origins: set<nat>)
    requires Confined(start, n, origins) && Possible(start, schedule)
    ensures Confined(After(start, schedule), n, origins)
  {
    hide Confined, Next, Enabled;
    if schedule != [] {
      StaysConfined(start, schedule[..|schedule| - 1], n, origins);
      StepConfined(After(start, schedule[..|schedule| - 1]), schedule[|schedule| - 1], n, origins);
    }
  }

  predicate AtRest(d: Desk) {
    d.session.at == Waiting && d.bus == []
  }

  /** The step drops the attempt of a cycle, by navigation or by pausing. */
  predicate Drops(d: Desk, a: Action) {
    var s := d.session;
    && InCycle(s)
    && match a
       case SkipNext => NavOk(s)
       case GoPrev => NavOk(s) && s.cursor > 0
       case TogglePause(_) => Pauses(s)
       case _ => false
  }

  /** A drop of the attempt is clean if it finds the cycle's load finished and no result on its way. */
  predicate CleanDrop(d: Desk, a: Action) {
    Drops(d, a) ==> AtRest(d)
  }

  predicate CleanThroughout(start: Desk, schedule: seq<Action>)
    requires Possible(start, schedule)
  {
    schedule == [] ||
    (CleanThroughout(start, schedule[..|schedule| - 1])
     && CleanDrop(After(start, schedule[..|schedule| - 1]), schedule[|schedule| - 1]))
  }

  /** `schedule` leads from `start` to `here`, with clean drops only. */
  predicate Leads(start: Desk, schedule: seq<Action>, here: Desk) {
    Possible(start, schedule) && CleanThroughout(start, schedule) && After(start, schedule) == here
  }

  lemma Extend(start: Desk, schedule: seq<Action>, a: Action, here: Desk)
    requires Leads(start, schedule, here) && Enabled(here, a) && CleanDrop(here, a)
    ensures Leads(start, schedule + [a], Next(here, a))
  {
    assert (schedule + [a])[..|schedule|] == schedule;
  }

  /** Results are delivered, one after the other, up to the n-th. */
  lemma {:induction false} DeliverUpTo(start: Desk, schedule: seq<Action>, here: Desk, n: nat)
    returns (longer: seq<Action>)
    requires Leads(start, schedule, here) && n < |here.bus| && here.resuming.None?
    ensures Leads(start, longer, Delivered(here, here.bus[n], here.bus[n + 1..]))
  {
    hide Leads;
    longer := schedule;
    var now := here;
    if n > 0 {
      longer := DeliverUpTo(start, schedule, here, n - 1);
      now := Delivered(here, here.bus[n - 1], here.bus[n..]);
    }
    Extend(start, longer, Deliver, now);
    longer := longer + [Deliver];
    assert here.bus[n..][1..] == here.bus[n + 1..];
    assert Next(now, Deliver) == Delivered(here, here.bus[n], here.bus[n + 1..]);
  }

  /** A cycle that nothing was dropped in, and with no resume's load awaited. */
  predicate Undisturbed(d: Desk) {
    InCycle(d.session) && d.session.flight.loadCmd.Some? && !d.session.navPending && d.resuming.None?
  }

  /** A result on the bus can be the one the cycle counts. */
  lemma {:induction false} BusCounted(start: Desk, schedule: seq<Action>, here: Desk, j: nat)
    returns (longer: seq<Action>, end: Desk)
    requires Leads(start, schedule, here) && Undisturbed(here) && j < |here.bus|
    ensures Leads(start, longer, end) && end.commands == here.commands
    ensures end.counted == here.counted + [Count(Cycle(here), here.bus[j])]
    ensures here.session.at == Waiting ==> end == Ended(Delivered(here, here.bus[j], here.bus[j + 1..]))
  {
    hide Leads;
    longer := DeliverUpTo(start, schedule, here, j);
    end := Delivered(here, here.bus[j], here.bus[j + 1..]);
    if end.session.at == Sending {
      var sent := LoadSent("", here.lastAt);
      Extend(start, longer, sent, end);
      longer := longer + [sent];
      end := Next(end, sent);
    }
    Extend(start, longer, EndCycle, end);
    longer := longer + [EndCycle];
    end := Next(end, EndCycle);
  }

  function Finish(t: Timer): GameEvent {
    if t.request.endType == CHECKPOINT_END then Checkpoint else LevelExit("goal")
  }

  lemma {:induction false} FinishedIsTold(t: Timer, at: int)
    requires t.phase != Idle
    ensures var finished := Observed(t, Finish(t), at, at).0;
            var due := finished.resultStartMs + t.request.autoAdvanceDelayMs;
            forall later :: later >= due ==>
              Ticked(finished, later).1.Some? && Ticked(finished, later).0.phase == Idle
  {
  }

  /** An armed timer can finish, and its result be put on the bus. */
  lemma {:induction false} TimerFinishes(start: Desk, schedule: seq<Action>, here: Desk)
    returns (longer: seq<Action>, told: Desk)
    requires Leads(start, schedule, here) && here.timer.phase != Idle
    ensures Leads(start, longer, told)
    ensures told == here.(timer := told.timer, lastAt := told.lastAt, bus := told.bus) && told.timer.phase == Idle
    ensures |told.bus| == |here.bus| + 1 && told.bus[..|here.bus|] == here.bus
    ensures told.bus[|here.bus|].armedIn == here.armedIn
  {
    hide Leads;
    var finish := Game(Finish(here.timer), here.lastAt, here.lastAt);
    Extend(start, schedule, finish, here);
    var finished := Next(here, finish);
    FinishedIsTold(here.timer, here.lastAt);
    var due := finished.timer.resultStartMs + here.timer.request.autoAdvanceDelayMs;
    var tick := Tick(if due > here.lastAt then due else here.lastAt);
    Extend(start, schedule + [finish], tick, finished);
    longer, told := schedule + [finish] + [tick], Next(finished, tick);
  }

  /** A cycle being armed can count a result of each of its origins. */
  lemma {:induction false} OriginCounted(start: Desk, schedule: seq<Action>, here: Desk, origin: nat)
    returns (longer: seq<Action>, end: Desk)
    requires Leads(start, schedule, here) && Undisturbed(here) && here.session.at == Sending
    requires origin in Origins(here)
    ensures Leads(start, longer, end) && end.commands == here.commands
    ensures |end.counted| == |here.counted| + 1 && end.counted[..|here.counted|] == here.counted
    ensures end.counted[|here.counted|].cycle == Cycle(here) && end.counted[|here.counted|].posted.armedIn == origin
  {
    hide Leads;
    if i :| 0 <= i < |here.bus| && here.bus[i].armedIn == origin {
      longer, end := BusCounted(start, schedule, here, i);
    } else {
      longer, end := schedule, here;
      if here.timer.phase == Idle || here.armedIn != origin {
        var sent := LoadSent("", here.lastAt);
        Extend(start, longer, sent, end);
        longer, end := longer + [sent], Next(end, sent);
      }
      hide Next;
      longer, end := TimerFinishes(start, longer, end);
      longer, end := BusCounted(start, longer, end, |here.bus|);
    }
  }

  /** A cycle has just been armed: what is still on its way comes from earlier ones, and it counted nothing. */
  predicate JustArmed(armed: Desk) {
    && Sound(armed) && Undisturbed(armed) && armed.session.at == Sending && armed.session.delivery.data.None?
    && (armed.timer.phase != Idle ==> armed.armedIn < Cycle(armed))
    && (forall i :: 0 <= i < |armed.bus| ==> armed.bus[i].armedIn < Cycle(armed))
    && (forall i :: 0 <= i < |armed.counted| ==> armed.counted[i].cycle < Cycle(armed))
  }

  lemma BeginArms(d: Desk, offer: Offer)
    requires Sound(d) && d.session.at == Top && CycleStarted(d.session, offer).at == Sending
    ensures JustArmed(Began(d, offer))
  {
    BeginSound(d, offer);
  }

  /** Over every run, whenever a cycle has sent its command. */
  lemma {:induction false} ReachesArmed(grindSegmentId: Option<string>, at: int, past: seq<Action>, offer: Offer)
    requires Possible(Initial(grindSegmentId, at), past)
    requires var d := After(Initial(grindSegmentId, at), past);
             d.session.at == Top && CycleStarted(d.session, offer).at == Sending
    ensures JustArmed(Next(After(Initial(grindSegmentId, at), past), Begin(offer)))
  {
    StaysSound(Initial(grindSegmentId, at), past);
    hide Sound, JustArmed, CycleStarted;
    BeginArms(After(Initial(grindSegmentId, at), past), offer);
  }

  /** Exactly which results a cycle can count. The session does not look at what a delivered result names, so
      over every continuation these are the results of its own load, of the timer that is still armed as the
      cycle begins, and of the bus as it then is. */
  lemma {:induction false} CountedFromIff(armed: Desk, origin: nat)
    requires JustArmed(armed)
    ensures (exists schedule: seq<Action> ::
               Possible(armed, schedule) && CountsFrom(After(armed, schedule), Cycle(armed), origin))
            <==> origin in Origins(armed)
  {
    var n := Cycle(armed);
    assert Confined(armed, n, Origins(armed));
    assert Leads(armed, [], armed);
    hide Sound, Next, Enabled;
    if origin in Origins(armed) {
      var schedule, end := OriginCounted(armed, [], armed, origin);
      assert end.counted[|armed.counted|].cycle == n;
      assert CountsFrom(After(armed, schedule), n, origin);
    }
    forall schedule: seq<Action> | Possible(armed, schedule) && CountsFrom(After(armed, schedule), n, origin)
      ensures origin in Origins(armed)
    {
      StaysConfined(armed, schedule, n, Origins(armed));
    }
  }

  predicate Idles(d: Desk) {
    d.bus == [] && d.timer.phase == Idle
  }

  /** Nothing that could still deliver a result names a segment other than `id`. */
  predicate Fresh(d: Desk, id: string) {
    && (forall i :: 0 <= i < |d.bus| ==> d.bus[i].result.segmentId == id)
    && (d.timer.phase != Idle ==> d.timer.request.segmentId == id)
  }

  /** What cycle n counted came from its own load. */
  predicate OwnAttempts(d: Desk, n: nat) {
    forall i :: 0 <= i < |d.counted| && d.counted[i].cycle == n ==> d.counted[i].posted.armedIn == n
  }

  /** What cycle n counted names `id`. */
  predicate OwnSegment(d: Desk, n: nat, id: string) {
    forall i :: 0 <= i < |d.counted| && d.counted[i].cycle == n ==> d.counted[i].posted.result.segmentId == id
  }

  /** An origin of the cycle being armed that is not its own load. */
  lemma StrayOrigin(armed: Desk, id: string) returns (origin: nat)
    requires JustArmed(armed) && !Fresh(armed, id)
    ensures origin in Origins(armed) && 1 <= origin <= Cycle(armed) && armed.commands[origin - 1].id != id
  {
    if i :| 0 <= i < |armed.bus| && armed.bus[i].result.segmentId != id {
      origin := armed.bus[i].armedIn;
    } else {
      origin := armed.armedIn;
    }
  }

  lemma FreshOrigin(armed: Desk, origin: nat)
    requires JustArmed(armed) && origin in Origins(armed)
    ensures 1 <= origin <= Cycle(armed)
    ensures Idles(armed) ==> origin == Cycle(armed)
    ensures Fresh(armed, armed.commands[Cycle(armed) - 1].id) ==>
              armed.commands[origin - 1].id == armed.commands[Cycle(armed) - 1].id
  {
  }

  lemma CountNames(start: Desk, schedule: seq<Action>, i: nat)
    requires Sound(start) && Possible(start, schedule) && i < |After(start, schedule).counted|
    ensures var posted := After(start, schedule).counted[i].posted;
            1 <= posted.armedIn <= Cycle(start) ==> posted.result.segmentId == start.commands[posted.armedIn - 1].id
  {
    StaysSound(start, schedule);
  }

  lemma CountsFromOrigins(armed: Desk, schedule: seq<Action>, i: nat)
    requires JustArmed(armed) && Possible(armed, schedule) && i < |After(armed, schedule).counted|
    requires After(armed, schedule).counted[i].cycle == Cycle(armed)
    ensures After(armed, schedule).counted[i].posted.armedIn in Origins(armed)
  {
    assert Confined(armed, Cycle(armed), Origins(armed));
    hide Sound, Next, Enabled;
    StaysConfined(armed, schedule, Cycle(armed), Origins(armed));
  }

  /** With only its own attempts or its own segment on the way, a cycle counts nothing else. */
  lemma {:induction false} FreshCountsOwn(armed: Desk, schedule: seq<Action>)
    requires JustArmed(armed) && Possible(armed, schedule)
    ensures var n := Cycle(armed); var end := After(armed, schedule);
            && n > 0
            && (Idles(armed) ==> OwnAttempts(end, n))
            && (Fresh(armed, armed.commands[n - 1].id) ==> OwnSegment(end, n, armed.commands[n - 1].id))
  {
    var n := Cycle(armed);
    FreshOrigin(armed, n);
    assert Sound(armed) && n == |armed.commands|;
    hide JustArmed, Origins, Fresh, Idles, Sound, Possible, After, Next, Enabled;
    var end := After(armed, schedule);
    forall i | 0 <= i < |end.counted| && end.counted[i].cycle == n
      ensures Idles(armed) ==> end.counted[i].posted.armedIn == n
      ensures Fresh(armed, armed.commands[n - 1].id) ==>
                end.counted[i].posted.result.segmentId == armed.commands[n - 1].id
    {
      CountsFromOrigins(armed, schedule, i);
      FreshOrigin(armed, end.counted[i].posted.armedIn);
      CountNames(armed, schedule, i);
    }
  }

  lemma Counting(start: Desk, n: nat, origin: nat) returns (schedule: seq<Action>, i: nat)
    requires exists schedule: seq<Action> :: Possible(start, schedule) && CountsFrom(After(start, schedule), n, origin)
    ensures Possible(start, schedule) && i < |After(start, schedule).counted|
    ensures var c := After(start, schedule).counted[i]; c.cycle == n && c.posted.armedIn == origin
  {
    hide Possible, After;
    schedule :| Possible(start, schedule) && CountsFrom(After(start, schedule), n, origin);
    var end := After(start, schedule);
    i :| 0 <= i < |end.counted| && end.counted[i].cycle == n && end.counted[i].posted.armedIn == origin;
  }

  /** A result of each origin can be counted; it names its own cycle's segment. */
  lemma {:induction false} StrayCounted(armed: Desk, origin: nat) returns (schedule: seq<Action>, i: nat)
    requires JustArmed(armed) && origin in Origins(armed)
    ensures Possible(armed, schedule) && i < |After(armed, schedule).counted|
    ensures var c := After(armed, schedule).counted[i];
            && c.cycle == Cycle(armed) && c.posted.armedIn == origin
            && (1 <= origin <= Cycle(armed) ==> c.posted.result.segmentId == armed.commands[origin - 1].id)
  {
    CountedFromIff(armed, origin);
    assert Sound(armed);
    var n := Cycle(armed);
    assert n == |armed.commands|;
    hide *;
    schedule, i := Counting(armed, n, origin);
    CountNames(armed, schedule, i);
  }

  lemma {:induction false} BusyCountsOther(armed: Desk) returns (schedule: seq<Action>)
    requires JustArmed(armed) && !Idles(armed)
    ensures Possible(armed, schedule) && !OwnAttempts(After(armed, schedule), Cycle(armed))
  {
    var origin := if armed.bus != [] then armed.bus[0].armedIn else armed.armedIn;
    assert origin in Origins(armed) && origin < Cycle(armed);
    hide JustArmed, Origins, Idles, Possible, After;
    var i;
    schedule, i := StrayCounted(armed, origin);
  }

  lemma {:induction false} StaleCountsOther(armed: Desk, id: string) returns (schedule: seq<Action>)
    requires JustArmed(armed) && !Fresh(armed, id)
    ensures Possible(armed, schedule) && !OwnSegment(After(armed, schedule), Cycle(armed), id)
  {
    hide JustArmed, Origins, Fresh, Possible, After;
    var origin := StrayOrigin(armed, id);
    var i;
    schedule, i := StrayCounted(armed, origin);
  }

  /** Exactly when a cycle counts nothing but its own, whatever happens after it is armed: its own attempts, if
      and only if the bus is empty and the timer idle as its command is sent; its own segment, if and only if bus
      and timer then name no other. */
  lemma {:induction false} CycleCountsOwnIff(armed: Desk)
    requires JustArmed(armed)
    ensures var n := Cycle(armed);
            && n > 0 && armed.session.flight.loadCmd == Some(armed.commands[n - 1])
            && (Idles(armed)
                <==> forall schedule: seq<Action> :: Possible(armed, schedule) ==>
                       OwnAttempts(After(armed, schedule), n))
            && (Fresh(armed, armed.commands[n - 1].id)
                <==> forall schedule: seq<Action> :: Possible(armed, schedule) ==>
                       OwnSegment(After(armed, schedule), n, armed.commands[n - 1].id))
  {
    var n := Cycle(armed);
    var id := armed.commands[n - 1].id;
    assert n == |armed.commands| > 0 && armed.session.flight.loadCmd == Some(armed.commands[n - 1]);
    hide *;
    if !Idles(armed) {
      var schedule := BusyCountsOther(armed);
    }
    if !Fresh(armed, id) {
      var schedule := StaleCountsOther(armed, id);
    }
    forall schedule: seq<Action> | Possible(armed, schedule)
      ensures Idles(armed) ==> OwnAttempts(After(armed, schedule), n)
      ensures Fresh(armed, id) ==> OwnSegment(After(armed, schedule), n, id)
    {
      FreshCountsOwn(armed, schedule);
    }
  }

  /** Every result counted so far came from its cycle's own load. */
  predicate CountsOwn(d: Desk) {
    forall i :: 0 <= i < |d.counted| ==> d.counted[i].posted.armedIn == d.counted[i].cycle
  }

  predicate Quiet(d: Desk) {
    Idles(d) && d.resuming.None?
  }

  /** At most one of: a load of a resume, an armed timer, a result on the bus; and it is this cycle's. */
  predicate OneAtMost(d: Desk) {
    && |d.bus| + (if d.resuming.Some? then 1 else 0) + (if d.timer.phase != Idle then 1 else 0) <= 1
    && (forall i :: 0 <= i < |d.bus| ==> d.bus[i].armedIn == Cycle(d))
    && (d.timer.phase != Idle ==> d.armedIn == Cycle(d))
    && (d.resuming.Some? ==> d.resuming.value.sentIn == Cycle(d))
  }

  predicate OrderlyWait(d: Desk) {
    var s := d.session;
    if s.clock.paused then Quiet(d) && s.delivery == Delivery(false, None) && !s.navPending && s.flight.statePath.Some?
    else if s.navPending then Quiet(d) && s.flight.statePath.None? && s.delivery.data.None?
    else if s.delivery.data.Some? then Quiet(d) && s.flight.statePath.None? && d.heldFrom == Cycle(d)
    else OneAtMost(d) && !s.delivery.ready && s.flight.statePath.Some?
  }

  /** Between cycles nothing is on its way; within one, at most what its own load set off. */
  predicate Orderly(d: Desk) {
    var s := d.session;
    && (s.at == Top ==> Quiet(d) && s.flight.statePath.None? && !s.clock.paused)
    && (s.at == Sending ==>
          Quiet(d) && s.flight.loadCmd.Some? && s.delivery == Delivery(false, None) && !s.navPending && !s.clock.paused
          && s.flight.statePath.Some?)
    && (s.at == Waiting ==> s.flight.loadCmd.Some? && OrderlyWait(d))
  }

  lemma TimerOrderly(d: Desk, a: Action)
    requires Orderly(d) && CountsOwn(d) && Enabled(d, a) && (a.Game? || a.Tick?)
    ensures Orderly(Next(d, a)) && CountsOwn(Next(d, a))
  {
    hide Observed, Ticked;
    match a
    case Game(event, at, later) => TimerKeepsRequest(d.timer, event, at, later);
    case Tick(at) => TimerKeepsRequest(d.timer, OtherEvent, at, at);
  }

  lemma CycleOrderly(d: Desk, a: Action)
    requires Orderly(d) && CountsOwn(d) && Enabled(d, a) && (a.Begin? || a.EndCycle? || a.LeaveCycle?)
    ensures Orderly(Next(d, a)) && CountsOwn(Next(d, a))
  {
    hide Chosen;
  }

  lemma DropOrderly(d: Desk, a: Action)
    requires Orderly(d) && CountsOwn(d) && Enabled(d, a) && CleanDrop(d, a)
    requires a.SkipNext? || a.GoPrev? || a.TogglePause?
    ensures Orderly(Next(d, a)) && CountsOwn(Next(d, a))
  {
  }

  lemma ArrivalOrderly(d: Desk, a: Action)
    requires Orderly(d) && CountsOwn(d) && Enabled(d, a)
    requires a.Deliver? || a.DropDelivery? || a.LoadSent? || a.ResumeLoaded? || a.ResumeFailed?
    ensures Orderly(Next(d, a)) && CountsOwn(Next(d, a))
  {
  }

  lemma StopOrderly(d: Desk, a: Action)
    requires Orderly(d) && CountsOwn(d) && Enabled(d, a) && (a.LoadFailed? || a.RequestStop? || a.Stop?)
    ensures Orderly(Next(d, a)) && CountsOwn(Next(d, a))
  {
  }

  lemma {:induction false} NextOrderly(d: Desk, a: Action)
    requires Orderly(d) && CountsOwn(d) && Enabled(d, a) && CleanDrop(d, a)
    ensures Orderly(Next(d, a)) && CountsOwn(Next(d, a))
  {
    hide Orderly, CountsOwn, Next, Enabled, CleanDrop;
    if a.Game? || a.Tick? {
      TimerOrderly(d, a);
    } else if a.Begin? || a.EndCycle? || a.LeaveCycle? {
      CycleOrderly(d, a);
    } else if a.SkipNext? || a.GoPrev? || a.TogglePause? {
      DropOrderly(d, a);
    } else if a.LoadFailed? || a.RequestStop? || a.Stop? {
      StopOrderly(d, a);
    } else {
      ArrivalOrderly(d, a);
    }
  }

  lemma {:induction false} StaysOrderly(start: Desk, schedule: seq<Action>)
    requires Orderly(start) && CountsOwn(start) && Possible(start, schedule) && CleanThroughout(start, schedule)
    ensures Orderly(After(start, schedule)) && CountsOwn(After(start, schedule))
  {
    hide Orderly, CountsOwn, Next, Enabled, CleanDrop;
    if schedule != [] {
      StaysOrderly(start, schedule[..|schedule| - 1]);
      NextOrderly(After(start, schedule[..|schedule| - 1]), schedule[|schedule| - 1]);
    }
  }

  /** Over every run whose drops are clean, every result counted came from its cycle's own load, and so names
      the segment its cycle had loaded. */
  lemma {:induction false} CleanDropsCountOwn(grindSegmentId: Option<string>, at: int, schedule: seq<Action>)
    requires Possible(Initial(grindSegmentId, at), schedule)
    requires CleanThroughout(Initial(grindSegmentId, at), schedule)
    ensures var d := After(Initial(grindSegmentId, at), schedule);
            && Sound(d) && Orderly(d) && CountsOwn(d)
            && forall i :: 0 <= i < |d.counted| ==>
                 Names(d.commands, d.counted[i].cycle, d.counted[i].posted.result.segmentId)
  {
    hide Possible, After, CleanThroughout;
    assert Possible(Initial(grindSegmentId, at), schedule);
    StaysSound(Initial(grindSegmentId, at), schedule);
    StaysOrderly(Initial(grindSegmentId, at), schedule);
  }

  /** The scheduler's only offer: `other`, when no state of the history is on disk. */
  function OfferOf(other: HistoryEntry): Offer {
    Offer({other.loadCmd.statePath}, [other], Some(other), true)
  }

  predicate Elsewhere(history: seq<HistoryEntry>, other: HistoryEntry) {
    forall i :: 0 <= i < |history| ==> history[i].loadCmd.statePath != other.loadCmd.statePath
  }

  /** The next cycle arms, whatever the history; with a new segment, unless a state of the history is on disk. */
  lemma OtherArms(top: Desk, other: HistoryEntry)
    requires top.session.at == Top && top.session.isRunning
    requires top.session.grindSegmentId.None? ==> top.session.cursor <= |top.session.history|
    ensures var armed := Began(top, OfferOf(other));
            && armed.session.at == Sending && !armed.session.navPending && |armed.commands| == |top.commands| + 1
            && armed.session.flight.loadCmd == Some(armed.commands[|top.commands|])
            && armed == top.(session := armed.session, commands := armed.commands)
            && (top.session.grindSegmentId.Some? || Elsewhere(top.session.history, other) ==>
                  armed.commands[|top.commands|] == other.loadCmd)
  {
    var s := top.session;
    if s.grindSegmentId.None? {
      var offered := s.history + [other];
      assert Exists(offered[|s.history|], OfferOf(other).files);
      assert FirstExisting(offered, s.cursor, OfferOf(other).files) <= |s.history|;
    }
  }

  /** Something of the cycle that has just ended is still on its way. */
  predicate LeftBehind(top: Desk) {
    && top.session.at == Top && top.session.isRunning && top.resuming.None?
    && (top.session.grindSegmentId.None? ==> top.session.cursor <= |top.session.history|)
    && (|| (top.timer.phase != Idle && top.armedIn == Cycle(top))
        || (top.bus != [] && top.bus[0].armedIn == Cycle(top)))
  }

  /** Cycle n + 1 counted a result of the load of cycle n. */
  predicate CountsPrevious(d: Desk, n: nat) {
    Cycle(d) == n + 1 && CountsFrom(d, n + 1, n)
  }

  lemma PreviousIsNotOwn(d: Desk, n: nat)
    requires CountsPrevious(d, n)
    ensures !CountsOwn(d)
  {
  }

  lemma NextMiscounts(start: Desk, schedule: seq<Action>, top: Desk, other: HistoryEntry)
    returns (longer: seq<Action>, end: Desk)
    requires Leads(start, schedule, top) && LeftBehind(top)
    ensures Leads(start, longer, end) && CountsPrevious(end, Cycle(top))
    ensures top.session.grindSegmentId.Some? || Elsewhere(top.session.history, other) ==>
              end.commands[Cycle(top)] == other.loadCmd
  {
    hide Leads, Elsewhere;
    OtherArms(top, other);
    hide Chosen;
    var begin := Begin(OfferOf(other));
    Extend(start, schedule, begin, top);
    var armed := Next(top, begin);
    hide Next;
    longer, end := OriginCounted(start, schedule + [begin], armed, Cycle(top));
  }

  /** The cycle of `d` has ended, with its history as it was. */
  predicate EndsCycleOf(top: Desk, d: Desk) {
    && LeftBehind(top) && top.commands == d.commands && top.session.history == d.session.history
    && top.session.grindSegmentId == d.session.grindSegmentId
  }

  /** Navigation has woken the cycle of `d`, with something of it still on its way. */
  predicate Leaving(here: Desk, d: Desk) {
    var s := here.session;
    && s.at == Waiting && s.navPending && s.delivery.ready && s.isRunning && here.resuming.None?
    && (s.grindSegmentId.None? ==> s.cursor <= |s.history|)
    && (|| (here.timer.phase != Idle && here.armedIn == Cycle(here))
        || (here.bus != [] && here.bus[0].armedIn == Cycle(here)))
    && here.commands == d.commands && s.history == d.session.history && s.grindSegmentId == d.session.grindSegmentId
  }

  lemma LeavingEnds(here: Desk, d: Desk)
    requires Leaving(here, d)
    ensures Enabled(here, EndCycle) && EndsCycleOf(Next(here, EndCycle), d)
  {
  }

  lemma NavWakes(d: Desk, a: Action)
    requires Orderly(d) && Sound(d) && Enabled(d, a) && Drops(d, a) && !AtRest(d) && !a.TogglePause?
    ensures var here := Next(d, a); var sent := LoadSent("", here.lastAt);
            if here.session.at == Sending then Enabled(here, sent) && Leaving(Next(here, sent), d) else Leaving(here, d)
  {
    hide Named;
  }

  /** From a navigation that is not clean to the end of its cycle. */
  lemma NavLeaves(d: Desk, a: Action) returns (schedule: seq<Action>, top: Desk)
    requires Orderly(d) && Sound(d) && Enabled(d, a) && Drops(d, a) && !AtRest(d) && !a.TogglePause?
    ensures Leads(Next(d, a), schedule, top) && EndsCycleOf(top, d)
  {
    NavWakes(d, a);
    var start := Next(d, a);
    schedule, top := [], start;
    assert Leads(start, schedule, top);
    hide Leads, Orderly, Sound, Leaving, Enabled, Next, EndsCycleOf;
    if top.session.at == Sending {
      var sent := LoadSent("", top.lastAt);
      Extend(start, schedule, sent, top);
      schedule, top := schedule + [sent], Next(top, sent);
    }
    LeavingEnds(top, d);
    Extend(start, schedule, EndCycle, top);
    schedule, top := schedule + [EndCycle], Next(top, EndCycle);
  }

  /** Paused, with the result of the attempt that the pause was to drop on the bus. */
  predicate PausedTooLate(here: Desk, d: Desk) {
    var s := here.session;
    && s.at == Waiting && Resumes(s) && !s.navPending && here.resuming.None? && here.commands == d.commands
    && |here.bus| == 1 && s.flight.loadCmd.Some? && s.history == d.session.history && s.cursor == d.session.cursor
    && s.grindSegmentId == d.session.grindSegmentId
  }

  lemma PauseLeavesResult(d: Desk, a: Action) returns (schedule: seq<Action>, here: Desk)
    requires Orderly(d) && Enabled(d, a) && Drops(d, a) && !AtRest(d) && a.TogglePause?
    ensures Leads(Next(d, a), schedule, here) && PausedTooLate(here, d)
  {
    var start := Next(d, a);
    schedule, here := [], start;
    assert Leads(start, schedule, here);
    hide Leads;
    if here.session.at == Sending {
      var sent := LoadSent("", here.lastAt);
      Extend(start, schedule, sent, here);
      schedule, here := schedule + [sent], Next(here, sent);
      hide Next;
      schedule, here := TimerFinishes(start, schedule, here);
    }
  }

  /** A resume then arms the timer again, and the cycle ends with the result while it runs. */
  lemma ResumeLeavesTimer(start: Desk, before: seq<Action>, here: Desk, d: Desk)
    returns (schedule: seq<Action>, top: Desk)
    requires Leads(start, before, here) && PausedTooLate(here, d)
    requires d.session.grindSegmentId.None? ==> d.session.cursor < |d.session.history|
    ensures Leads(start, schedule, top) && EndsCycleOf(top, d)
  {
    hide Leads;
    var resume, loaded := TogglePause(0.0), ResumeLoaded("", here.lastAt);
    Extend(start, before, resume, here);
    var awaiting := Next(here, resume);
    Extend(start, before + [resume], loaded, awaiting);
    schedule, top := before + [resume] + [loaded], Next(awaiting, loaded);
    var armed := top;
    assert armed.timer.phase != Idle && armed.session.isRunning;
    schedule, top := BusCounted(start, schedule, armed, 0);
  }

  /** A drop that is not clean, be it a skip, a step back or a pause, can always end in a miscount, with no other
      unclean drop after it: the next cycle may count a result of the dropped cycle's load, which names its
      segment, whatever other segment it loaded itself. */
  lemma {:induction false} UncleanDropCanMiscount(d: Desk, a: Action, other: HistoryEntry)
    requires Orderly(d) && Sound(d) && Enabled(d, a) && Drops(d, a) && !AtRest(d)
    ensures exists schedule: seq<Action> ::
              && Possible(Next(d, a), schedule) && CleanThroughout(Next(d, a), schedule)
              && var end := After(Next(d, a), schedule);
                 && Sound(end) && d.commands <= end.commands && CountsPrevious(end, Cycle(d))
                 && (d.session.grindSegmentId.Some? || Elsewhere(d.session.history, other) ==>
                       end.commands[Cycle(d)] == other.loadCmd)
  {
    var start := Next(d, a);
    NextSound(d, a);
    var schedule, top;
    if a.TogglePause? {
      var before, here := PauseLeavesResult(d, a);
      schedule, top := ResumeLeavesTimer(start, before, here, d);
    } else {
      schedule, top := NavLeaves(d, a);
    }
    hide Sound, Orderly, Next, Elsewhere;
    var longer, end := NextMiscounts(start, schedule, top, other);
    StaysSound(start, longer);
    assert Possible(start, longer) && After(start, longer) == end;
  }

  /** Exactly when an attempt can be dropped without harm. With all drops clean so far, a drop is clean if and
      only if, as long as all later ones are, every cycle counts its own load's results only. */
  lemma {:induction false} DropIsCleanIff(d: Desk, a: Action)
    requires Sound(d) && Orderly(d) && CountsOwn(d) && Enabled(d, a) && Drops(d, a)
    ensures var dropped := Next(d, a);
            AtRest(d)
            <==> forall rest: seq<Action> :: Possible(dropped, rest) && CleanThroughout(dropped, rest) ==>
                   CountsOwn(After(dropped, rest))
  {
    var dropped := Next(d, a);
    if AtRest(d) {
      NextOrderly(d, a);
      hide *;
      forall rest: seq<Action> | Possible(dropped, rest) && CleanThroughout(dropped, rest)
        ensures CountsOwn(After(dropped, rest))
      {
        StaysOrderly(dropped, rest);
      }
    } else {
      assert d.commands != [];
      UncleanDropCanMiscount(d, a, HistoryEntry(d.commands[0], None));
      hide *;
      var rest: seq<Action> :| Possible(dropped, rest) && CleanThroughout(dropped, rest)
                               && CountsPrevious(After(dropped, rest), Cycle(d));
      PreviousIsNotOwn(After(dropped, rest), Cycle(d));
    }
  }
}
