/** The session's elapsed clock as the route bar displays it. */
module RouteBar {
  import opened Wrappers

  function Elapsed(startedAt: Option<real>, pausedAt: Option<real>, pauseOffset: real, now: real): real {
    if startedAt.None? then 0.0
    else
      var effectiveNow := if pausedAt.Some? then pausedAt.value else now;
      var elapsed := effectiveNow - startedAt.value - pauseOffset;
      if elapsed < 0.0 then 0.0 else elapsed
  }
}

/** Every interleaving of the practice loop with results, navigation, pauses and stops. */
module PracticeSystem {
  import opened Wrappers
  import opened PracticeTimer
  import opened PracticeSession
  import RouteBar

  /** How the cursor moved since the current cycle was armed. */
  datatype Move = Forward | Backward | Completion

  /** The session beside what an observer keeps: the cursor when the cycle was armed and the moves since;
      how many navigation commands still await their pause command; the time spent unpaused since the
      session's start; and the open span of a pause that a stop cut short. */
  datatype System = System(
    session: Session,
    armedCursor: nat,
    moves: seq<Move>,
    sending: nat,
    startedAt: real,
    lastAt: real,
    active: real,
    cutShort: real)

  datatype Action =
    | Begin(offer: Offer)
    | LoadSent
    | LoadFailed
    | EndCycle
    | ReceiveResult(result: AttemptResult)
    | ReceiveEvent(event: Emission)
    | SkipNext
    | GoPrev
    | NavSent
    | TogglePause
    | RequestStop
    | Stop

  datatype Timed = Timed(action: Action, at: real)

  predicate Enabled(s: System, t: Timed) {
    && s.lastAt <= t.at
    && match t.action
       case Begin(_) => s.session.at == Top
       case LoadSent => s.session.at == Sending
       case LoadFailed => s.session.at == Sending
       case EndCycle => s.session.at == Waiting  // woken by the event, or the session is no longer alive
       case NavSent => s.sending > 0
       case Stop => s.session.at == Stopping
       case _ => true
  }

  function Acted(s: Session, a: Action, at: real): Session {
    match a
    case Begin(offer) => CycleStarted(s, offer)
    case LoadSent => s.(at := Waiting)
    case LoadFailed => s.(at := Stopping)
    case EndCycle => CycleEnded(s)
    case ReceiveResult(result) => ResultReceived(s, result)
    case ReceiveEvent(event) => EventReceived(s, event)
    case SkipNext => SkippedNext(s)
    case GoPrev => WentPrev(s)
    case NavSent => NavFinished(s)
    case TogglePause => PauseToggled(s, at)
    case RequestStop => s.(isRunning := false)
    case Stop => SessionStopped(s)
  }

  /** The cursor move that an action makes outside the choice of a segment. */
  function MovesBy(s: Session, a: Action): seq<Move> {
    match a
    case SkipNext => if NavOk(s) then [Forward] else []
    case GoPrev => if NavOk(s) && s.cursor > 0 then [Backward] else []
    case EndCycle => if !s.navPending && s.delivery.data.Some? then [Completion] else []
    case _ => []
  }

  function Next(s: System, t: Timed): System {
    var session := Acted(s.session, t.action, t.at);
    var armed := t.action.Begin? && session.at == Sending;
    var moves := MovesBy(s.session, t.action);
    s.(session := session,
       armedCursor := if armed then session.cursor else s.armedCursor,
       moves := if armed then [] else s.moves + moves,
       sending := if t.action.NavSent? && s.sending > 0 then s.sending - 1
                  else if moves != [] && !t.action.EndCycle? then s.sending + 1
                  else s.sending,
       lastAt := t.at,
       active := s.active + if s.session.clock.paused then 0.0 else t.at - s.lastAt,
       cutShort := s.cutShort + if t.action.Stop? && s.session.clock.pausedAtEpoch.Some?
                                then t.at - s.session.clock.pausedAtEpoch.value else 0.0)
  }

  function Initial(grindSegmentId: Option<string>, startedAt: real): System {
    System(Created(grindSegmentId).(isRunning := true), 0, [], 0, startedAt, startedAt, 0.0, 0.0)
  }

  predicate Possible(start: System, schedule: seq<Timed>)
  {
    schedule == [] ||
    (Possible(start, schedule[..|schedule| - 1])
     && Enabled(After(start, schedule[..|schedule| - 1]), schedule[|schedule| - 1]))
  }

  function After(start: System, schedule: seq<Timed>): System {
    if schedule == [] then start
    else Next(After(start, schedule[..|schedule| - 1]), schedule[|schedule| - 1])
  }

  predicate InCycle(s: Session) {
    s.at in {Sending, Waiting}
  }

  predicate InFlight(s: Session) {
    InCycle(s) && s.flight.statePath.Some?
  }

  predicate Live(s: Session) {
    s.at !in {Stopping, Stopped}
  }

  /** The cursor stays within the history, which grind mode never grows. */
  predicate CursorSound(s: Session) {
    if s.grindSegmentId.Some? then s.history == [] else Live(s) ==> s.cursor <= |s.history|
  }

  function Moved(armed: nat, moves: seq<Move>): int {
    if moves == [] then armed
    else if moves[0] == Backward then armed - 1
    else armed + 1
  }

  /** The command armed in a cycle is the entry under the cursor that armed it. */
  predicate LoadedAt(s: Session, cursor: nat) {
    s.flight.loadCmd.Some?
    && (s.grindSegmentId.None? ==> cursor < |s.history| && s.history[cursor].loadCmd == s.flight.loadCmd.value)
  }

  predicate CycleSound(s: System) {
    Live(s.session) ==>
      && |s.moves| <= 1
      && s.session.cursor == Moved(s.armedCursor, s.moves)
      && (s.session.navPending ==> s.moves != [])
      && (InCycle(s.session) ==>
            && LoadedAt(s.session, s.armedCursor)
            && (s.moves != [] ==> s.session.navPending)
            && (s.session.delivery.data.Some? ==> s.session.flight.statePath.None?))
      && (s.session.flight.statePath.Some? ==>
            && s.moves == []
            && LoadedAt(s.session, s.armedCursor)
            && s.session.flight.statePath.value == s.session.flight.loadCmd.value.statePath)
  }

  predicate Sound(s: System) {
    CursorSound(s.session) && CycleSound(s)
  }

  lemma BeginSound(s: System, t: Timed)
    requires Sound(s) && Enabled(s, t) && t.action.Begin?
    ensures Sound(Next(s, t)) && s.session.history <= Next(s, t).session.history
  {
  }

  lemma EndSound(s: System, t: Timed)
    requires Sound(s) && Enabled(s, t) && t.action.EndCycle?
    ensures Sound(Next(s, t)) && Next(s, t).session.history == s.session.history
  {
  }

  lemma NavSound(s: System, t: Timed)
    requires Sound(s) && Enabled(s, t) && (t.action.SkipNext? || t.action.GoPrev?)
    ensures Sound(Next(s, t)) && Next(s, t).session.history == s.session.history
  {
  }

  lemma ReceiveSound(s: System, t: Timed)
    requires Sound(s) && Enabled(s, t)
    requires t.action.ReceiveResult? || t.action.ReceiveEvent? || t.action.NavSent? || t.action.TogglePause?
    ensures Sound(Next(s, t)) && Next(s, t).session.history == s.session.history
  {
  }

  lemma AwaitSound(s: System, t: Timed)
    requires Sound(s) && Enabled(s, t)
    requires t.action.LoadSent? || t.action.LoadFailed? || t.action.RequestStop? || t.action.Stop?
    ensures Sound(Next(s, t)) && Next(s, t).session.history == s.session.history
  {
  }

  /** Every step keeps the cursor sound and only appends to the history. */
  lemma {:induction false} NextSound(s: System, t: Timed)
    requires Sound(s) && Enabled(s, t)
    ensures Sound(Next(s, t))
    ensures s.session.history <= Next(s, t).session.history
  {
    hide Sound, Next;
    match t.action
    case Begin(_) => BeginSound(s, t);
    case EndCycle => EndSound(s, t);
    case SkipNext => NavSound(s, t);
    case GoPrev => NavSound(s, t);
    case ReceiveResult(_) => ReceiveSound(s, t);
    case ReceiveEvent(_) => ReceiveSound(s, t);
    case NavSent => ReceiveSound(s, t);
    case TogglePause => ReceiveSound(s, t);
    case _ => AwaitSound(s, t);
  }

  lemma KeepsGrind(s: System, t: Timed)
    ensures Next(s, t).session.grindSegmentId == s.session.grindSegmentId
  {
    hide FirstExisting;
  }

  lemma {:induction false} ReachableSound(grindSegmentId: Option<string>, startedAt: real, schedule: seq<Timed>)
    requires Possible(Initial(grindSegmentId, startedAt), schedule)
    ensures Sound(After(Initial(grindSegmentId, startedAt), schedule))
    ensures After(Initial(grindSegmentId, startedAt), schedule).session.grindSegmentId == grindSegmentId
  {
    if schedule != [] {
      hide Next, Sound, Enabled;
      var earlier := schedule[..|schedule| - 1];
      ReachableSound(grindSegmentId, startedAt, earlier);
      KeepsGrind(After(Initial(grindSegmentId, startedAt), earlier), schedule[|schedule| - 1]);
      NextSound(After(Initial(grindSegmentId, startedAt), earlier), schedule[|schedule| - 1]);
    }
  }

  /** Over every interleaving: whenever an attempt is in flight outside grind mode, the cursor lies inside
      the history and the entry there is the loaded command; in grind mode the history stays empty, so
      this holds exactly outside grind mode. */
  lemma {:induction false} InFlightMeansLoaded(grindSegmentId: Option<string>, startedAt: real, schedule: seq<Timed>)
    requires Possible(Initial(grindSegmentId, startedAt), schedule)
    ensures var s := After(Initial(grindSegmentId, startedAt), schedule).session;
            InFlight(s) ==>
              (grindSegmentId.None? <==>
                 s.cursor < |s.history| && s.flight.loadCmd == Some(s.history[s.cursor].loadCmd))
              && s.flight.loadCmd.Some? && s.flight.statePath == Some(s.flight.loadCmd.value.statePath)
  {
    ReachableSound(grindSegmentId, startedAt, schedule);
  }

  /** Over every interleaving and in every mode: an armed cycle moves the cursor at most once, by exactly
      one, and never both by completion and by navigation; while its attempt is in flight, not at all. */
  lemma {:induction false} OneMovePerCycle(grindSegmentId: Option<string>, startedAt: real, schedule: seq<Timed>)
    requires Possible(Initial(grindSegmentId, startedAt), schedule)
    ensures var s := After(Initial(grindSegmentId, startedAt), schedule);
            Live(s.session) ==>
              && |s.moves| <= 1
              && s.session.cursor - s.armedCursor
                   == (if s.moves == [] then 0 else if s.moves == [Backward] then -1 else 1)
              && (InFlight(s.session) ==> s.moves == [])
  {
    ReachableSound(grindSegmentId, startedAt, schedule);
    var s := After(Initial(grindSegmentId, startedAt), schedule);
    assert |s.moves| == 1 ==> s.moves == [s.moves[0]];
  }

  /** The history only grows at its end, over any continuation of a run. */
  lemma {:induction false} HistoryAppendOnly(start: System, schedule: seq<Timed>)
    requires Sound(start) && Possible(start, schedule)
    ensures Sound(After(start, schedule))
    ensures start.session.history <= After(start, schedule).session.history
  {
    if schedule != [] {
      hide Next, Sound, Enabled;
      HistoryAppendOnly(start, schedule[..|schedule| - 1]);
      NextSound(After(start, schedule[..|schedule| - 1]), schedule[|schedule| - 1]);
    }
  }

  /** The entry in flight, with nothing received yet. */
  predicate Loaded(s: Session, entry: HistoryEntry) {
    && s.at == Sending && s.flight == Flight(Some(entry.loadCmd.id), entry.allocator, None,
                                             Some(entry.loadCmd.statePath), Some(entry.loadCmd))
    && s.delivery == Delivery(false, None) && !s.navPending
  }

  lemma BeginLoads(s: System, offer: Offer, at: real)
    requires Sound(s) && Enabled(s, Timed(Begin(offer), at)) && s.session.isRunning && offer.connected
    requires s.session.grindSegmentId.None?
    ensures var here := s.session; var next := Next(s, Timed(Begin(offer), at)).session;
            && (next.at == Sending ==> next.cursor < |next.history| && Loaded(next, next.history[next.cursor]))
            && (here.cursor < |here.history| && here.history[here.cursor].loadCmd.statePath in offer.files ==>
                  && next.history == here.history && next.cursor == here.cursor
                  && Loaded(next, here.history[here.cursor]))
  {
  }

  /** What a cycle loads, in every run: with the cursor on a visited entry whose state is on disk, just that
      entry, and the history and the cursor stay; in grind mode the pinned segment. */
  lemma {:induction false} LoadsAtCursor(grindSegmentId: Option<string>, startedAt: real, schedule: seq<Timed>,
                                         offer: Offer, at: real)
    requires Possible(Initial(grindSegmentId, startedAt), schedule)
    requires Enabled(After(Initial(grindSegmentId, startedAt), schedule), Timed(Begin(offer), at))
    ensures var s := After(Initial(grindSegmentId, startedAt), schedule).session;
            var next := Next(After(Initial(grindSegmentId, startedAt), schedule), Timed(Begin(offer), at)).session;
            if !s.isRunning || !offer.connected then next == s.(at := Stopping)
            else if grindSegmentId.Some? then
              && next.history == s.history && next.cursor == s.cursor
              && (next.at == Sending <==> offer.grind.Some?)
              && (offer.grind.Some? ==> Loaded(next, offer.grind.value))
            else
              && (next.at == Sending ==> next.cursor < |next.history| && Loaded(next, next.history[next.cursor]))
              && (s.cursor < |s.history| && s.history[s.cursor].loadCmd.statePath in offer.files ==>
                    && next.history == s.history && next.cursor == s.cursor
                    && Loaded(next, s.history[s.cursor]))
  {
    ReachableSound(grindSegmentId, startedAt, schedule);
    var s := After(Initial(grindSegmentId, startedAt), schedule);
    hide Possible, After, Sound;
    if s.session.isRunning && offer.connected && grindSegmentId.None? {
      BeginLoads(s, offer, at);
      hide Next, Loaded;
    }
  }

  predicate NoBegin(schedule: seq<Timed>) {
    forall i :: 0 <= i < |schedule| ==> !schedule[i].action.Begin?
  }

  /** The cycle was left by one navigation command, and its cursor move stands. */
  predicate Navigated(s: System, cursor: nat, history: seq<HistoryEntry>, move: Move) {
    Live(s.session) ==>
      && s.moves == [move] && s.armedCursor == cursor && s.session.history == history
      && (InCycle(s.session) ==> s.session.navPending)
  }

  lemma StaysNavigated(s: System, t: Timed, cursor: nat, history: seq<HistoryEntry>, move: Move)
    requires Sound(s) && Navigated(s, cursor, history, move) && Enabled(s, t) && !t.action.Begin?
    ensures Navigated(Next(s, t), cursor, history, move)
  {
  }

  lemma {:induction false} NavigationStands(start: System, schedule: seq<Timed>, cursor: nat,
                                            history: seq<HistoryEntry>, move: Move)
    requires Sound(start) && Navigated(start, cursor, history, move)
    requires Possible(start, schedule) && NoBegin(schedule)
    ensures Sound(After(start, schedule)) && Navigated(After(start, schedule), cursor, history, move)
  {
    if schedule != [] {
      hide Next, Sound, Enabled, Navigated;
      var earlier := schedule[..|schedule| - 1];
      NavigationStands(start, earlier, cursor, history, move);
      NextSound(After(start, earlier), schedule[|schedule| - 1]);
      StaysNavigated(After(start, earlier), schedule[|schedule| - 1], cursor, history, move);
    }
  }

  lemma {:induction false} StaysGrind(start: System, schedule: seq<Timed>)
    requires Possible(start, schedule)
    ensures After(start, schedule).session.grindSegmentId == start.session.grindSegmentId
  {
    if schedule != [] {
      hide Next, Enabled;
      StaysGrind(start, schedule[..|schedule| - 1]);
      KeepsGrind(After(start, schedule[..|schedule| - 1]), schedule[|schedule| - 1]);
    }
  }

  lemma NavLeaves(s: System, nav: Timed)
    requires Sound(s) && Enabled(s, nav) && InFlight(s.session) && NavOk(s.session)
    requires nav.action.SkipNext? || (nav.action.GoPrev? && s.session.cursor > 0)
    ensures Navigated(Next(s, nav), s.session.cursor, s.session.history,
                      if nav.action.GoPrev? then Backward else Forward)
  {
  }

  lemma TopEnabled(s: System, offer: Offer, at: real)
    requires Enabled(s, Timed(Begin(offer), at))
    ensures s.session.at == Top
  {
  }

  /** At the top of the loop after navigating, the cursor has moved by one. */
  lemma NavigatedTop(s: System, cursor: nat, history: seq<HistoryEntry>, move: Move)
    requires Sound(s) && Navigated(s, cursor, history, move) && s.session.at == Top
    ensures s.session.history == history
    ensures s.session.cursor == if move == Backward then cursor - 1 else cursor + 1
  {
  }

  /** From a navigation to the command of the next cycle. */
  predicate NavigatesTo(s: System, nav: Timed, meanwhile: seq<Timed>, offer: Offer, at: real) {
    && (nav.action.SkipNext? || (nav.action.GoPrev? && s.session.cursor > 0))
    && Enabled(s, nav) && InFlight(s.session) && s.session.isRunning && !s.session.clock.paused
    && NoBegin(meanwhile) && Possible(Next(s, nav), meanwhile)
    && var top := After(Next(s, nav), meanwhile);
       Enabled(top, Timed(Begin(offer), at)) && top.session.isRunning && offer.connected
  }

  /** That cycle loads the entry after the one that was in flight, or before it, if it has been visited and its
      state is on disk. */
  predicate Lands(s: System, nav: Timed, meanwhile: seq<Timed>, offer: Offer, at: real) {
    var history := s.session.history;
    var next := Next(After(Next(s, nav), meanwhile), Timed(Begin(offer), at)).session;
    var target := if nav.action.GoPrev? then s.session.cursor - 1 else s.session.cursor + 1;
    0 <= target < |history| && history[target].loadCmd.statePath in offer.files ==>
      next.cursor == target && Loaded(next, history[target])
  }

  lemma LandsFromLeft(left: System, meanwhile: seq<Timed>, cursor: nat, history: seq<HistoryEntry>, move: Move,
                      offer: Offer, at: real)
    requires Sound(left) && left.session.grindSegmentId.None? && Navigated(left, cursor, history, move)
    requires NoBegin(meanwhile) && Possible(left, meanwhile)
    requires Enabled(After(left, meanwhile), Timed(Begin(offer), at))
    requires After(left, meanwhile).session.isRunning && offer.connected
    ensures var next := Next(After(left, meanwhile), Timed(Begin(offer), at)).session;
            var target := if move == Backward then cursor - 1 else cursor + 1;
            0 <= target < |history| && history[target].loadCmd.statePath in offer.files ==>
              next.cursor == target && Loaded(next, history[target])
  {
    hide *;
    NavigationStands(left, meanwhile, cursor, history, move);
    StaysGrind(left, meanwhile);
    var top := After(left, meanwhile);
    TopEnabled(top, offer, at);
    NavigatedTop(top, cursor, history, move);
    BeginLoads(top, offer, at);
  }

  lemma LandsFrom(s: System, nav: Timed, meanwhile: seq<Timed>, offer: Offer, at: real)
    requires Sound(s) && s.session.grindSegmentId.None? && NavigatesTo(s, nav, meanwhile, offer, at)
    ensures Lands(s, nav, meanwhile, offer, at)
  {
    hide Sound, Next, Enabled, Possible, After, Navigated, Loaded, NoBegin;
    KeepsGrind(s, nav);
    NextSound(s, nav);
    NavLeaves(s, nav);
    LandsFromLeft(Next(s, nav), meanwhile, s.session.cursor, s.session.history,
                  if nav.action.GoPrev? then Backward else Forward, offer, at);
  }

  /** Going back goes back, in every run: whatever happens between the command and the next cycle, that cycle
      loads the entry before the one that was in flight; and after a skip the one after it. */
  lemma {:induction false} NavigationLands(grindSegmentId: Option<string>, startedAt: real, past: seq<Timed>,
                                           nav: Timed, meanwhile: seq<Timed>, offer: Offer, at: real)
    requires grindSegmentId.None? && Possible(Initial(grindSegmentId, startedAt), past)
    requires NavigatesTo(After(Initial(grindSegmentId, startedAt), past), nav, meanwhile, offer, at)
    ensures Lands(After(Initial(grindSegmentId, startedAt), past), nav, meanwhile, offer, at)
  {
    ReachableSound(grindSegmentId, startedAt, past);
    hide *;
    LandsFrom(After(Initial(grindSegmentId, startedAt), past), nav, meanwhile, offer, at);
  }

  /** The pause flag and the pause mark agree, and the clock's fields account for the time that passed. */
  predicate ClockSound(s: System) {
    var clock := s.session.clock;
    && (clock.paused <==> clock.pausedAtEpoch.Some?)
    && s.startedAt <= s.lastAt && 0.0 <= s.active && 0.0 <= s.cutShort
    && (clock.paused ==> s.startedAt <= clock.pausedAtEpoch.value <= s.lastAt)
    && (if clock.paused then clock.pausedAtEpoch.value else s.lastAt) - s.startedAt - clock.offsetSec
         == s.active + s.cutShort
  }

  /** Only pausing, resuming and stopping touch the clock. */
  lemma ClockMoves(s: Session, a: Action, at: real)
    ensures var clock := Acted(s, a, at).clock;
            && (a.TogglePause? ==> clock == PauseToggled(s, at).clock)
            && (a.Stop? ==> clock == Clock(false, None, s.clock.offsetSec))
            && (!a.TogglePause? && !a.Stop? ==> clock == s.clock)
  {
  }

  lemma NextClockSound(s: System, t: Timed)
    requires ClockSound(s) && s.lastAt <= t.at
    ensures ClockSound(Next(s, t)) && Next(s, t).startedAt == s.startedAt
  {
    ClockMoves(s.session, t.action, t.at);
  }

  lemma {:induction false} ReachableClockSound(grindSegmentId: Option<string>, startedAt: real, schedule: seq<Timed>)
    requires Possible(Initial(grindSegmentId, startedAt), schedule)
    ensures var s := After(Initial(grindSegmentId, startedAt), schedule);
            ClockSound(s) && s.startedAt == startedAt
  {
    if schedule != [] {
      var earlier := schedule[..|schedule| - 1];
      ReachableClockSound(grindSegmentId, startedAt, earlier);
      NextClockSound(After(Initial(grindSegmentId, startedAt), earlier), schedule[|schedule| - 1]);
    }
  }

  function Displayed(s: System, now: real): real {
    RouteBar.Elapsed(Some(s.startedAt), if s.session.clock.paused then s.session.clock.pausedAtEpoch else None,
                     s.session.clock.offsetSec, now)
  }

  /** Over every run of pauses, resumes and stops with a monotone clock, the displayed elapsed time is the
      unpaused time plus the open span of a pause that a stop cut short; so it is the unpaused time exactly
      when no pause was cut short. It stands still while paused and does not jump on resume. */
  lemma {:induction false} DisplayedIsUnpausedTime(grindSegmentId: Option<string>, startedAt: real,
                                                   schedule: seq<Timed>, now: real)
    requires Possible(Initial(grindSegmentId, startedAt), schedule)
    requires After(Initial(grindSegmentId, startedAt), schedule).lastAt <= now
    ensures var s := After(Initial(grindSegmentId, startedAt), schedule);
            var unpaused := s.active + if s.session.clock.paused then 0.0 else now - s.lastAt;
            && (s.session.clock.paused <==> s.session.clock.pausedAtEpoch.Some?)
            && Displayed(s, now) == unpaused + s.cutShort
            && (Displayed(s, now) == unpaused <==> s.cutShort == 0.0)
            && (s.session.clock.paused ==> Displayed(s, now) == Displayed(s, s.lastAt))
            && Displayed(Next(s, Timed(TogglePause, now)), now) == Displayed(s, now)
  {
    ReachableClockSound(grindSegmentId, startedAt, schedule);
    var s := After(Initial(grindSegmentId, startedAt), schedule);
    NextClockSound(s, Timed(TogglePause, now));
  }

  /** A stop changes what is displayed exactly when it ends a pause that has lasted a while. */
  lemma {:induction false} StopWhilePausedJumps(grindSegmentId: Option<string>, startedAt: real,
                                                schedule: seq<Timed>, now: real)
    requires Possible(Initial(grindSegmentId, startedAt), schedule)
    requires Enabled(After(Initial(grindSegmentId, startedAt), schedule), Timed(Stop, now))
    ensures var s := After(Initial(grindSegmentId, startedAt), schedule);
            (Displayed(Next(s, Timed(Stop, now)), now) != Displayed(s, now)) ==
            (s.session.clock.paused && s.session.clock.pausedAtEpoch != Some(now))
  {
    ReachableClockSound(grindSegmentId, startedAt, schedule);
    NextClockSound(After(Initial(grindSegmentId, startedAt), schedule), Timed(Stop, now));
  }
}
