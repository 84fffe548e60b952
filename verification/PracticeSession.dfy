/** The practice session: a history of visited segments, a cursor into it, and a pausable clock. */
module PracticeSession {
  import opened Wrappers
  import opened PracticeTimer

  datatype LoadCmd = LoadCmd(id: string, statePath: string, endType: string, deathPenaltyMs: int, autoAdvanceDelayMs: int)

  datatype HistoryEntry = HistoryEntry(loadCmd: LoadCmd, allocator: Option<string>)

  /** Where the run loop's coroutine is suspended. */
  datatype Await =
    | Top       // about to run the next cycle
    | Sending   // awaiting the load command
    | Waiting   // awaiting the result event
    | Stopping  // the loop has been left; awaiting the stop command
    | Stopped

  /** The attempt being played: its segment, where it came from, its event episode, the state that a
      death reloads (present exactly while the attempt is in flight) and the command that loaded it. */
  datatype Flight = Flight(segmentId: Option<string>, allocator: Option<string>, episodeId: Option<string>,
                           statePath: Option<string>, loadCmd: Option<LoadCmd>)

  /** The result event and its data. */
  datatype Delivery = Delivery(ready: bool, data: Option<AttemptResult>)

  datatype Tally = Tally(attempted: nat, completed: nat)

  datatype Clock = Clock(paused: bool, pausedAtEpoch: Option<real>, offsetSec: real)

  datatype Session = Session(
    grindSegmentId: Option<string>,
    isRunning: bool,
    at: Await,
    flight: Flight,
    delivery: Delivery,
    tally: Tally,
    clock: Clock,
    history: seq<HistoryEntry>,
    cursor: nat,
    navPending: bool)

  function Created(grindSegmentId: Option<string>): Session {
    Session(grindSegmentId, false, Top, Flight(None, None, None, None, None), Delivery(false, None), Tally(0, 0),
            Clock(false, None, 0.0), [], 0, false)
  }

  predicate Exists(entry: HistoryEntry, files: set<string>) {
    entry.loadCmd.statePath in files
  }

  /** The first entry from `k` on whose state file exists, or the end of the history. */
  function FirstExisting(history: seq<HistoryEntry>, k: nat, files: set<string>): (r: nat)
    requires k <= |history|
    ensures k <= r <= |history|
    ensures forall i :: k <= i < r ==> !Exists(history[i], files)
    ensures r < |history| ==> Exists(history[r], files)
    decreases |history| - k
  {
    if k == |history| || Exists(history[k], files) then k else FirstExisting(history, k + 1, files)
  }

  lemma ExistsOrLater(history: seq<HistoryEntry>, k: nat, files: set<string>)
    requires k < |history|
    ensures FirstExisting(history, k, files)
         == if Exists(history[k], files) then k else FirstExisting(history, k + 1, files)
  {
  }

  lemma NoneLeft(history: seq<HistoryEntry>, files: set<string>)
    ensures FirstExisting(history, |history|, files) == |history|
  {
  }

  /** What a cycle finds on disk and gets from the scheduler: the picks it answers with in turn, until it has
      none. */
  datatype Offer = Offer(files: set<string>, picks: seq<HistoryEntry>, grind: Option<HistoryEntry>, connected: bool)

  /** The entry to load next, with the history and cursor that choosing it leaves: every pick that was asked
      for joins the history, whether or not its state file exists. */
  function Chosen(s: Session, o: Offer): (seq<HistoryEntry>, nat, Option<HistoryEntry>) {
    if s.grindSegmentId.Some? then (s.history, s.cursor, o.grind)
    else if s.cursor > |s.history| then (s.history, s.cursor, None)
    else
      var offered := s.history + o.picks;
      var k := FirstExisting(offered, s.cursor, o.files);
      if k < |s.history| then (s.history, k, Some(offered[k]))
      else if k < |offered| then (offered[..k + 1], k, Some(offered[k]))
      else (offered, k, None)
  }

  function EntryArmed(s: Session, entry: HistoryEntry): Session {
    s.(at := Sending, delivery := Delivery(false, None), navPending := false,
       flight := Flight(Some(entry.loadCmd.id), entry.allocator, None, Some(entry.loadCmd.statePath), Some(entry.loadCmd)))
  }

  function CycleStarted(s: Session, o: Offer): Session {
    if !s.isRunning || !o.connected then s.(at := Stopping)
    else
      var (history, cursor, entry) := Chosen(s, o);
      var placed := s.(history := history, cursor := cursor);
      if entry.None? then placed.(at := Stopping) else EntryArmed(placed, entry.value)
  }

  function Counted(t: Tally, result: AttemptResult): Tally {
    Tally(t.attempted + 1, t.completed + if result.completed then 1 else 0)
  }

  /** The end of a cycle, when the result event is set or the session is no longer alive. */
  function CycleEnded(s: Session): Session {
    if s.navPending then s.(at := Top, navPending := false, flight := s.flight.(segmentId := None))
    else if s.delivery.data.Some? then
      s.(at := Top, cursor := s.cursor + 1, tally := Counted(s.tally, s.delivery.data.value),
         flight := s.flight.(segmentId := None, episodeId := None))
    else s.(at := Top, flight := s.flight.(segmentId := None))
  }

  function Processed(s: Session, result: AttemptResult): Session {
    s.(tally := Counted(s.tally, result), flight := s.flight.(episodeId := None))
  }

  function ResultReceived(s: Session, result: AttemptResult): Session {
    s.(flight := s.flight.(statePath := None), delivery := Delivery(true, Some(result)))
  }

  function EventReceived(s: Session, event: Emission): Session {
    s.(flight := s.flight.(episodeId := Some(event.episodeId)))
  }

  predicate NavOk(s: Session) {
    s.isRunning && s.flight.statePath.Some? && !s.clock.paused
  }

  /** Up to the await of the pause command; the event is set after it. */
  function NavBegun(s: Session, cursor: nat): Session {
    s.(cursor := cursor, navPending := true, flight := s.flight.(episodeId := None, statePath := None))
  }

  function SkippedNext(s: Session): Session {
    if NavOk(s) then NavBegun(s, s.cursor + 1) else s
  }

  function WentPrev(s: Session): Session {
    if NavOk(s) && s.cursor > 0 then NavBegun(s, s.cursor - 1) else s
  }

  function NavFinished(s: Session): Session {
    s.(delivery := s.delivery.(ready := true))
  }

  function PauseToggled(s: Session, now: real): Session {
    if !s.isRunning || s.flight.statePath.None? then s
    else if !s.clock.paused then s.(clock := Clock(true, Some(now), s.clock.offsetSec))
    else
      var span := if s.clock.pausedAtEpoch.Some? then now - s.clock.pausedAtEpoch.value else 0.0;
      s.(clock := Clock(false, None, s.clock.offsetSec + span), flight := s.flight.(episodeId := None))
  }

  function SessionStopped(s: Session): Session {
    s.(isRunning := false, at := Stopped, clock := Clock(false, None, s.clock.offsetSec))
  }

  lemma SeekStep(offered: seq<HistoryEntry>, n: nat)
    requires n < |offered|
    ensures offered[..n] + [offered[n]] == offered[..n + 1]
  {
  }

  /** From the cursor on, skips entries whose state file is missing and appends the scheduler's picks. */
  method Seek(history: seq<HistoryEntry>, cursor: nat, o: Offer)
    returns (items: seq<HistoryEntry>, at: nat, entry: Option<HistoryEntry>)
    requires cursor <= |history|
    ensures var offered := history + o.picks; var k := FirstExisting(offered, cursor, o.files);
            && at == k && entry == (if k < |offered| then Some(offered[k]) else None)
            && items == if k < |history| then history else if k < |offered| then offered[..k + 1] else offered
  {
    ghost var offered := history + o.picks;
    ghost var k := FirstExisting(offered, cursor, o.files);
    assert offered[..|history|] == history && offered[..|offered|] == offered;
    hide FirstExisting;
    items, at := history, cursor;
    var asked := 0;
    while true
      invariant asked <= |o.picks| && |items| == |history| + asked && items == offered[..|items|]
      invariant cursor <= at <= |items| && at <= k
      invariant FirstExisting(offered, at, o.files) == k
      invariant asked > 0 ==> at == |items|
      decreases |offered| - at
    {
      if at >= |items| {
        if asked == |o.picks| {
          NoneLeft(offered, o.files);
          return items, at, None;
        }
        SeekStep(offered, |items|);
        items := items + [o.picks[asked]];
        asked := asked + 1;
      }
      ExistsOrLater(offered, at, o.files);
      if Exists(items[at], o.files) {
        return items, at, Some(items[at]);
      }
      at := at + 1;
    }
  }

  class PracticeSession {
    const grindSegmentId: Option<string>
    var isRunning: bool
    var await: Await
    var currentSegmentId: Option<string>
    var segmentsAttempted: nat
    var segmentsCompleted: nat
    var resultEvent: bool
    var resultData: Option<AttemptResult>
    var lastAllocator: Option<string>
    var currentEpisodeId: Option<string>
    var currentStatePath: Option<string>
    var currentLoadCmd: Option<LoadCmd>
    var paused: bool
    var pausedAtEpoch: Option<real>
    var pauseOffsetSec: real
    var history: seq<HistoryEntry>
    var cursor: nat
    var navPending: bool

    function View(): Session
      reads this
    {
      Session(grindSegmentId, isRunning, await,
              Flight(currentSegmentId, lastAllocator, currentEpisodeId, currentStatePath, currentLoadCmd),
              Delivery(resultEvent, resultData), Tally(segmentsAttempted, segmentsCompleted),
              Clock(paused, pausedAtEpoch, pauseOffsetSec), history, cursor, navPending)
    }

    constructor (grindSegmentId: Option<string>)
      ensures View() == Created(grindSegmentId)
    {
      this.grindSegmentId := grindSegmentId;
      isRunning, await, currentSegmentId, segmentsAttempted, segmentsCompleted := false, Top, None, 0, 0;
      resultEvent, resultData, lastAllocator, currentEpisodeId := false, None, None, None;
      currentStatePath, currentLoadCmd := None, None;
      paused, pausedAtEpoch, pauseOffsetSec := false, None, 0.0;
      history, cursor, navPending := [], 0, false;
    }

    method Start()
      modifies this
      ensures View() == old(View()).(isRunning := true)
    {
      isRunning := true;
    }

    /** Skips entries whose state file is missing, and appends the scheduler's picks at the end. */
    method SegmentAtCursor(o: Offer) returns (entry: Option<HistoryEntry>)
      requires grindSegmentId.None? ==> cursor <= |history|
      modifies this`history, this`cursor
      ensures (history, cursor, entry) == Chosen(old(View()), o)
      ensures grindSegmentId.Some? ==> entry == o.grind && history == old(history) && cursor == old(cursor)
      ensures grindSegmentId.None? ==>
                && old(cursor) <= cursor <= |history| && history <= old(history) + o.picks
                && (forall i :: old(cursor) <= i < cursor ==> history[i].loadCmd.statePath !in o.files)
                && (if entry.Some? then
                      && cursor < |history| && history[cursor] == entry.value
                      && entry.value.loadCmd.statePath in o.files
                      && |history| == if cursor < |old(history)| then |old(history)| else cursor + 1
                    else
                      cursor == |history| && history == old(history) + o.picks)
    {
      if grindSegmentId.Some? {
        return o.grind;
      }
      history, cursor, entry := Seek(history, cursor, o);
    }

    /** From the top of the loop to the await of the load command, which is returned. */
    method BeginCycle(o: Offer) returns (command: Option<LoadCmd>)
      requires grindSegmentId.None? ==> cursor <= |history|
      modifies this
      ensures View() == CycleStarted(old(View()), o)
      ensures command == if await == Sending then currentLoadCmd else None
    {
      command := None;
      var entry: Option<HistoryEntry> := None;
      if isRunning && o.connected {
        entry := SegmentAtCursor(o);
      }
      if entry.Some? {
        ArmEntry(entry.value);
        command := Some(entry.value.loadCmd);
      } else {
        await := Stopping;
      }
    }

    /** Clears nav and result state before the send, so that a nav command during it is honored. */
    method ArmEntry(entry: HistoryEntry)
      modifies this`lastAllocator, this`currentEpisodeId, this`currentSegmentId, this`currentLoadCmd,
               this`resultEvent, this`resultData, this`navPending, this`currentStatePath, this`await
      ensures lastAllocator == entry.allocator && currentEpisodeId == None
      ensures currentSegmentId == Some(entry.loadCmd.id) && currentLoadCmd == Some(entry.loadCmd)
      ensures currentStatePath == Some(entry.loadCmd.statePath)
      ensures !resultEvent && resultData == None && !navPending && await == Sending
    {
      var cmd := entry.loadCmd;
      lastAllocator := entry.allocator;
      currentEpisodeId := None;
      currentSegmentId := Some(cmd.id);
      currentLoadCmd := Some(cmd);
      resultEvent := false;
      resultData := None;
      navPending := false;
      currentStatePath := Some(cmd.statePath);
      await := Sending;
    }

    method LoadSent()
      requires await == Sending
      modifies this
      ensures View() == old(View()).(at := Waiting)
    {
      await := Waiting;
    }

    method EndCycle()
      requires await == Waiting
      modifies this
      ensures View() == CycleEnded(old(View()))
      ensures var counts := old(!navPending && resultData.Some?);
              && await == Top && currentSegmentId == None && !navPending
              && currentEpisodeId == (if counts then None else old(currentEpisodeId))
              && cursor == old(cursor) + (if counts then 1 else 0)
              && segmentsAttempted == old(segmentsAttempted) + (if counts then 1 else 0)
              && segmentsCompleted == old(segmentsCompleted)
                                      + if counts && old(resultData).value.completed then 1 else 0
    {
      await := Top;
      currentSegmentId := None;
      if navPending {
        navPending := false;
      } else if resultData.Some? {
        ProcessResult(resultData.value);
        cursor := cursor + 1;
      }
    }

    method ProcessResult(result: AttemptResult)
      modifies this
      ensures View() == Processed(old(View()), result)
    {
      currentEpisodeId := None;
      segmentsAttempted := segmentsAttempted + 1;
      if result.completed {
        segmentsCompleted := segmentsCompleted + 1;
      }
    }

    method ReceiveResult(result: AttemptResult)
      modifies this
      ensures View() == ResultReceived(old(View()), result)
      ensures currentStatePath == None && resultData == Some(result) && resultEvent
    {
      currentStatePath := None;
      resultData := Some(result);
      resultEvent := true;
    }

    method ReceiveEventAttempt(event: Emission)
      modifies this
      ensures View() == EventReceived(old(View()), event)
      ensures currentEpisodeId == Some(event.episodeId)
    {
      currentEpisodeId := Some(event.episodeId);
    }

    /** The state a death reloads: that of the attempt in flight, unless paused. */
    method HandleDeath() returns (reload: Option<string>)
      ensures reload == if paused then None else currentStatePath
    {
      if paused {
        return None;
      }
      return currentStatePath;
    }

    method TogglePause(now: real)
      modifies this
      ensures View() == PauseToggled(old(View()), now)
      ensures var acts := old(isRunning && currentStatePath.Some?);
              && paused == (if acts then !old(paused) else old(paused))
              && pausedAtEpoch == (if !acts then old(pausedAtEpoch) else if paused then Some(now) else None)
              && currentEpisodeId == (if acts && !paused then None else old(currentEpisodeId))
    {
      if !isRunning || currentStatePath.None? {
        return;
      }
      if !paused {
        paused := true;
        pausedAtEpoch := Some(now);
      } else {
        if pausedAtEpoch.Some? {
          pauseOffsetSec := pauseOffsetSec + (now - pausedAtEpoch.value);
        }
        paused := false;
        pausedAtEpoch := None;
        currentEpisodeId := None;
      }
    }

    method BeginNav()
      modifies this
      ensures View() == NavBegun(old(View()), old(cursor))
      ensures navPending && currentEpisodeId == None && currentStatePath == None && cursor == old(cursor)
    {
      navPending := true;
      currentEpisodeId := None;
      currentStatePath := None;
    }

    method NavSent()
      modifies this
      ensures View() == NavFinished(old(View()))
    {
      resultEvent := true;
    }

    /** `begun` says that the in-flight attempt was dropped and the pause command is awaited. */
    method SkipNext() returns (begun: bool)
      modifies this
      ensures View() == SkippedNext(old(View()))
      ensures begun == old(isRunning && currentStatePath.Some? && !paused)
      ensures cursor == old(cursor) + (if begun then 1 else 0) && (begun ==> navPending && currentStatePath == None)
    {
      if !isRunning || currentStatePath.None? || paused {
        return false;
      }
      cursor := cursor + 1;
      BeginNav();
      return true;
    }

    method GoPrev() returns (begun: bool)
      modifies this
      ensures View() == WentPrev(old(View()))
      ensures begun == old(isRunning && currentStatePath.Some? && !paused && cursor > 0)
      ensures cursor == old(cursor) - (if begun then 1 else 0) && (begun ==> navPending && currentStatePath == None)
    {
      if !isRunning || currentStatePath.None? || paused {
        return false;
      }
      if cursor <= 0 {
        return false;
      }
      cursor := cursor - 1;
      BeginNav();
      return true;
    }

    method Stop()
      modifies this
      ensures View() == SessionStopped(old(View()))
      ensures !isRunning && !paused && pausedAtEpoch == None && pauseOffsetSec == old(pauseOffsetSec)
    {
      isRunning := false;
      paused := false;
      pausedAtEpoch := None;
      await := Stopped;
    }
  }
}
