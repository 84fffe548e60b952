/** The attempt timer of practice mode: it turns one armed attempt into event rows and a result. */
module PracticeTimer {
  import opened Wrappers
  import opened Protocol

  datatype Phase = Idle | Playing | Result

  datatype Outcome = Died | Survived

  datatype Emission = Emission(segmentId: string, episodeId: string, outcome: Outcome, timeMs: int, timestampMs: int)

  datatype AttemptResult = AttemptResult(segmentId: string, completed: bool, timeMs: int, deaths: nat,
                                         cleanTailMs: Option<int>)

  /** What an attempt is armed with; `listening` says whether event rows have a listener. */
  datatype Request = Request(segmentId: string, endType: string, deathPenaltyMs: int, autoAdvanceDelayMs: int,
                             listening: bool, episodeId: string)

  const CHECKPOINT_END := "checkpoint"

  datatype Timer = Timer(
    phase: Phase,
    request: Request,
    startMs: int,
    deaths: nat,
    lastDeathMs: int,
    lastEventMs: int,
    elapsedMs: int,
    completed: bool,
    resultStartMs: int)

  const NO_REQUEST := Request("", "", 0, 0, false, "")
  const RESET := Timer(Idle, NO_REQUEST, 0, 0, 0, 0, 0, false, 0)

  function Armed(request: Request, now: int): Timer {
    RESET.(phase := Playing, request := request, startMs := now, lastEventMs := now)
  }

  function Emitted(t: Timer, outcome: Outcome, now: int): (Timer, seq<Emission>) {
    if !t.request.listening then (t, [])
    else (t.(lastEventMs := now),
          [Emission(t.request.segmentId, t.request.episodeId, outcome, now - t.lastEventMs, now)])
  }

  function ResultEntered(t: Timer, completed: bool, now: int): Timer {
    t.(phase := Result, elapsedMs := (now - t.startMs) + t.request.deathPenaltyMs * t.deaths,
       completed := completed, resultStartMs := now)
  }

  /** Whether an event ends the attempt, and if so whether as a completion. */
  function Ending(endType: string, event: GameEvent): Option<bool> {
    if endType == CHECKPOINT_END then (if event.Checkpoint? then Some(true) else None)
    else if event.LevelExit? then Some(event.goal != ABORT)
    else None
  }

  /** The clock is read once for a death and twice for a completion: `now` stamps the event row and
      `later` the result. An abort reads it once, for the result. */
  function Observed(t: Timer, event: GameEvent, now: int, later: int): (Timer, seq<Emission>) {
    if t.phase != Playing then (t, [])
    else if event.Death? then Emitted(t.(deaths := t.deaths + 1, lastDeathMs := now), Died, now)
    else
      match Ending(t.request.endType, event)
      case None => (t, [])
      case Some(completed) =>
        var (emitted, sent) := if completed then Emitted(t, Survived, now) else (t, []);
        (ResultEntered(emitted, completed, later), sent)
  }

  function CleanTail(t: Timer): Option<int> {
    if t.completed && t.deaths == 0 then Some(t.elapsedMs)
    else if t.completed && t.deaths > 0 && t.lastDeathMs > 0 then Some(t.resultStartMs - t.lastDeathMs)
    else None
  }

  function Ticked(t: Timer, now: int): (Timer, Option<AttemptResult>) {
    if t.phase != Result || now - t.resultStartMs < t.request.autoAdvanceDelayMs then (t, None)
    else (RESET, Some(AttemptResult(t.request.segmentId, t.completed, t.elapsedMs, t.deaths, CleanTail(t))))
  }

  class PracticeTiming {
    var state: Phase
    var segmentId: string
    var endType: string
    var deathPenaltyMs: int
    var autoAdvanceDelayMs: int
    var listening: bool
    var episodeId: string
    var startMs: int
    var deaths: nat
    var lastDeathMs: int
    var lastEventMs: int
    var elapsedMs: int
    var completed: bool
    var resultStartMs: int

    function View(): Timer
      reads this
    {
      Timer(state, Request(segmentId, endType, deathPenaltyMs, autoAdvanceDelayMs, listening, episodeId),
            startMs, deaths, lastDeathMs, lastEventMs, elapsedMs, completed, resultStartMs)
    }

    constructor ()
      ensures View() == RESET
    {
      state := Idle;
      segmentId, endType, deathPenaltyMs, autoAdvanceDelayMs, listening, episodeId := "", "", 0, 0, false, "";
      startMs, deaths, lastDeathMs, lastEventMs := 0, 0, 0, 0;
      elapsedMs, completed, resultStartMs := 0, false, 0;
    }

    predicate IsArmed()
      reads this
    {
      state != Idle
    }

    method Arm(request: Request, now: int)
      modifies this
      ensures View() == Armed(request, now)
    {
      Reset();
      segmentId := request.segmentId;
      endType := request.endType;
      deathPenaltyMs := request.deathPenaltyMs;
      autoAdvanceDelayMs := request.autoAdvanceDelayMs;
      listening := request.listening;
      startMs := now;
      episodeId := request.episodeId;
      lastEventMs := startMs;
      state := Playing;
    }

    method ObserveEvent(event: GameEvent, now: int, later: int) returns (sent: seq<Emission>)
      modifies this
      ensures (View(), sent) == Observed(old(View()), event, now, later)
    {
      sent := [];
      if state != Playing {
        return;
      }
      if event.Death? {
        deaths := deaths + 1;
        lastDeathMs := now;
        sent := EmitEventAttempt(Died, now);
        return;
      }
      if endType == CHECKPOINT_END {
        if event.Checkpoint? {
          sent := EmitEventAttempt(Survived, now);
          EnterResult(true, later);
        }
      } else if event.LevelExit? {
        var reached := event.goal != ABORT;
        if reached {
          sent := EmitEventAttempt(Survived, now);
        }
        EnterResult(reached, later);
      }
    }

    /** A result comes out exactly when the call emits it; the timer is reset before its listener runs. */
    method Tick(now: int) returns (result: Option<AttemptResult>)
      modifies this
      ensures (View(), result) == Ticked(old(View()), now)
    {
      if state != Result {
        return None;
      }
      if now - resultStartMs < autoAdvanceDelayMs {
        return None;
      }
      var cleanTailMs: Option<int>;
      if completed && deaths == 0 {
        cleanTailMs := Some(elapsedMs);
      } else if completed && deaths > 0 && lastDeathMs > 0 {
        cleanTailMs := Some(resultStartMs - lastDeathMs);
      } else {
        cleanTailMs := None;
      }
      result := Some(AttemptResult(segmentId, completed, elapsedMs, deaths, cleanTailMs));
      Reset();
    }

    /** A tick whose listener arms the timer again on the result: the arming comes after the reset and stands. */
    method TickRearming(now: int, request: Request, armedAt: int) returns (result: Option<AttemptResult>)
      modifies this
      ensures result == Ticked(old(View()), now).1
      ensures View() == if result.Some? then Armed(request, armedAt) else old(View())
    {
      result := Tick(now);
      if result.Some? {
        Arm(request, armedAt);
      }
    }

    method Disarm()
      modifies this
      ensures View() == RESET
    {
      Reset();
    }

    method EmitEventAttempt(outcome: Outcome, now: int) returns (sent: seq<Emission>)
      modifies this
      ensures (View(), sent) == Emitted(old(View()), outcome, now)
    {
      if !listening {
        return [];
      }
      var timeMs := now - lastEventMs;
      lastEventMs := now;
      sent := [Emission(segmentId, episodeId, outcome, timeMs, now)];
    }

    method EnterResult(reached: bool, now: int)
      modifies this
      ensures View() == ResultEntered(old(View()), reached, now)
    {
      var penalty := deathPenaltyMs * deaths;
      elapsedMs := (now - startMs) + penalty;
      completed := reached;
      resultStartMs := now;
      state := Result;
    }

    method Reset()
      modifies this
      ensures View() == RESET
    {
      state := Idle;
      ForgetRequest();
      startMs, deaths, lastDeathMs, lastEventMs := 0, 0, 0, 0;
      elapsedMs, completed, resultStartMs := 0, false, 0;
    }

    /** The fields that an arming call fills in from its arguments. */
    method ForgetRequest()
      modifies this
      ensures View() == old(View()).(request := NO_REQUEST)
    {
      segmentId, endType, deathPenaltyMs, autoAdvanceDelayMs, listening, episodeId := "", "", 0, 0, false, "";
    }
  }
}

/** Whole runs of the practice timer: the event rows of an attempt against its result. */
module PracticeLedger {
  import opened Wrappers
  import opened Protocol
  import opened PracticeTimer

  datatype Input = Arm(request: Request) | Observe(event: GameEvent) | Tick | Disarm

  /** An input beside the clock's readings during its handling: at arrival, and at the end of it. */
  datatype Timed = Timed(input: Input, at: int, later: int)

  /** What an observer wrote down since the last arming: the rows, the result, when the attempt was
      armed, when the latest row was stamped, when the last death happened, the readings of the clock at
      the end of the attempt, and the game event that each row came from. */
  datatype Ledger = Ledger(
    timer: Timer,
    request: Request,
    lastAt: int,
    armedAt: int,
    diedAt: Option<int>,
    endedAt: Option<(int, int)>,
    aborted: bool,
    rows: seq<Emission>,
    causes: seq<GameEvent>,
    result: Option<AttemptResult>)

  const OPENING := Ledger(RESET, NO_REQUEST, 0, 0, None, None, false, [], [], None)

  function Book(l: Ledger, i: Timed): Ledger {
    match i.input
    case Arm(request) => Ledger(Armed(request, i.at), request, i.later, i.at, None, None, false, [], [], None)
    case Disarm => l.(timer := RESET, lastAt := i.later)
    case Observe(event) =>
      var (timer, sent) := Observed(l.timer, event, i.at, i.later);
      var playing := l.timer.phase == Playing;
      l.(timer := timer, lastAt := i.later, rows := l.rows + sent,
         causes := l.causes + seq(|sent|, _ => event),
         diedAt := if playing && event.Death? then Some(i.at) else l.diedAt,
         endedAt := if playing && timer.phase == Result then Some((i.at, i.later)) else l.endedAt,
         aborted := if playing && timer.phase == Result then event == LevelExit("abort") else l.aborted)
    case Tick =>
      var (timer, result) := Ticked(l.timer, i.at);
      l.(timer := timer, lastAt := i.later, result := if result.Some? then result else l.result)
  }

  function Run(inputs: seq<Timed>): Ledger {
    if inputs == [] then OPENING else Book(Run(inputs[..|inputs| - 1]), inputs[|inputs| - 1])
  }

  /** A monotone clock: within an input and from one input to the next its readings never go back. */
  predicate Chronological(inputs: seq<Timed>) {
    && (forall i :: 0 <= i < |inputs| ==> inputs[i].at <= inputs[i].later)
    && (forall i, j :: 0 <= i < j < |inputs| ==> inputs[i].later <= inputs[j].at)
  }

  function TotalTime(rows: seq<Emission>): int {
    if rows == [] then 0 else TotalTime(rows[..|rows| - 1]) + rows[|rows| - 1].timeMs
  }

  function LastStamp(rows: seq<Emission>, armedAt: int): int {
    if rows == [] then armedAt else rows[|rows| - 1].timestampMs
  }

  predicate Follows(row: Emission, previous: int, request: Request) {
    && row.segmentId == request.segmentId && row.episodeId == request.episodeId
    && row.timeMs == row.timestampMs - previous >= 0
  }

  /** The rows of an attempt: each names the attempt, and its time runs from the row before it. */
  predicate Telescopes(rows: seq<Emission>, request: Request, armedAt: int) {
    forall k :: 0 <= k < |rows| ==> Follows(rows[k], LastStamp(rows[..k], armedAt), request)
  }

  predicate AllDied(rows: seq<Emission>) {
    forall k :: 0 <= k < |rows| ==> rows[k].outcome == Died
  }

  /** `deaths` died rows, closed by one survived row unless the attempt was aborted. */
  predicate Shaped(rows: seq<Emission>, deaths: nat, aborted: bool) {
    if aborted then |rows| == deaths && AllDied(rows)
    else |rows| == deaths + 1 && AllDied(rows[..deaths]) && rows[deaths].outcome == Survived
  }

  predicate InStep(l: Ledger) {
    && l.timer.request == l.request && l.timer.startMs == l.armedAt
    && l.armedAt <= LastStamp(l.rows, l.armedAt) <= l.lastAt
    && l.timer.lastDeathMs == (if l.diedAt.Some? then l.diedAt.value else 0)
  }

  predicate DeathsNoted(l: Ledger, deaths: nat) {
    && (deaths == 0 <==> l.diedAt.None?)
    && (l.diedAt.Some? ==> l.armedAt <= l.diedAt.value)
    && (l.diedAt.Some? && l.request.listening ==>
          deaths <= |l.rows| && l.rows[deaths - 1].timestampMs == l.diedAt.value)
  }

  predicate OnTheClock(l: Ledger) {
    && l.endedAt.None?
    && l.timer.lastEventMs == LastStamp(l.rows, l.armedAt)
    && (l.request.listening ==> |l.rows| == l.timer.deaths && AllDied(l.rows))
    && DeathsNoted(l, l.timer.deaths)
    && (l.diedAt.Some? ==> l.diedAt.value <= l.lastAt)
  }

  /** What the end of an attempt settles: its raw length, and its rows. */
  predicate Ended(l: Ledger, completed: bool, elapsedMs: int, deaths: nat)
    requires l.endedAt.Some?
  {
    && completed == !l.aborted
    && l.armedAt <= l.endedAt.value.0 <= l.endedAt.value.1
    && (l.diedAt.Some? ==> l.diedAt.value <= l.endedAt.value.0)
    && elapsedMs == l.endedAt.value.1 - l.armedAt + l.request.deathPenaltyMs * deaths
    && (l.request.listening ==> Shaped(l.rows, deaths, l.aborted))
    && (l.request.listening && completed ==> LastStamp(l.rows, l.armedAt) == l.endedAt.value.0)
  }

  predicate AwaitingResult(l: Ledger) {
    && l.endedAt.Some?
    && l.timer.resultStartMs == l.endedAt.value.1
    && DeathsNoted(l, l.timer.deaths)
    && Ended(l, l.timer.completed, l.timer.elapsedMs, l.timer.deaths)
  }

  /** The result an attempt tells, against the observer's notes. */
  predicate Told(l: Ledger, r: AttemptResult) {
    && l.endedAt.Some?
    && r.segmentId == l.request.segmentId
    && DeathsNoted(l, r.deaths)
    && Ended(l, r.completed, r.timeMs, r.deaths)
    && r.cleanTailMs == (if !r.completed then None
                         else if l.diedAt.None? then Some(l.endedAt.value.1 - l.armedAt)
                         else if l.diedAt.value > 0 then Some(l.endedAt.value.1 - l.diedAt.value)
                         else None)
  }

  predicate Consistent(l: Ledger) {
    && Telescopes(l.rows, l.request, l.armedAt)
    && (!l.request.listening ==> l.rows == [])
    && (l.timer.phase != Idle ==> InStep(l))
    && (l.timer.phase == Playing ==> OnTheClock(l))
    && (l.timer.phase == Result ==> AwaitingResult(l))
    && (l.result.Some? ==> l.timer.phase == Idle && Told(l, l.result.value))
  }

  lemma {:induction false} AppendedRow(rows: seq<Emission>, row: Emission, request: Request, armedAt: int)
    requires Telescopes(rows, request, armedAt)
    requires Follows(row, LastStamp(rows, armedAt), request)
    ensures Telescopes(rows + [row], request, armedAt)
  {
    var grown := rows + [row];
    forall k | 0 <= k < |grown|
      ensures Follows(grown[k], LastStamp(grown[..k], armedAt), request)
    {
      assert grown[..k] == rows[..k];
      assert rows[..|rows|] == rows;
    }
  }

  lemma DeathConsistent(l: Ledger, i: Timed)
    requires Consistent(l) && i.input == Observe(Death) && l.timer.phase == Playing
    requires l.lastAt <= i.at <= i.later
    ensures Consistent(Book(l, i))
  {
    var sent := Observed(l.timer, Death, i.at, i.later).1;
    if sent != [] {
      AppendedRow(l.rows, sent[0], l.request, l.armedAt);
      assert l.rows + sent == l.rows + [sent[0]];
    }
  }

  /** The rows at the end: a completion closes them with a survived row, an abort adds none. */
  lemma EndRows(l: Ledger, event: GameEvent, now: int, later: int)
    requires Consistent(l) && l.timer.phase == Playing && !event.Death?
    requires Ending(l.request.endType, event).Some? && l.lastAt <= now
    ensures var rows := l.rows + Observed(l.timer, event, now, later).1;
            var completed := Ending(l.request.endType, event).value;
            && Telescopes(rows, l.request, l.armedAt)
            && l.rows <= rows
            && (!l.request.listening ==> rows == [])
            && (l.request.listening ==> Shaped(rows, l.timer.deaths, !completed))
            && LastStamp(rows, l.armedAt) == (if l.request.listening && completed then now else LastStamp(l.rows, l.armedAt))
  {
    var sent := Observed(l.timer, event, now, later).1;
    if sent != [] {
      AppendedRow(l.rows, sent[0], l.request, l.armedAt);
      assert l.rows + sent == l.rows + [sent[0]];
      assert (l.rows + sent)[..|l.rows|] == l.rows;
    } else {
      assert l.rows + sent == l.rows;
    }
  }

  lemma EndFields(t: Timer, event: GameEvent, now: int, later: int)
    requires t.phase == Playing && !event.Death? && Ending(t.request.endType, event).Some?
    ensures var timer := Observed(t, event, now, later).0;
            && timer.phase == Result && timer.request == t.request && timer.startMs == t.startMs
            && timer.deaths == t.deaths && timer.lastDeathMs == t.lastDeathMs
            && timer.elapsedMs == later - t.startMs + t.request.deathPenaltyMs * t.deaths
            && timer.resultStartMs == later
            && timer.completed == Ending(t.request.endType, event).value == (event != LevelExit(ABORT))
  {
  }

  lemma EndInStep(l: Ledger, i: Timed)
    requires Consistent(l) && i.input.Observe? && l.timer.phase == Playing
    requires !i.input.event.Death? && Ending(l.request.endType, i.input.event).Some?
    requires l.lastAt <= i.at <= i.later
    ensures InStep(Book(l, i))
  {
    EndRows(l, i.input.event, i.at, i.later);
    EndFields(l.timer, i.input.event, i.at, i.later);
    hide Telescopes, Shaped, AllDied, DeathsNoted, Observed, Told, AwaitingResult;
  }

  /** The rows at the end begin with the rows so far, so what was noted of the deaths still stands. */
  lemma EndDeathsNoted(l: Ledger, i: Timed)
    requires Consistent(l) && i.input.Observe? && l.timer.phase == Playing
    requires !i.input.event.Death? && Ending(l.request.endType, i.input.event).Some? && l.lastAt <= i.at
    ensures DeathsNoted(Book(l, i), l.timer.deaths)
  {
    EndRows(l, i.input.event, i.at, i.later);
    hide Telescopes, Shaped, AllDied, Observed, Told, AwaitingResult, InStep;
    var booked := Book(l, i);
    assert l.rows <= booked.rows;
    if l.diedAt.Some? && l.request.listening {
      assert booked.rows[l.timer.deaths - 1] == l.rows[l.timer.deaths - 1];
    }
  }

  lemma EndSettles(l: Ledger, i: Timed)
    requires Consistent(l) && i.input.Observe? && l.timer.phase == Playing
    requires !i.input.event.Death? && Ending(l.request.endType, i.input.event).Some?
    requires l.lastAt <= i.at <= i.later
    ensures AwaitingResult(Book(l, i))
  {
    EndDeathsNoted(l, i);
    EndRows(l, i.input.event, i.at, i.later);
    EndFields(l.timer, i.input.event, i.at, i.later);
    hide Telescopes, Shaped, AllDied, DeathsNoted, Observed, Told;
  }

  lemma {:induction false} EndConsistent(l: Ledger, i: Timed)
    requires Consistent(l) && i.input.Observe? && l.timer.phase == Playing
    requires !i.input.event.Death? && Ending(l.request.endType, i.input.event).Some?
    requires l.lastAt <= i.at <= i.later
    ensures Consistent(Book(l, i))
  {
    EndInStep(l, i);
    EndSettles(l, i);
    EndRows(l, i.input.event, i.at, i.later);
    EndFields(l.timer, i.input.event, i.at, i.later);
    hide InStep, AwaitingResult, OnTheClock, Telescopes, Shaped, Observed, Told;
  }

  lemma QuietBooked(l: Ledger, i: Timed)
    requires i.input.Observe? && (l.timer.phase == Playing ==>
               !i.input.event.Death? && Ending(l.timer.request.endType, i.input.event).None?)
    ensures Book(l, i) == l.(lastAt := i.later)
  {
    assert l.rows + [] == l.rows;
  }

  lemma LaterConsistent(l: Ledger, later: int)
    requires Consistent(l) && l.lastAt <= later
    ensures Consistent(l.(lastAt := later))
  {
  }

  lemma {:induction false} QuietConsistent(l: Ledger, i: Timed)
    requires Consistent(l) && l.lastAt <= i.later
    requires i.input.Observe? && (l.timer.phase == Playing ==>
               !i.input.event.Death? && Ending(l.request.endType, i.input.event).None?)
    ensures Consistent(Book(l, i))
  {
    QuietBooked(l, i);
    LaterConsistent(l, i.later);
  }

  /** The tick that ends the result's display tells the result. */
  lemma ResultTold(l: Ledger, i: Timed)
    requires Consistent(l) && i.input.Tick? && Ticked(l.timer, i.at).1.Some?
    ensures Told(Book(l, i), Ticked(l.timer, i.at).1.value)
  {
    hide Telescopes, Shaped, LastStamp;
  }

  lemma TickConsistent(l: Ledger, i: Timed)
    requires Consistent(l) && i.input.Tick? && l.lastAt <= i.later
    ensures Consistent(Book(l, i))
  {
    if Ticked(l.timer, i.at).1.None? {
      assert Book(l, i) == l.(lastAt := i.later);
      LaterConsistent(l, i.later);
    } else {
      ResultTold(l, i);
      hide Told, Telescopes;
      assert Book(l, i).timer == PracticeTimer.RESET;
    }
  }

  /** One input with a monotone clock keeps the notes and the timer in agreement. */
  lemma {:induction false} BookConsistent(l: Ledger, i: Timed)
    requires Consistent(l)
    requires i.at <= i.later && l.lastAt <= i.at
    ensures Consistent(Book(l, i))
  {
    match i.input
    case Observe(event) =>
      if l.timer.phase == Playing && event.Death? {
        DeathConsistent(l, i);
      } else if l.timer.phase == Playing && Ending(l.request.endType, event).Some? {
        EndConsistent(l, i);
      } else {
        QuietConsistent(l, i);
      }
    case Arm(_) =>
    case Tick => TickConsistent(l, i);
    case Disarm =>
  }

  lemma {:induction false} RunConsistent(inputs: seq<Timed>)
    requires Chronological(inputs)
    ensures Consistent(Run(inputs))
    ensures inputs != [] ==> Run(inputs).lastAt == inputs[|inputs| - 1].later
  {
    if inputs != [] {
      var earlier := inputs[..|inputs| - 1];
      RunConsistent(earlier);
      var before := Run(earlier).(lastAt := if earlier == [] then inputs[0].at else Run(earlier).lastAt);
      BookConsistent(before, inputs[|inputs| - 1]);
      assert Book(before, inputs[|inputs| - 1]) == Run(inputs);
    }
  }

  lemma {:induction false} RowsTelescope(rows: seq<Emission>, request: Request, armedAt: int)
    requires Telescopes(rows, request, armedAt)
    ensures TotalTime(rows) == LastStamp(rows, armedAt) - armedAt
  {
    if rows != [] {
      var before := rows[..|rows| - 1];
      forall k | 0 <= k < |before|
        ensures Follows(before[k], LastStamp(before[..k], armedAt), request)
      {
        assert before[..k] == rows[..k] && before[k] == rows[k];
      }
      RowsTelescope(before, request, armedAt);
      assert Follows(rows[|rows| - 1], LastStamp(before, armedAt), request);
    }
  }

  /** The per-event and the whole-attempt view of one attempt, over every run. The rows are the deaths
      and then, unless aborted, one survived row, all under the armed episode; their times telescope;
      and for a completed attempt they fall short of the result's penalised time, and the last row of
      the clean tail, by exactly the time between the two clock readings at the finish. */
  lemma RowsAgreeWithResult(inputs: seq<Timed>)
    requires Chronological(inputs)
    requires Run(inputs).result.Some? && Run(inputs).request.listening
    ensures Run(inputs).endedAt.Some?
    ensures var l := Run(inputs); var r := l.result.value; var gap := l.endedAt.value.1 - l.endedAt.value.0;
            && gap >= 0
            && Telescopes(l.rows, l.request, l.armedAt)
            && Shaped(l.rows, r.deaths, l.aborted) && r.completed == !l.aborted
            && (r.completed ==>
                  && TotalTime(l.rows) + l.request.deathPenaltyMs * r.deaths == r.timeMs - gap
                  && (r.cleanTailMs.Some? <==> l.diedAt.None? || l.diedAt.value > 0)
                  && (r.cleanTailMs.Some? ==> l.rows[r.deaths].timeMs == r.cleanTailMs.value - gap))
            && (!r.completed ==>
                  r.cleanTailMs.None? && TotalTime(l.rows) + l.request.deathPenaltyMs * r.deaths <= r.timeMs)
  {
    RunConsistent(inputs);
    var l := Run(inputs);
    RowsTelescope(l.rows, l.request, l.armedAt);
  }

  /** A death at or before time zero is taken for none, so the clean tail of a completed attempt is lost
      exactly when the last death is stamped so; a clock that starts above zero never shows it. */
  lemma CleanTailNeedsPositiveClock(inputs: seq<Timed>)
    requires Chronological(inputs)
    requires Run(inputs).result.Some? && Run(inputs).result.value.completed
    ensures var l := Run(inputs);
            && (l.result.value.cleanTailMs.None? <==> l.diedAt.Some? && l.diedAt.value <= 0)
            && (l.armedAt > 0 ==> l.result.value.cleanTailMs.Some?)
  {
    RunConsistent(inputs);
  }

  /** Which event ends an attempt: a checkpoint only, where the segment ends at one; any level exit elsewhere. */
  predicate Ends(request: Request, event: GameEvent) {
    if request.endType == "checkpoint" then event == Checkpoint else event.LevelExit?
  }

  predicate EndsNow(l: Ledger, i: Timed) {
    l.timer.phase == Playing && i.input.Observe? && Ends(l.request, i.input.event)
  }

  /** The result has been on display as long as the request says. */
  predicate Elapsed(l: Ledger, i: Timed) {
    && l.timer.phase == Result && i.input.Tick?
    && l.endedAt.Some? && i.at >= l.endedAt.value.1 + l.request.autoAdvanceDelayMs
  }

  /** The phase after an input, and whether it tells a result. */
  predicate PhaseDecided(l: Ledger, i: Timed) {
    var next := Book(l, i);
    && next.timer.phase == (if i.input.Arm? then Playing
                            else if i.input.Disarm? || Elapsed(l, i) then Idle
                            else if EndsNow(l, i) then Result
                            else l.timer.phase)
    && (l.result.None? && !i.input.Arm? ==> (next.result.Some? <==> Elapsed(l, i)))
  }

  /** With a listener, a death gives one died row and a completion one survived row; nothing else gives one. */
  predicate RowsDecided(l: Ledger, i: Timed) {
    var next := Book(l, i);
    if i.input.Arm? then next.rows == []
    else if l.request.listening && l.timer.phase == Playing
            && (i.input == Observe(Death) || (EndsNow(l, i) && i.input != Observe(LevelExit("abort"))))
    then && |next.rows| == |l.rows| + 1 && next.rows[..|l.rows|] == l.rows
         && next.causes == l.causes + [i.input.event]
    else next.rows == l.rows && next.causes == l.causes
  }

  /** A died row stands for a death, a survived row for an event that completes the attempt; and an attempt
      that a checkpoint ends is never aborted. */
  predicate Caused(l: Ledger) {
    && |l.causes| == |l.rows|
    && (forall k :: 0 <= k < |l.rows| ==>
          if l.rows[k].outcome.Died? then l.causes[k] == Death
          else Ends(l.request, l.causes[k]) && l.causes[k] != LevelExit("abort"))
    && (l.aborted ==> l.request.endType != "checkpoint")
  }

  /** The armed timer works by its request, and its result by the observer's note of the end. */
  predicate Attuned(l: Ledger) {
    && (l.timer.phase != Idle ==> l.timer.request == l.request && l.result.None?)
    && (l.timer.phase == Result ==> l.endedAt.Some? && l.timer.resultStartMs == l.endedAt.value.1)
  }

  lemma StepDecided(l: Ledger, i: Timed)
    requires Attuned(l)
    ensures PhaseDecided(l, i) && RowsDecided(l, i) && Attuned(Book(l, i))
  {
    assert l.rows + [] == l.rows && l.causes + [] == l.causes;
    assert i.input.Observe? ==> seq(1, _ => i.input.event) == [i.input.event];
  }

  lemma BookCaused(l: Ledger, i: Timed)
    requires Attuned(l) && Caused(l)
    ensures Caused(Book(l, i))
  {
  }

  lemma {:induction false} RunAttuned(inputs: seq<Timed>)
    ensures Attuned(Run(inputs)) && Caused(Run(inputs))
  {
    if inputs != [] {
      var earlier := inputs[..|inputs| - 1];
      RunAttuned(earlier);
      hide Attuned, Caused, Book;
      StepDecided(Run(earlier), inputs[|inputs| - 1]);
      BookCaused(Run(earlier), inputs[|inputs| - 1]);
    }
  }

  /** After every run, whatever the clock, what the next input does is decided by the request, the phase and the
      wall clock alone; and every row stands for a death, or for an event of its attempt's own end kind. */
  lemma {:induction false} InputsDecide(inputs: seq<Timed>, i: Timed)
    ensures PhaseDecided(Run(inputs), i) && RowsDecided(Run(inputs), i)
    ensures Caused(Run(inputs + [i]))
  {
    RunAttuned(inputs);
    RunAttuned(inputs + [i]);
    hide *;
    StepDecided(Run(inputs), i);
  }
}
