/** What the attempts recorded by a hyper-play session mean. */
module HyperPlayRecords {
  import opened HyperPlayLedger
  import opened HyperPlayLevels
  import opened HyperPlaySession
  import opened HyperPlaySystem
  import opened HyperPlayTrail

  predicate Earlier(a: Record, b: Record) {
    a.level < b.level || (a.level == b.level && a.sub < b.sub)
  }

  predicate NamesSegment(r: Record, levels: seq<LevelPlan>) {
    r.level < |levels| && r.sub < |levels[r.level].segments| && r.segmentId == levels[r.level].segments[r.sub].id
  }

  /** Everything recorded lies behind the session's present level and sub-segment. */
  predicate Behind(r: Record, s: Session) {
    r.level < s.currentLevelIndex
    || (s.at in {Waiting, Sleeping, Reloading} && r.level == s.currentLevelIndex && r.sub < s.currentSubIndex)
  }

  predicate InOrder(s: Session) {
    && (forall i, j :: 0 <= i < j < |s.recorded| ==> Earlier(s.recorded[i], s.recorded[j]))
    && (forall i :: 0 <= i < |s.recorded| ==> NamesSegment(s.recorded[i], s.levels))
    && (s.at != Finished ==> forall i :: 0 <= i < |s.recorded| ==> Behind(s.recorded[i], s))
  }

  /** Everything recorded lies at or behind sub-segment `sub` of level `level`. */
  predicate UpTo(recorded: seq<Record>, level: nat, sub: nat) {
    forall i :: 0 <= i < |recorded| ==>
      recorded[i].level < level || (recorded[i].level == level && recorded[i].sub <= sub)
  }

  lemma RecordedInOrder(s: Session, timeMs: int)
    requires InOrder(s) && s.at == Waiting && s.InLevel()
    ensures var r := Recorded(s, timeMs);
            && (forall i, j :: 0 <= i < j < |r| ==> Earlier(r[i], r[j]))
            && (forall i :: 0 <= i < |r| ==> NamesSegment(r[i], s.levels))
            && UpTo(r, s.currentLevelIndex, s.currentSubIndex)
  {
    assert forall i :: 0 <= i < |s.recorded| ==> Behind(s.recorded[i], s);
  }

  lemma {:induction false} HandledInOrder(s: Session, connected: bool)
    requires InOrder(s) && s.at == Waiting && s.InLevel() && s.queue != []
    ensures InOrder(Handled(s, connected))
  {
    hide Recorded, ColdStateForSubIndex;
    var next := Handled(s, connected);
    match s.queue[0]
    case HyperCheckpoint(_, _, splitMs) => RecordedInOrder(s, splitMs);
    case HyperComplete(_, splitMs) => RecordedInOrder(s, splitMs);
    case HyperDeath(_, _) =>
      assert next.recorded == s.recorded;
      assert next.at != Finished ==> forall i :: 0 <= i < |s.recorded| ==>
        Behind(s.recorded[i], s) && Behind(s.recorded[i], next);
  }

  lemma {:induction false} NextInOrder(s: System, a: Action)
    requires InOrder(s.session) && Enabled(s, a)
    ensures InOrder(Next(s, a).session)
  {
    if a.Handle? {
      HandledInOrder(s.session, a.connected);
    } else {
      var next := Next(s, a);
      assert next.session.recorded == s.session.recorded;
      forall i | 0 <= i < |s.session.recorded| && next.session.at != Finished
        ensures Behind(s.session.recorded[i], next.session)
      {
        assert Behind(s.session.recorded[i], s.session);
      }
    }
  }

  /** Over every interleaving, drops included, the recorded attempts name existing segments and their
      (level, sub-segment) indices strictly increase, so no sub-segment is recorded twice. */
  lemma {:induction false} RecordsStrictlyIncrease(levels: seq<LevelPlan>, deathDelayMs: int, autoAdvanceDelayMs: int,
                                                   schedule: seq<Action>)
    requires Possible(Initial(levels, deathDelayMs, autoAdvanceDelayMs), schedule)
    ensures var s := After(Initial(levels, deathDelayMs, autoAdvanceDelayMs), schedule).session;
            InOrder(s)
  {
    if schedule != [] {
      var earlier := schedule[..|schedule| - 1];
      RecordsStrictlyIncrease(levels, deathDelayMs, autoAdvanceDelayMs, earlier);
      NextInOrder(After(Initial(levels, deathDelayMs, autoAdvanceDelayMs), earlier), schedule[|schedule| - 1]);
    }
  }

  /** The record a handled event adds, if any. */
  function Addition(s: System, connected: bool): seq<Record>
    requires Enabled(s, Handle(connected))
  {
    var next := Next(s, Handle(connected));
    if |next.session.recorded| > |s.session.recorded| then next.session.recorded[|s.session.recorded|..] else []
  }

  lemma AdditionIs(s: System, connected: bool)
    requires Enabled(s, Handle(connected)) && s.session.currentSubIndex < |s.session.Level().segments|
    ensures var event := s.session.queue[0]; var sub := s.session.currentSubIndex;
            Addition(s, connected) ==
              if event.HyperDeath? || !s.session.coldSince then []
              else [Record(s.session.currentLevelIndex, sub, s.session.Level().segments[sub].id, event.splitMs)]
  {
    var next := Next(s, Handle(connected)).session.recorded;
    assert next == Handled(s.session, connected).recorded;
    assert s.session.recorded[|s.session.recorded|..] == [];
  }

  /** No checkpoint dispatched before the log's k-th entry was thrown away. */
  predicate NoCheckpointLost(s: System, k: nat) {
    forall p <- s.trail.lostAt :: p < k && p < |s.ledger.log| ==> !s.ledger.log[p].event.HyperCheckpoint?
  }

  lemma {:induction false} CountUnion(log: seq<Entry>, a: set<nat>, b: set<nat>)
    requires a !! b
    ensures CountAt(log, a + b) == CountAt(log, a) + CountAt(log, b)
  {
    if log != [] {
      CountUnion(log[..|log| - 1], a, b);
    }
  }

  /** The exact account of the session's index: what it lacks of the checkpoints dispatched is pending or lost. */
  lemma {:induction false} IndexAccount(s: System)
    requires Playable(s) && Tracked(s)
    ensures s.session.currentSubIndex + CountAt(s.ledger.log, set p <- s.trail.pending)
            + CountAt(s.ledger.log, s.trail.lostAt) == Checkpoints(s.ledger.log)
  {
    var t, log := s.trail, s.ledger.log;
    var ahead := set p <- t.pending;
    CountSplit(log, t.handledAt, t.lostAt + ahead);
    CountUnion(log, t.lostAt, ahead);
  }

  /** The event about to be handled is an entry of the log, and the session's index is the number of the
      checkpoints before it exactly when none of these was lost. */
  lemma {:induction false} IndexIsRightIff(s: System)
    requires Playable(s) && Tracked(s) && s.session.queue != []
    ensures s.trail.pending != []
    ensures var k := s.trail.pending[0]; var log := s.ledger.log;
            && k < |log| && log[k].event == s.session.queue[0]
            && s.session.currentSubIndex + CountAt(log[..k], s.trail.lostAt) == Checkpoints(log[..k])
            && (s.session.currentSubIndex == Checkpoints(log[..k]) <==> NoCheckpointLost(s, k))
  {
    var t, log := s.trail, s.ledger.log;
    var events := s.session.queue + s.bus;
    HeadLocated(t, log, events);
    var k := t.pending[0];
    assert events[0] == s.session.queue[0];
    CountPrefix(log, t.handledAt, k);
    forall p | 0 <= p < k
      ensures p in t.handledAt || p in t.lostAt
    {
      assert p !in t.pending;
    }
    CountSplit(log[..k], t.handledAt, t.lostAt);
    CountZeroIff(log[..k], t.lostAt);
    assert forall p <- t.lostAt :: p < k ==> log[..k][p] == log[p];
  }

  lemma CompletionIsLast(l: Ledger, p: nat)
    requires Balanced(l.log, l.plan, l.armedAt) && p < |l.log| && l.log[p].event.HyperComplete?
    ensures p == |l.log| - 1
  {
    hide EntryBalanced;
  }

  /** The entry before the one about to be handled was handled or lost, and is no completion. */
  lemma EntryBefore(s: System, k: nat)
    requires Followed(s.trail, s.ledger.log, s.session.queue + s.bus) && s.trail.pending != []
    requires k > 0 && k == s.trail.pending[0] && Balanced(s.ledger.log, s.ledger.plan, s.ledger.armedAt)
    ensures k < |s.ledger.log| && !s.ledger.log[k - 1].event.HyperComplete?
    ensures k - 1 in s.trail.handledAt || k - 1 in s.trail.lostAt
    ensures forall h <- s.trail.handledAt :: h <= k - 1
  {
    hide Balanced;
    if s.ledger.log[k - 1].event.HyperComplete? {
      CompletionIsLast(s.ledger, k - 1);
      assert false;
    }
    assert k - 1 !in s.trail.pending;
  }

  lemma ColdFlagArrives(s: System, k: nat)
    requires Counted(s) && s.session.coldSince && 0 < k < |s.ledger.log| && NoCheckpointLost(s, k)
    requires k - 1 in s.trail.handledAt || k - 1 in s.trail.lostAt
    requires !s.ledger.log[k - 1].event.HyperComplete? && forall h <- s.trail.handledAt :: h <= k - 1
    ensures s.ledger.log[k - 1].event.HyperDeath?
  {
    hide CountAt;
  }

  lemma DeathSetsColdFlag(s: System, k: nat)
    requires Counted(s) && LossesBehind(s) && !s.trail.dropped && 0 < k < |s.ledger.log|
    requires k - 1 in s.trail.handledAt || k - 1 in s.trail.lostAt
    requires s.ledger.log[k - 1].event.HyperDeath? && forall h <- s.trail.handledAt :: h <= k - 1
    ensures s.session.coldSince
  {
    hide CountAt;
  }

  /** With no checkpoint lost before it, an event that finds the cold flag set arrives cold; and if the
      router dropped nothing, one that arrives cold finds it set. */
  lemma {:induction false} ColdFlagIsRight(s: System)
    requires Playable(s) && Tracked(s) && s.session.queue != [] && s.trail.pending != []
    requires Balanced(s.ledger.log, s.ledger.plan, s.ledger.armedAt)
    requires s.trail.pending[0] < |s.ledger.log| && NoCheckpointLost(s, s.trail.pending[0])
    ensures s.session.coldSince ==> ArrivesCold(s.ledger.log, s.trail.pending[0])
    ensures !s.trail.dropped && ArrivesCold(s.ledger.log, s.trail.pending[0]) ==> s.session.coldSince
  {
    hide Balanced, CountAt, Unfinished, NoCheckpointLost, LossesBehind, Followed;
    var k := s.trail.pending[0];
    if k > 0 {
      EntryBefore(s, k);
      if s.session.coldSince {
        ColdFlagArrives(s, k);
      } else if !s.trail.dropped && ArrivesCold(s.ledger.log, k) {
        DeathSetsColdFlag(s, k);
      }
    } else {
      HeadLocated(s.trail, s.ledger.log, s.session.queue + s.bus);
      assert s.trail.handledAt == {};
    }
  }

  /** A record that measures its own sub-segment: it names the one after the checkpoints dispatched before the
      event, and its time runs from that sub-segment's cold start (the arming or the last respawn), with no
      checkpoint dispatched in between. */
  predicate MeasuresColdStart(s: System, r: Record)
    requires s.trail.pending != [] && s.trail.pending[0] < |s.ledger.log|
  {
    var log, k := s.ledger.log, s.trail.pending[0];
    && r.level == s.session.currentLevelIndex && r.sub == Checkpoints(log[..k])
    && r.timeMs == log[k].at - log[k].coldStart && log[k].passed == 0
  }

  /** What handling an event records: nothing, or one attempt. The attempt measures its own sub-segment
      exactly when no checkpoint dispatched before the event was lost; and then, if the router dropped
      nothing, an attempt is recorded exactly for a checkpoint or completion that arrives cold. */
  predicate RecordsRightly(s: System, connected: bool)
    requires Enabled(s, Handle(connected))
  {
    && s.trail.pending != []
    && var added, log, k := Addition(s, connected), s.ledger.log, s.trail.pending[0];
       && k < |log| && log[k].event == s.session.queue[0] && |added| <= 1
       && (added != [] ==> (MeasuresColdStart(s, added[0]) <==> NoCheckpointLost(s, k)))
       && (NoCheckpointLost(s, k) && !s.trail.dropped ==>
             (added != [] <==> !log[k].event.HyperDeath? && ArrivesCold(log, k)))
  }

  lemma {:induction false} HandlingRecordsRightly(s: System, connected: bool)
    requires Tracked(s) && Consistent(s.ledger) && Enabled(s, Handle(connected))
    requires s.session.currentSubIndex < |s.session.Level().segments|
    ensures RecordsRightly(s, connected)
  {
    hide CountAt, Followed, Counted, LossesBehind, Unfinished, Handled, NoCheckpointLost, Kept, OrdinalRight;
    var log := s.ledger.log;
    IndexIsRightIff(s);
    AdditionIs(s, connected);
    var k := s.trail.pending[0];
    assert EntryBalanced(log[..k], log[k], s.ledger.plan, s.ledger.armedAt);
    assert ArrivesCold(log, k) ==> log[k].passed == 0;
    if NoCheckpointLost(s, k) {
      ColdFlagIsRight(s);
    }
  }

  predicate Caught(s: System) {
    Playable(s) ==>
      && s.trail.lostAt == {} && !s.trail.dropped
      && |s.session.queue| + |s.bus| <= 1
      && (s.session.at != Waiting ==> s.session.queue == [] && s.bus == [])
  }

  lemma InitialSound(levels: seq<LevelPlan>, deathDelayMs: int, autoAdvanceDelayMs: int)
    ensures var start := Initial(levels, deathDelayMs, autoAdvanceDelayMs);
            Sound(start) && Tracked(start) && Caught(start)
  {
    assert Balanced([], OPENING.plan, 0);
  }

  /** Over every interleaving, drops included. */
  lemma {:induction false} RecordMeasuresColdStartIff(levels: seq<LevelPlan>, deathDelayMs: int, autoAdvanceDelayMs: int,
                                                      schedule: seq<Action>, connected: bool, world: World)
    requires Grouped(levels, world)
    requires Possible(Initial(levels, deathDelayMs, autoAdvanceDelayMs), schedule)
    requires Enabled(After(Initial(levels, deathDelayMs, autoAdvanceDelayMs), schedule), Handle(connected))
    ensures RecordsRightly(After(Initial(levels, deathDelayMs, autoAdvanceDelayMs), schedule), connected)
  {
    hide Tracked, RecordsRightly;
    var start := Initial(levels, deathDelayMs, autoAdvanceDelayMs);
    InitialSound(levels, deathDelayMs, autoAdvanceDelayMs);
    ReachableSound(start, schedule);
    ReachableTracked(start, schedule);
    IndexAlwaysInRange(levels, deathDelayMs, autoAdvanceDelayMs, schedule, world);
    HandlingRecordsRightly(After(start, schedule), connected);
  }

  predicate Idling(s: System) {
    s.session.at == Waiting && s.session.queue == [] && s.bus == []
  }

  /** Synchronous delivery: an event is dispatched only while the session waits with nothing pending. */
  predicate Prompt(s: System, a: Action) {
    match a
    case Game(event, at) => Step(s.ledger.timer, Observe(event), at).1 != [] && Playable(s) ==> Idling(s)
    case Tick(at) => Step(s.ledger.timer, Input.Tick, at).1 != [] && Playable(s) ==> Idling(s)
    case DropDelivery => false
    case _ => true
  }

  predicate PromptThroughout(start: System, schedule: seq<Action>)
    requires Possible(start, schedule)
  {
    schedule == [] ||
    (PromptThroughout(start, schedule[..|schedule| - 1])
     && Prompt(After(start, schedule[..|schedule| - 1]), schedule[|schedule| - 1]))
  }

  lemma PromptCaught(s: System, a: Action)
    requires Placed(s) && Caught(s) && Enabled(s, a) && Prompt(s, a)
    ensures Caught(Next(s, a))
  {
    hide PendingFits, Checkpoints;
    if a.Handle? {
      hide Handled;
      HandledSession(s.session, a.connected);
    } else if a.ReloadDone? {
      assert s.session.queue == [];
      assert Drained(s.trail, 0).lostAt == s.trail.lostAt;
    }
  }

  /** Synchronous delivery never loses an event. */
  lemma {:induction false} SynchronousNeverLoses(levels: seq<LevelPlan>, deathDelayMs: int, autoAdvanceDelayMs: int,
                                                 schedule: seq<Action>)
    requires Possible(Initial(levels, deathDelayMs, autoAdvanceDelayMs), schedule)
    requires PromptThroughout(Initial(levels, deathDelayMs, autoAdvanceDelayMs), schedule)
    ensures Caught(After(Initial(levels, deathDelayMs, autoAdvanceDelayMs), schedule))
  {
    var start := Initial(levels, deathDelayMs, autoAdvanceDelayMs);
    InitialSound(levels, deathDelayMs, autoAdvanceDelayMs);
    if schedule != [] {
      var earlier := schedule[..|schedule| - 1];
      SynchronousNeverLoses(levels, deathDelayMs, autoAdvanceDelayMs, earlier);
      ReachableSound(start, earlier);
      PromptCaught(After(start, earlier), schedule[|schedule| - 1]);
    }
  }

  /** The two together: under synchronous delivery an attempt is recorded exactly for a checkpoint or
      completion that arrives cold, and it always measures its own sub-segment. */
  lemma {:induction false} SynchronousRecordsAreCold(levels: seq<LevelPlan>, deathDelayMs: int, autoAdvanceDelayMs: int,
                                                     schedule: seq<Action>, connected: bool, world: World)
    requires Grouped(levels, world)
    requires Possible(Initial(levels, deathDelayMs, autoAdvanceDelayMs), schedule)
    requires PromptThroughout(Initial(levels, deathDelayMs, autoAdvanceDelayMs), schedule)
    requires Enabled(After(Initial(levels, deathDelayMs, autoAdvanceDelayMs), schedule), Handle(connected))
    ensures var s := After(Initial(levels, deathDelayMs, autoAdvanceDelayMs), schedule);
            && s.trail.pending != [] && s.trail.pending[0] < |s.ledger.log|
            && var added, e := Addition(s, connected), s.ledger.log[s.trail.pending[0]];
               && (added != [] <==> !e.event.HyperDeath? && ArrivesCold(s.ledger.log, s.trail.pending[0]))
               && (added != [] ==> MeasuresColdStart(s, added[0]))
  {
    hide Addition, MeasuresColdStart, Next;
    SynchronousNeverLoses(levels, deathDelayMs, autoAdvanceDelayMs, schedule);
    RecordMeasuresColdStartIff(levels, deathDelayMs, autoAdvanceDelayMs, schedule, connected, world);
  }
}
