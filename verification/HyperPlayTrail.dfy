/** Where every event dispatched in a level has gone: handled, thrown away, or still on its way. */
module HyperPlayTrail {
  import opened HyperPlayTimer
  import opened HyperPlayLedger
  import opened HyperPlaySession
  import opened HyperPlaySystem

  /** How many of the log's checkpoints stand at places in `at`. */
  function CountAt(log: seq<Entry>, at: set<nat>): nat {
    if log == [] then 0
    else
      var last := |log| - 1;
      CountAt(log[..last], at) + if last in at && log[last].event.HyperCheckpoint? then 1 else 0
  }

  lemma {:induction false} CountAppended(log: seq<Entry>, e: Entry, at: set<nat>)
    requires |log| !in at
    ensures CountAt(log + [e], at) == CountAt(log, at)
  {
    assert (log + [e])[..|log|] == log;
  }

  /** Only the places within the log matter. */
  lemma {:induction false} CountBelow(log: seq<Entry>, at: set<nat>, other: set<nat>)
    requires forall p :: 0 <= p < |log| ==> (p in at <==> p in other)
    ensures CountAt(log, at) == CountAt(log, other)
  {
    if log != [] {
      CountBelow(log[..|log| - 1], at, other);
    }
  }

  lemma {:induction false} CountAdded(log: seq<Entry>, at: set<nat>, p: nat)
    requires p < |log| && p !in at
    ensures CountAt(log, at + {p}) == CountAt(log, at) + if log[p].event.HyperCheckpoint? then 1 else 0
  {
    var last := |log| - 1;
    if p < last {
      CountAdded(log[..last], at, p);
    } else {
      CountBelow(log[..last], at, at + {p});
    }
  }

  /** Places before `k` are counted in the log's first k entries. */
  lemma {:induction false} CountPrefix(log: seq<Entry>, at: set<nat>, k: nat)
    requires k <= |log| && forall p <- at :: p < k
    ensures CountAt(log, at) == CountAt(log[..k], at)
  {
    if k < |log| {
      CountPrefix(log[..|log| - 1], at, k);
      assert log[..|log| - 1][..k] == log[..k];
    } else {
      assert log[..k] == log;
    }
  }

  lemma {:induction false} CountSplit(log: seq<Entry>, a: set<nat>, b: set<nat>)
    requires a !! b && forall p :: 0 <= p < |log| ==> p in a || p in b
    ensures CountAt(log, a) + CountAt(log, b) == Checkpoints(log)
  {
    if log != [] {
      CountSplit(log[..|log| - 1], a, b);
    }
  }

  lemma {:induction false} CountZeroIff(log: seq<Entry>, at: set<nat>)
    ensures CountAt(log, at) == 0 <==> forall p <- at :: p < |log| ==> !log[p].event.HyperCheckpoint?
  {
    if log != [] {
      var last := |log| - 1;
      CountZeroIff(log[..last], at);
      if CountAt(log[..last], at) != 0 {
        var p :| p in at && p < last && log[..last][p].event.HyperCheckpoint?;
        assert log[p].event.HyperCheckpoint?;
      }
    }
  }

  /** The pending places are those of the events on their way, in order. */
  predicate Located(t: Trail, log: seq<Entry>, events: seq<HyperEvent>) {
    && |t.pending| == |events|
    && (forall i :: 0 <= i < |t.pending| ==> t.pending[i] < |log| && log[t.pending[i]].event == events[i])
    && (forall i, j :: 0 <= i < j < |t.pending| ==> t.pending[i] < t.pending[j])
  }

  /** Every place of the log is handled, lost or pending, and only one of these; the handled ones come first. */
  predicate Partitioned(t: Trail, log: seq<Entry>) {
    && t.handledAt !! t.lostAt
    && (forall p <- t.handledAt :: p < |log|)
    && (forall p <- t.lostAt :: p < |log|)
    && (forall i :: 0 <= i < |t.pending| ==> t.pending[i] !in t.lostAt && forall h <- t.handledAt :: h < t.pending[i])
    && (forall p :: 0 <= p < |log| ==> p in t.handledAt || p in t.lostAt || p in t.pending)
  }

  predicate Followed(t: Trail, log: seq<Entry>, events: seq<HyperEvent>) {
    Located(t, log, events) && Partitioned(t, log)
  }

  lemma SentFollowed(t: Trail, log: seq<Entry>, events: seq<HyperEvent>, e: Entry)
    requires Followed(t, log, events)
    ensures Followed(Sent(t, [e.event], |log|), log + [e], events + [e.event])
  {
  }

  lemma TookFollowed(t: Trail, log: seq<Entry>, events: seq<HyperEvent>)
    requires Followed(t, log, events) && events != []
    ensures Followed(Took(t), log, events[1..])
    ensures Took(t).handledAt == t.handledAt + {t.pending[0]} && t.pending[0] !in t.handledAt
  {
    forall p | 0 <= p < |log|
      ensures p in Took(t).handledAt || p in Took(t).lostAt || p in Took(t).pending
    {
      if p in t.pending {
        var i :| 0 <= i < |t.pending| && t.pending[i] == p;
        assert i > 0 ==> t.pending[1..][i - 1] == p;
      }
    }
  }

  lemma DrainedFollowed(t: Trail, log: seq<Entry>, events: seq<HyperEvent>, n: nat)
    requires Followed(t, log, events) && n <= |events|
    ensures Followed(Drained(t, n), log, events[n..])
  {
    var next := Drained(t, n);
    forall p | 0 <= p < |log|
      ensures p in next.handledAt || p in next.lostAt || p in next.pending
    {
      if p in t.pending {
        var i :| 0 <= i < |t.pending| && t.pending[i] == p;
        assert if i < n then p in next.lostAt else t.pending[n..][i - n] == p;
      }
    }
  }

  lemma WithoutAt<T>(items: seq<T>, n: nat)
    requires n < |items|
    ensures |Without(items, n)| == |items| - 1
    ensures forall i :: 0 <= i < |items| - 1 ==> Without(items, n)[i] == items[if i < n then i else i + 1]
    ensures forall x :: x in items ==> x == items[n] || x in Without(items, n)
  {
    forall i | 0 <= i < |items|
      ensures items[i] == items[n] || items[i] in Without(items, n)
    {
      assert i < n ==> Without(items, n)[i] == items[i];
      assert i > n ==> Without(items, n)[i - 1] == items[i];
    }
  }

  lemma DroppedLocated(t: Trail, log: seq<Entry>, events: seq<HyperEvent>, n: nat)
    requires Located(t, log, events) && n < |events|
    ensures Located(DroppedAt(t, n), log, Without(events, n))
  {
    WithoutAt(t.pending, n);
    WithoutAt(events, n);
    hide Without;
  }

  lemma DroppedPartitioned(t: Trail, log: seq<Entry>, events: seq<HyperEvent>, n: nat)
    requires Followed(t, log, events) && n < |events|
    ensures Partitioned(DroppedAt(t, n), log)
  {
    WithoutAt(t.pending, n);
    hide Without;
    var next := DroppedAt(t, n);
    forall i | 0 <= i < |next.pending|
      ensures next.pending[i] !in next.lostAt && forall h <- next.handledAt :: h < next.pending[i]
    {
      assert next.pending[i] == t.pending[if i < n then i else i + 1];
    }
    assert forall h <- next.handledAt :: h < t.pending[n];
  }

  lemma DroppedFollowed(t: Trail, log: seq<Entry>, events: seq<HyperEvent>, n: nat)
    requires Followed(t, log, events) && n < |events|
    ensures Followed(DroppedAt(t, n), log, Without(events, n))
  {
    DroppedLocated(t, log, events, n);
    DroppedPartitioned(t, log, events, n);
  }

  /** The session's index counts the checkpoints handled, and its cold flag is about the last one handled. */
  predicate Counted(s: System) {
    var t, log := s.trail, s.ledger.log;
    && s.session.currentSubIndex == CountAt(log, t.handledAt)
    && (t.lastHandled.None? <==> t.handledAt == {})
    && (t.lastHandled.Some? ==>
          t.lastHandled.value in t.handledAt && t.lastHandled.value < |log|
          && forall h <- t.handledAt :: h <= t.lastHandled.value)
    && (s.session.coldSince <==> t.lastHandled.None? || log[t.lastHandled.value].event.HyperDeath?)
    && (s.session.at in {Sleeping, Reloading} ==> s.session.coldSince)
  }

  /** Unless the router drops events, what was lost lies behind what is pending; and if the last event
      handled was no death, behind that too. */
  predicate LossesBehind(s: System) {
    var t := s.trail;
    !t.dropped ==>
      && (forall p <- t.lostAt :: forall i :: 0 <= i < |t.pending| ==> p < t.pending[i])
      && (!s.session.coldSince ==> forall p <- t.lostAt :: t.lastHandled.Some? && p < t.lastHandled.value)
  }

  /** A completion leaves the timer idle, and is not handled while its level goes on. */
  predicate Unfinished(s: System) {
    && (s.ledger.timer.phase == Idle ==> AfterCompletion(s.ledger.log))
    && forall h <- s.trail.handledAt :: h < |s.ledger.log| ==> !s.ledger.log[h].event.HyperComplete?
  }

  predicate Tracked(s: System) {
    Playable(s) ==>
      && Followed(s.trail, s.ledger.log, s.session.queue + s.bus)
      && Counted(s) && LossesBehind(s) && Unfinished(s)
  }

  lemma FedQuiet(s: System, input: Input, at: int)
    requires Playable(s) && Tracked(s) && (input.Observe? || input.Tick?)
    requires Step(s.ledger.timer, input, at).1 == [] && Unfinished(Fed(s, input, at).(trail := s.trail))
    ensures Tracked(Fed(s, input, at))
  {
    hide Located, Partitioned, CountAt, Step;
    var fed := Fed(s, input, at);
    assert fed.session.queue + fed.bus == s.session.queue + s.bus;
    assert fed.trail == s.trail && fed.ledger.log == s.ledger.log;
  }

  lemma GrownCounted(s: System, fed: System, e: Entry)
    requires Counted(s) && Partitioned(s.trail, s.ledger.log)
    requires fed.session == s.session && fed.ledger.log == s.ledger.log + [e]
    requires fed.trail == Sent(s.trail, [e.event], |s.ledger.log|)
    ensures Counted(fed)
  {
    CountAppended(s.ledger.log, e, s.trail.handledAt);
  }

  lemma GrownLosses(s: System, fed: System)
    requires LossesBehind(s) && Partitioned(s.trail, s.ledger.log) && fed.session == s.session
    requires fed.trail == s.trail.(pending := s.trail.pending + [|s.ledger.log|])
    ensures LossesBehind(fed)
  {
  }

  lemma GrownTracked(s: System, fed: System, e: Entry)
    requires Playable(s) && Tracked(s) && fed.session == s.session
    requires fed.bus == s.bus + [e.event] && fed.ledger.log == s.ledger.log + [e]
    requires fed.trail == Sent(s.trail, [e.event], |s.ledger.log|) && Unfinished(fed.(trail := s.trail))
    ensures Tracked(fed)
  {
    hide CountAt, Located;
    SentFollowed(s.trail, s.ledger.log, s.session.queue + s.bus, e);
    assert fed.session.queue + fed.bus == s.session.queue + s.bus + [e.event];
    GrownCounted(s, fed, e);
    GrownLosses(s, fed);
  }

  lemma FedGrows(s: System, input: Input, at: int)
    requires (input.Observe? || input.Tick?) && Step(s.ledger.timer, input, at).1 != []
    ensures var sent := Step(s.ledger.timer, input, at).1; var log := Fed(s, input, at).ledger.log;
            |log| == |s.ledger.log| + 1 && log == s.ledger.log + [log[|s.ledger.log|]]
            && sent == [log[|s.ledger.log|].event]
            && Fed(s, input, at).bus == s.bus + sent
            && Fed(s, input, at).trail == Sent(s.trail, sent, |s.ledger.log|)
  {
  }

  /** In a level the timer falls idle only by dispatching the completion. */
  lemma FedIdles(s: System, input: Input, at: int)
    requires Playable(s) && Unfinished(s) && Placed(s) && Consistent(s.ledger) && (input.Observe? || input.Tick?)
    requires forall h <- s.trail.handledAt :: h < |s.ledger.log|
    ensures Unfinished(Fed(s, input, at).(trail := s.trail))
    ensures Step(s.ledger.timer, input, at).1 != [] ==> s.ledger.timer.phase != Idle
  {
  }

  lemma {:induction false} FedTracked(s: System, input: Input, at: int)
    requires Tracked(s) && Placed(s) && Consistent(s.ledger) && (input.Observe? || input.Tick?)
    ensures Tracked(Fed(s, input, at))
  {
    var fed := Fed(s, input, at);
    assert fed.session == s.session;
    if Playable(s) {
      FedIdles(s, input, at);
      if Step(s.ledger.timer, input, at).1 == [] {
        FedQuiet(s, input, at);
      } else {
        FedGrows(s, input, at);
        hide Fed;
        GrownTracked(s, fed, fed.ledger.log[|s.ledger.log|]);
      }
    }
  }

  lemma HeadLocated(t: Trail, log: seq<Entry>, events: seq<HyperEvent>)
    requires Followed(t, log, events) && events != []
    ensures t.pending != [] && t.pending[0] < |log| && log[t.pending[0]].event == events[0]
    ensures forall h <- t.handledAt :: h < t.pending[0]
  {
  }

  lemma HandledLosses(s: System, connected: bool)
    requires Playable(s) && Followed(s.trail, s.ledger.log, s.session.queue + s.bus) && LossesBehind(s)
    requires Enabled(s, Handle(connected))
    ensures LossesBehind(Next(s, Handle(connected)))
  {
    hide Handled;
    HandledSession(s.session, connected);
  }

  lemma {:induction false} HandledTracked(s: System, connected: bool)
    requires Tracked(s) && Placed(s) && Consistent(s.ledger) && Enabled(s, Handle(connected))
    ensures Tracked(Next(s, Handle(connected)))
  {
    hide Handled, Located, Partitioned, Consistent, Placed, Book, CountAt;
    var next := Next(s, Handle(connected));
    HandledSession(s.session, connected);
    if Playable(next) {
      var events := s.session.queue + s.bus;
      TookFollowed(s.trail, s.ledger.log, events);
      HeadLocated(s.trail, s.ledger.log, events);
      assert events[1..] == s.session.queue[1..] + s.bus;
      assert next.ledger == s.ledger && next.bus == s.bus && next.trail == Took(s.trail);
      assert events[0] == s.session.queue[0];
      CountAdded(s.ledger.log, s.trail.handledAt, s.trail.pending[0]);
      HandledLosses(s, connected);
    }
  }

  lemma DrainedLosses(s: System)
    requires Playable(s) && Followed(s.trail, s.ledger.log, s.session.queue + s.bus) && LossesBehind(s)
    requires Counted(s) && s.session.at == Reloading
    ensures LossesBehind(Next(s, ReloadDone))
  {
    hide CountAt;
  }

  lemma {:induction false} DropTracked(s: System)
    requires Tracked(s) && s.bus != []
    ensures Tracked(Next(s, DropDelivery))
  {
    if Playable(s) {
      var events, n := s.session.queue + s.bus, |s.session.queue|;
      DroppedFollowed(s.trail, s.ledger.log, events, n);
      assert Without(events, n) == s.session.queue + s.bus[1..];
      hide Followed, CountAt, Without;
    }
  }

  lemma DrainedKeeps(t: Trail, n: nat)
    ensures var next := Drained(t, n);
            next.handledAt == t.handledAt && next.lastHandled == t.lastHandled && next.dropped == t.dropped
  {
  }

  lemma ReloadFrame(s: System)
    requires s.session.at == Reloading
    ensures Next(s, ReloadDone)
         == s.(session := s.session.(queue := [], at := Waiting), trail := Drained(s.trail, |s.session.queue|))
  {
  }

  lemma ReloadCounted(s: System, next: System)
    requires Counted(s) && Unfinished(s)
    requires next.session == s.session.(queue := [], at := Waiting) && next.ledger == s.ledger
    requires next.trail.handledAt == s.trail.handledAt && next.trail.lastHandled == s.trail.lastHandled
    ensures Counted(next) && Unfinished(next)
  {
    hide CountAt;
  }

  lemma {:induction false} ReloadTracked(s: System)
    requires Tracked(s) && s.session.at == Reloading
    ensures Tracked(Next(s, ReloadDone))
  {
    hide Followed, LossesBehind, CountAt, Drained, Counted, Unfinished, Next;
    var events, n := s.session.queue + s.bus, |s.session.queue|;
    DrainedFollowed(s.trail, s.ledger.log, events, n);
    assert events[n..] == [] + s.bus;
    DrainedLosses(s);
    DrainedKeeps(s.trail, n);
    ReloadFrame(s);
    ReloadCounted(s, Next(s, ReloadDone));
  }

  lemma DeliverTracked(s: System)
    requires Tracked(s) && s.bus != []
    ensures Tracked(Next(s, Deliver))
  {
    hide Followed, CountAt;
    assert Next(s, Deliver).session.queue + Next(s, Deliver).bus == s.session.queue + s.bus;
  }

  lemma LoadTracked(s: System, at: int)
    requires Placed(s) && Enabled(s, LoadDone(at))
    ensures Tracked(Next(s, LoadDone(at)))
  {
    hide SessionPlan;
    assert Next(s, LoadDone(at)).session.queue + Next(s, LoadDone(at)).bus == [];
  }

  lemma OtherTracked(s: System, a: Action)
    requires Tracked(s) && Enabled(s, a)
    requires a.Begin? || a.LoadFailed? || a.Wake? || a.CheckHead? || a.Start? || a.Stop?
    ensures Tracked(Next(s, a))
  {
    hide Followed, CountAt, Book;
  }

  lemma {:induction false} NextTracked(s: System, a: Action)
    requires Tracked(s) && Placed(s) && Consistent(s.ledger) && Enabled(s, a)
    ensures Tracked(Next(s, a))
  {
    match a
    case Game(event, at) => FedTracked(s, Observe(event), at);
    case Tick(at) => FedTracked(s, Input.Tick, at);
    case Handle(connected) => HandledTracked(s, connected);
    case DropDelivery => DropTracked(s);
    case ReloadDone => ReloadTracked(s);
    case Deliver => DeliverTracked(s);
    case LoadDone(at) => LoadTracked(s, at);
    case _ => OtherTracked(s, a);
  }

  lemma {:induction false} ReachableTracked(start: System, schedule: seq<Action>)
    requires Sound(start) && Tracked(start) && Possible(start, schedule)
    ensures Tracked(After(start, schedule))
  {
    if schedule != [] {
      var earlier := schedule[..|schedule| - 1];
      ReachableTracked(start, earlier);
      ReachableSound(start, earlier);
      NextTracked(After(start, earlier), schedule[|schedule| - 1]);
    }
  }
}
