/** The cold-fill queue: hot states are loaded one by one and a cold state is captured for each. */
module ColdFill {
  import opened Wrappers

  /** Segment and waypoint identifiers are never empty, so they are never taken for absent ones. */
  type Id = s: string | s != "" witness "s"

  datatype Row = Row(segmentId: Id, hotStatePath: string)

  /** What is looked up outside: the files on disk and the start waypoint of each known segment. */
  datatype World = World(files: set<string>, startWaypoints: map<Id, Id>)

  datatype SpawnEvent = SpawnEvent(segmentId: Option<Id>, statePath: string)

  datatype Status = Started | NoGaps | Stopped

  datatype StartError = NotConnected

  datatype ColdState = ColdState(waypointId: Id, statePath: string)

  datatype Controller = Controller(
    queue: seq<Row>,
    current: Option<Id>,
    coldWaypointId: Option<Id>,
    total: nat,
    attempts: map<Id, nat>)

  const CLEARED := Controller([], None, None, 0, map[])

  predicate Playable(row: Row, w: World) {
    row.hotStatePath != "" && row.hotStatePath in w.files
  }

  function Waypoint(id: Id, w: World): Option<Id> {
    if id in w.startWaypoints then Some(w.startWaypoints[id]) else None
  }

  /** How many rows at the front of the queue have no hot state on disk. */
  function Missing(queue: seq<Row>, w: World): (k: nat)
    ensures k <= |queue|
    ensures forall i :: 0 <= i < k ==> !Playable(queue[i], w)
    ensures k < |queue| ==> Playable(queue[k], w)
  {
    if queue == [] || Playable(queue[0], w) then 0 else 1 + Missing(queue[1..], w)
  }

  function NextLoaded(c: Controller, w: World): (Controller, Status) {
    var rest := c.queue[Missing(c.queue, w)..];
    if rest == [] then (c.(queue := [], current := None, coldWaypointId := None), NoGaps)
    else (c.(queue := rest, current := Some(rest[0].segmentId), coldWaypointId := Waypoint(rest[0].segmentId, w)), Started)
  }

  function Begun(c: Controller, gaps: seq<Row>, w: World): (Controller, Status) {
    if gaps == [] then (c, NoGaps)
    else NextLoaded(c.(queue := gaps, total := |gaps|, current := None), w)
  }

  predicate Ignored(c: Controller, event: SpawnEvent) {
    c.current.None? || event.statePath == ""
  }

  function SavedId(c: Controller, event: SpawnEvent): Id
    requires !Ignored(c, event)
  {
    if event.segmentId.Some? then event.segmentId.value else c.current.value
  }

  function Tries(c: Controller, id: Id): nat {
    if id in c.attempts then c.attempts[id] else 0
  }

  /** The controller after a spawn, the cold state stored for it, and whether all is done. */
  function Spawned(c: Controller, event: SpawnEvent, saved: bool, w: World): (Controller, Option<ColdState>, bool)
    requires c.current.Some? ==> c.queue != []
  {
    if Ignored(c, event) then (c, None, false)
    else
      var id := SavedId(c, event);
      if !saved then (c.(attempts := c.attempts[id := Tries(c, id) + 1]), None, false)
      else
        var stored := if c.coldWaypointId.Some? then Some(ColdState(c.coldWaypointId.value, event.statePath)) else None;
        var popped := c.(attempts := c.attempts - {id}, queue := c.queue[1..]);
        if popped.queue == [] then (popped.(current := None, coldWaypointId := None), stored, true)
        else (NextLoaded(popped, w).0, stored, false)
  }

  function SkippedOver(c: Controller, w: World): (Controller, Status) {
    if c.queue == [] then (c.(current := None, coldWaypointId := None), Stopped)
    else
      var popped := c.(queue := c.queue[1..], attempts := c.attempts - {c.queue[0].segmentId});
      if popped.queue == [] then (popped.(current := None, coldWaypointId := None), Stopped)
      else NextLoaded(popped, w)
  }

  class ColdFillController {
    var queue: seq<Row>
    var current: Option<Id>
    var coldWaypointId: Option<Id>
    var total: nat
    var saveStateAttempts: map<Id, nat>

    function View(): Controller
      reads this
    {
      Controller(queue, current, coldWaypointId, total, saveStateAttempts)
    }

    constructor ()
      ensures View() == CLEARED
    {
      queue, current, coldWaypointId, total, saveStateAttempts := [], None, None, 0, map[];
    }

    method Start(gaps: seq<Row>, connected: bool, w: World) returns (r: Result<Status, StartError>)
      modifies this
      ensures r == if connected then Ok(Begun(old(View()), gaps, w).1) else Err(NotConnected)
      ensures View() == if connected then Begun(old(View()), gaps, w).0 else old(View())
      ensures connected ==> r == Ok(if gaps != [] && current.Some? then Started else NoGaps)
    {
      if !connected {
        return Err(NotConnected);
      }
      if gaps == [] {
        return Ok(NoGaps);
      }
      queue := gaps;
      total := |gaps|;
      current := None;
      assert View() == old(View()).(queue := gaps, total := |gaps|, current := None);
      var status := LoadNext(w);
      r := Ok(status);
    }

    method LoadNext(w: World) returns (status: Status)
      modifies this
      ensures (View(), status) == NextLoaded(old(View()), w)
      ensures |queue| <= |old(queue)| && queue == old(queue)[|old(queue)| - |queue|..]
      ensures forall i :: 0 <= i < |old(queue)| - |queue| ==>
                old(queue)[i].hotStatePath == "" || old(queue)[i].hotStatePath !in w.files
      ensures if queue == [] then status == NoGaps && current == None && coldWaypointId == None
              else
                && queue[0].hotStatePath != "" && queue[0].hotStatePath in w.files
                && status == Started && current == Some(queue[0].segmentId)
                && coldWaypointId == if queue[0].segmentId in w.startWaypoints
                                     then Some(w.startWaypoints[queue[0].segmentId]) else None
    {
      ghost var k := Missing(queue, w);
      ghost var dropped: nat := 0;
      while queue != []
        invariant dropped <= k && queue == old(queue)[dropped..]
        invariant Missing(queue, w) == k - dropped
        invariant View() == old(View()).(queue := queue)
        decreases |queue|
      {
        var seg := queue[0];
        if seg.hotStatePath == "" || seg.hotStatePath !in w.files {
          queue := queue[1..];
          dropped := dropped + 1;
          continue;
        }
        current := Some(seg.segmentId);
        coldWaypointId := Waypoint(seg.segmentId, w);
        return Started;
      }
      current := None;
      coldWaypointId := None;
      return NoGaps;
    }

    method HandleSpawn(event: SpawnEvent, saved: bool, w: World) returns (stored: Option<ColdState>, done: bool)
      requires current.Some? ==> queue != []
      modifies this
      ensures (View(), stored, done) == Spawned(old(View()), event, saved, w)
    {
      stored, done := None, false;
      if current.None? {
        return;
      }
      if event.statePath == "" {
        return;
      }
      var segId: Id := if event.segmentId.Some? then event.segmentId.value else current.value;
      var attempt := (if segId in saveStateAttempts then saveStateAttempts[segId] else 0) + 1;
      ghost var before := saveStateAttempts;
      saveStateAttempts := saveStateAttempts[segId := attempt];
      if !saved {
        return;
      }
      saveStateAttempts := saveStateAttempts - {segId};
      assert saveStateAttempts == before - {segId};
      if coldWaypointId.Some? {
        stored := Some(ColdState(coldWaypointId.value, event.statePath));
      }
      queue := queue[1..];
      if queue == [] {
        current := None;
        coldWaypointId := None;
        done := true;
        return;
      }
      var status := LoadNext(w);
    }

    method Skip(w: World) returns (status: Status)
      modifies this
      ensures (View(), status) == SkippedOver(old(View()), w)
      ensures status == if |old(queue)| <= 1 then Stopped else if current.Some? then Started else NoGaps
    {
      if queue == [] {
        current := None;
        coldWaypointId := None;
        return Stopped;
      }
      saveStateAttempts := saveStateAttempts - {queue[0].segmentId};
      queue := queue[1..];
      if queue == [] {
        current := None;
        coldWaypointId := None;
        return Stopped;
      }
      status := LoadNext(w);
    }

    method Abort()
      modifies this
      ensures View() == CLEARED
    {
      queue, current, coldWaypointId, total, saveStateAttempts := [], None, None, 0, map[];
    }

    /** The progress shown: which segment of how many is being filled, if any. */
    method GetState() returns (progress: Option<(int, nat)>)
      ensures progress == if current.None? then None else Some((total - |queue| + 1, total))
    {
      if current.None? {
        return None;
      }
      return Some((total - |queue| + 1, total));
    }
  }
}

/** Whole runs of the cold-fill queue. */
module ColdFillRuns {
  import opened Wrappers
  import opened ColdFill

  /** What a successful spawn left behind: the event, the segment whose state was saved, the cold state
      stored, and the world in which the row being filled had been loaded. */
  datatype Save = Save(event: SpawnEvent, segmentId: Id, stored: Option<ColdState>, loadedIn: World)

  datatype Fate = Captured(save: Save) | SkippedByUser | FileMissing

  datatype Settled = Settled(row: Row, fate: Fate)

  /** The controller beside the gaps it was started with, what became of each so far, in order, and the
      world in which the current row was loaded. */
  datatype Run = Run(controller: Controller, gaps: seq<Row>, settled: seq<Settled>, loadedIn: World)

  datatype Action =
    | Start(gaps: seq<Row>)
    | Spawn(event: SpawnEvent, saved: bool)
    | Skip
    | Abort

  datatype Step = Step(action: Action, world: World)

  function Rows(settled: seq<Settled>): seq<Row> {
    seq(|settled|, i requires 0 <= i < |settled| => settled[i].row)
  }

  function Dropped(queue: seq<Row>, w: World): seq<Settled> {
    var k := Missing(queue, w);
    seq(k, i requires 0 <= i < k => Settled(queue[i], FileMissing))
  }

  /** A current segment exists exactly when the queue is not empty, and then it is its head; the settled
      rows and the queue make up the gaps, in order. */
  predicate Sound(r: Run) {
    && r.controller.current == (if r.controller.queue == [] then None else Some(r.controller.queue[0].segmentId))
    && (r.controller.queue == [] ==> r.controller.coldWaypointId.None?)
    && r.controller.total == |r.gaps|
    && Rows(r.settled) + r.controller.queue == r.gaps
  }

  /** Handlers are atomic; each finds its own world. */
  function Next(r: Run, s: Step): Run
    requires Sound(r)
  {
    var c := r.controller;
    match s.action
    case Start(gaps) =>
      if gaps == [] then r
      else Run(Begun(c, gaps, s.world).0, gaps, Dropped(gaps, s.world), s.world)
    case Spawn(event, saved) =>
      var (next, stored, _) := Spawned(c, event, saved, s.world);
      if c.current.None? || event.statePath == "" || !saved then r.(controller := next)
      else
        var save := Save(event, SavedId(c, event), stored, r.loadedIn);
        r.(controller := next, loadedIn := s.world,
           settled := r.settled + [Settled(c.queue[0], Captured(save))] + Dropped(c.queue[1..], s.world))
    case Skip =>
      var next := SkippedOver(c, s.world).0;
      if c.queue == [] then r.(controller := next)
      else r.(controller := next, loadedIn := s.world,
              settled := r.settled + [Settled(c.queue[0], SkippedByUser)] + Dropped(c.queue[1..], s.world))
    case Abort => IDLE
  }

  const IDLE := Run(CLEARED, [], [], World({}, map[]))

  /** The save is of the segment the event names, or else of the row's own; the cold state stored is for
      the row's own waypoint, at the event's path. */
  predicate Accurate(row: Row, save: Save) {
    && save.event.statePath != ""
    && save.segmentId == (if save.event.segmentId.Some? then save.event.segmentId.value else row.segmentId)
    && var own := Waypoint(row.segmentId, save.loadedIn);
       save.stored == if own.Some? then Some(ColdState(own.value, save.event.statePath)) else None
  }

  /** The waypoint a capture writes is the one looked up for the current row when it was loaded. */
  predicate Attributed(r: Run) {
    && (r.controller.current.Some? ==>
          r.controller.coldWaypointId == Waypoint(r.controller.current.value, r.loadedIn))
    && forall i :: 0 <= i < |r.settled| && r.settled[i].fate.Captured? ==>
         Accurate(r.settled[i].row, r.settled[i].fate.save)
  }

  lemma DroppedRows(queue: seq<Row>, w: World)
    ensures Rows(Dropped(queue, w)) + queue[Missing(queue, w)..] == queue
  {
    hide Missing;
    var k := Missing(queue, w);
    var dropped := Dropped(queue, w);
    assert |dropped| == k && forall i :: 0 <= i < k ==> dropped[i].row == queue[i];
    assert Rows(dropped) == queue[..k];
    assert queue[..k] + queue[k..] == queue;
  }

  lemma RowsJoined(before: seq<Settled>, after: seq<Settled>)
    ensures Rows(before + after) == Rows(before) + Rows(after)
  {
  }

  lemma Regrouped<T>(before: seq<T>, queue: seq<T>, dropped: seq<T>, left: seq<T>)
    requires queue != [] && dropped + left == queue[1..]
    ensures before + [queue[0]] + dropped + left == before + queue
  {
    assert before + [queue[0]] + dropped + left == before + ([queue[0]] + (dropped + left));
  }

  lemma OneRow(row: Row, fate: Fate)
    ensures Rows([Settled(row, fate)]) == [row]
  {
  }

  lemma PoppedRows(settled: seq<Settled>, queue: seq<Row>, fate: Fate, w: World)
    requires queue != []
    ensures Rows(settled + [Settled(queue[0], fate)] + Dropped(queue[1..], w)) + queue[1..][Missing(queue[1..], w)..]
              == Rows(settled) + queue
  {
    hide Dropped, Missing;
    var popped, dropped := [Settled(queue[0], fate)], Dropped(queue[1..], w);
    DroppedRows(queue[1..], w);
    RowsJoined(settled + popped, dropped);
    RowsJoined(settled, popped);
    OneRow(queue[0], fate);
    hide Rows;
    Regrouped(Rows(settled), queue, Rows(dropped), queue[1..][Missing(queue[1..], w)..]);
  }

  /** Every handler, in any world, keeps the queue, the current segment and the accounts in agreement. */
  lemma {:induction false} NextSound(r: Run, s: Step)
    requires Sound(r)
    ensures Sound(Next(r, s))
  {
    var c := r.controller;
    match s.action
    case Start(gaps) => DroppedRows(gaps, s.world);
    case Spawn(event, saved) =>
      if !Ignored(c, event) && saved {
        var save := Save(event, SavedId(c, event), Spawned(c, event, saved, s.world).1, r.loadedIn);
        PoppedRows(r.settled, c.queue, Captured(save), s.world);
      }
    case Skip =>
      if c.queue != [] {
        PoppedRows(r.settled, c.queue, SkippedByUser, s.world);
      }
    case Abort =>
  }

  lemma {:induction false} NextAttributed(r: Run, s: Step)
    requires Sound(r) && Attributed(r)
    ensures Attributed(Next(r, s))
  {
    hide Missing;
    var next := Next(r, s);
    forall i | 0 <= i < |next.settled| && next.settled[i].fate.Captured?
      ensures Accurate(next.settled[i].row, next.settled[i].fate.save)
    {
      if i < |r.settled| && r.settled[i].fate.Captured? {
        assert Accurate(r.settled[i].row, r.settled[i].fate.save);
      }
    }
  }

  function After(steps: seq<Step>): (r: Run)
    ensures Sound(r) && Attributed(r)
  {
    if steps == [] then IDLE
    else
      var before := After(steps[..|steps| - 1]);
      NextSound(before, steps[|steps| - 1]);
      NextAttributed(before, steps[|steps| - 1]);
      Next(before, steps[|steps| - 1])
  }

  datatype Kind = Capture | UserSkip | Unplayable

  function KindOf(fate: Fate): Kind {
    match fate
    case Captured(_) => Capture
    case SkippedByUser => UserSkip
    case FileMissing => Unplayable
  }

  function Count(settled: seq<Settled>, kind: Kind): nat {
    if settled == [] then 0
    else (if KindOf(settled[0].fate) == kind then 1 else 0) + Count(settled[1..], kind)
  }

  lemma {:induction false} CountsAddUp(settled: seq<Settled>)
    ensures Count(settled, Capture) + Count(settled, UserSkip) + Count(settled, Unplayable) == |settled|
  {
    if settled != [] {
      CountsAddUp(settled[1..]);
    }
  }

  /** The segments whose rows were captured, and the segments whose states were saved, in that order. */
  function CapturedIds(settled: seq<Settled>): seq<Id> {
    if settled == [] then []
    else (if settled[0].fate.Captured? then [settled[0].row.segmentId] else []) + CapturedIds(settled[1..])
  }

  function SavedIds(settled: seq<Settled>): seq<Id> {
    if settled == [] then []
    else (if settled[0].fate.Captured? then [settled[0].fate.save.segmentId] else []) + SavedIds(settled[1..])
  }

  predicate SpawnMatches(s: Settled)
    requires s.fate.Captured?
  {
    s.fate.save.event.segmentId.None? || s.fate.save.event.segmentId.value == s.row.segmentId
  }

  /** Every capture was of a spawn that named no segment, or the one being filled. */
  predicate SpawnsMatch(settled: seq<Settled>) {
    forall i :: 0 <= i < |settled| && settled[i].fate.Captured? ==> SpawnMatches(settled[i])
  }

  lemma {:induction false} SavedAreCaptured(settled: seq<Settled>)
    requires forall i :: 0 <= i < |settled| && settled[i].fate.Captured? ==>
               Accurate(settled[i].row, settled[i].fate.save)
    ensures |SavedIds(settled)| == |CapturedIds(settled)|
    ensures SavedIds(settled) == CapturedIds(settled) <==> SpawnsMatch(settled)
  {
    if settled != [] {
      var rest := settled[1..];
      SavedAreCaptured(rest);
      assert settled == [settled[0]] + rest;
      assert SpawnsMatch(settled) <==> (settled[0].fate.Captured? ==> SpawnMatches(settled[0])) && SpawnsMatch(rest);
      if settled[0].fate.Captured? {
        var saved, row := settled[0].fate.save.segmentId, settled[0].row.segmentId;
        assert saved == row <==> SpawnMatches(settled[0]);
        assert SavedIds(settled) == [saved] + SavedIds(rest) && CapturedIds(settled) == [row] + CapturedIds(rest);
        assert ([saved] + SavedIds(rest))[1..] == SavedIds(rest) && ([row] + CapturedIds(rest))[1..] == CapturedIds(rest);
        if SavedIds(settled) == CapturedIds(settled) {
          assert SavedIds(settled)[0] == saved && CapturedIds(settled)[0] == row;
          assert SavedIds(rest) == CapturedIds(rest);
        } else {
          assert saved != row || SavedIds(rest) != CapturedIds(rest);
        }
      } else {
        assert SavedIds(settled) == SavedIds(rest) && CapturedIds(settled) == CapturedIds(rest);
      }
    }
  }

  predicate Subsequence(a: seq<Id>, b: seq<Id>) {
    if a == [] then true
    else if b == [] then false
    else if a[0] == b[0] && Subsequence(a[1..], b[1..]) then true
    else Subsequence(a, b[1..])
  }

  function Ids(rows: seq<Row>): seq<Id> {
    if rows == [] then [] else [rows[0].segmentId] + Ids(rows[1..])
  }

  lemma SubsequenceLonger(a: seq<Id>, b: seq<Id>)
    requires b != [] && Subsequence(a, b[1..])
    ensures Subsequence(a, b)
  {
  }

  lemma {:induction false} CapturedInOrder(settled: seq<Settled>, queue: seq<Row>)
    ensures Subsequence(CapturedIds(settled), Ids(Rows(settled) + queue))
    ensures forall id :: id in CapturedIds(settled) ==> id in Ids(Rows(settled) + queue)
  {
    if settled != [] {
      var all := Rows(settled) + queue;
      assert all[1..] == Rows(settled[1..]) + queue && all[0] == settled[0].row;
      CapturedInOrder(settled[1..], queue);
      if settled[0].fate.Captured? {
        assert CapturedIds(settled)[1..] == CapturedIds(settled[1..]);
        assert Ids(all)[1..] == Ids(all[1..]);
      } else {
        assert CapturedIds(settled) == CapturedIds(settled[1..]);
        assert Ids(all)[1..] == Ids(all[1..]);
        SubsequenceLonger(CapturedIds(settled), Ids(all));
      }
    }
  }

  predicate Distinct(ids: seq<Id>) {
    forall i, j :: 0 <= i < j < |ids| ==> ids[i] != ids[j]
  }

  lemma {:induction false} SubsequenceDistinct(a: seq<Id>, b: seq<Id>)
    requires Subsequence(a, b) && Distinct(b)
    ensures Distinct(a) && forall id :: id in a ==> id in b
    decreases |b|
  {
    if a != [] {
      assert Distinct(b[1..]);
      if a[0] == b[0] && Subsequence(a[1..], b[1..]) {
        SubsequenceDistinct(a[1..], b[1..]);
        assert a[0] !in b[1..];
        assert a == [a[0]] + a[1..];
      } else {
        SubsequenceDistinct(a, b[1..]);
      }
    }
  }

  /** Conservation over every run: each gap is captured, skipped by the user, dropped for its missing file,
      or still queued; a current segment exists exactly when something is queued; and progress counts within
      the total. */
  lemma {:induction false} RunConserves(steps: seq<Step>)
    ensures var r := After(steps); var c := r.controller;
            && Count(r.settled, Capture) + Count(r.settled, UserSkip) + Count(r.settled, Unplayable)
                 + |c.queue| == c.total
            && (c.current.Some? <==> c.queue != [])
            && (c.current.Some? ==> c.current.value == c.queue[0].segmentId && 1 <= c.total - |c.queue| + 1 <= c.total)
  {
    CountsAddUp(After(steps).settled);
  }

  predicate WritesOwn(s: Settled)
    requires s.fate.Captured?
  {
    var save, waypoints := s.fate.save, s.fate.save.loadedIn.startWaypoints;
    && save.event.statePath != ""
    && save.stored == if s.row.segmentId in waypoints
                      then Some(ColdState(waypoints[s.row.segmentId], save.event.statePath)) else None
  }

  /** What the captures of a run were of. Each writes the waypoint of the row being filled; it saves that
      row's own segment exactly when its spawn named no other. So the segments saved are those of the
      captured rows exactly when no spawn named another, and then they are a subsequence of the gaps,
      without repetition when the gap list has none. */
  lemma {:induction false} CapturesSaveOwnIff(steps: seq<Step>)
    ensures var r := After(steps);
            && (forall i :: 0 <= i < |r.settled| && r.settled[i].fate.Captured? ==>
                  && WritesOwn(r.settled[i])
                  && (r.settled[i].fate.save.segmentId == r.settled[i].row.segmentId <==> SpawnMatches(r.settled[i])))
            && (SavedIds(r.settled) == CapturedIds(r.settled) <==> SpawnsMatch(r.settled))
            && (SpawnsMatch(r.settled) ==> Subsequence(SavedIds(r.settled), Ids(r.gaps)))
            && (SpawnsMatch(r.settled) && Distinct(Ids(r.gaps)) ==> Distinct(SavedIds(r.settled)))
  {
    var r := After(steps);
    assert forall i :: 0 <= i < |r.settled| && r.settled[i].fate.Captured? ==>
      Accurate(r.settled[i].row, r.settled[i].fate.save);
    SavedAreCaptured(r.settled);
    CapturedInOrder(r.settled, r.controller.queue);
    if Distinct(Ids(r.gaps)) {
      SubsequenceDistinct(CapturedIds(r.settled), Ids(r.gaps));
    }
  }

  /** The spawn makes the controller save segment `id`. */
  predicate Saves(c: Controller, event: SpawnEvent, id: Id) {
    && c.current.Some? && event.statePath != ""
    && id == if event.segmentId.Some? then event.segmentId.value else c.current.value
  }

  /** How often saving segment `id` has failed since it last succeeded, was skipped, or all was given up. */
  function FailedSaves(steps: seq<Step>, id: Id): nat {
    if steps == [] then 0
    else
      var before := steps[..|steps| - 1];
      var c := After(before).controller;
      match steps[|steps| - 1].action
      case Start(_) => FailedSaves(before, id)
      case Spawn(event, saved) =>
        if !Saves(c, event, id) then FailedSaves(before, id) else if saved then 0 else FailedSaves(before, id) + 1
      case Skip => if c.queue != [] && c.queue[0].segmentId == id then 0 else FailedSaves(before, id)
      case Abort => 0
  }

  lemma TriesStep(r: Run, s: Step, id: Id)
    requires Sound(r)
    ensures var c := r.controller; var before, after := Tries(c, id), Tries(Next(r, s).controller, id);
            match s.action
            case Start(_) => after == before
            case Spawn(event, saved) =>
              if !Saves(c, event, id) then after == before else if saved then after == 0 else after == before + 1
            case Skip => if c.queue != [] && c.queue[0].segmentId == id then after == 0 else after == before
            case Abort => after == 0
  {
    hide Missing, Dropped, Rows;
  }

  /** Over every run the retry counters are the failures since. */
  lemma {:induction false} RetriesCounted(steps: seq<Step>, id: Id)
    ensures var attempts := After(steps).controller.attempts;
            FailedSaves(steps, id) == if id in attempts then attempts[id] else 0
  {
    if steps != [] {
      RetriesCounted(steps[..|steps| - 1], id);
      TriesStep(After(steps[..|steps| - 1]), steps[|steps| - 1], id);
      hide Next, Saves, Sound, Attributed;
    }
  }

  lemma AfterLast(steps: seq<Step>, s: Step)
    ensures After(steps + [s]) == Next(After(steps), s)
  {
    assert (steps + [s])[..|steps|] == steps;
  }

  lemma AfterNone()
    ensures After([]) == IDLE
  {
  }

  lemma StartedOnFirst(a: Row, b: Row, w: World)
    requires Playable(a, w)
    ensures var next := Next(IDLE, Step(Start([a, b]), w));
            next.controller.queue == [a, b] && next.settled == [] && next.gaps == [a, b]
  {
    assert Missing([a, b], w) == 0 && [a, b][0..] == [a, b];
  }

  lemma SkippedToSecond(r: Run, a: Row, b: Row, w: World)
    requires Sound(r) && r.controller.queue == [a, b] && r.settled == [] && Playable(b, w)
    ensures var next := Next(r, Step(Skip, w));
            && next.settled == [Settled(a, SkippedByUser)] && next.loadedIn == w
            && next.controller.queue == [b] && next.controller.current == Some(b.segmentId)
            && next.controller.coldWaypointId == Waypoint(b.segmentId, w)
  {
    assert [a, b][1..] == [b] && [b][0..] == [b];
    assert Missing([b], w) == 0;
  }

  lemma SpawnedOnSecond(r: Run, a: Row, b: Row, w: World, path: string)
    requires Sound(r) && r.controller.queue == [b] && r.settled == [Settled(a, SkippedByUser)] && r.loadedIn == w
    requires r.controller.coldWaypointId == Waypoint(b.segmentId, w) && b.segmentId in w.startWaypoints && path != ""
    ensures var late := SpawnEvent(Some(a.segmentId), path);
            Next(r, Step(Spawn(late, true), w)).settled
            == [Settled(a, SkippedByUser),
                Settled(b, Captured(Save(late, a.segmentId, Some(ColdState(w.startWaypoints[b.segmentId], path)), w)))]
  {
    assert [b][1..] == [];
  }

  /** A spawn left over from a skipped row: its segment is saved, and its state is stored for the waypoint of
      the row that is current by now. */
  lemma {:induction false} LateSpawnMisfiled(a: Row, b: Row, w: World, path: string)
    requires a.segmentId != b.segmentId && Playable(a, w) && Playable(b, w) && path != ""
    requires b.segmentId in w.startWaypoints
    ensures var late := SpawnEvent(Some(a.segmentId), path);
            var r := After([Step(Start([a, b]), w), Step(Skip, w), Step(Spawn(late, true), w)]);
            r.settled == [Settled(a, SkippedByUser),
                          Settled(b, Captured(Save(late, a.segmentId,
                                            Some(ColdState(w.startWaypoints[b.segmentId], path)), w)))]
  {
    hide After, Next;
    var start, skip, spawn := Step(Start([a, b]), w), Step(Skip, w), Step(Spawn(SpawnEvent(Some(a.segmentId), path), true), w);
    AfterNone();
    AfterLast([], start);
    AfterLast([start], skip);
    AfterLast([start, skip], spawn);
    assert [] + [start] == [start] && [start] + [skip] == [start, skip]
        && [start, skip] + [spawn] == [start, skip, spawn];
    StartedOnFirst(a, b, w);
    SkippedToSecond(After([start]), a, b, w);
    SpawnedOnSecond(After([start, skip]), a, b, w, path);
  }

  predicate RestMissing(queue: seq<Row>, w: World) {
    forall i :: 1 <= i < |queue| ==> !Playable(queue[i], w)
  }

  /** A spawn reports that all is done exactly when it drains the queue, unless it drains it by dropping
      rows whose files are missing; that exception arises exactly when more rows were queued and none of
      them has its file, and then the fill ends without being reported as done. */
  lemma DoneIffDrained(r: Run, event: SpawnEvent, w: World)
    requires Sound(r) && !Ignored(r.controller, event)
    ensures var c := r.controller;
            var (next, _, done) := Spawned(c, event, true, w);
            && (next.queue == [] <==> RestMissing(c.queue, w))
            && (done <==> |c.queue| == 1)
            && ((done <==> next.queue == []) <==> |c.queue| == 1 || !RestMissing(c.queue, w))
  {
    var rest := r.controller.queue[1..];
    if |rest| > 0 && Missing(rest, w) == |rest| {
      forall i | 1 <= i < |r.controller.queue|
        ensures !Playable(r.controller.queue[i], w)
      {
        assert r.controller.queue[i] == rest[i - 1];
      }
    } else if |rest| > 0 {
      assert Playable(r.controller.queue[Missing(rest, w) + 1], w);
    }
  }
}
