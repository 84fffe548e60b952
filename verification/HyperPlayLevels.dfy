/** Grouping the recorded segments into levels, each with the save states a death reloads. */
module HyperPlayLevels {
  import opened Wrappers

  datatype Row = Row(id: string, startType: string, startOrdinal: int,
                     startWaypointId: Option<string>, statePath: Option<string>)

  datatype CheckpointState = CheckpointState(ordinal: int, statePath: string)

  datatype LevelPlan = LevelPlan(entranceStatePath: string, segments: seq<Row>, checkpoints: seq<CheckpointState>)

  const ENTRANCE := "entrance"

  /** What the session reads from outside: the files on disk and each waypoint's cold save state. */
  datatype World = World(files: set<string>, coldStates: map<string, string>)

  predicate Present(path: Option<string>, world: World) {
    path.Some? && path.value != "" && path.value in world.files
  }

  function ColdStateForWaypoint(waypointId: Option<string>, fallback: Option<string>, world: World): Option<string> {
    if waypointId.Some? && waypointId.value != "" && waypointId.value in world.coldStates
       && world.coldStates[waypointId.value] in world.files
    then Some(world.coldStates[waypointId.value])
    else fallback
  }

  /** The save state a row needs: the first row of a level its own, any later row the cold state of its start. */
  function NeededState(row: Row, startsLevel: bool, world: World): Option<string> {
    if startsLevel then row.statePath else ColdStateForWaypoint(row.startWaypointId, row.statePath, world)
  }

  predicate Loadable(row: Row, startsLevel: bool, world: World) {
    Present(NeededState(row, startsLevel, world), world)
  }

  /** On disk, under a path that is not empty. */
  predicate Stored(path: string, world: World) {
    path != "" && path in world.files
  }

  /** The cold state of the row's start, if its waypoint has one on disk. */
  predicate HasCold(row: Row, world: World) {
    && row.startWaypointId.Some? && row.startWaypointId.value != ""
    && row.startWaypointId.value in world.coldStates && world.coldStates[row.startWaypointId.value] in world.files
  }

  /** Which save states make a row loadable: the first row of a level needs its own; any later row the cold
      state of its start, and its own only where there is no cold one on disk. */
  lemma StatesNeeded(row: Row, world: World)
    ensures Loadable(row, true, world) <==> row.statePath.Some? && Stored(row.statePath.value, world)
    ensures NeededState(row, true, world) == row.statePath
    ensures HasCold(row, world) ==>
              && NeededState(row, false, world) == Some(world.coldStates[row.startWaypointId.value])
              && (Loadable(row, false, world) <==> world.coldStates[row.startWaypointId.value] != "")
    ensures !HasCold(row, world) ==>
              && NeededState(row, false, world) == row.statePath
              && (Loadable(row, false, world) <==> Loadable(row, true, world))
  {
  }

  predicate StartsLevel(rows: seq<Row>, i: nat)
    requires i < |rows|
  {
    i == 0 || rows[i].startType == "entrance"
  }

  /** A plan offers, for each segment after the first, the checkpoint that starts it. */
  predicate WellPlanned(level: LevelPlan, world: World) {
    && |level.segments| > 0
    && |level.checkpoints| == |level.segments| - 1
    && Loadable(level.segments[0], true, world)
    && level.entranceStatePath == level.segments[0].statePath.value
    && forall k :: 1 <= k < |level.segments| ==>
         && Loadable(level.segments[k], false, world)
         && level.checkpoints[k - 1] == CheckpointState(level.segments[k].startOrdinal,
                                                        NeededState(level.segments[k], false, world).value)
  }

  /** Only the first row of a group may be an entrance. */
  predicate OneEntrance(segments: seq<Row>) {
    forall k :: 1 <= k < |segments| ==> segments[k].startType != "entrance"
  }

  function Joined(levels: seq<LevelPlan>): seq<Row> {
    if levels == [] then [] else Joined(levels[..|levels| - 1]) + levels[|levels| - 1].segments
  }

  predicate Grouped(levels: seq<LevelPlan>, world: World) {
    forall k :: 0 <= k < |levels| ==>
      && WellPlanned(levels[k], world)
      && OneEntrance(levels[k].segments)
      && (k > 0 ==> levels[k].segments[0].startType == "entrance")
  }

  /** `missing` is the first row whose save state cannot be loaded. */
  predicate FirstMissing(rows: seq<Row>, missing: nat, world: World) {
    && missing < |rows|
    && !Loadable(rows[missing], StartsLevel(rows, missing), world)
    && forall i :: 0 <= i < missing ==> Loadable(rows[i], StartsLevel(rows, i), world)
  }

  predicate FirstMissingInGroup(segs: seq<Row>, missing: nat, world: World) {
    && missing < |segs|
    && !Loadable(segs[missing], missing == 0, world)
    && forall i :: 0 <= i < missing ==> Loadable(segs[i], i == 0, world)
  }

  method FinalizeLevel(segs: seq<Row>, world: World) returns (r: Result<LevelPlan, Row>)
    requires |segs| > 0
    ensures r.Ok? ==> WellPlanned(r.value, world) && r.value.segments == segs
    ensures r.Err? ==> exists k: nat :: FirstMissingInGroup(segs, k, world) && segs[k] == r.error
  {
    if !Loadable(segs[0], true, world) {
      assert FirstMissingInGroup(segs, 0, world);
      return Err(segs[0]);
    }
    var checkpoints: seq<CheckpointState> := [];
    for k := 1 to |segs|
      invariant |checkpoints| == k - 1
      invariant forall i :: 0 <= i < k ==> Loadable(segs[i], i == 0, world)
      invariant forall i :: 1 <= i < k ==>
                  checkpoints[i - 1] == CheckpointState(segs[i].startOrdinal, NeededState(segs[i], false, world).value)
    {
      var state := ColdStateForWaypoint(segs[k].startWaypointId, segs[k].statePath, world);
      if !Present(state, world) {
        assert FirstMissingInGroup(segs, k, world);
        return Err(segs[k]);
      }
      checkpoints := checkpoints + [CheckpointState(segs[k].startOrdinal, state.value)];
    }
    return Ok(LevelPlan(segs[0].statePath.value, segs, checkpoints));
  }

  predicate AllLoadable(rows: seq<Row>, end: nat, world: World)
    requires end <= |rows|
  {
    forall i :: 0 <= i < end ==> Loadable(rows[i], StartsLevel(rows, i), world)
  }

  /** `group` holds the rows from `start` to `end`, opened by an entrance unless it opens the list. */
  predicate Group(rows: seq<Row>, start: nat, end: nat, group: seq<Row>) {
    && start < end <= |rows| && group == rows[start..end]
    && OneEntrance(group)
    && (start > 0 ==> group[0].startType == ENTRANCE)
  }

  /** The levels finished so far cover the rows before `start`. */
  predicate Covered(rows: seq<Row>, start: nat, levels: seq<LevelPlan>, world: World) {
    && start <= |rows|
    && Grouped(levels, world) && Joined(levels) == rows[..start]
    && (levels == [] <==> start == 0)
    && AllLoadable(rows, start, world)
  }

  /** Within a group, a row starts a level exactly when it comes first. */
  lemma GroupStarts(rows: seq<Row>, start: nat, end: nat, group: seq<Row>)
    requires Group(rows, start, end, group)
    ensures forall j :: start <= j < end ==> rows[j] == group[j - start] && (StartsLevel(rows, j) <==> j == start)
  {
    forall j | start <= j < end
      ensures rows[j] == group[j - start] && (StartsLevel(rows, j) <==> j == start)
    {
      assert group[j - start] == rows[start + (j - start)];
    }
  }

  lemma GroupMissing(rows: seq<Row>, start: nat, end: nat, group: seq<Row>, missing: Row, world: World)
    requires Group(rows, start, end, group)
    requires exists k: nat :: FirstMissingInGroup(group, k, world) && group[k] == missing
    requires AllLoadable(rows, start, world)
    ensures exists m: nat :: FirstMissing(rows, m, world) && rows[m] == missing
    ensures !AllLoadable(rows, |rows|, world)
  {
    GroupStarts(rows, start, end, group);
    var k: nat :| FirstMissingInGroup(group, k, world) && group[k] == missing;
    var m := start + k;
    assert rows[m] == missing && !Loadable(rows[m], StartsLevel(rows, m), world);
    forall j | 0 <= j < m
      ensures Loadable(rows[j], StartsLevel(rows, j), world)
    {
      if start <= j {
        assert Loadable(group[j - start], j == start, world);
      }
    }
    assert FirstMissing(rows, m, world);
  }

  lemma GroupCovered(rows: seq<Row>, start: nat, end: nat, group: seq<Row>, levels: seq<LevelPlan>,
                     level: LevelPlan, world: World)
    requires Covered(rows, start, levels, world)
    requires Group(rows, start, end, group)
    requires WellPlanned(level, world) && level.segments == group
    ensures Covered(rows, end, levels + [level], world)
  {
    assert (levels + [level])[..|levels|] == levels;
    assert rows[..start] + rows[start..end] == rows[..end];
    GroupStarts(rows, start, end, group);
    forall j | 0 <= j < end
      ensures Loadable(rows[j], StartsLevel(rows, j), world)
    {
      if start <= j {
        assert level.segments[j - start] == rows[j];
      }
    }
  }

  lemma NothingCovered(rows: seq<Row>, world: World)
    ensures Covered(rows, 0, [], world)
  {
  }

  /** A row joins the group under way, or opens a new one. */
  lemma GroupGrows(rows: seq<Row>, start: nat, i: nat, current: seq<Row>)
    requires i < |rows|
    requires if current == [] then start == i && (i > 0 ==> rows[i].startType == ENTRANCE)
             else Group(rows, start, i, current) && rows[i].startType != ENTRANCE
    ensures Group(rows, start, i + 1, current + [rows[i]])
  {
  }

  lemma AllCovered(rows: seq<Row>, start: nat, levels: seq<LevelPlan>, world: World)
    requires Covered(rows, start, levels, world) && start == |rows|
    ensures Grouped(levels, world) && Joined(levels) == rows && AllLoadable(rows, |rows|, world)
  {
    assert rows[..start] == rows;
  }

  /** Either every row lands in exactly one well-planned level, in order, with a new level at each
      entrance and nowhere else; or some row's save state is missing and the first such row is named. */
  method BuildLevels(rows: seq<Row>, world: World) returns (r: Result<seq<LevelPlan>, Row>)
    ensures r.Ok? ==> Grouped(r.value, world) && Joined(r.value) == rows
    ensures r.Err? ==> exists m: nat :: FirstMissing(rows, m, world) && rows[m] == r.error
    ensures r.Ok? <==> AllLoadable(rows, |rows|, world)
  {
    var levels: seq<LevelPlan> := [];
    var current: seq<Row> := [];
    ghost var start: nat := 0;
    NothingCovered(rows, world);
    hide Covered, Group, WellPlanned, FirstMissing, FirstMissingInGroup, AllLoadable, Grouped;
    for i := 0 to |rows|
      invariant Covered(rows, start, levels, world)
      invariant if i == 0 then start == 0 && current == [] else Group(rows, start, i, current)
    {
      if rows[i].startType == ENTRANCE && current != [] {
        var level := FinalizeLevel(current, world);
        if level.Err? {
          GroupMissing(rows, start, i, current, level.error, world);
          return Err(level.error);
        }
        GroupCovered(rows, start, i, current, levels, level.value, world);
        levels := levels + [level.value];
        start := i;
        current := [];
      }
      GroupGrows(rows, start, i, current);
      current := current + [rows[i]];
    }
    if current != [] {
      var level := FinalizeLevel(current, world);
      if level.Err? {
        GroupMissing(rows, start, |rows|, current, level.error, world);
        return Err(level.error);
      }
      GroupCovered(rows, start, |rows|, current, levels, level.value, world);
      levels := levels + [level.value];
      start := |rows|;
    }
    AllCovered(rows, start, levels, world);
    return Ok(levels);
  }

  /** The cold-respawn save state for the start of a sub-segment; none past the last checkpoint. */
  function ColdStateForSubIndex(level: LevelPlan, sub: nat): Option<string> {
    if sub == 0 then Some(level.entranceStatePath)
    else if sub - 1 < |level.checkpoints| then Some(level.checkpoints[sub - 1].statePath)
    else None
  }

  /** In a well-planned level a cold state exists for an index exactly when the index names a segment,
      and it is the very state that segment needs. */
  lemma ColdStateExists(level: LevelPlan, sub: nat, world: World)
    requires WellPlanned(level, world)
    ensures ColdStateForSubIndex(level, sub).Some? <==> sub < |level.segments|
    ensures sub < |level.segments| ==>
              && ColdStateForSubIndex(level, sub) == NeededState(level.segments[sub], sub == 0, world)
              && ColdStateForSubIndex(level, sub).value in world.files
  {
  }
}
