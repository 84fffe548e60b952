/** The live practice view: overlapping loads, one render generation and one interval timer. */
module LiveView {
  import opened Wrappers

  datatype Hosts = Hosts(id: nat)

  datatype LoadOptions = LoadOptions(segmentId: string, gameId: string, segmentName: string, title: string, hosts: Hosts)

  /** A route summary; frozen sessions carry the instant they ended. */
  datatype Summary = Summary(sessionEndedAt: Option<real>)

  /** The route bar's data; the generation, the observer's note, is that of the load it came from. */
  datatype RouteData = RouteData(generation: nat, title: string, gameId: string, summary: Summary, nowSeconds: real)

  datatype Panel = RouteBarPanel | RunGraphPanel | SegmentSummaryPanel | EpisodeGraphPanel

  /** A write to a host panel: data of some load, beside the newest load at that moment; an error note; a tick's
      re-render; or blanking. */
  datatype Render =
    | Data(generation: nat, newest: nat, panel: Panel, hosts: Hosts)
    | ErrorNote(panel: Panel, hosts: Hosts)
    | TickRender(hosts: Hosts, data: RouteData)
    | Blank(panel: Panel, hosts: Hosts)

  /** The module's variables, the browser's live intervals with the next handle it will give out, the
      loads still fetching (by generation), and, for the observer, the writes made so far and the options of
      every load begun: those of generation g stand at g - 1. */
  datatype View = View(
    tickHandle: Option<nat>,
    lastRouteData: Option<RouteData>,
    lastHosts: Option<Hosts>,
    renderGen: nat,
    intervals: set<nat>,
    nextHandle: nat,
    inFlight: map<nat, LoadOptions>,
    renders: seq<Render>,
    begun: seq<LoadOptions>)

  const FRESH := View(None, None, None, 0, {}, 0, map[], [], [])

  function TickStopped(v: View): View {
    if v.tickHandle.None? then v
    else v.(intervals := v.intervals - {v.tickHandle.value}, tickHandle := None)
  }

  function Begun(v: View, opts: LoadOptions): View {
    var generation := v.renderGen + 1;
    TickStopped(v.(renderGen := generation)).(lastHosts := Some(opts.hosts), inFlight := v.inFlight[generation := opts],
                                              begun := v.begun + [opts])
  }

  /** A fetch that fails writes an error note into its load's own hosts, stale or not. */
  function FetchFailed(v: View, generation: nat, panel: Panel): View
    requires generation in v.inFlight
  {
    v.(renders := v.renders + [ErrorNote(panel, v.inFlight[generation].hosts)])
  }

  predicate Frozen(summary: Option<Summary>) {
    summary.Some? && summary.value.sessionEndedAt.Some?
  }

  /** What a load's answers render. */
  function DataRenders(generation: nat, newest: nat, hosts: Hosts, live: bool, summary: Option<Summary>): seq<Render> {
    (if summary.Some? then
       [Data(generation, newest, RouteBarPanel, hosts), Data(generation, newest, RunGraphPanel, hosts)]
     else [])
    + (if live then
         [Data(generation, newest, SegmentSummaryPanel, hosts), Data(generation, newest, EpisodeGraphPanel, hosts)]
       else [])
  }

  function Resolved(v: View, generation: nat, live: bool, summary: Option<Summary>, now: real): View
    requires generation in v.inFlight
  {
    var opts := v.inFlight[generation];
    var landed := v.(inFlight := v.inFlight - {generation});
    if generation != v.renderGen then landed
    else
      var rendered := landed.(
        renders := v.renders + DataRenders(generation, v.renderGen, opts.hosts, live, summary),
        lastRouteData := if summary.None? then v.lastRouteData
                         else Some(RouteData(generation, opts.title, opts.gameId, summary.value,
                                             if Frozen(summary) then summary.value.sessionEndedAt.value else now)));
      if Frozen(summary) then rendered
      else rendered.(tickHandle := Some(v.nextHandle), intervals := v.intervals + {v.nextHandle},
                     nextHandle := v.nextHandle + 1)
  }

  function Blanks(hosts: Hosts): seq<Render> {
    [Blank(RouteBarPanel, hosts), Blank(RunGraphPanel, hosts), Blank(SegmentSummaryPanel, hosts),
     Blank(EpisodeGraphPanel, hosts)]
  }

  function Destroyed(v: View): View {
    var stopped := TickStopped(v).(lastRouteData := None);
    if v.lastHosts.None? then stopped
    else stopped.(renders := v.renders + Blanks(v.lastHosts.value), lastHosts := None)
  }

  function Ticked(v: View, now: real): View {
    if v.lastRouteData.None? || v.lastHosts.None? then v
    else
      var data := v.lastRouteData.value.(nowSeconds := now);
      v.(lastRouteData := Some(data), renders := v.renders + [TickRender(v.lastHosts.value, data)])
  }

  class LiveViewModule {
    var tickHandle: Option<nat>
    var lastRouteData: Option<RouteData>
    var lastHosts: Option<Hosts>
    var renderGen: nat
    var intervals: set<nat>
    var nextHandle: nat
    var inFlight: map<nat, LoadOptions>
    var renders: seq<Render>
    var begun: seq<LoadOptions>

    function State(): View
      reads this
    {
      View(tickHandle, lastRouteData, lastHosts, renderGen, intervals, nextHandle, inFlight, renders, begun)
    }

    constructor ()
      ensures State() == FRESH
    {
      tickHandle, lastRouteData, lastHosts, renderGen := None, None, None, 0;
      intervals, nextHandle, inFlight, renders, begun := {}, 0, map[], [], [];
    }

    /** Up to the await of the two fetches; the result is the load's generation. */
    method BeginLoad(opts: LoadOptions) returns (myGen: nat)
      modifies this
      ensures State() == Begun(old(State()), opts)
      ensures myGen == renderGen == old(renderGen) + 1 && tickHandle == None && lastHosts == Some(opts.hosts)
      ensures renders == old(renders) && inFlight == old(inFlight)[myGen := opts]
    {
      renderGen := renderGen + 1;
      myGen := renderGen;
      StopTick();
      lastHosts := Some(opts.hosts);
      inFlight := inFlight[myGen := opts];
      begun := begun + [opts];
    }

    method FailFetch(myGen: nat, panel: Panel)
      requires myGen in inFlight
      modifies this
      ensures State() == FetchFailed(old(State()), myGen, panel)
      ensures renders == old(renders) + [ErrorNote(panel, inFlight[myGen].hosts)] && inFlight == old(inFlight)
    {
      renders := renders + [ErrorNote(panel, inFlight[myGen].hosts)];
    }

    /** After the await: the answers of the two fetches, absent where a fetch failed. */
    method ResolveLoad(myGen: nat, live: bool, summary: Option<Summary>, now: real)
      requires myGen in inFlight
      modifies this
      ensures State() == Resolved(old(State()), myGen, live, summary, now)
    {
      var opts := inFlight[myGen];
      inFlight := inFlight - {myGen};
      if myGen != renderGen {
        return;
      }
      var frozen := false;
      if summary.Some? {
        frozen := summary.value.sessionEndedAt.Some?;
        lastRouteData := Some(RouteData(myGen, opts.title, opts.gameId, summary.value,
                                        if frozen then summary.value.sessionEndedAt.value else now));
      }
      renders := renders + DataRenders(myGen, renderGen, opts.hosts, live, summary);
      if !frozen {
        tickHandle := Some(nextHandle);
        intervals := intervals + {nextHandle};
        nextHandle := nextHandle + 1;
      }
    }

    method TickRouteBar(now: real)
      modifies this
      ensures State() == Ticked(old(State()), now)
    {
      if lastRouteData.None? || lastHosts.None? {
        return;
      }
      lastRouteData := Some(lastRouteData.value.(nowSeconds := now));
      renders := renders + [TickRender(lastHosts.value, lastRouteData.value)];
    }

    method StopTick()
      modifies this
      ensures State() == TickStopped(old(State()))
    {
      if tickHandle.Some? {
        intervals := intervals - {tickHandle.value};
        tickHandle := None;
      }
    }

    method Destroy()
      modifies this
      ensures State() == Destroyed(old(State()))
      ensures lastRouteData == None && lastHosts == None && tickHandle == None && renderGen == old(renderGen)
      ensures renders == old(renders) + if old(lastHosts).None? then []
                                        else var hosts := old(lastHosts).value;
                                             [Blank(RouteBarPanel, hosts), Blank(RunGraphPanel, hosts),
                                              Blank(SegmentSummaryPanel, hosts), Blank(EpisodeGraphPanel, hosts)]
    {
      StopTick();
      lastRouteData := None;
      if lastHosts.Some? {
        renders := renders + Blanks(lastHosts.value);
        lastHosts := None;
      }
    }
  }

  datatype Action =
    | Begin(opts: LoadOptions)
    | FailFetch(generation: nat, panel: Panel)
    | Resolve(generation: nat, live: bool, summary: Option<Summary>, now: real)
    | Tick(handle: nat, now: real)
    | Destroy

  predicate Enabled(v: View, a: Action) {
    match a
    case FailFetch(generation, _) => generation in v.inFlight
    case Resolve(generation, _, _, _) => generation in v.inFlight
    case Tick(handle, _) => handle in v.intervals
    case _ => true
  }

  function Next(v: View, a: Action): View
    requires Enabled(v, a)
  {
    match a
    case Begin(opts) => Begun(v, opts)
    case FailFetch(generation, panel) => FetchFailed(v, generation, panel)
    case Resolve(generation, live, summary, now) => Resolved(v, generation, live, summary, now)
    case Tick(_, now) => Ticked(v, now)
    case Destroy => Destroyed(v)
  }

  predicate Possible(start: View, schedule: seq<Action>)
    decreases |schedule|, 0
  {
    schedule == [] ||
    (Possible(start, schedule[..|schedule| - 1])
     && Enabled(After(start, schedule[..|schedule| - 1]), schedule[|schedule| - 1]))
  }

  function After(start: View, schedule: seq<Action>): View
    requires Possible(start, schedule)
    decreases |schedule|, 1
  {
    if schedule == [] then start
    else Next(After(start, schedule[..|schedule| - 1]), schedule[|schedule| - 1])
  }

  /** The newest load is still fetching. */
  predicate NewestInFlight(v: View) {
    v.renderGen in v.inFlight
  }

  predicate Sound(v: View) {
    && v.intervals == (if v.tickHandle.Some? then {v.tickHandle.value} else {})
    && (v.tickHandle.Some? ==> v.tickHandle.value < v.nextHandle)
    && (forall g :: g in v.inFlight ==> g <= v.renderGen)
    && (NewestInFlight(v) ==> v.tickHandle.None?)
  }

  lemma {:induction false} NextSound(v: View, a: Action)
    requires Sound(v) && Enabled(v, a)
    ensures Sound(Next(v, a))
  {
  }

  lemma {:induction false} ReachableSound(schedule: seq<Action>)
    requires Possible(FRESH, schedule)
    ensures Sound(After(FRESH, schedule))
  {
    if schedule != [] {
      ReachableSound(schedule[..|schedule| - 1]);
      NextSound(After(FRESH, schedule[..|schedule| - 1]), schedule[|schedule| - 1]);
    }
  }

  /** Over every interleaving of loads, failures, ticks and destroys, at most one interval is live and it
      is the one the module holds. */
  lemma OneLiveInterval(schedule: seq<Action>)
    requires Possible(FRESH, schedule)
    ensures var v := After(FRESH, schedule);
            |v.intervals| <= 1 && forall h :: h in v.intervals <==> v.tickHandle == Some(h)
  {
    ReachableSound(schedule);
  }

  predicate FromLoad(v: View, data: RouteData)
    requires |v.begun| == v.renderGen
  {
    && 1 <= data.generation <= v.renderGen
    && data.title == v.begun[data.generation - 1].title && data.gameId == v.begun[data.generation - 1].gameId
  }

  /** Where loads, hosts and shown data come from. */
  predicate Traced(v: View) {
    && |v.begun| == v.renderGen
    && (forall g :: g in v.inFlight ==> 1 <= g <= v.renderGen && v.inFlight[g] == v.begun[g - 1])
    && (v.lastHosts.Some? ==> v.renderGen > 0 && v.lastHosts.value == v.begun[v.renderGen - 1].hosts)
    && (v.lastRouteData.Some? ==> FromLoad(v, v.lastRouteData.value))
  }

  lemma BegunTraced(v: View, opts: LoadOptions)
    requires Traced(v)
    ensures Traced(Begun(v, opts))
  {
    var next := Begun(v, opts);
    assert forall i :: 0 <= i < |v.begun| ==> next.begun[i] == v.begun[i];
    assert next.begun[v.renderGen] == opts;
  }

  lemma ResolvedTraced(v: View, generation: nat, live: bool, summary: Option<Summary>, now: real)
    requires Traced(v) && generation in v.inFlight
    ensures Traced(Resolved(v, generation, live, summary, now))
  {
    hide DataRenders;
  }

  lemma {:induction false} NextTraced(v: View, a: Action)
    requires Traced(v) && Enabled(v, a)
    ensures Traced(Next(v, a))
  {
    match a
    case Begin(opts) => BegunTraced(v, opts);
    case Resolve(generation, live, summary, now) => ResolvedTraced(v, generation, live, summary, now);
    case _ =>
  }

  lemma {:induction false} ReachableTraced(schedule: seq<Action>)
    requires Possible(FRESH, schedule)
    ensures Traced(After(FRESH, schedule))
  {
    if schedule != [] {
      ReachableTraced(schedule[..|schedule| - 1]);
      NextTraced(After(FRESH, schedule[..|schedule| - 1]), schedule[|schedule| - 1]);
    }
  }

  /** What the answers of a load do, over every interleaving: those of an older load nothing; those of the newest
      go into its own hosts, each to its two panels, and the route bar takes the summary with its own end as the
      clock if it has one; and an interval runs afterwards exactly when the summary has no end. */
  lemma {:induction false} AnswersShown(schedule: seq<Action>, generation: nat, live: bool, summary: Option<Summary>,
                                        now: real)
    requires Possible(FRESH, schedule) && generation in After(FRESH, schedule).inFlight
    ensures var v := After(FRESH, schedule); var next := Next(v, Resolve(generation, live, summary, now));
            && 1 <= generation <= v.renderGen == |v.begun|
            && var own := v.begun[generation - 1];
               var ended := if summary.Some? then summary.value.sessionEndedAt else None;
               if generation < v.renderGen then next == v.(inFlight := v.inFlight - {generation})
               else
                 && next.renders == v.renders
                    + (if summary.None? then []
                       else [Data(generation, generation, RouteBarPanel, own.hosts),
                             Data(generation, generation, RunGraphPanel, own.hosts)])
                    + (if !live then []
                       else [Data(generation, generation, SegmentSummaryPanel, own.hosts),
                             Data(generation, generation, EpisodeGraphPanel, own.hosts)])
                 && next.lastRouteData
                    == (if summary.None? then v.lastRouteData
                        else Some(RouteData(generation, own.title, own.gameId, summary.value,
                                            if ended.Some? then ended.value else now)))
                 && (next.intervals == {} <==> ended.Some?)
  {
    ReachableTraced(schedule);
    ReachableSound(schedule);
    var v := After(FRESH, schedule);
    hide Possible, After;
    assert v.renders + DataRenders(generation, v.renderGen, v.inFlight[generation].hosts, live, summary)
        == v.renders
           + (if summary.None? then []
              else [Data(generation, v.renderGen, RouteBarPanel, v.inFlight[generation].hosts),
                    Data(generation, v.renderGen, RunGraphPanel, v.inFlight[generation].hosts)])
           + (if !live then []
              else [Data(generation, v.renderGen, SegmentSummaryPanel, v.inFlight[generation].hosts),
                    Data(generation, v.renderGen, EpisodeGraphPanel, v.inFlight[generation].hosts)]);
  }

  /** The load whose data a write shows, on any panel and on the route bar. */
  function DataMark(r: Render): Option<nat> {
    if r.Data? then Some(r.generation) else None
  }

  function RouteBarMark(r: Render): Option<nat> {
    match r
    case Data(generation, _, RouteBarPanel, _) => Some(generation)
    case TickRender(_, data) => Some(data.generation)
    case _ => None
  }

  function DataMarks(renders: seq<Render>): seq<Option<nat>> {
    seq(|renders|, i requires 0 <= i < |renders| => DataMark(renders[i]))
  }

  function RouteBarMarks(renders: seq<Render>): seq<Option<nat>> {
    seq(|renders|, i requires 0 <= i < |renders| => RouteBarMark(renders[i]))
  }

  /** The marks never go back to an earlier load. */
  predicate Rises(marks: seq<Option<nat>>) {
    forall i, j :: 0 <= i < j < |marks| && marks[i].Some? && marks[j].Some? ==> marks[i].value <= marks[j].value
  }

  predicate UpTo(marks: seq<Option<nat>>, g: nat) {
    forall i :: 0 <= i < |marks| && marks[i].Some? ==> marks[i].value <= g
  }

  predicate Only(marks: seq<Option<nat>>, g: nat) {
    forall i :: 0 <= i < |marks| && marks[i].Some? ==> marks[i].value == g
  }

  lemma RisesOn(marks: seq<Option<nat>>, more: seq<Option<nat>>, g: nat)
    requires Rises(marks) && UpTo(marks, g) && Only(more, g)
    ensures Rises(marks + more) && UpTo(marks + more, g)
  {
  }

  lemma MarksJoined(renders: seq<Render>, added: seq<Render>)
    ensures DataMarks(renders + added) == DataMarks(renders) + DataMarks(added)
    ensures RouteBarMarks(renders + added) == RouteBarMarks(renders) + RouteBarMarks(added)
  {
  }

  predicate IntoOwnHosts(renders: seq<Render>, begun: seq<LoadOptions>) {
    forall i :: 0 <= i < |renders| && renders[i].Data? ==>
      1 <= renders[i].generation <= |begun| && renders[i].hosts == begun[renders[i].generation - 1].hosts
  }

  /** Each write of data was made by the load that was the newest at that moment. */
  predicate ByNewest(renders: seq<Render>) {
    forall i :: 0 <= i < |renders| && renders[i].Data? ==> renders[i].generation == renders[i].newest
  }

  predicate Ordered(v: View) {
    && Rises(DataMarks(v.renders)) && UpTo(DataMarks(v.renders), v.renderGen)
    && Rises(RouteBarMarks(v.renders))
    && UpTo(RouteBarMarks(v.renders), if v.lastRouteData.Some? then v.lastRouteData.value.generation else v.renderGen)
    && IntoOwnHosts(v.renders, v.begun) && ByNewest(v.renders)
  }

  /** Writes of data of the newest load, or of what the route bar last held. */
  lemma AddedOrdered(v: View, next: View, added: seq<Render>, g: nat)
    requires Ordered(v) && next.renders == v.renders + added && next.renderGen == v.renderGen && next.begun == v.begun
    requires Only(DataMarks(added), v.renderGen) && IntoOwnHosts(added, v.begun) && ByNewest(added)
    requires Only(RouteBarMarks(added), g) && UpTo(RouteBarMarks(v.renders), g)
    requires g <= if next.lastRouteData.Some? then next.lastRouteData.value.generation else next.renderGen
    ensures Ordered(next)
  {
    MarksJoined(v.renders, added);
    RisesOn(DataMarks(v.renders), DataMarks(added), v.renderGen);
    RisesOn(RouteBarMarks(v.renders), RouteBarMarks(added), g);
  }

  /** What a newest load's answers add. */
  lemma ResolvedOrdered(v: View, generation: nat, live: bool, summary: Option<Summary>, now: real)
    requires Traced(v) && Ordered(v) && generation in v.inFlight && generation == v.renderGen
    ensures Ordered(Resolved(v, generation, live, summary, now))
  {
    var added := DataRenders(generation, v.renderGen, v.inFlight[generation].hosts, live, summary);
    var next := Resolved(v, generation, live, summary, now);
    assert DataMarks(added) == seq(|added|, i => Some(generation));
    var g := if summary.Some? || v.lastRouteData.None? then generation else v.lastRouteData.value.generation;
    assert Only(RouteBarMarks(added), g);
    AddedOrdered(v, next, added, g);
  }

  lemma TickedOrdered(v: View, now: real)
    requires Traced(v) && Ordered(v)
    ensures Ordered(Ticked(v, now))
  {
    if v.lastRouteData.Some? && v.lastHosts.Some? {
      var added := [TickRender(v.lastHosts.value, v.lastRouteData.value.(nowSeconds := now))];
      AddedOrdered(v, Ticked(v, now), added, v.lastRouteData.value.generation);
    }
  }

  lemma DestroyedOrdered(v: View)
    requires Traced(v) && Ordered(v)
    ensures Ordered(Destroyed(v))
  {
    var added := if v.lastHosts.Some? then Blanks(v.lastHosts.value) else [];
    AddedOrdered(v, Destroyed(v), added, v.renderGen);
  }

  lemma FailedOrdered(v: View, generation: nat, panel: Panel)
    requires Ordered(v) && generation in v.inFlight
    ensures Ordered(FetchFailed(v, generation, panel))
  {
    var added := [ErrorNote(panel, v.inFlight[generation].hosts)];
    AddedOrdered(v, FetchFailed(v, generation, panel), added,
                 if v.lastRouteData.Some? then v.lastRouteData.value.generation else v.renderGen);
  }

  lemma BegunOrdered(v: View, opts: LoadOptions)
    requires Traced(v) && Ordered(v)
    ensures Ordered(Begun(v, opts))
  {
  }

  lemma {:induction false} NextOrdered(v: View, a: Action)
    requires Traced(v) && Ordered(v) && Enabled(v, a)
    ensures Ordered(Next(v, a))
  {
    match a
    case Begin(opts) => BegunOrdered(v, opts);
    case FailFetch(generation, panel) => FailedOrdered(v, generation, panel);
    case Resolve(generation, live, summary, now) =>
      if generation == v.renderGen {
        ResolvedOrdered(v, generation, live, summary, now);
      }
    case Tick(_, now) => TickedOrdered(v, now);
    case Destroy => DestroyedOrdered(v);
  }

  lemma {:induction false} ReachableOrdered(schedule: seq<Action>)
    requires Possible(FRESH, schedule)
    ensures Ordered(After(FRESH, schedule))
  {
    if schedule != [] {
      ReachableOrdered(schedule[..|schedule| - 1]);
      ReachableTraced(schedule[..|schedule| - 1]);
      NextOrdered(After(FRESH, schedule[..|schedule| - 1]), schedule[|schedule| - 1]);
    }
  }

  /** Over every interleaving, only the newest load writes data, into its own hosts, and neither the panels nor
      the route bar, its ticks included, ever go back to the data of an earlier load. */
  lemma {:induction false} ShownDataNeverGoesBack(schedule: seq<Action>)
    requires Possible(FRESH, schedule)
    ensures var v := After(FRESH, schedule);
            && ByNewest(v.renders) && IntoOwnHosts(v.renders, v.begun)
            && Rises(DataMarks(v.renders)) && Rises(RouteBarMarks(v.renders))
  {
    ReachableOrdered(schedule);
  }

  predicate AnswersFor(a: Action, g: nat) {
    a.Resolve? && a.generation == g && a.summary.Some?
  }

  /** Among the steps, the summary fetch of load `g` answered. */
  predicate Answered(schedule: seq<Action>, g: nat) {
    exists i :: 0 <= i < |schedule| && AnswersFor(schedule[i], g)
  }

  lemma {:induction false} AnsweredSnoc(schedule: seq<Action>, g: nat)
    requires schedule != []
    ensures Answered(schedule, g)
       <==> Answered(schedule[..|schedule| - 1], g) || AnswersFor(schedule[|schedule| - 1], g)
  {
    var before := schedule[..|schedule| - 1];
    if Answered(before, g) {
      var i :| 0 <= i < |before| && AnswersFor(before[i], g);
      assert AnswersFor(schedule[i], g);
    }
    if Answered(schedule, g) && !AnswersFor(schedule[|schedule| - 1], g) {
      var i :| 0 <= i < |schedule| && AnswersFor(schedule[i], g);
      assert AnswersFor(before[i], g);
    }
  }

  /** The route bar's data is the newest load's exactly when that load's summary fetch answered. */
  lemma {:induction false} HeldDataIsNewestIff(schedule: seq<Action>)
    requires Possible(FRESH, schedule)
    ensures var v := After(FRESH, schedule);
            && (v.lastRouteData.Some? ==>
                  (v.lastRouteData.value.generation == v.renderGen <==> Answered(schedule, v.renderGen)))
            && forall g :: g > v.renderGen ==> !Answered(schedule, g)
  {
    if schedule != [] {
      var before, a := schedule[..|schedule| - 1], schedule[|schedule| - 1];
      HeldDataIsNewestIff(before);
      ReachableTraced(before);
      var v, next := After(FRESH, before), After(FRESH, schedule);
      AnsweredSnoc(schedule, next.renderGen);
      forall g | g > next.renderGen
        ensures !Answered(schedule, g)
      {
        AnsweredSnoc(schedule, g);
      }
    }
  }

  /** What a tick shows, over every interleaving: it writes to the newest load's hosts, and the data is the
      newest load's exactly when its summary fetch answered; otherwise it is that of an earlier load. */
  lemma {:induction false} TickShowsNewestIff(schedule: seq<Action>, handle: nat, now: real)
    requires Possible(FRESH, schedule) && Enabled(After(FRESH, schedule), Tick(handle, now))
    ensures var v := After(FRESH, schedule); var next := Next(v, Tick(handle, now));
            if v.lastRouteData.None? || v.lastHosts.None? then next == v
            else
              && Traced(v) && v.renderGen > 0
              && var data := v.lastRouteData.value.(nowSeconds := now);
                 && next.renders == v.renders + [TickRender(v.begun[v.renderGen - 1].hosts, data)]
                 && FromLoad(v, data)
                 && (data.generation == v.renderGen <==> Answered(schedule, v.renderGen))
                 && (data.generation < v.renderGen <==> !Answered(schedule, v.renderGen))
  {
    ReachableTraced(schedule);
    HeldDataIsNewestIff(schedule);
  }

  lemma Extend(schedule: seq<Action>, a: Action, here: View)
    requires Possible(FRESH, schedule) && After(FRESH, schedule) == here && Enabled(here, a)
    ensures Possible(FRESH, schedule + [a]) && After(FRESH, schedule + [a]) == Next(here, a)
  {
    assert (schedule + [a])[..|schedule|] == schedule;
  }

  /** A load's error note for its summary, and its segment's data. */
  function NewerRenders(newer: LoadOptions): seq<Render> {
    [ErrorNote(RouteBarPanel, newer.hosts), Data(2, 2, SegmentSummaryPanel, newer.hosts),
     Data(2, 2, EpisodeGraphPanel, newer.hosts)]
  }

  lemma NewerUnanswered(older: LoadOptions, newer: LoadOptions, summary: Summary) returns (schedule: seq<Action>, v: View)
    ensures Possible(FRESH, schedule) && After(FRESH, schedule) == v
    ensures v.tickHandle.Some? && v.intervals == {v.tickHandle.value} && v.lastHosts == Some(newer.hosts)
    ensures v.lastRouteData.Some?
    ensures v.lastRouteData.value.(nowSeconds := 0.0) == RouteData(1, older.title, older.gameId, summary, 0.0)
    ensures |v.renders| >= 3 && v.renders[|v.renders| - 3..] == NewerRenders(newer)
  {
    var v1 := Next(FRESH, Begin(older));
    Extend([], Begin(older), FRESH);
    var answer := Resolve(1, false, Some(summary), 0.0);
    var v2 := Next(v1, answer);
    schedule := [] + [Begin(older)];
    Extend(schedule, answer, v1);
    schedule := schedule + [answer];
    var v3 := Next(v2, Begin(newer));
    Extend(schedule, Begin(newer), v2);
    schedule := schedule + [Begin(newer)];
    assert v3.renderGen == 2 && 2 in v3.inFlight;
    var fail := FailFetch(2, RouteBarPanel);
    var v4 := Next(v3, fail);
    Extend(schedule, fail, v3);
    schedule := schedule + [fail];
    var settle := Resolve(2, true, None, 0.0);
    v := Next(v4, settle);
    Extend(schedule, settle, v4);
    schedule := schedule + [settle];
    assert v.intervals == {v.tickHandle.value};
  }

  /** The last writes: the newest load's error note and segment data, and an earlier load's summary over the
      note. */
  predicate OverError(v: View, older: LoadOptions, newer: LoadOptions, summary: Summary, now: real) {
    && |v.renders| >= 4
    && v.renders[|v.renders| - 4..]
       == NewerRenders(newer) + [TickRender(newer.hosts, RouteData(1, older.title, older.gameId, summary, now))]
  }

  lemma TickOverError(v: View, older: LoadOptions, newer: LoadOptions, summary: Summary, now: real)
    requires v.tickHandle.Some? && v.intervals == {v.tickHandle.value} && v.lastHosts == Some(newer.hosts)
    requires v.lastRouteData.Some?
    requires v.lastRouteData.value.(nowSeconds := 0.0) == RouteData(1, older.title, older.gameId, summary, 0.0)
    requires |v.renders| >= 3 && v.renders[|v.renders| - 3..] == NewerRenders(newer)
    ensures var tick := Tick(v.tickHandle.value, now);
            Enabled(v, tick) && OverError(Next(v, tick), older, newer, summary, now)
  {
    var n := |v.renders|;
    var next := Next(v, Tick(v.tickHandle.value, now));
    assert next.renders[n - 3..] == v.renders[n - 3..] + [next.renders[n]];
  }

  /** So a tick can put an earlier load's summary, even a frozen one, over the newest load's error note. */
  lemma {:induction false} OlderDataTicks(older: LoadOptions, newer: LoadOptions, summary: Summary, now: real)
    ensures exists schedule: seq<Action> ::
      Possible(FRESH, schedule) && OverError(After(FRESH, schedule), older, newer, summary, now)
  {
    hide Possible, After, OverError;
    var schedule, v := NewerUnanswered(older, newer, summary);
    TickOverError(v, older, newer, summary, now);
    hide Next;
    Extend(schedule, Tick(v.tickHandle.value, now), v);
  }

  /** The steps after which `start` still has the same newest load. */
  predicate NoBegin(schedule: seq<Action>) {
    forall i :: 0 <= i < |schedule| ==> !schedule[i].Begin?
  }

  /** No load that could start an interval is left, and none is running. */
  predicate Quiet(v: View) {
    !NewestInFlight(v) && v.intervals == {} && v.tickHandle.None?
  }

  lemma {:induction false} QuietStays(start: View, schedule: seq<Action>)
    requires Quiet(start) && Possible(start, schedule) && NoBegin(schedule)
    ensures Quiet(After(start, schedule)) && After(start, schedule).renderGen == start.renderGen
  {
    if schedule != [] {
      QuietStays(start, schedule[..|schedule| - 1]);
    }
  }

  /** Once the newest load has resolved frozen, no interval is live until another load begins. */
  lemma FrozenStaysQuiet(before: seq<Action>, generation: nat, live: bool, endedAt: real, now: real, after: seq<Action>)
    requires Possible(FRESH, before) && generation in After(FRESH, before).inFlight
    requires generation == After(FRESH, before).renderGen
    requires var frozen := Resolve(generation, live, Some(Summary(Some(endedAt))), now);
             Possible(Next(After(FRESH, before), frozen), after)
    requires NoBegin(after)
    ensures var frozen := Resolve(generation, live, Some(Summary(Some(endedAt))), now);
            After(Next(After(FRESH, before), frozen), after).intervals == {}
  {
    ReachableSound(before);
    QuietStays(Next(After(FRESH, before), Resolve(generation, live, Some(Summary(Some(endedAt))), now)), after);
  }

  lemma {:induction false} QuietKeepsData(start: View, schedule: seq<Action>)
    requires Quiet(start) && Possible(start, schedule) && NoBegin(schedule)
    ensures After(start, schedule).lastRouteData in {None, start.lastRouteData}
  {
    if schedule != [] {
      QuietKeepsData(start, schedule[..|schedule| - 1]);
      QuietStays(start, schedule[..|schedule| - 1]);
    }
  }

  /** A frozen session's clock stands at the session's end: until another load begins the route bar shows that
      instant, or was blanked. */
  lemma {:induction false} FrozenClockStands(before: seq<Action>, generation: nat, live: bool, endedAt: real, now: real,
                                             after: seq<Action>)
    requires Possible(FRESH, before) && generation in After(FRESH, before).inFlight
    requires generation == After(FRESH, before).renderGen
    requires var frozen := Resolve(generation, live, Some(Summary(Some(endedAt))), now);
             Possible(Next(After(FRESH, before), frozen), after)
    requires NoBegin(after)
    ensures var frozen := Resolve(generation, live, Some(Summary(Some(endedAt))), now);
            var end := After(Next(After(FRESH, before), frozen), after);
            end.lastRouteData.Some? ==>
              end.lastRouteData.value.nowSeconds == endedAt && end.lastRouteData.value.generation == generation
  {
    ReachableSound(before);
    QuietKeepsData(Next(After(FRESH, before), Resolve(generation, live, Some(Summary(Some(endedAt))), now)), after);
  }

  /** Destroying the view does not retire its newest load. After a destroy the view stays without an
      interval until another load begins exactly when the newest load was no longer in flight. */
  lemma DestroyIsFinalUnlessLoading(before: seq<Action>)
    requires Possible(FRESH, before)
    ensures var v := Next(After(FRESH, before), Destroy);
            !NewestInFlight(After(FRESH, before)) <==>
            (forall after: seq<Action> :: Possible(v, after) && NoBegin(after) ==> After(v, after).intervals == {})
  {
    ReachableSound(before);
    var v := Next(After(FRESH, before), Destroy);
    if NewestInFlight(After(FRESH, before)) {
      var late := Resolve(v.renderGen, true, Some(Summary(None)), 0.0);
      assert [late][..0] == [];
      assert Possible(v, []) && After(v, []) == v;
      assert Possible(v, [late]) && NoBegin([late]);
      assert v.nextHandle in After(v, [late]).intervals;
    } else {
      forall after: seq<Action> | Possible(v, after) && NoBegin(after)
        ensures After(v, after).intervals == {}
      {
        QuietStays(v, after);
      }
    }
  }
}
