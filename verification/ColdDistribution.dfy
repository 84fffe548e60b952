/** The cold-attempt panel: an adaptive histogram of cold events and the hazard read off it. Every event
    weighs one, so weighted counts are counts; arithmetic is exact. */
module ColdDistribution {
  import opened Wrappers

  const MAX_BINS := 20
  const MIN_BINS := 5
  const HI_ROUND_MS := 1000

  datatype Outcome = Died | Survived

  datatype Event = Event(episodeId: string, outcome: Outcome, timeMs: int)

  datatype Bin = Bin(loMs: real, hiMs: real, deaths: nat, completions: nat, atRisk: nat, hazard: Option<real>)

  datatype Distribution = Distribution(
    bins: seq<Bin>,
    attempts: nat,
    deathMean: Option<real>,
    completionMean: Option<real>,
    completionVariance: Option<real>,
    diePerAttempt: Option<real>,
    diePerLife: Option<real>)

  datatype ColdError = NoEvents

  /** The least whole number whose square reaches n. */
  function CeilSqrt(n: nat): (r: nat)
    ensures r * r >= n
    ensures r > 0 ==> (r - 1) * (r - 1) < n
  {
    if n == 0 then 0
    else
      var r := CeilSqrt(n - 1);
      if r * r >= n then r else r + 1
  }

  function BinCountFor(n: int): int {
    if n <= 0 then MIN_BINS
    else
      var root := CeilSqrt(n);
      var raised := if root < MIN_BINS then MIN_BINS else root;
      if raised > MAX_BINS then MAX_BINS else raised
  }

  lemma SquareMonotone(x: nat, y: nat)
    requires x <= y
    ensures x * x <= y * y
  {
    assert x * x <= x * y <= y * y;
  }

  /** The square-root rule, read backwards: how many bins there are says how many events there were. */
  lemma {:induction false} BinCountMeets(n: int, k: nat)
    requires 5 < k <= 20
    ensures 5 <= BinCountFor(n) <= 20
    ensures BinCountFor(n) >= k <==> n > (k - 1) * (k - 1)
  {
    if n > 0 {
      var r := CeilSqrt(n);
      if r >= k {
        SquareMonotone(k - 1, r - 1);
      } else {
        SquareMonotone(r, k - 1);
      }
    }
  }

  function MaxTime(events: seq<Event>): (m: int)
    requires events != []
    ensures forall e <- events :: e.timeMs <= m
    ensures exists e <- events :: e.timeMs == m
  {
    var last := events[|events| - 1];
    if |events| == 1 then last.timeMs
    else
      var before := events[..|events| - 1];
      assert events == before + [last];
      var m := MaxTime(before);
      if last.timeMs > m then last.timeMs else m
  }

  /** Equal bins over [0, hi]. */
  datatype Grid = Grid(hi: int, count: nat) {
    predicate Valid() {
      hi > 0 && count > 0
    }

    function Width(): real
      requires Valid()
    {
      hi as real / count as real
    }

    function Lo(i: nat): real
      requires Valid()
    {
      i as real * Width()
    }

    function BinOf(t: int): int
      requires Valid()
    {
      if Width() == 0.0 then 0
      else
        var idx := (t as real / Width()).Floor;
        var capped := if idx >= count then count - 1 else idx;
        if capped < 0 then 0 else capped
    }
  }

  lemma BinCountRoot(n: nat)
    ensures 5 <= BinCountFor(n) <= 20
    ensures BinCountFor(n) < 20 ==> BinCountFor(n) * BinCountFor(n) >= n
    ensures BinCountFor(n) > 5 ==> (BinCountFor(n) - 1) * (BinCountFor(n) - 1) < n
  {
    if n > 0 {
      var r := CeilSqrt(n);
      if r < 5 {
        SquareMonotone(r, 5);
      } else if r > 20 {
        SquareMonotone(19, r - 1);
      }
    }
  }

  /** The least whole number of seconds, one at least, that reaches m. */
  function RoundedUp(m: int): (hi: int)
    ensures hi % 1000 == 0 && hi >= 1000 && hi >= m
    ensures hi > 1000 ==> m > hi - 1000
  {
    var rounded := (m + HI_ROUND_MS - 1) / HI_ROUND_MS * HI_ROUND_MS;
    if rounded > HI_ROUND_MS then rounded else HI_ROUND_MS
  }

  /** The axis: up to the next whole second that holds every event, and never shorter than one second. */
  function GridOf(events: seq<Event>): (g: Grid)
    requires events != []
    ensures g.Valid() && g.hi % 1000 == 0
    ensures forall e <- events :: e.timeMs <= g.hi
    ensures g.hi > 1000 ==> exists e <- events :: e.timeMs > g.hi - 1000
    ensures 5 <= g.count <= 20
  {
    Grid(RoundedUp(MaxTime(events)), BinCountFor(|events|))
  }

  /** The axis has as many bins as the root of the number of events, rounded up, within 5 and 20. */
  lemma AxisRoot(events: seq<Event>)
    requires events != []
    ensures var n := GridOf(events).count;
            && 5 <= n <= 20
            && (n < 20 ==> n * n >= |events|) && (n > 5 ==> (n - 1) * (n - 1) < |events|)
  {
    BinCountRoot(|events|);
  }

  lemma Quotient(t: real, w: real, i: int)
    requires w > 0.0
    ensures t / w >= i as real <==> t >= i as real * w
  {
    var q := t / w;
    assert q * w == t;
    if q >= i as real {
      assert q * w >= i as real * w;
    } else {
      assert q * w < i as real * w;
    }
  }

  /** Being in bin i or later is having lived to the start of bin i: the clamps at both ends only catch
      times outside the axis. */
  lemma BinOfReached(g: Grid, t: int, i: nat)
    requires g.Valid() && i < g.count
    ensures 0 <= g.BinOf(t) < g.count
    ensures i > 0 || t >= 0 ==> (g.BinOf(t) >= i <==> t as real >= g.Lo(i))
    ensures i == 0 ==> (t >= 0 <==> t as real >= g.Lo(i))
  {
    var w := g.Width();
    assert w * g.count as real == g.hi as real;
    assert w > 0.0;
    Quotient(t as real, w, i);
    if t >= 0 {
      Quotient(t as real, w, 0);
    }
    assert i as real == 0.0 ==> g.Lo(i) == 0.0;
  }

  /** How many events of this outcome land in bin i. */
  function Landed(events: seq<Event>, g: Grid, i: int, outcome: Outcome): nat
    requires g.Valid()
  {
    if events == [] then 0
    else
      var last := events[|events| - 1];
      Landed(events[..|events| - 1], g, i, outcome)
      + if g.BinOf(last.timeMs) == i && last.outcome == outcome then 1 else 0
  }

  /** How many events lived at least to `at`. */
  function Reached(events: seq<Event>, at: real): nat {
    if events == [] then 0
    else
      Reached(events[..|events| - 1], at) + if events[|events| - 1].timeMs as real >= at then 1 else 0
  }

  function Times(events: seq<Event>, outcome: Outcome): seq<int> {
    if events == [] then []
    else
      var last := events[|events| - 1];
      Times(events[..|events| - 1], outcome) + if last.outcome == outcome then [last.timeMs] else []
  }

  function Sum(ts: seq<int>): int {
    if ts == [] then 0 else Sum(ts[..|ts| - 1]) + ts[|ts| - 1]
  }

  function SumSquares(ts: seq<int>): int {
    if ts == [] then 0 else SumSquares(ts[..|ts| - 1]) + ts[|ts| - 1] * ts[|ts| - 1]
  }

  function Episodes(events: seq<Event>): set<string> {
    set e <- events :: e.episodeId
  }

  function DeadlyEpisodes(events: seq<Event>): set<string> {
    set e <- events | e.outcome.Died? :: e.episodeId
  }

  function Ratio(part: int, whole: int): Option<real> {
    if whole > 0 then Some(part as real / whole as real) else None
  }

  function Square(x: real): real {
    x * x
  }

  function Clamped(v: real): real {
    if v < 0.0 then 0.0 else v
  }

  /** The mean of the squares less the square of the mean, never below zero. */
  function Variance(n: nat, sum: int, squares: int): Option<real> {
    if n == 0 then None
    else Some(Clamped(squares as real / n as real - Square(sum as real / n as real)))
  }

  function BinFor(events: seq<Event>, g: Grid, i: nat): Bin
    requires g.Valid()
  {
    var deaths, atRisk := Landed(events, g, i, Died), Reached(events, g.Lo(i));
    Bin(g.Lo(i), g.Lo(i + 1), deaths, Landed(events, g, i, Survived), atRisk, Ratio(deaths, atRisk))
  }

  predicate Summarizes(d: Distribution, events: seq<Event>)
    requires events != []
  {
    && |d.bins| == GridOf(events).count
    && (forall i :: 0 <= i < |d.bins| ==> d.bins[i] == BinFor(events, GridOf(events), i))
    && d.attempts == |events|
    && d.deathMean == Ratio(Sum(Times(events, Died)), |Times(events, Died)|)
    && d.completionMean == Ratio(Sum(Times(events, Survived)), |Times(events, Survived)|)
    && d.completionVariance
    == Variance(|Times(events, Survived)|, Sum(Times(events, Survived)), SumSquares(Times(events, Survived)))
    && d.diePerAttempt == Ratio(|DeadlyEpisodes(events)|, |Episodes(events)|)
    && d.diePerLife == Ratio(|Times(events, Died)|, |events|)
  }

  /** Within bin i: at or past its start and before its end, except that the outer bins are open outwards. */
  predicate InBin(g: Grid, i: nat, t: int)
    requires g.Valid() && i < g.count
  {
    (i > 0 ==> t as real >= g.Lo(i)) && (i < g.count - 1 ==> (t as real) < g.Lo(i + 1))
  }

  lemma InBinIff(g: Grid, i: nat, t: int)
    requires g.Valid() && i < g.count
    ensures g.BinOf(t) == i <==> InBin(g, i, t)
  {
    hide Grid.BinOf, Grid.Lo;
    BinOfReached(g, t, i);
    if i < g.count - 1 {
      BinOfReached(g, t, i + 1);
    }
  }

  predicate LandsSo(e: Event, g: Grid, i: nat, outcome: Outcome)
    requires g.Valid() && i < g.count
  {
    InBin(g, i, e.timeMs) && e.outcome == outcome
  }

  function LandedAt(events: seq<Event>, g: Grid, i: nat, outcome: Outcome): set<nat>
    requires g.Valid() && i < g.count
  {
    set k: nat | k < |events| && LandsSo(events[k], g, i, outcome)
  }

  lemma LandedLast(events: seq<Event>, g: Grid, i: nat, outcome: Outcome)
    requires g.Valid() && i < g.count && events != []
    ensures |LandedAt(events, g, i, outcome)|
         == |LandedAt(events[..|events| - 1], g, i, outcome)|
            + if LandsSo(events[|events| - 1], g, i, outcome) then 1 else 0
  {
    hide LandsSo;
    var last := |events| - 1;
    var before := LandedAt(events[..last], g, i, outcome);
    assert last !in before;
    assert LandedAt(events, g, i, outcome) == before + if LandsSo(events[last], g, i, outcome) then {last} else {};
  }

  lemma {:induction false} LandedCounts(events: seq<Event>, g: Grid, i: nat, outcome: Outcome)
    requires g.Valid() && i < g.count
    ensures Landed(events, g, i, outcome) == |LandedAt(events, g, i, outcome)|
  {
    if events != [] {
      var last := |events| - 1;
      LandedCounts(events[..last], g, i, outcome);
      InBinIff(g, i, events[last].timeMs);
      LandedLast(events, g, i, outcome);
      hide Grid.BinOf, Grid.Lo, InBin, LandedAt;
    }
  }

  function ReachedAt(events: seq<Event>, at: real): set<nat> {
    set k: nat | k < |events| && events[k].timeMs as real >= at
  }

  lemma {:induction false} ReachedCounts(events: seq<Event>, at: real)
    ensures Reached(events, at) == |ReachedAt(events, at)|
  {
    if events != [] {
      var last := |events| - 1;
      ReachedCounts(events[..last], at);
      assert ReachedAt(events, at)
          == ReachedAt(events[..last], at) + if events[last].timeMs as real >= at then {last} else {};
    }
  }

  predicate EndsSo(e: Event, t: int, outcome: Outcome) {
    e.timeMs == t && e.outcome == outcome
  }

  function EndedAt(events: seq<Event>, t: int, outcome: Outcome): set<nat> {
    set k: nat | k < |events| && EndsSo(events[k], t, outcome)
  }

  lemma TimesLast(events: seq<Event>, t: int, outcome: Outcome)
    requires events != []
    ensures var last := events[|events| - 1];
            multiset(Times(events, outcome))[t]
            == multiset(Times(events[..|events| - 1], outcome))[t]
               + if last.timeMs == t && last.outcome == outcome then 1 else 0
  {
  }

  lemma EndedLast(events: seq<Event>, t: int, outcome: Outcome)
    requires events != []
    ensures |EndedAt(events, t, outcome)|
         == |EndedAt(events[..|events| - 1], t, outcome)|
            + if EndsSo(events[|events| - 1], t, outcome) then 1 else 0
  {
    hide EndsSo;
    var last := |events| - 1;
    var before := EndedAt(events[..last], t, outcome);
    assert last !in before;
    assert EndedAt(events, t, outcome) == before + if EndsSo(events[last], t, outcome) then {last} else {};
  }

  /** The times that the means and the variance are taken of: those of the events with the outcome, as often. */
  lemma {:induction false} TimesCount(events: seq<Event>, t: int, outcome: Outcome)
    ensures multiset(Times(events, outcome))[t] == |EndedAt(events, t, outcome)|
  {
    if events != [] {
      TimesCount(events[..|events| - 1], t, outcome);
      TimesLast(events, t, outcome);
      EndedLast(events, t, outcome);
      hide Times, EndedAt;
    }
  }

  lemma LoScaled(g: Grid, i: nat)
    requires g.Valid()
    ensures g.Lo(i) * g.count as real == (i * g.hi) as real
  {
    var w, n := g.Width(), g.count as real;
    assert w * n == g.hi as real;
    assert i as real * w * n == i as real * (w * n);
  }

  /** Bin i is the i-th of equal stretches of the axis. */
  predicate Stretches(b: Bin, g: Grid, i: nat)
    requires g.Valid()
  {
    b.loMs * g.count as real == (i * g.hi) as real && b.hiMs * g.count as real == ((i + 1) * g.hi) as real
  }

  /** The deaths' share of those at risk, if there are any. */
  predicate SharesRisk(hazard: Option<real>, deaths: nat, atRisk: nat) {
    if atRisk == 0 then hazard.None? else hazard.Some? && hazard.value * atRisk as real == deaths as real
  }

  /** What a bin of the panel says: an equal stretch of the axis, the events of either outcome that fell into it,
      those that lived to its start, and the deaths' share of these. */
  predicate BinSays(b: Bin, events: seq<Event>, g: Grid, i: nat)
    requires g.Valid() && i < g.count
  {
    && Stretches(b, g, i)
    && b.deaths == |LandedAt(events, g, i, Died)| && b.completions == |LandedAt(events, g, i, Survived)|
    && b.atRisk == |ReachedAt(events, b.loMs)|
    && SharesRisk(b.hazard, b.deaths, b.atRisk)
  }

  lemma RatioShares(part: nat, whole: nat)
    ensures SharesRisk(Ratio(part, whole), part, whole)
  {
  }

  lemma BinForSays(events: seq<Event>, g: Grid, i: nat)
    requires g.Valid() && i < g.count
    ensures BinSays(BinFor(events, g, i), events, g, i)
  {
    LoScaled(g, i);
    LoScaled(g, i + 1);
    assert Stretches(BinFor(events, g, i), g, i);
    hide Stretches, SharesRisk, Landed, Reached, LandedAt, ReachedAt, Grid.Lo, Ratio;
    LandedCounts(events, g, i, Died);
    LandedCounts(events, g, i, Survived);
    ReachedCounts(events, g.Lo(i));
    RatioShares(Landed(events, g, i, Died), Reached(events, g.Lo(i)));
  }

  /** Every bin of the panel. */
  lemma {:induction false} BinsCount(d: Distribution, events: seq<Event>, i: nat)
    requires events != [] && Summarizes(d, events) && i < |d.bins|
    ensures |d.bins| == GridOf(events).count && BinSays(d.bins[i], events, GridOf(events), i)
  {
    hide BinFor, GridOf, BinSays;
    BinForSays(events, GridOf(events), i);
  }

  function EndedSo(events: seq<Event>, outcome: Outcome): set<nat> {
    set k: nat | k < |events| && events[k].outcome == outcome
  }

  lemma {:induction false} TimesLengthIs(events: seq<Event>, outcome: Outcome)
    ensures |Times(events, outcome)| == |EndedSo(events, outcome)|
  {
    if events != [] {
      var last := |events| - 1;
      TimesLengthIs(events[..last], outcome);
      var before := EndedSo(events[..last], outcome);
      assert last !in before;
      assert EndedSo(events, outcome) == before + if events[last].outcome == outcome then {last} else {};
    }
  }

  /** A mean of `count` numbers that add up to `sum`, if there are any. */
  predicate IsMean(mean: Option<real>, sum: int, count: nat) {
    if count == 0 then mean.None? else mean.Some? && mean.value * count as real == sum as real
  }

  lemma RatioIsMean(sum: int, count: nat)
    ensures IsMean(Ratio(sum, count), sum, count)
  {
  }

  /** What the panel says of the whole list: the mean time of either outcome, the share of the events that are
      deaths, and the share of the episodes that have one. */
  lemma {:induction false} TotalsCount(d: Distribution, events: seq<Event>)
    requires events != [] && Summarizes(d, events)
    ensures var episodes := set k | 0 <= k < |events| :: events[k].episodeId;
            var deadly := set k | 0 <= k < |events| && events[k].outcome == Died :: events[k].episodeId;
            && d.attempts == |events|
            && IsMean(d.deathMean, Sum(Times(events, Died)), |EndedSo(events, Died)|)
            && IsMean(d.completionMean, Sum(Times(events, Survived)), |EndedSo(events, Survived)|)
            && IsMean(d.diePerLife, |EndedSo(events, Died)|, |events|)
            && IsMean(d.diePerAttempt, |deadly|, |episodes|)
  {
    hide Sum, Times, EndedSo, Ratio, IsMean, GridOf, BinFor, Variance;
    TimesLengthIs(events, Died);
    TimesLengthIs(events, Survived);
    assert Episodes(events) == set k | 0 <= k < |events| :: events[k].episodeId;
    assert DeadlyEpisodes(events) == set k | 0 <= k < |events| && events[k].outcome == Died :: events[k].episodeId;
    RatioIsMean(Sum(Times(events, Died)), |Times(events, Died)|);
    RatioIsMean(Sum(Times(events, Survived)), |Times(events, Survived)|);
    RatioIsMean(|Times(events, Died)|, |events|);
    RatioIsMean(|DeadlyEpisodes(events)|, |Episodes(events)|);
  }

  lemma OneMore(events: seq<Event>, k: nat)
    requires k < |events|
    ensures events[..k + 1] == events[..k] + [events[k]]
    ensures events[..k + 1][..k] == events[..k] && events[..k + 1][k] == events[k]
    ensures Episodes(events[..k + 1]) == Episodes(events[..k]) + {events[k].episodeId}
    ensures DeadlyEpisodes(events[..k + 1])
         == DeadlyEpisodes(events[..k]) + if events[k].outcome.Died? then {events[k].episodeId} else {}
  {
  }

  lemma TimesSnoc(events: seq<Event>, k: nat, outcome: Outcome)
    requires k < |events|
    ensures var before, after := Times(events[..k], outcome), Times(events[..k + 1], outcome);
            if events[k].outcome == outcome then
              && after == before + [events[k].timeMs]
              && Sum(after) == Sum(before) + events[k].timeMs
              && SumSquares(after) == SumSquares(before) + events[k].timeMs * events[k].timeMs
            else after == before
  {
    OneMore(events, k);
    var before := Times(events[..k], outcome);
    assert (before + [events[k].timeMs])[..|before|] == before;
  }

  lemma TimesLength(events: seq<Event>)
    ensures |Times(events, Died)| + |Times(events, Survived)| == |events|
  {
  }

  predicate BinsHold(bins: seq<Bin>, events: seq<Event>, g: Grid)
    requires g.Valid()
  {
    && |bins| == g.count
    && forall i :: 0 <= i < |bins| ==>
      bins[i] == Bin(g.Lo(i), g.Lo(i + 1), Landed(events, g, i, Died), Landed(events, g, i, Survived), 0, None)
  }

  predicate EpisodesHold(episodes: map<string, bool>, events: seq<Event>) {
    && episodes.Keys == Episodes(events)
    && forall id <- episodes :: episodes[id] <==> id in DeadlyEpisodes(events)
  }

  function Counted(bin: Bin, outcome: Outcome): Bin {
    match outcome
    case Died => bin.(deaths := bin.deaths + 1)
    case Survived => bin.(completions := bin.completions + 1)
  }

  lemma BinsStep(bins: seq<Bin>, events: seq<Event>, g: Grid, k: nat)
    requires g.Valid() && k < |events| && BinsHold(bins, events[..k], g)
    ensures 0 <= g.BinOf(events[k].timeMs) < |bins|
    ensures var idx := g.BinOf(events[k].timeMs);
            BinsHold(bins[idx := Counted(bins[idx], events[k].outcome)], events[..k + 1], g)
  {
    hide Grid.BinOf, Grid.Lo;
    OneMore(events, k);
    BinOfReached(g, events[k].timeMs, 0);
  }

  lemma EpisodesStep(episodes: map<string, bool>, events: seq<Event>, k: nat)
    requires k < |events| && EpisodesHold(episodes, events[..k])
    ensures var id := events[k].episodeId;
            var seen := if id in episodes then episodes else episodes[id := false];
            EpisodesHold(if events[k].outcome.Died? then seen[id := true] else seen, events[..k + 1])
  {
    OneMore(events, k);
  }

  lemma DeadlyAreEpisodes(events: seq<Event>)
    ensures DeadlyEpisodes(events) <= Episodes(events)
  {
  }

  lemma NothingYet(events: seq<Event>, bins: seq<Bin>, g: Grid)
    requires g.Valid() && |bins| == g.count
    requires forall i :: 0 <= i < |bins| ==> bins[i] == Bin(g.Lo(i), g.Lo(i + 1), 0, 0, 0, None)
    ensures BinsHold(bins, events[..0], g) && EpisodesHold(map[], events[..0])
    ensures Times(events[..0], Died) == Times(events[..0], Survived) == []
    ensures Sum([]) == SumSquares([]) == 0
  {
  }

  method ReadHazards(events: seq<Event>, g: Grid, filled: seq<Bin>) returns (bins: seq<Bin>)
    requires g.Valid() && BinsHold(filled, events, g)
    ensures |bins| == g.count
    ensures forall i :: 0 <= i < |bins| ==> bins[i] == BinFor(events, g, i)
  {
    bins := filled;
    var i := 0;
    while i < |bins|
      invariant 0 <= i <= |bins| == g.count
      invariant forall j :: 0 <= j < i ==> bins[j] == BinFor(events, g, j)
      invariant forall j :: i <= j < |bins| ==> bins[j] == filled[j]
    {
      var atRisk := 0;
      var k := 0;
      while k < |events|
        invariant 0 <= k <= |events| && atRisk == Reached(events[..k], bins[i].loMs)
      {
        assert events[..k + 1][..k] == events[..k];
        if events[k].timeMs as real >= bins[i].loMs {
          atRisk := atRisk + 1;
        }
        k := k + 1;
      }
      assert events[..k] == events;
      bins := bins[i := bins[i].(atRisk := atRisk, hazard := Ratio(bins[i].deaths, atRisk))];
      i := i + 1;
    }
  }

  /** Fills the bins in one walk over the events, then reads each bin's at-risk count off all of them. */
  method Compute(events: seq<Event>) returns (r: Result<Distribution, ColdError>)
    ensures r.Err? <==> events == []
    ensures r.Ok? ==> Summarizes(r.value, events)
  {
    hide Landed, Times, Sum, SumSquares, Episodes, DeadlyEpisodes, Variance, BinCountFor;
    if events == [] {
      return Err(NoEvents);
    }
    var n := |events|;
    var g := GridOf(events);
    var bins := seq(g.count, i requires 0 <= i => Bin(g.Lo(i), g.Lo(i + 1), 0, 0, 0, None));
    var deaths, completions, deathSum, completionSum, completionSquares := 0, 0, 0, 0, 0;
    var episodes: map<string, bool> := map[];
    NothingYet(events, bins, g);
    var k := 0;
    while k < n
      invariant 0 <= k <= n
      invariant BinsHold(bins, events[..k], g)
      invariant deaths == |Times(events[..k], Died)| && completions == |Times(events[..k], Survived)|
      invariant deathSum == Sum(Times(events[..k], Died))
      invariant completionSum == Sum(Times(events[..k], Survived))
      invariant completionSquares == SumSquares(Times(events[..k], Survived))
      invariant EpisodesHold(episodes, events[..k])
    {
      hide BinsHold, EpisodesHold, GridOf, Grid.BinOf, Grid.Lo;
      var ev := events[k];
      BinsStep(bins, events, g, k);
      EpisodesStep(episodes, events, k);
      TimesSnoc(events, k, Died);
      TimesSnoc(events, k, Survived);
      var idx := g.BinOf(ev.timeMs);
      if ev.episodeId !in episodes {
        episodes := episodes[ev.episodeId := false];
      }
      match ev.outcome {
        case Died =>
          bins := bins[idx := bins[idx].(deaths := bins[idx].deaths + 1)];
          deaths := deaths + 1;
          deathSum := deathSum + ev.timeMs;
          episodes := episodes[ev.episodeId := true];
        case Survived =>
          bins := bins[idx := bins[idx].(completions := bins[idx].completions + 1)];
          completions := completions + 1;
          completionSum := completionSum + ev.timeMs;
          completionSquares := completionSquares + ev.timeMs * ev.timeMs;
      }
      k := k + 1;
    }
    assert events[..n] == events;
    TimesLength(events);
    bins := ReadHazards(events, g, bins);
    var deadly := set id <- episodes | episodes[id];
    assert deadly == DeadlyEpisodes(events) by {
      DeadlyAreEpisodes(events);
    }
    r := Ok(Distribution(bins, n, Ratio(deathSum, deaths), Ratio(completionSum, completions),
                         Variance(completions, completionSum, completionSquares),
                         Ratio(|deadly|, |episodes|), Ratio(deaths, deaths + completions)));
  }

  predicate NonNegative(events: seq<Event>) {
    forall e <- events :: e.timeMs >= 0
  }

  function LandedAny(events: seq<Event>, g: Grid, i: int): nat
    requires g.Valid()
  {
    Landed(events, g, i, Died) + Landed(events, g, i, Survived)
  }

  function LandedBefore(events: seq<Event>, g: Grid, k: nat): nat
    requires g.Valid()
  {
    if k == 0 then 0 else LandedBefore(events, g, k - 1) + LandedAny(events, g, k - 1)
  }

  lemma {:induction false} LandedBeforeSnoc(events: seq<Event>, g: Grid, k: nat)
    requires g.Valid() && events != []
    ensures LandedBefore(events, g, k) == LandedBefore(events[..|events| - 1], g, k)
                                        + if 0 <= g.BinOf(events[|events| - 1].timeMs) < k then 1 else 0
  {
    if k > 0 {
      LandedBeforeSnoc(events, g, k - 1);
    }
  }

  lemma {:induction false} NothingLanded(g: Grid, k: nat)
    requires g.Valid()
    ensures LandedBefore([], g, k) == 0
  {
    if k > 0 {
      NothingLanded(g, k - 1);
    }
  }

  /** Every event, whatever its time, is counted in exactly one bin. */
  lemma {:induction false} EveryEventOnce(events: seq<Event>, g: Grid)
    requires g.Valid()
    ensures LandedBefore(events, g, g.count) == |events|
  {
    if events == [] {
      NothingLanded(g, g.count);
    } else {
      BinOfReached(g, events[|events| - 1].timeMs, 0);
      LandedBeforeSnoc(events, g, g.count);
      EveryEventOnce(events[..|events| - 1], g);
    }
  }

  function Negatives(events: seq<Event>): nat {
    if events == [] then 0
    else Negatives(events[..|events| - 1]) + if events[|events| - 1].timeMs < 0 then 1 else 0
  }

  lemma {:induction false} NoNegatives(events: seq<Event>)
    ensures Negatives(events) == 0 <==> NonNegative(events)
    ensures Negatives(events) <= |events|
  {
    if events != [] {
      NoNegatives(events[..|events| - 1]);
      assert events == events[..|events| - 1] + [events[|events| - 1]];
    }
  }

  /** What leaves the at-risk count between two bins is what landed in the first; negative times land in
      the first bin without ever having been at risk. */
  lemma {:induction false} AtRiskDrops(events: seq<Event>, g: Grid, i: nat)
    requires g.Valid() && i < g.count
    ensures Reached(events, g.Lo(i)) + (if i == 0 then Negatives(events) else 0)
         == LandedAny(events, g, i) + if i + 1 < g.count then Reached(events, g.Lo(i + 1)) else 0
  {
    if events != [] {
      var t := events[|events| - 1].timeMs;
      AtRiskDrops(events[..|events| - 1], g, i);
      BinOfReached(g, t, i);
      if i + 1 < g.count {
        BinOfReached(g, t, i + 1);
      }
    }
  }

  lemma {:induction false} ReachedZero(events: seq<Event>, g: Grid)
    requires g.Valid()
    ensures Reached(events, g.Lo(0)) == |events| - Negatives(events)
  {
    if events != [] {
      ReachedZero(events[..|events| - 1], g);
      BinOfReached(g, events[|events| - 1].timeMs, 0);
    }
  }

  /** The panel's bins account for every event: at-risk starts at n exactly when no time is negative, and
      then each bin's drop is what landed in it. */
  lemma {:induction false} BinsAccount(d: Distribution, events: seq<Event>)
    requires events != [] && Summarizes(d, events)
    ensures d.bins[0].atRisk == |events| <==> NonNegative(events)
    ensures NonNegative(events) ==>
      forall i :: 0 <= i < |d.bins| ==>
        d.bins[i].atRisk == d.bins[i].deaths + d.bins[i].completions
                            + if i + 1 < |d.bins| then d.bins[i + 1].atRisk else 0
    ensures forall b <- d.bins :: b.hazard.None? <==> b.atRisk == 0
  {
    hide GridOf, Landed, Reached, Negatives, NonNegative;
    var g := GridOf(events);
    ReachedZero(events, g);
    NoNegatives(events);
    forall i | 0 <= i < |d.bins| && NonNegative(events)
      ensures d.bins[i].atRisk == d.bins[i].deaths + d.bins[i].completions
                                  + if i + 1 < |d.bins| then d.bins[i + 1].atRisk else 0
    {
      AtRiskDrops(events, g, i);
    }
  }

  predicate IsProportion(hazard: Option<real>) {
    hazard.Some? ==> 0.0 <= hazard.value <= 1.0
  }

  lemma ExactlyOne(q: real, p: real, w: real)
    requires w > 0.0 && q * w == p
    ensures q == 1.0 <==> p == w
  {
    assert (q - 1.0) * w == p - w;
  }

  lemma AtMostOne(p: real, w: real)
    requires p >= 0.0 && w > 0.0
    ensures p / w >= 0.0
    ensures p / w <= 1.0 <==> p <= w
  {
    Quotient(p, w, 0);
    Quotient(p, w, 1);
    ExactlyOne(p / w, p, w);
  }

  /** What one bin's hazard needs to be a proportion. */
  lemma RatioIsProportion(part: nat, whole: nat)
    ensures IsProportion(Ratio(part, whole)) <==> whole == 0 || part <= whole
  {
    if whole > 0 {
      AtMostOne(part as real, whole as real);
    }
  }

  /** Every hazard of the panel is a proportion exactly when all times are negative, or the negative ones are no
      more than the completions in the first bin and the events past it. */
  lemma {:induction false} HazardsAreProportionsIff(d: Distribution, events: seq<Event>)
    requires events != [] && Summarizes(d, events)
    ensures var g := GridOf(events);
            (forall b <- d.bins :: IsProportion(b.hazard))
            <==> || Negatives(events) == |events|
                 || Negatives(events) <= Landed(events, g, 0, Survived) + Reached(events, g.Lo(1))
    ensures NonNegative(events) ==> forall b <- d.bins :: IsProportion(b.hazard)
  {
    var g := GridOf(events);
    NoNegatives(events);
    ReachedZero(events, g);
    hide NonNegative;
    hide GridOf, Landed, Reached, Negatives, IsProportion;
    forall i | 0 <= i < |d.bins|
      ensures i > 0 ==> IsProportion(d.bins[i].hazard)
      ensures i == 0 ==>
                (IsProportion(d.bins[0].hazard)
                 <==> d.bins[0].atRisk == 0 || Negatives(events) <= d.bins[0].completions + d.bins[1].atRisk)
    {
      AtRiskDrops(events, g, i);
      RatioIsProportion(d.bins[i].deaths, d.bins[i].atRisk);
    }
    assert d.bins[0] in d.bins;
  }

  lemma Remainder(q: real, p: real, w: real)
    requires q * w == p
    ensures (1.0 - q) * w == w - p
  {
  }

  /** What is left at risk after one bin, as a product. */
  lemma LeftAtRisk(part: nat, whole: nat)
    requires whole > 0
    ensures (1.0 - part as real / whole as real) * whole as real == (whole - part) as real
  {
    Remainder(part as real / whole as real, part as real, whole as real);
  }

  /** The product over the first k bins of one less the hazard. */
  function Survival(bins: seq<Bin>, k: nat): real
    requires k <= |bins|
  {
    if k == 0 then 1.0
    else Survival(bins, k - 1) * (1.0 - if bins[k - 1].hazard.Some? then bins[k - 1].hazard.value else 0.0)
  }

  lemma {:induction false} NoneSurvived(events: seq<Event>, g: Grid, i: int)
    requires g.Valid()
    requires forall e <- events :: e.outcome.Died?
    ensures Landed(events, g, i, Survived) == 0
  {
    if events != [] {
      assert events[|events| - 1] in events;
      NoneSurvived(events[..|events| - 1], g, i);
    }
  }

  /** One bin of the life table: what survives it is what is at risk in the next. */
  lemma LifeTableStep(d: Distribution, events: seq<Event>, i: nat)
    requires events != [] && Summarizes(d, events) && NonNegative(events)
    requires forall e <- events :: e.outcome.Died?
    requires i + 1 < |d.bins|
    ensures var b := d.bins[i];
            if b.hazard.Some? then (1.0 - b.hazard.value) * b.atRisk as real == d.bins[i + 1].atRisk as real
            else b.atRisk == 0 && d.bins[i + 1].atRisk == 0
  {
    hide GridOf, Landed, Reached, Negatives, Grid.Lo;
    var b, g := d.bins[i], GridOf(events);
    AtRiskDrops(events, g, i);
    NoNegatives(events);
    NoneSurvived(events, g, i);
    assert d.bins[i + 1] == BinFor(events, g, i + 1);
    assert b.atRisk == b.deaths + d.bins[i + 1].atRisk;
    if b.atRisk > 0 {
      LeftAtRisk(b.deaths, b.atRisk);
    }
  }

  lemma Regrouped(s: real, q: real, n: real, m: real)
    requires s * n == m
    ensures s * q * n == q * m
  {
    assert s * q * n == q * (s * n);
  }

  /** When every event is a death, the hazards are the empirical life table: multiplied up, they give back
      the share of attempts still running at the start of each bin. */
  lemma {:induction false} HazardsGiveSurvival(d: Distribution, events: seq<Event>, k: nat)
    requires events != [] && Summarizes(d, events) && NonNegative(events)
    requires forall e <- events :: e.outcome.Died?
    requires k < |d.bins|
    ensures Survival(d.bins, k) * |events| as real == d.bins[k].atRisk as real
  {
    hide Summarizes;
    if k == 0 {
      BinsAccount(d, events);
    } else {
      HazardsGiveSurvival(d, events, k - 1);
      LifeTableStep(d, events, k - 1);
      var b, s := d.bins[k - 1], Survival(d.bins, k - 1);
      var q := if b.hazard.Some? then 1.0 - b.hazard.value else 1.0;
      Regrouped(s, q, |events| as real, b.atRisk as real);
      assert Survival(d.bins, k) == s * q;
    }
  }

  /** The sum of squared distances from `mu`. */
  function Spread(ts: seq<int>, mu: real): real {
    if ts == [] then 0.0
    else
      var gap := ts[|ts| - 1] as real - mu;
      Spread(ts[..|ts| - 1], mu) + gap * gap
  }

  lemma SquareOfGap(x: real, mu: real, s: real, n: real)
    ensures (x - mu) * (x - mu) == x * x - 2.0 * (mu * x) + mu * mu
    ensures (x - mu) * (x - mu) >= 0.0
    ensures mu * (s + x) == mu * s + mu * x
    ensures (n + 1.0) * (mu * mu) == n * (mu * mu) + mu * mu
  {
  }

  lemma {:induction false} SpreadExpands(ts: seq<int>, mu: real)
    ensures Spread(ts, mu) >= 0.0
    ensures Spread(ts, mu) == SumSquares(ts) as real - 2.0 * (mu * Sum(ts) as real) + |ts| as real * (mu * mu)
  {
    if ts == [] {
    } else {
      var x := ts[|ts| - 1] as real;
      SpreadExpands(ts[..|ts| - 1], mu);
      SquareOfGap(x, mu, Sum(ts[..|ts| - 1]) as real, (|ts| - 1) as real);
    }
  }

  lemma VarianceIs(n: nat, sum: int, squares: int, mu: real, v: real)
    requires n > 0 && mu == sum as real / n as real
    requires v == squares as real / n as real - Square(mu) && v >= 0.0
    ensures Variance(n, sum, squares) == Some(v)
  {
    assert Square(mu) == Square(sum as real / n as real);
    assert Variance(n, sum, squares) == Some(Clamped(v));
  }

  lemma Centred(q: real, s: real, n: real)
    requires n > 0.0
    ensures var mu := s / n; (q - 2.0 * (mu * s) + n * (mu * mu)) / n == q / n - mu * mu
  {
    var mu := s / n;
    assert mu * n == s;
    assert mu * s == n * (mu * mu);
    assert q - 2.0 * (mu * s) + n * (mu * mu) == q - n * (mu * mu);
    assert (q - n * (mu * mu)) / n == q / n - n * (mu * mu) / n;
    assert n * (mu * mu) / n == mu * mu;
  }

  /** The reported variance is the mean squared distance from the mean, so the guard against a negative one
      never acts in exact arithmetic. */
  lemma {:induction false} VarianceIsMeanSpread(ts: seq<int>)
    requires ts != []
    ensures var mu := Sum(ts) as real / |ts| as real;
            Variance(|ts|, Sum(ts), SumSquares(ts)) == Some(Spread(ts, mu) / |ts| as real)
  {
    hide Sum, SumSquares, Spread;
    var n := |ts| as real;
    var mu := Sum(ts) as real / n;
    SpreadExpands(ts, mu);
    Centred(SumSquares(ts) as real, Sum(ts) as real, n);
    Quotient(Spread(ts, mu), n, 0);
    var q, s := SumSquares(ts) as real, Sum(ts) as real;
    assert Spread(ts, mu) == q - 2.0 * (mu * s) + n * (mu * mu);
    VarianceIs(|ts|, Sum(ts), SumSquares(ts), mu, Spread(ts, mu) / n);
  }

  /** With a negative time the first hazard stops being a proportion: two deaths, one of them at risk. */
  lemma NegativeTimeBreaksHazard(d: Distribution)
    requires Summarizes(d, [Event("a", Died, -1), Event("b", Died, 0)])
    ensures d.bins[0].hazard == Some(2.0)
  {
    var events := [Event("a", Died, -1), Event("b", Died, 0)];
    var g := GridOf(events);
    BinOfReached(g, -1, 0);
    BinOfReached(g, 0, 0);
    assert g == Grid(1000, 5);
    assert g.Width() == 200.0;
    assert g.BinOf(-1) == 0 && g.BinOf(0) == 0;
    assert g.Lo(0) == 0.0;
    hide Grid.BinOf, Grid.Lo, GridOf;
    assert events[..1] == [Event("a", Died, -1)];
    assert events[..1][..0] == [];
    assert Landed([], g, 0, Died) == 0 && Reached([], 0.0) == 0;
    assert Landed(events[..1], g, 0, Died) == 1 && Reached(events[..1], 0.0) == 0;
    assert Landed(events, g, 0, Died) == 2 && Reached(events, 0.0) == 1;
  }
}
