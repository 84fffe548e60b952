/** One hazard rate per bin of [0, 1]: the rate and the cumulative hazard. */
module PiecewiseHazard {
  import opened Wrappers
  import opened Binning

  datatype HazardError = NoBins(bins: int) | WrongEdges(bins: int, edges: nat)

  datatype Hazard = Hazard(bins: nat, edges: seq<real>)

  function Make(bins: int, edges: seq<real>): (r: Result<Hazard, HazardError>)
    ensures r.Ok? <==> bins >= 1 && |edges| == bins + 1
    ensures r.Ok? ==> r.value.bins == bins && r.value.edges == edges
  {
    if bins < 1 then Err(NoBins(bins))
    else if |edges| != bins + 1 then Err(WrongEdges(bins, |edges|))
    else Ok(Hazard(bins, edges))
  }

  /** What the constructor checks. */
  predicate Shaped(m: Hazard) {
    m.bins >= 1 && |m.edges| == m.bins + 1
  }

  predicate Sound(m: Hazard) {
    Shaped(m) && IsEdges(m.edges)
  }

  /** How many values, from the front of a sorted list, lie below s. */
  function SearchLeft(a: seq<real>, s: real): (i: nat)
    ensures i <= |a|
  {
    if a == [] || a[0] >= s then 0 else 1 + SearchLeft(a[1..], s)
  }

  function H(m: Hazard, rates: seq<real>, s: real): real
    requires Sound(m) && |rates| == m.bins
  {
    var idx := SearchLeft(m.edges[1..], s);
    var clipped := if idx > m.bins - 1 then m.bins - 1 else idx;
    if s < 0.0 || s > 1.0 then 0.0 else rates[clipped]
  }

  function Clip(s: real): real {
    if s < 0.0 then 0.0 else if s > 1.0 then 1.0 else s
  }

  /** One bin's share of the cumulative hazard at s in [0, 1]. */
  function Share(lo: real, hi: real, rate: real, s: real): real {
    var reach := (if s < hi then s else hi) - lo;
    rate * if reach > 0.0 then reach else 0.0
  }

  function CumTo(m: Hazard, rates: seq<real>, s: real, k: nat): real
    requires Shaped(m) && |rates| == m.bins && k <= m.bins
  {
    if k == 0 then 0.0
    else CumTo(m, rates, s, k - 1) + Share(m.edges[k - 1], m.edges[k], rates[k - 1], s)
  }

  function CumOf(m: Hazard, rates: seq<real>, s: real): real
    requires Shaped(m) && |rates| == m.bins
  {
    CumTo(m, rates, Clip(s), m.bins)
  }

  method Cum(m: Hazard, rates: seq<real>, s: real) returns (total: real)
    requires Shaped(m) && |rates| == m.bins
    ensures total == CumOf(m, rates, s)
  {
    var sc := Clip(s);
    total := 0.0;
    for k := 0 to m.bins
      invariant total == CumTo(m, rates, sc, k)
    {
      var lo, hi := m.edges[k], m.edges[k + 1];
      var reach := (if sc < hi then sc else hi) - lo;
      total := total + rates[k] * if reach > 0.0 then reach else 0.0;
    }
  }

  lemma {:induction false} SearchFinds(a: seq<real>, s: real, k: nat)
    requires StrictlyIncreasing(a) && k < |a|
    requires s <= a[k] && (k > 0 ==> a[k - 1] < s)
    ensures SearchLeft(a, s) == k
  {
    if k > 0 {
      SearchFinds(a[1..], s, k - 1);
    }
  }

  /** The rate inside bin k, its right edge included. */
  lemma RateInBin(m: Hazard, rates: seq<real>, s: real, k: nat)
    requires Sound(m) && |rates| == m.bins && k < m.bins
    requires 0.0 <= s && (m.edges[k] < s || (k == 0 && s == 0.0)) && s <= m.edges[k + 1]
    ensures H(m, rates, s) == rates[k]
  {
    SearchFinds(m.edges[1..], s, k);
  }

  lemma EdgesAround(m: Hazard, k: nat, n: nat)
    requires Sound(m) && k < m.bins && 0 < n <= m.bins
    ensures m.edges[n - 1] < m.edges[n]
    ensures n <= k ==> m.edges[n] <= m.edges[k]
    ensures n - 1 > k ==> m.edges[k + 1] <= m.edges[n - 1]
  {
  }

  lemma ShareGains(lo: real, hi: real, rate: real, s: real, t: real)
    requires lo < hi && s <= t
    ensures lo <= s && t <= hi ==> Share(lo, hi, rate, t) - Share(lo, hi, rate, s) == rate * (t - s)
    ensures hi <= s || t <= lo ==> Share(lo, hi, rate, t) == Share(lo, hi, rate, s)
    ensures rate >= 0.0 ==> Share(lo, hi, rate, t) >= Share(lo, hi, rate, s)
  {
    var x := (if s < hi then s else hi) - lo;
    var y := (if t < hi then t else hi) - lo;
    var gain := (if y > 0.0 then y else 0.0) - if x > 0.0 then x else 0.0;
    assert Share(lo, hi, rate, t) - Share(lo, hi, rate, s) == rate * gain;
  }

  lemma {:induction false} CumGains(m: Hazard, rates: seq<real>, s: real, t: real, k: nat, n: nat)
    requires Sound(m) && |rates| == m.bins && k < m.bins && n <= m.bins
    requires m.edges[k] <= s <= t <= m.edges[k + 1]
    ensures CumTo(m, rates, t, n) - CumTo(m, rates, s, n) == if k < n then rates[k] * (t - s) else 0.0
  {
    if n > 0 {
      hide IsEdges, Share;
      EdgesAround(m, k, n);
      CumGains(m, rates, s, t, k, n - 1);
      ShareGains(m.edges[n - 1], m.edges[n], rates[n - 1], s, t);
    }
  }

  lemma {:induction false} CumRises(m: Hazard, rates: seq<real>, s: real, t: real, n: nat)
    requires Sound(m) && |rates| == m.bins && n <= m.bins
    requires s <= t && forall r <- rates :: r >= 0.0
    ensures CumTo(m, rates, s, n) <= CumTo(m, rates, t, n)
  {
    if n > 0 {
      CumRises(m, rates, s, t, n - 1);
      assert rates[n - 1] in rates;
      ShareGains(m.edges[n - 1], m.edges[n], rates[n - 1], s, t);
    }
  }

  lemma {:induction false} CumStartsAtZero(m: Hazard, rates: seq<real>, n: nat)
    requires Sound(m) && |rates| == m.bins && n <= m.bins
    ensures CumTo(m, rates, 0.0, n) == 0.0
  {
    if n > 0 {
      CumStartsAtZero(m, rates, n - 1);
      assert m.edges[n - 1] >= m.edges[0];
    }
  }

  /** Zero up to 0, and for non-negative rates never falling, over all arguments, in range or not. */
  lemma CumMonotone(m: Hazard, rates: seq<real>, s: real, t: real)
    requires Sound(m) && |rates| == m.bins
    ensures s <= 0.0 ==> CumOf(m, rates, s) == 0.0
    ensures s <= t && (forall r <- rates :: r >= 0.0) ==> 0.0 <= CumOf(m, rates, s) <= CumOf(m, rates, t)
  {
    CumStartsAtZero(m, rates, m.bins);
    if s <= t && forall r <- rates :: r >= 0.0 {
      CumRises(m, rates, 0.0, Clip(s), m.bins);
      CumRises(m, rates, Clip(s), Clip(t), m.bins);
    }
  }

  /** Within one bin, the cumulative hazard grows by the rate times the distance. */
  lemma CumIntegratesRate(m: Hazard, rates: seq<real>, s: real, t: real, k: nat)
    requires Sound(m) && |rates| == m.bins && k < m.bins
    requires m.edges[k] <= s < t <= m.edges[k + 1]
    ensures CumOf(m, rates, t) - CumOf(m, rates, s) == H(m, rates, t) * (t - s)
  {
    assert m.edges[0] <= m.edges[k] && m.edges[k + 1] <= m.edges[m.bins];
    RateInBin(m, rates, t, k);
    CumGains(m, rates, s, t, k, m.bins);
  }

  /** What "the integral of the rate from 0" means for a step function. */
  ghost predicate Integrates(f: real -> real, m: Hazard, rates: seq<real>)
    requires Sound(m) && |rates| == m.bins
  {
    && f(0.0) == 0.0
    && forall s: real, t: real, k: nat :: k < m.bins && m.edges[k] <= s < t <= m.edges[k + 1] ==>
      f(t) - f(s) == H(m, rates, t) * (t - s)
  }

  ghost predicate AgreesWithCum(f: real -> real, m: Hazard, rates: seq<real>)
    requires Sound(m) && |rates| == m.bins
  {
    forall s :: 0.0 <= s <= 1.0 ==> f(s) == CumOf(m, rates, s)
  }

  lemma EdgesInRange(m: Hazard, k: nat)
    requires Sound(m) && k < m.bins
    ensures 0.0 <= m.edges[k] && m.edges[k + 1] <= 1.0
  {
    assert m.edges[0] <= m.edges[k] && m.edges[k + 1] <= m.edges[m.bins];
  }

  lemma {:induction false} CumIntegrates(m: Hazard, rates: seq<real>, f: real -> real)
    requires Sound(m) && |rates| == m.bins && AgreesWithCum(f, m, rates)
    ensures Integrates(f, m, rates)
  {
    hide CumOf, H, IsEdges;
    CumMonotone(m, rates, 0.0, 0.0);
    forall s: real, t: real, k: nat | k < m.bins && m.edges[k] <= s < t <= m.edges[k + 1]
      ensures f(t) - f(s) == H(m, rates, t) * (t - s)
    {
      EdgesInRange(m, k);
      CumIntegratesRate(m, rates, s, t, k);
    }
  }

  lemma {:induction false} BinOf(m: Hazard, s: real, n: nat) returns (k: nat)
    requires Sound(m) && 1 <= n <= m.bins && 0.0 <= s <= m.edges[n]
    ensures k < n && m.edges[k] <= s <= m.edges[k + 1]
  {
    if n > 1 && s < m.edges[n - 1] {
      k := BinOf(m, s, n - 1);
    } else {
      k := n - 1;
    }
  }

  lemma EdgesRise(m: Hazard, k: nat)
    requires Sound(m) && k < m.bins
    ensures m.edges[0] == 0.0 && m.edges[m.bins] == 1.0
    ensures m.edges[k] < m.edges[k + 1] && (k > 0 ==> m.edges[k - 1] < m.edges[k])
  {
  }

  lemma {:induction false} IntegralAgrees(m: Hazard, rates: seq<real>, f: real -> real, s: real, k: nat)
    requires Sound(m) && |rates| == m.bins && Integrates(f, m, rates)
    requires k < m.bins && m.edges[k] <= s <= m.edges[k + 1]
    ensures f(s) == CumOf(m, rates, s)
    decreases k
  {
    hide CumOf, H, IsEdges;
    var lo := m.edges[k];
    EdgesRise(m, k);
    if k > 0 {
      IntegralAgrees(m, rates, f, lo, k - 1);
    } else {
      CumMonotone(m, rates, 0.0, 0.0);
    }
    if lo < s {
      CumIntegratesRate(m, rates, lo, s, k);
    }
  }

  lemma IntegralIsUnique(m: Hazard, rates: seq<real>, f: real -> real)
    requires Sound(m) && |rates| == m.bins && Integrates(f, m, rates)
    ensures AgreesWithCum(f, m, rates)
  {
    hide CumOf, H, IsEdges, Integrates;
    EdgesRise(m, m.bins - 1);
    forall s: real | 0.0 <= s <= 1.0
      ensures f(s) == CumOf(m, rates, s)
    {
      var k := BinOf(m, s, m.bins);
      IntegralAgrees(m, rates, f, s, k);
    }
  }

  /** On [0, 1] the cumulative hazard is the integral of the rate, and nothing else is. */
  lemma CumIsTheIntegral(m: Hazard, rates: seq<real>, f: real -> real)
    requires Sound(m) && |rates| == m.bins
    ensures Integrates(f, m, rates) <==> AgreesWithCum(f, m, rates)
  {
    if Integrates(f, m, rates) {
      IntegralIsUnique(m, rates, f);
    } else if AgreesWithCum(f, m, rates) {
      CumIntegrates(m, rates, f);
    }
  }

  /** Past the last edge the rate is zero and the cumulative hazard stays at its total. */
  lemma FlatOutside(m: Hazard, rates: seq<real>, s: real)
    requires Sound(m) && |rates| == m.bins
    ensures s > 1.0 ==> H(m, rates, s) == 0.0 && CumOf(m, rates, s) == CumOf(m, rates, 1.0)
    ensures s < 0.0 ==> H(m, rates, s) == 0.0 && CumOf(m, rates, s) == 0.0
  {
    CumMonotone(m, rates, s, s);
  }

  /** Whatever edges a picker makes, by finalizing any list or uniformly, the hazard takes them for as many bins
      as they have gaps, and its cumulative hazard is then the integral of its rate. */
  lemma {:induction false} PickedHazardIntegrates(interiorEdges: seq<real>, edges: seq<real>, rates: seq<real>,
                                                  f: real -> real)
    requires edges == [0.0] + Kept(Sort(interiorEdges)) + [1.0] || Uniform(|edges| - 1) == Ok(edges)
    requires |rates| == |edges| - 1
    ensures var made := Make(|edges| - 1, edges);
            made.Ok? && Sound(made.value) && (Integrates(f, made.value, rates) <==> AgreesWithCum(f, made.value, rates))
  {
    if edges == [0.0] + Kept(Sort(interiorEdges)) + [1.0] {
      FinalizedEdges(interiorEdges, edges);
    } else {
      UniformEdges(|edges| - 1);
    }
    CumIsTheIntegral(Make(|edges| - 1, edges).value, rates, f);
  }
}
