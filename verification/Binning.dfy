/** Bin edges for the piecewise-constant hazard. */
module Binning {
  import opened Wrappers

  const MIN_BIN_WIDTH := 0.0001

  datatype EdgeError = TooFewBins(bins: int)

  predicate Sorted(s: seq<real>) {
    forall i, j :: 0 <= i < j < |s| ==> s[i] <= s[j]
  }

  predicate StrictlyIncreasing(s: seq<real>) {
    forall i, j :: 0 <= i < j < |s| ==> s[i] < s[j]
  }

  /** Edges a hazard can stand on: from 0 to 1, strictly increasing. */
  predicate IsEdges(s: seq<real>) {
    |s| >= 2 && s[0] == 0.0 && s[|s| - 1] == 1.0 && StrictlyIncreasing(s)
  }

  function Insert(s: seq<real>, x: real): (r: seq<real>)
    requires Sorted(s)
    ensures Sorted(r) && |r| == |s| + 1
    ensures r[0] == if s == [] || x <= s[0] then x else s[0]
  {
    if s == [] || x <= s[0] then
      [x] + s
    else
      [s[0]] + Insert(s[1..], x)
  }

  lemma {:induction false} InsertKeeps(s: seq<real>, x: real)
    requires Sorted(s)
    ensures multiset(Insert(s, x)) == multiset(s) + multiset{x}
  {
    if s != [] && x > s[0] {
      InsertKeeps(s[1..], x);
      assert s == [s[0]] + s[1..];
    }
  }

  /** The library's sort: the same values, in order. */
  function Sort(s: seq<real>): (r: seq<real>)
    ensures Sorted(r)
  {
    if s == [] then [] else Insert(Sort(s[1..]), s[0])
  }

  lemma {:induction false} SortKeeps(s: seq<real>)
    ensures multiset(Sort(s)) == multiset(s)
  {
    if s != [] {
      SortKeeps(s[1..]);
      InsertKeeps(Sort(s[1..]), s[0]);
      assert s == [s[0]] + s[1..];
    }
  }

  lemma SortSame(s: seq<real>, e: real)
    ensures e in Sort(s) <==> e in s
  {
    hide Sort;
    SortKeeps(s);
    assert e in Sort(s) <==> e in multiset(Sort(s));
    assert e in s <==> e in multiset(s);
  }

  /** The interior edges kept out of a sorted list: those strictly inside (0, 1), each at least the minimum
      width past the one kept before it. */
  function Kept(s: seq<real>): seq<real> {
    if s == [] then []
    else
      var keep, e := Kept(s[..|s| - 1]), s[|s| - 1];
      if !(0.0 < e < 1.0) || (keep != [] && e - keep[|keep| - 1] < MIN_BIN_WIDTH) then keep else keep + [e]
  }

  method Finalize(interiorEdges: seq<real>) returns (edges: seq<real>)
    ensures edges == [0.0] + Kept(Sort(interiorEdges)) + [1.0]
  {
    var interior := Sort(interiorEdges);
    var keep: seq<real> := [];
    for i := 0 to |interior|
      invariant keep == Kept(interior[..i])
    {
      var e := interior[i];
      assert interior[..i + 1][..i] == interior[..i];
      if !(0.0 < e < 1.0) {
        continue;
      }
      if keep != [] && e - keep[|keep| - 1] < MIN_BIN_WIDTH {
        continue;
      }
      keep := keep + [e];
    }
    assert interior[..|interior|] == interior;
    edges := [0.0] + keep + [1.0];
  }

  /** Kept edges come from the list, lie inside, and stand at least the minimum width apart. */
  lemma {:induction false} KeptSpaced(s: seq<real>)
    requires Sorted(s)
    ensures forall e <- Kept(s) :: e in s && 0.0 < e < 1.0
    ensures forall i, j :: 0 <= i < j < |Kept(s)| ==> Kept(s)[j] - Kept(s)[i] >= MIN_BIN_WIDTH
  {
    if s != [] {
      KeptSpaced(s[..|s| - 1]);
    }
  }

  lemma SortedLast(s: seq<real>, x: real)
    requires Sorted(s) && s != [] && x in s
    ensures x <= s[|s| - 1]
  {
  }

  predicate Near(keep: seq<real>, e: real) {
    keep != [] && e - keep[|keep| - 1] < MIN_BIN_WIDTH
  }

  lemma KeptSnoc(before: seq<real>, e: real)
    ensures Kept(before + [e])
         == if !(0.0 < e < 1.0) || Near(Kept(before), e) then Kept(before) else Kept(before) + [e]
  {
    assert (before + [e])[..|before|] == before;
  }

  /** Nothing inside is dropped without a kept edge less than the minimum width below it. */
  lemma {:induction false} DroppedIsCovered(s: seq<real>, e: real)
    requires Sorted(s) && e in s && 0.0 < e < 1.0
    ensures exists k <- Kept(s) :: 0.0 <= e - k < MIN_BIN_WIDTH
  {
    var before, last := s[..|s| - 1], s[|s| - 1];
    assert s == before + [last];
    KeptSnoc(before, last);
    if e in before {
      DroppedIsCovered(before, e);
      var k :| k in Kept(before) && 0.0 <= e - k < MIN_BIN_WIDTH;
      assert k in Kept(s);
    } else {
      KeptSpaced(before);
      var keep := Kept(before);
      hide Kept, Sorted;
      if Near(keep, e) {
        var k := keep[|keep| - 1];
        assert k in before && k in s;
        SortedLast(s, k);
        assert k in Kept(s);
      } else {
        assert e in Kept(s);
      }
    }
  }

  lemma Fenced(keep: seq<real>, edges: seq<real>)
    requires edges == [0.0] + keep + [1.0]
    requires forall e <- keep :: 0.0 < e < 1.0
    requires forall i, j :: 0 <= i < j < |keep| ==> keep[j] - keep[i] >= MIN_BIN_WIDTH
    ensures IsEdges(edges)
    ensures forall i :: 1 <= i < |edges| - 2 ==> edges[i + 1] - edges[i] >= MIN_BIN_WIDTH
    ensures forall i :: 1 <= i < |edges| - 1 ==> edges[i] in keep
  {
    assert forall i :: 1 <= i < |edges| - 1 ==> edges[i] == keep[i - 1];
    forall i, j | 0 <= i < j < |edges|
      ensures edges[i] < edges[j]
    {
      if 0 < i && j < |edges| - 1 {
        assert keep[j - 1] - keep[i - 1] >= MIN_BIN_WIDTH;
      } else {
        assert i > 0 ==> edges[i] == keep[i - 1] && keep[i - 1] in keep;
        assert j < |edges| - 1 ==> edges[j] == keep[j - 1] && keep[j - 1] in keep;
      }
    }
  }

  /** Strictly increasing edges from 0 to 1 for any interior list, inner bins never narrower than the
      minimum, and no requested edge lost by more than the minimum. */
  lemma FinalizedEdges(interiorEdges: seq<real>, edges: seq<real>)
    requires edges == [0.0] + Kept(Sort(interiorEdges)) + [1.0]
    ensures IsEdges(edges)
    ensures forall i :: 1 <= i < |edges| - 2 ==> edges[i + 1] - edges[i] >= 0.0001
    ensures forall e <- interiorEdges :: 0.0 < e < 1.0 ==> exists k <- edges :: 0.0 <= e - k < 0.0001
    ensures forall i :: 1 <= i < |edges| - 1 ==> edges[i] in interiorEdges
  {
    hide Kept, Sort, IsEdges;
    var s := Sort(interiorEdges);
    KeptSpaced(s);
    Fenced(Kept(s), edges);
    forall i | 1 <= i < |edges| - 1
      ensures edges[i] in interiorEdges
    {
      SortSame(interiorEdges, edges[i]);
    }
    forall e | e in interiorEdges && 0.0 < e < 1.0
      ensures exists k <- edges :: 0.0 <= e - k < MIN_BIN_WIDTH
    {
      SortSame(interiorEdges, e);
      DroppedIsCovered(s, e);
      var k :| k in Kept(s) && 0.0 <= e - k < MIN_BIN_WIDTH;
      assert k in edges;
    }
  }

  predicate AllWide(edges: seq<real>) {
    forall i :: 0 <= i < |edges| - 1 ==> edges[i + 1] - edges[i] >= 0.0001
  }

  /** The edges of a list that lie at or below `limit`, in their order. */
  function AtMost(s: seq<real>, limit: real): seq<real> {
    if s == [] then []
    else AtMost(s[..|s| - 1], limit) + if s[|s| - 1] <= limit then [s[|s| - 1]] else []
  }

  /** The kept edges as far as `limit`. */
  function KeptUpTo(s: seq<real>, limit: real): seq<real> {
    Kept(AtMost(s, limit))
  }

  /** Nothing requested lies beyond `limit` but is out of reach of the edges kept up to it. */
  predicate ReachedPast(s: seq<real>, limit: real) {
    forall i :: 0 <= i < |s| && limit < s[i] < 1.0 ==> Near(KeptUpTo(s, limit), s[i])
  }

  lemma {:induction false} AllAtMost(s: seq<real>, limit: real)
    requires forall i :: 0 <= i < |s| ==> s[i] <= limit
    ensures AtMost(s, limit) == s
  {
    if s != [] {
      assert s[|s| - 1] <= limit;
      assert s == s[..|s| - 1] + [s[|s| - 1]];
      AllAtMost(s[..|s| - 1], limit);
    }
  }

  lemma ReachedSnoc(before: seq<real>, e: real, limit: real)
    requires e > limit
    ensures KeptUpTo(before + [e], limit) == KeptUpTo(before, limit)
    ensures ReachedPast(before + [e], limit)
       <==> ReachedPast(before, limit) && (e < 1.0 ==> Near(KeptUpTo(before, limit), e))
  {
    var s := before + [e];
    assert s[..|s| - 1] == before;
    assert AtMost(s, limit) == AtMost(before, limit);
    hide Near, KeptUpTo, AtMost;
    if ReachedPast(s, limit) {
      assert s[|before|] == e;
      forall i | 0 <= i < |before| && limit < before[i] < 1.0
        ensures Near(KeptUpTo(before, limit), before[i])
      {
        assert s[i] == before[i];
      }
    }
  }

  /** Of a sorted list, the greedy rule keeps exactly what it keeps up to a limit when all that lies beyond is
      near the last of these; otherwise it keeps something beyond the limit. */
  lemma {:induction false} KeptPastLimit(s: seq<real>, limit: real)
    requires Sorted(s) && 0.0 <= limit < 1.0
    ensures ReachedPast(s, limit) ==> Kept(s) == KeptUpTo(s, limit)
    ensures !ReachedPast(s, limit) ==> Kept(s) != [] && Kept(s)[|Kept(s)| - 1] > limit
  {
    if s == [] {
      assert AtMost(s, limit) == [];
    } else if s[|s| - 1] <= limit {
      AllAtMost(s, limit);
    } else {
      var before, e := s[..|s| - 1], s[|s| - 1];
      KeptPastLimit(before, limit);
      assert s == before + [e];
      ReachedSnoc(before, e, limit);
      KeptSnoc(before, e);
      hide Kept, KeptUpTo, ReachedPast, AtMost, Sorted, Near;
    }
  }

  lemma {:induction false} AtMostMembers(s: seq<real>, limit: real)
    ensures forall e <- AtMost(s, limit) :: e in s && e <= limit
    ensures Sorted(s) ==> Sorted(AtMost(s, limit))
  {
    if s != [] {
      var before, e := s[..|s| - 1], s[|s| - 1];
      AtMostMembers(before, limit);
      if Sorted(s) {
        var low := AtMost(before, limit);
        assert Sorted(before);
        forall i | 0 <= i < |low|
          ensures low[i] <= e
        {
          assert low[i] in low && low[i] in before;
          var k :| 0 <= k < |before| && before[k] == low[i];
          assert s[k] <= s[|s| - 1];
        }
        assert AtMost(s, limit) == if e <= limit then low + [e] else low;
      }
    }
  }

  lemma LastBinWide(s: seq<real>, edges: seq<real>)
    requires Sorted(s) && edges == [0.0] + Kept(s) + [1.0]
    ensures 1.0 - edges[|edges| - 2] >= MIN_BIN_WIDTH <==> ReachedPast(s, 1.0 - MIN_BIN_WIDTH)
  {
    hide ReachedPast;
    var limit := 1.0 - MIN_BIN_WIDTH;
    KeptPastLimit(s, limit);
    AtMostMembers(s, limit);
    var low := AtMost(s, limit);
    KeptSpaced(low);
    hide Kept;
    assert Kept(s) != [] ==> edges[|edges| - 2] == Kept(s)[|Kept(s)| - 1];
    if ReachedPast(s, limit) && Kept(s) != [] {
      assert Kept(low)[|Kept(low)| - 1] in Kept(low);
    }
  }

  lemma FirstKeptBelow(interiorEdges: seq<real>, edges: seq<real>, e: real)
    requires edges == [0.0] + Kept(Sort(interiorEdges)) + [1.0]
    requires e in interiorEdges && 0.0 < e < 1.0
    ensures |edges| > 2 && edges[1] <= e
  {
    hide Kept, Sort;
    var s := Sort(interiorEdges);
    SortSame(interiorEdges, e);
    DroppedIsCovered(s, e);
    KeptSpaced(s);
    var k :| k in Kept(s) && 0.0 <= e - k < MIN_BIN_WIDTH;
    assert edges[1] == Kept(s)[0] <= k;
  }

  /** Every bin is wide exactly when the two outer ones are. */
  lemma WideAtEnds(interiorEdges: seq<real>, edges: seq<real>)
    requires edges == [0.0] + Kept(Sort(interiorEdges)) + [1.0]
    ensures AllWide(edges)
       <==> && (forall e <- interiorEdges :: !(0.0 < e < MIN_BIN_WIDTH))
            && 1.0 - edges[|edges| - 2] >= MIN_BIN_WIDTH
  {
    FinalizedEdges(interiorEdges, edges);
    if e :| e in interiorEdges && 0.0 < e < MIN_BIN_WIDTH {
      var k :| k in edges && 0.0 <= e - k < MIN_BIN_WIDTH;
      FirstKeptBelow(interiorEdges, edges, e);
      assert edges[1] - edges[0] < MIN_BIN_WIDTH;
    } else if 1.0 - edges[|edges| - 2] >= MIN_BIN_WIDTH {
      forall i | 0 <= i < |edges| - 1
        ensures edges[i + 1] - edges[i] >= MIN_BIN_WIDTH
      {
        if i == 0 && |edges| > 2 {
          assert edges[1] in interiorEdges;
        }
      }
    } else {
      assert edges[|edges| - 2 + 1] - edges[|edges| - 2] < MIN_BIN_WIDTH;
    }
  }

  /** The minimum width is enforced between interior edges only. Every bin meets it exactly when no requested
      edge falls within it of 0, and each one that falls within it of 1 is so close to the last edge kept
      before that stretch that it is dropped. */
  lemma WideIff(interiorEdges: seq<real>, edges: seq<real>)
    requires edges == [0.0] + Kept(Sort(interiorEdges)) + [1.0]
    ensures AllWide(edges)
       <==> && (forall e <- interiorEdges :: !(0.0 < e < MIN_BIN_WIDTH))
            && (forall e <- interiorEdges :: 1.0 - MIN_BIN_WIDTH < e < 1.0 ==>
                  Near(KeptUpTo(Sort(interiorEdges), 1.0 - MIN_BIN_WIDTH), e))
  {
    hide Kept, Sort, KeptUpTo, Near;
    var s := Sort(interiorEdges);
    forall e
      ensures e in s <==> e in interiorEdges
    {
      SortSame(interiorEdges, e);
    }
    WideAtEnds(interiorEdges, edges);
    LastBinWide(s, edges);
    assert forall e <- interiorEdges :: exists i :: 0 <= i < |s| && s[i] == e;
    assert forall i :: 0 <= i < |s| ==> s[i] in s && s[i] in interiorEdges;
  }

  lemma SortOne(e: real)
    ensures Sort([e]) == [e]
  {
    assert [e][1..] == [] && Sort([]) == [];
  }

  /** A single requested edge near 0 makes a first bin narrower than the minimum. */
  lemma {:induction false} NarrowFirstBin(e: real, edges: seq<real>)
    requires 0.0 < e < MIN_BIN_WIDTH && edges == [0.0] + Kept(Sort([e])) + [1.0]
    ensures edges == [0.0, e, 1.0] && !AllWide(edges)
  {
    SortOne(e);
    assert Kept([]) == [] && [] + [e] == [e];
    KeptSnoc([], e);
    hide Kept, Sort;
    assert edges[0 + 1] - edges[0] < MIN_BIN_WIDTH;
  }

  function Uniform(bins: int): Result<seq<real>, EdgeError> {
    if bins < 1 then Err(TooFewBins(bins)) else Ok(seq(bins + 1, i => i as real / bins as real))
  }

  lemma PositiveFactor(d: real, w: real)
    requires w > 0.0 && d * w > 0.0
    ensures d > 0.0
  {
  }

  lemma Divided(x: real, y: real, w: real)
    requires w > 0.0 && x < y
    ensures x / w < y / w
    ensures y / w - x / w == (y - x) / w
  {
    var d := (y - x) / w;
    assert d == y / w - x / w;
    assert d * w == y - x;
    PositiveFactor(d, w);
  }

  /** Equal bins: every edge list it gives is one a hazard can stand on, each bin 1/bins wide. */
  lemma UniformEdges(bins: int)
    ensures Uniform(bins).Ok? <==> bins >= 1
    ensures Uniform(bins).Ok? ==>
      && |Uniform(bins).value| == bins + 1 && IsEdges(Uniform(bins).value)
      && forall i :: 0 <= i < bins ==> Uniform(bins).value[i + 1] - Uniform(bins).value[i] == 1.0 / bins as real
  {
    if bins >= 1 {
      var w, edges := bins as real, Uniform(bins).value;
      assert w / w == 1.0;
      forall i, j | 0 <= i < j < |edges|
        ensures edges[i] < edges[j]
      {
        Divided(i as real, j as real, w);
      }
      forall i | 0 <= i < bins
        ensures edges[i + 1] - edges[i] == 1.0 / w
      {
        Divided(i as real, (i + 1) as real, w);
      }
    }
  }
}
