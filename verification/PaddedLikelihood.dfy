/** Padding data to a bucket for the compiled likelihood. The score of one attempt is a parameter: whatever
    it computes from the attempt's number, time and outcome, minus infinity included. */
module PaddedLikelihood {
  import opened Arithmetic
  import opened Wrappers

  datatype LogLik = NegInf | Fin(value: real)

  datatype PadError = TooSmall(nMax: int, n: nat)

  datatype Padded = Padded(times: seq<real>, died: seq<bool>, validN: nat)

  const PAD_TIME := 30000.0

  /** An attempt's number counts from one. */
  type Score = (nat, real, bool) -> LogLik

  function Plus(x: LogLik, y: LogLik): LogLik {
    if x.NegInf? || y.NegInf? then NegInf else Fin(x.value + y.value)
  }

  /** The log likelihood of every attempt given. */
  function LogLikelihood(score: Score, times: seq<real>, died: seq<bool>): LogLik
    requires |times| == |died|
  {
    if times == [] then Fin(0.0)
    else
      var last := |times| - 1;
      Plus(LogLikelihood(score, times[..last], died[..last]), score(last + 1, times[last], died[last]))
  }

  /** The same sum over a longer array, in which attempts past `validN` are masked to zero. */
  function LogLikelihoodPadded(score: Score, times: seq<real>, died: seq<bool>, validN: int): LogLik
    requires |times| == |died|
  {
    if times == [] then Fin(0.0)
    else
      var last := |times| - 1;
      Plus(LogLikelihoodPadded(score, times[..last], died[..last], validN),
           if last + 1 <= validN then score(last + 1, times[last], died[last]) else Fin(0.0))
  }

  function BucketSize(n: nat, base: int): int
    requires base > 0
  {
    ((n - 1) / base + 1) * base
  }

  function PadTo(times: seq<real>, died: seq<bool>, nMax: int): Result<Padded, PadError>
    requires |times| == |died|
  {
    var n := |times|;
    if nMax < n then Err(TooSmall(nMax, n))
    else if nMax == n then Ok(Padded(times, died, n))
    else Ok(Padded(times + seq(nMax - n, _ => PAD_TIME), died + seq(nMax - n, _ => false), n))
  }

  lemma {:induction false} MaskBeyondEnd(score: Score, times: seq<real>, died: seq<bool>, validN: nat)
    requires |times| == |died| <= validN
    ensures LogLikelihoodPadded(score, times, died, validN) == LogLikelihoodPadded(score, times, died, |times|)
  {
    if times != [] {
      var last := |times| - 1;
      MaskBeyondEnd(score, times[..last], died[..last], validN);
      MaskBeyondEnd(score, times[..last], died[..last], |times|);
    }
  }

  /** The mask cuts exactly at `validN`: what lies beyond it is inert, whatever it is. */
  lemma {:induction false} MaskedIsPrefix(score: Score, times: seq<real>, died: seq<bool>, validN: nat)
    requires |times| == |died| && validN <= |times|
    ensures LogLikelihoodPadded(score, times, died, validN)
         == LogLikelihood(score, times[..validN], died[..validN])
  {
    if times == [] {
    } else {
      var last := |times| - 1;
      if validN == |times| {
        MaskedIsPrefix(score, times[..last], died[..last], last);
        MaskBeyondEnd(score, times[..last], died[..last], validN);
        assert times[..validN] == times && died[..validN] == died;
        assert times[..last][..last] == times[..last] && died[..last][..last] == died[..last];
      } else {
        MaskedIsPrefix(score, times[..last], died[..last], validN);
        assert times[..last][..validN] == times[..validN] && died[..last][..validN] == died[..validN];
      }
    }
  }

  lemma NextMultiple(q: int, k: int, base: int, n: int)
    requires base > 0 && q * base < n
    ensures k * base >= n ==> k * base >= q * base + base
  {
    Stretch(k - q, base);
    assert (k - q) * base == k * base - q * base;
  }

  lemma MultipleDivides(k: int, base: int)
    requires base > 0
    ensures k * base % base == 0
  {
    var q := k * base / base;
    Stretch(k - q, base);
    assert (k - q) * base == k * base - q * base;
  }

  /** The bucket is the least multiple of the base that holds the data. */
  lemma {:induction false} BucketIsLeast(n: nat, base: int, m: int)
    requires base > 0
    ensures BucketSize(n, base) % base == 0 && n <= BucketSize(n, base) < n + base
    ensures m % base == 0 && m >= n ==> m >= BucketSize(n, base)
  {
    var q, k := (n - 1) / base, m / base;
    assert q * base <= n - 1 < q * base + base;
    assert BucketSize(n, base) == q * base + base;
    MultipleDivides(q + 1, base);
    NextMultiple(q, k, base, n);
  }

  /** Padding succeeds exactly when the target holds the data, keeps the data in front, and is undone by
      the mask: the padded likelihood is the unpadded one. */
  lemma PaddingIsInert(score: Score, times: seq<real>, died: seq<bool>, nMax: int)
    requires |times| == |died|
    ensures var r := PadTo(times, died, nMax);
            if nMax < |times| then r == Err(TooSmall(nMax, |times|))
            else
              && r.Ok? && |r.value.times| == |r.value.died| == nMax && r.value.validN == |times|
              && r.value.times[..|times|] == times && r.value.died[..|times|] == died
              && LogLikelihoodPadded(score, r.value.times, r.value.died, r.value.validN)
              == LogLikelihood(score, times, died)
  {
    if nMax >= |times| {
      var p := PadTo(times, died, nMax).value;
      assert p.times[..p.validN] == times && p.died[..p.validN] == died;
      MaskedIsPrefix(score, p.times, p.died, p.validN);
    }
  }

  /** The whole path: any data set padded to its own bucket is accepted and scores as it did unpadded. */
  lemma {:induction false} BucketedAgrees(score: Score, times: seq<real>, died: seq<bool>, base: int)
    requires |times| == |died| && base > 0
    ensures var r := PadTo(times, died, BucketSize(|times|, base));
            && r.Ok? && |r.value.times| == |r.value.died| == BucketSize(|times|, base)
            && LogLikelihoodPadded(score, r.value.times, r.value.died, r.value.validN)
            == LogLikelihood(score, times, died)
  {
    BucketIsLeast(|times|, base, 0);
    PaddingIsInert(score, times, died, BucketSize(|times|, base));
  }

  function Total(values: seq<real>): real {
    if values == [] then 0.0 else values[0] + Total(values[1..])
  }

  lemma {:induction false} TotalSnoc(values: seq<real>, last: real)
    ensures Total(values + [last]) == Total(values) + last
  {
    if values == [] {
      assert values + [last] == [last];
    } else {
      TotalSnoc(values[1..], last);
      assert (values + [last])[1..] == values[1..] + [last];
    }
  }

  /** When every attempt is possible, the log likelihood is the sum of their scores, numbered from one. */
  lemma {:induction false} PossibleIsTotal(score: Score, times: seq<real>, died: seq<bool>, values: seq<real>)
    requires |times| == |died| == |values|
    requires forall k :: 0 <= k < |times| ==> score(k + 1, times[k], died[k]) == Fin(values[k])
    ensures LogLikelihood(score, times, died) == Fin(Total(values))
  {
    if times != [] {
      var last := |times| - 1;
      PossibleIsTotal(score, times[..last], died[..last], values[..last]);
      TotalSnoc(values[..last], values[last]);
      assert values[..last] + [values[last]] == values;
    }
  }

  /** One impossible attempt makes the whole data set impossible, and nothing else does. */
  lemma {:induction false} ImpossibleIff(score: Score, times: seq<real>, died: seq<bool>)
    requires |times| == |died|
    ensures LogLikelihood(score, times, died).NegInf?
       <==> exists k :: 0 <= k < |times| && score(k + 1, times[k], died[k]).NegInf?
  {
    if times != [] {
      var last := |times| - 1;
      ImpossibleIff(score, times[..last], died[..last]);
      if score(last + 1, times[last], died[last]).NegInf? {
      } else if k :| 0 <= k < |times| && score(k + 1, times[k], died[k]).NegInf? {
        assert score(k + 1, times[..last][k], died[..last][k]).NegInf?;
      }
    }
  }
}
