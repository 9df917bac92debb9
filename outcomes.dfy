/**
 * The bookkeeping of the hit-rate experiment that does not touch the network:
 * accumulating per-trial outcomes (`Simulation.run`) and reducing them to a
 * sorted hop list with one hit rate per hop (`Simulation.postprocess`).
 */
module Outcomes {

  /** One trial: hop distance -> 1 if the search from that distance found the gold document, else 0. */
  type TrialOutcome = map<nat, nat>

  /** All trials so far: hop distance -> the outcomes recorded for that hop, in trial order. */
  type Aggregate = map<nat, seq<nat>>

  /** The hop distances 0 .. n-1. */
  function HopRange(n: nat): (r: set<nat>)
    ensures forall h: nat :: h in r <==> h < n
  {
    if n == 0 then {} else HopRange(n - 1) + {n - 1}
  }

  /** Every hop below a present hop is present too: the keys are 0 .. L-1 for some L. */
  predicate Contiguous<V>(m: map<nat, V>)
  {
    forall g: nat, h: nat :: h in m && g <= h ==> g in m
  }

  /** Every outcome is 0 or 1. */
  predicate AllBits(o: TrialOutcome)
  {
    forall h :: h in o ==> o[h] <= 1
  }

  /** The list a `defaultdict(list)` yields for hop `h`: the stored one, or a fresh empty one. */
  function Lookup(agg: Aggregate, h: nat): seq<nat>
  {
    if h in agg then agg[h] else []
  }

  /** Appends one trial's outcomes to the aggregate, one `append` per hop the trial observed. */
  function Absorb(agg: Aggregate, o: TrialOutcome): (r: Aggregate)
    ensures r.Keys == agg.Keys + o.Keys
    ensures forall h :: h in o ==> r[h] == Lookup(agg, h) + [o[h]]
    ensures forall h :: h in agg && h !in o ==> r[h] == agg[h]
  {
    map h | h in agg.Keys + o.Keys :: Lookup(agg, h) + (if h in o then [o[h]] else [])
  }

  lemma AbsorbPointwise(agg: Aggregate, o: TrialOutcome, r: Aggregate)
    requires r.Keys == agg.Keys + o.Keys
    requires forall h :: h in o ==> r[h] == Lookup(agg, h) + [o[h]]
    requires forall h :: h in agg && h !in o ==> r[h] == agg[h]
    ensures r == Absorb(agg, o)
  {
  }

  /** The aggregate after absorbing the trials of `os` in order, starting from an empty dictionary. */
  function Accumulate(os: seq<TrialOutcome>): Aggregate
  {
    if os == [] then map[] else Absorb(Accumulate(os[..|os| - 1]), os[|os| - 1])
  }

  /** Reference definition: the outcomes of the trials that observed hop `h`, first trial first. */
  function Observations(os: seq<TrialOutcome>, h: nat): seq<nat>
  {
    if os == [] then [] else (if h in os[0] then [os[0][h]] else []) + Observations(os[1..], h)
  }

  /** The indices of the trials that observed hop `h`. */
  function TrialsObserving(os: seq<TrialOutcome>, h: nat): set<nat>
  {
    set i: nat | i < |os| && h in os[i]
  }

  /** The indices of the trials whose search from hop `h` found the gold document. */
  function TrialsHitting(os: seq<TrialOutcome>, h: nat): set<nat>
  {
    set i: nat | i < |os| && h in os[i] && os[i][h] == 1
  }

  /** Some trial observed hop `h`. */
  predicate ObservedBy(os: seq<TrialOutcome>, h: nat)
  {
    exists i :: 0 <= i < |os| && h in os[i]
  }

  lemma {:induction false} ObservationsAppend(a: seq<TrialOutcome>, b: seq<TrialOutcome>, h: nat)
    ensures Observations(a + b, h) == Observations(a, h) + Observations(b, h)
  {
    if a != [] {
      assert (a + b)[1..] == a[1..] + b;
      ObservationsAppend(a[1..], b, h);
    } else {
      assert a + b == b;
    }
  }

  /** A hop is a key of the aggregate exactly when some trial observed it. */
  lemma {:induction false} AccumulateKeys(os: seq<TrialOutcome>, h: nat)
    ensures h in Accumulate(os) <==> ObservedBy(os, h)
  {
    if os != [] {
      var init, last := os[..|os| - 1], os[|os| - 1];
      AccumulateKeys(init, h);
      if h in Accumulate(os) && h !in last {
        var i :| 0 <= i < |init| && h in init[i];
        assert h in os[i];
      }
      if ObservedBy(os, h) {
        var i :| 0 <= i < |os| && h in os[i];
        if i < |init| { assert h in init[i]; }
      }
    }
  }

  /** The list for hop h holds, in trial order, the outcome of every trial that observed h. */
  lemma {:induction false} AccumulateIsObservations(os: seq<TrialOutcome>, h: nat)
    ensures Lookup(Accumulate(os), h) == Observations(os, h)
  {
    if os != [] {
      var init, last := os[..|os| - 1], os[|os| - 1];
      assert os == init + [last];
      AccumulateIsObservations(init, h);
      ObservationsAppend(init, [last], h);
      var one: seq<TrialOutcome> := [last];
      assert one[1..] == [];
      var step := if h in last then [last[h]] else [];
      assert Observations(one, h) == step;
      assert Lookup(Accumulate(os), h) == Lookup(Accumulate(init), h) + step;
    }
  }

  lemma {:induction false} TrialsObservingSnoc(os: seq<TrialOutcome>, h: nat)
    requires os != []
    ensures TrialsObserving(os, h)
         == TrialsObserving(os[..|os| - 1], h) + (if h in os[|os| - 1] then {|os| - 1} else {})
    ensures TrialsHitting(os, h)
         == TrialsHitting(os[..|os| - 1], h)
            + (if h in os[|os| - 1] && os[|os| - 1][h] == 1 then {|os| - 1} else {})
  {
  }

  /** The list for hop h is as long as the number of trials that observed h. */
  lemma {:induction false} ObservationCount(os: seq<TrialOutcome>, h: nat)
    ensures |Lookup(Accumulate(os), h)| == |TrialsObserving(os, h)|
  {
    if os == [] {
      assert TrialsObserving(os, h) == {};
    } else {
      var init := os[..|os| - 1];
      ObservationCount(init, h);
      TrialsObservingSnoc(os, h);
      assert |os| - 1 !in TrialsObserving(init, h);
    }
  }

  /** Sum of a list of outcomes (`np.mean` numerator). */
  function Sum(s: seq<nat>): nat
  {
    if s == [] then 0 else Sum(s[..|s| - 1]) + s[|s| - 1]
  }

  /** For 0/1 outcomes, the sum of the list for hop h counts the trials that hit at hop h. */
  lemma {:induction false} HitCount(os: seq<TrialOutcome>, h: nat)
    requires forall i :: 0 <= i < |os| ==> AllBits(os[i])
    ensures Sum(Lookup(Accumulate(os), h)) == |TrialsHitting(os, h)|
  {
    if os == [] {
      assert TrialsHitting(os, h) == {};
    } else {
      var init, last := os[..|os| - 1], os[|os| - 1];
      HitCount(init, h);
      TrialsObservingSnoc(os, h);
      assert |os| - 1 !in TrialsHitting(init, h);
      var s := Lookup(Accumulate(os), h);
      if h in last {
        assert s[..|s| - 1] == Lookup(Accumulate(init), h);
        assert last[h] <= 1;
      }
    }
  }

  /** Every recorded outcome is 0 or 1, and every list is non-empty, when every trial's outcomes are. */
  lemma {:induction false} AccumulateBits(os: seq<TrialOutcome>)
    requires forall i :: 0 <= i < |os| ==> AllBits(os[i])
    ensures forall h, k :: h in Accumulate(os) && 0 <= k < |Accumulate(os)[h]| ==> Accumulate(os)[h][k] <= 1
    ensures forall h :: h in Accumulate(os) ==> |Accumulate(os)[h]| > 0
  {
    if os != [] {
      var init, last := os[..|os| - 1], os[|os| - 1];
      AccumulateBits(init);
      assert AllBits(last);
    }
  }

  /** If every trial observed a prefix 0 .. L-1 of the hops, so does the aggregate, and a farther hop
      never has more recorded outcomes than a nearer one. */
  lemma {:induction false} AccumulateContiguous(os: seq<TrialOutcome>)
    requires forall i :: 0 <= i < |os| ==> Contiguous(os[i])
    ensures Contiguous(Accumulate(os))
    ensures forall g: nat, h: nat :: g <= h && h in Accumulate(os) ==> |Accumulate(os)[h]| <= |Accumulate(os)[g]|
  {
    if os != [] {
      var init, last := os[..|os| - 1], os[|os| - 1];
      AccumulateContiguous(init);
      assert Contiguous(last);
      var agg, agg0 := Accumulate(os), Accumulate(init);
      forall g: nat, h: nat | g <= h && h in agg
        ensures g in agg && |agg[h]| <= |agg[g]|
      {
        if h in last {
          assert g in last;
        } else {
          assert h in agg0;
        }
      }
    }
  }

  // ---------------------------------------------------------------------------------------------
  // Reduction (`postprocess`)

  /** A mean hit rate as the exact pair (hits, trials); `np.mean` divides the first by the second. */
  datatype HitRate = HitRate(hits: nat, trials: nat)
  {
    /** The rate as a rational number. An empty list (np.mean gives NaN) has no value. */
    function Value(): real
      requires trials > 0
    {
      hits as real / trials as real
    }
  }

  /** A rate with no more hits than trials lies in [0, 1]. */
  lemma RateInUnitInterval(rate: HitRate)
    requires 0 < rate.trials && rate.hits <= rate.trials
    ensures 0.0 <= rate.Value() <= 1.0
  {
    var a, b := rate.hits as real, rate.trials as real;
    assert a / b * b == a;
  }

  /** The mean of one hop's outcomes. */
  function Mean(s: seq<nat>): HitRate
  {
    HitRate(Sum(s), |s|)
  }

  /** What `postprocess` returns: the hops and, index by index, their hit rates. */
  datatype Summary = Summary(hops: seq<nat>, hitRates: seq<HitRate>)

  predicate StrictlyIncreasing(s: seq<nat>)
  {
    forall i, j :: 0 <= i < j < |s| ==> s[i] < s[j]
  }

  predicate IsMinimum(m: nat, s: set<nat>)
  {
    m in s && forall x :: x in s ==> m <= x
  }

  lemma {:induction false} MinimumExists(s: set<nat>)
    requires s != {}
    ensures exists m :: IsMinimum(m, s)
    decreases |s|
  {
    var y :| y in s;
    if s == {y} {
      assert IsMinimum(y, s);
    } else {
      var t := s - {y};
      MinimumExists(t);
      var m :| IsMinimum(m, t);
      var k := if y < m then y else m;
      forall x | x in s ensures k <= x {
        if x != y { assert x in t; }
      }
      assert IsMinimum(k, s);
    }
  }

  /** The smallest element of a non-empty set of hops. */
  function Minimum(s: set<nat>): (m: nat)
    requires s != {}
    ensures IsMinimum(m, s)
  {
    MinimumExists(s);
    var m :| IsMinimum(m, s);
    m
  }

  /** `sorted(list(keys))`: the keys in ascending order, each once. */
  function SortedHops(s: set<nat>): (r: seq<nat>)
    ensures |r| == |s|
    ensures forall h :: h in r <==> h in s
    ensures StrictlyIncreasing(r)
    decreases |s|
  {
    if s == {} then []
    else
      var m := Minimum(s);
      var rest := SortedHops(s - {m});
      PrependSmaller(m, rest);
      [m] + rest
  }

  lemma PrependSmaller(m: nat, rest: seq<nat>)
    requires StrictlyIncreasing(rest)
    requires forall h :: h in rest ==> m < h
    ensures StrictlyIncreasing([m] + rest)
  {
    forall i, j | 0 <= i < j < |[m] + rest| ensures ([m] + rest)[i] < ([m] + rest)[j] {
      assert ([m] + rest)[j] == rest[j - 1];
      if i > 0 {
        assert ([m] + rest)[i] == rest[i - 1];
      } else {
        assert rest[j - 1] in rest;
      }
    }
  }

  /** `postprocess`: the sorted hops, and for each of them the mean of its outcomes. */
  function Postprocess(results: Aggregate): (r: Summary)
    ensures StrictlyIncreasing(r.hops)
    ensures forall h :: h in r.hops <==> h in results
    ensures |r.hitRates| == |r.hops|
    ensures forall i :: 0 <= i < |r.hops| ==>
      r.hitRates[i].trials == |results[r.hops[i]]| && r.hitRates[i].hits == Sum(results[r.hops[i]])
  {
    var hops := SortedHops(results.Keys);
    Summary(hops, seq(|hops|, i requires 0 <= i < |hops| => Mean(results[hops[i]])))
  }

  lemma {:induction false} SumOfBits(s: seq<nat>)
    requires forall k :: 0 <= k < |s| ==> s[k] <= 1
    ensures Sum(s) <= |s|
  {
    if s != [] {
      SumOfBits(s[..|s| - 1]);
    }
  }

  /** `rate` is the hit rate of hop `h` over the trials `os`: it counts the trials that observed the
      hop (at least one) and the trials among them that hit, and so lies in [0, 1]. */
  predicate RateOfHop(os: seq<TrialOutcome>, h: nat, rate: HitRate)
  {
    && rate.trials == |TrialsObserving(os, h)| > 0
    && rate.hits == |TrialsHitting(os, h)|
    && 0.0 <= rate.Value() <= 1.0
  }

  lemma HopRate(os: seq<TrialOutcome>, h: nat)
    requires forall i :: 0 <= i < |os| ==> AllBits(os[i])
    requires h in Accumulate(os)
    ensures RateOfHop(os, h, Mean(Accumulate(os)[h]))
  {
    var s := Accumulate(os)[h];
    AccumulateBits(os);
    ObservationCount(os, h);
    HitCount(os, h);
    SumOfBits(s);
    RateInUnitInterval(Mean(s));
  }

  /** Over 0/1 trials, `postprocess` reports exactly the hops some trial observed, each with its
      hit rate over the trials that observed it. */
  lemma SummaryOfTrials(os: seq<TrialOutcome>)
    requires forall i :: 0 <= i < |os| ==> AllBits(os[i])
    ensures var r := Postprocess(Accumulate(os));
      && (forall h :: h in r.hops <==> ObservedBy(os, h))
      && forall k :: 0 <= k < |r.hops| ==> RateOfHop(os, r.hops[k], r.hitRates[k])
  {
    var agg := Accumulate(os);
    var r := Postprocess(agg);
    forall h ensures h in r.hops <==> ObservedBy(os, h) {
      AccumulateKeys(os, h);
    }
    forall k | 0 <= k < |r.hops| ensures RateOfHop(os, r.hops[k], r.hitRates[k]) {
      HopRate(os, r.hops[k]);
    }
  }

  /** Every number below a member is a member. */
  predicate ClosedBelow(s: seq<nat>)
  {
    forall g: nat, h: nat :: h in s && g <= h ==> g in s
  }

  /** A strictly increasing list of hops whose members are closed downwards is 0, 1, 2, ... */

  lemma {:induction false} IncreasingClosedIsRange(r: seq<nat>, n: nat)
    requires StrictlyIncreasing(r)
    requires ClosedBelow(r)
    requires n <= |r|
    ensures forall i :: 0 <= i < n ==> r[i] == i
  {
    if n > 0 {
      IncreasingClosedIsRange(r, n - 1);
      var i := n - 1;
      if i == 0 {
        assert r[0] in r;
        assert 0 in r;
        var j :| 0 <= j < |r| && r[j] == 0;
        assert j == 0;
      } else {
        assert r[i] > r[i - 1] == i - 1;
        assert r[i] in r;
        assert i in r;
        var j :| 0 <= j < |r| && r[j] == i;
        assert j >= i;
        assert j == i;
      }
    }
  }

  /** The reduction of an aggregate whose keys are 0 .. L-1 reports exactly the hops 0, 1, ..., L-1. */
  lemma PostprocessContiguous(agg: Aggregate)
    requires Contiguous(agg)
    ensures forall k :: 0 <= k < |Postprocess(agg).hops| ==> Postprocess(agg).hops[k] == k
  {
    var r := Postprocess(agg);
    forall g: nat, h: nat | h in r.hops && g <= h ensures g in r.hops {
      assert h in agg;
    }
    assert ClosedBelow(r.hops);
    IncreasingClosedIsRange(r.hops, |r.hops|);
  }

  /** When every trial observed a prefix of the hops, the reported hops are exactly 0, 1, ..., and
      the number of trials behind each rate does not grow with the hop. */
  lemma SummaryOfPrefixTrials(os: seq<TrialOutcome>)
    requires forall i :: 0 <= i < |os| ==> Contiguous(os[i])
    ensures var r := Postprocess(Accumulate(os));
      && (forall k :: 0 <= k < |r.hops| ==> r.hops[k] == k)
      && forall j, k :: 0 <= j <= k < |r.hops| ==> r.hitRates[k].trials <= r.hitRates[j].trials
  {
    var agg := Accumulate(os);
    AccumulateContiguous(os);
    PostprocessContiguous(agg);
    var r := Postprocess(agg);
    forall j, k | 0 <= j <= k < |r.hops| ensures r.hitRates[k].trials <= r.hitRates[j].trials {
      var g, h := r.hops[j], r.hops[k];
      assert g == j && h == k;
      assert h in r.hops;
      assert |agg[h]| <= |agg[g]|;
    }
  }

  /** Over 0/1 trials that each observed a prefix of the hops, `postprocess` reports the hops
      0, 1, ... that some trial observed, each with its hit rate over the trials that observed it,
      and the number of those trials does not grow with the hop. */
  lemma PrefixReport(os: seq<TrialOutcome>)
    requires forall i :: 0 <= i < |os| ==> AllBits(os[i]) && Contiguous(os[i])
    ensures var r := Postprocess(Accumulate(os));
      && (forall h :: h in r.hops <==> ObservedBy(os, h))
      && (forall k :: 0 <= k < |r.hops| ==> r.hops[k] == k && RateOfHop(os, k, r.hitRates[k]))
      && (forall j, k :: 0 <= j <= k < |r.hops| ==> r.hitRates[k].trials <= r.hitRates[j].trials)
  {
    SummaryOfTrials(os);
    SummaryOfPrefixTrials(os);
  }
}
