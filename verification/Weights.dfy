/** Weighted mappings (`validateAccountConfig` of src/account_claims.cpp): running sums per
cluster, tested at each step for named clusters and once at the end for the default one. */
module Weights {
  import opened Types
  import opened Findings
  import opened Bits

  /** A weight of 0 counts as 100. */
  function Effective(wm: WeightedMapping): nat {
    if wm.weight == 0 then 100 else wm.weight
  }

  /** The sum of the effective weights of a cluster. */
  function Sum(wms: seq<WeightedMapping>, cluster: string): nat {
    if wms == [] then 0
    else
      var n := |wms| - 1;
      Sum(wms[..n], cluster) + if wms[n].cluster == cluster then Effective(wms[n]) else 0
  }

  /** The running total as the source keeps it, in 32 bits. */
  function Total(wms: seq<WeightedMapping>, cluster: string): nat {
    Sum(wms, cluster) % WORD32
  }

  /** What the loop over the destinations reports. */
  function StepFindings(wms: seq<WeightedMapping>): seq<Finding> {
    if wms == [] then []
    else
      var wm := wms[|wms| - 1];
      StepFindings(wms[..|wms| - 1])
      + (if Effective(wm) > 100 then [WeightTooBig(Effective(wm))] else [])
      + (if wm.cluster != "" && Total(wms, wm.cluster) > 100 then [ClusterOver100(wm.cluster)] else [])
  }

  function WeightFindings(wms: seq<WeightedMapping>): seq<Finding> {
    StepFindings(wms) + if Total(wms, "") > 100 then [DefaultOver100] else []
  }

  /** The running totals after a prefix of the destinations. */
  ghost predicate Totals(done: seq<WeightedMapping>, perCluster: map<string, nat>, total: nat) {
    && total == Total(done, "")
    && forall c :: c != "" ==> TotalIn(perCluster, c) == Total(done, c)
  }

  function TotalIn(perCluster: map<string, nat>, c: string): nat {
    if c in perCluster then perCluster[c] else 0
  }

  lemma SumNext(done: seq<WeightedMapping>, wm: WeightedMapping, cluster: string)
    ensures Sum(done + [wm], cluster)
         == Sum(done, cluster) + if wm.cluster == cluster then Effective(wm) else 0
  {
    assert (done + [wm])[..|done|] == done;
  }

  lemma TotalNext(done: seq<WeightedMapping>, wm: WeightedMapping, cluster: string)
    ensures Total(done + [wm], cluster)
         == if wm.cluster == cluster then (Total(done, cluster) + Effective(wm)) % WORD32
            else Total(done, cluster)
  {
    SumNext(done, wm, cluster);
  }

  /** Adding a destination of the default cluster to the running totals. */
  lemma DefaultNext(done: seq<WeightedMapping>, wm: WeightedMapping, perCluster: map<string, nat>, total: nat)
    requires Totals(done, perCluster, total) && wm.cluster == ""
    ensures Totals(done + [wm], perCluster, (total + Effective(wm)) % WORD32)
  {
    TotalNext(done, wm, "");
    forall c | c != ""
      ensures TotalIn(perCluster, c) == Total(done + [wm], c)
    {
      TotalNext(done, wm, c);
    }
  }

  /** Adding a destination of a named cluster to the running totals. */
  lemma NamedNext(done: seq<WeightedMapping>, wm: WeightedMapping, perCluster: map<string, nat>,
                  total: nat, t: nat)
    requires Totals(done, perCluster, total) && wm.cluster != ""
    requires t == (TotalIn(perCluster, wm.cluster) + Effective(wm)) % WORD32
    ensures t == Total(done + [wm], wm.cluster)
    ensures Totals(done + [wm], perCluster[wm.cluster := t], total)
  {
    TotalNext(done, wm, "");
    forall c | c != ""
      ensures TotalIn(perCluster[wm.cluster := t], c) == Total(done + [wm], c)
    {
      TotalNext(done, wm, c);
    }
  }

  lemma StepNext(done: seq<WeightedMapping>, wm: WeightedMapping)
    ensures StepFindings(done + [wm])
         == StepFindings(done)
          + (if Effective(wm) > 100 then [WeightTooBig(Effective(wm))] else [])
          + (if wm.cluster != "" && Total(done + [wm], wm.cluster) > 100
             then [ClusterOver100(wm.cluster)] else [])
  {
    assert (done + [wm])[..|done|] == done;
  }

  /** One turn of the loop. */
  method AddDestination(ghost done: seq<WeightedMapping>, wm: WeightedMapping,
                        perCluster: map<string, nat>, total: nat, vr: ValidationResults,
                        ghost before: seq<Issue>)
    returns (perClusterNow: map<string, nat>, totalNow: nat)
    requires Totals(done, perCluster, total) && vr.issues == before + Errors(StepFindings(done))
    modifies vr
    ensures Totals(done + [wm], perClusterNow, totalNow)
    ensures vr.issues == before + Errors(StepFindings(done + [wm]))
  {
    StepNext(done, wm);
    var weight := if wm.weight == 0 then 100 else wm.weight;
    ghost var found := AddErrorIf(weight > 100, WeightTooBig(weight), vr, before, StepFindings(done));
    if wm.cluster != "" {
      var t := (TotalIn(perCluster, wm.cluster) + weight) % WORD32;
      NamedNext(done, wm, perCluster, total, t);
      perClusterNow, totalNow := perCluster[wm.cluster := t], total;
      found := AddErrorIf(t > 100, ClusterOver100(wm.cluster), vr, before, found);
    } else {
      DefaultNext(done, wm, perCluster, total);
      perClusterNow, totalNow := perCluster, (total + weight) % WORD32;
    }
  }

  /** The check of the source for the destinations of one mapping. */
  method ValidateWeights(wms: seq<WeightedMapping>, vr: ValidationResults)
    modifies vr
    ensures vr.issues == old(vr.issues) + Errors(WeightFindings(wms))
  {
    var perCluster: map<string, nat> := map[];
    var total: nat := 0;
    for n := 0 to |wms|
      invariant vr.issues == old(vr.issues) + Errors(StepFindings(wms[..n]))
      invariant Totals(wms[..n], perCluster, total)
    {
      assert wms[..n + 1] == wms[..n] + [wms[n]];
      perCluster, total := AddDestination(wms[..n], wms[n], perCluster, total, vr, old(vr.issues));
    }
    assert wms[..|wms|] == wms;
    ghost var found := AddErrorIf(total > 100, DefaultOver100, vr, old(vr.issues), StepFindings(wms));
  }

  // ---------------- what silence means ----------------

  predicate Within(wms: seq<WeightedMapping>, cluster: string) {
    Sum(wms, cluster) <= 100
  }

  lemma {:induction false} SumMonotone(wms: seq<WeightedMapping>, n: nat, cluster: string)
    requires n <= |wms|
    ensures Sum(wms[..n], cluster) <= Sum(wms, cluster)
    decreases |wms|
  {
    if n < |wms| {
      var init := wms[..|wms| - 1];
      SumMonotone(init, n, cluster);
      assert init[..n] == wms[..n];
    } else {
      assert wms[..n] == wms;
    }
  }

  lemma {:induction false} WeightBelowSum(wms: seq<WeightedMapping>, i: nat)
    requires i < |wms|
    ensures Effective(wms[i]) <= Sum(wms, wms[i].cluster)
  {
    var prefix := wms[..i + 1];
    assert prefix[..i] == wms[..i];
    SumMonotone(wms, i + 1, wms[i].cluster);
  }

  /** The next destination is reported on its own account. */
  predicate NextSilent(init: seq<WeightedMapping>, wm: WeightedMapping) {
    Effective(wm) <= 100 && (wm.cluster != "" ==> Total(init + [wm], wm.cluster) <= 100)
  }

  lemma StepSilent(init: seq<WeightedMapping>, wm: WeightedMapping)
    ensures StepFindings(init + [wm]) == [] <==> StepFindings(init) == [] && NextSilent(init, wm)
  {
    assert (init + [wm])[..|init|] == init;
  }

  /** A named cluster within its limit stays so exactly if the next step is silent. */
  lemma NextWithin(init: seq<WeightedMapping>, wm: WeightedMapping)
    requires forall c :: c != "" ==> Within(init, c)
    ensures NextSilent(init, wm) <==>
      Effective(wm) <= 100 && forall c :: c != "" ==> Within(init + [wm], c)
  {
    forall c | c != ""
      ensures Within(init + [wm], c) <==> wm.cluster == c ==> Sum(init, c) + Effective(wm) <= 100
    {
      assert Within(init, c);
      SumNext(init, wm, c);
    }
    if wm.cluster != "" {
      assert Within(init, wm.cluster);
      SumNext(init, wm, wm.cluster);
      assert Total(init + [wm], wm.cluster) == Sum(init + [wm], wm.cluster);
    }
  }

  /** The loop is silent if and only if every named cluster sums to at most 100 and no weight of
      the default cluster is above 100.  Running sums only grow, and a sum is at most 100 before
      it is tested, so no wrap can hide an excess. */
  lemma {:induction false} StepFindingsExactly(wms: seq<WeightedMapping>)
    ensures StepFindings(wms) == [] <==>
      && (forall c :: c != "" ==> Within(wms, c))
      && (forall i :: 0 <= i < |wms| ==> Effective(wms[i]) <= 100)
  {
    if wms != [] {
      var n := |wms| - 1;
      var wm, init := wms[n], wms[..n];
      assert wms == init + [wm];
      StepFindingsExactly(init);
      StepSilent(init, wm);
      assert forall i :: 0 <= i < n ==> init[i] == wms[i];
      forall c
        ensures Within(wms, c) ==> Within(init, c)
      {
        SumNext(init, wm, c);
      }
      if forall c :: c != "" ==> Within(init, c) {
        NextWithin(init, wm);
      }
    }
  }

  /** A mapping gets no weight error if and only if every cluster sums to at most 100, the
      default one as its 32-bit total. */
  lemma WeightFindingsExactly(wms: seq<WeightedMapping>)
    ensures WeightFindings(wms) == [] <==>
      && (forall c :: c != "" ==> Within(wms, c))
      && (forall i :: 0 <= i < |wms| ==> Effective(wms[i]) <= 100)
      && Total(wms, "") <= 100
  {
    StepFindingsExactly(wms);
  }

  lemma {:induction false} SumBound(wms: seq<WeightedMapping>, cluster: string)
    requires forall i :: 0 <= i < |wms| ==> Effective(wms[i]) <= 100
    ensures Sum(wms, cluster) <= 100 * |wms|
  {
    if wms != [] {
      SumBound(wms[..|wms| - 1], cluster);
    }
  }

  /** The longest list whose weights, each at most 100, cannot wrap the default total. */
  const SHORT_LIST := 42949672

  /** Up to that length, silence means that every cluster sums to at most 100; one destination more
      and it need not (WrappedTotalAccepted). */
  lemma ShortListExactly(wms: seq<WeightedMapping>)
    requires |wms| <= SHORT_LIST
    ensures WeightFindings(wms) == [] <==> forall c :: Within(wms, c)
  {
    WeightFindingsExactly(wms);
    if WeightFindings(wms) == [] {
      SumBound(wms, "");
      assert Total(wms, "") == Sum(wms, "");
    }
    if forall c :: Within(wms, c) {
      assert Within(wms, "");
      forall i | 0 <= i < |wms|
        ensures Effective(wms[i]) <= 100
      {
        WeightBelowSum(wms, i);
        assert Within(wms, wms[i].cluster);
      }
    }
  }

  /** The number of destinations of a cluster. */
  function Destinations(wms: seq<WeightedMapping>, cluster: string): nat {
    if wms == [] then 0
    else Destinations(wms[..|wms| - 1], cluster) + if wms[|wms| - 1].cluster == cluster then 1 else 0
  }

  lemma {:induction false} DestinationsBelowSum(wms: seq<WeightedMapping>, cluster: string)
    ensures Destinations(wms, cluster) <= Sum(wms, cluster)
  {
    if wms != [] {
      DestinationsBelowSum(wms[..|wms| - 1], cluster);
    }
  }

  /** So an accepted cluster has at most 100 destinations, a named one whatever the length. */
  lemma AtMost100Destinations(wms: seq<WeightedMapping>, cluster: string)
    requires WeightFindings(wms) == []
    requires cluster != "" || |wms| <= SHORT_LIST
    ensures Destinations(wms, cluster) <= 100
  {
    WeightFindingsExactly(wms);
    DestinationsBelowSum(wms, cluster);
    if |wms| <= SHORT_LIST {
      ShortListExactly(wms);
    }
    assert Within(wms, cluster);
  }

  // ---------------- where the default total wraps ----------------

  function Repeated(n: nat): (wms: seq<WeightedMapping>)
    ensures |wms| == n && forall i :: 0 <= i < n ==> wms[i] == WeightedMapping("to", 100, "")
  {
    seq(n, _ => WeightedMapping("to", 100, ""))
  }

  lemma {:induction false} RepeatedSum(n: nat, cluster: string)
    ensures Sum(Repeated(n), cluster) == if cluster == "" then 100 * n else 0
  {
    if n > 0 {
      RepeatedSum(n - 1, cluster);
      assert Repeated(n)[..n - 1] == Repeated(n - 1);
    }
  }

  /** One destination more than that, each of weight 100 in the default cluster, sum to 2^32 + 4: the
      total is 4 and nothing is reported. */
  lemma WrappedTotalAccepted()
    ensures WeightFindings(Repeated(SHORT_LIST + 1)) == [] && !Within(Repeated(SHORT_LIST + 1), "")
  {
    var wms := Repeated(SHORT_LIST + 1);
    forall c
      ensures Sum(wms, c) == if c == "" then 4294967300 else 0
    {
      RepeatedSum(SHORT_LIST + 1, c);
    }
    WeightFindingsExactly(wms);
  }

  // ---------------- destinations without a weight ----------------

  /** The sum of the weights as they are given. */
  function GivenSum(wms: seq<WeightedMapping>, cluster: string): nat {
    if wms == [] then 0
    else GivenSum(wms[1..], cluster) + if wms[0].cluster == cluster then wms[0].weight else 0
  }

  /** The number of destinations of a cluster that have no weight. */
  function Unweighted(wms: seq<WeightedMapping>, cluster: string): nat {
    if wms == [] then 0
    else Unweighted(wms[1..], cluster) + if wms[0].cluster == cluster && wms[0].weight == 0 then 1 else 0
  }

  lemma {:induction false} GivenNext(wms: seq<WeightedMapping>, wm: WeightedMapping, cluster: string)
    ensures GivenSum(wms + [wm], cluster) == GivenSum(wms, cluster) + if wm.cluster == cluster then wm.weight else 0
    ensures Unweighted(wms + [wm], cluster)
         == Unweighted(wms, cluster) + if wm.cluster == cluster && wm.weight == 0 then 1 else 0
  {
    if wms == [] {
      assert [] + [wm] == [wm];
    } else {
      GivenNext(wms[1..], wm, cluster);
      assert (wms + [wm])[1..] == wms[1..] + [wm];
    }
  }

  /** What is summed up are the weights as given, and 100 for every destination without one. */
  lemma {:induction false} SumExactly(wms: seq<WeightedMapping>, cluster: string)
    ensures Sum(wms, cluster) == GivenSum(wms, cluster) + 100 * Unweighted(wms, cluster)
  {
    if wms != [] {
      var init, wm := wms[..|wms| - 1], wms[|wms| - 1];
      SumExactly(init, cluster);
      GivenNext(init, wm, cluster);
      assert wms == init + [wm];
    }
  }

  /** In an accepted cluster at most one destination has no weight, and then no other has one. */
  lemma UnweightedAlone(wms: seq<WeightedMapping>, cluster: string)
    requires WeightFindings(wms) == []
    requires cluster != "" || |wms| <= SHORT_LIST
    ensures GivenSum(wms, cluster) + 100 * Unweighted(wms, cluster) <= 100
    ensures Unweighted(wms, cluster) <= 1
    ensures Unweighted(wms, cluster) == 1 ==> GivenSum(wms, cluster) == 0
  {
    WeightFindingsExactly(wms);
    if |wms| <= SHORT_LIST {
      ShortListExactly(wms);
    }
    assert Within(wms, cluster);
    SumExactly(wms, cluster);
  }

  /** The total of the cluster, in 32 bits. */
  function GivenTotal(wms: seq<WeightedMapping>, cluster: string): nat {
    (GivenSum(wms, cluster) + 100 * Unweighted(wms, cluster)) % 0x1_0000_0000
  }

  lemma TotalExactly(wms: seq<WeightedMapping>, cluster: string)
    ensures Total(wms, cluster) == GivenTotal(wms, cluster)
  {
    SumExactly(wms, cluster);
  }

  /** What a destination is reported for, when the total of its cluster has become `total`. */
  predicate ReportedFor(wm: WeightedMapping, total: nat, f: Finding) {
    || (wm.weight > 100 && f == WeightTooBig(wm.weight))
    || (wm.cluster != "" && total > 100 && f == ClusterOver100(wm.cluster))
  }

  lemma StepContents(wm: WeightedMapping, total: nat, before: seq<Finding>, found: seq<Finding>, f: Finding)
    requires found == before
      + (if Effective(wm) > 100 then [WeightTooBig(Effective(wm))] else [])
      + (if wm.cluster != "" && total > 100 then [ClusterOver100(wm.cluster)] else [])
    ensures f in found <==> f in before || ReportedFor(wm, total, f)
  {
  }

  lemma LastReports(init: seq<WeightedMapping>, wm: WeightedMapping, f: Finding)
    ensures f in StepFindings(init + [wm]) <==>
      f in StepFindings(init) || ReportedFor(wm, GivenTotal(init + [wm], wm.cluster), f)
  {
    TotalExactly(init + [wm], wm.cluster);
    StepNext(init, wm);
    StepContents(wm, Total(init + [wm], wm.cluster), StepFindings(init), StepFindings(init + [wm]), f);
  }

  /** Destination `i` is reported for `f`. */
  ghost predicate StepReports(wms: seq<WeightedMapping>, i: nat, f: Finding)
    requires i < |wms|
  {
    ReportedFor(wms[i], GivenTotal(wms[..i + 1], wms[i].cluster), f)
  }

  lemma SameReports(init: seq<WeightedMapping>, wm: WeightedMapping, i: nat, f: Finding)
    requires i <= |init|
    ensures StepReports(init + [wm], i, f)
       <==> if i < |init| then StepReports(init, i, f) else ReportedFor(wm, GivenTotal(init + [wm], wm.cluster), f)
  {
    if i < |init| {
      assert (init + [wm])[..i + 1] == init[..i + 1];
    } else {
      assert (init + [wm])[..i + 1] == init + [wm];
    }
  }

  /** The loop reports every weight above 100, and the named cluster of every destination with which
      its total, kept in 32 bits, is above 100. */
  lemma {:induction false} StepFindingsContents(wms: seq<WeightedMapping>, f: Finding)
    ensures f in StepFindings(wms) <==> exists i :: 0 <= i < |wms| && StepReports(wms, i, f)
  {
    if wms != [] {
      var n := |wms| - 1;
      var init, wm := wms[..n], wms[n];
      assert wms == init + [wm];
      StepFindingsContents(init, f);
      LastReports(init, wm, f);
      forall i | 0 <= i <= n
        ensures StepReports(wms, i, f)
          <==> if i < n then StepReports(init, i, f) else ReportedFor(wm, GivenTotal(wms, wm.cluster), f)
      {
        SameReports(init, wm, i, f);
      }
      if i :| 0 <= i < n && StepReports(init, i, f) {
        assert StepReports(wms, i, f);
      }
      assert StepReports(wms, n, f) <==> ReportedFor(wm, GivenTotal(wms, wm.cluster), f);
    }
  }

  /** The weights of a mapping, as they are given and 100 where there is none: none above 100, every
      named cluster at most 100, and the default one as its 32-bit total. */
  ghost predicate Balanced(wms: seq<WeightedMapping>) {
    && (forall i :: 0 <= i < |wms| ==> wms[i].weight <= 100)
    && (forall c :: c != "" ==> GivenSum(wms, c) + 100 * Unweighted(wms, c) <= 100)
    && (GivenSum(wms, "") + 100 * Unweighted(wms, "")) % 0x1_0000_0000 <= 100
  }

  /** A mapping gets no weight error if and only if it is balanced. */
  lemma BalancedExactly(wms: seq<WeightedMapping>)
    ensures WeightFindings(wms) == [] <==> Balanced(wms)
  {
    WeightFindingsExactly(wms);
    forall c
      ensures Within(wms, c) <==> GivenSum(wms, c) + 100 * Unweighted(wms, c) <= 100
    {
      SumExactly(wms, c);
    }
    TotalExactly(wms, "");
  }
}
