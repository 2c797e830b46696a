/**
  What the telemetry rollup computes, stated without the fold: each cluster's record is a
  summary of that cluster's own hits, in order, and each cloud record a summary of the
  cluster's hits with that cloud name.
*/
module HighLevelStatsProperties {
  import opened Wrappers
  import opened Histogram
  import opened HighLevelStats

  /** The value of an optional field as a sequence of zero or one element; `''` counts as absent. */
  function Present(o: Option<string>): seq<string>
  {
    if Truthy(o) then [o.value] else []
  }

  /** Hit `h` is counted under cluster uuid `u`: it carries `u` and `u` is truthy. */
  predicate CountedUnder(h: Hit, u: string)
  {
    Truthy(h.clusterUuid) && h.clusterUuid.value == u
  }

  /** The hits of `hits` counted under cluster uuid `u`, in order. */
  function ClusterHits(hits: seq<Hit>, u: string): seq<Hit>
  {
    if hits == [] then []
    else ClusterHits(hits[..|hits| - 1], u) + (if CountedUnder(hits[|hits| - 1], u) then [hits[|hits| - 1]] else [])
  }

  /** The truthy cluster uuids carried by some hit. */
  function Uuids(hits: seq<Hit>): set<string>
  {
    set h | h in hits && Truthy(h.clusterUuid) :: h.clusterUuid.value
  }

  /** The versions reported by `hs`, in order, skipping hits without one. */
  function Versions(hs: seq<Hit>, product: string): seq<string>
  {
    if hs == [] then [] else Versions(hs[..|hs| - 1], product) + Present(VersionOf(hs[|hs| - 1], product))
  }

  /** The cloud data of `hs`, in order, skipping hits without any. */
  function CloudsIn(hs: seq<Hit>, product: string): seq<Cloud>
  {
    if hs == [] then []
    else
      var c := CloudOf(hs[|hs| - 1], product);
      CloudsIn(hs[..|hs| - 1], product) + (if c.Some? then [c.value] else [])
  }

  function Names(cs: seq<Cloud>): seq<string>
  {
    if cs == [] then [] else Names(cs[..|cs| - 1]) + [cs[|cs| - 1].name]
  }

  /** The clouds of `cs` named `n`, in order. */
  function Named(cs: seq<Cloud>, n: string): seq<Cloud>
  {
    if cs == [] then [] else Named(cs[..|cs| - 1], n) + (if cs[|cs| - 1].name == n then [cs[|cs| - 1]] else [])
  }

  /** The distinct truthy VM ids present in `cs`. */
  function IdsOf(cs: seq<Cloud>): set<string>
  {
    set c | c in cs && Truthy(c.id) :: c.id.value
  }

  function VmTypes(cs: seq<Cloud>): seq<string>
  {
    if cs == [] then [] else VmTypes(cs[..|cs| - 1]) + Present(cs[|cs| - 1].vmType)
  }

  function Regions(cs: seq<Cloud>): seq<string>
  {
    if cs == [] then [] else Regions(cs[..|cs| - 1]) + Present(cs[|cs| - 1].region)
  }

  function Zones(cs: seq<Cloud>): seq<string>
  {
    if cs == [] then [] else Zones(cs[..|cs| - 1]) + Present(cs[|cs| - 1].zone)
  }

  /** The record of cloud name `n` whose hits are `ds`. */
  function CloudSummary(n: string, ds: seq<Cloud>): CloudAcc
  {
    CloudAcc(n, |ds|, IdsOf(ds), Tally(VmTypes(ds)), Tally(Regions(ds)), Tally(Zones(ds)))
  }

  /** One record per name of `ns`, each summarising the clouds of `cs` with that name. */
  function Summaries(ns: seq<string>, cs: seq<Cloud>): seq<CloudAcc>
  {
    if ns == [] then [] else [CloudSummary(ns[0], Named(cs, ns[0]))] + Summaries(ns[1..], cs)
  }

  /** The clouds `cs` grouped by name, one record per name in first-seen order. */
  function Grouped(cs: seq<Cloud>): seq<CloudAcc>
  {
    Summaries(Keys(Tally(Names(cs))), cs)
  }

  /** The record of a cluster whose hits are `hs`: clouds grouped by name in first-seen order. */
  function ClusterSummary(hs: seq<Hit>, product: string): ClusterAcc
  {
    ClusterAcc(|hs|, Tally(Versions(hs, product)), Grouped(CloudsIn(hs, product)))
  }

  // ----- one step of the fold -----

  lemma TallyPresent(s: seq<string>, o: Option<string>)
    ensures Tally(s + Present(o)) == IncrementIf(Tally(s), o)
  {
    if Truthy(o) {
      assert (s + [o.value])[..|s|] == s;
    } else {
      assert s + [] == s;
    }
  }

  lemma CloudStepFields(ds: seq<Cloud>, c: Cloud)
    ensures VmTypes(ds + [c]) == VmTypes(ds) + Present(c.vmType)
    ensures Regions(ds + [c]) == Regions(ds) + Present(c.region)
    ensures Zones(ds + [c]) == Zones(ds) + Present(c.zone)
    ensures IdsOf(ds + [c]) == IdsOf(ds) + (if Truthy(c.id) then {c.id.value} else {})
    ensures Names(ds + [c]) == Names(ds) + [c.name]
    ensures forall n :: Named(ds + [c], n) == Named(ds, n) + (if c.name == n then [c] else [])
  {
    assert (ds + [c])[..|ds|] == ds;
  }

  /** Counting one more hit of a cloud extends the summary of that name by that hit. */
  lemma CountCloudStep(n: string, ds: seq<Cloud>, c: Cloud)
    ensures CountCloud(CloudSummary(n, ds), c) == CloudSummary(n, ds + [c])
  {
    CloudStepFields(ds, c);
    TallyPresent(VmTypes(ds), c.vmType);
    TallyPresent(Regions(ds), c.region);
    TallyPresent(Zones(ds), c.zone);
  }

  lemma {:induction false} NamedEmpty(cs: seq<Cloud>, n: string)
    requires n !in Names(cs)
    ensures Named(cs, n) == []
  {
    if cs != [] {
      var init := cs[..|cs| - 1];
      assert Names(cs) == Names(init) + [cs[|cs| - 1].name];
      assert n !in Names(init) && cs[|cs| - 1].name != n;
      NamedEmpty(init, n);
    }
  }

  lemma {:induction false} SummariesUnchanged(ns: seq<string>, cs: seq<Cloud>, c: Cloud)
    requires c.name !in ns
    ensures Summaries(ns, cs + [c]) == Summaries(ns, cs)
  {
    if ns != [] {
      assert ns[0] in ns;
      CloudStepFields(cs, c);
      assert Named(cs + [c], ns[0]) == Named(cs, ns[0]);
      SummariesUnchanged(ns[1..], cs, c);
    }
  }

  lemma AddCloudNew(cs: seq<Cloud>, c: Cloud)
    requires Named(cs, c.name) == []
    ensures AddCloud([], c) == Summaries([c.name], cs + [c])
  {
    CloudStepFields(cs, c);
    assert Named(cs + [c], c.name) == [c];
    CountCloudStep(c.name, [], c);
    assert NewCloud(c.name) == CloudSummary(c.name, []);
  }

  lemma AddCloudFound(ns: seq<string>, cs: seq<Cloud>, c: Cloud)
    requires Distinct(ns) && ns != [] && ns[0] == c.name
    ensures AddCloud(Summaries(ns, cs), c) == Summaries(ns, cs + [c])
  {
    var n := c.name;
    var head := CloudSummary(n, Named(cs, n));
    assert Summaries(ns, cs) == [head] + Summaries(ns[1..], cs);
    CloudStepFields(cs, c);
    CountCloudStep(n, Named(cs, n), c);
    assert CountCloud(head, c) == CloudSummary(n, Named(cs + [c], n));
    assert n !in ns[1..];
    SummariesUnchanged(ns[1..], cs, c);
  }

  /** `AddCloud` on the summaries of the names seen so far gives the summaries after one more cloud. */
  lemma {:induction false} AddCloudSummaries(ns: seq<string>, cs: seq<Cloud>, c: Cloud)
    requires Distinct(ns)
    requires c.name !in ns ==> Named(cs, c.name) == []
    ensures AddCloud(Summaries(ns, cs), c)
         == Summaries(if c.name in ns then ns else ns + [c.name], cs + [c])
  {
    var n := c.name;
    if ns == [] {
      AddCloudNew(cs, c);
    } else if ns[0] == n {
      AddCloudFound(ns, cs, c);
    } else {
      assert Distinct(ns[1..]);
      assert n in ns ==> n in ns[1..];
      AddCloudSummaries(ns[1..], cs, c);
      AddCloudPast(ns, cs, c);
    }
  }

  /** A cloud named otherwise than the first summary passes it by, unchanged. */
  lemma AddCloudPast(ns: seq<string>, cs: seq<Cloud>, c: Cloud)
    requires ns != [] && ns[0] != c.name
    requires AddCloud(Summaries(ns[1..], cs), c)
      == Summaries(if c.name in ns[1..] then ns[1..] else ns[1..] + [c.name], cs + [c])
    ensures AddCloud(Summaries(ns, cs), c)
      == Summaries(if c.name in ns then ns else ns + [c.name], cs + [c])
  {
    var n := c.name;
    var head := CloudSummary(ns[0], Named(cs, ns[0]));
    assert Summaries(ns, cs) == [head] + Summaries(ns[1..], cs);
    NamedOther(cs, c, ns[0]);
    assert n in ns <==> n in ns[1..];
    if n !in ns {
      assert (ns + [n])[1..] == ns[1..] + [n];
    }
  }

  /** Another cloud leaves the clouds of name `n` as they were. */
  lemma NamedOther(cs: seq<Cloud>, c: Cloud, n: string)
    requires c.name != n
    ensures Named(cs + [c], n) == Named(cs, n)
  {
    assert (cs + [c])[..|cs|] == cs;
  }

  /** Grouping one more cloud is adding it to the grouped records. */
  lemma GroupedStep(cs: seq<Cloud>, c: Cloud)
    ensures AddCloud(Grouped(cs), c) == Grouped(cs + [c])
  {
    var ns := Keys(Tally(Names(cs)));
    TallyKeys(Names(cs));
    if c.name !in ns {
      NamedEmpty(cs, c.name);
    }
    AddCloudSummaries(ns, cs, c);
    NamesStep(cs, c);
    assert Keys(Tally(Names(cs + [c]))) == if c.name in ns then ns else ns + [c.name] by {
      assert (Names(cs) + [c.name])[..|Names(cs)|] == Names(cs);
    }
  }

  lemma NamesStep(cs: seq<Cloud>, c: Cloud)
    ensures Names(cs + [c]) == Names(cs) + [c.name]
  {
    assert (cs + [c])[..|cs|] == cs;
  }

  lemma HitStepFields(hs: seq<Hit>, h: Hit, product: string)
    ensures Versions(hs + [h], product) == Versions(hs, product) + Present(VersionOf(h, product))
    ensures var c := CloudOf(h, product);
      CloudsIn(hs + [h], product) == CloudsIn(hs, product) + (if c.Some? then [c.value] else [])
  {
    assert (hs + [h])[..|hs|] == hs;
  }

  /** Counting one more hit in a cluster's summary gives the summary of its hits plus that one. */
  lemma ClusterSummaryStep(hs: seq<Hit>, h: Hit, product: string)
    ensures CountHit(ClusterSummary(hs, product), h, product) == ClusterSummary(hs + [h], product)
  {
    HitStepFields(hs, h, product);
    TallyPresent(Versions(hs, product), VersionOf(h, product));
    var c := CloudOf(h, product);
    if c.Some? {
      GroupedStep(CloudsIn(hs, product), c.value);
    } else {
      assert CloudsIn(hs + [h], product) == CloudsIn(hs, product);
    }
  }

  lemma {:induction false} ClusterHitsEmpty(hits: seq<Hit>, u: string)
    requires u !in Uuids(hits)
    ensures ClusterHits(hits, u) == []
  {
    if hits != [] {
      var p := hits[..|hits| - 1];
      assert Uuids(p) <= Uuids(hits) by {
        forall h | h in p ensures h in hits { }
      }
      ClusterHitsEmpty(p, u);
      assert hits[|hits| - 1] in hits;
    }
  }

  /** The fold's state is the summary of each cluster's hits (the invariant of `Fold`). */
  ghost predicate Summarises(acc: map<string, ClusterAcc>, hits: seq<Hit>, product: string)
  {
    && acc.Keys == Uuids(hits)
    && forall u :: u in acc ==> acc[u] == ClusterSummary(ClusterHits(hits, u), product)
  }

  lemma ClusterHitsStep(p: seq<Hit>, h: Hit, u: string)
    ensures ClusterHits(p + [h], u) == ClusterHits(p, u) + (if CountedUnder(h, u) then [h] else [])
  {
    assert (p + [h])[..|p|] == p;
  }

  lemma UuidsStep(p: seq<Hit>, h: Hit)
    ensures Uuids(p + [h]) == Uuids(p) + (if Truthy(h.clusterUuid) then {h.clusterUuid.value} else {})
  {
    assert forall x :: x in p + [h] <==> x in p || x == h;
  }

  lemma AddHitAt(acc: map<string, ClusterAcc>, p: seq<Hit>, h: Hit, u: string, product: string)
    requires Summarises(acc, p, product) && u in AddHit(acc, h, product)
    ensures AddHit(acc, h, product)[u] == ClusterSummary(ClusterHits(p + [h], u), product)
  {
    ClusterHitsStep(p, h, u);
    if CountedUnder(h, u) {
      CountHitSummary(acc, p, h, u, product);
      assert AddHit(acc, h, product)[u] == CountHit(if u in acc then acc[u] else EmptyCluster, h, product);
    } else {
      assert AddHit(acc, h, product)[u] == acc[u];
      assert ClusterHits(p + [h], u) == ClusterHits(p, u);
    }
  }

  lemma AddHitKeepsSummary(acc: map<string, ClusterAcc>, p: seq<Hit>, h: Hit, product: string)
    requires Summarises(acc, p, product)
    ensures Summarises(AddHit(acc, h, product), p + [h], product)
  {
    UuidsStep(p, h);
    assert AddHit(acc, h, product).Keys == Uuids(p + [h]);
    forall u | u in AddHit(acc, h, product)
      ensures AddHit(acc, h, product)[u] == ClusterSummary(ClusterHits(p + [h], u), product)
    {
      AddHitAt(acc, p, h, u, product);
    }
  }

  lemma CountHitSummary(acc: map<string, ClusterAcc>, p: seq<Hit>, h: Hit, u: string, product: string)
    requires Summarises(acc, p, product) && CountedUnder(h, u)
    ensures CountHit(if u in acc then acc[u] else EmptyCluster, h, product)
         == ClusterSummary(ClusterHits(p, u) + [h], product)
  {
    if u !in acc {
      ClusterHitsEmpty(p, u);
      assert EmptyCluster == ClusterSummary([], product);
    }
    ClusterSummaryStep(ClusterHits(p, u), h, product);
  }

  /**
    The fold keeps one record per cluster uuid carried by some hit, and that record is the
    summary of exactly that cluster's hits.
  */
  lemma {:induction false} FoldIsSummary(hits: seq<Hit>, product: string)
    ensures Summarises(Fold(hits, product), hits, product)
  {
    if hits != [] {
      var p, h := hits[..|hits| - 1], hits[|hits| - 1];
      assert hits == p + [h];
      FoldIsSummary(p, product);
      AddHitKeepsSummary(Fold(p, product), p, h, product);
    }
  }

  // ----- properties of the result -----

  lemma {:induction false} SummariesAt(ns: seq<string>, cs: seq<Cloud>)
    ensures |Summaries(ns, cs)| == |ns|
    ensures forall i :: 0 <= i < |ns| ==> Summaries(ns, cs)[i] == CloudSummary(ns[i], Named(cs, ns[i]))
  {
    if ns != [] {
      SummariesAt(ns[1..], cs);
      var rest := Summaries(ns[1..], cs);
      assert Summaries(ns, cs) == [CloudSummary(ns[0], Named(cs, ns[0]))] + rest;
      forall i | 1 <= i < |ns|
        ensures Summaries(ns, cs)[i] == CloudSummary(ns[i], Named(cs, ns[i]))
      {
        assert Summaries(ns, cs)[i] == rest[i - 1] && ns[i] == ns[1..][i - 1];
      }
    }
  }

  lemma {:induction false} FinishCloudsAt(xs: seq<CloudAcc>)
    ensures |FinishClouds(xs)| == |xs|
    ensures forall i :: 0 <= i < |xs| ==> FinishClouds(xs)[i] == FinishCloud(xs[i])
  {
    if xs != [] {
      FinishCloudsAt(xs[1..]);
    }
  }

  lemma {:induction false} NamesLength(cs: seq<Cloud>)
    ensures |Names(cs)| == |cs|
  {
    if cs != [] {
      NamesLength(cs[..|cs| - 1]);
    }
  }

  lemma {:induction false} VersionsBound(hs: seq<Hit>, product: string)
    ensures |Versions(hs, product)| <= |hs|
  {
    if hs != [] {
      VersionsBound(hs[..|hs| - 1], product);
    }
  }

  lemma RollupClusterIsSummary(hits: seq<Hit>, product: string, u: string)
    requires u in Rollup(hits, product)
    ensures Rollup(hits, product)[u] == Finish(ClusterSummary(ClusterHits(hits, u), product))
  {
    FoldIsSummary(hits, product);
  }

  /** The result has a record for a uuid exactly when some hit carries it. */
  lemma RollupClusters(hits: seq<Hit>, product: string)
    ensures Rollup(hits, product).Keys == Uuids(hits)
  {
    FoldIsSummary(hits, product);
  }

  /** A hit whose cluster uuid is absent or `''` changes nothing in the result. */
  lemma RollupIgnoresHitWithoutUuid(hits: seq<Hit>, h: Hit, product: string)
    requires !Truthy(h.clusterUuid)
    ensures Rollup(hits + [h], product) == Rollup(hits, product)
  {
    assert (hits + [h])[..|hits|] == hits;
  }

  /**
    A cluster's `count` is the number of hits carrying its uuid; `versions` has one entry per
    distinct version among them, in first-seen order, counting the hits with that version,
    and the version counts sum to at most `count`.
  */
  lemma RollupCountAndVersions(hits: seq<Hit>, product: string, u: string)
    requires u in Rollup(hits, product)
    ensures var r, hs := Rollup(hits, product)[u], ClusterHits(hits, u);
      && r.count == |hs|
      && r.versions == Tally(Versions(hs, product))
      && Distinct(Keys(r.versions))
      && (forall v :: v in Keys(r.versions) <==> v in Versions(hs, product))
      && (forall v :: CountOf(r.versions, v) == multiset(Versions(hs, product))[v])
      && Total(r.versions) <= r.count
  {
    RollupClusterIsSummary(hits, product, u);
    var hs := ClusterHits(hits, u);
    TallyKeys(Versions(hs, product));
    TallyCounts(Versions(hs, product));
    VersionsBound(hs, product);
  }

  /** `cloud` is undefined exactly when none of the cluster's hits carries cloud data. */
  lemma RollupCloudAbsent(hits: seq<Hit>, product: string, u: string)
    requires u in Rollup(hits, product)
    ensures Rollup(hits, product)[u].cloud.None? <==> CloudsIn(ClusterHits(hits, u), product) == []
  {
    RollupClusterIsSummary(hits, product, u);
    var cs := CloudsIn(ClusterHits(hits, u), product);
    var ns := Keys(Tally(Names(cs)));
    SummariesAt(ns, cs);
    TallyKeys(Names(cs));
    if cs != [] {
      NamesLength(cs);
      assert Names(cs)[|cs| - 1] in Names(cs);
    }
  }

  /**
    Each cloud record of a cluster summarises the cluster's hits with that cloud name: `count`
    counts all of them, `vms` the distinct ids present among them, and the VM type, region and
    zone histograms count every hit that has the field. Names are distinct and in first-seen order.
  */
  lemma RollupCloudRecords(hits: seq<Hit>, product: string, u: string)
    requires u in Rollup(hits, product) && Rollup(hits, product)[u].cloud.Some?
    ensures var cs, clouds := CloudsIn(ClusterHits(hits, u), product), Rollup(hits, product)[u].cloud.value;
      && |clouds| == |Keys(Tally(Names(cs)))|
      && (forall n :: n in Keys(Tally(Names(cs))) <==> n in Names(cs))
      && Distinct(Keys(Tally(Names(cs))))
      && forall i :: 0 <= i < |clouds| ==>
           var ds := Named(cs, clouds[i].name);
           && clouds[i].name == Keys(Tally(Names(cs)))[i]
           && clouds[i].count == |ds|
           && clouds[i].vms == |IdsOf(ds)|
           && clouds[i].vmTypes == Tally(VmTypes(ds))
           && clouds[i].regions == Tally(Regions(ds))
           && clouds[i].zones == Tally(Zones(ds))
  {
    RollupClusterIsSummary(hits, product, u);
    var cs := CloudsIn(ClusterHits(hits, u), product);
    var ns := Keys(Tally(Names(cs)));
    SummariesAt(ns, cs);
    FinishCloudsAt(Summaries(ns, cs));
    TallyKeys(Names(cs));
  }
}
