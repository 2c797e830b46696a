/**
  The monitoring telemetry rollup `handleHighLevelStatsResponse(response, product)`: it folds
  the hits of a search response into one record per cluster uuid holding the number of hits,
  a first-seen-ordered histogram of product versions and, per cloud name, the number of hits,
  the number of distinct VM ids and histograms of VM types, regions and zones.
*/
module HighLevelStats {
  import opened Wrappers
  import opened Histogram

  /** `_source.<product>_stats.cloud` of a hit. */
  datatype Cloud = Cloud(
    name: string,
    id: Option<string>,
    vmType: Option<string>,
    region: Option<string>,
    zone: Option<string>)

  /** `_source.<product>_stats`: the product version and optional cloud data. */
  datatype ProductStats = ProductStats(version: Option<string>, cloud: Option<Cloud>)

  /** One hit: `_source.cluster_uuid` and the stats branch of each product it carries. */
  datatype Hit = Hit(clusterUuid: Option<string>, stats: map<string, ProductStats>)

  /** The search response; `hits` is `None` when `hits.hits` is absent. */
  datatype Response = Response(hits: Option<seq<Hit>>)

  /** Running state per cloud name: hit count, seen VM ids and three histograms. */
  datatype CloudAcc = CloudAcc(
    name: string,
    count: nat,
    unique: set<string>,
    vmTypes: Hist,
    regions: Hist,
    zones: Hist)

  /** Running state per cluster: hit count, version histogram, clouds in first-seen order. */
  datatype ClusterAcc = ClusterAcc(count: nat, versions: Hist, clouds: seq<CloudAcc>)

  /** An element of a cluster's `cloud` list in the result. */
  datatype CloudStats = CloudStats(
    name: string,
    count: nat,
    vms: nat,
    vmTypes: Hist,
    regions: Hist,
    zones: Hist)

  /** A cluster's record in the result; `cloud` is `None` (undefined) when no hit had cloud data. */
  datatype ClusterStats = ClusterStats(count: nat, versions: Hist, cloud: Option<seq<CloudStats>>)

  /** `get(response, 'hits.hits', [])` */
  function HitsOf(r: Response): seq<Hit>
  {
    if r.hits.Some? then r.hits.value else []
  }

  /** `_source.<product>_stats.<product>.version` */
  function VersionOf(h: Hit, product: string): Option<string>
  {
    if product in h.stats then h.stats[product].version else None
  }

  /** `_source.<product>_stats.cloud` */
  function CloudOf(h: Hit, product: string): Option<Cloud>
  {
    if product in h.stats then h.stats[product].cloud else None
  }

  /** JavaScript truthiness of an optional string field: absent and `''` are both falsy. */
  predicate Truthy(o: Option<string>)
  {
    o.Some? && o.value != ""
  }

  /** `incrementByKey`, which ignores a falsy key. */
  function IncrementIf(h: Hist, k: Option<string>): Hist
  {
    if Truthy(k) then Increment(h, k.value) else h
  }

  const EmptyCluster := ClusterAcc(0, [], [])

  function NewCloud(name: string): CloudAcc
  {
    CloudAcc(name, 0, {}, [], [], [])
  }

  /** Count one more hit of cloud `c` in its record: a truthy id joins the set of seen ids. */
  function CountCloud(acc: CloudAcc, c: Cloud): CloudAcc
  {
    CloudAcc(
      acc.name,
      acc.count + 1,
      if Truthy(c.id) then acc.unique + {c.id.value} else acc.unique,
      IncrementIf(acc.vmTypes, c.vmType),
      IncrementIf(acc.regions, c.region),
      IncrementIf(acc.zones, c.zone))
  }

  /** Look up the record of `c.name` (creating it at the end when new) and count `c` in it. */
  function AddCloud(clouds: seq<CloudAcc>, c: Cloud): seq<CloudAcc>
  {
    if clouds == [] then [CountCloud(NewCloud(c.name), c)]
    else if clouds[0].name == c.name then [CountCloud(clouds[0], c)] + clouds[1..]
    else [clouds[0]] + AddCloud(clouds[1..], c)
  }

  /** One hit's contribution to a cluster's record. */
  function CountHit(acc: ClusterAcc, h: Hit, product: string): ClusterAcc
  {
    ClusterAcc(
      acc.count + 1,
      IncrementIf(acc.versions, VersionOf(h, product)),
      if CloudOf(h, product).Some? then AddCloud(acc.clouds, CloudOf(h, product).value) else acc.clouds)
  }

  /** One step of the fold: a hit whose cluster uuid is absent or `''` changes nothing. */
  function AddHit(acc: map<string, ClusterAcc>, h: Hit, product: string): map<string, ClusterAcc>
  {
    if !Truthy(h.clusterUuid) then acc
    else
      var u := h.clusterUuid.value;
      acc[u := CountHit(if u in acc then acc[u] else EmptyCluster, h, product)]
  }

  /** The per-cluster state after folding `hits` from left to right. */
  function Fold(hits: seq<Hit>, product: string): map<string, ClusterAcc>
  {
    if hits == [] then map[] else AddHit(Fold(hits[..|hits| - 1], product), hits[|hits| - 1], product)
  }

  /** A cloud record as reported: `vms` is the number of distinct ids seen. */
  function FinishCloud(acc: CloudAcc): CloudStats
  {
    CloudStats(acc.name, acc.count, |acc.unique|, acc.vmTypes, acc.regions, acc.zones)
  }

  function FinishClouds(clouds: seq<CloudAcc>): seq<CloudStats>
  {
    if clouds == [] then [] else [FinishCloud(clouds[0])] + FinishClouds(clouds[1..])
  }

  function Finish(acc: ClusterAcc): ClusterStats
  {
    ClusterStats(acc.count, acc.versions, if acc.clouds == [] then None else Some(FinishClouds(acc.clouds)))
  }

  /** The result object: every cluster of the fold, finished; each counts between one and all hits. */
  function Rollup(hits: seq<Hit>, product: string): (rs: map<string, ClusterStats>)
    ensures forall u :: u in rs ==> 1 <= rs[u].count <= |hits|
  {
    var acc := Fold(hits, product);
    FoldCounts(hits, product);
    map u | u in acc :: Finish(acc[u])
  }

  /** Every cluster of the fold was counted at least once and at most once per hit. */
  lemma {:induction false} FoldCounts(hits: seq<Hit>, product: string)
    ensures forall u :: u in Fold(hits, product) ==> 1 <= Fold(hits, product)[u].count <= |hits|
  {
    if hits != [] {
      FoldCounts(hits[..|hits| - 1], product);
    }
  }

  lemma FoldStep(hits: seq<Hit>, i: nat, product: string)
    requires i < |hits|
    ensures Fold(hits[..i + 1], product) == AddHit(Fold(hits[..i], product), hits[i], product)
  {
    assert hits[..i + 1][..i] == hits[..i];
  }

  /** The body of the loop for a hit with a cluster uuid: the cluster's record with the hit counted. */
  method CountIntoCluster(cluster: ClusterAcc, hit: Hit, product: string) returns (updated: ClusterAcc)
    ensures updated == CountHit(cluster, hit, product)
  {
    var versions := cluster.versions;
    var version := VersionOf(hit, product);
    if Truthy(version) {
      versions := Increment(versions, version.value);
    }
    var clouds := cluster.clouds;
    var cloud := CloudOf(hit, product);
    if cloud.Some? {
      clouds := AddCloud(clouds, cloud.value);
    }
    updated := ClusterAcc(cluster.count + 1, versions, clouds);
  }

  /**
    `handleHighLevelStatsResponse(response, product)`: one pass over the hits, replacing the
    record of each hit's cluster in the cluster map, then each cluster record is finished.
  */
  method HandleHighLevelStatsResponse(response: Response, product: string)
    returns (clusters: map<string, ClusterStats>)
    ensures clusters == Rollup(HitsOf(response), product)
    ensures response.hits.None? || response.hits == Some([]) ==> clusters == map[]
  {
    var hits := if response.hits.Some? then response.hits.value else [];
    var acc: map<string, ClusterAcc> := map[];
    var i := 0;
    while i < |hits|
      invariant 0 <= i <= |hits|
      invariant acc == Fold(hits[..i], product)
    {
      var hit := hits[i];
      FoldStep(hits, i, product);
      if Truthy(hit.clusterUuid) {
        var u := hit.clusterUuid.value;
        var cluster := if u in acc then acc[u] else EmptyCluster;
        cluster := CountIntoCluster(cluster, hit, product);
        acc := acc[u := cluster];
      }
      i := i + 1;
    }
    assert hits == hits[..|hits|];
    clusters := map u | u in acc :: Finish(acc[u]);
  }
}
