/**
  The unit-test fixture of the telemetry rollup: ten hits of product `xyz` over clusters a, b
  and c (plus one hit without a cluster uuid) and the expected per-cluster records.
*/
module HighLevelStatsFixture {
  import opened Wrappers
  import opened Histogram
  import opened HighLevelStats

  const Product := "xyz"
  const CloudName := "bare-metal"

  function Versioned(u: string, v: string): Hit
  {
    Hit(Some(u), map[Product := ProductStats(Some(v), None)])
  }

  function WithCloud(u: string, v: string, c: Cloud): Hit
  {
    Hit(Some(u), map[Product := ProductStats(Some(v), Some(c))])
  }

  /** The cloud of hits 6 and 7: VM id 234, type ps4, region def-123, zone def-123-A. */
  const PsCloud := Cloud(CloudName, Some("234"), Some("ps4"), Some("def-123"), Some("def-123-A"))

  const Hits: seq<Hit> := [
    Versioned("a", "1.2.3-alpha1"),
    Versioned("a", "1.2.3-alpha1"),
    Versioned("b", "2.3.4-rc1"),
    Versioned("b", "2.3.4"),
    Hit(Some("b"), map[]),
    WithCloud("c", "5.6.1", Cloud(CloudName, Some("123"), Some("x1"), Some("abc-123"), None)),
    WithCloud("c", "5.6.1", PsCloud),
    WithCloud("c", "5.6.1", PsCloud),
    WithCloud("c", "5.6.1", Cloud(CloudName, None, None, None, None)),
    Hit(None, map[Product := ProductStats(Some("2.3.4"), None)])
  ]

  const ExpectedClusters: map<string, ClusterStats> := map[
    "a" := ClusterStats(2, [Entry("1.2.3-alpha1", 2)], None),
    "b" := ClusterStats(3, [Entry("2.3.4-rc1", 1), Entry("2.3.4", 1)], None),
    "c" := ClusterStats(4, [Entry("5.6.1", 4)], Some([
      CloudStats(CloudName, 4, 2,
        [Entry("x1", 1), Entry("ps4", 2)],
        [Entry("abc-123", 1), Entry("def-123", 2)],
        [Entry("def-123-A", 2)])]))
  ]

  /** A hit of cluster c changes only c's record, to the one its count gives. */
  lemma StepC(a: ClusterAcc, b: ClusterAcc, c: ClusterAcc, c': ClusterAcc, h: Hit)
    requires h.clusterUuid == Some("c") && CountHit(c, h, Product) == c'
    ensures AddHit(map["a" := a, "b" := b, "c" := c], h, Product) == map["a" := a, "b" := b, "c" := c']
  {
  }

  const A1 := ClusterAcc(1, [Entry("1.2.3-alpha1", 1)], [])
  const A2 := ClusterAcc(2, [Entry("1.2.3-alpha1", 2)], [])
  const B1 := ClusterAcc(1, [Entry("2.3.4-rc1", 1)], [])
  const B2 := ClusterAcc(2, [Entry("2.3.4-rc1", 1), Entry("2.3.4", 1)], [])
  const B3 := ClusterAcc(3, [Entry("2.3.4-rc1", 1), Entry("2.3.4", 1)], [])
  const C1 := ClusterAcc(1, [Entry("5.6.1", 1)], [
    CloudAcc(CloudName, 1, {"123"}, [Entry("x1", 1)], [Entry("abc-123", 1)], [])])
  const C2 := ClusterAcc(2, [Entry("5.6.1", 2)], [
    CloudAcc(CloudName, 2, {"123", "234"},
      [Entry("x1", 1), Entry("ps4", 1)],
      [Entry("abc-123", 1), Entry("def-123", 1)],
      [Entry("def-123-A", 1)])])
  const C3 := ClusterAcc(3, [Entry("5.6.1", 3)], [
    CloudAcc(CloudName, 3, {"123", "234"},
      [Entry("x1", 1), Entry("ps4", 2)],
      [Entry("abc-123", 1), Entry("def-123", 2)],
      [Entry("def-123-A", 2)])])
  const C4 := ClusterAcc(4, [Entry("5.6.1", 4)], [
    CloudAcc(CloudName, 4, {"123", "234"},
      [Entry("x1", 1), Entry("ps4", 2)],
      [Entry("abc-123", 1), Entry("def-123", 2)],
      [Entry("def-123-A", 2)])])

  lemma Step0()
    ensures AddHit(map[], Hits[0], Product) == map["a" := A1]
  {
    assert CountHit(EmptyCluster, Hits[0], Product) == A1;
  }

  lemma Step1()
    ensures AddHit(map["a" := A1], Hits[1], Product) == map["a" := A2]
  {
    assert VersionOf(Hits[1], Product) == Some("1.2.3-alpha1");
    assert Increment(A1.versions, "1.2.3-alpha1") == A2.versions;
    assert CountHit(A1, Hits[1], Product) == A2;
  }

  lemma Step2()
    ensures AddHit(map["a" := A2], Hits[2], Product) == map["a" := A2, "b" := B1]
  {
    assert "b" != "a";
    assert CountHit(EmptyCluster, Hits[2], Product) == B1;
  }

  lemma Step3()
    ensures AddHit(map["a" := A2, "b" := B1], Hits[3], Product) == map["a" := A2, "b" := B2]
  {
    assert VersionOf(Hits[3], Product) == Some("2.3.4");
    assert Increment(B1.versions, "2.3.4") == B2.versions;
    assert CountHit(B1, Hits[3], Product) == B2;
  }

  lemma Step4()
    ensures AddHit(map["a" := A2, "b" := B2], Hits[4], Product) == map["a" := A2, "b" := B3]
  {
    assert VersionOf(Hits[4], Product) == None;
    assert CountHit(B2, Hits[4], Product) == B3;
  }

  lemma Step5()
    ensures AddHit(map["a" := A2, "b" := B3], Hits[5], Product) == map["a" := A2, "b" := B3, "c" := C1]
  {
    var c := Cloud(CloudName, Some("123"), Some("x1"), Some("abc-123"), None);
    assert CloudOf(Hits[5], Product) == Some(c);
    assert CountCloud(NewCloud(CloudName), c) == C1.clouds[0];
    assert CountHit(EmptyCluster, Hits[5], Product) == C1;
  }

  lemma Step6()
    ensures AddHit(map["a" := A2, "b" := B3, "c" := C1], Hits[6], Product) == map["a" := A2, "b" := B3, "c" := C2]
  {
    Cluster6();
    StepC(A2, B3, C1, C2, Hits[6]);
  }

  lemma Cluster6()
    ensures CountHit(C1, Hits[6], Product) == C2
  {
    assert CloudOf(Hits[6], Product) == Some(PsCloud);
    PsCloud6();
    assert AddCloud(C1.clouds, PsCloud) == C2.clouds;
    assert Increment(C1.versions, "5.6.1") == C2.versions;
  }

  lemma PsCloud6()
    ensures CountCloud(C1.clouds[0], PsCloud) == C2.clouds[0]
  {
    var before, after := C1.clouds[0], C2.clouds[0];
    assert Increment(before.vmTypes, "ps4") == after.vmTypes;
    assert Increment(before.regions, "def-123") == after.regions;
    assert Increment(before.zones, "def-123-A") == after.zones;
  }

  lemma Step7()
    ensures AddHit(map["a" := A2, "b" := B3, "c" := C2], Hits[7], Product) == map["a" := A2, "b" := B3, "c" := C3]
  {
    Cluster7();
    StepC(A2, B3, C2, C3, Hits[7]);
  }

  lemma Cluster7()
    ensures CountHit(C2, Hits[7], Product) == C3
  {
    assert CloudOf(Hits[7], Product) == Some(PsCloud);
    PsCloud7();
    assert AddCloud(C2.clouds, PsCloud) == C3.clouds;
    assert Increment(C2.versions, "5.6.1") == C3.versions;
  }

  lemma PsCloud7()
    ensures CountCloud(C2.clouds[0], PsCloud) == C3.clouds[0]
  {
    var before, after := C2.clouds[0], C3.clouds[0];
    assert Increment(before.vmTypes, "ps4") == after.vmTypes;
    assert Increment(before.regions, "def-123") == after.regions;
    assert Increment(before.zones, "def-123-A") == after.zones;
    assert before.unique + {"234"} == after.unique;
  }

  lemma Step8()
    ensures AddHit(map["a" := A2, "b" := B3, "c" := C3], Hits[8], Product) == map["a" := A2, "b" := B3, "c" := C4]
  {
    var c := Cloud(CloudName, None, None, None, None);
    assert CloudOf(Hits[8], Product) == Some(c);
    assert CountCloud(C3.clouds[0], c) == C4.clouds[0];
    assert AddCloud(C3.clouds, c) == C4.clouds;
    assert CountHit(C3, Hits[8], Product) == C4;
  }

  lemma Step9()
    ensures AddHit(map["a" := A2, "b" := B3, "c" := C4], Hits[9], Product) == map["a" := A2, "b" := B3, "c" := C4]
  {
  }

  /** One more hit folded in: the fold of the longer prefix is the shorter one's with that hit added. */
  lemma FoldExtend(i: nat, before: map<string, ClusterAcc>, after: map<string, ClusterAcc>)
    requires i < |Hits| && Fold(Hits[..i], Product) == before && AddHit(before, Hits[i], Product) == after
    ensures Fold(Hits[..i + 1], Product) == after
  {
    FoldStep(Hits, i, Product);
  }

  /** The first five hits fold to the records of clusters a and b. */
  lemma FoldedFirstFive()
    ensures Fold(Hits[..5], Product) == map["a" := A2, "b" := B3]
  {
    assert Hits[..0] == [];
    Step0();
    FoldExtend(0, map[], map["a" := A1]);
    Step1();
    FoldExtend(1, map["a" := A1], map["a" := A2]);
    Step2();
    FoldExtend(2, map["a" := A2], map["a" := A2, "b" := B1]);
    Step3();
    FoldExtend(3, map["a" := A2, "b" := B1], map["a" := A2, "b" := B2]);
    Step4();
    FoldExtend(4, map["a" := A2, "b" := B2], map["a" := A2, "b" := B3]);
  }

  /** All ten hits fold to the records of clusters a, b and c; the hit without a uuid is skipped. */
  lemma FoldedHits()
    ensures Fold(Hits[..10], Product) == map["a" := A2, "b" := B3, "c" := C4]
  {
    FoldedFirstFive();
    Step5();
    FoldExtend(5, map["a" := A2, "b" := B3], map["a" := A2, "b" := B3, "c" := C1]);
    Step6();
    FoldExtend(6, map["a" := A2, "b" := B3, "c" := C1], map["a" := A2, "b" := B3, "c" := C2]);
    Step7();
    FoldExtend(7, map["a" := A2, "b" := B3, "c" := C2], map["a" := A2, "b" := B3, "c" := C3]);
    Step8();
    FoldExtend(8, map["a" := A2, "b" := B3, "c" := C3], map["a" := A2, "b" := B3, "c" := C4]);
    Step9();
    FoldExtend(9, map["a" := A2, "b" := B3, "c" := C4], map["a" := A2, "b" := B3, "c" := C4]);
  }

  /** The final records of clusters a, b and c, finished. */
  lemma FinishedClusters()
    ensures Finish(A2) == ExpectedClusters["a"]
    ensures Finish(B3) == ExpectedClusters["b"]
    ensures Finish(C4) == ExpectedClusters["c"]
  {
    assert |{"123", "234"}| == 2;
    assert FinishClouds(C4.clouds) == ExpectedClusters["c"].cloud.value;
  }

  /** The rollup of the fixture's hits is exactly the expected cluster map. */
  lemma FixtureRollup()
    ensures Rollup(Hits, Product) == ExpectedClusters
  {
    FoldedHits();
    assert Hits[..10] == Hits;
    FinishedClusters();
    var r := Rollup(Hits, Product);
    assert r.Keys == ExpectedClusters.Keys;
    assert r["a"] == ExpectedClusters["a"];
    assert r["b"] == ExpectedClusters["b"];
    assert r["c"] == ExpectedClusters["c"];
  }

  /** A response without hits, or with an empty hit list, yields no cluster. */
  lemma EmptyResponses()
    ensures Rollup(HitsOf(Response(None)), Product) == map[]
    ensures Rollup(HitsOf(Response(Some([]))), Product) == map[]
  {
  }
}
