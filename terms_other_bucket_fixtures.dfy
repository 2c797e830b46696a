/**
  The fixtures of the terms "Other"/"Missing" bucket helper: a single `machine.os.raw` terms
  aggregation with a missing bucket, and `geo.src` (top 2, no missing bucket) over
  `machine.os.raw` (top 2, missing bucket), on the `logstash-*` index pattern.
*/
module TermsOtherBucketFixtures {
  import opened Wrappers
  import opened AggResponse
  import opened OtherBucketBuild
  import opened OtherBucketBuildProperties
  import opened OtherBucketMerge
  import opened OtherBucketMergeProperties
  import opened MissingBucket

  const Index := "logstash-*"
  const Os := "machine.os.raw"
  const Geo := "geo.src"

  const OsAgg := TermsAgg(Os, Index, true, "Other", "Missing")
  const GeoAgg := TermsAgg(Geo, Index, false, "Other", "Missing")

  /** The single-term and the nested-term aggregation chains. */
  const SingleAggs := [OsAgg]
  const NestedAggs := [GeoAgg, OsAgg]

  function Leaf(key: string, count: nat): Bucket
  {
    Bucket(key, count, None, None)
  }

  const SingleResponse := AggResult([Leaf("ios", 2850), Leaf("win xp", 2830), Leaf(MissingKey, 1430)])
  const UsInner := AggResult([Leaf("ios", 2850), Leaf("win xp", 2830), Leaf(MissingKey, 1430)])
  const InInner := AggResult([Leaf("ios", 1850), Leaf("win xp", 1830), Leaf(MissingKey, 130)])
  const NestedResponse := AggResult([Bucket("US", 2850, Some(UsInner), None), Bucket("IN", 2830, Some(InInner), None)])

  const SingleOther := [OtherBucket("", 2805, None)]
  const NestedOther := [OtherBucket("-US", 2805, None), OtherBucket("-IN", 2804, None)]

  /** The bool query of every expected filter: `exists` on the OS field, both top OS values excluded. */
  function OsQuery(outer: seq<Query>): BoolQuery
  {
    BoolQuery(outer + [Exists(Os)], [], [], [MatchPhrase(Os, "ios"), MatchPhrase(Os, "win xp")])
  }

  /** The request the nested build returns: one filter per country. */
  const NestedRequest := OtherFilterRequest(None, map["-US" := OsQuery([MatchPhrase(Geo, "US")]), "-IN" := OsQuery([MatchPhrase(Geo, "IN")])])

  /** The filters of every expected "Other" bucket. */
  const OtherFilters := [PhrasesFilter(Os, ["ios", "win xp"], Index, true), ExistsFilter(Os, Index, false)]

  /** The keys of every bucket list of the fixtures that lists operating systems. */
  const OsKeys := ["ios", "win xp", MissingKey]

  lemma ResponseKeys()
    ensures Keys(SingleResponse.buckets) == OsKeys
    ensures Keys(UsInner.buckets) == OsKeys
    ensures Keys(InInner.buckets) == OsKeys
  {
    assert Keys(SingleResponse.buckets) == ["ios"] + Keys(SingleResponse.buckets[1..]);
    assert Keys(SingleResponse.buckets[1..]) == ["win xp"] + Keys(SingleResponse.buckets[2..]);
    assert Keys(UsInner.buckets) == ["ios"] + Keys(UsInner.buckets[1..]);
    assert Keys(UsInner.buckets[1..]) == ["win xp"] + Keys(UsInner.buckets[2..]);
    assert Keys(InInner.buckets) == ["ios"] + Keys(InInner.buckets[1..]);
    assert Keys(InInner.buckets[1..]) == ["win xp"] + Keys(InInner.buckets[2..]);
  }

  lemma OsKeyQueries()
    ensures MustNotOf(Os, OsKeys) == [MatchPhrase(Os, "ios"), MatchPhrase(Os, "win xp")]
    ensures ShownTerms(OsKeys) == ["ios", "win xp"]
    ensures MissingKey in OsKeys
  {
    assert OsKeys[1..][1..] == [MissingKey] && [MissingKey][1..] == [];
    assert MustNotOf(Os, [MissingKey]) == [];
    assert ShownTerms([MissingKey]) == [];
    assert OsKeys[2] == MissingKey;
  }

  /** The single-term build: a function giving one filter `''`, no nested aggregations. */
  lemma SingleBuildFixture()
    ensures BuildOtherBucketAgg(SingleAggs, 0, SingleResponse).Success?
    ensures BuildOtherBucketAgg(SingleAggs, 0, SingleResponse).value() ==
      OtherFilterRequest(None, map["" := OsQuery([])])
  {
    ResponseKeys();
    OsSingleBuild(SingleResponse);
  }

  /** Any single-term response keyed like the fixture's gets the one expected filter. */
  lemma OsSingleBuild(root: AggResult)
    requires Keys(root.buckets) == OsKeys
    ensures BuildOtherBucketAgg(SingleAggs, 0, root).Success?
    ensures BuildOtherBucketAgg(SingleAggs, 0, root).value() == OtherFilterRequest(None, map["" := OsQuery([])])
  {
    SingleTermRequest(SingleAggs, root);
    OsSingleQuery(root.buckets);
  }

  /** The query of the single-term filter over a list keyed like the fixture's. */
  lemma OsSingleQuery(bs: seq<Bucket>)
    requires Keys(bs) == OsKeys
    ensures BoolQuery(ExistsQuery(OsAgg, bs), [], [], MustNotOf(Os, Keys(bs))) == OsQuery([])
  {
    OsKeyQueries();
    assert [] + [Exists(Os)] == [Exists(Os)];
  }

  /** The request built over two outer buckets, each keyed once. */
  lemma TwoOuterBuckets(aggs: seq<TermsAgg>, root: AggResult)
    requires |aggs| >= 2 && |root.buckets| == 2 && root.buckets[0].key != root.buckets[1].key
    requires forall b :: b in root.buckets ==> b.filters.None? && b.sub.Some? && |b.sub.value.buckets| >= 1
    ensures OtherFilterAgg(aggs, 1, root).Success?
    ensures var b0, b1 := root.buckets[0], root.buckets[1];
      OtherFilterAgg(aggs, 1, root).value.filters == map[
        "-" + b0.key := OuterQuery(aggs, b0),
        "-" + b1.key := OuterQuery(aggs, b1)]
  {
    var b0, b1 := root.buckets[0], root.buckets[1];
    TwoOuterKeys(aggs, root);
    var m := OtherFilterAgg(aggs, 1, root).value.filters;
    assert m == map["-" + b0.key := OuterQuery(aggs, b0), "-" + b1.key := OuterQuery(aggs, b1)];
  }

  lemma TwoOuterKeys(aggs: seq<TermsAgg>, root: AggResult)
    requires |aggs| >= 2 && |root.buckets| == 2 && root.buckets[0].key != root.buckets[1].key
    requires forall b :: b in root.buckets ==> b.filters.None? && b.sub.Some? && |b.sub.value.buckets| >= 1
    ensures OtherFilterAgg(aggs, 1, root).Success?
    ensures var b0, b1 := root.buckets[0], root.buckets[1];
      var m := OtherFilterAgg(aggs, 1, root).value.filters;
      m.Keys == {"-" + b0.key, "-" + b1.key} &&
      m["-" + b0.key] == OuterQuery(aggs, b0) && m["-" + b1.key] == OuterQuery(aggs, b1)
  {
    assert DistinctKeys(root.buckets);
    NestedTermsRequest(aggs, root);
    TwoLabels(root.buckets, OtherFilterAgg(aggs, 1, root).value.filters);
    assert root.buckets[0] in root.buckets && root.buckets[1] in root.buckets;
  }

  /** A map holding exactly the labels of two outer buckets has exactly those two keys. */
  lemma TwoLabels<V>(bs: seq<Bucket>, m: map<string, V>)
    requires |bs| == 2
    requires forall p :: p in m <==> exists b :: b in bs && p == "-" + b.key
    ensures m.Keys == {"-" + bs[0].key, "-" + bs[1].key}
  {
    var k0, k1 := "-" + bs[0].key, "-" + bs[1].key;
    assert bs[0] in bs && bs[1] in bs;
    assert k0 in m && k1 in m;
    forall p | p in m
      ensures p == k0 || p == k1
    {
      var b :| b in bs && p == "-" + b.key;
      assert b == bs[0] || b == bs[1];
    }
  }

  /** The filter of a country whose inner list shows the fixture's operating systems. */
  lemma CountryQuery(b: Bucket)
    requires b.sub.Some? && b.key != MissingKey && Keys(b.sub.value.buckets) == OsKeys
    ensures OuterQuery(NestedAggs, b) == OsQuery([MatchPhrase(Geo, b.key)])
  {
    OsKeyQueries();
    assert ExistsQuery(OsAgg, b.sub.value.buckets) == [Exists(Os)];
  }

  /** The nested build: filters `-US` and `-IN`, each fixing its country before requiring the OS field. */
  lemma NestedBuildFixture()
    ensures BuildOtherBucketAgg(NestedAggs, 1, NestedResponse).Success?
    ensures BuildOtherBucketAgg(NestedAggs, 1, NestedResponse).value() == NestedRequest
  {
    var us, india := NestedResponse.buckets[0], NestedResponse.buckets[1];
    TwoOuterBuckets(NestedAggs, NestedResponse);
    ResponseKeys();
    CountryQuery(us);
    CountryQuery(india);
    CountryLabels();
  }

  lemma CountryLabels()
    ensures "-" + NestedResponse.buckets[0].key == "-US" && "-" + NestedResponse.buckets[1].key == "-IN"
  {
    assert NestedResponse.buckets[0].key == "US" && NestedResponse.buckets[1].key == "IN";
    assert "-" + "US" == "-US" && "-" + "IN" == "-IN";
  }

  /** The single-term merge: the three buckets, then "Other" with its two filters at index 3. */
  lemma SingleMergeFixture()
    ensures OtherFilterAgg(SingleAggs, 0, SingleResponse).Success?
    ensures var req := OtherFilterAgg(SingleAggs, 0, SingleResponse).value;
      (forall ob :: ob in SingleOther && ob.docCount > 0 ==> ob.path in req.filters) &&
      var merged := MergeAll(SingleAggs, 0, req, SingleResponse, SingleOther);
      merged.buckets == SingleResponse.buckets + [Bucket("Other", 2805, None, Some(OtherFilters))] &&
      merged.buckets[3].key == "Other" && |merged.buckets[3].filters.value| == 2
  {
    ResponseKeys();
    OsSingleMerge(SingleResponse, 2805);
    assert SingleOther == [OtherBucket("", 2805, None)];
    assert |SingleResponse.buckets| == 3;
  }

  /** Any single-term response keyed like the fixture's gets "Other" with the two expected filters. */
  lemma OsSingleMerge(root: AggResult, count: nat)
    requires Keys(root.buckets) == OsKeys && count > 0
    ensures OtherFilterAgg(SingleAggs, 0, root).Success?
    ensures "" in OtherFilterAgg(SingleAggs, 0, root).value.filters
    ensures MergeAll(SingleAggs, 0, OtherFilterAgg(SingleAggs, 0, root).value, root, [OtherBucket("", count, None)]) ==
      AggResult(root.buckets + [Bucket("Other", count, None, Some(OtherFilters))])
  {
    SingleTermMerge(SingleAggs, root, count, None);
    OsShownFilters();
  }

  /** The filters of "Other" below a list keyed like the fixture's. */
  lemma OsShownFilters()
    ensures [PhrasesFilter(Os, ShownTerms(OsKeys), Index, true)] +
      (if MissingKey in OsKeys then [ExistsFilter(Os, Index, false)] else []) == OtherFilters
  {
    OsKeyQueries();
  }

  /** The "Other" bucket the merge appends below an outer bucket labelled `path`. */
  function OtherBelow(agg: TermsAgg, req: OtherFilterRequest, path: string, count: nat, inner: seq<Bucket>): Bucket
    requires path in req.filters
  {
    Bucket(agg.otherLabel, count, None,
      Some([PhrasesFilter(agg.field, OtherTerms(req.filters[path].mustNot, agg.field), agg.indexPattern, true)] +
        (if MissingKey in Keys(inner) then [ExistsFilter(agg.field, agg.indexPattern, false)] else [])))
  }

  /** Merging the label of outer bucket `i` replaces that bucket by one whose inner list ends in "Other". */
  lemma OuterMergeAt(aggs: seq<TermsAgg>, root: AggResult, i: nat, c: nat, req: OtherFilterRequest)
    requires |aggs| >= 2 && i < |root.buckets| && DistinctKeys(root.buckets) && c > 0
    requires PlainKey(root.buckets[i].key) && root.buckets[i].sub.Some? && "-" + root.buckets[i].key in req.filters
    ensures var b := root.buckets[i];
      var inner := b.sub.value.buckets;
      MergeAll(aggs, 1, req, root, [OtherBucket("-" + b.key, c, None)]) ==
        AggResult(root.buckets[i := b.(sub := Some(AggResult(inner + [OtherBelow(aggs[1], req, "-" + b.key, c, inner)])))])
  {
    NestedTermMerge(aggs, root, i, c, req);
  }

  /** Two labels merged, in order, into a response with two outer buckets. */
  lemma TwoOuterMerge(aggs: seq<TermsAgg>, root: AggResult, req: OtherFilterRequest, c0: nat, c1: nat)
    requires |aggs| >= 2 && |root.buckets| == 2 && root.buckets[0].key != root.buckets[1].key && c0 > 0 && c1 > 0
    requires forall b :: b in root.buckets ==> PlainKey(b.key) && b.sub.Some? && "-" + b.key in req.filters
    ensures var b0, b1 := root.buckets[0], root.buckets[1];
      var obs := [OtherBucket("-" + b0.key, c0, None), OtherBucket("-" + b1.key, c1, None)];
      var in0, in1 := b0.sub.value.buckets, b1.sub.value.buckets;
      MergeAll(aggs, 1, req, root, obs).buckets == [
        b0.(sub := Some(AggResult(in0 + [OtherBelow(aggs[1], req, "-" + b0.key, c0, in0)]))),
        b1.(sub := Some(AggResult(in1 + [OtherBelow(aggs[1], req, "-" + b1.key, c1, in1)])))]
  {
    var b0, b1 := root.buckets[0], root.buckets[1];
    assert b0 in root.buckets && b1 in root.buckets;
    var in0, in1 := b0.sub.value.buckets, b1.sub.value.buckets;
    var ob0, ob1 := OtherBucket("-" + b0.key, c0, None), OtherBucket("-" + b1.key, c1, None);
    var b0' := b0.(sub := Some(AggResult(in0 + [OtherBelow(aggs[1], req, "-" + b0.key, c0, in0)])));
    var b1' := b1.(sub := Some(AggResult(in1 + [OtherBelow(aggs[1], req, "-" + b1.key, c1, in1)])));
    assert root == AggResult([b0, b1]);
    MergeOuter(aggs, [b0, b1], 0, c0, req, b0');
    assert [b0, b1][0 := b0'] == [b0', b1];
    MergeOuter(aggs, [b0', b1], 1, c1, req, b1');
    assert [b0', b1][1 := b1'] == [b0', b1'];
    TwoMerges(aggs, req, root, ob0, ob1);
    assert [ob0, ob1] == [OtherBucket("-" + b0.key, c0, None), OtherBucket("-" + b1.key, c1, None)];
  }

  /** `OuterMergeAt` on a list of two outer buckets with different keys. */
  lemma MergeOuter(aggs: seq<TermsAgg>, bs: seq<Bucket>, i: nat, c: nat, req: OtherFilterRequest, b': Bucket)
    requires |aggs| >= 2 && |bs| == 2 && bs[0].key != bs[1].key && i < 2 && c > 0
    requires PlainKey(bs[i].key) && bs[i].sub.Some? && "-" + bs[i].key in req.filters
    requires b' == bs[i].(sub := Some(AggResult(bs[i].sub.value.buckets +
      [OtherBelow(aggs[1], req, "-" + bs[i].key, c, bs[i].sub.value.buckets)])))
    ensures MergeAll(aggs, 1, req, AggResult(bs), [OtherBucket("-" + bs[i].key, c, None)]) == AggResult(bs[i := b'])
  {
    assert DistinctKeys(bs);
    OuterMergeAt(aggs, AggResult(bs), i, c, req);
  }

  /** Merging two buckets is merging the second into the result of merging the first. */
  lemma TwoMerges(aggs: seq<TermsAgg>, req: OtherFilterRequest, r: AggResult, ob0: OtherBucket, ob1: OtherBucket)
    requires |aggs| >= 2
    requires (ob0.docCount > 0 ==> ob0.path in req.filters) && (ob1.docCount > 0 ==> ob1.path in req.filters)
    ensures MergeAll(aggs, 1, req, r, [ob0, ob1]) == MergeAll(aggs, 1, req, MergeAll(aggs, 1, req, r, [ob0]), [ob1])
  {
    assert [ob0, ob1][..1] == [ob0];
    assert [ob1][..0] == [];
  }

  /** Below a list keyed like the fixture's, with both top values excluded, "Other" gets the two expected filters. */
  lemma OsOtherBucket(req: OtherFilterRequest, path: string, count: nat, inner: seq<Bucket>)
    requires path in req.filters && req.filters[path].mustNot == MustNotOf(Os, OsKeys) && Keys(inner) == OsKeys
    ensures OtherBelow(OsAgg, req, path, count, inner) == Bucket("Other", count, None, Some(OtherFilters))
  {
    ExcludedTermsReadBack(Os, OsKeys);
    OsShownFilters();
  }

  /** The nested merge: "Other" with its two filters at index 3 of each country's inner list. */
  lemma NestedMergeFixture()
    ensures var merged := MergeAll(NestedAggs, 1, NestedRequest, NestedResponse, NestedOther);
      merged.buckets == [
        Bucket("US", 2850, Some(AggResult(UsInner.buckets + [Bucket("Other", 2805, None, Some(OtherFilters))])), None),
        Bucket("IN", 2830, Some(AggResult(InInner.buckets + [Bucket("Other", 2804, None, Some(OtherFilters))])), None)] &&
      merged.buckets[1].sub.value.buckets[3].key == "Other" &&
      |merged.buckets[1].sub.value.buckets[3].filters.value| == 2
  {
    ResponseKeys();
    NestedMustNots();
    NestedMergeOf(NestedResponse, UsInner, InInner, NestedRequest);
    assert |InInner.buckets| == 3;
  }

  /** Both filters of the nested request exclude the two top operating systems. */
  lemma NestedMustNots()
    ensures "-US" in NestedRequest.filters && NestedRequest.filters["-US"].mustNot == MustNotOf(Os, OsKeys)
    ensures "-IN" in NestedRequest.filters && NestedRequest.filters["-IN"].mustNot == MustNotOf(Os, OsKeys)
  {
    OsKeyQueries();
  }

  /** Any two-country response whose inner lists are keyed like the fixture's merges as the fixture does. */
  lemma NestedMergeOf(root: AggResult, us: AggResult, in_: AggResult, req: OtherFilterRequest)
    requires root == AggResult([Bucket("US", 2850, Some(us), None), Bucket("IN", 2830, Some(in_), None)])
    requires Keys(us.buckets) == OsKeys && Keys(in_.buckets) == OsKeys
    requires "-US" in req.filters && req.filters["-US"].mustNot == MustNotOf(Os, OsKeys)
    requires "-IN" in req.filters && req.filters["-IN"].mustNot == MustNotOf(Os, OsKeys)
    ensures MergeAll(NestedAggs, 1, req, root, NestedOther).buckets == [
      Bucket("US", 2850, Some(AggResult(us.buckets + [Bucket("Other", 2805, None, Some(OtherFilters))])), None),
      Bucket("IN", 2830, Some(AggResult(in_.buckets + [Bucket("Other", 2804, None, Some(OtherFilters))])), None)]
  {
    assert "-" + "US" == "-US" && "-" + "IN" == "-IN";
    assert PlainKey("US") && PlainKey("IN");
    assert NestedOther == [OtherBucket("-US", 2805, None), OtherBucket("-IN", 2804, None)];
    TwoOuterMerge(NestedAggs, root, req, 2805, 2804);
    CountryMerged(root.buckets[0], 2805, req);
    CountryMerged(root.buckets[1], 2804, req);
  }

  /** A country bucket with "Other" appended below it, as the fixture expects it. */
  lemma CountryMerged(b: Bucket, c: nat, req: OtherFilterRequest)
    requires b.sub.Some? && b.filters.None? && Keys(b.sub.value.buckets) == OsKeys
    requires "-" + b.key in req.filters && req.filters["-" + b.key].mustNot == MustNotOf(Os, OsKeys)
    ensures var inner := b.sub.value.buckets;
      b.(sub := Some(AggResult(inner + [OtherBelow(NestedAggs[1], req, "-" + b.key, c, inner)]))) ==
      Bucket(b.key, b.docCount, Some(AggResult(inner + [Bucket("Other", c, None, Some(OtherFilters))])), None)
  {
    OsOtherBucket(req, "-" + b.key, c, b.sub.value.buckets);
  }

  /**
    The missing-bucket update with the first aggregation of the nested chain over the
    single-term response: the sentinel becomes "Missing", filtered by a negated `exists` on
    `geo.src`, and is the bucket found under that key.
  */
  lemma MissingFixture()
    ensures var updated := UpdateMissingBucket(NestedAggs, 0, SingleResponse);
      "Missing" in Keys(updated.buckets) &&
      FirstWithKey(updated.buckets, "Missing") == 2 &&
      updated.buckets[2] == Bucket("Missing", 1430, None, Some([ExistsFilter(Geo, Index, true)])) &&
      updated.buckets[..2] == SingleResponse.buckets[..2]
  {
    var bs := SingleResponse.buckets;
    ResponseKeys();
    MissingThird(GeoAgg, bs);
    assert UpdateMissingBucket(NestedAggs, 0, SingleResponse) == AggResult(RenameMissing(GeoAgg, bs));
    assert Renamed(GeoAgg, bs[2]) == Bucket("Missing", 1430, None, Some([ExistsFilter(Geo, Index, true)]));
  }

  /** Over a list keyed like the fixture's, the rename turns the third bucket into "Missing". */
  lemma MissingThird(agg: TermsAgg, bs: seq<Bucket>)
    requires Keys(bs) == OsKeys && agg.missingLabel == "Missing"
    ensures var rs := RenameMissing(agg, bs);
      "Missing" in Keys(rs) && FirstWithKey(rs, "Missing") == 2 &&
      rs[2] == Renamed(agg, bs[2]) && rs[..2] == bs[..2]
  {
    OsKeyQueries();
    assert bs[2].key == MissingKey && bs[0].key != MissingKey && bs[1].key != MissingKey;
    FirstWithKeyUnique(bs, MissingKey, 2);
    RenameMissingEffect(agg, bs);
    RenameMissingKeys(agg, bs);
  }
}
