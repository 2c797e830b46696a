/**
  `buildOtherBucketAgg(aggConfigs, aggWithOtherBucket, response)`: walks the bucket tree of a
  terms response down to the aggregation that wants an "Other" bucket and builds, for every
  path of ancestor buckets, one filter of a `filters` aggregation that matches the documents of
  that path which fell outside the top terms shown. The result is a deferred builder.
*/
module OtherBucketBuild {
  import opened Wrappers
  import opened AggResponse

  /** Why no builder is returned: a level of the tree lacks its aggregation, or has no bucket. */
  datatype BuildError = MissingAggregation | NoBucketResults

  /** The `other-filter` aggregation: the target's child aggregations and the labelled filters. */
  datatype OtherFilterRequest = OtherFilterRequest(aggs: Option<seq<TermsAgg>>, filters: map<string, BoolQuery>)

  /** One filter the walk produces: its bucket-path label and the filters it is built from. */
  datatype OtherFilter = OtherFilter(path: string, filters: seq<Filter>)

  /** Every bucket above level `target` holds the result of the next aggregation of the chain. */
  predicate Reaches(target: nat, level: nat, r: AggResult)
    decreases target - level
  {
    level < target ==>
      forall b :: b in r.buckets ==> b.sub.Some? && Reaches(target, level + 1, b.sub.value)
  }

  /** Every aggregation result down to level `target` has at least one bucket. */
  predicate HasBuckets(target: nat, level: nat, r: AggResult)
    decreases target - level
  {
    |r.buckets| >= 1 &&
    (level < target ==>
      forall b :: b in r.buckets && b.sub.Some? ==> HasBuckets(target, level + 1, b.sub.value))
  }

  /** No bucket above level `target` carries filters of its own. */
  predicate Unfiltered(target: nat, level: nat, r: AggResult)
    decreases target - level
  {
    level < target ==>
      forall b :: b in r.buckets ==>
        b.filters.None? && (b.sub.Some? ==> Unfiltered(target, level + 1, b.sub.value))
  }

  /**
    The filter an ancestor bucket contributes: a copy of the bucket's own filters when it has
    some, otherwise `createFilter(key)` of the terms aggregation: for the `__missing__` bucket a
    negated `exists` filter on the ancestor aggregation's field, for any other key a phrase
    filter on that field.
  */
  function Ancestor(agg: TermsAgg, b: Bucket): seq<Filter>
  {
    if b.filters.Some? then b.filters.value
    else if b.key == MissingKey then [ExistsFilter(agg.field, agg.indexPattern, true)]
    else [PhraseFilter(agg.field, b.key, agg.indexPattern, false)]
  }

  /**
    The `exists` filter on the target field, added unless the aggregation asks for a missing
    bucket and none came back.
  */
  function ExistsPart(agg: TermsAgg, bs: seq<Bucket>): seq<Filter>
  {
    if !agg.missingBucket || MissingKey in Keys(bs) then [ExistsFilter(agg.field, agg.indexPattern, false)] else []
  }

  /** One negated phrase filter per key of `ks` other than the missing-bucket key. */
  function Excluded(agg: TermsAgg, ks: seq<string>): (fs: seq<Filter>)
    ensures forall f :: f in fs ==>
      f.PhraseFilter? && f.field == agg.field && f.index == agg.indexPattern && f.negate &&
      f.value != MissingKey && f.value in ks
  {
    if ks == [] then []
    else
      var rest := Excluded(agg, ks[1..]);
      assert forall k :: k in ks[1..] ==> k in ks;
      if ks[0] == MissingKey then rest else [PhraseFilter(agg.field, ks[0], agg.indexPattern, true)] + rest
  }

  /** The filters closing the walk at the target aggregation's result `r`. */
  function TargetFilters(agg: TermsAgg, r: AggResult): seq<Filter>
  {
    ExistsPart(agg, r.buckets) + Excluded(agg, Keys(r.buckets))
  }

  /**
    `walkBucketTree`: at the target level one filter labelled `path`; above it, the filters of
    every bucket in order, each bucket adding its own filter and `'-' + key` to the label. When
    every level down to the target has a bucket, at least one filter comes out.
  */
  function Walk(aggs: seq<TermsAgg>, target: nat, level: nat, r: AggResult, filters: seq<Filter>, path: string): (es: seq<OtherFilter>)
    requires level <= target < |aggs|
    requires Reaches(target, level, r)
    ensures HasBuckets(target, level, r) ==> es != []
    decreases target - level, |r.buckets|, 1
  {
    if level == target then [OtherFilter(path, filters + TargetFilters(aggs[target], r))]
    else WalkBuckets(aggs, target, level, r.buckets, filters, path)
  }

  function WalkBuckets(aggs: seq<TermsAgg>, target: nat, level: nat, bs: seq<Bucket>, filters: seq<Filter>, path: string): (es: seq<OtherFilter>)
    requires level < target < |aggs|
    requires forall b :: b in bs ==> b.sub.Some? && Reaches(target, level + 1, b.sub.value)
    ensures bs != [] && HasBuckets(target, level + 1, bs[0].sub.value) ==> es != []
    decreases target - level, |bs|, 0
  {
    if bs == [] then []
    else
      var b := bs[0];
      Walk(aggs, target, level + 1, b.sub.value, filters + Ancestor(aggs[level], b), path + "-" + b.key)
        + WalkBuckets(aggs, target, level, bs[1..], filters, path)
  }

  /** `resultAgg.filters.filters[key] = { bool: ... }` for every filter in order; a later label wins. */
  function FilterMap(es: seq<OtherFilter>): map<string, BoolQuery>
  {
    if es == [] then map[] else FilterMap(es[..|es| - 1])[es[|es| - 1].path := BoolOf(es[|es| - 1].filters)]
  }

  /** `getNestedAggDSL(aggs, id).aggs`: the aggregations nested below the target, if any. */
  function ChildAggs(aggs: seq<TermsAgg>, target: nat): Option<seq<TermsAgg>>
  {
    if target + 1 < |aggs| then Some(aggs[target + 1..]) else None
  }

  /** The `other-filter` aggregation the builder returns, or why there is none. */
  function OtherFilterAgg(aggs: seq<TermsAgg>, target: nat, root: AggResult): Result<OtherFilterRequest, BuildError>
    requires target < |aggs|
  {
    if !Reaches(target, 0, root) then Failure(MissingAggregation)
    else if !HasBuckets(target, 0, root) then Failure(NoBucketResults)
    else Success(OtherFilterRequest(ChildAggs(aggs, target), FilterMap(Walk(aggs, target, 0, root, [], ""))))
  }

  /**
    `buildOtherBucketAgg`: a function returning the `other-filter` aggregation when every level
    down to the target has its aggregation and a bucket. A level without its aggregation makes
    `buildOtherBucketAgg` throw; an empty level makes it return `false`.
  */
  function BuildOtherBucketAgg(aggs: seq<TermsAgg>, target: nat, root: AggResult): (r: Result<() -> OtherFilterRequest, BuildError>)
    requires target < |aggs|
    ensures r.Success? <==> Reaches(target, 0, root) && HasBuckets(target, 0, root)
    ensures r == Failure(MissingAggregation) <==> !Reaches(target, 0, root)
    ensures r.Success? ==> r.value() == OtherFilterAgg(aggs, target, root).value
  {
    match OtherFilterAgg(aggs, target, root)
    case Success(req) => Success(() => req)
    case Failure(e) => Failure(e)
  }
}
