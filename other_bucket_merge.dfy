/**
  `mergeOtherBucketAggResponse(aggConfigs, response, otherResponse, otherAgg, requestAgg)`:
  every non-empty bucket of the `other-filter` response becomes an "Other" bucket appended to
  the target aggregation's bucket list at the path its label names, carrying a negated phrases
  filter over the terms the request excluded.
*/
module OtherBucketMerge {
  import opened Wrappers
  import opened AggResponse
  import opened OtherBucketBuild

  /** A bucket of the `other-filter` response: its label, its count and its sub-aggregation results. */
  datatype OtherBucket = OtherBucket(path: string, docCount: nat, sub: Option<AggResult>)

  /**
    `getAggResultBuckets`: follow the key parts from the result `r` of the aggregation at
    `level`, stepping into the first bucket whose key matches a part and staying put when none
    does. The bucket list of the target aggregation is found only if the walk ends at its level;
    otherwise `getAggResultBuckets` hands back a fresh empty list, modelled as `None`. Each step into a
    bucket uses up one part, so the list is found only within `|parts|` levels, and a walk
    starting at the target level can only find the list it starts from.
  */
  function BucketsAt(r: AggResult, level: nat, target: nat, parts: seq<string>): (found: Option<seq<Bucket>>)
    ensures found.Some? ==> level <= target <= level + |parts|
    ensures found.Some? && level == target ==> found.value == r.buckets
    decreases |parts|
  {
    if parts == [] then (if level == target then Some(r.buckets) else None)
    else if parts[0] !in Keys(r.buckets) then BucketsAt(r, level, target, parts[1..])
    else
      var b := r.buckets[FirstWithKey(r.buckets, parts[0])];
      if b.sub.None? then None else BucketsAt(b.sub.value, level + 1, target, parts[1..])
  }

  /** The same walk, pushing `ob` onto the bucket list it finds; a list not found is left alone. */
  function AppendAt(r: AggResult, level: nat, target: nat, parts: seq<string>, ob: Bucket): AggResult
    decreases |parts|
  {
    if parts == [] then (if level == target then AggResult(r.buckets + [ob]) else r)
    else if parts[0] !in Keys(r.buckets) then AppendAt(r, level, target, parts[1..], ob)
    else
      var j := FirstWithKey(r.buckets, parts[0]);
      var b := r.buckets[j];
      if b.sub.None? then r
      else AggResult(r.buckets[j := b.(sub := Some(AppendAt(b.sub.value, level + 1, target, parts[1..], ob)))])
  }

  /** `getOtherAggTerms`: the values of the `match_phrase` clauses on `field`, in order. */
  function OtherTerms(qs: seq<Query>, field: string): (ts: seq<string>)
    ensures forall t :: t in ts <==> MatchPhrase(field, t) in qs
  {
    if qs == [] then []
    else
      assert forall q :: q in qs <==> q == qs[0] || q in qs[1..];
      if qs[0].MatchPhrase? && qs[0].field == field then [qs[0].query] + OtherTerms(qs[1..], field)
      else OtherTerms(qs[1..], field)
  }

  /**
    The "Other" bucket: the other-bucket label as key, the counted documents, a negated phrases
    filter over the excluded terms and, when the target list has a missing bucket, an `exists`
    filter on the field.
  */
  function OtherBucketFor(agg: TermsAgg, terms: seq<string>, missing: bool, ob: OtherBucket): Bucket
  {
    var phrases := PhrasesFilter(agg.field, terms, agg.indexPattern, true);
    var existence := if missing then [ExistsFilter(agg.field, agg.indexPattern, false)] else [];
    Bucket(agg.otherLabel, ob.docCount, ob.sub, Some([phrases] + existence))
  }

  /**
    `r2` differs from `r` at most inside the bucket list the walk along `parts` reaches: at
    every level the walk steps through, the list keeps its length and every bucket but the one
    stepped into, and that one keeps its key, count and filters and changes only below.
  */
  predicate SameOffPath(r: AggResult, r2: AggResult, parts: seq<string>)
    decreases |parts|
  {
    if parts == [] then true
    else if parts[0] !in Keys(r.buckets) then SameOffPath(r, r2, parts[1..])
    else
      var j := FirstWithKey(r.buckets, parts[0]);
      && |r2.buckets| == |r.buckets|
      && (forall i :: 0 <= i < |r.buckets| && i != j ==> r2.buckets[i] == r.buckets[i])
      && var b, b2 := r.buckets[j], r2.buckets[j];
         && b2.(sub := b.sub) == b
         && b2.sub.Some? == b.sub.Some?
         && (b.sub.Some? ==> SameOffPath(b.sub.value, b2.sub.value, parts[1..]))
  }

  /** Every response differs from itself only where any walk ends. */
  lemma {:induction false} SameOffPathRefl(r: AggResult, parts: seq<string>)
    ensures SameOffPath(r, r, parts)
    decreases |parts|
  {
    if parts != [] {
      if parts[0] !in Keys(r.buckets) {
        SameOffPathRefl(r, parts[1..]);
      } else {
        var b := r.buckets[FirstWithKey(r.buckets, parts[0])];
        if b.sub.Some? {
          SameOffPathRefl(b.sub.value, parts[1..]);
        }
      }
    }
  }

  /** The push changes nothing off the walk: no sibling list gains or loses a bucket. */
  lemma {:induction false} AppendAtFrame(r: AggResult, level: nat, target: nat, parts: seq<string>, ob: Bucket)
    ensures SameOffPath(r, AppendAt(r, level, target, parts, ob), parts)
    decreases |parts|
  {
    if parts != [] {
      if parts[0] !in Keys(r.buckets) {
        AppendAtFrame(r, level, target, parts[1..], ob);
      } else {
        var b := r.buckets[FirstWithKey(r.buckets, parts[0])];
        if b.sub.Some? {
          AppendAtFrame(b.sub.value, level + 1, target, parts[1..], ob);
        } else {
          SameOffPathRefl(r, parts);
        }
      }
    }
  }

  /**
    One bucket of the `other-filter` response merged into `r`; an empty one is skipped. No
    bucket list off the path its label names changes.
  */
  function MergeOne(aggs: seq<TermsAgg>, target: nat, req: OtherFilterRequest, r: AggResult, ob: OtherBucket): (m: AggResult)
    requires target < |aggs|
    requires ob.docCount > 0 ==> ob.path in req.filters
    ensures SameOffPath(r, m, Parts(ob.path))
  {
    if ob.docCount == 0 then
      SameOffPathRefl(r, Parts(ob.path));
      r
    else
      var agg := aggs[target];
      var parts := Parts(ob.path);
      var found := BucketsAt(r, 0, target, parts);
      var missing := found.Some? && MissingKey in Keys(found.value);
      var other := OtherBucketFor(agg, OtherTerms(req.filters[ob.path].mustNot, agg.field), missing, ob);
      AppendAtFrame(r, 0, target, parts, other);
      AppendAt(r, 0, target, parts, other)
  }

  /** The buckets of the `other-filter` response merged into `r` in order. */
  function MergeAll(aggs: seq<TermsAgg>, target: nat, req: OtherFilterRequest, r: AggResult, obs: seq<OtherBucket>): AggResult
    requires target < |aggs|
    requires forall ob :: ob in obs && ob.docCount > 0 ==> ob.path in req.filters
  {
    if obs == [] then r
    else MergeOne(aggs, target, req, MergeAll(aggs, target, req, r, obs[..|obs| - 1]), obs[|obs| - 1])
  }

  /**
    `mergeOtherBucketAggResponse`: a copy of the response into which every bucket of the
    `other-filter` response is merged, one after the other. A label the request does not hold
    makes `mergeOtherBucketAggResponse` throw, so the labels of non-empty buckets must come from the request.
  */
  method MergeOtherBucketAggResponse(aggs: seq<TermsAgg>, response: AggResult, otherResponse: seq<OtherBucket>,
                                     target: nat, req: OtherFilterRequest) returns (merged: AggResult)
    requires target < |aggs|
    requires forall ob :: ob in otherResponse && ob.docCount > 0 ==> ob.path in req.filters
    ensures merged == MergeAll(aggs, target, req, response, otherResponse)
  {
    merged := response;
    var agg := aggs[target];
    for i := 0 to |otherResponse|
      invariant merged == MergeAll(aggs, target, req, response, otherResponse[..i])
    {
      var ob := otherResponse[i];
      assert otherResponse[..i + 1][..i] == otherResponse[..i];
      if ob.docCount > 0 {
        var parts := Parts(ob.path);
        var terms := OtherTerms(req.filters[ob.path].mustNot, agg.field);
        var found := BucketsAt(merged, 0, target, parts);
        var missing := found.Some? && MissingKey in Keys(found.value);
        merged := AppendAt(merged, 0, target, parts, OtherBucketFor(agg, terms, missing, ob));
      }
    }
    assert otherResponse[..|otherResponse|] == otherResponse;
  }
}
