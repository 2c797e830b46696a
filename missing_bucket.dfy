/**
  `updateMissingBucket(response, aggConfigs, agg)`: in a copy of the response, the bucket the
  backend keyed `__missing__` in every bucket list of the aggregation `agg` is renamed to the
  aggregation's missing-bucket label and given one negated `exists` filter on its field.
*/
module MissingBucket {
  import opened Wrappers
  import opened AggResponse

  /** The renamed sentinel bucket: same count and sub-results, "documents lacking the field". */
  function Renamed(agg: TermsAgg, b: Bucket): Bucket
  {
    b.(key := agg.missingLabel, filters := Some([ExistsFilter(agg.field, agg.indexPattern, true)]))
  }

  /** The first bucket keyed `__missing__` (as `_.find` picks it) renamed; no such bucket, no change. */
  function RenameMissing(agg: TermsAgg, bs: seq<Bucket>): (rs: seq<Bucket>)
    ensures |rs| == |bs|
  {
    if MissingKey in Keys(bs) then
      var j := FirstWithKey(bs, MissingKey);
      bs[j := Renamed(agg, bs[j])]
    else bs
  }

  /**
    `getAggConfigResultMissingBuckets` followed by the rename: at the level of the target
    aggregation rename its sentinel bucket; above it, descend into every bucket's sub-results.
  */
  function UpdateMissing(agg: TermsAgg, target: nat, level: nat, r: AggResult): (u: AggResult)
    requires level <= target
    ensures |u.buckets| == |r.buckets|
    decreases target - level, |r.buckets|, 1
  {
    if level == target then AggResult(RenameMissing(agg, r.buckets))
    else AggResult(UpdateMissingIn(agg, target, level, r.buckets))
  }

  function UpdateMissingIn(agg: TermsAgg, target: nat, level: nat, bs: seq<Bucket>): (us: seq<Bucket>)
    requires level < target
    ensures |us| == |bs|
    decreases target - level, |bs|, 0
  {
    if bs == [] then []
    else
      var b := bs[0];
      var sub := if b.sub.Some? then Some(UpdateMissing(agg, target, level + 1, b.sub.value)) else None;
      [b.(sub := sub)] + UpdateMissingIn(agg, target, level, bs[1..])
  }

  /**
    `updateMissingBucket`: the response with the target aggregation's sentinel buckets renamed.
    Every bucket above the target level keeps its key, count and filters, and every bucket list
    of the target aggregation is renamed. A response without a sentinel comes back as it was;
    with at most one sentinel per list and a label other than `__missing__`, none is left. For
    the top-level aggregation, a sentinel is found afterwards by the missing-bucket label, with
    its count, its sub-results and the negated `exists` filter.
  */
  function UpdateMissingBucket(aggs: seq<TermsAgg>, target: nat, root: AggResult): (u: AggResult)
    requires target < |aggs|
    ensures |u.buckets| == |root.buckets|
    ensures RenamedAt(aggs[target], target, 0, root, u)
    ensures !SentinelAt(target, 0, root) ==> u == root
    ensures aggs[target].missingLabel != MissingKey && OneSentinelAt(target, 0, root) ==> !SentinelAt(target, 0, u)
    ensures target == 0 && MissingKey in Keys(root.buckets) && aggs[0].missingLabel !in Keys(root.buckets) ==>
      var j := FirstWithKey(root.buckets, MissingKey);
      aggs[0].missingLabel in Keys(u.buckets) && FirstWithKey(u.buckets, aggs[0].missingLabel) == j &&
      u.buckets[j].docCount == root.buckets[j].docCount && u.buckets[j].sub == root.buckets[j].sub &&
      u.buckets[j].filters == Some([ExistsFilter(aggs[0].field, aggs[0].indexPattern, true)])
  {
    var agg := aggs[target];
    var u := UpdateMissing(agg, target, 0, root);
    UpdateMissingRenames(agg, target, 0, root);
    if !SentinelAt(target, 0, root) then
      NoSentinelUnchanged(agg, target, 0, root);
      u
    else if target == 0 && agg.missingLabel !in Keys(root.buckets) then
      RenameMissingEffect(agg, root.buckets);
      if OneSentinelAt(target, 0, root) then UpdateRemovesSentinel(agg, target, 0, root); u else u
    else if agg.missingLabel != MissingKey && OneSentinelAt(target, 0, root) then
      UpdateRemovesSentinel(agg, target, 0, root);
      u
    else u
  }

  /**
    `u` is `r` with every bucket list of the target aggregation renamed: above the target level
    every bucket keeps its key, count and filters, and has sub-results exactly when it had them.
  */
  predicate RenamedAt(agg: TermsAgg, target: nat, level: nat, r: AggResult, u: AggResult)
    requires level <= target
    decreases target - level, 1
  {
    if level == target then u.buckets == RenameMissing(agg, r.buckets)
    else
      |u.buckets| == |r.buckets| &&
      forall i :: 0 <= i < |r.buckets| ==> BucketRenamed(agg, target, level, r.buckets[i], u.buckets[i])
  }

  /** Bucket `c` is `b` above the target level: same key, count and filters, renamed below. */
  predicate BucketRenamed(agg: TermsAgg, target: nat, level: nat, b: Bucket, c: Bucket)
    requires level < target
    decreases target - level, 0
  {
    c.(sub := b.sub) == b && c.sub.Some? == b.sub.Some? &&
    (b.sub.Some? ==> RenamedAt(agg, target, level + 1, b.sub.value, c.sub.value))
  }

  /** Some bucket list of the target aggregation holds a `__missing__` bucket. */
  predicate SentinelAt(target: nat, level: nat, r: AggResult)
    requires level <= target
    decreases target - level, |r.buckets|, 1
  {
    if level == target then MissingKey in Keys(r.buckets) else SentinelIn(target, level, r.buckets)
  }

  predicate SentinelIn(target: nat, level: nat, bs: seq<Bucket>)
    requires level < target
    decreases target - level, |bs|, 0
  {
    bs != [] &&
    ((bs[0].sub.Some? && SentinelAt(target, level + 1, bs[0].sub.value)) || SentinelIn(target, level, bs[1..]))
  }

  /** At most one bucket of `bs` is keyed `__missing__`, as the backend returns them. */
  predicate OneSentinel(bs: seq<Bucket>)
  {
    forall i, j :: 0 <= i < j < |bs| && bs[i].key == MissingKey ==> bs[j].key != MissingKey
  }

  /** Every bucket list of the target aggregation holds at most one `__missing__` bucket. */
  predicate OneSentinelAt(target: nat, level: nat, r: AggResult)
    requires level <= target
    decreases target - level, |r.buckets|, 1
  {
    if level == target then OneSentinel(r.buckets) else OneSentinelIn(target, level, r.buckets)
  }

  predicate OneSentinelIn(target: nat, level: nat, bs: seq<Bucket>)
    requires level < target
    decreases target - level, |bs|, 0
  {
    bs == [] ||
    ((bs[0].sub.Some? ==> OneSentinelAt(target, level + 1, bs[0].sub.value)) && OneSentinelIn(target, level, bs[1..]))
  }

  /**
    The rename as the `updateMissingBucket` test reads it back: when the list had a sentinel and no bucket
    yet carried the missing-bucket label, the first bucket found by that label is the former
    sentinel, with its count, its sub-results and one negated `exists` filter on the field.
  */
  lemma RenameMissingEffect(agg: TermsAgg, bs: seq<Bucket>)
    requires MissingKey in Keys(bs) && agg.missingLabel !in Keys(bs)
    ensures var rs := RenameMissing(agg, bs);
      var j := FirstWithKey(bs, MissingKey);
      agg.missingLabel in Keys(rs) &&
      FirstWithKey(rs, agg.missingLabel) == j &&
      rs[j].docCount == bs[j].docCount && rs[j].sub == bs[j].sub &&
      rs[j].filters == Some([ExistsFilter(agg.field, agg.indexPattern, true)])
  {
    var rs := RenameMissing(agg, bs);
    var j := FirstWithKey(bs, MissingKey);
    forall i | 0 <= i < j
      ensures rs[i].key != agg.missingLabel
    {
      assert Keys(bs)[i] == bs[i].key;
    }
    FirstWithKeyUnique(rs, agg.missingLabel, j);
  }

  /** The rename changes the key of the first sentinel bucket and no other bucket. */
  lemma RenameMissingKeys(agg: TermsAgg, bs: seq<Bucket>)
    requires MissingKey in Keys(bs)
    ensures var rs := RenameMissing(agg, bs);
      var j := FirstWithKey(bs, MissingKey);
      Keys(rs) == Keys(bs)[j := agg.missingLabel] &&
      (forall i :: 0 <= i < |bs| && i != j ==> rs[i] == bs[i])
  {
    var rs := RenameMissing(agg, bs);
    var j := FirstWithKey(bs, MissingKey);
    assert rs == bs[j := Renamed(agg, bs[j])];
    KeysUpdate(bs, j, Renamed(agg, bs[j]));
  }

  /** Replacing one bucket replaces its key and no other. */
  lemma KeysUpdate(bs: seq<Bucket>, j: nat, b: Bucket)
    requires j < |bs|
    ensures Keys(bs[j := b]) == Keys(bs)[j := b.key]
  {
    var ks, ks' := Keys(bs[j := b]), Keys(bs)[j := b.key];
    assert |ks| == |ks'|;
    forall i | 0 <= i < |ks|
      ensures ks[i] == ks'[i]
    {
    }
  }

  /** With at most one sentinel and a label other than `__missing__`, no sentinel survives the rename. */
  lemma RenameRemovesSentinel(agg: TermsAgg, bs: seq<Bucket>)
    requires agg.missingLabel != MissingKey && OneSentinel(bs)
    ensures MissingKey !in Keys(RenameMissing(agg, bs))
  {
    var rs := RenameMissing(agg, bs);
    if MissingKey in Keys(bs) {
      var j := FirstWithKey(bs, MissingKey);
      forall i | 0 <= i < |rs|
        ensures Keys(rs)[i] != MissingKey
      {
        if i != j {
          assert rs[i] == bs[i];
        }
      }
    }
  }

  /** The update renames every bucket list of the target aggregation and keeps every bucket above it. */
  lemma {:induction false} UpdateMissingRenames(agg: TermsAgg, target: nat, level: nat, r: AggResult)
    requires level <= target
    ensures RenamedAt(agg, target, level, r, UpdateMissing(agg, target, level, r))
    decreases target - level, |r.buckets|, 1
  {
    if level < target {
      UpdateMissingInRenames(agg, target, level, r.buckets);
    }
  }

  lemma {:induction false} UpdateMissingInRenames(agg: TermsAgg, target: nat, level: nat, bs: seq<Bucket>)
    requires level < target
    ensures var us := UpdateMissingIn(agg, target, level, bs);
      forall i :: 0 <= i < |bs| ==> BucketRenamed(agg, target, level, bs[i], us[i])
    decreases target - level, |bs|, 0
  {
    if bs != [] {
      var us := UpdateMissingIn(agg, target, level, bs);
      if bs[0].sub.Some? {
        UpdateMissingRenames(agg, target, level + 1, bs[0].sub.value);
      }
      UpdateMissingInRenames(agg, target, level, bs[1..]);
      assert us[1..] == UpdateMissingIn(agg, target, level, bs[1..]);
      forall i | 1 <= i < |bs|
        ensures BucketRenamed(agg, target, level, bs[i], us[i])
      {
        assert bs[i] == bs[1..][i - 1] && us[i] == us[1..][i - 1];
      }
    }
  }

  /** A response without a sentinel at the target level comes back unchanged. */
  lemma {:induction false} NoSentinelUnchanged(agg: TermsAgg, target: nat, level: nat, r: AggResult)
    requires level <= target && !SentinelAt(target, level, r)
    ensures UpdateMissing(agg, target, level, r) == r
    decreases target - level, |r.buckets|, 1
  {
    if level < target {
      NoSentinelUnchangedIn(agg, target, level, r.buckets);
    }
  }

  lemma {:induction false} NoSentinelUnchangedIn(agg: TermsAgg, target: nat, level: nat, bs: seq<Bucket>)
    requires level < target && !SentinelIn(target, level, bs)
    ensures UpdateMissingIn(agg, target, level, bs) == bs
    decreases target - level, |bs|, 0
  {
    if bs != [] {
      if bs[0].sub.Some? {
        NoSentinelUnchanged(agg, target, level + 1, bs[0].sub.value);
      }
      NoSentinelUnchangedIn(agg, target, level, bs[1..]);
      assert [bs[0]] + bs[1..] == bs;
    }
  }

  /** After the update no bucket list of the target aggregation still holds a sentinel. */
  lemma {:induction false} UpdateRemovesSentinel(agg: TermsAgg, target: nat, level: nat, r: AggResult)
    requires level <= target && agg.missingLabel != MissingKey && OneSentinelAt(target, level, r)
    ensures !SentinelAt(target, level, UpdateMissing(agg, target, level, r))
    decreases target - level, |r.buckets|, 1
  {
    if level == target {
      RenameRemovesSentinel(agg, r.buckets);
    } else {
      UpdateRemovesSentinelIn(agg, target, level, r.buckets);
    }
  }

  lemma {:induction false} UpdateRemovesSentinelIn(agg: TermsAgg, target: nat, level: nat, bs: seq<Bucket>)
    requires level < target && agg.missingLabel != MissingKey && OneSentinelIn(target, level, bs)
    ensures !SentinelIn(target, level, UpdateMissingIn(agg, target, level, bs))
    decreases target - level, |bs|, 0
  {
    if bs != [] {
      var us := UpdateMissingIn(agg, target, level, bs);
      if bs[0].sub.Some? {
        UpdateRemovesSentinel(agg, target, level + 1, bs[0].sub.value);
      }
      UpdateRemovesSentinelIn(agg, target, level, bs[1..]);
      assert us[1..] == UpdateMissingIn(agg, target, level, bs[1..]);
    }
  }

  /**
    Updating twice is updating once, provided the backend returned at most one sentinel per
    list and the label is not the sentinel itself.
  */
  lemma UpdateMissingIdempotent(aggs: seq<TermsAgg>, target: nat, root: AggResult)
    requires target < |aggs| && aggs[target].missingLabel != MissingKey && OneSentinelAt(target, 0, root)
    ensures var once := UpdateMissingBucket(aggs, target, root);
      UpdateMissingBucket(aggs, target, once) == once
  {
    var once := UpdateMissingBucket(aggs, target, root);
    UpdateRemovesSentinel(aggs[target], target, 0, root);
    NoSentinelUnchanged(aggs[target], target, 0, once);
  }
}
