/**
  Where and what `mergeOtherBucketAggResponse` adds: exactly one bucket at the end of the bucket
  list its label leads to, nothing when the label leads nowhere or counted nothing, and, for a
  request built from the same response, a phrases filter over exactly the terms shown.
*/
module OtherBucketMergeProperties {
  import opened Wrappers
  import opened AggResponse
  import opened OtherBucketBuild
  import opened OtherBucketBuildProperties
  import opened OtherBucketMerge

  /** `ks` without the missing-bucket key, in order. */
  function ShownTerms(ks: seq<string>): (ts: seq<string>)
    ensures forall t :: t in ts <==> t in ks && t != MissingKey
  {
    if ks == [] then []
    else
      assert forall k :: k in ks <==> k == ks[0] || k in ks[1..];
      (if ks[0] == MissingKey then [] else [ks[0]]) + ShownTerms(ks[1..])
  }

  lemma {:induction false} OtherTermsAppend(qs: seq<Query>, rs: seq<Query>, field: string)
    ensures OtherTerms(qs + rs, field) == OtherTerms(qs, field) + OtherTerms(rs, field)
  {
    if qs == [] {
      assert qs + rs == rs;
    } else {
      assert (qs + rs)[0] == qs[0] && (qs + rs)[1..] == qs[1..] + rs;
      OtherTermsAppend(qs[1..], rs, field);
    }
  }

  /**
    The terms the merge step reads out of a built filter are the keys the build step excluded:
    every shown key except `__missing__`, in response order.
  */
  lemma {:induction false} ExcludedTermsReadBack(field: string, ks: seq<string>)
    ensures OtherTerms(MustNotOf(field, ks), field) == ShownTerms(ks)
  {
    if ks != [] {
      var head := if ks[0] == MissingKey then [] else [MatchPhrase(field, ks[0])];
      assert MustNotOf(field, ks) == head + MustNotOf(field, ks[1..]);
      OtherTermsAppend(head, MustNotOf(field, ks[1..]), field);
      ExcludedTermsReadBack(field, ks[1..]);
    }
  }

  /** When the merge step's walk finds no bucket list, pushing leaves the response unchanged. */
  lemma {:induction false} AppendAtNowhere(r: AggResult, level: nat, target: nat, parts: seq<string>, ob: Bucket)
    requires BucketsAt(r, level, target, parts).None?
    ensures AppendAt(r, level, target, parts, ob) == r
    decreases |parts|
  {
    if parts != [] {
      if parts[0] !in Keys(r.buckets) {
        AppendAtNowhere(r, level, target, parts[1..], ob);
      } else {
        var b := r.buckets[FirstWithKey(r.buckets, parts[0])];
        if b.sub.Some? {
          AppendAtNowhere(b.sub.value, level + 1, target, parts[1..], ob);
          assert r.buckets[FirstWithKey(r.buckets, parts[0]) := b] == r.buckets;
        }
      }
    }
  }

  /**
    The walk of the merge step finds the same bucket list after the push, now ending with the
    pushed bucket. The pushed bucket's key matters only among the parts from index
    `target - level` on: the walk cannot reach the target level before using up that many, and
    a part still left there that names the pushed bucket would redirect the walk through it.
  */
  lemma {:induction false} AppendAtFound(r: AggResult, level: nat, target: nat, parts: seq<string>, ob: Bucket)
    requires BucketsAt(r, level, target, parts).Some?
    requires ob.key !in parts[target - level..]
    ensures BucketsAt(AppendAt(r, level, target, parts, ob), level, target, parts) ==
      Some(BucketsAt(r, level, target, parts).value + [ob])
    ensures SameOffPath(r, AppendAt(r, level, target, parts, ob), parts)
    decreases |parts|
  {
    AppendAtFrame(r, level, target, parts, ob);
    if parts != [] {
      if parts[0] !in Keys(r.buckets) {
        assert ob.key !in parts[1..][target - level..] by {
          assert parts[1..][target - level..] == parts[target - level..][1..];
        }
        AppendAtFound(r, level, target, parts[1..], ob);
        if level == target {
          assert parts[0] in parts[target - level..];
        }
        FoundPast(r, level, target, parts, ob);
      } else {
        var b := r.buckets[FirstWithKey(r.buckets, parts[0])];
        assert parts[1..][target - (level + 1)..] == parts[target - level..];
        AppendAtFound(b.sub.value, level + 1, target, parts[1..], ob);
        FoundThrough(r, level, target, parts, ob);
      }
    }
  }

  /**
    A part naming no bucket is skipped both before and after the push: above the target level
    the push adds no key, and at it the pushed key differs from the part.
  */
  lemma FoundPast(r: AggResult, level: nat, target: nat, parts: seq<string>, ob: Bucket)
    requires parts != [] && parts[0] !in Keys(r.buckets) && (level < target || ob.key != parts[0])
    requires BucketsAt(r, level, target, parts[1..]).Some?
    requires BucketsAt(AppendAt(r, level, target, parts[1..], ob), level, target, parts[1..]) ==
      Some(BucketsAt(r, level, target, parts[1..]).value + [ob])
    ensures BucketsAt(AppendAt(r, level, target, parts, ob), level, target, parts) ==
      Some(BucketsAt(r, level, target, parts).value + [ob])
  {
    var r' := AppendAt(r, level, target, parts[1..], ob);
    if level < target {
      AppendAtKeysAbove(r, level, target, parts[1..], ob);
    } else {
      AppendAtKeys(r, level, target, parts[1..], ob);
    }
    assert parts[0] !in Keys(r'.buckets);
  }

  /** Starting above the target level, the push keeps the keys of the list the walk starts from. */
  lemma {:induction false} AppendAtKeysAbove(r: AggResult, level: nat, target: nat, parts: seq<string>, ob: Bucket)
    requires level < target
    ensures Keys(AppendAt(r, level, target, parts, ob).buckets) == Keys(r.buckets)
    decreases |parts|
  {
    var r' := AppendAt(r, level, target, parts, ob);
    if parts != [] {
      if parts[0] !in Keys(r.buckets) {
        AppendAtKeysAbove(r, level, target, parts[1..], ob);
      } else {
        assert forall i :: 0 <= i < |r.buckets| ==> Keys(r'.buckets)[i] == Keys(r.buckets)[i];
      }
    }
  }

  /** A part naming a bucket leads, before and after the push, into that bucket's sub-results. */
  lemma FoundThrough(r: AggResult, level: nat, target: nat, parts: seq<string>, ob: Bucket)
    requires parts != [] && parts[0] in Keys(r.buckets)
    requires var b := r.buckets[FirstWithKey(r.buckets, parts[0])];
      b.sub.Some? && BucketsAt(b.sub.value, level + 1, target, parts[1..]).Some? &&
      BucketsAt(AppendAt(b.sub.value, level + 1, target, parts[1..], ob), level + 1, target, parts[1..]) ==
        Some(BucketsAt(b.sub.value, level + 1, target, parts[1..]).value + [ob])
    ensures BucketsAt(AppendAt(r, level, target, parts, ob), level, target, parts) ==
      Some(BucketsAt(r, level, target, parts).value + [ob])
  {
    var j := FirstWithKey(r.buckets, parts[0]);
    var b := r.buckets[j];
    var b' := b.(sub := Some(AppendAt(b.sub.value, level + 1, target, parts[1..], ob)));
    var r' := AggResult(r.buckets[j := b']);
    assert r' == AppendAt(r, level, target, parts, ob);
    FirstWithKeyUnique(r'.buckets, parts[0], j);
  }

  /** The push adds at most the pushed bucket's key to the keys at the level the walk starts from. */
  lemma {:induction false} AppendAtKeys(r: AggResult, level: nat, target: nat, parts: seq<string>, ob: Bucket)
    ensures forall k :: k in Keys(AppendAt(r, level, target, parts, ob).buckets) ==> k in Keys(r.buckets) || k == ob.key
    decreases |parts|
  {
    var r' := AppendAt(r, level, target, parts, ob);
    if parts == [] {
      assert Keys(r'.buckets) == Keys(r.buckets) || Keys(r'.buckets) == Keys(r.buckets) + [ob.key] by {
        if level == target {
          assert r'.buckets == r.buckets + [ob];
          assert Keys(r'.buckets) == Keys(r.buckets) + [ob.key];
        }
      }
    } else if parts[0] !in Keys(r.buckets) {
      AppendAtKeys(r, level, target, parts[1..], ob);
    } else {
      forall k | k in Keys(r'.buckets)
        ensures k in Keys(r.buckets)
      {
        var i :| 0 <= i < |r'.buckets| && Keys(r'.buckets)[i] == k;
        assert r'.buckets[i].key == r.buckets[i].key;
        assert Keys(r.buckets)[i] == k;
      }
    }
  }

  /**
    Merging one bucket of the `other-filter` response: a bucket that counted nothing, or whose
    label leads to no bucket list of the target aggregation, changes nothing; otherwise the list
    the label leads to gains exactly one bucket at its end, keyed with the other-bucket label,
    counting the other bucket's documents, and filtered by a negated phrases filter over the
    request's excluded terms plus, when the list has a missing bucket, an `exists` filter. No
    bucket list off the label's path changes in any case.
  */
  lemma MergeOneEffect(aggs: seq<TermsAgg>, target: nat, req: OtherFilterRequest, r: AggResult, ob: OtherBucket)
    requires target < |aggs| && (ob.docCount > 0 ==> ob.path in req.filters)
    ensures SameOffPath(r, MergeOne(aggs, target, req, r, ob), Parts(ob.path))
    ensures ob.docCount == 0 || BucketsAt(r, 0, target, Parts(ob.path)).None? ==> MergeOne(aggs, target, req, r, ob) == r
    ensures (ob.docCount > 0 && BucketsAt(r, 0, target, Parts(ob.path)).Some? &&
             aggs[target].otherLabel !in Parts(ob.path)[target..]) ==>
      var found := BucketsAt(r, 0, target, Parts(ob.path)).value;
      var agg := aggs[target];
      BucketsAt(MergeOne(aggs, target, req, r, ob), 0, target, Parts(ob.path)) == Some(found + [Bucket(
        agg.otherLabel, ob.docCount, ob.sub,
        Some([PhrasesFilter(agg.field, OtherTerms(req.filters[ob.path].mustNot, agg.field), agg.indexPattern, true)] +
          (if MissingKey in Keys(found) then [ExistsFilter(agg.field, agg.indexPattern, false)] else [])))])
  {
    if ob.docCount > 0 {
      var agg := aggs[target];
      var parts := Parts(ob.path);
      var found := BucketsAt(r, 0, target, parts);
      var missing := found.Some? && MissingKey in Keys(found.value);
      var other := OtherBucketFor(agg, OtherTerms(req.filters[ob.path].mustNot, agg.field), missing, ob);
      if found.None? {
        AppendAtNowhere(r, 0, target, parts, other);
      } else if agg.otherLabel !in parts[target..] {
        AppendAtFound(r, 0, target, parts, other);
      }
    }
  }

  /**
    Merging into the response the request was built from: a label the build produced has
    exactly `target` parts, so the other-bucket label is never left among them and the list the
    label leads to always gains the "Other" bucket at its end.
  */
  lemma BuiltLabelMerge(aggs: seq<TermsAgg>, target: nat, root: AggResult, ob: OtherBucket)
    requires target < |aggs| && PlainKeys(target, 0, root)
    requires OtherFilterAgg(aggs, target, root).Success?
    requires ob.path in OtherFilterAgg(aggs, target, root).value.filters && ob.docCount > 0
    requires BucketsAt(root, 0, target, Parts(ob.path)).Some?
    ensures var req := OtherFilterAgg(aggs, target, root).value;
      var found := BucketsAt(root, 0, target, Parts(ob.path)).value;
      var agg := aggs[target];
      BucketsAt(MergeOne(aggs, target, req, root, ob), 0, target, Parts(ob.path)) == Some(found + [Bucket(
        agg.otherLabel, ob.docCount, ob.sub,
        Some([PhrasesFilter(agg.field, OtherTerms(req.filters[ob.path].mustNot, agg.field), agg.indexPattern, true)] +
          (if MissingKey in Keys(found) then [ExistsFilter(agg.field, agg.indexPattern, false)] else [])))])
  {
    LabelsNamePaths(aggs, target, root);
    assert Parts(ob.path)[target..] == [];
    MergeOneEffect(aggs, target, OtherFilterAgg(aggs, target, root).value, root, ob);
  }

  /**
    A single terms aggregation merged with the single `''` bucket of its `other-filter`
    response: the response's buckets are kept and followed by one "Other" bucket whose phrases
    filter lists the shown keys except `__missing__`, plus an `exists` filter when a missing
    bucket was shown.
  */
  lemma SingleTermMerge(aggs: seq<TermsAgg>, root: AggResult, count: nat, sub: Option<AggResult>)
    requires |aggs| >= 1 && |root.buckets| >= 1 && count > 0
    ensures OtherFilterAgg(aggs, 0, root).Success?
    ensures "" in OtherFilterAgg(aggs, 0, root).value.filters
    ensures var agg := aggs[0];
      MergeAll(aggs, 0, OtherFilterAgg(aggs, 0, root).value, root, [OtherBucket("", count, sub)]) ==
        AggResult(root.buckets + [Bucket(agg.otherLabel, count, sub,
          Some([PhrasesFilter(agg.field, ShownTerms(Keys(root.buckets)), agg.indexPattern, true)] +
            (if MissingKey in Keys(root.buckets) then [ExistsFilter(agg.field, agg.indexPattern, false)] else [])))])
  {
    SingleTermRequest(aggs, root);
    var req := OtherFilterAgg(aggs, 0, root).value;
    var ob := OtherBucket("", count, sub);
    assert Parts("") == [];
    ExcludedTermsReadBack(aggs[0].field, Keys(root.buckets));
    assert [ob][..0] == [];
    assert MergeAll(aggs, 0, req, root, [ob]) == MergeOne(aggs, 0, req, root, ob);
  }

  /**
    Two nested terms aggregations: merging the `'-' + key` bucket of the `other-filter` response
    appends one "Other" bucket to the inner list of the outer bucket with that key and changes
    no other outer bucket.
  */
  lemma NestedTermMerge(aggs: seq<TermsAgg>, root: AggResult, i: nat, count: nat, req: OtherFilterRequest)
    requires |aggs| >= 2 && i < |root.buckets| && DistinctKeys(root.buckets) && count > 0
    requires PlainKey(root.buckets[i].key) && root.buckets[i].sub.Some?
    requires "-" + root.buckets[i].key in req.filters
    ensures var ob := OtherBucket("-" + root.buckets[i].key, count, None);
      var merged := MergeAll(aggs, 1, req, root, [ob]);
      var inner := root.buckets[i].sub.value.buckets;
      var agg := aggs[1];
      |merged.buckets| == |root.buckets| &&
      (forall j :: 0 <= j < |root.buckets| && j != i ==> merged.buckets[j] == root.buckets[j]) &&
      merged.buckets[i] == root.buckets[i].(sub := Some(AggResult(inner + [Bucket(agg.otherLabel, count, None,
        Some([PhrasesFilter(agg.field, OtherTerms(req.filters[ob.path].mustNot, agg.field), agg.indexPattern, true)] +
          (if MissingKey in Keys(inner) then [ExistsFilter(agg.field, agg.indexPattern, false)] else [])))])))
  {
    var k := root.buckets[i].key;
    var ob := OtherBucket("-" + k, count, None);
    assert Label([k]) == "-" + k by {
      assert [k][..0] == [];
    }
    PartsOfLabel([k]);
    assert Parts(ob.path) == [k];
    assert [ob][..0] == [];
    assert MergeAll(aggs, 1, req, root, [ob]) == MergeOne(aggs, 1, req, root, ob);
    var inner := root.buckets[i].sub.value.buckets;
    var missing := MissingKey in Keys(inner);
    var other := OtherBucketFor(aggs[1], OtherTerms(req.filters[ob.path].mustNot, aggs[1].field), missing, ob);
    AppendAtOuter(root, i, other);
  }

  lemma AppendAtOuter(r: AggResult, i: nat, ob: Bucket)
    requires i < |r.buckets| && DistinctKeys(r.buckets) && r.buckets[i].sub.Some?
    ensures BucketsAt(r, 0, 1, [r.buckets[i].key]) == Some(r.buckets[i].sub.value.buckets)
    ensures AppendAt(r, 0, 1, [r.buckets[i].key], ob) ==
      AggResult(r.buckets[i := r.buckets[i].(sub := Some(AggResult(r.buckets[i].sub.value.buckets + [ob])))])
  {
    var k := r.buckets[i].key;
    FirstWithKeyUnique(r.buckets, k, i);
    assert [k][1..] == [];
  }
}
