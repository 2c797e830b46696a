/**
  What the "other" filters built by `buildOtherBucketAgg` contain: for one level, the exact
  query; for two levels, one query per outer bucket; at any depth, that the missing-bucket key
  is never excluded and that every label names a path of buckets of the response.
*/
module OtherBucketBuildProperties {
  import opened Wrappers
  import opened AggResponse
  import opened OtherBucketBuild

  /** The `must_not` clauses expected for target keys `ks`: a `match_phrase` per key except `__missing__`. */
  function MustNotOf(field: string, ks: seq<string>): (qs: seq<Query>)
    ensures forall q :: q in qs <==> exists k :: k in ks && k != MissingKey && q == MatchPhrase(field, k)
  {
    if ks == [] then []
    else
      assert forall k :: k in ks <==> k == ks[0] || k in ks[1..];
      (if ks[0] == MissingKey then [] else [MatchPhrase(field, ks[0])]) + MustNotOf(field, ks[1..])
  }

  /** The `exists` clause expected in `must` for the target's result buckets `bs`. */
  function ExistsQuery(agg: TermsAgg, bs: seq<Bucket>): seq<Query>
  {
    if !agg.missingBucket || MissingKey in Keys(bs) then [Exists(agg.field)] else []
  }

  predicate DistinctKeys(bs: seq<Bucket>)
  {
    forall i, j :: 0 <= i < j < |bs| ==> bs[i].key != bs[j].key
  }

  lemma {:induction false} ExcludedKept(agg: TermsAgg, ks: seq<string>)
    ensures Kept(Excluded(agg, ks), true) == MustNotOf(agg.field, ks)
    ensures Kept(Excluded(agg, ks), false) == []
  {
    if ks != [] {
      ExcludedKept(agg, ks[1..]);
      var head := if ks[0] == MissingKey then [] else [PhraseFilter(agg.field, ks[0], agg.indexPattern, true)];
      assert Excluded(agg, ks) == head + Excluded(agg, ks[1..]);
      KeptAppend(head, Excluded(agg, ks[1..]), true);
      KeptAppend(head, Excluded(agg, ks[1..]), false);
    }
  }

  /**
    The bool query of a walk ending at result `r` of `agg`: the ancestors' positive clauses then
    the `exists` clause in `must`, and the ancestors' negated clauses then the excluded top keys
    in `must_not`.
  */
  lemma TargetQuery(agg: TermsAgg, prefix: seq<Filter>, r: AggResult)
    ensures BoolOf(prefix + TargetFilters(agg, r)) ==
      BoolQuery(Kept(prefix, false) + ExistsQuery(agg, r.buckets), [], [],
        Kept(prefix, true) + MustNotOf(agg.field, Keys(r.buckets)))
  {
    var e, x := ExistsPart(agg, r.buckets), Excluded(agg, Keys(r.buckets));
    assert prefix + TargetFilters(agg, r) == prefix + (e + x);
    ExcludedKept(agg, Keys(r.buckets));
    KeptAppend(e, x, false);
    KeptAppend(e, x, true);
    assert Kept(e, false) == ExistsQuery(agg, r.buckets) && Kept(e, true) == [];
    assert Kept(e + x, false) == ExistsQuery(agg, r.buckets) by {
      assert Kept(e, false) + [] == Kept(e, false);
    }
    assert Kept(e + x, true) == MustNotOf(agg.field, Keys(r.buckets)) by {
      assert [] + Kept(x, true) == Kept(x, true);
    }
    KeptAppend(prefix, e + x, false);
    KeptAppend(prefix, e + x, true);
  }

  /**
    A single terms aggregation: one filter labelled `''` whose `must` is the `exists` clause
    and whose `must_not` excludes every returned key except `__missing__`, in response order.
  */
  lemma SingleTermRequest(aggs: seq<TermsAgg>, root: AggResult)
    requires |aggs| >= 1 && |root.buckets| >= 1
    ensures BuildOtherBucketAgg(aggs, 0, root).Success?
    ensures OtherFilterAgg(aggs, 0, root) == Success(OtherFilterRequest(ChildAggs(aggs, 0),
      map["" := BoolQuery(ExistsQuery(aggs[0], root.buckets), [], [], MustNotOf(aggs[0].field, Keys(root.buckets)))]))
  {
    var es := Walk(aggs, 0, 0, root, [], "");
    assert es == [OtherFilter("", [] + TargetFilters(aggs[0], root))];
    TargetQuery(aggs[0], [], root);
    assert [] + TargetFilters(aggs[0], root) == TargetFilters(aggs[0], root);
    assert Kept([], false) + ExistsQuery(aggs[0], root.buckets) == ExistsQuery(aggs[0], root.buckets);
    assert Kept([], true) + MustNotOf(aggs[0].field, Keys(root.buckets)) == MustNotOf(aggs[0].field, Keys(root.buckets));
    assert FilterMap(es) == map[][es[0].path := BoolOf(es[0].filters)];
    assert Reaches(0, 0, root) && HasBuckets(0, 0, root);
  }

  /** `e` is the filter the walk gives outer bucket `b` of two nested terms aggregations. */
  predicate NestedEntry(aggs: seq<TermsAgg>, b: Bucket, e: OtherFilter)
    requires |aggs| >= 2
  {
    b.sub.Some? && e == OtherFilter("-" + b.key, Ancestor(aggs[0], b) + TargetFilters(aggs[1], b.sub.value))
  }

  lemma {:induction false} NestedEntries(aggs: seq<TermsAgg>, bs: seq<Bucket>)
    requires |aggs| >= 2
    requires forall b :: b in bs ==> b.sub.Some?
    ensures forall b :: b in bs ==> b.sub.Some? && Reaches(1, 1, b.sub.value)
    ensures var es := WalkBuckets(aggs, 1, 0, bs, [], "");
      |es| == |bs| && forall i :: 0 <= i < |bs| ==> NestedEntry(aggs, bs[i], es[i])
  {
    if bs != [] {
      assert forall b :: b in bs[1..] ==> b in bs;
      NestedEntries(aggs, bs[1..]);
      var b := bs[0];
      assert b in bs;
      NestedHead(aggs, bs);
      var rest := WalkBuckets(aggs, 1, 0, bs[1..], [], "");
      var head := OtherFilter("-" + b.key, Ancestor(aggs[0], b) + TargetFilters(aggs[1], b.sub.value));
      ConsEntries(aggs, bs, [head] + rest, head, rest);
    }
  }

  lemma ConsEntries(aggs: seq<TermsAgg>, bs: seq<Bucket>, es: seq<OtherFilter>, head: OtherFilter, rest: seq<OtherFilter>)
    requires |aggs| >= 2 && bs != [] && es == [head] + rest && |rest| == |bs| - 1
    requires NestedEntry(aggs, bs[0], head)
    requires forall i :: 0 <= i < |rest| ==> NestedEntry(aggs, bs[1..][i], rest[i])
    ensures forall i :: 0 <= i < |bs| ==> NestedEntry(aggs, bs[i], es[i])
  {
    forall i | 1 <= i < |bs|
      ensures NestedEntry(aggs, bs[i], es[i])
    {
      ConsIndex(es, head, rest, i);
      assert bs[i] == bs[1..][i - 1];
    }
  }

  lemma ConsIndex<T>(s: seq<T>, head: T, rest: seq<T>, i: int)
    requires s == [head] + rest && 1 <= i < |s|
    ensures s[i] == rest[i - 1]
  {
  }

  /** The walk over outer buckets starts with the one filter of the first bucket. */
  lemma NestedHead(aggs: seq<TermsAgg>, bs: seq<Bucket>)
    requires |aggs| >= 2 && bs != [] && forall b :: b in bs ==> b.sub.Some? && Reaches(1, 1, b.sub.value)
    ensures WalkBuckets(aggs, 1, 0, bs, [], "") ==
      [OtherFilter("-" + bs[0].key, Ancestor(aggs[0], bs[0]) + TargetFilters(aggs[1], bs[0].sub.value))] +
      WalkBuckets(aggs, 1, 0, bs[1..], [], "")
  {
    var b := bs[0];
    assert b in bs;
    assert [] + Ancestor(aggs[0], b) == Ancestor(aggs[0], b);
    assert "" + "-" + b.key == "-" + b.key;
  }


  /** The labels of the filter map are those of the walk's filters. */
  lemma {:induction false} FilterMapKeys(es: seq<OtherFilter>)
    ensures forall p :: p in FilterMap(es) <==> exists e :: e in es && e.path == p
  {
    if es != [] {
      var init, last := es[..|es| - 1], es[|es| - 1];
      FilterMapKeys(init);
      assert forall e :: e in es <==> e in init || e == last;
    }
  }

  /** Every query of the filter map is the bool query of some filter the walk produced under that label. */
  lemma {:induction false} FilterMapValue(es: seq<OtherFilter>, p: string)
    requires p in FilterMap(es)
    ensures exists e :: e in es && e.path == p && FilterMap(es)[p] == BoolOf(e.filters)
  {
    var init, last := es[..|es| - 1], es[|es| - 1];
    if p != last.path {
      FilterMapValue(init, p);
      var e :| e in init && e.path == p && FilterMap(init)[p] == BoolOf(e.filters);
      assert e in es;
    } else {
      assert last in es;
    }
  }

  lemma {:induction false} FilterMapDistinct(es: seq<OtherFilter>)
    requires forall i, j :: 0 <= i < j < |es| ==> es[i].path != es[j].path
    ensures forall i :: 0 <= i < |es| ==> es[i].path in FilterMap(es) && FilterMap(es)[es[i].path] == BoolOf(es[i].filters)
  {
    if es != [] {
      var init, last := es[..|es| - 1], es[|es| - 1];
      assert forall i, j :: 0 <= i < j < |init| ==> init[i].path != init[j].path;
      FilterMapDistinct(init);
      var m := FilterMap(init);
      assert FilterMap(es) == m[last.path := BoolOf(last.filters)];
      forall i | 0 <= i < |es|
        ensures es[i].path in FilterMap(es) && FilterMap(es)[es[i].path] == BoolOf(es[i].filters)
      {
        if i < |es| - 1 {
          assert init[i] == es[i];
          assert es[i].path != last.path;
        }
      }
    }
  }

  /**
    Two nested terms aggregations with the "other" bucket on the inner one: one filter per outer
    bucket, labelled `'-' + key`, whose `must` fixes the outer key and then requires the inner
    field, and whose `must_not` excludes that bucket's inner keys except `__missing__`. The
    outer `__missing__` bucket is fixed instead by excluding documents that have the outer field.
  */
  lemma NestedTermsRequest(aggs: seq<TermsAgg>, root: AggResult)
    requires |aggs| >= 2 && |root.buckets| >= 1 && DistinctKeys(root.buckets)
    requires forall b :: b in root.buckets ==> b.filters.None? && b.sub.Some? && |b.sub.value.buckets| >= 1
    ensures OtherFilterAgg(aggs, 1, root).Success?
    ensures OtherFilterAgg(aggs, 1, root).value.aggs == ChildAggs(aggs, 1)
    ensures forall p :: p in OtherFilterAgg(aggs, 1, root).value.filters <==>
      exists b :: b in root.buckets && p == "-" + b.key
    ensures forall b :: b in root.buckets && b.key != MissingKey ==>
      OtherFilterAgg(aggs, 1, root).value.filters["-" + b.key] ==
        BoolQuery([MatchPhrase(aggs[0].field, b.key)] + ExistsQuery(aggs[1], b.sub.value.buckets), [], [],
          MustNotOf(aggs[1].field, Keys(b.sub.value.buckets)))
    ensures forall b :: b in root.buckets && b.key == MissingKey ==>
      OtherFilterAgg(aggs, 1, root).value.filters["-" + b.key] ==
        BoolQuery(ExistsQuery(aggs[1], b.sub.value.buckets), [], [],
          [Exists(aggs[0].field)] + MustNotOf(aggs[1].field, Keys(b.sub.value.buckets)))
  {
    var bs := root.buckets;
    NestedEntries(aggs, bs);
    assert Reaches(1, 0, root);
    assert HasBuckets(1, 0, root);
    var es := Walk(aggs, 1, 0, root, [], "");
    assert es == WalkBuckets(aggs, 1, 0, bs, [], "");
    forall i, j | 0 <= i < j < |es|
      ensures es[i].path != es[j].path
    {
      assert es[i].path[1..] == bs[i].key && es[j].path[1..] == bs[j].key;
    }
    FilterMapDistinct(es);
    FilterMapKeys(es);
    assert FilterMap(es) == OtherFilterAgg(aggs, 1, root).value.filters;
    LabelsOfBuckets(es, bs);
    NestedQueries(aggs, bs, es);
  }

  /** Each outer bucket's label looks up the query of the filter the walk gave it. */
  lemma NestedQueries(aggs: seq<TermsAgg>, bs: seq<Bucket>, es: seq<OtherFilter>)
    requires |aggs| >= 2 && |es| == |bs| && forall b :: b in bs ==> b.filters.None? && b.sub.Some?
    requires forall i :: 0 <= i < |bs| ==> NestedEntry(aggs, bs[i], es[i])
    requires forall i :: 0 <= i < |es| ==> es[i].path in FilterMap(es) && FilterMap(es)[es[i].path] == BoolOf(es[i].filters)
    ensures forall b :: b in bs ==> OuterEntry(aggs, FilterMap(es), b)
  {
    forall b | b in bs
      ensures OuterEntry(aggs, FilterMap(es), b)
    {
      var i :| 0 <= i < |bs| && bs[i] == b;
      NestedQueryAt(aggs, b, es[i], FilterMap(es));
    }
  }

  /** `m` maps outer bucket `b`'s label to the query fixing its key and excluding its inner keys. */
  predicate OuterEntry(aggs: seq<TermsAgg>, m: map<string, BoolQuery>, b: Bucket)
    requires |aggs| >= 2
  {
    b.sub.Some? && "-" + b.key in m &&
    m["-" + b.key] == OuterQuery(aggs, b)
  }

  /** The query expected for outer bucket `b`; the `__missing__` bucket excludes the outer field. */
  function OuterQuery(aggs: seq<TermsAgg>, b: Bucket): BoolQuery
    requires |aggs| >= 2 && b.sub.Some?
  {
    var inner := b.sub.value.buckets;
    if b.key == MissingKey then
      BoolQuery(ExistsQuery(aggs[1], inner), [], [], [Exists(aggs[0].field)] + MustNotOf(aggs[1].field, Keys(inner)))
    else
      BoolQuery([MatchPhrase(aggs[0].field, b.key)] + ExistsQuery(aggs[1], inner), [], [], MustNotOf(aggs[1].field, Keys(inner)))
  }

  lemma NestedQueryAt(aggs: seq<TermsAgg>, b: Bucket, e: OtherFilter, m: map<string, BoolQuery>)
    requires |aggs| >= 2 && b.filters.None? && NestedEntry(aggs, b, e) && e.path in m && m[e.path] == BoolOf(e.filters)
    ensures OuterEntry(aggs, m, b)
  {
    OuterBucketQuery(aggs, b, e);
  }

  lemma {:induction false} LabelsOfBuckets(es: seq<OtherFilter>, bs: seq<Bucket>)
    requires |es| == |bs| && forall i :: 0 <= i < |bs| ==> es[i].path == "-" + bs[i].key
    ensures forall p :: p in FilterMap(es) <==> exists b :: b in bs && p == "-" + b.key
  {
    FilterMapKeys(es);
    forall p | p in FilterMap(es)
      ensures exists b :: b in bs && p == "-" + b.key
    {
      var e :| e in es && e.path == p;
      var i :| 0 <= i < |es| && es[i] == e;
      assert bs[i] in bs;
    }
    forall b | b in bs
      ensures "-" + b.key in FilterMap(es)
    {
      var i :| 0 <= i < |bs| && bs[i] == b;
      assert es[i] in es;
    }
  }

  lemma OuterBucketQuery(aggs: seq<TermsAgg>, b: Bucket, e: OtherFilter)
    requires |aggs| >= 2 && b.filters.None? && b.sub.Some?
    requires e.filters == Ancestor(aggs[0], b) + TargetFilters(aggs[1], b.sub.value)
    ensures BoolOf(e.filters) == OuterQuery(aggs, b)
  {
    var prefix := Ancestor(aggs[0], b);
    TargetQuery(aggs[1], prefix, b.sub.value);
    if b.key == MissingKey {
      assert Kept(prefix, false) == [] && Kept(prefix, true) == [Exists(aggs[0].field)];
    } else {
      assert Kept(prefix, false) == [MatchPhrase(aggs[0].field, b.key)] && Kept(prefix, true) == [];
    }
  }

  /** `f` is the negated `exists` filter of a missing bucket of one of the first `level` aggregations. */
  predicate AncestorMissing(aggs: seq<TermsAgg>, level: nat, f: Filter)
  {
    f.ExistsFilter? && f.negate && exists l :: 0 <= l < level && l < |aggs| && f.field == aggs[l].field
  }

  /**
    The negated filters of `fs` are phrase filters on the target field for keys other than
    `__missing__`, or exclude the field of an ancestor whose `__missing__` bucket is on the path.
  */
  predicate ExcludesOnly(aggs: seq<TermsAgg>, target: nat, fs: seq<Filter>)
    requires target < |aggs|
  {
    forall f :: f in fs && f.negate ==>
      (f.PhraseFilter? && f.field == aggs[target].field && f.value != MissingKey) || AncestorMissing(aggs, target, f)
  }

  lemma {:induction false} WalkExcludesOnly(aggs: seq<TermsAgg>, target: nat, level: nat, r: AggResult, filters: seq<Filter>, path: string)
    requires level <= target < |aggs|
    requires Reaches(target, level, r) && Unfiltered(target, level, r)
    requires forall f :: f in filters && f.negate ==> AncestorMissing(aggs, level, f)
    ensures forall e :: e in Walk(aggs, target, level, r, filters, path) ==> ExcludesOnly(aggs, target, e.filters)
    decreases target - level, |r.buckets|, 1
  {
    if level < target {
      WalkBucketsExcludesOnly(aggs, target, level, r.buckets, filters, path);
    }
  }

  lemma {:induction false} WalkBucketsExcludesOnly(aggs: seq<TermsAgg>, target: nat, level: nat, bs: seq<Bucket>, filters: seq<Filter>, path: string)
    requires level < target < |aggs|
    requires forall b :: b in bs ==> b.filters.None? && b.sub.Some? && Reaches(target, level + 1, b.sub.value) && Unfiltered(target, level + 1, b.sub.value)
    requires forall f :: f in filters && f.negate ==> AncestorMissing(aggs, level, f)
    ensures forall e :: e in WalkBuckets(aggs, target, level, bs, filters, path) ==> ExcludesOnly(aggs, target, e.filters)
    decreases target - level, |bs|, 0
  {
    if bs != [] {
      var b := bs[0];
      assert b in bs;
      assert forall b' :: b' in bs[1..] ==> b' in bs;
      forall f | f in filters + Ancestor(aggs[level], b) && f.negate
        ensures AncestorMissing(aggs, level + 1, f)
      {
        if f in filters {
          var l :| 0 <= l < level && l < |aggs| && f.field == aggs[l].field;
        } else {
          assert f.field == aggs[level].field;
        }
      }
      WalkExcludesOnly(aggs, target, level + 1, b.sub.value, filters + Ancestor(aggs[level], b), path + "-" + b.key);
      WalkBucketsExcludesOnly(aggs, target, level, bs[1..], filters, path);
    }
  }

  /**
    The missing-bucket key is never excluded: when no ancestor bucket carries filters of its
    own, every `must_not` clause of every "other" filter is a `match_phrase` on the target
    field for a key other than `__missing__`, or the `exists` clause an ancestor `__missing__`
    bucket puts on its own aggregation's field.
  */
  lemma SentinelNeverExcluded(aggs: seq<TermsAgg>, target: nat, root: AggResult)
    requires target < |aggs| && Unfiltered(target, 0, root)
    requires OtherFilterAgg(aggs, target, root).Success?
    ensures forall p, q ::
      (p in OtherFilterAgg(aggs, target, root).value.filters &&
       q in OtherFilterAgg(aggs, target, root).value.filters[p].mustNot) ==>
        (q.MatchPhrase? && q.field == aggs[target].field && q.query != MissingKey) ||
        (q.Exists? && exists l :: 0 <= l < target && q.field == aggs[l].field)
  {
    var es := Walk(aggs, target, 0, root, [], "");
    WalkExcludesOnly(aggs, target, 0, root, [], "");
    var m := FilterMap(es);
    forall p, q | p in m && q in m[p].mustNot
      ensures (q.MatchPhrase? && q.field == aggs[target].field && q.query != MissingKey) ||
        (q.Exists? && exists l :: 0 <= l < target && q.field == aggs[l].field)
    {
      FilterMapValue(es, p);
      var e :| e in es && e.path == p && m[p] == BoolOf(e.filters);
      KeptMembers(e.filters, true);
      var f :| f in e.filters && f.negate && q == ToQuery(f);
    }
  }

  /** `ks` is the key path of a chain of buckets from a result at `level` down to level `target`. */
  predicate IsPath(target: nat, level: nat, r: AggResult, ks: seq<string>)
    decreases |ks|
  {
    if ks == [] then level == target
    else
      level < target &&
      exists b :: b in r.buckets && b.key == ks[0] && b.sub.Some? && IsPath(target, level + 1, b.sub.value, ks[1..])
  }

  /** Every bucket key above level `target` survives the trip through a label. */
  predicate PlainKeys(target: nat, level: nat, r: AggResult)
    decreases target - level
  {
    level < target ==>
      forall b :: b in r.buckets ==> PlainKey(b.key) && (b.sub.Some? ==> PlainKeys(target, level + 1, b.sub.value))
  }

  /** Extending a label by one key in front, after a prefix. */
  lemma PathCons(path: string, k: string, ks: seq<string>)
    ensures path + "-" + k + Label(ks) == path + Label([k] + ks)
  {
    LabelCons(k, ks);
    assert path + "-" + k + Label(ks) == path + ("-" + k + Label(ks));
  }

  lemma {:induction false} LabelCons(k: string, ks: seq<string>)
    ensures Label([k] + ks) == "-" + k + Label(ks)
    decreases |ks|
  {
    if ks != [] {
      var init := ks[..|ks| - 1];
      assert ([k] + ks)[..|ks|] == [k] + init;
      LabelCons(k, init);
    } else {
      assert [k] + ks == [k];
      assert Label([k]) == Label([]) + "-" + k;
    }
  }

  /** A path below a bucket, preceded by the bucket's key, is a path from the level above. */
  lemma PathThroughBucket(target: nat, level: nat, r: AggResult, b: Bucket, ks: seq<string>)
    requires level < target && b in r.buckets && b.sub.Some? && IsPath(target, level + 1, b.sub.value, ks)
    requires PlainKey(b.key) && forall k :: k in ks ==> PlainKey(k)
    ensures IsPath(target, level, r, [b.key] + ks) && forall k :: k in [b.key] + ks ==> PlainKey(k)
  {
    var ks' := [b.key] + ks;
    assert ks'[1..] == ks;
    assert forall k :: k in ks' ==> k == b.key || k in ks;
  }

  lemma {:induction false} WalkPaths(aggs: seq<TermsAgg>, target: nat, level: nat, r: AggResult, filters: seq<Filter>, path: string)
    requires level <= target < |aggs|
    requires Reaches(target, level, r) && PlainKeys(target, level, r)
    ensures forall e :: e in Walk(aggs, target, level, r, filters, path) ==>
      exists ks :: IsPath(target, level, r, ks) && (forall k :: k in ks ==> PlainKey(k)) && e.path == path + Label(ks)
    decreases target - level, |r.buckets|, 1
  {
    if level == target {
      assert IsPath(target, level, r, []) && path + Label([]) == path;
    } else {
      assert Walk(aggs, target, level, r, filters, path) == WalkBuckets(aggs, target, level, r.buckets, filters, path);
      WalkBucketsPaths(aggs, target, level, r.buckets, filters, path);
      forall e | e in Walk(aggs, target, level, r, filters, path)
        ensures exists ks :: IsPath(target, level, r, ks) && (forall k :: k in ks ==> PlainKey(k)) && e.path == path + Label(ks)
      {
        var b, ks :| b in r.buckets && b.sub.Some? && IsPath(target, level + 1, b.sub.value, ks) &&
          (forall k :: k in ks ==> PlainKey(k)) && PlainKey(b.key) && e.path == path + Label([b.key] + ks);
        PathThroughBucket(target, level, r, b, ks);
      }
      assert forall e :: e in Walk(aggs, target, level, r, filters, path) ==>
        exists ks :: IsPath(target, level, r, ks) && (forall k :: k in ks ==> PlainKey(k)) && e.path == path + Label(ks);
    }
  }

  lemma {:induction false} WalkBucketsPaths(aggs: seq<TermsAgg>, target: nat, level: nat, bs: seq<Bucket>, filters: seq<Filter>, path: string)
    requires level < target < |aggs|
    requires forall b :: b in bs ==> b.sub.Some? && Reaches(target, level + 1, b.sub.value)
    requires forall b :: b in bs ==> PlainKey(b.key) && PlainKeys(target, level + 1, b.sub.value)
    ensures forall e :: e in WalkBuckets(aggs, target, level, bs, filters, path) ==>
      exists b, ks ::
        b in bs && b.sub.Some? && IsPath(target, level + 1, b.sub.value, ks) &&
        (forall k :: k in ks ==> PlainKey(k)) && PlainKey(b.key) && e.path == path + Label([b.key] + ks)
    decreases target - level, |bs|, 0
  {
    if bs != [] {
      var b := bs[0];
      assert b in bs;
      assert forall b' :: b' in bs[1..] ==> b' in bs;
      var p := path + "-" + b.key;
      WalkPaths(aggs, target, level + 1, b.sub.value, filters + Ancestor(aggs[level], b), p);
      WalkBucketsPaths(aggs, target, level, bs[1..], filters, path);
      forall e | e in Walk(aggs, target, level + 1, b.sub.value, filters + Ancestor(aggs[level], b), p)
        ensures exists b, ks ::
          b in bs && b.sub.Some? && IsPath(target, level + 1, b.sub.value, ks) &&
          (forall k :: k in ks ==> PlainKey(k)) && PlainKey(b.key) && e.path == path + Label([b.key] + ks)
      {
        var ks :| IsPath(target, level + 1, b.sub.value, ks) && (forall k :: k in ks ==> PlainKey(k)) && e.path == p + Label(ks);
        PathCons(path, b.key, ks);
      }
    }
  }

  /**
    Every label of the built request names a path of the response: reading it back, as the
    merge step does, yields the keys of a chain of buckets from the root down to the target
    aggregation, provided the keys above the target are non-empty and free of dashes.
  */
  lemma LabelsNamePaths(aggs: seq<TermsAgg>, target: nat, root: AggResult)
    requires target < |aggs| && PlainKeys(target, 0, root)
    requires OtherFilterAgg(aggs, target, root).Success?
    ensures forall p :: p in OtherFilterAgg(aggs, target, root).value.filters ==>
      IsPath(target, 0, root, Parts(p)) && |Parts(p)| == target
  {
    var es := Walk(aggs, target, 0, root, [], "");
    WalkPaths(aggs, target, 0, root, [], "");
    FilterMapKeys(es);
    forall p | p in FilterMap(es)
      ensures IsPath(target, 0, root, Parts(p)) && |Parts(p)| == target
    {
      var e :| e in es && e.path == p;
      var ks :| IsPath(target, 0, root, ks) && (forall k :: k in ks ==> PlainKey(k)) && e.path == "" + Label(ks);
      assert "" + Label(ks) == Label(ks);
      PartsOfLabel(ks);
      PathLength(target, 0, root, ks);
    }
  }

  lemma {:induction false} PathLength(target: nat, level: nat, r: AggResult, ks: seq<string>)
    requires IsPath(target, level, r, ks)
    ensures level + |ks| == target
    decreases |ks|
  {
    if ks != [] {
      var b :| b in r.buckets && b.key == ks[0] && b.sub.Some? && IsPath(target, level + 1, b.sub.value, ks[1..]);
      PathLength(target, level + 1, b.sub.value, ks[1..]);
    }
  }
}
