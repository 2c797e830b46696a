/**
  The shapes shared by the terms "Other"/"Missing" bucket helpers: the chain of nested bucket
  aggregations of a visualisation, the filters Kibana attaches to buckets, the Elasticsearch
  bool query those filters become, the aggregation response tree, and the bucket-path labels
  (`''`, `'-US'`, `'-US-ios'`) that key the "other" filters.
*/
module AggResponse {
  import opened Wrappers

  /** The key Elasticsearch gives the bucket of documents lacking the field (`missing: '__missing__'`). */
  const MissingKey := "__missing__"

  /**
    A terms aggregation of the chain: its field, the index pattern the field belongs to,
    whether it asks for a missing bucket, and the labels of its "Other" and "Missing" buckets
    (the `otherBucketLabel` and `missingBucketLabel` params, `Other` and `Missing` by default).
  */
  datatype TermsAgg = TermsAgg(
    field: string,
    indexPattern: string,
    missingBucket: bool,
    otherLabel: string,
    missingLabel: string)

  /** The Kibana filters this code builds; `index` is the index pattern in the filter's meta. */
  datatype Filter =
    | PhraseFilter(field: string, value: string, index: string, negate: bool)
    | PhrasesFilter(field: string, values: seq<string>, index: string, negate: bool)
    | ExistsFilter(field: string, index: string, negate: bool)

  /** The query clause a filter contributes once its meta is stripped. */
  datatype Query =
    | MatchPhrase(field: string, query: string)
    | MatchAnyPhrase(field: string, queries: seq<string>)
    | Exists(field: string)

  /** `{ bool: { must, filter, should, must_not } }` */
  datatype BoolQuery = BoolQuery(must: seq<Query>, filter: seq<Query>, should: seq<Query>, mustNot: seq<Query>)

  /**
    A bucket of a terms aggregation result: its key, document count, the result of the next
    aggregation of the chain inside it (absent at the last level), and the filters a previous
    post-processing step attached to it.
  */
  datatype Bucket = Bucket(key: string, docCount: nat, sub: Option<AggResult>, filters: Option<seq<Filter>>)

  /** The result of one terms aggregation: `{ buckets: [...] }`. */
  datatype AggResult = AggResult(buckets: seq<Bucket>)

  /** `translateToQuery` followed by `cleanFilter`. */
  function ToQuery(f: Filter): Query
  {
    match f
    case PhraseFilter(field, value, _, _) => MatchPhrase(field, value)
    case PhrasesFilter(field, values, _, _) => MatchAnyPhrase(field, values)
    case ExistsFilter(field, _, _) => Exists(field)
  }

  /** The queries of the filters of `fs` whose `negate` flag is `negate`, in order. */
  function Kept(fs: seq<Filter>, negate: bool): (qs: seq<Query>)
    ensures |qs| <= |fs|
  {
    if fs == [] then []
    else if fs[0].negate == negate then [ToQuery(fs[0])] + Kept(fs[1..], negate)
    else Kept(fs[1..], negate)
  }

  /**
    `buildQueryFromFilters`: non-negated filters go to `must`, negated ones to `must_not`,
    each side in the order of `fs`; `filter` and `should` stay empty.
  */
  function BoolOf(fs: seq<Filter>): (q: BoolQuery)
    ensures q.filter == [] && q.should == []
    ensures |q.must| + |q.mustNot| == |fs|
  {
    KeptSplit(fs);
    BoolQuery(Kept(fs, false), [], [], Kept(fs, true))
  }

  /** A clause is kept exactly when some filter with that flag translates to it. */
  lemma {:induction false} KeptMembers(fs: seq<Filter>, negate: bool)
    ensures forall q :: q in Kept(fs, negate) <==> exists f :: f in fs && f.negate == negate && q == ToQuery(f)
  {
    if fs != [] {
      KeptMembers(fs[1..], negate);
      assert forall f :: f in fs <==> f == fs[0] || f in fs[1..];
    }
  }

  lemma {:induction false} KeptSplit(fs: seq<Filter>)
    ensures |Kept(fs, false)| + |Kept(fs, true)| == |fs|
  {
    if fs != [] {
      KeptSplit(fs[1..]);
    }
  }

  lemma {:induction false} KeptAppend(fs: seq<Filter>, gs: seq<Filter>, negate: bool)
    ensures Kept(fs + gs, negate) == Kept(fs, negate) + Kept(gs, negate)
  {
    if fs == [] {
      assert fs + gs == gs;
    } else {
      assert (fs + gs)[0] == fs[0] && (fs + gs)[1..] == fs[1..] + gs;
      KeptAppend(fs[1..], gs, negate);
    }
  }

  /** The keys of a bucket list, in order. */
  function Keys(bs: seq<Bucket>): (ks: seq<string>)
    ensures |ks| == |bs|
    ensures forall i :: 0 <= i < |bs| ==> ks[i] == bs[i].key
  {
    if bs == [] then [] else [bs[0].key] + Keys(bs[1..])
  }

  /** The index of the first bucket with key `k`, as `_.find` picks it. */
  function FirstWithKey(bs: seq<Bucket>, k: string): (i: nat)
    requires k in Keys(bs)
    ensures i < |bs| && bs[i].key == k
    ensures forall j :: 0 <= j < i ==> bs[j].key != k
  {
    if bs[0].key == k then 0
    else
      assert Keys(bs) == [bs[0].key] + Keys(bs[1..]);
      1 + FirstWithKey(bs[1..], k)
  }

  /** A bucket with key `k` and none before it is the one `FirstWithKey` finds. */
  lemma FirstWithKeyUnique(bs: seq<Bucket>, k: string, j: nat)
    requires j < |bs| && bs[j].key == k && forall i :: 0 <= i < j ==> bs[i].key != k
    ensures k in Keys(bs) && FirstWithKey(bs, k) == j
  {
    assert Keys(bs)[j] == k;
  }

  /** The label of a bucket path: `''` at the root, then `'-' + key` for every level below it. */
  function Label(keys: seq<string>): string
  {
    if keys == [] then "" else Label(keys[..|keys| - 1]) + "-" + keys[|keys| - 1]
  }

  /** JavaScript's `s.split('-')`: the pieces between dashes; `''.split('-')` is `['']`. */
  function Split(s: string): (parts: seq<string>)
    ensures |parts| >= 1
  {
    if s == [] then [""]
    else
      var rest := Split(s[1..]);
      if s[0] == '-' then [""] + rest else [[s[0]] + rest[0]] + rest[1..]
  }

  /** `s.replace(/^-/, '')` */
  function StripDash(s: string): string
  {
    if |s| > 0 && s[0] == '-' then s[1..] else s
  }

  /** The non-empty pieces: `getAggResultBuckets` skips empty key parts. */
  function NonEmpty(parts: seq<string>): (r: seq<string>)
    ensures forall p :: p in r <==> p in parts && p != ""
  {
    if parts == [] then []
    else
      assert forall p :: p in parts <==> p == parts[0] || p in parts[1..];
      if parts[0] == "" then NonEmpty(parts[1..]) else [parts[0]] + NonEmpty(parts[1..])
  }

  /** The bucket keys that the merge step reads back out of an "other" filter label. */
  function Parts(path: string): seq<string>
  {
    NonEmpty(Split(StripDash(path)))
  }

  /** A key that survives the trip through a label: non-empty and free of dashes. */
  predicate PlainKey(k: string)
  {
    k != "" && '-' !in k
  }

  lemma {:induction false} SplitPlain(s: string)
    requires '-' !in s
    ensures Split(s) == [s]
  {
    if s != [] {
      SplitPlain(s[1..]);
      assert [s[0]] + s[1..] == s;
    }
  }

  lemma {:induction false} SplitAppend(a: string, b: string)
    requires '-' !in b
    ensures Split(a + "-" + b) == Split(a) + [b]
  {
    var s := a + "-" + b;
    if a == [] {
      assert s[1..] == b;
      SplitPlain(b);
    } else {
      assert s[1..] == a[1..] + "-" + b;
      SplitAppend(a[1..], b);
    }
  }

  lemma {:induction false} SplitLabel(keys: seq<string>)
    requires forall k :: k in keys ==> '-' !in k
    ensures Split(Label(keys)) == [""] + keys
  {
    if keys != [] {
      var p, k := keys[..|keys| - 1], keys[|keys| - 1];
      assert keys == p + [k];
      SplitLabel(p);
      SplitAppend(Label(p), k);
    }
  }

  lemma {:induction false} NonEmptyPlain(keys: seq<string>)
    requires forall k :: k in keys ==> k != ""
    ensures NonEmpty(keys) == keys
  {
    if keys != [] {
      assert forall k :: k in keys[1..] ==> k in keys;
      NonEmptyPlain(keys[1..]);
      assert keys[0] in keys;
      assert [keys[0]] + keys[1..] == keys;
    }
  }

  lemma {:induction false} LabelStartsWithDash(keys: seq<string>)
    requires keys != []
    ensures |Label(keys)| > 0 && Label(keys)[0] == '-'
  {
    var p := keys[..|keys| - 1];
    if p != [] {
      LabelStartsWithDash(p);
    }
  }

  /**
    Labels round-trip: the merge step recovers exactly the keys the build step joined into a
    label, provided no key is empty or contains a dash.
  */
  lemma {:induction false} PartsOfLabel(keys: seq<string>)
    requires forall k :: k in keys ==> PlainKey(k)
    ensures Parts(Label(keys)) == keys
  {
    SplitLabel(keys);
    var l := Label(keys);
    if keys == [] {
      assert StripDash(l) == "";
    } else {
      LabelStartsWithDash(keys);
      assert Split(l) == [""] + Split(l[1..]);
      assert Split(l[1..]) == ([""] + keys)[1..] == keys;
    }
    NonEmptyPlain(keys);
  }

  /** A key containing a dash comes back as two keys: `-win-xp` parses to `win`, `xp`. */
  lemma DashedKeySplits()
    ensures Label(["win-xp"]) == "-win-xp"
    ensures Parts(Label(["win-xp"])) == ["win", "xp"]
  {
    assert ["win-xp"][..0] == [];
    assert Label(["win-xp"]) == "" + "-" + "win-xp";
    DashedParts();
  }

  lemma DashedParts()
    ensures Parts("-win-xp") == ["win", "xp"]
  {
    assert StripDash("-win-xp") == "win-xp";
    assert "win" + "-" + "xp" == "win-xp";
    SplitAppend("win", "xp");
    SplitPlain("win");
    NonEmptyPlain(["win", "xp"]);
  }
}
