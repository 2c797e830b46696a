/**
  First-seen-ordered counters: the `Map<string, number>` that the telemetry rollup fills
  with `incrementByKey` and turns into `[{ <key>: k, count: n }, ...]` lists.
*/
module Histogram {

  /** One counter: a distinct key and how often it was seen. */
  datatype Entry = Entry(key: string, count: nat)

  /** Counters in the order their keys were first seen. */
  type Hist = seq<Entry>

  /** The keys of `h`, in order. */
  function Keys(h: Hist): seq<string>
  {
    if h == [] then [] else [h[0].key] + Keys(h[1..])
  }

  /** The counter of the first entry for `k`, or 0 when `k` has none. */
  function CountOf(h: Hist, k: string): nat
  {
    if h == [] then 0 else if h[0].key == k then h[0].count else CountOf(h[1..], k)
  }

  /** The sum of all counters. */
  function Total(h: Hist): nat
  {
    if h == [] then 0 else h[0].count + Total(h[1..])
  }

  predicate Distinct(ks: seq<string>)
  {
    forall i, j :: 0 <= i < j < |ks| ==> ks[i] != ks[j]
  }

  /** The index of the first occurrence of `k` in `s`. */
  function FirstIndex(s: seq<string>, k: string): (i: nat)
    requires k in s
    ensures i < |s| && s[i] == k && k !in s[..i]
  {
    if s[0] == k then 0 else 1 + FirstIndex(s[1..], k)
  }

  lemma {:induction false} KeysLength(h: Hist)
    ensures |Keys(h)| == |h|
    ensures forall i :: 0 <= i < |h| ==> Keys(h)[i] == h[i].key
  {
    if h != [] {
      KeysLength(h[1..]);
    }
  }

  /**
    `incrementByKey(map, k)`: add one to the counter of `k`; a key seen for the first time
    gets a new counter of 1 at the end, so the order of first sight is kept.
  */
  function Increment(h: Hist, k: string): (r: Hist)
    ensures Keys(r) == if k in Keys(h) then Keys(h) else Keys(h) + [k]
    ensures forall k' :: CountOf(r, k') == CountOf(h, k') + (if k' == k then 1 else 0)
    ensures Total(r) == Total(h) + 1
  {
    if h == [] then [Entry(k, 1)]
    else if h[0].key == k then [Entry(k, h[0].count + 1)] + h[1..]
    else [h[0]] + Increment(h[1..], k)
  }

  /** The histogram of `s`: `Increment` applied to each value of `s` from left to right. */
  function Tally(s: seq<string>): Hist
  {
    if s == [] then [] else Increment(Tally(s[..|s| - 1]), s[|s| - 1])
  }

  /** A tally has one entry per distinct value of `s` and no other, and no key twice. */
  lemma {:induction false} TallyKeys(s: seq<string>)
    ensures Distinct(Keys(Tally(s)))
    ensures forall k :: k in Keys(Tally(s)) <==> k in s
  {
    if s != [] {
      var p, x := s[..|s| - 1], s[|s| - 1];
      assert s == p + [x];
      TallyKeys(p);
    }
  }

  /** Each counter of a tally is the number of occurrences of its key; the counters sum to |s|. */
  lemma {:induction false} TallyCounts(s: seq<string>)
    ensures forall k :: CountOf(Tally(s), k) == multiset(s)[k]
    ensures Total(Tally(s)) == |s|
  {
    if s != [] {
      var p, x := s[..|s| - 1], s[|s| - 1];
      assert s == p + [x];
      TallyCounts(p);
    }
  }

  lemma {:induction false} FirstIndexPrefix(p: seq<string>, x: string, k: string)
    requires k in p
    ensures FirstIndex(p + [x], k) == FirstIndex(p, k)
  {
    if p[0] != k {
      assert (p + [x])[1..] == p[1..] + [x];
      FirstIndexPrefix(p[1..], x, k);
    }
  }

  lemma FirstIndexNew(p: seq<string>, x: string)
    requires x !in p
    ensures FirstIndex(p + [x], x) == |p|
  {
    assert forall i :: 0 <= i < |p| ==> (p + [x])[i] == p[i];
  }

  /** The keys of a tally appear in the order in which `s` first mentions them. */
  lemma {:induction false} TallyFirstSeen(s: seq<string>)
    ensures forall k :: k in Keys(Tally(s)) ==> k in s
    ensures forall i, j :: 0 <= i < j < |Keys(Tally(s))| ==>
      FirstIndex(s, Keys(Tally(s))[i]) < FirstIndex(s, Keys(Tally(s))[j])
  {
    TallyKeys(s);
    if s != [] {
      TallyFirstSeen(s[..|s| - 1]);
      TallyFirstSeenStep(s);
    }
  }

  lemma TallyFirstSeenStep(s: seq<string>)
    requires s != []
    requires var p := s[..|s| - 1];
      forall i, j :: 0 <= i < j < |Keys(Tally(p))| ==>
        Keys(Tally(p))[i] in p && Keys(Tally(p))[j] in p &&
        FirstIndex(p, Keys(Tally(p))[i]) < FirstIndex(p, Keys(Tally(p))[j])
    ensures forall i, j :: 0 <= i < j < |Keys(Tally(s))| ==>
      Keys(Tally(s))[i] in s && Keys(Tally(s))[j] in s &&
      FirstIndex(s, Keys(Tally(s))[i]) < FirstIndex(s, Keys(Tally(s))[j])
  {
    var p, x := s[..|s| - 1], s[|s| - 1];
    assert s == p + [x];
    TallyKeys(p);
    var ks := Keys(Tally(p));
    assert Tally(s) == Increment(Tally(p), x);
    forall i, j | 0 <= i < j < |Keys(Tally(s))|
      ensures Keys(Tally(s))[i] in s && Keys(Tally(s))[j] in s &&
        FirstIndex(s, Keys(Tally(s))[i]) < FirstIndex(s, Keys(Tally(s))[j])
    {
      FirstSeenPair(p, x, ks, i, j);
    }
  }

  /** Two keys of the tally after one more value keep the order of their first occurrences. */
  lemma FirstSeenPair(p: seq<string>, x: string, ks: seq<string>, i: nat, j: nat)
    requires Distinct(ks) && forall k :: k in ks <==> k in p
    requires forall i, j :: 0 <= i < j < |ks| ==> FirstIndex(p, ks[i]) < FirstIndex(p, ks[j])
    requires i < j < |if x in ks then ks else ks + [x]|
    ensures var ks' := if x in ks then ks else ks + [x];
      ks'[i] in p + [x] && ks'[j] in p + [x] && FirstIndex(p + [x], ks'[i]) < FirstIndex(p + [x], ks'[j])
  {
    assert ks[i] in ks;
    FirstIndexPrefix(p, x, ks[i]);
    if j < |ks| {
      assert ks[j] in ks;
      FirstIndexPrefix(p, x, ks[j]);
    } else {
      FirstIndexNew(p, x);
    }
  }

  /** In a histogram with distinct keys, the counter found for an entry's key is that entry's. */
  lemma {:induction false} CountOfEntry(h: Hist, i: nat)
    requires Distinct(Keys(h)) && i < |h|
    ensures CountOf(h, h[i].key) == h[i].count
  {
    KeysLength(h);
    if i > 0 {
      assert h[0].key == Keys(h)[0] != Keys(h)[i] == h[i].key;
      KeysLength(h[1..]);
      assert Keys(h[1..]) == Keys(h)[1..];
      CountOfEntry(h[1..], i - 1);
    }
  }
}
