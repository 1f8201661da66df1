/** Grouping of actions by shard and by key, and the flattening of such
  * groups in ascending key order. The beacon walks every shard-keyed map in
  * ascending shard order; these definitions give that walk a value and prove
  * that grouping a shard-ordered stream and walking it back yields the
  * stream unchanged. */
module Grouping {
  import opened Common

  // ---------------------------------------------------------------------
  // Filtering a sequence

  function Filter<T>(s: seq<T>, p: T -> bool): (r: seq<T>)
    ensures |r| <= |s|
  {
    if |s| == 0 then []
    else Filter(s[..|s| - 1], p) + (if p(s[|s| - 1]) then [s[|s| - 1]] else [])
  }

  /** Filtering distributes over concatenation, so it keeps the order. */
  lemma {:induction false} FilterAppend<T>(a: seq<T>, b: seq<T>, p: T -> bool)
    ensures Filter(a + b, p) == Filter(a, p) + Filter(b, p)
    decreases |b|
  {
    if |b| == 0 {
      assert a + b == a;
    } else {
      var b' := b[..|b| - 1];
      assert (a + b)[..|a + b| - 1] == a + b';
      FilterAppend(a, b', p);
    }
  }

  /** The negation of a test. */
  function Not<T>(p: T -> bool): T -> bool
  {
    x => !p(x)
  }

  /** A relation holding between every earlier and later element still holds
    * after filtering. */
  lemma {:induction false} FilterPairwise<T>(s: seq<T>, p: T -> bool, rel: (T, T) -> bool)
    requires forall i, j :: 0 <= i < j < |s| ==> rel(s[i], s[j])
    ensures forall i, j :: 0 <= i < j < |Filter(s, p)| ==> rel(Filter(s, p)[i], Filter(s, p)[j])
    decreases |s|
  {
    if |s| > 0 {
      var s' := s[..|s| - 1];
      var last := s[|s| - 1];
      FilterPairwise(s', p, rel);
      var f := Filter(s, p);
      var f' := Filter(s', p);
      forall i, j | 0 <= i < j < |f| ensures rel(f[i], f[j]) {
        if j >= |f'| {
          assert f[j] == last;
          assert f[i] == f'[i];
          FilterMember(s', p, f'[i]);
          var k :| 0 <= k < |s'| && s'[k] == f'[i];
          assert s[k] == f[i];
        } else {
          assert f[i] == f'[i] && f[j] == f'[j];
        }
      }
    }
  }

  /** An element survives the filter exactly when it occurs and passes. */
  lemma {:induction false} FilterMember<T>(s: seq<T>, p: T -> bool, x: T)
    ensures x in Filter(s, p) <==> x in s && p(x)
    decreases |s|
  {
    if |s| > 0 {
      FilterMember(s[..|s| - 1], p, x);
      assert s == s[..|s| - 1] + [s[|s| - 1]];
    }
  }

  /** The filter keeps every passing occurrence and drops the others. */
  lemma {:induction false} FilterMultiset<T>(s: seq<T>, p: T -> bool, x: T)
    ensures multiset(Filter(s, p))[x] == if p(x) then multiset(s)[x] else 0
    decreases |s|
  {
    if |s| > 0 {
      FilterMultiset(s[..|s| - 1], p, x);
      assert s == s[..|s| - 1] + [s[|s| - 1]];
    }
  }

  // ---------------------------------------------------------------------
  // Shard-tagged streams

  datatype Tagged<T> = Tagged(shard: Shard, item: T)

  /** The items of one shard's list, each tagged with the shard. */
  function Tag<T>(k: Shard, xs: seq<T>): (r: seq<Tagged<T>>)
    ensures |r| == |xs|
    ensures forall i :: 0 <= i < |xs| ==> r[i] == Tagged(k, xs[i])
  {
    if |xs| == 0 then [] else Tag(k, xs[..|xs| - 1]) + [Tagged(k, xs[|xs| - 1])]
  }

  lemma TagAppend<T>(k: Shard, a: seq<T>, b: seq<T>)
    ensures Tag(k, a + b) == Tag(k, a) + Tag(k, b)
  {
  }

  /** Shards below hi that are keys, in ascending order. */
  function ShardsBelow(keys: set<Shard>, hi: nat): seq<Shard>
    requires hi <= 256
  {
    if hi == 0 then []
    else ShardsBelow(keys, hi - 1) + (if hi - 1 in keys then [hi - 1] else [])
  }

  /** The keys of a shard map in ascending order (Go: collect, then sort.Ints). */
  function SortedShards(keys: set<Shard>): seq<Shard>
  {
    ShardsBelow(keys, 256)
  }

  predicate StrictlyAscending(ks: seq<Shard>)
  {
    forall i, j :: 0 <= i < j < |ks| ==> ks[i] < ks[j]
  }

  lemma {:induction false} ShardsBelowSpec(keys: set<Shard>, hi: nat)
    requires hi <= 256
    ensures StrictlyAscending(ShardsBelow(keys, hi))
    ensures forall k :: k in ShardsBelow(keys, hi) <==> k in keys && k < hi
    decreases hi
  {
    if hi > 0 {
      ShardsBelowSpec(keys, hi - 1);
      var pre := ShardsBelow(keys, hi - 1);
      assert forall i :: 0 <= i < |pre| ==> pre[i] < hi - 1 by {
        forall i | 0 <= i < |pre| ensures pre[i] < hi - 1 {
          assert pre[i] in pre;
        }
      }
    }
  }

  /** The shard walk visits every key once, in strictly ascending order. */
  lemma SortedShardsSpec(keys: set<Shard>)
    ensures StrictlyAscending(SortedShards(keys))
    ensures forall k :: k in SortedShards(keys) <==> k in keys
  {
    ShardsBelowSpec(keys, 256);
  }

  lemma {:induction false} ShardsBelowAgree(a: set<Shard>, b: set<Shard>, hi: nat)
    requires hi <= 256
    requires forall k :: k < hi ==> (k in a <==> k in b)
    ensures ShardsBelow(a, hi) == ShardsBelow(b, hi)
    decreases hi
  {
    if hi > 0 {
      ShardsBelowAgree(a, b, hi - 1);
    }
  }

  lemma {:induction false} ShardsBelowGap(keys: set<Shard>, lo: nat, hi: nat)
    requires lo <= hi <= 256
    requires forall k :: k in keys ==> k < lo
    ensures ShardsBelow(keys, hi) == ShardsBelow(keys, lo)
    decreases hi
  {
    if hi > lo {
      ShardsBelowGap(keys, lo, hi - 1);
    }
  }

  /** Adding a key no smaller than every other key appends it to the walk. */
  lemma SortedShardsAddTop(keys: set<Shard>, k: Shard)
    requires forall j :: j in keys ==> j <= k
    ensures SortedShards(keys + {k}) == SortedShards(keys - {k}) + [k]
  {
    var all := keys + {k};
    var rest := keys - {k};
    ShardsBelowGap(all, k + 1, 256);
    ShardsBelowAgree(all, rest, k);
    ShardsBelowGap(rest, k, 256);
  }

  /** Tagged items of the listed shards, list by list. */
  function ConcatTagged<T>(ks: seq<Shard>, m: map<Shard, seq<T>>): seq<Tagged<T>>
  {
    if |ks| == 0 then []
    else
      var k := ks[|ks| - 1];
      ConcatTagged(ks[..|ks| - 1], m) + (if k in m then Tag(k, m[k]) else [])
  }

  lemma {:induction false} ConcatTaggedAppend<T>(ks: seq<Shard>, k: Shard, m: map<Shard, seq<T>>)
    ensures ConcatTagged(ks + [k], m) == ConcatTagged(ks, m) + (if k in m then Tag(k, m[k]) else [])
  {
    assert (ks + [k])[..|ks|] == ks;
  }

  lemma {:induction false} ConcatTaggedUntouched<T>(ks: seq<Shard>, m: map<Shard, seq<T>>, k: Shard, v: seq<T>)
    requires k !in ks
    ensures ConcatTagged(ks, m[k := v]) == ConcatTagged(ks, m)
    decreases |ks|
  {
    if |ks| > 0 {
      ConcatTaggedUntouched(ks[..|ks| - 1], m, k, v);
    }
  }

  lemma {:induction false} ConcatTaggedWithout<T>(ks: seq<Shard>, m: map<Shard, seq<T>>, k: Shard)
    requires k !in ks
    ensures ConcatTagged(ks, m - {k}) == ConcatTagged(ks, m)
    decreases |ks|
  {
    if |ks| > 0 {
      ConcatTaggedWithout(ks[..|ks| - 1], m, k);
    }
  }

  /** Every shard's list, in ascending shard order, tagged with its shard. */
  function FlattenByShard<T>(m: map<Shard, seq<T>>): seq<Tagged<T>>
  {
    ConcatTagged(SortedShards(m.Keys), m)
  }

  /** groupPDEActionsByShardID and its portal and relaying twins: append the
    * action to its shard's list, creating the list when absent. */
  function GroupByShard<T>(m: map<Shard, seq<T>>, x: T, k: Shard): (r: map<Shard, seq<T>>)
    ensures r.Keys == m.Keys + {k}
    ensures r[k] == (if k in m then m[k] else []) + [x]
    ensures forall j :: j in m && j != k ==> r[j] == m[j]
  {
    m[k := (if k in m then m[k] else []) + [x]]
  }

  /** Grouping a whole tagged stream, item by item. */
  function GroupStream<T>(ts: seq<Tagged<T>>): map<Shard, seq<T>>
  {
    if |ts| == 0 then map[]
    else
      var t := ts[|ts| - 1];
      GroupByShard(GroupStream(ts[..|ts| - 1]), t.item, t.shard)
  }

  lemma {:induction false} GroupStreamKeys<T>(ts: seq<Tagged<T>>)
    ensures forall k :: k in GroupStream(ts) <==> exists i :: 0 <= i < |ts| && ts[i].shard == k
    decreases |ts|
  {
    if |ts| > 0 {
      var ts' := ts[..|ts| - 1];
      GroupStreamKeys(ts');
      forall k | k in GroupStream(ts)
        ensures exists i :: 0 <= i < |ts| && ts[i].shard == k
      {
        if k != ts[|ts| - 1].shard {
          assert k in GroupStream(ts');
          var i :| 0 <= i < |ts'| && ts'[i].shard == k;
          assert ts[i].shard == k;
        }
      }
      forall k | exists i :: 0 <= i < |ts| && ts[i].shard == k
        ensures k in GroupStream(ts)
      {
        var i :| 0 <= i < |ts| && ts[i].shard == k;
        if i < |ts'| {
          assert ts'[i].shard == k;
        }
      }
    }
  }

  predicate ShardOrdered<T>(ts: seq<Tagged<T>>)
  {
    forall i, j :: 0 <= i < j < |ts| ==> ts[i].shard <= ts[j].shard
  }

  /** The shard walk of a map whose keys are at most `k` is the walk of the
    * other keys, then the items of `k`. */
  lemma FlattenSplitTop<T>(m: map<Shard, seq<T>>, k: Shard)
    requires forall j :: j in m ==> j <= k
    ensures k !in SortedShards(m.Keys - {k})
    ensures FlattenByShard(m) == ConcatTagged(SortedShards(m.Keys - {k}), m) + Tag(k, if k in m then m[k] else [])
  {
    var ks := SortedShards(m.Keys - {k});
    SortedShardsSpec(m.Keys - {k});
    if k in m {
      SortedShardsAddTop(m.Keys, k);
      assert m.Keys + {k} == m.Keys;
      ConcatTaggedAppend(ks, k, m);
    } else {
      assert m.Keys - {k} == m.Keys;
    }
  }

  /** Appending to the highest shard extends the shard walk at its end. */
  lemma FlattenAddTop<T>(m': map<Shard, seq<T>>, x: T, k: Shard)
    requires forall j :: j in m' ==> j <= k
    ensures FlattenByShard(GroupByShard(m', x, k)) == FlattenByShard(m') + [Tagged(k, x)]
  {
    var m := GroupByShard(m', x, k);
    var old_k := if k in m' then m'[k] else [];
    FlattenSplitTop(m', k);
    FlattenSplitTop(m, k);
    assert m.Keys - {k} == m'.Keys - {k};
    var ks := SortedShards(m'.Keys - {k});
    ConcatTaggedUntouched(ks, m', k, m[k]);
    TagAppend(k, old_k, [x]);
  }

  lemma GroupKeysBelowLast<T>(ts': seq<Tagged<T>>, t: Tagged<T>)
    requires ShardOrdered(ts' + [t])
    ensures forall j :: j in GroupStream(ts') ==> j <= t.shard
  {
    var ts := ts' + [t];
    GroupStreamKeys(ts');
    forall j | j in GroupStream(ts') ensures j <= t.shard {
      var i :| 0 <= i < |ts'| && ts'[i].shard == j;
      assert ts[i].shard == j && ts[|ts| - 1] == t;
    }
  }

  lemma {:induction false} ConcatTaggedEmpty<T>(ks: seq<Shard>, m: map<Shard, seq<T>>)
    requires m == map[]
    ensures ConcatTagged(ks, m) == []
    decreases |ks|
  {
    if |ks| > 0 {
      ConcatTaggedEmpty(ks[..|ks| - 1], m);
    }
  }

  /** Grouping a shard-ordered stream by shard and walking the groups in
    * ascending shard order gives back the same stream. */
  lemma {:induction false} GroupThenFlatten<T>(ts: seq<Tagged<T>>)
    requires ShardOrdered(ts)
    ensures FlattenByShard(GroupStream(ts)) == ts
    decreases |ts|
  {
    if |ts| == 0 {
      ConcatTaggedEmpty(SortedShards(GroupStream(ts).Keys), GroupStream(ts));
    } else {
      var ts' := ts[..|ts| - 1];
      var t := ts[|ts| - 1];
      var m' := GroupStream(ts');
      GroupThenFlatten(ts');
      assert ts == ts' + [t];
      GroupKeysBelowLast(ts', t);
      assert FlattenByShard(m') == ts';
      FlattenAddTop(m', t.item, t.shard);
      assert GroupStream(ts) == GroupByShard(m', t.item, t.shard);
      assert FlattenByShard(GroupStream(ts)) == ts' + [Tagged(t.shard, t.item)];
      assert ts == ts' + [Tagged(t.shard, t.item)];
    }
  }

  lemma {:induction false} FilterKeepsShardOrder<T>(ts: seq<Tagged<T>>, p: Tagged<T> -> bool)
    requires ShardOrdered(ts)
    ensures ShardOrdered(Filter(ts, p))
    ensures forall x :: x in Filter(ts, p) ==> x in ts
    decreases |ts|
  {
    if |ts| > 0 {
      var ts' := ts[..|ts| - 1];
      FilterKeepsShardOrder(ts', p);
      forall x | x in Filter(ts', p) ensures x.shard <= ts[|ts| - 1].shard {
        var i :| 0 <= i < |ts'| && ts'[i] == x;
        assert ts[i] == x;
      }
    }
  }

  lemma {:induction false} ConcatTaggedOrdered<T>(ks: seq<Shard>, m: map<Shard, seq<T>>)
    requires StrictlyAscending(ks)
    ensures ShardOrdered(ConcatTagged(ks, m))
    ensures forall x :: x in ConcatTagged(ks, m) ==> x.shard in ks
    decreases |ks|
  {
    if |ks| > 0 {
      var ks' := ks[..|ks| - 1];
      ConcatTaggedOrdered(ks', m);
    }
  }

  /** The shard walk of any map is shard-ordered. */
  lemma FlattenIsShardOrdered<T>(m: map<Shard, seq<T>>)
    ensures ShardOrdered(FlattenByShard(m))
  {
    SortedShardsSpec(m.Keys);
    ConcatTaggedOrdered(SortedShards(m.Keys), m);
  }

  // ---------------------------------------------------------------------
  // Grouping by an arbitrary key, visited in a given key order

  function GroupBy<T, K>(xs: seq<T>, key: T -> K): (m: map<K, seq<T>>)
  {
    if |xs| == 0 then map[]
    else
      var m := GroupBy(xs[..|xs| - 1], key);
      var x := xs[|xs| - 1];
      m[key(x) := (if key(x) in m then m[key(x)] else []) + [x]]
  }

  /** The test "the item's key is k". */
  function KeyIs<T, K(==)>(key: T -> K, k: K): T -> bool
  {
    x => key(x) == k
  }

  /** Each group is exactly the subsequence of items with its key, in order. */
  lemma {:induction false} GroupBySpec<T, K>(xs: seq<T>, key: T -> K)
    ensures GroupBy(xs, key).Keys == set x | x in xs :: key(x)
    ensures forall k :: k in GroupBy(xs, key) ==> GroupBy(xs, key)[k] == Filter(xs, KeyIs(key, k))
    decreases |xs|
  {
    if |xs| > 0 {
      var xs' := xs[..|xs| - 1];
      var last := xs[|xs| - 1];
      GroupBySpec(xs', key);
      var m' := GroupBy(xs', key);
      var m := GroupBy(xs, key);
      assert xs == xs' + [last];
      assert (set x | x in xs :: key(x)) == (set x | x in xs' :: key(x)) + {key(last)};
      forall k | k in m ensures m[k] == Filter(xs, KeyIs(key, k)) {
        if k !in m' {
          forall x | x in xs' ensures key(x) != k {
            assert key(x) in m'.Keys;
          }
          FilterNone(xs', key, k);
        }
      }
    }
  }

  /** The groups of the listed keys, one after the other. */
  function ConcatGroups<T, K>(ks: seq<K>, m: map<K, seq<T>>): seq<T>
  {
    if |ks| == 0 then []
    else ConcatGroups(ks[..|ks| - 1], m) + (if ks[|ks| - 1] in m then m[ks[|ks| - 1]] else [])
  }

  lemma {:induction false} ConcatGroupsAppend<T, K>(ks: seq<K>, k: K, m: map<K, seq<T>>)
    ensures ConcatGroups(ks + [k], m) == ConcatGroups(ks, m) + (if k in m then m[k] else [])
  {
    assert (ks + [k])[..|ks|] == ks;
  }

  /** Groups whose items all carry their group's key. */
  predicate KeyedGroups<T(==), K>(m: map<K, seq<T>>, key: T -> K)
  {
    forall k, x :: k in m && x in m[k] ==> key(x) == k
  }

  lemma {:induction false} FilterConcatGroups<T, K>(ks: seq<K>, m: map<K, seq<T>>, key: T -> K, k: K)
    requires forall i, j :: 0 <= i < j < |ks| ==> ks[i] != ks[j]
    requires KeyedGroups(m, key)
    ensures Filter(ConcatGroups(ks, m), KeyIs(key, k)) == if k in ks && k in m then m[k] else []
    decreases |ks|
  {
    if |ks| > 0 {
      var ks' := ks[..|ks| - 1];
      var last := ks[|ks| - 1];
      FilterConcatGroups(ks', m, key, k);
      var tail := if last in m then m[last] else [];
      FilterAppend(ConcatGroups(ks', m), tail, KeyIs(key, k));
      if last == k {
        assert k !in ks' by {
          forall i | 0 <= i < |ks'| ensures ks'[i] != k {
            assert ks'[i] == ks[i];
          }
        }
        if k in m {
          FilterAll(tail, key, k);
        }
      } else {
        assert k in ks <==> k in ks';
        FilterNone(tail, key, k);
      }
    }
  }

  lemma {:induction false} FilterAll<T, K>(xs: seq<T>, key: T -> K, k: K)
    requires forall x :: x in xs ==> key(x) == k
    ensures Filter(xs, KeyIs(key, k)) == xs
    decreases |xs|
  {
    if |xs| > 0 {
      FilterAll(xs[..|xs| - 1], key, k);
      assert xs == xs[..|xs| - 1] + [xs[|xs| - 1]];
    }
  }

  lemma {:induction false} FilterNone<T, K>(xs: seq<T>, key: T -> K, k: K)
    requires forall x :: x in xs ==> key(x) != k
    ensures Filter(xs, KeyIs(key, k)) == []
    decreases |xs|
  {
    if |xs| > 0 {
      FilterNone(xs[..|xs| - 1], key, k);
    }
  }

  lemma GroupByKeyed<T, K>(xs: seq<T>, key: T -> K)
    ensures KeyedGroups(GroupBy(xs, key), key)
  {
    GroupBySpec(xs, key);
    var m := GroupBy(xs, key);
    forall k, x | k in m && x in m[k] ensures key(x) == k {
      FilterMember(xs, KeyIs(key, k), x);
    }
  }

  /** Concatenating the groups of a stream in the order of a key list that
    * names each key once visits its items key by key: for every key the
    * subsequence of items with that key is unchanged. */
  lemma ConcatGroupsKeepsKeyOrder<T, K>(ks: seq<K>, xs: seq<T>, key: T -> K, k: K)
    requires forall i, j :: 0 <= i < j < |ks| ==> ks[i] != ks[j]
    requires forall x :: x in xs ==> key(x) in ks
    ensures Filter(ConcatGroups(ks, GroupBy(xs, key)), KeyIs(key, k)) == Filter(xs, KeyIs(key, k))
  {
    var m := GroupBy(xs, key);
    GroupBySpec(xs, key);
    GroupByKeyed(xs, key);
    FilterConcatGroups(ks, m, key, k);
    if k !in m {
      FilterNone(xs, key, k);
    }
  }

  /** Items of listed groups come in the order of their keys in the list. */
  lemma {:induction false} ConcatGroupsOrdered<T, K>(ks: seq<K>, m: map<K, seq<T>>, key: T -> K, le: (K, K) -> bool)
    requires KeyedGroups(m, key)
    requires forall i, j :: 0 <= i < j < |ks| ==> le(ks[i], ks[j])
    ensures forall x :: x in ConcatGroups(ks, m) ==> key(x) in ks
    ensures forall i, j :: 0 <= i < j < |ConcatGroups(ks, m)| ==>
      var c := ConcatGroups(ks, m); key(c[i]) == key(c[j]) || le(key(c[i]), key(c[j]))
    decreases |ks|
  {
    if |ks| > 0 {
      var ks' := ks[..|ks| - 1];
      var last := ks[|ks| - 1];
      ConcatGroupsOrdered(ks', m, key, le);
      var pre := ConcatGroups(ks', m);
      var c := ConcatGroups(ks, m);
      forall i, j | 0 <= i < j < |c| ensures key(c[i]) == key(c[j]) || le(key(c[i]), key(c[j])) {
        if j >= |pre| {
          assert c[j] in m[last];
          if i < |pre| {
            assert c[i] in pre;
            var p :| 0 <= p < |ks'| && ks'[p] == key(c[i]);
            assert ks[p] == key(c[i]);
          } else {
            assert c[i] in m[last];
          }
        } else {
          assert c[i] == pre[i] && c[j] == pre[j];
        }
      }
      forall x | x in c ensures key(x) in ks {
        if x !in pre {
          assert x in m[last];
        }
      }
    }
  }

  lemma ConcatGroupsCount<T, K>(ks: seq<K>, xs: seq<T>, key: T -> K, x: T)
    requires forall i, j :: 0 <= i < j < |ks| ==> ks[i] != ks[j]
    requires forall y :: y in xs ==> key(y) in ks
    ensures multiset(ConcatGroups(ks, GroupBy(xs, key)))[x] == multiset(xs)[x]
  {
    var c := ConcatGroups(ks, GroupBy(xs, key));
    ConcatGroupsKeepsKeyOrder(ks, xs, key, key(x));
    FilterMultiset(c, KeyIs(key, key(x)), x);
    FilterMultiset(xs, KeyIs(key, key(x)), x);
  }

  lemma MultisetExt<T>(a: seq<T>, b: seq<T>)
    requires forall x :: multiset(a)[x] == multiset(b)[x]
    ensures multiset(a) == multiset(b)
  {
  }

  lemma ConcatGroupsFilterLast<T, K>(ks: seq<K>, m: map<K, seq<T>>, p: K -> bool)
    requires |ks| > 0
    ensures var k := ks[|ks| - 1];
      multiset(ConcatGroups(Filter(ks, p), m)) ==
      multiset(ConcatGroups(Filter(ks[..|ks| - 1], p), m)) + (if p(k) && k in m then multiset(m[k]) else multiset{})
  {
    var k := ks[|ks| - 1];
    var f' := Filter(ks[..|ks| - 1], p);
    if p(k) {
      assert Filter(ks, p) == f' + [k];
      ConcatGroupsAppend(f', k, m);
    } else {
      assert Filter(ks, p) == f';
    }
  }

  /** Splitting a key list by a test splits the concatenated groups into
    * two parts that together hold the same items. */
  lemma {:induction false} ConcatGroupsSplit<T, K>(ks: seq<K>, m: map<K, seq<T>>, p: K -> bool)
    ensures multiset(ConcatGroups(Filter(ks, p), m)) + multiset(ConcatGroups(Filter(ks, Not(p)), m))
         == multiset(ConcatGroups(ks, m))
    decreases |ks|
  {
    if |ks| > 0 {
      ConcatGroupsSplit(ks[..|ks| - 1], m, p);
      ConcatGroupsFilterLast(ks, m, p);
      ConcatGroupsFilterLast(ks, m, Not(p));
    }
  }

  /** Concatenated groups are a rearrangement of the stream they come from. */
  lemma ConcatGroupsPermutes<T, K>(ks: seq<K>, xs: seq<T>, key: T -> K)
    requires forall i, j :: 0 <= i < j < |ks| ==> ks[i] != ks[j]
    requires forall x :: x in xs ==> key(x) in ks
    ensures multiset(ConcatGroups(ks, GroupBy(xs, key))) == multiset(xs)
  {
    var c := ConcatGroups(ks, GroupBy(xs, key));
    forall x ensures multiset(c)[x] == multiset(xs)[x] {
      ConcatGroupsCount(ks, xs, key, x);
    }
    MultisetExt(c, xs);
  }
}
