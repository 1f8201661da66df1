/** The two reorderings of buildStatefulInstructions (beaconstatefulinsts.go):
  * PDE trades are grouped by pool pair, the pairs walked in string order,
  * the trades on a pair with a live pool sorted by fee per amount sold and
  * put first, the trades on other pairs after them in arrival order; header
  * relaying actions are grouped by block height and the heights walked in
  * ascending order. */
module ActionSort {
  import opened Common
  import opened Grouping
  import opened Sorting

  /** Decoding each action's content (field 1), skipping those that do not
    * decode (the beacon logs them and goes on). */
  function DecodeAll<A>(decode: string -> Option<A>, ts: seq<Tagged<Instruction>>): (r: seq<A>)
    ensures |r| <= |ts|
  {
    if |ts| == 0 then []
    else
      var d := decode(ContentOf(ts[|ts| - 1].item));
      DecodeAll(decode, ts[..|ts| - 1]) + (if d.Some? then [d.value] else [])
  }

  /** Field 1 of an action. */
  function ContentOf(a: Instruction): string
  {
    if |a| >= 2 then a[1] else ""
  }

  lemma DecodeAllSnoc<A>(decode: string -> Option<A>, ts: seq<Tagged<Instruction>>, t: Tagged<Instruction>)
    ensures DecodeAll(decode, ts + [t]) == DecodeAll(decode, ts) +
      (if decode(ContentOf(t.item)).Some? then [decode(ContentOf(t.item)).value] else [])
  {
    assert (ts + [t])[..|ts|] == ts;
  }

  lemma GroupBySnoc<T, K>(xs: seq<T>, x: T, key: T -> K)
    ensures GroupBy(xs + [x], key) ==
      GroupBy(xs, key)[key(x) := (if key(x) in GroupBy(xs, key) then GroupBy(xs, key)[key(x)] else []) + [x]]
  {
    assert (xs + [x])[..|xs|] == xs;
  }

  /** Grouping decoded actions by a key, one action at a time (the first loop
    * of both sortPDETradeInstsByFee and sortRelayingInstsByBlockHeight). */
  method GroupDecoded<A, K>(decode: string -> Option<A>, key: A -> K, ts: seq<Tagged<Instruction>>)
    returns (groups: map<K, seq<A>>)
    ensures groups == GroupBy(DecodeAll(decode, ts), key)
  {
    groups := map[];
    var i := 0;
    while i < |ts|
      invariant 0 <= i <= |ts|
      invariant groups == GroupBy(DecodeAll(decode, ts[..i]), key)
    {
      assert ts[..i + 1] == ts[..i] + [ts[i]];
      DecodeAllSnoc(decode, ts[..i], ts[i]);
      var d := decode(ContentOf(ts[i].item));
      if d.None? {
        assert DecodeAll(decode, ts[..i + 1]) == DecodeAll(decode, ts[..i]);
      } else {
        assert DecodeAll(decode, ts[..i + 1]) == DecodeAll(decode, ts[..i]) + [d.value];
        GroupBySnoc(DecodeAll(decode, ts[..i]), d.value, key);
        var k := key(d.value);
        if k in groups {
          groups := groups[k := groups[k] + [d.value]];
        } else {
          assert [] + [d.value] == [d.value];
          groups := groups[k := [d.value]];
        }
      }
      i := i + 1;
    }
    assert ts[..i] == ts;
  }

  // ---------------------------------------------------------------------
  // PDE trades

  /** A decoded PDE trade request action: the shard it came from, the pair
    * it trades on, the amount sold and the fee offered; the rest of the
    * request is carried along. */
  datatype TradeAction = TradeAction(
    shardID: Shard, tokenToBuy: string, tokenToSell: string,
    sellAmount: U64, tradingFee: U64, rest: string)

  /** A PDE pool pair's reserves. */
  datatype PoolPair = PoolPair(token1PoolValue: U64, token2PoolValue: U64)

  /** The PDE pool pairs by pair key; None is a nil pool stored under its
    * key. */
  type Pools = map<string, Option<PoolPair>>

  /** A pair key names a pool that is present, not nil, and holds both
    * tokens. */
  predicate PoolExists(pools: Pools, k: string)
  {
    k in pools && pools[k].Some? && pools[k].value.token1PoolValue != 0 && pools[k].value.token2PoolValue != 0
  }

  function ExistsIn(pools: Pools): string -> bool
  {
    (k: string) => PoolExists(pools, k)
  }

  /** The fee comparator: a goes before b when its fee per amount sold is
    * larger, compared by cross-multiplying the int64 readings of the
    * uint64 fields (in arbitrary precision, as big.Int does). */
  predicate FeeLess(a: TradeAction, b: TradeAction)
  {
    ToInt64(a.tradingFee) * ToInt64(b.sellAmount) > ToInt64(b.tradingFee) * ToInt64(a.sellAmount)
  }

  function ByFee(): (TradeAction, TradeAction) -> bool
  {
    (a: TradeAction, b: TradeAction) => FeeLess(a, b)
  }

  /** The pool pair key of each trade at a beacon height; the key builder
    * (lvdb.BuildPDEPoolForPairKey) is a parameter. */
  function PairKeyAt(poolKey: (U64, string, string) -> string, h: U64): TradeAction -> string
  {
    (t: TradeAction) => poolKey(h, t.tokenToBuy, t.tokenToSell)
  }

  predicate PositiveSells(ts: seq<TradeAction>)
  {
    forall t :: t in ts ==> ToInt64(t.sellAmount) > 0
  }

  lemma MulMonotone(a: int, b: int, c: int)
    requires a <= b && c > 0
    ensures a * c <= b * c
  {
  }

  /** Cross-multiplied ratio comparison is transitive for positive
    * denominators. */
  lemma CrossTransitive(fx: int, sx: int, fy: int, sy: int, fz: int, sz: int)
    requires sx > 0 && sy > 0 && sz > 0
    requires fy * sx <= fx * sy && fz * sy <= fy * sz
    ensures fz * sx <= fx * sz
  {
    MulMonotone(fz * sy, fy * sz, sx);
    MulMonotone(fy * sx, fx * sy, sz);
    assert fz * sy * sx == (fz * sx) * sy;
    assert fy * sz * sx == fy * sx * sz;
    assert fx * sy * sz == (fx * sz) * sy;
    if fz * sx > fx * sz {
      MulMonotone(fx * sz + 1, fz * sx, sy);
    }
  }

  /** When every amount sold reads as a positive int64, the fee comparator
    * is a strict weak order: sort.Slice then orders by fee per amount. */
  lemma FeeStrictWeak(s: set<TradeAction>)
    requires forall t :: t in s ==> ToInt64(t.sellAmount) > 0
    ensures StrictWeakOn(s, ByFee())
  {
    forall x, y, z | x in s && y in s && z in s && !FeeLess(y, x) && !FeeLess(z, y)
      ensures !FeeLess(z, x)
    {
      CrossTransitive(ToInt64(x.tradingFee), ToInt64(x.sellAmount), ToInt64(y.tradingFee), ToInt64(y.sellAmount),
                      ToInt64(z.tradingFee), ToInt64(z.sellAmount));
    }
  }

  /** A trade paying 3 on 10 sold goes before one paying 10 on 100 sold:
    * the order is by fee per amount, not by fee. */
  lemma FeeOrderExample()
    ensures FeeLess(TradeAction(0, "b", "s", 10, 3, ""), TradeAction(1, "b", "s", 100, 10, ""))
    ensures !FeeLess(TradeAction(1, "b", "s", 100, 10, ""), TradeAction(0, "b", "s", 10, 3, ""))
  {
  }

  /** Items come pair key by pair key in string order. */
  ghost predicate KeyAscending<T>(xs: seq<T>, key: T -> string)
  {
    forall i, j :: 0 <= i < j < |xs| ==> key(xs[i]) == key(xs[j]) || LexLess(key(xs[i]), key(xs[j]))
  }

  /** Within one pair, no trade has a larger fee per amount than an earlier
    * one. */
  ghost predicate FeeSorted(xs: seq<TradeAction>, key: TradeAction -> string)
  {
    forall i, j :: 0 <= i < j < |xs| && key(xs[i]) == key(xs[j]) ==> !FeeLess(xs[j], xs[i])
  }

  lemma AppendKeyGroup(xs: seq<TradeAction>, g: seq<TradeAction>, key: TradeAction -> string, k: string)
    requires forall x :: x in xs ==> LexLess(key(x), k)
    requires forall y :: y in g ==> key(y) == k
    ensures forall x :: x in xs + g ==> key(x) == k || LexLess(key(x), k)
    requires KeyAscending(xs, key)
    ensures KeyAscending(xs + g, key)
    ensures FeeSorted(xs, key) && SortedBy(g, ByFee()) ==> FeeSorted(xs + g, key)
  {
    var c := xs + g;
    forall i, j | 0 <= i < j < |c| ensures key(c[i]) == key(c[j]) || LexLess(key(c[i]), key(c[j])) {
      if i < |xs| && j >= |xs| {
        assert c[i] in xs && c[j] in g;
      } else if i >= |xs| {
        assert c[i] in g && c[j] in g;
      }
    }
    if FeeSorted(xs, key) && SortedBy(g, ByFee()) {
      forall i, j | 0 <= i < j < |c| && key(c[i]) == key(c[j]) ensures !FeeLess(c[j], c[i]) {
        if i < |xs| && j >= |xs| {
          assert c[i] in xs && c[j] in g;
          LexLessIrreflexive(k);
        } else if i >= |xs| {
          assert c[i] == g[i - |xs|] && c[j] == g[j - |xs|];
        }
      }
    }
  }

  /** What sortPDETradeInstsByFee promises about its result r, given the
    * trades that decoded: it holds the same trades; those on a pair with a
    * live pool come first; each of the two parts runs pair key by pair key
    * in string order; within a live pair (when every amount sold reads as
    * a positive int64) no trade offers a larger fee per amount than an
    * earlier one; and the trades on a pair without a live pool keep their
    * arrival order. */
  ghost predicate TradeOrder(pools: Pools, key: TradeAction -> string, trades: seq<TradeAction>, r: seq<TradeAction>)
  {
    && multiset(r) == multiset(trades)
    && (forall i, j :: 0 <= i < j < |r| && !PoolExists(pools, key(r[i])) ==> !PoolExists(pools, key(r[j])))
    && (forall i, j :: 0 <= i < j < |r| && PoolExists(pools, key(r[i])) == PoolExists(pools, key(r[j])) ==>
          key(r[i]) == key(r[j]) || LexLess(key(r[i]), key(r[j])))
    && (PositiveSells(trades) ==>
          forall i, j :: 0 <= i < j < |r| && PoolExists(pools, key(r[i])) && key(r[i]) == key(r[j]) ==> !FeeLess(r[j], r[i]))
    && (forall k :: !PoolExists(pools, k) ==> Filter(r, KeyIs(key, k)) == Filter(trades, KeyIs(key, k)))
  }

  /** sortPDETradeInstsByFee: the trade actions of every shard, shards in
    * ascending order, decoded (skipping those that do not decode), grouped
    * by pool pair key at the beacon height, and reordered. */
  method SortPdeTradeInstsByFee(decode: string -> Option<TradeAction>, poolKey: (U64, string, string) -> string,
                                beaconHeight: U64, pools: Pools, byShard: map<Shard, seq<Instruction>>)
    returns (r: seq<TradeAction>)
    ensures TradeOrder(pools, PairKeyAt(poolKey, beaconHeight), DecodeAll(decode, FlattenByShard(byShard)), r)
  {
    r := SortTrades(decode, PairKeyAt(poolKey, beaconHeight), pools, FlattenByShard(byShard));
  }

  method SortTrades(decode: string -> Option<TradeAction>, key: TradeAction -> string, pools: Pools,
                    ts: seq<Tagged<Instruction>>)
    returns (r: seq<TradeAction>)
    ensures TradeOrder(pools, key, DecodeAll(decode, ts), r)
  {
    ghost var trades := DecodeAll(decode, ts);
    var byPair := GroupDecoded(decode, key, ts);
    var keys := KeysOf(byPair.Keys);
    LexStrictWeak(set x | x in keys);
    forall x, y | x in keys && y in keys && x != y ensures ByString()(x, y) || ByString()(y, x) {
      LexLessTotal(x, y);
    }
    var ppKeys := SortDistinct(keys, ByString());
    PairKeysSorted(byPair, keys, ppKeys);
    GroupByKeyed(trades, key);
    ghost var positive := PositiveSells(trades);
    PositiveGroups(trades, key, positive);
    var sorted, notExisting := SplitAndSortByFee(pools, key, byPair, ppKeys, positive);
    r := sorted + notExisting;
    TradeOrderOf(pools, key, trades, ppKeys, sorted, notExisting);
  }

  lemma PairKeysSorted(byPair: map<string, seq<TradeAction>>, keys: seq<string>, ppKeys: seq<string>)
    requires forall x :: x in keys <==> x in byPair
    requires multiset(ppKeys) == multiset(keys)
    requires forall i, j :: 0 <= i < j < |ppKeys| ==> ByString()(ppKeys[i], ppKeys[j])
    ensures forall x :: x in ppKeys <==> x in byPair
    ensures forall i, j :: 0 <= i < j < |ppKeys| ==> LexLess(ppKeys[i], ppKeys[j])
    ensures forall i :: 0 <= i < |ppKeys| - 1 ==> LexLess(ppKeys[i], ppKeys[i + 1])
  {
    forall x ensures x in ppKeys <==> x in byPair {
      assert x in ppKeys <==> x in multiset(ppKeys);
      assert x in keys <==> x in multiset(keys);
    }
    forall i | 0 <= i < |ppKeys| - 1 ensures LexLess(ppKeys[i], ppKeys[i + 1]) {
      assert ByString()(ppKeys[i], ppKeys[i + 1]);
    }
  }

  lemma PositiveGroups(trades: seq<TradeAction>, key: TradeAction -> string, positive: bool)
    requires positive == PositiveSells(trades)
    ensures positive ==> forall k, t :: k in GroupBy(trades, key) && t in GroupBy(trades, key)[k] ==> ToInt64(t.sellAmount) > 0
  {
    GroupBySpec(trades, key);
    forall k, t | positive && k in GroupBy(trades, key) && t in GroupBy(trades, key)[k] ensures ToInt64(t.sellAmount) > 0 {
      FilterMember(trades, KeyIs(key, k), t);
    }
  }

  /** The two parts SplitAndSortByFee returns, put one after the other, are
    * in the order TradeOrder describes. */
  lemma TradeOrderOf(pools: Pools, key: TradeAction -> string, trades: seq<TradeAction>, ppKeys: seq<string>,
                     sorted: seq<TradeAction>, notExisting: seq<TradeAction>)
    requires forall x :: x in ppKeys <==> x in GroupBy(trades, key)
    requires forall i, j :: 0 <= i < j < |ppKeys| ==> LexLess(ppKeys[i], ppKeys[j])
    requires notExisting == ConcatGroups(Filter(ppKeys, Not(ExistsIn(pools))), GroupBy(trades, key))
    requires multiset(sorted) == multiset(ConcatGroups(Filter(ppKeys, ExistsIn(pools)), GroupBy(trades, key)))
    requires forall x :: x in sorted ==> PoolExists(pools, key(x))
    requires KeyAscending(sorted, key)
    requires PositiveSells(trades) ==> FeeSorted(sorted, key)
    ensures TradeOrder(pools, key, trades, sorted + notExisting)
  {
    var byPair := GroupBy(trades, key);
    var r := sorted + notExisting;
    TradesPermuted(pools, key, trades, ppKeys, sorted, notExisting);
    DeadPart(pools, key, trades, ppKeys, notExisting);
    forall i | 0 <= i < |r| ensures PoolExists(pools, key(r[i])) <==> i < |sorted| {
      if i < |sorted| {
        assert r[i] == sorted[i];
      } else {
        assert r[i] == notExisting[i - |sorted|];
      }
    }
    forall i, j | 0 <= i < j < |r| && PoolExists(pools, key(r[i])) == PoolExists(pools, key(r[j]))
      ensures key(r[i]) == key(r[j]) || LexLess(key(r[i]), key(r[j]))
    {
      if j < |sorted| {
        assert r[i] == sorted[i] && r[j] == sorted[j];
      } else if i >= |sorted| {
        assert r[i] == notExisting[i - |sorted|] && r[j] == notExisting[j - |sorted|];
      }
    }
    if PositiveSells(trades) {
      forall i, j | 0 <= i < j < |r| && PoolExists(pools, key(r[i])) && key(r[i]) == key(r[j])
        ensures !FeeLess(r[j], r[i])
      {
        if j < |sorted| {
          assert r[i] == sorted[i] && r[j] == sorted[j];
        }
      }
    }
    forall k | !PoolExists(pools, k) ensures Filter(r, KeyIs(key, k)) == Filter(trades, KeyIs(key, k)) {
      DeadPairKept(pools, key, trades, ppKeys, sorted, notExisting, k);
    }
  }

  lemma TradesPermuted(pools: Pools, key: TradeAction -> string, trades: seq<TradeAction>, ppKeys: seq<string>,
                       sorted: seq<TradeAction>, notExisting: seq<TradeAction>)
    requires forall x :: x in ppKeys <==> x in GroupBy(trades, key)
    requires forall i, j :: 0 <= i < j < |ppKeys| ==> LexLess(ppKeys[i], ppKeys[j])
    requires notExisting == ConcatGroups(Filter(ppKeys, Not(ExistsIn(pools))), GroupBy(trades, key))
    requires multiset(sorted) == multiset(ConcatGroups(Filter(ppKeys, ExistsIn(pools)), GroupBy(trades, key)))
    ensures multiset(sorted + notExisting) == multiset(trades)
  {
    var byPair := GroupBy(trades, key);
    ConcatGroupsSplit(ppKeys, byPair, ExistsIn(pools));
    forall i, j | 0 <= i < j < |ppKeys| ensures ppKeys[i] != ppKeys[j] {
      LexLessIrreflexive(ppKeys[i]);
    }
    GroupBySpec(trades, key);
    forall x | x in trades ensures key(x) in ppKeys {
      assert key(x) in byPair.Keys;
    }
    ConcatGroupsPermutes(ppKeys, trades, key);
    assert multiset(sorted + notExisting) == multiset(sorted) + multiset(notExisting);
  }

  /** The set-aside part holds only trades on pairs without a live pool, in
    * pair key order. */
  lemma DeadPart(pools: Pools, key: TradeAction -> string, trades: seq<TradeAction>, ppKeys: seq<string>,
                 notExisting: seq<TradeAction>)
    requires forall i, j :: 0 <= i < j < |ppKeys| ==> LexLess(ppKeys[i], ppKeys[j])
    requires notExisting == ConcatGroups(Filter(ppKeys, Not(ExistsIn(pools))), GroupBy(trades, key))
    ensures forall x :: x in notExisting ==> !PoolExists(pools, key(x))
    ensures KeyAscending(notExisting, key)
  {
    var dead := Filter(ppKeys, Not(ExistsIn(pools)));
    forall i, j | 0 <= i < j < |ppKeys| ensures ByString()(ppKeys[i], ppKeys[j]) {
    }
    FilterPairwise(ppKeys, Not(ExistsIn(pools)), ByString());
    GroupByKeyed(trades, key);
    ConcatGroupsOrdered(dead, GroupBy(trades, key), key, ByString());
    forall x | x in notExisting ensures !PoolExists(pools, key(x)) {
      FilterMember(ppKeys, Not(ExistsIn(pools)), key(x));
    }
  }

  /** The trades on a pair without a live pool come out in arrival order. */
  lemma DeadPairKept(pools: Pools, key: TradeAction -> string, trades: seq<TradeAction>, ppKeys: seq<string>,
                     sorted: seq<TradeAction>, notExisting: seq<TradeAction>, k: string)
    requires forall x :: x in ppKeys <==> x in GroupBy(trades, key)
    requires forall i, j :: 0 <= i < j < |ppKeys| ==> LexLess(ppKeys[i], ppKeys[j])
    requires notExisting == ConcatGroups(Filter(ppKeys, Not(ExistsIn(pools))), GroupBy(trades, key))
    requires forall x :: x in sorted ==> PoolExists(pools, key(x))
    requires !PoolExists(pools, k)
    ensures Filter(sorted + notExisting, KeyIs(key, k)) == Filter(trades, KeyIs(key, k))
  {
    var byPair := GroupBy(trades, key);
    var dead := Filter(ppKeys, Not(ExistsIn(pools)));
    FilterAppend(sorted, notExisting, KeyIs(key, k));
    FilterNone(sorted, key, k);
    forall i, j | 0 <= i < j < |ppKeys| ensures ppKeys[i] != ppKeys[j] {
      LexLessIrreflexive(ppKeys[i]);
    }
    FilterPairwise(ppKeys, Not(ExistsIn(pools)), (a: string, b: string) => a != b);
    GroupByKeyed(trades, key);
    FilterConcatGroups(dead, byPair, key, k);
    FilterMember(ppKeys, Not(ExistsIn(pools)), k);
    GroupBySpec(trades, key);
    if k !in byPair {
      forall x | x in trades ensures key(x) != k {
        assert key(x) in byPair.Keys;
      }
      FilterNone(trades, key, k);
    }
    assert [] + Filter(notExisting, KeyIs(key, k)) == Filter(notExisting, KeyIs(key, k));
  }

  /** The second loop of sortPDETradeInstsByFee: walk the pair keys in
    * order; trades on a pair without a live pool are set aside as they
    * are, trades on a live pool are sorted by fee and kept. */
  method SplitAndSortByFee(pools: Pools, key: TradeAction -> string, byPair: map<string, seq<TradeAction>>,
                           ppKeys: seq<string>, ghost positive: bool)
    returns (sorted: seq<TradeAction>, notExisting: seq<TradeAction>)
    requires forall i :: 0 <= i < |ppKeys| - 1 ==> LexLess(ppKeys[i], ppKeys[i + 1])
    requires forall k :: k in ppKeys ==> k in byPair
    requires KeyedGroups(byPair, key)
    requires positive ==> forall k, t :: k in byPair && t in byPair[k] ==> ToInt64(t.sellAmount) > 0
    ensures notExisting == ConcatGroups(Filter(ppKeys, Not(ExistsIn(pools))), byPair)
    ensures multiset(sorted) == multiset(ConcatGroups(Filter(ppKeys, ExistsIn(pools)), byPair))
    ensures forall x :: x in sorted ==> PoolExists(pools, key(x))
    ensures KeyAscending(sorted, key)
    ensures positive ==> FeeSorted(sorted, key)
  {
    sorted, notExisting := [], [];
    ghost var live: seq<string> := [];
    ghost var dead: seq<string> := [];
    ghost var plain: seq<TradeAction> := [];
    assert ppKeys[..0] == [];
    var j := 0;
    while j < |ppKeys|
      invariant 0 <= j <= |ppKeys|
      invariant SplitSoFar(pools, byPair, ppKeys[..j], live, dead, plain, notExisting)
      invariant multiset(sorted) == multiset(plain)
      invariant LivePart(pools, key, sorted, positive)
      invariant j < |ppKeys| ==> forall x :: x in sorted ==> LexLess(key(x), ppKeys[j])
    {
      var k := ppKeys[j];
      ghost var live', dead', plain' := SplitStep(pools, byPair, ppKeys[..j], k, live, dead, plain, notExisting);
      PrefixSnoc(ppKeys, j);
      sorted, notExisting := PlacePairTrades(pools, key, byPair, k, sorted, notExisting, plain, positive);
      live, dead, plain := live', dead', plain';
      if j + 1 < |ppKeys| {
        RaiseBound(sorted, key, k, ppKeys[j + 1]);
      }
      j := j + 1;
    }
    assert ppKeys[..j] == ppKeys;
  }

  /** What the kept part satisfies: every trade has a live pool, pair keys
    * ascend, and (for positive amounts) fees descend within a pair. */
  ghost predicate LivePart(pools: Pools, key: TradeAction -> string, sorted: seq<TradeAction>, positive: bool)
  {
    && (forall x :: x in sorted ==> PoolExists(pools, key(x)))
    && KeyAscending(sorted, key)
    && (positive ==> FeeSorted(sorted, key))
  }

  /** One pair key of the second loop: its trades are set aside when the
    * pair has no live pool, and otherwise sorted by fee and kept. */
  method PlacePairTrades(pools: Pools, key: TradeAction -> string, byPair: map<string, seq<TradeAction>>, k: string,
                         sorted: seq<TradeAction>, notExisting: seq<TradeAction>,
                         ghost plain: seq<TradeAction>, ghost positive: bool)
    returns (sorted': seq<TradeAction>, notExisting': seq<TradeAction>)
    requires k in byPair
    requires KeyedGroups(byPair, key)
    requires positive ==> forall k, t :: k in byPair && t in byPair[k] ==> ToInt64(t.sellAmount) > 0
    requires forall x :: x in sorted ==> LexLess(key(x), k)
    requires LivePart(pools, key, sorted, positive)
    requires multiset(sorted) == multiset(plain)
    ensures notExisting' == notExisting + (if PoolExists(pools, k) then [] else byPair[k])
    ensures multiset(sorted') == multiset(plain + (if PoolExists(pools, k) then byPair[k] else []))
    ensures forall x :: x in sorted' ==> key(x) == k || LexLess(key(x), k)
    ensures LivePart(pools, key, sorted', positive)
  {
    var trades := byPair[k];
    if !(k in pools) || pools[k].None? || pools[k].value.token1PoolValue == 0 || pools[k].value.token2PoolValue == 0 {
      assert !PoolExists(pools, k);
      sorted', notExisting' := sorted, notExisting + trades;
      assert plain + [] == plain;
    } else {
      assert PoolExists(pools, k);
      var feeSorted := SortTradesByFee(trades, positive);
      forall y | y in feeSorted ensures key(y) == k {
        assert y in multiset(feeSorted);
      }
      AppendKeyGroup(sorted, feeSorted, key, k);
      assert multiset(sorted + feeSorted) == multiset(sorted) + multiset(feeSorted);
      sorted', notExisting' := sorted + feeSorted, notExisting;
      assert notExisting + [] == notExisting;
    }
  }

  /** sort.Slice on one pair's trades with the fee comparator. */
  method SortTradesByFee(trades: seq<TradeAction>, ghost positive: bool) returns (r: seq<TradeAction>)
    requires positive ==> forall t :: t in trades ==> ToInt64(t.sellAmount) > 0
    ensures multiset(r) == multiset(trades)
    ensures positive ==> SortedBy(r, ByFee())
  {
    var a := new TradeAction[|trades|](i requires 0 <= i < |trades| => trades[i]);
    assert a[..] == trades;
    if positive {
      FeeStrictWeak(set x | x in trades);
    }
    InsertionSort(a, ByFee());
    r := a[..];
  }

  lemma RaiseBound<T>(xs: seq<T>, key: T -> string, k: string, k2: string)
    requires forall x :: x in xs ==> key(x) == k || LexLess(key(x), k)
    requires LexLess(k, k2)
    ensures forall x :: x in xs ==> LexLess(key(x), k2)
  {
    forall x | x in xs ensures LexLess(key(x), k2) {
      if key(x) != k {
        LexLessTransitive(key(x), k, k2);
      }
    }
  }

  /** The ghost bookkeeping of SplitAndSortByFee after the keys ks: the live
    * and the dead keys among them, and the trades of each. */
  ghost predicate SplitSoFar(pools: Pools, byPair: map<string, seq<TradeAction>>, ks: seq<string>,
                             live: seq<string>, dead: seq<string>, plain: seq<TradeAction>, notExisting: seq<TradeAction>)
  {
    && live == Filter(ks, ExistsIn(pools))
    && dead == Filter(ks, Not(ExistsIn(pools)))
    && notExisting == ConcatGroups(dead, byPair)
    && plain == ConcatGroups(live, byPair)
  }

  /** One step of that bookkeeping: the next key joins the live or the dead
    * keys, and its trades their concatenation. */
  lemma SplitStep(pools: Pools, byPair: map<string, seq<TradeAction>>, ks: seq<string>, k: string,
                  live: seq<string>, dead: seq<string>, plain: seq<TradeAction>, notExisting: seq<TradeAction>)
    returns (live': seq<string>, dead': seq<string>, plain': seq<TradeAction>)
    requires k in byPair
    requires SplitSoFar(pools, byPair, ks, live, dead, plain, notExisting)
    ensures SplitSoFar(pools, byPair, ks + [k], live', dead', plain',
                       notExisting + (if PoolExists(pools, k) then [] else byPair[k]))
    ensures plain' == plain + (if PoolExists(pools, k) then byPair[k] else [])
  {
    FilterSnocKeys(ks, k, ExistsIn(pools));
    FilterSnocKeys(ks, k, Not(ExistsIn(pools)));
    ConcatGroupsAppend(live, k, byPair);
    ConcatGroupsAppend(dead, k, byPair);
    if PoolExists(pools, k) {
      live', dead', plain' := live + [k], dead, plain + byPair[k];
      assert notExisting + [] == notExisting;
    } else {
      live', dead', plain' := live, dead + [k], plain;
      assert plain + [] == plain;
    }
  }

  lemma PrefixSnoc<T>(s: seq<T>, j: nat)
    requires j < |s|
    ensures s[..j + 1] == s[..j] + [s[j]]
  {
  }

  lemma FilterSnocKeys(ks: seq<string>, k: string, p: string -> bool)
    ensures Filter(ks + [k], p) == Filter(ks, p) + (if p(k) then [k] else [])
  {
    assert (ks + [k])[..|ks|] == ks;
  }

  // ---------------------------------------------------------------------
  // Header relaying

  /** A decoded header relaying action (RelayingHeaderAction): the request's
    * incognito address, header and block height, the request id and the
    * shard it came from. */
  datatype RelayingHeaderAction = RelayingHeaderAction(
    incogAddressStr: string, header: string, blockHeight: U64, txReqID: string, shardID: Shard)

  function HeightOf(): RelayingHeaderAction -> U64
  {
    (a: RelayingHeaderAction) => a.blockHeight
  }

  /** sort.Slice's comparator on the block heights. */
  function ByHeight(): (U64, U64) -> bool
  {
    (x: U64, y: U64) => x < y
  }

  lemma HeightStrictWeak(s: set<U64>)
    ensures StrictWeakOn(s, ByHeight())
  {
  }

  /** sortRelayingInstsByBlockHeight: decode each relaying action (skipping
    * those that do not decode), group the actions by block height, note
    * each height the first time it is met, and sort the heights. */
  method SortRelayingInstsByBlockHeight(decode: string -> Option<RelayingHeaderAction>, ts: seq<Tagged<Instruction>>)
    returns (groups: map<U64, seq<RelayingHeaderAction>>, heights: seq<U64>)
    ensures groups == GroupBy(DecodeAll(decode, ts), HeightOf())
    ensures forall h :: h in heights <==> h in groups
    ensures forall i, j :: 0 <= i < j < |heights| ==> heights[i] < heights[j]
  {
    var found: seq<U64>;
    groups, found := GroupByHeight(decode, ts);
    HeightStrictWeak(set x | x in found);
    heights := SortDistinct(found, ByHeight());
    forall h ensures h in heights <==> h in groups {
      assert h in heights <==> h in multiset(heights);
      assert h in found <==> h in multiset(found);
    }
    forall i, j | 0 <= i < j < |heights| ensures heights[i] < heights[j] {
      assert ByHeight()(heights[i], heights[j]);
    }
  }

  /** The loop of sortRelayingInstsByBlockHeight, before the heights are
    * sorted: the heights come in the order they are first met. */
  method GroupByHeight(decode: string -> Option<RelayingHeaderAction>, ts: seq<Tagged<Instruction>>)
    returns (groups: map<U64, seq<RelayingHeaderAction>>, heights: seq<U64>)
    ensures groups == GroupBy(DecodeAll(decode, ts), HeightOf())
    ensures forall h :: h in heights <==> h in groups
    ensures forall i, j :: 0 <= i < j < |heights| ==> heights[i] != heights[j]
  {
    groups, heights := map[], [];
    var i := 0;
    while i < |ts|
      invariant 0 <= i <= |ts|
      invariant groups == GroupBy(DecodeAll(decode, ts[..i]), HeightOf())
      invariant forall h :: h in heights <==> h in groups
      invariant forall p, q :: 0 <= p < q < |heights| ==> heights[p] != heights[q]
    {
      PrefixSnoc(ts, i);
      DecodeAllSnoc(decode, ts[..i], ts[i]);
      var d := decode(ContentOf(ts[i].item));
      if d.None? {
        assert DecodeAll(decode, ts[..i + 1]) == DecodeAll(decode, ts[..i]);
      } else {
        var action := d.value;
        assert DecodeAll(decode, ts[..i + 1]) == DecodeAll(decode, ts[..i]) + [action];
        GroupBySnoc(DecodeAll(decode, ts[..i]), action, HeightOf());
        var h := action.blockHeight;
        if h !in heights {
          heights := heights + [h];
        }
        if h in groups {
          groups := groups[h := groups[h] + [action]];
        } else {
          assert [] + [action] == [action];
          groups := groups[h := [action]];
        }
      }
      i := i + 1;
    }
    assert ts[..i] == ts;
  }

  /** handleRelayingInsts walks the groups in the order of the sorted
    * heights: that order holds every decoded action once, ... */
  lemma RelayPermutes(xs: seq<RelayingHeaderAction>, heights: seq<U64>)
    requires forall x :: x in heights <==> x in GroupBy(xs, HeightOf())
    requires forall i, j :: 0 <= i < j < |heights| ==> heights[i] < heights[j]
    ensures multiset(ConcatGroups(heights, GroupBy(xs, HeightOf()))) == multiset(xs)
  {
    GroupBySpec(xs, HeightOf());
    forall x | x in xs ensures HeightOf()(x) in heights {
      assert HeightOf()(x) in GroupBy(xs, HeightOf()).Keys;
    }
    ConcatGroupsPermutes(heights, xs, HeightOf());
  }

  /** ... its block heights never go down, ... */
  lemma RelayHeightsAscend(xs: seq<RelayingHeaderAction>, heights: seq<U64>)
    requires forall i, j :: 0 <= i < j < |heights| ==> heights[i] < heights[j]
    ensures forall i, j :: 0 <= i < j < |ConcatGroups(heights, GroupBy(xs, HeightOf()))| ==>
      ConcatGroups(heights, GroupBy(xs, HeightOf()))[i].blockHeight <= ConcatGroups(heights, GroupBy(xs, HeightOf()))[j].blockHeight
  {
    GroupByKeyed(xs, HeightOf());
    forall i, j | 0 <= i < j < |heights| ensures ByHeight()(heights[i], heights[j]) {
    }
    ConcatGroupsOrdered(heights, GroupBy(xs, HeightOf()), HeightOf(), ByHeight());
  }

  /** ... and the actions of one height keep their arrival order. */
  lemma RelayKeepsArrivalOrder(xs: seq<RelayingHeaderAction>, heights: seq<U64>, h: U64)
    requires forall x :: x in heights <==> x in GroupBy(xs, HeightOf())
    requires forall i, j :: 0 <= i < j < |heights| ==> heights[i] < heights[j]
    ensures Filter(ConcatGroups(heights, GroupBy(xs, HeightOf())), KeyIs(HeightOf(), h)) == Filter(xs, KeyIs(HeightOf(), h))
  {
    GroupBySpec(xs, HeightOf());
    forall x | x in xs ensures HeightOf()(x) in heights {
      assert HeightOf()(x) in GroupBy(xs, HeightOf()).Keys;
    }
    ConcatGroupsKeepsKeyOrder(heights, xs, HeightOf(), h);
  }
}
