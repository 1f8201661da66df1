/** The block-pool utilities of the synchroniser (syncker/utils.go):
  * per-shard list differences, children lookup, the longest and the final
  * chain of a pool, the views above a hash, and batch insertion of a run
  * of blocks into a chain. */
module SyncUtils {
  import opened Common
  import Grouping
  import StatefulInsts

  /** A block as the pool sees it: its hash, its parent's hash, its height,
    * and, for a shard block, its instructions. */
  datatype BlockKind = BeaconBlock | ShardBlock(instructions: seq<seq<string>>)
  datatype Block = Block(hash: string, prevHash: string, height: U64, kind: BlockKind)

  /** Go's map lookup with the nil default. */
  function Get(m: map<string, Block>, h: string): Option<Block>
  {
    if h in m then Some(m[h]) else None
  }

  // ---------------------------------------------------------------------
  // List differences

  /** The keys of a list of pool blocks, in order. */
  function KeysOf<T>(blocks: seq<Block>, key: Block -> T): (r: seq<T>)
    ensures |r| == |blocks| && forall i :: 0 <= i < |blocks| ==> r[i] == key(blocks[i])
  {
    seq(|blocks|, i requires 0 <= i < |blocks| => key(blocks[i]))
  }

  /** The pool's keys per shard; a shard whose list is empty gets no entry,
    * since nothing is ever appended for it. */
  function PoolKeys<T>(poolList: map<Shard, seq<Block>>, key: Block -> T): map<Shard, seq<T>>
  {
    map s | s in poolList && |poolList[s]| > 0 :: KeysOf(poolList[s], key)
  }

  /** The wanted entries the pool does not have, in wanted order. */
  function Missing<T(==)>(have: seq<T>, want: seq<T>): seq<T>
  {
    Grouping.Filter(want, x => x !in have)
  }

  /** The difference compareLists and compareListsByHeight compute: for
    * each wanted shard the pool knows, the wanted entries it lacks (no entry
    * when it lacks none); for a wanted shard it does not know, the whole
    * wanted list. Shards only the pool has never appear. */
  function Difference<T(==)>(poolList: map<Shard, seq<Block>>, wanted: map<Shard, seq<T>>, key: Block -> T)
    : map<Shard, seq<T>>
  {
    var pk := PoolKeys(poolList, key);
    map s | s in wanted && Entry(pk, wanted[s], s).Some? :: Entry(pk, wanted[s], s).value
  }

  /** One wanted shard's entry: the whole wanted list when the pool has no
    * keys for it, else the missing ones when there are any. */
  function Entry<T(==)>(pk: map<Shard, seq<T>>, want: seq<T>, s: Shard): Option<seq<T>>
  {
    if s !in pk then Some(want)
    else
      var m := Missing(pk[s], want);
      if |m| > 0 then Some(m) else None
  }

  /** An entry is reported for a shard exactly when it is wanted there and
    * the pool has no block with that key for the shard; a reported list
    * keeps the wanted order. */
  lemma DifferenceMembers<T>(poolList: map<Shard, seq<Block>>, wanted: map<Shard, seq<T>>, key: Block -> T,
                                 s: Shard, x: T)
    ensures var d := Difference(poolList, wanted, key);
            (s in d && x in d[s]) <==>
              (s in wanted && x in wanted[s]
               && !(s in poolList && exists i :: 0 <= i < |poolList[s]| && key(poolList[s][i]) == x))
    ensures var d := Difference(poolList, wanted, key);
            s in d ==> s in wanted
  {
    var pk := PoolKeys(poolList, key);
    if s in wanted {
      if s in pk {
        Grouping.FilterMember(wanted[s], y => y !in pk[s], x);
        if x in pk[s] {
          var i :| 0 <= i < |pk[s]| && pk[s][i] == x;
          assert key(poolList[s][i]) == x;
        }
        if s in poolList && exists i :: 0 <= i < |poolList[s]| && key(poolList[s][i]) == x {
          var i :| 0 <= i < |poolList[s]| && key(poolList[s][i]) == x;
          assert pk[s][i] == x;
        }
      }
    }
  }

  /** The first loop of compareLists: each pool block's key appended to its
    * shard's list. */
  method CollectPoolKeys<T>(poolList: map<Shard, seq<Block>>, key: Block -> T)
    returns (poolListsKey: map<Shard, seq<T>>)
    ensures poolListsKey == PoolKeys(poolList, key)
  {
    poolListsKey := map[];
    var todo := poolList.Keys;
    while todo != {}
      invariant todo <= poolList.Keys
      invariant poolListsKey == map s | s in poolList.Keys - todo && |poolList[s]| > 0 :: KeysOf(poolList[s], key)
      decreases |todo|
    {
      var shardID :| shardID in todo;
      var blkList := poolList[shardID];
      var keys := AppendKeys(blkList, key);
      if |blkList| > 0 {
        poolListsKey := poolListsKey[shardID := keys];
      }
      todo := todo - {shardID};
    }
  }

  /** The keys of one shard's blocks, appended one by one. */
  method AppendKeys<T>(blkList: seq<Block>, key: Block -> T) returns (keys: seq<T>)
    ensures keys == KeysOf(blkList, key)
  {
    keys := [];
    var i := 0;
    while i < |blkList|
      invariant 0 <= i <= |blkList|
      invariant keys == KeysOf(blkList[..i], key)
    {
      keys := keys + [key(blkList[i])];
      i := i + 1;
    }
    assert blkList[..i] == blkList;
  }

  /** The inner loop of the comparison: each wanted key the pool's list does
    * not hold, in order. */
  method MissingKeys<T(==)>(blockList: seq<T>, blockKeys: seq<T>) returns (missing: seq<T>)
    ensures missing == Missing(blockList, blockKeys)
  {
    missing := [];
    var j := 0;
    while j < |blockKeys|
      invariant 0 <= j <= |blockKeys|
      invariant missing == Missing(blockList, blockKeys[..j])
    {
      assert blockKeys[..j + 1] == blockKeys[..j] + [blockKeys[j]];
      Grouping.FilterAppend(blockKeys[..j], [blockKeys[j]], x => x !in blockList);
      if blockKeys[j] !in blockList {
        missing := missing + [blockKeys[j]];
      }
      j := j + 1;
    }
    assert blockKeys[..j] == blockKeys;
  }

  /** The shared loops of compareLists and compareListsByHeight: collect the
    * pool's keys per shard, then compare each wanted shard's list with them.
    * A shard whose missing list stays empty gets no entry, as Go's append
    * onto a missing key is never reached. */
  method CompareBy<T(==)>(poolList: map<Shard, seq<Block>>, wanted: map<Shard, seq<T>>, key: Block -> T)
    returns (diff: map<Shard, seq<T>>)
    ensures diff == Difference(poolList, wanted, key)
  {
    diff := map[];
    var poolListsKey := CollectPoolKeys(poolList, key);
    var pending := wanted.Keys;
    while pending != {}
      invariant pending <= wanted.Keys
      invariant DiffSoFar(diff, wanted, poolListsKey, pending)
      decreases |pending|
    {
      var shardID :| shardID in pending;
      var blockKeys := wanted[shardID];
      var entry: Option<seq<T>>;
      if shardID in poolListsKey {
        var missing := MissingKeys(poolListsKey[shardID], blockKeys);
        entry := if |missing| > 0 then Some(missing) else None;
      } else {
        entry := Some(blockKeys);
      }
      DiffStep(diff, wanted, poolListsKey, pending, shardID);
      if entry.Some? {
        diff := diff[shardID := entry.value];
      }
      pending := pending - {shardID};
    }
    DiffDone(diff, wanted, poolListsKey);
  }

  /** The comparison so far: the shards handled are those outside
    * `pending`, and each has its entry, if any. */
  ghost predicate DiffSoFar<T>(diff: map<Shard, seq<T>>, wanted: map<Shard, seq<T>>, pk: map<Shard, seq<T>>,
                                   pending: set<Shard>)
  {
    && (forall s :: s in diff <==> s in wanted && s !in pending && Entry(pk, wanted[s], s).Some?)
    && (forall s :: s in diff ==> diff[s] == Entry(pk, wanted[s], s).value)
  }

  /** Handling one more shard records its entry. */
  lemma DiffStep<T>(diff: map<Shard, seq<T>>, wanted: map<Shard, seq<T>>, pk: map<Shard, seq<T>>,
                        pending: set<Shard>, s: Shard)
    requires DiffSoFar(diff, wanted, pk, pending) && s in pending && pending <= wanted.Keys
    ensures var e := Entry(pk, wanted[s], s);
            DiffSoFar(if e.Some? then diff[s := e.value] else diff, wanted, pk, pending - {s})
  {
  }

  /** With every shard handled, the result is the difference. */
  lemma DiffDone<T>(diff: map<Shard, seq<T>>, wanted: map<Shard, seq<T>>, pk: map<Shard, seq<T>>)
    requires DiffSoFar(diff, wanted, pk, {})
    ensures diff == map s | s in wanted && Entry(pk, wanted[s], s).Some? :: Entry(pk, wanted[s], s).value
  {
  }

  /** compareLists: the wanted block hashes the pool lacks, per shard. */
  method CompareLists(poolList: map<Shard, seq<Block>>, hashList: map<Shard, seq<string>>)
    returns (diffHashes: map<Shard, seq<string>>)
    ensures diffHashes == Difference(poolList, hashList, (b: Block) => b.hash)
  {
    diffHashes := CompareBy(poolList, hashList, (b: Block) => b.hash);
  }

  /** compareListsByHeight: the wanted heights the pool lacks, per shard. */
  method CompareListsByHeight(poolList: map<Shard, seq<Block>>, heightList: map<Shard, seq<U64>>)
    returns (diffHeights: map<Shard, seq<U64>>)
    ensures diffHeights == Difference(poolList, heightList, (b: Block) => b.height)
  {
    diffHeights := CompareBy(poolList, heightList, (b: Block) => b.height);
  }

  // ---------------------------------------------------------------------
  // The pool

  /** The pool's indexes: blocks by hash, and child hashes by parent hash. */
  datatype Pool = Pool(byHash: map<string, Block>, byPrevHash: map<string, seq<string>>)

  /** A block is filed under its own hash, and every listed child is in the
    * pool. */
  predicate Consistent(p: Pool)
  {
    && (forall h :: h in p.byHash ==> p.byHash[h].hash == h)
    && (forall ph, i :: ph in p.byPrevHash && 0 <= i < |p.byPrevHash[ph]| ==> p.byPrevHash[ph][i] in p.byHash)
  }

  /** The pool blocks of a list of hashes, in order, skipping the unknown
    * ones. */
  function BlocksOf(byHash: map<string, Block>, hashes: seq<string>): (r: seq<Block>)
    ensures forall b :: b in r <==> exists i :: 0 <= i < |hashes| && hashes[i] in byHash && byHash[hashes[i]] == b
  {
    if |hashes| == 0 then []
    else
      var rest := BlocksOf(byHash, hashes[..|hashes| - 1]);
      var h := hashes[|hashes| - 1];
      var r := rest + (if h in byHash then [byHash[h]] else []);
      assert forall i :: 0 <= i < |hashes| - 1 ==> hashes[..|hashes| - 1][i] == hashes[i];
      r
  }

  /** GetBlksByPrevHash: the known children of a hash, in listed order. */
  method GetBlksByPrevHash(prevHash: string, p: Pool) returns (res: seq<Block>)
    ensures res == (if prevHash in p.byPrevHash then BlocksOf(p.byHash, p.byPrevHash[prevHash]) else [])
  {
    res := [];
    if prevHash in p.byPrevHash {
      var hashes := p.byPrevHash[prevHash];
      var i := 0;
      while i < |hashes|
        invariant 0 <= i <= |hashes|
        invariant res == BlocksOf(p.byHash, hashes[..i])
      {
        assert hashes[..i + 1][..i] == hashes[..i];
        if hashes[i] in p.byHash {
          res := res + [p.byHash[hashes[i]]];
        }
        i := i + 1;
      }
      assert hashes[..i] == hashes;
    }
  }

  // ---------------------------------------------------------------------
  // Longest and final chains

  /** The running choice of the traversals: the first block seen, then any
    * strictly higher one. */
  function Better(final: Option<Block>, cand: Option<Block>): (r: Option<Block>)
    ensures final.Some? ==> r.Some? && final.value.height <= r.value.height
    ensures cand.Some? ==> r.Some? && cand.value.height <= r.value.height
    ensures r == final || r == cand
  {
    if final.None? then cand
    else if cand.Some? && final.value.height < cand.value.height then cand
    else final
  }

  /** The traversal from a hash through the children lists, at most `fuel`
    * levels deep: with `leaves` it chooses among the hashes without
    * children (GetLongestChain), otherwise among those with children
    * (GetFinalBlockFromBlockHash_v1). */
  function Pick(p: Pool, h: string, final: Option<Block>, fuel: nat, leaves: bool): Option<Block>
    decreases fuel, 0, 0
  {
    if fuel == 0 then final
    else if h !in p.byPrevHash then (if leaves then Better(final, Get(p.byHash, h)) else final)
    else
      var f := if leaves then final else Better(final, Get(p.byHash, h));
      PickList(p, p.byPrevHash[h], f, fuel - 1, leaves)
  }

  function PickList(p: Pool, hs: seq<string>, final: Option<Block>, fuel: nat, leaves: bool): Option<Block>
    decreases fuel, 1, |hs|
  {
    if |hs| == 0 then final
    else PickList(p, hs[1..], Pick(p, hs[0], final, fuel, leaves), fuel, leaves)
  }

  /** The hashes the traversal chooses among. */
  ghost function Visited(p: Pool, h: string, fuel: nat, leaves: bool): set<string>
    decreases fuel, 0, 0
  {
    if fuel == 0 then {}
    else if h !in p.byPrevHash then (if leaves then {h} else {})
    else (if leaves then {} else {h}) + VisitedList(p, p.byPrevHash[h], fuel - 1, leaves)
  }

  ghost function VisitedList(p: Pool, hs: seq<string>, fuel: nat, leaves: bool): set<string>
    decreases fuel, 1, |hs|
  {
    if |hs| == 0 then {} else Visited(p, hs[0], fuel, leaves) + VisitedList(p, hs[1..], fuel, leaves)
  }

  /** What the traversal chooses is the block it started with or a pool
    * block among those it visited, at least as high as the one it started
    * with and as every visited pool block. */
  ghost predicate Best(p: Pool, r: Option<Block>, final: Option<Block>, visited: set<string>)
  {
    && (final.Some? ==> r.Some? && final.value.height <= r.value.height)
    && (r.Some? ==> r == final || exists x :: x in visited && x in p.byHash && r.value == p.byHash[x])
    && (forall x :: x in visited && x in p.byHash ==> r.Some? && p.byHash[x].height <= r.value.height)
  }

  lemma {:induction false} PickIsBest(p: Pool, h: string, final: Option<Block>, fuel: nat, leaves: bool)
    ensures Best(p, Pick(p, h, final, fuel, leaves), final, Visited(p, h, fuel, leaves))
    decreases fuel, 0, 0
  {
    if fuel > 0 && h in p.byPrevHash {
      var f := if leaves then final else Better(final, Get(p.byHash, h));
      PickListIsBest(p, p.byPrevHash[h], f, fuel - 1, leaves);
    }
  }

  lemma {:induction false} PickListIsBest(p: Pool, hs: seq<string>, final: Option<Block>, fuel: nat, leaves: bool)
    ensures Best(p, PickList(p, hs, final, fuel, leaves), final, VisitedList(p, hs, fuel, leaves))
    decreases fuel, 1, |hs|
  {
    if |hs| > 0 {
      var f := Pick(p, hs[0], final, fuel, leaves);
      PickIsBest(p, hs[0], final, fuel, leaves);
      PickListIsBest(p, hs[1..], f, fuel, leaves);
    }
  }

  /** The walk back from a block along parent hashes, oldest first, ending
    * with the block itself: it stops at a parent the pool does not have, at
    * the `stop` hash (which it leaves out), or after `fuel` blocks. */
  function ChainBack(p: Pool, b: Block, stop: Option<string>, fuel: nat): seq<Block>
    decreases fuel
  {
    if fuel == 0 || stop == Some(b.hash) then []
    else
      var earlier := match Get(p.byHash, b.prevHash)
        case None => []
        case Some(q) => ChainBack(p, q, stop, fuel - 1);
      earlier + [b]
  }

  /** The walk is a chain of pool blocks, each the parent of the next, that
    * ends with the block it started from and never holds the stop hash. */
  lemma {:induction false} ChainBackLinked(p: Pool, b: Block, stop: Option<string>, fuel: nat)
    requires Consistent(p) && b.hash in p.byHash && p.byHash[b.hash] == b
    ensures var c := ChainBack(p, b, stop, fuel);
            && (|c| > 0 <==> fuel > 0 && stop != Some(b.hash))
            && (|c| > 0 ==> c[|c| - 1] == b)
            && (forall i :: 0 <= i < |c| ==> c[i].hash in p.byHash && p.byHash[c[i].hash] == c[i])
            && (forall i :: 0 <= i < |c| ==> stop != Some(c[i].hash))
            && (forall i :: 0 <= i < |c| - 1 ==> c[i].hash == c[i + 1].prevHash)
    decreases fuel
  {
    if fuel > 0 && stop != Some(b.hash) {
      match Get(p.byHash, b.prevHash)
      case None =>
      case Some(q) =>
        ChainBackLinked(p, q, stop, fuel - 1);
        var e := ChainBack(p, q, stop, fuel - 1);
        var c := e + [b];
        assert c == ChainBack(p, b, stop, fuel);
        forall i | 0 <= i < |c| - 1
          ensures c[i].hash == c[i + 1].prevHash
        {
          if i < |e| - 1 {
            assert c[i] == e[i] && c[i + 1] == e[i + 1];
          } else {
            assert c[i] == q && q.hash == b.prevHash;
          }
        }
    }
  }

  /** The walk back as the source's loop, which prepends the chain's blocks
    * one by one. */
  method WalkBack(p: Pool, start: Block, stop: Option<string>, fuel: nat) returns (res: seq<Block>)
    ensures res == ChainBack(p, start, stop, fuel)
  {
    res := [];
    var cur := start;
    var steps := 0;
    while steps < fuel
      invariant 0 <= steps <= fuel
      invariant ChainBack(p, start, stop, fuel) == ChainBack(p, cur, stop, fuel - steps) + res
      decreases fuel - steps
    {
      if stop == Some(cur.hash) {
        return;
      }
      ghost var earlier := ChainBackStep(p, cur, stop, fuel - steps);
      assert earlier + [cur] + res == earlier + ([cur] + res);
      res := [cur] + res;
      steps := steps + 1;
      var next := Get(p.byHash, cur.prevHash);
      if next.None? {
        return;
      }
      cur := next.value;
    }
  }

  /** One step of the walk back: the chain from a block that is not the
    * stop is the chain from its parent, if the pool holds it, then the
    * block. */
  lemma ChainBackStep(p: Pool, b: Block, stop: Option<string>, fuel: nat) returns (earlier: seq<Block>)
    requires fuel > 0 && stop != Some(b.hash)
    ensures earlier == match Get(p.byHash, b.prevHash)
                         case None => []
                         case Some(q) => ChainBack(p, q, stop, fuel - 1)
    ensures ChainBack(p, b, stop, fuel) == earlier + [b]
  {
    earlier := match Get(p.byHash, b.prevHash)
      case None => []
      case Some(q) => ChainBack(p, q, stop, fuel - 1);
  }

  /** GetLongestChain: the highest childless block reachable from the final
    * hash (the first one found among equals), and the pool blocks leading
    * up to it, oldest first; nothing when the traversal finds no pool
    * block. */
  method GetLongestChain(currentFinalHash: string, p: Pool, fuel: nat) returns (res: seq<Block>)
    requires Consistent(p)
    ensures var leaf := Pick(p, currentFinalHash, None, fuel, true);
            && (leaf.None? ==> res == [])
            && (leaf.Some? ==> res == ChainBack(p, leaf.value, None, fuel))
  {
    var finalBlock := Pick(p, currentFinalHash, None, fuel, true);
    if finalBlock.None? {
      return [];
    }
    res := WalkBack(p, finalBlock.value, None, fuel);
  }

  /** What GetLongestChain answers, said outright: the chain's last block is
    * a pool block without children, visited from the final hash, and at
    * least as high as every such block; each block is the parent of the
    * next. */
  lemma LongestChainEndsAtHighestLeaf(currentFinalHash: string, p: Pool, fuel: nat)
    requires Consistent(p) && fuel > 0
    ensures var leaf := Pick(p, currentFinalHash, None, fuel, true);
            var res := if leaf.None? then [] else ChainBack(p, leaf.value, None, fuel);
            && (|res| > 0 <==> exists x :: x in Visited(p, currentFinalHash, fuel, true) && x in p.byHash)
            && (|res| > 0 ==>
                  && res[|res| - 1].hash in Visited(p, currentFinalHash, fuel, true)
                  && res[|res| - 1].hash !in p.byPrevHash
                  && (forall x :: x in Visited(p, currentFinalHash, fuel, true) && x in p.byHash ==>
                        p.byHash[x].height <= res[|res| - 1].height))
            && (forall i :: 0 <= i < |res| - 1 ==> res[i].hash == res[i + 1].prevHash)
  {
    var leaf := Pick(p, currentFinalHash, None, fuel, true);
    PickIsBest(p, currentFinalHash, None, fuel, true);
    VisitedLeavesAreLeaves(p, currentFinalHash, fuel);
    if leaf.Some? {
      var x :| x in Visited(p, currentFinalHash, fuel, true) && x in p.byHash && leaf.value == p.byHash[x];
      ChainBackLinked(p, leaf.value, None, fuel);
    }
  }

  /** The leaves visited have no children and those with children visited
    * have some entry in the children index. */
  lemma {:induction false} VisitedLeavesAreLeaves(p: Pool, h: string, fuel: nat)
    ensures forall x :: x in Visited(p, h, fuel, true) ==> x !in p.byPrevHash
    ensures forall x :: x in Visited(p, h, fuel, false) ==> x in p.byPrevHash
    decreases fuel, 0, 0
  {
    if fuel > 0 && h in p.byPrevHash {
      VisitedListLeavesAreLeaves(p, p.byPrevHash[h], fuel - 1);
    }
  }

  lemma {:induction false} VisitedListLeavesAreLeaves(p: Pool, hs: seq<string>, fuel: nat)
    ensures forall x :: x in VisitedList(p, hs, fuel, true) ==> x !in p.byPrevHash
    ensures forall x :: x in VisitedList(p, hs, fuel, false) ==> x in p.byPrevHash
    decreases fuel, 1, |hs|
  {
    if |hs| > 0 {
      VisitedLeavesAreLeaves(p, hs[0], fuel);
      VisitedListLeavesAreLeaves(p, hs[1..], fuel);
    }
  }

  /** GetFinalBlockFromBlockHash_v1: the highest block with children
    * reachable from the final hash (the first one found among equals), and
    * the pool blocks after the final hash leading up to it, oldest first;
    * nothing when that block is the final block itself or the traversal
    * finds no pool block. */
  method GetFinalBlockFromBlockHashV1(currentFinalHash: string, p: Pool, fuel: nat) returns (res: seq<Block>)
    requires Consistent(p)
    ensures var fb := Pick(p, currentFinalHash, None, fuel, false);
            && (fb.None? ==> res == [])
            && (fb.Some? ==> res == ChainBack(p, fb.value, Some(currentFinalHash), fuel))
  {
    var finalBlock := Pick(p, currentFinalHash, None, fuel, false);
    if finalBlock.None? {
      return [];
    }
    res := WalkBack(p, finalBlock.value, Some(currentFinalHash), fuel);
  }

  /** What GetFinalBlockFromBlockHash_v1 answers, said outright: the chain
    * ends at the highest visited pool block that has children, never holds
    * the final hash, and each block is the parent of the next. */
  lemma FinalChainEndsAtHighestParent(currentFinalHash: string, p: Pool, fuel: nat)
    requires Consistent(p) && fuel > 0
    ensures var fb := Pick(p, currentFinalHash, None, fuel, false);
            var res := if fb.None? then [] else ChainBack(p, fb.value, Some(currentFinalHash), fuel);
            && (fb.Some? ==> fb.value.hash in Visited(p, currentFinalHash, fuel, false)
                             && fb.value.hash in p.byPrevHash
                             && (forall x :: x in Visited(p, currentFinalHash, fuel, false) && x in p.byHash ==>
                                   p.byHash[x].height <= fb.value.height)
                             && (|res| > 0 <==> fb.value.hash != currentFinalHash)
                             && (|res| > 0 ==> res[|res| - 1] == fb.value))
            && (forall i :: 0 <= i < |res| ==> res[i].hash != currentFinalHash)
            && (forall i :: 0 <= i < |res| - 1 ==> res[i].hash == res[i + 1].prevHash)
  {
    var fb := Pick(p, currentFinalHash, None, fuel, false);
    PickIsBest(p, currentFinalHash, None, fuel, false);
    VisitedLeavesAreLeaves(p, currentFinalHash, fuel);
    if fb.Some? {
      var x :| x in Visited(p, currentFinalHash, fuel, false) && x in p.byHash && fb.value == p.byHash[x];
      ChainBackLinked(p, fb.value, Some(currentFinalHash), fuel);
    }
  }

  // ---------------------------------------------------------------------
  // Views above a hash

  /** Every block of the list is a pool block whose parent is the root hash
    * or an earlier block of the list. */
  ghost predicate Rooted(p: Pool, rHash: string, res: seq<Block>)
  {
    && (forall i :: 0 <= i < |res| ==> res[i].hash in p.byHash && p.byHash[res[i].hash] == res[i])
    && (forall i :: 0 <= i < |res| ==>
          res[i].prevHash == rHash || exists j :: 0 <= j < i && res[j].hash == res[i].prevHash)
  }

  lemma RootedAppend(p: Pool, rHash: string, res: seq<Block>, b: Block, w: int)
    requires Rooted(p, rHash, res)
    requires b.hash in p.byHash && p.byHash[b.hash] == b
    requires (w == -1 && b.prevHash == rHash) || (0 <= w < |res| && res[w].hash == b.prevHash)
    ensures Rooted(p, rHash, res + [b])
  {
    var r := res + [b];
    forall i | 0 <= i < |r|
      ensures r[i].prevHash == rHash || exists j :: 0 <= j < i && r[j].hash == r[i].prevHash
    {
      if i < |res| {
        if r[i].prevHash != rHash {
          var j :| 0 <= j < i && res[j].hash == res[i].prevHash;
          assert r[j] == res[j];
        }
      } else if w >= 0 {
        assert r[w] == res[w];
      }
    }
  }

  /** GetAllViewFromHash: a breadth-first walk from a hash, appending every
    * pool block whose parent is the hash being expanded and queueing its
    * hash. The pool's keys are visited in the order `keys` lists them (Go
    * visits a map in an unspecified order); at most `fuel` hashes are
    * expanded. Every block found descends from the starting hash through
    * blocks found before it. */
  method GetAllViewFromHash(rHash: string, p: Pool, keys: seq<string>, fuel: nat) returns (res: seq<Block>)
    requires Consistent(p)
    requires forall h :: h in p.byHash <==> h in keys
    ensures Rooted(p, rHash, res)
  {
    res := [];
    var hashes := [rHash];
    var steps := 0;
    while |hashes| > 0 && steps < fuel
      invariant Rooted(p, rHash, res)
      invariant forall q :: q in hashes ==> q == rHash || exists j :: 0 <= j < |res| && res[j].hash == q
      decreases fuel - steps
    {
      var hash := hashes[0];
      assert hash in hashes;
      ghost var queued := hashes;
      ghost var w: int := -1;
      if hash != rHash {
        w :| 0 <= w < |res| && res[w].hash == hash;
      }
      hashes := hashes[1..];
      assert forall q :: q in hashes ==> q in queued;
      var k := 0;
      while k < |keys|
        invariant 0 <= k <= |keys|
        invariant Rooted(p, rHash, res)
        invariant (w == -1 && hash == rHash) || (0 <= w < |res| && res[w].hash == hash)
        invariant forall q :: q in hashes ==> q == rHash || exists j :: 0 <= j < |res| && res[j].hash == q
      {
        var h := keys[k];
        var blk := p.byHash[h];
        if blk.prevHash == hash {
          RootedAppend(p, rHash, res, blk, w);
          ghost var old_res := res;
          hashes := hashes + [h];
          res := res + [blk];
          forall q | q in hashes
            ensures q == rHash || exists j :: 0 <= j < |res| && res[j].hash == q
          {
            if q == h {
              assert res[|res| - 1].hash == q;
            } else if q != rHash {
              var j :| 0 <= j < |old_res| && old_res[j].hash == q;
              assert res[j] == old_res[j];
            }
          }
        }
        k := k + 1;
      }
      steps := steps + 1;
    }
  }

  // ---------------------------------------------------------------------
  // Batch insertion

  /** containSwap: whether an instruction list holds a swap before its end;
    * None stands for the index panic of an empty instruction reached first. */
  function ContainSwap(insts: seq<seq<string>>): Option<bool>
  {
    if |insts| == 0 then Some(false)
    else if |insts[0]| == 0 then None
    else if insts[0][0] == StatefulInsts.SwapAction then Some(true)
    else ContainSwap(insts[1..])
  }

  /** A shard block that holds a swap instruction. */
  predicate HasSwap(b: Block)
  {
    b.kind.ShardBlock? && ContainSwap(b.kind.instructions) == Some(true)
  }

  /** The committee scan reaches no empty instruction before it stops. */
  predicate ScanOk(blocks: seq<Block>)
  {
    forall i :: 0 <= i < |blocks| && (forall j :: 0 <= j < i ==> !HasSwap(blocks[j])) ==>
      (blocks[i].kind.ShardBlock? ==> ContainSwap(blocks[i].kind.instructions).Some?)
  }

  /** The blocks up to and including the first shard block with a swap. */
  function SwapCut(blocks: seq<Block>): (r: seq<Block>)
    ensures |r| <= |blocks| && r == blocks[..|r|]
    ensures forall j :: 0 <= j < |r| - 1 ==> !HasSwap(r[j])
    ensures |r| < |blocks| ==> |r| > 0 && HasSwap(r[|r| - 1])
    ensures |blocks| > 0 ==> |r| > 0
  {
    if |blocks| == 0 then []
    else if HasSwap(blocks[0]) then [blocks[0]]
    else [blocks[0]] + SwapCut(blocks[1..])
  }

  /** The blocks up to the first height gap: each next block must be one
    * higher (uint64 arithmetic). */
  function GapCut(blocks: seq<Block>): (r: seq<Block>)
    ensures |r| <= |blocks| && r == blocks[..|r|]
    ensures forall j :: 0 <= j < |r| - 1 ==> r[j].height == SubU64(r[j + 1].height, 1)
    ensures |r| < |blocks| ==> |r| > 0 && r[|r| - 1].height != SubU64(blocks[|r|].height, 1)
    ensures |blocks| > 0 ==> |r| > 0
  {
    if |blocks| <= 1 then blocks
    else if blocks[0].height != SubU64(blocks[1].height, 1) then [blocks[0]]
    else [blocks[0]] + GapCut(blocks[1..])
  }

  /** The blocks without the trailing ones whose signatures fail. */
  function SigTrim(blocks: seq<Block>, sigValid: Block -> bool): (r: seq<Block>)
    ensures |r| <= |blocks| && r == blocks[..|r|]
    ensures |r| > 0 ==> sigValid(r[|r| - 1])
    ensures forall j :: |r| <= j < |blocks| ==> !sigValid(blocks[j])
  {
    if |blocks| == 0 then []
    else if sigValid(blocks[|blocks| - 1]) then blocks
    else SigTrim(blocks[..|blocks| - 1], sigValid)
  }

  /** The blocks to insert and whether validation is batched: the trimmed
    * run, or, when every block of the run fails, the whole run with full
    * validation. */
  function Plan(blocks: seq<Block>, sigValid: Block -> bool): (seq<Block>, bool)
  {
    var same := GapCut(SwapCut(blocks));
    var valid := SigTrim(same, sigValid);
    if |valid| == 0 then (same, false) else (valid, true)
  }

  /** The insertion run from position `i`: skip blocks the chain has, insert
    * the others (the first block of the run always with validation, the
    * rest with validation unless batched), and stop at the first error.
    * The answer is the chain's new set of known hashes, the insertions made
    * with their validation flags, and the error. */
  function InsertFrom(existing: set<string>, blocks: seq<Block>, i: nat, batching: bool,
                      insertError: (Block, bool) -> Option<string>): (set<string>, seq<(Block, bool)>, Option<string>)
    requires i <= |blocks|
    decreases |blocks| - i
  {
    if i == |blocks| then (existing, [], None)
    else
      var v := blocks[i];
      if v.hash in existing then InsertFrom(existing, blocks, i + 1, batching, insertError)
      else
        var flag := if i == 0 then true else !batching;
        match insertError(v, flag)
        case Some(e) => (existing, [], Some(e))
        case None =>
          var rest := InsertFrom(existing + {v.hash}, blocks, i + 1, batching, insertError);
          (rest.0, [(v, flag)] + rest.1, rest.2)
  }

  /** The chain the batch is inserted into: the hashes it knows, the
    * insertions made, and its collaborators (the signature check against
    * the epoch's committee, and the error an insertion would report). */
  class Chain {
    var existing: set<string>
    var inserted: seq<(Block, bool)>
    const sigValid: Block -> bool
    const insertError: (Block, bool) -> Option<string>

    constructor(existing: set<string>, sigValid: Block -> bool, insertError: (Block, bool) -> Option<string>)
      ensures this.existing == existing && this.inserted == []
      ensures this.sigValid == sigValid && this.insertError == insertError
    {
      this.existing := existing;
      this.inserted := [];
      this.sigValid := sigValid;
      this.insertError := insertError;
    }

    predicate CheckExistedBlk(b: Block)
      reads this
    {
      b.hash in existing
    }

    method InsertBlk(b: Block, shouldValidate: bool) returns (err: Option<string>)
      modifies this
      ensures err == insertError(b, shouldValidate)
      ensures err.Some? ==> existing == old(existing) && inserted == old(inserted)
      ensures err.None? ==> existing == old(existing) + {b.hash} && inserted == old(inserted) + [(b, shouldValidate)]
    {
      err := insertError(b, shouldValidate);
      if err.None? {
        existing := existing + {b.hash};
        inserted := inserted + [(b, shouldValidate)];
      }
    }
  }

  /** InsertBatchBlock: cut the run at the first swap and at the first
    * height gap, drop the trailing blocks whose signatures fail (or keep
    * them all, validated in full, when all fail), then insert the blocks
    * the chain does not have. The answer is the number of blocks planned,
    * or 0 with the first insertion error. */
  method InsertBatchBlock(chain: Chain, blocks: seq<Block>) returns (n: nat, err: Option<string>)
    requires ScanOk(blocks)
    modifies chain
    ensures var (toInsert, batching) := Plan(blocks, chain.sigValid);
            var run := InsertFrom(old(chain.existing), toInsert, 0, batching, chain.insertError);
            && chain.existing == run.0 && chain.inserted == old(chain.inserted) + run.1 && err == run.2
            && n == (if err.None? then |toInsert| else 0)
  {
    var sameCommitteeBlock := CutAtSwap(blocks);
    sameCommitteeBlock := CutAtGap(sameCommitteeBlock);
    var validBlockForInsert := SigTrimLoop(sameCommitteeBlock, chain.sigValid);
    var batchingValidate := true;
    if |validBlockForInsert| == 0 {
      validBlockForInsert := sameCommitteeBlock;
      batchingValidate := false;
    }
    err := InsertAll(chain, validBlockForInsert, batchingValidate);
    n := if err.None? then |validBlockForInsert| else 0;
  }

  /** The committee loop: the batch up to the first shard block holding a
    * swap. */
  method CutAtSwap(blocks: seq<Block>) returns (sameCommitteeBlock: seq<Block>)
    requires ScanOk(blocks)
    ensures sameCommitteeBlock == SwapCut(blocks)
  {
    sameCommitteeBlock := blocks;
    var i := 0;
    while i < |blocks|
      invariant 0 <= i <= |blocks|
      invariant forall j :: 0 <= j < i ==> !HasSwap(blocks[j])
    {
      match blocks[i].kind {
        case BeaconBlock =>
        case ShardBlock(insts) =>
          var swap := ContainSwapLoop(insts);
          if swap {
            SwapCutAt(blocks, i);
            return blocks[..i + 1];
          }
      }
      i := i + 1;
    }
    SwapCutAt(blocks, i);
  }

  /** With no swap before position `i`, the cut is the batch up to `i`
    * when `i` holds one, and the whole batch when `i` is its end. */
  lemma {:induction false} SwapCutAt(blocks: seq<Block>, i: nat)
    requires i <= |blocks|
    requires forall j :: 0 <= j < i ==> !HasSwap(blocks[j])
    ensures i == |blocks| ==> SwapCut(blocks) == blocks
    ensures i < |blocks| && HasSwap(blocks[i]) ==> SwapCut(blocks) == blocks[..i + 1]
  {
    if i > 0 {
      SwapCutAt(blocks[1..], i - 1);
      assert blocks == [blocks[0]] + blocks[1..];
      if i < |blocks| {
        assert blocks[..i + 1] == [blocks[0]] + blocks[1..][..i];
      }
    }
  }

  /** The height loop: the run up to the first block whose successor is not
    * one higher. */
  method CutAtGap(blocks: seq<Block>) returns (sameCommitteeBlock: seq<Block>)
    ensures sameCommitteeBlock == GapCut(blocks)
  {
    sameCommitteeBlock := blocks;
    var i := 0;
    while i < |blocks|
      invariant 0 <= i <= |blocks|
      invariant |blocks| > 0 ==> i < |blocks|
      invariant forall j :: 0 <= j < i ==> blocks[j].height == SubU64(blocks[j + 1].height, 1)
    {
      if i == |blocks| - 1 {
        GapCutAt(blocks, i);
        return;
      }
      if blocks[i].height != SubU64(blocks[i + 1].height, 1) {
        GapCutAt(blocks, i);
        return blocks[..i + 1];
      }
      i := i + 1;
    }
  }

  /** With every block before `i` one below its successor, the cut ends at
    * `i` when `i` starts a gap, and is the whole run when `i` is its last
    * block. */
  lemma {:induction false} GapCutAt(blocks: seq<Block>, i: nat)
    requires i < |blocks|
    requires forall j :: 0 <= j < i ==> blocks[j].height == SubU64(blocks[j + 1].height, 1)
    ensures i == |blocks| - 1 ==> GapCut(blocks) == blocks
    ensures i < |blocks| - 1 && blocks[i].height != SubU64(blocks[i + 1].height, 1) ==>
              GapCut(blocks) == blocks[..i + 1]
  {
    if i > 0 {
      GapCutAt(blocks[1..], i - 1);
      assert blocks[1..][..i] == blocks[1..i + 1];
      assert blocks == [blocks[0]] + blocks[1..];
    }
  }

  /** The insertion loop: each block the chain does not have is inserted,
    * the first with validation and the others with validation unless
    * batched; the first error ends the loop. */
  method InsertAll(chain: Chain, validBlockForInsert: seq<Block>, batchingValidate: bool) returns (err: Option<string>)
    modifies chain
    ensures var run := InsertFrom(old(chain.existing), validBlockForInsert, 0, batchingValidate, chain.insertError);
            chain.existing == run.0 && chain.inserted == old(chain.inserted) + run.1 && err == run.2
  {
    ghost var inserted0 := chain.inserted;
    ghost var total := InsertFrom(chain.existing, validBlockForInsert, 0, batchingValidate, chain.insertError);
    ghost var made: seq<(Block, bool)> := [];
    assert total.1 == made + total.1;
    var k := 0;
    while k < |validBlockForInsert|
      invariant 0 <= k <= |validBlockForInsert|
      invariant chain.inserted == inserted0 + made
      invariant total.0 == InsertFrom(chain.existing, validBlockForInsert, k, batchingValidate, chain.insertError).0
      invariant total.1 == made + InsertFrom(chain.existing, validBlockForInsert, k, batchingValidate, chain.insertError).1
      invariant total.2 == InsertFrom(chain.existing, validBlockForInsert, k, batchingValidate, chain.insertError).2
    {
      var v := validBlockForInsert[k];
      InsertFromStep(chain.existing, validBlockForInsert, k, batchingValidate, chain.insertError);
      if !chain.CheckExistedBlk(v) {
        var flag := if k == 0 then true else !batchingValidate;
        var e: Option<string>;
        if k == 0 {
          e := chain.InsertBlk(v, true);
        } else {
          e := chain.InsertBlk(v, batchingValidate == false);
        }
        if e.Some? {
          assert made + [] == made;
          return e;
        }
        assert made + ([(v, flag)] + InsertFrom(chain.existing, validBlockForInsert, k + 1, batchingValidate, chain.insertError).1)
            == (made + [(v, flag)]) + InsertFrom(chain.existing, validBlockForInsert, k + 1, batchingValidate, chain.insertError).1;
        made := made + [(v, flag)];
      }
      k := k + 1;
    }
    assert made + [] == made;
    return None;
  }

  /** One step of the insertion run. */
  lemma InsertFromStep(existing: set<string>, blocks: seq<Block>, k: nat, batching: bool,
                       insertError: (Block, bool) -> Option<string>)
    requires k < |blocks|
    ensures var v := blocks[k];
            var flag := if k == 0 then true else !batching;
            var here := InsertFrom(existing, blocks, k, batching, insertError);
            && (v.hash in existing ==> here == InsertFrom(existing, blocks, k + 1, batching, insertError))
            && (v.hash !in existing && insertError(v, flag).Some? ==> here == (existing, [], insertError(v, flag)))
            && (v.hash !in existing && insertError(v, flag).None? ==>
                  var rest := InsertFrom(existing + {v.hash}, blocks, k + 1, batching, insertError);
                  here == (rest.0, [(v, flag)] + rest.1, rest.2))
  {
  }

  /** containSwap as the source's loop. */
  method ContainSwapLoop(insts: seq<seq<string>>) returns (r: bool)
    requires ContainSwap(insts).Some?
    ensures r == ContainSwap(insts).value
  {
    var i := 0;
    while i < |insts|
      invariant 0 <= i <= |insts|
      invariant ContainSwap(insts) == ContainSwap(insts[i..])
    {
      assert insts[i..][1..] == insts[i + 1..];
      if insts[i][0] == StatefulInsts.SwapAction {
        return true;
      }
      i := i + 1;
    }
    return false;
  }

  /** The signature loop: from the last block down, drop blocks while
    * their signatures fail. */
  method SigTrimLoop(blocks: seq<Block>, sigValid: Block -> bool) returns (valid: seq<Block>)
    ensures valid == SigTrim(blocks, sigValid)
  {
    valid := blocks;
    var i := |blocks| - 1;
    while i >= 0
      invariant -1 <= i < |blocks|
      invariant valid == blocks[..i + 1]
      invariant SigTrim(blocks, sigValid) == SigTrim(valid, sigValid)
    {
      if !sigValid(blocks[i]) {
        assert blocks[..i + 1][..i] == blocks[..i];
        valid := blocks[..i];
      } else {
        break;
      }
      i := i - 1;
    }
  }

  /** The run ends at the first swap block and before the first height gap,
    * and keeps the order of the batch. */
  lemma PlanCandidates(blocks: seq<Block>, sigValid: Block -> bool)
    ensures var (toInsert, _) := Plan(blocks, sigValid);
            && toInsert == blocks[..|toInsert|]
            && (forall j :: 0 <= j < |toInsert| - 1 ==> !HasSwap(toInsert[j]))
            && (forall j :: 0 <= j < |toInsert| - 1 ==> toInsert[j].height == SubU64(toInsert[j + 1].height, 1))
            && (|blocks| > 0 ==> |toInsert| > 0)
  {
    var sc := SwapCut(blocks);
    var same := GapCut(sc);
    var valid := SigTrim(same, sigValid);
    assert same == sc[..|same|];
    assert forall j :: 0 <= j < |same| ==> same[j] == sc[j];
    assert valid == same[..|valid|];
  }

  /** When every block of the run fails its signature check, every block
    * inserted is validated in full. */
  lemma AllInvalidValidatesAll(blocks: seq<Block>, sigValid: Block -> bool, existing: set<string>,
                               insertError: (Block, bool) -> Option<string>)
    requires forall j :: 0 <= j < |GapCut(SwapCut(blocks))| ==> !sigValid(GapCut(SwapCut(blocks))[j])
    ensures var (toInsert, batching) := Plan(blocks, sigValid);
            && !batching && toInsert == GapCut(SwapCut(blocks))
            && var log := InsertFrom(existing, toInsert, 0, batching, insertError).1;
               forall k :: 0 <= k < |log| ==> log[k].1
  {
    var same := GapCut(SwapCut(blocks));
    SigTrimAllInvalid(same, sigValid);
    InsertFlags(existing, same, 0, false, insertError);
  }

  lemma {:induction false} SigTrimAllInvalid(blocks: seq<Block>, sigValid: Block -> bool)
    requires forall j :: 0 <= j < |blocks| ==> !sigValid(blocks[j])
    ensures SigTrim(blocks, sigValid) == []
  {
    if |blocks| > 0 {
      SigTrimAllInvalid(blocks[..|blocks| - 1], sigValid);
    }
  }

  /** The insertions the run makes: with batching only an insertion of the
    * batch's first block is validated, without it every insertion is; every
    * inserted block was unknown to the chain, comes from the batch, becomes
    * known, and was accepted; when no error stops the run, every block of
    * the batch is known afterwards. */
  lemma {:induction false} InsertFlags(existing: set<string>, blocks: seq<Block>, i: nat, batching: bool,
                                      insertError: (Block, bool) -> Option<string>)
    requires i <= |blocks|
    ensures var (known, log, err) := InsertFrom(existing, blocks, i, batching, insertError);
            && (!batching ==> forall k :: 0 <= k < |log| ==> log[k].1)
            && (batching ==> forall k :: 0 <= k < |log| ==>
                  (log[k].1 <==> i == 0 && k == 0 && blocks[0].hash !in existing))
            && (forall k :: 0 <= k < |log| ==>
                  log[k].0.hash !in existing && log[k].0.hash in known && log[k].0 in blocks[i..])
            && (forall k :: 0 <= k < |log| ==> insertError(log[k].0, log[k].1).None?)
            && existing <= known
            && (err.None? ==> forall j :: i <= j < |blocks| ==> blocks[j].hash in known)
    decreases |blocks| - i
  {
    if i < |blocks| {
      var v := blocks[i];
      assert blocks[i + 1..] == blocks[i..][1..];
      if v.hash in existing {
        InsertFlags(existing, blocks, i + 1, batching, insertError);
      } else {
        var flag := if i == 0 then true else !batching;
        if insertError(v, flag).None? {
          InsertFlags(existing + {v.hash}, blocks, i + 1, batching, insertError);
          var rest := InsertFrom(existing + {v.hash}, blocks, i + 1, batching, insertError);
          var log := [(v, flag)] + rest.1;
          assert forall k :: 0 < k < |log| ==> log[k] == rest.1[k - 1];
        }
      }
    }
  }
}
