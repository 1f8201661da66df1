/** Small helpers of the blockchain object (blockchain/blockchain.go): the
  * active shard IDs, the length prefix of a backup, the shards a node
  * wants blocks of, the relay-shard list, and the portal parameters in
  * force at a beacon height. */
module ChainHelpers {
  import opened Common
  import Sorting

  // ---------------------------------------------------------------------
  // Shard IDs

  /** GetShardIDs: the shard IDs 0 up to the number of active shards,
    * ascending. */
  method GetShardIDs(activeShards: int) returns (shardIDs: seq<int>)
    ensures |shardIDs| == (if activeShards > 0 then activeShards else 0)
    ensures forall i :: 0 <= i < |shardIDs| ==> shardIDs[i] == i
    ensures forall x :: x in shardIDs <==> 0 <= x < activeShards
  {
    shardIDs := [];
    var i := 0;
    while i < activeShards
      invariant 0 <= i && (activeShards > 0 ==> i <= activeShards) && (activeShards <= 0 ==> i == 0)
      invariant |shardIDs| == i
      invariant forall k :: 0 <= k < i ==> shardIDs[k] == k
    {
      shardIDs := shardIDs + [i];
      i := i + 1;
    }
    forall x | 0 <= x < activeShards
      ensures x in shardIDs
    {
      assert shardIDs[x] == x;
    }
  }

  // ---------------------------------------------------------------------
  // The length prefix of a backup

  /** The value of four little-endian bytes. */
  function LE32(b0: Byte, b1: Byte, b2: Byte, b3: Byte): nat
  {
    b0 + 256 * b1 + 65536 * b2 + 16777216 * b3
  }

  /** CalculateNumberOfByteToRead: eight bytes, the amount cut to 32 bits
    * (Go's uint32 conversion keeps the low 32 bits of the two's complement)
    * in the first four, little-endian, and zeros in the rest. */
  function CalculateNumberOfByteToRead(amountBytes: int): (r: seq<Byte>)
    ensures |r| == 8 && r[4..] == [0, 0, 0, 0]
  {
    Split32(amountBytes % TWO_32) + [0, 0, 0, 0]
  }

  /** The four little-endian bytes of a 32-bit value. */
  function Split32(u: int): (r: seq<Byte>)
    requires 0 <= u < TWO_32
    ensures |r| == 4 && LE32(r[0], r[1], r[2], r[3]) == u
  {
    LE32Decompose(u);
    [u % 256, (u / 256) % 256, (u / 65536) % 256, u / 16777216]
  }

  /** GetNumberOfByteToRead: the little-endian uint32 at the front of the
    * bytes; reading from no bytes is an end-of-file error, and from one to
    * three bytes an unexpected end of file. */
  function GetNumberOfByteToRead(value: seq<Byte>): (r: Result<int>)
    ensures r.Err? <==> |value| < 4
    ensures r.Ok? ==> 0 <= r.value < TWO_32
  {
    if |value| == 0 then Err("EOF")
    else if |value| < 4 then Err("unexpected EOF")
    else Ok(LE32(value[0], value[1], value[2], value[3]))
  }

  /** Reading back a length prefix gives the amount cut to 32 bits; for
    * an amount below 2^32, the amount itself. */
  lemma ByteCountRoundTrip(n: int)
    ensures GetNumberOfByteToRead(CalculateNumberOfByteToRead(n)) == Ok(n % TWO_32)
    ensures 0 <= n < TWO_32 ==> GetNumberOfByteToRead(CalculateNumberOfByteToRead(n)) == Ok(n)
  {
    var u := n % TWO_32;
    var s := Split32(u);
    var bytes := s + [0, 0, 0, 0];
    assert bytes == CalculateNumberOfByteToRead(n);
    assert bytes[0] == s[0] && bytes[1] == s[1] && bytes[2] == s[2] && bytes[3] == s[3];
    assert GetNumberOfByteToRead(bytes) == Ok(LE32(s[0], s[1], s[2], s[3]));
    if 0 <= n < TWO_32 {
      assert n / TWO_32 == 0;
      assert u == n;
    }
  }

  /** Four little-endian bytes of a 32-bit value give the value back. */
  lemma LE32Decompose(u: int)
    requires 0 <= u < TWO_32
    ensures u / 16777216 < 256
    ensures LE32(u % 256, (u / 256) % 256, (u / 65536) % 256, u / 16777216) == u
  {
    var q1 := u / 256;
    var q2 := q1 / 256;
    var q3 := q2 / 256;
    assert u == u % 256 + 256 * q1;
    assert q1 == q1 % 256 + 256 * q2;
    assert q2 == q2 % 256 + 256 * q3;
    assert q2 == u / 65536;
    assert q3 == u / 16777216;
  }

  /** Only the low 32 bits of the amount survive: amounts 2^32 apart give
    * the same prefix. */
  lemma ByteCountWraps(n: int)
    ensures CalculateNumberOfByteToRead(n + TWO_32) == CalculateNumberOfByteToRead(n)
  {
    assert (n + TWO_32) % TWO_32 == n % TWO_32;
  }

  // ---------------------------------------------------------------------
  // Relay shards and wanted shards

  /** A list without repeated shards. */
  predicate Distinct(s: seq<Byte>)
  {
    forall i, j :: 0 <= i < j < |s| ==> s[i] != s[j]
  }

  /** Go's byte conversion of a shard number. */
  function ShardByte(sid: int): Byte
  {
    sid % 256
  }

  /** The relay list after adding a shard: an error when the list has it,
    * else the list with the shard at the end. */
  function WithRelay(shards: seq<Byte>, sid: int): (r: Result<seq<Byte>>)
    ensures r.Err? <==> ShardByte(sid) in shards
  {
    if ShardByte(sid) in shards then Err("already relay this shard" + Itoa(sid))
    else Ok(shards + [ShardByte(sid)])
  }

  /** The relay list after removing a shard: without its first occurrence,
    * or unchanged when it has none. */
  function WithoutRelay(shards: seq<Byte>, b: Byte): (r: seq<Byte>)
    ensures b !in shards ==> r == shards
    ensures b in shards ==> |r| == |shards| - 1 && multiset(r) == multiset(shards) - multiset{b}
  {
    if |shards| == 0 then []
    else
      assert shards == [shards[0]] + shards[1..];
      if shards[0] == b then shards[1..]
      else [shards[0]] + WithoutRelay(shards[1..], b)
  }

  /** Adding keeps the list free of repeats and keeps every shard it had. */
  lemma AddKeepsDistinct(shards: seq<Byte>, sid: int)
    requires Distinct(shards)
    ensures WithRelay(shards, sid).Ok? ==>
              Distinct(WithRelay(shards, sid).value) && ShardByte(sid) in WithRelay(shards, sid).value
              && forall s :: s in shards ==> s in WithRelay(shards, sid).value
  {
  }

  /** Removing from a list without repeats leaves a list without repeats
    * that no longer holds the shard. */
  lemma {:induction false} RemoveKeepsDistinct(shards: seq<Byte>, b: Byte)
    requires Distinct(shards)
    ensures Distinct(WithoutRelay(shards, b)) && b !in WithoutRelay(shards, b)
    decreases |shards|
  {
    if |shards| > 0 {
      DistinctTail(shards);
      if shards[0] != b {
        RemoveKeepsDistinct(shards[1..], b);
        var rest := WithoutRelay(shards[1..], b);
        assert multiset(rest) <= multiset(shards[1..]);
        assert shards[0] !in multiset(shards[1..]);
        DistinctCons(shards[0], rest);
      }
    }
  }

  lemma DistinctTail(s: seq<Byte>)
    requires Distinct(s) && |s| > 0
    ensures Distinct(s[1..]) && s[0] !in s[1..]
  {
    var tail := s[1..];
    forall i, j | 0 <= i < j < |tail| ensures tail[i] != tail[j] {
      assert tail[i] == s[i + 1] && tail[j] == s[j + 1];
    }
    forall i | 0 <= i < |tail| ensures tail[i] != s[0] {
      assert tail[i] == s[i + 1];
    }
  }

  lemma DistinctCons(x: Byte, rest: seq<Byte>)
    requires Distinct(rest) && x !in rest
    ensures Distinct([x] + rest)
  {
    var r := [x] + rest;
    forall i, j | 0 <= i < j < |r| ensures r[i] != r[j] {
      assert r[j] == rest[j - 1];
      if i > 0 {
        assert r[i] == rest[i - 1];
      }
    }
  }

  /** Removing a shard just added gives back the list it was added to. */
  lemma {:induction false} RemoveUndoesAdd(shards: seq<Byte>, sid: int)
    requires WithRelay(shards, sid).Ok?
    ensures WithoutRelay(WithRelay(shards, sid).value, ShardByte(sid)) == shards
    decreases |shards|
  {
    var b := ShardByte(sid);
    if |shards| > 0 {
      assert (shards + [b])[1..] == shards[1..] + [b];
      assert shards[0] != b;
      RemoveUndoesAdd(shards[1..], sid);
      assert shards == [shards[0]] + shards[1..];
    }
  }

  /** The node's configuration as these helpers see it: the number of
    * active shards and the relay-shard list, which they update in place. */
  class Config {
    var relayShards: seq<Byte>
    const activeShards: int

    constructor(activeShards: int, relayShards: seq<Byte>)
      ensures this.activeShards == activeShards && this.relayShards == relayShards
    {
      this.activeShards := activeShards;
      this.relayShards := relayShards;
    }

    /** GetWantedShard: every active shard for a member of the beacon
      * committee, else the relay shards. Go counts a byte from zero while
      * it is below the byte conversion of the number of active shards. */
    method GetWantedShard(isBeaconCommittee: bool) returns (res: set<Byte>)
      ensures isBeaconCommittee ==> forall s: Byte :: s in res <==> s < ShardByte(activeShards)
      ensures !isBeaconCommittee ==> forall s :: s in res <==> s in relayShards
    {
      res := {};
      if isBeaconCommittee {
        var sID := 0;
        var limit := ShardByte(activeShards);
        while sID < limit
          invariant 0 <= sID <= limit
          invariant forall s: Byte :: s in res <==> s < sID
        {
          res := res + {sID};
          sID := sID + 1;
        }
      } else {
        var i := 0;
        while i < |relayShards|
          invariant 0 <= i <= |relayShards|
          invariant forall s :: s in res <==> s in relayShards[..i]
        {
          assert relayShards[..i + 1] == relayShards[..i] + [relayShards[i]];
          res := res + {relayShards[i]};
          i := i + 1;
        }
        assert relayShards[..i] == relayShards;
      }
    }

    /** AddRelayShard: an error and no change when the shard is already
      * relayed, else the shard appended once. */
    method AddRelayShard(sid: int) returns (err: Option<string>)
      modifies this
      ensures match WithRelay(old(relayShards), sid)
              case Err(e) => err == Some(e) && relayShards == old(relayShards)
              case Ok(s) => err == None && relayShards == s
    {
      var i := 0;
      while i < |relayShards|
        invariant 0 <= i <= |relayShards|
        invariant ShardByte(sid) !in relayShards[..i]
      {
        if relayShards[i] == ShardByte(sid) {
          return Some("already relay this shard" + Itoa(sid));
        }
        assert relayShards[..i + 1] == relayShards[..i] + [relayShards[i]];
        i := i + 1;
      }
      assert relayShards[..i] == relayShards;
      relayShards := relayShards + [ShardByte(sid)];
      err := None;
    }

    /** RemoveRelayShard: the first occurrence of the shard removed, if any. */
    method RemoveRelayShard(sid: int)
      modifies this
      ensures relayShards == WithoutRelay(old(relayShards), ShardByte(sid))
    {
      var b := ShardByte(sid);
      var idx := 0;
      while idx < |relayShards|
        invariant 0 <= idx <= |relayShards|
        invariant forall k :: 0 <= k < idx ==> relayShards[k] != b
      {
        if relayShards[idx] == b {
          WithoutRelayAt(relayShards, b, idx);
          relayShards := relayShards[..idx] + relayShards[idx + 1..];
          return;
        }
        idx := idx + 1;
      }
      WithoutRelayAt(relayShards, b, idx);
    }
  }

  /** With the shard absent before `idx`, removing it cuts out position
    * `idx` when the shard is there, and changes nothing when `idx` is the
    * end. */
  lemma {:induction false} WithoutRelayAt(shards: seq<Byte>, b: Byte, idx: nat)
    requires idx <= |shards|
    requires forall k :: 0 <= k < idx ==> shards[k] != b
    ensures idx == |shards| ==> WithoutRelay(shards, b) == shards
    ensures idx < |shards| && shards[idx] == b ==> WithoutRelay(shards, b) == shards[..idx] + shards[idx + 1..]
    decreases idx
  {
    if idx > 0 {
      WithoutRelayAt(shards[1..], b, idx - 1);
      if idx < |shards| {
        assert shards[..idx] + shards[idx + 1..] == [shards[0]] + (shards[1..][..idx - 1] + shards[1..][idx..]);
      } else {
        assert shards == [shards[0]] + shards[1..];
      }
    }
  }

  // ---------------------------------------------------------------------
  // Portal parameters by beacon height

  /** The key whose parameters are in force at a height: the largest key at
    * or below it, or the largest key of all when every key is above it. */
  ghost predicate ChosenKey(keys: set<U64>, h: U64, k: U64)
  {
    && k in keys
    && ((exists j :: j in keys && j <= h) ==> k <= h && forall j :: j in keys && j <= h ==> j <= k)
    && ((forall j :: j in keys ==> h < j) ==> forall j :: j in keys ==> j <= k)
  }

  /** At most one key is in force at a height. */
  lemma ChosenKeyUnique(keys: set<U64>, h: U64, k1: U64, k2: U64)
    requires ChosenKey(keys, h, k1) && ChosenKey(keys, h, k2)
    ensures k1 == k2
  {
    if exists j :: j in keys && j <= h {
      assert k1 <= k2 && k2 <= k1;
    } else {
      assert forall j :: j in keys ==> h < j;
    }
  }

  /** Once a height has a key at or below it, a later height never falls
    * back to an earlier key. */
  lemma ChosenKeyMonotone(keys: set<U64>, h1: U64, h2: U64, k1: U64, k2: U64)
    requires h1 <= h2 && ChosenKey(keys, h1, k1) && ChosenKey(keys, h2, k2)
    requires exists j :: j in keys && j <= h1
    ensures k1 <= k2
  {
    var j :| j in keys && j <= h1;
    assert k1 <= h1 <= h2;
  }

  /** GetPortalParams: with one entry, the entry at key 0 (Go's zero value
    * `zero` when that key is missing); otherwise the keys sorted ascending
    * are scanned from the top for the first one at or below the height,
    * falling back to the largest. An empty map makes the source index
    * below zero. */
  method GetPortalParams<P>(portalParamMap: map<U64, P>, beaconHeight: U64, zero: P) returns (r: P)
    requires |portalParamMap| > 0
    ensures |portalParamMap| == 1 ==> r == (if 0 in portalParamMap then portalParamMap[0] else zero)
    ensures |portalParamMap| != 1 ==>
              exists k :: ChosenKey(portalParamMap.Keys, beaconHeight, k) && r == portalParamMap[k]
  {
    if |portalParamMap| == 1 {
      return if 0 in portalParamMap then portalParamMap[0] else zero;
    }
    var bchs := SortedHeights(portalParamMap.Keys);
    var bchKey := ScanDown(bchs, beaconHeight);
    ghost var keys := set x | x in bchs;
    assert keys == portalParamMap.Keys;
    assert ChosenKey(keys, beaconHeight, bchKey);
    r := portalParamMap[bchKey];
  }

  /** The scan from the largest key down for the first key at or below the
    * height, falling back to the largest key. */
  method ScanDown(bchs: seq<U64>, beaconHeight: U64) returns (bchKey: U64)
    requires |bchs| > 0
    requires forall a, b :: 0 <= a < b < |bchs| ==> bchs[a] < bchs[b]
    ensures ChosenKey((set x | x in bchs), beaconHeight, bchKey)
  {
    bchKey := bchs[|bchs| - 1];
    var i := |bchs| - 1;
    while i >= 0
      invariant -1 <= i < |bchs|
      invariant forall j :: i < j < |bchs| ==> beaconHeight < bchs[j]
    {
      if beaconHeight < bchs[i] {
        i := i - 1;
        continue;
      }
      bchKey := bchs[i];
      break;
    }
    ChosenFromSorted(bchs, beaconHeight, i, bchKey);
  }

  /** The map's keys sorted ascending, as the source collects and sorts
    * them. */
  method SortedHeights(keys: set<U64>) returns (bchs: seq<U64>)
    requires keys != {}
    ensures |bchs| > 0 && (set x | x in bchs) == keys
    ensures forall a, b :: 0 <= a < b < |bchs| ==> bchs[a] < bchs[b]
  {
    var ks := Sorting.KeysOf(keys);
    var less := (x: U64, y: U64) => x < y;
    bchs := Sorting.SortDistinct(ks, less);
    forall x | x in bchs || x in keys
      ensures x in bchs <==> x in keys
    {
      assert x in bchs <==> x in multiset(bchs);
      assert x in ks <==> x in multiset(ks);
    }
    var x :| x in keys;
    assert x in bchs;
  }

  /** What the scan over the ascending keys picks is the key in force. */
  lemma ChosenFromSorted(bchs: seq<U64>, h: U64, i: int, k: U64)
    requires |bchs| > 0 && -1 <= i < |bchs|
    requires forall a, b :: 0 <= a < b < |bchs| ==> bchs[a] < bchs[b]
    requires forall j :: i < j < |bchs| ==> h < bchs[j]
    requires i >= 0 ==> bchs[i] <= h && k == bchs[i]
    requires i < 0 ==> k == bchs[|bchs| - 1]
    ensures ChosenKey((set x | x in bchs), h, k)
  {
    var keys := set x | x in bchs;
    assert bchs[|bchs| - 1] in keys;
    assert i >= 0 ==> bchs[i] in keys;
    forall j | j in keys ensures i >= 0 && j <= h ==> j <= k
    {
      var a :| 0 <= a < |bchs| && bchs[a] == j;
      if i >= 0 && j <= h && a > i {
        assert false;
      }
    }
    forall j | j in keys ensures j <= bchs[|bchs| - 1]
    {
      var a :| 0 <= a < |bchs| && bchs[a] == j;
      if a < |bchs| - 1 {
        assert bchs[a] < bchs[|bchs| - 1];
      }
    }
    if i < 0 {
      forall j | j in keys ensures h < j
      {
        var a :| 0 <= a < |bchs| && bchs[a] == j;
      }
    }
  }
}
