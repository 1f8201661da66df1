/** The response to a custodian's reward withdrawal
  * (portal/metadata/withdrawrewardresponse.go): a transaction the shard's
  * miner creates, checked against the beacon instructions that accepted the
  * request. Each accepted request backs at most one response: the matched
  * instruction is marked used in the caller's instUsed list. */
module WithdrawRewardResponse {
  import opened Common
  import opened MetaBase

  /** Instruction status of an accepted request. The value lives in the
    * portal common package, which is not part of this model; the model fixes
    * a stand-in. */
  const PortalRequestAcceptedChainStatus: string := "accepted"

  datatype PortalWithdrawRewardResponse = PortalWithdrawRewardResponse(
    metaType: int, custodianAddressStr: string, tokenID: Hash, rewardAmount: U64, txReqID: Hash)

  /** The content of an accepted withdrawal instruction (field 3, JSON). */
  datatype WithdrawRewardContent = WithdrawRewardContent(
    custodianAddressStr: string, tokenID: Hash, rewardAmount: U64, txReqID: Hash, shardID: Shard)

  /** What tx.GetTransferData reports: receiver public key, amount, asset. */
  datatype TransferData = TransferData(pk: seq<Byte>, paidAmount: U64, assetID: Hash)

  /** Whether instruction `inst`, whose used mark is `used`, backs the
    * response `res` paid out by `transfer` on shard `shardID`. */
  predicate Matches(res: PortalWithdrawRewardResponse, inst: Instruction, used: int, shardID: Shard,
                    transfer: TransferData, decode: string -> Option<WithdrawRewardContent>,
                    deserialize: string -> Option<seq<Byte>>)
  {
    && |inst| >= 4
    && used <= 0
    && inst[0] == Itoa(PortalRequestWithdrawRewardMeta)
    && inst[2] == PortalRequestAcceptedChainStatus
    && decode(inst[3]).Some?
    && var c := decode(inst[3]).value;
       && c.txReqID == res.txReqID
       && c.shardID == shardID
       && deserialize(c.custodianAddressStr).Some?
       && deserialize(c.custodianAddressStr).value == transfer.pk
       && c.rewardAmount == transfer.paidAmount
       && c.tokenID == transfer.assetID
  }

  /** The first instruction from `from` on that backs the response. */
  function FirstMatch(res: PortalWithdrawRewardResponse, insts: seq<Instruction>, used: seq<int>, from: nat, shardID: Shard,
                      transfer: TransferData, decode: string -> Option<WithdrawRewardContent>,
                      deserialize: string -> Option<seq<Byte>>): (r: Option<nat>)
    requires |insts| <= |used| && from <= |insts|
    ensures r.Some? ==> from <= r.value < |insts| && Matches(res, insts[r.value], used[r.value], shardID, transfer, decode, deserialize)
    ensures r.Some? ==> forall j :: from <= j < r.value ==> !Matches(res, insts[j], used[j], shardID, transfer, decode, deserialize)
    ensures r.None? ==> forall j :: from <= j < |insts| ==> !Matches(res, insts[j], used[j], shardID, transfer, decode, deserialize)
    decreases |insts| - from
  {
    if from == |insts| then None
    else if Matches(res, insts[from], used[from], shardID, transfer, decode, deserialize) then Some(from)
    else FirstMatch(res, insts, used, from + 1, shardID, transfer, decode, deserialize)
  }

  /** VerifyMinerCreatedTxBeforeGettingInBlock: scans the instructions,
    * skipping short ones, used ones, other types, other statuses, contents
    * that do not decode, other requests or shards, addresses that do not
    * deserialise and mismatched payouts; marks the first match used and
    * accepts, or leaves instUsed alone and errs. */
  method VerifyMinerCreatedTxBeforeGettingInBlock(
    res: PortalWithdrawRewardResponse, insts: seq<Instruction>, instUsed: array<int>, shardID: Shard,
    transfer: TransferData, decode: string -> Option<WithdrawRewardContent>,
    deserialize: string -> Option<seq<Byte>>)
    returns (ok: bool, err: Option<string>)
    requires |insts| <= instUsed.Length
    modifies instUsed
    ensures var m := FirstMatch(res, insts, old(instUsed[..]), 0, shardID, transfer, decode, deserialize);
            && (ok <==> m.Some?)
            && (ok <==> err.None?)
            && (m.Some? ==> instUsed[..] == old(instUsed[..])[m.value := 1])
            && (m.None? ==> instUsed[..] == old(instUsed[..]))
  {
    ghost var used := instUsed[..];
    var idx := -1;
    var i := 0;
    while i < |insts|
      invariant 0 <= i <= |insts|
      invariant instUsed[..] == used
      invariant FirstMatch(res, insts, used, 0, shardID, transfer, decode, deserialize)
             == FirstMatch(res, insts, used, i, shardID, transfer, decode, deserialize)
    {
      var inst := insts[i];
      if |inst| < 4 {
        i := i + 1;
        continue;
      }
      if instUsed[i] > 0 || inst[0] != Itoa(PortalRequestWithdrawRewardMeta) {
        i := i + 1;
        continue;
      }
      if inst[2] != PortalRequestAcceptedChainStatus {
        i := i + 1;
        continue;
      }
      var content := decode(inst[3]);
      if content.None? {
        i := i + 1;
        continue;
      }
      var c := content.value;
      if c.txReqID != res.txReqID || shardID != c.shardID {
        i := i + 1;
        continue;
      }
      var key := deserialize(c.custodianAddressStr);
      if key.None? {
        i := i + 1;
        continue;
      }
      if key.value != transfer.pk || c.rewardAmount != transfer.paidAmount || c.tokenID != transfer.assetID {
        i := i + 1;
        continue;
      }
      idx := i;
      break;
    }
    if idx == -1 {
      return false, Some("no PortalWithdrawReward instruction found for PortalWithdrawRewardResponse tx");
    }
    instUsed[idx] := 1;
    return true, None;
  }

  /** A response is backed by at most one instruction: once a response has
    * marked its match, the same response no longer matches that
    * instruction. */
  lemma MatchUsedOnce(res: PortalWithdrawRewardResponse, insts: seq<Instruction>, used: seq<int>, shardID: Shard,
                      transfer: TransferData, decode: string -> Option<WithdrawRewardContent>,
                      deserialize: string -> Option<seq<Byte>>)
    requires |insts| <= |used|
    requires FirstMatch(res, insts, used, 0, shardID, transfer, decode, deserialize).Some?
    ensures var k := FirstMatch(res, insts, used, 0, shardID, transfer, decode, deserialize).value;
            FirstMatch(res, insts, used[k := 1], 0, shardID, transfer, decode, deserialize) != Some(k)
  {
  }

  /** CheckTransactionFee: the response needs no fee. */
  function CheckTransactionFee(res: PortalWithdrawRewardResponse, tx: Tx, minFee: U64): (r: bool)
    ensures r
  {
    true
  }

  /** ValidateTxWithBlockChain answers (false, nil): the response is checked
    * against its request instead. */
  function ValidateTxWithBlockChain(res: PortalWithdrawRewardResponse, tx: Tx): (r: (bool, Option<string>))
    ensures !r.0 && r.1.None?
  {
    (false, None)
  }

  /** ValidateSanityData answers (false, true, nil). */
  function ValidateSanityData(res: PortalWithdrawRewardResponse, tx: Tx, beaconHeight: U64): (r: Sanity<string>)
    ensures !r.ok && r.txOk && r.err.None?
  {
    Sanity(false, true, None)
  }

  function ValidateMetadataByItself(res: PortalWithdrawRewardResponse): (r: bool)
    ensures r <==> res.metaType == PortalRequestWithdrawRewardResponseMeta
  {
    res.metaType == PortalRequestWithdrawRewardResponseMeta
  }

  /** The string Hash() feeds to the hash function; `hashString` is
    * Hash.String. */
  function HashRecord(baseHash: string, res: PortalWithdrawRewardResponse, hashString: Hash -> string): (r: string)
    ensures var t := |baseHash| + |hashString(res.txReqID)|;
            var n := t + |res.custodianAddressStr| + |hashString(res.tokenID)|;
            && n < |r|
            && r[..|baseHash|] == baseHash
            && r[|baseHash|..t] == hashString(res.txReqID)
            && r[t..t + |res.custodianAddressStr|] == res.custodianAddressStr
            && r[t + |res.custodianAddressStr|..n] == hashString(res.tokenID)
            && AllDigits(r[n..]) && DecValue(r[n..]) == res.rewardAmount
  {
    NatToDecDigits(res.rewardAmount);
    var p := baseHash + hashString(res.txReqID) + res.custodianAddressStr + hashString(res.tokenID);
    var r := p + NatToDec(res.rewardAmount);
    assert r[..|p|] == p && r[|p|..] == NatToDec(res.rewardAmount);
    r
  }

  /** Nothing separates the address from the token hash or the token hash
    * from the amount. With 64-character hex texts, address "x", a token
    * whose text is "0" then 63 ones and amount 12 give the same record as
    * address "x0", a token whose text is 64 ones and amount 2. */
  lemma HashRecordAmbiguous(baseHash: string, txReqID: Hash, hashString: Hash -> string)
    requires hashString([1]) == "0" + seq(63, _ => '1') && hashString([2]) == seq(64, _ => '1')
    ensures var a := PortalWithdrawRewardResponse(PortalRequestWithdrawRewardResponseMeta, "x", [1], 12, txReqID);
            var b := PortalWithdrawRewardResponse(PortalRequestWithdrawRewardResponseMeta, "x0", [2], 2, txReqID);
            a != b && HashRecord(baseHash, a, hashString) == HashRecord(baseHash, b, hashString)
  {
    assert NatToDec(12) == NatToDec(1) + [DigitChar(2)] == "12";
    assert NatToDec(2) == "2";
    var x := baseHash + hashString(txReqID);
    var ones := seq(63, _ => '1');
    assert seq(64, _ => '1') == ones + "1";
    assert x + "x" + ("0" + ones) + "12" == x + "x0" + (ones + "1") + "2";
  }
}
