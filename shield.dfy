/** The beacon's portal v4 shielding processor
  * (portalv4/portalprocess/shield.go): it collects shielding actions per
  * shard, turns each into one accepted or rejected instruction while
  * recording the new UTXOs in the portal state, and when the instruction is
  * processed credits the shielded amount to the token's UpdatingInfo. */
module Shield {
  import opened Common
  import Grouping
  import Bridge
  import opened ShieldingRequestMeta

  /** Instruction and record statuses. The values live in the portal v4
    * common package, which is not part of this model; the model fixes
    * distinct stand-ins. */
  const PortalRequestAcceptedChainStatus: string := "accepted"
  const PortalRequestRejectedChainStatus: string := "rejected"
  const PortalRequestAcceptedStatus: int := 1
  const PortalRequestRejectedStatus: int := 2

  /** An unspent output on the external chain. */
  datatype UTXO = UTXO(walletAddress: string, txHash: string, outputIdx: nat, outputAmount: U64)

  /** The content of a shielding instruction (field 3, JSON). */
  datatype PortalShieldingRequestContent = PortalShieldingRequestContent(
    tokenID: string, incogAddressStr: string, proofHash: string, shieldingUTXO: seq<UTXO>,
    mintingAmount: U64, txReqID: Hash, shardID: Shard)

  /** The status record tracked by request transaction id. */
  datatype PortalShieldingRequestStatus = PortalShieldingRequestStatus(
    status: int, tokenID: string, incogAddressStr: string, proofHash: string, shieldingUTXO: seq<UTXO>,
    mintingAmount: U64, txReqID: Hash)

  /** What the portal state remembers of an accepted shielding. */
  datatype ShieldingTx = ShieldingTx(externalTxHash: string, incAddressStr: string, amount: U64)

  /** ParseAndVerifyProof's (isValid, listUTXO, err). */
  datatype ProofCheck = ProofCheck(isValid: bool, utxos: seq<UTXO>, failed: bool)

  /** A portal token's processor: the memo a shielding must carry for an
    * address, the proof verifier (memo and multisig address given), and the
    * conversion of external amounts into incognito amounts. */
  datatype TokenProcessor = TokenProcessor(
    expectedMemo: string -> string,
    verifyProof: (string, string, string) -> ProofCheck,
    convertExternalToInc: U64 -> U64)

  /** The portal parameters the processor reads. */
  datatype PortalParams = PortalParams(
    portalTokens: map<string, TokenProcessor>,
    multiSigAddresses: map<string, string>)

  /** A value in the optionalData map: a bool, or anything else. */
  datatype OptionalValue = BoolValue(b: bool) | OtherValue

  /** The codecs and the proof hash: base64+JSON decoding of the action,
    * sha256-in-hex of the proof, JSON encoding and decoding of the
    * instruction content, and hash parsing. */
  datatype ShieldEnv = ShieldEnv(
    decodeAction: string -> Option<PortalShieldingRequestAction>,
    hashProof: string -> string,
    encodeContent: PortalShieldingRequestContent -> string,
    decodeContent: string -> Option<PortalShieldingRequestContent>,
    hashFromStr: string -> Option<Hash>)

  /** The multisig address of a token; a missing one reads as "". */
  function MultiSigAddress(params: PortalParams, tokenID: string): string
  {
    if tokenID in params.multiSigAddresses then params.multiSigAddresses[tokenID] else ""
  }

  /** The exact total of the outputs. */
  function TotalAmount(us: seq<UTXO>): nat
  {
    if |us| == 0 then 0 else TotalAmount(us[..|us| - 1]) + us[|us| - 1].outputAmount
  }

  lemma TotalAmountSnoc(us: seq<UTXO>, u: UTXO)
    ensures TotalAmount(us + [u]) == TotalAmount(us) + u.outputAmount
  {
    assert (us + [u])[..|us|] == us;
  }

  /** The shielding amount: the outputs summed in a uint64 that wraps. */
  method ShieldingAmount(us: seq<UTXO>) returns (amount: U64)
    ensures amount == Bridge.Low64(TotalAmount(us))
    ensures TotalAmount(us) < TWO_64 ==> amount == TotalAmount(us)
  {
    amount := 0;
    var i := 0;
    while i < |us|
      invariant 0 <= i <= |us|
      invariant amount == Bridge.Low64(TotalAmount(us[..i]))
    {
      TotalAmountSnoc(us[..i], us[i]);
      assert us[..i] + [us[i]] == us[..i + 1];
      Bridge.AddU64Low(TotalAmount(us[..i]), us[i].outputAmount);
      amount := AddU64(amount, us[i].outputAmount);
      i := i + 1;
    }
    assert us[..i] == us;
  }

  /** The shielding processor: the actions collected so far, by shard. */
  class ShieldingRequestProcessor {
    var actions: map<Shard, seq<Instruction>>

    constructor()
      ensures actions == map[]
    {
      actions := map[];
    }

    /** PutAction: the action goes to the end of its shard's list; the other
      * shards' lists stay as they were. */
    method PutAction(action: Instruction, shardID: Shard)
      modifies this
      ensures actions == Grouping.GroupByShard(old(actions), action, shardID)
      ensures actions.Keys == old(actions).Keys + {shardID}
      ensures actions[shardID] == (if shardID in old(actions) then old(actions)[shardID] else []) + [action]
      ensures forall j :: j in old(actions) && j != shardID ==> actions[j] == old(actions)[j]
    {
      if shardID !in actions {
        assert [action] == [] + [action];
        actions := actions[shardID := [action]];
      } else {
        actions := actions[shardID := actions[shardID] + [action]];
      }
    }
  }

  /** The parts of the portal v4 state the processor touches: the UTXOs by
    * token and the accepted shieldings by token and proof hash. The helpers
    * that update them live outside this file; the model gives them the
    * meaning their names state. */
  class PortalV4State {
    var utxos: map<string, seq<UTXO>>
    var shieldingExternalTx: map<string, map<string, ShieldingTx>>

    constructor()
      ensures utxos == map[] && shieldingExternalTx == map[]
    {
      utxos := map[];
      shieldingExternalTx := map[];
    }

    /** IsExistsProofInPortalState. */
    predicate HasProof(tokenID: string, proofHash: string)
      reads this
    {
      ProofIn(shieldingExternalTx, tokenID, proofHash)
    }

    /** UpdatePortalStateUTXOs. */
    method AddUTXOs(tokenID: string, us: seq<UTXO>)
      modifies this
      ensures utxos == WithUTXOs(old(utxos), tokenID, us)
      ensures shieldingExternalTx == old(shieldingExternalTx)
    {
      utxos := WithUTXOs(utxos, tokenID, us);
    }

    /** UpdatePortalStateShieldingExternalTx. */
    method RecordShielding(tokenID: string, proofHash: string, tx: ShieldingTx)
      modifies this
      ensures shieldingExternalTx == WithShielding(old(shieldingExternalTx), tokenID, proofHash, tx)
      ensures utxos == old(utxos)
    {
      shieldingExternalTx := WithShielding(shieldingExternalTx, tokenID, proofHash, tx);
    }
  }

  predicate ProofIn(txs: map<string, map<string, ShieldingTx>>, tokenID: string, proofHash: string)
  {
    tokenID in txs && proofHash in txs[tokenID]
  }

  /** The token's UTXOs with `us` added after the ones already known. */
  function WithUTXOs(m: map<string, seq<UTXO>>, tokenID: string, us: seq<UTXO>): (r: map<string, seq<UTXO>>)
    ensures r.Keys == m.Keys + {tokenID}
    ensures forall t :: t in m && t != tokenID ==> r[t] == m[t]
    ensures r[tokenID] == (if tokenID in m then m[tokenID] else []) + us
  {
    m[tokenID := (if tokenID in m then m[tokenID] else []) + us]
  }

  /** The shieldings with one more, under its token and proof hash. */
  function WithShielding(m: map<string, map<string, ShieldingTx>>, tokenID: string, proofHash: string,
                         tx: ShieldingTx): (r: map<string, map<string, ShieldingTx>>)
    ensures ProofIn(r, tokenID, proofHash) && r[tokenID][proofHash] == tx
    ensures forall t, p :: ProofIn(m, t, p) ==> ProofIn(r, t, p)
    ensures forall t, p :: ProofIn(r, t, p) && (t != tokenID || p != proofHash) ==> ProofIn(m, t, p) && r[t][p] == m[t][p]
  {
    var inner := if tokenID in m then m[tokenID] else map[];
    m[tokenID := inner[proofHash := tx]]
  }

  /** buildReqPTokensInstV4: type, shard, status and the JSON content. */
  function BuildReqPTokensInstV4(env: ShieldEnv, tokenID: string, incogAddressStr: string, proofHash: string,
                                 us: seq<UTXO>, mintingAmt: U64, metaType: int, shardID: Shard, txReqID: Hash,
                                 status: string): (r: Instruction)
    ensures |r| == 4
    ensures r[0] == Itoa(metaType) && r[1] == Itoa(shardID) && r[2] == status
    ensures r[3] == env.encodeContent(PortalShieldingRequestContent(tokenID, incogAddressStr, proofHash, us, mintingAmt, txReqID, shardID))
  {
    [Itoa(metaType), Itoa(shardID), status,
     env.encodeContent(PortalShieldingRequestContent(tokenID, incogAddressStr, proofHash, us, mintingAmt, txReqID, shardID))]
  }

  /** The rejection BuildNewInsts answers with: no proof hash, no UTXOs,
    * nothing minted. */
  function RejectInst(env: ShieldEnv, a: PortalShieldingRequestAction, shardID: Shard): Instruction
  {
    BuildReqPTokensInstV4(env, a.meta.tokenID, a.meta.incogAddressStr, "", [], 0, a.meta.metaType,
                          shardID, a.txReqID, PortalRequestRejectedChainStatus)
  }

  /** Why BuildNewInsts rejects, in the order it checks, or what it accepts. */
  datatype Verdict =
    | NilState | UnsupportedToken | NoOptionalData | BadOptionalData | ProofExists | ProofInvalid
    | Accepted(utxos: seq<UTXO>)

  /** BuildNewInsts's decision for a decoded action, given whether there is
    * a portal state, its recorded shieldings and the optional data the
    * producer prepared. */
  function Judge(env: ShieldEnv, a: PortalShieldingRequestAction, hasState: bool,
                 txs: map<string, map<string, ShieldingTx>>, params: PortalParams,
                 optionalData: Option<map<string, OptionalValue>>): (r: Verdict)
    ensures r.Accepted? <==>
      && hasState
      && a.meta.tokenID in params.portalTokens
      && optionalData.Some?
      && "isExistProofTxHash" in optionalData.value
      && optionalData.value["isExistProofTxHash"] == BoolValue(false)
      && !ProofIn(txs, a.meta.tokenID, env.hashProof(a.meta.shieldingProof))
      && var tp := params.portalTokens[a.meta.tokenID];
         var pc := tp.verifyProof(a.meta.shieldingProof, tp.expectedMemo(a.meta.incogAddressStr),
                                  MultiSigAddress(params, a.meta.tokenID));
         pc.isValid && !pc.failed
    ensures r == NilState <==> !hasState
    ensures r == ProofExists ==>
      || ProofIn(txs, a.meta.tokenID, env.hashProof(a.meta.shieldingProof))
      || (optionalData.Some? && "isExistProofTxHash" in optionalData.value
          && optionalData.value["isExistProofTxHash"] == BoolValue(true))
    ensures r.Accepted? ==>
      var tp := params.portalTokens[a.meta.tokenID];
      r.utxos == tp.verifyProof(a.meta.shieldingProof, tp.expectedMemo(a.meta.incogAddressStr),
                                MultiSigAddress(params, a.meta.tokenID)).utxos
  {
    if !hasState then NilState
    else if a.meta.tokenID !in params.portalTokens then UnsupportedToken
    else if optionalData.None? then NoOptionalData
    else if "isExistProofTxHash" !in optionalData.value || !optionalData.value["isExistProofTxHash"].BoolValue? then BadOptionalData
    else
      var proofHash := env.hashProof(a.meta.shieldingProof);
      if ProofIn(txs, a.meta.tokenID, proofHash) || optionalData.value["isExistProofTxHash"].b then ProofExists
      else
        var tp := params.portalTokens[a.meta.tokenID];
        var pc := tp.verifyProof(a.meta.shieldingProof, tp.expectedMemo(a.meta.incogAddressStr),
                                 MultiSigAddress(params, a.meta.tokenID));
        if !pc.isValid || pc.failed then ProofInvalid
        else Accepted(pc.utxos)
  }

  /** A proof a token processor accepts names at least one UTXO (the
    * processor reads the first one's hash unguarded). */
  ghost predicate ValidProofsHaveUTXOs(tp: TokenProcessor)
  {
    forall proof, memo, addr :: tp.verifyProof(proof, memo, addr).isValid && !tp.verifyProof(proof, memo, addr).failed
                                ==> |tp.verifyProof(proof, memo, addr).utxos| > 0
  }

  /** BuildNewInsts. An action that does not decode yields no instruction;
    * any rejection yields the one rejected instruction and leaves the
    * state alone; an acceptance records the UTXOs and the shielding, whose
    * amount is the wrapping sum of the outputs, and mints the token
    * processor's conversion of that sum. The error is always nil. */
  method BuildNewInsts(env: ShieldEnv, contentStr: string, shardID: Shard, state: PortalV4State?,
                       params: PortalParams, optionalData: Option<map<string, OptionalValue>>)
    returns (insts: seq<Instruction>, err: Option<string>)
    requires forall t :: t in params.portalTokens ==> ValidProofsHaveUTXOs(params.portalTokens[t])
    modifies state
    ensures err.None?
    ensures env.decodeAction(contentStr).None? ==> insts == [] && (state != null ==> unchanged(state))
    ensures env.decodeAction(contentStr).Some? ==>
      var a := env.decodeAction(contentStr).value;
      var v := Judge(env, a, state != null, if state == null then map[] else old(state.shieldingExternalTx), params, optionalData);
      && (!v.Accepted? ==> insts == [RejectInst(env, a, shardID)] && (state != null ==> unchanged(state)))
      && (v.Accepted? ==>
            var proofHash := env.hashProof(a.meta.shieldingProof);
            var amount := Bridge.Low64(TotalAmount(v.utxos));
            && |v.utxos| > 0
            && insts == [BuildReqPTokensInstV4(env, a.meta.tokenID, a.meta.incogAddressStr, proofHash, v.utxos,
                                               params.portalTokens[a.meta.tokenID].convertExternalToInc(amount),
                                               a.meta.metaType, shardID, a.txReqID, PortalRequestAcceptedChainStatus)]
            && state.utxos == WithUTXOs(old(state.utxos), a.meta.tokenID, v.utxos)
            && state.shieldingExternalTx == WithShielding(old(state.shieldingExternalTx), a.meta.tokenID, proofHash,
                                                          ShieldingTx(v.utxos[0].txHash, a.meta.incogAddressStr, amount)))
  {
    err := None;
    var decoded := env.decodeAction(contentStr);
    if decoded.None? {
      return [], None;
    }
    var a := decoded.value;
    var meta := a.meta;
    var rejectInst := RejectInst(env, a, shardID);
    if state == null {
      return [rejectInst], None;
    }
    if meta.tokenID !in params.portalTokens {
      return [rejectInst], None;
    }
    var tp := params.portalTokens[meta.tokenID];
    if optionalData.None? {
      return [rejectInst], None;
    }
    if "isExistProofTxHash" !in optionalData.value || !optionalData.value["isExistProofTxHash"].BoolValue? {
      return [rejectInst], None;
    }
    var isExistInStateDB := optionalData.value["isExistProofTxHash"].b;
    var proofHash := env.hashProof(meta.shieldingProof);
    if state.HasProof(meta.tokenID, proofHash) || isExistInStateDB {
      return [rejectInst], None;
    }
    var expectedMemo := tp.expectedMemo(meta.incogAddressStr);
    var expectedMultisigAddress := MultiSigAddress(params, meta.tokenID);
    var pc := tp.verifyProof(meta.shieldingProof, expectedMemo, expectedMultisigAddress);
    if !pc.isValid || pc.failed {
      return [rejectInst], None;
    }
    assert ValidProofsHaveUTXOs(tp);
    state.AddUTXOs(meta.tokenID, pc.utxos);
    var shieldingAmount := ShieldingAmount(pc.utxos);
    state.RecordShielding(meta.tokenID, proofHash, ShieldingTx(pc.utxos[0].txHash, meta.incogAddressStr, shieldingAmount));
    var mintingAmount := tp.convertExternalToInc(shieldingAmount);
    var inst := BuildReqPTokensInstV4(env, meta.tokenID, meta.incogAddressStr, proofHash, pc.utxos, mintingAmount,
                                      meta.metaType, shardID, a.txReqID, PortalRequestAcceptedChainStatus);
    insts := [inst];
  }

  /** The bookkeeping of an accepted shielding: the token's count-up grows
    * by the shielded amount, wrapping; a token without an entry gets one
    * with nothing deducted, no external id and not centralized. */
  function AddShielded(m: map<Hash, Bridge.UpdatingInfo>, tokenID: Hash, amount: U64): (r: map<Hash, Bridge.UpdatingInfo>)
    ensures r.Keys == m.Keys + {tokenID}
    ensures forall k :: k in m && k != tokenID ==> r[k] == m[k]
    ensures tokenID in m ==> r[tokenID] == m[tokenID].(countUpAmt := AddU64(m[tokenID].countUpAmt, amount))
    ensures tokenID !in m ==> r[tokenID] == Bridge.UpdatingInfo(amount, 0, tokenID, [], false)
  {
    if tokenID in m then m[tokenID := m[tokenID].(countUpAmt := AddU64(m[tokenID].countUpAmt, amount))]
    else m[tokenID := Bridge.UpdatingInfo(amount, 0, tokenID, [], false)]
  }

  /** Shielding amounts credited one after another add up, modulo 2^64,
    * and never touch what was deducted. */
  lemma {:induction false} AddShieldedTwice(m: map<Hash, Bridge.UpdatingInfo>, tokenID: Hash, x: U64, y: U64)
    ensures var r := AddShielded(AddShielded(m, tokenID, x), tokenID, y);
            && r[tokenID].countUpAmt == Bridge.Low64((if tokenID in m then m[tokenID].countUpAmt else 0) + x + y)
            && r[tokenID].deductAmt == (if tokenID in m then m[tokenID].deductAmt else 0)
  {
    var base := if tokenID in m then m[tokenID].countUpAmt else 0;
    var m1 := AddShielded(m, tokenID, x);
    assert m1[tokenID].countUpAmt == Bridge.Low64(base + x);
    Bridge.AddU64Low(base + x, y);
  }

  /** The status record ProcessInsts tracks for a content. */
  function StatusOf(status: int, c: PortalShieldingRequestContent): PortalShieldingRequestStatus
  {
    PortalShieldingRequestStatus(status, c.tokenID, c.incogAddressStr, c.proofHash, c.shieldingUTXO,
                                 c.mintingAmount, c.txReqID)
  }

  /** ProcessInsts. Nothing happens without a portal state, for an
    * instruction that is not four fields long, or for a content that does
    * not parse. An accepted instruction records its UTXOs and shielding in
    * the state, tracks an accepted status (when the store succeeds, per
    * `storeOk`) and then credits the UTXO sum, not the minted amount, to
    * the token's UpdatingInfo (when the token id parses as a hash). A
    * rejected instruction only tracks its status. Any other status is
    * ignored. The error is always nil. */
  method ProcessInsts(env: ShieldEnv, inst: Instruction, state: PortalV4State?,
                      updatingInfo: map<Hash, Bridge.UpdatingInfo>, storeOk: bool)
    returns (updatingInfo': map<Hash, Bridge.UpdatingInfo>, stored: Option<PortalShieldingRequestStatus>, err: Option<string>)
    requires (state != null && |inst| == 4 && inst[2] == PortalRequestAcceptedChainStatus
              && env.decodeContent(inst[3]).Some?) ==> |env.decodeContent(inst[3]).value.shieldingUTXO| > 0
    modifies state
    ensures err.None?
    ensures state == null || |inst| != 4 || env.decodeContent(inst[3]).None? ==>
      updatingInfo' == updatingInfo && stored.None? && (state != null ==> unchanged(state))
    ensures state != null && |inst| == 4 && env.decodeContent(inst[3]).Some? ==>
      var c := env.decodeContent(inst[3]).value;
      && (inst[2] == PortalRequestAcceptedChainStatus ==>
            var amount := Bridge.Low64(TotalAmount(c.shieldingUTXO));
            && state.utxos == WithUTXOs(old(state.utxos), c.tokenID, c.shieldingUTXO)
            && state.shieldingExternalTx == WithShielding(old(state.shieldingExternalTx), c.tokenID, c.proofHash,
                                                          ShieldingTx(c.shieldingUTXO[0].txHash, c.incogAddressStr, amount))
            && stored == (if storeOk then Some(StatusOf(PortalRequestAcceptedStatus, c)) else None)
            && updatingInfo' == (if storeOk && env.hashFromStr(c.tokenID).Some?
                                 then AddShielded(updatingInfo, env.hashFromStr(c.tokenID).value, amount)
                                 else updatingInfo))
      && (inst[2] == PortalRequestRejectedChainStatus ==>
            && unchanged(state) && updatingInfo' == updatingInfo
            && stored == (if storeOk then Some(StatusOf(PortalRequestRejectedStatus, c)) else None))
      && (inst[2] != PortalRequestAcceptedChainStatus && inst[2] != PortalRequestRejectedChainStatus ==>
            unchanged(state) && updatingInfo' == updatingInfo && stored.None?)
  {
    updatingInfo', stored, err := updatingInfo, None, None;
    if state == null {
      return;
    }
    if |inst| != 4 {
      return;
    }
    var decoded := env.decodeContent(inst[3]);
    if decoded.None? {
      return;
    }
    var c := decoded.value;
    var reqStatus := inst[2];
    if reqStatus == PortalRequestAcceptedChainStatus {
      state.AddUTXOs(c.tokenID, c.shieldingUTXO);
      var externalTxHash := c.shieldingUTXO[0].txHash;
      var shieldingAmount := ShieldingAmount(c.shieldingUTXO);
      state.RecordShielding(c.tokenID, c.proofHash, ShieldingTx(externalTxHash, c.incogAddressStr, shieldingAmount));
      if !storeOk {
        return;
      }
      stored := Some(StatusOf(PortalRequestAcceptedStatus, c));
      var incTokenID := env.hashFromStr(c.tokenID);
      if incTokenID.None? {
        return;
      }
      updatingInfo' := AddShielded(updatingInfo, incTokenID.value, shieldingAmount);
    } else if reqStatus == PortalRequestRejectedChainStatus {
      if storeOk {
        stored := Some(StatusOf(PortalRequestRejectedStatus, c));
      }
    }
  }

  /** An accepted instruction BuildNewInsts makes, read back through a
    * codec that decodes what it encodes, carries the accepted status and
    * decodes to the request's token and address, the same UTXOs, the same
    * proof hash and the minted amount. */
  lemma AcceptedRoundTrip(env: ShieldEnv, a: PortalShieldingRequestAction, shardID: Shard, proofHash: string,
                          us: seq<UTXO>, mintingAmt: U64)
    requires forall c :: env.decodeContent(env.encodeContent(c)) == Some(c)
    ensures var inst := BuildReqPTokensInstV4(env, a.meta.tokenID, a.meta.incogAddressStr, proofHash, us, mintingAmt,
                                              a.meta.metaType, shardID, a.txReqID, PortalRequestAcceptedChainStatus);
            && |inst| == 4 && inst[2] == PortalRequestAcceptedChainStatus
            && env.decodeContent(inst[3]).Some?
            && var c := env.decodeContent(inst[3]).value;
               && c.tokenID == a.meta.tokenID && c.proofHash == proofHash && c.shieldingUTXO == us
               && c.incogAddressStr == a.meta.incogAddressStr && c.mintingAmount == mintingAmt
  {
    var c := PortalShieldingRequestContent(a.meta.tokenID, a.meta.incogAddressStr, proofHash, us, mintingAmt, a.txReqID, shardID);
    assert env.decodeContent(env.encodeContent(c)) == Some(c);
  }

  /** A rejected instruction read back carries no proof, no UTXOs and no
    * minting, so processing it changes no balance. */
  lemma RejectedRoundTrip(env: ShieldEnv, a: PortalShieldingRequestAction, shardID: Shard)
    requires forall c :: env.decodeContent(env.encodeContent(c)) == Some(c)
    ensures var inst := RejectInst(env, a, shardID);
            && |inst| == 4 && inst[2] == PortalRequestRejectedChainStatus
            && env.decodeContent(inst[3]).Some?
            && var c := env.decodeContent(inst[3]).value;
               && c.proofHash == "" && c.shieldingUTXO == [] && c.mintingAmount == 0 && c.tokenID == a.meta.tokenID
  {
    var c := PortalShieldingRequestContent(a.meta.tokenID, a.meta.incogAddressStr, "", [], 0, a.txReqID, shardID);
    assert env.decodeContent(env.encodeContent(c)) == Some(c);
  }
}
