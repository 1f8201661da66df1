/** The portal v4 shielding request (portalv4/metadata/shieldingrequest.go):
  * a normal transaction that carries a proof of a deposit on the external
  * chain. Anyone may submit the proof. */
module ShieldingRequestMeta {
  import opened Common
  import opened MetaBase

  datatype PortalShieldingRequest = PortalShieldingRequest(
    metaType: int, tokenID: string, incogAddressStr: string, shieldingProof: string)

  datatype PortalShieldingRequestAction = PortalShieldingRequestAction(
    meta: PortalShieldingRequest, txReqID: Hash, shardID: Shard)

  /** The checks of ValidateSanityData, in the order they run. */
  datatype SanityError = BadAddress | EmptyPk | NotNormalTx | NotPortalToken

  /** ValidateSanityData. `isPortalToken` answers for the beacon height the
    * validator is called with. The signer is not compared with the
    * requester. */
  function ValidateSanityData(req: PortalShieldingRequest, tx: Tx, beaconHeight: U64,
                              deserialize: string -> Option<seq<Byte>>,
                              isPortalToken: (U64, string) -> bool): (r: Sanity<SanityError>)
    ensures r.ok <==> r.err.None?
    ensures r.ok ==> r.txOk
    ensures r.ok <==>
      && deserialize(req.incogAddressStr).Some?
      && |deserialize(req.incogAddressStr).value| > 0
      && tx.txType == TxNormalType
      && isPortalToken(beaconHeight, req.tokenID)
    ensures r.err == Some(BadAddress) <==> deserialize(req.incogAddressStr).None?
    ensures r.err == Some(EmptyPk) <==> deserialize(req.incogAddressStr) == Some([])
    ensures r.err == Some(NotNormalTx) <==>
      deserialize(req.incogAddressStr).Some? && |deserialize(req.incogAddressStr).value| > 0 && tx.txType != TxNormalType
  {
    match deserialize(req.incogAddressStr)
    case None => Reject(BadAddress)
    case Some(pk) =>
      if |pk| == 0 then Reject(EmptyPk)
      else if tx.txType != TxNormalType then Reject(NotNormalTx)
      else if !isPortalToken(beaconHeight, req.tokenID) then Reject(NotPortalToken)
      else Accept()
  }

  /** The signer plays no part: two transactions that differ only in their
    * signer get the same answer. */
  lemma AnyoneMaySubmit(req: PortalShieldingRequest, tx: Tx, signer: seq<Byte>, beaconHeight: U64,
                        deserialize: string -> Option<seq<Byte>>, isPortalToken: (U64, string) -> bool)
    ensures ValidateSanityData(req, tx.(sigPubKey := signer), beaconHeight, deserialize, isPortalToken)
         == ValidateSanityData(req, tx, beaconHeight, deserialize, isPortalToken)
  {
  }

  /** ValidateTxWithBlockChain accepts every transaction. */
  function ValidateTxWithBlockChain(req: PortalShieldingRequest, tx: Tx): (r: (bool, Option<string>))
    ensures r.0 && r.1.None?
  {
    (true, None)
  }

  function ValidateMetadataByItself(req: PortalShieldingRequest): (r: bool)
    ensures r <==> req.metaType == PortalShieldingRequestMeta
  {
    req.metaType == PortalShieldingRequestMeta
  }

  /** The string Hash() feeds to the hash function. */
  function HashRecord(baseHash: string, req: PortalShieldingRequest): (r: string)
    ensures var n := |baseHash| + |req.tokenID|;
            var m := |r| - |req.shieldingProof|;
            && n <= m <= |r|
            && r[..|baseHash|] == baseHash
            && r[|baseHash|..n] == req.tokenID
            && r[n..m] == req.incogAddressStr
            && r[m..] == req.shieldingProof
  {
    var r := baseHash + req.tokenID + req.incogAddressStr + req.shieldingProof;
    assert r[|baseHash| + |req.tokenID|..|r| - |req.shieldingProof|] == req.incogAddressStr;
    r
  }

  /** Nothing separates the fields, so two different requests can share a
    * record: token "a" with address "bc", and token "ab" with address
    * "c". */
  lemma HashRecordAmbiguous(baseHash: string, proof: string)
    ensures var a := PortalShieldingRequest(PortalShieldingRequestMeta, "a", "bc", proof);
            var b := PortalShieldingRequest(PortalShieldingRequestMeta, "ab", "c", proof);
            a != b && HashRecord(baseHash, a) == HashRecord(baseHash, b)
  {
    assert baseHash + "a" + "bc" + proof == baseHash + "ab" + "c" + proof;
  }

  /** BuildReqActions: one action headed by the fixed shielding type. */
  function BuildReqActions(req: PortalShieldingRequest, tx: Tx, shardID: Shard,
                           encode: PortalShieldingRequestAction -> string): (r: seq<Instruction>)
    ensures |r| == 1 && |r[0]| == 2
    ensures r[0][0] == Itoa(PortalShieldingRequestMeta)
    ensures r[0][1] == encode(PortalShieldingRequestAction(req, tx.hash, shardID))
  {
    [ReqAction(PortalShieldingRequestMeta, encode(PortalShieldingRequestAction(req, tx.hash, shardID)))]
  }
}
