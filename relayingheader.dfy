/** The relaying-header metadata (portal/metadata/relayingheader.go): a
  * normal transaction that carries a BNB or BTC header for the beacon to
  * relay. */
module RelayingHeaderMeta {
  import opened Common
  import opened MetaBase

  datatype RelayingHeader = RelayingHeader(metaType: int, incogAddressStr: string, header: string, blockHeight: U64)

  /** The action a shard validator hands to the beacon. */
  datatype RelayingHeaderAction = RelayingHeaderAction(meta: RelayingHeader, txReqID: Hash, shardID: Shard)

  /** The content of the instruction the beacon builds. */
  datatype RelayingHeaderContent = RelayingHeaderContent(incogAddressStr: string, header: string, blockHeight: U64, txReqID: Hash)

  /** The checks of ValidateSanityData, in the order they run. */
  datatype SanityError = BadAddress | EmptyPk | NotSigner | NotNormalTx | ZeroBlockHeight | BadHeader

  /** ValidateSanityData. `deserialize` stands for wallet
    * Base58CheckDeserialize followed by taking the payment address's public
    * key; `base64Decode` for the standard base64 decoder. */
  function ValidateSanityData(rh: RelayingHeader, tx: Tx,
                              deserialize: string -> Option<seq<Byte>>,
                              base64Decode: string -> Option<seq<Byte>>): (r: Sanity<SanityError>)
    ensures r.ok <==> r.err.None?
    ensures r.ok ==> r.txOk
    ensures r.ok <==>
      && deserialize(rh.incogAddressStr).Some?
      && |deserialize(rh.incogAddressStr).value| > 0
      && tx.sigPubKey == deserialize(rh.incogAddressStr).value
      && tx.txType == TxNormalType
      && rh.blockHeight >= 1
      && base64Decode(rh.header).Some? && |base64Decode(rh.header).value| > 0
    ensures r.err == Some(BadAddress) <==> deserialize(rh.incogAddressStr).None?
    ensures r.err == Some(EmptyPk) <==> deserialize(rh.incogAddressStr) == Some([])
    ensures r.err == Some(NotSigner) <==>
      deserialize(rh.incogAddressStr).Some? && |deserialize(rh.incogAddressStr).value| > 0
      && tx.sigPubKey != deserialize(rh.incogAddressStr).value
    ensures r.err == Some(NotNormalTx) <==>
      deserialize(rh.incogAddressStr).Some? && |deserialize(rh.incogAddressStr).value| > 0
      && tx.sigPubKey == deserialize(rh.incogAddressStr).value && tx.txType != TxNormalType
    ensures r.err == Some(ZeroBlockHeight) ==> rh.blockHeight == 0 && tx.txType == TxNormalType
    ensures r.err == Some(BadHeader) ==> rh.blockHeight >= 1
  {
    match deserialize(rh.incogAddressStr)
    case None => Reject(BadAddress)
    case Some(pk) =>
      if |pk| == 0 then Reject(EmptyPk)
      else if tx.sigPubKey != pk then Reject(NotSigner)
      else if tx.txType != TxNormalType then Reject(NotNormalTx)
      else if rh.blockHeight < 1 then Reject(ZeroBlockHeight)
      else match base64Decode(rh.header)
        case None => Reject(BadHeader)
        case Some(h) => if |h| == 0 then Reject(BadHeader) else Accept()
  }

  /** ValidateTxWithBlockChain accepts every transaction. */
  function ValidateTxWithBlockChain(rh: RelayingHeader, tx: Tx): (r: (bool, Option<string>))
    ensures r.0 && r.1.None?
  {
    (true, None)
  }

  /** ValidateMetadataByItself: only the BNB and the BTC relaying types. */
  function ValidateMetadataByItself(rh: RelayingHeader): (r: bool)
    ensures r <==> rh.metaType in {RelayingBNBHeaderMeta, RelayingBTCHeaderMeta}
  {
    rh.metaType == RelayingBNBHeaderMeta || rh.metaType == RelayingBTCHeaderMeta
  }

  /** The string Hash() feeds to the hash function: the base metadata hash
    * in hex, the address, the header and the block height in decimal,
    * converted through Go's int (so from 2^63 on it reads negative). */
  function HashRecord(baseHash: string, rh: RelayingHeader): (r: string)
    ensures r == baseHash + rh.incogAddressStr + rh.header + Itoa(ToInt64(rh.blockHeight))
  {
    baseHash + rh.incogAddressStr + rh.header + Itoa(ToInt64(rh.blockHeight))
  }

  /** The decimal tail of the hash record reads back as the block height
    * whenever the height is below 2^63. */
  lemma HashRecordHeight(baseHash: string, rh: RelayingHeader)
    requires rh.blockHeight < TWO_63
    ensures var r := HashRecord(baseHash, rh);
            var n := |baseHash + rh.incogAddressStr + rh.header|;
            Atoi(r[n..]) == Some(rh.blockHeight as int)
  {
    var p := baseHash + rh.incogAddressStr + rh.header;
    assert HashRecord(baseHash, rh)[|p|..] == Itoa(rh.blockHeight);
    ItoaAtoi(rh.blockHeight);
  }

  /** BuildReqActions: one action, headed by the metadata's own type, whose
    * second field is the encoded action (`encode` is json.Marshal then
    * base64). */
  function BuildReqActions(rh: RelayingHeader, tx: Tx, shardID: Shard,
                           encode: RelayingHeaderAction -> string): (r: seq<Instruction>)
    ensures |r| == 1 && |r[0]| == 2
    ensures r[0][0] == Itoa(rh.metaType)
    ensures r[0][1] == encode(RelayingHeaderAction(rh, tx.hash, shardID))
  {
    [ReqAction(rh.metaType, encode(RelayingHeaderAction(rh, tx.hash, shardID)))]
  }
}
