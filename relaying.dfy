/** The beacon's answer to a header-relaying action
  * (blockchain/beaconrelayingproducer.go): one instruction that rejects the
  * header, accepts it as confirmed, or accepts it as unconfirmed, judged by
  * the BNB header chain's latest height before and after it takes the new
  * header. */
module RelayingProducer {
  import opened Common
  import opened RelayingHeaderMeta

  /** Instruction statuses. The values live in the common package, which
    * is not part of this model; the model fixes distinct stand-ins. */
  const RejectedStatus: string := "rejected"
  const ConfirmedAcceptedStatus: string := "confirmedAccepted"
  const UnconfirmedAcceptedStatus: string := "unconfirmedAccepted"

  /** A decoded BNB header: its height (an int64) and everything else. */
  datatype BNBHeader = BNBHeader(height: int, body: seq<Byte>)

  /** The BNB header chain as far as the producer sees it: the height of its
    * latest header. */
  datatype HeaderChain = HeaderChain(latestHeight: int)

  /** ReceiveNewHeader's answer: whether it failed, whether the header was
    * valid, and the chain afterwards. */
  datatype Received = Received(failed: bool, isValid: bool, chain: HeaderChain)

  /** The collaborators: base64+JSON decoding of the action, base64 and JSON
    * decoding of the header, the header chain's verifier and the JSON
    * encoding of the instruction content. */
  datatype RelayEnv = RelayEnv(
    decodeAction: string -> Option<RelayingHeaderAction>,
    base64Decode: string -> Option<seq<Byte>>,
    decodeHeader: seq<Byte> -> Option<BNBHeader>,
    receiveNewHeader: (HeaderChain, BNBHeader) -> Received,
    encodeContent: RelayingHeaderContent -> string)

  /** Go's int64 addition wraps around. */
  function AddI64(a: int, b: int): (r: int)
    requires InInt64(a) && InInt64(b)
    ensures InInt64(r)
    ensures InInt64(a + b) ==> r == a + b
  {
    var s := a + b;
    if s >= TWO_63 then s - TWO_64 else if s < -TWO_63 then s + TWO_64 else s
  }

  /** buildHeaderRelayingInst: the four fields of the instruction. */
  function BuildHeaderRelayingInst(env: RelayEnv, a: RelayingHeaderAction, shardID: Shard, status: string): (r: Instruction)
    ensures |r| == 4
    ensures r[0] == Itoa(a.meta.metaType) && r[1] == Itoa(shardID) && r[2] == status
    ensures r[3] == env.encodeContent(RelayingHeaderContent(a.meta.incogAddressStr, a.meta.header, a.meta.blockHeight, a.txReqID))
  {
    [Itoa(a.meta.metaType), Itoa(shardID), status,
     env.encodeContent(RelayingHeaderContent(a.meta.incogAddressStr, a.meta.header, a.meta.blockHeight, a.txReqID))]
  }

  /** The header an action carries, when it decodes. */
  function DecodedHeader(env: RelayEnv, a: RelayingHeaderAction): Option<BNBHeader>
  {
    match env.base64Decode(a.meta.header)
    case None => None
    case Some(bs) => env.decodeHeader(bs)
  }

  /** The producer's answer and the header chain after it. */
  datatype Relayed = Relayed(insts: seq<Instruction>, chain: Option<HeaderChain>)

  /** Whether the action's header decodes and has the metadata's height:
    * then, and only then, the header chain is asked to take it. */
  predicate HeaderMatches(env: RelayEnv, a: RelayingHeaderAction)
  {
    && DecodedHeader(env, a).Some?
    && DecodedHeader(env, a).value.height == ToInt64(a.meta.blockHeight)
  }

  /** Whether the verifier takes the action's header on `chain`. */
  predicate Verified(env: RelayEnv, a: RelayingHeaderAction, chain: HeaderChain)
  {
    && HeaderMatches(env, a)
    && var rc := env.receiveNewHeader(chain, DecodedHeader(env, a).value);
       !rc.failed && rc.isValid
  }

  /** buildInstructionsForHeaderRelaying. The metaType argument is not
    * consulted: the instruction carries the type inside the action. A
    * missing header chain, a header that does not decode, a height that
    * differs from the metadata's, and a header the verifier refuses all
    * reject; a verified header whose arrival lifts the latest height by
    * exactly one is confirmed, any other verified header unconfirmed. The
    * header chain passed on is the one the verifier leaves whenever it was
    * asked, accepted or not, and the given one otherwise. */
  function BuildInstructionsForHeaderRelaying(env: RelayEnv, contentStr: string, shardID: Shard, metaType: int,
                                              chain: Option<HeaderChain>, beaconHeight: U64): (r: Relayed)
    requires chain.Some? ==> InInt64(chain.value.latestHeight)
    ensures env.decodeAction(contentStr).None? ==> r == Relayed([], chain)
    ensures env.decodeAction(contentStr).Some? ==>
      var a := env.decodeAction(contentStr).value;
      && |r.insts| == 1 && |r.insts[0]| == 4
      && r.insts[0] == BuildHeaderRelayingInst(env, a, shardID, r.insts[0][2])
      && (r.insts[0][2] == RejectedStatus <==> chain.None? || !Verified(env, a, chain.value))
      && (r.insts[0][2] == ConfirmedAcceptedStatus <==>
            chain.Some? && Verified(env, a, chain.value)
            && env.receiveNewHeader(chain.value, DecodedHeader(env, a).value).chain.latestHeight
               == AddI64(chain.value.latestHeight, 1))
      && (r.insts[0][2] in {RejectedStatus, ConfirmedAcceptedStatus, UnconfirmedAcceptedStatus})
    ensures r.chain.None? <==> chain.None?
    ensures r.chain == (if env.decodeAction(contentStr).Some? && chain.Some? && HeaderMatches(env, env.decodeAction(contentStr).value)
                        then Some(env.receiveNewHeader(chain.value, DecodedHeader(env, env.decodeAction(contentStr).value).value).chain)
                        else chain)
  {
    match env.decodeAction(contentStr)
    case None => Relayed([], chain)
    case Some(a) =>
      if chain.None? then Relayed([BuildHeaderRelayingInst(env, a, shardID, RejectedStatus)], chain)
      else match env.base64Decode(a.meta.header)
        case None => Relayed([BuildHeaderRelayingInst(env, a, shardID, RejectedStatus)], chain)
        case Some(headerBytes) =>
          match env.decodeHeader(headerBytes)
          case None => Relayed([BuildHeaderRelayingInst(env, a, shardID, RejectedStatus)], chain)
          case Some(newHeader) =>
            if newHeader.height != ToInt64(a.meta.blockHeight) then
              Relayed([BuildHeaderRelayingInst(env, a, shardID, RejectedStatus)], chain)
            else
              var latest := chain.value.latestHeight;
              var rc := env.receiveNewHeader(chain.value, newHeader);
              if rc.failed || !rc.isValid then
                Relayed([BuildHeaderRelayingInst(env, a, shardID, RejectedStatus)], Some(rc.chain))
              else if rc.chain.latestHeight == AddI64(latest, 1) then
                Relayed([BuildHeaderRelayingInst(env, a, shardID, ConfirmedAcceptedStatus)], Some(rc.chain))
              else
                Relayed([BuildHeaderRelayingInst(env, a, shardID, UnconfirmedAcceptedStatus)], Some(rc.chain))
  }

  /** Round trip with the shard side: the action RelayingHeader's
    * BuildReqActions makes for a transaction, handed to the producer
    * through a codec that decodes what it encodes, yields one instruction
    * about that very metadata, transaction and shard. */
  lemma ReqActionRoundTrip(env: RelayEnv, rh: RelayingHeader, tx: MetaBase.Tx, shardID: Shard,
                           encode: RelayingHeaderAction -> string, chain: Option<HeaderChain>, beaconHeight: U64)
    requires forall a :: env.decodeAction(encode(a)) == Some(a)
    requires chain.Some? ==> InInt64(chain.value.latestHeight)
    ensures var action := BuildReqActions(rh, tx, shardID, encode)[0];
            var r := BuildInstructionsForHeaderRelaying(env, action[1], shardID, rh.metaType, chain, beaconHeight);
            && |r.insts| == 1 && |r.insts[0]| == 4
            && r.insts[0][0] == action[0]
            && r.insts[0][1] == Itoa(shardID)
            && r.insts[0][3] == env.encodeContent(RelayingHeaderContent(rh.incogAddressStr, rh.header, rh.blockHeight, tx.hash))
  {
    var action := BuildReqActions(rh, tx, shardID, encode)[0];
    assert env.decodeAction(action[1]) == Some(RelayingHeaderAction(rh, tx.hash, shardID));
  }
}
