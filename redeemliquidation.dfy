/** The request to redeem public tokens from the liquidation pool
  * (portal/metadata/portalredeemfromliquidationpool.go): a burning
  * privacy-token transaction, refused from the portal v3 breakpoint on. */
module RedeemFromLiquidationPool {
  import opened Common
  import opened MetaBase

  datatype PortalRedeemLiquidateExchangeRates = PortalRedeemLiquidateExchangeRates(
    metaType: int, tokenID: string, redeemAmount: U64, redeemerIncAddressStr: string)

  datatype PortalRedeemLiquidateExchangeRatesAction = PortalRedeemLiquidateExchangeRatesAction(
    meta: PortalRedeemLiquidateExchangeRates, txReqID: Hash, shardID: Shard)

  /** The checks of ValidateSanityData, in the order they run. */
  datatype SanityError =
    | BadAddress | EmptyPk | NotSigner | NotPrivacyTokenTx | NotBurning
    | BelowMinimum | ValueMismatch | TokenMismatch | NotPortalToken | AfterPortalV3

  /** What the validator consults besides the request and the transaction:
    * address deserialisation, the per-token minimum redeem amounts (a
    * missing token has minimum 0, Go's zero value), the portal token list and
    * the beacon height from which portal v3 takes over. */
  datatype RedeemEnv = RedeemEnv(
    deserialize: string -> Option<seq<Byte>>,
    minAmountPortalPToken: map<string, U64>,
    isPortalToken: string -> bool,
    breakPointPortalV3: U64)

  function MinAmount(env: RedeemEnv, tokenID: string): U64
  {
    if tokenID in env.minAmountPortalPToken then env.minAmountPortalPToken[tokenID] else 0
  }

  /** Every check after the shortcut for plain privacy-token transactions. */
  predicate PassesChecks(req: PortalRedeemLiquidateExchangeRates, tx: Tx, env: RedeemEnv, beaconHeight: U64)
  {
    && env.deserialize(req.redeemerIncAddressStr).Some?
    && |env.deserialize(req.redeemerIncAddressStr).value| > 0
    && tx.sigPubKey == env.deserialize(req.redeemerIncAddressStr).value
    && tx.txType == TxCustomTokenPrivacyType
    && tx.isCoinsBurning
    && req.redeemAmount >= MinAmount(env, req.tokenID)
    && req.redeemAmount == tx.value
    && req.tokenID == tx.tokenID
    && env.isPortalToken(req.tokenID)
    && beaconHeight < env.breakPointPortalV3
  }

  /** A privacy-token transaction whose concrete type is *transaction.Tx
    * skips the checks. */
  predicate Shortcut(tx: Tx)
  {
    tx.txType == TxCustomTokenPrivacyType && tx.isPlainTx
  }

  /** The k-th check of ValidateSanityData, in the order they run; an
    * address that does not decode reads as an empty key for the checks
    * after the first, which only run once it decodes. */
  predicate Check(req: PortalRedeemLiquidateExchangeRates, tx: Tx, env: RedeemEnv, beaconHeight: U64, k: nat)
  {
    var d := env.deserialize(req.redeemerIncAddressStr);
    var pk := if d.Some? then d.value else [];
    match k
    case 0 => d.Some?
    case 1 => |pk| > 0
    case 2 => tx.sigPubKey == pk
    case 3 => tx.txType == TxCustomTokenPrivacyType
    case 4 => tx.isCoinsBurning
    case 5 => req.redeemAmount >= MinAmount(env, req.tokenID)
    case 6 => req.redeemAmount == tx.value
    case 7 => req.tokenID == tx.tokenID
    case 8 => env.isPortalToken(req.tokenID)
    case 9 => beaconHeight < env.breakPointPortalV3
    case _ => true
  }

  /** The first k checks pass. */
  predicate PassesFirst(req: PortalRedeemLiquidateExchangeRates, tx: Tx, env: RedeemEnv, beaconHeight: U64, k: nat)
  {
    k == 0 || (PassesFirst(req, tx, env, beaconHeight, k - 1) && Check(req, tx, env, beaconHeight, k - 1))
  }

  /** ValidateSanityData. A privacy-token transaction whose concrete type is
    * *transaction.Tx is accepted at once; otherwise the checks run in order
    * and the first that fails names the error. */
  function ValidateSanityData(req: PortalRedeemLiquidateExchangeRates, tx: Tx, env: RedeemEnv, beaconHeight: U64): (r: Sanity<SanityError>)
    ensures r.ok <==> r.err.None?
    ensures r.ok ==> r.txOk
    ensures tx.txType == TxCustomTokenPrivacyType && tx.isPlainTx ==> r.ok
    ensures r.ok <==> (tx.txType == TxCustomTokenPrivacyType && tx.isPlainTx) || PassesChecks(req, tx, env, beaconHeight)
    ensures r.err == Some(BadAddress) <==> !Shortcut(tx) && PassesFirst(req, tx, env, beaconHeight, 0) && !Check(req, tx, env, beaconHeight, 0)
    ensures r.err == Some(EmptyPk) <==> !Shortcut(tx) && PassesFirst(req, tx, env, beaconHeight, 1) && !Check(req, tx, env, beaconHeight, 1)
    ensures r.err == Some(NotSigner) <==> !Shortcut(tx) && PassesFirst(req, tx, env, beaconHeight, 2) && !Check(req, tx, env, beaconHeight, 2)
    ensures r.err == Some(NotPrivacyTokenTx) <==> !Shortcut(tx) && PassesFirst(req, tx, env, beaconHeight, 3) && !Check(req, tx, env, beaconHeight, 3)
    ensures r.err == Some(NotBurning) <==> !Shortcut(tx) && PassesFirst(req, tx, env, beaconHeight, 4) && !Check(req, tx, env, beaconHeight, 4)
    ensures r.err == Some(BelowMinimum) <==> !Shortcut(tx) && PassesFirst(req, tx, env, beaconHeight, 5) && !Check(req, tx, env, beaconHeight, 5)
    ensures r.err == Some(ValueMismatch) <==> !Shortcut(tx) && PassesFirst(req, tx, env, beaconHeight, 6) && !Check(req, tx, env, beaconHeight, 6)
    ensures r.err == Some(TokenMismatch) <==> !Shortcut(tx) && PassesFirst(req, tx, env, beaconHeight, 7) && !Check(req, tx, env, beaconHeight, 7)
    ensures r.err == Some(NotPortalToken) <==> !Shortcut(tx) && PassesFirst(req, tx, env, beaconHeight, 8) && !Check(req, tx, env, beaconHeight, 8)
    ensures r.err == Some(AfterPortalV3) <==> !Shortcut(tx) && PassesFirst(req, tx, env, beaconHeight, 9) && !Check(req, tx, env, beaconHeight, 9)
  {
    if tx.txType == TxCustomTokenPrivacyType && tx.isPlainTx then Accept()
    else match env.deserialize(req.redeemerIncAddressStr)
      case None => Reject(BadAddress)
      case Some(pk) =>
        if |pk| == 0 then Reject(EmptyPk)
        else if tx.sigPubKey != pk then Reject(NotSigner)
        else if tx.txType != TxCustomTokenPrivacyType then Reject(NotPrivacyTokenTx)
        else if !tx.isCoinsBurning then Reject(NotBurning)
        else if req.redeemAmount < MinAmount(env, req.tokenID) then Reject(BelowMinimum)
        else if req.redeemAmount != tx.value then Reject(ValueMismatch)
        else if req.tokenID != tx.tokenID then Reject(TokenMismatch)
        else if !env.isPortalToken(req.tokenID) then Reject(NotPortalToken)
        else if beaconHeight >= env.breakPointPortalV3 then Reject(AfterPortalV3)
        else Accept()
  }

  /** ValidateTxWithBlockChain accepts every transaction. */
  function ValidateTxWithBlockChain(req: PortalRedeemLiquidateExchangeRates, tx: Tx): (r: (bool, Option<string>))
    ensures r.0 && r.1.None?
  {
    (true, None)
  }

  function ValidateMetadataByItself(req: PortalRedeemLiquidateExchangeRates): (r: bool)
    ensures r <==> req.metaType == PortalRedeemFromLiquidationPoolMeta
  {
    req.metaType == PortalRedeemFromLiquidationPoolMeta
  }

  /** The string Hash() feeds to the hash function: base hash, token,
    * amount in decimal (FormatUint), address. */
  function HashRecord(baseHash: string, req: PortalRedeemLiquidateExchangeRates): (r: string)
    ensures var n := |baseHash| + |req.tokenID|;
            var m := |r| - |req.redeemerIncAddressStr|;
            && n < m <= |r|
            && r[..|baseHash|] == baseHash
            && r[|baseHash|..n] == req.tokenID
            && AllDigits(r[n..m]) && DecValue(r[n..m]) == req.redeemAmount
            && r[m..] == req.redeemerIncAddressStr
  {
    NatToDecDigits(req.redeemAmount);
    var r := baseHash + req.tokenID + NatToDec(req.redeemAmount) + req.redeemerIncAddressStr;
    assert r[|baseHash| + |req.tokenID|..|r| - |req.redeemerIncAddressStr|] == NatToDec(req.redeemAmount);
    r
  }

  /** Nothing separates the token from the amount, so two different
    * requests can share a record: token "ab" with amount 12, and token
    * "ab1" with amount 2. */
  lemma HashRecordAmbiguous(baseHash: string, address: string)
    ensures var a := PortalRedeemLiquidateExchangeRates(PortalRedeemFromLiquidationPoolMeta, "ab", 12, address);
            var b := PortalRedeemLiquidateExchangeRates(PortalRedeemFromLiquidationPoolMeta, "ab1", 2, address);
            a != b && HashRecord(baseHash, a) == HashRecord(baseHash, b)
  {
    assert NatToDec(12) == NatToDec(1) + [DigitChar(2)] == "12";
    assert NatToDec(2) == "2";
    assert baseHash + "ab" + "12" + address == baseHash + "ab1" + "2" + address;
  }

  /** BuildReqActions: one action headed by the fixed redeem type, not by
    * the metadata's own type. */
  function BuildReqActions(req: PortalRedeemLiquidateExchangeRates, tx: Tx, shardID: Shard,
                           encode: PortalRedeemLiquidateExchangeRatesAction -> string): (r: seq<Instruction>)
    ensures |r| == 1 && |r[0]| == 2
    ensures r[0][0] == Itoa(PortalRedeemFromLiquidationPoolMeta)
    ensures r[0][1] == encode(PortalRedeemLiquidateExchangeRatesAction(req, tx.hash, shardID))
  {
    [ReqAction(PortalRedeemFromLiquidationPoolMeta, encode(PortalRedeemLiquidateExchangeRatesAction(req, tx.hash, shardID)))]
  }

  /** The action's type field reads back as the redeem type, whatever type
    * the metadata itself carries. */
  lemma ReqActionType(req: PortalRedeemLiquidateExchangeRates, tx: Tx, shardID: Shard,
                      encode: PortalRedeemLiquidateExchangeRatesAction -> string)
    ensures Atoi(BuildReqActions(req, tx, shardID, encode)[0][0]) == Some(PortalRedeemFromLiquidationPoolMeta)
  {
    ItoaAtoi(PortalRedeemFromLiquidationPoolMeta);
  }
}
