/** The beacon's bridge bookkeeping (processBridgeInstructions): issuing,
  * contracting and burning instructions of a beacon block fold into one
  * UpdatingInfo per token, and each token's net change is written once. A
  * malformed or unrelated instruction changes nothing; only the state writes
  * can fail the block. */
module Bridge {
  import opened Common

  /** What the block does to one token so far. */
  datatype UpdatingInfo = UpdatingInfo(
    countUpAmt: U64,
    deductAmt: U64,
    tokenID: Hash,
    externalTokenID: seq<Byte>,
    isCentralized: bool)

  /** The contents of accepted instructions, as the JSON codec yields them. */
  datatype IssuingETHAccepted = IssuingETHAccepted(incTokenID: Hash, issuingAmount: U64, externalTokenID: seq<Byte>, uniqETHTx: seq<Byte>)
  datatype IssuingAccepted = IssuingAccepted(incTokenID: Hash, depositedAmount: U64)
  datatype ContractingAction = ContractingAction(tokenID: Hash, burnedAmount: U64)

  /** The collaborators the bridge steps consult: the base64+JSON decoders of
    * the content field, hash parsing, the state DB (ETH tx registration and
    * the bridge-token registry, which may fail), base58check decoding, the
    * conversion of bytes into a hash and the ETH address bytes. */
  datatype BridgeEnv = BridgeEnv(
    hashFromStr: string -> Option<Hash>,
    decodeIssuingETH: string -> Option<IssuingETHAccepted>,
    insertETHTxHashIssued: seq<Byte> -> bool,
    decodeIssuing: string -> Option<IssuingAccepted>,
    decodeContracting: string -> Option<ContractingAction>,
    isBridgeTokenExisted: (Hash, bool) -> Result<bool>,
    base58Decode: string -> Option<seq<Byte>>,
    hashOfBytes: seq<Byte> -> Hash,
    ethAddress: seq<Byte>)

  /** The amount one accepted instruction adds to a token: `up` to
    * countUpAmt, `down` to deductAmt, and `entry` is the entry it creates when
    * the token has none yet. */
  datatype Delta = Delta(token: Hash, up: U64, down: U64, entry: UpdatingInfo)

  predicate ValidDelta(d: Delta)
  {
    d.entry == d.entry.(countUpAmt := d.up, deductAmt := d.down, tokenID := d.token)
  }

  /** One step's outcome: the change to the map, if any, and the request
    * tracked with rejected status, if any. */
  datatype Step = Step(delta: Option<Delta>, rejected: Option<Hash>)

  const NoStep: Step := Step(None, None)

  /** The entry of the delta's token after the delta: an existing entry keeps
    * its identity fields and gains the amounts (uint64, wrapping); a missing
    * one becomes the delta's new entry. */
  function Apply(m: map<Hash, UpdatingInfo>, d: Delta): (r: map<Hash, UpdatingInfo>)
    requires ValidDelta(d)
    ensures r.Keys == m.Keys + {d.token}
    ensures forall k :: k in m && k != d.token ==> r[k] == m[k]
    ensures d.token in m ==> r[d.token] == m[d.token].(countUpAmt := AddU64(m[d.token].countUpAmt, d.up),
                                                       deductAmt := AddU64(m[d.token].deductAmt, d.down))
    ensures d.token !in m ==> r[d.token].countUpAmt == d.up && r[d.token].deductAmt == d.down
  {
    if d.token in m then
      var u := m[d.token];
      m[d.token := u.(countUpAmt := AddU64(u.countUpAmt, d.up), deductAmt := AddU64(u.deductAmt, d.down))]
    else
      m[d.token := d.entry]
  }

  /** A rejected issuance only tracks the request ID, when it parses. */
  function TrackRejected(env: BridgeEnv, txReqID: string): Step
  {
    match env.hashFromStr(txReqID)
    case None => NoStep
    case Some(h) => Step(None, Some(h))
  }

  /** processIssuingETHReq. */
  function IssuingETHStep(env: BridgeEnv, inst: Instruction): (r: Step)
    ensures r.delta.Some? ==> ValidDelta(r.delta.value) && r.delta.value.down == 0 && !r.delta.value.entry.isCentralized
    ensures r.delta.Some? ==> |inst| == 4 && inst[2] != "rejected"
    ensures |inst| == 4 && inst[2] == "rejected" ==> r.delta.None?
    ensures r.rejected.Some? ==> |inst| == 4 && inst[2] == "rejected"
    ensures |inst| == 4 && inst[2] == "rejected" ==> r.rejected == env.hashFromStr(inst[3])
    ensures r.delta.Some? <==> |inst| == 4 && inst[2] != "rejected" && env.decodeIssuingETH(inst[3]).Some?
                               && env.insertETHTxHashIssued(env.decodeIssuingETH(inst[3]).value.uniqETHTx)
    ensures r.delta.Some? ==> var a := env.decodeIssuingETH(inst[3]).value;
                              && r.delta.value.token == a.incTokenID && r.delta.value.up == a.issuingAmount
                              && r.delta.value.entry.externalTokenID == a.externalTokenID
  {
    if |inst| != 4 then NoStep
    else if inst[2] == "rejected" then TrackRejected(env, inst[3])
    else
      match env.decodeIssuingETH(inst[3])
      case None => NoStep
      case Some(a) =>
        if !env.insertETHTxHashIssued(a.uniqETHTx) then NoStep
        else Step(Some(Delta(a.incTokenID, a.issuingAmount, 0,
                             UpdatingInfo(a.issuingAmount, 0, a.incTokenID, a.externalTokenID, false))), None)
  }

  /** processIssuingReq: as for ETH, with no ETH tx to register, no external
    * token and a centralized entry. */
  function IssuingStep(env: BridgeEnv, inst: Instruction): (r: Step)
    ensures r.delta.Some? ==> ValidDelta(r.delta.value) && r.delta.value.down == 0 && r.delta.value.entry.isCentralized
    ensures r.delta.Some? ==> |inst| == 4 && inst[2] != "rejected"
    ensures |inst| == 4 && inst[2] == "rejected" ==> r.delta.None?
    ensures r.rejected.Some? ==> |inst| == 4 && inst[2] == "rejected"
    ensures |inst| == 4 && inst[2] == "rejected" ==> r.rejected == env.hashFromStr(inst[3])
    ensures r.delta.Some? <==> |inst| == 4 && inst[2] != "rejected" && env.decodeIssuing(inst[3]).Some?
    ensures r.delta.Some? ==> var a := env.decodeIssuing(inst[3]).value;
                              r.delta.value.token == a.incTokenID && r.delta.value.up == a.depositedAmount
  {
    if |inst| != 4 then NoStep
    else if inst[2] == "rejected" then TrackRejected(env, inst[3])
    else
      match env.decodeIssuing(inst[3])
      case None => NoStep
      case Some(a) =>
        Step(Some(Delta(a.incTokenID, a.depositedAmount, 0,
                        UpdatingInfo(a.depositedAmount, 0, a.incTokenID, [], true))), None)
  }

  /** processContractingReq: a rejected contracting instruction is skipped
    * without tracking; an accepted one deducts only for a token of the
    * centralized registry. */
  function ContractingStep(env: BridgeEnv, inst: Instruction): (r: Step)
    ensures r.rejected.None?
    ensures r.delta.Some? ==> ValidDelta(r.delta.value) && r.delta.value.up == 0 && r.delta.value.entry.isCentralized
    ensures r.delta.Some? ==> |inst| == 4 && inst[2] != "rejected"
    ensures r.delta.Some? ==> env.isBridgeTokenExisted(r.delta.value.token, true) == Ok(true)
    ensures r.delta.Some? <==> |inst| == 4 && inst[2] != "rejected" && env.decodeContracting(inst[3]).Some?
                               && env.isBridgeTokenExisted(env.decodeContracting(inst[3]).value.tokenID, true) == Ok(true)
    ensures r.delta.Some? ==> var md := env.decodeContracting(inst[3]).value;
                              r.delta.value.token == md.tokenID && r.delta.value.down == md.burnedAmount
  {
    if |inst| != 4 || inst[2] == "rejected" then NoStep
    else
      match env.decodeContracting(inst[3])
      case None => NoStep
      case Some(md) =>
        if env.isBridgeTokenExisted(md.tokenID, true) != Ok(true) then NoStep
        else Step(Some(Delta(md.tokenID, 0, md.burnedAmount,
                             UpdatingInfo(0, md.burnedAmount, md.tokenID, [], true))), None)
  }

  /** Unsigned big-endian value of bytes (big.Int.SetBytes). */
  function BytesValue(bs: seq<Byte>): nat
  {
    if |bs| == 0 then 0 else 256 * BytesValue(bs[..|bs| - 1]) + bs[|bs| - 1]
  }

  /** The burned amount: ETH amounts are in wei and are scaled down by 10^9;
    * big.Int.Uint64 keeps the low 64 bits. */
  function BurnAmount(externalTokenID: seq<Byte>, ethAddress: seq<Byte>, amountBytes: seq<Byte>): (r: U64)
    ensures externalTokenID == ethAddress && BytesValue(amountBytes) / 1000000000 < TWO_64 ==> r == BytesValue(amountBytes) / 1000000000
    ensures externalTokenID == ethAddress ==> (BytesValue(amountBytes) / 1000000000 - r) % TWO_64 == 0
    ensures externalTokenID != ethAddress && BytesValue(amountBytes) < TWO_64 ==> r == BytesValue(amountBytes)
    ensures externalTokenID != ethAddress ==> (BytesValue(amountBytes) - r) % TWO_64 == 0
  {
    var amt := BytesValue(amountBytes);
    var scaled := if externalTokenID == ethAddress then amt / 1000000000 else amt;
    LowBits(scaled);
    scaled % TWO_64
  }

  /** Keeping the low 64 bits of a value: the same value modulo 2^64, and
    * the value itself when it fits. */
  lemma LowBits(x: nat)
    ensures (x - x % TWO_64) % TWO_64 == 0
    ensures x < TWO_64 ==> x % TWO_64 == x
  {
    assert x - x % TWO_64 == TWO_64 * (x / TWO_64);
  }

  /** processBurningReq: fields 2, 6 and 4 are base58check-decoded into the
    * external token, the Incognito token and the amount; the amount is
    * deducted only for a token of the decentralized registry. */
  function BurningStep(env: BridgeEnv, inst: Instruction): (r: Step)
    ensures r.rejected.None?
    ensures r.delta.Some? ==> ValidDelta(r.delta.value) && r.delta.value.up == 0 && !r.delta.value.entry.isCentralized
    ensures r.delta.Some? ==> |inst| >= 8
    ensures r.delta.Some? ==> env.isBridgeTokenExisted(r.delta.value.token, false) == Ok(true)
    ensures r.delta.Some? ==> env.base58Decode(inst[2]).Some? && env.base58Decode(inst[4]).Some?
    ensures r.delta.Some? ==> r.delta.value.down == BurnAmount(env.base58Decode(inst[2]).value, env.ethAddress, env.base58Decode(inst[4]).value)
    ensures r.delta.Some? <==> |inst| >= 8 && env.base58Decode(inst[2]).Some? && env.base58Decode(inst[6]).Some?
                               && env.base58Decode(inst[4]).Some?
                               && env.isBridgeTokenExisted(env.hashOfBytes(env.base58Decode(inst[6]).value), false) == Ok(true)
    ensures r.delta.Some? ==> && r.delta.value.token == env.hashOfBytes(env.base58Decode(inst[6]).value)
                              && r.delta.value.entry.externalTokenID == env.base58Decode(inst[2]).value
  {
    if |inst| < 8 then NoStep
    else
      var ext := env.base58Decode(inst[2]);
      var inc := env.base58Decode(inst[6]);
      var amt := env.base58Decode(inst[4]);
      if ext.None? || inc.None? || amt.None? then NoStep
      else
        var amount := BurnAmount(ext.value, env.ethAddress, amt.value);
        var token := env.hashOfBytes(inc.value);
        if env.isBridgeTokenExisted(token, false) != Ok(true) then NoStep
        else Step(Some(Delta(token, 0, amount, UpdatingInfo(0, amount, token, ext.value, false))), None)
  }

  predicate IsBurningConfirm(t: string)
  {
    t == Itoa(BurningConfirmMeta) || t == Itoa(BurningConfirmForDepositToSCMeta)
    || t == Itoa(BurningConfirmMetaV2) || t == Itoa(BurningConfirmForDepositToSCMetaV2)
  }

  predicate IsBridgeType(t: string)
  {
    t == Itoa(IssuingETHRequestMeta) || t == Itoa(IssuingRequestMeta)
    || t == Itoa(ContractingRequestMeta) || IsBurningConfirm(t)
  }

  /** The switch of processBridgeInstructions: the step for the
    * instruction's metadata type; instructions shorter than 2 fields and
    * other types are no bridge instructions. */
  function BridgeStep(env: BridgeEnv, inst: Instruction): (r: Step)
    ensures r.delta.Some? ==> ValidDelta(r.delta.value)
    ensures |inst| < 2 || !IsBridgeType(inst[0]) ==> r == NoStep
  {
    if |inst| < 2 then NoStep
    else if inst[0] == Itoa(IssuingETHRequestMeta) then IssuingETHStep(env, inst)
    else if inst[0] == Itoa(IssuingRequestMeta) then IssuingStep(env, inst)
    else if inst[0] == Itoa(ContractingRequestMeta) then ContractingStep(env, inst)
    else if IsBurningConfirm(inst[0]) then BurningStep(env, inst)
    else NoStep
  }

  /** The accepted deltas of a list of instructions, in order. */
  function Deltas(env: BridgeEnv, insts: seq<Instruction>): (r: seq<Delta>)
    ensures forall i :: 0 <= i < |r| ==> ValidDelta(r[i])
  {
    if |insts| == 0 then []
    else
      var st := BridgeStep(env, insts[|insts| - 1]);
      Deltas(env, insts[..|insts| - 1]) + (if st.delta.Some? then [st.delta.value] else [])
  }

  /** The request IDs tracked with rejected status, in order. */
  function Rejected(env: BridgeEnv, insts: seq<Instruction>): seq<Hash>
  {
    if |insts| == 0 then []
    else
      var st := BridgeStep(env, insts[|insts| - 1]);
      Rejected(env, insts[..|insts| - 1]) + (if st.rejected.Some? then [st.rejected.value] else [])
  }

  /** The map after applying deltas one after the other. */
  function ApplyAll(m: map<Hash, UpdatingInfo>, ds: seq<Delta>): map<Hash, UpdatingInfo>
    requires forall i :: 0 <= i < |ds| ==> ValidDelta(ds[i])
  {
    if |ds| == 0 then m else Apply(ApplyAll(m, ds[..|ds| - 1]), ds[|ds| - 1])
  }

  /** The sum of what deltas add to one token, unbounded. */
  function SumUp(ds: seq<Delta>, k: Hash): nat
  {
    if |ds| == 0 then 0
    else SumUp(ds[..|ds| - 1], k) + (if ds[|ds| - 1].token == k then ds[|ds| - 1].up else 0)
  }

  function SumDown(ds: seq<Delta>, k: Hash): nat
  {
    if |ds| == 0 then 0
    else SumDown(ds[..|ds| - 1], k) + (if ds[|ds| - 1].token == k then ds[|ds| - 1].down else 0)
  }

  predicate Touches(ds: seq<Delta>, k: Hash)
  {
    exists i :: 0 <= i < |ds| && ds[i].token == k
  }

  /** The low 64 bits of a natural number. */
  function Low64(n: nat): U64
  {
    n % TWO_64
  }

  lemma AddU64Low(a: nat, b: U64)
    ensures AddU64(Low64(a), b) == Low64(a + b)
  {
  }

  /** Starting from no entries, a token has an entry exactly when some
    * accepted instruction names it, and the entry is that token's. */
  lemma {:induction false} ApplyAllKeys(ds: seq<Delta>, k: Hash)
    requires forall i :: 0 <= i < |ds| ==> ValidDelta(ds[i])
    ensures k in ApplyAll(map[], ds) <==> Touches(ds, k)
    ensures k in ApplyAll(map[], ds) ==> ApplyAll(map[], ds)[k].tokenID == k
  {
    if |ds| > 0 {
      var init := ds[..|ds| - 1];
      ApplyAllKeys(init, k);
      assert forall i :: 0 <= i < |init| ==> init[i] == ds[i];
      if Touches(ds, k) && !Touches(init, k) {
        assert ds[|ds| - 1].token == k;
      }
    }
  }

  /** Accumulation is additive per token: an entry's amounts are the sums of
    * what all accepted instructions for its token add, modulo 2^64. */
  lemma {:induction false} ApplyAllSums(ds: seq<Delta>, k: Hash)
    requires forall i :: 0 <= i < |ds| ==> ValidDelta(ds[i])
    ensures k in ApplyAll(map[], ds) ==> ApplyAll(map[], ds)[k].countUpAmt == Low64(SumUp(ds, k))
    ensures k in ApplyAll(map[], ds) ==> ApplyAll(map[], ds)[k].deductAmt == Low64(SumDown(ds, k))
  {
    if |ds| > 0 {
      var init := ds[..|ds| - 1];
      var d := ds[|ds| - 1];
      ApplyAllSums(init, k);
      var m := ApplyAll(map[], init);
      ApplyAllKeys(init, k);
      if k !in m {
        NoTouchNoSum(init, k);
      }
      ApplySums(m, d, k, SumUp(init, k), SumDown(init, k), SumUp(ds, k), SumDown(ds, k));
    }
  }

  /** One delta keeps an entry's amounts equal to the running sums. */
  lemma ApplySums(m: map<Hash, UpdatingInfo>, d: Delta, k: Hash, up: nat, down: nat, up': nat, down': nat)
    requires ValidDelta(d)
    requires k in m ==> m[k].countUpAmt == Low64(up) && m[k].deductAmt == Low64(down)
    requires k !in m ==> up == 0 && down == 0
    requires up' == up + (if d.token == k then d.up else 0)
    requires down' == down + (if d.token == k then d.down else 0)
    ensures k in Apply(m, d) ==> Apply(m, d)[k].countUpAmt == Low64(up') && Apply(m, d)[k].deductAmt == Low64(down')
  {
    if d.token == k && k in m {
      AddU64Low(up, d.up);
      AddU64Low(down, d.down);
    }
  }

  lemma {:induction false} NoTouchNoSum(ds: seq<Delta>, k: Hash)
    requires !Touches(ds, k)
    ensures SumUp(ds, k) == 0 && SumDown(ds, k) == 0
  {
    if |ds| > 0 {
      var init := ds[..|ds| - 1];
      assert forall i :: 0 <= i < |init| ==> init[i] == ds[i];
      NoTouchNoSum(init, k);
      assert ds[|ds| - 1].token != k;
    }
  }

  /** The change written for one token. */
  datatype TokenUpdate = TokenUpdate(tokenID: Hash, externalTokenID: seq<Byte>, isCentralized: bool, amount: U64, kind: string)

  /** The signed amount an update stands for. */
  function Signed(u: TokenUpdate): int
  {
    if u.kind == "-" then -(u.amount as int) else u.amount
  }

  /** The net change of one token: the difference with its sign, "+" or "-",
    * and amount 0 with no sign when the two sides balance. */
  function NetUpdate(u: UpdatingInfo): (r: TokenUpdate)
    ensures Signed(r) == u.countUpAmt - u.deductAmt
    ensures r.kind == "+" <==> u.countUpAmt > u.deductAmt
    ensures r.kind == "-" <==> u.countUpAmt < u.deductAmt
    ensures r.kind == "" <==> u.countUpAmt == u.deductAmt
    ensures r.kind == "" ==> r.amount == 0
    ensures r.tokenID == u.tokenID && r.externalTokenID == u.externalTokenID && r.isCentralized == u.isCentralized
  {
    var (amt, kind) :=
      if u.countUpAmt > u.deductAmt then (u.countUpAmt - u.deductAmt, "+")
      else if u.countUpAmt < u.deductAmt then (u.deductAmt - u.countUpAmt, "-")
      else (0, "");
    TokenUpdate(u.tokenID, u.externalTokenID, u.isCentralized, amt, kind)
  }

  function NetUpdates(m: map<Hash, UpdatingInfo>): (r: map<Hash, TokenUpdate>)
    ensures r.Keys == m.Keys
    ensures forall k :: k in m ==> Signed(r[k]) == m[k].countUpAmt - m[k].deductAmt
  {
    map k | k in m :: NetUpdate(m[k])
  }

  /** The map the first loop of processBridgeInstructions builds. */
  function Aggregate(env: BridgeEnv, insts: seq<Instruction>): map<Hash, UpdatingInfo>
  {
    ApplyAll(map[], Deltas(env, insts))
  }

  /** processBridgeInstructions: the first loop folds every instruction's
    * step into the map (no step fails the block); the second writes one
    * update per token, in the map's arbitrary order, and stops at the first
    * failing write. On success every token's net update was written; the
    * tracked rejected requests are reported in instruction order. */
  method ProcessBridgeInstructions(env: BridgeEnv, insts: seq<Instruction>, writeOk: TokenUpdate -> bool)
    returns (ok: bool, written: map<Hash, TokenUpdate>, rejected: seq<Hash>)
    ensures rejected == Rejected(env, insts)
    ensures ok <==> forall k :: k in Aggregate(env, insts) ==> writeOk(NetUpdate(Aggregate(env, insts)[k]))
    ensures ok ==> written == NetUpdates(Aggregate(env, insts))
    ensures written.Keys <= Aggregate(env, insts).Keys
    ensures forall k :: k in written ==> written[k] == NetUpdate(Aggregate(env, insts)[k])
  {
    var m: map<Hash, UpdatingInfo> := map[];
    rejected := [];
    var i := 0;
    while i < |insts|
      invariant 0 <= i <= |insts|
      invariant m == Aggregate(env, insts[..i])
      invariant rejected == Rejected(env, insts[..i])
    {
      var st := BridgeStep(env, insts[i]);
      FoldSnoc(env, insts, i);
      if st.delta.Some? {
        m := Apply(m, st.delta.value);
      }
      if st.rejected.Some? {
        rejected := rejected + [st.rejected.value];
      }
      i := i + 1;
    }
    assert insts[..i] == insts;
    ok, written := WriteUpdates(m, writeOk);
  }

  lemma FoldSnoc(env: BridgeEnv, insts: seq<Instruction>, i: nat)
    requires i < |insts|
    ensures var st := BridgeStep(env, insts[i]);
            && Aggregate(env, insts[..i + 1])
               == (if st.delta.Some? then Apply(Aggregate(env, insts[..i]), st.delta.value)
                   else Aggregate(env, insts[..i]))
            && Rejected(env, insts[..i + 1])
               == Rejected(env, insts[..i]) + (if st.rejected.Some? then [st.rejected.value] else [])
  {
    assert insts[..i + 1][..i] == insts[..i];
    var st := BridgeStep(env, insts[i]);
    var ds := Deltas(env, insts[..i]);
    if st.delta.Some? {
      assert (ds + [st.delta.value])[..|ds|] == ds;
    } else {
      assert ds + [] == ds;
    }
  }

  /** The second loop of processBridgeInstructions: tokens are visited in an
    * arbitrary order; each gets its net update written, and the first
    * failing write ends the loop. */
  method WriteUpdates(m: map<Hash, UpdatingInfo>, writeOk: TokenUpdate -> bool)
    returns (ok: bool, written: map<Hash, TokenUpdate>)
    ensures ok <==> forall k :: k in m ==> writeOk(NetUpdate(m[k]))
    ensures ok ==> written == NetUpdates(m)
    ensures written.Keys <= m.Keys
    ensures forall k :: k in written ==> written[k] == NetUpdate(m[k]) && writeOk(written[k])
  {
    var todo := m.Keys;
    written := map[];
    while todo != {}
      invariant todo <= m.Keys
      invariant written.Keys == m.Keys - todo
      invariant forall k :: k in written ==> written[k] == NetUpdate(m[k]) && writeOk(written[k])
      decreases todo
    {
      var k :| k in todo;
      var u := NetUpdate(m[k]);
      if !writeOk(u) {
        return false, written;
      }
      written := written[k := u];
      todo := todo - {k};
    }
    ok := true;
    assert written == NetUpdates(m);
  }

  /** storeBurningConfirm: every instruction whose type is one of `metas`
    * has its field 5 parsed as a tx ID and stored with the block height; a
    * field that does not parse or a failing write ends the walk with an
    * error. Reading fields 0 and 5 needs them to be there. */
  method StoreBurningConfirm(instructions: seq<Instruction>, blockHeight: U64, metas: seq<string>,
                             hashFromStr: string -> Option<Hash>, storeOk: (Hash, U64) -> bool)
    returns (ok: bool, stored: seq<Hash>)
    requires forall i :: 0 <= i < |instructions| ==> |instructions[i]| >= 1
    requires forall i :: 0 <= i < |instructions| && instructions[i][0] in metas ==> |instructions[i]| >= 6
    ensures ok ==> stored == BurningTxIDs(instructions, metas, hashFromStr)
    ensures ok <==> forall i :: 0 <= i < |instructions| && instructions[i][0] in metas ==>
                      hashFromStr(instructions[i][5]).Some? && storeOk(hashFromStr(instructions[i][5]).value, blockHeight)
    ensures !ok ==> exists n :: 0 <= n < |instructions| && stored == BurningTxIDs(instructions[..n], metas, hashFromStr)
  {
    stored := [];
    var i := 0;
    while i < |instructions|
      invariant 0 <= i <= |instructions|
      invariant stored == BurningTxIDs(instructions[..i], metas, hashFromStr)
      invariant forall j :: 0 <= j < i && instructions[j][0] in metas ==>
                  hashFromStr(instructions[j][5]).Some? && storeOk(hashFromStr(instructions[j][5]).value, blockHeight)
    {
      var inst := instructions[i];
      assert instructions[..i + 1][..i] == instructions[..i];
      if inst[0] in metas {
        var txID := hashFromStr(inst[5]);
        if txID.None? || !storeOk(txID.value, blockHeight) {
          return false, stored;
        }
        stored := stored + [txID.value];
      }
      i := i + 1;
    }
    assert instructions[..i] == instructions;
    ok := true;
  }

  /** The tx IDs of the burning confirmations among `instructions`, for
    * instructions whose tx IDs all parse. */
  function BurningTxIDs(instructions: seq<Instruction>, metas: seq<string>, hashFromStr: string -> Option<Hash>): seq<Hash>
    requires forall i :: 0 <= i < |instructions| ==> |instructions[i]| >= 1
    requires forall i :: 0 <= i < |instructions| && instructions[i][0] in metas ==> |instructions[i]| >= 6
  {
    if |instructions| == 0 then []
    else
      var init := instructions[..|instructions| - 1];
      var inst := instructions[|instructions| - 1];
      BurningTxIDs(init, metas, hashFromStr)
      + (if inst[0] in metas && hashFromStr(inst[5]).Some? then [hashFromStr(inst[5]).value] else [])
  }
}
