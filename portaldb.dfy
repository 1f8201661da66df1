/** The portal's pure database helpers (database/lvdb/portal.go): the key
  * builders, the remote-address lookup, the reward-list updates and the
  * exchange-rate conversion. The LevelDB reads and writes around them are
  * not part of this model. */
module PortalDB {
  import opened Common

  // ---------------------------------------------------------------------
  // Keys

  /** The key prefixes, byte strings defined elsewhere in the package. */
  datatype Prefixes = Prefixes(
    custodianWithdraw: string, custodianState: string, portingRequests: string, portingRequestsTx: string,
    finalExchangeRates: string, exchangeRates: string, custodianDeposit: string, waitingPortingRequests: string,
    requestPTokens: string, waitingRedeemRequests: string, redeemRequests: string,
    redeemRequestsByTxReqID: string, requestUnlockCollateral: string, liquidateCustodian: string,
    liquidateTopPercentileExchangeRates: string, liquidateExchangeRates: string, rewardByBeaconHeight: string,
    requestWithdrawReward: string)

  /** A height-scoped key: the prefix, the height in decimal, a dash, and
    * the identifier. */
  function HeightScoped(prefix: string, beaconHeight: U64, id: string): string
  {
    prefix + NatToDec(beaconHeight) + "-" + id
  }

  /** The first position of `c` in `s`. */
  function IndexOf(s: string, c: char): (r: Option<nat>)
    ensures r.Some? ==> r.value < |s| && s[r.value] == c && forall j :: 0 <= j < r.value ==> s[j] != c
    ensures r.None? ==> forall j :: 0 <= j < |s| ==> s[j] != c
  {
    if |s| == 0 then None
    else if s[0] == c then Some(0)
    else match IndexOf(s[1..], c)
      case None => None
      case Some(k) => Some(k + 1)
  }

  /** Reads a height-scoped key back: after the prefix, the digits up to the
    * first dash are the height and the rest is the identifier. */
  function ParseHeightKey(prefix: string, key: string): (r: Option<(nat, string)>)
  {
    if |key| < |prefix| || key[..|prefix|] != prefix then None
    else
      var rest := key[|prefix|..];
      match IndexOf(rest, '-')
      case None => None
      case Some(k) =>
        if k == 0 || !AllDigits(rest[..k]) then None
        else Some((DecValue(rest[..k]), rest[k + 1..]))
  }

  /** A height-scoped key reads back as its height and identifier. */
  lemma HeightKeyRoundTrip(prefix: string, beaconHeight: U64, id: string)
    ensures ParseHeightKey(prefix, HeightScoped(prefix, beaconHeight, id)) == Some((beaconHeight as nat, id))
  {
    var digits := NatToDec(beaconHeight);
    NatToDecDigits(beaconHeight);
    var key := HeightScoped(prefix, beaconHeight, id);
    assert key[..|prefix|] == prefix;
    var rest := key[|prefix|..];
    assert rest == digits + "-" + id;
    assert rest[|digits|] == '-';
    assert forall j :: 0 <= j < |digits| ==> rest[j] == digits[j] && rest[j] != '-';
    assert IndexOf(rest, '-') == Some(|digits|);
    assert rest[..|digits|] == digits;
    assert rest[|digits| + 1..] == id;
  }

  /** Different heights or identifiers under one prefix give different keys. */
  lemma HeightKeyInjective(prefix: string, h1: U64, id1: string, h2: U64, id2: string)
    requires h1 != h2 || id1 != id2
    ensures HeightScoped(prefix, h1, id1) != HeightScoped(prefix, h2, id2)
  {
    HeightKeyRoundTrip(prefix, h1, id1);
    HeightKeyRoundTrip(prefix, h2, id2);
  }

  function NewCustodianWithdrawRequest(p: Prefixes, txHash: string): string
  {
    p.custodianWithdraw + txHash
  }

  function NewCustodianStateKey(p: Prefixes, beaconHeight: U64, custodianAddress: string): string
  {
    HeightScoped(p.custodianState, beaconHeight, custodianAddress)
  }

  function NewPortingRequestKey(p: Prefixes, uniquePortingID: string): string
  {
    p.portingRequests + uniquePortingID
  }

  function NewPortingRequestTxKey(p: Prefixes, txReqID: string): string
  {
    p.portingRequestsTx + txReqID
  }

  function NewFinalExchangeRatesKey(p: Prefixes, beaconHeight: U64): string
  {
    HeightScoped(p.finalExchangeRates, beaconHeight, "portal")
  }

  function NewExchangeRatesRequestKey(p: Prefixes, beaconHeight: U64, txId: string): string
  {
    HeightScoped(p.exchangeRates, beaconHeight, txId)
  }

  function NewCustodianDepositKey(p: Prefixes, txID: string): string
  {
    p.custodianDeposit + txID
  }

  function NewWaitingPortingReqKey(p: Prefixes, beaconHeight: U64, portingID: string): string
  {
    HeightScoped(p.waitingPortingRequests, beaconHeight, portingID)
  }

  function NewPortalReqPTokenKey(p: Prefixes, txReqStr: string): string
  {
    p.requestPTokens + txReqStr
  }

  function NewWaitingRedeemReqKey(p: Prefixes, beaconHeight: U64, redeemID: string): string
  {
    HeightScoped(p.waitingRedeemRequests, beaconHeight, redeemID)
  }

  function NewRedeemReqKey(p: Prefixes, redeemID: string): string
  {
    p.redeemRequests + redeemID
  }

  function NewTrackRedeemReqByTxReqIDKey(p: Prefixes, txID: string): string
  {
    p.redeemRequestsByTxReqID + txID
  }

  function NewPortalReqUnlockCollateralKey(p: Prefixes, txReqStr: string): string
  {
    p.requestUnlockCollateral + txReqStr
  }

  function NewPortalLiquidationCustodianKey(p: Prefixes, redeemID: string, custodianIncAddrStr: string): string
  {
    p.liquidateCustodian + redeemID + custodianIncAddrStr
  }

  function NewPortalLiquidateTPExchangeRatesKey(p: Prefixes, beaconHeight: U64, custodianIncAddrStr: string): string
  {
    HeightScoped(p.liquidateTopPercentileExchangeRates, beaconHeight, custodianIncAddrStr)
  }

  function NewPortalLiquidateExchangeRatesKey(p: Prefixes, beaconHeight: U64): string
  {
    HeightScoped(p.liquidateExchangeRates, beaconHeight, "liquidation")
  }

  /** The reward key: the prefix and the height, with no dash. */
  function NewPortalRewardKey(p: Prefixes, beaconHeight: U64): string
  {
    p.rewardByBeaconHeight + NatToDec(beaconHeight)
  }

  function NewPortalReqWithdrawRewardKey(p: Prefixes, beaconHeight: U64, custodianAddr: string): string
  {
    HeightScoped(p.requestWithdrawReward, beaconHeight, custodianAddr)
  }

  /** Uses the waiting-redeem prefix with no height. */
  function NewRedeemLiquidateExchangeRatesKey(p: Prefixes, txId: string): string
  {
    p.waitingRedeemRequests + txId
  }

  function NewLiquidationCustodianDepositKey(p: Prefixes, txID: string): string
  {
    p.custodianDeposit + txID
  }

  /** Every height-scoped key reads back under its own prefix as its height
    * and its identifier (a fixed word for the exchange-rate keys). */
  lemma HeightKeysReadBack(p: Prefixes, h: U64, id: string)
    ensures ParseHeightKey(p.custodianState, NewCustodianStateKey(p, h, id)) == Some((h as nat, id))
    ensures ParseHeightKey(p.finalExchangeRates, NewFinalExchangeRatesKey(p, h)) == Some((h as nat, "portal"))
    ensures ParseHeightKey(p.exchangeRates, NewExchangeRatesRequestKey(p, h, id)) == Some((h as nat, id))
    ensures ParseHeightKey(p.waitingPortingRequests, NewWaitingPortingReqKey(p, h, id)) == Some((h as nat, id))
    ensures ParseHeightKey(p.waitingRedeemRequests, NewWaitingRedeemReqKey(p, h, id)) == Some((h as nat, id))
    ensures ParseHeightKey(p.liquidateTopPercentileExchangeRates, NewPortalLiquidateTPExchangeRatesKey(p, h, id))
            == Some((h as nat, id))
    ensures ParseHeightKey(p.liquidateExchangeRates, NewPortalLiquidateExchangeRatesKey(p, h))
            == Some((h as nat, "liquidation"))
    ensures ParseHeightKey(p.requestWithdrawReward, NewPortalReqWithdrawRewardKey(p, h, id)) == Some((h as nat, id))
  {
    HeightKeyRoundTrip(p.custodianState, h, id);
    HeightKeyRoundTrip(p.finalExchangeRates, h, "portal");
    HeightKeyRoundTrip(p.exchangeRates, h, id);
    HeightKeyRoundTrip(p.waitingPortingRequests, h, id);
    HeightKeyRoundTrip(p.waitingRedeemRequests, h, id);
    HeightKeyRoundTrip(p.liquidateTopPercentileExchangeRates, h, id);
    HeightKeyRoundTrip(p.liquidateExchangeRates, h, "liquidation");
    HeightKeyRoundTrip(p.requestWithdrawReward, h, id);
  }

  /** The reward key is the prefix followed by the height's digits and
    * nothing else: it has no dash, so it does not read as a height-scoped
    * key, and different heights give different keys. */
  lemma RewardKeyDigits(p: Prefixes, h: U64)
    ensures var key := NewPortalRewardKey(p, h);
            && |key| > |p.rewardByBeaconHeight| && key[..|p.rewardByBeaconHeight|] == p.rewardByBeaconHeight
            && AllDigits(key[|p.rewardByBeaconHeight|..])
            && DecValue(key[|p.rewardByBeaconHeight|..]) == h
            && ParseHeightKey(p.rewardByBeaconHeight, key).None?
  {
    NatToDecDigits(h);
    var key := NewPortalRewardKey(p, h);
    var rest := key[|p.rewardByBeaconHeight|..];
    assert rest == NatToDec(h);
    assert forall j :: 0 <= j < |rest| ==> rest[j] != '-';
  }

  lemma RewardKeyInjective(p: Prefixes, h1: U64, h2: U64)
    requires h1 != h2
    ensures NewPortalRewardKey(p, h1) != NewPortalRewardKey(p, h2)
  {
    RewardKeyDigits(p, h1);
    RewardKeyDigits(p, h2);
  }

  /** The liquidation deposit key is the custodian deposit key. */
  lemma LiquidationDepositKeyIsCustodianDepositKey(p: Prefixes, txID: string)
    ensures NewLiquidationCustodianDepositKey(p, txID) == NewCustodianDepositKey(p, txID)
  {
  }

  /** The redeem-liquidation key shares the waiting-redeem namespace: an
    * identifier that looks like "height-id" gives a waiting-redeem key. */
  lemma RedeemLiquidateKeyInWaitingRedeemSpace(p: Prefixes, h: U64, id: string)
    ensures NewRedeemLiquidateExchangeRatesKey(p, NatToDec(h) + "-" + id) == NewWaitingRedeemReqKey(p, h, id)
  {
  }

  // ---------------------------------------------------------------------
  // Remote addresses

  datatype RemoteAddress = RemoteAddress(pTokenID: string, address: string)

  /** GetRemoteAddressByTokenID: the address of the first entry for the
    * token, or an error when there is none. */
  method GetRemoteAddressByTokenID(addresses: seq<RemoteAddress>, tokenID: string) returns (r: Result<string>)
    ensures r.Err? <==> forall i :: 0 <= i < |addresses| ==> addresses[i].pTokenID != tokenID
    ensures r.Ok? ==> exists i :: 0 <= i < |addresses| && addresses[i].pTokenID == tokenID
                                  && addresses[i].address == r.value
                                  && forall j :: 0 <= j < i ==> addresses[j].pTokenID != tokenID
  {
    var i := 0;
    while i < |addresses|
      invariant 0 <= i <= |addresses|
      invariant forall j :: 0 <= j < i ==> addresses[j].pTokenID != tokenID
    {
      if addresses[i].pTokenID == tokenID {
        return Ok(addresses[i].address);
      }
      i := i + 1;
    }
    return Err("Can not found address with tokenID");
  }

  // ---------------------------------------------------------------------
  // Rewards

  /** A custodian's reward entry, shared by reference. */
  class PortalRewardInfo {
    var custodianIncAddr: string
    var amount: U64

    constructor(custodianIncAddr: string, amount: U64)
      ensures this.custodianIncAddr == custodianIncAddr && this.amount == amount
    {
      this.custodianIncAddr := custodianIncAddr;
      this.amount := amount;
    }
  }

  /** A reward entry's contents. */
  datatype Reward = Reward(custodianIncAddr: string, amount: U64)

  /** The entries' contents, in order. */
  function Snapshot(rewards: seq<PortalRewardInfo>): (r: seq<Reward>)
    reads set i | 0 <= i < |rewards| :: rewards[i]
    ensures |r| == |rewards|
    ensures forall i :: 0 <= i < |rewards| ==> r[i] == Reward(rewards[i].custodianIncAddr, rewards[i].amount)
  {
    if |rewards| == 0 then []
    else Snapshot(rewards[..|rewards| - 1]) + [Reward(rewards[|rewards| - 1].custodianIncAddr, rewards[|rewards| - 1].amount)]
  }

  /** No entry object appears twice in the list. */
  predicate Distinct(rewards: seq<PortalRewardInfo>)
  {
    forall i, j :: 0 <= i < j < |rewards| ==> rewards[i] != rewards[j]
  }

  /** The first entry for the custodian. */
  function FindCustodian(entries: seq<Reward>, custodianIncAddr: string): (r: Option<nat>)
    ensures r.Some? ==> r.value < |entries| && entries[r.value].custodianIncAddr == custodianIncAddr
                        && forall j :: 0 <= j < r.value ==> entries[j].custodianIncAddr != custodianIncAddr
    ensures r.None? ==> forall j :: 0 <= j < |entries| ==> entries[j].custodianIncAddr != custodianIncAddr
  {
    if |entries| == 0 then None
    else if entries[0].custodianIncAddr == custodianIncAddr then Some(0)
    else match FindCustodian(entries[1..], custodianIncAddr)
      case None => None
      case Some(k) => Some(k + 1)
  }

  /** Adding a reward to the entries' contents: the custodian's first entry
    * grows (with uint64 wrap-around), or a new entry is appended. */
  function Plus(entries: seq<Reward>, custodianIncAddr: string, amount: U64): (r: seq<Reward>)
    ensures match FindCustodian(entries, custodianIncAddr)
            case Some(i) =>
              && |r| == |entries|
              && r[i] == Reward(custodianIncAddr, AddU64(entries[i].amount, amount))
              && forall j :: 0 <= j < |r| && j != i ==> r[j] == entries[j]
            case None => r == entries + [Reward(custodianIncAddr, amount)]
  {
    match FindCustodian(entries, custodianIncAddr)
    case Some(i) => entries[i := Reward(custodianIncAddr, AddU64(entries[i].amount, amount))]
    case None => entries + [Reward(custodianIncAddr, amount)]
  }

  /** Taking a reward off the entries' contents: the custodian's first entry
    * shrinks (with uint64 wrap-around); nothing happens when there is no
    * entry for the custodian. */
  function Minus(entries: seq<Reward>, custodianIncAddr: string, amount: U64): (r: seq<Reward>)
    ensures match FindCustodian(entries, custodianIncAddr)
            case Some(i) =>
              && |r| == |entries|
              && r[i] == Reward(custodianIncAddr, SubU64(entries[i].amount, amount))
              && forall j :: 0 <= j < |r| && j != i ==> r[j] == entries[j]
            case None => r == entries
  {
    match FindCustodian(entries, custodianIncAddr)
    case Some(i) => entries[i := Reward(custodianIncAddr, SubU64(entries[i].amount, amount))]
    case None => entries
  }

  /** Taking back a reward just added restores the entries when the
    * custodian had one and the addition did not wrap; otherwise the
    * appended entry stays, at zero. */
  lemma MinusUndoesPlus(entries: seq<Reward>, custodianIncAddr: string, amount: U64)
    ensures var i := FindCustodian(entries, custodianIncAddr);
            && (i.Some? && entries[i.value].amount + amount < TWO_64 ==>
                  Minus(Plus(entries, custodianIncAddr, amount), custodianIncAddr, amount) == entries)
            && (i.None? ==>
                  Minus(Plus(entries, custodianIncAddr, amount), custodianIncAddr, amount)
                  == entries + [Reward(custodianIncAddr, 0)])
  {
    var p := Plus(entries, custodianIncAddr, amount);
    match FindCustodian(entries, custodianIncAddr)
    case Some(i) =>
      assert FindCustodian(p, custodianIncAddr) == Some(i);
      if entries[i].amount + amount < TWO_64 {
        var m := Minus(p, custodianIncAddr, amount);
        assert forall j :: 0 <= j < |m| ==> m[j] == entries[j];
      }
    case None =>
      assert p[|entries|].custodianIncAddr == custodianIncAddr;
      assert FindCustodian(p, custodianIncAddr) == Some(|entries|);
      var m := Minus(p, custodianIncAddr, amount);
      assert forall j :: 0 <= j < |m| ==> m[j] == (entries + [Reward(custodianIncAddr, 0)])[j];
  }

  /** PlusPortalReward: the custodian's first entry grows in place (every
    * list holding that entry sees it), or a new entry is appended; no other
    * entry changes. With distinct entries, the new contents are Plus of the
    * old ones. */
  method PlusPortalReward(rewards: seq<PortalRewardInfo>, custodianIncAddr: string, amount: U64)
    returns (res: seq<PortalRewardInfo>)
    modifies set i | 0 <= i < |rewards| :: rewards[i]
    ensures forall i :: 0 <= i < |rewards| ==> rewards[i].custodianIncAddr == old(rewards[i].custodianIncAddr)
    ensures match FindCustodian(old(Snapshot(rewards)), custodianIncAddr)
            case Some(i) =>
              && res == rewards
              && rewards[i].amount == AddU64(old(rewards[i].amount), amount)
              && forall j :: 0 <= j < |rewards| && rewards[j] != rewards[i] ==> rewards[j].amount == old(rewards[j].amount)
            case None =>
              && |res| == |rewards| + 1 && res[..|rewards|] == rewards && fresh(res[|rewards|])
              && res[|rewards|].custodianIncAddr == custodianIncAddr && res[|rewards|].amount == amount
              && forall j :: 0 <= j < |rewards| ==> rewards[j].amount == old(rewards[j].amount)
    ensures Distinct(rewards) ==> Snapshot(res) == Plus(old(Snapshot(rewards)), custodianIncAddr, amount)
  {
    ghost var before := Snapshot(rewards);
    var i := 0;
    while i < |rewards|
      invariant 0 <= i <= |rewards|
      invariant forall j :: 0 <= j < i ==> rewards[j].custodianIncAddr != custodianIncAddr
    {
      if rewards[i].custodianIncAddr == custodianIncAddr {
        assert FindCustodian(before, custodianIncAddr) == Some(i);
        rewards[i].amount := AddU64(rewards[i].amount, amount);
        res := rewards;
        assert Distinct(rewards) ==> Snapshot(res) == Plus(before, custodianIncAddr, amount) by {
          if Distinct(rewards) {
            var after := Snapshot(res);
            var want := Plus(before, custodianIncAddr, amount);
            assert forall j :: 0 <= j < |after| ==> after[j] == want[j];
          }
        }
        return;
      }
      i := i + 1;
    }
    assert FindCustodian(before, custodianIncAddr).None?;
    var entry := new PortalRewardInfo(custodianIncAddr, amount);
    res := rewards + [entry];
    assert res[..|rewards|] == rewards;
    assert Snapshot(res) == Plus(before, custodianIncAddr, amount) by {
      var after := Snapshot(res);
      var want := Plus(before, custodianIncAddr, amount);
      assert forall j :: 0 <= j < |after| ==> after[j] == want[j];
    }
  }

  /** MinusPortalReward: the custodian's first entry shrinks in place; no
    * other entry changes, and nothing changes without an entry for the
    * custodian. With distinct entries, the new contents are Minus of the
    * old ones. */
  method MinusPortalReward(rewards: seq<PortalRewardInfo>, custodianIncAddr: string, amount: U64)
    modifies set i | 0 <= i < |rewards| :: rewards[i]
    ensures forall i :: 0 <= i < |rewards| ==> rewards[i].custodianIncAddr == old(rewards[i].custodianIncAddr)
    ensures match FindCustodian(old(Snapshot(rewards)), custodianIncAddr)
            case Some(i) =>
              && rewards[i].amount == SubU64(old(rewards[i].amount), amount)
              && forall j :: 0 <= j < |rewards| && rewards[j] != rewards[i] ==> rewards[j].amount == old(rewards[j].amount)
            case None => forall j :: 0 <= j < |rewards| ==> rewards[j].amount == old(rewards[j].amount)
    ensures Distinct(rewards) ==> Snapshot(rewards) == Minus(old(Snapshot(rewards)), custodianIncAddr, amount)
  {
    ghost var before := Snapshot(rewards);
    var i := 0;
    while i < |rewards|
      invariant 0 <= i <= |rewards|
      invariant forall j :: 0 <= j < i ==> rewards[j].custodianIncAddr != custodianIncAddr
    {
      if rewards[i].custodianIncAddr == custodianIncAddr {
        assert FindCustodian(before, custodianIncAddr) == Some(i);
        rewards[i].amount := SubU64(rewards[i].amount, amount);
        assert Distinct(rewards) ==> Snapshot(rewards) == Minus(before, custodianIncAddr, amount) by {
          if Distinct(rewards) {
            var after := Snapshot(rewards);
            var want := Minus(before, custodianIncAddr, amount);
            assert forall j :: 0 <= j < |after| ==> after[j] == want[j];
          }
        }
        return;
      }
      i := i + 1;
    }
    assert FindCustodian(before, custodianIncAddr).None?;
  }

  // ---------------------------------------------------------------------
  // Exchange rates

  /** Token identifiers; the real values live in the common package, which
    * is not part of this model. Only their distinctness matters. */
  const PortalBTCIDStr: string := "BTC"
  const PortalBNBIDStr: string := "BNB"
  const PRVIDStr: string := "PRV"

  const NANO: nat := 1_000_000_000

  /** The final exchange rates: each token's price in nano pUSDT. */
  datatype FinalExchangeRates = FinalExchangeRates(rates: map<string, U64>)

  /** A token's rate; a token without a rate reads as zero. */
  function RateOf(r: FinalExchangeRates, tokenID: string): U64
  {
    if tokenID in r.rates then r.rates[tokenID] else 0
  }

  /** convert as written: the products are uint64 and wrap around. */
  function ConvertAsWritten(value: U64, ratesFrom: U64, ratesTo: U64): (r: Result<U64>)
    ensures r.Err? <==> ratesTo == 0
    ensures r.Ok? ==> r.value == ((value * ratesFrom) % TWO_64 / NANO * NANO) % TWO_64 / ratesTo
  {
    var total := (value * ratesFrom) % TWO_64 / NANO;
    if ratesTo == 0 then Err("Can not divide zero")
    else Ok((total * NANO) % TWO_64 / ratesTo)
  }

  /** convert as meant: the value in nano pUSDT, cut to whole nano units,
    * over the target rate, computed exactly. */
  function Convert(value: nat, ratesFrom: nat, ratesTo: nat): (r: Result<nat>)
    ensures r.Err? <==> ratesTo == 0
  {
    if ratesTo == 0 then Err("Can not divide zero")
    else Ok(value * ratesFrom / NANO * NANO / ratesTo)
  }

  /** The conversion never overstates the value and loses less than one
    * nano pUSDT and one unit of the target to rounding. */
  lemma ConvertBounds(value: nat, ratesFrom: nat, ratesTo: nat)
    requires ratesTo > 0
    ensures var r := Convert(value, ratesFrom, ratesTo).value;
            && r * ratesTo <= value * ratesFrom
            && value * ratesFrom < r * ratesTo + ratesTo + NANO
  {
    var x := value * ratesFrom;
    var t := x / NANO * NANO;
    assert x - NANO < t <= x;
    var r := t / ratesTo;
    assert t - ratesTo < r * ratesTo <= t;
  }

  /** With no wrap-around the written conversion is the meant one. */
  lemma ConvertAsWrittenWithoutWrap(value: U64, ratesFrom: U64, ratesTo: U64)
    requires ratesTo > 0 && value * ratesFrom < TWO_64
    ensures ConvertAsWritten(value, ratesFrom, ratesTo) == Ok(Convert(value, ratesFrom, ratesTo).value as U64)
  {
    var x := value * ratesFrom;
    assert x % TWO_64 == x;
    var t := x / NANO * NANO;
    assert t <= x;
    assert t % TWO_64 == t;
  }

  /** Ten bitcoin (in nano units) at a price of ten thousand pUSDT, into PRV
    * at one pUSDT: the product wraps and the written conversion gives
    * 200376420 nano PRV instead of 10^14. */
  lemma ConvertWrapCounterexample()
    ensures ConvertAsWritten(10_000_000_000, 10_000_000_000_000, 1_000_000_000) == Ok(200_376_420)
    ensures Convert(10_000_000_000, 10_000_000_000_000, 1_000_000_000) == Ok(100_000_000_000_000)
  {
    var x := 10_000_000_000 * 10_000_000_000_000;
    assert x == 5421 * TWO_64 + 200_376_420_520_689_664;
    assert x % TWO_64 == 200_376_420_520_689_664;
  }

  function ExchangeBTC2PRV(r: FinalExchangeRates, value: nat): Result<nat>
  {
    Convert(value, RateOf(r, PortalBTCIDStr), RateOf(r, PRVIDStr))
  }

  function ExchangeBNB2PRV(r: FinalExchangeRates, value: nat): Result<nat>
  {
    Convert(value, RateOf(r, PortalBNBIDStr), RateOf(r, PRVIDStr))
  }

  function ExchangePRV2BTC(r: FinalExchangeRates, value: nat): Result<nat>
  {
    Convert(value, RateOf(r, PRVIDStr), RateOf(r, PortalBTCIDStr))
  }

  function ExchangePRV2BNB(r: FinalExchangeRates, value: nat): Result<nat>
  {
    Convert(value, RateOf(r, PRVIDStr), RateOf(r, PortalBNBIDStr))
  }

  /** ExchangePToken2PRVByTokenId: BTC and BNB only; the answer is an error
    * for any other token or when PRV has no rate. */
  function ExchangePToken2PRVByTokenId(r: FinalExchangeRates, pTokenId: string, value: nat): (res: Result<nat>)
    ensures res.Ok? <==> (pTokenId == PortalBTCIDStr || pTokenId == PortalBNBIDStr) && RateOf(r, PRVIDStr) > 0
    ensures pTokenId == PortalBTCIDStr ==> res == Convert(value, RateOf(r, PortalBTCIDStr), RateOf(r, PRVIDStr))
    ensures pTokenId == PortalBNBIDStr ==> res == Convert(value, RateOf(r, PortalBNBIDStr), RateOf(r, PRVIDStr))
  {
    if pTokenId == PortalBTCIDStr then ExchangeBTC2PRV(r, value)
    else if pTokenId == PortalBNBIDStr then ExchangeBNB2PRV(r, value)
    else Err("Ptoken is not support")
  }

  /** ExchangePRV2PTokenByTokenId: BTC and BNB only, with the rates the
    * other way round; an error for any other token or when the token has
    * no rate. */
  function ExchangePRV2PTokenByTokenId(r: FinalExchangeRates, pTokenId: string, value: nat): (res: Result<nat>)
    ensures res.Ok? <==> (pTokenId == PortalBTCIDStr || pTokenId == PortalBNBIDStr) && RateOf(r, pTokenId) > 0
    ensures pTokenId == PortalBTCIDStr ==> res == Convert(value, RateOf(r, PRVIDStr), RateOf(r, PortalBTCIDStr))
    ensures pTokenId == PortalBNBIDStr ==> res == Convert(value, RateOf(r, PRVIDStr), RateOf(r, PortalBNBIDStr))
  {
    if pTokenId == PortalBTCIDStr then ExchangePRV2BTC(r, value)
    else if pTokenId == PortalBNBIDStr then ExchangePRV2BNB(r, value)
    else Err("Ptoken is not support")
  }

  /** Exchanging a supported token into PRV and back never yields more of
    * the token than was put in. */
  lemma ExchangeRoundTripNeverGains(r: FinalExchangeRates, pTokenId: string, value: nat)
    requires pTokenId == PortalBTCIDStr || pTokenId == PortalBNBIDStr
    requires RateOf(r, pTokenId) > 0 && RateOf(r, PRVIDStr) > 0
    ensures ExchangePToken2PRVByTokenId(r, pTokenId, value).Ok?
    ensures ExchangePRV2PTokenByTokenId(r, pTokenId, ExchangePToken2PRVByTokenId(r, pTokenId, value).value).value <= value
  {
    var tokenRate := RateOf(r, pTokenId);
    var prvRate := RateOf(r, PRVIDStr);
    var prv := Convert(value, tokenRate, prvRate).value;
    var back := Convert(prv, prvRate, tokenRate).value;
    ConvertBounds(value, tokenRate, prvRate);
    ConvertBounds(prv, prvRate, tokenRate);
    assert back * tokenRate <= prv * prvRate <= value * tokenRate;
    MulMonotone(back, value, tokenRate);
  }

  lemma MulMonotone(a: nat, b: nat, k: nat)
    requires k > 0 && a * k <= b * k
    ensures a <= b
  {
  }
}
