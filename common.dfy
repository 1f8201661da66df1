/** Shared vocabulary of the beacon instruction pipeline: optional values and
  * results, Go's fixed-width integers, shard identifiers, instructions as
  * lists of strings, the decimal text of integers (strconv.Itoa and
  * strconv.Atoi) and the metadata type codes that head every instruction. */
module Common {

  datatype Option<T> = None | Some(value: T)

  datatype Result<T> = Ok(value: T) | Err(msg: string)

  /** Go's uint64, int64 and byte ranges. */
  const TWO_64: int := 0x1_0000_0000_0000_0000
  const TWO_63: int := 0x8000_0000_0000_0000
  const TWO_32: int := 0x1_0000_0000

  type U64 = x: int | 0 <= x < TWO_64
  type Byte = x: int | 0 <= x < 256

  /** A shard identifier is a byte. */
  type Shard = Byte

  /** A 32-byte hash (common.Hash), kept as its bytes. */
  type Hash = seq<Byte>

  /** An instruction (and an action) is a list of strings; field 0 is the
    * metadata type written in decimal. */
  type Instruction = seq<string>

  /** uint64 addition and subtraction wrap around. */
  function AddU64(a: U64, b: U64): (r: U64)
    ensures a + b < TWO_64 ==> r == a + b
    ensures a + b >= TWO_64 ==> r == a + b - TWO_64
  {
    (a + b) % TWO_64
  }

  function SubU64(a: U64, b: U64): (r: U64)
    ensures b <= a ==> r == a - b
    ensures a < b ==> r == a - b + TWO_64
  {
    (a - b) % TWO_64
  }

  /** Go's int64(x) for a uint64 x: values from 2^63 on become negative. */
  function ToInt64(x: U64): (r: int)
    ensures -TWO_63 <= r < TWO_63
    ensures (r - x) % TWO_64 == 0
  {
    if x < TWO_63 then x else x - TWO_64
  }

  /** Go's byte(n) for an int n keeps the low 8 bits (two's complement). */
  function ToByte(n: int): (r: Byte)
    ensures 0 <= n < 256 ==> r == n
    ensures (r - n) % 256 == 0
  {
    n % 256
  }

  predicate InInt64(n: int) { -TWO_63 <= n < TWO_63 }

  // ---------------------------------------------------------------------
  // Decimal text of integers

  predicate IsDigit(c: char) { '0' <= c <= '9' }

  function DigitValue(c: char): nat
    requires IsDigit(c)
  {
    (c as int) - ('0' as int)
  }

  function DigitChar(d: nat): (c: char)
    requires d < 10
    ensures IsDigit(c) && DigitValue(c) == d
  {
    (('0' as int) + d) as char
  }

  predicate AllDigits(s: string) { forall i :: 0 <= i < |s| ==> IsDigit(s[i]) }

  /** Value of a non-empty string of decimal digits. */
  function DecValue(s: string): nat
    requires AllDigits(s)
  {
    if |s| == 0 then 0 else 10 * DecValue(s[..|s| - 1]) + DigitValue(s[|s| - 1])
  }

  /** Decimal digits of a natural number, without leading zeros. */
  function NatToDec(n: nat): (s: string)
    decreases n
  {
    if n < 10 then [DigitChar(n)] else NatToDec(n / 10) + [DigitChar(n % 10)]
  }

  lemma {:induction false} NatToDecDigits(n: nat)
    ensures AllDigits(NatToDec(n)) && |NatToDec(n)| > 0
    ensures DecValue(NatToDec(n)) == n
    decreases n
  {
    if n >= 10 {
      NatToDecDigits(n / 10);
      var s := NatToDec(n);
      assert s[..|s| - 1] == NatToDec(n / 10);
    }
  }

  /** strconv.Itoa. */
  function Itoa(n: int): string
  {
    if n < 0 then "-" + NatToDec(-n) else NatToDec(n)
  }

  /** strconv.Atoi on a 64-bit platform: an optional sign, then one or more
    * decimal digits, within the int64 range; anything else is an error. */
  function Atoi(s: string): (r: Option<int>)
    ensures r.Some? ==> InInt64(r.value)
    ensures r.Some? ==> |s| > 0 && (IsDigit(s[0]) || s[0] == '-' || s[0] == '+')
  {
    if |s| == 0 then None
    else
      var neg := s[0] == '-';
      var digits := if s[0] == '-' || s[0] == '+' then s[1..] else s;
      if |digits| == 0 || !AllDigits(digits) then None
      else
        var v: int := if neg then -(DecValue(digits) as int) else DecValue(digits);
        if InInt64(v) then Some(v) else None
  }

  /** Round trip: the decimal text of an int64 parses back to it. */
  lemma ItoaAtoi(n: int)
    requires InInt64(n)
    ensures Atoi(Itoa(n)) == Some(n)
  {
    if n < 0 {
      NatToDecDigits(-n);
      assert Itoa(n)[1..] == NatToDec(-n);
    } else {
      NatToDecDigits(n);
    }
  }

  /** A digit-free string is never the text of an integer. */
  lemma AtoiNeedsDigit(s: string)
    requires forall i :: 0 <= i < |s| ==> !IsDigit(s[i])
    ensures Atoi(s).None?
  {
    if |s| > 1 {
      assert !IsDigit(s[1]);
    }
  }

  /** Distinct integers have distinct decimal texts. */
  lemma ItoaInjective(a: int, b: int)
    requires InInt64(a) && InInt64(b) && a != b
    ensures Itoa(a) != Itoa(b)
  {
    ItoaAtoi(a);
    ItoaAtoi(b);
  }

  // ---------------------------------------------------------------------
  // Metadata type codes. The numeric values live in the metadata package,
  // which is not part of this model; the model fixes distinct stand-ins and
  // relies only on their distinctness.

  const IssuingRequestMeta: int := 24
  const ContractingRequestMeta: int := 26
  const BurningConfirmMeta: int := 72
  const IssuingETHRequestMeta: int := 80
  const PDEContributionMeta: int := 90
  const PDETradeRequestMeta: int := 91
  const PDEWithdrawalRequestMeta: int := 93
  const BurningConfirmForDepositToSCMeta: int := 96
  const PortalCustodianDepositMeta: int := 100
  const PortalUserRegisterMeta: int := 101
  const PortalUserRequestPTokenMeta: int := 103
  const PortalExchangeRatesMeta: int := 107
  const PortalRedeemFromLiquidationPoolMeta: int := 110
  const PortalRequestWithdrawRewardMeta: int := 113
  const PortalRequestWithdrawRewardResponseMeta: int := 114
  const RelayingHeaderMeta: int := 200
  const RelayingBNBHeaderMeta: int := 201
  const RelayingBTCHeaderMeta: int := 202
  const BurningConfirmMetaV2: int := 240
  const BurningConfirmForDepositToSCMetaV2: int := 242
  const PortalShieldingRequestMeta: int := 260
}
