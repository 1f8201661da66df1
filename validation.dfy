/** The committee check on a block's validation data
  * (consensus_v2/blsbft/validation.go): enough validator indices for a
  * two-thirds quorum, in strictly increasing order, checked before the
  * aggregate BLS signature is verified. */
module Validation {
  import opened Common

  /** A block's validation data; the signatures stay opaque bytes. */
  datatype ValidationData = ValidationData(producerBLSSig: seq<Byte>, producerBriSig: seq<Byte>,
                                           validatorsIdx: seq<int>, aggSig: seq<Byte>,
                                           bridgeSig: seq<seq<Byte>>)

  /** A committee member's public keys by consensus scheme. */
  datatype CommitteePublicKey = CommitteePublicKey(miningPubKey: map<string, seq<Byte>>)

  /** The number of indices a committee of `n` members needs. */
  function Quorum(n: nat): nat
  {
    n * 2 / 3 + 1
  }

  /** Every index is below every later one. */
  predicate StrictlyIncreasing(idx: seq<int>)
  {
    forall i, j :: 0 <= i < j < |idx| ==> idx[i] < idx[j]
  }

  /** What the committee check accepts: a non-empty committee, at least a
    * quorum of indices, and strictly increasing indices. The indices are
    * not compared with the committee size. */
  predicate ValidForCommittee(valData: ValidationData, committee: seq<CommitteePublicKey>)
  {
    |committee| >= 1 && |valData.validatorsIdx| >= Quorum(|committee|) && StrictlyIncreasing(valData.validatorsIdx)
  }

  /** CheckValidationDataWithCommittee: the size guards, then a scan of
    * neighbouring indices for a step that does not go up. */
  method CheckValidationDataWithCommittee(valData: ValidationData, committee: seq<CommitteePublicKey>)
    returns (r: bool)
    ensures r <==> ValidForCommittee(valData, committee)
  {
    if |committee| < 1 {
      return false;
    }
    if |valData.validatorsIdx| < Quorum(|committee|) {
      return false;
    }
    var idx := valData.validatorsIdx;
    var i := 0;
    while i < |idx| - 1
      invariant 0 <= i <= |idx| - 1
      invariant forall a, b :: 0 <= a < b <= i ==> idx[a] < idx[b]
    {
      if idx[i] >= idx[i + 1] {
        return false;
      }
      i := i + 1;
    }
    return true;
  }

  /** Accepted indices are distinct and more than two thirds of the
    * committee's size. */
  lemma AcceptedIsSupermajority(valData: ValidationData, committee: seq<CommitteePublicKey>)
    requires ValidForCommittee(valData, committee)
    ensures 3 * |valData.validatorsIdx| > 2 * |committee|
    ensures forall i, j :: 0 <= i < j < |valData.validatorsIdx| ==> valData.validatorsIdx[i] != valData.validatorsIdx[j]
  {
    var n := |committee|;
    assert 3 * (n * 2 / 3) > 2 * n - 3;
  }

  /** The check does not look at the committee's members, and indices past
    * the committee pass: three members and the indices 7, 8, 9. */
  lemma IndicesNotRangeChecked(committee: seq<CommitteePublicKey>)
    requires |committee| == 3
    ensures ValidForCommittee(ValidationData([], [], [7, 8, 9], [], []), committee)
  {
  }

  /** The collaborators: the JSON decoder of the validation field and the
    * aggregate BLS verifier (an error, or whether the signature holds). */
  datatype Verifiers = Verifiers(
    decodeValidationData: string -> Option<ValidationData>,
    verifyBLS: (Hash, seq<Byte>, seq<int>, seq<seq<Byte>>) -> Result<bool>)

  /** The scheme name committee keys are looked up by. */
  const consensusName: string := "bls"

  /** A member's BLS key; a missing key reads as empty. */
  function MiningKey(member: CommitteePublicKey): seq<Byte>
  {
    if consensusName in member.miningPubKey then member.miningPubKey[consensusName] else []
  }

  /** ValidateCommitteeSig: the error, if any. A field that does not decode
    * and validation data the committee check refuses are errors before the
    * BLS verifier is consulted; then the aggregate signature must verify
    * against the members' BLS keys in committee order. */
  function ValidateCommitteeSig(v: Verifiers, validationField: string, blockHash: Hash,
                                committee: seq<CommitteePublicKey>): (r: Option<string>)
    ensures v.decodeValidationData(validationField).None? ==> r.Some?
    ensures var d := v.decodeValidationData(validationField);
            d.Some? ==>
              (!ValidForCommittee(d.value, committee) ==> r.Some?)
              && (ValidForCommittee(d.value, committee) ==>
                    var keys := seq(|committee|, i requires 0 <= i < |committee| => MiningKey(committee[i]));
                    (r.None? <==> v.verifyBLS(blockHash, d.value.aggSig, d.value.validatorsIdx, keys) == Ok(true)))
  {
    match v.decodeValidationData(validationField)
    case None => Some("UnExpectedError: cannot decode validation data")
    case Some(valData) =>
      if !ValidForCommittee(valData, committee) then
        Some("UnExpectedError: validation index is not valid with this committee")
      else
        var committeeBLSKeys := seq(|committee|, i requires 0 <= i < |committee| => MiningKey(committee[i]));
        match v.verifyBLS(blockHash, valData.aggSig, valData.validatorsIdx, committeeBLSKeys)
        case Err(_) => Some("UnExpectedError: BLS verification failed")
        case Ok(false) => Some("UnExpectedError: Invalid Signature!")
        case Ok(true) => None
  }

  /** When the committee check fails, the answer does not depend on the BLS
    * verifier at all: it is the same error whatever the verifier would
    * say. */
  lemma CheckComesBeforeBLS(v1: Verifiers, v2: Verifiers, validationField: string, blockHash: Hash,
                            committee: seq<CommitteePublicKey>)
    requires v1.decodeValidationData == v2.decodeValidationData
    requires var d := v1.decodeValidationData(validationField);
             d.None? || !ValidForCommittee(d.value, committee)
    ensures ValidateCommitteeSig(v1, validationField, blockHash, committee)
            == ValidateCommitteeSig(v2, validationField, blockHash, committee)
    ensures ValidateCommitteeSig(v1, validationField, blockHash, committee).Some?
  {
  }
}
