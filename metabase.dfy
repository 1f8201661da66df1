/** What the portal metadata validators see of a transaction and of the
  * wallet, and the shape of their answers. */
module MetaBase {
  import opened Common

  /** Transaction type tags. The values live in the common package, which is
    * not part of this model; the model fixes distinct stand-ins. */
  const TxNormalType: string := "n"
  const TxCustomTokenPrivacyType: string := "tp"

  /** The parts of a transaction the validators read: its type tag, the
    * signer's public key, its hash, whether its concrete Go type is
    * *transaction.Tx, the token it moves and the value it moves, and
    * whether it burns its coins (as answered at the beacon height the
    * validator is called with). */
  datatype Tx = Tx(
    txType: string,
    sigPubKey: seq<Byte>,
    hash: Hash,
    isPlainTx: bool,
    tokenID: string,
    value: U64,
    isCoinsBurning: bool)

  /** ValidateSanityData's (bool, bool, error), with the error named by the
    * check that failed. */
  datatype Sanity<E> = Sanity(ok: bool, txOk: bool, err: Option<E>)

  function Accept<E>(): Sanity<E>
  {
    Sanity(true, true, None)
  }

  function Reject<E>(e: E): Sanity<E>
  {
    Sanity(false, false, Some(e))
  }

  /** An action built by BuildReqActions: the metadata type in decimal and
    * the base64 of the action's JSON. */
  function ReqAction(metaType: int, encoded: string): (r: Instruction)
    ensures |r| == 2 && r[0] == Itoa(metaType) && r[1] == encoded
  {
    [Itoa(metaType), encoded]
  }
}
