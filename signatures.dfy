/** Signature checks of the chain scripts. The ECDSA arithmetic (secp256k1, NIST
    P-384) is a pair of uninterpreted functions; what is modelled is the order in
    which the inputs are decoded and which failures are caught. */
module Signatures {
  import opened Wrappers
  import opened Text

  /** A curve of the signature library: which byte strings `from_string` accepts
      as a public key, and which (key, signature, message) triples `verify` accepts. */
  datatype Curve = Curve(isPoint: seq<byte> -> bool, accepts: (seq<byte>, seq<byte>, string) -> bool)

  /** `Wallet.verify_signature` of saxv_chain_v2, saxv_chain_v3 and saxv_chain_v4_gui:
      every step runs inside the `try`, but only `BadSignatureError` is caught.
      `message` is the sorted-key JSON text of the transaction. */
  function VerifySignature(curve: Curve, publicKeyHex: string, message: string, signatureHex: string): (r: Outcome<bool>)
    ensures r == Returned(true) <==>
              && FromHex(publicKeyHex).Some? && curve.isPoint(FromHex(publicKeyHex).value)
              && FromHex(signatureHex).Some?
              && curve.accepts(FromHex(publicKeyHex).value, FromHex(signatureHex).value, message)
    ensures r == Returned(false) <==>
              && FromHex(publicKeyHex).Some? && curve.isPoint(FromHex(publicKeyHex).value)
              && FromHex(signatureHex).Some?
              && !curve.accepts(FromHex(publicKeyHex).value, FromHex(signatureHex).value, message)
    ensures r == Raised(ValueError) <==>
              FromHex(publicKeyHex).None? || (curve.isPoint(FromHex(publicKeyHex).value) && FromHex(signatureHex).None?)
    ensures r == Raised(LibraryError) <==> FromHex(publicKeyHex).Some? && !curve.isPoint(FromHex(publicKeyHex).value)
  {
    match FromHex(publicKeyHex)
    case None => Raised(ValueError)
    case Some(key) =>
      if !curve.isPoint(key) then Raised(LibraryError)
      else
        match FromHex(signatureHex)
        case None => Raised(ValueError)
        case Some(sig) => Returned(curve.accepts(key, sig, message))
  }

  /** A key and a signature written with `.hex()`, as a wallet hands them out,
      are decoded back exactly, so the answer is the curve's own verdict. */
  lemma HexEncodedVerifies(curve: Curve, key: seq<byte>, message: string, sig: seq<byte>)
    requires curve.isPoint(key)
    ensures VerifySignature(curve, ToHex(key), message, ToHex(sig)) == Returned(curve.accepts(key, sig, message))
  {
    FromHexToHex(key);
    FromHexToHex(sig);
  }

  /** A transaction dictionary of the mini v7 scripts and of v8_auto_sync, which
      are signed over their `message` text. `None` is a missing key. */
  datatype SignedTx = SignedTx(sender: Option<string>, recipient: string, amount: int,
                               message: Option<string>, signature: Option<string>)

  /** `verify_transaction` of saxv_chain_mini_v7, its pseudo multi-node and its GUI
      variants: the three lookups and the signature's `bytes.fromhex` run before
      the `try` and raise; everything inside the `try` fails as `False`. */
  function VerifyTransaction(curve: Curve, tx: SignedTx): (r: Outcome<bool>)
    ensures r.Raised? <==> tx.sender.None? || tx.signature.None? || FromHex(tx.signature.value).None? || tx.message.None?
    ensures r.Raised? && tx.sender.Some? && tx.signature.Some? && FromHex(tx.signature.value).None? ==> r == Raised(ValueError)
    ensures r == Returned(true) <==>
              && tx.sender.Some? && tx.signature.Some? && tx.message.Some?
              && FromHex(tx.signature.value).Some? && FromHex(tx.sender.value).Some?
              && curve.isPoint(FromHex(tx.sender.value).value)
              && curve.accepts(FromHex(tx.sender.value).value, FromHex(tx.signature.value).value, tx.message.value)
  {
    if tx.sender.None? then Raised(KeyError)
    else if tx.signature.None? then Raised(KeyError)
    else match FromHex(tx.signature.value)
      case None => Raised(ValueError)
      case Some(sig) =>
        if tx.message.None? then Raised(KeyError)
        else match FromHex(tx.sender.value)
          case None => Returned(false)
          case Some(key) => Returned(curve.isPoint(key) && curve.accepts(key, sig, tx.message.value))
  }

  /** A bad sender key is only `False` there, unlike in `verify_signature`. */
  lemma BadSenderHexIsFalse(curve: Curve, tx: SignedTx)
    requires tx.sender.Some? && tx.signature.Some? && tx.message.Some?
    requires FromHex(tx.signature.value).Some? && FromHex(tx.sender.value).None?
    ensures VerifyTransaction(curve, tx) == Returned(false)
    ensures VerifySignature(curve, tx.sender.value, tx.message.value, tx.signature.value) == Raised(ValueError)
  {
  }

  /** `verify_tx` of v8_auto_sync: the whole body sits in the `try` with a bare
      `except`, so it never raises; it answers `True` exactly when the mini v7
      check returns `True`. */
  function VerifyTx(curve: Curve, tx: SignedTx): (ok: bool)
    ensures ok <==> VerifyTransaction(curve, tx) == Returned(true)
  {
    && tx.sender.Some? && FromHex(tx.sender.value).Some? && curve.isPoint(FromHex(tx.sender.value).value)
    && tx.signature.Some? && FromHex(tx.signature.value).Some? && tx.message.Some?
    && curve.accepts(FromHex(tx.sender.value).value, FromHex(tx.signature.value).value, tx.message.value)
  }
}
