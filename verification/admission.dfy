/**
 * Admission checks: `CheckTx` of app/abci.go and sitcomapp/sitcomapp.go,
 * and the duplicate test `isValid` of app/app.go. None of them reads the
 * open batch or changes anything.
 */
module Admission {
  import opened Bytes
  import opened Results
  import opened Types
  import opened Machine
  import opened Handlers

  /**
   * `CheckTx` of app/abci.go: the envelope must decode, carry a payload with
   * a non-empty method from the registered `methods`, and the parameters
   * must be signed by the envelope's public key. The checks run in that
   * order and the first that fails decides the code.
   */
  function CheckTx(codecs: Codecs, methods: set<string>, tx: bytes): (code: Code)
    ensures code in {OK, UnmarshalError, UnknownError, EmptyMethod, InvalidMethod, Unauthorized}
    ensures code == UnmarshalError <==> codecs.decodeTx(tx).None?
    ensures code == UnknownError <==> codecs.decodeTx(tx).Some? && codecs.decodeTx(tx).value.payload.None?
    ensures codecs.decodeTx(tx).Some? && codecs.decodeTx(tx).value.payload.Some? ==>
      var t := codecs.decodeTx(tx).value;
      var p := t.payload.value;
      && (code == EmptyMethod <==> p.methodName == "")
      && (code == InvalidMethod <==> p.methodName != "" && p.methodName !in methods)
      && (code == Unauthorized <==>
            p.methodName != "" && p.methodName in methods && !codecs.verify(t.publicKey, p.params, t.signature))
    ensures code == OK <==>
      && codecs.decodeTx(tx).Some? && codecs.decodeTx(tx).value.payload.Some?
      && var t := codecs.decodeTx(tx).value;
         && t.payload.value.methodName != "" && t.payload.value.methodName in methods
         && codecs.verify(t.publicKey, t.payload.value.params, t.signature)
  {
    match codecs.decodeTx(tx)
    case None => UnmarshalError
    case Some(t) =>
      match t.payload
      case None => UnknownError
      case Some(p) =>
        if p.methodName == "" then EmptyMethod
        else if p.methodName !in methods then InvalidMethod
        else if !codecs.verify(t.publicKey, p.params, t.signature) then Unauthorized
        else OK
  }

  /** An empty method name is never admitted, even if it is registered. */
  lemma EmptyMethodRejected(codecs: Codecs, methods: set<string>, tx: bytes)
    requires codecs.decodeTx(tx).Some? && codecs.decodeTx(tx).value.payload.Some?
    requires codecs.decodeTx(tx).value.payload.value.methodName == ""
    ensures CheckTx(codecs, methods, tx) == EmptyMethod
  {
  }

  /**
   * `isValid` of app/app.go: a `key=value` transaction is a duplicate when
   * the committed store already maps `key` to exactly `value`; anything not
   * of that shape is EncodingError.
   */
  function IsValid(db: Store, tx: bytes): (code: Code)
    ensures var parts := Split(tx, Eq);
            && code in {OK, EncodingError, DuplicateKey}
            && (code == EncodingError <==> |parts| != 2)
            && (code == DuplicateKey <==> |parts| == 2 && parts[0] in db && db[parts[0]] == parts[1])
  {
    var parts := Split(tx, Eq);
    if |parts| != 2 then EncodingError
    else if parts[0] in db && db[parts[0]] == parts[1] then DuplicateKey
    else OK
  }

  /** Once `key=value` is in the store, resubmitting it is a duplicate; a new value for the key is not. */
  lemma ResubmissionIsDuplicate(db: Store, key: bytes, value: bytes, other: bytes)
    requires Eq !in key && Eq !in value && Eq !in other && other != value
    ensures IsValid(db[key := value], key + [Eq] + value) == DuplicateKey
    ensures IsValid(db[key := value], key + [Eq] + other) == OK
  {
    SplitTwo(key, value, Eq);
    SplitTwo(key, other, Eq);
  }
}
