/**
 * `DeliverTx` of app/abci.go: the transaction is a protobuf envelope whose
 * payload names a method; its writes go to the open block's batch, never
 * to the committed store.
 */
module Envelope {
  import opened Bytes
  import opened Ints
  import opened Results
  import opened Types
  import opened Machine
  import opened Validators

  /**
   * The `GiveBadge` method: the badge with its giver cleared is the key, the
   * raw parameters the value, so a badge is recorded once per student,
   * competence and semester whoever gives it.
   */
  function GiveBadge(st: AppState, codecs: Codecs, params: bytes): (r: (AppState, Code))
    ensures r.1 in {OK, UnmarshalError, EncodingError}
    ensures r.1 == UnmarshalError <==> codecs.decodeBadge(params).None?
    ensures r.1 == EncodingError <==>
              codecs.decodeBadge(params).Some? && codecs.encodeBadge(codecs.decodeBadge(params).value.(giver := None)).None?
    ensures r.1 != OK ==> r.0 == st
    ensures r.1 == OK ==>
      var key := codecs.encodeBadge(codecs.decodeBadge(params).value.(giver := None)).value;
      r.0 == st.(batch := st.batch[key := Some(params)], size := IncU64(st.size))
  {
    match codecs.decodeBadge(params)
    case None => (st, UnmarshalError)
    case Some(badge) =>
      match codecs.encodeBadge(badge.(giver := None))
      case None => (st, EncodingError)
      case Some(key) => (st.(batch := st.batch[key := Some(params)], size := IncU64(st.size)), OK)
  }

  /**
   * The same badge given twice, by anyone, occupies one batch entry: the
   * second write replaces the first and the pending value is the later
   * parameters.
   */
  lemma GiverIgnored(st: AppState, codecs: Codecs, p1: bytes, p2: bytes)
    requires codecs.decodeBadge(p1).Some? && codecs.decodeBadge(p2).Some?
    requires codecs.decodeBadge(p1).value.(giver := None) == codecs.decodeBadge(p2).value.(giver := None)
    requires GiveBadge(st, codecs, p1).1 == OK
    ensures var st1 := GiveBadge(st, codecs, p1).0;
            var key := codecs.encodeBadge(codecs.decodeBadge(p1).value.(giver := None)).value;
            && GiveBadge(st1, codecs, p2).1 == OK
            && GiveBadge(st1, codecs, p2).0.batch == st.batch[key := Some(p2)]
  {
    var key := codecs.encodeBadge(codecs.decodeBadge(p1).value.(giver := None)).value;
    assert st.batch[key := Some(p1)][key := Some(p2)] == st.batch[key := Some(p2)];
  }

  /**
   * `DeliverTx` of app/abci.go. An undecodable envelope is UnmarshalError;
   * a missing payload (a nil dereference in Go) is UnknownError;
   * `SetValidator` answers as `setValidator` does and counts the transaction
   * whatever that answer; `GiveBadge` as above; any other method is
   * InvalidMethod. Nothing is written to the committed store.
   */
  function DeliverTx(st: AppState, codecs: Codecs, tx: bytes): (r: (AppState, Code))
    ensures r.0.db == st.db && r.0.height == st.height && r.0.appHash == st.appHash
    ensures codecs.decodeTx(tx).None? ==> r == (st, UnmarshalError)
    ensures codecs.decodeTx(tx).Some? && codecs.decodeTx(tx).value.payload.None? ==> r == (st, UnknownError)
    ensures codecs.decodeTx(tx).Some? && codecs.decodeTx(tx).value.payload.Some? ==>
      var p := codecs.decodeTx(tx).value.payload.value;
      && (p.methodName == "SetValidator" ==>
            var (st', code) := SetValidator(st, codecs, p.params);
            r == (st'.(size := IncU64(st.size)), code))
      && (p.methodName == "GiveBadge" ==> r == GiveBadge(st, codecs, p.params))
      && (p.methodName != "SetValidator" && p.methodName != "GiveBadge" ==> r == (st, InvalidMethod))
  {
    match codecs.decodeTx(tx)
    case None => (st, UnmarshalError)
    case Some(t) =>
      match t.payload
      case None => (st, UnknownError)
      case Some(p) =>
        if p.methodName == "SetValidator" then
          var (st', code) := SetValidator(st, codecs, p.params);
          (st'.(size := IncU64(st'.size)), code)
        else if p.methodName == "GiveBadge" then GiveBadge(st, codecs, p.params)
        else (st, InvalidMethod)
  }

  /**
   * A block's deliveries touch only the batch, the count and the validator
   * update map: the committed store, which queries read, is the same before
   * and after any sequence of them.
   */
  function DeliverAll(st: AppState, codecs: Codecs, txs: seq<bytes>): AppState
    decreases |txs|
  {
    if txs == [] then st else DeliverAll(DeliverTx(st, codecs, txs[0]).0, codecs, txs[1..])
  }

  lemma {:induction false} DeliverAllKeepsStore(st: AppState, codecs: Codecs, txs: seq<bytes>)
    ensures var st' := DeliverAll(st, codecs, txs);
            st'.db == st.db && st'.height == st.height && st'.appHash == st.appHash
            && st'.valUpdates == st.valUpdates && st'.addrToPubKey == st.addrToPubKey
    decreases |txs|
  {
    if txs != [] {
      DeliverAllKeepsStore(DeliverTx(st, codecs, txs[0]).0, codecs, txs[1..]);
    }
  }
}
