/**
 * The validator-set manager. Two snapshots of `updateValidator` exist: the
 * one of sitcomapp/sitcomapp.go, app/commit.go and app/app.go writes the
 * store directly under `"val:" + raw key bytes`, keeps the address index and
 * appends to the update list; the one of app/validator.go writes the block
 * batch under `"val:" + base64(key)` and records the update in a map keyed
 * by the base64 key. Both are here, with the paths that reach each.
 */
module Validators {
  import opened Bytes
  import opened Ints
  import opened Results
  import opened Types
  import opened Machine
  import opened ValidatorTx
  import Base64

  /** The store key of sitcomapp/sitcomapp.go: `"val:" + string(v.PubKey.Data)`. */
  function ValidatorKey(data: bytes): (key: bytes)
    ensures IsValidatorTx(key) && key[|Prefix|..] == data
  {
    Prefix + data
  }

  /** `updateValidator` of sitcomapp/sitcomapp.go (identical in app/commit.go and app/app.go). */
  function UpdateValidator(st: AppState, codecs: Codecs, v: ValidatorUpdate): (r: (AppState, Code))
    ensures var (st', code) := r; var key := ValidatorKey(v.pubKey.data); var addr := codecs.address(v.pubKey.data);
      && code in {OK, Unauthorized, EncodingError}
      && (code == Unauthorized <==> v.power == 0 && key !in st.db)
      && (code == EncodingError <==> v.power != 0 && codecs.writeMessage(v).None?)
      && (code != OK ==> st' == st)
      && (code == OK ==>
            && st'.valUpdates == st.valUpdates + [v]
            && st'.db - {key} == st.db - {key}
            && st'.addrToPubKey - {addr} == st.addrToPubKey - {addr}
            && (v.power == 0 ==> key !in st'.db && addr !in st'.addrToPubKey)
            && (v.power != 0 ==> key in st'.db && st'.db[key] == codecs.writeMessage(v).value
                                 && addr in st'.addrToPubKey && st'.addrToPubKey[addr] == v.pubKey))
      && st' == st.(db := st'.db, valUpdates := st'.valUpdates, addrToPubKey := st'.addrToPubKey)
  {
    var key := ValidatorKey(v.pubKey.data);
    var addr := codecs.address(v.pubKey.data);
    if v.power == 0 then
      if key !in st.db then (st, Unauthorized)
      else (st.(db := st.db - {key}, addrToPubKey := st.addrToPubKey - {addr},
                valUpdates := st.valUpdates + [v]), OK)
    else
      match codecs.writeMessage(v)
      case None => (st, EncodingError)
      case Some(value) =>
        (st.(db := st.db[key := value], addrToPubKey := st.addrToPubKey[addr := v.pubKey],
             valUpdates := st.valUpdates + [v]), OK)
  }

  /**
   * The validator lifecycle: adding a validator makes its key present,
   * removing it makes the key absent, and removing it again is refused
   * with nothing changed.
   */
  lemma ValidatorLifecycle(st: AppState, codecs: Codecs, pubKey: PubKey, power: int64)
    requires power != 0 && codecs.writeMessage(ValidatorUpdate(pubKey, power)).Some?
    ensures var key := ValidatorKey(pubKey.data);
            var (st1, c1) := UpdateValidator(st, codecs, ValidatorUpdate(pubKey, power));
            var (st2, c2) := UpdateValidator(st1, codecs, ValidatorUpdate(pubKey, 0));
            && c1 == OK && key in st1.db
            && c2 == OK && key !in st2.db
            && st2.valUpdates == st.valUpdates + [ValidatorUpdate(pubKey, power), ValidatorUpdate(pubKey, 0)]
            && UpdateValidator(st2, codecs, ValidatorUpdate(pubKey, 0)) == (st2, Unauthorized)
  {
    var (st1, c1) := UpdateValidator(st, codecs, ValidatorUpdate(pubKey, power));
    assert st1.valUpdates == st.valUpdates + [ValidatorUpdate(pubKey, power)];
  }

  /** `execValidatorTx`: parse `val:<base64>!<power>`, then update; any parse failure is EncodingError with no change. */
  function ExecValidatorTx(st: AppState, codecs: Codecs, tx: bytes): (r: (AppState, Code))
    requires IsValidatorTx(tx)
    ensures Parse(tx).Err? ==> r == (st, EncodingError)
    ensures Parse(tx).Ok? ==> r == UpdateValidator(st, codecs, Ed25519Update(Parse(tx).value.0, Parse(tx).value.1))
  {
    match Parse(tx)
    case Err(_) => (st, EncodingError)
    case Ok((key, power)) => UpdateValidator(st, codecs, Ed25519Update(key, power))
  }

  /** Round trip: the transaction `MakeValSetChangeTx` builds reaches `updateValidator` with the same key and power. */
  lemma ExecMakeValSetChangeTx(st: AppState, codecs: Codecs, pubKey: PubKey, power: int64)
    ensures ExecValidatorTx(st, codecs, MakeValSetChangeTx(pubKey, power))
         == UpdateValidator(st, codecs, Ed25519Update(pubKey.data, power))
  {
    ParseMake(pubKey, power);
  }

  // ---- app/validator.go: the batch-based snapshot ----

  /** The key of app/validator.go: `"val:" + base64(pubkey)`. */
  function BatchedKey(data: bytes): (key: bytes)
    ensures IsValidatorTx(key) && key[|Prefix|..] == Base64.Encode(data)
  {
    Prefix + Base64.Encode(data)
  }

  /** What the `View` call of app/validator.go:57-63 returns. */
  datatype ViewError = NoError | KeyNotFound

  /**
   * As written, the closure passed to `View` returns the lookup error only
   * when it is not ErrKeyNotFound, so `View` reports no error whether or not
   * the key is present.
   */
  function RemovalViewAsWritten(db: Store, key: bytes): ViewError {
    var getError := if key in db then NoError else KeyNotFound;
    if getError != KeyNotFound then getError else NoError
  }

  /**
   * `updateValidator` of app/validator.go as written: the removal branch
   * tests `err != badger.ErrKeyNotFound`, which always holds.
   */
  function UpdateValidatorBatchedAsWritten(st: AppState, codecs: Codecs, v: ValidatorUpdate): (r: (AppState, Code))
    ensures v.power == 0 ==> r == (st, Unauthorized)
  {
    var key := BatchedKey(v.pubKey.data);
    if v.power == 0 && RemovalViewAsWritten(st.db, key) != KeyNotFound then (st, Unauthorized)
    else
      var write := if v.power == 0 then Some(None) else
        match codecs.writeMessage(v) case None => None case Some(value) => Some(Some(value));
      if write.None? then (st, EncodingError)
      else (st.(batch := st.batch[key := write.value],
                valUpdateMap := st.valUpdateMap[Base64.Encode(v.pubKey.data) := v]), OK)
  }

  /** The defect: removing a validator that is in the store is refused as if it were absent. */
  lemma RemovalOfPresentValidatorRefused(st: AppState, codecs: Codecs, data: bytes)
    requires BatchedKey(data) in st.db
    ensures UpdateValidatorBatchedAsWritten(st, codecs, Ed25519Update(data, 0)).1 == Unauthorized
    ensures UpdateValidatorBatched(st, codecs, Ed25519Update(data, 0)).1 == OK
  {
  }

  /**
   * `updateValidator` of app/validator.go, with the removal check as evidently
   * intended: power 0 deletes the key through the batch if the committed
   * store holds it and is refused otherwise; any other power (negative
   * included) upserts the encoded update into the batch. On success the
   * update is recorded under the base64 key, so later updates of the same
   * validator in a block replace earlier ones. The committed store is never
   * written.
   */
  function UpdateValidatorBatched(st: AppState, codecs: Codecs, v: ValidatorUpdate): (r: (AppState, Code))
    ensures var (st', code) := r; var key := BatchedKey(v.pubKey.data); var id := Base64.Encode(v.pubKey.data);
      && code in {OK, Unauthorized, EncodingError}
      && (code == Unauthorized <==> v.power == 0 && key !in st.db)
      && (code == EncodingError <==> v.power != 0 && codecs.writeMessage(v).None?)
      && (code != OK ==> st' == st)
      && (code == OK ==>
            && st'.valUpdateMap == st.valUpdateMap[id := v]
            && (v.power == 0 ==> st'.batch == st.batch[key := None])
            && (v.power != 0 ==> st'.batch == st.batch[key := Some(codecs.writeMessage(v).value)]))
      && st' == st.(batch := st'.batch, valUpdateMap := st'.valUpdateMap)
  {
    var key := BatchedKey(v.pubKey.data);
    var id := Base64.Encode(v.pubKey.data);
    if v.power == 0 then
      if key !in st.db then (st, Unauthorized)
      else (st.(batch := st.batch[key := None], valUpdateMap := st.valUpdateMap[id := v]), OK)
    else
      match codecs.writeMessage(v)
      case None => (st, EncodingError)
      case Some(value) =>
        (st.(batch := st.batch[key := Some(value)], valUpdateMap := st.valUpdateMap[id := v]), OK)
  }

  /** Two successful updates of one validator in a block leave one entry, the later one. */
  lemma UpdatesCollapse(st: AppState, codecs: Codecs, v1: ValidatorUpdate, v2: ValidatorUpdate)
    requires v1.pubKey.data == v2.pubKey.data
    requires UpdateValidatorBatched(st, codecs, v1).1 == OK
    requires UpdateValidatorBatched(UpdateValidatorBatched(st, codecs, v1).0, codecs, v2).1 == OK
    ensures var st2 := UpdateValidatorBatched(UpdateValidatorBatched(st, codecs, v1).0, codecs, v2).0;
            st2.valUpdateMap == st.valUpdateMap[Base64.Encode(v2.pubKey.data) := v2]
  {
  }

  /**
   * `setValidator` of app/validator.go: bad JSON is UnmarshalError, a public
   * key that is not base64 is DecodingError, both without change; otherwise
   * an Ed25519 update with the given power.
   */
  function SetValidator(st: AppState, codecs: Codecs, params: bytes): (r: (AppState, Code))
    ensures codecs.decodeSetValidator(params).None? ==> r == (st, UnmarshalError)
    ensures codecs.decodeSetValidator(params).Some? ==>
      var p := codecs.decodeSetValidator(params).value;
      && (Base64.Decode(p.publicKey).None? ==> r == (st, DecodingError))
      && (Base64.Decode(p.publicKey).Some? ==>
            r == UpdateValidatorBatched(st, codecs, Ed25519Update(Base64.Decode(p.publicKey).value, p.power)))
  {
    match codecs.decodeSetValidator(params)
    case None => (st, UnmarshalError)
    case Some(p) =>
      match Base64.Decode(p.publicKey)
      case None => (st, DecodingError)
      case Some(key) => UpdateValidatorBatched(st, codecs, Ed25519Update(key, p.power))
  }

  // ---- block lifecycle: InitChain and BeginBlock of sitcomapp/sitcomapp.go ----

  /** `InitChain`: every initial validator goes through `updateValidator`; failures are only logged. */
  function InitChain(st: AppState, codecs: Codecs, validators: seq<ValidatorUpdate>): (r: AppState)
    ensures r.batch == st.batch && r.size == st.size && r.height == st.height
            && r.appHash == st.appHash && r.valUpdateMap == st.valUpdateMap
    ensures |st.valUpdates| <= |r.valUpdates| <= |st.valUpdates| + |validators|
    ensures r.valUpdates[..|st.valUpdates|] == st.valUpdates
    ensures forall i | |st.valUpdates| <= i < |r.valUpdates| :: r.valUpdates[i] in validators
    decreases |validators|
  {
    if validators == [] then st
    else InitChain(UpdateValidator(st, codecs, validators[0]).0, codecs, validators[1..])
  }

  /** Every seeded validator is reported, in order. */
  lemma {:induction false} InitChainReports(st: AppState, codecs: Codecs, validators: seq<ValidatorUpdate>)
    requires forall v | v in validators :: v.power != 0 && codecs.writeMessage(v).Some?
    ensures InitChain(st, codecs, validators).valUpdates == st.valUpdates + validators
    decreases |validators|
  {
    if validators != [] {
      var v, rest := validators[0], validators[1..];
      assert v in validators;
      var next := UpdateValidator(st, codecs, v).0;
      SeedOne(st, codecs, v);
      assert forall u | u in rest :: u in validators;
      InitChainReports(next, codecs, rest);
      AppendFirst(st.valUpdates, validators);
    }
  }

  lemma AppendFirst<T>(xs: seq<T>, ys: seq<T>)
    requires ys != []
    ensures (xs + [ys[0]]) + ys[1..] == xs + ys
  {
    assert ys == [ys[0]] + ys[1..];
  }

  /** Seeding removes no stored key. */
  lemma {:induction false} InitChainKeeps(st: AppState, codecs: Codecs, validators: seq<ValidatorUpdate>)
    requires forall v | v in validators :: v.power != 0 && codecs.writeMessage(v).Some?
    ensures st.db.Keys <= InitChain(st, codecs, validators).db.Keys
    decreases |validators|
  {
    if validators != [] {
      var v, rest := validators[0], validators[1..];
      assert v in validators;
      SeedOne(st, codecs, v);
      assert forall u | u in rest :: u in validators;
      var next := UpdateValidator(st, codecs, v).0;
      InitChainKeeps(next, codecs, rest);
      assert InitChain(st, codecs, validators) == InitChain(next, codecs, rest);
    }
  }

  /**
   * A roster of validators with non-zero, encodable powers is seeded in full:
   * each one's key is in the store, and each is reported, in order.
   */
  lemma {:induction false} InitChainSeeds(st: AppState, codecs: Codecs, validators: seq<ValidatorUpdate>)
    requires forall v | v in validators :: v.power != 0 && codecs.writeMessage(v).Some?
    ensures var st' := InitChain(st, codecs, validators);
            && st'.valUpdates == st.valUpdates + validators
            && st.db.Keys <= st'.db.Keys
            && forall v | v in validators :: ValidatorKey(v.pubKey.data) in st'.db
    decreases |validators|
  {
    InitChainReports(st, codecs, validators);
    InitChainKeeps(st, codecs, validators);
    if validators != [] {
      var v, rest := validators[0], validators[1..];
      assert v in validators;
      var next := UpdateValidator(st, codecs, v).0;
      SeedOne(st, codecs, v);
      assert forall u | u in rest :: u in validators;
      InitChainSeeds(next, codecs, rest);
      InitChainKeeps(next, codecs, rest);
      assert forall u | u in validators :: u == v || u in rest;
    }
  }

  /** One seeded validator: it is reported, its key is stored and no stored key is lost. */
  lemma SeedOne(st: AppState, codecs: Codecs, v: ValidatorUpdate)
    requires v.power != 0 && codecs.writeMessage(v).Some?
    ensures var st' := UpdateValidator(st, codecs, v).0;
            && st'.valUpdates == st.valUpdates + [v]
            && st.db.Keys <= st'.db.Keys
            && ValidatorKey(v.pubKey.data) in st'.db
  {
  }

  /** The penalty of one piece of evidence: DuplicateVote with non-zero power lowers it by one. */
  function Penalize(st: AppState, codecs: Codecs, ev: Evidence): (r: AppState)
    ensures !(ev.kind == DuplicateVote && ev.totalVotingPower != 0) ==> r == st
    ensures r.batch == st.batch && r.size == st.size && r.height == st.height
            && r.appHash == st.appHash && r.valUpdateMap == st.valUpdateMap
    ensures |st.valUpdates| <= |r.valUpdates| <= |st.valUpdates| + 1
    ensures r.valUpdates[..|st.valUpdates|] == st.valUpdates
    ensures |r.valUpdates| > |st.valUpdates| ==> r.valUpdates[|st.valUpdates|].power == DecI64(ev.totalVotingPower)
  {
    if ev.kind == DuplicateVote && ev.totalVotingPower != 0 then
      var pubKey := if ev.address in st.addrToPubKey then st.addrToPubKey[ev.address] else PubKey("", []);
      UpdateValidator(st, codecs, ValidatorUpdate(pubKey, DecI64(ev.totalVotingPower))).0
    else st
  }

  function ApplyEvidence(st: AppState, codecs: Codecs, evidence: seq<Evidence>): (r: AppState)
    ensures r.batch == st.batch && r.size == st.size && r.height == st.height
            && r.appHash == st.appHash && r.valUpdateMap == st.valUpdateMap
    ensures |st.valUpdates| <= |r.valUpdates| <= |st.valUpdates| + |evidence|
    ensures r.valUpdates[..|st.valUpdates|] == st.valUpdates
    decreases |evidence|
  {
    if evidence == [] then st else ApplyEvidence(Penalize(st, codecs, evidence[0]), codecs, evidence[1..])
  }

  /**
   * `BeginBlock`: a fresh write batch (app/abci.go), an emptied update list,
   * then the evidence penalties in order (sitcomapp/sitcomapp.go).
   */
  function BeginBlock(st: AppState, codecs: Codecs, evidence: seq<Evidence>): (r: AppState)
    ensures r.batch == map[] && r.size == st.size && r.height == st.height && r.appHash == st.appHash
    ensures |r.valUpdates| <= |evidence|
  {
    ApplyEvidence(st.(batch := map[], valUpdates := []), codecs, evidence)
  }

  /**
   * One piece of DuplicateVote evidence with non-zero power lowers by one the
   * power of the validator its address names, or of the empty key when the
   * address is unknown: an accepted update is appended to the list, a
   * refused one changes nothing.
   */
  lemma PenalizeIssues(st: AppState, codecs: Codecs, ev: Evidence)
    requires ev.kind == DuplicateVote && ev.totalVotingPower != 0
    ensures var pk := if ev.address in st.addrToPubKey then st.addrToPubKey[ev.address] else PubKey("", []);
            var u := ValidatorUpdate(pk, DecI64(ev.totalVotingPower));
            var (st', code) := UpdateValidator(st, codecs, u);
            && Penalize(st, codecs, ev) == st'
            && (code == OK ==> st'.valUpdates == st.valUpdates + [u])
            && (code != OK ==> st' == st)
  {
  }

  /** Evidence is handled in the order it is listed: the last piece is penalised last. */
  lemma {:induction false} ApplyEvidenceInOrder(st: AppState, codecs: Codecs, evidence: seq<Evidence>, ev: Evidence)
    ensures ApplyEvidence(st, codecs, evidence + [ev]) == Penalize(ApplyEvidence(st, codecs, evidence), codecs, ev)
    decreases |evidence|
  {
    if evidence == [] {
      assert [] + [ev] == [ev];
      assert [ev][1..] == [];
    } else {
      assert (evidence + [ev])[0] == evidence[0];
      assert (evidence + [ev])[1..] == evidence[1..] + [ev];
      ApplyEvidenceInOrder(Penalize(st, codecs, evidence[0]), codecs, evidence[1..], ev);
    }
  }

  /** An update some DuplicateVote evidence with non-zero power asks for. */
  ghost predicate IsPenalty(u: ValidatorUpdate, evidence: seq<Evidence>) {
    exists ev | ev in evidence :: ev.kind == DuplicateVote && ev.totalVotingPower != 0
                                  && u.power == DecI64(ev.totalVotingPower)
  }

  lemma {:induction false} ApplyEvidenceAppends(st: AppState, codecs: Codecs, evidence: seq<Evidence>)
    ensures var st' := ApplyEvidence(st, codecs, evidence);
            && |st.valUpdates| <= |st'.valUpdates| <= |st.valUpdates| + |evidence|
            && st'.valUpdates[..|st.valUpdates|] == st.valUpdates
            && (forall i | |st.valUpdates| <= i < |st'.valUpdates| :: IsPenalty(st'.valUpdates[i], evidence))
            && st'.batch == st.batch && st'.size == st.size && st'.height == st.height
            && st'.appHash == st.appHash && st'.valUpdateMap == st.valUpdateMap
    decreases |evidence|
  {
    if evidence != [] {
      var ev := evidence[0];
      var next := Penalize(st, codecs, ev);
      ApplyEvidenceAppends(next, codecs, evidence[1..]);
      var st' := ApplyEvidence(st, codecs, evidence);
      assert next.valUpdates[..|st.valUpdates|] == st.valUpdates;
      forall i | |st.valUpdates| <= i < |st'.valUpdates|
        ensures IsPenalty(st'.valUpdates[i], evidence)
      {
        if i < |next.valUpdates| {
          assert st'.valUpdates[i] == next.valUpdates[i];
          assert ev in evidence;
        } else {
          assert IsPenalty(st'.valUpdates[i], evidence[1..]);
          var ev' :| ev' in evidence[1..] && ev'.kind == DuplicateVote && ev'.totalVotingPower != 0
                     && st'.valUpdates[i].power == DecI64(ev'.totalVotingPower);
          assert ev' in evidence;
        }
      }
    }
  }

  /**
   * After `BeginBlock` the batch is empty and the update list holds only the
   * evidence penalties: at most one per piece of evidence, each lowering a
   * reported DuplicateVote power by one.
   */
  lemma BeginBlockUpdates(st: AppState, codecs: Codecs, evidence: seq<Evidence>)
    ensures var st' := BeginBlock(st, codecs, evidence);
            && st'.batch == map[]
            && |st'.valUpdates| <= |evidence|
            && (forall u | u in st'.valUpdates :: IsPenalty(u, evidence))
            && st'.size == st.size && st'.height == st.height && st'.appHash == st.appHash
  {
    ApplyEvidenceAppends(st.(batch := map[], valUpdates := []), codecs, evidence);
  }

  /** Evidence that is not a DuplicateVote, or whose power is already 0, changes nothing. */
  lemma {:induction false} BeginBlockWithoutPenalties(st: AppState, codecs: Codecs, evidence: seq<Evidence>)
    requires forall ev | ev in evidence :: ev.kind != DuplicateVote || ev.totalVotingPower == 0
    ensures BeginBlock(st, codecs, evidence) == st.(batch := map[], valUpdates := [])
  {
    SkippedEvidence(st.(batch := map[], valUpdates := []), codecs, evidence);
  }

  lemma {:induction false} SkippedEvidence(st: AppState, codecs: Codecs, evidence: seq<Evidence>)
    requires forall ev | ev in evidence :: ev.kind != DuplicateVote || ev.totalVotingPower == 0
    ensures ApplyEvidence(st, codecs, evidence) == st
    decreases |evidence|
  {
    if evidence != [] {
      assert evidence[0] in evidence;
      SkippedEvidence(st, codecs, evidence[1..]);
    }
  }
}
