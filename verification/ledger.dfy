/**
 * The application object of sitcomapp/sitcomapp.go and app/ — its state
 * fields updated in place by the ABCI calls. Every method is proved to
 * produce exactly the state and answer of the step function that specifies
 * it (modules Machine, Validators, Handlers, Envelope, Services, Admission,
 * Queries), and the properties are proved about those functions.
 */
module Application {
  import opened Bytes
  import opened Ints
  import opened Results
  import opened Types
  import opened Machine
  import opened ValidatorTx
  import opened Handlers
  import opened Queries
  import LittleEndian
  import Base64
  import Validators
  import Envelope
  import Services
  import Admission

  class Ledger {
    /** The collaborators (codecs, hashing, signatures). */
    const codecs: Codecs
    /** Where the state metadata record is saved: `stateKey:` or `stateKey`. */
    const metaKey: bytes

    var db: Store
    var batch: Batch
    var size: uint64
    var height: int64
    var appHash: bytes
    var valUpdates: seq<ValidatorUpdate>
    var valUpdateMap: map<bytes, ValidatorUpdate>
    var addrToPubKey: map<bytes, PubKey>

    function State(): AppState
      reads this
    {
      AppState(db, batch, size, height, appHash, valUpdates, valUpdateMap, addrToPubKey)
    }

    /**
     * Opening the application over a store: the metadata found there (zero
     * values when there is none) gives size, height and app hash; the
     * validator bookkeeping starts empty.
     */
    constructor (codecs: Codecs, metaKey: bytes, db: Store, saved: StateMeta)
      ensures this.codecs == codecs && this.metaKey == metaKey
      ensures State() == Reopen(db, saved)
    {
      this.codecs := codecs;
      this.metaKey := metaKey;
      this.db := db;
      batch := map[];
      size, height, appHash := saved.size, saved.height, saved.appHash;
      valUpdates, valUpdateMap, addrToPubKey := [], map[], map[];
    }

    /** `Info`: the record count, the last height and the last app hash. */
    method Info() returns (count: uint64, lastHeight: int64, lastHash: bytes)
      ensures count == size && lastHeight == height && lastHash == appHash
    {
      return size, height, appHash;
    }

    /** `Commit`, in both snapshots. */
    method Commit() returns (hash: bytes)
      modifies this
      ensures (State(), hash) == Machine.Commit(old(State()), codecs, metaKey)
    {
      hash := LittleEndian.PutUint64(size);
      appHash := hash;
      height := IncI64(height);
      var meta := codecs.encodeMeta(StateMeta(height, hash, size));
      batch := batch[metaKey := Some(meta)];
      db := ApplyBatch(db, batch);
      batch := map[];
    }

    // ---- validators, sitcomapp/sitcomapp.go ----

    method UpdateValidator(v: ValidatorUpdate) returns (code: Code)
      modifies this
      ensures (State(), code) == Validators.UpdateValidator(old(State()), codecs, v)
    {
      var key := Validators.ValidatorKey(v.pubKey.data);
      var addr := codecs.address(v.pubKey.data);
      if v.power == 0 {
        if key !in db {
          return Unauthorized;
        }
        db := db - {key};
        addrToPubKey := addrToPubKey - {addr};
      } else {
        var value := codecs.writeMessage(v);
        if value.None? {
          return EncodingError;
        }
        db := db[key := value.value];
        addrToPubKey := addrToPubKey[addr := v.pubKey];
      }
      valUpdates := valUpdates + [v];
      code := OK;
    }

    method ExecValidatorTx(tx: bytes) returns (code: Code)
      requires IsValidatorTx(tx)
      modifies this
      ensures (State(), code) == Validators.ExecValidatorTx(old(State()), codecs, tx)
    {
      var parsed := Parse(tx);
      if parsed.Err? {
        return EncodingError;
      }
      var (key, power) := parsed.value;
      code := UpdateValidator(Ed25519Update(key, power));
    }

    method InitChain(validators: seq<ValidatorUpdate>)
      modifies this
      ensures State() == Validators.InitChain(old(State()), codecs, validators)
    {
      var i := 0;
      while i < |validators|
        invariant 0 <= i <= |validators|
        invariant Validators.InitChain(State(), codecs, validators[i..])
               == Validators.InitChain(old(State()), codecs, validators)
      {
        assert validators[i..][1..] == validators[i + 1..];
        var code := UpdateValidator(validators[i]);
        i := i + 1;
      }
    }

    method BeginBlock(evidence: seq<Evidence>)
      modifies this
      ensures State() == Validators.BeginBlock(old(State()), codecs, evidence)
    {
      batch := map[];
      valUpdates := [];
      var i := 0;
      while i < |evidence|
        invariant 0 <= i <= |evidence|
        invariant Validators.ApplyEvidence(State(), codecs, evidence[i..])
               == Validators.BeginBlock(old(State()), codecs, evidence)
      {
        assert evidence[i..][1..] == evidence[i + 1..];
        var ev := evidence[i];
        if ev.kind == DuplicateVote && ev.totalVotingPower != 0 {
          var pubKey := if ev.address in addrToPubKey then addrToPubKey[ev.address] else PubKey("", []);
          var code := UpdateValidator(ValidatorUpdate(pubKey, DecI64(ev.totalVotingPower)));
        }
        i := i + 1;
      }
    }

    /** `EndBlock` of sitcomapp/sitcomapp.go: the block's validator updates, in order. */
    method EndBlock() returns (updates: seq<ValidatorUpdate>)
      ensures updates == valUpdates
    {
      updates := valUpdates;
    }

    // ---- text transactions, sitcomapp/sitcomapp.go and app/commit.go ----

    method AddRecord(kind: RecordKind, schema: IdSchema, body: bytes) returns (r: Result<Event, HandlerError>)
      modifies this
      ensures Handlers.AddRecord(old(State()), codecs, kind, schema, body)
              == if r.Ok? then Ok((State(), r.value)) else Err(r.error)
      ensures r.Err? ==> State() == old(State())
    {
      var decoded := codecs.decodeRecord(kind, schema, body);
      if decoded.None? {
        return Err(UnmarshalFailed);
      }
      var rec := decoded.value.(nonce := IncU64(size));
      var value := codecs.encodeRecord(kind, schema, rec);
      if value.None? {
        return Err(MarshalFailed);
      }
      var key := codecs.sha256(value.value);
      db := db[key := value.value];
      size := IncU64(size);
      r := Ok(RecordEvent(kind, key, rec));
    }

    method StaffAddCompetence(schema: IdSchema, body: bytes) returns (r: Result<Event, HandlerError>)
      modifies this
      ensures Handlers.AddRecord(old(State()), codecs, CompetenceRecord, schema, body)
              == if r.Ok? then Ok((State(), r.value)) else Err(r.error)
      ensures r.Err? ==> State() == old(State())
    {
      r := AddRecord(CompetenceRecord, schema, body);
    }

    method AttendedActivity(schema: IdSchema, body: bytes) returns (r: Result<Event, HandlerError>)
      modifies this
      ensures Handlers.AddRecord(old(State()), codecs, ActivityRecord, schema, body)
              == if r.Ok? then Ok((State(), r.value)) else Err(r.error)
      ensures r.Err? ==> State() == old(State())
    {
      r := AddRecord(ActivityRecord, schema, body);
    }

    method DeliverTextTx(tx: bytes) returns (result: TxResult)
      modifies this
      ensures (State(), result) == Handlers.DeliverTextTx(old(State()), codecs, tx)
    {
      if IsValidatorTx(tx) {
        var code := ExecValidatorTx(tx);
        return TxResult(code, []);
      }
      var parts := Split(tx, Eq);
      if |parts| != 2 {
        return TxResult(BadData, []);
      }
      var r: Result<Event, HandlerError>;
      if parts[0] == AddCompetenceName {
        r := StaffAddCompetence(TextIds, parts[1]);
      } else if parts[0] == ApproveActivityName {
        r := AttendedActivity(TextIds, parts[1]);
      } else {
        return TxResult(BadData, []);
      }
      result := if r.Ok? then TxResult(OK, [r.value]) else TxResult(BadData, []);
    }

    /** `CheckTx` of sitcomapp/sitcomapp.go admits everything. */
    method CheckTextTx(tx: bytes) returns (code: Code)
      ensures code == OK
    {
      code := OK;
    }

    /** `Query` of sitcomapp/sitcomapp.go. */
    method Lookup(data: bytes) returns (r: QueryResult)
      ensures r == Queries.Lookup(db, data)
    {
      if |data| == 0 {
        return QueryResult(OK, [], [], "");
      }
      r := if data in db then QueryResult(OK, data, db[data], "exists") else QueryResult(OK, data, [], "does not exist");
    }

    // ---- the envelope snapshot, app/ ----

    method UpdateValidatorBatched(v: ValidatorUpdate) returns (code: Code)
      modifies this
      ensures (State(), code) == Validators.UpdateValidatorBatched(old(State()), codecs, v)
    {
      var id := Base64.Encode(v.pubKey.data);
      var key := Prefix + id;
      if v.power == 0 {
        if key !in db {
          return Unauthorized;
        }
        batch := batch[key := None];
      } else {
        var value := codecs.writeMessage(v);
        if value.None? {
          return EncodingError;
        }
        batch := batch[key := Some(value.value)];
      }
      valUpdateMap := valUpdateMap[id := v];
      code := OK;
    }

    method SetValidator(params: bytes) returns (code: Code)
      modifies this
      ensures (State(), code) == Validators.SetValidator(old(State()), codecs, params)
    {
      var param := codecs.decodeSetValidator(params);
      if param.None? {
        return UnmarshalError;
      }
      var pubKey := Base64.Decode(param.value.publicKey);
      if pubKey.None? {
        return DecodingError;
      }
      code := UpdateValidatorBatched(Ed25519Update(pubKey.value, param.value.power));
    }

    method GiveBadge(params: bytes) returns (code: Code)
      modifies this
      ensures (State(), code) == Envelope.GiveBadge(old(State()), codecs, params)
    {
      var badge := codecs.decodeBadge(params);
      if badge.None? {
        return UnmarshalError;
      }
      var badgeKey := codecs.encodeBadge(badge.value.(giver := None));
      if badgeKey.None? {
        return EncodingError;
      }
      batch := batch[badgeKey.value := Some(params)];
      size := IncU64(size);
      code := OK;
    }

    /** `DeliverTx` of app/abci.go. */
    method DeliverTx(tx: bytes) returns (code: Code)
      modifies this
      ensures (State(), code) == Envelope.DeliverTx(old(State()), codecs, tx)
    {
      var txObj := codecs.decodeTx(tx);
      if txObj.None? {
        return UnmarshalError;
      }
      var payload := txObj.value.payload;
      if payload.None? {
        return UnknownError;
      }
      if payload.value.methodName == "SetValidator" {
        code := SetValidator(payload.value.params);
        size := IncU64(size);
      } else if payload.value.methodName == "GiveBadge" {
        code := GiveBadge(payload.value.params);
      } else {
        code := InvalidMethod;
      }
    }

    /** `CheckTx` of app/abci.go, against the registered method names. */
    method CheckTx(methods: set<string>, tx: bytes) returns (code: Code)
      ensures code == Admission.CheckTx(codecs, methods, tx)
    {
      var txObj := codecs.decodeTx(tx);
      if txObj.None? {
        return UnmarshalError;
      }
      var payload := txObj.value.payload;
      if payload.None? {
        return UnknownError;
      }
      if payload.value.methodName == "" {
        return EmptyMethod;
      }
      if payload.value.methodName !in methods {
        return InvalidMethod;
      }
      if !codecs.verify(txObj.value.publicKey, payload.value.params, txObj.value.signature) {
        return Unauthorized;
      }
      code := OK;
    }

    /** `isValid` of app/app.go. */
    method IsValid(tx: bytes) returns (code: Code)
      ensures code == Admission.IsValid(db, tx)
    {
      var parts := Split(tx, Eq);
      if |parts| != 2 {
        return EncodingError;
      }
      code := OK;
      if parts[0] in db && db[parts[0]] == parts[1] {
        code := DuplicateKey;
      }
    }

    /** The scan loop of `Query`: `'|'` and the key, for each key containing both `a` and `b`. */
    method Scan(order: seq<bytes>, a: bytes, b: bytes) returns (result: bytes)
      ensures result == BarPrefixed(Matching(order, a, b))
    {
      result := [];
      var i := 0;
      while i < |order|
        invariant 0 <= i <= |order|
        invariant result == BarPrefixed(Matching(order[..i], a, b))
      {
        assert order[..i + 1][..i] == order[..i];
        var k := order[i];
        if Contains(k, a) && Contains(k, b) {
          result := result + [Bar] + k;
        }
        i := i + 1;
      }
      assert order[..|order|] == order;
    }

    /**
     * `Query` of app/abci.go; `order` is the order the store iterator visits
     * the keys in.
     */
    method Query(order: seq<bytes>, data: bytes) returns (r: QueryResult)
      requires IsIterationOrder(order, db)
      ensures r == Queries.Query(db, order, data)
    {
      var parts := Split(data, Eq);
      if |parts| == 2 {
        var result := Scan(order, parts[0], parts[1]);
        if |result| == 0 {
          return QueryResult(OK, data, [], "does not exists");
        }
        return QueryResult(OK, data, result[1..], "exists");
      }
      if data == [] {
        return QueryResult(UnknownError, data, [], "Key cannot be empty");
      }
      if data in db {
        return QueryResult(OK, data, db[data], "exists");
      }
      r := QueryResult(OK, data, [], "does not exist");
    }

    // ---- app/devlier.go ----

    method AddNewService(payload: bytes) returns (code: Code)
      modifies this
      ensures (State(), code) == Services.AddNewService(old(State()), payload)
    {
      var parts := Split(payload, Services.Colon);
      if |parts| != 2 {
        return InvalidMethod;
      }
      db := db[parts[0] := parts[1]];
      code := OK;
    }

    method StoreStripped(payload: bytes, field: string) returns (code: Code)
      modifies this
      ensures (State(), code) == Services.StoreStripped(old(State()), codecs, payload, field)
    {
      var sorted := codecs.decodeObject(payload);
      if sorted.None? {
        return UnmarshalError;
      }
      var key := codecs.encodeObject(sorted.value - {field});
      if key.None? {
        return EncodingError;
      }
      db := db[key.value := payload];
      size := IncU64(size);
      code := OK;
    }

    method GiveBadgeObject(payload: bytes) returns (code: Code)
      modifies this
      ensures (State(), code) == Services.GiveBadge(old(State()), codecs, payload)
    {
      code := StoreStripped(payload, "giver");
    }

    method ApproveActivity(payload: bytes) returns (code: Code)
      modifies this
      ensures (State(), code) == Services.ApproveActivity(old(State()), codecs, payload)
    {
      code := StoreStripped(payload, "approver");
    }
  }
}
