/**
 * The values the ledger handles: response codes, validator updates, the
 * decoded transaction envelope, domain records and events, and the
 * collaborators the ledger calls but whose code is not part of this model
 * (protobuf and JSON codecs, SHA-256, Ed25519), passed in as functions.
 */
module Types {
  import opened Bytes
  import opened Ints
  import opened Results

  /**
   * ABCI response codes. The first six are those of code/code.go; the rest
   * are the codes the app package refers to by name.
   */
  datatype Code =
    | OK | EncodingError | BadNonce | Unauthorized | BadSignature | BadData
    | UnmarshalError | EmptyMethod | InvalidMethod | DecodingError | DuplicateKey | UnknownError

  /** Tendermint's `types.PubKey`: a key type name and the raw key bytes. */
  datatype PubKey = PubKey(keyType: string, data: bytes)

  /** Tendermint's `types.ValidatorUpdate`. */
  datatype ValidatorUpdate = ValidatorUpdate(pubKey: PubKey, power: int64)

  /** `types.Ed25519ValidatorUpdate`. */
  function Ed25519Update(data: bytes, power: int64): ValidatorUpdate {
    ValidatorUpdate(PubKey("ed25519", data), power)
  }

  /** The protobuf envelope of proto/tendermint: a payload may be absent. */
  datatype Payload = Payload(methodName: string, params: bytes)
  datatype Tx = Tx(payload: Option<Payload>, publicKey: bytes, signature: bytes)

  /** ABCI events: a type and key/value attributes. */
  datatype Attribute = Attribute(key: string, value: bytes)
  datatype Event = Event(kind: string, attributes: seq<Attribute>)

  /** The code and events of a `ResponseDeliverTx`. */
  datatype TxResult = TxResult(code: Code, events: seq<Event>)

  /** The two records the text handlers store: a staff-given competence and an approved activity. */
  datatype RecordKind = CompetenceRecord | ActivityRecord

  /**
   * How the record's id field is typed: a JSON string in the structs of
   * sitcomapp/sitcomapp.go, a JSON number (uint16 competence id, uint32
   * activity id) in those of model/model.go.
   */
  datatype IdSchema = TextIds | NumericIds

  datatype ItemId = TextId(text: bytes) | CompetenceNo(n: uint16) | ActivityNo(m: uint32)

  /**
   * A competence or activity record: student, item, the staff member who
   * gave or approved it (the `by` or `approver` field), semester and ledger nonce.
   */
  datatype Record = Record(studentId: bytes, itemId: ItemId, issuer: bytes, semester: uint16, nonce: uint64)

  /** The records of app/dataStructure.go; a `nil` giver (absent, or cleared) is `None`. */
  datatype Badge = Badge(studentId: bytes, competenceId: bytes, giver: Option<bytes>, semester: uint16)
  datatype SetValidatorParam = SetValidatorParam(publicKey: bytes, power: int64)

  /** A JSON document decoded into Go's `map[string]interface{}`. */
  datatype JsonValue =
    | JNull
    | JBool(b: bool)
    | JNumber(text: bytes)
    | JString(s: bytes)
    | JArray(items: seq<JsonValue>)
    | JObject(fields: map<string, JsonValue>)
  type JsonObject = map<string, JsonValue>

  /** The persisted state metadata record. */
  datatype StateMeta = StateMeta(height: int64, appHash: bytes, size: uint64)

  /** Byzantine evidence of `RequestBeginBlock`. */
  datatype EvidenceType = DuplicateVote | OtherEvidence
  datatype Evidence = Evidence(kind: EvidenceType, address: bytes, totalVotingPower: int64)

  /**
   * The collaborators, as functions: `None` is the Go `err != nil` result.
   * decodeTx is `proto.Unmarshal` into `protoTm.Tx`; verify is
   * `ed25519.Verify(publicKey, message, signature)`; address is the Ed25519
   * `PubKey.Address()` of raw key bytes; writeMessage is amino's
   * `types.WriteMessage`; the rest are `json.Unmarshal` / `json.Marshal`
   * at the Go type named.
   */
  datatype Codecs = Codecs(
    decodeTx: bytes -> Option<Tx>,
    verify: (bytes, bytes, bytes) -> bool,
    sha256: bytes -> bytes,
    address: bytes -> bytes,
    writeMessage: ValidatorUpdate -> Option<bytes>,
    decodeObject: bytes -> Option<JsonObject>,
    encodeObject: JsonObject -> Option<bytes>,
    decodeBadge: bytes -> Option<Badge>,
    encodeBadge: Badge -> Option<bytes>,
    decodeSetValidator: bytes -> Option<SetValidatorParam>,
    decodeRecord: (RecordKind, IdSchema, bytes) -> Option<Record>,
    encodeRecord: (RecordKind, IdSchema, Record) -> Option<bytes>,
    encodeMeta: StateMeta -> bytes)
}
