/**
 * The text transactions of sitcomapp/sitcomapp.go, `name=body`, and the two
 * record handlers they reach (also present, with numeric ids, in
 * app/commit.go): each stores a JSON record under its SHA-256 digest,
 * stamps it with the next nonce and emits one event describing it.
 */
module Handlers {
  import opened Bytes
  import opened Ints
  import opened Results
  import opened Types
  import opened Machine
  import opened ValidatorTx
  import opened Validators
  import LittleEndian

  /** `'='`, the separator between the handler name and its body. */
  const Eq: byte := 0x3D

  const AddCompetenceName: bytes := Ascii("add_competence")
  const ApproveActivityName: bytes := Ascii("approve_activity")

  /** Why a record handler returns an error: the body is not the record, or the record cannot be re-encoded. */
  datatype HandlerError = UnmarshalFailed | MarshalFailed

  /** The event type each record is announced with. */
  function EventKind(kind: RecordKind): string {
    match kind
    case CompetenceRecord => "competence.add"
    case ActivityRecord => "activity.approve"
  }

  /** The attribute name of the record's item id. */
  function IdAttribute(kind: RecordKind): string {
    match kind
    case CompetenceRecord => "competenceid"
    case ActivityRecord => "activityid"
  }

  /**
   * The event value of an item id: the text itself, or the id as 2 (competence)
   * or 4 (activity) little-endian bytes, which decode back to the id.
   */
  function IdValue(id: ItemId): (v: bytes)
    ensures id.TextId? ==> v == id.text
    ensures id.CompetenceNo? ==> |v| == 2 && LittleEndian.Decode(v) == id.n
    ensures id.ActivityNo? ==> |v| == 4 && LittleEndian.Decode(v) == id.m
  {
    match id
    case TextId(text) => text
    case CompetenceNo(n) => LittleEndian.PutUint16(n)
    case ActivityNo(m) => LittleEndian.PutUint32(m)
  }

  function RecordEvent(kind: RecordKind, txid: bytes, rec: Record): Event {
    Event(EventKind(kind), [
      Attribute("txid", txid),
      Attribute("studentid", rec.studentId),
      Attribute(IdAttribute(kind), IdValue(rec.itemId)),
      Attribute("by", rec.issuer),
      Attribute("semester", LittleEndian.PutUint16(rec.semester))])
  }

  /** The event describes the stored record: each attribute decodes back to the record's field. */
  predicate Describes(e: Event, kind: RecordKind, txid: bytes, rec: Record) {
    && e.kind == EventKind(kind)
    && |e.attributes| == 5
    && e.attributes[0] == Attribute("txid", txid)
    && e.attributes[1] == Attribute("studentid", rec.studentId)
    && e.attributes[2].key == IdAttribute(kind)
    && (rec.itemId.TextId? ==> e.attributes[2].value == rec.itemId.text)
    && (rec.itemId.CompetenceNo? ==> LittleEndian.Decode(e.attributes[2].value) == rec.itemId.n)
    && (rec.itemId.ActivityNo? ==> LittleEndian.Decode(e.attributes[2].value) == rec.itemId.m)
    && e.attributes[3] == Attribute("by", rec.issuer)
    && e.attributes[4].key == "semester"
    && |e.attributes[4].value| == 2 && LittleEndian.Decode(e.attributes[4].value) == rec.semester
  }

  /**
   * `StaffAddCompetence` / `AttendedActivity`: decode the body, set the
   * nonce to size + 1 (wrapping as uint64 does), re-encode, store the
   * encoding under its SHA-256 digest and count it. Either decoding step
   * failing is an error with no change.
   */
  function AddRecord(st: AppState, codecs: Codecs, kind: RecordKind, schema: IdSchema, body: bytes)
    : (r: Result<(AppState, Event), HandlerError>)
    ensures codecs.decodeRecord(kind, schema, body).None? <==> r == Err(UnmarshalFailed)
    ensures codecs.decodeRecord(kind, schema, body).Some? ==>
      var rec := codecs.decodeRecord(kind, schema, body).value.(nonce := IncU64(st.size));
      && (codecs.encodeRecord(kind, schema, rec).None? <==> r == Err(MarshalFailed))
      && (codecs.encodeRecord(kind, schema, rec).Some? ==>
            var value := codecs.encodeRecord(kind, schema, rec).value;
            var key := codecs.sha256(value);
            && r.Ok?
            && r.value.0 == st.(db := st.db[key := value], size := IncU64(st.size))
            && rec.nonce == r.value.0.size
            && Describes(r.value.1, kind, key, rec))
  {
    match codecs.decodeRecord(kind, schema, body)
    case None => Err(UnmarshalFailed)
    case Some(decoded) =>
      var rec := decoded.(nonce := IncU64(st.size));
      match codecs.encodeRecord(kind, schema, rec)
      case None => Err(MarshalFailed)
      case Some(value) =>
        var key := codecs.sha256(value);
        Ok((st.(db := st.db[key := value], size := IncU64(st.size)), RecordEvent(kind, key, rec)))
  }

  /**
   * Records added one after the other carry consecutive nonces: the second
   * record's nonce is the first's plus one (as uint64).
   */
  lemma ConsecutiveNonces(st: AppState, codecs: Codecs, k1: RecordKind, k2: RecordKind, schema: IdSchema,
                          b1: bytes, b2: bytes)
    requires AddRecord(st, codecs, k1, schema, b1).Ok?
    requires AddRecord(AddRecord(st, codecs, k1, schema, b1).value.0, codecs, k2, schema, b2).Ok?
    ensures var st1 := AddRecord(st, codecs, k1, schema, b1).value.0;
            var st2 := AddRecord(st1, codecs, k2, schema, b2).value.0;
            && st1.size == IncU64(st.size) && st2.size == IncU64(st1.size)
            && (st.size + 2 < U64_LIMIT ==> st2.size == st.size + 2)
  {
  }

  /** What a `name=body` transaction answers: a code and, on success, the handler's events. */
  function Outcome(st: AppState, r: Result<(AppState, Event), HandlerError>): (AppState, TxResult) {
    match r
    case Err(_) => (st, TxResult(BadData, []))
    case Ok((st', e)) => (st', TxResult(OK, [e]))
  }

  /**
   * `DeliverTx` of sitcomapp/sitcomapp.go: a `val:` transaction changes the
   * validator set; otherwise the transaction must be exactly `name=body`
   * with a known name, and anything else, including a failing handler, is
   * BadData with no change.
   */
  function DeliverTextTx(st: AppState, codecs: Codecs, tx: bytes): (r: (AppState, TxResult))
    ensures IsValidatorTx(tx) ==> r.0 == ExecValidatorTx(st, codecs, tx).0
                                  && r.1 == TxResult(ExecValidatorTx(st, codecs, tx).1, [])
    ensures !IsValidatorTx(tx) ==>
      var parts := Split(tx, Eq);
      && r.1.code in {OK, BadData}
      && (r.1.code == BadData ==> r == (st, TxResult(BadData, [])))
      && (r.1.code == OK <==>
            |parts| == 2
            && ((parts[0] == AddCompetenceName && AddRecord(st, codecs, CompetenceRecord, TextIds, parts[1]).Ok?)
             || (parts[0] == ApproveActivityName && AddRecord(st, codecs, ActivityRecord, TextIds, parts[1]).Ok?)))
  {
    if IsValidatorTx(tx) then
      var (st', code) := ExecValidatorTx(st, codecs, tx);
      (st', TxResult(code, []))
    else
      var parts := Split(tx, Eq);
      if |parts| != 2 then (st, TxResult(BadData, []))
      else if parts[0] == AddCompetenceName then
        Outcome(st, AddRecord(st, codecs, CompetenceRecord, TextIds, parts[1]))
      else if parts[0] == ApproveActivityName then
        Outcome(st, AddRecord(st, codecs, ActivityRecord, TextIds, parts[1]))
      else (st, TxResult(BadData, []))
  }

  /**
   * A well-formed `add_competence=<json>` or `approve_activity=<json>` reaches
   * its handler with the whole body.
   */
  lemma DeliverNamedTx(st: AppState, codecs: Codecs, kind: RecordKind, body: bytes)
    requires Eq !in body
    ensures var name := if kind == CompetenceRecord then AddCompetenceName else ApproveActivityName;
            DeliverTextTx(st, codecs, name + [Eq] + body)
              == Outcome(st, AddRecord(st, codecs, kind, TextIds, body))
  {
    var name := if kind == CompetenceRecord then AddCompetenceName else ApproveActivityName;
    var tx := name + [Eq] + body;
    assert !IsValidatorTx(tx) by {
      PrefixLength();
      assert tx[0] == name[0] && name[0] != Prefix[0];
      assert tx[..|Prefix|][0] == tx[0];
    }
    assert Eq !in name;
    SplitTwo(name, body, Eq);
  }
}
