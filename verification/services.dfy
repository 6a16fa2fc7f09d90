/**
 * The direct-store handlers of app/devlier.go: registering a service, and
 * recording a badge or an approved activity keyed by its JSON object with
 * the issuing party removed.
 */
module Services {
  import opened Bytes
  import opened Ints
  import opened Results
  import opened Types
  import opened Machine

  /** `':'`, the separator of `name:value` service payloads. */
  const Colon: byte := 0x3A

  /**
   * `addNewService`: a payload with exactly one `:` stores its right half
   * under its left half; anything else is InvalidMethod with no change.
   * The record count is not touched.
   */
  function AddNewService(st: AppState, payload: bytes): (r: (AppState, Code))
    ensures var parts := Split(payload, Colon);
            && (r.1 == OK <==> |parts| == 2)
            && (r.1 != OK ==> r == (st, InvalidMethod))
            && (r.1 == OK ==> r.0 == st.(db := st.db[parts[0] := parts[1]]))
  {
    var parts := Split(payload, Colon);
    if |parts| != 2 then (st, InvalidMethod)
    else (st.(db := st.db[parts[0] := parts[1]]), OK)
  }

  /** Registering `name:value` with colon-free halves stores `value` under `name`. */
  lemma AddNewServiceStores(st: AppState, name: bytes, value: bytes)
    requires Colon !in name && Colon !in value
    ensures AddNewService(st, name + [Colon] + value) == (st.(db := st.db[name := value]), OK)
  {
    SplitTwo(name, value, Colon);
  }

  /**
   * `giveBadge` and `approveActivity`: decode the payload as a JSON object,
   * drop `field`, re-encode it as the key and store the whole payload under
   * it, counting the record.
   */
  function StoreStripped(st: AppState, codecs: Codecs, payload: bytes, field: string): (r: (AppState, Code))
    ensures r.1 in {OK, UnmarshalError, EncodingError}
    ensures r.1 == UnmarshalError <==> codecs.decodeObject(payload).None?
    ensures r.1 == EncodingError <==>
              codecs.decodeObject(payload).Some? && codecs.encodeObject(codecs.decodeObject(payload).value - {field}).None?
    ensures r.1 != OK ==> r.0 == st
    ensures r.1 == OK ==>
      var key := codecs.encodeObject(codecs.decodeObject(payload).value - {field}).value;
      r.0 == st.(db := st.db[key := payload], size := IncU64(st.size))
  {
    match codecs.decodeObject(payload)
    case None => (st, UnmarshalError)
    case Some(obj) =>
      match codecs.encodeObject(obj - {field})
      case None => (st, EncodingError)
      case Some(key) => (st.(db := st.db[key := payload], size := IncU64(st.size)), OK)
  }

  function GiveBadge(st: AppState, codecs: Codecs, payload: bytes): (r: (AppState, Code))
    ensures r.1 == OK <==> codecs.decodeObject(payload).Some?
                           && codecs.encodeObject(codecs.decodeObject(payload).value - {"giver"}).Some?
    ensures r.1 != OK ==> r.0 == st
    ensures r.1 == OK ==>
      var obj := codecs.decodeObject(payload).value - {"giver"};
      && "giver" !in obj
      && r.0 == st.(db := st.db[codecs.encodeObject(obj).value := payload], size := IncU64(st.size))
  {
    StoreStripped(st, codecs, payload, "giver")
  }

  function ApproveActivity(st: AppState, codecs: Codecs, payload: bytes): (r: (AppState, Code))
    ensures r.1 == OK <==> codecs.decodeObject(payload).Some?
                           && codecs.encodeObject(codecs.decodeObject(payload).value - {"approver"}).Some?
    ensures r.1 != OK ==> r.0 == st
    ensures r.1 == OK ==>
      var obj := codecs.decodeObject(payload).value - {"approver"};
      && "approver" !in obj
      && r.0 == st.(db := st.db[codecs.encodeObject(obj).value := payload], size := IncU64(st.size))
  {
    StoreStripped(st, codecs, payload, "approver")
  }

  /**
   * Two payloads that differ only in the stripped field are one record: the
   * second lands on the first one's key, replacing its value, and the store
   * holds no other new key.
   */
  lemma StrippedFieldIgnored(st: AppState, codecs: Codecs, p1: bytes, p2: bytes, field: string)
    requires codecs.decodeObject(p1).Some? && codecs.decodeObject(p2).Some?
    requires codecs.decodeObject(p1).value - {field} == codecs.decodeObject(p2).value - {field}
    requires StoreStripped(st, codecs, p1, field).1 == OK
    ensures var st1 := StoreStripped(st, codecs, p1, field).0;
            var key := codecs.encodeObject(codecs.decodeObject(p1).value - {field}).value;
            && StoreStripped(st1, codecs, p2, field).1 == OK
            && StoreStripped(st1, codecs, p2, field).0.db == st.db[key := p2]
            && StoreStripped(st1, codecs, p2, field).0.db.Keys == st.db.Keys + {key}
  {
    var key := codecs.encodeObject(codecs.decodeObject(p1).value - {field}).value;
    assert st.db[key := p1][key := p2] == st.db[key := p2];
  }
}
