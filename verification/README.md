# sitcomchain ledger state machine, in Dafny

This project models the deterministic application of the sitcomchain
ledger: the state machine a Tendermint consensus engine drives through
ABCI calls (`InitChain`, `BeginBlock`, `CheckTx`, `DeliverTx`, `EndBlock`,
`Commit`, `Query`). It also models the Substrate runtime module that
records competences and activities in `runtime/src/sitcom.rs`.

The repository holds several diverging snapshots of the application. All
of them are modelled:

- **Direct-store snapshot** (`sitcomapp/sitcomapp.go`, `app/commit.go`,
  `app/app.go`). Transactions are text. A `val:<base64>!<power>`
  transaction changes the validator set; `add_competence=<json>` and
  `approve_activity=<json>` store a record under its SHA-256 digest. Writes
  go straight to the store.
- **Envelope snapshot** (`app/abci.go`, `app/validator.go`). Transactions
  are protobuf envelopes carrying a method, parameters, a public key and a
  signature. `CheckTx` admits them. `DeliverTx` runs `SetValidator` or
  `GiveBadge`, whose writes go to the open block's batch. `Query` can scan
  keys with an `A=B` pattern.
- **Service handlers** (`app/devlier.go`). They write the store directly,
  and the key is the payload's JSON object with the authoring party
  removed.

How the model is organised:

- The state is one value, `Machine.AppState`. It holds the committed store,
  the batch, the record count, the height, the app hash, the validator
  update list and map, and the address index.
- Each operation is a function from state to state and answer (modules
  `Machine`, `Validators`, `Handlers`, `Envelope`, `Services`, `Admission`,
  `Queries`). The properties are lemmas and `ensures` clauses on these
  functions.
- The class `Application.Ledger` holds the same fields and updates them in
  place, as the Go code does. Each method is proved to leave exactly the
  state, and give exactly the answer, of its step function.
- `Runtime` has the same two layers: the value `RuntimeState` with its
  step functions, and the class `SitcomModule`.

Go's value formats are written out: `base64.StdEncoding` (RFC 4648 section
4, padded, with CR and LF ignored when decoding, and non-strict about
trailing bits), `strconv.ParseInt(s, 10, 64)`, `binary.LittleEndian`, and
the wrap-around of `uint64`/`int64` increments. The model takes the
following as function parameters: protobuf and JSON decoding and encoding,
amino `WriteMessage`, SHA-256, Ed25519 verification, and key addresses.
They are the fields of `Types.Codecs`.

The model follows the code, including where it departs from the
behaviour its comments and log lines suggest. The exceptions are the two
corrections under "## Findings" and the crash paths listed under
"## Left out". What the code does that a reader might not expect:

- An envelope that does not decode is UnmarshalError in `CheckTx`. It is
  not EncodingError.
- `SetValidator` counts the transaction even when it fails.
- A scan with no match logs "does not exists".
- `BeginBlock` skips evidence whose power is already 0.
- `EndBlock` returns the list in the order the updates were appended. In
  `app/abci.go` it returns nothing.
- The validator update map of `app/validator.go` is never emitted and never
  reset.
- `Query` of `app/abci.go` answers an empty key with UnknownError and the
  log "Key cannot be empty", because badger's `Get` refuses the empty key.

`SetValidator` and `DeliverTx` of the envelope snapshot are built on the
corrected removal of the first Finding. As written, removing a stored
validator through them is refused with Unauthorized.

## Model

| member | source | states |
|---|---|---|
| Ints.IncU64 | sitcomapp/sitcomapp.go:345 | `Size++` on a uint64 is `(x + 1) mod 2^64`: one more, and the largest value wraps to 0 |
| Ints.IncI64 | sitcomapp/sitcomapp.go:152 | `Height++` on an int64 is `x + 1` reduced into the int64 range modulo 2^64: the largest value wraps to the smallest |
| Ints.DecI64 | sitcomapp/sitcomapp.go:195 | `TotalVotingPower - 1` on an int64 is `x - 1` reduced into the int64 range modulo 2^64: the smallest value wraps to the largest |
| Bytes.Split | sitcomapp/sitcomapp.go:107 | `bytes.Split` on one separator: at least one piece, no piece contains the separator, and joining the pieces gives back the input |
| Bytes.SplitJoin | sitcomapp/sitcomapp.go:236 | splitting undoes joining for separator-free pieces |
| Bytes.SplitTwo | app/app.go:33-38 | a string with exactly one separator splits into the two pieces around it |
| LittleEndian.PutUint16 | app/commit.go:127-131 | the 2-byte little-endian encoding decodes back to the value |
| LittleEndian.PutUint32 | app/commit.go:173-174 | the 4-byte little-endian encoding decodes back to the value |
| LittleEndian.PutUint64 | sitcomapp/sitcomapp.go:149-150 | the 8-byte little-endian encoding decodes back to the value |
| LittleEndian.DecodeEncode | sitcomapp/sitcomapp.go:149-150 | decoding a fixed-width encoding gives the value back, for any width it fits in |
| LittleEndian.EncodeDecode | sitcomapp/sitcomapp.go:149-150 | encoding a decoded byte string at its own width gives the bytes back |
| Base64.Encode | sitcomapp/sitcomapp.go:224 | `EncodeToString`: length 4·⌈n/3⌉, and every byte is from the alphabet or `=` |
| Base64.Char | sitcomapp/sitcomapp.go:224 | the alphabet character of each 6-bit value maps back to that value |
| Base64.Decode | sitcomapp/sitcomapp.go:245 | `DecodeString`: newlines are skipped, an input with no newline whose length is not a multiple of 4 is refused, and the output has at most 3 bytes per 4 input bytes; `Base64.DecodeEncode` proves it inverts `Encode` |
| Base64.DecodeQuantaEncode | sitcomapp/sitcomapp.go:245 | decoding the 4-byte groups of an encoding gives the input back |
| Base64.DecodeEncode | sitcomapp/sitcomapp.go:224-245 | `DecodeString(EncodeToString(b)) == b` |
| Decimal.Digits | sitcomapp/sitcomapp.go:225 | the decimal digits of a natural number: at least one, all digits, no leading zero |
| Decimal.DigitsValueDigits | sitcomapp/sitcomapp.go:225 | the digits read back as the number |
| Decimal.Format | sitcomapp/sitcomapp.go:225 | `%d` of an int64 is non-empty, starts with `-` exactly when the value is negative, and is digits everywhere else |
| Decimal.ParseInt | sitcomapp/sitcomapp.go:253 | `strconv.ParseInt(s, 10, 64)`: the empty string is refused; an accepted string is an optional sign followed by digits only, and its value is at most 0 after a `-` and at least 0 otherwise; `Decimal.ParseFormat` proves it inverts `Format` |
| Decimal.ParseFormat | sitcomapp/sitcomapp.go:225-253 | `strconv.ParseInt(fmt %d of n, 10, 64) == n` for every int64 |
| ValidatorTx.MakeValSetChangeTx | sitcomapp/sitcomapp.go:223-230 | the built transaction always satisfies `isValidatorTx` |
| ValidatorTx.Parse | sitcomapp/sitcomapp.go:233-258 | each of the three rejections happens exactly in its case (not two parts on `!`; bad base64; not an int64), otherwise key and power are the decoded parts |
| ValidatorTx.ParseMake | sitcomapp/sitcomapp.go:223-261 | parsing `MakeValSetChangeTx(pk, p)` gives back `pk.data` and `p` |
| Machine.ApplyBatch | app/abci.go:134 | committing the batch performs each pending set and delete and leaves other keys alone |
| Machine.Commit | app/abci.go:126-139 | app hash is 8 bytes that decode to `size`, it is the returned hash, height goes up by one, size is unchanged, the metadata record and the whole batch reach the store together, and the batch is then empty |
| Machine.CommitWithoutBatch | sitcomapp/sitcomapp.go:148-155 | with no pending writes, commit writes only the metadata record into the store |
| Machine.CommitsHeight | sitcomapp/sitcomapp.go:152 | after n commits the height is the initial height plus n and the count is unchanged |
| Machine.Reopen | sitcomapp/sitcomapp.go:45-56 | reopening restores count, height and hash from the saved record and starts the block bookkeeping empty |
| Machine.ReopenAsWritten | app/state.go:29-63 | as written, reopening restores height and hash but sets the count to 0 |
| Machine.RestartTransparent | sitcomapp/sitcomapp.go:45-64 | with the count restored, the commit after a restart yields the same hash and height as without the restart |
| Machine.RestartLosesCount | app/state.go:40-73 | as written, after a restart the next app hash encodes 0 instead of the record count |
| Validators.ValidatorKey | sitcomapp/sitcomapp.go:273 | the store key is `val:` followed by the raw key bytes, so it is a validator transaction prefix |
| Validators.UpdateValidator | sitcomapp/sitcomapp.go:272-304 | Unauthorized exactly when power 0 meets an absent key; EncodingError exactly when the update cannot be encoded; both leave everything unchanged; on success v is appended to the list, the key and address are removed (power 0) or set (any other power, negative included), and no other key changes |
| Validators.ValidatorLifecycle | app/commit.go:78-110 | add, then remove, then remove again: present, absent, then Unauthorized with no change |
| Validators.ExecValidatorTx | sitcomapp/sitcomapp.go:232-262 | any parse failure is EncodingError with no change; otherwise the result is `updateValidator` of the parsed Ed25519 key and power |
| Validators.ExecMakeValSetChangeTx | app/app.go:96-135 | executing `MakeValSetChangeTx(pk, p)` updates the validator with the same key and power |
| Validators.BatchedKey | app/validator.go:54-55 | the batch key is `val:` followed by the base64 key, so it satisfies `isValidatorTx` |
| Validators.UpdateValidatorBatchedAsWritten | app/validator.go:57-71 | as written, every power-0 update is refused with Unauthorized |
| Validators.RemovalOfPresentValidatorRefused | app/validator.go:57-71 | removing a validator that is in the store: Unauthorized as written, OK as intended |
| Validators.UpdateValidatorBatched | app/validator.go:53-89 | Unauthorized exactly when power 0 meets a key absent from the committed store; EncodingError exactly on an encoding failure; no change on either; on success the batch gets the delete or the encoded update, the update is recorded under the base64 key, and the store is untouched |
| Validators.UpdatesCollapse | app/validator.go:85 | two updates of one validator in a block leave one map entry, the later update |
| Validators.SetValidator | app/validator.go:91-113 | bad JSON is UnmarshalError and bad base64 is DecodingError, both with no change; otherwise an `ed25519` update with the given power, through the corrected `UpdateValidatorBatched` (as written, a removal is always Unauthorized) |
| Validators.InitChain | sitcomapp/sitcomapp.go:173-181 | each roster entry goes through `updateValidator` in turn, failures only logged: the batch, count, height, hash and update map are untouched, and the list only gains roster entries, at most one per entry; `Validators.InitChainSeeds` states the full seeding |
| Validators.InitChainSeeds | sitcomapp/sitcomapp.go:173-181 | a roster of encodable non-zero powers is all seeded: each key is in the store, each update is appended in order, and no stored key is lost |
| Validators.Penalize | sitcomapp/sitcomapp.go:189-196 | evidence that is not a DuplicateVote, or has power 0, changes nothing; otherwise at most one update is appended, with the reported power minus one, and the batch, count, height, hash and update map are kept; `Validators.PenalizeIssues` names the validator |
| Validators.ApplyEvidence | sitcomapp/sitcomapp.go:187-198 | the evidence loop appends at most one update per piece and keeps the earlier list, the batch, count, height, hash and update map; `Validators.ApplyEvidenceInOrder` and `Validators.ApplyEvidenceAppends` state the order and the penalties |
| Validators.PenalizeIssues | sitcomapp/sitcomapp.go:187-197 | DuplicateVote evidence with non-zero power updates the validator its address names (the empty key if the address is unknown) to the reported power minus one; an accepted update is appended to the list, a refused one changes nothing |
| Validators.ApplyEvidenceInOrder | sitcomapp/sitcomapp.go:187 | the pieces of evidence are penalised in the order they are listed |
| Validators.ApplyEvidenceAppends | sitcomapp/sitcomapp.go:187-197 | evidence only appends penalty updates, at most one per piece, and leaves batch, count, height and hash alone |
| Validators.BeginBlock | sitcomapp/sitcomapp.go:183-200 | a new, empty batch (as `BeginBlock` of app/abci.go:214-217 opens one), the update list reset, then the penalties: at most one update per piece of evidence, with count, height and hash kept |
| Validators.BeginBlockUpdates | sitcomapp/sitcomapp.go:183-200 | after `BeginBlock` the batch is empty and the update list holds only penalties (power reported minus one), at most one per piece of evidence |
| Validators.BeginBlockWithoutPenalties | sitcomapp/sitcomapp.go:188-192 | evidence that is not a DuplicateVote, or has power 0, changes nothing beyond the reset |
| Handlers.IdValue | app/commit.go:130-131 | the id attribute is the text id, or 2 (competence) or 4 (activity) little-endian bytes that decode to the id |
| Handlers.AddRecord | app/commit.go:113-195 | decode failure and re-encode failure are errors with no change; on success the record carries nonce size+1, is stored under the SHA-256 of its encoding, size goes up by one, and the event's attributes decode back to the record's fields |
| Handlers.ConsecutiveNonces | sitcomapp/sitcomapp.go:331-345 | two records added in a row get consecutive nonces, and the count goes up by two |
| Handlers.DeliverTextTx | sitcomapp/sitcomapp.go:100-141 | validator transactions go to `execValidatorTx`; otherwise the code is OK or BadData, BadData changes nothing, and OK exactly when the text is `add_competence=…` or `approve_activity=…` and its handler succeeds |
| Handlers.DeliverNamedTx | sitcomapp/sitcomapp.go:107-135 | `add_competence=<body>` and `approve_activity=<body>` reach their handler with the whole body |
| Envelope.GiveBadge | app/abci.go:44-63 | UnmarshalError or EncodingError exactly on the decode or encode failure, with no change; on success the raw parameters are set in the batch under the badge encoded with no giver, and the count goes up by one |
| Envelope.GiverIgnored | app/abci.go:52-60 | two badges differing only in giver share one batch key, and the later parameters replace the earlier ones |
| Envelope.DeliverTx | app/abci.go:28-70 | the committed store, height and hash never change; decode failure is UnmarshalError, a missing payload UnknownError and an unknown method InvalidMethod, all with no change; `SetValidator` counts the transaction whatever its result, and runs the corrected removal |
| Envelope.DeliverAllKeepsStore | app/abci.go:28-70 | any sequence of deliveries leaves the committed store, height, hash, update list and address index unchanged |
| Services.AddNewService | app/devlier.go:11-23 | OK exactly when the payload splits into two parts on `:`; then the right part is stored under the left and the count is unchanged; otherwise InvalidMethod with no change |
| Services.AddNewServiceStores | app/devlier.go:12-21 | `name:value` with colon-free halves stores value under name |
| Services.StoreStripped | app/devlier.go:25-80 | UnmarshalError or EncodingError exactly on the decode or encode failure, with no change; on success the payload is stored under the object without the authoring field, and the count goes up by one |
| Services.StrippedFieldIgnored | app/devlier.go:34-45 | payloads differing only in the stripped field land on one key, and the later payload replaces the earlier |
| Services.GiveBadge | app/devlier.go:25-51 | OK exactly when the payload decodes and the object without `giver` encodes; then the payload is stored under that encoding, which has no `giver`, and the count goes up by one; otherwise no change; `Services.StrippedFieldIgnored` shows the giver does not matter |
| Services.ApproveActivity | app/devlier.go:53-80 | the same for `approveActivity`, with `approver` as the removed field |
| Admission.CheckTx | app/abci.go:73-123 | checks in order, and the first failure decides: UnmarshalError, UnknownError (no payload), EmptyMethod, InvalidMethod, Unauthorized (signature over the params); OK exactly when all pass |
| Admission.EmptyMethodRejected | app/abci.go:90-95 | an empty method is refused even if registered |
| Admission.IsValid | app/app.go:32-62 | EncodingError exactly when the tx is not two parts on `=`; DuplicateKey exactly when the key holds that same value; otherwise OK |
| Admission.ResubmissionIsDuplicate | app/app.go:38-55 | a stored `key=value` resubmitted is a duplicate, and a new value for the key is not |
| Queries.Matching | app/abci.go:154-160 | a key is kept exactly when it is visited and contains both parts |
| Queries.MatchingInOrder | app/abci.go:154-160 | the matches keep the visiting order: each sits at a position in the visited keys, and the positions increase |
| Queries.MatchingDistinct | app/abci.go:154-160 | a scan over distinct keys reports each match once |
| Queries.BarPrefixedJoin | app/abci.go:158-177 | dropping the leading `\|` of the accumulated result gives the keys joined by `\|` |
| Queries.Query | app/abci.go:142-206 | an `A=B` query lists every stored key containing A and B, each once, joined by `\|` ("exists"), or gives an empty value and "does not exists"; the empty key is UnknownError "Key cannot be empty"; any other key is looked up exactly ("exists" with the value, or "does not exist"); OK exactly when the key is not empty, and the key is echoed |
| Queries.Lookup | sitcomapp/sitcomapp.go:157-171 | an empty key answers nothing; any other key is looked up exactly |
| Queries.LookupAgrees | app/abci.go:182-205 | a non-empty key without `=` gets the same answer from both snapshots |
| Application.Ledger.constructor | sitcomapp/sitcomapp.go:66-79 | the new ledger is the store reopened from its saved metadata |
| Application.Ledger.Info | sitcomapp/sitcomapp.go:85-95 | returns the count, last height and last app hash |
| Application.Ledger.Commit | sitcomapp/sitcomapp.go:148-155 | leaves the state, and returns the hash, of `Machine.Commit` |
| Application.Ledger.UpdateValidator | app/app.go:137-169 | leaves the state, and returns the code, of `Validators.UpdateValidator` |
| Application.Ledger.ExecValidatorTx | app/commit.go:46-76 | leaves the state, and returns the code, of `Validators.ExecValidatorTx` |
| Application.Ledger.InitChain | sitcomapp/sitcomapp.go:173-181 | the loop leaves the state of `Validators.InitChain` |
| Application.Ledger.BeginBlock | sitcomapp/sitcomapp.go:183-200 | the evidence loop leaves the state of `Validators.BeginBlock` |
| Application.Ledger.EndBlock | sitcomapp/sitcomapp.go:202-204 | returns the block's validator updates |
| Application.Ledger.AddRecord | app/commit.go:113-153 | leaves the state, and returns the event or error, of `Handlers.AddRecord`; an error changes nothing |
| Application.Ledger.StaffAddCompetence | sitcomapp/sitcomapp.go:324-361 | `Handlers.AddRecord` for a competence record |
| Application.Ledger.AttendedActivity | sitcomapp/sitcomapp.go:363-399 | `Handlers.AddRecord` for an activity record |
| Application.Ledger.DeliverTextTx | sitcomapp/sitcomapp.go:100-141 | leaves the state, and returns the result, of `Handlers.DeliverTextTx` |
| Application.Ledger.CheckTextTx | sitcomapp/sitcomapp.go:143-146 | admits every transaction |
| Application.Ledger.Lookup | sitcomapp/sitcomapp.go:157-171 | answers `Queries.Lookup` over the committed store |
| Application.Ledger.UpdateValidatorBatched | app/validator.go:53-89 | leaves the state, and returns the code, of `Validators.UpdateValidatorBatched` |
| Application.Ledger.SetValidator | app/validator.go:91-113 | leaves the state, and returns the code, of `Validators.SetValidator`, which runs the corrected removal |
| Application.Ledger.GiveBadge | app/abci.go:44-63 | leaves the state, and returns the code, of `Envelope.GiveBadge` |
| Application.Ledger.DeliverTx | app/abci.go:28-70 | leaves the state, and returns the code, of `Envelope.DeliverTx`, which runs the corrected removal |
| Application.Ledger.CheckTx | app/abci.go:73-123 | answers `Admission.CheckTx` and changes nothing |
| Application.Ledger.IsValid | app/app.go:32-62 | answers `Admission.IsValid` over the committed store and changes nothing |
| Application.Ledger.Scan | app/abci.go:149-163 | the scan loop builds `\|` plus the key for each matching key, in visiting order |
| Application.Ledger.Query | app/abci.go:142-206 | answers `Queries.Query` over the committed store, the empty-key UnknownError included |
| Application.Ledger.AddNewService | app/devlier.go:11-23 | leaves the state, and returns the code, of `Services.AddNewService` |
| Application.Ledger.StoreStripped | app/devlier.go:25-51 | leaves the state, and returns the code, of `Services.StoreStripped` |
| Application.Ledger.GiveBadgeObject | app/devlier.go:25-51 | `StoreStripped` without `giver` |
| Application.Ledger.ApproveActivity | app/devlier.go:53-80 | `StoreStripped` without `approver` |
| Runtime.PackSemester | runtime/src/sitcom.rs:100 | the packed semester lies in 12000..23000 (so it fits in u16), and division and remainder by 10000 recover semester and year |
| Runtime.PackSemesterInjective | runtime/src/sitcom.rs:133 | distinct valid (semester, year) pairs pack to distinct values |
| Runtime.CheckCall | runtime/src/sitcom.rs:97-100 | accepted exactly when signed, semester 1 or 2 and year 2000..3000; an unsigned origin fails first, then the semester, then the year |
| Runtime.Appended | runtime/src/sitcom.rs:113-121 | the list under the key becomes the old list (or the empty one) with the value appended; no other list changes |
| Runtime.StaffAdd | runtime/src/sitcom.rs:96-127 | succeeds exactly when the checks pass, and otherwise fails with their error and no change; on success the record with the caller, the packed semester and its own id is stored under that id, the competence and the hash are appended to the student's and the semester's lists, one event is emitted, and the other storage items are unchanged |
| Runtime.Approve | runtime/src/sitcom.rs:129-160 | the same for `approve_activity`: the activity record under its id, the activity and semester lists, one event, and the other storage items unchanged |
| Runtime.AutoAdd | runtime/src/sitcom.rs:166-191 | the record under its id, the shared competence list and the auto-add semester list appended, one event, and the other storage items unchanged |
| Runtime.StaffAddIndexed | runtime/src/sitcom.rs:96-127 | succeeds exactly when signed with semester 1 or 2 and year 2000..3000; a refused call changes nothing; a successful one stores the record under its id, appends to the student's and the semester's lists, emits one event and keeps every index consistent with the records |
| Runtime.ApproveIndexed | runtime/src/sitcom.rs:129-160 | the same for `approve_activity`: the success condition, the record under its id, both lists, the event and the index invariant |
| Runtime.AutoAddIndexed | runtime/src/sitcom.rs:166-191 | `auto_add_competence` never fails, stores the record under its id, appends to the shared competence list and the semester list, and keeps the indexes consistent |
| Runtime.SitcomModule.constructor | runtime/src/sitcom.rs:60-76 | genesis storage is empty, and its indexes are consistent |
| Runtime.SitcomModule.StaffAddCompetence | runtime/src/sitcom.rs:96-127 | leaves the storage, and returns the result, of `Runtime.StaffAdd` |
| Runtime.SitcomModule.ApproveActivity | runtime/src/sitcom.rs:129-160 | leaves the storage, and returns the result, of `Runtime.Approve` |
| Runtime.SitcomModule.AutoAddCompetence | runtime/src/sitcom.rs:166-191 | succeeds and leaves the storage of `Runtime.AutoAdd` |

## Left out

- Storage faults. The model's store and batch never fail. In `app/`, the errors returned by the batch's `Set` and `Delete` (app/abci.go:60, app/state.go:72, app/validator.go:73 and 82) and by the batch `Commit` (app/abci.go:134) are ignored: `GiveBadge` and `SetValidator` count the transaction anyway, and a failed `Commit` loses the block's writes, metadata record included, after app/abci.go:129-131 have already advanced the hash and the height. A failing `View` in `isValid` or `loadAppState` panics, as does a failing `Set` of the tm-db store in sitcomapp/sitcomapp.go. A failing `View` in `updateValidator` of `app/validator.go` is answered Unauthorized. `Query` of `app/abci.go` turns a `View` error into UnknownError; the model has that answer only for the empty key.
- Envelope.DeliverTx: an envelope that decodes without a payload makes the Go code dereference nil and panic. The model answers UnknownError with no change instead, so that one malformed transaction cannot stop the node.
- Admission.CheckTx: the same nil payload panics at app/abci.go:90, where the model answers UnknownError. `ed25519.Verify` also panics when the public key is not 32 bytes long, so an envelope with a missing or short key crashes `CheckTx`. The model leaves verification to the `verify` parameter, which answers for every key length.
- Admission.IsValid: a transaction with an empty key (`=v`) makes badger's `Get` fail with `ErrEmptyKey`, and `isValid` panics. The model looks the empty key up like any other key.
- Logs, `fmt.Printf` and the store dump of an empty `Query`. Their text is not modelled, except the `Log` strings that `Query` returns.
- Substrate event deposit. Events are appended to a list, with no indexing by block.
- Protobuf, JSON, amino `WriteMessage`/`ReadMessage`, SHA-256, Ed25519 and key addresses. They are function parameters (`Types.Codecs`), so nothing is proved about their own behaviour.
- The `methodList` allow-list of `CheckTx` is not part of this model. It is a parameter.
- Substrate `random_seed` hashing. The record id is a parameter. The index lemmas require that an id is either new or names a record of the same semester, which a collision-free hash over the semester guarantees.
- The `Validators()` iterators, `main.go`, `sitcomapp/database.go`, `runtime/src/template.rs` and `version/version.go`: bootstrap, SQL, a superseded template and constants.
- Reading and decoding the saved metadata record. The `Application.Ledger` constructor receives the decoded metadata.
- The order the store iterator visits keys in. It is a parameter required to list each stored key once. Badger visits keys in byte order.
- The `RequestBeginBlock` header fields. The application does not use them.
- Concurrency between `CheckTx` and `DeliverTx`. `CheckTx` is modelled as a function that reads no state.
- Application.Ledger.StaffAddCompetence: the `app/commit.go` records (numeric ids, little-endian event values) and the `sitcomapp/sitcomapp.go` records (text ids) share one record type. The `IdSchema` argument selects which; `DeliverTextTx` uses the text one.

## Findings

| source | as written | input that shows it | evidently intended | confidence | as-written member | corrected member |
|---|---|---|---|---|---|---|
| app/validator.go:57-71 | the closure passed to `View` returns nil both when the key is present and when it is absent, and the code then refuses whenever the error is not ErrKeyNotFound, so every removal is Unauthorized | a power-0 update for a validator whose `val:<base64>` key is in the store | remove a present validator; refuse only an absent one | high; not executed | Validators.UpdateValidatorBatchedAsWritten, Validators.RemovalOfPresentValidatorRefused | Validators.UpdateValidatorBatched (which Validators.SetValidator and Envelope.DeliverTx are built on) |
| app/state.go:40-67 | `SaveState` writes `Size`, but `loadAppState` decodes into `StateMetaData`, which has no `Size`, so the count restarts at 0 | any restart after a block that stored a record (size ≠ 0): the next app hash encodes 0 | restore the count with the height and hash, as `loadState` of sitcomapp/sitcomapp.go does | high; not executed | Machine.ReopenAsWritten, Machine.RestartLosesCount | Machine.Reopen, Machine.RestartTransparent |
