/**
 * The ledger's state as a value, and the commit/digest step. The store is
 * the committed key-value map; the batch holds the open block's pending
 * writes, which become visible in the store only at Commit.
 */
module Machine {
  import opened Bytes
  import opened Ints
  import opened Results
  import opened Types
  import LittleEndian

  /** The committed key-value store. */
  type Store = map<bytes, bytes>

  /**
   * The open block's write batch: `Some(v)` for a pending Set, `None` for a
   * pending Delete; a later write to a key replaces the earlier one.
   */
  type Batch = map<bytes, Option<bytes>>

  /**
   * Everything the application owns: the store, the batch, the record count
   * `size`, the last committed height and app hash, the validator updates
   * of the current block (as the appended list of sitcomapp/sitcomapp.go
   * and as the map keyed by base64 public key of app/validator.go), and the
   * address-to-public-key index used by evidence handling.
   */
  datatype AppState = AppState(
    db: Store,
    batch: Batch,
    size: uint64,
    height: int64,
    appHash: bytes,
    valUpdates: seq<ValidatorUpdate>,
    valUpdateMap: map<bytes, ValidatorUpdate>,
    addrToPubKey: map<bytes, PubKey>)

  /** The store after the batch is committed: every pending write takes effect, nothing else changes. */
  function ApplyBatch(db: Store, batch: Batch): (r: Store)
    ensures forall k | k in batch :: batch[k].Some? ==> k in r && r[k] == batch[k].value
    ensures forall k | k in batch :: batch[k].None? ==> k !in r
    ensures forall k | k !in batch :: (k in r <==> k in db) && (k in db ==> r[k] == db[k])
  {
    map k | k in db.Keys + batch.Keys && (k in batch ==> batch[k].Some?) ::
      if k in batch then batch[k].value else db[k]
  }

  /**
   * `Commit`: the app hash becomes the 8-byte little-endian encoding of
   * `size`, the height goes up by one, the metadata record is written into
   * the batch, and the batch is committed to the store, so that all of the
   * block's writes become visible together. Returns the new state and the
   * hash handed back to the consensus engine.
   */
  function Commit(st: AppState, codecs: Codecs, metaKey: bytes): (r: (AppState, bytes))
    ensures var (st', hash) := r;
            && |hash| == 8 && LittleEndian.Decode(hash) == st.size
            && st'.appHash == hash
            && st'.height == IncI64(st.height)
            && st'.size == st.size
            && st'.batch == map[]
            && metaKey in st'.db && st'.db[metaKey] == codecs.encodeMeta(StateMeta(st'.height, hash, st.size))
            && st'.db == ApplyBatch(st.db, st.batch[metaKey := Some(st'.db[metaKey])])
            && st'.valUpdates == st.valUpdates && st'.valUpdateMap == st.valUpdateMap
            && st'.addrToPubKey == st.addrToPubKey
  {
    var hash := LittleEndian.PutUint64(st.size);
    var height := IncI64(st.height);
    var meta := codecs.encodeMeta(StateMeta(height, hash, st.size));
    var batch := st.batch[metaKey := Some(meta)];
    (st.(db := ApplyBatch(st.db, batch), batch := map[], height := height, appHash := hash), hash)
  }

  /**
   * With an empty batch (the sitcomapp/sitcomapp.go snapshot, whose handlers
   * write the store directly) committing is `saveState`: one metadata write
   * straight into the store.
   */
  lemma CommitWithoutBatch(st: AppState, codecs: Codecs, metaKey: bytes)
    requires st.batch == map[]
    ensures var (st', hash) := Commit(st, codecs, metaKey);
            st'.db == st.db[metaKey := codecs.encodeMeta(StateMeta(IncI64(st.height), hash, st.size))]
  {
    var (st', hash) := Commit(st, codecs, metaKey);
    var expected := st.db[metaKey := codecs.encodeMeta(StateMeta(IncI64(st.height), hash, st.size))];
    assert st'.db.Keys == expected.Keys;
  }

  /** `n` blocks committed one after the other. */
  function Commits(st: AppState, codecs: Codecs, metaKey: bytes, n: nat): AppState
    decreases n
  {
    if n == 0 then st else Commits(Commit(st, codecs, metaKey).0, codecs, metaKey, n - 1)
  }

  /** Height monotonicity: after `n` commits the height is the initial height plus `n`, and the record count is untouched. */
  lemma {:induction false} CommitsHeight(st: AppState, codecs: Codecs, metaKey: bytes, n: nat)
    requires st.height + n <= I64_MAX
    ensures Commits(st, codecs, metaKey, n).height == st.height + n
    ensures Commits(st, codecs, metaKey, n).size == st.size
    decreases n
  {
    if n > 0 {
      CommitsHeight(Commit(st, codecs, metaKey).0, codecs, metaKey, n - 1);
    }
  }

  /**
   * Opening the application over a store whose saved metadata is `saved`:
   * the count, height and hash come back; the block bookkeeping starts
   * empty. This is `loadState` of sitcomapp/sitcomapp.go, and what app/state.go
   * evidently intends.
   */
  function Reopen(db: Store, saved: StateMeta): (st: AppState)
    ensures st.db == db && st.batch == map[]
    ensures StateMeta(st.height, st.appHash, st.size) == saved
    ensures st.valUpdates == [] && st.valUpdateMap == map[] && st.addrToPubKey == map[]
  {
    AppState(db, map[], saved.size, saved.height, saved.appHash, [], map[], map[])
  }

  /**
   * `NewAppState` of app/state.go as written: `loadAppState` decodes the
   * saved record into `StateMetaData`, which has no `Size`, so the count
   * restarts at 0 although `SaveState` wrote it.
   */
  function ReopenAsWritten(db: Store, saved: StateMeta): (st: AppState)
    ensures st == Reopen(db, saved).(size := 0)
  {
    AppState(db, map[], 0, saved.height, saved.appHash, [], map[], map[])
  }

  /**
   * A restart between two blocks is invisible when the count is restored:
   * the next commit yields the same app hash and height as without it.
   */
  lemma RestartTransparent(st: AppState, codecs: Codecs, metaKey: bytes)
    ensures var (st1, hash1) := Commit(st, codecs, metaKey);
            var reopened := Reopen(st1.db, StateMeta(st1.height, hash1, st1.size));
            var (st2, hash2) := Commit(st1, codecs, metaKey);
            var (st3, hash3) := Commit(reopened, codecs, metaKey);
            hash3 == hash2 && st3.height == st2.height && st3.size == st2.size
  {
  }

  /**
   * As written, a restart after a block that stored anything rewinds the
   * count: the next commit's app hash encodes 0 instead of the count.
   */
  lemma RestartLosesCount(st: AppState, codecs: Codecs, metaKey: bytes)
    requires st.size != 0
    ensures var (st1, hash1) := Commit(st, codecs, metaKey);
            var reopened := ReopenAsWritten(st1.db, StateMeta(st1.height, hash1, st1.size));
            var (st3, hash3) := Commit(reopened, codecs, metaKey);
            && LittleEndian.Decode(hash1) == st.size
            && LittleEndian.Decode(hash3) == 0
            && hash3 != Commit(st1, codecs, metaKey).1
  {
  }
}
