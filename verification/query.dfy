/**
 * The read side: the exact lookup of sitcomapp/sitcomapp.go and the
 * lookup-or-scan of app/abci.go. Both read the committed store only.
 */
module Queries {
  import opened Bytes
  import opened Types
  import opened Machine
  import opened Handlers

  /** `'|'`, the separator of scan results. */
  const Bar: byte := 0x7C

  /** The answer to a query: code, echoed key, value and log line. */
  datatype QueryResult = QueryResult(code: Code, key: bytes, value: bytes, log: string)

  /**
   * The order a store iterator visits the keys in: every key of the store,
   * each once. (Badger's order is the byte order of the keys; nothing below
   * depends on which order it is.)
   */
  ghost predicate IsIterationOrder(order: seq<bytes>, db: Store) {
    && Distinct(order)
    && (forall k :: k in order <==> k in db)
  }

  /** No element occurs twice. */
  predicate Distinct(s: seq<bytes>) {
    forall i, j | 0 <= i < j < |s| :: s[i] != s[j]
  }

  /** The scan's test: the key contains both halves of the query. */
  predicate Matches(k: bytes, a: bytes, b: bytes) {
    Contains(k, a) && Contains(k, b)
  }

  /** The keys of `keys` that match, in the order visited. */
  function Matching(keys: seq<bytes>, a: bytes, b: bytes): (m: seq<bytes>)
    ensures forall k :: k in m <==> k in keys && Matches(k, a, b)
    ensures |m| <= |keys|
    decreases |keys|
  {
    if keys == [] then []
    else
      var init := Matching(keys[..|keys| - 1], a, b);
      var k := keys[|keys| - 1];
      assert forall k' :: k' in keys <==> k' in keys[..|keys| - 1] || k' == k by {
        assert keys == keys[..|keys| - 1] + [k];
      }
      if Matches(k, a, b) then init + [k] else init
  }

  /**
   * The matches keep the visiting order: `pos` gives, for each match, its
   * position in `keys`, and the positions increase.
   */
  lemma {:induction false} MatchingInOrder(keys: seq<bytes>, a: bytes, b: bytes) returns (pos: seq<nat>)
    ensures var m := Matching(keys, a, b);
            && |pos| == |m|
            && (forall i | 0 <= i < |pos| :: pos[i] < |keys| && keys[pos[i]] == m[i])
            && (forall i, j | 0 <= i < j < |pos| :: pos[i] < pos[j])
    decreases |keys|
  {
    if keys == [] {
      pos := [];
    } else {
      var n := |keys| - 1;
      var init := keys[..n];
      var p := MatchingInOrder(init, a, b);
      assert forall i | 0 <= i < |p| :: keys[p[i]] == init[p[i]];
      if Matches(keys[n], a, b) {
        pos := p + [n];
      } else {
        pos := p;
      }
    }
  }

  /** Visiting keys without repeats finds each match once. */
  lemma {:induction false} MatchingDistinct(keys: seq<bytes>, a: bytes, b: bytes)
    requires Distinct(keys)
    ensures Distinct(Matching(keys, a, b))
    decreases |keys|
  {
    if keys != [] {
      var init := keys[..|keys| - 1];
      var k, mi := keys[|keys| - 1], Matching(init, a, b);
      MatchingDistinct(init, a, b);
      assert k !in init;
      assert k !in mi;
      if Matches(k, a, b) {
        var m := mi + [k];
        assert Matching(keys, a, b) == m;
        forall i, j | 0 <= i < j < |m| ensures m[i] != m[j] {
          if j == |mi| {
            assert m[j] == k;
            assert m[i] == mi[i] && mi[i] in mi;
          } else {
            assert m[i] == mi[i] && m[j] == mi[j];
          }
        }
      }
    }
  }

  /** The accumulated scan result: `'|'` before each key. */
  function BarPrefixed(ks: seq<bytes>): bytes
    decreases |ks|
  {
    if ks == [] then [] else BarPrefixed(ks[..|ks| - 1]) + [Bar] + ks[|ks| - 1]
  }

  lemma {:induction false} JoinAppend(ks: seq<bytes>, k: bytes, sep: byte)
    requires |ks| >= 1
    ensures Join(ks + [k], sep) == Join(ks, sep) + [sep] + k
    decreases |ks|
  {
    if |ks| > 1 {
      assert (ks + [k])[1..] == ks[1..] + [k];
      JoinAppend(ks[1..], k, sep);
    } else {
      assert (ks + [k])[1..] == [k];
    }
  }

  /** Dropping the leading `'|'` leaves the keys joined by `'|'`. */
  lemma {:induction false} BarPrefixedJoin(ks: seq<bytes>)
    requires |ks| >= 1
    ensures BarPrefixed(ks) == [Bar] + Join(ks, Bar)
    decreases |ks|
  {
    var init, k := ks[..|ks| - 1], ks[|ks| - 1];
    if |ks| == 1 {
      assert BarPrefixed(ks) == BarPrefixed([]) + [Bar] + k;
    } else {
      BarPrefixedJoin(init);
      JoinAppend(init, k, Bar);
      assert init + [k] == ks;
    }
  }

  lemma BarPrefixedEmpty(ks: seq<bytes>)
    ensures BarPrefixed(ks) == [] <==> ks == []
  {
    if ks != [] {
      assert |BarPrefixed(ks)| >= 1;
    }
  }

  /**
   * `Query` of app/abci.go. A key of the form `A=B` scans the store: the
   * value lists every stored key containing both A and B, each once, joined
   * by `'|'`, logged "exists"; with no such key the value is empty and the
   * log "does not exists". Any other key is looked up exactly, except the
   * empty key: badger's `Get` refuses it with `ErrEmptyKey`, which `Query`
   * reports as UnknownError with the error's text as log.
   */
  function Query(db: Store, order: seq<bytes>, data: bytes): (r: QueryResult)
    requires IsIterationOrder(order, db)
    ensures r.key == data
    ensures r.code == OK <==> data != []
    ensures data == [] ==> r == QueryResult(UnknownError, [], [], "Key cannot be empty")
    ensures var parts := Split(data, Eq);
      |parts| == 2 ==>
        var m := Matching(order, parts[0], parts[1]);
        && (forall k :: k in m <==> k in db && Matches(k, parts[0], parts[1]))
        && Distinct(m)
        && (m == [] <==> r.log == "does not exists")
        && (m == [] ==> r.value == [])
        && (m != [] ==> r.log == "exists" && r.value == Join(m, Bar))
    ensures |Split(data, Eq)| != 2 && data != [] ==>
        && (data in db ==> r.log == "exists" && r.value == db[data])
        && (data !in db ==> r.log == "does not exist" && r.value == [])
  {
    var parts := Split(data, Eq);
    if |parts| == 2 then
      var m := Matching(order, parts[0], parts[1]);
      var result := BarPrefixed(m);
      MatchingDistinct(order, parts[0], parts[1]);
      BarPrefixedEmpty(m);
      if result == [] then QueryResult(OK, data, [], "does not exists")
      else
        BarPrefixedJoin(m);
        QueryResult(OK, data, result[1..], "exists")
    else if data == [] then QueryResult(UnknownError, data, [], "Key cannot be empty")
    else if data in db then QueryResult(OK, data, db[data], "exists")
    else QueryResult(OK, data, [], "does not exist")
  }

  /**
   * `Query` of sitcomapp/sitcomapp.go: an empty key dumps the store to the
   * console and answers nothing; any other key is looked up exactly.
   */
  function Lookup(db: Store, data: bytes): (r: QueryResult)
    ensures r.code == OK
    ensures data == [] ==> r == QueryResult(OK, [], [], "")
    ensures data != [] && data in db ==> r == QueryResult(OK, data, db[data], "exists")
    ensures data != [] && data !in db ==> r == QueryResult(OK, data, [], "does not exist")
  {
    if data == [] then QueryResult(OK, [], [], "")
    else if data in db then QueryResult(OK, data, db[data], "exists")
    else QueryResult(OK, data, [], "does not exist")
  }

  /** A key without `'='` gets the same answer from both snapshots. */
  lemma LookupAgrees(db: Store, order: seq<bytes>, data: bytes)
    requires IsIterationOrder(order, db)
    requires data != [] && Eq !in data
    ensures Query(db, order, data) == Lookup(db, data)
  {
  }
}
