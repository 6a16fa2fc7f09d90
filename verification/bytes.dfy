/**
 * Byte strings, as Go's `[]byte` and `string` hold them, and the few
 * operations of the `bytes` and `strings` packages the ledger uses:
 * splitting on a one-byte separator, joining, prefix and substring tests.
 */
module Bytes {

  type byte = b: int | 0 <= b < 0x100
  type bytes = seq<byte>

  /** The bytes of an ASCII literal. */
  function Ascii(s: string): bytes
    requires forall i | 0 <= i < |s| :: s[i] < 128 as char
  {
    seq(|s|, i requires 0 <= i < |s| => s[i] as int)
  }

  /** `strings.HasPrefix` / `bytes.HasPrefix`. */
  predicate HasPrefix(s: bytes, prefix: bytes) {
    |prefix| <= |s| && s[..|prefix|] == prefix
  }

  /** `bytes.Contains`: `sub` occurs in `s` at some offset (the empty string occurs everywhere). */
  predicate Contains(s: bytes, sub: bytes)
    decreases |s|
  {
    HasPrefix(s, sub) || (|s| > 0 && Contains(s[1..], sub))
  }

  /** The position of the first occurrence of `c` in `s`. */
  function IndexOf(s: bytes, c: byte): (i: nat)
    requires c in s
    ensures i < |s| && s[i] == c && c !in s[..i]
  {
    if s[0] == c then 0 else 1 + IndexOf(s[1..], c)
  }

  /** `bytes.Join(parts, []byte{sep})`. */
  function Join(parts: seq<bytes>, sep: byte): bytes
    requires |parts| >= 1
    decreases |parts|
  {
    if |parts| == 1 then parts[0] else parts[0] + [sep] + Join(parts[1..], sep)
  }

  /**
   * `bytes.Split(s, []byte{sep})` / `strings.Split`: the pieces between the
   * occurrences of `sep`. The empty string splits into one empty piece.
   */
  function Split(s: bytes, sep: byte): (parts: seq<bytes>)
    ensures |parts| >= 1
    ensures forall i | 0 <= i < |parts| :: sep !in parts[i]
    ensures Join(parts, sep) == s
    decreases |s|
  {
    if sep !in s then [s]
    else
      var i := IndexOf(s, sep);
      [s[..i]] + Split(s[i + 1..], sep)
  }

  /** The first separator of `a + [sep] + b` is the one after `a` when `a` has none. */
  lemma {:induction false} IndexOfAfter(a: bytes, b: bytes, sep: byte)
    requires sep !in a
    ensures sep in a + [sep] + b
    ensures IndexOf(a + [sep] + b, sep) == |a|
    decreases |a|
  {
    var s := a + [sep] + b;
    assert s[|a|] == sep;
    if a != [] {
      assert s[1..] == a[1..] + [sep] + b;
      IndexOfAfter(a[1..], b, sep);
    }
  }

  /** Splitting undoes joining: `Split` and `Join` are inverse on separator-free pieces. */
  lemma {:induction false} SplitJoin(parts: seq<bytes>, sep: byte)
    requires |parts| >= 1
    requires forall i | 0 <= i < |parts| :: sep !in parts[i]
    ensures Split(Join(parts, sep), sep) == parts
    decreases |parts|
  {
    if |parts| > 1 {
      var rest := parts[1..];
      var tail := Join(rest, sep);
      var s := parts[0] + [sep] + tail;
      assert Join(parts, sep) == s;
      IndexOfAfter(parts[0], tail, sep);
      assert s[..|parts[0]|] == parts[0];
      assert s[|parts[0]| + 1..] == tail;
      assert Split(s, sep) == [parts[0]] + Split(tail, sep);
      SplitJoin(rest, sep);
      assert parts == [parts[0]] + rest;
    }
  }

  /** A string with exactly one separator splits into exactly the two pieces around it. */
  lemma SplitTwo(a: bytes, b: bytes, sep: byte)
    requires sep !in a && sep !in b
    ensures Split(a + [sep] + b, sep) == [a, b]
  {
    assert Join([a, b], sep) == a + [sep] + b by {
      assert [a, b][1..] == [b];
    }
    SplitJoin([a, b], sep);
  }
}
