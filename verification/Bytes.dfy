/** Integer types, status codes, bytes, and the overwriting of a stretch of a byte sequence. */
module Bytes {

  type byte = b: int | 0 <= b < 256

  type uint16 = n: int | 0 <= n < 0x1_0000

  type uint32 = n: int | 0 <= n < 0x1_0000_0000

  const NO_MEMORY := 3
  const EINVARG := 2

  /** The `n` bytes of `d` from `at` on. */
  function Slice(d: seq<byte>, at: nat, n: nat): (r: seq<byte>)
    requires at + n <= |d|
    ensures |r| == n
  {
    d[at..at + n]
  }

  /** `d` with the bytes from `pos` on replaced by `s`. */
  function Splice(d: seq<byte>, pos: nat, s: seq<byte>): (r: seq<byte>)
    requires pos + |s| <= |d|
    ensures |r| == |d|
  {
    d[..pos] + s + d[pos + |s|..]
  }

  /** What was spliced in is read back. */
  lemma SpliceReadsBack(d: seq<byte>, pos: nat, s: seq<byte>)
    requires pos + |s| <= |d|
    ensures Slice(Splice(d, pos, s), pos, |s|) == s
  {
  }

  /** A splice leaves every disjoint stretch alone. */
  lemma SpliceFrame(d: seq<byte>, pos: nat, s: seq<byte>, at: nat, n: nat)
    requires pos + |s| <= |d| && at + n <= |d|
    requires at + n <= pos || pos + |s| <= at
    ensures Slice(Splice(d, pos, s), at, n) == Slice(d, at, n)
  {
  }

  /** Splicing in a stretch of `s` and then the stretch that follows it is splicing in both. */
  lemma SpliceGrow(d: seq<byte>, pos: nat, s: seq<byte>, at: nat, m: nat, n: nat)
    requires at + m + n <= |s| && pos + m + n <= |d|
    ensures Splice(Splice(d, pos, Slice(s, at, m)), pos + m, Slice(s, at + m, n)) == Splice(d, pos, Slice(s, at, m + n))
  {
  }

  lemma SliceGrow(d: seq<byte>, at: nat, m: nat, n: nat)
    requires at + m + n <= |d|
    ensures Slice(d, at, m) + Slice(d, at + m, n) == Slice(d, at, m + n)
  {
  }

  lemma SpliceNothing(d: seq<byte>, pos: nat, s: seq<byte>, at: nat)
    requires pos <= |d| && at <= |s|
    ensures Splice(d, pos, Slice(s, at, 0)) == d
  {
  }

  lemma SliceOfSlice(d: seq<byte>, at: nat, n: nat, offset: nat, m: nat)
    requires at + n <= |d| && offset + m <= n
    ensures Slice(Slice(d, at, n), offset, m) == Slice(d, at + offset, m)
  {
    var a, b := Slice(Slice(d, at, n), offset, m), Slice(d, at + offset, m);
    forall k | 0 <= k < m ensures a[k] == b[k] {
      assert a[k] == d[at..at + n][offset + k];
    }
  }
}
