/**
 The root directory of src/fs/fat/fat12.c: 224 slots of 28 bytes, and the two look-ups over it.
 */
module RootDir {
  import opened Bytes
  import opened FatTable

  const SLOTS := 224
  const SLOT_BYTES := 28
  const SPACE: byte := 32

  datatype FileDir = FileDir(name: seq<byte>, ext: seq<byte>, firstCluster: uint16,
                             attribute: byte, stamp: seq<byte>, size: uint32)
  {
    predicate Shaped() {
      |name| == 8 && |ext| == 3 && |stamp| == 6
    }
  }

  const BLANK := FileDir([0, 0, 0, 0, 0, 0, 0, 0], [0, 0, 0], 0, 0, [0, 0, 0, 0, 0, 0], 0)

  type Slot = f: FileDir | f.Shaped() witness BLANK

  type Root = r: seq<Slot> | |r| == SLOTS witness seq(SLOTS, _ => BLANK)

  // ---------- names ----------

  /** A string argument: the characters before the terminating NUL. */
  type CString = s: seq<byte> | 0 !in s witness []

  /** A name as a slot stores it: cut or padded with spaces to `width`. */
  function Padded(s: CString, width: nat): (r: seq<byte>)
    ensures |r| == width && (0 < width ==> r[0] != 0)
  {
    seq(width, i requires 0 <= i < width => if i < |s| then s[i] else SPACE)
  }

  /** The k-th character of a stored name: the string's own, or a space behind its end. */
  lemma PaddedAt(s: CString, width: nat, k: nat)
    requires k < width
    ensures k < |s| ==> Padded(s, width)[k] == s[k]
    ensures k >= |s| ==> Padded(s, width)[k] == 32
  {
  }

  method PadName(s: CString, width: nat) returns (r: seq<byte>)
    ensures r == Padded(s, width)
  {
    r := [];
    for i := 0 to width
      invariant r == Padded(s, width)[..i]
    {
      r := r + [if i < |s| then s[i] else SPACE];
    }
  }

  /** comp_file_name: the first (at most 8) characters of the query begin the name. */
  predicate Matches(f: Slot, query: CString) {
    if |query| <= 8 then query <= f.name else query[..8] == f.name
  }

  /** What comp_file_name accepts: exactly the names that agree with the query, character by character. */
  lemma MatchesExactly(f: Slot, query: CString)
    ensures Matches(f, query) <==> forall k :: 0 <= k < 8 && k < |query| ==> query[k] == f.name[k]
  {
    if |query| <= 8 {
      if forall k :: 0 <= k < 8 && k < |query| ==> query[k] == f.name[k] {
        assert query == f.name[..|query|];
      }
    } else {
      assert forall k :: 0 <= k < 8 ==> query[..8][k] == query[k];
    }
  }

  /** Two names that differ within the query's first eight characters are never both accepted. */
  lemma NeverConfused(f: Slot, g: Slot, query: CString, k: nat)
    requires k < 8 && k < |query| && f.name[k] != g.name[k] && Matches(f, query)
    ensures !Matches(g, query)
  {
    MatchesExactly(f, query);
    MatchesExactly(g, query);
  }

  /** A slot that got its name from `name` is found by exactly the queries that begin it, as padded with spaces. */
  lemma PaddedMatches(f: Slot, name: CString, query: CString)
    requires f.name == Padded(name, 8)
    ensures Matches(f, query) <==>
            forall k :: 0 <= k < 8 && k < |query| ==> query[k] == if k < |name| then name[k] else 32
  {
    MatchesExactly(f, query);
  }

  method CompFileName(f: Slot, query: CString) returns (b: bool)
    ensures b == Matches(f, query)
  {
    var len := if |query| < 8 then |query| else 8;
    for i := 0 to len
      invariant query[..i] == f.name[..i]
    {
      if f.name[i] != query[i] {
        assert query[..len][i] != f.name[..len][i];
        return false;
      }
    }
    return true;
  }

  /** A slot is in use when its name does not begin with 0. */
  predicate Live(f: Slot) {
    f.name[0] != 0
  }

  /** Only a slot in use matches a query that is not empty. */
  lemma MatchIsLive(f: Slot, query: CString)
    requires Matches(f, query) && query != []
    ensures Live(f)
  {
    assert f.name[0] == query[0];
  }

  /** The lowest slot from `from` on that matches, or -1. */
  function FindFrom(root: Root, query: CString, from: nat): (r: int)
    requires from <= SLOTS
    ensures r == -1 || (from <= r < SLOTS && Matches(root[r], query))
    decreases |root| - from
  {
    if from == SLOTS then -1
    else if Matches(root[from], query) then from
    else FindFrom(root, query, from + 1)
  }

  /** No slot before the one found matches, and none at all when none is found. */
  lemma {:induction false} FindIsFirst(root: Root, query: CString, from: nat, i: nat)
    requires from <= i < SLOTS && Matches(root[i], query)
    ensures from <= FindFrom(root, query, from) <= i
    decreases SLOTS - from
  {
    if !Matches(root[from], query) {
      FindIsFirst(root, query, from + 1, i);
    }
  }

  method FindFile(root: array<Slot>, query: CString) returns (r: int)
    requires root.Length == SLOTS
    ensures r == FindFrom(root[..], query, 0)
  {
    var i := 0;
    while i < SLOTS
      invariant 0 <= i <= SLOTS
      invariant FindFrom(root[..], query, 0) == FindFrom(root[..], query, i)
    {
      var found := CompFileName(root[i], query);
      if found {
        return i;
      }
      i := i + 1;
    }
    return -1;
  }

  /** The lowest slot from `from` on that is not in use, or SLOTS. */
  function UnusedFrom(root: Root, from: nat): (r: nat)
    requires from <= SLOTS
    ensures from <= r <= SLOTS && (r < SLOTS ==> !Live(root[r]))
    decreases |root| - from
  {
    if from == SLOTS || !Live(root[from]) then from else UnusedFrom(root, from + 1)
  }

  /** The slot found is the first one not in use; none is found exactly when all are in use. */
  lemma {:induction false} UnusedFromExactly(root: Root, from: nat)
    requires from <= SLOTS
    ensures var r := UnusedFrom(root, from);
            && (forall i :: from <= i < r ==> Live(root[i]))
            && (r == SLOTS <==> forall i :: from <= i < SLOTS ==> Live(root[i]))
    decreases SLOTS - from
  {
    if from < SLOTS && Live(root[from]) {
      UnusedFromExactly(root, from + 1);
    }
  }

  method FindUnused(root: array<Slot>) returns (i: nat)
    requires root.Length == SLOTS
    ensures i == UnusedFrom(root[..], 0)
  {
    i := 0;
    while i < SLOTS && root[i].name[0] != 0
      invariant 0 <= i <= SLOTS && UnusedFrom(root[..], i) == UnusedFrom(root[..], 0)
    {
      i := i + 1;
    }
  }

  // ---------- the bytes on the disk ----------

  function Le16(n: uint16): (r: seq<byte>)
    ensures |r| == 2
  {
    [n % 256, n / 256]
  }

  function Le32(n: uint32): (r: seq<byte>)
    ensures |r| == 4
  {
    Le16(n % 0x1_0000) + Le16(n / 0x1_0000)
  }

  /** The 28 bytes of a slot; the compiler's padding bytes are written as zeros. */
  function EncodeSlot(f: Slot): (r: seq<byte>)
    ensures |r| == SLOT_BYTES
  {
    SlotNames(f) + SlotInfo(f) + Le32(f.size)
  }

  function SlotNames(f: Slot): (r: seq<byte>)
    ensures |r| == 12
  {
    f.name + f.ext + [0]
  }

  function SlotInfo(f: Slot): (r: seq<byte>)
    ensures |r| == 12
  {
    Le16(f.firstCluster) + [f.attribute] + f.stamp + [0, 0, 0]
  }

  function DecodeSlot(b: seq<byte>): (f: Slot)
    requires |b| == SLOT_BYTES
  {
    DecodeParts(b[..12], b[12..24], b[24..])
  }

  function DecodeParts(names: seq<byte>, info: seq<byte>, size: seq<byte>): (f: Slot)
    requires |names| == 12 && |info| == 12 && |size| == 4
  {
    FileDir(names[..8], names[8..11], OfLe16(info[..2]), info[2], info[3..9], OfLe32(size))
  }

  function OfLe16(b: seq<byte>): uint16
    requires |b| == 2
  {
    var lo: int, hi: int := b[0], b[1];
    lo + 256 * hi
  }

  function OfLe32(b: seq<byte>): uint32
    requires |b| == 4
  {
    var lo: int, hi: int := OfLe16(b[..2]), OfLe16(b[2..]);
    lo + 0x1_0000 * hi
  }

  lemma SlotRoundTrip(f: Slot)
    ensures DecodeSlot(EncodeSlot(f)) == f
  {
    hide SlotNames, SlotInfo, DecodeParts, Le32;
    var b := EncodeSlot(f);
    assert b[..12] == SlotNames(f) && b[12..24] == SlotInfo(f) && b[24..] == Le32(f.size);
    PartsRoundTrip(f);
  }

  lemma PartsRoundTrip(f: Slot)
    ensures DecodeParts(SlotNames(f), SlotInfo(f), Le32(f.size)) == f
  {
    hide SlotNames, SlotInfo, OfLe16, OfLe32, Le32;
    NamesRoundTrip(f);
    InfoRoundTrip(f);
    Le32RoundTrip(f.size);
  }

  lemma Le32RoundTrip(n: uint32)
    ensures OfLe32(Le32(n)) == n
  {
    assert Le32(n)[..2] == Le16(n % 0x1_0000) && Le32(n)[2..] == Le16(n / 0x1_0000);
  }

  lemma NamesRoundTrip(f: Slot)
    ensures SlotNames(f)[..8] == f.name && SlotNames(f)[8..11] == f.ext
  {
  }

  lemma InfoRoundTrip(f: Slot)
    ensures var b := SlotInfo(f);
            OfLe16(b[..2]) == f.firstCluster && b[2] == f.attribute && b[3..9] == f.stamp
  {
    assert SlotInfo(f)[..2] == Le16(f.firstCluster);
  }

  const ROOT_BYTES := 6272
  const TABLE_BYTES := 5296

  function EncodeRoot(root: Root): (b: seq<byte>)
    ensures |b| == ROOT_BYTES
  {
    seq(ROOT_BYTES, k requires 0 <= k < ROOT_BYTES => EncodeSlot(root[k / SLOT_BYTES])[k % SLOT_BYTES])
  }

  function DecodeRoot(b: seq<byte>): (root: Root)
    requires |b| == ROOT_BYTES
  {
    seq(SLOTS, i requires 0 <= i < SLOTS => DecodeSlot(b[i * SLOT_BYTES..(i + 1) * SLOT_BYTES]))
  }

  /** Two bytes, low byte first. */
  function Word(lo: int, hi: int): int {
    lo + 256 * hi
  }

  /** A slot's 28 bytes, with its fields at the offsets of the C structure. */
  predicate FieldsIn(b: seq<byte>, f: Slot)
    requires |b| == 28
  {
    && (forall k :: 0 <= k < 8 ==> b[k] == f.name[k])
    && (forall k :: 0 <= k < 3 ==> b[8 + k] == f.ext[k])
    && Word(b[12], b[13]) == f.firstCluster
    && b[14] == f.attribute
    && (forall k :: 0 <= k < 6 ==> b[15 + k] == f.stamp[k])
    && Word(b[24], b[25]) + 0x1_0000 * Word(b[26], b[27]) == f.size
  }

  /** Slot `i` has the 28 bytes from 28 * i on. */
  lemma SlotLayout(root: Root, i: nat)
    requires i < SLOTS
    ensures FieldsIn(Slice(EncodeRoot(root), 28 * i, 28), root[i])
  {
    hide EncodeSlot, EncodeRoot;
    SlotBytes(root, i);
    FieldLayout(root[i]);
  }

  lemma FieldLayout(f: Slot)
    ensures FieldsIn(EncodeSlot(f), f)
  {
    LeIs(f.size);
    var e, info := EncodeSlot(f), SlotInfo(f);
    InfoLayout(f);
    hide SlotInfo, Le32, Le16;
    assert forall k :: 0 <= k < 12 ==> e[12 + k] == info[k];
    assert forall k :: 0 <= k < 4 ==> e[24 + k] == Le32(f.size)[k];
    forall k | 0 <= k < 6 ensures e[15 + k] == f.stamp[k] {
      assert e[12 + (3 + k)] == info[3 + k];
    }
  }

  lemma InfoLayout(f: Slot)
    ensures var info := SlotInfo(f);
            && Word(info[0], info[1]) == f.firstCluster && info[2] == f.attribute
            && forall k :: 0 <= k < 6 ==> info[3 + k] == f.stamp[k]
  {
  }

  lemma LeIs(n: uint32)
    ensures var b := Le32(n); Word(b[0], b[1]) + 0x1_0000 * Word(b[2], b[3]) == n
  {
  }

  /** Where entry `c` of the table is: two bytes, low byte first. */
  lemma EntryLayout(t: Table, c: nat)
    requires c < ENTRIES
    ensures Word(EncodeTable(t)[2 * c], EncodeTable(t)[2 * c + 1]) == t[c]
  {
  }

  /** The directory read back from the disk is the directory that was written. */
  lemma RootRoundTrip(root: Root)
    ensures DecodeRoot(EncodeRoot(root)) == root
  {
    forall i | 0 <= i < SLOTS ensures DecodeRoot(EncodeRoot(root))[i] == root[i] {
      SlotBytes(root, i);
      SlotRoundTrip(root[i]);
    }
  }

  lemma SlotBytes(root: Root, i: nat)
    requires i < SLOTS
    ensures EncodeRoot(root)[i * SLOT_BYTES..(i + 1) * SLOT_BYTES] == EncodeSlot(root[i])
  {
    var part := EncodeRoot(root)[i * SLOT_BYTES..(i + 1) * SLOT_BYTES];
    forall j | 0 <= j < SLOT_BYTES ensures part[j] == EncodeSlot(root[i])[j] {
      var k := i * SLOT_BYTES + j;
      assert k / SLOT_BYTES == i && k % SLOT_BYTES == j;
    }
  }

  function EncodeTable(t: Table): (b: seq<byte>)
    ensures |b| == TABLE_BYTES
  {
    seq(TABLE_BYTES, k requires 0 <= k < TABLE_BYTES => if k % 2 == 0 then t[k / 2] % 256 else t[k / 2] / 256)
  }

  /** A zeroed table whose first bytes are `b`. */
  function DecodeTable(b: seq<byte>): (t: Table)
    requires |b| <= TABLE_BYTES && |b| % 2 == 0
  {
    seq(ENTRIES, c requires 0 <= c < ENTRIES => if 2 * c < |b| then OfLe16(b[2 * c..2 * c + 2]) else FREE)
  }

  /**
   read_FAT12_table asks for ENTRIES bytes, which is half of the table. Loading it restores the
   table that was written exactly when the upper half of the table was free.
   */
  lemma HalfTableLoad(t: Table)
    ensures DecodeTable(EncodeTable(t)[..ENTRIES]) == t
            <==> forall c :: ENTRIES / 2 <= c < ENTRIES ==> t[c] == FREE
  {
    var b := EncodeTable(t);
    var u := DecodeTable(b[..ENTRIES]);
    forall c | 0 <= c < ENTRIES / 2 ensures u[c] == t[c] {
      assert b[2 * c] == t[c] % 256 && b[2 * c + 1] == t[c] / 256;
    }
  }
}
