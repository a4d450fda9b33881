/**
 What create_file, read_file and delete_file (src/fs/fat/fat12.c) do to the table, the directory
 and the disk, and what every run of them keeps.
 */
module FileSystem {
  import opened Bytes
  import opened Disk
  import opened FatTable
  import opened RootDir
  import opened DataRegion

  /** The in-memory table and directory, and the disk under them. */
  datatype Fs = Fs(table: Table, root: Root, disk: Image)

  /** The arguments of create_file, with the time of creation as an input. */
  datatype Args = Args(name: CString, ext: CString, data: seq<byte>, size: uint32, attribute: byte, stamp: seq<byte>)
  {
    /** The buffer can be read as far as the last write reads it. */
    predicate Readable() {
      |stamp| == 6 && BufferBytes(size) <= |data|
    }
  }

  /** Sizes for which `size + 511` does not wrap around. */
  const MAX_SIZE := 0xFFFF_FE00

  // ---------- the operations ----------

  function NewSlot(a: Args, first: uint16): (f: Slot)
    requires a.Readable()
    ensures Live(f)
  {
    FileDir(Padded(a.name, 8), Padded(a.ext, 3), first, a.attribute, a.stamp, a.size)
  }

  /** Created in a slot; no slot left; or no space left, after which the table is indexed out of range. */
  datatype CreateResult = Created(slot: nat) | RootFull | WildChain(slot: nat)

  function Create(s: Fs, a: Args): (r: (Fs, CreateResult))
    requires a.Readable()
  {
    var i := UnusedFrom(s.root, 0);
    if |FreeList(s.table)| < Clusters(a.size) then
      var t := Linked(s.table, FreeList(s.table));
      if i == SLOTS then (Fs(t, s.root, s.disk), RootFull)
      else (Fs(t, s.root[i := NewSlot(a, NO_SPACE)], s.disk), WildChain(i))
    else
      var cs := NewChain(s.table, a.size);
      var t := Chained(s.table, cs);
      if i == SLOTS then (Fs(t, s.root, s.disk), RootFull)
      else
        var root := s.root[i := NewSlot(a, DATA_SECTOR + cs[0])];
        (Fs(t, root, SaveTable(SaveRoot(WriteData(s.disk, cs, a.data, a.size), root), t)), Created(i))
  }

  /** -NO_MEMORY stored in the 16-bit first_cluster field. */
  const NO_SPACE := 65533

  /** The clusters a new file of this size gets. */
  function NewChain(t: Table, size: uint32): (cs: seq<Cluster>)
    requires Clusters(size) <= |FreeList(t)|
    ensures |cs| == Clusters(size)
  {
    FreeList(t)[..Clusters(size)]
  }

  function SaveTable(d: Image, t: Table): Image {
    Splice(d, FAT_AT, EncodeTable(t))
  }

  function SaveRoot(d: Image, root: Root): Image {
    Splice(d, ROOT_AT, EncodeRoot(root))
  }

  /** The two regions do not overlap, so the order of saving them does not matter. */
  lemma SaveOrder(d: Image, t: Table, root: Root)
    ensures SaveRoot(SaveTable(d, t), root) == SaveTable(SaveRoot(d, root), t)
  {
  }

  /** The chain a slot points at. */
  function Start(f: Slot): int {
    f.firstCluster - DATA_SECTOR
  }

  datatype DeleteResult = Deleted(slot: nat) | DeleteNotFound | DeleteWild(slot: nat)

  function Delete(s: Fs, query: CString): (r: (Fs, DeleteResult)) {
    var i := FindFrom(s.root, query, 0);
    if i == -1 then (s, DeleteNotFound)
    else if !Good(s.table, Start(s.root[i])) then (s, DeleteWild(i))
    else
      var cs := Walk(s.table, Start(s.root[i]));
      var root, t := s.root[i := BLANK], Cleared(s.table, cs);
      (Fs(t, root, SaveTable(SaveRoot(Zeroed(s.disk, cs, |cs|), root), t)), Deleted(i))
  }

  datatype ReadResult = Content(bytes: seq<byte>) | ReadNotFound | ReadWild(slot: nat)

  /** read_file up to its last disk access: the directory is reloaded, the chain is followed. */
  function Read(s: Fs, query: CString): (r: (Fs, ReadResult)) {
    var root := DecodeRoot(Slice(s.disk, ROOT_AT, ROOT_BYTES));
    var i := FindFrom(root, query, 0);
    (s.(root := root),
     if i == -1 then ReadNotFound
     else if !Good(s.table, Start(root[i])) || |Walk(s.table, Start(root[i]))| != Clusters(root[i].size)
             || root[i].size > MAX_SIZE then ReadWild(i)
     else Content(FileBytes(s.disk, Walk(s.table, Start(root[i])), root[i].size)))
  }

  /** The slot's chain would start outside the table. */
  predicate OffTable(f: Slot) {
    !(0 <= Start(f) < ENTRIES)
  }

  /** The slot delete_file finds has a complete chain, or none that starts in the table. */
  predicate DeleteDefined(s: Fs, query: CString) {
    var i := FindFrom(s.root, query, 0);
    i != -1 ==> OffTable(s.root[i]) || Good(s.table, Start(s.root[i]))
  }

  /** The same for the slot read_file finds on the disk, whose chain is also as long as its size asks for. */
  predicate ReadDefined(s: Fs, query: CString) {
    var root := DecodeRoot(Slice(s.disk, ROOT_AT, ROOT_BYTES));
    var i := FindFrom(root, query, 0);
    i != -1 ==>
      || OffTable(root[i]) || root[i].size > MAX_SIZE
      || (Good(s.table, Start(root[i])) && |Walk(s.table, Start(root[i]))| == Clusters(root[i].size))
  }

  // ---------- the invariant ----------

  predicate InUse(s: Fs, i: int) {
    0 <= i < SLOTS && Live(s.root[i])
  }

  /** Every live file has a complete chain with the number of clusters its size asks for. */
  ghost predicate ChainsGood(s: Fs) {
    forall i :: InUse(s, i) ==>
      Good(s.table, Start(s.root[i])) && |Walk(s.table, Start(s.root[i]))| == Clusters(s.root[i].size)
  }

  function ChainOf(s: Fs, i: nat): seq<Cluster>
    requires i < SLOTS && Good(s.table, Start(s.root[i]))
  {
    Walk(s.table, Start(s.root[i]))
  }

  ghost predicate ChainsDisjoint(s: Fs)
    requires ChainsGood(s)
  {
    forall i, j, c: Cluster :: InUse(s, i) && InUse(s, j) && c in ChainOf(s, i) && c in ChainOf(s, j) ==> i == j
  }

  /** Every cluster in use lies on the chain of a live file. */
  ghost predicate Covered(s: Fs)
    requires ChainsGood(s)
  {
    forall c: Cluster {:trigger Owned(s, c)} :: s.table[c] != FREE ==> Owned(s, c)
  }

  /** The cluster lies on the chain of a live file. */
  ghost predicate Owned(s: Fs, c: Cluster)
    requires ChainsGood(s)
  {
    exists i :: InUse(s, i) && c in ChainOf(s, i)
  }

  /** The table and the directory on the disk are the ones in memory. */
  predicate OnDisk(s: Fs) {
    && Slice(s.disk, FAT_AT, TABLE_BYTES) == EncodeTable(s.table)
    && Slice(s.disk, ROOT_AT, ROOT_BYTES) == EncodeRoot(s.root)
  }

  /** So the bytes of each field and of each entry are where the C structures have them. */
  lemma OnDiskLayout(s: Fs, i: nat, c: Cluster)
    requires OnDisk(s) && i < SLOTS
    ensures FieldsIn(Slice(s.disk, 219 * 512 + 28 * i, 28), s.root[i])
    ensures Word(s.disk[202 * 512 + 2 * c], s.disk[202 * 512 + 2 * c + 1]) == s.table[c]
  {
    hide EncodeRoot, EncodeTable, FieldsIn;
    SlotLayout(s.root, i);
    SliceOfSlice(s.disk, ROOT_AT, ROOT_BYTES, 28 * i, 28);
    EntryLayout(s.table, c);
    assert Slice(s.disk, FAT_AT, TABLE_BYTES)[2 * c] == s.disk[FAT_AT + 2 * c];
    assert Slice(s.disk, FAT_AT, TABLE_BYTES)[2 * c + 1] == s.disk[FAT_AT + (2 * c + 1)];
  }

  /** A slot that is not in use is zeroed. */
  predicate Clean(s: Fs) {
    forall i :: 0 <= i < SLOTS ==> Live(s.root[i]) || s.root[i] == BLANK
  }

  ghost predicate Consistent(s: Fs) {
    ChainsGood(s) && ChainsDisjoint(s) && Covered(s) && OnDisk(s) && Clean(s)
  }

  /** The bytes of the file in slot `i`. */
  function FileIn(s: Fs, i: nat): (r: seq<byte>)
    requires i < SLOTS && Good(s.table, Start(s.root[i]))
    requires s.root[i].size <= |ChainOf(s, i)| * SECTOR_SIZE
  {
    FileBytes(s.disk, ChainOf(s, i), s.root[i].size)
  }

  // ---------- saving keeps the data region and the two regions apart ----------

  lemma SaveBoth(d: Image, t: Table, root: Root)
    ensures var e := SaveTable(SaveRoot(d, root), t);
            && Slice(e, FAT_AT, TABLE_BYTES) == EncodeTable(t)
            && Slice(e, ROOT_AT, ROOT_BYTES) == EncodeRoot(root)
            && forall c: Cluster :: Sector(e, c) == Sector(d, c)
  {
    hide EncodeTable, EncodeRoot;
    var r := SaveRoot(d, root);
    SpliceMeta(d, ROOT_AT, EncodeRoot(root));
    SpliceMeta(r, FAT_AT, EncodeTable(t));
    SpliceReadsBack(d, ROOT_AT, EncodeRoot(root));
    SpliceReadsBack(r, FAT_AT, EncodeTable(t));
    SpliceFrame(r, FAT_AT, EncodeTable(t), ROOT_AT, ROOT_BYTES);
  }
}
