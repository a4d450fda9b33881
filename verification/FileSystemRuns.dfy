/** Whole runs of create_file and delete_file, and reading a file back at the end of one. */
module FileSystemRuns {
  import opened Bytes
  import opened Disk
  import opened FatTable
  import opened RootDir
  import opened DataRegion
  import opened FileSystem
  import opened FileSystemLaws

  datatype Op = Make(a: Args) | Remove(query: CString)

  function Apply(s: Fs, op: Op): Fs
    requires Fine(s, op)
  {
    match op
    case Make(a) => Create(s, a).0
    case Remove(query) => Delete(s, query).0
  }

  /** A create that finds room, or a delete that is given a name. */
  predicate Fine(s: Fs, op: Op) {
    match op
    case Make(a) => a.Readable() && HasRoom(s, a)
    case Remove(query) => query != []
  }

  predicate AllFine(s: Fs, ops: seq<Op>)
    decreases |ops|
  {
    ops == [] || (Fine(s, ops[0]) && AllFine(Apply(s, ops[0]), ops[1..]))
  }

  function Run(s: Fs, ops: seq<Op>): Fs
    requires AllFine(s, ops)
    decreases |ops|
  {
    if ops == [] then s else Run(Apply(s, ops[0]), ops[1..])
  }

  /** No delete of the run hits slot `i`. */
  predicate Spares(s: Fs, ops: seq<Op>, i: nat)
    requires AllFine(s, ops)
    decreases |ops|
  {
    ops == [] || ((ops[0].Remove? ==> FindFrom(s.root, ops[0].query, 0) != i) && Spares(Apply(s, ops[0]), ops[1..], i))
  }

  /** A disk as the build leaves it: whatever the boot and kernel sectors hold, the table's and the directory's are zero. */
  predicate BlankDisk(d: Image) {
    && (forall k :: FAT_AT <= k < FAT_AT + TABLE_BYTES ==> d[k] == 0)
    && (forall k :: ROOT_AT <= k < ROOT_AT + ROOT_BYTES ==> d[k] == 0)
  }

  /** No file in memory and none on the disk. */
  predicate Blank(s: Fs) {
    && (forall c :: 0 <= c < ENTRIES ==> s.table[c] == FREE)
    && (forall i :: 0 <= i < SLOTS ==> s.root[i] == BLANK)
    && BlankDisk(s.disk)
  }

  lemma BlankIsConsistent(s: Fs)
    requires Blank(s)
    ensures Consistent(s)
  {
    assert forall i :: InUse(s, i) ==> false;
    BlankTable(s);
    BlankRoot(s);
  }

  lemma BlankTable(s: Fs)
    requires Blank(s)
    ensures Slice(s.disk, FAT_AT, TABLE_BYTES) == EncodeTable(s.table)
  {
    var b := Slice(s.disk, FAT_AT, TABLE_BYTES);
    forall k | 0 <= k < TABLE_BYTES ensures b[k] == EncodeTable(s.table)[k] {
      assert b[k] == s.disk[FAT_AT + k];
    }
  }

  lemma BlankRoot(s: Fs)
    requires Blank(s)
    ensures Slice(s.disk, ROOT_AT, ROOT_BYTES) == EncodeRoot(s.root)
  {
    BlankSlot();
    var b := Slice(s.disk, ROOT_AT, ROOT_BYTES);
    forall k | 0 <= k < ROOT_BYTES ensures b[k] == EncodeRoot(s.root)[k] {
      assert b[k] == s.disk[ROOT_AT + k];
      assert s.root[k / SLOT_BYTES] == BLANK;
    }
  }

  lemma BlankSlot()
    ensures forall k :: 0 <= k < SLOT_BYTES ==> EncodeSlot(BLANK)[k] == 0
  {
  }

  /**
   Every run keeps the file system consistent: each cluster in use lies on exactly one live
   file's chain, and each chain ascends to END_OF_FILE with the right number of clusters.
   */
  lemma {:induction false} RunKeeps(s: Fs, ops: seq<Op>)
    requires Consistent(s) && AllFine(s, ops)
    ensures Consistent(Run(s, ops))
    decreases |ops|
  {
    hide Consistent;
    if ops != [] {
      match ops[0] {
        case Make(a) => CreateKeeps(s, a);
        case Remove(query) => DeleteKeeps(s, query);
      }
      RunKeeps(Apply(s, ops[0]), ops[1..]);
    }
  }

  lemma FromBlank(s: Fs, ops: seq<Op>, c: Cluster)
    requires Blank(s) && AllFine(s, ops)
    ensures var e := Run(s, ops);
            && ChainsGood(e)
            && (e.table[c] != FREE <==> exists i :: InUse(e, i) && c in ChainOf(e, i))
            && forall i, j :: InUse(e, i) && InUse(e, j) && c in ChainOf(e, i) && c in ChainOf(e, j) ==> i == j
  {
    hide Run, AllFine, Walk, Good, Blank, OnDisk;
    BlankIsConsistent(s);
    RunKeeps(s, ops);
    var e := Run(s, ops);
    forall i | InUse(e, i) && c in ChainOf(e, i) ensures e.table[c] != FREE {
      WalkFacts(e.table, Start(e.root[i]));
    }
    assert e.table[c] != FREE ==> Owned(e, c);
  }

  /** A file that no delete hits keeps its slot, its chain and its bytes through every run. */
  lemma {:induction false} RunLeaves(s: Fs, ops: seq<Op>, i: nat)
    requires Consistent(s) && AllFine(s, ops) && Spares(s, ops, i)
    requires InUse(s, i) && s.root[i].size <= MAX_SIZE
    ensures var e := Run(s, ops);
            && InUse(e, i) && e.root[i] == s.root[i]
            && Good(e.table, Start(e.root[i])) && ChainOf(e, i) == ChainOf(s, i)
            && FileIn(e, i) == FileIn(s, i)
    decreases |ops|
  {
    hide Create, Delete, Walk, Good, FileBytes, ChainsDisjoint, Covered, OnDisk;
    if ops != [] {
      match ops[0] {
        case Make(a) =>
          CreateKeeps(s, a);
          CreateLeaves(s, a, i);
        case Remove(query) =>
          DeleteKeeps(s, query);
          DeleteLeaves(s, query, i);
      }
      RunLeaves(Apply(s, ops[0]), ops[1..], i);
    }
  }

  /** On a consistent file system read_file returns the bytes of the first slot that matches. */
  lemma ReadsFirstMatch(s: Fs, query: CString)
    requires Consistent(s) && query != []
    ensures var i := FindFrom(s.root, query, 0);
            && Read(s, query).0 == s
            && (i == -1 ==> Read(s, query).1 == ReadNotFound)
            && (i != -1 ==> InUse(s, i))
            && (i != -1 && s.root[i].size <= MAX_SIZE ==> Read(s, query).1 == Content(FileIn(s, i)))
  {
    hide EncodeRoot, DecodeRoot, Slice, Walk, Good, FileBytes;
    RootRoundTrip(s.root);
    var i := FindFrom(s.root, query, 0);
    if i != -1 {
      MatchIsLive(s.root[i], query);
    }
  }

  /** On a consistent file system every query is one of these: a slot without a complete chain is a blank one. */
  lemma AlwaysDefined(s: Fs, query: CString)
    requires Consistent(s)
    ensures DeleteDefined(s, query) && ReadDefined(s, query)
  {
    hide EncodeRoot, DecodeRoot, Slice, Walk, Good;
    RootRoundTrip(s.root);
    var i := FindFrom(s.root, query, 0);
    if i != -1 && !InUse(s, i) {
      assert s.root[i] == BLANK;
    }
  }

  /**
   The round trip: a file is created, any further files are created and others deleted, and then
   read_file returns exactly the bytes that were given, when no earlier slot matches the query.
   */
  lemma RoundTrip(s: Fs, a: Args, ops: seq<Op>, query: CString)
    requires Consistent(s) && a.Readable() && HasRoom(s, a) && a.size <= MAX_SIZE
    requires AllFine(Create(s, a).0, ops) && Spares(Create(s, a).0, ops, UnusedFrom(s.root, 0))
    requires query != [] && FindFrom(Run(Create(s, a).0, ops).root, query, 0) == UnusedFrom(s.root, 0)
    ensures var e := Run(Create(s, a).0, ops);
            Read(e, query) == (e, Content(a.data[..a.size]))
  {
    hide Create, Run, AllFine, Spares, Consistent, Read, FileIn, Walk, Good;
    var mid, i := Create(s, a).0, UnusedFrom(s.root, 0);
    CreateKeeps(s, a);
    CreateHolds(s, a);
    RunLeaves(mid, ops, i);
    RunKeeps(mid, ops);
    ReadsFirstMatch(Run(mid, ops), query);
  }

  /** No run writes the sectors in front of the table: the boot sector and the kernel stay as they are. */
  lemma {:induction false} BootKept(s: Fs, ops: seq<Op>)
    requires Consistent(s) && AllFine(s, ops)
    ensures Slice(Run(s, ops).disk, 0, FAT_AT) == Slice(s.disk, 0, FAT_AT)
    decreases |ops|
  {
    hide Consistent, Slice, Create, Delete;
    if ops != [] {
      match ops[0] {
        case Make(a) =>
          CreateKeeps(s, a);
          CreateBoot(s, a);
        case Remove(query) =>
          DeleteKeeps(s, query);
          DeleteBoot(s, query);
      }
      BootKept(Apply(s, ops[0]), ops[1..]);
    }
  }

  lemma SaveBootKept(d: Image, e: Image, t: Table, root: Root)
    requires Meta(e) == Meta(d)
    ensures Slice(SaveTable(SaveRoot(e, root), t), 0, FAT_AT) == Slice(d, 0, FAT_AT)
  {
    hide EncodeTable, EncodeRoot, Slice, Splice;
    SpliceFrame(e, ROOT_AT, EncodeRoot(root), 0, FAT_AT);
    SpliceFrame(SaveRoot(e, root), FAT_AT, EncodeTable(t), 0, FAT_AT);
    SliceOfSlice(d, 0, DATA_AT, 0, FAT_AT);
    SliceOfSlice(e, 0, DATA_AT, 0, FAT_AT);
  }

  lemma CreateBoot(s: Fs, a: Args)
    requires a.Readable() && HasRoom(s, a)
    ensures Slice(Create(s, a).0.disk, 0, FAT_AT) == Slice(s.disk, 0, FAT_AT)
  {
    hide SaveTable, SaveRoot, WriteData, Slice, Meta;
    var e, cs := Create(s, a).0, NewChain(s.table, a.size);
    NewChainFacts(s.table, a.size);
    WriteDataSectors(s.disk, cs, a.data, a.size);
    SaveBootKept(s.disk, WriteData(s.disk, cs, a.data, a.size), e.table, e.root);
  }

  lemma DeleteBoot(s: Fs, query: CString)
    requires Consistent(s) && query != []
    ensures Slice(Delete(s, query).0.disk, 0, FAT_AT) == Slice(s.disk, 0, FAT_AT)
  {
    hide SaveTable, SaveRoot, Zeroed, Slice, Meta, Walk, Good;
    var i := FindFrom(s.root, query, 0);
    if i != -1 {
      DeleteFacts(s, query);
      var e, cs := Delete(s, query).0, ChainOf(s, i);
      ZeroedSectors(s.disk, cs, |cs|);
      SaveBootKept(s.disk, Zeroed(s.disk, cs, |cs|), e.table, e.root);
    }
  }

  /**
   The round trip from the name: after any further runs read_file finds the file under every query
   that its padded name begins with, when no slot in use before it has a name that agrees with the
   query on its first eight characters.
   */
  lemma RoundTripByName(s: Fs, a: Args, ops: seq<Op>, query: CString)
    requires Consistent(s) && a.Readable() && HasRoom(s, a) && a.size <= MAX_SIZE
    requires AllFine(Create(s, a).0, ops) && Spares(Create(s, a).0, ops, UnusedFrom(s.root, 0))
    requires query != [] && forall k :: 0 <= k < 8 && k < |query| ==> query[k] == if k < |a.name| then a.name[k] else 32
    requires var e := Run(Create(s, a).0, ops);
             forall j :: 0 <= j < UnusedFrom(s.root, 0) && Live(e.root[j]) ==>
               exists k :: 0 <= k < 8 && k < |query| && query[k] != e.root[j].name[k]
    ensures var e := Run(Create(s, a).0, ops);
            Read(e, query) == (e, Content(a.data[..a.size]))
  {
    hide Create, Run, AllFine, Spares, Consistent, Read, FileIn, Walk, Good, Matches, FindFrom, UnusedFrom, Live;
    var mid, i := Create(s, a).0, UnusedFrom(s.root, 0);
    var e := Run(mid, ops);
    CreateKeeps(s, a);
    CreateHolds(s, a);
    CreatedAt(s, a);
    CreateStores(s, a, i);
    RunLeaves(mid, ops, i);
    MatchesExactly(e.root[i], query);
    FindIsFirst(e.root, query, 0, i);
    var j := FindFrom(e.root, query, 0);
    if j < i {
      MatchIsLive(e.root[j], query);
      MatchesExactly(e.root[j], query);
    }
    RoundTrip(s, a, ops, query);
  }

  lemma CreatedAt(s: Fs, a: Args)
    requires a.Readable() && HasRoom(s, a)
    ensures Create(s, a).1 == Created(UnusedFrom(s.root, 0))
  {
    hide Chained, WriteData, SaveTable, SaveRoot, FreeFrom, UnusedFrom;
  }

  // ---------- mounting a disk again ----------

  /** What FAT12_table_init leaves in memory over the disk of `s`. */
  function Remounted(s: Fs): Fs {
    Fs(DecodeTable(Slice(s.disk, FAT_AT, ENTRIES)), seq(SLOTS, _ => BLANK), s.disk)
  }

  /** Mounting a disk as the build leaves it finds no file. */
  lemma MountBlank(d: Image)
    requires BlankDisk(d)
    ensures Blank(Fs(DecodeTable(Slice(d, FAT_AT, ENTRIES)), seq(SLOTS, _ => BLANK), d))
  {
    var b := Slice(d, FAT_AT, ENTRIES);
    forall c | 0 <= c < ENTRIES ensures DecodeTable(b)[c] == FREE {
      if 2 * c < ENTRIES {
        assert b[2 * c] == d[FAT_AT + 2 * c] && b[2 * c + 1] == d[FAT_AT + 2 * c + 1];
      }
    }
  }

  /** The table survives a restart exactly when its upper half is free: only half of it is loaded. */
  lemma RemountTable(s: Fs)
    requires OnDisk(s)
    ensures Remounted(s).table == s.table <==> forall c :: ENTRIES / 2 <= c < ENTRIES ==> s.table[c] == FREE
  {
    HalfTableLoad(s.table);
    SliceOfSlice(s.disk, FAT_AT, TABLE_BYTES, 0, ENTRIES);
    assert Slice(EncodeTable(s.table), 0, ENTRIES) == EncodeTable(s.table)[..ENTRIES];
  }

  /** Then the first read_file restores the directory, and with it the whole state. */
  lemma RemountThenRead(s: Fs, query: CString)
    requires OnDisk(s) && forall c :: ENTRIES / 2 <= c < ENTRIES ==> s.table[c] == FREE
    ensures Read(Remounted(s), query).0 == s && Read(Remounted(s), query).1 == Read(s, query).1
  {
    hide EncodeRoot, DecodeRoot, EncodeTable, DecodeTable, Walk, Good, FileBytes;
    RemountTable(s);
    RootRoundTrip(s.root);
  }

  // ---------- the terminating NUL ----------

  /** The bytes the last read of read_file moves; the NUL is stored at this index. */
  function LastRead(size: uint32): (n: nat)
    requires size <= MAX_SIZE
    ensures n <= SECTOR_SIZE
  {
    size - (Clusters(size) - 1) * SECTOR_SIZE
  }

  /** The buffer handed to print: the file's bytes, a zero, and the NUL stored by read_file. */
  function PrintBuffer(bytes: seq<byte>): (r: seq<byte>)
    requires |bytes| <= MAX_SIZE
  {
    (bytes + [0])[LastRead(|bytes|) := 0]
  }

  /**
   The NUL is stored at the number of bytes in the file's last sector. So print gets the file's bytes
   unharmed exactly for files of one sector, or when the NUL falls on a zero.
   */
  lemma NulPlacement(bytes: seq<byte>)
    requires |bytes| <= MAX_SIZE
    ensures var n := if |bytes| > 0 && |bytes| % 512 == 0 then 512 else |bytes| % 512;
            && PrintBuffer(bytes) == (bytes + [0])[n := 0]
            && (PrintBuffer(bytes) == bytes + [0] <==> |bytes| <= 512 || bytes[n] == 0)
  {
    var n, r := LastRead(|bytes|), PrintBuffer(bytes);
    assert r[n] == 0 && (n < |bytes| ==> (bytes + [0])[n] == bytes[n]);
  }
}
