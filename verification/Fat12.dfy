/** The operations of src/fs/fat/fat12.c as they run: in place on the table, the directory and the disk. */
module Fat12 {
  import opened Bytes
  import opened Disk
  import opened FatTable
  import opened RootDir
  import opened DataRegion
  import opened FileSystem
  import opened FileSystemLaws
  import opened FileSystemRuns

  class Volume {
    const table: array<uint16>  // fat12_table
    const root: array<Slot>     // root_dir
    const disk: SectorDisk

    ghost predicate Valid()
      reads disk
    {
      table.Length == ENTRIES && root.Length == SLOTS && disk.Valid() && |disk.image| >= DISK_BYTES
    }

    ghost function State(): Fs
      reads table, root, disk
      requires Valid()
    {
      Fs(table[..], root[..], disk.image)
    }

    /** FAT12_table_init: a zeroed table, half of which is loaded from the disk; a zeroed directory. */
    constructor Mount(disk: SectorDisk)
      requires disk.Valid() && |disk.image| >= DISK_BYTES
      ensures Valid() && fresh(table) && fresh(root) && this.disk == disk
      ensures State() == Fs(DecodeTable(Slice(disk.image, FAT_AT, ENTRIES)), seq(SLOTS, _ => BLANK), disk.image)
      ensures BlankDisk(disk.image) ==> Blank(State())
    {
      var stream := new DiskStream(disk);
      stream.Seek(FAT_AT);
      var bytes := stream.Read(ENTRIES);
      var loaded := DecodeTable(bytes);
      table := new uint16[ENTRIES](c requires 0 <= c < ENTRIES => loaded[c]);
      root := new Slot[SLOTS](_ => BLANK);
      this.disk := disk;
      new;
      if BlankDisk(disk.image) {
        MountBlank(disk.image);
      }
    }

    /** Seeks to a cluster's sector and writes part of a buffer there. */
    method PutSector(stream: DiskStream, c: Cluster, data: seq<byte>, from: nat, total: int)
      requires Valid() && stream.disk == disk
      requires Count(total) <= SECTOR_SIZE && from + Count(total) <= |data|
      modifies disk, stream
      ensures Valid()
      ensures disk.image == Splice(old(disk.image), DataAt(c), Slice(data, from, Count(total)))
    {
      stream.Seek((c + DATA_SECTOR) * SECTOR_SIZE);
      stream.Write(data, from, total);
    }

    /** write_data_into_memory: the buffer goes out sector by sector along the chain. */
    method WriteDataIntoMemory(f: Slot, data: seq<byte>)
      requires Valid() && Good(table[..], Start(f)) && |Walk(table[..], Start(f))| == Clusters(f.size)
      requires BufferBytes(f.size) <= |data|
      modifies disk
      ensures Valid()
      ensures disk.image == WriteData(old(disk.image), Walk(table[..], Start(f)), data, f.size)
    {
      hide Splice, Slice, Walk, Good, Clusters;
      ghost var t, d := table[..], disk.image;
      ghost var cs, j := Walk(t, Start(f)), 0;
      var stream := new DiskStream(disk);
      var dataSize := Int32(f.size);
      var next, from := Start(f), 0;
      var toWrite := if dataSize > SECTOR_SIZE then SECTOR_SIZE else dataSize;
      ChainFacts(t, Start(f), f.size);
      WalkLinks(t, Start(f), 0);
      while table[next] != END_OF_FILE
        invariant Valid() && stream.disk == disk && table[..] == t
        invariant j < |cs| && next == cs[j] && from == j * SECTOR_SIZE && dataSize == Int32(f.size) - from
        invariant t[cs[j]] == Next(cs, j)
        invariant disk.image == WriteWhole(d, cs, data, j)
        invariant Count(toWrite) == if j > 0 then SECTOR_SIZE else Count(if dataSize > SECTOR_SIZE then SECTOR_SIZE else dataSize)
        decreases |cs| - j
      {
        toWrite := if dataSize > SECTOR_SIZE then SECTOR_SIZE else dataSize;
        PutSector(stream, next, data, from, toWrite);
        dataSize, from := dataSize - toWrite, from + toWrite;
        next := table[next];
        j := j + 1;
        WalkLinks(t, Start(f), j);
      }
      PutSector(stream, next, data, from, toWrite);
    }

    method StoreTable(stream: DiskStream)
      requires Valid() && stream.disk == disk
      modifies disk, stream
      ensures Valid() && disk.image == SaveTable(old(disk.image), table[..])
    {
      stream.Seek(FAT_AT);
      stream.Write(EncodeTable(table[..]), 0, TABLE_BYTES);
      assert Slice(EncodeTable(table[..]), 0, TABLE_BYTES) == EncodeTable(table[..]);
    }

    method StoreRoot(stream: DiskStream)
      requires Valid() && stream.disk == disk
      modifies disk, stream
      ensures Valid() && disk.image == SaveRoot(old(disk.image), root[..])
    {
      stream.Seek(ROOT_AT);
      stream.Write(EncodeRoot(root[..]), 0, ROOT_BYTES);
      assert Slice(EncodeRoot(root[..]), 0, ROOT_BYTES) == EncodeRoot(root[..]);
    }

    /** write_into_memory: the data, then the table, then the directory. */
    method WriteIntoMemory(f: Slot, data: seq<byte>)
      requires Valid() && Good(table[..], Start(f)) && |Walk(table[..], Start(f))| == Clusters(f.size)
      requires BufferBytes(f.size) <= |data|
      modifies disk
      ensures Valid()
      ensures var d := WriteData(old(disk.image), Walk(table[..], Start(f)), data, f.size);
              disk.image == SaveTable(SaveRoot(d, root[..]), table[..])
    {
      hide SaveTable, SaveRoot, WriteData, Walk, Good;
      var stream := new DiskStream(disk);
      WriteDataIntoMemory(f, data);
      SaveOrder(disk.image, table[..], root[..]);
      StoreTable(stream);
      StoreRoot(stream);
    }

    /**
     create_file. When the allocation fails the code stores the error as a cluster number and
     then indexes the table with it; the model stops there and reports the slot.
     */
    method CreateFile(a: Args) returns (r: CreateResult)
      requires Valid() && a.Readable()
      modifies table, root, disk
      ensures Valid()
      ensures (State(), r) == Create(old(State()), a)
    {
      hide SaveTable, SaveRoot, WriteData, Linked, Chained, Walk, Good, FreeFrom, UnusedFrom, Padded;
      ghost var s := State();
      var name := PadName(a.name, 8);
      var ext := PadName(a.ext, 3);
      var first := Allocate(table, a.size);
      var i := FindUnused(root);
      if i == SLOTS {
        return RootFull;
      }
      var f := FileDir(name, ext, if first < 0 then first + 0x1_0000 else first, a.attribute, a.stamp, a.size);
      root[i] := f;
      if first < 0 {
        return WildChain(i);
      }
      NewChainFacts(s.table, a.size);
      WriteIntoMemory(f, a.data);
      r := Created(i);
    }

    /** The loop of delete_file: every sector of the chain is zeroed and its entry freed. */
    method EraseChain(start: int)
      requires Valid() && Good(table[..], start)
      modifies table, disk
      ensures Valid()
      ensures var cs := Walk(old(table[..]), start);
              table[..] == Cleared(old(table[..]), cs) && disk.image == Zeroed(old(disk.image), cs, |cs|)
    {
      hide Splice, Slice, Walk, Good, Zeros;
      ghost var t, d := table[..], disk.image;
      ghost var cs, j := Walk(t, start), 0;
      var stream := new DiskStream(disk);
      var next := start;
      WalkFacts(t, start);
      WalkLinks(t, start, 0);
      assert Cleared(t, cs[..0]) == t;
      while table[next] != END_OF_FILE
        invariant Valid() && stream.disk == disk
        invariant j < |cs| && next == cs[j] && t[cs[j]] == Next(cs, j)
        invariant table[..] == Cleared(t, cs[..j]) && table[next] == t[next]
        invariant disk.image == Zeroed(d, cs, j)
        decreases |cs| - j
      {
        PutZeros(stream, next);
        var prev := next;
        next := table[next];
        table[prev] := FREE;
        ClearOneMore(t, cs, j);
        j := j + 1;
        WalkLinks(t, start, j);
      }
      PutZeros(stream, next);
      table[next] := FREE;
      ClearOneMore(t, cs, j);
      assert cs[..j + 1] == cs;
    }

    method PutZeros(stream: DiskStream, c: Cluster)
      requires Valid() && stream.disk == disk
      modifies disk, stream
      ensures Valid() && disk.image == Splice(old(disk.image), DataAt(c), Zeros())
    {
      PutSector(stream, c, Zeros(), 0, SECTOR_SIZE);
      assert Slice(Zeros(), 0, SECTOR_SIZE) == Zeros();
    }

    /** delete_file. Where the code would start a walk outside the table, the model stops and reports the slot. */
    method DeleteFile(query: CString) returns (r: DeleteResult)
      requires Valid() && DeleteDefined(State(), query)
      modifies table, root, disk
      ensures Valid()
      ensures (State(), r) == Delete(old(State()), query)
    {
      hide SaveTable, SaveRoot, Zeroed, Walk, Good, FindFrom, Cleared;
      var pos := FindFile(root, query);
      if pos == -1 {
        return DeleteNotFound;
      }
      if OffTable(root[pos]) {
        NoChain(table[..], root[pos]);
        return DeleteWild(pos);
      }
      EraseChain(Start(root[pos]));
      root[pos] := BLANK;
      var stream := new DiskStream(disk);
      StoreRoot(stream);
      StoreTable(stream);
      r := Deleted(pos);
    }

    /** The loop of read_file: the chain is read sector by sector into one buffer. */
    method ReadChain(f: Slot) returns (buff: seq<byte>, last: nat)
      requires Valid() && Good(table[..], Start(f)) && |Walk(table[..], Start(f))| == Clusters(f.size)
      requires f.size <= MAX_SIZE
      ensures buff == FileBytes(disk.image, Walk(table[..], Start(f)), f.size)
      ensures last == LastRead(f.size)
    {
      hide Slice, Walk, Good, FileBytes, Clusters;
      ghost var t, cs := table[..], Walk(table[..], Start(f));
      ghost var j := 0;
      var stream := new DiskStream(disk);
      var dataSize, next := f.size, Start(f);
      buff := [];
      ChainFacts(t, Start(f), f.size);
      WalkLinks(t, Start(f), 0);
      NoBytes(disk.image, cs);
      while table[next] != END_OF_FILE
        invariant stream.disk == disk && j < |cs| && next == cs[j] && t[cs[j]] == Next(cs, j)
        invariant dataSize == f.size - j * SECTOR_SIZE
        invariant buff == FileBytes(disk.image, cs, j * SECTOR_SIZE)
        decreases |cs| - j
      {
        stream.Seek((next + DATA_SECTOR) * SECTOR_SIZE);
        var read := if dataSize > SECTOR_SIZE then SECTOR_SIZE else dataSize;
        var part := stream.Read(read);
        MoreBytes(disk.image, cs, j, read);
        buff := buff + part;
        next := table[next];
        dataSize := dataSize - read;
        j := j + 1;
        WalkLinks(t, Start(f), j);
      }
      stream.Seek((next + DATA_SECTOR) * SECTOR_SIZE);
      var part := stream.Read(dataSize);
      MoreBytes(disk.image, cs, j, dataSize);
      buff := buff + part;
      last := dataSize;
    }

    /**
     read_file up to the call of print; `printed` is the buffer passed to it, with its terminating
     zeros. Where the walk would start outside the table, or the size of the buffer wraps around,
     the model stops and reports the slot.
     */
    method ReadFile(query: CString) returns (r: ReadResult, printed: seq<byte>)
      requires Valid() && ReadDefined(State(), query)
      modifies root
      ensures Valid()
      ensures (State(), r) == Read(old(State()), query)
      ensures r.Content? ==> |r.bytes| <= MAX_SIZE && printed == PrintBuffer(r.bytes)
    {
      hide DecodeRoot, Walk, Good, FindFrom, FileBytes;
      var stream := new DiskStream(disk);
      stream.Seek(ROOT_AT);
      var bytes := stream.Read(ROOT_BYTES);
      var loaded := DecodeRoot(bytes);
      forall i | 0 <= i < SLOTS {
        root[i] := loaded[i];
      }
      assert root[..] == loaded;
      assert State() == Read(old(State()), query).0;
      var i := FindFile(root, query);
      if i == -1 {
        return ReadNotFound, [];
      }
      if OffTable(root[i]) || root[i].size > MAX_SIZE {
        NoChain(table[..], root[i]);
        return ReadWild(i), [];
      }
      var buff, last := ReadChain(root[i]);
      r := Content(buff);
      printed := (buff + [0])[last := 0];
    }
  }

  lemma NoChain(t: Table, f: Slot)
    ensures OffTable(f) ==> !Good(t, Start(f))
  {
  }

  lemma ClearOneMore(t: Table, cs: seq<Cluster>, j: nat)
    requires j < |cs|
    ensures Cleared(t, cs[..j + 1]) == Cleared(t, cs[..j])[cs[j] := FREE]
  {
    assert cs[..j + 1] == cs[..j] + [cs[j]];
  }

  lemma NoBytes(d: Image, cs: seq<Cluster>)
    ensures FileBytes(d, cs, 0) == []
  {
  }

  /** Reading up to a sector more along a chain. */
  lemma MoreBytes(d: Image, cs: seq<Cluster>, j: nat, n: nat)
    requires j < |cs| && n <= SECTOR_SIZE
    ensures FileBytes(d, cs, j * SECTOR_SIZE) + Slice(d, DataAt(cs[j]), n) == FileBytes(d, cs, j * SECTOR_SIZE + n)
  {
    var front, part, all := FileBytes(d, cs, j * SECTOR_SIZE), Slice(d, DataAt(cs[j]), n), FileBytes(d, cs, j * SECTOR_SIZE + n);
    forall p | 0 <= p < |all| ensures (front + part)[p] == all[p] {
      if p >= j * SECTOR_SIZE {
        assert p / SECTOR_SIZE == j && p % SECTOR_SIZE == p - j * SECTOR_SIZE;
      }
    }
    assert front + part == all;
  }

  /** A chain as long as its file asks for fits in 31 bits when it has several clusters. */
  lemma ChainFacts(t: Table, c: int, size: uint32)
    requires Good(t, c) && |Walk(t, c)| == Clusters(size)
    ensures Walk(t, c)[0] == c
    ensures Clusters(size) > 1 ==> Int32(size) == size && (Clusters(size) - 1) * SECTOR_SIZE < size
  {
    WalkFacts(t, c);
    ChainLength(Walk(t, c), |Walk(t, c)| - 1);
  }
}
