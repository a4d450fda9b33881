/** Where src/fs/fat/fat12.c puts things on the disk, and what its writes do to each sector. */
module DataRegion {
  import opened Bytes
  import opened FatTable
  import opened RootDir
  import opened Disk

  const FAT_AT := 103424   // FAT1_SECTOR * SECTOR_SIZE
  const ROOT_AT := 112128  // START_ROOT_DIR * SECTOR_SIZE
  const DATA_AT := 119296  // STARTING_DATA_SECTOR * SECTOR_SIZE
  const DISK_BYTES := 1475072  // 2881 sectors

  /** The disk as one flat array of bytes, at least as large as the table can address. */
  type Image = d: seq<byte> | |d| >= DISK_BYTES witness seq(DISK_BYTES, _ => 0)

  function DataAt(c: Cluster): (at: nat)
    ensures DATA_AT <= at && at + SECTOR_SIZE <= DISK_BYTES
  {
    (c + DATA_SECTOR) * SECTOR_SIZE
  }

  function Sector(d: Image, c: Cluster): (r: seq<byte>)
    ensures |r| == SECTOR_SIZE
  {
    Slice(d, DataAt(c), SECTOR_SIZE)
  }

  /** The part of the disk before the data region: boot sector, kernel, table and directory. */
  function Meta(d: Image): seq<byte> {
    Slice(d, 0, DATA_AT)
  }

  /** Writing into one data sector. */
  lemma SpliceSector(d: Image, c: Cluster, s: seq<byte>)
    requires |s| <= SECTOR_SIZE
    ensures var e := Splice(d, DataAt(c), s);
            && Meta(e) == Meta(d)
            && Sector(e, c) == s + Sector(d, c)[|s|..]
            && (|s| == SECTOR_SIZE ==> Sector(e, c) == s)
            && forall x: Cluster :: x != c ==> Sector(e, x) == Sector(d, x)
  {
  }

  /** Writing before the data region. */
  lemma SpliceMeta(d: Image, at: nat, s: seq<byte>)
    requires at + |s| <= DATA_AT
    ensures var e := Splice(d, at, s);
            && Meta(e) == Splice(Meta(d), at, s)
            && forall x: Cluster :: Sector(e, x) == Sector(d, x)
  {
  }

  // ---------- writing a file's data ----------

  /** The first `n` sectors of `data`, each in its cluster of `cs`. */
  function WriteWhole(d: Image, cs: seq<Cluster>, data: seq<byte>, n: nat): Image
    requires n <= |cs| && n * SECTOR_SIZE <= |data|
  {
    if n == 0 then d
    else Splice(WriteWhole(d, cs, data, n - 1), DataAt(cs[n - 1]), Slice(data, (n - 1) * SECTOR_SIZE, SECTOR_SIZE))
  }

  /** A 32-bit unsigned value read as a signed one. */
  function Int32(n: uint32): int {
    if n < 0x8000_0000 then n else n - 0x1_0000_0000
  }

  /** The bytes the last write of write_data_into_memory moves: `to_write` is not recomputed there. */
  function LastWrite(size: uint32): (n: nat)
    ensures n <= SECTOR_SIZE
  {
    if Clusters(size) > 1 then SECTOR_SIZE
    else Count(if Int32(size) > SECTOR_SIZE then SECTOR_SIZE else Int32(size))
  }

  /** How many bytes are taken from the caller's buffer. */
  function BufferBytes(size: uint32): nat {
    (Clusters(size) - 1) * SECTOR_SIZE + LastWrite(size)
  }

  /** A buffer of `size` bytes is read past its end exactly when the file ends inside a later sector. */
  lemma OverRead(size: uint32)
    requires size <= 0xFFFF_FE00
    ensures size <= BufferBytes(size) < size + SECTOR_SIZE
    ensures BufferBytes(size) == size <==> size <= SECTOR_SIZE || size % SECTOR_SIZE == 0
  {
  }

  /** A size for which the number of clusters wraps around is negative as an int: nothing is written. */
  lemma NothingWritten(size: uint32)
    requires size > 0xFFFF_FE00
    ensures BufferBytes(size) == 0
  {
  }

  /** The bytes the last write takes from the buffer. */
  function LastPart(data: seq<byte>, size: uint32): (r: seq<byte>)
    requires BufferBytes(size) <= |data|
    ensures |r| == LastWrite(size)
  {
    Slice(data, (Clusters(size) - 1) * SECTOR_SIZE, LastWrite(size))
  }

  function WriteData(d: Image, cs: seq<Cluster>, data: seq<byte>, size: uint32): Image
    requires |cs| == Clusters(size) && BufferBytes(size) <= |data|
  {
    Splice(WriteWhole(d, cs, data, |cs| - 1), DataAt(cs[|cs| - 1]), LastPart(data, size))
  }

  lemma {:induction false} WriteWholeSectors(d: Image, cs: seq<Cluster>, data: seq<byte>, n: nat)
    requires n <= |cs| && n * SECTOR_SIZE <= |data| && Ascending(cs)
    ensures var e := WriteWhole(d, cs, data, n);
            && Meta(e) == Meta(d)
            && (forall j :: 0 <= j < n ==> Sector(e, cs[j]) == Slice(data, j * SECTOR_SIZE, SECTOR_SIZE))
            && forall x: Cluster :: x !in cs ==> Sector(e, x) == Sector(d, x)
  {
    if n > 0 {
      hide Splice, Sector, Meta;
      WriteWholeSectors(d, cs, data, n - 1);
      SpliceSector(WriteWhole(d, cs, data, n - 1), cs[n - 1], Slice(data, (n - 1) * SECTOR_SIZE, SECTOR_SIZE));
    }
  }

  /** Only the file's own sectors change, and they then hold the data. */
  lemma WriteDataSectors(d: Image, cs: seq<Cluster>, data: seq<byte>, size: uint32)
    requires |cs| == Clusters(size) && BufferBytes(size) <= |data| && Ascending(cs)
    ensures var e, n := WriteData(d, cs, data, size), |cs| - 1;
            && Meta(e) == Meta(d)
            && (forall j :: 0 <= j < n ==> Sector(e, cs[j]) == Slice(data, j * SECTOR_SIZE, SECTOR_SIZE))
            && Sector(e, cs[n])[..LastWrite(size)] == LastPart(data, size)
            && Sector(e, cs[n])[LastWrite(size)..] == Sector(d, cs[n])[LastWrite(size)..]
            && forall x: Cluster :: x !in cs ==> Sector(e, x) == Sector(d, x)
  {
    var n := |cs| - 1;
    WriteWholeSectors(d, cs, data, n);
    SpliceSector(WriteWhole(d, cs, data, n), cs[n], LastPart(data, size));
  }

  // ---------- erasing ----------

  /** The sectors of the first `n` clusters of `cs` filled with zeros. */
  function Zeroed(d: Image, cs: seq<Cluster>, n: nat): Image
    requires n <= |cs|
  {
    if n == 0 then d else Splice(Zeroed(d, cs, n - 1), DataAt(cs[n - 1]), Zeros())
  }

  function Zeros(): (r: seq<byte>)
    ensures |r| == SECTOR_SIZE
  {
    seq(SECTOR_SIZE, _ => 0)
  }

  lemma {:induction false} ZeroedSectors(d: Image, cs: seq<Cluster>, n: nat)
    requires n <= |cs|
    ensures var e := Zeroed(d, cs, n);
            && Meta(e) == Meta(d)
            && (forall j :: 0 <= j < n ==> Sector(e, cs[j]) == Zeros())
            && forall x: Cluster :: x !in cs ==> Sector(e, x) == Sector(d, x)
  {
    hide Splice, Sector, Meta, Zeros;
    if n > 0 {
      ZeroedSectors(d, cs, n - 1);
      SpliceSector(Zeroed(d, cs, n - 1), cs[n - 1], Zeros());
    }
  }

  // ---------- reading a file ----------

  /** The first `size` bytes along the chain `cs`. */
  function FileBytes(d: Image, cs: seq<Cluster>, size: nat): (r: seq<byte>)
    requires size <= |cs| * SECTOR_SIZE
    ensures |r| == size
  {
    seq(size, p requires 0 <= p < size => Sector(d, cs[p / SECTOR_SIZE])[p % SECTOR_SIZE])
  }

  /** Byte `p` of a file is byte p % 512 of the sector 233 behind the cluster for it. */
  lemma FileByteAt(d: Image, cs: seq<Cluster>, size: nat, p: nat)
    requires p < size <= |cs| * SECTOR_SIZE
    ensures FileBytes(d, cs, size)[p] == d[(233 + cs[p / 512]) * 512 + p % 512]
  {
  }

  /** The bytes of a file depend only on its own sectors. */
  lemma FileBytesFrame(d: Image, e: Image, cs: seq<Cluster>, size: nat)
    requires size <= |cs| * SECTOR_SIZE
    requires forall j :: 0 <= j < |cs| ==> Sector(d, cs[j]) == Sector(e, cs[j])
    ensures FileBytes(d, cs, size) == FileBytes(e, cs, size)
  {
  }

  /** Written data is read back along the chain. */
  lemma WrittenBytes(d: Image, cs: seq<Cluster>, data: seq<byte>, size: uint32)
    requires |cs| == Clusters(size) && BufferBytes(size) <= |data| && Ascending(cs)
    requires size <= 0xFFFF_FE00
    ensures FileBytes(WriteData(d, cs, data, size), cs, size) == data[..size]
  {
    hide Sector;
    var e, n := WriteData(d, cs, data, size), |cs| - 1;
    WriteDataSectors(d, cs, data, size);
    forall p | 0 <= p < size ensures FileBytes(e, cs, size)[p] == data[p] {
      var j, q := p / SECTOR_SIZE, p % SECTOR_SIZE;
      if j < n {
        assert Sector(e, cs[j])[q] == Slice(data, j * SECTOR_SIZE, SECTOR_SIZE)[q];
      } else {
        assert Sector(e, cs[n])[..LastWrite(size)][q] == LastPart(data, size)[q];
      }
    }
  }
}
