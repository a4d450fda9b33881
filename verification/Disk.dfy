/** The sector disk (src/disk/disk.c) and the byte stream over it (src/disk/streamer.c). */
module Disk {
  import opened Bytes

  const SECTOR_SIZE := 512

  /** The device: a flat run of bytes that moves one sector at a time. */
  class SectorDisk {
    var image: seq<byte>

    ghost predicate Valid()
      reads this
    {
      |image| % SECTOR_SIZE == 0
    }

    constructor (image: seq<byte>)
      requires |image| % SECTOR_SIZE == 0
      ensures Valid() && this.image == image
    {
      this.image := image;
    }

    method ReadSector(lba: nat, buff: array<byte>)
      requires (lba + 1) * SECTOR_SIZE <= |image|
      requires buff.Length == SECTOR_SIZE
      modifies buff
      ensures buff[..] == Slice(image, lba * SECTOR_SIZE, SECTOR_SIZE)
    {
      forall j | 0 <= j < SECTOR_SIZE {
        buff[j] := image[lba * SECTOR_SIZE + j];
      }
    }

    method WriteSector(lba: nat, buff: array<byte>)
      requires (lba + 1) * SECTOR_SIZE <= |image|
      requires buff.Length == SECTOR_SIZE
      modifies this
      ensures image == Splice(old(image), lba * SECTOR_SIZE, buff[..])
    {
      image := Splice(image, lba * SECTOR_SIZE, buff[..]);
    }
  }

  /** The number of bytes a transfer of `total` moves: the loops run while `remaining > 0`. */
  function Count(total: int): (n: nat) {
    if total > 0 then total else 0
  }

  /** The inner copy loop of a write. */
  method CopyInto(out: array<byte>, at: nat, src: seq<byte>)
    requires at + |src| <= out.Length
    modifies out
    ensures out[..] == Splice(old(out[..]), at, src)
  {
    for i := 0 to |src|
      invariant forall k :: 0 <= k < out.Length ==>
                  out[k] == if at <= k < at + i then src[k - at] else old(out[k])
    {
      out[at + i] := src[i];
    }
  }

  class DiskStream {
    const disk: SectorDisk
    var pos: nat

    constructor (disk: SectorDisk)
      ensures this.disk == disk && pos == 0
    {
      this.disk := disk;
      pos := 0;
    }

    method Seek(pos: nat)
      modifies this
      ensures this.pos == pos
    {
      this.pos := pos;
    }

    /** One turn of the read loop: take bytes up to the end of the current sector and move on. */
    method ReadSome(remaining: nat) returns (part: seq<byte>)
      requires disk.Valid() && 0 < remaining && pos + remaining <= |disk.image|
      modifies this
      ensures 0 < |part| <= remaining && pos == old(pos) + |part|
      ensures part == Slice(disk.image, old(pos), |part|)
    {
      var sector, offset := pos / SECTOR_SIZE, pos % SECTOR_SIZE;
      var buff := new byte[SECTOR_SIZE](_ => 0);
      disk.ReadSector(sector, buff);
      var n := if remaining > SECTOR_SIZE - offset then SECTOR_SIZE - offset else remaining;
      SliceOfSlice(disk.image, sector * SECTOR_SIZE, SECTOR_SIZE, offset, n);
      part := Slice(buff[..], offset, n);
      pos := pos + n;
    }

    /** The `total` bytes from the stream position on; `out` is the caller's buffer. */
    method Read(total: int) returns (out: seq<byte>)
      requires disk.Valid() && pos + Count(total) <= |disk.image|
      modifies this
      ensures pos == old(pos) + Count(total)
      ensures out == Slice(disk.image, old(pos), Count(total))
    {
      var remaining := total;
      ghost var start, d := pos, disk.image;
      out := [];
      while remaining > 0
        invariant disk.image == d && pos == start + |out| && |out| + Count(remaining) == Count(total)
        invariant out == Slice(d, start, |out|)
      {
        var part := ReadSome(remaining);
        SliceGrow(d, start, |out|, |part|);
        out, remaining := out + part, remaining - |part|;
      }
    }

    /** One turn of the write loop: read the sector, replace part of it, write it back, move on. */
    method WriteSome(src: seq<byte>, from: nat, remaining: nat) returns (n: nat)
      requires disk.Valid() && 0 < remaining && from + remaining <= |src|
      requires pos + remaining <= |disk.image|
      modifies this, disk
      ensures 0 < n <= remaining && pos == old(pos) + n
      ensures disk.image == Splice(old(disk.image), old(pos), Slice(src, from, n))
    {
      var sector, offset := pos / SECTOR_SIZE, pos % SECTOR_SIZE;
      var buff := new byte[SECTOR_SIZE](_ => 0);
      disk.ReadSector(sector, buff);
      n := if remaining > SECTOR_SIZE - offset then SECTOR_SIZE - offset else remaining;
      CopyInto(buff, offset, Slice(src, from, n));
      disk.WriteSector(sector, buff);
      WriteBack(old(disk.image), sector, offset, Slice(src, from, n));
      pos := pos + n;
    }

    /** Overwrites the disk from the stream position with the `total` bytes at `src[from..]`. */
    method Write(src: seq<byte>, from: nat, total: int)
      requires disk.Valid() && from + Count(total) <= |src|
      requires pos + Count(total) <= |disk.image|
      modifies this, disk
      ensures pos == old(pos) + Count(total)
      ensures disk.image == Splice(old(disk.image), old(pos), Slice(src, from, Count(total)))
    {
      var done, remaining := 0, total;
      ghost var start, before := pos, disk.image;
      hide Splice, Slice;
      SpliceNothing(before, start, src, from);
      while remaining > 0
        invariant 0 <= done == pos - start && done + Count(remaining) == Count(total)
        invariant disk.image == Splice(before, start, Slice(src, from, done))
      {
        var n := WriteSome(src, from + done, remaining);
        SpliceGrow(before, start, src, from, done, n);
        done, remaining := done + n, remaining - n;
      }
    }
  }

  /** Rewriting a whole sector of which only `s` changed is splicing `s` in. */
  lemma WriteBack(d: seq<byte>, sector: nat, offset: nat, s: seq<byte>)
    requires (sector + 1) * SECTOR_SIZE <= |d| && offset + |s| <= SECTOR_SIZE
    ensures var was := Slice(d, sector * SECTOR_SIZE, SECTOR_SIZE);
            Splice(d, sector * SECTOR_SIZE, Splice(was, offset, s)) == Splice(d, sector * SECTOR_SIZE + offset, s)
  {
  }
}
