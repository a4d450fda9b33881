/** The physical frame allocator as it runs (src/memory/paging/PMM/pmm.c). */
module FrameMap {
  import opened Bytes
  import opened Frames

  const PMM_ENTRIES := 131072
  const FRAMES := 1048576  // 8 * PMM_ENTRIES: 4 GB of frames

  /** calc_frames, as the int it returns: sizes from 0xFFFFFFFF on come back as -1. */
  function CalcFrames(size: uint32): int {
    if size >= 0xFFFF_FFFF then -1 else (size + 4095) / 4096
  }

  /** The largest byte fill_from_to touches lies in the bitmap. */
  predicate InBounds(s: nat, n: nat) {
    if n == 1 || Short(s, n) then s < FRAMES
    else (if Extra(s, n) then s + n + 1 else s + n) < FRAMES
  }

  /** As few frames as hold `size` bytes, for every size but the last one. */
  lemma CalcFramesExactly(size: uint32)
    ensures size < 0xFFFF_FFFF ==> size <= CalcFrames(size) * 4096 < size + 4096
    ensures size == 0xFFFF_FFFF ==> CalcFrames(size) == -1
  {
  }

  /** The 32-bit int that get_free_physical_address returns for a frame. */
  function FrameInt(f: nat): int
    requires f < FRAMES
  {
    if f < FRAMES / 2 then f * FRAME_SIZE else f * FRAME_SIZE - 0x1_0000_0000
  }

  /** The failure code is no frame's address, and the conversion back to uint32 is exact. */
  lemma FrameIntFacts(f: nat)
    requires f < FRAMES
    ensures FrameInt(f) != -NO_MEMORY && FrameInt(f) % FRAME_SIZE == 0
    ensures FrameInt(f) % 0x1_0000_0000 == f * FRAME_SIZE
  {
  }

  /** The lowest frame not in `used` from `from` on, or FRAMES when there is none. */
  function LowestFree(used: set<nat>, from: nat): (f: nat)
    requires from <= FRAMES
    ensures from <= f <= FRAMES && (f < FRAMES ==> f !in used)
    decreases FRAMES - from, used
  {
    if from == FRAMES || from !in used then from else LowestFree(used, from + 1)
  }

  /** It is the only free frame with no free frame below it. */
  lemma {:induction false} LowestIs(used: set<nat>, from: nat, f: nat)
    requires from <= f <= FRAMES && (f < FRAMES ==> f !in used)
    requires forall g :: from <= g < f ==> g in used
    ensures LowestFree(used, from) == f
    decreases f - from
  {
    if from < f {
      LowestIs(used, from + 1, f);
    }
  }

  class PhysicalFrames {
    const bitmap: array<bv8>

    ghost predicate Valid() {
      bitmap.Length == PMM_ENTRIES
    }

    ghost function InUse(): set<nat>
      reads bitmap
    {
      Used(bitmap[..])
    }

    /** init_bitmap_PMM: below 2 MB, and from the heap's start for as many bytes as the heap's end address. */
    constructor ()
      ensures Valid() && fresh(bitmap)
      ensures forall g: nat :: Taken(bitmap[..], g) <==> g <= 512 || 4096 <= g <= 33792
    {
      bitmap := new bv8[PMM_ENTRIES](_ => 0);
      new;
      assert forall g: nat :: !Taken(bitmap[..], g);
      ManualPrefill();
    }

    /** manual_prefill passes the heap's end address as a length. */
    method ManualPrefill()
      requires Valid()
      modifies bitmap
      ensures forall g: nat :: Taken(bitmap[..], g) <==> Taken(old(bitmap[..]), g) || g <= 512 || 4096 <= g <= 33792
    {
      var inside := FillFromTo(0, 0x10_0000);
      inside := FillFromTo(0x10_0000, 0x10_0000);
      inside := FillFromTo(0x0100_0000, 0x0100_0000 + 104857600);
    }

    /** `bitmap[block] |= marker`. A byte behind the bitmap, which the code would overwrite, is left out and reported. */
    method MarkByte(block: nat, marker: bv8) returns (inside: bool)
      requires Valid()
      modifies bitmap
      ensures inside <==> block < PMM_ENTRIES
      ensures bitmap[..] == Marked(old(bitmap[..]), block, marker)
    {
      inside := block < PMM_ENTRIES;
      if inside {
        bitmap[block] := bitmap[block] | marker;
      }
    }

    /**
     fill_from_to: exactly the frames `Filled` names become marked, as far as the bitmap goes, and
     none is cleared. The code stays inside the bitmap exactly for the ranges of `InBounds`.
     */
    method FillFromTo(base: uint32, len: uint32) returns (inside: bool)
      requires Valid()
      requires len > 0 ==> base < 0xFFFF_FFFF && len < 0xFFFF_FFFF
      modifies bitmap
      ensures inside <==> len == 0 || InBounds(CalcFrames(base), CalcFrames(len))
      ensures forall g: nat :: Taken(bitmap[..], g) <==>
                Taken(old(bitmap[..]), g) || (len > 0 && g < FRAMES && Filled(CalcFrames(base), CalcFrames(len), g))
    {
      if len <= 0 {
        return true;
      }
      ghost var m := bitmap[..];
      var lenInFrames, start: nat := CalcFrames(len), CalcFrames(base);
      inside := MarkByte(start / 8, Mask(start % 8));
      forall g: nat { MarkedFrame(m, start, g); }
      lenInFrames := lenInFrames - 1;
      if lenInFrames <= 0 {
        return;
      }
      hide Taken;
      inside := FillRest(start, lenInFrames, m);
    }

    /** fill_from_to from the second frame on. */
    method FillRest(start: nat, left: nat, ghost m: seq<bv8>) returns (inside: bool)
      requires Valid() && left > 0 && |m| == PMM_ENTRIES
      requires bitmap[..] == Marked(m, start / 8, Mask(start % 8))
      modifies bitmap
      ensures inside <==> InBounds(start, left + 1)
      ensures forall g: nat :: Taken(bitmap[..], g) <==> Taken(m, g) || (g < FRAMES && Filled(start, left + 1, g))
    {
      hide Taken, FirstByte, TailBytes, Filled, Short, InBounds, Mask, Marked;
      var stop, filler, full, part := CollectFiller(start % 8, left / 8, left % 8);
      StopIsShort(start, left + 1);
      if stop {
        forall g: nat { FillShort(m, start, left + 1, g); }
        return start / 8 < PMM_ENTRIES;
      }
      inside := MarkByte(start / 8, filler);
      assert bitmap[..] == FirstByte(m, start) by { FirstByteIs(m, start, filler); }
      inside := FillTail(start / 8, full, part);
      TailFits(start, left + 1, full, part);
      forall g: nat { FillFrame(m, start, left + 1, full, part, g); }
    }

    /** The loop that collects the high bits of the first byte, and where it stops early. */
    method CollectFiller(frame: nat, full0: nat, part0: nat) returns (stop: bool, filler: bv8, full: nat, part: nat)
      requires frame < 8 && part0 < 8
      ensures stop <==> 8 * full0 + part0 < Turns(frame)
      ensures !stop ==> filler == HighBits(Turns(frame) + 1) && part < 8
      ensures !stop ==> 8 * full + part == 8 * full0 + part0 - Turns(frame) - (if part0 < Turns(frame) then 1 else 0)
    {
      full, part, filler := full0, part0, 0x80;
      for i := 0 to Turns(frame)
        invariant filler == HighBits(i + 1)
        invariant if i <= part0 then full == full0 && part == part0 - i
                  else full == full0 - 1 && part == 7 - (i - part0)
      {
        if full == 0 && part == 0 {
          return true, filler, full, part;
        }
        if part == 0 {
          full, part := full - 1, 7;
        }
        HighBitsStep(i + 1);
        filler := (filler >> 1) | 0x80;
        part := part - 1;
      }
      stop := false;
    }

    /** The body and the head: whole bytes, then the low bits of one more. */
    method FillTail(block: nat, full0: nat, part0: nat) returns (inside: bool)
      requires Valid() && part0 < 8
      modifies bitmap
      ensures inside <==> block + full0 + 1 < PMM_ENTRIES
      ensures bitmap[..] == TailBytes(old(bitmap[..]), block, full0, part0)
    {
      ghost var m := bitmap[..];
      var full, b := full0, block;
      while full > 0
        invariant b == block + (full0 - full)
        invariant forall i :: 0 <= i < PMM_ENTRIES ==> bitmap[i] == if block < i <= b then 0xFF else m[i]
      {
        b := b + 1;
        if b < PMM_ENTRIES {
          bitmap[b] := 0xFF;
        }
        full := full - 1;
      }
      b := b + 1;
      var marker := LowMarker(part0);
      inside := MarkByte(b, marker);
      var want := TailBytes(m, block, full0, part0);
      forall i | 0 <= i < PMM_ENTRIES ensures bitmap[i] == want[i] {
      }
    }

    /** get_free_physical_address: the lowest free frame is marked and its address returned. */
    method GetFreePhysicalAddress() returns (r: int)
      requires Valid()
      modifies bitmap
      ensures var f := LowestFree(old(InUse()), 0);
              if f == FRAMES then r == -NO_MEMORY && bitmap[..] == old(bitmap[..]) && InUse() == old(InUse())
              else r == FrameInt(f) && InUse() == old(InUse()) + {f}
    {
      ghost var m := bitmap[..];
      var i := 0;
      while i < PMM_ENTRIES && bitmap[i] == 255
        invariant 0 <= i <= PMM_ENTRIES
        invariant forall k :: 0 <= k < i ==> m[k] == 0xFF
      {
        i := i + 1;
      }
      if i >= PMM_ENTRIES {
        NoneFree(m);
        return -NO_MEMORY;
      }
      r := TakeFirstClear(i);
    }

    /** The second half of get_free_physical_address: the first clear bit of a byte that is not full. */
    method TakeFirstClear(i: nat) returns (r: int)
      requires Valid() && i < PMM_ENTRIES && bitmap[i] != 255
      requires forall k :: 0 <= k < i ==> bitmap[k] == 255
      modifies bitmap
      ensures var f := LowestFree(Used(old(bitmap[..])), 0);
              f < FRAMES && r == FrameInt(f) && Used(bitmap[..]) == Used(old(bitmap[..])) + {f}
    {
      hide Used, LowestFree, Taken;
      ghost var m := bitmap[..];
      var j := FirstClearBit(bitmap[i]);
      FirstFree(m, i, j);
      SetUsed(m, 8 * i + j);
      bitmap[i] := bitmap[i] | Mask(j);
      r := FrameInt(i * 8 + j);
    }

    /** free_physical_frame */
    method FreePhysicalFrame(physical: uint32)
      requires Valid()
      modifies bitmap
      ensures InUse() == old(InUse()) - {physical / FRAME_SIZE}
    {
      ghost var m := bitmap[..];
      var frame := physical / FRAME_SIZE;
      bitmap[frame / 8] := bitmap[frame / 8] & !Mask(frame % 8);
      ClearUsed(m, frame);
    }
  }

  /** The number of turns of the filler loop: 6 - frame, none when that is negative. */
  function Turns(frame: nat): (n: nat)
    ensures n <= 6
  {
    if frame <= 6 then 6 - frame else 0
  }

  /** The marker of the head: its `part` low bits set. */
  method LowMarker(part0: nat) returns (marker: bv8)
    requires part0 < 8
    ensures marker == LowBits(part0)
  {
    marker := 0;
    var part := part0;
    while part > 0
      invariant 0 <= part <= part0 && marker == LowBits(part0 - part)
    {
      LowBitsStep(part0 - part);
      marker := (marker << 1) | 0x01;
      part := part - 1;
    }
  }

  method FirstClearBit(b: bv8) returns (j: nat)
    requires b != 0xFF
    ensures j < 8 && !Bit(b, j) && forall k :: 0 <= k < j ==> Bit(b, k)
  {
    FullByte(b);
    j := 0;
    while j < 8 && b & Mask(j) != 0
      invariant j <= 8 && forall k :: 0 <= k < j ==> Bit(b, k)
    {
      j := j + 1;
    }
  }

  /** All bytes full: no frame is free. */
  lemma NoneFree(m: seq<bv8>)
    requires |m| == PMM_ENTRIES && forall k :: 0 <= k < |m| ==> m[k] == 0xFF
    ensures LowestFree(Used(m), 0) == FRAMES
  {
    FullByte(0xFF);
    forall f: nat | f < FRAMES ensures f in Used(m) {
      assert m[f / 8] == 0xFF;
    }
    LowestIs(Used(m), 0, FRAMES);
  }

  /** The first clear bit of the first byte that is not full is the lowest free frame. */
  lemma FirstFree(m: seq<bv8>, i: nat, j: nat)
    requires |m| == PMM_ENTRIES && i < |m| && j < 8 && !Bit(m[i], j)
    requires forall k :: 0 <= k < i ==> m[k] == 0xFF
    requires forall k :: 0 <= k < j ==> Bit(m[i], k)
    ensures LowestFree(Used(m), 0) == 8 * i + j
  {
    FullByte(0xFF);
    var f := 8 * i + j;
    assert f / 8 == i && f % 8 == j;
    forall g: nat | g < f ensures g in Used(m) {
      if g / 8 < i {
        assert m[g / 8] == 0xFF;
      }
    }
    LowestIs(Used(m), 0, f);
  }

  /** The bitmap once the first byte is done. */
  function FirstByte(m: seq<bv8>, s: nat): (u: seq<bv8>)
    ensures |u| == |m|
  {
    Marked(Marked(m, s / 8, Mask(s % 8)), s / 8, HighBits(Turns(s % 8) + 1))
  }

  /** What the filler loop leaves of the n - 1 frames behind the first one. */
  predicate Collected(s: nat, n: nat, full: nat, part: nat) {
    part < 8 && 8 * full + part == n - 1 - Turns(s % 8) - (if (n - 1) % 8 < Turns(s % 8) then 1 else 0)
  }

  /** `InBounds` says exactly that the last byte touched lies in the bitmap. */
  lemma TailFits(s: nat, n: nat, full: nat, part: nat)
    requires n >= 2 && !Short(s, n) && Collected(s, n, full, part)
    ensures InBounds(s, n) <==> s / 8 + full + 1 < PMM_ENTRIES
  {
  }

  /** A range that ends at 4 GB makes fill_from_to write behind the bitmap. */
  lemma TopOfMemory()
    ensures 0xFFFC_0000 + 0x4_0000 == 0x1_0000_0000 && !InBounds(CalcFrames(0xFFFC_0000), CalcFrames(0x4_0000))
  {
  }

  lemma StopIsShort(s: nat, n: nat)
    requires n >= 2
    ensures n - 1 < Turns(s % 8) <==> Short(s, n)
    ensures Short(s, n) ==> (InBounds(s, n) <==> s / 8 < PMM_ENTRIES)
  {
  }

  lemma FillShort(m: seq<bv8>, s: nat, n: nat, g: nat)
    requires |m| == PMM_ENTRIES && Short(s, n)
    ensures Taken(Marked(m, s / 8, Mask(s % 8)), g) <==> Taken(m, g) || (g < FRAMES && Filled(s, n, g))
  {
    MarkedFrame(m, s, g);
  }

  lemma FirstByteIs(m: seq<bv8>, s: nat, filler: bv8)
    requires filler == HighBits(Turns(s % 8) + 1)
    ensures Marked(Marked(m, s / 8, Mask(s % 8)), s / 8, filler) == FirstByte(m, s)
  {
  }

  /** Putting the first byte and the tail together. */
  lemma FillFrame(m: seq<bv8>, s: nat, n: nat, full: nat, part: nat, g: nat)
    requires |m| == PMM_ENTRIES && n >= 2 && !Short(s, n) && Collected(s, n, full, part)
    ensures Taken(TailBytes(FirstByte(m, s), s / 8, full, part), g) <==> Taken(m, g) || (g < FRAMES && Filled(s, n, g))
  {
    hide Taken, TailBytes, Filled;
    HeadFrames(m, s, Turns(s % 8) + 1, g);
    TailFrames(FirstByte(m, s), s / 8, full, part, g);
    FillSpan(s, n, full, part, g);
  }

  /** The frames of the first byte and of the tail are the ones `Filled` names. */
  lemma FillSpan(s: nat, n: nat, full: nat, part: nat, g: nat)
    requires n >= 2 && !Short(s, n) && Collected(s, n, full, part)
    ensures Filled(s, n, g) <==>
            g == s || (g / 8 == s / 8 && g % 8 >= 7 - Turns(s % 8)) ||
            8 * (s / 8 + 1) <= g < 8 * (s / 8 + 1 + full) + part
  {
  }

  // ---------- runs ----------

  /** Taking a frame, or giving back one that was handed out. */
  datatype FrameOp = Take | Give(f: nat)

  /** The marked frames, and those of them that are handed out. */
  datatype FrameState = FrameState(used: set<nat>, out: set<nat>)

  predicate CanApply(s: FrameState, op: FrameOp) {
    op.Give? ==> op.f in s.out
  }

  function ApplyFrame(s: FrameState, op: FrameOp): FrameState {
    match op
    case Take =>
      var f := LowestFree(s.used, 0);
      if f == FRAMES then s else FrameState(s.used + {f}, s.out + {f})
    case Give(f) => FrameState(s.used - {f}, s.out - {f})
  }

  /** What each step does: a take hands out the lowest free frame, if there is one; what is given back is free again. */
  lemma FrameStep(s: FrameState, op: FrameOp, f: nat)
    requires CanApply(s, op) && (op.Give? ==> op.f == f)
    requires op.Take? ==> f < FRAMES && f !in s.used && forall g :: 0 <= g < f ==> g in s.used
    ensures var t := ApplyFrame(s, op);
            if op.Take? then t == FrameState(s.used + {f}, s.out + {f}) else t == FrameState(s.used - {f}, s.out - {f})
  {
    if op.Take? {
      LowestIs(s.used, 0, f);
    }
  }

  /** With no frame free a take changes nothing. */
  lemma FrameNone(s: FrameState)
    requires forall g :: 0 <= g < FRAMES ==> g in s.used
    ensures ApplyFrame(s, Take) == s
  {
    LowestIs(s.used, 0, FRAMES);
  }

  predicate CanRun(s: FrameState, ops: seq<FrameOp>)
    decreases |ops|
  {
    ops == [] || (CanApply(s, ops[0]) && CanRun(ApplyFrame(s, ops[0]), ops[1..]))
  }

  function RunFrames(s: FrameState, ops: seq<FrameOp>): FrameState
    decreases |ops|
  {
    if ops == [] then s else RunFrames(ApplyFrame(s, ops[0]), ops[1..])
  }

  /** Frames below 2 MB, and the frames of the kernel heap. */
  predicate Reserved(f: nat) {
    f < 512 || 4096 <= f < 29696
  }

  /** What is handed out is marked, and never a reserved frame, which all stay marked. */
  ghost predicate FramesKept(s: FrameState) {
    s.out <= s.used && forall f: nat :: Reserved(f) ==> f in s.used && f !in s.out
  }

  /** Over every run, a taken frame is a new one, and no frame below 2 MB or in the heap is handed out. */
  lemma {:induction false} FrameRun(s: FrameState, ops: seq<FrameOp>)
    requires FramesKept(s) && CanRun(s, ops)
    ensures FramesKept(RunFrames(s, ops))
    ensures RunFrames(s, ops).used - RunFrames(s, ops).out == s.used - s.out
    ensures var e := RunFrames(s, ops); var f := LowestFree(e.used, 0);
            f < FRAMES ==> f !in e.out && !Reserved(f)
    decreases |ops|
  {
    if ops != [] {
      FrameRun(ApplyFrame(s, ops[0]), ops[1..]);
    }
  }

  /** The bitmap after init_bitmap_PMM is where such runs start. */
  lemma PrefillKept(m: seq<bv8>)
    requires |m| == PMM_ENTRIES
    requires forall g: nat :: Taken(m, g) <==> g <= 512 || 4096 <= g <= 33792
    ensures FramesKept(FrameState(Used(m), {}))
  {
    hide Taken;
    forall f: nat | Reserved(f) ensures f in Used(m) {
      assert Taken(m, f);
    }
  }
}
