/**
 Two-level page tables (src/memory/paging/paging.c; 32-bit paging, section 4.3 of the Intel SDM,
 volume 3A) in the blocks of the kernel heap, and the frames they map.
 */
module Paging {
  import opened Bytes
  import opened HeapTable
  import opened Heap
  import opened FrameMap

  const PAGES := 1048576   // 4 GB of pages
  const PER_TABLE := 1024

  type Page = p: seq<uint32> | |p| == PER_TABLE witness seq(PER_TABLE, _ => 0)

  /** The words of the kernel heap, block by block. */
  type Memory = m: seq<Page> | |m| == HEAP_BLOCKS witness BlankMemory()

  function BlankMemory(): (m: seq<Page>) {
    seq<Page>(HEAP_BLOCKS, _ => ZeroPage())
  }

  type HeapMap = t: seq<bv8> | |t| == HEAP_BLOCKS witness seq(HEAP_BLOCKS, _ => 0)

  /** Heap memory, the heap's block table, and the frames marked in the bitmap. */
  datatype Vm = Vm(mem: Memory, heap: HeapMap, used: set<nat>)

  // ---------- entries ----------

  /** `entry & PAGING_IS_PRESENT` */
  predicate Present(e: uint32) {
    e % 2 == 1
  }

  /** `entry & 0xfffff000` */
  function Base(e: uint32): (b: uint32)
    ensures b % 4096 == 0 && b <= e
  {
    e - e % 4096
  }

  /** The address in an entry is one of a heap block. */
  predicate PointsIn(e: uint32) {
    HEAP_ADDRESS <= e < HEAP_ADDRESS + HEAP_BLOCKS * 4096
  }

  function TableOf(e: uint32): (b: nat)
    requires PointsIn(e)
    ensures b < HEAP_BLOCKS && Base(e) == AddressOf(b)
  {
    BlockOf(Base(e))
  }

  /** A block address combined with flags: both can be read back, because the address is aligned. */
  function EntryFor(b: nat, flags: nat): (e: uint32)
    requires b < HEAP_BLOCKS && flags < 4096
    ensures PointsIn(e) && TableOf(e) == b && (Present(e) <==> flags % 2 == 1)
  {
    AddressOf(b) + flags
  }

  /** The two index expressions of paging_get_indexes, for page number `p`. */
  function DirIndex(p: nat): (i: nat)
    requires p < PAGES
    ensures i < PER_TABLE
  {
    p / PER_TABLE
  }

  function TableIndex(p: nat): (i: nat)
    requires p < PAGES
    ensures i < PER_TABLE
  {
    p % PER_TABLE
  }

  // ---------- translation ----------

  /** A page's frame address and flags, and the flags of its table in the directory. */
  datatype Mapping = Unmapped | Mapped(base: nat, flags: nat, table: nat)

  /** The flags of an entry: its 12 low bits. */
  function FlagsOf(e: uint32): (f: nat)
    ensures f < 4096 && Base(e) + f == e
  {
    e % 4096
  }

  /** A table entry, read through a directory entry. */
  function ReadEntry(e: uint32, through: uint32): Mapping {
    if Present(e) then Mapped(Base(e), FlagsOf(e), FlagsOf(through)) else Unmapped
  }

  /** What the directory in block `d` maps page `p` to. */
  function Translate(m: Memory, d: nat, p: nat): Mapping
    requires d < HEAP_BLOCKS && p < PAGES
  {
    var e := m[d][DirIndex(p)];
    if Present(e) && PointsIn(e) then ReadEntry(m[TableOf(e)][TableIndex(p)], e) else Unmapped
  }

  /** paging_get_physical */
  function Physical(m: Memory, d: nat, virt: uint32): nat
    requires d < HEAP_BLOCKS
  {
    if virt % 4096 != 0 then 0
    else match Translate(m, d, virt / 4096) case Mapped(b, _, _) => b case Unmapped => 0
  }

  /** The frame's address for an aligned address that is mapped, 0 for every other one. */
  lemma PhysicalExactly(m: Memory, d: nat, virt: uint32)
    requires d < HEAP_BLOCKS
    ensures virt % 4096 == 0 && Translate(m, d, virt / 4096).Mapped? ==>
              Physical(m, d, virt) == Translate(m, d, virt / 4096).base
    ensures virt % 4096 != 0 || Translate(m, d, virt / 4096) == Unmapped ==> Physical(m, d, virt) == 0
  {
  }

  /** The block of the table behind entry `i` of a directory; -1 when there is none. */
  function TableAt(page: Page, i: nat): int
    requires i < PER_TABLE
  {
    if Present(page[i]) && PointsIn(page[i]) then TableOf(page[i]) else -1
  }

  /** The directory and its tables are allocated, and no two of them are the same block. */
  ghost predicate SpaceOk(v: Vm, d: nat) {
    && d < HEAP_BLOCKS && !IsFree(v.heap[d])
    && (forall i :: 0 <= i < PER_TABLE && Present(v.mem[d][i]) ==> PointsIn(v.mem[d][i]))
    && (forall i :: 0 <= i < PER_TABLE ==>
          TableAt(v.mem[d], i) != d && (TableAt(v.mem[d], i) >= 0 ==> !IsFree(v.heap[TableAt(v.mem[d], i)])))
    && (forall i, j :: 0 <= i < j < PER_TABLE && TableAt(v.mem[d], i) >= 0 ==> TableAt(v.mem[d], i) != TableAt(v.mem[d], j))
  }

  // ---------- allocating one block ----------

  /** The lowest free block from `from` on, or HEAP_BLOCKS. */
  function FreeBlock(t: HeapMap, from: nat): (b: nat)
    requires from <= HEAP_BLOCKS
    ensures from <= b <= HEAP_BLOCKS && (b < HEAP_BLOCKS ==> IsFree(t[b]))
    decreases |t| - from
  {
    if from == HEAP_BLOCKS || IsFree(t[from]) then from else FreeBlock(t, from + 1)
  }

  lemma {:induction false} BelowFreeBlock(t: HeapMap, from: nat, i: nat)
    requires from <= HEAP_BLOCKS && from <= i < FreeBlock(t, from)
    ensures !IsFree(t[i])
    decreases HEAP_BLOCKS - from
  {
    if from < i {
      BelowFreeBlock(t, from + 1, i);
    }
  }

  lemma NotFree()
    ensures !IsFree(0x41) && IsFree(0x00)
  {
  }

  function FreeSet(t: HeapMap): set<nat> {
    set b: nat | b < HEAP_BLOCKS && IsFree(t[b])
  }

  /** The lowest free block is found exactly when there is one; taking it leaves one block fewer. */
  lemma TakeOne(t: HeapMap)
    ensures FreeBlock(t, 0) < HEAP_BLOCKS <==> FreeSet(t) != {}
    ensures var b := FreeBlock(t, 0);
            b < HEAP_BLOCKS ==> b in FreeSet(t) && FreeSet(t[b := 0x41]) == FreeSet(t) - {b}
  {
    hide IsFree;
    var b := FreeBlock(t, 0);
    if b == HEAP_BLOCKS {
      forall x: nat | x < HEAP_BLOCKS ensures !IsFree(t[x]) {
        BelowFreeBlock(t, 0, x);
      }
    } else {
      NotFree();
      assert b in FreeSet(t);
    }
  }

  /** Taking one free block keeps the heap's table well formed. */
  lemma OneMarked(t: HeapMap, b: nat)
    requires WellFormed(t) && b < HEAP_BLOCKS && IsFree(t[b])
    ensures WellFormed(t[b := 0x41])
  {
    MarkOne(t, b);
    MallocKeeps(t, b, 1);
  }

  /** For one block, heap_malloc is exactly this: the lowest free block, or NULL. */
  lemma OneBlock(t: HeapMap, u: HeapMap, r: MallocResult)
    requires MallocStep(t, 1, u, r)
    ensures var b := FreeBlock(t, 0);
            if b == HEAP_BLOCKS then r == Null && u == t
            else r == Block(AddressOf(b)) && u == t[b := 0x41]
  {
    var b := FreeBlock(t, 0);
    forall i | 0 <= i < b ensures !IsFree(t[i]) {
      BelowFreeBlock(t, 0, i);
    }
    forall s: nat | s < b ensures !FreeRun(t, s, 1) {
      assert !IsFree(t[s]);
    }
    if b < HEAP_BLOCKS {
      assert FreeRun(t, b, 1);
      StartIsUnique(t, 1, b, match r case Block(a) => BlockOf(a) case Null => -NO_MEMORY case Overrun(c) => c);
      assert MarkTaken(t, b, 1) == t[b := 0x41] by { MarkOne(t, b); }
    } else {
      NoTail(t);
    }
  }

  lemma MarkOne(t: HeapMap, b: nat)
    requires b < HEAP_BLOCKS
    ensures MarkTaken(t, b, 1) == t[b := 0x41]
  {
    assert RunEntry(1, 0) == 0x41;
  }

  lemma NoTail(t: HeapMap)
    requires forall i :: 0 <= i < HEAP_BLOCKS ==> !IsFree(t[i])
    ensures TailStart(t) == |t| && forall s: nat :: !FreeRun(t, s, 1)
  {
    assert !IsFree(t[|t| - 1]);
    forall s: nat ensures !FreeRun(t, s, 1) {
      if s < |t| {
        assert !IsFree(t[s]);
      }
    }
  }

  function ZeroPage(): Page {
    seq(PER_TABLE, _ => 0)
  }

  /** kzalloc of one page: the block, or HEAP_BLOCKS when the heap is full. */
  function AllocPage(v: Vm): (r: (Vm, nat)) {
    var b := FreeBlock(v.heap, 0);
    if b == HEAP_BLOCKS then (v, b) else (Vm(v.mem[b := ZeroPage()], v.heap[b := 0x41], v.used), b)
  }

  // ---------- paging_set ----------

  function SetEntry(m: Memory, b: nat, i: nat, e: uint32): Memory
    requires b < HEAP_BLOCKS && i < PER_TABLE
  {
    m[b := m[b][i := e]]
  }

  const PRESENT := 1   // PAGING_IS_PRESENT
  const WRITABLE := 2  // PAGING_IS_WRITABLE
  const FOR_ALL := 4   // PAGING_ACCESS_FOROM_ALL

  /** The flags paging_set gives a new table. */
  const TABLE_FLAGS := PRESENT + WRITABLE + FOR_ALL

  /** paging_set for page `p`: the new state, and whether it returned 0. */
  function PagingSet(v: Vm, d: nat, p: nat, e: uint32): (r: (Vm, bool))
    requires SpaceOk(v, d) && p < PAGES
  {
    var entry := v.mem[d][DirIndex(p)];
    if Present(entry) then
      (v.(mem := SetEntry(v.mem, TableOf(entry), TableIndex(p), e)), true)
    else
      var a := AllocPage(v);
      if a.1 == HEAP_BLOCKS then (v, false)
      else
        var m := SetEntry(a.0.mem, d, DirIndex(p), EntryFor(a.1, TABLE_FLAGS));
        (a.0.(mem := SetEntry(m, a.1, TableIndex(p), e)), true)
  }

  /**
   A successful paging_set is a map update: the page gets the new entry with its flags, and every
   other page of the directory keeps its translation, whether the table existed or was allocated
   just now. A table that existed keeps its flags; a new one is present, writable and for all.
   */
  lemma SetRefines(v: Vm, d: nat, p: nat, e: uint32, q: nat)
    requires SpaceOk(v, d) && p < PAGES && q < PAGES && PagingSet(v, d, p, e).1
    ensures var w, through := PagingSet(v, d, p, e).0, v.mem[d][DirIndex(p)];
            Translate(w.mem, d, q) ==
            if q != p then Translate(v.mem, d, q)
            else if e % 2 == 0 then Unmapped
            else Mapped(e - e % 4096, e % 4096, if Present(through) then through % 4096 else PRESENT + WRITABLE + FOR_ALL)
  {
    hide IsFree, FreeBlock, DirIndex, TableIndex, EntryFor;
    if Present(v.mem[d][DirIndex(p)]) {
      SetInTable(v, d, p, e, q);
    } else {
      SetInNew(v, d, p, e, q);
    }
  }

  lemma SetInTable(v: Vm, d: nat, p: nat, e: uint32, q: nat)
    requires SpaceOk(v, d) && p < PAGES && q < PAGES && Present(v.mem[d][DirIndex(p)])
    ensures Translate(PagingSet(v, d, p, e).0.mem, d, q) ==
            if q == p then ReadEntry(e, v.mem[d][DirIndex(p)]) else Translate(v.mem, d, q)
  {
    hide IsFree, FreeBlock, DirIndex, TableIndex, EntryFor, ReadEntry, AllocPage;
    SamePage(p, q);
    var page := v.mem[d];
    assert TableAt(page, DirIndex(p)) != d;
    assert DirIndex(p) != DirIndex(q) && TableAt(page, DirIndex(q)) >= 0 ==>
        TableAt(page, DirIndex(p)) != TableAt(page, DirIndex(q));
  }

  lemma SetInNew(v: Vm, d: nat, p: nat, e: uint32, q: nat)
    requires SpaceOk(v, d) && p < PAGES && q < PAGES && PagingSet(v, d, p, e).1 && !Present(v.mem[d][DirIndex(p)])
    ensures var b := AllocPage(v).1;
            && b < HEAP_BLOCKS && EntryFor(b, TABLE_FLAGS) % 4096 == TABLE_FLAGS
            && Translate(PagingSet(v, d, p, e).0.mem, d, q) ==
               if q == p then ReadEntry(e, EntryFor(b, TABLE_FLAGS)) else Translate(v.mem, d, q)
  {
    SetLazily(v, d, p, e);
    NotFree();
    hide PagingSet, AllocPage, IsFree, DirIndex, TableIndex, EntryFor;
    SamePage(p, q);
    EntryFlags(AllocPage(v).1, TABLE_FLAGS);
    assert TableAt(v.mem[d], DirIndex(q)) >= 0 ==> TableAt(v.mem[d], DirIndex(q)) != AllocPage(v).1;
  }

  lemma SamePage(p: nat, q: nat)
    requires p < PAGES && q < PAGES
    ensures p == q <==> DirIndex(p) == DirIndex(q) && TableIndex(p) == TableIndex(q)
  {
  }

  lemma EntryFlags(b: nat, flags: nat)
    requires b < HEAP_BLOCKS && flags < 4096
    ensures EntryFor(b, flags) % 4096 == flags
  {
  }

  /** When the table is missing: the directory gets one entry more, for a block that was free. */
  lemma SetLazily(v: Vm, d: nat, p: nat, e: uint32)
    requires SpaceOk(v, d) && p < PAGES && PagingSet(v, d, p, e).1 && !Present(v.mem[d][DirIndex(p)])
    ensures var w, b := PagingSet(v, d, p, e).0, AllocPage(v).1;
            && b < HEAP_BLOCKS && IsFree(v.heap[b]) && b != d
            && w.mem[d] == v.mem[d][DirIndex(p) := EntryFor(b, TABLE_FLAGS)]
            && w.mem[b] == ZeroPage()[TableIndex(p) := e]
            && (forall x :: 0 <= x < HEAP_BLOCKS && x != d && x != b ==> w.mem[x] == v.mem[x])
            && w.heap == v.heap[b := 0x41] && w.used == v.used
  {
  }

  /** paging_set keeps the directory and its tables allocated and apart. */
  lemma SetKeeps(v: Vm, d: nat, p: nat, e: uint32)
    requires SpaceOk(v, d) && p < PAGES
    ensures SpaceOk(PagingSet(v, d, p, e).0, d)
  {
    var page, w := v.mem[d], PagingSet(v, d, p, e).0;
    if Present(page[DirIndex(p)]) {
      assert TableAt(page, DirIndex(p)) != d;
      assert w.mem[d] == page;
    } else if PagingSet(v, d, p, e).1 {
      SetLazily(v, d, p, e);
      hide PagingSet, SetEntry, AllocPage;
      NewTable(v, w, d, DirIndex(p), AllocPage(v).1);
    }
  }

  lemma NewTable(v: Vm, w: Vm, d: nat, k: nat, b: nat)
    requires SpaceOk(v, d) && k < PER_TABLE && b < HEAP_BLOCKS && IsFree(v.heap[b])
    requires w.mem[d] == v.mem[d][k := EntryFor(b, TABLE_FLAGS)] && w.heap == v.heap[b := 0x41]
    ensures SpaceOk(w, d)
  {
    forall i | 0 <= i < PER_TABLE ensures TableAt(w.mem[d], i) == if i == k then b else TableAt(v.mem[d], i) {
    }
    hide TableAt;
  }

  /** In terms of paging_get_physical, at every page-aligned address. */
  lemma SetPhysical(v: Vm, d: nat, p: nat, e: uint32, virt: uint32)
    requires SpaceOk(v, d) && p < PAGES && Present(e) && PagingSet(v, d, p, e).1
    ensures Physical(PagingSet(v, d, p, e).0.mem, d, virt) ==
            if virt == p * 4096 then Base(e) else Physical(v.mem, d, virt)
  {
    hide PagingSet, Translate;
    SetRefines(v, d, p, e, virt / 4096);
  }
}
