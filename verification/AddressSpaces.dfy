/** Paging as it runs (src/memory/paging/paging.c), over the kernel heap and the frame bitmap. */
module AddressSpaces {
  import opened Bytes
  import opened HeapTable
  import opened Heap
  import opened Frames
  import opened FrameMap
  import opened Paging
  import opened Vmm
  import opened Isolation
  import opened SpaceRuns
  import opened KernelDirectory

  /** A directory or table pointer is the number of its heap block; HEAP_BLOCKS stands for NULL. */
  class Mmu {
    var mem: Memory  // the words of the heap's blocks
    const heap: KernelHeap
    const frames: PhysicalFrames
    ghost var world: World  // the books on processes and frames

    ghost predicate Valid() {
      heap.Valid() && frames.Valid() && heap.entries != frames.bitmap
    }

    ghost function State(): Vm
      reads this, heap.entries, frames.bitmap
      requires Valid()
    {
      Vm(mem, heap.Table(), frames.InUse())
    }

    /** The books agree with the memory. */
    ghost predicate Booked()
      reads this, heap.entries, frames.bitmap
      requires Valid()
    {
      world.v == State() && Inv(world)
    }

    /** Between process events every process has its stack as well. */
    ghost predicate Kept()
      reads this, heap.entries, frames.bitmap
      requires Valid()
    {
      Booked() && Sound(world)
    }

    constructor (heap: KernelHeap, frames: PhysicalFrames)
      requires heap.Valid() && frames.Valid() && heap.entries != frames.bitmap
      ensures Valid() && this.heap == heap && this.frames == frames && mem == BlankMemory()
    {
      this.heap := heap;
      this.frames := frames;
      mem := BlankMemory();
    }

    /** kzalloc of one page. */
    method KzallocPage() returns (b: nat)
      requires Valid()
      modifies `mem, heap.entries
      ensures (State(), b) == AllocPage(old(State()))
    {
      hide FreeBlock, MallocStep, IsFree;
      ghost var t := heap.Table();
      var r := heap.Malloc(4096);
      OneBlock(t, heap.Table(), r);
      if r.Null? {
        return HEAP_BLOCKS;
      }
      BlockAddress(FreeBlock(t, 0), 0);
      b := BlockOf(r.address);
      mem := mem[b := ZeroPage()];
    }

    /** paging_get_indexes */
    method PagingGetIndexes(virt: uint32) returns (res: int, dirIndex: nat, tableIndex: nat)
      ensures res == if virt % 4096 == 0 then 0 else -EINVARG
      ensures res == 0 ==> dirIndex == DirIndex(virt / 4096) && tableIndex == TableIndex(virt / 4096)
    {
      if virt % 4096 != 0 {
        return -EINVARG, 0, 0;
      }
      return 0, virt / (PER_TABLE * 4096), virt % (PER_TABLE * 4096) / 4096;
    }

    /** paging_set */
    method PagingSet(d: nat, virt: uint32, e: uint32) returns (res: int)
      requires Valid() && SpaceOk(State(), d)
      modifies `mem, heap.entries
      ensures virt % 4096 != 0 ==> res == -EINVARG && State() == old(State())
      ensures virt % 4096 == 0 ==> res == 0 || res == -NO_MEMORY
      ensures virt % 4096 == 0 ==>
                (State(), res == 0) == Paging.PagingSet(old(State()), d, virt / 4096, e)
    {
      var r, di, ti := PagingGetIndexes(virt);
      if r < 0 {
        return r;
      }
      var entry := mem[d][di];
      if !Present(entry) {
        var b := KzallocPage();
        if b == HEAP_BLOCKS {
          return -NO_MEMORY;
        }
        mem := SetEntry(mem, d, di, EntryFor(b, TABLE_FLAGS));
        entry := EntryFor(b, TABLE_FLAGS);
      }
      mem := SetEntry(mem, TableOf(entry), ti, e);
      return 0;
    }

    /** paging_get_physical */
    method PagingGetPhysical(d: nat, virt: uint32) returns (r: nat)
      requires Valid() && SpaceOk(State(), d)
      ensures r == Physical(State().mem, d, virt)
    {
      var res, di, ti := PagingGetIndexes(virt);
      if res < 0 {
        return 0;
      }
      var pd := mem[d][di];
      if !Present(pd) {
        return 0;
      }
      var pt := mem[TableOf(pd)][ti];
      if !Present(pt) {
        return 0;
      }
      return Base(pt) + virt % 4096;
    }

    /** vmm_alloc. The result of paging_set is ignored; running out of frames returns 0. */
    method VmmAlloc(d: nat, virtStart: uint32, size: uint32, flags: nat) returns (r: int)
      requires Valid() && SpaceOk(State(), d) && flags < 4096
      modifies `mem, heap.entries, frames.bitmap
      ensures virtStart % 4096 != 0 ==> r == -EINVARG && State() == old(State())
      ensures virtStart % 4096 == 0 ==>
                var a := Vmm.VmmAlloc(old(State()), d, virtStart / 4096, PagesFor(size), flags);
                State() == a.0 && r == if a.1 then RangeEnd(virtStart, PagesFor(size)) else 0
      ensures SpaceOk(State(), d)
    {
      if virtStart % 4096 != 0 {
        return -EINVARG;
      }
      hide SpaceOk, Vmm.VmmAlloc, State, KernelHeap.Table, PhysicalFrames.InUse, PagesFor, RangeEnd;
      var pages := PagesFor(size);
      var ok := VmmAllocPages(d, virtStart, pages, flags);
      r := if ok then RangeEnd(virtStart, pages) else 0;
    }

    /** The loop of vmm_alloc; false when the frames run out. */
    method VmmAllocPages(d: nat, virtStart: uint32, pages: nat, flags: nat) returns (ok: bool)
      requires Valid() && SpaceOk(State(), d) && flags < 4096 && virtStart % 4096 == 0
      modifies `mem, heap.entries, frames.bitmap
      ensures (State(), ok) == Vmm.VmmAlloc(old(State()), d, virtStart / 4096, pages, flags)
      ensures SpaceOk(State(), d)
    {
      hide SpaceOk, Vmm.VmmAlloc, AllocTurn, LowestFree, PageAt, NextPage, State, KernelHeap.Table, PhysicalFrames.InUse;
      FirstPage(virtStart);
      ghost var goal := Vmm.VmmAlloc(State(), d, virtStart / 4096, pages, flags);
      var i := 0;
      while i < pages
        invariant 0 <= i <= pages && SpaceOk(State(), d)
        invariant Vmm.VmmAlloc(State(), d, PageAt(virtStart, i), pages - i, flags) == goal
      {
        PageAtStep(virtStart, i);
        VmmAllocStep(State(), d, PageAt(virtStart, i), pages - i, flags);
        var more := VmmTurn(d, (virtStart + i * 4096) % 0x1_0000_0000, flags);
        if !more {
          return false;
        }
        i := i + 1;
      }
      VmmAllocDone(State(), d, PageAt(virtStart, i), flags);
      return true;
    }

    /** One turn of vmm_alloc; false when no frame is left. */
    method VmmTurn(d: nat, virt: uint32, flags: nat) returns (more: bool)
      requires Valid() && SpaceOk(State(), d) && flags < 4096 && virt % 4096 == 0
      modifies `mem, heap.entries, frames.bitmap
      ensures more <==> LowestFree(old(State()).used, 0) < FRAMES
      ensures State() == if more then AllocTurn(old(State()), d, virt / 4096, flags).0 else old(State())
      ensures SpaceOk(State(), d)
    {
      hide LowestFree, KernelHeap.Table, PhysicalFrames.InUse;
      ghost var v := State();
      var phys := frames.GetFreePhysicalAddress();
      if phys == -NO_MEMORY {
        NotFailure(v);
        return false;
      }
      ghost var f := LowestFree(v.used, 0);
      FrameIntFacts(f);
      TurnKeeps(v, d, virt / 4096, flags);
      var res := PagingSet(d, virt, phys % 0x1_0000_0000 + flags);
      return true;
    }

    /** free_vmm */
    method FreeVmm(d: nat, virtStart: uint32, size: uint32) returns (r: int)
      requires Valid() && SpaceOk(State(), d)
      modifies `mem, frames.bitmap
      ensures virtStart % 4096 != 0 ==> r == -EINVARG && State() == old(State())
      ensures virtStart % 4096 == 0 ==>
                r == 0 && State() == Vmm.FreeVmm(old(State()), d, virtStart / 4096, PagesFor(size))
      ensures SpaceOk(State(), d)
    {
      if virtStart % 4096 != 0 {
        return -EINVARG;
      }
      hide SpaceOk, Vmm.FreeVmm, KernelHeap.Table, PhysicalFrames.InUse;
      FreeVmmPages(d, virtStart, PagesFor(size));
      return 0;
    }

    /** The loop of free_vmm. */
    method FreeVmmPages(d: nat, virtStart: uint32, pages: nat)
      requires Valid() && SpaceOk(State(), d) && virtStart % 4096 == 0
      modifies `mem, frames.bitmap
      ensures State() == Vmm.FreeVmm(old(State()), d, virtStart / 4096, pages)
      ensures SpaceOk(State(), d)
    {
      hide SpaceOk, Vmm.FreeVmm, FreeTurn, PageAt, NextPage, State, KernelHeap.Table, PhysicalFrames.InUse;
      FirstPage(virtStart);
      ghost var goal := Vmm.FreeVmm(State(), d, virtStart / 4096, pages);
      var i := 0;
      while i < pages
        invariant 0 <= i <= pages && SpaceOk(State(), d)
        invariant Vmm.FreeVmm(State(), d, PageAt(virtStart, i), pages - i) == goal
      {
        PageAtStep(virtStart, i);
        FreeVmmStep(State(), d, PageAt(virtStart, i), pages - i);
        FreeOne(d, (virtStart + i * 4096) % 0x1_0000_0000);
        i := i + 1;
      }
      FreeVmmDone(State(), d, PageAt(virtStart, i));
    }

    /** One turn of free_vmm. */
    method FreeOne(d: nat, virt: uint32)
      requires Valid() && SpaceOk(State(), d) && virt % 4096 == 0
      modifies `mem, frames.bitmap
      ensures State() == FreeTurn(old(State()), d, virt / 4096)
    {
      var res, di, ti := PagingGetIndexes(virt);
      var pd := mem[d][di];
      if Present(pd) {
        var pt := mem[TableOf(pd)][ti];
        if Present(pt) {
          frames.FreePhysicalFrame(Base(pt));
          mem := SetEntry(mem, TableOf(pd), ti, 0);
        }
      }
    }

    /** paging_new_4gb. Where a block cannot be had the code goes on with a NULL pointer; the model stops. */
    method PagingNew4gb(flags: nat) returns (ok: bool, d: nat, record: nat, ghost tbl: seq<nat>)
      requires Valid() && flags < 4096
      modifies `mem, heap.entries
      ensures ok <==> |FreeSet(old(State()).heap)| > PER_TABLE + 1
      ensures ok ==> |tbl| == PER_TABLE && Built(old(State()), State(), d, tbl, flags)
      ensures ok ==> d < HEAP_BLOCKS && record < HEAP_BLOCKS && mem[record][0] == AddressOf(d)
      ensures WellFormed(old(State()).heap) ==> WellFormed(State().heap)
    {
      hide Built, FreeBlock, FreeSet, WellFormed, IsFree, KernelHeap.Table, PhysicalFrames.InUse;
      ghost var v0 := State();
      TakeOne(v0.heap);
      ok, d := OnePage();
      tbl, record := [], HEAP_BLOCKS;
      if !ok {
        return;
      }
      StartBuild(v0, State(), d, flags);
      var offset := 0;
      for i := 0 to PER_TABLE
        invariant |tbl| == i && Built(v0, State(), d, tbl, flags)
        invariant |FreeSet(State().heap)| == |FreeSet(v0.heap)| - 1 - i
        invariant WellFormed(v0.heap) ==> WellFormed(State().heap)
        invariant offset == i * 0x40_0000 % 0x1_0000_0000
      {
        ghost var v := State();
        BuiltDir(v0, v, d, tbl, flags);
        TakeOne(v.heap);
        ok := AddOneTable(d, i, offset, flags);
        if !ok {
          return;
        }
        BuiltStep(v0, v, d, tbl, flags, FreeBlock(v.heap, 0));
        tbl := tbl + [FreeBlock(v.heap, 0)];
        offset := (offset + 0x40_0000) % 0x1_0000_0000;
      }
      ok, record := FinishDirectory(v0, d, tbl, flags);
    }

    /** The record of paging_new_4gb that points to the directory. */
    method FinishDirectory(ghost v0: Vm, d: nat, ghost tbl: seq<nat>, flags: nat) returns (ok: bool, c: nat)
      requires Valid() && flags < 4096 && Built(v0, State(), d, tbl, flags)
      modifies `mem, heap.entries
      ensures ok <==> FreeSet(old(State()).heap) != {}
      ensures Built(v0, State(), d, tbl, flags)
      ensures ok ==> d < HEAP_BLOCKS && c < HEAP_BLOCKS && mem[c][0] == AddressOf(d)
      ensures WellFormed(old(State()).heap) ==> WellFormed(State().heap)
    {
      hide Built, FreeBlock, FreeSet, WellFormed, IsFree, KernelHeap.Table, PhysicalFrames.InUse;
      ghost var v := State();
      BuiltDir(v0, v, d, tbl, flags);
      TakeOne(v.heap);
      c := StoreRecord(d);
      ok := c < HEAP_BLOCKS;
      if ok {
        RecordBuilt(v0, v, d, tbl, flags, c);
        if WellFormed(v.heap) { OneMarked(v.heap, c); }
      }
    }

    /** kzalloc of one page, and whether it was had. */
    method OnePage() returns (ok: bool, b: nat)
      requires Valid()
      modifies `mem, heap.entries
      ensures b == FreeBlock(old(State()).heap, 0) && (ok <==> b < HEAP_BLOCKS)
      ensures (State(), b) == AllocPage(old(State()))
      ensures WellFormed(old(State()).heap) ==> WellFormed(State().heap)
    {
      hide FreeBlock, WellFormed, KernelHeap.Table, PhysicalFrames.InUse;
      ghost var v := State();
      b := KzallocPage();
      ok := b < HEAP_BLOCKS;
      if ok && WellFormed(v.heap) { OneMarked(v.heap, b); }
    }

    /** The kernel's directory at start-up: the identity map, and the first entry in the books. */
    method InitPaging(flags: nat) returns (ok: bool, d: nat)
      requires Valid() && flags < 4096 && flags % 2 == 1 && WellFormed(State().heap)
      requires forall f: nat :: Reserved(f) ==> f in frames.InUse()
      modifies this, heap.entries
      ensures ok <==> |FreeSet(old(State()).heap)| > PER_TABLE + 1
      ensures ok ==> Kept() && world.k == d < HEAP_BLOCKS && world.live == map[]
      ensures ok ==> forall virt: uint32 :: virt % 4096 == 0 ==> Physical(mem, d, virt) == virt
    {
      hide KernelHeap.Table, PhysicalFrames.InUse, Built, Inv, FreeSet, Reserved, WellFormed;
      ghost var v0 := State();
      ghost var tbl;
      var record;
      ok, d, record, tbl := PagingNew4gb(flags);
      if !ok {
        return;
      }
      BootInv(v0, State(), d, tbl, flags);
      BuiltDir(v0, State(), d, tbl, flags);
      forall virt: uint32 | virt % 4096 == 0 ensures Physical(mem, d, virt) == virt {
        Identity(v0, State(), d, tbl, flags, virt / 4096);
      }
      world := BootWorld(State(), d, tbl);
    }

    /** One turn of paging_new_4gb. */
    method AddOneTable(d: nat, i: nat, offset: uint32, flags: nat) returns (ok: bool)
      requires Valid() && flags < 4096 && d < HEAP_BLOCKS && i < PER_TABLE
      requires offset == i * 0x40_0000 % 0x1_0000_0000
      modifies `mem, heap.entries
      ensures ok <==> FreeBlock(old(State()).heap, 0) < HEAP_BLOCKS
      ensures ok ==> State() == AddTable(old(State()), d, FreeBlock(old(State()).heap, 0), i, flags)
      ensures WellFormed(old(State()).heap) ==> WellFormed(State().heap)
    {
      hide FreeBlock, WellFormed, KernelHeap.Table, PhysicalFrames.InUse;
      var entry;
      ok, entry := OnePage();
      if ok {
        var page := FillTable(i, offset, flags);
        mem := mem[entry := page];
        mem := SetEntry(mem, d, i, EntryFor(entry, WithWritable(flags)));
      }
    }

    /** The inner loop of paging_new_4gb. */
    method FillTable(i: nat, offset: uint32, flags: nat) returns (page: Page)
      requires flags < 4096 && i < PER_TABLE && offset == i * 0x40_0000 % 0x1_0000_0000
      ensures page == IdentityTable(i, flags)
    {
      page := ZeroPage();
      for j := 0 to PER_TABLE
        invariant forall k :: 0 <= k < j ==> page[k] == (i * PER_TABLE + k) * 4096 + flags
      {
        page := page[j := (offset + j * 4096) % 0x1_0000_0000 + flags];
      }
    }

    /** kzalloc of the 4-byte record, and the store of the directory pointer in it. */
    method StoreRecord(d: nat) returns (c: nat)
      requires Valid() && d < HEAP_BLOCKS
      modifies `mem, heap.entries
      ensures c == FreeBlock(old(State()).heap, 0)
      ensures State() == if c == HEAP_BLOCKS then old(State())
                         else Vm(SetEntry(old(mem), c, 0, AddressOf(d)), old(State()).heap[c := 0x41], old(State()).used)
    {
      hide FreeBlock, MallocStep, IsFree;
      ghost var t := heap.Table();
      var r := heap.Malloc(4);
      OneBlock(t, heap.Table(), r);
      if r.Null? {
        return HEAP_BLOCKS;
      }
      BlockAddress(FreeBlock(t, 0), 0);
      c := BlockOf(r.address);
      mem := SetEntry(mem, c, 0, 0);
      mem := SetEntry(mem, c, 0, AddressOf(d));
      SetTwice(old(mem), c, 0, 0, AddressOf(d));
    }

    /** paging_new_process_directory; HEAP_BLOCKS when a block cannot be had. */
    method NewProcessDirectory(k: nat) returns (d: nat)
      requires Valid() && Booked() && k == world.k
      modifies this, heap.entries
      ensures Booked() && world == OpenSpace(old(world)).0
      ensures d <= HEAP_BLOCKS && (d < HEAP_BLOCKS) == OpenSpace(old(world)).1
      ensures d < HEAP_BLOCKS ==> old(world).next in world.live && world.live[old(world).next] == d
    {
      hide FreeBlock, Inv, KernelHeap.Table, PhysicalFrames.InUse;
      ghost var w := world;
      OpenKeeps(w);
      assert k < HEAP_BLOCKS && !IsFree(w.v.heap[k]) by { KernelBlock(w); }
      world := OpenSpace(w).0;
      d := KzallocPage();
      if d == HEAP_BLOCKS {
        return;
      }
      CopyShared(k, d);
      var c := StoreRecord(d);
      if c == HEAP_BLOCKS {
        d := HEAP_BLOCKS;
      }
    }

    /** The loop that shares the kernel's first entries. */
    method CopyShared(k: nat, d: nat)
      requires Valid() && k < HEAP_BLOCKS && d < HEAP_BLOCKS && k != d && mem[d] == ZeroPage()
      modifies `mem
      ensures mem == old(mem)[d := SharedDir(old(mem)[k])]
    {
      ghost var m := mem;
      for i := 0 to SHARED
        invariant |mem[d]| == PER_TABLE && mem == m[d := mem[d]]
        invariant forall j :: 0 <= j < PER_TABLE ==> mem[d][j] == if j < i then m[k][j] else 0
      {
        mem := SetEntry(mem, d, i, mem[k][i]);
      }
      assert mem[d] == SharedDir(m[k]);
    }

    /** The memory side of create_process: the new directory, or HEAP_BLOCKS. */
    method CreateProcessSpace(k: nat) returns (d: nat)
      requires Valid() && Kept() && k == world.k
      modifies this, heap.entries, frames.bitmap
      ensures Kept() && world == CreateSpace(old(world)).0
      ensures d <= HEAP_BLOCKS && (d < HEAP_BLOCKS) == CreateSpace(old(world)).1
      ensures d < HEAP_BLOCKS ==> old(world).next in world.live && world.live[old(world).next] == d
    {
      hide Inv, Translate, OpenSpace, SpaceOk, Stacked, WellFormed, KernelHeap.Table, PhysicalFrames.InUse;
      ghost var w := world;
      OpenKeeps(w);
      CreateKeeps(w);
      CreateSound(w);
      d := NewProcessDirectory(k);
      if d == HEAP_BLOCKS {
        return;
      }
      d := MapStack(d, w);
    }

    /** The second half of create_process's memory side: the stack is mapped, and its top page checked. */
    method MapStack(dir: nat, ghost w: World) returns (d: nat)
      requires Valid() && Booked() && Inv(w) && OpenSpace(w).1 && world == OpenSpace(w).0
      requires w.next in world.live && world.live[w.next] == dir < HEAP_BLOCKS
      modifies this, heap.entries, frames.bitmap
      ensures Booked() && world == CreateSpace(w).0
      ensures d == if CreateSpace(w).1 then dir else HEAP_BLOCKS
      ensures CreateSpace(w).1 ==> w.next in world.live && world.live[w.next] == dir
    {
      hide Inv, Translate, OpenSpace, SpaceOk, KernelHeap.Table, PhysicalFrames.InUse, Vmm.VmmAlloc, MapRange;
      ghost var o := world;
      CreateKeeps(w);
      InvFacts(o, w.next);
      RangeIsVmm(o, w.next, STACK_PAGE, STACK_PAGES);
      var top := VmmAlloc(dir, 0x1000_0000, 8192, STACK_FLAGS);
      var phys := PagingGetPhysical(dir, (top + 0x1_0000_0000 - 4096) % 0x1_0000_0000);
      world := CreateSpace(w).0;
      d := if phys == 0 then HEAP_BLOCKS else dir;
    }

    /** free_proc, for the directory of process `p`. */
    method FreeProc(d: nat, ghost p: nat)
      requires Valid() && Kept() && p in world.live && world.live[p] == d
      modifies this, heap.entries, frames.bitmap
      ensures Kept() && SpaceOk(old(world).v, d) && world == Retire(old(world), p)
    {
      hide Inv, Translate, SpaceOk, Retire, Stacked, WellFormed, Vmm.FreeVmm, KernelHeap.Table, PhysicalFrames.InUse;
      ghost var w := world;
      InvFacts(w, p);
      RetireKeeps(w, p);
      RetireSound(w, p);
      RetireState(w, p);
      var r := FreeVmm(d, 0x1000_0000, 4096);
      BlockAddress(d, 0);
      FirstFreedExactly(AddressOf(d));
      var inside := heap.Free(AddressOf(d));
      world := Retire(w, p);
    }
  }

  /** `(size + 4095) / 4096`, a 32-bit sum. */
  function PagesFor(size: uint32): (n: nat)
    ensures n < PAGES
  {
    (size + 4095) % 0x1_0000_0000 / 4096
  }

  /** As few pages as hold `size` bytes, exactly while the 32-bit sum does not wrap around. */
  lemma PagesForExactly(size: uint32)
    ensures size <= PagesFor(size) * 4096 < size + 4096 <==> size <= 0xFFFF_F000
    ensures size > 0xFFFF_F000 ==> PagesFor(size) == 0
  {
  }

  /** The result of vmm_alloc is the address behind the last page, which create_process goes back from. */
  lemma RangeEndIsLast(virtStart: uint32, n: nat)
    requires virtStart % 4096 == 0 && n > 0
    ensures (RangeEnd(virtStart, n) + 0x1_0000_0000 - 4096) % 0x1_0000_0000 == PageAt(virtStart, n - 1) * 4096
  {
    hide PageAt, NextPage;
    PageAtStep(virtStart, n - 1);
    PageAtStep(virtStart, n);
    PageBefore(PageAt(virtStart, n - 1));
  }

  lemma PageBefore(p: nat)
    requires p < PAGES
    ensures (NextPage(p) * 4096 + 0x1_0000_0000 - 4096) % 0x1_0000_0000 == p * 4096
  {
  }

  /** The address behind a range of `n` pages, wrapping around at 4 GB. */
  function RangeEnd(virtStart: uint32, n: nat): uint32 {
    (virtStart + n * 4096) % 0x1_0000_0000
  }

  /** The page of the i-th turn; the address wraps around. */
  function PageAt(virtStart: uint32, i: nat): (p: nat)
    ensures p < PAGES
  {
    (virtStart / 4096 + i) % PAGES
  }

  lemma FirstPage(virtStart: uint32)
    ensures PageAt(virtStart, 0) == virtStart / 4096
  {
  }

  lemma PageAtStep(virtStart: uint32, i: nat)
    requires virtStart % 4096 == 0
    ensures PageAt(virtStart, i + 1) == NextPage(PageAt(virtStart, i))
    ensures (virtStart + i * 4096) % 0x1_0000_0000 == PageAt(virtStart, i) * 4096
  {
    var p := virtStart / 4096;
    assert virtStart + i * 4096 == (p + i) * 4096;
    PageWrap(p + i);
  }

  /** Page numbers wrap exactly as addresses do. */
  lemma PageWrap(n: nat)
    ensures n * 4096 % 0x1_0000_0000 == n % PAGES * 4096
    ensures (n + 1) % PAGES == (n % PAGES + 1) % PAGES
  {
    assert n == n / PAGES * PAGES + n % PAGES;
    assert n * 4096 == n / PAGES * 0x1_0000_0000 + n % PAGES * 4096;
  }

  lemma VmmAllocStep(v: Vm, d: nat, p: nat, n: nat, flags: nat)
    requires SpaceOk(v, d) && p < PAGES && flags < 4096 && n > 0
    ensures LowestFree(v.used, 0) == FRAMES ==> Vmm.VmmAlloc(v, d, p, n, flags) == (v, false)
    ensures LowestFree(v.used, 0) < FRAMES ==> SpaceOk(AllocTurn(v, d, p, flags).0, d)
    ensures LowestFree(v.used, 0) < FRAMES ==>
              Vmm.VmmAlloc(v, d, p, n, flags) == Vmm.VmmAlloc(AllocTurn(v, d, p, flags).0, d, NextPage(p), n - 1, flags)
  {
    if LowestFree(v.used, 0) < FRAMES {
      TurnKeeps(v, d, p, flags);
    }
  }

  lemma VmmAllocDone(v: Vm, d: nat, p: nat, flags: nat)
    requires SpaceOk(v, d) && p < PAGES && flags < 4096
    ensures Vmm.VmmAlloc(v, d, p, 0, flags) == (v, true)
  {
  }

  lemma FreeVmmStep(v: Vm, d: nat, p: nat, n: nat)
    requires SpaceOk(v, d) && p < PAGES && n > 0
    ensures SpaceOk(FreeTurn(v, d, p), d)
    ensures Vmm.FreeVmm(v, d, p, n) == Vmm.FreeVmm(FreeTurn(v, d, p), d, NextPage(p), n - 1)
  {
    FreeTurnFacts(v, d, p);
  }

  lemma FreeVmmDone(v: Vm, d: nat, p: nat)
    requires SpaceOk(v, d) && p < PAGES
    ensures Vmm.FreeVmm(v, d, p, 0) == v
  {
  }

  lemma NotFailure(v: Vm)
    ensures LowestFree(v.used, 0) < FRAMES ==> FrameInt(LowestFree(v.used, 0)) != -NO_MEMORY
  {
  }

  lemma SetTwice(m: Memory, b: nat, i: nat, e: uint32, f: uint32)
    requires b < HEAP_BLOCKS && i < PER_TABLE
    ensures SetEntry(SetEntry(m, b, i, e), b, i, f) == SetEntry(m, b, i, f)
  {
    assert m[b][i := e][i := f] == m[b][i := f];
  }

  lemma StartBuild(v0: Vm, v: Vm, d: nat, flags: nat)
    requires flags < 4096 && FreeBlock(v0.heap, 0) < HEAP_BLOCKS && (v, d) == AllocPage(v0)
    ensures Built(v0, v, d, [], flags)
  {
  }

  lemma BuiltDir(v0: Vm, v: Vm, d: nat, tbl: seq<nat>, flags: nat)
    requires flags < 4096 && Built(v0, v, d, tbl, flags)
    ensures d < HEAP_BLOCKS
  {
  }

  lemma KernelBlock(w: World)
    requires Inv(w)
    ensures w.k < HEAP_BLOCKS && !IsFree(w.v.heap[w.k])
  {
    NotFree();
    assert HasRole(w, w.k, KernelDir);
  }

  lemma RetireState(w: World, p: nat)
    requires Inv(w) && p in w.live && SpaceOk(w.v, w.live[p])
    ensures var d := w.live[p]; var t := Vmm.FreeVmm(w.v, d, STACK_PAGE, 1);
            d < HEAP_BLOCKS && Retire(w, p).v == Vm(t.mem, MarkFree(t.heap, d), t.used)
  {
    assert DirOk(w, p, w.live[p]);
  }
}
