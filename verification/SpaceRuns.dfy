/**
 Runs of process creation and freeing (src/process/process.c) with any other traffic on the kernel
 heap in between: isolation at the end of each, and what each process leaves behind.
 */
module SpaceRuns {
  import opened Bytes
  import opened HeapTable
  import opened FrameMap
  import opened Heap
  import opened Paging
  import opened Vmm
  import opened Isolation

  // ---------- the stack ----------

  /** A page that a process can write: both its entry and that of its table say so. */
  predicate StackPage(t: Mapping) {
    t.Mapped? && t.flags == PRESENT + WRITABLE && t.table == PRESENT + WRITABLE + FOR_ALL
  }

  /** Both stack pages of a process are mapped, and writable. */
  ghost predicate StackMapped(w: World, p: nat)
    requires p in w.live && w.live[p] < HEAP_BLOCKS
  {
    StackPage(Translate(w.v.mem, w.live[p], STACK_PAGE)) && StackPage(Translate(w.v.mem, w.live[p], STACK_PAGE + 1))
  }

  ghost predicate Stacked(w: World) {
    forall p :: p in w.live ==> w.live[p] < HEAP_BLOCKS && StackMapped(w, p)
  }

  /** What holds between process events. */
  ghost predicate Sound(w: World) {
    Inv(w) && WellFormed(w.v.heap) && Stacked(w)
  }

  lemma LiveBlock(w: World, p: nat)
    requires Inv(w) && p in w.live
    ensures w.live[p] < HEAP_BLOCKS && w.k < HEAP_BLOCKS && p != w.next && w.v.heap[w.live[p]] == 0x41
  {
    hide FramesOk, PagesOk;
    KernelsRole(w);
    LiveDir(w, p);
    RoleBlock(w, w.live[p]);
  }

  /** The pages of the other processes are translated as before. */
  lemma {:induction false} RangeOther(w: World, p: nat, q: nat, n: nat, r: nat, x: nat)
    requires Inv(w) && p in w.live && SHARED_PAGES <= q && q + n <= PAGES
    requires r in w.live && r != p && SHARED_PAGES <= x < PAGES && w.live[r] < HEAP_BLOCKS
    ensures var e := MapRange(w, p, q, n).0;
            e.live == w.live && Translate(e.v.mem, w.live[r], x) == Translate(w.v.mem, w.live[r], x)
    decreases n
  {
    hide RolesOk, KernelOk, DirsOk, FramesOk, PagesOk, MapPage, SpaceOk, Translate, LowestFree;
    if n > 0 && LowestFree(w.v.used, 0) != FRAMES {
      InvFacts(w, p);
      MapKeeps(w, p, q);
      MapBooks(w, p, q);
      MapOtherPage(w, p, q, r, x);
      RangeOther(MapPage(w, p, q), p, q + 1, n - 1, r, x);
    }
  }

  lemma OpenOther(w: World, r: nat, x: nat)
    requires Inv(w) && r in w.live && SHARED_PAGES <= x < PAGES
    ensures var e := OpenSpace(w).0;
            && w.live[r] < HEAP_BLOCKS && r in e.live && e.live[r] == w.live[r]
            && Translate(e.v.mem, w.live[r], x) == Translate(w.v.mem, w.live[r], x)
  {
    hide OpenSpace, RolesOk, KernelOk, DirsOk, FramesOk, PagesOk, DirOk, KeepsProc, Translate;
    KernelsRole(w);
    LiveDir(w, r);
    OpenTouches(w);
    OpenKeepsProc(w, r);
    KeptPage(w, OpenSpace(w).0, r, w.live[r], x);
  }

  /** What a successful vmm_alloc of the two stack pages does in a directory without a table for them. */
  lemma StackTurns(v: Vm, d: nat)
    requires d < HEAP_BLOCKS && SpaceOk(v, d) && !Present(v.mem[d][DirIndex(STACK_PAGE)])
    requires VmmAlloc(v, d, STACK_PAGE, 2, STACK_FLAGS).1
    requires Translate(VmmAlloc(v, d, STACK_PAGE, 2, STACK_FLAGS).0.mem, d, STACK_PAGE + 1).Mapped?
    requires Translate(v.mem, d, STACK_PAGE) == Translate(v.mem, d, STACK_PAGE + 1) == Unmapped
    ensures var a, b := VmmAlloc(v, d, STACK_PAGE, 2, STACK_FLAGS).0, FreeBlock(v.heap, 0);
            var f := LowestFree(v.used, 0); var g := LowestFree(v.used + {f}, 0);
            && f < FRAMES && g < FRAMES && a.used == v.used + {f} + {g}
            && b < HEAP_BLOCKS && a.heap == v.heap[b := 0x41] && TableAt(a.mem[d], DirIndex(STACK_PAGE)) == b
            && Translate(a.mem, d, STACK_PAGE) == Mapped(f * 4096, PRESENT + WRITABLE, PRESENT + WRITABLE + FOR_ALL)
            && Translate(a.mem, d, STACK_PAGE + 1) == Mapped(g * 4096, PRESENT + WRITABLE, PRESENT + WRITABLE + FOR_ALL)
  {
    hide Translate, SpaceOk, LowestFree, FreeBlock, AllocTurn, Present;
    SameTable();
    var f := LowestFree(v.used, 0);
    var t := AllocTurn(v, d, STACK_PAGE, STACK_FLAGS).0;
    TurnKeeps(v, d, STACK_PAGE, STACK_FLAGS);
    TurnTables(v, d, STACK_PAGE, STACK_FLAGS);
    TurnRefines(v, d, STACK_PAGE, STACK_FLAGS, STACK_PAGE);
    TurnRefines(v, d, STACK_PAGE, STACK_FLAGS, STACK_PAGE + 1);
    assert VmmAlloc(v, d, STACK_PAGE, 2, STACK_FLAGS) == VmmAlloc(t, d, STACK_PAGE + 1, 1, STACK_FLAGS);
    var u := AllocTurn(t, d, STACK_PAGE + 1, STACK_FLAGS).0;
    TurnKeeps(t, d, STACK_PAGE + 1, STACK_FLAGS);
    TurnTables(t, d, STACK_PAGE + 1, STACK_FLAGS);
    TurnRefines(t, d, STACK_PAGE + 1, STACK_FLAGS, STACK_PAGE);
    TurnRefines(t, d, STACK_PAGE + 1, STACK_FLAGS, STACK_PAGE + 1);
    assert VmmAlloc(t, d, STACK_PAGE + 1, 1, STACK_FLAGS) == VmmAlloc(u, d, STACK_PAGE + 2, 0, STACK_FLAGS) == (u, true);
    TurnTable(v, d, STACK_PAGE, STACK_FLAGS);
  }

  lemma TurnTable(v: Vm, d: nat, p: nat, flags: nat)
    requires SpaceOk(v, d) && p < PAGES && flags < 4096 && LowestFree(v.used, 0) < FRAMES
    requires !Present(v.mem[d][DirIndex(p)]) && AllocTurn(v, d, p, flags).1
    ensures d < HEAP_BLOCKS && TableAt(AllocTurn(v, d, p, flags).0.mem[d], DirIndex(p)) == FreeBlock(v.heap, 0)
  {
    hide FreeBlock, LowestFree, SpaceOk, AllocTurn, SameExcept;
    SpaceFacts(v, d, DirIndex(p));
    TurnShape(v, d, p, flags);
  }

  lemma SameTable()
    ensures DirIndex(STACK_PAGE + 1) == DirIndex(STACK_PAGE) && SHARED <= DirIndex(STACK_PAGE)
    ensures NextPage(STACK_PAGE) == STACK_PAGE + 1 && NextPage(STACK_PAGE + 1) == STACK_PAGE + 2
  {
  }

  /** The blocks paging_new_process_directory takes: one for the directory and one for the record. */
  lemma OpenBlocks(w: World)
    requires Inv(w) && OpenSpace(w).1
    ensures var o, d := OpenSpace(w).0, FreeBlock(w.v.heap, 0);
            && d < HEAP_BLOCKS
            && var c := FreeBlock(w.v.heap[d := 0x41], 0);
            && c < HEAP_BLOCKS && d in FreeSet(w.v.heap) && c in FreeSet(w.v.heap) && c != d
            && FreeSet(o.v.heap) == FreeSet(w.v.heap) - {d, c} && o.v.used == w.v.used
            && o.live == w.live[w.next := d] && o.next == w.next + 1
            && (WellFormed(w.v.heap) ==> WellFormed(o.v.heap))
  {
    hide Inv, FreeBlock, FreeSet, WellFormed, SharedDir, IsFree;
    var d := FreeBlock(w.v.heap, 0);
    TakeOne(w.v.heap);
    TakeOne(w.v.heap[d := 0x41]);
    KernelInRange(w);
    if WellFormed(w.v.heap) {
      OneMarked(w.v.heap, d);
      OneMarked(w.v.heap[d := 0x41], FreeBlock(w.v.heap[d := 0x41], 0));
    }
  }

  lemma KernelInRange(w: World)
    requires Inv(w)
    ensures w.k < HEAP_BLOCKS
  {
    KernelsRole(w);
  }

  /** create_process succeeds only when vmm_alloc mapped both pages. */
  lemma CreatedStack(w: World)
    requires Inv(w) && CreateSpace(w).1
    ensures w.k < HEAP_BLOCKS && OpenSpace(w).1 && Inv(OpenSpace(w).0)
    ensures var o, e, d := OpenSpace(w).0, CreateSpace(w).0, FreeBlock(w.v.heap, 0);
            && d < HEAP_BLOCKS && o.live == w.live[w.next := d] == e.live && e.next == w.next + 1
            && SpaceOk(o.v, d) && !Present(o.v.mem[d][DirIndex(STACK_PAGE)])
            && Translate(o.v.mem, d, STACK_PAGE) == Translate(o.v.mem, d, STACK_PAGE + 1) == Unmapped
            && VmmAlloc(o.v, d, STACK_PAGE, 2, STACK_FLAGS).1 && e.v == VmmAlloc(o.v, d, STACK_PAGE, 2, STACK_FLAGS).0
            && Translate(e.v.mem, d, STACK_PAGE + 1).Mapped?
  {
    hide Inv, OpenSpace, MapRange, VmmAlloc, Translate, SharedDir, FreeBlock, FreeSet, SpaceOk, Present;
    KernelInRange(w);
    OpenKeeps(w);
    var o, d := OpenSpace(w).0, FreeBlock(w.v.heap, 0);
    OpenBlocks(w);
    InvFacts(o, w.next);
    NewIsShared(w);
    var page := w.v.mem[w.k];
    EmptyAbove(o.v.mem, d, page, STACK_PAGE);
    EmptyAbove(o.v.mem, d, page, STACK_PAGE + 1);
    EmptyAbove(o.v.mem, d, page, PAGES - 1);
    SharedEnds(page);
    RangeIsVmm(o, w.next, STACK_PAGE, STACK_PAGES);
    AllocMaps(o.v, d, STACK_PAGE, 2, STACK_FLAGS, PAGES - 1);
    RangeNext(o, w.next, STACK_PAGE, STACK_PAGES);
  }

  lemma NewIsShared(w: World)
    requires Inv(w) && OpenSpace(w).1
    ensures var o, d := OpenSpace(w).0, FreeBlock(w.v.heap, 0);
            w.k < HEAP_BLOCKS && d < HEAP_BLOCKS && o.v.mem[d] == SharedDir(w.v.mem[w.k])
  {
    hide RolesOk, KernelOk, DirsOk, FramesOk, PagesOk, SharedDir;
    KernelsRole(w);
    NotFree();
  }

  lemma SharedEnds(kernel: Page)
    ensures !Present(SharedDir(kernel)[DirIndex(STACK_PAGE)])
  {
  }

  lemma {:induction false} RangeNext(w: World, p: nat, q: nat, n: nat)
    requires Inv(w) && p in w.live && SHARED_PAGES <= q && q + n <= PAGES
    ensures MapRange(w, p, q, n).0.next == w.next && MapRange(w, p, q, n).0.k == w.k
    decreases n
  {
    hide Inv, MapPage, SpaceOk, LowestFree;
    if n > 0 && LowestFree(w.v.used, 0) != FRAMES {
      InvFacts(w, p);
      MapKeeps(w, p, q);
      MapBooks(w, p, q);
      RangeNext(MapPage(w, p, q), p, q + 1, n - 1);
    }
  }

  /** What a created process takes: three blocks and the two lowest free frames, for its stack. */
  lemma CreateTakes(w: World)
    requires Inv(w) && CreateSpace(w).1
    ensures var e, d := CreateSpace(w).0, FreeBlock(w.v.heap, 0);
            var f := LowestFree(w.v.used, 0); var g := LowestFree(w.v.used + {f}, 0);
            && d < HEAP_BLOCKS && e.live == w.live[w.next := d] && e.next == w.next + 1
            && f < FRAMES && g < FRAMES && e.v.used == w.v.used + {f, g}
            && Translate(e.v.mem, d, STACK_PAGE) == Mapped(f * 4096, PRESENT + WRITABLE, PRESENT + WRITABLE + FOR_ALL)
            && Translate(e.v.mem, d, STACK_PAGE + 1) == Mapped(g * 4096, PRESENT + WRITABLE, PRESENT + WRITABLE + FOR_ALL)
            && RecordBlock(w) < HEAP_BLOCKS && StackTable(e, w.next) >= 0
            && Taken3(w.v.heap, e.v.heap, d, RecordBlock(w), StackTable(e, w.next))
            && e.v.mem[RecordBlock(w)][0] == AddressOf(d)
  {
    hide Inv, OpenSpace, CreateSpace, VmmAlloc, Translate, FreeBlock, FreeSet, SpaceOk, Present, LowestFree;
    CreatedStack(w);
    OpenBlocks(w);
    var o, d := OpenSpace(w).0, FreeBlock(w.v.heap, 0);
    StackTurns(o.v, d);
    TakeOne(o.v.heap);
    RecordHolds(w);
  }

  /** The record holds the address of the directory, and mapping the stack leaves it alone. */
  lemma RecordHolds(w: World)
    requires Inv(w) && CreateSpace(w).1
    ensures RecordBlock(w) < HEAP_BLOCKS && FreeBlock(w.v.heap, 0) < HEAP_BLOCKS
    ensures CreateSpace(w).0.v.mem[RecordBlock(w)][0] == AddressOf(FreeBlock(w.v.heap, 0))
  {
    hide Inv, MapRange, VmmAlloc, Translate, SharedDir, FreeBlock, FreeSet, SpaceOk, Present;
    KernelInRange(w);
    CreatedStack(w);
    OpenBlocks(w);
    var o, c := OpenSpace(w).0, RecordBlock(w);
    assert HasRole(o, c, Role.Record) && o.v.mem[c][0] == AddressOf(FreeBlock(w.v.heap, 0));
    RangeRecord(o, w.next, STACK_PAGE, STACK_PAGES, c);
  }

  lemma {:induction false} RangeRecord(w: World, p: nat, q: nat, n: nat, c: nat)
    requires Inv(w) && p in w.live && SHARED_PAGES <= q && q + n <= PAGES && HasRole(w, c, Role.Record)
    ensures MapRange(w, p, q, n).0.v.mem[c] == w.v.mem[c]
    decreases n
  {
    hide RolesOk, KernelOk, DirsOk, FramesOk, PagesOk, MapPage, SpaceOk, LowestFree;
    if n > 0 && LowestFree(w.v.used, 0) != FRAMES {
      InvFacts(w, p);
      MapKeeps(w, p, q);
      MapBooks(w, p, q);
      MapTouches(w, p, q);
      RangeRecord(MapPage(w, p, q), p, q + 1, n - 1, c);
    }
  }

  // ---------- when a create succeeds ----------

  /** A create succeeds exactly when three blocks and two frames are free. */
  lemma CreateSucceedsExactly(w: World)
    requires Inv(w)
    ensures CreateSpace(w).1 <==> |FreeSet(w.v.heap)| >= 3 && |FreeFrames(w.v.used)| >= 2
  {
    hide Inv, CreateSpace, Translate, LowestFree, FreeBlock, FreeSet, FreeFrames, StackTable, RecordBlock;
    if CreateSpace(w).1 {
      CreateTakes(w);
      var f := LowestFree(w.v.used, 0);
      LowestOf(w.v.used);
      LowestOf(w.v.used + {f});
      var t: nat := StackTable(CreateSpace(w).0, w.next);
      Three(FreeBlock(w.v.heap, 0), RecordBlock(w), t, FreeSet(w.v.heap));
      Two(f, LowestFree(w.v.used + {f}, 0), FreeFrames(w.v.used));
    } else if |FreeSet(w.v.heap)| >= 3 && |FreeFrames(w.v.used)| >= 2 {
      EnoughSucceeds(w);
    }
  }

  lemma Three(x: nat, y: nat, z: nat, b: set<nat>)
    requires x in b && y in b && z in b && x != y && x != z && y != z
    ensures |b| >= 3
  {
    assert b == {x, y, z} + (b - {x, y, z});
  }

  lemma Two(x: nat, y: nat, b: set<nat>)
    requires x in b && y in b && x != y
    ensures |b| >= 2
  {
    assert b == {x, y} + (b - {x, y});
  }

  lemma OpenSucceeds(w: World)
    requires Inv(w)
    ensures w.k < HEAP_BLOCKS && (OpenSpace(w).1 <==> |FreeSet(w.v.heap)| >= 2)
  {
    hide Inv, FreeBlock, FreeSet, SharedDir;
    KernelInRange(w);
    TakeOne(w.v.heap);
    var d := FreeBlock(w.v.heap, 0);
    if d < HEAP_BLOCKS {
      TakeOne(w.v.heap[d := 0x41]);
      assert |FreeSet(w.v.heap) - {d}| == |FreeSet(w.v.heap)| - 1;
    }
  }

  lemma EnoughSucceeds(w: World)
    requires Inv(w) && |FreeSet(w.v.heap)| >= 3 && |FreeFrames(w.v.used)| >= 2
    ensures CreateSpace(w).1
  {
    hide Inv, OpenSpace, MapRange, VmmAlloc, Translate, FreeBlock, FreeSet, FreeFrames, SpaceOk, Present, FramesFor, Missing, TablesReady, SharedDir;
    OpenSucceeds(w);
    OpenKeeps(w);
    OpenBlocks(w);
    var o, d := OpenSpace(w).0, FreeBlock(w.v.heap, 0);
    InvFacts(o, w.next);
    RangeIsVmm(o, w.next, STACK_PAGE, STACK_PAGES);
    FramesForLength(o.v.used, 2);
    FramesForFresh(o.v.used, 2);
    TablesFound(o.v, d, STACK_PAGE, 2, STACK_FLAGS);
    OneMissing(o.v.mem[d]);
    AllocMaps(o.v, d, STACK_PAGE, 2, STACK_FLAGS, STACK_PAGE + 1);
    ReadyAt(VmmAlloc(o.v, d, STACK_PAGE, 2, STACK_FLAGS).0.mem[d]);
    ZeroIsUsed(o);
  }

  lemma OneMissing(page: Page)
    ensures |Missing(page, STACK_PAGE, 2)| <= 1
  {
    hide Present;
    SameTable();
    var i := DirIndex(STACK_PAGE);
    forall j | j in Missing(page, STACK_PAGE, 2) ensures j == i {
      var q :| 0 <= q < PAGES && Offset(STACK_PAGE, q) < 2 && DirIndex(q) == j;
      assert q == STACK_PAGE || q == STACK_PAGE + 1;
    }
    var m := Missing(page, STACK_PAGE, 2);
    assert m <= {i};
    assert {i} == m + ({i} - m);
  }

  lemma ReadyAt(page: Page)
    requires TablesReady(page, STACK_PAGE, 2)
    ensures Present(page[DirIndex(STACK_PAGE + 1)]) && Offset(STACK_PAGE, STACK_PAGE + 1) == 1
  {
    hide Present;
  }

  lemma ZeroIsUsed(w: World)
    requires Inv(w)
    ensures 0 in w.v.used
  {
    hide RolesOk, KernelOk, DirsOk, PagesOk;
    assert Reserved(0);
  }

  // ---------- what a failed create leaves behind ----------

  /** The blocks and frames a create has taken when it fails, for `b` free blocks and `f` free frames. */
  function LostBlocks(b: nat, f: nat): (n: nat)
    ensures n <= b
  {
    if b <= 2 then b else if f == 0 then 2 else 3
  }

  function LostFrames(b: nat, f: nat): (n: nat)
    ensures n <= f
  {
    if b < 2 then 0 else if f < 2 then f else 2
  }

  /** A create that fails creates no process, and all it has taken by then is lost. */
  lemma FailedCreateCosts(w: World)
    requires Inv(w) && !CreateSpace(w).1
    ensures var e, b, f := CreateSpace(w).0, |FreeSet(w.v.heap)|, |FreeFrames(w.v.used)|;
            && e.live.Keys == w.live.Keys
            && |FreeSet(e.v.heap)| == b - LostBlocks(b, f)
            && |FreeFrames(e.v.used)| == f - LostFrames(b, f)
  {
    hide Inv, OpenSpace, MapRange, VmmAlloc, Translate, FreeBlock, FreeSet, FreeFrames, SpaceOk, Present, FramesFor, SharedDir;
    OpenSucceeds(w);
    OpenKeeps(w);
    CreateLive(w);
    if !OpenSpace(w).1 {
      FailedOpen(w);
    } else {
      OpenBlocks(w);
      var o, d := OpenSpace(w).0, FreeBlock(w.v.heap, 0);
      InvFacts(o, w.next);
      RangeIsVmm(o, w.next, STACK_PAGE, STACK_PAGES);
      NewIsShared(w);
      SharedEnds(w.v.mem[w.k]);
      StackHeap(o.v, d);
      StackFrames(o.v, d);
      assert |FreeSet(w.v.heap) - {d, FreeBlock(w.v.heap[d := 0x41], 0)}| == |FreeSet(w.v.heap)| - 2;
      if |FreeSet(w.v.heap)| >= 3 && |FreeFrames(w.v.used)| >= 2 {
        EnoughSucceeds(w);
      }
    }
  }

  lemma FailedOpen(w: World)
    requires Inv(w) && w.k < HEAP_BLOCKS && !OpenSpace(w).1
    ensures FreeSet(OpenSpace(w).0.v.heap) == {} && |FreeSet(w.v.heap)| <= 1 && OpenSpace(w).0.v.used == w.v.used
  {
    hide Inv, FreeBlock, FreeSet, SharedDir;
    TakeOne(w.v.heap);
    var d := FreeBlock(w.v.heap, 0);
    if d < HEAP_BLOCKS {
      TakeOne(w.v.heap[d := 0x41]);
      assert |FreeSet(w.v.heap) - {d}| == |FreeSet(w.v.heap)| - 1;
    }
  }

  /** The stack's table is the only block vmm_alloc takes for the two pages, if there is a frame and a block. */
  lemma StackHeap(v: Vm, d: nat)
    requires d < HEAP_BLOCKS && SpaceOk(v, d) && !Present(v.mem[d][DirIndex(STACK_PAGE)])
    ensures var a := VmmAlloc(v, d, STACK_PAGE, 2, STACK_FLAGS).0;
            |FreeSet(a.heap)| == |FreeSet(v.heap)| - (if FreeFrames(v.used) != {} && FreeSet(v.heap) != {} then 1 else 0)
  {
    hide Translate, SpaceOk, LowestFree, FreeBlock, AllocTurn, Present, FreeSet, FreeFrames;
    SameTable();
    LowestOf(v.used);
    TakeOne(v.heap);
    if LowestFree(v.used, 0) < FRAMES {
      var t := AllocTurn(v, d, STACK_PAGE, STACK_FLAGS).0;
      TurnKeeps(v, d, STACK_PAGE, STACK_FLAGS);
      TurnTables(v, d, STACK_PAGE, STACK_FLAGS);
      assert VmmAlloc(v, d, STACK_PAGE, 2, STACK_FLAGS) == VmmAlloc(t, d, STACK_PAGE + 1, 1, STACK_FLAGS);
      if LowestFree(t.used, 0) < FRAMES {
        var u := AllocTurn(t, d, STACK_PAGE + 1, STACK_FLAGS).0;
        TurnKeeps(t, d, STACK_PAGE + 1, STACK_FLAGS);
        TurnTables(t, d, STACK_PAGE + 1, STACK_FLAGS);
        assert VmmAlloc(t, d, STACK_PAGE + 1, 1, STACK_FLAGS) == VmmAlloc(u, d, STACK_PAGE + 2, 0, STACK_FLAGS) == (u, true);
      }
    }
  }

  lemma StackFrames(v: Vm, d: nat)
    requires d < HEAP_BLOCKS && SpaceOk(v, d)
    ensures var a, f := VmmAlloc(v, d, STACK_PAGE, 2, STACK_FLAGS).0, |FreeFrames(v.used)|;
            |FreeFrames(a.used)| == f - (if f < 2 then f else 2)
  {
    hide VmmAlloc, SpaceOk, LowestFree, FreeFrames, Translate, Present, SetOf;
    AllocMaps(v, d, STACK_PAGE, 2, STACK_FLAGS, STACK_PAGE);
    FramesForLength(v.used, 2);
    TakenFrames(v.used, 2);
  }

  lemma {:induction false} TakenFrames(used: set<nat>, n: nat)
    ensures |FreeFrames(used + SetOf(FramesFor(used, n)))| == |FreeFrames(used)| - |FramesFor(used, n)|
    decreases n
  {
    hide LowestFree, FreeFrames, SetOf;
    NoFrames();
    LowestOf(used);
    if n > 0 && LowestFree(used, 0) != FRAMES {
      var f := LowestFree(used, 0);
      TakenFrames(used + {f}, n - 1);
      SetOfCons(f, FramesFor(used + {f}, n - 1));
      assert used + SetOf([f] + FramesFor(used + {f}, n - 1)) == used + {f} + SetOf(FramesFor(used + {f}, n - 1));
    } else {
      assert used + SetOf([]) == used;
    }
  }

  /** The block of the record that points to the directory a create will build. */
  function RecordBlock(w: World): nat {
    var d := FreeBlock(w.v.heap, 0);
    if d == HEAP_BLOCKS then d else FreeBlock(w.v.heap[d := 0x41], 0)
  }

  /** The block of the table for a process's stack. */
  function StackTable(w: World, p: nat): int
    requires p in w.live && w.live[p] < HEAP_BLOCKS
  {
    TableAt(w.v.mem[w.live[p]], DirIndex(STACK_PAGE))
  }

  /** Three different blocks were free and are taken now. */
  predicate Taken3(t: HeapMap, u: HeapMap, d: nat, c: nat, b: nat) {
    {d, c, b} <= FreeSet(t) && d != c && d != b && c != b && FreeSet(u) == FreeSet(t) - {d, c, b}
  }

  // ---------- freeing ----------

  /** free_proc gives back one frame and one block: the first stack page's and the directory's. */
  lemma RetireGives(w: World, p: nat)
    requires Inv(w) && Stacked(w) && p in w.live && SpaceOk(w.v, w.live[p])
    ensures var d, e := w.live[p], Retire(w, p);
            && d < HEAP_BLOCKS && e.live == w.live - {p} && e.next == w.next
            && Translate(w.v.mem, d, STACK_PAGE).Mapped?
            && var f := Translate(w.v.mem, d, STACK_PAGE).base / 4096;
            && f in w.v.used && e.v.used == w.v.used - {f}
            && d !in FreeSet(w.v.heap) && FreeSet(e.v.heap) == FreeSet(w.v.heap) + {d}
            && (WellFormed(w.v.heap) ==> WellFormed(e.v.heap))
  {
    hide RolesOk, KernelOk, DirsOk, DirOk, Translate, WellFormed, FreeVmm, MarkFree, SpaceOk, IsFree, PagesOk;
    var d := w.live[p];
    KernelsRole(w);
    LiveDir(w, p);
    RetireTouches(w, p);
    StackPages(w, p);
    assert PageOk(w, p, STACK_PAGE) by { AnyPage(w, p, STACK_PAGE); }
    NotFree();
    RoleBlock(w, d);
    if WellFormed(w.v.heap) {
      FreeOneKeeps(w.v.heap, d);
    }
  }

  /** Whenever a process is freed, its second stack frame and the table of its stack stay allocated. */
  lemma LeavesBehind(w: World, p: nat)
    requires Sound(w) && p in w.live && SpaceOk(w.v, w.live[p])
    ensures var d := w.live[p]; var table := TableAt(w.v.mem[d], DirIndex(STACK_PAGE));
            && Translate(w.v.mem, d, STACK_PAGE + 1).Mapped?
            && Translate(w.v.mem, d, STACK_PAGE + 1).base / 4096 in Retire(w, p).v.used
            && table >= 0 && !IsFree(Retire(w, p).v.heap[table])
  {
    hide Inv, Retire, Translate, WellFormed, TableAt, SpaceOk;
    LiveBlock(w, p);
    StackPages(w, p);
    RetireLeaks(w, p);
  }

  lemma StackPages(w: World, p: nat)
    requires Stacked(w) && p in w.live
    ensures w.live[p] < HEAP_BLOCKS && StackMapped(w, p)
  {
  }

  lemma AnyPage(w: World, p: nat, q: nat)
    requires Inv(w) && p in w.live && SHARED_PAGES <= q < PAGES
    ensures w.live[p] < HEAP_BLOCKS && PageOk(w, p, q)
  {
    hide Translate, RolesOk, KernelOk, FramesOk, PageOk;
    KernelsRole(w);
    LiveDir(w, p);
  }

  /** Freeing a lone block. */
  lemma FreeOneKeeps(t: HeapMap, d: nat)
    requires WellFormed(t) && d < HEAP_BLOCKS && t[d] == 0x41
    ensures WellFormed(t[d := FREE])
  {
    assert Live(t, d) && MarkFree(t, d) == t[d := FREE];
    FreeKeeps(t, d);
  }

  /**
   The exact balance of a process that is created and freed: the frame of its second stack page,
   its record and the table of its stack are never given back.
   */
  lemma CreateThenRetire(w: World)
    requires Sound(w) && CreateSpace(w).1
    ensures var e, p := CreateSpace(w).0, w.next;
            && Sound(e) && p in e.live && SpaceOk(e.v, e.live[p])
            && var g := Translate(e.v.mem, e.live[p], STACK_PAGE + 1).base / 4096;
            && g !in w.v.used && Retire(e, p).v.used == w.v.used + {g}
            && StackTable(e, p) >= 0 && RecordBlock(w) != StackTable(e, p)
            && {RecordBlock(w), StackTable(e, p) as nat} <= FreeSet(w.v.heap)
            && FreeSet(Retire(e, p).v.heap) == FreeSet(w.v.heap) - {RecordBlock(w), StackTable(e, p)}
            && Retire(e, p).live == w.live
  {
    hide Inv, CreateSpace, Retire, Translate, SpaceOk, LowestFree, FreeBlock, FreeSet, WellFormed, Stacked, StackTable, RecordBlock;
    var e, p := CreateSpace(w).0, w.next;
    CreateSound(w);
    CreateTakes(w);
    InvFacts(e, p);
    RetireGives(e, p);
    assert p !in w.live by { if p in w.live { LiveBlock(w, p); } }
    assert e.live - {p} == w.live;
  }

  // ---------- what every event keeps ----------

  lemma {:induction false} AllocWellFormed(v: Vm, d: nat, p: nat, n: nat, flags: nat)
    requires SpaceOk(v, d) && p < PAGES && flags < 4096 && WellFormed(v.heap)
    ensures WellFormed(VmmAlloc(v, d, p, n, flags).0.heap)
    decreases n
  {
    hide SpaceOk, WellFormed, AllocTurn, LowestFree, FreeBlock, Present, IsFree;
    if n > 0 && LowestFree(v.used, 0) != FRAMES {
      var b := FreeBlock(v.heap, 0);
      TurnKeeps(v, d, p, flags);
      TurnTables(v, d, p, flags);
      if b < HEAP_BLOCKS {
        OneMarked(v.heap, b);
      }
      AllocWellFormed(AllocTurn(v, d, p, flags).0, d, NextPage(p), n - 1, flags);
    }
  }

  lemma CreateWellFormed(w: World)
    requires Inv(w) && WellFormed(w.v.heap)
    ensures WellFormed(CreateSpace(w).0.v.heap)
  {
    hide Inv, OpenSpace, MapRange, VmmAlloc, Translate, FreeBlock, FreeSet, SpaceOk, WellFormed;
    KernelInRange(w);
    OpenKeeps(w);
    OpenWellFormed(w);
    if OpenSpace(w).1 {
      var o := OpenSpace(w).0;
      InvFacts(o, w.next);
      LiveBlock(o, w.next);
      RangeIsVmm(o, w.next, STACK_PAGE, STACK_PAGES);
      AllocWellFormed(o.v, o.live[w.next], STACK_PAGE, STACK_PAGES, STACK_FLAGS);
    }
  }

  lemma OpenWellFormed(w: World)
    requires w.k < HEAP_BLOCKS && WellFormed(w.v.heap)
    ensures WellFormed(OpenSpace(w).0.v.heap)
  {
    hide FreeBlock, WellFormed, SharedDir, IsFree;
    var d := FreeBlock(w.v.heap, 0);
    if d < HEAP_BLOCKS {
      OneMarked(w.v.heap, d);
      var c := FreeBlock(w.v.heap[d := 0x41], 0);
      if c < HEAP_BLOCKS {
        OneMarked(w.v.heap[d := 0x41], c);
      }
    }
  }

  /** A create does not move the stack of a process that was there. */
  lemma CreateOther(w: World, r: nat, x: nat)
    requires Inv(w) && r in w.live && SHARED_PAGES <= x < PAGES
    ensures var e := CreateSpace(w).0;
            && w.live[r] < HEAP_BLOCKS && r in e.live && e.live[r] == w.live[r]
            && Translate(e.v.mem, w.live[r], x) == Translate(w.v.mem, w.live[r], x)
  {
    hide Inv, OpenSpace, MapRange, Translate, SpaceOk;
    KernelInRange(w);
    LiveBlock(w, r);
    OpenKeeps(w);
    OpenOther(w, r, x);
    if OpenSpace(w).1 {
      RangeOther(OpenSpace(w).0, w.next, STACK_PAGE, STACK_PAGES, r, x);
    }
  }

  lemma CreateAdds(w: World, r: nat)
    requires Inv(w) && r in CreateSpace(w).0.live && r !in w.live
    ensures CreateSpace(w).1 && r == w.next
  {
    hide Inv, MapRange, Translate, SpaceOk, FreeBlock, SharedDir;
    KernelInRange(w);
    OpenKeeps(w);
    if OpenSpace(w).1 {
      RangeLive(OpenSpace(w).0, w.next, STACK_PAGE, STACK_PAGES);
    }
  }

  /** A create that fails leaves the live processes as they were. */
  lemma CreateLive(w: World)
    requires Inv(w)
    ensures var c := CreateSpace(w);
            && c.0.next >= w.next && w.next !in w.live
            && c.0.live.Keys == if c.1 then w.live.Keys + {w.next} else w.live.Keys
  {
    hide Inv, OpenSpace, MapRange, Translate, SpaceOk;
    KernelInRange(w);
    OpenKeeps(w);
    OpenNext(w);
    if OpenSpace(w).1 {
      RangeLive(OpenSpace(w).0, w.next, STACK_PAGE, STACK_PAGES);
      RangeNext(OpenSpace(w).0, w.next, STACK_PAGE, STACK_PAGES);
    }
    if w.next in w.live { LiveBlock(w, w.next); }
  }

  lemma OpenNext(w: World)
    requires Inv(w)
    ensures w.k < HEAP_BLOCKS && OpenSpace(w).0.next >= w.next && (!OpenSpace(w).1 ==> OpenSpace(w).0.live == w.live)
  {
    hide RolesOk, KernelOk, DirsOk, FramesOk, PagesOk, FreeBlock, SharedDir;
    KernelsRole(w);
  }

  lemma {:induction false} RangeLive(w: World, p: nat, q: nat, n: nat)
    requires Inv(w) && p in w.live && SHARED_PAGES <= q && q + n <= PAGES
    ensures MapRange(w, p, q, n).0.live == w.live
    decreases n
  {
    hide Inv, MapPage, SpaceOk, LowestFree;
    if n > 0 && LowestFree(w.v.used, 0) != FRAMES {
      InvFacts(w, p);
      MapKeeps(w, p, q);
      MapBooks(w, p, q);
      RangeLive(MapPage(w, p, q), p, q + 1, n - 1);
    }
  }

  lemma CreateSound(w: World)
    requires Sound(w)
    ensures Sound(CreateSpace(w).0)
  {
    hide Inv, CreateSpace, WellFormed, Translate, LowestFree, FreeBlock, FreeSet, StackTable, RecordBlock, Taken3;
    CreateKeeps(w);
    CreateWellFormed(w);
    var e := CreateSpace(w).0;
    forall r | r in e.live ensures e.live[r] < HEAP_BLOCKS && StackMapped(e, r) {
      if r in w.live {
        CreateOther(w, r, STACK_PAGE);
        CreateOther(w, r, STACK_PAGE + 1);
        assert StackMapped(w, r);
      } else {
        CreateAdds(w, r);
        CreateTakes(w);
      }
    }
  }

  lemma RetireSound(w: World, p: nat)
    requires Sound(w) && p in w.live && SpaceOk(w.v, w.live[p])
    ensures Sound(Retire(w, p))
  {
    hide Inv, Retire, SpaceOk, WellFormed, Translate, FreeSet;
    RetireKeeps(w, p);
    RetireGives(w, p);
    var e := Retire(w, p);
    forall r | r in e.live ensures e.live[r] < HEAP_BLOCKS && StackMapped(e, r) {
      RetireOther(w, p, r, STACK_PAGE);
      RetireOther(w, p, r, STACK_PAGE + 1);
      assert StackMapped(w, r);
    }
  }

  lemma RetireOther(w: World, p: nat, r: nat, x: nat)
    requires Inv(w) && p in w.live && SpaceOk(w.v, w.live[p]) && r in w.live && r != p && SHARED_PAGES <= x < PAGES
    ensures w.live[r] < HEAP_BLOCKS && Translate(Retire(w, p).v.mem, w.live[r], x) == Translate(w.v.mem, w.live[r], x)
  {
    hide Retire, RolesOk, KernelOk, DirsOk, DirOk, FramesOk, PagesOk, SpaceOk, Translate, KeepsProc;
    KernelsRole(w);
    LiveDir(w, r);
    RetireKeepsProc(w, p, r);
    KeptPage(w, Retire(w, p), r, w.live[r], x);
  }

  // ---------- other users of the heap ----------

  /** A heap call on a block that belongs to no address space, and writes to such blocks. */
  ghost predicate Foreign(w: World, op: HeapOp, u: HeapMap, m: Memory) {
    && HeapStep(w.v.heap, op, u) && (op.Release? ==> op.block !in w.role)
    && forall x :: x in w.role && x < HEAP_BLOCKS ==> m[x] == w.v.mem[x]
  }

  function AfterOther(w: World, u: HeapMap, m: Memory): World {
    w.(v := Vm(m, u, w.v.used))
  }

  /** What heap_free clears holds no block of an address space. */
  ghost predicate Spares(w: World, op: HeapOp) {
    op.Release? && op.block < HEAP_BLOCKS ==>
      forall x :: x in w.role ==> !(op.block <= x < op.block + Reach(w.v.heap, op.block))
  }

  lemma OtherHeap(w: World, op: HeapOp, u: HeapMap, m: Memory)
    requires RolesOk(w) && Foreign(w, op, u, m)
    ensures (forall x :: x in w.role ==> x < HEAP_BLOCKS && u[x] == 0x41) <==> Spares(w, op)
  {
    hide MallocStep, Reach, MarkFree, MarkTaken;
    NotFree();
    match op {
      case Alloc(n, r) =>
        forall x | x in w.role ensures x < HEAP_BLOCKS && u[x] == 0x41 {
          RoleBlock(w, x);
          TakenStays(w.v.heap, n, u, r, x);
        }
      case Release(s) =>
        forall x | x in w.role ensures x < HEAP_BLOCKS && (u[x] == 0x41 <==> !(s <= x < s + Reach(w.v.heap, s))) {
          RoleBlock(w, x);
          MarkFreeAt(w.v.heap, s, x);
        }
    }
  }

  /** An allocation leaves taken blocks alone. */
  lemma TakenStays(t: HeapMap, n: nat, u: HeapMap, r: MallocResult, x: nat)
    requires HeapStep(t, Alloc(n, r), u) && x < HEAP_BLOCKS && t[x] == 0x41
    ensures u[x] == 0x41
  {
    NotFree();
    if r.Block? {
      var b := BlockOf(r.address);
      if n > 0 {
        StartIsFree(t, n, b);
      }
      MarkTakenAt(t, b, n, x);
    }
  }

  /**
   A heap call of somebody else keeps the address spaces intact exactly when what it clears holds
   none of their blocks; the table stays well formed in any case.
   */
  lemma OtherExactly(w: World, op: HeapOp, u: HeapMap, m: Memory)
    requires Sound(w) && Foreign(w, op, u, m)
    ensures Sound(AfterOther(w, u, m)) <==> Spares(w, op)
    ensures Inv(AfterOther(w, u, m)) <==> Spares(w, op)
    ensures WellFormed(u)
  {
    hide KernelOk, DirsOk, FramesOk, PagesOk, Foreign, Spares, WellFormed, HeapStep, Stacked, RolesOk;
    OtherTable(w, op, u, m);
    OtherHeap(w, op, u, m);
    if Spares(w, op) {
      OtherRoles(w, u, m);
      OtherInv(w, op, u, m);
      OtherStacked(w, op, u, m);
    } else if Inv(AfterOther(w, u, m)) {
      forall x | x in w.role ensures x < HEAP_BLOCKS && u[x] == 0x41 {
        RoleBlock(AfterOther(w, u, m), x);
      }
    }
  }

  lemma OtherTable(w: World, op: HeapOp, u: HeapMap, m: Memory)
    requires WellFormed(w.v.heap) && Foreign(w, op, u, m)
    ensures WellFormed(u)
  {
    hide WellFormed, HeapStep;
    StepKeeps(w.v.heap, op, u);
  }

  lemma OtherRoles(w: World, u: HeapMap, m: Memory)
    requires RolesOk(w) && forall x :: x in w.role ==> x < HEAP_BLOCKS && u[x] == 0x41
    ensures RolesOk(AfterOther(w, u, m))
  {
  }

  lemma OtherInv(w: World, op: HeapOp, u: HeapMap, m: Memory)
    requires Inv(w) && Foreign(w, op, u, m) && RolesOk(AfterOther(w, u, m))
    ensures Inv(AfterOther(w, u, m))
  {
    hide KernelOk, RolesOk, DirOk, Translate, HeapStep, PageOk;
    KernelsRole(w);
    RoleBounds(w);
    var e := AfterOther(w, u, m);
    KernelKept(w, e);
    forall p | p in e.live ensures p < e.next && DirOk(e, p, e.live[p]) {
      LiveDir(w, p);
      KeptDir(w, e, p, w.live[p]);
    }
    forall p, q | p in e.live && SHARED_PAGES <= q < PAGES ensures e.live[p] < HEAP_BLOCKS && PageOk(e, p, q) {
      OtherPage(w, op, u, m, p, q);
    }
  }

  lemma OtherPage(w: World, op: HeapOp, u: HeapMap, m: Memory, p: nat, q: nat)
    requires Inv(w) && Foreign(w, op, u, m) && p in w.live && SHARED_PAGES <= q < PAGES
    ensures w.live[p] < HEAP_BLOCKS && Translate(m, w.live[p], q) == Translate(w.v.mem, w.live[p], q)
    ensures PageOk(AfterOther(w, u, m), p, q)
  {
    hide RolesOk, KernelOk, DirsOk, DirOk, FramesOk, Translate, HeapStep;
    KernelsRole(w);
    RoleBounds(w);
    LiveDir(w, p);
    KeptPage(w, AfterOther(w, u, m), p, w.live[p], q);
    assert PageOk(w, p, q);
  }

  lemma OtherStacked(w: World, op: HeapOp, u: HeapMap, m: Memory)
    requires Inv(w) && Stacked(w) && Foreign(w, op, u, m)
    ensures Stacked(AfterOther(w, u, m))
  {
    hide Inv, Foreign, Translate;
    var e := AfterOther(w, u, m);
    forall p | p in e.live ensures e.live[p] < HEAP_BLOCKS && StackMapped(e, p) {
      assert StackMapped(w, p);
      OtherPage(w, op, u, m, p, STACK_PAGE);
      OtherPage(w, op, u, m, p, STACK_PAGE + 1);
    }
  }

  /** A free that does not reach into the next allocation spares them all. */
  lemma HarmlessSpares(w: World, op: HeapOp, u: HeapMap, m: Memory)
    requires Sound(w) && Foreign(w, op, u, m) && Harmless(w.v.heap, op)
    ensures Spares(w, op)
  {
    hide KernelOk, DirsOk, FramesOk, PagesOk, Stacked, WellFormed, RolesOk, Reach, MarkFree, RunLength, MallocStep;
    if op.Release? {
      var s := op.block;
      FreeExactly(w.v.heap, s);
      forall x | x in w.role ensures !(s <= x < s + Reach(w.v.heap, s)) {
        RoleBlock(w, x);
        RoleIsRun(w.v.heap, x);
        MarkFreeAt(w.v.heap, s, x);
        if s < x {
          RunsDisjoint(w.v.heap, s, x);
        }
      }
    }
  }

  lemma RoleIsRun(t: HeapMap, x: nat)
    requires x < HEAP_BLOCKS && t[x] == 0x41
    ensures Live(t, x)
  {
  }

  /**
   Freeing a buffer of several blocks that lies right before the directory of a process frees the
   directory too: read_file does this with the buffer of a file of 4096 bytes or more.
   */
  lemma BufferFreesDirectory(w: World, s: nat, p: nat)
    requires Sound(w) && p in w.live && Live(w.v.heap, s) && s !in w.role
    requires RunLength(w.v.heap, s) > 1 && s + RunLength(w.v.heap, s) == w.live[p]
    ensures var u := MarkFree(w.v.heap, s);
            && Foreign(w, Release(s), u, w.v.mem) && !Inv(AfterOther(w, u, w.v.mem))
            && w.live[p] < HEAP_BLOCKS && !Live(u, w.live[p])
  {
    hide KernelOk, RolesOk, DirsOk, FramesOk, PagesOk, Stacked, WellFormed, Reach, MarkFree, RunLength, IsFree, First;
    NotFree();
    var d := w.live[p];
    LiveBlock(w, p);
    LoneIsLive();
    KernelsRole(w);
    LiveDir(w, p);
    FreeHitsNeighbour(w.v.heap, s);
    var u := MarkFree(w.v.heap, s);
    if Inv(AfterOther(w, u, w.v.mem)) {
      RoleBlock(AfterOther(w, u, w.v.mem), d);
    }
  }

  lemma LoneIsLive()
    ensures !IsFree(0x41) && First(0x41)
  {
  }

  // ---------- runs ----------

  datatype SpaceOp = Open | Close(pid: nat) | Other(op: HeapOp, table: HeapMap, mem: Memory)

  ghost predicate CanDo(w: World, op: SpaceOp) {
    match op
    case Open => true
    case Close(p) => p in w.live
    case Other(h, u, m) => Foreign(w, h, u, m) && Spares(w, h)
  }

  function Do(w: World, op: SpaceOp): (e: World)
    requires Sound(w) && CanDo(w, op)
    ensures Sound(e)
  {
    match op
    case Open =>
      CreateSound(w);
      CreateSpace(w).0
    case Close(p) =>
      ProcSpaceOk(w, p);
      RetireSound(w, p);
      Retire(w, p)
    case Other(h, u, m) =>
      OtherExactly(w, h, u, m);
      AfterOther(w, u, m)
  }

  ghost predicate CanDoAll(w: World, ops: seq<SpaceOp>)
    requires Sound(w)
    decreases |ops|
  {
    ops == [] || (CanDo(w, ops[0]) && CanDoAll(Do(w, ops[0]), ops[1..]))
  }

  function DoAll(w: World, ops: seq<SpaceOp>): (e: World)
    requires Sound(w) && CanDoAll(w, ops)
    ensures Sound(e)
    decreases |ops|
  {
    if ops == [] then w else DoAll(Do(w, ops[0]), ops[1..])
  }

  lemma DoKernel(w: World, op: SpaceOp)
    requires Sound(w) && CanDo(w, op)
    ensures SameKernel(w, Do(w, op))
  {
    hide Inv, Stacked, WellFormed, Retire, CreateSpace, SameKernel, SpaceOk, Foreign, Spares;
    match op {
      case Open => CreateKernel(w);
      case Close(p) =>
        InvFacts(w, p);
        RetireKernel(w, p);
      case Other(h, u, m) => OtherKernel(w, h, u, m);
    }
  }

  lemma OtherKernel(w: World, op: HeapOp, u: HeapMap, m: Memory)
    requires Inv(w) && Foreign(w, op, u, m)
    ensures SameKernel(w, AfterOther(w, u, m))
  {
    hide RolesOk, KernelOk, DirsOk, FramesOk, PagesOk, SameKernel, HeapStep;
    RoleBounds(w);
    KernelByRole(w, AfterOther(w, u, m));
  }

  lemma SameKernelRefl(w: World)
    requires Inv(w)
    ensures SameKernel(w, w)
  {
    hide RolesOk, DirsOk, FramesOk, PagesOk, TableAt;
    KernelsRole(w);
  }

  /**
   Over every run of creating and freeing processes, with heap calls of others that spare the
   address spaces, what `Sound` says holds, and the kernel's directory and tables are never written.
   */
  lemma {:induction false} RunKernel(w: World, ops: seq<SpaceOp>)
    requires Sound(w) && CanDoAll(w, ops)
    ensures Sound(DoAll(w, ops)) && SameKernel(w, DoAll(w, ops))
    decreases |ops|
  {
    hide SameKernel, Inv, WellFormed, Stacked, Do, CanDo;
    SameKernelRefl(w);
    if ops != [] {
      DoKernel(w, ops[0]);
      RunKernel(Do(w, ops[0]), ops[1..]);
      SameKernelTrans(w, Do(w, ops[0]), DoAll(w, ops));
    }
  }

  predicate SameFrame(t: Mapping, u: Mapping) {
    t.Mapped? && u.Mapped? && t.base == u.base
  }

  /**
   Isolation at the end of every run: below 128 MB each live process sees what the kernel saw at
   the start; above it, two mapped pages of live processes never share a frame.
   */
  lemma Isolated(w: World, ops: seq<SpaceOp>, p: nat, q: nat, p': nat, q': nat)
    requires Sound(w) && CanDoAll(w, ops)
    requires var e := DoAll(w, ops); p in e.live && p' in e.live
    requires q < PAGES && SHARED_PAGES <= q' < PAGES
    ensures var e := DoAll(w, ops); var d, d' := e.live[p], e.live[p'];
            && d < HEAP_BLOCKS && d' < HEAP_BLOCKS && w.k < HEAP_BLOCKS
            && (q < SHARED_PAGES ==> Translate(e.v.mem, d, q) == Translate(w.v.mem, w.k, q))
            && (q >= SHARED_PAGES && SameFrame(Translate(e.v.mem, d, q), Translate(e.v.mem, d', q'))
                ==> p == p' && q == q' && !Reserved(Translate(e.v.mem, d, q).base / 4096))
  {
    hide DoAll, CanDoAll, Translate, Reserved, TableAt, Inv, Stacked, WellFormed;
    RunKernel(w, ops);
    var e := DoAll(w, ops);
    LiveBlock(e, p);
    LiveBlock(e, p');
    if q < SHARED_PAGES {
      SharedBelow(e, p, q);
      TranslateFrame(w.v.mem, e.v.mem, w.k, q);
    } else if SameFrame(Translate(e.v.mem, e.live[p], q), Translate(e.v.mem, e.live[p'], q')) {
      PrivateAbove(e, p, q, p', q');
    }
  }

  // ---------- what a run of processes costs ----------

  /** Only creates that succeed and frees. */
  ghost predicate Plain(w: World, ops: seq<SpaceOp>)
    requires Sound(w) && CanDoAll(w, ops)
    decreases |ops|
  {
    ops == [] || ((ops[0].Open? ==> CreateSpace(w).1) && !ops[0].Other? && Plain(Do(w, ops[0]), ops[1..]))
  }

  function Opens(ops: seq<SpaceOp>): nat {
    if ops == [] then 0 else (if ops[0].Open? then 1 else 0) + Opens(ops[1..])
  }

  function Closes(ops: seq<SpaceOp>): nat {
    if ops == [] then 0 else (if ops[0].Close? then 1 else 0) + Closes(ops[1..])
  }

  lemma OpenCosts(w: World)
    requires Sound(w) && CreateSpace(w).1
    ensures var e := CreateSpace(w).0;
            |e.v.used| == |w.v.used| + 2 && |FreeSet(e.v.heap)| + 3 == |FreeSet(w.v.heap)| && |e.live| == |w.live| + 1
  {
    hide Inv, Stacked, CreateSpace, WellFormed, Translate, LowestFree, FreeBlock, FreeSet, StackTable, RecordBlock;
    CreateTakes(w);
    var e := CreateSpace(w).0;
    var f := LowestFree(w.v.used, 0);
    var g := LowestFree(w.v.used + {f}, 0);
    assert f !in w.v.used && g !in w.v.used + {f};
    assert |{f, g}| == 2 && |w.v.used + {f, g}| == |w.v.used| + 2;
    var three := {FreeBlock(w.v.heap, 0), RecordBlock(w), StackTable(e, w.next)};
    assert |three| == 3 && |FreeSet(w.v.heap) - three| == |FreeSet(w.v.heap)| - 3;
    assert w.next !in w.live by { if w.next in w.live { LiveBlock(w, w.next); } }
    assert e.live.Keys == w.live.Keys + {w.next};
  }

  lemma CloseCosts(w: World, p: nat)
    requires Sound(w) && p in w.live && SpaceOk(w.v, w.live[p])
    ensures var e := Retire(w, p);
            |e.v.used| + 1 == |w.v.used| && |FreeSet(e.v.heap)| == |FreeSet(w.v.heap)| + 1 && |e.live| + 1 == |w.live|
  {
    hide Inv, Retire, WellFormed, Translate, FreeSet, SpaceOk;
    RetireGives(w, p);
    assert Retire(w, p).live.Keys == w.live.Keys - {p};
  }

  /**
   Conservation over every run: each process that is created takes two frames and three blocks,
   and each one that is freed gives back one of each.
   */
  lemma {:induction false} RunCosts(w: World, ops: seq<SpaceOp>)
    requires Sound(w) && CanDoAll(w, ops) && Plain(w, ops)
    ensures var e := DoAll(w, ops);
            && |e.v.used| + Closes(ops) == |w.v.used| + 2 * Opens(ops)
            && |FreeSet(e.v.heap)| + 3 * Opens(ops) == |FreeSet(w.v.heap)| + Closes(ops)
            && |e.live| + Closes(ops) == |w.live| + Opens(ops)
    decreases |ops|
  {
    hide Sound, CreateSpace, Retire, SpaceOk, FreeSet;
    if ops != [] {
      match ops[0] {
        case Open => OpenCosts(w);
        case Close(p) =>
          SoundSpace(w, p);
          CloseCosts(w, p);
      }
      RunCosts(Do(w, ops[0]), ops[1..]);
    }
  }

  lemma SoundSpace(w: World, p: nat)
    requires Sound(w) && p in w.live
    ensures SpaceOk(w.v, w.live[p])
  {
    ProcSpaceOk(w, p);
  }

  /** However many processes are freed again, two blocks are gone for each one ever created. */
  lemma CreatesAreBounded(w: World, ops: seq<SpaceOp>)
    requires Sound(w) && CanDoAll(w, ops) && Plain(w, ops) && w.live == map[]
    ensures 2 * Opens(ops) <= |FreeSet(w.v.heap)|
  {
    hide Sound, DoAll, Plain, FreeSet, Opens, Closes;
    RunCosts(w, ops);
  }
}
