/** Ranges of pages: vmm_alloc and free_vmm (src/memory/paging/paging.c) as maps and sets of frames. */
module Vmm {
  import opened Bytes
  import opened FrameMap
  import opened Heap
  import HeapTable
  import opened Paging

  /** `phys | flags`, for an aligned frame address. */
  function FrameEntry(f: nat, flags: nat): (e: uint32)
    requires f < FRAMES && flags < 4096
    ensures Base(e) == f * 4096 && (Present(e) <==> flags % 2 == 1)
  {
    f * 4096 + flags
  }

  /** The page after `p`; addresses wrap around at 4 GB. */
  function NextPage(p: nat): (q: nat)
    requires p < PAGES
    ensures q < PAGES
  {
    (p + 1) % PAGES
  }

  /** The position of page `q` in a range that starts at `p`. */
  function Offset(p: nat, q: nat): (i: nat)
    requires p < PAGES && q < PAGES
    ensures i < PAGES
  {
    if q >= p then q - p else q + PAGES - p
  }

  /** One turn of vmm_alloc with frame `f`: the frame is marked, then mapped if a table can be had. */
  function AllocTurn(v: Vm, d: nat, p: nat, flags: nat): (r: (Vm, bool))
    requires SpaceOk(v, d) && p < PAGES && flags < 4096 && LowestFree(v.used, 0) < FRAMES
  {
    var f := LowestFree(v.used, 0);
    PagingSet(v.(used := v.used + {f}), d, p, FrameEntry(f, flags))
  }

  /** Which blocks a turn can change: the table of the page, or the directory and a block that was free. */
  lemma TurnShape(v: Vm, d: nat, p: nat, flags: nat)
    requires SpaceOk(v, d) && p < PAGES && flags < 4096 && LowestFree(v.used, 0) < FRAMES
    ensures var w, ok := AllocTurn(v, d, p, flags).0, AllocTurn(v, d, p, flags).1;
            var page, i, b := v.mem[d], DirIndex(p), FreeBlock(v.heap, 0);
            && w.used == v.used + {LowestFree(v.used, 0)}
            && (Present(page[i]) ==> ok && w.heap == v.heap && TableAt(page, i) >= 0 && TableAt(page, i) != d
                                     && SameExcept(v.mem, w.mem, TableAt(page, i), d))
            && (!Present(page[i]) && ok ==> b < HEAP_BLOCKS && b != d && w.heap == v.heap[b := 0x41]
                                            && w.mem[d] == page[i := EntryFor(b, TABLE_FLAGS)]
                                            && SameExcept(v.mem, w.mem, d, b))
            && (Present(page[i]) ==> w.mem[d] == page)
            && (!ok ==> w.heap == v.heap && w.mem == v.mem)
  {
    var f := LowestFree(v.used, 0);
    SpaceFacts(v, d, DirIndex(p));
    if !Present(v.mem[d][DirIndex(p)]) && AllocTurn(v, d, p, flags).1 {
      SetLazily(v.(used := v.used + {f}), d, p, FrameEntry(f, flags));
    }
  }

  predicate SameExcept(m: Memory, n: Memory, a: int, b: int) {
    forall x :: 0 <= x < HEAP_BLOCKS && x != a && x != b ==> n[x] == m[x]
  }

  lemma SpaceFacts(v: Vm, d: nat, i: nat)
    requires SpaceOk(v, d) && i < 1024
    ensures d < HEAP_BLOCKS && TableAt(v.mem[d], i) != d && (Present(v.mem[d][i]) ==> TableAt(v.mem[d], i) >= 0)
  {
  }

  lemma TurnKeeps(v: Vm, d: nat, p: nat, flags: nat)
    requires SpaceOk(v, d) && p < PAGES && flags < 4096 && LowestFree(v.used, 0) < FRAMES
    ensures SpaceOk(AllocTurn(v, d, p, flags).0, d)
  {
    var f := LowestFree(v.used, 0);
    SetKeeps(v.(used := v.used + {f}), d, p, FrameEntry(f, flags));
  }

  /** What the entry of a turn makes of its page: flags without PRESENT leave it unmapped. */
  function Entry(f: nat, flags: nat, through: uint32): Mapping {
    if flags % 2 == 1 then Mapped(f * 4096, flags, through % 4096) else Unmapped
  }

  /** A turn maps its page exactly when there is a table for it afterwards; no other page changes. */
  lemma TurnRefines(v: Vm, d: nat, p: nat, flags: nat, q: nat)
    requires SpaceOk(v, d) && p < PAGES && q < PAGES && flags < 4096 && LowestFree(v.used, 0) < FRAMES
    ensures var w, f := AllocTurn(v, d, p, flags).0, LowestFree(v.used, 0);
            && d < HEAP_BLOCKS && w.used == v.used + {f}
            && Translate(w.mem, d, q) ==
               if q == p && Present(w.mem[d][DirIndex(q)]) then Entry(f, flags, w.mem[d][DirIndex(q)]) else Translate(v.mem, d, q)
  {
    hide Translate, SpaceOk, PagingSet, FrameEntry, LowestFree;
    var f := LowestFree(v.used, 0);
    TurnTables(v, d, p, flags);
    TurnShape(v, d, p, flags);
    if AllocTurn(v, d, p, flags).1 {
      UsedApart(v, d, v.used + {f});
      SetRefines(v.(used := v.used + {f}), d, p, FrameEntry(f, flags), q);
      FrameEntryIs(f, flags);
    }
  }

  lemma UsedApart(v: Vm, d: nat, used: set<nat>)
    requires SpaceOk(v, d)
    ensures SpaceOk(v.(used := used), d)
  {
  }

  lemma FrameEntryIs(f: nat, flags: nat)
    requires f < FRAMES && flags < 4096
    ensures var e := FrameEntry(f, flags);
            e - e % 4096 == f * 4096 && e % 4096 == flags && e % 2 == flags % 2
  {
  }

  /** A turn finds a table in place, or takes the lowest free block for one, or does without. */
  lemma TurnTables(v: Vm, d: nat, p: nat, flags: nat)
    requires SpaceOk(v, d) && p < PAGES && flags < 4096 && LowestFree(v.used, 0) < FRAMES
    ensures var w, ok := AllocTurn(v, d, p, flags).0, AllocTurn(v, d, p, flags).1;
            var i, b := DirIndex(p), FreeBlock(v.heap, 0);
            && d < HEAP_BLOCKS && (ok <==> Present(w.mem[d][i])) && (ok <==> Present(v.mem[d][i]) || b < HEAP_BLOCKS)
            && (forall j :: 0 <= j < PER_TABLE && j != i ==> w.mem[d][j] == v.mem[d][j])
            && (if Present(v.mem[d][i]) || b == HEAP_BLOCKS then w.mem[d] == v.mem[d] && w.heap == v.heap
                else w.heap == v.heap[b := 0x41] && w.mem[d][i] % 4096 == TABLE_FLAGS)
  {
    hide FreeBlock, LowestFree, SpaceOk, SameExcept, TableAt, FrameEntry;
    SpaceFacts(v, d, DirIndex(p));
    TurnShape(v, d, p, flags);
    if FreeBlock(v.heap, 0) < HEAP_BLOCKS {
      EntryFlags(FreeBlock(v.heap, 0), TABLE_FLAGS);
    }
  }

  /** vmm_alloc over `n` pages. False means the frames ran out, after which earlier pages stay mapped. */
  function VmmAlloc(v: Vm, d: nat, p: nat, n: nat, flags: nat): (r: (Vm, bool))
    requires SpaceOk(v, d) && p < PAGES && flags < 4096
    decreases n
  {
    if n == 0 then (v, true)
    else if LowestFree(v.used, 0) == FRAMES then (v, false)
    else
      TurnKeeps(v, d, p, flags);
      VmmAlloc(AllocTurn(v, d, p, flags).0, d, NextPage(p), n - 1, flags)
  }

  /** The frames handed out one after the other, lowest first. */
  function FramesFor(used: set<nat>, n: nat): seq<nat>
    decreases n
  {
    if n == 0 || LowestFree(used, 0) == FRAMES then []
    else [LowestFree(used, 0)] + FramesFor(used + {LowestFree(used, 0)}, n - 1)
  }

  function SetOf(fs: seq<nat>): set<nat> {
    set f | f in fs
  }

  /** They were free, and no two are the same. */
  lemma {:induction false} FramesForFresh(used: set<nat>, n: nat)
    ensures forall i :: 0 <= i < |FramesFor(used, n)| ==> FramesFor(used, n)[i] < FRAMES && FramesFor(used, n)[i] !in used
    ensures forall i, j :: 0 <= i < j < |FramesFor(used, n)| ==> FramesFor(used, n)[i] != FramesFor(used, n)[j]
    decreases n
  {
    hide LowestFree;
    if n > 0 && LowestFree(used, 0) != FRAMES {
      var f := LowestFree(used, 0);
      var rest := FramesFor(used + {f}, n - 1);
      FramesForFresh(used + {f}, n - 1);
      assert FramesFor(used, n) == [f] + rest;
      forall i | 0 <= i < |rest| ensures rest[i] < FRAMES && rest[i] !in used && rest[i] != f {
        assert rest[i] !in used + {f};
      }
    }
  }

  /** One turn of free_vmm: a mapped page gives its frame back and its entry is cleared. */
  function FreeTurn(v: Vm, d: nat, p: nat): Vm
    requires SpaceOk(v, d) && p < PAGES
  {
    var entry := v.mem[d][DirIndex(p)];
    if !Present(entry) then v
    else
      var e := v.mem[TableOf(entry)][TableIndex(p)];
      if !Present(e) then v
      else v.(mem := SetEntry(v.mem, TableOf(entry), TableIndex(p), 0), used := v.used - {Base(e) / 4096})
  }

  /** Clearing an entry is a paging_set of 0 whose table exists. */
  lemma FreeTurnFacts(v: Vm, d: nat, p: nat)
    requires SpaceOk(v, d) && p < PAGES
    ensures var w := FreeTurn(v, d, p);
            && SpaceOk(w, d) && w.heap == v.heap
            && w.used == (match Translate(v.mem, d, p) case Mapped(b, _, _) => v.used - {b / 4096} case Unmapped => v.used)
            && forall q :: 0 <= q < PAGES ==> Translate(w.mem, d, q) == if q == p then Unmapped else Translate(v.mem, d, q)
  {
    var entry := v.mem[d][DirIndex(p)];
    if Present(entry) && Present(v.mem[TableOf(entry)][TableIndex(p)]) {
      SetKeeps(v, d, p, 0);
      forall q | 0 <= q < PAGES {
        SetRefines(v, d, p, 0, q);
      }
      assert FreeTurn(v, d, p).mem == PagingSet(v, d, p, 0).0.mem;
    }
  }

  /** free_vmm over `n` pages. */
  function FreeVmm(v: Vm, d: nat, p: nat, n: nat): Vm
    requires SpaceOk(v, d) && p < PAGES
    decreases n
  {
    if n == 0 then v
    else
      FreeTurnFacts(v, d, p);
      FreeVmm(FreeTurn(v, d, p), d, NextPage(p), n - 1)
  }

  /** With no free block left, vmm_alloc changes neither the directory nor the heap. */
  lemma {:induction false} FullHeap(v: Vm, d: nat, p: nat, n: nat, flags: nat)
    requires SpaceOk(v, d) && p < PAGES && flags < 4096 && FreeBlock(v.heap, 0) == HEAP_BLOCKS
    ensures var w := VmmAlloc(v, d, p, n, flags).0;
            d < HEAP_BLOCKS && w.mem[d] == v.mem[d] && w.heap == v.heap
    decreases n
  {
    hide AllocTurn, SpaceOk, LowestFree, FreeBlock;
    SpaceFacts(v, d, 0);
    if n > 0 && LowestFree(v.used, 0) != FRAMES {
      TurnKeeps(v, d, p, flags);
      TurnTables(v, d, p, flags);
      FullHeap(AllocTurn(v, d, p, flags).0, d, NextPage(p), n - 1, flags);
    }
  }

  /** A table that is there stays, with its flags. */
  lemma {:induction false} TablesStay(v: Vm, d: nat, p: nat, n: nat, flags: nat, j: nat)
    requires d < HEAP_BLOCKS && SpaceOk(v, d) && p < PAGES && flags < 4096 && j < PER_TABLE && Present(v.mem[d][j])
    ensures VmmAlloc(v, d, p, n, flags).0.mem[d][j] == v.mem[d][j]
    decreases n
  {
    hide AllocTurn, SpaceOk, LowestFree, FreeBlock;
    if n > 0 && LowestFree(v.used, 0) != FRAMES {
      TurnKeeps(v, d, p, flags);
      TurnTables(v, d, p, flags);
      TablesStay(AllocTurn(v, d, p, flags).0, d, NextPage(p), n - 1, flags, j);
    }
  }

  /** A table vmm_alloc had to find is present, writable and for all. */
  lemma {:induction false} NewTables(v: Vm, d: nat, p: nat, n: nat, flags: nat, j: nat)
    requires d < HEAP_BLOCKS && SpaceOk(v, d) && p < PAGES && flags < 4096 && j < PER_TABLE && !Present(v.mem[d][j])
    ensures var e := VmmAlloc(v, d, p, n, flags).0.mem[d][j];
            Present(e) ==> e % 4096 == PRESENT + WRITABLE + FOR_ALL
    decreases n
  {
    hide AllocTurn, SpaceOk, LowestFree, FreeBlock;
    if n > 0 && LowestFree(v.used, 0) != FRAMES {
      TurnKeeps(v, d, p, flags);
      TurnTables(v, d, p, flags);
      var t := AllocTurn(v, d, p, flags).0;
      if Present(t.mem[d][j]) {
        TablesStay(t, d, NextPage(p), n - 1, flags, j);
      } else {
        NewTables(t, d, NextPage(p), n - 1, flags, j);
      }
    }
  }

  /** The table of the first page is there at the end exactly when the first turn found it. */
  lemma FirstTable(v: Vm, d: nat, p: nat, n: nat, flags: nat)
    requires d < HEAP_BLOCKS && SpaceOk(v, d) && p < PAGES && flags < 4096 && n > 0 && LowestFree(v.used, 0) != FRAMES
    ensures var t, i := AllocTurn(v, d, p, flags).0, DirIndex(p);
            && (Present(VmmAlloc(v, d, p, n, flags).0.mem[d][i]) <==> Present(t.mem[d][i]))
            && VmmAlloc(v, d, p, n, flags).0.mem[d][i] == t.mem[d][i]
  {
    hide AllocTurn, SpaceOk, LowestFree, FreeBlock;
    var t := AllocTurn(v, d, p, flags).0;
    TurnKeeps(v, d, p, flags);
    TurnTables(v, d, p, flags);
    if Present(t.mem[d][DirIndex(p)]) {
      TablesStay(t, d, NextPage(p), n - 1, flags, DirIndex(p));
    } else {
      FullHeap(t, d, NextPage(p), n - 1, flags);
    }
  }

  /**
   vmm_alloc takes the lowest free frames in order until it has enough or none is left, and marks
   exactly those. The pages they were taken for are mapped to them with the caller's flags, page by
   page and across table boundaries, except where no table could be had; no other page changes.
   */
  lemma {:induction false} AllocMaps(v: Vm, d: nat, p: nat, n: nat, flags: nat, q: nat)
    requires d < HEAP_BLOCKS && SpaceOk(v, d) && p < PAGES && flags < 4096 && n <= PAGES && q < PAGES
    ensures var w, fs := VmmAlloc(v, d, p, n, flags).0, FramesFor(v.used, n);
            && SpaceOk(w, d) && (VmmAlloc(v, d, p, n, flags).1 <==> |fs| == n) && |fs| <= n
            && w.used == v.used + SetOf(fs)
            && Translate(w.mem, d, q) ==
               if !(Offset(p, q) < |fs| && Present(w.mem[d][DirIndex(q)])) then Translate(v.mem, d, q)
               else if flags % 2 == 0 then Unmapped
               else Mapped(fs[Offset(p, q)] * 4096, flags, w.mem[d][DirIndex(q)] % 4096)
    decreases n
  {
    hide Translate, AllocTurn, SpaceOk, LowestFree, Offset, SetOf, DirIndex, Present;
    OffsetStep(p, q);
    NoFrames();
    if n > 0 && LowestFree(v.used, 0) != FRAMES {
      var f := LowestFree(v.used, 0);
      TurnKeeps(v, d, p, flags);
      TurnRefines(v, d, p, flags, q);
      FirstTable(v, d, p, n, flags);
      AllocMaps(AllocTurn(v, d, p, flags).0, d, NextPage(p), n - 1, flags, q);
      SetOfCons(f, FramesFor(v.used + {f}, n - 1));
    }
  }

  lemma NoFrames()
    ensures SetOf([]) == {}
  {
  }

  /** Moving a range one page on. */
  lemma OffsetStep(p: nat, q: nat)
    requires p < PAGES && q < PAGES
    ensures if q == p then Offset(p, q) == 0 && Offset(NextPage(p), q) == PAGES - 1 else Offset(p, q) == Offset(NextPage(p), q) + 1
  {
  }

  lemma SetOfCons(f: nat, fs: seq<nat>)
    ensures SetOf([f] + fs) == {f} + SetOf(fs)
  {
  }

  /** The frames behind a range of pages. */
  ghost function MappedFrames(m: Memory, d: nat, p: nat, n: nat): set<nat>
    requires d < HEAP_BLOCKS && p < PAGES
  {
    set q: nat | q < PAGES && Offset(p, q) < n && Translate(m, d, q).Mapped? :: Translate(m, d, q).base / 4096
  }

  /** free_vmm gives back exactly the frames behind its range and unmaps exactly the range. */
  lemma {:induction false} FreeUnmaps(v: Vm, d: nat, p: nat, n: nat, q: nat)
    requires d < HEAP_BLOCKS && SpaceOk(v, d) && p < PAGES && q < PAGES && n <= PAGES
    ensures var w := FreeVmm(v, d, p, n);
            && w.used == v.used - MappedFrames(v.mem, d, p, n)
            && Translate(w.mem, d, q) == if Offset(p, q) < n then Unmapped else Translate(v.mem, d, q)
    decreases n
  {
    hide Translate, SpaceOk, FreeTurn, Offset;
    OffsetStep(p, q);
    if n > 0 {
      var w := FreeTurn(v, d, p);
      FreeTurnFacts(v, d, p);
      FreeUnmaps(w, d, NextPage(p), n - 1, q);
      MappedStep(v, w, d, p, n);
    }
  }

  lemma MappedStep(v: Vm, w: Vm, d: nat, p: nat, n: nat)
    requires d < HEAP_BLOCKS && p < PAGES && 0 < n <= PAGES
    requires forall q :: 0 <= q < PAGES ==> Translate(w.mem, d, q) == if q == p then Unmapped else Translate(v.mem, d, q)
    ensures MappedFrames(v.mem, d, p, n) ==
            MappedFrames(w.mem, d, NextPage(p), n - 1) + (match Translate(v.mem, d, p) case Mapped(b, _, _) => {b / 4096} case Unmapped => {})
  {
    hide Translate, Offset;
    forall q: nat | q < PAGES
      ensures Offset(p, q) < n <==> q == p || Offset(NextPage(p), q) < n - 1
      ensures q == p ==> Offset(NextPage(p), q) >= n - 1 {
      OffsetStep(p, q);
    }
  }

  // ---------- when vmm_alloc and free_vmm undo each other ----------

  /** The pages of a range all have a table. */
  ghost predicate TablesReady(page: Page, p: nat, k: nat)
    requires p < PAGES
  {
    forall q :: 0 <= q < PAGES && Offset(p, q) < k ==> Present(page[DirIndex(q)])
  }

  /** A page of the range belongs to directory entry `j`. */
  ghost predicate Meets(p: nat, k: nat, j: nat)
    requires p < PAGES
  {
    exists q :: 0 <= q < PAGES && Offset(p, q) < k && DirIndex(q) == j
  }

  /** The directory entries of a range that have no table yet. */
  ghost function Missing(page: Page, p: nat, k: nat): set<nat>
    requires p < PAGES
  {
    set j | 0 <= j < PER_TABLE && Meets(p, k, j) && !Present(page[j])
  }

  lemma MeetsStep(p: nat, k: nat, j: nat)
    requires p < PAGES && 0 < k <= PAGES
    ensures Meets(p, k, j) <==> j == DirIndex(p) || Meets(NextPage(p), k - 1, j)
  {
    hide DirIndex, Offset;
    forall q: nat | q < PAGES
      ensures Offset(p, q) < k <==> q == p || Offset(NextPage(p), q) < k - 1 {
      OffsetStep(p, q);
      OffsetStep(p, p);
    }
    OffsetStep(p, p);
    if j == DirIndex(p) {
      assert Offset(p, p) < k;
    } else if Meets(p, k, j) {
      var q :| 0 <= q < PAGES && Offset(p, q) < k && DirIndex(q) == j;
      assert Offset(NextPage(p), q) < k - 1;
    }
  }

  lemma ReadyStep(page: Page, p: nat, k: nat)
    requires p < PAGES && 0 < k <= PAGES
    ensures TablesReady(page, p, k) <==> Present(page[DirIndex(p)]) && TablesReady(page, NextPage(p), k - 1)
  {
    hide DirIndex, Offset, Present;
    forall q: nat | q < PAGES
      ensures Offset(p, q) < k <==> q == p || Offset(NextPage(p), q) < k - 1 {
      OffsetStep(p, q);
    }
    OffsetStep(p, p);
  }

  /**
   Every turn that gets a frame also gets its page a table exactly when the directory entries
   that are missing in the range are no more than the heap's free blocks.
   */
  lemma {:induction false} TablesFound(v: Vm, d: nat, p: nat, n: nat, flags: nat)
    requires d < HEAP_BLOCKS && SpaceOk(v, d) && p < PAGES && flags < 4096 && n <= PAGES
    ensures var k := |FramesFor(v.used, n)|;
            TablesReady(VmmAlloc(v, d, p, n, flags).0.mem[d], p, k) <==> |Missing(v.mem[d], p, k)| <= |FreeSet(v.heap)|
    decreases n
  {
    hide AllocTurn, SpaceOk, LowestFree, FreeBlock, FreeSet, TablesReady, Missing, Present, DirIndex;
    var k := |FramesFor(v.used, n)|;
    if n == 0 || LowestFree(v.used, 0) == FRAMES {
      NothingMissing(v.mem[d], VmmAlloc(v, d, p, n, flags).0.mem[d], p);
    } else {
      var f, t := LowestFree(v.used, 0), AllocTurn(v, d, p, flags).0;
      FramesForLength(v.used, n);
      TurnKeeps(v, d, p, flags);
      TurnRefines(v, d, p, flags, p);
      TurnTables(v, d, p, flags);
      FirstTable(v, d, p, n, flags);
      TablesFound(t, d, NextPage(p), n - 1, flags);
      ReadyStep(VmmAlloc(v, d, p, n, flags).0.mem[d], p, k);
      TakeOne(v.heap);
      MissingStep(v.mem[d], t.mem[d], p, k);
    }
  }

  lemma NothingMissing(page: Page, after: Page, p: nat)
    requires p < PAGES
    ensures Missing(page, p, 0) == {} && TablesReady(after, p, 0)
  {
  }

  /** What one turn does to the missing entries. */
  lemma MissingStep(page: Page, after: Page, p: nat, k: nat)
    requires p < PAGES && 0 < k <= PAGES
    requires forall j :: 0 <= j < PER_TABLE && j != DirIndex(p) ==> after[j] == page[j]
    requires Present(page[DirIndex(p)]) ==> after == page
    ensures Present(after[DirIndex(p)]) ==> Missing(after, NextPage(p), k - 1) == Missing(page, p, k) - {DirIndex(p)}
    ensures DirIndex(p) in Missing(page, p, k) <==> !Present(page[DirIndex(p)])
  {
    hide Present, DirIndex, Meets;
    forall j: nat {
      MeetsStep(p, k, j);
    }
  }

  /** The frames of the lowest turns, until none is left. */
  lemma {:induction false} FramesForLength(used: set<nat>, n: nat)
    ensures var free := FreeFrames(used);
            |FramesFor(used, n)| == if n <= |free| then n else |free|
    decreases n
  {
    hide LowestFree, FreeFrames;
    LowestOf(used);
    if n > 0 && LowestFree(used, 0) != FRAMES {
      FramesForLength(used + {LowestFree(used, 0)}, n - 1);
    }
  }

  function FreeFrames(used: set<nat>): set<nat> {
    set f: nat | f < FRAMES && f !in used
  }

  lemma LowestOf(used: set<nat>)
    ensures LowestFree(used, 0) == FRAMES <==> FreeFrames(used) == {}
    ensures var f := LowestFree(used, 0);
            f < FRAMES ==> f in FreeFrames(used) && FreeFrames(used + {f}) == FreeFrames(used) - {f}
  {
    var f := LowestFree(used, 0);
    if f == FRAMES {
      forall g: nat | g < FRAMES ensures g in used {
        BelowLowest(used, 0, g);
      }
    } else {
      assert f in FreeFrames(used);
    }
  }

  lemma {:induction false} BelowLowest(used: set<nat>, from: nat, g: nat)
    requires from <= g && from <= FRAMES && g < LowestFree(used, from)
    ensures g in used
    decreases FRAMES - from
  {
    if from < g {
      BelowLowest(used, from + 1, g);
    }
  }

  /** The page at a position of a range. */
  function PageOf(p: nat, i: nat): (q: nat)
    requires p < PAGES && i < PAGES
    ensures q < PAGES && Offset(p, q) == i
  {
    (p + i) % PAGES
  }

  /**
   vmm_alloc followed by free_vmm over a range that was unmapped leaves every page as it was. The
   set of marked frames is restored exactly when no frame was taken, or the flags include PRESENT
   and the tables missing for the pages that got a frame are no more than the heap's free blocks.
   Otherwise vmm_alloc still reports success, and the frames it could not map stay marked.
   */
  lemma AllocThenFree(v: Vm, d: nat, p: nat, n: nat, flags: nat)
    requires d < HEAP_BLOCKS && SpaceOk(v, d) && p < PAGES && flags < 4096 && n <= PAGES
    requires forall q :: 0 <= q < PAGES && Offset(p, q) < n ==> Translate(v.mem, d, q) == Unmapped
    ensures var w, k := VmmAlloc(v, d, p, n, flags).0, |FramesFor(v.used, n)|;
            && SpaceOk(w, d)
            && (FreeVmm(w, d, p, n).used == v.used <==>
                k == 0 || (flags % 2 == 1 && |Missing(v.mem[d], p, k)| <= |FreeSet(v.heap)|))
            && forall q :: 0 <= q < PAGES ==> Translate(FreeVmm(w, d, p, n).mem, d, q) == Translate(v.mem, d, q)
  {
    hide Translate, SpaceOk, VmmAlloc, FreeVmm, FramesFor, Missing, FreeSet, MappedFrames, SetOf, TablesReady, Present, DirIndex, Offset;
    var w, fs := VmmAlloc(v, d, p, n, flags).0, FramesFor(v.used, n);
    AllocMaps(v, d, p, n, flags, p);
    TablesFound(v, d, p, n, flags);
    FreeUnmaps(w, d, p, n, p);
    forall q | 0 <= q < PAGES ensures Translate(FreeVmm(w, d, p, n).mem, d, q) == Translate(v.mem, d, q) {
      AllocMaps(v, d, p, n, flags, q);
      FreeUnmaps(w, d, p, n, q);
    }
    if fs == [] || (flags % 2 == 1 && TablesReady(w.mem[d], p, |fs|)) {
      AllFreed(v, d, p, n, flags);
    } else {
      OneStays(v, d, p, n, flags);
    }
  }

  lemma InSetOf(fs: seq<nat>, f: nat)
    ensures f in SetOf(fs) <==> exists i :: 0 <= i < |fs| && fs[i] == f
  {
  }

  lemma InMapped(m: Memory, d: nat, p: nat, n: nat, f: nat)
    requires d < HEAP_BLOCKS && p < PAGES
    ensures f in MappedFrames(m, d, p, n) <==>
            exists q :: 0 <= q < PAGES && Offset(p, q) < n && Translate(m, d, q).Mapped? && Translate(m, d, q).base / 4096 == f
  {
    hide Translate, Offset;
  }

  /** All frames taken are given back. */
  lemma AllFreed(v: Vm, d: nat, p: nat, n: nat, flags: nat)
    requires d < HEAP_BLOCKS && SpaceOk(v, d) && p < PAGES && flags < 4096 && n <= PAGES
    requires forall q :: 0 <= q < PAGES && Offset(p, q) < n ==> Translate(v.mem, d, q) == Unmapped
    requires FramesFor(v.used, n) == [] ||
             (flags % 2 == 1 && TablesReady(VmmAlloc(v, d, p, n, flags).0.mem[d], p, |FramesFor(v.used, n)|))
    ensures var w := VmmAlloc(v, d, p, n, flags).0;
            w.used - MappedFrames(w.mem, d, p, n) == v.used
  {
    hide Translate, SpaceOk, VmmAlloc, FramesFor, MappedFrames, SetOf, Present, DirIndex, Offset;
    var w, fs := VmmAlloc(v, d, p, n, flags).0, FramesFor(v.used, n);
    FramesForFresh(v.used, n);
    AllocMaps(v, d, p, n, flags, p);
    forall f: nat ensures f in MappedFrames(w.mem, d, p, n) <==> f in SetOf(fs) {
      InSetOf(fs, f);
      InMapped(w.mem, d, p, n, f);
      forall q | 0 <= q < PAGES {
        AllocMaps(v, d, p, n, flags, q);
      }
      if f in SetOf(fs) {
        var i :| 0 <= i < |fs| && fs[i] == f;
        var q := PageOf(p, i);
        assert Offset(p, q) == i;
      }
    }
    forall f: nat ensures f in SetOf(fs) ==> f !in v.used {
      InSetOf(fs, f);
    }
  }

  /** A frame taken for a page that could not be mapped stays marked. */
  lemma OneStays(v: Vm, d: nat, p: nat, n: nat, flags: nat)
    requires d < HEAP_BLOCKS && SpaceOk(v, d) && p < PAGES && flags < 4096 && n <= PAGES
    requires forall q :: 0 <= q < PAGES && Offset(p, q) < n ==> Translate(v.mem, d, q) == Unmapped
    requires FramesFor(v.used, n) != []
    requires flags % 2 == 0 || !TablesReady(VmmAlloc(v, d, p, n, flags).0.mem[d], p, |FramesFor(v.used, n)|)
    ensures var w := VmmAlloc(v, d, p, n, flags).0;
            w.used - MappedFrames(w.mem, d, p, n) != v.used
  {
    hide Translate, SpaceOk, VmmAlloc, FramesFor, MappedFrames, SetOf, Present, DirIndex, Offset;
    var w, fs := VmmAlloc(v, d, p, n, flags).0, FramesFor(v.used, n);
    FramesForFresh(v.used, n);
    var x: nat := p;
    if flags % 2 == 0 {
      x := PageOf(p, 0);
    } else {
      x :| 0 <= x < PAGES && Offset(p, x) < |fs| && !Present(w.mem[d][DirIndex(x)]);
    }
    var f := fs[Offset(p, x)];
    AllocMaps(v, d, p, n, flags, p);
    InSetOf(fs, f);
    InMapped(w.mem, d, p, n, f);
    forall q | 0 <= q < PAGES && Offset(p, q) < n && Translate(w.mem, d, q).Mapped?
      ensures Translate(w.mem, d, q).base / 4096 != f {
      AllocMaps(v, d, p, n, flags, q);
      if Offset(p, q) == Offset(p, x) {
        SamePlace(p, q, x);
      }
    }
    assert f in w.used && f !in v.used;
  }

  lemma SamePlace(p: nat, q: nat, x: nat)
    requires p < PAGES && q < PAGES && x < PAGES && Offset(p, q) == Offset(p, x)
    ensures q == x
  {
  }

  /** With the heap full and no table for the page, vmm_alloc reports success and its frame is lost. */
  lemma FrameLost(v: Vm, d: nat, p: nat, flags: nat)
    requires d < HEAP_BLOCKS && SpaceOk(v, d) && p < PAGES && flags < 4096 && LowestFree(v.used, 0) < FRAMES
    requires FreeSet(v.heap) == {} && !Present(v.mem[d][DirIndex(p)])
    ensures var w := VmmAlloc(v, d, p, 1, flags);
            && w.1 && SpaceOk(w.0, d)
            && LowestFree(v.used, 0) !in v.used && FreeVmm(w.0, d, p, 1).used == v.used + {LowestFree(v.used, 0)}
  {
    hide AllocTurn, SpaceOk, LowestFree, FreeBlock, FreeSet, FreeTurn;
    TakeOne(v.heap);
    var t := AllocTurn(v, d, p, flags).0;
    TurnKeeps(v, d, p, flags);
    TurnTables(v, d, p, flags);
    TurnRefines(v, d, p, flags, p);
    assert VmmAlloc(v, d, p, 1, flags) == VmmAlloc(t, d, NextPage(p), 0, flags) == (t, true);
    FreeTurnFacts(t, d, p);
    assert FreeVmm(t, d, p, 1) == FreeVmm(FreeTurn(t, d, p), d, NextPage(p), 0) == FreeTurn(t, d, p);
  }

  function FullVm(): Vm {
    Vm(BlankMemory(), seq(HEAP_BLOCKS, _ => 0x41), {})
  }

  lemma FullVmOk()
    ensures SpaceOk(FullVm(), 0) && FreeSet(FullVm().heap) == {} && FullVm().used == {}
    ensures forall i :: 0 <= i < PER_TABLE ==> !Present(FullVm().mem[0][i])
  {
    NotFree();
    hide HeapTable.IsFree;
    assert BlankMemory()[0] == ZeroPage();
  }

  /** For instance with a directory in block 0, every block taken and every frame free. */
  lemma LeakExample()
    ensures var v := FullVm();
            && SpaceOk(v, 0) && VmmAlloc(v, 0, 65536, 1, 3).1 && SpaceOk(VmmAlloc(v, 0, 65536, 1, 3).0, 0)
            && v.used == {} && FreeVmm(VmmAlloc(v, 0, 65536, 1, 3).0, 0, 65536, 1).used == {0}
  {
    hide FullVm, VmmAlloc, FreeVmm, SpaceOk, FreeSet;
    FullVmOk();
    var v := FullVm();
    assert LowestFree(v.used, 0) == 0 by { LowestIs({}, 0, 0); }
    FrameLost(v, 0, 65536, 3);
  }
}
