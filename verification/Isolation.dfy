/**
 Address spaces over every run of process creation and freeing: the memory side of create_process
 and free_proc (src/process/process.c) over src/memory/paging/paging.c.
 */
module Isolation {
  import opened Bytes
  import opened HeapTable
  import opened FrameMap
  import opened Heap
  import opened Paging
  import opened Vmm

  const SHARED := 32            // KERNEL_SHARED_PD_ENTRIES
  const SHARED_PAGES := 32768   // 128 MB
  const STACK_PAGE := 65536     // PROC_STACK_VIRT / 4096
  const STACK_FLAGS := PRESENT + WRITABLE

  /** What an allocated heap block is used for. */
  datatype Role = KernelDir | KernelTable(i: nat) | ProcDir(pid: nat) | ProcTable(pid: nat, i: nat) | Record

  /**
   The machine with its books: the kernel directory's block, the directory of each live process,
   the role of each block given out here, and for each frame given out, the process and page it is for.
   */
  datatype World = World(v: Vm, k: nat, live: map<nat, nat>, next: nat,
                         role: map<nat, Role>, frame: map<nat, (nat, nat)>)

  // ---------- the invariant ----------

  predicate HasRole(w: World, b: nat, r: Role) {
    b < HEAP_BLOCKS && b in w.role && w.role[b] == r
  }

  /** Every block with a role is a one-block allocation; process numbers are below `next`. */
  ghost predicate RolesOk(w: World) {
    forall b :: b in w.role ==>
      && b < HEAP_BLOCKS && w.v.heap[b] == 0x41
      && (w.role[b].ProcDir? || w.role[b].ProcTable? ==> w.role[b].pid < w.next)
  }

  ghost predicate KernelOk(w: World) {
    && HasRole(w, w.k, KernelDir)
    && forall i :: 0 <= i < PER_TABLE ==> TableAt(w.v.mem[w.k], i) >= 0 && HasRole(w, TableAt(w.v.mem[w.k], i), KernelTable(i))
  }

  /** A process directory: the kernel's first 32 entries, then tables of its own. */
  ghost predicate DirOk(w: World, p: nat, d: nat)
    requires w.k < HEAP_BLOCKS
  {
    && HasRole(w, d, ProcDir(p))
    && (forall i :: 0 <= i < SHARED ==> w.v.mem[d][i] == w.v.mem[w.k][i])
    && forall i :: SHARED <= i < PER_TABLE && Present(w.v.mem[d][i]) ==>
         PointsIn(w.v.mem[d][i]) && HasRole(w, TableOf(w.v.mem[d][i]), ProcTable(p, i))
  }

  ghost predicate DirsOk(w: World)
    requires w.k < HEAP_BLOCKS
  {
    forall p :: p in w.live ==> p < w.next && DirOk(w, p, w.live[p])
  }

  /** Frames given out are marked and never reserved ones, which are all marked too. */
  ghost predicate FramesOk(w: World) {
    && (forall f: nat :: Reserved(f) ==> f in w.v.used)
    && forall f :: f in w.frame ==> f in w.v.used && !Reserved(f)
  }

  /** A private page of a live process is mapped to a frame given out for that process and page. */
  ghost predicate PagesOk(w: World)
    requires w.k < HEAP_BLOCKS && DirsOk(w)
  {
    forall p, q :: p in w.live && SHARED_PAGES <= q < PAGES ==> PageOk(w, p, q)
  }

  ghost predicate PageOk(w: World, p: nat, q: nat)
    requires p in w.live && w.live[p] < HEAP_BLOCKS && q < PAGES
  {
    match Translate(w.v.mem, w.live[p], q)
    case Unmapped => true
    case Mapped(b, _, _) => b / 4096 in w.frame && w.frame[b / 4096] == (p, q)
  }

  ghost predicate Inv(w: World) {
    RolesOk(w) && KernelOk(w) && DirsOk(w) && FramesOk(w) && PagesOk(w)
  }

  // ---------- what the invariant means ----------

  /** Below 128 MB every live process sees exactly what the kernel sees. */
  lemma SharedBelow(w: World, p: nat, q: nat)
    requires Inv(w) && p in w.live && q < SHARED_PAGES
    ensures w.live[p] < HEAP_BLOCKS && Translate(w.v.mem, w.live[p], q) == Translate(w.v.mem, w.k, q)
  {
    assert DirOk(w, p, w.live[p]);
  }

  /** Above it no two live processes, and no two pages of one, share a frame; none is reserved. */
  lemma PrivateAbove(w: World, p: nat, q: nat, p': nat, q': nat)
    requires Inv(w) && p in w.live && p' in w.live && SHARED_PAGES <= q < PAGES && SHARED_PAGES <= q' < PAGES
    requires Translate(w.v.mem, w.live[p], q).Mapped? && Translate(w.v.mem, w.live[p'], q').Mapped?
    requires Translate(w.v.mem, w.live[p], q).base == Translate(w.v.mem, w.live[p'], q').base
    ensures p == p' && q == q' && !Reserved(Translate(w.v.mem, w.live[p], q).base / 4096)
  {
    assert PageOk(w, p, q) && PageOk(w, p', q');
  }

  /** A live process's directory and tables are separate blocks. */
  lemma ProcSpaceOk(w: World, p: nat)
    requires RolesOk(w) && KernelOk(w) && DirsOk(w) && p in w.live
    ensures SpaceOk(w.v, w.live[p])
  {
    var d := w.live[p];
    assert DirOk(w, p, d);
    var page := w.v.mem[d];
    forall i | 0 <= i < PER_TABLE && Present(page[i])
      ensures PointsIn(page[i]) && HasRole(w, TableAt(page, i), if i < SHARED then KernelTable(i) else ProcTable(p, i)) {
      if i < SHARED {
        assert TableAt(w.v.mem[w.k], i) == TableAt(page, i);
      }
    }
  }

  // ---------- what leaves a process alone ----------

  predicate OfProc(r: Role, p: nat) {
    (r.ProcDir? || r.ProcTable?) && r.pid == p
  }

  /** The kernel directory and every block of process `p` keep their role and contents. */
  ghost predicate KeepsProc(w: World, e: World, p: nat)
    requires w.k < HEAP_BLOCKS
  {
    && e.k == w.k && e.v.mem[w.k] == w.v.mem[w.k]
    && forall x :: x in w.role && OfProc(w.role[x], p) ==>
         x < HEAP_BLOCKS && x in e.role && e.role[x] == w.role[x] && e.v.mem[x] == w.v.mem[x]
  }

  lemma KeptDir(w: World, e: World, p: nat, d: nat)
    requires w.k < HEAP_BLOCKS && DirOk(w, p, d) && KeepsProc(w, e, p)
    ensures DirOk(e, p, d)
  {
  }

  /** A translation depends on the directory entry and the table behind it. */
  lemma TranslateFrame(m: Memory, n: Memory, d: nat, q: nat)
    requires d < HEAP_BLOCKS && q < PAGES && n[d] == m[d]
    requires TableAt(m[d], DirIndex(q)) >= 0 ==> n[TableAt(m[d], DirIndex(q))] == m[TableAt(m[d], DirIndex(q))]
    ensures Translate(n, d, q) == Translate(m, d, q)
  {
  }

  lemma KeptPage(w: World, e: World, p: nat, d: nat, q: nat)
    requires w.k < HEAP_BLOCKS && DirOk(w, p, d) && KeepsProc(w, e, p) && SHARED_PAGES <= q < PAGES
    ensures d < HEAP_BLOCKS && Translate(e.v.mem, d, q) == Translate(w.v.mem, d, q)
  {
    assert HasRole(w, d, ProcDir(p));
    hide Translate;
    TranslateFrame(w.v.mem, e.v.mem, d, q);
  }

  // ---------- mapping one private page ----------

  /** One turn of vmm_alloc for a live process, with the books. */
  function MapPage(w: World, p: nat, q: nat): (e: World)
    requires p in w.live && SpaceOk(w.v, w.live[p]) && SHARED_PAGES <= q < PAGES && LowestFree(w.v.used, 0) < FRAMES
  {
    var d, f := w.live[p], LowestFree(w.v.used, 0);
    var t := AllocTurn(w.v, d, q, STACK_FLAGS);
    var b := FreeBlock(w.v.heap, 0);
    w.(v := t.0,
       role := if !Present(w.v.mem[d][DirIndex(q)]) && t.1 then w.role[b := ProcTable(p, DirIndex(q))] else w.role,
       frame := if t.1 then w.frame[f := (p, q)] else w.frame)
  }

  lemma KernelsRole(w: World)
    requires KernelOk(w)
    ensures HasRole(w, w.k, KernelDir)
  {
  }

  lemma LiveDir(w: World, p: nat)
    requires w.k < HEAP_BLOCKS && DirsOk(w) && p in w.live
    ensures p < w.next && DirOk(w, p, w.live[p]) && HasRole(w, w.live[p], ProcDir(p))
  {
  }

  lemma RoleBlock(w: World, x: nat)
    requires RolesOk(w) && x in w.role
    ensures x < HEAP_BLOCKS && w.v.heap[x] == 0x41
    ensures w.role[x].ProcDir? || w.role[x].ProcTable? ==> w.role[x].pid < w.next
  {
  }

  lemma PrivateIndex(q: nat)
    requires SHARED_PAGES <= q < PAGES
    ensures SHARED <= DirIndex(q) < PER_TABLE
  {
  }

  /** What mapping a page does to one block with a role. */
  predicate BlockKept(w: World, e: World, x: nat, sameWords: bool) {
    && x < HEAP_BLOCKS && x in e.role && x in w.role && e.role[x] == w.role[x] && e.v.heap[x] == w.v.heap[x]
    && (sameWords ==> e.v.mem[x] == w.v.mem[x])
  }

  /** Of the blocks with a role, only the process's directory and its table for that page can change. */
  lemma MapTouches(w: World, p: nat, q: nat)
    requires RolesOk(w) && KernelOk(w) && DirsOk(w) && p in w.live && SpaceOk(w.v, w.live[p])
    requires SHARED_PAGES <= q < PAGES && LowestFree(w.v.used, 0) < FRAMES
    ensures var e := MapPage(w, p, q);
            && e.k == w.k && e.live == w.live && e.next == w.next
            && forall x :: x in w.role ==> BlockKept(w, e, x, w.role[x] != ProcDir(p) && w.role[x] != ProcTable(p, DirIndex(q)))
  {
    hide MapPage, SpaceOk, KernelOk, TableAt, LowestFree, DirsOk, RolesOk, BlockKept;
    KernelsRole(w);
    MapBooks(w, p, q);
    var e := MapPage(w, p, q);
    forall x | x in w.role ensures BlockKept(w, e, x, w.role[x] != ProcDir(p) && w.role[x] != ProcTable(p, DirIndex(q))) {
      MapTouch(w, p, q, x);
    }
  }

  lemma MapTouch(w: World, p: nat, q: nat, x: nat)
    requires RolesOk(w) && w.k < HEAP_BLOCKS && DirsOk(w) && p in w.live && SpaceOk(w.v, w.live[p])
    requires SHARED_PAGES <= q < PAGES && LowestFree(w.v.used, 0) < FRAMES && x in w.role
    ensures BlockKept(w, MapPage(w, p, q), x, w.role[x] != ProcDir(p) && w.role[x] != ProcTable(p, DirIndex(q)))
  {
    hide AllocTurn, SpaceOk, DirsOk, DirOk, RolesOk, FreeBlock, TableAt, LowestFree, DirIndex, EntryFor, Present;
    var d, i := w.live[p], DirIndex(q);
    RoleBlock(w, x);
    LiveDir(w, p);
    PrivateIndex(q);
    TurnShape(w.v, d, q, STACK_FLAGS);
    OwnTable(w, p, i);
    var b := FreeBlock(w.v.heap, 0);
    if !Present(w.v.mem[d][i]) && AllocTurn(w.v, d, q, STACK_FLAGS).1 {
      assert b != x by { FreeIsFree(w.v.heap); }
    }
  }

  lemma FreeIsFree(h: HeapMap)
    requires FreeBlock(h, 0) < HEAP_BLOCKS
    ensures h[FreeBlock(h, 0)] != 0x41
  {
  }

  lemma OwnTable(w: World, p: nat, i: nat)
    requires w.k < HEAP_BLOCKS && DirsOk(w) && p in w.live && SHARED <= i < PER_TABLE
    ensures w.live[p] < HEAP_BLOCKS
    ensures TableAt(w.v.mem[w.live[p]], i) >= 0 ==> HasRole(w, TableAt(w.v.mem[w.live[p]], i), ProcTable(p, i))
  {
    assert DirOk(w, p, w.live[p]);
  }

  lemma MapRoles(w: World, p: nat, q: nat)
    requires RolesOk(w) && KernelOk(w) && DirsOk(w) && p in w.live && SpaceOk(w.v, w.live[p])
    requires SHARED_PAGES <= q < PAGES && LowestFree(w.v.used, 0) < FRAMES
    ensures RolesOk(MapPage(w, p, q)) && KernelOk(MapPage(w, p, q))
  {
    hide RolesOk, KernelOk, MapPage, SpaceOk, DirsOk, DirOk, TableAt, LowestFree;
    KernelsRole(w);
    MapTouches(w, p, q);
    MapRolesOk(w, p, q);
    KernelKept(w, MapPage(w, p, q));
  }

  /** The kernel's blocks are found by their role. */
  lemma KernelKept(w: World, e: World)
    requires KernelOk(w) && e.k == w.k
    requires forall x :: x in w.role && (w.role[x].KernelDir? || w.role[x].KernelTable?) ==>
               x < HEAP_BLOCKS && x in e.role && e.role[x] == w.role[x] && e.v.mem[x] == w.v.mem[x]
    ensures KernelOk(e)
  {
    hide TableAt;
    assert HasRole(w, w.k, KernelDir);
    forall i | 0 <= i < PER_TABLE
      ensures TableAt(e.v.mem[e.k], i) >= 0 && HasRole(e, TableAt(e.v.mem[e.k], i), KernelTable(i)) {
      assert HasRole(w, TableAt(w.v.mem[w.k], i), KernelTable(i));
    }
  }

  lemma MapRolesOk(w: World, p: nat, q: nat)
    requires RolesOk(w) && KernelOk(w) && DirsOk(w) && p in w.live && SpaceOk(w.v, w.live[p])
    requires SHARED_PAGES <= q < PAGES && LowestFree(w.v.used, 0) < FRAMES
    ensures RolesOk(MapPage(w, p, q))
  {
    hide RolesOk, SpaceOk, TableAt, LowestFree, KernelOk, DirsOk, DirOk, MapPage;
    KernelsRole(w);
    LiveDir(w, p);
    MapTouches(w, p, q);
    var e := MapPage(w, p, q);
    forall b | b in e.role
      ensures b < HEAP_BLOCKS && e.v.heap[b] == 0x41
      ensures e.role[b].ProcDir? || e.role[b].ProcTable? ==> e.role[b].pid < e.next {
      if b in w.role {
        RoleBlock(w, b);
      } else {
        MapNewRole(w, p, q, b);
      }
    }
    RolesFrom(e);
  }

  lemma RolesFrom(w: World)
    requires forall b :: b in w.role ==>
               && b < HEAP_BLOCKS && w.v.heap[b] == 0x41
               && (w.role[b].ProcDir? || w.role[b].ProcTable? ==> w.role[b].pid < w.next)
    ensures RolesOk(w)
  {
  }

  /** A block that gets its role in the turn is the process's new table. */
  lemma MapNewRole(w: World, p: nat, q: nat, b: nat)
    requires p in w.live && SpaceOk(w.v, w.live[p])
    requires SHARED_PAGES <= q < PAGES && LowestFree(w.v.used, 0) < FRAMES && b in MapPage(w, p, q).role && b !in w.role
    ensures var e := MapPage(w, p, q);
            b < HEAP_BLOCKS && e.v.heap[b] == 0x41 && e.role[b] == ProcTable(p, DirIndex(q))
  {
    hide AllocTurn, SpaceOk, TableAt, LowestFree, FreeBlock, SameExcept, DirIndex, EntryFor, Present;
    TurnShape(w.v, w.live[p], q, STACK_FLAGS);
  }

  /** The directory of the process itself: its shared entries stay, the entry for the page has its own table. */
  lemma MapOwnDir(w: World, p: nat, q: nat)
    requires RolesOk(w) && KernelOk(w) && DirsOk(w) && p in w.live && SpaceOk(w.v, w.live[p])
    requires SHARED_PAGES <= q < PAGES && LowestFree(w.v.used, 0) < FRAMES
    requires MapPage(w, p, q).v.mem[w.k] == w.v.mem[w.k]
    ensures DirOk(MapPage(w, p, q), p, w.live[p])
  {
    hide AllocTurn, SpaceOk, KernelOk, RolesOk, DirsOk, DirOk, TableAt, LowestFree, FreeBlock, DirIndex, EntryFor, Present, SameExcept;
    KernelsRole(w);
    var e, d := MapPage(w, p, q), w.live[p];
    LiveDir(w, p);
    PrivateIndex(q);
    MapTouches(w, p, q);
    TurnShape(w.v, d, q, STACK_FLAGS);
    if e.v.mem[d] == w.v.mem[d] {
      DirGrows(w, e, p, d, DirIndex(q), -1);
    } else {
      DirGrows(w, e, p, d, DirIndex(q), FreeBlock(w.v.heap, 0));
    }
  }

  /** A process directory that stays, or gets one private table `b` more. */
  lemma DirGrows(w: World, e: World, p: nat, d: nat, i: nat, b: int)
    requires w.k < HEAP_BLOCKS && e.k == w.k && DirOk(w, p, d) && SHARED <= i < PER_TABLE
    requires e.v.mem[w.k] == w.v.mem[w.k] && forall x :: x in w.role ==> x in e.role && e.role[x] == w.role[x]
    requires if b < 0 then e.v.mem[d] == w.v.mem[d]
             else b < HEAP_BLOCKS && e.v.mem[d] == w.v.mem[d][i := EntryFor(b, TABLE_FLAGS)] && HasRole(e, b, ProcTable(p, i))
    ensures DirOk(e, p, d)
  {
  }

  lemma MapKeepsProc(w: World, p: nat, q: nat, r: nat)
    requires RolesOk(w) && KernelOk(w) && DirsOk(w) && p in w.live && SpaceOk(w.v, w.live[p])
    requires SHARED_PAGES <= q < PAGES && LowestFree(w.v.used, 0) < FRAMES && r != p
    ensures w.k < HEAP_BLOCKS && KeepsProc(w, MapPage(w, p, q), r)
  {
    hide MapPage, KernelOk, SpaceOk, DirsOk, RolesOk, LowestFree;
    KernelsRole(w);
    MapTouches(w, p, q);
    var e := MapPage(w, p, q);
    assert e.k == w.k && e.v.mem[w.k] == w.v.mem[w.k];
  }

  lemma MapDir(w: World, p: nat, q: nat, r: nat)
    requires RolesOk(w) && KernelOk(w) && DirsOk(w) && p in w.live && SpaceOk(w.v, w.live[p])
    requires SHARED_PAGES <= q < PAGES && LowestFree(w.v.used, 0) < FRAMES && r in w.live
    ensures MapPage(w, p, q).k == w.k < HEAP_BLOCKS && DirOk(MapPage(w, p, q), r, w.live[r])
  {
    hide MapPage, SpaceOk, RolesOk, KernelOk, DirOk, DirsOk, LowestFree;
    KernelsRole(w);
    LiveDir(w, r);
    MapBooks(w, p, q);
    if r == p {
      MapKeepsProc(w, p, q, w.next + p + 1);
      MapOwnDir(w, p, q);
    } else {
      MapKeepsProc(w, p, q, r);
      KeptDir(w, MapPage(w, p, q), r, w.live[r]);
    }
  }

  lemma MapDirs(w: World, p: nat, q: nat)
    requires RolesOk(w) && KernelOk(w) && DirsOk(w) && p in w.live && SpaceOk(w.v, w.live[p])
    requires SHARED_PAGES <= q < PAGES && LowestFree(w.v.used, 0) < FRAMES
    ensures MapPage(w, p, q).k < HEAP_BLOCKS && DirsOk(MapPage(w, p, q))
  {
    hide MapPage, SpaceOk, RolesOk, KernelOk, DirOk, DirsOk, LowestFree;
    KernelsRole(w);
    MapBooks(w, p, q);
    MapDir(w, p, q, p);
    var e := MapPage(w, p, q);
    forall r | r in e.live ensures r < e.next && DirOk(e, r, e.live[r]) {
      LiveDir(w, r);
      MapDir(w, p, q, r);
    }
    DirsFrom(e);
  }

  lemma DirsFrom(w: World)
    requires w.k < HEAP_BLOCKS && forall p :: p in w.live ==> p < w.next && DirOk(w, p, w.live[p])
    ensures DirsOk(w)
  {
    hide DirOk;
  }

  lemma MapOwnPage(w: World, p: nat, q: nat, x: nat)
    requires p in w.live && w.live[p] < HEAP_BLOCKS && SpaceOk(w.v, w.live[p])
    requires SHARED_PAGES <= q < PAGES && x < PAGES && LowestFree(w.v.used, 0) < FRAMES
    requires PageOk(w, p, x) && LowestFree(w.v.used, 0) !in w.frame
    ensures PageOk(MapPage(w, p, q), p, x)
  {
    hide Translate, AllocTurn, SpaceOk, TableAt, LowestFree, FreeBlock, Present, DirIndex;
    TurnRefines(w.v, w.live[p], q, STACK_FLAGS, x);
    TurnTables(w.v, w.live[p], q, STACK_FLAGS);
  }

  lemma MapOtherPage(w: World, p: nat, q: nat, r: nat, x: nat)
    requires RolesOk(w) && KernelOk(w) && DirsOk(w) && p in w.live && SpaceOk(w.v, w.live[p])
    requires SHARED_PAGES <= q < PAGES && LowestFree(w.v.used, 0) < FRAMES
    requires r in w.live && r != p && SHARED_PAGES <= x < PAGES
    ensures w.live[r] < HEAP_BLOCKS
    ensures Translate(MapPage(w, p, q).v.mem, w.live[r], x) == Translate(w.v.mem, w.live[r], x)
  {
    hide MapPage, SpaceOk, KernelOk, RolesOk, DirsOk, DirOk, KeepsProc, LowestFree;
    KernelsRole(w);
    LiveDir(w, r);
    MapKeepsProc(w, p, q, r);
    KeptPage(w, MapPage(w, p, q), r, w.live[r], x);
  }

  lemma MapPageAt(w: World, p: nat, q: nat, r: nat, x: nat)
    requires Inv(w) && p in w.live && SpaceOk(w.v, w.live[p]) && SHARED_PAGES <= q < PAGES && LowestFree(w.v.used, 0) < FRAMES
    requires r in w.live && SHARED_PAGES <= x < PAGES && LowestFree(w.v.used, 0) !in w.frame
    ensures MapPage(w, p, q).live == w.live && w.live[r] < HEAP_BLOCKS && PageOk(MapPage(w, p, q), r, x)
  {
    var e := MapPage(w, p, q);
    assert PageOk(w, r, x) && DirOk(w, r, w.live[r]);
    assert e.live == w.live && forall g :: g in w.frame ==> g in e.frame && e.frame[g] == w.frame[g];
    hide MapPage, Inv, Translate, SpaceOk, KernelOk, RolesOk, DirOk, DirsOk, FramesOk, PagesOk, LowestFree;
    if r == p {
      MapOwnPage(w, p, q, x);
    } else {
      MapOtherPage(w, p, q, r, x);
    }
  }

  lemma MapPages(w: World, p: nat, q: nat)
    requires Inv(w) && p in w.live && SpaceOk(w.v, w.live[p]) && SHARED_PAGES <= q < PAGES && LowestFree(w.v.used, 0) < FRAMES
    requires DirsOk(MapPage(w, p, q)) && KernelOk(MapPage(w, p, q))
    ensures PagesOk(MapPage(w, p, q)) && FramesOk(MapPage(w, p, q))
  {
    var e, f := MapPage(w, p, q), LowestFree(w.v.used, 0);
    TurnShape(w.v, w.live[p], q, STACK_FLAGS);
    hide Translate, AllocTurn, SpaceOk, KernelOk, RolesOk, DirOk, TableAt, LowestFree, FreeBlock, PageOk;
    assert f !in w.frame && !Reserved(f);
    forall r, x | r in e.live && SHARED_PAGES <= x < PAGES ensures PageOk(e, r, x) {
      MapPageAt(w, p, q, r, x);
    }
  }

  lemma MapKeeps(w: World, p: nat, q: nat)
    requires Inv(w) && p in w.live && SpaceOk(w.v, w.live[p]) && SHARED_PAGES <= q < PAGES && LowestFree(w.v.used, 0) < FRAMES
    ensures Inv(MapPage(w, p, q))
  {
    MapRoles(w, p, q);
    MapDirs(w, p, q);
    MapPages(w, p, q);
  }

  // ---------- creating an address space ----------

  /** The directory paging_new_process_directory builds: the kernel's shared entries, then nothing. */
  function SharedDir(kernel: Page): (page: Page)
    ensures forall i :: 0 <= i < PER_TABLE ==> page[i] == if i < SHARED then kernel[i] else 0
  {
    seq(PER_TABLE, i requires 0 <= i < PER_TABLE => if i < SHARED then kernel[i] else 0)
  }

  /** paging_new_process_directory: a block for the directory and one for the record that points to it. */
  function OpenSpace(w: World): (r: (World, bool))
    requires w.k < HEAP_BLOCKS
  {
    var d := FreeBlock(w.v.heap, 0);
    if d == HEAP_BLOCKS then (w, false)
    else
      var v := Vm(w.v.mem[d := SharedDir(w.v.mem[w.k])], w.v.heap[d := 0x41], w.v.used);
      var role := w.role[d := ProcDir(w.next)];
      var c := FreeBlock(v.heap, 0);
      if c == HEAP_BLOCKS then (w.(v := v, role := role, next := w.next + 1), false)
      else
        (w.(v := Vm(SetEntry(v.mem, c, 0, AddressOf(d)), v.heap[c := 0x41], v.used),
            role := role[c := Record], live := w.live[w.next := d], next := w.next + 1), true)
  }

  lemma OpenKeeps(w: World)
    requires Inv(w)
    ensures Inv(OpenSpace(w).0)
    ensures OpenSpace(w).1 ==> OpenSpace(w).0.live.Keys == w.live.Keys + {w.next}
  {
    var e := OpenSpace(w).0;
    OpenDirs(w);
    OpenPages(w);
  }

  /** Blocks that had a role keep it and their contents. */
  lemma OpenTouches(w: World)
    requires RolesOk(w) && HasRole(w, w.k, KernelDir)
    ensures var e := OpenSpace(w).0;
            && e.k == w.k && e.frame == w.frame && e.v.used == w.v.used && e.next >= w.next
            && (forall x :: x in w.role ==> x in e.role && e.role[x] == w.role[x] && e.v.mem[x] == w.v.mem[x])
            && (forall r :: r in e.live && r != w.next ==> r in w.live && e.live[r] == w.live[r])
            && (forall r :: r in w.live && r != w.next ==> r in e.live)
  {
    hide FreeBlock, SharedDir;
  }

  lemma OpenRoles(w: World)
    requires RolesOk(w) && HasRole(w, w.k, KernelDir)
    ensures RolesOk(OpenSpace(w).0)
  {
    hide FreeBlock, SharedDir;
  }

  /** The new directory. */
  lemma OpenNew(w: World)
    requires RolesOk(w) && HasRole(w, w.k, KernelDir) && w.next !in w.live && w.next in OpenSpace(w).0.live
    ensures var e := OpenSpace(w).0; var d := e.live[w.next];
            d < HEAP_BLOCKS && HasRole(e, d, ProcDir(w.next)) && e.v.mem[d] == SharedDir(w.v.mem[w.k]) && e.next == w.next + 1
  {
  }

  lemma OpenDirs(w: World)
    requires Inv(w)
    ensures var e := OpenSpace(w).0;
            RolesOk(e) && KernelOk(e) && DirsOk(e) && FramesOk(e)
  {
    var e := OpenSpace(w).0;
    OpenTouches(w);
    OpenRoles(w);
    hide OpenSpace, RolesOk, TableAt;
    forall r | r in e.live ensures r < e.next && DirOk(e, r, e.live[r]) {
      OpenDir(w, r);
    }
  }

  lemma OpenKeepsProc(w: World, r: nat)
    requires RolesOk(w) && KernelOk(w)
    ensures w.k < HEAP_BLOCKS && KeepsProc(w, OpenSpace(w).0, r)
  {
    assert HasRole(w, w.k, KernelDir);
    OpenTouches(w);
    hide OpenSpace, KernelOk;
  }

  lemma OpenDir(w: World, r: nat)
    requires RolesOk(w) && KernelOk(w) && DirsOk(w) && r in OpenSpace(w).0.live
    ensures OpenSpace(w).0.k == w.k && r < OpenSpace(w).0.next && DirOk(OpenSpace(w).0, r, OpenSpace(w).0.live[r])
  {
    assert w.next !in w.live && HasRole(w, w.k, KernelDir);
    OpenTouches(w);
    if r == w.next {
      OpenNew(w);
      hide OpenSpace, KernelOk, RolesOk, DirsOk;
    } else {
      assert DirOk(w, r, w.live[r]);
      OpenOldDir(w, r);
    }
  }

  lemma OpenOldDir(w: World, r: nat)
    requires RolesOk(w) && KernelOk(w) && r in w.live && r < w.next && w.k < HEAP_BLOCKS && DirOk(w, r, w.live[r])
    ensures OpenSpace(w).0.k == w.k && r < OpenSpace(w).0.next && DirOk(OpenSpace(w).0, r, w.live[r])
  {
    assert HasRole(w, w.k, KernelDir);
    OpenKeepsProc(w, r);
    OpenTouches(w);
    hide OpenSpace, KernelOk, RolesOk, DirOk, KeepsProc;
    KeptDir(w, OpenSpace(w).0, r, w.live[r]);
  }

  lemma OpenPages(w: World)
    requires Inv(w) && DirsOk(OpenSpace(w).0) && KernelOk(OpenSpace(w).0)
    ensures PagesOk(OpenSpace(w).0)
  {
    var e := OpenSpace(w).0;
    OpenTouches(w);
    assert w.next !in w.live;
    if w.next in e.live {
      OpenNew(w);
    }
    hide OpenSpace, TableAt, FreeBlock, KernelOk, FramesOk, Translate;
    forall r, x | r in e.live && SHARED_PAGES <= x < PAGES ensures PageOk(e, r, x) {
      if r in w.live {
        assert PageOk(w, r, x) && DirOk(w, r, w.live[r]);
        OpenKeepsProc(w, r);
        KeptPage(w, e, r, w.live[r], x);
      } else {
        EmptyAbove(e.v.mem, e.live[r], w.v.mem[w.k], x);
      }
    }
  }

  lemma EmptyAbove(m: Memory, d: nat, kernel: Page, x: nat)
    requires d < HEAP_BLOCKS && m[d] == SharedDir(kernel) && SHARED_PAGES <= x < PAGES
    ensures Translate(m, d, x) == Unmapped
  {
  }

  /** The vmm_alloc of create_process for a live process; false when the frames ran out. */
  function MapRange(w: World, p: nat, q: nat, n: nat): (r: (World, bool))
    requires Inv(w) && p in w.live && SHARED_PAGES <= q && q + n <= PAGES
    ensures Inv(r.0) && p in r.0.live
    decreases n, p
  {
    if n == 0 then (w, true)
    else if LowestFree(w.v.used, 0) == FRAMES then (w, false)
    else
      ProcSpaceOk(w, p);
      MapKeeps(w, p, q);
      MapRange(MapPage(w, p, q), p, q + 1, n - 1)
  }

  /** The number of stack pages, and the page whose mapping create_process checks. */
  const STACK_PAGES := 2

  function CheckedPage(ok: bool): (q: nat)
    ensures SHARED_PAGES <= q < PAGES
  {
    if ok then STACK_PAGE + STACK_PAGES - 1 else PAGES - 1
  }

  /** What paging_get_physical makes of an aligned address. */
  function PhysicalOf(t: Mapping): nat {
    if t.Mapped? then t.base else 0
  }

  /** Giving up a process: its blocks and frames stay allocated. */
  function Forget(w: World, p: nat): World {
    w.(live := w.live - {p})
  }

  /** The memory side of create_process: a new live process, or none and some blocks or frames lost. */
  function CreateSpace(w: World): (r: (World, bool))
    requires Inv(w)
  {
    OpenKeeps(w);
    var o := OpenSpace(w);
    if !o.1 then o
    else
      var m := MapRange(o.0, w.next, STACK_PAGE, STACK_PAGES);
      if PhysicalOf(Translate(m.0.v.mem, m.0.live[w.next], CheckedPage(m.1))) == 0 then (Forget(m.0, w.next), false)
      else (m.0, true)
  }

  lemma ForgetKeeps(w: World, p: nat)
    requires Inv(w)
    ensures Inv(Forget(w, p))
  {
    var e := Forget(w, p);
    forall r | r in e.live ensures r < e.next && DirOk(e, r, e.live[r]) {
      assert DirOk(w, r, w.live[r]);
    }
    forall r, x | r in e.live && SHARED_PAGES <= x < PAGES ensures PageOk(e, r, x) {
      assert PageOk(w, r, x);
    }
  }

  lemma CreateKeeps(w: World)
    requires Inv(w)
    ensures Inv(CreateSpace(w).0)
  {
    OpenKeeps(w);
    if OpenSpace(w).1 {
      hide Inv, OpenSpace;
      ForgetKeeps(MapRange(OpenSpace(w).0, w.next, STACK_PAGE, STACK_PAGES).0, w.next);
    }
  }

  // ---------- freeing an address space ----------

  /** free_proc: one stack page is freed, then the directory's block; the other page and the table stay. */
  function Retire(w: World, p: nat): (e: World)
    requires p in w.live && SpaceOk(w.v, w.live[p])
  {
    var d := w.live[p];
    var t := FreeVmm(w.v, d, STACK_PAGE, 1);
    World(Vm(t.mem, MarkFree(t.heap, d), t.used), w.k, w.live - {p}, w.next, w.role - {d},
          match Translate(w.v.mem, d, STACK_PAGE) case Mapped(b, _, _) => w.frame - {b / 4096} case Unmapped => w.frame)
  }

  /** Only the process's own stack table changes, and only its directory's block is freed. */
  lemma RetireTouches(w: World, p: nat)
    requires RolesOk(w) && KernelOk(w) && DirsOk(w) && p in w.live && SpaceOk(w.v, w.live[p])
    ensures var e, d := Retire(w, p), w.live[p];
            && HasRole(w, d, ProcDir(p))
            && e.v.heap == w.v.heap[d := FREE]
            && (forall x :: x in w.role && w.role[x] != ProcTable(p, DirIndex(STACK_PAGE)) ==> e.v.mem[x] == w.v.mem[x])
            && e.v.used == (match Translate(w.v.mem, d, STACK_PAGE) case Mapped(b, _, _) => w.v.used - {b / 4096} case Unmapped => w.v.used)
  {
    var d := w.live[p];
    assert DirOk(w, p, d);
    OwnTable(w, p, DirIndex(STACK_PAGE));
    FreeTurnFacts(w.v, d, STACK_PAGE);
    hide Translate, SpaceOk, KernelOk, DirsOk, DirOk;
    assert FreeVmm(w.v, d, STACK_PAGE, 1) == FreeTurn(w.v, d, STACK_PAGE);
    assert !HasNext(w.v.heap[d]);
  }

  lemma RetireKeepsProc(w: World, p: nat, r: nat)
    requires RolesOk(w) && KernelOk(w) && DirsOk(w) && p in w.live && SpaceOk(w.v, w.live[p]) && r != p
    ensures w.k < HEAP_BLOCKS && KeepsProc(w, Retire(w, p), r)
  {
    hide RolesOk, FreeVmm, MarkFree, Translate, KernelOk, SpaceOk, DirsOk;
    KernelsRole(w);
    RoleBounds(w);
    RetireTouches(w, p);
  }

  lemma RetireRoles(w: World, p: nat)
    requires RolesOk(w) && KernelOk(w) && DirsOk(w) && p in w.live && SpaceOk(w.v, w.live[p])
    ensures RolesOk(Retire(w, p)) && KernelOk(Retire(w, p))
  {
    hide FreeVmm, MarkFree, TableAt, Translate, SpaceOk, DirsOk, KernelOk, RolesOk;
    RetireTouches(w, p);
    var e := Retire(w, p);
    forall b | b in e.role
      ensures b < HEAP_BLOCKS && e.v.heap[b] == 0x41
      ensures e.role[b].ProcDir? || e.role[b].ProcTable? ==> e.role[b].pid < e.next {
      RoleBlock(w, b);
    }
    RolesFrom(e);
    RoleBounds(w);
    KernelKept(w, e);
  }

  lemma RetireDirs(w: World, p: nat)
    requires Inv(w) && p in w.live && SpaceOk(w.v, w.live[p])
    ensures var e := Retire(w, p);
            RolesOk(e) && KernelOk(e) && DirsOk(e)
  {
    var e := Retire(w, p);
    RetireRoles(w, p);
    assert e.live == w.live - {p} && e.next == w.next;
    forall r | r in e.live ensures r < e.next && DirOk(e, r, e.live[r]) {
      assert DirOk(w, r, w.live[r]);
      RetireKeepsProc(w, p, r);
      hide Retire, KernelOk, RolesOk, DirsOk, DirOk, KeepsProc, FramesOk, PagesOk, SpaceOk;
      KeptDir(w, e, r, w.live[r]);
    }
  }

  lemma RetirePage(w: World, p: nat, r: nat, x: nat)
    requires Inv(w) && p in w.live && SpaceOk(w.v, w.live[p]) && r in w.live && r != p && SHARED_PAGES <= x < PAGES
    ensures w.live[r] < HEAP_BLOCKS && PageOk(Retire(w, p), r, x)
  {
    hide RolesOk, KernelOk, FramesOk, FreeVmm, MarkFree, Translate, DirOk, DirsOk, SpaceOk, KeepsProc;
    KernelsRole(w);
    LiveDir(w, r);
    LiveDir(w, p);
    RetireKeepsProc(w, p, r);
    KeptPage(w, Retire(w, p), r, w.live[r], x);
    assert PageOk(w, r, x) && PageOk(w, p, STACK_PAGE);
  }

  lemma RetirePages(w: World, p: nat)
    requires Inv(w) && p in w.live && SpaceOk(w.v, w.live[p]) && DirsOk(Retire(w, p)) && KernelOk(Retire(w, p))
    ensures PagesOk(Retire(w, p)) && FramesOk(Retire(w, p))
  {
    hide FreeVmm, MarkFree, Translate, KernelOk, RolesOk, DirsOk, DirOk, SpaceOk;
    KernelsRole(w);
    LiveDir(w, p);
    RetireTouches(w, p);
    assert PageOk(w, p, STACK_PAGE);
    var e := Retire(w, p);
    forall r, x | r in e.live && SHARED_PAGES <= x < PAGES ensures e.live[r] < HEAP_BLOCKS && PageOk(e, r, x) {
      RetirePage(w, p, r, x);
    }
  }

  lemma RetireKeeps(w: World, p: nat)
    requires Inv(w) && p in w.live && SpaceOk(w.v, w.live[p])
    ensures Inv(Retire(w, p))
  {
    RetireDirs(w, p);
    RetirePages(w, p);
  }

  /** The second stack page's frame and the stack's page table stay allocated when a process is freed. */
  lemma RetireLeaks(w: World, p: nat)
    requires Inv(w) && p in w.live && SpaceOk(w.v, w.live[p])
    requires Translate(w.v.mem, w.live[p], STACK_PAGE + 1).Mapped?
    ensures var d := w.live[p]; var table := TableAt(w.v.mem[d], DirIndex(STACK_PAGE));
            && Translate(w.v.mem, d, STACK_PAGE + 1).base / 4096 in Retire(w, p).v.used
            && table >= 0 && !IsFree(Retire(w, p).v.heap[table])
  {
    hide KernelOk, DirsOk, DirOk, RolesOk, TableAt, Translate, Retire, IsFree;
    PrivateIndex(STACK_PAGE);
    KernelsRole(w);
    LiveDir(w, p);
    RetireTouches(w, p);
    MappedHasTable(w.v.mem, w.live[p], STACK_PAGE + 1);
    OwnTable(w, p, DirIndex(STACK_PAGE));
    RoleBlock(w, TableAt(w.v.mem[w.live[p]], DirIndex(STACK_PAGE)));
    assert PageOk(w, p, STACK_PAGE) && PageOk(w, p, STACK_PAGE + 1);
    NotFree();
  }

  lemma MappedHasTable(m: Memory, d: nat, q: nat)
    requires d < HEAP_BLOCKS && q < PAGES && Translate(m, d, q).Mapped?
    ensures TableAt(m[d], DirIndex(q)) >= 0
  {
  }

  // ---------- the kernel's own tables ----------

  /** The kernel directory and the tables behind it. */
  predicate SameKernel(w: World, e: World) {
    && e.k == w.k < HEAP_BLOCKS && e.v.mem[w.k] == w.v.mem[w.k]
    && forall i :: 0 <= i < PER_TABLE && TableAt(w.v.mem[w.k], i) >= 0 ==>
         e.v.mem[TableAt(w.v.mem[w.k], i)] == w.v.mem[TableAt(w.v.mem[w.k], i)]
  }

  /** Blocks of the kernel are found by their role. */
  lemma KernelByRole(w: World, e: World)
    requires KernelOk(w) && e.k == w.k
    requires forall x :: x in w.role && (w.role[x].KernelDir? || w.role[x].KernelTable?) ==> x < HEAP_BLOCKS && e.v.mem[x] == w.v.mem[x]
    ensures SameKernel(w, e)
  {
    hide TableAt;
    assert HasRole(w, w.k, KernelDir);
  }

  lemma SameKernelTrans(w: World, e: World, g: World)
    requires SameKernel(w, e) && SameKernel(e, g)
    ensures SameKernel(w, g)
  {
  }

  lemma MapKernel(w: World, p: nat, q: nat)
    requires Inv(w) && p in w.live && SpaceOk(w.v, w.live[p]) && SHARED_PAGES <= q < PAGES && LowestFree(w.v.used, 0) < FRAMES
    ensures SameKernel(w, MapPage(w, p, q))
  {
    hide MapPage, SameKernel, TableAt, RolesOk, KernelOk, DirsOk, FramesOk, PagesOk, SpaceOk, LowestFree;
    MapTouches(w, p, q);
    KernelByRole(w, MapPage(w, p, q));
  }

  lemma InvFacts(w: World, p: nat)
    requires Inv(w) && p in w.live
    ensures SameKernel(w, w) && SpaceOk(w.v, w.live[p])
  {
    ProcSpaceOk(w, p);
    hide TableAt;
  }

  lemma {:induction false} RangeKernel(w: World, p: nat, q: nat, n: nat)
    requires Inv(w) && p in w.live && SHARED_PAGES <= q && q + n <= PAGES
    ensures SameKernel(w, MapRange(w, p, q, n).0)
    decreases n
  {
    hide Inv, MapPage, SameKernel, SpaceOk, LowestFree;
    InvFacts(w, p);
    if n > 0 && LowestFree(w.v.used, 0) != FRAMES {
      var e := MapPage(w, p, q);
      MapKeeps(w, p, q);
      MapKernel(w, p, q);
      assert e.live == w.live by { MapBooks(w, p, q); }
      RangeKernel(e, p, q + 1, n - 1);
      SameKernelTrans(w, e, MapRange(e, p, q + 1, n - 1).0);
    }
  }

  /** The pages create_process maps are what vmm_alloc maps. */
  lemma {:induction false} RangeIsVmm(w: World, p: nat, q: nat, n: nat)
    requires Inv(w) && p in w.live && SHARED_PAGES <= q && q + n < PAGES && w.live[p] < HEAP_BLOCKS && SpaceOk(w.v, w.live[p])
    ensures var m, a := MapRange(w, p, q, n), VmmAlloc(w.v, w.live[p], q, n, STACK_FLAGS);
            m.0.v == a.0 && m.1 == a.1 && m.0.live == w.live
    decreases n
  {
    hide Inv, SpaceOk, AllocTurn, LowestFree;
    if n > 0 && LowestFree(w.v.used, 0) != FRAMES {
      var e := MapPage(w, p, q);
      MapKeeps(w, p, q);
      InvFacts(e, p);
      RangeIsVmm(e, p, q + 1, n - 1);
    }
  }

  lemma MapBooks(w: World, p: nat, q: nat)
    requires p in w.live && SpaceOk(w.v, w.live[p]) && SHARED_PAGES <= q < PAGES && LowestFree(w.v.used, 0) < FRAMES
    ensures MapPage(w, p, q).live == w.live && MapPage(w, p, q).k == w.k && MapPage(w, p, q).next == w.next
  {
  }

  lemma OpenKernel(w: World)
    requires Inv(w)
    ensures SameKernel(w, OpenSpace(w).0)
  {
    hide RolesOk, KernelOk, DirsOk, FramesOk, PagesOk, OpenSpace, SameKernel;
    KernelsRole(w);
    OpenTouches(w);
    RoleBounds(w);
    KernelByRole(w, OpenSpace(w).0);
  }

  lemma CreateKernel(w: World)
    requires Inv(w)
    ensures SameKernel(w, CreateSpace(w).0)
  {
    hide RolesOk, KernelOk, DirsOk, FramesOk, PagesOk, OpenSpace, SameKernel, MapRange, Translate;
    KernelsRole(w);
    OpenKeeps(w);
    OpenKernel(w);
    if OpenSpace(w).1 {
      var e := MapRange(OpenSpace(w).0, w.next, STACK_PAGE, STACK_PAGES).0;
      RangeKernel(OpenSpace(w).0, w.next, STACK_PAGE, STACK_PAGES);
      SameKernelTrans(w, OpenSpace(w).0, e);
      ForgetKernel(w, e, w.next);
    }
  }

  lemma RetireKernel(w: World, p: nat)
    requires Inv(w) && p in w.live && SpaceOk(w.v, w.live[p])
    ensures SameKernel(w, Retire(w, p))
  {
    hide RolesOk, KernelOk, DirsOk, FramesOk, PagesOk, SpaceOk, FreeVmm, MarkFree, Translate, SameKernel;
    RetireTouches(w, p);
    RoleBounds(w);
    KernelByRole(w, Retire(w, p));
  }

  lemma RoleBounds(w: World)
    requires RolesOk(w)
    ensures forall x :: x in w.role ==> x < HEAP_BLOCKS
  {
  }

  lemma ForgetKernel(w: World, e: World, p: nat)
    requires SameKernel(w, e)
    ensures SameKernel(w, Forget(e, p))
  {
  }
}
