/** The kernel's directory: paging_new_4gb maps every page to itself (src/memory/paging/paging.c). */
module KernelDirectory {
  import opened Bytes
  import opened HeapTable
  import opened Heap
  import opened FrameMap
  import opened Paging
  import opened Vmm
  import opened Isolation

  /** `flags | PAGING_IS_WRITABLE` */
  function WithWritable(flags: nat): (f: nat)
    requires flags < 4096
    ensures f < 4096 && f % 2 == flags % 2 && f / 2 % 2 == 1
  {
    if flags / 2 % 2 == 1 then flags else flags + 2
  }

  /** The j-th table: each page with its own address. */
  function IdentityTable(j: nat, flags: nat): (page: Page)
    requires j < PER_TABLE && flags < 4096
    ensures forall i :: 0 <= i < PER_TABLE ==> page[i] == (j * PER_TABLE + i) * 4096 + flags
  {
    seq<uint32>(PER_TABLE, i requires 0 <= i < PER_TABLE => (j * PER_TABLE + i) * 4096 + flags)
  }

  /** The directory with its first |tbl| tables in place; blocks that were taken are as before. */
  ghost predicate Built(v0: Vm, v: Vm, d: nat, tbl: seq<nat>, flags: nat)
    requires flags < 4096
  {
    && |tbl| <= PER_TABLE && d < HEAP_BLOCKS && IsFree(v0.heap[d]) && v.heap[d] == 0x41 && v.used == v0.used
    && (forall j :: 0 <= j < |tbl| ==> TableBuilt(v0, v, d, tbl[j], j, flags))
    && (forall i, j :: 0 <= i < j < |tbl| ==> tbl[i] != tbl[j])
    && forall x :: 0 <= x < HEAP_BLOCKS && !IsFree(v0.heap[x]) ==> v.heap[x] == v0.heap[x] && v.mem[x] == v0.mem[x]
  }

  ghost predicate TableBuilt(v0: Vm, v: Vm, d: nat, b: nat, j: nat, flags: nat)
    requires flags < 4096 && d < HEAP_BLOCKS && j < PER_TABLE
  {
    && b < HEAP_BLOCKS && b != d && IsFree(v0.heap[b]) && v.heap[b] == 0x41
    && v.mem[b] == IdentityTable(j, flags) && v.mem[d][j] == EntryFor(b, WithWritable(flags))
  }

  /** One more table, in a block that is free. */
  function AddTable(v: Vm, d: nat, b: nat, j: nat, flags: nat): Vm
    requires d < HEAP_BLOCKS && b < HEAP_BLOCKS && j < PER_TABLE && flags < 4096
  {
    Vm(SetEntry(v.mem[b := IdentityTable(j, flags)], d, j, EntryFor(b, WithWritable(flags))), v.heap[b := 0x41], v.used)
  }

  lemma BuiltStep(v0: Vm, v: Vm, d: nat, tbl: seq<nat>, flags: nat, b: nat)
    requires flags < 4096 && Built(v0, v, d, tbl, flags) && |tbl| < PER_TABLE && b < HEAP_BLOCKS && IsFree(v.heap[b])
    ensures Built(v0, AddTable(v, d, b, |tbl|, flags), d, tbl + [b], flags)
  {
    hide IdentityTable, EntryFor, WithWritable, IsFree;
    var w := AddTable(v, d, b, |tbl|, flags);
    assert IsFree(v.heap[b]) && !IsFree(0x41) by { NotFree(); }
    forall j | 0 <= j < |tbl| ensures TableBuilt(v0, w, d, tbl[j], j, flags) {
      assert TableBuilt(v0, v, d, tbl[j], j, flags);
    }
    assert TableBuilt(v0, w, d, b, |tbl|, flags);
  }

  /** The record with the pointer to the directory takes one more free block. */
  lemma RecordBuilt(v0: Vm, v: Vm, d: nat, tbl: seq<nat>, flags: nat, c: nat)
    requires flags < 4096 && Built(v0, v, d, tbl, flags) && c < HEAP_BLOCKS && IsFree(v.heap[c])
    ensures Built(v0, Vm(SetEntry(v.mem, c, 0, AddressOf(d)), v.heap[c := 0x41], v.used), d, tbl, flags)
  {
    hide IdentityTable, EntryFor, WithWritable, IsFree;
    NotFree();
    var w := Vm(SetEntry(v.mem, c, 0, AddressOf(d)), v.heap[c := 0x41], v.used);
    forall j | 0 <= j < |tbl| ensures TableBuilt(v0, w, d, tbl[j], j, flags) {
      assert TableBuilt(v0, v, d, tbl[j], j, flags);
    }
  }

  /**
   Every page of the 4 GB is mapped to itself exactly when the flags include PRESENT; it has these
   flags, and its table has them as well and is writable.
   */
  lemma Identity(v0: Vm, v: Vm, d: nat, tbl: seq<nat>, flags: nat, p: nat)
    requires flags < 4096 && Built(v0, v, d, tbl, flags) && |tbl| == PER_TABLE && p < PAGES
    ensures Translate(v.mem, d, p) ==
            if flags % 2 == 0 then Unmapped
            else Mapped(p * 4096, flags, if flags / 2 % 2 == 1 then flags else flags + WRITABLE)
  {
    var j := DirIndex(p);
    assert TableBuilt(v0, v, d, tbl[j], j, flags);
    IdentityEntry(p, flags);
    EntryFlags(tbl[j], WithWritable(flags));
    WritableAdded(flags);
    hide IdentityTable, WithWritable, EntryFor, IsFree, TableOf, PointsIn, DirIndex, TableIndex;
  }

  lemma IdentityEntry(p: nat, flags: nat)
    requires flags < 4096 && p < PAGES
    ensures var e: uint32 := IdentityTable(DirIndex(p), flags)[TableIndex(p)];
            Base(e) == p * 4096 && FlagsOf(e) == flags && (Present(e) <==> flags % 2 == 1)
  {
    hide Base, FlagsOf, Present;
    assert DirIndex(p) * PER_TABLE + TableIndex(p) == p;
    EntryParts(p, flags);
  }

  lemma EntryParts(p: nat, flags: nat)
    requires flags < 4096 && p < PAGES
    ensures var e: uint32 := p * 4096 + flags;
            Base(e) == p * 4096 && FlagsOf(e) == flags && (Present(e) <==> flags % 2 == 1)
  {
  }

  lemma WritableAdded(flags: nat)
    requires flags < 4096
    ensures WithWritable(flags) == if flags / 2 % 2 == 1 then flags else flags + WRITABLE
  {
  }

  // ---------- the books after start-up ----------

  function IndexIn(tbl: seq<nat>, b: nat): (i: nat)
    requires b in tbl
    ensures i < |tbl| && tbl[i] == b
  {
    if tbl[0] == b then 0 else 1 + IndexIn(tbl[1..], b)
  }

  function KernelRoles(d: nat, tbl: seq<nat>): map<nat, Role> {
    map b: nat | b < HEAP_BLOCKS && (b == d || b in tbl) :: if b == d then KernelDir else KernelTable(IndexIn(tbl, b))
  }

  /** No process yet. */
  function BootWorld(v: Vm, d: nat, tbl: seq<nat>): World {
    World(v, d, map[], 0, KernelRoles(d, tbl), map[])
  }

  /** Where every run of process creation and freeing starts. */
  lemma BootInv(v0: Vm, v: Vm, d: nat, tbl: seq<nat>, flags: nat)
    requires flags < 4096 && flags % 2 == 1 && Built(v0, v, d, tbl, flags) && |tbl| == PER_TABLE
    requires forall f: nat :: Reserved(f) ==> f in v.used
    ensures Inv(BootWorld(v, d, tbl))
  {
    hide IdentityTable, IndexIn;
    var w := BootWorld(v, d, tbl);
    forall i | 0 <= i < PER_TABLE ensures TableAt(v.mem[d], i) == tbl[i] && HasRole(w, tbl[i], KernelTable(i)) {
      assert TableBuilt(v0, v, d, tbl[i], i, flags);
      var k := IndexIn(tbl, tbl[i]);
      assert k == i;
    }
    forall b | b in w.role ensures b < HEAP_BLOCKS && v.heap[b] == 0x41 {
      if b != d {
        var i := IndexIn(tbl, b);
        assert TableBuilt(v0, v, d, tbl[i], i, flags);
      }
    }
  }
}
