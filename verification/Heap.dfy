/** The kernel heap as it runs (src/memory/heap/heap.c, src/memory/heap/kheap.c). */
module Heap {
  import opened Bytes
  import opened HeapTable

  const HEAP_ADDRESS := 0x0100_0000
  const HEAP_BLOCKS := 25600  // 100 MB in blocks of 4096 bytes

  /** heap_block_to_address */
  function AddressOf(b: nat): nat {
    HEAP_ADDRESS + b * BLOCK_SIZE
  }

  /** heap_address_to_block, for addresses from the heap's start on. */
  function BlockOf(address: nat): nat
    requires address >= HEAP_ADDRESS
  {
    (address - HEAP_ADDRESS) / BLOCK_SIZE
  }

  /** heap_address_to_block, for every address: a signed 32-bit difference, divided towards zero. */
  function FirstFreed(address: uint32): int {
    var d := (address + 0x1_0000_0000 - HEAP_ADDRESS) % 0x1_0000_0000;
    if d < 0x8000_0000 then d / BLOCK_SIZE else -((0x1_0000_0000 - d) / BLOCK_SIZE)
  }

  /**
   It is the block of the address from the heap's start on, below 2 GB of it; the last 4095 bytes
   in front of the heap lead to block 0, and every other address to a negative block.
   */
  lemma FirstFreedExactly(address: uint32)
    ensures FirstFreed(address) >= 0 <==> HEAP_ADDRESS - BLOCK_SIZE < address < HEAP_ADDRESS + 0x8000_0000
    ensures HEAP_ADDRESS <= address < HEAP_ADDRESS + 0x8000_0000 ==> FirstFreed(address) == BlockOf(address)
    ensures HEAP_ADDRESS - BLOCK_SIZE < address < HEAP_ADDRESS ==> FirstFreed(address) == 0
  {
  }

  /** An address inside a block leads back to it; block addresses are aligned and inside the heap. */
  lemma BlockAddress(b: nat, offset: nat)
    requires b < HEAP_BLOCKS && offset < BLOCK_SIZE
    ensures BlockOf(AddressOf(b) + offset) == b
    ensures AddressOf(b) % BLOCK_SIZE == 0 && AddressOf(0) == 0x0100_0000 && AddressOf(b + 1) == AddressOf(b) + 4096
    ensures HEAP_ADDRESS <= AddressOf(b) && AddressOf(b) + BLOCK_SIZE <= HEAP_ADDRESS + HEAP_BLOCKS * BLOCK_SIZE
  {
  }

  /** The number of blocks heap_malloc asks for; rounding up is a 32-bit addition. */
  function BlocksFor(size: uint32): nat {
    var aligned := if size % BLOCK_SIZE == 0 then size else (size - size % BLOCK_SIZE + BLOCK_SIZE) % 0x1_0000_0000;
    aligned / BLOCK_SIZE
  }

  /** The blocks hold `size` bytes, and are as few as possible, exactly below the last page of 32 bits. */
  lemma BlocksForExactly(size: uint32)
    ensures size <= BlocksFor(size) * BLOCK_SIZE < size + BLOCK_SIZE <==> size <= 0xFFFF_F000
  {
  }

  /** A block address; NULL; or a free tail that is too short, past which the code would mark entries. */
  datatype MallocResult = Block(address: nat) | Null | Overrun(block: nat)

  /** heap_malloc_blocks as a step from table `t` to table `u`. */
  ghost predicate MallocStep(t: seq<bv8>, n: nat, u: seq<bv8>, r: MallocResult) {
    match r
    case Null => StartsAt(t, n, -NO_MEMORY) && u == t
    case Block(a) => a >= HEAP_ADDRESS && StartsAt(t, n, BlockOf(a)) && a == AddressOf(BlockOf(a))
                     && BlockOf(a) + n <= |t| && u == MarkTaken(t, BlockOf(a), n)
    case Overrun(b) => StartsAt(t, n, b) && b + n > |t| && u == t
  }

  /** When a long enough free run exists, the lowest one is taken: aligned, in range, and free before. */
  lemma MallocTakesLowest(t: seq<bv8>, n: nat, u: seq<bv8>, r: MallocResult, s: nat)
    requires n > 0 && MallocStep(t, n, u, r) && FreeRun(t, s, n)
    ensures r.Block? && r.address % BLOCK_SIZE == 0 && r.address >= HEAP_ADDRESS
    ensures var b := BlockOf(r.address);
            b <= s && FirstFit(t, b, n) && u == MarkTaken(t, b, n)
  {
  }

  /** What heap_malloc comes to: a run that fits, or else the free tail, where marking would overrun the table, or NULL. */
  lemma MallocOutcome(t: seq<bv8>, n: nat, u: seq<bv8>, r: MallocResult)
    requires n > 0 && t != [] && MallocStep(t, n, u, r)
    ensures r.Block? <==> exists s :: FreeRun(t, s, n)
    ensures r.Null? <==> (forall s: nat :: !FreeRun(t, s, n)) && !IsFree(t[|t| - 1])
    ensures r.Overrun? ==> r.block + n > |t| && FreeRun(t, r.block, |t| - r.block) && (r.block > 0 ==> !IsFree(t[r.block - 1]))
    ensures !r.Block? ==> u == t
  {
    if r.Block? {
      StartIsFree(t, n, BlockOf(r.address));
    }
  }

  /** A request for no bytes gets the address of the free tail and marks nothing. */
  lemma MallocOfNothing(t: seq<bv8>, u: seq<bv8>, r: MallocResult)
    requires MallocStep(t, 0, u, r)
    ensures u == t
    ensures r == if TailStart(t) < |t| then Block(AddressOf(TailStart(t))) else Null
  {
    if r.Block? {
      assert u == t;
    }
  }

  class KernelHeap {
    const entries: array<bv8>

    ghost predicate Valid() {
      entries.Length == HEAP_BLOCKS
    }

    ghost function Table(): (t: seq<bv8>)
      reads entries
      ensures |t| == entries.Length
    {
      entries[..]
    }

    constructor ()
      ensures Valid() && fresh(entries) && forall i :: 0 <= i < HEAP_BLOCKS ==> entries[i] == FREE
    {
      entries := new bv8[HEAP_BLOCKS](_ => FREE);
    }

    /** heap_get_start_block */
    method GetStartBlock(n: nat) returns (r: int)
      requires Valid()
      ensures StartsAt(entries[..], n, r)
    {
      ghost var t := entries[..];
      var count, start := 0, -1;
      var i := 0;
      while i < entries.Length
        invariant 0 <= i <= |t| && Scanned(t, i, count, start)
        invariant n > 0 ==> count < n && forall s: nat :: FreeRun(t, s, n) ==> s + n > i
      {
        if entries[i] & 0x0f != FREE {
          count, start := 0, -1;
        } else {
          if start == -1 {
            start := i;
          }
          count := count + 1;
          if count == n {
            assert FreeRun(t, start, n);
            return start;
          }
        }
        i := i + 1;
      }
      if start == -1 {
        TailIs(t, |t|);
        return -NO_MEMORY;
      }
      TailIs(t, start);
      return start;
    }

    /** heap_mark_blocks_taken */
    method MarkBlocksTaken(start: nat, n: nat)
      requires Valid() && start + n <= HEAP_BLOCKS
      modifies entries
      ensures entries[..] == MarkTaken(old(entries[..]), start, n)
    {
      ghost var t := entries[..];
      var end := start + n - 1;
      var entry := TAKEN | IS_FIRST;
      if n > 1 {
        entry := entry | HAS_NEXT;
      }
      var i := start;
      while i <= end
        invariant start <= i <= start + n
        invariant i < start + n ==> entry == RunEntry(n, i - start)
        invariant forall k :: 0 <= k < |t| ==> entries[k] == if start <= k < i then RunEntry(n, k - start) else t[k]
      {
        entries[i] := entry;
        entry := TAKEN;
        if i != end {
          entry := entry | HAS_NEXT;
        }
        i := i + 1;
      }
    }

    /** heap_malloc. Where the code would mark entries behind the table, the model stops. */
    method Malloc(size: uint32) returns (r: MallocResult)
      requires Valid()
      modifies entries
      ensures MallocStep(old(Table()), BlocksFor(size), Table(), r)
    {
      var n := BlocksFor(size);
      var start := GetStartBlock(n);
      if start < 0 {
        return Null;
      }
      if start + n > HEAP_BLOCKS {
        return Overrun(start);
      }
      MarkBlocksTaken(start, n);
      return Block(AddressOf(start));
    }

    /** heap_free. For a negative block the code would write in front of the table; the model stops there. */
    method Free(address: uint32) returns (inside: bool)
      requires Valid()
      modifies entries
      ensures inside <==> FirstFreed(address) >= 0
      ensures Table() == if FirstFreed(address) >= 0 then MarkFree(old(Table()), FirstFreed(address)) else old(Table())
    {
      ghost var t := entries[..];
      var i := FirstFreed(address);
      inside := i >= 0;
      if !inside {
        return;
      }
      while i < entries.Length
        invariant i >= 0 && MarkFree(entries[..], i) == MarkFree(t, FirstFreed(address))
      {
        var entry := entries[i];
        entries[i] := FREE;
        if entry & HAS_NEXT == 0 {
          break;
        }
        i := i + 1;
      }
    }
  }

  /** The scan's counters after `i` entries. */
  predicate Scanned(t: seq<bv8>, i: nat, count: nat, start: int)
    requires i <= |t|
  {
    && (if count == 0 then start == -1 else start == i - count >= 0)
    && (forall k :: i - count <= k < i ==> IsFree(t[k]))
    && (i - count > 0 ==> !IsFree(t[i - count - 1]))
  }

  lemma {:induction false} TailIs(t: seq<bv8>, s: nat)
    requires s <= |t| && FreeRun(t, s, |t| - s) && (s > 0 ==> !IsFree(t[s - 1]))
    ensures TailStart(t) == s
  {
    if s < |t| {
      TailIs(t[..|t| - 1], s);
    }
  }

  // ---------- runs ----------

  datatype HeapOp = Alloc(n: nat, r: MallocResult) | Release(block: nat)

  /** One call: an allocation that does not overrun the table, or the freeing of a live pointer. */
  ghost predicate HeapStep(t: seq<bv8>, op: HeapOp, u: seq<bv8>) {
    match op
    case Alloc(n, r) => !r.Overrun? && MallocStep(t, n, u, r)
    case Release(s) => Live(t, s) && u == MarkFree(t, s)
  }

  ghost predicate HeapTrace(ts: seq<seq<bv8>>, ops: seq<HeapOp>) {
    |ts| == |ops| + 1 && forall k :: 0 <= k < |ops| ==> HeapStep(ts[k], ops[k], ts[k + 1])
  }

  /** A free that does not reach into the next allocation; the caller can read this off the table. */
  predicate Harmless(t: seq<bv8>, op: HeapOp) {
    op.Alloc? || (op.block < |t| &&
      var e := op.block + RunLength(t, op.block);
      RunLength(t, op.block) == 1 || e == |t| || IsFree(t[e]))
  }

  lemma StepKeeps(t: seq<bv8>, op: HeapOp, u: seq<bv8>)
    requires WellFormed(t) && HeapStep(t, op, u)
    ensures WellFormed(u)
  {
    match op {
      case Alloc(n, r) =>
        if r.Block? && n > 0 {
          StartIsFree(t, n, BlockOf(r.address));
          MallocKeeps(t, BlockOf(r.address), n);
        } else if r.Block? {
          assert u == t;
        }
      case Release(s) => FreeKeeps(t, s);
    }
  }

  /** A start whose blocks fit the table is the start of a free run. */
  lemma StartIsFree(t: seq<bv8>, n: nat, s: nat)
    requires n > 0 && StartsAt(t, n, s) && s + n <= |t|
    ensures FreeRun(t, s, n)
  {
  }

  lemma StepLeaves(t: seq<bv8>, op: HeapOp, u: seq<bv8>, s: nat)
    requires WellFormed(t) && HeapStep(t, op, u) && Harmless(t, op)
    requires Live(t, s) && op != Release(s)
    ensures Live(u, s) && RunLength(u, s) == RunLength(t, s)
  {
    match op {
      case Alloc(n, r) =>
        if r.Block? && n > 0 {
          StartIsFree(t, n, BlockOf(r.address));
          MallocLeaves(t, BlockOf(r.address), n, s);
        } else if r.Block? {
          assert u == t;
        }
      case Release(b) =>
        FreeExactly(t, b);
        FreeLeaves(t, b, s);
    }
  }

  /** The table splits into free blocks and whole runs at every point of every run of calls. */
  lemma {:induction false} TraceKeeps(ts: seq<seq<bv8>>, ops: seq<HeapOp>, k: nat)
    requires HeapTrace(ts, ops) && WellFormed(ts[0]) && k < |ts|
    ensures WellFormed(ts[k])
  {
    if k > 0 {
      TraceKeeps(ts, ops, k - 1);
      assert HeapStep(ts[k - 1], ops[k - 1], ts[k - 1 + 1]);
      StepKeeps(ts[k - 1], ops[k - 1], ts[k]);
    }
  }

  /** An allocation survives every run of calls that neither frees it nor frees harmfully. */
  lemma {:induction false} AllocationSurvives(ts: seq<seq<bv8>>, ops: seq<HeapOp>, j: nat, k: nat, s: nat)
    requires HeapTrace(ts, ops) && WellFormed(ts[0]) && j <= k < |ts| && Live(ts[j], s)
    requires forall i :: j <= i < k ==> ops[i] != Release(s) && Harmless(ts[i], ops[i])
    ensures Live(ts[k], s) && RunLength(ts[k], s) == RunLength(ts[j], s)
    decreases k
  {
    hide MallocStep, MarkFree, RunLength, WellFormed;
    if j < k {
      AllocationSurvives(ts, ops, j, k - 1, s);
      TraceKeeps(ts, ops, k - 1);
      assert HeapStep(ts[k - 1], ops[k - 1], ts[k - 1 + 1]);
      StepLeaves(ts[k - 1], ops[k - 1], ts[k], s);
    }
  }

  // ---------- two runs of a fresh heap ----------

  function FreshTable(): (t: seq<bv8>)
    ensures |t| == HEAP_BLOCKS
  {
    seq(HEAP_BLOCKS, _ => FREE)
  }

  /** Two blocks and then one are allocated in a fresh heap; freeing the first allocation frees both. */
  lemma NeighbourExample()
    ensures var t := FreshTable();
            var u := MarkTaken(t, 0, 2);
            var v := MarkTaken(u, 2, 1);
            && HeapStep(t, Alloc(2, Block(AddressOf(0))), u)
            && HeapStep(u, Alloc(1, Block(AddressOf(2))), v)
            && Live(v, 2) && HeapStep(v, Release(0), t)
  {
    hide RunEntry, MarkFree, Reach;
    var t := FreshTable();
    var u := MarkTaken(t, 0, 2);
    var v := MarkTaken(u, 2, 1);
    FreshStart(t);
    assert StartsAt(t, 2, 0);
    assert !IsFree(u[0]) && !IsFree(u[1]) && FreeRun(u, 2, 1);
    assert StartsAt(u, 1, 2);
    ClearsThree(v);
    forall i | 0 <= i < HEAP_BLOCKS ensures MarkFree(v, 0)[i] == t[i] {
      MarkFreeAt(v, 0, i);
    }
    assert MarkFree(v, 0) == t;
  }

  lemma FreshStart(t: seq<bv8>)
    requires t == FreshTable()
    ensures FreeRun(t, 0, 2)
  {
  }

  lemma ClearsThree(v: seq<bv8>)
    requires |v| == HEAP_BLOCKS && HasNext(v[0]) && HasNext(v[1]) && !HasNext(v[2])
    ensures Reach(v, 0) == 3
  {
    assert Reach(v, 2) == 1;
    assert Reach(v, 1) == 2;
  }

  /** With only the last block free, a request for two blocks is given that one. */
  lemma TailExample(t: seq<bv8>)
    requires |t| == HEAP_BLOCKS && IsFree(t[HEAP_BLOCKS - 1]) && forall i :: 0 <= i < HEAP_BLOCKS - 1 ==> !IsFree(t[i])
    ensures StartsAt(t, 2, HEAP_BLOCKS - 1) && !FreeRun(t, HEAP_BLOCKS - 1, 2)
    ensures MallocStep(t, 2, t, Overrun(HEAP_BLOCKS - 1))
  {
    TailIs(t, HEAP_BLOCKS - 1);
    forall s: nat ensures !FreeRun(t, s, 2) {
      if s + 2 <= HEAP_BLOCKS {
        assert !IsFree(t[s]);
      }
    }
  }
}
