/**
 The block table of the kernel heap (src/memory/heap/heap.c): one byte for each 4096-byte block,
 with flags for the first block of an allocation and for "another block follows".
 */
module HeapTable {
  import opened Bytes

  const FREE: bv8 := 0x00
  const TAKEN: bv8 := 0x01
  const IS_FIRST: bv8 := 0x40
  const HAS_NEXT: bv8 := 0x80
  const BLOCK_SIZE := 4096

  predicate IsFree(e: bv8) {
    e & 0x0f == FREE
  }

  predicate First(e: bv8) {
    e & IS_FIRST != 0
  }

  predicate HasNext(e: bv8) {
    e & HAS_NEXT != 0
  }

  // ---------- the shape of a table ----------

  /** The four values a table entry takes: free, a lone block, the first of several, a later one. */
  predicate Legal(e: bv8) {
    e == 0x00 || e == 0x41 || e == 0xC1 || e == 0x81
  }

  /** Entry `i` fits its neighbours: only a first block with HAS_NEXT, and always that one, has a later block behind it. */
  predicate Fits(t: seq<bv8>, i: nat)
    requires i < |t|
  {
    && Legal(t[i])
    && (t[i] == 0xC1 ==> i + 1 < |t| && t[i + 1] == 0x81)
    && (t[i] == 0x81 ==> i > 0 && HasNext(t[i - 1]))
  }

  /** The table splits into free blocks and whole runs. */
  predicate WellFormed(t: seq<bv8>) {
    forall i :: 0 <= i < |t| ==> Fits(t, i)
  }

  /** A block that belongs to the run of the block before it. */
  predicate Later(t: seq<bv8>, i: nat) {
    i < |t| && !IsFree(t[i]) && !First(t[i])
  }

  /** The number of blocks from `i` to the end of its run. */
  function RunLength(t: seq<bv8>, i: nat): (n: nat)
    requires i < |t|
    ensures 1 <= n <= |t| - i
    decreases |t| - i
  {
    if Later(t, i + 1) then 1 + RunLength(t, i + 1) else 1
  }

  /** A live allocation: a run that starts at `s`. */
  predicate Live(t: seq<bv8>, s: nat) {
    s < |t| && !IsFree(t[s]) && First(t[s])
  }

  /**
   The blocks of a run are taken, only its first one is FIRST, and all of them have HAS_NEXT when
   there are several: heap_mark_blocks_taken sets the flag on the last one too.
   */
  lemma {:induction false} RunBlocks(t: seq<bv8>, s: nat, i: nat)
    requires WellFormed(t) && s < |t| && !IsFree(t[s]) && s <= i < s + RunLength(t, s)
    ensures !IsFree(t[i]) && (s < i ==> !First(t[i])) && (HasNext(t[i]) <==> HasNext(t[s]))
    ensures Live(t, s) ==> (HasNext(t[s]) <==> RunLength(t, s) > 1)
    decreases i - s
  {
    assert Fits(t, s);
    if s + 1 < |t| {
      assert Fits(t, s + 1);
    }
    if s < i {
      RunBlocks(t, s + 1, i);
    }
  }

  /** Behind the last block of a run there is no later block. */
  lemma {:induction false} RunEnds(t: seq<bv8>, s: nat)
    requires s < |t|
    ensures !Later(t, s + RunLength(t, s))
    decreases |t| - s
  {
    if Later(t, s + 1) {
      RunEnds(t, s + 1);
    }
  }

  /** Every taken block lies in exactly one live run. */
  lemma {:induction false} InOneRun(t: seq<bv8>, i: nat) returns (s: nat)
    requires WellFormed(t) && i < |t| && !IsFree(t[i])
    ensures Live(t, s) && s <= i < s + RunLength(t, s)
    ensures forall r: nat :: Live(t, r) && r <= i < r + RunLength(t, r) ==> r == s
    decreases i
  {
    assert Fits(t, i);
    if First(t[i]) {
      s := i;
    } else {
      assert Fits(t, i - 1);
      s := InOneRun(t, i - 1);
      assert i < s + RunLength(t, s) by { RunEnds(t, s); }
    }
    forall r: nat | Live(t, r) && r <= i < r + RunLength(t, r) ensures r == s {
      if r < s { RunBlocks(t, r, s); }
      if s < r { RunBlocks(t, s, r); }
    }
  }

  /** Two live runs do not overlap. */
  lemma RunsDisjoint(t: seq<bv8>, r: nat, s: nat)
    requires WellFormed(t) && Live(t, r) && Live(t, s) && r < s
    ensures r + RunLength(t, r) <= s
  {
    if s < r + RunLength(t, r) {
      RunBlocks(t, r, s);
    }
  }

  // ---------- searching ----------

  /** `n` free blocks from `s` on. */
  predicate FreeRun(t: seq<bv8>, s: nat, n: nat) {
    s + n <= |t| && forall i :: s <= i < s + n ==> IsFree(t[i])
  }

  predicate FirstFit(t: seq<bv8>, s: nat, n: nat) {
    FreeRun(t, s, n) && forall r :: 0 <= r < s ==> !FreeRun(t, r, n)
  }

  /** The first block of the free blocks at the end of the table; the table's length when there is none. */
  function TailStart(t: seq<bv8>): (s: nat)
    ensures s <= |t| && FreeRun(t, s, |t| - s) && (s > 0 ==> !IsFree(t[s - 1]))
  {
    if t == [] || !IsFree(t[|t| - 1]) then |t| else TailStart(t[..|t| - 1])
  }

  /** What heap_get_start_block returns when no run is long enough: the free tail, whatever its length. */
  function TailOrNone(t: seq<bv8>): int {
    if TailStart(t) < |t| then TailStart(t) else -NO_MEMORY
  }

  /** heap_get_start_block's result, for a request of `n` blocks. */
  ghost predicate StartsAt(t: seq<bv8>, n: nat, r: int) {
    if n > 0 && exists s :: FreeRun(t, s, n) then r >= 0 && FirstFit(t, r, n) else r == TailOrNone(t)
  }

  /** The result determines itself. */
  lemma StartIsUnique(t: seq<bv8>, n: nat, r: int, q: int)
    requires StartsAt(t, n, r) && StartsAt(t, n, q)
    ensures r == q
  {
  }

  /**
   The search is right (a free run of the length asked for, or a failure) exactly when there is
   such a run or the last block is taken; otherwise a free tail that is too short is returned.
   */
  lemma SearchExactly(t: seq<bv8>, n: nat, r: int)
    requires n > 0 && t != [] && StartsAt(t, n, r)
    ensures (r < 0 || FreeRun(t, r, n)) <==> (exists s :: FreeRun(t, s, n)) || !IsFree(t[|t| - 1])
  {
  }

  // ---------- marking ----------

  /** The entry of the k-th of `n` blocks: the flag for a next block is on every later block. */
  function RunEntry(n: nat, k: nat): (e: bv8)
    requires k < n
    ensures Legal(e) && !IsFree(e) && (First(e) <==> k == 0) && (HasNext(e) <==> n > 1)
  {
    (if k == 0 then TAKEN | IS_FIRST else TAKEN) | (if n > 1 then HAS_NEXT else 0)
  }

  /** heap_mark_blocks_taken. */
  function MarkTaken(t: seq<bv8>, s: nat, n: nat): (u: seq<bv8>)
    requires s + n <= |t|
    ensures |u| == |t|
  {
    seq(|t|, i requires 0 <= i < |t| => if s <= i < s + n then RunEntry(n, i - s) else t[i])
  }

  lemma MarkTakenAt(t: seq<bv8>, s: nat, n: nat, i: nat)
    requires s + n <= |t| && i < |t|
    ensures MarkTaken(t, s, n)[i] == if s <= i < s + n then RunEntry(n, i - s) else t[i]
  {
  }

  /** heap_mark_blocks_free: blocks are freed up to the first one without HAS_NEXT. */
  function MarkFree(t: seq<bv8>, s: nat): (u: seq<bv8>)
    ensures |u| == |t|
    decreases |t| - s
  {
    if s >= |t| then t
    else if HasNext(t[s]) then MarkFree(t[s := FREE], s + 1)
    else t[s := FREE]
  }

  /** The number of blocks that heap_mark_blocks_free clears. */
  function Reach(t: seq<bv8>, s: nat): (n: nat)
    requires s < |t|
    ensures 1 <= n <= |t| - s
    decreases |t| - s
  {
    if HasNext(t[s]) && s + 1 < |t| then 1 + Reach(t, s + 1) else 1
  }

  lemma {:induction false} MarkFreeAt(t: seq<bv8>, s: nat, i: nat)
    requires s < |t| && i < |t|
    ensures MarkFree(t, s)[i] == if s <= i < s + Reach(t, s) then FREE else t[i]
    decreases |t| - s
  {
    if HasNext(t[s]) && s + 1 < |t| {
      MarkFreeAt(t[s := FREE], s + 1, i);
      SameReach(t, t[s := FREE], s + 1);
    }
  }

  lemma {:induction false} SameReach(t: seq<bv8>, u: seq<bv8>, s: nat)
    requires |t| == |u| && s < |t| && forall i :: s <= i < |t| ==> u[i] == t[i]
    ensures Reach(u, s) == Reach(t, s)
    decreases |t| - s
  {
    if s + 1 < |t| {
      SameReach(t, u, s + 1);
    }
  }

  /** The clearing stops behind a block without HAS_NEXT, or at the end of the table. */
  lemma {:induction false} ReachStops(t: seq<bv8>, s: nat)
    requires s < |t|
    ensures s + Reach(t, s) == |t| || !HasNext(t[s + Reach(t, s) - 1])
    ensures forall i :: s <= i < s + Reach(t, s) - 1 ==> HasNext(t[i])
    decreases |t| - s
  {
    if HasNext(t[s]) && s + 1 < |t| {
      ReachStops(t, s + 1);
    }
  }

  /** A table in which the blocks of one run are free, the intended effect of heap_free. */
  function WithoutRun(t: seq<bv8>, s: nat): (u: seq<bv8>)
    requires s < |t|
  {
    seq(|t|, i requires 0 <= i < |t| => if s <= i < s + RunLength(t, s) then FREE else t[i])
  }

  // ---------- what allocating keeps ----------

  /** A run's length depends on its blocks and on the one behind it. */
  lemma {:induction false} SameRun(t: seq<bv8>, u: seq<bv8>, s: nat)
    requires |t| == |u| && s < |t|
    requires forall i :: s <= i < s + RunLength(t, s) ==> u[i] == t[i]
    requires Later(u, s + RunLength(t, s)) == Later(t, s + RunLength(t, s))
    ensures RunLength(u, s) == RunLength(t, s)
    decreases |t| - s
  {
    if Later(t, s + 1) {
      SameRun(t, u, s + 1);
    }
  }

  lemma {:induction false} TakenLength(t: seq<bv8>, s: nat, n: nat, k: nat)
    requires s + n <= |t| && k < n && !Later(t, s + n)
    ensures RunLength(MarkTaken(t, s, n), s + k) == n - k
    decreases n - k
  {
    if s + k + 1 < |t| {
      MarkTakenAt(t, s, n, s + k + 1);
    }
    if k + 1 < n {
      TakenLength(t, s, n, k + 1);
    }
  }

  /** A new run in free blocks: the table stays well formed and the run has the length asked for. */
  lemma MallocKeeps(t: seq<bv8>, s: nat, n: nat)
    requires WellFormed(t) && FreeRun(t, s, n) && n > 0
    ensures var u := MarkTaken(t, s, n);
            WellFormed(u) && Live(u, s) && RunLength(u, s) == n
  {
    var u := MarkTaken(t, s, n);
    forall i | 0 <= i < |u| ensures u[i] == if s <= i < s + n then RunEntry(n, i - s) else t[i] {
      MarkTakenAt(t, s, n, i);
    }
    if s + n < |t| {
      assert Fits(t, s + n) && Fits(t, s + n - 1);
    }
    TakenLength(t, s, n, 0);
    hide MarkTaken, RunEntry, RunLength;
    forall i | 0 <= i < |u| ensures Fits(u, i) {
      assert Fits(t, i);
      if i == s + n {
        assert Fits(t, i - 1);
      }
    }
  }

  /** The new run shares no block with a live run, which keeps its blocks. */
  lemma MallocLeaves(t: seq<bv8>, s: nat, n: nat, r: nat)
    requires WellFormed(t) && FreeRun(t, s, n) && n > 0 && Live(t, r)
    ensures r + RunLength(t, r) <= s || s + n <= r
    ensures var u := MarkTaken(t, s, n);
            Live(u, r) && RunLength(u, r) == RunLength(t, r)
  {
    forall i | r <= i < r + RunLength(t, r) ensures !IsFree(t[i]) {
      RunBlocks(t, r, i);
    }
    if r < s < r + RunLength(t, r) {
      assert !IsFree(t[s]);
    }
    RunEnds(t, r);
    SameRun(t, MarkTaken(t, s, n), r);
  }

  // ---------- what freeing keeps ----------

  /** Freeing keeps the table well formed, whatever it clears. */
  lemma FreeKeeps(t: seq<bv8>, s: nat)
    requires WellFormed(t) && Live(t, s)
    ensures WellFormed(MarkFree(t, s))
  {
    var u, n := MarkFree(t, s), Reach(t, s);
    forall i | 0 <= i < |t| ensures u[i] == if s <= i < s + n then FREE else t[i] {
      MarkFreeAt(t, s, i);
    }
    ReachStops(t, s);
    hide MarkFree, Reach;
    forall i | 0 <= i < |u| ensures Fits(u, i) {
      assert Fits(t, i);
      if i + 1 == s {
        assert Fits(t, s);
      }
    }
  }

  /** At least the run is cleared, and one block more when it has several blocks and more follow. */
  lemma {:induction false} ReachOfRun(t: seq<bv8>, s: nat)
    requires WellFormed(t) && s < |t| && !IsFree(t[s])
    ensures !HasNext(t[s]) ==> Reach(t, s) == 1
    ensures HasNext(t[s]) ==>
              var e := s + RunLength(t, s);
              s + Reach(t, s) == if e == |t| then e else e + Reach(t, e)
    decreases |t| - s
  {
    assert Fits(t, s);
    if Later(t, s + 1) {
      assert Fits(t, s + 1);
      ReachOfRun(t, s + 1);
    }
  }

  /**
   heap_free clears exactly the run of its pointer if and only if the run is a single block, ends
   the table, or is followed by a free block.
   */
  lemma FreeExactly(t: seq<bv8>, s: nat)
    requires WellFormed(t) && Live(t, s)
    ensures var e := s + RunLength(t, s);
            MarkFree(t, s) == WithoutRun(t, s) <==> RunLength(t, s) == 1 || e == |t| || IsFree(t[e])
  {
    var n := RunLength(t, s);
    var e := s + n;
    forall i | 0 <= i < |t| ensures MarkFree(t, s)[i] == if s <= i < s + Reach(t, s) then FREE else t[i] {
      MarkFreeAt(t, s, i);
    }
    RunBlocks(t, s, s);
    ReachOfRun(t, s);
    assert Fits(t, s);
    if e < |t| {
      assert Fits(t, e);
      assert WithoutRun(t, s)[e] == t[e];
      if n > 1 && IsFree(t[e]) {
        assert Reach(t, e) == 1;
        assert MarkFree(t, s) == WithoutRun(t, s);
      }
    }
  }

  /** In the remaining case the allocation right behind it, still in use, is lost as well. */
  lemma FreeHitsNeighbour(t: seq<bv8>, s: nat)
    requires WellFormed(t) && Live(t, s) && RunLength(t, s) > 1
    requires var e := s + RunLength(t, s); e < |t| && !IsFree(t[e])
    ensures var e := s + RunLength(t, s); Live(t, e) && !Live(MarkFree(t, s), e)
  {
    var e := s + RunLength(t, s);
    RunEnds(t, s);
    RunBlocks(t, s, s);
    ReachOfRun(t, s);
    MarkFreeAt(t, s, e);
  }

  /** When heap_free is exact, every other live run survives it. */
  lemma FreeLeaves(t: seq<bv8>, s: nat, r: nat)
    requires WellFormed(t) && Live(t, s) && Live(t, r) && r != s
    requires MarkFree(t, s) == WithoutRun(t, s)
    ensures Live(MarkFree(t, s), r) && RunLength(MarkFree(t, s), r) == RunLength(t, r)
  {
    if r < s { RunsDisjoint(t, r, s); } else { RunsDisjoint(t, s, r); }
    RunEnds(t, r);
    RunEnds(t, s);
    SameRun(t, MarkFree(t, s), r);
  }

  /** Freeing what was just allocated restores the table exactly under the same condition. */
  lemma FreeUndoesMalloc(t: seq<bv8>, s: nat, n: nat)
    requires WellFormed(t) && FreeRun(t, s, n) && n > 0
    ensures MarkFree(MarkTaken(t, s, n), s) == t <==> n == 1 || s + n == |t| || IsFree(t[s + n])
  {
    var u := MarkTaken(t, s, n);
    MallocKeeps(t, s, n);
    FreeExactly(u, s);
    forall i | 0 <= i < |t| ensures WithoutRun(u, s)[i] == t[i] {
      assert Fits(t, i);
    }
    assert WithoutRun(u, s) == t;
  }
}
