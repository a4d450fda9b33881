/**
 The linked-cluster table of src/fs/fat/fat12.c: one 16-bit entry per cluster, 0 for a free
 cluster, 0xFFF for the last cluster of a file, otherwise the number of the next cluster.
 */
module FatTable {
  import opened Bytes

  const ENTRIES := 2648
  const FREE := 0
  const END_OF_FILE := 0xFFF
  const DATA_SECTOR := 233

  /** The table as a value. Every link fits below END_OF_FILE because the table is short. */
  type Table = t: seq<uint16> | |t| == ENTRIES witness seq(ENTRIES, _ => 0)

  type Cluster = c: nat | c < ENTRIES

  predicate Ascending(cs: seq<Cluster>) {
    forall i, j :: 0 <= i < j < |cs| ==> cs[i] < cs[j]
  }

  // ---------- free entries ----------

  /** The free entries from `from` on, lowest first. */
  function FreeFrom(t: Table, from: nat): seq<Cluster>
    requires from <= ENTRIES
    decreases |t| - from
  {
    if from == ENTRIES then []
    else if t[from] == FREE then [from] + FreeFrom(t, from + 1)
    else FreeFrom(t, from + 1)
  }

  /** `FreeFrom` lists exactly the free entries, in ascending order. */
  lemma {:induction false} FreeFromExact(t: Table, from: nat)
    requires from <= ENTRIES
    ensures Ascending(FreeFrom(t, from))
    ensures forall i :: 0 <= i < |FreeFrom(t, from)| ==>
              from <= FreeFrom(t, from)[i] && t[FreeFrom(t, from)[i]] == FREE
    ensures forall c: Cluster :: from <= c && t[c] == FREE ==> c in FreeFrom(t, from)
    decreases ENTRIES - from
  {
    if from < ENTRIES {
      FreeFromExact(t, from + 1);
    }
  }

  function FreeList(t: Table): seq<Cluster> {
    FreeFrom(t, 0)
  }

  /** After the i-th free entry, the next one is the (i+1)-th. */
  lemma {:induction false} FreeAfter(t: Table, from: nat, i: nat)
    requires from <= ENTRIES && i < |FreeFrom(t, from)|
    ensures var c: nat := FreeFrom(t, from)[i];
            FreeFrom(t, c + 1) == FreeFrom(t, from)[i + 1..]
    decreases ENTRIES - from
  {
    if t[from] != FREE {
      FreeAfter(t, from + 1, i);
    } else if i > 0 {
      FreeAfter(t, from + 1, i - 1);
    }
  }

  /** Tables that agree from `from` on have the same free entries there. */
  lemma {:induction false} FreeFromCong(t: Table, u: Table, from: nat)
    requires from <= ENTRIES && forall c: Cluster :: from <= c ==> t[c] == u[c]
    ensures FreeFrom(t, from) == FreeFrom(u, from)
    decreases ENTRIES - from
  {
    if from < ENTRIES {
      FreeFromCong(t, u, from + 1);
    }
  }

  /** find_next_free: the lowest free entry from `from` on, or -1. */
  method FindNextFree(table: array<uint16>, from: nat) returns (r: int)
    requires table.Length == ENTRIES && from <= ENTRIES
    ensures var free := FreeFrom(table[..], from);
            r == if free == [] then -1 else free[0]
  {
    var i := from;
    while i < ENTRIES
      invariant from <= i <= ENTRIES
      invariant FreeFrom(table[..], i) == FreeFrom(table[..], from)
    {
      if table[i] == FREE {
        return i;
      }
      i := i + 1;
    }
    return -1;
  }

  // ---------- linking ----------

  /** Each entry of `cs` but the last points to the next one. */
  function Linked(t: Table, cs: seq<Cluster>): (u: Table)
  {
    if |cs| <= 1 then t
    else Linked(t, cs[..|cs| - 1])[cs[|cs| - 2] := cs[|cs| - 1]]
  }

  /** `cs` as a complete chain: linked, and terminated. */
  function Chained(t: Table, cs: seq<Cluster>): (u: Table)
    requires cs != []
  {
    Linked(t, cs)[cs[|cs| - 1] := END_OF_FILE]
  }

  /** `Linked`, entry by entry. */
  lemma {:induction false} LinkedAt(t: Table, cs: seq<Cluster>, i: nat)
    requires Ascending(cs) && i < |cs|
    ensures Linked(t, cs)[cs[i]] == if i + 1 < |cs| then cs[i + 1] else t[cs[i]]
  {
    if i + 1 == |cs| {
      LinkedElsewhere(t, cs[..i], cs[i]);
    } else if i + 2 < |cs| {
      LinkedAt(t, cs[..|cs| - 1], i);
    }
  }

  lemma {:induction false} LinkedElsewhere(t: Table, cs: seq<Cluster>, c: Cluster)
    requires c !in cs
    ensures Linked(t, cs)[c] == t[c]
  {
    if |cs| > 1 {
      LinkedElsewhere(t, cs[..|cs| - 1], c);
    }
  }

  /** The number of clusters fat12_allocate links; `size + 511` is a 32-bit sum. */
  function Clusters(size: uint32): (k: nat)
    ensures 1 <= k
    ensures size <= 0xFFFF_FE00 ==> (k - 1) * 512 <= size <= k * 512 && (k > 1 ==> (k - 1) * 512 < size)
    ensures size > 0xFFFF_FE00 ==> k == 1
  {
    var sectors := (size + 511) % 0x1_0000_0000 / 512;
    if sectors == 0 then 1 else sectors
  }

  /** The clusters hold `size` bytes exactly when the 32-bit sum does not wrap around. */
  lemma SizeFits(size: uint32)
    ensures size <= Clusters(size) * 512 <==> size <= 0xFFFF_FE00
  {
  }

  /**
   fat12_allocate. It succeeds exactly when there are enough free entries, and then chains the
   lowest of them. When there are too few it leaves all of them linked but not terminated.
   */
  method Allocate(table: array<uint16>, size: uint32) returns (r: int)
    requires table.Length == ENTRIES
    modifies table
    ensures var free := FreeList(old(table[..]));
            if Clusters(size) <= |free|
            then r == DATA_SECTOR + free[0] && table[..] == Chained(old(table[..]), free[..Clusters(size)])
            else r == -NO_MEMORY && table[..] == Linked(old(table[..]), free)
  {
    ghost var t, free := table[..], FreeList(table[..]);
    var needed := (size + 511) % 0x1_0000_0000 / 512;
    var first := FindNextFree(table, 0);
    if first == -1 {
      return -NO_MEMORY;
    }
    var current := first;
    var i := 1;
    while i < needed
      invariant 1 <= i <= Clusters(size) && i <= |free|
      invariant current == free[i - 1]
      invariant table[..] == Linked(t, free[..i])
    {
      NextIsFree(t, i);
      var next := FindNextFree(table, current + 1);
      if next == -1 {
        assert free[..i] == free;
        return -NO_MEMORY;
      }
      LinkOneMore(t, free, i);
      table[current] := next;
      current := next;
      i := i + 1;
    }
    table[current] := END_OF_FILE;
    return DATA_SECTOR + first;
  }

  lemma LinkOneMore(t: Table, cs: seq<Cluster>, i: nat)
    requires 1 <= i < |cs|
    ensures Linked(t, cs[..i + 1]) == Linked(t, cs[..i])[cs[i - 1] := cs[i]]
  {
    assert cs[..i + 1][..i] == cs[..i];
  }

  /** Linking the first `i` free entries leaves the search for the next one unchanged. */
  lemma NextIsFree(t: Table, i: nat)
    requires 1 <= i <= |FreeList(t)|
    ensures var c: nat := FreeList(t)[i - 1];
            FreeFrom(Linked(t, FreeList(t)[..i]), c + 1) == FreeList(t)[i..]
  {
    var free := FreeList(t);
    var c: nat := free[i - 1];
    FreeFromExact(t, 0);
    forall x: Cluster | c + 1 <= x ensures Linked(t, free[..i])[x] == t[x] {
      LinkedElsewhere(t, free[..i], x);
    }
    FreeFromCong(t, Linked(t, free[..i]), c + 1);
    FreeAfter(t, 0, i - 1);
  }

  // ---------- walking ----------

  /** Following the links from `c` moves strictly upwards until END_OF_FILE. */
  predicate Good(t: Table, c: int)
    decreases ENTRIES - c
  {
    0 <= c < ENTRIES && (t[c] == END_OF_FILE || (c < t[c] && Good(t, t[c])))
  }

  /** The clusters visited from `c` to the end of the chain. */
  function Walk(t: Table, c: int): (cs: seq<Cluster>)
    requires Good(t, c)
    ensures cs != []
    decreases ENTRIES - c
  {
    if t[c] == END_OF_FILE then [c] else [c] + Walk(t, t[c])
  }

  /** A walk starts at `c`, goes strictly upwards through entries in use, and ends in END_OF_FILE. */
  lemma WalkFacts(t: Table, c: int)
    requires Good(t, c)
    ensures var cs := Walk(t, c);
            && cs[0] == c && t[cs[|cs| - 1]] == END_OF_FILE && Ascending(cs)
            && forall i :: 0 <= i < |cs| ==> t[cs[i]] != FREE
  {
    WalkInUse(t, c);
    WalkAscends(t, c);
  }

  lemma {:induction false} WalkInUse(t: Table, c: int)
    requires Good(t, c)
    ensures var cs := Walk(t, c);
            && cs[0] == c && t[cs[|cs| - 1]] == END_OF_FILE
            && forall i :: 0 <= i < |cs| ==> c <= cs[i] && t[cs[i]] != FREE
    decreases ENTRIES - c
  {
    if t[c] != END_OF_FILE {
      WalkInUse(t, t[c]);
    }
  }

  lemma {:induction false} WalkAscends(t: Table, c: int)
    requires Good(t, c)
    ensures Ascending(Walk(t, c))
    decreases ENTRIES - c
  {
    if t[c] != END_OF_FILE {
      WalkAscends(t, t[c]);
      WalkInUse(t, t[c]);
      var rest := Walk(t, t[c]);
      assert Ascending([c] + rest);
    }
  }

  /** A chain depends only on its own entries. */
  lemma {:induction false} WalkFrame(t: Table, u: Table, c: int)
    requires Good(t, c) && forall x :: x in Walk(t, c) ==> u[x] == t[x]
    ensures Good(u, c) && Walk(u, c) == Walk(t, c)
    decreases ENTRIES - c
  {
    assert Walk(t, c)[0] == c;
    if t[c] != END_OF_FILE {
      WalkFrame(t, u, t[c]);
    }
  }

  /** The entry that belongs at the i-th cluster of the chain `cs`. */
  function Next(cs: seq<Cluster>, i: nat): nat
    requires i < |cs|
  {
    if i + 1 < |cs| then cs[i + 1] else END_OF_FILE
  }

  /** Entries that point to each other in ascending order and end in END_OF_FILE are what a walk finds. */
  lemma {:induction false} WalkOf(t: Table, cs: seq<Cluster>)
    requires cs != [] && Ascending(cs)
    requires forall i :: 0 <= i < |cs| ==> t[cs[i]] == Next(cs, i)
    ensures Good(t, cs[0]) && Walk(t, cs[0]) == cs
  {
    if |cs| > 1 {
      var rest := cs[1..];
      forall i | 0 <= i < |rest| ensures t[rest[i]] == Next(rest, i) {
        assert rest[i] == cs[i + 1] && Next(rest, i) == Next(cs, i + 1);
      }
      WalkOf(t, rest);
    }
  }

  /** Walking a chain just made finds exactly the entries it was made of; no other entry changed. */
  lemma ChainedWalk(t: Table, cs: seq<Cluster>)
    requires cs != [] && Ascending(cs)
    ensures var u := Chained(t, cs);
            Good(u, cs[0]) && Walk(u, cs[0]) == cs && forall c: Cluster :: c !in cs ==> u[c] == t[c]
  {
    var u := Chained(t, cs);
    forall c: Cluster | c !in cs ensures u[c] == t[c] {
      LinkedElsewhere(t, cs, c);
    }
    forall i | 0 <= i < |cs| ensures u[cs[i]] == Next(cs, i) {
      LinkedAt(t, cs, i);
    }
    WalkOf(u, cs);
  }

  /** Along a walk every entry holds the next cluster, and the last one END_OF_FILE. */
  lemma {:induction false} WalkLinks(t: Table, c: int, i: nat)
    requires Good(t, c) && i < |Walk(t, c)|
    ensures t[Walk(t, c)[i]] == Next(Walk(t, c), i)
    decreases ENTRIES - c
  {
    if t[c] != END_OF_FILE {
      assert Walk(t, t[c])[0] == t[c] by { WalkInUse(t, t[c]); }
      if i > 0 {
        WalkLinks(t, t[c], i - 1);
      }
    }
  }

  /** A chain has at most as many clusters as there are entries. */
  lemma {:induction false} ChainLength(cs: seq<Cluster>, i: nat)
    requires Ascending(cs) && i < |cs|
    ensures i <= cs[i]
  {
    if i > 0 {
      ChainLength(cs, i - 1);
    }
  }

  // ---------- freeing ----------

  /** `t` with the entries of `cs` free. */
  function Cleared(t: Table, cs: seq<Cluster>): (u: Table) {
    seq(ENTRIES, c requires 0 <= c < ENTRIES => if c in cs then FREE else t[c])
  }

  /** Freeing a chain just made restores the table. */
  lemma AllocateThenFree(t: Table, cs: seq<Cluster>)
    requires cs != [] && Ascending(cs) && forall i :: 0 <= i < |cs| ==> t[cs[i]] == FREE
    ensures var u := Chained(t, cs);
            Good(u, cs[0]) && Cleared(u, Walk(u, cs[0])) == t
  {
    ChainedWalk(t, cs);
  }
}
