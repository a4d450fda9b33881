/** What create_file and delete_file keep, one call at a time (src/fs/fat/fat12.c). */
module FileSystemLaws {
  import opened Bytes
  import opened Disk
  import opened FatTable
  import opened RootDir
  import opened DataRegion
  import opened FileSystem

  // ---------- create_file ----------

  /** A free entry and a free slot are there: exactly when create_file reports success. */
  predicate HasRoom(s: Fs, a: Args) {
    UnusedFrom(s.root, 0) < SLOTS && Clusters(a.size) <= |FreeList(s.table)|
  }

  /** What create_file reports, and when: a slot exactly when there is room for the file in table and directory. */
  lemma CreatedExactly(s: Fs, a: Args)
    requires a.Readable()
    ensures var r := Create(s, a).1;
            && (r.Created? <==> HasRoom(s, a))
            && (r.Created? <==> Clusters(a.size) <= |FreeList(s.table)| && exists i :: 0 <= i < SLOTS && !Live(s.root[i]))
            && (r.RootFull? <==> forall i :: 0 <= i < SLOTS ==> Live(s.root[i]))
            && (r.Created? ==> !Live(s.root[r.slot]) && forall j :: 0 <= j < r.slot ==> Live(s.root[j]))
            && (r.WildChain? ==> !Live(s.root[r.slot]) && forall j :: 0 <= j < r.slot ==> Live(s.root[j]))
  {
    hide Linked, Chained, WriteData, SaveTable, SaveRoot, FreeFrom, UnusedFrom;
    UnusedFromExactly(s.root, 0);
  }

  /**
   What a new slot holds, also when no clusters could be had: the characters of name and extension
   with spaces behind their ends, and the attribute, time and size that were given. No other slot
   changes.
   */
  lemma CreateStores(s: Fs, a: Args, i: nat)
    requires a.Readable() && i < SLOTS && Create(s, a).1 in {Created(i), WildChain(i)}
    ensures var e := Create(s, a).0; var f := e.root[i];
            && (forall k :: 0 <= k < 8 ==> f.name[k] == if k < |a.name| then a.name[k] else 32)
            && (forall k :: 0 <= k < 3 ==> f.ext[k] == if k < |a.ext| then a.ext[k] else 32)
            && f.attribute == a.attribute && f.stamp == a.stamp && f.size == a.size
            && (if Create(s, a).1 == WildChain(i) then f.firstCluster == 0x1_0000 - NO_MEMORY && e.disk == s.disk
                else FreeList(s.table) != [] && f.firstCluster - 233 == FreeList(s.table)[0])
            && forall j :: 0 <= j < SLOTS && j != i ==> e.root[j] == s.root[j]
  {
    hide Linked, Chained, WriteData, SaveTable, SaveRoot, FreeFrom, UnusedFrom, Padded;
    forall k | 0 <= k < 8 { PaddedAt(a.name, 8, k); }
    forall k | 0 <= k < 3 { PaddedAt(a.ext, 3, k); }
  }

  /** Without enough free clusters all of them end up linked in ascending order, the last one unchanged. */
  lemma FailedLinks(s: Fs, a: Args, k: nat)
    requires a.Readable() && |FreeList(s.table)| < Clusters(a.size) && k < |FreeList(s.table)|
    ensures var e, free := Create(s, a).0, FreeList(s.table);
            && e.table[free[k]] == (if k + 1 < |free| then free[k + 1] else FREE)
            && forall c: Cluster :: s.table[c] != FREE ==> e.table[c] == s.table[c]
  {
    hide FreeFrom, WriteData, SaveTable, SaveRoot, UnusedFrom, Linked;
    var free := FreeList(s.table);
    FreeFromExact(s.table, 0);
    LinkedAt(s.table, free, k);
    forall c: Cluster | s.table[c] != FREE ensures Linked(s.table, free)[c] == s.table[c] {
      LinkedElsewhere(s.table, free, c);
    }
  }

  lemma NewChainFacts(t: Table, size: uint32)
    requires Clusters(size) <= |FreeList(t)|
    ensures var cs := NewChain(t, size);
            && Ascending(cs)
            && (forall i :: 0 <= i < |cs| ==> t[cs[i]] == FREE)
            && Good(Chained(t, cs), cs[0]) && Walk(Chained(t, cs), cs[0]) == cs
            && forall c: Cluster :: c !in cs ==> Chained(t, cs)[c] == t[c]
  {
    FreeFromExact(t, 0);
    ChainedWalk(t, NewChain(t, size));
  }

  /** A new file's chain takes the lowest free clusters: every free cluster below one of them is also taken. */
  lemma TakesLowest(t: Table, size: uint32, c: Cluster, i: nat)
    requires Clusters(size) <= |FreeList(t)| && i < Clusters(size)
    requires t[c] == FREE && c < NewChain(t, size)[i]
    ensures c in NewChain(t, size)[..i]
  {
    FreeFromExact(t, 0);
    var free := FreeList(t);
    var j :| 0 <= j < |free| && free[j] == c;
    assert j < i;
    assert NewChain(t, size)[..i][j] == c;
  }

  /** The chain of another file is untouched by a create, and shares nothing with the new chain. */
  lemma OldChainKept(s: Fs, a: Args, j: nat)
    requires ChainsGood(s) && InUse(s, j) && a.Readable() && HasRoom(s, a)
    ensures var e, cs := Create(s, a).0, NewChain(s.table, a.size);
            && InUse(e, j) && e.root[j] == s.root[j]
            && Good(e.table, Start(e.root[j])) && ChainOf(e, j) == ChainOf(s, j)
            && forall c: Cluster :: c in ChainOf(s, j) ==> c !in cs
  {
    NewChainFacts(s.table, a.size);
    WalkFacts(s.table, Start(s.root[j]));
    WalkFrame(s.table, Create(s, a).0.table, Start(s.root[j]));
  }

  lemma NewSlotFacts(s: Fs, a: Args)
    requires a.Readable() && HasRoom(s, a)
    ensures var e, i, cs := Create(s, a).0, UnusedFrom(s.root, 0), NewChain(s.table, a.size);
            && Create(s, a).1 == Created(i) && InUse(e, i) && !InUse(s, i)
            && e.root[i].size == a.size
            && Good(e.table, Start(e.root[i])) && ChainOf(e, i) == cs
            && e.table == Chained(s.table, cs)
            && forall j :: InUse(e, j) && j != i ==> InUse(s, j)
  {
    NewChainFacts(s.table, a.size);
  }

  lemma CreateOnDisk(s: Fs, a: Args)
    requires a.Readable() && HasRoom(s, a)
    ensures OnDisk(Create(s, a).0)
  {
    hide EncodeTable, EncodeRoot, SaveTable, SaveRoot, WriteData, Slice;
    var e, cs := Create(s, a).0, NewChain(s.table, a.size);
    SaveBoth(WriteData(s.disk, cs, a.data, a.size), e.table, e.root);
  }

  lemma CreateChains(s: Fs, a: Args)
    requires Consistent(s) && a.Readable() && HasRoom(s, a)
    ensures ChainsGood(Create(s, a).0) && ChainsDisjoint(Create(s, a).0)
  {
    hide Create, Walk, Good, NewChain;
    var e, i := Create(s, a).0, UnusedFrom(s.root, 0);
    NewSlotFacts(s, a);
    forall j | InUse(s, j) {
      OldChainKept(s, a, j);
    }
  }

  lemma CreateCovered(s: Fs, a: Args)
    requires Consistent(s) && a.Readable() && HasRoom(s, a)
    requires ChainsGood(Create(s, a).0)
    ensures Covered(Create(s, a).0)
  {
    hide Create, Walk, Good, NewChain;
    var e, i, cs := Create(s, a).0, UnusedFrom(s.root, 0), NewChain(s.table, a.size);
    NewSlotFacts(s, a);
    NewChainFacts(s.table, a.size);
    forall c: Cluster | e.table[c] != FREE ensures Owned(e, c) {
      if c in cs {
        assert InUse(e, i) && c in ChainOf(e, i);
      } else {
        assert Owned(s, c);
        var j :| InUse(s, j) && c in ChainOf(s, j);
        OldChainKept(s, a, j);
        assert InUse(e, j) && c in ChainOf(e, j);
      }
    }
  }

  lemma CreateClean(s: Fs, a: Args)
    requires Clean(s) && a.Readable() && HasRoom(s, a)
    ensures Clean(Create(s, a).0)
  {
    hide Chained, WriteData, SaveTable, SaveRoot, UnusedFrom;
  }

  /** A successful create_file keeps the file system consistent. */
  lemma CreateKeeps(s: Fs, a: Args)
    requires Consistent(s) && a.Readable() && HasRoom(s, a)
    ensures Consistent(Create(s, a).0)
  {
    CreateChains(s, a);
    CreateCovered(s, a);
    CreateOnDisk(s, a);
    CreateClean(s, a);
  }

  /** What a create does to the data sectors. */
  lemma CreateSectors(s: Fs, a: Args)
    requires a.Readable() && HasRoom(s, a)
    ensures var e, cs := Create(s, a).0, NewChain(s.table, a.size);
            && (forall c: Cluster :: Sector(e.disk, c) == Sector(WriteData(s.disk, cs, a.data, a.size), c))
            && forall c: Cluster :: c !in cs ==> Sector(e.disk, c) == Sector(s.disk, c)
  {
    hide EncodeTable, EncodeRoot, SaveTable, SaveRoot, WriteData, Slice;
    var e, cs := Create(s, a).0, NewChain(s.table, a.size);
    NewChainFacts(s.table, a.size);
    SaveBoth(WriteData(s.disk, cs, a.data, a.size), e.table, e.root);
    WriteDataSectors(s.disk, cs, a.data, a.size);
  }

  /** The new file holds the bytes that were given, along its new chain. */
  lemma CreateHolds(s: Fs, a: Args)
    requires a.Readable() && HasRoom(s, a) && a.size <= MAX_SIZE
    ensures var e, i := Create(s, a).0, UnusedFrom(s.root, 0);
            && InUse(e, i) && Good(e.table, Start(e.root[i]))
            && a.size <= |ChainOf(e, i)| * SECTOR_SIZE && e.root[i].size == a.size
            && FileIn(e, i) == a.data[..a.size]
  {
    hide Create, Walk, Good, NewChain, WriteData, FileBytes, Sector;
    var e, i, cs := Create(s, a).0, UnusedFrom(s.root, 0), NewChain(s.table, a.size);
    NewSlotFacts(s, a);
    NewChainFacts(s.table, a.size);
    CreateSectors(s, a);
    WrittenBytes(s.disk, cs, a.data, a.size);
    FileBytesFrame(WriteData(s.disk, cs, a.data, a.size), e.disk, cs, a.size);
  }

  /** The files that were there keep their slot, their chain and their bytes. */
  lemma CreateLeaves(s: Fs, a: Args, j: nat)
    requires Consistent(s) && InUse(s, j) && s.root[j].size <= MAX_SIZE && a.Readable() && HasRoom(s, a)
    ensures var e := Create(s, a).0;
            && InUse(e, j) && e.root[j] == s.root[j]
            && Good(e.table, Start(e.root[j])) && ChainOf(e, j) == ChainOf(s, j)
            && FileIn(e, j) == FileIn(s, j)
  {
    hide Create, Walk, Good, NewChain, FileBytes, Sector;
    OldChainKept(s, a, j);
    CreateSectors(s, a);
    FileBytesFrame(s.disk, Create(s, a).0.disk, ChainOf(s, j), s.root[j].size);
  }

  /**
   create_file keeps the file system consistent exactly when it finds room, or changes nothing:
   a full directory together with at most one free cluster, which is too few. In every other
   case a chain is stranded or the new slot points outside the table.
   */
  lemma CreateExactly(s: Fs, a: Args)
    requires Consistent(s) && a.Readable()
    ensures Consistent(Create(s, a).0) <==>
            HasRoom(s, a) || (UnusedFrom(s.root, 0) == SLOTS && |FreeList(s.table)| <= 1 && |FreeList(s.table)| < Clusters(a.size))
  {
    hide Consistent, Create, FreeFrom, UnusedFrom;
    if HasRoom(s, a) {
      CreateKeeps(s, a);
    } else if UnusedFrom(s.root, 0) < SLOTS {
      WildSlot(s, a);
    } else if Clusters(a.size) <= |FreeList(s.table)| {
      StrandedChain(s, a);
    } else {
      StrandedLinks(s, a);
    }
  }

  lemma WildSlot(s: Fs, a: Args)
    requires a.Readable() && |FreeList(s.table)| < Clusters(a.size) && UnusedFrom(s.root, 0) < SLOTS
    ensures !Consistent(Create(s, a).0)
  {
    assert InUse(Create(s, a).0, UnusedFrom(s.root, 0));
  }

  lemma StrandedChain(s: Fs, a: Args)
    requires Consistent(s) && a.Readable()
    requires Clusters(a.size) <= |FreeList(s.table)| && UnusedFrom(s.root, 0) == SLOTS
    ensures !Consistent(Create(s, a).0)
  {
    hide Consistent, Walk, Good, Chained;
    var cs := NewChain(s.table, a.size);
    NewChainFacts(s.table, a.size);
    WalkFacts(Chained(s.table, cs), cs[0]);
    Stranded(s, Create(s, a).0, cs[0]);
  }

  lemma StrandedLinks(s: Fs, a: Args)
    requires Consistent(s) && a.Readable()
    requires |FreeList(s.table)| < Clusters(a.size) && UnusedFrom(s.root, 0) == SLOTS
    ensures Consistent(Create(s, a).0) <==> |FreeList(s.table)| <= 1
  {
    hide Consistent, FreeFrom;
    var free := FreeList(s.table);
    if |free| > 1 {
      FreeFromExact(s.table, 0);
      LinkedAt(s.table, free, 0);
      forall x: Cluster | s.table[x] != FREE ensures Linked(s.table, free)[x] == s.table[x] {
        LinkedElsewhere(s.table, free, x);
      }
      Stranded(s, Create(s, a).0, free[0]);
    }
  }

  /** Taking a free cluster without giving it to a file breaks consistency. */
  lemma Stranded(s: Fs, e: Fs, c: Cluster)
    requires Consistent(s) && e.root == s.root
    requires s.table[c] == FREE && e.table[c] != FREE
    requires forall x: Cluster :: s.table[x] != FREE ==> e.table[x] == s.table[x]
    ensures !Consistent(e)
  {
    hide Walk, Good, OnDisk;
    if Consistent(e) {
      assert Owned(e, c);
      var j :| InUse(e, j) && c in ChainOf(e, j);
      assert InUse(s, j);
      WalkFacts(s.table, Start(s.root[j]));
      WalkFrame(s.table, e.table, Start(s.root[j]));
    }
  }

  // ---------- delete_file ----------

  lemma DeleteFacts(s: Fs, query: CString)
    requires ChainsGood(s) && query != [] && FindFrom(s.root, query, 0) != -1
    ensures var i := FindFrom(s.root, query, 0);
            && InUse(s, i) && Good(s.table, Start(s.root[i]))
            && Delete(s, query).1 == Deleted(i)
            && Delete(s, query).0.table == Cleared(s.table, ChainOf(s, i))
            && Delete(s, query).0.root == s.root[i := BLANK]
  {
    MatchIsLive(s.root[FindFrom(s.root, query, 0)], query);
  }

  /** delete_file finds the first slot that agrees with the query on its first eight characters, or none. */
  lemma DeletedExactly(s: Fs, query: CString)
    ensures var r := Delete(s, query).1;
            && (r.DeleteNotFound? <==> forall i :: 0 <= i < SLOTS ==> !Matches(s.root[i], query))
            && (r.DeleteNotFound? ==> Delete(s, query).0 == s)
            && (!r.DeleteNotFound? ==>
                  && r.slot < SLOTS && Matches(s.root[r.slot], query)
                  && (forall j :: 0 <= j < r.slot ==> !Matches(s.root[j], query))
                  && (r.Deleted? <==> Good(s.table, Start(s.root[r.slot]))))
  {
    hide Matches, Good, Walk, Cleared, Zeroed, SaveTable, SaveRoot;
    forall i | 0 <= i < SLOTS && Matches(s.root[i], query) {
      FindIsFirst(s.root, query, 0, i);
    }
  }

  /** The sectors of the deleted file are zeroed and no other data sector changes. */
  lemma DeleteSectors(s: Fs, query: CString)
    requires ChainsGood(s) && query != [] && FindFrom(s.root, query, 0) != -1
    ensures var e, i := Delete(s, query).0, FindFrom(s.root, query, 0);
            && OnDisk(e)
            && InUse(s, i)
            && forall c: Cluster :: Sector(e.disk, c) == if c in ChainOf(s, i) then Zeros() else Sector(s.disk, c)
  {
    hide EncodeTable, EncodeRoot, SaveTable, SaveRoot, Zeroed, Slice, Sector, Zeros, Cleared;
    var e, i := Delete(s, query).0, FindFrom(s.root, query, 0);
    DeleteFacts(s, query);
    var cs := ChainOf(s, i);
    ZeroedSectors(s.disk, cs, |cs|);
    SaveBoth(Zeroed(s.disk, cs, |cs|), e.table, e.root);
  }

  lemma OtherChainKept(s: Fs, query: CString, j: nat)
    requires ChainsGood(s) && ChainsDisjoint(s) && query != [] && FindFrom(s.root, query, 0) != -1
    requires InUse(s, j) && j != FindFrom(s.root, query, 0)
    ensures var e, i := Delete(s, query).0, FindFrom(s.root, query, 0);
            && InUse(e, j) && e.root[j] == s.root[j]
            && Good(e.table, Start(e.root[j])) && ChainOf(e, j) == ChainOf(s, j)
            && InUse(s, i) && forall c: Cluster :: c in ChainOf(s, j) ==> c !in ChainOf(s, i)
  {
    hide Delete, Walk, Good, FindFrom;
    DeleteFacts(s, query);
    WalkFrame(s.table, Delete(s, query).0.table, Start(s.root[j]));
  }

  /** delete_file with a non-empty name keeps the file system consistent. */
  lemma DeleteKeeps(s: Fs, query: CString)
    requires Consistent(s) && query != []
    ensures Consistent(Delete(s, query).0)
  {
    if FindFrom(s.root, query, 0) != -1 {
      DeleteChains(s, query);
      DeleteCovered(s, query);
      DeleteSectors(s, query);
      DeleteFacts(s, query);
    }
  }

  /**
   On a consistent file system delete_file walks a chain that is not there, outside the table,
   exactly when it is given an empty name and the first slot is not in use.
   */
  lemma WildDeleteExactly(s: Fs, query: CString)
    requires Consistent(s)
    ensures Delete(s, query).1.DeleteWild? <==> query == [] && !InUse(s, 0)
  {
    var i := FindFrom(s.root, query, 0);
    if query == [] {
      FindIsFirst(s.root, query, 0, 0);
    } else if i != -1 {
      MatchIsLive(s.root[i], query);
    }
  }

  lemma DeleteChains(s: Fs, query: CString)
    requires Consistent(s) && query != [] && FindFrom(s.root, query, 0) != -1
    ensures ChainsGood(Delete(s, query).0) && ChainsDisjoint(Delete(s, query).0)
  {
    hide Delete, Walk, Good, Cleared;
    var e, i := Delete(s, query).0, FindFrom(s.root, query, 0);
    DeleteFacts(s, query);
    forall j | InUse(e, j) ensures InUse(s, j) && j != i {
    }
    forall j | InUse(e, j) {
      OtherChainKept(s, query, j);
    }
  }

  lemma DeleteCovered(s: Fs, query: CString)
    requires Consistent(s) && query != [] && FindFrom(s.root, query, 0) != -1
    requires ChainsGood(Delete(s, query).0)
    ensures Covered(Delete(s, query).0)
  {
    hide Delete, Walk, Good;
    var e, i := Delete(s, query).0, FindFrom(s.root, query, 0);
    DeleteFacts(s, query);
    forall c: Cluster | e.table[c] != FREE ensures Owned(e, c) {
      assert Owned(s, c);
      var j :| InUse(s, j) && c in ChainOf(s, j);
      OtherChainKept(s, query, j);
      assert InUse(e, j) && c in ChainOf(e, j);
    }
  }

  /** Every file but the deleted one keeps its slot, its chain and its bytes. */
  lemma DeleteLeaves(s: Fs, query: CString, j: nat)
    requires Consistent(s) && query != [] && InUse(s, j) && s.root[j].size <= MAX_SIZE
    requires j != FindFrom(s.root, query, 0)
    ensures var e := Delete(s, query).0;
            && InUse(e, j) && e.root[j] == s.root[j]
            && Good(e.table, Start(e.root[j])) && ChainOf(e, j) == ChainOf(s, j)
            && FileIn(e, j) == FileIn(s, j)
  {
    hide Delete, Walk, Good, FileBytes, Sector, Zeros;
    if FindFrom(s.root, query, 0) != -1 {
      OtherChainKept(s, query, j);
      DeleteSectors(s, query);
      FileBytesFrame(s.disk, Delete(s, query).0.disk, ChainOf(s, j), s.root[j].size);
    } else {
      assert Delete(s, query).0 == s by { DeleteNothing(s, query); }
    }
  }

  lemma DeleteNothing(s: Fs, query: CString)
    requires FindFrom(s.root, query, 0) == -1
    ensures Delete(s, query) == (s, DeleteNotFound)
  {
  }

  /** Exactly the entries of the deleted chain become free; no other entry changes. */
  lemma DeleteFreesExactly(s: Fs, query: CString, c: Cluster)
    requires Consistent(s) && query != [] && FindFrom(s.root, query, 0) != -1
    ensures var i := FindFrom(s.root, query, 0);
            && InUse(s, i)
            && (s.table[c] != FREE && Delete(s, query).0.table[c] == FREE <==> c in ChainOf(s, i))
            && (c !in ChainOf(s, i) ==> Delete(s, query).0.table[c] == s.table[c])
  {
    var i := FindFrom(s.root, query, 0);
    DeleteFacts(s, query);
    WalkFacts(s.table, Start(s.root[i]));
  }

  /** Creating a file and then deleting that same slot restores the table, entry by entry. */
  lemma CreateThenDelete(s: Fs, a: Args, query: CString)
    requires ChainsGood(s) && a.Readable() && HasRoom(s, a)
    requires FindFrom(Create(s, a).0.root, query, 0) == UnusedFrom(s.root, 0)
    ensures var e := Delete(Create(s, a).0, query).0;
            && e.table == s.table && e.root == s.root[UnusedFrom(s.root, 0) := BLANK]
            && (Clean(s) ==> e.root == s.root)
  {
    hide SaveTable, SaveRoot, WriteData, Zeroed, Walk, Good, FindFrom, FreeFrom, Chained, Cleared, EncodeSlot;
    NewSlotFacts(s, a);
    NewChainFacts(s.table, a.size);
    AllocateThenFree(s.table, NewChain(s.table, a.size));
  }
}
