/** create_process, start_processes, process_exit and the tick as they run, on the process table and the kernel's memory. */
module Processes {
  import opened Heap
  import opened HeapTable
  import opened Isolation
  import opened SpaceRuns
  import opened Lifecycle
  import opened Paging
  import opened AddressSpaces
  import opened Queue
  import Scheduler
  import Process

  class System {
    const kernel: Process.Kernel
    const mmu: Mmu
    const directory: nat  // the kernel's directory
    var cr3: seq<nat>     // the directory of each slot
    ghost var space: map<nat, nat>

    ghost predicate Valid()
      reads this, kernel, kernel.ready, kernel.ready.data, mmu, mmu.heap.entries, mmu.frames.bitmap
    {
      && kernel.Valid() && mmu.Valid() && mmu.Kept() && directory == mmu.world.k && |cr3| == Scheduler.MAX_PROCS
      && JointOk(State()) && Directories(mmu.world, space, cr3)
    }

    ghost function State(): Joint
      reads this, kernel, kernel.ready, kernel.ready.data, mmu
      requires kernel.Valid()
    {
      Joint(kernel.State(), mmu.world, space)
    }

    constructor (mmu: Mmu, directory: nat)
      requires mmu.Valid() && mmu.Kept() && mmu.world.live == map[] && directory == mmu.world.k
      ensures Valid() && this.mmu == mmu && State() == Joint(Scheduler.Initial(), mmu.world, map[])
    {
      kernel := new Process.Kernel();
      this.mmu := mmu;
      this.directory := directory;
      cr3 := [0, 0, 0, 0];
      space := map[];
      new;
      BootOk(mmu.world);
    }

    /** create_process: a slot, then an address space, then the entry in the queue. */
    method CreateProcess() returns (r: Scheduler.MaybeSlot)
      requires Valid()
      modifies this`cr3, this`space, kernel, kernel.ready, kernel.ready.data, mmu, mmu.heap.entries, mmu.frames.bitmap
      ensures Valid() && CanHappen(old(State()), Create) && State() == Next(old(State()), Create)
      ensures r == if old(Scheduler.FindSlot(kernel.procs, 0)) < Scheduler.MAX_PROCS && CreateSpace(old(mmu.world)).1
                   then Scheduler.Some(old(Scheduler.FindSlot(kernel.procs, 0))) else Scheduler.None
    {
      hide Scheduler.Inv, Sound, Inv, JointOk, Next, CanHappen, CreateSpace, Mmu.State, Scheduler.AfterCreate, Directories;
      ghost var j := State();
      KernelFacts(kernel);
      JointFacts(j);
      NextCreate(j);
      NextKeeps(j, Create);
      var i := kernel.FirstUnused();
      if i == Scheduler.MAX_PROCS {
        return Scheduler.None;
      }
      CreateDirectories(j, cr3, i);
      var d := mmu.CreateProcessSpace(directory);
      assert kernel.Valid() && kernel.State() == j.sched;
      if d == HEAP_BLOCKS {
        return Scheduler.None;
      }
      Enter(i, d, j.world.next);
      r := Scheduler.Some(i);
    }

    /** The end of create_process, once the address space `p` is there. */
    method Enter(i: nat, d: nat, ghost p: nat)
      requires kernel.Valid() && mmu.Valid() && mmu.Kept() && directory == mmu.world.k && |cr3| == Scheduler.MAX_PROCS
      requires i == Scheduler.FindSlot(kernel.procs, 0) < Scheduler.MAX_PROCS && Scheduler.Inv(kernel.State())
      requires JointOk(Joint(Scheduler.AfterCreate(kernel.State(), true), mmu.world, space[i := p]))
      requires Directories(mmu.world, space[i := p], cr3[i := d])
      modifies this`cr3, this`space, kernel, kernel.ready, kernel.ready.data
      ensures Valid() && State() == old(Joint(Scheduler.AfterCreate(kernel.State(), true), mmu.world, space[i := p]))
    {
      hide Scheduler.Inv, Sound, Inv, JointOk, Mmu.State, Scheduler.AfterCreate, Directories;
      kernel.Admit(i);
      assert mmu.Valid() && mmu.Kept();
      cr3, space := cr3[i := d], space[i := p];
    }

    /** start_processes */
    method StartProcesses() returns (ghost next: Ref)
      requires Valid() && kernel.executing == Scheduler.None
      modifies kernel, kernel.ready, kernel.ready.data
      ensures Valid() && CanHappen(old(State()), Start(next)) && State() == Next(old(State()), Start(next))
    {
      hide Scheduler.Inv, Sound, Inv, SlotsOk, HeldOk, Mmu.State, Scheduler.AfterStart;
      ghost var j := State();
      JointFacts(j);
      next := kernel.StartProcesses();
      NextKeeps(j, Start(next));
    }

    /** process_exit */
    method ProcessExit() returns (ghost next: Ref)
      requires Valid()
      modifies kernel, kernel.ready, kernel.ready.data
      ensures Valid() && CanHappen(old(State()), Exit(next)) && State() == Next(old(State()), Exit(next))
    {
      hide Scheduler.Inv, Sound, Inv, SlotsOk, HeldOk, Mmu.State, Scheduler.AfterExit;
      ghost var j := State();
      JointFacts(j);
      next := kernel.ProcessExit();
      NextKeeps(j, Exit(next));
    }

    /** scheduler: the zombie's address space is freed, then the tick goes on. */
    method Tick(slice: nat) returns (ghost next: Ref)
      requires Valid()
      modifies kernel, kernel.ready, kernel.ready.data, mmu, mmu.heap.entries, mmu.frames.bitmap
      ensures Valid() && CanHappen(old(State()), Lifecycle.Tick(slice, next)) && State() == Next(old(State()), Lifecycle.Tick(slice, next))
    {
      hide Scheduler.Inv, Sound, Inv, JointOk, Next, CanHappen, Mmu.State, Scheduler.AfterTick, Scheduler.CanTick, Retire;
      ghost var j := State();
      JointFacts(j);
      FreeZombie(j);
      FreeDirectories(j, cr3);
      if kernel.zombie.Some? {
        var z := kernel.zombie.slot;
        mmu.FreeProc(cr3[z], space[z]);
      }
      var freed;
      freed, next := kernel.Tick(slice);
      NextTick(j, slice, next);
      NextKeeps(j, Lifecycle.Tick(slice, next));
    }
  }

  /** The field cr3 of each process whose address space is there. */
  ghost predicate Directories(w: World, space: map<nat, nat>, cr3: seq<nat>) {
    forall i :: i in space && space[i] in w.live ==> i < |cr3| && cr3[i] == w.live[space[i]]
  }

  lemma KernelFacts(k: Process.Kernel)
    requires k.Valid()
    ensures k.State().procs == k.procs && |k.procs| == Scheduler.MAX_PROCS
  {
  }

  lemma JointFacts(j: Joint)
    requires JointOk(j)
    ensures Sound(j.world) && Inv(j.world) && Scheduler.Inv(j.sched)
  {
    hide Inv, Stacked, WellFormed, Scheduler.Inv;
  }

  /** The outcomes of create_process. */
  lemma NextCreate(j: Joint)
    requires JointOk(j)
    ensures Sound(j.world) && CanHappen(j, Create)
    ensures var i, c, t := Scheduler.FindSlot(j.sched.procs, 0), CreateSpace(j.world), Next(j, Create);
            t == if i == |j.sched.procs| then j
                 else if c.1 then Joint(Scheduler.AfterCreate(j.sched, true), c.0, j.space[i := j.world.next])
                 else Joint(j.sched, c.0, j.space)
  {
    hide Scheduler.Inv, Inv, Stacked, WellFormed, SlotsOk, HeldOk, CreateSpace;
  }

  lemma NextTick(j: Joint, slice: nat, r: Ref)
    requires JointOk(j) && Scheduler.CanTick(j.sched, slice, r)
    requires j.sched.zombie.Some? ==> j.sched.zombie.slot in j.space && j.space[j.sched.zombie.slot] in j.world.live
    ensures CanHappen(j, Lifecycle.Tick(slice, r))
    ensures Next(j, Lifecycle.Tick(slice, r)) == j.(sched := Scheduler.AfterTick(j.sched, slice, r), world := WithoutZombie(j))
  {
    hide Scheduler.Inv, Inv, Stacked, WellFormed, SlotsOk, HeldOk, WithoutZombie, Scheduler.AfterTick;
  }

  /** A create leaves the other processes' directories where they are. */
  lemma CreateDirectories(j: Joint, cr3: seq<nat>, i: nat)
    requires JointOk(j) && Directories(j.world, j.space, cr3) && i == Scheduler.FindSlot(j.sched.procs, 0) < |j.sched.procs|
    requires |cr3| == Scheduler.MAX_PROCS == |j.sched.procs|
    ensures var c := CreateSpace(j.world);
            && c.0.k == j.world.k
            && (if c.1 then j.world.next in c.0.live && Directories(c.0, j.space[i := j.world.next], cr3[i := c.0.live[j.world.next]])
                else Directories(c.0, j.space, cr3))
  {
    hide Scheduler.Inv, Inv, Stacked, WellFormed, CreateSpace, HeldOk, Translate;
    var w, c := j.world, CreateSpace(j.world);
    SoundCreate(w);
    CreateSameKernel(w);
    forall r | r in w.live ensures r in c.0.live && c.0.live[r] == w.live[r] {
      CreateOther(w, r, STACK_PAGE);
    }
  }

  lemma CreateSameKernel(w: World)
    requires Inv(w)
    ensures CreateSpace(w).0.k == w.k
  {
    hide SameKernel, CreateSpace, Inv;
    CreateKernel(w);
    KernelSame(w, CreateSpace(w).0);
  }

  lemma KernelSame(w: World, e: World)
    requires SameKernel(w, e)
    ensures e.k == w.k
  {
  }

  /** Freeing one does too. */
  lemma FreeDirectories(j: Joint, cr3: seq<nat>)
    requires JointOk(j) && Directories(j.world, j.space, cr3)
    requires j.sched.zombie.Some? ==> j.sched.zombie.slot in j.space && j.space[j.sched.zombie.slot] in j.world.live
    ensures WithoutZombie(j).k == j.world.k && Directories(WithoutZombie(j), j.space, cr3)
  {
    hide Scheduler.Inv, Inv, Stacked, WellFormed, Retire, HeldOk, SlotsOk, SpaceOk, Translate, FreeSet;
    if j.sched.zombie.Some? {
      var p := j.space[j.sched.zombie.slot];
      SoundSpace(j.world, p);
      RetireGives(j.world, p);
      RetireSameKernel(j.world, p);
    }
  }

  lemma RetireSameKernel(w: World, p: nat)
    requires Inv(w) && p in w.live && SpaceOk(w.v, w.live[p])
    ensures Retire(w, p).k == w.k
  {
    hide SameKernel, Retire, Inv, SpaceOk;
    RetireKernel(w, p);
    KernelSame(w, Retire(w, p));
  }
}
