/**
 Processes and their address spaces together (src/process/process.c): the scheduler's table and the
 kernel's memory over the same run of create, start, exit and tick, with other heap calls in between.
 */
module Lifecycle {
  import opened HeapTable
  import opened Heap
  import opened FrameMap
  import opened Paging
  import opened Vmm
  import opened Isolation
  import opened SpaceRuns
  import opened Queue
  import Scheduler
  import SchedulerRuns

  type Sched = Scheduler.Sched

  /** The scheduler, the memory, and the address space each slot of the process table was given. */
  datatype Joint = Joint(sched: Sched, world: World, space: map<nat, nat>)

  datatype Happening =
    | Create
    | Start(next: Ref)
    | Exit(next: Ref)
    | Tick(slice: nat, next: Ref)
    | Other(op: HeapOp, table: HeapMap, mem: Memory)

  // ---------- one step ----------

  /** What the scheduler sees; a heap call of somebody else does not concern it. */
  function Seen(j: Joint, h: Happening): seq<Scheduler.Event>
    requires Sound(j.world)
  {
    match h
    case Create => [Scheduler.Create(CreateSpace(j.world).1)]
    case Start(r) => [Scheduler.Start(r)]
    case Exit(r) => [Scheduler.Exit(r)]
    case Tick(slice, r) => [Scheduler.Tick(slice, r)]
    case Other(_, _, _) => []
  }

  ghost predicate CanHappen(j: Joint, h: Happening)
    requires Sound(j.world)
  {
    match h
    case Other(op, u, m) => Foreign(j.world, op, u, m) && Spares(j.world, op)
    case _ => Scheduler.CanStep(j.sched, Seen(j, h)[0])
  }

  /** The zombie's address space is freed at a tick. */
  function WithoutZombie(j: Joint): World
    requires Sound(j.world) && (j.sched.zombie.Some? ==> j.sched.zombie.slot in j.space && j.space[j.sched.zombie.slot] in j.world.live)
  {
    if j.sched.zombie == Scheduler.None then j.world
    else
      ProcSpaceOk(j.world, j.space[j.sched.zombie.slot]);
      Retire(j.world, j.space[j.sched.zombie.slot])
  }

  function Next(j: Joint, h: Happening): Joint
    requires JointOk(j) && CanHappen(j, h)
  {
    match h
    case Create =>
      var i := Scheduler.FindSlot(j.sched.procs, 0);
      if i == |j.sched.procs| then j
      else
        var c := CreateSpace(j.world);
        Joint(Scheduler.AfterCreate(j.sched, c.1), c.0, if c.1 then j.space[i := j.world.next] else j.space)
    case Start(r) => j.(sched := Scheduler.AfterStart(j.sched, r))
    case Exit(r) => j.(sched := Scheduler.AfterExit(j.sched, r))
    case Tick(slice, r) => j.(sched := Scheduler.AfterTick(j.sched, slice, r), world := WithoutZombie(j))
    case Other(_, u, m) => j.(world := AfterOther(j.world, u, m))
  }

  // ---------- the invariant ----------

  /** Queued, executing, or waiting to be freed. */
  predicate Held(s: Sched, i: nat) {
    Scheduler.Queued(s, i) || Scheduler.Executing(s, i) || s.zombie == Scheduler.Some(i)
  }

  predicate Created(s: Sched, i: nat) {
    i < |s.procs| && s.procs[i].state != Scheduler.UNUSED
  }

  /** Slots and address spaces belong together: each created process was given one of its own. */
  ghost predicate SlotsOk(j: Joint) {
    && (forall i :: i in j.space <==> Created(j.sched, i))
    && (forall i :: i in j.space ==> j.space[i] < j.world.next)
    && (forall a, b :: a in j.space && b in j.space && j.space[a] == j.space[b] ==> a == b)
    && (forall p :: p in j.world.live ==> p in j.space.Values)
  }

  /** A process that is queued, executing or waiting to be freed has its directory. */
  ghost predicate HeldOk(j: Joint) {
    forall i :: Held(j.sched, i) ==> i in j.space && j.space[i] in j.world.live
  }

  ghost predicate JointOk(j: Joint) {
    Scheduler.Inv(j.sched) && Sound(j.world) && SlotsOk(j) && HeldOk(j)
  }

  /** At start-up. */
  lemma BootOk(w: World)
    requires Sound(w) && w.live == map[]
    ensures JointOk(Joint(Scheduler.Initial(), w, map[]))
  {
    hide Sound;
  }

  // ---------- every step keeps it ----------

  /** Nobody is queued or executing, or becomes the zombie, who was not so before or is created just now. */
  lemma HeldBefore(s: Sched, e: Scheduler.Event, i: nat)
    requires Scheduler.Inv(s) && Scheduler.CanStep(s, e) && Held(Scheduler.Step(s, e), i)
    ensures Held(s, i) || SchedulerRuns.Unused(s, i)
  {
    hide Scheduler.Inv, Scheduler.Step, Scheduler.CanStep;
    var t := Scheduler.Step(s, e);
    SchedulerRuns.StepShape(s, e);
    if SchedulerRuns.FromReady(s, i) {
      SchedulerRuns.ReadyIsQueued(s, i);
      assert Ref(i, s.procs[i].priority) in s.ready;
    }
    if Scheduler.Queued(t, i) {
      var r :| r in t.ready && r.slot == i;
    }
  }

  /** The zombie is finished, so a tick that frees it takes nothing from the others. */
  lemma ZombieApart(s: Sched, e: Scheduler.Event, z: nat)
    requires Scheduler.Inv(s) && Scheduler.CanStep(s, e) && e.Tick? && s.zombie == Scheduler.Some(z)
    ensures Scheduler.Finished(s, z) && !Held(Scheduler.Step(s, e), z)
  {
    hide Scheduler.Inv, Scheduler.Step, Scheduler.CanStep;
    SchedulerRuns.ZombieFinished(s, z);
    SchedulerRuns.FinishedStep(s, e, z);
    SchedulerRuns.ZombieIsLeaver(s, e);
  }

  /** Only a create that succeeds adds a process, in the first unused slot. */
  lemma CreatedAfter(s: Sched, e: Scheduler.Event, i: nat)
    requires Scheduler.Inv(s) && Scheduler.CanStep(s, e)
    ensures var slot := Scheduler.FindSlot(s.procs, 0);
            Created(Scheduler.Step(s, e), i) <==>
            Created(s, i) || (e.Create? && e.spaceOk && slot < |s.procs| && i == slot)
  {
    hide Scheduler.Inv, Scheduler.Chosen, Scheduler.Dispatched, Scheduler.Pushed, Created;
    BoundsOf(s, e);
    match e {
      case Create(ok) => CreateAdds(s, ok, i);
      case Start(r) =>
        if s.ready != multiset{} { DispatchCreated(s, r, i); }
      case Exit(r) => ExitCreated(s, r, i);
      case Tick(slice, r) => TickCreated(s, slice, r, i);
    }
  }

  lemma CreateAdds(s: Sched, ok: bool, i: nat)
    ensures var slot := Scheduler.FindSlot(s.procs, 0);
            Created(Scheduler.AfterCreate(s, ok), i) <==> Created(s, i) || (ok && slot < |s.procs| && i == slot)
  {
  }

  lemma DispatchCreated(s: Sched, r: Ref, i: nat)
    requires Created(s, r.slot)
    ensures Created(Scheduler.Dispatched(s, r), i) <==> Created(s, i)
  {
  }

  lemma EntryCreated(s: Sched, e: nat, p: Scheduler.Pcb, t: Sched, i: nat)
    requires Created(s, e) && p.state != Scheduler.UNUSED && t.procs == s.procs[e := p]
    ensures Created(t, i) <==> Created(s, i)
  {
  }

  lemma ExitCreated(s: Sched, r: Ref, i: nat)
    requires Scheduler.CanStep(s, Scheduler.Exit(r))
    requires (s.ready != multiset{} ==> Created(s, r.slot)) && (s.exec.Some? ==> Created(s, s.exec.slot))
    ensures Created(Scheduler.AfterExit(s, r), i) <==> Created(s, i)
  {
    hide Scheduler.Chosen, Scheduler.Dispatched, Created;
    var t := if s.exec.Some? then s.(procs := Scheduler.SetState(s.procs, s.exec.slot, Scheduler.TERMINATED)) else s;
    var u := t.(zombie := s.exec);
    if s.exec.Some? {
      forall x: nat { EntryCreated(s, s.exec.slot, s.procs[s.exec.slot].(state := Scheduler.TERMINATED), u, x); }
    } else {
      forall x: nat { SameCreated(s, u, x); }
    }
    if s.ready != multiset{} {
      DispatchCreated(u, r, i);
    } else {
      SameCreated(u, u.(exec := Scheduler.None), i);
    }
  }

  lemma SameCreated(s: Sched, t: Sched, i: nat)
    requires t.procs == s.procs
    ensures Created(t, i) <==> Created(s, i)
  {
  }

  lemma TickCreated(s: Sched, slice: nat, r: Ref, i: nat)
    requires Scheduler.CanTick(s, slice, r)
    requires s.exec.Some? ==> Created(s, s.exec.slot) && s.procs[s.exec.slot].state != Scheduler.UNUSED
    requires s.exec.Some? && s.ready != multiset{} ==> Created(s, r.slot)
    ensures Created(Scheduler.AfterTick(s, slice, r), i) <==> Created(s, i)
  {
    hide Scheduler.Chosen, Scheduler.Dispatched, Created, Scheduler.Pushed;
    if s.exec == Scheduler.None {
      SameCreated(s, s.(zombie := Scheduler.None), i);
      return;
    }
    var e := s.exec.slot;
    var p := Scheduler.Charged(s.procs[e], slice);
    if p.burst <= 0 {
      var q := p.(state := Scheduler.TERMINATED);
      var u := s.(procs := s.procs[e := q], zombie := Scheduler.None);
      forall x: nat { EntryCreated(s, e, q, u, x); }
      if s.ready != multiset{} {
        DispatchCreated(u, r, i);
      } else {
        SameCreated(u, u.(exec := Scheduler.None), i);
      }
    } else if s.ready == multiset{} {
      EntryCreated(s, e, p, s.(procs := s.procs[e := p], zombie := Scheduler.None), i);
    } else {
      var q := p.(state := Scheduler.READY);
      var u := s.(procs := s.procs[e := q], ready := Scheduler.Pushed(s.ready, Ref(e, p.priority)), zombie := Scheduler.None);
      forall x: nat { EntryCreated(s, e, q, u, x); }
      DispatchCreated(u, r, i);
    }
  }

  lemma BoundsOf(s: Sched, e: Scheduler.Event)
    requires Scheduler.Inv(s) && Scheduler.CanStep(s, e)
    ensures match e
            case Start(r) => s.ready != multiset{} ==> r.slot < |s.procs| && Created(s, r.slot)
            case Exit(r) => s.ready != multiset{} ==> r.slot < |s.procs| && Created(s, r.slot)
            case Tick(_, r) => s.exec.Some? && s.ready != multiset{} ==> r.slot < |s.procs| && Created(s, r.slot)
            case _ => true
    ensures s.exec.Some? ==> Created(s, s.exec.slot) && s.procs[s.exec.slot].state != Scheduler.UNUSED
  {
  }

  lemma HeldCreated(s: Sched, i: nat)
    requires Scheduler.Inv(s) && Held(s, i)
    ensures Created(s, i)
  {
  }

  /** The scheduler's part of a step is a step of the scheduler. */
  lemma NextSched(j: Joint, h: Happening)
    requires JointOk(j) && CanHappen(j, h)
    ensures Next(j, h).sched == if h.Other? then j.sched else Scheduler.Step(j.sched, Seen(j, h)[0])
    ensures !h.Other? ==> Scheduler.CanStep(j.sched, Seen(j, h)[0])
    ensures Scheduler.Inv(Next(j, h).sched)
  {
    hide Scheduler.Inv, Sound, SlotsOk, HeldOk, CreateSpace, Foreign, Spares, Scheduler.Chosen;
    if !h.Other? {
      Scheduler.StepKeeps(j.sched, Seen(j, h)[0]);
    }
  }

  /** A step that creates no process, and frees no other address space than that of a slot nobody holds. */
  lemma NoCreate(j: Joint, t: Joint)
    requires SlotsOk(j) && HeldOk(j) && t.space == j.space && t.world.next == j.world.next
    requires forall i :: Created(t.sched, i) <==> Created(j.sched, i)
    requires forall i :: Held(t.sched, i) ==> Held(j.sched, i)
    requires t.world.live.Keys <= j.world.live.Keys
    requires forall p :: p in j.world.live && p !in t.world.live ==> exists z :: z in j.space && j.space[z] == p && !Held(t.sched, z)
    ensures SlotsOk(t) && HeldOk(t)
  {
    hide Held, Created;
    forall i | Held(t.sched, i) ensures i in t.space && t.space[i] in t.world.live {
      assert Held(j.sched, i);
    }
    forall p | p in t.world.live ensures p in t.space.Values {
      assert p in j.world.live;
    }
  }

  lemma HeldAfter(j: Joint, h: Happening, i: nat)
    requires JointOk(j) && CanHappen(j, h) && Held(Next(j, h).sched, i)
    ensures Created(Next(j, h).sched, i) && (Created(j.sched, i) ==> Held(j.sched, i))
  {
    hide Scheduler.Inv, Sound, HeldOk, SlotsOk, Next, CanHappen, Held, Scheduler.Step;
    NextSched(j, h);
    HeldCreated(Next(j, h).sched, i);
    if !h.Other? {
      HeldBefore(j.sched, Seen(j, h)[0], i);
    }
  }

  lemma CreateJoint(j: Joint)
    requires JointOk(j) && CanHappen(j, Create)
    ensures JointOk(Next(j, Create))
  {
    hide Scheduler.Inv, Inv, Stacked, WellFormed, CreateSpace, Held, Created, Scheduler.AfterCreate, Scheduler.CanStep;
    var t, i := Next(j, Create), Scheduler.FindSlot(j.sched.procs, 0);
    NextSched(j, Create);
    if i < |j.sched.procs| {
      SoundCreate(j.world);
      var c := CreateSpace(j.world);
      UnusedSlot(j.sched);
      forall x: nat {
        CreatedAfter(j.sched, Scheduler.Create(c.1), x);
      }
      forall x | Held(t.sched, x) ensures x in t.space && t.space[x] in t.world.live {
        HeldAfter(j, Create, x);
      }
      forall p | p in t.world.live ensures p in t.space.Values {
        if p in j.world.live {
          var x :| x in j.space && j.space[x] == p;
          assert x != i && t.space[x] == p;
        } else {
          assert t.space[i] == p;
        }
      }
    }
  }

  lemma UnusedSlot(s: Sched)
    requires Scheduler.FindSlot(s.procs, 0) < |s.procs|
    ensures !Created(s, Scheduler.FindSlot(s.procs, 0))
  {
  }

  lemma SoundCreate(w: World)
    requires Sound(w)
    ensures var c := CreateSpace(w);
            && Sound(c.0) && c.0.next >= w.next && w.next !in w.live && (c.1 ==> c.0.next == w.next + 1)
            && c.0.live.Keys == if c.1 then w.live.Keys + {w.next} else w.live.Keys
  {
    hide Inv, CreateSpace, Stacked, WellFormed, Translate, Taken3, RecordBlock, StackTable;
    CreateSound(w);
    CreateLive(w);
    if CreateSpace(w).1 {
      CreateTakes(w);
    }
  }

  lemma TickJoint(j: Joint, slice: nat, r: Ref)
    requires JointOk(j) && CanHappen(j, Tick(slice, r))
    ensures JointOk(Next(j, Tick(slice, r)))
  {
    hide Scheduler.Inv, Sound, Held, Created, Retire, SpaceOk, Scheduler.AfterTick, Scheduler.CanTick;
    var h := Tick(slice, r);
    var t, e := Next(j, h), Seen(j, h)[0];
    NextSched(j, h);
    forall x: nat {
      CreatedAfter(j.sched, e, x);
    }
    forall x | Held(t.sched, x) ensures Held(j.sched, x) {
      HeldAfter(j, h, x);
    }
    FreeZombie(j);
    if j.sched.zombie.Some? {
      var z := j.sched.zombie.slot;
      ZombieApart(j.sched, e, z);
      assert z in j.space && !Held(t.sched, z);
    }
    NoCreate(j, t);
  }

  lemma FreeZombie(j: Joint)
    requires JointOk(j)
    ensures j.sched.zombie.Some? ==> j.sched.zombie.slot in j.space && j.space[j.sched.zombie.slot] in j.world.live
    ensures var w := WithoutZombie(j);
            && Sound(w) && w.next == j.world.next
            && w.live.Keys == j.world.live.Keys - if j.sched.zombie.Some? then {j.space[j.sched.zombie.slot]} else {}
  {
    hide Scheduler.Inv, Inv, Stacked, WellFormed, Retire, SpaceOk, SlotsOk, FreeSet, Translate;
    if j.sched.zombie.Some? {
      var z := j.sched.zombie.slot;
      assert Held(j.sched, z);
      var p := j.space[z];
      SoundSpace(j.world, p);
      RetireSound(j.world, p);
      RetireGives(j.world, p);
      assert Retire(j.world, p).live.Keys == j.world.live.Keys - {p};
    }
  }

  lemma OtherJoint(j: Joint, h: Happening)
    requires JointOk(j) && CanHappen(j, h) && !h.Create? && !h.Tick?
    ensures JointOk(Next(j, h))
  {
    hide Scheduler.Inv, Sound, Held, Created, Foreign, Spares, Scheduler.AfterStart, Scheduler.AfterExit, Scheduler.Step, Scheduler.CanStep;
    var t := Next(j, h);
    NextSched(j, h);
    if h.Other? {
      OtherExactly(j.world, h.op, h.table, h.mem);
      assert t.sched == j.sched;
    } else {
      forall x: nat {
        CreatedAfter(j.sched, Seen(j, h)[0], x);
      }
      forall x | Held(t.sched, x) ensures Held(j.sched, x) {
        HeldAfter(j, h, x);
      }
    }
    NoCreate(j, t);
  }

  /** Every step keeps it: nobody who may still run is without a directory, and the freed one is a finished process's. */
  lemma NextKeeps(j: Joint, h: Happening)
    requires JointOk(j) && CanHappen(j, h)
    ensures JointOk(Next(j, h))
  {
    hide JointOk, CanHappen, Next;
    JointIsSound(j);
    if h.Create? {
      CreateJoint(j);
    } else if h.Tick? {
      TickJoint(j, h.slice, h.next);
    } else {
      OtherJoint(j, h);
    }
  }

  lemma JointIsSound(j: Joint)
    requires JointOk(j)
    ensures Sound(j.world) && Scheduler.Inv(j.sched)
  {
    hide Sound, Scheduler.Inv;
  }

  // ---------- runs ----------

  ghost predicate CanHappenAll(j: Joint, hs: seq<Happening>)
    requires JointOk(j)
    decreases |hs|
  {
    hs == [] || (CanHappen(j, hs[0]) && (NextKeeps(j, hs[0]); CanHappenAll(Next(j, hs[0]), hs[1..])))
  }

  function After(j: Joint, hs: seq<Happening>): (t: Joint)
    requires JointOk(j) && CanHappenAll(j, hs)
    ensures JointOk(t)
    decreases |hs|
  {
    if hs == [] then j
    else
      NextKeeps(j, hs[0]);
      After(Next(j, hs[0]), hs[1..])
  }

  /** The scheduler's events of a run. */
  function SeenAll(j: Joint, hs: seq<Happening>): seq<Scheduler.Event>
    requires JointOk(j) && CanHappenAll(j, hs)
    decreases |hs|
  {
    if hs == [] then []
    else
      NextKeeps(j, hs[0]);
      Seen(j, hs[0]) + SeenAll(Next(j, hs[0]), hs[1..])
  }

  /** What a step does to the address spaces. */
  function SpaceOps(j: Joint, h: Happening): seq<SpaceOp>
    requires JointOk(j)
  {
    match h
    case Create => if Scheduler.FindSlot(j.sched.procs, 0) < |j.sched.procs| then [Open] else []
    case Tick(_, _) => if j.sched.zombie.Some? then [Close(ZombieSpace(j))] else []
    case Other(op, u, m) => [SpaceOp.Other(op, u, m)]
    case _ => []
  }

  function ZombieSpace(j: Joint): (p: nat)
    requires JointOk(j) && j.sched.zombie.Some?
    ensures p in j.world.live
  {
    assert Held(j.sched, j.sched.zombie.slot);
    j.space[j.sched.zombie.slot]
  }

  function SpaceOpsAll(j: Joint, hs: seq<Happening>): seq<SpaceOp>
    requires JointOk(j) && CanHappenAll(j, hs)
    decreases |hs|
  {
    if hs == [] then []
    else
      NextKeeps(j, hs[0]);
      SpaceOps(j, hs[0]) + SpaceOpsAll(Next(j, hs[0]), hs[1..])
  }

  /** A joint run is a run of the scheduler, */
  lemma {:induction false} SchedRefines(j: Joint, hs: seq<Happening>)
    requires JointOk(j) && CanHappenAll(j, hs)
    ensures SchedulerRuns.CanRun(j.sched, SeenAll(j, hs))
    ensures After(j, hs).sched == SchedulerRuns.Run(j.sched, SeenAll(j, hs))
    decreases |hs|
  {
    hide JointOk, CanHappen, Next, Scheduler.Step, Scheduler.CanStep, Scheduler.Inv;
    if hs != [] {
      JointIsSound(j);
      NextKeeps(j, hs[0]);
      NextSched(j, hs[0]);
      var rest := SeenAll(Next(j, hs[0]), hs[1..]);
      SchedRefines(Next(j, hs[0]), hs[1..]);
      if hs[0].Other? {
        assert [] + rest == rest;
      } else {
        assert (Seen(j, hs[0]) + rest)[1..] == rest;
      }
    }
  }

  /** and a run of the address spaces. */
  lemma {:induction false} SpacesRefine(j: Joint, hs: seq<Happening>)
    requires JointOk(j) && CanHappenAll(j, hs)
    ensures Sound(j.world) && CanDoAll(j.world, SpaceOpsAll(j, hs))
    ensures After(j, hs).world == DoAll(j.world, SpaceOpsAll(j, hs))
    decreases |hs|
  {
    hide JointOk, CanHappen, Next, Do, CanDo, Sound, SpaceOps;
    JointIsSound(j);
    if hs != [] {
      NextKeeps(j, hs[0]);
      NextSpace(j, hs[0]);
      var ops := SpaceOpsAll(Next(j, hs[0]), hs[1..]);
      SpacesRefine(Next(j, hs[0]), hs[1..]);
      if SpaceOps(j, hs[0]) == [] {
        assert [] + ops == ops;
      } else {
        assert (SpaceOps(j, hs[0]) + ops)[1..] == ops;
      }
    }
  }

  lemma NextSpace(j: Joint, h: Happening)
    requires JointOk(j) && CanHappen(j, h)
    ensures Sound(j.world) && |SpaceOps(j, h)| <= 1
    ensures if SpaceOps(j, h) == [] then Next(j, h).world == j.world
            else CanDo(j.world, SpaceOps(j, h)[0]) && Next(j, h).world == Do(j.world, SpaceOps(j, h)[0])
  {
    hide Scheduler.Inv, SlotsOk, HeldOk, Inv, Stacked, WellFormed, CreateSpace, Retire, Foreign, Spares, SpaceOk, Scheduler.AfterTick, Scheduler.AfterCreate;
    FreeZombie(j);
  }

  /**
   At the end of every run each process that is queued or executing has a directory of its own,
   sees below 128 MB what the kernel saw at the start, and shares no frame above it with another.
   */
  lemma SlotsIsolated(j: Joint, hs: seq<Happening>, a: nat, b: nat, q: nat, x: nat)
    requires JointOk(j) && CanHappenAll(j, hs)
    requires Scheduler.Queued(After(j, hs).sched, a) || Scheduler.Executing(After(j, hs).sched, a)
    requires Scheduler.Queued(After(j, hs).sched, b) || Scheduler.Executing(After(j, hs).sched, b)
    requires q < PAGES && SHARED_PAGES <= x < PAGES
    ensures var t := After(j, hs);
            && a in t.space && b in t.space && t.space[a] in t.world.live && t.space[b] in t.world.live
            && var d, e := t.world.live[t.space[a]], t.world.live[t.space[b]];
            && d < HEAP_BLOCKS && e < HEAP_BLOCKS && j.world.k < HEAP_BLOCKS
            && (a != b ==> d != e)
            && (q < SHARED_PAGES ==> Translate(t.world.v.mem, d, q) == Translate(j.world.v.mem, j.world.k, q))
            && (q >= SHARED_PAGES && SameFrame(Translate(t.world.v.mem, d, q), Translate(t.world.v.mem, e, x))
                ==> a == b && q == x)
  {
    hide After, CanHappenAll, Sound, SlotsOk, Scheduler.Inv, Translate, DoAll, CanDoAll, Scheduler.Queued, Scheduler.Executing;
    var t := After(j, hs);
    HeldSpaces(t, a);
    HeldSpaces(t, b);
    SpacesRefine(j, hs);
    Isolated(j.world, SpaceOpsAll(j, hs), t.space[a], q, t.space[b], x);
    OwnSpaces(t, a, b);
  }

  lemma HeldSpaces(t: Joint, a: nat)
    requires JointOk(t) && (Scheduler.Queued(t.sched, a) || Scheduler.Executing(t.sched, a))
    ensures a in t.space && t.space[a] in t.world.live
  {
    hide Sound, SlotsOk, Scheduler.Inv;
    assert Held(t.sched, a);
  }

  /** Different slots have different directories. */
  lemma OwnSpaces(t: Joint, a: nat, b: nat)
    requires JointOk(t) && a in t.space && b in t.space && t.space[a] in t.world.live && t.space[b] in t.world.live
    ensures t.world.live[t.space[a]] == t.world.live[t.space[b]] ==> a == b
    ensures t.space[a] == t.space[b] ==> a == b
  {
    hide Scheduler.Inv, HeldOk, Stacked, WellFormed, Inv;
    var w := t.world;
    if w.live[t.space[a]] == w.live[t.space[b]] {
      OneDirectory(w, t.space[a], t.space[b]);
    }
  }

  lemma OneDirectory(w: World, p: nat, q: nat)
    requires Inv(w) && p in w.live && q in w.live && w.live[p] == w.live[q]
    ensures p == q
  {
    hide RolesOk, KernelOk, FramesOk, PagesOk, DirsOk, DirOk;
    KernelsRole(w);
    LiveDir(w, p);
    LiveDir(w, q);
  }

  /** One step: the space of a slot goes exactly when the step frees it, and never comes back. */
  lemma SpaceStep(j: Joint, h: Happening, i: nat)
    requires JointOk(j) && CanHappen(j, h) && i in j.space
    ensures var t := Next(j, h);
            && i in t.space && t.space[i] == j.space[i]
            && (t.space[i] in t.world.live <==>
                j.space[i] in j.world.live && !(h.Tick? && j.sched.zombie == Scheduler.Some(i)))
  {
    hide Scheduler.Inv, Inv, Stacked, WellFormed, CreateSpace, Foreign, Spares, Created, Scheduler.CanStep, Scheduler.Step, HeldOk;
    FreeZombie(j);
    if h.Create? {
      SoundCreate(j.world);
      if Scheduler.FindSlot(j.sched.procs, 0) < |j.sched.procs| { UnusedSlot(j.sched); }
    }
  }

  /**
   An address space is still there at the end of a run exactly when its process has not left by
   process_exit with a tick before the next exit.
   */
  lemma {:induction false} SpaceFreedExactly(j: Joint, hs: seq<Happening>, i: nat)
    requires JointOk(j) && CanHappenAll(j, hs) && i in j.space && j.space[i] in j.world.live
    requires j.sched.zombie != Scheduler.Some(i)
    ensures SchedulerRuns.CanRun(j.sched, SeenAll(j, hs))
    ensures var t := After(j, hs);
            && i in t.space && t.space[i] == j.space[i]
            && (t.space[i] in t.world.live <==> !SchedulerRuns.ExitsBeforeTick(j.sched, SeenAll(j, hs), i))
  {
    hide JointOk, CanHappenAll, After, SeenAll, SchedulerRuns.ExitsBeforeTick, SchedulerRuns.TimesFreed, SchedulerRuns.CanRun;
    JointIsSound(j);
    SchedRefines(j, hs);
    SpaceCount(j, hs, i);
    SchedulerRuns.FreedExactly(j.sched, SeenAll(j, hs), i);
  }

  lemma {:induction false} SpaceCount(j: Joint, hs: seq<Happening>, i: nat)
    requires JointOk(j) && CanHappenAll(j, hs) && i in j.space
    requires SchedulerRuns.CanRun(j.sched, SeenAll(j, hs))
    ensures var t := After(j, hs);
            && i in t.space && t.space[i] == j.space[i]
            && (t.space[i] in t.world.live <==>
                j.space[i] in j.world.live && SchedulerRuns.TimesFreed(j.sched, SeenAll(j, hs), i) == 0)
    decreases |hs|
  {
    hide JointOk, CanHappen, Next, Scheduler.Step, Scheduler.CanStep, Scheduler.Inv, Sound;
    if hs != [] {
      JointIsSound(j);
      NextKeeps(j, hs[0]);
      NextSched(j, hs[0]);
      SpaceStep(j, hs[0], i);
      var rest := SeenAll(Next(j, hs[0]), hs[1..]);
      SchedRefines(Next(j, hs[0]), hs[1..]);
      SpaceCount(Next(j, hs[0]), hs[1..], i);
      if hs[0].Other? {
        assert [] + rest == rest;
      } else {
        assert (Seen(j, hs[0]) + rest)[1..] == rest;
      }
    }
  }
}
