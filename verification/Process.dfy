/** The process table and the scheduler as they run (src/process/process.c). */
module Process {
  import opened Queue
  import opened Scheduler
  import opened SchedulerRuns

  class Kernel {
    var procs: seq<Pcb>
    const ready: PriorityQueue
    var executing: MaybeSlot
    var zombie: MaybeSlot

    ghost predicate Valid()
      reads this, ready, ready.data
    {
      |procs| == MAX_PROCS && ready.Valid()
    }

    ghost function State(): Sched
      reads this, ready, ready.data
      requires Valid()
    {
      Sched(procs, ready.Contents(), executing, zombie)
    }

    /** initQueue, over a zeroed process table. */
    constructor ()
      ensures Valid() && fresh(ready) && fresh(ready.data)
      ensures State() == Initial()
    {
      procs := [NOTHING, NOTHING, NOTHING, NOTHING];
      ready := new PriorityQueue();
      executing, zombie := None, None;
    }

    /** The end of create_process: the slot found is filled and queued. */
    method Admit(i: nat)
      requires Valid() && Inv(State()) && i == FindSlot(procs, 0) < MAX_PROCS
      modifies this`procs, ready, ready.data
      ensures Valid() && State() == AfterCreate(old(State()), true) && Inv(State())
    {
      hide Inv, PriorityQueue.Valid, PriorityQueue.Contents;
      CreateKeeps(State(), true);
      procs := procs[i := Pcb(READY, PRIORITY, BURST, false)];
      ready.Push(Ref(i, procs[i].priority));
    }

    /** The search of create_process for an unused slot. */
    method FirstUnused() returns (i: nat)
      requires Valid()
      ensures i == FindSlot(procs, 0)
    {
      i := 0;
      while i < MAX_PROCS && procs[i].state != UNUSED
        invariant 0 <= i <= MAX_PROCS && FindSlot(procs, i) == FindSlot(procs, 0)
      {
        i := i + 1;
      }
    }

    /** The next process is popped and control goes to it. */
    method Dispatch() returns (next: Ref)
      requires Valid() && ready.Contents() != multiset{}
      requires forall r :: r in ready.Contents() ==> r.slot < MAX_PROCS
      modifies this`executing, this`procs, ready, ready.data
      ensures Valid() && Chosen(old(ready.Contents()), next) && next.slot < MAX_PROCS
      ensures State() == Dispatched(old(State()), next)
    {
      hide PriorityQueue.Valid, PriorityQueue.Contents, Chosen;
      ghost var c := ready.Contents();
      var found;
      found, next := ready.Pop();
      assert Chosen(c, next) by { PopChosen(c, next); }
      procs := procs[next.slot := procs[next.slot].(state := RUNNING)];
      executing := Some(next.slot);
      ContextSwitch(next.slot);
    }

    /** context_switch stores its own number for a running process. */
    method ContextSwitch(next: nat)
      requires next < |procs|
      modifies this`procs
      ensures procs == SetState(old(procs), next, SWITCHED)
    {
      procs := procs[next := procs[next].(state := SWITCHED)];
    }

    /** start_processes, called by the kernel while no process executes. */
    method StartProcesses() returns (ghost next: Ref)
      requires Valid() && Inv(State()) && executing == None
      modifies this`executing, this`procs, ready, ready.data
      ensures Valid() && CanStep(old(State()), Start(next)) && State() == Step(old(State()), Start(next)) && Inv(State())
    {
      ghost var s := State();
      SlotsInRange(s);
      hide Inv, Chosen, PriorityQueue.Valid, PriorityQueue.Contents;
      next := Ref(0, 0);
      var empty := ready.IsEmpty();
      if empty {
        return;
      }
      next := Dispatch();
      StepKeeps(s, Start(next));
    }

    /** process_exit */
    method ProcessExit() returns (ghost next: Ref)
      requires Valid() && Inv(State())
      modifies this, ready, ready.data
      ensures Valid() && CanStep(old(State()), Exit(next)) && State() == Step(old(State()), Exit(next)) && Inv(State())
    {
      ghost var s := State();
      InvBounds(s);
      SlotsInRange(s);
      hide Inv, Chosen, HandOver, CanStep, Step, PriorityQueue.Valid, PriorityQueue.Contents;
      if executing.Some? {
        SetProc(executing.slot, procs[executing.slot].(state := TERMINATED));
      }
      zombie := executing;
      next := PopOrKernel();
      ExitIs(s, next);
      StepKeeps(s, Exit(next));
    }

    /** The tail of process_exit and of the scheduler: the next process, or the kernel. */
    method PopOrKernel() returns (ghost next: Ref)
      requires Valid() && forall r :: r in ready.Contents() ==> r.slot < MAX_PROCS
      modifies this`executing, this`procs, ready, ready.data
      ensures Valid()
      ensures old(ready.Contents()) != multiset{} ==> next.slot < MAX_PROCS && Chosen(old(ready.Contents()), next)
      ensures State() == HandOver(old(State()), next)
    {
      hide Chosen, PriorityQueue.Valid, PriorityQueue.Contents;
      next := Ref(0, 0);
      var empty := ready.IsEmpty();
      if empty {
        executing := None;
        return;
      }
      next := Dispatch();
    }

    /** scheduler: one tick. The freed slot is the one whose address space is given to free_proc. */
    method Tick(slice: nat) returns (freed: MaybeSlot, ghost next: Ref)
      requires Valid() && Inv(State())
      modifies this, ready, ready.data
      ensures Valid() && CanTick(old(State()), slice, next) && State() == AfterTick(old(State()), slice, next) && Inv(State())
      ensures freed == Freed(old(State()), Event.Tick(slice, next))
    {
      ghost var s := State();
      hide Inv, AfterTick, CanTick, PriorityQueue.Valid, PriorityQueue.Contents;
      freed := zombie;
      zombie := None;
      NoZombie(s);
      next := TickExecuting(slice);
      ZombieApart(s, slice, next);
      TickKeeps(s, slice, next);
    }

    /** The scheduler once the zombie is dealt with. */
    method TickExecuting(slice: nat) returns (ghost next: Ref)
      requires Valid() && Inv(State()) && zombie == None
      modifies this`executing, this`procs, ready, ready.data
      ensures Valid() && CanTick(old(State()), slice, next) && State() == AfterTick(old(State()), slice, next)
    {
      ghost var s := State();
      InvBounds(s);
      SlotsInRange(s);
      hide Inv, Chosen, AfterTick, CanTick, PriorityQueue.Valid, PriorityQueue.Contents;
      next := Ref(0, 0);
      if executing == None {
        TickIdle(s, slice, next);
        return;
      }
      var prev := executing.slot;
      Charge(prev, slice);
      if procs[prev].burst <= 0 {
        SetProc(prev, procs[prev].(state := TERMINATED));
        assert procs == s.procs[prev := Charged(s.procs[prev], slice).(state := TERMINATED)];
        next := PopOrKernel();
        TickEnds(s, slice, next);
      } else {
        next := Preempt(prev);
        TickGoesOn(s, slice, next);
      }
    }

    method SetProc(i: nat, p: Pcb)
      requires Valid() && i < MAX_PROCS
      modifies this`procs
      ensures Valid() && State() == old(State()).(procs := old(procs)[i := p])
    {
      procs := procs[i := p];
    }

    /** The executing process is charged for the tick, unless it spins. */
    method Charge(prev: nat, slice: nat)
      requires Valid() && prev < MAX_PROCS
      modifies this`procs
      ensures Valid() && State() == old(State()).(procs := old(procs)[prev := Charged(old(procs)[prev], slice)])
    {
      if !procs[prev].spinning {
        procs := procs[prev := procs[prev].(burst := procs[prev].burst - slice)];
      }
      assert procs == old(procs)[prev := Charged(old(procs)[prev], slice)];
    }

    method Requeue(r: Ref)
      requires Valid() && r.slot < MAX_PROCS && forall x :: x in ready.Contents() ==> x.slot < MAX_PROCS
      requires ready.Contents() != multiset{}
      modifies ready, ready.data
      ensures Valid() && State() == old(State()).(ready := Pushed(old(State()).ready, r))
      ensures ready.Contents() != multiset{} && forall x :: x in ready.Contents() ==> x.slot < MAX_PROCS
    {
      ready.Push(r);
    }

    /** The executing process goes back into the queue when others wait. */
    method Preempt(prev: nat) returns (ghost next: Ref)
      requires Valid() && prev < MAX_PROCS && forall r :: r in ready.Contents() ==> r.slot < MAX_PROCS
      modifies this`executing, this`procs, ready, ready.data
      ensures Valid()
      ensures var s := old(State());
              if s.ready == multiset{} then State() == s
              else
                var u := s.(procs := SetState(s.procs, prev, READY), ready := Pushed(s.ready, Ref(prev, s.procs[prev].priority)));
                next.slot < MAX_PROCS && Chosen(u.ready, next) && State() == Dispatched(u, next)
    {
      hide Chosen, PriorityQueue.Valid, PriorityQueue.Contents;
      next := Ref(0, 0);
      var empty := ready.IsEmpty();
      if empty {
        return;
      }
      hide Dispatched, Pushed;
      SetProc(prev, procs[prev].(state := READY));
      Requeue(Ref(prev, procs[prev].priority));
      next := Dispatch();
    }
  }

  lemma ExitIs(s: Sched, r: Ref)
    requires s.exec.Some? ==> s.exec.slot < |s.procs|
    requires s.ready != multiset{} ==> r.slot < |s.procs| && Chosen(s.ready, r)
    ensures CanStep(s, Exit(r))
    ensures var t := if s.exec.Some? then s.(procs := s.procs[s.exec.slot := s.procs[s.exec.slot].(state := TERMINATED)]) else s;
            Step(s, Exit(r)) == HandOver(t.(zombie := s.exec), r)
  {
  }

  /** The zombie does not influence the rest of a tick. */
  lemma ZombieApart(s: Sched, slice: nat, r: Ref)
    requires CanTick(s.(zombie := None), slice, r)
    ensures CanTick(s, slice, r) && AfterTick(s, slice, r) == AfterTick(s.(zombie := None), slice, r)
  {
  }

  // The three courses of a tick, from a state without a zombie.

  lemma TickIdle(s: Sched, slice: nat, r: Ref)
    requires s.exec == None && s.zombie == None
    ensures CanTick(s, slice, r) && AfterTick(s, slice, r) == s
  {
  }

  lemma TickEnds(s: Sched, slice: nat, r: Ref)
    requires s.exec.Some? && s.exec.slot < |s.procs| && s.zombie == None
    requires Charged(s.procs[s.exec.slot], slice).burst <= 0
    requires s.ready != multiset{} ==> r.slot < |s.procs| && Chosen(s.ready, r)
    ensures CanTick(s, slice, r)
    ensures AfterTick(s, slice, r) == HandOver(s.(procs := s.procs[s.exec.slot := Charged(s.procs[s.exec.slot], slice).(state := TERMINATED)]), r)
  {
  }

  lemma TickGoesOn(s: Sched, slice: nat, r: Ref)
    requires s.exec.Some? && s.exec.slot < |s.procs| && s.zombie == None
    requires Charged(s.procs[s.exec.slot], slice).burst > 0
    requires var p := Charged(s.procs[s.exec.slot], slice);
             s.ready != multiset{} ==> r.slot < |s.procs| && Chosen(Pushed(s.ready, Ref(s.exec.slot, p.priority)), r)
    ensures CanTick(s, slice, r)
    ensures var e := s.exec.slot; var p := Charged(s.procs[e], slice);
            AfterTick(s, slice, r) ==
            if s.ready == multiset{} then s.(procs := s.procs[e := p])
            else Dispatched(s.(procs := SetState(s.procs[e := p], e, READY), ready := Pushed(s.ready, Ref(e, p.priority))), r)
  {
    var e := s.exec.slot;
    assert SetState(s.procs[e := Charged(s.procs[e], slice)], e, READY) == s.procs[e := Charged(s.procs[e], slice).(state := READY)];
  }

  lemma SlotsInRange(s: Sched)
    requires Inv(s)
    ensures |s.procs| == MAX_PROCS && forall r :: r in s.ready ==> r.slot < MAX_PROCS
  {
  }

  lemma PopChosen(ready: multiset<Ref>, r: Ref)
    requires r in ready && forall x :: x in ready ==> x.priority <= r.priority
    ensures Chosen(ready, r)
  {
  }
}
