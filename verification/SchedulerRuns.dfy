/** Whole runs of the scheduler: who owns each process, what is freed, and when a run ends. */
module SchedulerRuns {
  import opened Queue
  import opened Scheduler

  ghost predicate CanRun(s: Sched, es: seq<Event>)
    decreases |es|
  {
    es == [] || (CanStep(s, es[0]) && CanRun(Step(s, es[0]), es[1..]))
  }

  function Run(s: Sched, es: seq<Event>): Sched
    requires CanRun(s, es)
    decreases |es|
  {
    if es == [] then s else Run(Step(s, es[0]), es[1..])
  }

  lemma {:induction false} RunKeeps(s: Sched, es: seq<Event>)
    requires Inv(s) && CanRun(s, es)
    ensures Inv(Run(s, es))
    decreases |es|
  {
    hide Inv, Step, CanStep;
    if es != [] {
      StepKeeps(s, es[0]);
      RunKeeps(Step(s, es[0]), es[1..]);
    }
  }

  // ---------- ownership ----------

  /**
   After every run each created process is in exactly one place: once in the queue and READY,
   executing, or finished. The queue never holds more than the table has slots.
   */
  lemma Ownership(s: Sched, es: seq<Event>, i: nat)
    requires Inv(s) && CanRun(s, es)
    requires i < MAX_PROCS
    ensures var t := Run(s, es);
            && |t.procs| == MAX_PROCS && |t.ready| <= MAX_PROCS
            && (t.procs[i].state == UNUSED ==> !Queued(t, i) && !Executing(t, i) && !Finished(t, i))
            && (t.procs[i].state != UNUSED ==>
                  (Queued(t, i) && !Executing(t, i) && !Finished(t, i)) ||
                  (!Queued(t, i) && Executing(t, i) && !Finished(t, i)) ||
                  (!Queued(t, i) && !Executing(t, i) && Finished(t, i)))
            && (Queued(t, i) <==> t.procs[i].state == READY)
            && (Executing(t, i) || Finished(t, i) ==> t.procs[i].state == TERMINATED)
            && (Queued(t, i) ==> forall r :: r in t.ready && r.slot == i ==> t.ready[r] == 1 && r == Ref(i, t.procs[i].priority))
  {
    hide Run, CanRun;
    var t := Run(s, es);
    RunKeeps(s, es);
    ReadyIsSmall(t);
    if t.procs[i].state == READY {
      assert Ref(i, t.procs[i].priority) in t.ready;
    }
  }

  /** What an event can bring about: where queued, executing and zombie processes come from. */
  predicate Shape(s: Sched, t: Sched) {
    && |t.procs| == |s.procs|
    && (forall j :: 0 <= j < |s.procs| && s.procs[j].state != UNUSED ==> t.procs[j].state != UNUSED)
    && (forall r :: r in t.ready ==> FromReady(s, r.slot) || s.exec == Some(r.slot) || Unused(s, r.slot))
    && (t.exec.Some? ==> FromReady(s, t.exec.slot) || t.exec == s.exec)
    && (t.zombie == None || t.zombie == s.exec || t.zombie == s.zombie)
  }

  predicate FromReady(s: Sched, i: nat) {
    i < |s.procs| && s.procs[i].state == READY
  }

  predicate Unused(s: Sched, i: nat) {
    i < |s.procs| && s.procs[i].state == UNUSED
  }

  lemma QueuedIsReady(s: Sched, r: Ref)
    requires Inv(s) && r in s.ready
    ensures FromReady(s, r.slot) && s.procs[r.slot].priority == r.priority
  {
  }

  lemma CreateShape(s: Sched, ok: bool)
    requires Inv(s)
    ensures Shape(s, AfterCreate(s, ok))
  {
    forall r | r in s.ready { QueuedIsReady(s, r); }
    ReadyIsSmall(s);
    hide Inv;
  }

  lemma DispatchShape(s: Sched, t: Sched, r: Ref)
    requires Shape(s, t) && r.slot < |s.procs| && (FromReady(s, r.slot) || s.exec == Some(r.slot))
    ensures Shape(s, Dispatched(t, r))
  {
  }

  lemma ExitShape(s: Sched, r: Ref)
    requires Inv(s) && CanPop(s, r)
    ensures s.exec.Some? ==> s.exec.slot < |s.procs|
    ensures Shape(s, AfterExit(s, r))
  {
    hide Inv, Chosen;
    InvBounds(s);
    forall x | x in s.ready { QueuedIsReady(s, x); }
    var t := if s.exec.Some? then s.(procs := SetState(s.procs, s.exec.slot, TERMINATED)) else s;
    var u := t.(zombie := s.exec);
    assert Shape(s, u);
    if s.ready != multiset{} {
      assert r in s.ready by { ChosenIn(s.ready, r); }
      DispatchShape(s, u, r);
    }
  }

  lemma ChosenIn(ready: multiset<Ref>, r: Ref)
    requires Chosen(ready, r)
    ensures r in ready
  {
  }

  lemma TickShape(s: Sched, slice: nat, r: Ref)
    requires Inv(s) && CanTick(s, slice, r)
    ensures Shape(s, AfterTick(s, slice, r))
  {
    hide Inv, Chosen;
    InvBounds(s);
    forall x | x in s.ready { QueuedIsReady(s, x); }
    if s.exec.Some? {
      var e := s.exec.slot;
      var p := Charged(s.procs[e], slice);
      if p.burst <= 0 {
        var u := s.(procs := s.procs[e := p.(state := TERMINATED)], zombie := None);
        assert Shape(s, u);
        if s.ready != multiset{} {
          ChosenIn(s.ready, r);
          DispatchShape(s, u, r);
        }
      } else if s.ready != multiset{} {
        var u := s.(procs := s.procs[e := p.(state := READY)], ready := Pushed(s.ready, Ref(e, p.priority)), zombie := None);
        assert Shape(s, u);
        ChosenIn(u.ready, r);
        assert r in s.ready || r == Ref(e, p.priority);
        DispatchShape(s, u, r);
      }
    }
  }

  lemma StepShape(s: Sched, e: Event)
    requires Inv(s) && CanStep(s, e)
    ensures Shape(s, Step(s, e))
  {
    match e {
      case Create(ok) => CreateShape(s, ok);
      case Start(r) =>
        hide Inv;
        if s.ready != multiset{} {
          QueuedIsReady(s, r);
          assert Shape(s, s) by { forall x | x in s.ready { QueuedIsReady(s, x); } }
          DispatchShape(s, s, r);
        } else {
          assert Shape(s, s);
        }
      case Exit(r) => ExitShape(s, r);
      case Tick(slice, r) => TickShape(s, slice, r);
    }
  }

  /** A finished process is not queued or started by any event, and its slot is not used again. */
  lemma FinishedStep(s: Sched, e: Event, i: nat)
    requires Inv(s) && CanStep(s, e) && Finished(s, i)
    ensures Finished(Step(s, e), i)
  {
    StepShape(s, e);
    if FromReady(s, i) {
      ReadyIsQueued(s, i);
    }
    hide Step, CanStep, Inv;
  }

  lemma ReadyIsQueued(s: Sched, i: nat)
    requires Inv(s) && FromReady(s, i)
    ensures Ref(i, s.procs[i].priority) in s.ready
  {
  }

  lemma {:induction false} FinishedStays(s: Sched, es: seq<Event>, i: nat)
    requires Inv(s) && CanRun(s, es) && Finished(s, i)
    ensures Finished(Run(s, es), i)
    decreases |es|
  {
    hide Inv, Step, CanStep, Finished;
    if es != [] {
      StepKeeps(s, es[0]);
      FinishedStep(s, es[0], i);
      FinishedStays(Step(s, es[0]), es[1..], i);
    }
  }

  // ---------- what each event does to each process ----------

  /** The executing process is charged at a tick unless it spins. */
  predicate ChargedBy(s: Sched, e: Event, i: nat)
    requires i < |s.procs|
  {
    e.Tick? && s.exec == Some(i) && !s.procs[i].spinning
  }

  /** The two ways to finish: an exit, and a tick that uses up the burst. */
  predicate EndedBy(s: Sched, e: Event, i: nat)
    requires i < |s.procs|
  {
    s.exec == Some(i) && (e.Exit? || (e.Tick? && (if s.procs[i].spinning then s.procs[i].burst else s.procs[i].burst - e.slice) <= 0))
  }

  /**
   For every event and every process that exists: its priority and its spinning flag stay, its
   burst changes only by the slice of a tick it is charged for, and it stops being queued or
   executing exactly when the event ends it.
   */
  lemma EventEffect(s: Sched, e: Event, i: nat)
    requires Inv(s) && CanStep(s, e) && i < |s.procs| && s.procs[i].state != UNUSED
    ensures var t := Step(s, e);
            && |t.procs| == |s.procs| && t.procs[i].state != UNUSED
            && t.procs[i].priority == s.procs[i].priority && t.procs[i].spinning == s.procs[i].spinning
            && t.procs[i].burst == s.procs[i].burst - (if ChargedBy(s, e, i) then e.slice else 0)
            && (Active(t, i) <==> Active(s, i) && !EndedBy(s, e, i))
  {
    hide Inv, Chosen;
    InvBounds(s);
    NextReady(s, e);
    if s.exec.Some? {
      ExecRuns(s);
    }
    match e {
      case Create(ok) => hide Pushed;
      case Start(r) =>
        if s.ready != multiset{} { DispatchEffect(s, r, i); }
      case Exit(r) => ExitEffect(s, r, i);
      case Tick(slice, r) => TickEffect(s, slice, r, i);
    }
  }

  /** The element a queue gives out stands for a ready process. */
  lemma NextReady(s: Sched, e: Event)
    requires Inv(s) && CanStep(s, e)
    ensures match e
            case Start(r) => s.ready != multiset{} ==> FromReady(s, r.slot)
            case Exit(r) => s.ready != multiset{} ==> FromReady(s, r.slot)
            case Tick(_, r) => s.exec.Some? && s.ready != multiset{} ==> FromReady(s, r.slot) || r.slot == s.exec.slot
            case _ => true
    ensures e.Tick? && s.exec.Some? && s.ready != multiset{} ==>
              s.exec.slot < |s.procs| && (Charged(s.procs[s.exec.slot], e.slice).burst <= 0 ==> FromReady(s, e.next.slot))
  {
  }

  lemma DispatchEffect(u: Sched, r: Ref, i: nat)
    requires r.slot < |u.procs| && i < |u.procs|
    ensures var t := Dispatched(u, r);
            && |t.procs| == |u.procs| && t.procs[i] == u.procs[i].(state := t.procs[i].state)
            && t.procs[i].state == (if i == r.slot then SWITCHED else u.procs[i].state)
            && (Active(t, i) <==> i == r.slot || u.procs[i].state == READY)
  {
  }

  lemma ExitEffect(s: Sched, r: Ref, i: nat)
    requires CanStep(s, Exit(r)) && i < |s.procs| && s.procs[i].state != UNUSED
    requires s.ready != multiset{} ==> FromReady(s, r.slot)
    requires s.exec.Some? ==> s.exec.slot < |s.procs| && s.procs[s.exec.slot].state == SWITCHED
    ensures var t := AfterExit(s, r);
            && |t.procs| == |s.procs| && t.procs[i].state != UNUSED && t.procs[i] == s.procs[i].(state := t.procs[i].state)
            && (Active(t, i) <==> Active(s, i) && s.exec != Some(i))
  {
    hide Chosen, Dispatched;
    var t := if s.exec.Some? then s.(procs := SetState(s.procs, s.exec.slot, TERMINATED)) else s;
    if s.ready != multiset{} {
      DispatchEffect(t.(zombie := s.exec), r, i);
    }
  }

  lemma TickEffect(s: Sched, slice: nat, r: Ref, i: nat)
    requires CanTick(s, slice, r) && i < |s.procs| && s.procs[i].state != UNUSED
    requires s.exec.Some? && s.ready != multiset{} ==> FromReady(s, r.slot) || r.slot == s.exec.slot
    requires s.exec.Some? && s.ready != multiset{} && Charged(s.procs[s.exec.slot], slice).burst <= 0 ==> FromReady(s, r.slot)
    requires s.exec.Some? ==> s.procs[s.exec.slot].state == SWITCHED
    ensures var t, e := AfterTick(s, slice, r), Tick(slice, r);
            && |t.procs| == |s.procs| && t.procs[i].state != UNUSED
            && t.procs[i].priority == s.procs[i].priority && t.procs[i].spinning == s.procs[i].spinning
            && t.procs[i].burst == s.procs[i].burst - (if ChargedBy(s, e, i) then slice else 0)
            && (Active(t, i) <==> Active(s, i) && !EndedBy(s, e, i))
  {
    hide Chosen, Dispatched, Pushed;
    if s.exec.Some? && s.ready != multiset{} {
      var x := s.exec.slot;
      var p := Charged(s.procs[x], slice);
      if p.burst <= 0 {
        DispatchEffect(s.(procs := s.procs[x := p.(state := TERMINATED)], zombie := None), r, i);
      } else {
        DispatchEffect(s.(procs := s.procs[x := p.(state := READY)], ready := Pushed(s.ready, Ref(x, p.priority)), zombie := None), r, i);
      }
    }
  }

  /**
   A create fills the first unused slot, if there is one and the address space could be built, and
   no other event fills a slot. The new process is ready, with priority 1, a burst of 400 and a
   clear spinning flag.
   */
  lemma CreateEffect(s: Sched, e: Event, i: nat)
    requires Inv(s) && CanStep(s, e) && i < |s.procs| && s.procs[i].state == UNUSED
    ensures var t := Step(s, e);
            && |t.procs| == |s.procs|
            && t.procs[i] == if e.Create? && e.spaceOk && forall j :: 0 <= j < i ==> s.procs[j].state != UNUSED
                             then Pcb(READY, 1, 400, false) else s.procs[i]
  {
    hide Inv, Chosen, Pushed, Dispatched;
    InvBounds(s);
    NextReady(s, e);
    if s.exec.Some? {
      ExecRuns(s);
    }
    match e {
      case Create(ok) =>
        FindSlotExactly(s.procs, 0);
      case Start(r) =>
        if s.ready != multiset{} { DispatchEffect(s, r, i); }
      case Exit(r) => ExitUnused(s, r, i);
      case Tick(slice, r) => TickUnused(s, slice, r, i);
    }
  }

  lemma ExitUnused(s: Sched, r: Ref, i: nat)
    requires CanStep(s, Exit(r)) && i < |s.procs| && s.procs[i].state == UNUSED
    requires s.ready != multiset{} ==> FromReady(s, r.slot)
    requires s.exec.Some? ==> s.exec.slot < |s.procs| && s.procs[s.exec.slot].state == SWITCHED
    ensures |AfterExit(s, r).procs| == |s.procs| && AfterExit(s, r).procs[i] == s.procs[i]
  {
    hide Chosen, Dispatched;
    var t := if s.exec.Some? then s.(procs := SetState(s.procs, s.exec.slot, TERMINATED)) else s;
    if s.ready != multiset{} {
      DispatchEffect(t.(zombie := s.exec), r, i);
    }
  }

  lemma TickUnused(s: Sched, slice: nat, r: Ref, i: nat)
    requires CanTick(s, slice, r) && i < |s.procs| && s.procs[i].state == UNUSED
    requires s.exec.Some? && s.ready != multiset{} ==> FromReady(s, r.slot) || r.slot == s.exec.slot
    requires s.exec.Some? ==> s.procs[s.exec.slot].state == SWITCHED
    ensures |AfterTick(s, slice, r).procs| == |s.procs| && AfterTick(s, slice, r).procs[i] == s.procs[i]
  {
    hide Chosen, Dispatched, Pushed;
    if s.exec.Some? && s.ready != multiset{} {
      var x := s.exec.slot;
      var p := Charged(s.procs[x], slice);
      if p.burst <= 0 {
        DispatchEffect(s.(procs := s.procs[x := p.(state := TERMINATED)], zombie := None), r, i);
      } else {
        DispatchEffect(s.(procs := s.procs[x := p.(state := READY)], ready := Pushed(s.ready, Ref(x, p.priority)), zombie := None), r, i);
      }
    }
  }

  /** Nobody left in the queue has a higher priority than process `i`. */
  predicate Highest(t: Sched, i: nat)
    requires i < |t.procs|
  {
    forall x :: x in t.ready ==> x.priority <= t.procs[i].priority
  }

  lemma DispatchHighest(s: Sched, r: Ref)
    requires r.slot < |s.procs| && Chosen(s.ready, r) && s.procs[r.slot].priority == r.priority
    ensures Highest(Dispatched(s, r), r.slot)
  {
  }

  /** A start with a queue that is not empty gives control to a process of highest priority; otherwise it changes nothing. */
  lemma StartHighest(s: Sched, r: Ref)
    requires Inv(s) && CanStep(s, Start(r))
    ensures var t := AfterStart(s, r);
            if s.ready == multiset{} then t == s
            else t.exec == Some(r.slot) && r.slot < |t.procs| && Highest(t, r.slot)
  {
    hide Inv;
    InvBounds(s);
    if s.ready != multiset{} {
      QueuedIsReady(s, r);
      DispatchHighest(s, r);
    }
  }

  /** An exit that hands over gives control to a process of highest priority. */
  lemma ExitHighest(s: Sched, r: Ref)
    requires Inv(s) && CanPop(s, r) && s.ready != multiset{}
    ensures s.exec.Some? ==> s.exec.slot < |s.procs|
    ensures var t := AfterExit(s, r);
            t.exec == Some(r.slot) && r.slot < |t.procs| && Highest(t, r.slot)
  {
    InvBounds(s);
    QueuedIsReady(s, r);
    hide Inv;
    var t := if s.exec.Some? then s.(procs := SetState(s.procs, s.exec.slot, TERMINATED)) else s;
    DispatchHighest(t.(zombie := s.exec), r);
  }

  /** So does a tick with a queue that is not empty, whether the executing process ends or goes back. */
  lemma TickHighest(s: Sched, slice: nat, r: Ref)
    requires Inv(s) && CanTick(s, slice, r) && s.exec.Some? && s.ready != multiset{}
    ensures var t := AfterTick(s, slice, r);
            t.exec == Some(r.slot) && r.slot < |t.procs| && Highest(t, r.slot)
  {
    hide Inv;
    InvBounds(s);
    var e := s.exec.slot;
    var p := Charged(s.procs[e], slice);
    if r in s.ready {
      QueuedIsReady(s, r);
    }
    if p.burst <= 0 {
      DispatchHighest(s.(procs := s.procs[e := p.(state := TERMINATED)], zombie := None), r);
    } else {
      DispatchHighest(s.(procs := s.procs[e := p.(state := READY)], ready := Pushed(s.ready, Ref(e, p.priority)), zombie := None), r);
    }
  }

  // ---------- freeing ----------

  /** Finished, and not waiting to be freed. */
  predicate Settled(s: Sched, i: nat) {
    Finished(s, i) && s.zombie != Some(i)
  }

  lemma SettledStep(s: Sched, e: Event, i: nat)
    requires Inv(s) && CanStep(s, e) && Settled(s, i)
    ensures Settled(Step(s, e), i) && Freed(s, e) != Some(i)
  {
    FinishedStep(s, e, i);
    StepShape(s, e);
    hide Step, CanStep, Inv;
  }

  /** The events of a run that free the address space of process `i`. */
  function TimesFreed(s: Sched, es: seq<Event>, i: nat): nat
    requires CanRun(s, es)
    decreases |es|
  {
    if es == [] then 0
    else (if Freed(s, es[0]) == Some(i) then 1 else 0) + TimesFreed(Step(s, es[0]), es[1..], i)
  }

  lemma {:induction false} SettledNeverFreed(s: Sched, es: seq<Event>, i: nat)
    requires Inv(s) && CanRun(s, es) && Settled(s, i)
    ensures TimesFreed(s, es, i) == 0
    decreases |es|
  {
    hide Inv, Step, CanStep, Settled, Freed;
    if es != [] {
      StepKeeps(s, es[0]);
      SettledStep(s, es[0], i);
      SettledNeverFreed(Step(s, es[0]), es[1..], i);
    }
  }

  /** What is freed was finished, and is settled from then on. */
  lemma FreedSettles(s: Sched, e: Event, i: nat)
    requires Inv(s) && CanStep(s, e) && Freed(s, e) == Some(i)
    ensures Finished(s, i) && Settled(Step(s, e), i)
  {
    forall r | r in s.ready ensures r.slot != i {
    }
    FinishedStep(s, e, i);
  }

  /** No address space is freed twice. */
  lemma {:induction false} FreedOnce(s: Sched, es: seq<Event>, i: nat)
    requires Inv(s) && CanRun(s, es)
    ensures TimesFreed(s, es, i) <= 1
    decreases |es|
  {
    hide Inv, Step, CanStep, Settled, Freed;
    if es != [] {
      StepKeeps(s, es[0]);
      if Freed(s, es[0]) == Some(i) {
        FreedSettles(s, es[0], i);
        SettledNeverFreed(Step(s, es[0]), es[1..], i);
      } else {
        FreedOnce(Step(s, es[0]), es[1..], i);
      }
    }
  }

  /** A process that ends by using up its time is never freed, */
  lemma BurstNeverFreed(s: Sched, slice: nat, r: Ref, es: seq<Event>)
    requires Inv(s) && CanTick(s, slice, r) && s.exec.Some?
    requires Charged(s.procs[s.exec.slot], slice).burst <= 0
    requires CanRun(AfterTick(s, slice, r), es)
    ensures TimesFreed(AfterTick(s, slice, r), es, s.exec.slot) == 0
  {
    TickKeeps(s, slice, r);
    BurstSettles(s, slice, r);
    SettledNeverFreed(AfterTick(s, slice, r), es, s.exec.slot);
  }

  lemma BurstSettles(s: Sched, slice: nat, r: Ref)
    requires Inv(s) && CanTick(s, slice, r) && s.exec.Some?
    requires Charged(s.procs[s.exec.slot], slice).burst <= 0
    ensures Settled(AfterTick(s, slice, r), s.exec.slot)
  {
    InvBounds(s);
    forall x | x in s.ready { QueuedIsReady(s, x); }
    assert s.procs[s.exec.slot].state != READY;
    if s.ready != multiset{} {
      ChosenIn(s.ready, r);
    }
    hide Inv, Chosen;
  }

  /** nor is one that exits and is still the zombie when the next one exits. */
  lemma ZombieLost(s: Sched, r: Ref, es: seq<Event>)
    requires Inv(s) && CanPop(s, r) && s.zombie.Some? && CanStep(s, Exit(r))
    requires CanRun(Step(s, Exit(r)), es)
    ensures TimesFreed(Step(s, Exit(r)), es, s.zombie.slot) == 0
  {
    var t, i := Step(s, Exit(r)), s.zombie.slot;
    StepKeeps(s, Exit(r));
    assert Finished(s, i);
    FinishedStep(s, Exit(r), i);
    SettledNeverFreed(t, es, i);
  }

  /** A tick comes before any exit. */
  predicate TickFirst(es: seq<Event>) {
    es != [] && (es[0].Tick? || (!es[0].Exit? && TickFirst(es[1..])))
  }

  /** A zombie is freed in a run exactly when a tick comes before the next exit, and then once. */
  lemma {:induction false} ZombieFreed(s: Sched, es: seq<Event>, i: nat)
    requires Inv(s) && CanRun(s, es) && s.zombie == Some(i)
    ensures TimesFreed(s, es, i) == if TickFirst(es) then 1 else 0
    decreases |es|
  {
    hide Inv, Step, CanStep, Settled;
    if es != [] {
      StepKeeps(s, es[0]);
      match es[0] {
        case Tick(_, _) =>
          FreedSettles(s, es[0], i);
          SettledNeverFreed(Step(s, es[0]), es[1..], i);
        case Exit(r) =>
          ExitSteps(s, r);
          ZombieLost(s, r, es[1..]);
        case _ =>
          ZombieWaits(s, es[0]);
          ZombieFreed(Step(s, es[0]), es[1..], i);
      }
    }
  }

  lemma ExitSteps(s: Sched, r: Ref)
    requires CanStep(s, Exit(r))
    ensures CanPop(s, r)
  {
  }

  lemma ZombieWaits(s: Sched, e: Event)
    requires CanStep(s, e) && !e.Tick? && !e.Exit?
    ensures Step(s, e).zombie == s.zombie
  {
  }

  /** The executing process exits, and its address space is freed in what follows exactly when a tick comes first. */
  lemma ExitThenFreed(s: Sched, r: Ref, es: seq<Event>)
    requires Inv(s) && CanStep(s, Exit(r)) && s.exec.Some? && CanRun(Step(s, Exit(r)), es)
    ensures TimesFreed(Step(s, Exit(r)), es, s.exec.slot) == if TickFirst(es) then 1 else 0
  {
    hide Inv;
    StepKeeps(s, Exit(r));
    ZombieFreed(Step(s, Exit(r)), es, s.exec.slot);
  }

  /** Somewhere in the run process `i` exits, and a tick comes before the next exit. */
  predicate ExitsBeforeTick(s: Sched, es: seq<Event>, i: nat)
    requires CanRun(s, es)
    decreases |es|
  {
    es != [] && ((es[0].Exit? && s.exec == Some(i) && TickFirst(es[1..])) || ExitsBeforeTick(Step(s, es[0]), es[1..], i))
  }

  /**
   Over every run the address space of a process is freed, and then once, exactly when the process
   leaves by process_exit and a tick comes before the next exit. Ending by a used-up burst never
   frees it.
   */
  lemma {:induction false} FreedExactly(s: Sched, es: seq<Event>, i: nat)
    requires Inv(s) && CanRun(s, es) && s.zombie != Some(i)
    ensures TimesFreed(s, es, i) == if ExitsBeforeTick(s, es, i) then 1 else 0
    decreases |es|
  {
    hide Inv, Step, CanStep, Finished;
    if es != [] {
      var t := Step(s, es[0]);
      StepKeeps(s, es[0]);
      ZombieIsLeaver(s, es[0]);
      if t.zombie == Some(i) {
        ZombieFreed(t, es[1..], i);
        ZombieFinished(t, i);
        FinishedNeverExits(t, es[1..], i);
      } else {
        FreedExactly(t, es[1..], i);
      }
    }
  }

  /** Only an exit makes a zombie: of the process that executed. */
  lemma ZombieIsLeaver(s: Sched, e: Event)
    requires CanStep(s, e)
    ensures Step(s, e).zombie == match e case Exit(_) => s.exec case Tick(_, _) => None case _ => s.zombie
  {
    hide Chosen;
  }

  lemma ZombieFinished(s: Sched, i: nat)
    requires Inv(s) && s.zombie == Some(i)
    ensures Finished(s, i)
  {
  }

  lemma {:induction false} FinishedNeverExits(s: Sched, es: seq<Event>, i: nat)
    requires Inv(s) && CanRun(s, es) && Finished(s, i)
    ensures !ExitsBeforeTick(s, es, i)
    decreases |es|
  {
    hide Inv, Step, CanStep, TickFirst;
    if es != [] {
      StepKeeps(s, es[0]);
      FinishedStep(s, es[0], i);
      FinishedNeverExits(Step(s, es[0]), es[1..], i);
    }
  }

  /** One event in front of a run. */
  lemma Before(s: Sched, e: Event, t: Sched, es: seq<Event>, i: nat)
    requires CanStep(s, e) && Step(s, e) == t && CanRun(t, es)
    ensures CanRun(s, [e] + es)
    ensures TimesFreed(s, [e] + es, i) == (if Freed(s, e) == Some(i) then 1 else 0) + TimesFreed(t, es, i)
  {
    hide CanStep, Step, Freed;
    assert ([e] + es)[1..] == es;
  }

  const WAITING := Pcb(READY, PRIORITY, BURST, false)
  const GONE := Pcb(TERMINATED, PRIORITY, BURST, false)  // the same number as for a running process

  /** Two processes are created and started; */
  lemma TwoStart()
    ensures var w0, w1 := Ref(0, PRIORITY), Ref(1, PRIORITY);
            var s1 := Sched([WAITING, NOTHING, NOTHING, NOTHING], multiset{w0}, None, None);
            var s2 := Sched([WAITING, WAITING, NOTHING, NOTHING], multiset{w0, w1}, None, None);
            && Step(Initial(), Create(true)) == s1
            && Step(s1, Create(true)) == s2
            && CanStep(s2, Start(w0)) && Step(s2, Start(w0)) == Sched([GONE, WAITING, NOTHING, NOTHING], multiset{w1}, Some(0), None)
  {
    assert FindSlot(Initial().procs, 0) == 0;
    var p := [WAITING, NOTHING, NOTHING, NOTHING];
    assert FindSlot(p, 0) == FindSlot(p, 1) == 1;
    assert Initial().procs[0 := WAITING] == p;
    assert p[1 := WAITING] == [WAITING, WAITING, NOTHING, NOTHING];
    assert [WAITING, WAITING, NOTHING, NOTHING][0 := GONE] == [GONE, WAITING, NOTHING, NOTHING];
    assert multiset{Ref(0, PRIORITY), Ref(1, PRIORITY)} - multiset{Ref(0, PRIORITY)} == multiset{Ref(1, PRIORITY)};
  }

  /** then they exit one after the other. */
  lemma TwoEnd()
    ensures var w1 := Ref(1, PRIORITY);
            var s3 := Sched([GONE, WAITING, NOTHING, NOTHING], multiset{w1}, Some(0), None);
            var s4 := Sched([GONE, GONE, NOTHING, NOTHING], multiset{}, Some(1), Some(0));
            && CanStep(s3, Exit(w1)) && Step(s3, Exit(w1)) == s4
            && CanStep(s4, Exit(w1)) && Step(s4, Exit(w1)) == Sched([GONE, GONE, NOTHING, NOTHING], multiset{}, None, Some(1))
  {
    assert [GONE, WAITING, NOTHING, NOTHING][0 := GONE] == [GONE, WAITING, NOTHING, NOTHING];
    assert [GONE, WAITING, NOTHING, NOTHING][1 := GONE] == [GONE, GONE, NOTHING, NOTHING];
    assert [GONE, GONE, NOTHING, NOTHING][1 := GONE] == [GONE, GONE, NOTHING, NOTHING];
    assert multiset{Ref(1, PRIORITY)} - multiset{Ref(1, PRIORITY)} == multiset{};
  }

  /** A run that loses an address space: of two processes that exit between two ticks only the second is freed. */
  lemma LostExample() returns (es: seq<Event>)
    ensures CanRun(Initial(), es) && TimesFreed(Initial(), es, 0) == 0 && TimesFreed(Initial(), es, 1) == 1
  {
    hide Step, CanStep, Initial, CanRun, TimesFreed;
    TwoStart();
    TwoEnd();
    var w0, w1 := Ref(0, PRIORITY), Ref(1, PRIORITY);
    CreateCan(Initial());
    var s1 := Step(Initial(), Create(true));
    CreateCan(s1);
    var s2 := Step(s1, Create(true));
    var s3 := Step(s2, Start(w0));
    var s4 := Step(s3, Exit(w1));
    var s5 := Step(s4, Exit(w1));
    LastTick(s5);
    es := [Tick(1, w1)];
    forall i: nat { Before(s4, Exit(w1), s5, es, i); }
    es := [Exit(w1)] + es;
    forall i: nat { Before(s3, Exit(w1), s4, es, i); }
    es := [Exit(w1)] + es;
    forall i: nat { Before(s2, Start(w0), s3, es, i); }
    es := [Start(w0)] + es;
    forall i: nat { Before(s1, Create(true), s2, es, i); }
    es := [Create(true)] + es;
    forall i: nat { Before(Initial(), Create(true), s1, es, i); }
    es := [Create(true)] + es;
  }

  lemma CreateCan(s: Sched)
    ensures CanStep(s, Create(true))
  {
  }

  lemma LastTick(s: Sched)
    requires s.exec == None && s.zombie == Some(1)
    ensures var es := [Tick(1, Ref(1, PRIORITY))];
            CanRun(s, es) && TimesFreed(s, es, 0) == 0 && TimesFreed(s, es, 1) == 1
  {
  }

  // ---------- the end of a run ----------

  /** The ticks a process still needs: its burst in slices, rounded up. */
  function Slices(burst: int, slice: nat): (n: nat)
    requires slice > 0
    decreases if burst > 0 then burst else 0
  {
    if burst <= 0 then 0 else 1 + Slices(burst - slice, slice)
  }

  lemma {:induction false} SlicesIsCeiling(burst: int, slice: nat)
    requires slice > 0 && burst > 0
    ensures (Slices(burst, slice) - 1) * slice < burst <= Slices(burst, slice) * slice
    decreases burst
  {
    var n := Slices(burst - slice, slice);
    if burst > slice {
      SlicesIsCeiling(burst - slice, slice);
      assert (n + 1) * slice == n * slice + slice && n * slice == (n - 1) * slice + slice;
    }
  }

  /** A process that has work left: queued or executing. */
  predicate Active(s: Sched, i: nat)
    requires i < |s.procs|
  {
    s.procs[i].state == READY || s.exec == Some(i)
  }

  function Work(s: Sched, slice: nat, i: nat): (n: nat)
    requires slice > 0 && i <= |s.procs|
    decreases |s.procs| - i
  {
    if i == |s.procs| then 0
    else (if Active(s, i) then Slices(s.procs[i].burst, slice) else 0) + Work(s, slice, i + 1)
  }

  predicate NoSpinning(s: Sched) {
    forall i :: 0 <= i < |s.procs| ==> !s.procs[i].spinning
  }

  /** Time passes only by ticks of one length, and no process is created or started. */
  predicate TickOrExit(e: Event, slice: nat) {
    e.Exit? || (e.Tick? && e.slice == slice)
  }

  /** The work of a state that differs only in one process, which needs less. */
  lemma {:induction false} LessWork(s: Sched, t: Sched, slice: nat, e: nat, i: nat)
    requires slice > 0 && |s.procs| == |t.procs| && e < |s.procs| && i <= |s.procs|
    requires forall j :: 0 <= j < |s.procs| && j != e ==> Active(t, j) == Active(s, j) && t.procs[j].burst == s.procs[j].burst
    requires Active(s, e)
    requires Active(t, e) ==> Slices(t.procs[e].burst, slice) < Slices(s.procs[e].burst, slice)
    requires Slices(s.procs[e].burst, slice) > 0
    ensures if i <= e then Work(t, slice, i) < Work(s, slice, i) else Work(t, slice, i) == Work(s, slice, i)
    decreases |s.procs| - i
  {
    if i < |s.procs| {
      LessWork(s, t, slice, e, i + 1);
    }
  }

  /** Every tick or exit while a process executes lowers the work. */
  lemma WorkFalls(s: Sched, e: Event, slice: nat)
    requires slice > 0 && Inv(s) && NoSpinning(s) && CanStep(s, e) && TickOrExit(e, slice) && s.exec.Some?
    ensures |Step(s, e).procs| == |s.procs| && Work(Step(s, e), slice, 0) < Work(s, slice, 0)
    ensures NoSpinning(Step(s, e)) && (Step(s, e).exec == None ==> Step(s, e).ready == multiset{})
  {
    hide Step, Slices, CanStep, Inv, Active, NoSpinning;
    var t, x := Step(s, e), s.exec.slot;
    InvBounds(s);
    assert Active(s, x) && s.procs[x].burst > 0 by { ExecActive(s); }
    SlicesFall(s.procs[x].burst, slice);
    OthersSame(s, e, slice);
    LessWork(s, t, slice, x, 0);
  }

  lemma ExecActive(s: Sched)
    requires Inv(s) && s.exec.Some?
    ensures s.exec.slot < |s.procs| && Active(s, s.exec.slot) && s.procs[s.exec.slot].burst > 0
  {
  }

  lemma SlicesFall(burst: int, slice: nat)
    requires slice > 0 && burst > 0
    ensures Slices(burst, slice) == 1 + Slices(burst - slice, slice)
  {
  }

  /** What a tick or an exit does to the table: only the executing process loses time; the others stay active. */
  lemma OthersSame(s: Sched, e: Event, slice: nat)
    requires slice > 0 && Inv(s) && NoSpinning(s) && CanStep(s, e) && TickOrExit(e, slice) && s.exec.Some?
    ensures var t, x := Step(s, e), s.exec.slot;
            && |t.procs| == |s.procs| && NoSpinning(t)
            && (forall j :: 0 <= j < |s.procs| && j != x ==> Active(t, j) == Active(s, j) && t.procs[j].burst == s.procs[j].burst)
            && (Active(t, x) ==> t.procs[x].burst == s.procs[x].burst - slice)
            && (t.exec == None ==> t.ready == multiset{})
  {
    hide Inv, Chosen, OthersKept;
    InvBounds(s);
    match e {
      case Exit(r) => ExitOthers(s, slice, r);
      case Tick(_, r) => TickOthers(s, slice, r);
    }
    KeptMeans(s, Step(s, e), slice);
  }

  /** Nothing but the executing process changes in what the work depends on. */
  predicate OthersKept(s: Sched, t: Sched, slice: nat)
    requires s.exec.Some? && s.exec.slot < |s.procs|
  {
    var x := s.exec.slot;
    && |t.procs| == |s.procs| && NoSpinning(t)
    && (forall j :: 0 <= j < |s.procs| && j != x ==> Active(t, j) == Active(s, j) && t.procs[j].burst == s.procs[j].burst)
    && (Active(t, x) ==> t.procs[x].burst == s.procs[x].burst - slice)
    && (t.exec == None ==> t.ready == multiset{})
  }

  lemma EndOthers(s: Sched, p: Pcb, slice: nat, r: Ref)
    requires s.exec.Some? && s.exec.slot < |s.procs| && NoSpinning(s) && p.state == TERMINATED && !p.spinning
    requires s.ready != multiset{} ==> FromReady(s, r.slot) && r.slot != s.exec.slot
    ensures OthersKept(s, HandOver(s.(procs := s.procs[s.exec.slot := p], zombie := None), r), slice)
  {
  }

  lemma SwitchOthers(s: Sched, p: Pcb, ready: multiset<Ref>, slice: nat, r: Ref)
    requires s.exec.Some? && s.exec.slot < |s.procs| && NoSpinning(s) && p.state == READY && !p.spinning
    requires p.burst == s.procs[s.exec.slot].burst - slice
    requires FromReady(s, r.slot) || r.slot == s.exec.slot
    ensures OthersKept(s, Dispatched(s.(procs := s.procs[s.exec.slot := p], ready := ready, zombie := None), r), slice)
  {
  }

  lemma KeptMeans(s: Sched, t: Sched, slice: nat)
    requires s.exec.Some? && s.exec.slot < |s.procs| && OthersKept(s, t, slice)
    ensures var x := s.exec.slot;
            && |t.procs| == |s.procs| && NoSpinning(t)
            && (forall j :: 0 <= j < |s.procs| && j != x ==> Active(t, j) == Active(s, j) && t.procs[j].burst == s.procs[j].burst)
            && (Active(t, x) ==> t.procs[x].burst == s.procs[x].burst - slice)
            && (t.exec == None ==> t.ready == multiset{})
  {
  }

  lemma ExitOthers(s: Sched, slice: nat, r: Ref)
    requires slice > 0 && Inv(s) && NoSpinning(s) && CanStep(s, Exit(r)) && s.exec.Some?
    ensures s.exec.slot < |s.procs| && OthersKept(s, AfterExit(s, r), slice)
  {
    hide Inv, Chosen;
    InvBounds(s);
    ExecRuns(s);
    if s.ready != multiset{} {
      ChosenIn(s.ready, r);
      QueuedIsReady(s, r);
    }
  }

  lemma ExecRuns(s: Sched)
    requires Inv(s) && s.exec.Some?
    ensures s.exec.slot < |s.procs| && s.procs[s.exec.slot].state == SWITCHED
  {
  }

  lemma TickOthers(s: Sched, slice: nat, r: Ref)
    requires slice > 0 && Inv(s) && NoSpinning(s) && CanTick(s, slice, r) && s.exec.Some?
    ensures s.exec.slot < |s.procs| && OthersKept(s, AfterTick(s, slice, r), slice)
  {
    hide Inv, Chosen;
    InvBounds(s);
    ReadyIsSmall(s);
    ExecRuns(s);
    var e := s.exec.slot;
    var p := Charged(s.procs[e], slice);
    if r in s.ready {
      QueuedIsReady(s, r);
    }
    if p.burst <= 0 {
      hide OthersKept;
      if s.ready != multiset{} { ChosenIn(s.ready, r); }
      EndOthers(s, p.(state := TERMINATED), slice, r);
    } else if s.ready != multiset{} {
      hide OthersKept;
      ChosenIn(Pushed(s.ready, Ref(e, p.priority)), r);
      assert r in s.ready || r == Ref(e, p.priority);
      SwitchOthers(s, p.(state := READY), Pushed(s.ready, Ref(e, p.priority)), slice, r);
    }
  }

  /** With the kernel in control and nothing queued, ticks and exits change nothing of interest. */
  lemma IdleStays(s: Sched, e: Event, slice: nat)
    requires slice > 0 && Inv(s) && CanStep(s, e) && TickOrExit(e, slice) && s.exec == None && s.ready == multiset{}
    ensures Step(s, e).exec == None && Step(s, e).ready == multiset{}
  {
  }

  /**
   Termination: with no process spinning and none created, control is back in the kernel after at
   most as many ticks as the work takes, and then every created process has finished.
   */
  lemma {:induction false} RunEnds(s: Sched, es: seq<Event>, slice: nat)
    requires slice > 0 && Inv(s) && NoSpinning(s) && CanRun(s, es)
    requires s.exec == None ==> s.ready == multiset{}
    requires forall k :: 0 <= k < |es| ==> TickOrExit(es[k], slice)
    requires |es| >= Work(s, slice, 0)
    ensures var t := Run(s, es);
            && t.exec == None && t.ready == multiset{}
            && forall i :: 0 <= i < |t.procs| && t.procs[i].state != UNUSED ==> Finished(t, i)
    decreases |es|
  {
    hide Inv, Step, CanStep, NoSpinning, Slices;
    if es == [] {
      assert s.exec == None by { NoWork(s, slice); }
    } else {
      StepKeeps(s, es[0]);
      var t := Step(s, es[0]);
      if s.exec == None {
        IdleStays(s, es[0], slice);
        IdleRun(t, es[1..], slice);
      } else {
        WorkFalls(s, es[0], slice);
        RunEnds(t, es[1..], slice);
      }
    }
  }

  lemma {:induction false} IdleRun(s: Sched, es: seq<Event>, slice: nat)
    requires slice > 0 && Inv(s) && CanRun(s, es) && s.exec == None && s.ready == multiset{}
    requires forall k :: 0 <= k < |es| ==> TickOrExit(es[k], slice)
    ensures Run(s, es).exec == None && Run(s, es).ready == multiset{}
    decreases |es|
  {
    hide Inv, Step, CanStep;
    if es != [] {
      StepKeeps(s, es[0]);
      IdleStays(s, es[0], slice);
      IdleRun(Step(s, es[0]), es[1..], slice);
    }
  }

  /** An executing process has work. */
  lemma NoWork(s: Sched, slice: nat)
    requires slice > 0 && Inv(s) && Work(s, slice, 0) == 0
    ensures s.exec == None
  {
    if s.exec.Some? {
      assert Slices(s.procs[s.exec.slot].burst, slice) > 0;
      WorkOf(s, slice, s.exec.slot, 0);
    }
  }

  lemma {:induction false} WorkOf(s: Sched, slice: nat, e: nat, i: nat)
    requires slice > 0 && i <= e < |s.procs| && Active(s, e)
    ensures Work(s, slice, i) >= Slices(s.procs[e].burst, slice)
    decreases e - i
  {
    if i < e {
      WorkOf(s, slice, e, i + 1);
    }
  }
}
