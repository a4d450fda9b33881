/**
 The process table, the ready queue and the tick-driven scheduler of src/process/process.c as a
 transition system. Each event names the element the ready queue gives out, if it gives one out.
 */
module Scheduler {
  import opened Queue

  const MAX_PROCS := 4

  // The numbers of src/queue/queue.h. context_switch stores 3 in the process it starts
  // (src/process/process.asm), so a running process and a finished one carry the same number.
  const UNUSED := 0
  const READY := 1
  const RUNNING := 2
  const TERMINATED := 3
  const SWITCHED := 3

  const PRIORITY := 1
  const BURST := 400

  /** One entry of the process table. */
  datatype Pcb = Pcb(state: nat, priority: nat, burst: int, spinning: bool)

  const NOTHING := Pcb(UNUSED, 0, 0, false)

  datatype MaybeSlot = None | Some(slot: nat)

  /** The globals of process.c: procs, ready_queue, executing_process and zombie. */
  datatype Sched = Sched(procs: seq<Pcb>, ready: multiset<Ref>, exec: MaybeSlot, zombie: MaybeSlot)

  datatype Event =
    | Create(spaceOk: bool)          // create_process, and whether its address space could be built
    | Start(next: Ref)               // start_processes, called by the kernel
    | Exit(next: Ref)                // process_exit
    | Tick(slice: nat, next: Ref)    // scheduler

  // ---------- the pieces ----------

  /** pq_pop gives out an element of highest priority. */
  ghost predicate Chosen(ready: multiset<Ref>, r: Ref) {
    r in ready && forall x :: x in ready ==> x.priority <= r.priority
  }

  /** pq_push: a full queue drops the process. */
  function Pushed(ready: multiset<Ref>, r: Ref): multiset<Ref> {
    if |ready| < MAX_PROCESSES then ready + multiset{r} else ready
  }

  function SetState(procs: seq<Pcb>, i: nat, state: nat): seq<Pcb>
    requires i < |procs|
  {
    procs[i := procs[i].(state := state)]
  }

  /** The popped process becomes the executing one; context_switch stores its number. */
  function Dispatched(s: Sched, r: Ref): Sched
    requires r.slot < |s.procs|
  {
    s.(procs := SetState(s.procs, r.slot, SWITCHED), ready := s.ready - multiset{r}, exec := Some(r.slot))
  }

  /** Control passes to the next ready process, or back to the kernel. */
  function HandOver(s: Sched, r: Ref): Sched
    requires s.ready != multiset{} ==> r.slot < |s.procs|
  {
    if s.ready == multiset{} then s.(exec := None) else Dispatched(s, r)
  }

  /** The first unused slot from `i` on, or |procs|. */
  function FindSlot(procs: seq<Pcb>, i: nat): (r: nat)
    requires i <= |procs|
    ensures i <= r <= |procs| && (r < |procs| ==> procs[r].state == UNUSED)
    decreases |procs| - i
  {
    if i == |procs| || procs[i].state == UNUSED then i else FindSlot(procs, i + 1)
  }

  /** The slot found is the first unused one; none is found exactly when all are used. */
  lemma {:induction false} FindSlotExactly(procs: seq<Pcb>, i: nat)
    requires i <= |procs|
    ensures var r := FindSlot(procs, i);
            && (forall j :: i <= j < r ==> procs[j].state != UNUSED)
            && (r == |procs| <==> forall j :: i <= j < |procs| ==> procs[j].state != UNUSED)
    decreases |procs| - i
  {
    if i < |procs| && procs[i].state != UNUSED {
      FindSlotExactly(procs, i + 1);
    }
  }

  // ---------- the events ----------

  function AfterCreate(s: Sched, spaceOk: bool): Sched {
    var i := FindSlot(s.procs, 0);
    if i == |s.procs| || !spaceOk then s
    else s.(procs := s.procs[i := Pcb(READY, PRIORITY, BURST, false)], ready := Pushed(s.ready, Ref(i, PRIORITY)))
  }

  /** The executing process has used `slice`; a spinning one is not charged. */
  function Charged(p: Pcb, slice: nat): Pcb {
    if p.spinning then p else p.(burst := p.burst - slice)
  }

  /** scheduler: the zombie is freed, then the executing process is charged, ended, kept or exchanged. */
  function AfterTick(s: Sched, slice: nat, r: Ref): Sched
    requires CanTick(s, slice, r)
  {
    var t := s.(zombie := None);
    if s.exec == None then t
    else
      var e := s.exec.slot;
      var p := Charged(s.procs[e], slice);
      if p.burst <= 0 then HandOver(t.(procs := s.procs[e := p.(state := TERMINATED)]), r)
      else if s.ready == multiset{} then t.(procs := s.procs[e := p])
      else Dispatched(t.(procs := s.procs[e := p.(state := READY)], ready := Pushed(s.ready, Ref(e, p.priority))), r)
  }

  ghost predicate CanTick(s: Sched, slice: nat, r: Ref) {
    s.exec.Some? ==>
      && s.exec.slot < |s.procs|
      && (s.ready != multiset{} ==>
            var p := Charged(s.procs[s.exec.slot], slice);
            r.slot < |s.procs| && Chosen(if p.burst <= 0 then s.ready else Pushed(s.ready, Ref(s.exec.slot, p.priority)), r))
  }

  /** process_exit: the executing process ends and becomes the zombie, replacing any other. */
  function AfterExit(s: Sched, r: Ref): Sched
    requires CanPop(s, r) && (s.exec.Some? ==> s.exec.slot < |s.procs|)
  {
    var t := if s.exec.Some? then s.(procs := SetState(s.procs, s.exec.slot, TERMINATED)) else s;
    HandOver(t.(zombie := s.exec), r)
  }

  ghost predicate CanPop(s: Sched, r: Ref) {
    s.ready != multiset{} ==> r.slot < |s.procs| && Chosen(s.ready, r)
  }

  /** The kernel starts the first process when none executes. */
  function AfterStart(s: Sched, r: Ref): Sched
    requires CanPop(s, r)
  {
    if s.ready == multiset{} then s else Dispatched(s, r)
  }

  ghost predicate CanStep(s: Sched, e: Event) {
    match e
    case Create(_) => true
    case Start(r) => s.exec == None && CanPop(s, r)
    case Exit(r) => CanPop(s, r) && (s.exec.Some? ==> s.exec.slot < |s.procs|)
    case Tick(slice, r) => CanTick(s, slice, r)
  }

  function Step(s: Sched, e: Event): Sched
    requires CanStep(s, e)
  {
    match e
    case Create(ok) => AfterCreate(s, ok)
    case Start(r) => AfterStart(s, r)
    case Exit(r) => AfterExit(s, r)
    case Tick(slice, r) => AfterTick(s, slice, r)
  }

  /** The address space freed by an event: the zombie at the next tick. */
  function Freed(s: Sched, e: Event): MaybeSlot {
    if e.Tick? then s.zombie else None
  }

  // ---------- the invariant ----------

  predicate Queued(s: Sched, i: nat) {
    exists r :: r in s.ready && r.slot == i
  }

  predicate Executing(s: Sched, i: nat) {
    s.exec == Some(i)
  }

  /** Created, and neither queued nor executing. The state number cannot tell this from running. */
  predicate Finished(s: Sched, i: nat) {
    i < |s.procs| && s.procs[i].state != UNUSED && s.exec != Some(i) && forall r :: r in s.ready ==> r.slot != i
  }

  ghost predicate Inv(s: Sched) {
    && |s.procs| == MAX_PROCS
    && (forall r :: r in s.ready ==> s.ready[r] == 1 && r.slot < MAX_PROCS && ReadyPcb(s.procs[r.slot], r.priority))
    && (forall i :: 0 <= i < MAX_PROCS && s.procs[i].state == READY ==> Ref(i, s.procs[i].priority) in s.ready)
    && (s.exec.Some? ==> s.exec.slot < MAX_PROCS && RunningPcb(s.procs[s.exec.slot]))
    && (forall i :: 0 <= i < MAX_PROCS ==> LegalState(s.procs[i].state))
    && (s.zombie.Some? ==> s.zombie != s.exec && s.zombie.slot < MAX_PROCS && s.procs[s.zombie.slot].state == TERMINATED)
  }

  /** A process that runs carries the number of a terminated one. */
  predicate LegalState(state: nat) {
    state == UNUSED || state == READY || state == TERMINATED
  }

  predicate ReadyPcb(p: Pcb, priority: nat) {
    p.state == READY && p.priority == priority && p.burst > 0
  }

  predicate RunningPcb(p: Pcb) {
    p.state == SWITCHED && p.burst > 0
  }

  /** At start-up. */
  function Initial(): (s: Sched)
    ensures Inv(s)
  {
    Sched([NOTHING, NOTHING, NOTHING, NOTHING], multiset{}, None, None)
  }

  // ---------- every event keeps it ----------

  /** Distinct slots in the queue leave room in it: the silent drop of pq_push is out of reach. */
  lemma ReadyIsSmall(s: Sched)
    requires Inv(s)
    ensures |s.ready| <= MAX_PROCS
  {
    var m := multiset{Ref(0, s.procs[0].priority), Ref(1, s.procs[1].priority), Ref(2, s.procs[2].priority), Ref(3, s.procs[3].priority)};
    forall r | r in s.ready ensures s.ready[r] <= m[r] {
      assert r == Ref(r.slot, s.procs[r.slot].priority);
    }
    SubsetIsSmaller(s.ready, m);
  }

  lemma SubsetIsSmaller(a: multiset<Ref>, b: multiset<Ref>)
    requires forall r :: r in a ==> a[r] <= b[r]
    ensures |a| <= |b|
  {
    assert a + (b - a) == b;
  }

  lemma CreateKeeps(s: Sched, ok: bool)
    requires Inv(s)
    ensures Inv(AfterCreate(s, ok))
  {
    ReadyIsSmall(s);
  }

  /** Dispatching a queued process from a state in which no process executes. */
  lemma DispatchKeeps(s: Sched, r: Ref)
    requires Inv(s) && s.exec == None && r in s.ready
    ensures Inv(Dispatched(s, r))
  {
    var t := Dispatched(s, r);
    forall x | x in t.ready ensures t.ready[x] == 1 && x.slot < MAX_PROCS && ReadyPcb(t.procs[x.slot], x.priority) {
      assert x in s.ready;
    }
  }

  /** Ending the executing process. */
  lemma EndKeeps(s: Sched, p: Pcb)
    requires Inv(s) && s.exec.Some? && p.state == TERMINATED
    ensures Inv(s.(procs := s.procs[s.exec.slot := p], exec := None))
    ensures Inv(s.(procs := s.procs[s.exec.slot := p], exec := None, zombie := s.exec))
    ensures Inv(s.(procs := s.procs[s.exec.slot := p], exec := None, zombie := None))
  {
  }

  /** Putting the executing process back. */
  lemma RequeueKeeps(s: Sched, p: Pcb)
    requires Inv(s) && s.exec.Some? && p.state == READY && p.burst > 0
    ensures var e := s.exec.slot;
            Inv(s.(procs := s.procs[e := p], ready := Pushed(s.ready, Ref(e, p.priority)), exec := None, zombie := None))
  {
    ReadyIsSmall(s);
  }

  /** With the queue not empty it does not matter for a dispatch who executed before. */
  lemma DispatchForgets(s: Sched, r: Ref)
    requires r.slot < |s.procs|
    ensures Dispatched(s, r) == Dispatched(s.(exec := None), r)
  {
  }

  lemma ExitKeeps(s: Sched, r: Ref)
    requires Inv(s) && CanPop(s, r)
    ensures Inv(AfterExit(s, r))
  {
    hide Inv;
    assert s.exec.Some? ==> s.exec.slot < |s.procs| by { InvBounds(s); }
    var t := if s.exec.Some? then s.(procs := SetState(s.procs, s.exec.slot, TERMINATED)) else s;
    var u := t.(zombie := s.exec);
    if s.exec.Some? {
      EndKeeps(s, s.procs[s.exec.slot].(state := TERMINATED));
    } else {
      NoZombie(s);
    }
    if s.ready != multiset{} {
      DispatchKeeps(u.(exec := None), r);
      DispatchForgets(u, r);
    }
  }

  lemma InvBounds(s: Sched)
    requires Inv(s)
    ensures |s.procs| == MAX_PROCS && (s.exec.Some? ==> s.exec.slot < MAX_PROCS)
  {
  }

  lemma NoZombie(s: Sched)
    requires Inv(s)
    ensures Inv(s.(zombie := None))
  {
  }

  lemma TickKeeps(s: Sched, slice: nat, r: Ref)
    requires Inv(s) && CanTick(s, slice, r)
    ensures Inv(AfterTick(s, slice, r))
  {
    hide Inv;
    NoZombie(s);
    InvBounds(s);
    if s.exec.Some? {
      var e := s.exec.slot;
      var p := Charged(s.procs[e], slice);
      if p.burst <= 0 {
        EndKeeps(s, p.(state := TERMINATED));
        if s.ready != multiset{} {
          var u := s.(procs := s.procs[e := p.(state := TERMINATED)], zombie := None);
          DispatchKeeps(u.(exec := None), r);
          DispatchForgets(u, r);
        }
      } else if s.ready == multiset{} {
        ChargeKeeps(s, p);
      } else {
        RequeueKeeps(s, p.(state := READY));
        var u := s.(procs := s.procs[e := p.(state := READY)], ready := Pushed(s.ready, Ref(e, p.priority)), zombie := None);
        DispatchKeeps(u.(exec := None), r);
        DispatchForgets(u, r);
      }
    }
  }

  lemma ChargeKeeps(s: Sched, p: Pcb)
    requires Inv(s) && s.exec.Some? && p.burst > 0 && p.state == s.procs[s.exec.slot].state
    ensures Inv(s.(procs := s.procs[s.exec.slot := p], zombie := None))
  {
  }

  lemma StepKeeps(s: Sched, e: Event)
    requires Inv(s) && CanStep(s, e)
    ensures Inv(Step(s, e))
  {
    hide Inv;
    match e {
      case Create(ok) => CreateKeeps(s, ok);
      case Start(r) =>
        if s.ready != multiset{} {
          DispatchKeeps(s, r);
        }
      case Exit(r) => ExitKeeps(s, r);
      case Tick(slice, r) => TickKeeps(s, slice, r);
    }
  }
}
