/**
 The test-and-set lock of src/process/spinlock.asm, instruction by instruction, with the scheduler
 free to tick, end or start processes between any two instructions.
 */
module Spinlock {
  import opened Queue
  import opened Scheduler
  import opened SchedulerRuns

  /**
   The next instruction of a process, by its line in spinlock.asm: L12 to L24 in setLock, R30 to
   R32 in releaseLock, and Outside for the client's own code.
   */
  datatype Pc = Outside | L12 | L13 | L14 | L16 | L17 | L18 | L19 | L21 | L22 | L24 | R30 | R31 | R32

  /**
   A process as the lock sees it: its saved registers, and whether it is past an exchange that
   found the lock free and before its next release.
   */
  datatype Thread = Thread(pc: Pc, eax: nat, ecx: nat, held: bool)

  const FRESH := Thread(Outside, 0, 0, false)

  datatype Machine = Machine(sched: Sched, lock: nat, threads: seq<Thread>)

  datatype Move =
    | Sys(e: Event)      // create, start, exit or tick
    | CallSetLock        // the executing process enters setLock
    | CallReleaseLock    // the executing process enters releaseLock
    | Instr              // the executing process runs its next instruction

  // ---------- one move ----------

  function SetSpinning(s: Sched, i: nat, b: bool): Sched
    requires i < |s.procs|
  {
    s.(procs := s.procs[i := s.procs[i].(spinning := b)])
  }

  /** One instruction of process `i`. */
  function RunInstr(m: Machine, i: nat): Machine
    requires i < |m.threads| && m.threads[i].ecx < |m.sched.procs|
  {
    var t := m.threads[i];
    match t.pc
    case Outside => m
    case L12 => Put(m, i, t.(pc := L13))
    case L13 => Put(m, i, t.(pc := L14, ecx := i))
    case L14 => Put(m.(sched := SetSpinning(m.sched, t.ecx, true)), i, t.(pc := L16))
    case L16 => Put(m, i, t.(pc := L17, eax := 1))
    case L17 => Put(m.(lock := t.eax), i, t.(pc := L18, eax := m.lock, held := t.held || m.lock == 0))
    case L18 => Put(m, i, t.(pc := L19))
    case L19 => Put(m, i, t.(pc := if t.eax != 0 then L16 else L21))
    case L21 => Put(m, i, t.(pc := L22, ecx := i))
    case L22 => Put(m.(sched := SetSpinning(m.sched, t.ecx, false)), i, t.(pc := L24))
    case L24 => Put(m, i, t.(pc := Outside))
    case R30 => Put(m, i, t.(pc := R31))
    case R31 => Put(m.(lock := 0), i, t.(pc := R32, held := false))
    case R32 => Put(m, i, t.(pc := Outside))
  }

  function Put(m: Machine, i: nat, t: Thread): Machine
    requires i < |m.threads|
  {
    m.(threads := m.threads[i := t])
  }

  ghost predicate CanMove(m: Machine, v: Move) {
    match v
    case Sys(e) => CanStep(m.sched, e)
    case CallSetLock => ExecutingAt(m, Outside)
    case CallReleaseLock => ExecutingAt(m, Outside)
    case Instr =>
      m.sched.exec.Some? && m.sched.exec.slot < |m.threads| && m.threads[m.sched.exec.slot].ecx < |m.sched.procs|
  }

  /** A client that releases only what it has acquired. */
  predicate Honest(m: Machine, v: Move) {
    v.CallReleaseLock? ==> m.sched.exec.Some? && Held(m, m.sched.exec.slot)
  }

  predicate ExecutingAt(m: Machine, pc: Pc) {
    m.sched.exec.Some? && m.sched.exec.slot < |m.threads| && m.threads[m.sched.exec.slot].pc == pc
  }

  function Do(m: Machine, v: Move): Machine
    requires CanMove(m, v)
  {
    match v
    case Sys(e) => m.(sched := Step(m.sched, e))
    case CallSetLock => Put(m, m.sched.exec.slot, m.threads[m.sched.exec.slot].(pc := L12))
    case CallReleaseLock => Put(m, m.sched.exec.slot, m.threads[m.sched.exec.slot].(pc := R30))
    case Instr => RunInstr(m, m.sched.exec.slot)
  }

  // ---------- the invariant ----------

  /** Behind line 14 and not yet behind line 22. */
  predicate Spins(pc: Pc) {
    pc in {L16, L17, L18, L19, L21, L22}
  }

  /** What the place of a process in the code says about it. */
  predicate ThreadOk(t: Thread, p: Pcb, i: nat) {
    && (p.spinning <==> Spins(t.pc))
    && (t.pc == L14 || t.pc == L22 ==> t.ecx == i)
    && (t.pc == L17 ==> t.eax == 1)
    && ((t.pc == L18 || t.pc == L19) && t.eax == 0 ==> t.held)
    && (t.pc in {L21, L22, L24, R30, R31} ==> t.held)
    && t.ecx < MAX_PROCS
    && (p.state == UNUSED ==> t == FRESH)
  }

  predicate Held(m: Machine, i: nat) {
    i < |m.threads| && m.threads[i].held
  }

  ghost predicate LockInv(m: Machine) {
    && Inv(m.sched) && |m.threads| == MAX_PROCS
    && (forall i :: 0 <= i < MAX_PROCS ==> ThreadOk(m.threads[i], m.sched.procs[i], i))
    && (forall i, j :: Held(m, i) && Held(m, j) ==> i == j)
    && m.lock <= 1
    && (m.lock == 1 <==> exists i :: Held(m, i))
  }

  /** At start-up: no process, the lock free. */
  function Boot(): Machine {
    Machine(Initial(), 0, [FRESH, FRESH, FRESH, FRESH])
  }

  lemma BootOk()
    ensures LockInv(Boot())
  {
    hide Inv;
  }

  // ---------- every move keeps it ----------

  /** A scheduler event leaves the spinning flags of the processes that exist, and gives new ones a clear flag. */
  predicate FlagsKept(s: Sched, t: Sched) {
    && |t.procs| == |s.procs|
    && forall i :: 0 <= i < |s.procs| ==>
         (t.procs[i].spinning == s.procs[i].spinning && (t.procs[i].state == UNUSED ==> s.procs[i].state == UNUSED)) ||
         (s.procs[i].state == UNUSED && !t.procs[i].spinning)
  }

  lemma DispatchFlags(s: Sched, t: Sched, r: Ref)
    requires FlagsKept(s, t) && r.slot < |s.procs|
    ensures FlagsKept(s, Dispatched(t, r))
  {
  }

  lemma ExitFlags(s: Sched, r: Ref)
    requires Inv(s) && CanStep(s, Exit(r))
    ensures FlagsKept(s, Step(s, Exit(r)))
  {
    InvBounds(s);
    hide Inv, Chosen;
    var t := if s.exec.Some? then s.(procs := SetState(s.procs, s.exec.slot, TERMINATED)) else s;
    if s.ready != multiset{} {
      DispatchFlags(s, t.(zombie := s.exec), r);
    }
  }

  lemma TickFlags(s: Sched, slice: nat, r: Ref)
    requires Inv(s) && CanTick(s, slice, r)
    ensures FlagsKept(s, AfterTick(s, slice, r))
  {
    InvBounds(s);
    hide Inv, Chosen;
    if s.exec.Some? && s.ready != multiset{} {
      var e := s.exec.slot;
      var p := Charged(s.procs[e], slice);
      if p.burst <= 0 {
        DispatchFlags(s, s.(procs := s.procs[e := p.(state := TERMINATED)], zombie := None), r);
      } else {
        DispatchFlags(s, s.(procs := s.procs[e := p.(state := READY)], ready := Pushed(s.ready, Ref(e, p.priority)), zombie := None), r);
      }
    }
  }

  lemma StepFlags(s: Sched, e: Event)
    requires Inv(s) && CanStep(s, e)
    ensures FlagsKept(s, Step(s, e))
  {
    InvBounds(s);
    match e {
      case Create(ok) =>
        hide Inv;
      case Start(r) =>
        hide Inv, Chosen;
        if s.ready != multiset{} {
          DispatchFlags(s, s, r);
        }
      case Exit(r) => ExitFlags(s, r);
      case Tick(slice, r) => TickFlags(s, slice, r);
    }
  }

  lemma SysKeeps(m: Machine, e: Event)
    requires LockInv(m) && CanStep(m.sched, e)
    ensures LockInv(Do(m, Sys(e)))
  {
    StepKeeps(m.sched, e);
    StepFlags(m.sched, e);
    hide Inv, Step, CanStep;
    var n := Do(m, Sys(e));
    forall i | 0 <= i < MAX_PROCS ensures ThreadOk(n.threads[i], n.sched.procs[i], i) {
      assert ThreadOk(m.threads[i], m.sched.procs[i], i);
    }
    assert forall i :: Held(n, i) <==> Held(m, i);
  }

  /** Setting a spinning flag changes nothing the scheduler's invariant looks at. */
  lemma SpinningKeeps(s: Sched, i: nat, b: bool)
    requires Inv(s) && i < |s.procs|
    ensures Inv(SetSpinning(s, i, b))
  {
  }

  /** Moves of process `i` inside the lock code that neither take nor give up the lock. */
  lemma PlainKeeps(m: Machine, n: Machine, i: nat, t: Thread)
    requires LockInv(m) && i < MAX_PROCS && t.held == m.threads[i].held
    requires Inv(n.sched) && n.threads == m.threads[i := t] && n.lock == m.lock
    requires forall j :: 0 <= j < MAX_PROCS && j != i ==> n.sched.procs[j] == m.sched.procs[j]
    requires ThreadOk(t, n.sched.procs[i], i)
    ensures LockInv(n)
  {
    InvBounds(m.sched);
    InvBounds(n.sched);
    hide Inv;
    forall j | 0 <= j < MAX_PROCS ensures ThreadOk(n.threads[j], n.sched.procs[j], j) {
      assert ThreadOk(m.threads[j], m.sched.procs[j], j);
    }
    assert forall j :: Held(n, j) <==> Held(m, j);
  }

  /** The exchange: the lock word ends up 1, and the process holds the lock if it found 0. */
  lemma ExchangeKeeps(m: Machine, i: nat)
    requires LockInv(m) && i < MAX_PROCS && m.threads[i].pc == L17 && m.sched.exec == Some(i)
    requires m.threads[i].ecx < |m.sched.procs|
    ensures LockInv(RunInstr(m, i))
  {
    InvBounds(m.sched);
    var n := RunInstr(m, i);
    OwnThread(m, n, i);
    hide Inv, ThreadOk;
    forall j | j != i ensures Held(n, j) <==> Held(m, j) {
    }
    if m.lock == 0 {
      assert Held(n, i);
      forall j | Held(m, j) ensures false {
      }
    } else {
      assert Held(n, i) <==> Held(m, i);
      var k :| Held(m, k);
      assert Held(n, k);
    }
  }

  /** An instruction that leaves the scheduler's state alone keeps every process where its place says. */
  lemma OwnThread(m: Machine, n: Machine, i: nat)
    requires LockInv(m) && i < MAX_PROCS && m.sched.exec == Some(i) && m.threads[i].ecx < |m.sched.procs|
    requires n == RunInstr(m, i) && m.threads[i].pc != L14 && m.threads[i].pc != L22
    ensures n.sched == m.sched && |n.threads| == MAX_PROCS && |m.sched.procs| == MAX_PROCS
    ensures forall j :: 0 <= j < MAX_PROCS ==> ThreadOk(n.threads[j], n.sched.procs[j], j)
  {
    InvBounds(m.sched);
    ExecExists(m);
    assert ThreadOk(m.threads[i], m.sched.procs[i], i);
    hide Inv, ThreadOk;
    NextPlace(m, i, m.sched.procs[i]);
    forall j | 0 <= j < MAX_PROCS && j != i ensures ThreadOk(n.threads[j], n.sched.procs[j], j) {
      assert ThreadOk(m.threads[j], m.sched.procs[j], j);
    }
  }

  lemma NextPlace(m: Machine, i: nat, p: Pcb)
    requires i < |m.threads| && m.threads[i].ecx < |m.sched.procs| && i < MAX_PROCS
    requires ThreadOk(m.threads[i], p, i) && p.state != UNUSED && m.threads[i].pc != L14 && m.threads[i].pc != L22
    ensures |RunInstr(m, i).threads| == |m.threads| && ThreadOk(RunInstr(m, i).threads[i], p, i)
    ensures RunInstr(m, i).sched == m.sched && forall j :: 0 <= j < |m.threads| && j != i ==> RunInstr(m, i).threads[j] == m.threads[j]
  {
  }

  /** The store of 0: only the holder gets there. */
  lemma StoreKeeps(m: Machine, i: nat)
    requires LockInv(m) && i < MAX_PROCS && m.threads[i].pc == R31 && m.sched.exec == Some(i)
    requires m.threads[i].ecx < |m.sched.procs|
    ensures LockInv(RunInstr(m, i))
  {
    var n := RunInstr(m, i);
    OwnThread(m, n, i);
    assert Held(m, i) by { assert ThreadOk(m.threads[i], m.sched.procs[i], i); }
    hide Inv, ThreadOk;
    forall j ensures !Held(n, j) {
      if j != i {
        assert Held(n, j) <==> Held(m, j);
      }
    }
  }

  /** The executing process exists. */
  lemma ExecExists(m: Machine)
    requires LockInv(m) && m.sched.exec.Some?
    ensures m.sched.exec.slot < MAX_PROCS && m.sched.procs[m.sched.exec.slot].state != UNUSED
  {
  }

  lemma InstrKeeps(m: Machine)
    requires LockInv(m) && CanMove(m, Instr)
    ensures LockInv(Do(m, Instr))
  {
    ExecExists(m);
    var i := m.sched.exec.slot;
    assert i < |m.threads| && m.sched.exec == Some(i) && |m.threads| == MAX_PROCS;
    hide Inv, ThreadOk, RunInstr, LockInv;
    var pc := m.threads[i].pc;
    if pc == L17 {
      ExchangeKeeps(m, i);
    } else if pc == R31 {
      StoreKeeps(m, i);
    } else if pc == L14 || pc == L22 {
      FlagKeeps(m, i);
    } else {
      InnerKeeps(m, i);
    }
  }

  /** The instructions that touch registers only. */
  lemma InnerKeeps(m: Machine, i: nat)
    requires LockInv(m) && i < MAX_PROCS && m.sched.exec == Some(i) && m.threads[i].ecx < |m.sched.procs|
    requires m.threads[i].pc !in {L14, L17, L22, R31}
    ensures LockInv(RunInstr(m, i))
  {
    var n := RunInstr(m, i);
    OwnThread(m, n, i);
    assert n.threads == m.threads[i := n.threads[i]];
    assert n.lock == m.lock && n.threads[i].held == m.threads[i].held;
    hide Inv, ThreadOk, RunInstr;
    PlainKeeps(m, n, i, n.threads[i]);
  }

  /** Lines 14 and 22: the spinning flag of the executing process. */
  lemma FlagKeeps(m: Machine, i: nat)
    requires LockInv(m) && i < MAX_PROCS && m.sched.exec == Some(i) && m.threads[i].ecx < |m.sched.procs|
    requires m.threads[i].pc == L14 || m.threads[i].pc == L22
    ensures LockInv(RunInstr(m, i))
  {
    var t := m.threads[i];
    assert ThreadOk(t, m.sched.procs[i], i);
    hide LockInv, Inv, ThreadOk;
    if t.pc == L14 {
      SetFlagKeeps(m, i, true, t.(pc := L16));
    } else {
      SetFlagKeeps(m, i, false, t.(pc := L24));
    }
  }

  /** The executing process moves past a store to its own spinning flag. */
  lemma SetFlagKeeps(m: Machine, i: nat, b: bool, t: Thread)
    requires LockInv(m) && i < MAX_PROCS && m.sched.exec == Some(i) && i < |m.sched.procs|
    requires t == m.threads[i].(pc := t.pc) && t.pc == (if b then L16 else L24)
    requires !b ==> m.threads[i].pc == L22
    ensures LockInv(Put(m.(sched := SetSpinning(m.sched, i, b)), i, t))
  {
    var n := Put(m.(sched := SetSpinning(m.sched, i, b)), i, t);
    assert ThreadOk(m.threads[i], m.sched.procs[i], i);
    ExecExists(m);
    InvBounds(m.sched);
    SpinningKeeps(m.sched, i, b);
    assert ThreadOk(t, n.sched.procs[i], i);
    hide Inv, ThreadOk, LockInv;
    PlainKeeps(m, n, i, t);
  }

  lemma MoveKeeps(m: Machine, v: Move)
    requires LockInv(m) && CanMove(m, v) && Honest(m, v)
    ensures LockInv(Do(m, v))
  {
    match v {
      case Sys(e) => SysKeeps(m, e);
      case Instr => InstrKeeps(m);
      case _ =>
        ExecExists(m);
        var i := m.sched.exec.slot;
        assert ThreadOk(m.threads[i], m.sched.procs[i], i);
        hide Inv;
        PlainKeeps(m, Do(m, v), i, Do(m, v).threads[i]);
    }
  }

  // ---------- runs ----------

  ghost predicate CanMoveAll(m: Machine, vs: seq<Move>)
    decreases |vs|
  {
    vs == [] || (CanMove(m, vs[0]) && CanMoveAll(Do(m, vs[0]), vs[1..]))
  }

  function DoAll(m: Machine, vs: seq<Move>): Machine
    requires CanMoveAll(m, vs)
    decreases |vs|
  {
    if vs == [] then m else DoAll(Do(m, vs[0]), vs[1..])
  }

  /** All clients of a run are honest. */
  ghost predicate AllHonest(m: Machine, vs: seq<Move>)
    requires CanMoveAll(m, vs)
    decreases |vs|
  {
    vs == [] || (Honest(m, vs[0]) && AllHonest(Do(m, vs[0]), vs[1..]))
  }

  lemma {:induction false} MovesKeep(m: Machine, vs: seq<Move>)
    requires LockInv(m) && CanMoveAll(m, vs) && AllHonest(m, vs)
    ensures LockInv(DoAll(m, vs))
    decreases |vs|
  {
    hide LockInv, Do, CanMove, Honest;
    if vs != [] {
      MoveKeeps(m, vs[0]);
      MovesKeep(Do(m, vs[0]), vs[1..]);
    }
  }

  /**
   Mutual exclusion over every interleaving with honest clients: at most one process is past the
   exchange and before the release, every process that has returned from setLock is that one, the
   lock word is 1 exactly when there is one, and a process is marked as spinning exactly between
   lines 14 and 22.
   */
  lemma MutualExclusion(vs: seq<Move>, i: nat, j: nat)
    requires CanMoveAll(Boot(), vs) && AllHonest(Boot(), vs)
    requires i < MAX_PROCS && j < MAX_PROCS
    ensures var n := DoAll(Boot(), vs);
            && |n.threads| == MAX_PROCS && |n.sched.procs| == MAX_PROCS
            && (Held(n, i) && Held(n, j) ==> i == j)
            && (n.threads[i].pc in {L21, L22, L24, R30, R31} ==> Held(n, i))
            && (n.lock == 1 <==> exists k :: Held(n, k)) && n.lock <= 1
            && (n.sched.procs[i].spinning <==> Spins(n.threads[i].pc))
  {
    hide CanMoveAll, DoAll, AllHonest, Boot, Inv;
    BootOk();
    MovesKeep(Boot(), vs);
    var n := DoAll(Boot(), vs);
    InvBounds(n.sched);
    assert ThreadOk(n.threads[i], n.sched.procs[i], i);
  }

  /** A spinning process is not ended by a tick. */
  lemma SpinnerSurvives(m: Machine, slice: nat, r: Ref)
    requires LockInv(m) && m.sched.exec.Some? && CanTick(m.sched, slice, r)
    requires var i := m.sched.exec.slot; i < |m.threads| && Spins(m.threads[i].pc)
    ensures var i, t := m.sched.exec.slot, AfterTick(m.sched, slice, r);
            i < |t.procs| && t.procs[i].burst == m.sched.procs[i].burst > 0 && (Queued(t, i) || Executing(t, i))
  {
    assert ThreadOk(m.threads[m.sched.exec.slot], m.sched.procs[m.sched.exec.slot], m.sched.exec.slot);
    hide Inv;
    NotCharged(m.sched, slice, r);
  }

  lemma NotCharged(s: Sched, slice: nat, r: Ref)
    requires Inv(s) && CanTick(s, slice, r) && s.exec.Some? && s.exec.slot < |s.procs| && s.procs[s.exec.slot].spinning
    ensures var i, t := s.exec.slot, AfterTick(s, slice, r);
            i < |t.procs| && t.procs[i].burst == s.procs[i].burst > 0 && (Queued(t, i) || Executing(t, i))
  {
    hide Inv, Chosen, Dispatched, Pushed, AfterTick, CanTick, Queued, Executing;
    ReadyIsSmall(s);
    RunningBurst(s);
    if s.ready == multiset{} {
      StaysOn(s, slice, r);
    } else {
      GoesBack(s, slice, r);
    }
  }

  lemma RunningBurst(s: Sched)
    requires Inv(s) && s.exec.Some?
    ensures s.exec.slot < |s.procs| && s.procs[s.exec.slot].burst > 0
  {
  }

  lemma StaysOn(s: Sched, slice: nat, r: Ref)
    requires CanTick(s, slice, r) && s.exec.Some? && s.exec.slot < |s.procs| && s.ready == multiset{}
    requires s.procs[s.exec.slot].spinning && s.procs[s.exec.slot].burst > 0
    ensures AfterTick(s, slice, r).procs == s.procs && Executing(AfterTick(s, slice, r), s.exec.slot)
  {
    hide Chosen, Dispatched, Pushed;
  }

  lemma GoesBack(s: Sched, slice: nat, r: Ref)
    requires CanTick(s, slice, r) && s.exec.Some? && s.exec.slot < |s.procs| && s.ready != multiset{} && |s.ready| < MAX_PROCESSES
    requires s.procs[s.exec.slot].spinning && s.procs[s.exec.slot].burst > 0
    ensures var i, t := s.exec.slot, AfterTick(s, slice, r);
            i < |t.procs| && t.procs[i].burst == s.procs[i].burst && (Queued(t, i) || Executing(t, i))
  {
    hide Chosen, Dispatched, Queued, Executing;
    var i, p := s.exec.slot, s.procs[s.exec.slot];
    var x := Ref(i, p.priority);
    var u := s.(zombie := None, procs := s.procs[i := p.(state := READY)], ready := Pushed(s.ready, x));
    assert AfterTick(s, slice, r) == Dispatched(u, r);
    DispatchBursts(u, r);
    BackInQueue(u, r, x);
  }

  lemma DispatchBursts(u: Sched, r: Ref)
    requires r.slot < |u.procs|
    ensures |Dispatched(u, r).procs| == |u.procs| && forall j :: 0 <= j < |u.procs| ==> Dispatched(u, r).procs[j].burst == u.procs[j].burst
  {
  }

  /** An element put back is still there after another one is taken, or it is the one that is taken. */
  lemma BackInQueue(u: Sched, r: Ref, x: Ref)
    requires r.slot < |u.procs| && x in u.ready
    ensures Queued(Dispatched(u, r), x.slot) || Executing(Dispatched(u, r), x.slot)
  {
    if r.slot != x.slot {
      assert x in u.ready - multiset{r};
    }
  }

  /** A holder that has finished keeps the lock forever: nobody else acquires it in any later run. */
  lemma {:induction false} DeadHolder(m: Machine, vs: seq<Move>, i: nat, j: nat)
    requires LockInv(m) && CanMoveAll(m, vs) && AllHonest(m, vs) && Held(m, i) && Finished(m.sched, i) && j != i
    ensures var n := DoAll(m, vs);
            Held(n, i) && n.lock == 1 && !Held(n, j)
    decreases |vs|
  {
    if vs != [] {
      var n := Do(m, vs[0]);
      MoveKeeps(m, vs[0]);
      DeadStep(m, vs[0], i);
      hide LockInv, Do, CanMove, Finished, Held, Honest;
      DeadHolder(n, vs[1..], i, j);
    }
  }

  lemma DeadStep(m: Machine, v: Move, i: nat)
    requires LockInv(m) && CanMove(m, v) && Honest(m, v) && Held(m, i) && Finished(m.sched, i)
    ensures Held(Do(m, v), i) && Finished(Do(m, v).sched, i)
  {
    match v {
      case Sys(e) =>
        FinishedStep(m.sched, e, i);
        hide Inv, Step, CanStep, Finished;
      case _ =>
        hide Inv;
    }
  }

  // ---------- a client that is not honest ----------

  function Release(): seq<Move> {
    [CallReleaseLock, Instr, Instr, Instr]
  }

  function Acquire(): seq<Move> {
    [CallSetLock, Instr, Instr, Instr, Instr, Instr]
  }

  /** Moves one after the other. */
  lemma OneMove(m: Machine, v: Move, vs: seq<Move>)
    requires CanMove(m, v) && CanMoveAll(Do(m, v), vs)
    ensures CanMoveAll(m, [v] + vs) && DoAll(m, [v] + vs) == DoAll(Do(m, v), vs)
  {
    hide CanMove, Do;
    assert ([v] + vs)[1..] == vs;
  }

  lemma {:induction false} MovesThen(m: Machine, vs: seq<Move>, us: seq<Move>)
    requires CanMoveAll(m, vs) && CanMoveAll(DoAll(m, vs), us)
    ensures CanMoveAll(m, vs + us) && DoAll(m, vs + us) == DoAll(DoAll(m, vs), us)
    decreases |vs|
  {
    hide CanMove, Do;
    if vs == [] {
      assert vs + us == us;
    } else {
      MovesThen(Do(m, vs[0]), vs[1..], us);
      assert (vs + us)[0] == vs[0] && (vs + us)[1..] == vs[1..] + us;
    }
  }

  /** The executing process is at `pc`. */
  predicate At(m: Machine, i: nat, pc: Pc) {
    && m.sched.exec == Some(i) && i < |m.threads| && i < |m.sched.procs|
    && m.threads[i].pc == pc && m.threads[i].ecx < |m.sched.procs|
  }

  /** The executing process is outside the lock code and does not hold the lock. */
  predicate Idle(m: Machine, i: nat) {
    At(m, i, Outside) && !m.threads[i].held
  }

  /** A release clears the lock word, whoever holds the lock, and changes nothing else but that the releasing process does not. */
  lemma ReleaseEffect(m: Machine, i: nat)
    requires At(m, i, Outside)
    ensures CanMoveAll(m, Release()) && DoAll(m, Release()) == Put(m.(lock := 0), i, m.threads[i].(held := false))
  {
    var t := m.threads[i];
    var m1 := Put(m, i, t.(pc := R30));
    var m2 := Put(m, i, t.(pc := R31));
    var m3 := Put(m.(lock := 0), i, t.(pc := R32, held := false));
    assert Do(m, CallReleaseLock) == m1;
    assert Do(m1, Instr) == m2;
    assert Do(m2, Instr) == m3;
    assert Do(m3, Instr) == Put(m.(lock := 0), i, t.(held := false));
    hide Do, DoAll, CanMoveAll;
    FourMoves(m, CallReleaseLock, m1, Instr, m2, Instr, m3, Instr);
  }

  /** By a process that does not hold the lock: only the lock word changes. */
  lemma ReleaseClears(m: Machine, i: nat)
    requires Idle(m, i)
    ensures CanMoveAll(m, Release()) && DoAll(m, Release()) == m.(lock := 0)
  {
    hide DoAll, CanMoveAll, Release;
    ReleaseEffect(m, i);
    assert m.threads[i := m.threads[i]] == m.threads;
  }

  lemma FourMoves(m: Machine, v1: Move, m1: Machine, v2: Move, m2: Machine, v3: Move, m3: Machine, v4: Move)
    requires CanMove(m, v1) && Do(m, v1) == m1 && CanMove(m1, v2) && Do(m1, v2) == m2
    requires CanMove(m2, v3) && Do(m2, v3) == m3 && CanMove(m3, v4)
    ensures CanMoveAll(m, [v1, v2, v3, v4]) && DoAll(m, [v1, v2, v3, v4]) == Do(m3, v4)
  {
    hide CanMove, Do;
    NoMoves(Do(m3, v4));
    hide CanMoveAll, DoAll;
    OneMove(m3, v4, []);
    OneMove(m2, v3, [v4]);
    OneMove(m1, v2, [v3, v4]);
    OneMove(m, v1, [v2, v3, v4]);
    assert [v1] + [v2, v3, v4] == [v1, v2, v3, v4];
    assert [v2] + [v3, v4] == [v2, v3, v4];
    assert [v3] + [v4] == [v3, v4];
    assert [v4] + [] == [v4];
  }

  lemma NoMoves(m: Machine)
    ensures CanMoveAll(m, []) && DoAll(m, []) == m
  {
  }

  /** Such a release leaves the lock as it should be exactly when nobody holds it. */
  lemma ForeignRelease(m: Machine, i: nat)
    requires LockInv(m) && Idle(m, i)
    ensures CanMoveAll(m, Release())
    ensures LockInv(DoAll(m, Release())) <==> m.lock == 0
  {
    hide Inv, ThreadOk, Release, DoAll, CanMoveAll;
    ReleaseClears(m, i);
    var n := m.(lock := 0);
    if m.lock == 1 {
      var k :| Held(m, k);
      assert Held(n, k);
    } else {
      assert n == m;
    }
  }

  /** What setLock does up to its exchange when the lock is free. */
  function Acquired(m: Machine, i: nat): Machine
    requires Idle(m, i)
  {
    Put(Machine(SetSpinning(m.sched, i, true), 1, m.threads), i, Thread(L18, 0, i, true))
  }

  lemma AcquireTakes(m: Machine, i: nat)
    requires Idle(m, i) && m.lock == 0
    ensures CanMoveAll(m, Acquire()) && DoAll(m, Acquire()) == Acquired(m, i)
  {
    var t := m.threads[i];
    var m1 := Put(m, i, t.(pc := L12));
    var m2 := Put(m, i, t.(pc := L13));
    var m3 := Put(m, i, t.(pc := L14, ecx := i));
    var m4 := Put(m.(sched := SetSpinning(m.sched, i, true)), i, t.(pc := L16, ecx := i));
    var m5 := Put(m.(sched := SetSpinning(m.sched, i, true)), i, t.(pc := L17, ecx := i, eax := 1));
    AcquireEnters(m, i);
    AcquireExchanges(m, i);
    hide CanMove, Do, Put, SetSpinning;
    SixMoves(m, m1, m2, m3, m4, m5, Acquired(m, i));
  }

  lemma AcquireEnters(m: Machine, i: nat)
    requires Idle(m, i)
    ensures var t := m.threads[i];
            var m1, m2 := Put(m, i, t.(pc := L12)), Put(m, i, t.(pc := L13));
            && CanMove(m, CallSetLock) && Do(m, CallSetLock) == m1 && CanMove(m1, Instr) && Do(m1, Instr) == m2
            && CanMove(m2, Instr) && Do(m2, Instr) == Put(m, i, t.(pc := L14, ecx := i))
  {
  }

  lemma AcquireExchanges(m: Machine, i: nat)
    requires Idle(m, i) && m.lock == 0
    ensures var t, u := m.threads[i], m.(sched := SetSpinning(m.sched, i, true));
            var m3, m4, m5 := Put(m, i, t.(pc := L14, ecx := i)), Put(u, i, t.(pc := L16, ecx := i)), Put(u, i, t.(pc := L17, ecx := i, eax := 1));
            && CanMove(m3, Instr) && Do(m3, Instr) == m4 && CanMove(m4, Instr) && Do(m4, Instr) == m5
            && CanMove(m5, Instr) && Do(m5, Instr) == Acquired(m, i)
  {
  }

  lemma SixMoves(m: Machine, m1: Machine, m2: Machine, m3: Machine, m4: Machine, m5: Machine, n: Machine)
    requires CanMove(m, CallSetLock) && Do(m, CallSetLock) == m1
    requires CanMove(m1, Instr) && Do(m1, Instr) == m2 && CanMove(m2, Instr) && Do(m2, Instr) == m3
    requires CanMove(m3, Instr) && Do(m3, Instr) == m4 && CanMove(m4, Instr) && Do(m4, Instr) == m5
    requires CanMove(m5, Instr) && Do(m5, Instr) == n
    ensures CanMoveAll(m, Acquire()) && DoAll(m, Acquire()) == n
  {
    hide CanMove, Do, CanMoveAll, DoAll;
    FourMoves(m2, Instr, m3, Instr, m4, Instr, m5, Instr);
    OneMove(m1, Instr, [Instr, Instr, Instr, Instr]);
    assert [Instr] + [Instr, Instr, Instr, Instr] == [Instr, Instr, Instr, Instr, Instr];
    OneMove(m, CallSetLock, [Instr, Instr, Instr, Instr, Instr]);
    assert [CallSetLock] + [Instr, Instr, Instr, Instr, Instr] == Acquire();
  }

  // ---------- setLock returns ----------

  const FIVE := [Instr, Instr, Instr, Instr, Instr]

  const FOUR := [Instr, Instr, Instr, Instr]

  /** Behind an exchange that found the lock free: five instructions more, and the process is outside with the lock. */
  lemma LeaveLoop(m: Machine, i: nat)
    requires At(m, i, L18) && m.threads[i].eax == 0
    ensures CanMoveAll(m, FIVE)
    ensures DoAll(m, FIVE) == Put(m.(sched := SetSpinning(m.sched, i, false)), i, m.threads[i].(pc := Outside, ecx := i))
  {
    var t, u := m.threads[i], m.(sched := SetSpinning(m.sched, i, false));
    var m1, m2, m3 := Put(m, i, t.(pc := L19)), Put(m, i, t.(pc := L21)), Put(m, i, t.(pc := L22, ecx := i));
    var m4 := Put(u, i, t.(pc := L24, ecx := i));
    hide CanMove, Do, CanMoveAll, DoAll, Put, SetSpinning, At;
    LeaveTests(m, i);
    LeaveClears(m, i);
    FourMoves(m1, Instr, m2, Instr, m3, Instr, m4, Instr);
    OneMove(m, Instr, FOUR);
    assert [Instr] + FOUR == FIVE;
  }

  lemma LeaveTests(m: Machine, i: nat)
    requires At(m, i, L18) && m.threads[i].eax == 0
    ensures var t := m.threads[i];
            var m1, m2 := Put(m, i, t.(pc := L19)), Put(m, i, t.(pc := L21));
            && CanMove(m, Instr) && Do(m, Instr) == m1 && CanMove(m1, Instr) && Do(m1, Instr) == m2
            && CanMove(m2, Instr) && Do(m2, Instr) == Put(m, i, t.(pc := L22, ecx := i))
  {
  }

  lemma LeaveClears(m: Machine, i: nat)
    requires At(m, i, L18)
    ensures var t, u := m.threads[i], m.(sched := SetSpinning(m.sched, i, false));
            var m3, m4 := Put(m, i, t.(pc := L22, ecx := i)), Put(u, i, t.(pc := L24, ecx := i));
            && CanMove(m3, Instr) && Do(m3, Instr) == m4
            && CanMove(m4, Instr) && Do(m4, Instr) == Put(u, i, t.(pc := Outside, ecx := i))
  {
  }

  /** One turn of the loop while the lock is taken: back at its start, with nothing changed but eax. */
  lemma TurnAgain(m: Machine, i: nat)
    requires At(m, i, L16) && m.lock == 1
    ensures CanMoveAll(m, FOUR) && DoAll(m, FOUR) == Put(m, i, m.threads[i].(eax := 1))
  {
    var t := m.threads[i];
    var m1, m2, m3 := Put(m, i, t.(pc := L17, eax := 1)), Put(m, i, t.(pc := L18, eax := 1)), Put(m, i, t.(pc := L19, eax := 1));
    hide CanMove, Do, CanMoveAll, DoAll, Put, At;
    TurnExchanges(m, i);
    TurnBack(m, i);
    FourMoves(m, Instr, m1, Instr, m2, Instr, m3, Instr);
  }

  lemma TurnExchanges(m: Machine, i: nat)
    requires At(m, i, L16) && m.lock == 1
    ensures var t := m.threads[i];
            var m1, m2 := Put(m, i, t.(pc := L17, eax := 1)), Put(m, i, t.(pc := L18, eax := 1));
            && CanMove(m, Instr) && Do(m, Instr) == m1 && CanMove(m1, Instr) && Do(m1, Instr) == m2
  {
  }

  lemma TurnBack(m: Machine, i: nat)
    requires At(m, i, L16)
    ensures var t := m.threads[i];
            var m2, m3 := Put(m, i, t.(pc := L18, eax := 1)), Put(m, i, t.(pc := L19, eax := 1));
            && CanMove(m2, Instr) && Do(m2, Instr) == m3 && CanMove(m3, Instr) && Do(m3, Instr) == Put(m, i, t.(eax := 1))
  {
  }

  lemma TurnFinds(m: Machine, i: nat)
    requires At(m, i, L16) && m.lock == 0
    ensures var t := m.threads[i];
            var m1, m2 := Put(m, i, t.(pc := L17, eax := 1)), Put(m.(lock := 1), i, t.(pc := L18, eax := 0, held := true));
            && CanMove(m, Instr) && Do(m, Instr) == m1 && CanMove(m1, Instr) && Do(m1, Instr) == m2
            && At(m2, i, L18) && m2.threads[i] == t.(pc := L18, eax := 0, held := true)
            && Put(m2.(sched := SetSpinning(m2.sched, i, false)), i, m2.threads[i].(pc := Outside, ecx := i)) ==
               Put(Machine(SetSpinning(m.sched, i, false), 1, m.threads), i, Thread(Outside, 0, i, true))
  {
  }

  /** The turn in which a spinning process finds the lock free: it leaves with it. */
  lemma TurnTakes(m: Machine, i: nat)
    requires At(m, i, L16) && m.lock == 0
    ensures CanMoveAll(m, [Instr, Instr] + FIVE)
    ensures DoAll(m, [Instr, Instr] + FIVE) ==
            Put(Machine(SetSpinning(m.sched, i, false), 1, m.threads), i, Thread(Outside, 0, i, true))
  {
    var t := m.threads[i];
    var m1 := Put(m, i, t.(pc := L17, eax := 1));
    var m2 := Put(m.(lock := 1), i, t.(pc := L18, eax := 0, held := true));
    hide CanMove, Do, CanMoveAll, DoAll, At, Put, SetSpinning;
    TurnFinds(m, i);
    LeaveLoop(m2, i);
    OneMove(m1, Instr, FIVE);
    OneMove(m, Instr, [Instr] + FIVE);
    assert [Instr] + ([Instr] + FIVE) == [Instr, Instr] + FIVE;
  }

  /** setLock on a free lock returns: the process is outside, holds the lock, and is not marked as spinning. */
  lemma SetLockReturns(m: Machine, i: nat)
    requires LockInv(m) && Idle(m, i) && m.lock == 0
    ensures CanMoveAll(m, Acquire() + FIVE) && AllHonest(m, Acquire() + FIVE)
    ensures DoAll(m, Acquire() + FIVE) == Machine(m.sched, 1, m.threads[i := Thread(Outside, 0, i, true)])
  {
    hide Acquire, DoAll, CanMoveAll, Inv, AllHonest, SetSpinning;
    AcquireTakes(m, i);
    var n := Acquired(m, i);
    AcquiredAt(m, i);
    SpinningOff(m, i);
    LeaveLoop(n, i);
    MovesThen(m, Acquire(), FIVE);
    NoRelease(m, Acquire() + FIVE) by { AcquireMoves(); }
  }

  lemma AcquiredAt(m: Machine, i: nat)
    requires Idle(m, i)
    ensures At(Acquired(m, i), i, L18) && Acquired(m, i).threads[i] == Thread(L18, 0, i, true)
  {
  }

  lemma AcquireMoves()
    ensures forall k :: 0 <= k < |Acquire() + FIVE| ==> (Acquire() + FIVE)[k] in {CallSetLock, Instr}
  {
  }

  /** Before and after setLock the flag is clear. */
  lemma SpinningOff(m: Machine, i: nat)
    requires LockInv(m) && Idle(m, i)
    ensures SetSpinning(SetSpinning(m.sched, i, true), i, false) == m.sched
  {
    hide Inv;
    assert ThreadOk(m.threads[i], m.sched.procs[i], i);
    var procs := m.sched.procs;
    assert procs[i := procs[i].(spinning := true)][i := procs[i].(spinning := false)] == procs;
  }

  /** A run without a release is honest. */
  lemma {:induction false} NoRelease(m: Machine, vs: seq<Move>)
    requires CanMoveAll(m, vs) && forall k :: 0 <= k < |vs| ==> vs[k] in {CallSetLock, Instr}
    ensures AllHonest(m, vs)
    decreases |vs|
  {
    hide CanMove, Do;
    if vs != [] {
      assert vs[0] in {CallSetLock, Instr};
      NoRelease(Do(m, vs[0]), vs[1..]);
    }
  }

  /** setLock and then releaseLock on a free lock: the lock is free again, and flags and schedule are as before. */
  lemma LockThenRelease(m: Machine, i: nat)
    requires LockInv(m) && Idle(m, i) && m.lock == 0
    ensures CanMoveAll(m, Acquire() + FIVE + Release())
    ensures DoAll(m, Acquire() + FIVE + Release()) == Machine(m.sched, 0, m.threads[i := Thread(Outside, 0, i, false)])
  {
    hide Acquire, DoAll, CanMoveAll, Release, LockInv, AllHonest;
    SetLockReturns(m, i);
    var n := DoAll(m, Acquire() + FIVE);
    assert n.threads[i] == Thread(Outside, 0, i, true);
    ReleaseEffect(n, i);
    MovesThen(m, Acquire() + FIVE, Release());
    assert n.threads[i := Thread(Outside, 0, i, false)] == m.threads[i := Thread(Outside, 0, i, false)];
  }

  const TO_LOOP := [CallSetLock, Instr, Instr, Instr]

  /** setLock on a taken lock gets to its loop, marked as spinning and without the lock; there `TurnAgain` holds it. */
  lemma SetLockWaits(m: Machine, i: nat)
    requires Idle(m, i)
    ensures CanMoveAll(m, TO_LOOP)
    ensures DoAll(m, TO_LOOP) == Put(m.(sched := SetSpinning(m.sched, i, true)), i, m.threads[i].(pc := L16, ecx := i))
    ensures At(DoAll(m, TO_LOOP), i, L16) && !Held(DoAll(m, TO_LOOP), i) && DoAll(m, TO_LOOP).lock == m.lock
  {
    var t, u := m.threads[i], m.(sched := SetSpinning(m.sched, i, true));
    hide CanMove, Do, CanMoveAll, DoAll;
    AcquireEnters(m, i);
    FlagSet(m, i);
    var m1, m2, m3 := Put(m, i, t.(pc := L12)), Put(m, i, t.(pc := L13)), Put(m, i, t.(pc := L14, ecx := i));
    FourMoves(m, CallSetLock, m1, Instr, m2, Instr, m3, Instr);
  }

  lemma FlagSet(m: Machine, i: nat)
    requires Idle(m, i)
    ensures var t, u := m.threads[i], m.(sched := SetSpinning(m.sched, i, true));
            var m3 := Put(m, i, t.(pc := L14, ecx := i));
            CanMove(m3, Instr) && Do(m3, Instr) == Put(u, i, t.(pc := L16, ecx := i))
  {
  }

  // ---------- two holders ----------

  /** Releasing a lock that another process holds and then acquiring it: both hold it. */
  lemma TwoHold(m: Machine, i: nat, k: nat)
    requires Idle(m, i) && Held(m, k) && k != i
    ensures CanMoveAll(m, Release() + Acquire())
    ensures var n := DoAll(m, Release() + Acquire());
            Held(n, i) && Held(n, k) && !LockInv(n)
  {
    hide Release, Acquire, DoAll, CanMoveAll, Inv, SetSpinning;
    ReleaseClears(m, i);
    var u := m.(lock := 0);
    AcquireTakes(u, i);
    MovesThen(m, Release(), Acquire());
    assert Held(Acquired(u, i), i) && Held(Acquired(u, i), k);
  }

  /** Such a run from start-up: the first process takes the lock, and after a tick the second one releases and takes it too. */
  lemma TwoHolders() returns (vs: seq<Move>)
    ensures CanMoveAll(Boot(), vs) && Held(DoAll(Boot(), vs), 0) && Held(DoAll(Boot(), vs), 1)
  {
    hide CanMoveAll, DoAll, Release, Acquire, Held, Boot;
    var us := FirstHolder();
    var m := DoAll(Boot(), us);
    TwoHold(m, 1, 0);
    MovesThen(Boot(), us, Release() + Acquire());
    vs := us + (Release() + Acquire());
  }

  /** The state before the second process comes in. */
  predicate FirstHolds(m: Machine) {
    Idle(m, 1) && Held(m, 0)
  }

  lemma FirstHolder() returns (us: seq<Move>)
    ensures CanMoveAll(Boot(), us) && FirstHolds(DoAll(Boot(), us))
  {
    hide CanMoveAll, DoAll, Acquire, Do, CanMove, FirstHolds, Boot, Acquired, Idle;
    var m := FirstStarted();
    AcquireTakes(m, 0);
    var n := Acquired(m, 0);
    var tick := Sys(Tick(1, Ref(1, PRIORITY)));
    SecondRuns();
    NoMoves(Do(n, tick));
    OneMove(n, tick, []);
    var starts := StartMoves();
    MovesThen(Boot(), starts, Acquire());
    MovesThen(Boot(), starts + Acquire(), [tick] + []);
    us := starts + Acquire() + ([tick] + []);
  }

  /** Two processes, the first of them executing. */
  function FirstStarted(): (m: Machine)
    ensures Idle(m, 0) && m.lock == 0
  {
    Machine(Sched([GONE, WAITING, NOTHING, NOTHING], multiset{Ref(1, PRIORITY)}, Some(0), None), 0, [FRESH, FRESH, FRESH, FRESH])
  }

  lemma StartMoves() returns (vs: seq<Move>)
    ensures CanMoveAll(Boot(), vs) && DoAll(Boot(), vs) == FirstStarted()
  {
    TwoStart();
    var w0, w1 := Ref(0, PRIORITY), Ref(1, PRIORITY);
    var m1 := Machine(Sched([WAITING, NOTHING, NOTHING, NOTHING], multiset{w0}, None, None), 0, Boot().threads);
    var m2 := Machine(Sched([WAITING, WAITING, NOTHING, NOTHING], multiset{w0, w1}, None, None), 0, Boot().threads);
    var c, st := Sys(Create(true)), Sys(Start(w0));
    hide Step, CanStep, Initial, CanMoveAll, DoAll;
    CreateCan(Initial());
    CreateCan(m1.sched);
    assert CanMove(Boot(), c) && Do(Boot(), c) == m1;
    assert CanMove(m1, c) && Do(m1, c) == m2;
    assert CanMove(m2, st) && Do(m2, st) == FirstStarted();
    hide Do, CanMove, FirstStarted, Boot;
    NoMoves(FirstStarted());
    OneMove(m2, st, []);
    OneMove(m1, c, [st] + []);
    OneMove(Boot(), c, [c] + ([st] + []));
    vs := [c] + ([c] + ([st] + []));
  }

  /** The tick that hands over while the first process is still marked as spinning. */
  lemma SecondRuns()
    ensures var n, tick := Acquired(FirstStarted(), 0), Sys(Tick(1, Ref(1, PRIORITY)));
            CanMove(n, tick) && FirstHolds(Do(n, tick))
  {
    var n, r := Acquired(FirstStarted(), 0), Ref(1, PRIORITY);
    var s := n.sched;
    assert s.procs == [GONE.(spinning := true), WAITING, NOTHING, NOTHING];
    var q := Pushed(s.ready, Ref(0, PRIORITY));
    assert q == multiset{Ref(1, PRIORITY), Ref(0, PRIORITY)};
    assert Chosen(q, r);
    assert CanTick(s, 1, r);
  }
}
