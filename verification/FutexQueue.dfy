/** The queue together with its two futex mutexes: a thread that wants a side lock goes through the steps of the
    mutex, and can sleep there; a thread that drops one may still have to wake somebody before it goes on. */
module FutexQueue {
  import opened Bytes
  import opened Framing
  import opened WritePlan
  import opened RingMemory
  import opened Protocol
  import opened RingInvariant
  import opened SystemInvariant
  import opened Wakeups
  import opened Deadlock
  import Mutex

  /** A state without its atomic locks: both fields stay free and guard nothing. */
  function Erase(s: State): State {
    s.(leftLock := Free, rightLock := Free)
  }

  /** The queue with its locks erased, and the two mutexes.  Only the mutex words decide who gets in. */
  datatype System = System(queue: State, left: Mutex.State, right: Mutex.State)

  function InitSystem(mem: Memory, threads: nat): System {
    System(Erase(Init(mem, threads)), Mutex.Init(threads), Mutex.Init(threads))
  }

  predicate WantsLeft(pc: Pc) { pc.RLock? || pc.WLock? }

  predicate DropsLeft(pc: Pc) { pc.RUnlock? || pc.RUnlockEmpty? || pc.WUnlock? }

  predicate WantsRight(pc: Pc) { pc.SLock? }

  predicate DropsRight(pc: Pc) { pc.SUnlock? }

  /** Thread `t` has swapped the lock word and still has to wake a sleeper. */
  predicate Waking(lock: Mutex.State, t: Tid) {
    t < |lock.pcs| && lock.pcs[t].Wake?
  }

  /** The step is one of thread `t` in a mutex, short of getting in. */
  predicate StaysOut(p: System, t: Tid, m: Mutex.Choice)
    requires t < |p.queue.pcs|
  {
    || Waking(p.left, t) || Waking(p.right, t)
    || (WantsLeft(p.queue.pcs[t]) && !Mutex.Holder(Mutex.Step(p.left, t, m), t))
    || (WantsRight(p.queue.pcs[t]) && !Mutex.Holder(Mutex.Step(p.right, t, m), t))
  }

  /** One event.  Getting into a mutex is the step that takes the lock, and the swap of its word the one
      that drops it. */
  function SystemStep(p: System, e: Event, m: Mutex.Choice): System {
    if !e.Thread? || e.t >= |p.queue.pcs| then p.(queue := Erase(Step(p.queue, e)))
    else
      var t, pc := e.t, p.queue.pcs[e.t];
      if Waking(p.left, t) then p.(left := Mutex.Step(p.left, t, m))
      else if Waking(p.right, t) then p.(right := Mutex.Step(p.right, t, m))
      else
        var left := if WantsLeft(pc) || DropsLeft(pc) then Mutex.Step(p.left, t, m) else p.left;
        var right := if WantsRight(pc) || DropsRight(pc) then Mutex.Step(p.right, t, m) else p.right;
        System(if StaysOut(p, t, m) then p.queue else Erase(Step(p.queue, e)), left, right)
  }

  function SystemRun(p: System, acts: seq<(Event, Mutex.Choice)>): System
    decreases |acts|
  {
    if acts == [] then p
    else
      var last := acts[|acts| - 1];
      SystemStep(SystemRun(p, acts[..|acts| - 1]), last.0, last.1)
  }

  /** The event is one of the queue itself. */
  predicate InQueue(p: System, e: Event, m: Mutex.Choice) {
    e.Thread? && e.t < |p.queue.pcs| ==> !StaysOut(p, e.t, m)
  }

  /** The events of a run that are events of the queue itself. */
  function Visible(p: System, acts: seq<(Event, Mutex.Choice)>): seq<Event>
    decreases |acts|
  {
    if acts == [] then []
    else
      var before, last := acts[..|acts| - 1], acts[|acts| - 1];
      Visible(p, before) + if InQueue(SystemRun(p, before), last.0, last.1) then [last.0] else []
  }

  // ---- The places where a lock changes hands ----

  /** A lock is taken where it is wanted and free, dropped where it is dropped, and nowhere else. */
  predicate LockPoint(wants: bool, drops: bool, held: bool, lock: Lock, held': bool) {
    && (drops ==> held && !held')
    && (wants ==> !held && (lock.Free? ==> held'))
    && (!wants && !drops ==> held' == held)
  }

  predicate LockPoints(s: State, t: Tid, s': State) {
    && t < |s.pcs| == |s'.pcs|
    && var pc, pc' := s.pcs[t], s'.pcs[t];
       && LockPoint(WantsLeft(pc), DropsLeft(pc), HoldsLeft(pc), s.leftLock, HoldsLeft(pc'))
       && LockPoint(WantsRight(pc), DropsRight(pc), HoldsRight(pc), s.rightLock, HoldsRight(pc'))
  }

  lemma SendPoints(s: State, t: Tid, c: Choice)
    requires t < |s.pcs| && RegionOf(s.pcs[t]) == Sending
    ensures LockPoints(s, t, SendStep(s, t, c))
  {
    hide StoreBytes, Publish, TooMuch, Zeros, LittleEndian;
  }

  lemma WritePoints(s: State, t: Tid, c: Choice)
    requires t < |s.pcs| && RegionOf(s.pcs[t]) == Writing
    ensures LockPoints(s, t, WriteStep(s, t, c))
  {
    hide StoreBytes, Position, Add32, Sub32, PlanWrite;
  }

  lemma FixPoints(s: State, t: Tid)
    requires t < |s.pcs| && RegionOf(s.pcs[t]) == Rebasing
    ensures LockPoints(s, t, FixStep(s, t))
  {
    hide FixLeft, FixRight, Position, Sub32;
  }

  lemma RecvPoints(s: State, t: Tid)
    requires t < |s.pcs| && RegionOf(s.pcs[t]) == Receiving
    ensures LockPoints(s, t, RecvStep(s, t))
  {
  }

  lemma DeliverPoints(s: State, t: Tid, c: Choice)
    requires t < |s.pcs| && RegionOf(s.pcs[t]) == Delivering
    ensures LockPoints(s, t, DeliverStep(s, t, c))
  {
    hide Release, ReadPrefix, Load;
  }

  lemma WaitPoints(s: State, t: Tid, c: Choice)
    requires t < |s.pcs| && RegionOf(s.pcs[t]) == Waiting
    ensures LockPoints(s, t, WaitStep(s, t, c))
  {
    hide Add32, Sub32;
  }

  lemma StepPoints(s: State, t: Tid, c: Choice)
    requires t < |s.pcs|
    ensures LockPoints(s, t, Step(s, Thread(t, c)))
  {
    hide SendStep, WriteStep, FixStep, RecvStep, DeliverStep, WaitStep;
    match RegionOf(s.pcs[t])
    case Outside =>
    case Sending => SendPoints(s, t, c);
    case Writing => WritePoints(s, t, c);
    case Rebasing => FixPoints(s, t);
    case Receiving => RecvPoints(s, t);
    case Delivering => DeliverPoints(s, t, c);
    case Waiting => WaitPoints(s, t, c);
  }

  // ---- Only the steps that take a lock look at one ----

  /** The locks that the step at `pc` looks at are free. */
  predicate Unguarded(s: State, pc: Pc) {
    (WantsLeft(pc) ==> s.leftLock.Free?) && (WantsRight(pc) ==> s.rightLock.Free?)
  }

  lemma SendErased(s: State, t: Tid, c: Choice)
    requires t < |s.pcs| && RegionOf(s.pcs[t]) == Sending && Unguarded(s, s.pcs[t])
    requires !s.pcs[t].SCall? && !s.pcs[t].SWake?
    ensures Erase(SendStep(Erase(s), t, c)) == Erase(SendStep(s, t, c))
  {
    hide StoreBytes, Publish, TooMuch, Zeros, LittleEndian;
  }

  lemma CallErased(s: State, t: Tid, c: Choice)
    requires t < |s.pcs| && (s.pcs[t].SCall? || s.pcs[t].SWake?)
    ensures Erase(SendStep(Erase(s), t, c)) == Erase(SendStep(s, t, c))
  {
    hide StoreBytes, Publish, TooMuch, Zeros, LittleEndian, WantsLeft, WantsRight;
  }

  lemma PlanErased(s: State, t: Tid, c: Choice)
    requires t < |s.pcs| && Plans(s.pcs[t])
    ensures Erase(WriteStep(Erase(s), t, c)) == Erase(WriteStep(s, t, c))
  {
    hide Position, Branch, CacheServes;
  }

  lemma WriteErased(s: State, t: Tid, c: Choice)
    requires t < |s.pcs| && RegionOf(s.pcs[t]) == Writing && !Plans(s.pcs[t])
    ensures Erase(WriteStep(Erase(s), t, c)) == Erase(WriteStep(s, t, c))
  {
    hide StoreBytes, Position, Add32, Sub32;
  }

  lemma FixErased(s: State, t: Tid)
    requires t < |s.pcs| && RegionOf(s.pcs[t]) == Rebasing && Unguarded(s, s.pcs[t])
    ensures Erase(FixStep(Erase(s), t)) == Erase(FixStep(s, t))
  {
    hide FixLeft, FixRight, Position, Sub32;
  }

  lemma RecvErased(s: State, t: Tid)
    requires t < |s.pcs| && RegionOf(s.pcs[t]) == Receiving && Unguarded(s, s.pcs[t])
    ensures Erase(RecvStep(Erase(s), t)) == Erase(RecvStep(s, t))
  {
  }

  lemma DeliverErased(s: State, t: Tid, c: Choice)
    requires t < |s.pcs| && RegionOf(s.pcs[t]) == Delivering
    ensures Erase(DeliverStep(Erase(s), t, c)) == Erase(DeliverStep(s, t, c))
  {
    hide Release, ReadPrefix, Load;
  }

  lemma WaitErased(s: State, t: Tid, c: Choice)
    requires t < |s.pcs| && RegionOf(s.pcs[t]) == Waiting
    ensures Erase(WaitStep(Erase(s), t, c)) == Erase(WaitStep(s, t, c))
  {
    hide Add32, Sub32;
  }

  lemma StepErased(s: State, t: Tid, c: Choice)
    requires t < |s.pcs| && Unguarded(s, s.pcs[t])
    ensures Erase(Step(Erase(s), Thread(t, c))) == Erase(Step(s, Thread(t, c)))
  {
    hide SendStep, WriteStep, FixStep, RecvStep, DeliverStep, WaitStep;
    match RegionOf(s.pcs[t])
    case Outside =>
    case Sending => if s.pcs[t].SCall? || s.pcs[t].SWake? { CallErased(s, t, c); } else { SendErased(s, t, c); }
    case Writing => if Plans(s.pcs[t]) { PlanErased(s, t, c); } else { WriteErased(s, t, c); }
    case Rebasing => FixErased(s, t);
    case Receiving => RecvErased(s, t);
    case Delivering => DeliverErased(s, t, c);
    case Waiting => WaitErased(s, t, c);
  }

  // ---- The mutex and the guarded code agree ----

  /** Inside `lock`, short of its end. */
  predicate Trying(pc: Mutex.Pc) { pc.Exchange? || pc.Swap? || pc.Compare? || pc.Asleep? }

  /** Who is inside the mutex is in the guarded code, and who is on its way in wants to be there. */
  ghost predicate Linked(pcs: seq<Pc>, lock: Mutex.State, holds: Pc -> bool, wants: Pc -> bool) {
    && |lock.pcs| == |pcs|
    && Mutex.Inv(lock)
    && forall t | 0 <= t < |pcs| ::
         (lock.pcs[t].Inside? <==> holds(pcs[t])) && (Trying(lock.pcs[t]) ==> wants(pcs[t]))
  }

  /** The system is the state `s` of the queue with atomic locks, except that mutexes take the place of the locks. */
  ghost predicate Simulates(p: System, s: State) {
    && p.queue == Erase(s)
    && Inv(s)
    && Linked(s.pcs, p.left, HoldsLeft, WantsLeft)
    && Linked(s.pcs, p.right, HoldsRight, WantsRight)
  }

  /** What a thread does to its mutex, and to no other thread but one that sleeps there. */
  ghost predicate MutexMove(lock: Mutex.State, t: Tid, lock': Mutex.State) {
    && t < |lock.pcs| == |lock'.pcs|
    && Mutex.Inv(lock')
    && forall u | 0 <= u < |lock.pcs| && u != t ::
         lock'.pcs[u] == lock.pcs[u] || (lock.pcs[u].Asleep? && lock'.pcs[u].Swap?)
  }

  lemma MutexMoves(lock: Mutex.State, t: Tid, m: Mutex.Choice)
    requires Mutex.Inv(lock) && t < |lock.pcs|
    ensures MutexMove(lock, t, Mutex.Step(lock, t, m))
  {
    Mutex.StepKeepsExclusion(lock, t, m);
    Mutex.StepKeepsCare(lock, t, m);
  }

  /** What a thread does to the queue changes nobody else's place at a lock. */
  ghost predicate PlacesKept(pcs: seq<Pc>, t: Tid, pcs': seq<Pc>, at: Pc -> bool) {
    && |pcs'| == |pcs|
    && forall u | 0 <= u < |pcs| && u != t :: at(pcs'[u]) == at(pcs[u])
  }

  lemma MovesKeepPlaces(s: State, t: Tid, s': State)
    requires Moves(s, t, s')
    ensures PlacesKept(s.pcs, t, s'.pcs, HoldsLeft) && PlacesKept(s.pcs, t, s'.pcs, WantsLeft)
    ensures PlacesKept(s.pcs, t, s'.pcs, HoldsRight) && PlacesKept(s.pcs, t, s'.pcs, WantsRight)
  {
    hide LockMove, CountMove;
    forall u | 0 <= u < |s.pcs| && u != t
      ensures HoldsLeft(s'.pcs[u]) == HoldsLeft(s.pcs[u]) && WantsLeft(s'.pcs[u]) == WantsLeft(s.pcs[u])
      ensures HoldsRight(s'.pcs[u]) == HoldsRight(s.pcs[u]) && WantsRight(s'.pcs[u]) == WantsRight(s.pcs[u])
    {
      assert s'.pcs[u] == s.pcs[u] || Woken(s.pcs[u], s'.pcs[u]);
    }
  }

  lemma LinkKept(pcs: seq<Pc>, lock: Mutex.State, t: Tid, pcs': seq<Pc>, lock': Mutex.State,
                 holds: Pc -> bool, wants: Pc -> bool)
    requires Linked(pcs, lock, holds, wants) && t < |pcs|
    requires PlacesKept(pcs, t, pcs', holds) && PlacesKept(pcs, t, pcs', wants)
    requires lock' == lock || MutexMove(lock, t, lock')
    requires (lock'.pcs[t].Inside? <==> holds(pcs'[t])) && (Trying(lock'.pcs[t]) ==> wants(pcs'[t]))
    ensures Linked(pcs', lock', holds, wants)
  {
    hide Mutex.Inv;
    forall u | 0 <= u < |pcs'|
      ensures (lock'.pcs[u].Inside? <==> holds(pcs'[u])) && (Trying(lock'.pcs[u]) ==> wants(pcs'[u]))
    {
      if u != t { assert holds(pcs'[u]) == holds(pcs[u]) && wants(pcs'[u]) == wants(pcs[u]); }
    }
  }

  lemma WakeLinked(pcs: seq<Pc>, lock: Mutex.State, t: Tid, m: Mutex.Choice, holds: Pc -> bool, wants: Pc -> bool)
    requires Linked(pcs, lock, holds, wants) && Waking(lock, t)
    ensures Linked(pcs, Mutex.Step(lock, t, m), holds, wants)
  {
    MutexMoves(lock, t, m);
    LinkKept(pcs, lock, t, pcs, Mutex.Step(lock, t, m), holds, wants);
  }

  lemma TryLinked(pcs: seq<Pc>, lock: Mutex.State, t: Tid, m: Mutex.Choice, holds: Pc -> bool, wants: Pc -> bool)
    requires Linked(pcs, lock, holds, wants) && t < |pcs| && wants(pcs[t]) && !holds(pcs[t]) && !Waking(lock, t)
    requires !Mutex.Holder(Mutex.Step(lock, t, m), t)
    ensures Linked(pcs, Mutex.Step(lock, t, m), holds, wants)
  {
    MutexMoves(lock, t, m);
    LinkKept(pcs, lock, t, pcs, Mutex.Step(lock, t, m), holds, wants);
  }

  lemma EnterLinked(pcs: seq<Pc>, lock: Mutex.State, t: Tid, m: Mutex.Choice, pcs': seq<Pc>,
                    holds: Pc -> bool, wants: Pc -> bool)
    requires Linked(pcs, lock, holds, wants) && t < |pcs| == |pcs'|
    requires Mutex.Holder(Mutex.Step(lock, t, m), t) && holds(pcs'[t])
    requires PlacesKept(pcs, t, pcs', holds) && PlacesKept(pcs, t, pcs', wants)
    ensures Linked(pcs', Mutex.Step(lock, t, m), holds, wants)
  {
    MutexMoves(lock, t, m);
    LinkKept(pcs, lock, t, pcs', Mutex.Step(lock, t, m), holds, wants);
  }

  lemma DropLinked(pcs: seq<Pc>, lock: Mutex.State, t: Tid, m: Mutex.Choice, pcs': seq<Pc>,
                   holds: Pc -> bool, wants: Pc -> bool)
    requires Linked(pcs, lock, holds, wants) && t < |pcs|
    requires PlacesKept(pcs, t, pcs', holds) && PlacesKept(pcs, t, pcs', wants)
    requires holds(pcs[t]) && !holds(pcs'[t])
    ensures Linked(pcs', Mutex.Step(lock, t, m), holds, wants)
  {
    MutexMoves(lock, t, m);
    LinkKept(pcs, lock, t, pcs', Mutex.Step(lock, t, m), holds, wants);
  }

  lemma PassLinked(pcs: seq<Pc>, lock: Mutex.State, t: Tid, pcs': seq<Pc>, holds: Pc -> bool, wants: Pc -> bool)
    requires Linked(pcs, lock, holds, wants) && t < |pcs|
    requires PlacesKept(pcs, t, pcs', holds) && PlacesKept(pcs, t, pcs', wants)
    requires !wants(pcs[t]) && holds(pcs'[t]) == holds(pcs[t])
    ensures Linked(pcs', lock, holds, wants)
  {
    LinkKept(pcs, lock, t, pcs', lock, holds, wants);
  }

  /** Who gets into the mutex finds the lock of the guarded code free. */
  lemma EntersFree(pcs: seq<Pc>, lock: Mutex.State, t: Tid, m: Mutex.Choice, atomic: Lock,
                   holds: Pc -> bool, wants: Pc -> bool)
    requires Linked(pcs, lock, holds, wants) && t < |pcs| && !holds(pcs[t])
    requires LockInv(pcs, atomic, holds) && Mutex.Holder(Mutex.Step(lock, t, m), t)
    ensures atomic.Free?
  {
    assert !lock.pcs[t].Inside? && lock.word == 0;
    if atomic.Taken? {
      OwnerHolds(pcs, atomic, holds);
      assert Mutex.Holder(lock, atomic.owner);
    }
  }

  /** The effect of an event on one side, seen from that side's mutex. */
  lemma SideKept(s: State, t: Tid, s': State, lock: Mutex.State, m: Mutex.Choice, lock': Mutex.State, atomic: Lock,
                 holds: Pc -> bool, wants: Pc -> bool, drops: Pc -> bool)
    requires t < |s.pcs| == |s'.pcs| && Linked(s.pcs, lock, holds, wants) && LockInv(s.pcs, atomic, holds)
    requires PlacesKept(s.pcs, t, s'.pcs, holds) && PlacesKept(s.pcs, t, s'.pcs, wants)
    requires LockPoint(wants(s.pcs[t]), drops(s.pcs[t]), holds(s.pcs[t]), atomic, holds(s'.pcs[t]))
    requires !Waking(lock, t)
    requires lock' == if wants(s.pcs[t]) || drops(s.pcs[t]) then Mutex.Step(lock, t, m) else lock
    requires wants(s.pcs[t]) ==> Mutex.Holder(lock', t)
    ensures Linked(s'.pcs, lock', holds, wants)
  {
    if wants(s.pcs[t]) {
      EntersFree(s.pcs, lock, t, m, atomic, holds, wants);
      EnterLinked(s.pcs, lock, t, m, s'.pcs, holds, wants);
    } else if drops(s.pcs[t]) {
      DropLinked(s.pcs, lock, t, m, s'.pcs, holds, wants);
    } else {
      PassLinked(s.pcs, lock, t, s'.pcs, holds, wants);
    }
  }

  lemma MutexStepKeeps(p: System, s: State, t: Tid, c: Choice, m: Mutex.Choice)
    requires Simulates(p, s) && t < |p.queue.pcs| && StaysOut(p, t, m)
    ensures Simulates(SystemStep(p, Thread(t, c), m), s)
  {
    hide Inv, Step, Linked, Mutex.Step, Mutex.Holder;
    if Waking(p.left, t) {
      WakeLinked(s.pcs, p.left, t, m, HoldsLeft, WantsLeft);
    } else if Waking(p.right, t) {
      WakeLinked(s.pcs, p.right, t, m, HoldsRight, WantsRight);
    } else if WantsLeft(s.pcs[t]) {
      TryLinked(s.pcs, p.left, t, m, HoldsLeft, WantsLeft);
    } else {
      TryLinked(s.pcs, p.right, t, m, HoldsRight, WantsRight);
    }
  }

  /** Whoever gets in finds the atomic lock free. */
  lemma EntersUnguarded(p: System, s: State, t: Tid, m: Mutex.Choice)
    requires Simulates(p, s) && t < |p.queue.pcs| && !StaysOut(p, t, m)
    ensures Unguarded(s, s.pcs[t])
  {
    hide RingInv, AllPcs, CachesInv, WaitersInv, Settled, Linked, LockInv, Mutex.Step, Mutex.Holder;
    if WantsLeft(s.pcs[t]) {
      EntersFree(s.pcs, p.left, t, m, s.leftLock, HoldsLeft, WantsLeft);
    } else if WantsRight(s.pcs[t]) {
      EntersFree(s.pcs, p.right, t, m, s.rightLock, HoldsRight, WantsRight);
    }
  }

  lemma QueueStepKeeps(p: System, s: State, t: Tid, c: Choice, m: Mutex.Choice)
    requires Simulates(p, s) && t < |p.queue.pcs| && !StaysOut(p, t, m)
    ensures Simulates(SystemStep(p, Thread(t, c), m), Step(s, Thread(t, c)))
  {
    hide Step, RingInv, AllPcs, CachesInv, WaitersInv, Settled, Linked, LockPoint, PlacesKept, Mutex.Step, Mutex.Holder;
    var s', p' := Step(s, Thread(t, c)), SystemStep(p, Thread(t, c), m);
    StepKeepsInv(s, Thread(t, c));
    StepMoves(s, t, c);
    MovesKeepPlaces(s, t, s');
    StepPoints(s, t, c);
    EntersUnguarded(p, s, t, m);
    StepErased(s, t, c);
    SideKept(s, t, s', p.left, m, p'.left, s.leftLock, HoldsLeft, WantsLeft, DropsLeft);
    SideKept(s, t, s', p.right, m, p'.right, s.rightLock, HoldsRight, WantsRight, DropsRight);
  }

  lemma StepSimulates(p: System, s: State, e: Event, m: Mutex.Choice)
    requires Simulates(p, s)
    ensures Simulates(SystemStep(p, e, m), if InQueue(p, e, m) then Step(s, e) else s)
  {
    if e.Thread? && e.t < |p.queue.pcs| {
      hide Simulates, SystemStep, Step, StaysOut;
      if StaysOut(p, e.t, m) { MutexStepKeeps(p, s, e.t, e.c, m); } else { QueueStepKeeps(p, s, e.t, e.c, m); }
    } else {
      StepKeepsInv(s, e);
    }
  }

  lemma InitSimulates(mem: Memory, threads: nat)
    requires threads <= U32_MAX
    ensures Simulates(InitSystem(mem, threads), Init(mem, threads))
  {
    InitInv(mem, threads);
    Mutex.AlwaysInv(threads, []);
  }

  /** Every run of queue and mutexes simulates a run of the queue with atomic locks, and all invariants hold in it. */
  lemma {:induction false} AlwaysSimulates(mem: Memory, threads: nat, acts: seq<(Event, Mutex.Choice)>)
    requires threads <= U32_MAX
    ensures var start := InitSystem(mem, threads);
            Simulates(SystemRun(start, acts), Run(Init(mem, threads), Visible(start, acts)))
    decreases |acts|
  {
    if acts == [] {
      InitSimulates(mem, threads);
    } else {
      hide Simulates, SystemStep, Step, InQueue, Init;
      var start, before, last := InitSystem(mem, threads), acts[..|acts| - 1], acts[|acts| - 1];
      AlwaysSimulates(mem, threads, before);
      StepSimulates(SystemRun(start, before), Run(Init(mem, threads), Visible(start, before)), last.0, last.1);
      RunOneMore(Init(mem, threads), Visible(start, before), last.0);
      assert Visible(start, before) + [] == Visible(start, before);
    }
  }

  lemma LockTold(pcs: seq<Pc>, lock: Mutex.State, atomic: Lock, holds: Pc -> bool, wants: Pc -> bool)
    requires Linked(pcs, lock, holds, wants) && LockInv(pcs, atomic, holds)
    ensures forall t :: atomic == Taken(t) <==> Mutex.Holder(lock, t)
    ensures atomic.Taken? <==> lock.word != 0
  {
    if atomic.Taken? { assert Mutex.Holder(lock, atomic.owner); }
  }

  /** Refinement: a system in which only the two lock words decide who gets in goes through the same rings, caches,
      counters and program counters as the queue with atomic locks, whose locks are held at every moment by whoever
      is inside the mutex. */
  lemma RefinesQueue(mem: Memory, threads: nat, acts: seq<(Event, Mutex.Choice)>)
    requires threads <= U32_MAX
    ensures var p := SystemRun(InitSystem(mem, threads), acts);
            var s := Run(Init(mem, threads), Visible(InitSystem(mem, threads), acts));
            && p.queue == Erase(s)
            && (forall t :: s.leftLock == Taken(t) <==> Mutex.Holder(p.left, t))
            && (forall t :: s.rightLock == Taken(t) <==> Mutex.Holder(p.right, t))
            && (s.leftLock.Taken? <==> p.left.word != 0)
            && (s.rightLock.Taken? <==> p.right.word != 0)
  {
    hide Run, Init, SystemRun, InitSystem, Visible, RingInv, AllPcs, CachesInv, WaitersInv, Settled, Linked, LockInv;
    var p := SystemRun(InitSystem(mem, threads), acts);
    var s := Run(Init(mem, threads), Visible(InitSystem(mem, threads), acts));
    AlwaysSimulates(mem, threads, acts);
    LockTold(s.pcs, p.left, s.leftLock, HoldsLeft, WantsLeft);
    LockTold(s.pcs, p.right, s.rightLock, HoldsRight, WantsRight);
  }

  // ---- Deadlock freedom of the whole ----

  /** In a call, or still about to wake somebody after one. */
  predicate InCall(p: System, t: Tid) {
    t < |p.queue.pcs| && (!p.queue.pcs[t].Idle? || Waking(p.left, t) || Waking(p.right, t))
  }

  /** No thread that is in a call can do anything; sleeps that end by themselves do not count. */
  ghost predicate SystemStuck(p: System) {
    forall t: Tid, c: Choice, m: Mutex.Choice | InCall(p, t) && !c.Spurious? && !m.Spurious? ::
      SystemStep(p, Thread(t, c), m) == p
  }

  /** Who is awake in a mutex can move there. */
  lemma MutexGoesOn(lock: Mutex.State, t: Tid) returns (m: Mutex.Choice)
    requires t < |lock.pcs| && !lock.pcs[t].Asleep?
    ensures !m.Spurious? && Mutex.Step(lock, t, m) != lock
  {
    Mutex.BlockedMeansAsleep(lock, t);
    m :| !m.Spurious? && Mutex.Step(lock, t, m) != lock;
  }

  /** Where a thread is in a stuck state. */
  predicate Rests(p: System, t: Tid) {
    && t < |p.queue.pcs| == |p.left.pcs| == |p.right.pcs|
    && var pc := p.queue.pcs[t];
       || (WantsLeft(pc) && p.left.pcs[t].Asleep?)
       || (WantsRight(pc) && p.right.pcs[t].Asleep?)
       || pc.RAsleep? || pc.WAsleep?
  }

  lemma WakingGoesOn(p: System, t: Tid) returns (m: Mutex.Choice)
    requires t < |p.queue.pcs| && (Waking(p.left, t) || Waking(p.right, t))
    ensures !m.Spurious? && SystemStep(p, Thread(t, Go), m) != p
  {
    hide Mutex.Step, Step;
    if Waking(p.left, t) { m := MutexGoesOn(p.left, t); } else { m := MutexGoesOn(p.right, t); }
  }

  lemma TryingGoesOn(p: System, t: Tid) returns (m: Mutex.Choice)
    requires t < |p.queue.pcs| == |p.left.pcs| == |p.right.pcs| && !Waking(p.left, t) && !Waking(p.right, t)
    requires var pc := p.queue.pcs[t];
             (WantsLeft(pc) && !p.left.pcs[t].Asleep?) || (WantsRight(pc) && !p.right.pcs[t].Asleep?)
    ensures !m.Spurious? && SystemStep(p, Thread(t, Go), m) != p
  {
    hide Mutex.Step, Step;
    if WantsLeft(p.queue.pcs[t]) { m := MutexGoesOn(p.left, t); } else { m := MutexGoesOn(p.right, t); }
  }

  lemma QueueGoesOn(p: System, s: State, t: Tid) returns (c: Choice)
    requires Simulates(p, s) && t < |s.pcs| && !Waking(p.left, t) && !Waking(p.right, t)
    requires var pc := s.pcs[t]; !pc.Idle? && !WantsLeft(pc) && !WantsRight(pc) && !MustWait(s, pc)
    ensures !c.Spurious? && SystemStep(p, Thread(t, c), Mutex.Go) != p
  {
    hide Mutex.Step, Step, RingInv, PcInv, AllPcs, CachesInv, WaitersInv, LockInv, Settled, MustWait, Linked;
    AllPcsAt(s, t);
    c := GoesOn(s, t);
    StepErased(s, t, c);
    assert SystemStep(p, Thread(t, c), Mutex.Go).queue == Erase(Step(s, Thread(t, c)));
  }

  /** A thread in a call that does not rest can move. */
  lemma SystemGoesOn(p: System, s: State, t: Tid) returns (c: Choice, m: Mutex.Choice)
    requires Simulates(p, s) && InCall(p, t) && (Waking(p.left, t) || Waking(p.right, t) || !Rests(p, t))
    ensures !c.Spurious? && !m.Spurious? && SystemStep(p, Thread(t, c), m) != p
  {
    hide Mutex.Step, Step, SystemStep, Inv, Mutex.Inv;
    c, m := Go, Mutex.Go;
    var pc := p.queue.pcs[t];
    if Waking(p.left, t) || Waking(p.right, t) {
      m := WakingGoesOn(p, t);
    } else if WantsLeft(pc) || WantsRight(pc) {
      m := TryingGoesOn(p, t);
    } else {
      c := QueueGoesOn(p, s, t);
    }
  }

  lemma StuckRests(p: System, s: State, t: Tid)
    requires Simulates(p, s) && SystemStuck(p) && InCall(p, t)
    ensures !Waking(p.left, t) && !Waking(p.right, t) && Rests(p, t)
  {
    if Waking(p.left, t) || Waking(p.right, t) || !Rests(p, t) {
      hide SystemStep, Simulates;
      var c, m := SystemGoesOn(p, s, t);
    }
  }

  /** Who rests is neither in the left mutex nor awake in front of it. */
  lemma RestsOutsideLeft(p: System, s: State, u: Tid)
    requires Simulates(p, s) && Rests(p, u)
    ensures !p.left.pcs[u].Inside? && !p.left.pcs[u].Swap?
  {
    hide Inv, Mutex.Inv;
  }

  /** In a stuck state nobody sleeps in the left mutex: its owner could move. */
  lemma LeftMutexEmpty(p: System, s: State, t: Tid)
    requires Simulates(p, s) && SystemStuck(p) && t < |s.pcs|
    ensures !p.left.pcs[t].Asleep?
  {
    hide SystemStuck, Inv, Mutex.Inv;
    if p.left.pcs[t].Asleep? {
      assert Mutex.SomeAsleep(p.left);
      var u := CarerOrOwner(p.left);
      StuckRests(p, s, u);
      RestsOutsideLeft(p, s, u);
    }
  }

  /** Sleepers in a mutex have somebody awake in it or an owner. */
  lemma CarerOrOwner(lock: Mutex.State) returns (u: Tid)
    requires Mutex.Inv(lock) && Mutex.SomeAsleep(lock)
    ensures u < |lock.pcs| && (lock.pcs[u].Wake? || lock.pcs[u].Swap? || lock.pcs[u].Inside?)
  {
    if lock.word == 2 {
      u :| Mutex.Holder(lock, u);
    } else {
      u :| 0 <= u < |lock.pcs| && (lock.pcs[u] == Mutex.Wake || lock.pcs[u] == Mutex.Swap);
    }
  }

  /** In a stuck state a thread that sleeps in the right mutex waits for an owner. */
  lemma RightMutexOwned(p: System, s: State, t: Tid)
    requires Simulates(p, s) && SystemStuck(p) && t < |s.pcs| && p.right.pcs[t].Asleep?
    ensures s.rightLock.Taken?
  {
    hide SystemStuck, RingInv, PcInv, AllPcs, CachesInv, WaitersInv, Settled;
    assert Mutex.SomeAsleep(p.right);
    var u := CarerOrOwner(p.right);
    StuckRests(p, s, u);
    if p.right.pcs[u].Inside? {
      assert HoldsRight(s.pcs[u]);
      assert s.rightLock == Taken(u);
    }
  }

  /** Whenever queue and mutexes together are stuck, the queue with atomic locks is. */
  lemma StuckBelow(p: System, s: State)
    requires Simulates(p, s) && SystemStuck(p)
    ensures Stuck(s)
  {
    forall t: Tid, c: Choice | t < |s.pcs| && !s.pcs[t].Idle? && !c.Spurious?
      ensures Step(s, Thread(t, c)) == s
    {
      hide SystemStuck, Step, Inv;
      StuckRests(p, s, t);
      LeftMutexEmpty(p, s, t);
      if WantsRight(s.pcs[t]) { RightMutexOwned(p, s, t); }
      ParkedStays(s, t, c);
    }
  }

  /** Deadlock freedom down to the steps of the mutexes: no reachable state of queue and mutexes with a thread in a
      send and a thread in a receive is stuck, unless a receiver has been fooled. */
  lemma NoFutexDeadlock(mem: Memory, threads: nat, acts: seq<(Event, Mutex.Choice)>, sender: Tid, receiver: Tid)
    requires threads <= U32_MAX
    requires var pcs := SystemRun(InitSystem(mem, threads), acts).queue.pcs;
             && sender < |pcs| && InSend(pcs[sender])
             && receiver < |pcs| && InRecv(pcs[receiver])
    requires !Fooled(Init(mem, threads), Visible(InitSystem(mem, threads), acts))
    ensures !SystemStuck(SystemRun(InitSystem(mem, threads), acts))
  {
    hide SystemStuck, Stuck, Init, InitSystem, Run, SystemRun, Visible, Fooled, Inv, Linked;
    var p := SystemRun(InitSystem(mem, threads), acts);
    var events := Visible(InitSystem(mem, threads), acts);
    AlwaysSimulates(mem, threads, acts);
    if SystemStuck(p) {
      StuckBelow(p, Run(Init(mem, threads), events));
      NoDeadlock(mem, threads, events, sender, receiver);
    }
  }
}
