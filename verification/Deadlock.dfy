/** When the queue can get stuck, and when it cannot. */
module Deadlock {
  import opened Bytes
  import opened Framing
  import opened RingMemory
  import opened WritePlan
  import opened Protocol
  import opened RingInvariant
  import opened SystemInvariant
  import opened Wakeups
  import opened Theorems

  /** No thread that is in a call can do anything; a sleep that ends by itself does not count. */
  ghost predicate Stuck(s: State) {
    forall t: Tid, c: Choice | t < |s.pcs| && !s.pcs[t].Idle? && !c.Spurious? :: Step(s, Thread(t, c)) == s
  }

  /** The only places where a thread has to wait for another one. */
  predicate MustWait(s: State, pc: Pc) {
    || (pc.SLock? && s.rightLock.Taken?)
    || ((pc.RLock? || pc.WLock?) && s.leftLock.Taken?)
    || pc.WAsleep? || pc.RAsleep?
  }

  lemma SendGoesOn(s: State, t: Tid) returns (c: Choice)
    requires t < |s.pcs| && RegionOf(s.pcs[t]) == Sending && !MustWait(s, s.pcs[t]) && PcInv(s.ring, s.pcs[t])
    ensures !c.Spurious? && |SendStep(s, t, c).pcs| == |s.pcs| && SendStep(s, t, c).pcs[t] != s.pcs[t]
  {
    hide Store, LittleEndian, Holds;
    c := Go;
    if s.pcs[t].SCall? && |s.pcs[t].w.staged| >= PREFIX {
      c := Done;
      assert SendStep(s, t, c).pcs[t].SPrefix?;
    } else if s.pcs[t].SWake? {
      if u :| 0 <= u < |s.pcs| && s.pcs[u].RAsleep? { c := Wake(u); }
      assert SendStep(s, t, c).pcs[t].SUnlock?;
    } else {
      assert SendStep(s, t, c).pcs[t] != s.pcs[t];
    }
  }

  lemma WriteGoesOn(s: State, t: Tid) returns (c: Choice)
    requires t < |s.pcs| && RegionOf(s.pcs[t]) == Writing && !MustWait(s, s.pcs[t]) && PcInv(s.ring, s.pcs[t])
    ensures !c.Spurious? && |WriteStep(s, t, c).pcs| == |s.pcs| && WriteStep(s, t, c).pcs[t] != s.pcs[t]
  {
    hide Store, Position, PlanWrite, Holds;
    c := Chunk(1);
    assert WriteStep(s, t, c).pcs[t] != s.pcs[t];
  }

  lemma FixGoesOn(s: State, t: Tid)
    requires t < |s.pcs| && RegionOf(s.pcs[t]) == Rebasing && !MustWait(s, s.pcs[t])
    ensures |FixStep(s, t).pcs| == |s.pcs| && FixStep(s, t).pcs[t] != s.pcs[t]
  {
    hide Position, Sub32;
    assert FixStep(s, t).pcs[t] != s.pcs[t];
  }

  lemma RecvGoesOn(s: State, t: Tid)
    requires t < |s.pcs| && RegionOf(s.pcs[t]) == Receiving && !MustWait(s, s.pcs[t])
    ensures |RecvStep(s, t).pcs| == |s.pcs| && RecvStep(s, t).pcs[t] != s.pcs[t]
  {
    assert RecvStep(s, t).pcs[t] != s.pcs[t];
  }

  lemma DeliverGoesOn(s: State, t: Tid) returns (c: Choice)
    requires t < |s.pcs| && RegionOf(s.pcs[t]) == Delivering
    ensures !c.Spurious? && |DeliverStep(s, t, c).pcs| == |s.pcs| && DeliverStep(s, t, c).pcs[t] != s.pcs[t]
  {
    hide ReadPrefix, Load, Release;
    c := Chunk(1);
    if s.pcs[t].RWake? {
      if u :| 0 <= u < |s.pcs| && s.pcs[u].WAsleep? { c := Wake(u); }
    }
    assert DeliverStep(s, t, c).pcs[t] != s.pcs[t];
  }

  lemma WaitGoesOn(s: State, t: Tid)
    requires t < |s.pcs| && RegionOf(s.pcs[t]) == Waiting && !MustWait(s, s.pcs[t])
    ensures |WaitStep(s, t, Go).pcs| == |s.pcs| && WaitStep(s, t, Go).pcs[t] != s.pcs[t]
  {
    assert WaitStep(s, t, Go).pcs[t] != s.pcs[t];
  }

  /** A thread in a call that is not blocked can move. */
  lemma GoesOn(s: State, t: Tid) returns (c: Choice)
    requires t < |s.pcs| && PcInv(s.ring, s.pcs[t]) && !s.pcs[t].Idle? && !MustWait(s, s.pcs[t])
    ensures var pcs := Step(s, Thread(t, c)).pcs; !c.Spurious? && |pcs| == |s.pcs| && pcs[t] != s.pcs[t]
  {
    hide PcInv, MustWait, SendStep, WriteStep, FixStep, RecvStep, DeliverStep, WaitStep;
    match RegionOf(s.pcs[t])
    case Sending => c := SendGoesOn(s, t);
    case Writing => c := WriteGoesOn(s, t);
    case Rebasing => c := Go; FixGoesOn(s, t);
    case Receiving => c := Go; RecvGoesOn(s, t);
    case Delivering => c := DeliverGoesOn(s, t);
    case Waiting => c := Go; WaitGoesOn(s, t);
  }

  lemma StuckMeansBlocked(s: State, t: Tid)
    requires Stuck(s) && Inv(s) && t < |s.pcs| && !s.pcs[t].Idle?
    ensures MustWait(s, s.pcs[t])
  {
    if !MustWait(s, s.pcs[t]) {
      hide Step, RingInv, PcInv, MustWait, AllPcs;
      AllPcsAt(s, t);
      var _ := GoesOn(s, t);
    }
  }

  lemma OwnerHolds(pcs: seq<Pc>, lock: Lock, holds: Pc -> bool)
    requires LockInv(pcs, lock, holds) && lock.Taken?
    ensures lock.owner < |pcs| && holds(pcs[lock.owner])
  {
  }

  lemma LeftOwnerHolds(s: State)
    requires Inv(s) && s.leftLock.Taken?
    ensures s.leftLock.owner < |s.pcs| && HoldsLeft(s.pcs[s.leftLock.owner])
  {
    hide RingInv, AllPcs, CachesInv, WaitersInv, Settled;
    OwnerHolds(s.pcs, s.leftLock, HoldsLeft);
  }

  /** In a stuck state every thread in a call is in one of the places where it has to wait. */
  lemma AllBlocked(s: State)
    requires Stuck(s) && Inv(s)
    ensures forall t | 0 <= t < |s.pcs| && !s.pcs[t].Idle? :: MustWait(s, s.pcs[t])
  {
    forall t | 0 <= t < |s.pcs| && !s.pcs[t].Idle? ensures MustWait(s, s.pcs[t]) { StuckMeansBlocked(s, t); }
  }

  /** In a stuck state the left lock is free, and every thread in a receive sleeps. */
  lemma StuckReceivers(s: State)
    requires Stuck(s) && Inv(s)
    ensures s.leftLock.Free?
    ensures forall t | 0 <= t < |s.pcs| && InRecv(s.pcs[t]) :: s.pcs[t].RAsleep?
    ensures forall t | 0 <= t < |s.pcs| && InSend(s.pcs[t]) :: s.pcs[t].SLock? || s.pcs[t].WAsleep?
  {
    hide Stuck, Inv;
    AllBlocked(s);
    if s.leftLock.Taken? { LeftOwnerHolds(s); }
  }

  /** Asleep, or at the right lock behind somebody. */
  predicate Parked(s: State, pc: Pc) {
    pc.RAsleep? || pc.WAsleep? || (pc.SLock? && s.rightLock.Taken?)
  }

  lemma ParkedStays(s: State, t: Tid, c: Choice)
    requires t < |s.pcs| && Parked(s, s.pcs[t]) && !c.Spurious?
    ensures Step(s, Thread(t, c)) == s
  {
    match RegionOf(s.pcs[t])
    case Sending => assert Step(s, Thread(t, c)) == SendStep(s, t, c);
    case Writing => assert Step(s, Thread(t, c)) == WriteStep(s, t, c);
    case Waiting => assert Step(s, Thread(t, c)) == WaitStep(s, t, c);
  }

  /** Exactly the reachable states in which everybody in a call sleeps, or queues up at the taken right lock,
      are stuck; nobody is ever stuck at the left lock. */
  lemma StuckExactly(mem: Memory, threads: nat, events: seq<Event>)
    requires threads <= U32_MAX
    ensures var s := After(mem, threads, events);
            Stuck(s) <==> forall t | 0 <= t < |s.pcs| && !s.pcs[t].Idle? :: Parked(s, s.pcs[t])
  {
    hide Run, Init, Step, Inv;
    var s := After(mem, threads, events);
    AlwaysInv(mem, threads, events);
    if Stuck(s) {
      hide Stuck;
      AllBlocked(s);
      StuckReceivers(s);
    } else {
      var t: Tid, c: Choice :| t < |s.pcs| && !s.pcs[t].Idle? && !c.Spurious? && Step(s, Thread(t, c)) != s;
      if Parked(s, s.pcs[t]) { ParkedStays(s, t, c); }
    }
  }

  /** If somebody is stuck in a send, then the holder of the right lock sleeps on the left offset. */
  lemma StuckSender(s: State, t: Tid) returns (o: Tid)
    requires Stuck(s) && Inv(s) && t < |s.pcs| && InSend(s.pcs[t])
    ensures o < |s.pcs| && s.pcs[o].WAsleep?
  {
    StuckReceivers(s);
    StuckMeansBlocked(s, t);
    hide Stuck, RingInv, AllPcs, CachesInv, WaitersInv, Settled;
    if s.pcs[t].WAsleep? {
      o := t;
    } else {
      o := s.rightLock.owner;
      assert HoldsRight(s.pcs[o]);
    }
  }

  /** A stuck state with a thread in a send has an unread message: the sender at the lock waits for its release. */
  lemma StuckSendIsFull(s: State, t: Tid)
    requires Stuck(s) && Inv(s) && SendersInv(s) && t < |s.pcs| && InSend(s.pcs[t])
    ensures Unread(s.ring) != [] && s.ring.lapL == s.ring.lapR && s.ring.right >= s.ring.left + PREFIX
  {
    var o := StuckSender(s, t);
    StuckReceivers(s);
    hide Stuck, RingInv, AllPcs, CachesInv, WaitersInv, Settled, LockInv, Holds;
    assert !SomeReleasePending(s.pcs);
    AllPcsAt(s, o);
    assert Full(s.ring, s.pcs[o].w, s.pcs[o].buf, s.ring.left);
    FullHasMessage(s.ring, s.pcs[o].w, s.pcs[o].buf);
  }

  /** A stuck state with a thread in a receive has an empty queue, unless a receiver has slept through a lap. */
  lemma StuckReceiveIsEmpty(s: State, t: Tid)
    requires Stuck(s) && Inv(s) && ReceiversInv(s, false) && t < |s.pcs| && InRecv(s.pcs[t])
    ensures Unread(s.ring) == []
  {
    StuckReceivers(s);
    hide Stuck, Inv;
    AsleepCounted(s.pcs, t, IsRAsleep);
    CountNone(s.pcs, Seeking);
    CountNone(s.pcs, PublishPending);
  }

  /** Deadlock freedom, for any number of senders and receivers and whoever else is between calls: no reachable state
      with a thread in a send and a thread in a receive is stuck, unless a receiver has slept through a lap and there
      have been messages and a sleeping receiver ever since. */
  lemma NoDeadlock(mem: Memory, threads: nat, events: seq<Event>, sender: Tid, receiver: Tid)
    requires threads <= U32_MAX
    requires var s := After(mem, threads, events);
             && sender < |s.pcs| && InSend(s.pcs[sender])
             && receiver < |s.pcs| && InRecv(s.pcs[receiver])
    requires !Fooled(Init(mem, threads), events)
    ensures !Stuck(After(mem, threads, events))
  {
    hide Run, Init, Inv, Stuck, Fooled;
    var s := After(mem, threads, events);
    AlwaysInv(mem, threads, events);
    AlwaysWakeInv(mem, threads, events);
    if Stuck(s) {
      StuckSendIsFull(s, sender);
      StuckReceiveIsEmpty(s, receiver);
    }
  }

  // ---- Exactly when a receiver is fooled ----

  /** The moment at which a receiver falls asleep, in any run: something was committed since it found the queue empty
      exactly if a lap or more was; otherwise the queue is empty. */
  lemma FooledExactly(mem: Memory, threads: nat, events: seq<Event>, t: Tid)
    requires threads <= U32_MAX
    requires var s := After(mem, threads, events); t < |s.pcs| && s.pcs[t].RCompare? && s.ring.right == s.pcs[t].e
    ensures var s := After(mem, threads, events);
            var s' := Step(s, Thread(t, Go));
            && |s'.pcs| == |s.pcs| && s'.pcs[t].RAsleep? && s'.ring == s.ring
            && (s.ring.committed != s.pcs[t].at <==> SleepsThroughLap(s, Thread(t, Go)))
            && (SleepsThroughLap(s, Thread(t, Go)) || Unread(s.ring) == [])
  {
    hide Run, Init, RingInv, AllPcs, CachesInv, WaitersInv, LockInv, Settled, Unread;
    var s := After(mem, threads, events);
    AlwaysInv(mem, threads, events);
    AllPcsAt(s, t);
    CompareEmptyOrLap(s.ring, s.pcs[t].e, s.pcs[t].at, s.pcs[t].laps);
  }

  /** `k` is a moment of the run at which a receiver slept through a lap, and ever since there have been messages
      and a sleeping receiver. */
  ghost predicate FooledSince(s: State, events: seq<Event>, k: nat) {
    && k < |events|
    && SleepsThroughLap(Run(s, events[..k]), events[k])
    && forall i | k < i <= |events| :: SleepsOnMessages(Run(s, events[..i]))
  }

  lemma SincePrefix(s: State, events: seq<Event>, k: nat)
    requires events != [] && k < |events| - 1
    ensures FooledSince(s, events, k) <==>
            FooledSince(s, events[..|events| - 1], k) && SleepsOnMessages(Run(s, events))
  {
    hide Run, SleepsOnMessages, SleepsThroughLap;
    var before := events[..|events| - 1];
    assert forall i | 0 <= i <= |before| :: before[..i] == events[..i];
    assert events[..|events|] == events;
  }

  lemma SinceLast(s: State, events: seq<Event>)
    requires events != []
    ensures FooledSince(s, events, |events| - 1) <==>
            && SleepsThroughLap(Run(s, events[..|events| - 1]), events[|events| - 1])
            && SleepsOnMessages(Run(s, events))
  {
    hide Run, SleepsOnMessages, SleepsThroughLap;
    assert events[..|events|] == events;
  }

  lemma SinceBounds(s: State, events: seq<Event>, k: nat)
    requires FooledSince(s, events, k)
    ensures k < |events|
  {
  }

  /** What being fooled means over a whole run. */
  lemma {:induction false} FooledHistory(s: State, events: seq<Event>)
    ensures Fooled(s, events) <==> exists k: nat :: FooledSince(s, events, k)
    decreases |events|
  {
    hide Run, SleepsOnMessages, SleepsThroughLap, FooledSince;
    if events != [] {
      var before := events[..|events| - 1];
      FooledHistory(s, before);
      SinceLast(s, events);
      if Fooled(s, before) {
        var k: nat :| FooledSince(s, before, k);
        SinceBounds(s, before, k);
        SincePrefix(s, events, k);
      }
      if k: nat :| FooledSince(s, events, k) {
        SinceBounds(s, events, k);
        if k < |before| { SincePrefix(s, events, k); }
      }
    } else if k: nat :| FooledSince(s, events, k) {
      SinceBounds(s, events, k);
    }
  }

  /** Less than the size of the data area is committed between any receiver's look and its compare. */
  ghost predicate ShortWindows(s: State, events: seq<Event>)
    decreases |events|
  {
    && (forall t | 0 <= t < |Run(s, events).pcs| && Run(s, events).pcs[t].RCompare? ::
          Run(s, events).ring.committed < Run(s, events).pcs[t].at + |Run(s, events).ring.mem|)
    && (events == [] || ShortWindows(s, events[..|events| - 1]))
  }

  lemma {:induction false} ShortWindowsSuffice(s: State, events: seq<Event>)
    requires ShortWindows(s, events)
    ensures !Fooled(s, events)
    decreases |events|
  {
    if events != [] { ShortWindowsSuffice(s, events[..|events| - 1]); }
  }

  /** Deadlock freedom in a caller's terms: as long as less than the size of the data area is committed
      between a receiver's look and its sleep, a run with a thread in a send and one in a receive is never stuck. */
  lemma ShortWindowsNoDeadlock(mem: Memory, threads: nat, events: seq<Event>, sender: Tid, receiver: Tid)
    requires threads <= U32_MAX && ShortWindows(Init(mem, threads), events)
    requires var s := After(mem, threads, events);
             && sender < |s.pcs| && InSend(s.pcs[sender])
             && receiver < |s.pcs| && InRecv(s.pcs[receiver])
    ensures !Stuck(After(mem, threads, events))
  {
    hide Stuck, Init, ShortWindows, Fooled;
    ShortWindowsSuffice(Init(mem, threads), events);
    NoDeadlock(mem, threads, events, sender, receiver);
  }

  /** Only thread `u` ever receives. */
  predicate SoleReceiver(events: seq<Event>, u: Tid) {
    forall e | e in events :: e.Thread? && e.c.Recv? ==> e.t == u
  }

  predicate WindowOpen(pc: Pc) { pc.RUnlockEmpty? || pc.RSpin? || pc.RCompare? || pc.RAsleep? }

  /** With one receiver nothing is consumed between its look and its sleep. */
  ghost predicate SoleInv(s: State, u: Tid) {
    && (forall t | 0 <= t < |s.pcs| && t != u :: !InRecv(s.pcs[t]))
    && (u < |s.pcs| && WindowOpen(s.pcs[u]) ==> s.pcs[u].at == s.ring.consumed)
  }

  /** Receiving starts with a call; the window opens on an empty queue and stays as it was opened. */
  ghost predicate WindowMove(s: State, t: Tid, c: Choice, s': State)
    requires t < |s.pcs| == |s'.pcs|
  {
    var pc, pc' := s.pcs[t], s'.pcs[t];
    && (InRecv(pc') ==> InRecv(pc) || c.Recv?)
    && (WindowOpen(pc') ==> (WindowOpen(pc) && pc'.at == pc.at) || pc'.at == s'.ring.consumed)
    && (s'.ring.consumed == s.ring.consumed || (InRecv(pc) && !WindowOpen(pc')))
  }

  lemma SendWindow(s: State, t: Tid, c: Choice)
    requires t < |s.pcs| && RegionOf(s.pcs[t]) == Sending
    ensures WindowMove(s, t, c, SendStep(s, t, c))
  {
    hide Store, LittleEndian, Add32;
  }

  lemma WriteWindow(s: State, t: Tid, c: Choice)
    requires t < |s.pcs| && RegionOf(s.pcs[t]) == Writing
    ensures WindowMove(s, t, c, WriteStep(s, t, c))
  {
    hide Store, Position, PlanWrite, Add32, Sub32;
  }

  lemma FixWindow(s: State, t: Tid, c: Choice)
    requires t < |s.pcs| && RegionOf(s.pcs[t]) == Rebasing
    ensures WindowMove(s, t, c, FixStep(s, t))
  {
    hide Position, Sub32;
  }

  lemma RecvWindow(s: State, t: Tid, c: Choice)
    requires t < |s.pcs| && RegionOf(s.pcs[t]) == Receiving && RingInv(s.ring) && PcInv(s.ring, s.pcs[t])
    ensures WindowMove(s, t, c, RecvStep(s, t))
  {
    hide Holds, EncodeAll, Size, Unread, Laps;
  }

  lemma DeliverWindow(s: State, t: Tid, c: Choice)
    requires t < |s.pcs| && RegionOf(s.pcs[t]) == Delivering && |DeliverStep(s, t, c).pcs| == |s.pcs|
    ensures WindowMove(s, t, c, DeliverStep(s, t, c))
  {
    hide ReadPrefix, Load, Add32, Trunc32;
  }

  lemma WaitWindow(s: State, t: Tid, c: Choice)
    requires t < |s.pcs| && RegionOf(s.pcs[t]) == Waiting
    ensures WindowMove(s, t, c, WaitStep(s, t, c))
  {
    hide Add32, Sub32;
  }

  lemma StepWindow(s: State, t: Tid, c: Choice)
    requires t < |s.pcs| && RingInv(s.ring) && PcInv(s.ring, s.pcs[t])
    requires |Step(s, Thread(t, c)).pcs| == |s.pcs|
    ensures WindowMove(s, t, c, Step(s, Thread(t, c)))
  {
    match RegionOf(s.pcs[t])
    case Outside =>
    case Sending => hide RingInv, PcInv, WindowMove; SendWindow(s, t, c);
    case Writing => hide RingInv, PcInv, WindowMove; WriteWindow(s, t, c);
    case Rebasing => hide RingInv, PcInv, WindowMove; FixWindow(s, t, c);
    case Receiving => hide RingInv, PcInv, WindowMove; RecvWindow(s, t, c);
    case Delivering => hide RingInv, PcInv, WindowMove; DeliverWindow(s, t, c);
    case Waiting => hide RingInv, PcInv, WindowMove; WaitWindow(s, t, c);
  }

  lemma WindowKept(s: State, t: Tid, c: Choice, s': State, u: Tid)
    requires SoleInv(s, u) && Moves(s, t, s') && WindowMove(s, t, c, s') && (c.Recv? ==> t == u)
    ensures SoleInv(s', u)
  {
    forall v | 0 <= v < |s'.pcs| && v != u ensures !InRecv(s'.pcs[v]) {
      if v != t { assert s'.pcs[v] == s.pcs[v] || Woken(s.pcs[v], s'.pcs[v]); }
    }
  }

  lemma {:induction false} AlwaysSole(mem: Memory, threads: nat, events: seq<Event>, u: Tid)
    requires threads <= U32_MAX && SoleReceiver(events, u)
    ensures SoleInv(After(mem, threads, events), u)
    decreases |events|
  {
    if events != [] {
      var before, e := events[..|events| - 1], events[|events| - 1];
      var s := After(mem, threads, before);
      assert e in events;
      AlwaysInv(mem, threads, before);
      AlwaysSole(mem, threads, before, u);
      if e.Thread? && e.t < |s.pcs| && Step(s, e) != s {
        hide Step, RingInv, PcInv, AllPcs, CachesInv, WaitersInv, LockInv, Settled, Moves, SoleInv, WindowMove;
        AllPcsAt(s, e.t);
        StepMoves(s, e.t, e.c);
        MovesLength(s, e.t, Step(s, e));
        StepWindow(s, e.t, e.c);
        WindowKept(s, e.t, e.c, Step(s, e), u);
      }
    }
  }

  /** With a single receiver, and any number of senders: when it falls asleep the queue is empty, or exactly full;
      and it is full exactly if a lap has been committed, and one rebase has happened, since the receiver's look. */
  lemma SoleReceiverSleep(mem: Memory, threads: nat, events: seq<Event>, u: Tid)
    requires threads <= U32_MAX && SoleReceiver(events, u)
    requires var s := After(mem, threads, events);
             u < |s.pcs| && s.pcs[u].RCompare? && s.ring.right == s.pcs[u].e
    ensures var s := After(mem, threads, events);
            var r, pc := s.ring, s.pcs[u];
            && (Unread(r) == [] || r.committed == r.consumed + |r.mem|)
            && (Unread(r) != [] <==> r.committed == pc.at + |r.mem|)
            && (Unread(r) != [] <==> r.rebases == pc.laps + 1)
  {
    hide Run, Init, AllPcs, CachesInv, WaitersInv, LockInv, Settled, Holds, EncodeAll;
    var s := After(mem, threads, events);
    AlwaysInv(mem, threads, events);
    AlwaysSole(mem, threads, events, u);
    AllPcsAt(s, u);
    SoleCompare(s.ring, s.pcs[u].e, s.pcs[u].at, s.pcs[u].laps);
  }

  lemma SoleCompare(r: Ring, e: nat, at: nat, laps: nat)
    requires RingInv(r) && SawEmpty(r, e, at, laps) && r.right == e && at == r.consumed
    ensures Unread(r) == [] || r.committed == r.consumed + |r.mem|
    ensures Unread(r) != [] <==> r.committed == at + |r.mem|
    ensures Unread(r) != [] <==> r.rebases == laps + 1
  {
    hide Holds, EncodeAll;
    SizeZero(Unread(r));
    CompareExact(r, e, at, laps);
    if laps < r.rebases { LapsGrow(laps, r.rebases, |r.mem|); }
    if laps + 1 < r.rebases { LapsGrow(laps + 1, r.rebases, |r.mem|); }
  }

  /** Thread `u` has been asleep since the moment `k` of the run. */
  ghost predicate AsleepSince(s: State, events: seq<Event>, u: Tid, k: nat) {
    && k <= |events|
    && forall i | k <= i <= |events| :: u < |Run(s, events[..i]).pcs| && Run(s, events[..i]).pcs[u].RAsleep?
  }

  /** A sole receiver that slept on an empty queue at some moment and has not woken since is not fooled. */
  lemma {:induction false} SoleNotFooled(mem: Memory, threads: nat, events: seq<Event>, u: Tid, k: nat)
    requires threads <= U32_MAX && SoleReceiver(events, u) && AsleepSince(Init(mem, threads), events, u, k)
    requires Unread(After(mem, threads, events[..k]).ring) == []
    ensures !Fooled(Init(mem, threads), events)
    decreases |events|
  {
    hide Run, Init, SoleInv, Unread;
    assert events[..|events|] == events;
    if k < |events| {
      var before := events[..|events| - 1];
      assert forall i | 0 <= i <= |before| :: before[..i] == events[..i];
      SoleNotFooled(mem, threads, before, u, k);
      AlwaysSole(mem, threads, before, u);
      SoleCompares(After(mem, threads, before), events[|events| - 1], u);
    }
  }

  /** Nobody else compares while the sole receiver sleeps. */
  lemma SoleCompares(s: State, e: Event, u: Tid)
    requires SoleInv(s, u) && u < |s.pcs| && s.pcs[u].RAsleep?
    ensures !SleepsThroughLap(s, e)
  {
  }

  /** A single receiver that slept on an empty queue at some moment `k`, however it was fooled before: for as long
      as it sleeps, the queue is empty or a sender is about to wake it. */
  lemma SoleSleeper(mem: Memory, threads: nat, events: seq<Event>, u: Tid, k: nat)
    requires threads <= U32_MAX && SoleReceiver(events, u) && AsleepSince(Init(mem, threads), events, u, k)
    requires Unread(After(mem, threads, events[..k]).ring) == []
    ensures var s := After(mem, threads, events);
            Unread(s.ring) == [] || exists t | 0 <= t < |s.pcs| :: PublishPending(s.pcs[t])
  {
    hide Run, Init, Inv, Fooled;
    var s := After(mem, threads, events);
    assert events[..|events|] == events;
    SoleNotFooled(mem, threads, events, u, k);
    AlwaysWakeInv(mem, threads, events);
    AlwaysSole(mem, threads, events, u);
    AsleepCounted(s.pcs, u, IsRAsleep);
    CountNone(s.pcs, Seeking);
    if Count(s.pcs, PublishPending) > 0 { var _ := CountPositive(s.pcs, PublishPending); }
  }

  /** A sleeping sender, in any run: its left offset is still there, or a receiver is about to wake it. */
  lemma SleepingSender(mem: Memory, threads: nat, events: seq<Event>, t: Tid)
    requires threads <= U32_MAX
    requires var s := After(mem, threads, events); t < |s.pcs| && s.pcs[t].WAsleep?
    ensures var s := After(mem, threads, events);
            || (s.ring.left == s.pcs[t].e && Unread(s.ring) != [])
            || exists u | 0 <= u < |s.pcs| :: ReleasePending(s.pcs[u])
  {
    hide Run, Init;
    var s := After(mem, threads, events);
    AlwaysWakeInv(mem, threads, events);
    hide Inv;
    if s.ring.left == s.pcs[t].e { BlockedSenderHasMessage(mem, threads, events, t); }
  }

  /** Each waiter counter is the number of threads between its increment and its decrement, so neither wraps;
      and who reads zero leaves nobody asleep. */
  lemma WaiterCounters(mem: Memory, threads: nat, events: seq<Event>)
    requires threads <= U32_MAX
    ensures var s := After(mem, threads, events);
            && s.leftWaiters == Count(s.pcs, WaitsLeft) && s.rightWaiters == Count(s.pcs, WaitsRight)
            && (forall t | 0 <= t < |s.pcs| :: WaitsLeft(s.pcs[t]) ==> s.leftWaiters > 0)
            && (forall t | 0 <= t < |s.pcs| :: WaitsRight(s.pcs[t]) ==> s.rightWaiters > 0)
            && (s.rightWaiters == 0 ==> forall t | 0 <= t < |s.pcs| :: !s.pcs[t].RAsleep?)
            && (s.leftWaiters == 0 ==> forall t | 0 <= t < |s.pcs| :: !s.pcs[t].WAsleep?)
  {
    hide Run, Init, RingInv, AllPcs, CachesInv, LockInv, Settled;
    var s := After(mem, threads, events);
    AlwaysInv(mem, threads, events);
    CountBound(s.pcs, WaitsLeft);
    CountBound(s.pcs, WaitsRight);
  }
}
