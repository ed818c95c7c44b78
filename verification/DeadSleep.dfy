/** What becomes of a sleeping receiver that is the only one: it sleeps on an empty queue, a wake is on its way, or the
    queue is full and nothing will ever be sent or received again. */
module DeadSleep {
  import opened Bytes
  import opened Framing
  import opened RingMemory
  import opened WritePlan
  import opened Protocol
  import opened RingInvariant
  import opened SystemInvariant
  import opened Wakeups
  import opened Theorems
  import opened Deadlock

  ghost predicate SomePublishPending(pcs: seq<Pc>) {
    exists t | 0 <= t < |pcs| :: PublishPending(pcs[t])
  }

  predicate RingFull(r: Ring) { r.committed == r.consumed + |r.mem| }

  // ---- One step of another thread while the receiver sleeps ----

  /** A wake gets on its way by a commit only, and who does not receive does not fall asleep over it. */
  ghost predicate PendingMove(s: State, t: Tid, s': State) {
    && t < |s.pcs| == |s'.pcs|
    && !s'.pcs[t].RAsleep?
    && (PublishPending(s'.pcs[t]) ==> s.pcs[t].SCommit? || PublishPending(s.pcs[t]))
    && (s.pcs[t].SCommit? ==> s'.pcs[t].SNotify?)
  }

  lemma SendPending(s: State, t: Tid, c: Choice)
    requires t < |s.pcs| && RegionOf(s.pcs[t]) == Sending && |SendStep(s, t, c).pcs| == |s.pcs|
    ensures PendingMove(s, t, SendStep(s, t, c))
  {
    hide StoreBytes, Publish, TooMuch, Zeros, LittleEndian;
  }

  lemma WritePending(s: State, t: Tid, c: Choice)
    requires t < |s.pcs| && RegionOf(s.pcs[t]) == Writing
    ensures PendingMove(s, t, WriteStep(s, t, c))
  {
    hide StoreBytes, Position, Add32, Sub32, PlanWrite;
  }

  lemma FixPending(s: State, t: Tid)
    requires t < |s.pcs| && RegionOf(s.pcs[t]) == Rebasing
    ensures PendingMove(s, t, FixStep(s, t))
  {
    hide FixLeft, FixRight, Position, Sub32;
  }

  /** The step of a thread that does not receive. */
  lemma StepPending(s: State, t: Tid, c: Choice)
    requires t < |s.pcs| && !InRecv(s.pcs[t]) && |Step(s, Thread(t, c)).pcs| == |s.pcs|
    ensures PendingMove(s, t, Step(s, Thread(t, c)))
  {
    hide SendStep, WriteStep, FixStep;
    match RegionOf(s.pcs[t])
    case Outside =>
    case Sending => SendPending(s, t, c);
    case Writing => WritePending(s, t, c);
    case Rebasing => FixPending(s, t);
  }

  /** Nothing can be committed to a full ring. */
  lemma FullExcludesCommit(r: Ring, pc: Pc)
    requires RingFull(r) && PcInv(r, pc)
    ensures !pc.SCommit?
  {
    hide Holds, Encode;
  }

  lemma SameHistory(r: Ring, r': Ring)
    requires RingInv(r) && RingInv(r') && r'.sent == r.sent && r'.got == r.got
    ensures r'.consumed == r.consumed && r'.committed == r.committed && Unread(r') == Unread(r)
  {
    hide Holds, EncodeAll, Size;
  }

  /** The ring and the wakes after a step of a sender: a commit that leaves a wake pending, or nothing new. */
  ghost predicate SenderMove(s: State, t: Tid, s': State) {
    && t < |s.pcs| == |s'.pcs|
    && !s'.pcs[t].RAsleep?
    && |s'.ring.mem| == |s.ring.mem|
    && (s.pcs[t].SCommit? ==> s'.pcs[t].SNotify? && !RingFull(s.ring))
    && (!s.pcs[t].SCommit? ==>
          && s'.ring.sent == s.ring.sent && s'.ring.got == s.ring.got
          && s'.ring.consumed == s.ring.consumed && s'.ring.committed == s.ring.committed
          && Unread(s'.ring) == Unread(s.ring)
          && (PublishPending(s'.pcs[t]) ==> PublishPending(s.pcs[t])))
    && (forall v | 0 <= v < |s.pcs| && v != t :: s'.pcs[v] == s.pcs[v] || Woken(s.pcs[v], s'.pcs[v]))
    && (!s.pcs[t].SWake? ==> forall v | 0 <= v < |s.pcs| && v != t && s.pcs[v].RAsleep? :: s'.pcs[v] == s.pcs[v])
  }

  lemma SenderMoves(s: State, t: Tid, c: Choice)
    requires Inv(s) && t < |s.pcs| && !InRecv(s.pcs[t]) && Step(s, Thread(t, c)) != s
    ensures SenderMove(s, t, Step(s, Thread(t, c)))
  {
    hide Step, RingInv, PcInv, AllPcs, Settled, LockInv, CachesInv, WaitersInv, LockMove, CountMove,
      Unread, RingFull, InRecv;
    var s' := Step(s, Thread(t, c));
    assert !s.pcs[t].RCommit? by { SenderIsNoReceiver(s.pcs[t]); }
    AllPcsAt(s, t);
    StepKeepsInv(s, Thread(t, c));
    StepMoves(s, t, c);
    StepCaches(s, t, c);
    StepBalance(s, t, c);
    StepPending(s, t, c);
    if s.pcs[t].SCommit? {
      if RingFull(s.ring) { FullExcludesCommit(s.ring, s.pcs[t]); }
    } else {
      SameHistory(s.ring, s'.ring);
    }
  }

  lemma SenderIsNoReceiver(pc: Pc)
    requires !InRecv(pc)
    ensures !pc.RCommit?
  {
  }

  // ---- Every sleep of a sole receiver ----

  /** A sole receiver sleeps on an empty queue, before a wake, or on a full queue. */
  ghost predicate SleeperInv(s: State, u: Tid) {
    u < |s.pcs| && s.pcs[u].RAsleep? ==> Unread(s.ring) == [] || SomePublishPending(s.pcs) || RingFull(s.ring)
  }

  /** Receivers fall asleep by a compare only. */
  predicate Compares(s: State, u: Tid, s': State) {
    u < |s.pcs| && s.pcs[u].RCompare? && s.ring.right == s.pcs[u].e && s'.ring == s.ring
  }

  lemma RecvSleeps(s: State, u: Tid)
    requires u < |s.pcs| && RegionOf(s.pcs[u]) == Receiving
    ensures !RecvStep(s, u).pcs[u].RAsleep?
  {
  }

  lemma DeliverSleeps(s: State, u: Tid, c: Choice)
    requires u < |s.pcs| && RegionOf(s.pcs[u]) == Delivering && |DeliverStep(s, u, c).pcs| == |s.pcs|
    ensures !DeliverStep(s, u, c).pcs[u].RAsleep?
  {
    hide ReadPrefix, Load, Release;
  }

  lemma WaitSleeps(s: State, u: Tid, c: Choice)
    requires u < |s.pcs| && RegionOf(s.pcs[u]) == Waiting && WaitStep(s, u, c) != s
    ensures WaitStep(s, u, c).pcs[u].RAsleep? ==> Compares(s, u, WaitStep(s, u, c))
  {
    hide Add32, Sub32;
  }

  lemma OwnSleep(s: State, u: Tid, c: Choice)
    requires u < |s.pcs| == |Step(s, Thread(u, c)).pcs| && Step(s, Thread(u, c)) != s && InRecv(s.pcs[u])
    ensures Step(s, Thread(u, c)).pcs[u].RAsleep? ==> Compares(s, u, Step(s, Thread(u, c)))
  {
    hide RecvStep, DeliverStep, WaitStep;
    match RegionOf(s.pcs[u])
    case Receiving => RecvSleeps(s, u);
    case Delivering => DeliverSleeps(s, u, c);
    case Waiting => WaitSleeps(s, u, c);
  }

  lemma SleepKeepsSleeper(s: State, u: Tid, c: Choice)
    requires Inv(s) && SoleInv(s, u) && u < |s.pcs| && InRecv(s.pcs[u]) && Step(s, Thread(u, c)) != s
    ensures SleeperInv(Step(s, Thread(u, c)), u)
  {
    hide Step, RingInv, AllPcs, Settled, LockInv, CachesInv, WaitersInv, Unread;
    var s' := Step(s, Thread(u, c));
    StepMoves(s, u, c);
    if s'.pcs[u].RAsleep? {
      OwnSleep(s, u, c);
      AllPcsAt(s, u);
      SoleCompare(s.ring, s.pcs[u].e, s.pcs[u].at, s.pcs[u].laps);
    }
  }

  /** A pending wake stays pending, or wakes the sleeper. */
  lemma WakeReaches(s: State, t: Tid, c: Choice, u: Tid)
    requires WaitersInv(s) && SoleInv(s, u) && t < |s.pcs| == |Step(s, Thread(t, c)).pcs| && u < |s.pcs| && t != u
    requires s.pcs[u].RAsleep? && PublishPending(s.pcs[t])
    ensures PublishPending(Step(s, Thread(t, c)).pcs[t]) || !Step(s, Thread(t, c)).pcs[u].RAsleep?
  {
    PublishEnds(s, t, c);
    hide Step, WaitersInv;
    SleeperCounted(s, u);
  }

  lemma SleeperCounted(s: State, u: Tid)
    requires WaitersInv(s) && u < |s.pcs| && s.pcs[u].RAsleep?
    ensures s.rightWaiters != 0
  {
    AsleepCounted(s.pcs, u, WaitsRight);
  }

  lemma OthersKeepSleeper(s: State, t: Tid, c: Choice, u: Tid)
    requires Inv(s) && SoleInv(s, u) && SleeperInv(s, u) && t < |s.pcs| && t != u && Step(s, Thread(t, c)) != s
    ensures SleeperInv(Step(s, Thread(t, c)), u)
  {
    var s' := Step(s, Thread(t, c));
    SenderMoves(s, t, c);
    hide Step, RingInv, AllPcs, Settled, LockInv, CachesInv, WaitersInv, Unread;
    if u < |s.pcs| && s'.pcs[u].RAsleep? {
      assert s.pcs[u].RAsleep?;
      if PublishPending(s.pcs[t]) {
        WakeReaches(s, t, c, u);
      } else if SomePublishPending(s.pcs) {
        var v :| 0 <= v < |s.pcs| && PublishPending(s.pcs[v]);
        assert PublishPending(s'.pcs[v]);
      }
    }
  }

  lemma {:induction false} AlwaysSleeper(mem: Memory, threads: nat, events: seq<Event>, u: Tid)
    requires threads <= U32_MAX && SoleReceiver(events, u)
    ensures SleeperInv(After(mem, threads, events), u)
    decreases |events|
  {
    if events != [] {
      var before, e := events[..|events| - 1], events[|events| - 1];
      var s := After(mem, threads, before);
      AlwaysInv(mem, threads, before);
      AlwaysSole(mem, threads, before, u);
      AlwaysSleeper(mem, threads, before, u);
      hide Inv, SoleInv, SleeperInv, Step;
      EventKeepsSleeper(s, e, u);
    }
  }

  lemma EventKeepsSleeper(s: State, e: Event, u: Tid)
    requires Inv(s) && SoleInv(s, u) && SleeperInv(s, u)
    ensures SleeperInv(Step(s, e), u)
  {
    hide Inv, SoleInv, Unread, RingFull;
    if e.Thread? && e.t < |s.pcs| && Step(s, e) != s {
      hide Step;
      if e.t != u {
        OthersKeepSleeper(s, e.t, e.c, u);
      } else if InRecv(s.pcs[u]) {
        SleepKeepsSleeper(s, u, e.c);
      } else {
        SenderMoves(s, u, e.c);
      }
    } else {
      EventElse(s, e);
    }
  }

  /** Whoever does nothing, or clears a cache, touches neither ring nor threads. */
  lemma EventElse(s: State, e: Event)
    requires !e.Thread? || e.t >= |s.pcs| || Step(s, e) == s
    ensures Step(s, e).ring == s.ring && Step(s, e).pcs == s.pcs
  {
  }

  // ---- The dead sleep ----

  /** The sole receiver sleeps on a full queue, and nobody is about to wake it. */
  ghost predicate Dead(s: State, u: Tid) {
    u < |s.pcs| && s.pcs[u].RAsleep? && RingFull(s.ring) && !SomePublishPending(s.pcs)
  }

  /** The sleep of `u` does not end by itself. */
  predicate Unprompted(events: seq<Event>, u: Tid) {
    forall e | e in events :: e.Thread? && e.t == u ==> !e.c.Spurious?
  }

  lemma SleeperStaysPut(s: State, u: Tid, c: Choice)
    requires u < |s.pcs| && s.pcs[u].RAsleep? && !c.Spurious?
    ensures Step(s, Thread(u, c)) == s
  {
    assert Step(s, Thread(u, c)) == WaitStep(s, u, c);
  }

  lemma DeadSleeps(s: State, u: Tid)
    requires Dead(s, u)
    ensures u < |s.pcs| && s.pcs[u].RAsleep?
  {
  }

  lemma DeadStep(s: State, e: Event, u: Tid)
    requires Inv(s) && SoleInv(s, u) && Dead(s, u) && (e.Thread? && e.t == u ==> !e.c.Spurious?)
    ensures Dead(Step(s, e), u) && Step(s, e).ring.sent == s.ring.sent && Step(s, e).ring.got == s.ring.got
  {
    hide Inv, RingFull, SenderMove;
    DeadSleeps(s, u);
    if e.Thread? && e.t < |s.pcs| && Step(s, e) != s {
      if e.t == u {
        SleeperStaysPut(s, u, e.c);
      } else {
        SenderMoves(s, e.t, e.c);
        DeadKept(s, e.t, Step(s, e), u);
      }
    } else {
      EventElse(s, e);
    }
  }

  lemma DeadKept(s: State, t: Tid, s': State, u: Tid)
    requires SenderMove(s, t, s') && Dead(s, u) && t != u
    ensures Dead(s', u) && s'.ring.sent == s.ring.sent && s'.ring.got == s.ring.got
  {
    hide Unread;
    forall v | 0 <= v < |s.pcs| ensures !PublishPending(s'.pcs[v]) {
      assert !PublishPending(s.pcs[v]);
    }
  }

  lemma {:induction false} DeadForEver(mem: Memory, threads: nat, events: seq<Event>, u: Tid, more: seq<Event>)
    requires threads <= U32_MAX && SoleReceiver(events, u) && SoleReceiver(more, u) && Unprompted(more, u)
    requires Dead(After(mem, threads, events), u)
    ensures var s, s' := After(mem, threads, events), After(mem, threads, events + more);
            Dead(s', u) && s'.ring.sent == s.ring.sent && s'.ring.got == s.ring.got
    decreases |more|
  {
    if more == [] {
      assert events + more == events;
    } else {
      var before, e := events + more[..|more| - 1], more[|more| - 1];
      assert (events + more)[..|events + more| - 1] == before && (events + more)[|events + more| - 1] == e;
      hide Inv, Dead, SoleInv, Step;
      DeadForEver(mem, threads, events, u, more[..|more| - 1]);
      AlwaysInv(mem, threads, before);
      AlwaysSole(mem, threads, before, u);
      DeadStep(After(mem, threads, before), e, u);
    }
  }

  /** If the only receiver sleeps while there are messages and no wake is pending, then the queue is full and dead: in
      every continuation in which the sleep does not end by itself and nobody else starts to receive, the receiver
      sleeps on and nothing is ever sent or received again. */
  lemma SleepsForEver(mem: Memory, threads: nat, events: seq<Event>, u: Tid, more: seq<Event>)
    requires threads <= U32_MAX && SoleReceiver(events, u) && SoleReceiver(more, u) && Unprompted(more, u)
    requires var s := After(mem, threads, events);
             u < |s.pcs| && s.pcs[u].RAsleep? && Unread(s.ring) != [] && !SomePublishPending(s.pcs)
    ensures var s, s' := After(mem, threads, events), After(mem, threads, events + more);
            && u < |s'.pcs| && s'.pcs[u].RAsleep? && RingFull(s'.ring)
            && s'.ring.sent == s.ring.sent && s'.ring.got == s.ring.got
  {
    hide Run, Init, Unread, RingFull;
    AlwaysSleeper(mem, threads, events, u);
    DeadForEver(mem, threads, events, u, more);
  }

  /** A pending wake can reach the sleeper at once. */
  lemma WakesAtOnce(mem: Memory, threads: nat, events: seq<Event>, u: Tid, t: Tid) returns (more: seq<Event>)
    requires threads <= U32_MAX
    requires var s := After(mem, threads, events);
             u < |s.pcs| && s.pcs[u].RAsleep? && t < |s.pcs| && PublishPending(s.pcs[t])
    ensures SoleReceiver(more, u) && Unprompted(more, u)
    ensures var s' := After(mem, threads, events + more); u < |s'.pcs| && s'.pcs[u] == RLeave
  {
    hide Run, Init, Step, Inv;
    var start, s := Init(mem, threads), After(mem, threads, events);
    AlwaysInv(mem, threads, events);
    var go, wake := Thread(t, Go), Thread(t, Wake(u));
    if s.pcs[t].SWake? {
      more := [wake];
      RunOneMore(start, events, wake);
      WakeStep(s, t, u);
    } else {
      more := [go, wake];
      NotifyStep(s, t, u);
      RunOneMore(start, events, go);
      RunOneMore(start, events + [go], wake);
      assert events + more == events + [go] + [wake];
      WakeStep(At(s, t, SWake), t, u);
    }
  }

  lemma NotifyStep(s: State, t: Tid, u: Tid)
    requires Inv(s) && t < |s.pcs| && s.pcs[t].SNotify? && u < |s.pcs| && s.pcs[u].RAsleep?
    ensures Step(s, Thread(t, Go)) == At(s, t, SWake)
  {
    SleeperCounted(s, u);
    hide Inv;
    assert Step(s, Thread(t, Go)) == SendStep(s, t, Go);
  }

  lemma WakeStep(s: State, t: Tid, u: Tid)
    requires t < |s.pcs| && s.pcs[t].SWake? && u < |s.pcs| && s.pcs[u].RAsleep?
    ensures u < |Step(s, Thread(t, Wake(u))).pcs| && Step(s, Thread(t, Wake(u))).pcs[u] == RLeave
  {
    assert Step(s, Thread(t, Wake(u))) == SendStep(s, t, Wake(u));
  }

  /** Some continuation in which the sleep does not end by itself, and nobody else starts to receive, wakes `u`. */
  ghost predicate CanWake(mem: Memory, threads: nat, events: seq<Event>, u: Tid) {
    exists more: seq<Event> ::
      && SoleReceiver(more, u) && Unprompted(more, u)
      && u < |After(mem, threads, events + more).pcs| && !After(mem, threads, events + more).pcs[u].RAsleep?
  }

  /** The exact condition, at any moment of any run, under which the sleep of a sole receiver on messages can end:
      a sender is between commit and wake.  Otherwise it is for ever. */
  lemma WakeExactly(mem: Memory, threads: nat, events: seq<Event>, u: Tid)
    requires threads <= U32_MAX && SoleReceiver(events, u)
    requires var s := After(mem, threads, events); u < |s.pcs| && s.pcs[u].RAsleep? && Unread(s.ring) != []
    ensures CanWake(mem, threads, events, u) <==> SomePublishPending(After(mem, threads, events).pcs)
  {
    hide Run, Init, Unread, SoleReceiver, Unprompted;
    var s := After(mem, threads, events);
    if SomePublishPending(s.pcs) {
      var t :| 0 <= t < |s.pcs| && PublishPending(s.pcs[t]);
      var more := WakesAtOnce(mem, threads, events, u, t);
      assert !After(mem, threads, events + more).pcs[u].RAsleep?;
    } else if CanWake(mem, threads, events, u) {
      var more: seq<Event> :|
        && SoleReceiver(more, u) && Unprompted(more, u)
        && u < |After(mem, threads, events + more).pcs| && !After(mem, threads, events + more).pcs[u].RAsleep?;
      SleepsForEver(mem, threads, events, u, more);
    }
  }
}
