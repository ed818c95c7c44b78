/** Sleeping and waking: who may be asleep, who looks after the sleepers, and why nobody is left behind -
    unless a receiver sleeps through a whole lap. */
module Wakeups {
  import opened Bytes
  import opened Framing
  import opened RingMemory
  import opened WritePlan
  import opened Protocol
  import opened RingInvariant
  import opened SystemInvariant

  // ---- Senders ----

  /** A receiver between releasing a message and having woken the sender. */
  predicate ReleasePending(pc: Pc) { pc.RUnlock? || pc.RNotify? || pc.RWake? }

  ghost predicate SomeReleasePending(pcs: seq<Pc>) {
    exists u | 0 <= u < |pcs| :: ReleasePending(pcs[u])
  }

  /** A sender sleeps only while the left offset is the one it has seen, or a wake is on its way. */
  ghost predicate SendersInv(s: State) {
    forall t | 0 <= t < |s.pcs| && s.pcs[t].WAsleep? :: s.ring.left == s.pcs[t].e || SomeReleasePending(s.pcs)
  }

  // ---- Receivers ----

  predicate IsRAsleep(pc: Pc) { pc.RAsleep? }

  /** A sender between publishing a message and having woken a receiver. */
  predicate PublishPending(pc: Pc) { pc.SNotify? || pc.SWake? }

  /** A receiver that is awake and will take a message, or find that there is none, before it returns or sleeps. */
  predicate Seeking(pc: Pc) {
    InRecv(pc) && !pc.RAsleep? && !ReleasePending(pc)
  }

  /** The event puts a receiver to sleep although a lap or more was committed since it found the queue empty. */
  predicate SleepsThroughLap(s: State, e: Event) {
    && e.Thread? && e.t < |s.pcs| && s.pcs[e.t].RCompare?
    && s.ring.right == s.pcs[e.t].e && s.ring.committed >= s.pcs[e.t].at + |s.ring.mem|
  }

  /** A receiver sleeps while there are messages. */
  predicate SleepsOnMessages(s: State) {
    Unread(s.ring) != [] && Count(s.pcs, IsRAsleep) > 0
  }

  /** A receiver has slept through a lap, and ever since there have been messages and a sleeping receiver. */
  predicate Fooled(s: State, events: seq<Event>)
    decreases |events|
  {
    events != [] && SleepsOnMessages(Run(s, events)) &&
    var before := events[..|events| - 1];
    Fooled(s, before) || SleepsThroughLap(Run(s, before), events[|events| - 1])
  }

  /** As long as a receiver sleeps, every unread message has a receiver on its way to it, or a wake. */
  ghost predicate ReceiversInv(s: State, fooled: bool) {
    !fooled && Count(s.pcs, IsRAsleep) > 0 ==>
      |Unread(s.ring)| <= Count(s.pcs, Seeking) + Count(s.pcs, PublishPending)
  }

  ghost predicate WakeInv(s: State, fooled: bool) {
    SendersInv(s) && ReceiversInv(s, fooled)
  }

  // ---- The futex compare of a receiver ----

  lemma {:induction false} LapsGrow(k: nat, n: nat, size: nat)
    requires k < n
    ensures Laps(n, size) >= Laps(k, size) + size
    decreases n
  {
    if k < n - 1 { LapsGrow(k, n - 1, size); }
  }

  /** The compare succeeds exactly when the bytes committed since the look are as many laps as there were rebases. */
  lemma CompareExact(r: Ring, e: nat, at: nat, laps: nat)
    requires RingInv(r) && SawEmpty(r, e, at, laps)
    ensures r.right == e <==> r.committed - at == Laps(r.rebases, |r.mem|) - Laps(laps, |r.mem|)
  {
  }

  /** So a receiver that falls asleep has seen nothing committed since its look, or at least a whole lap;
      in the first case the queue is empty. */
  lemma CompareEmptyOrLap(r: Ring, e: nat, at: nat, laps: nat)
    requires RingInv(r) && SawEmpty(r, e, at, laps) && r.right == e
    ensures r.committed == at || r.committed >= at + |r.mem|
    ensures r.committed == at ==> Unread(r) == []
  {
    hide Holds, EncodeAll;
    CompareExact(r, e, at, laps);
    if laps < r.rebases { LapsGrow(laps, r.rebases, |r.mem|); }
    SizeZero(Unread(r));
  }

  // ---- Keeping the senders' half ----

  lemma AsleepCounted(pcs: seq<Pc>, t: Tid, p: Pc -> bool)
    requires t < |pcs| && p(pcs[t])
    ensures Count(pcs, p) >= 1
  {
    CountBound(pcs, p);
  }

  /** The step keeps a wake pending, finds no waiter, or wakes the sleeper if there is one. */
  ghost predicate WakesSender(s: State, t: Tid, s': State)
    requires t < |s.pcs| == |s'.pcs|
  {
    || ReleasePending(s'.pcs[t])
    || (s.pcs[t].RNotify? && s.leftWaiters == 0)
    || (exists u | 0 <= u < |s.pcs| :: s.pcs[u].WAsleep? && s'.pcs[u].WLeave?)
    || (forall u | 0 <= u < |s.pcs| :: !s.pcs[u].WAsleep?)
  }

  /** A receiver forgets about its pending wake only after having looked for a sleeper. */
  lemma ReleaseEnds(s: State, t: Tid, c: Choice)
    requires t < |s.pcs| && ReleasePending(s.pcs[t])
    requires |Step(s, Thread(t, c)).pcs| == |s.pcs|
    ensures WakesSender(s, t, Step(s, Thread(t, c)))
  {
    assert Step(s, Thread(t, c)) == DeliverStep(s, t, c);
    if s.pcs[t].RWake? && DeliverStep(s, t, c) != s && c.Wake? && c.who < |s.pcs| && s.pcs[c.who].WAsleep? {
      assert DeliverStep(s, t, c).pcs[c.who].WLeave?;
    }
  }

  lemma SleeperStays(s: State, t: Tid, s': State, a: Tid)
    requires Moves(s, t, s') && OffsetMove(s, t, s') && WaitersInv(s) && LockInv(s.pcs, s.rightLock, HoldsRight)
    requires ReleasePending(s.pcs[t]) ==> WakesSender(s, t, s')
    requires SendersInv(s) && a < |s.pcs| && a != t && s'.pcs[a].WAsleep?
    ensures s'.ring.left == s'.pcs[a].e || SomeReleasePending(s'.pcs)
  {
    assert s'.pcs[a] == s.pcs[a];
    AsleepCounted(s.pcs, a, WaitsLeft);
    AloneRight(s, a);
    if !ReleasePending(s'.pcs[t]) && s.ring.left != s.pcs[a].e {
      var u :| 0 <= u < |s.pcs| && ReleasePending(s.pcs[u]);
      assert u != t;
      assert s'.pcs[u] == s.pcs[u];
    }
  }

  lemma SendersKept(s: State, t: Tid, s': State)
    requires Moves(s, t, s') && OffsetMove(s, t, s') && WaitersInv(s) && LockInv(s.pcs, s.rightLock, HoldsRight)
    requires ReleasePending(s.pcs[t]) ==> WakesSender(s, t, s')
    requires SendersInv(s) && (s.pcs[t].WAsleep? ==> !s'.pcs[t].WAsleep?)
    ensures SendersInv(s')
  {
    hide WaitersInv, LockInv, WakesSender, LockMove, CountMove;
    forall a | 0 <= a < |s'.pcs| && s'.pcs[a].WAsleep?
      ensures s'.ring.left == s'.pcs[a].e || SomeReleasePending(s'.pcs)
    {
      if a != t { SleeperStays(s, t, s', a); }
    }
  }

  // ---- Keeping the receivers' half ----

  /** How the unread messages and the acting thread's part in the counts change together. */
  ghost predicate Balance(s: State, t: Tid, s': State)
    requires t < |s.pcs| == |s'.pcs|
  {
    var pc, pc' := s.pcs[t], s'.pcs[t];
    && (|Unread(s'.ring)| == |Unread(s.ring)|
        || (|Unread(s'.ring)| == |Unread(s.ring)| + 1 && pc.SCommit? && pc'.SNotify?)
        || (|Unread(s'.ring)| == |Unread(s.ring)| - 1 && pc.RCommit? && pc'.RUnlock?))
    && (pc.SCommit? ==> !pc'.RAsleep?)
    && (pc.RCommit? ==> |Unread(s'.ring)| == |Unread(s.ring)| - 1)
    && (Seeking(pc) && !pc.RCommit? ==> Seeking(pc') || pc'.RAsleep?)
    && (pc'.RAsleep? && !pc.RAsleep? ==> SleepsThroughLap(s, Thread(t, Go)) || Unread(s'.ring) == [])
    && (pc'.RAsleep? && pc.RAsleep? ==> s' == s)
    && (!pc.SWake? ==> forall u | 0 <= u < |s.pcs| && u != t && s.pcs[u].RAsleep? :: s'.pcs[u] == s.pcs[u])
  }

  lemma SendBalance(s: State, t: Tid, c: Choice)
    requires t < |s.pcs| && RegionOf(s.pcs[t]) == Sending && !s.pcs[t].SCommit?
    ensures Balance(s, t, SendStep(s, t, c))
  {
    hide Store, LittleEndian;
  }

  lemma PublishBalance(s: State, t: Tid, c: Choice)
    requires t < |s.pcs| && s.pcs[t].SCommit? && RingInv(s.ring) && PcInv(s.ring, s.pcs[t])
    ensures Balance(s, t, SendStep(s, t, c))
  {
    hide RingInv, Publish, Unread;
    PublishKeeps(s.ring, s.pcs[t].w);
  }

  lemma WriteBalance(s: State, t: Tid, c: Choice)
    requires t < |s.pcs| && RegionOf(s.pcs[t]) == Writing
    ensures Balance(s, t, WriteStep(s, t, c))
  {
    hide Store, Position, PlanWrite;
  }

  lemma FixBalance(s: State, t: Tid)
    requires t < |s.pcs| && RegionOf(s.pcs[t]) == Rebasing
    ensures Balance(s, t, FixStep(s, t))
  {
    hide Position, Sub32;
  }

  lemma RecvBalance(s: State, t: Tid)
    requires t < |s.pcs| && RegionOf(s.pcs[t]) == Receiving
    ensures Balance(s, t, RecvStep(s, t))
  {
    hide Unread;
  }

  lemma DeliverBalance(s: State, t: Tid, c: Choice)
    requires t < |s.pcs| && RegionOf(s.pcs[t]) == Delivering && |DeliverStep(s, t, c).pcs| == |s.pcs|
    requires RingInv(s.ring) && PcInv(s.ring, s.pcs[t])
    ensures Balance(s, t, DeliverStep(s, t, c))
  {
    hide RingInv, Release, Unread, ReadPrefix, Load;
    if s.pcs[t].RCommit? { ReleaseKeeps(s.ring, s.pcs[t].l, s.pcs[t].size, s.pcs[t].bytes); }
  }

  lemma WaitBalance(s: State, t: Tid, c: Choice)
    requires t < |s.pcs| && RegionOf(s.pcs[t]) == Waiting && RingInv(s.ring) && PcInv(s.ring, s.pcs[t])
    ensures Balance(s, t, WaitStep(s, t, c))
  {
    hide RingInv, Unread, Add32, Sub32;
    if s.pcs[t].RCompare? && s.ring.right == s.pcs[t].e {
      CompareEmptyOrLap(s.ring, s.pcs[t].e, s.pcs[t].at, s.pcs[t].laps);
    }
  }

  lemma StepBalance(s: State, t: Tid, c: Choice)
    requires t < |s.pcs| && RingInv(s.ring) && PcInv(s.ring, s.pcs[t])
    requires |Step(s, Thread(t, c)).pcs| == |s.pcs|
    ensures Balance(s, t, Step(s, Thread(t, c)))
  {
    match RegionOf(s.pcs[t])
    case Outside =>
    case Sending =>
      hide RingInv, PcInv, Balance;
      if s.pcs[t].SCommit? { PublishBalance(s, t, c); } else { SendBalance(s, t, c); }
    case Writing => hide RingInv, PcInv, Balance; WriteBalance(s, t, c);
    case Rebasing => hide RingInv, PcInv, Balance; FixBalance(s, t);
    case Receiving => hide RingInv, PcInv, Balance; RecvBalance(s, t);
    case Delivering => hide RingInv, PcInv, Balance; DeliverBalance(s, t, c);
    case Waiting => hide RingInv, PcInv, Balance; WaitBalance(s, t, c);
  }

  /** The step keeps a wake pending, finds no waiter, or wakes one sleeper if there is one. */
  ghost predicate WakesReceiver(s: State, t: Tid, s': State)
    requires t < |s.pcs| == |s'.pcs|
  {
    || PublishPending(s'.pcs[t])
    || (s.pcs[t].SNotify? && s.rightWaiters == 0)
    || (forall u | 0 <= u < |s.pcs| :: !s.pcs[u].RAsleep?)
    || (exists u | 0 <= u < |s.pcs| :: u != t && s.pcs[u].RAsleep? && s'.pcs == s.pcs[u := RLeave][t := SUnlock]
                                       && Unread(s'.ring) == Unread(s.ring))
  }

  lemma PublishEnds(s: State, t: Tid, c: Choice)
    requires t < |s.pcs| && PublishPending(s.pcs[t])
    requires |Step(s, Thread(t, c)).pcs| == |s.pcs|
    ensures WakesReceiver(s, t, Step(s, Thread(t, c)))
  {
    assert Step(s, Thread(t, c)) == SendStep(s, t, c);
    if s.pcs[t].SWake? && c.Wake? && c.who < |s.pcs| && s.pcs[c.who].RAsleep? {
      assert SendStep(s, t, c).pcs == s.pcs[c.who := RLeave][t := SUnlock];
    }
  }

  lemma {:induction false} CountPositive(pcs: seq<Pc>, p: Pc -> bool) returns (t: Tid)
    requires Count(pcs, p) > 0
    ensures t < |pcs| && p(pcs[t])
  {
    if p(pcs[0]) { t := 0; } else { var u := CountPositive(pcs[1..], p); t := u + 1; }
  }

  lemma NoneAsleep(s: State)
    requires WaitersInv(s) && (s.rightWaiters == 0 || forall u | 0 <= u < |s.pcs| :: !s.pcs[u].RAsleep?)
    ensures Count(s.pcs, IsRAsleep) == 0
  {
    if Count(s.pcs, IsRAsleep) > 0 {
      var t := CountPositive(s.pcs, IsRAsleep);
      AsleepCounted(s.pcs, t, WaitsRight);
    }
  }

  /** One sleeper becomes a seeker while the pending wake is used up. */
  lemma WakeBalances(s: State, t: Tid, u: Tid, s': State)
    requires t < |s.pcs| && u < |s.pcs| && u != t && s.pcs[t].SWake? && s.pcs[u].RAsleep?
    requires s'.pcs == s.pcs[u := RLeave][t := SUnlock]
    ensures Count(s'.pcs, Seeking) + Count(s'.pcs, PublishPending)
            == Count(s.pcs, Seeking) + Count(s.pcs, PublishPending)
  {
    CountOne(s.pcs, u, RLeave, Seeking);
    CountOne(s.pcs, u, RLeave, PublishPending);
    CountOne(s.pcs[u := RLeave], t, SUnlock, Seeking);
    CountOne(s.pcs[u := RLeave], t, SUnlock, PublishPending);
  }

  /** While nobody is woken, only the acting thread's part in the counts changes. */
  lemma CountsMoved(s: State, t: Tid, s': State)
    requires Moves(s, t, s') && Balance(s, t, s') && !s.pcs[t].SWake?
    ensures Count(s'.pcs, Seeking) + (if Seeking(s.pcs[t]) then 1 else 0)
            == Count(s.pcs, Seeking) + (if Seeking(s'.pcs[t]) then 1 else 0)
    ensures Count(s'.pcs, PublishPending) + (if PublishPending(s.pcs[t]) then 1 else 0)
            == Count(s.pcs, PublishPending) + (if PublishPending(s'.pcs[t]) then 1 else 0)
    ensures Count(s'.pcs, IsRAsleep) + (if IsRAsleep(s.pcs[t]) then 1 else 0)
            == Count(s.pcs, IsRAsleep) + (if IsRAsleep(s'.pcs[t]) then 1 else 0)
  {
    forall u | 0 <= u < |s.pcs| && u != t
      ensures Seeking(s'.pcs[u]) == Seeking(s.pcs[u]) && IsRAsleep(s'.pcs[u]) == IsRAsleep(s.pcs[u])
      ensures PublishPending(s'.pcs[u]) == PublishPending(s.pcs[u])
    {
      assert s'.pcs[u] == s.pcs[u] || Woken(s.pcs[u], s'.pcs[u]);
    }
    CountMoved(s.pcs, t, s'.pcs, Seeking);
    CountMoved(s.pcs, t, s'.pcs, PublishPending);
    CountMoved(s.pcs, t, s'.pcs, IsRAsleep);
  }

  lemma ReceiversKept(s: State, t: Tid, s': State)
    requires Moves(s, t, s') && Balance(s, t, s') && WaitersInv(s) && ReceiversInv(s, false)
    requires !SleepsThroughLap(s, Thread(t, Go))
    requires PublishPending(s.pcs[t]) ==> WakesReceiver(s, t, s')
    requires s.pcs[t].SWake? ==> s' == s || s'.pcs[t].SUnlock?
    ensures ReceiversInv(s', false)
  {
    var pc, pc' := s.pcs[t], s'.pcs[t];
    if s' == s || Count(s'.pcs, IsRAsleep) == 0 {
    } else if pc.SWake? {
      if u :| 0 <= u < |s.pcs| && u != t && s.pcs[u].RAsleep?
              && s'.pcs == s.pcs[u := RLeave][t := SUnlock] && Unread(s'.ring) == Unread(s.ring) {
        WakeBalances(s, t, u, s');
        AsleepCounted(s.pcs, u, IsRAsleep);
      } else {
        var _ := CountPositive(s'.pcs, IsRAsleep);
      }
    } else {
      CountsMoved(s, t, s');
      if pc'.RAsleep? && !pc.RAsleep? {
      } else if PublishPending(pc) && !PublishPending(pc') {
        NoneAsleep(s);
      }
    }
  }

  // ---- Every event, every run ----

  lemma SleepOrWakeEnds(s: State, t: Tid, c: Choice)
    requires t < |s.pcs| && Step(s, Thread(t, c)) != s && |Step(s, Thread(t, c)).pcs| == |s.pcs|
    ensures s.pcs[t].WAsleep? ==> !Step(s, Thread(t, c)).pcs[t].WAsleep?
    ensures s.pcs[t].SWake? ==> Step(s, Thread(t, c)).pcs[t].SUnlock?
  {
    if s.pcs[t].WAsleep? {
      assert Step(s, Thread(t, c)) == WriteStep(s, t, c);
    } else if s.pcs[t].SWake? {
      assert Step(s, Thread(t, c)) == SendStep(s, t, c);
    }
  }

  lemma ThreadKeepsWakes(s: State, t: Tid, c: Choice, fooled: bool)
    requires t < |s.pcs| && Inv(s) && WakeInv(s, fooled) && Step(s, Thread(t, c)) != s
    ensures SendersInv(Step(s, Thread(t, c)))
    ensures !fooled && !SleepsThroughLap(s, Thread(t, c)) ==> ReceiversInv(Step(s, Thread(t, c)), false)
  {
    hide Step, RingInv, PcInv, AllPcs, LockMove, CountMove, OffsetMove, Balance, WakesSender, WakesReceiver,
      SendersInv, ReceiversInv, WaitersInv, LockInv;
    var s' := Step(s, Thread(t, c));
    StepMoves(s, t, c);
    AllPcsAt(s, t);
    StepCaches(s, t, c);
    StepBalance(s, t, c);
    SleepOrWakeEnds(s, t, c);
    if ReleasePending(s.pcs[t]) { ReleaseEnds(s, t, c); }
    if PublishPending(s.pcs[t]) { PublishEnds(s, t, c); }
    SendersKept(s, t, s');
    if !fooled && !SleepsThroughLap(s, Thread(t, Go)) { ReceiversKept(s, t, s'); }
  }

  /** A receiver is fooled no longer when there are no messages, or nobody sleeps. */
  lemma StepKeepsWakes(s: State, e: Event, fooled: bool, fooled': bool)
    requires Inv(s) && WakeInv(s, fooled)
    requires fooled' <==> SleepsOnMessages(Step(s, e)) && (fooled || SleepsThroughLap(s, e))
    ensures WakeInv(Step(s, e), fooled')
  {
    if e.Thread? && e.t < |s.pcs| && Step(s, e) != s {
      hide Inv, SendersInv, Step, SleepsThroughLap;
      ThreadKeepsWakes(s, e.t, e.c, fooled);
    } else {
      assert Unread(Step(s, e).ring) == Unread(s.ring) && Step(s, e).pcs == s.pcs;
    }
  }

  /** At every moment of every run: no sleeping sender is forgotten, and no sleeping receiver is missed unless one
      has slept through a lap and there have been messages and a sleeping receiver ever since. */
  lemma {:induction false} AlwaysWakeInv(mem: Memory, threads: nat, events: seq<Event>)
    requires threads <= U32_MAX
    ensures WakeInv(Run(Init(mem, threads), events), Fooled(Init(mem, threads), events))
    decreases |events|
  {
    if events == [] {
      CountNone(Init(mem, threads).pcs, IsRAsleep);
    } else {
      var before := events[..|events| - 1];
      AlwaysInv(mem, threads, before);
      AlwaysWakeInv(mem, threads, before);
      hide Inv, WakeInv, Step, SleepsOnMessages, SleepsThroughLap;
      var start := Init(mem, threads);
      StepKeepsWakes(Run(start, before), events[|events| - 1], Fooled(start, before), Fooled(start, events));
    }
  }
}
