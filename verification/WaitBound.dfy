/** How long a send can take: over a whole run, each of its waits is paid for by a message that was unread
    when it started. */
module WaitBound {
  import opened Bytes
  import opened Framing
  import opened RingMemory
  import opened WritePlan
  import opened Protocol
  import opened RingInvariant
  import opened SystemInvariant
  import opened Theorems

  /** A send with its lock taken and its message not yet published. */
  predicate Building(pc: Pc) {
    HoldsRight(pc) && !pc.SNotify? && !pc.SWake? && !pc.SUnlock?
  }

  /** Thread `t` stays in the send it is in. */
  ghost predicate Stays(s: State, events: seq<Event>, t: Tid)
    decreases |events|
  {
    && t < |Run(s, events).pcs| && Building(Run(s, events).pcs[t])
    && (events == [] || Stays(s, events[..|events| - 1], t))
  }

  /** The left offset, as a stream position, that keeps thread `t` from going on: from the load that shows that
      there is no room to the end of the wait. */
  function Blocker(r: Ring, pc: Pc): set<nat> {
    match pc
    case WSyncStore(w, buf, left) =>
      if PlanWrite(|r.mem|, Position(w), |buf|, left).Wait? then {left + r.lapR} else {}
    case WSpin(_, _, e) => {e + r.lapR}
    case WCompare(_, _, e) => {e + r.lapR}
    case WAsleep(_, _, e) => {e + r.lapR}
    case _ => {}
  }

  /** In the wait branch of `write`, up to the end of the sleep. */
  predicate InWait(pc: Pc) { pc.WSpin? || pc.WCompare? || pc.WAsleep? }

  /** All the left offsets that thread `t` had to wait for. */
  ghost function Blockers(s: State, events: seq<Event>, t: Tid): set<nat>
    requires Stays(s, events, t)
    decreases |events|
  {
    (if events == [] then {} else Blockers(s, events[..|events| - 1], t))
    + Blocker(Run(s, events).ring, Run(s, events).pcs[t])
  }

  /** The messages unread now and the offsets that blocked the send and are gone add up to `n` at most;
      and while the present offset blocks it there is a message. */
  ghost predicate Paid(r: Ring, blockers: set<nat>, n: nat) {
    && (forall x | x in blockers :: x <= r.consumed)
    && (r.consumed in blockers ==> Unread(r) != [])
    && |blockers - {r.consumed}| + |Unread(r)| <= n
  }

  /** What an event does while `t` builds its message: a message may leave, none arrives, and nothing new blocks the
      send but the present left offset of a queue that is not empty. */
  ghost predicate BuildMove(r: Ring, pc: Pc, r': Ring, pc': Pc) {
    || (r'.consumed > r.consumed && |Unread(r')| + 1 == |Unread(r)| && Blocker(r', pc') <= Blocker(r, pc))
    || (r'.consumed == r.consumed && |Unread(r')| == |Unread(r)|
        && (Blocker(r', pc') <= Blocker(r, pc) || (Blocker(r', pc') == {r.consumed} && Unread(r) != [])))
  }

  lemma OneLess(b: set<nat>, x: nat)
    ensures |b| == |b - {x}| + if x in b then 1 else 0
  {
    if x in b {
      assert b == b - {x} + {x};
    } else {
      assert b == b - {x};
    }
  }

  lemma PaidKept(r: Ring, pc: Pc, r': Ring, pc': Pc, blockers: set<nat>, n: nat)
    requires Paid(r, blockers, n) && Blocker(r, pc) <= blockers && BuildMove(r, pc, r', pc')
    ensures Paid(r', blockers + Blocker(r', pc'), n)
  {
    if r'.consumed > r.consumed {
      MessageLeaves(r, r', blockers, Blocker(r', pc'), n);
    } else {
      OffsetBlocks(r, r', blockers, Blocker(r', pc'), n);
    }
  }

  lemma MessageLeaves(r: Ring, r': Ring, blockers: set<nat>, more: set<nat>, n: nat)
    requires Paid(r, blockers, n) && more <= blockers
    requires r'.consumed > r.consumed && |Unread(r')| + 1 == |Unread(r)|
    ensures Paid(r', blockers + more, n)
  {
    hide Unread;
    assert blockers + more == blockers;
    OneLess(blockers, r.consumed);
    OneLess(blockers, r'.consumed);
  }

  lemma OffsetBlocks(r: Ring, r': Ring, blockers: set<nat>, more: set<nat>, n: nat)
    requires Paid(r, blockers, n) && (more <= blockers || (more == {r.consumed} && Unread(r) != []))
    requires r'.consumed == r.consumed && |Unread(r')| == |Unread(r)|
    ensures Paid(r', blockers + more, n)
  {
    hide Unread;
    assert (blockers + more) - {r.consumed} == blockers - {r.consumed};
  }

  // ---- Somebody else's step ----

  lemma HistoryLengths(r: Ring, pc: Pc, r': Ring)
    requires RingInv(r) && RingInv(r') && HistoryMove(r, pc, r') && r'.sent == r.sent
    ensures (r'.consumed == r.consumed && |Unread(r')| == |Unread(r)|)
            || (pc.RCommit? && r'.consumed > r.consumed && |Unread(r')| + 1 == |Unread(r)|)
  {
    hide Holds, EncodeAll;
    if r'.got != r.got { SizeAppend(r.got, pc.bytes); }
  }

  lemma BlockerSame(r: Ring, pc: Pc, r': Ring, pc': Pc)
    requires |r'.mem| == |r.mem| && r'.lapR == r.lapR && (pc' == pc || Woken(pc, pc'))
    ensures Blocker(r', pc') <= Blocker(r, pc)
  {
    hide PlanWrite, Position;
  }

  lemma OthersMove(s: State, u: Tid, s': State, t: Tid)
    requires Moves(s, u, s') && OffsetMove(s, u, s') && RingInv(s.ring) && RingInv(s'.ring)
    requires LockInv(s.pcs, s.rightLock, HoldsRight) && LockInv(s'.pcs, s'.rightLock, HoldsRight)
    requires t < |s.pcs| && u != t && HoldsRight(s.pcs[t]) && HoldsRight(s'.pcs[t])
    ensures BuildMove(s.ring, s.pcs[t], s'.ring, s'.pcs[t])
  {
    hide RingInv, Blocker, Unread, LockMove, CountMove, LockInv;
    AloneRight(s, t);
    AloneRight(s', t);
    HistoryLengths(s.ring, s.pcs[u], s'.ring);
    BlockerSame(s.ring, s.pcs[t], s'.ring, s'.pcs[t]);
  }

  // ---- The sender's own step ----

  /** A load that shows no room shows the left offset of a queue that is not empty. */
  lemma LoadBlocks(s: State, t: Tid, c: Choice)
    requires t < |s.pcs| && s.pcs[t].WSync? && RingInv(s.ring) && PcInv(s.ring, s.pcs[t])
    ensures var s' := WriteStep(s, t, c);
            || Blocker(s'.ring, s'.pcs[t]) == {}
            || (Blocker(s'.ring, s'.pcs[t]) == {s.ring.consumed} && Unread(s.ring) != [])
  {
    hide Holds, EncodeAll, PlanWrite;
    var w, buf := s.pcs[t].w, s.pcs[t].buf;
    PositionExact(s.ring, w);
    PlanMeaning(|s.ring.mem|, Position(w), |buf|, s.ring.left);
    if PlanWrite(|s.ring.mem|, Position(w), |buf|, s.ring.left).Wait? { FullHasMessage(s.ring, w, buf); }
  }

  /** A cached offset never blocks, and a loaded one goes on blocking. */
  lemma PlanBlocks(s: State, t: Tid, c: Choice)
    requires t < |s.pcs| && Plans(s.pcs[t]) && RingInv(s.ring) && PcInv(s.ring, s.pcs[t]) && Surroundings(s, s.pcs[t])
    ensures Blocker(WriteStep(s, t, c).ring, WriteStep(s, t, c).pcs[t]) <= Blocker(s.ring, s.pcs[t])
  {
    hide Holds, EncodeAll, PlanWrite;
    var w, buf, size := s.pcs[t].w, s.pcs[t].buf, |s.ring.mem|;
    PositionExact(s.ring, w);
    if s.pcs[t].WCache? && CacheServes(s.rightCached, size, Position(w), |buf|) {
      CachedPlanIsFresh(size, Position(w), |buf|, s.rightCached, s.ring.left);
    }
  }

  lemma WaitBlocks(s: State, t: Tid, c: Choice)
    requires t < |s.pcs| && RegionOf(s.pcs[t]) == Writing && !s.pcs[t].WSync? && !Plans(s.pcs[t])
    ensures Blocker(WriteStep(s, t, c).ring, WriteStep(s, t, c).pcs[t]) <= Blocker(s.ring, s.pcs[t])
  {
    hide StoreBytes, Position, PlanWrite;
  }

  lemma SendBlocks(s: State, t: Tid, c: Choice)
    requires t < |s.pcs| && RegionOf(s.pcs[t]) == Sending && !s.pcs[t].SWake?
    ensures Blocker(SendStep(s, t, c).ring, SendStep(s, t, c).pcs[t]) == {}
  {
    hide StoreBytes, Publish, TooMuch, Zeros, LittleEndian;
  }

  lemma FixBlocks(s: State, t: Tid)
    requires t < |s.pcs| && RegionOf(s.pcs[t]) == Rebasing
    ensures Blocker(FixStep(s, t).ring, FixStep(s, t).pcs[t]) == {}
  {
    hide FixLeft, FixRight, Position, Sub32;
  }

  lemma OwnBlocks(s: State, t: Tid, c: Choice)
    requires t < |s.pcs| && RingInv(s.ring) && PcInv(s.ring, s.pcs[t]) && Surroundings(s, s.pcs[t])
    requires Building(s.pcs[t])
    ensures var s' := Step(s, Thread(t, c));
            && |s'.pcs| == |s.pcs|
            && (Blocker(s'.ring, s'.pcs[t]) <= Blocker(s.ring, s.pcs[t])
                || (Blocker(s'.ring, s'.pcs[t]) == {s.ring.consumed} && Unread(s.ring) != []))
  {
    StepMoves(s, t, c);
    hide RingInv, PcInv, Surroundings, Moves, Blocker, Unread, SendStep, WriteStep, FixStep;
    match RegionOf(s.pcs[t])
    case Sending => SendBlocks(s, t, c);
    case Writing =>
      if Plans(s.pcs[t]) { PlanBlocks(s, t, c); }
      else if s.pcs[t].WSync? { LoadBlocks(s, t, c); }
      else { WaitBlocks(s, t, c); }
    case Rebasing => FixBlocks(s, t);
  }

  /** The commit ends the building. */
  lemma CommitEnds(s: State, t: Tid, c: Choice)
    requires t < |s.pcs| && s.pcs[t].SCommit?
    ensures !Building(Step(s, Thread(t, c)).pcs[t])
  {
  }

  lemma OwnMove(s: State, t: Tid, c: Choice)
    requires Inv(s) && Inv(Step(s, Thread(t, c))) && t < |s.pcs| == |Step(s, Thread(t, c)).pcs|
    requires Building(s.pcs[t]) && Building(Step(s, Thread(t, c)).pcs[t])
    ensures BuildMove(s.ring, s.pcs[t], Step(s, Thread(t, c)).ring, Step(s, Thread(t, c)).pcs[t])
  {
    assert !s.pcs[t].RCommit?;
    hide RingInv, PcInv, AllPcs, Blocker, Unread, LockInv, CachesInv, WaitersInv, Settled, Step, Surroundings, Building;
    AllPcsAt(s, t);
    SurroundingsHold(s, t);
    OwnBlocks(s, t, c);
    StepCaches(s, t, c);
    if s.pcs[t].SCommit? { CommitEnds(s, t, c); }
    if Step(s, Thread(t, c)) != s { HistoryLengths(s.ring, s.pcs[t], Step(s, Thread(t, c)).ring); }
  }

  // ---- Every event, every run ----

  lemma EventMove(s: State, e: Event, t: Tid)
    requires Inv(s) && t < |s.pcs| == |Step(s, e).pcs| && Building(s.pcs[t]) && Building(Step(s, e).pcs[t])
    ensures BuildMove(s.ring, s.pcs[t], Step(s, e).ring, Step(s, e).pcs[t])
  {
    StepKeepsInv(s, e);
    if e.Thread? && e.t < |s.pcs| && Step(s, e) != s {
      hide RingInv, PcInv, AllPcs, CachesInv, WaitersInv, Settled, Step, BuildMove, OffsetMove, Moves;
      if e.t == t {
        OwnMove(s, t, e.c);
      } else {
        AllPcsAt(s, e.t);
        StepMoves(s, e.t, e.c);
        StepCaches(s, e.t, e.c);
        OthersMove(s, e.t, Step(s, e), t);
      }
    }
  }

  lemma {:induction false} AlwaysPaid(s: State, events: seq<Event>, t: Tid)
    requires Inv(s) && Stays(s, events, t) && Stays(s, [], t) && Blocker(s.ring, s.pcs[t]) == {}
    ensures Inv(Run(s, events)) && Paid(Run(s, events).ring, Blockers(s, events, t), |Unread(s.ring)|)
    decreases |events|
  {
    hide Inv, Blocker, Unread, Step, Building;
    if events != [] {
      var before, e := events[..|events| - 1], events[|events| - 1];
      var m := Run(s, before);
      AlwaysPaid(s, before, t);
      StepKeepsInv(m, e);
      assert |Run(s, events).pcs| == |m.pcs| by { EventLength(m, e); }
      EventMove(m, e, t);
      PaidKept(m.ring, m.pcs[t], Run(s, events).ring, Run(s, events).pcs[t], Blockers(s, before, t), |Unread(s.ring)|);
    }
  }

  lemma EventLength(s: State, e: Event)
    ensures |Step(s, e).pcs| == |s.pcs|
  {
    if e.Thread? && e.t < |s.pcs| { StepMoves(s, e.t, e.c); }
  }

  /** The number of left offsets that a send has to wait for, from its start to any moment before its commit, is at
      most the number of messages that were unread at its start.  So a send that starts on an empty queue
      never waits. */
  lemma SendWaits(mem: Memory, threads: nat, before: seq<Event>, t: Tid, events: seq<Event>)
    requires threads <= U32_MAX
    requires var s := After(mem, threads, before); t < |s.pcs| && s.pcs[t].SLoad? && Stays(s, events, t)
    ensures var s := After(mem, threads, before); |Blockers(s, events, t)| <= |Unread(s.ring)|
    ensures var s := After(mem, threads, before);
            Unread(s.ring) == [] ==> !InWait(Run(s, events).pcs[t])
  {
    hide Inv, Unread;
    var s := After(mem, threads, before);
    AlwaysInv(mem, threads, before);
    AlwaysPaid(s, events, t);
    PaidBound(Run(s, events).ring, Blockers(s, events, t), |Unread(s.ring)|);
  }

  lemma PaidBound(r: Ring, blockers: set<nat>, n: nat)
    requires Paid(r, blockers, n)
    ensures |blockers| <= n
  {
    OneLess(blockers, r.consumed);
  }
}
