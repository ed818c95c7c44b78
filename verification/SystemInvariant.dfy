/** The invariant of the whole system and the proof that every event keeps it. */
module SystemInvariant {
  import opened Bytes
  import opened Framing
  import opened RingMemory
  import opened WritePlan
  import opened Protocol
  import opened RingInvariant

  // ---- The invariant ----

  ghost predicate AllPcs(s: State) {
    forall t | 0 <= t < |s.pcs| :: PcInv(s.ring, s.pcs[t])
  }

  /** Outside the middle of a rebase both offsets have been moved back equally often. */
  ghost predicate Settled(s: State) {
    (forall t | 0 <= t < |s.pcs| :: !s.pcs[t].WFix1?) ==> s.ring.lapL == s.ring.lapR
  }

  ghost predicate LockInv(pcs: seq<Pc>, lock: Lock, holds: Pc -> bool) {
    && (lock.Taken? ==> lock.owner < |pcs|)
    && forall t | 0 <= t < |pcs| :: lock == Taken(t) <==> holds(pcs[t])
  }

  predicate FixesLeftCache(pc: Pc) { pc.WFix2? }

  predicate FixesRightCache(pc: Pc) { pc.WFix1? || pc.WFix2? || pc.WFix3? }

  /** A cached offset is cleared or a lower bound of the offset it copies, unless a rebase is about to rewrite it. */
  ghost predicate CachesInv(s: State) {
    && ((forall t | 0 <= t < |s.pcs| :: !FixesLeftCache(s.pcs[t])) ==>
          s.leftCached == U32_MAX || s.leftCached <= s.ring.right)
    && ((forall t | 0 <= t < |s.pcs| :: !FixesRightCache(s.pcs[t])) ==>
          s.rightCached == U32_MAX || s.rightCached <= s.ring.left)
  }

  predicate WaitsLeft(pc: Pc) { pc.WCompare? || pc.WAsleep? || pc.WLeave? }

  predicate WaitsRight(pc: Pc) { pc.RCompare? || pc.RAsleep? || pc.RLeave? }

  /** Threads between the increment and the decrement of a waiter counter. */
  function Count(pcs: seq<Pc>, waits: Pc -> bool): nat {
    if pcs == [] then 0 else (if waits(pcs[0]) then 1 else 0) + Count(pcs[1..], waits)
  }

  ghost predicate WaitersInv(s: State) {
    && |s.pcs| <= U32_MAX
    && s.leftWaiters == Count(s.pcs, WaitsLeft)
    && s.rightWaiters == Count(s.pcs, WaitsRight)
  }

  ghost predicate Inv(s: State) {
    && RingInv(s.ring)
    && AllPcs(s)
    && Settled(s)
    && LockInv(s.pcs, s.leftLock, HoldsLeft)
    && LockInv(s.pcs, s.rightLock, HoldsRight)
    && CachesInv(s)
    && WaitersInv(s)
  }

  // ---- What one step does to locks, waiters and other threads ----

  /** Somebody else's step can only end a sleep. */
  predicate Woken(pc: Pc, pc': Pc) {
    || (pc.RAsleep? && pc' == RLeave)
    || (pc.WAsleep? && pc' == WLeave(pc.w, pc.buf))
  }

  predicate LockMove(lock: Lock, held: bool, t: Tid, lock': Lock, held': bool) {
    if held == held' then lock' == lock
    else if held' then lock == Free && lock' == Taken(t)
    else lock' == Free
  }

  predicate CountMove(n: nat, waits: bool, n': nat, waits': bool) {
    n' == if waits == waits' then n else if waits' then Add32(n, 1) else Sub32(n, 1)
  }

  ghost predicate Moves(s: State, t: Tid, s': State) {
    && t < |s.pcs| == |s'.pcs|
    && (forall u | 0 <= u < |s.pcs| && u != t :: s'.pcs[u] == s.pcs[u] || Woken(s.pcs[u], s'.pcs[u]))
    && LockMove(s.leftLock, HoldsLeft(s.pcs[t]), t, s'.leftLock, HoldsLeft(s'.pcs[t]))
    && LockMove(s.rightLock, HoldsRight(s.pcs[t]), t, s'.rightLock, HoldsRight(s'.pcs[t]))
    && CountMove(s.leftWaiters, WaitsLeft(s.pcs[t]), s'.leftWaiters, WaitsLeft(s'.pcs[t]))
    && CountMove(s.rightWaiters, WaitsRight(s.pcs[t]), s'.rightWaiters, WaitsRight(s'.pcs[t]))
  }

  lemma SendMoves(s: State, t: Tid, c: Choice)
    requires t < |s.pcs| && RegionOf(s.pcs[t]) == Sending
    requires !s.pcs[t].SLock? && !s.pcs[t].SUnlock? && !s.pcs[t].SWake? && !s.pcs[t].SCall?
    ensures Moves(s, t, SendStep(s, t, c))
  {
    hide StoreBytes, Publish, TooMuch, Zeros, LittleEndian, Woken;
  }

  lemma CallMoves(s: State, t: Tid, c: Choice)
    requires t < |s.pcs| && s.pcs[t].SCall?
    ensures Moves(s, t, SendStep(s, t, c))
  {
    hide StoreBytes, Publish, TooMuch, Zeros, LittleEndian, Woken;
  }

  lemma GuardMoves(s: State, t: Tid, c: Choice)
    requires t < |s.pcs| && (s.pcs[t].SLock? || s.pcs[t].SUnlock?)
    ensures Moves(s, t, SendStep(s, t, c))
  {
    hide StoreBytes, Publish, TooMuch, Zeros, LittleEndian, Woken;
  }

  lemma WakeMoves(s: State, t: Tid, c: Choice)
    requires t < |s.pcs| && s.pcs[t].SWake?
    ensures Moves(s, t, SendStep(s, t, c))
  {
  }

  /** The steps of the wait branch of `write`, where the waiter counter moves. */
  predicate BlocksLeft(pc: Pc) { pc.WSpin? || WaitsLeft(pc) }

  lemma BlockMoves(s: State, t: Tid, c: Choice)
    requires t < |s.pcs| && BlocksLeft(s.pcs[t])
    ensures Moves(s, t, WriteStep(s, t, c))
  {
    hide StoreBytes, Position, Branch, Woken;
  }

  lemma WriteMoves(s: State, t: Tid, c: Choice)
    requires t < |s.pcs| && RegionOf(s.pcs[t]) == Writing
    requires !Plans(s.pcs[t]) && !BlocksLeft(s.pcs[t])
    ensures Moves(s, t, WriteStep(s, t, c))
  {
    hide StoreBytes, Position, Branch, Woken;
  }

  /** Only these steps compute a plan from a left offset. */
  predicate Plans(pc: Pc) { pc.WCache? || pc.WSyncStore? }

  lemma PlanMoves(s: State, t: Tid, c: Choice)
    requires t < |s.pcs| && Plans(s.pcs[t])
    ensures Moves(s, t, WriteStep(s, t, c))
  {
    hide Woken;
  }

  lemma FixMoves(s: State, t: Tid)
    requires t < |s.pcs| && RegionOf(s.pcs[t]) == Rebasing
    ensures Moves(s, t, FixStep(s, t))
  {
    hide FixLeft, FixRight, Position, Sub32, Woken;
  }

  lemma RecvMoves(s: State, t: Tid)
    requires t < |s.pcs| && RegionOf(s.pcs[t]) == Receiving
    ensures Moves(s, t, RecvStep(s, t))
  {
    hide Woken;
  }

  predicate TouchesData(pc: Pc) { pc.RSize? || pc.RRead? || pc.RCommit? }

  lemma ReadMoves(s: State, t: Tid, c: Choice)
    requires t < |s.pcs| && TouchesData(s.pcs[t])
    ensures Moves(s, t, DeliverStep(s, t, c))
  {
    hide ReadPrefix, Load, Release, Woken;
  }

  lemma DeliverMoves(s: State, t: Tid, c: Choice)
    requires t < |s.pcs| && RegionOf(s.pcs[t]) == Delivering && !TouchesData(s.pcs[t])
    ensures Moves(s, t, DeliverStep(s, t, c))
  {
    hide Release, ReadPrefix;
  }

  lemma LookMoves(s: State, t: Tid, c: Choice)
    requires t < |s.pcs| && (s.pcs[t].RUnlockEmpty? || s.pcs[t].RSpin?)
    ensures Moves(s, t, WaitStep(s, t, c))
  {
    hide Add32, Sub32, Woken;
  }

  lemma WaitMoves(s: State, t: Tid, c: Choice)
    requires t < |s.pcs| && WaitsRight(s.pcs[t])
    ensures Moves(s, t, WaitStep(s, t, c))
  {
    hide Add32, Sub32, Woken;
  }

  lemma StepMoves(s: State, t: Tid, c: Choice)
    requires t < |s.pcs|
    ensures Moves(s, t, Step(s, Thread(t, c)))
  {
    match RegionOf(s.pcs[t])
    case Outside =>
    case Sending =>
      if s.pcs[t].SWake? { WakeMoves(s, t, c); }
      else if s.pcs[t].SCall? { CallMoves(s, t, c); }
      else if s.pcs[t].SLock? || s.pcs[t].SUnlock? { GuardMoves(s, t, c); }
      else { SendMoves(s, t, c); }
    case Writing =>
      if Plans(s.pcs[t]) { PlanMoves(s, t, c); }
      else if BlocksLeft(s.pcs[t]) { BlockMoves(s, t, c); }
      else { WriteMoves(s, t, c); }
    case Rebasing => FixMoves(s, t);
    case Receiving => RecvMoves(s, t);
    case Delivering =>
      if TouchesData(s.pcs[t]) { ReadMoves(s, t, c); } else { DeliverMoves(s, t, c); }
    case Waiting => if WaitsRight(s.pcs[t]) { WaitMoves(s, t, c); } else { LookMoves(s, t, c); }
  }

  // ---- Locks ----

  lemma LocksKept(s: State, t: Tid, s': State)
    requires Moves(s, t, s') && LockInv(s.pcs, s.leftLock, HoldsLeft) && LockInv(s.pcs, s.rightLock, HoldsRight)
    ensures LockInv(s'.pcs, s'.leftLock, HoldsLeft) && LockInv(s'.pcs, s'.rightLock, HoldsRight)
  {
    forall u | 0 <= u < |s.pcs| && u != t
      ensures HoldsLeft(s'.pcs[u]) == HoldsLeft(s.pcs[u]) && HoldsRight(s'.pcs[u]) == HoldsRight(s.pcs[u])
    {
    }
  }

  // ---- Waiter counters ----

  lemma {:induction false} CountBound(pcs: seq<Pc>, waits: Pc -> bool)
    ensures Count(pcs, waits) <= |pcs|
    ensures forall t | 0 <= t < |pcs| :: waits(pcs[t]) ==> Count(pcs, waits) >= 1
    ensures forall t | 0 <= t < |pcs| :: !waits(pcs[t]) ==> Count(pcs, waits) < |pcs|
  {
    if pcs != [] {
      CountBound(pcs[1..], waits);
      forall t | 0 <= t < |pcs|
        ensures waits(pcs[t]) ==> Count(pcs, waits) >= 1
        ensures !waits(pcs[t]) ==> Count(pcs, waits) < |pcs|
      {
        if t > 0 { assert pcs[t] == pcs[1..][t - 1]; }
      }
    }
  }

  lemma {:induction false} CountSame(pcs: seq<Pc>, pcs': seq<Pc>, waits: Pc -> bool)
    requires |pcs| == |pcs'| && forall u | 0 <= u < |pcs| :: waits(pcs'[u]) == waits(pcs[u])
    ensures Count(pcs', waits) == Count(pcs, waits)
  {
    if pcs != [] {
      forall u | 0 <= u < |pcs[1..]| ensures waits(pcs'[1..][u]) == waits(pcs[1..][u]) {
        assert waits(pcs'[u + 1]) == waits(pcs[u + 1]);
      }
      CountSame(pcs[1..], pcs'[1..], waits);
    }
  }

  lemma {:induction false} CountOne(pcs: seq<Pc>, t: Tid, pc: Pc, waits: Pc -> bool)
    requires t < |pcs|
    ensures Count(pcs[t := pc], waits) + (if waits(pcs[t]) then 1 else 0)
            == Count(pcs, waits) + (if waits(pc) then 1 else 0)
  {
    if t > 0 {
      assert pcs[t := pc][1..] == pcs[1..][t - 1 := pc];
      CountOne(pcs[1..], t - 1, pc, waits);
    } else {
      assert pcs[t := pc][1..] == pcs[1..];
    }
  }

  lemma CountMoved(pcs: seq<Pc>, t: Tid, pcs': seq<Pc>, waits: Pc -> bool)
    requires t < |pcs| == |pcs'|
    requires forall u | 0 <= u < |pcs| && u != t :: waits(pcs'[u]) == waits(pcs[u])
    ensures Count(pcs', waits) + (if waits(pcs[t]) then 1 else 0)
            == Count(pcs, waits) + (if waits(pcs'[t]) then 1 else 0)
  {
    CountOne(pcs, t, pcs'[t], waits);
    CountSame(pcs[t := pcs'[t]], pcs', waits);
  }

  lemma WaitersKept(s: State, t: Tid, s': State)
    requires Moves(s, t, s') && WaitersInv(s)
    ensures WaitersInv(s')
  {
    CountBound(s.pcs, WaitsLeft);
    CountBound(s.pcs, WaitsRight);
    CountMoved(s.pcs, t, s'.pcs, WaitsLeft);
    CountMoved(s.pcs, t, s'.pcs, WaitsRight);
  }

  // ---- The ring and the local variables ----

  /** The steps that leave the ring alone. */
  predicate Quiet(pc: Pc) {
    !pc.WCopy? && !pc.SPrefix? && !pc.SCommit? && !pc.RCommit? && !pc.WFix0? && !pc.WFix1?
  }

  /** What a step may use beside the acting thread's own invariant. */
  ghost predicate Surroundings(s: State, pc: Pc) {
    && (pc.SLock? && s.rightLock.Free? ==> s.ring.lapL == s.ring.lapR)
    && (pc.RLock? && s.leftLock.Free? ==> s.ring.lapL == s.ring.lapR)
    && (pc.WCache? ==> s.rightCached == U32_MAX || s.rightCached <= s.ring.left)
    && (pc.RCache? ==> s.leftCached == U32_MAX || s.leftCached <= s.ring.right)
  }

  lemma SurroundingsHold(s: State, t: Tid)
    requires t < |s.pcs| && Inv(s)
    ensures Surroundings(s, s.pcs[t])
  {
    hide RingInv, PcInv, AllPcs, WaitersInv;
    var pc := s.pcs[t];
    if pc.WCache? {
      assert s.rightLock == Taken(t);
      assert forall u | 0 <= u < |s.pcs| :: HoldsRight(s.pcs[u]) ==> u == t;
      assert forall u | 0 <= u < |s.pcs| :: !FixesRightCache(s.pcs[u]);
    } else if pc.RCache? {
      assert s.leftLock == Taken(t);
      assert forall u | 0 <= u < |s.pcs| :: HoldsLeft(s.pcs[u]) ==> u == t;
      assert forall u | 0 <= u < |s.pcs| :: !FixesLeftCache(s.pcs[u]);
    } else if pc.SLock? && s.rightLock.Free? {
      assert forall u | 0 <= u < |s.pcs| :: !HoldsRight(s.pcs[u]);
    } else if pc.RLock? && s.leftLock.Free? {
      assert forall u | 0 <= u < |s.pcs| :: !HoldsLeft(s.pcs[u]);
    }
  }

  lemma PositionExact(r: Ring, w: Writer)
    requires WriterOk(r, w)
    ensures Position(w) == w.right + |w.staged|
  {
  }

  /** Whatever left offset the writer has - cached and serving, or loaded - the branch it takes is sound. */
  lemma BranchSound(r: Ring, w: Writer, buf: seq<byte>, left: nat)
    requires RingInv(r) && WriterOk(r, w) && BufOk(r, w, buf)
    requires left <= r.left && w.right + |w.staged| <= left + |r.mem|
    ensures PcInv(r, Branch(|r.mem|, w, buf, left))
  {
    PositionExact(r, w);
    PlanMeaning(|r.mem|, Position(w), |buf|, left);
    if PlanWrite(|r.mem|, Position(w), |buf|, left).Copy? { CopyBegins(r, w, buf, left); }
  }

  lemma CopyBegins(r: Ring, w: Writer, buf: seq<byte>, left: nat)
    requires RingInv(r) && WriterOk(r, w) && BufOk(r, w, buf)
    requires left <= r.left && PlanWrite(|r.mem|, w.right + |w.staged|, |buf|, left).Copy?
    requires w.right + |w.staged| <= left + |r.mem|
    ensures Copying(r, w, buf, PlanWrite(|r.mem|, w.right + |w.staged|, |buf|, left).n, 0)
  {
    PlanMeaning(|r.mem|, w.right + |w.staged|, |buf|, left);
  }

  lemma SendQuiet(s: State, t: Tid, c: Choice)
    requires t < |s.pcs| && RegionOf(s.pcs[t]) == Sending && Quiet(s.pcs[t]) && !s.pcs[t].SCall? && !s.pcs[t].SLoad?
    requires Surroundings(s, s.pcs[t])
    ensures SendStep(s, t, c).ring == s.ring && PcInv(s.ring, SendStep(s, t, c).pcs[t])
  {
    hide WriterOk, BufOk, TooMuch, Zeros, LittleEndian, StoreBytes, Publish;
  }

  /** A writer starts with nothing staged. */
  lemma WriterBegins(r: Ring)
    requires RingInv(r) && r.lapL == r.lapR
    ensures WriterOk(r, Writer(r.right, [], 0))
  {
  }

  lemma OpenQuiet(s: State, t: Tid, c: Choice)
    requires t < |s.pcs| && s.pcs[t].SLoad?
    requires PcInv(s.ring, s.pcs[t]) && RingInv(s.ring)
    ensures SendStep(s, t, c).ring == s.ring && PcInv(s.ring, SendStep(s, t, c).pcs[t])
  {
    hide RingInv, WriterOk;
    WriterBegins(s.ring);
  }

  lemma CallQuiet(s: State, t: Tid, c: Choice)
    requires t < |s.pcs| && s.pcs[t].SCall?
    requires PcInv(s.ring, s.pcs[t])
    ensures SendStep(s, t, c).ring == s.ring && PcInv(s.ring, SendStep(s, t, c).pcs[t])
  {
  }

  lemma ServedBranchSound(r: Ring, w: Writer, buf: seq<byte>, cached: nat)
    requires RingInv(r) && WriterOk(r, w) && BufOk(r, w, buf)
    requires CacheServes(cached, |r.mem|, Position(w), |buf|) && (cached == U32_MAX || cached <= r.left)
    ensures PcInv(r, Branch(|r.mem|, w, buf, cached))
  {
    hide RingInv, PcInv, Branch;
    PositionExact(r, w);
    BranchSound(r, w, buf, cached);
  }

  lemma PlanQuiet(s: State, t: Tid, c: Choice)
    requires t < |s.pcs| && Plans(s.pcs[t])
    requires RingInv(s.ring) && PcInv(s.ring, s.pcs[t]) && Surroundings(s, s.pcs[t])
    ensures WriteStep(s, t, c).ring == s.ring && PcInv(s.ring, WriteStep(s, t, c).pcs[t])
  {
    hide RingInv, WriterOk, Position, CacheServes, Branch;
    var w, buf := s.pcs[t].w, s.pcs[t].buf;
    if s.pcs[t].WSyncStore? {
      BranchSound(s.ring, w, buf, s.pcs[t].left);
    } else if CacheServes(s.rightCached, |s.ring.mem|, Position(w), |buf|) {
      ServedBranchSound(s.ring, w, buf, s.rightCached);
    }
  }

  lemma SyncQuiet(s: State, t: Tid, c: Choice)
    requires t < |s.pcs| && s.pcs[t].WSync?
    requires RingInv(s.ring) && PcInv(s.ring, s.pcs[t])
    ensures WriteStep(s, t, c).ring == s.ring && PcInv(s.ring, WriteStep(s, t, c).pcs[t])
  {
    hide Holds, EncodeAll;
  }

  lemma WriteQuiet(s: State, t: Tid, c: Choice)
    requires t < |s.pcs| && RegionOf(s.pcs[t]) == Writing && Quiet(s.pcs[t])
    requires !Plans(s.pcs[t]) && !s.pcs[t].WSync?
    requires PcInv(s.ring, s.pcs[t])
    ensures WriteStep(s, t, c).ring == s.ring && PcInv(s.ring, WriteStep(s, t, c).pcs[t])
  {
    hide WriterOk, Add32, Sub32;
  }

  lemma LoadQuiet(s: State, t: Tid)
    requires t < |s.pcs| && s.pcs[t].WLoad?
    requires RingInv(s.ring) && PcInv(s.ring, s.pcs[t])
    ensures FixStep(s, t).ring == s.ring && PcInv(s.ring, FixStep(s, t).pcs[t])
  {
    hide Holds, EncodeAll;
  }

  lemma FixQuiet(s: State, t: Tid)
    requires t < |s.pcs| && RegionOf(s.pcs[t]) == Rebasing && Quiet(s.pcs[t]) && !s.pcs[t].WLoad?
    requires PcInv(s.ring, s.pcs[t])
    ensures FixStep(s, t).ring == s.ring && PcInv(s.ring, FixStep(s, t).pcs[t])
  {
    hide Holds, Position, Sub32;
  }

  lemma RecvQuiet(s: State, t: Tid)
    requires t < |s.pcs| && (s.pcs[t].RLock? || s.pcs[t].RLoad? || s.pcs[t].RSync?)
    requires RingInv(s.ring) && PcInv(s.ring, s.pcs[t]) && Surroundings(s, s.pcs[t])
    ensures RecvStep(s, t).ring == s.ring && PcInv(s.ring, RecvStep(s, t).pcs[t])
  {
  }

  /** A right offset beyond the left one, cached or loaded, means that there is a message. */
  lemma CompareQuiet(s: State, t: Tid)
    requires t < |s.pcs| && (s.pcs[t].RCache? || s.pcs[t].RSyncStore?)
    requires RingInv(s.ring) && PcInv(s.ring, s.pcs[t]) && Surroundings(s, s.pcs[t])
    ensures RecvStep(s, t).ring == s.ring && PcInv(s.ring, RecvStep(s, t).pcs[t])
  {
    SizeZero(Unread(s.ring));
  }

  /** A receiver reads the length of the oldest message at the left offset ... */
  lemma OldestSize(r: Ring, l: nat)
    requires RingInv(r) && AtLeft(r, l) && Unread(r) != []
    ensures ReadPrefix(r.mem, l) == |Unread(r)[0]|
    ensures Load(r.mem, l + PREFIX, |Unread(r)[0]|) == Unread(r)[0]
  {
    hide Load, EncodeAll, LittleEndian, FromLittleEndian;
    var m := Unread(r)[0];
    assert m in r.sent;
    HeadRead(r.mem, r.consumed, Unread(r));
    LoadLaps(r.mem, l, r.rebases, PREFIX);
    LoadLaps(r.mem, l + PREFIX, r.rebases, |m|);
  }

  /** ... and the payload behind it, in pieces of any size. */
  lemma OldestPart(r: Ring, l: nat, n: nat, bytes: seq<byte>, k: nat)
    requires RingInv(r) && Reading(r, l, n, bytes) && 1 <= k <= n - |bytes|
    ensures Reading(r, l, n, bytes + Load(r.mem, l + PREFIX + |bytes|, k))
  {
    hide RingInv, ReadPrefix, Load;
    OldestSize(r, l);
    LoadConcat(r.mem, l + PREFIX, |bytes|, n - |bytes|);
    LoadConcat(r.mem, l + PREFIX + |bytes|, k, n - |bytes| - k);
  }

  lemma DeliverQuiet(s: State, t: Tid, c: Choice)
    requires t < |s.pcs| && RegionOf(s.pcs[t]) == Delivering && Quiet(s.pcs[t])
    requires RingInv(s.ring) && PcInv(s.ring, s.pcs[t])
    ensures DeliverStep(s, t, c).ring == s.ring && PcInv(s.ring, DeliverStep(s, t, c).pcs[t])
  {
    hide RingInv, ReadPrefix, Load;
    if s.pcs[t].RSize? {
      OldestSize(s.ring, s.pcs[t].l);
    } else if s.pcs[t].RRead? && c.Chunk? && 1 <= c.n <= s.pcs[t].size - |s.pcs[t].bytes| {
      OldestPart(s.ring, s.pcs[t].l, s.pcs[t].size, s.pcs[t].bytes, c.n);
    }
  }

  lemma WaitQuiet(s: State, t: Tid, c: Choice)
    requires t < |s.pcs| && RegionOf(s.pcs[t]) == Waiting && PcInv(s.ring, s.pcs[t])
    ensures WaitStep(s, t, c).ring == s.ring && PcInv(s.ring, WaitStep(s, t, c).pcs[t])
  {
    hide Add32, Sub32, Laps;
  }

  /** The other threads can still rely on what they relied on. */
  ghost predicate Spared(s: State, t: Tid, r: Ring) {
    forall u | 0 <= u < |s.pcs| && u != t :: PcInv(r, s.pcs[u])
  }

  lemma QuietStep(s: State, t: Tid, c: Choice)
    requires t < |s.pcs| && Inv(s) && Quiet(s.pcs[t])
    ensures var s' := Step(s, Thread(t, c)); s'.ring == s.ring && |s'.pcs| == |s.pcs| && Sound(s, t, s'.ring, s'.pcs[t])
  {
    SurroundingsHold(s, t);
    StepMoves(s, t, c);
    AllPcsAt(s, t);
    hide RingInv, LockInv, CachesInv, WaitersInv, Settled, Surroundings, LockMove, CountMove, Woken,
      SendStep, WriteStep, FixStep, RecvStep, DeliverStep, WaitStep;
    match RegionOf(s.pcs[t])
    case Outside =>
    case Sending =>
      if s.pcs[t].SCall? { CallQuiet(s, t, c); }
      else if s.pcs[t].SLoad? { OpenQuiet(s, t, c); }
      else { SendQuiet(s, t, c); }
    case Writing =>
      if Plans(s.pcs[t]) { PlanQuiet(s, t, c); }
      else if s.pcs[t].WSync? { SyncQuiet(s, t, c); }
      else { WriteQuiet(s, t, c); }
    case Rebasing => if s.pcs[t].WLoad? { LoadQuiet(s, t); } else { FixQuiet(s, t); }
    case Receiving => if s.pcs[t].RCache? || s.pcs[t].RSyncStore? { CompareQuiet(s, t); } else { RecvQuiet(s, t); }
    case Delivering => DeliverQuiet(s, t, c);
    case Waiting => WaitQuiet(s, t, c);
  }

  lemma AloneRight(s: State, t: Tid)
    requires t < |s.pcs| && LockInv(s.pcs, s.rightLock, HoldsRight) && HoldsRight(s.pcs[t])
    ensures forall u | 0 <= u < |s.pcs| && u != t :: !HoldsRight(s.pcs[u])
  {
    assert s.rightLock == Taken(t);
  }

  lemma AloneLeft(s: State, t: Tid)
    requires t < |s.pcs| && LockInv(s.pcs, s.leftLock, HoldsLeft) && HoldsLeft(s.pcs[t])
    ensures forall u | 0 <= u < |s.pcs| && u != t :: !HoldsLeft(s.pcs[u])
  {
    assert s.leftLock == Taken(t);
  }

  lemma StoreSparesOthers(s: State, t: Tid, v: nat, b: seq<byte>)
    requires t < |s.pcs| && Inv(s) && HoldsRight(s.pcs[t])
    ensures Spared(s, t, StoreBytes(s.ring, v, b))
  {
    AloneRight(s, t);
    forall u | 0 <= u < |s.pcs| && u != t ensures PcInv(StoreBytes(s.ring, v, b), s.pcs[u]) {
      StoreSpares(s.ring, v, b, s.pcs[u]);
    }
  }

  lemma PublishSparesOthers(s: State, t: Tid, w: Writer)
    requires t < |s.pcs| && Inv(s) && HoldsRight(s.pcs[t]) && Sealed(s.ring, w)
    ensures Spared(s, t, Publish(s.ring, w))
  {
    AloneRight(s, t);
    forall u | 0 <= u < |s.pcs| && u != t ensures PcInv(Publish(s.ring, w), s.pcs[u]) {
      PublishSpares(s.ring, w, s.pcs[u]);
    }
  }

  lemma ReleaseSparesOthers(s: State, t: Tid, l: nat, n: nat, bytes: seq<byte>)
    requires t < |s.pcs| && Inv(s) && HoldsLeft(s.pcs[t]) && Reading(s.ring, l, n, bytes) && |bytes| == n
    ensures Spared(s, t, Release(s.ring, l, n, bytes))
  {
    AloneLeft(s, t);
    forall u | 0 <= u < |s.pcs| && u != t ensures PcInv(Release(s.ring, l, n, bytes), s.pcs[u]) {
      ReleaseSpares(s.ring, l, n, bytes, s.pcs[u]);
    }
  }

  lemma FixSparesOthers(s: State, t: Tid, nl: nat, nr: nat)
    requires t < |s.pcs| && Inv(s) && HoldsLeft(s.pcs[t]) && HoldsRight(s.pcs[t])
    ensures Spared(s, t, FixLeft(s.ring, nl)) && Spared(s, t, FixRight(s.ring, nr))
  {
    AloneLeft(s, t);
    AloneRight(s, t);
    forall u | 0 <= u < |s.pcs| && u != t
      ensures PcInv(FixLeft(s.ring, nl), s.pcs[u]) && PcInv(FixRight(s.ring, nr), s.pcs[u])
    {
      FixSpares(s.ring, nl, nr, s.pcs[u]);
    }
  }

  /** The step of the acting thread keeps the ring and what every thread relies on. */
  ghost predicate Sound(s: State, t: Tid, r: Ring, pc: Pc) {
    RingInv(r) && PcInv(r, pc) && Spared(s, t, r)
  }

  lemma CopyStep(s: State, t: Tid, w: Writer, buf: seq<byte>, n: nat, i: nat, k: nat)
    requires t < |s.pcs| && Inv(s) && s.pcs[t] == WCopy(w, buf, n, i) && i < n <= |buf| && 1 <= k <= n - i
    ensures Sound(s, t, StoreBytes(s.ring, Position(w) + i, buf[i..i + k]), WCopy(w, buf, n, i + k))
  {
    hide RingInv, StoreBytes, Unread;
    assert PcInv(s.ring, WCopy(w, buf, n, i));
    PositionExact(s.ring, w);
    CopyKeeps(s.ring, w, buf, n, i, k, buf[i..i + k]);
    StoreSparesOthers(s, t, Position(w) + i, buf[i..i + k]);
  }

  lemma CopyEndStep(s: State, t: Tid, w: Writer, buf: seq<byte>, n: nat, i: nat)
    requires t < |s.pcs| && Inv(s) && s.pcs[t] == WCopy(w, buf, n, i) && n <= i && n <= |buf|
    ensures Sound(s, t, s.ring, SCall(w.(staged := w.staged + buf[..n])))
  {
    assert PcInv(s.ring, WCopy(w, buf, n, i));
    CopyEnds(s.ring, w, buf, n);
  }

  lemma PrefixStep(s: State, t: Tid, w: Writer, prefix: seq<byte>)
    requires t < |s.pcs| && Inv(s) && s.pcs[t] == SPrefix(w)
    requires |w.staged| >= PREFIX && prefix == LittleEndian(|w.staged| - PREFIX, PREFIX)
    ensures Sound(s, t, StoreBytes(s.ring, w.right, prefix), SCommit(w.(staged := prefix + w.staged[PREFIX..])))
  {
    assert PcInv(s.ring, SPrefix(w));
    PrefixKeeps(s.ring, w, prefix);
    StoreSparesOthers(s, t, w.right, prefix);
  }

  lemma PublishStep(s: State, t: Tid, w: Writer)
    requires t < |s.pcs| && Inv(s) && s.pcs[t] == SCommit(w)
    ensures Sound(s, t, Publish(s.ring, w), SNotify)
  {
    hide RingInv, Publish, Unread;
    assert PcInv(s.ring, SCommit(w));
    PublishKeeps(s.ring, w);
    PublishSparesOthers(s, t, w);
  }

  lemma ReleaseStep(s: State, t: Tid, l: nat, n: nat, bytes: seq<byte>)
    requires t < |s.pcs| && Inv(s) && s.pcs[t] == RCommit(l, n, bytes)
    ensures Sound(s, t, Release(s.ring, l, n, bytes), RUnlock)
  {
    hide RingInv, AllPcs, CachesInv, WaitersInv, LockInv, Settled, Release, Unread, Reading;
    AllPcsAt(s, t);
    assert PcInv(s.ring, RCommit(l, n, bytes));
    ReleaseKeeps(s.ring, l, n, bytes);
    ReleaseSparesOthers(s, t, l, n, bytes);
  }

  lemma FixLeftStep(s: State, t: Tid, w: Writer, buf: seq<byte>, nl: nat, nr: nat)
    requires t < |s.pcs| && Inv(s) && s.pcs[t] == WFix0(w, buf, nl, nr)
    ensures Sound(s, t, FixLeft(s.ring, nl), WFix1(w, buf, nl, nr))
  {
    hide RingInv, FixLeft;
    assert PcInv(s.ring, WFix0(w, buf, nl, nr));
    FixLeftKeeps(s.ring, w, buf, nl, nr);
    FixSparesOthers(s, t, nl, nr);
  }

  lemma FixRightStep(s: State, t: Tid, w: Writer, buf: seq<byte>, nl: nat, nr: nat)
    requires t < |s.pcs| && Inv(s) && s.pcs[t] == WFix1(w, buf, nl, nr)
    ensures Sound(s, t, FixRight(s.ring, nr), WFix2(w, buf, nl, nr))
  {
    hide RingInv, FixRight;
    assert PcInv(s.ring, WFix1(w, buf, nl, nr));
    FixRightKeeps(s.ring, w, buf, nl, nr);
    FixSparesOthers(s, t, nl, nr);
  }

  lemma LoudStep(s: State, t: Tid, c: Choice)
    requires t < |s.pcs| && Inv(s) && !Quiet(s.pcs[t])
    ensures var s' := Step(s, Thread(t, c)); s' == s || (|s'.pcs| == |s.pcs| && Sound(s, t, s'.ring, s'.pcs[t]))
  {
    hide Inv, RingInv, PcInv, Spared, Sound, StoreBytes, Publish, Release, FixLeft, FixRight, Position, LittleEndian;
    match s.pcs[t]
    case WCopy(w, buf, n, i) =>
      if i < n <= |buf| {
        if c.Chunk? && 1 <= c.n <= n - i { CopyStep(s, t, w, buf, n, i, c.n); }
      } else if n <= |buf| {
        CopyEndStep(s, t, w, buf, n, i);
      }
    case SPrefix(w) =>
      if |w.staged| >= PREFIX { PrefixStep(s, t, w, LittleEndian(|w.staged| - PREFIX, PREFIX)); }
    case SCommit(w) => PublishStep(s, t, w);
    case RCommit(l, n, bytes) => ReleaseStep(s, t, l, n, bytes);
    case WFix0(w, buf, nl, nr) => FixLeftStep(s, t, w, buf, nl, nr);
    case WFix1(w, buf, nl, nr) => FixRightStep(s, t, w, buf, nl, nr);
  }

  lemma PcsKept(s: State, t: Tid, c: Choice)
    requires t < |s.pcs| && Inv(s)
    ensures RingInv(Step(s, Thread(t, c)).ring) && AllPcs(Step(s, Thread(t, c)))
  {
    var s' := Step(s, Thread(t, c));
    if s' != s {
      if Quiet(s.pcs[t]) { QuietStep(s, t, c); } else { LoudStep(s, t, c); }
      StepMoves(s, t, c);
      OthersFollow(s, t, s');
    }
  }

  lemma OthersFollow(s: State, t: Tid, s': State)
    requires Moves(s, t, s') && Sound(s, t, s'.ring, s'.pcs[t])
    ensures AllPcs(s')
  {
    forall u | 0 <= u < |s.pcs| ensures PcInv(s'.ring, s'.pcs[u]) {
      if u != t { SleeperSpared(s'.ring, s.pcs[u], s'.pcs[u]); }
    }
  }

  lemma SleeperSpared(r: Ring, pc: Pc, pc': Pc)
    requires PcInv(r, pc) && (pc' == pc || Woken(pc, pc'))
    ensures PcInv(r, pc')
  {
  }

  // ---- Caches and laps ----

  /** Only a commit publishes, and it publishes the staged payload; only a release removes, and it removes the
      bytes that the callback was given. */
  predicate HistoryMove(r: Ring, pc: Pc, r': Ring) {
    && |r'.mem| == |r.mem|
    && (r'.sent == r.sent
        || (pc.SCommit? && |pc.w.staged| >= PREFIX && r'.sent == r.sent + [pc.w.staged[PREFIX..]]))
    && (r'.got == r.got || (pc.RCommit? && r'.got == r.got + [pc.bytes]))
  }

  /** What a step does to the offsets and the caches: it leaves a cache alone or sets it to a value that is not
      beyond the offset; only a rebase makes an offset smaller, and it rewrites a cache before it forgets about it;
      the left offset grows by a release only, and nobody falls asleep on a left offset that is not there. */
  ghost predicate OffsetMove(s: State, t: Tid, s': State)
    requires t < |s.pcs| == |s'.pcs|
  {
    && (s'.leftCached == s.leftCached || s'.leftCached <= s'.ring.right)
    && (s'.rightCached == s.rightCached || s'.rightCached <= s'.ring.left)
    && (s.pcs[t].WFix1? || s'.ring.right >= s.ring.right)
    && (s.pcs[t].WFix0? || s'.ring.left >= s.ring.left)
    && ((s'.ring.lapL == s.ring.lapL && s'.ring.lapR == s.ring.lapR) || s'.pcs[t].WFix1? || s'.pcs[t].WFix2?)
    && (s'.ring.left == s.ring.left || s.pcs[t].WFix0? || s'.pcs[t].RUnlock?)
    && (s'.pcs[t].WAsleep? ==> s.pcs[t].WAsleep? || s'.ring.left == s'.pcs[t].e)
    && HistoryMove(s.ring, s.pcs[t], s'.ring)
    && (s.pcs[t].WFix1? ==> FixesLeftCache(s'.pcs[t]))
    && (s.pcs[t].WFix0? ==> FixesRightCache(s'.pcs[t]))
    && (FixesLeftCache(s.pcs[t]) ==> s'.leftCached <= s'.ring.right)
    && (FixesRightCache(s.pcs[t]) ==> FixesRightCache(s'.pcs[t]) || s'.rightCached <= s'.ring.left)
  }

  lemma SendCaches(s: State, t: Tid, c: Choice)
    requires t < |s.pcs| && RegionOf(s.pcs[t]) == Sending && !s.pcs[t].SCommit?
    ensures OffsetMove(s, t, SendStep(s, t, c))
  {
    hide Store, LittleEndian;
  }

  lemma PublishCaches(s: State, t: Tid, c: Choice)
    requires t < |s.pcs| && s.pcs[t].SCommit? && PcInv(s.ring, s.pcs[t])
    ensures OffsetMove(s, t, SendStep(s, t, c))
  {
    hide Holds, Publish;
    PublishOffset(s.ring, s.pcs[t].w);
  }

  lemma PublishOffset(r: Ring, w: Writer)
    requires WriterOk(r, w)
    ensures var r' := Publish(r, w);
            && r'.right == r.right + |w.staged| && r'.left == r.left && r'.lapL == r.lapL && r'.lapR == r.lapR
            && |r'.mem| == |r.mem| && r'.got == r.got
            && (|w.staged| >= PREFIX ==> r'.sent == r.sent + [w.staged[PREFIX..]])
  {
  }

  lemma WriteCaches(s: State, t: Tid, c: Choice)
    requires t < |s.pcs| && RegionOf(s.pcs[t]) == Writing && PcInv(s.ring, s.pcs[t])
    ensures OffsetMove(s, t, WriteStep(s, t, c))
  {
    hide PlanWrite, Store, Holds, Position;
  }

  lemma FixCaches(s: State, t: Tid)
    requires t < |s.pcs| && RegionOf(s.pcs[t]) == Rebasing && PcInv(s.ring, s.pcs[t])
    ensures FixStep(s, t) == s || OffsetMove(s, t, FixStep(s, t))
  {
    hide Holds, Position, Sub32;
  }

  lemma LoadedRight(r: Ring, pc: Pc)
    requires RingInv(r) && PcInv(r, pc) && pc.RSyncStore?
    ensures pc.r <= r.right
  {
    hide Holds, EncodeAll;
  }

  lemma RecvCaches(s: State, t: Tid)
    requires t < |s.pcs| && RegionOf(s.pcs[t]) == Receiving && RingInv(s.ring) && PcInv(s.ring, s.pcs[t])
    ensures OffsetMove(s, t, RecvStep(s, t))
  {
    hide RingInv, PcInv;
    if s.pcs[t].RSyncStore? { LoadedRight(s.ring, s.pcs[t]); }
  }

  lemma DeliverCaches(s: State, t: Tid, c: Choice)
    requires t < |s.pcs| && RegionOf(s.pcs[t]) == Delivering && |DeliverStep(s, t, c).pcs| == |s.pcs|
    requires RingInv(s.ring) && PcInv(s.ring, s.pcs[t])
    ensures OffsetMove(s, t, DeliverStep(s, t, c))
  {
    hide RingInv, ReadPrefix, Load;
    if s.pcs[t].RCommit? {
      ReleaseOffset(s.ring, s.pcs[t].l, s.pcs[t].size, s.pcs[t].bytes);
    }
  }

  lemma StepCaches(s: State, t: Tid, c: Choice)
    requires t < |s.pcs| && RingInv(s.ring) && PcInv(s.ring, s.pcs[t])
    requires |Step(s, Thread(t, c)).pcs| == |s.pcs|
    ensures Step(s, Thread(t, c)) == s || OffsetMove(s, t, Step(s, Thread(t, c)))
  {
    hide RingInv, PcInv, OffsetMove, SendStep, WriteStep, FixStep, RecvStep, DeliverStep;
    match RegionOf(s.pcs[t])
    case Outside => OutsideCaches(s, t, c);
    case Sending => if s.pcs[t].SCommit? { PublishCaches(s, t, c); } else { SendCaches(s, t, c); }
    case Writing => WriteCaches(s, t, c);
    case Rebasing => FixCaches(s, t);
    case Receiving => RecvCaches(s, t);
    case Delivering => DeliverCaches(s, t, c);
    case Waiting => WaitCaches(s, t, c);
  }

  lemma OutsideCaches(s: State, t: Tid, c: Choice)
    requires t < |s.pcs| && RegionOf(s.pcs[t]) == Outside
    ensures OffsetMove(s, t, Step(s, Thread(t, c)))
  {
  }

  lemma WaitCaches(s: State, t: Tid, c: Choice)
    requires t < |s.pcs| && RegionOf(s.pcs[t]) == Waiting
    ensures OffsetMove(s, t, WaitStep(s, t, c))
  {
  }

  lemma CachesKept(s: State, t: Tid, s': State)
    requires CachesInv(s) && Moves(s, t, s') && OffsetMove(s, t, s')
    ensures CachesInv(s')
  {
    forall u | 0 <= u < |s.pcs| && u != t
      ensures FixesLeftCache(s'.pcs[u]) == FixesLeftCache(s.pcs[u])
      ensures FixesRightCache(s'.pcs[u]) == FixesRightCache(s.pcs[u])
    {
    }
    if forall u | 0 <= u < |s'.pcs| :: !FixesLeftCache(s'.pcs[u]) {
      assert FixesLeftCache(s.pcs[t]) || forall u | 0 <= u < |s.pcs| :: !FixesLeftCache(s.pcs[u]);
    }
    if forall u | 0 <= u < |s'.pcs| :: !FixesRightCache(s'.pcs[u]) {
      assert FixesRightCache(s.pcs[t]) || forall u | 0 <= u < |s.pcs| :: !FixesRightCache(s.pcs[u]);
    }
  }

  lemma SettledKept(s: State, t: Tid, s': State)
    requires Settled(s) && Moves(s, t, s') && OffsetMove(s, t, s') && PcInv(s'.ring, s'.pcs[t])
    ensures Settled(s')
  {
    if forall u | 0 <= u < |s'.pcs| :: !s'.pcs[u].WFix1? {
      if !s'.pcs[t].WFix2? {
        hide PcInv;
        forall u | 0 <= u < |s.pcs| ensures !s.pcs[u].WFix1? {
          if u != t { assert s'.pcs[u] == s.pcs[u] || Woken(s.pcs[u], s'.pcs[u]); }
        }
      }
    }
  }

  lemma AllPcsAt(s: State, t: Tid)
    requires AllPcs(s) && t < |s.pcs|
    ensures PcInv(s.ring, s.pcs[t])
  {
  }

  // ---- Every event, every run ----

  lemma StepKeepsInv(s: State, e: Event)
    requires Inv(s)
    ensures Inv(Step(s, e))
  {
    var s' := Step(s, e);
    if e.Thread? && e.t < |s.pcs| && s' != s {
      hide RingInv, PcInv, Step;
      StepMoves(s, e.t, e.c);
      PcsKept(s, e.t, e.c);
      LocksKept(s, e.t, s');
      WaitersKept(s, e.t, s');
      AllPcsAt(s, e.t);
      StepCaches(s, e.t, e.c);
      SettledKept(s, e.t, s');
      CachesKept(s, e.t, s');
    }
  }

  lemma InitInv(mem: Memory, threads: nat)
    requires threads <= U32_MAX
    ensures Inv(Init(mem, threads))
  {
    var s := Init(mem, threads);
    CountNone(s.pcs, WaitsLeft);
    CountNone(s.pcs, WaitsRight);
  }

  lemma {:induction false} CountNone(pcs: seq<Pc>, waits: Pc -> bool)
    requires forall u | 0 <= u < |pcs| :: !waits(pcs[u])
    ensures Count(pcs, waits) == 0
  {
    if pcs != [] { CountNone(pcs[1..], waits); }
  }

  /** The invariant holds at every moment of every run: any number of threads, any interleaving,
      any callbacks, caches cleared at any time. */
  lemma {:induction false} AlwaysInv(mem: Memory, threads: nat, events: seq<Event>)
    requires threads <= U32_MAX
    ensures Inv(Run(Init(mem, threads), events))
    decreases |events|
  {
    if events == [] {
      InitInv(mem, threads);
    } else {
      AlwaysInv(mem, threads, events[..|events| - 1]);
      StepKeepsInv(Run(Init(mem, threads), events[..|events| - 1]), events[|events| - 1]);
    }
  }
}
