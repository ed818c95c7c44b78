/** What the queue promises, for every run: any number of threads, any interleaving of single accesses to shared
    memory, any callbacks, and other processes attaching at any time. */
module Theorems {
  import opened Bytes
  import opened Framing
  import opened RingMemory
  import opened WritePlan
  import opened Protocol
  import opened RingInvariant
  import opened SystemInvariant

  /** The state after a run of `threads` threads from the fresh queue. */
  function After(mem: Memory, threads: nat, events: seq<Event>): State {
    Run(Init(mem, threads), events)
  }

  /** Some thread is between the two stores that move the offsets back. */
  ghost predicate MidRebase(s: State) {
    exists t | 0 <= t < |s.pcs| :: s.pcs[t].WFix1?
  }

  // ---- FIFO ----

  lemma WalkUnread(r: Ring)
    requires RingInv(r) && r.lapL == r.lapR
    ensures Walk(r.mem, r.left, r.right) == Unread(r)
  {
    hide Load, EncodeAll, Walk, LittleEndian, FromLittleEndian;
    var u := Unread(r);
    EncodeAllSize(u);
    LoadLaps(r.mem, r.left, r.rebases, |EncodeAll(u)|);
    forall m | m in u ensures |m| <= U32_MAX { assert m in r.sent; }
    assert Holds(r.mem, r.left, EncodeAll(u));
    WalkEncoded(r.mem, r.left, u, r.right);
  }

  /** FIFO: what was received, followed by what a reader would find between the two offsets,
      is exactly what was sent, in order. */
  lemma Fifo(mem: Memory, threads: nat, events: seq<Event>)
    requires threads <= U32_MAX
    ensures var s := After(mem, threads, events);
            && s.ring.got <= s.ring.sent
            && (MidRebase(s) || s.ring.sent == s.ring.got + Walk(s.ring.mem, s.ring.left, s.ring.right))
  {
    var s := After(mem, threads, events);
    AlwaysInv(mem, threads, events);
    if !MidRebase(s) {
      hide AllPcs, CachesInv, WaitersInv, LockInv, Holds;
      WalkUnread(s.ring);
    }
  }

  /** Only a commit publishes, and it publishes the staged payload, whole; only a release removes, and it removes
      what the callback was given.  So a send that fails leaves no trace, even if it has rebased the ring. */
  lemma OnlyCommitsCount(mem: Memory, threads: nat, events: seq<Event>, e: Event)
    requires threads <= U32_MAX
    ensures var s := After(mem, threads, events);
            var r, r' := s.ring, After(mem, threads, events + [e]).ring;
            && (r'.sent == r.sent || (e.Thread? && e.t < |s.pcs| && s.pcs[e.t].SCommit?
                                      && s.pcs[e.t].w.staged == Encode(r'.sent[|r.sent|..][0])
                                      && r'.sent == r.sent + [s.pcs[e.t].w.staged[PREFIX..]]))
            && (r'.got == r.got || (e.Thread? && e.t < |s.pcs| && s.pcs[e.t].RCommit?
                                    && r'.got == r.got + [s.pcs[e.t].bytes]))
  {
    var s := After(mem, threads, events);
    assert (events + [e])[..|events|] == events;
    AlwaysInv(mem, threads, events);
    if e.Thread? && e.t < |s.pcs| && Step(s, e) != s {
      HistoryKept(s, e.t, e.c);
    }
  }

  lemma HistoryKept(s: State, t: Tid, c: Choice)
    requires t < |s.pcs| && Inv(s) && Step(s, Thread(t, c)) != s
    ensures HistoryMove(s.ring, s.pcs[t], Step(s, Thread(t, c)).ring)
    ensures s.pcs[t].SCommit? ==> Sealed(s.ring, s.pcs[t].w)
  {
    hide RingInv, AllPcs, HistoryMove, Settled, CachesInv, WaitersInv, LockInv, Step;
    AllPcsAt(s, t);
    StepMoves(s, t, c);
    StepCaches(s, t, c);
  }

  // ---- The stream behind the offsets ----

  lemma SizeOfSent(r: Ring)
    requires RingInv(r)
    ensures r.committed == Size(r.sent)
    ensures EncodeAll(r.sent) == EncodeAll(r.got) + EncodeAll(Unread(r))
  {
    hide Holds, EncodeAll, Size;
    assert r.sent == r.got + Unread(r);
    SizeConcat(r.got, Unread(r));
    EncodeAllConcat(r.got, Unread(r));
  }

  /** The offsets are unbounded stream counters less whole laps, and a committed stream byte stays in the cell
      of its own position for its whole life. */
  lemma StreamRefinement(mem: Memory, threads: nat, events: seq<Event>)
    requires threads <= U32_MAX
    ensures var s := After(mem, threads, events);
            var r, size := s.ring, |s.ring.mem|;
            && r.right + r.rebases * size == |EncodeAll(r.sent)|
            && (MidRebase(s) || r.left + r.rebases * size == |EncodeAll(r.got)|)
            && forall n | |EncodeAll(r.got)| <= n < |EncodeAll(r.sent)| :: r.mem[n % size] == EncodeAll(r.sent)[n]
  {
    var s := After(mem, threads, events);
    AlwaysInv(mem, threads, events);
    hide AllPcs, CachesInv, WaitersInv, LockInv;
    var r, size := s.ring, |s.ring.mem|;
    SizeOfSent(r);
    EncodeAllSize(r.sent);
    EncodeAllSize(r.got);
    LapsIsProduct(r.rebases, size);
    forall n | |EncodeAll(r.got)| <= n < |EncodeAll(r.sent)| ensures r.mem[n % size] == EncodeAll(r.sent)[n] {
      StreamByte(r, n);
    }
  }

  lemma StreamByte(r: Ring, n: nat)
    requires RingInv(r) && |EncodeAll(r.got)| <= n < |EncodeAll(r.sent)|
    ensures r.mem[n % |r.mem|] == EncodeAll(r.sent)[n]
  {
    hide Load, EncodeAll, Size, Cell;
    SizeOfSent(r);
    EncodeAllSize(r.got);
    var unread := EncodeAll(Unread(r));
    CellIsRemainder(n, |r.mem|);
    LoadAt(r.mem, r.consumed, |unread|, n - r.consumed);
  }

  // ---- Bounds ----

  /** The envelope of a ring whose offsets are settled. */
  lemma SettledEnvelope(r: Ring)
    requires RingInv(r)
    ensures r.right <= 2 * |r.mem| < U32_MAX
    ensures r.lapL == r.lapR ==> r.left <= r.right <= r.left + |r.mem|
  {
  }

  /** Each cache is sound unless a rebase has moved the offset that it copies and has yet to rewrite the cache. */
  ghost predicate CachesSound(s: State) {
    && (s.leftCached == U32_MAX || s.leftCached <= s.ring.right
        || exists t | 0 <= t < |s.pcs| :: s.pcs[t].WFix2?)
    && (s.rightCached == U32_MAX || s.rightCached <= s.ring.left
        || exists t | 0 <= t < |s.pcs| :: s.pcs[t].WFix1? || s.pcs[t].WFix2? || s.pcs[t].WFix3?)
  }

  lemma CachesSoundHere(s: State)
    requires CachesInv(s)
    ensures CachesSound(s)
  {
    if forall t | 0 <= t < |s.pcs| :: !s.pcs[t].WFix2? {
      assert forall t | 0 <= t < |s.pcs| :: !FixesLeftCache(s.pcs[t]);
    }
    if forall t | 0 <= t < |s.pcs| :: !s.pcs[t].WFix1? && !s.pcs[t].WFix2? && !s.pcs[t].WFix3? {
      assert forall t | 0 <= t < |s.pcs| :: !FixesRightCache(s.pcs[t]);
    }
  }

  /** In every reachable state the offsets are ordered, at most a lap apart, inside the two mappings, and
      never the value that marks a cleared cache; cached offsets are cleared or not beyond the true ones. */
  lemma Envelope(mem: Memory, threads: nat, events: seq<Event>)
    requires threads <= U32_MAX
    ensures var s := After(mem, threads, events);
            var r, size := s.ring, |s.ring.mem|;
            && r.right <= 2 * size < U32_MAX
            && (MidRebase(s) || r.left <= r.right <= r.left + size)
            && CachesSound(s)
  {
    hide Run, Init, RingInv, AllPcs, WaitersInv, LockInv, CachesInv, CachesSound;
    var s := After(mem, threads, events);
    AlwaysInv(mem, threads, events);
    SettledEnvelope(s.ring);
    CachesSoundHere(s);
  }

  lemma StagesOk(r: Ring, pc: Pc)
    requires PcInv(r, pc) && Stages(pc)
    ensures WriterOk(r, pc.w)
  {
    hide WriterOk, BufOk;
  }

  /** While a writer is active its position stays within a lap of the left offset and inside the two mappings,
      so that the u32 sums are exact, and it rebases at most once in a send. */
  lemma WriterEnvelope(mem: Memory, threads: nat, events: seq<Event>, t: Tid)
    requires threads <= U32_MAX
    requires var s := After(mem, threads, events); t < |s.pcs| && Stages(s.pcs[t])
    ensures var s := After(mem, threads, events);
            var r, size, w := s.ring, |s.ring.mem|, s.pcs[t].w;
            && r.left <= r.right == w.right <= Position(w)
            && Position(w) == r.right + |w.staged| <= Min(r.left + size, 2 * size)
            && |w.staged| + PREFIX <= size
            && w.fixes <= 1
  {
    var s := After(mem, threads, events);
    AlwaysInv(mem, threads, events);
    AllPcsAt(s, t);
    hide AllPcs, CachesInv, WaitersInv, LockInv, Settled, PcInv, Holds;
    StagesOk(s.ring, s.pcs[t]);
    PositionExact(s.ring, s.pcs[t].w);
  }

  /** Every part of every copy lands behind the staged bytes and short of the unconsumed ones - even when the
      writer's left offset is an old one: no cell it writes is a cell of an unread or staged byte. */
  lemma StagingNeverClobbers(mem: Memory, threads: nat, events: seq<Event>, t: Tid, a: nat, b: nat)
    requires threads <= U32_MAX
    requires var s := After(mem, threads, events);
             t < |s.pcs| && s.pcs[t].WCopy?
             && Position(s.pcs[t].w) <= a < Position(s.pcs[t].w) + s.pcs[t].n
             && s.ring.left <= b < Position(s.pcs[t].w)
    ensures var s := After(mem, threads, events);
            a < 2 * |s.ring.mem| && a < s.ring.left + |s.ring.mem| && Cell(a, |s.ring.mem|) != Cell(b, |s.ring.mem|)
  {
    var s := After(mem, threads, events);
    AlwaysInv(mem, threads, events);
    AllPcsAt(s, t);
    hide AllPcs, CachesInv, WaitersInv, LockInv, Settled, Holds;
    var pc := s.pcs[t];
    assert Copying(s.ring, pc.w, pc.buf, pc.n, pc.i);
    PositionExact(s.ring, pc.w);
    CellsApart(b, a - b, |s.ring.mem|);
  }

  // ---- Fast paths ----

  /** A sender that trusts its cached left offset takes the branch, and copies the bytes, that the true left offset
      would give; and it never starts to wait on a cached offset. */
  lemma SenderFastPath(mem: Memory, threads: nat, events: seq<Event>, t: Tid, c: Choice)
    requires threads <= U32_MAX
    requires var s := After(mem, threads, events); t < |s.pcs| && s.pcs[t].WCache?
    ensures var s := After(mem, threads, events);
            var pc, pc' := s.pcs[t], Step(s, Thread(t, c)).pcs;
            && |pc'| == |s.pcs|
            && pc'[t] == (if CacheServes(s.rightCached, |s.ring.mem|, pc.w.right + |pc.w.staged|, |pc.buf|)
                          then Branch(|s.ring.mem|, pc.w, pc.buf, s.ring.left) else WSync(pc.w, pc.buf))
            && !pc'[t].WSpin?
  {
    var s := After(mem, threads, events);
    AlwaysInv(mem, threads, events);
    AllPcsAt(s, t);
    SurroundingsHold(s, t);
    hide AllPcs, CachesInv, WaitersInv, LockInv, Settled, Holds, PlanWrite;
    var w, buf, size := s.pcs[t].w, s.pcs[t].buf, |s.ring.mem|;
    PositionExact(s.ring, w);
    if CacheServes(s.rightCached, size, Position(w), |buf|) {
      CachedPlanIsFresh(size, Position(w), |buf|, s.rightCached, s.ring.left);
    }
  }

  /** A receiver that trusts its cached right offset goes for a message exactly where the true offset would send it,
      and it reads that message at the left offset. */
  lemma ReceiverFastPath(mem: Memory, threads: nat, events: seq<Event>, t: Tid, c: Choice)
    requires threads <= U32_MAX
    requires var s := After(mem, threads, events); t < |s.pcs| && s.pcs[t].RCache?
    ensures var s := After(mem, threads, events);
            var pc, pc' := s.pcs[t], Step(s, Thread(t, c)).pcs;
            && |pc'| == |s.pcs| && pc.l == s.ring.left
            && (pc'[t] == RSync(pc.l) || (pc'[t] == RSize(pc.l) && s.ring.right > s.ring.left && Unread(s.ring) != []))
            && (pc'[t].RSize? <==> s.leftCached != U32_MAX && s.leftCached > s.ring.left)
  {
    var s := After(mem, threads, events);
    AlwaysInv(mem, threads, events);
    AllPcsAt(s, t);
    SurroundingsHold(s, t);
    hide AllPcs, CachesInv, WaitersInv, LockInv, Settled, Holds, EncodeAll;
    SizeZero(Unread(s.ring));
  }

  /** What an event writes to a cache: a load of the offset that it copies stores what it has loaded, a rebase the
      new offset, an attaching process the mark of a cleared cache, and nothing else writes it. */
  lemma CacheWrites(mem: Memory, threads: nat, events: seq<Event>, e: Event)
    requires threads <= U32_MAX
    ensures var s := After(mem, threads, events);
            var s' := Step(s, e);
            var pc := if e.Thread? && e.t < |s.pcs| then s.pcs[e.t] else Idle;
            && s'.leftCached == (if e.ClearLeftCache? then U32_MAX else if pc.RSyncStore? then pc.r
                                 else if pc.WFix2? then s'.ring.right else s.leftCached)
            && s'.rightCached == (if e.ClearRightCache? then U32_MAX else if pc.WSyncStore? then pc.left
                                  else if pc.WFix3? then s'.ring.left else s.rightCached)
  {
    hide Run, Init, RingInv, AllPcs, CachesInv, WaitersInv, LockInv, Settled;
    var s := After(mem, threads, events);
    AlwaysInv(mem, threads, events);
    if e.Thread? && e.t < |s.pcs| {
      AllPcsAt(s, e.t);
      ThreadWrites(s, e.t, e.c);
    }
  }

  /** A load that synchronises begins where the cache has been tried and does not serve. */
  predicate SyncNeeded(s: State, pc: Pc, pc': Pc) {
    && (pc'.WSync? && !pc.WSync? ==>
          pc.WCache? && !CacheServes(s.rightCached, |s.ring.mem|, Position(pc.w), |pc.buf|))
    && (pc'.RSync? && !pc.RSync? ==> pc.RCache? && !(s.leftCached != U32_MAX && s.leftCached > pc.l))
  }

  /** Every synchronising load of every run is needed: the cache has been tried before, each time round the loop. */
  lemma SyncAfterCache(mem: Memory, threads: nat, events: seq<Event>, t: Tid, c: Choice)
    requires threads <= U32_MAX && t < |After(mem, threads, events).pcs|
    ensures var s := After(mem, threads, events);
            var s' := Step(s, Thread(t, c));
            |s'.pcs| == |s.pcs| && SyncNeeded(s, s.pcs[t], s'.pcs[t])
  {
    hide Run, Init, Inv, PcInv, Step, SyncNeeded;
    var s := After(mem, threads, events);
    AlwaysInv(mem, threads, events);
    StepMoves(s, t, c);
    MovesLength(s, t, Step(s, Thread(t, c)));
    InvPc(s, t);
    ThreadWrites(s, t, c);
  }

  lemma InvPc(s: State, t: Tid)
    requires Inv(s) && t < |s.pcs|
    ensures PcInv(s.ring, s.pcs[t])
  {
    hide RingInv, PcInv, CachesInv, WaitersInv, LockInv, Settled;
    AllPcsAt(s, t);
  }

  /** The caches after a step of thread `t`, and what it does about them next. */
  predicate CachesAfter(s: State, t: Tid, s': State)
    requires t < |s.pcs|
  {
    var pc := s.pcs[t];
    && t < |s'.pcs| && SyncNeeded(s, pc, s'.pcs[t])
    && s'.leftCached == (if pc.RSyncStore? then pc.r else if pc.WFix2? then s'.ring.right else s.leftCached)
    && s'.rightCached == (if pc.WSyncStore? then pc.left else if pc.WFix3? then s'.ring.left else s.rightCached)
  }

  lemma SendWrites(s: State, t: Tid, c: Choice)
    requires t < |s.pcs| && RegionOf(s.pcs[t]) == Sending
    ensures CachesAfter(s, t, SendStep(s, t, c))
  {
    hide StoreBytes, Publish, TooMuch, Zeros, LittleEndian;
  }

  lemma WriteWrites(s: State, t: Tid, c: Choice)
    requires t < |s.pcs| && RegionOf(s.pcs[t]) == Writing
    ensures CachesAfter(s, t, WriteStep(s, t, c))
  {
    hide StoreBytes, Position, PlanWrite, CacheServes, Add32, Sub32;
  }

  lemma FixWrites(s: State, t: Tid)
    requires t < |s.pcs| && RegionOf(s.pcs[t]) == Rebasing && PcInv(s.ring, s.pcs[t])
    ensures CachesAfter(s, t, FixStep(s, t))
  {
    hide Position, Sub32, Holds;
  }

  lemma DeliverWrites(s: State, t: Tid, c: Choice)
    requires t < |s.pcs| && RegionOf(s.pcs[t]) == Delivering
    ensures CachesAfter(s, t, DeliverStep(s, t, c))
  {
    hide Release, ReadPrefix, Load;
  }

  lemma WaitWrites(s: State, t: Tid, c: Choice)
    requires t < |s.pcs| && RegionOf(s.pcs[t]) == Waiting
    ensures CachesAfter(s, t, WaitStep(s, t, c))
  {
    hide Add32, Sub32;
  }

  lemma ThreadWrites(s: State, t: Tid, c: Choice)
    requires t < |s.pcs| && PcInv(s.ring, s.pcs[t])
    ensures CachesAfter(s, t, Step(s, Thread(t, c)))
  {
    hide PcInv, SendStep, WriteStep, FixStep, DeliverStep, WaitStep;
    match RegionOf(s.pcs[t])
    case Outside =>
    case Sending => SendWrites(s, t, c);
    case Writing => WriteWrites(s, t, c);
    case Rebasing => FixWrites(s, t);
    case Receiving =>
    case Delivering => DeliverWrites(s, t, c);
    case Waiting => WaitWrites(s, t, c);
  }

  // ---- Waiting ----

  /** In `wait` on the offset value `e`, up to the end of the sleep. */
  predicate WaitsOn(pc: Pc, e: nat) {
    || (pc.WSpin? && pc.e == e) || (pc.WCompare? && pc.e == e) || (pc.WAsleep? && pc.e == e)
    || (pc.RSpin? && pc.e == e) || (pc.RCompare? && pc.e == e) || (pc.RAsleep? && pc.e == e)
  }

  lemma SenderHolds(s: State, t: Tid, c: Choice, e: nat)
    requires t < |s.pcs| && RegionOf(s.pcs[t]) == Writing && WaitsOn(s.pcs[t], e) && s.ring.left == e && !c.Spurious?
    ensures WaitsOn(WriteStep(s, t, c).pcs[t], e) && RegionOf(WriteStep(s, t, c).pcs[t]) == Writing
    ensures WriteStep(s, t, Go).ring == s.ring && |WriteStep(s, t, Go).pcs| == |s.pcs|
    ensures !s.pcs[t].WSpin? ==> WriteStep(s, t, Go).pcs[t].WAsleep?
    ensures s.pcs[t].WSpin? ==> WriteStep(s, t, Go).pcs[t].WCompare?
  {
    hide Add32, Sub32;
  }

  lemma ReceiverHolds(s: State, t: Tid, c: Choice, e: nat)
    requires t < |s.pcs| && RegionOf(s.pcs[t]) == Waiting && WaitsOn(s.pcs[t], e) && s.ring.right == e && !c.Spurious?
    ensures WaitsOn(WaitStep(s, t, c).pcs[t], e) && RegionOf(WaitStep(s, t, c).pcs[t]) == Waiting
    ensures WaitStep(s, t, Go).ring == s.ring && |WaitStep(s, t, Go).pcs| == |s.pcs|
    ensures !s.pcs[t].RSpin? ==> WaitStep(s, t, Go).pcs[t].RAsleep?
    ensures s.pcs[t].RSpin? ==> WaitStep(s, t, Go).pcs[t].RCompare?
  {
    hide Add32, Sub32;
  }

  /** A thread in `wait` does not go on by itself as long as the offset is the expected one: two steps at most and it
      sleeps.  Only another offset, a wake by another thread, or a sleep that ends by itself lets it go on. */
  lemma WaitHolds(s: State, t: Tid, c: Choice, e: nat)
    requires t < |s.pcs| && WaitsOn(s.pcs[t], e) && !c.Spurious?
    requires e == if RegionOf(s.pcs[t]) == Waiting then s.ring.right else s.ring.left
    ensures t < |Step(s, Thread(t, c)).pcs| && WaitsOn(Step(s, Thread(t, c)).pcs[t], e)
    ensures var s1 := Step(s, Thread(t, Go));
            |s1.pcs| == |s.pcs| && |Step(s1, Thread(t, Go)).pcs| == |s.pcs|
            && var pc := Step(s1, Thread(t, Go)).pcs[t]; pc.WAsleep? || pc.RAsleep?
  {
    hide WriteStep, WaitStep;
    StepMoves(s, t, c);
    StepMoves(s, t, Go);
    var s1 := Step(s, Thread(t, Go));
    StepMoves(s1, t, Go);
    hide Moves;
    MovesLength(s, t, Step(s, Thread(t, c)));
    if RegionOf(s.pcs[t]) == Waiting {
      ReceiverHolds(s, t, c, e);
      ReceiverHolds(s, t, Go, e);
      ReceiverHolds(s1, t, Go, e);
    } else {
      SenderHolds(s, t, c, e);
      SenderHolds(s, t, Go, e);
      SenderHolds(s1, t, Go, e);
    }
  }

  /** A thread in `wait` whose offset is another one goes back to the top of its loop: at once if it is still looking,
      and through the decrement of the waiter counter if it has counted itself. */
  lemma WaitEnds(s: State, t: Tid)
    requires t < |s.pcs|
    ensures var pc := s.pcs[t];
            && (pc.WSpin? && s.ring.left != pc.e ==> Step(s, Thread(t, Look)) == At(s, t, WCache(pc.w, pc.buf)))
            && (pc.RSpin? && s.ring.right != pc.e ==> Step(s, Thread(t, Look)) == At(s, t, RLock))
            && (pc.WCompare? && s.ring.left != pc.e ==> Step(s, Thread(t, Go)) == At(s, t, WLeave(pc.w, pc.buf)))
            && (pc.RCompare? && s.ring.right != pc.e ==> Step(s, Thread(t, Go)) == At(s, t, RLeave))
  {
    var pc := s.pcs[t];
    if pc.WSpin? || pc.WCompare? {
      assert forall c: Choice :: Step(s, Thread(t, c)) == WriteStep(s, t, c);
    } else if pc.RSpin? || pc.RCompare? {
      assert forall c: Choice :: Step(s, Thread(t, c)) == WaitStep(s, t, c);
    }
  }

  // ---- Delivery ----

  /** What a receiver is handed: a contiguous slice of the double mapping that is the oldest unread payload,
      of which the callback has so far read a true prefix. */
  lemma DeliveredSlice(mem: Memory, threads: nat, events: seq<Event>, t: Tid)
    requires threads <= U32_MAX
    requires var s := After(mem, threads, events); t < |s.pcs| && s.pcs[t].RRead?
    ensures var s := After(mem, threads, events);
            var r, pc := s.ring, s.pcs[t];
            && |r.got| < |r.sent|
            && pc.l == r.left && pc.l + PREFIX + pc.size <= r.right <= 2 * |r.mem|
            && Load(r.mem, pc.l + PREFIX, pc.size) == r.sent[|r.got|]
            && pc.bytes <= r.sent[|r.got|]
  {
    hide Run, Init, RingInv, PcInv, AllPcs, CachesInv, WaitersInv, LockInv, Settled;
    var s := After(mem, threads, events);
    AlwaysInv(mem, threads, events);
    AllPcsAt(s, t);
    ReadingAt(s.ring, s.pcs[t]);
    SliceHere(s.ring, s.pcs[t].l, s.pcs[t].size, s.pcs[t].bytes);
  }

  lemma ReadingAt(r: Ring, pc: Pc)
    requires pc.RRead? && PcInv(r, pc)
    ensures Reading(r, pc.l, pc.size, pc.bytes)
  {
  }

  lemma SliceHere(r: Ring, l: nat, n: nat, bytes: seq<byte>)
    requires RingInv(r) && Reading(r, l, n, bytes)
    ensures |r.got| < |r.sent|
    ensures l == r.left && l + PREFIX + n <= r.right <= 2 * |r.mem|
    ensures Load(r.mem, l + PREFIX, n) == r.sent[|r.got|] && bytes <= r.sent[|r.got|]
  {
    hide Holds, EncodeAll;
    OldestSize(r, l);
    OldestLeaves(r, Unread(r)[0]);
  }

  /** Events in which thread `t` does not take part. */
  predicate Without(events: seq<Event>, t: Tid) {
    forall e | e in events :: e.Thread? ==> e.t != t
  }

  /** The receiver `t`, its slice and its place in the stream are as before; others may have sent. */
  ghost predicate SameSlice(s: State, s': State, t: Tid)
    requires t < |s.pcs| && s.pcs[t].RRead?
  {
    && |s'.pcs| == |s.pcs| && s'.pcs[t] == s.pcs[t]
    && s'.ring.left == s.ring.left
    && s'.ring.got == s.ring.got && s.ring.sent <= s'.ring.sent
  }

  lemma OffsetsSpareSlice(s: State, u: Tid, s': State, t: Tid)
    requires Moves(s, u, s') && OffsetMove(s, u, s') && LockInv(s.pcs, s.leftLock, HoldsLeft)
    requires t < |s.pcs| && u != t && s.pcs[t].RRead?
    ensures SameSlice(s, s', t)
  {
    AloneLeft(s, t);
  }

  lemma StepSparesSlice(s: State, e: Event, t: Tid)
    requires Inv(s) && t < |s.pcs| && s.pcs[t].RRead? && (e.Thread? ==> e.t != t)
    ensures SameSlice(s, Step(s, e), t)
  {
    if e.Thread? && e.t < |s.pcs| && Step(s, e) != s {
      hide Step, RingInv, AllPcs, Settled, CachesInv, WaitersInv, LockInv, PcInv, Moves, OffsetMove, SameSlice;
      AllPcsAt(s, e.t);
      StepMoves(s, e.t, e.c);
      MovesLength(s, e.t, Step(s, e));
      StepCaches(s, e.t, e.c);
      OffsetsSpareSlice(s, e.t, Step(s, e), t);
    }
  }

  lemma MovesLength(s: State, t: Tid, s': State)
    requires Moves(s, t, s')
    ensures |s'.pcs| == |s.pcs|
  {
  }

  lemma SliceSame(s: State, s': State, t: Tid)
    requires Inv(s) && Inv(s') && t < |s.pcs| && s.pcs[t].RRead? && SameSlice(s, s', t)
    ensures Load(s'.ring.mem, s.pcs[t].l + PREFIX, s.pcs[t].size)
            == Load(s.ring.mem, s.pcs[t].l + PREFIX, s.pcs[t].size)
  {
    hide RingInv, AllPcs, Settled, CachesInv, WaitersInv, LockInv, PcInv, Reading;
    AllPcsAt(s, t);
    AllPcsAt(s', t);
    ReadingAt(s.ring, s.pcs[t]);
    ReadingAt(s'.ring, s.pcs[t]);
    SliceHere(s.ring, s.pcs[t].l, s.pcs[t].size, s.pcs[t].bytes);
    SliceHere(s'.ring, s.pcs[t].l, s.pcs[t].size, s.pcs[t].bytes);
  }

  lemma {:induction false} SliceKept(s: State, events: seq<Event>, t: Tid)
    requires Inv(s) && t < |s.pcs| && s.pcs[t].RRead? && Without(events, t)
    ensures Inv(Run(s, events)) && SameSlice(s, Run(s, events), t)
    decreases |events|
  {
    if events != [] {
      hide Step, Inv;
      var before, e := events[..|events| - 1], events[|events| - 1];
      assert e in events;
      SliceKept(s, before, t);
      StepKeepsInv(Run(s, before), e);
      StepSparesSlice(Run(s, before), e, t);
    }
  }

  /** Whatever the others do while a callback has the slice - staging, committing, trying to rebase - the slice keeps
      its place and its bytes. */
  lemma SliceStable(mem: Memory, threads: nat, events: seq<Event>, t: Tid, more: seq<Event>)
    requires threads <= U32_MAX && Without(more, t)
    requires var s := After(mem, threads, events); t < |s.pcs| && s.pcs[t].RRead?
    ensures var s := After(mem, threads, events);
            var s' := Run(s, more);
            && |s'.pcs| == |s.pcs| && s'.pcs[t] == s.pcs[t] && s'.ring.left == s.ring.left
            && Load(s'.ring.mem, s.pcs[t].l + PREFIX, s.pcs[t].size)
               == Load(s.ring.mem, s.pcs[t].l + PREFIX, s.pcs[t].size)
  {
    hide Run, Init, Inv;
    var s := After(mem, threads, events);
    AlwaysInv(mem, threads, events);
    SliceKept(s, more, t);
    SliceSame(s, Run(s, more), t);
  }

  // ---- The rebase ----

  /** A rebase is due only at the very end of the second mapping and with the left offset a lap in, and only once
      in a send. */
  lemma RebaseOnce(mem: Memory, threads: nat, events: seq<Event>, t: Tid)
    requires threads <= U32_MAX
    requires var s := After(mem, threads, events);
             t < |s.pcs| && (s.pcs[t].WLock? || s.pcs[t].WLoad? || s.pcs[t].WFix0?)
    ensures var s := After(mem, threads, events);
            Position(s.pcs[t].w) == 2 * |s.ring.mem| && s.ring.left >= |s.ring.mem| && s.pcs[t].w.fixes == 0
  {
    hide Run, Init, RingInv, AllPcs, CachesInv, WaitersInv, LockInv, Settled, Holds;
    var s := After(mem, threads, events);
    AlwaysInv(mem, threads, events);
    AllPcsAt(s, t);
    assert Due(s.ring, s.pcs[t].w, s.pcs[t].buf);
    PositionExact(s.ring, s.pcs[t].w);
  }

  /** Moving both offsets back by a lap changes what they mean in no way: the same unread messages are found,
      the staged bytes stand behind them, as many bytes are free, and another rebase is not due. */
  lemma RebaseMeaning(r: Ring, w: Writer, buf: seq<byte>, nl: nat, nr: nat)
    requires RingInv(r) && PcInv(r, WFix0(w, buf, nl, nr))
    ensures var r' := FixRight(FixLeft(r, nl), nr);
            && r'.mem == r.mem && r'.left + |r.mem| == r.left && r'.right + |r.mem| == r.right
            && Walk(r'.mem, r'.left, r'.right) == Walk(r.mem, r.left, r.right)
            && Load(r'.mem, r'.right, |w.staged|) == Load(r.mem, r.right, |w.staged|) == w.staged
            && r'.left + |r.mem| - (r'.right + |w.staged|) == r.left + |r.mem| - (r.right + |w.staged|)
            && !PlanWrite(|r.mem|, r'.right + |w.staged|, |buf|, r'.left).Rebase?
  {
    hide Holds, RingInv, PcInv, PlanWrite, WriterOk;
    RebaseOffsets(r, w, buf, nl, nr);
    RebaseWalk(r, w, buf, nl, nr);
    StagedHere(r, w);
    LoadLaps(r.mem, nr, 1, |w.staged|);
    assert Laps(1, |r.mem|) == |r.mem|;
  }

  lemma RebaseWalk(r: Ring, w: Writer, buf: seq<byte>, nl: nat, nr: nat)
    requires RingInv(r) && PcInv(r, WFix0(w, buf, nl, nr)) && r.lapL == r.lapR
    ensures Walk(r.mem, nl, nr) == Walk(r.mem, r.left, r.right)
  {
    hide RingInv, PcInv, Walk;
    FixLeftKeeps(r, w, buf, nl, nr);
    FixRightKeeps(FixLeft(r, nl), w, buf, nl, nr);
    WalkUnread(r);
    WalkUnread(FixRight(FixLeft(r, nl), nr));
  }

  lemma RebaseOffsets(r: Ring, w: Writer, buf: seq<byte>, nl: nat, nr: nat)
    requires RingInv(r) && PcInv(r, WFix0(w, buf, nl, nr))
    ensures WriterOk(r, w) && r.lapL == r.lapR
    ensures nl + |r.mem| == r.left && nr + |r.mem| == r.right && nr + |w.staged| == |r.mem|
    ensures !PlanWrite(|r.mem|, nr + |w.staged|, |buf|, nl).Rebase?
  {
    hide Holds, EncodeAll;
    PlanMeaning(|r.mem|, nr + |w.staged|, |buf|, nl);
  }

  lemma StagedHere(r: Ring, w: Writer)
    requires RingInv(r) && WriterOk(r, w)
    ensures Load(r.mem, r.right, |w.staged|) == w.staged
  {
    LoadLaps(r.mem, r.right, r.rebases, |w.staged|);
  }

  // ---- Blocked writes ----

  /** A sender in the wait branch has a message to wait for: the data area is full up to its position,
      and a part of it is committed. */
  lemma BlockedSenderHasMessage(mem: Memory, threads: nat, events: seq<Event>, t: Tid)
    requires threads <= U32_MAX
    requires var s := After(mem, threads, events);
             t < |s.pcs| && (s.pcs[t].WSpin? || s.pcs[t].WCompare? || s.pcs[t].WAsleep?) && s.pcs[t].e == s.ring.left
    ensures var s := After(mem, threads, events);
            Unread(s.ring) != [] && s.ring.right >= s.ring.left + PREFIX
  {
    hide Run, Init, AllPcs, CachesInv, WaitersInv, LockInv, Settled, Holds, EncodeAll;
    var s := After(mem, threads, events);
    AlwaysInv(mem, threads, events);
    AllPcsAt(s, t);
    FullHasMessage(s.ring, s.pcs[t].w, s.pcs[t].buf);
  }

  lemma FullHasMessage(r: Ring, w: Writer, buf: seq<byte>)
    requires RingInv(r) && Full(r, w, buf, r.left)
    ensures Unread(r) != [] && r.right >= r.left + PREFIX
  {
    hide Holds, EncodeAll;
    SizeZero(Unread(r));
  }

  /** On an empty queue no write of accepted size waits: with the true left offset it copies,
      or rebases and then copies. */
  lemma EmptyQueueNeverBlocks(r: Ring, w: Writer, buf: seq<byte>)
    requires RingInv(r) && WriterOk(r, w) && BufOk(r, w, buf) && Unread(r) == []
    ensures !PlanWrite(|r.mem|, Position(w), |buf|, r.left).Wait?
    ensures PlanWrite(|r.mem|, Position(w), |buf|, r.left).Rebase? ==>
              PlanWrite(|r.mem|, |r.mem|, |buf|, r.left - |r.mem|).Copy?
  {
    hide Holds, EncodeAll;
    SizeZero(Unread(r));
    PositionExact(r, w);
    PlanMeaning(|r.mem|, Position(w), |buf|, r.left);
    if r.left >= |r.mem| { PlanMeaning(|r.mem|, |r.mem|, |buf|, r.left - |r.mem|); }
  }
}
