/** What the calls of a run amount to.  The trace of a thread is read off the choices of its callback and the points
    where its calls return; it ties what is sent to the buffers that the callbacks wrote, and what is received to the
    calls of recv. */
module CallTrace {
  import opened Bytes
  import opened Framing
  import opened RingMemory
  import opened WritePlan
  import opened Protocol
  import opened RingInvariant
  import opened SystemInvariant
  import opened Wakeups
  import opened Theorems

  /** A call of write on `buf` that accepted `n` bytes.  `pos` and `end` are the virtual position and the stream
      position behind them, `lefts` the consumed stream positions from the call to its answer. */
  datatype Answer = Answer(buf: seq<byte>, n: nat, pos: nat, end: nat, lefts: set<nat>)

  datatype Phase =
    | Away                        // in no call
    | Heading                     // in send, before the callback
    | Calling                     // the callback's turn
    | Open(buf: seq<byte>)        // in a call of write by the callback
    | Ended(ok: bool)             // the callback has returned
    | Published                   // and what it has written is a message now
    | Looking                     // in recv, without a message so far
    | Took(m: Message)            // in recv, with a message

  datatype Trace = Trace(phase: Phase, answers: seq<Answer>, lefts: set<nat>)

  /** The bytes that the calls accepted, in order. */
  function Accepted(answers: seq<Answer>): seq<byte> {
    if answers == [] then []
    else
      var last := answers[|answers| - 1];
      Accepted(answers[..|answers| - 1]) + if last.n <= |last.buf| then last.buf[..last.n] else last.buf
  }

  function Less(a: nat, b: nat): nat { if a >= b then a - b else 0 }

  /** What a step of the thread itself makes of its trace. */
  function Own(tr: Trace, r: Ring, pc: Pc, c: Choice, r': Ring, pc': Pc): Trace {
    match tr.phase
    case Away =>
      if c.Send? then Trace(Heading, [], {}) else if c.Recv? then Trace(Looking, [], {}) else tr
    case Heading => if pc'.SCall? && |pc'.w.staged| >= PREFIX then tr.(phase := Calling) else tr
    case Calling => (
      match c
      case Write(buf) => if pc' != pc then tr.(phase := Open(buf), lefts := {}) else tr
      case Done => tr.(phase := Ended(true))
      case Fail => tr.(phase := Ended(false))
      case _ => tr
    )
    case Open(buf) =>
      if pc'.SCall? then
        var n := Less(|pc'.w.staged|, PREFIX + |Accepted(tr.answers)|);
        var pos, end := pc'.w.right + |pc'.w.staged|, r'.committed + |pc'.w.staged|;
        tr.(phase := Calling, answers := tr.answers + [Answer(buf, n, pos, end, tr.lefts)])
      else tr
    case Ended(_) =>
      if |r'.sent| > |r.sent| then tr.(phase := Published) else if pc'.Idle? then Trace(Away, [], {}) else tr
    case Published => if pc'.Idle? then Trace(Away, [], {}) else tr
    case Looking => if |r'.got| > |r.got| then tr.(phase := Took(r'.got[|r.got|])) else tr
    case Took(_) => if pc'.Idle? then Trace(Away, [], {}) else tr
  }

  /** The trace of thread `t` in a run. */
  function TraceOf(s: State, events: seq<Event>, t: Tid): Trace
    decreases |events|
  {
    if events == [] then Trace(Away, [], {})
    else
      var before, e := events[..|events| - 1], events[|events| - 1];
      Follow(TraceOf(s, before, t), Run(s, before), e, t)
  }

  function Follow(tr: Trace, s: State, e: Event, t: Tid): Trace {
    var s' := Step(s, e);
    if t >= |s.pcs| || t >= |s'.pcs| then tr
    else
      var own := if e.Thread? && e.t == t then Own(tr, s.ring, s.pcs[t], e.c, s'.ring, s'.pcs[t]) else tr;
      own.(lefts := own.lefts + {s'.ring.consumed})
  }

  // ---- The invariant ----

  /** A call accepts a prefix, something if there is anything to accept, and less than all only up to the end of the
      second mapping or up to a window set by a left offset that the queue had during the call. */
  ghost predicate Good(a: Answer, size: nat) {
    && a.n <= |a.buf|
    && (a.buf != [] ==> a.n > 0)
    && (a.n < |a.buf| ==> a.pos == 2 * size || exists l :: l in a.lefts && a.end == l + size)
  }

  ghost predicate AllGood(answers: seq<Answer>, size: nat) {
    forall a | a in answers :: Good(a, size)
  }

  /** What the callback has written stands behind the prefix. */
  predicate Carries(tr: Trace, w: Writer) {
    |w.staged| >= PREFIX && w.staged[PREFIX..] == Accepted(tr.answers)
  }

  predicate InWrite(pc: Pc) {
    RegionOf(pc) == Writing || RegionOf(pc) == Rebasing
  }

  ghost predicate CopyOk(r: Ring, w: Writer, buf: seq<byte>, n: nat, lefts: set<nat>) {
    && n <= |buf|
    && (buf != [] ==> n > 0)
    && (n < |buf| ==> w.right + |w.staged| + n == 2 * |r.mem|
                      || exists l :: l in lefts && r.committed + |w.staged| + n == l + |r.mem|)
  }

  /** The left offset in use is one the queue had during the call. */
  ghost predicate Seen(tr: Trace, r: Ring, pc: Pc) {
    match pc
    case WSyncStore(w, buf, left) => left + r.lapR in tr.lefts
    case WCopy(w, buf, n, i) => CopyOk(r, w, buf, n, tr.lefts)
    case _ => true
  }

  /** Where a thread stands, by its trace. */
  ghost predicate PhaseOk(tr: Trace, r: Ring, pc: Pc) {
    match tr.phase
    case Away => pc.Idle?
    case Heading =>
      && tr.answers == []
      && (|| pc.SLock? || pc.SLoad?
          || (pc.SCall? && |pc.w.staged| < PREFIX)
          || (InWrite(pc) && |pc.w.staged| + |pc.buf| == PREFIX))
    case Calling => pc.SCall? && Carries(tr, pc.w)
    case Open(buf) => InWrite(pc) && pc.buf == buf && Carries(tr, pc.w) && Seen(tr, r, pc)
    case Ended(ok) => if ok then (pc.SPrefix? || pc.SCommit?) && Carries(tr, pc.w) else pc.SUnlock?
    case Published => pc.SNotify? || pc.SWake? || pc.SUnlock?
    case Looking => InRecv(pc) && !ReleasePending(pc)
    case Took(_) => ReleasePending(pc)
  }

  ghost predicate TraceOk(tr: Trace, r: Ring, pc: Pc) {
    PhaseOk(tr, r, pc) && AllGood(tr.answers, |r.mem|)
  }

  // ---- A step of the thread itself ----

  /** The trace after a step of the thread to `pc'`. */
  ghost predicate OwnOk(tr: Trace, s: State, t: Tid, c: Choice, s': State) {
    && t < |s.pcs| == |s'.pcs|
    && var own := Own(tr, s.ring, s.pcs[t], c, s'.ring, s'.pcs[t]);
       TraceOk(own.(lefts := own.lefts + {s'.ring.consumed}), s'.ring, s'.pcs[t])
  }

  lemma LeftsGrow(tr: Trace, r: Ring, pc: Pc, lefts: set<nat>)
    requires TraceOk(tr, r, pc) && tr.lefts <= lefts
    ensures TraceOk(tr.(lefts := lefts), r, pc)
  {
    hide Accepted;
  }

  lemma AcceptedMore(answers: seq<Answer>, a: Answer)
    requires a.n <= |a.buf|
    ensures Accepted(answers + [a]) == Accepted(answers) + a.buf[..a.n]
  {
    assert (answers + [a])[..|answers|] == answers;
  }

  lemma SendTraced(tr: Trace, s: State, t: Tid, c: Choice)
    requires t < |s.pcs| && RegionOf(s.pcs[t]) == Sending && !s.pcs[t].SCall? && TraceOk(tr, s.ring, s.pcs[t])
    requires |SendStep(s, t, c).pcs| == |s.pcs|
    ensures OwnOk(tr, s, t, c, SendStep(s, t, c))
  {
    hide Accepted, Good, Store, LittleEndian, Seen;
  }

  lemma CallTraced(tr: Trace, s: State, t: Tid, c: Choice)
    requires t < |s.pcs| && s.pcs[t].SCall? && TraceOk(tr, s.ring, s.pcs[t]) && PcInv(s.ring, s.pcs[t])
    ensures OwnOk(tr, s, t, c, SendStep(s, t, c))
  {
    hide Accepted, Good, Store, LittleEndian, Holds;
  }

  lemma BranchShape(size: nat, w: Writer, buf: seq<byte>, left: nat)
    ensures var pc := Branch(size, w, buf, left);
            InWrite(pc) && pc.w == w && pc.buf == buf && !pc.WSyncStore?
  {
    hide PlanWrite;
  }

  /** The plan from a left offset of the call, or from a cached one that serves, leads to a good copy. */
  lemma BranchTraced(tr: Trace, r: Ring, w: Writer, buf: seq<byte>, left: nat)
    requires RingInv(r) && WriterOk(r, w)
    requires left <= r.left && w.right + |w.staged| <= left + |r.mem|
    requires left + r.lapR in tr.lefts || CacheServes(left, |r.mem|, Position(w), |buf|)
    ensures Seen(tr, r, Branch(|r.mem|, w, buf, left))
  {
    hide Holds, EncodeAll, PlanWrite;
    PositionExact(r, w);
    PlanMeaning(|r.mem|, Position(w), |buf|, left);
  }

  /** A step within a call of write that does not end it. */
  lemma OpenKept(tr: Trace, s: State, t: Tid, c: Choice, s': State)
    requires t < |s.pcs| == |s'.pcs| && TraceOk(tr, s.ring, s.pcs[t]) && InWrite(s.pcs[t])
    requires InWrite(s'.pcs[t]) && s'.pcs[t].buf == s.pcs[t].buf && s'.pcs[t].w.staged == s.pcs[t].w.staged
    requires |s'.ring.mem| == |s.ring.mem|
    requires tr.phase.Open? ==> Seen(tr.(lefts := tr.lefts + {s'.ring.consumed}), s'.ring, s'.pcs[t])
    ensures OwnOk(tr, s, t, c, s')
  {
    hide Accepted, Good, Seen;
  }

  lemma ServesBelow(cached: nat, left: nat, size: nat, pos: nat, len: nat)
    requires CacheServes(cached, size, pos, len) && (cached == U32_MAX || cached <= left)
    ensures cached <= left && pos <= cached + size
  {
  }

  lemma SyncedTraced(tr: Trace, s: State, t: Tid, c: Choice)
    requires t < |s.pcs| && s.pcs[t].WSyncStore? && TraceOk(tr, s.ring, s.pcs[t])
    requires RingInv(s.ring) && PcInv(s.ring, s.pcs[t])
    ensures OwnOk(tr, s, t, c, WriteStep(s, t, c))
  {
    hide RingInv, WriterOk, Branch, Accepted, CopyOk, OwnOk, AllGood;
    var w, buf, left := s.pcs[t].w, s.pcs[t].buf, s.pcs[t].left;
    BranchShape(|s.ring.mem|, w, buf, left);
    if tr.phase.Open? {
      BranchTraced(tr.(lefts := tr.lefts + {s.ring.consumed}), s.ring, w, buf, left);
    }
    OpenKept(tr, s, t, c, WriteStep(s, t, c));
  }

  lemma CachedTraced(tr: Trace, s: State, t: Tid, c: Choice)
    requires t < |s.pcs| && s.pcs[t].WCache? && TraceOk(tr, s.ring, s.pcs[t])
    requires RingInv(s.ring) && PcInv(s.ring, s.pcs[t]) && Surroundings(s, s.pcs[t])
    ensures OwnOk(tr, s, t, c, WriteStep(s, t, c))
  {
    hide RingInv, WriterOk, Branch, CacheServes, Position, Accepted, CopyOk, OwnOk, AllGood;
    var w, buf := s.pcs[t].w, s.pcs[t].buf;
    if CacheServes(s.rightCached, |s.ring.mem|, Position(w), |buf|) {
      BranchShape(|s.ring.mem|, w, buf, s.rightCached);
      PositionExact(s.ring, w);
      ServesBelow(s.rightCached, s.ring.left, |s.ring.mem|, Position(w), |buf|);
      BranchTraced(tr.(lefts := tr.lefts + {s.ring.consumed}), s.ring, w, buf, s.rightCached);
    }
    OpenKept(tr, s, t, c, WriteStep(s, t, c));
  }

  lemma LoadTraced(tr: Trace, s: State, t: Tid, c: Choice)
    requires t < |s.pcs| && s.pcs[t].WSync? && TraceOk(tr, s.ring, s.pcs[t])
    requires RingInv(s.ring) && PcInv(s.ring, s.pcs[t])
    ensures OwnOk(tr, s, t, c, WriteStep(s, t, c))
  {
    hide Holds, EncodeAll, Accepted, OwnOk, AllGood;
    OpenKept(tr, s, t, c, WriteStep(s, t, c));
  }

  /** The steps of the wait branch. */
  lemma BlockTraced(tr: Trace, s: State, t: Tid, c: Choice)
    requires t < |s.pcs| && BlocksLeft(s.pcs[t]) && TraceOk(tr, s.ring, s.pcs[t])
    ensures OwnOk(tr, s, t, c, WriteStep(s, t, c))
  {
    hide Accepted, OwnOk, AllGood, Add32, Sub32;
    OpenKept(tr, s, t, c, WriteStep(s, t, c));
  }

  lemma FixTraced(tr: Trace, s: State, t: Tid, c: Choice)
    requires t < |s.pcs| && RegionOf(s.pcs[t]) == Rebasing && TraceOk(tr, s.ring, s.pcs[t])
    ensures OwnOk(tr, s, t, c, FixStep(s, t))
  {
    hide Accepted, OwnOk, AllGood, Position, Sub32;
    OpenKept(tr, s, t, c, FixStep(s, t));
  }

  /** A part of a copy. */
  lemma CopyTraced(tr: Trace, s: State, t: Tid, c: Choice)
    requires t < |s.pcs| && s.pcs[t].WCopy? && TraceOk(tr, s.ring, s.pcs[t]) && PcInv(s.ring, s.pcs[t])
    requires s.pcs[t].i < s.pcs[t].n
    ensures OwnOk(tr, s, t, c, WriteStep(s, t, c))
  {
    hide Accepted, OwnOk, AllGood, Store, Position;
    OpenKept(tr, s, t, c, WriteStep(s, t, c));
  }

  /** The answer of a call of write by the callback. */
  lemma AnswerTraced(tr: Trace, s: State, t: Tid, c: Choice)
    requires t < |s.pcs| && s.pcs[t].WCopy? && TraceOk(tr, s.ring, s.pcs[t]) && PcInv(s.ring, s.pcs[t])
    requires s.pcs[t].i >= s.pcs[t].n && tr.phase.Open?
    ensures OwnOk(tr, s, t, c, WriteStep(s, t, c))
  {
    hide Accepted, Holds;
    var w, buf, n := s.pcs[t].w, s.pcs[t].buf, s.pcs[t].n;
    var staged := w.staged + buf[..n];
    var a := Answer(buf, n, w.right + |staged|, s.ring.committed + |staged|, tr.lefts);
    AcceptedMore(tr.answers, a);
    assert staged[PREFIX..] == w.staged[PREFIX..] + buf[..n];
    assert Own(tr, s.ring, s.pcs[t], c, s.ring, SCall(w.(staged := staged))).answers == tr.answers + [a];
  }

  lemma HeadTraced(tr: Trace, s: State, t: Tid, c: Choice)
    requires t < |s.pcs| && s.pcs[t].WCopy? && TraceOk(tr, s.ring, s.pcs[t]) && PcInv(s.ring, s.pcs[t])
    requires s.pcs[t].i >= s.pcs[t].n && tr.phase.Heading?
    ensures OwnOk(tr, s, t, c, WriteStep(s, t, c))
  {
    hide Holds;
  }

  lemma RecvTraced(tr: Trace, s: State, t: Tid, c: Choice)
    requires t < |s.pcs| && RegionOf(s.pcs[t]) == Receiving && TraceOk(tr, s.ring, s.pcs[t])
    ensures OwnOk(tr, s, t, c, RecvStep(s, t))
  {
    hide Accepted, Good, Carries, Seen;
  }

  lemma DeliverTraced(tr: Trace, s: State, t: Tid, c: Choice)
    requires t < |s.pcs| && RegionOf(s.pcs[t]) == Delivering && TraceOk(tr, s.ring, s.pcs[t])
    requires |DeliverStep(s, t, c).pcs| == |s.pcs|
    ensures OwnOk(tr, s, t, c, DeliverStep(s, t, c))
  {
    hide Accepted, Good, Carries, Seen, ReadPrefix, Load, Add32, Trunc32;
  }

  lemma WaitTraced(tr: Trace, s: State, t: Tid, c: Choice)
    requires t < |s.pcs| && RegionOf(s.pcs[t]) == Waiting && TraceOk(tr, s.ring, s.pcs[t])
    ensures OwnOk(tr, s, t, c, WaitStep(s, t, c))
  {
    hide Accepted, Good, Carries, Seen, Add32, Sub32;
  }

  lemma IdleTraced(tr: Trace, s: State, t: Tid, c: Choice)
    requires t < |s.pcs| && s.pcs[t].Idle? && TraceOk(tr, s.ring, s.pcs[t])
    ensures OwnOk(tr, s, t, c, Step(s, Thread(t, c)))
  {
    hide Accepted, Good, Carries, Seen;
  }

  lemma WriteTraced(tr: Trace, s: State, t: Tid, c: Choice)
    requires t < |s.pcs| && RegionOf(s.pcs[t]) == Writing && TraceOk(tr, s.ring, s.pcs[t])
    requires RingInv(s.ring) && PcInv(s.ring, s.pcs[t]) && Surroundings(s, s.pcs[t])
    ensures OwnOk(tr, s, t, c, WriteStep(s, t, c))
  {
    hide RingInv, PcInv, Surroundings, Accepted, AllGood, Carries, Seen, OwnOk, WriteStep;
    var pc := s.pcs[t];
    if pc.WSyncStore? { SyncedTraced(tr, s, t, c); }
    else if pc.WCache? { CachedTraced(tr, s, t, c); }
    else if pc.WSync? { LoadTraced(tr, s, t, c); }
    else if BlocksLeft(pc) { BlockTraced(tr, s, t, c); }
    else if pc.i < pc.n { CopyTraced(tr, s, t, c); }
    else if tr.phase.Open? { AnswerTraced(tr, s, t, c); }
    else { HeadTraced(tr, s, t, c); }
  }

  lemma OwnTraced(tr: Trace, s: State, t: Tid, c: Choice)
    requires t < |s.pcs| && TraceOk(tr, s.ring, s.pcs[t])
    requires RingInv(s.ring) && PcInv(s.ring, s.pcs[t]) && Surroundings(s, s.pcs[t])
    ensures OwnOk(tr, s, t, c, Step(s, Thread(t, c)))
  {
    StepMoves(s, t, c);
    hide RingInv, PcInv, Surroundings, Moves, TraceOk, OwnOk,
      SendStep, WriteStep, FixStep, RecvStep, DeliverStep, WaitStep;
    match RegionOf(s.pcs[t])
    case Outside => IdleTraced(tr, s, t, c);
    case Sending => if s.pcs[t].SCall? { CallTraced(tr, s, t, c); } else { SendTraced(tr, s, t, c); }
    case Writing => WriteTraced(tr, s, t, c);
    case Rebasing => FixTraced(tr, s, t, c);
    case Receiving => RecvTraced(tr, s, t, c);
    case Delivering => DeliverTraced(tr, s, t, c);
    case Waiting => WaitTraced(tr, s, t, c);
  }

  // ---- A step of somebody else ----

  /** What a copy is measured against. */
  predicate SameGauge(r: Ring, r': Ring) {
    |r'.mem| == |r.mem| && r'.committed == r.committed && r'.lapR == r.lapR
  }

  lemma GaugeKept(r: Ring, r': Ring)
    requires RingInv(r) && RingInv(r') && r'.sent == r.sent && |r'.mem| == |r.mem| && r'.lapR == r.lapR
    ensures SameGauge(r, r')
  {
    hide RingInv;
    SizeOfSent(r);
    SizeOfSent(r');
  }

  lemma SparedTraced(tr: Trace, r: Ring, pc: Pc, r': Ring, pc': Pc, lefts: set<nat>)
    requires TraceOk(tr, r, pc) && (pc' == pc || Woken(pc, pc')) && tr.lefts <= lefts
    requires |r'.mem| == |r.mem| && (HoldsRight(pc) ==> SameGauge(r, r'))
    ensures TraceOk(tr.(lefts := lefts), r', pc')
  {
    hide Accepted;
  }

  lemma OthersTraced(tr: Trace, s: State, u: Tid, s': State, t: Tid)
    requires Moves(s, u, s') && OffsetMove(s, u, s') && RingInv(s.ring) && RingInv(s'.ring)
    requires LockInv(s.pcs, s.rightLock, HoldsRight) && LockInv(s'.pcs, s'.rightLock, HoldsRight)
    requires t < |s.pcs| && u != t && TraceOk(tr, s.ring, s.pcs[t])
    ensures TraceOk(tr.(lefts := tr.lefts + {s'.ring.consumed}), s'.ring, s'.pcs[t])
  {
    hide RingInv, TraceOk, LockMove, CountMove, LockInv, SameGauge;
    if HoldsRight(s.pcs[t]) {
      AloneRight(s, t);
      assert HoldsRight(s'.pcs[t]);
      AloneRight(s', t);
      GaugeKept(s.ring, s'.ring);
    }
    SparedTraced(tr, s.ring, s.pcs[t], s'.ring, s'.pcs[t], tr.lefts + {s'.ring.consumed});
  }

  // ---- Every event, every run ----

  lemma EventTraced(tr: Trace, s: State, e: Event, t: Tid)
    requires Inv(s) && t < |s.pcs| && TraceOk(tr, s.ring, s.pcs[t])
    ensures t < |Step(s, e).pcs| && TraceOk(Follow(tr, s, e, t), Step(s, e).ring, Step(s, e).pcs[t])
  {
    var s' := Step(s, e);
    if e.Thread? && e.t == t {
      hide RingInv, PcInv, AllPcs, LockInv, CachesInv, WaitersInv, Settled, Step, Own, TraceOk, Surroundings;
      AllPcsAt(s, t);
      SurroundingsHold(s, t);
      OwnTraced(tr, s, t, e.c);
    } else if e.Thread? && e.t < |s.pcs| && s' != s {
      hide RingInv, PcInv, AllPcs, CachesInv, WaitersInv, Settled, Step, Own, TraceOk, OffsetMove;
      AllPcsAt(s, e.t);
      StepKeepsInv(s, e);
      StepMoves(s, e.t, e.c);
      StepCaches(s, e.t, e.c);
      OthersTraced(tr, s, e.t, s', t);
    } else {
      hide Own;
      assert s'.pcs == s.pcs && s'.ring == s.ring;
      LeftsGrow(tr, s.ring, s.pcs[t], tr.lefts + {s'.ring.consumed});
    }
  }

  lemma {:induction false} AlwaysTraced(mem: Memory, threads: nat, events: seq<Event>, t: Tid)
    requires threads <= U32_MAX && t < threads
    ensures var s := After(mem, threads, events);
            t < |s.pcs| && TraceOk(TraceOf(Init(mem, threads), events, t), s.ring, s.pcs[t])
    decreases |events|
  {
    if events != [] {
      hide Inv, Step, TraceOk, Follow;
      var before := events[..|events| - 1];
      AlwaysInv(mem, threads, before);
      AlwaysTraced(mem, threads, before, t);
      EventTraced(TraceOf(Init(mem, threads), before, t), After(mem, threads, before), events[|events| - 1], t);
    }
  }

  // ---- What is sent and received ----

  /** For every message of `sent`, the answers of the calls of its callback. */
  ghost function Ledger(s: State, events: seq<Event>): seq<seq<Answer>>
    decreases |events|
  {
    if events == [] then []
    else
      var before, e := events[..|events| - 1], events[|events| - 1];
      Ledger(s, before)
      + if e.Thread? && |Run(s, events).ring.sent| > |Run(s, before).ring.sent| then [TraceOf(s, before, e.t).answers]
        else []
  }

  lemma CommitTraced(tr: Trace, s: State, t: Tid, c: Choice)
    requires Inv(s) && t < |s.pcs| && TraceOk(tr, s.ring, s.pcs[t])
    ensures var r, r' := s.ring, Step(s, Thread(t, c)).ring;
            r'.sent == r.sent || (tr.phase == Ended(true) && r'.sent == r.sent + [Accepted(tr.answers)])
  {
    if Step(s, Thread(t, c)) != s {
      hide Inv, Step, Accepted, AllGood;
      HistoryKept(s, t, c);
    }
  }

  /** A message is published only by a send whose callback has returned Ok, and it is what the calls of this callback
      accepted.  So a send that fails leaves no trace, even if it has rebased the ring. */
  lemma OnlyDoneSends(mem: Memory, threads: nat, events: seq<Event>, e: Event)
    requires threads <= U32_MAX
    ensures var r, r' := After(mem, threads, events).ring, After(mem, threads, events + [e]).ring;
            r'.sent == r.sent
            || (e.Thread? && e.t < threads
                && var tr := TraceOf(Init(mem, threads), events, e.t);
                   tr.phase == Ended(true) && r'.sent == r.sent + [Accepted(tr.answers)])
  {
    hide Inv, Step, TraceOk, Follow, TraceOf, Accepted;
    var s := After(mem, threads, events);
    RunOneMore(Init(mem, threads), events, e);
    AlwaysInv(mem, threads, events);
    ThreadsKept(mem, threads, events);
    if e.Thread? && e.t < threads {
      AlwaysTraced(mem, threads, events, e.t);
      CommitTraced(TraceOf(Init(mem, threads), events, e.t), s, e.t, e.c);
    } else {
      NobodySteps(s, e);
    }
  }

  lemma NobodySteps(s: State, e: Event)
    requires !e.Thread? || e.t >= |s.pcs|
    ensures Step(s, e).ring == s.ring && Step(s, e).pcs == s.pcs
  {
  }

  lemma {:induction false} ThreadsKept(mem: Memory, threads: nat, events: seq<Event>)
    ensures |After(mem, threads, events).pcs| == threads
    decreases |events|
  {
    if events != [] {
      hide Step;
      var before, e := events[..|events| - 1], events[|events| - 1];
      ThreadsKept(mem, threads, before);
      if e.Thread? && e.t < threads { StepMoves(After(mem, threads, before), e.t, e.c); }
      else { NobodySteps(After(mem, threads, before), e); }
    }
  }

  /** Send atomicity, for all interleavings: every message that was ever sent is, byte for byte and in order, what the
      calls of write of one callback accepted, and each call accepted a prefix of its own buffer: something if there
      was anything, and less than all only where the window ended. */
  lemma {:induction false} SentIsWritten(mem: Memory, threads: nat, events: seq<Event>)
    requires threads <= U32_MAX
    ensures var r, ledger := After(mem, threads, events).ring, Ledger(Init(mem, threads), events);
            && |ledger| == |r.sent|
            && forall i | 0 <= i < |ledger| :: r.sent[i] == Accepted(ledger[i]) && AllGood(ledger[i], |mem|)
    decreases |events|
  {
    if events != [] {
      hide Step, Accepted, AllGood, TraceOf;
      var before, e := events[..|events| - 1], events[|events| - 1];
      assert before + [e] == events;
      SentIsWritten(mem, threads, before);
      OnlyDoneSends(mem, threads, before, e);
      if e.Thread? && e.t < threads { AnswersGood(mem, threads, before, e.t); }
    }
  }

  lemma AnswersGood(mem: Memory, threads: nat, events: seq<Event>, t: Tid)
    requires threads <= U32_MAX && t < threads
    ensures AllGood(TraceOf(Init(mem, threads), events, t).answers, |mem|)
  {
    hide TraceOf, Run, Init, PhaseOk, AllGood;
    AlwaysTraced(mem, threads, events, t);
    SizeKept(mem, threads, events);
  }

  lemma {:induction false} SizeKept(mem: Memory, threads: nat, events: seq<Event>)
    requires threads <= U32_MAX
    ensures |After(mem, threads, events).ring.mem| == |mem|
    decreases |events|
  {
    if events != [] {
      hide Step, Inv;
      var before, e := events[..|events| - 1], events[|events| - 1];
      var s := After(mem, threads, before);
      SizeKept(mem, threads, before);
      AlwaysInv(mem, threads, before);
      if e.Thread? && e.t < |s.pcs| {
        if Step(s, e) != s { HistoryKept(s, e.t, e.c); }
      } else {
        NobodySteps(s, e);
      }
    }
  }

  // ---- Failed sends ----

  /** In no send that can still publish. */
  predicate Harmless(phase: Phase) {
    phase.Away? || phase == Ended(false) || phase.Published? || phase.Looking? || phase.Took?
  }

  predicate SendsNothing(events: seq<Event>, t: Tid) {
    forall e | e in events :: e.Thread? && e.t == t ==> !e.c.Send?
  }

  lemma HarmlessStep(tr: Trace, s: State, e: Event, t: Tid)
    requires Harmless(tr.phase) && (e.Thread? && e.t == t ==> !e.c.Send?)
    ensures Harmless(Follow(tr, s, e, t).phase)
  {
    hide Step, Accepted;
  }

  lemma {:induction false} HarmlessKept(s: State, events: seq<Event>, t: Tid, more: seq<Event>)
    requires Harmless(TraceOf(s, events, t).phase) && SendsNothing(more, t)
    ensures Harmless(TraceOf(s, events + more, t).phase)
    decreases |more|
  {
    if more == [] {
      assert events + more == events;
    } else {
      hide Step, Run, Follow;
      var before, e := more[..|more| - 1], more[|more| - 1];
      assert (events + more)[..|events + more| - 1] == events + before && (events + more)[|events + more| - 1] == e;
      assert e in more;
      HarmlessKept(s, events, t, before);
      HarmlessStep(TraceOf(s, events + before, t), Run(s, events + before), e, t);
    }
  }

  lemma HarmlessPlace(tr: Trace, s: State, t: Tid, c: Choice)
    requires Inv(s) && t < |s.pcs| && TraceOk(tr, s.ring, s.pcs[t]) && Harmless(tr.phase)
    ensures !s.pcs[t].SPrefix? && !s.pcs[t].SCommit? && Step(s, Thread(t, c)).ring.sent == s.ring.sent
  {
    hide Step, Inv, Accepted;
    CommitTraced(tr, s, t, c);
  }

  /** A callback that returns Err: whatever happens afterwards, until the thread sends again it never gets to store a
      prefix or to commit, and none of its steps adds to what was sent. */
  lemma FailedSend(mem: Memory, threads: nat, events: seq<Event>, t: Tid, more: seq<Event>, c: Choice)
    requires threads <= U32_MAX && t < threads && SendsNothing(more, t)
    requires TraceOf(Init(mem, threads), events, t).phase == Calling
    ensures var s := After(mem, threads, events + [Thread(t, Fail)] + more);
            && t < |s.pcs| && !s.pcs[t].SPrefix? && !s.pcs[t].SCommit?
            && Step(s, Thread(t, c)).ring.sent == s.ring.sent
  {
    hide Step, Inv, TraceOk, Run, Init;
    var start, failed := Init(mem, threads), events + [Thread(t, Fail)];
    ThreadsKept(mem, threads, events);
    ThreadsKept(mem, threads, failed);
    RunOneMore(start, events, Thread(t, Fail));
    assert failed[..|failed| - 1] == events;
    HarmlessKept(start, failed, t, more);
    AlwaysInv(mem, threads, failed + more);
    AlwaysTraced(mem, threads, failed + more, t);
    HarmlessPlace(TraceOf(start, failed + more, t), After(mem, threads, failed + more), t, c);
  }

  // ---- Calls that return ----

  /** A thread in the callback's turn: a call of write is refused exactly if the payload would leave less than two
      prefixes of the data area. */
  lemma RefusedExactly(mem: Memory, threads: nat, events: seq<Event>, t: Tid, buf: seq<byte>)
    requires threads <= U32_MAX && t < threads && TraceOf(Init(mem, threads), events, t).phase == Calling
    ensures var s, tr := After(mem, threads, events), TraceOf(Init(mem, threads), events, t);
            var s' := Step(s, Thread(t, Write(buf)));
            && t < |s.pcs| == |s'.pcs|
            && (s' == s <==> |Accepted(tr.answers)| + |buf| + 2 * PREFIX > |mem|)
            && (s' != s ==> InWrite(s'.pcs[t]) && s'.pcs[t].buf == buf)
  {
    hide TraceOf, Run, Init, Accepted, AllGood;
    SizeKept(mem, threads, events);
    AlwaysTraced(mem, threads, events, t);
    var s := After(mem, threads, events);
    assert Step(s, Thread(t, Write(buf))) == SendStep(s, t, Write(buf));
  }

  /** A message is taken only by a call of recv that has none so far ... */
  lemma OnlyLookingTakes(mem: Memory, threads: nat, events: seq<Event>, e: Event)
    requires threads <= U32_MAX
    ensures var r, r' := After(mem, threads, events).ring, After(mem, threads, events + [e]).ring;
            r'.got == r.got
            || (e.Thread? && e.t < threads && TraceOf(Init(mem, threads), events, e.t).phase == Looking
                && var tr := TraceOf(Init(mem, threads), events + [e], e.t);
                   tr.phase.Took? && r'.got == r.got + [tr.phase.m])
  {
    hide Inv, Step, TraceOk, Accepted;
    var s := After(mem, threads, events);
    RunOneMore(Init(mem, threads), events, e);
    AlwaysInv(mem, threads, events);
    ThreadsKept(mem, threads, events);
    ThreadsKept(mem, threads, events + [e]);
    if e.Thread? && e.t < threads {
      AlwaysTraced(mem, threads, events, e.t);
      assert (events + [e])[..|events|] == events;
      if Step(s, e) != s {
        HistoryKept(s, e.t, e.c);
        if s.pcs[e.t].RCommit? { CommitLooks(TraceOf(Init(mem, threads), events, e.t), s.ring, s.pcs[e.t]); }
      }
    } else {
      NobodySteps(s, e);
    }
  }

  lemma CommitLooks(tr: Trace, r: Ring, pc: Pc)
    requires TraceOk(tr, r, pc) && pc.RCommit?
    ensures tr.phase == Looking
  {
    hide Accepted;
  }

  /** ... and a call returns only with its work done: recv with one message taken, send with its message published or
      its callback failed. */
  lemma ReturnsDone(mem: Memory, threads: nat, events: seq<Event>, t: Tid, c: Choice)
    requires threads <= U32_MAX && t < threads
    ensures var s := After(mem, threads, events);
            var s' := Step(s, Thread(t, c));
            var phase := TraceOf(Init(mem, threads), events, t).phase;
            && t < |s.pcs| == |s'.pcs|
            && (s'.pcs[t].Idle? && InRecv(s.pcs[t]) ==> phase.Took?)
            && (s'.pcs[t].Idle? && InSend(s.pcs[t]) ==> phase == Published || phase == Ended(false))
  {
    hide Run, Init, TraceOf, Accepted, AllGood, Carries, Seen, Inv;
    var s := After(mem, threads, events);
    AlwaysTraced(mem, threads, events, t);
    AlwaysInv(mem, threads, events);
    EventTraced(TraceOf(Init(mem, threads), events, t), s, Thread(t, c), t);
    StepMoves(s, t, c);
    hide Step, Moves;
    MovesLength(s, t, Step(s, Thread(t, c)));
  }
}
