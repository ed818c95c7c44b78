/** The queue as a step system: any number of threads inside `send`, `recv` or neither, one access to shared
    memory per step, every interleaving.  The two locks are the atomic locks that the futex mutex refines. */
module Protocol {
  import opened Bytes
  import opened Framing
  import opened RingMemory
  import opened WritePlan

  type Tid = nat

  /** The data area, the two offsets and the history of what was sent and received.
      `lapL` and `lapR` are the bytes by which rebases have moved the offsets back,
      `consumed` and `committed` the bytes ever released by receivers and ever published by senders. */
  datatype Ring = Ring(
    mem: Memory, left: nat, right: nat,
    lapL: nat, lapR: nat, rebases: nat,
    consumed: nat, committed: nat,
    sent: seq<Message>, got: seq<Message>)

  /** A `MemeWriter`: `right_offset`, and the bytes staged so far (`total_written` is their number).
      `fixes` counts the rebases of this send. */
  datatype Writer = Writer(right: nat, staged: seq<byte>, fixes: nat)

  datatype Pc =
    | Idle
    // send
    | SLock
    | SLoad
    | SCall(w: Writer)                                        // between two calls of write
    | SPrefix(w: Writer)
    | SCommit(w: Writer)
    | SNotify
    | SWake
    | SUnlock
    // write, inside send
    | WCache(w: Writer, buf: seq<byte>)
    | WSync(w: Writer, buf: seq<byte>)
    | WSyncStore(w: Writer, buf: seq<byte>, left: nat)
    | WCopy(w: Writer, buf: seq<byte>, n: nat, i: nat)
    // the rebase branch of write
    | WLock(w: Writer, buf: seq<byte>)
    | WLoad(w: Writer, buf: seq<byte>)
    | WFix0(w: Writer, buf: seq<byte>, newLeft: nat, newRight: nat)
    | WFix1(w: Writer, buf: seq<byte>, newLeft: nat, newRight: nat)
    | WFix2(w: Writer, buf: seq<byte>, newLeft: nat, newRight: nat)
    | WFix3(w: Writer, buf: seq<byte>, newLeft: nat, newRight: nat)
    | WUnlock(w: Writer, buf: seq<byte>, newRight: nat)
    // the wait branch of write
    | WSpin(w: Writer, buf: seq<byte>, e: nat)
    | WCompare(w: Writer, buf: seq<byte>, e: nat)
    | WAsleep(w: Writer, buf: seq<byte>, e: nat)
    | WLeave(w: Writer, buf: seq<byte>)
    // recv
    | RLock
    | RLoad
    | RCache(l: nat)
    | RSync(l: nat)
    | RSyncStore(l: nat, r: nat, at: nat, laps: nat)
    | RSize(l: nat)
    | RRead(l: nat, size: nat, bytes: seq<byte>)
    | RCommit(l: nat, size: nat, bytes: seq<byte>)
    | RUnlock
    | RNotify
    | RWake
    // recv on an empty queue; `at` and `laps` are the committed bytes and the rebases when `e` was loaded
    | RUnlockEmpty(e: nat, at: nat, laps: nat)
    | RSpin(e: nat, at: nat, laps: nat)
    | RCompare(e: nat, at: nat, laps: nat)
    | RAsleep(e: nat, at: nat, laps: nat)
    | RLeave

  /** The header page: `leftCached` is the copy of the right offset kept beside the left one, and conversely. */
  datatype State = State(
    ring: Ring,
    leftLock: Lock, rightLock: Lock,
    leftCached: nat, rightCached: nat,
    leftWaiters: nat, rightWaiters: nat,
    pcs: seq<Pc>)

  datatype Lock = Free | Taken(owner: Tid)

  /** What a step leaves open. */
  datatype Choice =
    | Go                       // the only way on
    | Send | Recv              // what an idle thread calls
    | Write(buf: seq<byte>)    // the send callback writes once more ...
    | Done                     // ... or returns Ok ...
    | Fail                     // ... or returns Err
    | Chunk(n: nat)            // how many bytes of a copy happen at once
    | Look                     // wait: look at the offset once more before sleeping
    | Wake(who: Tid)           // whom the kernel wakes
    | Spurious                 // a sleep ends by itself

  /** A step of a thread, or one of the two stores with which an attaching process clears the caches. */
  datatype Event = Thread(t: Tid, c: Choice) | ClearLeftCache | ClearRightCache

  /** The owner has zeroed the header and cleared the caches; nobody is in a call. */
  function Init(mem: Memory, threads: nat): State {
    State(Ring(mem, 0, 0, 0, 0, 0, 0, 0, [], []), Free, Free, U32_MAX, U32_MAX, 0, 0, seq(threads, _ => Idle))
  }

  function At(s: State, t: Tid, pc: Pc): State
    requires t < |s.pcs|
  {
    s.(pcs := s.pcs[t := pc])
  }

  // ---- Changes of the ring ----

  function StoreBytes(r: Ring, v: nat, b: seq<byte>): Ring {
    r.(mem := Store(r.mem, v, b))
  }

  /** `send` publishes the staged message. */
  function Publish(r: Ring, w: Writer): Ring {
    r.(right := Add32(w.right, |w.staged|),
       committed := r.committed + |w.staged|,
       sent := r.sent + [if |w.staged| >= PREFIX then w.staged[PREFIX..] else []])
  }

  /** `recv` releases the message it has delivered. */
  function Release(r: Ring, l: nat, size: nat, bytes: seq<byte>): Ring {
    r.(left := Add32(Add32(l, PREFIX), Trunc32(size)),
       consumed := r.consumed + PREFIX + |bytes|,
       got := r.got + [bytes])
  }

  function FixLeft(r: Ring, newLeft: nat): Ring {
    r.(left := newLeft, lapL := r.lapL + |r.mem|)
  }

  function FixRight(r: Ring, newRight: nat): Ring {
    r.(right := newRight, lapR := r.lapR + |r.mem|, rebases := r.rebases + 1)
  }

  // ---- send ----

  function Position(w: Writer): nat { Add32(w.right, |w.staged|) }

  function SendStep(s: State, t: Tid, c: Choice): State
    requires t < |s.pcs|
  {
    var size := |s.ring.mem|;
    match s.pcs[t]
    case SLock => if s.rightLock.Free? then At(s, t, SLoad).(rightLock := Taken(t)) else s
    case SLoad => At(s, t, SCall(Writer(s.ring.right, [], 0)))
    case SCall(w) =>
      if |w.staged| < PREFIX then
        // write_all of the zeroed prefix
        if TooMuch(size, |w.staged|, PREFIX - |w.staged|) then At(s, t, SUnlock)
        else At(s, t, WCache(w, Zeros(PREFIX - |w.staged|)))
      else (
        match c
        case Write(buf) => if TooMuch(size, |w.staged|, |buf|) then s else At(s, t, WCache(w, buf))
        case Done => At(s, t, SPrefix(w))
        case Fail => At(s, t, SUnlock)
        case _ => s
      )
    case SPrefix(w) =>
      if |w.staged| < PREFIX then s else
      var prefix := LittleEndian(|w.staged| - PREFIX, PREFIX);
      At(s, t, SCommit(w.(staged := prefix + w.staged[PREFIX..]))).(ring := StoreBytes(s.ring, w.right, prefix))
    case SCommit(w) => At(s, t, SNotify).(ring := Publish(s.ring, w))
    case SNotify => At(s, t, if s.rightWaiters != 0 then SWake else SUnlock)
    case SWake =>
      if c.Wake? && c.who < |s.pcs| && s.pcs[c.who].RAsleep? then At(At(s, c.who, RLeave), t, SUnlock)
      else if exists u | 0 <= u < |s.pcs| :: s.pcs[u].RAsleep? then s
      else At(s, t, SUnlock)
    case SUnlock => At(s, t, Idle).(rightLock := Free)
    case _ => s
  }

  // ---- write ----

  function Branch(size: nat, w: Writer, buf: seq<byte>, left: nat): Pc {
    match PlanWrite(size, Position(w), |buf|, left)
    case Copy(n) => WCopy(w, buf, n, 0)
    case Rebase => WLock(w, buf)
    case Wait => WSpin(w, buf, left)
  }

  function WriteStep(s: State, t: Tid, c: Choice): State
    requires t < |s.pcs|
  {
    var size := |s.ring.mem|;
    match s.pcs[t]
    case WCache(w, buf) =>
      if CacheServes(s.rightCached, size, Position(w), |buf|) then At(s, t, Branch(size, w, buf, s.rightCached))
      else At(s, t, WSync(w, buf))
    case WSync(w, buf) => At(s, t, WSyncStore(w, buf, s.ring.left))
    case WSyncStore(w, buf, left) => At(s, t, Branch(size, w, buf, left)).(rightCached := left)
    case WCopy(w, buf, n, i) =>
      if i < n <= |buf| then
        if c.Chunk? && 1 <= c.n <= n - i then
          At(s, t, WCopy(w, buf, n, i + c.n)).(ring := StoreBytes(s.ring, Position(w) + i, buf[i..i + c.n]))
        else s
      else if n <= |buf| then At(s, t, SCall(w.(staged := w.staged + buf[..n])))
      else s
    case WSpin(w, buf, e) =>
      if c.Look? then (if s.ring.left != e then At(s, t, WCache(w, buf)) else s)
      else At(s, t, WCompare(w, buf, e)).(leftWaiters := Add32(s.leftWaiters, 1))
    case WCompare(w, buf, e) => At(s, t, if s.ring.left == e then WAsleep(w, buf, e) else WLeave(w, buf))
    case WAsleep(w, buf, e) => if c.Spurious? then At(s, t, WLeave(w, buf)) else s
    case WLeave(w, buf) => At(s, t, WCache(w, buf)).(leftWaiters := Sub32(s.leftWaiters, 1))
    case _ => s
  }

  /** The rebase branch of `write`: the four stores of `fix_offsets` are four steps. */
  function FixStep(s: State, t: Tid): State
    requires t < |s.pcs|
  {
    var size := |s.ring.mem|;
    match s.pcs[t]
    case WLock(w, buf) => if s.leftLock.Free? then At(s, t, WLoad(w, buf)).(leftLock := Taken(t)) else s
    case WLoad(w, buf) =>
      At(s, t, WFix0(w, buf, Sub32(s.ring.left, size), Sub32(Sub32(Position(w), |w.staged|), size)))
    case WFix0(w, buf, nl, nr) => At(s, t, WFix1(w, buf, nl, nr)).(ring := FixLeft(s.ring, nl))
    case WFix1(w, buf, nl, nr) => At(s, t, WFix2(w, buf, nl, nr)).(ring := FixRight(s.ring, nr))
    case WFix2(w, buf, nl, nr) => At(s, t, WFix3(w, buf, nl, nr)).(leftCached := nr)
    case WFix3(w, buf, nl, nr) => At(s, t, WUnlock(w, buf, nr)).(rightCached := nl)
    case WUnlock(w, buf, nr) => At(s, t, WCache(w.(right := nr, fixes := w.fixes + 1), buf)).(leftLock := Free)
    case _ => s
  }

  // ---- recv ----

  function RecvStep(s: State, t: Tid): State
    requires t < |s.pcs|
  {
    match s.pcs[t]
    case RLock => if s.leftLock.Free? then At(s, t, RLoad).(leftLock := Taken(t)) else s
    case RLoad => At(s, t, RCache(s.ring.left))
    case RCache(l) =>
      At(s, t, if s.leftCached != U32_MAX && s.leftCached > l then RSize(l) else RSync(l))
    case RSync(l) => At(s, t, RSyncStore(l, s.ring.right, s.ring.committed, s.ring.rebases))
    case RSyncStore(l, r, at, laps) =>
      At(s, t, if r > l then RSize(l) else RUnlockEmpty(r, at, laps)).(leftCached := r)
    case _ => s
  }

  /** `recv` on a message: the callback reads the slice in pieces, then the message is released. */
  function DeliverStep(s: State, t: Tid, c: Choice): State
    requires t < |s.pcs|
  {
    match s.pcs[t]
    case RSize(l) => At(s, t, RRead(l, ReadPrefix(s.ring.mem, l), []))
    case RRead(l, size, bytes) =>
      if |bytes| >= size then At(s, t, RCommit(l, size, bytes))
      else if c.Chunk? && 1 <= c.n <= size - |bytes| then
        At(s, t, RRead(l, size, bytes + Load(s.ring.mem, l + PREFIX + |bytes|, c.n)))
      else s
    case RCommit(l, size, bytes) => At(s, t, RUnlock).(ring := Release(s.ring, l, size, bytes))
    case RUnlock => At(s, t, RNotify).(leftLock := Free)
    case RNotify => At(s, t, if s.leftWaiters != 0 then RWake else Idle)
    case RWake =>
      if c.Wake? && c.who < |s.pcs| && s.pcs[c.who].WAsleep? then
        At(At(s, c.who, WLeave(s.pcs[c.who].w, s.pcs[c.who].buf)), t, Idle)
      else if exists u | 0 <= u < |s.pcs| :: s.pcs[u].WAsleep? then s
      else At(s, t, Idle)
    case _ => s
  }

  /** `recv` on an empty queue. */
  function WaitStep(s: State, t: Tid, c: Choice): State
    requires t < |s.pcs|
  {
    match s.pcs[t]
    case RUnlockEmpty(e, at, laps) => At(s, t, RSpin(e, at, laps)).(leftLock := Free)
    case RSpin(e, at, laps) =>
      if c.Look? then (if s.ring.right != e then At(s, t, RLock) else s)
      else At(s, t, RCompare(e, at, laps)).(rightWaiters := Add32(s.rightWaiters, 1))
    case RCompare(e, at, laps) =>
      At(s, t, if s.ring.right == e then RAsleep(e, at, laps) else RLeave)
    case RAsleep(e, at, laps) => if c.Spurious? then At(s, t, RLeave) else s
    case RLeave => At(s, t, RLock).(rightWaiters := Sub32(s.rightWaiters, 1))
    case _ => s
  }

  // ---- Runs ----

  /** The part of the code a thread is in. */
  datatype Region = Outside | Sending | Writing | Rebasing | Receiving | Delivering | Waiting

  function RegionOf(pc: Pc): Region {
    match pc
    case Idle => Outside
    case SLock => Sending
    case SLoad => Sending
    case SCall(_) => Sending
    case SPrefix(_) => Sending
    case SCommit(_) => Sending
    case SNotify => Sending
    case SWake => Sending
    case SUnlock => Sending
    case WCache(_, _) => Writing
    case WSync(_, _) => Writing
    case WSyncStore(_, _, _) => Writing
    case WCopy(_, _, _, _) => Writing
    case WSpin(_, _, _) => Writing
    case WCompare(_, _, _) => Writing
    case WAsleep(_, _, _) => Writing
    case WLeave(_, _) => Writing
    case WLock(_, _) => Rebasing
    case WLoad(_, _) => Rebasing
    case WFix0(_, _, _, _) => Rebasing
    case WFix1(_, _, _, _) => Rebasing
    case WFix2(_, _, _, _) => Rebasing
    case WFix3(_, _, _, _) => Rebasing
    case WUnlock(_, _, _) => Rebasing
    case RLock => Receiving
    case RLoad => Receiving
    case RCache(_) => Receiving
    case RSync(_) => Receiving
    case RSyncStore(_, _, _, _) => Receiving
    case RSize(_) => Delivering
    case RRead(_, _, _) => Delivering
    case RCommit(_, _, _) => Delivering
    case RUnlock => Delivering
    case RNotify => Delivering
    case RWake => Delivering
    case RUnlockEmpty(_, _, _) => Waiting
    case RSpin(_, _, _) => Waiting
    case RCompare(_, _, _) => Waiting
    case RAsleep(_, _, _) => Waiting
    case RLeave => Waiting
  }

  predicate InSend(pc: Pc) {
    RegionOf(pc) == Sending || RegionOf(pc) == Writing || RegionOf(pc) == Rebasing
  }

  predicate InRecv(pc: Pc) {
    RegionOf(pc) == Receiving || RegionOf(pc) == Delivering || RegionOf(pc) == Waiting
  }

  /** One event; a choice that is not possible leaves the state as it is. */
  function Step(s: State, e: Event): State {
    match e
    case ClearLeftCache => s.(leftCached := U32_MAX)
    case ClearRightCache => s.(rightCached := U32_MAX)
    case Thread(t, c) =>
      if t >= |s.pcs| then s
      else
        match RegionOf(s.pcs[t])
        case Outside => if c.Send? then At(s, t, SLock) else if c.Recv? then At(s, t, RLock) else s
        case Sending => SendStep(s, t, c)
        case Writing => WriteStep(s, t, c)
        case Rebasing => FixStep(s, t)
        case Receiving => RecvStep(s, t)
        case Delivering => DeliverStep(s, t, c)
        case Waiting => WaitStep(s, t, c)
  }

  function Run(s: State, events: seq<Event>): State
    decreases |events|
  {
    if events == [] then s else Step(Run(s, events[..|events| - 1]), events[|events| - 1])
  }

  lemma RunOneMore(s: State, events: seq<Event>, e: Event)
    ensures Run(s, events + [e]) == Step(Run(s, events), e)
  {
    hide Step;
    assert (events + [e])[..|events|] == events;
  }
}
