/** What holds of the ring and of the local variables of every thread, and how the six kinds of steps
    that change the ring keep it. */
module RingInvariant {
  import opened Bytes
  import opened Framing
  import opened RingMemory
  import opened Protocol

  /** The messages committed and not yet released. */
  function Unread(r: Ring): seq<Message> {
    if |r.got| <= |r.sent| then r.sent[|r.got|..] else []
  }

  /** The stream view of the ring: offsets are stream positions less whole laps, and the cells from the first
      unconsumed to the last committed stream position hold the encoded unread messages. */
  ghost predicate RingInv(r: Ring) {
    var size := |r.mem|;
    && r.got <= r.sent
    && r.consumed == Size(r.got)
    && r.committed == r.consumed + Size(Unread(r))
    && r.committed <= r.consumed + size
    && r.left + r.lapL == r.consumed
    && r.right + r.lapR == r.committed
    && r.right <= 2 * size
    && r.lapR == Laps(r.rebases, size)
    && Holds(r.mem, r.consumed, EncodeAll(Unread(r)))
    && (forall m | m in r.sent :: |m| + 2 * PREFIX <= size)
  }

  /** The staged bytes stand right behind the committed ones and do not reach the unconsumed ones. */
  ghost predicate Staging(r: Ring, w: Writer) {
    && |w.staged| + PREFIX <= |r.mem|
    && r.committed + |w.staged| <= r.consumed + |r.mem|
    && Holds(r.mem, r.committed, w.staged)
  }

  ghost predicate WriterOk(r: Ring, w: Writer) {
    && Staging(r, w)
    && r.lapL == r.lapR
    && w.right == r.right
    && w.right + |w.staged| <= 2 * |r.mem|
    && (w.fixes == 0 || (w.fixes == 1 && w.right <= |r.mem|))
  }

  predicate BufOk(r: Ring, w: Writer, buf: seq<byte>) {
    |w.staged| + |buf| + PREFIX <= |r.mem|
  }

  /** The write position is the end of the second mapping, and a rebase is due. */
  ghost predicate Due(r: Ring, w: Writer, buf: seq<byte>) {
    && WriterOk(r, w) && BufOk(r, w, buf)
    && w.right + |w.staged| == 2 * |r.mem|
    && r.left >= |r.mem|
  }

  /** The window is full up to the left offset `e`. */
  ghost predicate Full(r: Ring, w: Writer, buf: seq<byte>, e: nat) {
    && WriterOk(r, w) && BufOk(r, w, buf)
    && w.right + |w.staged| == e + |r.mem|
    && e < |r.mem|
    && e <= r.left
  }

  /** After the right offset has been moved back: the writer's own copy still has to follow. */
  ghost predicate Moved(r: Ring, w: Writer, buf: seq<byte>, newRight: nat) {
    && Staging(r, w) && BufOk(r, w, buf)
    && r.lapL == r.lapR
    && newRight == r.right
    && newRight + |r.mem| == w.right
    && w.right + |w.staged| == 2 * |r.mem|
    && w.fixes == 0
  }

  /** In the middle of a copy: `n` bytes of the buffer fit behind the staged ones, and `i` of them are there. */
  ghost predicate Copying(r: Ring, w: Writer, buf: seq<byte>, n: nat, i: nat) {
    && WriterOk(r, w) && BufOk(r, w, buf)
    && i <= n <= |buf|
    && r.committed + |w.staged| + n <= r.consumed + |r.mem|
    && w.right + |w.staged| + n <= 2 * |r.mem|
    && Holds(r.mem, r.committed + |w.staged|, buf[..i])
  }

  /** The staged bytes are a whole encoded message. */
  ghost predicate Sealed(r: Ring, w: Writer) {
    && WriterOk(r, w)
    && |w.staged| >= PREFIX
    && w.staged == Encode(w.staged[PREFIX..])
  }

  ghost predicate AtLeft(r: Ring, l: nat) {
    l == r.left && r.lapL == r.lapR
  }

  /** A receiver that delivers the oldest message, of which it has seen `bytes`. */
  ghost predicate Reading(r: Ring, l: nat, n: nat, bytes: seq<byte>) {
    && AtLeft(r, l)
    && Unread(r) != []
    && n == |Unread(r)[0]|
    && bytes <= Unread(r)[0]
  }

  /** A receiver that found the queue empty: `e` was the right offset, `at` the stream position,
      after `laps` rebases. */
  ghost predicate SawEmpty(r: Ring, e: nat, at: nat, laps: nat) {
    && e + Laps(laps, |r.mem|) == at
    && laps <= r.rebases
    && at <= r.consumed
  }

  /** The writer whose state a thread carries, while its own copy of the right offset is the true one. */
  predicate Stages(pc: Pc) {
    pc.SCall? || pc.WCache? || pc.WSync? || pc.WSyncStore? || pc.WCopy? || pc.WLock? || pc.WLoad?
    || pc.WSpin? || pc.WCompare? || pc.WAsleep? || pc.WLeave? || pc.SPrefix? || pc.SCommit?
  }

  /** What a thread may rely on where it stands. */
  ghost predicate PcInv(r: Ring, pc: Pc) {
    var size := |r.mem|;
    match pc
    case SLoad => r.lapL == r.lapR
    case SCall(w) => WriterOk(r, w)
    case SPrefix(w) => WriterOk(r, w) && |w.staged| >= PREFIX
    case SCommit(w) => Sealed(r, w)
    case WCache(w, buf) => WriterOk(r, w) && BufOk(r, w, buf)
    case WSync(w, buf) => WriterOk(r, w) && BufOk(r, w, buf)
    case WSyncStore(w, buf, left) =>
      WriterOk(r, w) && BufOk(r, w, buf) && left <= r.left && w.right + |w.staged| <= left + size
    case WCopy(w, buf, n, i) => Copying(r, w, buf, n, i)
    case WLock(w, buf) => Due(r, w, buf)
    case WLoad(w, buf) => Due(r, w, buf)
    case WFix0(w, buf, nl, nr) => Due(r, w, buf) && nl + size == r.left && nr + size == w.right
    case WFix1(w, buf, nl, nr) =>
      && Staging(r, w) && BufOk(r, w, buf)
      && r.lapL == r.lapR + size
      && nl == r.left && w.right == r.right && nr + size == w.right
      && w.right + |w.staged| == 2 * size
      && w.fixes == 0
    case WFix2(w, buf, nl, nr) => Moved(r, w, buf, nr) && nl == r.left
    case WFix3(w, buf, nl, nr) => Moved(r, w, buf, nr) && nl == r.left
    case WUnlock(w, buf, nr) => Moved(r, w, buf, nr)
    case WSpin(w, buf, e) => Full(r, w, buf, e)
    case WCompare(w, buf, e) => Full(r, w, buf, e)
    case WAsleep(w, buf, e) => Full(r, w, buf, e)
    case WLeave(w, buf) => WriterOk(r, w) && BufOk(r, w, buf)
    case RLoad => r.lapL == r.lapR
    case RCache(l) => AtLeft(r, l)
    case RSync(l) => AtLeft(r, l)
    case RSyncStore(l, x, at, laps) =>
      AtLeft(r, l) && x + r.lapR == at && r.consumed <= at <= r.committed && laps == r.rebases
    case RSize(l) => AtLeft(r, l) && Unread(r) != []
    case RRead(l, n, bytes) => Reading(r, l, n, bytes)
    case RCommit(l, n, bytes) => Reading(r, l, n, bytes) && |bytes| == n
    case RUnlockEmpty(e, at, laps) => SawEmpty(r, e, at, laps)
    case RSpin(e, at, laps) => SawEmpty(r, e, at, laps)
    case RCompare(e, at, laps) => SawEmpty(r, e, at, laps)
    case RAsleep(e, at, laps) => SawEmpty(r, e, at, laps)
    case _ => true
  }

  /** The code between taking and dropping the guard of the left side. */
  predicate HoldsLeft(pc: Pc) {
    match RegionOf(pc)
    case Rebasing => !pc.WLock?
    case Receiving => !pc.RLock?
    case Delivering => !pc.RNotify? && !pc.RWake?
    case Waiting => pc.RUnlockEmpty?
    case _ => false
  }

  /** The code between taking and dropping the guard of the right side. */
  predicate HoldsRight(pc: Pc) {
    InSend(pc) && !pc.SLock?
  }

  // ---- Arithmetic of the stream ----

  /** A store at a virtual position is a store at the stream position behind it. */
  lemma StreamStore(r: Ring, v: nat, n: nat, b: seq<byte>)
    requires RingInv(r) && n == v + r.lapR
    ensures StoreBytes(r, v, b) == r.(mem := Store(r.mem, n, b))
  {
    StoreLaps(r.mem, v, r.rebases, b);
  }

  /** Bytes behind the committed ones, but within a lap of the consumed ones, can be stored without touching
      the unread messages. */
  lemma StoreKeepsRing(r: Ring, v: nat, b: seq<byte>)
    requires RingInv(r)
    requires v >= r.right && v + |b| <= r.right + |r.mem| - (r.committed - r.consumed)
    ensures RingInv(StoreBytes(r, v, b))
  {
    hide Load, Store, EncodeAll, Size;
    StreamStore(r, v, v + r.lapR, b);
    EncodeAllSize(Unread(r));
    StoreKeeps(r.mem, v + r.lapR, b, r.consumed, EncodeAll(Unread(r)));
  }

  // ---- The six steps that change the ring ----

  /** A part of a copy: the unread messages, the staged bytes and the part of the buffer copied before all stay. */
  lemma CopyKeeps(r: Ring, w: Writer, buf: seq<byte>, n: nat, i: nat, k: nat, b: seq<byte>)
    requires RingInv(r) && Copying(r, w, buf, n, i)
    requires 1 <= k <= n - i && b == buf[i..i + k]
    ensures RingInv(StoreBytes(r, w.right + |w.staged| + i, b))
    ensures Copying(StoreBytes(r, w.right + |w.staged| + i, b), w, buf, n, i + k)
  {
    hide Load, Store, EncodeAll, Size, Holds;
    StoreKeepsRing(r, w.right + |w.staged| + i, b);
    CopyExtends(r, w, buf, n, i, k, r.committed + |w.staged| + i);
    StreamStore(r, w.right + |w.staged| + i, r.committed + |w.staged| + i, b);
  }

  lemma CopyExtends(r: Ring, w: Writer, buf: seq<byte>, n: nat, i: nat, k: nat, v: nat)
    requires Copying(r, w, buf, n, i) && k <= n - i && v == r.committed + |w.staged| + i
    ensures Copying(r.(mem := Store(r.mem, v, buf[i..i + k])), w, buf, n, i + k)
  {
    var b := buf[i..i + k];
    StoreKeeps(r.mem, v, b, r.committed, w.staged);
    StoreBehind(r.mem, r.committed + |w.staged|, buf[..i], b);
    assert buf[..i] + b == buf[..i + k];
  }

  /** The end of a copy: what was copied becomes staged. */
  lemma CopyEnds(r: Ring, w: Writer, buf: seq<byte>, n: nat)
    requires RingInv(r) && Copying(r, w, buf, n, n)
    ensures WriterOk(r, w.(staged := w.staged + buf[..n]))
  {
    HoldsConcat(r.mem, r.committed, w.staged, buf[..n]);
  }

  /** The length goes into the place kept for it; what is staged is now the encoded payload. */
  lemma PrefixKeeps(r: Ring, w: Writer, prefix: seq<byte>)
    requires RingInv(r) && WriterOk(r, w) && |w.staged| >= PREFIX
    requires prefix == LittleEndian(|w.staged| - PREFIX, PREFIX)
    ensures RingInv(StoreBytes(r, w.right, prefix))
    ensures Sealed(StoreBytes(r, w.right, prefix), w.(staged := prefix + w.staged[PREFIX..]))
  {
    StoreKeepsRing(r, w.right, prefix);
    PrefixSeals(r, w, prefix);
    StreamStore(r, w.right, r.committed, prefix);
  }

  lemma PrefixSeals(r: Ring, w: Writer, prefix: seq<byte>)
    requires WriterOk(r, w) && |w.staged| >= PREFIX && prefix == LittleEndian(|w.staged| - PREFIX, PREFIX)
    ensures Sealed(r.(mem := Store(r.mem, r.committed, prefix)), w.(staged := prefix + w.staged[PREFIX..]))
  {
    StoreOver(r.mem, r.committed, w.staged, prefix);
    assert (prefix + w.staged[PREFIX..])[PREFIX..] == w.staged[PREFIX..];
  }

  /** Publishing appends exactly the staged payload to the unread messages. */
  lemma PublishKeeps(r: Ring, w: Writer)
    requires RingInv(r) && Sealed(r, w)
    ensures var r' := Publish(r, w);
            && RingInv(r') && r'.lapL == r'.lapR
            && Unread(r') == Unread(r) + [w.staged[PREFIX..]]
            && r'.right == r.right + |w.staged|
  {
    hide EncodeAll, Load, Size, LittleEndian, Holds;
    var m := w.staged[PREFIX..];
    var r' := Publish(r, w);
    UnreadGrows(r, m);
    assert r'.got <= r'.sent && Unread(r') == Unread(r) + [m] && r'.committed == r'.consumed + Size(Unread(r')) by {
      assert r'.sent[|r.got|..] == r.sent[|r.got|..] + [m];
      SizeAppend(Unread(r), m);
    }
  }

  lemma UnreadGrows(r: Ring, m: Message)
    requires RingInv(r) && Holds(r.mem, r.committed, Encode(m))
    ensures Holds(r.mem, r.consumed, EncodeAll(Unread(r) + [m]))
  {
    EncodeAllAppend(Unread(r), m);
    EncodeAllSize(Unread(r));
    HoldsConcat(r.mem, r.consumed, EncodeAll(Unread(r)), Encode(m));
  }

  /** The oldest message leaves: seen from the sequences and from the memory. */
  lemma OldestLeaves(r: Ring, m: Message)
    requires RingInv(r) && Unread(r) != [] && m == Unread(r)[0]
    ensures m in r.sent && r.got + [m] <= r.sent
    ensures r.sent[|r.got| + 1..] == Unread(r)[1..]
    ensures r.consumed + PREFIX + |m| + Size(Unread(r)[1..]) == r.committed
  {
    assert m == r.sent[|r.got|];
  }

  lemma OldestLeavesMemory(r: Ring, m: Message)
    requires RingInv(r) && Unread(r) != [] && m == Unread(r)[0]
    ensures Holds(r.mem, r.consumed + PREFIX + |m|, EncodeAll(Unread(r)[1..]))
  {
    HeadSplit(r.mem, r.consumed, Unread(r));
  }

  lemma OldestReleased(r: Ring, m: Message)
    requires RingInv(r) && Unread(r) != [] && m == Unread(r)[0]
    ensures RingInv(r.(left := r.left + PREFIX + |m|, consumed := r.consumed + PREFIX + |m|, got := r.got + [m]))
  {
    hide EncodeAll, Load, Size, Holds;
    OldestLeavesMemory(r, m);
    SizeAppend(r.got, m);
    var r' := r.(left := r.left + PREFIX + |m|, consumed := r.consumed + PREFIX + |m|, got := r.got + [m]);
    assert r'.got <= r'.sent && Unread(r') == Unread(r)[1..] && r'.committed == r'.consumed + Size(Unread(r')) by {
      OldestLeaves(r, m);
    }
  }

  /** The new left offset does not wrap. */
  lemma ReleaseOffset(r: Ring, l: nat, size: nat, bytes: seq<byte>)
    requires RingInv(r) && Reading(r, l, size, bytes) && |bytes| == size
    ensures Release(r, l, size, bytes).left == r.left + PREFIX + |bytes|
    ensures r.left + PREFIX + |bytes| <= r.right
  {
    OldestLeaves(r, bytes);
  }

  /** Releasing removes exactly the oldest message. */
  lemma ReleaseKeeps(r: Ring, l: nat, size: nat, bytes: seq<byte>)
    requires RingInv(r) && Reading(r, l, size, bytes) && |bytes| == size
    ensures RingInv(Release(r, l, size, bytes))
    ensures Unread(r) == [bytes] + Unread(Release(r, l, size, bytes))
  {
    ReleaseOffset(r, l, size, bytes);
    OldestReleased(r, bytes);
    OldestLeaves(r, bytes);
  }

  lemma FixLeftKeeps(r: Ring, w: Writer, buf: seq<byte>, nl: nat, nr: nat)
    requires RingInv(r) && PcInv(r, WFix0(w, buf, nl, nr))
    ensures RingInv(FixLeft(r, nl)) && PcInv(FixLeft(r, nl), WFix1(w, buf, nl, nr))
  {
  }

  lemma FixRightKeeps(r: Ring, w: Writer, buf: seq<byte>, nl: nat, nr: nat)
    requires RingInv(r) && PcInv(r, WFix1(w, buf, nl, nr))
    ensures RingInv(FixRight(r, nr)) && PcInv(FixRight(r, nr), WFix2(w, buf, nl, nr))
  {
    hide Holds, EncodeAll, Size;
  }

  // ---- What the other threads rely on ----

  lemma StoreSpares(r: Ring, v: nat, b: seq<byte>, pc: Pc)
    requires PcInv(r, pc) && !HoldsRight(pc)
    ensures PcInv(StoreBytes(r, v, b), pc)
  {
  }

  lemma PublishSpares(r: Ring, w: Writer, pc: Pc)
    requires RingInv(r) && Sealed(r, w) && PcInv(r, pc) && !HoldsRight(pc)
    ensures PcInv(Publish(r, w), pc)
  {
    PublishKeeps(r, w);
  }

  lemma ReleaseSpares(r: Ring, l: nat, size: nat, bytes: seq<byte>, pc: Pc)
    requires RingInv(r) && Reading(r, l, size, bytes) && |bytes| == size && PcInv(r, pc) && !HoldsLeft(pc)
    ensures PcInv(Release(r, l, size, bytes), pc)
  {
    ReleaseOffset(r, l, size, bytes);
    LeftGrowthSpares(r, Release(r, l, size, bytes), pc);
  }

  /** The left offset may have grown, and nothing else has changed. */
  predicate LeftGrowth(r: Ring, r': Ring) {
    && r' == r.(left := r'.left, consumed := r'.consumed, got := r'.got)
    && r'.left >= r.left && r'.consumed >= r.consumed
  }

  lemma WriterSpared(r: Ring, r': Ring, w: Writer)
    requires LeftGrowth(r, r') && WriterOk(r, w)
    ensures WriterOk(r', w)
  {
    hide Load;
  }

  /** Whoever does not hold the left lock only minds that the left offset does not shrink. */
  lemma LeftGrowthSpares(r: Ring, r': Ring, pc: Pc)
    requires PcInv(r, pc) && !HoldsLeft(pc) && LeftGrowth(r, r')
    ensures PcInv(r', pc)
  {
    hide WriterOk, Holds, Laps;
    if Stages(pc) { WriterSpared(r, r', pc.w); }
  }

  lemma FixSpares(r: Ring, nl: nat, nr: nat, pc: Pc)
    requires PcInv(r, pc) && !HoldsLeft(pc) && !HoldsRight(pc)
    ensures PcInv(FixLeft(r, nl), pc) && PcInv(FixRight(r, nr), pc)
  {
  }
}
