/** The one way to get stuck is real: for every size of the data area, one sender and one receiver can end up
    both asleep with a full queue, because the receiver's look and its sleep are a lap and a rebase apart. */
module LapDeadlock {
  import opened Bytes
  import opened Framing
  import opened RingMemory
  import opened WritePlan
  import opened Protocol
  import opened RingInvariant
  import opened SystemInvariant
  import opened Wakeups
  import opened Theorems
  import opened Deadlock

  ghost predicate Reaches(s: State, s': State) {
    exists events :: Run(s, events) == s'
  }

  lemma {:induction false} RunConcat(s: State, a: seq<Event>, b: seq<Event>)
    ensures Run(Run(s, a), b) == Run(s, a + b)
    decreases |b|
  {
    if b == [] {
      assert a + b == a;
    } else {
      RunConcat(s, a, b[..|b| - 1]);
      assert (a + b)[..|a + b| - 1] == a + b[..|b| - 1];
    }
  }

  lemma Here(s: State)
    ensures Reaches(s, s)
  {
    assert Run(s, []) == s;
  }

  lemma Join(s: State, m: State, s': State)
    requires Reaches(s, m) && Reaches(m, s')
    ensures Reaches(s, s')
  {
    var a :| Run(s, a) == m;
    var b :| Run(m, b) == s';
    RunConcat(s, a, b);
  }

  lemma Next(s: State, m: State, t: Tid, c: Choice, s': State)
    requires Reaches(s, m) && Step(m, Thread(t, c)) == s'
    ensures Reaches(s, s')
  {
    hide Step;
    assert [Thread(t, c)][..0] == [];
    assert Run(m, []) == m;
    assert Run(m, [Thread(t, c)]) == s';
    Join(s, m, s');
  }

  // ---- The sender by itself ----

  const SENDER: Tid := 0
  const RECEIVER: Tid := 1

  function Sender(s: State, pc: Pc): State
    requires SENDER < |s.pcs|
  {
    At(s, SENDER, pc)
  }

  function Receiver(s: State, pc: Pc): State
    requires RECEIVER < |s.pcs|
  {
    At(s, RECEIVER, pc)
  }

  function NewWriter(s: State): Writer { Writer(s.ring.right, [], 0) }

  lemma SendOpens(s: State)
    requires |s.pcs| == 2 && s.pcs[SENDER].Idle? && s.rightLock.Free?
    ensures Reaches(s, Sender(s, SCall(NewWriter(s))).(rightLock := Taken(SENDER)))
  {
    Here(s);
    var s1 := Sender(s, SLock);
    Next(s, s, SENDER, Send, s1);
    var s2 := Sender(s, SLoad).(rightLock := Taken(SENDER));
    Next(s, s1, SENDER, Go, s2);
    var s3 := Sender(s, SCall(NewWriter(s))).(rightLock := Taken(SENDER));
    Next(s, s2, SENDER, Go, s3);
  }

  predicate CacheSound(s: State) {
    s.rightCached == U32_MAX || s.rightCached <= s.ring.left
  }

  lemma PlanFromCache(s: State, w: Writer, buf: seq<byte>, s': State)
    requires |s.pcs| == 2 && s.pcs[SENDER] == WCache(w, buf) && CacheSound(s)
    requires Position(w) <= 2 * |s.ring.mem| && CacheServes(s.rightCached, |s.ring.mem|, Position(w), |buf|)
    requires s' == Sender(s, Branch(|s.ring.mem|, w, buf, s.ring.left))
    ensures Reaches(s, s')
  {
    hide PlanWrite, Position;
    Here(s);
    CachedPlanIsFresh(|s.ring.mem|, Position(w), |buf|, s.rightCached, s.ring.left);
    Next(s, s, SENDER, Go, s');
  }

  lemma PlanFromLoad(s: State, w: Writer, buf: seq<byte>, s': State)
    requires |s.pcs| == 2 && s.pcs[SENDER] == WCache(w, buf)
    requires !CacheServes(s.rightCached, |s.ring.mem|, Position(w), |buf|)
    requires s' == Sender(s, Branch(|s.ring.mem|, w, buf, s.ring.left)).(rightCached := s.ring.left)
    ensures Reaches(s, s')
  {
    hide Branch, Position;
    Here(s);
    var s1 := Sender(s, WSync(w, buf));
    Next(s, s, SENDER, Go, s1);
    var s2 := Sender(s, WSyncStore(w, buf, s.ring.left));
    Next(s, s1, SENDER, Go, s2);
    Next(s, s2, SENDER, Go, s');
  }

  /** From the cache test to the branch, by whichever path. */
  lemma PlanReached(s: State, w: Writer, buf: seq<byte>) returns (s': State)
    requires |s.pcs| == 2 && s.pcs[SENDER] == WCache(w, buf) && CacheSound(s)
    requires Position(w) <= 2 * |s.ring.mem|
    ensures Reaches(s, s') && CacheSound(s')
    ensures s' == Sender(s, Branch(|s.ring.mem|, w, buf, s.ring.left)).(rightCached := s'.rightCached)
  {
    hide Branch, Position, Reaches;
    if CacheServes(s.rightCached, |s.ring.mem|, Position(w), |buf|) {
      s' := Sender(s, Branch(|s.ring.mem|, w, buf, s.ring.left));
      PlanFromCache(s, w, buf, s');
    } else {
      s' := Sender(s, Branch(|s.ring.mem|, w, buf, s.ring.left)).(rightCached := s.ring.left);
      PlanFromLoad(s, w, buf, s');
    }
  }

  /** There is room for `buf` behind the writer's position. */
  predicate Room(s: State, w: Writer, buf: seq<byte>) {
    && buf != []
    && |w.staged| + |buf| + PREFIX <= |s.ring.mem|
    && w.right + |w.staged| + |buf| <= Min(s.ring.left + |s.ring.mem|, 2 * |s.ring.mem|)
  }

  lemma RoomMeansCopy(s: State, w: Writer, buf: seq<byte>)
    requires Room(s, w, buf)
    ensures Position(w) == w.right + |w.staged|
    ensures Branch(|s.ring.mem|, w, buf, s.ring.left) == WCopy(w, buf, |buf|, 0)
  {
    PlanMeaning(|s.ring.mem|, w.right + |w.staged|, |buf|, s.ring.left);
  }

  /** One call of write with room for the whole buffer, from the cache test on. */
  lemma Writes(s: State, w: Writer, buf: seq<byte>) returns (s': State)
    requires |s.pcs| == 2 && s.pcs[SENDER] == WCache(w, buf) && CacheSound(s) && Room(s, w, buf)
    ensures Reaches(s, s') && CacheSound(s')
    ensures s' == Sender(s, SCall(w.(staged := w.staged + buf)))
                    .(ring := s.ring.(mem := s'.ring.mem), rightCached := s'.rightCached)
    ensures |s'.ring.mem| == |s.ring.mem|
  {
    RoomMeansCopy(s, w, buf);
    hide Branch, Position, Reaches, Room, CacheServes, PlanWrite;
    var s1 := PlanReached(s, w, buf);
    var ring := StoreBytes(s.ring, Position(w) + 0, buf[0..0 + |buf|]);
    var s2 := Sender(s1, WCopy(w, buf, |buf|, |buf|)).(ring := ring);
    CopiesAtOnce(s1, w, buf, s2);
    Join(s, s1, s2);
    s' := Sender(s2, SCall(w.(staged := w.staged + buf[..|buf|])));
    CopyFinishes(s2, w, buf, s');
    Join(s, s2, s');
    assert buf[..|buf|] == buf;
  }

  lemma CopiesAtOnce(s: State, w: Writer, buf: seq<byte>, s': State)
    requires |s.pcs| == 2 && s.pcs[SENDER] == WCopy(w, buf, |buf|, 0) && buf != []
    requires s' == Sender(s, WCopy(w, buf, |buf|, |buf|))
                     .(ring := StoreBytes(s.ring, Position(w) + 0, buf[0..0 + |buf|]))
    ensures Reaches(s, s')
  {
    hide StoreBytes, Position;
    Here(s);
    Next(s, s, SENDER, Chunk(|buf|), s');
  }

  lemma CopyFinishes(s: State, w: Writer, buf: seq<byte>, s': State)
    requires |s.pcs| == 2 && s.pcs[SENDER] == WCopy(w, buf, |buf|, |buf|)
    requires s' == Sender(s, SCall(w.(staged := w.staged + buf[..|buf|])))
    ensures Reaches(s, s')
  {
    Here(s);
    Next(s, s, SENDER, Go, s');
  }

  lemma PrefixAsked(s: State, w: Writer, s': State)
    requires |s.pcs| == 2 && s.pcs[SENDER] == SCall(w) && w.staged == []
    requires s' == Sender(s, WCache(w, Zeros(PREFIX)))
    ensures Reaches(s, s')
  {
    Here(s);
    Next(s, s, SENDER, Go, s');
  }

  lemma PayloadAsked(s: State, w: Writer, buf: seq<byte>, s': State)
    requires |s.pcs| == 2 && s.pcs[SENDER] == SCall(w) && |w.staged| == PREFIX
    requires PREFIX + |buf| + PREFIX <= |s.ring.mem|
    requires s' == Sender(s, WCache(w, buf))
    ensures Reaches(s, s')
  {
    Here(s);
    Next(s, s, SENDER, Write(buf), s');
  }

  /** From the end of the callback to the return of send, with no receiver waiting. */
  lemma SendCloses(s: State, w: Writer) returns (s': State)
    requires |s.pcs| == 2 && s.pcs[SENDER] == SCall(w) && s.rightLock == Taken(SENDER) && s.rightWaiters == 0
    requires |w.staged| >= PREFIX && w.right + |w.staged| <= U32_MAX
    ensures Reaches(s, s') && |s'.ring.mem| == |s.ring.mem|
    ensures s' == Sender(s, Idle).(rightLock := Free, ring := s.ring.(mem := s'.ring.mem,
              right := w.right + |w.staged|, committed := s.ring.committed + |w.staged|,
              sent := s.ring.sent + [w.staged[PREFIX..]]))
  {
    hide Reaches, LittleEndian, Store;
    Here(s);
    var s1 := Sender(s, SPrefix(w));
    Next(s, s, SENDER, Done, s1);
    var prefix := LittleEndian(|w.staged| - PREFIX, PREFIX);
    var w2 := w.(staged := prefix + w.staged[PREFIX..]);
    var s2 := Sender(s, SCommit(w2)).(ring := StoreBytes(s.ring, w.right, prefix));
    Next(s, s1, SENDER, Go, s2);
    assert w2.staged[PREFIX..] == w.staged[PREFIX..];
    s' := Sender(s, Idle).(rightLock := Free, ring := Publish(s2.ring, w2));
    Publishes(s, s2, w2, s');
  }

  lemma Publishes(s: State, s2: State, w2: Writer, s': State)
    requires |s2.pcs| == 2 && s2.pcs[SENDER] == SCommit(w2) && s2.rightLock == Taken(SENDER) && s2.rightWaiters == 0
    requires Reaches(s, s2) && s' == Sender(s2, Idle).(rightLock := Free, ring := Publish(s2.ring, w2))
    ensures Reaches(s, s')
  {
    hide Publish, Reaches;
    var s3 := Sender(s2, SNotify).(ring := Publish(s2.ring, w2));
    Next(s, s2, SENDER, Go, s3);
    var s4 := Sender(s3, SUnlock);
    Next(s, s3, SENDER, Go, s4);
    Next(s, s4, SENDER, Go, s');
  }

  /** The effect of one undisturbed send of `p`. */
  predicate SentOne(s: State, s': State, p: Message) {
    && |s'.ring.mem| == |s.ring.mem|
    && s' == s.(rightCached := s'.rightCached, ring := s.ring.(mem := s'.ring.mem,
                  right := s.ring.right + PREFIX + |p|, committed := s.ring.committed + PREFIX + |p|,
                  sent := s.ring.sent + [p]))
  }

  lemma SendOne(s: State, p: Message) returns (s': State)
    requires |s.pcs| == 2 && s.pcs[SENDER].Idle? && s.rightLock.Free? && s.rightWaiters == 0 && CacheSound(s)
    requires p != [] && |p| + 2 * PREFIX <= |s.ring.mem|
    requires s.ring.right + PREFIX + |p| <= Min(s.ring.left + |s.ring.mem|, 2 * |s.ring.mem|)
    ensures Reaches(s, s') && SentOne(s, s', p) && CacheSound(s')
  {
    hide Reaches;
    var w0 := NewWriter(s);
    var s1 := Sender(s, SCall(w0)).(rightLock := Taken(SENDER));
    SendOpens(s);
    var s2 := Sender(s1, WCache(w0, Zeros(PREFIX)));
    PrefixAsked(s1, w0, s2);
    Join(s, s1, s2);
    var s3 := Writes(s2, w0, Zeros(PREFIX));
    Join(s, s2, s3);
    var w1 := w0.(staged := w0.staged + Zeros(PREFIX));
    var s4 := Sender(s3, WCache(w1, p));
    PayloadAsked(s3, w1, p, s4);
    Join(s, s3, s4);
    var s5 := Writes(s4, w1, p);
    Join(s, s4, s5);
    var w2 := w1.(staged := w1.staged + p);
    s' := SendCloses(s5, w2);
    Join(s, s5, s');
    assert w2.staged[PREFIX..] == p;
    assert s'.pcs == s.pcs;
  }

  // ---- The receiver by itself ----

  lemma RecvOpens(s: State, s': State)
    requires |s.pcs| == 2 && s.pcs[RECEIVER].Idle? && s.leftLock.Free?
    requires s' == Receiver(s, RCache(s.ring.left)).(leftLock := Taken(RECEIVER))
    ensures Reaches(s, s')
  {
    hide Reaches;
    Here(s);
    var s1 := Receiver(s, RLock);
    Next(s, s, RECEIVER, Recv, s1);
    var s2 := Receiver(s, RLoad).(leftLock := Taken(RECEIVER));
    Next(s, s1, RECEIVER, Go, s2);
    Next(s, s2, RECEIVER, Go, s');
  }

  /** The receiver finds the message, from its cache or by a load. */
  lemma FindsMessage(s: State, l: nat) returns (s': State)
    requires |s.pcs| == 2 && s.pcs[RECEIVER] == RCache(l) && s.ring.right > l
    ensures Reaches(s, s')
    ensures s' == Receiver(s, RSize(l)).(leftCached := s'.leftCached)
  {
    hide Reaches;
    Here(s);
    if s.leftCached != U32_MAX && s.leftCached > l {
      s' := Receiver(s, RSize(l));
      Next(s, s, RECEIVER, Go, s');
    } else {
      var s1 := Receiver(s, RSync(l));
      Next(s, s, RECEIVER, Go, s1);
      var s2 := Receiver(s, RSyncStore(l, s.ring.right, s.ring.committed, s.ring.rebases));
      Next(s, s1, RECEIVER, Go, s2);
      s' := Receiver(s, RSize(l)).(leftCached := s.ring.right);
      Next(s, s2, RECEIVER, Go, s');
    }
  }

  /** The callback reads the whole slice at once. */
  lemma ReadsMessage(s: State, l: nat, m: Message, s': State)
    requires |s.pcs| == 2 && s.pcs[RECEIVER] == RSize(l) && m != []
    requires ReadPrefix(s.ring.mem, l) == |m| && Load(s.ring.mem, l + PREFIX, |m|) == m
    requires s' == Receiver(s, RCommit(l, |m|, m))
    ensures Reaches(s, s')
  {
    hide Reaches, ReadPrefix, Load;
    Here(s);
    var s1 := Receiver(s, RRead(l, |m|, []));
    Next(s, s, RECEIVER, Go, s1);
    ReadsAtOnce(s, s1, l, m, s');
  }

  lemma ReadsAtOnce(s: State, s1: State, l: nat, m: Message, s': State)
    requires |s1.pcs| == 2 && s1.pcs[RECEIVER] == RRead(l, |m|, []) && m != [] && Reaches(s, s1)
    requires Load(s1.ring.mem, l + PREFIX, |m|) == m
    requires s' == Receiver(s1, RCommit(l, |m|, m))
    ensures Reaches(s, s')
  {
    hide Reaches, Load;
    var s2 := Receiver(s1, RRead(l, |m|, m));
    assert [] + m == m;
    Next(s, s1, RECEIVER, Chunk(|m|), s2);
    Next(s, s2, RECEIVER, Go, s');
  }

  lemma RecvCloses(s: State, l: nat, m: Message, s': State)
    requires |s.pcs| == 2 && s.pcs[RECEIVER] == RCommit(l, |m|, m)
    requires s.leftLock == Taken(RECEIVER) && s.leftWaiters == 0
    requires s' == Receiver(s, Idle).(leftLock := Free, ring := Release(s.ring, l, |m|, m))
    ensures Reaches(s, s')
  {
    hide Reaches, Release;
    Here(s);
    var s1 := Receiver(s, RUnlock).(ring := Release(s.ring, l, |m|, m));
    Next(s, s, RECEIVER, Go, s1);
    var s2 := Receiver(s1, RNotify).(leftLock := Free);
    Next(s, s1, RECEIVER, Go, s2);
    Next(s, s2, RECEIVER, Go, s');
  }

  /** The effect of one undisturbed receive of `m`. */
  predicate ReceivedOne(s: State, s': State, m: Message) {
    s' == s.(leftCached := s'.leftCached, ring := s.ring.(
               left := s.ring.left + PREFIX + |m|, consumed := s.ring.consumed + PREFIX + |m|,
               got := s.ring.got + [m]))
  }

  lemma HasMessage(r: Ring)
    requires RingInv(r) && r.lapL == r.lapR && Unread(r) != []
    ensures r.right > r.left
  {
    hide Holds, EncodeAll;
    SizeZero(Unread(r));
  }

  lemma ReleaseOne(r: Ring, m: Message)
    requires RingInv(r) && r.lapL == r.lapR && Unread(r) != [] && Unread(r)[0] == m
    ensures Release(r, r.left, |m|, m) == r.(left := r.left + PREFIX + |m|, consumed := r.consumed + PREFIX + |m|,
                                              got := r.got + [m])
  {
    hide RingInv;
    ReleaseOffset(r, r.left, |m|, m);
  }

  lemma RecvOne(s: State, m: Message) returns (s': State)
    requires |s.pcs| == 2 && s.pcs[RECEIVER].Idle? && s.leftLock.Free? && s.leftWaiters == 0
    requires RingInv(s.ring) && s.ring.lapL == s.ring.lapR
    requires Unread(s.ring) != [] && Unread(s.ring)[0] == m && m != []
    ensures Reaches(s, s') && ReceivedOne(s, s', m)
  {
    hide Reaches, RingInv, Unread, ReadPrefix, Load, Release;
    var l := s.ring.left;
    ReleaseOne(s.ring, m);
    HasMessage(s.ring);
    OldestSize(s.ring, l);
    var s1 := Receiver(s, RCache(l)).(leftLock := Taken(RECEIVER));
    RecvOpens(s, s1);
    var s2 := FindsMessage(s1, l);
    Join(s, s1, s2);
    var s3 := Receiver(s2, RCommit(l, |m|, m));
    ReadsMessage(s2, l, m, s3);
    Join(s, s2, s3);
    s' := Receiver(s3, Idle).(leftLock := Free, ring := Release(s3.ring, l, |m|, m));
    RecvCloses(s3, l, m, s');
    Join(s, s3, s');
    assert s'.pcs == s.pcs;
  }

  /** A receiver that finds the queue empty, up to the point where it has dropped its lock. */
  lemma Looks(s: State, s': State)
    requires |s.pcs| == 2 && s.pcs[RECEIVER].Idle? && s.leftLock.Free?
    requires s.ring.right == s.ring.left && (s.leftCached == U32_MAX || s.leftCached <= s.ring.right)
    requires s' == Receiver(s, RSpin(s.ring.right, s.ring.committed, s.ring.rebases)).(leftCached := s.ring.right)
    ensures Reaches(s, s')
  {
    hide Reaches;
    var l := s.ring.left;
    var s1 := Receiver(s, RCache(l)).(leftLock := Taken(RECEIVER));
    RecvOpens(s, s1);
    var s2 := Receiver(s1, RSync(l));
    Next(s, s1, RECEIVER, Go, s2);
    SeesEmpty(s, s2, l, s');
  }

  lemma SeesEmpty(s: State, s2: State, l: nat, s': State)
    requires |s2.pcs| == 2 && s2.pcs[RECEIVER] == RSync(l) && s2.ring.right == l && Reaches(s, s2)
    requires s2.leftLock == Taken(RECEIVER)
    requires s' == Receiver(s2, RSpin(l, s2.ring.committed, s2.ring.rebases)).(leftCached := l, leftLock := Free)
    ensures Reaches(s, s')
  {
    hide Reaches;
    var r := s2.ring;
    var s3 := Receiver(s2, RSyncStore(l, l, r.committed, r.rebases));
    Next(s, s2, RECEIVER, Go, s3);
    var s4 := Receiver(s2, RUnlockEmpty(l, r.committed, r.rebases)).(leftCached := l);
    Next(s, s3, RECEIVER, Go, s4);
    Next(s, s4, RECEIVER, Go, s');
  }

  lemma FallsAsleep(s: State, e: nat, at: nat, laps: nat, s': State)
    requires |s.pcs| == 2 && s.pcs[RECEIVER] == RSpin(e, at, laps) && s.ring.right == e && s.rightWaiters == 0
    requires s' == Receiver(s, RAsleep(e, at, laps)).(rightWaiters := 1)
    ensures Reaches(s, s')
  {
    hide Reaches;
    Here(s);
    var s1 := Receiver(s, RCompare(e, at, laps)).(rightWaiters := 1);
    Next(s, s, RECEIVER, Go, s1);
    Next(s, s1, RECEIVER, Go, s');
  }

  // ---- The sender meets the end of the second mapping on a full queue ----

  /** The rebase, undisturbed. */
  lemma Rebases(s: State, w: Writer, buf: seq<byte>, s': State)
    requires |s.pcs| == 2 && s.pcs[SENDER] == WLock(w, buf) && s.leftLock.Free? && w.staged == []
    requires w.right == s.ring.right == 2 * |s.ring.mem| && s.ring.left == |s.ring.mem|
    requires s' == Sender(s, WCache(Writer(|s.ring.mem|, [], w.fixes + 1), buf))
                     .(ring := FixRight(FixLeft(s.ring, 0), |s.ring.mem|), leftCached := |s.ring.mem|, rightCached := 0)
    ensures Reaches(s, s')
  {
    hide Reaches, FixLeft, FixRight, Step;
    var size := |s.ring.mem|;
    var s2 := Sender(s, WFix0(w, buf, 0, size)).(leftLock := Taken(SENDER));
    RebaseLocks(s, w, buf, s2);
    var s4 := Sender(s2, WFix2(w, buf, 0, size)).(ring := FixRight(FixLeft(s.ring, 0), size));
    RebaseStarts(s, s2, w, buf, size, s4);
    RebaseEnds(s, s4, w, buf, size, s');
  }

  lemma RebaseLocks(s: State, w: Writer, buf: seq<byte>, s2: State)
    requires |s.pcs| == 2 && s.pcs[SENDER] == WLock(w, buf) && s.leftLock.Free? && w.staged == []
    requires w.right == 2 * |s.ring.mem| && s.ring.left == |s.ring.mem|
    requires s2 == Sender(s, WFix0(w, buf, 0, |s.ring.mem|)).(leftLock := Taken(SENDER))
    ensures Reaches(s, s2)
  {
    hide Reaches;
    Here(s);
    var s1 := Sender(s, WLoad(w, buf)).(leftLock := Taken(SENDER));
    Next(s, s, SENDER, Go, s1);
    Next(s, s1, SENDER, Go, s2);
  }

  lemma RebaseStarts(s: State, s2: State, w: Writer, buf: seq<byte>, size: nat, s4: State)
    requires |s2.pcs| == 2 && s2.pcs[SENDER] == WFix0(w, buf, 0, size) && Reaches(s, s2)
    requires s4 == Sender(s2, WFix2(w, buf, 0, size)).(ring := FixRight(FixLeft(s2.ring, 0), size))
    ensures Reaches(s, s4)
  {
    hide Reaches, FixLeft, FixRight;
    var s3 := Sender(s2, WFix1(w, buf, 0, size)).(ring := FixLeft(s2.ring, 0));
    Next(s, s2, SENDER, Go, s3);
    Next(s, s3, SENDER, Go, s4);
  }

  lemma RebaseEnds(s: State, s4: State, w: Writer, buf: seq<byte>, size: nat, s': State)
    requires |s4.pcs| == 2 && s4.pcs[SENDER] == WFix2(w, buf, 0, size) && w.staged == [] && Reaches(s, s4)
    requires s' == Sender(s4, WCache(Writer(size, [], w.fixes + 1), buf))
                     .(leftLock := Free, leftCached := size, rightCached := 0)
    ensures Reaches(s, s')
  {
    hide Reaches;
    var s5 := Sender(s4, WFix3(w, buf, 0, size)).(leftCached := size);
    Next(s, s4, SENDER, Go, s5);
    var s6 := Sender(s4, WUnlock(w, buf, size)).(leftCached := size, rightCached := 0);
    Next(s, s5, SENDER, Go, s6);
    Next(s, s6, SENDER, Go, s');
  }

  lemma Waits(s: State, w: Writer, buf: seq<byte>, e: nat, s': State)
    requires |s.pcs| == 2 && s.pcs[SENDER] == WSpin(w, buf, e) && s.ring.left == e && s.leftWaiters == 0
    requires s' == Sender(s, WAsleep(w, buf, e)).(leftWaiters := 1)
    ensures Reaches(s, s')
  {
    hide Reaches;
    Here(s);
    var s1 := Sender(s, WCompare(w, buf, e)).(leftWaiters := 1);
    Next(s, s, SENDER, Go, s1);
    Next(s, s1, SENDER, Go, s');
  }

  /** From the first call of write, which finds no room, to the rebase branch. */
  lemma MeetsEnd(s: State) returns (s': State)
    requires |s.pcs| == 2 && s.pcs[SENDER].Idle? && s.rightLock.Free? && CacheSound(s)
    requires s.ring.right == 2 * |s.ring.mem| && s.ring.left == |s.ring.mem|
    ensures Reaches(s, s') && CacheSound(s')
    ensures s' == Sender(s, WLock(NewWriter(s), Zeros(PREFIX)))
                    .(rightLock := Taken(SENDER), rightCached := s'.rightCached)
  {
    hide Reaches, Zeros;
    var w, zeros := NewWriter(s), Zeros(PREFIX);
    assert |zeros| == PREFIX by { ZerosLength(PREFIX); }
    var s1 := Sender(s, SCall(w)).(rightLock := Taken(SENDER));
    SendOpens(s);
    var s2 := Sender(s1, WCache(w, zeros));
    PrefixAsked(s1, w, s2);
    Join(s, s1, s2);
    PlanMeaning(|s.ring.mem|, 2 * |s.ring.mem|, PREFIX, |s.ring.mem|);
    s' := PlanReached(s2, w, zeros);
    Join(s, s2, s');
  }

  lemma ZerosLength(n: nat)
    ensures |Zeros(n)| == n
  {
  }

  /** From the cache test after the rebase to the sleep: the window is full up to the left offset 0. */
  lemma FindsNoRoom(s: State, w: Writer) returns (s': State)
    requires |s.pcs| == 2 && s.pcs[SENDER] == WCache(w, Zeros(PREFIX)) && w.staged == []
    requires w.right == |s.ring.mem| && s.ring.left == 0 && CacheSound(s) && s.leftWaiters == 0
    ensures Reaches(s, s')
    ensures s' == Sender(s, WAsleep(w, Zeros(PREFIX), 0)).(leftWaiters := 1, rightCached := s'.rightCached)
  {
    hide Reaches, Zeros;
    assert |Zeros(PREFIX)| == PREFIX by { ZerosLength(PREFIX); }
    PlanMeaning(|s.ring.mem|, |s.ring.mem|, PREFIX, 0);
    var s1 := PlanReached(s, w, Zeros(PREFIX));
    s' := Sender(s1, WAsleep(w, Zeros(PREFIX), 0)).(leftWaiters := 1);
    Waits(s1, w, Zeros(PREFIX), 0, s');
    Join(s, s1, s');
  }

  /** A sender that starts on a full queue at the end of the second mapping rebases and falls asleep. */
  lemma SenderBlocks(s: State) returns (s': State)
    requires |s.pcs| == 2 && s.pcs[SENDER].Idle? && s.rightLock.Free? && s.leftLock.Free? && CacheSound(s)
    requires s.leftWaiters == 0
    requires s.ring.right == 2 * |s.ring.mem| && s.ring.left == |s.ring.mem|
    ensures Reaches(s, s')
    ensures s'.pcs == s.pcs[SENDER := WAsleep(Writer(|s.ring.mem|, [], 1), Zeros(PREFIX), 0)]
    ensures s'.ring == FixRight(FixLeft(s.ring, 0), |s.ring.mem|)
    ensures s'.leftLock == Free && s'.rightLock == Taken(SENDER)
    ensures s'.leftWaiters == 1 && s'.rightWaiters == s.rightWaiters
  {
    hide Reaches, Zeros;
    var size := |s.ring.mem|;
    var s1 := MeetsEnd(s);
    var s2 := Sender(s1, WCache(Writer(size, [], 1), Zeros(PREFIX)))
                .(ring := FixRight(FixLeft(s.ring, 0), size), leftCached := size, rightCached := 0);
    Rebases(s1, NewWriter(s), Zeros(PREFIX), s2);
    Join(s, s1, s2);
    s' := FindsNoRoom(s2, Writer(size, [], 1));
    Join(s, s2, s');
  }

  // ---- The run ----

  lemma ReachedInv(mem: Memory, s: State)
    requires Reaches(Init(mem, 2), s)
    ensures Inv(s) && RingInv(s.ring)
  {
    var events :| Run(Init(mem, 2), events) == s;
    AlwaysInv(mem, 2, events);
  }

  /** Send and receive: the queue is empty again, `PREFIX + |p|` bytes further on. */
  lemma Passes(mem: Memory, s: State, p: Message) returns (s': State)
    requires Reaches(Init(mem, 2), s)
    requires s.pcs == [Idle, Idle] && s.rightLock.Free? && s.leftLock.Free? && s.leftWaiters == s.rightWaiters == 0
    requires CacheSound(s) && s.ring.lapL == s.ring.lapR == 0
    requires s.ring.left == s.ring.right && s.ring.got == s.ring.sent
    requires p != [] && |p| + 2 * PREFIX <= |s.ring.mem| && s.ring.right + PREFIX + |p| <= 2 * |s.ring.mem|
    ensures Reaches(Init(mem, 2), s')
    ensures |s'.ring.mem| == |s.ring.mem|
    ensures s' == s.(leftCached := s'.leftCached, rightCached := s'.rightCached, ring := s.ring.(mem := s'.ring.mem,
                     left := s.ring.left + PREFIX + |p|, right := s.ring.right + PREFIX + |p|,
                     consumed := s.ring.consumed + PREFIX + |p|, committed := s.ring.committed + PREFIX + |p|,
                     sent := s.ring.sent + [p], got := s.ring.got + [p]))
    ensures CacheSound(s')
  {
    hide Reaches, RingInv, Inv;
    var s1 := SendOne(s, p);
    Join(Init(mem, 2), s, s1);
    ReachedInv(mem, s1);
    assert Unread(s1.ring) == [p];
    s' := RecvOne(s1, p);
    Join(Init(mem, 2), s1, s');
  }

  /** Asleep on both sides with nobody to wake them. */
  predicate BothAsleep(s: State) {
    |s.pcs| == 2 && s.pcs[SENDER].WAsleep? && s.pcs[RECEIVER].RAsleep?
  }

  lemma BothAsleepIsStuck(s: State)
    requires BothAsleep(s)
    ensures Stuck(s)
  {
    forall t: Tid, c: Choice | t < |s.pcs| && !c.Spurious? ensures Step(s, Thread(t, c)) == s {
      if t == SENDER {
        assert Step(s, Thread(t, c)) == WriteStep(s, t, c);
      } else {
        assert Step(s, Thread(t, c)) == WaitStep(s, t, c);
      }
    }
  }

  /** The first half: two messages pass, the receiver looks, two more messages fill the queue up to the end
      of the second mapping. */
  lemma FillsUp(mem: Memory) returns (s: State)
    requires |mem| >= 18
    ensures Reaches(Init(mem, 2), s)
    ensures s.pcs == [Idle, RSpin(|mem|, |mem|, 0)]
    ensures s.rightLock.Free? && s.leftLock.Free? && s.leftWaiters == s.rightWaiters == 0
    ensures CacheSound(s) && |s.ring.mem| == |mem| && s.ring.left == |mem| && s.ring.right == 2 * |mem|
    ensures s.ring.committed == 2 * |mem| && s.ring.rebases == 0
    ensures var p, q := Zeros(|mem| - 17), Zeros(1); s.ring.got == [p, q] && s.ring.sent == [p, q, p, q]
  {
    hide Reaches, Inv, RingInv;
    var start := Init(mem, 2);
    Here(start);
    assert start.pcs == [Idle, Idle];
    var p, q := Zeros(|mem| - 17), Zeros(1);
    var s1 := Passes(mem, start, p);
    var s2 := Passes(mem, s1, q);
    var s3 := Receiver(s2, RSpin(|mem|, |mem|, 0)).(leftCached := |mem|);
    LeftCacheSound(mem, s2);
    Looks(s2, s3);
    Join(start, s2, s3);
    var s4 := SendOne(s3, p);
    Join(start, s3, s4);
    s := SendOne(s4, q);
    Join(start, s4, s);
  }

  lemma LeftCacheSound(mem: Memory, s: State)
    requires Reaches(Init(mem, 2), s) && s.pcs == [Idle, Idle]
    ensures s.leftCached == U32_MAX || s.leftCached <= s.ring.right
  {
    ReachedInv(mem, s);
  }

  /** The state in which the run ends: two messages are unread, nobody is awake. */
  predicate FullAndAsleep(s: State) {
    && BothAsleep(s)
    && |s.ring.got| == 2 && |s.ring.sent| == 4
    && s.ring.right == s.ring.left + |s.ring.mem|
  }

  /** The second half: the sender meets the end, rebases and falls asleep, and then the receiver does. */
  lemma FallsAsleepFull(mem: Memory, s: State) returns (s': State)
    requires Reaches(Init(mem, 2), s) && |s.ring.mem| == |mem|
    requires s.pcs == [Idle, RSpin(|mem|, |mem|, 0)]
    requires s.rightLock.Free? && s.leftLock.Free? && s.leftWaiters == s.rightWaiters == 0 && CacheSound(s)
    requires s.ring.left == |mem| && s.ring.right == 2 * |mem| && |s.ring.got| == 2 && |s.ring.sent| == 4
    ensures Reaches(Init(mem, 2), s') && FullAndAsleep(s')
  {
    hide Reaches, Init;
    var s1 := SenderBlocks(s);
    Join(Init(mem, 2), s, s1);
    s' := Receiver(s1, RAsleep(|mem|, |mem|, 0)).(rightWaiters := 1);
    FallsAsleep(s1, |mem|, |mem|, 0, s');
    Join(Init(mem, 2), s1, s');
  }

  /** For every size of the data area that has room for these messages - a page is 4096 bytes - there is a run of one
      sender and one receiver after which both sleep, two messages are unread, and nothing will ever move again. */
  lemma LapDeadlock(mem: Memory) returns (events: seq<Event>)
    requires |mem| >= 18
    ensures var s := After(mem, 2, events);
            && |s.pcs| == 2 && InSend(s.pcs[SENDER]) && InRecv(s.pcs[RECEIVER]) && Stuck(s)
            && |Unread(s.ring)| == 2 && s.ring.right == s.ring.left + |s.ring.mem|
            && Fooled(Init(mem, 2), events)
  {
    hide Reaches, Stuck, Unread, Init, Fooled, Run;
    var s1 := FillsUp(mem);
    var s2 := FallsAsleepFull(mem, s1);
    BothAsleepIsStuck(s2);
    UnreadCount(s2.ring);
    events := Witness(Init(mem, 2), s2);
    if !Fooled(Init(mem, 2), events) { NoDeadlock(mem, 2, events, SENDER, RECEIVER); }
  }

  lemma UnreadCount(r: Ring)
    requires |r.got| <= |r.sent|
    ensures |Unread(r)| == |r.sent| - |r.got|
  {
  }

  lemma Witness(s: State, s': State) returns (events: seq<Event>)
    requires Reaches(s, s')
    ensures Run(s, events) == s'
  {
    events :| Run(s, events) == s';
  }
}
