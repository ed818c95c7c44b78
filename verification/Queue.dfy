/** `MemeQueue` and `MemeWriter` as the code runs them: objects over one data area, with real loops.
    The other processes act between the accesses to the header and the data area, as far as the lock that is held
    lets them, and while this process waits.  A copy and the stores of a rebase are not interrupted here; that is the
    subject of Protocol. */
module Queue {
  import opened Bytes
  import opened Framing
  import opened RingMemory
  import opened WritePlan
  import opened Callbacks

  /** The messages of all batches. */
  function Total(batches: seq<seq<Message>>): nat {
    if batches == [] then 0 else Total(batches[..|batches| - 1]) + |batches[|batches| - 1]|
  }

  lemma TotalMore(batches: seq<seq<Message>>, i: nat)
    requires i < |batches|
    ensures Total(batches[..i + 1]) == Total(batches[..i]) + |batches[i]|
  {
    assert batches[..i + 1][..i] == batches[..i];
  }

  /** What `recv` does in a bounded number of waits. */
  datatype Received = Got(m: Message) | StillWaiting

  /** `later` is what is left of `earlier` after its oldest messages were taken. */
  ghost predicate Suffix(later: seq<Message>, earlier: seq<Message>) {
    |later| <= |earlier| && later == earlier[|earlier| - |later|..]
  }

  lemma HeadAndRest(s: seq<Message>)
    requires s != []
    ensures s == [s[0]] + s[1..]
  {
  }

  lemma LastAndFront(s: seq<Message>, m: Message)
    ensures (s + [m])[..|s + [m]| - 1] == s && (s + [m])[|s + [m]| - 1] == m
  {
  }

  lemma SuffixSelf(s: seq<Message>)
    ensures Suffix(s, s)
  {
  }

  lemma SuffixChain(a: seq<Message>, b: seq<Message>, c: seq<Message>)
    requires Suffix(a, b) && Suffix(b, c)
    ensures Suffix(a, c)
  {
  }

  lemma Associative(a: seq<byte>, b: seq<byte>, c: seq<byte>)
    ensures (a + b) + c == a + (b + c)
  {
  }

  lemma SuffixRest(s: seq<Message>, rest: seq<Message>)
    requires |s| == |rest| + 1 && s[1..] == rest
    ensures Suffix(rest, s)
  {
  }

  lemma OneMore(history: seq<Message>, batch: seq<Message>, i: nat)
    requires i < |batch|
    ensures history + batch[..i + 1] == history + batch[..i] + [batch[i]]
  {
  }

  lemma InBatch(batch: seq<Message>, i: nat)
    requires i < |batch|
    ensures batch[i] in batch
  {
  }

  lemma Whole(start: seq<Message>, batch: seq<Message>)
    ensures start + batch[..0] == start && start + batch[..|batch|] == start + batch
  {
  }

  /** What a send and the receivers beside it leave. */
  lemma SuffixGrows(after: seq<Message>, before: seq<Message>, start: seq<Message>, batch: seq<Message>, i: nat)
    requires i < |batch| && after != [] && after[|after| - 1] == batch[i]
    requires Suffix(after[..|after| - 1], before) && Suffix(before, start + batch[..i])
    ensures Suffix(after, start + batch[..i + 1])
  {
    SuffixChain(after[..|after| - 1], before, start + batch[..i]);
    assert start + batch[..i + 1] == start + batch[..i] + [batch[i]];
    assert after == after[..|after| - 1] + [batch[i]];
  }

  /** The same messages went to the end of both sequences. */
  ghost predicate Grown(unread: seq<Message>, sent: seq<Message>, unread': seq<Message>, sent': seq<Message>) {
    unread <= unread' && sent' == sent + unread'[|unread|..]
  }

  lemma GrownSelf(u: seq<Message>, s: seq<Message>)
    ensures Grown(u, s, u, s)
  {
  }

  lemma GrownChain(u: seq<Message>, s: seq<Message>, u': seq<Message>, s': seq<Message>,
                   u'': seq<Message>, s'': seq<Message>)
    requires Grown(u, s, u', s') && Grown(u', s', u'', s'')
    ensures Grown(u, s, u'', s'')
  {
    assert u''[|u|..] == u'[|u|..] + u''[|u'|..];
  }

  lemma GrownTail(u: seq<Message>, s: seq<Message>, u': seq<Message>, s': seq<Message>)
    requires Grown(u, s, u', s') && u != []
    ensures Grown(u[1..], s, u'[1..], s') && u'[0] == u[0]
  {
  }

  lemma GrownCounts(u: seq<Message>, s: seq<Message>, u': seq<Message>, s': seq<Message>)
    requires Grown(u, s, u', s')
    ensures u <= u' && s <= s' && |s'| - |u'| == |s| - |u|
  {
  }

  lemma SuffixTail(u: seq<Message>, s: seq<Message>)
    requires Suffix(u, s) && u != []
    ensures Suffix(u[1..], s) && s[|s| - |u|] == u[0]
  {
  }

  lemma SuffixBoth(u: seq<Message>, s: seq<Message>, m: Message)
    requires Suffix(u, s)
    ensures Suffix(u + [m], s + [m])
  {
  }

  lemma GrownByOne(u: seq<Message>, s: seq<Message>, m: Message)
    ensures Grown(u, s, u + [m], s + [m])
  {
  }

  /** The oldest of `there` was taken and more was sent: it is the last one taken. */
  lemma DeliveredNext(there: seq<Message>, before: seq<Message>, u: seq<Message>, s: seq<Message>)
    requires there != [] && Suffix(there, before) && Grown(there[1..], before, u, s)
    ensures before <= s && |u| < |s| && s[|s| - |u| - 1] == there[0] && |s| - |u| == |before| - |there| + 1
  {
  }

  lemma GrownFirst(was: seq<Message>, history: seq<Message>, there: seq<Message>, before: seq<Message>,
                   u: seq<Message>, s: seq<Message>)
    requires was != [] && Grown(was, history, there, before) && there != [] && Grown(there[1..], before, u, s)
    ensures there[0] == was[0] && was[1..] <= u
  {
  }

  /** Messages were taken, and there was no more than one wait for each. */
  ghost predicate Waited(after: seq<Message>, before: seq<Message>, waits: nat) {
    Suffix(after, before) && waits + |after| <= |before|
  }

  lemma WaitedNone(s: seq<Message>)
    ensures Waited(s, s, 0)
  {
  }

  lemma WaitedMeans(after: seq<Message>, before: seq<Message>, waits: nat)
    requires Waited(after, before, waits)
    ensures Suffix(after, before) && waits + |after| <= |before|
  {
  }

  lemma WaitedChain(a: seq<Message>, b: seq<Message>, c: seq<Message>, first: nat, second: nat)
    requires Waited(a, b, second) && Waited(b, c, first)
    ensures Waited(a, c, first + second)
  {
    hide Suffix;
    SuffixChain(a, b, c);
  }

  // ---- A send and the queue it began with ----

  /** Since the beginning of a send messages were taken, the offsets moved back `fixes` times, and nothing else. */
  ghost predicate Since(size: nat, room: Room, fixes: nat, right: nat, unread: seq<Message>) {
    && fixes <= 1
    && Suffix(unread, room.unread)
    && right + Shift(size, fixes) == room.right
    && room.right == room.left + Size(room.unread)
  }

  function Shift(size: nat, fixes: nat): nat { if fixes == 0 then 0 else size }

  lemma SinceTaken(size: nat, room: Room, fixes: nat, right: nat, unread: seq<Message>, unread': seq<Message>)
    requires Since(size, room, fixes, right, unread) && Suffix(unread', unread)
    ensures Since(size, room, fixes, right, unread')
  {
    SuffixChain(unread', unread, room.unread);
  }

  lemma SinceRebased(size: nat, room: Room, right: nat, unread: seq<Message>)
    ensures Since(size, room, 0, right, unread) && right >= size ==> Since(size, room, 1, right - size, unread)
  {
  }

  /** The progress of a send: `unread` is left of what was there. */
  function At(room: Room, fixes: nat, unread: seq<Message>): Progress {
    Progress(if |unread| <= |room.unread| then |room.unread| - |unread| else 0, fixes)
  }

  /** The present left offset in the numbering of the start. */
  lemma SinceLeft(size: nat, room: Room, fixes: nat, left: nat, right: nat, unread: seq<Message>)
    requires Since(size, room, fixes, right, unread) && right == left + Size(unread)
    ensures At(room, fixes, unread).taken <= |room.unread|
    ensures left + Shift(size, fixes) == LeftAt(room, At(room, fixes, unread).taken)
  {
    var k := |room.unread| - |unread|;
    assert room.unread == room.unread[..k] + unread;
    SizeConcat(room.unread[..k], unread);
  }

  /** More messages taken are more bytes. */
  lemma LeftGrows(room: Room, k: nat, n: nat)
    requires k < n <= |room.unread|
    ensures LeftAt(room, k) < LeftAt(room, n)
  {
    assert room.unread[..n] == room.unread[..k] + room.unread[k..n];
    SizeConcat(room.unread[..k], room.unread[k..n]);
    SizeZero(room.unread[k..n]);
  }

  lemma SuffixLength(a: seq<Message>, b: seq<Message>)
    requires Suffix(a, b)
    ensures |a| <= |b|
  {
  }

  lemma TailGrows(a: seq<byte>, b: seq<byte>)
    requires |a| >= PREFIX
    ensures (a + b)[PREFIX..] == a[PREFIX..] + b
  {
  }

  /** The ring seen from its two offsets: the unread messages stand between them. */
  ghost predicate Stands(mem: seq<byte>, left: nat, right: nat, unread: seq<Message>) {
    && 2 * PREFIX <= |mem| && 2 * |mem| <= U32_MAX
    && right == left + Size(unread)
    && Size(unread) <= |mem|
    && right <= 2 * |mem|
    && Holds(mem, left, EncodeAll(unread))
    && forall m | m in unread :: |m| + 2 * PREFIX <= |mem|
  }

  /** The queue seen from its fields and its history. */
  ghost predicate Sound(mem: seq<byte>, left: nat, right: nat, leftCached: nat, rightCached: nat,
                        unread: seq<Message>, sent: seq<Message>) {
    && Stands(mem, left, right, unread)
    && Suffix(unread, sent)
    && (leftCached == U32_MAX || leftCached <= right)
    && (rightCached == U32_MAX || rightCached <= left)
  }

  // ---- What the methods do, on values ----

  /** What a reader finds at the left offset. */
  lemma OldestRead(mem: Memory, left: nat, right: nat, unread: seq<Message>)
    requires Stands(mem, left, right, unread) && left < right
    ensures unread != []
    ensures ReadPrefix(mem, left) == |unread[0]| && Load(mem, left + PREFIX, |unread[0]|) == unread[0]
  {
    HeadRead(mem, left, unread);
  }

  /** Without the oldest message the others stand behind it. */
  lemma OldestTaken(mem: Memory, left: nat, right: nat, unread: seq<Message>, left': nat)
    requires Stands(mem, left, right, unread) && unread != [] && left' == left + PREFIX + |unread[0]|
    ensures Stands(mem, left', right, unread[1..])
    ensures left' <= right && Add32(Add32(left, PREFIX), Trunc32(|unread[0]|)) == left'
  {
    hide Load, EncodeAll, LittleEndian, FromLittleEndian;
    HeadRead(mem, left, unread);
  }

  /** The queue without its oldest message. */
  lemma SoundTaken(mem: Memory, left: nat, right: nat, leftCached: nat, rightCached: nat,
                   unread: seq<Message>, sent: seq<Message>, left': nat)
    requires Sound(mem, left, right, leftCached, rightCached, unread, sent) && unread != []
    requires left' == left + PREFIX + |unread[0]|
    ensures Sound(mem, left', right, leftCached, rightCached, unread[1..], sent)
    ensures Add32(Add32(left, PREFIX), Trunc32(|unread[0]|)) == left'
  {
    OldestTaken(mem, left, right, unread, left');
    hide Stands, Suffix, Add32, Trunc32;
    SuffixTail(unread, sent);
  }

  /** A lap back. */
  lemma LapBack(mem: Memory, left: nat, right: nat, unread: seq<Message>, staged: seq<byte>)
    requires Stands(mem, left, right, unread) && left >= |mem| && Holds(mem, right, staged)
    ensures Stands(mem, left - |mem|, right - |mem|, unread) && Holds(mem, right - |mem|, staged)
  {
    hide Load, EncodeAll, Size;
    assert Laps(1, |mem|) == |mem|;
    LoadLaps(mem, left - |mem|, 1, |EncodeAll(unread)|);
    LoadLaps(mem, right - |mem|, 1, |staged|);
  }

  /** Bytes that are stored behind the staged ones, within a lap of the left offset. */
  lemma Staged(mem: Memory, left: nat, right: nat, unread: seq<Message>, staged: seq<byte>, b: seq<byte>)
    requires Stands(mem, left, right, unread) && Holds(mem, right, staged)
    requires right + |staged| + |b| <= left + |mem|
    ensures var mem' := Store(mem, right + |staged|, b);
            Stands(mem', left, right, unread) && Holds(mem', right, staged + b)
  {
    EncodeAllSize(unread);
    StoreKeeps(mem, right + |staged|, b, left, EncodeAll(unread));
    StoreBehind(mem, right, staged, b);
  }

  lemma SoundStaged(mem: Memory, left: nat, right: nat, leftCached: nat, rightCached: nat,
                    unread: seq<Message>, sent: seq<Message>, staged: seq<byte>, b: seq<byte>)
    requires Sound(mem, left, right, leftCached, rightCached, unread, sent) && Holds(mem, right, staged)
    requires right + |staged| + |b| <= left + |mem|
    ensures var mem' := Store(mem, right + |staged|, b);
            Sound(mem', left, right, leftCached, rightCached, unread, sent) && Holds(mem', right, staged + b)
  {
    hide Stands, Holds, Store, Suffix;
    Staged(mem, left, right, unread, staged, b);
  }

  lemma NothingStaged(mem: Memory, v: nat)
    ensures Holds(mem, v, [])
  {
  }

  lemma Published(mem: Memory, left: nat, right: nat, unread: seq<Message>, m: Message)
    requires Stands(mem, left, right, unread) && Holds(mem, right, Encode(m))
    requires |m| + 2 * PREFIX <= |mem| && right + PREFIX + |m| <= 2 * |mem| && right + PREFIX + |m| <= left + |mem|
    ensures Stands(mem, left, right + PREFIX + |m|, unread + [m])
  {
    SizeAppend(unread, m);
    EncodeAllAppend(unread, m);
    EncodeAllSize(unread);
    HoldsConcat(mem, left, EncodeAll(unread), Encode(m));
  }

  /** The length replaces the zeroed prefix. */
  lemma PrefixStored(mem: Memory, left: nat, right: nat, unread: seq<Message>, staged: seq<byte>)
    requires Stands(mem, left, right, unread) && Holds(mem, right, staged)
    requires PREFIX <= |staged| && right + |staged| <= left + |mem|
    ensures var mem' := Store(mem, right, LittleEndian(|staged| - PREFIX, PREFIX));
            Stands(mem', left, right, unread) && Holds(mem', right, Encode(staged[PREFIX..]))
  {
    var prefix := LittleEndian(|staged| - PREFIX, PREFIX);
    EncodeAllSize(unread);
    StoreKeeps(mem, right, prefix, left, EncodeAll(unread));
    StoreOver(mem, right, staged, prefix);
    assert Encode(staged[PREFIX..]) == prefix + staged[PREFIX..];
  }

  class MemeQueue {
    const data: array<byte>
    var left: nat
    var right: nat
    var leftCached: nat     // a copy of the right offset, kept beside the left one
    var rightCached: nat    // a copy of the left offset, kept beside the right one
    ghost var unread: seq<Message>
    ghost var sent: seq<Message>

    ghost predicate Valid()
      reads this, data
    {
      Sound(data[..], left, right, leftCached, rightCached, unread, sent)
    }

    lemma Bounds()
      requires Valid()
      ensures 2 * PREFIX <= data.Length && 2 * data.Length <= U32_MAX
      ensures left <= right <= 2 * data.Length && right == left + Size(unread)
    {
    }

    lemma InOrder()
      requires Valid()
      ensures Suffix(unread, sent)
    {
    }

    /** The owner zeroes the header and clears the caches. */
    constructor (data: array<byte>)
      requires 2 * PREFIX <= data.Length && 2 * data.Length <= U32_MAX
      ensures Valid() && this.data == data && unread == sent == []
      ensures left == right == 0 && leftCached == rightCached == U32_MAX
    {
      this.data := data;
      left, right := 0, 0;
      leftCached, rightCached := U32_MAX, U32_MAX;
      unread, sent := [], [];
    }

    /** A later process attaches: both caches are cleared. */
    method Attach()
      requires Valid()
      modifies `leftCached, `rightCached
      ensures Valid() && leftCached == rightCached == U32_MAX
    {
      leftCached, rightCached := U32_MAX, U32_MAX;
    }

    /** A synchronising load by a sender: receivers may act between the load and the store of its value. */
    method SyncLoadLeft() returns (l: nat)
      requires Valid()
      modifies `left, `unread, `leftCached, `rightCached
      ensures Valid() && Suffix(unread, old(unread))
      ensures l == old(left) == rightCached && l <= left
      ensures |unread| == |old(unread)| ==> left == l
    {
      l := left;
      Receivers(false);
      rightCached := l;
    }

    /** A synchronising load by a receiver: senders may act between the load and the store of its value. */
    method SyncLoadRight() returns (r: nat)
      requires Valid()
      modifies `right, `unread, `sent, `leftCached, `rightCached, data
      ensures Valid() && left == old(left) && Grown(old(unread), old(sent), unread, sent)
      ensures r == old(right) == leftCached && r <= right
    {
      r := right;
      Senders();
      leftCached := r;
    }

    /** The four stores of a rebase; the unread messages and what is staged behind them are still there. */
    method FixOffsets(newLeft: nat, newRight: nat, ghost staged: seq<byte>)
      requires Valid() && Holds(data[..], right, staged)
      requires newLeft + data.Length == left && newRight + data.Length == right
      modifies `left, `right, `leftCached, `rightCached
      ensures Valid() && left == newLeft && right == newRight
      ensures leftCached == right && rightCached == left
      ensures Holds(data[..], right, staged)
    {
      LapBack(data[..], left, right, unread, staged);
      left := newLeft;
      right := newRight;
      leftCached := newRight;
      rightCached := newLeft;
    }

    /** Copies `b` into the data area, wrapping from the last cell to the first. */
    method CopyIn(v: nat, b: seq<byte>)
      requires 2 * PREFIX <= data.Length && 2 * data.Length <= U32_MAX
      modifies data
      ensures data[..] == Store(old(data[..]), v, b)
    {
      ghost var start := data[..];
      var i := 0;
      while i < |b|
        invariant 0 <= i <= |b|
        invariant Store(data[..], v + i, b[i..]) == Store(start, v, b)
      {
        CellIsRemainder(v + i, data.Length);
        ghost var here := data[..];
        data[(v + i) % data.Length] := b[i];
        assert data[..] == here[Cell(v + i, |here|) := b[i]];
        assert b[i..][0] == b[i] && b[i..][1..] == b[i + 1..];
        i := i + 1;
      }
    }

    /** The slice that `recv` hands to its callback: the oldest payload. */
    method Slice() returns (m: Message)
      requires Valid() && left < right
      ensures unread != [] && m == unread[0]
    {
      OldestRead(data[..], left, right, unread);
      var size := ReadPrefix(data[..], left);
      m := Load(data[..], left + PREFIX, size);
    }

    /** `recv` commits the left offset behind a slice of length `size`. */
    method CommitLeft(size: nat)
      requires Valid() && unread != [] && size == |unread[0]|
      modifies `left, `unread
      ensures Valid() && unread == old(unread)[1..] && left == old(left) + PREFIX + size
    {
      Bounds();
      hide Sound, Add32, Trunc32;
      SoundTaken(data[..], left, right, leftCached, rightCached, unread, sent, left + PREFIX + size);
      left := Add32(Add32(left, PREFIX), Trunc32(size));
      unread := unread[1..];
    }

    /** Another receiver takes the oldest message. */
    method Take() returns (m: Message)
      requires Valid() && left < right
      modifies `left, `unread
      ensures Valid()
      ensures old(unread) == [m] + unread && left == old(left) + PREFIX + |m|
    {
      hide Valid;
      m := Slice();
      HeadAndRest(unread);
      CommitLeft(|m|);
    }

    /** Other processes at work while a sender holds the right lock: receivers take messages, at least one if
        `mustTake`, and processes attach. */
    method Receivers(mustTake: bool)
      requires Valid() && (mustTake ==> unread != [])
      modifies `left, `unread, `leftCached, `rightCached
      ensures Valid() && Suffix(unread, old(unread))
      ensures left >= old(left)
      ensures |unread| == |old(unread)| ==> left == old(left)
      ensures mustTake ==> |unread| < |old(unread)|
    {
      Bounds();
      SizeZero(unread);
      hide Valid, Suffix, Size;
      ghost var start, at := unread, left;
      SuffixSelf(start);
      if mustTake { TakeOne(start); }
      var more: bool := *;
      while more && left < right
        invariant Valid() && Suffix(unread, start) && |unread| <= |start|
        invariant left >= at && (|unread| == |start| ==> left == at)
        invariant mustTake ==> |unread| < |start|
        decreases |unread|
      {
        TakeOne(start);
        more := *;
      }
      var attach: bool := *;
      if attach { Attach(); }
    }

    /** One more of the messages of `start` is taken. */
    method TakeOne(ghost start: seq<Message>)
      requires Valid() && left < right && Suffix(unread, start)
      modifies `left, `unread
      ensures Valid() && Suffix(unread, start)
      ensures |unread| < |old(unread)| && left >= old(left)
    {
      hide Valid, Suffix;
      ghost var before := unread;
      var _ := Take();
      SuffixRest(before, unread);
      SuffixChain(unread, before, start);
    }

    /** The message branch of `recv`: hand out the oldest payload and release it.  Senders act while the callback has
        the slice, and it still is the same. */
    method Deliver() returns (m: Message)
      requires Valid() && left < right
      modifies `left, `right, `unread, `sent, `leftCached, `rightCached, data
      ensures Valid()
      ensures old(unread) != [] && m == old(unread)[0] && Grown(old(unread)[1..], old(sent), unread, sent)
    {
      hide Valid, Grown;
      m := Slice();
      ghost var was, history := unread, sent;
      Senders();
      GrownTail(was, history, unread, sent);
      GrownCounts(was, history, unread, sent);
      Bounds();
      SizeZero(unread);
      var again := Slice();
      assert again == m;
      CommitLeft(|m|);
    }

    /** Bytes that another sender stages and has not published. */
    method StageOther(b: seq<byte>)
      requires Valid() && right + |b| <= left + data.Length
      modifies data
      ensures Valid() && Holds(data[..], right, b)
    {
      Bounds();
      hide Stands, Holds, Store, Suffix;
      NothingStaged(data[..], right);
      Staged(data[..], left, right, unread, [], b);
      assert [] + b == b;
      CopyIn(right, b);
    }

    /** There is room for `m` without a rebase. */
    predicate HasRoom(m: Message)
      reads this
    {
      && |m| + 2 * PREFIX <= data.Length
      && right + PREFIX + |m| <= left + data.Length && right + PREFIX + |m| <= 2 * data.Length
    }

    /** Another sender sends `m` without a rebase. */
    method SendOther(m: Message)
      requires Valid() && HasRoom(m)
      modifies `right, `unread, `sent, data
      ensures Valid() && unread == old(unread) + [m] && sent == old(sent) + [m]
      ensures right == old(right) + PREFIX + |m|
    {
      Bounds();
      hide Holds, Stands, Encode, Suffix;
      StageOther(Encode(m));
      Published(data[..], left, right, unread, m);
      SuffixBoth(unread, sent, m);
      right := right + PREFIX + |m|;
      unread, sent := unread + [m], sent + [m];
    }

    /** Other processes at work while a receiver holds the left lock: senders send what fits without a rebase, or stage
        a part of it, and processes attach. */
    method Senders()
      requires Valid()
      modifies `right, `unread, `sent, `leftCached, `rightCached, data
      ensures Valid() && left == old(left) && right >= old(right) && Grown(old(unread), old(sent), unread, sent)
    {
      GrownSelf(unread, sent);
      ghost var was, history := unread, sent;
      hide Valid, Grown;
      var more: bool := *;
      while more
        invariant Valid() && right >= old(right) && Grown(was, history, unread, sent)
        decreases 2 * data.Length - right, more
      {
        var m: Message := *;
        if HasRoom(m) {
          ghost var u, s := unread, sent;
          SendOther(m);
          GrownByOne(u, s, m);
          GrownChain(was, history, u, s, unread, sent);
          more := *;
        } else {
          more := false;
        }
      }
      var part: seq<byte> := *;
      if right + |part| <= left + data.Length { StageOther(part); }
      var attach: bool := *;
      if attach { Attach(); }
    }

    /** `send`: success appends what the calls of the callback accepted, as one message, and failure appends nothing.
        A call is answered short only at the end of a window that the queue had during the send.  Every wait of the
        whole send is paid for by a message that was unread at its start. */
    method Send(cb: Callback) returns (ok: bool, payload: Message, ghost waits: nat)
      requires Valid()
      modifies this, data
      ensures Valid()
      ensures Sends(data.Length, Room(old(left), old(right), old(unread)), Progress(0, 0), PREFIX, cb, ok, payload)
      ensures sent == if ok then old(sent) + [payload] else old(sent)
      ensures ok ==> unread != [] && Suffix(unread[..|unread| - 1], old(unread)) && unread[|unread| - 1] == payload
      ensures !ok ==> Suffix(unread, old(unread))
      ensures waits + |unread| <= |old(unread)| + if ok then 1 else 0
    {
      hide Stands, Holds, TooMuch, Sends, Suffix, Since, Waited;
      ghost var before, room := unread, Room(left, right, unread);
      var writer := new MemeWriter(this);
      Bounds();
      PrefixFits(data.Length);
      var _, w := writer.WriteFully(Zeros(PREFIX));
      ghost var between, p := unread, writer.Now();
      writer.Underway();
      ok, payload, waits := writer.RunCallback(cb, p);
      SendsEarlier(data.Length, room, Progress(0, 0), p, PREFIX, cb, ok, payload);
      WaitedChain(unread, between, before, w, waits);
      waits := w + waits;
      WaitedMeans(unread, before, waits);
      if ok {
        TailGrows(Zeros(PREFIX), payload);
        ghost var front := unread;
        writer.Commit();
        SuffixLength(unread[..|unread| - 1], front);
        SuffixChain(unread[..|unread| - 1], front, before);
      }
    }

    /** Another sender sends `m`, the next message of `batch`. */
    method SendWhole(m: Message, ghost start: seq<Message>, ghost history: seq<Message>,
                     ghost batch: seq<Message>, ghost i: nat)
      requires Valid() && |m| + 2 * PREFIX <= data.Length
      requires i < |batch| && m == batch[i] && Suffix(unread, start + batch[..i]) && sent == history + batch[..i]
      modifies this, data
      ensures Valid() && Suffix(unread, start + batch[..i + 1]) && sent == history + batch[..i + 1]
    {
      Bounds();
      hide Valid, Sends, Suffix, WriteAllThen;
      ghost var before, room := unread, Room(left, right, unread);
      var ok, payload, _ := Send(WriteAllThen(m, Return(true), Return(false)));
      OneCall(data.Length, room, Progress(0, 0), m, ok, payload);
      OneMore(history, batch, i);
      SuffixGrows(unread, before, start, batch, i);
    }

    /** The others' turn while a receiver waits: they send the messages of `batch`, and other receivers take some. */
    method Others(batch: seq<Message>)
      requires Valid()
      requires forall m | m in batch :: |m| + 2 * PREFIX <= data.Length
      modifies this, data
      ensures Valid() && sent == old(sent) + batch && Suffix(unread, old(unread) + batch)
    {
      Bounds();
      hide Valid, Sends, Suffix, WriteAllThen;
      ghost var start, history := unread, sent;
      Whole(start, batch);
      Whole(history, batch);
      SuffixSelf(start);
      for i := 0 to |batch|
        invariant Valid() && Suffix(unread, start + batch[..i]) && sent == history + batch[..i]
      {
        InBatch(batch, i);
        SendWhole(batch[i], start, history, batch, i);
      }
      ghost var all := unread;
      Receivers(false);
      SuffixChain(unread, all, start + batch);
    }

    /** What `recv` sees: the left offset, whether there is a message, and senders at work in between. */
    method LookRight() returns (found: bool)
      requires Valid()
      modifies `right, `unread, `sent, `leftCached, `rightCached, data
      ensures Valid() && left == old(left) && Grown(old(unread), old(sent), unread, sent)
      ensures found ==> left < right
      ensures !found ==> old(unread) == []
    {
      Bounds();
      SizeZero(unread);
      hide Stands, Suffix, Grown;
      var l := left;
      ghost var was, history := unread, sent;
      Senders();
      GrownCounts(was, history, unread, sent);
      Bounds();
      SizeZero(unread);
      if leftCached != U32_MAX && leftCached > l {
        found := true;
      } else {
        ghost var u, s := unread, sent;
        var r := SyncLoadRight();
        GrownChain(was, history, u, s, unread, sent);
        found := r > l;
      }
    }

    /** `m` is the last of the messages of `sent` that were taken, if `unread` is what is left. */
    predicate LastTaken(m: Message, unread: seq<Message>, sent: seq<Message>) {
      |unread| < |sent| && sent[|sent| - |unread| - 1] == m
    }

    /** `recv`.  `arrivals[i]` is what the others send during the wait number `i`; a wait may end by itself or with
        nothing left to take, and then the next one begins.  The message that is delivered is the next one in the order
        of sending, and a message that is there is never missed: a wait begins, and the last one ends in vain, only
        when everything that was sent before it has been taken. */
    method Recv(arrivals: seq<seq<Message>>) returns (r: Received, waits: nat)
      requires Valid()
      requires forall batch, m | batch in arrivals && m in batch :: |m| + 2 * PREFIX <= data.Length
      modifies this, data
      ensures Valid() && waits <= |arrivals| && old(sent) <= sent
      ensures r.Got? ==> LastTaken(r.m, unread, sent) && |sent| - |unread| > |old(sent)| - |old(unread)|
      ensures old(unread) != [] ==> waits == 0 && r == Got(old(unread)[0]) && old(unread)[1..] <= unread
      ensures r.Got? && waits > 0 ==> |sent| - |unread| > |old(sent)| + Total(arrivals[..waits - 1])
      ensures r.StillWaiting? ==> waits == |arrivals| && |sent| - |unread| >= |old(sent)| + Total(arrivals)
    {
      ghost var was, history := unread, sent;
      GrownSelf(was, history);
      hide Valid, Suffix, Grown;
      waits := 0;
      while true
        invariant Valid() && waits <= |arrivals| && history <= sent
        invariant |sent| - |unread| >= |history| - |was|
        invariant waits == 0 ==> Grown(was, history, unread, sent)
        invariant waits > 0 ==> was == []
        invariant |sent| >= |history| + Total(arrivals[..waits])
        invariant waits > 0 ==> |sent| - |unread| >= |history| + Total(arrivals[..waits - 1])
        decreases |arrivals| - waits
      {
        ghost var u, s := unread, sent;
        var found := LookRight();
        GrownCounts(u, s, unread, sent);
        if waits == 0 {
          GrownCounts(was, history, u, s);
          GrownChain(was, history, u, s, unread, sent);
        }
        if found {
          ghost var there, before := unread, sent;
          InOrder();
          var m := Deliver();
          DeliveredNext(there, before, unread, sent);
          if waits == 0 && was != [] { GrownFirst(was, history, there, before, unread, sent); }
          return Got(m), waits;
        } else if waits == |arrivals| {
          assert arrivals[..waits] == arrivals;
          return StillWaiting, waits;
        } else {
          assert arrivals[waits] in arrivals;
          TotalMore(arrivals, waits);
          ghost var there := unread;
          Others(arrivals[waits]);
          SuffixLength(unread, there + arrivals[waits]);
          waits := waits + 1;
        }
      }
    }
  }

  /** The zeroed prefix is never refused. */
  lemma PrefixFits(size: nat)
    requires 2 * PREFIX <= size <= U32_MAX
    ensures !TooMuch(size, 0, PREFIX)
  {
  }

  /** What a plan means that was made when the left offset was `seen`, and is acted on when it is `left`. */
  predicate Planned(size: nat, pos: nat, len: nat, seen: nat, left: nat, plan: Plan) {
    && seen <= left
    && (plan.Copy? ==> plan.n <= len && pos + plan.n <= Min(seen + size, 2 * size) && (plan.n == 0 ==> len == 0))
    && (plan.Copy? && plan.n < len ==> pos + plan.n == Min(seen + size, 2 * size))
    && (plan.Rebase? ==> pos == 2 * size && left >= size)
    && (plan.Wait? ==> pos == seen + size)
  }

  lemma PlanActs(size: nat, pos: nat, len: nat, l: nat, seen: nat, left: nat)
    requires pos <= 2 * size && l <= seen <= left && pos <= seen + size && 2 * size <= U32_MAX
    requires PlanWrite(size, pos, len, l) == PlanWrite(size, pos, len, seen)
    ensures Planned(size, pos, len, seen, left, PlanWrite(size, pos, len, l))
  {
    hide PlanWrite;
    PlanMeaning(size, pos, len, seen);
  }

  /** The end of a window, in the numbering of the present and in that of the start. */
  lemma WindowSeen(size: nat, room: Room, at: Progress, seen: nat, right: nat, total: nat)
    requires at.taken <= |room.unread| && at.fixes <= 1
    requires seen + Shift(size, at.fixes) == LeftAt(room, at.taken)
    requires right + Shift(size, at.fixes) == room.right
    ensures right + total == Min(seen + size, 2 * size) <==> room.right + total == WindowEnd(size, room, at)
  {
  }

  /** `seen` is the left offset that the queue had at the progress `at`, between `before` and `after`. */
  ghost predicate Looked(size: nat, room: Room, before: Progress, seen: nat, at: Progress, after: Progress) {
    Later(before, at, room) && Later(at, after, room) && seen + Shift(size, at.fixes) == LeftAt(room, at.taken)
  }

  /** The writer stands a lap behind the left offset at progress `p`, so that the window is full. */
  ghost predicate FullAt(size: nat, room: Room, total: nat, p: Progress) {
    p.taken <= |room.unread| && room.right + total == LeftAt(room, p.taken) + size
  }

  /** A full window is full up to one left offset only. */
  lemma FullOnce(size: nat, room: Room, total: nat, p: Progress, q: Progress)
    requires FullAt(size, room, total, p) && FullAt(size, room, total, q)
    ensures p.taken == q.taken
  {
    if p.taken < q.taken { LeftGrows(room, p.taken, q.taken); }
    if q.taken < p.taken { LeftGrows(room, q.taken, p.taken); }
  }

  lemma FullHere(size: nat, room: Room, before: Progress, seen: nat, at: Progress, after: Progress,
                 right: nat, total: nat)
    requires Looked(size, room, before, seen, at, after) && right + Shift(size, at.fixes) == room.right
    requires right + total == seen + size
    ensures FullAt(size, room, total, at) && Later(before, at, room)
  {
  }

  lemma LookedNow(size: nat, room: Room, left: nat, p: Progress)
    requires Later(p, p, room) && left + Shift(size, p.fixes) == LeftAt(room, p.taken)
    ensures Looked(size, room, p, left, p, p)
  {
  }

  lemma LookedEarlier(size: nat, room: Room, first: Progress, before: Progress, seen: nat, at: Progress,
                      after: Progress)
    requires Later(first, before, room) && Looked(size, room, before, seen, at, after)
    ensures Looked(size, room, first, seen, at, after) && Later(first, after, room)
    ensures before.taken <= at.taken <= after.taken
  {
  }

  lemma WaitedOnce(size: nat, room: Room, before: Progress, total: nat, waits: nat, full: Progress, at: Progress)
    requires waits <= 1
    requires waits == 1 ==> Later(before, full, room) && full.taken < at.taken && FullAt(size, room, total, full)
    ensures WaitedWell(size, room, before, total, waits, at)
  {
  }

  /** There was one wait at most, on a window that was full up to a message that was gone by the time of `at`. */
  ghost predicate WaitedWell(size: nat, room: Room, before: Progress, total: nat, waits: nat, at: Progress) {
    && waits <= 1
    && (waits == 1 ==> exists p :: Later(before, p, room) && p.taken < at.taken && FullAt(size, room, total, p))
  }

  lemma PlanActed(size: nat, pos: nat, len: nat, seen: nat, left: nat, plan: Plan)
    requires Planned(size, pos, len, seen, left, plan)
    ensures seen <= left
    ensures plan.Copy? ==> plan.n <= len && pos + plan.n <= left + size && pos + plan.n <= 2 * size
    ensures plan.Copy? ==> (plan.n == 0 ==> len == 0)
    ensures plan.Copy? && plan.n < len ==> pos + plan.n == Min(seen + size, 2 * size)
    ensures plan.Rebase? ==> pos == 2 * size && left >= size
    ensures plan.Wait? ==> pos == seen + size
  {
  }

  /** A writer seen from its fields and those of its queue. */
  ghost predicate Seated(mem: seq<byte>, left: nat, right: nat, unread: seq<Message>, room: Room,
                         total: nat, offset: nat, staged: seq<byte>, fixes: nat) {
    && 2 * PREFIX <= |mem| && 2 * |mem| <= U32_MAX
    && offset == right
    && total == |staged| && total + PREFIX <= |mem|
    && offset + total <= left + |mem|
    && offset + total <= 2 * |mem|
    && Holds(mem, offset, staged)
    && (fixes == 0 || (fixes == 1 && offset <= |mem|))
    && Since(|mem|, room, fixes, right, unread)
  }

  lemma SeatedTaken(mem: Memory, left: nat, right: nat, unread: seq<Message>, room: Room,
                    total: nat, offset: nat, staged: seq<byte>, fixes: nat, left': nat, unread': seq<Message>)
    requires Seated(mem, left, right, unread, room, total, offset, staged, fixes)
    requires left' >= left && Suffix(unread', unread)
    ensures Seated(mem, left', right, unread', room, total, offset, staged, fixes)
  {
    hide Holds, Since, Suffix;
    SinceTaken(|mem|, room, fixes, right, unread, unread');
  }

  lemma SeatedStaged(mem: Memory, left: nat, right: nat, unread: seq<Message>, room: Room,
                     total: nat, offset: nat, staged: seq<byte>, fixes: nat,
                     leftCached: nat, rightCached: nat, sent: seq<Message>, b: seq<byte>)
    requires Seated(mem, left, right, unread, room, total, offset, staged, fixes)
    requires Sound(mem, left, right, leftCached, rightCached, unread, sent)
    requires offset + total + |b| <= left + |mem| && offset + total + |b| <= 2 * |mem|
    requires total + |b| + PREFIX <= |mem|
    ensures var mem' := Store(mem, offset + total, b);
            && Seated(mem', left, right, unread, room, total + |b|, offset, staged + b, fixes)
            && Sound(mem', left, right, leftCached, rightCached, unread, sent)
  {
    hide Sound, Holds, Store, Since;
    SoundStaged(mem, left, right, leftCached, rightCached, unread, sent, staged, b);
  }

  lemma SeatedRebased(mem: Memory, left: nat, right: nat, unread: seq<Message>, room: Room,
                      total: nat, offset: nat, staged: seq<byte>, fixes: nat, left': nat, right': nat)
    requires Seated(mem, left, right, unread, room, total, offset, staged, fixes)
    requires offset + total == 2 * |mem| && left' + |mem| == left && right' + |mem| == right
    requires Holds(mem, right', staged)
    ensures fixes == 0 && Seated(mem, left', right', unread, room, total, right', staged, 1)
  {
    hide Holds, Since;
    SinceRebased(|mem|, room, right, unread);
  }

  lemma PartWritten(start: seq<byte>, buf: seq<byte>, done: nat, next: nat)
    requires done <= next <= |buf|
    ensures start + buf[..done] + buf[done..next] == start + buf[..next]
  {
  }

  /** The rest of a buffer is refused exactly if the whole is. */
  lemma TooMuchLeft(size: nat, total: nat, buf: seq<byte>, done: nat)
    requires done <= |buf|
    ensures TooMuch(size, total + |buf[..done]|, |buf| - done) <==> TooMuch(size, total, |buf|)
  {
  }

  /** A call and the rest of a callback. */
  lemma Together(size: nat, room: Room, p: Progress, start: seq<byte>, cb: Callback, r: Written, part: seq<byte>,
                 q: Progress, ok: bool, rest: seq<byte>, bytes: seq<byte>)
    requires size >= PREFIX && cb.Write? && Answers(size, room, p, |start|, cb.buf, r, part, q)
    requires Sends(size, room, q, |start + part|, Next(cb, r), ok, rest) && bytes == part + rest
    ensures Sends(size, room, p, |start|, cb, ok, bytes) && start + part + rest == start + bytes
  {
    hide Sends, Answers, Next;
    SendsNext(size, room, p, |start|, cb, r, part, q, ok, rest);
  }

  class MemeWriter {
    const queue: MemeQueue
    var totalWritten: nat
    var rightOffset: nat
    ghost var staged: seq<byte>
    ghost var fixes: nat
    ghost const room: Room      // the queue when the send began

    /** The staged bytes stand behind the committed ones, short of the unread ones a lap further on. */
    ghost predicate Valid()
      reads this, queue, queue.data
    {
      && queue.Valid()
      && Seated(queue.data[..], queue.left, queue.right, queue.unread, room, totalWritten, rightOffset, staged, fixes)
    }

    /** How far the send has come. */
    ghost function Now(): Progress
      reads this, queue
    {
      At(room, fixes, queue.unread)
    }

    constructor (queue: MemeQueue)
      requires queue.Valid()
      ensures Valid() && this.queue == queue && staged == [] && fixes == 0
      ensures room == Room(queue.left, queue.right, queue.unread)
    {
      queue.Bounds();
      SuffixSelf(queue.unread);
      this.queue := queue;
      room := Room(queue.left, queue.right, queue.unread);
      totalWritten := 0;
      rightOffset := queue.right;
      staged := [];
      fixes := 0;
    }

    /** What the numbers of a valid writer are. */
    lemma Numbers()
      requires Valid()
      ensures 2 * PREFIX <= queue.data.Length && 2 * queue.data.Length <= U32_MAX
      ensures totalWritten == |staged| && totalWritten + PREFIX <= queue.data.Length
      ensures rightOffset + totalWritten <= queue.left + queue.data.Length
      ensures rightOffset + totalWritten <= 2 * queue.data.Length
      ensures fixes <= 1
      ensures rightOffset + totalWritten == queue.left + queue.data.Length ==> queue.unread != []
    {
    }

    lemma Staying()
      requires Valid()
      ensures Holds(queue.data[..], queue.right, staged) && rightOffset == queue.right
    {
    }

    /** What the progress of a valid writer is: it is the left offset in the numbering of the start. */
    lemma Underway()
      requires Valid()
      ensures Later(Progress(0, 0), Now(), room) && Now().fixes == fixes
      ensures Now().taken == |room.unread| - |queue.unread|
      ensures queue.left + Shift(queue.data.Length, fixes) == LeftAt(room, Now().taken)
      ensures queue.right + Shift(queue.data.Length, fixes) == room.right && rightOffset == queue.right
    {
      queue.Bounds();
      SinceLeft(queue.data.Length, room, fixes, queue.left, queue.right, queue.unread);
    }

    /** The others' turn, while this sender holds the right lock: at the top of the loop, or until the left offset
        has moved. */
    method Yield(waiting: bool)
      requires Valid() && (waiting ==> queue.unread != [])
      modifies queue`left, queue`unread, queue`leftCached, queue`rightCached
      ensures Valid() && Suffix(queue.unread, old(queue.unread)) && |queue.unread| <= |old(queue.unread)|
      ensures waiting ==> |queue.unread| < |old(queue.unread)|
      ensures queue.left >= old(queue.left)
      ensures |queue.unread| == |old(queue.unread)| ==> queue.left == old(queue.left)
    {
      queue.Bounds();
      hide Seated, Sound, Suffix;
      ghost var left, unread := queue.left, queue.unread;
      queue.Receivers(waiting);
      SeatedTaken(queue.data[..], left, queue.right, unread, room, totalWritten, rightOffset, staged, fixes,
                  queue.left, queue.unread);
    }

    /** The left offset that `write` works with: its cached copy if that serves, or a fresh one.  Either way the
        plan is that of the true left offset at that moment. */
    method LookLeft(pos: nat, len: nat) returns (l: nat)
      requires Valid() && pos == rightOffset + totalWritten
      modifies queue`left, queue`unread, queue`leftCached, queue`rightCached
      ensures Valid() && Suffix(queue.unread, old(queue.unread))
      ensures PlanWrite(queue.data.Length, pos, len, l) == PlanWrite(queue.data.Length, pos, len, old(queue.left))
      ensures l <= old(queue.left) <= queue.left && pos <= l + queue.data.Length
      ensures |queue.unread| == |old(queue.unread)| ==> queue.left == old(queue.left)
      ensures PlanWrite(queue.data.Length, pos, len, l).Wait? ==> l == old(queue.left)
    {
      if CacheServes(queue.rightCached, queue.data.Length, pos, len) {
        l := queue.rightCached;
        CachedPlanIsFresh(queue.data.Length, pos, len, l, queue.left);
        SuffixSelf(queue.unread);
      } else {
        ghost var left, unread := queue.left, queue.unread;
        l := queue.SyncLoadLeft();
        SeatedTaken(queue.data[..], left, queue.right, unread, room, totalWritten, rightOffset, staged, fixes,
                    queue.left, queue.unread);
      }
    }

    /** The queue and the writer with `b` in place, in the memory that a copy leaves. */
    ghost predicate WithStaged(mem: seq<byte>, b: seq<byte>)
      reads this, queue
    {
      && Sound(mem, queue.left, queue.right, queue.leftCached, queue.rightCached, queue.unread, queue.sent)
      && Seated(mem, queue.left, queue.right, queue.unread, room, totalWritten + |b|, rightOffset, staged + b, fixes)
    }

    lemma CopyStages(mem: Memory, b: seq<byte>)
      requires Valid() && mem == queue.data[..]
      requires rightOffset + totalWritten + |b| <= queue.left + |mem| && rightOffset + totalWritten + |b| <= 2 * |mem|
      requires totalWritten + |b| + PREFIX <= |mem|
      ensures WithStaged(Store(mem, rightOffset + totalWritten, b), b)
    {
      hide Seated, Sound, Store;
      SeatedStaged(mem, queue.left, queue.right, queue.unread, room, totalWritten, rightOffset, staged,
                   fixes, queue.leftCached, queue.rightCached, queue.sent, b);
    }

    /** The copy branch. */
    method Stage(pos: nat, b: seq<byte>)
      requires Valid() && pos == rightOffset + totalWritten
      requires pos + |b| <= queue.left + queue.data.Length && pos + |b| <= 2 * queue.data.Length
      requires totalWritten + |b| + PREFIX <= queue.data.Length
      modifies `totalWritten, `staged, queue.data
      ensures Valid() && staged == old(staged) + b
    {
      Numbers();
      hide Valid, Seated, Sound, Store, WithStaged;
      CopyStages(queue.data[..], b);
      queue.CopyIn(pos, b);
      Settle(b, |b|);
    }

    /** The copied bytes become staged. */
    method Settle(ghost b: seq<byte>, n: nat)
      requires WithStaged(queue.data[..], b) && n == |b|
      modifies `totalWritten, `staged
      ensures Valid() && staged == old(staged) + b
    {
      hide Seated, Sound;
      totalWritten, staged := totalWritten + n, staged + b;
    }

    /** The rebase branch: both offsets go back by a lap, and so does the writer's own copy. */
    method Rebase(pos: nat)
      requires Valid() && pos == rightOffset + totalWritten
      requires pos == 2 * queue.data.Length && queue.left >= queue.data.Length
      modifies `rightOffset, `fixes, queue`left, queue`right, queue`leftCached, queue`rightCached
      ensures Valid()
      ensures queue.left == old(queue.left) - queue.data.Length && queue.right == old(queue.right) - queue.data.Length
      ensures queue.leftCached == queue.right && queue.rightCached == queue.left
      ensures old(fixes) == 0 && fixes == 1
    {
      queue.Bounds();
      Numbers();
      Staying();
      hide Seated, Sound, Holds;
      var size := queue.data.Length;
      ghost var left, right := queue.left, queue.right;
      var newLeft := Sub32(queue.left, size);
      var newRight := Sub32(Sub32(pos, totalWritten), size);
      queue.FixOffsets(newLeft, newRight, staged);
      SeatedRebased(queue.data[..], left, right, queue.unread, room, totalWritten, rightOffset, staged, fixes,
                    newLeft, newRight);
      rightOffset := newRight;
      fixes := fixes + 1;
    }

    /** The head of the loop of `write`: a look at the left offset, with the others at work before, during and after
        it, and what there is to do.  `seen` is the left offset at the look, `at` the progress. */
    method Survey(len: nat) returns (pos: nat, l: nat, plan: Plan, ghost seen: nat, ghost at: Progress)
      requires Valid()
      modifies queue`left, queue`unread, queue`leftCached, queue`rightCached
      ensures Valid() && Suffix(queue.unread, old(queue.unread)) && |queue.unread| <= |old(queue.unread)|
      ensures pos == rightOffset + totalWritten
      ensures Planned(queue.data.Length, pos, len, seen, queue.left, plan)
      ensures plan.Wait? ==> l == seen
      ensures Looked(queue.data.Length, room, old(Now()), seen, at, Now()) && at.fixes == fixes
    {
      hide Valid, Suffix, PlanWrite, Planned, Min, LeftAt;
      Underway();
      ghost var start := queue.unread;
      Yield(false);
      Numbers();
      Underway();
      pos := Add32(rightOffset, totalWritten);
      ghost var before := queue.unread;
      seen, at := queue.left, Now();
      SuffixLength(before, start);
      l := LookLeft(pos, len);
      plan := PlanWrite(queue.data.Length, pos, len, l);
      ghost var between := queue.unread;
      Yield(false);
      Underway();
      SuffixChain(between, before, start);
      SuffixChain(queue.unread, between, start);
      SuffixLength(between, before);
      PlanActs(queue.data.Length, pos, len, l, seen, queue.left);
    }

    /** The wait branch: on a full window, until a message is taken. */
    method WaitFull(ghost start: Progress, ghost before: seq<Message>)
      requires Valid() && rightOffset + totalWritten == queue.left + queue.data.Length
      requires Later(start, Now(), room) && Suffix(queue.unread, before)
      modifies queue`left, queue`unread, queue`leftCached, queue`rightCached
      ensures Valid() && Suffix(queue.unread, before) && |queue.unread| < |old(queue.unread)|
      ensures Later(start, Now(), room) && old(Now()).taken < Now().taken
    {
      hide Valid, Suffix, LeftAt;
      ghost var unread := queue.unread;
      Numbers();
      Underway();
      Yield(true);
      Underway();
      SuffixChain(queue.unread, unread, before);
    }

    /** `write`: a prefix of the buffer is staged, and never nothing of something; or it is refused and nothing
        changes.  What is staged ends short of the buffer only where the window of the left offset `seen` ends, which
        the queue had at the progress `at`, after the wait if there was one.  It rebases once in a send at most.  It
        waits at most once, on a full window, until a message is taken: a sender that finds the queue empty never
        waits. */
    method Write(buf: seq<byte>) returns (r: Written, ghost waits: nat, ghost seen: nat, ghost at: Progress)
      requires Valid()
      modifies this, queue, queue.data
      ensures queue.sent == old(queue.sent)
      ensures Valid()
      ensures r.TooMuchError? <==> TooMuch(queue.data.Length, |old(staged)|, |buf|)
      ensures r.TooMuchError? ==> unchanged(this) && unchanged(queue) && unchanged(queue.data)
      ensures r.Ok? ==> r.n <= |buf| && staged == old(staged) + buf[..r.n] && (buf != [] ==> r.n > 0)
      ensures Looked(queue.data.Length, room, old(Now()), seen, at, Now())
      ensures r.Ok? ==> seen <= queue.left && at.fixes == fixes
      ensures r.Ok? && r.n < |buf| ==>
                rightOffset + totalWritten == Min(seen + queue.data.Length, 2 * queue.data.Length)
      ensures WaitedWell(queue.data.Length, room, old(Now()), |old(staged)|, waits, at)
      ensures Waited(queue.unread, old(queue.unread), waits)
      ensures old(fixes) <= fixes <= 1
    {
      hide Valid, Suffix, Planned, Looked, FullAt, WaitedWell, LeftAt, Min;
      waits, seen, at := 0, 0, Now();
      Numbers();
      Underway();
      SuffixSelf(queue.unread);
      ghost var full, start := Now(), Now();
      var size := queue.data.Length;
      if TooMuch(size, totalWritten, |buf|) {
        LookedNow(size, room, queue.left, start);
        WaitedOnce(size, room, start, |staged|, 0, start, start);
        return TooMuchError, 0, queue.left, start;
      }
      while true
        invariant queue.sent == old(queue.sent)
        invariant Valid() && staged == old(staged) && totalWritten == |staged| && old(fixes) <= fixes <= 1
        invariant Suffix(queue.unread, old(queue.unread))
        invariant waits + |queue.unread| <= |old(queue.unread)|
        invariant Later(start, Now(), room) && waits <= 1
        invariant waits == 1 ==> Later(start, full, room) && full.taken < Now().taken
        invariant waits == 1 ==> FullAt(size, room, totalWritten, full)
        decreases 1 - fixes, |queue.unread|
      {
        ghost var before, p := queue.unread, Now();
        var pos, l, plan;
        pos, l, plan, seen, at := Survey(|buf|);
        Numbers();
        Underway();
        LookedEarlier(size, room, start, p, seen, at, Now());
        PlanActed(size, pos, |buf|, seen, queue.left, plan);
        SuffixChain(queue.unread, before, old(queue.unread));
        if plan.Copy? {
          WaitedOnce(size, room, start, totalWritten, waits, full, at);
          Stage(pos, buf[..plan.n]);
          Numbers();
          return Ok(plan.n), waits, seen, at;
        } else if plan.Rebase? {
          Rebase(pos);
          Underway();
        } else if queue.left == l {
          FullHere(size, room, start, seen, at, Now(), rightOffset, totalWritten);
          if waits == 1 { FullOnce(size, room, totalWritten, full, at); }
          full := at;
          WaitFull(start, old(queue.unread));
          waits := waits + 1;
        }
      }
    }

    /** The next call of `write` of a `write_all` that has written `done` bytes of its buffer. */
    method WriteNext(buf: seq<byte>, done: nat) returns (next: nat, refused: bool, ghost waits: nat)
      requires Valid() && done < |buf|
      modifies this, queue, queue.data
      ensures Valid() && queue.sent == old(queue.sent)
      ensures refused <==> TooMuch(queue.data.Length, |old(staged)|, |buf| - done)
      ensures if refused then next == done && staged == old(staged)
              else done < next <= |buf| && staged == old(staged) + buf[done..next]
      ensures Waited(queue.unread, old(queue.unread), waits)
      ensures old(fixes) <= fixes <= 1
    {
      hide Valid, Suffix, TooMuch, Looked, WaitedWell, Now, Min;
      var r, w, _, _ := Write(buf[done..]);
      refused, waits := r.TooMuchError?, w;
      next := done;
      if r.Ok? {
        assert buf[done..][..r.n] == buf[done..done + r.n];
        next := done + r.n;
      }
    }

    /** `write_all`: the calls of `write` that together stage the whole buffer, or one that is refused. */
    method WriteFully(buf: seq<byte>) returns (refused: bool, ghost waits: nat)
      requires Valid()
      modifies this, queue, queue.data
      ensures queue.sent == old(queue.sent)
      ensures Valid()
      ensures refused <==> buf != [] && TooMuch(queue.data.Length, |old(staged)|, |buf|)
      ensures staged == if refused then old(staged) else old(staged) + buf
      ensures Waited(queue.unread, old(queue.unread), waits)
      ensures old(fixes) <= fixes <= 1
    {
      Numbers();
      hide Valid, Waited, TooMuch;
      var done := 0;
      waits := 0;
      ghost var start, before := staged, queue.unread;
      WaitedNone(before);
      assert start + buf[..0] == start;
      while done < |buf|
        invariant 0 <= done <= |buf|
        invariant queue.sent == old(queue.sent)
        invariant Valid() && staged == start + buf[..done]
        invariant done > 0 ==> !TooMuch(queue.data.Length, |start|, |buf|)
        invariant Waited(queue.unread, before, waits)
        invariant old(fixes) <= fixes <= 1
      {
        ghost var unread, part, w := queue.unread, done, 0;
        TooMuchLeft(queue.data.Length, |start|, buf, done);
        done, refused, w := WriteNext(buf, done);
        WaitedChain(queue.unread, unread, before, waits, w);
        waits := waits + w;
        if refused { return; }
        PartWritten(start, buf, part, done);
      }
      assert buf[..done] == buf;
      refused := false;
    }

    /** One call of a callback, from the progress `p` to `q`. */
    method Call(buf: seq<byte>, ghost p: Progress)
      returns (r: Written, part: seq<byte>, ghost waits: nat, ghost q: Progress)
      requires Valid() && p == Now()
      modifies this, queue, queue.data
      ensures queue.sent == old(queue.sent)
      ensures Valid() && q == Now() && Waited(queue.unread, old(queue.unread), waits)
      ensures old(fixes) <= fixes <= 1
      ensures Answers(queue.data.Length, room, p, |old(staged)|, buf, r, part, q)
      ensures staged == old(staged) + part && |staged| == |old(staged)| + |part|
    {
      hide Valid, Suffix, TooMuch, LeftAt;
      ghost var total := |staged|;
      var answer, w, seen, at := Write(buf);
      r, waits, q := answer, w, Now();
      part := if r.Ok? then buf[..r.n] else [];
      Numbers();
      Underway();
      if r.Ok? {
        WindowSeen(queue.data.Length, room, at, seen, rightOffset, totalWritten);
        assert Replies(queue.data.Length, room, p, total, buf, Reply(r.n, at, q));
      }
    }

    /** A callback at work on a writer, from the progress `p` on. */
    method RunCallback(cb: Callback, ghost p: Progress) returns (ok: bool, bytes: seq<byte>, ghost waits: nat)
      requires Valid() && p == Now()
      modifies this, queue, queue.data
      ensures queue.sent == old(queue.sent)
      ensures Valid() && Waited(queue.unread, old(queue.unread), waits)
      ensures old(fixes) <= fixes <= 1
      ensures staged == old(staged) + bytes
      ensures Sends(queue.data.Length, room, p, |old(staged)|, cb, ok, bytes)
      decreases cb
    {
      Numbers();
      hide Valid, Waited, Answers, Sends, Next, Now;
      ghost var size, before, start := queue.data.Length, queue.unread, staged;
      if cb.Return? {
        WaitedNone(before);
        ReturnSends(size, room, p, |start|, cb.ok);
        ok, bytes, waits := cb.ok, [], 0;
      } else {
        var r, part, w, q := Call(cb.buf, p);
        ghost var between := queue.unread;
        var result, rest, more := RunCallback(Next(cb, r), q);
        ok, bytes, waits := result, part + rest, w + more;
        Together(size, room, p, start, cb, r, part, q, result, rest, bytes);
        WaitedChain(queue.unread, between, before, w, more);
      }
    }

    /** The length goes into the place kept for it. */
    method StorePrefix()
      requires Valid() && |staged| >= PREFIX
      modifies `staged, queue.data
      ensures Valid() && staged == Encode(old(staged)[PREFIX..])
    {
      hide Stands, Holds, Suffix, LittleEndian;
      Numbers();
      var prefix := LittleEndian(totalWritten - PREFIX, PREFIX);
      PrefixStored(queue.data[..], queue.left, queue.right, queue.unread, staged);
      queue.CopyIn(rightOffset, prefix);
      staged := Encode(staged[PREFIX..]);
    }

    /** The right offset moves behind the staged message. */
    method Publish(ghost payload: Message)
      requires Valid() && staged == Encode(payload)
      modifies queue`right, queue`unread, queue`sent
      ensures queue.Valid()
      ensures queue.unread == old(queue.unread) + [payload] && queue.sent == old(queue.sent) + [payload]
      ensures queue.right == old(queue.right) + |staged|
    {
      hide Stands, Holds, Suffix, Encode;
      Numbers();
      Published(queue.data[..], queue.left, queue.right, queue.unread, payload);
      SuffixBoth(queue.unread, queue.sent, payload);
      queue.unread, queue.sent := queue.unread + [payload], queue.sent + [payload];
      queue.right := Add32(rightOffset, totalWritten);
    }

    /** The end of a successful send: the length is stored and the message is published, with receivers at work
        before and in between. */
    method Commit()
      requires Valid() && |staged| >= PREFIX
      modifies `staged, queue, queue.data
      ensures queue.Valid()
      ensures queue.unread != [] && Suffix(queue.unread[..|queue.unread| - 1], old(queue.unread))
      ensures queue.unread[|queue.unread| - 1] == old(staged)[PREFIX..]
      ensures queue.sent == old(queue.sent) + [old(staged)[PREFIX..]]
    {
      hide Valid, Suffix, Encode;
      ghost var payload, before := staged[PREFIX..], queue.unread;
      Yield(false);
      ghost var between := queue.unread;
      StorePrefix();
      Yield(false);
      SuffixChain(queue.unread, between, before);
      LastAndFront(queue.unread, payload);
      Publish(payload);
    }
  }
}
