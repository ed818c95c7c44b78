/** Send callbacks as trees of calls, and what their calls add up to. */
module Callbacks {
  import opened Bytes
  import opened Framing
  import opened WritePlan

  /** What `write` returns. */
  datatype Written = Ok(n: nat) | TooMuchError

  /** What a send callback does next, as far as the queue can tell: it returns, or it calls `write` and goes on in a
      way that depends on the answer.  `accepted[n]` is how it goes on when `n` bytes were written. */
  datatype Callback =
    | Return(ok: bool)
    | Write(buf: seq<byte>, accepted: seq<Callback>, refused: Callback)

  /** How a callback goes on after the answer `r`; one that has no plan for it takes it for a refusal. */
  function Next(cb: Callback, r: Written): (next: Callback)
    requires cb.Write?
    ensures next < cb
  {
    match r
    case TooMuchError => cb.refused
    case Ok(n) => if n < |cb.accepted| then cb.accepted[n] else cb.refused
  }

  /** `write_all`: calls of write until the buffer is used up, or until one writes nothing or is refused. */
  function WriteAllThen(buf: seq<byte>, done: Callback, failed: Callback): Callback
    decreases |buf|
  {
    if buf == [] then done
    else
      Write(buf,
            seq(|buf| + 1, n requires 0 <= n <= |buf| =>
              if n == 0 then failed else WriteAllThen(buf[n..], done, failed)),
            failed)
  }

  // ---- The window of a send ----

  /** The queue when a send began. */
  datatype Room = Room(left: nat, right: nat, unread: seq<Message>)

  /** How far it has come: so many of the unread messages were taken, and there were so many rebases. */
  datatype Progress = Progress(taken: nat, fixes: nat)

  predicate Later(p: Progress, q: Progress, room: Room) {
    p.taken <= q.taken <= |room.unread| && p.fixes <= q.fixes <= 1
  }

  /** The left offset after `taken` messages, in the numbering of the start. */
  function LeftAt(room: Room, taken: nat): nat
    requires taken <= |room.unread|
  {
    room.left + Size(room.unread[..taken])
  }

  /** Where the window of a writer ends that sees the left offset after so many messages and rebases:
      a lap behind the left offset, or with the second mapping.  A rebase moves the mappings a lap on. */
  function WindowEnd(size: nat, room: Room, p: Progress): nat
    requires p.taken <= |room.unread|
  {
    Min(LeftAt(room, p.taken) + size, if p.fixes == 0 then 2 * size else 3 * size)
  }

  // ---- What the calls add up to ----

  /** The answer to a call that is not refused: `n` bytes, by the look at the left offset `seen`, and the progress
      at its end. */
  datatype Reply = Reply(n: nat, seen: Progress, after: Progress)

  /** A call of write on `buf` behind `total` bytes, at the progress `p`, may be answered by `a`: a prefix is accepted,
      something if there is anything, and less than all only up to the end of a window that the queue had. */
  ghost predicate Replies(size: nat, room: Room, p: Progress, total: nat, buf: seq<byte>, a: Reply) {
    && a.n <= |buf| && (buf != [] ==> a.n > 0)
    && Later(p, a.seen, room) && Later(a.seen, a.after, room)
    && (a.n < |buf| ==> room.right + total + a.n == WindowEnd(size, room, a.seen))
  }

  /** A callback that starts behind `total` bytes, at the progress `p`, can return `ok` after its calls have
      accepted `bytes`. */
  ghost predicate Sends(size: nat, room: Room, p: Progress, total: nat, cb: Callback, ok: bool, bytes: seq<byte>)
    requires size >= PREFIX
    decreases cb
  {
    match cb
    case Return(result) => ok == result && bytes == []
    case Write(buf, _, refused) =>
      if TooMuch(size, total, |buf|) then Sends(size, room, p, total, refused, ok, bytes)
      else
        exists a: Reply ::
          && Replies(size, room, p, total, buf, a)
          && a.n <= |bytes| && bytes[..a.n] == buf[..a.n]
          && Sends(size, room, a.after, total + a.n, Next(cb, Ok(a.n)), ok, bytes[a.n..])
  }

  /** What the first answer was, and what came of the rest. */
  lemma SendsSplit(size: nat, room: Room, p: Progress, total: nat, cb: Callback, ok: bool, bytes: seq<byte>)
    returns (a: Reply)
    requires size >= PREFIX && cb.Write? && Sends(size, room, p, total, cb, ok, bytes)
    ensures TooMuch(size, total, |cb.buf|) ==> Sends(size, room, p, total, cb.refused, ok, bytes)
    ensures !TooMuch(size, total, |cb.buf|) ==>
              && Replies(size, room, p, total, cb.buf, a)
              && a.n <= |bytes| && bytes[..a.n] == cb.buf[..a.n]
              && Sends(size, room, a.after, total + a.n, Next(cb, Ok(a.n)), ok, bytes[a.n..])
  {
    a := Reply(0, p, p);
    if !TooMuch(size, total, |cb.buf|) {
      var b: Reply :|
        && Replies(size, room, p, total, cb.buf, b)
        && b.n <= |bytes| && bytes[..b.n] == cb.buf[..b.n]
        && Sends(size, room, b.after, total + b.n, Next(cb, Ok(b.n)), ok, bytes[b.n..]);
      a := b;
    }
  }

  /** A call is answered by `r`, and `part` is what it accepts. */
  ghost predicate Answers(size: nat, room: Room, p: Progress, total: nat, buf: seq<byte>, r: Written, part: seq<byte>,
                          after: Progress)
    requires size >= PREFIX
  {
    if TooMuch(size, total, |buf|) then r.TooMuchError? && part == [] && Later(p, after, room)
    else
      && r.Ok? && r.n <= |buf| && part == buf[..r.n]
      && exists seen :: Replies(size, room, p, total, buf, Reply(r.n, seen, after))
  }

  /** What holds from some progress on holds from an earlier one on. */
  lemma {:induction false} SendsEarlier(size: nat, room: Room, p: Progress, q: Progress, total: nat,
                                        cb: Callback, ok: bool, bytes: seq<byte>)
    requires size >= PREFIX && Later(p, q, room) && Sends(size, room, q, total, cb, ok, bytes)
    ensures Sends(size, room, p, total, cb, ok, bytes)
    decreases cb
  {
    if cb.Write? {
      if TooMuch(size, total, |cb.buf|) {
        SendsEarlier(size, room, p, q, total, cb.refused, ok, bytes);
      } else {
        var a := SendsSplit(size, room, q, total, cb, ok, bytes);
        assert Replies(size, room, p, total, cb.buf, a);
      }
    }
  }

  lemma SendsNext(size: nat, room: Room, p: Progress, total: nat, cb: Callback, r: Written, part: seq<byte>,
                  after: Progress, ok: bool, rest: seq<byte>)
    requires size >= PREFIX && cb.Write? && Answers(size, room, p, total, cb.buf, r, part, after)
    requires Sends(size, room, after, total + |part|, Next(cb, r), ok, rest)
    ensures Sends(size, room, p, total, cb, ok, part + rest)
  {
    if r.Ok? {
      var seen :| Replies(size, room, p, total, cb.buf, Reply(r.n, seen, after));
      var a := Reply(r.n, seen, after);
      assert r == Ok(a.n) && (part + rest)[..a.n] == part && (part + rest)[a.n..] == rest;
    } else {
      assert part + rest == rest;
      SendsEarlier(size, room, p, after, total, cb.refused, ok, rest);
    }
  }

  lemma ReturnSends(size: nat, room: Room, p: Progress, total: nat, result: bool)
    requires size >= PREFIX
    ensures Sends(size, room, p, total, Return(result), result, [])
  {
  }

  /** A call for whose buffer there is room from the start is answered by the whole buffer. */
  lemma WholeCall(size: nat, room: Room, p: Progress, total: nat, cb: Callback, ok: bool, bytes: seq<byte>)
    returns (q: Progress)
    requires size >= PREFIX && cb.Write? && Sends(size, room, p, total, cb, ok, bytes)
    requires !TooMuch(size, total, |cb.buf|)
    requires room.right + total + |cb.buf| <= Min(room.left + size, 2 * size)
    ensures cb.buf <= bytes
    ensures Later(p, q, room)
    ensures Sends(size, room, q, total + |cb.buf|, Next(cb, Ok(|cb.buf|)), ok, bytes[|cb.buf|..])
  {
    hide Sends, Next;
    var a := SendsSplit(size, room, p, total, cb, ok, bytes);
    assert a.n == |cb.buf|;
    assert cb.buf[..a.n] == cb.buf;
    q := a.after;
  }

  /** Whatever a callback does, its message and two prefixes fit into the data area. */
  lemma {:induction false} SendsFit(size: nat, room: Room, p: Progress, total: nat, cb: Callback, ok: bool,
                                    bytes: seq<byte>)
    requires size >= PREFIX && Sends(size, room, p, total, cb, ok, bytes) && total + PREFIX <= size
    ensures total + |bytes| + PREFIX <= size
    decreases cb
  {
    if cb.Write? {
      var a := SendsSplit(size, room, p, total, cb, ok, bytes);
      hide Sends;
      if TooMuch(size, total, |cb.buf|) {
        SendsFit(size, room, p, total, cb.refused, ok, bytes);
      } else {
        SendsFit(size, room, a.after, total + a.n, Next(cb, Ok(a.n)), ok, bytes[a.n..]);
      }
    }
  }

  lemma WriteAllGoesOn(m: seq<byte>, n: nat)
    requires 0 < n <= |m|
    ensures var cb := WriteAllThen(m, Return(true), Return(false));
            && cb.Write? && cb.buf == m && cb.refused == Return(false)
            && Next(cb, Ok(n)) == WriteAllThen(m[n..], Return(true), Return(false))
  {
  }

  lemma WriteAllEnds(m: seq<byte>)
    requires m == []
    ensures WriteAllThen(m, Return(true), Return(false)) == Return(true)
  {
  }

  lemma SendsReturn(size: nat, room: Room, p: Progress, total: nat, result: bool, ok: bool, bytes: seq<byte>)
    requires size >= PREFIX && Sends(size, room, p, total, Return(result), ok, bytes)
    ensures ok == result && bytes == []
  {
  }

  /** A `write_all` writes its buffer if that and another prefix fit behind what is there, and nothing otherwise. */
  lemma {:induction false} WriteAllSends(size: nat, room: Room, p: Progress, total: nat, m: seq<byte>, ok: bool,
                                         bytes: seq<byte>)
    requires PREFIX <= size <= U32_MAX && total + PREFIX <= size
    requires Sends(size, room, p, total, WriteAllThen(m, Return(true), Return(false)), ok, bytes)
    ensures ok <==> total + |m| + PREFIX <= size
    ensures bytes == if ok then m else []
    decreases |m|
  {
    hide Sends, WriteAllThen, Next, WindowEnd, Later;
    if m == [] {
      WriteAllEnds(m);
      SendsReturn(size, room, p, total, true, ok, bytes);
    } else {
      var cb := WriteAllThen(m, Return(true), Return(false));
      WriteAllGoesOn(m, |m|);
      var a := SendsSplit(size, room, p, total, cb, ok, bytes);
      if TooMuch(size, total, |m|) {
        SendsReturn(size, room, p, total, false, ok, bytes);
      } else {
        WriteAllGoesOn(m, a.n);
        WriteAllSends(size, room, a.after, total + a.n, m[a.n..], ok, bytes[a.n..]);
        assert bytes == bytes[..a.n] + bytes[a.n..];
        assert m == m[..a.n] + m[a.n..];
      }
    }
  }

  /** A callback that makes one `write_all` succeeds exactly if the buffer and two prefixes fit, and then sends it. */
  lemma OneCall(size: nat, room: Room, p: Progress, m: Message, ok: bool, payload: Message)
    requires 2 * PREFIX <= size <= U32_MAX
    requires Sends(size, room, p, PREFIX, WriteAllThen(m, Return(true), Return(false)), ok, payload)
    ensures ok <==> |m| + 2 * PREFIX <= size
    ensures payload == if ok then m else []
  {
    WriteAllSends(size, room, p, PREFIX, m, ok, payload);
  }
}
