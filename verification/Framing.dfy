/** Messages as the ring stores them: a length prefix followed by the payload. */
module Framing {
  import opened Bytes

  type Message = seq<byte>

  function Zeros(n: nat): seq<byte> { seq(n, _ => 0) }

  function Encode(m: Message): (s: seq<byte>)
    ensures |s| == PREFIX + |m|
  {
    LittleEndian(|m|, PREFIX) + m
  }

  function EncodeAll(ms: seq<Message>): seq<byte> {
    if ms == [] then [] else Encode(ms[0]) + EncodeAll(ms[1..])
  }

  /** Bytes that `ms` occupy in the ring. */
  function Size(ms: seq<Message>): nat {
    if ms == [] then 0 else PREFIX + |ms[0]| + Size(ms[1..])
  }

  lemma {:induction false} EncodeAllSize(ms: seq<Message>)
    ensures |EncodeAll(ms)| == Size(ms)
  {
    if ms != [] { EncodeAllSize(ms[1..]); }
  }

  lemma {:induction false} SizeConcat(a: seq<Message>, b: seq<Message>)
    ensures Size(a + b) == Size(a) + Size(b)
  {
    if a == [] {
      assert a + b == b;
    } else {
      assert (a + b)[1..] == a[1..] + b;
      SizeConcat(a[1..], b);
    }
  }

  lemma {:induction false} EncodeAllConcat(a: seq<Message>, b: seq<Message>)
    ensures EncodeAll(a + b) == EncodeAll(a) + EncodeAll(b)
  {
    if a == [] {
      assert a + b == b;
    } else {
      assert (a + b)[1..] == a[1..] + b;
      EncodeAllConcat(a[1..], b);
    }
  }

  lemma SizeAppend(a: seq<Message>, m: Message)
    ensures Size(a + [m]) == Size(a) + PREFIX + |m|
  {
    SizeConcat(a, [m]);
    assert Size([m]) == PREFIX + |m| + Size([m][1..]);
  }

  lemma EncodeAllAppend(a: seq<Message>, m: Message)
    ensures EncodeAll(a + [m]) == EncodeAll(a) + Encode(m)
  {
    EncodeAllConcat(a, [m]);
    assert EncodeAll([m]) == Encode(m) + EncodeAll([m][1..]);
  }

  /** An empty run of bytes holds no message; anything longer starts with a whole prefix. */
  lemma SizeZero(ms: seq<Message>)
    ensures Size(ms) == 0 <==> ms == []
    ensures ms != [] ==> Size(ms) >= PREFIX
  {
  }
}
