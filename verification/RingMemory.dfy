/** The data area: `S` bytes mapped twice in a row, so that the virtual bytes `v` and `v + S`
    are the same cell `v % S`. */
module RingMemory {
  import opened Bytes
  import opened Framing

  /** The data area of a queue.  Two laps of it must be addressable by a u32 offset, and it must have
      room for a prefix next to the prefix that `write` never hands out. */
  type Memory = m: seq<byte> | 2 * PREFIX <= |m| && 2 * |m| <= U32_MAX witness seq(16, _ => 0)

  /** The cell behind a virtual position: every lap of `size` bytes is mapped onto the same cells. */
  function Cell(v: nat, size: nat): (c: nat)
    requires size > 0
    ensures c < size
    decreases v
  {
    if v < size then v else Cell(v - size, size)
  }

  lemma {:induction false} CellIsRemainder(v: nat, size: nat)
    requires size > 0
    ensures Cell(v, size) == v % size
    decreases v
  {
    if v >= size {
      CellIsRemainder(v - size, size);
      RemainderOneLap(v - size, size);
    }
  }

  lemma RemainderOneLap(v: nat, size: nat)
    requires size > 0
    ensures (v + size) % size == v % size
  {
    var q, r := v / size, v % size;
    var k := (v + size) / size - q - 1;
    assert k * size == ((v + size) / size) * size - q * size - size;
    assert k * size == r - (v + size) % size;
    AtLeastOne(k, size);
  }

  lemma AtLeastOne(k: int, size: nat)
    ensures k >= 1 ==> k * size >= size
    ensures k <= -1 ==> k * size + size <= 0
  {
  }

  /** Two different positions less than a lap apart are different cells. */
  lemma {:induction false} CellsApart(v: nat, d: nat, size: nat)
    requires 0 < d < size
    ensures Cell(v, size) != Cell(v + d, size)
    decreases v
  {
    if v >= size {
      CellsApart(v - size, d, size);
      assert Cell(v + d, size) == Cell(v - size + d, size);
    } else if v + d >= size {
      assert Cell(v + d, size) == v + d - size;
    }
  }

  /** The bytes of `k` laps. */
  function Laps(k: nat, size: nat): nat {
    if k == 0 then 0 else Laps(k - 1, size) + size
  }

  lemma {:induction false} LapsIsProduct(k: nat, size: nat)
    ensures Laps(k, size) == k * size
  {
    if k > 0 { LapsIsProduct(k - 1, size); }
  }

  /** Moving by whole laps does not change the cell. */
  lemma {:induction false} SameCell(v: nat, k: nat, size: nat)
    requires size > 0
    ensures Cell(v + Laps(k, size), size) == Cell(v, size)
    decreases k
  {
    if k > 0 {
      SameCell(v, k - 1, size);
      var w := v + Laps(k - 1, size);
      assert Cell(w + size, size) == Cell(w, size);
    }
  }

  /** The `n` bytes at the virtual positions from `v` on. */
  function Load(mem: Memory, v: nat, n: nat): (b: seq<byte>)
    ensures |b| == n
    decreases n, v
  {
    if n == 0 then [] else [mem[Cell(v, |mem|)]] + Load(mem, v + 1, n - 1)
  }

  /** The memory after the bytes of `b` are stored from virtual position `v` on. */
  function Store(mem: Memory, v: nat, b: seq<byte>): (mem': Memory)
    ensures |mem'| == |mem|
    decreases |b|
  {
    if b == [] then mem else Store(mem[Cell(v, |mem|) := b[0]], v + 1, b[1..])
  }

  /** The bytes of `b` stand at the virtual positions from `v` on. */
  ghost predicate Holds(mem: Memory, v: nat, b: seq<byte>) {
    Load(mem, v, |b|) == b
  }

  lemma {:induction false} LoadAt(mem: Memory, v: nat, n: nat, i: nat)
    requires i < n
    ensures Load(mem, v, n)[i] == mem[Cell(v + i, |mem|)]
    decreases n
  {
    if i > 0 { LoadAt(mem, v + 1, n - 1, i - 1); }
  }

  lemma {:induction false} LoadConcat(mem: Memory, v: nat, n: nat, k: nat)
    ensures Load(mem, v, n + k) == Load(mem, v, n) + Load(mem, v + n, k)
    decreases n
  {
    if n > 0 { LoadConcat(mem, v + 1, n - 1, k); }
  }

  lemma HoldsConcat(mem: Memory, v: nat, a: seq<byte>, b: seq<byte>)
    ensures Holds(mem, v, a + b) <==> Holds(mem, v, a) && Holds(mem, v + |a|, b)
  {
    hide Load;
    LoadConcat(mem, v, |a|, |b|);
    var x, y := Load(mem, v, |a|), Load(mem, v + |a|, |b|);
    assert (x + y)[..|a|] == x && (x + y)[|a|..] == y;
    assert (a + b)[..|a|] == a && (a + b)[|a|..] == b;
  }

  /** The same bytes are seen a whole number of laps earlier or later. */
  lemma {:induction false} LoadLaps(mem: Memory, v: nat, k: nat, n: nat)
    ensures Load(mem, v + Laps(k, |mem|), n) == Load(mem, v, n)
    decreases n
  {
    if n > 0 {
      SameCell(v, k, |mem|);
      LoadLaps(mem, v + 1, k, n - 1);
      assert v + Laps(k, |mem|) + 1 == v + 1 + Laps(k, |mem|);
    }
  }

  lemma {:induction false} StoreLaps(mem: Memory, v: nat, k: nat, b: seq<byte>)
    ensures Store(mem, v + Laps(k, |mem|), b) == Store(mem, v, b)
    decreases |b|
  {
    if b != [] {
      SameCell(v, k, |mem|);
      StoreLaps(mem[Cell(v, |mem|) := b[0]], v + 1, k, b[1..]);
      assert v + Laps(k, |mem|) + 1 == v + 1 + Laps(k, |mem|);
    }
  }

  /** The `n` positions from `p` on lie beside the `k` positions from `v` on, and the whole spans at most a lap. */
  predicate Beside(p: nat, n: nat, v: nat, k: nat, size: nat) {
    (v + k <= p && p + n <= v + size) || (p + n <= v && v + k <= p + size)
  }

  /** A store leaves what stands beside it alone. */
  lemma {:induction false} StoreFrame(mem: Memory, v: nat, b: seq<byte>, p: nat, n: nat)
    requires Beside(p, n, v, |b|, |mem|)
    ensures Load(Store(mem, v, b), p, n) == Load(mem, p, n)
    decreases |b|
  {
    if b != [] {
      var first := mem[Cell(v, |mem|) := b[0]];
      StoreFrame(first, v + 1, b[1..], p, n);
      OneByteFrame(mem, v, b[0], p, n);
    }
  }

  lemma {:induction false} OneByteFrame(mem: Memory, v: nat, x: byte, p: nat, n: nat)
    requires Beside(p, n, v, 1, |mem|)
    ensures Load(mem[Cell(v, |mem|) := x], p, n) == Load(mem, p, n)
    decreases n
  {
    if n > 0 {
      if p < v { CellsApart(p, v - p, |mem|); } else { CellsApart(v, p - v, |mem|); }
      OneByteFrame(mem, v, x, p + 1, n - 1);
    }
  }

  lemma {:induction false} StoreHolds(mem: Memory, v: nat, b: seq<byte>)
    requires |b| <= |mem|
    ensures Holds(Store(mem, v, b), v, b)
    decreases |b|
  {
    if b != [] {
      var first := mem[Cell(v, |mem|) := b[0]];
      StoreHolds(first, v + 1, b[1..]);
      StoreFrame(first, v + 1, b[1..], v, 1);
      assert Load(first, v, 1)[0] == Load(Store(mem, v, b), v, 1)[0];
    }
  }

  lemma StoreKeeps(mem: Memory, v: nat, b: seq<byte>, p: nat, other: seq<byte>)
    requires Holds(mem, p, other) && Beside(p, |other|, v, |b|, |mem|)
    ensures Holds(Store(mem, v, b), p, other)
  {
    hide Store, Load;
    StoreFrame(mem, v, b, p, |other|);
  }

  /** Storing right behind bytes that are there makes them longer. */
  lemma StoreBehind(mem: Memory, v: nat, a: seq<byte>, b: seq<byte>)
    requires Holds(mem, v, a) && |a| + |b| <= |mem|
    ensures Holds(Store(mem, v + |a|, b), v, a + b)
  {
    hide Store, Load;
    StoreKeeps(mem, v + |a|, b, v, a);
    StoreHolds(mem, v + |a|, b);
    HoldsConcat(Store(mem, v + |a|, b), v, a, b);
  }

  /** Storing over the start of bytes that are there replaces the start only. */
  lemma StoreOver(mem: Memory, v: nat, a: seq<byte>, b: seq<byte>)
    requires Holds(mem, v, a) && |b| <= |a| <= |mem|
    ensures Holds(Store(mem, v, b), v, b + a[|b|..])
  {
    hide Store, Load;
    assert a == a[..|b|] + a[|b|..];
    HoldsConcat(mem, v, a[..|b|], a[|b|..]);
    StoreKeeps(mem, v, b, v + |b|, a[|b|..]);
    StoreHolds(mem, v, b);
    HoldsConcat(Store(mem, v, b), v, b, a[|b|..]);
  }

  /** The length prefix at virtual position `v`, read as one usize. */
  function ReadPrefix(mem: Memory, v: nat): nat {
    FromLittleEndian(Load(mem, v, PREFIX))
  }

  /** The messages a reader finds when it walks the prefixes from `v` up to `end`, as `recv` does. */
  function Walk(mem: Memory, v: nat, end: nat): seq<Message>
    decreases end - v
  {
    if v >= end then []
    else
      var size := ReadPrefix(mem, v);
      [Load(mem, v + PREFIX, size)] + Walk(mem, v + PREFIX + size, end)
  }

  lemma PrefixRead(mem: Memory, v: nat, n: nat)
    requires Holds(mem, v, LittleEndian(n, PREFIX)) && n <= U32_MAX
    ensures ReadPrefix(mem, v) == n
  {
    PrefixRoundTrip(n);
  }

  lemma EncodedRead(mem: Memory, v: nat, m: Message)
    requires Holds(mem, v, Encode(m)) && |m| <= U32_MAX
    ensures ReadPrefix(mem, v) == |m|
    ensures Holds(mem, v + PREFIX, m)
  {
    var p := LittleEndian(|m|, PREFIX);
    HoldsConcat(mem, v, p, m);
    assert Holds(mem, v, p);
    PrefixRead(mem, v, |m|);
  }

  lemma HeadSplit(mem: Memory, v: nat, ms: seq<Message>)
    requires ms != []
    ensures Holds(mem, v, EncodeAll(ms)) <==>
            Holds(mem, v, Encode(ms[0])) && Holds(mem, v + |Encode(ms[0])|, EncodeAll(ms[1..]))
  {
    HoldsConcat(mem, v, Encode(ms[0]), EncodeAll(ms[1..]));
  }

  /** Where encoded messages start, a reader reads the length and the payload of the oldest one. */
  lemma HeadRead(mem: Memory, v: nat, ms: seq<Message>)
    requires ms != [] && Holds(mem, v, EncodeAll(ms)) && |ms[0]| <= U32_MAX
    ensures ReadPrefix(mem, v) == |ms[0]|
    ensures Load(mem, v + PREFIX, |ms[0]|) == ms[0]
    ensures Holds(mem, v + PREFIX + |ms[0]|, EncodeAll(ms[1..]))
  {
    HeadSplit(mem, v, ms);
    EncodedRead(mem, v, ms[0]);
  }

  /** Walking over encoded messages finds exactly these messages. */
  lemma {:induction false} WalkEncoded(mem: Memory, v: nat, ms: seq<Message>, end: nat)
    requires Holds(mem, v, EncodeAll(ms)) && end == v + Size(ms)
    requires forall m | m in ms :: |m| <= U32_MAX
    ensures Walk(mem, v, end) == ms
    decreases |ms|
  {
    if ms != [] {
      HeadRead(mem, v, ms);
      WalkEncoded(mem, v + PREFIX + |ms[0]|, ms[1..], end);
    }
  }
}
