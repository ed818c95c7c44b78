/** Bytes, the machine integers of the queue and the eight byte length prefix.
    Offsets are u32 values; a pointer difference and a length prefix are usize values of 64 bits. */
module Bytes {

  type byte = x: int | 0 <= x < 256

  const U32_MAX: nat := 0xFFFF_FFFF
  const U32_MOD: nat := 0x1_0000_0000
  const U64_MOD: nat := 0x1_0000_0000_0000_0000

  /** Bytes of a length prefix: `mem::size_of::<usize>()`. */
  const PREFIX: nat := 8

  // Machine arithmetic wraps; the branches spare the verifier a modulus where nothing wraps.

  function Add32(a: nat, b: nat): nat { if a + b < U32_MOD then a + b else (a + b) % U32_MOD }

  function Sub32(a: nat, b: nat): nat { if b <= a < b + U32_MOD then a - b else (a - b) % U32_MOD }

  function Sub64(a: nat, b: nat): nat { if b <= a < b + U64_MOD then a - b else (a - b) % U64_MOD }

  /** The `as u32` cast. */
  function Trunc32(a: nat): nat { if a < U32_MOD then a else a % U32_MOD }

  function Pow256(k: nat): nat {
    if k == 0 then 1 else 256 * Pow256(k - 1)
  }

  /** The `k` low bytes of `n`, least significant first. */
  function LittleEndian(n: nat, k: nat): (s: seq<byte>)
    ensures |s| == k
    decreases k, n
  {
    if k == 0 then [] else [n % 256] + LittleEndian(n / 256, k - 1)
  }

  function FromLittleEndian(s: seq<byte>): nat {
    if s == [] then 0 else s[0] + 256 * FromLittleEndian(s[1..])
  }

  lemma {:induction false} LittleEndianRoundTrip(n: nat, k: nat)
    requires n < Pow256(k)
    ensures FromLittleEndian(LittleEndian(n, k)) == n
    decreases k
  {
    if k > 0 {
      LittleEndianRoundTrip(n / 256, k - 1);
      assert LittleEndian(n, k)[1..] == LittleEndian(n / 256, k - 1);
    }
  }

  /** Byte `i` is the digit of weight 256 to the `i`: the least significant byte comes first. */
  lemma {:induction false} LittleEndianDigit(n: nat, k: nat, i: nat) returns (high: nat, low: nat)
    requires i < k
    ensures n == high * Pow256(i + 1) + LittleEndian(n, k)[i] * Pow256(i) + low
    ensures low < Pow256(i)
    decreases i
  {
    if i == 0 {
      high, low := n / 256, 0;
    } else {
      var q, r, d := n / 256, n % 256, LittleEndian(n / 256, k - 1)[i - 1];
      var h, l := LittleEndianDigit(q, k - 1, i - 1);
      high, low := h, 256 * l + r;
      Shifted(h, Pow256(i), d, Pow256(i - 1), l);
      assert n == 256 * q + r;
    }
  }

  lemma Shifted(h: nat, p: nat, d: nat, q: nat, l: nat)
    ensures 256 * (h * p + d * q + l) == h * (256 * p) + d * (256 * q) + 256 * l
  {
  }

  /** Every length a u32 can hold survives being stored as a prefix and read back. */
  lemma PrefixRoundTrip(n: nat)
    requires n <= U32_MAX
    ensures FromLittleEndian(LittleEndian(n, PREFIX)) == n
  {
    assert Pow256(4) == U32_MOD;
    assert Pow256(8) == 256 * 256 * 256 * 256 * Pow256(4);
    LittleEndianRoundTrip(n, PREFIX);
  }
}
