/** The decision `write` takes once it has a left offset in hand: copy, rebase or wait. */
module WritePlan {
  import opened Bytes

  datatype Plan = Copy(n: nat) | Rebase | Wait

  function Min(a: nat, b: nat): nat { if a <= b then a else b }

  /** Bytes between the write position and the end of the writable window, as a pointer difference:
      the window ends a lap after the left offset, or where the second mapping ends. */
  function SpaceLeft(size: nat, pos: nat, left: nat): nat {
    Sub64(Min(left + size, 2 * size), pos)
  }

  function PlanWrite(size: nat, pos: nat, len: nat, left: nat): Plan {
    var space := SpaceLeft(size, pos, left);
    if space > 0 then Copy(Min(space, len))
    else if left >= size then Rebase
    else Wait
  }

  /** The test under which `write` is content with its cached copy of the left offset. */
  predicate CacheServes(cached: nat, size: nat, pos: nat, len: nat) {
    cached != U32_MAX && cached + size > pos + len
  }

  /** `write` refuses what would leave less than a prefix of the data area unused. */
  predicate TooMuch(size: nat, total: nat, len: nat) {
    total + len > U32_MAX || total + len > size - PREFIX
  }

  /** Fast path equals slow path: a cached left offset that passes the test, however old, leads to the branch
      and the byte count that the true left offset would, and never to waiting. */
  lemma CachedPlanIsFresh(size: nat, pos: nat, len: nat, cached: nat, left: nat)
    requires CacheServes(cached, size, pos, len)
    requires cached <= left && pos <= 2 * size && 2 * size <= U32_MAX
    ensures PlanWrite(size, pos, len, cached) == PlanWrite(size, pos, len, left)
    ensures !PlanWrite(size, pos, len, cached).Wait?
  {
    if cached >= size {
      assert SpaceLeft(size, pos, cached) == SpaceLeft(size, pos, left);
    } else {
      assert SpaceLeft(size, pos, cached) == cached + size - pos > len;
      assert SpaceLeft(size, pos, left) > len;
    }
  }

  /** What each branch means, for any left offset the writer can hold. */
  lemma PlanMeaning(size: nat, pos: nat, len: nat, left: nat)
    requires pos <= 2 * size && pos <= left + size && 2 * size <= U32_MAX
    ensures var p := PlanWrite(size, pos, len, left);
            && (p.Rebase? <==> pos == 2 * size && left >= size)
            && (p.Wait? <==> pos == left + size && left < size)
            && (p.Copy? ==> p.n <= len && pos + p.n <= 2 * size && pos + p.n <= left + size
                            && (p.n == 0 ==> len == 0)
                            && (p.n < len ==> pos + p.n == Min(left + size, 2 * size)))
  {
    assert SpaceLeft(size, pos, left) == Min(left + size, 2 * size) - pos;
  }
}
