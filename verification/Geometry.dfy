/** How a layer cache cuts its physical slots into blocks. */
module Geometry {

  const BLOCK: nat := 256

  /** Blocks needed for `n` slots: the ceiling of `n / BLOCK`. */
  function NumBlocks(n: nat): nat {
    (n + BLOCK - 1) / BLOCK
  }

  /** Slots of block `i` in a cache of `max` slots; only the last block can be short. */
  function Capacity(max: nat, i: nat): nat {
    if max <= i * BLOCK then 0 else if max - i * BLOCK < BLOCK then max - i * BLOCK else BLOCK
  }

  /** Slots of block `i` in use when the first `n` physical slots are. */
  function Fill(n: nat, i: nat): nat {
    Capacity(n, i)
  }

  /** The physical slot of logical index `l` in a ring of `max` slots that starts at slot `start`. */
  function Slot(start: nat, l: nat, max: nat): (p: nat)
    requires max > 0
    ensures p < max && p / BLOCK < NumBlocks(max)
  {
    (start + l) % max
  }

  /** A ring index wraps at most once. */
  lemma WrapOnce(s: nat, max: nat)
    requires s < 2 * max
    ensures s % max == if s < max then s else s - max
  {
    if s >= max {
      assert (s - max) % max == s - max;
      assert s % max == (s - max) % max;
    }
  }

  lemma SlotWraps(start: nat, l: nat, max: nat)
    requires start < max && l <= max
    ensures Slot(start, l, max) == if start + l < max then start + l else start + l - max
  {
    WrapOnce(start + l, max);
  }
}
