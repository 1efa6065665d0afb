/**
 A ring buffer read as a queue: `count` cells from `head`, wrapping round. Command queues, event queues
 and the controller's event ring are all of this kind.
 */
module Rings {
  import Arith

  /** The `k`-th cell from the head. */
  function At(size: nat, head: nat, k: nat): (i: nat)
    requires size > 0
    ensures i < size
  {
    (head + k) % size
  }

  function Contents<T>(ring: seq<T>, head: nat, count: nat): (q: seq<T>)
    requires |ring| > 0
    ensures |q| == count
  {
    seq(count, k requires 0 <= k < count => ring[At(|ring|, head, k)])
  }

  lemma AtWraps(size: nat, head: nat, k: nat)
    requires head < size && k <= size
    ensures At(size, head, k) == if head + k < size then head + k else head + k - size
  {
    if head + k >= size {
      Arith.ModUnique(head + k, size, 1, head + k - size);
    } else {
      Arith.ModUnique(head + k, size, 0, head + k);
    }
  }

  /** Different cells lie in different places. */
  lemma AtDiffers(size: nat, head: nat, a: nat, b: nat)
    requires head < size && a < b < size
    ensures At(size, head, a) != At(size, head, b)
  {
    AtWraps(size, head, a);
    AtWraps(size, head, b);
  }

  /** Moving the head by one renumbers the cells. */
  lemma AtNext(size: nat, head: nat, k: nat)
    requires head < size && k < size
    ensures At(size, At(size, head, 1), k) == At(size, head, k + 1)
  {
    AtWraps(size, head, 1);
    AtWraps(size, At(size, head, 1), k);
    AtWraps(size, head, k + 1);
  }

  /** A write at the tail of a ring that is not full appends. */
  lemma Push<T>(ring: seq<T>, head: nat, count: nat, x: T)
    requires head < |ring| && count < |ring|
    ensures Contents(ring[At(|ring|, head, count) := x], head, count + 1) == Contents(ring, head, count) + [x]
  {
    hide At;
    var p := Contents(ring[At(|ring|, head, count) := x], head, count + 1);
    forall k | 0 <= k < count
      ensures p[k] == Contents(ring, head, count)[k]
    {
      AtDiffers(|ring|, head, k, count);
    }
  }

  /** Advancing the head drops the front. */
  lemma Pop<T>(ring: seq<T>, head: nat, count: nat)
    requires head < |ring| && 0 < count <= |ring|
    ensures Contents(ring, head, count)[0] == ring[head]
    ensures Contents(ring, At(|ring|, head, 1), count - 1) == Contents(ring, head, count)[1..]
  {
    AtWraps(|ring|, head, 0);
    hide At;
    var q := Contents(ring, At(|ring|, head, 1), count - 1);
    forall k | 0 <= k < count - 1
      ensures q[k] == Contents(ring, head, count)[k + 1]
    {
      AtNext(|ring|, head, k);
    }
  }
}
