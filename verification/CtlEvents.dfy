/**
 The controller's drainable event queue (`linux/bus_controller/controller.c`): a ring of events over a
 payload buffer per slot, events dropped on overflow. A drained event points into its slot's buffer; how
 long each byte of its payload stays there is stated exactly.
 */
module CtlEvents {
  import opened Options
  import Rings

  const CAP: nat := 128
  const DATA_MAX: nat := 64

  /** What `evq_push` is called with; `data` is None for a null pointer. */
  datatype Push = Push(kind: nat, addr: nat, status: nat, handle: nat, aux: nat, data: Option<seq<nat>>, len: nat)

  /** The bytes are there. */
  predicate Given(e: Push) { e.data.Some? ==> |e.data.value| == e.len }

  /** An event as stored; its payload is the first `len` bytes of its slot's buffer. */
  datatype Event = Event(kind: nat, addr: nat, status: nat, handle: nat, aux: nat, len: nat)

  const NO_EVENT := Event(0, 0, 0, 0, 0, 0)

  function CutLen(e: Push): (n: nat)
    ensures n <= DATA_MAX && n <= e.len && (e.len <= DATA_MAX ==> n == e.len)
  {
    if e.len > DATA_MAX then DATA_MAX else e.len
  }

  function Stored(e: Push): Event { Event(e.kind, e.addr, e.status, e.handle, e.aux, CutLen(e)) }

  /** The slot's buffer after the copy: a null pointer leaves it alone, a short payload its rest. */
  function Copied(buf: seq<nat>, e: Push): (r: seq<nat>)
    requires |buf| == DATA_MAX && Given(e)
    ensures |r| == DATA_MAX
    ensures forall k :: 0 <= k < DATA_MAX ==> r[k] == if e.data.Some? && k < CutLen(e) then e.data.value[k] else buf[k]
  {
    if e.data.None? then buf else e.data.value[..CutLen(e)] + buf[CutLen(e)..]
  }

  datatype Ring = Ring(slots: seq<Event>, bufs: seq<seq<nat>>, head: nat, count: nat)

  predicate WF(r: Ring) {
    && |r.slots| == CAP && |r.bufs| == CAP && r.head < CAP && r.count <= CAP
    && (forall i :: 0 <= i < CAP ==> |r.bufs[i]| == DATA_MAX && r.slots[i].len <= DATA_MAX)
  }

  /** An event with its payload. */
  datatype Cell = Cell(e: Event, payload: seq<nat>)

  function Cells(r: Ring): (c: seq<Cell>)
    requires WF(r)
    ensures |c| == CAP
  {
    seq(CAP, i requires 0 <= i < CAP => Cell(r.slots[i], r.bufs[i][..r.slots[i].len]))
  }

  /** The events waiting, oldest first. */
  function Queue(r: Ring): (q: seq<Cell>)
    requires WF(r)
    ensures |q| == r.count
  {
    Rings.Contents(Cells(r), r.head, r.count)
  }

  /** `evq_push` */
  function Pushed(r: Ring, e: Push): (t: Ring)
    requires WF(r) && Given(e)
    ensures WF(t)
  {
    if r.count >= CAP then r
    else
      var i := (r.head + r.count) % CAP;
      r.(slots := r.slots[i := Stored(e)], bufs := r.bufs[i := Copied(r.bufs[i], e)], count := r.count + 1)
  }

  function Drop(r: Ring): (t: Ring)
    requires WF(r) && r.count > 0
    ensures WF(t)
  {
    r.(head := Rings.At(CAP, r.head, 1), count := r.count - 1)
  }

  /**
   The ring is a bounded FIFO: an event that finds it full is lost, the others keep their order and payloads.
   An event pushed with a length but no bytes shows what its slot's buffer held.
   */
  lemma PushAppends(r: Ring, e: Push)
    requires WF(r) && Given(e)
    ensures var stale := r.bufs[Rings.At(CAP, r.head, r.count)];
      var cell := Cell(Stored(e), (if e.data.None? then stale else e.data.value)[..CutLen(e)]);
      Queue(Pushed(r, e)) == if r.count < CAP then Queue(r) + [cell] else Queue(r)
  {
    if r.count < CAP {
      var i := Rings.At(CAP, r.head, r.count);
      var cell := Cell(Stored(e), (if e.data.None? then r.bufs[i] else e.data.value)[..CutLen(e)]);
      assert Copied(r.bufs[i], e)[..CutLen(e)] == cell.payload;
      assert Cells(Pushed(r, e)) == Cells(r)[i := cell];
      Rings.Push(Cells(r), r.head, r.count, cell);
    }
  }

  lemma DropsFirst(r: Ring)
    requires WF(r) && r.count > 0
    ensures Queue(r)[0] == Cell(r.slots[r.head], r.bufs[r.head][..r.slots[r.head].len])
    ensures Queue(Drop(r)) == Queue(r)[1..]
  {
    Rings.Pop(Cells(r), r.head, r.count);
    assert Cells(Drop(r)) == Cells(r);
  }

  predicate AllGiven(es: seq<Push>) { forall k :: 0 <= k < |es| ==> Given(es[k]) }

  function PushAll(r: Ring, es: seq<Push>): (t: Ring)
    requires WF(r) && AllGiven(es)
    ensures WF(t)
    decreases |es|
  {
    if es == [] then r else Pushed(PushAll(r, es[..|es| - 1]), es[|es| - 1])
  }

  /** The `k`-th buffer from the head is written by the push that makes the count exceed `k`, and by no other. */
  lemma {:induction false} PushAllSlot(r: Ring, es: seq<Push>, k: nat)
    requires WF(r) && AllGiven(es) && k < CAP
    ensures var t := PushAll(r, es);
      && t.head == r.head && t.count == (if r.count + |es| < CAP then r.count + |es| else CAP)
      && var i := Rings.At(CAP, r.head, k);
      t.bufs[i] == if r.count <= k < r.count + |es| then Copied(r.bufs[i], es[k - r.count]) else r.bufs[i]
    decreases |es|
  {
    hide Rings.At, Copied;
    if es != [] {
      var n := |es| - 1;
      var u := PushAll(r, es[..n]);
      PushAllSlot(r, es[..n], k);
      PushSlot(u, es[n], k);
    }
  }

  lemma PushSlot(u: Ring, e: Push, k: nat)
    requires WF(u) && Given(e) && k < CAP
    ensures var i := Rings.At(CAP, u.head, k);
      Pushed(u, e).head == u.head && Pushed(u, e).bufs[i] == if k == u.count then Copied(u.bufs[i], e) else u.bufs[i]
  {
    if k < u.count < CAP { Rings.AtDiffers(CAP, u.head, k, u.count); }
    if u.count < k { Rings.AtDiffers(CAP, u.head, u.count, k); }
  }

  /** The slot before the head is the last one to be filled. */
  lemma SlotBefore(head: nat)
    requires head < CAP
    ensures Rings.At(CAP, Rings.At(CAP, head, 1), CAP - 1) == head
  {
    Rings.AtWraps(CAP, head, 1);
    Rings.AtWraps(CAP, Rings.At(CAP, head, 1), CAP - 1);
  }

  /** Among `es`, the push that fills the ring again after `r` was drained once, if there is one. */
  function Filling(r: Ring, es: seq<Push>): Option<Push>
    requires WF(r) && r.count > 0
  {
    if r.count - 1 + |es| < CAP then None else Some(es[CAP - r.count])
  }

  /** Does that push overwrite byte `k` of the drained payload? */
  predicate Overwrites(f: Option<Push>, k: nat) { f.Some? && f.value.data.Some? && k < CutLen(f.value) }

  /**
   A drained event's payload is promised until the next drain. Its byte `k` lasts until a push fills the
   ring again, and is overwritten by it if and only if that push brings a payload of more than `k` bytes,
   cut to the buffer. Nothing else writes it.
   */
  lemma DrainedPayloadLasts(r: Ring, es: seq<Push>, k: nat)
    requires WF(r) && r.count > 0 && AllGiven(es) && k < DATA_MAX
    ensures var left, f := Drop(r), Filling(r, es);
      (f.Some? ==> Given(f.value)) &&
      PushAll(left, es).bufs[r.head][k] == if Overwrites(f, k) then f.value.data.value[k] else r.bufs[r.head][k]
  {
    var left := Drop(r);
    SlotBefore(r.head);
    hide PushAll, Rings.At, Drop;
    PushAllSlot(left, es, CAP - 1);
  }

  /** The whole payload is intact if and only if every byte the filling push writes is what was there. */
  lemma PayloadIntactIff(r: Ring, es: seq<Push>)
    requires WF(r) && r.count > 0 && AllGiven(es)
    ensures var n, f := r.slots[r.head].len, Filling(r, es);
      (f.Some? ==> Given(f.value)) &&
      (PushAll(Drop(r), es).bufs[r.head][..n] == r.bufs[r.head][..n] <==>
       forall k :: 0 <= k < n && Overwrites(f, k) ==> f.value.data.value[k] == r.bufs[r.head][k])
  {
    hide PushAll, Rings.At, Drop;
    var n, f := r.slots[r.head].len, Filling(r, es);
    var a, b := PushAll(Drop(r), es).bufs[r.head], r.bufs[r.head];
    forall k | 0 <= k < DATA_MAX
      ensures (f.Some? ==> Given(f.value)) && a[k] == if Overwrites(f, k) then f.value.data.value[k] else b[k]
    {
      DrainedPayloadLasts(r, es, k);
    }
    DrainedPayloadLasts(r, es, 0);
    assert a[..n] == b[..n] <==> forall k :: 0 <= k < n ==> a[k] == b[k] by { SamePrefix(a, b, n); }
  }

  lemma SamePrefix(a: seq<nat>, b: seq<nat>, n: nat)
    requires n <= |a| && n <= |b|
    ensures a[..n] == b[..n] <==> forall k :: 0 <= k < n ==> a[k] == b[k]
  {
    assert forall k :: 0 <= k < n ==> a[..n][k] == a[k] && b[..n][k] == b[k];
  }

  // ---- in place --------------------------------------------------------------

  class EventQueue {
    const evq: array<Event>
    const evqData: array2<nat>
    var head: nat
    var count: nat

    ghost predicate Shaped() { evq.Length == CAP && evqData.Length0 == CAP && evqData.Length1 == DATA_MAX }

    /** The buffer of slot `i`. */
    ghost function Buffer(i: nat): (b: seq<nat>)
      requires Shaped() && i < CAP
      reads evqData
      ensures |b| == DATA_MAX
    {
      seq(DATA_MAX, k requires 0 <= k < DATA_MAX reads evqData => evqData[i, k])
    }

    ghost function Abs(): Ring
      requires Shaped()
      reads this, evq, evqData
    {
      Ring(evq[..], seq(CAP, i requires 0 <= i < CAP reads evqData => Buffer(i)), head, count)
    }

    ghost predicate Valid()
      reads this, evq, evqData
    {
      Shaped() && WF(Abs())
    }

    constructor ()
      ensures Valid() && fresh(evq) && fresh(evqData) && Queue(Abs()) == []
    {
      evq := new Event[CAP](_ => NO_EVENT);
      evqData := new nat[CAP, DATA_MAX]((_, _) => 0);
      head, count := 0, 0;
    }

    /** `evq_push`, with its copy into the slot's buffer */
    method EvqPush(e: Push)
      requires Valid() && Given(e)
      modifies this, evq, evqData
      ensures Valid() && Abs() == Pushed(old(Abs()), e)
    {
      if count >= CAP { return; }
      var i := (head + count) % CAP;
      var len := if e.len > DATA_MAX then DATA_MAX else e.len;
      if e.data.Some? && len > 0 { Copy(i, e.data.value, len); }
      evq[i] := Event(e.kind, e.addr, e.status, e.handle, e.aux, len);
      count := count + 1;
      assert evq[..] == old(evq[..])[i := Stored(e)];
      assert Buffer(i) == Copied(old(Buffer(i)), e);
      forall j | 0 <= j < CAP && j != i
        ensures Buffer(j) == old(Buffer(j))
      {
        assert forall k :: 0 <= k < DATA_MAX ==> evqData[j, k] == old(evqData[j, k]);
      }
      assert Abs().bufs == old(Abs().bufs)[i := Buffer(i)];
    }

    /** `memcpy` into the buffer of a slot */
    method Copy(i: nat, data: seq<nat>, len: nat)
      requires Shaped() && i < CAP && len <= DATA_MAX && len <= |data|
      modifies evqData
      ensures forall j, k :: 0 <= j < CAP && 0 <= k < DATA_MAX ==>
                evqData[j, k] == if j == i && k < len then data[k] else old(evqData[j, k])
    {
      for n := 0 to len
        invariant forall j, k :: 0 <= j < CAP && 0 <= k < DATA_MAX ==>
                    evqData[j, k] == if j == i && k < n then data[k] else old(evqData[j, k])
      {
        evqData[i, n] := data[n];
      }
    }

    /** `controller_drain`: the event, and the slot its payload pointer refers to. */
    method Drain() returns (got: bool, e: Event, slot: nat)
      requires Valid()
      modifies this`head, this`count
      ensures Valid() && got == (old(count) > 0)
      ensures got ==> Abs() == Drop(old(Abs())) && slot == old(head) < CAP
      ensures got ==> e.len <= DATA_MAX && Queue(old(Abs()))[0] == Cell(e, Buffer(slot)[..e.len])
      ensures !got ==> Abs() == old(Abs())
    {
      got, e, slot := count > 0, evq[head], head;
      if got {
        DropsFirst(Abs());
        head := (head + 1) % CAP;
        count := count - 1;
      }
    }
  }
}
