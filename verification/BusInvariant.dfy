/**
 What every execution of the bus command stack keeps: what a slave is owed stays in submission order, and no
 command is sent more than three times. Commands are conserved too, unless a callback of a reset submits to
 the slave that is being reset.
 */
module BusInvariant {
  import opened Options
  import opened BusTypes
  import opened BusModel

  // ---- reading the history ---------------------------------------------------

  /** Handles accepted for `addr`, in order. */
  ghost function AcceptedOf(h: seq<Event>, addr: nat): seq<nat> {
    if h == [] then [] else
      var e := h[|h| - 1];
      AcceptedOf(h[..|h| - 1], addr) + (if e.Accepted? && e.addr == addr then [e.handle] else [])
  }

  /** Handles completed for `addr`, in order. */
  ghost function DoneOf(h: seq<Event>, addr: nat): seq<nat> {
    if h == [] then [] else
      var e := h[|h| - 1];
      DoneOf(h[..|h| - 1], addr) + (if e.Done? && e.addr == addr then [e.handle] else [])
  }

  predicate IsFrame(e: Event, addr: nat, handle: nat) { e.Transmitted? && e.addr == addr && e.handle == handle }

  /**
   How often `handle` was put on the wire for `addr` since it left its queue. A frame whose id is 0xFFFF
   does not take a command from its queue, so before any other it does not count.
   */
  ghost function TxCount(h: seq<Event>, addr: nat, handle: nat): nat {
    if h == [] then 0 else
      var e := h[|h| - 1];
      var n := TxCount(h[..|h| - 1], addr, handle);
      if IsFrame(e, addr, handle) && (e.rid != ERROR_RID || n > 0) then n + 1 else n
  }

  lemma Snoc(h: seq<Event>, e: Event)
    ensures forall a :: AcceptedOf(h + [e], a) == AcceptedOf(h, a) + (if e.Accepted? && e.addr == a then [e.handle] else [])
    ensures forall a :: DoneOf(h + [e], a) == DoneOf(h, a) + (if e.Done? && e.addr == a then [e.handle] else [])
    ensures forall a, c :: TxCount(h + [e], a, c) ==
                           TxCount(h, a, c)
                           + (if IsFrame(e, a, c) && (e.rid != ERROR_RID || TxCount(h, a, c) > 0) then 1 else 0)
  {
    assert (h + [e])[..|h|] == h;
  }

  // ---- the invariant ---------------------------------------------------------

  ghost predicate Unassigned(slots: seq<Slot>, addr: nat) {
    forall i :: 0 <= i < |slots| ==> !Matches(slots[i], addr)
  }

  ghost predicate DistinctAddrs(slots: seq<Slot>) {
    forall i, k :: 0 <= i < k < |slots| && slots[i].inUse && slots[k].inUse ==> slots[i].addr != slots[k].addr
  }

  ghost predicate Increasing(hs: seq<nat>, bound: nat) {
    && (forall i, k :: 0 <= i < k < |hs| ==> hs[i] < hs[k])
    && (forall i :: 0 <= i < |hs| ==> hs[i] < bound)
  }

  /** Accepted = completed, then in flight, then queued; and handles grow. */
  ghost predicate SlotConserves(s: State, i: nat)
    requires i < |s.slots|
  {
    s.slots[i].inUse ==> AcceptedOf(s.hist, s.slots[i].addr) == DoneOf(s.hist, s.slots[i].addr) + Owed(s.slots[i])
  }

  ghost predicate Conserved(s: State) {
    && (forall i :: 0 <= i < |s.slots| ==> SlotConserves(s, i))
    && (forall a :: Unassigned(s.slots, a) ==> AcceptedOf(s.hist, a) == DoneOf(s.hist, a))
    && (forall a :: Increasing(AcceptedOf(s.hist, a), s.nextHandle))
  }

  ghost predicate SlotBounded(s: State, i: nat)
    requires i < |s.slots|
  {
    var slot := s.slots[i];
    slot.inUse ==>
      && (forall k :: 0 <= k < |slot.q| ==> TxCount(s.hist, slot.addr, slot.q[k].handle) == 0)
      && (slot.inflight.Some? && slot.phase.Sent? ==>
            TxCount(s.hist, slot.addr, slot.inflight.value.handle) <= slot.retries + 1)
  }

  ghost predicate Bounded(s: State) {
    && (forall i :: 0 <= i < |s.slots| ==> SlotBounded(s, i))
    && (forall a, c :: TxCount(s.hist, a, c) <= MAX_ACK_RETRIES + 1)
    && (forall a, c :: c >= s.nextHandle ==> TxCount(s.hist, a, c) == 0)
  }

  /** What a slot owes was accepted in that order. */
  ghost predicate Ordered(s: State) {
    forall i :: 0 <= i < |s.slots| ==> Increasing(Owed(s.slots[i]), s.nextHandle)
  }

  ghost predicate Sound(s: State) {
    var kept := WF(s) && DistinctAddrs(s.slots) && Ordered(s) && Bounded(s);
    kept
  }

  ghost predicate Inv(s: State) { Sound(s) && Conserved(s) }

  /** `t` is sound, and its commands are conserved if those of `s` were. */
  ghost predicate Keeps(s: State, t: State) {
    Sound(t) && (Conserved(s) ==> Conserved(t))
  }

  lemma InitInv()
    ensures Inv(Init())
  {}

  // ---- elementary steps ------------------------------------------------------

  /** A slot other than `i` is unaffected by a step that concerns slot `i` only. */
  ghost predicate OthersSame(s: State, t: State, i: nat) {
    && |t.slots| == |s.slots| && i < |s.slots|
    && t.slots == s.slots[i := t.slots[i]]
    && t.slots[i].inUse == s.slots[i].inUse && t.slots[i].addr == s.slots[i].addr
  }

  /** At most one event, about `addr`, was appended. */
  ghost predicate OneEvent(h: seq<Event>, g: seq<Event>, addr: nat) {
    || g == h
    || (|g| == |h| + 1 && g == h + [g[|h|]]
        && (match g[|h|]
            case Accepted(a, _) => a == addr
            case Done(a, _, _) => a == addr
            case Transmitted(a, _, _, _, _) => a == addr
            case ShellSent(_, _) => false
            case ShellDone(_, _, _) => false))
  }

  /** Framing: a step of slot `i` is sound when slot `i` itself is in order after it. */
  lemma SlotSound(s: State, t: State, i: nat)
    requires Sound(s) && WF(t) && OthersSame(s, t, i) && t.nextHandle >= s.nextHandle
    requires s.slots[i].inUse && OneEvent(s.hist, t.hist, s.slots[i].addr)
    requires Increasing(Owed(t.slots[i]), t.nextHandle) && SlotBounded(t, i)
    requires forall c :: TxCount(t.hist, s.slots[i].addr, c) <= MAX_ACK_RETRIES + 1
    requires forall c :: c >= t.nextHandle ==> TxCount(t.hist, s.slots[i].addr, c) == 0
    ensures Sound(t)
  {
    hide SlotShape, Owed;
    if t.hist != s.hist { Snoc(s.hist, t.hist[|s.hist|]); }
    forall k | 0 <= k < |t.slots| && k != i
      ensures SlotBounded(t, k) && Increasing(Owed(t.slots[k]), t.nextHandle)
    {
      assert SlotBounded(s, k) && Increasing(Owed(s.slots[k]), s.nextHandle);
    }
  }

  lemma SlotConserved(s: State, t: State, i: nat)
    requires Conserved(s) && DistinctAddrs(s.slots) && OthersSame(s, t, i) && t.nextHandle >= s.nextHandle
    requires s.slots[i].inUse && OneEvent(s.hist, t.hist, s.slots[i].addr)
    requires SlotConserves(t, i) && Increasing(AcceptedOf(t.hist, s.slots[i].addr), t.nextHandle)
    ensures Conserved(t)
  {
    hide Owed;
    if t.hist != s.hist { Snoc(s.hist, t.hist[|s.hist|]); }
    var addr := s.slots[i].addr;
    assert forall a :: a != addr ==> AcceptedOf(t.hist, a) == AcceptedOf(s.hist, a) && DoneOf(t.hist, a) == DoneOf(s.hist, a);
    forall k | 0 <= k < |t.slots| && k != i
      ensures SlotConserves(t, k)
    {
      assert SlotConserves(s, k);
      assert t.slots[k] == s.slots[k];
    }
    forall a | Unassigned(t.slots, a)
      ensures AcceptedOf(t.hist, a) == DoneOf(t.hist, a)
    {
      assert !Matches(t.slots[i], a);
      forall k | 0 <= k < |s.slots| ensures !Matches(s.slots[k], a) { assert !Matches(t.slots[k], a); }
      assert Unassigned(s.slots, a);
    }
  }

  /** Both at once. */
  lemma SlotStep(s: State, t: State, i: nat)
    requires Sound(s) && WF(t) && OthersSame(s, t, i) && t.nextHandle >= s.nextHandle
    requires s.slots[i].inUse && OneEvent(s.hist, t.hist, s.slots[i].addr)
    requires Increasing(Owed(t.slots[i]), t.nextHandle) && SlotBounded(t, i)
    requires forall c :: TxCount(t.hist, s.slots[i].addr, c) <= MAX_ACK_RETRIES + 1
    requires forall c :: c >= t.nextHandle ==> TxCount(t.hist, s.slots[i].addr, c) == 0
    requires Conserved(s) ==> SlotConserves(t, i) && Increasing(AcceptedOf(t.hist, s.slots[i].addr), t.nextHandle)
    ensures Keeps(s, t)
  {
    SlotSound(s, t, i);
    hide Ordered, Bounded, DistinctAddrs;
    assert DistinctAddrs(s.slots);
    if Conserved(s) { SlotConserved(s, t, i); }
  }

  lemma EnqueueOwes(s: State, i: nat, req: Request)
    requires Sound(s) && i < SLOT_MAX && s.slots[i].inUse && |s.slots[i].q| < CMD_QUEUE_DEPTH
    requires req.argsLen <= CMD_ARG_MAX
    ensures var t := Enqueue(s, i, req);
      && Owed(t.slots[i]) == Owed(s.slots[i]) + [s.nextHandle] && Increasing(Owed(t.slots[i]), t.nextHandle)
  {
    hide SlotShape, Bounded, DistinctAddrs;
    var t := Enqueue(s, i, req);
    assert Handles(t.slots[i].q) == Handles(s.slots[i].q) + [s.nextHandle];
    assert Owed(t.slots[i]) == Owed(s.slots[i]) + [s.nextHandle];
    assert Increasing(Owed(s.slots[i]), s.nextHandle);
    hide Owed, Handles;
  }

  lemma EnqueueInv(s: State, i: nat, req: Request)
    requires Sound(s) && i < SLOT_MAX && s.slots[i].inUse && |s.slots[i].q| < CMD_QUEUE_DEPTH
    requires req.argsLen <= CMD_ARG_MAX
    ensures Keeps(s, Enqueue(s, i, req))
  {
    hide Owed, Handles, SlotShape;
    var t := Enqueue(s, i, req);
    EnqueueOwes(s, i, req);
    Snoc(s.hist, Accepted(s.slots[i].addr, s.nextHandle));
    assert t.hist[|s.hist|] == Accepted(s.slots[i].addr, s.nextHandle);
    assert Conserved(s) ==> SlotConserves(s, i);
    assert SlotBounded(s, i);
    SlotStep(s, t, i);
  }

  lemma FinishedInv(s: State, i: nat, status: nat)
    requires Sound(s) && i < SLOT_MAX && s.slots[i].inflight.Some?
    ensures Keeps(s, Finished(s, i, status))
  {
    var t := Finished(s, i, status);
    var slot := s.slots[i];
    Snoc(s.hist, Done(slot.addr, slot.inflight.value.handle, status));
    assert t.hist[|s.hist|] == Done(slot.addr, slot.inflight.value.handle, status);
    assert Conserved(s) ==> SlotConserves(s, i);
    assert Owed(slot) == [slot.inflight.value.handle] + Owed(t.slots[i]);
    assert Increasing(Owed(slot), s.nextHandle);
    IncreasingSuffix([slot.inflight.value.handle], Owed(t.slots[i]), s.nextHandle);
    assert SlotBounded(s, i);
    SlotStep(s, t, i);
  }

  /** What a transmission leaves behind, whether or not the link took the frame. */
  lemma TransmitFacts(s: State, env: Env, i: nat, c: Cmd)
    requires WF(s) && i < SLOT_MAX
    ensures var r := Transmit(s, env, i, c);
      && OthersSame(s, r.s, i) && r.s.nextHandle == s.nextHandle && r.s.now == s.now && r.s.acks == s.acks
      && OneEvent(s.hist, r.s.hist, s.slots[i].addr)
      && r.s.slots[i].q == s.slots[i].q && r.s.slots[i].retries == s.slots[i].retries
      && r.s.slots[i].faulted == s.slots[i].faulted
      && (!r.ok ==> r.s.slots[i] == s.slots[i].(sentMs := s.now))
      && (r.ok ==> r.s.slots[i].inflight == Some(c) && r.s.slots[i].phase == Sent && r.s.hist != s.hist)
      && (forall a :: AcceptedOf(r.s.hist, a) == AcceptedOf(s.hist, a) && DoneOf(r.s.hist, a) == DoneOf(s.hist, a))
      && (forall a, h :: TxCount(r.s.hist, a, h) ==
            TxCount(s.hist, a, h) + (if r.s.hist != s.hist && a == s.slots[i].addr && h == c.handle
                                        && (r.ok || TxCount(s.hist, a, h) > 0) then 1 else 0))
  {
    var r := Transmit(s, env, i, c);
    if r.s.hist != s.hist {
      Snoc(s.hist, r.s.hist[|s.hist|]);
      assert r.s.hist == s.hist + [r.s.hist[|s.hist|]];
    }
  }

  lemma ResendInv(s: State, env: Env, i: nat)
    requires Sound(s) && i < SLOT_MAX && s.slots[i].phase.Sent? && s.slots[i].inUse
    requires s.slots[i].retries < MAX_ACK_RETRIES
    ensures Keeps(s, Resend(s, env, i))
  {
    hide Send;
    var slot := s.slots[i];
    var s1 := s.(slots := s.slots[i := slot.(retries := slot.retries + 1)]);
    var t := Resend(s, env, i);
    TransmitFacts(s1, env, i, slot.inflight.value);
    assert OthersSame(s, t, i);
    assert Conserved(s) ==> SlotConserves(s, i);
    assert Owed(t.slots[i]) == Owed(slot) && Increasing(Owed(slot), s.nextHandle);
    ResendBounded(s, env, i);
    hide SlotBounded;
    SlotStep(s, t, i);
  }

  lemma ResendBounded(s: State, env: Env, i: nat)
    requires Sound(s) && i < SLOT_MAX && s.slots[i].phase.Sent? && s.slots[i].inUse
    requires s.slots[i].retries < MAX_ACK_RETRIES
    ensures var t := Resend(s, env, i);
      && SlotBounded(t, i)
      && (forall c :: TxCount(t.hist, s.slots[i].addr, c) <= MAX_ACK_RETRIES + 1)
      && (forall c :: c >= t.nextHandle ==> TxCount(t.hist, s.slots[i].addr, c) == 0)
  {
    hide Send;
    var slot := s.slots[i];
    TransmitFacts(s.(slots := s.slots[i := slot.(retries := slot.retries + 1)]), env, i, slot.inflight.value);
    assert SlotBounded(s, i);
    HeadDiffers(slot, s.nextHandle);
  }

  /** The command in flight is not also queued, and the queue holds no handle twice. */
  lemma HeadDiffers(slot: Slot, bound: nat)
    requires Increasing(Owed(slot), bound)
    ensures slot.inflight.Some? ==>
              forall k :: 0 <= k < |slot.q| ==> slot.q[k].handle != slot.inflight.value.handle
    ensures forall k :: 0 < k < |slot.q| ==> slot.q[k].handle != slot.q[0].handle
    ensures forall k :: 0 <= k < |slot.q| ==> slot.q[k].handle < bound
    ensures slot.inflight.Some? ==> slot.inflight.value.handle < bound
  {
    var owed := Owed(slot);
    var off := if slot.inflight.Some? then 1 else 0;
    assert |owed| == off + |slot.q| && (off == 1 ==> owed[0] == slot.inflight.value.handle);
    assert forall k :: 0 <= k < |slot.q| ==> owed[off + k] == slot.q[k].handle;
    hide Owed;
  }

  lemma IncreasingSuffix(p: seq<nat>, w: seq<nat>, bound: nat)
    requires Increasing(p + w, bound)
    ensures Increasing(w, bound)
  {
    var all := p + w;
    forall i, k | 0 <= i < k < |w|
      ensures w[i] < w[k]
    {
      assert all[|p| + i] < all[|p| + k];
    }
    forall i | 0 <= i < |w|
      ensures w[i] < bound
    {
      assert all[|p| + i] < bound;
    }
  }

  lemma PumpInv(s: State, env: Env, i: nat)
    requires Sound(s) && i < SLOT_MAX
    ensures Keeps(s, Pump(s, env, i))
  {
    var slot := s.slots[i];
    if !slot.faulted && slot.phase.Idle? && slot.q != [] {
      PumpMoves(s, env, i);
      PumpOwes(slot, Pump(s, env, i).slots[i]);
      PumpBounded(s, env, i);
      hide Pump, Owed, SlotShape;
      assert Increasing(Owed(slot), s.nextHandle);
      assert Conserved(s) ==> SlotConserves(s, i);
      SlotStep(s, Pump(s, env, i), i);
    }
  }

  /** The front is either still in the queue, or in flight and out of it. */
  predicate Moved(a: Slot, b: Slot) {
    a.q != [] && a.inflight.None?
    && ((b.inflight.None? && b.q == a.q) || (b.inflight == Some(a.q[0]) && b.q == a.q[1..]))
  }

  lemma PumpMoves(s: State, env: Env, i: nat)
    requires WF(s) && i < SLOT_MAX
    requires !s.slots[i].faulted && s.slots[i].phase.Idle? && s.slots[i].q != []
    ensures var t := Pump(s, env, i);
      && OthersSame(s, t, i) && OneEvent(s.hist, t.hist, s.slots[i].addr) && t.nextHandle == s.nextHandle
      && s.slots[i].inUse && Moved(s.slots[i], t.slots[i])
      && forall a :: AcceptedOf(t.hist, a) == AcceptedOf(s.hist, a) && DoneOf(t.hist, a) == DoneOf(s.hist, a)
  {
    assert SlotShape(s.slots[i]);
    hide Send, SlotShape, TxCount;
    TransmitFacts(s.(slots := s.slots[i := s.slots[i].(retries := 0)]), env, i, s.slots[i].q[0]);
  }

  lemma PumpOwes(a: Slot, b: Slot)
    requires Moved(a, b)
    ensures Owed(b) == Owed(a)
  {
    assert Handles(a.q) == [a.q[0].handle] + Handles(a.q[1..]);
  }

  lemma PumpBounded(s: State, env: Env, i: nat)
    requires Sound(s) && i < SLOT_MAX
    requires !s.slots[i].faulted && s.slots[i].phase.Idle? && s.slots[i].q != []
    ensures var t := Pump(s, env, i);
      && SlotBounded(t, i)
      && (forall c :: TxCount(t.hist, s.slots[i].addr, c) <= MAX_ACK_RETRIES + 1)
      && (forall c :: c >= t.nextHandle ==> TxCount(t.hist, s.slots[i].addr, c) == 0)
    ensures TxCount(s.hist, s.slots[i].addr, s.slots[i].q[0].handle) == 0
  {
    hide Send;
    var slot := s.slots[i];
    var t := Pump(s, env, i);
    TransmitFacts(s.(slots := s.slots[i := slot.(retries := 0)]), env, i, slot.q[0]);
    assert SlotBounded(s, i);
    HeadDiffers(slot, s.nextHandle);
    assert t.slots[i].q != slot.q ==> forall k :: 0 <= k < |t.slots[i].q| ==> t.slots[i].q[k] == slot.q[k + 1];
  }

  /** A step that leaves every slot alone and may only add a shell event. */
  lemma TableStep(s: State, t: State)
    requires Sound(s) && WF(t) && t.slots == s.slots && t.nextHandle == s.nextHandle
    requires t.hist == s.hist ||
             (|t.hist| == |s.hist| + 1 && t.hist == s.hist + [t.hist[|s.hist|]]
              && (t.hist[|s.hist|].ShellSent? || t.hist[|s.hist|].ShellDone?))
    ensures Keeps(s, t)
  {
    hide SlotShape, Owed;
    if t.hist != s.hist { Snoc(s.hist, t.hist[|s.hist|]); }
    forall i | 0 <= i < SLOT_MAX
      ensures SlotBounded(t, i) && Increasing(Owed(t.slots[i]), t.nextHandle)
      ensures Conserved(s) ==> SlotConserves(t, i)
    {
      assert SlotBounded(s, i) && Increasing(Owed(s.slots[i]), s.nextHandle);
      assert Conserved(s) ==> SlotConserves(s, i);
    }
  }

  lemma SendShellInv(s: State, env: Env, tag: nat, argsLen: nat)
    requires Sound(s)
    ensures Keeps(s, SendShell(s, env, tag, argsLen))
  {
    TableStep(s, SendShell(s, env, tag, argsLen));
  }

  // ---- callbacks and loops ---------------------------------------------------

  lemma SubmitInv(s: State, env: Env, addr: nat, req: Request)
    requires Sound(s)
    ensures Keeps(s, Submit(s, env, addr, req).s)
  {
    var i := SlotFor(s.slots, addr);
    if !(req.argsLen > CMD_ARG_MAX || i == |s.slots| || |s.slots[i].q| >= CMD_QUEUE_DEPTH) {
      EnqueueInv(s, i, req);
      PumpInv(Enqueue(s, i, req), env, i);
    }
  }

  lemma {:induction false} PerformInv(s: State, env: Env, acts: seq<Action>)
    requires Sound(s)
    ensures Keeps(s, Perform(s, env, acts))
    decreases |acts|
  {
    hide Ordered, Bounded, DistinctAddrs, Conserved, Submit, SendShell;
    if acts != [] {
      match acts[0] {
        case DoSubmit(addr, req) => SubmitInv(s, env, addr, req);
        case DoShell(tag, argsLen) => SendShellInv(s, env, tag, argsLen);
      }
      PerformInv(Act(s, env, acts[0]), env, acts[1..]);
    }
  }

  lemma FinishInv(s: State, env: Env, i: nat, status: nat)
    requires Sound(s) && i < SLOT_MAX && s.slots[i].inflight.Some?
    ensures Keeps(s, Finish(s, env, i, status))
  {
    FinishedInv(s, i, status);
    PerformInv(Finished(s, i, status), env, env.react(|s.hist|));
    PumpInv(Perform(Finished(s, i, status), env, env.react(|s.hist|)), env, i);
  }

  /** Freeing the entry a slot awaits and finishing that slot's command. */
  lemma ResolveAwaitedInv(s: State, j: nat, i: nat, status: nat)
    requires Sound(s) && j < PENDING_MAX && i < SLOT_MAX && s.slots[i].inflight.Some?
    ensures Keeps(s, Finished(Freed(s, j), i, status))
  {
    TableStep(s, Freed(s, j));
    FinishedInv(Freed(s, j), i, status);
  }

  lemma ResolveShellInv(s: State, j: nat, status: nat)
    requires Sound(s) && j < PENDING_MAX && s.dx.table[j].Used? && s.dx.table[j].owner.ShellOwner?
    ensures Keeps(s, Freed(s, j).(hist := s.hist + [ShellDone(s.dx.table[j].owner.tag, s.dx.table[j].rid, status)]))
  {
    var d := ShellDone(s.dx.table[j].owner.tag, s.dx.table[j].rid, status);
    var t := Freed(s, j).(hist := s.hist + [d]);
    assert t.hist[|s.hist|] == d;
    TableStep(s, t);
  }

  lemma ResolveInv(s: State, env: Env, j: nat, status: nat)
    requires Sound(s) && j < PENDING_MAX && s.dx.table[j].Used?
    ensures Keeps(s, Resolve(s, env, j, status))
  {
    var e := s.dx.table[j];
    match e.owner {
      case ShellOwner(tag) =>
        ResolveShellInv(s, j, status);
        PerformInv(Freed(s, j).(hist := s.hist + [ShellDone(tag, e.rid, status)]), env, env.react(|s.hist|));
      case SlotOwner(i) =>
        var f := Freed(s, j);
        if f.slots[i].inflight.None? || e.rid != f.slots[i].rid {
          TableStep(s, f);
        } else {
          ResolveAwaitedInv(s, j, i, status);
          PerformInv(Finished(f, i, status), env, env.react(|f.hist|));
          PumpInv(Perform(Finished(f, i, status), env, env.react(|f.hist|)), env, i);
        }
    }
  }

  lemma {:induction false} DownFromInv(s: State, env: Env, j: nat)
    requires Sound(s) && j <= PENDING_MAX
    ensures Keeps(s, DownFrom(s, env, j))
    decreases PENDING_MAX - j
  {
    hide Resolve, Ordered, Bounded, DistinctAddrs, Conserved;
    if j < PENDING_MAX {
      if s.dx.table[j].Used? { ResolveInv(s, env, j, STATUS_LINK_DOWN); }
      DownFromInv(if s.dx.table[j].Used? then Resolve(s, env, j, STATUS_LINK_DOWN) else s, env, j + 1);
    }
  }

  lemma {:induction false} SweepFromInv(s: State, env: Env, now: u64, timeoutMs: nat, j: nat)
    requires Sound(s) && j <= PENDING_MAX
    ensures Keeps(s, SweepFrom(s, env, now, timeoutMs, j))
    decreases PENDING_MAX - j
  {
    hide Resolve, Ordered, Bounded, DistinctAddrs, Conserved;
    if j < PENDING_MAX {
      if Overdue(s.dx.table[j], now, timeoutMs) { ResolveInv(s, env, j, STATUS_TIMEOUT); }
      SweepFromInv(SweepStep(s, env, now, timeoutMs, j), env, now, timeoutMs, j + 1);
    }
  }

  lemma RetryInv(s: State, env: Env, i: nat, giveUp: nat)
    requires Sound(s) && i < SLOT_MAX && s.slots[i].phase.Sent? && s.slots[i].inUse
    ensures Keeps(s, Retry(s, env, i, giveUp))
  {
    if s.slots[i].retries < MAX_ACK_RETRIES { ResendInv(s, env, i); } else { FinishInv(s, env, i, giveUp); }
  }

  lemma PollSlotInv(s: State, env: Env, i: nat)
    requires Sound(s) && i < SLOT_MAX
    ensures Keeps(s, PollSlot(s, env, i))
  {
    hide Retry, Finish, Pump, Conserved;
    if s.slots[i].inUse {
      match s.slots[i].phase {
        case Sent => RetryInv(s, env, i, STATUS_TIMEOUT);
        case Inflight => FinishInv(s, env, i, STATUS_TIMEOUT);
        case Idle => PumpInv(s, env, i);
      }
    }
  }

  lemma {:induction false} PollFromInv(s: State, env: Env, i: nat)
    requires Sound(s) && i <= SLOT_MAX
    ensures Keeps(s, PollFrom(s, env, i))
    decreases SLOT_MAX - i
  {
    hide PollSlot, Ordered, Bounded, DistinctAddrs, Conserved;
    if i < SLOT_MAX {
      PollSlotInv(s, env, i);
      PollFromInv(PollSlot(s, env, i), env, i + 1);
    }
  }

  /** A slot update that sends and completes nothing. */
  lemma LocalStep(s: State, t: State, i: nat)
    requires Sound(s) && WF(t) && i < SLOT_MAX && s.slots[i].inUse && OthersSame(s, t, i)
    requires t.dx == s.dx && t.hist == s.hist && t.nextHandle == s.nextHandle
    requires Owed(t.slots[i]) == Owed(s.slots[i]) && t.slots[i].q == s.slots[i].q
    requires t.slots[i].inflight == s.slots[i].inflight && t.slots[i].rid == s.slots[i].rid
    requires t.slots[i].phase.Sent? ==> s.slots[i].phase.Sent? && t.slots[i].retries == s.slots[i].retries
    ensures Keeps(s, t)
  {
    assert SlotBounded(s, i) && Increasing(Owed(s.slots[i]), s.nextHandle);
    assert Conserved(s) ==> SlotConserves(s, i);
    SlotStep(s, t, i);
  }

  lemma OnAckInv(s: State, addr: nat, rid: nat)
    requires Sound(s)
    ensures Keeps(s, OnAck(s, addr, rid))
  {
    var i := SlotFor(s.slots, addr);
    if Awaits(s, i, rid) { LocalStep(s, OnAck(s, addr, rid), i); }
  }

  lemma OnFlaggedInv(s: State, env: Env, addr: nat, flags: nat)
    requires Sound(s)
    ensures Keeps(s, OnFlagged(s, env, addr, flags))
  {
    var i := SlotFor(s.slots, addr);
    if i < |s.slots| {
      var s1 := s.(slots := s.slots[i := s.slots[i].(faulted := flags % 2 == 1)]);
      LocalStep(s, s1, i);
      PumpInv(s1, env, i);
    }
  }

  // ---- reset -----------------------------------------------------------------

  /** The state with slot `i` replaced. */
  ghost function With(s: State, i: nat, x: Slot): State
    requires i < |s.slots|
  {
    s.(slots := s.slots[i := x])
  }

  lemma PumpFrames(s: State, env: Env, k: nat, i: nat, x: Slot)
    requires WF(s) && k < SLOT_MAX && i < SLOT_MAX && k != i && WF(With(s, i, x))
    ensures Pump(With(s, i, x), env, k) == With(Pump(s, env, k), i, x)
    ensures Pump(s, env, k).slots[i] == s.slots[i]
  {
    hide Send;
    assert Pump(With(s, i, x), env, k).slots == With(Pump(s, env, k), i, x).slots;
  }

  /** What does not submit to slot `i` neither reads nor writes it. */
  lemma ActFrames(s: State, env: Env, a: Action, i: nat, x: Slot)
    requires WF(s) && i < SLOT_MAX && WF(With(s, i, x))
    requires s.slots[i].inUse && x.inUse && x.addr == s.slots[i].addr && !(a.DoSubmit? && a.addr == x.addr)
    ensures Act(With(s, i, x), env, a) == With(Act(s, env, a), i, x)
    ensures Act(s, env, a).slots[i] == s.slots[i]
  {
    hide Pump, Send;
    var u := With(s, i, x);
    match a
    case DoShell(tag, argsLen) =>
    case DoSubmit(addr, req) =>
      var k := SlotFor(s.slots, addr);
      assert forall j :: 0 <= j < SLOT_MAX ==> (Matches(u.slots[j], addr) <==> Matches(s.slots[j], addr));
      assert SlotFor(u.slots, addr) == k;
      if !(req.argsLen > CMD_ARG_MAX || k == |s.slots| || |s.slots[k].q| >= CMD_QUEUE_DEPTH) {
        assert Enqueue(u, k, req).slots == With(Enqueue(s, k, req), i, x).slots;
        PumpFrames(Enqueue(s, k, req), env, k, i, x);
      }
  }

  lemma {:induction false} PerformFrames(s: State, env: Env, acts: seq<Action>, i: nat, x: Slot)
    requires WF(s) && i < SLOT_MAX && WF(With(s, i, x))
    requires s.slots[i].inUse && x.inUse && x.addr == s.slots[i].addr && SparesSlave(acts, x.addr)
    ensures Perform(With(s, i, x), env, acts) == With(Perform(s, env, acts), i, x)
    ensures Perform(s, env, acts).slots[i] == s.slots[i]
    decreases |acts|
  {
    if acts != [] {
      ActFrames(s, env, acts[0], i, x);
      assert forall k :: 0 <= k < |acts[1..]| ==> acts[1..][k] == acts[k + 1];
      PerformFrames(Act(s, env, acts[0]), env, acts[1..], i, x);
    }
  }

  /** The front of the queue reported and taken from it. */
  ghost function Reported(s: State, i: nat, status: nat): (t: State)
    requires WF(s) && i < SLOT_MAX && s.slots[i].q != []
    ensures WF(t)
  {
    With(s, i, s.slots[i].(q := s.slots[i].q[1..])).(
      hist := s.hist + [Done(s.slots[i].addr, s.slots[i].q[0].handle, status)])
  }

  lemma DroppedOwed(slot: Slot, bound: nat)
    requires Increasing(Owed(slot), bound) && slot.q != []
    ensures Increasing(Owed(slot.(q := slot.q[1..])), bound)
  {
    var owed, rest := Owed(slot), Owed(slot.(q := slot.q[1..]));
    var off := |owed| - |slot.q|;
    assert Handles(slot.q[1..]) == Handles(slot.q)[1..];
    assert forall k :: 0 <= k < |rest| ==> rest[k] == owed[if k < off then k else k + 1];
    hide Owed;
  }

  /** The ring moves on past its front. */
  lemma DroppedSound(s: State, i: nat)
    requires Sound(s) && i < SLOT_MAX && s.slots[i].q != []
    ensures Sound(With(s, i, s.slots[i].(q := s.slots[i].q[1..])))
  {
    var slot := s.slots[i];
    var t := With(s, i, slot.(q := slot.q[1..]));
    assert SlotShape(slot) && WF(t);
    hide SlotShape;
    DroppedOwed(slot, s.nextHandle);
    assert SlotBounded(s, i);
    assert forall k :: 0 <= k < |t.slots[i].q| ==> t.slots[i].q[k] == slot.q[k + 1];
    SlotSound(s, t, i);
  }

  lemma DoneSound(s: State, i: nat, handle: nat, status: nat)
    requires Sound(s) && i < SLOT_MAX && s.slots[i].inUse
    ensures Sound(s.(hist := s.hist + [Done(s.slots[i].addr, handle, status)]))
  {
    var t := s.(hist := s.hist + [Done(s.slots[i].addr, handle, status)]);
    Snoc(s.hist, t.hist[|s.hist|]);
    assert SlotBounded(s, i) && Increasing(Owed(s.slots[i]), s.nextHandle);
    SlotSound(s, t, i);
  }

  lemma ReportedConserves(s: State, i: nat, status: nat)
    requires WF(s) && DistinctAddrs(s.slots) && Conserved(s)
    requires i < SLOT_MAX && s.slots[i].inUse && s.slots[i].q != [] && s.slots[i].phase.Idle?
    ensures Conserved(Reported(s, i, status))
  {
    var t, slot := Reported(s, i, status), s.slots[i];
    assert SlotShape(slot);
    Snoc(s.hist, Done(slot.addr, slot.q[0].handle, status));
    assert t.hist[|s.hist|] == Done(slot.addr, slot.q[0].handle, status);
    assert SlotConserves(s, i);
    assert Owed(slot) == [slot.q[0].handle] + Owed(t.slots[i]);
    hide Owed, SlotShape, TxCount;
    SlotConserved(s, t, i);
  }

  lemma ReportedInv(s: State, i: nat, status: nat)
    requires Sound(s) && i < SLOT_MAX && s.slots[i].inUse && s.slots[i].q != [] && s.slots[i].phase.Idle?
    ensures Keeps(s, Reported(s, i, status))
  {
    hide Conserved, SlotShape;
    var d := s.(hist := s.hist + [Done(s.slots[i].addr, s.slots[i].q[0].handle, status)]);
    DoneSound(s, i, s.slots[i].q[0].handle, status);
    DroppedSound(d, i);
    assert Reported(s, i, status) == With(d, i, d.slots[i].(q := d.slots[i].q[1..]));
    if Conserved(s) { ReportedConserves(s, i, status); }
  }

  /** If the callback spares the slave, it may as well run after the ring has moved on. */
  lemma AbortFrontIs(s: State, env: Env, i: nat, status: nat)
    requires WF(s) && i < SLOT_MAX && s.slots[i].inUse && s.slots[i].q != [] && Polite(env)
    ensures var acts := env.abort(|s.hist|, s.slots[i].addr);
      AbortFront(s, env, i, status) == Perform(Reported(s, i, status), env, acts)
    ensures AbortFront(s, env, i, status).slots[i] == Reported(s, i, status).slots[i]
  {
    hide Perform;
    var slot := s.slots[i];
    var d := s.(hist := s.hist + [Done(slot.addr, slot.q[0].handle, status)]);
    var x := slot.(q := slot.q[1..]);
    assert SparesSlave(env.abort(|s.hist|, slot.addr), slot.addr);
    PerformFrames(d, env, env.abort(|s.hist|, slot.addr), i, x);
    assert Reported(s, i, status) == With(d, i, x);
  }

  /** The drain loop ends with an empty queue. */
  lemma {:induction false} DrainInv(s: State, env: Env, i: nat, status: nat, limit: nat)
    requires Inv(s) && i < SLOT_MAX && s.slots[i].inUse && s.slots[i].phase.Idle? && Polite(env)
    requires |s.slots[i].q| <= limit
    ensures var d := Drain(s, env, i, status, limit);
      d.ended && Inv(d.s) && d.s.slots[i] == s.slots[i].(q := [])
    decreases limit
  {
    hide AbortFront, Perform;
    if s.slots[i].q != [] {
      AbortFrontIs(s, env, i, status);
      ReportedInv(s, i, status);
      PerformInv(Reported(s, i, status), env, env.abort(|s.hist|, s.slots[i].addr));
      DrainInv(AbortFront(s, env, i, status), env, i, status, limit - 1);
    }
  }

  /** A slot may be given back; commands are conserved if it owes nothing. */
  lemma ClearInv(s: State, i: nat)
    requires Sound(s) && i < SLOT_MAX && s.slots[i].inUse
    ensures Sound(With(s, i, CLEARED_SLOT))
    ensures Owed(s.slots[i]) == [] ==> Keeps(s, With(s, i, CLEARED_SLOT))
  {
    var t := With(s, i, CLEARED_SLOT);
    assert forall k :: 0 <= k < |t.slots| ==> (SlotBounded(s, k) ==> SlotBounded(t, k));
    assert Sound(t);
    if Conserved(s) && Owed(s.slots[i]) == [] {
      hide Ordered, Bounded, DistinctAddrs;
      forall k | 0 <= k < |t.slots|
        ensures SlotConserves(t, k)
      {
        assert SlotConserves(s, k);
      }
      forall a | Unassigned(t.slots, a)
        ensures AcceptedOf(t.hist, a) == DoneOf(t.hist, a)
      {
        ClearedConserves(s, i, a);
      }
    }
  }

  lemma ClearedConserves(s: State, i: nat, a: nat)
    requires Conserved(s) && i < |s.slots| && s.slots[i].inUse && Owed(s.slots[i]) == []
    requires Unassigned(With(s, i, CLEARED_SLOT).slots, a)
    ensures AcceptedOf(s.hist, a) == DoneOf(s.hist, a)
  {
    var t := With(s, i, CLEARED_SLOT);
    if a == s.slots[i].addr {
      assert SlotConserves(s, i);
    } else {
      forall k | 0 <= k < |s.slots| ensures !Matches(s.slots[k], a) { assert !Matches(t.slots[k], a); }
      assert Unassigned(s.slots, a);
    }
  }

  /** The state when the drain loop starts: the command in flight is completed, and the queue is what it was. */
  ghost function Released(s: State, env: Env, i: nat, status: nat): (f: State)
    requires WF(s) && i < SLOT_MAX
    ensures WF(f)
  {
    if s.slots[i].inflight.None? then s
    else Perform(Finished(s, i, status), env, env.abort(|s.hist|, s.slots[i].addr))
  }

  lemma ReleasedInv(s: State, env: Env, i: nat, status: nat)
    requires Inv(s) && i < SLOT_MAX && s.slots[i].inUse && Polite(env)
    ensures var f := Released(s, env, i, status);
      && Inv(f) && f.slots[i].inUse && f.slots[i].phase.Idle? && f.slots[i].inflight.None?
      && f.slots[i].q == s.slots[i].q
  {
    hide Perform;
    assert SlotShape(s.slots[i]);
    if s.slots[i].inflight.Some? {
      var d := Finished(s, i, status);
      FinishedInv(s, i, status);
      assert SparesSlave(env.abort(|s.hist|, s.slots[i].addr), s.slots[i].addr);
      assert With(d, i, d.slots[i]) == d;
      PerformFrames(d, env, env.abort(|s.hist|, s.slots[i].addr), i, d.slots[i]);
      PerformInv(d, env, env.abort(|s.hist|, s.slots[i].addr));
    }
  }

  lemma ResetSlotInv(s: State, env: Env, i: nat, status: nat, limit: nat)
    requires Inv(s) && i < SLOT_MAX && Polite(env) && limit >= CMD_QUEUE_DEPTH
    ensures var r := ResetSlot(s, env, i, status, limit); r.ended && Inv(r.s)
  {
    hide Drain, Perform;
    assert SlotShape(s.slots[i]);
    if s.slots[i].inUse {
      var f := Released(s, env, i, status);
      ReleasedInv(s, env, i, status);
      DrainInv(f, env, i, status, limit);
      ClearInv(Drain(f, env, i, status, limit).s, i);
    }
  }

  /** A reset whose callbacks spare their slave ends and keeps the invariant. */
  lemma {:induction false} ResetFromInv(s: State, env: Env, i: nat, status: nat, limit: nat)
    requires Inv(s) && i <= SLOT_MAX && Polite(env) && limit >= CMD_QUEUE_DEPTH
    ensures var r := ResetFrom(s, env, i, status, limit); r.ended && Inv(r.s)
    decreases SLOT_MAX - i
  {
    hide ResetSlot;
    if i < SLOT_MAX {
      ResetSlotInv(s, env, i, status, limit);
      ResetFromInv(ResetSlot(s, env, i, status, limit).s, env, i + 1, status, limit);
    }
  }

  // ---- reset, whatever its callbacks do --------------------------------------

  lemma AbortFrontSound(s: State, env: Env, i: nat, status: nat)
    requires Sound(s) && i < SLOT_MAX && s.slots[i].q != []
    ensures Sound(AbortFront(s, env, i, status))
  {
    assert SlotShape(s.slots[i]);
    hide Perform, SlotShape;
    var d := s.(hist := s.hist + [Done(s.slots[i].addr, s.slots[i].q[0].handle, status)]);
    var acts := env.abort(|s.hist|, s.slots[i].addr);
    DoneSound(s, i, s.slots[i].q[0].handle, status);
    PerformInv(d, env, acts);
    var p := Perform(d, env, acts);
    if p.slots[i].q == [] {
      assert AbortFront(s, env, i, status).slots == p.slots;
    } else {
      DroppedSound(p, i);
    }
  }

  lemma {:induction false} DrainSound(s: State, env: Env, i: nat, status: nat, limit: nat)
    requires Sound(s) && i < SLOT_MAX
    ensures Sound(Drain(s, env, i, status, limit).s)
    decreases limit
  {
    hide AbortFront, Ordered, Bounded, DistinctAddrs;
    if s.slots[i].q != [] && limit > 0 {
      AbortFrontSound(s, env, i, status);
      DrainSound(AbortFront(s, env, i, status), env, i, status, limit - 1);
    }
  }

  lemma UnusedIsClear(s: State, i: nat)
    requires WF(s) && i < SLOT_MAX && !s.slots[i].inUse
    ensures With(s, i, CLEARED_SLOT) == s
  {
    assert SlotShape(s.slots[i]) && s.slots[i := s.slots[i]] == s.slots;
  }

  lemma ResetSlotSound(s: State, env: Env, i: nat, status: nat, limit: nat)
    requires Sound(s) && i < SLOT_MAX
    ensures Sound(ResetSlot(s, env, i, status, limit).s)
  {
    hide Drain, Perform, SlotShape, Ordered, Bounded, DistinctAddrs;
    if s.slots[i].inUse {
      var f := Released(s, env, i, status);
      if s.slots[i].inflight.Some? {
        FinishedInv(s, i, status);
        PerformInv(Finished(s, i, status), env, env.abort(|s.hist|, s.slots[i].addr));
      }
      DrainSound(f, env, i, status, limit);
      var d := Drain(f, env, i, status, limit).s;
      if d.slots[i].inUse {
        ClearInv(d, i);
      } else {
        UnusedIsClear(d, i);
      }
    }
  }

  /** A reset is sound after any number of turns of its loops, whatever its callbacks do. */
  lemma {:induction false} ResetFromSound(s: State, env: Env, i: nat, status: nat, limit: nat)
    requires Sound(s) && i <= SLOT_MAX
    ensures Sound(ResetFrom(s, env, i, status, limit).s)
    decreases SLOT_MAX - i
  {
    hide ResetSlot, Ordered, Bounded, DistinctAddrs;
    if i < SLOT_MAX {
      ResetSlotSound(s, env, i, status, limit);
      ResetFromSound(ResetSlot(s, env, i, status, limit).s, env, i + 1, status, limit);
    }
  }

  // ---- every call ------------------------------------------------------------

  lemma AddSlaveInv(s: State, addr: nat)
    requires Sound(s)
    ensures Keeps(s, AddSlave(s, addr))
  {
    var i := FirstUnused(s.slots, 0);
    var t := AddSlave(s, addr);
    if t != s {
      hide Ordered, Bounded, DistinctAddrs, Conserved, SlotShape;
      assert Unassigned(s.slots, addr);
      AddedSound(s, i, addr);
      if Conserved(s) { AddedConserves(s, i, addr); }
    }
  }

  lemma AddedSound(s: State, i: nat, addr: nat)
    requires Sound(s) && i < SLOT_MAX && !s.slots[i].inUse && Unassigned(s.slots, addr)
    ensures Sound(With(s, i, CLEARED_SLOT.(inUse := true, addr := addr)))
  {
    var t := With(s, i, CLEARED_SLOT.(inUse := true, addr := addr));
    assert WF(t) && DistinctAddrs(t.slots) && Increasing(Owed(t.slots[i]), t.nextHandle);
    hide SlotShape, Owed;
    forall k | 0 <= k < |t.slots|
      ensures SlotBounded(t, k) && Increasing(Owed(t.slots[k]), t.nextHandle)
    {
      assert SlotBounded(s, k) && Increasing(Owed(s.slots[k]), s.nextHandle);
    }
  }

  lemma AddedConserves(s: State, i: nat, addr: nat)
    requires Conserved(s) && i < |s.slots| && !s.slots[i].inUse && Unassigned(s.slots, addr)
    ensures Conserved(With(s, i, CLEARED_SLOT.(inUse := true, addr := addr)))
  {
    var t := With(s, i, CLEARED_SLOT.(inUse := true, addr := addr));
    forall k | 0 <= k < |t.slots|
      ensures SlotConserves(t, k)
    {
      assert SlotConserves(s, k);
    }
    forall a | Unassigned(t.slots, a)
      ensures Unassigned(s.slots, a)
    {
      forall k | 0 <= k < |s.slots| ensures !Matches(s.slots[k], a) { assert !Matches(t.slots[k], a); }
    }
  }

  /** A reset, if this is one, spares the slave being reset and has turns enough. */
  ghost predicate Spares(env: Env, op: Op) { op.OpReset? ==> Polite(env) && op.limit >= CMD_QUEUE_DEPTH }

  /** Every call is sound, and conserves commands unless callbacks of a reset submit to the slave being reset. */
  lemma StepInv(s: State, env: Env, op: Op)
    requires Sound(s)
    ensures Sound(Step(s, env, op))
    ensures Spares(env, op) ==> Keeps(s, Step(s, env, op))
  {
    hide DownFrom, SweepFrom, PollFrom, ResetFrom, Resolve, Retry, Submit;
    match op
    case OpSubmit(addr, req) => SubmitInv(s, env, addr, req);
    case OpShell(tag, argsLen) => SendShellInv(s, env, tag, argsLen);
    case OpReply(rid, status) =>
      var j := FindRid(s.dx.table, rid, 0);
      if j < |s.dx.table| { ResolveInv(s, env, j, status); }
    case OpLink(up) =>
      var s1 := s.(dx := s.dx.(up := up));
      TableStep(s, s1);
      if !up { DownFromInv(s1, env, 0); }
    case OpDemuxPoll(mono, timeoutMs) => SweepFromInv(s, env, mono, timeoutMs, 0);
    case OpPoll(now) =>
      TableStep(s, s.(now := now));
      PollFromInv(s.(now := now), env, 0);
    case OpAck(addr, rid) => OnAckInv(s, addr, rid);
    case OpNak(addr, rid) =>
      var i := SlotFor(s.slots, addr);
      if Awaits(s, i, rid) { RetryInv(s, env, i, STATUS_BUSY); }
    case OpFlagged(addr, flags) => OnFlaggedInv(s, env, addr, flags);
    case OpReset(status, limit) =>
      ResetFromSound(s, env, 0, status, limit);
      if Conserved(s) && Spares(env, op) { ResetFromInv(s, env, 0, status, limit); }
    case OpAddSlave(addr) => AddSlaveInv(s, addr);
  }

  /** Every state of every execution is sound, whatever the environment does. */
  lemma {:induction false} AlwaysSound(run: seq<State>, env: Env, ops: seq<Op>, k: nat)
    requires IsExecution(run, env, ops) && k < |run|
    ensures Sound(run[k])
    decreases k
  {
    hide Step;
    if k == 0 {
      InitInv();
    } else {
      AlwaysSound(run, env, ops, k - 1);
      assert StepAt(run, env, ops, k - 1);
      StepInv(run[k - 1], env, ops[k - 1]);
    }
  }

  /** And conserves commands, if the callbacks of its resets spare the slave being reset. */
  lemma {:induction false} Reachable(run: seq<State>, env: Env, ops: seq<Op>, k: nat)
    requires IsRun(run, env, ops) && k < |run|
    ensures Inv(run[k])
    decreases k
  {
    hide Step;
    if k == 0 {
      InitInv();
    } else {
      Reachable(run, env, ops, k - 1);
      assert StepAt(run, env, ops, k - 1);
      StepInv(run[k - 1], env, ops[k - 1]);
    }
  }
}
