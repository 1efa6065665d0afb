/**
 Bounded lifetime: with a tracker clock that never runs back and is polled at most G ms apart, a
 command first put on the wire at time T is no longer in flight when the clock reaches
 T + 3 (1500 + G) + exec_timeout_ms + 1000 + G.
 */
module BusTiming {
  import opened Options
  import opened BusTypes
  import opened BusModel
  import opened BusInvariant

  /** When the slot of `addr` first became SENT with `handle`, which is at its first frame with an id other than 0xFFFF. */
  ghost function FirstTx(h: seq<Event>, addr: nat, handle: nat): Option<u64> {
    if h == [] then None else
      var r := FirstTx(h[..|h| - 1], addr, handle);
      var e := h[|h| - 1];
      if r.Some? then r
      else if IsFrame(e, addr, handle) && e.rid != ERROR_RID then Some(e.at) else None
  }

  lemma FirstTxSnoc(h: seq<Event>, e: Event)
    ensures forall a, c :: FirstTx(h + [e], a, c) ==
                           (if FirstTx(h, a, c).Some? then FirstTx(h, a, c)
                            else if IsFrame(e, a, c) && e.rid != ERROR_RID then Some(e.at) else None)
  {
    assert (h + [e])[..|h|] == h;
  }

  lemma {:induction false} NeverSent(h: seq<Event>, addr: nat, handle: nat)
    ensures FirstTx(h, addr, handle).None? <==> TxCount(h, addr, handle) == 0
  {
    if h != [] { NeverSent(h[..|h| - 1], addr, handle); }
  }

  /** Time still granted to the ACK phase after `retries` resends. */
  function AckWindows(retries: nat, gap: nat): nat {
    if retries == 0 then 3 * (ACK_TIMEOUT_MS + gap)
    else if retries == 1 then 2 * (ACK_TIMEOUT_MS + gap)
    else ACK_TIMEOUT_MS + gap
  }

  function ExecWindow(c: Cmd, gap: nat): nat { c.req.execTimeout + EXEC_MARGIN_MS + gap }

  /** The potential: a time before which the slot's command is certainly completed. */
  function Deadline(slot: Slot, gap: nat): nat
    requires slot.inflight.Some?
  {
    if slot.phase.Sent? then slot.sentMs + AckWindows(slot.retries, gap) + ExecWindow(slot.inflight.value, gap)
    else slot.ackMs + ExecWindow(slot.inflight.value, gap)
  }

  /** The slot's timer is at most `slack` past due. */
  ghost predicate OnTime(slot: Slot, now: nat, slack: nat) {
    && (slot.phase.Sent? ==> slot.sentMs <= now < slot.sentMs + ACK_TIMEOUT_MS + slack)
    && (slot.phase.Inflight? && slot.inflight.Some? ==>
          slot.ackMs <= now < slot.ackMs + ExecWindow(slot.inflight.value, slack))
  }

  /** The potential never exceeds what the first transmission granted. */
  ghost predicate WithinLife(s: State, i: nat, gap: nat)
    requires i < |s.slots|
  {
    var slot := s.slots[i];
    slot.inflight.Some? ==>
      var c := slot.inflight.value;
      var first := FirstTx(s.hist, slot.addr, c.handle);
      first.Some? && Deadline(slot, gap) <= first.value + 3 * (ACK_TIMEOUT_MS + gap) + ExecWindow(c, gap)
  }

  ghost predicate SlotTimed(s: State, i: nat, gap: nat)
    requires i < |s.slots|
  {
    OnTime(s.slots[i], s.now, gap) && WithinLife(s, i, gap)
  }

  ghost predicate Timed(s: State, gap: nat) {
    forall i :: 0 <= i < |s.slots| ==> SlotTimed(s, i, gap)
  }

  /** Between `s` and `t` the clock stood still, no potential grew, and no timer fell behind. */
  ghost predicate KeepsTime(s: State, t: State, gap: nat) {
    var kept := && t.now == s.now && |t.slots| == |s.slots|
                && Timed(t, gap)
                && (forall i :: 0 <= i < |s.slots| && OnTime(s.slots[i], s.now, 0) ==> OnTime(t.slots[i], t.now, 0));
    kept
  }

  /** A step of slot `i` alone: the others keep their timers. */
  lemma SlotKeepsTime(s: State, t: State, i: nat, gap: nat)
    requires Timed(s, gap) && OthersSame(s, t, i) && t.now == s.now
    requires s.slots[i].inUse && OneEvent(s.hist, t.hist, s.slots[i].addr)
    requires SlotTimed(t, i, gap)
    requires OnTime(s.slots[i], s.now, 0) ==> OnTime(t.slots[i], t.now, 0)
    requires forall k :: 0 <= k < |s.slots| && k != i && s.slots[k].inflight.Some? ==> s.slots[k].addr != s.slots[i].addr
    ensures KeepsTime(s, t, gap)
  {
    if t.hist != s.hist { FirstTxSnoc(s.hist, t.hist[|s.hist|]); }
    forall k | 0 <= k < |t.slots| && k != i
      ensures SlotTimed(t, k, gap)
    {
      assert SlotTimed(s, k, gap);
    }
  }

  lemma OtherAddrs(s: State, i: nat)
    requires Sound(s) && i < SLOT_MAX && s.slots[i].inUse
    ensures forall k :: 0 <= k < |s.slots| && k != i && s.slots[k].inflight.Some? ==> s.slots[k].addr != s.slots[i].addr
  {
    forall k | 0 <= k < |s.slots| && k != i && s.slots[k].inflight.Some?
      ensures s.slots[k].addr != s.slots[i].addr
    {
      assert SlotShape(s.slots[k]);
    }
  }

  lemma EnqueueTime(s: State, i: nat, req: Request, gap: nat)
    requires Sound(s) && Timed(s, gap) && i < SLOT_MAX && s.slots[i].inUse && |s.slots[i].q| < CMD_QUEUE_DEPTH
    requires req.argsLen <= CMD_ARG_MAX
    ensures KeepsTime(s, Enqueue(s, i, req), gap)
  {
    var t := Enqueue(s, i, req);
    FirstTxSnoc(s.hist, Accepted(s.slots[i].addr, s.nextHandle));
    assert t.hist[|s.hist|] == Accepted(s.slots[i].addr, s.nextHandle);
    OtherAddrs(s, i);
    assert SlotTimed(s, i, gap);
    SlotKeepsTime(s, t, i, gap);
  }

  lemma FinishedTime(s: State, i: nat, status: nat, gap: nat)
    requires Sound(s) && Timed(s, gap) && i < SLOT_MAX && s.slots[i].inflight.Some?
    ensures KeepsTime(s, Finished(s, i, status), gap)
    ensures OnTime(Finished(s, i, status).slots[i], s.now, 0)
  {
    var t := Finished(s, i, status);
    assert t.hist[|s.hist|] == Done(s.slots[i].addr, s.slots[i].inflight.value.handle, status);
    assert SlotShape(s.slots[i]);
    OtherAddrs(s, i);
    SlotKeepsTime(s, t, i, gap);
  }

  lemma TransmitTime(s: State, env: Env, i: nat, c: Cmd)
    requires WF(s) && i < SLOT_MAX
    ensures var r := Transmit(s, env, i, c);
      && (forall a, h :: FirstTx(s.hist, a, h).Some? ==> FirstTx(r.s.hist, a, h) == FirstTx(s.hist, a, h))
      && (r.ok && FirstTx(s.hist, s.slots[i].addr, c.handle).None? ==>
            FirstTx(r.s.hist, s.slots[i].addr, c.handle) == Some(s.now))
      && r.s.slots[i].sentMs == s.now
  {
    var r := Transmit(s, env, i, c);
    if r.s.hist != s.hist {
      FirstTxSnoc(s.hist, r.s.hist[|s.hist|]);
      assert r.s.hist == s.hist + [r.s.hist[|s.hist|]];
    }
  }

  lemma PumpTime(s: State, env: Env, i: nat, gap: nat)
    requires Sound(s) && Timed(s, gap) && i < SLOT_MAX
    ensures KeepsTime(s, Pump(s, env, i), gap)
  {
    var slot := s.slots[i];
    if !slot.faulted && slot.phase.Idle? && slot.q != [] {
      var c := slot.q[0];
      var s1 := s.(slots := s.slots[i := slot.(retries := 0)]);
      var t := Pump(s, env, i);
      TransmitFacts(s1, env, i, c);
      TransmitTime(s1, env, i, c);
      assert SlotBounded(s, i);
      NeverSent(s.hist, slot.addr, c.handle);
      OtherAddrs(s, i);
      SlotKeepsTime(s, t, i, gap);
    }
  }

  lemma ResendTime(s: State, env: Env, i: nat, gap: nat)
    requires Sound(s) && Timed(s, gap) && i < SLOT_MAX && s.slots[i].phase.Sent? && s.slots[i].inUse
    requires s.slots[i].retries < MAX_ACK_RETRIES
    ensures KeepsTime(s, Resend(s, env, i), gap)
    ensures OnTime(Resend(s, env, i).slots[i], s.now, 0)
  {
    hide SlotShape, SlotBounded, Resend, SlotTimed;
    ResendFrames(s, env, i);
    ResendTimed(s, env, i, gap);
    OtherAddrs(s, i);
    SlotKeepsTime(s, Resend(s, env, i), i, gap);
  }

  lemma ResendFrames(s: State, env: Env, i: nat)
    requires WF(s) && i < SLOT_MAX && s.slots[i].phase.Sent? && s.slots[i].inUse
    requires s.slots[i].retries < MAX_ACK_RETRIES
    ensures var t := Resend(s, env, i);
      OthersSame(s, t, i) && OneEvent(s.hist, t.hist, s.slots[i].addr) && t.now == s.now
  {
    var s1 := s.(slots := s.slots[i := s.slots[i].(retries := s.slots[i].retries + 1)]);
    assert WF(s1) && s.slots[i].inflight.Some?;
    hide Send, SlotShape;
    TransmitFacts(s1, env, i, s.slots[i].inflight.value);
  }

  /** A resend restarts the ACK clock and spends one of the windows. */
  lemma ResendTimed(s: State, env: Env, i: nat, gap: nat)
    requires WF(s) && i < SLOT_MAX && s.slots[i].phase.Sent? && s.slots[i].inUse && SlotTimed(s, i, gap)
    requires s.slots[i].retries < MAX_ACK_RETRIES
    ensures SlotTimed(Resend(s, env, i), i, gap) && OnTime(Resend(s, env, i).slots[i], s.now, 0)
  {
    var s1 := s.(slots := s.slots[i := s.slots[i].(retries := s.slots[i].retries + 1)]);
    assert WF(s1) && s.slots[i].inflight.Some?;
    hide Send, SlotShape;
    TransmitFacts(s1, env, i, s.slots[i].inflight.value);
    TransmitTime(s1, env, i, s.slots[i].inflight.value);
  }

  /** Steps that leave the slots alone. */
  lemma TableTime(s: State, t: State, gap: nat)
    requires Timed(s, gap) && t.slots == s.slots && t.now == s.now
    requires t.hist == s.hist ||
             (|t.hist| == |s.hist| + 1 && t.hist == s.hist + [t.hist[|s.hist|]] && !t.hist[|s.hist|].Transmitted?)
    ensures KeepsTime(s, t, gap)
  {
    if t.hist != s.hist { FirstTxSnoc(s.hist, t.hist[|s.hist|]); }
    forall i | 0 <= i < |t.slots| ensures SlotTimed(t, i, gap) { assert SlotTimed(s, i, gap); }
  }

  lemma KeepsTrans(s: State, t: State, u: State, gap: nat)
    requires KeepsTime(s, t, gap) && KeepsTime(t, u, gap)
    ensures KeepsTime(s, u, gap)
  {}

  lemma ShellTime(s: State, env: Env, tag: nat, argsLen: nat, gap: nat)
    requires Sound(s) && Timed(s, gap)
    ensures KeepsTime(s, SendShell(s, env, tag, argsLen), gap)
  {
    TableTime(s, SendShell(s, env, tag, argsLen), gap);
  }

  lemma SubmitTime(s: State, env: Env, addr: nat, req: Request, gap: nat)
    requires Sound(s) && Timed(s, gap)
    ensures KeepsTime(s, Submit(s, env, addr, req).s, gap)
  {
    var i := SlotFor(s.slots, addr);
    if !(req.argsLen > CMD_ARG_MAX || i == |s.slots| || |s.slots[i].q| >= CMD_QUEUE_DEPTH) {
      var t := Enqueue(s, i, req);
      EnqueueInv(s, i, req);
      EnqueueTime(s, i, req, gap);
      PumpTime(t, env, i, gap);
      KeepsTrans(s, t, Pump(t, env, i), gap);
    }
  }

  lemma {:induction false} PerformTime(s: State, env: Env, acts: seq<Action>, gap: nat)
    requires Sound(s) && Timed(s, gap)
    ensures KeepsTime(s, Perform(s, env, acts), gap)
    decreases |acts|
  {
    if acts != [] {
      var t := Act(s, env, acts[0]);
      match acts[0] {
        case DoSubmit(addr, req) =>
          SubmitInv(s, env, addr, req);
          SubmitTime(s, env, addr, req, gap);
        case DoShell(tag, argsLen) =>
          SendShellInv(s, env, tag, argsLen);
          ShellTime(s, env, tag, argsLen, gap);
      }
      PerformTime(t, env, acts[1..], gap);
      KeepsTrans(s, t, Perform(t, env, acts[1..]), gap);
    }
  }

  lemma ThenActAndPump(s: State, f: State, env: Env, acts: seq<Action>, i: nat, gap: nat)
    requires Sound(f) && KeepsTime(s, f, gap) && i < SLOT_MAX
    ensures KeepsTime(s, Perform(f, env, acts), gap)
    ensures KeepsTime(s, Pump(Perform(f, env, acts), env, i), gap)
    ensures OnTime(f.slots[i], f.now, 0) ==> OnTime(Pump(Perform(f, env, acts), env, i).slots[i], s.now, 0)
  {
    var p := Perform(f, env, acts);
    PerformInv(f, env, acts);
    PerformTime(f, env, acts, gap);
    KeepsTrans(s, f, p, gap);
    PumpTime(p, env, i, gap);
    KeepsTrans(s, p, Pump(p, env, i), gap);
  }

  lemma FinishTime(s: State, env: Env, i: nat, status: nat, gap: nat)
    requires Sound(s) && Timed(s, gap) && i < SLOT_MAX && s.slots[i].inflight.Some?
    ensures KeepsTime(s, Finish(s, env, i, status), gap)
    ensures OnTime(Finish(s, env, i, status).slots[i], s.now, 0)
  {
    FinishedInv(s, i, status);
    FinishedTime(s, i, status, gap);
    ThenActAndPump(s, Finished(s, i, status), env, env.react(|s.hist|), i, gap);
  }

  lemma ResolveTime(s: State, env: Env, j: nat, status: nat, gap: nat)
    requires Sound(s) && Timed(s, gap) && j < PENDING_MAX && s.dx.table[j].Used?
    ensures KeepsTime(s, Resolve(s, env, j, status), gap)
  {
    var e := s.dx.table[j];
    var f := Freed(s, j);
    TableTime(s, f, gap);
    match e.owner {
      case ShellOwner(tag) =>
        var d := f.(hist := s.hist + [ShellDone(tag, e.rid, status)]);
        ResolveShellInv(s, j, status);
        assert d.hist[|s.hist|] == ShellDone(tag, e.rid, status);
        TableTime(s, d, gap);
        ThenActAndPump(s, d, env, env.react(|s.hist|), 0, gap);
      case SlotOwner(i) =>
        if f.slots[i].inflight.Some? && e.rid == f.slots[i].rid {
          var d := Finished(f, i, status);
          ResolveAwaitedInv(s, j, i, status);
          assert d.hist[|s.hist|] == Done(s.slots[i].addr, s.slots[i].inflight.value.handle, status);
          assert SlotShape(s.slots[i]);
          OtherAddrs(s, i);
          SlotKeepsTime(s, d, i, gap);
          ThenActAndPump(s, d, env, env.react(|f.hist|), i, gap);
        }
    }
  }

  lemma {:induction false} DownTime(s: State, env: Env, j: nat, gap: nat)
    requires Sound(s) && Timed(s, gap) && j <= PENDING_MAX
    ensures KeepsTime(s, DownFrom(s, env, j), gap)
    decreases PENDING_MAX - j
  {
    if j < PENDING_MAX {
      if s.dx.table[j].Used? {
        var t := Resolve(s, env, j, STATUS_LINK_DOWN);
        ResolveInv(s, env, j, STATUS_LINK_DOWN);
        ResolveTime(s, env, j, STATUS_LINK_DOWN, gap);
        DownTime(t, env, j + 1, gap);
        KeepsTrans(s, t, DownFrom(t, env, j + 1), gap);
      } else {
        DownTime(s, env, j + 1, gap);
      }
    }
  }

  lemma {:induction false} SweepTime(s: State, env: Env, mono: u64, timeoutMs: nat, j: nat, gap: nat)
    requires Sound(s) && Timed(s, gap) && j <= PENDING_MAX
    ensures KeepsTime(s, SweepFrom(s, env, mono, timeoutMs, j), gap)
    decreases PENDING_MAX - j
  {
    if j < PENDING_MAX {
      if Overdue(s.dx.table[j], mono, timeoutMs) {
        var t := Resolve(s, env, j, STATUS_TIMEOUT);
        ResolveInv(s, env, j, STATUS_TIMEOUT);
        ResolveTime(s, env, j, STATUS_TIMEOUT, gap);
        SweepTime(t, env, mono, timeoutMs, j + 1, gap);
        KeepsTrans(s, t, SweepFrom(t, env, mono, timeoutMs, j + 1), gap);
      } else {
        SweepTime(s, env, mono, timeoutMs, j + 1, gap);
      }
    }
  }

  lemma RetryTime(s: State, env: Env, i: nat, giveUp: nat, gap: nat)
    requires Sound(s) && Timed(s, gap) && i < SLOT_MAX && s.slots[i].phase.Sent? && s.slots[i].inUse
    ensures KeepsTime(s, Retry(s, env, i, giveUp), gap)
    ensures OnTime(Retry(s, env, i, giveUp).slots[i], s.now, 0)
  {
    if s.slots[i].retries < MAX_ACK_RETRIES { ResendTime(s, env, i, gap); } else { FinishTime(s, env, i, giveUp, gap); }
  }

  lemma PollSlotTime(s: State, env: Env, i: nat, gap: nat)
    requires Sound(s) && Timed(s, gap) && i < SLOT_MAX
    ensures Sound(PollSlot(s, env, i)) && KeepsTime(s, PollSlot(s, env, i), gap)
    ensures OnTime(PollSlot(s, env, i).slots[i], s.now, 0)
  {
    var slot := s.slots[i];
    assert SlotShape(slot) && SlotTimed(s, i, gap);
    if slot.inUse {
      match slot.phase {
        case Sent =>
          RetryInv(s, env, i, STATUS_TIMEOUT);
          RetryTime(s, env, i, STATUS_TIMEOUT, gap);
        case Inflight =>
          FinishInv(s, env, i, STATUS_TIMEOUT);
          FinishTime(s, env, i, STATUS_TIMEOUT, gap);
        case Idle =>
          PumpInv(s, env, i);
          PumpTime(s, env, i, gap);
      }
    }
  }

  /** After a poll every timer is strictly within its limit. */
  lemma {:induction false} PollTime(s: State, env: Env, i: nat, gap: nat)
    requires Sound(s) && Timed(s, gap) && i <= SLOT_MAX
    requires forall k :: 0 <= k < i ==> OnTime(s.slots[k], s.now, 0)
    ensures var t := PollFrom(s, env, i);
      t.now == s.now && Timed(t, gap) && forall k :: 0 <= k < SLOT_MAX ==> OnTime(t.slots[k], t.now, 0)
    decreases SLOT_MAX - i
  {
    hide PollSlot, SlotTimed, Ordered, Bounded, DistinctAddrs;
    if i < SLOT_MAX {
      PollSlotTime(s, env, i, gap);
      PollTime(PollSlot(s, env, i), env, i + 1, gap);
    }
  }

  lemma LocalTime(s: State, t: State, i: nat, gap: nat)
    requires Sound(s) && Timed(s, gap) && i < SLOT_MAX && s.slots[i].inUse && OthersSame(s, t, i)
    requires t.dx == s.dx && t.hist == s.hist && t.now == s.now && t.slots[i].inflight == s.slots[i].inflight
    requires
      || (t.slots[i].phase == s.slots[i].phase && t.slots[i].sentMs == s.slots[i].sentMs
          && t.slots[i].ackMs == s.slots[i].ackMs && t.slots[i].retries == s.slots[i].retries)
      || (s.slots[i].phase.Sent? && t.slots[i].phase.Inflight? && t.slots[i].ackMs == s.now)
    ensures KeepsTime(s, t, gap)
  {
    assert SlotTimed(s, i, gap) && SlotShape(s.slots[i]);
    OtherAddrs(s, i);
    SlotKeepsTime(s, t, i, gap);
  }

  // ---- reset, whatever its callbacks do --------------------------------------

  lemma AbortFrontTime(s: State, env: Env, i: nat, status: nat, gap: nat)
    requires Sound(s) && Timed(s, gap) && i < SLOT_MAX && s.slots[i].q != []
    ensures KeepsTime(s, AbortFront(s, env, i, status), gap)
  {
    assert SlotShape(s.slots[i]);
    hide Perform, SlotShape, SlotTimed, Ordered, Bounded, DistinctAddrs;
    var d := s.(hist := s.hist + [Done(s.slots[i].addr, s.slots[i].q[0].handle, status)]);
    var acts := env.abort(|s.hist|, s.slots[i].addr);
    TableTime(s, d, gap);
    DoneSound(s, i, s.slots[i].q[0].handle, status);
    PerformInv(d, env, acts);
    PerformTime(d, env, acts, gap);
    var p, t := Perform(d, env, acts), AbortFront(s, env, i, status);
    KeepsTrans(s, d, p, gap);
    DropTime(p, t, i, gap);
    KeepsTrans(s, p, t, gap);
  }

  /** The ring moves on. */
  lemma DropTime(p: State, t: State, i: nat, gap: nat)
    requires Sound(p) && Timed(p, gap) && i < SLOT_MAX && |t.slots| == SLOT_MAX
    requires t == With(p, i, p.slots[i].(q := t.slots[i].q)) && (p.slots[i].q == [] ==> t.slots[i].q == [])
    ensures KeepsTime(p, t, gap)
  {
    if p.slots[i].inUse {
      LocalTime(p, t, i, gap);
    } else {
      UnusedIsClear(p, i);
      TableTime(p, t, gap);
    }
  }

  lemma {:induction false} DrainTime(s: State, env: Env, i: nat, status: nat, limit: nat, gap: nat)
    requires Sound(s) && Timed(s, gap) && i < SLOT_MAX
    ensures KeepsTime(s, Drain(s, env, i, status, limit).s, gap)
    decreases limit
  {
    hide AbortFront, Ordered, Bounded, DistinctAddrs, SlotTimed;
    if s.slots[i].q == [] || limit == 0 {
      TableTime(s, s, gap);
    } else {
      var t := AbortFront(s, env, i, status);
      AbortFrontSound(s, env, i, status);
      AbortFrontTime(s, env, i, status, gap);
      DrainTime(t, env, i, status, limit - 1, gap);
      KeepsTrans(s, t, Drain(t, env, i, status, limit - 1).s, gap);
    }
  }

  lemma ClearTime(s: State, i: nat, gap: nat)
    requires WF(s) && Timed(s, gap) && i < SLOT_MAX
    ensures KeepsTime(s, With(s, i, CLEARED_SLOT), gap)
  {
    var t := With(s, i, CLEARED_SLOT);
    forall k | 0 <= k < |t.slots| ensures SlotTimed(t, k, gap) { assert SlotTimed(s, k, gap); }
  }

  lemma ReleasedTime(s: State, env: Env, i: nat, status: nat, gap: nat)
    requires Sound(s) && Timed(s, gap) && i < SLOT_MAX && s.slots[i].inUse
    ensures Sound(Released(s, env, i, status)) && KeepsTime(s, Released(s, env, i, status), gap)
  {
    hide Perform;
    if s.slots[i].inflight.None? {
      TableTime(s, s, gap);
    } else {
      var d := Finished(s, i, status);
      var acts := env.abort(|s.hist|, s.slots[i].addr);
      FinishedInv(s, i, status);
      FinishedTime(s, i, status, gap);
      PerformInv(d, env, acts);
      PerformTime(d, env, acts, gap);
      KeepsTrans(s, d, Perform(d, env, acts), gap);
    }
  }

  lemma ResetSlotTime(s: State, env: Env, i: nat, status: nat, limit: nat, gap: nat)
    requires Sound(s) && Timed(s, gap) && i < SLOT_MAX
    ensures KeepsTime(s, ResetSlot(s, env, i, status, limit).s, gap)
  {
    hide Perform, Drain, Ordered, Bounded, DistinctAddrs, SlotTimed;
    if s.slots[i].inUse {
      var f := Released(s, env, i, status);
      ReleasedTime(s, env, i, status, gap);
      DrainTime(f, env, i, status, limit, gap);
      var d := Drain(f, env, i, status, limit);
      KeepsTrans(s, f, d.s, gap);
      if d.ended {
        ClearTime(d.s, i, gap);
        KeepsTrans(s, d.s, With(d.s, i, CLEARED_SLOT), gap);
      }
    } else {
      TableTime(s, s, gap);
    }
  }

  lemma {:induction false} ResetTime(s: State, env: Env, i: nat, status: nat, limit: nat, gap: nat)
    requires Sound(s) && Timed(s, gap) && i <= SLOT_MAX
    ensures KeepsTime(s, ResetFrom(s, env, i, status, limit).s, gap)
    decreases SLOT_MAX - i
  {
    hide ResetSlot, Ordered, Bounded, DistinctAddrs, SlotTimed;
    if i == SLOT_MAX {
      TableTime(s, s, gap);
    } else {
      var r := ResetSlot(s, env, i, status, limit);
      ResetSlotSound(s, env, i, status, limit);
      ResetSlotTime(s, env, i, status, limit, gap);
      if r.ended {
        ResetTime(r.s, env, i + 1, status, limit, gap);
        KeepsTrans(s, r.s, ResetFrom(r.s, env, i + 1, status, limit).s, gap);
      }
    }
  }

  // ---- every call ------------------------------------------------------------

  /** All timers strictly within their limits, and every potential within its first grant. */
  ghost predicate Punctual(s: State, gap: nat) {
    Timed(s, gap) && forall k :: 0 <= k < |s.slots| ==> OnTime(s.slots[k], s.now, 0)
  }

  lemma FlaggedTime(s: State, env: Env, addr: nat, flags: nat, gap: nat)
    requires Sound(s) && Timed(s, gap)
    ensures KeepsTime(s, OnFlagged(s, env, addr, flags), gap)
  {
    var i := SlotFor(s.slots, addr);
    if i < |s.slots| {
      var s1 := s.(slots := s.slots[i := s.slots[i].(faulted := flags % 2 == 1)]);
      LocalTime(s, s1, i, gap);
      LocalStep(s, s1, i);
      PumpTime(s1, env, i, gap);
    } else {
      TableTime(s, s, gap);
    }
  }

  lemma AddSlaveTime(s: State, addr: nat, gap: nat)
    requires Sound(s) && Punctual(s, gap)
    ensures Punctual(AddSlave(s, addr), gap)
  {
    var t := AddSlave(s, addr);
    forall k | 0 <= k < |t.slots|
      ensures SlotTimed(t, k, gap) && OnTime(t.slots[k], t.now, 0)
    {
      assert SlotTimed(s, k, gap);
    }
  }

  /**
   The clock handed to `cmd_tracker_poll` does not run back, and while a command is in flight it is at most
   `gap` ahead of the last poll. The tracker's own clock starts at 0, so the first poll may be any time ahead.
   */
  predicate ClockOk(s: State, op: Op, gap: nat) {
    op.OpPoll? ==> s.now <= op.now && (op.now <= s.now + gap || NoneInFlight(s))
  }

  predicate NoneInFlight(s: State) { forall i :: 0 <= i < |s.slots| ==> s.slots[i].inflight.None? }

  lemma StepTime(s: State, env: Env, op: Op, gap: nat)
    requires Sound(s) && Punctual(s, gap) && ClockOk(s, op, gap)
    ensures Punctual(Step(s, env, op), gap)
  {
    hide DownFrom, SweepFrom, PollFrom, ResetFrom, Resolve, Retry;
    match op
    case OpSubmit(addr, req) => SubmitTime(s, env, addr, req, gap);
    case OpShell(tag, argsLen) => ShellTime(s, env, tag, argsLen, gap);
    case OpReply(rid, status) =>
      var j := FindRid(s.dx.table, rid, 0);
      if j < |s.dx.table| { ResolveTime(s, env, j, status, gap); }
    case OpLink(up) =>
      var s1 := s.(dx := s.dx.(up := up));
      TableTime(s, s1, gap);
      TableStep(s, s1);
      if !up { DownTime(s1, env, 0, gap); }
    case OpDemuxPoll(mono, timeoutMs) => SweepTime(s, env, mono, timeoutMs, 0, gap);
    case OpPoll(now) => PollJump(s, env, now, gap);
    case OpAck(addr, rid) =>
      var i := SlotFor(s.slots, addr);
      if Awaits(s, i, rid) { LocalTime(s, OnAck(s, addr, rid), i, gap); }
    case OpNak(addr, rid) =>
      var i := SlotFor(s.slots, addr);
      if Awaits(s, i, rid) { RetryTime(s, env, i, STATUS_BUSY, gap); }
    case OpFlagged(addr, flags) => FlaggedTime(s, env, addr, flags, gap);
    case OpReset(status, limit) => ResetTime(s, env, 0, status, limit, gap);
    case OpAddSlave(addr) => AddSlaveTime(s, addr, gap);
  }

  lemma PollJump(s: State, env: Env, now: u64, gap: nat)
    requires Sound(s) && Punctual(s, gap) && s.now <= now && (now <= s.now + gap || NoneInFlight(s))
    ensures Punctual(Poll(s, env, now), gap)
  {
    var s1 := s.(now := now);
    TableStep(s, s1);
    forall k | 0 <= k < |s1.slots|
      ensures SlotTimed(s1, k, gap)
    {
      assert SlotTimed(s, k, gap) && OnTime(s.slots[k], s.now, 0) && SlotShape(s.slots[k]);
    }
    PollTime(s1, env, 0, gap);
  }

  /** Every call of the execution keeps to such a clock. */
  ghost predicate ClockRun(run: seq<State>, ops: seq<Op>, gap: nat) {
    forall k :: 0 <= k < |ops| && k < |run| ==> ClockOk(run[k], ops[k], gap)
  }

  lemma {:induction false} RunPunctual(run: seq<State>, env: Env, ops: seq<Op>, gap: nat, k: nat)
    requires IsExecution(run, env, ops) && ClockRun(run, ops, gap) && k < |run|
    ensures Punctual(run[k], gap)
    decreases k
  {
    hide Step;
    if k > 0 {
      RunPunctual(run, env, ops, gap, k - 1);
      AlwaysSound(run, env, ops, k - 1);
      assert StepAt(run, env, ops, k - 1) && ClockOk(run[k - 1], ops[k - 1], gap);
      StepTime(run[k - 1], env, ops[k - 1], gap);
    }
  }

  /**
   In every execution with such a clock, a command that is still in flight first became SENT at some time
   T, and the tracker's clock is short of T + 3 (1500 + gap) + exec_timeout + 1000 + gap.
   */
  lemma BoundedLifetime(run: seq<State>, env: Env, ops: seq<Op>, gap: nat, k: nat, i: nat)
    requires IsExecution(run, env, ops) && ClockRun(run, ops, gap) && k < |run|
    requires i < |run[k].slots| && run[k].slots[i].inflight.Some?
    ensures var c := run[k].slots[i].inflight.value;
      var first := FirstTx(run[k].hist, run[k].slots[i].addr, c.handle);
      first.Some? &&
      run[k].now < first.value + 3 * (ACK_TIMEOUT_MS + gap) + c.req.execTimeout + EXEC_MARGIN_MS + gap
  {
    RunPunctual(run, env, ops, gap, k);
    AlwaysSound(run, env, ops, k);
    var s := run[k];
    assert SlotTimed(s, i, gap) && SlotShape(s.slots[i]) && OnTime(s.slots[i], s.now, 0);
  }
}
