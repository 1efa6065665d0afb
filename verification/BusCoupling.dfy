/**
 The coupling of the two tables, in every execution, whatever the callbacks do: a slot with a command in
 flight always has a pending request, registered by a frame of that very command, and as long as no id was
 given out that was still pending it is the only one with that id.
 */
module BusCoupling {
  import opened Options
  import opened BusTypes
  import opened BusModel
  import opened BusInvariant

  ghost predicate Extends(h: seq<Event>, g: seq<Event>) { |h| <= |g| && g[..|h|] == h }

  /** Entry `j` of the table waits for `rid` on behalf of slot `i`. */
  predicate Carries(t: seq<Entry>, j: nat, rid: nat, i: nat) {
    j < |t| && t[j].Used? && t[j].rid == rid && t[j].owner == SlotOwner(i)
  }

  ghost predicate DistinctRids(t: seq<Entry>) {
    forall j, k :: 0 <= j < k < |t| && t[j].Used? && t[k].Used? ==> t[j].rid != t[k].rid
  }

  /** The request was registered by the event at its place of the history: a frame, or a shell request. */
  ghost predicate Born(h: seq<Event>, e: Entry) {
    e.Used? ==>
      && e.at < |h|
      && match e.owner
         case SlotOwner(_) => h[e.at].Transmitted? && h[e.at].rid == e.rid
         case ShellOwner(tag) => h[e.at] == ShellSent(tag, e.rid)
  }

  /** Entry `j` carries the current id of slot `i`, and a frame of the command in flight there registered it. */
  ghost predicate Held(s: State, j: nat, i: nat) {
    && i < |s.slots| && s.slots[i].inflight.Some?
    && Carries(s.dx.table, j, s.slots[i].rid, i)
    && s.dx.table[j].at < |s.hist|
    && IsFrame(s.hist[s.dx.table[j].at], s.slots[i].addr, s.slots[i].inflight.value.handle)
  }

  ghost predicate SlotHeld(s: State, i: nat)
    requires i < |s.slots|
  {
    s.slots[i].inflight.Some? ==> exists j: nat :: Held(s, j, i)
  }

  /** Until the counter passes 0x10000 no id has been used twice, and every pending id lies below it. */
  ghost predicate IdsBelow(dx: DemuxState) {
    dx.nextId <= 0x1_0000 ==>
      dx.clean && forall j :: 0 <= j < |dx.table| && dx.table[j].Used? ==> dx.table[j].rid < dx.nextId
  }

  ghost predicate Coupled(s: State) {
    var shaped := WF(s) && DistinctAddrs(s.slots) && IdsBelow(s.dx) && (s.dx.clean ==> DistinctRids(s.dx.table));
    var registered := forall j :: 0 <= j < |s.dx.table| ==> Born(s.hist, s.dx.table[j]);
    shaped && registered && forall i :: 0 <= i < |s.slots| ==> SlotHeld(s, i)
  }

  lemma InitCoupled()
    ensures Coupled(Init())
  {}

  // ---- elementary steps ------------------------------------------------------

  lemma HeldIsPending(s: State, j: nat, i: nat)
    requires Held(s, j, i)
    ensures i < |s.slots| && Carries(s.dx.table, j, s.slots[i].rid, i)
  {}

  lemma HeldKeeps(s: State, t: State, j: nat, i: nat)
    requires Held(s, j, i) && Extends(s.hist, t.hist)
    requires j < |t.dx.table| && t.dx.table[j] == s.dx.table[j]
    requires i < |t.slots| && t.slots[i].inflight == s.slots[i].inflight
    requires t.slots[i].rid == s.slots[i].rid && t.slots[i].addr == s.slots[i].addr
    ensures Held(t, j, i)
  {
    assert t.hist[s.dx.table[j].at] == t.hist[..|s.hist|][s.dx.table[j].at];
  }

  lemma BornKeeps(h: seq<Event>, g: seq<Event>, e: Entry)
    requires Extends(h, g) && Born(h, e)
    ensures Born(g, e)
  {
    if e.Used? { assert g[e.at] == g[..|h|][e.at]; }
  }

  /** The command of slot `k` is the same after the step, or has ended. */
  predicate SameCommand(a: Slot, b: Slot) {
    b.inflight.None? || (b.inflight == a.inflight && b.rid == a.rid && b.addr == a.addr)
  }

  /**
   Framing: a step keeps the coupling if it frees nothing a busy slot holds, registers what it adds, and
   leaves every slot but `i` with its command; slot `i` is in order after it.
   */
  lemma CoupledStep(s: State, t: State, i: nat)
    requires Coupled(s) && WF(t) && DistinctAddrs(t.slots) && IdsBelow(t.dx) && Extends(s.hist, t.hist)
    requires t.dx.clean ==> DistinctRids(t.dx.table)
    requires forall j :: 0 <= j < |t.dx.table| ==> t.dx.table[j] == s.dx.table[j] || Born(t.hist, t.dx.table[j])
    requires forall k :: 0 <= k < |t.slots| && k != i ==> SameCommand(s.slots[k], t.slots[k])
    requires forall j: nat, k: nat :: k != i && Held(s, j, k) ==>
      t.dx.table[j] == s.dx.table[j] || t.slots[k].inflight.None?
    requires i < |t.slots| ==> SlotHeld(t, i)
    ensures Coupled(t)
  {
    hide SlotShape, Held, Born;
    forall j | 0 <= j < |t.dx.table|
      ensures Born(t.hist, t.dx.table[j])
    {
      if t.dx.table[j] == s.dx.table[j] { BornKeeps(s.hist, t.hist, s.dx.table[j]); }
    }
    forall k | 0 <= k < |t.slots|
      ensures SlotHeld(t, k)
    {
      if k != i && t.slots[k].inflight.Some? {
        assert SlotHeld(s, k);
        var j: nat :| Held(s, j, k);
        HeldIsPending(s, j, k);
        HeldKeeps(s, t, j, k);
      }
    }
  }

  /** A step that leaves the requests alone and in which slot `i` alone may change, its command only by ending. */
  lemma LocalCoupled(s: State, t: State, i: nat)
    requires Coupled(s) && WF(t) && i < SLOT_MAX && t.slots == s.slots[i := t.slots[i]] && DistinctAddrs(t.slots)
    requires t.dx == s.dx.(up := t.dx.up) && Extends(s.hist, t.hist) && SameCommand(s.slots[i], t.slots[i])
    ensures Coupled(t)
  {
    hide SlotShape, Held, Born;
    CoupledStep(s, t, SLOT_MAX);
  }

  /** Freeing a request no busy slot awaits. */
  lemma FreedCoupled(s: State, j: nat)
    requires Coupled(s) && j < PENDING_MAX
    requires forall i :: 0 <= i < SLOT_MAX && s.slots[i].inflight.Some? ==> !Carries(s.dx.table, j, s.slots[i].rid, i)
    ensures Coupled(Freed(s, j))
  {
    hide SlotShape;
    CoupledStep(s, Freed(s, j), SLOT_MAX);
  }

  /** What a send leaves in the table: at most one more request, registered where it says. */
  lemma SendKeeps(dx: DemuxState, owner: Owner, hdr: nat, len: nat, accept: bool, mono: u64, at: nat)
    ensures var r := Send(dx, owner, hdr, len, accept, mono, at);
      && |r.dx.table| == |dx.table|
      && (IdsBelow(dx) ==> IdsBelow(r.dx))
      && (if r.onWire then
            exists j: nat :: j < |dx.table| && dx.table[j].Free? &&
                             r.dx.table == dx.table[j := Used(r.rid, owner, mono, at)]
          else r.dx.table == dx.table && r.rid == ERROR_RID && r.dx.clean == dx.clean)
      && (r.dx.clean ==> dx.clean && (DistinctRids(dx.table) ==> DistinctRids(r.dx.table)))
  {
    var r := Send(dx, owner, hdr, len, accept, mono, at);
    var j := FirstFree(dx.table, 0);
    assert IdsBelow(dx) && r.dx.nextId <= 0x1_0000 && r.onWire ==> FindRid(dx.table, r.rid, 0) == |dx.table|;
    if r.onWire {
      assert dx.table[j].Free? && r.dx.table == dx.table[j := Used(r.rid, owner, mono, at)];
      if r.dx.clean {
        forall k | 0 <= k < |dx.table| && dx.table[k].Used?
          ensures dx.table[k].rid != r.rid
        {
          assert !Holds(dx.table[k], r.rid);
        }
      }
    }
  }

  lemma SendShellCoupled(s: State, env: Env, tag: nat, argsLen: nat)
    requires Coupled(s)
    ensures Coupled(SendShell(s, env, tag, argsLen))
  {
    hide SlotShape, Send;
    var accept, mono, at := env.accepts(s.dx.nextId), env.clock(|s.hist|), |s.hist|;
    SendKeeps(s.dx, ShellOwner(tag), SHELL_EXEC_HDR, argsLen, accept, mono, at);
    CoupledStep(s, SendShell(s, env, tag, argsLen), SLOT_MAX);
  }

  lemma TransmitShape(s: State, env: Env, i: nat, c: Cmd)
    requires WF(s) && i < SLOT_MAX && s.slots[i].inUse && c.req.argsLen <= CMD_ARG_MAX
    ensures WF(Transmit(s, env, i, c).s)
  {}

  /** A transmission, whether or not the link took the frame, and whether or not its id is usable. */
  lemma TransmitCoupled(s: State, env: Env, i: nat, c: Cmd)
    requires Coupled(s) && i < SLOT_MAX && s.slots[i].inUse && c.req.argsLen <= CMD_ARG_MAX
    ensures Coupled(Transmit(s, env, i, c).s)
  {
    hide SlotShape, Send;
    var accept, mono, at := env.accepts(s.dx.nextId), env.clock(|s.hist|), |s.hist|;
    SendKeeps(s.dx, SlotOwner(i), BUS_EXEC_HDR, c.req.argsLen, accept, mono, at);
    var sent := Send(s.dx, SlotOwner(i), BUS_EXEC_HDR, c.req.argsLen, accept, mono, at);
    var r := Transmit(s, env, i, c);
    TransmitShape(s, env, i, c);
    if r.ok {
      var j: nat :| j < |s.dx.table| && s.dx.table[j].Free? &&
                    r.s.dx.table == s.dx.table[j := Used(sent.rid, SlotOwner(i), mono, at)];
      assert Held(r.s, j, i);
      CoupledStep(s, r.s, i);
    } else {
      CoupledStep(s, r.s, SLOT_MAX);
    }
  }

  lemma ResendCoupled(s: State, env: Env, i: nat)
    requires Coupled(s) && i < SLOT_MAX && s.slots[i].phase.Sent? && s.slots[i].inUse
    requires s.slots[i].retries < MAX_ACK_RETRIES
    ensures Coupled(Resend(s, env, i))
  {
    var s1 := s.(slots := s.slots[i := s.slots[i].(retries := s.slots[i].retries + 1)]);
    LocalCoupled(s, s1, i);
    TransmitCoupled(s1, env, i, s.slots[i].inflight.value);
  }

  lemma PumpCoupled(s: State, env: Env, i: nat)
    requires Coupled(s) && i < SLOT_MAX
    ensures Coupled(Pump(s, env, i))
  {
    var slot := s.slots[i];
    if !slot.faulted && slot.phase.Idle? && slot.q != [] {
      var s1 := s.(slots := s.slots[i := slot.(retries := 0)]);
      LocalCoupled(s, s1, i);
      TransmitCoupled(s1, env, i, slot.q[0]);
      hide SlotHeld, Born;
      var a := Transmit(s1, env, i, slot.q[0]);
      LocalCoupled(a.s, Pump(s, env, i), i);
    }
  }

  // ---- callbacks and loops ---------------------------------------------------

  lemma ActCoupled(s: State, env: Env, a: Action)
    requires Coupled(s)
    ensures Coupled(Act(s, env, a))
  {
    match a
    case DoShell(tag, argsLen) => SendShellCoupled(s, env, tag, argsLen);
    case DoSubmit(addr, req) =>
      var i := SlotFor(s.slots, addr);
      if !(req.argsLen > CMD_ARG_MAX || i == |s.slots| || |s.slots[i].q| >= CMD_QUEUE_DEPTH) {
        LocalCoupled(s, Enqueue(s, i, req), i);
        PumpCoupled(Enqueue(s, i, req), env, i);
      }
  }

  lemma {:induction false} PerformCoupled(s: State, env: Env, acts: seq<Action>)
    requires Coupled(s)
    ensures Coupled(Perform(s, env, acts))
    decreases |acts|
  {
    hide Act, Born, SlotHeld, DistinctRids;
    if acts != [] {
      ActCoupled(s, env, acts[0]);
      PerformCoupled(Act(s, env, acts[0]), env, acts[1..]);
    }
  }

  lemma FinishCoupled(s: State, env: Env, i: nat, status: nat)
    requires Coupled(s) && i < SLOT_MAX && s.slots[i].inflight.Some?
    ensures Coupled(Finish(s, env, i, status))
  {
    var f := Finished(s, i, status);
    LocalCoupled(s, f, i);
    PerformCoupled(f, env, env.react(|s.hist|));
    PumpCoupled(Perform(f, env, env.react(|s.hist|)), env, i);
  }

  /** Freeing the request a slot awaits, as its command ends. */
  lemma AwaitedCoupled(s: State, j: nat, i: nat, status: nat)
    requires Coupled(s) && j < PENDING_MAX && i < SLOT_MAX
    requires s.slots[i].inflight.Some? && Carries(s.dx.table, j, s.slots[i].rid, i)
    ensures Coupled(Finished(Freed(s, j), i, status))
  {
    LocalCoupled(s, Finished(s, i, status), i);
    FreedCoupled(Finished(s, i, status), j);
    assert Finished(Freed(s, j), i, status) == Freed(Finished(s, i, status), j);
  }

  lemma ShellCoupled(s: State, j: nat, status: nat)
    requires Coupled(s) && j < PENDING_MAX && s.dx.table[j].Used? && s.dx.table[j].owner.ShellOwner?
    ensures Coupled(Freed(s, j).(hist := s.hist + [ShellDone(s.dx.table[j].owner.tag, s.dx.table[j].rid, status)]))
  {
    var f := Freed(s, j);
    FreedCoupled(s, j);
    LocalCoupled(f, f.(hist := s.hist + [ShellDone(s.dx.table[j].owner.tag, s.dx.table[j].rid, status)]), 0);
  }

  /** A resolution keeps the coupling, whether it is awaited, stale or of the shell lane. */
  lemma ResolveCoupled(s: State, env: Env, j: nat, status: nat)
    requires Coupled(s) && j < PENDING_MAX && s.dx.table[j].Used?
    ensures Coupled(Resolve(s, env, j, status))
  {
    hide SlotShape;
    var e, f := s.dx.table[j], Freed(s, j);
    match e.owner {
      case ShellOwner(tag) =>
        ShellCoupled(s, j, status);
        PerformCoupled(f.(hist := s.hist + [ShellDone(tag, e.rid, status)]), env, env.react(|s.hist|));
      case SlotOwner(i) =>
        if f.slots[i].inflight.None? || e.rid != f.slots[i].rid {
          FreedCoupled(s, j);
        } else {
          AwaitedCoupled(s, j, i, status);
          PerformCoupled(Finished(f, i, status), env, env.react(|f.hist|));
          PumpCoupled(Perform(Finished(f, i, status), env, env.react(|f.hist|)), env, i);
        }
    }
  }

  lemma {:induction false} DownFromCoupled(s: State, env: Env, j: nat)
    requires Coupled(s) && j <= PENDING_MAX
    ensures Coupled(DownFrom(s, env, j))
    decreases PENDING_MAX - j
  {
    hide Resolve, Born, SlotHeld;
    if j < PENDING_MAX {
      if s.dx.table[j].Used? { ResolveCoupled(s, env, j, STATUS_LINK_DOWN); }
      DownFromCoupled(if s.dx.table[j].Used? then Resolve(s, env, j, STATUS_LINK_DOWN) else s, env, j + 1);
    }
  }

  lemma {:induction false} SweepFromCoupled(s: State, env: Env, now: u64, timeoutMs: nat, j: nat)
    requires Coupled(s) && j <= PENDING_MAX
    ensures Coupled(SweepFrom(s, env, now, timeoutMs, j))
    decreases PENDING_MAX - j
  {
    hide Resolve, Born, SlotHeld;
    if j < PENDING_MAX {
      if Overdue(s.dx.table[j], now, timeoutMs) { ResolveCoupled(s, env, j, STATUS_TIMEOUT); }
      SweepFromCoupled(SweepStep(s, env, now, timeoutMs, j), env, now, timeoutMs, j + 1);
    }
  }

  lemma RetryCoupled(s: State, env: Env, i: nat, giveUp: nat)
    requires Coupled(s) && i < SLOT_MAX && s.slots[i].phase.Sent? && s.slots[i].inUse
    ensures Coupled(Retry(s, env, i, giveUp))
  {
    if s.slots[i].retries < MAX_ACK_RETRIES { ResendCoupled(s, env, i); } else { FinishCoupled(s, env, i, giveUp); }
  }

  lemma PollSlotCoupled(s: State, env: Env, i: nat)
    requires Coupled(s) && i < SLOT_MAX
    ensures Coupled(PollSlot(s, env, i))
  {
    hide Retry, Finish, Pump;
    if s.slots[i].inUse {
      match s.slots[i].phase {
        case Sent => RetryCoupled(s, env, i, STATUS_TIMEOUT);
        case Inflight => FinishCoupled(s, env, i, STATUS_TIMEOUT);
        case Idle => PumpCoupled(s, env, i);
      }
    }
  }

  lemma {:induction false} PollFromCoupled(s: State, env: Env, i: nat)
    requires Coupled(s) && i <= SLOT_MAX
    ensures Coupled(PollFrom(s, env, i))
    decreases SLOT_MAX - i
  {
    hide PollSlot, Born, SlotHeld, DistinctRids;
    if i < SLOT_MAX {
      PollSlotCoupled(s, env, i);
      PollFromCoupled(PollSlot(s, env, i), env, i + 1);
    }
  }

  lemma AbortFrontCoupled(s: State, env: Env, i: nat, status: nat)
    requires Coupled(s) && i < SLOT_MAX && s.slots[i].q != []
    ensures Coupled(AbortFront(s, env, i, status))
  {
    hide Perform;
    var d := s.(hist := s.hist + [Done(s.slots[i].addr, s.slots[i].q[0].handle, status)]);
    var acts := env.abort(|s.hist|, s.slots[i].addr);
    LocalCoupled(s, d, i);
    PerformCoupled(d, env, acts);
    LocalCoupled(Perform(d, env, acts), AbortFront(s, env, i, status), i);
  }

  lemma {:induction false} DrainCoupled(s: State, env: Env, i: nat, status: nat, limit: nat)
    requires Coupled(s) && i < SLOT_MAX
    ensures Coupled(Drain(s, env, i, status, limit).s)
    decreases limit
  {
    hide AbortFront, Born, SlotHeld, DistinctRids;
    if s.slots[i].q != [] && limit > 0 {
      AbortFrontCoupled(s, env, i, status);
      DrainCoupled(AbortFront(s, env, i, status), env, i, status, limit - 1);
    }
  }

  /** The reset of a slot, after any number of turns of its drain loop and whatever the callbacks do. */
  lemma ResetSlotCoupled(s: State, env: Env, i: nat, status: nat, limit: nat)
    requires Coupled(s) && i < SLOT_MAX
    ensures Coupled(ResetSlot(s, env, i, status, limit).s)
  {
    hide Perform, Drain;
    if s.slots[i].inUse {
      var f := Released(s, env, i, status);
      if s.slots[i].inflight.Some? {
        LocalCoupled(s, Finished(s, i, status), i);
        PerformCoupled(Finished(s, i, status), env, env.abort(|s.hist|, s.slots[i].addr));
      }
      DrainCoupled(f, env, i, status, limit);
      var d := Drain(f, env, i, status, limit);
      if d.ended { LocalCoupled(d.s, d.s.(slots := d.s.slots[i := CLEARED_SLOT]), i); }
    }
  }

  lemma {:induction false} ResetFromCoupled(s: State, env: Env, i: nat, status: nat, limit: nat)
    requires Coupled(s) && i <= SLOT_MAX
    ensures Coupled(ResetFrom(s, env, i, status, limit).s)
    decreases SLOT_MAX - i
  {
    hide ResetSlot, Born, SlotHeld, DistinctRids;
    if i < SLOT_MAX {
      ResetSlotCoupled(s, env, i, status, limit);
      ResetFromCoupled(ResetSlot(s, env, i, status, limit).s, env, i + 1, status, limit);
    }
  }

  lemma OnFlaggedCoupled(s: State, env: Env, addr: nat, flags: nat)
    requires Coupled(s)
    ensures Coupled(OnFlagged(s, env, addr, flags))
  {
    var i := SlotFor(s.slots, addr);
    if i < |s.slots| {
      var s1 := s.(slots := s.slots[i := s.slots[i].(faulted := flags % 2 == 1)]);
      LocalCoupled(s, s1, i);
      PumpCoupled(s1, env, i);
    }
  }

  lemma AddSlaveCoupled(s: State, addr: nat)
    requires Coupled(s)
    ensures Coupled(AddSlave(s, addr))
  {
    var i := FirstUnused(s.slots, 0);
    if AddSlave(s, addr) != s { LocalCoupled(s, AddSlave(s, addr), i); }
  }

  /** Every call and every link callback keeps the coupling, whatever the callbacks do. */
  lemma StepCoupled(s: State, env: Env, op: Op)
    requires Coupled(s)
    ensures Coupled(Step(s, env, op))
  {
    hide DownFrom, SweepFrom, PollFrom, ResetFrom, Resolve, Retry, Submit, SlotShape;
    match op
    case OpSubmit(addr, req) => ActCoupled(s, env, DoSubmit(addr, req));
    case OpShell(tag, argsLen) => SendShellCoupled(s, env, tag, argsLen);
    case OpReply(rid, status) =>
      var j := FindRid(s.dx.table, rid, 0);
      if j < |s.dx.table| { ResolveCoupled(s, env, j, status); }
    case OpLink(up) =>
      var s1 := s.(dx := s.dx.(up := up));
      LocalCoupled(s, s1, 0);
      if !up { DownFromCoupled(s1, env, 0); }
    case OpDemuxPoll(mono, timeoutMs) => SweepFromCoupled(s, env, mono, timeoutMs, 0);
    case OpPoll(now) =>
      LocalCoupled(s, s.(now := now), 0);
      PollFromCoupled(s.(now := now), env, 0);
    case OpAck(addr, rid) =>
      var i := SlotFor(s.slots, addr);
      if Awaits(s, i, rid) { LocalCoupled(s, OnAck(s, addr, rid), i); }
    case OpNak(addr, rid) =>
      var i := SlotFor(s.slots, addr);
      if Awaits(s, i, rid) { RetryCoupled(s, env, i, STATUS_BUSY); }
    case OpFlagged(addr, flags) => OnFlaggedCoupled(s, env, addr, flags);
    case OpReset(status, limit) => ResetFromCoupled(s, env, 0, status, limit);
    case OpAddSlave(addr) => AddSlaveCoupled(s, addr);
  }

  /** Every state of every execution is coupled. */
  lemma {:induction false} AlwaysCoupled(run: seq<State>, env: Env, ops: seq<Op>, k: nat)
    requires IsExecution(run, env, ops) && k < |run|
    ensures Coupled(run[k])
    decreases k
  {
    hide Step;
    if k == 0 {
      InitCoupled();
    } else {
      AlwaysCoupled(run, env, ops, k - 1);
      assert StepAt(run, env, ops, k - 1);
      StepCoupled(run[k - 1], env, ops[k - 1]);
    }
  }
}
