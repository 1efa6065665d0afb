/**
 The transition functions of the bus command stack. Each one is the specification that the
 method of the same name in `BusStack` is proved against; what they keep over every run is
 proved in `BusInvariant`, `BusCoupling`, `BusLink`, `BusSweep` and `BusTiming`.
 */
module BusModel {
  import opened Options
  import opened BusTypes

  // ---- lookups ---------------------------------------------------------------

  predicate Matches(s: Slot, addr: nat) { s.inUse && s.addr == addr }

  /** First slot registered for `addr`, or |slots|. */
  function SlotFrom(slots: seq<Slot>, addr: nat, i: nat): (r: nat)
    requires i <= |slots|
    ensures i <= r <= |slots|
    ensures r < |slots| ==> Matches(slots[r], addr)
    ensures forall k :: i <= k < r ==> !Matches(slots[k], addr)
    decreases |slots| - i
  {
    if i == |slots| || Matches(slots[i], addr) then i else SlotFrom(slots, addr, i + 1)
  }

  function SlotFor(slots: seq<Slot>, addr: nat): nat { SlotFrom(slots, addr, 0) }

  /** First unused slot, or |slots|. */
  function FirstUnused(slots: seq<Slot>, i: nat): (r: nat)
    requires i <= |slots|
    ensures i <= r <= |slots|
    ensures r < |slots| ==> !slots[r].inUse
    ensures forall k :: i <= k < r ==> slots[k].inUse
    decreases |slots| - i
  {
    if i == |slots| || !slots[i].inUse then i else FirstUnused(slots, i + 1)
  }

  /** `pending_alloc`: first free entry, or |t|. */
  function FirstFree(t: seq<Entry>, i: nat): (r: nat)
    requires i <= |t|
    ensures i <= r <= |t|
    ensures r < |t| ==> t[r].Free?
    ensures forall k :: i <= k < r ==> t[k].Used?
    decreases |t| - i
  {
    if i == |t| || t[i].Free? then i else FirstFree(t, i + 1)
  }

  predicate Holds(e: Entry, rid: nat) { e.Used? && e.rid == rid }

  /** `pending_find`: first entry waiting for `rid`, or |t|. */
  function FindRid(t: seq<Entry>, rid: nat, i: nat): (r: nat)
    requires i <= |t|
    ensures i <= r <= |t|
    ensures r < |t| ==> Holds(t[r], rid)
    ensures forall k :: i <= k < r ==> !Holds(t[k], rid)
    decreases |t| - i
  {
    if i == |t| || Holds(t[i], rid) then i else FindRid(t, rid, i + 1)
  }

  // ---- shape -----------------------------------------------------------------

  /** A slot names a command in flight exactly when it is not idle; an unused slot is clear. */
  predicate SlotShape(s: Slot) {
    && (s.phase.Idle? <==> s.inflight.None?)
    && |s.q| <= CMD_QUEUE_DEPTH
    && (forall k :: 0 <= k < |s.q| ==> s.q[k].req.argsLen <= CMD_ARG_MAX)
    && (s.inflight.Some? ==> s.inflight.value.req.argsLen <= CMD_ARG_MAX)
    && s.retries <= MAX_ACK_RETRIES
    && (!s.inUse ==> s == CLEARED_SLOT)
  }

  predicate WF(s: State) {
    var sound := && |s.dx.table| == PENDING_MAX
                 && |s.slots| == SLOT_MAX
                 && (forall j :: 0 <= j < PENDING_MAX && s.dx.table[j].Used? && s.dx.table[j].owner.SlotOwner?
                       ==> s.dx.table[j].owner.slot < SLOT_MAX)
                 && (forall i :: 0 <= i < SLOT_MAX ==> SlotShape(s.slots[i]));
    sound
  }

  function Init(): (s: State)
    ensures WF(s)
  {
    State(DemuxState(seq(PENDING_MAX, _ => Free), 1, false, true),
          seq(SLOT_MAX, _ => CLEARED_SLOT), 1, 0, 0, [])
  }

  // ---- demux: allocate, send, register ---------------------------------------

  datatype SendResult = SendResult(dx: DemuxState, rid: nat, onWire: bool)

  /**
   `demux_send_bus_exec` / `demux_send_shell_to`: the id is consumed before the link is asked, and the entry
   is registered only when the link took the frame. `onWire` and `at` are history: the caller sees only `rid`.
   */
  function Send(dx: DemuxState, owner: Owner, headerLen: nat, argsLen: nat, accept: bool, mono: u64, at: nat):
    SendResult {
    var j := FirstFree(dx.table, 0);
    if (headerLen + argsLen) % 0x1_0000 > COMM_PAYLOAD_MAX || j == |dx.table| then
      SendResult(dx, ERROR_RID, false)
    else
      var rid := Wire(dx.nextId);
      var took := dx.(nextId := dx.nextId + 1);
      if !(dx.up && accept) then
        SendResult(took, ERROR_RID, false)
      else
        SendResult(took.(table := dx.table[j := Used(rid, owner, mono, at)],
                         clean := dx.clean && FindRid(dx.table, rid, 0) == |dx.table|),
                   rid, true)
  }

  function SendShell(s: State, env: Env, tag: nat, argsLen: nat): (r: State)
    requires WF(s)
    ensures WF(r)
  {
    var sent := Send(s.dx, ShellOwner(tag), SHELL_EXEC_HDR, argsLen, env.accepts(s.dx.nextId), env.clock(|s.hist|),
                     |s.hist|);
    s.(dx := sent.dx, hist := if sent.onWire then s.hist + [ShellSent(tag, sent.rid)] else s.hist)
  }

  // ---- tracker: one slot -----------------------------------------------------

  datatype Attempt = Attempt(s: State, ok: bool)

  /** `send_inflight` of command `c` for slot `i`; the slot's own command fields are set by the caller. */
  function Transmit(s: State, env: Env, i: nat, c: Cmd): (r: Attempt)
    requires WF(s) && i < SLOT_MAX
    ensures |r.s.dx.table| == PENDING_MAX && |r.s.slots| == SLOT_MAX
  {
    var slot := s.slots[i];
    var sent := Send(s.dx, SlotOwner(i), BUS_EXEC_HDR, c.req.argsLen, env.accepts(s.dx.nextId), env.clock(|s.hist|),
                     |s.hist|);
    var s1 := s.(dx := sent.dx,
                 hist := if sent.onWire
                         then s.hist + [Transmitted(slot.addr, c.handle, sent.rid, s.now, WireTimeout(c.req.execTimeout))]
                         else s.hist);
    if sent.rid == ERROR_RID then
      Attempt(s1.(slots := s.slots[i := slot.(sentMs := s.now)]), false)
    else
      Attempt(s1.(slots := s.slots[i := slot.(sentMs := s.now, rid := sent.rid, phase := Sent, ackMs := 0,
                                              inflight := Some(c))]), true)
  }

  /** ACK-timeout or NAK resend of the command in flight. */
  function Resend(s: State, env: Env, i: nat): (r: State)
    requires WF(s) && i < SLOT_MAX && s.slots[i].phase.Sent? && s.slots[i].inUse
    requires s.slots[i].retries < MAX_ACK_RETRIES
    ensures WF(r)
  {
    var s1 := s.(slots := s.slots[i := s.slots[i].(retries := s.slots[i].retries + 1)]);
    Transmit(s1, env, i, s.slots[i].inflight.value).s
  }

  /** `pump_slot`: first transmission of the queue's front; a failed send leaves it queued. */
  function Pump(s: State, env: Env, i: nat): (r: State)
    requires WF(s) && i < SLOT_MAX
    ensures WF(r)
  {
    var slot := s.slots[i];
    if slot.faulted || !slot.phase.Idle? || slot.q == [] then s
    else
      var a := Transmit(s.(slots := s.slots[i := slot.(retries := 0)]), env, i, slot.q[0]);
      if a.ok then a.s.(slots := a.s.slots[i := a.s.slots[i].(q := slot.q[1..])]) else a.s
  }

  datatype Submission = Submission(s: State, handle: nat)

  /** The state after the command is queued and before the slot is pumped. */
  function Enqueue(s: State, i: nat, req: Request): (r: State)
    requires WF(s) && i < SLOT_MAX && s.slots[i].inUse && |s.slots[i].q| < CMD_QUEUE_DEPTH
    requires req.argsLen <= CMD_ARG_MAX
    ensures WF(r)
  {
    s.(slots := s.slots[i := s.slots[i].(q := s.slots[i].q + [Cmd(s.nextHandle, req)])],
       nextHandle := s.nextHandle + 1,
       hist := s.hist + [Accepted(s.slots[i].addr, s.nextHandle)])
  }

  /** `cmd_tracker_submit`; handle 0 stands for every refusal, and the handle returned is the count on 32 bits. */
  function Submit(s: State, env: Env, addr: nat, req: Request): (r: Submission)
    requires WF(s)
    ensures WF(r.s)
  {
    var i := SlotFor(s.slots, addr);
    if req.argsLen > CMD_ARG_MAX || i == |s.slots| || |s.slots[i].q| >= CMD_QUEUE_DEPTH then Submission(s, 0)
    else Submission(Pump(Enqueue(s, i, req), env, i), s.nextHandle % 0x1_0000_0000)
  }

  // ---- callbacks -------------------------------------------------------------

  function Act(s: State, env: Env, a: Action): (r: State)
    requires WF(s)
    ensures WF(r)
  {
    match a
    case DoSubmit(addr, req) => Submit(s, env, addr, req).s
    case DoShell(tag, argsLen) => SendShell(s, env, tag, argsLen)
  }

  function Perform(s: State, env: Env, acts: seq<Action>): (r: State)
    requires WF(s)
    ensures WF(r)
    decreases |acts|
  {
    if acts == [] then s else Perform(Act(s, env, acts[0]), env, acts[1..])
  }

  /** The slot freed and the completion recorded, before the callback acts. */
  function Finished(s: State, i: nat, status: nat): (r: State)
    requires WF(s) && i < SLOT_MAX && s.slots[i].inflight.Some?
    ensures WF(r)
  {
    s.(slots := s.slots[i := s.slots[i].(inflight := None, rid := 0, phase := Idle)],
       hist := s.hist + [Done(s.slots[i].addr, s.slots[i].inflight.value.handle, status)])
  }

  /** `complete_inflight` followed by `pump_slot`. */
  function Finish(s: State, env: Env, i: nat, status: nat): (r: State)
    requires WF(s) && i < SLOT_MAX && s.slots[i].inflight.Some?
    ensures WF(r)
  {
    Pump(Perform(Finished(s, i, status), env, env.react(|s.hist|)), env, i)
  }

  /** `on_tracker_reply`: the stale guard, then completion. */
  function OnTrackerReply(s: State, env: Env, i: nat, rid: nat, status: nat): (r: State)
    requires WF(s) && i < SLOT_MAX
    ensures WF(r)
  {
    if s.slots[i].inflight.None? || rid != s.slots[i].rid then s else Finish(s, env, i, status)
  }

  /** The table with entry `j` freed. */
  function Freed(s: State, j: nat): (r: State)
    requires WF(s) && j < PENDING_MAX
    ensures WF(r)
  {
    s.(dx := s.dx.(table := s.dx.table[j := Free]))
  }

  /** `resolve`: the entry is freed before its callback runs. */
  function Resolve(s: State, env: Env, j: nat, status: nat): (r: State)
    requires WF(s) && j < PENDING_MAX && s.dx.table[j].Used?
    ensures WF(r)
  {
    var e := s.dx.table[j];
    match e.owner
    case SlotOwner(i) => OnTrackerReply(Freed(s, j), env, i, e.rid, status)
    case ShellOwner(tag) =>
      Perform(Freed(s, j).(hist := s.hist + [ShellDone(tag, e.rid, status)]), env, env.react(|s.hist|))
  }

  // ---- demux loops -----------------------------------------------------------

  /** `on_link_frame` for OP_SHELL_REPLY: an unknown id is dropped. */
  function OnReply(s: State, env: Env, rid: nat, status: nat): (r: State)
    requires WF(s)
    ensures WF(r)
  {
    var j := FindRid(s.dx.table, rid, 0);
    if j == |s.dx.table| then s else Resolve(s, env, j, status)
  }

  function DownFrom(s: State, env: Env, j: nat): (r: State)
    requires WF(s) && j <= PENDING_MAX
    ensures WF(r)
    decreases PENDING_MAX - j
  {
    if j == PENDING_MAX then s
    else DownFrom(if s.dx.table[j].Used? then Resolve(s, env, j, STATUS_LINK_DOWN) else s, env, j + 1)
  }

  /** `on_link_state`: going down resolves everything pending. */
  function OnLink(s: State, env: Env, up: bool): (r: State)
    requires WF(s)
    ensures WF(r)
  {
    var s1 := s.(dx := s.dx.(up := up));
    if up then s1 else DownFrom(s1, env, 0)
  }

  predicate Overdue(e: Entry, now: u64, timeoutMs: nat) {
    e.Used? && Elapsed(now, e.sentMs) >= timeoutMs
  }

  /** One index of the timeout sweep. */
  function SweepStep(s: State, env: Env, now: u64, timeoutMs: nat, j: nat): (r: State)
    requires WF(s) && j < PENDING_MAX
    ensures WF(r)
  {
    if Overdue(s.dx.table[j], now, timeoutMs) then Resolve(s, env, j, STATUS_TIMEOUT) else s
  }

  function SweepFrom(s: State, env: Env, now: u64, timeoutMs: nat, j: nat): (r: State)
    requires WF(s) && j <= PENDING_MAX
    ensures WF(r)
    decreases PENDING_MAX - j
  {
    if j == PENDING_MAX then s
    else SweepFrom(SweepStep(s, env, now, timeoutMs, j), env, now, timeoutMs, j + 1)
  }

  /** `demux_poll` after the link was pumped; 0 disables the sweep. */
  function DemuxPoll(s: State, env: Env, now: u64, timeoutMs: nat): (r: State)
    requires WF(s)
    ensures WF(r)
  {
    if timeoutMs == 0 then s else SweepFrom(s, env, now, timeoutMs, 0)
  }

  // ---- tracker entry points --------------------------------------------------

  /** Bounded resend, else completion with `giveUp`. */
  function Retry(s: State, env: Env, i: nat, giveUp: nat): (r: State)
    requires WF(s) && i < SLOT_MAX && s.slots[i].phase.Sent? && s.slots[i].inUse
    ensures WF(r)
  {
    if s.slots[i].retries < MAX_ACK_RETRIES then Resend(s, env, i) else Finish(s, env, i, giveUp)
  }

  function PollSlot(s: State, env: Env, i: nat): (r: State)
    requires WF(s) && i < SLOT_MAX
    ensures WF(r)
  {
    var slot := s.slots[i];
    if !slot.inUse then s
    else match slot.phase
      case Sent => if Elapsed(s.now, slot.sentMs) >= ACK_TIMEOUT_MS then Retry(s, env, i, STATUS_TIMEOUT) else s
      case Inflight =>
        if Elapsed(s.now, slot.ackMs) >= slot.inflight.value.req.execTimeout + EXEC_MARGIN_MS
        then Finish(s, env, i, STATUS_TIMEOUT) else s
      case Idle => Pump(s, env, i)
  }

  function PollFrom(s: State, env: Env, i: nat): (r: State)
    requires WF(s) && i <= SLOT_MAX
    ensures WF(r)
    decreases SLOT_MAX - i
  {
    if i == SLOT_MAX then s else PollFrom(PollSlot(s, env, i), env, i + 1)
  }

  function Poll(s: State, env: Env, now: u64): (r: State)
    requires WF(s)
    ensures WF(r)
  {
    PollFrom(s.(now := now), env, 0)
  }

  /** Does the ACK or NAK name what this slave's slot is waiting for? */
  predicate Awaits(s: State, i: nat, rid: nat)
    requires |s.slots| == SLOT_MAX && i <= SLOT_MAX
  {
    i < SLOT_MAX && s.slots[i].phase.Sent? && s.slots[i].rid == rid
  }

  function OnAck(s: State, addr: nat, rid: nat): (r: State)
    requires WF(s)
    ensures WF(r)
  {
    var i := SlotFor(s.slots, addr);
    if !Awaits(s, i, rid) then s
    else s.(slots := s.slots[i := s.slots[i].(phase := Inflight, ackMs := s.now, retries := 0)], acks := s.acks + 1)
  }

  function OnNak(s: State, env: Env, addr: nat, rid: nat): (r: State)
    requires WF(s)
    ensures WF(r)
  {
    var i := SlotFor(s.slots, addr);
    if !Awaits(s, i, rid) then s else Retry(s, env, i, STATUS_BUSY)
  }

  /** `cmd_tracker_on_flagged`: bit 0 gates the queue; clearing it resumes the queue. */
  function OnFlagged(s: State, env: Env, addr: nat, flags: nat): (r: State)
    requires WF(s)
    ensures WF(r)
  {
    var i := SlotFor(s.slots, addr);
    if i == |s.slots| then s
    else
      var tripped := flags % 2 == 1;
      var s1 := s.(slots := s.slots[i := s.slots[i].(faulted := tripped)]);
      if s.slots[i].faulted && !tripped then Pump(s1, env, i) else s1
  }

  function Handles(q: seq<Cmd>): (r: seq<nat>)
    ensures |r| == |q|
    ensures forall k :: 0 <= k < |q| ==> r[k] == q[k].handle
  {
    seq(|q|, k requires 0 <= k < |q| => q[k].handle)
  }

  /** Commands a slot still owes a completion for, oldest first. */
  function Owed(s: Slot): seq<nat> {
    (if s.inflight.Some? then [s.inflight.value.handle] else []) + Handles(s.q)
  }

  /**
   The body of the drain loop in `cmd_tracker_reset`: the front is reported, its callback acts, and only
   then does the ring move on.
   */
  function AbortFront(s: State, env: Env, i: nat, status: nat): (r: State)
    requires WF(s) && i < SLOT_MAX && s.slots[i].q != []
    ensures WF(r)
  {
    var addr := s.slots[i].addr;
    var p := Perform(s.(hist := s.hist + [Done(addr, s.slots[i].q[0].handle, status)]), env, env.abort(|s.hist|, addr));
    var q := p.slots[i].q;
    p.(slots := p.slots[i := p.slots[i].(q := if q == [] then [] else q[1..])])
  }

  /** How far a reset came; callbacks that submit to the slave being reset can keep its loop from ending. */
  datatype Aborted = Aborted(s: State, ended: bool)

  /** At most `limit` turns of the drain loop. */
  function Drain(s: State, env: Env, i: nat, status: nat, limit: nat): (r: Aborted)
    requires WF(s) && i < SLOT_MAX
    ensures WF(r.s)
    decreases limit
  {
    if s.slots[i].q == [] then Aborted(s, true)
    else if limit == 0 then Aborted(s, false)
    else Drain(AbortFront(s, env, i, status), env, i, status, limit - 1)
  }

  /** `cmd_tracker_reset` on one slot: the command in flight, then the queue, then all cleared. */
  function ResetSlot(s: State, env: Env, i: nat, status: nat, limit: nat): (r: Aborted)
    requires WF(s) && i < SLOT_MAX
    ensures WF(r.s)
  {
    if !s.slots[i].inUse then Aborted(s, true)
    else
      var f := if s.slots[i].inflight.None? then s
               else Perform(Finished(s, i, status), env, env.abort(|s.hist|, s.slots[i].addr));
      var d := Drain(f, env, i, status, limit);
      if d.ended then Aborted(d.s.(slots := d.s.slots[i := CLEARED_SLOT]), true) else d
  }

  function ResetFrom(s: State, env: Env, i: nat, status: nat, limit: nat): (r: Aborted)
    requires WF(s) && i <= SLOT_MAX
    ensures WF(r.s)
    decreases SLOT_MAX - i
  {
    if i == SLOT_MAX then Aborted(s, true)
    else
      var r := ResetSlot(s, env, i, status, limit);
      if r.ended then ResetFrom(r.s, env, i + 1, status, limit) else r
  }

  /** `cmd_tracker_add_slave`: idempotent; unchanged when every slot is taken. */
  function AddSlave(s: State, addr: nat): (r: State)
    requires WF(s)
    ensures WF(r)
  {
    var i := FirstUnused(s.slots, 0);
    if SlotFor(s.slots, addr) < |s.slots| || i == |s.slots| then s
    else s.(slots := s.slots[i := CLEARED_SLOT.(inUse := true, addr := addr)])
  }

  // ---- runs ------------------------------------------------------------------

  datatype Op =
    | OpSubmit(addr: nat, req: Request)
    | OpShell(tag: nat, argsLen: nat)
    | OpReply(rid: nat, status: nat)
    | OpLink(up: bool)
    | OpDemuxPoll(mono: u64, timeoutMs: nat)
    | OpPoll(now: u64)
    | OpAck(addr: nat, rid: nat)
    | OpNak(addr: nat, rid: nat)
    | OpFlagged(addr: nat, flags: nat)
    | OpReset(status: nat, limit: nat)
    | OpAddSlave(addr: nat)

  function Step(s: State, env: Env, op: Op): (r: State)
    requires WF(s)
    ensures WF(r)
  {
    match op
    case OpSubmit(addr, req) => Submit(s, env, addr, req).s
    case OpShell(tag, argsLen) => SendShell(s, env, tag, argsLen)
    case OpReply(rid, status) => OnReply(s, env, rid, status)
    case OpLink(up) => OnLink(s, env, up)
    case OpDemuxPoll(mono, timeoutMs) => DemuxPoll(s, env, mono, timeoutMs)
    case OpPoll(now) => Poll(s, env, now)
    case OpAck(addr, rid) => OnAck(s, addr, rid)
    case OpNak(addr, rid) => OnNak(s, env, addr, rid)
    case OpFlagged(addr, flags) => OnFlagged(s, env, addr, flags)
    case OpReset(status, limit) => ResetFrom(s, env, 0, status, limit).s
    case OpAddSlave(addr) => AddSlave(s, addr)
  }

  /** The `k`-th call of an execution. */
  ghost predicate StepAt(run: seq<State>, env: Env, ops: seq<Op>, k: nat) {
    k < |ops| && k + 1 < |run| && WF(run[k]) && run[k + 1] == Step(run[k], env, ops[k])
  }

  /**
   An execution: the states between public calls and link callbacks, from a fresh stack. A reset comes with a
   bound on the turns of each of its drain loops, which callbacks can keep from ending.
   */
  ghost predicate IsExecution(run: seq<State>, env: Env, ops: seq<Op>) {
    && |run| == |ops| + 1 && run[0] == Init()
    && forall k :: 0 <= k < |ops| ==> StepAt(run, env, ops, k)
  }

  /**
   An execution in which no callback of a reset submits to the slave that is being reset, so that as many turns
   as a queue has places are enough.
   */
  ghost predicate IsRun(run: seq<State>, env: Env, ops: seq<Op>) {
    && IsExecution(run, env, ops) && Polite(env)
    && forall k :: 0 <= k < |ops| && ops[k].OpReset? ==> ops[k].limit >= CMD_QUEUE_DEPTH
  }

  /** Any list of calls can be executed, in any environment. */
  lemma {:induction false} RunExists(env: Env, ops: seq<Op>) returns (run: seq<State>)
    ensures IsExecution(run, env, ops) && WF(run[|ops|])
  {
    if ops == [] {
      run := [Init()];
    } else {
      var n := |ops| - 1;
      var before := RunExists(env, ops[..n]);
      run := before + [Step(before[n], env, ops[n])];
      forall k | 0 <= k < |ops|
        ensures StepAt(run, env, ops, k)
      {
        if k < n { assert StepAt(before, env, ops[..n], k); }
      }
    }
  }
}
