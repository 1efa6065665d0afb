/**
 The bus command stack as the program runs it: a demux with its pending table and a tracker with
 one ring per slave, updated in place. Every method is proved equal to the transition function of
 `BusModel` on the abstract state. A callback's function pointer is the entry's owner tag, and the
 record of calls out of the stack is the field `hist`.
 */
module BusStack {
  import opened Options
  import opened BusTypes
  import M = BusModel
  import Rings

  // ---- one slot as stored ----------------------------------------------------

  /** `slot_t`: the ring `q[5]` with head and count, and a command that is stale unless `hasInflight`. */
  datatype SlotRec = SlotRec(
    inUse: bool, addr: nat, phase: Phase, ring: seq<Cmd>, qh: nat, qn: nat,
    hasInflight: bool, inflight: Cmd, rid: nat, sentMs: u64, ackMs: u64, retries: nat, faulted: bool)

  const NO_CMD := Cmd(0, Request(0, 0, 0))

  const ZERO_REC := SlotRec(false, 0, Idle, seq(CMD_QUEUE_DEPTH, _ => NO_CMD), 0, 0, false, NO_CMD, 0, 0, 0, 0, false)

  predicate RecOk(r: SlotRec) {
    |r.ring| == CMD_QUEUE_DEPTH && r.qh < CMD_QUEUE_DEPTH && r.qn <= CMD_QUEUE_DEPTH
  }

  /** The ring read from its head. */
  function Queue(r: SlotRec): (q: seq<Cmd>)
    requires RecOk(r)
    ensures |q| == r.qn
  {
    Rings.Contents(r.ring, r.qh, r.qn)
  }

  function AbsSlot(r: SlotRec): Slot
    requires RecOk(r)
  {
    Slot(r.inUse, r.addr, r.phase, Queue(r), if r.hasInflight then Some(r.inflight) else None,
         r.rid, r.sentMs, r.ackMs, r.retries, r.faulted)
  }

  predicate RecsOk(rs: seq<SlotRec>) { forall i :: 0 <= i < |rs| ==> RecOk(rs[i]) }

  function AbsSlots(rs: seq<SlotRec>): (s: seq<Slot>)
    requires RecsOk(rs)
    ensures |s| == |rs|
  {
    seq(|rs|, i requires 0 <= i < |rs| => AbsSlot(rs[i]))
  }

  /** Writing at the tail of a ring that is not full appends to the queue. */
  lemma RingPush(r: SlotRec, c: Cmd)
    requires RecOk(r) && r.qn < CMD_QUEUE_DEPTH
    ensures var t := (r.qh + r.qn) % CMD_QUEUE_DEPTH;
      var p := r.(ring := r.ring[t := c], qn := r.qn + 1);
      RecOk(p) && Queue(p) == Queue(r) + [c]
  {
    Rings.Push(r.ring, r.qh, r.qn, c);
  }

  /** Advancing the head of a ring that is not empty drops the queue's front. */
  lemma RingPop(r: SlotRec)
    requires RecOk(r) && r.qn > 0
    ensures var p := r.(qh := (r.qh + 1) % CMD_QUEUE_DEPTH, qn := r.qn - 1);
      RecOk(p) && Queue(p) == Queue(r)[1..] && Queue(r)[0] == r.ring[r.qh]
  {
    Rings.Pop(r.ring, r.qh, r.qn);
  }

  lemma ClearedIsEmpty()
    ensures RecOk(ZERO_REC) && AbsSlot(ZERO_REC) == CLEARED_SLOT
  {
    assert Queue(ZERO_REC) == [];
  }

  lemma FreedSlotQueue(r: SlotRec)
    requires RecOk(r)
    ensures var f := r.(hasInflight := false, rid := 0, phase := Idle); RecOk(f) && Queue(f) == Queue(r)
  {}

  /** No callback shortens a queue: what it submits goes in before anything is taken out. */
  lemma ActGrows(s: State, env: Env, a: Action, i: nat)
    requires M.WF(s) && i < SLOT_MAX
    ensures |M.Act(s, env, a).slots[i].q| >= |s.slots[i].q|
  {
    hide M.SlotShape, M.Send;
  }

  lemma {:induction false} PerformGrows(s: State, env: Env, acts: seq<Action>, i: nat)
    requires M.WF(s) && i < SLOT_MAX
    ensures |M.Perform(s, env, acts).slots[i].q| >= |s.slots[i].q|
    decreases |acts|
  {
    hide M.Act;
    if acts != [] {
      ActGrows(s, env, acts[0], i);
      PerformGrows(M.Act(s, env, acts[0]), env, acts[1..], i);
    }
  }

  // ---- demux -----------------------------------------------------------------

  class Demux {
    const pending: array<Entry>
    var nextId: nat
    var up: bool
    ghost var clean: bool

    ghost predicate Valid()
      reads this
    {
      pending.Length == PENDING_MAX
    }

    ghost function Abs(): DemuxState
      reads this, pending
    {
      DemuxState(pending[..], nextId, up, clean)
    }

    constructor ()
      ensures Valid() && fresh(pending) && Abs() == M.Init().dx
    {
      pending := new Entry[PENDING_MAX](_ => Free);
      nextId, up, clean := 1, false, true;
      new;
      assert pending[..] == M.Init().dx.table;
    }

    method PendingAlloc() returns (i: nat)
      requires Valid()
      ensures i == M.FirstFree(pending[..], 0) <= PENDING_MAX
    {
      i := 0;
      while i < pending.Length && pending[i].Used?
        invariant i <= pending.Length
        invariant M.FirstFree(pending[..], 0) == M.FirstFree(pending[..], i)
      {
        i := i + 1;
      }
    }

    method PendingFind(rid: nat) returns (i: nat)
      requires Valid()
      ensures i == M.FindRid(pending[..], rid, 0) <= PENDING_MAX
    {
      i := 0;
      while i < pending.Length && !(pending[i].Used? && pending[i].rid == rid)
        invariant i <= pending.Length
        invariant M.FindRid(pending[..], rid, 0) == M.FindRid(pending[..], rid, i)
      {
        i := i + 1;
      }
    }

    /** `demux_send_bus_exec` and `demux_send_shell_to`, which differ in their header; `at` is history. */
    method Send(owner: Owner, headerLen: nat, argsLen: nat, accept: bool, mono: u64, at: nat)
      returns (rid: nat, onWire: bool)
      requires Valid()
      modifies this, pending
      ensures Valid()
      ensures M.SendResult(Abs(), rid, onWire) == M.Send(old(Abs()), owner, headerLen, argsLen, accept, mono, at)
    {
      if (headerLen + argsLen) % 0x1_0000 > COMM_PAYLOAD_MAX { return ERROR_RID, false; }
      var p := PendingAlloc();
      if p == pending.Length { return ERROR_RID, false; }
      rid := Wire(nextId);
      nextId := nextId + 1;
      if !(up && accept) { return ERROR_RID, false; }
      clean := clean && M.FindRid(pending[..], rid, 0) == PENDING_MAX;
      pending[p] := Used(rid, owner, mono, at);
      onWire := true;
    }
  }

  // ---- tracker ---------------------------------------------------------------

  class CmdTracker {
    const dx: Demux
    const slots: array<SlotRec>
    var nextHandle: nat
    var now: u64
    var totalAcks: nat
    var hist: seq<Event>

    ghost predicate Valid()
      reads this, slots, dx
    {
      && dx.Valid()
      && slots.Length == SLOT_MAX
      && RecsOk(slots[..])
    }

    ghost function Abs(): State
      requires Valid()
      reads this, slots, dx, dx.pending
    {
      State(dx.Abs(), AbsSlots(slots[..]), nextHandle, now, totalAcks, hist)
    }

    ghost predicate Ready()
      reads this, slots, dx, dx.pending
    {
      Valid() && M.WF(Abs())
    }

    constructor (d: Demux)
      requires d.Valid() && d.Abs() == M.Init().dx
      ensures Ready() && fresh(slots) && dx == d && Abs() == M.Init()
    {
      dx := d;
      slots := new SlotRec[SLOT_MAX](_ => ZERO_REC);
      nextHandle, now, totalAcks, hist := 1, 0, 0, [];
      new;
      assert Queue(ZERO_REC) == [];
      assert AbsSlots(slots[..]) == M.Init().slots;
    }

    method SlotForAddr(addr: nat) returns (i: nat)
      requires Valid()
      ensures i == M.SlotFor(AbsSlots(slots[..]), addr) <= SLOT_MAX
    {
      i := 0;
      while i < slots.Length && !(slots[i].inUse && slots[i].addr == addr)
        invariant i <= slots.Length
        invariant M.SlotFor(AbsSlots(slots[..]), addr) == M.SlotFrom(AbsSlots(slots[..]), addr, i)
      {
        i := i + 1;
      }
    }

    /** Store a slot; the abstract slot sequence changes in that place only. */
    method Put(i: nat, r: SlotRec)
      requires Valid() && i < SLOT_MAX && RecOk(r)
      modifies slots
      ensures Valid() && slots[..] == old(slots[..])[i := r]
      ensures AbsSlots(slots[..]) == old(AbsSlots(slots[..]))[i := AbsSlot(r)]
      ensures Abs() == old(Abs()).(slots := old(Abs()).slots[i := AbsSlot(r)])
    {
      slots[i] := r;
      assert AbsSlots(slots[..]) == old(AbsSlots(slots[..]))[i := AbsSlot(r)];
    }

    /** `send_inflight`: transmit the slot's current command and, if it got an id, await its ACK. */
    method SendInflight(env: Env, i: nat) returns (ok: bool)
      requires Valid() && i < SLOT_MAX
      modifies this, slots, dx, dx.pending
      ensures Valid() && nextHandle == old(nextHandle) && now == old(now) && totalAcks == old(totalAcks)
      ensures var r := old(slots[i]);
        var sent := M.Send(old(dx.Abs()), SlotOwner(i), BUS_EXEC_HDR, r.inflight.req.argsLen,
                           env.accepts(old(dx.nextId)), env.clock(|old(hist)|), |old(hist)|);
        && dx.Abs() == sent.dx
        && ok == (sent.rid != ERROR_RID)
        && hist == (if sent.onWire
                    then old(hist) + [Transmitted(r.addr, r.inflight.handle, sent.rid, now,
                                                  WireTimeout(r.inflight.req.execTimeout))]
                    else old(hist))
        && AbsSlots(slots[..]) == old(AbsSlots(slots[..]))
             [i := if ok then AbsSlot(r).(sentMs := now, rid := sent.rid, phase := Sent, ackMs := 0)
                   else AbsSlot(r).(sentMs := now)]
        && slots[i] == (if ok then r.(sentMs := now, rid := sent.rid, phase := Sent, ackMs := 0) else r.(sentMs := now))
    {
      var r := slots[i];
      var rid, onWire := dx.Send(SlotOwner(i), BUS_EXEC_HDR, r.inflight.req.argsLen,
                                 env.accepts(dx.nextId), env.clock(|hist|), |hist|);
      if onWire {
        hist := hist + [Transmitted(r.addr, r.inflight.handle, rid, now, WireTimeout(r.inflight.req.execTimeout))];
      }
      ok := rid != ERROR_RID;
      Put(i, if ok then r.(sentMs := now, rid := rid, phase := Sent, ackMs := 0) else r.(sentMs := now));
    }

    /** `pump_slot` */
    method PumpSlot(env: Env, i: nat)
      requires Ready() && i < SLOT_MAX
      modifies this, slots, dx, dx.pending
      ensures Ready() && Abs() == M.Pump(old(Abs()), env, i)
    {
      var r := slots[i];
      assert Abs().slots[i] == AbsSlot(r);
      if r.faulted || !r.phase.Idle? || r.qn == 0 { return; }
      RingPop(r);
      Put(i, r.(inflight := r.ring[r.qh], hasInflight := true, retries := 0));
      var ok := SendInflight(env, i);
      var q := slots[i];
      if !ok {
        Put(i, q.(hasInflight := false));
      } else {
        RingPop(q);
        Put(i, q.(qh := (q.qh + 1) % CMD_QUEUE_DEPTH, qn := q.qn - 1));
      }
      assert Abs().slots == M.Pump(old(Abs()), env, i).slots;
    }

    /** Resend of the command in flight, after an ACK timeout or a NAK. */
    method Retransmit(env: Env, i: nat)
      requires Ready() && i < SLOT_MAX && slots[i].inUse && slots[i].phase.Sent? && slots[i].retries < MAX_ACK_RETRIES
      modifies this, slots, dx, dx.pending
      ensures Ready() && Abs() == M.Resend(old(Abs()), env, i)
    {
      var r := slots[i];
      assert Abs().slots[i] == AbsSlot(r);
      Put(i, r.(retries := r.retries + 1));
      var ok := SendInflight(env, i);
      assert Abs().slots == M.Resend(old(Abs()), env, i).slots;
    }

    /** `cmd_tracker_submit` */
    method Submit(env: Env, addr: nat, req: Request) returns (handle: nat)
      requires Ready()
      modifies this, slots, dx, dx.pending
      ensures Ready() && M.Submission(Abs(), handle) == M.Submit(old(Abs()), env, addr, req)
    {
      if req.argsLen > CMD_ARG_MAX { return 0; }
      var i := SlotForAddr(addr);
      if i == slots.Length { return 0; }
      var r := slots[i];
      assert Abs().slots[i] == AbsSlot(r);
      if r.qn >= CMD_QUEUE_DEPTH { return 0; }
      handle := nextHandle % 0x1_0000_0000;
      var c := Cmd(nextHandle, req);
      RingPush(r, c);
      Put(i, r.(ring := r.ring[(r.qh + r.qn) % CMD_QUEUE_DEPTH := c], qn := r.qn + 1));
      hist := hist + [Accepted(r.addr, nextHandle)];
      nextHandle := nextHandle + 1;
      assert Abs() == M.Enqueue(old(Abs()), i, req);
      PumpSlot(env, i);
    }

    /** The shell lane: straight to the demux, past the queues and the fault gate. */
    method SendShell(env: Env, tag: nat, argsLen: nat) returns (rid: nat)
      requires Ready()
      modifies this, slots, dx, dx.pending
      ensures Ready() && Abs() == M.SendShell(old(Abs()), env, tag, argsLen)
    {
      var onWire;
      rid, onWire := dx.Send(ShellOwner(tag), SHELL_EXEC_HDR, argsLen, env.accepts(dx.nextId), env.clock(|hist|),
                             |hist|);
      if onWire { hist := hist + [ShellSent(tag, rid)]; }
    }

    /** What a callback does before it returns. */
    method Perform(env: Env, acts: seq<Action>)
      requires Ready()
      modifies this, slots, dx, dx.pending
      ensures Ready() && Abs() == M.Perform(old(Abs()), env, acts)
    {
      for k := 0 to |acts|
        invariant Ready()
        invariant M.Perform(Abs(), env, acts[k..]) == M.Perform(old(Abs()), env, acts)
      {
        assert acts[k..][1..] == acts[k + 1..];
        match acts[k]
        case DoSubmit(addr, req) => var _ := Submit(env, addr, req);
        case DoShell(tag, argsLen) => var _ := SendShell(env, tag, argsLen);
      }
    }

    /** `complete_inflight`: the slot is free before the callback runs. */
    method CompleteInflight(env: Env, i: nat, status: nat, acts: seq<Action>)
      requires Ready() && i < SLOT_MAX && slots[i].hasInflight
      modifies this, slots, dx, dx.pending
      ensures Ready()
      ensures Abs() == M.Perform(M.Finished(old(Abs()), i, status), env, acts)
    {
      var r := slots[i];
      assert Abs().slots[i] == AbsSlot(r);
      Put(i, r.(hasInflight := false, rid := 0, phase := Idle));
      hist := hist + [Done(r.addr, r.inflight.handle, status)];
      assert Abs() == M.Finished(old(Abs()), i, status);
      Perform(env, acts);
    }

    /** Completion, then the next command of the same queue. */
    method CompleteAndPump(env: Env, i: nat, status: nat)
      requires Ready() && i < SLOT_MAX && slots[i].hasInflight
      modifies this, slots, dx, dx.pending
      ensures Ready() && M.WF(old(Abs())) && old(Abs()).slots[i].inflight.Some?
      ensures Abs() == M.Finish(old(Abs()), env, i, status)
    {
      assert Abs().slots[i] == AbsSlot(slots[i]);
      CompleteInflight(env, i, status, env.react(|hist|));
      PumpSlot(env, i);
    }

    /** `on_tracker_reply` */
    method OnTrackerReply(env: Env, i: nat, rid: nat, status: nat)
      requires Ready() && i < SLOT_MAX
      modifies this, slots, dx, dx.pending
      ensures Ready() && Abs() == M.OnTrackerReply(old(Abs()), env, i, rid, status)
    {
      assert Abs().slots[i] == AbsSlot(slots[i]);
      if !slots[i].hasInflight || rid != slots[i].rid { return; }
      CompleteAndPump(env, i, status);
    }

    method Retry(env: Env, i: nat, giveUp: nat)
      requires Ready() && i < SLOT_MAX && slots[i].inUse && slots[i].phase.Sent?
      modifies this, slots, dx, dx.pending
      ensures Ready() && Abs() == M.Retry(old(Abs()), env, i, giveUp)
    {
      assert Abs().slots[i] == AbsSlot(slots[i]);
      if slots[i].retries < MAX_ACK_RETRIES {
        Retransmit(env, i);
      } else {
        CompleteAndPump(env, i, giveUp);
      }
    }

    /** `cmd_tracker_on_ack` */
    method OnAck(addr: nat, rid: nat)
      requires Ready()
      modifies this, slots
      ensures Ready() && Abs() == M.OnAck(old(Abs()), addr, rid)
    {
      var i := SlotForAddr(addr);
      if i == slots.Length { return; }
      var r := slots[i];
      assert Abs().slots[i] == AbsSlot(r);
      if !r.phase.Sent? || r.rid != rid { return; }
      Put(i, r.(phase := Inflight, ackMs := now, retries := 0));
      totalAcks := totalAcks + 1;
    }

    /** `cmd_tracker_on_nak` */
    method OnNak(env: Env, addr: nat, rid: nat)
      requires Ready()
      modifies this, slots, dx, dx.pending
      ensures Ready() && Abs() == M.OnNak(old(Abs()), env, addr, rid)
    {
      var i := SlotForAddr(addr);
      if i == slots.Length { return; }
      assert Abs().slots[i] == AbsSlot(slots[i]);
      if !slots[i].phase.Sent? || slots[i].rid != rid { return; }
      Retry(env, i, STATUS_BUSY);
    }

    /** `cmd_tracker_on_flagged` */
    method OnFlagged(env: Env, addr: nat, flags: nat)
      requires Ready()
      modifies this, slots, dx, dx.pending
      ensures Ready() && Abs() == M.OnFlagged(old(Abs()), env, addr, flags)
    {
      var i := SlotForAddr(addr);
      if i == slots.Length { return; }
      var r := slots[i];
      assert Abs().slots[i] == AbsSlot(r);
      var tripped := flags % 2 == 1;
      Put(i, r.(faulted := tripped));
      if r.faulted && !tripped { PumpSlot(env, i); }
    }

    /** One slot of `cmd_tracker_poll`. */
    method PollSlot(env: Env, i: nat)
      requires Ready() && i < SLOT_MAX
      modifies this, slots, dx, dx.pending
      ensures Ready() && Abs() == M.PollSlot(old(Abs()), env, i)
    {
      var r := slots[i];
      assert Abs().slots[i] == AbsSlot(r);
      if !r.inUse { return; }
      if r.phase.Sent? && Elapsed(now, r.sentMs) >= ACK_TIMEOUT_MS {
        Retry(env, i, STATUS_TIMEOUT);
      } else if r.phase.Inflight? {
        if Elapsed(now, r.ackMs) >= r.inflight.req.execTimeout + EXEC_MARGIN_MS {
          CompleteAndPump(env, i, STATUS_TIMEOUT);
        }
      } else if r.phase.Idle? {
        PumpSlot(env, i);
      }
    }

    /** `cmd_tracker_poll` */
    method Poll(env: Env, nowMs: u64)
      requires Ready()
      modifies this, slots, dx, dx.pending
      ensures Ready() && Abs() == M.Poll(old(Abs()), env, nowMs)
    {
      hide M.PollSlot;
      now := nowMs;
      for i := 0 to SLOT_MAX
        invariant Ready()
        invariant M.PollFrom(Abs(), env, i) == M.Poll(old(Abs()), env, nowMs)
      {
        PollSlot(env, i);
      }
    }

    /** One turn of the drain loop: the front is reported, its callback acts, then the ring moves on. */
    method AbortFront(env: Env, i: nat, status: nat)
      requires Ready() && i < SLOT_MAX && slots[i].qn > 0
      modifies this, slots, dx, dx.pending
      ensures Ready() && M.WF(old(Abs())) && old(Abs()).slots[i].q != []
      ensures Abs() == M.AbortFront(old(Abs()), env, i, status)
    {
      hide M.Perform, M.SlotShape;
      var r := slots[i];
      ghost var s := Abs();
      assert s.slots[i] == AbsSlot(r);
      RingPop(r);
      var acts := env.abort(|hist|, r.addr);
      hist := hist + [Done(r.addr, r.ring[r.qh].handle, status)];
      ghost var d := Abs();
      assert d == s.(hist := s.hist + [Done(s.slots[i].addr, s.slots[i].q[0].handle, status)]);
      PerformGrows(d, env, acts, i);
      Perform(env, acts);
      var c := slots[i];
      assert Abs().slots[i] == AbsSlot(c);
      RingPop(c);
      Put(i, c.(qh := (c.qh + 1) % CMD_QUEUE_DEPTH, qn := c.qn - 1));
      assert Abs() == M.AbortFront(s, env, i, status);
    }

    /** The drain loop, for at most `limit` turns. */
    method AbortQueue(env: Env, i: nat, status: nat, limit: nat) returns (ended: bool)
      requires Ready() && i < SLOT_MAX
      modifies this, slots, dx, dx.pending
      ensures Ready() && M.Aborted(Abs(), ended) == M.Drain(old(Abs()), env, i, status, limit)
    {
      hide M.AbortFront, M.SlotShape;
      var left := limit;
      while slots[i].qn > 0 && left > 0
        invariant Ready()
        invariant M.Drain(Abs(), env, i, status, left) == M.Drain(old(Abs()), env, i, status, limit)
        decreases left
      {
        assert Abs().slots[i] == AbsSlot(slots[i]);
        AbortFront(env, i, status);
        left := left - 1;
      }
      assert Abs().slots[i] == AbsSlot(slots[i]);
      ended := slots[i].qn == 0;
    }

    /** `cmd_tracker_reset` on one slot: the command in flight, then the ring, then all cleared. */
    method ResetSlot(env: Env, i: nat, status: nat, limit: nat) returns (ended: bool)
      requires Ready() && i < SLOT_MAX
      modifies this, slots, dx, dx.pending
      ensures Ready() && M.Aborted(Abs(), ended) == M.ResetSlot(old(Abs()), env, i, status, limit)
    {
      hide M.Perform, M.Drain;
      ghost var s := Abs();
      var r := slots[i];
      assert s.slots[i] == AbsSlot(r);
      if !r.inUse { return true; }
      if r.hasInflight {
        CompleteInflight(env, i, status, env.abort(|hist|, r.addr));
      }
      ended := AbortQueue(env, i, status, limit);
      if ended {
        ClearedIsEmpty();
        Put(i, ZERO_REC);
      }
    }

    /** `cmd_tracker_reset` */
    method Reset(env: Env, status: nat, limit: nat) returns (ended: bool)
      requires Ready()
      modifies this, slots, dx, dx.pending
      ensures Ready() && M.Aborted(Abs(), ended) == M.ResetFrom(old(Abs()), env, 0, status, limit)
    {
      hide M.ResetSlot;
      ended := true;
      var i := 0;
      while i < SLOT_MAX && ended
        invariant Ready() && i <= SLOT_MAX
        invariant if ended then M.ResetFrom(Abs(), env, i, status, limit) == M.ResetFrom(old(Abs()), env, 0, status, limit)
                  else M.Aborted(Abs(), false) == M.ResetFrom(old(Abs()), env, 0, status, limit)
        decreases SLOT_MAX - i
      {
        ended := ResetSlot(env, i, status, limit);
        i := i + 1;
      }
    }

    /** `cmd_tracker_add_slave` */
    method AddSlave(addr: nat) returns (ok: bool)
      requires Ready()
      modifies this, slots
      ensures Ready() && Abs() == M.AddSlave(old(Abs()), addr)
      ensures ok <==> M.SlotFor(Abs().slots, addr) < SLOT_MAX
    {
      var j := SlotForAddr(addr);
      if j < slots.Length { return true; }
      var i := 0;
      while i < slots.Length && slots[i].inUse
        invariant i <= slots.Length
        invariant M.FirstUnused(AbsSlots(slots[..]), 0) == M.FirstUnused(AbsSlots(slots[..]), i)
      {
        i := i + 1;
      }
      if i == slots.Length { return false; }
      assert Queue(ZERO_REC) == [];
      Put(i, ZERO_REC.(inUse := true, addr := addr));
      assert M.Matches(Abs().slots[i], addr);
      ok := true;
    }
  }

  // ---- the demux handlers, which call back into the tracker ------------------

  class Controller {
    const tk: CmdTracker

    constructor (t: CmdTracker)
      ensures tk == t
    {
      tk := t;
    }

    /** `resolve`: free first, then call back. */
    method Resolve(env: Env, j: nat, status: nat)
      requires tk.Ready() && j < PENDING_MAX && tk.dx.pending[j].Used?
      modifies tk, tk.slots, tk.dx, tk.dx.pending
      ensures tk.Ready() && tk.Abs() == M.Resolve(old(tk.Abs()), env, j, status)
    {
      var e := tk.dx.pending[j];
      tk.dx.pending[j] := Free;
      assert tk.Abs() == M.Freed(old(tk.Abs()), j);
      match e.owner
      case SlotOwner(i) => tk.OnTrackerReply(env, i, e.rid, status);
      case ShellOwner(tag) =>
        var acts := env.react(|tk.hist|);
        tk.hist := tk.hist + [ShellDone(tag, e.rid, status)];
        tk.Perform(env, acts);
    }

    /** `on_link_frame` for a shell reply */
    method OnShellReply(env: Env, rid: nat, status: nat)
      requires tk.Ready()
      modifies tk, tk.slots, tk.dx, tk.dx.pending
      ensures tk.Ready() && tk.Abs() == M.OnReply(old(tk.Abs()), env, rid, status)
    {
      var j := tk.dx.PendingFind(rid);
      if j < tk.dx.pending.Length { Resolve(env, j, status); }
    }

    /** `on_link_state` */
    method OnLinkState(env: Env, up: bool)
      requires tk.Ready()
      modifies tk, tk.slots, tk.dx, tk.dx.pending
      ensures tk.Ready() && tk.Abs() == M.OnLink(old(tk.Abs()), env, up)
    {
      hide M.Resolve, M.SlotShape;
      tk.dx.up := up;
      if up { return; }
      for j := 0 to PENDING_MAX
        invariant tk.Ready()
        invariant M.DownFrom(tk.Abs(), env, j) == M.OnLink(old(tk.Abs()), env, up)
      {
        if tk.dx.pending[j].Used? { Resolve(env, j, STATUS_LINK_DOWN); }
      }
    }

    /** `demux_poll`, after the link was serviced */
    method DemuxPoll(env: Env, mono: u64, timeoutMs: nat)
      requires tk.Ready()
      modifies tk, tk.slots, tk.dx, tk.dx.pending
      ensures tk.Ready() && tk.Abs() == M.DemuxPoll(old(tk.Abs()), env, mono, timeoutMs)
    {
      hide M.Resolve, M.SlotShape;
      if timeoutMs == 0 { return; }
      for j := 0 to PENDING_MAX
        invariant tk.Ready()
        invariant M.SweepFrom(tk.Abs(), env, mono, timeoutMs, j) == M.DemuxPoll(old(tk.Abs()), env, mono, timeoutMs)
      {
        if tk.dx.pending[j].Used? && Elapsed(mono, tk.dx.pending[j].sentMs) >= timeoutMs {
          Resolve(env, j, STATUS_TIMEOUT);
        }
      }
    }
  }
}
