/**
 The interlock gate: while a slave is flagged tripped its queue is held. Nothing leaves the queue
 and no command of it is started, whatever else happens on the bus; only the command already in
 flight goes on.
 */
module BusGate {
  import opened BusTypes
  import opened BusModel
  import opened BusLink

  /** A faulted slot stays faulted and its queue only grows at the end. */
  ghost predicate Held(s: State, t: State, i: nat) {
    && i < |s.slots| && |t.slots| == |s.slots|
    && (s.slots[i].faulted ==>
          var held := && t.slots[i].faulted && t.slots[i].inUse == s.slots[i].inUse && t.slots[i].addr == s.slots[i].addr
                      && IsPrefix(s.slots[i].q, t.slots[i].q)
                      && (t.slots[i].inflight.Some? ==> t.slots[i].inflight == s.slots[i].inflight);
          held)
  }

  lemma HeldTrans(s: State, t: State, u: State, i: nat)
    requires Held(s, t, i) && Held(t, u, i)
    ensures Held(s, u, i)
  {
    if s.slots[i].faulted {
      assert u.slots[i].q[..|s.slots[i].q|] == t.slots[i].q[..|s.slots[i].q|];
    }
  }

  lemma PumpHolds(s: State, env: Env, k: nat, i: nat)
    requires WF(s) && k < SLOT_MAX && i < SLOT_MAX
    ensures Held(s, Pump(s, env, k), i)
  {}

  lemma ActHolds(s: State, env: Env, a: Action, i: nat)
    requires WF(s) && i < SLOT_MAX
    ensures Held(s, Act(s, env, a), i)
  {
    match a
    case DoShell(tag, argsLen) =>
    case DoSubmit(addr, req) =>
      var k := SlotFor(s.slots, addr);
      if !(req.argsLen > CMD_ARG_MAX || k == |s.slots| || |s.slots[k].q| >= CMD_QUEUE_DEPTH) {
        PumpHolds(Enqueue(s, k, req), env, k, i);
        assert Held(s, Enqueue(s, k, req), i);
        HeldTrans(s, Enqueue(s, k, req), Pump(Enqueue(s, k, req), env, k), i);
      }
  }

  lemma {:induction false} PerformHolds(s: State, env: Env, acts: seq<Action>, i: nat)
    requires WF(s) && i < SLOT_MAX
    ensures Held(s, Perform(s, env, acts), i)
    decreases |acts|
  {
    if acts != [] {
      ActHolds(s, env, acts[0], i);
      PerformHolds(Act(s, env, acts[0]), env, acts[1..], i);
      HeldTrans(s, Act(s, env, acts[0]), Perform(s, env, acts), i);
    }
  }

  lemma FinishHolds(s: State, env: Env, k: nat, status: nat, i: nat)
    requires WF(s) && k < SLOT_MAX && i < SLOT_MAX && s.slots[k].inflight.Some?
    ensures Held(s, Finish(s, env, k, status), i)
  {
    var f := Finished(s, k, status);
    var p := Perform(f, env, env.react(|s.hist|));
    assert Held(s, f, i);
    PerformHolds(f, env, env.react(|s.hist|), i);
    HeldTrans(s, f, p, i);
    PumpHolds(p, env, k, i);
    HeldTrans(s, p, Pump(p, env, k), i);
  }

  lemma ResolveHolds(s: State, env: Env, j: nat, status: nat, i: nat)
    requires WF(s) && j < PENDING_MAX && i < SLOT_MAX && s.dx.table[j].Used?
    ensures Held(s, Resolve(s, env, j, status), i)
  {
    var e := s.dx.table[j];
    var f := Freed(s, j);
    match e.owner
    case ShellOwner(tag) =>
      PerformHolds(f.(hist := s.hist + [ShellDone(tag, e.rid, status)]), env, env.react(|s.hist|), i);
    case SlotOwner(k) =>
      if f.slots[k].inflight.Some? && e.rid == f.slots[k].rid { FinishHolds(f, env, k, status, i); }
  }

  lemma {:induction false} DownHolds(s: State, env: Env, j: nat, i: nat)
    requires WF(s) && j <= PENDING_MAX && i < SLOT_MAX
    ensures Held(s, DownFrom(s, env, j), i)
    decreases PENDING_MAX - j
  {
    if j < PENDING_MAX {
      var t := if s.dx.table[j].Used? then Resolve(s, env, j, STATUS_LINK_DOWN) else s;
      if s.dx.table[j].Used? { ResolveHolds(s, env, j, STATUS_LINK_DOWN, i); }
      DownHolds(t, env, j + 1, i);
      HeldTrans(s, t, DownFrom(t, env, j + 1), i);
    }
  }

  lemma {:induction false} SweepHolds(s: State, env: Env, mono: u64, timeoutMs: nat, j: nat, i: nat)
    requires WF(s) && j <= PENDING_MAX && i < SLOT_MAX
    ensures Held(s, SweepFrom(s, env, mono, timeoutMs, j), i)
    decreases PENDING_MAX - j
  {
    if j < PENDING_MAX {
      var t := SweepStep(s, env, mono, timeoutMs, j);
      if Overdue(s.dx.table[j], mono, timeoutMs) { ResolveHolds(s, env, j, STATUS_TIMEOUT, i); }
      SweepHolds(t, env, mono, timeoutMs, j + 1, i);
      HeldTrans(s, t, SweepFrom(t, env, mono, timeoutMs, j + 1), i);
    }
  }

  lemma RetryHolds(s: State, env: Env, k: nat, giveUp: nat, i: nat)
    requires WF(s) && k < SLOT_MAX && i < SLOT_MAX && s.slots[k].phase.Sent? && s.slots[k].inUse
    ensures Held(s, Retry(s, env, k, giveUp), i)
  {
    if s.slots[k].retries >= MAX_ACK_RETRIES { FinishHolds(s, env, k, giveUp, i); }
  }

  lemma {:induction false} PollHolds(s: State, env: Env, k: nat, i: nat)
    requires WF(s) && k <= SLOT_MAX && i < SLOT_MAX
    ensures Held(s, PollFrom(s, env, k), i)
    decreases SLOT_MAX - k
  {
    hide Retry, Finish, Pump;
    if k < SLOT_MAX {
      var slot := s.slots[k];
      if slot.inUse {
        match slot.phase {
          case Sent => RetryHolds(s, env, k, STATUS_TIMEOUT, i);
          case Inflight => FinishHolds(s, env, k, STATUS_TIMEOUT, i);
          case Idle => PumpHolds(s, env, k, i);
        }
      }
      PollHolds(PollSlot(s, env, k), env, k + 1, i);
      HeldTrans(s, PollSlot(s, env, k), PollFrom(s, env, k), i);
    }
  }

  /**
   While slot `i` is faulted, no call but a flag update for its own address or a reset takes a command
   from its queue or puts a new one in flight.
   */
  lemma FaultedQueueIsHeld(s: State, env: Env, op: Op, i: nat)
    requires WF(s) && i < SLOT_MAX && s.slots[i].faulted
    requires !op.OpReset? && !(op.OpFlagged? && op.addr == s.slots[i].addr)
    ensures Held(s, Step(s, env, op), i)
  {
    hide DownFrom, SweepFrom, PollFrom, Resolve, Retry, Send;
    match op
    case OpSubmit(addr, req) => ActHolds(s, env, DoSubmit(addr, req), i);
    case OpShell(tag, argsLen) =>
    case OpReply(rid, status) =>
      var j := FindRid(s.dx.table, rid, 0);
      if j < |s.dx.table| { ResolveHolds(s, env, j, status, i); }
    case OpLink(up) => DownHolds(s.(dx := s.dx.(up := up)), env, 0, i);
    case OpDemuxPoll(mono, timeoutMs) => SweepHolds(s, env, mono, timeoutMs, 0, i);
    case OpPoll(now) => PollHolds(s.(now := now), env, 0, i);
    case OpAck(addr, rid) =>
    case OpNak(addr, rid) =>
      var k := SlotFor(s.slots, addr);
      if Awaits(s, k, rid) { RetryHolds(s, env, k, STATUS_BUSY, i); }
    case OpFlagged(addr, flags) =>
      var k := SlotFor(s.slots, addr);
      if k < |s.slots| {
        PumpHolds(s.(slots := s.slots[k := s.slots[k].(faulted := flags % 2 == 1)]), env, k, i);
      }
    case OpAddSlave(addr) =>
  }
}
