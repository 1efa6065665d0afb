/**
 What the 16-bit request id costs: 0xFFFF is also the error value of a send, so that the frame is on the wire
 but the command stays queued and is sent again; and an id that comes round can still be pending.
 */
module BusWrap {
  import opened Options
  import opened BusTypes
  import opened BusModel
  import opened BusInvariant
  import opened BusCoupling
  import opened BusTheorems

  lemma FramesSnoc(h: seq<Event>, e: Event, addr: nat, handle: nat)
    ensures Frames(h + [e], addr, handle) == Frames(h, addr, handle) + if IsFrame(e, addr, handle) then 1 else 0
    ensures Strays(h + [e], addr, handle) ==
            Strays(h, addr, handle) +
            if IsFrame(e, addr, handle) && e.rid == ERROR_RID && TxCount(h, addr, handle) == 0 then 1 else 0
  {
    assert (h + [e])[..|h|] == h;
  }

  /** What every send with room in the table and an up link that takes the frame does. */
  lemma TransmitSucceeds(s: State, env: Env, i: nat, c: Cmd)
    requires WF(s) && i < SLOT_MAX && s.dx.up && env.accepts(s.dx.nextId)
    requires c.req.argsLen <= CMD_ARG_MAX && FirstFree(s.dx.table, 0) < PENDING_MAX
    ensures var r, rid := Transmit(s, env, i, c), Wire(s.dx.nextId);
      && r.s.hist == s.hist + [Transmitted(s.slots[i].addr, c.handle, rid, s.now, WireTimeout(c.req.execTimeout))]
      && r.s.dx.table == s.dx.table[FirstFree(s.dx.table, 0) := Used(rid, SlotOwner(i), env.clock(|s.hist|), |s.hist|)]
      && r.s.dx.nextId == s.dx.nextId + 1 && r.s.dx.up && (r.ok <==> rid != ERROR_RID)
  {}

  /**
   When an idle, unfaulted slot is pumped and the link takes the frame, the command leaves the
   queue exactly when its id is not 0xFFFF. At 0xFFFF the frame is on the wire and an entry is
   pending, yet the command stays queued to be sent again, and the frame is a stray.
   */
  lemma TransmittedYetQueued(s: State, env: Env, i: nat)
    requires Sound(s) && i < SLOT_MAX && s.dx.up && env.accepts(s.dx.nextId)
    requires s.slots[i].phase.Idle? && !s.slots[i].faulted && s.slots[i].q != []
    requires FirstFree(s.dx.table, 0) < PENDING_MAX
    ensures var t, addr, handle, j := Pump(s, env, i), s.slots[i].addr, s.slots[i].q[0].handle, FirstFree(s.dx.table, 0);
      && Frames(t.hist, addr, handle) == Frames(s.hist, addr, handle) + 1
      && j < |t.dx.table| && Holds(t.dx.table[j], Wire(s.dx.nextId))
      && (Wire(s.dx.nextId) != ERROR_RID ==>
            t.slots[i].q == s.slots[i].q[1..] && t.slots[i].phase == Sent
            && Strays(t.hist, addr, handle) == Strays(s.hist, addr, handle))
      && (Wire(s.dx.nextId) == ERROR_RID ==>
            t.slots[i].q == s.slots[i].q && t.slots[i].phase == Idle
            && Strays(t.hist, addr, handle) == Strays(s.hist, addr, handle) + 1)
  {
    hide Send;
    var c, addr := s.slots[i].q[0], s.slots[i].addr;
    var s1 := s.(slots := s.slots[i := s.slots[i].(retries := 0)]);
    assert SlotShape(s.slots[i]);
    TransmitSucceeds(s1, env, i, c);
    PumpBounded(s, env, i);
    var e := Transmitted(addr, c.handle, Wire(s.dx.nextId), s.now, WireTimeout(c.req.execTimeout));
    FramesSnoc(s.hist, e, addr, c.handle);
  }

  // ---- an execution in which four frames are sent ----------------------------

  /** The link takes every frame, and callbacks do nothing. */
  ghost function Willing(): Env { Env(_ => true, _ => 0, _ => [], (_, _) => []) }

  lemma RunSnoc(run: seq<State>, env: Env, ops: seq<Op>, op: Op)
    requires IsRun(run, env, ops) && WF(run[|ops|]) && (op.OpReset? ==> op.limit >= CMD_QUEUE_DEPTH)
    ensures IsRun(run + [Step(run[|ops|], env, op)], env, ops + [op])
  {
    hide Step;
    var run', ops' := run + [Step(run[|ops|], env, op)], ops + [op];
    forall k | 0 <= k < |ops'|
      ensures StepAt(run', env, ops', k)
    {
      if k < |ops| { assert StepAt(run, env, ops, k); }
    }
  }

  /** Each send on a link that is down spends an id. */
  lemma {:induction false} SpendIds(env: Env, n: nat) returns (run: seq<State>, ops: seq<Op>)
    requires Polite(env)
    ensures IsRun(run, env, ops) && run[|ops|] == Init().(dx := Init().dx.(nextId := n + 1))
  {
    if n == 0 {
      run, ops := [Init()], [];
    } else {
      var before, bops := SpendIds(env, n - 1);
      run, ops := before + [Step(before[|bops|], env, OpShell(0, 0))], bops + [OpShell(0, 0)];
      RunSnoc(before, env, bops, OpShell(0, 0));
    }
  }

  /** One slave at address 10, `used` requests pending, and the counter at `id`. */
  ghost predicate Lone(s: State, id: nat, used: nat) { WF(s) && Alone(s, id, used) }

  ghost predicate Alone(s: State, id: nat, used: nat) {
    && |s.dx.table| == PENDING_MAX && |s.slots| == SLOT_MAX && s.dx.up && s.dx.nextId == id && used < PENDING_MAX
    && (forall j :: 0 <= j < used ==> s.dx.table[j].Used?) && (forall j :: used <= j < PENDING_MAX ==> s.dx.table[j].Free?)
    && s.slots[0].inUse && s.slots[0].addr == 10 && !s.slots[0].faulted
    && (forall i :: 0 < i < SLOT_MAX ==> !s.slots[i].inUse)
  }

  lemma {:induction false} PollUnused(s: State, env: Env, i: nat)
    requires WF(s) && i <= SLOT_MAX && forall k :: i <= k < SLOT_MAX ==> !s.slots[k].inUse
    ensures PollFrom(s, env, i) == s
    decreases SLOT_MAX - i
  {
    if i < SLOT_MAX { PollUnused(s, env, i + 1); }
  }

  /** A poll concerns the only slave. */
  lemma PollLone(s: State, env: Env, now: u64, id: nat, used: nat)
    requires Lone(s, id, used)
    ensures var t := s.(now := now);
      (forall k :: 0 < k < SLOT_MAX ==> !PollSlot(t, env, 0).slots[k].inUse) ==> Poll(s, env, now) == PollSlot(t, env, 0)
  {
    hide PollSlot;
    var t := s.(now := now);
    if forall k :: 0 < k < SLOT_MAX ==> !PollSlot(t, env, 0).slots[k].inUse {
      assert PollFrom(t, env, 0) == PollFrom(PollSlot(t, env, 0), env, 1);
      PollUnused(PollSlot(t, env, 0), env, 1);
    }
  }

  lemma LoneFree(s: State, id: nat, used: nat)
    requires Lone(s, id, used)
    ensures FirstFree(s.dx.table, 0) == used
  {
    assert s.dx.table[used].Free?;
  }

  /** A change of the slave's command only. */
  lemma LoneKeeps(s: State, t: State, id: nat, used: nat)
    requires Lone(s, id, used) && WF(t) && t.dx == s.dx && t.slots == s.slots[0 := t.slots[0]]
    requires t.slots[0].inUse && t.slots[0].addr == 10 && !t.slots[0].faulted
    ensures Lone(t, id, used)
  {}

  /** One request more is pending, under id `rid` and the first slot's name; the others are as they were. */
  ghost predicate Registered(s: State, t: State, j: nat, rid: nat) {
    && j < |s.dx.table| == |t.dx.table| && Carries(t.dx.table, j, rid, 0)
    && (forall k :: 0 <= k < |s.dx.table| && k != j ==> t.dx.table[k] == s.dx.table[k])
    && t.nextHandle == s.nextHandle
  }

  /** A transmission for the only slave. */
  lemma TransmitLone(s: State, env: Env, c: Cmd, id: nat, used: nat)
    requires Lone(s, id, used) && used + 1 < PENDING_MAX && c.req.argsLen <= CMD_ARG_MAX && env.accepts(id)
    ensures var r := Transmit(s, env, 0, c);
      && FirstFree(s.dx.table, 0) == used
      && Alone(r.s, id + 1, used + 1)
      && Registered(s, r.s, used, Wire(id)) && r.s.slots == s.slots[0 := r.s.slots[0]] && r.s.now == s.now
      && r.s.slots[0] == (if r.ok then s.slots[0].(sentMs := s.now, rid := Wire(id), phase := Sent, ackMs := 0,
                                                   inflight := Some(c))
                          else s.slots[0].(sentMs := s.now))
      && (r.ok <==> Wire(id) != ERROR_RID)
      && Frames(r.s.hist, 10, c.handle) == Frames(s.hist, 10, c.handle) + 1
  {
    hide SlotShape, Send;
    LoneFree(s, id, used);
    TransmitSucceeds(s, env, 0, c);
    var e := Transmitted(10, c.handle, Wire(id), s.now, WireTimeout(c.req.execTimeout));
    FramesSnoc(s.hist, e, 10, c.handle);
  }

  const WAITED := Cmd(1, Request(0, 0, 0))

  lemma PumpReady(s: State, c: Cmd, id: nat, used: nat)
    requires Lone(s, id, used) && s.slots[0].phase == Idle && s.slots[0].q == [c]
    ensures Lone(s.(slots := s.slots[0 := s.slots[0].(retries := 0)]), id, used)
    ensures c.req.argsLen <= CMD_ARG_MAX && !s.slots[0].faulted
  {
    assert SlotShape(s.slots[0]) && s.slots[0].q[0] == c;
    LoneKeeps(s, s.(slots := s.slots[0 := s.slots[0].(retries := 0)]), id, used);
  }

  lemma TakenLone(s: State, q: seq<Cmd>, id: nat, used: nat)
    requires Alone(s, id, used)
    ensures |s.slots| > 0 && Alone(s.(slots := s.slots[0 := s.slots[0].(q := q)]), id, used)
  {}

  /** A pump of the only slave, idle with one command queued. */
  lemma PumpLone(s: State, env: Env, c: Cmd, id: nat, used: nat)
    requires Lone(s, id, used) && used + 1 < PENDING_MAX && s.slots[0].phase == Idle && s.slots[0].q == [c]
    requires env.accepts(id)
    ensures var t := Pump(s, env, 0);
      && Lone(t, id + 1, used + 1) && Registered(s, t, used, Wire(id)) && t.now == s.now
      && Frames(t.hist, 10, c.handle) == Frames(s.hist, 10, c.handle) + 1
      && t.slots[0].sentMs == s.now && t.slots[0].retries == 0
      && (if Wire(id) == ERROR_RID then t.slots[0].phase == Idle && t.slots[0].q == [c]
          else t.slots[0].phase == Sent && t.slots[0].inflight == Some(c) && t.slots[0].rid == Wire(id)
               && t.slots[0].q == [])
  {
    hide Transmit, Pump, SlotShape, Frames, Alone;
    var s1 := s.(slots := s.slots[0 := s.slots[0].(retries := 0)]);
    PumpReady(s, c, id, used);
    TransmitLone(s1, env, c, id, used);
    PumpUnfolds(s, env, 0);
    var a, t := Transmit(s1, env, 0, c), Pump(s, env, 0);
    TakenLone(a.s, s.slots[0].q[1..], id + 1, used + 1);
    assert Lone(t, id + 1, used + 1);
  }

  lemma PumpUnfolds(s: State, env: Env, i: nat)
    requires WF(s) && i < SLOT_MAX && !s.slots[i].faulted && s.slots[i].phase.Idle? && s.slots[i].q != []
    ensures var s1 := s.(slots := s.slots[i := s.slots[i].(retries := 0)]);
      WF(s1) && var a := Transmit(s1, env, i, s.slots[i].q[0]);
      Pump(s, env, i) == if a.ok then a.s.(slots := a.s.slots[i := a.s.slots[i].(q := s.slots[i].q[1..])]) else a.s
  {}

  /** The slave registered and the link up. */
  lemma Prepared(s: State, env: Env)
    requires s == Init().(dx := Init().dx.(nextId := s.dx.nextId))
    ensures var t := Step(Step(s, env, OpAddSlave(10)), env, OpLink(true));
      Lone(t, s.dx.nextId, 0) && t.slots[0] == CLEARED_SLOT.(inUse := true, addr := 10) && t.hist == [] && t.nextHandle == 1
  {
    assert FirstUnused(s.slots, 0) == 0;
  }

  lemma SubmitIsStep(s: State, env: Env, addr: nat, req: Request)
    requires WF(s)
    ensures Step(s, env, OpSubmit(addr, req)) == Submit(s, env, addr, req).s
  {
    hide Submit, WF;
  }

  lemma NoFrames(addr: nat, handle: nat)
    ensures Frames([], addr, handle) == 0
  {}

  /** A command accepted for the idle slave. */
  lemma QueuedFirst(s: State, env: Env, id: nat, used: nat) returns (e: State)
    requires Lone(s, id, used) && s.slots[0].phase == Idle && s.slots[0].q == []
    ensures var c := Cmd(s.nextHandle, WAITED.req);
      && Lone(e, id, used) && e.slots[0].phase == Idle && e.slots[0].q == [c]
      && e.nextHandle == s.nextHandle + 1 && e.dx == s.dx && e.hist == s.hist + [Accepted(10, s.nextHandle)]
      && Frames(e.hist, 10, c.handle) == Frames(s.hist, 10, c.handle)
    ensures Step(s, env, OpSubmit(10, WAITED.req)) == Pump(e, env, 0)
  {
    hide Step, Pump, SlotShape, SlotFrom, Frames;
    SubmitIsStep(s, env, 10, WAITED.req);
    assert Matches(s.slots[0], 10) && SlotFor(s.slots, 10) == 0;
    e := Enqueue(s, 0, WAITED.req);
    LoneKeeps(s, e, id, used);
    FramesSnoc(s.hist, Accepted(10, s.nextHandle), 10, s.nextHandle);
  }

  /** The first frame is given 0xFFFF, and the command is still queued. */
  lemma StrayFirst(s: State)
    requires Lone(s, ERROR_RID, 0) && s.slots[0] == CLEARED_SLOT.(inUse := true, addr := 10)
    requires s.hist == [] && s.nextHandle == 1
    ensures var t := Step(s, Willing(), OpSubmit(10, WAITED.req));
      && Lone(t, 0x1_0000, 1) && t.slots[0].phase == Idle && t.slots[0].q == [WAITED] && Frames(t.hist, 10, 1) == 1
  {
    hide Step, Pump, SlotShape;
    var e := QueuedFirst(s, Willing(), ERROR_RID, 0);
    NoFrames(10, 1);
    PumpLone(e, Willing(), WAITED, ERROR_RID, 0);
  }

  /** The second frame takes it from the queue. */
  lemma ThenSent(s: State)
    requires Lone(s, 0x1_0000, 1) && s.slots[0].phase == Idle && s.slots[0].q == [WAITED]
    ensures var t := Poll(s, Willing(), 0);
      && Lone(t, 0x1_0001, 2) && t.slots[0].phase == Sent && t.slots[0].inflight == Some(WAITED)
      && t.slots[0].retries == 0 && t.slots[0].sentMs == 0 && Frames(t.hist, 10, 1) == Frames(s.hist, 10, 1) + 1
  {
    hide Pump, Poll, SlotShape;
    PumpLone(s.(now := 0), Willing(), WAITED, 0x1_0000, 1);
    PollLone(s, Willing(), 0, 0x1_0000, 1);
  }

  /** No ACK in time: another frame. */
  lemma ThenResent(s: State, id: nat, used: nat, now: u64)
    requires Lone(s, id, used) && used + 1 < PENDING_MAX && s.slots[0].phase == Sent && s.slots[0].inflight == Some(WAITED)
    requires s.slots[0].retries < MAX_ACK_RETRIES && s.slots[0].sentMs + ACK_TIMEOUT_MS <= now && Wire(id) != ERROR_RID
    ensures var t := Poll(s, Willing(), now);
      && Lone(t, id + 1, used + 1) && t.slots[0].phase == Sent && t.slots[0].inflight == Some(WAITED)
      && t.slots[0].retries == s.slots[0].retries + 1 && t.slots[0].sentMs == now
      && Frames(t.hist, 10, 1) == Frames(s.hist, 10, 1) + 1
  {
    var s1 := s.(now := now);
    var s2 := s1.(slots := s1.slots[0 := s1.slots[0].(retries := s1.slots[0].retries + 1)]);
    LoneKeeps(s, s2, id, used);
    hide Poll, Transmit, SlotShape;
    TransmitLone(s2, Willing(), WAITED, id, used);
    assert PollSlot(s1, Willing(), 0) == Transmit(s2, Willing(), 0, WAITED).s;
    PollLone(s, Willing(), now, id, used);
  }

  lemma PollIsStep(s: State, env: Env, now: u64)
    requires WF(s)
    ensures Step(s, env, OpPoll(now)) == Poll(s, env, now)
  {
    hide Poll, WF;
  }

  lemma RunOn(run: seq<State>, env: Env, ops: seq<Op>, op: Op) returns (run': seq<State>, ops': seq<Op>)
    requires IsRun(run, env, ops) && (op.OpReset? ==> op.limit >= CMD_QUEUE_DEPTH)
    ensures IsRun(run', env, ops') && WF(run[|ops|]) && WF(run'[|ops'|])
    ensures ops' == ops + [op] && run'[..|ops| + 1] == run
    ensures run'[|ops'|] == Step(run[|ops|], env, op)
  {
    assert WF(run[|ops|]) by { if |ops| > 0 { assert StepAt(run, env, ops, |ops| - 1); } }
    run', ops' := run + [Step(run[|ops|], env, op)], ops + [op];
    RunSnoc(run, env, ops, op);
  }

  /**
   The bound of three frames is exceeded in an execution: 65534 ids are spent, then one command is
   submitted. Its frame is given 0xFFFF; a poll sends it again, and it is resent twice for want of an ACK.
   */
  lemma FourFramesAtWrap() returns (run: seq<State>, ops: seq<Op>)
    ensures IsRun(run, Willing(), ops) && Frames(run[|ops|].hist, 10, 1) == 4
  {
    hide Step, Poll, Lone, Frames;
    var env := Willing();
    run, ops := SpendIds(env, 65534);
    Prepared(run[|ops|], env);
    run, ops := RunOn(run, env, ops, OpAddSlave(10));
    run, ops := RunOn(run, env, ops, OpLink(true));
    StrayFirst(run[|ops|]);
    run, ops := RunOn(run, env, ops, OpSubmit(10, WAITED.req));
    ThenSent(run[|ops|]);
    PollIsStep(run[|ops|], env, 0);
    run, ops := RunOn(run, env, ops, OpPoll(0));
    ThenResent(run[|ops|], 0x1_0001, 2, 1500);
    PollIsStep(run[|ops|], env, 1500);
    run, ops := RunOn(run, env, ops, OpPoll(1500));
    ThenResent(run[|ops|], 0x1_0002, 3, 3000);
    PollIsStep(run[|ops|], env, 3000);
    run, ops := RunOn(run, env, ops, OpPoll(3000));
  }

  // ---- an execution in which a stale reply completes another command ---------

  /** The link takes request 1 and, the counter having gone round, the request that is given its id again. */
  ghost function Choosy(): Env { Env(n => n == 1 || n == 0x1_0001, _ => 0, _ => [], (_, _) => []) }

  /** On a link that refuses them, sends spend ids all the same. */
  lemma {:induction false} SpendOn(run: seq<State>, env: Env, ops: seq<Op>, n: nat, used: nat)
    returns (run': seq<State>, ops': seq<Op>)
    requires IsRun(run, env, ops) && Lone(run[|ops|], run[|ops|].dx.nextId, used)
    requires forall k :: run[|ops|].dx.nextId <= k < run[|ops|].dx.nextId + n ==> !env.accepts(k)
    ensures IsRun(run', env, ops') && |ops| <= |ops'| && run'[..|ops| + 1] == run
    ensures var s := run[|ops|]; run'[|ops'|] == s.(dx := s.dx.(nextId := s.dx.nextId + n))
  {
    hide Step;
    run', ops' := run, ops;
    if n > 0 {
      run', ops' := SpendOn(run, env, ops, n - 1, used);
      var s := run'[|ops'|];
      ShellRefused(s, env, used);
      var more, mops := RunOn(run', env, ops', OpShell(0, 0));
      assert more[..|ops| + 1] == more[..|ops'| + 1][..|ops| + 1];
      run', ops' := more, mops;
    }
  }

  lemma ShellRefused(s: State, env: Env, used: nat)
    requires Lone(s, s.dx.nextId, used) && !env.accepts(s.dx.nextId)
    ensures Step(s, env, OpShell(0, 0)) == s.(dx := s.dx.(nextId := s.dx.nextId + 1))
  {
    LoneFree(s, s.dx.nextId, used);
  }

  /** A reset completes the command in flight, gives the slot back and leaves the request pending. */
  lemma ResetLone(s: State, env: Env, id: nat, used: nat)
    requires Lone(s, id, used) && env == Choosy() && s.slots[0].inflight.Some? && s.slots[0].q == []
    ensures var t := Step(s, env, OpReset(STATUS_LINK_DOWN, CMD_QUEUE_DEPTH));
      && t.dx == s.dx && t.nextHandle == s.nextHandle && |t.slots| == SLOT_MAX
      && forall i :: 0 <= i < SLOT_MAX ==> !t.slots[i].inUse
  {
    hide SlotShape;
    var f := Finished(s, 0, STATUS_LINK_DOWN);
    var c := f.(slots := f.slots[0 := CLEARED_SLOT]);
    ResetsToClear(s, env);
    ResetUnused(c, env, 1);
    ResetIsStep(s, env);
  }

  lemma ResetIsStep(s: State, env: Env)
    requires WF(s)
    ensures Step(s, env, OpReset(STATUS_LINK_DOWN, CMD_QUEUE_DEPTH))
         == ResetFrom(s, env, 0, STATUS_LINK_DOWN, CMD_QUEUE_DEPTH).s
  {
    hide ResetFrom, WF;
  }

  lemma ResetsToClear(s: State, env: Env)
    requires WF(s) && env == Choosy() && s.slots[0].inUse && s.slots[0].inflight.Some? && s.slots[0].q == []
    ensures var f := Finished(s, 0, STATUS_LINK_DOWN);
      ResetSlot(s, env, 0, STATUS_LINK_DOWN, CMD_QUEUE_DEPTH) == Aborted(f.(slots := f.slots[0 := CLEARED_SLOT]), true)
  {
    hide SlotShape;
    assert env.abort(|s.hist|, s.slots[0].addr) == [];
  }

  lemma AddAgain(c: State, env: Env, id: nat, used: nat)
    requires WF(c) && forall i :: 0 <= i < SLOT_MAX ==> !c.slots[i].inUse
    requires c.dx.up && c.dx.nextId == id && used < PENDING_MAX
    requires forall j :: 0 <= j < PENDING_MAX ==> (c.dx.table[j].Used? <==> j < used)
    ensures var t := Step(c, env, OpAddSlave(10));
      Lone(t, id, used) && t == c.(slots := c.slots[0 := CLEARED_SLOT.(inUse := true, addr := 10)])
  {
    AddIsStep(c, env, 10);
    assert FirstUnused(c.slots, 0) == 0;
    assert forall i :: 0 <= i < SLOT_MAX ==> !Matches(c.slots[i], 10);
  }

  lemma {:induction false} ResetUnused(s: State, env: Env, i: nat)
    requires WF(s) && i <= SLOT_MAX && forall k :: i <= k < SLOT_MAX ==> !s.slots[k].inUse
    ensures ResetFrom(s, env, i, STATUS_LINK_DOWN, CMD_QUEUE_DEPTH) == Aborted(s, true)
    decreases SLOT_MAX - i
  {
    if i < SLOT_MAX { ResetUnused(s, env, i + 1); }
  }

  lemma AddIsStep(s: State, env: Env, addr: nat)
    requires WF(s)
    ensures Step(s, env, OpAddSlave(addr)) == AddSlave(s, addr)
  {
    hide AddSlave, WF;
  }

  /** A command submitted and sent. */
  lemma SentAgain(s: State, env: Env, id: nat, used: nat)
    requires Lone(s, id, used) && used + 1 < PENDING_MAX && s.slots[0].phase == Idle && s.slots[0].q == []
    requires env.accepts(id) && Wire(id) != ERROR_RID
    ensures var t := Step(s, env, OpSubmit(10, WAITED.req));
      && Lone(t, id + 1, used + 1) && Registered(s.(nextHandle := s.nextHandle + 1), t, used, Wire(id))
      && t.slots[0].phase == Sent && t.slots[0].inflight == Some(Cmd(s.nextHandle, WAITED.req))
      && t.slots[0].rid == Wire(id) && t.slots[0].q == []
  {
    hide Step, Pump, SlotShape;
    var e := QueuedFirst(s, env, id, used);
    PumpLone(e, env, Cmd(s.nextHandle, WAITED.req), id, used);
  }

  /**
   A stale reply completes another command, in an execution: command 1 is sent under id 1 and aborted by a
   reset, whose request stays pending; 65535 more ids are spent; command 2 is given id 1 again. The reply to
   the request that was pending before command 2 existed completes command 2.
   */
  lemma StaleReplyAtWrap() returns (run: seq<State>, ops: seq<Op>, k: nat)
    ensures IsRun(run, Choosy(), ops) && k < |ops| && WF(run[|ops|]) && |run[k].dx.table| == PENDING_MAX
    ensures run[k].nextHandle == 2 && run[k].dx.table[0].Used?
    ensures var s := run[|ops|];
      && s.dx.table[0] == run[k].dx.table[0] && FindRid(s.dx.table, 1, 0) == 0
      && var g := Step(s, Choosy(), OpReply(1, 0)).hist;
      |g| > |s.hist| && g[|s.hist|] == Done(10, 2, 0)
  {
    hide Step, Lone, Frames;
    var env := Choosy();
    run, ops := [Init()], [];
    Prepared(run[|ops|], env);
    run, ops := RunOn(run, env, ops, OpAddSlave(10));
    run, ops := RunOn(run, env, ops, OpLink(true));
    LoneFacts(run[|ops|], 1, 0);
    SentAgain(run[|ops|], env, 1, 0);
    run, ops := RunOn(run, env, ops, OpSubmit(10, WAITED.req));
    k := |ops|;
    var first := run[k];
    LoneFacts(first, 2, 1);
    ResetLone(first, env, 2, 1);
    run, ops := RunOn(run, env, ops, OpReset(STATUS_LINK_DOWN, CMD_QUEUE_DEPTH));
    AddAgain(run[|ops|], env, 2, 1);
    run, ops := RunOn(run, env, ops, OpAddSlave(10));
    assert run[k] == first;
    var back := run[|ops|];
    var spent, sops := SpendOn(run, env, ops, 65535, 1);
    assert spent[k] == spent[..|ops| + 1][k];
    var s := spent[|sops|];
    LoneSpent(back, s, 2, 1);
    SentAgain(s, env, 0x1_0001, 1);
    run, ops := RunOn(spent, env, sops, OpSubmit(10, WAITED.req));
    assert run[k] == run[..|sops| + 1][k];
    LoneFacts(run[|ops|], 0x1_0002, 2);
    StaleCompletes(run[|ops|], env);
  }

  lemma LoneSpent(s: State, t: State, id: nat, used: nat)
    requires Lone(s, id, used) && t == s.(dx := s.dx.(nextId := t.dx.nextId))
    ensures Lone(t, t.dx.nextId, used)
  {}

  lemma StaleCompletes(s: State, env: Env)
    requires WF(s) && Carries(s.dx.table, 0, 1, 0) && s.slots[0].rid == 1 && s.slots[0].inflight.Some?
    ensures FindRid(s.dx.table, 1, 0) == 0
    ensures var g := Step(s, env, OpReply(1, 0)).hist;
      |g| > |s.hist| && g[|s.hist|] == Done(s.slots[0].addr, s.slots[0].inflight.value.handle, 0)
  {
    hide Finish, SlotShape;
    FinishHistory(Freed(s, 0), env, 0, 0);
    var d := s.hist + [Done(s.slots[0].addr, s.slots[0].inflight.value.handle, 0)];
    assert Holds(s.dx.table[0], 1);
    var g := OnReply(s, env, 1, 0).hist;
    ReplyIsStep(s, env, 1, 0);
    assert g[|s.hist|] == g[..|d|][|s.hist|];
  }

  lemma ReplyIsStep(s: State, env: Env, rid: nat, status: nat)
    requires WF(s)
    ensures Step(s, env, OpReply(rid, status)) == OnReply(s, env, rid, status)
  {
    hide OnReply, WF;
  }

  lemma LoneFacts(s: State, id: nat, used: nat)
    requires Lone(s, id, used)
    ensures |s.slots| == SLOT_MAX && |s.dx.table| == PENDING_MAX && s.dx.nextId == id && s.dx.up && s.slots[0].addr == 10
    ensures forall j :: 0 <= j < PENDING_MAX ==> (s.dx.table[j].Used? <==> j < used)
  {}
}
