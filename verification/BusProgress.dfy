/**
 What the command stack is for, beside what it must not do: what fits is sent, the next command follows a
 completion at once, a sweep times out what is overdue and nothing else, and a reset leaves no slave registered.
 */
module BusProgress {
  import opened Options
  import opened BusTypes
  import opened BusModel
  import opened BusInvariant
  import opened BusCoupling
  import opened BusMoves
  import opened BusReset
  import opened BusSweep
  import opened BusTheorems
  import opened BusWrap

  // ---- sending ---------------------------------------------------------------

  /** The length the code computes, on 16 bits. */
  predicate FitsFrame(hdr: nat, len: nat) { (hdr + len) % 0x1_0000 <= 128 }

  /**
   A send goes on the wire if and only if the frame fits, the table has room, and the link is up and takes it. An
   id is spent if and only if it fits and there is room; nothing else changes unless it went on the wire.
   */
  lemma SendsExactly(dx: DemuxState, owner: Owner, hdr: nat, len: nat, accept: bool, mono: u64, at: nat)
    ensures var r := Send(dx, owner, hdr, len, accept, mono, at);
      var room := exists j :: 0 <= j < |dx.table| && dx.table[j].Free?;
      && (r.onWire <==> FitsFrame(hdr, len) && room && dx.up && accept)
      && (r.dx.nextId == if FitsFrame(hdr, len) && room then dx.nextId + 1 else dx.nextId)
      && (r.onWire ==> r.rid == Wire(dx.nextId))
      && (!r.onWire ==> r.rid == ERROR_RID && r.dx == dx.(nextId := r.dx.nextId))
  {
    var j := FirstFree(dx.table, 0);
    assert j < |dx.table| ==> dx.table[j].Free?;
  }

  /** A shell request goes out under the same conditions; then it is pending under its caller's name, and no other is lost. */
  lemma ShellSends(s: State, env: Env, tag: nat, len: nat)
    requires WF(s)
    ensures var t, id := SendShell(s, env, tag, len), Wire(s.dx.nextId);
      var room := exists j :: 0 <= j < PENDING_MAX && s.dx.table[j].Free?;
      if FitsFrame(SHELL_EXEC_HDR, len) && room && s.dx.up && env.accepts(s.dx.nextId) then
        && t.hist == s.hist + [ShellSent(tag, id)]
        && (exists j :: 0 <= j < PENDING_MAX && t.dx.table[j].Used? && t.dx.table[j].rid == id
                        && t.dx.table[j].owner == ShellOwner(tag))
        && forall j :: 0 <= j < PENDING_MAX && s.dx.table[j].Used? ==> t.dx.table[j] == s.dx.table[j]
      else t.hist == s.hist && t.dx.table == s.dx.table
  {
    var j := FirstFree(s.dx.table, 0);
    var t := SendShell(s, env, tag, len);
    SendsExactly(s.dx, ShellOwner(tag), SHELL_EXEC_HDR, len, env.accepts(s.dx.nextId), env.clock(|s.hist|), |s.hist|);
    if j < |s.dx.table| {
      assert s.dx.table[j].Free?;
      assert t.hist != s.hist ==> t.dx.table[j].Used?;
    }
  }

  /**
   A submission is refused, with handle 0, if and only if its arguments are too long, the slave is not registered
   or its queue is full; an accepted one gets the next handle, cut to 32 bits, and is recorded first.
   */
  lemma SubmitTells(s: State, env: Env, addr: nat, req: Request)
    requires WF(s)
    ensures var r := Submit(s, env, addr, req);
      var room := exists i :: 0 <= i < SLOT_MAX && Matches(s.slots[i], addr) && |s.slots[i].q| < CMD_QUEUE_DEPTH
                              && forall k :: 0 <= k < i ==> !Matches(s.slots[k], addr);
      if req.argsLen <= 96 && room then
        && r.handle == s.nextHandle % 0x1_0000_0000 && r.s.nextHandle == s.nextHandle + 1
        && Extends(s.hist, r.s.hist) && |r.s.hist| > |s.hist| && r.s.hist[|s.hist|] == Accepted(addr, s.nextHandle)
      else r.handle == 0 && r.s == s
  {
    var i := SlotFor(s.slots, addr);
    if i < |s.slots| && |s.slots[i].q| < CMD_QUEUE_DEPTH && req.argsLen <= CMD_ARG_MAX {
      var e := Enqueue(s, i, req);
      PumpQuiet(e, env, i);
      PumpHandles(e, env, i);
      FirstOf(s.hist, e.hist, Pump(e, env, i).hist);
    }
  }

  lemma PumpHandles(s: State, env: Env, i: nat)
    requires WF(s) && i < SLOT_MAX
    ensures Pump(s, env, i).nextHandle == s.nextHandle
  {}

  /**
   Registering a slave takes the first unused slot, idle, open and empty, unless the slave is registered already or
   every slot is taken; nothing else changes.
   */
  lemma AddRegisters(s: State, addr: nat)
    requires WF(s)
    ensures var t := AddSlave(s, addr);
      var known := exists i :: 0 <= i < SLOT_MAX && Matches(s.slots[i], addr);
      && (known || (forall i :: 0 <= i < SLOT_MAX ==> s.slots[i].inUse) ==> t == s)
      && (!known ==> forall i :: 0 <= i < SLOT_MAX && !s.slots[i].inUse && (forall k :: 0 <= k < i ==> s.slots[k].inUse) ==>
            Matches(t.slots[i], addr) && !t.slots[i].faulted && t.slots[i].q == [] && t.slots[i].phase == Idle
            && t == s.(slots := s.slots[i := t.slots[i]]))
  {}

  // ---- the next command ------------------------------------------------------

  /** A pump of an idle slot starts the front of its queue if and only if the link takes a frame under a usable id. */
  lemma PumpStarts(s: State, env: Env, i: nat)
    requires WF(s) && i < SLOT_MAX && s.slots[i].phase.Idle? && s.slots[i].q != []
    ensures var t, x := Pump(s, env, i), s.slots[i];
      if LinkTakes(s, env, i) then
        t.slots[i] == x.(phase := Sent, inflight := Some(x.q[0]), q := x.q[1..], rid := Wire(s.dx.nextId),
                         sentMs := s.now, ackMs := 0, retries := 0)
      else t.slots[i].phase == Idle && t.slots[i].inflight == None && t.slots[i].q == x.q
  {
    assert SlotShape(s.slots[i]);
    hide SlotShape;
    PumpShape(s, env, i);
    PumpTakes(s, env, i);
  }

  /** So does each poll: a command the link refused goes out at the first poll that finds the link taking frames. */
  lemma PollStarts(s: State, env: Env, i: nat)
    requires WF(s) && i < SLOT_MAX && s.slots[i].inUse && s.slots[i].phase.Idle? && s.slots[i].q != []
    ensures var t, x := PollSlot(s, env, i), s.slots[i];
      if LinkTakes(s, env, i) then
        && t.slots[i].phase == Sent && t.slots[i].inflight == Some(x.q[0]) && t.slots[i].q == x.q[1..]
        && t.slots[i].retries == 0
      else t.slots[i].phase == Idle && t.slots[i].q == x.q
  {
    hide Pump, LinkTakes, WF;
    PumpStarts(s, env, i);
  }

  /**
   An accepted command goes behind the queue, and the queue's front goes out at once if and only if the slot is idle
   and the link takes a frame; otherwise the command in flight stays as it is.
   */
  lemma SubmitStarts(s: State, env: Env, i: nat, req: Request)
    requires WF(s) && i < SLOT_MAX && s.slots[i].inUse && SlotFor(s.slots, s.slots[i].addr) == i
    requires req.argsLen <= 96 && |s.slots[i].q| < CMD_QUEUE_DEPTH
    ensures var t, x := Submit(s, env, s.slots[i].addr, req).s, s.slots[i];
      var all := x.q + [Cmd(s.nextHandle, req)];
      if x.phase.Idle? && LinkTakes(s, env, i) then
        t.slots[i].phase == Sent && t.slots[i].inflight == Some(all[0]) && t.slots[i].q == all[1..]
      else
        && t.slots[i].phase == x.phase && t.slots[i].inflight == x.inflight && t.slots[i].rid == x.rid
        && t.slots[i].q == all
  {
    hide LinkTakes;
    var e := Enqueue(s, i, req);
    SameLink(s, e, env, i);
    assert SlotShape(s.slots[i]);
    if s.slots[i].phase.Idle? {
      PumpStarts(e, env, i);
      SameRid(e, env, i);
    }
  }

  /** A pump that starts nothing leaves the slot without an id, as it was. */
  lemma SameRid(s: State, env: Env, i: nat)
    requires WF(s) && i < SLOT_MAX && s.slots[i].phase.Idle?
    ensures Pump(s, env, i).slots[i].phase.Idle? ==> Pump(s, env, i).slots[i].rid == s.slots[i].rid
  {}

  /**
   A completion starts the next command: whatever its callback did, if it left the slot idle with something queued
   and the link takes a frame, that goes out before the call returns.
   */
  lemma CompletionStartsNext(s: State, env: Env, i: nat, status: nat)
    requires WF(s) && i < SLOT_MAX && s.slots[i].inflight.Some?
    ensures var p := Perform(Finished(s, i, status), env, env.react(|s.hist|));
      p.slots[i].phase.Idle? && p.slots[i].q != [] && LinkTakes(p, env, i) ==>
        var t := Finish(s, env, i, status); t.slots[i].inflight == Some(p.slots[i].q[0]) && t.slots[i].phase == Sent
  {
    hide Perform, Pump, LinkTakes;
    var p := Perform(Finished(s, i, status), env, env.react(|s.hist|));
    if p.slots[i].phase.Idle? && p.slots[i].q != [] { PumpStarts(p, env, i); }
  }

  /** With a callback that does nothing, in terms of the state before. */
  lemma NextFollows(s: State, env: Env, i: nat, status: nat)
    requires WF(s) && i < SLOT_MAX && s.slots[i].inflight.Some? && env.react(|s.hist|) == []
    requires s.slots[i].q != [] && LinkTakes(s, env, i)
    ensures Finish(s, env, i, status).slots[i].inflight == Some(s.slots[i].q[0])
  {
    SameLink(s, Finished(s, i, status), env, i);
    CompletionStartsNext(s, env, i, status);
  }

  // ---- the sweep -------------------------------------------------------------

  /** A place of the table holds what it did, nothing, or a request registered since. */
  ghost predicate OnlyNew(s: State, t: State) {
    && |t.dx.table| == |s.dx.table| && |s.hist| <= |t.hist|
    && forall j :: 0 <= j < |s.dx.table| ==>
         t.dx.table[j] == s.dx.table[j] || t.dx.table[j].Free? || t.dx.table[j].at >= |s.hist|
  }

  lemma MoveOnlyNew(s: State, env: Env, m: Move)
    requires Can(s, m)
    ensures OnlyNew(s, Make(s, env, m))
  {
    hide SlotShape;
    match m
    case MResend(i) => assert SlotShape(s.slots[i]);
    case _ =>
  }

  lemma {:induction false} PathOnlyNew(s: State, env: Env, ms: seq<Move>, t: State)
    requires Path(s, env, ms, t)
    ensures OnlyNew(s, t)
    decreases |ms|
  {
    if ms != [] {
      hide Make;
      MoveOnlyNew(s, env, ms[0]);
      PathOnlyNew(Make(s, env, ms[0]), env, ms[1..], t);
    }
  }

  /** Other requests are not touched by the resolution of entry `j`. */
  lemma ResolveSpares(s: State, env: Env, j: nat, status: nat, k: nat)
    requires WF(s) && j < PENDING_MAX && s.dx.table[j].Used? && k < PENDING_MAX
    ensures OnlyNew(Freed(s, j), Resolve(s, env, j, status)) && |Resolve(s, env, j, status).hist| >= |s.hist|
    ensures k != j && s.dx.table[k].Used? ==> Resolve(s, env, j, status).dx.table[k] == s.dx.table[k]
  {
    ResolveAdvances(s, env, j, status, 0);
    var e, f := s.dx.table[j], Freed(s, j);
    match e.owner {
      case ShellOwner(tag) =>
        var d := f.(hist := s.hist + [ShellDone(tag, e.rid, status)]);
        var ms := PerformPath(d, env, env.react(|s.hist|));
        PathOnlyNew(d, env, ms, Resolve(s, env, j, status));
      case SlotOwner(i) =>
        if f.slots[i].inflight.Some? && e.rid == f.slots[i].rid {
          var ms := FinishPath(f, env, i, status);
          PathOnlyNew(f, env, ms, Resolve(s, env, j, status));
        }
    }
  }

  /** Behind the sweep's index the old request is gone for good. */
  lemma {:induction false} SweptAway(s: State, env: Env, now: u64, timeoutMs: nat, k: nat, j: nat, e: Entry)
    requires WF(s) && k <= PENDING_MAX && j < k && e.Used? && e.at < |s.hist| && s.dx.table[j] != e
    ensures SweepFrom(s, env, now, timeoutMs, k).dx.table[j] != e
    decreases PENDING_MAX - k
  {
    hide Resolve;
    if k < PENDING_MAX {
      if Overdue(s.dx.table[k], now, timeoutMs) { ResolveSpares(s, env, k, STATUS_TIMEOUT, j); }
      SweptAway(SweepStep(s, env, now, timeoutMs, k), env, now, timeoutMs, k + 1, j, e);
    }
  }

  lemma {:induction false} StaysPut(s: State, env: Env, now: u64, timeoutMs: nat, k: nat, j: nat)
    requires WF(s) && k <= PENDING_MAX && j < PENDING_MAX
    requires s.dx.table[j].Used? && !Overdue(s.dx.table[j], now, timeoutMs)
    ensures SweepFrom(s, env, now, timeoutMs, k).dx.table[j] == s.dx.table[j]
    decreases PENDING_MAX - k
  {
    hide Resolve;
    if k < PENDING_MAX {
      if Overdue(s.dx.table[k], now, timeoutMs) { ResolveSpares(s, env, k, STATUS_TIMEOUT, j); }
      StaysPut(SweepStep(s, env, now, timeoutMs, k), env, now, timeoutMs, k + 1, j);
    }
  }

  lemma {:induction false} SweepDecides(s: State, env: Env, now: u64, timeoutMs: nat, k: nat, j: nat)
    requires WF(s) && k <= j < PENDING_MAX && s.dx.table[j].Used? && s.dx.table[j].at < |s.hist|
    ensures SweepFrom(s, env, now, timeoutMs, k).dx.table[j] == s.dx.table[j] <==> !Overdue(s.dx.table[j], now, timeoutMs)
    decreases j - k
  {
    hide Resolve;
    var e, t := s.dx.table[j], SweepStep(s, env, now, timeoutMs, k);
    if !Overdue(e, now, timeoutMs) {
      StaysPut(s, env, now, timeoutMs, k, j);
    } else if k == j {
      ResolveSpares(s, env, k, STATUS_TIMEOUT, j);
      SweptAway(t, env, now, timeoutMs, k + 1, j, e);
    } else {
      if Overdue(s.dx.table[k], now, timeoutMs) { ResolveSpares(s, env, k, STATUS_TIMEOUT, j); }
      SweepDecides(t, env, now, timeoutMs, k + 1, j);
    }
  }

  /**
   In any state of any execution, the sweep resolves exactly the pending requests that are as old as the timeout:
   each of the others is still where it was, whatever the callbacks did. A timeout of 0 disables it.
   */
  lemma SweepExactly(s: State, env: Env, now: u64, timeoutMs: nat, j: nat)
    requires Coupled(s) && j < PENDING_MAX && s.dx.table[j].Used?
    ensures var e := s.dx.table[j];
      DemuxPoll(s, env, now, timeoutMs).dx.table[j] == e <==> timeoutMs == 0 || Elapsed(now, e.sentMs) < timeoutMs
  {
    assert Born(s.hist, s.dx.table[j]);
    if timeoutMs > 0 { SweepDecides(s, env, now, timeoutMs, 0, j); }
  }

  // ---- the reset -------------------------------------------------------------

  /** From `s` to `t` no slot came into use, and what was reported was reported with `status`. */
  ghost predicate Aborts(s: State, t: State, status: nat) {
    && |t.slots| == |s.slots| && Extends(s.hist, t.hist)
    && (forall i :: 0 <= i < |s.slots| && t.slots[i].inUse ==> s.slots[i].inUse)
    && forall x :: |s.hist| <= x < |t.hist| && t.hist[x].Done? ==> t.hist[x].status == status
  }

  lemma AbortsTrans(s: State, t: State, u: State, status: nat)
    requires Aborts(s, t, status) && Aborts(t, u, status)
    ensures Aborts(s, u, status)
  {
    assert u.hist[..|s.hist|] == u.hist[..|t.hist|][..|s.hist|];
    assert forall x :: 0 <= x < |t.hist| ==> u.hist[x] == u.hist[..|t.hist|][x];
  }

  lemma {:induction false} PerformAborts(s: State, env: Env, acts: seq<Action>, status: nat)
    requires WF(s)
    ensures Aborts(s, Perform(s, env, acts), status)
  {
    hide Act, Pump;
    PerformQuiet(s, env, acts);
    PerformInUse(s, env, acts);
  }

  lemma {:induction false} PerformInUse(s: State, env: Env, acts: seq<Action>)
    requires WF(s)
    ensures forall i :: 0 <= i < SLOT_MAX ==> Perform(s, env, acts).slots[i].inUse == s.slots[i].inUse
    decreases |acts|
  {
    hide Act;
    if acts != [] {
      ActInUse(s, env, acts[0]);
      PerformInUse(Act(s, env, acts[0]), env, acts[1..]);
    }
  }

  lemma ActInUse(s: State, env: Env, a: Action)
    requires WF(s)
    ensures forall i :: 0 <= i < SLOT_MAX ==> Act(s, env, a).slots[i].inUse == s.slots[i].inUse
  {
    hide SlotShape, Send;
  }

  lemma {:induction false} DrainAborts(s: State, env: Env, i: nat, status: nat, limit: nat)
    requires WF(s) && i < SLOT_MAX
    ensures Aborts(s, Drain(s, env, i, status, limit).s, status)
    decreases limit
  {
    hide Perform, Aborts;
    if s.slots[i].q != [] && limit > 0 {
      var t := AbortFront(s, env, i, status);
      FrontAborts(s, env, i, status);
      DrainAborts(t, env, i, status, limit - 1);
      AbortsTrans(s, t, Drain(t, env, i, status, limit - 1).s, status);
    } else {
      AbortsNothing(s, status);
    }
  }

  lemma AbortsNothing(s: State, status: nat)
    ensures Aborts(s, s, status)
  {}

  lemma FrontAborts(s: State, env: Env, i: nat, status: nat)
    requires WF(s) && i < SLOT_MAX && s.slots[i].q != []
    ensures Aborts(s, AbortFront(s, env, i, status), status)
  {
    hide Perform, SlotShape;
    var d := s.(hist := s.hist + [Done(s.slots[i].addr, s.slots[i].q[0].handle, status)]);
    var acts := env.abort(|s.hist|, s.slots[i].addr);
    PerformAborts(d, env, acts, status);
    AbortsTrans(s, d, Perform(d, env, acts), status);
  }

  lemma ResetSlotAborts(s: State, env: Env, i: nat, status: nat, limit: nat)
    requires WF(s) && i < SLOT_MAX
    ensures var r := ResetSlot(s, env, i, status, limit); Aborts(s, r.s, status) && (r.ended ==> !r.s.slots[i].inUse)
  {
    hide Perform, Drain, SlotShape;
    if s.slots[i].inUse {
      var f := Released(s, env, i, status);
      if s.slots[i].inflight.Some? {
        var d := Finished(s, i, status);
        PerformAborts(d, env, env.abort(|s.hist|, s.slots[i].addr), status);
        AbortsTrans(s, d, f, status);
      } else {
        AbortsNothing(s, status);
      }
      DrainAborts(f, env, i, status, limit);
      AbortsTrans(s, f, Drain(f, env, i, status, limit).s, status);
    } else {
      AbortsNothing(s, status);
    }
  }

  /**
   After a reset that ended no slave is registered, and everything it reported, callbacks included, it reported
   with the status it was given.
   */
  lemma {:induction false} ResetClears(s: State, env: Env, i: nat, status: nat, limit: nat)
    requires WF(s) && i <= SLOT_MAX && forall k :: 0 <= k < i ==> !s.slots[k].inUse
    ensures var r := ResetFrom(s, env, i, status, limit);
      Aborts(s, r.s, status) && (r.ended ==> forall k :: 0 <= k < SLOT_MAX ==> r.s.slots[k] == CLEARED_SLOT)
    decreases SLOT_MAX - i
  {
    hide ResetSlot;
    if i < SLOT_MAX {
      var r := ResetSlot(s, env, i, status, limit);
      ResetSlotAborts(s, env, i, status, limit);
      if r.ended {
        ResetClears(r.s, env, i + 1, status, limit);
        AbortsTrans(s, r.s, ResetFrom(r.s, env, i + 1, status, limit).s, status);
      }
    } else {
      AbortsNothing(s, status);
      forall k | 0 <= k < SLOT_MAX ensures s.slots[k] == CLEARED_SLOT { assert SlotShape(s.slots[k]); }
    }
  }
}
