/**
 Every call of the bus command stack, callbacks and loops included, is a sequence of elementary moves. What
 each move keeps, every call keeps; so a property of whole executions needs one look at each move.
 */
module BusMoves {
  import opened Options
  import opened BusTypes
  import opened BusModel

  datatype Move =
    | MPump(slot: nat)
    | MResend(slot: nat)
    | MEnqueue(slot: nat, req: Request)
    | MFinish(slot: nat, status: nat)
    | MFree(entry: nat)
    | MShell(tag: nat, argsLen: nat)
    | MTold(tag: nat, rid: nat, status: nat)
    | MClock(now: u64)
    | MLink(up: bool)
    | MReport(slot: nat, status: nat)
    | MDrop(slot: nat)
    | MClear(slot: nat)

  predicate Can(s: State, m: Move) {
    WF(s) &&
    match m
    case MPump(i) => i < SLOT_MAX
    case MResend(i) => i < SLOT_MAX && s.slots[i].phase.Sent? && s.slots[i].inUse && s.slots[i].retries < MAX_ACK_RETRIES
    case MEnqueue(i, req) =>
      i < SLOT_MAX && s.slots[i].inUse && |s.slots[i].q| < CMD_QUEUE_DEPTH && req.argsLen <= CMD_ARG_MAX
    case MFinish(i, _) => i < SLOT_MAX && s.slots[i].inflight.Some?
    case MFree(j) => j < PENDING_MAX
    case MReport(i, _) => i < SLOT_MAX && s.slots[i].q != []
    case MDrop(i) => i < SLOT_MAX
    case MClear(i) => i < SLOT_MAX
    case _ => true
  }

  function Make(s: State, env: Env, m: Move): (t: State)
    requires Can(s, m)
    ensures WF(t)
  {
    match m
    case MPump(i) => Pump(s, env, i)
    case MResend(i) => Resend(s, env, i)
    case MEnqueue(i, req) => Enqueue(s, i, req)
    case MFinish(i, status) => Finished(s, i, status)
    case MFree(j) => Freed(s, j)
    case MShell(tag, argsLen) => SendShell(s, env, tag, argsLen)
    case MTold(tag, rid, status) => s.(hist := s.hist + [ShellDone(tag, rid, status)])
    case MClock(now) => s.(now := now)
    case MLink(up) => s.(dx := s.dx.(up := up))
    case MReport(i, status) => s.(hist := s.hist + [Done(s.slots[i].addr, s.slots[i].q[0].handle, status)])
    case MDrop(i) =>
      s.(slots := s.slots[i := s.slots[i].(q := if s.slots[i].q == [] then [] else s.slots[i].q[1..])])
    case MClear(i) => s.(slots := s.slots[i := CLEARED_SLOT])
  }

  /** The moves lead from `s` to `t`. */
  ghost predicate Path(s: State, env: Env, ms: seq<Move>, t: State)
    decreases |ms|
  {
    if ms == [] then t == s else Can(s, ms[0]) && Path(Make(s, env, ms[0]), env, ms[1..], t)
  }

  lemma {:induction false} PathJoin(s: State, env: Env, ms: seq<Move>, t: State, ns: seq<Move>, u: State)
    requires Path(s, env, ms, t) && Path(t, env, ns, u)
    ensures Path(s, env, ms + ns, u)
    decreases |ms|
  {
    if ms == [] {
      assert ms + ns == ns;
    } else {
      PathJoin(Make(s, env, ms[0]), env, ms[1..], t, ns, u);
      assert (ms + ns)[1..] == ms[1..] + ns;
    }
  }

  lemma PathOne(s: State, env: Env, m: Move)
    requires Can(s, m)
    ensures Path(s, env, [m], Make(s, env, m))
  {
    assert [m][1..] == [];
    assert Path(Make(s, env, m), env, [], Make(s, env, m));
  }

  lemma PathFirst(s: State, env: Env, m: Move, ms: seq<Move>, t: State)
    requires Can(s, m) && Path(Make(s, env, m), env, ms, t)
    ensures Path(s, env, [m] + ms, t)
  {
    PathOne(s, env, m);
    PathJoin(s, env, [m], Make(s, env, m), ms, t);
  }

  lemma PathLast(s: State, env: Env, ms: seq<Move>, t: State, m: Move)
    requires Path(s, env, ms, t) && Can(t, m)
    ensures Path(s, env, ms + [m], Make(t, env, m))
  {
    PathOne(t, env, m);
    PathJoin(s, env, ms, t, [m], Make(t, env, m));
  }

  // ---- what calls are made of ------------------------------------------------

  /** What a callback does, and the pump after it. */
  predicate Plain(m: Move) { m.MPump? || m.MEnqueue? || m.MShell? }

  /** Only a reset does this. */
  predicate OfReset(m: Move) { m.MReport? || m.MDrop? || m.MClear? }

  lemma {:induction false} PerformPath(s: State, env: Env, acts: seq<Action>) returns (ms: seq<Move>)
    requires WF(s)
    ensures Path(s, env, ms, Perform(s, env, acts)) && forall m :: m in ms ==> Plain(m)
    decreases |acts|
  {
    hide Pump, SendShell, SlotShape, Enqueue;
    ms := [];
    if acts != [] {
      var t := Act(s, env, acts[0]);
      var rest := PerformPath(t, env, acts[1..]);
      var first: seq<Move> := [];
      match acts[0] {
        case DoShell(tag, argsLen) =>
          first := [MShell(tag, argsLen)];
          PathOne(s, env, MShell(tag, argsLen));
        case DoSubmit(addr, req) =>
          var i := SlotFor(s.slots, addr);
          if !(req.argsLen > CMD_ARG_MAX || i == |s.slots| || |s.slots[i].q| >= CMD_QUEUE_DEPTH) {
            first := [MEnqueue(i, req)] + [MPump(i)];
            PathOne(Enqueue(s, i, req), env, MPump(i));
            PathFirst(s, env, MEnqueue(i, req), [MPump(i)], t);
          }
      }
      PathJoin(s, env, first, t, rest, Perform(t, env, acts[1..]));
      ms := first + rest;
    }
  }

  lemma FinishPath(s: State, env: Env, i: nat, status: nat) returns (ms: seq<Move>)
    requires WF(s) && i < SLOT_MAX && s.slots[i].inflight.Some?
    ensures Path(s, env, ms, Finish(s, env, i, status))
    ensures forall m :: m in ms ==> Plain(m) || m == MFinish(i, status)
  {
    hide Perform, Pump, SlotShape;
    var f := Finished(s, i, status);
    var p := Perform(f, env, env.react(|s.hist|));
    var acts := PerformPath(f, env, env.react(|s.hist|));
    PathLast(f, env, acts, p, MPump(i));
    PathFirst(s, env, MFinish(i, status), acts + [MPump(i)], Pump(p, env, i));
    ms := [MFinish(i, status)] + (acts + [MPump(i)]);
  }

  /** What the demux does when it resolves a request, and what follows from it. */
  predicate OfResolve(m: Move) { Plain(m) || m.MFree? || m.MTold? || m.MFinish? }

  lemma ResolvePath(s: State, env: Env, j: nat, status: nat) returns (ms: seq<Move>)
    requires WF(s) && j < PENDING_MAX && s.dx.table[j].Used?
    ensures Path(s, env, ms, Resolve(s, env, j, status)) && forall m :: m in ms ==> OfResolve(m)
  {
    hide Perform, Finish, SlotShape;
    var e, f := s.dx.table[j], Freed(s, j);
    match e.owner {
      case ShellOwner(tag) =>
        var d := f.(hist := s.hist + [ShellDone(tag, e.rid, status)]);
        var acts := PerformPath(d, env, env.react(|s.hist|));
        var t := Perform(d, env, env.react(|s.hist|));
        PathFirst(f, env, MTold(tag, e.rid, status), acts, t);
        PathFirst(s, env, MFree(j), [MTold(tag, e.rid, status)] + acts, t);
        ms := [MFree(j)] + ([MTold(tag, e.rid, status)] + acts);
      case SlotOwner(i) =>
        if f.slots[i].inflight.None? || e.rid != f.slots[i].rid {
          ms := [MFree(j)];
          PathOne(s, env, MFree(j));
        } else {
          var rest := FinishPath(f, env, i, status);
          PathFirst(s, env, MFree(j), rest, Finish(f, env, i, status));
          ms := [MFree(j)] + rest;
        }
    }
  }

  lemma {:induction false} DownPath(s: State, env: Env, j: nat) returns (ms: seq<Move>)
    requires WF(s) && j <= PENDING_MAX
    ensures Path(s, env, ms, DownFrom(s, env, j)) && forall m :: m in ms ==> OfResolve(m)
    decreases PENDING_MAX - j
  {
    hide Resolve;
    ms := [];
    if j < PENDING_MAX {
      var t := s;
      if s.dx.table[j].Used? {
        t := Resolve(s, env, j, STATUS_LINK_DOWN);
        ms := ResolvePath(s, env, j, STATUS_LINK_DOWN);
      }
      var rest := DownPath(t, env, j + 1);
      PathJoin(s, env, ms, t, rest, DownFrom(t, env, j + 1));
      ms := ms + rest;
    }
  }

  lemma {:induction false} SweepPath(s: State, env: Env, now: u64, timeoutMs: nat, j: nat) returns (ms: seq<Move>)
    requires WF(s) && j <= PENDING_MAX
    ensures Path(s, env, ms, SweepFrom(s, env, now, timeoutMs, j)) && forall m :: m in ms ==> OfResolve(m)
    decreases PENDING_MAX - j
  {
    hide Resolve;
    ms := [];
    if j < PENDING_MAX {
      var t := SweepStep(s, env, now, timeoutMs, j);
      if Overdue(s.dx.table[j], now, timeoutMs) { ms := ResolvePath(s, env, j, STATUS_TIMEOUT); }
      var rest := SweepPath(t, env, now, timeoutMs, j + 1);
      PathJoin(s, env, ms, t, rest, SweepFrom(t, env, now, timeoutMs, j + 1));
      ms := ms + rest;
    }
  }

  /** What a poll, or a NAK, does for slot `i`. */
  predicate OfSlot(m: Move, i: nat) { Plain(m) || m == MResend(i) || (m.MFinish? && m.slot == i) }

  lemma RetryPath(s: State, env: Env, i: nat, giveUp: nat) returns (ms: seq<Move>)
    requires WF(s) && i < SLOT_MAX && s.slots[i].phase.Sent? && s.slots[i].inUse
    ensures Path(s, env, ms, Retry(s, env, i, giveUp)) && forall m :: m in ms ==> OfSlot(m, i)
  {
    hide Finish, Resend;
    if s.slots[i].retries < MAX_ACK_RETRIES {
      ms := [MResend(i)];
      PathOne(s, env, MResend(i));
    } else {
      ms := FinishPath(s, env, i, giveUp);
    }
  }

  lemma PollSlotPath(s: State, env: Env, i: nat) returns (ms: seq<Move>)
    requires WF(s) && i < SLOT_MAX
    ensures Path(s, env, ms, PollSlot(s, env, i)) && forall m :: m in ms ==> OfSlot(m, i)
  {
    hide Finish, Retry, Pump;
    ms := [];
    var slot := s.slots[i];
    if slot.inUse {
      match slot.phase {
        case Sent => if Elapsed(s.now, slot.sentMs) >= ACK_TIMEOUT_MS { ms := RetryPath(s, env, i, STATUS_TIMEOUT); }
        case Inflight =>
          if Elapsed(s.now, slot.ackMs) >= slot.inflight.value.req.execTimeout + EXEC_MARGIN_MS {
            ms := FinishPath(s, env, i, STATUS_TIMEOUT);
          }
        case Idle =>
          ms := [MPump(i)];
          PathOne(s, env, MPump(i));
      }
    }
  }

  lemma {:induction false} PollPath(s: State, env: Env, i: nat) returns (ms: seq<Move>)
    requires WF(s) && i <= SLOT_MAX
    ensures Path(s, env, ms, PollFrom(s, env, i)) && forall m :: m in ms ==> !OfReset(m)
    decreases SLOT_MAX - i
  {
    hide PollSlot;
    ms := [];
    if i < SLOT_MAX {
      var first := PollSlotPath(s, env, i);
      var t := PollSlot(s, env, i);
      var rest := PollPath(t, env, i + 1);
      PathJoin(s, env, first, t, rest, PollFrom(t, env, i + 1));
      ms := first + rest;
    }
  }

  lemma AbortFrontPath(s: State, env: Env, i: nat, status: nat) returns (ms: seq<Move>)
    requires WF(s) && i < SLOT_MAX && s.slots[i].q != []
    ensures Path(s, env, ms, AbortFront(s, env, i, status))
  {
    hide Perform, SlotShape;
    var d := s.(hist := s.hist + [Done(s.slots[i].addr, s.slots[i].q[0].handle, status)]);
    var p := Perform(d, env, env.abort(|s.hist|, s.slots[i].addr));
    var acts := PerformPath(d, env, env.abort(|s.hist|, s.slots[i].addr));
    PathLast(d, env, acts, p, MDrop(i));
    PathFirst(s, env, MReport(i, status), acts + [MDrop(i)], AbortFront(s, env, i, status));
    ms := [MReport(i, status)] + (acts + [MDrop(i)]);
  }

  lemma {:induction false} DrainPath(s: State, env: Env, i: nat, status: nat, limit: nat) returns (ms: seq<Move>)
    requires WF(s) && i < SLOT_MAX
    ensures Path(s, env, ms, Drain(s, env, i, status, limit).s)
    decreases limit
  {
    hide AbortFront;
    ms := [];
    if s.slots[i].q != [] && limit > 0 {
      var t := AbortFront(s, env, i, status);
      var first := AbortFrontPath(s, env, i, status);
      var rest := DrainPath(t, env, i, status, limit - 1);
      PathJoin(s, env, first, t, rest, Drain(t, env, i, status, limit - 1).s);
      ms := first + rest;
    }
  }

  lemma ResetSlotPath(s: State, env: Env, i: nat, status: nat, limit: nat) returns (ms: seq<Move>)
    requires WF(s) && i < SLOT_MAX
    ensures Path(s, env, ms, ResetSlot(s, env, i, status, limit).s)
  {
    hide Perform, Drain, SlotShape;
    ms := [];
    if s.slots[i].inUse {
      var f := s;
      if s.slots[i].inflight.Some? {
        var d := Finished(s, i, status);
        f := Perform(d, env, env.abort(|s.hist|, s.slots[i].addr));
        var acts := PerformPath(d, env, env.abort(|s.hist|, s.slots[i].addr));
        PathFirst(s, env, MFinish(i, status), acts, f);
        ms := [MFinish(i, status)] + acts;
      }
      var d := Drain(f, env, i, status, limit);
      var rest := DrainPath(f, env, i, status, limit);
      PathJoin(s, env, ms, f, rest, d.s);
      ms := ms + rest;
      if d.ended {
        PathLast(s, env, ms, d.s, MClear(i));
        ms := ms + [MClear(i)];
      }
    }
  }

  lemma {:induction false} ResetPath(s: State, env: Env, i: nat, status: nat, limit: nat) returns (ms: seq<Move>)
    requires WF(s) && i <= SLOT_MAX
    ensures Path(s, env, ms, ResetFrom(s, env, i, status, limit).s)
    decreases SLOT_MAX - i
  {
    hide ResetSlot;
    ms := [];
    if i < SLOT_MAX {
      var r := ResetSlot(s, env, i, status, limit);
      ms := ResetSlotPath(s, env, i, status, limit);
      if r.ended {
        var rest := ResetPath(r.s, env, i + 1, status, limit);
        PathJoin(s, env, ms, r.s, rest, ResetFrom(r.s, env, i + 1, status, limit).s);
        ms := ms + rest;
      }
    }
  }

  /** The calls that only change one slot's flags. */
  predicate Marks(op: Op) { op.OpAck? || op.OpFlagged? || op.OpAddSlave? }

  /** Every other call is a sequence of moves, and only a reset reports, drops and clears. */
  lemma StepPath(s: State, env: Env, op: Op) returns (ms: seq<Move>)
    requires WF(s) && !Marks(op)
    ensures Path(s, env, ms, Step(s, env, op))
    ensures !op.OpReset? ==> forall m :: m in ms ==> !OfReset(m)
  {
    hide Resolve, DownFrom, SweepFrom, PollFrom, ResetFrom, Retry, Perform, SlotShape, SendShell, Pump, Enqueue;
    ms := [];
    match op
    case OpSubmit(addr, req) => ms := SubmitPath(s, env, addr, req);
    case OpShell(tag, argsLen) =>
      ms := [MShell(tag, argsLen)];
      PathOne(s, env, ms[0]);
    case OpReply(rid, status) =>
      var j := FindRid(s.dx.table, rid, 0);
      if j < |s.dx.table| { ms := ResolvePath(s, env, j, status); }
    case OpLink(up) =>
      var s1 := s.(dx := s.dx.(up := up));
      if up {
        ms := [MLink(up)];
        PathOne(s, env, MLink(up));
      } else {
        var rest := DownPath(s1, env, 0);
        PathFirst(s, env, MLink(up), rest, DownFrom(s1, env, 0));
        ms := [MLink(up)] + rest;
      }
    case OpDemuxPoll(mono, timeoutMs) => if timeoutMs > 0 { ms := SweepPath(s, env, mono, timeoutMs, 0); }
    case OpPoll(now) =>
      var rest := PollPath(s.(now := now), env, 0);
      PathFirst(s, env, MClock(now), rest, Poll(s, env, now));
      ms := [MClock(now)] + rest;
    case OpNak(addr, rid) =>
      var i := SlotFor(s.slots, addr);
      if Awaits(s, i, rid) { ms := RetryPath(s, env, i, STATUS_BUSY); }
    case OpReset(status, limit) => ms := ResetPath(s, env, 0, status, limit);
  }

  lemma SubmitPath(s: State, env: Env, addr: nat, req: Request) returns (ms: seq<Move>)
    requires WF(s)
    ensures Path(s, env, ms, Submit(s, env, addr, req).s) && forall m :: m in ms ==> Plain(m)
  {
    hide Pump, Enqueue, SlotShape;
    ms := PerformPath(s, env, [DoSubmit(addr, req)]);
    assert [DoSubmit(addr, req)][1..] == [];
    assert Perform(s, env, [DoSubmit(addr, req)]) == Act(s, env, DoSubmit(addr, req));
  }
}
