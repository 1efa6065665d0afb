/**
 What an ACK, a NAK and a missed deadline do: the awaited ACK ends transmission for good and grants the slave
 its execution time; a NAK or a missed ACK costs one of three attempts, and the last one ends the command.
 */
module BusAck {
  import opened Options
  import opened BusTypes
  import opened BusModel
  import opened BusInvariant
  import opened BusCoupling
  import opened BusMoves
  import opened BusTheorems
  import opened BusTrip

  /** The ACK is the one slot `i` of the slave at `a` waits for. */
  predicate Awaited(s: State, a: nat, rid: nat, i: nat) {
    && i < |s.slots| == SLOT_MAX && Matches(s.slots[i], a)
    && s.slots[i].phase.Sent? && s.slots[i].rid == rid && s.slots[i].inflight.Some?
  }

  /** The awaited ACK makes the slot INFLIGHT from this moment; any other ACK changes nothing. */
  lemma AckTakes(s: State, a: nat, rid: nat)
    requires WF(s) && DistinctAddrs(s.slots)
    ensures forall i: nat :: Awaited(s, a, rid, i) ==>
      OnAck(s, a, rid) == s.(slots := s.slots[i := s.slots[i].(phase := Inflight, ackMs := s.now, retries := 0)],
                             acks := s.acks + 1)
    ensures (forall i: nat :: !Awaited(s, a, rid, i)) ==> OnAck(s, a, rid) == s
  {
    var k := SlotFor(s.slots, a);
    if k < |s.slots| { assert SlotShape(s.slots[k]); }
    assert Awaits(s, k, rid) ==> Awaited(s, a, rid, k);
  }

  // ---- no frame after the ACK ------------------------------------------------

  /** The command `h` of `a` is neither queued nor waiting for an ACK there, and its handle is not to come. */
  ghost predicate Spent(s: State, a: nat, h: nat) {
    h < s.nextHandle && forall i :: 0 <= i < |s.slots| && Matches(s.slots[i], a) ==> SlotSpent(s.slots[i], h)
  }

  predicate SlotSpent(x: Slot, h: nat) {
    && (forall k :: 0 <= k < |x.q| ==> x.q[k].handle != h)
    && (x.inflight.Some? && x.inflight.value.handle == h ==> !x.phase.Sent?)
  }

  /** Once it is, it stays so, and no frame of it goes out. */
  ghost predicate Silences(s: State, t: State, a: nat, h: nat) {
    && Extends(s.hist, t.hist)
    && (Spent(s, a, h) ==>
          Spent(t, a, h) && forall x :: |s.hist| <= x < |t.hist| ==> !IsFrame(t.hist[x], a, h))
  }

  lemma SilencesTrans(s: State, t: State, u: State, a: nat, h: nat)
    requires Silences(s, t, a, h) && Silences(t, u, a, h)
    ensures Silences(s, u, a, h)
  {
    hide Spent;
    assert u.hist[..|s.hist|] == u.hist[..|t.hist|][..|s.hist|];
    assert forall x :: 0 <= x < |t.hist| ==> u.hist[x] == u.hist[..|t.hist|][x];
  }

  /** A step of slot `i` alone. */
  lemma SlotSilences(s: State, t: State, i: nat, a: nat, h: nat)
    requires i < |s.slots| == |t.slots| && t.slots == s.slots[i := t.slots[i]] && t.nextHandle >= s.nextHandle
    requires Extends(s.hist, t.hist)
    requires Spent(s, a, h) && Matches(t.slots[i], a) ==> SlotSpent(t.slots[i], h)
    requires Spent(s, a, h) ==> forall x :: |s.hist| <= x < |t.hist| ==> !IsFrame(t.hist[x], a, h)
    ensures Silences(s, t, a, h)
  {
    if Spent(s, a, h) {
      forall k | 0 <= k < |t.slots| && Matches(t.slots[k], a)
        ensures SlotSpent(t.slots[k], h)
      {
        if k != i { assert Matches(s.slots[k], a); }
      }
    }
  }

  lemma PumpSilences(s: State, env: Env, i: nat, a: nat, h: nat)
    requires WF(s) && i < SLOT_MAX
    ensures Silences(s, Pump(s, env, i), a, h)
  {
    var slot, t := s.slots[i], Pump(s, env, i);
    if !slot.faulted && slot.phase.Idle? && slot.q != [] {
      assert SlotShape(slot);
      hide Send, SlotShape;
      TransmitFacts(s.(slots := s.slots[i := slot.(retries := 0)]), env, i, slot.q[0]);
      assert Spent(s, a, h) && slot.addr == a ==> Matches(slot, a);
      assert t.slots[i].q != slot.q ==> forall k :: 0 <= k < |t.slots[i].q| ==> t.slots[i].q[k] == slot.q[k + 1];
      FrameIs(s, env, i, slot.q[0]);
      SlotSilences(s, t, i, a, h);
    } else {
      assert t.slots == s.slots[i := t.slots[i]];
      SlotSilences(s, t, i, a, h);
    }
  }

  /** The one frame a transmission can add. */
  lemma FrameIs(s: State, env: Env, i: nat, c: Cmd)
    requires WF(s) && i < SLOT_MAX
    ensures var r := Transmit(s.(slots := s.slots[i := s.slots[i].(retries := 0)]), env, i, c).s;
      forall x :: |s.hist| <= x < |r.hist| ==> IsFrame(r.hist[x], s.slots[i].addr, c.handle)
  {}

  lemma ResendSilences(s: State, env: Env, i: nat, a: nat, h: nat)
    requires Can(s, MResend(i))
    ensures Silences(s, Resend(s, env, i), a, h)
  {
    var slot, t := s.slots[i], Resend(s, env, i);
    assert SlotShape(slot);
    hide Send, SlotShape;
    var s1 := s.(slots := s.slots[i := slot.(retries := slot.retries + 1)]);
    TransmitFacts(s1, env, i, slot.inflight.value);
    assert Spent(s, a, h) && slot.addr == a ==> Matches(slot, a) && SlotSpent(slot, h);
    SlotSilences(s, t, i, a, h);
  }

  lemma MoveSilences(s: State, env: Env, m: Move, a: nat, h: nat)
    requires Can(s, m)
    ensures Silences(s, Make(s, env, m), a, h)
  {
    hide Pump, Resend, SlotShape;
    var t := Make(s, env, m);
    match m {
      case MPump(i) => PumpSilences(s, env, i, a, h);
      case MResend(i) => ResendSilences(s, env, i, a, h);
      case MEnqueue(i, req) => SlotSilences(s, t, i, a, h);
      case MFinish(i, status) => SlotSilences(s, t, i, a, h);
      case MDrop(i) => SlotSilences(s, t, i, a, h);
      case MClear(i) => SlotSilences(s, t, i, a, h);
      case _ =>
    }
  }

  lemma {:induction false} PathSilences(s: State, env: Env, ms: seq<Move>, t: State, a: nat, h: nat)
    requires Path(s, env, ms, t)
    ensures Silences(s, t, a, h)
    decreases |ms|
  {
    if ms != [] {
      hide Make, Silences;
      MoveSilences(s, env, ms[0], a, h);
      PathSilences(Make(s, env, ms[0]), env, ms[1..], t, a, h);
      SilencesTrans(s, Make(s, env, ms[0]), t, a, h);
    }
  }

  lemma StepSilences(s: State, env: Env, op: Op, a: nat, h: nat)
    requires WF(s)
    ensures Silences(s, Step(s, env, op), a, h)
  {
    hide Pump, SlotShape;
    var t := Step(s, env, op);
    if !Marks(op) {
      var ms := StepPath(s, env, op);
      PathSilences(s, env, ms, t, a, h);
    } else if op.OpFlagged? {
      var i := SlotFor(s.slots, op.addr);
      if i < |s.slots| {
        var s1 := FlagShape(s, i, op.flags % 2 == 1);
        SlotSilences(s, s1, i, a, h);
        PumpSilences(s1, env, i, a, h);
        SilencesTrans(s, s1, Pump(s1, env, i), a, h);
      }
    } else if op.OpAck? {
      var i := SlotFor(s.slots, op.addr);
      if Awaits(s, i, op.rid) { SlotSilences(s, t, i, a, h); }
    } else {
      var i := FirstUnused(s.slots, 0);
      if i < |s.slots| {
        assert t.slots == s.slots[i := t.slots[i]];
        SlotSilences(s, t, i, a, h);
      }
    }
  }

  /** The awaited ACK spends the command. */
  lemma AckSpends(s: State, a: nat, rid: nat, i: nat)
    requires Sound(s) && Awaited(s, a, rid, i)
    ensures Spent(OnAck(s, a, rid), a, s.slots[i].inflight.value.handle)
  {
    AckTakes(s, a, rid);
    assert Increasing(Owed(s.slots[i]), s.nextHandle);
    HeadDiffers(s.slots[i], s.nextHandle);
  }

  lemma AckIsStep(s: State, env: Env, a: nat, rid: nat)
    requires WF(s)
    ensures Step(s, env, OpAck(a, rid)) == OnAck(s, a, rid)
  {
    hide OnAck, WF;
  }

  /** In every execution, after the awaited ACK of a command no further frame of it goes out. */
  lemma {:induction false} NoFrameAfterAck(run: seq<State>, env: Env, ops: seq<Op>, j: nat, k: nat, i: nat)
    requires IsExecution(run, env, ops) && j < k < |run| && ops[j].OpAck? && Awaited(run[j], ops[j].addr, ops[j].rid, i)
    ensures var a, h := ops[j].addr, run[j].slots[i].inflight.value.handle;
      && Spent(run[k], a, h) && Extends(run[j].hist, run[k].hist)
      && forall x :: |run[j].hist| <= x < |run[k].hist| ==> !IsFrame(run[k].hist[x], a, h)
    decreases k
  {
    hide Step, Spent;
    var a, h := ops[j].addr, run[j].slots[i].inflight.value.handle;
    StepsTo(run, env, ops, k - 1);
    if k == j + 1 {
      AlwaysSound(run, env, ops, j);
      AckIsStep(run[j], env, a, ops[j].rid);
      AckTakes(run[j], a, ops[j].rid);
      AckSpends(run[j], a, ops[j].rid, i);
    } else {
      NoFrameAfterAck(run, env, ops, j, k - 1, i);
      StepSilences(run[k - 1], env, ops[k - 1], a, h);
      SilencesOn(run[j], run[k - 1], run[k], a, h);
    }
  }

  lemma SilencesOn(r: State, s: State, t: State, a: nat, h: nat)
    requires Extends(r.hist, s.hist) && Silences(s, t, a, h) && Spent(s, a, h)
    requires forall x :: |r.hist| <= x < |s.hist| ==> !IsFrame(s.hist[x], a, h)
    ensures Spent(t, a, h) && Extends(r.hist, t.hist)
    ensures forall x :: |r.hist| <= x < |t.hist| ==> !IsFrame(t.hist[x], a, h)
  {
    hide Spent;
    assert t.hist[..|r.hist|] == t.hist[..|s.hist|][..|r.hist|];
    assert forall x :: 0 <= x < |s.hist| ==> t.hist[x] == t.hist[..|s.hist|][x];
  }

  // ---- the time granted to the slave -----------------------------------------

  /** Slot `i` executes the command it did, since the same ACK. */
  predicate Executes(x: Slot, y: Slot) {
    x.phase.Inflight? ==>
      && y.inUse == x.inUse && y.addr == x.addr && y.phase == x.phase && y.inflight == x.inflight && y.ackMs == x.ackMs
  }

  /** Nothing happened to an executing command of slot `i`, and nothing was reported for it. */
  ghost predicate LeftAlone(s: State, t: State, i: nat) {
    && i < |s.slots| == |t.slots| && Executes(s.slots[i], t.slots[i]) && Extends(s.hist, t.hist)
    && (s.slots[i].phase.Inflight? && s.slots[i].inUse && DistinctAddrs(s.slots) ==>
          forall x :: |s.hist| <= x < |t.hist| ==> !(t.hist[x].Done? && t.hist[x].addr == s.slots[i].addr))
  }

  lemma LeftAloneTrans(s: State, t: State, u: State, i: nat)
    requires LeftAlone(s, t, i) && LeftAlone(t, u, i) && DistinctAddrs(t.slots)
    ensures LeftAlone(s, u, i)
  {
    assert u.hist[..|s.hist|] == u.hist[..|t.hist|][..|s.hist|];
    assert forall x :: 0 <= x < |t.hist| ==> u.hist[x] == u.hist[..|t.hist|][x];
  }

  /** The move is not the end of slot `i`'s command. */
  predicate Spares(m: Move, i: nat) { !OfReset(m) && !(m.MFinish? && m.slot == i) }

  lemma MoveLeavesAlone(s: State, env: Env, m: Move, i: nat)
    requires Can(s, m) && i < SLOT_MAX && Spares(m, i)
    ensures LeftAlone(s, Make(s, env, m), i)
    ensures DistinctAddrs(s.slots) ==> DistinctAddrs(Make(s, env, m).slots)
  {
    var t := Make(s, env, m);
    match m {
      case MPump(k) =>
        PumpQuiet(s, env, k);
        PumpKeepsGate(s, env, k);
      case MResend(k) => ResendQuiet(s, env, k);
      case MFinish(k, status) => assert SlotShape(s.slots[k]);
      case _ =>
    }
  }

  lemma ResendQuiet(s: State, env: Env, k: nat)
    requires Can(s, MResend(k))
    ensures var t := Resend(s, env, k);
      && OthersSame(s, t, k) && Extends(s.hist, t.hist) && forall x :: |s.hist| <= x < |t.hist| ==> t.hist[x].Transmitted?
  {
    assert SlotShape(s.slots[k]);
    hide SlotShape;
    var s1 := s.(slots := s.slots[k := s.slots[k].(retries := s.slots[k].retries + 1)]);
    TransmitFacts(s1, env, k, s.slots[k].inflight.value);
  }

  lemma {:induction false} PathLeavesAlone(s: State, env: Env, ms: seq<Move>, t: State, i: nat)
    requires Path(s, env, ms, t) && i < SLOT_MAX && |s.slots| == SLOT_MAX && DistinctAddrs(s.slots)
    requires forall m :: m in ms ==> Spares(m, i)
    ensures LeftAlone(s, t, i) && DistinctAddrs(t.slots)
    decreases |ms|
  {
    if ms != [] {
      hide Make, LeftAlone, DistinctAddrs;
      MoveLeavesAlone(s, env, ms[0], i);
      PathLeavesAlone(Make(s, env, ms[0]), env, ms[1..], t, i);
      LeftAloneTrans(s, Make(s, env, ms[0]), t, i);
    }
  }

  /** The slave has had less than its execution time when the clock shows `now`. */
  predicate InTime(x: Slot, now: u64) {
    x.phase.Inflight? && x.inflight.Some? ==> Elapsed(now, x.ackMs) < x.inflight.value.req.execTimeout + EXEC_MARGIN_MS
  }

  lemma {:induction false} PollLeavesAlone(s: State, env: Env, k: nat, i: nat)
    requires WF(s) && DistinctAddrs(s.slots) && k <= SLOT_MAX && i < SLOT_MAX
    requires s.slots[i].phase.Inflight? && InTime(s.slots[i], s.now)
    ensures var t := PollFrom(s, env, k); LeftAlone(s, t, i) && DistinctAddrs(t.slots)
    decreases SLOT_MAX - k
  {
    hide LeftAlone;
    if k < SLOT_MAX {
      var t := PollSlot(s, env, k);
      var ms: seq<Move> := [];
      if k != i { ms := PollSlotPath(s, env, k); } else { NotDue(s, env, i); }
      PathLeavesAlone(s, env, ms, t, i);
      StillExecutes(s, t, i);
      PollKeepsClock(s, env, k);
      PollLeavesAlone(t, env, k + 1, i);
      LeftAloneTrans(s, t, PollFrom(t, env, k + 1), i);
    } else {
      PathLeavesAlone(s, env, [], s, i);
    }
  }

  lemma StillExecutes(s: State, t: State, i: nat)
    requires LeftAlone(s, t, i) && s.slots[i].phase.Inflight?
    ensures t.slots[i].phase.Inflight? && t.slots[i].inflight == s.slots[i].inflight && t.slots[i].ackMs == s.slots[i].ackMs
  {}

  lemma NotDue(s: State, env: Env, i: nat)
    requires WF(s) && i < SLOT_MAX && s.slots[i].phase.Inflight? && InTime(s.slots[i], s.now)
    ensures PollSlot(s, env, i) == s
  {
    assert SlotShape(s.slots[i]);
  }

  lemma {:induction false} PathKeepsClock(s: State, env: Env, ms: seq<Move>, t: State)
    requires Path(s, env, ms, t) && forall m :: m in ms ==> !m.MClock?
    ensures t.now == s.now
    decreases |ms|
  {
    if ms != [] { PathKeepsClock(Make(s, env, ms[0]), env, ms[1..], t); }
  }

  lemma PollKeepsClock(s: State, env: Env, k: nat)
    requires WF(s) && k < SLOT_MAX
    ensures PollSlot(s, env, k).now == s.now
  {
    var ms := PollSlotPath(s, env, k);
    PathKeepsClock(s, env, ms, PollSlot(s, env, k));
  }

  /** Calls that can end a command other than by its deadline. */
  predicate Ends(op: Op) { op.OpReply? || op.OpDemuxPoll? || op.OpReset? || (op.OpLink? && !op.up) }

  lemma StepLeavesAlone(s: State, env: Env, op: Op, i: nat)
    requires Sound(s) && i < SLOT_MAX && s.slots[i].phase.Inflight? && !Ends(op)
    requires op.OpPoll? ==> InTime(s.slots[i], op.now)
    ensures LeftAlone(s, Step(s, env, op), i)
  {
    hide Pump, SlotShape, LeftAlone, PollFrom, Retry, Submit, SendShell, Ordered, Bounded;
    var t := Step(s, env, op);
    match op
    case OpSubmit(addr, req) =>
      var ms := SubmitPath(s, env, addr, req);
      PathLeavesAlone(s, env, ms, t, i);
    case OpShell(tag, argsLen) =>
      PathOne(s, env, MShell(tag, argsLen));
      PathLeavesAlone(s, env, [MShell(tag, argsLen)], t, i);
    case OpLink(up) =>
      PathOne(s, env, MLink(up));
      PathLeavesAlone(s, env, [MLink(up)], t, i);
    case OpPoll(now) =>
      var s1 := s.(now := now);
      PathOne(s, env, MClock(now));
      PathLeavesAlone(s, env, [MClock(now)], s1, i);
      PollLeavesAlone(s1, env, 0, i);
      LeftAloneTrans(s, s1, t, i);
    case OpNak(addr, rid) =>
      var k := SlotFor(s.slots, addr);
      var ms: seq<Move> := [];
      if Awaits(s, k, rid) { ms := RetryPath(s, env, k, STATUS_BUSY); }
      PathLeavesAlone(s, env, ms, t, i);
    case _ => MarkLeavesAlone(s, env, op, i);
  }

  lemma MarkLeavesAlone(s: State, env: Env, op: Op, i: nat)
    requires WF(s) && DistinctAddrs(s.slots) && i < SLOT_MAX && s.slots[i].phase.Inflight? && Marks(op)
    ensures LeftAlone(s, Step(s, env, op), i)
  {
    hide Pump;
    assert SlotShape(s.slots[i]);
    if op.OpFlagged? {
      var k := SlotFor(s.slots, op.addr);
      if k < |s.slots| {
        var s1 := FlagShape(s, k, op.flags % 2 == 1);
        PumpQuiet(s1, env, k);
        PumpKeepsGate(s1, env, k);
        MoveLeavesAlone(s1, env, MPump(k), i);
      }
    }
  }

  /** From the `j`-th call on nothing but the deadline can end the command of slot `i`, and every poll is before it. */
  ghost predicate Granted(run: seq<State>, ops: seq<Op>, x: Slot, j: nat, k: nat) {
    j <= k <= |ops| && forall l :: j <= l < k ==> !Ends(ops[l]) && (ops[l].OpPoll? ==> InTime(x, ops[l].now))
  }

  /**
   In every execution an acknowledged command runs undisturbed: without a reply, a sweep, the loss of the link
   or a reset it is still in flight, and nothing of its slave was reported, at every poll that comes less than
   exec_timeout_ms + 1000 after the ACK.
   */
  lemma {:induction false} RunsItsTime(run: seq<State>, env: Env, ops: seq<Op>, j: nat, k: nat, i: nat)
    requires IsExecution(run, env, ops) && j < k < |run| && ops[j].OpAck? && Awaited(run[j], ops[j].addr, ops[j].rid, i)
    requires Granted(run, ops, run[j].slots[i].(phase := Inflight, ackMs := run[j].now), j + 1, k)
    ensures |run[k].slots| == SLOT_MAX
    ensures var x, y := run[j].slots[i], run[k].slots[i];
      && Matches(y, x.addr) && y.phase == Inflight && y.inflight == x.inflight
      && y.ackMs == run[j].now && Extends(run[j].hist, run[k].hist)
      && forall n :: |run[j].hist| <= n < |run[k].hist| ==> !(run[k].hist[n].Done? && run[k].hist[n].addr == x.addr)
    decreases k
  {
    hide Step;
    StepsTo(run, env, ops, k - 1);
    if k == j + 1 {
      AckIsStep(run[j], env, ops[j].addr, ops[j].rid);
      AckTakes(run[j], ops[j].addr, ops[j].rid);
    } else {
      RunsItsTime(run, env, ops, j, k - 1, i);
      var s, t := run[k - 1], run[k];
      AlwaysSound(run, env, ops, k - 1);
      StepLeavesAlone(s, env, ops[k - 1], i);
      assert t.hist[..|run[j].hist|] == t.hist[..|s.hist|][..|run[j].hist|];
      assert forall x :: 0 <= x < |s.hist| ==> t.hist[x] == t.hist[..|s.hist|][x];
    }
  }

  // ---- what ends a command ---------------------------------------------------

  /** The next event reports the command slot `i` has in flight, with this status. */
  ghost predicate EndsWith(s: State, t: State, i: nat, status: nat)
    requires i < |s.slots| && s.slots[i].inflight.Some?
  {
    && Extends(s.hist, t.hist) && |t.hist| > |s.hist|
    && t.hist[|s.hist|] == Done(s.slots[i].addr, s.slots[i].inflight.value.handle, status)
  }

  lemma FinishEnds(s: State, env: Env, i: nat, status: nat)
    requires WF(s) && i < SLOT_MAX && s.slots[i].inflight.Some?
    ensures EndsWith(s, Finish(s, env, i, status), i, status)
  {
    FinishHistory(s, env, i, status);
    var d := s.hist + [Done(s.slots[i].addr, s.slots[i].inflight.value.handle, status)];
    FirstOf(s.hist, d, Finish(s, env, i, status).hist);
  }

  /** One of three attempts is spent, and the command is sent again with the ACK clock restarted. */
  ghost predicate TriesAgain(s: State, t: State, i: nat)
    requires i < |s.slots|
  {
    && OthersSame(s, t, i) && t.slots[i].retries == s.slots[i].retries + 1 && t.slots[i].phase == Sent
    && t.slots[i].inflight == s.slots[i].inflight && t.slots[i].q == s.slots[i].q && t.slots[i].sentMs == s.now
    && Extends(s.hist, t.hist) && forall x :: |s.hist| <= x < |t.hist| ==> t.hist[x].Transmitted?
  }

  lemma ResendTries(s: State, env: Env, i: nat)
    requires Can(s, MResend(i))
    ensures TriesAgain(s, Resend(s, env, i), i)
  {
    assert SlotShape(s.slots[i]);
    ResendQuiet(s, env, i);
  }

  /** The awaited NAK: another attempt while fewer than two resends were made, else the command ends with BUSY. */
  lemma NakCosts(s: State, env: Env, a: nat, rid: nat, i: nat)
    requires WF(s) && DistinctAddrs(s.slots) && Awaited(s, a, rid, i)
    ensures var t := OnNak(s, env, a, rid);
      if s.slots[i].retries < 2 then TriesAgain(s, t, i) else EndsWith(s, t, i, 0xFD)
  {
    hide Resend, Finish;
    assert SlotFor(s.slots, a) == i;
    if s.slots[i].retries < 2 { ResendTries(s, env, i); } else { FinishEnds(s, env, i, STATUS_BUSY); }
  }

  /** Any other NAK changes nothing. */
  lemma NakIgnored(s: State, env: Env, a: nat, rid: nat)
    requires WF(s) && forall i: nat :: !Awaited(s, a, rid, i)
    ensures OnNak(s, env, a, rid) == s
  {
    var k := SlotFor(s.slots, a);
    if k < |s.slots| { assert SlotShape(s.slots[k]); }
    assert !Awaited(s, a, rid, k);
  }

  /**
   What a poll does to a slot by itself: without an ACK for 1500 ms another attempt, or TIMEOUT after the third;
   TIMEOUT too when an acknowledged command has had its time; otherwise a busy slot is left alone.
   */
  lemma PollCosts(s: State, env: Env, i: nat)
    requires WF(s) && i < SLOT_MAX && s.slots[i].inUse && s.slots[i].inflight.Some?
    ensures var t, x := PollSlot(s, env, i), s.slots[i];
      if x.phase.Sent? then
        if Elapsed(s.now, x.sentMs) < 1500 then t == s
        else if x.retries < 2 then TriesAgain(s, t, i) else EndsWith(s, t, i, 0xFF)
      else if Elapsed(s.now, x.ackMs) < x.inflight.value.req.execTimeout + 1000 then t == s
      else EndsWith(s, t, i, 0xFF)
  {
    assert SlotShape(s.slots[i]);
    hide Resend, Finish, SlotShape;
    if s.slots[i].phase.Sent? && s.slots[i].retries < 2 {
      ResendTries(s, env, i);
    } else {
      FinishEnds(s, env, i, STATUS_TIMEOUT);
    }
  }
}
