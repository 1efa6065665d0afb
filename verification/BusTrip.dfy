/**
 The interlock over whole executions: a slave's slot is gated exactly when the last flag update for it said
 so, and from a trip to its clearing no new command of that slave goes on the wire.
 */
module BusTrip {
  import opened Options
  import opened BusTypes
  import opened BusModel
  import opened BusInvariant
  import opened BusCoupling
  import opened BusMoves
  import opened BusWrap

  // ---- what a move does to the gates -----------------------------------------

  /** Slots in use after were in use before, for the same slave and with the same gate. */
  ghost predicate GatesKept(s: State, t: State) {
    && |t.slots| == |s.slots|
    && forall i :: 0 <= i < |s.slots| && t.slots[i].inUse ==> SameGate(s.slots[i], t.slots[i])
  }

  predicate SameGate(a: Slot, b: Slot) { a.inUse == b.inUse && a.addr == b.addr && a.faulted == b.faulted }

  /** No slot of the slave at `a` is open. */
  ghost predicate Closed(s: State, a: nat) {
    forall i :: 0 <= i < |s.slots| && Matches(s.slots[i], a) ==> s.slots[i].faulted
  }

  /** The command `h` is in flight to `a`. */
  ghost predicate Flying(s: State, a: nat, h: nat) {
    exists i :: 0 <= i < |s.slots| && Carrying(s.slots[i], a, h)
  }

  predicate Carrying(x: Slot, a: nat, h: nat) { Matches(x, a) && x.inflight.Some? && x.inflight.value.handle == h }

  /** From `s` to `t` no command of `a` was started: what is in flight was, and frames are of what was. */
  ghost predicate NoStart(s: State, t: State, a: nat) {
    && (forall h :: Flying(t, a, h) ==> Flying(s, a, h))
    && (forall x :: |s.hist| <= x < |t.hist| && t.hist[x].Transmitted? && t.hist[x].addr == a ==>
          Flying(s, a, t.hist[x].handle))
  }

  ghost predicate Gated(s: State, t: State, a: nat) {
    GatesKept(s, t) && Extends(s.hist, t.hist) && (Closed(s, a) ==> NoStart(s, t, a))
  }

  lemma GatedTrans(s: State, t: State, u: State, a: nat)
    requires Gated(s, t, a) && Gated(t, u, a)
    ensures Gated(s, u, a)
  {
    hide Flying;
    assert u.hist[..|s.hist|] == u.hist[..|t.hist|][..|s.hist|];
    if Closed(s, a) {
      forall x | |s.hist| <= x < |u.hist| && u.hist[x].Transmitted? && u.hist[x].addr == a
        ensures Flying(s, a, u.hist[x].handle)
      {
        if x < |t.hist| { assert u.hist[x] == u.hist[..|t.hist|][x]; }
      }
    }
  }

  lemma GatedSame(s: State, a: nat)
    ensures Gated(s, s, a)
  {}

  /** A move that sends nothing, and after which each slot carries what it did, or nothing. */
  lemma GatedQuietly(s: State, t: State, a: nat)
    requires GatesKept(s, t) && Extends(s.hist, t.hist)
    requires forall x :: |s.hist| <= x < |t.hist| ==> !t.hist[x].Transmitted?
    requires forall i :: 0 <= i < |s.slots| && t.slots[i].inUse ==>
      t.slots[i].inflight.None? || t.slots[i].inflight == s.slots[i].inflight
    ensures Gated(s, t, a)
  {
    forall h | Flying(t, a, h)
      ensures Flying(s, a, h)
    {
      var i :| 0 <= i < |t.slots| && Carrying(t.slots[i], a, h);
      assert Carrying(s.slots[i], a, h);
    }
  }

  lemma PumpGated(s: State, env: Env, i: nat, a: nat)
    requires WF(s) && i < SLOT_MAX
    ensures Gated(s, Pump(s, env, i), a)
  {
    var t := Pump(s, env, i);
    if s.slots[i].faulted || !s.slots[i].phase.Idle? || s.slots[i].q == [] {
      GatedSame(s, a);
    } else {
      PumpMoves(s, env, i);
      PumpKeepsGate(s, env, i);
      if Closed(s, a) {
        assert s.slots[i].addr != a by { assert Matches(s.slots[i], s.slots[i].addr); }
        forall h | Flying(t, a, h)
          ensures Flying(s, a, h)
        {
          var k :| 0 <= k < |t.slots| && Carrying(t.slots[k], a, h);
          assert k != i && Carrying(s.slots[k], a, h);
        }
      }
    }
  }

  lemma PumpKeepsGate(s: State, env: Env, i: nat)
    requires WF(s) && i < SLOT_MAX
    ensures forall k :: 0 <= k < SLOT_MAX ==> SameGate(s.slots[k], Pump(s, env, i).slots[k])
  {}

  lemma ResendGated(s: State, env: Env, i: nat, a: nat)
    requires Can(s, MResend(i))
    ensures Gated(s, Resend(s, env, i), a)
  {
    assert SlotShape(s.slots[i]);
    hide Send, SlotShape;
    var t, c := Resend(s, env, i), s.slots[i].inflight.value;
    TransmitFacts(s.(slots := s.slots[i := s.slots[i].(retries := s.slots[i].retries + 1)]), env, i, c);
    forall h | Flying(t, a, h)
      ensures Flying(s, a, h)
    {
      var k :| 0 <= k < |t.slots| && Carrying(t.slots[k], a, h);
      assert Carrying(s.slots[k], a, h);
    }
    if s.slots[i].addr == a { assert Carrying(s.slots[i], a, c.handle); }
  }

  lemma MoveGated(s: State, env: Env, m: Move, a: nat)
    requires Can(s, m)
    ensures Gated(s, Make(s, env, m), a)
  {
    hide Pump, Resend, SlotShape;
    var t := Make(s, env, m);
    match m {
      case MPump(i) => PumpGated(s, env, i, a);
      case MResend(i) => ResendGated(s, env, i, a);
      case _ => GatedQuietly(s, t, a);
    }
  }

  lemma {:induction false} PathGated(s: State, env: Env, ms: seq<Move>, t: State, a: nat)
    requires Path(s, env, ms, t)
    ensures Gated(s, t, a)
    decreases |ms|
  {
    hide Make, Gated;
    if ms == [] {
      GatedSame(s, a);
    } else {
      MoveGated(s, env, ms[0], a);
      PathGated(Make(s, env, ms[0]), env, ms[1..], t, a);
      GatedTrans(s, Make(s, env, ms[0]), t, a);
    }
  }

  // ---- one call --------------------------------------------------------------

  ghost predicate Registered(s: State, a: nat) { exists i :: 0 <= i < |s.slots| && Matches(s.slots[i], a) }

  /** A flag update for the slave at `a`. */
  predicate Flags(op: Op, a: nat) { op.OpFlagged? && op.addr == a }

  /** Every call but a flag update for `a`, or its registration, leaves the gate of `a` as it is and starts nothing. */
  lemma StepGated(s: State, env: Env, op: Op, a: nat)
    requires WF(s) && !Flags(op, a)
    ensures Registered(s, a) ==> GatesOf(s, Step(s, env, op), a)
    ensures Registered(s, a) && Closed(s, a) ==>
              Extends(s.hist, Step(s, env, op).hist) && NoStart(s, Step(s, env, op), a)
  {
    hide Pump, SlotShape, NoStart;
    var t := Step(s, env, op);
    if !Marks(op) {
      var ms := StepPath(s, env, op);
      PathGated(s, env, ms, t, a);
    } else if op.OpFlagged? {
      FlaggedGated(s, env, op.addr, op.flags, a);
    } else if op.OpAck? {
      GatedQuietly(s, t, a);
    } else if Registered(s, a) {
      AddGated(s, op.addr, a);
    }
  }

  /** Every slot of `a` after the call was one before, with the same gate. */
  ghost predicate GatesOf(s: State, t: State, a: nat) {
    && |t.slots| == |s.slots|
    && forall i :: 0 <= i < |s.slots| && Matches(t.slots[i], a) ==> SameGate(s.slots[i], t.slots[i])
  }

  lemma AddGated(s: State, addr: nat, a: nat)
    requires WF(s) && Registered(s, a)
    ensures GatesOf(s, AddSlave(s, addr), a) && NoStart(s, AddSlave(s, addr), a)
  {
    var t := AddSlave(s, addr);
    if addr == a {
      var i :| 0 <= i < |s.slots| && Matches(s.slots[i], a);
      assert SlotFor(s.slots, addr) <= i;
      assert t == s;
    }
    forall h | Flying(t, a, h)
      ensures Flying(s, a, h)
    {
      var i :| 0 <= i < |t.slots| && Carrying(t.slots[i], a, h);
      assert Carrying(s.slots[i], a, h);
    }
  }

  /** The slot's gate set. */
  lemma FlagShape(s: State, i: nat, tripped: bool) returns (t: State)
    requires WF(s) && i < SLOT_MAX && s.slots[i].inUse
    ensures WF(t) && t == s.(slots := s.slots[i := s.slots[i].(faulted := tripped)])
  {
    t := s.(slots := s.slots[i := s.slots[i].(faulted := tripped)]);
    assert SlotShape(s.slots[i]);
  }

  /** A flag update for another slave. */
  lemma FlaggedGated(s: State, env: Env, addr: nat, flags: nat, a: nat)
    requires WF(s) && addr != a
    ensures var t := OnFlagged(s, env, addr, flags);
      && GatesOf(s, t, a) && Extends(s.hist, t.hist) && (Closed(s, a) ==> NoStart(s, t, a))
  {
    hide Pump, SlotShape;
    var i := SlotFor(s.slots, addr);
    if i < |s.slots| {
      var s1 := FlagShape(s, i, flags % 2 == 1);
      assert forall h :: Flying(s1, a, h) ==> Flying(s, a, h) by {
        forall h | Flying(s1, a, h)
          ensures Flying(s, a, h)
        {
          var k :| 0 <= k < |s1.slots| && Carrying(s1.slots[k], a, h);
          assert Carrying(s.slots[k], a, h);
        }
      }
      assert Closed(s, a) ==> Closed(s1, a);
      PumpGated(s1, env, i, a);
    }
  }

  /** A flag update gates every slot of its slave as bit 0 says. */
  lemma FlagSets(s: State, env: Env, a: nat, flags: nat, i: nat)
    requires WF(s) && DistinctAddrs(s.slots) && i < SLOT_MAX && Matches(s.slots[i], a)
    ensures var t := OnFlagged(s, env, a, flags);
      && Matches(t.slots[i], a) && (t.slots[i].faulted <==> flags % 2 == 1)
      && forall k :: 0 <= k < SLOT_MAX && k != i ==> !Matches(t.slots[k], a)
  {
    hide Pump, SlotShape;
    assert SlotFor(s.slots, a) == i;
    var s1 := FlagShape(s, i, flags % 2 == 1);
    PumpKeepsGate(s1, env, i);
  }

  // ---- over whole executions -------------------------------------------------

  /** The `j`-th call flags the registered slave at `a`, and none after it up to the `k`-th; it stays registered. */
  ghost predicate LastFlag(run: seq<State>, ops: seq<Op>, a: nat, j: nat, k: nat) {
    && j < k < |run| && k <= |ops| && Flags(ops[j], a)
    && (forall l :: j < l < k ==> !Flags(ops[l], a))
    && (forall l :: j <= l <= k ==> Registered(run[l], a))
  }

  /** The last flag update for `a` since it was registered tripped its interlock. */
  ghost predicate Tripped(run: seq<State>, ops: seq<Op>, a: nat, k: nat) {
    exists j: nat :: LastFlag(run, ops, a, j, k) && ops[j].flags % 2 == 1
  }

  lemma StepsTo(run: seq<State>, env: Env, ops: seq<Op>, k: nat)
    requires IsExecution(run, env, ops) && k < |ops|
    ensures WF(run[k]) && run[k + 1] == Step(run[k], env, ops[k]) && DistinctAddrs(run[k].slots)
    ensures DistinctAddrs(run[k + 1].slots) && |run[k].slots| == |run[k + 1].slots| == SLOT_MAX
  {
    assert StepAt(run, env, ops, k);
    AlwaysSound(run, env, ops, k);
    AlwaysSound(run, env, ops, k + 1);
  }

  lemma OneFlagMore(run: seq<State>, env: Env, ops: seq<Op>, a: nat, k: nat)
    requires IsExecution(run, env, ops) && k < |ops| && Registered(run[k + 1], a)
    ensures Flags(ops[k], a) && Registered(run[k], a) ==> (Tripped(run, ops, a, k + 1) <==> ops[k].flags % 2 == 1)
    ensures !Flags(ops[k], a) && Registered(run[k], a) ==> (Tripped(run, ops, a, k + 1) <==> Tripped(run, ops, a, k))
    ensures !Registered(run[k], a) ==> !Tripped(run, ops, a, k + 1)
  {
    hide Registered;
    if Flags(ops[k], a) && Registered(run[k], a) {
      var next := k + 1;
      assert LastFlag(run, ops, a, k, next);
      forall j: nat | LastFlag(run, ops, a, j, next)
        ensures j == k
      {}
    } else if Registered(run[k], a) {
      forall j: nat
        ensures LastFlag(run, ops, a, j, k + 1) <==> LastFlag(run, ops, a, j, k)
      {}
    }
  }

  /**
   In every execution a registered slave's slot is gated if and only if the last flag update for it since it
   was registered had bit 0 set.
   */
  lemma {:induction false} GatedIffTripped(run: seq<State>, env: Env, ops: seq<Op>, k: nat, a: nat, i: nat)
    requires IsExecution(run, env, ops) && k < |run| && i < |run[k].slots| && Matches(run[k].slots[i], a)
    ensures run[k].slots[i].faulted <==> Tripped(run, ops, a, k)
    decreases k
  {
    hide Step, Tripped;
    if k > 0 {
      var s, op := run[k - 1], ops[k - 1];
      StepsTo(run, env, ops, k - 1);
      OneFlagMore(run, env, ops, a, k - 1);
      if Flags(op, a) && Registered(s, a) {
        var h :| 0 <= h < |s.slots| && Matches(s.slots[h], a);
        FlagIsStep(s, env, op);
        FlagSets(s, env, a, op.flags, h);
      } else if Registered(s, a) {
        StepGated(s, env, op, a);
        GatedIffTripped(run, env, ops, k - 1, a, i);
      } else {
        AppearsOpen(s, env, op, a, i);
      }
    }
  }

  lemma FlagIsStep(s: State, env: Env, op: Op)
    requires WF(s) && op.OpFlagged?
    ensures Step(s, env, op) == OnFlagged(s, env, op.addr, op.flags)
  {
    hide OnFlagged, WF;
  }

  /** A slave that was not registered before the call is not gated after it. */
  lemma AppearsOpen(s: State, env: Env, op: Op, a: nat, i: nat)
    requires WF(s) && !Registered(s, a) && i < SLOT_MAX && Matches(Step(s, env, op).slots[i], a)
    ensures !Step(s, env, op).slots[i].faulted
  {
    hide Pump, SlotShape;
    var t := Step(s, env, op);
    assert !Matches(s.slots[i], a);
    if !Marks(op) {
      var ms := StepPath(s, env, op);
      PathGated(s, env, ms, t, a);
    } else if op.OpFlagged? {
      var j := SlotFor(s.slots, op.addr);
      if j < |s.slots| {
        var s1 := FlagShape(s, j, op.flags % 2 == 1);
        PumpKeepsGate(s1, env, j);
      }
    }
  }

  /**
   From a trip to its clearing no command of the slave is started: as long as it stays registered and no flag
   update clears it, every frame to it is of a command that was in flight when the interlock tripped, and
   nothing else of it is ever in flight.
   */
  lemma {:induction false} NothingStartsTripped(run: seq<State>, env: Env, ops: seq<Op>, a: nat, j: nat, k: nat)
    requires IsExecution(run, env, ops) && LastFlag(run, ops, a, j, k) && ops[j].flags % 2 == 1
    ensures Closed(run[k], a) && Extends(run[j + 1].hist, run[k].hist) && NoStart(run[j + 1], run[k], a)
    decreases k
  {
    hide Step, NoStart, Registered;
    StepsTo(run, env, ops, k - 1);
    if k == j + 1 {
      StepsTo(run, env, ops, j);
      TripCloses(run[j], env, ops[j], a);
      assert NoStart(run[k], run[k], a) by { StartsNothing(run[k], a); }
    } else {
      NothingStartsTripped(run, env, ops, a, j, k - 1);
      StepGated(run[k - 1], env, ops[k - 1], a);
      NoStartTrans(run[j + 1], run[k - 1], run[k], a);
      StaysClosed(run[k - 1], run[k], a);
    }
  }

  lemma StartsNothing(s: State, a: nat)
    ensures NoStart(s, s, a)
  {}

  lemma StaysClosed(s: State, t: State, a: nat)
    requires Closed(s, a) && GatesOf(s, t, a)
    ensures Closed(t, a)
  {
    forall i | 0 <= i < |t.slots| && Matches(t.slots[i], a)
      ensures t.slots[i].faulted
    {
      assert Matches(s.slots[i], a);
    }
  }

  lemma NoStartTrans(s: State, t: State, u: State, a: nat)
    requires Extends(s.hist, t.hist) && Extends(t.hist, u.hist) && NoStart(s, t, a) && NoStart(t, u, a)
    ensures Extends(s.hist, u.hist) && NoStart(s, u, a)
  {
    hide Flying;
    assert u.hist[..|s.hist|] == u.hist[..|t.hist|][..|s.hist|];
    forall x | |s.hist| <= x < |u.hist| && u.hist[x].Transmitted? && u.hist[x].addr == a
      ensures Flying(s, a, u.hist[x].handle)
    {
      if x < |t.hist| { assert u.hist[x] == u.hist[..|t.hist|][x]; }
    }
  }

  lemma TripCloses(s: State, env: Env, op: Op, a: nat)
    requires WF(s) && DistinctAddrs(s.slots) && Flags(op, a) && op.flags % 2 == 1 && Registered(s, a)
    ensures Closed(Step(s, env, op), a)
  {
    hide OnFlagged;
    var i :| 0 <= i < |s.slots| && Matches(s.slots[i], a);
    FlagIsStep(s, env, op);
    FlagSets(s, env, a, op.flags, i);
  }

  /** On the falling edge the queue's front goes on the wire, if the slot is idle and the link takes the frame. */
  lemma ClearingResumes(s: State, env: Env, a: nat, flags: nat, i: nat)
    requires Sound(s) && i < SLOT_MAX && Matches(s.slots[i], a) && s.slots[i].faulted && flags % 2 == 0
    requires s.slots[i].phase.Idle? && s.slots[i].q != [] && s.dx.up && env.accepts(s.dx.nextId)
    requires FirstFree(s.dx.table, 0) < PENDING_MAX && Wire(s.dx.nextId) != ERROR_RID
    ensures var t, c := OnFlagged(s, env, a, flags), s.slots[i].q[0];
      && t.hist == s.hist + [Transmitted(a, c.handle, Wire(s.dx.nextId), s.now, WireTimeout(c.req.execTimeout))]
      && t.slots[i].inflight == Some(c) && t.slots[i].phase == Sent && t.slots[i].q == s.slots[i].q[1..]
  {
    assert SlotFor(s.slots, a) == i;
    var c := s.slots[i].q[0];
    var s1 := s.(slots := s.slots[i := s.slots[i].(faulted := false)]);
    assert SlotShape(s.slots[i]) && WF(s1);
    hide SlotShape, Send;
    TransmitSucceeds(s1.(slots := s1.slots[i := s1.slots[i].(retries := 0)]), env, i, c);
  }
}
