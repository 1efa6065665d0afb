/**
 `se_field_dispatch` (`s_engine/runtime/s_engine_builtins_dispatch.h`) beside `se_state_machine`. Its code
 differs in what it keeps and answers when a branch has completed, yet the branches cannot tell the two
 apart: on every run they are called with the same events and left in the same states.
 */
module SeField {
  import opened SeTree
  import opened SeNodes
  import opened SeMachine

  /** One tick with field value `val`; a completed branch is forgotten. */
  ghost function FieldTick(w: World, o: Oracle, self: nat, kids: seq<Node>, val: int): (r: Outcome)
    requires Separate(w.states, self, kids) && Cased(kids)
    ensures |r.w.states| == |w.states|
  {
    var a := Scan(kids, 1, val, 0);
    if a == 0 then Outcome(w, Code(App, Continue))
    else
      ScanIsCall(kids, val);
      OwnId(w.states, self, kids, a);
      var out := Invoke(Switch(w, o, self, kids, a), o, kids[a].fn);
      if Completes(out.code) then
        Outcome(SetUser(Rearm(Leave(out.w, o, self, kids, a), kids, a), self, NO_INDEX), Code(Pipe, Continue))
      else out
  }

  /** `se_field_dispatch` for TICK and TERMINATE, which is that of `se_state_machine`. */
  ghost function FieldStep(w: World, o: Oracle, self: nat, kids: seq<Node>, input: Input): (r: World)
    requires Separate(w.states, self, kids) && Cased(kids)
    ensures |r.states| == |w.states|
  {
    match input
    case Tick(val) => FieldTick(w, o, self, kids, val).w
    case Stop => MachineStep(w, o, self, kids, Stop)
  }

  /** INIT, then the inputs in order. */
  ghost function FieldRun(w: World, o: Oracle, self: nat, kids: seq<Node>, ins: seq<Input>): (r: World)
    requires Separate(w.states, self, kids) && Cased(kids)
    ensures |r.states| == |w.states|
    decreases |ins|
  {
    if ins == [] then SetUser(w, self, NO_INDEX)
    else FieldStep(FieldRun(w, o, self, kids, ins[..|ins| - 1]), o, self, kids, ins[|ins| - 1])
  }

  // ---- the simulation --------------------------------------------------------

  /** Branch `a` is recorded but completed: terminating and rearming it would change nothing. */
  ghost predicate Settled(w: World, self: nat, kids: seq<Node>, a: nat) {
    && self < |w.states| && 0 < a < |kids| && IsMain(kids[a]) && Idle(w, kids[a])
    && w.states[self].user == Offset(kids, a) && Rearm(w, kids, a) == w
  }

  /** A world of the state machine and one of the dispatch that differ at most in a completed branch's record. */
  ghost predicate Alike(m: World, f: World, self: nat, kids: seq<Node>) {
    f == m || (exists a :: Settled(m, self, kids, a) && f == SetUser(m, self, NO_INDEX))
  }

  /** The record of the machine's own node is no part of what the branches see. */
  lemma RearmUser(w: World, self: nat, kids: seq<Node>, a: nat, u: nat, v: nat)
    requires Separate(w.states, self, kids) && a < |kids|
    ensures SetUser(Rearm(SetUser(w, self, u), kids, a), self, v) == SetUser(Rearm(w, kids, a), self, v)
  {
    assert self !in CallIds(kids[a]);
    assert SetUser(Rearm(SetUser(w, self, u), kids, a), self, v).states == SetUser(Rearm(w, kids, a), self, v).states;
  }

  lemma LeaveSettled(w: World, o: Oracle, self: nat, kids: seq<Node>, a: nat)
    requires Separate(w.states, self, kids) && Settled(w, self, kids, a)
    ensures Leave(w, o, self, kids, a) == w
  {}

  /** Whichever branch comes next, entering it makes the two worlds the same. */
  lemma SwitchMerges(m: World, f: World, o: Oracle, self: nat, kids: seq<Node>, a: nat)
    requires Separate(m.states, self, kids) && Separate(f.states, self, kids) && Alike(m, f, self, kids)
    requires 0 < a < |kids| && Offset(kids, |kids|) < NO_INDEX
    ensures Switch(f, o, self, kids, a) == Switch(m, o, self, kids, a)
  {
    hide Rearm, Leave;
    if f != m {
      var was: nat :| Settled(m, self, kids, was) && f == SetUser(m, self, NO_INDEX);
      OffsetsRise(kids, 0, was);
      OffsetsRise(kids, a, |kids|);
      OffsetsRise(kids, was, |kids|);
      WhichOffset(kids, was);
      LeaveSettled(m, o, self, kids, was);
      RearmUser(m, self, kids, a, NO_INDEX, Offset(kids, a));
      assert f.states[self].user == NO_INDEX;
      if Offset(kids, a) == Offset(kids, was) {
        WhichOffset(kids, a);
        assert Rearm(m, kids, a) == m;
        assert SetUser(m, self, Offset(kids, a)).states == m.states;
      }
    }
  }

  /** A completed branch is settled. */
  lemma CompletedSettles(w: World, o: Oracle, self: nat, kids: seq<Node>, a: nat)
    requires Separate(w.states, self, kids) && 0 < a < |kids| && IsMain(kids[a])
    requires w.states[self].user == Offset(kids, a)
    ensures Settled(Rearm(Leave(w, o, self, kids, a), kids, a), self, kids, a)
  {
    OwnId(w.states, self, kids, a);
    var t := Leave(w, o, self, kids, a);
    assert self !in CallIds(kids[a]);
    assert Rearm(Rearm(t, kids, a), kids, a).states == Rearm(t, kids, a).states;
  }

  /** Only a MAIN can complete, and no call of a branch touches the record. */
  lemma InvokeKeepsRecord(w: World, o: Oracle, self: nat, kids: seq<Node>, a: nat)
    requires Separate(w.states, self, kids) && a < |kids| && kids[a].Call?
    ensures kids[a].fn.node < |w.states|
    ensures var out := Invoke(w, o, kids[a].fn);
      && out.w.states[self] == w.states[self] && Separate(out.w.states, self, kids)
      && (Completes(out.code) ==> IsMain(kids[a]))
  {
    OwnId(w.states, self, kids, a);
  }

  lemma SwitchRecords(w: World, o: Oracle, self: nat, kids: seq<Node>, a: nat)
    requires Separate(w.states, self, kids) && 0 < a < |kids|
    ensures Switch(w, o, self, kids, a).states[self].user == Offset(kids, a)
  {}

  /** One tick: alike before, alike after, and the answers correspond. */
  lemma TickAlike(m: World, f: World, o: Oracle, self: nat, kids: seq<Node>, val: int)
    requires Separate(m.states, self, kids) && Separate(f.states, self, kids) && Alike(m, f, self, kids)
    requires Cased(kids) && Offset(kids, |kids|) < NO_INDEX
    ensures var mt, ft := MachineTick(m, o, self, kids, val), FieldTick(f, o, self, kids, val);
      && Alike(mt.w, ft.w, self, kids) && (Scan(kids, 1, val, 0) != 0 ==> mt.code == Answered(ft.code))
  {
    hide Switch, Invoke, Leave, Rearm, Separate;
    var a := Scan(kids, 1, val, 0);
    if a != 0 {
      ScanIsCall(kids, val);
      SwitchMerges(m, f, o, self, kids, a);
      SwitchRecords(m, o, self, kids, a);
      SwitchSeparate(m, o, self, kids, a);
      var w1 := Switch(m, o, self, kids, a);
      InvokeKeepsRecord(w1, o, self, kids, a);
      var out := Invoke(w1, o, kids[a].fn);
      if Completes(out.code) {
        CompletedSettles(out.w, o, self, kids, a);
      }
    }
  }

  lemma SwitchSeparate(w: World, o: Oracle, self: nat, kids: seq<Node>, a: nat)
    requires Separate(w.states, self, kids) && a < |kids|
    ensures Separate(Switch(w, o, self, kids, a).states, self, kids)
  {}

  lemma StopAlike(m: World, f: World, o: Oracle, self: nat, kids: seq<Node>)
    requires Separate(m.states, self, kids) && Separate(f.states, self, kids) && Alike(m, f, self, kids)
    requires Cased(kids) && Offset(kids, |kids|) < NO_INDEX
    ensures MachineStep(f, o, self, kids, Stop) == MachineStep(m, o, self, kids, Stop)
  {
    hide Leave;
    if f != m {
      var was: nat :| Settled(m, self, kids, was) && f == SetUser(m, self, NO_INDEX);
      OffsetsRise(kids, 0, was);
      OffsetsRise(kids, was, |kids|);
      WhichOffset(kids, was);
      LeaveSettled(m, o, self, kids, was);
      assert SetUser(f, self, NO_INDEX).states == SetUser(m, self, NO_INDEX).states;
    }
  }

  // ---- over whole runs -------------------------------------------------------

  lemma {:induction false} RunsAlike(w: World, o: Oracle, self: nat, kids: seq<Node>, ins: seq<Input>)
    requires Separate(w.states, self, kids) && Cased(kids) && Offset(kids, |kids|) < NO_INDEX
    ensures Alike(MachineRun(w, o, self, kids, ins), FieldRun(w, o, self, kids, ins), self, kids)
    decreases |ins|
  {
    if ins != [] {
      hide Alike, Separate, Cased;
      var n := |ins| - 1;
      RunsAlike(w, o, self, kids, ins[..n]);
      var m, f := MachineRun(w, o, self, kids, ins[..n]), FieldRun(w, o, self, kids, ins[..n]);
      SameSeparate(w.states, m.states, self, kids);
      SameSeparate(w.states, f.states, self, kids);
      match ins[n]
      case Tick(val) => TickAlike(m, f, o, self, kids, val);
      case Stop =>
        StopAlike(m, f, o, self, kids);
        SameAlike(MachineStep(m, o, self, kids, Stop), self, kids);
    } else {
      SameAlike(SetUser(w, self, NO_INDEX), self, kids);
    }
  }

  lemma SameAlike(w: World, self: nat, kids: seq<Node>)
    ensures Alike(w, w, self, kids)
  {}

  /**
   The branches of a dispatch are called exactly as those of a state machine, on every run from the same
   world with the same field values, and every node but the composite's own is in the same state.
   */
  lemma DispatchIsMachine(w: World, o: Oracle, self: nat, kids: seq<Node>, ins: seq<Input>)
    requires Separate(w.states, self, kids) && Cased(kids) && Offset(kids, |kids|) < NO_INDEX
    ensures var m, f := MachineRun(w, o, self, kids, ins), FieldRun(w, o, self, kids, ins);
      f.trace == m.trace && forall i :: 0 <= i < |w.states| && i != self ==> f.states[i] == m.states[i]
  {
    RunsAlike(w, o, self, kids, ins);
  }

  /** What a tick returns to the parent corresponds too: FUNCTION_HALT and SKIP_CONTINUE are the only differences. */
  lemma AnswersCorrespond(w: World, o: Oracle, self: nat, kids: seq<Node>, ins: seq<Input>, val: int)
    requires Separate(w.states, self, kids) && Cased(kids) && Offset(kids, |kids|) < NO_INDEX
    requires Scan(kids, 1, val, 0) != 0
    ensures var m := MachineTick(MachineRun(w, o, self, kids, ins), o, self, kids, val).code;
      var f := FieldTick(FieldRun(w, o, self, kids, ins), o, self, kids, val).code;
      && (m == f <==> f != Code(Function, Halt) && f != Code(Pipe, SkipContinue))
      && (f == Code(Function, Halt) ==> m == Code(Pipe, Halt))
      && (f == Code(Pipe, SkipContinue) ==> m == Code(Pipe, Continue))
  {
    RunsAlike(w, o, self, kids, ins);
    TickAlike(MachineRun(w, o, self, kids, ins), FieldRun(w, o, self, kids, ins), o, self, kids, val);
  }

  /** So branch exclusivity holds of the dispatch as well, with its own record. */
  lemma DispatchExcludes(w: World, o: Oracle, self: nat, kids: seq<Node>, ins: seq<Input>, k: nat)
    requires Separate(w.states, self, kids) && Cased(kids) && Offset(kids, |kids|) < NO_INDEX
    requires forall j :: 0 <= j < |kids| && IsMain(kids[j]) ==> Idle(w, kids[j])
    requires k < |kids| && IsMain(kids[k]) && kids[k].fn.node < |w.states|
    ensures var t := FieldRun(w, o, self, kids, ins);
      && |w.trace| <= |t.trace| && SceneOf(t.trace[|w.trace|..]).legal
      && (t.states[kids[k].fn.node].inited ==> t.states[self].user == Offset(kids, k))
      && (ins != [] && ins[|ins| - 1].Stop? ==> !t.states[kids[k].fn.node].inited)
  {
    hide SceneOf;
    var m, f := MachineRun(w, o, self, kids, ins), FieldRun(w, o, self, kids, ins);
    RunsAlike(w, o, self, kids, ins);
    BranchesExclude(w, o, self, kids, ins, k);
    OwnId(w.states, self, kids, k);
    if f != m && f.states[kids[k].fn.node].inited {
      var was: nat :| Settled(m, self, kids, was) && f == SetUser(m, self, NO_INDEX);
      WhichOffset(kids, k);
      WhichOffset(kids, was);
      assert false;
    }
  }
}
