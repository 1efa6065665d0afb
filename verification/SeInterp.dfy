/**
 The interpreter as the program runs it: the flat token array, the array of node states and the index
 of the current node, which every invocation saves and restores. The methods are proved equal to the
 functions of `SeNodes` and `SeMachine` on trees, though they see tokens only.
 */
module SeInterp {
  import opened Options
  import opened SeTree
  import opened SeNodes
  import opened SeMachine
  import SeField
  import SeFork
  import SeWhile

  class Interp {
    const toks: seq<Token>
    const states: array<NodeState>
    var current: nat
    var trace: seq<Fired>

    /** `count` node states, all off, over a token array. */
    constructor (t: seq<Token>, count: nat)
      ensures fresh(states) && toks == t && W() == World(seq(count, _ => OFF_STATE), []) && current == 0
    {
      toks := t;
      states := new NodeState[count](_ => OFF_STATE);
      current, trace := 0, [];
      new;
      assert states[..] == seq(count, _ => OFF_STATE);
    }

    ghost function W(): World
      reads this, states
    {
      World(states[..], trace)
    }

    method SetStates(n: nat, s: NodeState)
      requires n < states.Length
      modifies states
      ensures W() == Flag(old(W()), n, s)
    {
      states[n] := s;
      assert states[..] == old(states[..])[n := s];
    }

    /** A child's function is entered with its node current, and what it returns is recorded. */
    method Enter(o: Oracle, fn: Fn, ev: Ev) returns (code: Code)
      requires fn.node < states.Length
      modifies this, states
      ensures Outcome(W(), code) == Fire(old(W()), o, fn, ev) && current == old(current)
    {
      var saved := current;
      current := fn.node;
      var a := o(|trace|, fn, states[current], ev);
      code := if fn.kind.FPred? then (if a.truth then Code(Pipe, Continue) else Code(Pipe, Halt)) else a.code;
      var inited := states[current].inited || (fn.kind.FPred? && a.marks);
      SetStates(current, states[current].(inited := inited, state := a.state % 0x100, user := a.user % 0x1_0000));
      trace := trace + [Fired(fn, ev, code)];
      current := saved;
    }

    /** `dispatch_main` */
    method DispatchMain(o: Oracle, fn: Fn) returns (code: Code)
      requires fn.node < states.Length
      modifies this, states
      ensures Outcome(W(), code) == SeNodes.DispatchMain(old(W()), o, fn) && current == old(current)
    {
      if !states[fn.node].active { return Code(Pipe, Continue); }
      if !states[fn.node].inited {
        SetStates(fn.node, states[fn.node].(inited := true));
        var _ := Enter(o, fn, EvInit);
      }
      code := Enter(o, fn, EvTick);
      if code == Code(Pipe, Disable) {
        var _ := Enter(o, fn, EvTerm);
        SetStates(fn.node, states[fn.node].(active := false));
      }
    }

    /** `dispatch_oneshot` */
    method DispatchOneshot(o: Oracle, fn: Fn)
      requires fn.node < states.Length
      modifies this, states
      ensures W() == SeNodes.DispatchOneshot(old(W()), o, fn) && current == old(current)
    {
      var s := states[fn.node];
      if fn.survives {
        if s.ever { return; }
        SetStates(fn.node, s.(ever := true));
      } else {
        if s.inited { return; }
        SetStates(fn.node, s.(inited := true));
      }
      var _ := Enter(o, fn, EvTick);
    }

    /** `s_expr_invoke_any` on the call at a physical index */
    method InvokeAny(o: Oracle, at: nat) returns (code: Code)
      requires at + 1 < |toks| && toks[at].OpenCall? && toks[at + 1].FuncTok? && toks[at + 1].fn.node < states.Length
      modifies this, states
      ensures Outcome(W(), code) == Invoke(old(W()), o, toks[at + 1].fn) && current == old(current)
      ensures forall i :: 0 <= i < states.Length && i != toks[at + 1].fn.node ==> states[i] == old(states[i])
    {
      var fn := toks[at + 1].fn;
      match fn.kind
      case FMain => code := DispatchMain(o, fn);
      case FOneshot =>
        DispatchOneshot(o, fn);
        code := Code(Pipe, Continue);
      case FPred => code := Enter(o, fn, EvTick);
    }

    /** `terminate_at_physical_index` and `terminate_action_at_index`, which first looks for a call. */
    method TerminateAt(o: Oracle, at: nat, ghost n: Node)
      requires at < |toks| && (toks[at].OpenCall? <==> n.Call?)
      requires n.Call? ==> at + 1 < |toks| && toks[at + 1] == FuncTok(n.fn) && n.fn.node < states.Length
      modifies this, states
      ensures W() == (if n.Call? then TerminateChild(old(W()), o, n.fn) else old(W())) && current == old(current)
    {
      if !toks[at].OpenCall? { return; }
      var fn := toks[at + 1].fn;
      if !fn.kind.FMain? || !states[fn.node].inited { return; }
      var _ := Enter(o, fn, EvTerm);
      SetStates(fn.node, OFF_STATE);
    }

    /** The composite's own state byte. */
    method SetOwnState(v: nat)
      requires current < states.Length
      modifies states
      ensures W() == SetState(old(W()), current, v)
    {
      SetStates(current, states[current].(state := v % 0x100));
    }

    /** `s_expr_children_terminate_all`; its index is 16-bit signed, so that more than 32768 children are skipped. */
    method ChildrenTerminateAll(o: Oracle, base: nat, count: nat, ghost self: nat, ghost kids: seq<Node>)
      requires Encodes(toks, base, count, kids) && Separate(states[..], self, kids)
      modifies this, states
      ensures W() == (if |kids| <= 0x8000 then TerminateAll(old(W()), o, self, kids, |kids|) else old(W()))
      ensures current == old(current)
    {
      hide TerminateChild, Encodes;
      var n := ChildCount(toks, base, count, kids);
      ChildrenFit(toks, base, count, kids);
      if n == 0 { return; }
      var i := AsInt16(n - 1);
      while i >= 0
        invariant Separate(states[..], self, kids) && current == old(current)
        invariant n > 0x8000 ==> i < 0 && W() == old(W())
        invariant n <= 0x8000 ==> -1 <= i < n
        invariant n <= 0x8000 ==> TerminateAll(W(), o, self, kids, i + 1) == TerminateAll(old(W()), o, self, kids, |kids|)
      {
        var at := ChildIndex(toks, base, count, i, kids);
        TokenTells(toks, base, count, kids, at, i);
        if toks[base + at].OpenCall? {
          OwnId(states[..], self, kids, i);
          TerminateAt(o, base + at, kids[i]);
          var fn := toks[base + at + 1].fn;
          SetStates(fn.node, NodeState(true, false, states[fn.node].ever, 0, 0));
        }
        i := i - 1;
      }
    }

    /** `se_sequence`; a tick is given up after `limit` turns of its loop. */
    method Sequence(o: Oracle, base: nat, count: nat, ev: Ev, limit: nat, ghost kids: seq<Node>)
      returns (code: Option<Code>)
      requires Encodes(toks, base, count, kids) && Separate(states[..], current, kids)
      modifies this, states
      ensures current == old(current) && (!ev.EvTick? ==> code == Some(Code(Pipe, Continue)))
      ensures match ev
              case EvInit => W() == SeqEnter(old(W()), old(current))
              case EvTerm => W() == SeqLeave(old(W()), o, old(current), kids)
              case EvTick =>
                Returned(W(), code) == SeqLoop(old(W()), o, old(current), kids, old(states[current].state), limit)
    {
      var n := ChildCount(toks, base, count, kids);
      var state := states[current].state;
      match ev
      case EvTerm =>
        if state < n {
          var at := ChildIndex(toks, base, count, state, kids);
          TokenTells(toks, base, count, kids, at, state);
          if kids[state].Call? { OwnId(states[..], current, kids, state); }
          TerminateAt(o, base + at, kids[state]);
        }
        SetOwnState(0);
        code := Some(Code(Pipe, Continue));
      case EvInit =>
        SetOwnState(0);
        code := Some(Code(Pipe, Continue));
      case EvTick => code := SequenceTick(o, base, count, n, limit, kids);
    }

    /** The tick loop: `state` is a byte. */
    method SequenceTick(o: Oracle, base: nat, count: nat, n: nat, limit: nat, ghost kids: seq<Node>)
      returns (code: Option<Code>)
      requires Encodes(toks, base, count, kids) && Separate(states[..], current, kids) && n == |kids|
      modifies this, states
      ensures Returned(W(), code) == SeqLoop(old(W()), o, old(current), kids, old(states[current].state), limit)
      ensures current == old(current)
    {
      hide Encodes, Invoke, TerminateChild;
      ghost var self := current;
      var state: nat := states[current].state;
      var left := limit;
      while state < n && left > 0
        invariant current == self && Separate(states[..], self, kids)
        invariant SeqLoop(W(), o, self, kids, state, left)
               == SeqLoop(old(W()), o, self, kids, old(states[current].state), limit)
        decreases left
      {
        var at := ChildIndex(toks, base, count, state, kids);
        TokenTells(toks, base, count, kids, at, state);
        if toks[base + at].OpenCall? {
          OwnId(states[..], self, kids, state);
          var kind := toks[base + at + 1].fn.kind;
          var r := InvokeAny(o, base + at);
          if kind.FMain? {
            if !Completes(r) { return Some(Passed(r)); }
            TerminateAt(o, base + at, kids[state]);
          }
        }
        state := (state + 1) % 0x100;
        SetOwnState(state);
        left := left - 1;
      }
      code := if state < n then None else Some(Code(Pipe, Disable));
    }

    /** The scan of `se_state_machine`: the physical index of the action for `val`, or 0. */
    method FindAction(base: nat, count: nat, val: int, ghost kids: seq<Node>) returns (action: nat)
      requires Encodes(toks, base, count, kids) && kids != []
      requires base + count < |toks| && toks[base + count] == Close
      ensures var a := Scan(kids, 1, val, 0);
        action == if a == 0 then 0 else if a < |kids| then Offset(kids, a) else NO_INDEX
    {
      hide Scan, AtChild, Skip, Scanning;
      WalkStarts(toks, base, count, kids);
      WalkSteps(toks, base, count, kids, 0, 0);
      var idx: nat := Skip(toks, base, 0);
      var fallback: nat := 0;
      ghost var k: nat, dflt: nat := 1, 0;
      ScanStarts(toks, base, count, kids, val);
      while idx < count
        invariant Scanning(toks, base, count, kids, val, idx, k, fallback, dflt)
        decreases count + 1 - idx
      {
        ScanSteps(toks, base, count, kids, val, idx, k, fallback, dflt);
        var key := toks[base + idx];
        var next := Skip(toks, base, idx);
        if key.Atom? && (key.op == OP_INT || key.op == OP_UINT) {
          if next < count {
            if AsInt32(key.word) == val { return next; }
            if AsInt32(key.word) == -1 { fallback := next; dflt := k + 1; }
          }
          idx := Skip(toks, base, next);
          k := k + 2;
        } else {
          idx := next;
          k := k + 1;
        }
      }
      ScanEnds(toks, base, count, kids, val, idx, k, fallback, dflt);
      action := fallback;
    }

    /** The user word names a parameter of this node, or none. */
    ghost predicate UserOk(kids: seq<Node>)
      requires current < states.Length
      reads this, states
    {
      Named(states[current].user) ==> Which(kids, states[current].user, 0) < |kids|
    }

    method SetOwnUser(v: nat)
      requires current < states.Length
      modifies states
      ensures W() == SetUser(old(W()), current, v)
    {
      SetStates(current, states[current].(user := v));
    }

    /** `reset_action_at_index` */
    method ResetAction(base: nat, count: nat, at: nat, ghost kids: seq<Node>, ghost k: nat)
      requires AtChild(toks, base, count, kids, at, k) && k < |kids| && Separate(states[..], current, kids)
      modifies states
      ensures W() == Rearm(old(W()), kids, k) && states[current] == old(states[current])
    {
      TokenTells(toks, base, count, kids, at, k);
      ResetAt(states, toks, base, count, at, kids, k);
    }

    /** The branch a recorded user word stands for, terminated; then rearmed if `again`. */
    method LeaveAction(o: Oracle, base: nat, count: nat, at: nat, again: bool, ghost kids: seq<Node>, ghost k: nat)
      requires AtChild(toks, base, count, kids, at, k) && k < |kids| && Separate(states[..], current, kids)
      modifies this, states
      ensures var t := Leave(old(W()), o, old(current), kids, k); W() == if again then Rearm(t, kids, k) else t
      ensures current == old(current) && states[current] == old(states[current])
    {
      TokenTells(toks, base, count, kids, at, k);
      if kids[k].Call? { OwnId(states[..], current, kids, k); }
      TerminateAt(o, base + at, kids[k]);
      if again { ResetAction(base, count, at, kids, k); }
    }

    /** The change of branch in a tick. */
    method SwitchTo(o: Oracle, base: nat, count: nat, action: nat, ghost kids: seq<Node>, ghost a: nat)
      requires AtChild(toks, base, count, kids, action, a) && a < |kids| && Separate(states[..], current, kids)
      requires UserOk(kids)
      modifies this, states
      ensures W() == Switch(old(W()), o, old(current), kids, a) && current == old(current)
      ensures states[current].user == Offset(kids, a)
    {
      var prev := states[current].user;
      if action != prev {
        if Named(prev) {
          ghost var k := Which(kids, prev, 0);
          OffsetReached(toks, base, count, kids, k);
          LeaveAction(o, base, count, prev, true, kids, k);
        }
        ResetAction(base, count, action, kids, a);
        SetOwnUser(action);
      }
    }

    /** `se_state_machine` on a tick; `val` is the value of the field. */
    method MachineTick(o: Oracle, base: nat, count: nat, val: int, ghost kids: seq<Node>) returns (code: Code)
      requires Encodes(toks, base, count, kids) && Separate(states[..], current, kids) && kids != []
      requires base + count < |toks| && toks[base + count] == Close && Cased(kids) && UserOk(kids)
      modifies this, states
      ensures Outcome(W(), code) == SeMachine.MachineTick(old(W()), o, old(current), kids, val) && current == old(current)
      ensures UserOk(kids)
    {
      hide Leave, Rearm, Switch, Invoke, Encodes;
      var action := FindAction(base, count, val, kids);
      ghost var a := Scan(kids, 1, val, 0);
      ScanIsCall(kids, val);
      if a > 0 { OffsetsRise(kids, 0, a); }
      if action == 0 { return Code(Pipe, Continue); }
      OffsetReached(toks, base, count, kids, a);
      TokenTells(toks, base, count, kids, action, a);
      OwnId(states[..], current, kids, a);
      SwitchTo(o, base, count, action, kids, a);
      WhichOffset(kids, a);
      var r := InvokeAny(o, base + action);
      if Completes(r) {
        LeaveAction(o, base, count, action, true, kids, a);
        return Code(Pipe, Continue);
      }
      code := Answered(r);
    }

    /** `se_field_dispatch` on a tick */
    method FieldTick(o: Oracle, base: nat, count: nat, val: int, ghost kids: seq<Node>) returns (code: Code)
      requires Encodes(toks, base, count, kids) && Separate(states[..], current, kids) && kids != []
      requires base + count < |toks| && toks[base + count] == Close && Cased(kids) && UserOk(kids)
      modifies this, states
      ensures Outcome(W(), code) == SeField.FieldTick(old(W()), o, old(current), kids, val) && current == old(current)
      ensures UserOk(kids)
    {
      hide Leave, Rearm, Switch, Invoke, Encodes;
      var action := FindAction(base, count, val, kids);
      ghost var a := Scan(kids, 1, val, 0);
      ScanIsCall(kids, val);
      if a > 0 { OffsetsRise(kids, 0, a); }
      if action == 0 { return Code(App, Continue); }
      OffsetReached(toks, base, count, kids, a);
      TokenTells(toks, base, count, kids, action, a);
      OwnId(states[..], current, kids, a);
      SwitchTo(o, base, count, action, kids, a);
      WhichOffset(kids, a);
      code := InvokeAny(o, base + action);
      if Completes(code) {
        LeaveAction(o, base, count, action, true, kids, a);
        SetOwnUser(NO_INDEX);
        code := Code(Pipe, Continue);
      }
    }

    /** `se_state_machine` and `se_field_dispatch` on TERMINATE */
    method MachineStop(o: Oracle, base: nat, count: nat, ghost kids: seq<Node>)
      requires Encodes(toks, base, count, kids) && Separate(states[..], current, kids) && Cased(kids) && UserOk(kids)
      modifies this, states
      ensures W() == MachineStep(old(W()), o, old(current), kids, Stop) && current == old(current)
      ensures UserOk(kids)
    {
      var prev := states[current].user;
      if Named(prev) {
        ghost var k := Which(kids, prev, 0);
        OffsetReached(toks, base, count, kids, k);
        LeaveAction(o, base, count, prev, false, kids, k);
      }
      SetOwnUser(NO_INDEX);
    }

    // ---- se_while ------------------------------------------------------------

    /** `s_expr_child_invoke` on a call */
    method ChildInvoke(o: Oracle, base: nat, count: nat, k: nat, ghost kids: seq<Node>) returns (code: Code)
      requires Encodes(toks, base, count, kids) && Separate(states[..], current, kids) && k < |kids| && kids[k].Call?
      modifies this, states
      ensures kids[k].fn.node < states.Length && current == old(current)
      ensures Outcome(W(), code) == SeWhile.ChildInvoke(old(W()), o, kids[k].fn)
    {
      hide Encodes, Invoke, TerminateChild;
      var at := ChildIndex(toks, base, count, k, kids);
      TokenTells(toks, base, count, kids, at, k);
      OwnId(states[..], current, kids, k);
      code := InvokeAny(o, base + at);
      if code == Code(App, Disable) {
        TerminateAt(o, base + at, kids[k]);
        code := Code(App, Continue);
      }
    }

    /** `s_expr_child_terminate` on a call */
    method ChildTerminate(o: Oracle, base: nat, count: nat, k: nat, ghost kids: seq<Node>)
      requires Encodes(toks, base, count, kids) && Separate(states[..], current, kids) && k < |kids| && kids[k].Call?
      modifies this, states
      ensures kids[k].fn.node < states.Length && current == old(current)
      ensures W() == TerminateChild(old(W()), o, kids[k].fn)
    {
      hide Encodes, TerminateChild;
      var at := ChildIndex(toks, base, count, k, kids);
      TokenTells(toks, base, count, kids, at, k);
      OwnId(states[..], current, kids, k);
      TerminateAt(o, base + at, kids[k]);
    }

    /** `s_expr_child_reset_recursive` */
    method ChildReset(base: nat, count: nat, k: nat, ghost kids: seq<Node>)
      requires Encodes(toks, base, count, kids) && Separate(states[..], current, kids) && k < |kids|
      modifies states
      ensures W() == Rearm(old(W()), kids, k) && states[current] == old(states[current])
    {
      hide Encodes, Rearm;
      var at := ChildIndex(toks, base, count, k, kids);
      ResetAction(base, count, at, kids, k);
    }

    /** The body's tick */
    method RunBody(o: Oracle, base: nat, count: nat, ghost kids: seq<Node>) returns (code: Code)
      requires Encodes(toks, base, count, kids) && Separate(states[..], current, kids) && SeWhile.Loop(kids)
      modifies this, states
      ensures Outcome(W(), code) == SeWhile.RunBody(old(W()), o, old(current), kids) && current == old(current)
    {
      hide Encodes, SeWhile.ChildInvoke, TerminateChild, Rearm;
      var r := ChildInvoke(o, base, count, 1, kids);
      if !r.level.Pipe? { return r; }
      if !Completes(r) { return Code(Function, Halt); }
      ChildTerminate(o, base, count, 1, kids);
      ChildReset(base, count, 1, kids);
      SetOwnState(0);
      code := Code(Pipe, Halt);
    }

    /** `se_while` on a tick */
    method WhileTick(o: Oracle, base: nat, count: nat, ghost kids: seq<Node>) returns (code: Code)
      requires Encodes(toks, base, count, kids) && Separate(states[..], current, kids) && SeWhile.Loop(kids)
      modifies this, states
      ensures Outcome(W(), code) == SeWhile.WhileTick(old(W()), o, old(current), kids) && current == old(current)
    {
      hide Encodes, Fire, Rearm, SeWhile.RunBody;
      OwnId(states[..], current, kids, 0);
      var state := states[current].state;
      if state == 0 {
        var at := ChildIndex(toks, base, count, 0, kids);
        TokenTells(toks, base, count, kids, at, 0);
        var cond := InvokeAny(o, base + at);
        if cond != Code(Pipe, Continue) { return Code(Pipe, Disable); }
        ChildReset(base, count, 1, kids);
        SetOwnState(1);
      } else if state != 1 {
        return Code(Pipe, Disable);
      }
      code := RunBody(o, base, count, kids);
    }

    // ---- se_fork_join --------------------------------------------------------

    /** One child of the walk */
    method ForkTurn(o: Oracle, base: nat, count: nat, k: nat, ghost kids: seq<Node>) returns (ended: SeFork.Ended)
      requires Encodes(toks, base, count, kids) && Separate(states[..], current, kids) && k < |kids|
      modifies this, states
      ensures SeFork.Walk(W(), ended, k + 1) == SeFork.Turn(old(W()), o, old(current), kids, k)
      ensures current == old(current)
    {
      hide Encodes, Invoke, TerminateChild, Rearm;
      ended := SeFork.Through;
      var at := ChildIndex(toks, base, count, k, kids);
      TokenTells(toks, base, count, kids, at, k);
      if !toks[base + at].OpenCall? { return; }
      OwnId(states[..], current, kids, k);
      var fn := toks[base + at + 1].fn;
      if !fn.kind.FMain? {
        if !states[fn.node].inited { var _ := InvokeAny(o, base + at); }
      } else if states[fn.node].active {
        var r := InvokeAny(o, base + at);
        if !Completes(r) { return SeFork.Verdict(r); }
        TerminateAt(o, base + at, kids[k]);
        if r.kind.Reset? { ResetAction(base, count, at, kids, k); }
      }
    }

    /** The count of active MAIN children is not zero. */
    method AnyActive(base: nat, count: nat, n: nat, ghost kids: seq<Node>) returns (some: bool)
      requires Encodes(toks, base, count, kids) && Separate(states[..], current, kids) && n == |kids|
      ensures some == SeFork.SomeActive(W(), kids)
    {
      hide Encodes;
      var active := 0;
      for i := 0 to n
        invariant active > 0 <==> exists k :: 0 <= k < i && IsMain(kids[k]) && kids[k].fn.node < states.Length
                                              && states[kids[k].fn.node].active
      {
        var at := ChildIndex(toks, base, count, i, kids);
        TokenTells(toks, base, count, kids, at, i);
        if toks[base + at].OpenCall? {
          OwnId(states[..], current, kids, i);
          var fn := toks[base + at + 1].fn;
          if fn.kind.FMain? && states[fn.node].active { active := active + 1; }
        }
      }
      some := active > 0;
    }

    /** `se_fork_join` on a tick */
    method ForkTick(o: Oracle, base: nat, count: nat, ghost kids: seq<Node>) returns (code: Code)
      requires Encodes(toks, base, count, kids) && Separate(states[..], current, kids)
      modifies this, states
      ensures Outcome(W(), code) == SeFork.ForkTick(old(W()), o, old(current), kids) && current == old(current)
    {
      hide Encodes, SeFork.Turn, SeFork.SomeActive;
      ghost var self, walk := current, SeFork.ForkFrom(W(), o, current, kids, 0);
      var n := ChildCount(toks, base, count, kids);
      var i, ended := 0, SeFork.Through;
      while i < n && ended.Through?
        invariant i <= n && current == self && Separate(states[..], self, kids)
        invariant if ended.Through? then
                    SeFork.ForkFrom(W(), o, self, kids, i) == walk
                  else walk.w == W() && walk.ended == ended
        decreases n - i
      {
        ended := ForkTurn(o, base, count, i, kids);
        i := i + 1;
      }
      if ended.Cut? { return ended.code; }
      var some := AnyActive(base, count, n, kids);
      code := if some then Code(Function, Halt) else Code(Pipe, Disable);
    }
  }

  /** What a call that may not have returned has returned. */
  ghost function Returned(w: World, code: Option<Code>): Option<Outcome> {
    if code.None? then None else Some(Outcome(w, code.value))
  }

  /** The cast to `int16_t`. */
  function AsInt16(x: int): int { (x + 0x8000) % 0x1_0000 - 0x8000 }

  /** A parameter takes at least one token. */
  lemma ChildrenFit(toks: seq<Token>, base: nat, count: nat, kids: seq<Node>)
    requires Encodes(toks, base, count, kids)
    ensures |kids| <= count < NO_INDEX
  {}

  /** The offset of a parameter is where a walk stands before it. */
  lemma OffsetReached(toks: seq<Token>, base: nat, count: nat, kids: seq<Node>, k: nat)
    requires Encodes(toks, base, count, kids) && k < |kids|
    ensures AtChild(toks, base, count, kids, Offset(kids, k), k)
  {
    OffsetIsLength(kids, k);
    var at := Offset(kids, k);
    assert toks[base + at..base + count] == toks[base..base + count][at..];
  }

  /** The scan stands before parameter `k`, or one past the end; what is left to scan decides the result. */
  ghost predicate Scanning(toks: seq<Token>, base: nat, count: nat, kids: seq<Node>, val: int,
                           idx: nat, k: nat, fallback: nat, dflt: nat) {
    && kids != [] && base + count < |toks| && toks[base + count] == Close && count < NO_INDEX
    && idx <= count + 1 && dflt < |kids| && fallback == (if dflt == 0 then 0 else Offset(kids, dflt))
    && (idx <= count ==> AtChild(toks, base, count, kids, idx, k)) && (idx > count ==> k > |kids|)
    && Scan(kids, k, val, dflt) == Scan(kids, 1, val, 0)
  }

  lemma ScanStarts(toks: seq<Token>, base: nat, count: nat, kids: seq<Node>, val: int)
    requires Encodes(toks, base, count, kids) && kids != [] && base + count < |toks| && toks[base + count] == Close
    ensures Scanning(toks, base, count, kids, val, Skip(toks, base, 0), 1, 0, 0)
  {
    WalkStarts(toks, base, count, kids);
    WalkSteps(toks, base, count, kids, 0, 0);
  }

  lemma ScanEnds(toks: seq<Token>, base: nat, count: nat, kids: seq<Node>, val: int, idx: nat, k: nat, fallback: nat,
          dflt: nat)
    requires Scanning(toks, base, count, kids, val, idx, k, fallback, dflt) && idx >= count
    ensures Scan(kids, 1, val, 0) == dflt < |kids| && fallback == if dflt == 0 then 0 else Offset(kids, dflt)
  {
    if idx == count { WalkSteps(toks, base, count, kids, idx, k); }
  }

  /** One round of the scan. */
  lemma ScanSteps(toks: seq<Token>, base: nat, count: nat, kids: seq<Node>, val: int, idx: nat, k: nat,
          fallback: nat, dflt: nat)
    requires Scanning(toks, base, count, kids, val, idx, k, fallback, dflt) && idx < count
    ensures base + idx < |toks| && base + Skip(toks, base, idx) < |toks| && Skip(toks, base, idx) > idx
    ensures var key, next := toks[base + idx], Skip(toks, base, idx);
      if !(key.Atom? && (key.op == OP_INT || key.op == OP_UINT)) then
        Scanning(toks, base, count, kids, val, next, k + 1, fallback, dflt)
      else if next < count && AsInt32(key.word) == val then
        k + 1 < |kids| && Scan(kids, 1, val, 0) == k + 1 && next == Offset(kids, k + 1)
      else
        var last := next < count && AsInt32(key.word) == -1;
        Scanning(toks, base, count, kids, val, Skip(toks, base, next), k + 2,
                 if last then next else fallback, if last then k + 1 else dflt) && Skip(toks, base, next) > next
  {
    hide AsInt32, Encodes;
    WalkSteps(toks, base, count, kids, idx, k);
    LeafTells(toks, base, count, kids, idx, k);
    var next := Skip(toks, base, idx);
    WalkSteps(toks, base, count, kids, next, k + 1);
  }

  /** An atom token is a leaf parameter, with the same opcode and value. */
  lemma LeafTells(toks: seq<Token>, base: nat, count: nat, kids: seq<Node>, idx: nat, k: nat)
    requires AtChild(toks, base, count, kids, idx, k) && k < |kids| && base + idx < |toks| && idx < count
    ensures toks[base + idx].Atom? <==> kids[k].Leaf?
    ensures kids[k].Leaf? ==> toks[base + idx] == Atom(kids[k].op, kids[k].word)
  {
    assert toks[base + idx] == toks[base + idx..base + count][0] == EncodeAll(kids[k..])[0] == Encode(kids[k])[0];
  }
}
