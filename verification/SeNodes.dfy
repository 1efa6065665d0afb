/**
 Invocation of callables and the composite `se_sequence` (`s_engine/runtime/s_engine_eval.c`,
 `s_engine_builtins_flow_control.h`): INIT before the first event, TERMINATE after DISABLE, and
 children run to completion one after the other across ticks. What children answer is arbitrary.
 */
module SeNodes {
  import opened Options
  import opened SeTree

  datatype Ev = EvInit | EvTick | EvTerm

  /** `s_expr_result_t`: three levels of six codes. */
  datatype Level = App | Function | Pipe
  datatype Kind = Continue | Halt | Terminate | Reset | Disable | SkipContinue
  datatype Code = Code(level: Level, kind: Kind)

  /**
   What a child function leaves in its own node and returns. Predicates return `truth`, and some of them set
   their own INITIALIZED flag (`marks`).
   */
  datatype Answer = Answer(code: Code, state: nat, user: nat, truth: bool, marks: bool)

  /** One call of a child function. */
  datatype Fired = Fired(fn: Fn, ev: Ev, code: Code)

  /**
   The children's functions. The leading argument, the number of calls so far, stands for everything else
   they may depend on; they touch no node but their own.
   */
  type Oracle = (nat, Fn, NodeState, Ev) -> Answer

  datatype World = World(states: seq<NodeState>, trace: seq<Fired>)

  datatype Outcome = Outcome(w: World, code: Code)

  // ---- one callable ----------------------------------------------------------

  function Fire(w: World, o: Oracle, fn: Fn, ev: Ev): (r: Outcome)
    requires fn.node < |w.states|
    ensures |r.w.states| == |w.states|
  {
    var a := o(|w.trace|, fn, w.states[fn.node], ev);
    var inited := w.states[fn.node].inited || (fn.kind.FPred? && a.marks);
    var s := w.states[fn.node].(inited := inited, state := a.state % 0x100, user := a.user % 0x1_0000);
    var code := if fn.kind.FPred? then (if a.truth then Code(Pipe, Continue) else Code(Pipe, Halt)) else a.code;
    Outcome(World(w.states[fn.node := s], w.trace + [Fired(fn, ev, code)]), code)
  }

  function Flag(w: World, n: nat, s: NodeState): (r: World)
    requires n < |w.states|
    ensures |r.states| == |w.states|
  {
    w.(states := w.states[n := s])
  }

  /** `dispatch_main`: lazy INIT, the event, and TERMINATE with deactivation when the event answers DISABLE. */
  function DispatchMain(w: World, o: Oracle, fn: Fn): (r: Outcome)
    requires fn.node < |w.states|
    ensures |r.w.states| == |w.states|
  {
    var n := fn.node;
    if !w.states[n].active then Outcome(w, Code(Pipe, Continue))
    else
      var w1 := if w.states[n].inited then w else Fire(Flag(w, n, w.states[n].(inited := true)), o, fn, EvInit).w;
      var tick := Fire(w1, o, fn, EvTick);
      if tick.code != Code(Pipe, Disable) then tick
      else
        var w2 := Fire(tick.w, o, fn, EvTerm).w;
        Outcome(Flag(w2, n, w2.states[n].(active := false)), tick.code)
  }

  /** `dispatch_oneshot`: fires once, until a reset, or ever if the node survives resets. */
  function DispatchOneshot(w: World, o: Oracle, fn: Fn): (r: World)
    requires fn.node < |w.states|
    ensures |r.states| == |w.states|
  {
    var s := w.states[fn.node];
    if (if fn.survives then s.ever else s.inited) then w
    else Fire(Flag(w, fn.node, if fn.survives then s.(ever := true) else s.(inited := true)), o, fn, EvTick).w
  }

  /** `s_expr_invoke_any` on a callable */
  function Invoke(w: World, o: Oracle, fn: Fn): (r: Outcome)
    requires fn.node < |w.states|
    ensures |r.w.states| == |w.states|
  {
    match fn.kind
    case FMain => DispatchMain(w, o, fn)
    case FOneshot => Outcome(DispatchOneshot(w, o, fn), Code(Pipe, Continue))
    case FPred => Fire(w, o, fn, EvTick)
  }

  /** `s_expr_child_terminate` and `terminate_action_at_index`: an initialized MAIN is told and cleared. */
  function TerminateChild(w: World, o: Oracle, fn: Fn): (r: World)
    requires fn.node < |w.states|
    ensures |r.states| == |w.states|
  {
    if !fn.kind.FMain? || !w.states[fn.node].inited then w
    else Flag(Fire(w, o, fn, EvTerm).w, fn.node, OFF_STATE)
  }

  /** A dispatched MAIN that is active has exactly one tick, and its answer is what the dispatch returns. */
  lemma OneTick(w: World, o: Oracle, fn: Fn) returns (at: nat)
    requires fn.node < |w.states| && w.states[fn.node].active
    ensures var out := DispatchMain(w, o, fn);
      && |w.trace| <= at < |out.w.trace| && out.w.trace[..|w.trace|] == w.trace
      && (forall i :: |w.trace| <= i < |out.w.trace| ==> out.w.trace[i].fn == fn) && out.w.trace[at].ev == EvTick
      && (!fn.kind.FPred? ==> out.w.trace[at].code == out.code)
      && (forall i :: |w.trace| <= i < |out.w.trace| && i != at ==> out.w.trace[i].ev != EvTick)
      && (out.code != Code(Pipe, Disable) ==> at == |out.w.trace| - 1)
      && out.w.states[fn.node].inited && (out.w.states[fn.node].active <==> out.code != Code(Pipe, Disable))
  {
    at := if w.states[fn.node].inited then |w.trace| else |w.trace| + 1;
  }

  // ---- se_sequence -----------------------------------------------------------

  predicate Completes(c: Code) { c.level.Pipe? && (c.kind.Disable? || c.kind.Terminate? || c.kind.Reset?) }

  /** What a sequence returns when its child is still running. */
  function Passed(c: Code): Code {
    match c.level
    case App => c
    case Function => if c.kind.Halt? then Code(Pipe, Halt) else c
    case Pipe => Code(Pipe, Continue)
  }

  /** The state byte of the sequence's own node. */
  function SetState(w: World, self: nat, v: nat): (r: World)
    requires self < |w.states|
    ensures |r.states| == |w.states|
  {
    Flag(w, self, w.states[self].(state := v % 0x100))
  }

  /** Distinct node states for the composite and everything under it. */
  ghost predicate Separate(states: seq<NodeState>, self: nat, kids: seq<Node>) {
    && self < |states|
    && (forall k :: 0 <= k < |kids| ==> self !in CallIds(kids[k]) && forall i :: i in CallIds(kids[k]) ==> i < |states|)
    && (forall j, k :: 0 <= j < k < |kids| ==> CallIds(kids[j]) !! CallIds(kids[k]))
  }

  lemma OwnId(states: seq<NodeState>, self: nat, kids: seq<Node>, k: nat)
    requires Separate(states, self, kids) && k < |kids| && kids[k].Call?
    ensures kids[k].fn.node in CallIds(kids[k]) && kids[k].fn.node < |states| && kids[k].fn.node != self
    ensures forall j :: 0 <= j < |kids| && j != k && kids[j].Call? ==> kids[j].fn.node != kids[k].fn.node
  {
    assert forall j :: 0 <= j < |kids| && kids[j].Call? ==> kids[j].fn.node in CallIds(kids[j]);
  }

  lemma SameSeparate(a: seq<NodeState>, b: seq<NodeState>, self: nat, kids: seq<Node>)
    requires Separate(a, self, kids) && |a| == |b|
    ensures Separate(b, self, kids)
  {}

  /**
   The in-tick loop, for at most `limit` turns; `pos` is a byte and wraps round. None: it has not returned yet.
   */
  ghost function SeqLoop(w: World, o: Oracle, self: nat, kids: seq<Node>, pos: nat, limit: nat): (r: Option<Outcome>)
    requires Separate(w.states, self, kids)
    ensures r.Some? ==> |r.value.w.states| == |w.states|
    decreases limit
  {
    if pos >= |kids| then Some(Outcome(w, Code(Pipe, Disable)))
    else if limit == 0 then None
    else
      var next := (pos + 1) % 0x100;
      if !kids[pos].Call? then SeqLoop(SetState(w, self, next), o, self, kids, next, limit - 1)
      else
        var fn := kids[pos].fn;
        OwnId(w.states, self, kids, pos);
        var out := Invoke(w, o, fn);
        if !fn.kind.FMain? then SeqLoop(SetState(out.w, self, next), o, self, kids, next, limit - 1)
        else if !Completes(out.code) then Some(Outcome(out.w, Passed(out.code)))
        else SeqLoop(SetState(TerminateChild(out.w, o, fn), self, next), o, self, kids, next, limit - 1)
  }

  /** A tick of a sequence returns `out`. */
  ghost predicate TickReturns(w: World, o: Oracle, self: nat, kids: seq<Node>, out: Outcome)
    requires Separate(w.states, self, kids)
  {
    exists limit: nat :: SeqLoop(w, o, self, kids, w.states[self].state, limit) == Some(out)
  }

  /** What that loop returns from child `pos` when there are few enough children for the byte to count them. */
  ghost function SeqFrom(w: World, o: Oracle, self: nat, kids: seq<Node>, pos: nat): (r: Outcome)
    requires Separate(w.states, self, kids) && |kids| <= 255
    ensures |r.w.states| == |w.states|
    decreases if pos < |kids| then |kids| - pos else 0
  {
    if pos >= |kids| then Outcome(w, Code(Pipe, Disable))
    else if !kids[pos].Call? then SeqFrom(SetState(w, self, pos + 1), o, self, kids, pos + 1)
    else
      var fn := kids[pos].fn;
      OwnId(w.states, self, kids, pos);
      var out := Invoke(w, o, fn);
      if !fn.kind.FMain? then SeqFrom(SetState(out.w, self, pos + 1), o, self, kids, pos + 1)
      else if !Completes(out.code) then Outcome(out.w, Passed(out.code))
      else SeqFrom(SetState(TerminateChild(out.w, o, fn), self, pos + 1), o, self, kids, pos + 1)
  }

  /** `se_sequence` on INIT and TERMINATE. */
  ghost function SeqEnter(w: World, self: nat): (r: World)
    requires self < |w.states|
    ensures |r.states| == |w.states|
  {
    SetState(w, self, 0)
  }

  ghost function SeqLeave(w: World, o: Oracle, self: nat, kids: seq<Node>): (r: World)
    requires Separate(w.states, self, kids)
    ensures |r.states| == |w.states|
  {
    var pos := w.states[self].state;
    var w1 := if pos < |kids| && kids[pos].Call? then
                OwnId(w.states, self, kids, pos);
                TerminateChild(w, o, kids[pos].fn)
              else w;
    SetState(w1, self, 0)
  }

  /** `se_sequence` with at most 255 children. */
  ghost function SeqStep(w: World, o: Oracle, self: nat, kids: seq<Node>, ev: Ev): (r: Outcome)
    requires Separate(w.states, self, kids) && |kids| <= 255
    ensures |r.w.states| == |w.states|
  {
    match ev
    case EvTick => SeqFrom(w, o, self, kids, w.states[self].state)
    case EvInit => Outcome(SeqEnter(w, self), Code(Pipe, Continue))
    case EvTerm => Outcome(SeqLeave(w, o, self, kids), Code(Pipe, Continue))
  }

  /** The tick loop returns after one turn per child left, and with that. */
  lemma {:induction false} LoopReturns(w: World, o: Oracle, self: nat, kids: seq<Node>, pos: nat, limit: nat)
    requires Separate(w.states, self, kids) && |kids| <= 255 && pos <= 255
    ensures pos + limit >= |kids| ==> SeqLoop(w, o, self, kids, pos, limit) == Some(SeqFrom(w, o, self, kids, pos))
    ensures SeqLoop(w, o, self, kids, pos, limit).Some? ==>
              SeqLoop(w, o, self, kids, pos, limit) == Some(SeqFrom(w, o, self, kids, pos))
    decreases limit
  {
    hide Invoke, TerminateChild, Passed, Completes, SetState, Separate;
    if pos < |kids| && limit > 0 {
      var t, goesOn := w, true;
      if kids[pos].Call? {
        var fn := kids[pos].fn;
        OwnId(w.states, self, kids, pos);
        var out := Invoke(w, o, fn);
        t := if fn.kind.FMain? then TerminateChild(out.w, o, fn) else out.w;
        goesOn := !fn.kind.FMain? || Completes(out.code);
      }
      if goesOn {
        SameSelf(w, t, self, kids, pos + 1);
        LoopReturns(SetState(t, self, pos + 1), o, self, kids, pos + 1, limit - 1);
      }
    }
  }

  lemma SameSelf(w: World, t: World, self: nat, kids: seq<Node>, v: nat)
    requires Separate(w.states, self, kids) && |t.states| == |w.states|
    ensures self < |t.states| && Separate(SetState(t, self, v).states, self, kids)
  {}

  /** Every tick of a sequence of at most 255 children returns, and returns what `SeqStep` says. */
  lemma TickReturnsStep(w: World, o: Oracle, self: nat, kids: seq<Node>, out: Outcome)
    requires Separate(w.states, self, kids) && |kids| <= 255 && w.states[self].state <= 255
    ensures TickReturns(w, o, self, kids, out) <==> out == SeqStep(w, o, self, kids, EvTick)
  {
    hide SeqLoop, SeqFrom;
    var pos := w.states[self].state;
    LoopReturns(w, o, self, kids, pos, 255);
    if TickReturns(w, o, self, kids, out) {
      var limit: nat :| SeqLoop(w, o, self, kids, pos, limit) == Some(out);
      LoopReturns(w, o, self, kids, pos, limit);
    }
  }

  /** With more children the index never gets past them: no number of turns ends on completed children. */
  lemma {:induction false} LoopNeverCompletes(w: World, o: Oracle, self: nat, kids: seq<Node>, pos: nat, limit: nat)
    requires Separate(w.states, self, kids) && |kids| > 255 && pos <= 255
    ensures var r := SeqLoop(w, o, self, kids, pos, limit); r.Some? ==> r.value.code != Code(Pipe, Disable)
    decreases limit
  {
    hide Invoke, TerminateChild;
    if limit > 0 {
      var next := (pos + 1) % 0x100;
      if !kids[pos].Call? {
        LoopNeverCompletes(SetState(w, self, next), o, self, kids, next, limit - 1);
      } else {
        var fn := kids[pos].fn;
        OwnId(w.states, self, kids, pos);
        var out := Invoke(w, o, fn);
        if !fn.kind.FMain? {
          LoopNeverCompletes(SetState(out.w, self, next), o, self, kids, next, limit - 1);
        } else if Completes(out.code) {
          LoopNeverCompletes(SetState(TerminateChild(out.w, o, fn), self, next), o, self, kids, next, limit - 1);
        }
      }
    }
  }

  // ---- the story of a sequence -----------------------------------------------

  predicate Is(f: Fired, fn: Fn, ev: Ev) { f.fn == fn && f.ev == ev }

  /** A MAIN child under way: INIT, then ticks none of which completed it. */
  ghost predicate Ticking(fn: Fn, ts: seq<Fired>) {
    && |ts| >= 1 && Is(ts[0], fn, EvInit)
    && forall i :: 1 <= i < |ts| ==> Is(ts[i], fn, EvTick) && !Completes(ts[i].code)
  }

  /** The calls of a child whose turn is over; DISABLE is followed by TERMINATE twice, the other endings once. */
  ghost predicate Finished(n: Node, start: NodeState, ts: seq<Fired>) {
    if !n.Call? then ts == []
    else match n.fn.kind
      case FPred => |ts| == 1 && Is(ts[0], n.fn, EvTick)
      case FOneshot => if n.fn.survives && start.ever then ts == [] else |ts| == 1 && Is(ts[0], n.fn, EvTick)
      case FMain => exists live, last: Fired, ends :: Ending(n.fn, ts, live, last, ends)
  }

  ghost predicate Ending(fn: Fn, ts: seq<Fired>, live: seq<Fired>, last: Fired, ends: seq<Fired>) {
    && ts == live + [last] + ends && Ticking(fn, live) && Is(last, fn, EvTick) && Completes(last.code)
    && |ends| == (if last.code.kind.Disable? then 2 else 1)
    && forall i :: 0 <= i < |ends| ==> Is(ends[i], fn, EvTerm)
  }

  /** The calls of the child whose turn it is. */
  ghost predicate Current(n: Node, ts: seq<Fired>) {
    ts == [] || (n.Call? && n.fn.kind.FMain? && |ts| >= 2 && Ticking(n.fn, ts))
  }

  ghost function Concat(chapters: seq<seq<Fired>>): seq<Fired> {
    if chapters == [] then [] else Concat(chapters[..|chapters| - 1]) + chapters[|chapters| - 1]
  }

  /** The node of a child before, during and after its turn. */
  ghost predicate KidState(n: Node, start: NodeState, now: NodeState, over: bool, ts: seq<Fired>)
    requires n.Call?
  {
    if over then (n.fn.kind.FMain? ==> now == OFF_STATE)
    else if ts == [] then now == start
    else now.active && now.inited
  }

  /** `chapters[k]` is what child `k` was called with: finished chapters, the current one, and nothing after. */
  ghost predicate Story(start: World, w: World, self: nat, kids: seq<Node>, pos: nat, chapters: seq<seq<Fired>>) {
    && Separate(start.states, self, kids) && |w.states| == |start.states|
    && |chapters| == pos + 1 && pos <= |kids|
    && w.trace == start.trace + Concat(chapters)
    && (forall k :: 0 <= k < pos ==> ChapterOf(start, w, kids, k, chapters[k]))
    && (pos == |kids| ==> chapters[pos] == [])
    && (pos < |kids| ==> Current(kids[pos], chapters[pos]))
    && (forall k :: pos <= k < |kids| && kids[k].Call? ==>
          var n := kids[k].fn.node;
          n < |w.states| && KidState(kids[k], start.states[n], w.states[n], false, if k == pos then chapters[k] else []))
  }

  ghost predicate ChapterOf(start: World, w: World, kids: seq<Node>, k: nat, ts: seq<Fired>)
    requires k < |kids|
  {
    if !kids[k].Call? then ts == []
    else
      && kids[k].fn.node < |start.states| && kids[k].fn.node < |w.states|
      && Finished(kids[k], start.states[kids[k].fn.node], ts)
      && KidState(kids[k], start.states[kids[k].fn.node], w.states[kids[k].fn.node], true, ts)
  }

  /** A fresh start: every child active and not initialized. */
  ghost predicate Fresh(start: World, self: nat, kids: seq<Node>) {
    && Separate(start.states, self, kids)
    && forall k :: 0 <= k < |kids| && kids[k].Call? ==>
         kids[k].fn.node < |start.states| && start.states[kids[k].fn.node].active && !start.states[kids[k].fn.node].inited
  }

  lemma ConcatSnoc(chapters: seq<seq<Fired>>, ts: seq<Fired>)
    ensures Concat(chapters + [ts]) == Concat(chapters) + ts
  {
    assert (chapters + [ts])[..|chapters|] == chapters;
  }

  /** Everything but node `n` is as it was, and `more` was called. */
  ghost predicate OnlyNode(w: World, t: World, n: nat, more: seq<Fired>) {
    && n < |w.states| == |t.states| && t.trace == w.trace + more
    && forall i :: 0 <= i < |w.states| && i != n ==> t.states[i] == w.states[i]
  }

  /** The calls of a MAIN whose tick answered `code` and completed it, before the composite terminates it. */
  ghost predicate Completed(fn: Fn, ts: seq<Fired>, code: Code, live: seq<Fired>, last: Fired, ends: seq<Fired>) {
    && ts == live + [last] + ends && Ticking(fn, live) && Is(last, fn, EvTick) && last.code == code
    && |ends| == (if code.kind.Disable? then 1 else 0) && forall i :: 0 <= i < |ends| ==> Is(ends[i], fn, EvTerm)
  }

  /** One invocation of an active MAIN: its story goes on by INIT if it is the first, the tick, and TERMINATE on DISABLE. */
  lemma MainTurn(w: World, o: Oracle, fn: Fn, ts: seq<Fired>) returns (more: seq<Fired>)
    requires fn.node < |w.states| && w.states[fn.node].active
    requires if ts == [] then !w.states[fn.node].inited else w.states[fn.node].inited && |ts| >= 2 && Ticking(fn, ts)
    ensures var out := DispatchMain(w, o, fn);
      && OnlyNode(w, out.w, fn.node, more) && out.w.states[fn.node].inited
      && (!Completes(out.code) ==> out.w.states[fn.node].active && Ticking(fn, ts + more) && |ts + more| >= 2)
      && (Completes(out.code) ==>
            exists live, last: Fired, ends :: Completed(fn, ts + more, out.code, live, last, ends))
  {
    var n := fn.node;
    var w1 := if w.states[n].inited then w else Fire(Flag(w, n, w.states[n].(inited := true)), o, fn, EvInit).w;
    var live := if ts == [] then [w1.trace[|w.trace|]] else ts;
    var tick := Fire(w1, o, fn, EvTick);
    var last := Fired(fn, EvTick, tick.code);
    more := (if ts == [] then live else []) + [last];
    assert w1.trace == w.trace + if ts == [] then live else [];
    assert tick.w.trace == w.trace + more;
    assert ts + more == live + [last];
    if tick.code == Code(Pipe, Disable) {
      var end := Fire(tick.w, o, fn, EvTerm);
      var ends := [Fired(fn, EvTerm, end.code)];
      more := more + ends;
      assert DispatchMain(w, o, fn).w.trace == w.trace + more;
      assert ts + more == live + [last] + ends;
      assert Completed(fn, ts + more, tick.code, live, last, ends);
    } else {
      assert ts + more == live + [last] + [];
      assert Completes(tick.code) ==> Completed(fn, ts + more, tick.code, live, last, []);
    }
  }

  /** A MAIN whose tick completed it, terminated by the composite: its chapter is closed. */
  lemma MainEnds(w: World, o: Oracle, fn: Fn, ts: seq<Fired>) returns (more: seq<Fired>)
    requires fn.node < |w.states| && w.states[fn.node].active && fn.kind.FMain?
    requires if ts == [] then !w.states[fn.node].inited else w.states[fn.node].inited && |ts| >= 2 && Ticking(fn, ts)
    requires Completes(DispatchMain(w, o, fn).code)
    ensures var t := TerminateChild(DispatchMain(w, o, fn).w, o, fn);
      && OnlyNode(w, t, fn.node, more) && t.states[fn.node] == OFF_STATE
      && exists live, last: Fired, ends :: Ending(fn, ts + more, live, last, ends)
  {
    var out := DispatchMain(w, o, fn);
    var first := MainTurn(w, o, fn, ts);
    var live, last: Fired, ends :| Completed(fn, ts + first, out.code, live, last, ends);
    var end := Fired(fn, EvTerm, Fire(out.w, o, fn, EvTerm).code);
    more := first + [end];
    assert TerminateChild(out.w, o, fn).trace == w.trace + more;
    assert ts + more == (ts + first) + [end] == live + [last] + (ends + [end]);
    assert Ending(fn, ts + more, live, last, ends + [end]);
  }

  lemma ChapterCloses(chapters: seq<seq<Fired>>, more: seq<Fired>)
    requires chapters != []
    ensures var n := |chapters| - 1;
      Concat(chapters[..n] + [chapters[n] + more, []]) == Concat(chapters) + more
      && Concat(chapters[n := chapters[n] + more]) == Concat(chapters) + more
  {
    var n := |chapters| - 1;
    var most, last := chapters[..n], chapters[n];
    ConcatSnoc(most, last + more);
    ConcatSnoc(most + [last + more], []);
    assert most + [last + more, []] == most + [last + more] + [[]];
    assert chapters[n := last + more] == most + [last + more];
  }

  /** The child at `pos` has had its turn: the story moves on to the next one. */
  lemma TurnOver(start: World, w: World, t: World, self: nat, kids: seq<Node>, pos: nat, chapters: seq<seq<Fired>>,
          more: seq<Fired>)
    requires Story(start, w, self, kids, pos, chapters) && pos < |kids| <= 255 && |t.states| == |w.states|
    requires t.trace == w.trace + more
    requires forall i :: 0 <= i < |w.states| && i != self && !(kids[pos].Call? && i == kids[pos].fn.node) ==>
                           t.states[i] == w.states[i]
    requires ChapterOf(start, t, kids, pos, chapters[pos] + more)
    ensures var u := SetState(t, self, pos + 1);
      Story(start, u, self, kids, pos + 1, chapters[..pos] + [chapters[pos] + more, []]) && u.states[self].state == pos + 1
  {
    hide Concat, Finished, Ticking;
    var u := SetState(t, self, pos + 1);
    var cs := chapters[..pos] + [chapters[pos] + more, []];
    ChapterCloses(chapters, more);
    forall k | 0 <= k < |kids| && kids[k].Call?
      ensures kids[k].fn.node < |u.states| && kids[k].fn.node != self
      ensures k != pos ==> u.states[kids[k].fn.node] == w.states[kids[k].fn.node]
      ensures k == pos ==> u.states[kids[k].fn.node] == t.states[kids[k].fn.node]
    {
      OwnId(start.states, self, kids, k);
    }
    forall k | 0 <= k < pos + 1
      ensures ChapterOf(start, u, kids, k, cs[k])
    {
      if k < pos { assert ChapterOf(start, w, kids, k, chapters[k]); }
    }
  }

  /** The child at `pos` goes on: its chapter grows and the story stays there. */
  lemma TurnGoesOn(start: World, w: World, t: World, self: nat, kids: seq<Node>, pos: nat, chapters: seq<seq<Fired>>,
          more: seq<Fired>)
    requires Story(start, w, self, kids, pos, chapters) && pos < |kids| && kids[pos].Call?
    requires OnlyNode(w, t, kids[pos].fn.node, more)
    requires Current(kids[pos], chapters[pos] + more) && chapters[pos] + more != []
    requires t.states[kids[pos].fn.node].active && t.states[kids[pos].fn.node].inited
    ensures Story(start, t, self, kids, pos, chapters[pos := chapters[pos] + more])
  {
    hide Concat, Finished, Ticking;
    var cs := chapters[pos := chapters[pos] + more];
    ChapterCloses(chapters, more);
    forall k | 0 <= k < |kids| && kids[k].Call? && k != pos
      ensures kids[k].fn.node < |t.states| && t.states[kids[k].fn.node] == w.states[kids[k].fn.node]
    {
      OwnId(start.states, self, kids, k);
      OwnId(start.states, self, kids, pos);
    }
    forall k | 0 <= k < pos
      ensures ChapterOf(start, t, kids, k, cs[k])
    {
      assert ChapterOf(start, w, kids, k, chapters[k]);
    }
  }

  /** One tick: from a story to a story; DISABLE exactly when every child has had its turn. */
  lemma {:induction false} TickStory(start: World, w: World, o: Oracle, self: nat, kids: seq<Node>, pos: nat,
          chapters: seq<seq<Fired>>)
    returns (pos': nat, chapters': seq<seq<Fired>>)
    requires Fresh(start, self, kids) && |kids| <= 255
    requires Story(start, w, self, kids, pos, chapters) && w.states[self].state == pos
    ensures var out := SeqFrom(w, o, self, kids, pos);
      && Story(start, out.w, self, kids, pos', chapters') && out.w.states[self].state == pos' && pos <= pos'
      && (out.code == Code(Pipe, Disable) <==> pos' == |kids|)
      && (pos' < |kids| ==> chapters'[pos'] != [])
    decreases |kids| - pos
  {
    hide Story, TerminateChild, DispatchMain;
    StoryEnds(start, w, self, kids, pos, chapters);
    if pos >= |kids| {
      return pos, chapters;
    }
    var t, more := w, [];
    if kids[pos].Call? {
      var fn := kids[pos].fn;
      OwnId(w.states, self, kids, pos);
      var out := Invoke(w, o, fn);
      if fn.kind.FMain? {
        StoryMain(start, w, self, kids, pos, chapters);
        if !Completes(out.code) {
          more := MainTurn(w, o, fn, chapters[pos]);
          TurnGoesOn(start, w, out.w, self, kids, pos, chapters, more);
          return pos, chapters[pos := chapters[pos] + more];
        }
        more := MainEnds(w, o, fn, chapters[pos]);
        t := TerminateChild(out.w, o, fn);
      } else {
        more := QuickTurn(start, w, o, self, kids, pos, chapters);
        t := out.w;
      }
    } else {
      assert chapters[pos] + more == [] by { StoryQuick(start, w, self, kids, pos, chapters); }
    }
    TurnOver(start, w, t, self, kids, pos, chapters, more);
    pos', chapters' := TickStory(start, SetState(t, self, pos + 1), o, self, kids, pos + 1,
                                 chapters[..pos] + [chapters[pos] + more, []]);
  }

  lemma StoryEnds(start: World, w: World, self: nat, kids: seq<Node>, pos: nat, chapters: seq<seq<Fired>>)
    requires Story(start, w, self, kids, pos, chapters)
    ensures pos <= |kids| && |chapters| == pos + 1 && Separate(w.states, self, kids)
  {}

  /** A MAIN child whose turn it is has not been called yet or is under way. */
  lemma StoryMain(start: World, w: World, self: nat, kids: seq<Node>, pos: nat, chapters: seq<seq<Fired>>)
    requires Fresh(start, self, kids) && Story(start, w, self, kids, pos, chapters) && pos < |kids|
    requires kids[pos].Call? && kids[pos].fn.kind.FMain?
    ensures |chapters| == pos + 1 && var fn, ts := kids[pos].fn, chapters[pos];
      && fn.node < |w.states| && w.states[fn.node].active
      && if ts == [] then !w.states[fn.node].inited else w.states[fn.node].inited && |ts| >= 2 && Ticking(fn, ts)
  {}

  /** Any other child whose turn it is has not been called. */
  lemma StoryQuick(start: World, w: World, self: nat, kids: seq<Node>, pos: nat, chapters: seq<seq<Fired>>)
    requires Story(start, w, self, kids, pos, chapters) && pos < |kids| && !(kids[pos].Call? && kids[pos].fn.kind.FMain?)
    ensures |chapters| == pos + 1 && chapters[pos] == []
    ensures kids[pos].Call? ==>
              var n := kids[pos].fn.node; n < |w.states| == |start.states| && w.states[n] == start.states[n]
  {}

  /** One-shots and predicates have their turn in one call. */
  lemma QuickTurn(start: World, w: World, o: Oracle, self: nat, kids: seq<Node>, pos: nat,
          chapters: seq<seq<Fired>>) returns (more: seq<Fired>)
    requires Fresh(start, self, kids) && Story(start, w, self, kids, pos, chapters) && pos < |kids|
    requires kids[pos].Call? && !kids[pos].fn.kind.FMain? && kids[pos].fn.node < |w.states|
    ensures |chapters| == pos + 1
    ensures var t := Invoke(w, o, kids[pos].fn).w;
      OnlyNode(w, t, kids[pos].fn.node, more) && ChapterOf(start, t, kids, pos, chapters[pos] + more)
  {
    hide Story;
    StoryQuick(start, w, self, kids, pos, chapters);
    var t := Invoke(w, o, kids[pos].fn).w;
    more := t.trace[|w.trace|..];
    assert chapters[pos] + more == more;
  }

  // ---- over whole runs -------------------------------------------------------

  /** The world after INIT and `n` ticks of a sequence. */
  ghost function SeqRun(w: World, o: Oracle, self: nat, kids: seq<Node>, n: nat): (r: World)
    requires Separate(w.states, self, kids) && |kids| <= 255
    ensures |r.states| == |w.states|
  {
    if n == 0 then SeqStep(w, o, self, kids, EvInit).w
    else SeqStep(SeqRun(w, o, self, kids, n - 1), o, self, kids, EvTick).w
  }

  /** What the `n`-th tick returned. */
  ghost function SeqCode(w: World, o: Oracle, self: nat, kids: seq<Node>, n: nat): Code
    requires Separate(w.states, self, kids) && n > 0 && |kids| <= 255
  {
    SeqStep(SeqRun(w, o, self, kids, n - 1), o, self, kids, EvTick).code
  }

  /**
   After any number of ticks: the calls made are one finished chapter per child before the stored index,
   in order, then the chapter of the child at the index, and no call of a later child, whose node is as
   it was. DISABLE is returned exactly when every child has had its turn.
   */
  lemma {:induction false} SequenceInOrder(w: World, o: Oracle, self: nat, kids: seq<Node>, n: nat)
    returns (pos: nat, chapters: seq<seq<Fired>>)
    requires Fresh(w, self, kids) && |kids| <= 255
    ensures var t := SeqRun(w, o, self, kids, n);
      Story(w, t, self, kids, pos, chapters) && t.states[self].state == pos
    ensures n > 0 ==> (SeqCode(w, o, self, kids, n) == Code(Pipe, Disable) <==> pos == |kids|)
  {
    if n == 0 {
      pos, chapters := 0, [[]];
      StoryStarts(w, o, self, kids);
    } else {
      var before, cs := SequenceInOrder(w, o, self, kids, n - 1);
      pos, chapters := TickStory(w, SeqRun(w, o, self, kids, n - 1), o, self, kids, before, cs);
    }
  }

  lemma StoryStarts(w: World, o: Oracle, self: nat, kids: seq<Node>)
    requires Fresh(w, self, kids) && |kids| <= 255
    ensures var t := SeqStep(w, o, self, kids, EvInit).w; Story(w, t, self, kids, 0, [[]]) && t.states[self].state == 0
  {
    var t := SeqStep(w, o, self, kids, EvInit).w;
    var none: seq<seq<Fired>> := [];
    ConcatSnoc(none, []);
    assert none + [[]] == [[]];
    forall k | 0 <= k < |kids| && kids[k].Call?
      ensures kids[k].fn.node < |t.states| && t.states[kids[k].fn.node] == w.states[kids[k].fn.node]
    {
      OwnId(w.states, self, kids, k);
    }
  }

  /** A tick that does not complete the sequence ends at child `at`: inactive, or ticked in the last call. */
  lemma {:induction false} StepAnswers(w: World, o: Oracle, self: nat, kids: seq<Node>, pos: nat) returns (at: nat)
    requires Separate(w.states, self, kids) && |kids| <= 255 && w.states[self].state == pos
    ensures var out := SeqFrom(w, o, self, kids, pos);
      && |w.trace| <= |out.w.trace| && out.w.states[self].state == at
      && (at < |kids| <==> out.code != Code(Pipe, Disable))
      && (at < |kids| ==>
            && kids[at].Call? && kids[at].fn.kind.FMain? && kids[at].fn.node < |w.states|
            && (out.w.states[kids[at].fn.node].active ==>
                  && |w.trace| < |out.w.trace| && var f := out.w.trace[|out.w.trace| - 1];
                     Is(f, kids[at].fn, EvTick) && !Completes(f.code) && out.code == Passed(f.code)))
    decreases if pos < |kids| then |kids| - pos else 0
  {
    hide DispatchMain, DispatchOneshot, Passed;
    at := pos;
    if pos < |kids| {
      var t := w;
      if kids[pos].Call? {
        var fn := kids[pos].fn;
        OwnId(w.states, self, kids, pos);
        var out := Invoke(w, o, fn);
        InvokeKeeps(w, o, fn, self);
        t := if fn.kind.FMain? then TerminateChild(out.w, o, fn) else out.w;
        if fn.kind.FMain? && !Completes(out.code) {
          MainAnswers(w, o, fn);
          PassedIs(out.code);
          return;
        }
      }
      at := StepAnswers(SetState(t, self, pos + 1), o, self, kids, pos + 1);
    }
  }

  lemma InvokeKeeps(w: World, o: Oracle, fn: Fn, i: nat)
    requires fn.node < |w.states| && i < |w.states| && i != fn.node
    ensures var out := Invoke(w, o, fn); out.w.states[i] == w.states[i] && |w.trace| <= |out.w.trace|
  {}

  lemma MainAnswers(w: World, o: Oracle, fn: Fn)
    requires fn.node < |w.states| && fn.kind.FMain?
    ensures var out := DispatchMain(w, o, fn);
      && |w.trace| <= |out.w.trace| && (!w.states[fn.node].active ==> out.w == w)
      && (w.states[fn.node].active && out.code != Code(Pipe, Disable) ==>
            |w.trace| < |out.w.trace| && out.w.trace[|out.w.trace| - 1] == Fired(fn, EvTick, out.code))
  {
    if w.states[fn.node].active { var at := OneTick(w, o, fn); }
  }

  lemma PassedIs(c: Code)
    ensures Passed(c) == if c.level.Pipe? then Code(Pipe, Continue)
                         else if c == Code(Function, Halt) then Code(Pipe, Halt) else c
  {}

  /**
   What a tick returns while the sequence runs is decided by the last call it makes, the tick of the MAIN child at
   the stored index: a pipeline code becomes PIPELINE_CONTINUE, FUNCTION_HALT becomes PIPELINE_HALT, and every
   other code is passed on.
   */
  lemma SequenceAnswers(w: World, o: Oracle, self: nat, kids: seq<Node>, n: nat)
    requires Fresh(w, self, kids) && |kids| <= 255 && n > 0 && SeqCode(w, o, self, kids, n) != Code(Pipe, Disable)
    ensures var s, t, code := SeqRun(w, o, self, kids, n - 1), SeqRun(w, o, self, kids, n), SeqCode(w, o, self, kids, n);
      && |s.trace| < |t.trace| && t.states[self].state < |kids|
      && var f, kid := t.trace[|t.trace| - 1], kids[t.states[self].state];
      && kid.Call? && kid.fn.kind.FMain? && Is(f, kid.fn, EvTick) && !Completes(f.code)
      && (f.code.level.Pipe? ==> code == Code(Pipe, Continue))
      && (f.code == Code(Function, Halt) ==> code == Code(Pipe, Halt))
      && (!f.code.level.Pipe? && f.code != Code(Function, Halt) ==> code == f.code)
  {
    hide SeqFrom, Passed, DispatchMain, Concat, Finished, Ticking;
    var s := SeqRun(w, o, self, kids, n - 1);
    var at := StepAnswers(s, o, self, kids, s.states[self].state);
    var t := SeqRun(w, o, self, kids, n);
    RunAt(w, o, self, kids, n);
    PassedIs(t.trace[|t.trace| - 1].code);
  }

  /** The MAIN child a tick ends at is active. */
  lemma RunAt(w: World, o: Oracle, self: nat, kids: seq<Node>, n: nat)
    requires Fresh(w, self, kids) && |kids| <= 255 && n > 0
    ensures var t := SeqRun(w, o, self, kids, n);
      var pos := t.states[self].state;
      pos < |kids| && kids[pos].Call? && kids[pos].fn.kind.FMain? && kids[pos].fn.node < |t.states| ==>
        t.states[kids[pos].fn.node].active
  {
    hide SeqFrom, Concat, Finished, Ticking;
    var pos, chapters := SequenceInOrder(w, o, self, kids, n);
  }

  /** At most one MAIN child is initialized at any time: the one at the stored index. */
  lemma OneChildLive(w: World, o: Oracle, self: nat, kids: seq<Node>, n: nat, k: nat)
    requires Fresh(w, self, kids) && |kids| <= 255 && k < |kids| && kids[k].Call? && kids[k].fn.kind.FMain?
    requires kids[k].fn.node < |w.states|
    ensures var t := SeqRun(w, o, self, kids, n); t.states[kids[k].fn.node].inited ==> t.states[self].state == k
  {
    var pos, chapters := SequenceInOrder(w, o, self, kids, n);
    if k < pos { assert ChapterOf(w, SeqRun(w, o, self, kids, n), kids, k, chapters[k]); }
  }

  /** TERMINATE leaves no child initialized, whenever it comes; TERMINATE again does nothing. */
  lemma TerminateEndsAll(w: World, o: Oracle, self: nat, kids: seq<Node>, n: nat)
    requires Fresh(w, self, kids) && |kids| <= 255
    ensures var t := SeqStep(SeqRun(w, o, self, kids, n), o, self, kids, EvTerm).w;
      && (forall k :: 0 <= k < |kids| && kids[k].Call? && kids[k].fn.kind.FMain? ==>
            kids[k].fn.node < |t.states| && !t.states[kids[k].fn.node].inited)
      && SeqStep(t, o, self, kids, EvTerm).w == t
  {
    var s := SeqRun(w, o, self, kids, n);
    var t := SeqStep(s, o, self, kids, EvTerm).w;
    var pos := s.states[self].state;
    forall k | 0 <= k < |kids| && kids[k].Call? && kids[k].fn.kind.FMain?
      ensures kids[k].fn.node < |t.states| && !t.states[kids[k].fn.node].inited
    {
      OwnId(w.states, self, kids, k);
      OneChildLive(w, o, self, kids, n, k);
      if pos < |kids| && kids[pos].Call? { OwnId(s.states, self, kids, pos); }
    }
    assert t.states[self := t.states[self].(state := 0)] == t.states;
  }

  /** A recursive reset of the children makes the sequence fresh again. */
  lemma {:induction false} ResetIsFresh(w: World, self: nat, kids: seq<Node>)
    requires Separate(w.states, self, kids)
    ensures Fresh(w.(states := ResetNodes(w.states, AllCallIds(kids))), self, kids)
  {
    forall k | 0 <= k < |kids| && kids[k].Call?
      ensures kids[k].fn.node in AllCallIds(kids) && kids[k].fn.node < |w.states|
    {
      CallIdsStep(kids, k);
      OwnId(w.states, self, kids, k);
    }
  }

  // ---- terminating all children ----------------------------------------------

  /** `s_expr_children_terminate_all` from child `k - 1` down: initialized MAINs are told, every callable is rearmed. */
  ghost function TerminateAll(w: World, o: Oracle, self: nat, kids: seq<Node>, k: nat): (r: World)
    requires Separate(w.states, self, kids) && k <= |kids|
    ensures |r.states| == |w.states|
    decreases k
  {
    if k == 0 then w
    else if !kids[k - 1].Call? then TerminateAll(w, o, self, kids, k - 1)
    else
      var fn := kids[k - 1].fn;
      OwnId(w.states, self, kids, k - 1);
      TerminateAll(TellOne(w, o, fn), o, self, kids, k - 1)
  }

  /** The initialized MAINs among the first `k` children, last first. */
  ghost function LiveKids(states: seq<NodeState>, kids: seq<Node>, k: nat): seq<Fn>
    requires k <= |kids| && forall j :: 0 <= j < k && kids[j].Call? ==> kids[j].fn.node < |states|
  {
    if k == 0 then []
    else
      var n := kids[k - 1];
      var rest := LiveKids(states, kids, k - 1);
      if n.Call? && n.fn.kind.FMain? && states[n.fn.node].inited then [n.fn] + rest else rest
  }

  lemma {:induction false} LiveKidsSame(a: seq<NodeState>, b: seq<NodeState>, kids: seq<Node>, k: nat)
    requires k <= |kids|
    requires forall j :: 0 <= j < k && kids[j].Call? ==>
                           var n := kids[j].fn.node; n < |a| && n < |b| && a[n] == b[n]
    ensures LiveKids(a, kids, k) == LiveKids(b, kids, k)
  {
    if k > 0 { LiveKidsSame(a, b, kids, k - 1); }
  }

  ghost predicate ToldInOrder(before: seq<Fired>, after: seq<Fired>, live: seq<Fn>) {
    && |after| == |before| + |live| && after[..|before|] == before
    && forall i :: 0 <= i < |live| ==> Is(after[|before| + i], live[i], EvTerm)
  }

  /** One child told and rearmed. */
  function TellOne(w: World, o: Oracle, fn: Fn): (u: World)
    requires fn.node < |w.states|
    ensures |u.states| == |w.states|
  {
    var t := TerminateChild(w, o, fn);
    Flag(t, fn.node, Rearmed(t.states[fn.node]))
  }

  lemma ToldOne(w: World, o: Oracle, fn: Fn)
    requires fn.node < |w.states|
    ensures var u := TellOne(w, o, fn);
      && ToldInOrder(w.trace, u.trace, if fn.kind.FMain? && w.states[fn.node].inited then [fn] else [])
      && u.states[fn.node] == Rearmed(u.states[fn.node])
      && forall i :: 0 <= i < |w.states| && i != fn.node ==> u.states[i] == w.states[i]
  {}

  lemma ToldOn(a: seq<Fired>, b: seq<Fired>, c: seq<Fired>, first: seq<Fn>, rest: seq<Fn>)
    requires ToldInOrder(a, b, first) && ToldInOrder(b, c, rest)
    ensures ToldInOrder(a, c, first + rest)
  {
    assert c[..|a|] == c[..|b|][..|a|];
    forall i | 0 <= i < |first + rest|
      ensures Is(c[|a| + i], (first + rest)[i], EvTerm)
    {
      if i < |first| {
        assert c[|a| + i] == c[..|b|][|a| + i];
      } else {
        assert Is(c[|b| + (i - |first|)], rest[i - |first|], EvTerm);
      }
    }
  }

  /** TERMINATE goes to exactly the initialized MAIN children, last first, once each; then all are active and clear. */
  lemma {:induction false} AllTerminated(w: World, o: Oracle, self: nat, kids: seq<Node>, k: nat)
    requires Separate(w.states, self, kids) && k <= |kids|
    requires forall j :: 0 <= j < |kids| && kids[j].Call? ==> kids[j].fn.node < |w.states|
    ensures var t := TerminateAll(w, o, self, kids, k);
      && ToldInOrder(w.trace, t.trace, LiveKids(w.states, kids, k))
      && (forall j :: 0 <= j < k && kids[j].Call? ==> t.states[kids[j].fn.node] == Rearmed(t.states[kids[j].fn.node]))
      && (forall j :: k <= j < |kids| && kids[j].Call? ==> t.states[kids[j].fn.node] == w.states[kids[j].fn.node])
    decreases k
  {
    hide TellOne, ToldInOrder;
    if k == 0 {
      ToldNothing(w.trace);
    } else {
      var n := kids[k - 1];
      if n.Call? {
        OwnId(w.states, self, kids, k - 1);
        var u := TellOne(w, o, n.fn);
        ToldOne(w, o, n.fn);
        AllTerminated(u, o, self, kids, k - 1);
        LiveKidsSame(w.states, u.states, kids, k - 1);
        var first := if n.fn.kind.FMain? && w.states[n.fn.node].inited then [n.fn] else [];
        var rest := LiveKids(u.states, kids, k - 1);
        ToldOn(w.trace, u.trace, TerminateAll(w, o, self, kids, k).trace, first, rest);
        assert first == [] ==> first + rest == rest;
      } else {
        AllTerminated(w, o, self, kids, k - 1);
      }
    }
  }

  lemma ToldNothing(t: seq<Fired>)
    ensures ToldInOrder(t, t, [])
  {}

  // ---- how many children a sequence can have ---------------------------------

  /** Every MAIN completes at its first tick. */
  ghost function Prompt(): Oracle { (i, fn, s, e) => Answer(Code(Pipe, Terminate), 0, 0, true, false) }

  lemma {:induction false} PromptFinishes(w: World, self: nat, kids: seq<Node>, pos: nat)
    requires Separate(w.states, self, kids) && |kids| <= 255
    requires forall k :: pos <= k < |kids| && kids[k].Call? ==>
                           kids[k].fn.node < |w.states| && w.states[kids[k].fn.node].active
    ensures SeqFrom(w, Prompt(), self, kids, pos).code == Code(Pipe, Disable)
    decreases if pos < |kids| then |kids| - pos else 0
  {
    if pos < |kids| {
      var o := Prompt();
      var t := w;
      if kids[pos].Call? {
        var fn := kids[pos].fn;
        OwnId(w.states, self, kids, pos);
        var out := Invoke(w, o, fn);
        assert fn.kind.FMain? ==> out.code == Code(Pipe, Terminate);
        t := if fn.kind.FMain? then TerminateChild(out.w, o, fn) else out.w;
        assert forall i :: 0 <= i < |w.states| && i != fn.node ==> t.states[i] == w.states[i];
      }
      forall k | pos < k < |kids| && kids[k].Call?
        ensures kids[k].fn.node < |w.states|
        ensures SetState(t, self, pos + 1).states[kids[k].fn.node] == w.states[kids[k].fn.node]
      {
        OwnId(w.states, self, kids, k);
      }
      PromptFinishes(SetState(t, self, pos + 1), self, kids, pos + 1);
    }
  }

  /**
   A sequence can complete, that is for some behaviour of its children a tick returns DISABLE, if and only if
   it has at most 255 parameters: its index is a byte.
   */
  lemma CanFinishIff(w: World, self: nat, kids: seq<Node>)
    requires Fresh(w, self, kids) && w.states[self].state <= 255
    ensures (exists o: Oracle, out :: TickReturns(w, o, self, kids, out) && out.code == Code(Pipe, Disable)) <==>
            |kids| <= 255
  {
    hide SeqLoop, SeqFrom;
    var pos := w.states[self].state;
    if |kids| <= 255 {
      PromptFinishes(w, self, kids, pos);
      TickReturnsStep(w, Prompt(), self, kids, SeqFrom(w, Prompt(), self, kids, pos));
      assert TickReturns(w, Prompt(), self, kids, SeqFrom(w, Prompt(), self, kids, pos));
    } else {
      forall o: Oracle, out | TickReturns(w, o, self, kids, out)
        ensures out.code != Code(Pipe, Disable)
      {
        NeverFinishes(w, o, self, kids, out);
      }
    }
  }

  /** With more than 255 parameters no tick, in whatever state, returns DISABLE. */
  lemma NeverFinishes(w: World, o: Oracle, self: nat, kids: seq<Node>, out: Outcome)
    requires Separate(w.states, self, kids) && |kids| > 255 && w.states[self].state <= 255
    requires TickReturns(w, o, self, kids, out)
    ensures out.code != Code(Pipe, Disable)
  {
    var limit: nat :| SeqLoop(w, o, self, kids, w.states[self].state, limit) == Some(out);
    LoopNeverCompletes(w, o, self, kids, w.states[self].state, limit);
  }
}
