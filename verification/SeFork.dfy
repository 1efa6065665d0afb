/**
 The parallel composite `se_fork_join` (`s_engine/runtime/s_engine_builtins_flow_control.h`): every tick
 goes to all active MAIN children, and the composite completes when none is left.
 */
module SeFork {
  import opened SeTree
  import opened SeNodes
  import opened SeMachine

  /** How a walk over the children ended: at the last child, at a SKIP_CONTINUE, or with a code for the caller. */
  datatype Ended = Through | Skipped | Cut(code: Code)

  /** `stop`: how many children the walk looked at. */
  datatype Walk = Walk(w: World, ended: Ended, stop: nat)

  /** What an answer of a MAIN child makes of the walk. */
  function Verdict(c: Code): Ended {
    if c == Code(Function, Halt) then Through
    else if !c.level.Pipe? then Cut(c)
    else if c.kind.SkipContinue? then Skipped else Through
  }

  /** The turn of child `k`: one-shots and predicates unless initialized, MAINs if active. */
  ghost function Turn(w: World, o: Oracle, self: nat, kids: seq<Node>, k: nat): (r: Walk)
    requires Separate(w.states, self, kids) && k < |kids|
    ensures |r.w.states| == |w.states| && r.stop == k + 1
  {
    if !kids[k].Call? then Walk(w, Through, k + 1)
    else
      var fn := kids[k].fn;
      OwnId(w.states, self, kids, k);
      if !fn.kind.FMain? then Walk(if w.states[fn.node].inited then w else Invoke(w, o, fn).w, Through, k + 1)
      else if !w.states[fn.node].active then Walk(w, Through, k + 1)
      else
        var out := Invoke(w, o, fn);
        if !Completes(out.code) then Walk(out.w, Verdict(out.code), k + 1)
        else
          var t := TerminateChild(out.w, o, fn);
          Walk(if out.code.kind.Reset? then Rearm(t, kids, k) else t, Through, k + 1)
  }

  /** The walk from child `k`. */
  ghost function ForkFrom(w: World, o: Oracle, self: nat, kids: seq<Node>, k: nat): (r: Walk)
    requires Separate(w.states, self, kids) && k <= |kids|
    ensures |r.w.states| == |w.states| && k <= r.stop <= |kids| && (r.ended.Through? ==> r.stop == |kids|)
    decreases |kids| - k
  {
    if k == |kids| then Walk(w, Through, k)
    else
      var t := Turn(w, o, self, kids, k);
      if t.ended.Through? then ForkFrom(t.w, o, self, kids, k + 1) else t
  }

  ghost predicate SomeActive(w: World, kids: seq<Node>) {
    exists k :: 0 <= k < |kids| && IsMain(kids[k]) && kids[k].fn.node < |w.states| && w.states[kids[k].fn.node].active
  }

  /** `se_fork_join` on a tick. */
  ghost function ForkTick(w: World, o: Oracle, self: nat, kids: seq<Node>): (r: Outcome)
    requires Separate(w.states, self, kids)
    ensures |r.w.states| == |w.states|
  {
    var walk := ForkFrom(w, o, self, kids, 0);
    Outcome(walk.w, if walk.ended.Cut? then walk.ended.code
                    else if SomeActive(walk.w, kids) then Code(Function, Halt) else Code(Pipe, Disable))
  }

  /** The world after INIT, which does nothing, and `n` ticks. */
  ghost function ForkRun(w: World, o: Oracle, self: nat, kids: seq<Node>, n: nat): (r: World)
    requires Separate(w.states, self, kids)
    ensures |r.states| == |w.states|
  {
    if n == 0 then w else ForkTick(ForkRun(w, o, self, kids, n - 1), o, self, kids).w
  }

  // ---- the life of a child ---------------------------------------------------

  /** `Owed`: completed, and so many TERMINATEs to come before the child is gone or, after RESET, as new. */
  datatype Life = Unborn | Live | Owed(terms: nat, again: bool) | Gone | Broken

  /** What one call makes of a MAIN child's life. */
  function Next(l: Life, f: Fired): Life {
    match f.ev
    case EvInit => if l == Unborn then Live else Broken
    case EvTick =>
      if l != Live then Broken
      else if Completes(f.code) then Owed(if f.code.kind.Disable? then 2 else 1, f.code.kind.Reset?) else Live
    case EvTerm =>
      if !l.Owed? then Broken
      else if l.terms > 1 then Owed(l.terms - 1, l.again)
      else if l.again then Unborn else Gone
  }

  /** The life of `fn` by the calls `ts`, and how many ticks it had. */
  ghost function LifeOf(ts: seq<Fired>, fn: Fn): Life {
    if ts == [] then Unborn
    else
      var n := |ts| - 1;
      if ts[n].fn == fn then Next(LifeOf(ts[..n], fn), ts[n]) else LifeOf(ts[..n], fn)
  }

  ghost function Ticks(ts: seq<Fired>, fn: Fn): nat {
    if ts == [] then 0
    else
      var n := |ts| - 1;
      Ticks(ts[..n], fn) + if ts[n].fn == fn && ts[n].ev == EvTick then 1 else 0
  }

  ghost function LifeAfter(w: World, from: nat, fn: Fn): Life {
    if from <= |w.trace| then LifeOf(w.trace[from..], fn) else Broken
  }

  ghost function TicksAfter(w: World, from: nat, fn: Fn): nat {
    if from <= |w.trace| then Ticks(w.trace[from..], fn) else 0
  }

  lemma FireLife(w: World, o: Oracle, fn: Fn, ev: Ev, from: nat, other: Fn)
    requires fn.node < |w.states| && from <= |w.trace|
    ensures var r := Fire(w, o, fn, ev);
      && from <= |r.w.trace|
      && LifeAfter(r.w, from, other) ==
         (if other == fn then Next(LifeAfter(w, from, fn), Fired(fn, ev, r.code)) else LifeAfter(w, from, other))
      && TicksAfter(r.w, from, other) == TicksAfter(w, from, other) + if other == fn && ev == EvTick then 1 else 0
  {
    var r := Fire(w, o, fn, ev);
    var before := w.trace[from..];
    assert r.w.trace[from..] == before + [Fired(fn, ev, r.code)];
    assert (before + [Fired(fn, ev, r.code)])[..|before|] == before;
  }

  /** The node of a MAIN child is what its life says. */
  predicate Agrees(l: Life, s: NodeState) {
    match l
    case Unborn => s.active && !s.inited
    case Live => s.active && s.inited
    case Gone => s == OFF_STATE
    case _ => false
  }

  /** Does child `n` get a call when the walk reaches it? */
  predicate Due(n: Node, s: NodeState)
    requires n.Call?
  {
    match n.fn.kind
    case FMain => s.active
    case FPred => !s.inited
    case FOneshot => !s.inited && (n.fn.survives ==> !s.ever)
  }

  /** Has this one-shot fired, or this predicate marked itself? */
  predicate Spent(fn: Fn, s: NodeState) { if fn.kind.FOneshot? && fn.survives then s.ever else s.inited }

  /** A predicate that never sets its own INITIALIZED flag, or always does. */
  ghost predicate NeverMarks(o: Oracle, fn: Fn) { forall i: nat, s: NodeState, e: Ev :: !o(i, fn, s, e).marks }
  ghost predicate AlwaysMarks(o: Oracle, fn: Fn) { forall i: nat, s: NodeState, e: Ev :: o(i, fn, s, e).marks }

  ghost predicate PredKept(w: World, o: Oracle, from: nat, fn: Fn) {
    && fn.node < |w.states| && (NeverMarks(o, fn) ==> !w.states[fn.node].inited)
    && (AlwaysMarks(o, fn) ==> AtMostOnce(w, from, fn))
  }

  ghost predicate AtMostOnce(w: World, from: nat, fn: Fn) {
    fn.node < |w.states| && TicksAfter(w, from, fn) <= if Spent(fn, w.states[fn.node]) then 1 else 0
  }

  ghost predicate Kept(w: World, o: Oracle, kids: seq<Node>, from: nat) {
    && from <= |w.trace|
    && (forall k :: 0 <= k < |kids| && IsMain(kids[k]) ==>
          kids[k].fn.node < |w.states| && Agrees(LifeAfter(w, from, kids[k].fn), w.states[kids[k].fn.node]))
    && (forall k :: 0 <= k < |kids| && kids[k].Call? && kids[k].fn.kind.FPred? ==> PredKept(w, o, from, kids[k].fn))
    && (forall k :: 0 <= k < |kids| && kids[k].Call? && kids[k].fn.kind.FOneshot? ==> AtMostOnce(w, from, kids[k].fn))
  }

  /** Nothing more was called of `fn`. */
  ghost predicate Same(w: World, t: World, from: nat, fn: Fn) {
    LifeAfter(t, from, fn) == LifeAfter(w, from, fn) && TicksAfter(t, from, fn) == TicksAfter(w, from, fn)
  }

  /** What the turn of a due MAIN child does to its own life, and to nothing else. */
  lemma MainTurnLife(w: World, o: Oracle, self: nat, kids: seq<Node>, k: nat, from: nat, other: Fn)
    requires Separate(w.states, self, kids) && k < |kids| && IsMain(kids[k]) && from <= |w.trace|
    requires kids[k].fn.node < |w.states| && w.states[kids[k].fn.node].active
    requires Agrees(LifeAfter(w, from, kids[k].fn), w.states[kids[k].fn.node])
    ensures var t, fn := Turn(w, o, self, kids, k).w, kids[k].fn;
      && from <= |t.trace| && Agrees(LifeAfter(t, from, fn), t.states[fn.node])
      && TicksAfter(t, from, fn) == TicksAfter(w, from, fn) + 1
      && (other != fn ==> Same(w, t, from, other))
  {
    hide LifeAfter, TicksAfter, Fire;
    var fn := kids[k].fn;
    var n := fn.node;
    OwnId(w.states, self, kids, k);
    var w0 := Flag(w, n, w.states[n].(inited := true));
    Unflagged(w, w0, from, fn);
    Unflagged(w, w0, from, other);
    if !w.states[n].inited {
      FireLife(w0, o, fn, EvInit, from, fn);
      FireLife(w0, o, fn, EvInit, from, other);
    }
    var w1 := if w.states[n].inited then w else Fire(w0, o, fn, EvInit).w;
    FireKeepsFlags(w0, o, fn, EvInit);
    FireKeepsFlags(w1, o, fn, EvTick);
    FireLife(w1, o, fn, EvTick, from, fn);
    FireLife(w1, o, fn, EvTick, from, other);
    var tick := Fire(w1, o, fn, EvTick);
    FireKeepsFlags(tick.w, o, fn, EvTerm);
    FireLife(tick.w, o, fn, EvTerm, from, fn);
    FireLife(tick.w, o, fn, EvTerm, from, other);
    var out := Invoke(w, o, fn);
    if tick.code == Code(Pipe, Disable) {
      Unflagged(Fire(tick.w, o, fn, EvTerm).w, out.w, from, fn);
      Unflagged(Fire(tick.w, o, fn, EvTerm).w, out.w, from, other);
    }
    if Completes(out.code) {
      FireKeepsFlags(out.w, o, fn, EvTerm);
      FireLife(out.w, o, fn, EvTerm, from, fn);
      FireLife(out.w, o, fn, EvTerm, from, other);
      var told := Fire(out.w, o, fn, EvTerm).w;
      var t := Turn(w, o, self, kids, k).w;
      Unflagged(told, t, from, fn);
      Unflagged(told, t, from, other);
    }
  }

  lemma Unflagged(a: World, b: World, from: nat, fn: Fn)
    requires a.trace == b.trace
    ensures LifeAfter(a, from, fn) == LifeAfter(b, from, fn) && TicksAfter(a, from, fn) == TicksAfter(b, from, fn)
  {}

  lemma FireKeepsFlags(w: World, o: Oracle, fn: Fn, ev: Ev)
    requires fn.node < |w.states|
    ensures var r, n := Fire(w, o, fn, ev).w, fn.node;
      && r.states[n].active == w.states[n].active
      && (!fn.kind.FPred? || NeverMarks(o, fn) ==> r.states[n].inited == w.states[n].inited)
      && (fn.kind.FPred? && AlwaysMarks(o, fn) ==> r.states[n].inited)
      && r.states[n].ever == w.states[n].ever && |r.trace| == |w.trace| + 1
  {}

  /** The turn of any other child: one tick if due. */
  lemma QuickTurnLife(w: World, o: Oracle, self: nat, kids: seq<Node>, k: nat, from: nat, other: Fn)
    requires Separate(w.states, self, kids) && k < |kids| && !IsMain(kids[k]) && from <= |w.trace|
    ensures var t := Turn(w, o, self, kids, k).w;
      && from <= |t.trace| && (!kids[k].Call? ==> t == w)
      && (kids[k].Call? ==>
            var fn := kids[k].fn;
            && fn.node < |w.states| && (fn.kind.FPred? && PredKept(w, o, from, fn) ==> PredKept(t, o, from, fn))
            && (fn.kind.FOneshot? && AtMostOnce(w, from, fn) ==> AtMostOnce(t, from, fn))
            && TicksAfter(t, from, fn) == TicksAfter(w, from, fn) + (if Due(kids[k], w.states[fn.node]) then 1 else 0)
            && (other != fn ==> Same(w, t, from, other)))
  {
    hide LifeAfter, TicksAfter, Fire;
    if kids[k].Call? {
      var fn := kids[k].fn;
      OwnId(w.states, self, kids, k);
      var s := w.states[fn.node];
      var w0 := if fn.kind.FPred? then w
                else Flag(w, fn.node, if fn.survives then s.(ever := true) else s.(inited := true));
      Unflagged(w, w0, from, fn);
      Unflagged(w, w0, from, other);
      FireLife(w0, o, fn, EvTick, from, fn);
      FireLife(w0, o, fn, EvTick, from, other);
      FireKeepsFlags(w0, o, fn, EvTick);
    }
  }

  /** A turn touches no node outside its child. */
  lemma TurnFrame(w: World, o: Oracle, self: nat, kids: seq<Node>, k: nat, j: nat)
    requires Separate(w.states, self, kids) && k < |kids| && j < |kids| && j != k && kids[j].Call?
    ensures kids[j].fn.node < |w.states| && (kids[k].Call? ==> kids[j].fn != kids[k].fn)
    ensures Turn(w, o, self, kids, k).w.states[kids[j].fn.node] == w.states[kids[j].fn.node]
  {
    OwnId(w.states, self, kids, j);
    if kids[k].Call? {
      OwnId(w.states, self, kids, k);
      if j < k { assert CallIds(kids[j]) !! CallIds(kids[k]); } else { assert CallIds(kids[k]) !! CallIds(kids[j]); }
    }
  }

  /** The turn of child `k`, seen from child `j`: a tick for itself if due, nothing for the others. */
  lemma TurnLife(w: World, o: Oracle, self: nat, kids: seq<Node>, k: nat, from: nat, j: nat)
    requires Separate(w.states, self, kids) && k < |kids| && j < |kids| && kids[j].Call? && Kept(w, o, kids, from)
    ensures kids[j].fn.node < |w.states|
    ensures var t, fn := Turn(w, o, self, kids, k).w, kids[j].fn;
      && from <= |t.trace|
      && (if j == k then TicksAfter(t, from, fn) ==
                         TicksAfter(w, from, fn) + if Due(kids[j], w.states[fn.node]) then 1 else 0
          else Same(w, t, from, fn) && t.states[fn.node] == w.states[fn.node])
      && (IsMain(kids[j]) ==> Agrees(LifeAfter(t, from, fn), t.states[fn.node]))
      && (fn.kind.FPred? ==> PredKept(t, o, from, fn)) && (fn.kind.FOneshot? ==> AtMostOnce(t, from, fn))
  {
    hide LifeAfter, TicksAfter, Turn;
    OwnId(w.states, self, kids, j);
    if j != k { TurnFrame(w, o, self, kids, k, j); }
    if !IsMain(kids[k]) {
      QuickTurnLife(w, o, self, kids, k, from, kids[j].fn);
    } else if w.states[kids[k].fn.node].active {
      MainTurnLife(w, o, self, kids, k, from, kids[j].fn);
    } else {
      NoTurn(w, o, self, kids, k);
    }
  }

  lemma NoTurn(w: World, o: Oracle, self: nat, kids: seq<Node>, k: nat)
    requires Separate(w.states, self, kids) && k < |kids| && IsMain(kids[k])
    requires kids[k].fn.node < |w.states| && !w.states[kids[k].fn.node].active
    ensures Turn(w, o, self, kids, k) == Walk(w, Through, k + 1)
  {}

  lemma TurnKeeps(w: World, o: Oracle, self: nat, kids: seq<Node>, k: nat, from: nat)
    requires Separate(w.states, self, kids) && k < |kids| && Kept(w, o, kids, from)
    ensures var t := Turn(w, o, self, kids, k).w; Kept(t, o, kids, from) && Separate(t.states, self, kids)
  {
    hide LifeAfter, TicksAfter, Turn;
    var t := Turn(w, o, self, kids, k).w;
    assert from <= |t.trace| by {
      if IsMain(kids[k]) { TurnLife(w, o, self, kids, k, from, k); }
      else { QuickTurnLife(w, o, self, kids, k, from, Fn(FPred, false, 0, 0)); }
    }
    forall j | 0 <= j < |kids| && kids[j].Call?
      ensures kids[j].fn.node < |t.states|
      ensures IsMain(kids[j]) ==> Agrees(LifeAfter(t, from, kids[j].fn), t.states[kids[j].fn.node])
      ensures kids[j].fn.kind.FPred? ==> PredKept(t, o, from, kids[j].fn)
      ensures kids[j].fn.kind.FOneshot? ==> AtMostOnce(t, from, kids[j].fn)
    {
      TurnLife(w, o, self, kids, k, from, j);
    }
  }

  /** The walk keeps every life, and gives one tick to each due child before its stop, none to the others. */
  lemma {:induction false} WalkLife(w: World, o: Oracle, self: nat, kids: seq<Node>, k: nat, from: nat, j: nat)
    requires Separate(w.states, self, kids) && k <= |kids| && j < |kids| && kids[j].Call? && Kept(w, o, kids, from)
    ensures kids[j].fn.node < |w.states|
    ensures var walk, fn := ForkFrom(w, o, self, kids, k), kids[j].fn;
      && Kept(walk.w, o, kids, from) && Separate(walk.w.states, self, kids)
      && TicksAfter(walk.w, from, fn) ==
         TicksAfter(w, from, fn) + if k <= j < walk.stop && Due(kids[j], w.states[fn.node]) then 1 else 0
    decreases |kids| - k
  {
    hide TicksAfter, Turn, LifeAfter, Kept;
    OwnId(w.states, self, kids, j);
    if k < |kids| {
      TurnLife(w, o, self, kids, k, from, j);
      TurnKeeps(w, o, self, kids, k, from);
      var t := Turn(w, o, self, kids, k);
      if t.ended.Through? { WalkLife(t.w, o, self, kids, k + 1, from, j); }
    }
  }

  // ---- where a walk stops ----------------------------------------------------

  /** The call is a MAIN child's tick whose answer ends the walk: SKIP_CONTINUE, or a code for the caller. */
  predicate Stops(f: Fired) {
    && f.fn.kind.FMain? && f.ev == EvTick
    && (f.code == Code(Pipe, SkipContinue) || (!f.code.level.Pipe? && f.code != Code(Function, Halt)))
  }

  /** The calls after `w` end the walk in their last one or not at all, as `walk` says. */
  ghost predicate StopsLast(w: World, walk: Walk, kids: seq<Node>) {
    var a, b := |w.trace|, walk.w.trace;
    && a <= |b| && b[..a] == w.trace
    && (forall i :: a <= i < |b| && Stops(b[i]) ==> i == |b| - 1 && !walk.ended.Through?)
    && (!walk.ended.Through? ==>
          && 0 < walk.stop <= |kids| && IsMain(kids[walk.stop - 1]) && a < |b|
          && b[|b| - 1].fn == kids[walk.stop - 1].fn && Stops(b[|b| - 1]) && walk.ended == Verdict(b[|b| - 1].code))
  }

  lemma TurnStops(w: World, o: Oracle, self: nat, kids: seq<Node>, k: nat)
    requires Separate(w.states, self, kids) && k < |kids|
    ensures StopsLast(w, Turn(w, o, self, kids, k), kids)
  {
    if kids[k].Call? {
      OwnId(w.states, self, kids, k);
      if IsMain(kids[k]) && w.states[kids[k].fn.node].active { MainStops(w, o, self, kids, k); }
    }
  }

  lemma MainStops(w: World, o: Oracle, self: nat, kids: seq<Node>, k: nat)
    requires Separate(w.states, self, kids) && k < |kids| && IsMain(kids[k])
    requires kids[k].fn.node < |w.states| && w.states[kids[k].fn.node].active
    ensures StopsLast(w, Turn(w, o, self, kids, k), kids)
  {
    var fn := kids[k].fn;
    hide DispatchMain, Rearm;
    var at := OneTick(w, o, fn);
    var a, b := DispatchMain(w, o, fn).w.trace, Turn(w, o, self, kids, k).w.trace;
    assert b[..|a|] == a && forall i :: 0 <= i < |a| ==> b[i] == a[i];
    assert forall i :: |a| <= i < |b| ==> b[i].ev == EvTerm;
  }

  /**
   A walk ends early if and only if an answer says so, and then with that answer: a SKIP_CONTINUE, or a
   code below the pipeline codes that is not FUNCTION_HALT.
   */
  lemma {:induction false} WalkStops(w: World, o: Oracle, self: nat, kids: seq<Node>, k: nat)
    requires Separate(w.states, self, kids) && k <= |kids|
    ensures StopsLast(w, ForkFrom(w, o, self, kids, k), kids)
    decreases |kids| - k
  {
    hide Turn, Stops;
    if k < |kids| {
      var t, walk := Turn(w, o, self, kids, k), ForkFrom(w, o, self, kids, k);
      TurnStops(w, o, self, kids, k);
      if t.ended.Through? {
        SameSeparate(w.states, t.w.states, self, kids);
        WalkStops(t.w, o, self, kids, k + 1);
        var b := walk.w.trace;
        assert b[..|w.trace|] == b[..|t.w.trace|][..|w.trace|];
        assert forall i :: |w.trace| <= i < |t.w.trace| ==> b[i] == b[..|t.w.trace|][i];
      }
    }
  }

  /** The child whose code is passed to the caller stays active. */
  lemma {:induction false} CutStaysActive(w: World, o: Oracle, self: nat, kids: seq<Node>, k: nat)
    requires Separate(w.states, self, kids) && k <= |kids|
    ensures var walk := ForkFrom(w, o, self, kids, k);
      walk.ended.Cut? ==> SomeActive(walk.w, kids) && !walk.ended.code.level.Pipe?
    decreases |kids| - k
  {
    if k < |kids| {
      var t := Turn(w, o, self, kids, k);
      if t.ended.Through? {
        SameSeparate(w.states, t.w.states, self, kids);
        CutStaysActive(t.w, o, self, kids, k + 1);
      } else {
        OwnId(w.states, self, kids, k);
        assert t.w.states[kids[k].fn.node].active;
      }
    }
  }

  // ---- over whole runs -------------------------------------------------------

  lemma {:induction false} RunKept(w: World, o: Oracle, self: nat, kids: seq<Node>, n: nat)
    requires Fresh(w, self, kids)
    ensures var t := ForkRun(w, o, self, kids, n); Kept(t, o, kids, |w.trace|) && Separate(t.states, self, kids)
  {
    if n == 0 {
      assert w.trace[|w.trace|..] == [];
      forall k | 0 <= k < |kids| && kids[k].Call? ensures kids[k].fn.node < |w.states| { OwnId(w.states, self, kids, k); }
    } else {
      RunKept(w, o, self, kids, n - 1);
      TickKept(ForkRun(w, o, self, kids, n - 1), o, self, kids, |w.trace|);
    }
  }

  lemma TickKept(w: World, o: Oracle, self: nat, kids: seq<Node>, from: nat)
    requires Separate(w.states, self, kids) && Kept(w, o, kids, from)
    ensures var t := ForkFrom(w, o, self, kids, 0).w; Kept(t, o, kids, from) && Separate(t.states, self, kids)
  {
    hide Kept, ForkFrom;
    if j :| 0 <= j < |kids| && kids[j].Call? {
      WalkLife(w, o, self, kids, 0, from, j);
    } else {
      NoCallWalk(w, o, self, kids, 0);
    }
  }

  lemma {:induction false} NoCallWalk(w: World, o: Oracle, self: nat, kids: seq<Node>, k: nat)
    requires Separate(w.states, self, kids) && k <= |kids| && forall j :: 0 <= j < |kids| ==> !kids[j].Call?
    ensures ForkFrom(w, o, self, kids, k).w == w
    decreases |kids| - k
  {
    if k < |kids| { NoCallWalk(w, o, self, kids, k + 1); }
  }

  /**
   After any number of ticks every MAIN child's calls make a life: INIT, ticks, completion, its TERMINATEs,
   and after a RESET the same again; and its node says where in that life it is. One-shots fired at most
   once. A tick returns DISABLE if and only if after it every MAIN child is gone.
   */
  lemma JoinWaitsForAll(w: World, o: Oracle, self: nat, kids: seq<Node>, n: nat)
    requires Fresh(w, self, kids)
    ensures var s := ForkRun(w, o, self, kids, n); Kept(s, o, kids, |w.trace|) && Separate(s.states, self, kids)
    ensures var s, t := ForkRun(w, o, self, kids, n), ForkRun(w, o, self, kids, n + 1);
      ForkTick(s, o, self, kids).code == Code(Pipe, Disable) <==>
      forall k :: 0 <= k < |kids| && IsMain(kids[k]) ==> LifeAfter(t, |w.trace|, kids[k].fn) == Gone
  {
    hide LifeAfter, ForkFrom;
    RunKept(w, o, self, kids, n);
    RunKept(w, o, self, kids, n + 1);
    CutStaysActive(ForkRun(w, o, self, kids, n), o, self, kids, 0);
  }

  /**
   In every tick each child before the stop of the walk that is due has exactly one tick, the others none:
   an active MAIN, a one-shot that has not fired, and a predicate that has not marked itself as initialized.
   So a predicate that never does is asked in every tick, and one that always does is asked once.
   */
  lemma OneTickEach(w: World, o: Oracle, self: nat, kids: seq<Node>, n: nat, k: nat)
    requires Fresh(w, self, kids) && k < |kids| && kids[k].Call? && kids[k].fn.node < |w.states|
    ensures var s, t, fn := ForkRun(w, o, self, kids, n), ForkRun(w, o, self, kids, n + 1), kids[k].fn;
      && Separate(s.states, self, kids)
      && var reached := k < ForkFrom(s, o, self, kids, 0).stop;
      && TicksAfter(t, |w.trace|, fn) ==
         TicksAfter(s, |w.trace|, fn) + (if reached && Due(kids[k], s.states[fn.node]) then 1 else 0)
      && (fn.kind.FPred? && NeverMarks(o, fn) ==> Due(kids[k], s.states[fn.node]))
      && (fn.kind.FPred? && AlwaysMarks(o, fn) ==> TicksAfter(t, |w.trace|, fn) <= 1)
  {
    hide TicksAfter, ForkFrom;
    RunKept(w, o, self, kids, n);
    RunKept(w, o, self, kids, n + 1);
    WalkLife(ForkRun(w, o, self, kids, n), o, self, kids, 0, |w.trace|, k);
  }

  /** The last call is a MAIN child's tick with a code for the caller: neither a pipeline code nor FUNCTION_HALT. */
  ghost predicate ForCaller(s: World, t: World) {
    |s.trace| < |t.trace| &&
    var f := t.trace[|t.trace| - 1];
    f.fn.kind.FMain? && f.ev == EvTick && !f.code.level.Pipe? && f.code != Code(Function, Halt)
  }

  /**
   What every tick returns: the code for the caller if its last call answered one; else DISABLE if every MAIN child
   is gone, and FUNCTION_HALT while one is left. Nothing is called after such a code, nor after a SKIP_CONTINUE.
   */
  lemma ForkAnswers(w: World, o: Oracle, self: nat, kids: seq<Node>, n: nat)
    requires Fresh(w, self, kids)
    ensures var s, t := ForkRun(w, o, self, kids, n), ForkRun(w, o, self, kids, n + 1);
      && |s.trace| <= |t.trace| && t.trace[..|s.trace|] == s.trace
      && (forall i :: |s.trace| <= i < |t.trace| && Stops(t.trace[i]) ==> i == |t.trace| - 1)
      && Separate(s.states, self, kids)
      && ForkTick(s, o, self, kids).code ==
         if ForCaller(s, t) then t.trace[|t.trace| - 1].code
         else if forall k :: 0 <= k < |kids| && IsMain(kids[k]) ==> LifeAfter(t, |w.trace|, kids[k].fn) == Gone
         then Code(Pipe, Disable) else Code(Function, Halt)
  {
    hide LifeAfter, ForkFrom, SomeActive;
    var s, next := ForkRun(w, o, self, kids, n), n + 1;
    JoinWaitsForAll(w, o, self, kids, n);
    WalkStops(s, o, self, kids, 0);
    var t := ForkRun(w, o, self, kids, next);
    assert t == ForkFrom(s, o, self, kids, 0).w;
    if ForCaller(s, t) { assert Stops(t.trace[|t.trace| - 1]); }
  }
}
