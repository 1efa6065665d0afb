/**
 That branches run, and not only that they exclude each other: every tick whose field value has a MAIN branch
 ticks that branch exactly once, after its INIT if it was not live, and after TERMINATE of the branch it leaves.
 */
module SeBranch {
  import opened Options
  import opened SeTree
  import opened SeNodes
  import opened SeMachine
  import opened SeField

  /** The MAIN branch the user word names can be called. */
  ghost predicate CurActive(w: World, self: nat, kids: seq<Node>) {
    self < |w.states| &&
    var at := w.states[self].user;
    Named(at) ==>
      var cur := Which(kids, at, 0);
      cur < |kids| && IsMain(kids[cur]) ==> kids[cur].fn.node < |w.states| && w.states[kids[cur].fn.node].active
  }

  /** What the branch that was live is told when another one is entered. */
  ghost predicate Leaving(leave: seq<Fired>, sc: Scene, n: nat) {
    && |leave| == (if sc.live.Some? && sc.live != Some(n) then 1 else 0)
    && forall i :: 0 <= i < |leave| ==>
         leave[i].ev == EvTerm && leave[i].fn.kind.FMain? && Some(leave[i].fn.node) == sc.live
  }

  /** The calls of one tick of branch `fn`: INIT unless it is live, one tick, and TERMINATE if that completed it. */
  ghost predicate Runs(init: seq<Fired>, tick: Fired, ends: seq<Fired>, sc: Scene, fn: Fn) {
    && |init| == (if sc.live == Some(fn.node) then 0 else 1)
    && (forall i :: 0 <= i < |init| ==> Is(init[i], fn, EvInit))
    && Is(tick, fn, EvTick)
    && |ends| == (if !Completes(tick.code) then 0 else if tick.code.kind.Disable? then 2 else 1)
    && forall i :: 0 <= i < |ends| ==> Is(ends[i], fn, EvTerm)
  }

  /**
   What a tick leaves as new: the whole branch if it completed; on a branch change, the whole of the branch that was
   left, and of the entered one everything but the node that was called. `record` is the user word afterwards.
   */
  ghost predicate Resets(s: World, t: World, self: nat, kids: seq<Node>, a: nat, tick: Fired, record: nat) {
    && self < |s.states| && self < |t.states| && a < |kids| && kids[a].Call? && t.states[self].user == record
    && (Completes(tick.code) ==> AllNew(t.states, CallIds(kids[a])))
    && (s.states[self].user != Offset(kids, a) ==>
          && AllNew(t.states, CallIds(kids[a]) - {kids[a].fn.node})
          && forall k :: 0 <= k < |kids| && Named(s.states[self].user) && Offset(kids, k) == s.states[self].user ==>
               AllNew(t.states, CallIds(kids[k])))
  }

  /** What branch `a` answers after the branch change is what its tick answered. */
  ghost predicate Called(w: World, o: Oracle, self: nat, kids: seq<Node>, a: nat, tick: Fired) {
    && Separate(w.states, self, kids) && a < |kids| && IsMain(kids[a]) && kids[a].fn.node < |w.states|
    && DispatchMain(Switch(w, o, self, kids, a), o, kids[a].fn).code == tick.code
  }

  // ---- one tick --------------------------------------------------------------

  /** Leaving the branch the user word names tells the one that is live, and nobody else. */
  lemma Told(w: World, o: Oracle, self: nat, kids: seq<Node>, from: nat) returns (leave: seq<Fired>)
    requires Resting(w, self, kids, SceneAfter(w, from)) && from <= |w.trace|
    ensures Separate(w.states, self, kids)
    ensures var was := w.states[self].user;
      var t := if Named(was) then Leave(w, o, self, kids, Which(kids, was, 0)) else w;
      && t.trace == w.trace + leave && |leave| == (if SceneAfter(w, from).live.Some? then 1 else 0)
      && forall i :: 0 <= i < |leave| ==>
           leave[i].ev == EvTerm && leave[i].fn.kind.FMain? && Some(leave[i].fn.node) == SceneAfter(w, from).live
  {
    hide SceneAfter;
    var was := w.states[self].user;
    var cur := if Named(was) then Which(kids, was, 0) else |kids|;
    leave := [];
    if cur < |kids| && IsMain(kids[cur]) {
      OwnId(w.states, self, kids, cur);
      if !Idle(w, kids[cur]) {
        leave := [Fired(kids[cur].fn, EvTerm, Fire(w, o, kids[cur].fn, EvTerm).code)];
      }
    }
  }

  /** Only the branch the user word names can be live. */
  lemma NotLive(w: World, self: nat, kids: seq<Node>, a: nat, from: nat)
    requires Resting(w, self, kids, SceneAfter(w, from))
    requires a < |kids| && IsMain(kids[a]) && Offset(kids, a) != w.states[self].user
    ensures SceneAfter(w, from).live != Some(kids[a].fn.node)
  {
    hide SceneAfter;
    OwnId(w.states, self, kids, a);
  }

  /** A rearmed branch is active and not initialized. */
  lemma Ready(w: World, kids: seq<Node>, a: nat)
    requires a < |kids| && kids[a].Call? && kids[a].fn.node < |w.states|
    ensures var t := Rearm(w, kids, a);
      t.trace == w.trace && t.states[kids[a].fn.node].active && !t.states[kids[a].fn.node].inited
  {
    assert kids[a].fn.node in CallIds(kids[a]);
  }

  /** Before the branch is invoked it is active, and initialized exactly if it was live. */
  lemma Entered(w: World, o: Oracle, self: nat, kids: seq<Node>, a: nat, from: nat) returns (leave: seq<Fired>)
    requires Resting(w, self, kids, SceneAfter(w, from)) && from <= |w.trace| && CurActive(w, self, kids)
    requires 0 < a < |kids| && Offset(kids, a) < NO_INDEX && IsMain(kids[a])
    ensures Separate(w.states, self, kids)
    ensures var t, n := Switch(w, o, self, kids, a), kids[a].fn.node;
      && n < |t.states| && t.states[n].active && (t.states[n].inited <==> SceneAfter(w, from).live == Some(n))
      && t.trace == w.trace + leave && Leaving(leave, SceneAfter(w, from), n) && Separate(t.states, self, kids)
      && t.states[self].user == Offset(kids, a)
  {
    OwnId(w.states, self, kids, a);
    SwitchSeparate(w, o, self, kids, a);
    SwitchRecords(w, o, self, kids, a);
    if Offset(kids, a) == w.states[self].user {
      leave := [];
      Stays(w, self, kids, a, from);
    } else {
      hide Resting, SceneAfter, Switch, Separate, CurActive;
      leave := Changed(w, o, self, kids, a, from);
      NotLive(w, self, kids, a, from);
    }
  }

  /** A branch change tells the branch that was live, and makes the entered one as new. */
  lemma Changed(w: World, o: Oracle, self: nat, kids: seq<Node>, a: nat, from: nat) returns (leave: seq<Fired>)
    requires Resting(w, self, kids, SceneAfter(w, from)) && from <= |w.trace|
    requires a < |kids| && kids[a].Call? && Offset(kids, a) != w.states[self].user
    ensures Separate(w.states, self, kids)
    ensures var t, n := Switch(w, o, self, kids, a), kids[a].fn.node;
      && n < |t.states| && n != self && t.states[n].active && !t.states[n].inited && t.trace == w.trace + leave
      && |leave| == (if SceneAfter(w, from).live.Some? then 1 else 0)
      && forall i :: 0 <= i < |leave| ==>
           leave[i].ev == EvTerm && leave[i].fn.kind.FMain? && Some(leave[i].fn.node) == SceneAfter(w, from).live
  {
    hide Resting, SceneAfter, Leave, Rearm, Which;
    leave := Told(w, o, self, kids, from);
    OwnId(w.states, self, kids, a);
    var was := w.states[self].user;
    var left := Which(kids, was, 0);
    var w1 := if Named(was) then Rearm(Leave(w, o, self, kids, left), kids, left) else w;
    Ready(w1, kids, a);
    SameRecords(Leave(w, o, self, kids, left), kids, left);
  }

  lemma SameRecords(w: World, kids: seq<Node>, k: nat)
    ensures Rearm(w, kids, k).trace == w.trace
  {}

  /** Without a branch change the branch is as the monitor saw it. */
  lemma Stays(w: World, self: nat, kids: seq<Node>, a: nat, from: nat)
    requires Resting(w, self, kids, SceneAfter(w, from)) && CurActive(w, self, kids)
    requires 0 < a < |kids| && Offset(kids, a) < NO_INDEX && IsMain(kids[a]) && Offset(kids, a) == w.states[self].user
    ensures kids[a].fn.node < |w.states| && w.states[kids[a].fn.node].active
    ensures w.states[kids[a].fn.node].inited <==> SceneAfter(w, from).live == Some(kids[a].fn.node)
    ensures Leaving([], SceneAfter(w, from), kids[a].fn.node)
  {
    hide SceneAfter;
    OffsetsRise(kids, 0, a);
    WhichOffset(kids, a);
  }

  /** A dispatched MAIN: its calls in full. */
  lemma Dispatched(w: World, o: Oracle, fn: Fn) returns (init: seq<Fired>, tick: Fired, ends: seq<Fired>)
    requires fn.node < |w.states| && fn.kind.FMain? && w.states[fn.node].active
    ensures var out := DispatchMain(w, o, fn);
      && out.w.trace == w.trace + init + [tick] + ends && out.code == tick.code && Is(tick, fn, EvTick)
      && |init| == (if w.states[fn.node].inited then 0 else 1) && (forall i :: 0 <= i < |init| ==> Is(init[i], fn, EvInit))
      && |ends| == (if tick.code == Code(Pipe, Disable) then 1 else 0)
      && (forall i :: 0 <= i < |ends| ==> Is(ends[i], fn, EvTerm))
      && out.w.states[fn.node].inited && (out.w.states[fn.node].active <==> tick.code != Code(Pipe, Disable))
      && forall i :: 0 <= i < |w.states| && i != fn.node ==> out.w.states[i] == w.states[i]
  {
    var n := fn.node;
    var w0 := Flag(w, n, w.states[n].(inited := true));
    init := if w.states[n].inited then [] else [Fired(fn, EvInit, Fire(w0, o, fn, EvInit).code)];
    var w1 := if w.states[n].inited then w else Fire(w0, o, fn, EvInit).w;
    var t := Fire(w1, o, fn, EvTick);
    tick := Fired(fn, EvTick, t.code);
    ends := if t.code == Code(Pipe, Disable) then [Fired(fn, EvTerm, Fire(t.w, o, fn, EvTerm).code)] else [];
  }

  /**
   One tick whose value has MAIN branch `a`: the branch that was live, if another, is terminated; branch `a` has
   INIT unless it was live, and exactly one tick; TERMINATE follows if that completed it. The tick of the composite
   returns what the branch answered, FUNCTION_HALT as PIPELINE_HALT, and CONTINUE when it completed or skipped.
   */
  lemma TickRuns(w: World, o: Oracle, self: nat, kids: seq<Node>, val: int, from: nat)
    returns (leave: seq<Fired>, init: seq<Fired>, tick: Fired, ends: seq<Fired>)
    requires Resting(w, self, kids, SceneAfter(w, from)) && from <= |w.trace| && CurActive(w, self, kids)
    requires Cased(kids) && Offset(kids, |kids|) < NO_INDEX
    requires var a := Scan(kids, 1, val, 0); 0 < a < |kids| && IsMain(kids[a])
    ensures Separate(w.states, self, kids)
    ensures var a, out := Scan(kids, 1, val, 0), MachineTick(w, o, self, kids, val);
      && out.w.trace == w.trace + leave + init + [tick] + ends
      && Leaving(leave, SceneAfter(w, from), kids[a].fn.node) && Runs(init, tick, ends, SceneAfter(w, from), kids[a].fn)
      && CurActive(out.w, self, kids) && Called(w, o, self, kids, a, tick)
      && (out.code == if Completes(tick.code) || tick.code == Code(Pipe, SkipContinue) then Code(Pipe, Continue)
                      else if tick.code == Code(Function, Halt) then Code(Pipe, Halt) else tick.code)
  {
    hide SceneAfter, Switch, DispatchMain, Stage, Answered;
    var a := Scan(kids, 1, val, 0);
    var fn := kids[a].fn;
    OffsetsRise(kids, 0, a);
    OffsetsRise(kids, a, |kids|);
    WhichOffset(kids, a);
    leave := Entered(w, o, self, kids, a, from);
    var w1 := Switch(w, o, self, kids, a);
    var last: seq<Fired>;
    init, tick, last := Dispatched(w1, o, fn);
    var out := DispatchMain(w1, o, fn);
    OwnId(w1.states, self, kids, a);
    ends := last;
    if Completes(out.code) {
      ends := last + [Fired(fn, EvTerm, Fire(out.w, o, fn, EvTerm).code)];
      assert fn.node in CallIds(kids[a]) && self !in CallIds(kids[a]);
    }
    if !Completes(tick.code) { AnsweredIs(tick.code); }
  }

  lemma AnsweredIs(c: Code)
    requires !Completes(c)
    ensures Answered(c) == if c == Code(Pipe, SkipContinue) then Code(Pipe, Continue)
                           else if c == Code(Function, Halt) then Code(Pipe, Halt) else c
  {}

  /** A one-shot or a predicate that is entered as another branch is called once, whether or not it fired before. */
  lemma EnteredFires(w: World, o: Oracle, self: nat, kids: seq<Node>, val: int, from: nat)
    returns (leave: seq<Fired>, call: Fired)
    requires Resting(w, self, kids, SceneAfter(w, from)) && from <= |w.trace|
    requires Cased(kids) && Offset(kids, |kids|) < NO_INDEX
    requires var a := Scan(kids, 1, val, 0);
      && 0 < a < |kids| && !IsMain(kids[a]) && Offset(kids, a) != w.states[self].user
      && (kids[a].Call? ==> !kids[a].fn.survives)
    ensures Separate(w.states, self, kids)
    ensures var a, out := Scan(kids, 1, val, 0), MachineTick(w, o, self, kids, val);
      && kids[a].Call? && out.w.trace == w.trace + leave + [call] && Is(call, kids[a].fn, EvTick)
      && |leave| == (if SceneAfter(w, from).live.Some? then 1 else 0)
      && forall i :: 0 <= i < |leave| ==> leave[i].ev == EvTerm && Some(leave[i].fn.node) == SceneAfter(w, from).live
  {
    hide SceneAfter, Resting, Switch, Invoke, Leave, Rearm;
    var a := Scan(kids, 1, val, 0);
    ScanIsCall(kids, val);
    leave := Changed(w, o, self, kids, a, from);
    call := OnlyCall(Switch(w, o, self, kids, a), o, kids[a].fn);
  }

  lemma OnlyCall(w: World, o: Oracle, fn: Fn) returns (call: Fired)
    requires fn.node < |w.states| && !fn.kind.FMain? && !fn.survives && !w.states[fn.node].inited
    ensures var out := Invoke(w, o, fn);
      !Completes(out.code) && out.w.trace == w.trace + [call] && Is(call, fn, EvTick)
  {
    var out := Invoke(w, o, fn);
    call := out.w.trace[|w.trace|];
  }

  lemma RearmNews(w: World, self: nat, kids: seq<Node>, k: nat)
    requires Separate(w.states, self, kids) && k < |kids|
    ensures var t := Rearm(w, kids, k);
      && Separate(t.states, self, kids) && AllNew(t.states, CallIds(kids[k])) && t.states[self] == w.states[self]
      && forall j :: 0 <= j < |kids| && j != k && AllNew(w.states, CallIds(kids[j])) ==> AllNew(t.states, CallIds(kids[j]))
  {}

  lemma UserKeeps(w: World, self: nat, kids: seq<Node>, v: nat, ids: set<nat>)
    requires self < |w.states| && self !in ids && AllNew(w.states, ids)
    ensures AllNew(SetUser(w, self, v).states, ids)
  {}

  lemma LeaveKeeps(w: World, o: Oracle, self: nat, kids: seq<Node>, k: nat)
    requires Separate(w.states, self, kids)
    ensures var t := Leave(w, o, self, kids, k);
      && Separate(t.states, self, kids) && t.states[self] == w.states[self]
      && forall j :: 0 <= j < |kids| && j != k && AllNew(w.states, CallIds(kids[j])) ==> AllNew(t.states, CallIds(kids[j]))
  {
    if k < |kids| && kids[k].Call? { OwnId(w.states, self, kids, k); }
  }

  /** A branch change makes both branches as new. */
  lemma SwitchResets(w: World, o: Oracle, self: nat, kids: seq<Node>, a: nat)
    requires Separate(w.states, self, kids) && a < |kids| && w.states[self].user != Offset(kids, a)
    ensures var t, was := Switch(w, o, self, kids, a), w.states[self].user;
      && AllNew(t.states, CallIds(kids[a]))
      && forall k :: 0 <= k < |kids| && Named(was) && Offset(kids, k) == was ==> AllNew(t.states, CallIds(kids[k]))
  {
    hide Leave, Rearm, AllNew, SetUser;
    var was := w.states[self].user;
    var left := Which(kids, was, 0);
    var w1 := if Named(was) then Rearm(Leave(w, o, self, kids, left), kids, left) else w;
    if Named(was) {
      var w0 := Leave(w, o, self, kids, left);
      LeaveKeeps(w, o, self, kids, left);
      if left < |kids| { RearmNews(w0, self, kids, left); } else { RearmNone(w0, kids, left); }
    }
    RearmNews(w1, self, kids, a);
    NotOwn(w, self, kids);
    UserKeeps(Rearm(w1, kids, a), self, kids, Offset(kids, a), CallIds(kids[a]));
    forall k | 0 <= k < |kids| && Named(was) && Offset(kids, k) == was
      ensures AllNew(Switch(w, o, self, kids, a).states, CallIds(kids[k]))
    {
      WhichOffset(kids, k);
      UserKeeps(Rearm(w1, kids, a), self, kids, Offset(kids, a), CallIds(kids[k]));
    }
  }

  lemma RearmNone(w: World, kids: seq<Node>, k: nat)
    requires k >= |kids|
    ensures Rearm(w, kids, k) == w
  {}

  lemma NotOwn(w: World, self: nat, kids: seq<Node>)
    requires Separate(w.states, self, kids)
    ensures forall k :: 0 <= k < |kids| ==> self !in CallIds(kids[k])
  {}

  /** Invoking branch `a` touches no node but its own. */
  lemma InvokeNews(w: World, o: Oracle, self: nat, kids: seq<Node>, a: nat)
    requires Separate(w.states, self, kids) && a < |kids| && kids[a].Call? && kids[a].fn.node < |w.states|
    ensures var t := Invoke(w, o, kids[a].fn).w;
      && Separate(t.states, self, kids) && t.states[self] == w.states[self]
      && (AllNew(w.states, CallIds(kids[a])) ==> AllNew(t.states, CallIds(kids[a]) - {kids[a].fn.node}))
      && forall k :: 0 <= k < |kids| && k != a && AllNew(w.states, CallIds(kids[k])) ==> AllNew(t.states, CallIds(kids[k]))
  {
    OwnId(w.states, self, kids, a);
    forall i | 0 <= i < |w.states| && i != kids[a].fn.node
      ensures Invoke(w, o, kids[a].fn).w.states[i] == w.states[i]
    {
      InvokeKeeps(w, o, kids[a].fn, i);
    }
  }

  /** What a tick that selects branch `a` leaves as new, in the state machine and in the dispatch. */
  lemma TickResets(w: World, o: Oracle, self: nat, kids: seq<Node>, val: int, tick: Fired)
    requires Separate(w.states, self, kids) && Cased(kids) && Offset(kids, |kids|) < NO_INDEX
    requires var a := Scan(kids, 1, val, 0); 0 < a < |kids| && Called(w, o, self, kids, a, tick)
    ensures var a, m := Scan(kids, 1, val, 0), MachineTick(w, o, self, kids, val).w;
      Resets(w, m, self, kids, a, tick, Offset(kids, a))
    ensures var a, f := Scan(kids, 1, val, 0), FieldTick(w, o, self, kids, val).w;
      Resets(w, f, self, kids, a, tick, if Completes(tick.code) then NO_INDEX else Offset(kids, a))
  {
    hide Leave, Rearm, AllNew, Switch, Invoke, SetUser;
    var a := Scan(kids, 1, val, 0);
    var w1 := Switch(w, o, self, kids, a);
    SwitchRecords(w, o, self, kids, a);
    SwitchSeparate(w, o, self, kids, a);
    InvokeNews(w1, o, self, kids, a);
    if w.states[self].user != Offset(kids, a) { SwitchResets(w, o, self, kids, a); }
    MainInvoke(w1, o, kids[a].fn);
    var w2 := Invoke(w1, o, kids[a].fn).w;
    EndResets(w2, o, self, kids, a);
    ScanIsCall(kids, val);
    if w.states[self].user != Offset(kids, a) {
      forall k | 0 <= k < |kids| && Named(w.states[self].user) && Offset(kids, k) == w.states[self].user
        ensures k != a && AllNew(w2.states, CallIds(kids[k]))
      {}
    }
  }

  lemma MainInvoke(w: World, o: Oracle, fn: Fn)
    requires fn.node < |w.states| && fn.kind.FMain?
    ensures Invoke(w, o, fn) == DispatchMain(w, o, fn)
  {}

  /** A branch that completed is as new, and the others are as they were. */
  lemma EndResets(w: World, o: Oracle, self: nat, kids: seq<Node>, a: nat)
    requires Separate(w.states, self, kids) && a < |kids| && kids[a].Call?
    ensures var t := Rearm(Leave(w, o, self, kids, a), kids, a);
      var u := SetUser(t, self, NO_INDEX);
      && t.states[self] == w.states[self] && u.states[self].user == NO_INDEX
      && AllNew(t.states, CallIds(kids[a])) && AllNew(u.states, CallIds(kids[a]))
      && AllNew(t.states, CallIds(kids[a]) - {kids[a].fn.node}) && AllNew(u.states, CallIds(kids[a]) - {kids[a].fn.node})
      && forall k :: 0 <= k < |kids| && k != a && AllNew(w.states, CallIds(kids[k])) ==>
           AllNew(t.states, CallIds(kids[k])) && AllNew(u.states, CallIds(kids[k]))
  {
    hide Leave, Rearm;
    LeaveKeeps(w, o, self, kids, a);
    RearmNews(Leave(w, o, self, kids, a), self, kids, a);
    var t := Rearm(Leave(w, o, self, kids, a), kids, a);
    forall k | 0 <= k < |kids| && AllNew(t.states, CallIds(kids[k]))
      ensures AllNew(SetUser(t, self, NO_INDEX).states, CallIds(kids[k]))
    {
      UserKeeps(t, self, kids, NO_INDEX, CallIds(kids[k]));
    }
  }

  /** Without a branch for the value nothing is called and nothing changes. */
  lemma TickIdles(w: World, o: Oracle, self: nat, kids: seq<Node>, val: int)
    requires Separate(w.states, self, kids) && Cased(kids) && Scan(kids, 1, val, 0) == 0
    ensures MachineTick(w, o, self, kids, val) == Outcome(w, Code(Pipe, Continue))
    ensures FieldTick(w, o, self, kids, val) == Outcome(w, Code(App, Continue))
  {}

  lemma TickActive(w: World, o: Oracle, self: nat, kids: seq<Node>, val: int, from: nat)
    requires Resting(w, self, kids, SceneAfter(w, from)) && from <= |w.trace| && CurActive(w, self, kids)
    requires Cased(kids) && Offset(kids, |kids|) < NO_INDEX
    ensures Separate(w.states, self, kids) && CurActive(MachineTick(w, o, self, kids, val).w, self, kids)
  {
    var a := Scan(kids, 1, val, 0);
    ScanIsCall(kids, val);
    if a != 0 {
      if IsMain(kids[a]) {
        var _, _, _, _ := TickRuns(w, o, self, kids, val, from);
      } else {
        OtherActive(w, o, self, kids, val);
      }
    }
  }

  lemma OtherActive(w: World, o: Oracle, self: nat, kids: seq<Node>, val: int)
    requires Separate(w.states, self, kids) && Cased(kids) && Offset(kids, |kids|) < NO_INDEX
    requires var a := Scan(kids, 1, val, 0); 0 < a < |kids| && !IsMain(kids[a])
    ensures CurActive(MachineTick(w, o, self, kids, val).w, self, kids)
  {
    hide Switch;
    var a := Scan(kids, 1, val, 0);
    ScanIsCall(kids, val);
    OffsetsRise(kids, 0, a);
    OffsetsRise(kids, a, |kids|);
    WhichOffset(kids, a);
    SwitchRecords(w, o, self, kids, a);
    SwitchSeparate(w, o, self, kids, a);
    InvokeKeepsRecord(Switch(w, o, self, kids, a), o, self, kids, a);
  }

  // ---- over whole runs -------------------------------------------------------

  lemma {:induction false} RunActive(w: World, o: Oracle, self: nat, kids: seq<Node>, ins: seq<Input>)
    requires Separate(w.states, self, kids) && Cased(kids) && Offset(kids, |kids|) < NO_INDEX
    requires forall k :: 0 <= k < |kids| && IsMain(kids[k]) ==> Idle(w, kids[k])
    ensures CurActive(MachineRun(w, o, self, kids, ins), self, kids)
    decreases |ins|
  {
    if ins != [] {
      hide MachineTick, Leave;
      var n := |ins| - 1;
      RunActive(w, o, self, kids, ins[..n]);
      RunRests(w, o, self, kids, ins[..n]);
      match ins[n]
      case Tick(val) => TickActive(MachineRun(w, o, self, kids, ins[..n]), o, self, kids, val, |w.trace|);
      case Stop =>
    }
  }

  /**
   Over whole runs of `se_state_machine`, from an INIT with no branch initialized: every tick whose field value has
   a MAIN branch calls that branch with exactly one tick. INIT comes first if and only if the branch is not live,
   that is if it was left, stopped or completed since its last INIT or never had one; the branch that was live, if
   another, is terminated before.
   */
  lemma EveryTickRuns(w: World, o: Oracle, self: nat, kids: seq<Node>, ins: seq<Input>, val: int)
    returns (leave: seq<Fired>, init: seq<Fired>, tick: Fired, ends: seq<Fired>)
    requires Separate(w.states, self, kids) && Cased(kids) && Offset(kids, |kids|) < NO_INDEX
    requires forall k :: 0 <= k < |kids| && IsMain(kids[k]) ==> Idle(w, kids[k])
    requires var a := Scan(kids, 1, val, 0); 0 < a < |kids| && IsMain(kids[a])
    ensures var a, s := Scan(kids, 1, val, 0), MachineRun(w, o, self, kids, ins);
      var t := MachineRun(w, o, self, kids, ins + [Tick(val)]);
      && |w.trace| <= |s.trace| && t.trace == s.trace + leave + init + [tick] + ends
      && Leaving(leave, SceneOf(s.trace[|w.trace|..]), kids[a].fn.node)
      && Runs(init, tick, ends, SceneOf(s.trace[|w.trace|..]), kids[a].fn)
      && Resets(s, t, self, kids, a, tick, Offset(kids, a))
  {
    hide MachineTick, Stage, Resets, Called;
    assert (ins + [Tick(val)])[..|ins|] == ins;
    RunRests(w, o, self, kids, ins);
    RunActive(w, o, self, kids, ins);
    leave, init, tick, ends := TickRuns(MachineRun(w, o, self, kids, ins), o, self, kids, val, |w.trace|);
    TickResets(MachineRun(w, o, self, kids, ins), o, self, kids, val, tick);
  }

  /** The same of `se_field_dispatch`, whose tick passes the branch's answer on unless that completed it. */
  lemma EveryDispatchRuns(w: World, o: Oracle, self: nat, kids: seq<Node>, ins: seq<Input>, val: int)
    returns (leave: seq<Fired>, init: seq<Fired>, tick: Fired, ends: seq<Fired>)
    requires Separate(w.states, self, kids) && Cased(kids) && Offset(kids, |kids|) < NO_INDEX
    requires forall k :: 0 <= k < |kids| && IsMain(kids[k]) ==> Idle(w, kids[k])
    requires var a := Scan(kids, 1, val, 0); 0 < a < |kids| && IsMain(kids[a])
    ensures var a, s := Scan(kids, 1, val, 0), FieldRun(w, o, self, kids, ins);
      var t := FieldRun(w, o, self, kids, ins + [Tick(val)]);
      && |w.trace| <= |s.trace| && t.trace == s.trace + leave + init + [tick] + ends
      && FieldTick(s, o, self, kids, val).code == (if Completes(tick.code) then Code(Pipe, Continue) else tick.code)
      && Leaving(leave, SceneOf(s.trace[|w.trace|..]), kids[a].fn.node)
      && Runs(init, tick, ends, SceneOf(s.trace[|w.trace|..]), kids[a].fn)
      && Resets(s, t, self, kids, a, tick, if Completes(tick.code) then NO_INDEX else Offset(kids, a))
  {
    hide Resets, MachineTick, FieldTick, MachineRun, FieldRun, SceneOf, Alike, Called, Leaving, Runs;
    RunRests(w, o, self, kids, ins);
    RunActive(w, o, self, kids, ins);
    RunsAlike(w, o, self, kids, ins);
    var m, f := MachineRun(w, o, self, kids, ins), FieldRun(w, o, self, kids, ins);
    SameSeparate(w.states, m.states, self, kids);
    SameSeparate(w.states, f.states, self, kids);
    leave, init, tick, ends := TickRuns(m, o, self, kids, val, |w.trace|);
    FieldAnswers(m, f, o, self, kids, val, tick);
    SameTrace(m, f, self, kids);
    TickAlike(m, f, o, self, kids, val);
    SameTrace(MachineTick(m, o, self, kids, val).w, FieldTick(f, o, self, kids, val).w, self, kids);
    RunOne(w, o, self, kids, ins, val);
    CalledToo(m, f, o, self, kids, val, tick);
    TickResets(f, o, self, kids, val, tick);
  }

  lemma SameTrace(m: World, f: World, self: nat, kids: seq<Node>)
    requires Alike(m, f, self, kids)
    ensures f.trace == m.trace
  {}

  lemma RunOne(w: World, o: Oracle, self: nat, kids: seq<Node>, ins: seq<Input>, val: int)
    requires Separate(w.states, self, kids) && Cased(kids)
    ensures Separate(FieldRun(w, o, self, kids, ins).states, self, kids)
    ensures FieldRun(w, o, self, kids, ins + [Tick(val)]) ==
            FieldTick(FieldRun(w, o, self, kids, ins), o, self, kids, val).w
  {
    hide FieldTick;
    assert (ins + [Tick(val)])[..|ins|] == ins;
  }

  lemma CalledToo(m: World, f: World, o: Oracle, self: nat, kids: seq<Node>, val: int, tick: Fired)
    requires Separate(m.states, self, kids) && Separate(f.states, self, kids) && Alike(m, f, self, kids)
    requires Cased(kids) && Offset(kids, |kids|) < NO_INDEX
    requires var a := Scan(kids, 1, val, 0); 0 < a < |kids| && Called(m, o, self, kids, a, tick)
    ensures Called(f, o, self, kids, Scan(kids, 1, val, 0), tick)
  {
    hide Switch, DispatchMain, Alike;
    SwitchMerges(m, f, o, self, kids, Scan(kids, 1, val, 0));
    SameLength(m, f, self, kids);
  }

  lemma SameLength(m: World, f: World, self: nat, kids: seq<Node>)
    requires Alike(m, f, self, kids)
    ensures |m.states| == |f.states|
  {}

  /** A dispatch passes on what its branch answered, unless that completed it. */
  lemma FieldAnswers(m: World, f: World, o: Oracle, self: nat, kids: seq<Node>, val: int, tick: Fired)
    requires Separate(m.states, self, kids) && Separate(f.states, self, kids) && Alike(m, f, self, kids)
    requires Cased(kids) && Offset(kids, |kids|) < NO_INDEX
    requires var a := Scan(kids, 1, val, 0); 0 < a < |kids| && Called(m, o, self, kids, a, tick)
    ensures FieldTick(f, o, self, kids, val).code == if Completes(tick.code) then Code(Pipe, Continue) else tick.code
  {
    hide Switch, DispatchMain, Alike, Leave, Rearm;
    SwitchMerges(m, f, o, self, kids, Scan(kids, 1, val, 0));
  }
}
