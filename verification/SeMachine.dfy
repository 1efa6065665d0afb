/**
 Branch switching across ticks: `se_state_machine` (`s_engine/runtime/s_engine_builtins_dispatch.h`)
 picks an action by the value of a field, terminates the branch it leaves and rearms the one it
 enters. Field values and what the branches answer are arbitrary.
 */
module SeMachine {
  import opened Options
  import opened SeTree
  import opened SeNodes

  const OP_INT: nat := 0
  const OP_UINT: nat := 1

  // ---- choosing the action ---------------------------------------------------

  /** The cast to `int32_t`. */
  function AsInt32(x: int): int { (x + 0x8000_0000) % 0x1_0000_0000 - 0x8000_0000 }

  predicate IsKey(n: Node) { n.Leaf? && (n.op == OP_INT || n.op == OP_UINT) }

  /** The scan of [key, action] pairs from parameter `i`; 0 means nothing found. */
  function Scan(kids: seq<Node>, i: nat, val: int, fallback: nat): nat
    decreases if i < |kids| then |kids| - i else 0
  {
    if i >= |kids| then fallback
    else if !IsKey(kids[i]) then Scan(kids, i + 1, val, fallback)
    else if i + 1 >= |kids| then fallback
    else if AsInt32(kids[i].word) == val then i + 1
    else Scan(kids, i + 2, val, if AsInt32(kids[i].word) == -1 then i + 1 else fallback)
  }

  /** Where the pairs are: positions of the keys that have an action. */
  function Keys(kids: seq<Node>, i: nat): (r: seq<nat>)
    ensures forall j :: 0 <= j < |r| ==> i <= r[j] && r[j] + 1 < |kids| && IsKey(kids[r[j]])
    decreases if i < |kids| then |kids| - i else 0
  {
    if i >= |kids| then []
    else if !IsKey(kids[i]) then Keys(kids, i + 1)
    else if i + 1 >= |kids| then []
    else [i] + Keys(kids, i + 2)
  }

  predicate KeyIs(kids: seq<Node>, key: nat, val: int) {
    key < |kids| && IsKey(kids[key]) && AsInt32(kids[key].word) == val
  }

  /** The first of the listed keys that is `val`, or |keys|. */
  function FirstKey(kids: seq<Node>, keys: seq<nat>, val: int): (r: nat)
    ensures r <= |keys| && (r < |keys| ==> KeyIs(kids, keys[r], val))
    ensures forall h :: 0 <= h < r ==> !KeyIs(kids, keys[h], val)
  {
    if keys == [] || KeyIs(kids, keys[0], val) then 0 else 1 + FirstKey(kids, keys[1..], val)
  }

  /** The last of the listed keys that is `val`, or |keys|. */
  function LastKey(kids: seq<Node>, keys: seq<nat>, val: int): (r: nat)
    ensures r <= |keys| && (r < |keys| ==> KeyIs(kids, keys[r], val))
    ensures forall h :: 0 <= h < |keys| && (h > r || r == |keys|) ==> !KeyIs(kids, keys[h], val)
  {
    if keys == [] then 0
    else
      var t := LastKey(kids, keys[1..], val);
      if t < |keys| - 1 then t + 1 else if KeyIs(kids, keys[0], val) then 0 else |keys|
  }

  /** The action of the first listed key that is the value, else of the last default key, else `fallback`. */
  function Chosen(kids: seq<Node>, keys: seq<nat>, val: int, fallback: nat): nat {
    var exact := FirstKey(kids, keys, val);
    if exact < |keys| then keys[exact] + 1
    else
      var last := LastKey(kids, keys, -1);
      if last < |keys| then keys[last] + 1 else fallback
  }

  lemma ChosenCons(kids: seq<Node>, i: nat, rest: seq<nat>, val: int, fallback: nat)
    ensures Chosen(kids, [], val, fallback) == fallback
    ensures Chosen(kids, [i] + rest, val, fallback) ==
      if KeyIs(kids, i, val) then i + 1 else Chosen(kids, rest, val, if KeyIs(kids, i, -1) then i + 1 else fallback)
  {
    hide KeyIs;
    var keys := [i] + rest;
    assert keys[1..] == rest;
    assert FirstKey(kids, keys, val) == if KeyIs(kids, i, val) then 0 else 1 + FirstKey(kids, rest, val);
    var t := LastKey(kids, rest, -1);
    assert LastKey(kids, keys, -1) == if t < |rest| then t + 1 else if KeyIs(kids, i, -1) then 0 else |keys|;
  }

  /** The one-pass scan finds that action. */
  lemma {:induction false} ScanPicks(kids: seq<Node>, i: nat, val: int, fallback: nat)
    ensures Scan(kids, i, val, fallback) == Chosen(kids, Keys(kids, i), val, fallback)
    decreases if i < |kids| then |kids| - i else 0
  {
    hide AsInt32, Chosen;
    ChosenCons(kids, i, Keys(kids, i + 2), val, fallback);
    if i < |kids| {
      if !IsKey(kids[i]) {
        ScanPicks(kids, i + 1, val, fallback);
      } else if i + 1 < |kids| {
        ScanPicks(kids, i + 2, val, if AsInt32(kids[i].word) == -1 then i + 1 else fallback);
      }
    }
  }

  // ---- the node --------------------------------------------------------------

  /** Every action is a call. */
  predicate Cased(kids: seq<Node>) {
    forall j :: 0 <= j < |Keys(kids, 1)| ==> kids[Keys(kids, 1)[j] + 1].Call?
  }

  /** The parameter at a physical offset, or |kids|. */
  function Which(kids: seq<Node>, at: nat, k: nat): (r: nat)
    requires k <= |kids|
    ensures k <= r <= |kids| && (r < |kids| ==> Offset(kids, r) == at)
    ensures forall i :: k <= i < r ==> Offset(kids, i) != at
    decreases |kids| - k
  {
    if k == |kids| || Offset(kids, k) == at then k else Which(kids, at, k + 1)
  }

  lemma {:induction false} OffsetsRise(kids: seq<Node>, i: nat, k: nat)
    requires i < k <= |kids|
    ensures Offset(kids, i) < Offset(kids, k)
    decreases k
  {
    OffsetStep(kids, k - 1);
    if i < k - 1 { OffsetsRise(kids, i, k - 1); }
  }

  lemma WhichOffset(kids: seq<Node>, k: nat)
    requires k < |kids|
    ensures Which(kids, Offset(kids, k), 0) == k
  {
    var r := Which(kids, Offset(kids, k), 0);
    if r < k { OffsetsRise(kids, r, k); }
  }

  function SetUser(w: World, self: nat, v: nat): (r: World)
    requires self < |w.states|
    ensures |r.states| == |w.states|
  {
    Flag(w, self, w.states[self].(user := v))
  }

  /** `terminate_action_at_index` */
  ghost function Leave(w: World, o: Oracle, self: nat, kids: seq<Node>, k: nat): (r: World)
    requires Separate(w.states, self, kids)
    ensures |r.states| == |w.states|
  {
    if k < |kids| && kids[k].Call? then
      OwnId(w.states, self, kids, k);
      TerminateChild(w, o, kids[k].fn)
    else w
  }

  /** `reset_action_at_index` */
  ghost function Rearm(w: World, kids: seq<Node>, k: nat): (r: World)
    ensures |r.states| == |w.states|
  {
    if k < |kids| then w.(states := ResetNodes(w.states, CallIds(kids[k]))) else w
  }

  /** Does the user word name a branch? */
  predicate Named(at: nat) { 0 < at != NO_INDEX }

  /** One tick with field value `val`. */
  ghost function MachineTick(w: World, o: Oracle, self: nat, kids: seq<Node>, val: int): (r: Outcome)
    requires Separate(w.states, self, kids) && Cased(kids)
    ensures |r.w.states| == |w.states|
  {
    var a := Scan(kids, 1, val, 0);
    if a == 0 then Outcome(w, Code(Pipe, Continue))
    else
      ScanIsCall(kids, val);
      OwnId(w.states, self, kids, a);
      var out := Invoke(Switch(w, o, self, kids, a), o, kids[a].fn);
      if Completes(out.code) then Outcome(Rearm(Leave(out.w, o, self, kids, a), kids, a), Code(Pipe, Continue))
      else Outcome(out.w, Answered(out.code))
  }

  /** The branch change: the old branch terminated and rearmed, the new one rearmed and recorded. */
  ghost function Switch(w: World, o: Oracle, self: nat, kids: seq<Node>, a: nat): (r: World)
    requires Separate(w.states, self, kids) && a < |kids|
    ensures |r.states| == |w.states|
  {
    var at, was := Offset(kids, a), w.states[self].user;
    if at == was then w
    else
      var left := Which(kids, was, 0);
      var w1 := if Named(was) then Rearm(Leave(w, o, self, kids, left), kids, left) else w;
      SetUser(Rearm(w1, kids, a), self, at)
  }

  /** What the node returns when the branch is still running. */
  function Answered(c: Code): Code {
    if c == Code(Function, Halt) then Code(Pipe, Halt)
    else if !c.level.Pipe? then c
    else if c.kind.SkipContinue? then Code(Pipe, Continue) else c
  }

  lemma ScanIsCall(kids: seq<Node>, val: int)
    requires Cased(kids)
    ensures var a := Scan(kids, 1, val, 0); a > 0 ==> 1 < a < |kids| && kids[a].Call?
  {
    ScanPicks(kids, 1, val, 0);
  }

  datatype Input = Tick(val: int) | Stop

  /** `se_state_machine` for TICK and TERMINATE. */
  ghost function MachineStep(w: World, o: Oracle, self: nat, kids: seq<Node>, input: Input): (r: World)
    requires Separate(w.states, self, kids) && Cased(kids)
    ensures |r.states| == |w.states|
  {
    match input
    case Tick(val) => MachineTick(w, o, self, kids, val).w
    case Stop =>
      var at := w.states[self].user;
      SetUser(if Named(at) then Leave(w, o, self, kids, Which(kids, at, 0)) else w, self, NO_INDEX)
  }

  /** INIT, then the inputs in order. */
  ghost function MachineRun(w: World, o: Oracle, self: nat, kids: seq<Node>, ins: seq<Input>): (r: World)
    requires Separate(w.states, self, kids) && Cased(kids)
    ensures |r.states| == |w.states|
    decreases |ins|
  {
    if ins == [] then SetUser(w, self, NO_INDEX)
    else MachineStep(MachineRun(w, o, self, kids, ins[..|ins| - 1]), o, self, kids, ins[|ins| - 1])
  }

  // ---- the monitor -----------------------------------------------------------

  /** `live`: the MAIN branch that had INIT and no TERMINATE since; `ended`: the one terminated last. */
  datatype Scene = Scene(live: Option<nat>, ended: Option<nat>, legal: bool)
  /** INIT only when no branch is live, ticks only for the live one; a repeated TERMINATE is tolerated. */
  function Watch(sc: Scene, f: Fired): Scene {
    if !f.fn.kind.FMain? then sc
    else
      var n := f.fn.node;
      match f.ev
      case EvInit => Scene(Some(n), None, sc.legal && sc.live == None)
      case EvTick => sc.(legal := sc.legal && sc.live == Some(n))
      case EvTerm => if sc.live == Some(n) then Scene(None, Some(n), sc.legal)
                     else sc.(legal := sc.legal && sc.live == None && sc.ended == Some(n))
  }

  ghost function SceneOf(ts: seq<Fired>): Scene {
    if ts == [] then Scene(None, None, true) else Watch(SceneOf(ts[..|ts| - 1]), ts[|ts| - 1])
  }

  lemma SceneSnoc(ts: seq<Fired>, f: Fired)
    ensures SceneOf(ts + [f]) == Watch(SceneOf(ts), f)
  {
    assert (ts + [f])[..|ts|] == ts;
  }

  /** In a legal trace the branch that had INIT is terminated before any branch has INIT again. */
  lemma {:induction false} TerminatedBetween(ts: seq<Fired>, i: nat, j: nat) returns (k: nat)
    requires i < j < |ts| && SceneOf(ts).legal
    requires Is(ts[i], ts[i].fn, EvInit) && ts[i].fn.kind.FMain? && Is(ts[j], ts[j].fn, EvInit) && ts[j].fn.kind.FMain?
    ensures i < k < j && ts[k].ev == EvTerm && ts[k].fn.kind.FMain? && ts[k].fn.node == ts[i].fn.node
  {
    PrefixLegal(ts, j + 1);
    assert ts[..j + 1][..j] == ts[..j] && ts[..j + 1][j] == ts[j];
    k := LiveUntil(ts, i, j);
  }

  lemma {:induction false} PrefixLegal(ts: seq<Fired>, n: nat)
    requires n <= |ts| && SceneOf(ts).legal
    ensures SceneOf(ts[..n]).legal
    decreases |ts| - n
  {
    if n < |ts| {
      PrefixLegal(ts, n + 1);
      assert ts[..n + 1][..n] == ts[..n];
    } else {
      assert ts[..n] == ts;
    }
  }

  /** A branch with no TERMINATE since its INIT is still live. */
  lemma {:induction false} LiveUntil(ts: seq<Fired>, i: nat, j: nat) returns (k: nat)
    requires i < j <= |ts| && SceneOf(ts).legal
    requires Is(ts[i], ts[i].fn, EvInit) && ts[i].fn.kind.FMain? && SceneOf(ts[..j]).live != Some(ts[i].fn.node)
    ensures i < k < j && ts[k].ev == EvTerm && ts[k].fn.kind.FMain? && ts[k].fn.node == ts[i].fn.node
    decreases j
  {
    PrefixLegal(ts, j);
    assert ts[..j][..j - 1] == ts[..j - 1] && ts[..j][j - 1] == ts[j - 1];
    if j == i + 1 {
      assert false;
    } else if SceneOf(ts[..j - 1]).live == Some(ts[i].fn.node) {
      k := j - 1;
    } else {
      k := LiveUntil(ts, i, j - 1);
    }
  }

  // ---- the invariant ---------------------------------------------------------

  predicate IsMain(n: Node) { n.Call? && n.fn.kind.FMain? }

  /** No MAIN branch but `cur` is initialized, and the monitor saw `cur` live if it is (or just terminated). */
  ghost predicate Stage(w: World, self: nat, kids: seq<Node>, cur: nat, sc: Scene) {
    && Separate(w.states, self, kids) && sc.legal
    && (forall k :: 0 <= k < |kids| && k != cur && IsMain(kids[k]) ==> Idle(w, kids[k]))
    && (if cur < |kids| && IsMain(kids[cur]) && !Idle(w, kids[cur])
        then sc.live == Some(kids[cur].fn.node) || (sc.live == None && sc.ended == Some(kids[cur].fn.node))
        else sc.live == None)
  }

  ghost predicate Idle(w: World, n: Node) {
    n.Call? && n.fn.node < |w.states| && !w.states[n.fn.node].inited
  }

  /** Between ticks: the branch that may be initialized is the one the user word names, and it is live. */
  ghost predicate Resting(w: World, self: nat, kids: seq<Node>, sc: Scene) {
    self < |w.states| &&
    var at := w.states[self].user;
    var cur := if Named(at) then Which(kids, at, 0) else |kids|;
    Stage(w, self, kids, cur, sc) && (cur < |kids| && IsMain(kids[cur]) && !Idle(w, kids[cur]) ==> sc.live.Some?)
  }

  ghost function SceneAfter(w: World, from: nat): Scene {
    if from <= |w.trace| then SceneOf(w.trace[from..]) else Scene(None, None, false)
  }

  lemma FireScene(w: World, o: Oracle, fn: Fn, ev: Ev, from: nat)
    requires fn.node < |w.states| && from <= |w.trace|
    ensures var r := Fire(w, o, fn, ev);
      SceneAfter(r.w, from) == Watch(SceneAfter(w, from), Fired(fn, ev, r.code)) && from <= |r.w.trace|
  {
    var r := Fire(w, o, fn, ev);
    assert r.w.trace[from..] == w.trace[from..] + [Fired(fn, ev, r.code)];
    SceneSnoc(w.trace[from..], Fired(fn, ev, r.code));
  }

  /** A change of child `k`'s own node, or of the machine's, does not touch the other branches. */
  lemma OthersIdle(w: World, t: World, self: nat, kids: seq<Node>, k: nat)
    requires Separate(w.states, self, kids) && |t.states| == |w.states| && k < |kids|
    requires forall i :: 0 <= i < |w.states| && i != self && i !in CallIds(kids[k]) ==> t.states[i] == w.states[i]
    ensures Separate(t.states, self, kids)
    ensures forall j :: 0 <= j < |kids| && j != k && IsMain(kids[j]) && Idle(w, kids[j]) ==> Idle(t, kids[j])
  {
    forall j | 0 <= j < |kids| && j != k && IsMain(kids[j])
      ensures kids[j].fn.node < |w.states| && t.states[kids[j].fn.node] == w.states[kids[j].fn.node]
    {
      OwnId(w.states, self, kids, j);
      if j < k { assert CallIds(kids[j]) !! CallIds(kids[k]); } else { assert CallIds(kids[k]) !! CallIds(kids[j]); }
    }
  }

  /** Terminating the branch that may be live leaves none. */
  lemma LeaveStage(w: World, o: Oracle, self: nat, kids: seq<Node>, cur: nat, from: nat)
    requires Stage(w, self, kids, cur, SceneAfter(w, from)) && cur <= |kids| && from <= |w.trace|
    ensures var t := Leave(w, o, self, kids, cur);
      Stage(t, self, kids, |kids|, SceneAfter(t, from)) && from <= |t.trace| && t.states[self] == w.states[self]
  {
    var t := Leave(w, o, self, kids, cur);
    if cur < |kids| && IsMain(kids[cur]) {
      OwnId(w.states, self, kids, cur);
      if !Idle(w, kids[cur]) {
        FireScene(w, o, kids[cur].fn, EvTerm, from);
      }
      OthersIdle(w, t, self, kids, cur);
      assert Idle(t, kids[cur]);
    }
  }

  /** Rearming a branch when none is live changes nothing the monitor or the others see. */
  lemma RearmStage(w: World, self: nat, kids: seq<Node>, k: nat, from: nat)
    requires Stage(w, self, kids, |kids|, SceneAfter(w, from)) && k <= |kids|
    ensures var t := Rearm(w, kids, k);
      Stage(t, self, kids, |kids|, SceneAfter(t, from)) && t.trace == w.trace && t.states[self] == w.states[self]
  {
    if k < |kids| {
      var t := Rearm(w, kids, k);
      OthersIdle(w, t, self, kids, k);
      if kids[k].Call? { OwnId(w.states, self, kids, k); }
    }
  }

  /** Invoking branch `a` when no other is live: afterwards it alone may be. */
  lemma InvokeStage(w: World, o: Oracle, self: nat, kids: seq<Node>, a: nat, from: nat)
    requires a < |kids| && kids[a].Call? && from <= |w.trace|
    requires Stage(w, self, kids, a, SceneAfter(w, from)) && kids[a].fn.node < |w.states|
    requires IsMain(kids[a]) && !Idle(w, kids[a]) ==> SceneAfter(w, from).live.Some?
    ensures var out := Invoke(w, o, kids[a].fn);
      && Stage(out.w, self, kids, a, SceneAfter(out.w, from)) && from <= |out.w.trace|
      && out.w.states[self] == w.states[self]
      && (IsMain(kids[a]) && !Idle(out.w, kids[a]) && !Completes(out.code) ==> SceneAfter(out.w, from).live.Some?)
  {
    var fn := kids[a].fn;
    var out := Invoke(w, o, fn);
    OwnId(w.states, self, kids, a);
    OthersIdle(w, out.w, self, kids, a);
    match fn.kind {
      case FPred => FireScene(w, o, fn, EvTick, from);
      case FOneshot =>
        var s := w.states[fn.node];
        var w1 := Flag(w, fn.node, if fn.survives then s.(ever := true) else s.(inited := true));
        FireScene(w1, o, fn, EvTick, from);
      case FMain => MainScene(w, o, fn, from);
    }
  }

  lemma MainScene(w: World, o: Oracle, fn: Fn, from: nat)
    requires fn.node < |w.states| && fn.kind.FMain? && from <= |w.trace| && SceneAfter(w, from).legal
    requires SceneAfter(w, from).live == if w.states[fn.node].inited then Some(fn.node) else None
    ensures var out := DispatchMain(w, o, fn);
      var sc := SceneAfter(out.w, from);
      && from <= |out.w.trace| && sc.legal
      && (if !out.w.states[fn.node].inited then sc.live == None
          else sc.live == Some(fn.node) || (sc.live == None && sc.ended == Some(fn.node) && Completes(out.code)))
  {
    var n := fn.node;
    if w.states[n].active {
      var w0 := Flag(w, n, w.states[n].(inited := true));
      if !w.states[n].inited { FireScene(w0, o, fn, EvInit, from); }
      var w1 := if w.states[n].inited then w else Fire(w0, o, fn, EvInit).w;
      FireScene(w1, o, fn, EvTick, from);
      var tick := Fire(w1, o, fn, EvTick);
      FireScene(tick.w, o, fn, EvTerm, from);
    }
  }

  lemma UserStage(w: World, self: nat, kids: seq<Node>, cur: nat, v: nat, sc: Scene)
    requires Stage(w, self, kids, cur, sc)
    ensures Stage(SetUser(w, self, v), self, kids, cur, sc)
  {
    forall k | 0 <= k < |kids| && IsMain(kids[k])
      ensures kids[k].fn.node != self
    {
      OwnId(w.states, self, kids, k);
    }
  }

  /** When no branch is live, any index will do for the current one. */
  lemma IdleStage(w: World, self: nat, kids: seq<Node>, a: nat, sc: Scene)
    requires Stage(w, self, kids, |kids|, sc)
    ensures Stage(w, self, kids, a, sc)
  {}

  lemma LeftStage(w: World, o: Oracle, self: nat, kids: seq<Node>, cur: nat, from: nat)
    requires Stage(w, self, kids, cur, SceneAfter(w, from)) && cur <= |kids| && from <= |w.trace|
    ensures Separate(w.states, self, kids)
    ensures var t := Rearm(Leave(w, o, self, kids, cur), kids, cur);
      Stage(t, self, kids, |kids|, SceneAfter(t, from)) && from <= |t.trace|
  {
    hide Leave, Rearm;
    LeaveStage(w, o, self, kids, cur, from);
    RearmStage(Leave(w, o, self, kids, cur), self, kids, cur, from);
  }

  /** The entered branch is rearmed and recorded; none is live yet. */
  lemma EnteredStage(w: World, self: nat, kids: seq<Node>, a: nat, from: nat)
    requires Stage(w, self, kids, |kids|, SceneAfter(w, from)) && a < |kids| && from <= |w.trace|
    ensures var t := SetUser(Rearm(w, kids, a), self, Offset(kids, a));
      && Stage(t, self, kids, a, SceneAfter(t, from)) && from <= |t.trace| && t.states[self].user == Offset(kids, a)
      && (IsMain(kids[a]) ==> Idle(t, kids[a]))
  {
    hide Rearm, Stage;
    var w2 := Rearm(w, kids, a);
    StageFacts(w, self, kids, |kids|, SceneAfter(w, from));
    RearmStage(w, self, kids, a, from);
    if IsMain(kids[a]) {
      NoneLive(w2, self, kids, a, SceneAfter(w2, from));
      OwnId(w.states, self, kids, a);
    }
    IdleStage(w2, self, kids, a, SceneAfter(w2, from));
    UserStage(w2, self, kids, a, Offset(kids, a), SceneAfter(w2, from));
  }

  /** Before the new branch is invoked the left one is terminated. */
  lemma SwitchStage(w: World, o: Oracle, self: nat, kids: seq<Node>, a: nat, from: nat)
    requires Resting(w, self, kids, SceneAfter(w, from)) && from <= |w.trace|
    requires 0 < a < |kids| && Offset(kids, a) < NO_INDEX
    ensures Separate(w.states, self, kids)
    ensures var t := Switch(w, o, self, kids, a);
      var sc := SceneAfter(t, from);
      && Stage(t, self, kids, a, sc) && from <= |t.trace| && t.states[self].user == Offset(kids, a)
      && (IsMain(kids[a]) && !Idle(t, kids[a]) ==> sc.live.Some?)
  {
    hide Stage, Leave, Rearm, SceneAfter;
    var was := w.states[self].user;
    var cur := if Named(was) then Which(kids, was, 0) else |kids|;
    StageFacts(w, self, kids, cur, SceneAfter(w, from));
    OffsetsRise(kids, 0, a);
    WhichOffset(kids, a);
    if Offset(kids, a) != was {
      if Named(was) { LeftStage(w, o, self, kids, cur, from); }
      EnteredStage(if Named(was) then Rearm(Leave(w, o, self, kids, cur), kids, cur) else w, self, kids, a, from);
    }
  }

  lemma StageFacts(w: World, self: nat, kids: seq<Node>, cur: nat, sc: Scene)
    requires Stage(w, self, kids, cur, sc)
    ensures Separate(w.states, self, kids)
  {}

  lemma NoneLive(w: World, self: nat, kids: seq<Node>, a: nat, sc: Scene)
    requires Stage(w, self, kids, |kids|, sc) && a < |kids| && IsMain(kids[a])
    ensures Idle(w, kids[a])
  {}

  /** One tick keeps the discipline. */
  lemma TickRests(w: World, o: Oracle, self: nat, kids: seq<Node>, val: int, from: nat)
    requires Resting(w, self, kids, SceneAfter(w, from)) && from <= |w.trace|
    requires Cased(kids) && Offset(kids, |kids|) < NO_INDEX
    ensures Separate(w.states, self, kids)
    ensures var t := MachineTick(w, o, self, kids, val).w;
      Resting(t, self, kids, SceneAfter(t, from)) && from <= |t.trace|
  {
    hide Stage, Switch, Invoke, Leave, Rearm;
    var was := w.states[self].user;
    StageFacts(w, self, kids, if Named(was) then Which(kids, was, 0) else |kids|, SceneAfter(w, from));
    var a := Scan(kids, 1, val, 0);
    if a != 0 {
      ScanIsCall(kids, val);
      OffsetsRise(kids, 0, a);
      OffsetsRise(kids, a, |kids|);
      WhichOffset(kids, a);
      OwnId(w.states, self, kids, a);
      SwitchStage(w, o, self, kids, a, from);
      var w1 := Switch(w, o, self, kids, a);
      InvokeStage(w1, o, self, kids, a, from);
      var out := Invoke(w1, o, kids[a].fn);
      if Completes(out.code) {
        var w2 := Leave(out.w, o, self, kids, a);
        StageFacts(out.w, self, kids, a, SceneAfter(out.w, from));
        LeaveStage(out.w, o, self, kids, a, from);
        RearmStage(w2, self, kids, a, from);
        var t := Rearm(w2, kids, a);
        IdleStage(t, self, kids, a, SceneAfter(t, from));
        if IsMain(kids[a]) { NoneLive(t, self, kids, a, SceneAfter(t, from)); }
      }
    }
  }

  lemma StopRests(w: World, o: Oracle, self: nat, kids: seq<Node>, from: nat)
    requires Resting(w, self, kids, SceneAfter(w, from)) && from <= |w.trace| && Cased(kids)
    ensures Separate(w.states, self, kids)
    ensures var t := MachineStep(w, o, self, kids, Stop);
      Resting(t, self, kids, SceneAfter(t, from)) && from <= |t.trace| && Stage(t, self, kids, |kids|, SceneAfter(t, from))
  {
    var at := w.states[self].user;
    var cur := if Named(at) then Which(kids, at, 0) else |kids|;
    if Named(at) { LeaveStage(w, o, self, kids, cur, from); }
    var w1 := if Named(at) then Leave(w, o, self, kids, cur) else w;
    UserStage(w1, self, kids, |kids|, NO_INDEX, SceneAfter(w1, from));
  }

  // ---- over whole runs -------------------------------------------------------

  lemma {:induction false} RunRests(w: World, o: Oracle, self: nat, kids: seq<Node>, ins: seq<Input>)
    requires Separate(w.states, self, kids) && Cased(kids) && Offset(kids, |kids|) < NO_INDEX
    requires forall k :: 0 <= k < |kids| && IsMain(kids[k]) ==> Idle(w, kids[k])
    ensures var t := MachineRun(w, o, self, kids, ins);
      Resting(t, self, kids, SceneAfter(t, |w.trace|)) && |w.trace| <= |t.trace|
    decreases |ins|
  {
    if ins == [] {
      assert w.trace[|w.trace|..] == [];
      UserStage(w, self, kids, |kids|, NO_INDEX, SceneAfter(w, |w.trace|));
    } else {
      var n := |ins| - 1;
      RunRests(w, o, self, kids, ins[..n]);
      match ins[n]
      case Tick(val) => TickRests(MachineRun(w, o, self, kids, ins[..n]), o, self, kids, val, |w.trace|);
      case Stop => StopRests(MachineRun(w, o, self, kids, ins[..n]), o, self, kids, |w.trace|);
    }
  }

  /**
   Branch exclusivity: from an INIT with no branch initialized, after any field values and whatever the
   branches answer, only the MAIN branch recorded in the user word can be initialized, and everything the
   branches were called with is legal for the monitor; after TERMINATE no branch is initialized.
   */
  lemma BranchesExclude(w: World, o: Oracle, self: nat, kids: seq<Node>, ins: seq<Input>, k: nat)
    requires Separate(w.states, self, kids) && Cased(kids) && Offset(kids, |kids|) < NO_INDEX
    requires forall j :: 0 <= j < |kids| && IsMain(kids[j]) ==> Idle(w, kids[j])
    requires k < |kids| && IsMain(kids[k]) && kids[k].fn.node < |w.states|
    ensures var t := MachineRun(w, o, self, kids, ins);
      && |w.trace| <= |t.trace| && SceneOf(t.trace[|w.trace|..]).legal
      && (t.states[kids[k].fn.node].inited ==> t.states[self].user == Offset(kids, k))
      && (ins != [] && ins[|ins| - 1].Stop? ==> !t.states[kids[k].fn.node].inited)
  {
    RunRests(w, o, self, kids, ins);
    if ins != [] && ins[|ins| - 1].Stop? {
      RunRests(w, o, self, kids, ins[..|ins| - 1]);
      StopRests(MachineRun(w, o, self, kids, ins[..|ins| - 1]), o, self, kids, |w.trace|);
    }
  }
}
