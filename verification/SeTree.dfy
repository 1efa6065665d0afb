/**
 The flat token form of an expression tree (`s_engine/runtime`): callables and brackets carry the
 distance to their closing token, and every walk of the engine goes by these distances. Here the
 flat form is the encoding of an inductive tree, and the walks are proved to follow that tree.
 */
module SeTree {

  const NO_INDEX: nat := 0xFFFF

  datatype FuncKind = FMain | FOneshot | FPred

  /** A function token: which table, whether a one-shot survives resets, its entry, and its node state. */
  datatype Fn = Fn(kind: FuncKind, survives: bool, func: nat, node: nat)

  /** `s_expr_param_t`; `brace` is the forward distance to the matching close. */
  datatype Token =
    | Atom(op: nat, word: int)
    | FuncTok(fn: Fn)
    | OpenGroup(kind: nat, brace: nat)
    | OpenCall(brace: nat)
    | Close

  /**
   A parameter: a constant or reference, a bracketed list, dictionary, array or tuple, whose contents no
   walk enters, or a call with its own parameters.
   */
  datatype Node =
    | Leaf(op: nat, word: int)
    | Ref(fn: Fn)
    | Group(kind: nat, body: seq<Token>)
    | Call(fn: Fn, args: seq<Node>)

  function Encode(n: Node): (r: seq<Token>)
    ensures |r| > 0
    decreases n
  {
    match n
    case Leaf(op, word) => [Atom(op, word)]
    case Ref(fn) => [FuncTok(fn)]
    case Group(kind, body) => [OpenGroup(kind, |body| + 1)] + body + [Close]
    case Call(fn, args) => [OpenCall(|EncodeAll(args)| + 2), FuncTok(fn)] + EncodeAll(args) + [Close]
  }

  function EncodeAll(ns: seq<Node>): (r: seq<Token>)
    ensures |r| >= |ns|
    decreases ns
  {
    if ns == [] then [] else Encode(ns[0]) + EncodeAll(ns[1..])
  }

  /** `skip_logical_param` and `s_expr_skip_param`, on 16-bit indexes. */
  function Skip(toks: seq<Token>, base: nat, idx: nat): nat
    requires base + idx < |toks|
  {
    match toks[base + idx]
    case OpenGroup(_, brace) => (idx + brace + 1) % 0x1_0000
    case OpenCall(brace) => (idx + brace + 1) % 0x1_0000
    case _ => (idx + 1) % 0x1_0000
  }

  /** The `count` tokens from `base` are the parameters `ns`, and 16-bit indexes reach all of them. */
  predicate Encodes(toks: seq<Token>, base: nat, count: nat, ns: seq<Node>) {
    base + count <= |toks| && count < NO_INDEX && toks[base..base + count] == EncodeAll(ns)
  }

  /** Skipping a parameter lands on the next one. */
  lemma SkipLands(toks: seq<Token>, base: nat, count: nat, ns: seq<Node>, idx: nat)
    requires Encodes(toks, base, count, ns) && ns != [] && idx + count < NO_INDEX && idx <= base
    ensures Skip(toks, base - idx, idx) == idx + |Encode(ns[0])| && |Encode(ns[0])| <= count
    ensures Encodes(toks, base + |Encode(ns[0])|, count - |Encode(ns[0])|, ns[1..])
  {
    var head := Encode(ns[0]);
    assert toks[base] == EncodeAll(ns)[0] == head[0];
    assert toks[base..base + count] == head + EncodeAll(ns[1..]);
    assert toks[base + |head|..base + count] == EncodeAll(ns[1..]);
  }

  /** Physical offset of the `k`-th parameter. */
  function Offset(ns: seq<Node>, k: nat): nat
    requires k <= |ns|
    decreases k
  {
    if k == 0 then 0 else |Encode(ns[0])| + Offset(ns[1..], k - 1)
  }

  /** An offset is where the encoding of the earlier parameters ends. */
  lemma {:induction false} OffsetIsLength(ns: seq<Node>, k: nat)
    requires k <= |ns|
    ensures Offset(ns, k) == |EncodeAll(ns[..k])| <= |EncodeAll(ns)|
    ensures EncodeAll(ns)[Offset(ns, k)..] == EncodeAll(ns[k..])
    ensures k < |ns| ==> Offset(ns, k) < |EncodeAll(ns)|
    decreases k
  {
    if k > 0 {
      OffsetIsLength(ns[1..], k - 1);
      assert ns[..k][0] == ns[0] && ns[..k][1..] == ns[1..][..k - 1];
      assert ns[1..][k - 1..] == ns[k..];
    } else {
      assert ns[0..] == ns;
    }
  }

  lemma {:induction false} OffsetStep(ns: seq<Node>, k: nat)
    requires k < |ns|
    ensures Offset(ns, k + 1) == Offset(ns, k) + |Encode(ns[k])|
    decreases k
  {
    if k > 0 { OffsetStep(ns[1..], k - 1); }
  }

  /** A walk over `ns` stands before its `k`-th parameter, at offset `idx`. */
  ghost predicate AtChild(toks: seq<Token>, base: nat, count: nat, ns: seq<Node>, idx: nat, k: nat) {
    && Encodes(toks, base, count, ns) && k <= |ns| && idx == Offset(ns, k) <= count
    && Encodes(toks, base + idx, count - idx, ns[k..])
  }

  lemma WalkStarts(toks: seq<Token>, base: nat, count: nat, ns: seq<Node>)
    requires Encodes(toks, base, count, ns)
    ensures AtChild(toks, base, count, ns, 0, 0)
  {
    assert ns[0..] == ns;
  }

  /** While tokens remain, so do parameters, and a skip moves to the next one; when none remain the walk is done. */
  lemma WalkSteps(toks: seq<Token>, base: nat, count: nat, ns: seq<Node>, idx: nat, k: nat)
    requires AtChild(toks, base, count, ns, idx, k)
    ensures idx < count <==> k < |ns|
    ensures idx < count ==> base + idx < |toks|
    ensures idx < count ==> AtChild(toks, base, count, ns, Skip(toks, base, idx), k + 1) && Skip(toks, base, idx) > idx
  {
    if idx < count {
      SkipLands(toks, base + idx, count - idx, ns[k..], idx);
      OffsetStep(ns, k);
      assert ns[k..][1..] == ns[k + 1..];
    }
  }

  /** `s_expr_child_count` */
  method ChildCount(toks: seq<Token>, base: nat, count: nat, ghost ns: seq<Node>) returns (n: nat)
    requires Encodes(toks, base, count, ns)
    ensures n == |ns|
  {
    hide Encodes, AtChild;
    n := 0;
    var idx := 0;
    WalkStarts(toks, base, count, ns);
    while idx < count
      invariant AtChild(toks, base, count, ns, idx, n)
      decreases count - idx
    {
      WalkSteps(toks, base, count, ns, idx, n);
      n := n + 1;
      idx := Skip(toks, base, idx);
    }
    WalkSteps(toks, base, count, ns, idx, n);
    WalkEnd(toks, base, count, ns, idx, n);
  }

  lemma WalkEnd(toks: seq<Token>, base: nat, count: nat, ns: seq<Node>, idx: nat, k: nat)
    requires AtChild(toks, base, count, ns, idx, k)
    ensures k <= |ns| && idx == Offset(ns, k) <= count
  {}

  /** `s_expr_child_index`: the offset of parameter `k`, or 0xFFFF if there is none. */
  method ChildIndex(toks: seq<Token>, base: nat, count: nat, k: nat, ghost ns: seq<Node>) returns (at: nat)
    requires Encodes(toks, base, count, ns)
    ensures at == if k < |ns| then Offset(ns, k) else NO_INDEX
    ensures k < |ns| ==> AtChild(toks, base, count, ns, at, k)
  {
    hide Encodes, AtChild;
    var n := 0;
    var idx := 0;
    WalkStarts(toks, base, count, ns);
    while idx < count
      invariant AtChild(toks, base, count, ns, idx, n) && n <= k
      decreases count - idx
    {
      WalkSteps(toks, base, count, ns, idx, n);
      WalkEnd(toks, base, count, ns, idx, n);
      if n == k { return idx; }
      n := n + 1;
      idx := Skip(toks, base, idx);
    }
    WalkSteps(toks, base, count, ns, idx, n);
    WalkEnd(toks, base, count, ns, idx, n);
    at := NO_INDEX;
  }

  // ---- the encoding determines the tree --------------------------------------

  lemma {:induction false} EncodeOne(a: Node, b: Node, p: seq<Token>, q: seq<Token>)
    requires Encode(a) + p == Encode(b) + q
    ensures a == b && p == q
    decreases a, 1
  {
    var x, y := Encode(a) + p, Encode(b) + q;
    assert x[0] == Encode(a)[0] == Encode(b)[0];
    assert |Encode(a)| == |Encode(b)|;
    assert Encode(a) == x[..|Encode(a)|] == y[..|Encode(b)|] == Encode(b);
    assert p == x[|Encode(a)|..] == q;
    match a {
      case Leaf(_, _) =>
      case Ref(_) =>
      case Group(kind, body) => assert body == Encode(a)[1..|body| + 1] == b.body;
      case Call(fn, args) =>
        assert Encode(a)[1] == Encode(b)[1];
        assert EncodeAll(args) == Encode(a)[2..|EncodeAll(args)| + 2] == EncodeAll(b.args);
        EncodeInjective(args, b.args);
    }
  }

  /** Two parameter lists with the same tokens are the same list. */
  lemma {:induction false} EncodeInjective(a: seq<Node>, b: seq<Node>)
    requires EncodeAll(a) == EncodeAll(b)
    ensures a == b
    decreases a, 0
  {
    if a != [] && b != [] {
      EncodeOne(a[0], b[0], EncodeAll(a[1..]), EncodeAll(b[1..]));
      EncodeInjective(a[1..], b[1..]);
      assert a == [a[0]] + a[1..] && b == [b[0]] + b[1..];
    }
  }

  // ---- node states -----------------------------------------------------------

  /** `s_expr_node_state_t`: system flags, the state byte and the 16 user bits. */
  datatype NodeState = NodeState(active: bool, inited: bool, ever: bool, state: nat, user: nat)

  const OFF_STATE := NodeState(false, false, false, 0, 0)

  /** What every reset does to one node: active, nothing else, EVER_INIT kept. */
  function Rearmed(s: NodeState): NodeState {
    NodeState(true, false, s.ever, 0, 0)
  }

  predicate AsNew(s: NodeState) { s.active && !s.inited && s.state == 0 && s.user == 0 }

  ghost predicate AllNew(states: seq<NodeState>, ids: set<nat>) {
    forall i :: i in ids ==> i < |states| && AsNew(states[i])
  }

  /** The nodes of `ids` rearmed, the others as they were. */
  ghost function ResetNodes(states: seq<NodeState>, ids: set<nat>): (r: seq<NodeState>)
    ensures |r| == |states|
    ensures forall i :: 0 <= i < |states| ==> r[i] == if i in ids then Rearmed(states[i]) else states[i]
  {
    seq(|states|, i requires 0 <= i < |states| => if i in ids then Rearmed(states[i]) else states[i])
  }

  /** Node states of a parameter and of everything nested in it through calls. */
  ghost function CallIds(n: Node): set<nat>
    decreases n
  {
    match n
    case Call(fn, args) => {fn.node} + AllCallIds(args)
    case _ => {}
  }

  ghost function AllCallIds(ns: seq<Node>): set<nat>
    decreases ns
  {
    if ns == [] then {} else CallIds(ns[0]) + AllCallIds(ns[1..])
  }

  lemma ResetUnion(states: seq<NodeState>, a: set<nat>, b: set<nat>)
    ensures ResetNodes(ResetNodes(states, a), b) == ResetNodes(states, a + b)
  {}

  /** The state of one callable rearmed in place. */
  method RearmAt(states: array<NodeState>, n: nat)
    requires n < states.Length
    modifies states
    ensures states[..] == ResetNodes(old(states[..]), {n})
  {
    states[n] := NodeState(true, false, states[n].ever, 0, 0);
    assert states[..] == ResetNodes(old(states[..]), {n});
  }

  /** Node states of the first `k` parameters. */
  lemma {:induction false} CallIdsStep(ns: seq<Node>, k: nat)
    requires k < |ns|
    ensures AllCallIds(ns[..k + 1]) == AllCallIds(ns[..k]) + CallIds(ns[k])
    ensures AllCallIds(ns[..k + 1]) <= AllCallIds(ns)
    decreases k
  {
    if k > 0 {
      CallIdsStep(ns[1..], k - 1);
      assert ns[..k + 1][1..] == ns[1..][..k] && ns[..k][1..] == ns[1..][..k - 1];
    } else {
      assert ns[..1] == [ns[0]];
    }
  }

  /** `reset_all_recursive`: exactly the callables nested through calls are rearmed; the walk ends. */
  method ResetAllRecursive(states: array<NodeState>, toks: seq<Token>, base: nat, count: nat, ghost ns: seq<Node>)
    requires Encodes(toks, base, count, ns)
    requires forall i :: i in AllCallIds(ns) ==> i < states.Length
    modifies states
    ensures states[..] == ResetNodes(old(states[..]), AllCallIds(ns))
    decreases count, 1
  {
    hide Encodes, AtChild, ResetNodes, CallIds;
    ghost var k := 0;
    var idx := 0;
    WalkStarts(toks, base, count, ns);
    ResetNone(states[..]);
    while idx < count
      invariant AtChild(toks, base, count, ns, idx, k) && k <= |ns|
      invariant states[..] == ResetNodes(old(states[..]), AllCallIds(ns[..k]))
      decreases count - idx
    {
      WalkSteps(toks, base, count, ns, idx, k);
      CallIdsStep(ns, k);
      ResetUnion(old(states[..]), AllCallIds(ns[..k]), CallIds(ns[k]));
      ResetAt(states, toks, base, count, idx, ns, k);
      k := k + 1;
      idx := Skip(toks, base, idx);
    }
    WalkSteps(toks, base, count, ns, idx, k);
    assert ns[..k] == ns;
  }

  lemma ResetNone(states: seq<NodeState>)
    ensures ResetNodes(states, {}) == states
  {}

  /** `s_expr_reset_recursive_at`: the callable at an offset, if there is one, and all it contains. */
  method ResetAt(states: array<NodeState>, toks: seq<Token>, base: nat, count: nat, idx: nat, ghost ns: seq<Node>,
          ghost k: nat)
    requires AtChild(toks, base, count, ns, idx, k) && k < |ns| && base + idx < |toks|
    requires forall i :: i in CallIds(ns[k]) ==> i < states.Length
    modifies states
    ensures states[..] == ResetNodes(old(states[..]), CallIds(ns[k]))
    decreases count - idx, 0
  {
    hide Encodes, AtChild, ResetNodes;
    TokenTells(toks, base, count, ns, idx, k);
    if !toks[base + idx].OpenCall? {
      ResetNone(states[..]);
      return;
    }
    ghost var args := ns[k].args;
    var fn := toks[base + idx + 1].fn;
    RearmAt(states, fn.node);
    var close := idx + toks[base + idx].brace;
    var argCount := if close > idx + 2 then close - idx - 2 else 0;
    ResetUnion(old(states[..]), {fn.node}, AllCallIds(args));
    if argCount > 0 {
      ResetAllRecursive(states, toks, base + idx + 2, argCount, args);
    } else {
      assert {fn.node} + AllCallIds(args) == {fn.node};
    }
  }

  /** An OPEN_CALL token starts a call whose parameters are where `s_expr_call_args` looks; no other token does. */
  lemma TokenTells(toks: seq<Token>, base: nat, count: nat, ns: seq<Node>, idx: nat, k: nat)
    requires AtChild(toks, base, count, ns, idx, k) && k < |ns|
    ensures idx < count && base + idx < |toks| && (toks[base + idx].OpenCall? <==> ns[k].Call?)
    ensures ns[k].Call? ==>
      var brace := toks[base + idx].brace;
      && base + idx + 1 < |toks| && toks[base + idx + 1] == FuncTok(ns[k].fn)
      && 2 <= brace < count - idx && (brace == 2 <==> ns[k].args == [])
      && Encodes(toks, base + idx + 2, brace - 2, ns[k].args)
  {
    var head, at := Encode(ns[k]), base + idx;
    WalkSteps(toks, base, count, ns, idx, k);
    var all := toks[at..base + count];
    assert all == EncodeAll(ns[k..]) == head + EncodeAll(ns[k..][1..]);
    assert toks[at] == all[0] == head[0];
    if ns[k].Call? { CallTokens(toks, at, count - idx, ns[k], all, EncodeAll(ns[k..][1..])); }
  }

  lemma CallTokens(toks: seq<Token>, at: nat, count: nat, n: Node, all: seq<Token>, rest: seq<Token>)
    requires n.Call? && at + count <= |toks| && count < NO_INDEX && all == toks[at..at + count] == Encode(n) + rest
    ensures |EncodeAll(n.args)| + 2 < count
    ensures toks[at] == OpenCall(|EncodeAll(n.args)| + 2) && toks[at + 1] == FuncTok(n.fn)
    ensures Encodes(toks, at + 2, |EncodeAll(n.args)|, n.args)
  {
    var args := EncodeAll(n.args);
    var head := Encode(n);
    assert |head| == |args| + 3;
    assert toks[at] == all[0] == head[0] && toks[at + 1] == all[1] == head[1];
    assert head[2..2 + |args|] == args;
    assert all[2..2 + |args|] == head[2..2 + |args|];
    forall i | 0 <= i < |args|
      ensures toks[at + 2 + i] == args[i]
    {
      assert all[2..2 + |args|][i] == all[2 + i] == toks[at + (2 + i)];
    }
  }
}
