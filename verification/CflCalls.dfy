/**
 Which user functions are called. The trace says what happened to nodes; here every execution's real calls are
 shown to be, in order, exactly those the marks of the trace ask for by node kind, each given what the node's
 last call left. So an INIT_TERM node acquires and releases by turns.
 */
module CflCalls {
  import opened Options
  import opened CflModel
  import opened CflLife
  import opened CflRun

  /** A call that is due: of function `fn`, for `node`, with `sig`. */
  datatype Want = Want(fn: nat, node: nat, sig: Signal)

  /** The call a mark asks for: by kind of node, function and signal, and none for the kinds without one. */
  function Due(m: Module, k: Mark): Option<Want> {
    if (k.Armed? || k.Disarmed?) || k.node >= |m.nodes| then None
    else
      var n, d := k.node, m.nodes[k.node];
      if k.CbInit? then if d.kind.MCall? || d.kind.OneShot? || d.kind.InitTerm? then Asked(d.fn, n, SigInit) else None
      else if k.CbEvent? then
        if d.kind.MCall? || d.kind.While? || d.kind.Verify? then Asked(d.fn, n, SigEvent(k.ev)) else None
      else if d.kind.MCall? then Asked(d.fn, n, SigTerm)
      else if d.kind.InitTerm? then Asked(d.fn2, n, SigTerm)
      else None
  }

  function Asked(f: Option<nat>, n: nat, sig: Signal): Option<Want> {
    if f.None? then None else Some(Want(f.value, n, sig))
  }

  ghost function DueOf(m: Module, t: seq<Mark>): seq<Want> {
    if t == [] then []
    else
      var w := Due(m, t[|t| - 1]);
      DueOf(m, t[..|t| - 1]) + (if w.Some? then [w.value] else [])
  }

  lemma DueSnoc(m: Module, t: seq<Mark>, k: Mark)
    ensures DueOf(m, t + [k]) == DueOf(m, t) + (if Due(m, k).Some? then [Due(m, k).value] else [])
  {
    assert (t + [k])[..|t|] == t;
  }

  function Brief(c: Called): Want { Want(c.fn, c.node, c.sig) }

  ghost function Made(cs: seq<Called>): seq<Want> { seq(|cs|, i requires 0 <= i < |cs| => Brief(cs[i])) }

  /** The node's memory as its last call left it. */
  ghost function MemoryOf(m: Module, start: seq<int>, cs: seq<Called>, n: nat): int
    requires n < |start|
  {
    if cs == [] then start[n]
    else
      var c := cs[|cs| - 1];
      if c.node == n && c.fn < |m.fns| then m.fns[c.fn](c.at, n, c.given, c.sig).local.mem
      else MemoryOf(m, start, cs[..|cs| - 1], n)
  }

  lemma MemorySnoc(m: Module, start: seq<int>, cs: seq<Called>, c: Called)
    requires c.fn < |m.fns|
    ensures forall n: nat :: n < |start| ==>
      MemoryOf(m, start, cs + [c], n) ==
      if c.node == n then m.fns[c.fn](c.at, n, c.given, c.sig).local.mem else MemoryOf(m, start, cs, n)
  {
    assert (cs + [c])[..|cs|] == cs;
  }

  /** Every call was given what the call of the same node before it left. */
  ghost predicate WellGiven(m: Module, start: seq<int>, cs: seq<Called>) {
    forall k :: 0 <= k < |cs| ==> cs[k].node < |start| && cs[k].given.mem == MemoryOf(m, start, cs[..k], cs[k].node)
  }

  /** The calls are those due, and memory is what they made of it. */
  ghost predicate Accounted(m: Module, start: seq<int>, s: Eng) {
    && WellFormed(m) && Fits(m, s) && |start| == |m.nodes|
    && Made(s.calls) == DueOf(m, s.trace)
    && WellGiven(m, start, s.calls)
    && forall n :: 0 <= n < |m.nodes| ==> s.local[n].mem == MemoryOf(m, start, s.calls, n)
  }

  // ---- single marks ----------------------------------------------------------

  /** One mark, with the call due for it. */
  ghost predicate MarkStep(m: Module, s: Eng, t: Eng, k: Mark) {
    && Fits(m, s) && Fits(m, t) && t.trace == s.trace + [k]
    && match Due(m, k)
       case None => t.calls == s.calls && SameMemory(s, t)
       case Some(w) =>
         w.fn < |m.fns| && w.node < |m.nodes| &&
         var c := Called(w.fn, w.node, w.sig, s.local[w.node], |t.trace|);
         && t.calls == s.calls + [c]
         && (forall n :: 0 <= n < |m.nodes| && n != w.node ==> t.local[n] == s.local[n])
         && t.local[w.node].mem == m.fns[w.fn](c.at, w.node, c.given, w.sig).local.mem
  }

  ghost predicate SameMemory(s: Eng, t: Eng) {
    |t.local| == |s.local| && forall n :: 0 <= n < |s.local| ==> t.local[n].mem == s.local[n].mem
  }

  lemma MarkAccounted(m: Module, start: seq<int>, s: Eng, t: Eng, k: Mark)
    requires Accounted(m, start, s) && MarkStep(m, s, t, k)
    ensures Accounted(m, start, t)
  {
    hide WellGiven;
    DueSnoc(m, s.trace, k);
    if Due(m, k).Some? {
      var w := Due(m, k).value;
      var c := Called(w.fn, w.node, w.sig, s.local[w.node], |t.trace|);
      MemorySnoc(m, start, s.calls, c);
      assert Made(t.calls) == Made(s.calls) + [Brief(c)];
      GivenSnoc(m, start, s.calls, c);
    }
  }

  lemma GivenSnoc(m: Module, start: seq<int>, cs: seq<Called>, c: Called)
    requires WellGiven(m, start, cs) && c.node < |start| && c.given.mem == MemoryOf(m, start, cs, c.node)
    ensures WellGiven(m, start, cs + [c])
  {
    hide MemoryOf;
    var all := cs + [c];
    forall j | 0 <= j < |all|
      ensures all[j].node < |start| && all[j].given.mem == MemoryOf(m, start, all[..j], all[j].node)
    {
      assert all[..j] == cs[..j];
      if j == |cs| { assert cs[..j] == cs; }
    }
  }

  /** Bits, queue and flags do not matter. */
  lemma StillAccounted(m: Module, start: seq<int>, s: Eng, t: Eng)
    requires Accounted(m, start, s) && Fits(m, t) && t.trace == s.trace && t.calls == s.calls && SameMemory(s, t)
    ensures Accounted(m, start, t)
  {}

  // ---- the engine ------------------------------------------------------------

  lemma TermAccounted(m: Module, start: seq<int>, s: Eng, n: nat)
    requires Accounted(m, start, s) && n < |m.nodes|
    ensures Accounted(m, start, SynthTerm(m, s, n))
  {
    if s.nodeInit[n] { MarkAccounted(m, start, s, SynthTerm(m, s, n), CbTerm(n)); }
  }

  lemma {:induction false} SweepAccounted(m: Module, start: seq<int>, s: Eng, first: nat, k: nat)
    requires Accounted(m, start, s) && first + k <= |m.nodes|
    ensures Accounted(m, start, SweepBack(m, s, first, k))
    decreases k
  {
    hide SynthTerm, Accounted;
    if k > 0 {
      TermAccounted(m, start, s, first + k - 1);
      AccountedFits(m, start, s);
      SweepAccounted(m, start, SynthTerm(m, s, first + k - 1), first, k - 1);
    }
  }

  lemma AccountedFits(m: Module, start: seq<int>, s: Eng)
    requires Accounted(m, start, s)
    ensures WellFormed(m) && Fits(m, s)
  {}

  lemma DisableAccounted(m: Module, start: seq<int>, s: Eng, c: nat)
    requires Accounted(m, start, s) && c < |m.chains|
    ensures Accounted(m, start, DisableChain(m, s, c))
  {
    hide SweepBack;
    var t := SweepBack(m, s, m.chains[c].first, m.chains[c].count);
    SweepAccounted(m, start, s, m.chains[c].first, m.chains[c].count);
    MarkAccounted(m, start, t, DisableChain(m, s, c), Disarmed(c));
  }

  lemma EnableAccounted(m: Module, start: seq<int>, s: Eng, c: nat)
    requires Accounted(m, start, s) && c < |m.chains|
    ensures Accounted(m, start, EnableChain(m, s, c))
  {
    MarkAccounted(m, start, s, EnableChain(m, s, c), Armed(c));
  }

  lemma {:induction false} ControlsAccounted(m: Module, start: seq<int>, s: Eng, ctls: seq<Ctl>)
    requires Accounted(m, start, s)
    ensures Accounted(m, start, Controls(m, s, ctls))
    decreases |ctls|
  {
    hide Control, Made, WellGiven, DueOf, MemoryOf;
    if ctls != [] {
      ControlAccounted(m, start, s, ctls[0]);
      ControlsAccounted(m, start, Control(m, s, ctls[0]), ctls[1..]);
    }
  }

  lemma ControlAccounted(m: Module, start: seq<int>, s: Eng, ctl: Ctl)
    requires Accounted(m, start, s)
    ensures Accounted(m, start, Control(m, s, ctl))
  {
    hide EnableChain, DisableChain;
    if !s.panicked {
      StillAccounted(m, start, s, s.(panicked := true));
      match ctl {
        case CtlSend(ev) => StillAccounted(m, start, s, Send(s, ev));
        case CtlEnable(c) => if c < |m.chains| { EnableAccounted(m, start, s, c); }
        case CtlDisable(c) => if c < |m.chains| { DisableAccounted(m, start, s, c); }
        case CtlReset(c) =>
          if c < |m.chains| {
            DisableAccounted(m, start, s, c);
            EnableAccounted(m, start, DisableChain(m, s, c), c);
          }
      }
    }
  }

  /** A handler is a mark with the call due for it, and control calls. */
  lemma InitCalls(m: Module, s: Eng, n: nat) returns (u: Eng, ctls: seq<Ctl>)
    requires WellFormed(m) && Fits(m, s) && n < |m.nodes|
    ensures MarkStep(m, s, u, CbInit(n)) && HandleInit(m, s, n) == Controls(m, u, ctls)
  {
    u, ctls := HandleInitShape(m, s, n);
    var d := m.nodes[n];
    var s1 := s.(trace := s.trace + [CbInit(n)]);
    if (d.kind.MCall? || d.kind.OneShot? || d.kind.InitTerm?) && d.fn.Some? {
      var reply := m.fns[d.fn.value](|s1.trace|, n, s.local[n], SigInit);
      u := s1.(local := s.local[n := reply.local],
               calls := s.calls + [Called(d.fn.value, n, SigInit, s.local[n], |s1.trace|)]);
      ctls := reply.ctl;
    } else {
      u := if d.kind.TimeDelay? then s1.(local := s.local[n := s.local[n].(scratch := 0)]) else s1;
      ctls := if d.kind.EnableChains? || d.kind.DisableChains? then Targets(d) else [];
    }
  }

  lemma EventCalls(m: Module, s: Eng, n: nat, ev: Event) returns (u: Eng, ctls: seq<Ctl>)
    requires WellFormed(m) && Fits(m, s) && n < |m.nodes|
    ensures MarkStep(m, s, u, CbEvent(n, ev)) && HandleEvent(m, s, n, ev).s == Controls(m, u, ctls)
  {
    var d := m.nodes[n];
    var s1 := s.(trace := s.trace + [CbEvent(n, ev)]);
    u, ctls := s1, [];
    if (d.kind.MCall? || d.kind.While? || d.kind.Verify?) && d.fn.Some? {
      var reply := m.fns[d.fn.value](|s1.trace|, n, s.local[n], SigEvent(ev));
      u := s1.(local := s.local[n := reply.local],
               calls := s.calls + [Called(d.fn.value, n, SigEvent(ev), s.local[n], |s1.trace|)]);
      ctls := reply.ctl;
    } else if d.kind.TimeDelay? && ev.Tick? {
      u := s1.(local := s.local[n := s.local[n].(scratch := Saturate(s.local[n].scratch + ev.data))]);
    }
  }

  lemma VisitAccounted(m: Module, start: seq<int>, s: Eng, n: nat, ev: Event)
    requires Accounted(m, start, s) && n < |m.nodes|
    ensures Accounted(m, start, Visit(m, s, n, ev).s)
  {
    hide Controls, HandleInit, HandleEvent, MarkStep, Made, WellGiven, DueOf, MemoryOf;
    var s1 := if s.nodeInit[n] then s else InitNode(m, s, n);
    if !s.nodeInit[n] {
      var u, ctls := InitCalls(m, s, n);
      MarkAccounted(m, start, s, u, CbInit(n));
      ControlsAccounted(m, start, u, ctls);
      StillAccounted(m, start, HandleInit(m, s, n), s1);
    }
    if !s1.panicked {
      var u, ctls := EventCalls(m, s1, n, ev);
      MarkAccounted(m, start, s1, u, CbEvent(n, ev));
      ControlsAccounted(m, start, u, ctls);
    }
  }

  lemma TurnAccounted(m: Module, start: seq<int>, s: Eng, c: nat, n: nat, ev: Event)
    requires Accounted(m, start, s) && c < |m.chains| && n < |m.nodes|
    ensures Accounted(m, start, NodeTurn(m, s, c, n, ev).s)
  {
    hide Visit, EnableChain, DisableChain, SynthTerm, Made, WellGiven, DueOf, MemoryOf;
    if s.nodeEn[n] {
      var o := Visit(m, s, n, ev);
      VisitAccounted(m, start, s, n, ev);
      if !o.s.panicked {
        TermAccounted(m, start, o.s, n);
        StillAccounted(m, start, SynthTerm(m, o.s, n), DropNode(m, o.s, n));
        DisableAccounted(m, start, o.s, c);
        EnableAccounted(m, start, DisableChain(m, o.s, c), c);
      }
    }
  }

  lemma {:induction false} WalkAccounted(m: Module, start: seq<int>, s: Eng, c: nat, i: nat, ev: Event)
    requires Accounted(m, start, s) && c < |m.chains| && i <= m.chains[c].count
    ensures Accounted(m, start, Walk(m, s, c, i, ev))
    decreases m.chains[c].count - i
  {
    hide NodeTurn, Made, WellGiven, DueOf, MemoryOf;
    if !s.panicked && i < m.chains[c].count {
      var t := NodeTurn(m, s, c, m.chains[c].first + i, ev);
      TurnAccounted(m, start, s, c, m.chains[c].first + i, ev);
      if t.Next? { WalkAccounted(m, start, t.s, c, i + 1, ev); }
    }
  }

  lemma {:induction false} BroadcastAccounted(m: Module, start: seq<int>, s: Eng, c: nat, ev: Event)
    requires Accounted(m, start, s) && c <= |m.chains|
    ensures Accounted(m, start, Broadcast(m, s, c, ev))
    decreases |m.chains| - c
  {
    hide Walk, Made, WellGiven, DueOf, MemoryOf;
    if !s.panicked && c < |m.chains| {
      var s1 := s.(current := Some(c));
      if s.chainEn[c] {
        StillAccounted(m, start, s, s1);
        WalkAccounted(m, start, s1, c, 0, ev);
      }
      BroadcastAccounted(m, start, if s.chainEn[c] then Walk(m, s1, c, 0, ev) else s, c + 1, ev);
    }
  }

  lemma StepAccounted(m: Module, start: seq<int>, s: Eng, op: Op)
    requires Accounted(m, start, s)
    ensures Accounted(m, start, Step(m, s, op))
  {
    hide Broadcast, Control, Made, WellGiven, DueOf, MemoryOf;
    match op
    case OpControl(ctl) => ControlAccounted(m, start, s, ctl);
    case OpPump =>
      if !s.panicked && s.queue != [] {
        var s1 := s.(queue := s.queue[1..]);
        StillAccounted(m, start, s, s1);
        BroadcastAccounted(m, start, s1, 0, s.queue[0]);
        var t := Broadcast(m, s1, 0, s.queue[0]);
        StillAccounted(m, start, t, t.(current := None));
      }
  }

  lemma {:induction false} AutoAccounted(m: Module, start: seq<int>, s: Eng, c: nat)
    requires Accounted(m, start, s) && c <= |m.chains|
    ensures Accounted(m, start, EnableAuto(m, s, c))
    decreases |m.chains| - c
  {
    hide EnableChain, Made, WellGiven, DueOf, MemoryOf;
    if c < |m.chains| {
      if m.chains[c].autoStart { EnableAccounted(m, start, s, c); }
      AutoAccounted(m, start, if m.chains[c].autoStart then EnableChain(m, s, c) else s, c + 1);
    }
  }

  /**
   In every execution the user functions really called are, one by one and in order, those the marks of the trace
   ask for; each was given what the last call for its node left, and a node's memory is what its last call left.
   */
  lemma {:induction false} CallsFollowMarks(m: Module, run: seq<Eng>, mem: seq<int>, ops: seq<Op>, k: nat)
    requires IsRun(m, run, mem, ops) && k < |run|
    ensures Fits(m, run[k]) && Made(run[k].calls) == DueOf(m, run[k].trace) && WellGiven(m, mem, run[k].calls)
    ensures forall n :: 0 <= n < |m.nodes| ==> run[k].local[n].mem == MemoryOf(m, mem, run[k].calls, n)
  {
    RunAccounted(m, run, mem, ops, k);
  }

  lemma {:induction false} RunAccounted(m: Module, run: seq<Eng>, mem: seq<int>, ops: seq<Op>, k: nat)
    requires IsRun(m, run, mem, ops) && k < |run|
    ensures Accounted(m, mem, run[k])
    decreases k
  {
    hide Step;
    if k == 0 {
      assert Made([]) == [];
      AutoAccounted(m, mem, Blank(m, mem), 0);
    } else {
      RunAccounted(m, run, mem, ops, k - 1);
      assert StepAt(m, run, ops, k - 1);
      StepAccounted(m, mem, run[k - 1], ops[k - 1]);
    }
  }

  // ---- acquire and release ---------------------------------------------------

  /** INIT and TERMINATE of node `n` in a trace, INIT being true. */
  ghost function Ends(t: seq<Mark>, n: nat): seq<bool> {
    if t == [] then []
    else
      var k := t[|t| - 1];
      Ends(t[..|t| - 1], n) + (if k == CbInit(n) then [true] else if k == CbTerm(n) then [false] else [])
  }

  lemma EndsSnoc(t: seq<Mark>, k: Mark, n: nat)
    ensures Ends(t + [k], n) == Ends(t, n) + (if k == CbInit(n) then [true] else if k == CbTerm(n) then [false] else [])
  {
    assert (t + [k])[..|t|] == t;
  }

  /** A chain sees all of its own nodes. */
  lemma {:induction false} EndsInView(m: Module, c: nat, t: seq<Mark>, n: nat)
    requires c < |m.chains| && InChain(m.chains[c], n)
    ensures Ends(View(m, c, t), n) == Ends(t, n)
  {
    if t != [] {
      var k, before := t[|t| - 1], t[..|t| - 1];
      EndsInView(m, c, before, n);
      EndsSnoc(View(m, c, before), k, n);
      assert View(m, c, before) + [] == View(m, c, before);
    }
  }

  ghost predicate Alternates(xs: seq<bool>) { forall j :: 0 <= j < |xs| ==> (xs[j] <==> j % 2 == 0) }

  ghost predicate Rising(xs: seq<nat>, high: nat) {
    (forall i, j :: 0 <= i < j < |xs| ==> xs[i] < xs[j]) && forall i :: 0 <= i < |xs| ==> xs[i] < high
  }

  lemma {:induction false} WithoutRises(xs: seq<nat>, n: nat, high: nat)
    requires Rising(xs, high)
    ensures Rising(Without(xs, n), high) && forall x :: x in Without(xs, n) <==> x in xs && x != n
  {
    if xs != [] {
      var most, last := xs[..|xs| - 1], xs[|xs| - 1];
      assert xs == most + [last];
      assert Rising(most, last);
      WithoutRises(most, n, last);
      if last != n { AddRises(Without(most, n), last, high); }
    }
  }

  lemma AddRises(xs: seq<nat>, x: nat, high: nat)
    requires Rising(xs, x) && x < high
    ensures Rising(xs + [x], high)
  {}

  /** One mark the monitor accepts. */
  lemma WatchRises(l: Life, k: Mark, first: nat, n: nat)
    requires Rising(l.live, l.high) && Watch(l, k, first).legal
    ensures var w := Watch(l, k, first);
      && l.legal && Rising(w.live, w.high)
      && (n in w.live <==> k == CbInit(n) || (n in l.live && k != CbTerm(n)))
      && (k == CbInit(n) ==> n !in l.live) && (k == CbTerm(n) ==> n in l.live)
  {
    if k.CbTerm? { WithoutRises(l.live, k.node, l.high); }
  }

  /** What the monitor accepts, INIT and TERMINATE of each node alternate in, and a node is live after INIT. */
  lemma {:induction false} LegalAlternates(v: seq<Mark>, first: nat, n: nat)
    requires LifeOf(v, first).legal
    ensures Rising(LifeOf(v, first).live, LifeOf(v, first).high) && Alternates(Ends(v, n))
    ensures |Ends(v, n)| % 2 == 1 <==> n in LifeOf(v, first).live
  {
    hide Watch, Rising;
    if v == [] {
      NoneRise(first);
    } else {
      var before := v[..|v| - 1];
      LifeLegal(v, first);
      LegalAlternates(before, first, n);
      WatchRises(LifeOf(before, first), v[|v| - 1], first, n);
    }
  }

  lemma NoneRise(high: nat)
    ensures Rising([], high)
  {}

  lemma LifeLegal(v: seq<Mark>, first: nat)
    requires v != [] && LifeOf(v, first).legal
    ensures LifeOf(v[..|v| - 1], first).legal
  {}

  ghost function OfNode(ws: seq<Want>, n: nat): seq<Want> {
    if ws == [] then []
    else OfNode(ws[..|ws| - 1], n) + (if ws[|ws| - 1].node == n then [ws[|ws| - 1]] else [])
  }

  lemma OfNodeSnoc(ws: seq<Want>, w: Want, n: nat)
    ensures OfNode(ws + [w], n) == OfNode(ws, n) + (if w.node == n then [w] else [])
  {
    assert (ws + [w])[..|ws|] == ws;
  }

  /** Acquire for INIT, release for TERMINATE. */
  ghost function Pairs(m: Module, n: nat, xs: seq<bool>): seq<Want>
    requires n < |m.nodes| && m.nodes[n].fn.Some? && m.nodes[n].fn2.Some?
  {
    seq(|xs|, j requires 0 <= j < |xs| =>
      if xs[j] then Want(m.nodes[n].fn.value, n, SigInit) else Want(m.nodes[n].fn2.value, n, SigTerm))
  }

  lemma {:induction false} DuePairs(m: Module, t: seq<Mark>, n: nat)
    requires n < |m.nodes| && m.nodes[n].kind.InitTerm? && m.nodes[n].fn.Some? && m.nodes[n].fn2.Some?
    ensures OfNode(DueOf(m, t), n) == Pairs(m, n, Ends(t, n))
  {
    if t != [] {
      var k, before := t[|t| - 1], t[..|t| - 1];
      DuePairs(m, before, n);
      var w := Due(m, k);
      if w.Some? { OfNodeSnoc(DueOf(m, before), w.value, n); }
      assert DueOf(m, before) + [] == DueOf(m, before);
      assert Ends(before, n) + [] == Ends(before, n);
    }
  }

  /**
   Acquire and release: in every execution that enables no chain with an initialized node, the calls for an
   INIT_TERM node are by turns its first function with INIT and its second with TERMINATE, beginning with the
   first, and one is unmatched exactly while the node is initialized; so none is once its chain is off.
   */
  lemma AcquireRelease(m: Module, run: seq<Eng>, mem: seq<int>, ops: seq<Op>, k: nat, c: nat, n: nat)
    requires IsRun(m, run, mem, ops) && k < |run| && c < |m.chains| && !run[k].panicked && !run[k].rearmed
    requires InChain(m.chains[c], n) && n < |m.nodes| && m.nodes[n].kind.InitTerm?
    requires m.nodes[n].fn.Some? && m.nodes[n].fn2.Some?
    ensures var calls := OfNode(Made(run[k].calls), n);
      && (forall j :: 0 <= j < |calls| ==>
            calls[j] == if j % 2 == 0 then Want(m.nodes[n].fn.value, n, SigInit)
                        else Want(m.nodes[n].fn2.value, n, SigTerm))
      && Fits(m, run[k]) && (|calls| % 2 == 1 <==> run[k].nodeInit[n])
      && (!run[k].chainEn[c] ==> |calls| % 2 == 0)
  {
    var s := run[k];
    RunAccounted(m, run, mem, ops, k);
    LifecycleDiscipline(m, run, mem, ops, k, c);
    DuePairs(m, s.trace, n);
    EndsInView(m, c, s.trace, n);
    LegalAlternates(View(m, c, s.trace), m.chains[c].first, n);
    InitListMembers(s.nodeInit, m.chains[c].first, m.chains[c].count);
  }
}
