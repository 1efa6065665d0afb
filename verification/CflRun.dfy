/**
 The lifecycle discipline over whole runs: dispatch, pump and control calls in any order keep the
 monitor of `CflLife` satisfied on every chain, as long as no chain with an initialized node is enabled.
 */
module CflRun {
  import opened Options
  import opened CflModel
  import opened CflLife

  lemma AgreeTrans(m: Module, s: Eng, t: Eng, u: Eng, c: nat)
    requires c < |m.chains| && Agree(m, s, t, c) && Agree(m, t, u, c)
    ensures Agree(m, s, u, c)
  {
    forall n: nat | InChain(m.chains[c], n)
      ensures SameNode(s, u, n)
    {
      assert SameNode(s, t, n) && SameNode(t, u, n);
    }
  }

  /** What a callback's control calls leave untouched and keep sound. */
  lemma {:induction false} ControlsOk(m: Module, s: Eng, ctls: seq<Ctl>)
    requires WellFormed(m) && Fits(m, s)
    ensures var t := Controls(m, s, ctls);
      && t.current == s.current && (s.rearmed ==> t.rearmed) && (s.panicked ==> t.panicked)
      && (forall c :: 0 <= c < |m.chains| && s.current == Some(c) ==> Agree(m, s, t, c))
      && (!t.rearmed && ChainsOkBut(m, s, s.current) ==> ChainsOkBut(m, t, s.current))
    decreases |ctls|
  {
    if ctls != [] {
      var u := Control(m, s, ctls[0]);
      ControlOk(m, s, ctls[0]);
      ControlsOk(m, u, ctls[1..]);
      forall c | 0 <= c < |m.chains| && s.current == Some(c)
        ensures Agree(m, s, Controls(m, s, ctls), c)
      {
        AgreeTrans(m, s, u, Controls(m, s, ctls), c);
      }
    }
  }

  // ---- one node --------------------------------------------------------------

  /** A handler is a mark, a change of the node's own state, and control calls. */
  lemma HandleInitShape(m: Module, s: Eng, n: nat) returns (u: Eng, ctls: seq<Ctl>)
    requires WellFormed(m) && Fits(m, s) && n < |m.nodes|
    ensures Fits(m, u) && u == s.(trace := s.trace + [CbInit(n)], local := s.local[n := u.local[n]], calls := u.calls)
    ensures HandleInit(m, s, n) == Controls(m, u, ctls)
    ensures m.nodes[n].kind.TimeDelay? ==> ctls == [] && u.local[n].scratch == 0
  {
    var d := m.nodes[n];
    var s1 := s.(trace := s.trace + [CbInit(n)]);
    u, ctls := s1, [];
    if (d.kind.MCall? || d.kind.OneShot? || d.kind.InitTerm?) && d.fn.Some? {
      var reply := m.fns[d.fn.value](|s1.trace|, n, s.local[n], SigInit);
      u, ctls := s1.(local := s.local[n := reply.local],
                         calls := s.calls + [Called(d.fn.value, n, SigInit, s.local[n], |s1.trace|)]), reply.ctl;
    } else if d.kind.TimeDelay? {
      u := s1.(local := s.local[n := s.local[n].(scratch := 0)]);
    } else if d.kind.EnableChains? || d.kind.DisableChains? {
      ctls := Targets(d);
    }
  }

  lemma HandleEventShape(m: Module, s: Eng, n: nat, ev: Event) returns (u: Eng, ctls: seq<Ctl>)
    requires WellFormed(m) && Fits(m, s) && n < |m.nodes|
    ensures Fits(m, u) && u == s.(trace := s.trace + [CbEvent(n, ev)], local := s.local[n := u.local[n]], calls := u.calls)
    ensures HandleEvent(m, s, n, ev).s == Controls(m, u, ctls)
    ensures m.nodes[n].kind.TimeDelay? ==>
              ctls == [] && HandleEvent(m, s, n, ev).status in {Halt, Disable} &&
              u.local[n].scratch == (if ev.Tick? then Saturate(s.local[n].scratch + ev.data) else s.local[n].scratch) &&
              (HandleEvent(m, s, n, ev).status.Disable? <==> ev.Tick? && u.local[n].scratch >= m.nodes[n].params[0])
  {
    var d := m.nodes[n];
    var s1 := s.(trace := s.trace + [CbEvent(n, ev)]);
    u, ctls := s1, [];
    if (d.kind.MCall? || d.kind.While? || d.kind.Verify?) && d.fn.Some? {
      var reply := m.fns[d.fn.value](|s1.trace|, n, s.local[n], SigEvent(ev));
      u, ctls := s1.(local := s.local[n := reply.local],
                         calls := s.calls + [Called(d.fn.value, n, SigEvent(ev), s.local[n], |s1.trace|)]), reply.ctl;
    } else if d.kind.TimeDelay? && ev.Tick? {
      u := s1.(local := s.local[n := s.local[n].(scratch := Saturate(s.local[n].scratch + ev.data))]);
    }
  }

  /** A mark and a private change of a node of chain `c` do not show on other chains. */
  lemma MarkFrame(m: Module, s: Eng, u: Eng, c: nat, n: nat, k: Mark)
    requires WellFormed(m) && Fits(m, s) && Fits(m, u) && c < |m.chains| && InChain(m.chains[c], n)
    requires k.CbInit? || k.CbEvent? || k.CbTerm?
    requires k.node == n && u.trace == s.trace + [k] && u.chainEn == s.chainEn
    requires u.nodeEn == s.nodeEn[n := u.nodeEn[n]] && u.nodeInit == s.nodeInit[n := u.nodeInit[n]]
    requires u.local == s.local[n := u.local[n]]
    ensures OthersAgree(m, s, u, c)
    ensures View(m, c, u.trace) == View(m, c, s.trace) + [k]
  {
    ViewSnoc(m, c, s.trace, k);
    forall d | 0 <= d < |m.chains| && d != c
      ensures Agree(m, s, u, d)
    {
      assert !InChain(m.chains[d], n);
      ViewSnoc(m, d, s.trace, k);
    }
  }

  lemma ChainsButFrame(m: Module, s: Eng, t: Eng, c: nat)
    requires WellFormed(m) && Fits(m, s) && Fits(m, t) && c < |m.chains| && OthersAgree(m, s, t, c)
    requires ChainsOkBut(m, s, Some(c))
    ensures ChainsOkBut(m, t, Some(c))
  {
    forall d | 0 <= d < |m.chains| && d != c
      ensures ChainOk(m, t, d)
    {
      assert ChainOk(m, s, d);
      AgreeOk(m, s, t, d);
    }
  }

  /** The walk has left nothing armed, and no waiting delay, below node `n`. */
  ghost predicate Passed(m: Module, s: Eng, c: nat, n: nat)
    requires Fits(m, s) && WellFormed(m) && c < |m.chains|
  {
    forall k: nat :: InChain(m.chains[c], k) && k < n ==> PassedNode(m, s, k)
  }

  ghost predicate PassedNode(m: Module, s: Eng, k: nat)
    requires Fits(m, s) && k < |m.nodes|
  {
    (s.nodeEn[k] ==> s.nodeInit[k]) && (m.nodes[k].kind.TimeDelay? ==> !s.nodeInit[k])
  }

  lemma PassedAgree(m: Module, s: Eng, t: Eng, c: nat, n: nat)
    requires WellFormed(m) && Fits(m, s) && Fits(m, t) && c < |m.chains| && Agree(m, s, t, c) && Passed(m, s, c, n)
    ensures Passed(m, t, c, n)
  {
    forall k: nat | InChain(m.chains[c], k) && k < n
      ensures PassedNode(m, t, k)
    {
      assert SameNode(s, t, k) && PassedNode(m, s, k);
    }
  }

  lemma {:induction false} InitListAdd(init: seq<bool>, first: nat, k: nat, n: nat)
    requires first + k <= |init| && first <= n < first + k
    requires forall x :: n <= x < first + k ==> !init[x]
    ensures InitList(init[n := true], first, k) == InitList(init, first, k) + [n]
  {
    if first + k - 1 == n {
      InitListSame(init, init[n := true], first, k - 1);
    } else {
      InitListAdd(init, first, k - 1, n);
    }
  }

  lemma {:induction false} InitListDrop(init: seq<bool>, first: nat, k: nat, n: nat)
    requires first + k <= |init| && first <= n < first + k && init[n]
    ensures InitList(init[n := false], first, k) == Without(InitList(init, first, k), n)
  {
    if first + k - 1 == n {
      InitListSame(init, init[n := false], first, k - 1);
      var all := InitList(init, first, k);
      assert all[..|all| - 1] == InitList(init, first, k - 1);
    } else {
      InitListDrop(init, first, k - 1, n);
      if init[first + k - 1] {
        var all := InitList(init, first, k);
        assert all[..|all| - 1] == InitList(init, first, k - 1) && all[|all| - 1] == first + k - 1;
      } else {
        assert InitList(init, first, k) == InitList(init, first, k - 1);
        assert InitList(init[n := false], first, k) == InitList(init[n := false], first, k - 1);
      }
    }
  }

  /** INIT of the first armed node the walk meets keeps the chain sound. */
  lemma InitMarkOk(m: Module, s: Eng, c: nat, n: nat, u: Eng)
    requires WellFormed(m) && Fits(m, s) && c < |m.chains| && InChain(m.chains[c], n) && n < |m.nodes|
    requires ChainOk(m, s, c) && s.chainEn[c] && s.nodeEn[n] && !s.nodeInit[n] && Passed(m, s, c, n)
    requires |u.local| == |m.nodes|
    requires u == s.(trace := s.trace + [CbInit(n)], local := s.local[n := u.local[n]],
                     nodeInit := s.nodeInit[n := true], calls := u.calls)
    requires (m.nodes[n].kind.TimeDelay? ==> u.local[n].scratch == 0)
    ensures ChainOk(m, u, c)
  {
    var ch := m.chains[c];
    var life, v := ChainLife(m, s, c), View(m, c, s.trace);
    ViewSnoc(m, c, s.trace, CbInit(n));
    LifeSnoc(v, CbInit(n), ch.first);
    assert NodeOk(m, s, c, n, life.high);
    forall x: nat | n <= x < ch.first + ch.count
      ensures !s.nodeInit[x]
    {
      assert NodeOk(m, s, c, x, life.high);
    }
    InitListAdd(s.nodeInit, ch.first, ch.count, n);
    forall k: nat | InChain(ch, k)
      ensures NodeOk(m, u, c, k, n + 1)
    {
      assert NodeOk(m, s, c, k, life.high);
      if k < n { assert PassedNode(m, s, k); }
      TicksSnoc(v, CbInit(n), k);
    }
  }

  lemma SumSnoc(xs: seq<nat>, x: nat)
    ensures Sum(xs + [x]) == Sum(xs) + x
  {
    assert (xs + [x])[..|xs|] == xs;
  }

  /** All that `ChainOk` says, except what it says of node `n` as a delay. */
  ghost predicate ChainOkBut(m: Module, s: Eng, c: nat, n: nat)
    requires WellFormed(m) && Fits(m, s) && c < |m.chains|
  {
    var ch := m.chains[c];
    var life := ChainLife(m, s, c);
    && life.legal
    && life.live == InitList(s.nodeInit, ch.first, ch.count)
    && (forall k: nat :: InChain(ch, k) ==> if k == n then NodeBits(m, s, c, k, life.high) else NodeOk(m, s, c, k, life.high))
  }

  /** An event delivered to an initialized node keeps the chain sound, up to a delay about to fire. */
  lemma EventMarkOk(m: Module, s: Eng, c: nat, n: nat, ev: Event, u: Eng)
    requires WellFormed(m) && Fits(m, s) && c < |m.chains| && InChain(m.chains[c], n) && n < |m.nodes|
    requires ChainOk(m, s, c) && s.nodeInit[n]
    requires |u.local| == |m.nodes|
    requires u == s.(trace := s.trace + [CbEvent(n, ev)], local := s.local[n := u.local[n]], calls := u.calls)
    requires m.nodes[n].kind.TimeDelay? ==>
      u.local[n].scratch == (if ev.Tick? then Saturate(s.local[n].scratch + ev.data) else s.local[n].scratch)
    ensures ChainOkBut(m, u, c, n) && ChainLife(m, u, c) == ChainLife(m, s, c)
    ensures !(m.nodes[n].kind.TimeDelay? && ev.Tick? && u.local[n].scratch >= m.nodes[n].params[0]) ==> ChainOk(m, u, c)
  {
    var ch := m.chains[c];
    var life, v := ChainLife(m, s, c), View(m, c, s.trace);
    ViewSnoc(m, c, s.trace, CbEvent(n, ev));
    LifeSnoc(v, CbEvent(n, ev), ch.first);
    InitListMembers(s.nodeInit, ch.first, ch.count);
    forall k: nat | InChain(ch, k)
      ensures if k == n then NodeBits(m, u, c, k, life.high) else NodeOk(m, u, c, k, life.high)
    {
      assert NodeOk(m, s, c, k, life.high);
      TicksSnoc(v, CbEvent(n, ev), k);
    }
    if !(m.nodes[n].kind.TimeDelay? && ev.Tick? && u.local[n].scratch >= m.nodes[n].params[0]) {
      DelayKeeps(m, s, c, n, ev, u);
      assert NodeOk(m, u, c, n, life.high);
    }
  }

  lemma DelayKeeps(m: Module, s: Eng, c: nat, n: nat, ev: Event, u: Eng)
    requires WellFormed(m) && Fits(m, s) && c < |m.chains| && InChain(m.chains[c], n) && n < |m.nodes|
    requires Fits(m, u)
    requires m.nodes[n].kind.TimeDelay? ==>
      && DelayOk(m, s, c, n)
      && u.local[n].scratch == (if ev.Tick? then Saturate(s.local[n].scratch + ev.data) else s.local[n].scratch)
      && !(ev.Tick? && u.local[n].scratch >= m.nodes[n].params[0])
    requires u.trace == s.trace + [CbEvent(n, ev)]
    ensures m.nodes[n].kind.TimeDelay? ==> DelayOk(m, u, c, n)
  {
    if m.nodes[n].kind.TimeDelay? {
      var v := View(m, c, s.trace);
      ViewSnoc(m, c, s.trace, CbEvent(n, ev));
      TicksSnoc(v, CbEvent(n, ev), n);
      if ev.Tick? { SumSnoc(Ticks(v, n), ev.data); }
    }
  }

  /** DISABLE: the node is terminated and both its bits cleared. */
  lemma DropOk(m: Module, s: Eng, c: nat, n: nat)
    requires WellFormed(m) && Fits(m, s) && c < |m.chains| && InChain(m.chains[c], n) && n < |m.nodes|
    requires ChainOkBut(m, s, c, n) && s.nodeInit[n]
    ensures var t := DropNode(m, s, n);
      && ChainOk(m, t, c) && OthersAgree(m, s, t, c)
      && t.chainEn == s.chainEn && t.nodeEn == s.nodeEn[n := false] && t.nodeInit == s.nodeInit[n := false]
      && t.current == s.current && t.panicked == s.panicked && t.rearmed == s.rearmed
  {
    var ch := m.chains[c];
    var t := DropNode(m, s, n);
    var life, v := ChainLife(m, s, c), View(m, c, s.trace);
    SynthTermFrame(m, s, n);
    MarkFrame(m, s, t, c, n, CbTerm(n));
    LifeSnoc(v, CbTerm(n), ch.first);
    InitListMembers(s.nodeInit, ch.first, ch.count);
    InitListDrop(s.nodeInit, ch.first, ch.count, n);
    forall k: nat | InChain(ch, k)
      ensures NodeOk(m, t, c, k, life.high)
    {
      assert if k == n then NodeBits(m, s, c, k, life.high) else NodeOk(m, s, c, k, life.high);
      TicksSnoc(v, CbTerm(n), k);
    }
  }

  // ---- the walk --------------------------------------------------------------

  /** The state inside a dispatch of chain `c`, before node `n` is looked at. */
  ghost predicate Midway(m: Module, s: Eng, c: nat, n: nat)
    requires WellFormed(m) && Fits(m, s) && c < |m.chains|
  {
    var kept := && s.current == Some(c) && s.chainEn[c] && ChainOk(m, s, c)
                && ChainsOkBut(m, s, Some(c)) && Passed(m, s, c, n);
    kept
  }

  lemma InitNodeOk(m: Module, s: Eng, c: nat, n: nat)
    requires WellFormed(m) && Fits(m, s) && c < |m.chains| && InChain(m.chains[c], n) && n < |m.nodes|
    requires Midway(m, s, c, n) && s.nodeEn[n] && !s.nodeInit[n]
    ensures var t := InitNode(m, s, n);
      && (s.rearmed ==> t.rearmed) && t.current == s.current
      && (!t.panicked && !t.rearmed ==> Midway(m, t, c, n) && t.nodeInit[n] && t.nodeEn[n])
  {
    var u, ctls := HandleInitShape(m, s, n);
    MarkFrame(m, s, u, c, n, CbInit(n));
    ChainsButFrame(m, s, u, c);
    ControlsOk(m, u, ctls);
    var t := InitNode(m, s, n);
    if !t.panicked && !t.rearmed {
      var u' := u.(nodeInit := u.nodeInit[n := true]);
      InitMarkOk(m, s, c, n, u');
      var h := HandleInit(m, s, n);
      assert Agree(m, u', t, c) by {
        forall k: nat | InChain(m.chains[c], k) ensures SameNode(u', t, k) { assert SameNode(u, h, k); }
      }
      AgreeOk(m, u', t, c);
      assert SameNode(u, h, n);
      SetInitOthers(m, h, t, c, n);
      forall k: nat | InChain(m.chains[c], k) && k < n
        ensures PassedNode(m, t, k)
      {
        assert PassedNode(m, s, k) && SameNode(u', t, k);
      }
    }
  }

  lemma SetInitOthers(m: Module, h: Eng, t: Eng, c: nat, n: nat)
    requires WellFormed(m) && Fits(m, h) && c < |m.chains| && InChain(m.chains[c], n) && n < |m.nodes|
    requires t == h.(nodeInit := h.nodeInit[n := true]) && ChainsOkBut(m, h, Some(c))
    ensures ChainsOkBut(m, t, Some(c))
  {
    forall d | 0 <= d < |m.chains| && d != c
      ensures ChainOk(m, t, d)
    {
      assert !InChain(m.chains[d], n);
      assert ChainOk(m, h, d) && Agree(m, h, t, d);
      AgreeOk(m, h, t, d);
    }
  }

  lemma EventNodeOk(m: Module, s: Eng, c: nat, n: nat, ev: Event)
    requires WellFormed(m) && Fits(m, s) && c < |m.chains| && InChain(m.chains[c], n) && n < |m.nodes|
    requires Midway(m, s, c, n) && s.nodeInit[n]
    ensures var o := HandleEvent(m, s, n, ev);
      && (s.rearmed ==> o.s.rearmed) && o.s.current == s.current
      && (!o.s.rearmed ==>
            && o.s.chainEn[c] && o.s.nodeInit[n] && ChainOkBut(m, o.s, c, n)
            && ChainsOkBut(m, o.s, Some(c)) && Passed(m, o.s, c, n)
            && (!o.status.Disable? ==> ChainOk(m, o.s, c))
            && (o.status.Continue? ==> !m.nodes[n].kind.TimeDelay?))
  {
    var u, ctls := HandleEventShape(m, s, n, ev);
    var o := HandleEvent(m, s, n, ev);
    MarkFrame(m, s, u, c, n, CbEvent(n, ev));
    ChainsButFrame(m, s, u, c);
    EventMarkOk(m, s, c, n, ev, u);
    ControlsOk(m, u, ctls);
    assert Agree(m, u, o.s, c);
    assert SameNode(u, o.s, n);
    PassedAgree(m, u, o.s, c, n) by {
      forall k: nat | InChain(m.chains[c], k) && k < n ensures PassedNode(m, u, k) { assert PassedNode(m, s, k); }
    }
    AgreeOkBut(m, u, o.s, c, n);
    if ChainOk(m, u, c) { AgreeOk(m, u, o.s, c); }
  }

  lemma AgreeOkBut(m: Module, s: Eng, t: Eng, c: nat, n: nat)
    requires WellFormed(m) && Fits(m, s) && Fits(m, t) && c < |m.chains|
    requires Agree(m, s, t, c) && ChainOkBut(m, s, c, n)
    ensures ChainOkBut(m, t, c, n)
  {
    var ch := m.chains[c];
    forall k: nat | ch.first <= k < ch.first + ch.count
      ensures s.nodeInit[k] == t.nodeInit[k]
    {
      assert InChain(ch, k) && SameNode(s, t, k);
    }
    InitListSame(s.nodeInit, t.nodeInit, ch.first, ch.count);
    var high := ChainLife(m, s, c).high;
    forall k: nat | InChain(ch, k)
      ensures if k == n then NodeBits(m, t, c, k, high) else NodeOk(m, t, c, k, high)
    {
      assert SameNode(s, t, k);
      assert if k == n then NodeBits(m, s, c, k, high) else NodeOk(m, s, c, k, high);
    }
  }

  lemma PassOn(m: Module, s: Eng, c: nat, n: nat)
    requires WellFormed(m) && Fits(m, s) && c < |m.chains| && n < |m.nodes|
    requires Passed(m, s, c, n) && PassedNode(m, s, n)
    ensures Passed(m, s, c, n + 1)
  {
    forall k: nat | InChain(m.chains[c], k) && k < n + 1
      ensures PassedNode(m, s, k)
    {
      if k < n { assert PassedNode(m, s, k); }
    }
  }

  /** DISABLE in mid-walk: the walk may go on past the node. */
  lemma DropMidway(m: Module, s: Eng, c: nat, n: nat)
    requires WellFormed(m) && Fits(m, s) && c < |m.chains| && InChain(m.chains[c], n) && n < |m.nodes|
    requires s.current == Some(c) && s.chainEn[c] && s.nodeInit[n] && ChainOkBut(m, s, c, n)
    requires ChainsOkBut(m, s, Some(c)) && Passed(m, s, c, n)
    ensures Midway(m, DropNode(m, s, n), c, n + 1)
  {
    var t := DropNode(m, s, n);
    DropOk(m, s, c, n);
    ChainsButFrame(m, s, t, c);
    forall k: nat | InChain(m.chains[c], k) && k < n
      ensures PassedNode(m, t, k)
    {
      assert PassedNode(m, s, k);
    }
    PassOn(m, t, c, n);
  }

  /** History flags and the current chain only move one way. */
  lemma VisitFlags(m: Module, s: Eng, n: nat, ev: Event)
    requires WellFormed(m) && Fits(m, s) && n < |m.nodes|
    ensures var o := Visit(m, s, n, ev); o.s.current == s.current && (s.rearmed ==> o.s.rearmed)
    ensures !s.nodeInit[n] ==> InitNode(m, s, n).current == s.current && (s.rearmed ==> InitNode(m, s, n).rearmed)
  {
    var u, ctls := HandleInitShape(m, s, n);
    ControlsOk(m, u, ctls);
    var s1 := if s.nodeInit[n] then s else InitNode(m, s, n);
    var w, more := HandleEventShape(m, s1, n, ev);
    ControlsOk(m, w, more);
  }

  lemma TurnFlags(m: Module, s: Eng, c: nat, n: nat, ev: Event)
    requires WellFormed(m) && Fits(m, s) && c < |m.chains| && n < |m.nodes|
    ensures var t := NodeTurn(m, s, c, n, ev); t.s.current == s.current && (s.rearmed ==> t.s.rearmed)
  {
    hide Visit;
    if s.nodeEn[n] {
      var o := Visit(m, s, n, ev);
      VisitFlags(m, s, n, ev);
      SynthTermFrame(m, o.s, n);
      DisableFrame(m, o.s, c);
    }
  }

  lemma {:induction false} WalkFlags(m: Module, s: Eng, c: nat, i: nat, ev: Event)
    requires WellFormed(m) && Fits(m, s) && c < |m.chains| && i <= m.chains[c].count
    ensures Walk(m, s, c, i, ev).current == s.current
    ensures s.rearmed ==> Walk(m, s, c, i, ev).rearmed
    decreases m.chains[c].count - i
  {
    hide NodeTurn;
    if !s.panicked && i < m.chains[c].count {
      var t := NodeTurn(m, s, c, m.chains[c].first + i, ev);
      TurnFlags(m, s, c, m.chains[c].first + i, ev);
      if t.Next? { WalkFlags(m, t.s, c, i + 1, ev); }
    }
  }

  /** The state after a visit, ready for the return code. */
  ghost predicate Visited(m: Module, o: Outcome, c: nat, n: nat)
    requires WellFormed(m) && Fits(m, o.s) && c < |m.chains| && n < |m.nodes|
  {
    var kept := && o.s.current == Some(c) && o.s.chainEn[c] && o.s.nodeInit[n] && ChainOkBut(m, o.s, c, n)
                && ChainsOkBut(m, o.s, Some(c)) && Passed(m, o.s, c, n)
                && (!o.status.Disable? ==> ChainOk(m, o.s, c))
                && (o.status.Continue? ==> !m.nodes[n].kind.TimeDelay?);
    kept
  }

  lemma VisitOk(m: Module, s: Eng, c: nat, n: nat, ev: Event)
    requires WellFormed(m) && Fits(m, s) && c < |m.chains| && InChain(m.chains[c], n) && n < |m.nodes|
    requires Midway(m, s, c, n) && s.nodeEn[n]
    ensures var o := Visit(m, s, n, ev); !o.s.panicked && !o.s.rearmed ==> Visited(m, o, c, n)
  {
    var s1 := if s.nodeInit[n] then s else InitNode(m, s, n);
    if !s.nodeInit[n] { InitNodeOk(m, s, c, n); }
    if !s1.panicked {
      var u, ctls := HandleEventShape(m, s1, n, ev);
      ControlsOk(m, u, ctls);
      if !s1.rearmed { EventNodeOk(m, s1, c, n, ev); }
    }
  }

  /** One turn of the loop: past the node in good order, or out of a sound engine. */
  lemma TurnOk(m: Module, s: Eng, c: nat, n: nat, ev: Event)
    requires WellFormed(m) && Fits(m, s) && c < |m.chains| && InChain(m.chains[c], n) && n < |m.nodes|
    requires Midway(m, s, c, n)
    ensures var t := NodeTurn(m, s, c, n, ev);
      !t.s.panicked && !t.s.rearmed ==> if t.Next? then Midway(m, t.s, c, n + 1) else AllOk(m, t.s)
  {
    hide Visit;
    if !s.nodeEn[n] {
      PassOn(m, s, c, n) by { assert NodeOk(m, s, c, n, ChainLife(m, s, c).high); }
    } else {
      var o := Visit(m, s, n, ev);
      VisitOk(m, s, c, n, ev);
      if !o.s.panicked {
        SynthTermFrame(m, o.s, n);
        DisableFrame(m, o.s, c);
        if !o.s.rearmed {
          if o.status.Continue? {
            GoOn(m, o, c, n);
          } else if o.status.Disable? {
            DropMidway(m, o.s, c, n);
          } else {
            CodeStops(m, o, c);
          }
        }
      }
    }
  }

  lemma {:induction false} WalkOk(m: Module, s: Eng, c: nat, i: nat, ev: Event)
    requires WellFormed(m) && Fits(m, s) && c < |m.chains| && i <= m.chains[c].count
    requires Midway(m, s, c, m.chains[c].first + i)
    ensures var t := Walk(m, s, c, i, ev); !t.panicked && !t.rearmed ==> AllOk(m, t)
    decreases m.chains[c].count - i
  {
    hide NodeTurn;
    if !s.panicked && i < m.chains[c].count {
      var n := m.chains[c].first + i;
      var t := NodeTurn(m, s, c, n, ev);
      TurnOk(m, s, c, n, ev);
      if t.Next? && !t.s.panicked {
        if t.s.rearmed { WalkFlags(m, t.s, c, i + 1, ev); } else { WalkOk(m, t.s, c, i + 1, ev); }
      }
    } else {
      MidwaySound(m, s, c, m.chains[c].first + i);
    }
  }

  lemma MidwaySound(m: Module, s: Eng, c: nat, n: nat)
    requires WellFormed(m) && Fits(m, s) && c < |m.chains| && Midway(m, s, c, n)
    ensures AllOk(m, s)
  {
    forall d | 0 <= d < |m.chains|
      ensures ChainOk(m, s, d)
    {
      if d != c { assert Some(c) != Some(d); }
    }
  }

  lemma SelfResetOk(m: Module, s: Eng, c: nat)
    requires WellFormed(m) && Fits(m, s) && c < |m.chains| && ChainOk(m, s, c) && ChainsOkBut(m, s, Some(c))
    ensures AllOk(m, EnableChain(m, DisableChain(m, s, c), c))
  {
    ResetOk(m, s, c);
    ChainsButFrame(m, s, EnableChain(m, DisableChain(m, s, c), c), c);
  }

  lemma SelfTerminateOk(m: Module, s: Eng, c: nat)
    requires WellFormed(m) && Fits(m, s) && c < |m.chains| && ChainOk(m, s, c) && ChainsOkBut(m, s, Some(c))
    ensures AllOk(m, DisableChain(m, s, c))
  {
    DisableOk(m, s, c);
    DisableFrame(m, s, c);
    ChainsButFrame(m, s, DisableChain(m, s, c), c);
  }

  lemma GoOn(m: Module, o: Outcome, c: nat, n: nat)
    requires WellFormed(m) && Fits(m, o.s) && c < |m.chains| && InChain(m.chains[c], n) && n < |m.nodes|
    requires Visited(m, o, c, n) && o.status.Continue?
    ensures Midway(m, o.s, c, n + 1)
  {
    assert NodeOk(m, o.s, c, n, ChainLife(m, o.s, c).high);
    PassOn(m, o.s, c, n);
  }

  /** HALT, RESET and TERMINATE end the walk on a sound engine. */
  lemma CodeStops(m: Module, o: Outcome, c: nat)
    requires WellFormed(m) && Fits(m, o.s) && c < |m.chains|
    requires ChainOk(m, o.s, c) && ChainsOkBut(m, o.s, Some(c))
    ensures AllOk(m, o.s)
    ensures AllOk(m, EnableChain(m, DisableChain(m, o.s, c), c))
    ensures AllOk(m, DisableChain(m, o.s, c))
  {
    SelfResetOk(m, o.s, c);
    SelfTerminateOk(m, o.s, c);
  }

  // ---- pump and runs ---------------------------------------------------------

  lemma {:induction false} BroadcastOk(m: Module, s: Eng, c: nat, ev: Event)
    requires WellFormed(m) && Fits(m, s) && c <= |m.chains|
    requires !s.panicked && !s.rearmed ==> AllOk(m, s)
    ensures var t := Broadcast(m, s, c, ev);
      (s.rearmed ==> t.rearmed) && (!t.panicked && !t.rearmed ==> AllOk(m, t))
    decreases |m.chains| - c
  {
    hide Walk;
    if !s.panicked && c < |m.chains| {
      if !s.chainEn[c] {
        BroadcastOk(m, s, c + 1, ev);
      } else {
        var s1 := s.(current := Some(c));
        FlagsAgree(m, s, s1);
        WalkFlags(m, s1, c, 0, ev);
        if !s.rearmed {
          assert Passed(m, s1, c, m.chains[c].first);
          assert ChainsOkBut(m, s1, Some(c)) by {
            forall d | 0 <= d < |m.chains| && d != c ensures ChainOk(m, s1, d) { assert ChainOk(m, s, d); }
          }
          WalkOk(m, s1, c, 0, ev);
        }
        BroadcastOk(m, Walk(m, s1, c, 0, ev), c + 1, ev);
      }
    }
  }

  /** Between main-context calls: no chain is current, and every chain is sound unless one was rearmed. */
  ghost predicate Resting(m: Module, s: Eng)
    requires WellFormed(m) && Fits(m, s)
  {
    !s.panicked ==> s.current == None && (!s.rearmed ==> AllOk(m, s))
  }

  lemma StepOk(m: Module, s: Eng, op: Op)
    requires WellFormed(m) && Fits(m, s) && Resting(m, s)
    ensures Resting(m, Step(m, s, op))
  {
    match op
    case OpControl(ctl) => ControlOk(m, s, ctl);
    case OpPump =>
      if !s.panicked && s.queue != [] {
        var s1 := s.(queue := s.queue[1..]);
        FlagsAgree(m, s, s1);
        BroadcastOk(m, s1, 0, s.queue[0]);
        var t := Broadcast(m, s1, 0, s.queue[0]);
        if !t.panicked { FlagsAgree(m, t, t.(current := None)); }
      }
  }

  lemma {:induction false} EnableAutoOk(m: Module, s: Eng, c: nat)
    requires WellFormed(m) && Fits(m, s) && c <= |m.chains| && AllOk(m, s) && s.current == None && !s.panicked
    requires forall d :: c <= d < |m.chains| ==> !s.chainEn[d]
    ensures var t := EnableAuto(m, s, c); AllOk(m, t) && t.current == None && !t.panicked
    decreases |m.chains| - c
  {
    if c < |m.chains| {
      if m.chains[c].autoStart {
        EnableFrame(m, s, c);
        OffIsIdle(m, s, c);
        EnableOk(m, s, c);
        OthersOk(m, s, EnableChain(m, s, c), c);
        EnableAutoOk(m, EnableChain(m, s, c), c + 1);
      } else {
        EnableAutoOk(m, s, c + 1);
      }
    }
  }

  lemma InitOk(m: Module, mem: seq<int>)
    requires WellFormed(m) && |mem| == |m.nodes|
    ensures Resting(m, Init(m, mem))
  {
    var s := Blank(m, mem);
    forall c | 0 <= c < |m.chains|
      ensures ChainOk(m, s, c)
    {
      InitListEmpty(s.nodeInit, m.chains[c].first, m.chains[c].count);
    }
    EnableAutoOk(m, s, 0);
  }

  lemma {:induction false} RunOk(m: Module, run: seq<Eng>, mem: seq<int>, ops: seq<Op>, k: nat)
    requires IsRun(m, run, mem, ops) && k < |run|
    ensures Fits(m, run[k]) && Resting(m, run[k])
    decreases k
  {
    hide Step;
    if k == 0 {
      InitOk(m, mem);
    } else {
      RunOk(m, run, mem, ops, k - 1);
      assert StepAt(m, run, ops, k - 1);
      StepOk(m, run[k - 1], ops[k - 1]);
    }
  }

  // ---- the theorems ----------------------------------------------------------

  /**
   Over every execution in which no chain with an initialized node was enabled: the trace of each chain is
   legal for the monitor, and the nodes it holds to be live are exactly the initialized ones, in rising
   order; a chain that is off has none.
   */
  lemma LifecycleDiscipline(m: Module, run: seq<Eng>, mem: seq<int>, ops: seq<Op>, k: nat, c: nat)
    requires IsRun(m, run, mem, ops) && k < |run| && c < |m.chains| && !run[k].panicked && !run[k].rearmed
    ensures Fits(m, run[k]) && ChainLife(m, run[k], c).legal
    ensures ChainLife(m, run[k], c).live == InitList(run[k].nodeInit, m.chains[c].first, m.chains[c].count)
    ensures !run[k].chainEn[c] ==> ChainLife(m, run[k], c).live == []
  {
    RunOk(m, run, mem, ops, k);
    var s := run[k];
    assert ChainOk(m, s, c);
    if !s.chainEn[c] {
      OffIsIdle(m, s, c);
      InitListEmpty(s.nodeInit, m.chains[c].first, m.chains[c].count);
    }
  }

  /** The delay's ticks so far, unsaturated: none before its INIT. */
  ghost function TicksHeard(m: Module, s: Eng, c: nat, n: nat): nat
    requires c < |m.chains| && n < |s.nodeInit|
  {
    if s.nodeInit[n] then Sum(Ticks(View(m, c, s.trace), n)) else 0
  }

  /** The delay has heard the event: initialized if it was not, with its sum saturated. */
  ghost function Heard(s: Eng, n: nat, ev: Event, sum: nat): Eng
    requires n < |s.nodeInit| == |s.local|
  {
    s.(trace := s.trace + (if s.nodeInit[n] then [] else [CbInit(n)]) + [CbEvent(n, ev)],
       nodeInit := s.nodeInit[n := true],
       local := s.local[n := s.local[n].(scratch := Saturate(sum))])
  }

  /**
   TIME_DELAY is an exact barrier: an enabled delay reached by the walk lets the event pass if and only if it is
   a tick at which the true, unsaturated sum of its ticks, this one included, reaches the target. Otherwise the
   walk ends there and nothing of the chain but the delay itself changes. On its first event it is initialized
   in the same visit.
   */
  lemma DelayBarrier(m: Module, s: Eng, c: nat, i: nat, ev: Event)
    requires WellFormed(m) && Fits(m, s) && c < |m.chains| && i < m.chains[c].count && !s.panicked
    requires var n := m.chains[c].first + i; ChainOk(m, s, c) && m.nodes[n].kind.TimeDelay? && s.nodeEn[n]
    ensures var n := m.chains[c].first + i;
      var sum := TicksHeard(m, s, c, n) + if ev.Tick? then ev.data else 0;
      Walk(m, s, c, i, ev) ==
        if ev.Tick? && sum >= m.nodes[n].params[0] then Walk(m, DropNode(m, Heard(s, n, ev, sum), n), c, i + 1, ev)
        else Heard(s, n, ev, sum)
  {
    hide Visit, DropNode, DisableChain, EnableChain;
    var n := m.chains[c].first + i;
    if s.nodeInit[n] {
      assert DelayOk(m, s, c, n) by { assert NodeOk(m, s, c, n, ChainLife(m, s, c).high); }
    }
    DelayHears(m, s, n, ev, TicksHeard(m, s, c, n));
    var o := Visit(m, s, n, ev);
    assert Walk(m, s, c, i, ev) == if o.status.Disable? then Walk(m, DropNode(m, o.s, n), c, i + 1, ev) else o.s;
  }

  /** The handler of a delay whose scratch is the saturated sum: saturation never moves the firing tick. */
  lemma DelayHears(m: Module, s: Eng, n: nat, ev: Event, sum: nat)
    requires WellFormed(m) && Fits(m, s) && n < |m.nodes| && !s.panicked && m.nodes[n].kind.TimeDelay?
    requires if s.nodeInit[n] then s.local[n].scratch == Saturate(sum) else sum == 0
    ensures var o, all := Visit(m, s, n, ev), sum + if ev.Tick? then ev.data else 0;
      && o.s == Heard(s, n, ev, all)
      && o.status == (if ev.Tick? && all >= m.nodes[n].params[0] then Disable else Halt)
  {
    assert s.local[n := s.local[n]] == s.local && s.nodeInit[n := s.nodeInit[n]] == s.nodeInit;
    assert s.trace + [] + [CbEvent(n, ev)] == s.trace + [CbEvent(n, ev)];
  }

  /** While a delay waits, no later node of its chain is initialized, in any execution. */
  lemma NothingPassesAWaitingDelay(m: Module, run: seq<Eng>, mem: seq<int>, ops: seq<Op>, k: nat, c: nat, n: nat,
          later: nat)
    requires IsRun(m, run, mem, ops) && k < |run| && c < |m.chains| && !run[k].panicked && !run[k].rearmed
    requires InChain(m.chains[c], n) && InChain(m.chains[c], later) && n < later < |run[k].nodeInit|
    requires n < |m.nodes| && m.nodes[n].kind.TimeDelay? && run[k].nodeInit[n]
    ensures !run[k].nodeInit[later]
    ensures Fits(m, run[k]) && DelayOk(m, run[k], c, n)
  {
    RunOk(m, run, mem, ops, k);
    var s := run[k];
    assert ChainOk(m, s, c);
    assert NodeOk(m, s, c, n, ChainLife(m, s, c).high) && NodeOk(m, s, c, later, ChainLife(m, s, c).high);
  }
}
