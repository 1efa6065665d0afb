/**
 The lifecycle discipline of the chain engine, stated by a monitor that watches the trace of one
 chain and knows nothing of the engine: INIT and TERMINATE alternate on every node, events come
 only in between, INITs of one arming rise through the chain, and a chain is switched off only
 when every node that was initialized has been terminated.
 */
module CflLife {
  import opened Options
  import opened CflModel

  // ---- the monitor -----------------------------------------------------------

  predicate Mine(m: Module, c: nat, k: Mark)
    requires c < |m.chains|
  {
    match k
    case CbInit(n) => InChain(m.chains[c], n)
    case CbEvent(n, _) => InChain(m.chains[c], n)
    case CbTerm(n) => InChain(m.chains[c], n)
    case Armed(d) => d == c
    case Disarmed(d) => d == c
  }

  /** The trace as chain `c` sees it. */
  ghost function View(m: Module, c: nat, t: seq<Mark>): seq<Mark>
    requires c < |m.chains|
  {
    if t == [] then [] else
      var k := t[|t| - 1];
      View(m, c, t[..|t| - 1]) + (if Mine(m, c, k) then [k] else [])
  }

  lemma ViewSnoc(m: Module, c: nat, t: seq<Mark>, k: Mark)
    requires c < |m.chains|
    ensures View(m, c, t + [k]) == View(m, c, t) + (if Mine(m, c, k) then [k] else [])
  {
    assert (t + [k])[..|t|] == t;
  }

  /** `live`: initialized nodes in INIT order; `high`: nodes below it were reached in this arming. */
  datatype Life = Life(live: seq<nat>, high: nat, legal: bool)

  function Without(xs: seq<nat>, n: nat): (r: seq<nat>)
    ensures n !in xs ==> r == xs
  {
    if xs == [] then []
    else if xs[|xs| - 1] == n then xs[..|xs| - 1]
    else Without(xs[..|xs| - 1], n) + [xs[|xs| - 1]]
  }

  function Watch(l: Life, k: Mark, first: nat): Life {
    match k
    case Armed(_) => Life([], first, l.legal && l.live == [])
    case CbInit(n) => Life(l.live + [n], n + 1, l.legal && n >= l.high)
    case CbEvent(n, _) => l.(legal := l.legal && n in l.live)
    case CbTerm(n) => Life(Without(l.live, n), l.high, l.legal && n in l.live)
    case Disarmed(_) => l.(legal := l.legal && l.live == [])
  }

  ghost function LifeOf(v: seq<Mark>, first: nat): Life {
    if v == [] then Life([], first, true) else Watch(LifeOf(v[..|v| - 1], first), v[|v| - 1], first)
  }

  lemma LifeSnoc(v: seq<Mark>, k: Mark, first: nat)
    ensures LifeOf(v + [k], first) == Watch(LifeOf(v, first), k, first)
  {
    assert (v + [k])[..|v|] == v;
  }

  ghost function ChainLife(m: Module, s: Eng, c: nat): Life
    requires c < |m.chains|
  {
    LifeOf(View(m, c, s.trace), m.chains[c].first)
  }

  // ---- agreement on one chain ------------------------------------------------

  ghost predicate SameNode(s: Eng, t: Eng, n: nat) {
    && n < |s.nodeEn| == |t.nodeEn| && n < |s.nodeInit| == |t.nodeInit| && n < |s.local| == |t.local|
    && s.nodeEn[n] == t.nodeEn[n] && s.nodeInit[n] == t.nodeInit[n] && s.local[n] == t.local[n]
  }

  /** Chain `c` is in the same state in `s` and `t` and has seen the same callbacks. */
  ghost predicate Agree(m: Module, s: Eng, t: Eng, c: nat)
    requires c < |m.chains|
  {
    Fits(m, s) && Fits(m, t) &&
    var alike := && s.chainEn[c] == t.chainEn[c]
                 && (forall n: nat :: InChain(m.chains[c], n) ==> SameNode(s, t, n))
                 && View(m, c, s.trace) == View(m, c, t.trace);
    alike
  }

  /** Every chain but `c` is left alone, and so are the flags. */
  ghost predicate OthersAgree(m: Module, s: Eng, t: Eng, c: nat)
  {
    && Fits(m, s) && Fits(m, t)
    && (forall d :: 0 <= d < |m.chains| && d != c ==> Agree(m, s, t, d))
  }

  lemma OthersTrans(m: Module, s: Eng, t: Eng, u: Eng, c: nat)
    requires OthersAgree(m, s, t, c) && OthersAgree(m, t, u, c)
    ensures OthersAgree(m, s, u, c)
  {
    forall d | 0 <= d < |m.chains| && d != c
      ensures Agree(m, s, u, d)
    {
      assert Agree(m, s, t, d) && Agree(m, t, u, d);
    }
  }

  // ---- sweeps ----------------------------------------------------------------

  /** Initialized nodes among the first `k` of a range, rising. */
  ghost function InitList(init: seq<bool>, first: nat, k: nat): seq<nat>
    requires first + k <= |init|
  {
    if k == 0 then [] else InitList(init, first, k - 1) + (if init[first + k - 1] then [first + k - 1] else [])
  }

  lemma {:induction false} InitListMembers(init: seq<bool>, first: nat, k: nat)
    requires first + k <= |init|
    ensures forall n :: n in InitList(init, first, k) <==> first <= n < first + k && init[n]
  {
    if k > 0 { InitListMembers(init, first, k - 1); }
  }

  ghost function Reverse(xs: seq<nat>): seq<nat> {
    if xs == [] then [] else [xs[|xs| - 1]] + Reverse(xs[..|xs| - 1])
  }

  ghost function Terms(xs: seq<nat>): (r: seq<Mark>)
    ensures |r| == |xs|
    ensures forall k :: 0 <= k < |xs| ==> r[k] == CbTerm(xs[k])
  {
    seq(|xs|, k requires 0 <= k < |xs| => CbTerm(xs[k]))
  }

  /** A node's own TERMINATE touches only its private state. */
  lemma SynthTermFrame(m: Module, s: Eng, n: nat)
    requires WellFormed(m) && Fits(m, s) && n < |m.nodes|
    ensures var t := SynthTerm(m, s, n);
      && t.chainEn == s.chainEn && t.nodeEn == s.nodeEn && t.nodeInit == s.nodeInit
      && t.queue == s.queue && t.current == s.current && t.panicked == s.panicked && t.rearmed == s.rearmed
      && t.trace == s.trace + (if s.nodeInit[n] then [CbTerm(n)] else [])
      && (forall k :: 0 <= k < |m.nodes| && k != n ==> t.local[k] == s.local[k])
  {}

  lemma {:induction false} SweepKeeps(m: Module, s: Eng, first: nat, k: nat)
    requires WellFormed(m) && Fits(m, s) && first + k <= |m.nodes|
    ensures var t := SweepBack(m, s, first, k);
      && t.chainEn == s.chainEn && t.nodeEn == s.nodeEn && t.nodeInit == s.nodeInit
      && t.queue == s.queue && t.current == s.current && t.panicked == s.panicked && t.rearmed == s.rearmed
      && (forall n :: 0 <= n < |m.nodes| && !(first <= n < first + k) ==> t.local[n] == s.local[n])
    decreases k
  {
    hide SynthTerm;
    if k > 0 {
      var n := first + k - 1;
      SynthTermFrame(m, s, n);
      SweepKeeps(m, SynthTerm(m, s, n), first, k - 1);
    }
  }

  /** The marks of a sweep start with its last node, if that one is initialized. */
  lemma TermsStep(init: seq<bool>, first: nat, k: nat)
    requires first + k <= |init|
    ensures var all := Terms(Reverse(InitList(init, first, k)));
      if k == 0 then all == []
      else all == (if init[first + k - 1] then [CbTerm(first + k - 1)] else []) + Terms(Reverse(InitList(init, first, k - 1)))
  {
    if k > 0 {
      var below, all := InitList(init, first, k - 1), InitList(init, first, k);
      if init[first + k - 1] {
        assert all[..|all| - 1] == below;
        assert Terms(Reverse(all)) == [CbTerm(first + k - 1)] + Terms(Reverse(below));
      } else {
        assert all == below;
      }
    }
  }

  lemma {:induction false} SweepTrace(m: Module, s: Eng, first: nat, k: nat)
    requires WellFormed(m) && Fits(m, s) && first + k <= |m.nodes|
    ensures SweepBack(m, s, first, k).trace == s.trace + Terms(Reverse(InitList(s.nodeInit, first, k)))
    decreases k
  {
    hide SynthTerm, Terms, Reverse, InitList;
    TermsStep(s.nodeInit, first, k);
    if k > 0 {
      var n := first + k - 1;
      var t := SynthTerm(m, s, n);
      SynthTermFrame(m, s, n);
      SweepTrace(m, t, first, k - 1);
    }
  }

  /**
   The sweep fires TERMINATE on exactly the initialized nodes, in the reverse of their order, while
   every enable bit is still as it was.
   */
  lemma SweepFrame(m: Module, s: Eng, first: nat, k: nat)
    requires WellFormed(m) && Fits(m, s) && first + k <= |m.nodes|
    ensures var t := SweepBack(m, s, first, k);
      && t.chainEn == s.chainEn && t.nodeEn == s.nodeEn && t.nodeInit == s.nodeInit
      && t.queue == s.queue && t.current == s.current && t.panicked == s.panicked && t.rearmed == s.rearmed
      && t.trace == s.trace + Terms(Reverse(InitList(s.nodeInit, first, k)))
      && (forall n :: 0 <= n < |m.nodes| && !(first <= n < first + k) ==> t.local[n] == s.local[n])
  {
    SweepKeeps(m, s, first, k);
    SweepTrace(m, s, first, k);
  }

  lemma {:induction false} ReverseMembers(xs: seq<nat>)
    ensures |Reverse(xs)| == |xs| && forall x :: x in Reverse(xs) <==> x in xs
  {
    if xs != [] {
      ReverseMembers(xs[..|xs| - 1]);
      assert xs == xs[..|xs| - 1] + [xs[|xs| - 1]];
    }
  }

  /** The marks of a sweep belong to the chain that owns the nodes. */
  lemma {:induction false} ViewOwnTerms(m: Module, c: nat, t: seq<Mark>, xs: seq<nat>)
    requires c < |m.chains| && forall x :: x in xs ==> InChain(m.chains[c], x)
    ensures View(m, c, t + Terms(xs)) == View(m, c, t) + Terms(xs)
  {
    if xs == [] {
      assert t + Terms(xs) == t && View(m, c, t) + Terms(xs) == View(m, c, t);
    } else {
      var n := |xs| - 1;
      var most, last := Terms(xs[..n]), CbTerm(xs[n]);
      ViewOwnTerms(m, c, t, xs[..n]);
      ViewSnoc(m, c, t + most, last);
      assert Terms(xs) == most + [last];
      assert t + Terms(xs) == (t + most) + [last];
      assert View(m, c, t) + Terms(xs) == (View(m, c, t) + most) + [last];
    }
  }

  lemma {:induction false} ViewOtherTerms(m: Module, c: nat, t: seq<Mark>, xs: seq<nat>)
    requires c < |m.chains| && forall x :: x in xs ==> !InChain(m.chains[c], x)
    ensures View(m, c, t + Terms(xs)) == View(m, c, t)
  {
    if xs == [] {
      assert t + Terms(xs) == t;
    } else {
      var n := |xs| - 1;
      ViewOtherTerms(m, c, t, xs[..n]);
      assert t + Terms(xs) == (t + Terms(xs[..n])) + [CbTerm(xs[n])];
      ViewSnoc(m, c, t + Terms(xs[..n]), CbTerm(xs[n]));
    }
  }

  /** The monitor run on over further marks. */
  ghost function WatchAll(l: Life, ks: seq<Mark>, first: nat): Life
    decreases |ks|
  {
    if ks == [] then l else WatchAll(Watch(l, ks[0], first), ks[1..], first)
  }

  lemma {:induction false} LifeAppend(v: seq<Mark>, ks: seq<Mark>, first: nat)
    ensures LifeOf(v + ks, first) == WatchAll(LifeOf(v, first), ks, first)
    decreases |ks|
  {
    if ks == [] {
      assert v + ks == v;
    } else {
      LifeSnoc(v, ks[0], first);
      LifeAppend(v + [ks[0]], ks[1..], first);
      assert v + ks == (v + [ks[0]]) + ks[1..];
    }
  }

  /** Popping the whole stack, last in first out, is legal and leaves it empty. */
  lemma {:induction false} PopsAll(xs: seq<nat>, high: nat, first: nat)
    ensures WatchAll(Life(xs, high, true), Terms(Reverse(xs)), first) == Life([], high, true)
    decreases |xs|
  {
    if xs != [] {
      var x, rest := xs[|xs| - 1], xs[..|xs| - 1];
      var ks := Terms(Reverse(xs));
      assert ks[0] == CbTerm(x) && ks[1..] == Terms(Reverse(rest));
      assert x in xs && Without(xs, x) == rest;
      assert Watch(Life(xs, high, true), ks[0], first) == Life(rest, high, true);
      PopsAll(rest, high, first);
    }
  }

  // ---- the invariant ---------------------------------------------------------

  /** What the bits of chain `c` have to do with what the monitor saw. */
  ghost predicate ChainOk(m: Module, s: Eng, c: nat)
    requires WellFormed(m) && Fits(m, s) && c < |m.chains|
  {
    var ch := m.chains[c];
    var life := ChainLife(m, s, c);
    var sound := && life.legal
                 && life.live == InitList(s.nodeInit, ch.first, ch.count)
                 && (forall n: nat :: InChain(ch, n) ==> NodeOk(m, s, c, n, life.high));
    sound
  }

  ghost predicate NodeOk(m: Module, s: Eng, c: nat, n: nat, high: nat)
    requires WellFormed(m) && Fits(m, s) && c < |m.chains| && InChain(m.chains[c], n)
  {
    NodeBits(m, s, c, n, high) && (m.nodes[n].kind.TimeDelay? && s.nodeInit[n] ==> DelayOk(m, s, c, n))
  }

  /** Armed nodes lie at or above `high`, initialized ones below it; nothing follows a waiting delay. */
  ghost predicate NodeBits(m: Module, s: Eng, c: nat, n: nat, high: nat)
    requires WellFormed(m) && Fits(m, s) && c < |m.chains| && InChain(m.chains[c], n)
  {
    && (!s.chainEn[c] ==> !s.nodeEn[n] && !s.nodeInit[n])
    && (s.nodeInit[n] ==> s.nodeEn[n] && n < high)
    && (s.nodeEn[n] && !s.nodeInit[n] ==> high <= n)
    && (s.chainEn[c] && high <= n ==> s.nodeEn[n])
    && (m.nodes[n].kind.TimeDelay? && s.nodeInit[n] ==> n + 1 == high)
  }

  /** The data of a tick delivered to node `n`, if `k` is one. */
  function TickOf(k: Mark, n: nat): seq<nat> {
    if k.CbEvent? && k.node == n && k.ev.Tick? then [k.ev.data] else []
  }

  /** Tick data delivered to node `n` since its last INIT. */
  ghost function Ticks(v: seq<Mark>, n: nat): seq<nat> {
    if v == [] then []
    else if v[|v| - 1] == CbInit(n) then []
    else Ticks(v[..|v| - 1], n) + TickOf(v[|v| - 1], n)
  }

  ghost function Sum(xs: seq<nat>): nat {
    if xs == [] then 0 else Sum(xs[..|xs| - 1]) + xs[|xs| - 1]
  }

  lemma TicksSnoc(v: seq<Mark>, k: Mark, n: nat)
    ensures k == CbInit(n) ==> Ticks(v + [k], n) == []
    ensures k != CbInit(n) && TickOf(k, n) == [] ==> Ticks(v + [k], n) == Ticks(v, n)
    ensures k != CbInit(n) ==> Ticks(v + [k], n) == Ticks(v, n) + TickOf(k, n)
  {
    assert (v + [k])[..|v|] == v;
    assert Ticks(v, n) + [] == Ticks(v, n);
  }

  /**
   A waiting delay: its scratch is the saturated sum of the ticks it was given since INIT, and at none
   of them had the sum reached the target.
   */
  ghost predicate DelayOk(m: Module, s: Eng, c: nat, n: nat)
    requires WellFormed(m) && Fits(m, s) && c < |m.chains| && n < |m.nodes| && m.nodes[n].kind.TimeDelay?
  {
    var ticks := Ticks(View(m, c, s.trace), n);
    s.local[n].scratch == Saturate(Sum(ticks)) && (ticks != [] ==> Sum(ticks) < m.nodes[n].params[0])
  }

  ghost predicate AllOk(m: Module, s: Eng)
    requires WellFormed(m) && Fits(m, s)
  {
    forall c :: 0 <= c < |m.chains| ==> ChainOk(m, s, c)
  }

  /** A chain on which two states agree is as sound in one as in the other. */
  lemma {:induction false} InitListSame(a: seq<bool>, b: seq<bool>, first: nat, k: nat)
    requires first + k <= |a| == |b| && forall n :: first <= n < first + k ==> a[n] == b[n]
    ensures InitList(a, first, k) == InitList(b, first, k)
  {
    if k > 0 { InitListSame(a, b, first, k - 1); }
  }

  lemma AgreeOk(m: Module, s: Eng, t: Eng, c: nat)
    requires WellFormed(m) && Fits(m, s) && Fits(m, t) && c < |m.chains|
    requires Agree(m, s, t, c) && ChainOk(m, s, c)
    ensures ChainOk(m, t, c)
  {
    var ch := m.chains[c];
    assert forall n: nat :: InChain(ch, n) ==> SameNode(s, t, n);
    forall n: nat | ch.first <= n < ch.first + ch.count
      ensures s.nodeInit[n] == t.nodeInit[n]
    {
      assert InChain(ch, n) && SameNode(s, t, n);
    }
    InitListSame(s.nodeInit, t.nodeInit, ch.first, ch.count);
    forall n: nat | InChain(ch, n)
      ensures NodeOk(m, t, c, n, ChainLife(m, t, c).high)
    {
      assert SameNode(s, t, n) && NodeOk(m, s, c, n, ChainLife(m, s, c).high);
    }
  }

  lemma OthersOk(m: Module, s: Eng, t: Eng, c: nat)
    requires WellFormed(m) && Fits(m, s) && Fits(m, t) && OthersAgree(m, s, t, c)
    requires forall d :: 0 <= d < |m.chains| && d != c ==> ChainOk(m, s, d)
    ensures forall d :: 0 <= d < |m.chains| && d != c ==> ChainOk(m, t, d)
  {
    forall d | 0 <= d < |m.chains| && d != c
      ensures ChainOk(m, t, d)
    {
      AgreeOk(m, s, t, d);
    }
  }

  // ---- disable and enable ----------------------------------------------------

  lemma {:induction false} InitListEmpty(init: seq<bool>, first: nat, k: nat)
    requires first + k <= |init| && forall n :: first <= n < first + k ==> !init[n]
    ensures InitList(init, first, k) == []
  {
    if k > 0 { InitListEmpty(init, first, k - 1); }
  }

  lemma DisableFrame(m: Module, s: Eng, c: nat)
    requires WellFormed(m) && Fits(m, s) && c < |m.chains|
    ensures var t := DisableChain(m, s, c);
      OthersAgree(m, s, t, c) && t.queue == s.queue && t.current == s.current
      && t.panicked == s.panicked && t.rearmed == s.rearmed
  {
    var ch := m.chains[c];
    var t := DisableChain(m, s, c);
    SweepFrame(m, s, ch.first, ch.count);
    var live := InitList(s.nodeInit, ch.first, ch.count);
    InitListMembers(s.nodeInit, ch.first, ch.count);
    ReverseMembers(live);
    forall d | 0 <= d < |m.chains| && d != c
      ensures Agree(m, s, t, d)
    {
      assert forall n: nat :: InChain(m.chains[c], n) ==> !InChain(m.chains[d], n);
      ViewOtherTerms(m, d, s.trace, Reverse(live));
      ViewSnoc(m, d, s.trace + Terms(Reverse(live)), Disarmed(c));
    }
  }

  /** What the monitor sees of a disable: the whole stack popped, then the chain off. */
  lemma DisableLife(m: Module, s: Eng, c: nat)
    requires WellFormed(m) && Fits(m, s) && c < |m.chains|
    requires ChainLife(m, s, c).legal
    requires ChainLife(m, s, c).live == InitList(s.nodeInit, m.chains[c].first, m.chains[c].count)
    ensures DisableChain(m, s, c).trace == s.trace + Terms(Reverse(ChainLife(m, s, c).live)) + [Disarmed(c)]
    ensures ChainLife(m, DisableChain(m, s, c), c) == Life([], ChainLife(m, s, c).high, true)
  {
    var ch := m.chains[c];
    SweepFrame(m, s, ch.first, ch.count);
    var live := InitList(s.nodeInit, ch.first, ch.count);
    var v, ts := View(m, c, s.trace), Terms(Reverse(live));
    SweepIsMine(m, s, c);
    ViewSnoc(m, c, s.trace + ts, Disarmed(c));
    LifeAppend(v, ts, ch.first);
    PopsAll(live, LifeOf(v, ch.first).high, ch.first);
    LifeSnoc(v + ts, Disarmed(c), ch.first);
  }

  lemma SweepIsMine(m: Module, s: Eng, c: nat)
    requires WellFormed(m) && Fits(m, s) && c < |m.chains|
    ensures var ts := Terms(Reverse(InitList(s.nodeInit, m.chains[c].first, m.chains[c].count)));
      View(m, c, s.trace + ts) == View(m, c, s.trace) + ts
  {
    var live := InitList(s.nodeInit, m.chains[c].first, m.chains[c].count);
    InitListMembers(s.nodeInit, m.chains[c].first, m.chains[c].count);
    ReverseMembers(live);
    ViewOwnTerms(m, c, s.trace, Reverse(live));
  }

  /** Disabling a sound chain terminates what is live, in reverse, then clears it. */
  lemma DisableOk(m: Module, s: Eng, c: nat)
    requires WellFormed(m) && Fits(m, s) && c < |m.chains|
    requires ChainLife(m, s, c).legal
    requires ChainLife(m, s, c).live == InitList(s.nodeInit, m.chains[c].first, m.chains[c].count)
    ensures ChainOk(m, DisableChain(m, s, c), c) && !DisableChain(m, s, c).chainEn[c]
    ensures DisableChain(m, s, c).trace == s.trace + Terms(Reverse(ChainLife(m, s, c).live)) + [Disarmed(c)]
  {
    var ch := m.chains[c];
    var t := DisableChain(m, s, c);
    DisableLife(m, s, c);
    InitListEmpty(t.nodeInit, ch.first, ch.count);
    forall n: nat | InChain(ch, n)
      ensures NodeOk(m, t, c, n, ChainLife(m, t, c).high)
    {}
  }

  lemma EnableFrame(m: Module, s: Eng, c: nat)
    requires WellFormed(m) && Fits(m, s) && c < |m.chains|
    ensures var t := EnableChain(m, s, c);
      OthersAgree(m, s, t, c) && t.queue == s.queue && t.current == s.current && t.panicked == s.panicked
  {
    var t := EnableChain(m, s, c);
    forall d | 0 <= d < |m.chains| && d != c
      ensures Agree(m, s, t, d)
    {
      assert forall n: nat :: InChain(m.chains[c], n) ==> !InChain(m.chains[d], n);
      ViewSnoc(m, d, s.trace, Armed(c));
    }
  }

  /** What the monitor sees of an enable. */
  lemma EnableLife(m: Module, s: Eng, c: nat)
    requires WellFormed(m) && Fits(m, s) && c < |m.chains|
    requires ChainLife(m, s, c).legal && ChainLife(m, s, c).live == []
    ensures ChainLife(m, EnableChain(m, s, c), c) == Life([], m.chains[c].first, true)
  {
    ViewSnoc(m, c, s.trace, Armed(c));
    LifeSnoc(View(m, c, s.trace), Armed(c), m.chains[c].first);
  }

  /** Enabling a chain none of whose nodes is initialized. */
  lemma EnableOk(m: Module, s: Eng, c: nat)
    requires WellFormed(m) && Fits(m, s) && c < |m.chains| && ChainOk(m, s, c)
    requires !AnyInit(s.nodeInit, m.chains[c].first, m.chains[c].count)
    ensures ChainOk(m, EnableChain(m, s, c), c)
  {
    hide LifeOf, View;
    var ch := m.chains[c];
    var t := EnableChain(m, s, c);
    InitListEmpty(s.nodeInit, ch.first, ch.count);
    InitListEmpty(t.nodeInit, ch.first, ch.count);
    EnableLife(m, s, c);
  }

  /** A chain that is off has no node initialized. */
  lemma OffIsIdle(m: Module, s: Eng, c: nat)
    requires WellFormed(m) && Fits(m, s) && c < |m.chains| && ChainOk(m, s, c) && !s.chainEn[c]
    ensures !AnyInit(s.nodeInit, m.chains[c].first, m.chains[c].count)
  {
    var ch := m.chains[c];
    forall n | ch.first <= n < ch.first + ch.count
      ensures !s.nodeInit[n]
    {
      assert NodeOk(m, s, c, n, ChainLife(m, s, c).high);
    }
  }

  /** Enabling any other chain is what the monitor forbids. */
  lemma EnableBreaks(m: Module, s: Eng, c: nat)
    requires WellFormed(m) && Fits(m, s) && c < |m.chains|
    requires ChainLife(m, s, c).live == InitList(s.nodeInit, m.chains[c].first, m.chains[c].count)
    requires AnyInit(s.nodeInit, m.chains[c].first, m.chains[c].count)
    ensures !ChainLife(m, EnableChain(m, s, c), c).legal
  {
    var ch := m.chains[c];
    var n :| ch.first <= n < ch.first + ch.count && s.nodeInit[n];
    InitListMembers(s.nodeInit, ch.first, ch.count);
    assert n in ChainLife(m, s, c).live;
    ViewSnoc(m, c, s.trace, Armed(c));
    LifeSnoc(View(m, c, s.trace), Armed(c), ch.first);
  }

  lemma ResetOk(m: Module, s: Eng, c: nat)
    requires WellFormed(m) && Fits(m, s) && c < |m.chains|
    requires ChainLife(m, s, c).legal
    requires ChainLife(m, s, c).live == InitList(s.nodeInit, m.chains[c].first, m.chains[c].count)
    ensures var t := EnableChain(m, DisableChain(m, s, c), c);
      ChainOk(m, t, c) && OthersAgree(m, s, t, c) && t.rearmed == s.rearmed
      && t.current == s.current && t.panicked == s.panicked
  {
    var d := DisableChain(m, s, c);
    DisableOk(m, s, c);
    DisableFrame(m, s, c);
    EnableOk(m, d, c);
    EnableFrame(m, d, c);
    OthersTrans(m, s, d, EnableChain(m, d, c), c);
  }

  // ---- control calls ---------------------------------------------------------

  /** A control call never touches the chain being walked, and keeps the others sound. */
  lemma ControlOk(m: Module, s: Eng, ctl: Ctl)
    requires WellFormed(m) && Fits(m, s)
    ensures var t := Control(m, s, ctl);
      && t.current == s.current && (s.rearmed ==> t.rearmed) && (s.panicked ==> t == s)
      && (forall c :: 0 <= c < |m.chains| && s.current == Some(c) ==> Agree(m, s, t, c))
      && (!t.rearmed && ChainsOkBut(m, s, s.current) ==> ChainsOkBut(m, t, s.current))
  {
    if !s.panicked {
      match ctl {
        case CtlSend(ev) => SendOk(m, s, ev);
        case CtlEnable(c) =>
          if c < |m.chains| && s.current != Some(c) {
            EnableFrame(m, s, c);
            if ChainsOkBut(m, s, s.current) && !EnableChain(m, s, c).rearmed {
              EnableOk(m, s, c);
              OthersOkBut(m, s, EnableChain(m, s, c), c);
            }
          } else { PanicOk(m, s); }
        case CtlDisable(c) =>
          if c < |m.chains| && s.current != Some(c) {
            DisableFrame(m, s, c);
            if ChainsOkBut(m, s, s.current) {
              assert ChainOk(m, s, c);
              DisableOk(m, s, c);
              OthersOkBut(m, s, DisableChain(m, s, c), c);
            }
          } else { PanicOk(m, s); }
        case CtlReset(c) =>
          if c < |m.chains| && s.current != Some(c) {
            DisableFrame(m, s, c);
            EnableFrame(m, DisableChain(m, s, c), c);
            OthersTrans(m, s, DisableChain(m, s, c), EnableChain(m, DisableChain(m, s, c), c), c);
            if ChainsOkBut(m, s, s.current) {
              assert ChainOk(m, s, c);
              ResetOk(m, s, c);
              OthersOkBut(m, s, EnableChain(m, DisableChain(m, s, c), c), c);
            }
          } else { PanicOk(m, s); }
      }
    }
  }

  /** Every chain but the one being walked is sound. */
  ghost predicate ChainsOkBut(m: Module, s: Eng, cur: Option<nat>)
    requires WellFormed(m) && Fits(m, s)
  {
    forall c :: 0 <= c < |m.chains| && cur != Some(c) ==> ChainOk(m, s, c)
  }

  lemma OthersOkBut(m: Module, s: Eng, t: Eng, c: nat)
    requires WellFormed(m) && Fits(m, s) && Fits(m, t) && OthersAgree(m, s, t, c) && c < |m.chains|
    requires ChainsOkBut(m, s, s.current) && ChainOk(m, t, c)
    ensures ChainsOkBut(m, t, s.current)
  {
    forall d | 0 <= d < |m.chains| && s.current != Some(d)
      ensures ChainOk(m, t, d)
    {
      if d != c {
        assert ChainOk(m, s, d);
        AgreeOk(m, s, t, d);
      }
    }
  }

  /** Flags and queue do not matter to a chain. */
  lemma FlagsAgree(m: Module, s: Eng, t: Eng)
    requires WellFormed(m) && Fits(m, s)
    requires t == s.(queue := t.queue, current := t.current, panicked := t.panicked, rearmed := t.rearmed)
    ensures forall c :: 0 <= c < |m.chains| ==> Agree(m, s, t, c)
    ensures forall c :: 0 <= c < |m.chains| && ChainOk(m, s, c) ==> ChainOk(m, t, c)
  {
    forall c | 0 <= c < |m.chains|
      ensures Agree(m, s, t, c)
      ensures ChainOk(m, s, c) ==> ChainOk(m, t, c)
    {
      if ChainOk(m, s, c) { AgreeOk(m, s, t, c); }
    }
  }

  lemma SendOk(m: Module, s: Eng, ev: Event)
    requires WellFormed(m) && Fits(m, s)
    ensures forall c :: 0 <= c < |m.chains| ==> Agree(m, s, Send(s, ev), c)
    ensures forall c :: 0 <= c < |m.chains| && ChainOk(m, s, c) ==> ChainOk(m, Send(s, ev), c)
  {
    FlagsAgree(m, s, Send(s, ev));
  }

  lemma PanicOk(m: Module, s: Eng)
    requires WellFormed(m) && Fits(m, s)
    ensures forall c :: 0 <= c < |m.chains| ==> Agree(m, s, s.(panicked := true), c)
    ensures forall c :: 0 <= c < |m.chains| && ChainOk(m, s, c) ==> ChainOk(m, s.(panicked := true), c)
  {
    FlagsAgree(m, s, s.(panicked := true));
  }
}
