/**
 What the monitor of `CflLife` says of the trace itself, at every position and in the middle of a dispatch:
 each time a chain is switched off the sweep before it mirrors its INITs, and the monitor is violated
 exactly when a chain with an initialized node was enabled.
 */
module CflTrace {
  import opened Options
  import opened CflModel
  import opened CflLife
  import opened CflRun

  ghost predicate Extends(t: seq<Mark>, u: seq<Mark>) { |t| <= |u| && u[..|t|] == t }

  ghost predicate LegalFor(m: Module, t: seq<Mark>, c: nat)
    requires c < |m.chains|
  {
    LifeOf(View(m, c, t), m.chains[c].first).legal
  }

  /** Some chain's callbacks violate the discipline. */
  ghost predicate Broken(m: Module, t: seq<Mark>) {
    exists c :: 0 <= c < |m.chains| && !LegalFor(m, t, c)
  }

  /** Chain `c` is switched off at position `p`, right after TERMINATE of exactly its live nodes, last INIT first. */
  ghost predicate SweptAt(m: Module, t: seq<Mark>, p: nat, c: nat)
    requires c < |m.chains|
  {
    exists q: nat :: q <= p < |t| && t[q..p] == Terms(Reverse(LifeOf(View(m, c, t[..q]), m.chains[c].first).live))
  }

  ghost predicate Swept(m: Module, t: seq<Mark>, p: nat) {
    p < |t| && (t[p].Disarmed? ==> t[p].chain < |m.chains| && SweptAt(m, t, p, t[p].chain))
  }

  /**
   From `s` to `t` the trace grew; unless a chain was rearmed every disarming in between is swept; and if one
   was, the monitor is violated.
   */
  ghost predicate Watched(m: Module, s: Eng, t: Eng) {
    && Extends(s.trace, t.trace) && (s.rearmed ==> t.rearmed)
    && (!t.rearmed ==> forall p: nat :: |s.trace| <= p < |t.trace| ==> Swept(m, t.trace, p))
    && (t.rearmed && !s.rearmed ==> Broken(m, t.trace))
  }

  /** A violation stays one. */
  lemma {:induction false} LegalBefore(m: Module, t: seq<Mark>, u: seq<Mark>, c: nat)
    requires c < |m.chains| && Extends(t, u) && LegalFor(m, u, c)
    ensures LegalFor(m, t, c)
    decreases |u|
  {
    if |u| == |t| {
      assert u == t;
    } else {
      var n := |u| - 1;
      assert u == u[..n] + [u[n]] && u[..n][..|t|] == t;
      ViewSnoc(m, c, u[..n], u[n]);
      LifeSnoc(View(m, c, u[..n]), u[n], m.chains[c].first);
      assert View(m, c, u[..n]) + [] == View(m, c, u[..n]);
      LegalBefore(m, t, u[..n], c);
    }
  }

  lemma BrokenStays(m: Module, t: seq<Mark>, u: seq<Mark>)
    requires Extends(t, u) && Broken(m, t)
    ensures Broken(m, u)
  {
    var c :| 0 <= c < |m.chains| && !LegalFor(m, t, c);
    if LegalFor(m, u, c) { LegalBefore(m, t, u, c); }
  }

  lemma SweptStays(m: Module, t: seq<Mark>, u: seq<Mark>, p: nat)
    requires Extends(t, u) && Swept(m, t, p)
    ensures Swept(m, u, p)
  {
    assert u[p] == u[..|t|][p];
    if t[p].Disarmed? {
      var c := t[p].chain;
      var q: nat :| q <= p < |t| && t[q..p] == Terms(Reverse(LifeOf(View(m, c, t[..q]), m.chains[c].first).live));
      assert u[..q] == t[..q] && u[q..p] == t[q..p];
    }
  }

  lemma WatchedTrans(m: Module, s: Eng, t: Eng, u: Eng)
    requires Watched(m, s, t) && Watched(m, t, u)
    ensures Watched(m, s, u)
  {
    hide Swept, Broken;
    assert u.trace[..|s.trace|] == u.trace[..|t.trace|][..|s.trace|];
    if !u.rearmed {
      forall p: nat | |s.trace| <= p < |u.trace|
        ensures Swept(m, u.trace, p)
      {
        if p < |t.trace| { SweptStays(m, t.trace, u.trace, p); }
      }
    }
    if t.rearmed && !s.rearmed { BrokenStays(m, t.trace, u.trace); }
  }

  lemma WatchedSame(m: Module, s: Eng, t: Eng)
    requires t.trace == s.trace && t.rearmed == s.rearmed
    ensures Watched(m, s, t)
  {}

  /** One mark, of anything but a disarming. */
  lemma WatchedMark(m: Module, s: Eng, t: Eng, k: Mark)
    requires t.trace == s.trace + [k] && t.rearmed == s.rearmed && !k.Disarmed?
    ensures Watched(m, s, t)
  {}

  // ---- control calls ---------------------------------------------------------

  /** The bits of chain `c` are what the monitor saw. */
  ghost predicate Mirrored(m: Module, s: Eng, c: nat)
    requires WellFormed(m) && Fits(m, s) && c < |m.chains|
  {
    ChainLife(m, s, c).legal && ChainLife(m, s, c).live == InitList(s.nodeInit, m.chains[c].first, m.chains[c].count)
  }

  lemma DisableExtends(m: Module, s: Eng, c: nat)
    requires WellFormed(m) && Fits(m, s) && c < |m.chains|
    ensures Extends(s.trace, DisableChain(m, s, c).trace) && DisableChain(m, s, c).rearmed == s.rearmed
  {
    SweepFrame(m, s, m.chains[c].first, m.chains[c].count);
    DisableFrame(m, s, c);
  }

  lemma DisableWatched(m: Module, s: Eng, c: nat)
    requires WellFormed(m) && Fits(m, s) && c < |m.chains| && (s.rearmed || Mirrored(m, s, c))
    ensures Watched(m, s, DisableChain(m, s, c))
  {
    var t := DisableChain(m, s, c);
    DisableExtends(m, s, c);
    if !s.rearmed {
      DisableOk(m, s, c);
      var n, last := |s.trace|, |t.trace| - 1;
      forall p: nat | n <= p < |t.trace|
        ensures Swept(m, t.trace, p)
      {
        if p == last {
          assert t.trace[..n] == s.trace;
          assert t.trace[n..last] == Terms(Reverse(ChainLife(m, s, c).live));
          assert SweptAt(m, t.trace, p, c);
        }
      }
    }
  }

  lemma EnableWatched(m: Module, s: Eng, c: nat)
    requires WellFormed(m) && Fits(m, s) && c < |m.chains| && (s.rearmed || Mirrored(m, s, c))
    ensures Watched(m, s, EnableChain(m, s, c))
  {
    var t := EnableChain(m, s, c);
    if t.rearmed == s.rearmed {
      WatchedMark(m, s, t, Armed(c));
    } else {
      EnableBreaks(m, s, c);
      assert !LegalFor(m, t.trace, c);
    }
  }

  lemma ResetWatched(m: Module, s: Eng, c: nat)
    requires WellFormed(m) && Fits(m, s) && c < |m.chains| && (s.rearmed || Mirrored(m, s, c))
    ensures Watched(m, s, EnableChain(m, DisableChain(m, s, c), c))
  {
    var d := DisableChain(m, s, c);
    DisableWatched(m, s, c);
    DisableExtends(m, s, c);
    WatchedMark(m, d, EnableChain(m, d, c), Armed(c));
    WatchedTrans(m, s, d, EnableChain(m, d, c));
  }

  lemma ControlWatched(m: Module, s: Eng, ctl: Ctl)
    requires WellFormed(m) && Fits(m, s) && (s.rearmed || ChainsOkBut(m, s, s.current))
    ensures Watched(m, s, Control(m, s, ctl))
  {
    hide EnableChain, DisableChain, Watched;
    WatchedSame(m, s, s);
    WatchedSame(m, s, s.(panicked := true));
    if !s.panicked {
      match ctl {
        case CtlSend(ev) => WatchedSame(m, s, Send(s, ev));
        case CtlEnable(c) =>
          if c < |m.chains| && s.current != Some(c) {
            OkIsMirrored(m, s, c);
            EnableWatched(m, s, c);
          }
        case CtlDisable(c) =>
          if c < |m.chains| && s.current != Some(c) {
            OkIsMirrored(m, s, c);
            DisableWatched(m, s, c);
          }
        case CtlReset(c) =>
          if c < |m.chains| && s.current != Some(c) {
            OkIsMirrored(m, s, c);
            ResetWatched(m, s, c);
          }
      }
    }
  }

  lemma OkIsMirrored(m: Module, s: Eng, c: nat)
    requires WellFormed(m) && Fits(m, s) && c < |m.chains| && (s.rearmed || ChainsOkBut(m, s, s.current))
    ensures s.current != Some(c) ==> s.rearmed || Mirrored(m, s, c)
  {}

  lemma {:induction false} ControlsWatched(m: Module, s: Eng, ctls: seq<Ctl>)
    requires WellFormed(m) && Fits(m, s) && (s.rearmed || ChainsOkBut(m, s, s.current))
    ensures Watched(m, s, Controls(m, s, ctls))
    decreases |ctls|
  {
    hide Control, Watched, ChainsOkBut;
    if ctls == [] {
      WatchedSame(m, s, s);
    } else {
      var u := Control(m, s, ctls[0]);
      ControlWatched(m, s, ctls[0]);
      ControlOk(m, s, ctls[0]);
      ControlsWatched(m, u, ctls[1..]);
      WatchedTrans(m, s, u, Controls(m, s, ctls));
    }
  }

  // ---- dispatch --------------------------------------------------------------

  /** Before node `n` of chain `c` in a dispatch, in good order unless a chain was rearmed. */
  ghost predicate Going(m: Module, s: Eng, c: nat, n: nat)
    requires WellFormed(m) && Fits(m, s) && c < |m.chains|
  {
    s.rearmed || Midway(m, s, c, n)
  }

  lemma MarkThenControls(m: Module, s: Eng, u: Eng, ctls: seq<Ctl>, c: nat, n: nat, k: Mark)
    requires WellFormed(m) && Fits(m, s) && Fits(m, u) && c < |m.chains| && InChain(m.chains[c], n) && n < |m.nodes|
    requires Going(m, s, c, n) && (k.CbInit? || k.CbEvent?) && k.node == n
    requires u == s.(trace := s.trace + [k], local := s.local[n := u.local[n]], calls := u.calls)
    ensures Watched(m, s, Controls(m, u, ctls))
  {
    hide Watched;
    if !s.rearmed {
      MarkFrame(m, s, u, c, n, k);
      ChainsButFrame(m, s, u, c);
    }
    WatchedMark(m, s, u, k);
    ControlsWatched(m, u, ctls);
    WatchedTrans(m, s, u, Controls(m, u, ctls));
  }

  lemma VisitWatched(m: Module, s: Eng, c: nat, n: nat, ev: Event)
    requires WellFormed(m) && Fits(m, s) && c < |m.chains| && InChain(m.chains[c], n) && n < |m.nodes|
    requires Going(m, s, c, n) && s.nodeEn[n]
    ensures Watched(m, s, Visit(m, s, n, ev).s)
  {
    hide Watched, Midway, Controls, HandleInit, HandleEvent;
    var s1 := if s.nodeInit[n] then s else InitNode(m, s, n);
    if s.nodeInit[n] {
      WatchedSame(m, s, s);
    } else {
      var u, ctls := HandleInitShape(m, s, n);
      MarkThenControls(m, s, u, ctls, c, n, CbInit(n));
      WatchedSame(m, HandleInit(m, s, n), s1);
      WatchedTrans(m, s, HandleInit(m, s, n), s1);
      if !s.rearmed { InitNodeOk(m, s, c, n); }
      VisitFlags(m, s, n, ev);
    }
    if !s1.panicked {
      var u, ctls := HandleEventShape(m, s1, n, ev);
      MarkThenControls(m, s1, u, ctls, c, n, CbEvent(n, ev));
      WatchedTrans(m, s, s1, HandleEvent(m, s1, n, ev).s);
    }
  }

  lemma DropWatched(m: Module, s: Eng, n: nat)
    requires WellFormed(m) && Fits(m, s) && n < |m.nodes|
    ensures Watched(m, s, DropNode(m, s, n))
  {
    hide Watched;
    SynthTermFrame(m, s, n);
    if s.nodeInit[n] { WatchedMark(m, s, DropNode(m, s, n), CbTerm(n)); } else { WatchedSame(m, s, DropNode(m, s, n)); }
  }

  lemma TurnWatched(m: Module, s: Eng, c: nat, n: nat, ev: Event)
    requires WellFormed(m) && Fits(m, s) && c < |m.chains| && InChain(m.chains[c], n) && n < |m.nodes|
    requires Going(m, s, c, n)
    ensures Watched(m, s, NodeTurn(m, s, c, n, ev).s)
  {
    hide Watched, Midway, Visit, DropNode, EnableChain, DisableChain;
    if !s.nodeEn[n] {
      WatchedSame(m, s, s);
    } else {
      var o := Visit(m, s, n, ev);
      VisitWatched(m, s, c, n, ev);
      VisitFlags(m, s, n, ev);
      if !o.s.panicked {
        if !o.s.rearmed { VisitOk(m, s, c, n, ev); }
        if o.status.Disable? {
          DropWatched(m, o.s, n);
        } else if o.status.Reset? {
          ResetWatched(m, o.s, c);
        } else if o.status.Terminate? {
          DisableWatched(m, o.s, c);
        } else {
          WatchedSame(m, o.s, o.s);
        }
        WatchedTrans(m, s, o.s, NodeTurn(m, s, c, n, ev).s);
      }
    }
  }

  lemma {:induction false} WalkWatched(m: Module, s: Eng, c: nat, i: nat, ev: Event)
    requires WellFormed(m) && Fits(m, s) && c < |m.chains| && i <= m.chains[c].count
    requires Going(m, s, c, m.chains[c].first + i)
    ensures Watched(m, s, Walk(m, s, c, i, ev))
    decreases m.chains[c].count - i
  {
    hide Watched, Midway, NodeTurn;
    if s.panicked || i == m.chains[c].count {
      WatchedSame(m, s, s);
    } else {
      var n := m.chains[c].first + i;
      var t := NodeTurn(m, s, c, n, ev);
      TurnWatched(m, s, c, n, ev);
      TurnFlags(m, s, c, n, ev);
      if t.Next? {
        if t.s.panicked {
          WatchedSame(m, t.s, t.s);
        } else {
          if !s.rearmed { TurnOk(m, s, c, n, ev); }
          WalkWatched(m, t.s, c, i + 1, ev);
        }
        WatchedTrans(m, s, t.s, Walk(m, t.s, c, i + 1, ev));
      }
    }
  }

  lemma {:induction false} BroadcastWatched(m: Module, s: Eng, c: nat, ev: Event)
    requires WellFormed(m) && Fits(m, s) && c <= |m.chains| && (!s.panicked && !s.rearmed ==> AllOk(m, s))
    ensures Watched(m, s, Broadcast(m, s, c, ev))
    decreases |m.chains| - c
  {
    hide Watched, Walk, Midway, AllOk;
    if s.panicked || c == |m.chains| {
      WatchedSame(m, s, s);
    } else if !s.chainEn[c] {
      BroadcastWatched(m, s, c + 1, ev);
    } else {
      var s1 := s.(current := Some(c));
      var t := Walk(m, s1, c, 0, ev);
      WatchedSame(m, s, s1);
      WalkFlags(m, s1, c, 0, ev);
      if !s.rearmed {
        WalkStarts(m, s, c);
        WalkOk(m, s1, c, 0, ev);
      }
      WalkWatched(m, s1, c, 0, ev);
      WatchedTrans(m, s, s1, t);
      BroadcastWatched(m, t, c + 1, ev);
      WatchedTrans(m, s, t, Broadcast(m, t, c + 1, ev));
    }
  }

  lemma WalkStarts(m: Module, s: Eng, c: nat)
    requires WellFormed(m) && Fits(m, s) && c < |m.chains| && s.chainEn[c] && AllOk(m, s)
    ensures Midway(m, s.(current := Some(c)), c, m.chains[c].first)
  {
    var s1 := s.(current := Some(c));
    FlagsAgree(m, s, s1);
    assert ChainOk(m, s, c);
    forall d | 0 <= d < |m.chains| && d != c ensures ChainOk(m, s1, d) { assert ChainOk(m, s, d); }
  }

  // ---- runs ------------------------------------------------------------------

  lemma StepWatched(m: Module, s: Eng, op: Op)
    requires WellFormed(m) && Fits(m, s) && Resting(m, s)
    ensures Watched(m, s, Step(m, s, op))
  {
    hide Watched, Broadcast, Control;
    WatchedSame(m, s, s);
    match op
    case OpControl(ctl) =>
      if s.panicked { PanickedControl(m, s, ctl); } else { ControlWatched(m, s, ctl); }
    case OpPump =>
      if !s.panicked && s.queue != [] {
        var s1 := s.(queue := s.queue[1..]);
        FlagsAgree(m, s, s1);
        var t := Broadcast(m, s1, 0, s.queue[0]);
        WatchedSame(m, s, s1);
        BroadcastWatched(m, s1, 0, s.queue[0]);
        WatchedTrans(m, s, s1, t);
        WatchedSame(m, t, t.(current := None));
        WatchedTrans(m, s, t, t.(current := None));
      }
  }

  lemma PanickedControl(m: Module, s: Eng, ctl: Ctl)
    requires WellFormed(m) && Fits(m, s) && s.panicked
    ensures Control(m, s, ctl) == s
  {}

  lemma {:induction false} AutoWatched(m: Module, s: Eng, c: nat)
    requires WellFormed(m) && Fits(m, s) && c <= |m.chains| && AllOk(m, s)
    requires forall d :: c <= d < |m.chains| ==> !s.chainEn[d]
    ensures Watched(m, s, EnableAuto(m, s, c))
    decreases |m.chains| - c
  {
    hide Watched;
    if c == |m.chains| {
      WatchedSame(m, s, s);
    } else if m.chains[c].autoStart {
      var t := EnableChain(m, s, c);
      assert ChainOk(m, s, c);
      EnableWatched(m, s, c);
      OffIsIdle(m, s, c);
      EnableOk(m, s, c);
      EnableFrame(m, s, c);
      OthersOk(m, s, t, c);
      AutoWatched(m, t, c + 1);
      WatchedTrans(m, s, t, EnableAuto(m, t, c + 1));
    } else {
      AutoWatched(m, s, c + 1);
    }
  }

  lemma {:induction false} RunWatched(m: Module, run: seq<Eng>, mem: seq<int>, ops: seq<Op>, k: nat)
    requires IsRun(m, run, mem, ops) && k < |run|
    ensures Watched(m, Blank(m, mem), run[k])
    decreases k
  {
    hide Step, Watched;
    if k == 0 {
      BlankOk(m, mem);
      AutoWatched(m, Blank(m, mem), 0);
    } else {
      RunWatched(m, run, mem, ops, k - 1);
      RunOk(m, run, mem, ops, k - 1);
      assert StepAt(m, run, ops, k - 1);
      StepWatched(m, run[k - 1], ops[k - 1]);
      WatchedTrans(m, Blank(m, mem), run[k - 1], run[k]);
    }
  }

  lemma BlankOk(m: Module, mem: seq<int>)
    requires WellFormed(m) && |mem| == |m.nodes|
    ensures AllOk(m, Blank(m, mem))
  {
    forall c | 0 <= c < |m.chains|
      ensures ChainOk(m, Blank(m, mem), c)
    {
      InitListEmpty(Blank(m, mem).nodeInit, m.chains[c].first, m.chains[c].count);
    }
  }

  // ---- the theorems ----------------------------------------------------------

  /**
   In every execution, unless a chain with an initialized node was enabled: wherever in the trace a chain is
   switched off, by a call, a callback or its own return code, TERMINATE has just been sent to exactly its
   live nodes in the reverse of their INIT order, and to nothing else in between.
   */
  lemma EverySweepMirrorsInit(m: Module, run: seq<Eng>, mem: seq<int>, ops: seq<Op>, k: nat, p: nat)
    requires IsRun(m, run, mem, ops) && k < |run| && !run[k].rearmed
    requires p < |run[k].trace| && run[k].trace[p].Disarmed?
    ensures run[k].trace[p].chain < |m.chains| && SweptAt(m, run[k].trace, p, run[k].trace[p].chain)
  {
    RunWatched(m, run, mem, ops, k);
    assert Swept(m, run[k].trace, p);
  }

  /** The discipline holds on every chain if and only if no chain with an initialized node was ever enabled. */
  lemma DisciplineIff(m: Module, run: seq<Eng>, mem: seq<int>, ops: seq<Op>, k: nat)
    requires IsRun(m, run, mem, ops) && k < |run| && !run[k].panicked
    ensures (forall c :: 0 <= c < |m.chains| ==> LegalFor(m, run[k].trace, c)) <==> !run[k].rearmed
  {
    RunWatched(m, run, mem, ops, k);
    if !run[k].rearmed {
      forall c | 0 <= c < |m.chains|
        ensures LegalFor(m, run[k].trace, c)
      {
        LifecycleDiscipline(m, run, mem, ops, k, c);
      }
    }
  }
}
