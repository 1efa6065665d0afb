/**
 Each chain stands alone: when no node controls other chains and user functions touch only their
 own node, draining any queue ends every chain in the state, and with the callbacks, it would have
 had as the only chain. What one chain returns never suppresses an event for another.
 */
module CflAlone {
  import opened Options
  import opened CflModel
  import opened CflLife
  import opened CflRun

  /** No control nodes; user functions make no engine calls and depend on their own node alone. */
  ghost predicate Closed(m: Module) {
    && WellFormed(m)
    && (forall n :: 0 <= n < |m.nodes| ==> !m.nodes[n].kind.EnableChains? && !m.nodes[n].kind.DisableChains?)
    && (forall f, t, n, l, sig :: 0 <= f < |m.fns| ==> m.fns[f](t, n, l, sig).ctl == [])
    && (forall f, t, n, l, sig :: 0 <= f < |m.fns| ==> m.fns[f](t, n, l, sig) == m.fns[f](0, n, l, sig))
  }

  // ---- one node --------------------------------------------------------------

  /** Node `n` rewritten and `marks` recorded, the calls so far being `calls`. */
  function Upd(s: Eng, n: nat, en: bool, init: bool, l: Local, marks: seq<Mark>, calls: seq<Called>): Eng
    requires n < |s.nodeEn| && n < |s.nodeInit| && n < |s.local|
  {
    s.(nodeEn := s.nodeEn[n := en], nodeInit := s.nodeInit[n := init], local := s.local[n := l],
       trace := s.trace + marks, calls := calls)
  }

  ghost predicate MarksOf(n: nat, marks: seq<Mark>) {
    forall k :: 0 <= k < |marks| ==> (marks[k].CbInit? || marks[k].CbEvent? || marks[k].CbTerm?) && marks[k].node == n
  }

  lemma {:induction false} ViewMarks(m: Module, c: nat, t: seq<Mark>, n: nat, marks: seq<Mark>)
    requires c < |m.chains| && MarksOf(n, marks)
    ensures View(m, c, t + marks) == View(m, c, t) + (if InChain(m.chains[c], n) then marks else [])
  {
    var v := View(m, c, t);
    if marks == [] {
      assert t + marks == t && v + [] == v;
    } else {
      hide View;
      var most, last := marks[..|marks| - 1], marks[|marks| - 1];
      ViewMarks(m, c, t, n, most);
      ViewSnoc(m, c, t + most, last);
      assert t + marks == (t + most) + [last];
      assert Mine(m, c, last) == InChain(m.chains[c], n);
      if InChain(m.chains[c], n) {
        assert v + marks == (v + most) + [last];
      } else {
        assert v + [] == v;
      }
    }
  }

  /** The same update of an own node keeps two agreeing states in agreement; other chains do not see it. */
  lemma UpdLocal(m: Module, s: Eng, t: Eng, c: nat, n: nat, en: bool, init: bool, l: Local, marks: seq<Mark>,
          sc: seq<Called>, tc: seq<Called>)
    requires WellFormed(m) && c < |m.chains| && InChain(m.chains[c], n) && n < |m.nodes| && MarksOf(n, marks)
    requires Agree(m, s, t, c)
    ensures Agree(m, Upd(s, n, en, init, l, marks, sc), Upd(t, n, en, init, l, marks, tc), c)
  {
    hide View, Mine, InChain;
    ViewMarks(m, c, s.trace, n, marks);
    ViewMarks(m, c, t.trace, n, marks);
    var s', t' := Upd(s, n, en, init, l, marks, sc), Upd(t, n, en, init, l, marks, tc);
    forall k: nat | InChain(m.chains[c], k)
      ensures SameNode(s', t', k)
    {
      assert SameNode(s, t, k);
    }
  }

  lemma UpdFrame(m: Module, s: Eng, c: nat, n: nat, en: bool, init: bool, l: Local, marks: seq<Mark>, sc: seq<Called>)
    requires WellFormed(m) && Fits(m, s) && c < |m.chains| && InChain(m.chains[c], n) && n < |m.nodes| && MarksOf(n, marks)
    ensures OthersAgree(m, s, Upd(s, n, en, init, l, marks, sc), c)
  {
    forall d | 0 <= d < |m.chains| && d != c
      ensures Agree(m, s, Upd(s, n, en, init, l, marks, sc), d)
    {
      assert !InChain(m.chains[d], n);
      ViewMarks(m, d, s.trace, n, marks);
    }
  }

  /** What a visit does to the node's own state, with no engine in sight. */
  ghost function FnReply(m: Module, f: Option<nat>, n: nat, l: Local, sig: Signal): Reply
    requires FnOk(m, f)
  {
    if f.None? then Reply(Continue, l, []) else m.fns[f.value](0, n, l, sig)
  }

  ghost function InitLocal(m: Module, n: nat, l: Local): Local
    requires WellFormed(m) && n < |m.nodes|
  {
    var d := m.nodes[n];
    if d.kind.MCall? || d.kind.OneShot? || d.kind.InitTerm? then FnReply(m, d.fn, n, l, SigInit).local
    else if d.kind.TimeDelay? then l.(scratch := 0)
    else l
  }

  lemma InitNodeUpd(m: Module, s: Eng, n: nat)
    requires Closed(m) && Fits(m, s) && n < |m.nodes| && !s.panicked && !s.nodeInit[n]
    ensures InitNode(m, s, n) == Upd(s, n, s.nodeEn[n], true, InitLocal(m, n, s.local[n]), [CbInit(n)], InitNode(m, s, n).calls)
  {
    assert s.nodeEn[n := s.nodeEn[n]] == s.nodeEn && s.local[n := s.local[n]] == s.local;
  }

  /** The node's own state and return code after an event. */
  ghost function EventLocal(m: Module, n: nat, l: Local, ev: Event): (Local, Status)
    requires WellFormed(m) && n < |m.nodes|
  {
    var d := m.nodes[n];
    var reply := FnReply(m, d.fn, n, l, SigEvent(ev));
    match d.kind
    case MCall => (reply.local, reply.status)
    case While =>
      if d.fn.None? then (l, Disable)
      else (reply.local, if reply.status.Continue? then Halt else reply.status)
    case Verify => (reply.local, if reply.status.Continue? then Continue else Reset)
    case TimeDelay =>
      if ev.Tick? then
        (l.(scratch := Saturate(l.scratch + ev.data)), if Saturate(l.scratch + ev.data) >= d.params[0] then Disable else Halt)
      else (l, Halt)
    case ResetSelf => (l, Reset)
    case TerminateSelf => (l, Terminate)
    case Nop => (l, Continue)
    case InitTerm => (l, Continue)
    case _ => (l, Disable)
  }

  /** A closed module's function changes its node and answers, and that is all. */
  lemma CallUpd(m: Module, s: Eng, n: nat, f: Option<nat>, sig: Signal)
    requires Closed(m) && Fits(m, s) && n < |m.nodes| && FnOk(m, f)
    ensures var reply := FnReply(m, f, n, s.local[n], sig);
      Call(m, s, n, f, sig) ==
      Outcome(s.(local := s.local[n := reply.local], calls := Call(m, s, n, f, sig).s.calls), reply.status)
  {
    assert s.local[n := s.local[n]] == s.local;
  }

  lemma HandleEventUpd(m: Module, s: Eng, n: nat, ev: Event)
    requires Closed(m) && Fits(m, s) && n < |m.nodes|
    ensures var o := HandleEvent(m, s, n, ev);
      var (l, r) := EventLocal(m, n, s.local[n], ev);
      o.status == r && o.s == Upd(s, n, s.nodeEn[n], s.nodeInit[n], l, [CbEvent(n, ev)], o.s.calls)
  {
    hide Saturate, Call;
    assert s.nodeEn[n := s.nodeEn[n]] == s.nodeEn && s.local[n := s.local[n]] == s.local;
    assert s.nodeInit[n := s.nodeInit[n]] == s.nodeInit;
    CallUpd(m, s.(trace := s.trace + [CbEvent(n, ev)]), n, m.nodes[n].fn, SigEvent(ev));
  }

  /** A visit is an update of the node that depends on the node alone. */
  lemma VisitUpd(m: Module, s: Eng, n: nat, ev: Event) returns (l: Local, r: Status, marks: seq<Mark>)
    requires Closed(m) && Fits(m, s) && n < |m.nodes| && !s.panicked
    ensures MarksOf(n, marks)
    ensures Visit(m, s, n, ev) == Outcome(Upd(s, n, s.nodeEn[n], true, l, marks, Visit(m, s, n, ev).s.calls), r)
    ensures var l0 := if s.nodeInit[n] then s.local[n] else InitLocal(m, n, s.local[n]);
      (l, r) == EventLocal(m, n, l0, ev) && marks == (if s.nodeInit[n] then [] else [CbInit(n)]) + [CbEvent(n, ev)]
  {
    var s1 := if s.nodeInit[n] then s else InitNode(m, s, n);
    if !s.nodeInit[n] { InitNodeUpd(m, s, n); }
    HandleEventUpd(m, s1, n, ev);
    var (l', r') := EventLocal(m, n, s1.local[n], ev);
    l, r, marks := l', r', (if s.nodeInit[n] then [] else [CbInit(n)]) + [CbEvent(n, ev)];
    if s.nodeInit[n] {
      assert s.nodeInit[n := true] == s.nodeInit;
      assert marks == [CbEvent(n, ev)];
    } else {
      assert s1.nodeEn[n := s1.nodeEn[n]] == s.nodeEn[n := s.nodeEn[n]];
      assert (s.trace + [CbInit(n)]) + [CbEvent(n, ev)] == s.trace + marks;
      assert s1.local[n := l] == s.local[n := l];
    }
  }

  // ---- sweeps ----------------------------------------------------------------

  ghost function TermLocal(m: Module, n: nat, l: Local): Local
    requires WellFormed(m) && n < |m.nodes|
  {
    if TermFn(m.nodes[n]).None? then l else m.fns[TermFn(m.nodes[n]).value](0, n, l, SigTerm).local
  }

  lemma SynthTermUpd(m: Module, s: Eng, n: nat)
    requires Closed(m) && Fits(m, s) && n < |m.nodes| && s.nodeInit[n]
    ensures SynthTerm(m, s, n) == Upd(s, n, s.nodeEn[n], true, TermLocal(m, n, s.local[n]), [CbTerm(n)], SynthTerm(m, s, n).calls)
  {
    assert s.nodeEn[n := s.nodeEn[n]] == s.nodeEn && s.local[n := s.local[n]] == s.local;
    assert s.nodeInit[n := true] == s.nodeInit;
  }

  lemma SynthTermLocal(m: Module, s: Eng, t: Eng, c: nat, n: nat)
    requires Closed(m) && c < |m.chains| && InChain(m.chains[c], n) && n < |m.nodes| && Agree(m, s, t, c)
    ensures Agree(m, SynthTerm(m, s, n), SynthTerm(m, t, n), c)
  {
    assert SameNode(s, t, n);
    if s.nodeInit[n] {
      SynthTermUpd(m, s, n);
      SynthTermUpd(m, t, n);
      UpdLocal(m, s, t, c, n, s.nodeEn[n], true, TermLocal(m, n, s.local[n]), [CbTerm(n)],
               SynthTerm(m, s, n).calls, SynthTerm(m, t, n).calls);
    }
  }

  lemma {:induction false} SweepLocal(m: Module, s: Eng, t: Eng, c: nat, k: nat)
    requires Closed(m) && c < |m.chains| && k <= m.chains[c].count && Agree(m, s, t, c)
    ensures Agree(m, SweepBack(m, s, m.chains[c].first, k), SweepBack(m, t, m.chains[c].first, k), c)
    decreases k
  {
    hide SynthTerm;
    if k > 0 {
      var n := m.chains[c].first + k - 1;
      SynthTermLocal(m, s, t, c, n);
      SweepLocal(m, SynthTerm(m, s, n), SynthTerm(m, t, n), c, k - 1);
    }
  }

  /** Clearing a chain's bits and scratch, with the same mark, keeps agreement. */
  lemma PaintLocal(m: Module, s: Eng, t: Eng, c: nat, on: bool, k: Mark, s': Eng, t': Eng)
    requires WellFormed(m) && c < |m.chains| && Agree(m, s, t, c) && Fits(m, s') && Fits(m, t')
    requires s'.chainEn[c] == t'.chainEn[c] && s'.trace == s.trace + [k] && t'.trace == t.trace + [k]
    requires forall n: nat :: InChain(m.chains[c], n) ==>
      && s'.nodeEn[n] == t'.nodeEn[n] == on && !s'.nodeInit[n] && !t'.nodeInit[n]
      && s'.local[n] == s.local[n].(scratch := 0) && t'.local[n] == t.local[n].(scratch := 0)
    ensures Agree(m, s', t', c)
  {
    ViewSnoc(m, c, s.trace, k);
    ViewSnoc(m, c, t.trace, k);
    forall n: nat | InChain(m.chains[c], n)
      ensures SameNode(s', t', n)
    {
      assert SameNode(s, t, n);
    }
  }

  lemma DisableLocal(m: Module, s: Eng, t: Eng, c: nat)
    requires Closed(m) && c < |m.chains| && Agree(m, s, t, c)
    ensures Agree(m, DisableChain(m, s, c), DisableChain(m, t, c), c)
  {
    hide SweepBack, View, SameNode;
    var ch := m.chains[c];
    SweepLocal(m, s, t, c, ch.count);
    PaintLocal(m, SweepBack(m, s, ch.first, ch.count), SweepBack(m, t, ch.first, ch.count), c, false, Disarmed(c),
               DisableChain(m, s, c), DisableChain(m, t, c));
  }

  lemma EnableLocal(m: Module, s: Eng, t: Eng, c: nat)
    requires Closed(m) && c < |m.chains| && Agree(m, s, t, c)
    ensures Agree(m, EnableChain(m, s, c), EnableChain(m, t, c), c)
  {
    hide View, SameNode;
    PaintLocal(m, s, t, c, true, Armed(c), EnableChain(m, s, c), EnableChain(m, t, c));
  }

  // ---- the walk --------------------------------------------------------------

  lemma DropUpd(m: Module, s: Eng, n: nat)
    requires Closed(m) && Fits(m, s) && n < |m.nodes| && s.nodeInit[n]
    ensures DropNode(m, s, n) ==
            Upd(s, n, false, false, TermLocal(m, n, s.local[n]).(scratch := 0), [CbTerm(n)], DropNode(m, s, n).calls)
  {
    SynthTermUpd(m, s, n);
  }

  /** The dispatch of one node: same outcome for agreeing engines, invisible to other chains, and no panic. */
  lemma TurnLocal(m: Module, s: Eng, t: Eng, c: nat, n: nat, ev: Event)
    requires Closed(m) && c < |m.chains| && InChain(m.chains[c], n) && n < |m.nodes|
    requires Agree(m, s, t, c) && !s.panicked && !t.panicked
    ensures var a, b := NodeTurn(m, s, c, n, ev), NodeTurn(m, t, c, n, ev);
      (a.Next? <==> b.Next?) && Agree(m, a.s, b.s, c)
  {
    hide Visit, DropNode, DisableChain, EnableChain;
    assert SameNode(s, t, n);
    if s.nodeEn[n] {
      var l, r, marks := VisitUpd(m, s, n, ev);
      var l', r', marks' := VisitUpd(m, t, n, ev);
      var a, b := Visit(m, s, n, ev).s, Visit(m, t, n, ev).s;
      UpdLocal(m, s, t, c, n, true, true, l, marks, a.calls, b.calls);
      match r {
        case Continue =>
        case Halt =>
        case Disable =>
          DropUpd(m, a, n);
          DropUpd(m, b, n);
          UpdLocal(m, a, b, c, n, false, false, TermLocal(m, n, l).(scratch := 0), [CbTerm(n)],
                   DropNode(m, a, n).calls, DropNode(m, b, n).calls);
        case Reset =>
          DisableLocal(m, a, b, c);
          EnableLocal(m, DisableChain(m, a, c), DisableChain(m, b, c), c);
        case Terminate => DisableLocal(m, a, b, c);
      }
    }
  }

  /** Queue, current chain and panic flag are not touched by a dispatch that controls nothing. */
  ghost predicate SameFlags(s: Eng, t: Eng) {
    t.queue == s.queue && t.current == s.current && t.panicked == s.panicked
  }

  lemma TurnFrame(m: Module, s: Eng, c: nat, n: nat, ev: Event)
    requires Closed(m) && Fits(m, s) && c < |m.chains| && InChain(m.chains[c], n) && n < |m.nodes| && !s.panicked
    ensures OthersAgree(m, s, NodeTurn(m, s, c, n, ev).s, c) && SameFlags(s, NodeTurn(m, s, c, n, ev).s)
  {
    hide Visit, DropNode, DisableChain, EnableChain;
    if s.nodeEn[n] {
      var l, r, marks := VisitUpd(m, s, n, ev);
      var a := Visit(m, s, n, ev).s;
      UpdFrame(m, s, c, n, true, true, l, marks, a.calls);
      assert a == Upd(s, n, true, true, l, marks, a.calls);
      match r {
        case Continue =>
        case Halt =>
        case Disable =>
          DropUpd(m, a, n);
          UpdFrame(m, a, c, n, false, false, TermLocal(m, n, l).(scratch := 0), [CbTerm(n)], DropNode(m, a, n).calls);
          OthersTrans(m, s, a, DropNode(m, a, n), c);
        case Reset => StopFrame(m, s, a, c);
        case Terminate => StopFrame(m, s, a, c);
      }
    }
  }

  lemma StopFrame(m: Module, s: Eng, a: Eng, c: nat)
    requires WellFormed(m) && Fits(m, s) && Fits(m, a) && c < |m.chains| && OthersAgree(m, s, a, c) && SameFlags(s, a)
    ensures OthersAgree(m, s, DisableChain(m, a, c), c) && SameFlags(s, DisableChain(m, a, c))
    ensures OthersAgree(m, s, EnableChain(m, DisableChain(m, a, c), c), c)
    ensures SameFlags(s, EnableChain(m, DisableChain(m, a, c), c))
  {
    var d := DisableChain(m, a, c);
    DisableFrame(m, a, c);
    OthersTrans(m, s, a, d, c);
    EnableFrame(m, d, c);
    OthersTrans(m, s, d, EnableChain(m, d, c), c);
  }

  lemma TurnCalm(m: Module, s: Eng, c: nat, n: nat, ev: Event)
    requires Closed(m) && Fits(m, s) && c < |m.chains| && InChain(m.chains[c], n) && n < |m.nodes| && !s.panicked
    ensures !NodeTurn(m, s, c, n, ev).s.panicked
  {
    TurnFrame(m, s, c, n, ev);
  }

  lemma {:induction false} WalkLocal(m: Module, s: Eng, t: Eng, c: nat, i: nat, ev: Event)
    requires Closed(m) && c < |m.chains| && i <= m.chains[c].count && Agree(m, s, t, c) && !s.panicked && !t.panicked
    ensures Agree(m, Walk(m, s, c, i, ev), Walk(m, t, c, i, ev), c)
    decreases m.chains[c].count - i
  {
    hide NodeTurn;
    if i < m.chains[c].count {
      var n := m.chains[c].first + i;
      var a, b := NodeTurn(m, s, c, n, ev), NodeTurn(m, t, c, n, ev);
      TurnLocal(m, s, t, c, n, ev);
      TurnCalm(m, s, c, n, ev);
      TurnCalm(m, t, c, n, ev);
      if a.Next? { WalkLocal(m, a.s, b.s, c, i + 1, ev); }
    }
  }

  lemma {:induction false} WalkFrame(m: Module, s: Eng, c: nat, i: nat, ev: Event)
    requires Closed(m) && Fits(m, s) && c < |m.chains| && i <= m.chains[c].count && !s.panicked
    ensures OthersAgree(m, s, Walk(m, s, c, i, ev), c) && SameFlags(s, Walk(m, s, c, i, ev))
    decreases m.chains[c].count - i
  {
    hide NodeTurn;
    if i < m.chains[c].count {
      var n := m.chains[c].first + i;
      TurnFrame(m, s, c, n, ev);
      var a := NodeTurn(m, s, c, n, ev);
      if a.Next? {
        WalkFrame(m, a.s, c, i + 1, ev);
        OthersTrans(m, s, a.s, Walk(m, a.s, c, i + 1, ev), c);
      }
    }
  }

  // ---- the pump --------------------------------------------------------------

  /** Chain `c` alone meets one event. */
  function SoloStep(m: Module, s: Eng, c: nat, ev: Event): (r: Eng)
    requires WellFormed(m) && Fits(m, s) && c < |m.chains|
    ensures Fits(m, r)
  {
    if s.chainEn[c] then Walk(m, s, c, 0, ev) else s
  }

  /** Chain `c` as the only chain, over a list of events. */
  function Solo(m: Module, s: Eng, c: nat, evs: seq<Event>): (r: Eng)
    requires WellFormed(m) && Fits(m, s) && c < |m.chains|
    ensures Fits(m, r)
    decreases |evs|
  {
    if evs == [] then s else Solo(m, SoloStep(m, s, c, evs[0]), c, evs[1..])
  }

  lemma SoloStepLocal(m: Module, s: Eng, t: Eng, c: nat, ev: Event)
    requires Closed(m) && c < |m.chains| && Agree(m, s, t, c) && !s.panicked && !t.panicked
    ensures Agree(m, SoloStep(m, s, c, ev), SoloStep(m, t, c, ev), c)
    ensures SameFlags(s, SoloStep(m, s, c, ev)) && SameFlags(t, SoloStep(m, t, c, ev))
  {
    if s.chainEn[c] {
      WalkLocal(m, s, t, c, 0, ev);
      WalkFrame(m, s, c, 0, ev);
      WalkFrame(m, t, c, 0, ev);
    }
  }

  lemma {:induction false} SoloLocal(m: Module, s: Eng, t: Eng, c: nat, evs: seq<Event>)
    requires Closed(m) && c < |m.chains| && Agree(m, s, t, c) && !s.panicked && !t.panicked
    ensures Agree(m, Solo(m, s, c, evs), Solo(m, t, c, evs), c)
    decreases |evs|
  {
    if evs != [] {
      SoloStepLocal(m, s, t, c, evs[0]);
      SoloLocal(m, SoloStep(m, s, c, evs[0]), SoloStep(m, t, c, evs[0]), c, evs[1..]);
    }
  }

  /** A broadcast gives each chain from `c` onwards exactly its solo step, and leaves the earlier ones. */
  lemma {:induction false} BroadcastAlone(m: Module, s: Eng, c: nat, ev: Event, d: nat)
    requires Closed(m) && Fits(m, s) && c <= |m.chains| && d < |m.chains| && !s.panicked
    ensures var t := Broadcast(m, s, c, ev);
      && Agree(m, t, if c <= d then SoloStep(m, s, d, ev) else s, d)
      && t.queue == s.queue && !t.panicked
    decreases |m.chains| - c
  {
    hide Walk;
    if c < |m.chains| {
      if !s.chainEn[c] {
        BroadcastAlone(m, s, c + 1, ev, d);
      } else {
        var s1 := s.(current := Some(c));
        var w := Walk(m, s1, c, 0, ev);
        FlagsAgree(m, s, s1);
        WalkFrame(m, s1, c, 0, ev);
        BroadcastAlone(m, w, c + 1, ev, d);
        if c == d {
          SoloStepLocal(m, s1, s, c, ev);
          AgreeTrans(m, Broadcast(m, s, c, ev), w, SoloStep(m, s, d, ev), d);
        } else {
          AgreeTrans(m, s, s1, w, d);
          AgreeSym(m, s, w, d);
          if c < d {
            SoloStepLocal(m, w, s, d, ev);
            AgreeTrans(m, Broadcast(m, s, c, ev), SoloStep(m, w, d, ev), SoloStep(m, s, d, ev), d);
          } else {
            AgreeTrans(m, Broadcast(m, s, c, ev), w, s, d);
          }
        }
      }
    }
  }

  lemma AgreeSym(m: Module, s: Eng, t: Eng, c: nat)
    requires c < |m.chains| && Agree(m, s, t, c)
    ensures Agree(m, t, s, c)
  {
    forall n: nat | InChain(m.chains[c], n) ensures SameNode(t, s, n) { assert SameNode(s, t, n); }
  }

  lemma PumpOneAlone(m: Module, s: Eng, d: nat)
    requires Closed(m) && Fits(m, s) && s.queue != [] && d < |m.chains| && !s.panicked
    ensures var t := PumpOne(m, s);
      Agree(m, t, SoloStep(m, s, d, s.queue[0]), d) && t.queue == s.queue[1..] && !t.panicked
  {
    var s1 := s.(queue := s.queue[1..]);
    var b := Broadcast(m, s1, 0, s.queue[0]);
    FlagsAgree(m, s, s1);
    BroadcastAlone(m, s1, 0, s.queue[0], d);
    FlagsAgree(m, b, b.(current := None));
    AgreeSym(m, s, s1, d);
    SoloStepLocal(m, s1, s, d, s.queue[0]);
    AgreeSym(m, b, b.(current := None), d);
    AgreeTrans(m, PumpOne(m, s), b, SoloStep(m, s1, d, s.queue[0]), d);
    AgreeTrans(m, PumpOne(m, s), SoloStep(m, s1, d, s.queue[0]), SoloStep(m, s, d, s.queue[0]), d);
  }

  lemma {:induction false} BroadcastQueue(m: Module, s: Eng, c: nat, ev: Event)
    requires Closed(m) && Fits(m, s) && c <= |m.chains| && !s.panicked
    ensures Broadcast(m, s, c, ev).queue == s.queue && !Broadcast(m, s, c, ev).panicked
    decreases |m.chains| - c
  {
    hide Walk;
    if c < |m.chains| {
      if s.chainEn[c] {
        var s1 := s.(current := Some(c));
        WalkFrame(m, s1, c, 0, ev);
        BroadcastQueue(m, Walk(m, s1, c, 0, ev), c + 1, ev);
      } else {
        BroadcastQueue(m, s, c + 1, ev);
      }
    }
  }

  /** `cfl_engine_pump`: ends because every turn takes one event and none is added. */
  ghost function Pump(m: Module, s: Eng): (r: Eng)
    requires Closed(m) && Fits(m, s) && !s.panicked
    ensures Fits(m, r) && !r.panicked && r.queue == []
    decreases |s.queue|
  {
    if s.queue == [] then s
    else
      BroadcastQueue(m, s.(queue := s.queue[1..]), 0, s.queue[0]);
      Pump(m, PumpOne(m, s))
  }

  /** The pump's loop ends after one turn per queued event, in that state. */
  lemma {:induction false} PumpEnds(m: Module, s: Eng, limit: nat)
    requires Closed(m) && Fits(m, s) && !s.panicked && limit >= |s.queue|
    ensures PumpFor(m, s, limit) == Pumped(Pump(m, s), true)
    decreases limit
  {
    hide PumpOne;
    if s.queue != [] {
      BroadcastQueue(m, s.(queue := s.queue[1..]), 0, s.queue[0]);
      NextTurn(m, s);
      PumpEnds(m, PumpOne(m, s), limit - 1);
    }
  }

  lemma NextTurn(m: Module, s: Eng)
    requires Closed(m) && Fits(m, s) && !s.panicked && s.queue != []
    ensures !PumpOne(m, s).panicked && PumpOne(m, s).queue == s.queue[1..]
  {
    BroadcastQueue(m, s.(queue := s.queue[1..]), 0, s.queue[0]);
  }

  /** For every chain and every queue, the pump leaves the chain as its own fold over the events would. */
  lemma {:induction false} ChainsStandAlone(m: Module, s: Eng, c: nat)
    requires Closed(m) && Fits(m, s) && !s.panicked && c < |m.chains|
    ensures Agree(m, Pump(m, s), Solo(m, s, c, s.queue), c)
    decreases |s.queue|
  {
    if s.queue != [] {
      var t := PumpOne(m, s);
      PumpOneAlone(m, s, c);
      ChainsStandAlone(m, t, c);
      assert !SoloStep(m, s, c, s.queue[0]).panicked by { AgreeSelf(m, s, c); SoloStepLocal(m, s, s, c, s.queue[0]); }
      SoloLocal(m, t, SoloStep(m, s, c, s.queue[0]), c, t.queue);
      AgreeTrans(m, Pump(m, s), Solo(m, t, c, t.queue), Solo(m, s, c, s.queue), c);
    } else {
      AgreeSelf(m, s, c);
    }
  }

  lemma AgreeSelf(m: Module, s: Eng, c: nat)
    requires WellFormed(m) && Fits(m, s) && c < |m.chains|
    ensures Agree(m, s, s, c)
  {}

  /** Pump turns of an execution, one per event queued, come to what the pump does. */
  lemma {:induction false} PumpTurns(m: Module, run: seq<Eng>, mem: seq<int>, ops: seq<Op>, j: nat)
    requires Closed(m) && IsRun(m, run, mem, ops) && j < |run| && Fits(m, run[j]) && !run[j].panicked
    requires j + |run[j].queue| <= |ops| && forall i :: j <= i < j + |run[j].queue| ==> ops[i].OpPump?
    ensures run[j + |run[j].queue|] == Pump(m, run[j])
    decreases |ops| - j
  {
    hide PumpOne;
    if run[j].queue != [] {
      assert StepAt(m, run, ops, j);
      NextTurn(m, run[j]);
      var next := j + 1;
      assert run[next] == PumpOne(m, run[j]);
      PumpTurns(m, run, mem, ops, next);
    }
  }

  /** So in every execution: once as many turns have passed as events were queued, each chain is as its own fold left it. */
  lemma TurnsStandAlone(m: Module, run: seq<Eng>, mem: seq<int>, ops: seq<Op>, j: nat, c: nat)
    requires Closed(m) && IsRun(m, run, mem, ops) && j < |run| && Fits(m, run[j]) && !run[j].panicked && c < |m.chains|
    requires j + |run[j].queue| <= |ops| && forall i :: j <= i < j + |run[j].queue| ==> ops[i].OpPump?
    ensures var k := j + |run[j].queue|;
      Agree(m, run[k], Solo(m, run[j], c, run[j].queue), c) && run[k].queue == [] && !run[k].panicked
  {
    PumpTurns(m, run, mem, ops, j);
    ChainsStandAlone(m, run[j], c);
  }
}
