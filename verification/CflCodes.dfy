/**
 What the return codes, the node kinds and the control calls bring about, on bits, scratch words and trace.
 */
module CflCodes {
  import opened Options
  import opened CflModel
  import opened CflLife

  // ---- the states of a chain -------------------------------------------------

  /** The chain is on, every node armed, none initialized, every scratch word 0. */
  ghost predicate Ready(m: Module, s: Eng, c: nat) {
    && c < |m.chains| && Fits(m, s) && s.chainEn[c]
    && forall n: nat :: InChain(m.chains[c], n) && n < |m.nodes| ==>
         s.nodeEn[n] && !s.nodeInit[n] && s.local[n].scratch == 0
  }

  /** The chain is off, with every bit and every scratch word clear. */
  ghost predicate Off(m: Module, s: Eng, c: nat) {
    && c < |m.chains| && Fits(m, s) && !s.chainEn[c]
    && forall n: nat :: InChain(m.chains[c], n) && n < |m.nodes| ==>
         !s.nodeEn[n] && !s.nodeInit[n] && s.local[n].scratch == 0
  }

  /** Nothing of the other chains changed, nor the queue, nor what is being walked. */
  ghost predicate OthersKept(m: Module, s: Eng, t: Eng, c: nat) {
    && Fits(m, s) && Fits(m, t) && c < |m.chains|
    && t.queue == s.queue && t.current == s.current && t.panicked == s.panicked
    && (forall d :: 0 <= d < |m.chains| && d != c ==> t.chainEn[d] == s.chainEn[d])
    && forall n: nat :: n < |m.nodes| && !InChain(m.chains[c], n) ==>
         t.nodeEn[n] == s.nodeEn[n] && t.nodeInit[n] == s.nodeInit[n] && t.local[n] == s.local[n]
  }

  /** TERMINATE of the initialized nodes of a chain, last one first. */
  ghost function Sweep(m: Module, s: Eng, c: nat): seq<Mark>
    requires WellFormed(m) && Fits(m, s) && c < |m.chains|
  {
    Terms(Reverse(InitList(s.nodeInit, m.chains[c].first, m.chains[c].count)))
  }

  lemma DisableStops(m: Module, s: Eng, c: nat)
    requires WellFormed(m) && Fits(m, s) && c < |m.chains|
    ensures var t := DisableChain(m, s, c);
      Off(m, t, c) && OthersKept(m, s, t, c) && t.trace == s.trace + Sweep(m, s, c) + [Disarmed(c)]
  {
    SweepFrame(m, s, m.chains[c].first, m.chains[c].count);
  }

  lemma EnableReadies(m: Module, s: Eng, c: nat)
    requires WellFormed(m) && Fits(m, s) && c < |m.chains|
    ensures var t := EnableChain(m, s, c);
      Ready(m, t, c) && OthersKept(m, s, t, c) && t.trace == s.trace + [Armed(c)]
  {}

  lemma ResetReadies(m: Module, s: Eng, c: nat)
    requires WellFormed(m) && Fits(m, s) && c < |m.chains|
    ensures var t := EnableChain(m, DisableChain(m, s, c), c);
      Ready(m, t, c) && OthersKept(m, s, t, c) && t.trace == s.trace + Sweep(m, s, c) + [Disarmed(c), Armed(c)]
  {
    hide DisableChain, EnableChain;
    DisableStops(m, s, c);
    EnableReadies(m, DisableChain(m, s, c), c);
  }

  // ---- the five return codes -------------------------------------------------

  /** Node `n` is told and switched off; nothing else changes but what its own function did. */
  ghost predicate Dropped(m: Module, s: Eng, t: Eng, n: nat) {
    && Fits(m, s) && Fits(m, t) && n < |m.nodes|
    && !t.nodeEn[n] && !t.nodeInit[n] && t.local[n].scratch == 0
    && t.chainEn == s.chainEn && t.queue == s.queue && t.current == s.current && t.panicked == s.panicked
    && t.trace == s.trace + (if s.nodeInit[n] then [CbTerm(n)] else [])
    && forall k :: 0 <= k < |m.nodes| && k != n ==>
         t.nodeEn[k] == s.nodeEn[k] && t.nodeInit[k] == s.nodeInit[k] && t.local[k] == s.local[k]
  }

  /**
   What the answer of a visited node makes of the walk. CONTINUE: on to the next node. HALT: the walk ends, the
   chain as it is. DISABLE: exactly this node is dropped, and on. RESET: the walk ends with the chain swept and
   armed again. TERMINATE: it ends with the chain swept and off.
   */
  lemma ReturnCodes(m: Module, s: Eng, c: nat, i: nat, ev: Event) returns (d: Eng)
    requires WellFormed(m) && Fits(m, s) && c < |m.chains| && i < m.chains[c].count && !s.panicked
    requires s.nodeEn[m.chains[c].first + i] && !Visit(m, s, m.chains[c].first + i, ev).s.panicked
    ensures var n := m.chains[c].first + i;
      var o, t := Visit(m, s, n, ev), Walk(m, s, c, i, ev);
      match o.status
      case Continue => t == Walk(m, o.s, c, i + 1, ev)
      case Halt => t == o.s
      case Disable => Dropped(m, o.s, d, n) && t == Walk(m, d, c, i + 1, ev)
      case Reset =>
        Ready(m, t, c) && OthersKept(m, o.s, t, c) && t.trace == o.s.trace + Sweep(m, o.s, c) + [Disarmed(c), Armed(c)]
      case Terminate =>
        Off(m, t, c) && OthersKept(m, o.s, t, c) && t.trace == o.s.trace + Sweep(m, o.s, c) + [Disarmed(c)]
  {
    hide Visit, DisableChain, EnableChain, SynthTerm;
    var n := m.chains[c].first + i;
    var o := Visit(m, s, n, ev);
    d := DropNode(m, o.s, n);
    SynthTermFrame(m, o.s, n);
    DisableStops(m, o.s, c);
    ResetReadies(m, o.s, c);
    hide Walk;
    WalkTurns(m, s, c, i, ev);
  }

  lemma WalkTurns(m: Module, s: Eng, c: nat, i: nat, ev: Event)
    requires WellFormed(m) && Fits(m, s) && c < |m.chains| && i < m.chains[c].count && !s.panicked
    ensures var r := NodeTurn(m, s, c, m.chains[c].first + i, ev);
      Walk(m, s, c, i, ev) == if r.Next? then Walk(m, r.s, c, i + 1, ev) else r.s
  {
    hide NodeTurn;
  }

  /** A node that is not armed is passed over. */
  lemma PassesOver(m: Module, s: Eng, c: nat, i: nat, ev: Event)
    requires WellFormed(m) && Fits(m, s) && c < |m.chains| && i < m.chains[c].count && !s.panicked
    requires !s.nodeEn[m.chains[c].first + i]
    ensures Walk(m, s, c, i, ev) == Walk(m, s, c, i + 1, ev)
  {
    WalkTurns(m, s, c, i, ev);
  }

  /** The next event after a panic, and every control call, finds the engine as it was. */
  lemma PanicStops(m: Module, s: Eng, op: Op)
    requires WellFormed(m) && Fits(m, s) && s.panicked
    ensures Step(m, s, op) == s
  {}

  // ---- what the kinds answer -------------------------------------------------

  /** What the node's function answers to the event, if it has one. */
  ghost function Said(m: Module, s: Eng, n: nat, ev: Event): Status
    requires WellFormed(m) && Fits(m, s) && n < |m.nodes| && m.nodes[n].fn.Some?
  {
    m.fns[m.nodes[n].fn.value](|s.trace| + 1, n, s.local[n], SigEvent(ev)).status
  }

  /** What comes of an initialized node's visit, by kind. */
  ghost predicate Answers(m: Module, s: Eng, n: nat, ev: Event, r: Status)
    requires WellFormed(m) && Fits(m, s) && n < |m.nodes|
  {
    match m.nodes[n].kind
    case Nop => r == Continue
    case InitTerm => r == Continue
    case OneShot => r == Disable
    case EnableChains => r == Disable
    case DisableChains => r == Disable
    case ResetSelf => r == Reset
    case TerminateSelf => r == Terminate
    case TimeDelay => r == Halt || r == Disable
    case MCall => r == if m.nodes[n].fn.Some? then Said(m, s, n, ev) else Continue
    case While =>
      r == if m.nodes[n].fn.None? then Disable else if Said(m, s, n, ev) == Continue then Halt else Said(m, s, n, ev)
    case Verify => r == if m.nodes[n].fn.Some? && Said(m, s, n, ev) != Continue then Reset else Continue
  }

  lemma KindAnswers(m: Module, s: Eng, n: nat, ev: Event)
    requires WellFormed(m) && Fits(m, s) && n < |m.nodes| && s.nodeInit[n] && !s.panicked
    ensures Answers(m, s, n, ev, Visit(m, s, n, ev).status)
  {
    hide Controls;
  }

  /**
   The self-control kinds as the walk shows them: RESET_SELF, and VERIFY whose function does not answer CONTINUE,
   restart their chain; TERMINATE_SELF stops it; WHILE holds it as long as its function answers CONTINUE.
   */
  lemma SelfControl(m: Module, s: Eng, c: nat, i: nat, ev: Event)
    requires WellFormed(m) && Fits(m, s) && c < |m.chains| && i < m.chains[c].count && !s.panicked
    requires var n := m.chains[c].first + i; s.nodeEn[n] && s.nodeInit[n] && !Visit(m, s, n, ev).s.panicked
    ensures var n := m.chains[c].first + i;
      var d, t := m.nodes[n], Walk(m, s, c, i, ev);
      && (d.kind.ResetSelf? ==> Ready(m, t, c))
      && (d.kind.TerminateSelf? ==> Off(m, t, c))
      && (d.kind.Verify? && d.fn.Some? ==>
            if Said(m, s, n, ev) == Continue then t == Walk(m, Visit(m, s, n, ev).s, c, i + 1, ev) else Ready(m, t, c))
      && (d.kind.While? && d.fn.Some? && Said(m, s, n, ev) == Continue ==> t == Visit(m, s, n, ev).s)
  {
    hide Visit, Walk, Ready, Off, Dropped;
    KindAnswers(m, s, m.chains[c].first + i, ev);
    var _ := ReturnCodes(m, s, c, i, ev);
  }

  // ---- control calls ---------------------------------------------------------

  /** A call on a chain that exists and is not being walked. */
  predicate Allowed(m: Module, s: Eng, c: nat) { c < |m.chains| && s.current != Some(c) }

  /** Enable, disable and reset bring the chain to its state and touch no other; any other target panics. */
  lemma ControlDoes(m: Module, s: Eng, c: nat)
    requires WellFormed(m) && Fits(m, s) && !s.panicked
    ensures var on, off, again := Control(m, s, CtlEnable(c)), Control(m, s, CtlDisable(c)), Control(m, s, CtlReset(c));
      if Allowed(m, s, c) then
        && Ready(m, on, c) && OthersKept(m, s, on, c) && Off(m, off, c) && OthersKept(m, s, off, c)
        && Ready(m, again, c) && OthersKept(m, s, again, c)
      else on == s.(panicked := true) && off == on && again == on
  {
    hide DisableChain, EnableChain;
    if Allowed(m, s, c) {
      DisableStops(m, s, c);
      EnableReadies(m, s, c);
      ResetReadies(m, s, c);
    }
  }

  /** An event sent waits behind those sent before it; the seventeenth waiting one panics. */
  lemma SendQueues(m: Module, s: Eng, ev: Event)
    requires WellFormed(m) && Fits(m, s) && !s.panicked
    ensures var t := Control(m, s, CtlSend(ev));
      if |s.queue| < 16 then t == s.(queue := s.queue + [ev]) else t == s.(panicked := true)
  {}

  /** A chain that is ready, or off, stays so while other chains are controlled. */
  lemma {:induction false} TargetsDo(m: Module, s: Eng, ctls: seq<Ctl>, c: nat, on: bool)
    requires WellFormed(m) && Fits(m, s) && !Controls(m, s, ctls).panicked
    requires forall k :: 0 <= k < |ctls| ==> if on then ctls[k].CtlEnable? else ctls[k].CtlDisable?
    requires (if on then Ready(m, s, c) else Off(m, s, c)) || (if on then CtlEnable(c) else CtlDisable(c)) in ctls
    ensures var t := Controls(m, s, ctls); if on then Ready(m, t, c) else Off(m, t, c)
    decreases |ctls|
  {
    if ctls != [] {
      hide Control, Ready, Off;
      var u := Control(m, s, ctls[0]);
      assert forall k :: 0 <= k < |ctls[1..]| ==> ctls[1..][k] == ctls[k + 1];
      PanicLasts(m, u, ctls[1..]);
      OneTarget(m, s, ctls[0], c, on);
      assert ctls == [ctls[0]] + ctls[1..];
      TargetsDo(m, u, ctls[1..], c, on);
    }
  }

  lemma {:induction false} PanicLasts(m: Module, s: Eng, ctls: seq<Ctl>)
    requires WellFormed(m) && Fits(m, s)
    ensures s.panicked ==> Controls(m, s, ctls) == s
    decreases |ctls|
  {
    if ctls != [] && s.panicked { PanicLasts(m, s, ctls[1..]); }
  }

  lemma OneTarget(m: Module, s: Eng, ctl: Ctl, c: nat, on: bool)
    requires WellFormed(m) && Fits(m, s) && !Control(m, s, ctl).panicked
    requires if on then ctl.CtlEnable? else ctl.CtlDisable?
    ensures var t := Control(m, s, ctl);
      ctl.chain == c || (if on then Ready(m, s, c) else Off(m, s, c)) ==> if on then Ready(m, t, c) else Off(m, t, c)
  {
    hide EnableChain, DisableChain;
    var d := ctl.chain;
    if d < |m.chains| {
      if on { EnableReadies(m, s, d); } else { DisableStops(m, s, d); }
      assert c < |m.chains| && c != d ==>
        forall n: nat :: InChain(m.chains[c], n) ==> !InChain(m.chains[d], n);
    }
  }

  /** The INIT of a control node brings every chain it names to its state, or panics. */
  lemma ControlNodes(m: Module, s: Eng, n: nat, k: nat)
    requires WellFormed(m) && Fits(m, s) && n < |m.nodes| && !s.panicked && !InitNode(m, s, n).panicked
    requires (m.nodes[n].kind.EnableChains? || m.nodes[n].kind.DisableChains?) && k < |m.nodes[n].params|
    ensures var t, c := HandleInit(m, s, n), m.nodes[n].params[k] % 256;
      if m.nodes[n].kind.EnableChains? then Ready(m, t, c) else Off(m, t, c)
  {
    var d := m.nodes[n];
    var s1 := s.(trace := s.trace + [CbInit(n)]);
    assert Targets(d)[k] in Targets(d);
    TargetsDo(m, s1, Targets(d), d.params[k] % 256, d.kind.EnableChains?);
  }

  // ---- the start -------------------------------------------------------------

  lemma {:induction false} AutoStarts(m: Module, s: Eng, c: nat, d: nat)
    requires WellFormed(m) && Fits(m, s) && c <= |m.chains| && d < |m.chains|
    ensures var t := EnableAuto(m, s, c);
      && t.queue == s.queue && t.current == s.current && t.panicked == s.panicked
      && (d >= c && m.chains[d].autoStart ==> Ready(m, t, d))
      && (d < c && Ready(m, s, d) ==> Ready(m, t, d))
      && ((d < c || !m.chains[d].autoStart) && Off(m, s, d) ==> Off(m, t, d))
    decreases |m.chains| - c
  {
    hide EnableChain;
    if c < |m.chains| {
      if m.chains[c].autoStart { EnableReadies(m, s, c); }
      var u := if m.chains[c].autoStart then EnableChain(m, s, c) else s;
      assert c != d ==> forall n: nat :: InChain(m.chains[d], n) ==> !InChain(m.chains[c], n);
      AutoStarts(m, u, c + 1, d);
    }
  }

  /** After the start exactly the auto-start chains are on, nothing is queued, and nothing panicked. */
  lemma StartsAuto(m: Module, mem: seq<int>, c: nat)
    requires WellFormed(m) && |mem| == |m.nodes| && c < |m.chains|
    ensures var s := Init(m, mem);
      && (if m.chains[c].autoStart then Ready(m, s, c) else Off(m, s, c))
      && s.queue == [] && s.current == None && !s.panicked
  {
    AutoStarts(m, Blank(m, mem), 0, c);
  }

  // ---- a turn of the pump ----------------------------------------------------

  /** `seen[c - from]` is the state when chain `c` has its turn. */
  ghost predicate Offered(m: Module, ev: Event, from: nat, seen: seq<Eng>) {
    from + |seen| == |m.chains| + 1 && forall c: nat :: from <= c < |m.chains| ==> HasTurn(m, ev, from, seen, c)
  }

  /** A chain that is on is walked with the event, one that is off is passed over. */
  ghost predicate HasTurn(m: Module, ev: Event, from: nat, seen: seq<Eng>, c: nat) {
    && WellFormed(m) && from <= c < |m.chains| && c - from + 1 < |seen| && Fits(m, seen[c - from])
    && var s, t := seen[c - from], seen[c - from + 1];
       if s.panicked || !s.chainEn[c] then t == s else t == Walk(m, s.(current := Some(c)), c, 0, ev)
  }

  lemma {:induction false} OffersAll(m: Module, s: Eng, c: nat, ev: Event) returns (seen: seq<Eng>)
    requires WellFormed(m) && Fits(m, s) && c <= |m.chains|
    ensures seen != [] && Offered(m, ev, c, seen) && seen[0] == s && Broadcast(m, s, c, ev) == seen[|seen| - 1]
    decreases |m.chains| - c
  {
    hide Walk;
    if c == |m.chains| {
      seen := [s];
    } else {
      var t := if s.panicked || !s.chainEn[c] then s else Walk(m, s.(current := Some(c)), c, 0, ev);
      var next := c + 1;
      var rest := OffersAll(m, t, next, ev);
      seen := [s] + rest;
      PanicEnds(m, t, next, ev);
      forall d: nat | c <= d < |m.chains|
        ensures HasTurn(m, ev, c, seen, d)
      {
        if d > c { assert HasTurn(m, ev, next, rest, d); }
      }
    }
  }

  lemma PanicEnds(m: Module, s: Eng, c: nat, ev: Event)
    requires WellFormed(m) && Fits(m, s) && c <= |m.chains|
    ensures s.panicked ==> Broadcast(m, s, c, ev) == s
  {}

  /**
   A turn of the pump takes the oldest event and offers it to the chains in order, to each that is on when its turn
   comes, until a panic.
   */
  lemma TurnOffers(m: Module, s: Eng) returns (seen: seq<Eng>)
    requires WellFormed(m) && Fits(m, s) && !s.panicked && s.queue != []
    ensures seen != [] && Offered(m, s.queue[0], 0, seen) && seen[0] == s.(queue := s.queue[1..])
    ensures var last := seen[|seen| - 1];
      Step(m, s, OpPump) == if last.panicked then last else last.(current := None)
  {
    hide Walk, Broadcast;
    seen := OffersAll(m, s.(queue := s.queue[1..]), 0, s.queue[0]);
  }
}
