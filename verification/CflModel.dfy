/**
 The event-driven chain engine `cfl_avr/runtime/cfl_engine.c` as functions on its state: lazy
 INIT, event dispatch, the five return codes, reverse TERMINATE sweeps and chain control.
 The class in `CflEngine` is proved against these functions.
 */
module CflModel {
  import opened Options

  const EVENT_QUEUE_SIZE: nat := 16
  const SCRATCH_MAX: nat := 0xFFFF

  datatype Status = Continue | Halt | Disable | Reset | Terminate

  datatype Kind =
    | Nop | MCall | OneShot | TimeDelay | EnableChains | DisableChains
    | ResetSelf | TerminateSelf | While | Verify | InitTerm

  /** A queued event: TIME_TICK or a user event; the ids of INIT and TERMINATE are reserved. */
  datatype Event = Tick(data: nat) | User(id: nat, data: nat)

  /** What a node's handler is called with. */
  datatype Signal = SigInit | SigTerm | SigEvent(ev: Event)

  /** The state only its own node's function touches: the scratch word and private memory. */
  datatype Local = Local(scratch: nat, mem: int)

  /** Engine calls a user function may make. */
  datatype Ctl = CtlEnable(chain: nat) | CtlDisable(chain: nat) | CtlReset(chain: nat) | CtlSend(ev: Event)

  datatype Reply = Reply(status: Status, local: Local, ctl: seq<Ctl>)

  /**
   A user function sees its node, the node's state and the signal. The leading argument is the length
   of the trace when it is called: an arbitrary dependence on it stands for shared globals and inputs.
   */
  type UserFn = (nat, nat, Local, Signal) -> Reply

  /** `fn` and `fn2` are None for CFL_FN_NONE; `params` is the node's slice of the parameter pool. */
  datatype NodeDesc = NodeDesc(kind: Kind, fn: Option<nat>, fn2: Option<nat>, params: seq<nat>)

  datatype ChainDesc = ChainDesc(first: nat, count: nat, autoStart: bool)

  datatype Module = Module(chains: seq<ChainDesc>, nodes: seq<NodeDesc>, fns: seq<UserFn>)

  predicate FnOk(m: Module, f: Option<nat>) { f.Some? ==> f.value < |m.fns| }

  predicate InChain(ch: ChainDesc, n: nat) { ch.first <= n < ch.first + ch.count }

  /** Chains own disjoint node ranges, table references are in range, and TERMINATE callbacks control nothing. */
  ghost predicate WellFormed(m: Module) {
    && |m.chains| < 0xFF && |m.nodes| <= 0xFF
    && (forall c :: 0 <= c < |m.chains| ==> m.chains[c].first + m.chains[c].count <= |m.nodes|)
    && (forall c, d, n :: 0 <= c < d < |m.chains| && InChain(m.chains[c], n) ==> !InChain(m.chains[d], n))
    && (forall n :: 0 <= n < |m.nodes| ==> FnOk(m, m.nodes[n].fn) && FnOk(m, m.nodes[n].fn2))
    && (forall n :: 0 <= n < |m.nodes| && m.nodes[n].kind.TimeDelay? ==>
          |m.nodes[n].params| > 0 && m.nodes[n].params[0] <= SCRATCH_MAX)
    && (forall f, t, n, l :: 0 <= f < |m.fns| ==> m.fns[f](t, n, l, SigTerm).ctl == [])
  }

  /** Callbacks in the order they fired, with the moments a chain's enable bit was set and cleared. */
  datatype Mark =
    | CbInit(node: nat) | CbEvent(node: nat, ev: Event) | CbTerm(node: nat)
    | Armed(chain: nat) | Disarmed(chain: nat)

  /** A call of user function `fn` for `node`, given the node's state, when the trace had `at` marks. */
  datatype Called = Called(fn: nat, node: nat, sig: Signal, given: Local, at: nat)

  /**
   `rearmed`, `trace` and `calls` are history: an enable was applied to a chain with a node initialized, what
   happened to nodes and chains, and the user functions really called.
   */
  datatype Eng = Eng(
    chainEn: seq<bool>, nodeEn: seq<bool>, nodeInit: seq<bool>, local: seq<Local>,
    queue: seq<Event>, current: Option<nat>, panicked: bool, rearmed: bool, trace: seq<Mark>, calls: seq<Called>)

  ghost predicate Fits(m: Module, s: Eng) {
    var sized := && |s.chainEn| == |m.chains|
                 && |s.nodeEn| == |m.nodes| && |s.nodeInit| == |m.nodes| && |s.local| == |m.nodes|;
    sized
  }

  // ---- TERMINATE -------------------------------------------------------------

  /** The user function a kind calls on TERMINATE. */
  function TermFn(d: NodeDesc): Option<nat> {
    if d.kind.MCall? then d.fn else if d.kind.InitTerm? then d.fn2 else None
  }

  /** `node_synth_terminate`: gated by the initialized bit. */
  function SynthTerm(m: Module, s: Eng, n: nat): (r: Eng)
    requires WellFormed(m) && Fits(m, s) && n < |m.nodes|
    ensures Fits(m, r)
  {
    if !s.nodeInit[n] then s
    else
      var f := TermFn(m.nodes[n]);
      var s1 := s.(trace := s.trace + [CbTerm(n)]);
      if f.None? then s1
      else s1.(local := s.local[n := m.fns[f.value](|s1.trace|, n, s.local[n], SigTerm).local],
               calls := s.calls + [Called(f.value, n, SigTerm, s.local[n], |s1.trace|)])
  }

  /** The sweep over the first `k` nodes of a chain, last to first. */
  function SweepBack(m: Module, s: Eng, first: nat, k: nat): (r: Eng)
    requires WellFormed(m) && Fits(m, s) && first + k <= |m.nodes|
    ensures Fits(m, r)
    decreases k
  {
    if k == 0 then s else SweepBack(m, SynthTerm(m, s, first + k - 1), first, k - 1)
  }

  /** Bits and scratch of a node range, set alike. */
  function Paint<T>(xs: seq<T>, first: nat, count: nat, v: T): (r: seq<T>)
    requires first + count <= |xs|
    ensures |r| == |xs|
    ensures forall n :: 0 <= n < |xs| ==> r[n] == if first <= n < first + count then v else xs[n]
  {
    seq(|xs|, n requires 0 <= n < |xs| => if first <= n < first + count then v else xs[n])
  }

  /** Scratch words of a node range zeroed; private memory is the user's. */
  function Wipe(ls: seq<Local>, first: nat, count: nat): (r: seq<Local>)
    requires first + count <= |ls|
    ensures |r| == |ls|
    ensures forall n :: 0 <= n < |ls| ==> r[n] == if first <= n < first + count then ls[n].(scratch := 0) else ls[n]
  {
    seq(|ls|, n requires 0 <= n < |ls| => if first <= n < first + count then ls[n].(scratch := 0) else ls[n])
  }

  /** `chain_disable_internal` */
  function DisableChain(m: Module, s: Eng, c: nat): (r: Eng)
    requires WellFormed(m) && Fits(m, s) && c < |m.chains|
    ensures Fits(m, r)
  {
    var ch := m.chains[c];
    var t := SweepBack(m, s, ch.first, ch.count);
    t.(chainEn := t.chainEn[c := false],
       nodeEn := Paint(t.nodeEn, ch.first, ch.count, false),
       nodeInit := Paint(t.nodeInit, ch.first, ch.count, false),
       local := Wipe(t.local, ch.first, ch.count),
       trace := t.trace + [Disarmed(c)])
  }

  predicate AnyInit(init: seq<bool>, first: nat, count: nat)
    requires first + count <= |init|
  {
    exists n :: first <= n < first + count && init[n]
  }

  /** `chain_enable_internal`: arms every node; INIT comes lazily. */
  function EnableChain(m: Module, s: Eng, c: nat): (r: Eng)
    requires WellFormed(m) && Fits(m, s) && c < |m.chains|
    ensures Fits(m, r)
  {
    var ch := m.chains[c];
    s.(chainEn := s.chainEn[c := true],
       nodeEn := Paint(s.nodeEn, ch.first, ch.count, true),
       nodeInit := Paint(s.nodeInit, ch.first, ch.count, false),
       local := Wipe(s.local, ch.first, ch.count),
       rearmed := s.rearmed || AnyInit(s.nodeInit, ch.first, ch.count),
       trace := s.trace + [Armed(c)])
  }

  // ---- control calls ---------------------------------------------------------

  /** `cfl_send_event`: a full queue panics. */
  function Send(s: Eng, ev: Event): Eng {
    if |s.queue| >= EVENT_QUEUE_SIZE then s.(panicked := true) else s.(queue := s.queue + [ev])
  }

  /** A control call from outside or from a callback; on the chain being walked, or out of range, it panics. */
  function Control(m: Module, s: Eng, ctl: Ctl): (r: Eng)
    requires WellFormed(m) && Fits(m, s)
    ensures Fits(m, r)
  {
    if s.panicked then s
    else match ctl
      case CtlSend(ev) => Send(s, ev)
      case CtlEnable(c) => if c >= |m.chains| || s.current == Some(c) then s.(panicked := true) else EnableChain(m, s, c)
      case CtlDisable(c) => if c >= |m.chains| || s.current == Some(c) then s.(panicked := true) else DisableChain(m, s, c)
      case CtlReset(c) =>
        if c >= |m.chains| || s.current == Some(c) then s.(panicked := true)
        else EnableChain(m, DisableChain(m, s, c), c)
  }

  function Controls(m: Module, s: Eng, ctls: seq<Ctl>): (r: Eng)
    requires WellFormed(m) && Fits(m, s)
    ensures Fits(m, r)
    decreases |ctls|
  {
    if ctls == [] then s else Controls(m, Control(m, s, ctls[0]), ctls[1..])
  }

  // ---- INIT and events -------------------------------------------------------

  datatype Outcome = Outcome(s: Eng, status: Status)

  /** A user function called on INIT or an event, with the control calls it makes. */
  function Call(m: Module, s: Eng, n: nat, f: Option<nat>, sig: Signal): (r: Outcome)
    requires WellFormed(m) && Fits(m, s) && n < |m.nodes| && FnOk(m, f)
    ensures Fits(m, r.s)
  {
    if f.None? then Outcome(s, Continue)
    else
      var reply := m.fns[f.value](|s.trace|, n, s.local[n], sig);
      var s1 := s.(local := s.local[n := reply.local], calls := s.calls + [Called(f.value, n, sig, s.local[n], |s.trace|)]);
      Outcome(Controls(m, s1, reply.ctl), reply.status)
  }

  /** Chain ids a control node names; the parameter is cut to a byte. */
  function Targets(d: NodeDesc): (r: seq<Ctl>)
    ensures |r| == |d.params|
  {
    seq(|d.params|, i requires 0 <= i < |d.params| =>
      if d.kind.EnableChains? then CtlEnable(d.params[i] % 256) else CtlDisable(d.params[i] % 256))
  }

  /** `node_handle` for INIT; the return value is ignored. */
  function HandleInit(m: Module, s: Eng, n: nat): (r: Eng)
    requires WellFormed(m) && Fits(m, s) && n < |m.nodes|
    ensures Fits(m, r)
  {
    var d := m.nodes[n];
    var s1 := s.(trace := s.trace + [CbInit(n)]);
    match d.kind
    case MCall => Call(m, s1, n, d.fn, SigInit).s
    case OneShot => Call(m, s1, n, d.fn, SigInit).s
    case InitTerm => Call(m, s1, n, d.fn, SigInit).s
    case TimeDelay => s1.(local := s.local[n := s.local[n].(scratch := 0)])
    case EnableChains => Controls(m, s1, Targets(d))
    case DisableChains => Controls(m, s1, Targets(d))
    case _ => s1
  }

  /** INIT and the initialized bit, which is set only after the handler returned. */
  function InitNode(m: Module, s: Eng, n: nat): (r: Eng)
    requires WellFormed(m) && Fits(m, s) && n < |m.nodes|
    ensures Fits(m, r)
  {
    var t := HandleInit(m, s, n);
    if t.panicked then t else t.(nodeInit := t.nodeInit[n := true])
  }

  function Saturate(x: nat): nat { if x > SCRATCH_MAX then SCRATCH_MAX else x }

  /** `node_handle` for a queued event. */
  function HandleEvent(m: Module, s: Eng, n: nat, ev: Event): (r: Outcome)
    requires WellFormed(m) && Fits(m, s) && n < |m.nodes|
    ensures Fits(m, r.s)
  {
    var d := m.nodes[n];
    var s1 := s.(trace := s.trace + [CbEvent(n, ev)]);
    match d.kind
    case Nop => Outcome(s1, Continue)
    case MCall => Call(m, s1, n, d.fn, SigEvent(ev))
    case OneShot => Outcome(s1, Disable)
    case TimeDelay =>
      if ev.Tick? then
        var sum := Saturate(s.local[n].scratch + ev.data);
        Outcome(s1.(local := s.local[n := s.local[n].(scratch := sum)]), if sum >= d.params[0] then Disable else Halt)
      else Outcome(s1, Halt)
    case EnableChains => Outcome(s1, Disable)
    case DisableChains => Outcome(s1, Disable)
    case ResetSelf => Outcome(s1, Reset)
    case TerminateSelf => Outcome(s1, Terminate)
    case While =>
      if d.fn.None? then Outcome(s1, Disable)
      else
        var r := Call(m, s1, n, d.fn, SigEvent(ev));
        if r.status.Continue? then Outcome(r.s, Halt) else r
    case Verify =>
      if d.fn.None? then Outcome(s1, Continue)
      else
        var r := Call(m, s1, n, d.fn, SigEvent(ev));
        if r.status.Continue? then r else Outcome(r.s, Reset)
    case InitTerm => Outcome(s1, Continue)
  }

  /** DISABLE: TERMINATE while the bits are still set, then clear them. */
  function DropNode(m: Module, s: Eng, n: nat): (r: Eng)
    requires WellFormed(m) && Fits(m, s) && n < |m.nodes|
    ensures Fits(m, r)
  {
    var t := SynthTerm(m, s, n);
    t.(nodeEn := t.nodeEn[n := false], nodeInit := t.nodeInit[n := false], local := t.local[n := t.local[n].(scratch := 0)])
  }

  /** An enabled node meets an event: lazy INIT if it is due, then the event. */
  function Visit(m: Module, s: Eng, n: nat, ev: Event): (r: Outcome)
    requires WellFormed(m) && Fits(m, s) && n < |m.nodes|
    ensures Fits(m, r.s)
  {
    var s1 := if s.nodeInit[n] then s else InitNode(m, s, n);
    if s1.panicked then Outcome(s1, Halt) else HandleEvent(m, s1, n, ev)
  }

  /** How the dispatch loop leaves a node: on to the next one, or out of the chain. */
  datatype Turn = Next(s: Eng) | Stop(s: Eng)

  /** The dispatch loop's body: skip, visit, act on the return code. */
  function NodeTurn(m: Module, s: Eng, c: nat, n: nat, ev: Event): (r: Turn)
    requires WellFormed(m) && Fits(m, s) && c < |m.chains| && n < |m.nodes|
    ensures Fits(m, r.s)
  {
    if !s.nodeEn[n] then Next(s)
    else
      var o := Visit(m, s, n, ev);
      if o.s.panicked then Stop(o.s)
      else match o.status
        case Continue => Next(o.s)
        case Halt => Stop(o.s)
        case Disable => Next(DropNode(m, o.s, n))
        case Reset => Stop(EnableChain(m, DisableChain(m, o.s, c), c))
        case Terminate => Stop(DisableChain(m, o.s, c))
  }

  /** `dispatch_chain` from node offset `i`. */
  function Walk(m: Module, s: Eng, c: nat, i: nat, ev: Event): (r: Eng)
    requires WellFormed(m) && Fits(m, s) && c < |m.chains| && i <= m.chains[c].count
    ensures Fits(m, r)
    decreases m.chains[c].count - i
  {
    if s.panicked || i == m.chains[c].count then s
    else match NodeTurn(m, s, c, m.chains[c].first + i, ev)
      case Next(t) => Walk(m, t, c, i + 1, ev)
      case Stop(t) => t
  }

  /** One event offered to chains `c` onwards. */
  function Broadcast(m: Module, s: Eng, c: nat, ev: Event): (r: Eng)
    requires WellFormed(m) && Fits(m, s) && c <= |m.chains|
    ensures Fits(m, r)
    decreases |m.chains| - c
  {
    if s.panicked || c == |m.chains| then s
    else if !s.chainEn[c] then Broadcast(m, s, c + 1, ev)
    else Broadcast(m, Walk(m, s.(current := Some(c)), c, 0, ev), c + 1, ev)
  }

  /** One turn of the pump's loop. */
  function PumpOne(m: Module, s: Eng): (r: Eng)
    requires WellFormed(m) && Fits(m, s) && s.queue != []
    ensures Fits(m, r)
  {
    var t := Broadcast(m, s.(queue := s.queue[1..]), 0, s.queue[0]);
    if t.panicked then t else t.(current := None)
  }

  /** What a bounded run of the pump's loop came to; it has not ended while events are queued, or after a panic. */
  datatype Pumped = Pumped(s: Eng, ended: bool)

  /** `cfl_engine_pump`, for at most `limit` events. */
  function PumpFor(m: Module, s: Eng, limit: nat): (r: Pumped)
    requires WellFormed(m) && Fits(m, s)
    ensures Fits(m, r.s)
    decreases limit
  {
    if s.panicked then Pumped(s, false)
    else if s.queue == [] then Pumped(s, true)
    else if limit == 0 then Pumped(s, false)
    else PumpFor(m, PumpOne(m, s), limit - 1)
  }

  function EnableAuto(m: Module, s: Eng, c: nat): (r: Eng)
    requires WellFormed(m) && Fits(m, s) && c <= |m.chains|
    ensures Fits(m, r)
    decreases |m.chains| - c
  {
    if c == |m.chains| then s
    else EnableAuto(m, if m.chains[c].autoStart then EnableChain(m, s, c) else s, c + 1)
  }

  function Blank(m: Module, mem: seq<int>): (s: Eng)
    requires |mem| == |m.nodes|
    ensures Fits(m, s)
  {
    Eng(seq(|m.chains|, _ => false), seq(|m.nodes|, _ => false), seq(|m.nodes|, _ => false),
        seq(|m.nodes|, n requires 0 <= n < |m.nodes| => Local(0, mem[n])), [], None, false, false, [], [])
  }

  /** `cfl_engine_init`; the user's own memory is whatever it was. */
  function Init(m: Module, mem: seq<int>): (s: Eng)
    requires WellFormed(m) && |mem| == |m.nodes|
    ensures Fits(m, s)
  {
    EnableAuto(m, Blank(m, mem), 0)
  }

  // ---- runs ------------------------------------------------------------------

  /** Main-context calls between pump turns. */
  datatype Op = OpControl(ctl: Ctl) | OpPump

  function Step(m: Module, s: Eng, op: Op): (r: Eng)
    requires WellFormed(m) && Fits(m, s)
    ensures Fits(m, r)
  {
    match op
    case OpControl(ctl) => Control(m, s, ctl)
    case OpPump => if s.panicked || s.queue == [] then s else PumpOne(m, s)
  }

  /** The `k`-th call of an execution. */
  ghost predicate StepAt(m: Module, run: seq<Eng>, ops: seq<Op>, k: nat) {
    && WellFormed(m) && k < |ops| && k + 1 < |run| && Fits(m, run[k])
    && run[k + 1] == Step(m, run[k], ops[k])
  }

  /** An execution: the states between main-context calls, from `cfl_engine_init`. */
  ghost predicate IsRun(m: Module, run: seq<Eng>, mem: seq<int>, ops: seq<Op>) {
    && WellFormed(m) && |mem| == |m.nodes| && |run| == |ops| + 1 && run[0] == Init(m, mem)
    && forall k :: 0 <= k < |ops| ==> StepAt(m, run, ops, k)
  }

  /** Any list of calls can be executed on any well-formed module. */
  lemma {:induction false} RunExists(m: Module, mem: seq<int>, ops: seq<Op>) returns (run: seq<Eng>)
    requires WellFormed(m) && |mem| == |m.nodes|
    ensures IsRun(m, run, mem, ops) && Fits(m, run[|ops|])
  {
    if ops == [] {
      run := [Init(m, mem)];
    } else {
      var n := |ops| - 1;
      var before := RunExists(m, mem, ops[..n]);
      run := before + [Step(m, before[n], ops[n])];
      forall k | 0 <= k < |ops|
        ensures StepAt(m, run, ops, k)
      {
        if k < n { assert StepAt(m, before, ops[..n], k); }
      }
    }
  }
}
