/**
 The chain engine as the program runs it: three bit-packed bitmaps, a scratch array and an event
 ring updated in place. Every method is proved equal to the function of `CflModel` on the abstract
 state. A panic, which never returns, is the flag `panicked` with an early exit; the user
 functions' view of the outside is the length of `trace`.
 */
module CflEngine {
  import opened Options
  import opened CflModel
  import Rings

  const NO_CHAIN: nat := 0xFF

  // ---- bitmaps ---------------------------------------------------------------

  /** `1u << k` */
  function Mask(k: nat): bv8
    requires k < 8
  {
    (1 as bv8) << k
  }

  /** `(byte >> k) & 1u` */
  predicate Bit(b: bv8, k: nat)
    requires k < 8
  {
    (b >> k) & 1 == 1
  }

  /** `byte | (1u << k)` */
  function WithBit(b: bv8, k: nat): bv8
    requires k < 8
  {
    b | Mask(k)
  }

  /** `byte & ~(1u << k)` */
  function SansBit(b: bv8, k: nat): bv8
    requires k < 8
  {
    b & !Mask(k)
  }

  /** Setting a bit of a byte changes that bit and no other. */
  lemma SetByte(b: bv8, k: nat, j: nat)
    requires k < 8 && j < 8
    ensures Bit(WithBit(b, k), j) <==> j == k || Bit(b, j)
  {
    hide Bit, Mask;
    var mask := Mask(k);
    MaskBit(k, j);
    OrBit(b, mask, j);
  }

  /** So does clearing one. */
  lemma ClearByte(b: bv8, k: nat, j: nat)
    requires k < 8 && j < 8
    ensures Bit(SansBit(b, k), j) <==> j != k && Bit(b, j)
  {
    hide Bit, Mask;
    var mask := Mask(k);
    MaskBit(k, j);
    NotBit(mask, j);
    AndBit(b, !mask, j);
  }

  lemma MaskBit(k: nat, j: nat)
    requires k < 8 && j < 8
    ensures Bit(Mask(k), j) <==> j == k
  {
    assert k == 0 || k == 1 || k == 2 || k == 3 || k == 4 || k == 5 || k == 6 || k == 7;
    assert j == 0 || j == 1 || j == 2 || j == 3 || j == 4 || j == 5 || j == 6 || j == 7;
  }

  lemma OrBit(a: bv8, b: bv8, j: nat)
    requires j < 8
    ensures Bit(a | b, j) <==> Bit(a, j) || Bit(b, j)
  {
    assert j == 0 || j == 1 || j == 2 || j == 3 || j == 4 || j == 5 || j == 6 || j == 7;
  }

  lemma AndBit(a: bv8, b: bv8, j: nat)
    requires j < 8
    ensures Bit(a & b, j) <==> Bit(a, j) && Bit(b, j)
  {
    assert j == 0 || j == 1 || j == 2 || j == 3 || j == 4 || j == 5 || j == 6 || j == 7;
  }

  lemma NotBit(a: bv8, j: nat)
    requires j < 8
    ensures Bit(!a, j) <==> !Bit(a, j)
  {
    assert j == 0 || j == 1 || j == 2 || j == 3 || j == 4 || j == 5 || j == 6 || j == 7;
  }

  /** The first `n` bits of a bitmap. */
  function Bits(bytes: seq<bv8>, n: nat): (r: seq<bool>)
    requires n <= 8 * |bytes|
    ensures |r| == n
  {
    seq(n, i requires 0 <= i < n => Bit(bytes[i / 8], i % 8))
  }

  lemma BitsUpdate(bytes: seq<bv8>, n: nat, idx: nat)
    requires idx < n <= 8 * |bytes|
    ensures Bits(bytes[idx / 8 := WithBit(bytes[idx / 8], idx % 8)], n) == Bits(bytes, n)[idx := true]
    ensures Bits(bytes[idx / 8 := SansBit(bytes[idx / 8], idx % 8)], n) == Bits(bytes, n)[idx := false]
  {
    hide Bit, WithBit, SansBit;
    var k, b := idx / 8, bytes[idx / 8];
    var on, off := bytes[k := WithBit(b, idx % 8)], bytes[k := SansBit(b, idx % 8)];
    forall i | 0 <= i < n
      ensures Bits(on, n)[i] == Bits(bytes, n)[idx := true][i]
      ensures Bits(off, n)[i] == Bits(bytes, n)[idx := false][i]
    {
      if i / 8 == k {
        SetByte(b, idx % 8, i % 8);
        ClearByte(b, idx % 8, i % 8);
        assert i == idx <==> i % 8 == idx % 8;
      }
    }
  }

  method BmGet(bm: array<bv8>, idx: nat) returns (on: bool)
    requires idx < 8 * bm.Length
    ensures forall n :: idx < n <= 8 * bm.Length ==> on == Bits(bm[..], n)[idx]
  {
    hide Bit;
    on := Bit(bm[idx / 8], idx % 8);
  }

  method BmSet(bm: array<bv8>, idx: nat)
    requires idx < 8 * bm.Length
    modifies bm
    ensures forall n :: idx < n <= 8 * bm.Length ==> Bits(bm[..], n) == Bits(old(bm[..]), n)[idx := true]
  {
    hide WithBit, Bits;
    bm[idx / 8] := WithBit(bm[idx / 8], idx % 8);
    forall n | idx < n <= 8 * bm.Length
      ensures Bits(bm[..], n) == Bits(old(bm[..]), n)[idx := true]
    {
      BitsUpdate(old(bm[..]), n, idx);
      assert bm[..] == old(bm[..])[idx / 8 := WithBit(old(bm[..])[idx / 8], idx % 8)];
    }
  }

  method BmClr(bm: array<bv8>, idx: nat)
    requires idx < 8 * bm.Length
    modifies bm
    ensures forall n :: idx < n <= 8 * bm.Length ==> Bits(bm[..], n) == Bits(old(bm[..]), n)[idx := false]
  {
    hide SansBit, Bits;
    bm[idx / 8] := SansBit(bm[idx / 8], idx % 8);
    forall n | idx < n <= 8 * bm.Length
      ensures Bits(bm[..], n) == Bits(old(bm[..]), n)[idx := false]
    {
      BitsUpdate(old(bm[..]), n, idx);
      assert bm[..] == old(bm[..])[idx / 8 := SansBit(old(bm[..])[idx / 8], idx % 8)];
    }
  }

  method BmZero(bm: array<bv8>, n: nat)
    requires (n + 7) / 8 <= bm.Length
    modifies bm
    ensures Bits(bm[..], n) == seq(n, _ => false)
  {
    for i := 0 to (n + 7) / 8
      invariant forall k :: 0 <= k < i ==> bm[k] == 0
    {
      bm[i] := 0;
    }
    forall k | 0 <= k < n
      ensures !Bits(bm[..], n)[k]
    {
      ZeroBit(k % 8);
    }
  }

  lemma ZeroBit(j: nat)
    requires j < 8
    ensures !Bit(0, j)
  {
    assert j == 0 || j == 1 || j == 2 || j == 3 || j == 4 || j == 5 || j == 6 || j == 7;
  }

  function Locals(scratch: seq<nat>, mem: seq<int>): (r: seq<Local>)
    requires |scratch| == |mem|
    ensures |r| == |mem|
  {
    seq(|mem|, n requires 0 <= n < |mem| => Local(scratch[n], mem[n]))
  }

  // ---- the engine ------------------------------------------------------------

  /** The arrays of one engine do not overlap. */
  ghost predicate Apart(a: object, b: object, c: object, d: object, e: object) {
    && a != b && a != c && a != d && a != e && b != c
    && b != d && b != e && c != d && c != e && d != e
  }

  class Engine {
    const m: Module
    const chainEn: array<bv8>
    const nodeEn: array<bv8>
    const nodeInit: array<bv8>
    const scratch: array<nat>
    const ring: array<Event>
    var mem: seq<int>
    var tx: nat
    var rx: nat
    var count: nat
    var current: nat
    var panicked: bool
    var trace: seq<Mark>
    var calls: seq<Called>
    ghost var rearmed: bool

    /** The memory `cfl_engine_init` is given: right sizes, any contents. */
    ghost predicate Shaped()
      reads this
    {
      && WellFormed(m)
      && |m.chains| <= 8 * chainEn.Length && |m.nodes| <= 8 * nodeEn.Length && |m.nodes| <= 8 * nodeInit.Length
      && Apart(chainEn, nodeEn, nodeInit, scratch, ring)
      && scratch.Length == |mem| == |m.nodes|
      && ring.Length == EVENT_QUEUE_SIZE
    }

    /** Memory for a module, with whatever the user's own memory holds. */
    constructor (module_: Module, memory: seq<int>)
      requires WellFormed(module_) && |memory| == |module_.nodes|
      ensures Shaped() && m == module_ && mem == memory
      ensures fresh(chainEn) && fresh(nodeEn) && fresh(nodeInit) && fresh(scratch) && fresh(ring)
    {
      m, mem := module_, memory;
      chainEn := new bv8[(|module_.chains| + 7) / 8](_ => 0);
      nodeEn := new bv8[(|module_.nodes| + 7) / 8](_ => 0);
      nodeInit := new bv8[(|module_.nodes| + 7) / 8](_ => 0);
      scratch := new nat[|module_.nodes|](_ => 0);
      ring := new Event[EVENT_QUEUE_SIZE](_ => Tick(0));
      tx, rx, count, current, panicked, trace, calls, rearmed := 0, 0, 0, NO_CHAIN, false, [], [], false;
    }

    ghost predicate Valid()
      reads this
    {
      Shaped() && tx < EVENT_QUEUE_SIZE && count <= EVENT_QUEUE_SIZE && rx == (tx + count) % EVENT_QUEUE_SIZE
    }

    ghost function Abs(): (s: Eng)
      requires Valid()
      reads this, chainEn, nodeEn, nodeInit, scratch, ring
      ensures Fits(m, s)
    {
      Eng(Bits(chainEn[..], |m.chains|), Bits(nodeEn[..], |m.nodes|), Bits(nodeInit[..], |m.nodes|),
          Locals(scratch[..], mem), Rings.Contents(ring[..], tx, count),
          if current == NO_CHAIN then None else Some(current), panicked, rearmed, trace, calls)
    }

    /** The body of the arming loop (`on`) and of the clearing loop. */
    method PaintNode(n: nat, on: bool)
      requires Valid() && n < |m.nodes|
      modifies nodeEn, nodeInit, scratch
      ensures Valid()
      ensures Abs() == old(Abs()).(nodeEn := old(Abs()).nodeEn[n := on], nodeInit := old(Abs()).nodeInit[n := false],
                                   local := old(Abs()).local[n := old(Abs()).local[n].(scratch := 0)])
    {
      hide Bits, Rings.Contents;
      if on { BmSet(nodeEn, n); } else { BmClr(nodeEn, n); }
      BmClr(nodeInit, n);
      scratch[n] := 0;
      assert chainEn[..] == old(chainEn[..]) && ring[..] == old(ring[..]);
      assert Abs().local == old(Abs()).local[n := old(Abs()).local[n].(scratch := 0)];
    }

    method PaintChain(c: nat, on: bool)
      requires Valid() && c < |m.chains|
      modifies nodeEn, nodeInit, scratch
      ensures Valid()
      ensures var ch := m.chains[c];
        Abs() == old(Abs()).(nodeEn := Paint(old(Abs()).nodeEn, ch.first, ch.count, on),
                             nodeInit := Paint(old(Abs()).nodeInit, ch.first, ch.count, false),
                             local := Wipe(old(Abs()).local, ch.first, ch.count))
    {
      hide Bits, Rings.Contents;
      var first := m.chains[c].first;
      ghost var s0 := Abs();
      assert Paint(s0.nodeEn, first, 0, on) == s0.nodeEn && Paint(s0.nodeInit, first, 0, false) == s0.nodeInit;
      assert Wipe(s0.local, first, 0) == s0.local;
      for i := 0 to m.chains[c].count
        invariant Valid()
        invariant Abs() == s0.(nodeEn := Paint(s0.nodeEn, first, i, on), nodeInit := Paint(s0.nodeInit, first, i, false),
                               local := Wipe(s0.local, first, i))
      {
        PaintNode(first + i, on);
        assert Paint(s0.nodeEn, first, i, on)[first + i := on] == Paint(s0.nodeEn, first, i + 1, on);
        assert Paint(s0.nodeInit, first, i, false)[first + i := false] == Paint(s0.nodeInit, first, i + 1, false);
        assert Abs().local == Wipe(s0.local, first, i + 1);
      }
    }

    /** `chain_enable_internal` */
    method ChainEnableInternal(c: nat)
      requires Valid() && c < |m.chains|
      modifies this, chainEn, nodeEn, nodeInit, scratch
      ensures Valid() && mem == old(mem) && Abs() == EnableChain(m, old(Abs()), c)
    {
      rearmed := rearmed || AnyInit(Abs().nodeInit, m.chains[c].first, m.chains[c].count);
      trace := trace + [Armed(c)];
      BmSet(chainEn, c);
      PaintChain(c, true);
    }

    method ClearScratch()
      requires Shaped()
      modifies scratch
      ensures Shaped() && forall k :: 0 <= k < |m.nodes| ==> scratch[k] == 0
    {
      for i := 0 to |m.nodes|
        invariant forall k :: 0 <= k < i ==> scratch[k] == 0
      {
        scratch[i] := 0;
      }
    }

    method ClearAll()
      requires Shaped()
      modifies this, chainEn, nodeEn, nodeInit, scratch
      ensures Valid() && mem == old(mem) && Abs() == Blank(m, mem)
    {
      hide Bits;
      ClearScratch();
      rx, tx, count, current := 0, 0, 0, NO_CHAIN;
      panicked, rearmed, trace, calls := false, false, [], [];
      BmZero(chainEn, |m.chains|);
      BmZero(nodeEn, |m.nodes|);
      BmZero(nodeInit, |m.nodes|);
      assert Abs().local == Blank(m, mem).local;
    }

    /** `cfl_engine_init` */
    method EngineInit()
      requires Shaped()
      modifies this, chainEn, nodeEn, nodeInit, scratch
      ensures Valid() && mem == old(mem) && Abs() == Init(m, mem)
    {
      hide EnableChain;
      ClearAll();
      for c := 0 to |m.chains|
        invariant Valid() && mem == old(mem)
        invariant EnableAuto(m, Abs(), c) == Init(m, mem)
      {
        if m.chains[c].autoStart { ChainEnableInternal(c); }
      }
    }

    /** `node_synth_terminate` */
    method NodeSynthTerminate(n: nat)
      requires Valid() && n < |m.nodes|
      modifies this, scratch
      ensures Valid() && Abs() == SynthTerm(m, old(Abs()), n)
    {
      var on := BmGet(nodeInit, n);
      if !on { return; }
      trace := trace + [CbTerm(n)];
      var f := TermFn(m.nodes[n]);
      if f.Some? {
        var reply := m.fns[f.value](|trace|, n, Local(scratch[n], mem[n]), SigTerm);
        calls := calls + [Called(f.value, n, SigTerm, Local(scratch[n], mem[n]), |trace|)];
        SetLocal(n, reply.local);
      }
    }

    method SetLocal(n: nat, l: Local)
      requires Valid() && n < |m.nodes|
      modifies this`mem, scratch
      ensures Valid() && Abs() == old(Abs()).(local := old(Abs()).local[n := l])
    {
      hide Bits, Rings.Contents;
      scratch[n] := l.scratch;
      mem := mem[n := l.mem];
      assert chainEn[..] == old(chainEn[..]) && nodeEn[..] == old(nodeEn[..]);
      assert nodeInit[..] == old(nodeInit[..]) && ring[..] == old(ring[..]);
      assert Abs().local == old(Abs()).local[n := l];
    }

    /** `chain_disable_internal`: the TERMINATE sweep from the last node to the first, then the clearing loop. */
    method ChainDisableInternal(c: nat)
      requires Valid() && c < |m.chains|
      modifies this, chainEn, nodeEn, nodeInit, scratch
      ensures Valid() && Abs() == DisableChain(m, old(Abs()), c)
    {
      hide SynthTerm;
      var first := m.chains[c].first;
      for i := m.chains[c].count downto 0
        invariant Valid()
        invariant SweepBack(m, Abs(), first, i) == SweepBack(m, old(Abs()), first, m.chains[c].count)
      {
        NodeSynthTerminate(first + i);
      }
      ghost var s1 := Abs();
      BmClr(chainEn, c);
      trace := trace + [Disarmed(c)];
      assert Abs() == s1.(chainEn := s1.chainEn[c := false], trace := s1.trace + [Disarmed(c)]);
      PaintChain(c, false);
    }

    /** `cfl_send_event`: the slot at `rx` is written before `rx` moves. */
    method SendEvent(ev: Event)
      requires Valid()
      modifies this, ring
      ensures Valid() && Abs() == Send(old(Abs()), ev)
    {
      hide Bits, Locals, Rings.Contents;
      if count >= EVENT_QUEUE_SIZE { panicked := true; return; }
      Rings.Push(ring[..], tx, count, ev);
      ring[rx] := ev;
      assert ring[..] == old(ring[..])[rx := ev];
      assert chainEn[..] == old(chainEn[..]) && nodeEn[..] == old(nodeEn[..]);
      assert nodeInit[..] == old(nodeInit[..]) && scratch[..] == old(scratch[..]);
      rx := (rx + 1) % EVENT_QUEUE_SIZE;
      count := count + 1;
    }

    /** `queue_pop` */
    method QueuePop() returns (have: bool, ev: Event)
      requires Valid()
      modifies this
      ensures Valid() && have == (old(Abs()).queue != [])
      ensures !have ==> Abs() == old(Abs())
      ensures have ==> ev == old(Abs()).queue[0] && Abs() == old(Abs()).(queue := old(Abs()).queue[1..])
    {
      have, ev := count > 0, ring[tx];
      if have {
        Rings.Pop(ring[..], tx, count);
        tx := (tx + 1) % EVENT_QUEUE_SIZE;
        count := count - 1;
      }
    }

    /** The range check and `self_modify_guard` of the public chain calls: they panic unless it returns true. */
    method Guard(c: nat) returns (ok: bool)
      requires Valid()
      modifies this`panicked
      ensures Valid() && ok == (c < |m.chains| && old(Abs()).current != Some(c))
      ensures Abs() == if ok then old(Abs()) else old(Abs()).(panicked := true)
    {
      ok := c < |m.chains| && !(current != NO_CHAIN && current == c);
      if !ok { panicked := true; }
    }

    /** A control call: `cfl_chain_enable`, `cfl_chain_disable`, `cfl_chain_reset` or `cfl_send_event`. */
    method Control(ctl: Ctl)
      requires Valid()
      modifies this, chainEn, nodeEn, nodeInit, scratch, ring
      ensures Valid() && Abs() == CflModel.Control(m, old(Abs()), ctl)
    {
      if panicked { return; }
      match ctl
      case CtlSend(ev) => SendEvent(ev);
      case CtlEnable(c) =>
        var ok := Guard(c);
        if ok { ChainEnableInternal(c); }
      case CtlDisable(c) =>
        var ok := Guard(c);
        if ok { ChainDisableInternal(c); }
      case CtlReset(c) =>
        var ok := Guard(c);
        if ok {
          ChainDisableInternal(c);
          ChainEnableInternal(c);
        }
    }

    method RunControls(ctls: seq<Ctl>)
      requires Valid()
      modifies this, chainEn, nodeEn, nodeInit, scratch, ring
      ensures Valid() && Abs() == Controls(m, old(Abs()), ctls)
    {
      for k := 0 to |ctls|
        invariant Valid()
        invariant Controls(m, Abs(), ctls[k..]) == Controls(m, old(Abs()), ctls)
      {
        assert ctls[k..][1..] == ctls[k + 1..];
        Control(ctls[k]);
      }
    }

    /** A user function on INIT or an event. */
    method CallUser(n: nat, f: Option<nat>, sig: Signal) returns (status: Status)
      requires Valid() && n < |m.nodes| && FnOk(m, f)
      modifies this, chainEn, nodeEn, nodeInit, scratch, ring
      ensures Valid() && Outcome(Abs(), status) == Call(m, old(Abs()), n, f, sig)
    {
      if f.None? { return Continue; }
      var reply := m.fns[f.value](|trace|, n, Local(scratch[n], mem[n]), sig);
      calls := calls + [Called(f.value, n, sig, Local(scratch[n], mem[n]), |trace|)];
      SetLocal(n, reply.local);
      RunControls(reply.ctl);
      status := reply.status;
    }

    /** `node_handle` for INIT. */
    method NodeHandleInit(n: nat)
      requires Valid() && n < |m.nodes|
      modifies this, chainEn, nodeEn, nodeInit, scratch, ring
      ensures Valid() && Abs() == HandleInit(m, old(Abs()), n)
    {
      hide Bits, Rings.Contents, Call;
      var d := m.nodes[n];
      trace := trace + [CbInit(n)];
      match d.kind
      case MCall => var _ := CallUser(n, d.fn, SigInit);
      case OneShot => var _ := CallUser(n, d.fn, SigInit);
      case InitTerm => var _ := CallUser(n, d.fn, SigInit);
      case TimeDelay => SetLocal(n, Local(0, mem[n]));
      case EnableChains => RunTargets(d);
      case DisableChains => RunTargets(d);
      case _ =>
    }

    /** The loop of a control node over the chains it names. */
    method RunTargets(d: NodeDesc)
      requires Valid()
      modifies this, chainEn, nodeEn, nodeInit, scratch, ring
      ensures Valid() && Abs() == Controls(m, old(Abs()), Targets(d))
    {
      for i := 0 to |d.params|
        invariant Valid()
        invariant Controls(m, Abs(), Targets(d)[i..]) == Controls(m, old(Abs()), Targets(d))
      {
        assert Targets(d)[i..][1..] == Targets(d)[i + 1..];
        var cid := d.params[i] % 256;
        Control(if d.kind.EnableChains? then CtlEnable(cid) else CtlDisable(cid));
      }
    }

    /** `node_handle` for a queued event. */
    method NodeHandle(n: nat, ev: Event) returns (status: Status)
      requires Valid() && n < |m.nodes|
      modifies this, chainEn, nodeEn, nodeInit, scratch, ring
      ensures Valid() && Outcome(Abs(), status) == HandleEvent(m, old(Abs()), n, ev)
    {
      hide Bits, Rings.Contents, Call;
      var d := m.nodes[n];
      trace := trace + [CbEvent(n, ev)];
      match d.kind
      case Nop => status := Continue;
      case MCall => status := CallUser(n, d.fn, SigEvent(ev));
      case OneShot => status := Disable;
      case TimeDelay =>
        if ev.Tick? {
          var sum := scratch[n] + ev.data;
          if sum > SCRATCH_MAX { sum := SCRATCH_MAX; }
          SetLocal(n, Local(sum, mem[n]));
          status := if sum >= d.params[0] then Disable else Halt;
        } else {
          status := Halt;
        }
      case EnableChains => status := Disable;
      case DisableChains => status := Disable;
      case ResetSelf => status := Reset;
      case TerminateSelf => status := Terminate;
      case While =>
        if d.fn.None? { return Disable; }
        status := CallUser(n, d.fn, SigEvent(ev));
        if status.Continue? { status := Halt; }
      case Verify =>
        if d.fn.None? { return Continue; }
        status := CallUser(n, d.fn, SigEvent(ev));
        if !status.Continue? { status := Reset; }
      case InitTerm => status := Continue;
    }

    /** The loop body of `dispatch_chain`; false ends the walk. */
    method DispatchNode(c: nat, n: nat, ev: Event) returns (goOn: bool)
      requires Valid() && c < |m.chains| && n < |m.nodes| && !panicked
      modifies this, chainEn, nodeEn, nodeInit, scratch, ring
      ensures Valid() && NodeTurn(m, old(Abs()), c, n, ev) == if goOn then Next(Abs()) else Stop(Abs())
    {
      hide HandleInit, HandleEvent, DisableChain, EnableChain, SynthTerm, Bits, Rings.Contents;
      var on := BmGet(nodeEn, n);
      if !on { return true; }
      var inited := BmGet(nodeInit, n);
      if !inited {
        NodeHandleInit(n);
        if panicked { return false; }
        BmSet(nodeInit, n);
      }
      assert Abs() == if old(Abs()).nodeInit[n] then old(Abs()) else InitNode(m, old(Abs()), n);
      var status := NodeHandle(n, ev);
      if panicked { return false; }
      match status
      case Continue => goOn := true;
      case Halt => goOn := false;
      case Disable =>
        NodeSynthTerminate(n);
        PaintNode(n, false);
        goOn := true;
      case Reset =>
        ChainDisableInternal(c);
        ChainEnableInternal(c);
        goOn := false;
      case Terminate =>
        ChainDisableInternal(c);
        goOn := false;
    }

    /** `dispatch_chain` */
    method DispatchChain(c: nat, ev: Event)
      requires Valid() && c < |m.chains| && !panicked
      modifies this, chainEn, nodeEn, nodeInit, scratch, ring
      ensures Valid() && Abs() == Walk(m, old(Abs()), c, 0, ev)
    {
      for i := 0 to m.chains[c].count
        invariant Valid() && !panicked
        invariant Walk(m, Abs(), c, i, ev) == Walk(m, old(Abs()), c, 0, ev)
      {
        hide NodeTurn, Bits;
        var goOn := DispatchNode(c, m.chains[c].first + i, ev);
        if !goOn || panicked { return; }
      }
    }

    /** One turn of the pump's loop: false when the queue was empty. */
    method PumpTurn() returns (have: bool)
      requires Valid() && !panicked
      modifies this, chainEn, nodeEn, nodeInit, scratch, ring
      ensures Valid() && have == (old(Abs()).queue != [])
      ensures Abs() == if have then PumpOne(m, old(Abs())) else old(Abs())
    {
      hide Walk, Bits;
      var ev: Event;
      have, ev := QueuePop();
      if !have { return; }
      ghost var s1 := Abs();
      for c := 0 to |m.chains|
        invariant Valid() && !panicked
        invariant Broadcast(m, Abs(), c, ev) == Broadcast(m, s1, 0, ev)
      {
        var on := BmGet(chainEn, c);
        if on {
          current := c;
          DispatchChain(c, ev);
          if panicked { return; }
        }
      }
      current := NO_CHAIN;
    }

    /** `cfl_engine_pump`, for at most `limit` events: a function that queues events can keep it from ending. */
    method Pump(limit: nat) returns (ended: bool)
      requires Valid()
      modifies this, chainEn, nodeEn, nodeInit, scratch, ring
      ensures Valid() && Pumped(Abs(), ended) == PumpFor(m, old(Abs()), limit)
    {
      hide PumpOne;
      ended := false;
      var left := limit;
      while !panicked && !ended
        invariant Valid()
        invariant if ended then PumpFor(m, old(Abs()), limit) == Pumped(Abs(), true)
                  else PumpFor(m, Abs(), left) == PumpFor(m, old(Abs()), limit)
        decreases left, !ended
      {
        if left == 0 {
          ended := count == 0;
          break;
        }
        var have := PumpTurn();
        ended := !have;
        if have { left := left - 1; }
      }
    }
  }
}
