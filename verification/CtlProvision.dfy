/**
 Roster provisioning in `linux/bus_controller/controller.c`: a chain of bus commands, each sent when
 the reply to the one before arrives. The reply handler does not look at the request id, so the chain
 is exactly as promised only if it is never restarted with a reply outstanding.
 */
module CtlProvision {

  datatype Prov = PIdle | PClear | PRegister | PSetPoll | PList | PDone | PFail

  /** A `CMD_BUS_*` command with what identifies it. */
  datatype Cmd = Clear | Register(slave: nat) | SetPoll | List

  /** A command under the request id the demux gave it. */
  datatype Req = Req(cmd: Cmd, id: nat)

  /** The provisioning traffic; a reply is recorded with the request it answers. `Foreign`: no bus controller was found. */
  datatype Ev = Sent(req: Req) | Answered(req: Req, status: nat, total: nat) | Foreign

  datatype Roster = Roster(count: nat, pollSet: bool)

  /** `out`: requests whose replies are still to come, from this chain or an earlier one. `log`: since the last restart. */
  datatype State = State(
    prov: Prov, idx: nat, total: nat, have: bool, roster: Roster, out: seq<Req>, nextId: nat, log: seq<Ev>)

  const FRESH := State(PIdle, 0, 0, false, Roster(0, false), [], 1, [])

  /** The demux registers the request if the link takes it; otherwise no reply will come. */
  function Transmit(s: State, c: Cmd, accept: bool): State {
    var req := Req(c, s.nextId);
    if accept then s.(out := s.out + [req], nextId := s.nextId + 1, log := s.log + [Sent(req)]) else s
  }

  /** `prov_after_slaves` */
  function AfterSlaves(s: State, accept: bool): State {
    if s.roster.pollSet then Transmit(s.(prov := PSetPoll), SetPoll, accept) else Transmit(s.(prov := PList), List, accept)
  }

  /** `prov_start` */
  function Start(s: State, accept: bool): State {
    Transmit(s.(prov := PClear, idx := 0, total := 0, log := []), Clear, accept)
  }

  /** `on_prov_reply`; `total` is the first result byte, 0 if there is none. */
  function OnReply(s: State, status: nat, total: nat, accept: bool): State {
    if status != 0 then s.(prov := PFail)
    else match s.prov
      case PClear =>
        if s.roster.count > 0 then Transmit(s.(prov := PRegister, idx := 0), Register(0), accept)
        else AfterSlaves(s, accept)
      case PRegister =>
        var s1 := s.(idx := s.idx + 1);
        if s1.idx < s.roster.count then Transmit(s1, Register(s1.idx), accept) else AfterSlaves(s1, accept)
      case PSetPoll => Transmit(s.(prov := PList), List, accept)
      case PList => s.(total := total, prov := if total >= s.roster.count then PDone else PFail)
      case _ => s
  }

  datatype Op =
    | Poll(ready: bool, isBusController: bool, accept: bool)
    | Reply(which: nat, status: nat, total: nat, accept: bool)
    | Resync
    | Attach(roster: Roster)
    | Detach

  function Step(s: State, op: Op): State {
    match op
    case Poll(ready, isBc, accept) =>
      if !(s.have && s.prov.PIdle? && ready) then s
      else if isBc then Start(s, accept) else s.(prov := PFail, log := s.log + [Foreign])
    case Reply(which, status, total, accept) =>
      if which >= |s.out| then s
      else
        OnReply(s.(out := s.out[..which] + s.out[which + 1..], log := s.log + [Answered(s.out[which], status, total)]),
                status, total, accept)
    case Resync => s.(prov := PIdle, idx := 0, total := 0, log := [])
    case Attach(roster) => s.(prov := PIdle, idx := 0, total := 0, have := true, roster := roster, log := [])
    case Detach => s.(prov := PIdle, idx := 0, total := 0, have := false, roster := Roster(0, false), log := [])
  }

  function Run(s: State, ops: seq<Op>): State
    decreases |ops|
  {
    if ops == [] then s else Step(Run(s, ops[..|ops| - 1]), ops[|ops| - 1])
  }

  // ---- the promise -----------------------------------------------------------

  function Registers(n: nat): (r: seq<Cmd>)
    ensures |r| == n && forall i :: 0 <= i < n ==> r[i] == Register(i)
  {
    seq(n, i requires 0 <= i < n => Register(i))
  }

  /** The commands of a chain: clear, one registration per slave in order, polling if configured, read-back. */
  function Script(r: Roster): seq<Cmd> {
    [Clear] + Registers(r.count) + (if r.pollSet then [SetPoll] else []) + [List]
  }

  /** Every command sent and answered with status 0 before the next is sent. */
  ghost predicate Dialogue(log: seq<Ev>, cmds: seq<Cmd>)
  {
    |log| == 2 * |cmds| && forall i :: 0 <= i < |cmds| ==> Exchange(log, i, cmds[i])
  }

  ghost predicate Exchange(log: seq<Ev>, i: nat, c: Cmd) {
    && 2 * i + 1 < |log| && log[2 * i].Sent? && log[2 * i].req.cmd == c
    && log[2 * i + 1].Answered? && log[2 * i + 1].req == log[2 * i].req && log[2 * i + 1].status == 0
  }

  /** The chain was carried out, and the bus controller reported at least as many slaves as the roster has. */
  ghost predicate Provisioned(s: State) {
    && Dialogue(s.log, Script(s.roster)) && s.total >= s.roster.count
    && s.log[|s.log| - 1].Answered? && s.log[|s.log| - 1].total == s.total
  }

  /** The read-back counted fewer slaves than the roster has, a command was refused, or there is no bus controller. */
  ghost predicate Failed(s: State) {
    s.log != [] &&
    match s.log[|s.log| - 1]
    case Foreign => true
    case Answered(_, status, total) => status != 0 || (Dialogue(s.log, Script(s.roster)) && total < s.roster.count)
    case Sent(_) => false
  }

  /** Where in the script a state of the chain stands. */
  function Place(s: State): nat {
    match s.prov
    case PClear => 0
    case PRegister => 1 + s.idx
    case PSetPoll => 1 + s.roster.count
    case PList => |Script(s.roster)| - 1
    case _ => 0
  }

  predicate Chaining(p: Prov) { p.PClear? || p.PRegister? || p.PSetPoll? || p.PList? }

  /** The chain is at a place of the script. */
  predicate Placed(s: State) {
    Chaining(s.prov) && (s.prov.PRegister? ==> s.idx < s.roster.count) && (s.prov.PSetPoll? ==> s.roster.pollSet)
  }

  /** At most the chain's own current command is outstanding, and everything before it was exchanged. */
  ghost predicate InStep(s: State) {
    (forall i :: 0 <= i < |s.out| ==> s.out[i].id < s.nextId) &&
    if Chaining(s.prov) then
      && Placed(s) && Place(s) < |Script(s.roster)|
      && |s.out| <= 1 && (s.out != [] ==> s.out[0].cmd == Script(s.roster)[Place(s)])
      && |s.log| == 2 * Place(s) + |s.out|
      && (forall i :: 0 <= i < Place(s) ==> Exchange(s.log, i, Script(s.roster)[i]))
      && (s.out != [] ==> s.log[|s.log| - 1] == Sent(s.out[0]))
    else
      && s.out == [] && (s.prov.PIdle? ==> s.log == []) && (s.prov.PDone? ==> Provisioned(s))
      && (s.prov.PFail? ==> Failed(s))
  }

  /** Nothing restarts the chain while a reply is outstanding. */
  ghost predicate Calm(s: State, op: Op) {
    op.Resync? || op.Attach? || op.Detach? ==> s.out == []
  }

  /** Sending the script's next command keeps in step. */
  lemma Advance(t: State, accept: bool)
    requires Placed(t) && t.out == [] && Place(t) < |Script(t.roster)|
    requires |t.log| == 2 * Place(t) && forall i :: 0 <= i < Place(t) ==> Exchange(t.log, i, Script(t.roster)[i])
    ensures InStep(Transmit(t, Script(t.roster)[Place(t)], accept))
  {
    var u := Transmit(t, Script(t.roster)[Place(t)], accept);
    forall i | 0 <= i < Place(t)
      ensures Exchange(u.log, i, Script(t.roster)[i])
    {
      assert Exchange(t.log, i, Script(t.roster)[i]);
    }
  }

  /** A good reply completes the current exchange. */
  lemma Exchanged(s: State, total: nat)
    requires InStep(s) && s.out != []
    ensures var log := s.log + [Answered(s.out[0], 0, total)];
      && Chaining(s.prov) && |log| == 2 * (Place(s) + 1)
      && forall i :: 0 <= i < Place(s) + 1 ==> Exchange(log, i, Script(s.roster)[i])
  {
    var log := s.log + [Answered(s.out[0], 0, total)];
    forall i | 0 <= i < Place(s) + 1
      ensures Exchange(log, i, Script(s.roster)[i])
    {
      if i < Place(s) { assert Exchange(s.log, i, Script(s.roster)[i]); } else { assert log[2 * i] == s.log[|s.log| - 1]; }
    }
  }

  /** The script by position. */
  lemma ScriptAt(r: Roster)
    ensures var cmds := Script(r);
      && |cmds| == r.count + (if r.pollSet then 3 else 2) && cmds[0] == Clear && cmds[|cmds| - 1] == List
      && (r.pollSet ==> cmds[1 + r.count] == SetPoll) && forall i :: 0 <= i < r.count ==> cmds[1 + i] == Register(i)
  {
    var cmds, regs := Script(r), Registers(r.count);
    var tail := (if r.pollSet then [SetPoll] else []) + [List];
    assert cmds == [Clear] + (regs + tail);
    forall i | 0 <= i < r.count
      ensures cmds[1 + i] == Register(i)
    {
      assert (regs + tail)[i] == regs[i];
    }
    assert (regs + tail)[r.count] == tail[0];
  }

  /** A good reply with nothing else outstanding. */
  lemma GoodReply(t: State, total: nat, accept: bool)
    requires Placed(t) && t.out == [] && |t.log| == 2 * (Place(t) + 1)
    requires forall i :: 0 <= i < Place(t) + 1 ==> Exchange(t.log, i, Script(t.roster)[i])
    requires t.log[|t.log| - 1].Answered? && t.log[|t.log| - 1].total == total
    ensures InStep(OnReply(t, 0, total, accept))
  {
    hide InStep, Exchange, Script;
    ScriptAt(t.roster);
    match t.prov {
      case PClear =>
        if t.roster.count > 0 { Advance(t.(prov := PRegister, idx := 0), accept); } else { EndOfSlaves(t, accept); }
      case PRegister =>
        var u := t.(idx := t.idx + 1);
        if u.idx < t.roster.count { Advance(u, accept); } else { EndOfSlaves(u, accept); }
      case PSetPoll => Advance(t.(prov := PList), accept);
      case PList => Finishes(t.(total := total, prov := if total >= t.roster.count then PDone else PFail));
    }
  }

  lemma ReplyKeeps(s: State, status: nat, total: nat, accept: bool)
    requires InStep(s) && s.out != []
    ensures InStep(Step(s, Reply(0, status, total, accept)))
  {
    var t := s.(out := [], log := s.log + [Answered(s.out[0], status, total)]);
    assert s.out[..0] + s.out[1..] == [];
    if status == 0 {
      Exchanged(s, total);
      GoodReply(t, total, accept);
    }
  }

  lemma Finishes(t: State)
    requires t.out == [] && if t.total >= t.roster.count then t.prov.PDone? else t.prov.PFail?
    requires |t.log| == 2 * |Script(t.roster)| && t.log[|t.log| - 1].Answered? && t.log[|t.log| - 1].total == t.total
    requires forall i :: 0 <= i < |Script(t.roster)| ==> Exchange(t.log, i, Script(t.roster)[i])
    ensures InStep(t)
  {}

  lemma EndOfSlaves(t: State, accept: bool)
    requires t.out == [] && |t.log| == 2 * (1 + t.roster.count)
    requires forall i :: 0 <= i < 1 + t.roster.count ==> Exchange(t.log, i, Script(t.roster)[i])
    ensures InStep(AfterSlaves(t, accept))
  {
    if t.roster.pollSet { Advance(t.(prov := PSetPoll), accept); } else { Advance(t.(prov := PList), accept); }
  }

  lemma StepKeeps(s: State, op: Op)
    requires InStep(s) && Calm(s, op)
    ensures InStep(Step(s, op))
  {
    match op
    case Poll(ready, isBc, accept) =>
      if s.have && s.prov.PIdle? && ready && isBc { Advance(s.(prov := PClear, idx := 0, total := 0, log := []), accept); }
    case Reply(which, status, total, accept) => if which < |s.out| { ReplyKeeps(s, status, total, accept); }
    case _ =>
  }

  ghost predicate CalmFrom(s: State, ops: seq<Op>) {
    forall k :: 0 <= k < |ops| ==> Calm(Run(s, ops[..k]), ops[k])
  }

  lemma {:induction false} CalmRunFrom(s: State, ops: seq<Op>)
    requires InStep(s) && CalmFrom(s, ops)
    ensures InStep(Run(s, ops))
    decreases |ops|
  {
    if ops != [] {
      var n := |ops| - 1;
      forall k | 0 <= k < n ensures Calm(Run(s, ops[..n][..k]), ops[..n][k]) { assert ops[..n][..k] == ops[..k]; }
      CalmRunFrom(s, ops[..n]);
      StepKeeps(Run(s, ops[..n]), ops[n]);
    }
  }

  /**
   In every execution that never restarts the chain with a reply outstanding, PROV_DONE means the whole
   script was sent in order, each command answered with status 0 before the next, and the read-back
   counted at least the roster.
   */
  lemma DoneMeansProvisioned(ops: seq<Op>)
    requires CalmFrom(FRESH, ops)
    ensures Run(FRESH, ops).prov.PDone? <==> Provisioned(Run(FRESH, ops))
  {
    CalmRunFrom(FRESH, ops);
    Outcomes(Run(FRESH, ops));
  }

  /**
   In every such execution PROV_FAIL means that a command was answered with a status other than 0, or that the
   read-back counted fewer slaves than the roster has, or that the node polled is no bus controller; and each of
   them means PROV_FAIL.
   */
  lemma FailMeansRefused(ops: seq<Op>)
    requires CalmFrom(FRESH, ops)
    ensures Run(FRESH, ops).prov.PFail? <==> Failed(Run(FRESH, ops))
  {
    CalmRunFrom(FRESH, ops);
    Outcomes(Run(FRESH, ops));
  }

  /** The traffic since the last restart tells the two outcomes from a chain under way. */
  lemma Outcomes(s: State)
    requires InStep(s)
    ensures s.prov.PDone? <==> Provisioned(s)
    ensures s.prov.PFail? <==> Failed(s)
  {
    hide Script;
    ScriptAt(s.roster);
    if Chaining(s.prov) && s.out == [] && Place(s) > 0 {
      assert Exchange(s.log, Place(s) - 1, Script(s.roster)[Place(s) - 1]);
    }
    if Dialogue(s.log, Script(s.roster)) {
      assert Exchange(s.log, |Script(s.roster)| - 1, Script(s.roster)[|Script(s.roster)| - 1]);
    }
  }

  /** What was reached lasts until a restart. */
  lemma OutcomeLasts(s: State, op: Op)
    requires InStep(s) && (s.prov.PDone? || s.prov.PFail?) && (op.Poll? || op.Reply?)
    ensures Step(s, op) == s
  {}

  /** A poll that is ready decides a waiting roster: by the clear command on the bus controller, by PROV_FAIL elsewhere. */
  lemma ReadyPollDecides(s: State, isBc: bool)
    requires s.have && s.prov.PIdle? && s.out == []
    ensures var t := Step(s, Poll(true, isBc, true));
      if isBc then t.prov.PClear? && |t.out| == 1 && t.out[0].cmd == Clear else t.prov.PFail? && t.out == []
    ensures Step(s, Poll(false, isBc, true)) == s
  {}

  /** Without a roster nothing is ever provisioned. */
  lemma {:induction false} NothingAfterDetach(s: State, ops: seq<Op>)
    requires s.out == [] && forall k :: 0 <= k < |ops| ==> !ops[k].Attach?
    ensures var t := Run(Step(s, Detach), ops); t.prov.PIdle? && !t.have && t.out == [] && t.log == []
  {
    if ops != [] { NothingAfterDetach(s, ops[..|ops| - 1]); }
  }

  // ---- a chain that is answered ----------------------------------------------

  /** A poll that finds the bus controller, then `n` replies of status 0 reporting `total` slaves. */
  function Answering(n: nat, total: nat): (r: seq<Op>)
    ensures |r| == n + 1
  {
    if n == 0 then [Poll(true, true, true)] else Answering(n - 1, total) + [Reply(0, 0, total, true)]
  }

  /**
   From attaching a roster, the chain takes exactly one good reply per command of the script: after `n` of them
   command `n` is the one on its way, and after all of them provisioning is over, with PROV_DONE exactly when
   the count suffices.
   */
  lemma {:induction false} ChainTakes(s: State, n: nat, total: nat)
    requires s.prov.PIdle? && s.have && s.out == [] && s.log == [] && n <= |Script(s.roster)|
    ensures var t := Run(s, Answering(n, total));
      && InStep(t) && t.roster == s.roster
      && if n < |Script(s.roster)| then
           Chaining(t.prov) && |t.out| == 1 && Place(t) == n && t.out[0].cmd == Script(s.roster)[n]
         else t.prov == if total >= s.roster.count then PDone else PFail
  {
    hide Script, Step, Run, InStep, Place;
    if n == 0 {
      RunLast(s, [], Poll(true, true, true));
      FirstPoll(s);
    } else {
      ChainTakes(s, n - 1, total);
      var t := Run(s, Answering(n - 1, total));
      RunLast(s, Answering(n - 1, total), Reply(0, 0, total, true));
      OneReply(t, n - 1, total);
    }
  }

  lemma FirstPoll(s: State)
    requires s.prov.PIdle? && s.have && s.out == [] && s.log == []
    ensures var t := Step(s, Poll(true, true, true));
      && InStep(t) && t.roster == s.roster && Chaining(t.prov) && |t.out| == 1 && Place(t) == 0
      && 1 < |Script(s.roster)| && t.out[0].cmd == Script(s.roster)[0]
  {
    ScriptAt(s.roster);
    StepKeeps(s, Poll(true, true, true));
  }

  lemma RunLast(s: State, ops: seq<Op>, op: Op)
    ensures Run(s, ops + [op]) == Step(Run(s, ops), op)
    ensures Run(s, []) == s && [] + [op] == [op]
  {
    assert (ops + [op])[..|ops|] == ops;
  }

  lemma OneReply(t: State, n: nat, total: nat)
    requires InStep(t) && Chaining(t.prov) && |t.out| == 1 && n < |Script(t.roster)| && Place(t) == n
    ensures var u := Step(t, Reply(0, 0, total, true));
      && InStep(u) && u.roster == t.roster
      && if n + 1 < |Script(t.roster)| then Chaining(u.prov) && |u.out| == 1 && Place(u) == n + 1
              && u.out[0].cmd == Script(t.roster)[n + 1]
         else u.prov == if total >= t.roster.count then PDone else PFail
  {
    hide Script, InStep, Step, Placed, Place;
    var op := Reply(0, 0, total, true);
    OnItsWay(t);
    NextCommand(t, n, total);
    StepKeeps(t, op);
    if Chaining(Step(t, op).prov) { OnItsWay(Step(t, op)); }
  }

  lemma NextCommand(t: State, n: nat, total: nat)
    requires Placed(t) && |t.out| == 1 && n < |Script(t.roster)| && Place(t) == n
    ensures var u := Step(t, Reply(0, 0, total, true));
      && u.roster == t.roster
      && if n + 1 < |Script(t.roster)| then Chaining(u.prov) && |u.out| == 1 && Place(u) == n + 1
         else u.prov == if total >= t.roster.count then PDone else PFail
  {
    hide Script;
    ScriptAt(t.roster);
    assert t.out[..0] + t.out[1..] == [];
  }

  lemma OnItsWay(t: State)
    requires InStep(t) && Chaining(t.prov)
    ensures Placed(t) && Place(t) < |Script(t.roster)|
    ensures t.out != [] ==> t.out[0].cmd == Script(t.roster)[Place(t)]
  {
    hide Script;
  }

  // ---- and what restarting costs ---------------------------------------------

  lemma {:induction false} RunCons(s: State, op: Op, ops: seq<Op>)
    ensures Run(s, [op] + ops) == Run(Step(s, op), ops)
    decreases |ops|
  {
    var all := [op] + ops;
    if ops == [] {
      assert all[..0] == [] && all[0] == op;
    } else {
      var n := |ops| - 1;
      assert all[..|all| - 1] == [op] + ops[..n];
      RunCons(s, op, ops[..n]);
    }
  }

  lemma RunNone(s: State)
    ensures Run(s, []) == s
  {}

  /** Good replies, no matter to what, drive a chain with something outstanding to PROV_DONE. */
  lemma {:induction false} RepliesFinish(s: State) returns (ops: seq<Op>)
    requires Placed(s) && s.out != []
    ensures Run(s, ops).prov.PDone? && s.log <= Run(s, ops).log && forall k :: 0 <= k < |ops| ==> ops[k].Reply?
    decreases |Script(s.roster)| - Place(s)
  {
    ScriptAt(s.roster);
    hide Script, Run;
    var op := Reply(0, 0, s.roster.count, true);
    var t := Step(s, op);
    if s.prov.PList? {
      ops := [op];
      assert ops == [op] + [];
      RunCons(s, op, []);
      RunNone(t);
    } else {
      var rest := RepliesFinish(t);
      ops := [op] + rest;
      RunCons(s, op, rest);
    }
  }

  /** The first reply of a chain restarted with an older request outstanding answers that one: the record is spoilt. */
  lemma StaleFirst(s: State)
    requires s.prov.PIdle? && s.have && s.out != [] && s.out[0].id < s.nextId
    ensures var t := Step(Step(s, Poll(true, true, true)), Reply(0, 0, s.roster.count, true));
      Placed(t) && t.out != [] && |t.log| >= 2 && !Exchange(t.log, 0, Clear)
  {
    var s1 := Step(s, Poll(true, true, true));
    var t := Step(s1, Reply(0, 0, s.roster.count, true));
    assert s1.log == [Sent(Req(Clear, s.nextId))];
    assert s1.out == s.out + [Req(Clear, s.nextId)];
    assert t.log[0] == s1.log[0] && t.log[1] == Answered(s.out[0], 0, s.roster.count);
  }

  lemma RestartSpoils(s: State) returns (ops: seq<Op>)
    requires s.prov.PIdle? && s.have && s.out != [] && s.out[0].id < s.nextId
    ensures Run(s, ops).prov.PDone? && !Provisioned(Run(s, ops)) && CalmFrom(s, ops)
  {
    hide Step, Run;
    var go, first := Poll(true, true, true), Reply(0, 0, s.roster.count, true);
    var s1 := Step(s, go);
    var s2 := Step(s1, first);
    StaleFirst(s);
    var rest := RepliesFinish(s2);
    ops := [go] + ([first] + rest);
    RunCons(s, go, [first] + rest);
    RunCons(s1, first, rest);
    var t := Run(s, ops);
    assert t.log[0] == s2.log[0] && t.log[1] == s2.log[1];
    assert !Exchange(t.log, 0, Script(t.roster)[0]);
  }

  ghost predicate CanMislead(s: State) {
    exists ops :: CalmFrom(s, ops) && Run(s, ops).prov.PDone? && !Provisioned(Run(s, ops))
  }

  /** A chain in step is misled by a resync, or by attaching a roster, exactly when a reply is outstanding. */
  lemma RestartMisleadsIff(s: State, op: Op)
    requires InStep(s)
    requires (op.Resync? && s.have) || op.Attach?
    ensures CanMislead(Step(s, op)) <==> s.out != []
  {
    var t := Step(s, op);
    if s.out != [] {
      var ops := RestartSpoils(t);
    } else {
      forall ops | CalmFrom(t, ops) && Run(t, ops).prov.PDone?
        ensures Provisioned(Run(t, ops))
      {
        CalmRunFrom(t, ops);
      }
    }
  }

  // ---- in place --------------------------------------------------------------

  /** The provisioning fields of the controller, with the demux's record of what it still owes a reply. */
  class Provisioner {
    var prov: Prov
    var idx: nat
    var total: nat
    var have: bool
    var roster: Roster
    var out: seq<Req>
    var nextId: nat
    var log: seq<Ev>

    function Abs(): State
      reads this
    {
      State(prov, idx, total, have, roster, out, nextId, log)
    }

    constructor ()
      ensures Abs() == FRESH
    {
      prov, idx, total, have, roster, out, nextId, log := PIdle, 0, 0, false, Roster(0, false), [], 1, [];
    }

    method Send(c: Cmd, accept: bool)
      modifies this
      ensures Abs() == Transmit(old(Abs()), c, accept)
    {
      if accept {
        out := out + [Req(c, nextId)];
        log := log + [Sent(Req(c, nextId))];
        nextId := nextId + 1;
      }
    }

    /** `prov_after_slaves` */
    method ProvAfterSlaves(accept: bool)
      modifies this
      ensures Abs() == AfterSlaves(old(Abs()), accept)
    {
      if roster.pollSet {
        prov := PSetPoll;
        Send(SetPoll, accept);
      } else {
        prov := PList;
        Send(List, accept);
      }
    }

    /** `on_prov_reply` */
    method OnProvReply(status: nat, result: nat, accept: bool)
      modifies this
      ensures Abs() == OnReply(old(Abs()), status, result, accept)
    {
      if status != 0 { prov := PFail; return; }
      match prov
      case PClear =>
        if roster.count > 0 {
          prov, idx := PRegister, 0;
          Send(Register(0), accept);
        } else {
          ProvAfterSlaves(accept);
        }
      case PRegister =>
        idx := idx + 1;
        if idx < roster.count { Send(Register(idx), accept); } else { ProvAfterSlaves(accept); }
      case PSetPoll =>
        prov := PList;
        Send(List, accept);
      case PList =>
        total := result;
        prov := if total >= roster.count then PDone else PFail;
      case _ =>
    }

    /** The demux resolves one of the requests it holds. */
    method Resolve(which: nat, status: nat, result: nat, accept: bool)
      modifies this
      ensures Abs() == Step(old(Abs()), Reply(which, status, result, accept))
    {
      if which >= |out| { return; }
      log := log + [Answered(out[which], status, result)];
      out := out[..which] + out[which + 1..];
      OnProvReply(status, result, accept);
    }

    /** The provisioning part of `controller_poll`: `ready` is OPERATIONAL with a known identity. */
    method PollProvision(ready: bool, isBusController: bool, accept: bool)
      modifies this
      ensures Abs() == Step(old(Abs()), Poll(ready, isBusController, accept))
    {
      if have && prov.PIdle? && ready {
        if isBusController {
          prov, idx, total, log := PClear, 0, 0, [];
          Send(Clear, accept);
        } else {
          prov, log := PFail, log + [Foreign];
        }
      }
    }

    /** The provisioning part of `reset_sync`. */
    method ResetSync()
      modifies this
      ensures Abs() == Step(old(Abs()), Resync)
    {
      prov, idx, total, log := PIdle, 0, 0, [];
    }

    /** The provisioning part of `controller_attach_roster`. */
    method AttachRoster(r: Roster)
      modifies this
      ensures Abs() == Step(old(Abs()), Attach(r))
    {
      roster, have := r, true;
      prov, idx, total, log := PIdle, 0, 0, [];
    }

    /** The same with a null roster, which clears the stored one. */
    method DetachRoster()
      modifies this
      ensures Abs() == Step(old(Abs()), Detach)
    {
      roster, have := Roster(0, false), false;
      prov, idx, total, log := PIdle, 0, 0, [];
    }
  }
}
