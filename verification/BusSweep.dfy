/**
 The timeout sweep frees an entry and fires its callback while it walks the table, so a callback
 can register new requests in mid-sweep. This module says exactly when such a replacement is
 itself visited by the sweep that caused it, and shows what then happens to it.
 */
module BusSweep {
  import opened BusTypes
  import opened BusModel
  import opened BusTheorems
  import opened BusWrap

  /** Free entries below index `n`. */
  ghost function FreeBelow(t: seq<Entry>, n: nat): nat
    requires n <= |t|
  {
    if n == 0 then 0 else FreeBelow(t, n - 1) + (if t[n - 1].Free? then 1 else 0)
  }

  /** Requests registered in a history. */
  ghost function Regs(h: seq<Event>): nat {
    if h == [] then 0 else
      Regs(h[..|h| - 1]) + (if h[|h| - 1].Transmitted? || h[|h| - 1].ShellSent? then 1 else 0)
  }

  lemma RegsSnoc(h: seq<Event>, e: Event)
    ensures Regs(h + [e]) == Regs(h) + (if e.Transmitted? || e.ShellSent? then 1 else 0)
  {
    assert (h + [e])[..|h|] == h;
  }

  lemma {:induction false} FreeBelowUpdate(t: seq<Entry>, f: nat, e: Entry, n: nat)
    requires n <= |t| && f < |t| && t[f].Free? && e.Used?
    ensures FreeBelow(t[f := e], n) == FreeBelow(t, n) - (if f < n then 1 else 0)
  {
    if n > 0 { FreeBelowUpdate(t, f, e, n - 1); }
  }

  lemma {:induction false} FreeBelowZero(t: seq<Entry>, n: nat)
    requires n <= |t|
    ensures FreeBelow(t, n) == 0 <==> forall k :: 0 <= k < n ==> t[k].Used?
  {
    if n > 0 { FreeBelowZero(t, n - 1); }
  }

  /** `u` is `t` after `k` first-fit registrations, seen from index `n`. */
  ghost predicate Fills(t: seq<Entry>, u: seq<Entry>, k: int, n: nat) {
    |u| == |t| && n <= |t| && 0 <= k &&
    var filled := && (forall x :: 0 <= x < |t| && t[x].Used? ==> u[x] == t[x])
                  && (k <= FreeBelow(t, n) ==>
                        FreeBelow(u, n) == FreeBelow(t, n) - k && forall x :: n <= x < |t| ==> u[x] == t[x])
                  && (k > FreeBelow(t, n) ==> exists x :: n <= x < |t| && Filled(t, u, x));
    filled
  }

  predicate Filled(t: seq<Entry>, u: seq<Entry>, x: nat)
    requires x < |t| == |u|
  {
    t[x].Free? && u[x].Used?
  }

  lemma FillsTrans(t: seq<Entry>, u: seq<Entry>, v: seq<Entry>, k: int, l: int, n: nat)
    requires Fills(t, u, k, n) && Fills(u, v, l, n)
    ensures Fills(t, v, k + l, n)
  {
    if k > FreeBelow(t, n) {
      var x :| n <= x < |t| && Filled(t, u, x);
      assert Filled(t, v, x);
    } else if k + l > FreeBelow(t, n) {
      var x :| n <= x < |t| && Filled(u, v, x);
      assert Filled(t, v, x);
    }
  }

  lemma SendFills(dx: DemuxState, owner: Owner, hdr: nat, len: nat, accept: bool, mono: u64, at: nat, n: nat)
    requires n <= |dx.table|
    ensures var r := Send(dx, owner, hdr, len, accept, mono, at);
      Fills(dx.table, r.dx.table, if r.onWire then 1 else 0, n)
  {
    var r := Send(dx, owner, hdr, len, accept, mono, at);
    if r.onWire {
      var f := FirstFree(dx.table, 0);
      FreeBelowUpdate(dx.table, f, Used(r.rid, owner, mono, at), n);
      FreeBelowZero(dx.table, n);
      if f >= n { assert Filled(dx.table, r.dx.table, f); }
    }
  }

  /** The registrations between two states, and their effect on the table. */
  ghost predicate Advances(s: State, t: State, n: nat) {
    Fills(s.dx.table, t.dx.table, Regs(t.hist) - Regs(s.hist), n)
  }

  lemma PumpAdvances(s: State, env: Env, i: nat, n: nat)
    requires WF(s) && i < SLOT_MAX && n <= PENDING_MAX
    ensures Advances(s, Pump(s, env, i), n)
    ensures Regs(Pump(s, env, i).hist) <= Regs(s.hist) + 1
  {
    var slot := s.slots[i];
    if !slot.faulted && slot.phase.Idle? && slot.q != [] {
      var c := slot.q[0];
      var mono, accept := env.clock(|s.hist|), env.accepts(s.dx.nextId);
      SendFills(s.dx, SlotOwner(i), BUS_EXEC_HDR, c.req.argsLen, accept, mono, |s.hist|, n);
      var sent := Send(s.dx, SlotOwner(i), BUS_EXEC_HDR, c.req.argsLen, accept, mono, |s.hist|);
      RegsSnoc(s.hist, Transmitted(slot.addr, c.handle, sent.rid, s.now, WireTimeout(c.req.execTimeout)));
    }
  }

  lemma ActAdvances(s: State, env: Env, a: Action, n: nat)
    requires WF(s) && n <= PENDING_MAX
    ensures Advances(s, Act(s, env, a), n)
    ensures Regs(Act(s, env, a).hist) <= Regs(s.hist) + 1
  {
    match a
    case DoSubmit(addr, req) =>
      var i := SlotFor(s.slots, addr);
      if !(req.argsLen > CMD_ARG_MAX || i == |s.slots| || |s.slots[i].q| >= CMD_QUEUE_DEPTH) {
        RegsSnoc(s.hist, Accepted(s.slots[i].addr, s.nextHandle));
        PumpAdvances(Enqueue(s, i, req), env, i, n);
      }
    case DoShell(tag, argsLen) =>
      var mono, accept := env.clock(|s.hist|), env.accepts(s.dx.nextId);
      SendFills(s.dx, ShellOwner(tag), SHELL_EXEC_HDR, argsLen, accept, mono, |s.hist|, n);
      RegsSnoc(s.hist, ShellSent(tag, Send(s.dx, ShellOwner(tag), SHELL_EXEC_HDR, argsLen, accept, mono, |s.hist|).rid));
  }

  lemma {:induction false} PerformAdvances(s: State, env: Env, acts: seq<Action>, n: nat)
    requires WF(s) && n <= PENDING_MAX
    ensures Advances(s, Perform(s, env, acts), n)
    ensures Regs(Perform(s, env, acts).hist) <= Regs(s.hist) + |acts|
    decreases |acts|
  {
    if acts != [] {
      var t := Act(s, env, acts[0]);
      ActAdvances(s, env, acts[0], n);
      PerformAdvances(t, env, acts[1..], n);
      var u := Perform(t, env, acts[1..]);
      FillsTrans(s.dx.table, t.dx.table, u.dx.table, Regs(t.hist) - Regs(s.hist), Regs(u.hist) - Regs(t.hist), n);
    }
  }

  lemma ActAndPumpAdvances(s: State, env: Env, acts: seq<Action>, i: nat, n: nat)
    requires WF(s) && i < SLOT_MAX && n <= PENDING_MAX
    ensures Advances(s, Pump(Perform(s, env, acts), env, i), n)
    ensures Regs(Pump(Perform(s, env, acts), env, i).hist) <= Regs(s.hist) + |acts| + 1
  {
    var p := Perform(s, env, acts);
    var u := Pump(p, env, i);
    PerformAdvances(s, env, acts, n);
    PumpAdvances(p, env, i, n);
    FillsTrans(s.dx.table, p.dx.table, u.dx.table, Regs(p.hist) - Regs(s.hist), Regs(u.hist) - Regs(p.hist), n);
  }

  lemma ResolveAdvances(s: State, env: Env, j: nat, status: nat, n: nat)
    requires WF(s) && j < PENDING_MAX && s.dx.table[j].Used? && n <= PENDING_MAX
    ensures Advances(Freed(s, j), Resolve(s, env, j, status), n)
    ensures Regs(Resolve(s, env, j, status).hist) <= Regs(s.hist) + |env.react(|s.hist|)| + 1
  {
    var e := s.dx.table[j];
    var f := Freed(s, j);
    match e.owner {
      case ShellOwner(tag) =>
        RegsSnoc(s.hist, ShellDone(tag, e.rid, status));
        PerformAdvances(f.(hist := s.hist + [ShellDone(tag, e.rid, status)]), env, env.react(|s.hist|), n);
      case SlotOwner(i) =>
        if f.slots[i].inflight.Some? && e.rid == f.slots[i].rid {
          RegsSnoc(s.hist, Done(f.slots[i].addr, f.slots[i].inflight.value.handle, status));
          ActAndPumpAdvances(Finished(f, i, status), env, env.react(|f.hist|), i, n);
        }
    }
  }

  /** How many requests the resolution of entry `j` registers. */
  ghost function Registers(s: State, env: Env, j: nat, status: nat): int
    requires WF(s) && j < PENDING_MAX && s.dx.table[j].Used?
  {
    Regs(Resolve(s, env, j, status).hist) - Regs(s.hist)
  }

  /**
   The unvisited part of the table is untouched by the resolution of entry `j` if and only if the
   callback registers no more requests than there are free entries at or below `j`: with the entry
   just freed, one registration is always safe.
   */
  lemma UnvisitedUntouched(s: State, env: Env, j: nat, status: nat)
    requires WF(s) && j < PENDING_MAX && s.dx.table[j].Used?
    ensures (forall x :: j < x < PENDING_MAX ==> Resolve(s, env, j, status).dx.table[x] == s.dx.table[x])
            <==> Registers(s, env, j, status) <= FreeBelow(s.dx.table, j) + 1
  {
    var f := Freed(s, j);
    var u := Resolve(s, env, j, status);
    ResolveAdvances(s, env, j, status, j + 1);
    FreeBelowSame(s.dx.table, f.dx.table, j);
    assert FreeBelow(f.dx.table, j + 1) == FreeBelow(s.dx.table, j) + 1;
    if Registers(s, env, j, status) > FreeBelow(s.dx.table, j) + 1 {
      var x :| j + 1 <= x < PENDING_MAX && Filled(f.dx.table, u.dx.table, x);
      assert u.dx.table[x] != s.dx.table[x];
    } else {
      forall x | j < x < PENDING_MAX
        ensures u.dx.table[x] == s.dx.table[x]
      {
        assert u.dx.table[x] == f.dx.table[x];
      }
    }
  }

  lemma {:induction false} FreeBelowSame(t: seq<Entry>, u: seq<Entry>, n: nat)
    requires n <= |t| == |u| && forall k :: 0 <= k < n ==> u[k] == t[k]
    ensures FreeBelow(u, n) == FreeBelow(t, n)
  {
    if n > 0 { FreeBelowSame(t, u, n - 1); }
  }

  // ---- the whole sweep -------------------------------------------------------

  /** The state in which the sweep examines index `k`. */
  ghost function SweepTo(s: State, env: Env, now: u64, timeoutMs: nat, k: nat): (r: State)
    requires WF(s) && k <= PENDING_MAX
    ensures WF(r)
  {
    if k == 0 then s else SweepStep(SweepTo(s, env, now, timeoutMs, k - 1), env, now, timeoutMs, k - 1)
  }

  lemma {:induction false} SweepSplits(s: State, env: Env, now: u64, timeoutMs: nat, k: nat)
    requires WF(s) && k <= PENDING_MAX
    ensures SweepFrom(s, env, now, timeoutMs, 0) == SweepFrom(SweepTo(s, env, now, timeoutMs, k), env, now, timeoutMs, k)
  {
    if k > 0 { SweepSplits(s, env, now, timeoutMs, k - 1); }
  }

  /** The resolution at index `j`, if the sweep makes one, registers no more than fits at or below `j`. */
  ghost predicate ModestAt(s: State, env: Env, now: u64, timeoutMs: nat, j: nat)
    requires WF(s) && j < PENDING_MAX
  {
    var t := SweepTo(s, env, now, timeoutMs, j);
    Overdue(t.dx.table[j], now, timeoutMs) ==>
      Registers(t, env, j, STATUS_TIMEOUT) <= FreeBelow(t.dx.table, j) + 1
  }

  ghost predicate Unvisited(s: State, env: Env, now: u64, timeoutMs: nat, k: nat)
    requires WF(s) && k <= PENDING_MAX
  {
    forall x :: k <= x < PENDING_MAX ==> SweepTo(s, env, now, timeoutMs, k).dx.table[x] == s.dx.table[x]
  }

  /**
   Every request the sweep examines was already there when the sweep began, in the same place,
   if and only if every resolution it makes on the way is modest.
   */
  lemma SweepSparesReplacements(s: State, env: Env, now: u64, timeoutMs: nat, k: nat)
    requires WF(s) && k <= PENDING_MAX
    ensures (forall j :: 0 <= j <= k ==> Unvisited(s, env, now, timeoutMs, j))
            <==> (forall j :: 0 <= j < k ==> ModestAt(s, env, now, timeoutMs, j))
  {
    var spared := (j: nat) => j <= PENDING_MAX && Unvisited(s, env, now, timeoutMs, j);
    var modest := (j: nat) => j < PENDING_MAX && ModestAt(s, env, now, timeoutMs, j);
    forall j: nat | j < k && spared(j)
      ensures spared(j + 1) <==> modest(j)
    {
      OneMoreIndex(s, env, now, timeoutMs, j);
    }
    Chain(spared, modest, k);
    assert forall j: nat :: j <= k ==> (spared(j) <==> Unvisited(s, env, now, timeoutMs, j));
    assert forall j: nat :: j < k ==> (modest(j) <==> ModestAt(s, env, now, timeoutMs, j));
  }

  lemma {:induction false} Chain(u: nat -> bool, m: nat -> bool, k: nat)
    requires u(0)
    requires forall j: nat :: j < k && u(j) ==> (u(j + 1) <==> m(j))
    ensures (forall j: nat :: j <= k ==> u(j)) <==> (forall j: nat :: j < k ==> m(j))
  {
    if k > 0 {
      Chain(u, m, k - 1);
      if u(k - 1) { assert u(k - 1 + 1) <==> m(k - 1); }
    }
  }

  lemma OneMoreIndex(s: State, env: Env, now: u64, timeoutMs: nat, k: nat)
    requires WF(s) && k < PENDING_MAX && Unvisited(s, env, now, timeoutMs, k)
    ensures Unvisited(s, env, now, timeoutMs, k + 1) <==> ModestAt(s, env, now, timeoutMs, k)
  {
    var t := SweepTo(s, env, now, timeoutMs, k);
    var u := SweepTo(s, env, now, timeoutMs, k + 1);
    assert u == SweepStep(t, env, now, timeoutMs, k);
    if Overdue(t.dx.table[k], now, timeoutMs) { UnvisitedUntouched(t, env, k, STATUS_TIMEOUT); }
    assert forall x :: k < x < PENDING_MAX ==> t.dx.table[x] == s.dx.table[x];
  }

  ghost function Cost(b: nat, requests: int): int { b * requests }

  lemma CostsOneMore(b: nat, requests: int)
    ensures Cost(b, 0) == 0 && Cost(b, requests + 1) == Cost(b, requests) + b
  {}

  /**
   Below every pending request there are at least `b` free entries for each pending request up to and including
   it: something a caller can check before the sweep.
   */
  ghost predicate Roomy(t: seq<Entry>, b: nat) {
    forall j :: 0 <= j < |t| && t[j].Used? ==> Cost(b, j - FreeBelow(t, j) + 1) <= FreeBelow(t, j)
  }

  /** Registrations that fit leave that much less room, after entry `j` was freed. */
  lemma SpendsRoom(t: seq<Entry>, f: seq<Entry>, u: seq<Entry>, r: int, j: nat)
    requires j < |t| && t[j].Used? && f == t[j := Free] && Fills(f, u, r, j + 1) && r <= FreeBelow(t, j) + 1
    ensures FreeBelow(u, j + 1) == FreeBelow(t, j) + 1 - r
  {
    FreeBelowSame(t, f, j);
  }

  lemma ResolutionSpends(t: State, env: Env, j: nat, b: nat)
    requires WF(t) && j < PENDING_MAX && |env.react(|t.hist|)| <= b && t.dx.table[j].Used?
    requires b <= FreeBelow(t.dx.table, j)
    ensures FreeBelow(t.dx.table, j) <= FreeBelow(Resolve(t, env, j, STATUS_TIMEOUT).dx.table, j + 1) + b
    ensures Registers(t, env, j, STATUS_TIMEOUT) <= FreeBelow(t.dx.table, j) + 1
  {
    hide SlotShape, Resolve, Fills, FreeBelow, Regs;
    ResolveAdvances(t, env, j, STATUS_TIMEOUT, j + 1);
    var u := Resolve(t, env, j, STATUS_TIMEOUT);
    SpendsRoom(t.dx.table, Freed(t, j).dx.table, u.dx.table, Regs(u.hist) - Regs(t.hist), j);
  }

  /** What one index costs of the room at or below it. */
  lemma OneIndexSpends(t: State, env: Env, now: u64, timeoutMs: nat, j: nat, b: nat)
    requires WF(t) && j < PENDING_MAX && |env.react(|t.hist|)| <= b
    requires t.dx.table[j].Used? ==> b <= FreeBelow(t.dx.table, j)
    ensures FreeBelow(t.dx.table, j) <=
            FreeBelow(SweepStep(t, env, now, timeoutMs, j).dx.table, j + 1) + if t.dx.table[j].Used? then b else -1
    ensures Overdue(t.dx.table[j], now, timeoutMs) ==>
              Registers(t, env, j, STATUS_TIMEOUT) <= FreeBelow(t.dx.table, j) + 1
  {
    hide SlotShape, Resolve, Registers;
    if Overdue(t.dx.table[j], now, timeoutMs) { ResolutionSpends(t, env, j, b); }
  }

  /** Of the room below index `k` at most `b` entries were spent for each request that was pending there. */
  ghost predicate Affords(t: seq<Entry>, u: seq<Entry>, k: nat, b: nat)
    requires k <= |t| == |u|
  {
    FreeBelow(t, k) <= FreeBelow(u, k) + Cost(b, k - FreeBelow(t, k))
  }

  lemma OneMoreAfforded(s: State, t: State, env: Env, now: u64, timeoutMs: nat, j: nat, b: nat)
    requires WF(s) && WF(t) && j < PENDING_MAX && Roomy(s.dx.table, b) && |env.react(|t.hist|)| <= b
    requires t.dx.table[j] == s.dx.table[j] && Affords(s.dx.table, t.dx.table, j, b)
    ensures Affords(s.dx.table, SweepStep(t, env, now, timeoutMs, j).dx.table, j + 1, b)
    ensures Overdue(t.dx.table[j], now, timeoutMs) ==>
              Registers(t, env, j, STATUS_TIMEOUT) <= FreeBelow(t.dx.table, j) + 1
  {
    hide SlotShape, SweepStep, Registers, Cost, Overdue;
    CostsOneMore(b, j - FreeBelow(s.dx.table, j));
    OneIndexSpends(t, env, now, timeoutMs, j, b);
  }

  lemma OneMoreSpared(s: State, env: Env, now: u64, timeoutMs: nat, j: nat, b: nat)
    requires WF(s) && j < PENDING_MAX && Roomy(s.dx.table, b) && forall n :: |env.react(n)| <= b
    requires Unvisited(s, env, now, timeoutMs, j)
    requires Affords(s.dx.table, SweepTo(s, env, now, timeoutMs, j).dx.table, j, b)
    ensures Unvisited(s, env, now, timeoutMs, j + 1)
    ensures Affords(s.dx.table, SweepTo(s, env, now, timeoutMs, j + 1).dx.table, j + 1, b)
  {
    hide SlotShape, SweepStep, Registers, Overdue, Affords, FreeBelow, Roomy;
    OneMoreAfforded(s, SweepTo(s, env, now, timeoutMs, j), env, now, timeoutMs, j, b);
    OneMoreIndex(s, env, now, timeoutMs, j);
  }

  lemma {:induction false} FewActions(s: State, env: Env, now: u64, timeoutMs: nat, k: nat, b: nat)
    requires WF(s) && k <= PENDING_MAX && Roomy(s.dx.table, b) && forall n :: |env.react(n)| <= b
    ensures Unvisited(s, env, now, timeoutMs, k)
    ensures Affords(s.dx.table, SweepTo(s, env, now, timeoutMs, k).dx.table, k, b)
  {
    if k == 0 {
      CostsOneMore(b, 0);
    } else {
      hide *;
      FewActions(s, env, now, timeoutMs, k - 1, b);
      OneMoreSpared(s, env, now, timeoutMs, k - 1, b);
    }
  }

  /**
   If no callback performs more than `b` actions and the table is roomy for that, the sweep never meets a request
   it gave rise to.
   */
  lemma SweepIsModest(s: State, env: Env, now: u64, timeoutMs: nat, k: nat, b: nat)
    requires WF(s) && k <= PENDING_MAX && Roomy(s.dx.table, b) && forall n :: |env.react(n)| <= b
    ensures Unvisited(s, env, now, timeoutMs, k)
    ensures forall j :: 0 <= j < k ==> ModestAt(s, env, now, timeoutMs, j)
  {
    forall j: nat | j <= k
      ensures Unvisited(s, env, now, timeoutMs, j)
    {
      FewActions(s, env, now, timeoutMs, j, b);
    }
    SweepSparesReplacements(s, env, now, timeoutMs, k);
  }

  /** The tracker itself is modest: with callbacks that start nothing every table is roomy enough. */
  lemma TrackerIsModest(s: State, env: Env, now: u64, timeoutMs: nat, k: nat)
    requires WF(s) && k <= PENDING_MAX
    requires forall n :: env.react(n) == []
    ensures Unvisited(s, env, now, timeoutMs, k)
  {
    assert Roomy(s.dx.table, 0);
    SweepIsModest(s, env, now, timeoutMs, k, 0);
  }

  // ---- a sweep that meets its own replacement --------------------------------

  /** Monotonic time is 2501 from the first timeout on, whose callback starts two requests. */
  ghost function Restless(): Env {
    Env(_ => true, n => if n == 0 then 0 else 2501, n => if n == 1 then [DoShell(7, 0), DoShell(8, 0)] else [],
        (_, _) => [])
  }

  /** The link up and one request sent at time 0. */
  ghost function OneSent(): State {
    Init().(dx := Init().dx.(up := true, nextId := 2, table := Init().dx.table[0 := Used(1, ShellOwner(0), 0, 0)]),
            hist := [ShellSent(0, 1)])
  }

  lemma SendsOne()
    ensures var s := Step(Init(), Restless(), OpLink(true));
      s == Init().(dx := Init().dx.(up := true)) && Step(s, Restless(), OpShell(0, 0)) == OneSent()
  {
    assert FirstFree(Init().dx.table, 0) == 0;
    assert FindRid(Init().dx.table, 1, 0) == PENDING_MAX;
  }

  /** Indexes that hold nothing are passed over. */
  lemma {:induction false} SweepFree(s: State, env: Env, now: u64, timeoutMs: nat, j: nat)
    requires WF(s) && j <= PENDING_MAX && forall k :: j <= k < PENDING_MAX ==> s.dx.table[k].Free?
    ensures SweepFrom(s, env, now, timeoutMs, j) == s
    decreases PENDING_MAX - j
  {
    if j < PENDING_MAX { SweepFree(s, env, now, timeoutMs, j + 1); }
  }

  const LATE := [ShellSent(0, 1), ShellDone(0, 1, STATUS_TIMEOUT), ShellSent(7, 2), ShellSent(8, 3)]

  ghost function Replaced(): seq<Entry> {
    Init().dx.table[0 := Used(2, ShellOwner(7), 2501, 2)][1 := Used(3, ShellOwner(8), 2501, 3)]
  }

  /** The first resolution puts one new request where the old one was and the other right behind it. */
  lemma TwoReplace()
    ensures var s := OneSent(); WF(s) && var t := SweepStep(s, Restless(), 2500, 2500, 0);
      t.hist == LATE && t.dx.table == Replaced()
  {
    var s, env := OneSent(), Restless();
    var f := Freed(s, 0).(hist := s.hist + [ShellDone(0, 1, STATUS_TIMEOUT)]);
    TwoActions(f, env, DoShell(7, 0), DoShell(8, 0));
    var a := SendShell(f, env, 7, 0);
    assert FirstFree(f.dx.table, 0) == 0 && FirstFree(a.dx.table, 0) == 1;
    assert a.dx.table == Init().dx.table[0 := Used(2, ShellOwner(7), 2501, 2)];
    assert SendShell(a, env, 8, 0).hist == LATE;
  }

  /** The second new request is younger than the sweep's clock, so that its unsigned age wraps. */
  lemma SecondEaten(t: State)
    requires WF(t) && t.hist == LATE && t.dx.table == Replaced()
    ensures SweepFrom(t, Restless(), 2500, 2500, 1).hist == LATE + [ShellDone(8, 3, STATUS_TIMEOUT)]
  {
    var g := Freed(t, 1).(hist := t.hist + [ShellDone(8, 3, STATUS_TIMEOUT)]);
    assert Perform(g, Restless(), []) == g;
    assert SweepStep(t, Restless(), 2500, 2500, 1) == g;
    SweepFree(g, Restless(), 2500, 2500, 2);
  }

  /**
   An execution in which a callback that starts two requests loses one at once: the second lands beyond the
   sweep, and as the clock has moved on since the sweep read it, the unsigned age wraps and the fresh request
   is timed out by the very sweep that gave rise to it.
   */
  lemma SweepEatsSecondReplacement() returns (run: seq<State>)
    ensures IsRun(run, Restless(), [OpLink(true), OpShell(0, 0), OpDemuxPoll(2500, 2500)])
    ensures run[2].hist == [ShellSent(0, 1)]
    ensures run[3].hist == LATE + [ShellDone(8, 3, STATUS_TIMEOUT)]
  {
    hide Step, SweepStep;
    var env, ops := Restless(), [];
    run := [Init()];
    SendsOne();
    run, ops := RunOn(run, env, ops, OpLink(true));
    run, ops := RunOn(run, env, ops, OpShell(0, 0));
    var s := run[2];
    TwoReplace();
    SecondEaten(SweepStep(s, env, 2500, 2500, 0));
    PollSweeps(s, env, 2500, 2500);
    run, ops := RunOn(run, env, ops, OpDemuxPoll(2500, 2500));
    assert run[2] == run[..3][2];
  }

  lemma PollSweeps(s: State, env: Env, now: u64, timeoutMs: nat)
    requires WF(s) && timeoutMs > 0
    ensures Step(s, env, OpDemuxPoll(now, timeoutMs))
         == SweepFrom(SweepStep(s, env, now, timeoutMs, 0), env, now, timeoutMs, 1)
  {
    hide SweepStep;
  }

  lemma TwoActions(s: State, env: Env, a: Action, b: Action)
    requires WF(s)
    ensures Perform(s, env, [a, b]) == Act(Act(s, env, a), env, b)
  {
    assert [a, b][1..] == [b] && [b][1..] == [];
    assert Perform(Act(s, env, a), env, [b]) == Perform(Act(Act(s, env, a), env, b), env, []);
  }
}
