/**
 `cmd_tracker_reset` when callbacks do submit to the slave that is being reset. The drain loop is not
 re-entrant: a submission can transmit the very command just reported, and the loop then drops the next
 one unreported. Here is exactly when a command is lost, and when a client that submits again keeps the loop
 from ending, with the link up or down: `controller_attach_roster` resets whatever state the link is in.
 */
module BusReset {
  import opened Options
  import opened BusTypes
  import opened BusModel
  import opened BusInvariant
  import opened BusCoupling
  import opened BusSweep
  import opened BusTheorems
  import opened BusWrap

  /** From position `from` on, a frame to `addr` went out under an id that the tracker did not take for an error. */
  ghost predicate Took(h: seq<Event>, from: nat, addr: nat) {
    exists k :: from <= k < |h| && h[k].Transmitted? && h[k].addr == addr && h[k].rid != ERROR_RID
  }

  lemma TookSplits(f: seq<Event>, g: seq<Event>, h: seq<Event>, addr: nat)
    requires Extends(f, g) && Extends(g, h)
    ensures Extends(f, h)
    ensures Took(h, |f|, addr) <==> Took(g, |f|, addr) || Took(h, |g|, addr)
  {
    assert h[..|f|] == g[..|f|];
    assert forall k :: 0 <= k < |g| ==> h[k] == h[..|g|][k];
    if Took(g, |f|, addr) {
      var k :| |f| <= k < |g| && g[k].Transmitted? && g[k].addr == addr && g[k].rid != ERROR_RID;
      assert h[k] == g[k];
    }
  }

  // ---- what callbacks do to the slot being reset -----------------------------

  ghost predicate SameAddrs(s: State, t: State) {
    && |t.slots| == |s.slots|
    && forall k :: 0 <= k < |s.slots| ==> t.slots[k].inUse == s.slots[k].inUse && t.slots[k].addr == s.slots[k].addr
  }

  /**
   From `s` to `t` the commands `x` were accepted for slot `i` and nothing of it completed. Either nothing of it
   was sent, or the slot was idle and the first command in line is now in flight.
   */
  ghost predicate Fed(s: State, t: State, i: nat, x: seq<Cmd>)
    requires i < |s.slots|
  {
    && SameAddrs(s, t) && Extends(s.hist, t.hist) && t.dx.up == s.dx.up
    && AcceptedOf(t.hist, s.slots[i].addr) == AcceptedOf(s.hist, s.slots[i].addr) + Handles(x)
    && DoneOf(t.hist, s.slots[i].addr) == DoneOf(s.hist, s.slots[i].addr)
    && FedSlot(s.slots[i], t.slots[i], x, Took(t.hist, |s.hist|, s.slots[i].addr), s.dx.up)
  }

  ghost predicate FedSlot(a: Slot, b: Slot, x: seq<Cmd>, took: bool, up: bool) {
    && b.faulted == a.faulted
    && if took then
         && a.phase.Idle? && x != [] && up && !a.faulted
         && b.phase.Sent? && b.inflight == Some((a.q + x)[0]) && b.q == (a.q + x)[1..]
       else b.phase == a.phase && b.inflight == a.inflight && b.q == a.q + x
  }

  lemma FedSlotTrans(a: Slot, b: Slot, c: Slot, x: seq<Cmd>, y: seq<Cmd>, first: bool, second: bool, up: bool)
    requires FedSlot(a, b, x, first, up) && FedSlot(b, c, y, second, up)
    ensures FedSlot(a, c, x + y, first || second, up)
  {
    assert a.q + (x + y) == (a.q + x) + y;
    assert x != [] ==> (a.q + (x + y))[1..] == (a.q + x)[1..] + y;
  }

  lemma FedTrans(s: State, t: State, u: State, i: nat, x: seq<Cmd>, y: seq<Cmd>)
    requires i < |s.slots| && Fed(s, t, i, x) && Fed(t, u, i, y)
    ensures Fed(s, u, i, x + y)
  {
    hide AcceptedOf, DoneOf, Took;
    var addr := s.slots[i].addr;
    TookSplits(s.hist, t.hist, u.hist, addr);
    assert Handles(x + y) == Handles(x) + Handles(y);
    FedSlotTrans(s.slots[i], t.slots[i], u.slots[i], x, y,
                 Took(t.hist, |s.hist|, addr), Took(u.hist, |t.hist|, addr), s.dx.up);
    hide FedSlot;
    assert AcceptedOf(u.hist, addr) == AcceptedOf(s.hist, addr) + Handles(x) + Handles(y);
  }

  lemma FedNothing(s: State, i: nat)
    requires i < |s.slots|
    ensures Fed(s, s, i, [])
  {
    assert s.slots[i].q + [] == s.slots[i].q;
    assert AcceptedOf(s.hist, s.slots[i].addr) + Handles([]) == AcceptedOf(s.hist, s.slots[i].addr);
  }

  /** A pump of slot `k` as the others see it. */
  lemma PumpShape(s: State, env: Env, k: nat)
    requires WF(s) && k < SLOT_MAX
    ensures var t, addr := Pump(s, env, k), s.slots[k].addr;
      && SameAddrs(s, t) && Extends(s.hist, t.hist) && t.dx.up == s.dx.up
      && t.slots == s.slots[k := t.slots[k]] && t.slots[k].faulted == s.slots[k].faulted
      && (forall a :: AcceptedOf(t.hist, a) == AcceptedOf(s.hist, a) && DoneOf(t.hist, a) == DoneOf(s.hist, a))
      && (forall a :: a != addr ==> !Took(t.hist, |s.hist|, a))
      && (if Took(t.hist, |s.hist|, addr) then
            && s.slots[k].phase.Idle? && s.slots[k].q != [] && s.dx.up && !s.slots[k].faulted
            && t.slots[k].phase.Sent? && t.slots[k].inflight == Some(s.slots[k].q[0]) && t.slots[k].q == s.slots[k].q[1..]
          else
            && t.slots[k].phase == s.slots[k].phase && t.slots[k].inflight == s.slots[k].inflight
            && t.slots[k].q == s.slots[k].q)
  {
    var slot := s.slots[k];
    if !slot.faulted && slot.phase.Idle? && slot.q != [] {
      var s1 := s.(slots := s.slots[k := slot.(retries := 0)]);
      TransmitFacts(s1, env, k, slot.q[0]);
      TransmitRid(s1, env, k, slot.q[0]);
      assert SlotShape(slot);
    }
  }

  /** A transmission succeeds exactly when its frame carries a usable id. */
  lemma TransmitRid(s: State, env: Env, i: nat, c: Cmd)
    requires WF(s) && i < SLOT_MAX
    ensures var r, addr := Transmit(s, env, i, c), s.slots[i].addr;
      && r.s.dx.up == s.dx.up && Extends(s.hist, r.s.hist)
      && (r.ok <==> Took(r.s.hist, |s.hist|, addr)) && (r.ok ==> s.dx.up)
      && (forall a :: a != addr ==> !Took(r.s.hist, |s.hist|, a))
  {
    var r := Transmit(s, env, i, c);
    if r.ok { assert r.s.hist[|s.hist|].Transmitted?; }
  }

  lemma ActFeeds(s: State, env: Env, a: Action, i: nat) returns (x: seq<Cmd>)
    requires WF(s) && i < SLOT_MAX && s.slots[i].inUse && DistinctAddrs(s.slots)
    ensures Fed(s, Act(s, env, a), i, x)
  {
    hide Pump, FedSlot;
    x := [];
    var t := Act(s, env, a);
    match a {
      case DoShell(tag, argsLen) =>
        FedNothing(s, i);
        if t.hist != s.hist { Snoc(s.hist, t.hist[|s.hist|]); }
      case DoSubmit(addr, req) =>
        var k := SlotFor(s.slots, addr);
        if req.argsLen > CMD_ARG_MAX || k == |s.slots| || |s.slots[k].q| >= CMD_QUEUE_DEPTH {
          FedNothing(s, i);
        } else {
          if k == i { x := [Cmd(s.nextHandle, req)]; }
          SubmitFeeds(s, env, k, req, i, x);
        }
    }
  }

  lemma SubmitFeeds(s: State, env: Env, k: nat, req: Request, i: nat, x: seq<Cmd>)
    requires WF(s) && i < SLOT_MAX && k < SLOT_MAX && s.slots[i].inUse && s.slots[k].inUse && DistinctAddrs(s.slots)
    requires |s.slots[k].q| < CMD_QUEUE_DEPTH && req.argsLen <= CMD_ARG_MAX
    requires x == if k == i then [Cmd(s.nextHandle, req)] else []
    ensures Fed(s, Pump(Enqueue(s, k, req), env, k), i, x)
  {
    hide Pump;
    var e := Enqueue(s, k, req);
    var t := Pump(e, env, k);
    Snoc(s.hist, Accepted(s.slots[k].addr, s.nextHandle));
    PumpShape(e, env, k);
    TookSplits(s.hist, e.hist, t.hist, s.slots[i].addr);
    assert !Took(e.hist, |s.hist|, s.slots[i].addr);
    assert k != i ==> s.slots[k].addr != s.slots[i].addr;
    assert k != i ==> s.slots[i].q + x == s.slots[i].q;
    hide AcceptedOf, DoneOf, Took;
    assert Handles([]) == [];
    assert AcceptedOf(s.hist, s.slots[i].addr) + [] == AcceptedOf(s.hist, s.slots[i].addr);
    assert k == i ==> Handles(x) == [s.nextHandle];
  }

  lemma {:induction false} PerformFeeds(s: State, env: Env, acts: seq<Action>, i: nat) returns (x: seq<Cmd>)
    requires WF(s) && i < SLOT_MAX && s.slots[i].inUse && DistinctAddrs(s.slots)
    ensures Fed(s, Perform(s, env, acts), i, x)
    decreases |acts|
  {
    hide Act, Took;
    if acts == [] {
      x := [];
      FedNothing(s, i);
    } else {
      var t := Act(s, env, acts[0]);
      var y := ActFeeds(s, env, acts[0], i);
      var z := PerformFeeds(t, env, acts[1..], i);
      FedTrans(s, t, Perform(t, env, acts[1..]), i, y, z);
      x := y + z;
    }
  }

  // ---- the drain loop --------------------------------------------------------

  /** One accepted handle is missing among the completed ones, which keep their order; `rest` is still to come. */
  ghost predicate OneMissing(accepted: seq<nat>, done: seq<nat>, rest: seq<nat>) {
    exists m: nat, l: nat :: m <= |done| && accepted == done[..m] + [l] + done[m..] + rest
  }

  lemma MissingLast(accepted: seq<nat>, done: seq<nat>, l: nat, rest: seq<nat>)
    requires accepted == done + ([l] + rest)
    ensures OneMissing(accepted, done, rest)
  {
    var m := |done|;
    assert done[..m] == done && done[m..] == [];
    assert accepted == done[..m] + [l] + done[m..] + rest;
  }

  lemma MissingDiffers(accepted: seq<nat>, done: seq<nat>)
    requires OneMissing(accepted, done, [])
    ensures accepted != done
  {}

  lemma HandlesAdd(q: seq<Cmd>, x: seq<Cmd>)
    ensures Handles(q + x) == Handles(q) + Handles(x)
  {}

  lemma HandlesFront(q: seq<Cmd>)
    requires q != []
    ensures Handles(q) == [q[0].handle] + Handles(q[1..])
  {}

  /** Where the slot stands during a reset: idle with nothing lost, or busy with one command lost. */
  ghost predicate Standing(s: State, i: nat, lost: bool)
    requires i < |s.slots|
  {
    var slot := s.slots[i];
    var accepted, done := AcceptedOf(s.hist, slot.addr), DoneOf(s.hist, slot.addr);
    if lost then !slot.phase.Idle? && OneMissing(accepted, done, Handles(slot.q))
    else slot.phase.Idle? && accepted == done + Handles(slot.q)
  }

  lemma NoneLost(accepted: seq<nat>, done: seq<nat>, q: seq<Cmd>, x: seq<Cmd>)
    requires q != [] && accepted == done + Handles(q) + Handles(x)
    ensures accepted == (done + [q[0].handle]) + Handles((q + x)[1..])
    ensures x != [] ==> OneMissing(accepted, done + [q[0].handle], Handles((q + x)[1..][1..]))
  {
    hide Handles, OneMissing;
    var d, r := done + [q[0].handle], (q + x)[1..];
    HandlesAdd(q, x);
    HandlesFront(q + x);
    assert accepted == done + (Handles(q) + Handles(x));
    assert done + ([q[0].handle] + Handles(r)) == d + Handles(r);
    if x != [] {
      HandlesFront(r);
      MissingLast(accepted, d, r[0].handle, Handles(r[1..]));
    }
  }

  lemma MissingGrows(accepted: seq<nat>, done: seq<nat>, m: nat, l: nat, rest: seq<nat>, more: seq<nat>, c: nat,
          tail: seq<nat>)
    requires m <= |done| && accepted == done[..m] + [l] + done[m..] + rest && rest + more == [c] + tail
    ensures OneMissing(accepted + more, done + [c], tail)
  {
    var d := done + [c];
    var head := done[..m] + [l] + done[m..];
    assert d[..m] == done[..m] && d[m..] == done[m..] + [c];
    assert accepted + more == head + (rest + more);
    assert d[..m] + [l] + d[m..] + tail == head + ([c] + tail);
  }

  lemma StillOneMissing(accepted: seq<nat>, done: seq<nat>, q: seq<Cmd>, x: seq<Cmd>)
    requires q != [] && OneMissing(accepted, done, Handles(q))
    ensures OneMissing(accepted + Handles(x), done + [q[0].handle], Handles((q + x)[1..]))
  {
    hide Handles;
    var m: nat, l: nat :| m <= |done| && accepted == done[..m] + [l] + done[m..] + Handles(q);
    HandlesAdd(q, x);
    HandlesFront(q + x);
    MissingGrows(accepted, done, m, l, Handles(q), Handles(x), q[0].handle, Handles((q + x)[1..]));
  }

  /** One turn of the drain loop. */
  lemma FrontStanding(s: State, env: Env, i: nat, status: nat, lost: bool)
    requires WF(s) && i < SLOT_MAX && s.slots[i].inUse && DistinctAddrs(s.slots) && s.slots[i].q != []
    requires Standing(s, i, lost)
    ensures var t := AbortFront(s, env, i, status);
      var took := Took(t.hist, |s.hist|, s.slots[i].addr);
      && SameAddrs(s, t) && Extends(s.hist, t.hist) && t.dx.up == s.dx.up && t.slots[i].faulted == s.slots[i].faulted
      && Standing(t, i, lost || took) && (took ==> s.dx.up && !s.slots[i].faulted && !lost)
  {
    hide Perform, Took, OneMissing;
    var slot, addr := s.slots[i], s.slots[i].addr;
    var e := Done(addr, slot.q[0].handle, status);
    var d := s.(hist := s.hist + [e]);
    Snoc(s.hist, e);
    assert SlotShape(slot);
    var acts := env.abort(|s.hist|, addr);
    var x := PerformFeeds(d, env, acts, i);
    var p := Perform(d, env, acts);
    var t := AbortFront(s, env, i, status);
    OneDone(s.hist, e, addr);
    TookSplits(s.hist, d.hist, p.hist, addr);
    assert AcceptedOf(s.hist, addr) + [] == AcceptedOf(s.hist, addr);
    assert t.slots[i].q == p.slots[i].q[1..] && t.hist == p.hist;
    if lost {
      StillOneMissing(AcceptedOf(s.hist, addr), DoneOf(s.hist, addr), slot.q, x);
    } else {
      NoneLost(AcceptedOf(p.hist, addr), DoneOf(s.hist, addr), slot.q, x);
    }
  }

  lemma OneDone(h: seq<Event>, e: Event, addr: nat)
    requires e.Done?
    ensures Extends(h, h + [e]) && !Took(h + [e], |h|, addr)
  {}

  lemma {:induction false} DrainStanding(s: State, env: Env, i: nat, status: nat, limit: nat, lost: bool)
    requires WF(s) && i < SLOT_MAX && s.slots[i].inUse && DistinctAddrs(s.slots) && Standing(s, i, lost)
    ensures var t := Drain(s, env, i, status, limit).s;
      var took := Took(t.hist, |s.hist|, s.slots[i].addr);
      && SameAddrs(s, t) && Extends(s.hist, t.hist) && Standing(t, i, lost || took)
      && (took ==> s.dx.up && !s.slots[i].faulted)
      && (Drain(s, env, i, status, limit).ended ==> t.slots[i].q == [])
    decreases limit
  {
    hide AbortFront, Standing, Took;
    if s.slots[i].q == [] || limit == 0 {
      NothingTook(s.hist, s.slots[i].addr);
    } else {
      var t := AbortFront(s, env, i, status);
      var took := Took(t.hist, |s.hist|, s.slots[i].addr);
      FrontStanding(s, env, i, status, lost);
      DrainStanding(t, env, i, status, limit - 1, lost || took);
      TookSplits(s.hist, t.hist, Drain(t, env, i, status, limit - 1).s.hist, s.slots[i].addr);
    }
  }

  lemma NothingTook(h: seq<Event>, addr: nat)
    ensures Extends(h, h) && !Took(h, |h|, addr)
  {}

  // ---- the whole reset of a slot ---------------------------------------------

  /** The completion of the command in flight, whose callback acts too. */
  lemma ReleasedStanding(s: State, env: Env, i: nat, status: nat)
    requires Inv(s) && i < SLOT_MAX && s.slots[i].inUse
    ensures var f := Released(s, env, i, status);
      var took := Took(f.hist, |s.hist|, s.slots[i].addr);
      && SameAddrs(s, f) && Extends(s.hist, f.hist) && f.dx.up == s.dx.up && f.slots[i].faulted == s.slots[i].faulted
      && Standing(f, i, took) && (took ==> s.dx.up && !s.slots[i].faulted)
  {
    hide Perform, Took, OneMissing;
    var slot, addr := s.slots[i], s.slots[i].addr;
    assert SlotConserves(s, i) && SlotShape(slot);
    if slot.inflight.None? {
      NothingTook(s.hist, addr);
      assert Owed(slot) == Handles(slot.q);
    } else {
      var e := Done(addr, slot.inflight.value.handle, status);
      var d := Finished(s, i, status);
      Snoc(s.hist, e);
      OneDone(s.hist, e, addr);
      assert AcceptedOf(d.hist, addr) == DoneOf(d.hist, addr) + Handles(slot.q);
      var acts := env.abort(|s.hist|, addr);
      var x := PerformFeeds(d, env, acts, i);
      TookSplits(s.hist, d.hist, Perform(d, env, acts).hist, addr);
      ReleasedMissing(AcceptedOf(d.hist, addr), DoneOf(d.hist, addr), slot.q, x);
    }
  }

  lemma ReleasedMissing(accepted: seq<nat>, done: seq<nat>, q: seq<Cmd>, x: seq<Cmd>)
    requires accepted == done + Handles(q)
    ensures accepted + Handles(x) == done + Handles(q + x)
    ensures x != [] ==> OneMissing(accepted + Handles(x), done, Handles((q + x)[1..]))
  {
    hide Handles, OneMissing;
    HandlesAdd(q, x);
    if x != [] {
      HandlesFront(q + x);
      MissingLast(accepted + Handles(x), done, (q + x)[0].handle, Handles((q + x)[1..]));
    }
  }

  /**
   When the reset of a slot ends, whatever its callbacks do, everything the slave accepted is completed if
   and only if none of its frames went out meanwhile, that is if the link took nothing that the callbacks
   submitted to it. Otherwise exactly one command is never completed. While the link is down or the
   interlock is tripped nothing can be lost.
   */
  lemma ResetLosesIff(s: State, env: Env, i: nat, status: nat, limit: nat)
    requires Inv(s) && i < SLOT_MAX && s.slots[i].inUse && ResetSlot(s, env, i, status, limit).ended
    ensures var t, addr := ResetSlot(s, env, i, status, limit).s, s.slots[i].addr;
      var took := Took(t.hist, |s.hist|, addr);
      && (AcceptedOf(t.hist, addr) == DoneOf(t.hist, addr) <==> !took)
      && (took ==> OneMissing(AcceptedOf(t.hist, addr), DoneOf(t.hist, addr), []))
      && (took ==> s.dx.up && !s.slots[i].faulted)
  {
    hide Took, AcceptedOf, DoneOf, Perform;
    var addr := s.slots[i].addr;
    var f := Released(s, env, i, status);
    ReleasedStanding(s, env, i, status);
    DistinctKept(s, f);
    var lost := Took(f.hist, |s.hist|, addr);
    DrainStanding(f, env, i, status, limit, lost);
    var d := Drain(f, env, i, status, limit);
    TookSplits(s.hist, f.hist, d.s.hist, addr);
    var accepted, done := AcceptedOf(d.s.hist, addr), DoneOf(d.s.hist, addr);
    assert Handles(d.s.slots[i].q) == [] && done + [] == done;
    if Took(d.s.hist, |s.hist|, addr) { MissingDiffers(accepted, done); }
  }

  lemma DistinctKept(s: State, t: State)
    requires DistinctAddrs(s.slots) && SameAddrs(s, t)
    ensures DistinctAddrs(t.slots)
  {}

  /** The command whose callback's submission was taken is itself what went out, after it was reported done. */
  lemma SentAfterDone(s: State, env: Env, i: nat, status: nat)
    requires WF(s) && i < SLOT_MAX && s.slots[i].inUse && DistinctAddrs(s.slots)
    requires s.slots[i].phase.Idle? && s.slots[i].q != []
    requires Took(AbortFront(s, env, i, status).hist, |s.hist|, s.slots[i].addr)
    ensures var t, c := AbortFront(s, env, i, status), s.slots[i].q[0];
      && |t.hist| > |s.hist| && t.hist[|s.hist|] == Done(s.slots[i].addr, c.handle, status)
      && t.slots[i].inflight == Some(c)
  {
    hide Perform, Took, AcceptedOf, DoneOf;
    var addr := s.slots[i].addr;
    var e := Done(addr, s.slots[i].q[0].handle, status);
    var d := s.(hist := s.hist + [e]);
    var acts := env.abort(|s.hist|, addr);
    var x := PerformFeeds(d, env, acts, i);
    var p := Perform(d, env, acts);
    OneDone(s.hist, e, addr);
    TookSplits(s.hist, d.hist, p.hist, addr);
    assert p.hist[|s.hist|] == p.hist[..|d.hist|][|s.hist|];
  }

  // ---- a single submission ---------------------------------------------------

  /**
   Would a submission of the `m`-th callback of this reset be taken? The callback must run, the command must
   be legal and find room, and the link must take a frame now under a usable id.
   */
  ghost predicate SubmissionTaken(s: State, env: Env, i: nat, m: nat, req: Request)
    requires i < |s.slots|
  {
    var slot := s.slots[i];
    var left := if slot.inflight.None? then |slot.q| - m else if m == 0 then |slot.q| else |slot.q| - (m - 1);
    && m < |Owed(slot)| && req.argsLen <= CMD_ARG_MAX && left < CMD_QUEUE_DEPTH && LinkTakes(s, env, i)
  }

  ghost predicate LinkTakes(s: State, env: Env, i: nat)
    requires i < |s.slots|
  {
    && !s.slots[i].faulted && s.dx.up && env.accepts(s.dx.nextId)
    && FirstFree(s.dx.table, 0) < |s.dx.table| && Wire(s.dx.nextId) != ERROR_RID
  }

  /** The `m`-th callback from here submits `req` to the slave; the others do nothing. */
  ghost predicate OneActs(s: State, env: Env, addr: nat, m: nat, req: Request) {
    forall n :: n >= |s.hist| ==> env.abort(n, addr) == if n == |s.hist| + m then [DoSubmit(addr, req)] else []
  }

  ghost predicate Silent(s: State, env: Env, addr: nat) {
    forall n :: n >= |s.hist| ==> env.abort(n, addr) == []
  }

  lemma PumpTakes(s: State, env: Env, i: nat)
    requires WF(s) && i < SLOT_MAX && s.slots[i].phase.Idle? && s.slots[i].q != []
    ensures Took(Pump(s, env, i).hist, |s.hist|, s.slots[i].addr) <==> LinkTakes(s, env, i)
  {
    if !s.slots[i].faulted {
      assert SlotShape(s.slots[i]);
      TransmitRid(s.(slots := s.slots[i := s.slots[i].(retries := 0)]), env, i, s.slots[i].q[0]);
    } else {
      NothingTook(s.hist, s.slots[i].addr);
    }
  }

  /** A submission to an idle slot. */
  lemma SubmitTakes(s: State, env: Env, i: nat, req: Request)
    requires WF(s) && i < SLOT_MAX && s.slots[i].inUse && DistinctAddrs(s.slots) && s.slots[i].phase.Idle?
    ensures var addr := s.slots[i].addr; var t := Perform(s, env, [DoSubmit(addr, req)]);
      && SameAddrs(s, t) && Extends(s.hist, t.hist)
      && (Took(t.hist, |s.hist|, addr) <==>
            req.argsLen <= CMD_ARG_MAX && |s.slots[i].q| < CMD_QUEUE_DEPTH && LinkTakes(s, env, i))
      && |t.slots[i].q| <= |s.slots[i].q| + 1
  {
    hide Pump, Took, LinkTakes, SlotShape;
    var addr := s.slots[i].addr;
    var a := DoSubmit(addr, req);
    assert Perform(s, env, [a]) == Act(s, env, a) by { assert [a][1..] == []; }
    assert Matches(s.slots[i], addr) && SlotFor(s.slots, addr) == i;
    if req.argsLen > CMD_ARG_MAX || |s.slots[i].q| >= CMD_QUEUE_DEPTH {
      NothingTook(s.hist, addr);
    } else {
      var e := Enqueue(s, i, req);
      PumpShape(e, env, i);
      PumpTakes(e, env, i);
      SameLink(s, e, env, i);
      OneAccepted(s.hist, Accepted(addr, s.nextHandle), addr);
      TookSplits(s.hist, e.hist, Pump(e, env, i).hist, addr);
    }
  }

  lemma OneAccepted(h: seq<Event>, e: Event, addr: nat)
    requires e.Accepted?
    ensures Extends(h, h + [e]) && !Took(h + [e], |h|, addr)
  {}

  /** With no callback acting the loop only reports. */
  lemma {:induction false} DrainSilent(s: State, env: Env, i: nat, status: nat, limit: nat)
    requires WF(s) && i < SLOT_MAX && |s.slots[i].q| <= limit && Silent(s, env, s.slots[i].addr)
    ensures var d := Drain(s, env, i, status, limit);
      d.ended && Extends(s.hist, d.s.hist) && !Took(d.s.hist, |s.hist|, s.slots[i].addr)
    decreases limit
  {
    hide Took;
    var addr := s.slots[i].addr;
    if s.slots[i].q == [] {
      NothingTook(s.hist, addr);
    } else {
      var t := AbortFront(s, env, i, status);
      assert t == Reported(s, i, status);
      OneDone(s.hist, Done(addr, s.slots[i].q[0].handle, status), addr);
      DrainSilent(t, env, i, status, limit - 1);
      TookSplits(s.hist, t.hist, Drain(t, env, i, status, limit - 1).s.hist, addr);
    }
  }

  /** The turn of the drain loop whose callback submits. */
  lemma FrontActs(s: State, env: Env, i: nat, status: nat, req: Request)
    requires WF(s) && i < SLOT_MAX && s.slots[i].inUse && DistinctAddrs(s.slots) && s.slots[i].phase.Idle?
    requires s.slots[i].q != [] && OneActs(s, env, s.slots[i].addr, 0, req)
    ensures var t, addr := AbortFront(s, env, i, status), s.slots[i].addr;
      && Extends(s.hist, t.hist) && t.slots[i].addr == addr && |t.slots[i].q| <= |s.slots[i].q|
      && Silent(t, env, addr)
      && (Took(t.hist, |s.hist|, addr) <==>
            req.argsLen <= CMD_ARG_MAX && |s.slots[i].q| < CMD_QUEUE_DEPTH && LinkTakes(s, env, i))
  {
    hide Took, LinkTakes, Perform;
    var addr := s.slots[i].addr;
    var e := Done(addr, s.slots[i].q[0].handle, status);
    var d := s.(hist := s.hist + [e]);
    var t := AbortFront(s, env, i, status);
    OneDone(s.hist, e, addr);
    SameLink(s, d, env, i);
    SubmitTakes(d, env, i, req);
    TookSplits(s.hist, d.hist, t.hist, addr);
  }

  /** A turn of the drain loop whose callback does nothing. */
  lemma FrontSilent(s: State, env: Env, i: nat, status: nat)
    requires WF(s) && i < SLOT_MAX && s.slots[i].q != [] && env.abort(|s.hist|, s.slots[i].addr) == []
    ensures var t := AbortFront(s, env, i, status);
      && t == Reported(s, i, status) && Extends(s.hist, t.hist) && |t.hist| == |s.hist| + 1
      && !Took(t.hist, |s.hist|, s.slots[i].addr) && LinkTakes(t, env, i) == LinkTakes(s, env, i)
  {
    OneDone(s.hist, Done(s.slots[i].addr, s.slots[i].q[0].handle, status), s.slots[i].addr);
  }

  lemma {:induction false} DrainOne(s: State, env: Env, i: nat, status: nat, limit: nat, m: nat, req: Request)
    requires WF(s) && i < SLOT_MAX && s.slots[i].inUse && DistinctAddrs(s.slots) && s.slots[i].phase.Idle?
    requires |s.slots[i].q| < limit && OneActs(s, env, s.slots[i].addr, m, req)
    ensures var d := Drain(s, env, i, status, limit);
      && d.ended && Extends(s.hist, d.s.hist)
      && (Took(d.s.hist, |s.hist|, s.slots[i].addr) <==>
            m < |s.slots[i].q| && req.argsLen <= CMD_ARG_MAX && |s.slots[i].q| - m < CMD_QUEUE_DEPTH
            && LinkTakes(s, env, i))
    decreases limit
  {
    hide Took, LinkTakes, AbortFront, SlotShape;
    var addr, q := s.slots[i].addr, s.slots[i].q;
    if q == [] {
      NothingTook(s.hist, addr);
    } else {
      var t := AbortFront(s, env, i, status);
      if m == 0 {
        FrontActs(s, env, i, status, req);
        DrainSilent(t, env, i, status, limit - 1);
      } else {
        FrontSilent(s, env, i, status);
        DrainOne(t, env, i, status, limit - 1, m - 1, req);
      }
      TookSplits(s.hist, t.hist, Drain(t, env, i, status, limit - 1).s.hist, addr);
    }
  }

  lemma SameLink(s: State, t: State, env: Env, i: nat)
    requires i < |s.slots| == |t.slots| && t.dx == s.dx && t.slots[i].faulted == s.slots[i].faulted
    ensures LinkTakes(t, env, i) == LinkTakes(s, env, i)
  {}

  // ---- a client that submits again whatever is aborted -----------------------

  /** Every callback of the reset submits one command to the slave again. */
  ghost predicate Resubmits(env: Env, addr: nat, req: Request) {
    req.argsLen <= CMD_ARG_MAX && forall n :: env.abort(n, addr) == [DoSubmit(addr, req)]
  }

  ghost function FreeCount(t: seq<Entry>): nat { FreeBelow(t, |t|) }

  lemma HasRoom(t: seq<Entry>)
    ensures FirstFree(t, 0) < |t| <==> FreeCount(t) > 0
  {
    FreeBelowZero(t, |t|);
  }

  /** The link would take a frame under this id, and the tracker would not take the id for an error. */
  predicate TakesId(env: Env, id: nat) { env.accepts(id) && Wire(id) != ERROR_RID }

  /** How many of the next `m` ids the link takes although the tracker takes them for errors. */
  ghost function StrayIds(env: Env, id: nat, m: nat): nat
    decreases m
  {
    if m == 0 then 0
    else (if env.accepts(id) && Wire(id) == ERROR_RID then 1 else 0) + StrayIds(env, id + 1, m - 1)
  }

  /** The link takes a frame under this id or a later one, before strays have filled the table. */
  ghost predicate TakesLater(env: Env, id: nat, free: nat) {
    exists m: nat :: TakesWith(env, id, free, m)
  }

  ghost predicate TakesWith(env: Env, id: nat, free: nat, m: nat) {
    TakesId(env, id + m) && StrayIds(env, id, m) < free
  }

  /** Sooner or later a frame of this slave goes out: the gate and the link are open, and the link takes one. */
  ghost predicate GoesOut(s: State, env: Env, i: nat)
    requires i < |s.slots|
  {
    !s.slots[i].faulted && s.dx.up && TakesLater(env, s.dx.nextId, FreeCount(s.dx.table))
  }

  /** After an attempt the link did not take, or took as a stray, the prospects are the same. */
  ghost predicate Attempted(s: State, t: State, env: Env) {
    && t.dx.up == s.dx.up
    && if FreeCount(s.dx.table) == 0 then t.dx == s.dx
       else t.dx.nextId == s.dx.nextId + 1
            && FreeCount(t.dx.table) == FreeCount(s.dx.table) - if env.accepts(s.dx.nextId) then 1 else 0
  }

  lemma SameProspects(s: State, t: State, env: Env, i: nat)
    requires i < |s.slots| == |t.slots| && t.slots[i].faulted == s.slots[i].faulted && !LinkTakes(s, env, i)
    requires !s.slots[i].faulted && s.dx.up ==> Attempted(s, t, env)
    requires t.dx.up == s.dx.up
    ensures GoesOut(t, env, i) <==> GoesOut(s, env, i)
  {
    HasRoom(s.dx.table);
    var id, free := s.dx.nextId, FreeCount(s.dx.table);
    if !s.slots[i].faulted && s.dx.up && free > 0 {
      assert !TakesId(env, id);
      var later := FreeCount(t.dx.table);
      if TakesLater(env, id, free) {
        var m: nat :| TakesWith(env, id, free, m);
        assert id + m == id + 1 + (m - 1);
        assert TakesWith(env, id + 1, later, m - 1);
      }
      if TakesLater(env, id + 1, later) {
        var m: nat :| TakesWith(env, id + 1, later, m);
        assert id + 1 + m == id + (m + 1);
        assert TakesWith(env, id, free, m + 1);
      }
    }
  }

  lemma PumpAttempts(s: State, env: Env, i: nat)
    requires WF(s) && i < SLOT_MAX && s.slots[i].phase.Idle? && s.slots[i].q != [] && !s.slots[i].faulted && s.dx.up
    ensures Attempted(s, Pump(s, env, i), env)
  {
    var j := FirstFree(s.dx.table, 0);
    HasRoom(s.dx.table);
    assert SlotShape(s.slots[i]);
    if j < |s.dx.table| {
      FreeBelowUpdate(s.dx.table, j, Used(Wire(s.dx.nextId), SlotOwner(i), env.clock(|s.hist|), |s.hist|), |s.dx.table|);
    }
  }

  /** What a legal submission does to the slot: refused for want of room, taken by the link, or left in the queue. */
  lemma Resubmission(s: State, env: Env, i: nat, req: Request)
    requires WF(s) && i < SLOT_MAX && s.slots[i].inUse && DistinctAddrs(s.slots) && req.argsLen <= CMD_ARG_MAX
    ensures var t, slot := Perform(s, env, [DoSubmit(s.slots[i].addr, req)]), s.slots[i];
      && SameAddrs(s, t) && t.slots[i].faulted == slot.faulted && t.dx.up == s.dx.up
      && if |slot.q| >= CMD_QUEUE_DEPTH then t == s
         else if slot.phase.Idle? && LinkTakes(s, env, i) then !t.slots[i].phase.Idle? && |t.slots[i].q| == |slot.q|
         else t.slots[i].phase == slot.phase && |t.slots[i].q| == |slot.q| + 1
              && (slot.phase.Idle? && !slot.faulted && s.dx.up ==> Attempted(s, t, env))
  {
    hide Pump, Took;
    var addr := s.slots[i].addr;
    var a := DoSubmit(addr, req);
    assert Perform(s, env, [a]) == Act(s, env, a) by { assert [a][1..] == []; }
    assert Matches(s.slots[i], addr) && SlotFor(s.slots, addr) == i;
    if |s.slots[i].q| < CMD_QUEUE_DEPTH {
      var e := Enqueue(s, i, req);
      PumpShape(e, env, i);
      SameLink(s, e, env, i);
      if s.slots[i].phase.Idle? {
        PumpTakes(e, env, i);
        if !s.slots[i].faulted && s.dx.up { PumpAttempts(e, env, i); }
      }
    }
  }

  /** One turn of the drain loop, seen by the length of the queue. */
  lemma FrontResubmits(s: State, env: Env, i: nat, status: nat, req: Request)
    requires WF(s) && i < SLOT_MAX && s.slots[i].inUse && DistinctAddrs(s.slots) && s.slots[i].q != []
    requires Resubmits(env, s.slots[i].addr, req)
    ensures var t, slot := AbortFront(s, env, i, status), s.slots[i];
      && SameAddrs(s, t) && t.slots[i].faulted == slot.faulted && t.dx.up == s.dx.up
      && if |slot.q| >= CMD_QUEUE_DEPTH then t.slots[i].phase == slot.phase && |t.slots[i].q| == |slot.q| - 1
         else if slot.phase.Idle? && LinkTakes(s, env, i) then !t.slots[i].phase.Idle? && |t.slots[i].q| == |slot.q| - 1
         else t.slots[i].phase == slot.phase && |t.slots[i].q| == |slot.q|
              && (slot.phase.Idle? && !slot.faulted && s.dx.up ==> Attempted(s, t, env))
  {
    hide Perform, LinkTakes, FreeCount;
    var d := s.(hist := s.hist + [Done(s.slots[i].addr, s.slots[i].q[0].handle, status)]);
    SameLink(s, d, env, i);
    Resubmission(d, env, i, req);
  }

  /** Idle with two queued, or busy with one queued: the queue never runs empty. */
  predicate Crowded(slot: Slot) { |slot.q| >= if slot.phase.Idle? then 2 else 1 }

  lemma {:induction false} CrowdedNeverEnds(s: State, env: Env, i: nat, status: nat, limit: nat, req: Request)
    requires WF(s) && i < SLOT_MAX && s.slots[i].inUse && DistinctAddrs(s.slots) && Crowded(s.slots[i])
    requires Resubmits(env, s.slots[i].addr, req)
    ensures !Drain(s, env, i, status, limit).ended
    decreases limit
  {
    hide AbortFront, LinkTakes, Attempted, SlotShape;
    if limit > 0 {
      FrontResubmits(s, env, i, status, req);
      DistinctKept(s, AbortFront(s, env, i, status));
      CrowdedNeverEnds(AbortFront(s, env, i, status), env, i, status, limit - 1, req);
    }
  }

  /** One command left, and the slot idle. */
  ghost predicate OneLeft(s: State, i: nat) {
    WF(s) && i < SLOT_MAX && s.slots[i].inUse && DistinctAddrs(s.slots) && s.slots[i].phase.Idle? && |s.slots[i].q| == 1
  }

  lemma OneLeftTurn(s: State, env: Env, i: nat, status: nat, req: Request)
    requires OneLeft(s, i) && Resubmits(env, s.slots[i].addr, req)
    ensures var t := AbortFront(s, env, i, status);
      if LinkTakes(s, env, i) then t.slots[i].q == []
      else && OneLeft(t, i) && t.slots[i].addr == s.slots[i].addr && (GoesOut(t, env, i) <==> GoesOut(s, env, i))
           && (GoesOut(s, env, i) ==> Attempted(s, t, env))
  {
    hide AbortFront, LinkTakes, Attempted, SlotShape;
    var t := AbortFront(s, env, i, status);
    FrontResubmits(s, env, i, status, req);
    DistinctKept(s, t);
    if !LinkTakes(s, env, i) { SameProspects(s, t, env, i); }
  }

  lemma {:induction false} OneLeftEnds(s: State, env: Env, i: nat, status: nat, req: Request, m: nat)
    requires OneLeft(s, i) && Resubmits(env, s.slots[i].addr, req) && !s.slots[i].faulted && s.dx.up
    requires TakesWith(env, s.dx.nextId, FreeCount(s.dx.table), m)
    ensures Drain(s, env, i, status, m + 1).ended
    decreases m
  {
    hide AbortFront, SlotShape;
    var t := AbortFront(s, env, i, status);
    OneLeftTurn(s, env, i, status, req);
    HasRoom(s.dx.table);
    if !LinkTakes(s, env, i) {
      assert GoesOut(s, env, i);
      assert s.dx.nextId + m == t.dx.nextId + (m - 1);
      OneLeftEnds(t, env, i, status, req, m - 1);
    }
  }

  lemma {:induction false} OneLeftNeverEnds(s: State, env: Env, i: nat, status: nat, limit: nat, req: Request)
    requires OneLeft(s, i) && Resubmits(env, s.slots[i].addr, req) && !GoesOut(s, env, i)
    ensures !Drain(s, env, i, status, limit).ended
    decreases limit
  {
    hide AbortFront, SlotShape, Attempted;
    if limit > 0 {
      OneLeftTurn(s, env, i, status, req);
      TakenGoesOut(s, env, i);
      OneLeftNeverEnds(AbortFront(s, env, i, status), env, i, status, limit - 1, req);
    }
  }

  lemma TakenGoesOut(s: State, env: Env, i: nat)
    requires i < |s.slots|
    ensures LinkTakes(s, env, i) ==> GoesOut(s, env, i)
  {
    HasRoom(s.dx.table);
    if LinkTakes(s, env, i) { assert TakesWith(env, s.dx.nextId, FreeCount(s.dx.table), 0); }
  }

  /** Does the reset of the slot end, for some number of turns of its drain loop? */
  ghost predicate Ends(s: State, env: Env, i: nat, status: nat)
    requires WF(s) && i < SLOT_MAX
  {
    exists limit: nat :: ResetSlot(s, env, i, status, limit).ended
  }

  /**
   If the client submits again whatever is aborted, the reset of a slot ends if and only if it had nothing to
   abort, or a single command and a frame of the slave goes out in the course of the reset. With two commands or
   more it never ends, whatever the link does.
   */
  lemma ResubmittingEndsIff(s: State, env: Env, i: nat, status: nat, req: Request)
    requires WF(s) && i < SLOT_MAX && s.slots[i].inUse && DistinctAddrs(s.slots)
    requires Resubmits(env, s.slots[i].addr, req)
    ensures Ends(s, env, i, status) <==> |Owed(s.slots[i])| == 0 || (|Owed(s.slots[i])| == 1 && GoesOut(s, env, i))
    ensures LinkTakes(s, env, i) ==> GoesOut(s, env, i)
    ensures s.slots[i].faulted || !s.dx.up || FreeCount(s.dx.table) == 0 ==> !GoesOut(s, env, i)
  {
    hide Perform, Drain, LinkTakes;
    TakenGoesOut(s, env, i);
    var f := Released(s, env, i, status);
    ReleasedLeaves(s, env, i, status, req);
    hide Released;
    if f.slots[i].q == [] {
      EmptyEnds(f, env, i, status);
      assert ResetSlot(s, env, i, status, 0).ended by { ResetDrains(s, env, i, status, 0); }
    } else if Crowded(f.slots[i]) {
      forall limit: nat
        ensures !ResetSlot(s, env, i, status, limit).ended
      {
        CrowdedNeverEnds(f, env, i, status, limit, req);
        ResetDrains(s, env, i, status, limit);
      }
    } else if GoesOut(f, env, i) {
      var m: nat :| TakesWith(env, f.dx.nextId, FreeCount(f.dx.table), m);
      OneLeftEnds(f, env, i, status, req, m);
      assert ResetSlot(s, env, i, status, m + 1).ended by { ResetDrains(s, env, i, status, m + 1); }
    } else {
      forall limit: nat
        ensures !ResetSlot(s, env, i, status, limit).ended
      {
        OneLeftNeverEnds(f, env, i, status, limit, req);
        ResetDrains(s, env, i, status, limit);
      }
    }
  }

  lemma ResetDrains(s: State, env: Env, i: nat, status: nat, limit: nat)
    requires WF(s) && i < SLOT_MAX && s.slots[i].inUse
    ensures ResetSlot(s, env, i, status, limit).ended == Drain(Released(s, env, i, status), env, i, status, limit).ended
  {
    hide Perform, Drain;
  }

  /** What the callback of the command in flight leaves to the drain loop. */
  lemma ReleasedLeaves(s: State, env: Env, i: nat, status: nat, req: Request)
    requires WF(s) && i < SLOT_MAX && s.slots[i].inUse && DistinctAddrs(s.slots)
    requires Resubmits(env, s.slots[i].addr, req)
    ensures var f, owed := Released(s, env, i, status), |Owed(s.slots[i])|;
      && SameAddrs(s, f) && DistinctAddrs(f.slots)
      && (owed == 0 ==> f.slots[i].q == [])
      && (owed >= 2 ==> Crowded(f.slots[i]))
      && (owed == 1 ==>
            || (f.slots[i].q == [] && GoesOut(s, env, i))
            || (OneLeft(f, i) && (GoesOut(f, env, i) <==> GoesOut(s, env, i))))
  {
    hide Perform, LinkTakes, Attempted, TakesLater;
    var slot := s.slots[i];
    assert SlotShape(slot);
    var f := Released(s, env, i, status);
    if slot.inflight.Some? {
      var d := Finished(s, i, status);
      SameLink(s, d, env, i);
      Resubmission(d, env, i, req);
      DistinctKept(d, f);
      TakenGoesOut(s, env, i);
      if slot.q == [] && !LinkTakes(d, env, i) { SameProspects(d, f, env, i); }
    }
  }

  lemma EmptyEnds(s: State, env: Env, i: nat, status: nat)
    requires WF(s) && i < SLOT_MAX && s.slots[i].q == []
    ensures Drain(s, env, i, status, 0).ended
  {}

  // ---- the single submission, over the whole reset ---------------------------

  /**
   If one callback of a reset submits one command to its own slave, and the others do nothing, then the reset
   ends, and it loses a command if and only if that submission is taken, which can be told beforehand.
   */
  lemma OneSubmissionLosesIff(s: State, env: Env, i: nat, status: nat, limit: nat, m: nat, req: Request)
    requires Inv(s) && i < SLOT_MAX && s.slots[i].inUse && limit > CMD_QUEUE_DEPTH
    requires OneActs(s, env, s.slots[i].addr, m, req)
    ensures var r, addr := ResetSlot(s, env, i, status, limit), s.slots[i].addr;
      r.ended && (AcceptedOf(r.s.hist, addr) == DoneOf(r.s.hist, addr) <==> !SubmissionTaken(s, env, i, m, req))
  {
    hide Took, LinkTakes, AcceptedOf, DoneOf, Drain;
    var slot, addr := s.slots[i], s.slots[i].addr;
    assert SlotShape(slot);
    var f := Released(s, env, i, status);
    if slot.inflight.None? {
      DrainOne(s, env, i, status, limit, m, req);
    } else {
      var e := Done(addr, slot.inflight.value.handle, status);
      var d := Finished(s, i, status);
      OneDone(s.hist, e, addr);
      SameLink(s, d, env, i);
      if m == 0 {
        hide Perform;
        SubmitTakes(d, env, i, req);
        TookSplits(s.hist, d.hist, f.hist, addr);
        DrainSilent(f, env, i, status, limit);
      } else {
        assert f == d;
        DrainOne(f, env, i, status, limit, m - 1, req);
      }
      TookSplits(s.hist, f.hist, Drain(f, env, i, status, limit).s.hist, addr);
    }
    ResetLosesIff(s, env, i, status, limit);
  }

  // ---- an input that loses a command -----------------------------------------

  const LOST := Request(0, 0, 0)

  /** `n` commands queued for the slave at address 10 while the link is down. */
  ghost predicate Backed(s: State, n: nat) {
    && WF(s) && !s.dx.up && s.dx.nextId == n + 1 && (forall j :: 0 <= j < PENDING_MAX ==> s.dx.table[j].Free?)
    && s.slots[0].inUse && s.slots[0].addr == 10 && s.slots[0].phase.Idle? && !s.slots[0].faulted && |s.slots[0].q| == n
  }

  lemma BackOne(s: State, n: nat)
    requires Backed(s, n) && n < CMD_QUEUE_DEPTH
    ensures Backed(Submit(s, Willing(), 10, LOST).s, n + 1)
  {
    assert Matches(s.slots[0], 10) && SlotFor(s.slots, 10) == 0;
    assert s.dx.table[0].Free?;
    var e := Enqueue(s, 0, LOST);
    assert SlotShape(e.slots[0]) && e.slots[0].q[0].req.argsLen <= CMD_ARG_MAX;
    hide SlotShape;
  }

  lemma StartBacked()
    ensures Backed(AddSlave(Init(), 10), 0)
  {
    assert FirstUnused(Init().slots, 0) == 0;
  }

  /**
   An execution and a reset callback with which a command is lost: two commands are queued while the link is
   down, the link comes up, and at the reset the callback of the first submits one more.
   */
  lemma SecondCommandLost() returns (run: seq<State>, ops: seq<Op>, env: Env)
    ensures IsRun(run, Willing(), ops) && WF(run[|ops|]) && OneActs(run[|ops|], env, 10, 0, LOST)
    ensures var r := ResetSlot(run[|ops|], env, 0, STATUS_LINK_DOWN, 6);
      r.ended && AcceptedOf(r.s.hist, 10) != DoneOf(r.s.hist, 10)
      && OneMissing(AcceptedOf(r.s.hist, 10), DoneOf(r.s.hist, 10), [])
  {
    hide Step, Backed, ResetSlot, Took, AcceptedOf, DoneOf, OneMissing, LinkTakes, SubmissionTaken;
    hide SlotShape, FirstActs, OneActs;
    run, ops := [Init()], [];
    StartBacked();
    AddIsStep(Init(), Willing(), 10);
    run, ops := RunOn(run, Willing(), ops, OpAddSlave(10));
    BackOne(run[|ops|], 0);
    SubmitIsStep(run[|ops|], Willing(), 10, LOST);
    run, ops := RunOn(run, Willing(), ops, OpSubmit(10, LOST));
    BackOne(run[|ops|], 1);
    SubmitIsStep(run[|ops|], Willing(), 10, LOST);
    run, ops := RunOn(run, Willing(), ops, OpSubmit(10, LOST));
    var before := run[|ops|];
    UpIsStep(before, Willing());
    run, ops := RunOn(run, Willing(), ops, OpLink(true));
    var s := run[|ops|];
    Reachable(run, Willing(), ops, |ops|);
    env := FirstActs(|s.hist|);
    FirstActsIs(s);
    ReadyToLose(before, s, env);
    OneSubmissionLosesIff(s, env, 0, STATUS_LINK_DOWN, 6, 0, LOST);
    ResetLosesIff(s, env, 0, STATUS_LINK_DOWN, 6);
  }

  /** The callback fired at position `at` of the history submits to the slave at address 10. */
  ghost function FirstActs(at: nat): Env {
    Willing().(abort := (n, addr) => if n == at && addr == 10 then [DoSubmit(10, LOST)] else [])
  }

  lemma FirstActsIs(s: State)
    ensures OneActs(s, FirstActs(|s.hist|), 10, 0, LOST) && FirstActs(|s.hist|).accepts == Willing().accepts
  {}

  lemma ReadyToLose(b: State, s: State, env: Env)
    requires Backed(b, 2) && s == b.(dx := b.dx.(up := true)) && env.accepts == Willing().accepts
    ensures s.slots[0].inUse && s.slots[0].addr == 10 && SubmissionTaken(s, env, 0, 0, LOST)
  {
    assert SlotShape(s.slots[0]);
    assert s.dx.table[0].Free? && FirstFree(s.dx.table, 0) == 0;
    assert Owed(s.slots[0]) == Handles(s.slots[0].q);
  }

  lemma UpIsStep(s: State, env: Env)
    requires WF(s)
    ensures Step(s, env, OpLink(true)) == s.(dx := s.dx.(up := true))
  {
    hide WF;
  }
}
