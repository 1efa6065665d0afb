/**
 The promises of the command stack over whole runs, read off the invariant: conservation and
 order, coupling of the two tables, bounded transmission, no cross-talk from stale replies, and
 exactly what the 16-bit request id costs.
 */
module BusTheorems {
  import opened BusTypes
  import opened BusModel
  import opened BusInvariant
  import opened BusCoupling

  /** What `addr` is still owed: its command in flight, then its queue; nothing if it has no slot. */
  ghost function Backlog(s: State, addr: nat): seq<nat> {
    var i := SlotFor(s.slots, addr);
    if i < |s.slots| then Owed(s.slots[i]) else []
  }

  /**
   At every moment of every execution in which callbacks of a reset spare the slave being reset, for every
   slave: the accepted handles are the completed ones, then the one in flight, then the queue. Nothing is lost,
   duplicated or reordered, and nothing is completed twice.
   */
  lemma CommandsConserved(run: seq<State>, env: Env, ops: seq<Op>, k: nat, addr: nat)
    requires IsRun(run, env, ops) && k < |run|
    ensures AcceptedOf(run[k].hist, addr) == DoneOf(run[k].hist, addr) + Backlog(run[k], addr)
    ensures Increasing(AcceptedOf(run[k].hist, addr), run[k].nextHandle)
    ensures Increasing(DoneOf(run[k].hist, addr), run[k].nextHandle)
  {
    Reachable(run, env, ops, k);
    var s := run[k];
    var i := SlotFor(s.slots, addr);
    if i < |s.slots| {
      assert SlotConserves(s, i);
    } else {
      assert Unassigned(s.slots, addr);
    }
    var acc, done := AcceptedOf(s.hist, addr), DoneOf(s.hist, addr);
    assert forall j :: 0 <= j < |done| ==> done[j] == acc[j];
  }

  /** Until the counter passes 0x10000 no id was pending when it was given out. */
  lemma CleanBelowWrap(run: seq<State>, env: Env, ops: seq<Op>, k: nat)
    requires IsExecution(run, env, ops) && k < |run|
    ensures run[k].dx.nextId <= 0x1_0000 ==> run[k].dx.clean
  {
    AlwaysCoupled(run, env, ops, k);
  }

  /**
   A registration keeps every pending request distinguishable if and only if its id, the counter cut to 16
   bits, is not pending already; and that is what `clean` records.
   */
  lemma CleanIsExact(dx: DemuxState, owner: Owner, hdr: nat, len: nat, accept: bool, mono: u64, at: nat)
    requires DistinctRids(dx.table)
    requires Send(dx, owner, hdr, len, accept, mono, at).onWire
    ensures var r := Send(dx, owner, hdr, len, accept, mono, at);
      var unused := forall k :: 0 <= k < |dx.table| ==> !Holds(dx.table[k], Wire(dx.nextId));
      (DistinctRids(r.dx.table) <==> unused) && (r.dx.clean <==> dx.clean && unused)
  {
    var r := Send(dx, owner, hdr, len, accept, mono, at);
    var j, k := FirstFree(dx.table, 0), FindRid(dx.table, Wire(dx.nextId), 0);
    if k < |dx.table| {
      assert Holds(dx.table[k], Wire(dx.nextId));
      assert r.dx.table[j].rid == Wire(dx.nextId) && r.dx.table[k] == dx.table[k] && k != j;
    }
  }

  /** Exactly one pending request carries `rid`, and it belongs to slot `i`. */
  ghost predicate SoleEntry(t: seq<Entry>, rid: nat, i: nat) {
    exists j: nat :: Carries(t, j, rid, i) && forall k :: 0 <= k < |t| && Holds(t[k], rid) ==> k == j
  }

  /**
   In every execution a busy slot awaits a pending request, whatever orphans resends and resets left behind: its
   current id sits in the table under its name, where a frame of the very command in flight put it. While no id
   was given out that was still pending, it is the only request with that id.
   */
  lemma ExactlyOneEntry(run: seq<State>, env: Env, ops: seq<Op>, k: nat, i: nat)
    requires IsExecution(run, env, ops) && k < |run| && i < |run[k].slots|
    ensures run[k].slots[i].phase != Idle <==> run[k].slots[i].inflight.Some?
    ensures run[k].slots[i].phase != Idle ==> exists j: nat :: Held(run[k], j, i)
    ensures run[k].slots[i].phase != Idle && run[k].dx.clean ==> SoleEntry(run[k].dx.table, run[k].slots[i].rid, i)
  {
    AlwaysCoupled(run, env, ops, k);
    var s := run[k];
    assert SlotShape(s.slots[i]) && SlotHeld(s, i);
    if s.slots[i].phase != Idle {
      var j: nat :| Held(s, j, i);
      assert s.dx.clean ==> forall x :: 0 <= x < |s.dx.table| && Holds(s.dx.table[x], s.slots[i].rid) ==> x == j;
    }
  }

  /** All frames of `handle` to `addr`. */
  ghost function Frames(h: seq<Event>, addr: nat, handle: nat): nat {
    if h == [] then 0
    else Frames(h[..|h| - 1], addr, handle) + if IsFrame(h[|h| - 1], addr, handle) then 1 else 0
  }

  /** Its frames that were given the id 0xFFFF while it was still in its queue, where they left it. */
  ghost function Strays(h: seq<Event>, addr: nat, handle: nat): nat {
    if h == [] then 0
    else
      var g, e := h[..|h| - 1], h[|h| - 1];
      Strays(g, addr, handle) +
      if IsFrame(e, addr, handle) && e.rid == ERROR_RID && TxCount(g, addr, handle) == 0 then 1 else 0
  }

  /** Its frames with a usable id. */
  ghost function GoodFrames(h: seq<Event>, addr: nat, handle: nat): nat {
    if h == [] then 0
    else
      var e := h[|h| - 1];
      GoodFrames(h[..|h| - 1], addr, handle) + if IsFrame(e, addr, handle) && e.rid != ERROR_RID then 1 else 0
  }

  lemma {:induction false} FramesSplit(h: seq<Event>, addr: nat, handle: nat)
    ensures Frames(h, addr, handle) == TxCount(h, addr, handle) + Strays(h, addr, handle)
    ensures GoodFrames(h, addr, handle) <= TxCount(h, addr, handle)
  {
    if h != [] { FramesSplit(h[..|h| - 1], addr, handle); }
  }

  /**
   In every execution a command is put on the wire at most three times, not counting frames given the id
   0xFFFF while it was still queued; in particular at most three frames of it carry another id.
   */
  lemma AtMostThreeTransmissions(run: seq<State>, env: Env, ops: seq<Op>, k: nat, addr: nat, handle: nat)
    requires IsExecution(run, env, ops) && k < |run|
    ensures Frames(run[k].hist, addr, handle) <= 3 + Strays(run[k].hist, addr, handle)
    ensures GoodFrames(run[k].hist, addr, handle) <= 3
  {
    AlwaysSound(run, env, ops, k);
    FramesSplit(run[k].hist, addr, handle);
  }

  // ---- no cross-talk ---------------------------------------------------------

  /** `g` extends `h` by events none of which completes a command or a shell request. */
  ghost predicate Quiet(h: seq<Event>, g: seq<Event>) {
    && |h| <= |g| && g[..|h|] == h
    && forall k :: |h| <= k < |g| ==> !g[k].Done? && !g[k].ShellDone?
  }

  lemma QuietTrans(f: seq<Event>, g: seq<Event>, h: seq<Event>)
    requires Quiet(f, g) && Quiet(g, h)
    ensures Quiet(f, h)
  {
    assert h[..|f|] == g[..|f|];
  }

  lemma PumpQuiet(s: State, env: Env, i: nat)
    requires WF(s) && i < SLOT_MAX
    ensures Quiet(s.hist, Pump(s, env, i).hist)
  {
    if s.slots[i].q != [] {
      var s1 := s.(slots := s.slots[i := s.slots[i].(retries := 0)]);
      var a := Transmit(s1, env, i, s.slots[i].q[0]);
      assert a.s.hist == s.hist || (|a.s.hist| == |s.hist| + 1 && a.s.hist[..|s.hist|] == s.hist);
    }
  }

  lemma ActQuiet(s: State, env: Env, a: Action)
    requires WF(s)
    ensures Quiet(s.hist, Act(s, env, a).hist)
  {
    match a
    case DoSubmit(addr, req) =>
      var i := SlotFor(s.slots, addr);
      if !(req.argsLen > CMD_ARG_MAX || i == |s.slots| || |s.slots[i].q| >= CMD_QUEUE_DEPTH) {
        var t := Enqueue(s, i, req);
        assert Quiet(s.hist, t.hist);
        PumpQuiet(t, env, i);
        QuietTrans(s.hist, t.hist, Pump(t, env, i).hist);
      }
    case DoShell(tag, argsLen) =>
  }

  lemma {:induction false} PerformQuiet(s: State, env: Env, acts: seq<Action>)
    requires WF(s)
    ensures Quiet(s.hist, Perform(s, env, acts).hist)
    decreases |acts|
  {
    if acts != [] {
      var t := Act(s, env, acts[0]);
      ActQuiet(s, env, acts[0]);
      PerformQuiet(t, env, acts[1..]);
      QuietTrans(s.hist, t.hist, Perform(t, env, acts[1..]).hist);
    }
  }

  lemma FinishHistory(s: State, env: Env, i: nat, status: nat)
    requires WF(s) && i < SLOT_MAX && s.slots[i].inflight.Some?
    ensures Quiet(s.hist + [Done(s.slots[i].addr, s.slots[i].inflight.value.handle, status)], Finish(s, env, i, status).hist)
  {
    var f := Finished(s, i, status);
    var p := Perform(f, env, env.react(|s.hist|));
    PerformQuiet(f, env, env.react(|s.hist|));
    PumpQuiet(p, env, i);
    QuietTrans(f.hist, p.hist, Pump(p, env, i).hist);
  }

  /** No other pending request has the id of entry `j` under the name of the same slot. */
  ghost predicate Unmistakable(t: seq<Entry>, j: nat) {
    && j < |t| && t[j].Used?
    && (t[j].owner.SlotOwner? ==> forall k: nat :: k != j ==> !Carries(t, k, t[j].rid, t[j].owner.slot))
  }

  /**
   Resolving a pending request (by reply, timeout or link loss) completes at most one command, at once. Unless
   another request is pending with the same id under the same slot's name, it is the command whose frame
   registered the request, even when the slot has since been resent, timed out, reset, or given to another
   address. A shell caller is always told of its own request.
   */
  lemma NoCrossTalk(s: State, env: Env, j: nat, status: nat)
    requires Coupled(s) && j < PENDING_MAX && s.dx.table[j].Used?
    ensures s.dx.clean ==> Unmistakable(s.dx.table, j)
    ensures s.dx.table[j].at < |s.hist|
    ensures var e, g := s.dx.table[j], Resolve(s, env, j, status).hist;
      && Extends(s.hist, g)
      && (forall k :: |s.hist| <= k < |g| && g[k].Done? ==>
            k == |s.hist| && g[k].status == status &&
            (Unmistakable(s.dx.table, j) ==> IsFrame(s.hist[e.at], g[k].addr, g[k].handle) && s.hist[e.at].rid == e.rid))
      && (forall k :: |s.hist| <= k < |g| && g[k].ShellDone? ==>
            k == |s.hist| && g[k].status == status && s.hist[e.at] == ShellSent(g[k].tag, g[k].rid))
  {
    hide SlotShape;
    var e := s.dx.table[j];
    var f := Freed(s, j);
    assert Born(s.hist, e);
    match e.owner {
      case ShellOwner(tag) =>
        var d := f.(hist := s.hist + [ShellDone(tag, e.rid, status)]);
        PerformQuiet(d, env, env.react(|s.hist|));
        FirstOf(s.hist, d.hist, Perform(d, env, env.react(|s.hist|)).hist);
      case SlotOwner(i) =>
        if f.slots[i].inflight.Some? && e.rid == f.slots[i].rid {
          FinishHistory(f, env, i, status);
          var d := s.hist + [Done(f.slots[i].addr, f.slots[i].inflight.value.handle, status)];
          FirstOf(s.hist, d, Finish(f, env, i, status).hist);
          assert SlotHeld(s, i);
          var h: nat :| Held(s, h, i);
        }
    }
  }

  /** One event, then quiet. */
  lemma FirstOf(h: seq<Event>, d: seq<Event>, g: seq<Event>)
    requires |d| == |h| + 1 && d[..|h|] == h && Quiet(d, g)
    ensures Extends(h, g) && g[|h|] == d[|h|]
    ensures forall k :: |h| < k < |g| ==> !g[k].Done? && !g[k].ShellDone?
  {
    assert g[..|h|] == g[..|d|][..|h|];
    assert g[|h|] == g[..|d|][|h|];
  }

  /** The reply to `rid` completes the command in flight at slot `i`, before anything else. */
  ghost predicate Completes(s: State, env: Env, i: nat, rid: nat, status: nat)
    requires WF(s) && i < SLOT_MAX && s.slots[i].inflight.Some?
  {
    var g := OnReply(s, env, rid, status).hist;
    |g| > |s.hist| && g[|s.hist|] == Done(s.slots[i].addr, s.slots[i].inflight.value.handle, status)
  }

  /**
   The converse: a reply that carries a busy slot's current id completes that slot's command if and only if
   the first pending request with this id is under the slot's name. So it always does when no other request
   is pending with the same id.
   */
  lemma ReplyReachesItsCommand(s: State, env: Env, i: nat, status: nat)
    requires Coupled(s) && i < SLOT_MAX && s.slots[i].inflight.Some?
    ensures var rid := s.slots[i].rid; var j := FindRid(s.dx.table, rid, 0);
      && j < |s.dx.table|
      && (Completes(s, env, i, rid, status) <==> s.dx.table[j].owner == SlotOwner(i))
      && ((forall k :: 0 <= k < |s.dx.table| && k != j ==> !Holds(s.dx.table[k], rid)) ==>
            Completes(s, env, i, rid, status))
    ensures s.dx.clean ==> Completes(s, env, i, s.slots[i].rid, status)
  {
    hide Perform, Finish;
    var rid := s.slots[i].rid;
    var j := FindRid(s.dx.table, rid, 0);
    assert SlotHeld(s, i);
    var h: nat :| Held(s, h, i);
    assert Holds(s.dx.table[h], rid);
    var e, f := s.dx.table[j], Freed(s, j);
    match e.owner {
      case ShellOwner(tag) =>
        var d := f.(hist := s.hist + [ShellDone(tag, e.rid, status)]);
        PerformQuiet(d, env, env.react(|s.hist|));
        FirstOf(s.hist, d.hist, Perform(d, env, env.react(|s.hist|)).hist);
      case SlotOwner(k) =>
        assert SlotShape(s.slots[i]) && SlotShape(s.slots[k]);
        if f.slots[k].inflight.Some? && e.rid == f.slots[k].rid {
          FinishHistory(f, env, k, status);
          var d := s.hist + [Done(f.slots[k].addr, f.slots[k].inflight.value.handle, status)];
          FirstOf(s.hist, d, Finish(f, env, k, status).hist);
        }
    }
  }
}
