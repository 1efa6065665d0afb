/**
 Losing the link: every pending request is resolved, every command in flight is completed once
 with LINK_DOWN, and queued commands wait, although each resolution tries to pump the next one.
 */
module BusLink {
  import opened Options
  import opened BusTypes
  import opened BusModel
  import opened BusInvariant
  import opened BusCoupling
  import opened BusTheorems

  ghost predicate IsPrefix(q: seq<Cmd>, r: seq<Cmd>) { |q| <= |r| && r[..|q|] == q }

  /** Nothing was sent: the table and every busy slot are as before, and queues only grew at their ends. */
  ghost predicate Stalled(s: State, t: State) {
    var stalled := && t.dx.table == s.dx.table && t.dx.up == s.dx.up
                   && |t.slots| == |s.slots|
                   && (forall i :: 0 <= i < |s.slots| ==> SlotStalled(s.slots[i], t.slots[i]))
                   && Quiet(s.hist, t.hist);
    stalled
  }

  ghost predicate SlotStalled(a: Slot, b: Slot) {
    && b.inUse == a.inUse && b.addr == a.addr && b.phase == a.phase && b.inflight == a.inflight
    && b.rid == a.rid && IsPrefix(a.q, b.q)
  }

  lemma StalledTrans(s: State, t: State, u: State)
    requires Stalled(s, t) && Stalled(t, u)
    ensures Stalled(s, u)
  {
    QuietTrans(s.hist, t.hist, u.hist);
    forall i | 0 <= i < |s.slots|
      ensures SlotStalled(s.slots[i], u.slots[i])
    {
      assert SlotStalled(s.slots[i], t.slots[i]) && SlotStalled(t.slots[i], u.slots[i]);
      assert u.slots[i].q[..|s.slots[i].q|] == t.slots[i].q[..|s.slots[i].q|];
    }
  }

  lemma PumpStalls(s: State, env: Env, i: nat)
    requires WF(s) && i < SLOT_MAX && !s.dx.up
    ensures Stalled(s, Pump(s, env, i))
  {
    PumpQuiet(s, env, i);
  }

  lemma ActStalls(s: State, env: Env, a: Action)
    requires WF(s) && !s.dx.up
    ensures Stalled(s, Act(s, env, a))
  {
    match a
    case DoShell(tag, argsLen) =>
    case DoSubmit(addr, req) =>
      var i := SlotFor(s.slots, addr);
      if !(req.argsLen > CMD_ARG_MAX || i == |s.slots| || |s.slots[i].q| >= CMD_QUEUE_DEPTH) {
        var t := Enqueue(s, i, req);
        assert SlotStalled(s.slots[i], t.slots[i]);
        assert Stalled(s, t);
        PumpStalls(t, env, i);
        StalledTrans(s, t, Pump(t, env, i));
      }
  }

  lemma {:induction false} PerformStalls(s: State, env: Env, acts: seq<Action>)
    requires WF(s) && !s.dx.up
    ensures Stalled(s, Perform(s, env, acts))
    decreases |acts|
  {
    if acts != [] {
      var t := Act(s, env, acts[0]);
      ActStalls(s, env, acts[0]);
      PerformStalls(t, env, acts[1..]);
      StalledTrans(s, t, Perform(t, env, acts[1..]));
    }
  }

  /** The handle a slot has in flight, if any. */
  ghost function InFlight(s: Slot): seq<nat> {
    if s.inflight.Some? then [s.inflight.value.handle] else []
  }

  /** How far link loss has come: what was in flight is either still in flight or done, and nothing else moved. */
  ghost predicate Draining(s: State, t: State) {
    && |t.slots| == |s.slots|
    && Extends(s.hist, t.hist) && !t.dx.up
    && (forall k :: |s.hist| <= k < |t.hist| && t.hist[k].Done? ==> t.hist[k].status == STATUS_LINK_DOWN)
    && (forall i :: 0 <= i < |s.slots| ==> SlotDraining(s, t, i))
  }

  ghost predicate SlotDraining(s: State, t: State, i: nat)
    requires i < |s.slots| && |t.slots| == |s.slots|
  {
    && t.slots[i].inUse == s.slots[i].inUse && t.slots[i].addr == s.slots[i].addr
    && IsPrefix(s.slots[i].q, t.slots[i].q)
    && (s.slots[i].inUse ==>
          DoneOf(t.hist, t.slots[i].addr) + InFlight(t.slots[i]) == DoneOf(s.hist, s.slots[i].addr) + InFlight(s.slots[i]))
  }

  lemma {:induction false} QuietDone(h: seq<Event>, g: seq<Event>, addr: nat)
    requires Quiet(h, g)
    ensures DoneOf(g, addr) == DoneOf(h, addr)
    decreases |g| - |h|
  {
    if |g| == |h| {
      assert g == h;
    } else {
      var g' := g[..|g| - 1];
      assert g'[..|h|] == h;
      QuietDone(h, g', addr);
    }
  }

  /** One resolution while the link is down. */
  lemma ResolveDrains(s: State, t: State, env: Env, j: nat)
    requires Coupled(t) && Draining(s, t) && j < PENDING_MAX && t.dx.table[j].Used?
    ensures var u := Resolve(t, env, j, STATUS_LINK_DOWN);
      Draining(s, u) && u.dx.table == t.dx.table[j := Free]
  {
    var u := Resolve(t, env, j, STATUS_LINK_DOWN);
    var f := Freed(t, j);
    var e := t.dx.table[j];
    match e.owner {
      case ShellOwner(tag) =>
        var d := f.(hist := t.hist + [ShellDone(tag, e.rid, STATUS_LINK_DOWN)]);
        PerformStalls(d, env, env.react(|t.hist|));
        Snoc(t.hist, ShellDone(tag, e.rid, STATUS_LINK_DOWN));
        DrainStep(s, t, d, u, SLOT_MAX);
      case SlotOwner(i) =>
        if f.slots[i].inflight.Some? && e.rid == f.slots[i].rid {
          var d := Finished(f, i, STATUS_LINK_DOWN);
          var p := Perform(d, env, env.react(|f.hist|));
          PerformStalls(d, env, env.react(|f.hist|));
          PumpStalls(p, env, i);
          StalledTrans(d, p, u);
          Snoc(t.hist, Done(f.slots[i].addr, f.slots[i].inflight.value.handle, STATUS_LINK_DOWN));
          DrainStep(s, t, d, u, i);
        } else {
          forall k | 0 <= k < |s.slots| ensures SlotDraining(s, f, k) { assert SlotDraining(s, t, k); }
        }
    }
  }

  /** From `t` by completing slot `i` (none when `i` is out of range) to `d`, then stalling to `u`. */
  lemma DrainStep(s: State, t: State, d: State, u: State, i: nat)
    requires Coupled(t) && Draining(s, t) && |d.slots| == |t.slots|
    requires |d.hist| == |t.hist| + 1 && d.hist == t.hist + [d.hist[|t.hist|]]
    requires !d.dx.up
    requires if i < |t.slots|
             then && t.slots[i].inflight.Some? && t.slots[i].inUse
                  && d.hist[|t.hist|] == Done(t.slots[i].addr, t.slots[i].inflight.value.handle, STATUS_LINK_DOWN)
                  && d.slots == t.slots[i := t.slots[i].(inflight := None, rid := 0, phase := Idle)]
             else d.hist[|t.hist|].ShellDone? && d.slots == t.slots
    requires Stalled(d, u)
    ensures Draining(s, u)
  {
    Snoc(t.hist, d.hist[|t.hist|]);
    assert u.hist[..|s.hist|] == u.hist[..|d.hist|][..|s.hist|] == t.hist[..|s.hist|];
    forall k | |s.hist| <= k < |u.hist| && u.hist[k].Done?
      ensures u.hist[k].status == STATUS_LINK_DOWN
    {
      if k < |d.hist| { assert u.hist[k] == u.hist[..|d.hist|][k]; }
    }
    forall k | 0 <= k < |s.slots|
      ensures SlotDraining(s, u, k)
    {
      assert SlotDraining(s, t, k) && SlotStalled(d.slots[k], u.slots[k]);
      QuietDone(d.hist, u.hist, u.slots[k].addr);
      assert IsPrefix(s.slots[k].q, u.slots[k].q) by {
        assert u.slots[k].q[..|s.slots[k].q|] == d.slots[k].q[..|s.slots[k].q|];
      }
    }
  }

  lemma {:induction false} DownFromDrains(s: State, t: State, env: Env, j: nat)
    requires Coupled(t) && Draining(s, t) && j <= PENDING_MAX
    requires forall k :: 0 <= k < j ==> t.dx.table[k].Free?
    ensures var u := DownFrom(t, env, j);
      Coupled(u) && Draining(s, u) && forall k :: 0 <= k < PENDING_MAX ==> u.dx.table[k].Free?
    decreases PENDING_MAX - j
  {
    hide Born, SlotHeld, Resolve;
    if j < PENDING_MAX {
      if t.dx.table[j].Used? {
        ResolveCoupled(t, env, j, STATUS_LINK_DOWN);
        ResolveDrains(s, t, env, j);
        DownFromDrains(s, Resolve(t, env, j, STATUS_LINK_DOWN), env, j + 1);
      } else {
        DownFromDrains(s, t, env, j + 1);
      }
    }
  }

  /**
   After LINK_DOWN, in any state of any execution (`BusCoupling.AlwaysCoupled`): no request is pending, every slot
   is idle, each slave's completions grew by exactly the command it had in flight (with LINK_DOWN), and its queue
   still starts with what it held.
   */
  lemma LinkBounce(s: State, env: Env)
    requires Coupled(s)
    ensures var t := OnLink(s, env, false);
      && (forall j :: 0 <= j < PENDING_MAX ==> t.dx.table[j].Free?)
      && (forall k :: |s.hist| <= k < |t.hist| && t.hist[k].Done? ==> t.hist[k].status == STATUS_LINK_DOWN)
      && (forall i :: 0 <= i < SLOT_MAX ==>
            && t.slots[i].phase == Idle && IsPrefix(s.slots[i].q, t.slots[i].q)
            && t.slots[i].inUse == s.slots[i].inUse && t.slots[i].addr == s.slots[i].addr
            && (s.slots[i].inUse ==>
                  DoneOf(t.hist, s.slots[i].addr) == DoneOf(s.hist, s.slots[i].addr) + InFlight(s.slots[i])))
  {
    hide DownFrom;
    var s1 := s.(dx := s.dx.(up := false));
    LocalCoupled(s, s1, 0);
    assert Draining(s, s1);
    DownFromDrains(s, s1, env, 0);
    var t := OnLink(s, env, false);
    forall i | 0 <= i < SLOT_MAX
      ensures t.slots[i].phase == Idle && SlotDraining(s, t, i)
    {
      EmptyTableIdle(t, i);
    }
  }

  lemma EmptyTableIdle(t: State, i: nat)
    requires Coupled(t) && i < SLOT_MAX
    requires forall j :: 0 <= j < PENDING_MAX ==> t.dx.table[j].Free?
    ensures t.slots[i].phase == Idle && t.slots[i].inflight == None
  {
    assert SlotShape(t.slots[i]) && SlotHeld(t, i);
  }

  /** With callbacks that submit nothing, the queues are untouched. */
  lemma LinkBounceKeepsQueues(s: State, env: Env, i: nat)
    requires WF(s) && i < SLOT_MAX
    requires forall k :: env.react(k) == []
    ensures OnLink(s, env, false).slots[i].q == s.slots[i].q
  {
    DownFromKeepsQueues(s.(dx := s.dx.(up := false)), env, 0, i);
  }

  lemma {:induction false} DownFromKeepsQueues(s: State, env: Env, j: nat, i: nat)
    requires WF(s) && !s.dx.up && j <= PENDING_MAX && i < SLOT_MAX
    requires forall k :: env.react(k) == []
    ensures DownFrom(s, env, j).slots[i].q == s.slots[i].q
    decreases PENDING_MAX - j
  {
    if j < PENDING_MAX {
      DownFromKeepsQueues(if s.dx.table[j].Used? then Resolve(s, env, j, STATUS_LINK_DOWN) else s, env, j + 1, i);
    }
  }
}
