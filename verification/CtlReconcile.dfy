/**
 Interlock reconciliation in `linux/bus_controller/controller.c`: when the index and the cached message
 of a slave disagree for long enough, the slave is asked to push its message again, not too often.
 Over a positive clock that never goes back, the two sentinel-guarded timers do exactly that.
 */
module CtlReconcile {
  import opened BusTypes

  const GAP_SETTLE_MS: nat := 1500
  const REPUSH_COOLDOWN_MS: nat := 2000

  /** What a poll knows of a slave: its index value, if any, and whether the cached message says tripped. */
  datatype Obs = Unknown | Known(tripped: bool, msgTripped: bool)

  predicate Gap(o: Obs) { o.Known? && o.tripped != o.msgTripped }

  /** `gap_since` and `repush_at` of one slave; 0 means none. */
  datatype Timers = Timers(gapSince: u64, repushAt: u64)

  datatype Polled = Polled(t: Timers, pushed: bool)

  /** The body of `reconcile_interlocks` for one slave. */
  function Reconcile(t: Timers, now: u64, o: Obs): Polled {
    if !Gap(o) then Polled(t.(gapSince := 0), false)
    else
      var since := if t.gapSince == 0 then now else t.gapSince;
      var t1 := t.(gapSince := since);
      if Elapsed(now, since) < GAP_SETTLE_MS then Polled(t1, false)
      else if t.repushAt != 0 && Elapsed(now, t.repushAt) < REPUSH_COOLDOWN_MS then Polled(t1, false)
      else Polled(t1.(repushAt := now), true)
  }

  // ---- over whole runs -------------------------------------------------------

  /** The polls of one slave under one roster: the clock and what was seen. */
  datatype Poll = Poll(now: u64, obs: Obs)

  ghost predicate Clocked(ps: seq<Poll>) {
    && (forall i :: 0 <= i < |ps| ==> ps[i].now > 0)
    && (forall i, j :: 0 <= i < j < |ps| ==> ps[i].now <= ps[j].now)
  }

  function After(ps: seq<Poll>): Timers {
    if ps == [] then Timers(0, 0) else Reconcile(After(ps[..|ps| - 1]), ps[|ps| - 1].now, ps[|ps| - 1].obs).t
  }

  /** Did the `j`-th poll ask for a re-push? */
  predicate Pushes(ps: seq<Poll>, j: nat)
    requires j < |ps|
  {
    Reconcile(After(ps[..j]), ps[j].now, ps[j].obs).pushed
  }

  /** Every poll from `i` to `j` saw a gap. */
  ghost predicate GapFrom(ps: seq<Poll>, i: nat, j: nat) {
    i <= j < |ps| && forall k :: i <= k <= j ==> Gap(ps[k].obs)
  }

  /** The gap seen at poll `j` has lasted since a poll at least the settling time ago. */
  ghost predicate Settled(ps: seq<Poll>, j: nat)
    requires j < |ps|
  {
    exists i: nat :: GapFrom(ps, i, j) && ps[j].now - ps[i].now >= GAP_SETTLE_MS
  }

  /** A re-push was asked for less than the cooldown before poll `j`. */
  ghost predicate Cooling(ps: seq<Poll>, j: nat)
    requires j < |ps|
  {
    exists k: nat :: k < j && Pushes(ps, k) && ps[j].now - ps[k].now < REPUSH_COOLDOWN_MS
  }

  /** The gap seen at poll `j` opened at poll `i`. */
  ghost predicate Opened(ps: seq<Poll>, i: nat, j: nat) {
    GapFrom(ps, i, j) && (i == 0 || !Gap(ps[i - 1].obs))
  }

  lemma AfterSnoc(ps: seq<Poll>, n: nat)
    requires 0 < n <= |ps|
    ensures After(ps[..n]) == Reconcile(After(ps[..n - 1]), ps[n - 1].now, ps[n - 1].obs).t
  {
    assert ps[..n][..n - 1] == ps[..n - 1];
  }

  /** The gap timer is the clock of the poll that opened the gap. */
  lemma {:induction false} GapTimer(ps: seq<Poll>, n: nat)
    requires Clocked(ps) && n <= |ps|
    ensures n == 0 || !Gap(ps[n - 1].obs) ==> After(ps[..n]).gapSince == 0
    ensures n > 0 && Gap(ps[n - 1].obs) ==> exists i: nat :: Opened(ps, i, n - 1) && After(ps[..n]).gapSince == ps[i].now
    decreases n
  {
    hide After;
    if n == 0 {
      NoTimers(ps);
    } else {
      GapTimer(ps, n - 1);
      AfterSnoc(ps, n);
      if Gap(ps[n - 1].obs) {
        if n == 1 || !Gap(ps[n - 2].obs) {
          assert Opened(ps, n - 1, n - 1);
        } else {
          var i: nat :| Opened(ps, i, n - 2) && After(ps[..n - 1]).gapSince == ps[i].now;
          assert Opened(ps, i, n - 1);
        }
      }
    }
  }

  lemma NoTimers(ps: seq<Poll>)
    ensures After(ps[..0]) == Timers(0, 0)
  {}

  ghost predicate LastPush(ps: seq<Poll>, k: nat, n: nat) {
    k < n <= |ps| && Pushes(ps, k) && forall h :: k < h < n ==> !Pushes(ps, h)
  }

  /** The cooldown timer is the clock of the last re-push. */
  lemma {:induction false} PushTimer(ps: seq<Poll>, n: nat)
    requires Clocked(ps) && n <= |ps|
    ensures After(ps[..n]).repushAt == 0 ==> forall k :: 0 <= k < n ==> !Pushes(ps, k)
    ensures After(ps[..n]).repushAt != 0 ==> exists k: nat :: LastPush(ps, k, n) && After(ps[..n]).repushAt == ps[k].now
    decreases n
  {
    hide After;
    if n == 0 {
      NoTimers(ps);
    } else {
      PushTimer(ps, n - 1);
      AfterSnoc(ps, n);
      if Pushes(ps, n - 1) {
        assert LastPush(ps, n - 1, n);
      } else if After(ps[..n]).repushAt != 0 {
        var k: nat :| LastPush(ps, k, n - 1) && After(ps[..n - 1]).repushAt == ps[k].now;
        assert LastPush(ps, k, n);
      }
    }
  }

  /**
   A poll asks for a re-push exactly when the slave's index and message have disagreed at every poll for
   at least 1500 ms and no re-push was asked for in the last 2000 ms.
   */
  lemma PushesExactlyWhen(ps: seq<Poll>, j: nat)
    requires Clocked(ps) && j < |ps|
    ensures Pushes(ps, j) <==> Settled(ps, j) && !Cooling(ps, j)
  {
    GapMeans(ps, j);
    CoolMeans(ps, j);
  }

  /** The settling test on the timer is the settling of the gap. */
  lemma GapMeans(ps: seq<Poll>, j: nat)
    requires Clocked(ps) && j < |ps|
    ensures var t := After(ps[..j]);
      Settled(ps, j) <==>
        Gap(ps[j].obs) && Elapsed(ps[j].now, if t.gapSince == 0 then ps[j].now else t.gapSince) >= GAP_SETTLE_MS
  {
    hide After;
    GapTimer(ps, j);
    var t := After(ps[..j]);
    if Gap(ps[j].obs) {
      var first: nat := j;
      if j > 0 && Gap(ps[j - 1].obs) {
        first :| Opened(ps, first, j - 1) && t.gapSince == ps[first].now;
      }
      assert Opened(ps, first, j);
      forall i: nat | GapFrom(ps, i, j)
        ensures first <= i
      {}
    } else {
      forall i: nat ensures !GapFrom(ps, i, j) {}
    }
  }

  lemma CoolMeans(ps: seq<Poll>, j: nat)
    requires Clocked(ps) && j < |ps|
    ensures var t := After(ps[..j]);
      Cooling(ps, j) <==> t.repushAt != 0 && Elapsed(ps[j].now, t.repushAt) < REPUSH_COOLDOWN_MS
  {
    hide After, Reconcile;
    PushTimer(ps, j);
    var t := After(ps[..j]);
    if t.repushAt != 0 {
      var k: nat :| LastPush(ps, k, j) && t.repushAt == ps[k].now;
      forall h | 0 <= h < j && Pushes(ps, h)
        ensures ps[h].now <= ps[k].now
      {}
    }
  }

  /** Re-pushes to one slave are at least 2000 ms apart. */
  lemma PushesApart(ps: seq<Poll>, i: nat, j: nat)
    requires Clocked(ps) && i < j < |ps| && Pushes(ps, i) && Pushes(ps, j)
    ensures ps[j].now - ps[i].now >= REPUSH_COOLDOWN_MS
  {
    PushesExactlyWhen(ps, j);
  }

  // ---- in place --------------------------------------------------------------

  predicate Fits(ts: seq<Timers>, os: seq<Obs>) { |os| <= |ts| }

  /** One pass over the roster: each slave by itself. */
  function Pass(ts: seq<Timers>, now: u64, os: seq<Obs>, i: nat): (r: seq<Timers>)
    requires Fits(ts, os) && i <= |os|
    ensures |r| == |ts|
    ensures forall k :: 0 <= k < |ts| ==> r[k] == if k < i then Reconcile(ts[k], now, os[k]).t else ts[k]
  {
    seq(|ts|, k requires 0 <= k < |ts| => if k < i then Reconcile(ts[k], now, os[k]).t else ts[k])
  }

  /** Roster indexes asked to re-push in that pass, in order. */
  function Asked(ts: seq<Timers>, now: u64, os: seq<Obs>, i: nat): seq<nat>
    requires Fits(ts, os) && i <= |os|
  {
    if i == 0 then [] else Asked(ts, now, os, i - 1) + if Reconcile(ts[i - 1], now, os[i - 1]).pushed then [i - 1] else []
  }

  // ---- the slaves of a roster ------------------------------------------------

  /** One pass over the roster: the clock and what was seen of each slave. */
  datatype Round = Round(now: u64, obs: seq<Obs>)

  predicate Whole(n: nat, rs: seq<Round>) { forall j :: 0 <= j < |rs| ==> |rs[j].obs| == n }

  /** The timers of `n` slaves after these passes. */
  function Rounds(n: nat, rs: seq<Round>): (r: seq<Timers>)
    requires Whole(n, rs)
    ensures |r| == n
  {
    if rs == [] then seq(n, _ => Timers(0, 0))
    else Pass(Rounds(n, rs[..|rs| - 1]), rs[|rs| - 1].now, rs[|rs| - 1].obs, n)
  }

  /** What the passes saw of slave `k`. */
  function Own(n: nat, rs: seq<Round>, k: nat): (r: seq<Poll>)
    requires Whole(n, rs) && k < n
    ensures |r| == |rs|
  {
    seq(|rs|, j requires 0 <= j < |rs| => Poll(rs[j].now, rs[j].obs[k]))
  }

  /** A slave's timers depend on its own polls alone. */
  lemma {:induction false} TimersAlone(n: nat, rs: seq<Round>, k: nat)
    requires Whole(n, rs) && k < n
    ensures Rounds(n, rs)[k] == After(Own(n, rs, k))
  {
    if rs != [] {
      var last := |rs| - 1;
      TimersAlone(n, rs[..last], k);
      assert Own(n, rs, k)[..last] == Own(n, rs[..last], k);
    }
  }

  lemma {:induction false} AskedHolds(ts: seq<Timers>, now: u64, os: seq<Obs>, i: nat)
    requires Fits(ts, os) && i <= |os|
    ensures forall k: nat :: k in Asked(ts, now, os, i) <==> k < i && Reconcile(ts[k], now, os[k]).pushed
    ensures forall a, b :: 0 <= a < b < |Asked(ts, now, os, i)| ==> Asked(ts, now, os, i)[a] < Asked(ts, now, os, i)[b]
  {
    hide Reconcile;
    if i > 0 {
      var before, all := Asked(ts, now, os, i - 1), Asked(ts, now, os, i);
      AskedHolds(ts, now, os, i - 1);
      assert forall a :: 0 <= a < |before| ==> before[a] in before;
      assert all == before || all == before + [i - 1];
    }
  }

  /**
   A pass asks exactly those slaves of the roster, each once and in order, whose index and message have disagreed
   at every pass for at least 1500 ms and that were not asked in the last 2000 ms, whatever the others did.
   */
  lemma PassAsksExactly(n: nat, rs: seq<Round>, j: nat, k: nat)
    requires Whole(n, rs) && j < |rs| && k < n && Clocked(Own(n, rs, k))
    ensures Whole(n, rs[..j])
    ensures var asked := Asked(Rounds(n, rs[..j]), rs[j].now, rs[j].obs, n);
      && (k in asked <==> Settled(Own(n, rs, k), j) && !Cooling(Own(n, rs, k), j))
      && forall a, b :: 0 <= a < b < |asked| ==> asked[a] < asked[b]
  {
    var own := Own(n, rs, k);
    TimersAlone(n, rs[..j], k);
    assert own[..j] == Own(n, rs[..j], k);
    AskedHolds(Rounds(n, rs[..j]), rs[j].now, rs[j].obs, n);
    PushesExactlyWhen(own, j);
  }

  class Reconciler {
    const gapSince: array<u64>
    const repushAt: array<u64>
    var repushes: nat
    var asked: seq<nat>

    ghost predicate Valid() {
      gapSince != repushAt && gapSince.Length == repushAt.Length
    }

    /** No timer runs. */
    constructor (slaves: nat)
      ensures Valid() && fresh(gapSince) && fresh(repushAt) && repushes == 0 && asked == []
      ensures Abs() == seq(slaves, _ => Timers(0, 0))
    {
      gapSince := new u64[slaves](_ => 0);
      repushAt := new u64[slaves](_ => 0);
      repushes, asked := 0, [];
    }

    ghost function Abs(): seq<Timers>
      requires Valid()
      reads gapSince, repushAt
    {
      seq(gapSince.Length, i requires 0 <= i < gapSince.Length reads gapSince, repushAt => Timers(gapSince[i], repushAt[i]))
    }

    /** The loop body for slave `i`. */
    method ReconcileOne(i: nat, now: u64, o: Obs) returns (push: bool)
      requires Valid() && i < gapSince.Length
      modifies gapSince, repushAt
      ensures Valid() && Abs() == old(Abs())[i := Reconcile(old(Abs())[i], now, o).t]
      ensures push == Reconcile(old(Abs())[i], now, o).pushed
    {
      assert Abs()[i] == Timers(gapSince[i], repushAt[i]);
      push := false;
      if !Gap(o) {
        gapSince[i] := 0;
      } else {
        if gapSince[i] == 0 { gapSince[i] := now; }
        if Elapsed(now, gapSince[i]) >= GAP_SETTLE_MS
           && !(repushAt[i] != 0 && Elapsed(now, repushAt[i]) < REPUSH_COOLDOWN_MS) {
          repushAt[i] := now;
          push := true;
        }
      }
    }

    /** `reconcile_interlocks` over the first |os| slaves. */
    method ReconcileInterlocks(now: u64, os: seq<Obs>)
      requires Valid() && |os| <= gapSince.Length
      modifies this, gapSince, repushAt
      ensures Valid() && Abs() == Pass(old(Abs()), now, os, |os|)
      ensures asked == old(asked) + Asked(old(Abs()), now, os, |os|)
      ensures repushes == old(repushes) + |Asked(old(Abs()), now, os, |os|)|
    {
      hide Reconcile;
      ghost var ts := Abs();
      assert asked == old(asked) + [];
      for i := 0 to |os|
        invariant Valid() && Abs() == Pass(ts, now, os, i)
        invariant asked == old(asked) + Asked(ts, now, os, i) && repushes == old(repushes) + |Asked(ts, now, os, i)|
      {
        var push := ReconcileOne(i, now, os[i]);
        if push {
          asked := asked + [i];
          repushes := repushes + 1;
        }
        assert Abs() == Pass(ts, now, os, i + 1);
      }
    }
  }
}
