/** What a rollout's status says, and that it is so. */
module RolloutReports {
  import opened Devices
  import opened Rollouts
  import opened RolloutControllers
  import opened RolloutFixpoints

  /** The devices of one kind, as a set of positions. */
  ghost function OfKind(ds: seq<Item>, target: string, k: Kind): set<nat> {
    set x: nat | x < |ds| && KindOf(ds[x].device, target) == k
  }

  lemma OfKindGrows(ds: seq<Item>, target: string, k: Kind)
    requires ds != []
    ensures var n := |ds| - 1;
            var rest := OfKind(ds[..n], target, k);
            n !in rest && OfKind(ds, target, k) == if KindOf(ds[n].device, target) == k then rest + {n} else rest
  {
    var n := |ds| - 1;
    var rest := OfKind(ds[..n], target, k);
    forall x: nat ensures x in OfKind(ds, target, k) <==> x in rest || (x == n && KindOf(ds[n].device, target) == k) {
      if x < n {
        assert ds[..n][x] == ds[x];
      }
    }
  }

  lemma {:induction false} CountIsSize(ds: seq<Item>, target: string, k: Kind)
    ensures Count(ds, target, k) == |OfKind(ds, target, k)|
    decreases |ds|
  {
    if ds != [] {
      CountIsSize(ds[..|ds| - 1], target, k);
      OfKindGrows(ds, target, k);
    }
  }

  /** The devices that run the target or are told to. */
  ghost function OnTarget(ds: seq<Item>, target: string): set<nat> {
    set x: nat | x < |ds| && (ds[x].device.status.current == target || ds[x].device.spec.desired == target)
  }

  ghost function Running(ds: seq<Item>, target: string): set<nat> {
    set x: nat | x < |ds| && ds[x].device.status.current == target
  }

  lemma OnTargetSize(ds: seq<Item>, target: string)
    ensures |OnTarget(ds, target)| == Targeted(ds, target) && |Running(ds, target)| == Count(ds, target, Succeeded)
  {
    CountIsSize(ds, target, InFlight);
    CountIsSize(ds, target, Failed);
    CountIsSize(ds, target, Succeeded);
    assert Running(ds, target) == OfKind(ds, target, Succeeded);
    OnTargetSplit(ds, target);
  }

  lemma OnTargetSplit(ds: seq<Item>, target: string)
    ensures |OnTarget(ds, target)| ==
            |OfKind(ds, target, InFlight)| + |OfKind(ds, target, Failed)| + |OfKind(ds, target, Succeeded)|
  {
    var i, f, s := OfKind(ds, target, InFlight), OfKind(ds, target, Failed), OfKind(ds, target, Succeeded);
    assert OnTarget(ds, target) == i + f + s;
    assert i !! f && (i + f) !! s;
  }

  lemma OneTargeted(g: seq<Item>, x: nat, i: Item, target: string)
    requires x < |g| && KindOf(g[x].device, target) == Untargeted && KindOf(i.device, target) != Untargeted
    ensures Targeted(g[x := i], target) == Targeted(g, target) + 1
  {
    CountUpdated(g, x, i, target, Untargeted);
    CountsAddUp(g, target);
    CountsAddUp(g[x := i], target);
  }

  /** Each push takes one device out of the untargeted. */
  lemma {:induction false} PushTargets(g: seq<Item>, ds: seq<Item>, plan: seq<nat>, ro: RolloutSpec)
    requires Sorted(ds) && Increasing(plan, |ds|) && Untouched(g, ds, plan)
    requires forall k | 0 <= k < |plan| :: KindOf(ds[plan[k]].device, ro.target) == Untargeted
    ensures var r := Execute(g, ds, plan, TopUp, ro).fleet;
            |r| == |g| && Targeted(r, ro.target) == Targeted(g, ro.target) + |plan|
    decreases |plan|
  {
    if plan != [] {
      var x := plan[0];
      assert g[plan[0]] == ds[plan[0]];
      UpdateFresh(g, ds, x, TopUp, ro);
      var i := Rewritten(ds[x], TopUp, ro);
      OneTargeted(g, x, i, ro.target);
      forall k | 0 <= k < |plan[1..]| ensures g[x := i][plan[1..][k]] == ds[plan[1..][k]] {
        assert g[plan[k + 1]] == ds[plan[k + 1]] && plan[0] < plan[k + 1];
      }
      PushTargets(g[x := i], ds, plan[1..], ro);
    }
  }

  lemma FreezeTargets(ds: seq<Item>, plan: seq<nat>, b: Branch, ro: RolloutSpec)
    requires Sorted(ds) && Increasing(plan, |ds|) && !b.TopUp?
    ensures var g := Execute(ds, ds, plan, b, ro).fleet;
            |g| == |ds| && Targeted(g, ro.target) == Targeted(ds, ro.target)
  {
    FreshExecute(ds, ds, plan, b, ro);
    var g := Execute(ds, ds, plan, b, ro).fleet;
    SameKinds(ds, g, ro.target, Untargeted);
    CountsAddUp(ds, ro.target);
    CountsAddUp(g, ro.target);
  }

  /** The devices a pass on the present fleet leaves on target. */
  lemma TargetedAfter(ds: seq<Item>, ro: RolloutSpec)
    requires Sorted(ds)
    ensures var g := Execute(ds, ds, Plan(ds, ro), BranchOf(ds, ro), ro).fleet;
            && |g| == |ds|
            && Targeted(g, ro.target) == Reported(ds, ro)
  {
    match BranchOf(ds, ro) {
      case TopUp => PushTargets(ds, ds, Plan(ds, ro), ro);
      case b => FreezeTargets(ds, Plan(ds, ro), b, ro);
    }
  }

  /** No write of a pass touches what a device runs. */
  lemma RunningStays(ds: seq<Item>, ro: RolloutSpec)
    requires Sorted(ds)
    ensures var x := Execute(ds, ds, Plan(ds, ro), BranchOf(ds, ro), ro);
            x.ok && Running(x.fleet, ro.target) == Running(ds, ro.target)
  {
    FreshExecute(ds, ds, Plan(ds, ro), BranchOf(ds, ro), ro);
  }

  /** What is stored agrees with what the pass computed, written or found equal. */
  lemma StoredAgrees(prev: RolloutStatus, ds: seq<Item>, ro: RolloutSpec, now: int)
    ensures var st, n := StatusAfter(prev, ds, ro, now, true), NewStatus(prev, ds, ro, now);
            var c := Find(st.conditions, BREAKER);
            && st.phase == n.phase && st.selected == n.selected && st.targeted == n.targeted
            && st.succeeded == n.succeeded && st.failed == n.failed && st.observedGeneration == n.observedGeneration
            && c.Some? && (c.value.status == CondTrue <==> BranchOf(ds, ro).Freeze?)
            && c.value.status != CondUnknown
            && c.value.reason == if BranchOf(ds, ro).Freeze? then "FailureRateExceeded" else "Healthy"
  {
    UpsertFinds(prev.conditions, BreakerCondition(BranchOf(ds, ro).Freeze?, ro.generation, now), BREAKER);
  }

  /** The int32 counters of a fleet within the limit are exact. */
  lemma CountersExact(prev: RolloutStatus, ds: seq<Item>, ro: RolloutSpec, now: int)
    requires Reported(ds, ro) <= |ds| <= MAX_FLEET
    ensures var n := NewStatus(prev, ds, ro, now);
            && n.selected == |ds| && n.targeted == Reported(ds, ro)
            && n.succeeded == Count(ds, ro.target, Succeeded) && n.failed == Count(ds, ro.target, Failed)
  {
    CountAtMost(ds, ro.target, Succeeded);
    CountAtMost(ds, ro.target, Failed);
    SmallExact(|ds|, Reported(ds, ro), Count(ds, ro.target, Succeeded), Count(ds, ro.target, Failed));
  }

  lemma SmallExact(n: nat, a: nat, b: nat, c: nat)
    requires a <= n && b <= n && c <= n && n < TWO31
    ensures I32(n) == n && I32(a) == a && I32(b) == b && I32(c) == c
  {
    I32Exact(n);
    I32Exact(a);
    I32Exact(b);
    I32Exact(c);
  }

  /** What is stored after a pass, once the int32 counters are exact. */
  lemma ReportExact(prev: RolloutStatus, ds: seq<Item>, ro: RolloutSpec, now: int)
    requires Reported(ds, ro) <= |ds| <= MAX_FLEET
    ensures var st, b := StatusAfter(prev, ds, ro, now, true), BranchOf(ds, ro);
            var c := Find(st.conditions, BREAKER);
            && st.selected == |ds| && st.targeted == Reported(ds, ro)
            && st.succeeded == Count(ds, ro.target, Succeeded) && st.failed == Count(ds, ro.target, Failed)
            && st.observedGeneration == ro.generation
            && (st.phase == Paused <==> b.Freeze?) && (st.phase == Complete <==> b.Finished?)
            && c.Some? && (c.value.status == CondTrue <==> b.Freeze?) && c.value.status != CondUnknown
            && c.value.reason == if b.Freeze? then "FailureRateExceeded" else "Healthy"
  {
    StoredAgrees(prev, ds, ro, now);
    CountersExact(prev, ds, ro, now);
  }

  /**
   The stored status tells the truth about the fleet the pass leaves, whether it was written or found
   equal: how many devices there are, are on target and run it; Paused exactly if the share of failed
   devices had reached the threshold; Complete only if every device runs the target.
   */
  lemma ReportIsTrue(p: Point, ro: RolloutSpec, now: int)
    requires Sorted(p.fleet) && |p.fleet| <= MAX_FLEET && 1 <= ro.threshold <= 100
    ensures var r, t := Pass(p, ro, now), ro.target;
            && r.status.selected == |r.fleet|
            && r.status.targeted == |OnTarget(r.fleet, t)|
            && r.status.succeeded == |Running(r.fleet, t)|
            && r.status.failed == |OfKind(p.fleet, t, Failed)|
            && r.status.observedGeneration == ro.generation
            && (r.status.phase == Paused <==>
                  RatioReached(|OnTarget(p.fleet, t)|, |OfKind(p.fleet, t, Failed)|, ro.threshold))
            && (r.status.phase == Complete ==> |Running(r.fleet, t)| == |r.fleet|)
            && Find(r.status.conditions, BREAKER).Some?
            && (var c := Find(r.status.conditions, BREAKER).value;
                && c.status == (if r.status.phase == Paused then CondTrue else CondFalse)
                && c.reason == if r.status.phase == Paused then "FailureRateExceeded" else "Healthy")
  {
    var ds := p.fleet;
    var g := Execute(ds, ds, Plan(ds, ro), BranchOf(ds, ro), ro).fleet;
    RunningStays(ds, ro);
    TargetedAfter(ds, ro);
    CountsAddUp(g, ro.target);
    OnTargetSize(ds, ro.target);
    OnTargetSize(g, ro.target);
    CountIsSize(ds, ro.target, Failed);
    ReportExact(p.status, ds, ro, now);
    VerdictExact(ds, ro);
  }

  lemma VerdictExact(ds: seq<Item>, ro: RolloutSpec)
    requires |ds| <= MAX_FLEET && 1 <= ro.threshold <= 100
    ensures BranchOf(ds, ro).Freeze? <==>
            RatioReached(Targeted(ds, ro.target), Count(ds, ro.target, Failed), ro.threshold)
    ensures BranchOf(ds, ro).Finished? ==> Count(ds, ro.target, Succeeded) == |ds|
  {
    TripsExactly(ds, ro);
    CountAtMost(ds, ro.target, Succeeded);
    I32Exact(Count(ds, ro.target, Succeeded));
    I32Exact(|ds|);
  }

  // ---- The top-up ----

  /** A device a top-up may take: neither on target nor told to be, and not paused. */
  predicate MayBeTaken(d: Device, target: string) {
    d.status.current != target && d.spec.desired != target && !d.spec.paused
  }

  lemma {:induction false} PushesSkipNone(ds: seq<Item>, target: string, i: nat, capacity: int, x: nat)
    requires i <= x < |ds| && MayBeTaken(ds[x].device, target) && x !in Pushes(ds, target, i, capacity)
    ensures var plan := Pushes(ds, target, i, capacity);
            |plan| == (if capacity > 0 then capacity else 0) && forall k | 0 <= k < |plan| :: plan[k] < x
    decreases |ds| - i
  {
    if capacity > 0 {
      if Eligible(ds[i].device, target) {
        PushesSkipNone(ds, target, i + 1, capacity - 1, x);
      } else {
        PushesSkipNone(ds, target, i + 1, capacity, x);
      }
    }
  }

  /**
   A top-up takes the first devices in name order that may be taken, and leaves one out only when
   maxUnavailable devices are in flight: on target, not running it and not failed.
   */
  lemma TopUpExactly(ds: seq<Item>, ro: RolloutSpec, x: nat)
    requires BranchOf(ds, ro) == TopUp && |ds| < TWO31 && 1 <= ro.maxUnavailable < TWO31 && x < |ds|
    ensures var plan, t := Plan(ds, ro), ro.target;
            var room := ro.maxUnavailable - (|OnTarget(ds, t)| - |Running(ds, t)| - |OfKind(ds, t, Failed)|);
            && |plan| <= (if room > 0 then room else 0)
            && (x in plan ==> MayBeTaken(ds[x].device, t))
            && (x !in plan && MayBeTaken(ds[x].device, t) ==>
                  |plan| == (if room > 0 then room else 0) && forall k | 0 <= k < |plan| :: plan[k] < x)
  {
    var plan := Plan(ds, ro);
    OnTargetSize(ds, ro.target);
    CountIsSize(ds, ro.target, Failed);
    CapacityExact(ds, ro);
    if x in plan {
      var k :| 0 <= k < |plan| && plan[k] == x;
    } else if MayBeTaken(ds[x].device, ro.target) {
      PushesSkipNone(ds, ro.target, 0, Capacity(ds, ro), x);
    }
  }

  /** A written breaker condition is judged for the rollout's generation, and its time moves when the verdict flips. */
  lemma BreakerIsTimed(prev: RolloutStatus, ds: seq<Item>, ro: RolloutSpec, now: int)
    ensures var before := Find(prev.conditions, BREAKER);
            var after := Find(NewStatus(prev, ds, ro, now).conditions, BREAKER);
            && after.Some? && after.value.observedGeneration == ro.generation
            && after.value.lastTransition ==
               if before.Some? && before.value.status == after.value.status then before.value.lastTransition else now
  {
    TimeMovesOnFlips(prev.conditions, BreakerCondition(BranchOf(ds, ro).Freeze?, ro.generation, now));
  }
}
