/** Passes that read the fleet as it is: what they write, and when they stop writing. */
module RolloutFixpoints {
  import opened Wrappers
  import opened Devices
  import opened Rollouts
  import opened RolloutControllers

  // ---- A pass on a fresh listing ----

  predicate Increasing(plan: seq<nat>, bound: nat) {
    && (forall k | 0 <= k < |plan| :: plan[k] < bound)
    && (forall k, l | 0 <= k < l < |plan| :: plan[k] < plan[l])
  }

  /** The rest of a pass on `ds`: `g` still agrees with it where writes are to come. */
  predicate Untouched(g: seq<Item>, ds: seq<Item>, plan: seq<nat>) {
    && |g| == |ds| && (forall x | 0 <= x < |g| :: g[x].name == ds[x].name)
    && (forall k | 0 <= k < |plan| && plan[k] < |ds| :: g[plan[k]] == ds[plan[k]])
  }

  lemma UpdateFresh(g: seq<Item>, ds: seq<Item>, x: nat, b: Branch, ro: RolloutSpec)
    requires Sorted(ds) && x < |ds| && Untouched(g, ds, [x])
    ensures Updated(g, ds[x], Edited(ds[x].device.spec, b, ro)) == Some(g[x := Rewritten(ds[x], b, ro)])
  {
    assert g[[x][0]] == ds[[x][0]];
    assert Sorted(g);
    IndexInSorted(g, x);
  }

  /** No write of a fresh pass is refused, and it rewrites exactly the planned devices. */
  lemma {:induction false} FreshExecute(g: seq<Item>, ds: seq<Item>, plan: seq<nat>, b: Branch, ro: RolloutSpec)
    requires Sorted(ds) && Increasing(plan, |ds|) && Untouched(g, ds, plan)
    ensures var r := Execute(g, ds, plan, b, ro);
            && r.ok && |r.fleet| == |g|
            && forall x | 0 <= x < |g| :: r.fleet[x] == if x in plan then Rewritten(ds[x], b, ro) else g[x]
    decreases |plan|
  {
    if plan != [] {
      var x := plan[0];
      assert g[plan[0]] == ds[plan[0]];
      UpdateFresh(g, ds, x, b, ro);
      var g' := g[x := Rewritten(ds[x], b, ro)];
      forall k | 0 <= k < |plan[1..]| ensures g'[plan[1..][k]] == ds[plan[1..][k]] {
        assert g[plan[k + 1]] == ds[plan[k + 1]] && plan[0] < plan[k + 1];
      }
      FreshExecute(g', ds, plan[1..], b, ro);
      assert plan == [x] + plan[1..];
    }
  }

  lemma OneFlies(g: seq<Item>, x: nat, i: Item, target: string)
    requires x < |g| && KindOf(g[x].device, target) == Untargeted && KindOf(i.device, target) == InFlight
    ensures Count(g[x := i], target, InFlight) == Count(g, target, InFlight) + 1
    ensures Count(g[x := i], target, Failed) == Count(g, target, Failed)
    ensures Count(g[x := i], target, Succeeded) == Count(g, target, Succeeded)
  {
    CountUpdated(g, x, i, target, InFlight);
    CountUpdated(g, x, i, target, Failed);
    CountUpdated(g, x, i, target, Succeeded);
  }

  /** The counts a run of pushes leaves when no device on the list already counts as failed. */
  lemma {:induction false} PushCounts(g: seq<Item>, ds: seq<Item>, plan: seq<nat>, ro: RolloutSpec)
    requires Sorted(ds) && Increasing(plan, |ds|) && Untouched(g, ds, plan)
    requires forall k | 0 <= k < |plan| :: KindOf(ds[plan[k]].device, ro.target) == Untargeted && !DeviceFailed(ds[plan[k]].device)
    ensures var r := Execute(g, ds, plan, TopUp, ro).fleet;
            && Count(r, ro.target, InFlight) == Count(g, ro.target, InFlight) + |plan|
            && Count(r, ro.target, Failed) == Count(g, ro.target, Failed)
            && Count(r, ro.target, Succeeded) == Count(g, ro.target, Succeeded)
    decreases |plan|
  {
    if plan != [] {
      var x := plan[0];
      assert g[plan[0]] == ds[plan[0]];
      UpdateFresh(g, ds, x, TopUp, ro);
      var i := Rewritten(ds[x], TopUp, ro);
      OneFlies(g, x, i, ro.target);
      forall k | 0 <= k < |plan[1..]| ensures g[x := i][plan[1..][k]] == ds[plan[1..][k]] {
        assert g[plan[k + 1]] == ds[plan[k + 1]] && plan[0] < plan[k + 1];
      }
      PushCounts(g[x := i], ds, plan[1..], ro);
    }
  }

  // ---- Repeated passes ----

  function After(p: Point, ro: RolloutSpec, nows: seq<int>): Point
    decreases |nows|
  {
    if nows == [] then p else After(Pass(p, ro, nows[0]), ro, nows[1..])
  }

  /** The pass writes neither a device nor the status. */
  predicate Quiet(p: Point, ro: RolloutSpec) {
    Plan(p.fleet, ro) == [] && RolloutStatusEqual(p.status, NewStatus(p.status, p.fleet, ro, 0))
  }

  function Eligibles(ds: seq<Item>, target: string): nat
    decreases |ds|
  {
    if ds == [] then 0
    else Eligibles(ds[..|ds| - 1], target) + if Eligible(ds[|ds| - 1].device, target) then 1 else 0
  }

  lemma {:induction false} EligiblesFewer(f: seq<Item>, g: seq<Item>, target: string, x: int)
    requires |f| == |g|
    requires forall y | 0 <= y < |f| && Eligible(g[y].device, target) :: Eligible(f[y].device, target)
    requires 0 <= x < |f| ==> Eligible(f[x].device, target) && !Eligible(g[x].device, target)
    ensures Eligibles(g, target) + (if 0 <= x < |f| then 1 else 0) <= Eligibles(f, target)
    decreases |f|
  {
    if f != [] {
      EligiblesFewer(f[..|f| - 1], g[..|g| - 1], target, x);
    }
  }

  lemma {:induction false} EligiblesAtMost(ds: seq<Item>, target: string)
    ensures Eligibles(ds, target) <= |ds|
    decreases |ds|
  {
    if ds != [] {
      EligiblesAtMost(ds[..|ds| - 1], target);
    }
  }

  /** The gate compares nothing that depends on the clock or on the conditions stored before. */
  lemma GateForgets(prev: RolloutStatus, a: RolloutStatus, b: RolloutStatus, ds: seq<Item>, ro: RolloutSpec, now: int, now': int)
    ensures RolloutStatusEqual(prev, NewStatus(a, ds, ro, now)) <==> RolloutStatusEqual(prev, NewStatus(b, ds, ro, now'))
  {
    var t := BranchOf(ds, ro).Freeze?;
    UpsertFinds(a.conditions, BreakerCondition(t, ro.generation, now), BREAKER);
    UpsertFinds(b.conditions, BreakerCondition(t, ro.generation, now'), BREAKER);
  }

  /** Two fleets that count alike up to the devices just pushed lead to statuses the gate takes for equal. */
  predicate SameReport(ds: seq<Item>, ds': seq<Item>, ro: RolloutSpec) {
    var pushed := if BranchOf(ds, ro).TopUp? then |Plan(ds, ro)| else 0;
    && |ds'| == |ds| && BranchOf(ds', ro) == BranchOf(ds, ro) && Plan(ds', ro) == []
    && Targeted(ds', ro.target) == Targeted(ds, ro.target) + pushed
    && Count(ds', ro.target, Succeeded) == Count(ds, ro.target, Succeeded)
    && Count(ds', ro.target, Failed) == Count(ds, ro.target, Failed)
  }

  lemma ReportedIsQuiet(p: Point, ds': seq<Item>, ro: RolloutSpec, now: int)
    requires SameReport(p.fleet, ds', ro)
    ensures Quiet(Point(ds', StatusAfter(p.status, p.fleet, ro, now, true)), ro)
  {
    var st := StatusAfter(p.status, p.fleet, ro, now, true);
    var b := BranchOf(p.fleet, ro).Freeze?;
    UpsertFinds(p.status.conditions, BreakerCondition(b, ro.generation, now), BREAKER);
    UpsertFinds(st.conditions, BreakerCondition(b, ro.generation, 0), BREAKER);
  }

  /** A quiet pass changes nothing, whatever the clock says. */
  lemma QuietPass(p: Point, ro: RolloutSpec, now: int)
    requires Quiet(p, ro)
    ensures Pass(p, ro, now) == p
  {
    GateForgets(p.status, p.status, p.status, p.fleet, ro, 0, now);
  }

  lemma {:induction false} QuietAfter(p: Point, ro: RolloutSpec, nows: seq<int>)
    requires Quiet(p, ro)
    ensures After(p, ro, nows) == p
    decreases |nows|
  {
    if nows != [] {
      QuietPass(p, ro, nows[0]);
      QuietAfter(p, ro, nows[1..]);
    }
  }

  // ---- Pausing changes no count ----

  lemma {:induction false} SameKinds(f: seq<Item>, g: seq<Item>, target: string, k: Kind)
    requires |f| == |g| && forall x | 0 <= x < |f| :: KindOf(g[x].device, target) == KindOf(f[x].device, target)
    ensures Count(g, target, k) == Count(f, target, k)
    decreases |f|
  {
    if f != [] {
      SameKinds(f[..|f| - 1], g[..|g| - 1], target, k);
    }
  }

  lemma {:induction false} NothingToFreeze(ds: seq<Item>, i: nat)
    requires i <= |ds| && forall x | i <= x < |ds| :: ds[x].device.spec.paused
    ensures Freezes(ds, i) == []
    decreases |ds| - i
  {
    if i < |ds| {
      NothingToFreeze(ds, i + 1);
    }
  }

  lemma FrozenReport(ds: seq<Item>, g: seq<Item>, ro: RolloutSpec)
    requires |g| == |ds| && BranchOf(ds, ro) == Freeze
    requires forall x | 0 <= x < |ds| :: g[x].device.spec.paused && KindOf(g[x].device, ro.target) == KindOf(ds[x].device, ro.target)
    ensures SameReport(ds, g, ro)
  {
    SameKinds(ds, g, ro.target, InFlight);
    SameKinds(ds, g, ro.target, Failed);
    SameKinds(ds, g, ro.target, Succeeded);
    NothingToFreeze(g, 0);
  }

  /** A pass that trips is followed by quiet passes only. */
  lemma FreezeThenQuiet(p: Point, ro: RolloutSpec, now: int)
    requires Sorted(p.fleet) && BranchOf(p.fleet, ro) == Freeze
    ensures Quiet(Pass(p, ro, now), ro)
  {
    FreshExecute(p.fleet, p.fleet, Freezes(p.fleet, 0), Freeze, ro);
    var g := Execute(p.fleet, p.fleet, Freezes(p.fleet, 0), Freeze, ro).fleet;
    forall x | 0 <= x < |g|
      ensures g[x].device.spec.paused && KindOf(g[x].device, ro.target) == KindOf(p.fleet[x].device, ro.target)
    {
    }
    FrozenReport(p.fleet, g, ro);
    ReportedIsQuiet(p, g, ro, now);
  }

  /** A pass that plans no write is followed by quiet passes only. */
  lemma IdleThenQuiet(p: Point, ro: RolloutSpec, now: int)
    requires Plan(p.fleet, ro) == []
    ensures Quiet(Pass(p, ro, now), ro)
  {
    ReportedIsQuiet(p, p.fleet, ro, now);
  }

  /** A pass that pushes leaves fewer eligible devices, still in name order. */
  lemma PushProgress(p: Point, ro: RolloutSpec, now: int)
    requires Sorted(p.fleet) && BranchOf(p.fleet, ro) == TopUp
    ensures Sorted(Pass(p, ro, now).fleet)
    ensures Plan(p.fleet, ro) != [] ==> Eligibles(Pass(p, ro, now).fleet, ro.target) < Eligibles(p.fleet, ro.target)
  {
    var plan := Plan(p.fleet, ro);
    FreshExecute(p.fleet, p.fleet, plan, TopUp, ro);
    var g := Execute(p.fleet, p.fleet, plan, TopUp, ro).fleet;
    if plan != [] {
      assert plan[0] in plan;
      EligiblesFewer(p.fleet, g, ro.target, plan[0]);
    }
  }

  /**
   The fixpoint: with no change from outside, every pass after the first Eligibles + 1 <= n + 1
   passes writes nothing, on any fleet, any stored status and any rollout spec.
   */
  lemma {:induction false} ReconcileFixpoint(p: Point, ro: RolloutSpec, nows: seq<int>)
    requires Sorted(p.fleet) && |nows| > Eligibles(p.fleet, ro.target)
    ensures Quiet(After(p, ro, nows), ro)
    decreases |nows|
  {
    var p' := Pass(p, ro, nows[0]);
    if Plan(p.fleet, ro) == [] {
      IdleThenQuiet(p, ro, nows[0]);
      QuietAfter(p', ro, nows[1..]);
    } else if BranchOf(p.fleet, ro) == Freeze {
      FreezeThenQuiet(p, ro, nows[0]);
      QuietAfter(p', ro, nows[1..]);
    } else {
      PushProgress(p, ro, nows[0]);
      ReconcileFixpoint(p', ro, nows[1..]);
    }
  }

  lemma WithinFleetSizePlusOne(p: Point, ro: RolloutSpec, nows: seq<int>)
    requires Sorted(p.fleet) && |nows| > |p.fleet|
    ensures Quiet(After(p, ro, nows), ro)
  {
    EligiblesAtMost(p.fleet, ro.target);
    ReconcileFixpoint(p, ro, nows);
  }

  // ---- The usual case: one writing pass ----

  lemma {:induction false} PushesTakeAll(ds: seq<Item>, target: string, i: nat, capacity: int, x: nat)
    requires i <= x < |ds| && Eligible(ds[x].device, target) && |Pushes(ds, target, i, capacity)| < capacity
    ensures x in Pushes(ds, target, i, capacity)
    decreases |ds| - i
  {
    if i < x {
      if Eligible(ds[i].device, target) {
        PushesTakeAll(ds, target, i + 1, capacity - 1, x);
      } else {
        PushesTakeAll(ds, target, i + 1, capacity, x);
      }
    }
  }

  lemma {:induction false} NothingToPush(ds: seq<Item>, target: string, i: nat, capacity: int)
    requires i <= |ds| && forall x | i <= x < |ds| :: !Eligible(ds[x].device, target)
    ensures Pushes(ds, target, i, capacity) == []
    decreases |ds| - i
  {
    if i < |ds| && capacity > 0 {
      NothingToPush(ds, target, i + 1, capacity);
    }
  }

  /** What a top-up pass leaves has nothing left to push when the devices it pushed fly. */
  lemma PushedOut(ds: seq<Item>, g: seq<Item>, ro: RolloutSpec)
    requires |g| == |ds| < TWO31 && 1 <= ro.maxUnavailable < TWO31 && BranchOf(ds, ro) == TopUp
    requires var plan := Plan(ds, ro);
             && Count(g, ro.target, InFlight) == Count(ds, ro.target, InFlight) + |plan|
             && forall x | 0 <= x < |ds| && Eligible(g[x].device, ro.target) :: Eligible(ds[x].device, ro.target) && x !in plan
    ensures Pushes(g, ro.target, 0, Capacity(g, ro)) == []
  {
    CapacityExact(ds, ro);
    CapacityExact(g, ro);
    if Capacity(g, ro) > 0 {
      forall x | 0 <= x < |g| ensures !Eligible(g[x].device, ro.target) {
        if Eligible(g[x].device, ro.target) {
          PushesTakeAll(ds, ro.target, 0, Capacity(ds, ro), x);
        }
      }
      NothingToPush(g, ro.target, 0, Capacity(g, ro));
    }
  }

  /** Targeting more devices while as many fail keeps the breaker shut. */
  lemma PushKeepsVerdict(ds: seq<Item>, g: seq<Item>, ro: RolloutSpec)
    requires |g| == |ds| <= MAX_FLEET && 1 <= ro.threshold <= 100 && BranchOf(ds, ro) == TopUp
    requires Targeted(g, ro.target) >= Targeted(ds, ro.target)
    requires Count(g, ro.target, Failed) == Count(ds, ro.target, Failed)
    requires Count(g, ro.target, Succeeded) == Count(ds, ro.target, Succeeded)
    ensures BranchOf(g, ro) == TopUp
  {
    TripsExactly(ds, ro);
    TripsExactly(g, ro);
    CountsAddUp(ds, ro.target);
    CountsAddUp(g, ro.target);
    ShareShrinks(Targeted(ds, ro.target), Targeted(g, ro.target), Count(ds, ro.target, Failed), ro.threshold);
  }

  lemma ShareShrinks(t: nat, t': nat, failed: nat, threshold: int)
    requires t <= t' && failed <= t && threshold >= 1 && !RatioReached(t, failed, threshold)
    ensures !RatioReached(t', failed, threshold)
  {
    assert threshold * t' >= threshold * t;
    if t == 0 && t' > 0 {
      assert threshold * t' >= 1;
    }
  }

  /** When no untargeted device counts as failed, the second pass already writes nothing. */
  lemma SecondPassIsQuiet(p: Point, ro: RolloutSpec, now: int)
    requires Sorted(p.fleet) && |p.fleet| <= MAX_FLEET && 1 <= ro.threshold <= 100 && 1 <= ro.maxUnavailable < TWO31
    requires forall x | 0 <= x < |p.fleet| && KindOf(p.fleet[x].device, ro.target) == Untargeted :: !DeviceFailed(p.fleet[x].device)
    ensures Quiet(Pass(p, ro, now), ro)
  {
    match BranchOf(p.fleet, ro) {
      case Freeze => FreezeThenQuiet(p, ro, now);
      case Finished => IdleThenQuiet(p, ro, now);
      case TopUp => TopUpThenQuiet(p, ro, now);
    }
  }

  lemma TopUpThenQuiet(p: Point, ro: RolloutSpec, now: int)
    requires Sorted(p.fleet) && |p.fleet| <= MAX_FLEET && 1 <= ro.threshold <= 100 && 1 <= ro.maxUnavailable < TWO31
    requires forall x | 0 <= x < |p.fleet| && KindOf(p.fleet[x].device, ro.target) == Untargeted :: !DeviceFailed(p.fleet[x].device)
    requires BranchOf(p.fleet, ro) == TopUp
    ensures Quiet(Pass(p, ro, now), ro)
  {
    var plan := Plan(p.fleet, ro);
    FreshExecute(p.fleet, p.fleet, plan, TopUp, ro);
    PushCounts(p.fleet, p.fleet, plan, ro);
    var g := Execute(p.fleet, p.fleet, plan, TopUp, ro).fleet;
    PushKeepsVerdict(p.fleet, g, ro);
    PushedOut(p.fleet, g, ro);
    ReportedIsQuiet(p, g, ro, now);
  }
}
