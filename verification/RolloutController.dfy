/** Reconcile of internal/controller/fleetrollout_controller.go with its loops and int32 counters. */
module RolloutControllers {
  import opened Devices
  import opened Rollouts

  /** The devices the counting loop collects as untargeted, from position `i` on. */
  function Untargeteds(ds: seq<Item>, target: string, i: nat): (us: seq<nat>)
    requires i <= |ds|
    ensures forall k | 0 <= k < |us| :: i <= us[k] < |ds|
    decreases |ds| - i
  {
    if i == |ds| then []
    else if KindOf(ds[i].device, target) == Untargeted then [i] + Untargeteds(ds, target, i + 1)
    else Untargeteds(ds, target, i + 1)
  }

  /** The int32 counter one higher. */
  lemma CountOn(counter: int, n: int)
    requires counter == I32(n)
    ensures I32(counter + 1) == I32(n + 1)
  {
    I32Next(n);
  }

  /** The top-up loop over the collected devices. */
  function Select(ds: seq<Item>, us: seq<nat>, capacity: int): (plan: seq<nat>)
    requires forall k | 0 <= k < |us| :: us[k] < |ds|
    ensures forall k | 0 <= k < |plan| :: plan[k] < |ds|
    decreases |us|
  {
    if us == [] || capacity <= 0 then []
    else if ds[us[0]].device.spec.paused then Select(ds, us[1..], capacity)
    else [us[0]] + Select(ds, us[1..], capacity - 1)
  }

  lemma {:induction false} SelectIsPushes(ds: seq<Item>, target: string, i: nat, capacity: int)
    requires i <= |ds|
    ensures Select(ds, Untargeteds(ds, target, i), capacity) == Pushes(ds, target, i, capacity)
    decreases |ds| - i
  {
    if i < |ds| && capacity > 0 {
      if Eligible(ds[i].device, target) {
        SelectIsPushes(ds, target, i + 1, capacity - 1);
      } else {
        SelectIsPushes(ds, target, i + 1, capacity);
      }
    }
  }

  /** The status a pass leaves: unchanged after a refused write or an equal result. */
  function StatusAfter(prev: RolloutStatus, ds: seq<Item>, ro: RolloutSpec, now: int, ok: bool): RolloutStatus {
    var next := NewStatus(prev, ds, ro, now);
    if !ok || RolloutStatusEqual(prev, next) then prev else next
  }

  datatype Point = Point(fleet: seq<Item>, status: RolloutStatus)

  /** What Controller.Reconcile leaves when it lists the present fleet and its status write goes through. */
  function Pass(p: Point, ro: RolloutSpec, now: int): Point {
    var b := BranchOf(p.fleet, ro);
    var x := Execute(p.fleet, p.fleet, Plan(p.fleet, ro), b, ro);
    Point(x.fleet, StatusAfter(p.status, p.fleet, ro, now, x.ok))
  }

  lemma NextCounts(ds: seq<Item>, i: nat, target: string)
    requires i < |ds|
    ensures var k := KindOf(ds[i].device, target);
            && I32(Targeted(ds[..i + 1], target)) ==
               (if k.Untargeted? then I32(Targeted(ds[..i], target)) else I32(I32(Targeted(ds[..i], target)) + 1))
            && I32(Count(ds[..i + 1], target, Succeeded)) ==
               (if k.Succeeded? then I32(I32(Count(ds[..i], target, Succeeded)) + 1) else I32(Count(ds[..i], target, Succeeded)))
            && I32(Count(ds[..i + 1], target, Failed)) ==
               (if k.Failed? then I32(I32(Count(ds[..i], target, Failed)) + 1) else I32(Count(ds[..i], target, Failed)))
  {
    assert ds[..i + 1][..i] == ds[..i];
    I32Next(Targeted(ds[..i], target));
    I32Next(Count(ds[..i], target, Succeeded));
    I32Next(Count(ds[..i], target, Failed));
  }

  lemma I32Difference(a: int, b: int, c: int)
    ensures I32(I32(a) - I32(b) - I32(c)) == I32(a - b - c)
  {
    var qa, qb, qc := (a + TWO31) / (2 * TWO31), (b + TWO31) / (2 * TWO31), (c + TWO31) / (2 * TWO31);
    assert I32(a) == a - qa * (2 * TWO31) && I32(b) == b - qb * (2 * TWO31) && I32(c) == c - qc * (2 * TWO31);
    I32Congruent(a - b - c, qb + qc - qa);
  }

  lemma TopUpIsPlan(ds: seq<Item>, ro: RolloutSpec)
    requires BranchOf(ds, ro) == TopUp
    ensures var t, s, f := Targeted(ds, ro.target), Count(ds, ro.target, Succeeded), Count(ds, ro.target, Failed);
            Plan(ds, ro) ==
            Select(ds, Untargeteds(ds, ro.target, 0), I32(ro.maxUnavailable - I32(I32(t) - I32(s) - I32(f))))
  {
    I32Difference(Targeted(ds, ro.target), Count(ds, ro.target, Succeeded), Count(ds, ro.target, Failed));
    SelectIsPushes(ds, ro.target, 0, Capacity(ds, ro));
  }

  class Controller {
    var fleet: seq<Item>          // the devices in the API server
    var status: RolloutStatus     // the stored status of the rollout

    constructor (fleet: seq<Item>, status: RolloutStatus)
      ensures this.fleet == fleet && this.status == status
    {
      this.fleet, this.status := fleet, status;
    }

    method Update(item: Item, spec: Spec) returns (ok: bool)
      modifies this`fleet
      ensures var next := Updated(old(fleet), item, spec);
              ok == next.Some? && fleet == if ok then next.value else old(fleet)
    {
      var next := Updated(fleet, item, spec);
      if next.Some? {
        fleet := next.value;
      }
      return next.Some?;
    }

    /**
     `listed` is the device list as the cache returns it, in any order and possibly stale; `stored`
     says whether the API server takes the status, should the pass come to write it.
     */
    method Reconcile(listed: seq<Item>, ro: RolloutSpec, now: int, stored: bool) returns (err: bool)
      modifies this
      ensures var ds := SortByName(listed);
              var x := Execute(old(fleet), ds, Plan(ds, ro), BranchOf(ds, ro), ro);
              var gated := RolloutStatusEqual(old(status), NewStatus(old(status), ds, ro, now));
              && fleet == x.fleet && err == (!x.ok || (!gated && !stored))
              && status == StatusAfter(old(status), ds, ro, now, x.ok && stored)
      ensures Sorted(old(fleet)) && DistinctNames(listed) && multiset(listed) == multiset(old(fleet)) && stored ==>
                Point(fleet, status) == Pass(Point(old(fleet), old(status)), ro, now)
    {
      var ds := SortByName(listed);
      if Sorted(fleet) && DistinctNames(listed) && multiset(listed) == multiset(fleet) {
        FreshListing(listed, fleet);
      }
      var targeted, succeeded, failed, untargeted := CountDevices(ds, ro.target);
      var tripped := targeted > 0 && I32(failed * 100) >= I32(ro.threshold * targeted);
      var phase;
      err, phase, targeted := Act(ds, ro, targeted, succeeded, failed, untargeted, tripped);
      if !err {
        err := StoreStatus(ds, ro, phase, targeted, succeeded, failed, tripped, now, stored);
      }
    }

    /** The three branches of a pass: freeze, complete, or top up. */
    method Act(ds: seq<Item>, ro: RolloutSpec, targeted: int, succeeded: int, failed: int, untargeted: seq<nat>, tripped: bool)
      returns (err: bool, phase: RolloutPhase, nowTargeted: int)
      requires targeted == I32(Targeted(ds, ro.target)) && untargeted == Untargeteds(ds, ro.target, 0)
      requires succeeded == I32(Count(ds, ro.target, Succeeded)) && failed == I32(Count(ds, ro.target, Failed))
      requires tripped == Tripped(ds, ro)
      modifies this`fleet
      ensures Executed(fleet, !err) == Execute(old(fleet), ds, Plan(ds, ro), BranchOf(ds, ro), ro)
      ensures phase == match BranchOf(ds, ro) case Freeze => Paused case Finished => Complete case TopUp => Progressing
      ensures !err ==> nowTargeted == I32(Reported(ds, ro))
    {
      nowTargeted := targeted;
      if tripped {
        assert BranchOf(ds, ro) == Freeze;
        phase := Paused;
        err := FreezeAll(ds, ro);
      } else if |ds| > 0 && succeeded == I32(|ds|) {
        assert BranchOf(ds, ro) == Finished;
        phase := Complete;
        err := false;
      } else {
        assert BranchOf(ds, ro) == TopUp;
        phase := Progressing;
        var inFlight := I32(targeted - succeeded - failed);
        var capacity := I32(ro.maxUnavailable - inFlight);
        assert Plan(ds, ro) == Select(ds, untargeted, capacity) by {
          TopUpIsPlan(ds, ro);
        }
        err, nowTargeted := PushNext(ds, ro, untargeted, capacity, targeted);
      }
    }

    /** The diff-gated status write. */
    method StoreStatus(ds: seq<Item>, ro: RolloutSpec, phase: RolloutPhase, targeted: int, succeeded: int,
                       failed: int, tripped: bool, now: int, stored: bool)
      returns (err: bool)
      requires phase == match BranchOf(ds, ro) case Freeze => Paused case Finished => Complete case TopUp => Progressing
      requires targeted == I32(Reported(ds, ro))
      requires succeeded == I32(Count(ds, ro.target, Succeeded)) && failed == I32(Count(ds, ro.target, Failed))
      requires tripped == Tripped(ds, ro)
      modifies this`status
      ensures status == StatusAfter(old(status), ds, ro, now, stored)
      ensures err == (!stored && !RolloutStatusEqual(old(status), NewStatus(old(status), ds, ro, now)))
    {
      var next := RolloutStatus(phase, I32(|ds|), targeted, succeeded, failed,
                                Upsert(status.conditions, BreakerCondition(tripped, ro.generation, now)), ro.generation);
      if RolloutStatusEqual(status, next) {
        return false;
      }
      if stored {
        status := next;
      }
      return !stored;
    }

    method CountDevices(ds: seq<Item>, target: string)
      returns (targeted: int, succeeded: int, failed: int, untargeted: seq<nat>)
      ensures targeted == I32(Targeted(ds, target))
      ensures succeeded == I32(Count(ds, target, Succeeded)) && failed == I32(Count(ds, target, Failed))
      ensures untargeted == Untargeteds(ds, target, 0)
    {
      targeted, succeeded, failed, untargeted := 0, 0, 0, [];
      for i := 0 to |ds|
        invariant targeted == I32(Targeted(ds[..i], target))
        invariant succeeded == I32(Count(ds[..i], target, Succeeded))
        invariant failed == I32(Count(ds[..i], target, Failed))
        invariant untargeted + Untargeteds(ds, target, i) == Untargeteds(ds, target, 0)
      {
        var dev := ds[i].device;
        NextCounts(ds, i, target);
        if dev.status.current == target {
          targeted := I32(targeted + 1);
          succeeded := I32(succeeded + 1);
        } else if dev.spec.desired != target {
          assert untargeted + ([i] + Untargeteds(ds, target, i + 1)) == untargeted + [i] + Untargeteds(ds, target, i + 1);
          untargeted := untargeted + [i];
        } else {
          targeted := I32(targeted + 1);
          if DeviceFailed(dev) {
            failed := I32(failed + 1);
          }
        }
      }
      assert ds[..|ds|] == ds;
    }

    /** The breaker branch: pause every device that is not paused yet. */
    method FreezeAll(ds: seq<Item>, ro: RolloutSpec) returns (err: bool)
      modifies this`fleet
      ensures Executed(fleet, !err) == Execute(old(fleet), ds, Freezes(ds, 0), Freeze, ro)
    {
      for i := 0 to |ds|
        invariant Execute(fleet, ds, Freezes(ds, i), Freeze, ro) == Execute(old(fleet), ds, Freezes(ds, 0), Freeze, ro)
      {
        var dev := ds[i].device;
        if !dev.spec.paused {
          assert Freezes(ds, i)[0] == i && Freezes(ds, i)[1..] == Freezes(ds, i + 1);
          var ok := Update(ds[i], dev.spec.(paused := true));
          if !ok {
            return true;
          }
        }
      }
      return false;
    }

    /** The default branch: target untargeted devices until the capacity is used up. */
    method PushNext(ds: seq<Item>, ro: RolloutSpec, untargeted: seq<nat>, capacity: int, targeted: int)
      returns (err: bool, nowTargeted: int)
      requires forall k | 0 <= k < |untargeted| :: untargeted[k] < |ds|
      requires targeted == I32(Targeted(ds, ro.target))
      modifies this`fleet
      ensures Executed(fleet, !err) == Execute(old(fleet), ds, Select(ds, untargeted, capacity), TopUp, ro)
      ensures !err ==> nowTargeted == I32(Targeted(ds, ro.target) + |Select(ds, untargeted, capacity)|)
    {
      var left := capacity;
      nowTargeted := targeted;
      ghost var plan := Select(ds, untargeted, capacity);
      ghost var rest := plan;
      ghost var done := Targeted(ds, ro.target);
      for k := 0 to |untargeted|
        invariant rest == Select(ds, untargeted[k..], left) && done + |rest| == Targeted(ds, ro.target) + |plan|
        invariant Execute(fleet, ds, rest, TopUp, ro) == Execute(old(fleet), ds, plan, TopUp, ro)
        invariant nowTargeted == I32(done)
      {
        if left <= 0 {
          break;
        }
        var i := untargeted[k];
        assert untargeted[k..][1..] == untargeted[k + 1..];
        if ds[i].device.spec.paused {
          continue;
        }
        var ok := Update(ds[i], Edited(ds[i].device.spec, TopUp, ro));
        if !ok {
          return true, nowTargeted;
        }
        CountOn(nowTargeted, done);
        left, nowTargeted := left - 1, I32(nowTargeted + 1);
        rest, done := rest[1..], done + 1;
      }
      return false, nowTargeted;
    }
  }
}
