/**
 One reconcile pass of internal/controller/fleetrollout_controller.go: sort, count, trip or top
 up, and write under optimistic concurrency.
 */
module Rollouts {
  import opened Wrappers
  import opened Devices

  /** A selected device as the API server holds it; `rv` moves with every write. */
  datatype Item = Item(name: string, rv: nat, device: Device)

  datatype RolloutSpec = RolloutSpec(target: string, url: string, checksum: string,
                                     maxUnavailable: int, threshold: int, generation: int)

  datatype RolloutPhase = NoRolloutPhase | Progressing | Paused | Complete

  datatype RolloutStatus = RolloutStatus(phase: RolloutPhase, selected: int, targeted: int, succeeded: int,
                                         failed: int, conditions: seq<Condition>, observedGeneration: int)

  const BREAKER := "BreakerTripped"

  // ---- int32 ----

  const TWO31 := 0x8000_0000

  /** Two's complement wrap-around to 32 bits. */
  function I32(x: int): int {
    (x + TWO31) % (2 * TWO31) - TWO31
  }

  lemma I32Exact(x: int)
    requires -TWO31 <= x < TWO31
    ensures I32(x) == x
  {
  }

  lemma I32Congruent(x: int, q: int)
    ensures I32(x + q * (2 * TWO31)) == I32(x)
  {
  }

  lemma I32Next(x: int)
    ensures I32(I32(x) + 1) == I32(x + 1) && I32(I32(x) - 1) == I32(x - 1)
  {
    var q := (x + TWO31) / (2 * TWO31);
    assert I32(x) == x - q * (2 * TWO31);
    I32Congruent(x + 1, -q);
    I32Congruent(x - 1, -q);
  }

  // ---- Counting ----

  datatype Kind = Untargeted | InFlight | Failed | Succeeded

  /** deviceFailed */
  predicate DeviceFailed(d: Device) {
    d.status.phase == Degraded || FirmwareFailed(d.status.conditions)
  }

  function KindOf(d: Device, target: string): Kind {
    if d.status.current == target then Succeeded
    else if d.spec.desired != target then Untargeted
    else if DeviceFailed(d) then Failed
    else InFlight
  }

  /**
   The two controllers agree on a targeted device: once the operator has written its status, the
   rollout counts it as succeeded if it is Ready, in flight if it is Upgrading or has yet to enrol,
   and as failed exactly if it runs other firmware and went dark or reported a terminal failure.
   */
  lemma PhaseAgreesWithCount(dev: Device, now: int, timeout: int, target: string)
    requires dev.spec.desired == target
    ensures var w := OperatorWritten(dev, now, timeout);
            && (w.status.phase == Ready ==> KindOf(w, target) == Succeeded)
            && (w.status.phase == Upgrading ==> KindOf(w, target) == InFlight)
            && (KindOf(w, target) == Failed <==>
                  && dev.status.current != target
                  && (FirmwareFailed(dev.status.conditions)
                      || (dev.status.heartbeat.Some? && now - dev.status.heartbeat.value > timeout)))
  {
    UpsertFinds(dev.status.conditions, HealthOf(dev, now, timeout), FIRMWARE_SYNCED);
  }

  function Count(ds: seq<Item>, target: string, k: Kind): nat
    decreases |ds|
  {
    if ds == [] then 0
    else Count(ds[..|ds| - 1], target, k) + if KindOf(ds[|ds| - 1].device, target) == k then 1 else 0
  }

  function Targeted(ds: seq<Item>, target: string): nat {
    Count(ds, target, InFlight) + Count(ds, target, Failed) + Count(ds, target, Succeeded)
  }

  lemma {:induction false} CountsAddUp(ds: seq<Item>, target: string)
    ensures Targeted(ds, target) + Count(ds, target, Untargeted) == |ds|
    decreases |ds|
  {
    if ds != [] {
      CountsAddUp(ds[..|ds| - 1], target);
    }
  }

  lemma {:induction false} CountUpdated(f: seq<Item>, x: nat, i: Item, target: string, k: Kind)
    requires x < |f|
    ensures Count(f[x := i], target, k) ==
            Count(f, target, k) - (if KindOf(f[x].device, target) == k then 1 else 0)
            + (if KindOf(i.device, target) == k then 1 else 0)
    decreases |f|
  {
    var n := |f| - 1;
    if x == n {
      assert f[x := i][..n] == f[..n];
    } else {
      assert f[x := i][..n] == f[..n][x := i];
      CountUpdated(f[..n], x, i, target, k);
    }
  }

  lemma {:induction false} CountGrows(f: seq<Item>, g: seq<Item>, target: string, k: Kind)
    requires |f| == |g|
    requires forall x | 0 <= x < |f| && KindOf(f[x].device, target) == k :: KindOf(g[x].device, target) == k
    ensures Count(f, target, k) <= Count(g, target, k)
    decreases |f|
  {
    if f != [] {
      CountGrows(f[..|f| - 1], g[..|g| - 1], target, k);
    }
  }

  lemma CountAtMost(f: seq<Item>, target: string, k: Kind)
    ensures Count(f, target, k) <= |f|
  {
    CountsAddUp(f, target);
  }

  // ---- The verdict ----

  /** failed*100 >= threshold*targeted in int32. */
  predicate Trips(targeted: int, failed: int, threshold: int) {
    targeted > 0 && I32(failed * 100) >= I32(threshold * targeted)
  }

  predicate Tripped(ds: seq<Item>, ro: RolloutSpec) {
    Trips(I32(Targeted(ds, ro.target)), I32(Count(ds, ro.target, Failed)), ro.threshold)
  }

  /** The ratio the breaker is meant to watch. */
  predicate RatioReached(targeted: int, failed: int, threshold: int) {
    targeted > 0 && failed * 100 >= threshold * targeted
  }

  const MAX_FLEET := 21_474_836

  /** Up to 21,474,836 devices the int32 test is the exact ratio test. */
  lemma TripsExactly(ds: seq<Item>, ro: RolloutSpec)
    requires |ds| <= MAX_FLEET && 1 <= ro.threshold <= 100
    ensures Tripped(ds, ro) <==>
            RatioReached(Targeted(ds, ro.target), Count(ds, ro.target, Failed), ro.threshold)
  {
    CountsAddUp(ds, ro.target);
    var t, f := Targeted(ds, ro.target), Count(ds, ro.target, Failed);
    I32Exact(t);
    I32Exact(f);
    TripsExactlyOn(t, f, ro.threshold);
  }

  lemma TripsExactlyOn(t: nat, f: nat, threshold: int)
    requires f <= MAX_FLEET && t <= MAX_FLEET && 1 <= threshold <= 100
    ensures Trips(t, f, threshold) <==> RatioReached(t, f, threshold)
  {
    ProductBound(threshold, t);
    I32Exact(f * 100);
    I32Exact(threshold * t);
  }

  lemma ProductBound(a: nat, b: nat)
    requires a <= 100
    ensures 0 <= a * b <= 100 * b
  {
  }

  /** The int32 test never differs from the ratio in a fleet of `n` devices. */
  ghost predicate ExactFor(n: nat) {
    forall t: nat, f: nat, threshold: int | f <= t <= n && 1 <= threshold <= 100 ::
      Trips(t, f, threshold) <==> RatioReached(t, f, threshold)
  }

  /** The limit is sharp: with one device more, all targets may fail and a 50% breaker stays shut. */
  lemma ExactExactlyUpTo(n: nat)
    ensures ExactFor(n) <==> n <= MAX_FLEET
  {
    if n <= MAX_FLEET {
      forall t: nat, f: nat, threshold: int | f <= t <= n && 1 <= threshold <= 100
        ensures Trips(t, f, threshold) <==> RatioReached(t, f, threshold)
      {
        TripsExactlyOn(t, f, threshold);
      }
    } else {
      var m: nat := MAX_FLEET + 1;
      assert RatioReached(m, m, 50) && !Trips(m, m, 50);
    }
  }

  // ---- Order ----

  /** Go's string order. */
  predicate Less(a: string, b: string)
    decreases |a|
  {
    b != [] && (a == [] || a[0] < b[0] || (a[0] == b[0] && Less(a[1..], b[1..])))
  }

  lemma {:induction false} LessTrichotomy(a: string, b: string)
    ensures Less(a, b) || a == b || Less(b, a)
    ensures !(Less(a, b) && Less(b, a)) && !Less(a, a)
    decreases |a|
  {
    if a != [] {
      LessTrichotomy(a[1..], a[1..]);
      if b != [] {
        LessTrichotomy(a[1..], b[1..]);
        if a[0] == b[0] && a[1..] == b[1..] {
          assert a == [a[0]] + a[1..] && b == [b[0]] + b[1..];
        }
      }
    }
  }

  lemma {:induction false} LessTransitive(a: string, b: string, c: string)
    requires Less(a, b) && Less(b, c)
    ensures Less(a, c)
    decreases |a|
  {
    if a != [] && a[0] == b[0] && b[0] == c[0] {
      LessTransitive(a[1..], b[1..], c[1..]);
    }
  }

  /** The names agree in front of `k`, where `a` ends or has the smaller character. */
  predicate FirstDifference(a: string, b: string, k: nat) {
    && k <= |a| && k < |b| && (forall i | 0 <= i < k :: a[i] == b[i])
    && (k == |a| || a[k] < b[k])
  }

  /** Lexicographic order, spelled out. */
  ghost predicate Precedes(a: string, b: string) {
    exists k: nat :: FirstDifference(a, b, k)
  }

  lemma {:induction false} LessWitness(a: string, b: string) returns (k: nat)
    requires Less(a, b)
    ensures FirstDifference(a, b, k)
    decreases |a|
  {
    k := 0;
    if a != [] && a[0] == b[0] {
      k := LessWitness(a[1..], b[1..]);
      forall i | 0 <= i < k + 1 ensures a[i] == b[i] {
        assert i > 0 ==> a[1..][i - 1] == b[1..][i - 1];
      }
      k := k + 1;
    }
  }

  lemma {:induction false} WitnessLess(a: string, b: string, k: nat)
    requires FirstDifference(a, b, k)
    ensures Less(a, b)
    decreases |a|
  {
    if k > 0 {
      WitnessLess(a[1..], b[1..], k - 1);
    }
  }

  lemma LessIsLexicographic(a: string, b: string)
    ensures Less(a, b) <==> Precedes(a, b)
  {
    if Less(a, b) {
      var k := LessWitness(a, b);
    }
    if k: nat :| FirstDifference(a, b, k) {
      WitnessLess(a, b, k);
    }
  }

  predicate Sorted(ds: seq<Item>) {
    forall i, j | 0 <= i < j < |ds| :: Less(ds[i].name, ds[j].name)
  }

  ghost predicate InNameOrder(ds: seq<Item>) {
    forall i, j | 0 <= i < j < |ds| :: Precedes(ds[i].name, ds[j].name)
  }

  lemma SortedIsInNameOrder(ds: seq<Item>)
    ensures Sorted(ds) <==> InNameOrder(ds)
  {
    forall i, j | 0 <= i < j < |ds| ensures Less(ds[i].name, ds[j].name) <==> Precedes(ds[i].name, ds[j].name) {
      LessIsLexicographic(ds[i].name, ds[j].name);
    }
  }

  predicate DistinctNames(ds: seq<Item>) {
    forall i, j | 0 <= i < j < |ds| :: ds[i].name != ds[j].name
  }

  function Insert(x: Item, ds: seq<Item>): seq<Item>
    decreases |ds|
  {
    if ds == [] || Less(x.name, ds[0].name) then [x] + ds else [ds[0]] + Insert(x, ds[1..])
  }

  /** The list in name order. */
  function SortByName(ds: seq<Item>): seq<Item>
    decreases |ds|
  {
    if ds == [] then [] else Insert(ds[0], SortByName(ds[1..]))
  }

  lemma {:induction false} InsertMultiset(x: Item, ds: seq<Item>)
    ensures multiset(Insert(x, ds)) == multiset{x} + multiset(ds)
    decreases |ds|
  {
    if ds != [] && !Less(x.name, ds[0].name) {
      InsertMultiset(x, ds[1..]);
      assert ds == [ds[0]] + ds[1..];
    }
  }

  lemma {:induction false} InsertSorted(x: Item, ds: seq<Item>)
    requires Sorted(ds) && forall d | d in ds :: d.name != x.name
    ensures Sorted(Insert(x, ds))
    decreases |ds|
  {
    if ds == [] {
    } else if Less(x.name, ds[0].name) {
      forall j | 0 <= j < |ds| ensures Less(x.name, ds[j].name) {
        if j > 0 {
          LessTransitive(x.name, ds[0].name, ds[j].name);
        }
      }
    } else {
      LessTrichotomy(x.name, ds[0].name);
      assert ds[0] in ds;
      InsertSorted(x, ds[1..]);
      InsertMultiset(x, ds[1..]);
      var rest := Insert(x, ds[1..]);
      forall j | 0 <= j < |rest| ensures Less(ds[0].name, rest[j].name) {
        assert rest[j] in multiset(rest);
        if rest[j] != x {
          assert rest[j] in multiset(ds[1..]);
          var k :| 0 <= k < |ds[1..]| && ds[1..][k] == rest[j];
          assert ds[k + 1] == rest[j];
        }
      }
    }
  }

  lemma SortByNameIsLexicographic(ds: seq<Item>)
    requires DistinctNames(ds)
    ensures multiset(SortByName(ds)) == multiset(ds) && InNameOrder(SortByName(ds))
  {
    SortByNameSorts(ds);
    SortedIsInNameOrder(SortByName(ds));
  }

  lemma {:induction false} SortByNameSorts(ds: seq<Item>)
    requires DistinctNames(ds)
    ensures multiset(SortByName(ds)) == multiset(ds) && Sorted(SortByName(ds))
    decreases |ds|
  {
    if ds != [] {
      SortByNameSorts(ds[1..]);
      var rest := SortByName(ds[1..]);
      InsertMultiset(ds[0], rest);
      assert ds == [ds[0]] + ds[1..];
      forall d | d in rest ensures d.name != ds[0].name {
        assert d in multiset(rest);
        assert d in multiset(ds[1..]);
        var k :| 0 <= k < |ds[1..]| && ds[1..][k] == d;
        assert ds[k + 1] == d;
      }
      InsertSorted(ds[0], rest);
    }
  }

  /** A strictly sorted list is determined by its elements. */
  lemma {:induction false} SortedUnique(xs: seq<Item>, ys: seq<Item>)
    requires Sorted(xs) && Sorted(ys) && multiset(xs) == multiset(ys)
    ensures xs == ys
    decreases |xs|
  {
    if xs == [] {
      assert |multiset(ys)| == 0;
    } else {
      assert |xs| == |multiset(xs)| == |multiset(ys)| == |ys|;
      SameFirst(xs, ys);
      assert xs == [xs[0]] + xs[1..] && ys == [ys[0]] + ys[1..];
      assert multiset(xs[1..]) == multiset(xs) - multiset{xs[0]};
      assert multiset(ys[1..]) == multiset(ys) - multiset{ys[0]};
      SortedUnique(xs[1..], ys[1..]);
    }
  }

  lemma SameFirst(xs: seq<Item>, ys: seq<Item>)
    requires Sorted(xs) && Sorted(ys) && multiset(xs) == multiset(ys) && xs != [] && ys != []
    ensures xs[0] == ys[0]
  {
    assert xs[0] in multiset(ys) && ys[0] in multiset(xs);
    var i :| 0 <= i < |ys| && ys[i] == xs[0];
    var j :| 0 <= j < |xs| && xs[j] == ys[0];
    LessTrichotomy(xs[0].name, ys[0].name);
  }

  /** A listing of the present fleet, in any order, is sorted back to it. */
  lemma FreshListing(listed: seq<Item>, fleet: seq<Item>)
    requires Sorted(fleet) && DistinctNames(listed) && multiset(listed) == multiset(fleet)
    ensures SortByName(listed) == fleet
  {
    SortByNameSorts(listed);
    SortedUnique(SortByName(listed), fleet);
  }

  // ---- What a pass decides ----

  datatype Branch = Freeze | Finished | TopUp

  function BranchOf(ds: seq<Item>, ro: RolloutSpec): Branch {
    if Tripped(ds, ro) then Freeze
    else if |ds| > 0 && I32(Count(ds, ro.target, Succeeded)) == I32(|ds|) then Finished
    else TopUp
  }

  predicate Eligible(d: Device, target: string) {
    KindOf(d, target) == Untargeted && !d.spec.paused
  }

  function Capacity(ds: seq<Item>, ro: RolloutSpec): int {
    I32(ro.maxUnavailable - I32(Count(ds, ro.target, InFlight)))
  }

  /** The int32 subtraction is exact. */
  lemma CapacityExact(ds: seq<Item>, ro: RolloutSpec)
    requires |ds| < TWO31 && 1 <= ro.maxUnavailable < TWO31
    ensures Capacity(ds, ro) == ro.maxUnavailable - Count(ds, ro.target, InFlight)
  {
    CountAtMost(ds, ro.target, InFlight);
    I32Exact(Count(ds, ro.target, InFlight));
    I32Exact(ro.maxUnavailable - Count(ds, ro.target, InFlight));
  }

  /** The devices to target, from position `i` on: eligible ones in name order while capacity lasts. */
  function Pushes(ds: seq<Item>, target: string, i: nat, capacity: int): (plan: seq<nat>)
    requires i <= |ds|
    ensures forall k | 0 <= k < |plan| :: i <= plan[k] < |ds| && Eligible(ds[plan[k]].device, target)
    ensures forall k, l | 0 <= k < l < |plan| :: plan[k] < plan[l]
    ensures |plan| <= if capacity > 0 then capacity else 0
    decreases |ds| - i
  {
    if i == |ds| || capacity <= 0 then []
    else if Eligible(ds[i].device, target) then [i] + Pushes(ds, target, i + 1, capacity - 1)
    else Pushes(ds, target, i + 1, capacity)
  }

  /** The devices to freeze. */
  function Freezes(ds: seq<Item>, i: nat): (plan: seq<nat>)
    requires i <= |ds|
    ensures forall k | 0 <= k < |plan| :: i <= plan[k] < |ds| && !ds[plan[k]].device.spec.paused
    ensures forall k, l | 0 <= k < l < |plan| :: plan[k] < plan[l]
    ensures forall j | i <= j < |ds| && !ds[j].device.spec.paused :: j in plan
    decreases |ds| - i
  {
    if i == |ds| then []
    else if ds[i].device.spec.paused then Freezes(ds, i + 1)
    else [i] + Freezes(ds, i + 1)
  }

  function Plan(ds: seq<Item>, ro: RolloutSpec): (plan: seq<nat>)
    ensures forall k | 0 <= k < |plan| :: plan[k] < |ds|
  {
    match BranchOf(ds, ro)
    case Freeze => Freezes(ds, 0)
    case Finished => []
    case TopUp => Pushes(ds, ro.target, 0, Capacity(ds, ro))
  }

  function Edited(spec: Spec, b: Branch, ro: RolloutSpec): Spec {
    match b
    case Freeze => spec.(paused := true)
    case Finished => spec
    case TopUp => spec.(desired := ro.target, url := ro.url, checksum := ro.checksum)
  }

  /** A device after one accepted write of the pass. */
  function Rewritten(i: Item, b: Branch, ro: RolloutSpec): Item {
    i.(rv := i.rv + 1,
       device := i.device.(spec := Edited(i.device.spec, b, ro), generation := i.device.generation + 1))
  }

  // ---- Writing ----

  function IndexOf(fleet: seq<Item>, name: string): (j: nat)
    ensures j <= |fleet| && (j < |fleet| ==> fleet[j].name == name)
    decreases |fleet|
  {
    if fleet == [] || fleet[0].name == name then 0 else IndexOf(fleet[1..], name) + 1
  }

  lemma {:induction false} IndexInSorted(fleet: seq<Item>, x: nat)
    requires Sorted(fleet) && x < |fleet|
    ensures IndexOf(fleet, fleet[x].name) == x
    decreases |fleet|
  {
    LessTrichotomy(fleet[x].name, fleet[x].name);
    if x > 0 {
      IndexInSorted(fleet[1..], x - 1);
    }
  }

  /** Update of a device read as `item`: refused when it is gone or has moved. */
  function Updated(fleet: seq<Item>, item: Item, spec: Spec): Option<seq<Item>> {
    var j := IndexOf(fleet, item.name);
    if j < |fleet| && fleet[j].rv == item.rv then
      var d := fleet[j].device;
      Some(fleet[j := fleet[j].(rv := item.rv + 1, device := d.(spec := spec, generation := d.generation + 1))])
    else None
  }

  datatype Executed = Executed(fleet: seq<Item>, ok: bool)

  /** The writes of a pass, in order, up to the first that is refused. */
  function Execute(fleet: seq<Item>, ds: seq<Item>, plan: seq<nat>, b: Branch, ro: RolloutSpec): Executed
    requires forall k | 0 <= k < |plan| :: plan[k] < |ds|
    decreases |plan|
  {
    if plan == [] then Executed(fleet, true)
    else
      var next := Updated(fleet, ds[plan[0]], Edited(ds[plan[0]].device.spec, b, ro));
      if next.None? then Executed(fleet, false)
      else Execute(next.value, ds, plan[1..], b, ro)
  }

  function BreakerCondition(tripped: bool, gen: int, now: int): Condition {
    if tripped then Condition(BREAKER, CondTrue, "FailureRateExceeded", "rollout halted", gen, now)
    else Condition(BREAKER, CondFalse, "Healthy", "failure rate below threshold", gen, now)
  }

  /** The devices a pass reports as targeted. */
  function Reported(ds: seq<Item>, ro: RolloutSpec): nat {
    Targeted(ds, ro.target) + if BranchOf(ds, ro).TopUp? then |Plan(ds, ro)| else 0
  }

  /** The status of a pass that got through: the counts of the snapshot, plus the devices just targeted. */
  function NewStatus(prev: RolloutStatus, ds: seq<Item>, ro: RolloutSpec, now: int): RolloutStatus {
    var b := BranchOf(ds, ro);
    RolloutStatus(if b.Freeze? then Paused else if b.Finished? then Complete else Progressing,
                  I32(|ds|),
                  I32(Reported(ds, ro)),
                  I32(Count(ds, ro.target, Succeeded)),
                  I32(Count(ds, ro.target, Failed)),
                  Upsert(prev.conditions, BreakerCondition(b.Freeze?, ro.generation, now)),
                  ro.generation)
  }

  /** rolloutStatusEqual */
  predicate RolloutStatusEqual(a: RolloutStatus, b: RolloutStatus) {
    var ca, cb := Find(a.conditions, BREAKER), Find(b.conditions, BREAKER);
    && a.phase == b.phase && a.selected == b.selected && a.targeted == b.targeted
    && a.succeeded == b.succeeded && a.failed == b.failed && a.observedGeneration == b.observedGeneration
    && ca.Some? == cb.Some?
    && (ca.Some? ==> ca.value.status == cb.value.status && ca.value.reason == cb.value.reason)
  }

  /**
   Order and history independence: two listings of the same devices lead to the same writes, and
   to statuses that agree in everything the gate compares, whatever status was stored before.
   */
  lemma OrderAndHistoryIndependent(xs: seq<Item>, ys: seq<Item>, ro: RolloutSpec,
                                   prev: RolloutStatus, prev': RolloutStatus, now: int, now': int)
    requires DistinctNames(xs) && DistinctNames(ys) && multiset(xs) == multiset(ys)
    ensures SortByName(xs) == SortByName(ys)
    ensures Plan(SortByName(xs), ro) == Plan(SortByName(ys), ro)
    ensures RolloutStatusEqual(NewStatus(prev, SortByName(xs), ro, now), NewStatus(prev', SortByName(ys), ro, now'))
  {
    SortByNameSorts(xs);
    SortByNameSorts(ys);
    SortedUnique(SortByName(xs), SortByName(ys));
    var b := BranchOf(SortByName(xs), ro).Freeze?;
    UpsertFinds(prev.conditions, BreakerCondition(b, ro.generation, now), BREAKER);
    UpsertFinds(prev'.conditions, BreakerCondition(b, ro.generation, now'), BREAKER);
  }
}
