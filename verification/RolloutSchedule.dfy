/** The batches of a rollout in which every device that is targeted succeeds before the next pass. */
module RolloutSchedules {
  import opened Devices
  import opened Rollouts
  import opened RolloutControllers
  import opened RolloutFixpoints

  /** A device the rollout has not touched: untargeted, not paused and not counted as failed. */
  predicate Idle(d: Device, target: string) {
    KindOf(d, target) == Untargeted && !d.spec.paused && !DeviceFailed(d)
  }

  /** The first `c` devices in name order are done, the others untouched. */
  predicate Batched(fleet: seq<Item>, c: nat, target: string) {
    && c <= |fleet| && Sorted(fleet)
    && (forall x | 0 <= x < c :: KindOf(fleet[x].device, target) == Succeeded)
    && forall x | c <= x < |fleet| :: Idle(fleet[x].device, target)
  }

  /** Between two passes every device in flight comes to run the target and the others stay as they are. */
  predicate AllLand(f: seq<Item>, g: seq<Item>, target: string) {
    && |g| == |f|
    && forall x | 0 <= x < |f| ::
         && g[x].name == f[x].name
         && (if KindOf(f[x].device, target) == InFlight then g[x].device.status.current == target else g[x] == f[x])
  }

  /** The positions from `a` up to `b`. */
  function Range(a: nat, b: nat): seq<nat>
    requires a <= b
  {
    seq(b - a, k requires 0 <= k < b - a => a + k)
  }

  lemma RangeMembers(a: nat, b: nat, x: nat)
    requires a <= b
    ensures x in Range(a, b) <==> a <= x < b
  {
    if a <= x < b {
      assert Range(a, b)[x - a] == x;
    }
  }

  function Min(a: nat, b: nat): nat {
    if a <= b then a else b
  }

  lemma {:induction false} BatchedCounts(fleet: seq<Item>, c: nat, target: string)
    requires c <= |fleet|
    requires forall x | 0 <= x < c :: KindOf(fleet[x].device, target) == Succeeded
    requires forall x | c <= x < |fleet| :: KindOf(fleet[x].device, target) == Untargeted
    ensures Count(fleet, target, Succeeded) == c && Count(fleet, target, InFlight) == 0 && Count(fleet, target, Failed) == 0
    decreases |fleet|
  {
    if fleet != [] {
      var n := |fleet| - 1;
      BatchedCounts(fleet[..n], if c <= n then c else n, target);
    }
  }

  lemma {:induction false} PushesFrom(ds: seq<Item>, target: string, i: nat, c: nat, capacity: nat)
    requires i <= c <= |ds|
    requires forall x | i <= x < c :: !Eligible(ds[x].device, target)
    requires forall x | c <= x < |ds| :: Eligible(ds[x].device, target)
    ensures Pushes(ds, target, i, capacity) == Range(c, Min(c + capacity, |ds|))
    decreases |ds| - i
  {
    if i < |ds| && capacity > 0 {
      if i < c {
        PushesFrom(ds, target, i + 1, c, capacity);
      } else {
        PushesFrom(ds, target, i + 1, c + 1, capacity - 1);
        assert [i] + Range(c + 1, Min(c + capacity, |ds|)) == Range(c, Min(c + capacity, |ds|));
      }
    }
  }

  /** What a pass decides on a batched fleet. */
  lemma BatchPlan(fleet: seq<Item>, c: nat, ro: RolloutSpec)
    requires Batched(fleet, c, ro.target) && 0 < |fleet| <= MAX_FLEET
    requires 1 <= ro.threshold <= 100 && 1 <= ro.maxUnavailable < TWO31
    ensures BranchOf(fleet, ro) == if c == |fleet| then Finished else TopUp
    ensures Plan(fleet, ro) == Range(c, Min(c + ro.maxUnavailable, |fleet|))
  {
    BatchedCounts(fleet, c, ro.target);
    TripsExactly(fleet, ro);
    I32Exact(c);
    I32Exact(|fleet|);
    if c > 0 {
      assert ro.threshold * c >= 1;
    }
    if c < |fleet| {
      CapacityExact(fleet, ro);
      PushesFrom(fleet, ro.target, 0, c, ro.maxUnavailable);
    } else {
      assert Range(c, c) == [];
    }
  }

  lemma LandedBatch(fleet: seq<Item>, g: seq<Item>, next: seq<Item>, c: nat, d: nat, ro: RolloutSpec)
    requires Batched(fleet, c, ro.target) && c <= d <= |fleet| && |g| == |fleet| && AllLand(g, next, ro.target)
    requires forall x | 0 <= x < |fleet| :: g[x] == if c <= x < d then Rewritten(fleet[x], TopUp, ro) else fleet[x]
    ensures Batched(next, d, ro.target)
  {
    forall x | c <= x < d ensures KindOf(next[x].device, ro.target) == Succeeded {
      assert KindOf(g[x].device, ro.target) == InFlight;
    }
  }

  /** One pass and the flights it starts move the front of the rollout by one batch. */
  lemma BatchLands(fleet: seq<Item>, next: seq<Item>, c: nat, ro: RolloutSpec)
    requires Batched(fleet, c, ro.target) && 0 < |fleet| <= MAX_FLEET
    requires 1 <= ro.threshold <= 100 && 1 <= ro.maxUnavailable < TWO31
    requires AllLand(Execute(fleet, fleet, Plan(fleet, ro), BranchOf(fleet, ro), ro).fleet, next, ro.target)
    ensures Batched(next, Min(c + ro.maxUnavailable, |fleet|), ro.target)
  {
    BatchPlan(fleet, c, ro);
    var plan := Plan(fleet, ro);
    var d := Min(c + ro.maxUnavailable, |fleet|);
    FreshExecute(fleet, fleet, plan, BranchOf(fleet, ro), ro);
    var g := Execute(fleet, fleet, plan, BranchOf(fleet, ro), ro).fleet;
    forall x | 0 <= x < |fleet| ensures g[x] == if c <= x < d then Rewritten(fleet[x], TopUp, ro) else fleet[x] {
      RangeMembers(c, d, x);
    }
    LandedBatch(fleet, g, next, c, d, ro);
  }

  /** The fleets successive passes find. */
  predicate IsRollout(fs: seq<seq<Item>>, ro: RolloutSpec) {
    forall j | 0 <= j < |fs| - 1 ::
      AllLand(Execute(fs[j], fs[j], Plan(fs[j], ro), BranchOf(fs[j], ro), ro).fleet, fs[j + 1], ro.target)
  }

  lemma {:induction false} RolloutBatched(fs: seq<seq<Item>>, ro: RolloutSpec, j: nat)
    requires IsRollout(fs, ro) && j < |fs| && Batched(fs[0], 0, ro.target) && 0 < |fs[0]| <= MAX_FLEET
    requires 1 <= ro.threshold <= 100 && 1 <= ro.maxUnavailable < TWO31
    ensures |fs[j]| == |fs[0]| && j * ro.maxUnavailable >= 0
    ensures Batched(fs[j], Min(j * ro.maxUnavailable, |fs[0]|), ro.target)
    decreases j
  {
    if j > 0 {
      RolloutBatched(fs, ro, j - 1);
      var c := Min((j - 1) * ro.maxUnavailable, |fs[0]|);
      var f := fs[j - 1];
      BatchLands(f, fs[j], c, ro);
      BatchPlan(f, c, ro);
      FreshExecute(f, f, Plan(f, ro), BranchOf(f, ro), ro);
      assert j * ro.maxUnavailable == (j - 1) * ro.maxUnavailable + ro.maxUnavailable;
    }
  }

  /** The batches are taken in the order of names. */
  lemma BatchesInNameOrder(fs: seq<seq<Item>>, ro: RolloutSpec, j: nat)
    requires IsRollout(fs, ro) && j < |fs| && Batched(fs[0], 0, ro.target) && 0 < |fs[0]| <= MAX_FLEET
    requires 1 <= ro.threshold <= 100 && 1 <= ro.maxUnavailable < TWO31
    ensures InNameOrder(fs[j])
  {
    RolloutBatched(fs, ro, j);
    SortedIsInNameOrder(fs[j]);
  }

  /** The number of batches, rounded up. */
  function Batches(n: nat, size: int): nat
    requires size >= 1
  {
    (n + size - 1) / size
  }

  lemma DoneAfterBatches(j: nat, n: nat, size: int)
    requires size >= 1
    ensures j * size >= n <==> j >= Batches(n, size)
  {
    var q := Batches(n, size);
    if j >= q {
      assert j * size >= q * size;
    } else {
      assert j * size <= (q - 1) * size;
    }
  }

  /**
   The schedule: from n untouched devices, pass j + 1 targets exactly the next
   min(maxUnavailable, remaining) devices in name order, and the passes that report Complete are
   those from number ceil(n / maxUnavailable) + 1 on.
   */
  lemma BatchSchedule(fs: seq<seq<Item>>, ro: RolloutSpec, j: nat, prev: RolloutStatus, now: int)
    requires IsRollout(fs, ro) && j < |fs| && Batched(fs[0], 0, ro.target) && 0 < |fs[0]| <= MAX_FLEET
    requires 1 <= ro.threshold <= 100 && 1 <= ro.maxUnavailable < TWO31
    ensures j * ro.maxUnavailable >= 0 && (j + 1) * ro.maxUnavailable >= j * ro.maxUnavailable
    ensures Plan(fs[j], ro) == Range(Min(j * ro.maxUnavailable, |fs[0]|), Min((j + 1) * ro.maxUnavailable, |fs[0]|))
    ensures StatusAfter(prev, fs[j], ro, now, true).phase == Complete <==> j >= Batches(|fs[0]|, ro.maxUnavailable)
    ensures StatusAfter(prev, fs[j], ro, now, true).phase == Progressing <==> j < Batches(|fs[0]|, ro.maxUnavailable)
  {
    RolloutBatched(fs, ro, j);
    var c := Min(j * ro.maxUnavailable, |fs[0]|);
    BatchPlan(fs[j], c, ro);
    DoneAfterBatches(j, |fs[0]|, ro.maxUnavailable);
    assert (j + 1) * ro.maxUnavailable == j * ro.maxUnavailable + ro.maxUnavailable;
  }
}
