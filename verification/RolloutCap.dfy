/** The cap on devices in flight, kept although passes work from stale snapshots. */
module RolloutCaps {
  import opened Wrappers
  import opened Devices
  import opened Rollouts
  import opened RolloutHistories
  import opened RolloutSamples

  predicate Settled(d: Device, target: string) {
    KindOf(d, target) in {Succeeded, Failed}
  }

  /** Others leave desired versions alone, only pause, and do not take back a success. */
  predicate Benign(d: Device, d': Device, target: string) {
    && d'.spec.desired == d.spec.desired
    && (d.spec.paused ==> d'.spec.paused)
    && Lands(d, d', target)
  }

  /** A device that has succeeded does not go back in flight, nor out of the rollout. */
  predicate Lands(d: Device, d': Device, target: string) {
    KindOf(d, target) == Succeeded ==> Settled(d', target)
  }

  predicate BenignEvent(s: Sys, e: Event, target: string)
    requires s.hist != []
  {
    e.Change? && e.dev < |Last(s.hist)| ==> Benign(Last(s.hist)[e.dev].device, e.device, target)
  }

  predicate BenignRun(ss: seq<Sys>, es: seq<Event>, ro: RolloutSpec) {
    IsRun(ss, es, ro) && forall i | 0 <= i < |es| :: BenignEvent(ss[i], es[i], ro.target)
  }

  /** Step `a` of the history targets device `x`. */
  predicate PushAt(hist: seq<seq<Item>>, a: nat, x: nat, target: string)
    requires HistOk(hist) && a + 1 < |hist| && x < |hist[0]|
  {
    hist[a][x].device.spec.desired != target && hist[a + 1][x].device.spec.desired == target
  }

  /** A device no longer eligible, or targeted, stays so. */
  predicate Monotone(d: Device, d': Device, target: string) {
    && (!Eligible(d, target) ==> !Eligible(d', target))
    && (d.spec.desired == target ==> d'.spec.desired == target)
  }

  /** From `f` to `g`, device `x` was written, and it was the first eligible one. */
  predicate InOrder(f: seq<Item>, g: seq<Item>, x: nat, target: string)
    requires x < |f| && |f| == |g|
  {
    Eligible(f[x].device, target) && g[x].rv > f[x].rv && forall y | 0 <= y < x :: !Eligible(f[y].device, target)
  }

  /** Every push so far hit the first eligible device of its moment, and successes have lasted. */
  predicate CapHist(hist: seq<seq<Item>>, target: string)
    requires HistOk(hist)
  {
    && (forall a, b, x {:trigger Monotone(hist[a][x].device, hist[b][x].device, target)}
          | 0 <= a <= b < |hist| && 0 <= x < |hist[0]| :: Monotone(hist[a][x].device, hist[b][x].device, target))
    && (forall a, b, x {:trigger Lands(hist[a][x].device, hist[b][x].device, target)}
          | 0 <= a < |hist| && a + 1 == b < |hist| && 0 <= x < |hist[0]| ::
          Lands(hist[a][x].device, hist[b][x].device, target))
    && (forall a, x {:trigger PushAt(hist, a, x, target)}
          | 0 <= a < |hist| - 1 && 0 <= x < |hist[0]| && PushAt(hist, a, x, target) ::
          InOrder(hist[a], hist[a + 1], x, target))
  }

  function Flying(fleet: seq<Item>, ro: RolloutSpec): nat {
    Count(fleet, ro.target, InFlight)
  }

  /** The devices that are failed in `f` and in flight in `g`. */
  function Returned(f: seq<Item>, g: seq<Item>, target: string): nat
    decreases |f|
  {
    if f == [] || |g| != |f| then 0
    else
      var n := |f| - 1;
      Returned(f[..n], g[..n], target)
      + if KindOf(f[n].device, target) == Failed && KindOf(g[n].device, target) == InFlight then 1 else 0
  }

  /** How often a failed device has gone back in flight since version `k`. */
  function Recoveries(hist: seq<seq<Item>>, target: string, k: nat): nat
    decreases |hist|
  {
    if |hist| <= k + 1 || |hist| < 2 then 0
    else
      var n := |hist| - 1;
      Recoveries(hist[..n], target, k) + Returned(hist[n - 1], hist[n], target)
  }

  /**
   The plan is what is left from position `c` on, with `left` capacity; all before `c` is ineligible by
   now; and `r` recoveries have happened since the snapshot.
   */
  predicate TopUpOk(s: Sys, ro: RolloutSpec, c: nat, left: int, r: nat)
    requires HistOk(s.hist) && s.pass.Some? && s.pass.value.snap < |s.hist|
  {
    var snap := s.hist[s.pass.value.snap];
    && c <= |snap| && |snap| == |s.hist[0]|
    && s.pass.value.plan == Pushes(snap, ro.target, c, left)
    && |Last(s.hist)| == |snap|
    && (forall y | 0 <= y < c :: !Eligible(Last(s.hist)[y].device, ro.target))
    && ((c == 0 && left == Capacity(snap, ro))  || Flying(Last(s.hist), ro) <= ro.maxUnavailable - left + r)
  }

  /** The recoveries since the snapshot of the pass. */
  function Since(s: Sys, ro: RolloutSpec): nat
    requires s.pass.Some?
  {
    Recoveries(s.hist, ro.target, s.pass.value.snap)
  }

  ghost predicate CapInv(s: Sys, ro: RolloutSpec) {
    && Inv(s, ro) && CapHist(s.hist, ro.target)
    && 1 <= ro.maxUnavailable < TWO31 && |s.hist[0]| < TWO31
    && Flying(Last(s.hist), ro) <= ro.maxUnavailable + Recoveries(s.hist, ro.target, 0)
    && (s.pass.Some? && s.pass.value.branch.TopUp? ==> exists c, left :: TopUpOk(s, ro, c, left, Since(s, ro)))
  }

  // ---- Counting ----

  /** The first device of a plan is the first eligible one, and the rest of the plan goes on behind it. */
  lemma {:induction false} FirstPush(ds: seq<Item>, target: string, c: nat, left: int)
    requires c <= |ds| && Pushes(ds, target, c, left) != []
    ensures var plan := Pushes(ds, target, c, left);
            && left > 0 && c <= plan[0] < |ds|
            && (forall y | c <= y < plan[0] :: !Eligible(ds[y].device, target))
            && plan[1..] == Pushes(ds, target, plan[0] + 1, left - 1)
    decreases |ds| - c
  {
    if !Eligible(ds[c].device, target) {
      FirstPush(ds, target, c + 1, left);
    }
  }

  lemma RecoveriesAppend(hist: seq<seq<Item>>, f: seq<Item>, target: string, k: nat)
    requires k < |hist|
    ensures Recoveries(hist + [f], target, k) == Recoveries(hist, target, k) + Returned(Last(hist), f, target)
  {
    assert (hist + [f])[..|hist|] == hist;
  }

  lemma {:induction false} RecoveriesSince(hist: seq<seq<Item>>, target: string, k: nat)
    ensures Recoveries(hist, target, k) <= Recoveries(hist, target, 0)
    decreases |hist|
  {
    if |hist| > k + 1 && |hist| >= 2 {
      RecoveriesSince(hist[..|hist| - 1], target, k);
    }
  }

  lemma {:induction false} ReturnedSelf(f: seq<Item>, target: string)
    ensures Returned(f, f, target) == 0
    decreases |f|
  {
    if f != [] {
      ReturnedSelf(f[..|f| - 1], target);
    }
  }

  lemma {:induction false} ReturnedUpdated(f: seq<Item>, x: nat, i: Item, target: string)
    requires x < |f|
    ensures Returned(f, f[x := i], target) ==
            if KindOf(f[x].device, target) == Failed && KindOf(i.device, target) == InFlight then 1 else 0
    decreases |f|
  {
    var n := |f| - 1;
    if x == n {
      assert f[x := i][..n] == f[..n];
      ReturnedSelf(f[..n], target);
    } else {
      assert f[x := i][..n] == f[..n][x := i];
      ReturnedUpdated(f[..n], x, i, target);
    }
  }

  /** Devices in flight were so before, or have come back. */
  lemma {:induction false} FlyingOrReturned(f: seq<Item>, g: seq<Item>, target: string)
    requires |f| == |g|
    requires forall x | 0 <= x < |g| && KindOf(g[x].device, target) == InFlight :: KindOf(f[x].device, target) in {InFlight, Failed}
    ensures Count(g, target, InFlight) <= Count(f, target, InFlight) + Returned(f, g, target)
    decreases |f|
  {
    if f != [] {
      FlyingOrReturned(f[..|f| - 1], g[..|g| - 1], target);
    }
  }

  // ---- A stale snapshot ----

  /**
   If the snapshot misses a push, then the first device the pass wants to target has moved since:
   the push hit that device, or that device was no longer eligible when it happened.
   */
  lemma MissedPushMovesFirst(hist: seq<seq<Item>>, k: nat, a: nat, x: nat, first: nat, target: string)
    requires HistOk(hist) && CapHist(hist, target) && k <= a < |hist| - 1 && x < |hist[0]| && first < |hist[0]|
    requires PushAt(hist, a, x, target)
    requires Eligible(hist[k][first].device, target)
    requires forall y | 0 <= y < first :: !Eligible(hist[k][y].device, target)
    ensures Last(hist)[first].rv > hist[k][first].rv
  {
    var n := |hist| - 1;
    assert Monotone(hist[k][x].device, hist[a][x].device, target);
    assert first <= x;
    assert Monotone(hist[k][first].device, hist[a][first].device, target);
    assert Ages(hist[k][first], hist[a][first]) && Ages(hist[a][first], hist[a + 1][first])
           && Ages(hist[a + 1][first], hist[n][first]);
    if first < x {
      assert !Eligible(hist[a][first].device, target);
    }
  }

  /** A snapshot that misses an earlier push: the first write conflicts and the pass writes nothing. */
  lemma StaleSnapshotWritesNothing(s: Sys, ro: RolloutSpec, a: nat, x: nat)
    requires CapInv(s, ro) && s.pass.Some? && s.pass.value.branch.TopUp? && s.pass.value.plan != []
    requires s.pass.value.plan == Plan(s.hist[s.pass.value.snap], ro)
    requires s.pass.value.snap <= a < |s.hist| - 1 && x < |s.hist[0]| && PushAt(s.hist, a, x, ro.target)
    ensures Attempt(s, ro) == None
    ensures Step(s, Write, ro) == Sys(s.hist, None)
  {
    var p := s.pass.value;
    var snap := s.hist[p.snap];
    FirstPush(snap, ro.target, 0, Capacity(snap, ro));
    MissedPushMovesFirst(s.hist, p.snap, a, x, p.plan[0], ro.target);
    AttemptExactly(s, ro);
  }

  predicate NoPushes(hist: seq<seq<Item>>, k: nat, b: nat, target: string)
    requires HistOk(hist) && b < |hist|
  {
    forall a, x {:trigger PushAt(hist, a, x, target)} | k <= a < b && 0 <= x < |hist[0]| :: !PushAt(hist, a, x, target)
  }

  /** A step without a push sends no device up except one that had failed. */
  lemma StepWithoutPush(hist: seq<seq<Item>>, b: nat, target: string)
    requires HistOk(hist) && CapHist(hist, target) && 0 < b < |hist| && NoPushes(hist, b - 1, b, target)
    ensures Count(hist[b], target, InFlight) <=
            Count(hist[b - 1], target, InFlight) + Returned(hist[b - 1], hist[b], target)
  {
    assert SameNames(hist[b - 1], hist[0]) && SameNames(hist[b], hist[0]);
    forall x | 0 <= x < |hist[0]| && KindOf(hist[b][x].device, target) == InFlight
      ensures KindOf(hist[b - 1][x].device, target) in {InFlight, Failed}
    {
      assert !PushAt(hist, b - 1, x, target);
      assert Lands(hist[b - 1][x].device, hist[b][x].device, target);
    }
    FlyingOrReturned(hist[b - 1], hist[b], target);
  }

  lemma {:induction false} CountWithoutPushes(hist: seq<seq<Item>>, k: nat, b: nat, target: string)
    requires HistOk(hist) && CapHist(hist, target) && k <= b < |hist| && NoPushes(hist, k, b, target)
    ensures Count(hist[b], target, InFlight) <= Count(hist[k], target, InFlight) + UpTo(hist, b, target, k)
    decreases b
  {
    if k < b {
      FewerPushes(hist, k, b, target);
      CountWithoutPushes(hist, k, b - 1, target);
      StepWithoutPush(hist, b, target);
      RecoveriesUpTo(hist, target, k, b);
    }
  }

  /** The recoveries between versions `k` and `b`. */
  function UpTo(hist: seq<seq<Item>>, b: nat, target: string, k: nat): nat
    requires b < |hist|
  {
    Recoveries(hist[..b + 1], target, k)
  }

  lemma FewerPushes(hist: seq<seq<Item>>, k: nat, b: nat, target: string)
    requires HistOk(hist) && k < b < |hist| && NoPushes(hist, k, b, target)
    ensures NoPushes(hist, k, b - 1, target) && NoPushes(hist, b - 1, b, target)
  {
  }

  lemma RecoveriesUpTo(hist: seq<seq<Item>>, target: string, k: nat, b: nat)
    requires k < b < |hist|
    ensures UpTo(hist, b, target, k) == UpTo(hist, b - 1, target, k) + Returned(hist[b - 1], hist[b], target)
  {
    assert hist[..b + 1][..b] == hist[..b];
  }

  /** If the first write of a pass goes through, its snapshot had seen every push, so only recoveries can have raised its count. */
  lemma FirstWriteSawAll(s: Sys, ro: RolloutSpec)
    requires CapInv(s, ro) && s.pass.Some? && s.pass.value.branch.TopUp? && s.pass.value.plan != []
    requires s.pass.value.plan == Plan(s.hist[s.pass.value.snap], ro) && Attempt(s, ro).Some?
    ensures Flying(Last(s.hist), ro) <=
            Flying(s.hist[s.pass.value.snap], ro) + Recoveries(s.hist, ro.target, s.pass.value.snap)
  {
    var k := s.pass.value.snap;
    forall a, x | k <= a < |s.hist| - 1 && 0 <= x < |s.hist[0]| ensures !PushAt(s.hist, a, x, ro.target) {
      if PushAt(s.hist, a, x, ro.target) {
        StaleSnapshotWritesNothing(s, ro, a, x);
      }
    }
    CountWithoutPushes(s.hist, k, |s.hist| - 1, ro.target);
    assert s.hist[..|s.hist|] == s.hist;
  }

  // ---- Steps ----

  /** Appending a version that changes one device monotonically, and pushes only the first eligible one. */
  lemma AppendKeepsCapHist(hist: seq<seq<Item>>, x: nat, d: Device, target: string)
    requires HistOk(hist) && CapHist(hist, target) && x < |hist[0]| && x < |Last(hist)|
    requires HistOk(hist + [Changed(Last(hist), x, d)])
    requires Monotone(Last(hist)[x].device, d, target) && Lands(Last(hist)[x].device, d, target)
    requires Last(hist)[x].device.spec.desired != target && d.spec.desired == target ==>
               && Eligible(Last(hist)[x].device, target)
               && forall y | 0 <= y < x :: !Eligible(Last(hist)[y].device, target)
    ensures CapHist(hist + [Changed(Last(hist), x, d)], target)
  {
    var f := Changed(Last(hist), x, d);
    var more: seq<seq<Item>> := hist + [f];
    var n := |hist| - 1;
    forall a, b, y | 0 <= a <= b < |more| && 0 <= y < |more[0]|
      ensures Monotone(more[a][y].device, more[b][y].device, target)
    {
      if b == |hist| && a < b {
        assert Monotone(hist[a][y].device, hist[n][y].device, target);
        assert Monotone(more[n][y].device, f[y].device, target);
      }
    }
    forall a, b, y | 0 <= a < |more| && a + 1 == b < |more| && 0 <= y < |more[0]|
      ensures Lands(more[a][y].device, more[b][y].device, target)
    {
      if b < |hist| {
        assert Lands(hist[a][y].device, hist[b][y].device, target);
      }
    }
    forall a, y | 0 <= a < |more| - 1 && 0 <= y < |more[0]| && PushAt(more, a, y, target)
      ensures InOrder(more[a], more[a + 1], y, target)
    {
      if a < n {
        assert PushAt(hist, a, y, target);
        assert more[a] == hist[a] && more[a + 1] == hist[a + 1];
      } else {
        assert more[a] == Last(hist) && more[a + 1] == f && y == x;
      }
    }
  }

  /** A pass stays on course when others change a device. */
  lemma ChangeKeepsTopUp(s: Sys, f: seq<Item>, ro: RolloutSpec, c: nat, left: int, r: nat, r': nat)
    requires HistOk(s.hist) && HistOk(s.hist + [f]) && s.pass.Some? && s.pass.value.snap < |s.hist|
    requires TopUpOk(s, ro, c, left, r)
    requires |f| == |s.hist[0]| && Flying(f, ro) <= Flying(Last(s.hist), ro) + r' - r
    requires forall y | 0 <= y < |f| && !Eligible(Last(s.hist)[y].device, ro.target) :: !Eligible(f[y].device, ro.target)
    ensures TopUpOk(s.(hist := s.hist + [f]), ro, c, left, r')
  {
    assert (s.hist + [f])[s.pass.value.snap] == s.hist[s.pass.value.snap];
  }

  lemma ChangeKeepsFlying(f: seq<Item>, x: nat, d: Device, ro: RolloutSpec)
    requires x < |f| && Benign(f[x].device, d, ro.target)
    ensures Flying(Changed(f, x, d), ro) <= Flying(f, ro) + Returned(f, Changed(f, x, d), ro.target)
    ensures Monotone(f[x].device, d, ro.target)
  {
    CountUpdated(f, x, Changed(f, x, d)[x], ro.target, InFlight);
    ReturnedUpdated(f, x, Changed(f, x, d)[x], ro.target);
  }

  lemma ChangeKeepsFleet(hist: seq<seq<Item>>, x: nat, d: Device, ro: RolloutSpec)
    requires HistOk(hist) && CapHist(hist, ro.target) && x < |Last(hist)| && Benign(Last(hist)[x].device, d, ro.target)
    requires Flying(Last(hist), ro) <= ro.maxUnavailable + Recoveries(hist, ro.target, 0)
    ensures var f := Changed(Last(hist), x, d);
            && HistOk(hist + [f]) && CapHist(hist + [f], ro.target)
            && Flying(f, ro) <= ro.maxUnavailable + Recoveries(hist + [f], ro.target, 0)
  {
    assert SameNames(Last(hist), hist[0]);
    AppendKeepsHist(hist, x, d);
    ChangeKeepsFlying(Last(hist), x, d, ro);
    AppendKeepsCapHist(hist, x, d, ro.target);
    RecoveriesAppend(hist, Changed(Last(hist), x, d), ro.target, 0);
  }

  lemma ChangeKeepsPass(s: Sys, x: nat, d: Device, ro: RolloutSpec, c: nat, left: int)
    requires HistOk(s.hist) && s.pass.Some? && s.pass.value.snap < |s.hist| && TopUpOk(s, ro, c, left, Since(s, ro))
    requires x < |Last(s.hist)| && Benign(Last(s.hist)[x].device, d, ro.target)
    requires HistOk(s.hist + [Changed(Last(s.hist), x, d)])
    ensures var s' := s.(hist := s.hist + [Changed(Last(s.hist), x, d)]); TopUpOk(s', ro, c, left, Since(s', ro))
  {
    var f := Changed(Last(s.hist), x, d);
    assert SameNames(Last(s.hist), s.hist[0]);
    ChangeKeepsFlying(Last(s.hist), x, d, ro);
    RecoveriesAppend(s.hist, f, ro.target, s.pass.value.snap);
    ChangeKeepsTopUp(s, f, ro, c, left, Since(s, ro), Since(s.(hist := s.hist + [f]), ro));
  }

  lemma ChangeKeepsCap(s: Sys, x: nat, d: Device, ro: RolloutSpec)
    requires CapInv(s, ro) && x < |Last(s.hist)| && Benign(Last(s.hist)[x].device, d, ro.target)
    ensures CapInv(Step(s, Change(x, d), ro), ro)
  {
    StepKeepsInv(s, Change(x, d), ro);
    ChangeKeepsFleet(s.hist, x, d, ro);
    if s.pass.Some? && s.pass.value.branch.TopUp? {
      var c, left :| TopUpOk(s, ro, c, left, Since(s, ro));
      ChangeKeepsPass(s, x, d, ro, c, left);
    }
  }

  /** Everything before the next device of the plan is ineligible by now. */
  lemma NextIsFirst(hist: seq<seq<Item>>, k: nat, target: string, c: nat, left: int)
    requires HistOk(hist) && CapHist(hist, target) && k < |hist| && c <= |hist[k]|
    requires |hist[k]| == |hist[0]| == |Last(hist)|
    requires Pushes(hist[k], target, c, left) != []
    requires forall y | 0 <= y < c :: !Eligible(Last(hist)[y].device, target)
    ensures forall y | 0 <= y < Pushes(hist[k], target, c, left)[0] :: !Eligible(Last(hist)[y].device, target)
  {
    FirstPush(hist[k], target, c, left);
    forall y | c <= y < Pushes(hist[k], target, c, left)[0] ensures !Eligible(Last(hist)[y].device, target) {
      assert Monotone(hist[k][y].device, hist[|hist| - 1][y].device, target);
    }
  }

  /** A push advances the pass. */
  lemma PushKeepsTopUp(s: Sys, f: seq<Item>, ro: RolloutSpec, c: nat, left: int, r: nat, r': nat)
    requires HistOk(s.hist) && HistOk(s.hist + [f]) && s.pass.Some? && s.pass.value.snap < |s.hist|
    requires s.pass.value.plan != [] && TopUpOk(s, ro, c, left, r) && r <= r'
    requires |f| == |s.hist[0]| && Flying(f, ro) <= ro.maxUnavailable - (left - 1) + r
    requires forall y | 0 <= y <= s.pass.value.plan[0] && y < |f| :: !Eligible(f[y].device, ro.target)
    ensures TopUpOk(Pushed(s, f), ro, s.pass.value.plan[0] + 1, left - 1, r')
  {
    FirstPush(s.hist[s.pass.value.snap], ro.target, c, left);
    assert (s.hist + [f])[s.pass.value.snap] == s.hist[s.pass.value.snap];
  }

  function Pushed(s: Sys, f: seq<Item>): Sys
    requires s.pass.Some? && s.pass.value.plan != []
  {
    Sys(s.hist + [f], Some(s.pass.value.(plan := s.pass.value.plan[1..])))
  }

  /** What a push that goes through does to the fleet. */
  lemma PushEffect(s: Sys, ro: RolloutSpec)
    requires Inv(s, ro) && s.pass.Some? && s.pass.value.branch.TopUp? && s.pass.value.plan != []
    requires Attempt(s, ro).Some?
    ensures var f, g, x := Last(s.hist), Attempt(s, ro).value, s.pass.value.plan[0];
            && x < |f| && x < |s.hist[0]| && |f| == |s.hist[0]|
            && |g| == |f| && g == Changed(f, x, g[x].device) && Eligible(f[x].device, ro.target)
            && Monotone(f[x].device, g[x].device, ro.target) && !Eligible(g[x].device, ro.target)
            && Lands(f[x].device, g[x].device, ro.target)
            && (forall y | 0 <= y < |f| && y != x :: g[y] == f[y])
            && Flying(g, ro) <= Flying(f, ro) + 1
  {
    AttemptExactly(s, ro);
    assert SameNames(Last(s.hist), s.hist[0]);
    var f, g, x := Last(s.hist), Attempt(s, ro).value, s.pass.value.plan[0];
    CountUpdated(f, x, g[x], ro.target, InFlight);
  }

  /** The history with a push appended is in order. */
  lemma PushKeepsCapHist(s: Sys, ro: RolloutSpec, c: nat, left: int)
    requires CapInv(s, ro) && s.pass.Some? && s.pass.value.branch.TopUp? && s.pass.value.plan != []
    requires Attempt(s, ro).Some? && TopUpOk(s, ro, c, left, Since(s, ro))
    ensures HistOk(s.hist + [Attempt(s, ro).value]) && CapHist(s.hist + [Attempt(s, ro).value], ro.target)
  {
    WriteKeepsInv(s, ro);
    NextIsFirst(s.hist, s.pass.value.snap, ro.target, c, left);
    PushEffect(s, ro);
    AppendKeepsCapHist(s.hist, s.pass.value.plan[0], Attempt(s, ro).value[s.pass.value.plan[0]].device, ro.target);
  }

  lemma PushAdvances(s: Sys, ro: RolloutSpec, c: nat, left: int)
    requires CapInv(s, ro) && s.pass.Some? && s.pass.value.branch.TopUp? && s.pass.value.plan != []
    requires Attempt(s, ro).Some? && TopUpOk(s, ro, c, left, Since(s, ro))
    requires HistOk(s.hist + [Attempt(s, ro).value])
    ensures Flying(Attempt(s, ro).value, ro) <=
            ro.maxUnavailable + Recoveries(s.hist + [Attempt(s, ro).value], ro.target, 0)
    ensures TopUpOk(Pushed(s, Attempt(s, ro).value), ro, s.pass.value.plan[0] + 1, left - 1,
                    Since(Pushed(s, Attempt(s, ro).value), ro))
  {
    FirstPush(s.hist[s.pass.value.snap], ro.target, c, left);
    NextIsFirst(s.hist, s.pass.value.snap, ro.target, c, left);
    PushEffect(s, ro);
    PushBound(s, ro, c, left);
    RecoveriesSince(s.hist, ro.target, s.pass.value.snap);
    RecoveriesAppend(s.hist, Attempt(s, ro).value, ro.target, 0);
    RecoveriesAppend(s.hist, Attempt(s, ro).value, ro.target, s.pass.value.snap);
    PushKeepsTopUp(s, Attempt(s, ro).value, ro, c, left, Since(s, ro), Since(Pushed(s, Attempt(s, ro).value), ro));
  }

  lemma PushFrom(s: Sys, ro: RolloutSpec, c: nat, left: int)
    requires CapInv(s, ro) && s.pass.Some? && s.pass.value.branch.TopUp? && s.pass.value.plan != []
    requires Attempt(s, ro).Some? && TopUpOk(s, ro, c, left, Since(s, ro))
    ensures CapInv(Step(s, Write, ro), ro)
  {
    StepKeepsInv(s, Write, ro);
    assert Step(s, Write, ro) == Pushed(s, Attempt(s, ro).value);
    PushKeepsCapHist(s, ro, c, left);
    PushAdvances(s, ro, c, left);
  }

  lemma PushKeepsCap(s: Sys, ro: RolloutSpec)
    requires CapInv(s, ro) && s.pass.Some? && s.pass.value.branch.TopUp? && s.pass.value.plan != []
    requires Attempt(s, ro).Some?
    ensures CapInv(Step(s, Write, ro), ro)
  {
    var c, left :| TopUpOk(s, ro, c, left, Since(s, ro));
    PushFrom(s, ro, c, left);
  }

  /** Before each push, what flies and the capacity left stay within the cap together, but for recoveries. */
  lemma PushBound(s: Sys, ro: RolloutSpec, c: nat, left: int)
    requires CapInv(s, ro) && s.pass.Some? && s.pass.value.branch.TopUp? && s.pass.value.plan != []
    requires Attempt(s, ro).Some? && TopUpOk(s, ro, c, left, Since(s, ro))
    ensures Flying(Last(s.hist), ro) <= ro.maxUnavailable - left + Recoveries(s.hist, ro.target, s.pass.value.snap)
  {
    var snap := s.hist[s.pass.value.snap];
    if c == 0 && left == Capacity(snap, ro) {
      FirstWriteSawAll(s, ro);
      CapacityExact(snap, ro);
    }
  }

  lemma FreezeKeepsCap(s: Sys, ro: RolloutSpec)
    requires CapInv(s, ro) && s.pass.Some? && s.pass.value.branch.Freeze? && s.pass.value.plan != []
    requires Attempt(s, ro).Some?
    ensures CapInv(Step(s, Write, ro), ro)
  {
    var s' := Step(s, Write, ro);
    var x := s.pass.value.plan[0];
    StepKeepsInv(s, Write, ro);
    AttemptExactly(s, ro);
    var d := Last(s'.hist)[x].device;
    assert Last(s'.hist) == Changed(Last(s.hist), x, d);
    AppendKeepsCapHist(s.hist, x, d, ro.target);
    RecoveriesAppend(s.hist, Last(s'.hist), ro.target, 0);
    CountUpdated(Last(s.hist), x, Last(s'.hist)[x], ro.target, InFlight);
  }

  lemma BeginKeepsCap(s: Sys, k: nat, ro: RolloutSpec)
    requires CapInv(s, ro) && s.pass.None? && k < |s.hist|
    ensures CapInv(Step(s, Begin(k), ro), ro)
  {
    var s' := Step(s, Begin(k), ro);
    StepKeepsInv(s, Begin(k), ro);
    assert SameNames(s.hist[k], s.hist[0]) && SameNames(Last(s.hist), s.hist[0]);
    if s'.pass.value.branch.TopUp? {
      assert TopUpOk(s', ro, 0, Capacity(s.hist[k], ro), Since(s', ro));
    }
  }

  lemma WriteKeepsCap(s: Sys, ro: RolloutSpec)
    requires CapInv(s, ro) && s.pass.Some? && s.pass.value.plan != [] && Attempt(s, ro).Some?
    ensures CapInv(Step(s, Write, ro), ro)
  {
    if s.pass.value.branch.TopUp? {
      PushKeepsCap(s, ro);
    } else {
      FreezeKeepsCap(s, ro);
    }
  }

  lemma StepKeepsCap(s: Sys, e: Event, ro: RolloutSpec)
    requires CapInv(s, ro) && BenignEvent(s, e, ro.target)
    ensures CapInv(Step(s, e, ro), ro)
  {
    match e {
      case Begin(k) => if s.pass.None? && k < |s.hist| { BeginKeepsCap(s, k, ro); }
      case Write => if s.pass.Some? && s.pass.value.plan != [] && Attempt(s, ro).Some? { WriteKeepsCap(s, ro); }
      case WriteFails(effect) =>
        if s.pass.Some? && s.pass.value.plan != [] && Attempt(s, ro).Some? && effect {
          WriteKeepsCap(s, ro);
          assert Step(s, e, ro) == Step(s, Write, ro).(pass := None);
        }
      case Finish =>
      case Restart =>
      case Change(x, d) => if x < |Last(s.hist)| { ChangeKeepsCap(s, x, d, ro); }
    }
  }

  lemma {:induction false} RunKeepsCap(ss: seq<Sys>, es: seq<Event>, ro: RolloutSpec, n: nat)
    requires BenignRun(ss, es, ro) && CapInv(ss[0], ro) && n < |ss|
    ensures CapInv(ss[n], ro)
  {
    if n > 0 {
      RunKeepsCap(ss, es, ro, n - 1);
      StepKeepsCap(ss[n - 1], es[n - 1], ro);
    }
  }

  // ---- Counted by events ----

  /** The event puts a failed device back in flight. */
  predicate Recovers(s: Sys, e: Event, target: string)
    requires s.hist != []
  {
    && e.Change? && e.dev < |Last(s.hist)|
    && KindOf(Last(s.hist)[e.dev].device, target) == Failed && KindOf(e.device, target) == InFlight
  }

  /** How many of the first `n` events did. */
  function RecoveredBy(ss: seq<Sys>, es: seq<Event>, target: string, n: nat): nat
    requires n <= |es| && |ss| == |es| + 1 && forall i | 0 <= i < |ss| :: ss[i].hist != []
  {
    if n == 0 then 0
    else RecoveredBy(ss, es, target, n - 1) + if Recovers(ss[n - 1], es[n - 1], target) then 1 else 0
  }

  lemma WriteReturnsNone(s: Sys, ro: RolloutSpec)
    requires Inv(s, ro) && s.pass.Some? && s.pass.value.plan != [] && Attempt(s, ro).Some?
    ensures Returned(Last(s.hist), Attempt(s, ro).value, ro.target) == 0
  {
    AttemptExactly(s, ro);
    var f, x := Last(s.hist), s.pass.value.plan[0];
    assert SameNames(f, s.hist[0]);
    ReturnedUpdated(f, x, Attempt(s, ro).value[x], ro.target);
  }

  lemma ChangeRecoveries(hist: seq<seq<Item>>, x: nat, d: Device, target: string)
    requires hist != [] && x < |Last(hist)|
    ensures Recoveries(hist + [Changed(Last(hist), x, d)], target, 0) == Recoveries(hist, target, 0)
            + if KindOf(Last(hist)[x].device, target) == Failed && KindOf(d, target) == InFlight then 1 else 0
  {
    var f := Changed(Last(hist), x, d);
    RecoveriesAppend(hist, f, target, 0);
    ReturnedUpdated(Last(hist), x, f[x], target);
  }

  lemma WriteRecoveries(s: Sys, ro: RolloutSpec)
    requires Inv(s, ro) && s.pass.Some? && s.pass.value.plan != [] && Attempt(s, ro).Some?
    ensures Recoveries(s.hist + [Attempt(s, ro).value], ro.target, 0) == Recoveries(s.hist, ro.target, 0)
  {
    RecoveriesAppend(s.hist, Attempt(s, ro).value, ro.target, 0);
    WriteReturnsNone(s, ro);
  }

  lemma StepRecoveries(s: Sys, e: Event, ro: RolloutSpec)
    requires Inv(s, ro)
    ensures Recoveries(Step(s, e, ro).hist, ro.target, 0) ==
            Recoveries(s.hist, ro.target, 0) + if Recovers(s, e, ro.target) then 1 else 0
  {
    if e.Change? {
      if e.dev < |Last(s.hist)| {
        ChangeRecoveries(s.hist, e.dev, e.device, ro.target);
      }
    } else if s.pass.Some? && s.pass.value.plan != [] && Attempt(s, ro).Some? {
      WriteRecoveries(s, ro);
    }
  }

  lemma {:induction false} RunRecoveries(ss: seq<Sys>, es: seq<Event>, ro: RolloutSpec, n: nat)
    requires IsRun(ss, es, ro) && Inv(ss[0], ro) && n < |ss| && |ss[0].hist| == 1
    ensures Recoveries(ss[n].hist, ro.target, 0) == RecoveredBy(ss, es, ro.target, n)
  {
    if n == 0 {
      NoHistory(ss[0].hist, ro.target);
    } else {
      RunRecoveries(ss, es, ro, n - 1);
      RunKeepsInv(ss, es, ro, n - 1);
      StepRecoveries(ss[n - 1], es[n - 1], ro);
      assert ss[n] == Step(ss[n - 1], es[n - 1], ro);
    }
  }

  lemma NoHistory(hist: seq<seq<Item>>, target: string)
    requires |hist| == 1
    ensures Recoveries(hist, target, 0) == 0
  {
  }

  /**
   The cap over whole runs, recoveries included: serial passes, each from an arbitrary past snapshot
   and each free to be refused, to fail or to die at any write, never bring more devices in flight
   than maxUnavailable and one for every time a failed device has gone back in flight.
   */
  lemma CapWithRecoveries(ss: seq<Sys>, es: seq<Event>, ro: RolloutSpec, fleet: seq<Item>, n: nat)
    requires BenignRun(ss, es, ro) && n < |ss| && ss[0] == Sys([fleet], None)
    requires Sorted(fleet) && |fleet| < TWO31 && 1 <= ro.maxUnavailable < TWO31
    requires Flying(fleet, ro) <= ro.maxUnavailable
    ensures Flying(Last(ss[n].hist), ro) <= ro.maxUnavailable + RecoveredBy(ss, es, ro.target, n)
  {
    RunKeepsCap(ss, es, ro, n);
    RunRecoveries(ss, es, ro, n);
  }

  /** Outcomes are final: a device that has succeeded or failed is never in flight again. */
  predicate OutcomesFinal(ss: seq<Sys>, es: seq<Event>, ro: RolloutSpec)
    requires IsRun(ss, es, ro)
  {
    forall i | 0 <= i < |es| && es[i].Change? && es[i].dev < |Last(ss[i].hist)| ::
      Settled(Last(ss[i].hist)[es[i].dev].device, ro.target) ==> Settled(es[i].device, ro.target)
  }

  lemma {:induction false} FinalMeansNone(ss: seq<Sys>, es: seq<Event>, ro: RolloutSpec, n: nat)
    requires IsRun(ss, es, ro) && OutcomesFinal(ss, es, ro) && n <= |es|
    ensures RecoveredBy(ss, es, ro.target, n) == 0
  {
    if n > 0 {
      FinalMeansNone(ss, es, ro, n - 1);
    }
  }

  /** The cap: when outcomes are final, never more than maxUnavailable devices are in flight. */
  lemma RolloutCap(ss: seq<Sys>, es: seq<Event>, ro: RolloutSpec, fleet: seq<Item>, n: nat)
    requires BenignRun(ss, es, ro) && OutcomesFinal(ss, es, ro) && n < |ss| && ss[0] == Sys([fleet], None)
    requires Sorted(fleet) && |fleet| < TWO31 && 1 <= ro.maxUnavailable < TWO31
    requires Flying(fleet, ro) <= ro.maxUnavailable
    ensures Flying(Last(ss[n].hist), ro) <= ro.maxUnavailable
  {
    CapWithRecoveries(ss, es, ro, fleet, n);
    FinalMeansNone(ss, es, ro, n);
  }

  /**
   Why outcomes must be final: a failed device that recovers is in flight again, and its place may
   have been given away. Then the cap holds exactly if it had not been used up.
   */
  lemma RecoveryUsesCapacity(s: Sys, ro: RolloutSpec, x: nat, d: Device)
    requires s.hist != [] && x < |Last(s.hist)|
    requires KindOf(Last(s.hist)[x].device, ro.target) == Failed && KindOf(d, ro.target) == InFlight
    ensures Flying(Last(Step(s, Change(x, d), ro).hist), ro) <= ro.maxUnavailable <==>
            Flying(Last(s.hist), ro) < ro.maxUnavailable
  {
    CountUpdated(Last(s.hist), x, Changed(Last(s.hist), x, d)[x], ro.target, InFlight);
  }

  const ONE_AT_A_TIME := RolloutSpec("v2", "", "", 1, 100, 1)

  /** The bound is met: the place of a failed device is given away, it recovers, and two are in flight. */
  lemma CapExceeded()
    ensures var d := Sample("v2", "v1", Upgrading);
            var s := Step(Step(Sys([THREE], None), Begin(0), ONE_AT_A_TIME), Write, ONE_AT_A_TIME);
            && Sorted(THREE) && Flying(THREE, ONE_AT_A_TIME) == 0
            && |Last(s.hist)| == 3 && Benign(Last(s.hist)[0].device, d, "v2") && Recovers(s, Change(0, d), "v2")
            && Flying(Last(Step(s, Change(0, d), ONE_AT_A_TIME).hist), ONE_AT_A_TIME) == 2
  {
    var ro := ONE_AT_A_TIME;
    var d := Sample("v2", "v1", Upgrading);
    var s1 := Step(Sys([THREE], None), Begin(0), ro);
    SamplePlan();
    IndexInSorted(THREE, 2);
    var c := Rewritten(THREE[2], TopUp, ro);
    var s2 := Step(s1, Write, ro);
    assert Last(s2.hist) == THREE[2 := c];
    SampleCounts(InFlight);
    CountUpdated(THREE, 2, c, "v2", InFlight);
    var f := Last(s2.hist);
    CountUpdated(f, 0, Changed(f, 0, d)[0], "v2", InFlight);
  }

  lemma SamplePlan()
    ensures Sorted(THREE) && BranchOf(THREE, ONE_AT_A_TIME) == TopUp && Plan(THREE, ONE_AT_A_TIME) == [2]
  {
    SampleBranch();
    SampleCounts(InFlight);
    CapacityExact(THREE, ONE_AT_A_TIME);
    SamplePushes();
  }

  lemma SampleBranch()
    ensures BranchOf(THREE, ONE_AT_A_TIME) == TopUp
  {
    SampleCounts(InFlight);
    SampleCounts(Failed);
    SampleCounts(Succeeded);
    TripsExactly(THREE, ONE_AT_A_TIME);
    I32Exact(1);
    I32Exact(3);
  }

  lemma SamplePushes()
    ensures Pushes(THREE, "v2", 0, 1) == [2]
  {
    SampleKinds();
    assert Pushes(THREE, "v2", 3, 0) == [];
    assert Pushes(THREE, "v2", 2, 1) == [2] + Pushes(THREE, "v2", 3, 0);
    assert Pushes(THREE, "v2", 1, 1) == Pushes(THREE, "v2", 2, 1);
  }
}
