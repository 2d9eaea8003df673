/** How long a rollout stays tripped, and what exactly opens its breaker again. */
module RolloutVerdicts {
  import opened Devices
  import opened Rollouts
  import opened RolloutHistories
  import opened RolloutFreezes
  import opened RolloutSamples

  // ---- One device changes ----

  /** The targeted and the failed once device `x` has become `d`. */
  function TargetedThen(f: seq<Item>, x: nat, d: Device, target: string): int
    requires x < |f|
  {
    Targeted(f, target) - Bit(!KindOf(f[x].device, target).Untargeted?) + Bit(!KindOf(d, target).Untargeted?)
  }

  function FailedThen(f: seq<Item>, x: nat, d: Device, target: string): int
    requires x < |f|
  {
    Count(f, target, Failed) - Bit(KindOf(f[x].device, target).Failed?) + Bit(KindOf(d, target).Failed?)
  }

  lemma CountsAfterChange(f: seq<Item>, x: nat, d: Device, target: string)
    requires x < |f|
    ensures Targeted(Changed(f, x, d), target) == TargetedThen(f, x, d, target)
    ensures Count(Changed(f, x, d), target, Failed) == FailedThen(f, x, d, target)
  {
    var i := Changed(f, x, d)[x];
    CountUpdated(f, x, i, target, Failed);
    CountUpdated(f, x, i, target, InFlight);
    CountUpdated(f, x, i, target, Succeeded);
  }

  /** The verdict is recomputed in every pass: what it is after any one device has changed in any way. */
  lemma ChangeRecomputes(f: seq<Item>, ro: RolloutSpec, x: nat, d: Device)
    requires |f| <= MAX_FLEET && 1 <= ro.threshold <= 100 && x < |f|
    ensures Tripped(Changed(f, x, d), ro) <==>
            RatioReached(TargetedThen(f, x, d, ro.target), FailedThen(f, x, d, ro.target), ro.threshold)
  {
    CountsAfterChange(f, x, d, ro.target);
    TripsWith(Changed(f, x, d), ro, TargetedThen(f, x, d, ro.target), FailedThen(f, x, d, ro.target));
  }

  lemma TripsWith(g: seq<Item>, ro: RolloutSpec, targeted: int, failed: int)
    requires |g| <= MAX_FLEET && 1 <= ro.threshold <= 100
    requires Targeted(g, ro.target) == targeted && Count(g, ro.target, Failed) == failed
    ensures Tripped(g, ro) <==> RatioReached(targeted, failed, ro.threshold)
  {
    TripsExactly(g, ro);
  }

  /** One way to open the breaker: a failed device recovers. */
  lemma RecoveryRecomputes(f: seq<Item>, ro: RolloutSpec, x: nat, d: Device)
    requires |f| <= MAX_FLEET && 1 <= ro.threshold <= 100 && x < |f|
    requires KindOf(f[x].device, ro.target) == Failed && KindOf(d, ro.target) in {InFlight, Succeeded}
    ensures Tripped(Changed(f, x, d), ro) <==>
            RatioReached(Targeted(f, ro.target), Count(f, ro.target, Failed) - 1, ro.threshold)
  {
    CountsAfterChange(f, x, d, ro.target);
    TripsWith(Changed(f, x, d), ro, Targeted(f, ro.target), Count(f, ro.target, Failed) - 1);
  }

  /** The other way: a device comes to the target that the controller had not sent there. */
  lemma ArrivalRecomputes(f: seq<Item>, ro: RolloutSpec, x: nat, d: Device)
    requires |f| <= MAX_FLEET && 1 <= ro.threshold <= 100 && x < |f|
    requires KindOf(f[x].device, ro.target) == Untargeted && KindOf(d, ro.target) in {InFlight, Succeeded}
    ensures Tripped(Changed(f, x, d), ro) <==>
            RatioReached(Targeted(f, ro.target) + 1, Count(f, ro.target, Failed), ro.threshold)
  {
    CountsAfterChange(f, x, d, ro.target);
    TripsWith(Changed(f, x, d), ro, Targeted(f, ro.target) + 1, Count(f, ro.target, Failed));
  }

  const HALF := RolloutSpec("v2", "", "", 1, 50, 1)

  /** Three devices, one failed, one done, one untouched: tripped at 50%, and open again after either change. */
  lemma BreakerReopens()
    ensures Tripped(THREE, HALF)
    ensures !Tripped(Changed(THREE, 0, Sample("v2", "v1", Upgrading)), HALF)
    ensures !Tripped(Changed(THREE, 2, Sample("v1", "v2", Ready)), HALF)
  {
    SampleKinds();
    assert "v1"[1] != "v2"[1];
    SampleCounts(InFlight);
    SampleCounts(Failed);
    SampleCounts(Succeeded);
    TripsExactly(THREE, HALF);
    ChangeRecomputes(THREE, HALF, 0, Sample("v2", "v1", Upgrading));
    ChangeRecomputes(THREE, HALF, 2, Sample("v1", "v2", Ready));
  }

  // ---- Whole runs ----

  /** A device neither leaves the failed nor, on its own, the untargeted; its pause flag may do as it likes. */
  predicate Calm(d: Device, d': Device, target: string) {
    && (KindOf(d, target) == Failed ==> KindOf(d', target) == Failed)
    && (KindOf(d, target) == Untargeted ==> KindOf(d', target) == Untargeted)
  }

  predicate CalmTo(f: seq<Item>, g: seq<Item>, target: string) {
    |f| == |g| && forall x | 0 <= x < |f| :: Calm(f[x].device, g[x].device, target)
  }

  /** What others do to devices once version `k` of the fleet exists is calm. */
  predicate CalmSince(ss: seq<Sys>, es: seq<Event>, ro: RolloutSpec, k: nat)
    requires IsRun(ss, es, ro)
  {
    forall i | 0 <= i < |es| && ChangesSince(ss, es, k, i) ::
      Calm(Last(ss[i].hist)[es[i].dev].device, es[i].device, ro.target)
  }

  /** More failures among no more targets keep the breaker tripped. */
  lemma TrippedStays(f: seq<Item>, g: seq<Item>, ro: RolloutSpec)
    requires |f| <= MAX_FLEET && 1 <= ro.threshold <= 100 && Tripped(f, ro) && CalmTo(f, g, ro.target)
    ensures Tripped(g, ro)
  {
    CountGrows(f, g, ro.target, Failed);
    CountGrows(f, g, ro.target, Untargeted);
    CountsAddUp(f, ro.target);
    CountsAddUp(g, ro.target);
    TripsExactly(f, ro);
    TripsExactly(g, ro);
    RatioStays(Targeted(f, ro.target), Count(f, ro.target, Failed),
               Targeted(g, ro.target), Count(g, ro.target, Failed), ro.threshold);
  }

  lemma RatioStays(t: nat, f: nat, t': nat, f': nat, threshold: int)
    requires RatioReached(t, f, threshold) && t' <= t && f <= f' <= t' && threshold >= 1
    ensures RatioReached(t', f', threshold)
  {
    assert threshold * t' <= threshold * t;
    assert threshold * t >= 1;
  }

  lemma FrozenLater(hist: seq<seq<Item>>, more: seq<seq<Item>>, k: nat, x: nat)
    requires HistOk(hist) && HistOk(more) && hist <= more && k < |hist| && x < |hist[0]| && FrozenSince(hist, k, x)
    ensures FrozenSince(more, k, x)
  {
    assert more[k] == hist[k];
    if !hist[k][x].device.spec.paused {
      var b :| k <= b < |hist| - 1 && hist[b][x] == hist[k][x] && hist[b + 1][x].rv > hist[b][x].rv
               && hist[b + 1][x].device.spec.paused;
      assert more[b] == hist[b] && more[b + 1] == hist[b + 1];
    }
  }

  /**
   A write to a device the tripped pass froze, from a snapshot before it: the device would have to be
   as it was in version `k`, so this write would be its first since, and that one paused it.
   */
  lemma NoOldPush(more: seq<seq<Item>>, j: nat, k: nat, a: nat, x: nat)
    requires HistOk(more) && j <= k <= a < |more| - 1 && x < |more[0]| && FrozenSince(more, k, x)
    requires more[j][x] == more[a][x] && !more[a][x].device.spec.paused && more[a + 1][x].rv > more[a][x].rv
    ensures more[a + 1][x].device.spec.paused
  {
    assert Ages(more[j][x], more[k][x]) && Ages(more[k][x], more[a][x]);
    var b :| k <= b < |more| - 1 && more[b][x] == more[k][x] && more[b + 1][x].rv > more[b][x].rv
             && more[b + 1][x].device.spec.paused;
    // Both `a` and `b` are the first change since `k`.
    var first, second := if a < b then a else b, if a < b then b else a;
    NeverYounger(more, if first < second then first + 1 else second, second, x);
  }

  lemma NeverYounger(hist: seq<seq<Item>>, a: nat, b: nat, x: nat)
    requires HistOk(hist) && a <= b < |hist| && x < |hist[0]|
    ensures hist[a][x].rv <= hist[b][x].rv
  {
    assert Ages(hist[a][x], hist[b][x]);
  }

  predicate TrippedSince(hist: seq<seq<Item>>, k: nat, ro: RolloutSpec) {
    forall t | k <= t < |hist| :: Tripped(hist[t], ro)
  }

  /** While every version since `k` is tripped, a write that goes through can only be a freeze. */
  lemma OnlyFreezes(s: Sys, more: seq<seq<Item>>, k: nat, ro: RolloutSpec)
    requires Inv(s, ro) && k < |s.hist| && TrippedSince(s.hist, k, ro)
    requires s.pass.Some? && s.pass.value.plan != [] && Attempt(s, ro).Some?
    requires HistOk(more) && s.hist + [Attempt(s, ro).value] <= more
    requires s.pass.value.plan[0] < |more[0]| && FrozenSince(more, k, s.pass.value.plan[0])
    ensures s.pass.value.branch.Freeze?
  {
    var p := s.pass.value;
    var x, a := p.plan[0], |s.hist| - 1;
    AttemptExactly(s, ro);
    if p.branch.TopUp? {
      assert p.snap < k;
      assert more[p.snap] == s.hist[p.snap] && more[a] == Last(s.hist) && more[a + 1] == Attempt(s, ro).value;
      NoOldPush(more, p.snap, k, a, x);
    }
  }

  /** A freeze leaves every kind and every desired version as it was. */
  lemma FreezeIsCalm(s: Sys, ro: RolloutSpec)
    requires Inv(s, ro) && s.pass.Some? && s.pass.value.plan != [] && Attempt(s, ro).Some? && s.pass.value.branch.Freeze?
    ensures CalmTo(Last(s.hist), Attempt(s, ro).value, ro.target)
    ensures SameTargets(Last(s.hist), Attempt(s, ro).value)
  {
    AttemptExactly(s, ro);
    assert SameNames(Last(s.hist), s.hist[0]);
  }

  lemma ChangeIsCalm(f: seq<Item>, x: nat, d: Device, target: string)
    requires x < |f| && Calm(f[x].device, d, target)
    ensures CalmTo(f, Changed(f, x, d), target)
  {
  }

  /** What a step appends is calm, and a step of the controller leaves every desired version. */
  lemma StepIsCalm(s: Sys, e: Event, more: seq<seq<Item>>, k: nat, ro: RolloutSpec)
    requires Inv(s, ro) && k < |s.hist| && TrippedSince(s.hist, k, ro)
    requires HistOk(more) && Step(s, e, ro).hist <= more && |more[0]| == |s.hist[0]|
    requires forall x | 0 <= x < |s.hist[0]| :: FrozenSince(more, k, x)
    requires e.Change? && e.dev < |Last(s.hist)| ==> Calm(Last(s.hist)[e.dev].device, e.device, ro.target)
    ensures CalmTo(Last(s.hist), Last(Step(s, e, ro).hist), ro.target)
    ensures !e.Change? ==> SameTargets(Last(s.hist), Last(Step(s, e, ro).hist))
  {
    var h' := Step(s, e, ro).hist;
    if h' != s.hist {
      if e.Change? {
        ChangeIsCalm(Last(s.hist), e.dev, e.device, ro.target);
      } else {
        assert s.pass.Some? && s.pass.value.plan != [] && Attempt(s, ro).Some?;
        OnlyFreezes(s, more, k, ro);
        FreezeIsCalm(s, ro);
      }
    }
  }

  predicate SameTargets(f: seq<Item>, g: seq<Item>) {
    |f| == |g| && forall x | 0 <= x < |f| :: g[x].device.spec.desired == f[x].device.spec.desired
  }

  lemma CalmOn(f: seq<Item>, g: seq<Item>, h: seq<Item>, target: string)
    requires CalmTo(f, g, target) && CalmTo(g, h, target)
    ensures CalmTo(f, h, target)
  {
  }

  /** What a completed tripped pass on version `k` says of the whole history it belongs to. */
  lemma DoneMeansFrozen(ss: seq<Sys>, es: seq<Event>, ro: RolloutSpec, fleet: seq<Item>, k: nat, m: nat)
    requires RunFrom(ss, es, ro, fleet) && m < |ss| && FreezeDone(ss[m], k)
    ensures var more := ss[|es|].hist;
            && HistOk(more) && more[0] == fleet && k < |more| && Tripped(more[k], ro)
            && forall x | 0 <= x < |fleet| :: FrozenSince(more, k, x)
  {
    RunFacts(ss, es, ro, fleet, m);
    RunFacts(ss, es, ro, fleet, |es|);
    HistoryGrows(ss, es, ro, m, |es|);
    assert ss[|es|].hist[k] == ss[m].hist[k];
    forall x | 0 <= x < |fleet| ensures FrozenSince(ss[|es|].hist, k, x) {
      FrozenLater(ss[m].hist, ss[|es|].hist, k, x);
    }
  }

  /** Every version since `k` is calmly reached from it, and tripped. */
  predicate CalmHistory(hist: seq<seq<Item>>, k: nat, ro: RolloutSpec) {
    TrippedSince(hist, k, ro) && forall t | k <= t < |hist| :: CalmTo(hist[k], hist[t], ro.target)
  }

  lemma AppendCalm(hist: seq<seq<Item>>, g: seq<Item>, k: nat, ro: RolloutSpec)
    requires k < |hist| && CalmHistory(hist, k, ro) && CalmTo(Last(hist), g, ro.target)
    requires |hist[k]| <= MAX_FLEET && 1 <= ro.threshold <= 100
    ensures CalmHistory(hist + [g], k, ro)
  {
    CalmOn(hist[k], Last(hist), g, ro.target);
    TrippedStays(hist[k], g, ro);
  }

  /** One step of the run extends a calm history calmly. */
  lemma RunStepStaysCalm(ss: seq<Sys>, es: seq<Event>, ro: RolloutSpec, fleet: seq<Item>, k: nat, m: nat, n: nat)
    requires RunFrom(ss, es, ro, fleet) && m < |ss| && FreezeDone(ss[m], k) && n < |es|
    requires CalmSince(ss, es, ro, k) && |fleet| <= MAX_FLEET && 1 <= ro.threshold <= 100
    requires k < |ss[n].hist| && CalmHistory(ss[n].hist, k, ro)
    ensures CalmHistory(ss[n + 1].hist, k, ro)
    ensures !es[n].Change? ==> SameTargets(Last(ss[n].hist), Last(ss[n + 1].hist))
  {
    DoneMeansFrozen(ss, es, ro, fleet, k, m);
    RunFacts(ss, es, ro, fleet, n);
    HistoryGrows(ss, es, ro, n + 1, |es|);
    assert es[n].Change? && es[n].dev < |Last(ss[n].hist)| ==> ChangesSince(ss, es, k, n);
    StepIsCalm(ss[n], es[n], ss[|es|].hist, k, ro);
    assert SameNames(ss[n].hist[k], fleet);
    AppendCalm(ss[n].hist, Last(ss[n + 1].hist), k, ro);
    StepAppends(ss[n], es[n], ro);
  }

  lemma StepAppends(s: Sys, e: Event, ro: RolloutSpec)
    requires s.hist != []
    ensures var h' := Step(s, e, ro).hist; h' == s.hist || h' == s.hist + [Last(h')]
  {
  }

  lemma {:induction false} RunStaysCalm(ss: seq<Sys>, es: seq<Event>, ro: RolloutSpec, fleet: seq<Item>, k: nat, m: nat, n: nat)
    requires RunFrom(ss, es, ro, fleet) && m < |ss| && FreezeDone(ss[m], k) && n < |ss|
    requires CalmSince(ss, es, ro, k) && |fleet| <= MAX_FLEET && 1 <= ro.threshold <= 100
    ensures CalmHistory(ss[n].hist, k, ro)
    decreases n
  {
    if n > 0 {
      RunStaysCalm(ss, es, ro, fleet, k, m, n - 1);
    }
    if n > 0 && |ss[n - 1].hist| > k {
      RunStepStaysCalm(ss, es, ro, fleet, k, m, n - 1);
    } else {
      if n > 0 {
        StepAppends(ss[n - 1], es[n - 1], ro);
      }
      FirstIsCalm(ss, es, ro, fleet, k, m, n);
    }
  }

  lemma FirstIsCalm(ss: seq<Sys>, es: seq<Event>, ro: RolloutSpec, fleet: seq<Item>, k: nat, m: nat, n: nat)
    requires RunFrom(ss, es, ro, fleet) && m < |ss| && FreezeDone(ss[m], k) && n < |ss| && |ss[n].hist| <= k + 1
    ensures CalmHistory(ss[n].hist, k, ro)
  {
    DoneMeansFrozen(ss, es, ro, fleet, k, m);
    HistoryGrows(ss, es, ro, n, |es|);
    assert forall t | k <= t < |ss[n].hist| :: t == k && ss[n].hist[t] == ss[|es|].hist[k];
  }

  /**
   The verdict: after a completed tripped pass, if failed devices stay failed and no device reaches the
   target unless the controller sends it, then every version of the fleet since its snapshot is tripped
   and the controller sends none, whoever pauses or unpauses devices meanwhile.
   */
  lemma VerdictStays(ss: seq<Sys>, es: seq<Event>, ro: RolloutSpec, fleet: seq<Item>, k: nat, m: nat, n: nat)
    requires RunFrom(ss, es, ro, fleet) && m < |ss| && FreezeDone(ss[m], k) && n < |ss|
    requires CalmSince(ss, es, ro, k) && |fleet| <= MAX_FLEET && 1 <= ro.threshold <= 100
    ensures forall t | k <= t < |ss[n].hist| :: Tripped(ss[n].hist[t], ro)
    ensures n < |es| && k < |ss[n].hist| && !es[n].Change? ==> SameTargets(Last(ss[n].hist), Last(ss[n + 1].hist))
  {
    RunStaysCalm(ss, es, ro, fleet, k, m, n);
    if n < |es| && k < |ss[n].hist| {
      RunStepStaysCalm(ss, es, ro, fleet, k, m, n);
    }
  }

  /** A change of the pause flag alone. */
  predicate PauseOnly(d: Device, d': Device) {
    d'.status == d.status && d'.spec == d.spec.(paused := d'.spec.paused)
  }

  /** Unpausing alone never reopens the breaker, however many devices are unpaused and how often. */
  lemma UnpausingNeverReopens(ss: seq<Sys>, es: seq<Event>, ro: RolloutSpec, fleet: seq<Item>, k: nat, m: nat, n: nat)
    requires RunFrom(ss, es, ro, fleet) && m < |ss| && FreezeDone(ss[m], k) && n < |ss|
    requires forall i | 0 <= i < |es| && ChangesSince(ss, es, k, i) ::
               PauseOnly(Last(ss[i].hist)[es[i].dev].device, es[i].device)
    requires |fleet| <= MAX_FLEET && 1 <= ro.threshold <= 100
    ensures forall t | k <= t < |ss[n].hist| :: Tripped(ss[n].hist[t], ro)
    ensures n < |es| && k < |ss[n].hist| && !es[n].Change? ==> SameTargets(Last(ss[n].hist), Last(ss[n + 1].hist))
  {
    VerdictStays(ss, es, ro, fleet, k, m, n);
  }
}
