/** What a completed tripped pass guarantees from then on. */
module RolloutFreezes {
  import opened Wrappers
  import opened Devices
  import opened Rollouts
  import opened RolloutHistories

  predicate RunFrom(ss: seq<Sys>, es: seq<Event>, ro: RolloutSpec, fleet: seq<Item>) {
    IsRun(ss, es, ro) && ss[0] == Sys([fleet], None) && Sorted(fleet)
  }

  /** Event `i` changes a device of the fleet after version `k` came to be. */
  predicate ChangesSince(ss: seq<Sys>, es: seq<Event>, k: nat, i: nat)
    requires |ss| == |es| + 1 && i < |es| && ss[i].hist != []
  {
    es[i].Change? && |ss[i].hist| > k && es[i].dev < |Last(ss[i].hist)|
  }

  /** Nobody else clears the pause flag of device `x` once version `k` of the fleet exists. */
  predicate NobodyUnpauses(ss: seq<Sys>, es: seq<Event>, ro: RolloutSpec, k: nat, x: nat)
    requires IsRun(ss, es, ro)
  {
    forall i | 0 <= i < |es| && ChangesSince(ss, es, k, i) && es[i].dev == x ::
      Last(ss[i].hist)[x].device.spec.paused ==> es[i].device.spec.paused
  }

  /** A tripped pass that read version `k` has got through all its writes. */
  predicate FreezeDone(s: Sys, k: nat) {
    s.pass.Some? && s.pass.value.branch.Freeze? && s.pass.value.plan == [] && s.pass.value.snap == k
  }

  // ---- One step ----

  /** The pass's own write on a device: a freeze pauses it, a push hits an eligible one and leaves it unpaused. */
  predicate Written(i: Item, i': Item, ro: RolloutSpec) {
    && i'.rv > i.rv && i'.device.status == i.device.status
    && (|| i'.device.spec == i.device.spec.(paused := true)
        || (Eligible(i.device, ro.target) && i'.device.spec == Spec(ro.target, ro.url, ro.checksum, false)))
  }

  /** What a step does to device `x`: nothing, a change by others, or a write of the pass. */
  predicate Moves(i: Item, i': Item, e: Event, x: nat, ro: RolloutSpec) {
    || i' == i
    || (e.Change? && e.dev == x && i' == i.(rv := i.rv + 1, device := e.device))
    || (!e.Change? && Written(i, i', ro))
  }

  lemma WriteMoves(s: Sys, e: Event, x: nat, ro: RolloutSpec)
    requires Inv(s, ro) && s.pass.Some? && s.pass.value.plan != [] && Attempt(s, ro).Some? && !e.Change?
    requires x < |s.hist[0]|
    ensures |Last(s.hist)| == |Attempt(s, ro).value| == |s.hist[0]|
    ensures Moves(Last(s.hist)[x], Attempt(s, ro).value[x], e, x, ro)
  {
    AttemptExactly(s, ro);
    assert SameNames(Last(s.hist), s.hist[0]);
  }

  lemma StepMoves(s: Sys, e: Event, x: nat, ro: RolloutSpec)
    requires Inv(s, ro) && x < |s.hist[0]|
    ensures var h, h' := s.hist, Step(s, e, ro).hist;
            && x < |Last(h)| && (h' == h || (|h'| == |h| + 1 && h <= h' && |Last(h')| == |h[0]|
                                             && Moves(Last(h)[x], Last(h')[x], e, x, ro)))
  {
    assert SameNames(Last(s.hist), s.hist[0]);
    if (e.Write? || e.WriteFails?) && s.pass.Some? && s.pass.value.plan != [] && Attempt(s, ro).Some? {
      WriteMoves(s, e, x, ro);
    }
  }

  lemma {:induction false} HistoryGrows(ss: seq<Sys>, es: seq<Event>, ro: RolloutSpec, m: nat, n: nat)
    requires IsRun(ss, es, ro) && m <= n < |ss|
    ensures ss[m].hist <= ss[n].hist
    decreases n
  {
    if m < n {
      HistoryGrows(ss, es, ro, m, n - 1);
    }
  }

  /** The fleet and the invariant at any point of a run. */
  lemma RunFacts(ss: seq<Sys>, es: seq<Event>, ro: RolloutSpec, fleet: seq<Item>, n: nat)
    requires RunFrom(ss, es, ro, fleet) && n < |ss|
    ensures Inv(ss[n], ro) && ss[n].hist[0] == fleet
  {
    RunKeepsInv(ss, es, ro, n);
    HistoryGrows(ss, es, ro, 0, n);
  }

  // ---- Pause flags ----

  predicate PauseKept(hist: seq<seq<Item>>, k: nat, x: nat)
    requires HistOk(hist) && x < |hist[0]|
  {
    forall a | k <= a < |hist| - 1 :: hist[a][x].device.spec.paused ==> hist[a + 1][x].device.spec.paused
  }

  lemma {:induction false} RunKeepsPause(ss: seq<Sys>, es: seq<Event>, ro: RolloutSpec, fleet: seq<Item>, k: nat, x: nat, n: nat)
    requires RunFrom(ss, es, ro, fleet) && n < |ss| && x < |fleet| && NobodyUnpauses(ss, es, ro, k, x)
    ensures Inv(ss[n], ro) && ss[n].hist[0] == fleet && PauseKept(ss[n].hist, k, x)
  {
    RunFacts(ss, es, ro, fleet, n);
    if n > 0 {
      RunKeepsPause(ss, es, ro, fleet, k, x, n - 1);
      StepMoves(ss[n - 1], es[n - 1], x, ro);
      var h: seq<seq<Item>>, h': seq<seq<Item>> := ss[n - 1].hist, ss[n].hist;
      assert h' == Step(ss[n - 1], es[n - 1], ro).hist;
      forall a | k <= a < |h'| - 1 ensures h'[a][x].device.spec.paused ==> h'[a + 1][x].device.spec.paused {
        if a + 1 < |h| {
          assert h'[a] == h[a] && h'[a + 1] == h[a + 1];
        } else {
          assert h'[a] == Last(h) && h'[a + 1] == Last(h');
          assert es[n - 1].Change? && es[n - 1].dev < |Last(h)| ==> ChangesSince(ss, es, k, n - 1);
        }
      }
    }
  }

  lemma {:induction false} PausedOn(hist: seq<seq<Item>>, k: nat, a: nat, b: nat, x: nat)
    requires HistOk(hist) && x < |hist[0]| && PauseKept(hist, k, x) && k <= a <= b < |hist|
    requires hist[a][x].device.spec.paused
    ensures hist[b][x].device.spec.paused
    decreases b
  {
    if a < b {
      PausedOn(hist, k, a, b - 1, x);
    }
  }

  /** When the tripped pass is through, every device it listed is paused. */
  lemma DonePaused(s: Sys, ro: RolloutSpec, k: nat, x: nat)
    requires Inv(s, ro) && FreezeDone(s, k) && x < |s.hist[0]| && PauseKept(s.hist, k, x)
    ensures x < |Last(s.hist)| && Last(s.hist)[x].device.spec.paused
  {
    var n := |s.hist| - 1;
    assert FrozenSince(s.hist, k, x);
    assert SameNames(Last(s.hist), s.hist[0]);
    if s.hist[k][x].device.spec.paused {
      PausedOn(s.hist, k, k, n, x);
    } else {
      var b :| k <= b < n && s.hist[b][x] == s.hist[k][x] && s.hist[b + 1][x].rv > s.hist[b][x].rv
               && s.hist[b + 1][x].device.spec.paused;
      PausedOn(s.hist, k, b + 1, n, x);
    }
  }

  /**
   Breaker freeze: after a tripped pass has completed, every device it selected stays paused and no
   step of this controller changes its desired version, until someone else clears the flag.
   */
  lemma BreakerFreeze(ss: seq<Sys>, es: seq<Event>, ro: RolloutSpec, fleet: seq<Item>, k: nat, m: nat, n: nat, x: nat)
    requires RunFrom(ss, es, ro, fleet) && m <= n < |ss| && x < |fleet|
    requires FreezeDone(ss[m], k) && NobodyUnpauses(ss, es, ro, k, x)
    ensures x < |Last(ss[n].hist)| && Last(ss[n].hist)[x].device.spec.paused
    ensures n < |es| && !es[n].Change? ==>
              && x < |Last(ss[n + 1].hist)|
              && Last(ss[n + 1].hist)[x].device.spec.desired == Last(ss[n].hist)[x].device.spec.desired
  {
    RunKeepsPause(ss, es, ro, fleet, k, x, m);
    DonePaused(ss[m], ro, k, x);
    RunKeepsPause(ss, es, ro, fleet, k, x, n);
    HistoryGrows(ss, es, ro, m, n);
    assert ss[n].hist[|ss[m].hist| - 1] == Last(ss[m].hist);
    assert SameNames(Last(ss[n].hist), fleet);
    PausedOn(ss[n].hist, k, |ss[m].hist| - 1, |ss[n].hist| - 1, x);
    if n < |es| {
      StepMoves(ss[n], es[n], x, ro);
    }
  }

  // ---- What is pushed belongs together ----

  /** A device sent to the target fetches the rollout's own image and checks the rollout's own digest. */
  predicate Coherent(spec: Spec, ro: RolloutSpec) {
    spec.desired == ro.target ==> spec.url == ro.url && spec.checksum == ro.checksum
  }

  /**
   In every run in which others keep their specs coherent, so does the controller, whatever snapshot
   it works from and wherever it stops: no device is ever told the target with another image.
   */
  lemma {:induction false} PackageStaysTogether(ss: seq<Sys>, es: seq<Event>, ro: RolloutSpec, fleet: seq<Item>, n: nat, x: nat)
    requires RunFrom(ss, es, ro, fleet) && n < |ss| && x < |fleet| && Coherent(fleet[x].device.spec, ro)
    requires forall i | 0 <= i < |es| && es[i].Change? && es[i].dev == x :: Coherent(es[i].device.spec, ro)
    ensures x < |Last(ss[n].hist)| && Coherent(Last(ss[n].hist)[x].device.spec, ro)
  {
    if n > 0 {
      PackageStaysTogether(ss, es, ro, fleet, n - 1, x);
      RunFacts(ss, es, ro, fleet, n - 1);
      StepMoves(ss[n - 1], es[n - 1], x, ro);
    }
  }
}
