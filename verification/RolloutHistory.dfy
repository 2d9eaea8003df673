/**
 A rollout over time: the history of a fixed fleet in the API server, serial reconcile passes that
 work from any past snapshot and write one conditional update at a time, and changes to devices by
 agents, the device operator and users in between.
 */
module RolloutHistories {
  import opened Wrappers
  import opened Devices
  import opened Rollouts

  /** A pass under way: the version it read, its branch, and the devices still to write. */
  datatype Pass = Pass(snap: nat, branch: Branch, plan: seq<nat>)

  datatype Sys = Sys(hist: seq<seq<Item>>, pass: Option<Pass>)

  datatype Event =
    | Begin(snap: nat)           // list the fleet as it was at some point of the history
    | Write                      // the next update of the pass, refused on a conflict
    | WriteFails(effect: bool)   // an API error; the update may have been applied
    | Finish                     // no write left
    | Restart                    // the controller dies mid-pass
    | Change(dev: nat, device: Device)

  function Last(hist: seq<seq<Item>>): seq<Item>
    requires hist != []
  {
    hist[|hist| - 1]
  }

  function Changed(fleet: seq<Item>, x: nat, d: Device): seq<Item>
    requires x < |fleet|
  {
    fleet[x := fleet[x].(rv := fleet[x].rv + 1, device := d)]
  }

  function Attempt(s: Sys, ro: RolloutSpec): Option<seq<Item>>
    requires s.hist != [] && s.pass.Some? && s.pass.value.plan != []
  {
    var p := s.pass.value;
    if p.snap < |s.hist| && p.plan[0] < |s.hist[p.snap]| then
      var item := s.hist[p.snap][p.plan[0]];
      Updated(Last(s.hist), item, Edited(item.device.spec, p.branch, ro))
    else None
  }

  function Step(s: Sys, e: Event, ro: RolloutSpec): (r: Sys)
    requires s.hist != []
    ensures r.hist != []
  {
    match e
    case Begin(k) =>
      if s.pass.None? && k < |s.hist| then
        s.(pass := Some(Pass(k, BranchOf(s.hist[k], ro), Plan(s.hist[k], ro))))
      else s
    case Write =>
      if s.pass.None? || s.pass.value.plan == [] then s
      else
        var next := Attempt(s, ro);
        if next.None? then s.(pass := None)
        else Sys(s.hist + [next.value], Some(s.pass.value.(plan := s.pass.value.plan[1..])))
    case WriteFails(effect) =>
      if s.pass.None? || s.pass.value.plan == [] then s
      else
        var next := Attempt(s, ro);
        Sys(if effect && next.Some? then s.hist + [next.value] else s.hist, None)
    case Finish => if s.pass.Some? && s.pass.value.plan == [] then s.(pass := None) else s
    case Restart => s.(pass := None)
    case Change(x, d) => if x < |Last(s.hist)| then s.(hist := s.hist + [Changed(Last(s.hist), x, d)]) else s
  }

  predicate IsRun(ss: seq<Sys>, es: seq<Event>, ro: RolloutSpec) {
    && |ss| == |es| + 1
    && (forall i | 0 <= i < |ss| :: ss[i].hist != [])
    && forall i | 0 <= i < |es| :: ss[i + 1] == Step(ss[i], es[i], ro)
  }

  // ---- What holds whatever the others do ----

  predicate SameNames(f: seq<Item>, g: seq<Item>) {
    |f| == |g| && forall x | 0 <= x < |f| :: f[x].name == g[x].name
  }

  /** An item later on: versions only grow, and equal versions mean the same content. */
  predicate Ages(i: Item, i': Item) {
    i.rv <= i'.rv && (i.rv == i'.rv ==> i == i')
  }

  /** One fleet, in name order; a device only changes together with its resourceVersion. */
  predicate HistOk(hist: seq<seq<Item>>) {
    && hist != [] && Sorted(hist[0])
    && (forall a | 0 <= a < |hist| :: SameNames(hist[a], hist[0]))
    && (forall a, b, x {:trigger Ages(hist[a][x], hist[b][x])} | 0 <= a <= b < |hist| && 0 <= x < |hist[0]| ::
          Ages(hist[a][x], hist[b][x]))
  }

  /** Device `x` is paused in some version from `k` on because the pass found it so or wrote it so. */
  predicate FrozenSince(hist: seq<seq<Item>>, k: nat, x: nat)
    requires HistOk(hist) && k < |hist| && x < |hist[0]|
  {
    || hist[k][x].device.spec.paused
    || exists b :: k <= b < |hist| - 1 && hist[b][x] == hist[k][x] && hist[b + 1][x].rv > hist[b][x].rv
                   && hist[b + 1][x].device.spec.paused
  }

  predicate PassOk(s: Sys, ro: RolloutSpec)
    requires HistOk(s.hist)
  {
    s.pass.Some? ==>
      var p := s.pass.value;
      && p.snap < |s.hist| && p.branch == BranchOf(s.hist[p.snap], ro)
      && (forall k | 0 <= k < |p.plan| :: p.plan[k] < |s.hist[0]|)
      && (p.branch.TopUp? ==> forall k | 0 <= k < |p.plan| :: Eligible(s.hist[p.snap][p.plan[k]].device, ro.target))
      && (p.branch.Finished? ==> p.plan == [])
      && (p.branch.Freeze? ==> forall x | 0 <= x < |s.hist[0]| && x !in p.plan :: FrozenSince(s.hist, p.snap, x))
  }

  predicate Inv(s: Sys, ro: RolloutSpec) {
    HistOk(s.hist) && PassOk(s, ro)
  }

  lemma SortedNames(f: seq<Item>, g: seq<Item>)
    requires Sorted(f) && SameNames(f, g)
    ensures Sorted(g)
  {
  }

  /** The next write succeeds exactly when the device has not moved since the snapshot. */
  lemma AttemptExactly(s: Sys, ro: RolloutSpec)
    requires Inv(s, ro) && s.pass.Some? && s.pass.value.plan != []
    ensures var p := s.pass.value;
            var x := p.plan[0];
            var f := Last(s.hist);
            var spec := Edited(s.hist[p.snap][x].device.spec, p.branch, ro);
            && (Attempt(s, ro).Some? <==> f[x].rv == s.hist[p.snap][x].rv)
            && (Attempt(s, ro).Some? ==>
                  && f[x] == s.hist[p.snap][x]
                  && Attempt(s, ro).value ==
                     Changed(f, x, f[x].device.(spec := spec, generation := f[x].device.generation + 1)))
  {
    var p := s.pass.value;
    SortedNames(s.hist[0], Last(s.hist));
    assert SameNames(s.hist[p.snap], s.hist[0]) && SameNames(Last(s.hist), s.hist[0]);
    IndexInSorted(Last(s.hist), p.plan[0]);
    assert Ages(s.hist[p.snap][p.plan[0]], s.hist[|s.hist| - 1][p.plan[0]]);
  }

  /** Extending the history by one device change keeps it well formed. */
  lemma AppendKeepsHist(hist: seq<seq<Item>>, x: nat, d: Device)
    requires HistOk(hist) && x < |hist[0]|
    ensures x < |Last(hist)| && HistOk(hist + [Changed(Last(hist), x, d)])
  {
    assert SameNames(Last(hist), hist[0]);
    var f := Changed(Last(hist), x, d);
    var more: seq<seq<Item>> := hist + [f];
    assert SameNames(f, hist[0]);
    forall a, b, y | 0 <= a <= b < |more| && 0 <= y < |more[0]|
      ensures Ages(more[a][y], more[b][y])
    {
      if b < |hist| {
        assert Ages(hist[a][y], hist[b][y]);
      } else if a < b {
        assert Ages(hist[a][y], hist[|hist| - 1][y]);
      }
    }
  }

  lemma FrozenStays(hist: seq<seq<Item>>, f: seq<Item>, k: nat, x: nat)
    requires HistOk(hist) && HistOk(hist + [f]) && k < |hist| && x < |hist[0]| && FrozenSince(hist, k, x)
    ensures FrozenSince(hist + [f], k, x)
  {
    var more: seq<seq<Item>> := hist + [f];
    if !hist[k][x].device.spec.paused {
      var b :| k <= b < |hist| - 1 && hist[b][x] == hist[k][x] && hist[b + 1][x].rv > hist[b][x].rv
               && hist[b + 1][x].device.spec.paused;
      assert more[b] == hist[b] && more[b + 1] == hist[b + 1];
    }
  }

  lemma ChangeKeepsInv(s: Sys, x: nat, d: Device, ro: RolloutSpec)
    requires Inv(s, ro) && x < |s.hist[0]|
    ensures Inv(s.(hist := s.hist + [Changed(Last(s.hist), x, d)]), ro)
  {
    AppendKeepsHist(s.hist, x, d);
    var f := Changed(Last(s.hist), x, d);
    if s.pass.Some? && s.pass.value.branch.Freeze? {
      forall y | 0 <= y < |s.hist[0]| && y !in s.pass.value.plan
        ensures FrozenSince(s.hist + [f], s.pass.value.snap, y)
      {
        FrozenStays(s.hist, f, s.pass.value.snap, y);
      }
    }
  }

  lemma WriteKeepsInv(s: Sys, ro: RolloutSpec)
    requires Inv(s, ro) && s.pass.Some? && s.pass.value.plan != [] && Attempt(s, ro).Some?
    ensures Inv(Step(s, Event.Write, ro), ro) && HistOk(s.hist + [Attempt(s, ro).value])
  {
    AttemptExactly(s, ro);
    var p, x := s.pass.value, s.pass.value.plan[0];
    var f := Attempt(s, ro).value;
    AppendKeepsHist(s.hist, x, f[x].device);
    assert SameNames(Last(s.hist), s.hist[0]);
    assert f == Changed(Last(s.hist), x, f[x].device);
    var more: seq<seq<Item>> := s.hist + [f];
    if p.branch.Freeze? {
      forall y | 0 <= y < |s.hist[0]| && y !in p.plan[1..]
        ensures FrozenSince(more, p.snap, y)
      {
        if y == x {
          var b := |s.hist| - 1;
          assert more[b] == Last(s.hist) && more[b + 1] == f;
          assert more[b][x] == more[p.snap][x] && more[b + 1][x].rv > more[b][x].rv;
        } else {
          assert y !in p.plan;
          FrozenStays(s.hist, f, p.snap, y);
        }
      }
    }
  }

  lemma BeginKeepsInv(s: Sys, k: nat, ro: RolloutSpec)
    requires Inv(s, ro) && s.pass.None? && k < |s.hist|
    ensures Inv(Step(s, Begin(k), ro), ro)
  {
    assert SameNames(s.hist[k], s.hist[0]);
  }

  lemma StepKeepsInv(s: Sys, e: Event, ro: RolloutSpec)
    requires Inv(s, ro)
    ensures Inv(Step(s, e, ro), ro)
  {
    match e {
      case Begin(k) => if s.pass.None? && k < |s.hist| { BeginKeepsInv(s, k, ro); }
      case Write =>
        if s.pass.Some? && s.pass.value.plan != [] && Attempt(s, ro).Some? { WriteKeepsInv(s, ro); }
      case WriteFails(_) =>
        if s.pass.Some? && s.pass.value.plan != [] && Attempt(s, ro).Some? { WriteKeepsInv(s, ro); }
      case Finish =>
      case Restart =>
      case Change(x, d) =>
        assert SameNames(Last(s.hist), s.hist[0]);
        if x < |s.hist[0]| { ChangeKeepsInv(s, x, d, ro); }
    }
  }

  lemma {:induction false} RunKeepsInv(ss: seq<Sys>, es: seq<Event>, ro: RolloutSpec, n: nat)
    requires IsRun(ss, es, ro) && Inv(ss[0], ro) && n < |ss|
    ensures Inv(ss[n], ro)
  {
    if n > 0 {
      RunKeepsInv(ss, es, ro, n - 1);
      StepKeepsInv(ss[n - 1], es[n - 1], ro);
    }
  }

  // ---- The link to Controller.Reconcile ----

  /** The writes of a pass with nobody in between. */
  function Drained(s: Sys, ro: RolloutSpec): (r: Sys)
    requires s.hist != []
    ensures r.hist != []
    decreases if s.pass.Some? then |s.pass.value.plan| else 0
  {
    if s.pass.None? || s.pass.value.plan == [] then s else Drained(Step(s, Write, ro), ro)
  }

  /** An uninterrupted pass leaves what Execute computes, and is abandoned exactly when a write is refused. */
  lemma {:induction false} DrainedIsExecute(s: Sys, ro: RolloutSpec)
    requires s.hist != [] && s.pass.Some? && s.pass.value.snap < |s.hist|
    requires forall k | 0 <= k < |s.pass.value.plan| :: s.pass.value.plan[k] < |s.hist[s.pass.value.snap]|
    ensures var p := s.pass.value;
            var x := Execute(Last(s.hist), s.hist[p.snap], p.plan, p.branch, ro);
            Last(Drained(s, ro).hist) == x.fleet && (Drained(s, ro).pass.Some? <==> x.ok)
    decreases |s.pass.value.plan|
  {
    var p := s.pass.value;
    if p.plan != [] && Attempt(s, ro).Some? {
      var s' := Step(s, Write, ro);
      assert s'.hist[p.snap] == s.hist[p.snap] && Last(s'.hist) == Attempt(s, ro).value;
      DrainedIsExecute(s', ro);
    }
  }

  /** Left alone, a pass comes to its end, and the next can begin. */
  lemma {:induction false} PassEnds(s: Sys, ro: RolloutSpec, k: nat)
    requires s.hist != []
    ensures var r := Step(Drained(s, ro), Finish, ro);
            && r.pass == None && s.hist <= r.hist
            && (k < |r.hist| ==>
                  Step(r, Begin(k), ro) == r.(pass := Some(Pass(k, BranchOf(r.hist[k], ro), Plan(r.hist[k], ro)))))
    decreases if s.pass.Some? then |s.pass.value.plan| else 0
  {
    if s.pass.Some? && s.pass.value.plan != [] {
      PassEnds(Step(s, Write, ro), ro, k);
    }
  }

  /** What goes wrong does go wrong: others' changes, effects without an answer, and restarts. */
  lemma EnvironmentActs(s: Sys, x: nat, d: Device, effect: bool, ro: RolloutSpec)
    requires s.hist != [] && x < |Last(s.hist)|
    ensures Step(s, Change(x, d), ro) == s.(hist := s.hist + [Changed(Last(s.hist), x, d)])
    ensures Step(s, Restart, ro) == s.(pass := None)
    ensures s.pass.Some? && s.pass.value.plan != [] ==>
              Step(s, WriteFails(effect), ro) == (if effect then Step(s, Write, ro) else s).(pass := None)
  {
  }
}
