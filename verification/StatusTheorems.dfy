/** What holds of the device object in every interleaving of the writers of StatusStores. */
module StatusTheorems {
  import opened Wrappers
  import opened Devices
  import opened StatusStores

  /** The given writes applied one after another, each to the result of the one before. */
  function Replay(dev: Device, ws: seq<Write>): Device
    decreases |ws|
  {
    if ws == [] then dev else ApplyWrite(ws[|ws| - 1], Replay(dev, ws[..|ws| - 1]))
  }

  lemma {:induction false} FirstVersionStays(s: Sys, es: seq<Event>)
    requires s.versions != []
    ensures Run(s, es).versions[0] == s.versions[0]
    decreases |es|
  {
    if es != [] {
      FirstVersionStays(s, es[..|es| - 1]);
    }
  }

  lemma {:induction false} VersionIsReplay(s: Sys, n: nat)
    requires s.versions != [] && HistoryOk(s) && n <= |s.log|
    ensures s.versions[n] == Replay(s.versions[0], s.log[..n])
  {
    if n > 0 {
      VersionIsReplay(s, n - 1);
      assert s.log[..n][..n - 1] == s.log[..n - 1];
      assert s.versions[n - 1 + 1] == ApplyWrite(s.log[n - 1], s.versions[n - 1]);
    }
  }

  /**
   No lost update: every version is the replay of exactly the writes before it in resourceVersion
   order; a call that reports success wrote once, any other call wrote nothing, and no call makes
   more than five PUTs.
   */
  lemma NoLostUpdate(s0: Sys, es: seq<Event>)
    requires NewProcess(s0)
    ensures var s := Run(s0, es);
            && |s.versions| == |s.log| + 1
            && (forall n | 0 <= n <= |s.log| :: s.versions[n] == Replay(s0.versions[0], s.log[..n]))
            && (forall id | id in s.calls ::
                  && Writes(s.log, id) == (if s.calls[id].pc.Succeeded? then 1 else 0)
                  && s.calls[id].puts <= 5)
            && (forall i | 0 <= i < |s.log| && s.log[i].AgentWrite? :: s.log[i].call in s.calls)
  {
    FreshInv(s0);
    RunKeepsInv(s0, es);
    FirstVersionStays(s0, es);
    var s := Run(s0, es);
    forall n | 0 <= n <= |s.log| ensures s.versions[n] == Replay(s0.versions[0], s.log[..n]) {
      VersionIsReplay(s, n);
    }
    forall id | id in s.calls
      ensures Writes(s.log, id) == (if s.calls[id].pc.Succeeded? then 1 else 0) && s.calls[id].puts <= 5
    {
      assert CallOk(s, id, s.calls[id]);
    }
  }

  /** From the process's first status write on, the stored observedGeneration only grows ... */
  lemma {:induction false} ObservedNeverDecreases(s: Sys, i: nat, j: nat)
    requires Inv(s) && 0 < i <= j <= |s.log| && s.log[i - 1].AgentWrite?
    ensures s.versions[i].status.observedGeneration <= s.versions[j].status.observedGeneration
    ensures s.versions[j].status.observedGeneration <= s.versions[j].generation
    decreases j
  {
    assert s.versions[j - 1 + 1] == ApplyWrite(s.log[j - 1], s.versions[j - 1]);
    assert s.versions[i - 1 + 1] == ApplyWrite(s.log[i - 1], s.versions[i - 1]);
    if !s.log[j - 1].AgentWrite? {
      ObservedNeverDecreases(s, i, j - 1);
    }
  }

  /** ... in every interleaving of its goroutines with the other writers, and never runs ahead of the spec. */
  lemma MonotoneObservedGeneration(s0: Sys, es: seq<Event>, i: nat, j: nat)
    requires NewProcess(s0)
    requires var s := Run(s0, es); 0 < i <= j <= |s.log| && s.log[i - 1].AgentWrite?
    ensures var s := Run(s0, es);
            && |s.versions| == |s.log| + 1
            && s.versions[i].status.observedGeneration <= s.versions[j].status.observedGeneration
            && s.versions[j].status.observedGeneration <= s.versions[j].generation
  {
    FreshInv(s0);
    RunKeepsInv(s0, es);
    ObservedNeverDecreases(Run(s0, es), i, j);
  }

  // ---- Disjoint writers ----

  /** The fields the agent owns. */
  datatype AgentView = AgentView(current: string, slot: string, heartbeat: Option<int>,
                                 observedGeneration: int, synced: Option<Condition>)

  function AgentViewOf(st: Status): AgentView {
    AgentView(st.current, st.slot, st.heartbeat, st.observedGeneration, Find(st.conditions, FIRMWARE_SYNCED))
  }

  /** The effect of an agent write on its own fields, with no other field in sight. */
  function ViewAfter(w: Write, v: AgentView): AgentView {
    match w
    case AgentWrite(_, m, gen) =>
      var c := SyncedBy(m, gen);
      var v' := v.(observedGeneration := gen,
                   synced := if c.Some? then Some(Merged(v.synced, c.value)) else v.synced);
      (match m
       case Heartbeat(at) => v'.(heartbeat := Some(at))
       case Steady(cur, slot, _) => v'.(current := cur, slot := slot)
       case Complete(ver, slot, _) => v'.(current := ver, slot := slot)
       case _ => v')
    case _ => v
  }

  function ReplayView(v: AgentView, ws: seq<Write>): AgentView
    decreases |ws|
  {
    if ws == [] then v else ViewAfter(ws[|ws| - 1], ReplayView(v, ws[..|ws| - 1]))
  }

  lemma WriteActsOnView(w: Write, dev: Device)
    ensures AgentViewOf(ApplyWrite(w, dev).status) == ViewAfter(w, AgentViewOf(dev.status))
  {
    match w {
      case AgentWrite(_, m, gen) =>
        if SyncedBy(m, gen).Some? {
          UpsertFinds(dev.status.conditions, SyncedBy(m, gen).value, FIRMWARE_SYNCED);
        }
      case OperatorWrite(now, timeout) =>
        UpsertFinds(dev.status.conditions, HealthOf(dev, now, timeout), FIRMWARE_SYNCED);
      case SpecWrite(_) =>
    }
  }

  lemma AgentLeavesOperatorFields(w: Write, dev: Device)
    requires w.AgentWrite?
    ensures var st := ApplyWrite(w, dev).status;
            st.phase == dev.status.phase && Find(st.conditions, HEALTHY) == Find(dev.status.conditions, HEALTHY)
  {
    if SyncedBy(w.mutation, w.gen).Some? {
      UpsertFinds(dev.status.conditions, SyncedBy(w.mutation, w.gen).value, HEALTHY);
    }
  }

  lemma WriteKeepsUnique(w: Write, dev: Device)
    requires UniqueTypes(dev.status.conditions)
    ensures UniqueTypes(ApplyWrite(w, dev).status.conditions)
  {
    match w {
      case AgentWrite(_, m, gen) =>
        if SyncedBy(m, gen).Some? {
          UpsertKeepsUnique(dev.status.conditions, SyncedBy(m, gen).value);
        }
      case OperatorWrite(now, timeout) =>
        UpsertKeepsUnique(dev.status.conditions, HealthOf(dev, now, timeout));
      case SpecWrite(_) =>
    }
  }

  lemma {:induction false} ReplayActsOnView(dev: Device, ws: seq<Write>)
    ensures AgentViewOf(Replay(dev, ws).status) == ReplayView(AgentViewOf(dev.status), ws)
    ensures UniqueTypes(dev.status.conditions) ==> UniqueTypes(Replay(dev, ws).status.conditions)
    decreases |ws|
  {
    if ws != [] {
      ReplayActsOnView(dev, ws[..|ws| - 1]);
      var prev := Replay(dev, ws[..|ws| - 1]);
      WriteActsOnView(ws[|ws| - 1], prev);
      if UniqueTypes(prev.status.conditions) {
        WriteKeepsUnique(ws[|ws| - 1], prev);
      }
    }
  }

  function AgentWrites(ws: seq<Write>): seq<Write>
    decreases |ws|
  {
    if ws == [] then []
    else
      var rest := AgentWrites(ws[..|ws| - 1]);
      if ws[|ws| - 1].AgentWrite? then rest + [ws[|ws| - 1]] else rest
  }

  lemma {:induction false} OthersDoNotCount(v: AgentView, ws: seq<Write>)
    ensures ReplayView(v, ws) == ReplayView(v, AgentWrites(ws))
    decreases |ws|
  {
    if ws != [] {
      OthersDoNotCount(v, ws[..|ws| - 1]);
      var rest, last := AgentWrites(ws[..|ws| - 1]), ws[|ws| - 1];
      if last.AgentWrite? {
        assert (rest + [last])[..|rest|] == rest;
      }
    }
  }

  /**
   Writers never fight: in every version the agent's fields are what its own writes alone make of
   them, the condition list has one entry per type, and right after an operator write the phase and
   the Healthy condition are the projection of the facts stored in that very version.
   */
  lemma WritersDisjointAndCoherent(s0: Sys, es: seq<Event>, n: nat)
    requires NewProcess(s0) && UniqueTypes(s0.versions[0].status.conditions) && n <= |Run(s0, es).log|
    ensures var s := Run(s0, es);
            && |s.versions| == |s.log| + 1
            && AgentViewOf(s.versions[n].status)
               == ReplayView(AgentViewOf(s0.versions[0].status), AgentWrites(s.log[..n]))
            && UniqueTypes(s.versions[n].status.conditions)
            && (n > 0 && s.log[n - 1].OperatorWrite? ==>
                  var dev, w := s.versions[n], s.log[n - 1];
                  && dev.status.phase == PhaseOf(dev, w.now, w.timeout)
                  && Find(dev.status.conditions, HEALTHY).Some?
                  && Find(dev.status.conditions, HEALTHY).value.(lastTransition := 0)
                     == HealthOf(dev, w.now, w.timeout).(lastTransition := 0)
                  && Speaks(dev, dev.status.heartbeat, FirmwareFailed(dev.status.conditions),
                            dev.status.current == dev.spec.desired, w.now, w.timeout))
  {
    FreshInv(s0);
    RunKeepsInv(s0, es);
    FirstVersionStays(s0, es);
    var s := Run(s0, es);
    VersionIsReplay(s, n);
    ReplayActsOnView(s0.versions[0], s.log[..n]);
    OthersDoNotCount(AgentViewOf(s0.versions[0].status), s.log[..n]);
    if n > 0 && s.log[n - 1].OperatorWrite? {
      assert s.versions[n - 1 + 1] == ApplyWrite(s.log[n - 1], s.versions[n - 1]);
      WrittenIsProjection(s.versions[n - 1], s.log[n - 1].now, s.log[n - 1].timeout);
    }
  }

  // ---- What the operator makes of the agent's reports ----

  /**
   A terminal failure shows, progress does not: after an agent write the device counts as failed
   exactly if that write reported a failure, or was a heartbeat on top of a failure still reported.
   */
  lemma FailureShows(dev: Device, call: nat, m: Mutation, gen: int)
    ensures FirmwareFailed(ApplyWrite(AgentWrite(call, m, gen), dev).status.conditions) <==>
            match m
            case Heartbeat(_) => FirmwareFailed(dev.status.conditions)
            case ReportFailure(reason, _, _) => reason != IN_PROGRESS
            case _ => false
  {
    var c := SyncedBy(m, gen);
    if c.Some? {
      UpsertFinds(dev.status.conditions, c.value, FIRMWARE_SYNCED);
    }
  }

  /** FirmwareSynced is true after a device has reached its version, false from an announcement or failure on. */
  lemma SyncedShows(dev: Device, call: nat, m: Mutation, gen: int)
    ensures var before := Find(dev.status.conditions, FIRMWARE_SYNCED);
            var after := Find(ApplyWrite(AgentWrite(call, m, gen), dev).status.conditions, FIRMWARE_SYNCED);
            if m.Heartbeat? then after == before
            else && after.Some? && after.value.observedGeneration == gen
                 && after.value.status == (if m.Complete? || m.Steady? then CondTrue else CondFalse)
                 && after.value.lastTransition ==
                    (if before.Some? && before.value.status == after.value.status then before.value.lastTransition else m.at)
                 && (m.Announce? ==> after.value.reason == "UpgradeInProgress")
                 && (m.ReportFailure? ==> after.value.reason == m.reason)
  {
    if SyncedBy(m, gen).Some? {
      TimeMovesOnFlips(dev.status.conditions, SyncedBy(m, gen).value);
    } else {
      assert ApplyWrite(AgentWrite(call, m, gen), dev).status.conditions == dev.status.conditions;
    }
  }

  /** While its heartbeat is fresh, a device is Upgrading from announcement to outcome, then Ready or Degraded. */
  lemma OutcomeShows(dev: Device, call: nat, m: Mutation, gen: int, now: int, timeout: int)
    requires Fresh(dev.status.heartbeat, now, timeout)
    ensures var p := PhaseOf(ApplyWrite(AgentWrite(call, m, gen), dev), now, timeout);
            match m
            case Announce(_, _) => p == if dev.status.current == dev.spec.desired then Ready else Upgrading
            case ReportFailure(reason, _, _) => reason != IN_PROGRESS ==> p == Degraded
            case Complete(version, _, _) => p == if version == dev.spec.desired then Ready else Upgrading
            case Steady(current, _, _) => p == if current == dev.spec.desired then Ready else Upgrading
            case Heartbeat(at) => now - at <= timeout ==> p == PhaseOf(dev, now, timeout)
  {
    FailureShows(dev, call, m, gen);
  }

  // ---- What happens when nobody interferes ----

  /** A conflict is retried by a new GET, four times; the fifth conflict ends the call. */
  lemma ConflictIsRetried(s: Sys, id: nat)
    requires s.versions != [] && id in s.calls && s.calls[id].pc.Putting? && s.calls[id].pc.rv != s.Latest()
    ensures var c, c' := s.calls[id], Step(s, Put(id)).calls[id];
            && c'.conflicts == c.conflicts + 1 && c'.puts == c.puts + 1
            && (c'.pc == Getting <==> c.conflicts < 4) && (c'.pc == GaveUp <==> c.conflicts >= 4)
            && Step(s, Put(id)).versions == s.versions
  {
  }

  /** An undisturbed call stores its mutation, stamped with the generation seen, in one PUT. */
  lemma CallAlone(s: Sys, id: nat, m: Mutation)
    requires s.versions != [] && id !in s.calls
    ensures var s1 := Step(s, Begin(id, m));
            s1.versions != [] &&
            var s2 := Step(s1, Get(id));
            s2.versions != [] &&
            var s3 := Step(s2, Mutate(id));
            s3.versions != [] &&
            var r := Step(s3, Put(id));
            && r.versions == s.versions + [ApplyWrite(AgentWrite(id, m, s.seen), s.versions[s.Latest()])]
            && r.log == s.log + [AgentWrite(id, m, s.seen)]
            && id in r.calls && r.calls[id].pc == Succeeded && r.calls[id].puts == 1
  {
    var s1 := Step(s, Begin(id, m));
    assert s1.calls[id] == Call(m, 0, 0, Getting);
    var s2 := Step(s1, Get(id));
    assert s2.calls[id] == Call(m, 0, 0, Deciding(s.Latest()));
    var s3 := Step(s2, Mutate(id));
    assert s3.calls[id].pc.Putting?;
  }

  /** A poll takes over the generation of the latest object, and each report then carries it. */
  lemma PollAlone(s: Sys)
    requires s.versions != []
    ensures var r := Step(Step(s, PollGet), PollStore);
            && r.seen == s.versions[s.Latest()].generation
            && r.versions == s.versions && r.log == s.log && r.calls == s.calls
  {
  }

  /** An operator pass on the latest object leaves it speaking the truth; a spec write is a new generation. */
  lemma PassesAndUsersAct(s: Sys, now: int, timeout: int, spec: Spec)
    requires s.versions != []
    ensures var r, dev := Step(s, OperatorPass(s.Latest(), now, timeout)), s.versions[s.Latest()];
            r.versions != [] &&
            Speaks(r.versions[r.Latest()], dev.status.heartbeat, FirmwareFailed(dev.status.conditions),
                   dev.status.current == dev.spec.desired, now, timeout)
    ensures var r, dev := Step(s, UserWrite(spec)), s.versions[s.Latest()];
            r.versions != [] && r.versions[r.Latest()] == dev.(spec := spec, generation := dev.generation + 1)
  {
    StatusSpeaks(s.versions[s.Latest()], now, timeout);
  }
}
