/**
 The EdgeDevice object and its condition list, with the operator's projection of phase and
 health from the facts in the object (internal/controller/edgedevice_controller.go).
 */
module Devices {
  import opened Wrappers

  datatype CondStatus = CondTrue | CondFalse | CondUnknown

  datatype Condition = Condition(ctype: string, status: CondStatus, reason: string, message: string,
                                 observedGeneration: int, lastTransition: int)

  datatype DevicePhase = NoPhase | Provisioning | Ready | Upgrading | Degraded

  datatype Status = Status(phase: DevicePhase, conditions: seq<Condition>, current: string, slot: string,
                           heartbeat: Option<int>, observedGeneration: int)

  datatype Spec = Spec(desired: string, url: string, checksum: string, paused: bool)

  datatype Device = Device(generation: int, spec: Spec, status: Status)

  const HEALTHY := "Healthy"
  const FIRMWARE_SYNCED := "FirmwareSynced"
  const IN_PROGRESS := "UpgradeInProgress"
  const SECOND := 1_000_000_000
  const DEFAULT_TIMEOUT := 30 * SECOND

  // ---- Conditions ----

  function Find(cs: seq<Condition>, ctype: string): Option<Condition>
    decreases |cs|
  {
    if cs == [] then None
    else if cs[0].ctype == ctype then Some(cs[0])
    else Find(cs[1..], ctype)
  }

  /** The transition time moves only when the status value flips. */
  function Merged(found: Option<Condition>, c: Condition): Condition {
    if found.Some? && found.value.status == c.status
    then c.(lastTransition := found.value.lastTransition)
    else c
  }

  /** SetCondition and meta.SetStatusCondition: update the first entry of the type, or append. */
  function Upsert(cs: seq<Condition>, c: Condition): seq<Condition>
    decreases |cs|
  {
    if cs == [] then [c]
    else if cs[0].ctype == c.ctype then [Merged(Some(cs[0]), c)] + cs[1..]
    else [cs[0]] + Upsert(cs[1..], c)
  }

  predicate UniqueTypes(cs: seq<Condition>) {
    forall i, j | 0 <= i < j < |cs| :: cs[i].ctype != cs[j].ctype
  }

  lemma {:induction false} FindIsMember(cs: seq<Condition>, ctype: string)
    ensures Find(cs, ctype).None? <==> forall i | 0 <= i < |cs| :: cs[i].ctype != ctype
    decreases |cs|
  {
    if cs != [] {
      FindIsMember(cs[1..], ctype);
      assert forall i | 0 < i < |cs| :: cs[i] == cs[1..][i - 1];
      if cs[0].ctype != ctype && Find(cs[1..], ctype).Some? {
        var i :| 0 <= i < |cs[1..]| && cs[1..][i].ctype == ctype;
        assert cs[i + 1].ctype == ctype;
      }
    }
  }

  /** An upsert sets exactly one entry and leaves what is found under every other type. */
  lemma {:induction false} UpsertFinds(cs: seq<Condition>, c: Condition, ctype: string)
    ensures Find(Upsert(cs, c), ctype) ==
            if ctype == c.ctype then Some(Merged(Find(cs, ctype), c)) else Find(cs, ctype)
    decreases |cs|
  {
    if cs != [] && cs[0].ctype != c.ctype {
      UpsertFinds(cs[1..], c, ctype);
      assert Upsert(cs, c)[1..] == Upsert(cs[1..], c);
    } else if cs != [] {
      assert Upsert(cs, c)[1..] == cs[1..];
    }
  }

  /** The entry carries what was set, and its transition time moves exactly when its status value flips or is new. */
  lemma TimeMovesOnFlips(cs: seq<Condition>, c: Condition)
    ensures var before, after := Find(cs, c.ctype), Find(Upsert(cs, c), c.ctype);
            && after.Some? && after.value.status == c.status && after.value.reason == c.reason
            && after.value.message == c.message && after.value.observedGeneration == c.observedGeneration
            && after.value.lastTransition ==
               if before.Some? && before.value.status == c.status then before.value.lastTransition else c.lastTransition
  {
    UpsertFinds(cs, c, c.ctype);
  }

  lemma {:induction false} UpsertKeepsTypes(cs: seq<Condition>, c: Condition)
    ensures |Upsert(cs, c)| == |cs| + if Find(cs, c.ctype).None? then 1 else 0
    ensures forall i | 0 <= i < |cs| :: Upsert(cs, c)[i].ctype == cs[i].ctype
    ensures Find(cs, c.ctype).None? ==> Upsert(cs, c)[|cs|].ctype == c.ctype
    decreases |cs|
  {
    if cs != [] && cs[0].ctype != c.ctype {
      UpsertKeepsTypes(cs[1..], c);
    }
  }

  lemma UpsertKeepsUnique(cs: seq<Condition>, c: Condition)
    requires UniqueTypes(cs)
    ensures UniqueTypes(Upsert(cs, c))
  {
    UpsertKeepsTypes(cs, c);
    FindIsMember(cs, c.ctype);
  }

  /** SetCondition as the agent writes it, a loop over the slice. */
  method SetCondition(cs: seq<Condition>, c: Condition) returns (out: seq<Condition>)
    ensures out == Upsert(cs, c)
  {
    out := cs;
    for i := 0 to |cs|
      invariant out == cs && Upsert(cs, c) == cs[..i] + Upsert(cs[i..], c)
    {
      if out[i].ctype == c.ctype {
        out := out[i := Merged(Some(out[i]), c)];
        assert out == cs[..i] + ([Merged(Some(cs[i]), c)] + cs[i..][1..]);
        return;
      }
      assert cs[i..][1..] == cs[i + 1..] && cs[..i] + [cs[i]] == cs[..i + 1];
      assert cs[..i] + ([cs[i]] + Upsert(cs[i + 1..], c)) == cs[..i + 1] + Upsert(cs[i + 1..], c);
    }
    assert cs[|cs|..] == [] && cs[..|cs|] == cs;
    out := out + [c];
  }

  // ---- Projection ----

  /** The agent reported a terminal failure of its transaction. */
  predicate FirmwareFailed(cs: seq<Condition>) {
    var c := Find(cs, FIRMWARE_SYNCED);
    c.Some? && c.value.status == CondFalse && c.value.reason != IN_PROGRESS
  }

  predicate Fresh(heartbeat: Option<int>, now: int, timeout: int) {
    heartbeat.Some? && now - heartbeat.value <= timeout
  }

  function PhaseOf(dev: Device, now: int, timeout: int): DevicePhase {
    if dev.status.heartbeat.None? then Provisioning
    else if now - dev.status.heartbeat.value > timeout then Degraded
    else if FirmwareFailed(dev.status.conditions) then Degraded
    else if dev.status.current != dev.spec.desired then Upgrading
    else Ready
  }

  function HealthOf(dev: Device, now: int, timeout: int): Condition {
    if dev.status.heartbeat.None? then
      Condition(HEALTHY, CondUnknown, "AwaitingFirstHeartbeat", "device has not reported in yet", dev.generation, now)
    else if now - dev.status.heartbeat.value > timeout then
      Condition(HEALTHY, CondFalse, "HeartbeatTimeout", "no heartbeat", dev.generation, now)
    else
      Condition(HEALTHY, CondTrue, "HeartbeatFresh", "agent is reporting", dev.generation, now)
  }

  /** projectStatus: start from the reported facts; only Phase and Healthy are derived. */
  function Projected(dev: Device, now: int, timeout: int): Status {
    dev.status.(phase := PhaseOf(dev, now, timeout),
                conditions := Upsert(dev.status.conditions, HealthOf(dev, now, timeout)))
  }

  /** When the operator asks to be woken: at the expiry of a fresh heartbeat plus one second. */
  function RequeueAfter(dev: Device, now: int, timeout: int): int {
    if Fresh(dev.status.heartbeat, now, timeout) then
      var remaining := timeout - (now - dev.status.heartbeat.value) + SECOND;
      if remaining > 0 then remaining else timeout
    else timeout
  }

  /** statusEqual: the gate before a status write. */
  predicate StatusEqual(a: Status, b: Status) {
    var ca, cb := Find(a.conditions, HEALTHY), Find(b.conditions, HEALTHY);
    && a.phase == b.phase
    && ca.Some? == cb.Some?
    && (ca.Some? ==>
          && ca.value.status == cb.value.status
          && ca.value.reason == cb.value.reason
          && ca.value.observedGeneration == cb.value.observedGeneration)
  }

  /** What the operator stores: phase and conditions of the projection over the object it read. */
  function OperatorWritten(dev: Device, now: int, timeout: int): Device {
    var p := Projected(dev, now, timeout);
    dev.(status := dev.status.(phase := p.phase, conditions := p.conditions))
  }

  /** The operator never changes a fact it projects from, so a written object projects to itself. */
  lemma WrittenIsProjection(dev: Device, now: int, timeout: int)
    ensures var w := OperatorWritten(dev, now, timeout);
            && w.status.phase == PhaseOf(w, now, timeout)
            && Find(w.status.conditions, HEALTHY).Some?
            && (var c, p := Find(w.status.conditions, HEALTHY).value, HealthOf(w, now, timeout);
                c.(lastTransition := 0) == p.(lastTransition := 0))
            && StatusEqual(w.status, Projected(w, now, timeout))
  {
    var h := HealthOf(dev, now, timeout);
    var w := OperatorWritten(dev, now, timeout);
    UpsertFinds(dev.status.conditions, h, HEALTHY);
    UpsertFinds(dev.status.conditions, h, FIRMWARE_SYNCED);
    UpsertFinds(w.status.conditions, h, HEALTHY);
  }

  /**
   Behind the gate: after a pass, written or skipped, the stored phase and the Healthy condition,
   with the generation it was judged for, are those of the projection.
   */
  lemma PassLeavesProjection(dev: Device, now: int, timeout: int)
    ensures var d := if StatusEqual(dev.status, Projected(dev, now, timeout)) then dev
                     else OperatorWritten(dev, now, timeout);
            var c, p := Find(d.status.conditions, HEALTHY), HealthOf(dev, now, timeout);
            && d.status.phase == PhaseOf(dev, now, timeout) && c.Some?
            && c.value.status == p.status && c.value.reason == p.reason
            && c.value.observedGeneration == dev.generation
  {
    UpsertFinds(dev.status.conditions, HealthOf(dev, now, timeout), HEALTHY);
  }

  /** The facts behind a phase and a health. */
  predicate Speaks(d: Device, heartbeat: Option<int>, failed: bool, synced: bool, now: int, timeout: int) {
    var c := Find(d.status.conditions, HEALTHY);
    var live := heartbeat.Some? && now - heartbeat.value <= timeout;
    var silent := heartbeat.Some? && now - heartbeat.value > timeout;
    && (d.status.phase == Provisioning <==> heartbeat.None?)
    && (d.status.phase == Degraded <==> silent || (live && failed))
    && (d.status.phase == Upgrading <==> live && !failed && !synced)
    && (d.status.phase == Ready <==> live && !failed && synced)
    && c.Some?
    && (c.value.status == CondUnknown <==> heartbeat.None?) && (c.value.reason == "AwaitingFirstHeartbeat" <==> heartbeat.None?)
    && (c.value.status == CondTrue <==> live) && (c.value.reason == "HeartbeatFresh" <==> live)
    && (c.value.status == CondFalse <==> silent) && (c.value.reason == "HeartbeatTimeout" <==> silent)
  }

  /**
   What a device object says after a pass, written or skipped: no heartbeat yet is enrolment; silence
   past the timeout is unhealthy and Degraded; a live device is healthy, and Degraded, Upgrading or
   Ready by what its agent reports.
   */
  lemma StatusSpeaks(dev: Device, now: int, timeout: int)
    ensures var d := if StatusEqual(dev.status, Projected(dev, now, timeout)) then dev
                     else OperatorWritten(dev, now, timeout);
            Speaks(d, dev.status.heartbeat, FirmwareFailed(dev.status.conditions),
                   dev.status.current == dev.spec.desired, now, timeout)
  {
    PassLeavesProjection(dev, now, timeout);
  }

  /** The transition time of the Healthy condition is when health last changed. */
  lemma HealthIsTimed(dev: Device, now: int, timeout: int)
    ensures var before := Find(dev.status.conditions, HEALTHY);
            var after := Find(OperatorWritten(dev, now, timeout).status.conditions, HEALTHY);
            && after.Some?
            && after.value.lastTransition ==
               if before.Some? && before.value.status == after.value.status then before.value.lastTransition else now
  {
    TimeMovesOnFlips(dev.status.conditions, HealthOf(dev, now, timeout));
  }
}
