/**
 Health over time (internal/controller/edgedevice_controller.go): clock, operator passes and the
 wake-ups they ask for, agent and user writes in between.
 */
module HeartbeatDeadlines {
  import opened Devices
  import opened StatusStores

  /** `wakes` are the requested wake-ups still to come. */
  datatype Sys = Sys(now: int, dev: Device, wakes: set<int>)

  datatype Event =
    | Tick(to: int)        // time passes, but not beyond a wake-up that is due
    | OperatorRuns         // a pass, for a wake-up or for any other event; its write succeeds
    | Other(w: Write)      // a write by the agent or a user

  /** The configured timeout; zero means the default of thirty seconds. */
  function EffectiveTimeout(configured: nat): nat {
    if configured == 0 then DEFAULT_TIMEOUT else configured
  }

  /** Heartbeats carry clock readings of one agent, so they do not go back. */
  predicate Enabled(s: Sys, e: Event) {
    match e
    case Tick(to) => s.now <= to && forall w | w in s.wakes :: to <= w
    case OperatorRuns => true
    case Other(w) =>
      && !w.OperatorWrite?
      && (w.AgentWrite? && w.mutation.Heartbeat? && s.dev.status.heartbeat.Some? ==>
            s.dev.status.heartbeat.value <= w.mutation.at)
  }

  function Step(s: Sys, e: Event, timeout: nat): Sys {
    match e
    case Tick(to) => s.(now := to)
    case Other(w) => s.(dev := ApplyWrite(w, s.dev))
    case OperatorRuns =>
      var wakes := (set w | w in s.wakes && w > s.now) + {s.now + RequeueAfter(s.dev, s.now, timeout)};
      s.(dev := if StatusEqual(s.dev.status, Projected(s.dev, s.now, timeout)) then s.dev
                else OperatorWritten(s.dev, s.now, timeout),
         wakes := wakes)
  }

  predicate Live(p: DevicePhase) {
    p == Ready || p == Upgrading
  }

  /** A live phase is backed by a recent heartbeat and by a wake-up at its expiry. */
  predicate Inv(s: Sys, timeout: nat) {
    Live(s.dev.status.phase) ==>
      && s.dev.status.heartbeat.Some?
      && s.now - s.dev.status.heartbeat.value <= timeout + SECOND
      && exists w :: w in s.wakes && w <= s.dev.status.heartbeat.value + timeout + SECOND
  }

  lemma PassKeepsInv(s: Sys, timeout: nat)
    requires Inv(s, timeout)
    ensures Inv(Step(s, OperatorRuns, timeout), timeout)
  {
    var s' := Step(s, OperatorRuns, timeout);
    assert s'.dev.status.phase == PhaseOf(s.dev, s.now, timeout);
    assert s.now + RequeueAfter(s.dev, s.now, timeout) in s'.wakes;
  }

  lemma OtherKeepsInv(s: Sys, w: Write, timeout: nat)
    requires Inv(s, timeout) && Enabled(s, Other(w))
    ensures Inv(Step(s, Other(w), timeout), timeout)
  {
    if Live(s.dev.status.phase) {
      var wake :| wake in s.wakes && wake <= s.dev.status.heartbeat.value + timeout + SECOND;
      assert wake in Step(s, Other(w), timeout).wakes;
    }
  }

  lemma TickKeepsInv(s: Sys, to: int, timeout: nat)
    requires Inv(s, timeout) && Enabled(s, Tick(to))
    ensures Inv(Step(s, Tick(to), timeout), timeout)
  {
    if Live(s.dev.status.phase) {
      var wake :| wake in s.wakes && wake <= s.dev.status.heartbeat.value + timeout + SECOND;
      assert wake in Step(s, Tick(to), timeout).wakes;
    }
  }

  predicate IsRun(ss: seq<Sys>, es: seq<Event>, timeout: nat) {
    && |ss| == |es| + 1
    && forall i | 0 <= i < |es| :: Enabled(ss[i], es[i]) && ss[i + 1] == Step(ss[i], es[i], timeout)
  }

  lemma {:induction false} RunKeepsInv(ss: seq<Sys>, es: seq<Event>, timeout: nat, n: nat)
    requires IsRun(ss, es, timeout) && Inv(ss[0], timeout) && n < |ss|
    ensures Inv(ss[n], timeout)
  {
    if n > 0 {
      RunKeepsInv(ss, es, timeout, n - 1);
      match es[n - 1] {
        case Tick(to) => TickKeepsInv(ss[n - 1], to, timeout);
        case OperatorRuns => PassKeepsInv(ss[n - 1], timeout);
        case Other(w) => OtherKeepsInv(ss[n - 1], w, timeout);
      }
    }
  }

  /**
   The deadline: if every planned wake-up is honoured, then at all times of all runs a device shown
   as Ready or Upgrading has reported within the timeout and one second.
   */
  lemma HeartbeatDeadline(ss: seq<Sys>, es: seq<Event>, configured: nat, n: nat)
    requires IsRun(ss, es, EffectiveTimeout(configured)) && n < |ss|
    requires ss[0].dev.status.phase == NoPhase
    ensures Live(ss[n].dev.status.phase) ==>
              && ss[n].dev.status.heartbeat.Some?
              && ss[n].now - ss[n].dev.status.heartbeat.value <= EffectiveTimeout(configured) + SECOND
              && (configured == 0 ==> ss[n].now - ss[n].dev.status.heartbeat.value <= 31_000_000_000)
              && (configured != 0 ==> ss[n].now - ss[n].dev.status.heartbeat.value <= configured + 1_000_000_000)
  {
    RunKeepsInv(ss, es, EffectiveTimeout(configured), n);
  }

  /** No wake-up is wasted: it comes at the first second in which silence must demote the device. */
  lemma WakeUpDemotes(dev: Device, now: int, timeout: nat)
    requires Live(PhaseOf(dev, now, timeout))
    ensures dev.status.heartbeat.Some?
    ensures now + RequeueAfter(dev, now, timeout) == dev.status.heartbeat.value + timeout + SECOND
    ensures PhaseOf(dev, now + RequeueAfter(dev, now, timeout), timeout) == Degraded
  {
  }

  /** Every pass asks to be woken: one second past the expiry of a fresh heartbeat, else after the timeout. */
  lemma WakeUpPlanned(dev: Device, now: int, timeout: nat)
    ensures now + RequeueAfter(dev, now, timeout) ==
            if dev.status.heartbeat.Some? && now - dev.status.heartbeat.value <= timeout
            then dev.status.heartbeat.value + timeout + 1_000_000_000 else now + timeout
  {
  }

  /** Silence past the timeout shows as Degraded in the next pass ... */
  lemma SilenceDemotes(s: Sys, to: int, timeout: nat)
    requires s.dev.status.heartbeat.Some? && to - s.dev.status.heartbeat.value > timeout
    ensures Step(Step(s, Tick(to), timeout), OperatorRuns, timeout).dev.status.phase == Degraded
  {
  }

  /** ... and the next heartbeat and pass take it back, unless the agent reports a failure. */
  lemma HeartbeatRevives(s: Sys, call: nat, gen: int, timeout: nat)
    requires !FirmwareFailed(s.dev.status.conditions)
    ensures Live(Step(Step(s, Other(AgentWrite(call, Heartbeat(s.now), gen)), timeout), OperatorRuns, timeout).dev.status.phase)
  {
  }
}
