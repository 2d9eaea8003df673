/** bootSequence and runUpgrade of internal/agent/agent.go, run against the step machine. */
module Agents {
  import opened Wrappers
  import opened Disks
  import opened SlotMachine
  import opened SlotTheorems
  import opened SlotManagers
  import Fsms

  // ---- Runs of the machine in which no transaction starts ----

  predicate IsQuietRun(h: Hash, ss: seq<State>, es: seq<Event>, s: State, s': State) {
    && IsRun(h, ss, es) && ss[0] == s && ss[|es|] == s'
    && forall i | 0 <= i < |es| :: !es[i].Start?
  }

  ghost predicate Reaches(h: Hash, s: State, s': State) {
    exists ss: seq<State>, es: seq<Event> :: IsQuietRun(h, ss, es, s, s')
  }

  lemma ReachesSelf(h: Hash, s: State)
    ensures Reaches(h, s, s)
  {
    assert IsQuietRun(h, [s], [], s, s);
  }

  lemma ReachesNext(h: Hash, s: State, m: State, e: Event, s': State)
    requires Reaches(h, s, m) && Next(h, m, e, s') && !e.Start?
    ensures Reaches(h, s, s')
  {
    var ss: seq<State>, es: seq<Event> :| IsQuietRun(h, ss, es, s, m);
    var ss', es' := ss + [s'], es + [e];
    forall i | 0 <= i < |es'| ensures Next(h, ss'[i], es'[i], ss'[i + 1]) {
      if i < |es| {
        assert Next(h, ss[i], es[i], ss[i + 1]);
      }
    }
    assert IsQuietRun(h, ss', es', s, s');
  }

  lemma ReachesKeepsInv(h: Hash, s: State, s': State)
    requires Reaches(h, s, s') && Inv(h, s)
    ensures Inv(h, s')
  {
    var ss: seq<State>, es: seq<Event> :| IsQuietRun(h, ss, es, s, s');
    RunKeepsInv(h, ss, es, |es|);
  }

  lemma {:induction false} QuietRunKeepsTxn(h: Hash, ss: seq<State>, es: seq<Event>, n: nat, d0: Disk, t: Target)
    requires IsRun(h, ss, es) && (forall i | 0 <= i < |es| :: !es[i].Start?) && n < |ss|
    requires d0.current.Some? && Inv(h, ss[0]) && TxnOk(d0, t, ss[0])
    ensures TxnOk(d0, t, ss[n])
  {
    if n > 0 {
      RunKeepsInv(h, ss, es, n - 1);
      QuietRunKeepsTxn(h, ss, es, n - 1, d0, t);
      NextKeepsTxn(h, d0, t, ss[n - 1], es[n - 1], ss[n]);
    }
  }

  lemma ReachesKeepsTxn(h: Hash, s: State, s': State, d0: Disk, t: Target)
    requires Reaches(h, s, s') && d0.current.Some? && Inv(h, s) && TxnOk(d0, t, s)
    ensures TxnOk(d0, t, s')
  {
    var ss: seq<State>, es: seq<Event> :| IsQuietRun(h, ss, es, s, s');
    QuietRunKeepsTxn(h, ss, es, |es|, d0, t);
  }

  /** A call whose process survives it, or dies in it, is a run of the machine. */
  function AfterCall(d: Disk, p: Phase, ops: seq<Op>, power: nat, cut: Option<nat>): State {
    var d' := Exec(d, ops, power, cut);
    if power < |ops| then State(d', Off, []) else State(d', p, [])
  }

  lemma {:induction false} ReachesCall(h: Hash, s: State, d: Disk, p: Phase, ops: seq<Op>, power: nat, cut: Option<nat>)
    requires !p.Off? && Reaches(h, s, State(d, p, ops))
    ensures Reaches(h, s, AfterCall(d, p, ops, power, cut))
    decreases |ops|
  {
    var m := State(d, p, ops);
    if ops == [] {
    } else if power == 0 {
      ReachesNext(h, s, m, Crash(cut), State(Torn(d, ops[0], cut), Off, []));
    } else {
      ReachesNext(h, s, m, Perform, State(Apply(d, ops[0]), p, ops[1..]));
      ReachesCall(h, s, Apply(d, ops[0]), p, ops[1..], power - 1, cut);
    }
  }

  // ---- The agent ----

  datatype Outcome =
    | Upgraded
    | FailedAt(state: Fsms.FsmState)
    | Rejected   // a transition the state machine refuses
    | PowerLost

  /** What a poll decides about the target it has read. */
  datatype Decision = InSync | Held | GivenUp | Upgrade

  class Agent {
    const slots: SlotManager
    const fsm: Fsms.Fsm
    var lastFailedKey: string

    constructor (slots: SlotManager, fsm: Fsms.Fsm)
      ensures this.slots == slots && this.fsm == fsm && lastFailedKey == ""
    {
      this.slots, this.fsm, this.lastFailedKey := slots, fsm, "";
    }

    static function Key(version: string, checksum: string): string {
      version + "|" + checksum
    }

    /** A key tells checksums of one version apart, and targets altogether while checksums have one length. */
    static lemma KeyDistinguishes(v: string, c: string, v': string, c': string)
      ensures Key(v, c) != ""
      ensures Key(v, c) == Key(v, c') ==> c == c'
      ensures |c| == |c'| && Key(v, c) == Key(v', c') ==> v == v' && c == c'
    {
      var k := Key(v, c);
      assert k[|v|] == '|' && k[|v| + 1..] == c && k[..|v|] == v;
      assert Key(v, c')[|v| + 1..] == c';
      assert Key(v', c')[|v'| + 1..] == c' && Key(v', c')[..|v'|] == v';
    }

    /** evaluate: nothing to do, paused, failed before, or hand the target to the guard. */
    method Evaluate(version: string, checksum: string, paused: bool) returns (decision: Decision)
      ensures decision == Upgrade <==>
                VersionOf(slots.disk) != version && !paused && lastFailedKey != Key(version, checksum)
      ensures decision == InSync <==> VersionOf(slots.disk) == version
      ensures decision == Held <==> VersionOf(slots.disk) != version && paused
      // A corrected checksum is tried, and so is the first target of a new agent.
      ensures forall failed {:trigger Key(version, failed)} |
                lastFailedKey == Key(version, failed) && failed != checksum ::
                VersionOf(slots.disk) != version && !paused ==> decision == Upgrade
      ensures lastFailedKey == "" && VersionOf(slots.disk) != version && !paused ==> decision == Upgrade
    {
      forall failed ensures Key(version, failed) == Key(version, checksum) ==> failed == checksum {
        KeyDistinguishes(version, failed, version, checksum);
      }
      KeyDistinguishes(version, checksum, version, checksum);
      var current := slots.ActiveVersion();
      if version == current {
        return InSync;
      }
      if paused {
        return Held;
      }
      return if lastFailedKey == Key(version, checksum) then GivenUp else Upgrade;
    }

    /** The rest of a boot once BootCheck granted a trial: self-check, then confirm or roll back. */
    method FinishTrial(h: Hash, ghost s0: State, ghost w: Who) returns (checked: bool, r: Result<Unit>)
      requires Inv(h, s0) && Reaches(h, s0, State(slots.disk, Trial(w), []))
      modifies slots
      ensures !r.Err? && (r.Died? <==> old(slots.power) < if checked then 2 else 4)
      ensures Reaches(h, s0, State(slots.disk, if r.Died? then Off else Phase.Idle, []))
      ensures var d := old(slots.disk);
              && d.current.Some?
              && (checked <==> d.Checks(h, d.current.value))
              && (r.Ok? ==> slots.disk.current == if checked then d.current else Some(d.current.value.Other()))
    {
      ghost var d, p := slots.disk, slots.power;
      TrialDecision(h, s0, d, w);
      var check := slots.Verify(h, false);
      checked := check.Ok?;
      if !checked {
        r := slots.Rollback();
        ReachesCallAndReturn(h, s0, d, Reverting(w), RollbackOps(d.current.value), p, slots.cut);
      } else {
        r := slots.Confirm();
        ReachesCallAndReturn(h, s0, d, Confirming(w), ConfirmOps(d.current.value), p, slots.cut);
      }
    }

    /**
     Switching the device on: NewSlotManager, then bootSequence. Whatever an earlier power loss left
     behind, at most five file operations of power, exactly BootCost, bring the agent up on a confirmed slot.
     */
    method PowerOn(h: Hash) returns (r: Result<Unit>)
      requires Inv(h, State(slots.disk, Off, []))
      modifies slots
      ensures !r.Err? && (r.Died? <==> old(slots.power) < BootCost(h, old(slots.disk)))
      ensures Reaches(h, State(old(slots.disk), Off, []), State(slots.disk, if r.Died? then Off else Phase.Idle, []))
      ensures Inv(h, State(slots.disk, if r.Died? then Off else Phase.Idle, []))
      ensures r.Ok? ==> slots.disk.current.Some? && slots.disk.IsConfirmed(slots.disk.current.value)
    {
      ghost var s0, p0 := State(slots.disk, Off, []), slots.power;
      r := slots.Open();
      OpenReaches(h, s0, p0, slots.cut);
      if r.Died? {
        ReachesKeepsInv(h, s0, State(slots.disk, Off, []));
        return;
      }
      ghost var d, p := slots.disk, slots.power;
      var boot := slots.BootCheck();
      BootReaches(h, s0, Boot, d, p, slots.cut);
      if boot == Ok(BootTrial) {
        var checked;
        checked, r := FinishTrial(h, s0, Boot);
      } else {
        r := if boot.Died? then Died else Ok(Unit);
      }
      ReachesKeepsInv(h, s0, State(slots.disk, if r.Died? then Off else Phase.Idle, []));
    }

    method Fail(at: Fsms.FsmState, version: string, checksum: string) returns (out: Outcome)
      requires fsm.state !in [Fsms.Idle, Fsms.Failed]
      modifies fsm, this`lastFailedKey
      ensures fsm.state == Fsms.Failed && lastFailedKey == Key(version, checksum) && out == FailedAt(at)
    {
      var moved := fsm.To(Fsms.Failed);
      lastFailedKey := Key(version, checksum);
      return FailedAt(at);
    }

    /** Stage, VerifyStaged and PromoteStaged; `good` tells whether the staged image was promoted. */
    method Flash(h: Hash, ghost s1: State, image: string, version: string, checksum: string, decay: Option<string>)
      returns (good: bool, r: Result<Unit>)
      requires slots.disk.current.Some?
      requires var t := Target(version, checksum, image);
               && s1 == State(slots.disk, Staging(t), StageOps(slots.disk.current.value.Other(), image, version, checksum))
               && Inv(h, s1)
      modifies slots
      ensures !r.Err? && (r.Ok? && good ==> slots.power + 9 == old(slots.power))
      ensures r.Died? <==>
                old(slots.power) < if h(if decay.Some? then decay.value else image) == checksum then 9 else 5
      ensures r.Ok? ==> (good <==> h(if decay.Some? then decay.value else image) == checksum)
      ensures Reaches(h, s1, State(slots.disk, if r.Died? then Off else if good then Checking(Txn(s1.phase.target)) else Phase.Idle, []))
      ensures r.Ok? && good ==>
                && slots.disk.current == Some(s1.disk.current.value.Other())
                && slots.disk.ImageOf(slots.disk.current.value) ==
                   Image(Some(version), Some(if decay.Some? then decay.value else image), Some(checksum))
      ensures r.Ok? && !good ==> slots.disk.current == s1.disk.current
    {
      ghost var t, p := s1.phase.target, slots.power;
      var inactive := slots.disk.current.value.Other();
      good := false;
      r := slots.Stage(image, version, checksum);
      ReachesSelf(h, s1);
      ReachesCall(h, s1, s1.disk, Staging(t), s1.todo, p, slots.cut);
      if r.Died? { return; }
      if decay.Some? {
        StagedMayRot(h, s1, slots.disk, t);
        ghost var m := State(slots.disk, Staging(t), []);
        slots.Decay(inactive, decay.value);
        ReachesNext(h, s1, m, Rot(inactive, decay.value), State(slots.disk, Staging(t), []));
      }
      var verified := slots.Verify(h, true);
      good := verified.Ok?;
      ReachesNext(h, s1, State(slots.disk, Staging(t), []), Return, Resume(h, slots.disk, Staging(t)));
      if good {
        ghost var d2, p2 := slots.disk, slots.power;
        r := slots.PromoteStaged();
        ReachesCall(h, s1, d2, Promoting(t), PromoteOps(inactive), p2, slots.cut);
        if r.Ok? {
          ReachesNext(h, s1, State(slots.disk, Promoting(t), []), Return, State(slots.disk, Checking(Txn(t)), []));
        }
      }
    }

    /**
     The simulated reboot into the promoted slot. BootCheck grants the trial (BootReaches), so the
     transaction's "BootFailed" exit is never taken.
     */
    method Reboot(h: Hash, ghost s1: State, decay: Option<string>) returns (checked: bool, r: Result<Unit>)
      requires Inv(h, s1) && s1.phase.Staging? && Reaches(h, s1, State(slots.disk, Checking(Txn(s1.phase.target)), []))
      requires slots.disk.current.Some? && slots.disk.Has(slots.disk.current.value, Firmware)
      modifies slots
      ensures !r.Err?
      ensures var d, a := old(slots.disk), old(slots.disk).current.value;
              r.Died? <==>
                old(slots.power) < if d.Has(a, Checksum)
                                      && h(if decay.Some? then decay.value else d.files[Path(a, Firmware)])
                                         == d.files[Path(a, Checksum)] then 3 else 5
      ensures Reaches(h, s1, State(slots.disk, if r.Died? then Off else Phase.Idle, []))
      ensures var d, a := old(slots.disk), old(slots.disk).current.value;
              r.Ok? ==>
                && (checked <==> && d.Has(a, Checksum)
                                 && h(if decay.Some? then decay.value else d.files[Path(a, Firmware)])
                                    == d.files[Path(a, Checksum)])
                && slots.disk.current == if checked then d.current else Some(a.Other())
    {
      ghost var w := Txn(s1.phase.target);
      var a := slots.disk.current.value;
      ReachesKeepsInv(h, s1, State(slots.disk, Checking(w), []));
      if decay.Some? {
        ghost var m := State(slots.disk, Checking(w), []);
        slots.Decay(a, decay.value);
        ReachesNext(h, s1, m, Rot(a, decay.value), State(slots.disk, Checking(w), []));
      }
      ghost var d, p := slots.disk, slots.power;
      var boot := slots.BootCheck();
      BootReaches(h, s1, w, d, p, slots.cut);
      if boot.Died? {
        return false, Died;
      }
      assert boot == Ok(BootTrial);
      assert slots.disk.ImageOf(a) == d.ImageOf(a);
      checked, r := FinishTrial(h, s1, w);
    }

    /** From Flashing on: install the image and boot it; the state machine is left where it stopped. */
    method Install(h: Hash, image: string, version: string, checksum: string,
                   decay: Option<string>, trialDecay: Option<string>) returns (out: Outcome)
      requires Inv(h, State(slots.disk, Phase.Idle, [])) && fsm.state == Fsms.Flashing
      modifies slots, fsm
      ensures out in [Upgraded, FailedAt(Fsms.Flashing), FailedAt(Fsms.Confirming), PowerLost]
      ensures out == PowerLost <==> old(slots.power) < InstallCost(h, image, checksum, decay, trialDecay)
      ensures old(slots.disk).current.Some? &&
              Reaches(h, Started(old(slots.disk), image, version, checksum),
                      State(slots.disk, if out == PowerLost then Off else Phase.Idle, []))
      ensures out.FailedAt? ==> fsm.state == out.state
      ensures out == Upgraded ==> fsm.state == Fsms.Confirming
      ensures out != PowerLost ==>
                (out == Upgraded <==> && (decay.Some? ==> h(decay.value) == checksum)
                                      && h(if decay.Some? then decay.value else image) == checksum
                                      && (trialDecay.Some? ==> h(trialDecay.value) == checksum))
      ensures out.FailedAt? ==>
                (out.state == Fsms.Flashing <==> h(if decay.Some? then decay.value else image) != checksum)
      ensures EndsWell(h, old(slots.disk), slots.disk, version, checksum, out)
    {
      ghost var d0, x := slots.disk, slots.disk.current.value;
      ghost var t := Target(version, checksum, image);
      ghost var s1 := Started(d0, image, version, checksum);
      StartOk(h, State(d0, Phase.Idle, []), t, s1);
      var good, flashed := Flash(h, s1, image, version, checksum, decay);
      if flashed.Died? {
        Survived(h, d0, t, s1, State(slots.disk, Off, []));
        return PowerLost;
      }
      if !good {
        Survived(h, d0, t, s1, State(slots.disk, Phase.Idle, []));
        return FailedAt(Fsms.Flashing);
      }
      var moved := fsm.To(Fsms.Confirming);
      var checked, finished := Reboot(h, s1, trialDecay);
      if finished.Died? {
        Survived(h, d0, t, s1, State(slots.disk, Off, []));
        return PowerLost;
      }
      Survived(h, d0, t, s1, State(slots.disk, Phase.Idle, []));
      return if checked then Upgraded else FailedAt(Fsms.Confirming);
    }

    /** Up to Flashing: the download and its digest; `out` tells why the transaction stops here, if it does. */
    method Fetch(h: Hash, version: string, checksum: string, fetched: Option<string>) returns (out: Option<Outcome>)
      modifies fsm, this`lastFailedKey
      ensures old(fsm.state) !in [Fsms.Idle, Fsms.Failed] ==> out == Some(Rejected)
      ensures out == Some(Rejected) ==> old(fsm.state) !in [Fsms.Idle, Fsms.Failed] && fsm.state == old(fsm.state)
      ensures out in [None, Some(Rejected), Some(FailedAt(Fsms.Downloading)), Some(FailedAt(Fsms.Verifying))]
      ensures out.Some? && out.value.FailedAt? ==> fsm.state == Fsms.Failed && lastFailedKey == Key(version, checksum)
      ensures !(out.Some? && out.value.FailedAt?) ==> lastFailedKey == old(lastFailedKey)
      ensures out == None ==> fsm.state == Fsms.Flashing
      ensures out.Some? && out.value.FailedAt? ==> (out.value.state == Fsms.Downloading <==> fetched.None?)
      ensures out != Some(Rejected) ==> (out == None <==> fetched.Some? && h(fetched.value) == checksum)
    {
      var moved := fsm.To(Fsms.Downloading);
      if !moved { return Some(Rejected); }
      if fetched.None? {
        var failed := Fail(Fsms.Downloading, version, checksum);
        return Some(failed);
      }
      moved := fsm.To(Fsms.Verifying);
      assert moved;
      if h(fetched.value) != checksum {
        var failed := Fail(Fsms.Verifying, version, checksum);
        return Some(failed);
      }
      moved := fsm.To(Fsms.Flashing);
      assert moved;
      return None;
    }

    /**
     One firmware transaction. `fetched` is what the download left in the staging file, if it
     succeeded; `decay` and `trialDecay` are storage faults hitting the staged image before
     VerifyStaged and the promoted image before the trial boot.
     */
    method RunUpgrade(h: Hash, version: string, checksum: string, fetched: Option<string>,
                      decay: Option<string>, trialDecay: Option<string>) returns (out: Outcome)
      requires Inv(h, State(slots.disk, Phase.Idle, []))
      modifies slots, fsm, this`lastFailedKey
      ensures out == Rejected <==> old(fsm.state) !in [Fsms.Idle, Fsms.Failed]
      ensures out == Rejected ==> slots.disk == old(slots.disk) && fsm.state == old(fsm.state)
      ensures out == PowerLost <==>
                && old(fsm.state) in [Fsms.Idle, Fsms.Failed] && fetched.Some? && h(fetched.value) == checksum
                && old(slots.power) < InstallCost(h, fetched.value, checksum, decay, trialDecay)
      // From staging on, the disk is what a run of the machine makes of it; before, it is not touched.
      ensures old(slots.disk).current.Some?
      ensures if out == Rejected || fetched.None? || h(fetched.value) != checksum then slots.disk == old(slots.disk)
              else Reaches(h, Started(old(slots.disk), fetched.value, version, checksum),
                           State(slots.disk, if out == PowerLost then Off else Phase.Idle, []))
      ensures out == Upgraded ==> fsm.state == Fsms.Idle && lastFailedKey == old(lastFailedKey)
      ensures out.FailedAt? ==> fsm.state == Fsms.Failed && lastFailedKey == Key(version, checksum)
      // The target is settled: the next poll does not start it again (see Evaluate).
      ensures out == Upgraded ==> VersionOf(slots.disk) == version
      // The report names the step whose copy of the image was missing or bad.
      ensures out.FailedAt? ==> out.state == FailingStep(h, checksum, fetched, decay)
      // With power, the bytes alone decide whether the device ends on the new image or on the old one.
      ensures out !in [Rejected, PowerLost] ==>
                (out == Upgraded <==> GoodBytes(h, checksum, fetched, decay, trialDecay))
      ensures EndsWell(h, old(slots.disk), slots.disk, version, checksum, out)
    {
      var stopped := Fetch(h, version, checksum, fetched);
      if stopped.Some? {
        return stopped.value;
      }
      out := Install(h, fetched.value, version, checksum, decay, trialDecay);
      if out.FailedAt? {
        out := Fail(out.state, version, checksum);
      } else if out == Upgraded {
        var moved := fsm.To(Fsms.Idle);
        assert moved;
      }
    }
  }

  /**
   The disk a transaction leaves: recoverable if the power was lost, else booted and confirmed;
   the slot active before is untouched and still active unless the target was installed.
   */
  predicate EndsWell(h: Hash, d0: Disk, d: Disk, version: string, checksum: string, out: Outcome) {
    && Inv(h, State(d, if out == PowerLost then Off else Phase.Idle, []))
    && d0.current.Some?
    && (forall f: File :: d.Read(d0.current.value, f) == d0.Read(d0.current.value, f))
    && (out.FailedAt? || out == Rejected ==> d.current == d0.current)
    && (out == Upgraded ==>
          && d.current == Some(d0.current.value.Other())
          && d.Read(d.current.value, Version) == Some(version)
          && d.Read(d.current.value, Checksum) == Some(checksum)
          && d.Checks(h, d.current.value))
  }

  /** The file operations a boot needs. */
  function BootCost(h: Hash, d: Disk): nat {
    if d.current.None? then 5
    else
      match BootVerdict(d, d.current.value)
      case BootNormal => 0
      case BootTrial => if d.Checks(h, d.current.value) then 3 else 5
      case BootRolledBack => 4
  }

  /** The file operations an installation needs: five to stage, four to promote, three or five to boot. */
  function InstallCost(h: Hash, image: string, checksum: string, decay: Option<string>, trialDecay: Option<string>): nat {
    var staged := if decay.Some? then decay.value else image;
    var booted := if trialDecay.Some? then trialDecay.value else staged;
    if h(staged) != checksum then 5 else if h(booted) == checksum then 12 else 14
  }

  /** The machine when a transaction begins to stage its image. */
  function Started(d: Disk, image: string, version: string, checksum: string): State
    requires d.current.Some?
  {
    State(d, Staging(Target(version, checksum, image)), StageOps(d.current.value.Other(), image, version, checksum))
  }

  /** The step of a failing transaction at which it fails. */
  function FailingStep(h: Hash, checksum: string, fetched: Option<string>, decay: Option<string>): Fsms.FsmState {
    if fetched.None? then Fsms.Downloading
    else if h(fetched.value) != checksum then Fsms.Verifying
    else if decay.Some? && h(decay.value) != checksum then Fsms.Flashing
    else Fsms.Confirming
  }

  /** Every copy of the image that is hashed on the way has the promised digest. */
  predicate GoodBytes(h: Hash, checksum: string, fetched: Option<string>,
                      decay: Option<string>, trialDecay: Option<string>) {
    && fetched.Some? && h(fetched.value) == checksum
    && (decay.Some? ==> h(decay.value) == checksum)
    && (trialDecay.Some? ==> h(trialDecay.value) == checksum)
  }

  lemma StartOk(h: Hash, s: State, t: Target, s1: State)
    requires Inv(h, s) && s.phase.Idle? && Next(h, s, Start(t), s1)
    ensures Inv(h, s1) && TxnOk(s.disk, t, s1) && Reaches(h, s1, s1)
  {
    NextKeepsInv(h, s, Start(t), s1);
    ReachesSelf(h, s1);
  }

  lemma StagedMayRot(h: Hash, s1: State, d: Disk, t: Target)
    requires Inv(h, s1) && Reaches(h, s1, State(d, Staging(t), []))
    ensures d.current.Some? && !d.IsConfirmed(d.current.value.Other())
  {
    ReachesKeepsInv(h, s1, State(d, Staging(t), []));
  }

  /** What any point of the transaction's run guarantees about the slot active before it. */
  lemma Survived(h: Hash, d0: Disk, t: Target, s1: State, s: State)
    requires d0.current.Some? && Inv(h, s1) && TxnOk(d0, t, s1) && Reaches(h, s1, s)
    ensures Inv(h, s)
    ensures forall f: File :: s.disk.Read(d0.current.value, f) == d0.Read(d0.current.value, f)
    ensures s.phase.Idle? && s.disk.current == Some(d0.current.value.Other()) ==>
              && Carries(s.disk, d0.current.value.Other(), t)
              && s.disk.Checks(h, d0.current.value.Other())
  {
    ReachesKeepsInv(h, s1, s);
    ReachesKeepsTxn(h, s1, s, d0, t);
  }

  /** NewSlotManager as a run; a device it has just created boots its confirmed factory slot. */
  lemma OpenReaches(h: Hash, s0: State, power: nat, cut: Option<nat>)
    requires Inv(h, s0) && s0.phase.Off? && s0.todo == []
    ensures var ops := if s0.disk.current.None? then FactoryOps() else [];
            var d := Exec(s0.disk, ops, power, cut);
            && (power < |ops| ==> Reaches(h, s0, State(d, Off, [])))
            && (power >= |ops| ==>
                  && Reaches(h, s0, State(d, Checking(Boot), []))
                  && (s0.disk.current.None? ==> d.current == Some(A) && d.IsConfirmed(A)))
  {
    ReachesSelf(h, s0);
    if s0.disk.current.None? {
      ReachesNext(h, s0, s0, PowerOn, State(s0.disk, Opening, FactoryOps()));
      ReachesCall(h, s0, s0.disk, Opening, FactoryOps(), power, cut);
      var m := AfterCall(s0.disk, Opening, FactoryOps(), power, cut);
      if power >= |FactoryOps()| {
        ReachesKeepsInv(h, s0, m);
        ReachesNext(h, s0, m, Return, State(m.disk, Checking(Boot), []));
      }
    } else {
      ReachesNext(h, s0, s0, PowerOn, State(s0.disk, Checking(Boot), []));
    }
  }

  /** BootCheck as a run: to the granted trial, or back to Idle, or to a power loss. */
  lemma BootReaches(h: Hash, s0: State, w: Who, d: Disk, power: nat, cut: Option<nat>)
    requires Inv(h, s0) && Reaches(h, s0, State(d, Checking(w), []))
    ensures d.current.Some?
    ensures var v := BootVerdict(d, d.current.value);
            var ops := SlotManager.BootOps(d, d.current.value);
            var d' := Exec(d, ops, power, cut);
            && (power < |ops| ==> Reaches(h, s0, State(d', Off, [])))
            && (power >= |ops| ==> Reaches(h, s0, State(d', if v.BootTrial? then Trial(w) else Phase.Idle, [])))
    ensures w.Txn? ==> BootVerdict(d, d.current.value) == BootTrial
  {
    var m := State(d, Checking(w), []);
    ReachesKeepsInv(h, s0, m);
    VerdictOfMarkers(h, d, d.current.value);
    var n := Resume(h, d, Checking(w));
    ReachesNext(h, s0, m, Return, n);
    if n.phase.Marking? {
      ReachesCall(h, s0, d, n.phase, n.todo, power, cut);
      var m' := AfterCall(d, n.phase, n.todo, power, cut);
      if power >= |n.todo| {
        ReachesKeepsInv(h, s0, m');
        ReachesNext(h, s0, m', Return, State(m'.disk, Trial(w), []));
      }
    } else if n.phase.Reverting? {
      ReachesCallAndReturn(h, s0, d, n.phase, n.todo, power, cut);
    }
  }

  /** In a trial the marker to remove is there, and the self-check decides which call comes next. */
  lemma TrialDecision(h: Hash, s0: State, d: Disk, w: Who)
    requires Inv(h, s0) && Reaches(h, s0, State(d, Trial(w), []))
    ensures d.current.Some? && d.Has(d.current.value, Pending)
    ensures var a := d.current.value;
            Reaches(h, s0, if d.Checks(h, a) then State(d, Confirming(w), ConfirmOps(a))
                           else State(d, Reverting(w), RollbackOps(a)))
  {
    ReachesKeepsInv(h, s0, State(d, Trial(w), []));
    ReachesNext(h, s0, State(d, Trial(w), []), Return, Resume(h, d, Trial(w)));
  }

  /** The last call of a boot or transaction, and the step back to Idle. */
  lemma ReachesCallAndReturn(h: Hash, s: State, d: Disk, p: Phase, ops: seq<Op>, power: nat, cut: Option<nat>)
    requires Inv(h, s) && (p.Reverting? || p.Confirming?) && Reaches(h, s, State(d, p, ops))
    ensures Reaches(h, s, State(Exec(d, ops, power, cut), if power < |ops| then Off else Phase.Idle, []))
  {
    ReachesCall(h, s, d, p, ops, power, cut);
    var m := AfterCall(d, p, ops, power, cut);
    if power >= |ops| {
      ReachesKeepsInv(h, s, m);
      ReachesNext(h, s, m, Return, State(m.disk, Phase.Idle, []));
    }
  }
}
