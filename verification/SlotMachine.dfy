/**
 The device as a step machine over single file operations. A program step performs the next
 operation of the call in progress or, when the call has returned, takes the agent's next
 decision; in between, the power may fail (tearing the operation in progress), the device may
 be switched on again, and bytes of an unconfirmed image may rot.
 */
module SlotMachine {
  import opened Wrappers
  import opened Disks

  datatype Target = Target(version: string, checksum: string, image: string)

  /** On whose behalf the boot logic runs: at power-on, or at the simulated reboot of a transaction. */
  datatype Who = Boot | Txn(target: Target)

  datatype Phase =
    | Off                     // no process
    | Opening                 // NewSlotManager writing the factory state
    | Checking(who: Who)      // about to call BootCheck
    | Marking(who: Who)       // BootCheck spending the attempt
    | Trial(who: Who)         // BootCheck returned BootTrial
    | Confirming(who: Who)
    | Reverting(who: Who)     // inside rollback
    | Idle                    // booted, no transaction running
    | Staging(target: Target)
    | Promoting(target: Target)

  datatype State = State(disk: Disk, phase: Phase, todo: seq<Op>)

  datatype Event =
    | PowerOn
    | Crash(cut: Option<nat>)
    | Rot(slot: Slot, bytes: string)
    | Start(target: Target)
    | Perform
    | Return

  const INITIAL := State(BLANK, Off, [])

  /** The control step taken when the operations of the current call are done. */
  function Resume(h: Hash, d: Disk, p: Phase): State {
    if p.Off? || p.Idle? then State(d, p, [])
    else if d.current.None? then State(d, Off, [])   // Active() fails and the agent exits
    else
      var a := d.current.value;
      match p
      case Opening => State(d, Checking(Boot), [])
      case Checking(w) =>
        (match BootVerdict(d, a)
         case BootNormal => State(d, Idle, [])
         case BootTrial => State(d, Marking(w), TrialOps(a))
         case BootRolledBack => State(d, Reverting(w), RollbackOps(a)))
      case Marking(w) => State(d, Trial(w), [])
      case Trial(w) =>
        if d.Checks(h, a) then State(d, Confirming(w), ConfirmOps(a))
        else State(d, Reverting(w), RollbackOps(a))
      case Confirming(_) => State(d, Idle, [])
      case Reverting(_) => State(d, Idle, [])
      case Staging(t) =>
        if d.Checks(h, a.Other()) then State(d, Promoting(t), PromoteOps(a.Other()))
        else State(d, Idle, [])
      case Promoting(t) => State(d, Checking(Txn(t)), [])
  }

  function CrashDisk(s: State, cut: Option<nat>): Disk {
    if s.todo == [] then s.disk else Torn(s.disk, s.todo[0], cut)
  }

  /** Rot never touches a confirmed slot, nor a trial slot between its self-check and its marker. */
  predicate MayRot(s: State, slot: Slot) {
    && s.disk.Has(slot, Firmware)
    && !s.disk.IsConfirmed(slot)
    && !(s.phase.Confirming? && s.disk.current == Some(slot))
  }

  predicate Next(h: Hash, s: State, e: Event, s': State) {
    match e
    case PowerOn =>
      && s.phase.Off?
      && s' == (if s.disk.current.None? then State(s.disk, Opening, FactoryOps())
                else State(s.disk, Checking(Boot), []))
    case Crash(cut) => !s.phase.Off? && s' == State(CrashDisk(s, cut), Off, [])
    case Rot(slot, bytes) =>
      && MayRot(s, slot)
      && s' == s.(disk := s.disk.(files := s.disk.files[Path(slot, Firmware) := bytes]))
    case Start(t) =>
      && s.phase.Idle? && s.disk.current.Some?
      && s' == State(s.disk, Staging(t),
                     StageOps(s.disk.current.value.Other(), t.image, t.version, t.checksum))
    case Perform =>
      && s.todo != []
      && s' == State(Apply(s.disk, s.todo[0]), s.phase, s.todo[1..])
    case Return =>
      && !s.phase.Off? && !s.phase.Idle? && s.todo == []
      && s' == Resume(h, s.disk, s.phase)
  }

  /** `todo` is what is left of `ops` after its first `k` operations. */
  predicate At(todo: seq<Op>, ops: seq<Op>, k: nat) {
    k <= |ops| && todo == ops[k..]
  }

  function Done(todo: seq<Op>, ops: seq<Op>): int {
    |ops| - |todo|
  }

  predicate IsFactory(d: Disk, s: Slot) {
    s == A && d.Read(A, Version) == Some("factory") && !d.Has(A, Firmware) && !d.Has(A, Checksum)
  }

  predicate Carries(d: Disk, s: Slot, t: Target) {
    d.Read(s, Version) == Some(t.version) && d.Read(s, Checksum) == Some(t.checksum)
  }

  predicate CarriesFor(d: Disk, s: Slot, w: Who) {
    w.Txn? ==> Carries(d, s, w.target)
  }

  /** What holds of the disk whatever the agent is doing, once `current` exists. */
  predicate DiskOk(h: Hash, d: Disk)
    requires d.current.Some?
  {
    && (d.IsConfirmed(d.current.value) || d.IsConfirmed(d.current.value.Other()))
    && (forall s: Slot :: d.IsConfirmed(s) ==> IsFactory(d, s) || d.Checks(h, s))
    && (forall s: Slot :: d.Has(s, Pending) ==> d.files[Path(s, Pending)] in ["", "0", "1"])
  }

  /** Before the first boot has finished only factory files of slot A exist. */
  predicate FreshOk(d: Disk)
  {
    && d.files.Keys <= {Path(A, Version), Path(A, Confirmed)}
    && d.tmp in [None, Some(A)]
  }

  predicate OpeningOk(h: Hash, d: Disk, todo: seq<Op>) {
    var k := Done(todo, FactoryOps());
    && 0 <= k <= 5 && At(todo, FactoryOps(), k)
    && (k >= 1 ==> d.Read(A, Version) == Some("factory"))
    && (k >= 2 ==> d.IsConfirmed(A))
    && (k == 3 ==> d.tmp == None)
    && (k == 4 ==> d.tmp == Some(A))
    && (k == 5 <==> d.current.Some?)
    && (k == 5 ==> d.current == Some(A))
  }

  predicate MarkingOk(d: Disk, a: Slot, todo: seq<Op>) {
    && !d.IsConfirmed(a)
    && (todo == TrialOps(a) || (todo == [] && d.Read(a, Pending) == Some("1")))
  }

  predicate ConfirmingOk(h: Hash, d: Disk, a: Slot, todo: seq<Op>) {
    var k := Done(todo, ConfirmOps(a));
    && 0 <= k <= 2 && At(todo, ConfirmOps(a), k)
    && d.Checks(h, a)
    && (k == 0 <==> !d.IsConfirmed(a))
    && (k <= 1 ==> d.Read(a, Pending) == Some("1"))
    && (k == 2 ==> !d.Has(a, Pending))
  }

  predicate RevertingOk(d: Disk, a: Slot, todo: seq<Op>) {
    var bad := if todo == [] then a.Other() else a;
    var k := Done(todo, RollbackOps(bad));
    && 0 <= k <= 4 && At(todo, RollbackOps(bad), k)
    && !d.IsConfirmed(bad)
    && (k >= 1 ==> !d.Has(bad, Pending))
    && (k == 2 ==> d.tmp == None)
    && (k == 3 ==> d.tmp == Some(bad.Other()))
  }

  predicate StagingOk(d: Disk, a: Slot, t: Target, todo: seq<Op>) {
    var o := a.Other();
    var ops := StageOps(o, t.image, t.version, t.checksum);
    var k := Done(todo, ops);
    && 0 <= k <= 5 && At(todo, ops, k)
    && d.IsConfirmed(a)
    && (k >= 1 ==> !d.IsConfirmed(o))
    && (k >= 2 ==> !d.Has(o, Pending))
    && (k >= 4 ==> d.Read(o, Version) == Some(t.version))
    && (k >= 5 ==> d.Read(o, Checksum) == Some(t.checksum))
  }

  predicate PromotingOk(d: Disk, a: Slot, t: Target, todo: seq<Op>) {
    var trial := if todo == [] then a else a.Other();
    var k := Done(todo, PromoteOps(trial));
    && 0 <= k <= 4 && At(todo, PromoteOps(trial), k)
    && d.IsConfirmed(trial.Other()) && !d.IsConfirmed(trial)
    && Carries(d, trial, t)
    && (k >= 1 ==> d.Read(trial, Pending) == Some("0"))
    && (k == 2 ==> d.tmp == None)
    && (k == 3 ==> d.tmp == Some(trial))
  }

  predicate PhaseOk(h: Hash, d: Disk, p: Phase, todo: seq<Op>)
    requires d.current.Some?
  {
    var a := d.current.value;
    match p
    case Off => todo == []
    case Opening => OpeningOk(h, d, todo)
    case Checking(w) =>
      && todo == [] && CarriesFor(d, a, w)
      && (w.Txn? ==> !d.IsConfirmed(a) && d.Read(a, Pending) == Some("0"))
    case Marking(w) => MarkingOk(d, a, todo) && CarriesFor(d, a, w)
    case Trial(w) =>
      todo == [] && !d.IsConfirmed(a) && d.Read(a, Pending) == Some("1") && CarriesFor(d, a, w)
    case Confirming(w) => ConfirmingOk(h, d, a, todo) && CarriesFor(d, a, w)
    case Reverting(w) => RevertingOk(d, a, todo)
    case Idle => todo == [] && d.IsConfirmed(a)
    case Staging(t) => StagingOk(d, a, t, todo)
    case Promoting(t) => PromotingOk(d, a, t, todo)
  }

  /** The inductive invariant. */
  predicate Inv(h: Hash, s: State) {
    if s.disk.current.None? then
      && FreshOk(s.disk)
      && ((s.phase.Off? && s.todo == []) || (s.phase.Opening? && OpeningOk(h, s.disk, s.todo)))
    else
      DiskOk(h, s.disk) && PhaseOk(h, s.disk, s.phase, s.todo)
  }

  lemma InitialInv(h: Hash)
    ensures Inv(h, INITIAL)
  {
  }

  lemma CrashKeepsInv(h: Hash, s: State, cut: Option<nat>, s': State)
    requires Inv(h, s) && Next(h, s, Crash(cut), s')
    ensures Inv(h, s')
  {
    if s.todo != [] && s.disk.current.Some? && s.todo[0].Write? {
      TornWriteKeepsDisk(h, s, cut);
    }
  }

  /** A torn write hits a version, checksum or image of an unconfirmed slot, or a marker. */
  lemma TornWriteKeepsDisk(h: Hash, s: State, cut: Option<nat>)
    requires Inv(h, s) && s.disk.current.Some? && s.todo != [] && s.todo[0].Write?
    ensures var d' := CrashDisk(s, cut); d'.current == s.disk.current && DiskOk(h, d')
  {
    match s.phase {
      case Opening =>
      case Marking(_) => TornCounterKeepsDisk(h, s, cut);
      case Confirming(_) => TornConfirmKeepsDisk(h, s, cut);
      case Reverting(_) =>
      case Staging(_) => TornStageKeepsDisk(h, s, cut);
      case Promoting(_) => TornCounterKeepsDisk(h, s, cut);
    }
  }

  /** A torn attempt counter is empty or complete. */
  lemma TornCounterKeepsDisk(h: Hash, s: State, cut: Option<nat>)
    requires Inv(h, s) && s.disk.current.Some? && s.todo != [] && s.todo[0].Write?
    requires s.phase.Marking? || s.phase.Promoting?
    ensures var d' := CrashDisk(s, cut); d'.current == s.disk.current && DiskOk(h, d')
  {
    assert s.todo[0].file == Pending && s.todo[0].content in ["0", "1"];
    if cut.Some? && cut.value <= |s.todo[0].content| {
      assert "0"[..0] == "" && "0"[..1] == "0" && "1"[..0] == "" && "1"[..1] == "1";
    }
  }

  /** The confirmed marker has no content to tear. */
  lemma TornConfirmKeepsDisk(h: Hash, s: State, cut: Option<nat>)
    requires Inv(h, s) && s.disk.current.Some? && s.todo != [] && s.todo[0].Write? && s.phase.Confirming?
    ensures var d' := CrashDisk(s, cut); d'.current == s.disk.current && DiskOk(h, d')
  {
    assert s.todo[0] == Write(s.disk.current.value, Confirmed, "");
  }

  lemma TornStageKeepsDisk(h: Hash, s: State, cut: Option<nat>)
    requires Inv(h, s) && s.disk.current.Some? && s.todo != [] && s.todo[0].Write? && s.phase.Staging?
    ensures var d' := CrashDisk(s, cut); d'.current == s.disk.current && DiskOk(h, d')
  {
    var o := s.disk.current.value.Other();
    assert s.todo[0].slot == o && s.todo[0].file in [Firmware, Version, Checksum] && !s.disk.IsConfirmed(o);
  }

  lemma SameImage(h: Hash, d: Disk, d': Disk, t: Slot)
    requires d.ImageOf(t) == d'.ImageOf(t)
    ensures d.Checks(h, t) == d'.Checks(h, t) && IsFactory(d, t) == IsFactory(d', t)
    ensures forall g: Target :: Carries(d, t, g) == Carries(d', t, g)
  {
  }

  lemma RotKeepsDisk(h: Hash, s: State, slot: Slot, bytes: string, s': State)
    requires Inv(h, s) && Next(h, s, Rot(slot, bytes), s') && s.disk.current.Some?
    ensures DiskOk(h, s'.disk)
    ensures forall t: Slot, f: File | Path(t, f) != Path(slot, Firmware) :: s'.disk.Read(t, f) == s.disk.Read(t, f)
  {
    forall t: Slot | s'.disk.IsConfirmed(t)
      ensures IsFactory(s'.disk, t) || s'.disk.Checks(h, t)
    {
      assert s.disk.IsConfirmed(t) && t != slot;
      SameImage(h, s.disk, s'.disk, t);
    }
  }

  /** Only the self-check in progress depends on image bytes. */
  lemma PhaseIgnoresImageBytes(h: Hash, d: Disk, slot: Slot, bytes: string, p: Phase, todo: seq<Op>)
    requires d.current.Some? && PhaseOk(h, d, p, todo)
    requires d.Has(slot, Firmware)
    requires p.Confirming? ==> slot != d.current.value
    ensures PhaseOk(h, d.(files := d.files[Path(slot, Firmware) := bytes]), p, todo)
  {
  }

  lemma RotKeepsInv(h: Hash, s: State, slot: Slot, bytes: string, s': State)
    requires Inv(h, s) && Next(h, s, Rot(slot, bytes), s')
    ensures Inv(h, s')
  {
    if s.disk.current.Some? {
      RotKeepsDisk(h, s, slot, bytes, s');
      PhaseIgnoresImageBytes(h, s.disk, slot, bytes, s.phase, s.todo);
    }
  }

  /** The next operation of a call, and what is left of the call after it. */
  lemma NextOperation(todo: seq<Op>, ops: seq<Op>)
    requires todo != [] && |todo| <= |ops| && At(todo, ops, Done(todo, ops))
    ensures todo[0] == ops[Done(todo, ops)]
    ensures Done(todo[1..], ops) == Done(todo, ops) + 1 && At(todo[1..], ops, Done(todo[1..], ops))
  {
  }

  lemma PerformOpeningKeepsInv(h: Hash, s: State, s': State)
    requires s.phase.Opening? && Inv(h, s) && Next(h, s, Perform, s')
    ensures Inv(h, s')
  {
  }

  lemma PerformMarkingKeepsInv(h: Hash, s: State, s': State)
    requires s.phase.Marking? && Inv(h, s) && Next(h, s, Perform, s')
    ensures Inv(h, s')
  {
  }

  lemma PerformConfirmingKeepsInv(h: Hash, s: State, s': State)
    requires s.phase.Confirming? && Inv(h, s) && Next(h, s, Perform, s')
    ensures Inv(h, s')
  {
    NextOperation(s.todo, ConfirmOps(s.disk.current.value));
    SameImage(h, s.disk, s'.disk, A);
    SameImage(h, s.disk, s'.disk, B);
  }

  lemma PerformRevertingKeepsInv(h: Hash, s: State, s': State)
    requires s.phase.Reverting? && Inv(h, s) && Next(h, s, Perform, s')
    ensures Inv(h, s')
  {
    NextOperation(s.todo, RollbackOps(s.disk.current.value));
    if s.todo[0].Remove? {
      assert s'.disk.ImageOf(A) == s.disk.ImageOf(A) && s'.disk.ImageOf(B) == s.disk.ImageOf(B);
    } else {
      assert s'.disk.files == s.disk.files;
    }
  }

  /** An operation on files of one slot leaves those of the other. */
  lemma OtherSlotStays(d: Disk, op: Op, x: Slot)
    requires (op.Write? || op.Remove?) ==> op.slot != x
    ensures forall f: File :: Apply(d, op).Read(x, f) == d.Read(x, f)
    ensures Apply(d, op).IsConfirmed(x) == d.IsConfirmed(x)
  {
  }

  lemma StagingKeepsDisk(h: Hash, s: State, s': State)
    requires s.phase.Staging? && Inv(h, s) && Next(h, s, Perform, s')
    ensures s'.disk.current == s.disk.current && s.disk.current.Some? && DiskOk(h, s'.disk)
  {
    var a := s.disk.current.value;
    var op := s.todo[0];
    assert op.slot == a.Other() && (op.Write? ==> op.file in [Firmware, Version, Checksum]);
    OtherSlotStays(s.disk, op, a);
    SameImage(h, s.disk, s'.disk, a);
    assert !s'.disk.IsConfirmed(a.Other());
  }

  lemma PerformStagingKeepsInv(h: Hash, s: State, s': State)
    requires s.phase.Staging? && Inv(h, s) && Next(h, s, Perform, s')
    ensures Inv(h, s')
  {
    StagingKeepsDisk(h, s, s');
    OtherSlotStays(s.disk, s.todo[0], s.disk.current.value);
    NextOperation(s.todo, StageOps(s.disk.current.value.Other(), s.phase.target.image, s.phase.target.version, s.phase.target.checksum));
  }

  lemma PerformPromotingKeepsInv(h: Hash, s: State, s': State)
    requires s.phase.Promoting? && Inv(h, s) && Next(h, s, Perform, s')
    ensures Inv(h, s')
  {
    OtherSlotStays(s.disk, s.todo[0], s.disk.current.value);
    NextOperation(s.todo, PromoteOps(s.disk.current.value.Other()));
  }

  lemma PerformKeepsInv(h: Hash, s: State, s': State)
    requires Inv(h, s) && Next(h, s, Perform, s')
    ensures Inv(h, s')
  {
    match s.phase {
      case Opening => PerformOpeningKeepsInv(h, s, s');
      case Marking(_) => PerformMarkingKeepsInv(h, s, s');
      case Confirming(_) => PerformConfirmingKeepsInv(h, s, s');
      case Reverting(_) => PerformRevertingKeepsInv(h, s, s');
      case Staging(_) => PerformStagingKeepsInv(h, s, s');
      case Promoting(_) => PerformPromotingKeepsInv(h, s, s');
    }
  }

  /** BootCheck's decision, on the three marker contents there are. */
  lemma ReturnFromCheckingKeepsInv(h: Hash, s: State, s': State)
    requires s.phase.Checking? && Inv(h, s) && Next(h, s, Return, s')
    ensures Inv(h, s')
  {
    VerdictOfMarkers(h, s.disk, s.disk.current.value);
  }

  /** The calls that only report back. */
  lemma ReturnFromCallKeepsInv(h: Hash, s: State, s': State)
    requires !s.phase.Checking? && !s.phase.Trial? && !s.phase.Staging? && Inv(h, s) && Next(h, s, Return, s')
    ensures Inv(h, s')
  {
    match s.phase {
      case Opening =>
      case Marking(_) =>
      case Confirming(_) =>
      case Reverting(_) =>
      case Promoting(_) =>
    }
  }

  /** The self-check decides between confirming and rolling back. */
  lemma ReturnFromTrialKeepsInv(h: Hash, s: State, s': State)
    requires s.phase.Trial? && Inv(h, s) && Next(h, s, Return, s')
    ensures Inv(h, s')
  {
  }

  /** VerifyStaged decides between promoting and giving up. */
  lemma ReturnFromStagingKeepsInv(h: Hash, s: State, s': State)
    requires s.phase.Staging? && Inv(h, s) && Next(h, s, Return, s')
    ensures Inv(h, s')
  {
  }

  lemma ReturnKeepsInv(h: Hash, s: State, s': State)
    requires Inv(h, s) && Next(h, s, Return, s')
    ensures Inv(h, s')
  {
    match s.phase {
      case Checking(_) => ReturnFromCheckingKeepsInv(h, s, s');
      case Trial(_) => ReturnFromTrialKeepsInv(h, s, s');
      case Staging(_) => ReturnFromStagingKeepsInv(h, s, s');
      case _ => ReturnFromCallKeepsInv(h, s, s');
    }
  }

  /** On every reachable disk BootCheck decides by three marker contents only. */
  lemma VerdictOfMarkers(h: Hash, d: Disk, a: Slot)
    requires d.current.Some? && DiskOk(h, d)
    ensures BootVerdict(d, a) ==
            if d.IsConfirmed(a) then BootNormal
            else if d.Read(a, Pending) in [None, Some("1")] then BootRolledBack
            else BootTrial
  {
    TriesOfMarkers();
  }

  /** Every step keeps the invariant: crashes, torn writes, rot and reboots included. */
  lemma NextKeepsInv(h: Hash, s: State, e: Event, s': State)
    requires Inv(h, s) && Next(h, s, e, s')
    ensures Inv(h, s')
  {
    match e {
      case PowerOn =>
      case Crash(cut) => CrashKeepsInv(h, s, cut, s');
      case Rot(slot, bytes) => RotKeepsInv(h, s, slot, bytes, s');
      case Start(_) =>
      case Perform => PerformKeepsInv(h, s, s');
      case Return => ReturnKeepsInv(h, s, s');
    }
  }
}
