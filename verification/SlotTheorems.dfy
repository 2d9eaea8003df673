/** What every run of the device keeps, and the two-state machine it refines. */
module SlotTheorems {
  import opened Wrappers
  import opened Disks
  import opened SlotMachine

  predicate IsRun(h: Hash, ss: seq<State>, es: seq<Event>) {
    && |ss| == |es| + 1
    && forall i | 0 <= i < |es| :: Next(h, ss[i], es[i], ss[i + 1])
  }

  lemma {:induction false} RunKeepsInv(h: Hash, ss: seq<State>, es: seq<Event>, n: nat)
    requires IsRun(h, ss, es) && Inv(h, ss[0]) && n < |ss|
    ensures Inv(h, ss[n])
  {
    if n > 0 {
      RunKeepsInv(h, ss, es, n - 1);
      NextKeepsInv(h, ss[n - 1], es[n - 1], ss[n]);
    }
  }

  lemma {:induction false} CurrentNeverLost(h: Hash, ss: seq<State>, es: seq<Event>, m: nat, n: nat)
    requires IsRun(h, ss, es) && m <= n < |ss| && ss[m].disk.current.Some?
    ensures ss[n].disk.current.Some?
  {
    if m < n {
      CurrentNeverLost(h, ss, es, m, n - 1);
    }
  }

  /**
   At every instant of every run of a fresh device, between any two file operations: a slot link
   that exists stays; the linked slot or the other one is confirmed; a confirmed slot is the
   factory slot or holds an image matching its own checksum; a booted agent runs a confirmed slot.
   */
  lemma CrashInvariant(h: Hash, ss: seq<State>, es: seq<Event>, m: nat, n: nat)
    requires IsRun(h, ss, es) && ss[0] == INITIAL && m <= n < |ss|
    ensures ss[m].disk.current.Some? ==> ss[n].disk.current.Some?
    ensures ss[n].disk.current.Some? ==>
              var d := ss[n].disk;
              && (d.IsConfirmed(d.current.value) || d.IsConfirmed(d.current.value.Other()))
              && (forall s: Slot :: d.IsConfirmed(s) ==> IsFactory(d, s) || d.Checks(h, s))
    ensures ss[n].phase.Idle? ==>
              ss[n].disk.current.Some? && ss[n].disk.IsConfirmed(ss[n].disk.current.value)
  {
    InitialInv(h);
    RunKeepsInv(h, ss, es, n);
    if ss[m].disk.current.Some? {
      CurrentNeverLost(h, ss, es, m, n);
    }
  }

  // ---- Refinement: a device is stable on one image, or trying another with a fallback ----

  datatype Abs =
    | Blank
    | Stable(image: Image)
    | Trying(fallback: Image, version: Option<string>, checksum: Option<string>)

  function AbsOf(d: Disk): Abs {
    if d.current.None? then Blank
    else
      var a := d.current.value;
      if d.IsConfirmed(a) then Stable(d.ImageOf(a))
      else Trying(d.ImageOf(a.Other()), d.Read(a, Version), d.Read(a, Checksum))
  }

  predicate ImageChecks(h: Hash, i: Image) {
    i.firmware.Some? && i.checksum == Some(h(i.firmware.value))
  }

  /** The abstract machine: ship, promote, confirm a checked image, or fall back to the old one. */
  predicate AbsNext(h: Hash, x: Abs, y: Abs) {
    match x
    case Blank => y == Stable(Image(Some("factory"), None, None))
    case Stable(i) => y.Trying? && y.fallback == i
    case Trying(fallback, v, c) =>
      || y == Stable(fallback)
      || (y.Stable? && y.image.version == v && y.image.checksum == c && ImageChecks(h, y.image))
  }

  lemma PerformRefines(h: Hash, s: State, s': State)
    requires Inv(h, s) && Next(h, s, Perform, s')
    ensures AbsOf(s.disk) == AbsOf(s'.disk) || AbsNext(h, AbsOf(s.disk), AbsOf(s'.disk))
  {
    PerformKeepsInv(h, s, s');
    match s.phase {
      case Opening => PerformOpeningRefines(h, s, s');
      case Marking(_) =>
      case Confirming(_) => PerformConfirmingRefines(h, s, s');
      case Reverting(_) => PerformRevertingRefines(h, s, s');
      case Staging(_) => PerformStagingRefines(h, s, s');
      case Promoting(_) => PerformPromotingRefines(h, s, s');
    }
  }

  lemma PerformOpeningRefines(h: Hash, s: State, s': State)
    requires s.phase.Opening? && Inv(h, s) && Next(h, s, Perform, s')
    ensures AbsOf(s.disk) == AbsOf(s'.disk) || AbsNext(h, AbsOf(s.disk), AbsOf(s'.disk))
  {
  }

  lemma PerformConfirmingRefines(h: Hash, s: State, s': State)
    requires s.phase.Confirming? && Inv(h, s) && Next(h, s, Perform, s')
    ensures AbsOf(s.disk) == AbsOf(s'.disk) || AbsNext(h, AbsOf(s.disk), AbsOf(s'.disk))
  {
  }

  lemma PerformRevertingRefines(h: Hash, s: State, s': State)
    requires s.phase.Reverting? && Inv(h, s) && Next(h, s, Perform, s')
    ensures AbsOf(s.disk) == AbsOf(s'.disk) || AbsNext(h, AbsOf(s.disk), AbsOf(s'.disk))
  {
    var op := s.todo[0];
    assert s'.disk.ImageOf(A) == s.disk.ImageOf(A) && s'.disk.ImageOf(B) == s.disk.ImageOf(B);
    assert s'.disk.IsConfirmed(A) == s.disk.IsConfirmed(A) && s'.disk.IsConfirmed(B) == s.disk.IsConfirmed(B);
    assert !op.RenameTmp? ==> s'.disk.current == s.disk.current;
    assert op.RenameTmp? ==> s'.disk.current == Some(s.disk.current.value.Other());
  }

  lemma PerformStagingRefines(h: Hash, s: State, s': State)
    requires s.phase.Staging? && Inv(h, s) && Next(h, s, Perform, s')
    ensures AbsOf(s.disk) == AbsOf(s'.disk)
  {
  }

  lemma PerformPromotingRefines(h: Hash, s: State, s': State)
    requires s.phase.Promoting? && Inv(h, s) && Next(h, s, Perform, s')
    ensures AbsOf(s.disk) == AbsOf(s'.disk) || AbsNext(h, AbsOf(s.disk), AbsOf(s'.disk))
  {
  }

  /** A power loss may tear a write but never moves the abstract device, except to a step it could take. */
  lemma CrashRefines(h: Hash, s: State, cut: Option<nat>, s': State)
    requires Inv(h, s) && Next(h, s, Crash(cut), s')
    ensures AbsOf(s.disk) == AbsOf(s'.disk) || AbsNext(h, AbsOf(s.disk), AbsOf(s'.disk))
  {
    if s.todo != [] && s.todo[0].Write? && cut.Some? && cut.value <= |s.todo[0].content| {
      match s.phase {
        case Opening =>
        case Marking(_) =>
        case Confirming(_) =>
          PerformConfirmingRefines(h, s, State(Apply(s.disk, s.todo[0]), s.phase, s.todo[1..]));
        case Reverting(_) =>
        case Staging(_) =>
        case Promoting(_) =>
      }
    }
  }

  /** Every file-level step is one step of the abstract machine or leaves it alone. */
  lemma StepRefines(h: Hash, s: State, e: Event, s': State)
    requires Inv(h, s) && Next(h, s, e, s')
    ensures AbsOf(s.disk) == AbsOf(s'.disk) || AbsNext(h, AbsOf(s.disk), AbsOf(s'.disk))
  {
    match e {
      case PowerOn =>
      case Crash(cut) => CrashRefines(h, s, cut, s');
      case Rot(slot, bytes) =>
      case Start(_) =>
      case Perform => PerformRefines(h, s, s');
      case Return =>
    }
  }

  /** The disks of a run from a fresh device are a (stuttering) run of the abstract machine. */
  lemma RunRefines(h: Hash, ss: seq<State>, es: seq<Event>)
    requires IsRun(h, ss, es) && ss[0] == INITIAL
    ensures AbsOf(ss[0].disk) == Blank
    ensures forall i | 0 <= i < |es| ::
              var x, y := AbsOf(ss[i].disk), AbsOf(ss[i + 1].disk); x == y || AbsNext(h, x, y)
  {
    InitialInv(h);
    forall i | 0 <= i < |es|
      ensures var x, y := AbsOf(ss[i].disk), AbsOf(ss[i + 1].disk); x == y || AbsNext(h, x, y)
    {
      RunKeepsInv(h, ss, es, i);
      StepRefines(h, ss[i], es[i], ss[i + 1]);
    }
  }

  /**
   Why rot is excluded between the self-check and its marker: there the verdict is not taken
   again, so an image that rots in that window ends confirmed without matching its checksum.
   */
  lemma RotAfterSelfCheck(h: Hash, s: State, bytes: string)
    requires Inv(h, s) && s.phase.Confirming? && s.todo == ConfirmOps(s.disk.current.value)
    requires s.disk.Has(s.disk.current.value, Checksum)
    requires h(bytes) != s.disk.files[Path(s.disk.current.value, Checksum)]
    ensures var a := s.disk.current.value;
            var rotten := s.disk.(files := s.disk.files[Path(a, Firmware) := bytes]);
            var d := Apply(rotten, s.todo[0]);
            d.IsConfirmed(a) && !d.Checks(h, a) && !IsFactory(d, a)
  {
    var a := s.disk.current.value;
    var rotten := s.disk.(files := s.disk.files[Path(a, Firmware) := bytes]);
    assert Apply(rotten, s.todo[0]).Read(a, Firmware) == Some(bytes);
  }

  // ---- Try-once ----

  /** BootCheck returns BootTrial. */
  predicate GrantsTrial(s: State, e: Event) {
    e.Return? && s.phase.Marking?
  }

  /** The link flips to a freshly staged slot. */
  predicate Promotes(s: State, e: Event) {
    e.Perform? && s.phase.Promoting? && s.todo != [] && s.todo[0].RenameTmp?
  }

  /** The link flips away from a slot that failed its trial. */
  predicate Reverts(s: State, e: Event) {
    e.Perform? && s.phase.Reverting? && s.todo != [] && s.todo[0].RenameTmp?
  }

  /** No trial can be granted on this disk. */
  predicate Spent(s: State) {
    && s.disk.current.Some?
    && !s.phase.Marking?
    && (s.disk.IsConfirmed(s.disk.current.value)
        || s.disk.Read(s.disk.current.value, Pending) in [None, Some("1")])
  }

  lemma PerformKeepsSpent(h: Hash, s: State, s': State)
    requires Inv(h, s) && Spent(s) && Next(h, s, Perform, s') && !Promotes(s, Perform)
    ensures Spent(s')
  {
    match s.phase {
      case Opening =>
      case Confirming(_) =>
      case Reverting(_) =>
      case Staging(_) =>
      case Promoting(_) =>
    }
  }

  lemma CrashKeepsSpent(h: Hash, s: State, cut: Option<nat>, s': State)
    requires Inv(h, s) && Spent(s) && Next(h, s, Crash(cut), s')
    ensures Spent(s')
  {
    if s.todo != [] {
      match s.phase {
        case Opening =>
        case Confirming(_) =>
        case Reverting(_) =>
        case Staging(_) =>
        case Promoting(_) =>
      }
    }
  }

  lemma SpentKept(h: Hash, s: State, e: Event, s': State)
    requires Inv(h, s) && Spent(s) && Next(h, s, e, s') && !Promotes(s, e)
    ensures Spent(s')
  {
    match e {
      case PowerOn =>
      case Crash(cut) => CrashKeepsSpent(h, s, cut, s');
      case Rot(_, _) =>
      case Start(_) =>
      case Perform => PerformKeepsSpent(h, s, s');
      case Return => VerdictOfMarkers(h, s.disk, s.disk.current.value);
    }
  }

  /** Two trials are never granted without a promotion in between, whatever crashes tear. */
  lemma TryOnce(h: Hash, ss: seq<State>, es: seq<Event>, i: nat, j: nat)
    requires IsRun(h, ss, es) && ss[0] == INITIAL && i < j < |es|
    requires GrantsTrial(ss[i], es[i]) && GrantsTrial(ss[j], es[j])
    ensures exists k :: i < k < j && Promotes(ss[k], es[k])
  {
    InitialInv(h);
    RunKeepsInv(h, ss, es, i);
    var n := i + 1;
    while n < j && !Promotes(ss[n], es[n])
      invariant i < n <= j && Spent(ss[n])
    {
      RunKeepsInv(h, ss, es, n);
      SpentKept(h, ss[n], es[n], ss[n + 1]);
      n := n + 1;
    }
  }

  predicate SettledOn(good: Slot, s: State) {
    && s.disk.current == Some(good) && s.disk.IsConfirmed(good)
  }

  lemma SettledKept(h: Hash, good: Slot, s: State, e: Event, s': State)
    requires Inv(h, s) && SettledOn(good, s) && Next(h, s, e, s') && !Promotes(s, e)
    ensures SettledOn(good, s')
    ensures !s.phase.Staging? && !s.phase.Promoting? && !e.Start? ==> !s'.phase.Staging? && !s'.phase.Promoting?
  {
    if e.Perform? {
      match s.phase {
        case Opening =>
        case Marking(_) =>
        case Confirming(_) =>
        case Reverting(_) =>
        case Staging(_) =>
        case Promoting(_) =>
      }
    }
  }

  /** A slot that was rolled back is active again only after a new staging and then a new promotion. */
  lemma RolledBackStaysOut(h: Hash, ss: seq<State>, es: seq<Event>, i: nat, j: nat)
    requires IsRun(h, ss, es) && ss[0] == INITIAL && i < j < |ss|
    requires Reverts(ss[i], es[i]) && ss[i].disk.current.Some? && ss[j].disk.current == ss[i].disk.current
    ensures exists m, n :: i < m < n < j && es[m].Start? && Promotes(ss[n], es[n])
  {
    InitialInv(h);
    RunKeepsInv(h, ss, es, i);
    RunKeepsInv(h, ss, es, i + 1);
    var good := ss[i].disk.current.value.Other();
    var n := i + 1;
    ghost var m := i;
    while n < j && !Promotes(ss[n], es[n])
      invariant i < n <= j && SettledOn(good, ss[n])
      invariant i <= m < n
      invariant if m == i then !ss[n].phase.Staging? && !ss[n].phase.Promoting? else es[m].Start?
    {
      RunKeepsInv(h, ss, es, n);
      SettledKept(h, good, ss[n], es[n], ss[n + 1]);
      if es[n].Start? {
        m := n;
      }
      n := n + 1;
    }
  }

  // ---- All or nothing ----

  /**
   Between the start of a transaction on disk `d0` and the next start: the slot that was active
   is untouched, and the link names it or the other slot carrying the target's version and checksum.
   */
  predicate TxnOk(d0: Disk, t: Target, s: State)
    requires d0.current.Some?
  {
    var x := d0.current.value;
    var d := s.disk;
    && d.IsConfirmed(x)
    && (forall f: File :: d.Read(x, f) == d0.Read(x, f))
    && (d.current == Some(x) || (d.current == Some(x.Other()) && Carries(d, x.Other(), t)))
    && (s.phase.Staging? ==> s.phase.target == t && d.current == Some(x))
    && (s.phase.Promoting? ==> s.phase.target == t && (s.todo != [] ==> d.current == Some(x)))
    && (s.phase.Confirming? ==> d.current == Some(x.Other()))
    && (s.phase.Reverting? && s.todo != [] ==> d.current == Some(x.Other()))
  }

  lemma PerformStagingKeepsTxn(h: Hash, d0: Disk, t: Target, s: State, s': State)
    requires d0.current.Some? && Inv(h, s) && TxnOk(d0, t, s) && Next(h, s, Perform, s')
    requires s.phase.Staging?
    ensures TxnOk(d0, t, s')
  {
    OtherSlotStays(s.disk, s.todo[0], d0.current.value);
  }

  lemma PerformPromotingKeepsTxn(h: Hash, d0: Disk, t: Target, s: State, s': State)
    requires d0.current.Some? && Inv(h, s) && TxnOk(d0, t, s) && Next(h, s, Perform, s')
    requires s.phase.Promoting?
    ensures TxnOk(d0, t, s')
  {
    OtherSlotStays(s.disk, s.todo[0], d0.current.value);
  }

  lemma PerformKeepsTxn(h: Hash, d0: Disk, t: Target, s: State, s': State)
    requires d0.current.Some? && Inv(h, s) && TxnOk(d0, t, s) && Next(h, s, Perform, s')
    ensures TxnOk(d0, t, s')
  {
    match s.phase {
      case Opening =>
      case Marking(_) =>
      case Confirming(_) => OtherSlotStays(s.disk, s.todo[0], d0.current.value);
      case Reverting(_) => OtherSlotStays(s.disk, s.todo[0], d0.current.value);
      case Staging(_) => PerformStagingKeepsTxn(h, d0, t, s, s');
      case Promoting(_) => PerformPromotingKeepsTxn(h, d0, t, s, s');
    }
  }

  lemma CrashKeepsTxn(h: Hash, d0: Disk, t: Target, s: State, cut: Option<nat>, s': State)
    requires d0.current.Some? && Inv(h, s) && TxnOk(d0, t, s) && Next(h, s, Crash(cut), s')
    ensures TxnOk(d0, t, s')
  {
    if s.todo != [] {
      match s.phase {
        case Opening =>
        case Marking(_) =>
        case Confirming(_) =>
        case Reverting(_) =>
        case Staging(_) =>
        case Promoting(_) =>
      }
    }
  }

  lemma NextKeepsTxn(h: Hash, d0: Disk, t: Target, s: State, e: Event, s': State)
    requires d0.current.Some? && Inv(h, s) && TxnOk(d0, t, s) && Next(h, s, e, s') && !e.Start?
    ensures TxnOk(d0, t, s')
  {
    match e {
      case PowerOn =>
      case Crash(cut) => CrashKeepsTxn(h, d0, t, s, cut, s');
      case Rot(_, _) =>
      case Perform => PerformKeepsTxn(h, d0, t, s, s');
      case Return =>
    }
  }

  lemma {:induction false} TxnOkThroughout(h: Hash, ss: seq<State>, es: seq<Event>, i: nat, j: nat, t: Target)
    requires IsRun(h, ss, es) && Inv(h, ss[0]) && i < j < |ss|
    requires es[i] == Start(t) && forall k | i < k < j :: !es[k].Start?
    ensures ss[i].disk.current.Some? && TxnOk(ss[i].disk, t, ss[j])
  {
    RunKeepsInv(h, ss, es, i);
    RunKeepsInv(h, ss, es, j - 1);
    if i + 1 == j {
      assert Next(h, ss[i], es[i], ss[j]);
    } else {
      TxnOkThroughout(h, ss, es, i, j - 1, t);
      NextKeepsTxn(h, ss[i].disk, t, ss[j - 1], es[j - 1], ss[j]);
    }
  }

  /**
   Whatever crashes, torn writes, reboots and rot follow the start of a transaction: whenever the
   agent is up again, it runs, confirmed, either the slot it ran before, with every file of that
   slot as it was, or the other slot with the target's version and checksum and an image that
   passes the self-check; with no colliding image, the target image itself.
   */
  lemma AllOrNothing(h: Hash, ss: seq<State>, es: seq<Event>, i: nat, j: nat, t: Target)
    requires IsRun(h, ss, es) && ss[0] == INITIAL && i < j < |ss|
    requires es[i] == Start(t) && forall k | i < k < j :: !es[k].Start?
    requires ss[j].phase.Idle?
    ensures ss[i].disk.current.Some? && ss[j].disk.current.Some?
    ensures var x, a, d := ss[i].disk.current.value, ss[j].disk.current.value, ss[j].disk;
            && d.IsConfirmed(a)
            && (forall f: File :: d.Read(x, f) == ss[i].disk.Read(x, f))
            && (a != x ==>
                  && d.Read(a, Version) == Some(t.version)
                  && d.Read(a, Checksum) == Some(t.checksum)
                  && d.Has(a, Firmware) && h(d.files[Path(a, Firmware)]) == t.checksum
                  && ((forall b :: h(b) == t.checksum ==> b == t.image) ==> d.Read(a, Firmware) == Some(t.image)))
  {
    InitialInv(h);
    RunKeepsInv(h, ss, es, j);
    TxnOkThroughout(h, ss, es, i, j, t);
  }
}
