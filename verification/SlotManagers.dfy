/** The slot manager of internal/agent/slot.go, on a disk whose power can fail at any operation. */
module SlotManagers {
  import opened Wrappers
  import opened Disks

  /** What a call returns: Go's value or error, or nothing because the process died inside it. */
  datatype Result<+T> = Ok(value: T) | Err | Died

  datatype Unit = Unit

  function ApplyAll(d: Disk, ops: seq<Op>): Disk
    decreases |ops|
  {
    if ops == [] then d else Apply(ApplyAll(d, ops[..|ops| - 1]), ops[|ops| - 1])
  }

  lemma {:induction false} ExecIsTornPrefix(d: Disk, ops: seq<Op>, power: nat, cut: Option<nat>)
    ensures Exec(d, ops, power, cut) ==
            if power < |ops| then Torn(ApplyAll(d, ops[..power]), ops[power], cut) else ApplyAll(d, ops)
    decreases |ops|
  {
    if ops != [] && power > 0 {
      var n := if power < |ops| then power else |ops|;
      ExecIsTornPrefix(Apply(d, ops[0]), ops[1..], power - 1, cut);
      ApplyFirst(d, ops[..n]);
      assert ops[..n][1..] == ops[1..][..n - 1] && ops[..|ops|] == ops && ops[1..][..|ops| - 1] == ops[1..];
    }
  }

  lemma {:induction false} ApplyFirst(d: Disk, ops: seq<Op>)
    requires ops != []
    ensures ApplyAll(d, ops) == ApplyAll(Apply(d, ops[0]), ops[1..])
    decreases |ops|
  {
    var last := |ops| - 1;
    if last == 0 {
      assert ApplyAll(d, ops[..0]) == d;
    } else {
      ApplyFirst(d, ops[..last]);
      assert ops[..last][1..] == ops[1..][..last - 1];
    }
  }

  /** The version file of the active slot; empty when there is none to read. */
  function VersionOf(d: Disk): string {
    if d.current.Some? && d.Has(d.current.value, Version) then d.files[Path(d.current.value, Version)] else ""
  }

  /** A call in progress: the disk and power it started with, and the operations it is to perform. */
  datatype Call = Call(disk: Disk, power: nat, ops: seq<Op>)

  class SlotManager {
    var disk: Disk
    var power: nat            // file operations left before the power fails
    const cut: Option<nat>    // how the operation in progress is torn when it does

    constructor (disk: Disk, power: nat, cut: Option<nat>)
      ensures this.disk == disk && this.power == power && this.cut == cut
    {
      this.disk, this.power, this.cut := disk, power, cut;
    }

    /** The first `k` operations of the call are done. */
    ghost predicate Through(c: Call, k: nat)
      reads this
    {
      && k <= |c.ops| && k <= c.power
      && disk == ApplyAll(c.disk, c.ops[..k]) && power == c.power - k
    }

    /** The call is over: completed, or cut off by the power loss inside operation `c.power`. */
    ghost predicate Over(c: Call, died: bool)
      reads this
    {
      && disk == Exec(c.disk, c.ops, c.power, cut)
      && (died <==> c.power < |c.ops|)
      && power == if died then 0 else c.power - |c.ops|
    }

    method Do(op: Op, ghost c: Call, ghost k: nat) returns (ok: bool)
      requires Through(c, k) && k < |c.ops| && c.ops[k] == op
      modifies this
      ensures ok ==> Through(c, k + 1) && (k + 1 == |c.ops| ==> Over(c, false)) && disk == Apply(old(disk), op)
      ensures !ok ==> Over(c, true)
    {
      ExecIsTornPrefix(c.disk, c.ops, c.power, cut);
      assert c.ops[..k + 1][..k] == c.ops[..k] && c.ops[..|c.ops|] == c.ops;
      ok := power > 0;
      if ok {
        disk, power := Apply(disk, op), power - 1;
      } else {
        disk := Torn(disk, op, cut);
      }
    }

    method Active() returns (r: Result<Slot>)
      ensures r == if disk.current.Some? then Ok(disk.current.value) else Err
    {
      r := if disk.current.Some? then Ok(disk.current.value) else Err;
    }

    method ActiveVersion() returns (v: string)
      ensures v == VersionOf(disk)
    {
      var active := Active();
      if active.Ok? && disk.Has(active.value, Version) {
        return disk.files[Path(active.value, Version)];
      }
      return "";
    }

    /** NewSlotManager: create the factory state unless the link exists. */
    method Open() returns (r: Result<Unit>)
      modifies this
      ensures !r.Err?
      ensures Over(Call(old(disk), old(power), if old(disk).current.None? then FactoryOps() else []), r.Died?)
    {
      ghost var c := Call(disk, power, FactoryOps());
      if disk.current.None? {
        var ok := Do(Write(A, Version, "factory"), c, 0);
        if !ok { return Died; }
        ok := Do(Write(A, Confirmed, ""), c, 1);
        if !ok { return Died; }
        r := SwitchTo(A, c, 2);
      } else {
        r := Ok(Unit);
      }
    }

    method SwitchTo(s: Slot, ghost c: Call, ghost k: nat) returns (r: Result<Unit>)
      requires Through(c, k) && k + 3 == |c.ops| && c.ops[k..] == SwitchOps(s)
      modifies this
      ensures !r.Err? && Over(c, r.Died?)
      ensures r.Ok? ==> disk.current == Some(s) && disk.files == old(disk).files
    {
      assert c.ops[k] == SwitchOps(s)[0] && c.ops[k + 1] == SwitchOps(s)[1] && c.ops[k + 2] == SwitchOps(s)[2];
      var ok := Do(RemoveTmp, c, k);
      if !ok { return Died; }
      ok := Do(LinkTmp(s), c, k + 1);
      if !ok { return Died; }
      ok := Do(RenameTmp, c, k + 2);
      if !ok { return Died; }
      return Ok(Unit);
    }

    method Stage(image: string, version: string, checksum: string) returns (r: Result<Unit>)
      modifies this
      ensures r.Err? <==> old(disk).current.None?
      ensures r.Err? ==> disk == old(disk) && power == old(power)
      ensures !r.Err? ==>
                Over(Call(old(disk), old(power),
                          StageOps(old(disk).current.value.Other(), image, version, checksum)), r.Died?)
      ensures r.Ok? ==>
                && disk.current == old(disk).current
                && disk.ImageOf(disk.current.value.Other()) == Image(Some(version), Some(image), Some(checksum))
    {
      var active := Active();
      if active.Err? { return Err; }
      var t := active.value.Other();
      ghost var c := Call(disk, power, StageOps(t, image, version, checksum));
      var ok := Do(Remove(t, Confirmed), c, 0);
      if !ok { return Died; }
      ok := Do(Remove(t, Pending), c, 1);
      if !ok { return Died; }
      ok := Do(Write(t, Firmware, image), c, 2);
      if !ok { return Died; }
      ok := Do(Write(t, Version, version), c, 3);
      if !ok { return Died; }
      ok := Do(Write(t, Checksum, checksum), c, 4);
      if !ok { return Died; }
      return Ok(Unit);
    }

    /** VerifyStaged (for the inactive slot) and SelfCheck (for the active one). */
    method Verify(h: Hash, staged: bool) returns (r: Result<Unit>)
      ensures r.Ok? <==> && disk.current.Some?
                         && disk.Checks(h, if staged then disk.current.value.Other() else disk.current.value)
      ensures !r.Died?
    {
      var active := Active();
      if active.Err? { return Err; }
      var s := if staged then active.value.Other() else active.value;
      if !disk.Has(s, Checksum) || !disk.Has(s, Firmware) { return Err; }
      if h(disk.files[Path(s, Firmware)]) != disk.files[Path(s, Checksum)] { return Err; }
      return Ok(Unit);
    }

    method PromoteStaged() returns (r: Result<Unit>)
      modifies this
      ensures r.Err? <==> old(disk).current.None?
      ensures r.Err? ==> disk == old(disk) && power == old(power)
      ensures !r.Err? ==>
                Over(Call(old(disk), old(power), PromoteOps(old(disk).current.value.Other())), r.Died?)
      ensures r.Ok? ==> disk.current == Some(old(disk).current.value.Other())
      ensures r.Ok? ==> forall s: Slot :: disk.ImageOf(s) == old(disk).ImageOf(s)
    {
      var active := Active();
      if active.Err? { return Err; }
      var t := active.value.Other();
      ghost var c := Call(disk, power, PromoteOps(t));
      var ok := Do(Write(t, Pending, "0"), c, 0);
      if !ok { return Died; }
      r := SwitchTo(t, c, 1);
    }

    /** The operations BootCheck performs once it has read the active slot `a`. */
    static function BootOps(d: Disk, a: Slot): seq<Op> {
      match BootVerdict(d, a)
      case BootNormal => []
      case BootTrial => TrialOps(a)
      case BootRolledBack => RollbackOps(a)
    }

    method BootCheck() returns (r: Result<BootResult>)
      modifies this
      ensures r.Err? <==> old(disk).current.None?
      ensures r.Err? ==> disk == old(disk) && power == old(power)
      ensures r.Ok? ==> r.value == BootVerdict(old(disk), old(disk).current.value)
      ensures !r.Err? ==>
                Over(Call(old(disk), old(power), BootOps(old(disk), old(disk).current.value)), r.Died?)
      ensures r == Ok(BootTrial) ==>
                disk.current == old(disk).current && forall s: Slot :: disk.ImageOf(s) == old(disk).ImageOf(s)
    {
      var active := Active();
      if active.Err? { return Err; }
      var a := active.value;
      if disk.Has(a, Confirmed) { return Ok(BootNormal); }
      if !disk.Has(a, Pending) {
        var reverted := RollbackFrom(a);
        return if reverted.Died? then Died else Ok(BootRolledBack);
      }
      var tries := Tries(disk.files[Path(a, Pending)]);
      if tries >= 1 {
        var reverted := RollbackFrom(a);
        return if reverted.Died? then Died else Ok(BootRolledBack);
      }
      ghost var c := Call(disk, power, TrialOps(a));
      var ok := Do(Write(a, Pending, "1"), c, 0);
      return if ok then Ok(BootTrial) else Died;
    }

    method RollbackFrom(bad: Slot) returns (r: Result<Unit>)
      modifies this
      ensures !r.Err? && Over(Call(old(disk), old(power), RollbackOps(bad)), r.Died?)
      ensures r.Ok? ==> disk.current == Some(bad.Other())
    {
      ghost var c := Call(disk, power, RollbackOps(bad));
      var ok := Do(Remove(bad, Pending), c, 0);
      if !ok { return Died; }
      r := SwitchTo(bad.Other(), c, 1);
    }

    method Rollback() returns (r: Result<Unit>)
      modifies this
      ensures r.Err? <==> old(disk).current.None?
      ensures r.Err? ==> disk == old(disk) && power == old(power)
      ensures !r.Err? ==> Over(Call(old(disk), old(power), RollbackOps(old(disk).current.value)), r.Died?)
      ensures r.Ok? ==> disk.current == Some(old(disk).current.value.Other())
    {
      var active := Active();
      if active.Err? { return Err; }
      r := RollbackFrom(active.value);
    }

    /** Err also when the marker to remove is missing, although the slot is confirmed by then. */
    method Confirm() returns (r: Result<Unit>)
      modifies this
      ensures old(disk).current.None? ==> r.Err? && disk == old(disk) && power == old(power)
      ensures old(disk).current.Some? ==>
                && Over(Call(old(disk), old(power), ConfirmOps(old(disk).current.value)), r.Died?)
                && (r.Ok? ==> old(disk).Has(old(disk).current.value, Pending))
                && (r.Err? ==> !old(disk).Has(old(disk).current.value, Pending))
      ensures !r.Died? ==> disk.current == old(disk).current
    {
      var active := Active();
      if active.Err? { return Err; }
      var a := active.value;
      ghost var c := Call(disk, power, ConfirmOps(a));
      var had := disk.Has(a, Pending);
      var ok := Do(Write(a, Confirmed, ""), c, 0);
      if !ok { return Died; }
      ok := Do(Remove(a, Pending), c, 1);
      if !ok { return Died; }
      return if had then Ok(Unit) else Err;
    }

    /** Storage decay of the image in slot `s`. */
    method Decay(s: Slot, bytes: string)
      requires disk.Has(s, Firmware)
      modifies this`disk
      ensures disk == old(disk).(files := old(disk).files[Path(s, Firmware) := bytes])
    {
      disk := disk.(files := disk.files[Path(s, Firmware) := bytes]);
    }
  }
}
