/**
 The data directory of one device: two slot directories and the `current` symlink, with the
 file operations of internal/agent/slot.go as data. An operation list is what one call of the
 slot manager performs, so a power loss is a cut through a list.
 */
module Disks {
  import opened Wrappers

  datatype Slot = A | B {
    function Other(): Slot {
      if this == A then B else A
    }
  }

  datatype File = Firmware | Version | Checksum | Pending | Confirmed

  datatype Path = Path(slot: Slot, file: File)

  /** The digest function; SHA-256 stays uninterpreted. */
  type Hash = string -> string

  datatype Image = Image(version: Option<string>, firmware: Option<string>, checksum: Option<string>)

  /** `current` and `tmp` are the symlink and the temporary link that is renamed over it. */
  datatype Disk = Disk(files: map<Path, string>, current: Option<Slot>, tmp: Option<Slot>) {
    predicate Has(s: Slot, f: File) {
      Path(s, f) in files
    }

    function Read(s: Slot, f: File): Option<string> {
      if Has(s, f) then Some(files[Path(s, f)]) else None
    }

    predicate IsConfirmed(s: Slot) {
      Has(s, Confirmed)
    }

    function ImageOf(s: Slot): Image {
      Image(Read(s, Version), Read(s, Firmware), Read(s, Checksum))
    }

    /** VerifySHA256 of a slot's image against the checksum stored in that slot. */
    predicate Checks(h: Hash, s: Slot) {
      Has(s, Checksum) && Has(s, Firmware) && h(files[Path(s, Firmware)]) == files[Path(s, Checksum)]
    }
  }

  const BLANK := Disk(map[], None, None)

  datatype Op =
    | Remove(slot: Slot, file: File)
    | Write(slot: Slot, file: File, content: string)
    | RemoveTmp
    | LinkTmp(slot: Slot)
    | RenameTmp

  /** One completed file operation; linking over an existing name and renaming a missing one fail. */
  function Apply(d: Disk, op: Op): Disk {
    match op
    case Remove(s, f) => d.(files := d.files - {Path(s, f)})
    case Write(s, f, c) => d.(files := d.files[Path(s, f) := c])
    case RemoveTmp => d.(tmp := None)
    case LinkTmp(s) => if d.tmp.None? then d.(tmp := Some(s)) else d
    case RenameTmp => if d.tmp.Some? then d.(current := d.tmp, tmp := None) else d
  }

  /**
   What a power loss during `op` leaves: nothing of it (`cut` is None), or, for a write, the
   file truncated and any prefix of the new content on disk.
   */
  function Torn(d: Disk, op: Op, cut: Option<nat>): Disk {
    if cut.Some? && op.Write? && cut.value <= |op.content|
    then d.(files := d.files[Path(op.slot, op.file) := op.content[..cut.value]])
    else d
  }

  /** Perform `ops` with power for `power` operations; the next one is torn at `cut`. */
  function Exec(d: Disk, ops: seq<Op>, power: nat, cut: Option<nat>): Disk
    decreases |ops|
  {
    if ops == [] then d
    else if power == 0 then Torn(d, ops[0], cut)
    else Exec(Apply(d, ops[0]), ops[1..], power - 1, cut)
  }

  function SwitchOps(s: Slot): seq<Op> {
    [RemoveTmp, LinkTmp(s), RenameTmp]
  }

  function FactoryOps(): seq<Op> {
    [Write(A, Version, "factory"), Write(A, Confirmed, "")] + SwitchOps(A)
  }

  function StageOps(t: Slot, image: string, version: string, checksum: string): seq<Op> {
    [Remove(t, Confirmed), Remove(t, Pending),
     Write(t, Firmware, image), Write(t, Version, version), Write(t, Checksum, checksum)]
  }

  function PromoteOps(t: Slot): seq<Op> {
    [Write(t, Pending, "0")] + SwitchOps(t)
  }

  function TrialOps(s: Slot): seq<Op> {
    [Write(s, Pending, "1")]
  }

  function ConfirmOps(s: Slot): seq<Op> {
    [Write(s, Confirmed, ""), Remove(s, Pending)]
  }

  function RollbackOps(bad: Slot): seq<Op> {
    [Remove(bad, Pending)] + SwitchOps(bad.Other())
  }

  /** strconv.Atoi with its error ignored: a torn (empty) or malformed counter reads as 0. */
  function Tries(content: string): nat {
    if content != [] && AllDigits(content) then Decimal(content) else 0
  }

  predicate AllDigits(content: string) {
    forall i | 0 <= i < |content| :: '0' <= content[i] <= '9'
  }

  function Decimal(digits: string): nat
    requires AllDigits(digits)
  {
    if digits == [] then 0
    else
      var last := digits[|digits| - 1];
      10 * Decimal(digits[..|digits| - 1]) + (last as nat - '0' as nat)
  }

  datatype BootResult = BootNormal | BootTrial | BootRolledBack

  /** The decision BootCheck takes when it reads slot `a` as the active one. */
  function BootVerdict(d: Disk, a: Slot): BootResult {
    if d.IsConfirmed(a) then BootNormal
    else if !d.Has(a, Pending) then BootRolledBack
    else if Tries(d.files[Path(a, Pending)]) >= 1 then BootRolledBack
    else BootTrial
  }

  lemma TriesOfMarkers()
    ensures Tries("") == 0 && Tries("0") == 0 && Tries("1") == 1
  {
    assert "0"[..0] == "" && "1"[..0] == "";
    assert Decimal("0") == 10 * Decimal("") + 0;
    assert Decimal("1") == 10 * Decimal("") + 1;
  }

  /** A torn write is real: it may leave the file with any prefix of its content, the empty one included. */
  lemma TornReads(d: Disk, s: Slot, f: File, content: string, k: nat)
    requires k <= |content|
    ensures var t := Torn(d, Write(s, f, content), Some(k));
            && t.Read(s, f) == Some(content[..k]) && t.current == d.current && t.tmp == d.tmp
            && forall s': Slot, f': File | Path(s', f') != Path(s, f) :: t.Read(s', f') == d.Read(s', f')
  {
  }
}
