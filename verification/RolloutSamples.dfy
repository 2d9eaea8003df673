/** A fleet of three, for the inputs at which a promise ends. */
module RolloutSamples {
  import opened Wrappers
  import opened Devices
  import opened Rollouts

  function Bit(b: bool): nat {
    if b then 1 else 0
  }

  /** A device that wants `desired`, runs `current` and is in `phase`. */
  function Sample(desired: string, current: string, phase: DevicePhase): Device {
    Device(1, Spec(desired, "", "", false), Status(phase, [], current, "A", None, 0))
  }

  const THREE := [Item("a", 0, Sample("v2", "v1", Degraded)), Item("b", 0, Sample("v2", "v2", Ready)),
                  Item("c", 0, Sample("v1", "v1", Ready))]

  lemma SampleKinds()
    ensures KindOf(THREE[0].device, "v2") == Failed && KindOf(THREE[1].device, "v2") == Succeeded
    ensures KindOf(THREE[2].device, "v2") == Untargeted && Eligible(THREE[2].device, "v2")
  {
    assert "v1"[1] != "v2"[1];
  }

  lemma SampleCounts(k: Kind)
    ensures Count(THREE, "v2", k) == Bit(k.Failed?) + Bit(k.Succeeded?) + Bit(k.Untargeted?)
  {
    SampleKinds();
    assert Count(THREE[..0], "v2", k) == 0;
    assert THREE[..1][..0] == THREE[..0] && THREE[..2][..1] == THREE[..1];
    assert Count(THREE[..1], "v2", k) == Bit(k.Failed?);
    assert Count(THREE[..2], "v2", k) == Bit(k.Failed?) + Bit(k.Succeeded?);
  }
}
