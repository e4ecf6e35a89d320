/** The physical side of a weld cycle: the two hand keys and the two cylinder
    sensors, read as raw levels (low is pressed or sensed). */
module WeldTrigger {
  import opened Words
  import WeldFsm

  datatype Trig = Trig(inCycle: bool, dnBak: bool, upBak: bool)

  const BOOT: Trig := Trig(false, true, true)

  /** Levels: true is high, that is released. */
  datatype Keys = Keys(key1: bool, key2: bool, sensUp: bool, sensDn: bool)

  datatype Pulses = Pulses(start: bool, safetyAbort: bool, dnEdge: bool, upEdge: bool)

  predicate BothPressed(k: Keys) { !k.key1 && !k.key2 }

  predicate BothReleased(k: Keys) { k.key1 && k.key2 }

  function Next(t: Trig, k: Keys, safety: byte, phase: WeldFsm.Phase): (Trig, Pulses) {
    (Trig(t.inCycle && !(BothReleased(k) && phase.Ready?), k.sensDn, k.sensUp),
     Pulses(
       BothPressed(k) && !t.inCycle,
       safety != 0 && phase.Cyl1? && !BothPressed(k),
       !k.sensDn && t.dnBak,
       !k.sensUp && t.upBak))
  }

  class Trigger {
    var inCycle: bool
    var dnBak: bool
    var upBak: bool

    ghost function Now(): Trig
      reads this
    {
      Trig(inCycle, dnBak, upBak)
    }

    constructor ()
      ensures Now() == BOOT
    {
      inCycle := false;
      dnBak := true;
      upBak := true;
    }

    /** Armed only when a cycle really starts. */
    method CycleStarted()
      modifies this
      ensures Now() == old(Now()).(inCycle := true)
    {
      inCycle := true;
    }

    method Step(k: Keys, safety: byte, phase: WeldFsm.Phase) returns (p: Pulses)
      modifies this
      ensures (Now(), p) == Next(old(Now()), k, safety, phase)
    {
      var start := !k.key1 && !k.key2 && !inCycle;
      if k.key1 && k.key2 && phase == WeldFsm.Ready {
        inCycle := false;
      }
      var abort := safety != 0 && phase == WeldFsm.Cyl1 && (k.key1 || k.key2);
      p := Pulses(start, abort, !k.sensDn && dnBak, !k.sensUp && upBak);
      dnBak := k.sensDn;
      upBak := k.sensUp;
    }
  }
}
