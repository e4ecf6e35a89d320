/** The hold-to-run watchdog: START=2 arms it, START=3 keeps it, and a run that
    is not kept for HOLD_MS is stopped. */
module HoldWatchdog {
  import opened Words

  const HOLD_MS: nat := 600

  datatype Wdt = Wdt(armed: bool, keep: u32)

  function Kept(w: Wdt, now: u32): Wdt {
    if w.armed then w.(keep := now) else w
  }

  /** The session ends quietly when the run is no longer a remote one. */
  predicate Trips(w: Wdt, now: u32, runIsComm: bool) {
    w.armed && runIsComm && Elapsed(now, w.keep) >= HOLD_MS
  }

  function Stepped(w: Wdt, now: u32, runIsComm: bool): Wdt {
    if w.armed && (!runIsComm || Trips(w, now, runIsComm)) then w.(armed := false) else w
  }

  class HoldWdt {
    var armed: bool
    var lastKeep: u32

    ghost function State(): Wdt
      reads this
    {
      Wdt(armed, lastKeep)
    }

    constructor ()
      ensures State() == Wdt(false, 0)
    {
      armed := false;
      lastKeep := 0;
    }

    method Arm(now: u32)
      modifies this
      ensures State() == Wdt(true, now)
    {
      armed := true;
      lastKeep := now;
    }

    /** The keep signal has no power to start anything. */
    method Keep(now: u32)
      modifies this
      ensures State() == Kept(old(State()), now)
    {
      if armed {
        lastKeep := now;
      }
    }

    method Step(now: u32, runIsComm: bool) returns (trip: bool)
      modifies this
      ensures State() == Stepped(old(State()), now, runIsComm)
      ensures trip == Trips(old(State()), now, runIsComm)
    {
      if !armed {
        return false;
      }
      if !runIsComm {
        armed := false;
        return false;
      }
      if Elapsed(now, lastKeep) >= HOLD_MS {
        armed := false;
        return true;
      }
      return false;
    }
  }
}
