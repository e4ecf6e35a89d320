/** The run arbiter and the measurement core: who is running, when a run is
    stopped, and what is accumulated while it lasts. */
module Regulator {
  import opened Words
  import opened Config
  import opened RegCalc

  const TICK_MS: nat := 2
  const ACQ_MS: nat := 1
  const CH1_SAMPLES: nat := 50
  const RAMP_MS: nat := 10
  const RAMP_DONE: nat := 401
  const ON_TIME_UNIT_MS: nat := 10
  const ON_TIME_SAFETY_MS: nat := 30000
  const HAND: byte := 0

  /** us_run_status: who owns the run. */
  datatype Source = Idle | Remote | Touch | Comm | Cycle

  datatype Command = Start | Seek | Reset | Release

  /** What the neighbouring machines report. */
  datatype Interlocks = Interlocks(seekReset: bool, overload: bool, estop: bool, horn: bool)

  datatype Limits = Limits(onTime: u16, energyCtrl: bool, energy: u32, outTime: u16, modelType: byte, cal: s16)

  /** The arbiter's own state. */
  datatype Reg = Reg(
    warm: bool, rampCount: nat, rampAt: u32,
    run: Source, runStart: u32, swallow: bool, fault: bool, outOn: bool,
    maxPower: u16, lastPower: u16, maxAmp: u16, lastAmp: u16, lastEnergy: u32, lastFreq: u16,
    acc: u32, seekShown: bool, publishAt: u32, acquireAt: u32,
    cal: s16, ch1Acc: u32, ch1Count: nat, ch1Avg: u16, filter: int)

  /** The published measurement. */
  datatype Measure = Measure(
    currAmp: u16, currPower: u16, currFreq: u16, currEnergy: u32, onTime200: byte,
    maxPower: u16, lastPower: u16, maxAmp: u16, lastAmp: u16, lastEnergy: u32, lastFreq: u16,
    run: Source, live: bool, fault: bool)

  datatype Core = Core(reg: Reg, m: Measure)

  // --- Commands ---

  predicate StartAllowed(r: Reg, il: Interlocks) {
    !r.warm && r.run.Idle? && !il.seekReset && !r.fault && !il.overload && !il.estop && !il.horn
  }

  /** A START is accepted when it is allowed and, from the panel, when it is
      not the release edge of a run that was stopped on its own. */
  predicate Accepts(c: Core, cmd: Command, src: Source, il: Interlocks) {
    cmd.Start? && StartAllowed(c.reg, il) && !(src.Touch? && c.reg.swallow)
  }

  function Started(c: Core, src: Source, now: u32): Core {
    Core(c.reg.(run := src, maxPower := 0, maxAmp := 0, runStart := now, acc := 0),
      c.m.(onTime200 := 0, currEnergy := 0))
  }

  function Latched(c: Core): Core {
    c.(reg := c.reg.(lastPower := c.reg.maxPower, lastAmp := c.reg.maxAmp, lastEnergy := c.m.currEnergy,
      lastFreq := c.m.currFreq, run := Idle))
  }

  function Commanded(c: Core, cmd: Command, src: Source, il: Interlocks, now: u32): Core {
    match cmd
    case Start =>
      if Accepts(c, cmd, src, il) then Started(c, src, now)
      else if !c.reg.warm && c.reg.run.Idle? && src.Touch? then c.(reg := c.reg.(swallow := false))
      else c
    case Release =>
      if !c.reg.run.Idle? then Latched(c)
      else if src.Touch? then c.(reg := c.reg.(swallow := false))
      else c
    case Seek => c
    case Reset => c.(reg := c.reg.(fault := false))
  }

  /** A run begins only by an accepted START, and then belongs to its source;
      a release ends any run, whoever owns it. */
  lemma CommandMeaning(c: Core, cmd: Command, src: Source, il: Interlocks, now: u32)
    ensures var c' := Commanded(c, cmd, src, il, now);
      && (Accepts(c, cmd, src, il) ==>
        c'.reg.run == src && c'.reg.runStart == now && c'.reg.acc == 0 && c'.m.currEnergy == 0)
      && (cmd.Release? ==> c'.reg.run.Idle?)
      && (!Accepts(c, cmd, src, il) && !cmd.Release? ==> c'.reg.run == c.reg.run && c'.reg.runStart == c.reg.runStart)
      && (!Accepts(c, cmd, src, il) ==> c'.reg.acc == c.reg.acc && c'.m == c.m)
  {
  }

  // --- Automatic stops ---

  function Stopped(c: Core): Core {
    var l := Latched(c);
    if c.reg.run.Touch? then l.(reg := l.reg.(swallow := true)) else l
  }

  predicate SafetyStops(r: Reg, now: u32) {
    !r.run.Idle? && Elapsed(now, r.runStart) >= ON_TIME_SAFETY_MS
  }

  function Verdict(c: Core, now: u32, lim: Limits): Outcome {
    EnergyTermination(lim.energyCtrl, c.m.currEnergy, lim.energy, Elapsed(now, c.reg.runStart), lim.outTime)
  }

  predicate CeilingStops(r: Reg, now: u32, lim: Limits) {
    && lim.modelType == HAND && (r.run.Comm? || r.run.Remote?) && lim.onTime != 0
    && Elapsed(now, r.runStart) >= lim.onTime * ON_TIME_UNIT_MS
  }

  function Terminated(c: Core, now: u32, lim: Limits): Core {
    if c.reg.run.Idle? || c.reg.run.Cycle? then c
    else if lim.energyCtrl then
      var v := Verdict(c, now, lim);
      if v.Continue? then c
      else var s := Stopped(c); if v.FaultOvtime? then s.(reg := s.reg.(fault := true)) else s
    else if CeilingStops(c.reg, now, lim) then Stopped(c)
    else c
  }

  // --- Acquisition and publication ---

  /** One current sample; every fiftieth moves the filter. */
  function Acquired(r: Reg, sample: u16): (r': Reg) {
    var acc, n := (r.ch1Acc + sample) % WRAP, r.ch1Count + 1;
    if n >= CH1_SAMPLES then
      var f := Filtered(r.filter, acc * 6 % WRAP / CH1_SAMPLES);
      r.(ch1Acc := 0, ch1Count := 0, filter := f, ch1Avg := f / 16 % 0x1_0000)
    else r.(ch1Acc := acc, ch1Count := n)
  }

  predicate Active(r: Reg) { !r.run.Idle? }

  /** The display follows a seek or reset like a run: values restart when it
      begins and are latched when it ends. */
  function SeekEdge(c: Core, seek: bool): Core {
    if seek == c.reg.seekShown then c
    else if seek then
      Core(c.reg.(maxAmp := 0, maxPower := 0, lastEnergy := 0, acc := 0, seekShown := seek), c.m.(currEnergy := 0))
    else
      Core(c.reg.(lastAmp := c.m.currAmp, lastPower := c.m.currPower, lastEnergy := c.m.currEnergy, acc := 0,
        seekShown := seek), c.m.(currEnergy := 0))
  }

  function Max(a: u16, b: u16): u16 { if a > b then a else b }

  /** Displayed current and power; peaks follow them while live. */
  function Peaked(c: Core, live: bool): Core {
    var amp := CurrentFromAdc(c.reg.ch1Avg, c.reg.cal);
    var pwr := PowerFromAmp(amp);
    Core(
      if live then c.reg.(maxAmp := Max(c.reg.maxAmp, amp), maxPower := Max(c.reg.maxPower, pwr)) else c.reg,
      c.m.(currAmp := amp, currPower := if live then pwr else 0))
  }

  /** During a run the displayed power is added to the run's energy. */
  function Energized(c: Core, now: u32): Core {
    if !Active(c.reg) then c
    else
      var acc := (c.reg.acc + c.m.currPower) % WRAP;
      Core(c.reg.(acc := acc),
        c.m.(currEnergy := EnergyFromAcc(acc), onTime200 := OnTime200(Elapsed(now, c.reg.runStart))))
  }

  /** The copies the display and the register mirror read. */
  function Copied(c: Core, freq: u16, live: bool): Core {
    var r := c.reg;
    Core(
      r.(outOn := Active(r)),
      c.m.(maxPower := r.maxPower, lastPower := r.lastPower, maxAmp := r.maxAmp, lastAmp := r.lastAmp,
        lastEnergy := r.lastEnergy,
           currFreq := freq, lastFreq := r.lastFreq, run := r.run, live := live, fault := r.fault))
  }

  /** reg_publish_measure. */
  function Published(c: Core, now: u32, freq: u16, seek: bool): Core {
    var live := Active(c.reg) || seek;
    Copied(Energized(Peaked(SeekEdge(c, seek), live), now), freq, live)
  }

  // --- The periodic tick ---

  function Ramped(r: Reg, now: u32): Reg {
    if Elapsed(now, r.rampAt) < RAMP_MS then r
    else
      var r1 := r.(rampAt := now);
      if !r1.warm then r1
      else if r1.rampCount + 1 >= RAMP_DONE then r1.(rampCount := r1.rampCount + 1, warm := false)
      else r1.(rampCount := r1.rampCount + 1)
  }

  datatype Sensors = Sensors(sample: u16, freq: u16, seek: bool)

  function Warmed(c: Core, now: u32, lim: Limits): Core {
    c.(reg := Ramped(c.reg.(cal := lim.cal), now))
  }

  function Guarded(c: Core, now: u32): Core {
    if SafetyStops(c.reg, now) then Stopped(c) else c
  }

  function Sampled(c: Core, now: u32, sample: u16): Core {
    if Elapsed(now, c.reg.acquireAt) >= ACQ_MS then c.(reg := Acquired(c.reg.(acquireAt := now), sample)) else c
  }

  /** The state just before the publication step of a tick. */
  function BeforePublish(c: Core, now: u32, lim: Limits, sn: Sensors): Core {
    Sampled(Terminated(Guarded(Warmed(c, now, lim), now), now, lim), now, sn.sample)
  }

  predicate Publishes(c: Core, now: u32) { Elapsed(now, c.reg.publishAt) >= TICK_MS }

  function Ticked(c: Core, now: u32, lim: Limits, sn: Sensors): Core {
    var b := BeforePublish(c, now, lim, sn);
    if Publishes(b, now) then Published(b.(reg := b.reg.(publishAt := now)), now, sn.freq, sn.seek) else b
  }

  function Boot(now: u32): Core {
    Core(
      Reg(true, 0, now, Idle, 0, false, false, false, 0, 0, 0, 0, 0, 0, 0, false, now, now, 0, 0, 0, 0, 0),
      Measure(0, 0, 0, 0, 0, 0, 0, 0, 0, 0, 0, Idle, false, false))
  }

  // --- The firmware's two statics, updated in place ---

  class Arbiter {
    var reg: Reg
    var m: Measure

    ghost function State(): Core
      reads this
    {
      Core(reg, m)
    }

    constructor (now: u32)
      ensures State() == Boot(now)
    {
      reg := Boot(now).reg;
      m := Boot(now).m;
    }

    method IsStartAllowed(il: Interlocks) returns (ok: bool)
      ensures ok == StartAllowed(reg, il)
    {
      ok := !reg.warm && reg.run == Idle && !il.seekReset && !reg.fault && !il.overload && !il.estop && !il.horn;
    }

    /** app_reg_command; SEEK and RESET are also handed to the seek machine by
        the caller's effect list. */
    method Command(cmd: Command, src: Source, il: Interlocks, now: u32)
      modifies this
      ensures State() == Commanded(old(State()), cmd, src, il, now)
    {
      match cmd {
        case Start =>
          if !reg.warm && reg.run == Idle {
            if src == Touch && reg.swallow {
              reg := reg.(swallow := false);
              return;
            }
            var ok := IsStartAllowed(il);
            if !ok {
              return;
            }
            reg := reg.(run := src);
            reg := reg.(maxPower := 0);
            reg := reg.(maxAmp := 0);
            reg := reg.(runStart := now);
            m := m.(onTime200 := 0);
            reg := reg.(acc := 0);
            m := m.(currEnergy := 0);
          }
        case Release =>
          if reg.run != Idle {
            reg := reg.(lastPower := reg.maxPower);
            reg := reg.(lastAmp := reg.maxAmp);
            reg := reg.(lastEnergy := m.currEnergy);
            reg := reg.(lastFreq := m.currFreq);
            reg := reg.(run := Idle);
          } else if src == Touch && reg.swallow {
            reg := reg.(swallow := false);
          }
        case Seek =>
        case Reset =>
          reg := reg.(fault := false);
      }
    }

    method RaiseOvtime()
      modifies this
      ensures State() == old(State()).(reg := old(reg).(fault := true))
    {
      reg := reg.(fault := true);
    }

    method StopRun(rs: Source)
      requires rs == reg.run
      modifies this
      ensures State() == Stopped(old(State()))
    {
      reg := reg.(lastPower := reg.maxPower);
      reg := reg.(lastAmp := reg.maxAmp);
      reg := reg.(lastEnergy := m.currEnergy);
      reg := reg.(lastFreq := m.currFreq);
      reg := reg.(run := Idle);
      if rs == Touch {
        reg := reg.(swallow := true);
      }
    }

    method CheckSafety(now: u32)
      modifies this
      ensures State() == if SafetyStops(old(reg), now) then Stopped(old(State())) else old(State())
    {
      var rs := reg.run;
      if rs == Touch || rs == Comm || rs == Remote || rs == Cycle {
        if Elapsed(now, reg.runStart) >= ON_TIME_SAFETY_MS {
          StopRun(rs);
        }
      }
    }

    method CheckTerminate(now: u32, lim: Limits)
      modifies this
      ensures State() == Terminated(old(State()), now, lim)
    {
      var rs := reg.run;
      if rs == Touch || rs == Comm || rs == Remote {
        var elapsed := Elapsed(now, reg.runStart);
        if lim.energyCtrl {
          var oc := EnergyTermination(lim.energyCtrl, m.currEnergy, lim.energy, elapsed, lim.outTime);
          if oc != Continue {
            StopRun(rs);
            if oc == FaultOvtime {
              reg := reg.(fault := true);
            }
          }
        } else if lim.modelType == HAND && (rs == Comm || rs == Remote) && lim.onTime != 0
          && elapsed >= lim.onTime * ON_TIME_UNIT_MS {
          StopRun(rs);
        }
      }
    }

    method Acquire(sample: u16)
      modifies this
      ensures State() == old(State()).(reg := Acquired(old(reg), sample))
    {
      reg := reg.(ch1Acc := (reg.ch1Acc + sample) % WRAP);
      reg := reg.(ch1Count := reg.ch1Count + 1);
      if reg.ch1Count >= CH1_SAMPLES {
        var avg := reg.ch1Acc * 6 % WRAP / CH1_SAMPLES;
        var d := avg * 16 - reg.filter;
        reg := reg.(filter := reg.filter + Half(d));
        reg := reg.(ch1Avg := reg.filter / 16 % 0x1_0000);
        reg := reg.(ch1Acc := 0);
        reg := reg.(ch1Count := 0);
      }
    }

    method ShowSeekEdge(sr: bool)
      modifies this
      ensures State() == SeekEdge(old(State()), sr)
    {
      if sr != reg.seekShown {
        if sr {
          reg := reg.(maxAmp := 0);
          reg := reg.(maxPower := 0);
          reg := reg.(lastEnergy := 0);
          reg := reg.(acc := 0);
          m := m.(currEnergy := 0);
        } else {
          reg := reg.(lastAmp := m.currAmp);
          reg := reg.(lastPower := m.currPower);
          reg := reg.(lastEnergy := m.currEnergy);
          reg := reg.(acc := 0);
          m := m.(currEnergy := 0);
        }
        reg := reg.(seekShown := sr);
      }
    }

    method ShowPeaks(live: bool)
      modifies this
      ensures State() == Peaked(old(State()), live)
    {
      hide CurrentFromAdc, PowerFromAmp;
      var amp := CurrentFromAdc(reg.ch1Avg, reg.cal);
      m := m.(currAmp := amp);
      if live && amp > reg.maxAmp {
        reg := reg.(maxAmp := amp);
      }
      var pwr := PowerFromAmp(amp);
      m := m.(currPower := if live then pwr else 0);
      if live && pwr > reg.maxPower {
        reg := reg.(maxPower := pwr);
      }
    }

    method AddEnergy(active: bool, now: u32)
      requires active == Active(reg)
      modifies this
      ensures State() == Energized(old(State()), now)
    {
      if active {
        reg := reg.(acc := (reg.acc + m.currPower) % WRAP);
        m := m.(currEnergy := EnergyFromAcc(reg.acc));
      }
      if active {
        m := m.(onTime200 := OnTime200(Elapsed(now, reg.runStart)));
      }
    }

    method CopyOut(active: bool, freq: u16, live: bool)
      requires active == Active(reg)
      modifies this
      ensures State() == Copied(old(State()), freq, live)
    {
      m := m.(maxPower := reg.maxPower, lastPower := reg.lastPower, maxAmp := reg.maxAmp, lastAmp := reg.lastAmp);
      m := m.(lastEnergy := reg.lastEnergy, currFreq := freq, lastFreq := reg.lastFreq);
      m := m.(run := reg.run, live := live, fault := reg.fault);
      if active != reg.outOn {
        reg := reg.(outOn := active);
      }
    }

    method Publish(now: u32, freq: u16, sr: bool)
      modifies this
      ensures State() == Published(old(State()), now, freq, sr)
    {
      var active := reg.run != Idle;
      ShowSeekEdge(sr);
      var live := active || sr;
      ShowPeaks(live);
      AddEnergy(active, now);
      CopyOut(active, freq, live);
    }

    /** app_reg_tick: warm-up, safety ceiling, automatic stops, one sample per
        millisecond, one publication per two. */
    method Tick(now: u32, lim: Limits, sn: Sensors)
      modifies this
      ensures State() == Ticked(old(State()), now, lim, sn)
    {
      reg := reg.(cal := lim.cal);
      Warmup(now);
      CheckSafety(now);
      CheckTerminate(now, lim);
      if Elapsed(now, reg.acquireAt) >= ACQ_MS {
        reg := reg.(acquireAt := now);
        Acquire(sn.sample);
      }
      if Elapsed(now, reg.publishAt) < TICK_MS {
        return;
      }
      reg := reg.(publishAt := now);
      Publish(now, sn.freq, sn.seek);
    }

    method Warmup(now: u32)
      modifies this
      ensures State() == old(State()).(reg := Ramped(old(reg), now))
    {
      if Elapsed(now, reg.rampAt) >= RAMP_MS {
        reg := reg.(rampAt := now);
        if reg.warm {
          reg := reg.(rampCount := reg.rampCount + 1);
          if reg.rampCount >= RAMP_DONE {
            reg := reg.(warm := false);
          }
        }
      }
    }
  }
}
