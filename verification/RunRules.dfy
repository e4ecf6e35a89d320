/** When a run begins and when it ends, in the arbiter's own fields: which
    commands act, which conditions refuse a start, and what stops a run. */
module RunRules {
  import opened Words
  import opened RegCalc
  import opened Regulator
  import opened RunEnergy

  // --- Commands ---

  /** A START begins a run exactly when warm-up is over, nothing runs, nothing
      is at fault, none of seek or reset, overload, emergency stop and horn is
      on, and it is not a panel press being swallowed. Then the run is its
      source's, timed from now, with peaks and energy at zero; otherwise
      nothing but the panel's own flag can change. */
  lemma StartBegins(c: Core, src: Source, il: Interlocks, now: u32)
    ensures
      var d := Commanded(c, Start, src, il, now);
      if !c.reg.warm && c.reg.run.Idle? && !c.reg.fault && !il.seekReset && !il.overload && !il.estop && !il.horn
        && !(src.Touch? && c.reg.swallow) then
        && d.reg == c.reg.(run := src, runStart := now, acc := 0, maxPower := 0, maxAmp := 0)
        && d.m == c.m.(currEnergy := 0, onTime200 := 0)
      else
        && d.m == c.m && d.reg.(swallow := c.reg.swallow) == c.reg
        && (!src.Touch? || c.reg.warm || !c.reg.run.Idle? ==> d == c)
  {
  }

  /** A release ends any run, whoever owns it, and latches its peaks, energy
      and frequency; without a run it can change nothing but the panel's flag. */
  lemma ReleaseEnds(c: Core, src: Source, il: Interlocks, now: u32)
    ensures
      var d := Commanded(c, Release, src, il, now);
      && d.m == c.m && d.reg.run.Idle?
      && (!c.reg.run.Idle? ==>
        d.reg == c.reg.(run := Idle, lastPower := c.reg.maxPower, lastAmp := c.reg.maxAmp,
          lastEnergy := c.m.currEnergy, lastFreq := c.m.currFreq))
      && (c.reg.run.Idle? ==> d.reg.(swallow := c.reg.swallow) == c.reg && (!src.Touch? ==> d == c))
  {
  }

  /** RESET clears the fault and nothing else; SEEK is not the arbiter's. */
  lemma SeekAndReset(c: Core, src: Source, il: Interlocks, now: u32)
    ensures Commanded(c, Seek, src, il, now) == c
    ensures Commanded(c, Reset, src, il, now) == c.(reg := c.reg.(fault := false))
  {
  }

  /** In the schedules of the arbiter a run goes from none to an owner exactly
      by such a START. */
  lemma BeginsExactly(h: History, e: RunEnergy.Event, now: nat)
    requires h.c.reg.run.Idle?
    ensures !Next(h, e, now).c.reg.run.Idle? <==>
      && e.Cmd? && e.cmd.Start? && !e.src.Idle? && !(e.src.Touch? && h.c.reg.swallow)
      && !h.c.reg.warm && !h.c.reg.fault && !e.il.seekReset && !e.il.overload && !e.il.estop && !e.il.horn
  {
    hide BeforePublish, Published, Tick;
    match e {
      case Cmd(cmd, src, il) =>
      case Fault =>
      case Tock(lim, sn) =>
        NextFollowsTick(h, lim, sn, now);
        RegulateKeepsSource(h.c, Tick(now), lim, sn);
        hide Next, Ticked;
    }
  }

  // --- Automatic stops ---

  /** A run stopped on its own: as released, and a panel run arms the flag
      that swallows its release edge. */
  predicate StoppedFrom(c: Core, d: Core) {
    && d.m == c.m
    && d.reg == c.reg.(run := Idle, lastPower := c.reg.maxPower, lastAmp := c.reg.maxAmp,
      lastEnergy := c.m.currEnergy, lastFreq := c.m.currFreq, swallow := c.reg.swallow || c.reg.run.Touch?)
  }

  /** Energy mode: a panel or remote run ends when the target is reached,
      however young it is, and else at its time limit, with the fault; before
      that nothing happens. A cycle's run is not ended here. */
  lemma EnergyEnds(c: Core, now: u32, lim: Limits)
    requires lim.energyCtrl
    ensures
      var d, owned := Terminated(c, now, lim), c.reg.run.Touch? || c.reg.run.Comm? || c.reg.run.Remote?;
      var reached := lim.energy != 0 && c.m.currEnergy >= lim.energy;
      if owned && reached then StoppedFrom(c, d)
      else if owned && Elapsed(now, c.reg.runStart) >= 1000 * lim.outTime then
        d.reg.fault && StoppedFrom(c, d.(reg := d.reg.(fault := c.reg.fault)))
      else d == c
  {
    hide Elapsed;
  }

  /** Without energy mode only the on-time limit, in units of 10 ms, ends a
      remote run, and only on the hand model. */
  lemma OnTimeEnds(c: Core, now: u32, lim: Limits)
    requires !lim.energyCtrl
    ensures
      var d := Terminated(c, now, lim);
      if lim.modelType == 0 && (c.reg.run.Comm? || c.reg.run.Remote?) && lim.onTime != 0
        && Elapsed(now, c.reg.runStart) >= 10 * lim.onTime then StoppedFrom(c, d)
      else d == c
  {
    hide Elapsed;
  }

  /** What ends a run of age `age` by itself. */
  predicate Ends(run: Source, energy: u32, lim: Limits, age: nat) {
    || age >= 30000
    || (!run.Cycle? && lim.energyCtrl && ((lim.energy != 0 && energy >= lim.energy) || age >= 1000 * lim.outTime))
    || (!lim.energyCtrl && lim.modelType == 0 && (run.Comm? || run.Remote?) && lim.onTime != 0
      && age >= 10 * lim.onTime)
  }

  /** The time limit is what ended it: neither the ceiling nor the target. */
  predicate TimesOut(run: Source, energy: u32, lim: Limits, age: nat) {
    && age < 30000 && !run.Cycle? && lim.energyCtrl && !(lim.energy != 0 && energy >= lim.energy)
    && age >= 1000 * lim.outTime
  }

  lemma StopsBeforePublish(c: Core, now: u32, lim: Limits, sn: Sensors)
    requires !c.reg.run.Idle?
    ensures
      var b, age := BeforePublish(c, now, lim, sn), Elapsed(now, c.reg.runStart);
      && b.reg.run == (if Ends(c.reg.run, c.m.currEnergy, lim, age) then Source.Idle else c.reg.run)
      && (b.reg.fault <==> c.reg.fault || TimesOut(c.reg.run, c.m.currEnergy, lim, age))
  {
    hide Elapsed, Sampled, Warmed, Guarded, Terminated;
    var c1 := Warmed(c, now, lim);
    var c2 := Guarded(c1, now);
    var c3 := Terminated(c2, now, lim);
    WarmedRun(c, now, lim);
    CeilingEnds(c1, now);
    SampledRun(c3, now, sn.sample);
    if lim.energyCtrl {
      EnergyEnds(c2, now, lim);
    } else {
      OnTimeEnds(c2, now, lim);
    }
  }

  /** The 30 s ceiling, for every owner. */
  lemma CeilingEnds(c: Core, now: u32)
    ensures
      if !c.reg.run.Idle? && Elapsed(now, c.reg.runStart) >= 30000 then StoppedFrom(c, Guarded(c, now))
      else Guarded(c, now) == c
  {
    hide Elapsed;
  }

  lemma WarmedRun(c: Core, now: u32, lim: Limits)
    ensures var d := Warmed(c, now, lim);
      d.m == c.m && d.reg.run == c.reg.run && d.reg.runStart == c.reg.runStart && d.reg.fault == c.reg.fault
  {
    hide Elapsed;
  }

  lemma SampledRun(c: Core, now: u32, sample: u16)
    ensures var d := Sampled(c, now, sample); d.reg.run == c.reg.run && d.reg.fault == c.reg.fault
  {
    hide Elapsed, Filtered;
  }

  lemma PublishedRun(c: Core, now: u32, freq: u16, seek: bool)
    ensures var d := Published(c, now, freq, seek); d.reg.run == c.reg.run && d.reg.fault == c.reg.fault
  {
    hide CurrentFromAdc, PowerFromAmp, OnTime200, Elapsed;
  }

  /** Over every schedule, in real time: a tick ends a run exactly when it is
      30 s old, when it is a panel or remote run whose energy target is
      reached or whose time limit is over in energy mode, or when it is a
      remote run of the hand model past its on-time limit. It raises the fault
      exactly in the second of these cases. */
  lemma RunEndsExactly(h: History, lim: Limits, sn: Sensors, now: nat, before: nat)
    requires Inv(h, before) && before <= now && Timely(h, now) && !h.c.reg.run.Idle?
    ensures
      var r, r', age := h.c.reg, Next(h, Tock(lim, sn), now).c.reg, now - h.start;
      && r'.run == (if Ends(r.run, h.c.m.currEnergy, lim, age) then Source.Idle else r.run)
      && (r'.fault <==> r.fault || TimesOut(r.run, h.c.m.currEnergy, lim, age))
  {
    AgeIsReal(h, now, before);
    StopsBeforePublish(h.c, Tick(now), lim, sn);
    var b := BeforePublish(h.c, Tick(now), lim, sn);
    PublishedRun(b.(reg := b.reg.(publishAt := Tick(now))), Tick(now), sn.freq, sn.seek);
    hide BeforePublish, Published, Ends, TimesOut, Elapsed, Tick;
  }
}
