/** What stops the press and what starts a run in its interleavings, in the
    machine's own fields. */
module PressRules {
  import opened Words
  import opened WeldGlue
  import opened WeldSafety
  import opened PressSchedule
  import opened PressWelds
  import Fsm = WeldFsm
  import Timing = WeldSchedule
  import WeldTrigger
  import Reg = Regulator
  import RunEnergy
  import RunRules

  /** A scan that reaches the cycle outside READY with the emergency stop, the
      overload or a shown fault on, or in CYL1 with the safety setting on and a
      key released, is in READY at once: the valve goes up if it was down, and
      the weld's run is released. Nothing else is put out. */
  lemma ScanAborts(m: Machine, x: Scan)
    requires Steps(m, Scanned(x)) && !m.weld.phase.Ready? && ValveFollows(m)
    requires
      x.il.estop || x.il.overload || m.core.m.fault
      || (m.cfg.model.safety != 0 && m.weld.phase.Cyl1? && (x.keys.key1 || x.keys.key2))
    ensures
      var d := Next(m, Scanned(x));
      && d.weld.phase.Ready? && !d.weld.sol && !d.solLast && d.cfg == m.cfg
      && Ticked(m, x).1 == (if m.weld.sol then [Valve(false)] else [])
      && (m.weld.phase.Weld? ==> d.core.reg.run.Idle?) && (!m.weld.phase.Weld? ==> d.core == m.core)
  {
    var e := Scanned(x);
    AbortGiven(m, x);
    Timing.AbortMeans(m.weld, Given(m, e));
    StepOf(m, e);
    SolOf(m, e);
    CoreOf(m, e);
    DrivenFault(m.core, Fsm.Step(m.weld, Given(m, e)).1, x.il, x.now);
    SameSettings(m, x);
    hide Next, Given, Steps, Fsm.Step, Driven, Ticked;
  }

  lemma AbortGiven(m: Machine, x: Scan)
    requires
      x.il.estop || x.il.overload || m.core.m.fault
      || (m.cfg.model.safety != 0 && m.weld.phase.Cyl1? && (x.keys.key1 || x.keys.key2))
    ensures Given(m, Scanned(x)).abort
  {
    hide TimesOf, Begins;
  }

  /** Only a completed cycle changes the configuration, by its counter. */
  lemma SameSettings(m: Machine, x: Scan)
    ensures
      var o := Fsm.Step(m.weld, Given(m, Scanned(x))).1;
      Next(m, Scanned(x)).cfg == if Steps(m, Scanned(x)) && o.done then CountedUp(m.cfg) else m.cfg
  {
    GateApart(m, x, Advanced(m.prev, x.now));
    hide Fsm.Step, Driven, Advanced, InputOf, TrigAfter, Reg.Commanded;
  }

  /** The emergency abort does the same without waiting for a scan, whatever
      the page and the horn, and leaves the keys' state alone. */
  lemma EmergencyAborts(m: Machine, il: Reg.Interlocks, now: u32)
    requires ValveFollows(m)
    ensures
      var (d, fx) := AbortedNow(m, ABORT_IN, il, now);
      && d.weld.phase.Ready? && !d.weld.sol && !d.solLast
      && d == m.(weld := d.weld, solLast := false, core := d.core)
      && fx == (if m.weld.sol then [Valve(false)] else [])
      && (m.weld.phase.Weld? ==> d.core.reg.run.Idle?) && (!m.weld.phase.Weld? ==> d.core == m.core)
  {
    Timing.AbortMeans(m.weld, ABORT_IN);
    Fsm.ActuatorStep(m.weld, Welding(m.weld), ABORT_IN);
    AbortOnlyStops(m.weld);
    if m.weld.phase.Ready? {
      QuietInReady(m.weld);
    }
    hide Fsm.Step, Fsm.Actuators;
  }

  lemma QuietInReady(s: Fsm.State)
    requires s.phase.Ready?
    ensures !Fsm.Step(s, ABORT_IN).1.stop
  {
  }

  /** In the press's interleavings a run goes from none to an owner exactly by
      another source's START, or at the scan that enters the armed weld; in
      either case only with warm-up over, no fault, and none of seek or reset,
      overload, emergency stop and horn. */
  lemma BeginsExactly(m: Machine, e: Event)
    requires m.core.reg.run.Idle?
    ensures !Next(m, e).core.reg.run.Idle? <==>
      && !m.core.reg.warm && !m.core.reg.fault
      && match e {
        case Scanned(x) =>
          && Elapsed(x.now, m.prev) >= 10 && x.runPage && !x.il.horn
          && m.weld.phase.Weld? && !m.weld.entered && !m.core.m.fault
          && !x.il.seekReset && !x.il.overload && !x.il.estop
        case Other(cmd, src, il, _) =>
          && cmd.Start? && !src.Idle? && !(src.Touch? && m.core.reg.swallow)
          && !il.seekReset && !il.overload && !il.estop && !il.horn
        case _ => false
      }
  {
    match e {
      case Scanned(x) =>
        ScanBegins(m, x);
        hide Next;
      case AbortNow(il, now) =>
        AbortOnlyStops(m.weld);
        hide Fsm.Step;
      case Other(cmd, src, il, now) =>
        if cmd.Start? {
          RunRules.StartBegins(m.core, src, il, now);
        } else {
          Reg.CommandMeaning(m.core, cmd, src, il, now);
        }
        hide Reg.Commanded;
      case Regulate(lim, sn, now) =>
        RunEnergy.RegulateKeepsSource(m.core, now, lim, sn);
        hide Reg.Ticked;
      case Fault =>
      case Edit(c) =>
    }
  }

  lemma ScanBegins(m: Machine, x: Scan)
    requires m.core.reg.run.Idle?
    ensures !Next(m, Scanned(x)).core.reg.run.Idle? <==>
      && !m.core.reg.warm && !m.core.reg.fault
      && Elapsed(x.now, m.prev) >= 10 && x.runPage && !x.il.horn
      && m.weld.phase.Weld? && !m.weld.entered && !m.core.m.fault
      && !x.il.seekReset && !x.il.overload && !x.il.estop
  {
    var e := Scanned(x);
    if Steps(m, e) {
      StepOf(m, e);
      CoreOf(m, e);
      AbortIsCause(m, x);
      StartEdge(m.weld, Given(m, e));
      RunRules.StartBegins(m.core, Reg.Cycle, x.il, x.now);
      hide Next, Given, Fsm.Step, Reg.Commanded;
      DrivenBegins(m.core, Fsm.Step(m.weld, Given(m, e)).1, x.il, x.now);
    } else {
      GatedScan(m, x);
      hide Next;
    }
  }

  /** In WELD only these abort. */
  lemma AbortIsCause(m: Machine, x: Scan)
    ensures m.weld.phase.Weld? ==>
      (Given(m, Scanned(x)).abort <==> x.il.estop || x.il.overload || m.core.m.fault)
  {
    hide TimesOf, Begins;
  }

  lemma StartEdge(s: Fsm.State, i: Fsm.In)
    ensures var o := Fsm.Step(s, i).1;
      (o.start <==> s.phase.Weld? && !s.entered && !i.abort) && !(o.start && o.stop)
  {
    hide Fsm.Amplitude, Fsm.MultiAmplitude, Fsm.EnteredWeld;
  }

  lemma DrivenBegins(c: Reg.Core, o: Fsm.Out, il: Reg.Interlocks, now: u32)
    requires c.reg.run.Idle? && !(o.start && o.stop)
    ensures
      !Driven(c, o, il, now).reg.run.Idle? <==>
      o.start && !Reg.Commanded(c, Reg.Start, Reg.Cycle, il, now).reg.run.Idle?
  {
  }

  /** A cycle start uses up the two-hand permission; only a scan that reaches
      the cycle in READY with both keys released gives it back. */
  lemma RearmsExactly(m: Machine, e: Event)
    ensures Next(m, e).trig.inCycle <==>
      (m.weld.phase.Ready? && !Next(m, e).weld.phase.Ready?)
      || (m.trig.inCycle
        && !(e.Scanned? && Steps(m, e) && e.x.keys.key1 && e.x.keys.key2 && m.weld.phase.Ready?))
  {
    if m.weld.phase.Ready? {
      CycleStartsOnlyGuarded(m, e);
    }
    InCycleOf(m, e);
    hide Next, Steps;
  }

  lemma InCycleOf(m: Machine, e: Event)
    ensures Next(m, e).trig.inCycle <==>
      Starts(m, e)
      || (m.trig.inCycle
        && !(e.Scanned? && Steps(m, e) && e.x.keys.key1 && e.x.keys.key2 && m.weld.phase.Ready?))
  {
    hide Reg.Commanded, Reg.Ticked, Driven, InputOf, Advanced, Fsm.Step;
  }
}
