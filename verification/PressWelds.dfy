/** The press from the armed weld on, and the wait for the lower sensor, in the
    configuration's own settings. */
module PressWelds {
  import opened Words
  import opened Config
  import opened WeldGlue
  import opened WeldSafety
  import opened PressSchedule
  import Fsm = WeldFsm
  import Timing = WeldSchedule
  import Reg = Regulator

  // --- Waiting for the lower sensor ---

  /** The scan sees the lower sensor go low: it was high at the scan before. */
  predicate Falls(m: Machine, e: Event) { Steps(m, e) && e.Scanned? && m.trig.dnBak && !e.x.keys.sensDn }

  /** The sensor's level at the last scan is remembered, and nothing else sets
      it. */
  lemma SensorRemembered(m: Machine, e: Event)
    ensures Next(m, e).trig.dnBak == if e.Scanned? && Steps(m, e) then e.x.keys.sensDn else m.trig.dnBak
  {
    hide Fsm.Step, Driven, Advanced, Reg.Ticked, Reg.Commanded, InputOf;
  }

  lemma FallsIsEdge(m: Machine, e: Event)
    requires Steps(m, e) && e.Scanned?
    ensures Given(m, e).dnEdge == Falls(m, e)
  {
    hide Begins, TimesOf;
  }

  /** Some event after the first saw the lower sensor go low. */
  predicate Fell(m: Machine, es: seq<Event>) {
    exists j :: 0 < j < |es| && Falls(After(m, es[..j]), es[j])
  }

  lemma FellOneMore(m: Machine, es: seq<Event>, e: Event)
    requires es != []
    ensures Fell(m, es + [e]) <==> Fell(m, es) || Falls(After(m, es), e)
  {
    var all, n := es + [e], |es|;
    hide Falls, After;
    assert all[..n] == es && all[n] == e;
    if j :| 0 < j < n && Falls(After(m, es[..j]), es[j]) {
      assert all[..j] == es[..j] && all[j] == es[j];
    }
    if j :| 0 < j < n + 1 && Falls(After(m, all[..j]), all[j]) {
      if j < n {
        assert all[..j] == es[..j] && all[j] == es[j];
      }
    }
  }

  /** In CYL1 after `n` scans, entered from the second on; the latch tells
      what the sensor did since the start. */
  predicate Waits(s: Fsm.State, n: nat, fell: bool) {
    s.phase.Cyl1? && s.entered == (n >= 2) && s.runMode != 0 && s.dn == fell
  }

  lemma WaitOnce(m: Machine, e: Event, c: Cfg, n: nat, fell: bool)
    requires Waits(m.weld, n, fell) && n >= 1 && Smooth(m, e, c)
    ensures
      var s', n', fell' := Next(m, e).weld, n + (if Steps(m, e) then 1 else 0), fell || Falls(m, e);
      if Steps(m, e) && n >= 2 && fell' then s'.phase.Weld? else Waits(s', n', fell')
  {
    StepOf(m, e);
    if Steps(m, e) {
      GivenUnder(m, e, c);
      FallsIsEdge(m, e);
      Timing.WaitStep(m.weld, Given(m, e));
    }
    hide Next, Given, Fsm.Step;
  }

  /** A cycle in TRIGGER mode, from the scan that starts it. */
  predicate TriggerRun(m: Machine, es: seq<Event>, c: Cfg) {
    && m.weld.phase.Ready? && es != [] && !Next(m, es[0]).weld.phase.Ready? && Undisturbed(m, es, c)
    && c.model.runMode != 0
  }

  /** The starting scan clears the latch, whatever it sees itself. */
  lemma TriggerStarts(m: Machine, e: Event, c: Cfg)
    requires m.weld.phase.Ready? && !Next(m, e).weld.phase.Ready? && Smooth(m, e, c) && c.model.runMode != 0
    ensures Waits(Next(m, e).weld, 1, false) && Steps(m, e)
  {
    StepOf(m, e);
    IntoCyl1(m.weld, Given(m, e));
    GivenUnder(m, e, c);
    Timing.TriggerStart(m.weld, Given(m, e));
    hide Next, Given, Steps, Fsm.Step;
  }

  lemma OneEvent(m: Machine, e: Event)
    ensures After(m, [e]) == Next(m, e) && Scans(m, [e]) == (if Steps(m, e) then 1 else 0) && !Fell(m, [e])
  {
    hide Next, Steps, Falls;
    assert [e][..0] == [] && After(m, []) == m;
  }

  lemma {:induction false} WaitsSinceStart(m: Machine, es: seq<Event>, c: Cfg)
    requires TriggerRun(m, es, c) && forall k :: 0 < k <= |es| ==> After(m, es[..k]).weld.phase.Cyl1?
    ensures Waits(After(m, es).weld, Scans(m, es), Fell(m, es)) && Scans(m, es) >= 1
    decreases |es|
  {
    hide Next, Steps, Fell, Undisturbed, Smooth, After, Scans, Waits, Falls;
    UndisturbedPart(m, es, c, |es|);
    var k := |es| - 1;
    LastSmooth(m, es, c);
    if k == 0 {
      assert es == [es[0]];
      OneEvent(m, es[0]);
      NothingYet(m);
      TriggerStarts(m, es[0], c);
    } else {
      var front, e := es[..k], es[k];
      assert es == front + [e] && front[0] == es[0];
      assert forall i :: 0 < i <= k ==> front[..i] == es[..i];
      UndisturbedPart(m, es, c, k);
      WaitsSinceStart(m, front, c);
      WaitOnce(After(m, front), e, c, Scans(m, front), Fell(m, front));
      FellOneMore(m, front, e);
      OneMore(m, front, e);
      assert es[..|es|] == es;
    }
  }

  lemma NothingYet(m: Machine)
    ensures After(m, []) == m
  {
  }

  lemma OneMore(m: Machine, es: seq<Event>, e: Event)
    ensures After(m, es + [e]) == Next(After(m, es), e)
    ensures Scans(m, es + [e]) == Scans(m, es) + if Steps(After(m, es), e) then 1 else 0
  {
    hide Next, Steps;
    assert (es + [e])[..|es|] == es;
  }

  lemma LastSmooth(m: Machine, es: seq<Event>, c: Cfg)
    requires Undisturbed(m, es, c) && es != []
    ensures Smooth(After(m, es[..|es| - 1]), es[|es| - 1], c)
  {
    hide Smooth, After;
  }

  /** A TRIGGER cycle reaches WELD exactly at the first scan, from the third
      on, by which some scan since the start has seen the lower sensor go low.
      Where the sensor stood before, and what earlier cycles saw, counts for
      nothing; without such an edge there is no weld. */
  lemma TriggerReaches(m: Machine, es: seq<Event>, e: Event, c: Cfg)
    requires TriggerRun(m, es + [e], c) && es != []
    requires forall k :: 0 < k <= |es| ==> After(m, es[..k]).weld.phase.Cyl1?
    ensures
      var p := Next(After(m, es), e).weld.phase;
      && (p.Weld? <==> Steps(After(m, es), e) && Scans(m, es) >= 2 && Fell(m, es + [e]))
      && (p.Weld? || p.Cyl1?)
  {
    var all := es + [e];
    assert all[..|es|] == es && all[0] == es[0];
    LastSmooth(m, all, c);
    UndisturbedPart(m, all, c, |es|);
    hide Next, Steps, Fell, Undisturbed, Smooth, After, Scans, Falls;
    WaitsSinceStart(m, es, c);
    FellOneMore(m, es, e);
    WaitOnce(After(m, es), e, c, Scans(m, es), Fell(m, es));
  }

  // --- The armed weld ---

  /** The event takes the cycle from CYL1 into the weld, and the events after
      it run under the same settings without an abort. */
  predicate WeldRun(m: Machine, e: Event, es: seq<Event>, c: Cfg) {
    && m.weld.phase.Cyl1? && Next(m, e).weld.phase.Weld? && Smooth(m, e, c) && Undisturbed(Next(m, e), es, c)
  }

  function WeldTime(s: Fsm.State, c: Cfg): u16 { if s.runMode != 0 then c.times.trigger2 else c.times.delay2 }

  lemma WeldArmed(m: Machine, e: Event, c: Cfg)
    requires m.weld.phase.Cyl1? && Next(m, e).weld.phase.Weld? && Smooth(m, e, c)
    ensures
      var s', time := Next(m, e).weld, WeldTime(m.weld, c);
      && Timing.Armed(s') && s'.multi == c.multiCtrl && s'.energy == c.energyCtrl && s'.stage == 0
      && s'.runMode == m.weld.runMode && s'.comp == (if time > 7 then 7 else time)
      && s'.temp == if c.energyCtrl then Fsm.Backstop(c.times.outTime) else Longer(time, 7)
  {
    StepOf(m, e);
    assert Steps(m, e);
    GivenUnder(m, e, c);
    Timing.WeldIsArmed(m.weld, Given(m, e));
    hide Next, Given, Fsm.Step, Fsm.Backstop;
  }

  /** The inputs after that. */
  lemma WeldInputs(m: Machine, e: Event, es: seq<Event>, c: Cfg)
    requires WeldRun(m, e, es, c)
    ensures
      var m1, ins := Next(m, e), Inputs(Next(m, e), es);
      && After(m1, es).weld == Fsm.After(m1.weld, ins)
      && forall j :: 0 <= j < |ins| ==> Under(ins[j], c)
  {
    hide Next, Inputs, After, Under, Smooth;
    InputsUnder(Next(m, e), es, c);
    CycleFollows(Next(m, e), es);
  }

  // --- The rest of a TRIGGER cycle ---

  /** The phase so many scans after the weld was armed. */
  predicate TriggerPhase(p: Fsm.Phase, c: Cfg, n: nat) {
    var weld, hold := Longer(c.times.trigger2, 7), Longer(c.times.trigger3, 2);
    match p
    case Cyl1 => false
    case Weld => n < weld
    case Hold => weld <= n < weld + hold
    case Cyl2 => weld + hold <= n < weld + hold + 2
    case Ready => n == weld + hold + 2
  }

  function TailScans(c: Cfg): nat { Longer(c.times.trigger2, 7) + Longer(c.times.trigger3, 2) + 2 }

  predicate TimedTrigger(m: Machine, c: Cfg) { m.weld.runMode != 0 && !c.energyCtrl && !c.multiCtrl }

  lemma TailAtEnd(s: Fsm.State, ins: seq<Fsm.In>, c: Cfg)
    requires Timing.Armed(s) && s.runMode != 0 && !s.multi && !s.energy && s.temp == Longer(c.times.trigger2, 7)
    requires |ins| <= TailScans(c) && forall j :: 0 <= j < |ins| ==> Under(ins[j], c)
    ensures Timing.TailAt(Fsm.After(s, ins), TimesOf(c), |ins|)
    ensures |ins| > 0 ==> Timing.TailEdges(Fsm.OutAt(s, ins, |ins|), TimesOf(c), |ins|)
  {
    hide Timing.TailAt, Timing.TailEdges, Fsm.OutAt, Fsm.After, Fsm.Step;
    assert forall j :: 0 <= j < |ins| ==> ins[j].t == TimesOf(c) && !ins[j].abort;
    assert ins[..|ins|] == ins;
    Timing.TriggerSchedule(s, ins, TimesOf(c), |ins|);
  }

  lemma TriggerTailAt(m: Machine, e: Event, es: seq<Event>, c: Cfg)
    requires WeldRun(m, e, es, c) && TimedTrigger(m, c) && Scans(Next(m, e), es) <= TailScans(c)
    ensures Timing.TailAt(After(Next(m, e), es).weld, TimesOf(c), Scans(Next(m, e), es))
  {
    WeldArmed(m, e, c);
    WeldInputs(m, e, es, c);
    hide Next, Inputs, After, Under, Smooth, Timing.TailAt, Fsm.After, TailScans, Timing.TailEdges, Scans;
    TailAtEnd(Next(m, e).weld, Inputs(Next(m, e), es), c);
  }

  lemma TailIsPhase(s: Fsm.State, c: Cfg, n: nat)
    requires n <= TailScans(c) && Timing.TailAt(s, TimesOf(c), n)
    ensures TriggerPhase(s.phase, c, n)
    ensures s.phase.Weld? || s.phase.Hold? || (s.phase.Cyl2? && s.entered == (n == TailScans(c) - 1)) || s.phase.Ready?
  {
  }

  /** From the armed weld a timed TRIGGER cycle welds for max(trigger2, 7)
      scans, holds for max(trigger3, 2), and is in READY two scans later. */
  lemma TriggerTail(m: Machine, e: Event, es: seq<Event>, c: Cfg)
    requires WeldRun(m, e, es, c) && TimedTrigger(m, c) && Scans(Next(m, e), es) <= TailScans(c)
    ensures TriggerPhase(After(Next(m, e), es).weld.phase, c, Scans(Next(m, e), es))
  {
    hide Next, After, Scans, WeldRun, Timing.TailAt, TriggerPhase, TailScans;
    TriggerTailAt(m, e, es, c);
    TailIsPhase(After(Next(m, e), es).weld, c, Scans(Next(m, e), es));
  }

  /** The amplitude when the weld is entered, the valve up when CYL2 is, the
      counted-up configuration when the cycle is done; nothing otherwise. */
  function TailEffects(cfg: Cfg, c: Cfg, n: nat): seq<Effect>
    requires 50 <= c.power <= 100
  {
    if n == 0 then [Dac(WeldDac(c.power, c.times.trigger2))]
    else if n == TailScans(c) - 2 then [Valve(false)]
    else if n == TailScans(c) - 1 then [SaveAll(cfg.(workCnt := (cfg.workCnt + 1) % 0x1_0000_0000))]
    else []
  }

  // --- The entry of the weld ---

  /** What the scan that enters the armed weld puts out. */
  lemma EntryPuts(m: Machine, e: Event, x: Scan, c: Cfg)
    requires m.weld.phase.Cyl1? && Next(m, e).weld.phase.Weld? && Smooth(m, e, c) && ValveFollows(m)
    requires Smooth(Next(m, e), Scanned(x), c) && Steps(Next(m, e), Scanned(x)) && 50 <= c.power <= 100
    ensures
      var out := if c.multiCtrl then (Percent(c.multi.out1) - 50) * 255 / 100
        else WeldDac(c.power, WeldTime(m.weld, c));
      Ticked(Next(m, e), x).1 == [Dac(out)]
  {
    var m1, y := Next(m, e), Scanned(x);
    WeldArmed(m, e, c);
    ValveStep(m, e);
    StepOf(m1, y);
    GivenUnder(m1, y, c);
    hide Next, Given, Steps, Fsm.Step, Smooth, Ticked;
    Timing.EntryAmplitude(m1.weld, Given(m1, y));
    if c.multiCtrl {
      Fsm.AmplitudeInRange(Percent(c.multi.out1), 7);
    } else {
      EntryDac(m1.weld, Given(m1, y), c, WeldTime(m.weld, c));
    }
  }

  /** What each later scan of the cycle puts out. */
  lemma TailOutputs(m: Machine, e: Event, es: seq<Event>, c: Cfg, x: Scan)
    requires WeldRun(m, e, es + [Scanned(x)], c) && TimedTrigger(m, c) && ValveFollows(m) && 50 <= c.power <= 100
    requires 1 <= Scans(Next(m, e), es) < TailScans(c) && Steps(After(Next(m, e), es), Scanned(x))
    ensures
      Ticked(After(Next(m, e), es), x).1 == TailEffects(After(Next(m, e), es).cfg, c, Scans(Next(m, e), es))
  {
    var m1, y := Next(m, e), Scanned(x);
    var m' := After(m1, es);
    PartOfWeld(m, e, es, y, c);
    TriggerTailAt(m, e, es, c);
    LastUnder(m1, es, y, c);
    ValveStep(m, e);
    ValveAlways(m1, es);
    hide Next, After, Scans, Smooth, Steps, Timing.TailAt, TailEffects, Given, Under, Undisturbed, Fsm.Actuators;
    hide TailScans, Ticked;
    TailOnce(m', y, c, Scans(m1, es));
    StepOf(m', y);
    hide EffectsOf;
  }

  lemma PartOfWeld(m: Machine, e: Event, es: seq<Event>, y: Event, c: Cfg)
    requires WeldRun(m, e, es + [y], c)
    ensures WeldRun(m, e, es, c) && Undisturbed(Next(m, e), es + [y], c)
  {
    UndisturbedPart(Next(m, e), es + [y], c, |es|);
    assert (es + [y])[..|es|] == es;
    hide Next, Undisturbed, Smooth;
  }

  lemma TailOnce(m: Machine, e: Event, c: Cfg, n: nat)
    requires Timing.TailAt(m.weld, TimesOf(c), n) && 1 <= n < TailScans(c) && ValveFollows(m)
    requires e.Scanned? && Steps(m, e) && Under(Given(m, e), c) && 50 <= c.power <= 100
    ensures EffectsOf(m, Fsm.Step(m.weld, Given(m, e)).1) == TailEffects(m.cfg, c, n)
  {
    var (s', o) := Fsm.Step(m.weld, Given(m, e));
    assert Given(m, e).t == TimesOf(c) && !Given(m, e).abort;
    Timing.TailStep(m.weld, Given(m, e), TimesOf(c), n);
    TailIsPhase(m.weld, c, n);
    TailIsPhase(s', c, n + 1);
    Fsm.ActuatorStep(m.weld, Welding(m.weld), Given(m, e));
    hide Fsm.Step, Given, Steps, Timing.TailAt;
    TailSol(m.weld, Welding(m.weld), c, n);
    TailSol(s', Fsm.Level(Welding(m.weld), o), c, n + 1);
  }

  lemma TailSol(s: Fsm.State, us: bool, c: Cfg, n: nat)
    requires TriggerPhase(s.phase, c, n) && n <= TailScans(c) && Fsm.Actuators(s, us)
    requires s.phase.Cyl2? ==> s.entered == (n == TailScans(c) - 1)
    ensures s.sol == (n < TailScans(c) - 1)
  {
  }

  // --- The two-stage weld ---

  predicate StageAt(s: Fsm.State, c: Cfg, n: nat) {
    if n == 0 then Timing.Armed(s) && s.multi && s.stage == 0
    else if n < Longer(c.multi.time2, 2) then
      && s.phase.Weld? && s.entered && s.multi && s.elapsed == n
      && (s.stage == 0 <==> n < Longer(c.multi.time1, 2))
    else s.phase.Hold?
  }

  lemma StagesOf(s: Fsm.State, ins: seq<Fsm.In>, c: Cfg)
    requires StageAt(s, c, 0) && |ins| <= Longer(c.multi.time2, 2) && forall j :: 0 <= j < |ins| ==> Under(ins[j], c)
    ensures StageAt(Fsm.After(s, ins), c, |ins|)
  {
    hide Fsm.After, Fsm.Step, Fsm.OutAt;
    if ins != [] {
      assert forall j :: 0 <= j < |ins| ==> !ins[j].abort && ins[j].t == TimesOf(c);
      Timing.TwoStageWeld(s, ins, TimesOf(c), |ins|);
      assert ins[..|ins|] == ins;
    } else {
      NoSteps(s);
    }
  }

  lemma StagesAt(m: Machine, e: Event, es: seq<Event>, c: Cfg)
    requires WeldRun(m, e, es, c) && c.multiCtrl && Scans(Next(m, e), es) <= Longer(c.multi.time2, 2)
    ensures StageAt(After(Next(m, e), es).weld, c, Scans(Next(m, e), es))
  {
    WeldArmed(m, e, c);
    WeldInputs(m, e, es, c);
    hide Next, Inputs, After, Smooth, Fsm.After, Scans, Under;
    StagesOf(Next(m, e).weld, Inputs(Next(m, e), es), c);
  }

  lemma NoSteps(s: Fsm.State)
    ensures Fsm.After(s, []) == s
  {
  }

  /** With two stages the weld lasts max(time2, 2) scans; its second scan on,
      the scan that completes max(time1, 2) changes the amplitude to the second
      one, and no other scan puts anything out. */
  lemma TwoStages(m: Machine, e: Event, es: seq<Event>, c: Cfg, x: Scan)
    requires WeldRun(m, e, es, c) && c.multiCtrl && ValveFollows(m)
    requires 1 <= Scans(Next(m, e), es) < Longer(c.multi.time2, 2)
    requires var m' := After(Next(m, e), es); Smooth(m', Scanned(x), c) && Steps(m', Scanned(x))
    ensures
      var m', n := After(Next(m, e), es), Scans(Next(m, e), es);
      && m'.weld.phase.Weld? && m'.weld.entered
      && Next(m', Scanned(x)).weld.phase == (if n + 1 == Longer(c.multi.time2, 2) then Fsm.Hold else Fsm.Weld)
      && Ticked(m', x).1 ==
        if n + 1 == Longer(c.multi.time1, 2) then [Dac((Percent(c.multi.out2) - 50) * 255 / 100)] else []
  {
    var m', n, y := After(Next(m, e), es), Scans(Next(m, e), es), Scanned(x);
    StagesAt(m, e, es, c);
    ValveStep(m, e);
    ValveAlways(Next(m, e), es);
    hide Next, After, Scans, WeldRun, Smooth, Steps;
    StageOnce(m', x, c, n);
  }

  lemma StageOnce(m: Machine, x: Scan, c: Cfg, n: nat)
    requires StageAt(m.weld, c, n) && 1 <= n < Longer(c.multi.time2, 2) && ValveFollows(m)
    requires Smooth(m, Scanned(x), c) && Steps(m, Scanned(x))
    ensures Next(m, Scanned(x)).weld.phase == if n + 1 == Longer(c.multi.time2, 2) then Fsm.Hold else Fsm.Weld
    ensures Ticked(m, x).1 ==
      if n + 1 == Longer(c.multi.time1, 2) then [Dac((Percent(c.multi.out2) - 50) * 255 / 100)] else []
  {
    var y := Scanned(x);
    StepOf(m, y);
    GivenUnder(m, y, c);
    hide Next, Given, Steps, Fsm.Step, Smooth, Ticked, Fsm.Actuators;
    Timing.TwoStageStep(m.weld, Given(m, y), n);
    Fsm.AmplitudeInRange(Percent(c.multi.out2), 7);
    StillDown(m, Given(m, y));
    TwoStageNoDone(m.weld, Given(m, y));
  }

  /** Inside the weld no step to WELD or HOLD moves the cylinder. */
  lemma StillDown(m: Machine, i: Fsm.In)
    requires ValveFollows(m) && Welding(m.weld)
    ensures
      var (s', o) := Fsm.Step(m.weld, i);
      m.solLast && o.sol == s'.sol && (s'.phase.Weld? || s'.phase.Hold? ==> o.sol) && (s'.phase.Ready? ==> !o.sol)
  {
    Fsm.ActuatorStep(m.weld, true, i);
    hide Fsm.Step;
  }

  lemma TwoStageNoDone(s: Fsm.State, i: Fsm.In)
    requires Welding(s)
    ensures var o := Fsm.Step(s, i).1; !o.done && !o.start
  {
    hide Fsm.MultiAmplitude;
  }

  // --- The end of a weld ---

  /** Leaving the weld, in whatever way, ends whatever run is on. */
  lemma WeldEndReleases(m: Machine, e: Event)
    requires ValveFollows(m) && Welding(m.weld) && !Welding(Next(m, e).weld)
    ensures Next(m, e).core.reg.run.Idle?
  {
    StepOf(m, e);
    Fsm.ActuatorStep(m.weld, true, Given(m, e));
    CoreOf(m, e);
    hide Next, Given, Steps, Fsm.Step, Fsm.Actuators;
    if e.Scanned? {
      DrivenRun(m.core, Fsm.Step(m.weld, Given(m, e)).1, e.x.il, e.x.now);
    }
    hide Driven;
  }

  lemma CoreOf(m: Machine, e: Event)
    requires Steps(m, e)
    ensures
      var o, c' := Fsm.Step(m.weld, Given(m, e)).1, Next(m, e).core;
      && (e.Scanned? ==> c' == Driven(m.core, o, e.x.il, e.x.now))
      && (e.AbortNow? ==> (o.stop ==> c'.reg.run.Idle?) && (!o.stop ==> c' == m.core))
  {
    hide Fsm.Step, Driven, Advanced, InputOf, TrigAfter;
    if e.Scanned? {
      GateApart(m, e.x, Advanced(m.prev, e.x.now));
    }
  }

  /** The scans an energy weld may take: 100 for each second of the limit, one
      second at least, and never less than two. */
  function EnergyScans(c: Cfg): nat { Longer(100 * Longer(c.times.outTime, 1) % 0x1_0000, 2) }

  /** The configured energy has been reached. */
  predicate Enough(m: Machine, c: Cfg) { c.energy != 0 && m.core.m.currEnergy >= c.energy }

  /** No scan after the entry has found the energy reached. */
  predicate NotYet(m: Machine, es: seq<Event>, c: Cfg) {
    forall k :: 0 <= k < |es| && Steps(After(m, es[..k]), es[k]) && Scans(m, es[..k]) >= 1 ==>
      !Enough(After(m, es[..k]), c)
  }

  lemma {:induction false} NoneReached(m: Machine, es: seq<Event>, c: Cfg)
    requires Undisturbed(m, es, c) && NotYet(m, es, c)
    ensures forall j :: 1 <= j < |Inputs(m, es)| ==> !Fsm.Reached(Inputs(m, es)[j])
    decreases |es|
  {
    hide Given, Steps, Smooth, Next, After, Enough;
    if es != [] {
      var k := |es| - 1;
      var m' := After(m, es[..k]);
      UndisturbedPart(m, es, c, k);
      NotYetPart(m, es, c, k);
      NoneReached(m, es[..k], c);
      assert Smooth(m', es[k], c);
      if Steps(m', es[k]) {
        GivenUnder(m', es[k], c);
        ReachedIsEnough(m', es[k], c);
      }
    }
  }

  lemma NotYetPart(m: Machine, es: seq<Event>, c: Cfg, k: nat)
    requires NotYet(m, es, c) && k <= |es|
    ensures NotYet(m, es[..k], c)
  {
    hide Steps, After, Scans, Enough;
    forall j | 0 <= j < k && Steps(After(m, es[..k][..j]), es[..k][j]) && Scans(m, es[..k][..j]) >= 1
      ensures !Enough(After(m, es[..k][..j]), c)
    {
      assert es[..k][..j] == es[..j] && es[..k][j] == es[j];
    }
  }

  lemma ReachedIsEnough(m: Machine, e: Event, c: Cfg)
    requires Smooth(m, e, c) && Steps(m, e)
    ensures Fsm.Reached(Given(m, e)) <==> Enough(m, c)
  {
    GivenUnder(m, e, c);
    hide Given;
  }

  /** The energy weld goes on, so many scans after it was armed. */
  predicate EnergyAt(s: Fsm.State, c: Cfg, n: nat) {
    && s.phase.Weld? && s.entered == (n > 0) && s.energy && !s.multi
    && s.temp == Timing.Left(Fsm.Backstop(c.times.outTime), n)
  }

  lemma EnergyOf(s: Fsm.State, ins: seq<Fsm.In>, c: Cfg)
    requires EnergyAt(s, c, 0) && |ins| < EnergyScans(c) && forall j :: 0 <= j < |ins| ==> Under(ins[j], c)
    requires forall j :: 1 <= j < |ins| ==> !Fsm.Reached(ins[j])
    ensures EnergyAt(Fsm.After(s, ins), c, |ins|)
  {
    BackstopIs(c.times.outTime);
    hide Fsm.After, Fsm.Step, Fsm.OutAt, Fsm.Backstop, Fsm.Reached;
    if ins != [] {
      assert forall j :: 0 <= j < |ins| ==> !ins[j].abort;
      Timing.EnergyWeld(s, ins, c.times.outTime, |ins|);
      assert ins[..|ins|] == ins;
    } else {
      NoSteps(s);
    }
  }

  lemma EnergyGoesOn(m: Machine, e: Event, es: seq<Event>, c: Cfg)
    requires WeldRun(m, e, es, c) && c.energyCtrl && !c.multiCtrl && NotYet(Next(m, e), es, c)
    requires Scans(Next(m, e), es) < EnergyScans(c)
    ensures EnergyAt(After(Next(m, e), es).weld, c, Scans(Next(m, e), es))
  {
    WeldArmed(m, e, c);
    WeldInputs(m, e, es, c);
    NoneReached(Next(m, e), es, c);
    hide Next, Inputs, After, Smooth, Fsm.After, Scans, NotYet, Fsm.Backstop, Fsm.Reached, Under, EnergyScans;
    EnergyOf(Next(m, e).weld, Inputs(Next(m, e), es), c);
  }

  lemma BackstopIs(outTime: u16)
    ensures Fsm.Backstop(outTime) == 100 * Longer(outTime, 1) % 0x1_0000
  {
  }

  /** An energy weld in the settings' own terms: the first scan after the entry
      that finds the published energy at the configured one ends it normally;
      failing that the scan that completes 100 for each second of the limit
      ends it in READY with the cylinder up and the fault raised; every
      other scan leaves it on. Either end releases the run. */
  lemma EnergyCycle(m: Machine, e: Event, es: seq<Event>, c: Cfg, x: Scan)
    requires WeldRun(m, e, es, c) && c.energyCtrl && !c.multiCtrl && ValveFollows(m)
    requires NotYet(Next(m, e), es, c) && 1 <= Scans(Next(m, e), es) < EnergyScans(c)
    requires var m' := After(Next(m, e), es); Smooth(m', Scanned(x), c) && Steps(m', Scanned(x))
    ensures
      var m', n := After(Next(m, e), es), Scans(Next(m, e), es);
      var d := Next(m', Scanned(x));
      if Enough(m', c) then
        d.weld.phase.Hold? && d.core.reg.run.Idle? && d.core.reg.fault == m'.core.reg.fault && Ticked(m', x).1 == []
      else if n + 1 == EnergyScans(c) then
        d.weld.phase.Ready? && d.core.reg.run.Idle? && d.core.reg.fault && Ticked(m', x).1 == [Valve(false)]
      else d.weld.phase.Weld? && d.weld.entered && d.core == m'.core && Ticked(m', x).1 == []
  {
    var m', n, y := After(Next(m, e), es), Scans(Next(m, e), es), Scanned(x);
    EnergyGoesOn(m, e, es, c);
    ValveStep(m, e);
    ValveAlways(Next(m, e), es);
    hide Next, After, Scans, WeldRun, Smooth, Steps, NotYet, EnergyAt, ValveFollows, Ticked;
    EnergyOnce(m', x, c, n);
  }

  lemma EnergyOnce(m: Machine, x: Scan, c: Cfg, n: nat)
    requires EnergyAt(m.weld, c, n) && 1 <= n < EnergyScans(c) && ValveFollows(m)
    requires Smooth(m, Scanned(x), c) && Steps(m, Scanned(x))
    ensures
      var d := Next(m, Scanned(x));
      if Enough(m, c) then
        d.weld.phase.Hold? && d.core.reg.run.Idle? && d.core.reg.fault == m.core.reg.fault && Ticked(m, x).1 == []
      else if n + 1 == EnergyScans(c) then
        d.weld.phase.Ready? && d.core.reg.run.Idle? && d.core.reg.fault && Ticked(m, x).1 == [Valve(false)]
      else d.weld.phase.Weld? && d.weld.entered && d.core == m.core && Ticked(m, x).1 == []
  {
    var y := Scanned(x);
    StepOf(m, y);
    CoreOf(m, y);
    GivenUnder(m, y, c);
    ReachedIsEnough(m, y, c);
    BackstopIs(c.times.outTime);
    hide Next, Given, Steps, Fsm.Step, Smooth, Ticked, Fsm.Actuators, Fsm.Reached, Enough, Fsm.Backstop;
    Timing.EnergyWeldStep(m.weld, Given(m, y), Fsm.Backstop(c.times.outTime), n);
    StillDown(m, Given(m, y));
    TwoStageNoDone(m.weld, Given(m, y));
    NoChange(m.weld, Given(m, y));
    DrivenFault(m.core, Fsm.Step(m.weld, Given(m, y)).1, x.il, x.now);
    hide Driven;
  }

  lemma NoChange(s: Fsm.State, i: Fsm.In)
    requires s.phase.Weld? && !s.multi
    ensures !Fsm.Step(s, i).1.ampChange
  {
    hide Fsm.Amplitude;
  }

  lemma DrivenFault(c: Reg.Core, o: Fsm.Out, il: Reg.Interlocks, now: u32)
    requires !o.start
    ensures
      var d := Driven(c, o, il, now);
      && (o.stop ==> d.reg.run.Idle?) && (d.reg.fault <==> c.reg.fault || o.fault)
      && (!o.stop && !o.fault ==> d == c)
  {
  }
}
