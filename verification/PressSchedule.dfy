/** The press driven by its scans, in the configuration's own settings: how long
    each stage of a cycle lasts, what is put out when, and what ends a weld. */
module PressSchedule {
  import opened Words
  import opened Config
  import opened WeldGlue
  import opened WeldSafety
  import Fsm = WeldFsm
  import Timing = WeldSchedule
  import WeldTrigger
  import Reg = Regulator

  // --- The press steps the cycle by its processed scans ---

  /** The event reaches the cycle's own step. */
  predicate Steps(m: Machine, e: Event) {
    e.AbortNow? || (e.Scanned? && Elapsed(e.x.now, m.prev) >= 10 && e.x.runPage && !e.x.il.horn)
  }

  /** What the cycle is given. */
  function Given(m: Machine, e: Event): Fsm.In { if e.Scanned? then InputOf(m, e.x) else ABORT_IN }

  /** The gate's reference plays no part in it. */
  lemma GateApart(m: Machine, x: Scan, p: u32)
    ensures InputOf(m.(prev := p), x) == InputOf(m, x)
  {
    hide Reg.StartAllowed, TimesOf, WeldTrigger.Next;
  }

  lemma StepOf(m: Machine, e: Event)
    ensures Next(m, e).weld == if Steps(m, e) then Fsm.Step(m.weld, Given(m, e)).0 else m.weld
    ensures e.Scanned? ==>
      Ticked(m, e.x).1 == if Steps(m, e) then EffectsOf(m, Fsm.Step(m.weld, Given(m, e)).1) else []
  {
    hide Fsm.Step, Driven, Advanced, Reg.Ticked, Reg.Commanded, InputOf, TrigAfter;
    if e.Scanned? {
      GateApart(m, e.x, Advanced(m.prev, e.x.now));
    }
  }

  /** A gated scan is as if it had not been: nothing moves but the gate's own
      reference. */
  lemma GatedScan(m: Machine, x: Scan)
    requires !Steps(m, Scanned(x))
    ensures Next(m, Scanned(x)) == m.(prev := Next(m, Scanned(x)).prev) && Ticked(m, x).1 == []
  {
    hide Stepped;
  }

  /** The scans of a run that reach the cycle. */
  function Scans(m: Machine, es: seq<Event>): nat {
    if es == [] then 0
    else
      var k := |es| - 1;
      Scans(m, es[..k]) + if Steps(After(m, es[..k]), es[k]) then 1 else 0
  }

  /** What the cycle is given over a run. */
  function Inputs(m: Machine, es: seq<Event>): (ins: seq<Fsm.In>)
    ensures |ins| == Scans(m, es)
  {
    if es == [] then []
    else
      var k := |es| - 1;
      var m' := After(m, es[..k]);
      Inputs(m, es[..k]) + if Steps(m', es[k]) then [Given(m', es[k])] else []
  }

  /** Whatever happens around it, the cycle is where its own step takes it. */
  lemma {:induction false} CycleFollows(m: Machine, es: seq<Event>)
    ensures After(m, es).weld == Fsm.After(m.weld, Inputs(m, es))
  {
    hide Next, Fsm.Step, Given, Steps;
    if es != [] {
      var k := |es| - 1;
      var m', ins := After(m, es[..k]), Inputs(m, es[..k]);
      CycleFollows(m, es[..k]);
      StepOf(m', es[k]);
      if Steps(m', es[k]) {
        assert (ins + [Given(m', es[k])])[..|ins|] == ins;
      } else {
        assert ins + [] == ins;
      }
    }
  }

  /** Earlier inputs are a prefix of later ones. */
  lemma {:induction false} InputsExtend(m: Machine, es: seq<Event>, k: nat)
    requires k <= |es|
    ensures Scans(m, es[..k]) <= Scans(m, es) && Inputs(m, es)[..Scans(m, es[..k])] == Inputs(m, es[..k])
    decreases |es| - k
  {
    if k == |es| {
      assert es[..k] == es;
    } else {
      InputsExtend(m, es, k + 1);
      assert es[..k + 1][..k] == es[..k];
      var ins, next := Inputs(m, es[..k]), Inputs(m, es[..k + 1]);
      assert next[..|ins|] == ins;
      hide Inputs, Scans;
      Prefixes(Inputs(m, es), next, ins);
    }
  }

  lemma Prefixes(a: seq<Fsm.In>, b: seq<Fsm.In>, c: seq<Fsm.In>)
    requires |c| <= |b| <= |a| && a[..|b|] == b && b[..|c|] == c
    ensures a[..|c|] == c
  {
  }

  // --- Runs with settled settings and no cause for an abort ---

  /** No cause for an abort at this scan. */
  predicate NoAbort(m: Machine, x: Scan) {
    && !x.il.estop && !x.il.overload && !m.core.m.fault
    && (m.cfg.model.safety == 0 || !m.weld.phase.Cyl1? || (!x.keys.key1 && !x.keys.key2))
  }

  predicate Smooth(m: Machine, e: Event, c: Cfg) {
    m.cfg.(workCnt := c.workCnt) == c && !e.AbortNow? && (e.Scanned? && Steps(m, e) ==> NoAbort(m, e.x))
  }

  /** The settings are `c` throughout, and nothing aborts. What else happens
      between the scans is free. */
  predicate Undisturbed(m: Machine, es: seq<Event>, c: Cfg) {
    forall k :: 0 <= k < |es| ==> Smooth(After(m, es[..k]), es[k], c)
  }

  function Percent(v: u16): (r: byte) { if v > 100 then 100 else if v < 50 then 50 else v }

  /** The input of a step under the settings `c`. */
  predicate Under(i: Fsm.In, c: Cfg) {
    && i.t == Fsm.Times(c.times.delay1, c.times.delay2, c.times.delay3, c.times.trigger2, c.times.trigger3,
      c.multi.time1, c.multi.time2, c.times.outTime)
    && i.lv == Fsm.Levels(c.power, Percent(c.multi.out1), Percent(c.multi.out2))
    && i.modes == Fsm.Modes(c.model.runMode, c.energyCtrl, c.multiCtrl) && i.limit == c.energy && !i.abort
  }

  lemma GivenUnder(m: Machine, e: Event, c: Cfg)
    requires Smooth(m, e, c) && Steps(m, e)
    ensures Under(Given(m, e), c) && Given(m, e).energy == m.core.m.currEnergy
  {
    hide Begins;
  }

  lemma {:induction false} InputsUnder(m: Machine, es: seq<Event>, c: Cfg)
    requires Undisturbed(m, es, c)
    ensures forall j :: 0 <= j < |Inputs(m, es)| ==> Under(Inputs(m, es)[j], c)
    decreases |es|
  {
    hide Under, Given, Steps, Smooth, Next, After;
    if es != [] {
      var k := |es| - 1;
      assert Smooth(After(m, es[..k]), es[k], c);
      UndisturbedPart(m, es, c, k);
      InputsUnder(m, es[..k], c);
      if Steps(After(m, es[..k]), es[k]) {
        GivenUnder(After(m, es[..k]), es[k], c);
      }
    }
  }

  lemma UndisturbedPart(m: Machine, es: seq<Event>, c: Cfg, k: nat)
    requires Undisturbed(m, es, c) && k <= |es|
    ensures Undisturbed(m, es[..k], c)
  {
    hide Smooth, After;
    forall j | 0 <= j < k
      ensures Smooth(After(m, es[..k][..j]), es[..k][j], c)
    {
      assert es[..k][..j] == es[..j] && es[..k][j] == es[j];
    }
  }

  // --- The start ---

  /** The press leaves READY exactly at a scan that is due, on a run page and
      without the horn, that finds both keys pressed for the first time since
      they were released, with warm-up over, nothing running, no fault, and
      none of seek or reset, overload and emergency stop. */
  lemma StartsExactly(m: Machine, e: Event)
    requires m.weld.phase.Ready?
    ensures !Next(m, e).weld.phase.Ready? <==>
      && e.Scanned? && Elapsed(e.x.now, m.prev) >= 10 && e.x.runPage
      && !e.x.keys.key1 && !e.x.keys.key2 && !m.trig.inCycle
      && !m.core.reg.warm && m.core.reg.run.Idle? && !m.core.reg.fault
      && !e.x.il.seekReset && !e.x.il.overload && !e.x.il.estop && !e.x.il.horn
  {
    CycleStartsOnlyGuarded(m, e);
    hide Next;
  }

  lemma FirstInput(m: Machine, es: seq<Event>)
    requires m.weld.phase.Ready? && es != [] && !Next(m, es[0]).weld.phase.Ready?
    ensures |Inputs(m, es)| > 0 && Inputs(m, es)[0].start && Scans(m, es[..1]) == 1
  {
    var e := es[0];
    StepOf(m, e);
    IntoCyl1(m.weld, Given(m, e));
    assert es[..1] == [e] && [e][..0] == [];
    InputsExtend(m, es, 1);
    assert Inputs(m, [e])[0] == Given(m, e);
    hide Next, Fsm.Step, Given, Steps, Inputs;
    assert Inputs(m, es)[0] == Inputs(m, es)[..1][0];
  }

  // --- The DELAY cycle ---

  function Longer(n: nat, min: nat): (r: nat) { if n < min then min else n }

  /** The phase after `n` scans, the one that starts the cycle counted. */
  predicate DelayPhase(p: Fsm.Phase, c: Cfg, n: nat) {
    var down, weld, hold := Longer(c.times.delay1, 2), Longer(c.times.delay2, 7), Longer(c.times.delay3, 2);
    match p
    case Cyl1 => 1 <= n < 1 + down
    case Weld => 1 + down <= n < 1 + down + weld
    case Hold => 1 + down + weld <= n < 1 + down + weld + hold
    case Cyl2 => 1 + down + weld + hold <= n < 1 + down + weld + hold + down
    case Ready => n == 1 + down + weld + hold + down
  }

  function CycleScans(c: Cfg): nat {
    1 + 2 * Longer(c.times.delay1, 2) + Longer(c.times.delay2, 7) + Longer(c.times.delay3, 2)
  }

  /** A cycle in DELAY mode under time control, from the scan that starts it. */
  predicate DelayRun(m: Machine, es: seq<Event>, c: Cfg) {
    && m.weld.phase.Ready? && es != [] && !Next(m, es[0]).weld.phase.Ready? && Undisturbed(m, es, c)
    && c.model.runMode == 0 && !c.energyCtrl && !c.multiCtrl
  }

  lemma DelayInputs(m: Machine, es: seq<Event>, c: Cfg)
    requires DelayRun(m, es, c)
    ensures
      var t := TimesOf(c);
      Inputs(m, es) != [] && forall j :: 0 <= j < |Inputs(m, es)| ==> Timing.Delayed(Inputs(m, es)[j], t, j)
  {
    InputsUnder(m, es, c);
    FirstInput(m, es);
    hide Inputs, Next, Undisturbed;
  }

  lemma PlaceIsPhase(c: Cfg, n: nat)
    requires 1 <= n <= CycleScans(c)
    ensures Timing.DwellOf(TimesOf(c)).Total() == CycleScans(c)
    ensures DelayPhase(Timing.PlaceAt(TimesOf(c), n).phase, c, n)
    ensures Timing.PlaceAt(TimesOf(c), n).since == 0 <==> n in PhaseStarts(c)
  {
  }

  /** The scans after which a phase has just begun, or the cycle has ended. */
  function PhaseStarts(c: Cfg): set<nat> {
    var down, weld, hold := Longer(c.times.delay1, 2), Longer(c.times.delay2, 7), Longer(c.times.delay3, 2);
    {1, 1 + down, 1 + down + weld, 1 + down + weld + hold, CycleScans(c)}
  }

  /** Scheduled by the cycle's own theorem. */
  lemma DelayAt(m: Machine, es: seq<Event>, c: Cfg)
    requires DelayRun(m, es, c) && Scans(m, es) <= CycleScans(c)
    ensures Timing.At(After(m, es).weld, Timing.PlaceAt(TimesOf(c), Scans(m, es)))
  {
    DelayInputs(m, es, c);
    CycleFollows(m, es);
    Totals(c);
    hide Inputs, After, Scans, DelayRun, CycleScans, TimesOf, Timing.PlaceAt, Timing.DwellOf, Timing.At, Fsm.After;
    hide Timing.Delayed, Timing.EdgesAt;
    WholeSchedule(m.weld, Inputs(m, es), TimesOf(c), Scans(m, es));
  }

  lemma WholeSchedule(s: Fsm.State, ins: seq<Fsm.In>, t: Fsm.Times, n: nat)
    requires s.phase.Ready? && |ins| == n <= Timing.DwellOf(t).Total()
    requires forall j :: 0 <= j < |ins| ==> Timing.Delayed(ins[j], t, j)
    ensures Timing.At(Fsm.After(s, ins), Timing.PlaceAt(t, n))
    ensures n > 0 ==> Timing.EdgesAt(Fsm.OutAt(s, ins, n), t, n)
  {
    hide Timing.PlaceAt, Timing.DwellOf, Timing.At, Fsm.After, Timing.Delayed, Timing.EdgesAt, Fsm.OutAt;
    Timing.DelaySchedule(s, ins, t, n);
    assert ins[..n] == ins;
  }

  /** In the settings' own terms: the cylinder goes down for max(delay1, 2)
      scans, the weld lasts max(delay2, 7), the hold max(delay3, 2), and the
      cylinder comes up for max(delay1, 2), each phase by itself and whatever
      happens between the scans. */
  lemma DelayCycle(m: Machine, es: seq<Event>, c: Cfg)
    requires DelayRun(m, es, c) && Scans(m, es) <= CycleScans(c)
    ensures DelayPhase(After(m, es).weld.phase, c, Scans(m, es))
  {
    hide DelayPhase, CycleScans, Timing.PlaceAt, After, DelayRun, TimesOf, Scans, Next;
    SomeScan(m, es, c);
    DelayAt(m, es, c);
    PlaceIsPhase(c, Scans(m, es));
  }

  lemma SomeScan(m: Machine, es: seq<Event>, c: Cfg)
    requires DelayRun(m, es, c)
    ensures Scans(m, es) >= 1
  {
    FirstInput(m, es);
    hide Next, Undisturbed, Inputs;
  }

  // --- What a DELAY cycle puts out ---

  /** The cylinder's valve follows the cycle. */
  predicate ValveFollows(m: Machine) {
    Fsm.Actuators(m.weld, Welding(m.weld)) && m.solLast == m.weld.sol
  }

  lemma ValveStep(m: Machine, e: Event)
    requires ValveFollows(m)
    ensures ValveFollows(Next(m, e))
  {
    StepOf(m, e);
    Fsm.ActuatorStep(m.weld, Welding(m.weld), Given(m, e));
    SolOf(m, e);
    hide Next, Fsm.Step, Given, Steps, Fsm.Actuators;
  }

  lemma SolOf(m: Machine, e: Event)
    ensures Next(m, e).solLast == if Steps(m, e) then Fsm.Step(m.weld, Given(m, e)).1.sol else m.solLast
  {
    hide Fsm.Step, Driven, Advanced, Reg.Ticked, Reg.Commanded, InputOf, TrigAfter;
    if e.Scanned? {
      GateApart(m, e.x, Advanced(m.prev, e.x.now));
    }
  }

  lemma {:induction false} ValveAlways(m: Machine, es: seq<Event>)
    requires ValveFollows(m)
    ensures ValveFollows(After(m, es))
  {
    hide Next, ValveFollows;
    if es != [] {
      ValveAlways(m, es[..|es| - 1]);
      ValveStep(After(m, es[..|es| - 1]), es[|es| - 1]);
    }
  }

  lemma ValveAtBoot(c: Cfg, now: u32)
    ensures ValveFollows(Boot(c, now))
  {
  }

  /** The amplitude of a weld of so many scans: 255/100 of the power above 50,
      less ten for each scan it lacks of seven. */
  function WeldDac(power: byte, scans: nat): (v: byte)
    requires 50 <= power <= 100
  {
    var full, cut := (power - 50) * 255 / 100, if scans < 7 then 10 * (7 - scans) else 0;
    if full >= cut then full - cut else 0
  }

  /** What the scan after the `n`-th puts out: the valve down when CYL1 is
      entered and up when CYL2 is, the amplitude when the weld is entered, the
      counted-up configuration when the cycle is done; nothing otherwise. */
  function DelayEffects(cfg: Cfg, c: Cfg, n: nat): seq<Effect>
    requires 50 <= c.power <= 100
  {
    var down, weld, hold := Longer(c.times.delay1, 2), Longer(c.times.delay2, 7), Longer(c.times.delay3, 2);
    if n == 1 then [Valve(true)]
    else if n == 1 + down then [Dac(WeldDac(c.power, c.times.delay2))]
    else if n == 1 + down + weld + hold then [Valve(false)]
    else if n == down + weld + hold + down then [SaveAll(cfg.(workCnt := (cfg.workCnt + 1) % 0x1_0000_0000))]
    else []
  }

  /** The step out of CYL1, as the cycle's own run has it. */
  lemma OutOfCyl1(s: Fsm.State, ins: seq<Fsm.In>, c: Cfg)
    requires s.phase.Ready? && |ins| == 1 + Longer(c.times.delay1, 2)
    requires forall j :: 0 <= j < |ins| ==> Timing.Delayed(ins[j], TimesOf(c), j) && Under(ins[j], c)
    requires !c.energyCtrl && !c.multiCtrl
    ensures
      var s' := Fsm.After(s, ins);
      Timing.Armed(s') && !s'.multi && s'.comp == if c.times.delay2 > 7 then 7 else c.times.delay2
  {
    var n, t := |ins| - 1, TimesOf(c);
    Totals(c);
    PlaceIsPhase(c, n);
    PlaceIsPhase(c, n + 1);
    Fsm.AfterNext(s, ins, n);
    assert ins[..n + 1] == ins;
    hide Timing.PlaceAt, Timing.DwellOf, Fsm.After, Fsm.Step, Timing.Delayed, Timing.EdgesAt, Fsm.OutAt, PhaseStarts;
    Timing.DelaySchedule(s, ins, t, n);
    Timing.DelaySchedule(s, ins, t, n + 1);
    Timing.WeldIsArmed(Fsm.After(s, ins[..n]), ins[n]);
  }

  /** The latched amplitude count when the weld is armed. */
  lemma ArmedAmplitude(m: Machine, es: seq<Event>, c: Cfg)
    requires DelayRun(m, es, c) && Scans(m, es) == 1 + Longer(c.times.delay1, 2)
    ensures
      var s := After(m, es).weld;
      Timing.Armed(s) && !s.multi && s.comp == if c.times.delay2 > 7 then 7 else c.times.delay2
  {
    DelayInputs(m, es, c);
    InputsUnder(m, es, c);
    CycleFollows(m, es);
    hide After, Inputs, Scans, Fsm.After, Fsm.Step, Undisturbed, Under, Timing.Delayed;
    OutOfCyl1(m.weld, Inputs(m, es), c);
  }

  /** One more scan is one more input. */
  lemma LastInput(m: Machine, es: seq<Event>, e: Event)
    requires Steps(After(m, es), e)
    ensures
      var all, n := es + [e], Scans(m, es);
      && Scans(m, all) == n + 1 && Inputs(m, all)[..n] == Inputs(m, es)
      && Inputs(m, all)[n] == Given(After(m, es), e) && After(m, all) == Next(After(m, es), e)
  {
    var all := es + [e];
    assert all[..|es|] == es && all[|es|] == e;
    hide Next, Given, Steps;
    AfterNext(m, all, |es|);
    assert all[..|es| + 1] == all;
  }

  /** The cylinder is driven down from the second scan to the one that begins
      CYL2. */
  lemma SolAt(s: Fsm.State, c: Cfg, n: nat)
    requires 1 <= n <= CycleScans(c) && Timing.At(s, Timing.PlaceAt(TimesOf(c), n)) && Fsm.Actuators(s, Welding(s))
    ensures s.sol <==>
      2 <= n <= 1 + Longer(c.times.delay1, 2) + Longer(c.times.delay2, 7) + Longer(c.times.delay3, 2)
  {
    PlaceIsPhase(c, n);
    hide Timing.PlaceAt;
  }

  lemma EntryDac(s: Fsm.State, i: Fsm.In, c: Cfg, scans: u16)
    requires Timing.Armed(s) && !s.multi && Under(i, c) && 50 <= c.power <= 100
    requires s.comp == if scans > 7 then 7 else scans
    ensures Fsm.Step(s, i).1.amplitude == WeldDac(c.power, scans)
  {
    Timing.EntryAmplitude(s, i);
    Fsm.AmplitudeInRange(c.power, s.comp);
    hide Fsm.Step, Fsm.Amplitude;
  }

  lemma EffectsAre(m: Machine, o: Fsm.Out, c: Cfg, n: nat)
    requires 1 <= n < CycleScans(c) && 50 <= c.power <= 100
    requires
      var down, top := Longer(c.times.delay1, 2), CycleScans(c) - Longer(c.times.delay1, 2);
      && m.solLast == (2 <= n <= top) && o.sol == (2 <= n + 1 <= top) && o.start == (n == 1 + down)
      && o.done == (n + 1 == CycleScans(c)) && !o.ampChange
      && (o.start ==> o.amplitude == WeldDac(c.power, c.times.delay2))
    ensures EffectsOf(m, o) == DelayEffects(m.cfg, c, n)
  {
    hide WeldDac;
  }

  /** The outputs of a cycle, each at its own scan, in the settings' own
      terms. */
  lemma DelayOutputs(m: Machine, es: seq<Event>, c: Cfg, x: Scan)
    requires DelayRun(m, es + [Scanned(x)], c) && es != [] && Scans(m, es) < CycleScans(c)
    requires ValveFollows(m) && 50 <= c.power <= 100 && Steps(After(m, es), Scanned(x))
    ensures Ticked(After(m, es), x).1 == DelayEffects(After(m, es).cfg, c, Scans(m, es))
  {
    hide After, Inputs, Scans, Next, Fsm.Step, Given, Steps, DelayRun, DelayEffects, EffectsOf, ValveFollows;
    hide Timing.PlaceAt, Fsm.Actuators, Timing.At, Ticked, CycleScans, Longer, Timing.EdgesAt;
    DelayBefore(m, es, Scanned(x), c);
    StepOf(After(m, es), Scanned(x));
    ValveAlways(m, es);
    DelayPlaces(m, es, Scanned(x), c);
    if Scans(m, es) == 1 + Longer(c.times.delay1, 2) {
      EntryPutsOut(m, es, Scanned(x), c);
    }
    OutputsOf(After(m, es), Scanned(x), c, Scans(m, es));
  }

  lemma DelayBefore(m: Machine, es: seq<Event>, e: Event, c: Cfg)
    requires DelayRun(m, es + [e], c) && es != []
    ensures DelayRun(m, es, c) && Scans(m, es) >= 1
  {
    var all := es + [e];
    assert all[..|es|] == es;
    DelayPart(m, all, c, |es|);
  }

  lemma EntryPutsOut(m: Machine, es: seq<Event>, e: Event, c: Cfg)
    requires DelayRun(m, es + [e], c) && es != [] && Steps(After(m, es), e) && 50 <= c.power <= 100
    requires Scans(m, es) == 1 + Longer(c.times.delay1, 2)
    ensures Fsm.Step(After(m, es).weld, Given(After(m, es), e)).1.amplitude == WeldDac(c.power, c.times.delay2)
  {
    DelayBefore(m, es, e, c);
    ArmedAmplitude(m, es, c);
    LastUnder(m, es, e, c);
    EntryDac(After(m, es).weld, Given(After(m, es), e), c, c.times.delay2);
    hide After, Scans, Next, Fsm.Step, Given, Steps, Undisturbed;
  }

  /** One scan between two places of the cycle. */
  lemma OutputsOf(m: Machine, e: Event, c: Cfg, n: nat)
    requires 1 <= n < CycleScans(c) && 50 <= c.power <= 100 && ValveFollows(m) && e.Scanned? && Steps(m, e)
    requires
      var t, o := TimesOf(c), Fsm.Step(m.weld, Given(m, e)).1;
      && Timing.At(m.weld, Timing.PlaceAt(t, n)) && Timing.At(Next(m, e).weld, Timing.PlaceAt(t, n + 1))
      && Timing.EdgesAt(o, t, n + 1)
      && (n == 1 + Longer(c.times.delay1, 2) ==> o.amplitude == WeldDac(c.power, c.times.delay2))
    ensures EffectsOf(m, Fsm.Step(m.weld, Given(m, e)).1) == DelayEffects(m.cfg, c, n)
  {
    hide Next, Fsm.Step, Given, Steps, Timing.PlaceAt, Timing.At, EffectsOf, DelayEffects, Fsm.Actuators, Longer;
    hide CycleScans, TimesOf;
    ValveStep(m, e);
    SolAt(m.weld, c, n);
    SolAt(Next(m, e).weld, c, n + 1);
    SolOf(m, e);
    Totals(c);
    EffectsAre(m, Fsm.Step(m.weld, Given(m, e)).1, c, n);
  }

  lemma Totals(c: Cfg)
    ensures Timing.DwellOf(TimesOf(c)).Total() == CycleScans(c)
    ensures Timing.DwellOf(TimesOf(c)).down == Longer(c.times.delay1, 2)
    ensures CycleScans(c) - Longer(c.times.delay1, 2) ==
      1 + Longer(c.times.delay1, 2) + Longer(c.times.delay2, 7) + Longer(c.times.delay3, 2)
  {
  }

  /** A beginning of such a run is one. */
  lemma DelayPart(m: Machine, es: seq<Event>, c: Cfg, k: nat)
    requires DelayRun(m, es, c) && 0 < k <= |es|
    ensures DelayRun(m, es[..k], c) && Scans(m, es[..k]) >= 1
  {
    UndisturbedPart(m, es, c, k);
    assert es[..k][0] == es[0];
    FirstInput(m, es[..k]);
    hide Next, After, Undisturbed;
  }

  lemma LastUnder(m: Machine, es: seq<Event>, e: Event, c: Cfg)
    requires Undisturbed(m, es + [e], c) && Steps(After(m, es), e)
    ensures Under(Given(After(m, es), e), c)
  {
    var all := es + [e];
    assert all[..|es|] == es && all[|es|] == e;
    assert Smooth(After(m, all[..|es|]), all[|es|], c);
    GivenUnder(After(m, es), e, c);
    hide Under, Given, Steps, Smooth, After;
  }

  /** The cycle before and after one more scan is at its places. */
  lemma DelayPlaces(m: Machine, es: seq<Event>, e: Event, c: Cfg)
    requires DelayRun(m, es + [e], c) && es != [] && Scans(m, es) < CycleScans(c) && Steps(After(m, es), e)
    ensures
      var m', n, t := After(m, es), Scans(m, es), TimesOf(c);
      && Timing.At(m'.weld, Timing.PlaceAt(t, n)) && Timing.At(Next(m', e).weld, Timing.PlaceAt(t, n + 1))
      && Timing.EdgesAt(Fsm.Step(m'.weld, Given(m', e)).1, t, n + 1)
  {
    hide After, Scans, Next, Fsm.Step, Given, Steps, DelayRun, Timing.PlaceAt, Timing.At, Timing.EdgesAt, CycleScans;
    Totals(c);
    DelayBefore(m, es, e, c);
    LastInput(m, es, e);
    DelayAt(m, es, c);
    DelayAt(m, es + [e], c);
    DelayEdges(m, es, e, c);
  }

  lemma DelayEdges(m: Machine, es: seq<Event>, e: Event, c: Cfg)
    requires DelayRun(m, es + [e], c) && es != [] && Scans(m, es) < CycleScans(c) && Steps(After(m, es), e)
    ensures Timing.EdgesAt(Fsm.Step(After(m, es).weld, Given(After(m, es), e)).1, TimesOf(c), Scans(m, es) + 1)
  {
    LastInput(m, es, e);
    DelayInputs(m, es + [e], c);
    CycleFollows(m, es);
    Totals(c);
    hide After, Inputs, Scans, Next, Fsm.Step, Given, Steps, DelayRun, Timing.PlaceAt, Timing.At, Timing.EdgesAt;
    hide CycleScans, Timing.DwellOf, Fsm.OutAt, Fsm.After, Timing.Delayed, TimesOf;
    WholeSchedule(m.weld, Inputs(m, es + [e]), TimesOf(c), Scans(m, es) + 1);
    Fsm.AfterNext(m.weld, Inputs(m, es + [e]), Scans(m, es));
  }
}
