/** The press as a whole: the 10 ms gate, the two-hand start, the abort
    sources, and the weld cycle's edges turned into valve, amplitude and run
    commands. */
module WeldGlue {
  import opened Words
  import opened Config
  import WeldFsm
  import WeldTrigger
  import Reg = Regulator

  const WELD_TICK_MS: nat := 10
  const LAG_MAX_MS: nat := 100

  // --- The gate ---

  predicate Due(prev: u32, now: u32) { Elapsed(now, prev) >= WELD_TICK_MS }

  /** The next reference instant: 10 ms later, or now after a long stall. */
  function Advanced(prev: u32, now: u32): (p: u32) {
    var next := (prev + WELD_TICK_MS) % WRAP;
    if Elapsed(now, next) > LAG_MAX_MS then now else next
  }

  // --- One tick ---

  datatype Scan = Scan(now: u32, runPage: bool, keys: WeldTrigger.Keys, il: Reg.Interlocks)

  datatype Machine = Machine(cfg: Cfg, prev: u32, solLast: bool, weld: WeldFsm.State, trig: WeldTrigger.Trig,
    core: Reg.Core)

  datatype Effect = Valve(down: bool) | Dac(value: byte) | SaveAll(cfg: Cfg)

  /** The tick is not gated away: it is due, the page is a run page, and the
      horn is not being tuned. */
  predicate Processed(m: Machine, x: Scan) { Due(m.prev, x.now) && x.runPage && !x.il.horn }

  function Pulses(m: Machine, x: Scan): WeldTrigger.Pulses {
    WeldTrigger.Next(m.trig, x.keys, m.cfg.model.safety, m.weld.phase).1
  }

  /** Both hands, READY, and a start the arbiter would accept. */
  predicate Begins(m: Machine, x: Scan) {
    Pulses(m, x).start && m.weld.phase.Ready? && Reg.StartAllowed(m.core.reg, x.il)
  }

  predicate Aborts(m: Machine, x: Scan) {
    x.il.estop || x.il.overload || m.core.m.fault || Pulses(m, x).safetyAbort
  }

  function TrigAfter(m: Machine, x: Scan): WeldTrigger.Trig {
    var t := WeldTrigger.Next(m.trig, x.keys, m.cfg.model.safety, m.weld.phase).0;
    if Begins(m, x) then t.(inCycle := true) else t
  }

  function TimesOf(c: Cfg): WeldFsm.Times {
    WeldFsm.Times(c.times.delay1, c.times.delay2, c.times.delay3, c.times.trigger2, c.times.trigger3, c.multi.time1,
      c.multi.time2, c.times.outTime)
  }

  function InputOf(m: Machine, x: Scan): WeldFsm.In {
    var c, p := m.cfg, Pulses(m, x);
    WeldFsm.In(Begins(m, x), Aborts(m, x), p.dnEdge, p.upEdge,
               WeldFsm.Modes(c.model.runMode, c.energyCtrl, c.multiCtrl), TimesOf(c),
               WeldFsm.Levels(c.power, ClampPower(c.multi.out1), ClampPower(c.multi.out2)),
               m.core.m.currEnergy, c.energy)
  }

  /** The run commands of one step, in order. */
  function Driven(c: Reg.Core, o: WeldFsm.Out, il: Reg.Interlocks, now: u32): Reg.Core {
    var c1 := if o.start then Reg.Commanded(c, Reg.Start, Reg.Cycle, il, now) else c;
    var c2 := if o.stop then Reg.Commanded(c1, Reg.Release, Reg.Cycle, il, now) else c1;
    if o.fault then c2.(reg := c2.reg.(fault := true)) else c2
  }

  function CountedUp(c: Cfg): Cfg { c.(workCnt := (c.workCnt + 1) % WRAP) }

  function EffectsOf(m: Machine, o: WeldFsm.Out): seq<Effect> {
    (if o.sol != m.solLast then [Valve(o.sol)] else [])
    + (if o.start then [Dac(o.amplitude)] else [])
    + (if o.ampChange then [Dac(o.amplitude)] else [])
    + (if o.done then [SaveAll(CountedUp(m.cfg))] else [])
  }

  function Stepped(m: Machine, x: Scan): (Machine, seq<Effect>) {
    var (w, o) := WeldFsm.Step(m.weld, InputOf(m, x));
    (m.(solLast := o.sol, weld := w, trig := TrigAfter(m, x), core := Driven(m.core, o, x.il, x.now),
        cfg := if o.done then CountedUp(m.cfg) else m.cfg),
     EffectsOf(m, o))
  }

  /** app_weld_tick. */
  function Ticked(m: Machine, x: Scan): (Machine, seq<Effect>) {
    if !Due(m.prev, x.now) then (m, [])
    else
      var m1 := m.(prev := Advanced(m.prev, x.now));
      if !x.runPage || x.il.horn then (m1, []) else Stepped(m1, x)
  }

  /** app_weld_abort_now: an abort step outside the gate. */
  function AbortedNow(m: Machine, i: WeldFsm.In, il: Reg.Interlocks, now: u32): (Machine, seq<Effect>) {
    var (w, o) := WeldFsm.Step(m.weld, i);
    (m.(solLast := o.sol, weld := w,
      core := if o.stop then Reg.Commanded(m.core, Reg.Release, Reg.Cycle, il, now) else m.core),
     if o.sol != m.solLast then [Valve(o.sol)] else [])
  }

  const ABORT_IN: WeldFsm.In := WeldFsm.In(
    false, true, false, false, WeldFsm.Modes(0, false, false), WeldFsm.Times(0, 0, 0, 0, 0, 0, 0, 0),
      WeldFsm.Levels(0, 0, 0), 0, 0)

  // --- Every interleaving ---

  datatype Event =
    | Scanned(x: Scan)
    | AbortNow(il: Reg.Interlocks, now: u32)
    | Other(cmd: Reg.Command, src: Reg.Source, il: Reg.Interlocks, now: u32)
    | Regulate(lim: Reg.Limits, sn: Reg.Sensors, now: u32)
    | Fault
    | Edit(cfg: Cfg)

  /** Only the press starts runs in its own name. */
  predicate Fair(e: Event) { e.Other? ==> !(e.cmd.Start? && e.src.Cycle?) }

  function Next(m: Machine, e: Event): Machine {
    match e
    case Scanned(x) => Ticked(m, x).0
    case AbortNow(il, now) => AbortedNow(m, ABORT_IN, il, now).0
    case Other(cmd, src, il, now) => m.(core := Reg.Commanded(m.core, cmd, src, il, now))
    case Regulate(lim, sn, now) => m.(core := Reg.Ticked(m.core, now, lim, sn))
    case Fault => m.(core := m.core.(reg := m.core.reg.(fault := true)))
    case Edit(c) => m.(cfg := c)
  }

  function After(m: Machine, es: seq<Event>): Machine {
    if es == [] then m else Next(After(m, es[..|es| - 1]), es[|es| - 1])
  }

  lemma AfterNext(m: Machine, es: seq<Event>, k: nat)
    requires k < |es|
    ensures After(m, es[..k + 1]) == Next(After(m, es[..k]), es[k])
  {
    assert es[..k + 1][..k] == es[..k];
  }

  function Boot(c: Cfg, now: u32): Machine {
    Machine(c, now, false, WeldFsm.BOOT, WeldTrigger.BOOT, Reg.Boot(now))
  }

  lemma EffectsInOrder(m: Machine, o: WeldFsm.Out)
    ensures var valve := if o.sol != m.solLast then [Valve(o.sol)] else [];
      var drive := (if o.start then [Dac(o.amplitude)] else []) + (if o.ampChange then [Dac(o.amplitude)] else []);
      EffectsOf(m, o) == if o.done then valve + drive + [SaveAll(CountedUp(m.cfg))] else valve + drive
  {
  }

  // --- The glue, acting in place ---

  class Press {
    const cycle: WeldFsm.Cycle
    const trig: WeldTrigger.Trigger
    const arb: Reg.Arbiter
    var cfg: Cfg
    var prev: u32
    var startPending: bool
    var solLast: bool

    ghost function Now(): Machine
      reads this, cycle, trig, arb
    {
      Machine(cfg, prev, solLast, cycle.Now(), trig.Now(), arb.State())
    }

    constructor (c: Cfg, now: u32)
      ensures Now() == Boot(c, now) && !startPending
    {
      cycle := new WeldFsm.Cycle();
      trig := new WeldTrigger.Trigger();
      arb := new Reg.Arbiter(now);
      cfg := c;
      prev := now;
      startPending := false;
      solLast := false;
    }

    /** Drive the valve on a level change only. */
    method DriveValve(sol: bool) returns (fx: seq<Effect>)
      modifies this`solLast
      ensures solLast == sol && fx == if sol != old(solLast) then [Valve(sol)] else []
    {
      fx := [];
      if sol != solLast {
        solLast := sol;
        fx := [Valve(sol)];
      }
    }

    /** The run commands of one step. */
    method Drive(o: WeldFsm.Out, il: Reg.Interlocks, now: u32) returns (fx: seq<Effect>)
      modifies arb
      ensures arb.State() == Driven(old(arb.State()), o, il, now)
      ensures fx == (if o.start then [Dac(o.amplitude)] else []) + (if o.ampChange then [Dac(o.amplitude)] else [])
    {
      fx := [];
      if o.start {
        fx := [Dac(o.amplitude)];
        arb.Command(Reg.Start, Reg.Cycle, il, now);
      }
      if o.ampChange {
        fx := fx + [Dac(o.amplitude)];
      }
      if o.stop {
        arb.Command(Reg.Release, Reg.Cycle, il, now);
      }
      if o.fault {
        arb.RaiseOvtime();
      }
    }

    /** The two-hand scan: a start is taken only in READY and only when the
        arbiter would accept it. */
    method ScanKeys(x: Scan) returns (p: WeldTrigger.Pulses)
      requires !startPending
      modifies this`startPending, trig
      ensures p == Pulses(old(Now()), x) && startPending == Begins(old(Now()), x)
      ensures trig.Now() == TrigAfter(old(Now()), x)
    {
      p := trig.Step(x.keys, cfg.model.safety, cycle.phase);
      var ok := arb.IsStartAllowed(x.il);
      if p.start && cycle.phase == WeldFsm.Ready && ok {
        startPending := true;
        trig.CycleStarted();
      }
    }

    /** What the step is given: the latched start, the abort sources, the
        settings and the energy of the run. */
    method Gather(x: Scan, p: WeldTrigger.Pulses, ghost m: Machine) returns (i: WeldFsm.In)
      requires p == Pulses(m, x) && startPending == Begins(m, x) && cfg == m.cfg && arb.State() == m.core
      ensures i == InputOf(m, x)
    {
      hide Pulses, Begins;
      var abort := x.il.estop || x.il.overload || arb.m.fault || p.safetyAbort;
      var c := cfg;
      i := WeldFsm.In(
        startPending, abort, p.dnEdge, p.upEdge,
        WeldFsm.Modes(c.model.runMode, c.energyCtrl, c.multiCtrl), TimesOf(c),
        WeldFsm.Levels(c.power, ClampPower(c.multi.out1), ClampPower(c.multi.out2)),
        arb.m.currEnergy, c.energy);
    }

    method Advance(x: Scan) returns (fx: seq<Effect>)
      requires !startPending
      modifies this, cycle, trig, arb
      ensures !startPending && (Now(), fx) == Stepped(old(Now()), x)
    {
      hide Driven, Reg.StartAllowed, WeldFsm.Step, EffectsOf, Pulses, Begins, TrigAfter, InputOf;
      ghost var m := Now();
      var p := ScanKeys(x);
      var i := Gather(x, p, m);
      startPending := false;
      var o := cycle.Advance(i);
      var valve := DriveValve(o.sol);
      var drive := Drive(o, x.il, x.now);
      fx := valve + drive;
      if o.done {
        cfg := cfg.(workCnt := (cfg.workCnt + 1) % WRAP);
        fx := fx + [SaveAll(cfg)];
      }
      EffectsInOrder(m, o);
    }

    /** app_weld_tick. */
    method Tick(x: Scan) returns (fx: seq<Effect>)
      requires !startPending
      modifies this, cycle, trig, arb
      ensures !startPending && (Now(), fx) == Ticked(old(Now()), x)
    {
      hide Stepped;
      if Elapsed(x.now, prev) < WELD_TICK_MS {
        return [];
      }
      prev := (prev + WELD_TICK_MS) % WRAP;
      if Elapsed(x.now, prev) > LAG_MAX_MS {
        prev := x.now;
      }
      if !x.runPage {
        return [];
      }
      if x.il.horn {
        return [];
      }
      fx := Advance(x);
    }

    /** app_weld_abort_now, called on the edge of an emergency stop. */
    method AbortAtOnce(il: Reg.Interlocks, now: u32) returns (fx: seq<Effect>)
      requires !startPending
      modifies this, cycle, arb
      ensures !startPending && (Now(), fx) == AbortedNow(old(Now()), ABORT_IN, il, now)
    {
      hide WeldFsm.Step;
      var o := cycle.Advance(ABORT_IN);
      fx := DriveValve(o.sol);
      if o.stop {
        arb.Command(Reg.Release, Reg.Cycle, il, now);
      }
    }
  }
}
