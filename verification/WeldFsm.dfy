/** The pneumatic press cycle: READY, CYL1 (down), WELD, HOLD, CYL2 (up), one
    step every 10 ms. */
module WeldFsm {
  import opened Words

  datatype Phase = Ready | Cyl1 | Weld | Hold | Cyl2

  const COMP_FULL: u16 := 7
  const TICKS_PER_SEC: nat := 100

  // --- What a step sees and says ---

  datatype Modes = Modes(runMode: byte, energyCtrl: bool, multiCtrl: bool)

  /** All in units of 10 ms but `outTime`, which is in seconds. */
  datatype Times = Times(delay1: u16, delay2: u16, delay3: u16, trigger2: u16, trigger3: u16, time1: u16, time2: u16,
    outTime: u16)

  datatype Levels = Levels(power: byte, out1: byte, out2: byte)

  datatype In = In(start: bool, abort: bool, dnEdge: bool, upEdge: bool, modes: Modes, t: Times, lv: Levels,
    energy: u32, limit: u32)

  datatype Out = Out(phase: Phase, sol: bool, start: bool, stop: bool, amplitude: byte, done: bool, fault: bool,
    ampChange: bool)

  const QUIET: Out := Out(Ready, false, false, false, 0, false, false, false)

  datatype State = State(
    phase: Phase, entered: bool, temp: u16, comp: u16, sol: bool,
    stage: nat, elapsed: u16, multi: bool, energy: bool, runMode: byte, dn: bool, up: bool)

  const BOOT: State := State(Ready, false, 0, COMP_FULL, false, 0, 0, false, false, 0, false, false)

  // --- Amplitude and time arithmetic, at the source's widths ---

  /** The amplitude of a full-length weld. */
  function BaseAmplitude(power: byte): u16 { (power - 50) % 0x1_0000 * 255 % WRAP / 100 % 0x1_0000 }

  /** weld_amplitude: 16-bit arithmetic, truncated to a byte at the end. */
  function Amplitude(power: byte, comp: u16): (a: byte) {
    var base := BaseAmplitude(power);
    var cut := (COMP_FULL - comp) * 10;
    Lo(if comp >= COMP_FULL then base else if base >= cut then base - cut else 0)
  }

  function MultiAmplitude(out: byte): (a: byte) {
    if out < 50 then 0 else Lo((out - 50) * 255 / 100)
  }

  /** weld_backstop_ticks: at least one second, truncated to 16 bits. */
  function Backstop(outTime: u16): (b: u16)
    ensures b <= 100 * (if outTime == 0 then 1 else outTime)
  {
    (if outTime == 0 then 1 else outTime) * TICKS_PER_SEC % 0x1_0000
  }

  /** In the clamped power range the amplitude is exact: 255/100 of the power
      above 50, so that it fits its byte and full power gives 127, less ten for
      each step a short weld lacks of seven, and never below zero. */
  lemma AmplitudeInRange(power: byte, comp: u16)
    requires 50 <= power <= 100
    ensures
      var full, cut := (power - 50) * 255 / 100, if comp < 7 then 10 * (7 - comp) else 0;
      Amplitude(power, comp) == (if full >= cut then full - cut else 0) <= full <= 127
    ensures MultiAmplitude(power) == (power - 50) * 255 / 100
  {
    hide BaseAmplitude, Lo;
    BaseInRange(power);
    SmallIsLow(BaseAmplitude(power));
    SmallIsLow(BaseAmplitude(power) - (COMP_FULL - comp) * 10);
  }

  /** Below 50 the second stage is silent; the power of a plain weld wraps
      around at 16 bits there, so that only the clamps keep it out. */
  lemma BelowFifty(power: byte, comp: u16)
    requires power < 50 && comp >= 7
    ensures MultiAmplitude(power) == 0
    ensures Amplitude(power, comp) == ((65486 + power) * 255 / 100 - 131072) % 0x100
  {
    BaseBelow(power);
    hide BaseAmplitude;
  }

  lemma BaseBelow(power: byte)
    requires power < 50
    ensures BaseAmplitude(power) == (65486 + power) * 255 / 100 - 131072
  {
    var p := 65486 + power;
    assert (power - 50) % 0x1_0000 == p;
    assert p * 255 % WRAP == p * 255;
    Above131072(p * 255 / 100);
  }

  lemma Above131072(q: nat)
    requires 131072 <= q < 196608
    ensures q % 0x1_0000 == q - 131072
  {
  }

  lemma SmallIsLow(v: int)
    ensures 0 <= v < 0x100 ==> Lo(v) == v
    ensures Lo(0) == 0
  {
  }

  lemma BaseInRange(power: byte)
    requires 50 <= power <= 100
    ensures BaseAmplitude(power) == (power - 50) * 255 / 100 <= 127
  {
    var p := power - 50;
    assert p % 0x1_0000 == p && p * 255 % WRAP == p * 255;
  }

  // --- One step ---

  function Aborted(s: State): (State, Out) {
    (s.(sol := false, phase := Ready, entered := false, temp := 0, stage := 0, elapsed := 0,
        multi := false, energy := false, runMode := 0, dn := false, up := false),
     QUIET.(stop := s.phase.Weld?))
  }

  /** Sensor edges are latched and the running timer counts down. */
  function Counted(s: State, i: In): State {
    s.(dn := s.dn || i.dnEdge, up := s.up || i.upEdge, temp := if s.temp > 0 then s.temp - 1 else 0)
  }

  function EnteredWeld(s: State, i: In, time: u16): State {
    s.(phase := Weld, entered := false, multi := i.modes.multiCtrl, energy := i.modes.energyCtrl, stage := 0,
      elapsed := 0,
       comp := if time > 6 then COMP_FULL else time,
       temp := if i.modes.energyCtrl then Backstop(i.t.outTime) else if time > 6 then time else COMP_FULL)
  }

  function HoldTime(s: State, i: In): u16 { if s.runMode != 0 then i.t.trigger3 else i.t.delay3 }

  function ToHold(s: State, i: In): State {
    s.(entered := false, phase := Hold, temp := HoldTime(s, i))
  }

  function ToReady(s: State): State {
    s.(entered := false, phase := Ready, multi := false, energy := false)
  }

  function ReadyStep(s: State, i: In): (State, Out) {
    (if i.start then s.(phase := Cyl1, runMode := i.modes.runMode, temp := i.t.delay1, entered := false, dn := false)
      else s, QUIET)
  }

  function Cyl1Step(s: State, i: In): (State, Out) {
    (if !s.entered then s.(entered := true, sol := true)
     else if s.runMode != 0 then (if s.dn then EnteredWeld(s.(dn := false), i, i.t.trigger2) else s)
     else if s.temp == 0 then EnteredWeld(s, i, i.t.delay2)
     else s,
     QUIET)
  }

  function WeldEntry(s: State, i: In): (State, Out) {
    if s.multi then (s.(entered := true, stage := 0, elapsed := 1),
      QUIET.(start := true, amplitude := MultiAmplitude(i.lv.out1)))
    else (s.(entered := true), QUIET.(start := true, amplitude := Amplitude(i.lv.power, s.comp)))
  }

  function MultiStep(s: State, i: In): (State, Out) {
    var s1 := s.(elapsed := if s.elapsed < 0xFFFF then s.elapsed + 1 else s.elapsed);
    var up := s1.stage == 0 && s1.elapsed >= i.t.time1;
    var s2 := if up then s1.(stage := 1) else s1;
    var o := if up then QUIET.(amplitude := MultiAmplitude(i.lv.out2), ampChange := true) else QUIET;
    if s2.elapsed >= i.t.time2 then (ToHold(s2, i), o.(stop := true)) else (s2, o)
  }

  predicate Reached(i: In) { i.limit != 0 && i.energy >= i.limit }

  function EnergyStep(s: State, i: In): (State, Out) {
    if Reached(i) then (ToHold(s, i), QUIET.(stop := true))
    else if s.temp == 0 then (ToReady(s).(sol := false), QUIET.(stop := true, fault := true))
    else (s, QUIET)
  }

  function WeldStep(s: State, i: In): (State, Out) {
    if !s.entered then WeldEntry(s, i)
    else if s.multi then MultiStep(s, i)
    else if s.energy then EnergyStep(s, i)
    else if s.temp == 0 then (ToHold(s, i), QUIET.(stop := true))
    else (s, QUIET)
  }

  function HoldStep(s: State, i: In): (State, Out) {
    (if !s.entered then s.(entered := true)
     else if s.temp == 0 then s.(entered := false, phase := Cyl2, temp := i.t.delay1, up := s.up || s.runMode != 0)
     else s,
     QUIET)
  }

  function Cyl2Step(s: State, i: In): (State, Out) {
    if !s.entered then (s.(entered := true, sol := false), QUIET)
    else if s.runMode != 0 then (if s.up then (ToReady(s.(up := false)), QUIET.(done := true)) else (s, QUIET))
    else if s.temp == 0 then (ToReady(s), QUIET.(done := true))
    else (s, QUIET)
  }

  function PhaseStep(s: State, i: In): (State, Out) {
    match s.phase
    case Ready => ReadyStep(s, i)
    case Cyl1 => Cyl1Step(s, i)
    case Weld => WeldStep(s, i)
    case Hold => HoldStep(s, i)
    case Cyl2 => Cyl2Step(s, i)
  }

  /** weld_fsm_step: the next state and the outputs, which end with the phase
      and the solenoid level reached. */
  function Step(s: State, i: In): (State, Out) {
    var (s1, o) := if i.abort && !s.phase.Ready? then Aborted(s) else PhaseStep(Counted(s, i), i);
    (s1, o.(phase := s1.phase, sol := s1.sol))
  }

  // --- Runs ---

  function After(s: State, ins: seq<In>): (s': State) {
    if ins == [] then s else Step(After(s, ins[..|ins| - 1]), ins[|ins| - 1]).0
  }

  /** The outputs of step `k` (counted from 1) of a run. */
  function OutAt(s: State, ins: seq<In>, k: nat): Out
    requires 0 < k <= |ins|
  {
    Step(After(s, ins[..k - 1]), ins[k - 1]).1
  }

  lemma AfterNext(s: State, ins: seq<In>, k: nat)
    requires k < |ins|
    ensures After(s, ins[..k + 1]) == Step(After(s, ins[..k]), ins[k]).0
    ensures OutAt(s, ins, k + 1) == Step(After(s, ins[..k]), ins[k]).1
  {
    assert ins[..k + 1][..k] == ins[..k];
  }

  // --- Actuators ---

  /** The ultrasonic level as the start and stop edges switch it. */
  function Level(us: bool, o: Out): bool { if o.start then true else if o.stop then false else us }

  function LevelAfter(s: State, ins: seq<In>, us: bool): bool {
    if ins == [] then us
    else Level(LevelAfter(s, ins[..|ins| - 1], us), OutAt(s, ins, |ins|))
  }

  /** Solenoid down exactly from the entry of CYL1 to the entry of CYL2;
      ultrasonics on exactly in WELD after its entry. */
  predicate Actuators(s: State, us: bool) {
    && s.sol == ((s.phase.Cyl1? && s.entered) || s.phase.Weld? || s.phase.Hold? || (s.phase.Cyl2? && !s.entered))
    && us == (s.phase.Weld? && s.entered)
  }

  /** A step keeps the actuators right; it starts the ultrasonics only when
      they are off. A stop comes with the ultrasonics off exactly by an abort
      in the one step between the armed weld and its entry. */
  lemma ActuatorStep(s: State, us: bool, i: In)
    requires Actuators(s, us)
    ensures var (s', o) := Step(s, i);
      && Actuators(s', Level(us, o))
      && (o.start ==> !us) && !(o.start && o.stop)
      && (o.stop && !us <==> i.abort && s.phase.Weld? && !s.entered)
      && o.sol == s'.sol && o.phase == s'.phase
      && (o.done ==> s.phase.Cyl2? && s'.phase.Ready?) && (o.fault ==> o.stop && !o.sol)
  {
    hide WeldStep, EnteredWeld;
    WeldActuators(Counted(s, i), us, i);
    EnteredWeldKeeps(Counted(s, i).(dn := false), i, i.t.trigger2);
    EnteredWeldKeeps(Counted(s, i), i, i.t.delay2);
  }

  lemma EnteredWeldKeeps(s: State, i: In, time: u16)
    ensures var s' := EnteredWeld(s, i, time); s'.phase.Weld? && !s'.entered && s'.sol == s.sol
  {
  }

  lemma WeldActuators(s: State, us: bool, i: In)
    requires Actuators(s, us)
    ensures s.phase.Weld? ==>
      var (s', o) := WeldStep(s, i);
      && Actuators(s', Level(us, o)) && (o.start ==> !us) && !(o.start && o.stop) && (o.stop ==> us)
      && !o.done && (o.fault ==> o.stop && s'.phase.Ready?)
  {
    hide Amplitude, MultiAmplitude;
  }

  /** An input without settings. */
  function Bare(start: bool, abort: bool): In {
    In(start, abort, false, false, Modes(0, false, false), Times(0, 0, 0, 0, 0, 0, 0, 0), Levels(50, 50, 50), 0, 0)
  }

  /** That does happen: a cycle aborted in its fourth step, the weld armed but
      not entered. */
  lemma StopWithoutStart()
    ensures
      var ins := [Bare(true, false), Bare(false, false), Bare(false, false), Bare(false, true)];
      && !LevelAfter(BOOT, ins[..3], false) && OutAt(BOOT, ins, 4).stop
      && forall k :: 1 <= k <= 4 ==> !OutAt(BOOT, ins, k).start
  {
    var ins := [Bare(true, false), Bare(false, false), Bare(false, false), Bare(false, true)];
    FourSteps();
    hide Step;
    assert ins[..0] == [];
    for k := 0 to 3
      invariant After(BOOT, ins[..k]) == Early(k) && !LevelAfter(BOOT, ins[..k], false)
      invariant forall j :: 1 <= j <= k ==> !OutAt(BOOT, ins, j).start
    {
      AfterNext(BOOT, ins, k);
      LevelNext(BOOT, ins, k);
    }
    AfterNext(BOOT, ins, 3);
  }

  /** The first states of a cycle without delays. */
  function Early(k: nat): State {
    var down := BOOT.(phase := Cyl1);
    if k == 0 then BOOT
    else if k == 1 then down
    else if k == 2 then down.(entered := true, sol := true)
    else down.(phase := Weld, sol := true, comp := 0, temp := COMP_FULL)
  }

  lemma FourSteps()
    ensures Step(Early(0), Bare(true, false)) == (Early(1), QUIET.(phase := Cyl1))
    ensures Step(Early(1), Bare(false, false)) == (Early(2), QUIET.(phase := Cyl1, sol := true))
    ensures Step(Early(2), Bare(false, false)) == (Early(3), QUIET.(phase := Weld, sol := true))
    ensures Step(Early(3), Bare(false, true)).1 == QUIET.(stop := true)
  {
  }

  lemma LevelNext(s: State, ins: seq<In>, k: nat)
    requires k < |ins|
    ensures LevelAfter(s, ins[..k + 1], false) == Level(LevelAfter(s, ins[..k], false), OutAt(s, ins, k + 1))
  {
    assert ins[..k + 1][..k] == ins[..k];
  }

  /** In every state reachable from power-on. */
  lemma {:induction false} ActuatorsEverywhere(ins: seq<In>)
    ensures var s, us := After(BOOT, ins), LevelAfter(BOOT, ins, false);
      Actuators(s, us) && (us ==> s.sol)
  {
    if ins != [] {
      var k := |ins| - 1;
      ActuatorsEverywhere(ins[..k]);
      ActuatorStep(After(BOOT, ins[..k]), LevelAfter(BOOT, ins[..k], false), ins[k]);
      hide Step;
    }
  }

  // --- The machine, stepped in place ---

  class Cycle {
    var phase: Phase
    var entered: bool
    var temp: u16
    var comp: u16
    var sol: bool
    var stage: nat
    var elapsed: u16
    var multi: bool
    var energy: bool
    var runMode: byte
    var dn: bool
    var up: bool

    ghost function Now(): State
      reads this
    {
      State(phase, entered, temp, comp, sol, stage, elapsed, multi, energy, runMode, dn, up)
    }

    constructor ()
      ensures Now() == BOOT
    {
      phase, entered, temp, comp, sol := Ready, false, 0, COMP_FULL, false;
      stage, elapsed, multi, energy, runMode := 0, 0, false, false, 0;
      dn, up := false, false;
    }

    method Abort() returns (o: Out)
      modifies this
      ensures (Now(), o) == Aborted(old(Now()))
    {
      o := QUIET;
      if phase == Weld {
        o := o.(stop := true);
      }
      sol := false;
      phase := Ready;
      entered := false;
      temp := 0;
      Forget();
    }

    /** Every latch of the cycle. */
    method Forget()
      modifies this
      ensures
        Now() == old(Now()).(
          stage := 0, elapsed := 0, multi := false, energy := false, runMode := 0, dn := false, up := false)
    {
      stage := 0;
      elapsed := 0;
      multi := false;
      energy := false;
      runMode := 0;
      dn := false;
      up := false;
    }

    /** CYL1 to WELD: the modes of the whole weld are latched here. */
    method EnterWeld(i: In, time: u16)
      modifies this
      ensures Now() == EnteredWeld(old(Now()), i, time)
    {
      entered := false;
      phase := Weld;
      multi := i.modes.multiCtrl;
      energy := i.modes.energyCtrl;
      stage := 0;
      elapsed := 0;
      ArmTimer(i, time);
    }

    /** The amplitude counter, and the weld's timer in the mode just latched. */
    method ArmTimer(i: In, time: u16)
      modifies this`comp, this`temp
      ensures comp == if time > 6 then COMP_FULL else time
      ensures temp == if energy then Backstop(i.t.outTime) else if time > 6 then time else COMP_FULL
    {
      comp := if time > 6 then COMP_FULL else time;
      if energy {
        temp := Backstop(i.t.outTime);
      } else {
        temp := if time > 6 then time else COMP_FULL;
      }
    }

    method EnterHold(i: In)
      modifies this
      ensures Now() == ToHold(old(Now()), i)
    {
      entered := false;
      phase := Hold;
      temp := if runMode != 0 then i.t.trigger3 else i.t.delay3;
    }

    method StepCyl1(i: In)
      modifies this
      ensures (Now(), QUIET) == Cyl1Step(old(Now()), i)
    {
      if !entered {
        entered := true;
        sol := true;
      } else if runMode != 0 {
        if dn {
          dn := false;
          EnterWeld(i, i.t.trigger2);
        }
      } else if temp == 0 {
        EnterWeld(i, i.t.delay2);
      }
    }

    method StepMulti(i: In) returns (o: Out)
      modifies this
      ensures (Now(), o) == MultiStep(old(Now()), i)
    {
      o := QUIET;
      if elapsed < 0xFFFF {
        elapsed := elapsed + 1;
      }
      if stage == 0 && elapsed >= i.t.time1 {
        stage := 1;
        o := o.(amplitude := MultiAmplitude(i.lv.out2), ampChange := true);
      }
      if elapsed >= i.t.time2 {
        o := o.(stop := true);
        EnterHold(i);
      }
    }

    /** First step: amplitude and start. Then the exits, two-stage before
        energy before time. */
    method StepWeld(i: In) returns (o: Out)
      modifies this
      ensures (Now(), o) == WeldStep(old(Now()), i)
    {
      o := QUIET;
      if !entered {
        entered := true;
        if multi {
          stage := 0;
          elapsed := 1;
          o := o.(amplitude := MultiAmplitude(i.lv.out1));
        } else {
          o := o.(amplitude := Amplitude(i.lv.power, comp));
        }
        o := o.(start := true);
      } else if multi {
        o := StepMulti(i);
      } else if energy {
        if i.limit != 0 && i.energy >= i.limit {
          o := o.(stop := true);
          EnterHold(i);
        } else if temp == 0 {
          o := o.(stop := true, fault := true);
          sol := false;
          entered := false;
          phase := Ready;
          multi := false;
          energy := false;
        }
      } else if temp == 0 {
        o := o.(stop := true);
        EnterHold(i);
      }
    }

    method StepHold(i: In)
      modifies this
      ensures (Now(), QUIET) == HoldStep(old(Now()), i)
    {
      if !entered {
        entered := true;
      } else if temp == 0 {
        entered := false;
        phase := Cyl2;
        temp := i.t.delay1;
        if runMode != 0 {
          up := true;
        }
      }
    }

    method StepCyl2(i: In) returns (o: Out)
      modifies this
      ensures (Now(), o) == Cyl2Step(old(Now()), i)
    {
      o := QUIET;
      if !entered {
        entered := true;
        sol := false;
      } else if runMode != 0 {
        if up {
          up := false;
          entered := false;
          phase := Ready;
          o := o.(done := true);
          multi := false;
          energy := false;
        }
      } else if temp == 0 {
        entered := false;
        phase := Ready;
        o := o.(done := true);
        multi := false;
        energy := false;
      }
    }

    method StepReady(i: In)
      modifies this
      ensures (Now(), QUIET) == ReadyStep(old(Now()), i)
    {
      if i.start {
        phase := Cyl1;
        runMode := i.modes.runMode;
        temp := i.t.delay1;
        entered := false;
        dn := false;
      }
    }

    method Count(i: In)
      modifies this
      ensures Now() == Counted(old(Now()), i)
    {
      if i.dnEdge {
        dn := true;
      }
      if i.upEdge {
        up := true;
      }
      if temp > 0 {
        temp := temp - 1;
      }
    }

    method StepPhase(i: In) returns (o: Out)
      modifies this
      ensures (Now(), o) == PhaseStep(old(Now()), i)
    {
      hide ReadyStep, Cyl1Step, WeldStep, HoldStep, Cyl2Step;
      o := QUIET;
      match phase {
        case Ready => StepReady(i);
        case Cyl1 => StepCyl1(i);
        case Weld => o := StepWeld(i);
        case Hold => StepHold(i);
        case Cyl2 => o := StepCyl2(i);
      }
    }

    /** weld_fsm_step: one 10 ms tick. */
    method Advance(i: In) returns (o: Out)
      modifies this
      ensures (Now(), o) == Step(old(Now()), i)
    {
      hide PhaseStep, Aborted, Counted;
      if i.abort && phase != Ready {
        o := Abort();
      } else {
        Count(i);
        o := StepPhase(i);
      }
      o := o.(phase := phase, sol := sol);
    }
  }
}
