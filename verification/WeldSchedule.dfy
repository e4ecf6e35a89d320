/** How long each stage of the press cycle lasts, and what cannot change it. */
module WeldSchedule {
  import opened Words
  import opened WeldFsm

  function AtLeast(n: nat, min: nat): (r: nat) { if n > min then n else min }

  // --- The DELAY cycle, step by step ---

  /** Steps spent in CYL1, WELD, HOLD and CYL2. */
  datatype Dwell = Dwell(down: nat, weld: nat, hold: nat, up: nat) {
    /** Steps from the one that takes the start (counted) to READY again. */
    function Total(): nat { 1 + down + weld + hold + up }
  }

  function DwellOf(t: Times): (d: Dwell)
    ensures d.down >= 2 && d.weld >= 7 && d.hold >= 2 && d.up >= 2
  {
    Dwell(AtLeast(t.delay1, 2), AtLeast(t.delay2, 7), AtLeast(t.delay3, 2), AtLeast(t.delay1, 2))
  }

  function Left(time: nat, passed: nat): nat { if time > passed then time - passed else 0 }

  /** Where the cycle stands after `k` steps: the phase, how many steps it has
      been in it, and the timer. */
  datatype Place = Place(phase: Phase, since: nat, temp: nat)

  function PlaceAt(t: Times, k: nat): Place
    requires k <= DwellOf(t).Total()
  {
    var d := DwellOf(t);
    if k == 0 || k == d.Total() then Place(Ready, 0, 0)
    else if k < 1 + d.down then Place(Cyl1, k - 1, Left(t.delay1, k - 1))
    else if k < 1 + d.down + d.weld then var j := k - 1 - d.down; Place(Weld, j, Left(d.weld, j))
    else if k < 1 + d.down + d.weld + d.hold then var j := k - 1 - d.down - d.weld; Place(Hold, j, Left(t.delay3, j))
    else var j := k - 1 - d.down - d.weld - d.hold; Place(Cyl2, j, Left(t.delay1, j))
  }

  /** Another step of the phase, or the next one from its start. */
  function Onward(p: Place, time: nat, dwell: nat, next: Place): Place {
    if p.since + 1 == dwell then next else Place(p.phase, p.since + 1, Left(time, p.since + 1))
  }

  lemma PlaceNext(t: Times, k: nat)
    requires k < DwellOf(t).Total()
    ensures var p, q, d := PlaceAt(t, k), PlaceAt(t, k + 1), DwellOf(t);
      match p.phase
      case Ready => k == 0 && q == Place(Cyl1, 0, t.delay1)
      case Cyl1 =>
        p.since == k - 1 < d.down && p.temp == Left(t.delay1, p.since)
        && q == Onward(p, t.delay1, d.down, Place(Weld, 0, d.weld))
      case Weld =>
        p.since == k - 1 - d.down < d.weld && p.temp == Left(d.weld, p.since)
        && q == Onward(p, d.weld, d.weld, Place(Hold, 0, t.delay3))
      case Hold =>
        p.since == k - 1 - d.down - d.weld < d.hold && p.temp == Left(t.delay3, p.since)
        && q == Onward(p, t.delay3, d.hold, Place(Cyl2, 0, t.delay1))
      case Cyl2 =>
        p.since == k - 1 - d.down - d.weld - d.hold < d.up && p.temp == Left(t.delay1, p.since)
        && q == Onward(p, t.delay1, d.up, Place(Ready, 0, 0))
  {
  }

  predicate At(s: State, p: Place) {
    && s.phase == p.phase
    && (!p.phase.Ready? ==>
      s.entered == (p.since > 0) && s.temp == p.temp && s.runMode == 0 && (p.phase.Weld? ==> !s.multi && !s.energy))
  }

  /** The step that moves the cycle on from step `k`: it sees the cycle's times
      and no abort; the start and DELAY mode are looked at in the first step
      only, time control only in the step out of CYL1. The rest is free. */
  predicate Delayed(i: In, t: Times, k: nat) {
    && i.t == t && !i.abort
    && (k == 0 ==> i.start && i.modes.runMode == 0)
    && (k == DwellOf(t).down ==> !i.modes.energyCtrl && !i.modes.multiCtrl)
  }

  /** The edges of step `k`, counted from 1. */
  predicate EdgesAt(o: Out, t: Times, k: nat) {
    var d := DwellOf(t);
    && (o.start <==> k == 1 + d.down + 1)
    && (o.stop <==> k == 1 + d.down + d.weld)
    && (o.done <==> k == d.Total())
    && !o.fault && !o.ampChange
  }

  /** A phase that has lasted `j` steps, with `time` to run. */
  predicate Standing(s: State, p: Phase, time: nat, j: nat) {
    s.phase == p && s.entered == (j > 0) && s.temp == Left(time, j)
  }

  lemma DownStep(s: State, i: In, j: nat)
    requires Standing(s, Cyl1, i.t.delay1, j) && j < AtLeast(i.t.delay1, 2) && !i.abort && s.runMode == 0
    ensures var (s', o) := Step(s, i); var last := j + 1 == AtLeast(i.t.delay1, 2);
      && o == QUIET.(phase := s'.phase, sol := s'.sol) && s'.runMode == 0
      && (!last ==> Standing(s', Cyl1, i.t.delay1, j + 1))
      && (last && !i.modes.energyCtrl && !i.modes.multiCtrl ==>
        Standing(s', Weld, AtLeast(i.t.delay2, 7), 0) && !s'.multi && !s'.energy)
  {
  }

  lemma TimedWeldStep(s: State, i: In, time: nat, j: nat)
    requires Standing(s, Weld, time, j) && 7 <= time && j < time && !s.multi && !s.energy && !i.abort
    ensures var (s', o) := Step(s, i); var last := j + 1 == time;
      && (o.start <==> j == 0) && (o.stop <==> last) && !o.done && !o.fault && !o.ampChange
      && s'.runMode == s.runMode
      && (last ==> Standing(s', Hold, HoldTime(s, i), 0))
      && (!last ==> Standing(s', Weld, time, j + 1) && !s'.multi && !s'.energy)
  {
    hide Amplitude;
  }

  lemma HoldDownStep(s: State, i: In, time: nat, j: nat)
    requires Standing(s, Hold, time, j) && j < AtLeast(time, 2) && !i.abort
    ensures var (s', o) := Step(s, i); var last := j + 1 == AtLeast(time, 2);
      && o == QUIET.(phase := s'.phase, sol := s'.sol)
      && s'.runMode == s.runMode && (last && s.runMode != 0 ==> s'.up)
      && (if last then Standing(s', Cyl2, i.t.delay1, 0) else Standing(s', Hold, time, j + 1))
  {
  }

  lemma UpStep(s: State, i: In, time: nat, j: nat)
    requires Standing(s, Cyl2, time, j) && j < AtLeast(time, 2) && !i.abort && s.runMode == 0
    ensures var (s', o) := Step(s, i); var last := j + 1 == AtLeast(time, 2);
      && o == QUIET.(phase := s'.phase, sol := s'.sol, done := last) && s'.runMode == 0
      && (if last then s'.phase.Ready? else Standing(s', Cyl2, time, j + 1))
  {
  }

  lemma ScheduleStep(s: State, i: In, t: Times, k: nat)
    requires k < DwellOf(t).Total() && At(s, PlaceAt(t, k)) && Delayed(i, t, k)
    ensures var (s', o) := Step(s, i); At(s', PlaceAt(t, k + 1)) && EdgesAt(o, t, k + 1)
  {
    var p := PlaceAt(t, k);
    PlaceNext(t, k);
    hide PlaceAt, AtLeast, Left;
    match p.phase {
      case Ready =>
        assert k == 0;
      case Cyl1 =>
        DownStep(s, i, p.since);
        hide Step;
      case Weld =>
        TimedWeldStep(s, i, DwellOf(t).weld, p.since);
        hide Step;
      case Hold =>
        HoldDownStep(s, i, t.delay3, p.since);
        hide Step;
      case Cyl2 =>
        UpStep(s, i, t.delay1, p.since);
        hide Step;
    }
  }

  /** From the step that takes the start the cycle is back in READY after
      exactly 1 + max(T1,2) + max(T2,7) + max(T3,2) + max(T1,2) steps, with one
      weld start, one weld stop and one cycle done, each at its own step. */
  lemma {:induction false} DelaySchedule(s: State, ins: seq<In>, t: Times, k: nat)
    requires s.phase.Ready? && |ins| <= DwellOf(t).Total()
    requires forall j :: 0 <= j < |ins| ==> Delayed(ins[j], t, j)
    requires k <= |ins|
    ensures At(After(s, ins[..k]), PlaceAt(t, k))
    ensures k > 0 ==> EdgesAt(OutAt(s, ins, k), t, k)
    decreases k
  {
    ReadyIsStart(s, t);
    hide PlaceAt, EdgesAt, At, Delayed, DwellOf, OutAt;
    if k == 0 {
      assert ins[..0] == [];
    } else {
      DelaySchedule(s, ins, t, k - 1);
      assert Delayed(ins[k - 1], t, k - 1);
      OnSchedule(s, ins, t, k - 1);
    }
  }

  lemma OnSchedule(s: State, ins: seq<In>, t: Times, k: nat)
    requires k < |ins| && k < DwellOf(t).Total() && At(After(s, ins[..k]), PlaceAt(t, k)) && Delayed(ins[k], t, k)
    ensures At(After(s, ins[..k + 1]), PlaceAt(t, k + 1)) && EdgesAt(OutAt(s, ins, k + 1), t, k + 1)
  {
    hide PlaceAt, EdgesAt, At, Delayed, DwellOf, OutAt, After, Step;
    AfterNext(s, ins, k);
    ScheduleStep(After(s, ins[..k]), ins[k], t, k);
  }

  lemma ReadyIsStart(s: State, t: Times)
    requires s.phase.Ready?
    ensures At(s, PlaceAt(t, 0))
  {
  }

  // --- The TRIGGER cycle ---

  predicate Armed(s: State) { s.phase.Weld? && !s.entered }

  /** In TRIGGER mode the cylinder waits as long as it takes: the step that
      ends CYL1 is exactly the first one after its entry by which the lower
      sensor has been reached. */
  lemma TriggerWaits(s: State, i: In)
    requires s.phase.Cyl1? && s.entered && s.runMode != 0 && !i.abort
    ensures var s' := Step(s, i).0;
      && (s'.phase.Weld? <==> s.dn || i.dnEdge)
      && (!s'.phase.Weld? ==> s' == s.(up := s.up || i.upEdge, temp := if s.temp > 0 then s.temp - 1 else 0))
  {
  }

  /** Some step after the first saw the lower sensor's edge. */
  predicate Sensed(ins: seq<In>, k: nat)
    requires k <= |ins|
  {
    exists j :: 1 <= j < k && ins[j].dnEdge
  }

  /** Waiting for the lower sensor: in CYL1, entered from the second step on,
      the latch telling what the sensor did since the start. */
  predicate Waiting(s: State, ins: seq<In>, k: nat)
    requires k <= |ins|
  {
    s.phase.Cyl1? && s.entered == (k >= 2) && s.runMode != 0 && (s.dn <==> Sensed(ins, k))
  }

  lemma SensedOneMore(ins: seq<In>, k: nat)
    requires 1 <= k < |ins|
    ensures Sensed(ins, k + 1) <==> Sensed(ins, k) || ins[k].dnEdge
  {
    if ins[k].dnEdge {
      assert 1 <= k < k + 1 && ins[k].dnEdge;
    }
  }

  lemma WaitStep(s: State, i: In)
    requires s.phase.Cyl1? && s.runMode != 0 && !i.abort
    ensures var s' := Step(s, i).0;
      if s.entered && (s.dn || i.dnEdge) then s'.phase.Weld?
      else s'.phase.Cyl1? && s'.entered && s'.runMode == s.runMode && s'.dn == (s.dn || i.dnEdge)
  {
  }

  lemma TriggerStart(s: State, i: In)
    requires s.phase.Ready? && i.start && i.modes.runMode != 0
    ensures var s' := Step(s, i).0; s'.phase.Cyl1? && !s'.entered && s'.runMode == i.modes.runMode && !s'.dn
  {
  }

  /** From READY, whatever a former cycle left behind: a TRIGGER cycle is in
      CYL1 until the first step after CYL1's entry by which some step after
      the start has seen the lower sensor's edge, and that step enters WELD.
      Edges up to the start count for nothing. */
  lemma {:induction false} TriggerFromStart(s: State, ins: seq<In>, k: nat)
    requires s.phase.Ready? && 0 < k <= |ins| && ins[0].start && ins[0].modes.runMode != 0
    requires forall j :: 1 <= j < |ins| ==> !ins[j].abort
    requires k <= 3 || !Sensed(ins, k - 1)
    ensures
      var s' := After(s, ins[..k]);
      && (s'.phase.Weld? <==> k >= 3 && Sensed(ins, k))
      && (!s'.phase.Weld? ==> Waiting(s', ins, k))
    decreases k
  {
    hide Step, After;
    AfterNext(s, ins, k - 1);
    if k == 1 {
      Beginning(s, ins);
      TriggerStart(s, ins[0]);
    } else {
      TriggerFromStart(s, ins, k - 1);
      SensedOneMore(ins, k - 1);
      assert !ins[k - 1].abort;
      WaitStep(After(s, ins[..k - 1]), ins[k - 1]);
    }
  }

  lemma Beginning(s: State, ins: seq<In>)
    requires |ins| > 0
    ensures After(s, ins[..0]) == s
  {
  }

  /** What remains from there: WELD, HOLD, and two steps of CYL2. */
  function TailOf(t: Times): (d: Dwell)
    ensures d.weld >= 7 && d.hold >= 2
  {
    Dwell(0, AtLeast(t.trigger2, 7), AtLeast(t.trigger3, 2), 2)
  }

  predicate TailAt(s: State, t: Times, k: nat) {
    var d := TailOf(t);
    if k < d.weld then Standing(s, Weld, d.weld, k) && s.runMode != 0 && !s.multi && !s.energy
    else if k < d.weld + d.hold then Standing(s, Hold, t.trigger3, k - d.weld) && s.runMode != 0
    else if k < d.weld + d.hold + 2 then s.phase.Cyl2? && s.entered == (k > d.weld + d.hold) && s.up && s.runMode != 0
    else s.phase.Ready?
  }

  /** The edges of step `k` of the tail, counted from 1. */
  predicate TailEdges(o: Out, t: Times, k: nat) {
    var d := TailOf(t);
    && (o.start <==> k == 1)
    && (o.stop <==> k == d.weld)
    && (o.done <==> k == d.weld + d.hold + 2)
    && !o.fault && !o.ampChange
  }

  lemma TailStep(s: State, i: In, t: Times, k: nat)
    requires k < TailOf(t).weld + TailOf(t).hold + 2 && TailAt(s, t, k) && i.t == t && !i.abort
    ensures var (s', o) := Step(s, i); var d := TailOf(t);
      && TailAt(s', t, k + 1)
      && TailEdges(o, t, k + 1)
  {
    var d := TailOf(t);
    if k < d.weld {
      TimedWeldStep(s, i, d.weld, k);
      hide Step, AtLeast, Left;
    } else if k < d.weld + d.hold {
      HoldDownStep(s, i, t.trigger3, k - d.weld);
      hide Step, Left;
    } else {
      RaisedStep(s, i);
      hide Step, Left;
    }
  }

  lemma RaisedStep(s: State, i: In)
    requires s.phase.Cyl2? && s.runMode != 0 && s.up && !i.abort
    ensures var (s', o) := Step(s, i);
      && o == QUIET.(phase := s'.phase, sol := s'.sol, done := s.entered)
      && (if s.entered then s'.phase.Ready? else s'.phase.Cyl2? && s'.entered && s'.up && s'.runMode == s.runMode)
  {
  }

  /** From the armed weld a timed TRIGGER cycle is back in READY after exactly
      max(T2,7) + max(T3,2) + 2 steps, whatever the upper sensor says. */
  lemma {:induction false} TriggerSchedule(s: State, ins: seq<In>, t: Times, k: nat)
    requires Armed(s) && s.runMode != 0 && !s.multi && !s.energy && s.temp == TailOf(t).weld
    requires |ins| <= TailOf(t).weld + TailOf(t).hold + 2 && forall j :: 0 <= j < |ins| ==>
      ins[j].t == t && !ins[j].abort
    requires k <= |ins|
    ensures TailAt(After(s, ins[..k]), t, k)
    ensures k > 0 ==> TailEdges(OutAt(s, ins, k), t, k)
    decreases k
  {
    TailBegins(s, t);
    hide TailAt, TailEdges, Step;
    if k == 0 {
      assert ins[..0] == [];
    } else {
      TriggerSchedule(s, ins, t, k - 1);
      AfterNext(s, ins, k - 1);
      assert ins[k - 1].t == t && !ins[k - 1].abort;
      TailStep(After(s, ins[..k - 1]), ins[k - 1], t, k - 1);
    }
  }

  lemma TailBegins(s: State, t: Times)
    requires Armed(s) && s.runMode != 0 && !s.multi && !s.energy && s.temp == TailOf(t).weld
    ensures TailAt(s, t, 0)
  {
  }

  // --- The two-stage weld ---

  lemma TwoStageStep(s: State, i: In, j: nat)
    requires s.phase.Weld? && s.multi && !i.abort && s.entered == (j > 0) && j < AtLeast(i.t.time2, 2)
    requires j > 0 ==> s.elapsed == j
    requires s.stage == 0 <==> j < AtLeast(i.t.time1, 2)
    ensures var (s', o) := Step(s, i);
      && (j + 1 < AtLeast(i.t.time2, 2) ==>
            (s'.phase.Weld? && s'.entered && s'.multi && s'.elapsed == j + 1
              && (s'.stage == 0 <==> j + 1 < AtLeast(i.t.time1, 2))))
      && (j + 1 == AtLeast(i.t.time2, 2) ==> s'.phase.Hold?)
      && (o.start <==> j == 0) && (o.stop <==> j + 1 == AtLeast(i.t.time2, 2)) && !o.fault
      && (o.ampChange <==> j + 1 == AtLeast(i.t.time1, 2))
      && (o.ampChange ==> o.amplitude == MultiAmplitude(i.lv.out2))
  {
    hide Amplitude, MultiAmplitude;
  }

  /** With both stage times constant the two-stage weld lasts exactly
      max(time2, 2) steps, and changes to the second amplitude exactly at step
      max(time1, 2) when that is not later. */
  lemma {:induction false} TwoStageWeld(s: State, ins: seq<In>, t: Times, k: nat)
    requires Armed(s) && s.multi && s.stage == 0
    requires forall j :: 0 <= j < |ins| ==> !ins[j].abort && ins[j].t == t
    requires 0 < k <= |ins| && k <= AtLeast(t.time2, 2)
    ensures var s', o := After(s, ins[..k]), OutAt(s, ins, k);
      && (k < AtLeast(t.time2, 2) ==>
        s'.phase.Weld? && s'.entered && s'.multi && s'.elapsed == k && (s'.stage == 0 <==> k < AtLeast(t.time1, 2)))
      && (k == AtLeast(t.time2, 2) ==> s'.phase.Hold?)
      && (o.start <==> k == 1) && (o.stop <==> k == AtLeast(t.time2, 2)) && !o.fault
      && (o.ampChange <==> k == AtLeast(t.time1, 2))
      && (o.ampChange ==> o.amplitude == MultiAmplitude(ins[k - 1].lv.out2))
    decreases k
  {
    hide Step, AtLeast;
    LeastTwo(t);
    AfterNext(s, ins, k - 1);
    if k > 1 {
      TwoStageWeld(s, ins, t, k - 1);
    } else {
      assert After(s, ins[..0]) == s;
    }
    assert !ins[k - 1].abort && ins[k - 1].t == t;
    TwoStageStep(After(s, ins[..k - 1]), ins[k - 1], k - 1);
  }

  lemma LeastTwo(t: Times)
    ensures AtLeast(t.time1, 2) >= 2 && AtLeast(t.time2, 2) >= 2
  {
  }

  // --- The energy weld ---

  /** How long an energy weld may last: the backstop in steps, at least 2. */
  function LongestEnergyWeld(outTime: u16): (n: nat)
    ensures n <= 100 * AtLeast(outTime, 1)
  {
    AtLeast(Backstop(outTime), 2)
  }

  /** The energy weld goes on, with so much of its backstop left. */
  predicate GoesOn(s: State, o: Out, left: nat) {
    s.phase.Weld? && s.entered && s.energy && !s.multi && s.temp == left && !o.stop && !o.fault
  }

  lemma EnergyWeldStep(s: State, i: In, time: nat, j: nat)
    requires s.phase.Weld? && s.entered == (j > 0) && s.energy && !s.multi && s.temp == Left(time, j) && !i.abort
    ensures var (s', o) := Step(s, i);
      && (o.start <==> j == 0)
      && (if j > 0 && Reached(i) then s'.phase.Hold? && o.stop && !o.fault
          else if j > 0 && time <= j + 1 then s'.phase.Ready? && o.stop && o.fault && !o.sol
          else GoesOn(s', o, Left(time, j + 1)))
  {
    hide Amplitude;
  }

  /** The energy weld ends at the first step after its entry that sees the
      energy reached, normally, or else at its last step, with a fault and the
      cylinder raised; never later. */
  lemma {:induction false} EnergyWeld(s: State, ins: seq<In>, outTime: u16, k: nat)
    requires Armed(s) && s.energy && !s.multi && s.temp == Backstop(outTime)
    requires 0 < k <= |ins| && k <= LongestEnergyWeld(outTime)
    requires forall j :: 0 <= j < |ins| ==> !ins[j].abort
    requires forall j :: 1 <= j < k - 1 ==> !Reached(ins[j])
    ensures var s', o := After(s, ins[..k]), OutAt(s, ins, k);
      && (o.start <==> k == 1)
      && (if k > 1 && Reached(ins[k - 1]) then s'.phase.Hold? && o.stop && !o.fault
          else if k == LongestEnergyWeld(outTime) then s'.phase.Ready? && o.stop && o.fault && !o.sol
          else GoesOn(s', o, Left(Backstop(outTime), k)))
    decreases k
  {
    hide Step, Backstop;
    AfterNext(s, ins, k - 1);
    if k > 1 {
      EnergyWeld(s, ins, outTime, k - 1);
    } else {
      assert After(s, ins[..0]) == s;
    }
    EnergyWeldStep(After(s, ins[..k - 1]), ins[k - 1], Backstop(outTime), k - 1);
  }

  /** What arms it: the step out of CYL1, in either mode. */
  lemma WeldIsArmed(s: State, i: In)
    requires s.phase.Cyl1? && Step(s, i).0.phase.Weld?
    ensures var s' := Step(s, i).0;
      && Armed(s') && s'.multi == i.modes.multiCtrl && s'.energy == i.modes.energyCtrl && s'.stage == 0
      && s'.runMode == s.runMode
      && s'.comp == (var time := if s.runMode != 0 then i.t.trigger2 else i.t.delay2; if time > 7 then 7 else time)
      && (s'.energy ==> s'.temp == Backstop(i.t.outTime))
      && (!s'.energy ==> s'.temp == AtLeast(if s.runMode != 0 then i.t.trigger2 else i.t.delay2, 7))
  {
  }

  /** What its entry puts out. */
  lemma EntryAmplitude(s: State, i: In)
    requires Armed(s) && !i.abort
    ensures
      var (s', o) := Step(s, i);
      && s'.phase.Weld? && s'.entered && o.start && !o.stop && !o.ampChange && !o.done && !o.fault && o.sol == s.sol
      && o.amplitude == if s.multi then MultiAmplitude(i.lv.out1) else Amplitude(i.lv.power, s.comp)
  {
    hide Amplitude, MultiAmplitude;
  }

  // --- Aborts, and no memory between cycles ---

  /** An abort outside READY raises the cylinder, stops the ultrasonics if the
      weld was on, and is in READY at once; in READY it does nothing. */
  lemma AbortMeans(s: State, i: In)
    requires i.abort
    ensures
      var (s', o) := Step(s, i);
      if s.phase.Ready? then (s', o) == Step(s, i.(abort := false))
      else s'.phase.Ready? && !s'.sol && o == QUIET.(stop := s.phase.Weld?)
  {
    hide PhaseStep;
    if s.phase.Ready? {
      SameButAbort(s, i);
    }
  }

  lemma SameButAbort(s: State, i: In)
    requires s.phase.Ready?
    ensures Step(s, i) == Step(s, i.(abort := false))
  {
  }

  /** The two states agree on whatever their phase still looks at. */
  predicate Alike(s: State, t: State) {
    && s.phase == t.phase && s.sol == t.sol
    && (!s.phase.Ready? ==> s.entered == t.entered && s.temp == t.temp && s.runMode == t.runMode)
    && (s.phase.Cyl1? ==> s.dn == t.dn)
    && (s.phase.Weld? ==>
      s.comp == t.comp && s.multi == t.multi && s.energy == t.energy && s.stage == t.stage && s.elapsed == t.elapsed)
    && (s.phase.Cyl2? && s.runMode != 0 ==> s.up && t.up)
  }

  lemma AlikeStep(s: State, t: State, i: In)
    requires Alike(s, t)
    ensures Alike(Step(s, i).0, Step(t, i).0) && Step(s, i).1 == Step(t, i).1
  {
    hide Amplitude, MultiAmplitude, Backstop;
    if i.abort && !s.phase.Ready? {
      hide PhaseStep;
    } else {
      AlikePhase(Counted(s, i), Counted(t, i), i);
      hide PhaseStep;
    }
  }

  lemma AlikePhase(s: State, t: State, i: In)
    requires Alike(s, t)
    ensures Alike(PhaseStep(s, i).0, PhaseStep(t, i).0) && PhaseStep(s, i).1 == PhaseStep(t, i).1
  {
    hide WeldStep, Cyl1Step, HoldStep, Cyl2Step, ReadyStep;
    match s.phase {
      case Ready => AlikeReady(s, t, i);
      case Cyl1 => AlikeCyl1(s, t, i);
      case Weld => AlikeWeld(s, t, i);
      case Hold => AlikeHold(s, t, i);
      case Cyl2 => AlikeCyl2(s, t, i);
    }
  }

  lemma AlikeReady(s: State, t: State, i: In)
    requires Alike(s, t) && s.phase.Ready?
    ensures Alike(ReadyStep(s, i).0, ReadyStep(t, i).0) && ReadyStep(s, i).1 == ReadyStep(t, i).1
  {
  }

  lemma AlikeCyl1(s: State, t: State, i: In)
    requires Alike(s, t) && s.phase.Cyl1?
    ensures Alike(Cyl1Step(s, i).0, Cyl1Step(t, i).0) && Cyl1Step(s, i).1 == Cyl1Step(t, i).1
  {
    hide Backstop;
  }

  lemma AlikeHold(s: State, t: State, i: In)
    requires Alike(s, t) && s.phase.Hold?
    ensures Alike(HoldStep(s, i).0, HoldStep(t, i).0) && HoldStep(s, i).1 == HoldStep(t, i).1
  {
  }

  lemma AlikeCyl2(s: State, t: State, i: In)
    requires Alike(s, t) && s.phase.Cyl2?
    ensures Alike(Cyl2Step(s, i).0, Cyl2Step(t, i).0) && Cyl2Step(s, i).1 == Cyl2Step(t, i).1
  {
  }

  lemma AlikeWeld(s: State, t: State, i: In)
    requires Alike(s, t) && s.phase.Weld?
    ensures Alike(WeldStep(s, i).0, WeldStep(t, i).0) && WeldStep(s, i).1 == WeldStep(t, i).1
  {
    hide WeldEntry, MultiStep, EnergyStep;
    AlikeEntry(s, t, i);
    AlikeMulti(s, t, i);
    AlikeEnergy(s, t, i);
  }

  lemma AlikeEntry(s: State, t: State, i: In)
    requires Alike(s, t) && s.phase.Weld?
    ensures Alike(WeldEntry(s, i).0, WeldEntry(t, i).0) && WeldEntry(s, i).1 == WeldEntry(t, i).1
  {
    hide Amplitude, MultiAmplitude;
  }

  /** The state in which a two-stage step decides whether to stop. */
  function Staged(s: State, i: In): (s': State) {
    var n := if s.elapsed < 0xFFFF then s.elapsed + 1 else s.elapsed;
    s.(elapsed := n, stage := if s.stage == 0 && n >= i.t.time1 then 1 else s.stage)
  }

  lemma MultiByStage(s: State, i: In)
    ensures
      var s2, up := Staged(s, i), Staged(s, i).stage != s.stage;
      var stop := s2.elapsed >= i.t.time2;
      && MultiStep(s, i).0 == (if stop then ToHold(s2, i) else s2)
      && MultiStep(s, i).1 ==
        QUIET.(amplitude := if up then MultiAmplitude(i.lv.out2) else 0, ampChange := up, stop := stop)
  {
    hide MultiAmplitude;
  }

  lemma AlikeStaged(s: State, t: State, i: In)
    requires Alike(s, t) && s.phase.Weld?
    ensures
      var s2, t2 := Staged(s, i), Staged(t, i);
      && Alike(s2, t2) && s2.phase.Weld? && s2.elapsed == t2.elapsed
      && (s2.stage != s.stage <==> t2.stage != t.stage)
  {
  }

  lemma AlikeMulti(s: State, t: State, i: In)
    requires Alike(s, t) && s.phase.Weld?
    ensures Alike(MultiStep(s, i).0, MultiStep(t, i).0) && MultiStep(s, i).1 == MultiStep(t, i).1
  {
    hide MultiStep, ToHold, Staged, Alike;
    MultiByStage(s, i);
    MultiByStage(t, i);
    AlikeStaged(s, t, i);
    AlikeToHold(Staged(s, i), Staged(t, i), i);
  }

  lemma AlikeEnergy(s: State, t: State, i: In)
    requires Alike(s, t) && s.phase.Weld?
    ensures Alike(EnergyStep(s, i).0, EnergyStep(t, i).0) && EnergyStep(s, i).1 == EnergyStep(t, i).1
  {
    AlikeToHold(s, t, i);
    AlikeToReady(s, t);
    hide ToHold, ToReady;
  }

  lemma AlikeToHold(s: State, t: State, i: In)
    requires Alike(s, t) && s.phase.Weld?
    ensures Alike(ToHold(s, i), ToHold(t, i))
  {
  }

  lemma AlikeToReady(s: State, t: State)
    requires Alike(s, t)
    ensures Alike(ToReady(s).(sol := false), ToReady(t).(sol := false))
  {
  }

  lemma {:induction false} AlikeRuns(s: State, t: State, ins: seq<In>, k: nat)
    requires Alike(s, t) && k <= |ins|
    ensures Alike(After(s, ins[..k]), After(t, ins[..k]))
    ensures k > 0 ==> OutAt(s, ins, k) == OutAt(t, ins, k)
    decreases k
  {
    hide Alike, Step;
    if k > 0 {
      AlikeRuns(s, t, ins, k - 1);
      AfterNext(s, ins, k - 1);
      AfterNext(t, ins, k - 1);
      AlikeStep(After(s, ins[..k - 1]), After(t, ins[..k - 1]), ins[k - 1]);
    }
  }

  /** Every cycle starts afresh: from READY with the cylinder up, whatever
      earlier cycles, aborts and sensor edges left behind, every output is the
      one from power-on. */
  lemma NoMemory(s: State, ins: seq<In>, k: nat)
    requires s.phase.Ready? && !s.sol && 0 < k <= |ins|
    ensures OutAt(s, ins, k) == OutAt(BOOT, ins, k)
    ensures After(s, ins[..k]).phase == After(BOOT, ins[..k]).phase
  {
    AlikeRuns(s, BOOT, ins, k);
    hide OutAt, After;
  }

  // --- Latched modes ---

  predicate InCycle(s: State) { s.phase.Weld? || s.phase.Hold? || s.phase.Cyl2? }

  /** The two inputs differ in nothing but the mode settings. */
  predicate SameButModes(a: In, b: In) { a.(modes := b.modes) == b }

  lemma ModesAreLatched(s: State, a: In, b: In)
    requires InCycle(s) && SameButModes(a, b)
    ensures Step(s, a) == Step(s, b)
  {
    hide Counted, WeldStep, HoldStep, Cyl2Step;
    SameCount(s, a, b);
    WeldLatched(Counted(s, a), a, b);
    HoldLatched(Counted(s, a), a, b);
  }

  lemma SameCount(s: State, a: In, b: In)
    requires SameButModes(a, b)
    ensures Counted(s, a) == Counted(s, b) && Counted(s, a).phase == s.phase && a.abort == b.abort
  {
  }

  lemma WeldLatched(s: State, a: In, b: In)
    requires SameButModes(a, b)
    ensures WeldStep(s, a) == WeldStep(s, b)
  {
    hide Amplitude, MultiAmplitude;
  }

  lemma HoldLatched(s: State, a: In, b: In)
    requires SameButModes(a, b)
    ensures HoldStep(s, a) == HoldStep(s, b) && Cyl2Step(s, a) == Cyl2Step(s, b)
  {
  }

  /** From any state in WELD, HOLD or CYL2, two runs whose inputs differ only
      in the mode settings show the same states and the same outputs until
      READY. */
  lemma {:induction false} ModesDoNotInterfere(s: State, xs: seq<In>, ys: seq<In>, k: nat)
    requires |xs| == |ys| && 0 < k <= |xs|
    requires forall j :: 0 <= j < |xs| ==> SameButModes(xs[j], ys[j])
    requires forall j :: 0 <= j < k ==> InCycle(After(s, xs[..j]))
    ensures After(s, xs[..k]) == After(s, ys[..k]) && OutAt(s, xs, k) == OutAt(s, ys, k)
    decreases k
  {
    if k > 1 {
      ModesDoNotInterfere(s, xs, ys, k - 1);
    } else {
      assert xs[..0] == ys[..0];
    }
    AfterNext(s, xs, k - 1);
    AfterNext(s, ys, k - 1);
    assert InCycle(After(s, xs[..k - 1])) && SameButModes(xs[k - 1], ys[k - 1]);
    ModesAreLatched(After(s, xs[..k - 1]), xs[k - 1], ys[k - 1]);
    hide Step;
  }
}
