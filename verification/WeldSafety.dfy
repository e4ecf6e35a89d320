/** What holds of the press over every interleaving with the remote side, the
    panel, the buttons and the automatic stops. */
module WeldSafety {
  import opened Words
  import opened Config
  import opened WeldGlue
  import WeldFsm
  import WeldTrigger
  import RunEnergy
  import Reg = Regulator

  // --- The cycle's run and the valve ---

  predicate Welding(s: WeldFsm.State) { s.phase.Weld? && s.entered }

  /** The valve was last driven to the cycle's own level; the solenoid is down
      exactly from the entry of CYL1 to the entry of CYL2; a run in the
      cycle's name means WELD after entry. */
  predicate Inv(m: Machine) {
    && WeldFsm.Actuators(m.weld, Welding(m.weld))
    && m.solLast == m.weld.sol
    && (m.core.reg.run.Cycle? ==> Welding(m.weld))
  }

  lemma DrivenRun(c: Reg.Core, o: WeldFsm.Out, il: Reg.Interlocks, now: u32)
    ensures var r := Driven(c, o, il, now).reg.run;
      if o.stop then r.Idle? else if o.start then r == c.reg.run || r.Cycle? else r == c.reg.run
  {
  }

  lemma StepKeepsInv(m: Machine, i: WeldFsm.In, c: Reg.Core, il: Reg.Interlocks, now: u32)
    requires Inv(m)
    ensures var (w, o) := WeldFsm.Step(m.weld, i);
      && WeldFsm.Actuators(w, Welding(w)) && o.sol == w.sol
      && (Driven(m.core, o, il, now).reg.run.Cycle? ==> Welding(w))
  {
    WeldFsm.ActuatorStep(m.weld, Welding(m.weld), i);
    DrivenRun(m.core, WeldFsm.Step(m.weld, i).1, il, now);
    hide WeldFsm.Step, Driven;
  }

  lemma InvStep(m: Machine, e: Event)
    requires Inv(m) && Fair(e)
    ensures Inv(Next(m, e))
  {
    match e {
      case Scanned(x) =>
        var m1 := m.(prev := Advanced(m.prev, x.now));
        StepKeepsInv(m1, InputOf(m1, x), m.core, x.il, x.now);
        hide WeldFsm.Step, WeldFsm.Actuators, Driven, InputOf, TrigAfter;
      case AbortNow(il, now) =>
        StepKeepsInv(m, ABORT_IN, m.core, il, now);
        AbortOnlyStops(m.weld);
        hide WeldFsm.Step, WeldFsm.Actuators;
      case Other(cmd, src, il, now) =>
        Reg.CommandMeaning(m.core, cmd, src, il, now);
        hide Reg.Commanded;
      case Regulate(lim, sn, now) =>
        RunEnergy.RegulateKeepsSource(m.core, now, lim, sn);
        hide Reg.Ticked;
      case Fault =>
      case Edit(c) =>
    }
  }

  lemma AbortOnlyStops(s: WeldFsm.State)
    ensures var (w, o) := WeldFsm.Step(s, ABORT_IN); !o.start && !o.fault && !o.done && w.phase.Ready?
  {
  }

  /** From power-on, over every interleaving: a run in the cycle's name means
      the weld is on, hence the solenoid is down; and the valve follows. */
  lemma {:induction false} CycleRunMeansWelding(c: Cfg, now: u32, es: seq<Event>)
    requires forall k :: 0 <= k < |es| ==> Fair(es[k])
    ensures var m := After(Boot(c, now), es);
      Inv(m) && (m.core.reg.run.Cycle? ==> m.weld.sol && m.solLast)
  {
    if es != [] {
      var k := |es| - 1;
      CycleRunMeansWelding(c, now, es[..k]);
      InvStep(After(Boot(c, now), es[..k]), es[k]);
      hide Next;
    }
  }

  // --- The run at weld entry ---

  /** The scan that enters the armed weld. */
  predicate Enters(m: Machine, x: Scan) {
    Processed(m, x) && m.weld.phase.Weld? && !m.weld.entered && !Aborts(m, x)
  }

  /** The weld is entered whatever the arbiter says; the run becomes the
      cycle's if and only if the arbiter would take a start at that moment, and
      is otherwise left as it was. */
  lemma StartAtWeldEntry(m: Machine, x: Scan)
    requires Enters(m, x) && !m.core.reg.run.Cycle?
    ensures
      var m' := Next(m, Scanned(x));
      && Welding(m'.weld)
      && (m'.core.reg.run.Cycle? <==> Reg.StartAllowed(m.core.reg, x.il))
      && (!m'.core.reg.run.Cycle? ==> m'.core.reg.run == m.core.reg.run)
  {
    var i := InputOf(m.(prev := Advanced(m.prev, x.now)), x);
    EntryEdges(m.weld, i);
    hide WeldFsm.Step, TimesOf, Advanced;
  }

  lemma EntryEdges(s: WeldFsm.State, i: WeldFsm.In)
    requires s.phase.Weld? && !s.entered && !i.abort
    ensures var (w, o) := WeldFsm.Step(s, i); Welding(w) && o.start && !o.stop && !o.fault
  {
    hide WeldFsm.Amplitude, WeldFsm.MultiAmplitude;
  }

  /** An abort that catches the weld armed but not entered stops whatever run
      is on, whoever owns it. */
  lemma AbortBeforeEntryStopsAnyRun(m: Machine, x: Scan)
    requires Processed(m, x) && m.weld.phase.Weld? && !m.weld.entered && Aborts(m, x)
    ensures Next(m, Scanned(x)).core.reg.run.Idle?
  {
    var i := InputOf(m.(prev := Advanced(m.prev, x.now)), x);
    AbortStops(m.weld, i);
    DrivenRun(m.core, WeldFsm.Step(m.weld, i).1, x.il, x.now);
    hide WeldFsm.Step, Driven, TimesOf, Advanced;
  }

  lemma AbortStops(s: WeldFsm.State, i: WeldFsm.In)
    requires s.phase.Weld? && i.abort
    ensures WeldFsm.Step(s, i).1.stop
  {
    hide WeldFsm.PhaseStep;
  }

  /** Events that leave a free arbiter free: all but another source's start, a
      fault, and the scan that enters the weld. */
  predicate Calm(m: Machine, e: Event) {
    && !e.Fault? && (e.Other? ==> !e.cmd.Start?)
    && (e.Scanned? ==> !Enters(m, e.x)) && !Welding(m.weld)
  }

  lemma CalmKeepsFree(m: Machine, e: Event)
    requires RunEnergy.Free(m.core.reg) && Calm(m, e)
    ensures RunEnergy.Free(Next(m, e).core.reg)
  {
    match e {
      case Scanned(x) =>
        var i := InputOf(m.(prev := Advanced(m.prev, x.now)), x);
        if Processed(m, x) {
          NoEntryNoEdges(m.weld, i);
        }
        hide WeldFsm.Step, TimesOf, Advanced;
      case AbortNow(il, now) =>
        NoEntryNoEdges(m.weld, ABORT_IN);
        hide WeldFsm.Step;
      case Other(cmd, src, il, now) =>
      case Regulate(lim, sn, now) =>
        RunEnergy.RegulateKeepsFree(m.core, now, lim, sn);
        hide Reg.Ticked;
      case Edit(c) =>
    }
  }

  lemma NoEntryNoEdges(s: WeldFsm.State, i: WeldFsm.In)
    requires !Welding(s) && (s.phase.Weld? ==> i.abort)
    ensures var o := WeldFsm.Step(s, i).1; !o.start && !o.fault
  {
    hide WeldFsm.EnteredWeld;
  }

  /** What a cycle must avoid between its start and its weld's entry: if
      nothing else was started and no fault was raised in between, and neither
      seek nor reset is on at the entry, the run is the cycle's. */
  lemma {:induction false} CycleGetsItsRun(m: Machine, es: seq<Event>, x: Scan)
    requires es != [] && Starts(m, es[0]) && !Enters(m, es[0].x) && !Welding(m.weld)
    requires forall k :: 0 < k < |es| ==> Calm(After(m, es[..k]), es[k])
    requires Enters(After(m, es), x) && !x.il.seekReset
    ensures Next(After(m, es), Scanned(x)).core.reg.run.Cycle?
  {
    FreeSinceStart(m, es, |es|);
    assert es[..|es|] == es;
    StartAtWeldEntry(After(m, es), x);
    hide Next, After;
  }

  lemma {:induction false} FreeSinceStart(m: Machine, es: seq<Event>, n: nat)
    requires 0 < n <= |es| && Starts(m, es[0]) && !Enters(m, es[0].x) && !Welding(m.weld)
    requires forall k :: 0 < k < |es| ==> Calm(After(m, es[..k]), es[k])
    ensures RunEnergy.Free(After(m, es[..n]).core.reg)
    decreases n
  {
    hide Next, Starts, Enters, Calm;
    AfterNext(m, es, n - 1);
    if n == 1 {
      assert es[..0] == [];
      StartFinds(m, es[0]);
    } else {
      FreeSinceStart(m, es, n - 1);
      assert Calm(After(m, es[..n - 1]), es[n - 1]);
    }
    CalmKeepsFree(After(m, es[..n - 1]), es[n - 1]);
  }

  /** A cycle start finds the arbiter free, and does not disturb it. */
  lemma StartFinds(m: Machine, e: Event)
    requires Starts(m, e) && !Enters(m, e.x) && !Welding(m.weld)
    ensures RunEnergy.Free(m.core.reg) && Calm(m, e)
  {
  }

  // --- Two hands ---

  predicate Starts(m: Machine, e: Event) { e.Scanned? && Processed(m, e.x) && Begins(m, e.x) }

  /** A scan that finds both keys released in READY. */
  predicate Released(m: Machine, e: Event) {
    e.Scanned? && Processed(m, e.x) && WeldTrigger.BothReleased(e.x.keys) && m.weld.phase.Ready?
  }

  /** The cycle leaves READY exactly by such a start, which needs both keys
      pressed and a start the arbiter would accept. */
  lemma CycleStartsOnlyGuarded(m: Machine, e: Event)
    requires m.weld.phase.Ready?
    ensures !Next(m, e).weld.phase.Ready? <==> Starts(m, e)
    ensures Starts(m, e) ==>
      && Next(m, e).weld.phase.Cyl1? && WeldTrigger.BothPressed(e.x.keys)
      && Reg.StartAllowed(m.core.reg, e.x.il) && !m.trig.inCycle
  {
    hide Reg.Commanded, Reg.Ticked, Driven, TimesOf, Advanced, WeldFsm.Step;
    match e {
      case Scanned(x) => IntoCyl1(m.weld, InputOf(m.(prev := Advanced(m.prev, x.now)), x));
      case AbortNow(_, _) => IntoCyl1(m.weld, ABORT_IN);
      case Other(_, _, _, _) =>
      case Regulate(_, _, _) =>
      case Fault =>
      case Edit(_) =>
    }
  }

  /** With the safety setting on, any processed tick that ends in CYL1 sampled
      both keys pressed. */
  lemma CylinderNeedsBothHands(m: Machine, x: Scan)
    requires Processed(m, x) && m.cfg.model.safety != 0
    ensures Next(m, Scanned(x)).weld.phase.Cyl1? ==> WeldTrigger.BothPressed(x.keys)
  {
    var m1 := m.(prev := Advanced(m.prev, x.now));
    IntoCyl1(m.weld, InputOf(m1, x));
    hide Driven, TimesOf, Advanced, WeldFsm.Step;
  }

  /** CYL1 is entered from READY by a start, and kept only without an abort. */
  lemma IntoCyl1(s: WeldFsm.State, i: WeldFsm.In)
    ensures WeldFsm.Step(s, i).0.phase.Cyl1? ==> (s.phase.Ready? && i.start) || (s.phase.Cyl1? && !i.abort)
    ensures s.phase.Ready? ==> WeldFsm.Step(s, i).0.phase == if i.start then WeldFsm.Cyl1 else WeldFsm.Ready
  {
    hide WeldFsm.WeldStep, WeldFsm.HoldStep, WeldFsm.Cyl2Step, WeldFsm.Backstop;
    LaterPhasesGoOn(s, i);
  }

  lemma LaterPhasesGoOn(s: WeldFsm.State, i: WeldFsm.In)
    ensures var c := WeldFsm.Counted(s, i);
      && (s.phase.Weld? ==> !WeldFsm.WeldStep(c, i).0.phase.Cyl1?)
      && (s.phase.Hold? ==> !WeldFsm.HoldStep(c, i).0.phase.Cyl1?)
      && (s.phase.Cyl2? ==> !WeldFsm.Cyl2Step(c, i).0.phase.Cyl1?)
  {
    hide WeldFsm.Amplitude, WeldFsm.MultiAmplitude;
  }

  lemma InCycleFollows(m: Machine, e: Event)
    ensures Starts(m, e) ==> Next(m, e).trig.inCycle
    ensures !Starts(m, e) && !Released(m, e) ==> Next(m, e).trig.inCycle == m.trig.inCycle
  {
    hide Reg.Commanded, Reg.Ticked, Driven, TimesOf, Advanced, WeldFsm.Step;
  }

  lemma {:induction false} StaysArmed(m: Machine, es: seq<Event>, i: nat, j: nat)
    requires i < j <= |es| && Starts(After(m, es[..i]), es[i])
    requires forall k :: i < k < j ==> !Released(After(m, es[..k]), es[k])
    ensures After(m, es[..j]).trig.inCycle
    decreases j
  {
    hide Next, Starts, Released;
    AfterNext(m, es, j - 1);
    InCycleFollows(After(m, es[..j - 1]), es[j - 1]);
    if i < j - 1 {
      StaysArmed(m, es, i, j - 1);
      StartIsUnarmed(After(m, es[..j - 1]), es[j - 1]);
    }
  }

  lemma StartIsUnarmed(m: Machine, e: Event)
    ensures Starts(m, e) ==> !m.trig.inCycle
  {
  }

  /** Between two cycle starts some scanned tick had both keys released in
      READY. */
  lemma TwoHandRearm(m: Machine, es: seq<Event>, i: nat, j: nat)
    requires i < j < |es| && Starts(After(m, es[..i]), es[i]) && Starts(After(m, es[..j]), es[j])
    ensures exists k :: i < k < j && Released(After(m, es[..k]), es[k])
  {
    StartIsUnarmed(After(m, es[..j]), es[j]);
    if forall k :: i < k < j ==> !Released(After(m, es[..k]), es[k]) {
      StaysArmed(m, es, i, j);
    }
  }

  // --- The 10 ms gate ---

  /** The gate after some calls: its reference instant and the steps let
      through. Call instants are on an unbounded clock. */
  datatype Gate = Gate(prev: u32, steps: nat)

  function Passed(g: Gate, now: nat): Gate {
    if Due(g.prev, Tick(now)) then Gate(Advanced(g.prev, Tick(now)), g.steps + 1) else g
  }

  function GateAfter(start: nat, calls: seq<nat>): Gate {
    if calls == [] then Gate(Tick(start), 0) else Passed(GateAfter(start, calls[..|calls| - 1]), calls[|calls| - 1])
  }

  function LastCall(start: nat, calls: seq<nat>): nat { if calls == [] then start else calls[|calls| - 1] }

  /** The clock does not run backwards, and calls are less than 2^32 - 100 ms
      apart. */
  predicate Regular(start: nat, calls: seq<nat>) {
    calls == [] || (Regular(start, calls[..|calls| - 1])
      && var before := LastCall(start, calls[..|calls| - 1]); before <= calls[|calls| - 1] < before + WRAP - LAG_MAX_MS)
  }

  lemma GateStep(ref: nat, g: Gate, now: nat) returns (ref': nat)
    requires g.prev == Tick(ref) && ref <= now < ref + WRAP
    ensures ref <= ref' <= now && now - ref' <= (if now - ref >= WELD_TICK_MS then LAG_MAX_MS else WELD_TICK_MS)
    ensures Passed(g, now).prev == Tick(ref') && ref' - ref >= WELD_TICK_MS * (Passed(g, now).steps - g.steps)
  {
    ElapsedIsReal(now, ref);
    if now - ref < WELD_TICK_MS {
      ref' := ref;
    } else {
      NextInstant(ref);
      ElapsedIsReal(now, ref + WELD_TICK_MS);
      ref' := if now - (ref + WELD_TICK_MS) > LAG_MAX_MS then now else ref + WELD_TICK_MS;
    }
  }

  lemma NextInstant(ref: nat)
    ensures (Tick(ref) + WELD_TICK_MS) % WRAP == Tick(ref + WELD_TICK_MS)
  {
  }

  /** However irregular the loop, the cycle is never stepped faster than once
      per 10 ms of real time, and the reference never lags the clock by more
      than 100 ms after a call. */
  lemma {:induction false} NeverFasterThanTheClock(start: nat, calls: seq<nat>) returns (ref: nat)
    requires Regular(start, calls)
    ensures var g, last := GateAfter(start, calls), LastCall(start, calls);
      && g.prev == Tick(ref) && ref <= last <= ref + 100
      && 10 * g.steps <= ref - start <= last - start
  {
    if calls == [] {
      ref := start;
    } else {
      var before := NeverFasterThanTheClock(start, calls[..|calls| - 1]);
      ref := GateStep(before, GateAfter(start, calls[..|calls| - 1]), calls[|calls| - 1]);
    }
  }

  /** Calls no more than 10 ms apart. */
  predicate Prompt(start: nat, calls: seq<nat>) {
    calls == [] || (Prompt(start, calls[..|calls| - 1])
      && var before := LastCall(start, calls[..|calls| - 1]); before <= calls[|calls| - 1] <= before + 10)
  }

  /** A loop that calls at least every 10 ms never loses a step: after each
      call there has been one for every whole 10 ms since the start. */
  lemma {:induction false} KeepsPace(start: nat, calls: seq<nat>)
    requires Prompt(start, calls)
    ensures
      var g, last := GateAfter(start, calls), LastCall(start, calls);
      last >= start && g == Gate(Tick(start + 10 * g.steps), (last - start) / 10)
  {
    if calls != [] {
      var front, now := calls[..|calls| - 1], calls[|calls| - 1];
      KeepsPace(start, front);
      var g := GateAfter(start, front);
      PromptCall(start + 10 * g.steps, g, now);
    }
  }

  lemma PromptCall(ref: nat, g: Gate, now: nat)
    requires g.prev == Tick(ref) && ref <= now < ref + 20
    ensures Passed(g, now) == if now < ref + 10 then g else Gate(Tick(ref + 10), g.steps + 1)
  {
    ElapsedIsReal(now, ref);
    if now >= ref + 10 {
      NextInstant(ref);
      ElapsedIsReal(now, ref + 10);
    }
    hide Tick, Elapsed;
  }
}
