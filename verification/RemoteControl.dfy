/** The remote control path as the firmware runs it: a register table that is
    refreshed from the settings, one decoded message, and a chain of
    comparisons that finds out what the message changed. */
module RemoteControl {
  import opened Words
  import opened Config
  import opened CfgStage
  import opened Remote
  import HoldWatchdog
  import Reg = Regulator
  import MB = ModbusCore

  const CFG_CAP_MAGIC: u16 := 0xFA01
  const REMOTE_CAP_MAGIC: u16 := 0x5201
  const FEAT_HOLD_WDT: u16 := 0x0001
  const GATE_OPEN: byte := 1

  /** What the status word reports, polarities already resolved. */
  datatype Inputs = Inputs(estop: bool, overload: bool, sensor: bool, seekLeg: bool, resetLeg: bool, gateState: byte)

  /** mb_status_bits: one bit per fact. */
  function StatusBits(running: bool, i: Inputs, ovtime: bool, horn: bool): (s: u16) {
    (if running then 0x01 else 0) + (if i.estop then 0x02 else 0) + (if i.overload then 0x04 else 0)
      + (if ovtime then 0x08 else 0)
    + (if i.sensor then 0x20 else 0) + (if horn then 0x40 else 0) + (if i.seekLeg then 0x80 else 0)
      + (if i.resetLeg then 0x100 else 0)
  }

  datatype Shown = Keep | Show(word: u16)

  /** What the mirror puts into register `a`; commands, the reserved register
      and staged fields under edit keep what they hold. */
  function Projection(a: nat, w: World, i: Inputs, remoteModel: bool): Shown
    requires w.Valid()
  {
    var m := w.core.m;
    if a == WORK_CNTH then Show(w.cfg.workCnt / 0x1_0000)
    else if a == WORK_CNTL then Show(w.cfg.workCnt % 0x1_0000)
    else if a == DISP_POWER then Show(if m.live then m.maxPower else m.lastPower)
    else if a == DISP_AMP then Show(if m.live then m.maxAmp else m.lastAmp)
    else if a == DISP_FREQ then Show(if m.live then m.currFreq else m.lastFreq)
    else if a == DISP_ENERGY then Show((if m.live then m.currEnergy else m.lastEnergy) % 0x1_0000)
    else if IsSetting(a) then Show(SettingWord(a, w.cfg))
    else if a == STATUS then Show(StatusBits(!m.run.Idle?, i, m.fault, w.horn))
    else if a == COMM_MODE then Show(w.cfg.net.mode)
    else if a == CFG_STAT then Show(w.stage.stat.Code())
    else if a == CFG_CAP then Show(CFG_CAP_MAGIC)
    else if a == FEAT_CAP then Show(FEAT_HOLD_WDT)
    else if a == HORN_CMD then Show(if w.horn then 1 else 0)
    else if IsStaged(a) then (if StagedField(a) in w.stage.dirty then Keep else Show(Live(w.cfg.net, StagedField(a))))
    else if !remoteModel then Keep
    else if a == REMOTE_CAP then Show(REMOTE_CAP_MAGIC)
    else if a == REMOTE_EN then Show(i.gateState)
    else if a == REMOTE_EN_LEFT then Show(0)
    else Keep
  }

  /** No command is left over in the table. */
  predicate Quiet(h: seq<u16>)
    requires |h| == MB.REGS
  {
    h[RESET] != 1 && h[SEEK] != 1 && h[START] == 0 && h[STOP] != 1 && h[CFG_CTRL] == 0
  }

  /** Every register the chain compares shows its setting. */
  predicate InSync(h: seq<u16>, w: World)
    requires |h| == MB.REGS
  {
    && (forall a :: 0 <= a < MB.REGS && IsSetting(a) ==> h[a] == SettingWord(a, w.cfg))
    && h[HORN_CMD] == (if w.horn then 1 else 0)
  }

  /** The table is quiet and in sync but for the register just written. */
  predicate Pending(h: seq<u16>, a: nat, w: World)
    requires |h| == MB.REGS
  {
    && a < MB.REGS
    && (a != RESET ==> h[RESET] != 1) && (a != SEEK ==> h[SEEK] != 1) && (a != START ==> h[START] == 0)
    && (a != STOP ==> h[STOP] != 1) && (a != CFG_CTRL ==> h[CFG_CTRL] == 0)
    && (forall b :: 0 <= b < MB.REGS && IsSetting(b) && b != a ==> h[b] == SettingWord(b, w.cfg))
    && (a != HORN_CMD ==> h[HORN_CMD] == (if w.horn then 1 else 0))
  }

  /** A write into a quiet table in sync leaves exactly that write pending. */
  lemma WriteIsPending(h: seq<u16>, w: World, a: nat, v: u16)
    requires |h| == MB.REGS && Quiet(h) && InSync(h, w) && a < MB.REGS
    ensures Pending(h[a := v], a, w)
  {
  }

  lemma CommandGroup(a: nat)
    ensures IsCommand(a) <==> a in {RESET, SEEK, START, STOP, CFG_CTRL}
  {
  }

  lemma DispatchCommand(w: World, link: Link, a: nat, v: u16, e: Env)
    requires w.Valid()
    ensures IsCommand(a) ==> Dispatch(w, link, a, v, e) == CommandRule(w, link, a, v, e)
  {
  }

  // --- The mirror, in the source's three parts ---

  /** mirror_cfg_fields. */
  predicate CfgShown(h: seq<u16>, c: Cfg)
    requires |h| == MB.REGS
  {
    && h[WORK_CNTH] == c.workCnt / 0x1_0000 && h[WORK_CNTL] == c.workCnt % 0x1_0000
    && h[DELAY1] == c.times.delay1 && h[DELAY2] == c.times.delay2 && h[DELAY3] == c.times.delay3
    && h[TRIGGER2] == c.times.trigger2 && h[TRIGGER3] == c.times.trigger3
    && LimitsShown(h, c)
  }

  predicate LimitsShown(h: seq<u16>, c: Cfg)
    requires |h| == MB.REGS
  {
    && h[OUT_POWER] == c.power && h[ON_TIME] == c.times.onTime && h[ENERGY] == c.energy % 0x1_0000
    && h[MULTI_T1] == c.multi.time1 && h[MULTI_T2] == c.multi.time2
    && h[MULTI_O1] == c.multi.out1 && h[MULTI_O2] == c.multi.out2
    && h[TIMEOVER] == c.times.outTime
  }

  predicate ModesShown(h: seq<u16>, c: Cfg)
    requires |h| == MB.REGS
  {
    && h[MODEL_FREQ] == c.model.freq && h[MODEL_TYPE] == c.model.kind && h[RUN_MODE] == c.model.runMode
    && h[EN_ENERGY] == (if c.energyCtrl then 1 else 0) && h[EN_MULTI] == (if c.multiCtrl then 1 else 0)
    && h[EN_SAFTY] == c.model.safety && h[CAL_VAL] == ToWire(c.cal) && h[FREQ_CAL_VAL] == ToWire(c.freqCal)
  }

  /** mirror_disp_status. */
  predicate StatusShown(h: seq<u16>, c: Cfg, m: Reg.Measure, horn: bool, i: Inputs)
    requires |h| == MB.REGS
  {
    && h[DISP_POWER] == (if m.live then m.maxPower else m.lastPower)
      && h[DISP_AMP] == (if m.live then m.maxAmp else m.lastAmp)
    && h[DISP_FREQ] == (if m.live then m.currFreq else m.lastFreq)
    && h[DISP_ENERGY] == (if m.live then m.currEnergy else m.lastEnergy) % 0x1_0000
    && ModesShown(h, c) && h[STATUS] == StatusBits(!m.run.Idle?, i, m.fault, horn)
  }

  predicate LinkShown(h: seq<u16>, c: Cfg, stat: Stat, horn: bool)
    requires |h| == MB.REGS
  {
    && h[COMM_MODE] == c.net.mode && h[CFG_STAT] == stat.Code() && h[CFG_CAP] == CFG_CAP_MAGIC
    && h[FEAT_CAP] == FEAT_HOLD_WDT && h[HORN_CMD] == (if horn then 1 else 0)
  }

  /** The fixed words of mirror_stage_and_gate. */
  predicate GateShown(h: seq<u16>, h0: seq<u16>, w: World, i: Inputs, remoteModel: bool)
    requires |h| == MB.REGS == |h0|
  {
    && LinkShown(h, w.cfg, w.stage.stat, w.horn)
    && h[REMOTE_CAP] == (if remoteModel then REMOTE_CAP_MAGIC else h0[REMOTE_CAP])
    && h[REMOTE_EN] == (if remoteModel then i.gateState else h0[REMOTE_EN])
    && h[REMOTE_EN_LEFT] == (if remoteModel then 0 else h0[REMOTE_EN_LEFT])
  }

  predicate InCfgPart(a: nat) {
    a == WORK_CNTH || a == WORK_CNTL || (OUT_POWER <= a <= MULTI_O2)
  }

  predicate InStatusPart(a: nat) {
    (DISP_POWER <= a <= DISP_ENERGY) || (RUN_MODE <= a <= MODEL_TYPE) || a == STATUS || a == CAL_VAL
      || a == FREQ_CAL_VAL
  }

  predicate InGatePart(a: nat) {
    a == COMM_MODE || a == CFG_STAT || a == CFG_CAP || a == FEAT_CAP || a == HORN_CMD
      || (REMOTE_CAP <= a <= REMOTE_EN_LEFT)
  }

  /** Every register as the mirror leaves it. */
  function MirrorOf(h0: seq<u16>, w: World, i: Inputs, remoteModel: bool): (h: seq<u16>)
    requires w.Valid() && |h0| == MB.REGS
    ensures |h| == MB.REGS
  {
    seq(MB.REGS, a requires 0 <= a < MB.REGS => Word(h0, w, i, remoteModel, a))
  }

  function Word(h0: seq<u16>, w: World, i: Inputs, remoteModel: bool, a: nat): (v: u16)
    requires w.Valid() && |h0| == MB.REGS && a < MB.REGS
  {
    match Projection(a, w, i, remoteModel)
    case Keep => h0[a]
    case Show(v) => v
  }

  /** The three parts, run one after the other, show every register its
      projection. */
  lemma PartsMirror(h0: seq<u16>, h1: seq<u16>, h2: seq<u16>, h: seq<u16>, w: World, i: Inputs, remoteModel: bool)
    requires w.Valid() && |h| == |h2| == |h1| == |h0| == MB.REGS
    requires CfgShown(h1, w.cfg) && StatusShown(h2, w.cfg, w.core.m, w.horn, i) && GateShown(h, h2, w, i, remoteModel)
    requires forall a :: 0 <= a < MB.REGS && !InCfgPart(a) ==> h1[a] == h0[a]
    requires forall a :: 0 <= a < MB.REGS && !InStatusPart(a) ==> h2[a] == h1[a]
    requires forall a :: 0 <= a < MB.REGS && IsStaged(a) ==>
      h[a] == if StagedField(a) in w.stage.dirty then h2[a] else Live(w.cfg.net, StagedField(a))
    requires forall a :: 0 <= a < MB.REGS && !InGatePart(a) && !IsStaged(a) ==> h[a] == h2[a]
    ensures h == MirrorOf(h0, w, i, remoteModel)
  {
    hide Word, CfgShown, StatusShown, GateShown;
    forall a | 0 <= a < MB.REGS
      ensures h[a] == Word(h0, w, i, remoteModel, a)
    {
      PartShown(h0, h1, h2, h, w, i, remoteModel, a);
    }
  }

  lemma PartShown(h0: seq<u16>, h1: seq<u16>, h2: seq<u16>, h: seq<u16>, w: World, i: Inputs, remoteModel: bool, a: nat)
    requires w.Valid() && |h| == |h2| == |h1| == |h0| == MB.REGS && a < MB.REGS
    requires CfgShown(h1, w.cfg) && StatusShown(h2, w.cfg, w.core.m, w.horn, i) && GateShown(h, h2, w, i, remoteModel)
    requires !InCfgPart(a) ==> h1[a] == h0[a]
    requires !InStatusPart(a) ==> h2[a] == h1[a]
    requires IsStaged(a) ==> h[a] == if StagedField(a) in w.stage.dirty then h2[a] else Live(w.cfg.net, StagedField(a))
    requires !InGatePart(a) && !IsStaged(a) ==> h[a] == h2[a]
    ensures h[a] == Word(h0, w, i, remoteModel, a)
  {
    hide Projection, CfgShown, StatusShown, GateShown;
    if InCfgPart(a) {
      CfgPartShown(h1, w, i, remoteModel, a);
    } else if InStatusPart(a) {
      StatusPartShown(h2, w, i, remoteModel, a);
    } else {
      OtherPartShown(h2, h, w, i, remoteModel, a);
    }
  }

  lemma CfgPartShown(h: seq<u16>, w: World, i: Inputs, remoteModel: bool, a: nat)
    requires w.Valid() && |h| == MB.REGS && CfgShown(h, w.cfg) && InCfgPart(a)
    ensures Projection(a, w, i, remoteModel) == Show(h[a])
  {
  }

  lemma StatusPartShown(h: seq<u16>, w: World, i: Inputs, remoteModel: bool, a: nat)
    requires w.Valid() && |h| == MB.REGS && StatusShown(h, w.cfg, w.core.m, w.horn, i) && InStatusPart(a) && a < MB.REGS
    ensures Projection(a, w, i, remoteModel) == Show(h[a])
  {
  }

  lemma OtherPartShown(h0: seq<u16>, h: seq<u16>, w: World, i: Inputs, remoteModel: bool, a: nat)
    requires w.Valid() && |h| == MB.REGS == |h0| && GateShown(h, h0, w, i, remoteModel)
    requires a < MB.REGS && !InCfgPart(a) && !InStatusPart(a)
    requires IsStaged(a) ==> h[a] == if StagedField(a) in w.stage.dirty then h0[a] else Live(w.cfg.net, StagedField(a))
    requires !InGatePart(a) && !IsStaged(a) ==> h[a] == h0[a]
    ensures h[a] == Word(h0, w, i, remoteModel, a)
  {
    ProjectionByPart(a, w, i, remoteModel);
    hide Projection, Live, StagedField;
  }

  lemma ProjectionByPart(a: nat, w: World, i: Inputs, remoteModel: bool)
    requires w.Valid() && !InCfgPart(a) && !InStatusPart(a)
    ensures Projection(a, w, i, remoteModel) ==
      if a == COMM_MODE then Show(w.cfg.net.mode)
      else if a == CFG_STAT then Show(w.stage.stat.Code())
      else if a == CFG_CAP then Show(CFG_CAP_MAGIC)
      else if a == FEAT_CAP then Show(FEAT_HOLD_WDT)
      else if a == HORN_CMD then Show(if w.horn then 1 else 0)
      else if IsStaged(a) then (if StagedField(a) in w.stage.dirty then Keep else Show(Live(w.cfg.net, StagedField(a))))
      else if !remoteModel then Keep
      else if a == REMOTE_CAP then Show(REMOTE_CAP_MAGIC)
      else if a == REMOTE_EN then Show(i.gateState)
      else if a == REMOTE_EN_LEFT then Show(0)
      else Keep
  {
  }

  /** A mirrored table is in sync, a quiet one stays quiet, and mirroring
      twice is mirroring once. */
  lemma MirrorSyncs(h0: seq<u16>, w: World, i: Inputs, remoteModel: bool)
    requires w.Valid() && |h0| == MB.REGS && Quiet(h0)
    ensures var h := MirrorOf(h0, w, i, remoteModel);
      Quiet(h) && InSync(h, w) && MirrorOf(h, w, i, remoteModel) == h
  {
  }

  class Panel {
    const core: MB.Core
    const stage: Staging
    const wdt: HoldWatchdog.HoldWdt
    const arb: Reg.Arbiter
    var cfg: Cfg
    var horn: bool

    ghost predicate Valid()
      reads this, core, stage, stage.val
    {
      core.Valid() && stage.Valid() && stage.val != core.holding
    }

    ghost function Now(): (w: World)
      requires Valid()
      reads this, core, stage, stage.val, wdt, arb
      ensures w.Valid()
    {
      World(cfg, horn, stage.State(), wdt.State(), arb.State())
    }

    ghost function Table(): (h: seq<u16>)
      requires Valid()
      reads this, core, core.holding, stage, stage.val
      ensures |h| == MB.REGS
    {
      core.holding[..]
    }

    constructor (now: u32, addr: byte, c: Cfg)
      ensures Valid() && fresh(core) && fresh(stage) && fresh(wdt) && fresh(arb) && fresh(stage.val)
        && fresh(core.holding) && fresh(core.coils)
      ensures Now() == World(c, false, EMPTY, HoldWatchdog.Wdt(false, 0), Reg.Boot(now))
      ensures core.State() == MB.Blank(addr) && Quiet(Table())
    {
      core := new MB.Core(addr);
      stage := new Staging();
      wdt := new HoldWatchdog.HoldWdt();
      arb := new Reg.Arbiter(now);
      cfg := c;
      horn := false;
    }

    /** The part of the chain that serves START. */
    method ServeStart(sv: u16, e: Env) returns (fx: seq<Effect>)
      requires Valid()
      modifies wdt, arb
      ensures Valid() && Result(Now(), fx) == StartRule(old(Now()), sv, e)
    {
      fx := [];
      var il := Reg.Interlocks(e.seekReset, e.overload, e.estop, horn);
      if sv == START_TAP {
        arb.Command(Reg.Start, Reg.Comm, il, e.now);
        fx := [SetPot(cfg.power)];
      } else if sv == START_HOLD {
        var ok := arb.IsStartAllowed(il);
        if ok {
          arb.Command(Reg.Start, Reg.Comm, il, e.now);
          fx := [SetPot(cfg.power)];
          wdt.Arm(e.now);
        } else if wdt.armed {
          wdt.Keep(e.now);
        }
      } else if sv == START_KEEP {
        wdt.Keep(e.now);
      }
    }

    /** Two octets per staged word, high byte first. */
    method TakeOctets(o: Octets, d: set<nat>, high: nat, low: nat) returns (r: Octets)
      requires Valid() && high < FIELDS && low < FIELDS
      ensures r == Halves(o, high in d, stage.val[high], low in d, stage.val[low])
    {
      r := o;
      if high in d {
        r := [Hi(stage.val[high]), Lo(stage.val[high]), r[2], r[3]];
      }
      if low in d {
        r := [r[0], r[1], Hi(stage.val[low]), Lo(stage.val[low])];
      }
    }

    /** stg_apply_to_cfg, field by field. */
    method TakeStaged(d: set<nat>)
      requires Valid()
      modifies this`cfg
      ensures Valid() && cfg == old(cfg).(net := Taken(old(cfg).net, d, stage.val[..]))
    {
      var n := cfg.net;
      if ADDR in d { n := n.(addr := Lo(stage.val[ADDR])); }
      if SPEED in d { n := n.(speed := Lo(stage.val[SPEED])); }
      if PARITY in d { n := n.(parity := Lo(stage.val[PARITY])); }
      var ip := TakeOctets(n.ip, d, IP_H, IP_L);
      var nm := TakeOctets(n.nm, d, NM_H, NM_L);
      var gw := TakeOctets(n.gw, d, GW_H, GW_L);
      n := n.(ip := ip, nm := nm, gw := gw);
      cfg := cfg.(net := n);
    }

    /** The part of the chain that serves CFG_CTRL. */
    method ServeCommit(ctrl: u16, link: Link) returns (fx: seq<Effect>)
      requires Valid()
      modifies this`cfg, stage
      ensures Valid() && Result(Now(), fx) == CommitRule(old(Now()), link, ctrl)
    {
      fx := [];
      if ctrl == 1 {
        var d := stage.dirty;
        var ok := stage.Commit(link, arb.m.live);
        if ok {
          TakeStaged(d);
          if d * ETHER != {} {
            fx := fx + [EtherApply(cfg.net)];
          }
          fx := fx + [SaveAll(cfg)];
        }
      } else if ctrl == 2 {
        stage.Discard();
      }
    }

    // --- The comparison chain of app_modbus_apply_writes, in its order ---

    /** RESET and SEEK. */
    method ServeSeekReset(link: Link, e: Env) returns (hit: bool, fx: seq<Effect>)
      requires Valid() && Pending(Table(), core.last, Now())
      modifies core.holding, arb
      ensures Valid() && Served(link, e, {RESET, SEEK}, old(Now()), old(Table()), hit, fx)
      ensures !hit ==> Table()[RESET] != 1 && Table()[SEEK] != 1
    {
      hit, fx := true, [];
      var il := Reg.Interlocks(e.seekReset, e.overload, e.estop, horn);
      if core.holding[RESET] == 1 {
        arb.Command(Reg.Reset, Reg.Comm, il, e.now);
        fx := [SeekReset(Reg.Reset)];
        core.holding[RESET] := 0;
      } else if core.holding[SEEK] == 1 {
        arb.Command(Reg.Seek, Reg.Comm, il, e.now);
        fx := [SeekReset(Reg.Seek)];
        core.holding[SEEK] := 0;
      } else {
        hit := false;
      }
    }

    /** START and STOP. */
    method ServeRun(link: Link, e: Env) returns (hit: bool, fx: seq<Effect>)
      requires Valid() && Pending(Table(), core.last, Now())
      modifies core.holding, wdt, arb
      ensures Valid() && Served(link, e, {START, STOP}, old(Now()), old(Table()), hit, fx)
      ensures !hit ==> Table()[START] == 0 && Table()[STOP] != 1
    {
      hit, fx := true, [];
      if core.holding[START] != 0 {
        var sv := core.holding[START];
        core.holding[START] := 0;
        fx := ServeStart(sv, e);
      } else if core.holding[STOP] == 1 {
        arb.Command(Reg.Release, Reg.Comm, Reg.Interlocks(e.seekReset, e.overload, e.estop, horn), e.now);
        core.holding[STOP] := 0;
      } else {
        hit := false;
      }
    }

    /** CFG_CTRL. */
    method ServeCtrl(link: Link, e: Env) returns (hit: bool, fx: seq<Effect>)
      requires Valid() && Pending(Table(), core.last, Now())
      modifies this`cfg, core.holding, stage
      ensures Valid() && Served(link, e, {CFG_CTRL}, old(Now()), old(Table()), hit, fx)
      ensures !hit ==> Table()[CFG_CTRL] == 0
    {
      hit, fx := false, [];
      if core.holding[CFG_CTRL] != 0 {
        hit := true;
        var ctrl := core.holding[CFG_CTRL];
        core.holding[CFG_CTRL] := 0;
        fx := ServeCommit(ctrl, link);
      }
    }

    /** A group of command registers: the pending one is consumed and served by
        its rule, or none of the group has anything to do. */
    ghost predicate Served(
      link: Link, e: Env, group: set<nat>, w0: World, h0: seq<u16>, hit: bool, fx: seq<Effect>)
      requires Valid() && w0.Valid() && |h0| == MB.REGS
      reads this, core, core.holding, stage, stage.val, wdt, arb
    {
      && core.last < MB.REGS
      && (forall b :: 0 <= b < MB.REGS && !IsCommand(b) ==> Table()[b] == h0[b])
      && (hit ==> core.last in group && Quiet(Table()))
      && (hit ==> Result(Now(), fx) == CommandRule(w0, link, core.last, h0[core.last], e))
      && (!hit ==> Now() == w0 && Table() == h0 && fx == [])
      && (!hit && core.last in group ==> CommandRule(w0, link, core.last, h0[core.last], e) == Result(w0, []))
    }

    /** RESET, SEEK, START, STOP and CFG_CTRL, each consumed. */
    method ServeCommands(link: Link, e: Env) returns (hit: bool, fx: seq<Effect>)
      requires Valid() && Pending(Table(), core.last, Now())
      modifies this`cfg, core.holding, stage, wdt, arb
      ensures Valid() && Quiet(Table())
      ensures Served(link, e, {RESET, SEEK, START, STOP, CFG_CTRL}, old(Now()), old(Table()), hit, fx)
    {
      hide CommandRule, Pending;
      hit, fx := ServeSeekReset(link, e);
      if !hit {
        hit, fx := ServeRun(link, e);
      }
      if !hit {
        hit, fx := ServeCtrl(link, e);
      }
    }

    /** The timing, power and energy settings. */
    method ServeTimes() returns (hit: bool)
      requires Valid() && Pending(Table(), core.last, Now())
      modifies this`cfg
      ensures Valid() && Chained(core.last, Table()[core.last], old(cfg), hit, hit)
      ensures
        !hit && core.last in {DELAY1, DELAY2, DELAY3, TRIGGER2, TRIGGER3, OUT_POWER, ON_TIME, ENERGY} ==>
          !Differs(cfg, core.last, Table()[core.last])
    {
      hit := true;
      var h := core.holding;
      if h[DELAY1] != cfg.times.delay1 {
        cfg := cfg.(times := cfg.times.(delay1 := AtMost(h[DELAY1], 500)));
      } else if h[DELAY2] != cfg.times.delay2 {
        cfg := cfg.(times := cfg.times.(delay2 := AtMost(h[DELAY2], 500)));
      } else if h[DELAY3] != cfg.times.delay3 {
        cfg := cfg.(times := cfg.times.(delay3 := AtMost(h[DELAY3], 2000)));
      } else if h[TRIGGER2] != cfg.times.trigger2 {
        cfg := cfg.(times := cfg.times.(trigger2 := AtMost(h[TRIGGER2], 500)));
      } else if h[TRIGGER3] != cfg.times.trigger3 {
        cfg := cfg.(times := cfg.times.(trigger3 := AtMost(h[TRIGGER3], 2000)));
      } else if h[OUT_POWER] != cfg.power {
        cfg := cfg.(power := ClampPower(h[OUT_POWER]));
      } else if h[ON_TIME] != cfg.times.onTime {
        cfg := cfg.(times := cfg.times.(onTime := AtMost(h[ON_TIME], 2000)));
      } else if h[ENERGY] != cfg.energy % 0x1_0000 {
        cfg := cfg.(energy := h[ENERGY]);
      } else {
        hit := false;
      }
    }

    /** The two-stage settings and the time limit. */
    method ServeStages() returns (hit: bool)
      requires Valid() && Pending(Table(), core.last, Now())
      modifies this`cfg
      ensures Valid() && Chained(core.last, Table()[core.last], old(cfg), hit, hit)
      ensures
        !hit ==>
          !((MULTI_T1 <= core.last <= MULTI_O2 || core.last == TIMEOVER) && Differs(cfg, core.last, Table()[core.last]))
    {
      hit := true;
      var h := core.holding;
      if h[MULTI_T1] != cfg.multi.time1 {
        cfg := cfg.(multi := cfg.multi.(time1 := AtMost(h[MULTI_T1], 2000)));
      } else if h[MULTI_T2] != cfg.multi.time2 {
        cfg := cfg.(multi := cfg.multi.(time2 := AtMost(h[MULTI_T2], 2000)));
      } else if h[MULTI_O1] != cfg.multi.out1 {
        cfg := cfg.(multi := cfg.multi.(out1 := ClampPower(h[MULTI_O1])));
      } else if h[MULTI_O2] != cfg.multi.out2 {
        cfg := cfg.(multi := cfg.multi.(out2 := ClampPower(h[MULTI_O2])));
      } else if h[TIMEOVER] != cfg.times.outTime {
        cfg := cfg.(times := cfg.times.(outTime := AtMost(h[TIMEOVER], 10)));
      } else {
        hit := false;
      }
    }

    /** The mode flags. */
    method ServeModes() returns (hit: bool, save: bool)
      requires Valid() && Pending(Table(), core.last, Now())
      modifies this`cfg
      ensures Valid() && Chained(core.last, Table()[core.last], old(cfg), hit, save)
      ensures !hit ==> !(RUN_MODE <= core.last <= EN_SAFTY && Differs(cfg, core.last, Table()[core.last]))
    {
      hit, save := true, true;
      var h := core.holding;
      if h[RUN_MODE] != cfg.model.runMode {
        cfg := cfg.(model := cfg.model.(runMode := Lo(h[RUN_MODE])));
      } else if (h[EN_ENERGY] == 0 && cfg.energyCtrl) || (h[EN_ENERGY] == 1 && !cfg.energyCtrl) {
        cfg := cfg.(energyCtrl := h[EN_ENERGY] == 1);
      } else if (h[EN_MULTI] == 0 && cfg.multiCtrl) || (h[EN_MULTI] == 1 && !cfg.multiCtrl) {
        cfg := cfg.(multiCtrl := h[EN_MULTI] == 1);
      } else if h[EN_SAFTY] != cfg.model.safety {
        var sf := if h[EN_SAFTY] == 1 then 1 else 0;
        if sf != cfg.model.safety {
          cfg := cfg.(model := cfg.model.(safety := sf));
        } else {
          save := false;
        }
      } else {
        hit := false;
        save := false;
      }
    }

    method ServeRunSettings() returns (hit: bool, save: bool)
      requires Valid() && Pending(Table(), core.last, Now())
      modifies this`cfg
      ensures Valid() && Chained(core.last, Table()[core.last], old(cfg), hit, save)
      ensures !hit ==> !(OUT_POWER <= core.last <= EN_SAFTY && Differs(cfg, core.last, Table()[core.last]))
    {
      assert core.last < MB.REGS;
      hide SettingWord, WithSetting, Differs, Pending;
      hit := ServeTimes();
      save := hit;
      if !hit {
        hit := ServeStages();
        save := hit;
      }
      if !hit {
        hit, save := ServeModes();
      }
    }

    /** The horn mode: a setting of the machine, not of the configuration. */
    method ServeHorn() returns (hit: bool, fx: seq<Effect>)
      requires Valid() && Pending(Table(), core.last, Now())
      modifies this`horn
      ensures Valid() && hit == (Table()[HORN_CMD] != if old(horn) then 1 else 0)
      ensures hit ==> core.last == HORN_CMD && horn == (Table()[HORN_CMD] != 0) && fx == [HornMode(horn)]
      ensures !hit ==> horn == old(horn) && fx == []
    {
      hit, fx := false, [];
      if core.holding[HORN_CMD] != (if horn then 1 else 0) {
        hit := true;
        horn := core.holding[HORN_CMD] != 0;
        fx := [HornMode(horn)];
      }
    }

    /** Model and calibration. */
    method ServeModel() returns (hit: bool)
      requires Valid() && Pending(Table(), core.last, Now())
      modifies this`cfg
      ensures Valid() && Chained(core.last, Table()[core.last], old(cfg), hit, hit)
      ensures
        !hit && core.last in {MODEL_FREQ, MODEL_TYPE, CAL_VAL, FREQ_CAL_VAL} ==>
          !Differs(cfg, core.last, Table()[core.last])
    {
      hit := true;
      var h := core.holding;
      if h[MODEL_FREQ] != cfg.model.freq {
        cfg := cfg.(model := cfg.model.(freq := Lo(h[MODEL_FREQ])));
      } else if h[MODEL_TYPE] != cfg.model.kind {
        cfg := cfg.(model := cfg.model.(kind := Lo(h[MODEL_TYPE])));
      } else if h[CAL_VAL] != ToWire(cfg.cal) {
        cfg := cfg.(cal := CalFromWire(h[CAL_VAL]));
      } else if h[FREQ_CAL_VAL] != ToWire(cfg.freqCal) {
        cfg := cfg.(freqCal := CalFromWire(h[FREQ_CAL_VAL]));
      } else {
        hit := false;
      }
    }

    /** The end of the chain: the counter reset, then the staged fields. Only
        the register this message wrote is looked at. */
    method ServeRest(e: Env) returns (save: bool)
      requires Valid() && core.last < MB.REGS
      modifies this`cfg, stage, stage.val
      ensures Valid()
      ensures var w, v := old(Now()), Table()[core.last];
        if core.last == WORK_CNTL && v == 0 && w.cfg.workCnt != 0 then Now() == w.(cfg := w.cfg.(workCnt := 0)) && save
        else if IsStaged(core.last) then
          !save && Now() == w.(stage := Written(w.stage, StagedField(core.last), v, e.now))
        else !save && Now() == w
    {
      save := false;
      if core.last == WORK_CNTL && core.holding[WORK_CNTL] == 0 && cfg.workCnt != 0 {
        cfg := cfg.(workCnt := 0);
        save := true;
      } else {
        var i := 0;
        while i < FIELDS
          invariant 0 <= i <= FIELDS && Valid() && Now() == old(Now())
          invariant IsStaged(core.last) ==> i <= StagedField(core.last)
        {
          if StagedReg(i) == core.last {
            StagedRegIsField(i);
            stage.Write(i, core.holding[core.last], e.now);
            return;
          }
          i := i + 1;
        }
      }
    }

    /** A closed gate: every command is cleared, and only STOP is served. */
    method GateReject(link: Link, e: Env)
      requires Valid() && Pending(Table(), core.last, Now()) && !e.gate
      modifies core.holding, arb
      ensures Valid() && Quiet(Table())
      ensures forall b :: 0 <= b < MB.REGS && !IsCommand(b) ==> Table()[b] == old(Table())[b]
      ensures Result(Now(), []) == Gated(old(Now()), link, core.last, old(Table())[core.last], e)
    {
      core.holding[RESET] := 0;
      core.holding[SEEK] := 0;
      core.holding[START] := 0;
      if core.holding[STOP] == 1 {
        arb.Command(Reg.Release, Reg.Comm, Reg.Interlocks(e.seekReset, e.overload, e.estop, horn), e.now);
      }
      core.holding[STOP] := 0;
      core.holding[CFG_CTRL] := 0;
    }

    /** app_modbus_apply_writes: whatever the chain infers from comparing the
        table with the configuration is what the written register's own rule
        says. */
    method ApplyWrites(link: Link, e: Env) returns (fx: seq<Effect>)
      requires Valid() && Pending(Table(), core.last, Now())
      modifies this`cfg, this`horn, core.holding, stage, stage.val, wdt, arb
      ensures Valid() && Quiet(Table())
      ensures forall b :: 0 <= b < MB.REGS && !IsCommand(b) ==> Table()[b] == old(Table())[b]
      ensures Result(Now(), fx) == Gated(old(Now()), link, core.last, old(Table())[core.last], e)
    {
      hide Dispatch, CommandRule;
      if !e.gate {
        GateReject(link, e);
        return [];
      }
      var hit;
      hit, fx := ServeCommands(link, e);
      CommandGroup(core.last);
      DispatchCommand(old(Now()), link, core.last, old(Table())[core.last], e);
      if !hit {
        fx := ServeValues(link, e);
      }
    }

    /** The chain after the commands. */
    method ServeValues(link: Link, e: Env) returns (fx: seq<Effect>)
      requires Valid() && Pending(Table(), core.last, Now())
      modifies this`cfg, this`horn, stage, stage.val
      ensures Valid()
      ensures if IsCommand(core.last) then Now() == old(Now()) && fx == []
        else Result(Now(), fx) == Dispatch(old(Now()), link, core.last, Table()[core.last], e)
    {
      assert core.last < MB.REGS;
      hide SettingWord, WithSetting, Differs, CommandRule, Pending, Written;
      var hit, save := ServeRunSettings();
      if hit {
        fx := if save then [SaveAll(cfg)] else [];
        return;
      }
      fx := ServeOther(link, e);
    }

    /** Horn mode, model, counter reset and staged fields. */
    method ServeOther(link: Link, e: Env) returns (fx: seq<Effect>)
      requires Valid() && Pending(Table(), core.last, Now())
      requires !(OUT_POWER <= core.last <= EN_SAFTY && Differs(cfg, core.last, Table()[core.last]))
      modifies this`cfg, this`horn, stage, stage.val
      ensures Valid()
      ensures if IsCommand(core.last) then Now() == old(Now()) && fx == []
        else Result(Now(), fx) == Dispatch(old(Now()), link, core.last, Table()[core.last], e)
    {
      assert core.last < MB.REGS;
      hide SettingWord, WithSetting, Differs, CommandRule, Pending, Written;
      var hit;
      hit, fx := ServeHorn();
      if !hit {
        fx := ServeLast(link, e);
      }
    }

    method ServeLast(link: Link, e: Env) returns (fx: seq<Effect>)
      requires Valid() && Pending(Table(), core.last, Now())
      requires !(OUT_POWER <= core.last <= EN_SAFTY && Differs(cfg, core.last, Table()[core.last]))
      requires Table()[HORN_CMD] == if horn then 1 else 0
      modifies this`cfg, stage, stage.val
      ensures Valid()
      ensures if IsCommand(core.last) then Now() == old(Now()) && fx == []
        else Result(Now(), fx) == Dispatch(old(Now()), link, core.last, Table()[core.last], e)
    {
      assert core.last < MB.REGS;
      hide SettingWord, WithSetting, Differs, CommandRule, Pending, Written;
      var hit := ServeModel();
      if hit {
        fx := [SaveAll(cfg)];
        return;
      }
      var save := ServeRest(e);
      fx := if save then [SaveAll(cfg)] else [];
    }

    // --- The mirror ---

    method MirrorCfgFields()
      requires Valid()
      modifies core.holding
      ensures Valid() && CfgShown(Table(), cfg)
      ensures forall a :: 0 <= a < MB.REGS && !InCfgPart(a) ==> Table()[a] == old(Table())[a]
    {
      var h := core.holding;
      h[WORK_CNTH] := cfg.workCnt / 0x1_0000;
      h[WORK_CNTL] := cfg.workCnt % 0x1_0000;
      h[DELAY1] := cfg.times.delay1;
      h[DELAY2] := cfg.times.delay2;
      h[DELAY3] := cfg.times.delay3;
      h[TRIGGER2] := cfg.times.trigger2;
      h[TRIGGER3] := cfg.times.trigger3;
      MirrorLimits();
    }

    method MirrorLimits()
      requires Valid()
      modifies core.holding
      ensures Valid() && LimitsShown(Table(), cfg)
      ensures
        forall a :: 0 <= a < MB.REGS && !(OUT_POWER <= a <= TIMEOVER || MULTI_T1 <= a <= MULTI_O2) ==>
          core.holding[a] == old(core.holding[a])
    {
      var h := core.holding;
      h[OUT_POWER] := cfg.power;
      h[ON_TIME] := cfg.times.onTime;
      h[ENERGY] := cfg.energy % 0x1_0000;
      h[MULTI_T1] := cfg.multi.time1;
      h[MULTI_T2] := cfg.multi.time2;
      h[MULTI_O1] := cfg.multi.out1;
      h[MULTI_O2] := cfg.multi.out2;
      h[TIMEOVER] := cfg.times.outTime;
    }

    method MirrorStatus(i: Inputs)
      requires Valid()
      modifies core.holding
      ensures Valid() && StatusShown(Table(), cfg, arb.m, horn, i)
      ensures forall a :: 0 <= a < MB.REGS && !InStatusPart(a) ==> Table()[a] == old(Table())[a]
    {
      var h, m := core.holding, arb.m;
      h[DISP_POWER] := if m.live then m.maxPower else m.lastPower;
      h[DISP_AMP] := if m.live then m.maxAmp else m.lastAmp;
      h[DISP_FREQ] := if m.live then m.currFreq else m.lastFreq;
      h[DISP_ENERGY] := if m.live then m.currEnergy % 0x1_0000 else m.lastEnergy % 0x1_0000;
      MirrorModes();
      h[STATUS] := StatusBits(m.run != Reg.Idle, i, m.fault, horn);
    }

    method MirrorModes()
      requires Valid()
      modifies core.holding
      ensures Valid() && ModesShown(Table(), cfg)
      ensures forall a :: 0 <= a < MB.REGS && !(RUN_MODE <= a <= MODEL_TYPE || a == CAL_VAL || a == FREQ_CAL_VAL) ==>
        core.holding[a] == old(core.holding[a])
    {
      var h := core.holding;
      h[MODEL_FREQ] := cfg.model.freq;
      h[MODEL_TYPE] := cfg.model.kind;
      h[RUN_MODE] := cfg.model.runMode;
      h[EN_ENERGY] := if cfg.energyCtrl then 1 else 0;
      h[EN_MULTI] := if cfg.multiCtrl then 1 else 0;
      h[EN_SAFTY] := cfg.model.safety;
      h[CAL_VAL] := ToWire(cfg.cal);
      h[FREQ_CAL_VAL] := ToWire(cfg.freqCal);
    }

    method MirrorStageAndGate(i: Inputs, remoteModel: bool)
      requires Valid()
      modifies core.holding
      ensures Valid() && GateShown(Table(), old(Table()), Now(), i, remoteModel)
      ensures forall a :: 0 <= a < MB.REGS && IsStaged(a) ==>
        Table()[a] == if StagedField(a) in stage.dirty then old(Table())[a] else Live(cfg.net, StagedField(a))
      ensures forall a :: 0 <= a < MB.REGS && !InGatePart(a) && !IsStaged(a) ==> Table()[a] == old(Table())[a]
    {
      MirrorLink();
      MirrorStaged();
      if remoteModel {
        var h := core.holding;
        h[REMOTE_CAP] := REMOTE_CAP_MAGIC;
        h[REMOTE_EN] := i.gateState;
        h[REMOTE_EN_LEFT] := 0;
      }
    }

    method MirrorLink()
      requires Valid()
      modifies core.holding
      ensures Valid() && LinkShown(core.holding[..], cfg, stage.stat, horn)
      ensures
        forall a :: 0 <= a < MB.REGS && a !in {COMM_MODE, CFG_STAT, CFG_CAP, FEAT_CAP, HORN_CMD} ==>
          core.holding[a] == old(core.holding[a])
    {
      var h := core.holding;
      h[COMM_MODE] := cfg.net.mode;
      h[CFG_STAT] := stage.stat.Code();
      h[CFG_CAP] := CFG_CAP_MAGIC;
      h[FEAT_CAP] := FEAT_HOLD_WDT;
      h[HORN_CMD] := if horn then 1 else 0;
    }

    /** Staged fields under edit keep the word the master wrote. */
    method MirrorStaged()
      requires Valid()
      modifies core.holding
      ensures Valid()
      ensures forall a :: 0 <= a < MB.REGS && IsStaged(a) ==>
        core.holding[a] == if StagedField(a) in stage.dirty then old(core.holding[a]) else Live(cfg.net, StagedField(a))
      ensures forall a :: 0 <= a < MB.REGS && !IsStaged(a) ==> core.holding[a] == old(core.holding[a])
    {
      var i := 0;
      while i < FIELDS
        invariant 0 <= i <= FIELDS && Valid()
        invariant forall a :: 0 <= a < MB.REGS ==>
          core.holding[a] ==
          if IsStaged(a) && StagedField(a) < i && StagedField(a) !in stage.dirty then Live(cfg.net, StagedField(a))
          else old(core.holding[a])
      {
        if i !in stage.dirty {
          core.holding[StagedReg(i)] := Live(cfg.net, i);
        }
        i := i + 1;
      }
    }

    /** mirror_live. */
    method Mirror(i: Inputs, remoteModel: bool)
      requires Valid() && Quiet(Table())
      modifies core.holding
      ensures Valid() && Table() == MirrorOf(old(Table()), Now(), i, remoteModel)
      ensures Quiet(Table()) && InSync(Table(), Now())
    {
      hide Projection, CfgShown, StatusShown, GateShown, MirrorOf, Quiet, InSync;
      ghost var w, h0 := Now(), Table();
      MirrorCfgFields();
      ghost var h1 := Table();
      MirrorStatus(i);
      ghost var h2 := Table();
      MirrorStageAndGate(i, remoteModel);
      assert Now() == w;
      PartsMirror(h0, h1, h2, Table(), w, i, remoteModel);
      MirrorSyncs(h0, w, i, remoteModel);
    }

    /** A link of the chain either served the pending setting or left the
        settings alone. */
    ghost predicate Chained(a: nat, v: u16, c0: Cfg, hit: bool, save: bool)
      reads this
    {
      if hit then IsSetting(a) && save == Differs(c0, a, v) && cfg == if save then WithSetting(c0, a, v) else c0
      else !save && cfg == c0
    }
  }
}
