/** What a remote register write means: one rule per register, stated directly
    on the machine's settings and without any register table. */
module Remote {
  import opened Words
  import opened Config
  import opened CfgStage
  import Reg = Regulator
  import HoldWatchdog

  // --- The register map ---

  const WORK_CNTH: nat := 0x00
  const WORK_CNTL: nat := 0x01
  const DISP_POWER: nat := 0x02
  const DISP_AMP: nat := 0x03
  const DISP_FREQ: nat := 0x04
  const DISP_ENERGY: nat := 0x05
  const OUT_POWER: nat := 0x06
  const ON_TIME: nat := 0x07
  const ENERGY: nat := 0x08
  const TIMEOVER: nat := 0x09
  const DELAY1: nat := 0x0A
  const DELAY2: nat := 0x0B
  const DELAY3: nat := 0x0C
  const TRIGGER2: nat := 0x0D
  const TRIGGER3: nat := 0x0E
  const MULTI_T1: nat := 0x0F
  const MULTI_T2: nat := 0x10
  const MULTI_O1: nat := 0x11
  const MULTI_O2: nat := 0x12
  const RUN_MODE: nat := 0x13
  const EN_ENERGY: nat := 0x14
  const EN_MULTI: nat := 0x15
  const EN_SAFTY: nat := 0x16
  const MODEL_FREQ: nat := 0x17
  const MODEL_TYPE: nat := 0x18
  const RESET: nat := 0x19
  const SEEK: nat := 0x1A
  const START: nat := 0x1B
  const STOP: nat := 0x1C
  const STATUS: nat := 0x1D
  const COMM_MODE: nat := 0x21
  const CFG_CTRL: nat := 0x28
  const CFG_STAT: nat := 0x29
  const REMOTE_CAP: nat := 0x2A
  const REMOTE_EN: nat := 0x2B
  const REMOTE_EN_LEFT: nat := 0x2C
  const CAL_VAL: nat := 0x2E
  const FREQ_CAL_VAL: nat := 0x2F
  const HORN_CMD: nat := 0x30
  const CFG_CAP: nat := 0x31
  const FEAT_CAP: nat := 0x32

  const START_TAP: u16 := 1
  const START_HOLD: u16 := 2
  const START_KEEP: u16 := 3

  predicate IsCommand(a: nat) { a == RESET || a == SEEK || a == START || a == STOP || a == CFG_CTRL }

  /** The registers the source compares with the configuration. */
  predicate IsSetting(a: nat) {
    (OUT_POWER <= a <= MODEL_TYPE) || a == CAL_VAL || a == FREQ_CAL_VAL
  }

  /** The register of staged field `i`, and back. */
  function StagedReg(i: nat): (a: nat) {
    if i < 3 then 0x1E + i else 0x1F + i
  }

  predicate IsStaged(a: nat) { 0x1E <= a <= 0x20 || 0x22 <= a <= 0x27 }

  function StagedField(a: nat): (i: nat)
    requires IsStaged(a)
    ensures i < FIELDS && StagedReg(i) == a
  {
    if a <= 0x20 then a - 0x1E else a - 0x1F
  }

  lemma StagedRegIsField(i: nat)
    requires i < FIELDS
    ensures IsStaged(StagedReg(i)) && StagedField(StagedReg(i)) == i
  {
  }

  // --- The machine as the remote side can affect it ---

  datatype World = World(cfg: Cfg, horn: bool, stage: Stage, wdt: HoldWatchdog.Wdt, core: Reg.Core) {
    ghost predicate Valid() { stage.Valid() }
  }

  /** Calls into other parts of the firmware, in order. */
  datatype Effect =
    | SeekReset(cmd: Reg.Command)
    | SetPot(power: byte)
    | SaveAll(cfg: Cfg)
    | EtherApply(net: Net)
    | HornMode(on: bool)

  datatype Result = Result(w: World, fx: seq<Effect>)

  /** The surroundings of one message: the remote-enable gate, the other
      machines' states, and the clock. */
  datatype Env = Env(gate: bool, seekReset: bool, overload: bool, estop: bool, now: u32)

  function Locks(w: World, e: Env): Reg.Interlocks {
    Reg.Interlocks(e.seekReset, e.overload, e.estop, w.horn)
  }

  function Ordered(w: World, cmd: Reg.Command, e: Env): World {
    w.(core := Reg.Commanded(w.core, cmd, Reg.Comm, Locks(w, e), e.now))
  }

  // --- Settings ---

  /** The word a setting shows in its register. */
  function SettingWord(a: nat, c: Cfg): (v: u16) {
    if a == DELAY1 then c.times.delay1
    else if a == DELAY2 then c.times.delay2
    else if a == DELAY3 then c.times.delay3
    else if a == TRIGGER2 then c.times.trigger2
    else if a == TRIGGER3 then c.times.trigger3
    else if a == OUT_POWER then c.power
    else if a == ON_TIME then c.times.onTime
    else if a == ENERGY then c.energy % 0x1_0000
    else if a == MULTI_T1 then c.multi.time1
    else if a == MULTI_T2 then c.multi.time2
    else if a == MULTI_O1 then c.multi.out1
    else if a == MULTI_O2 then c.multi.out2
    else if a == TIMEOVER then c.times.outTime
    else if a == RUN_MODE then c.model.runMode
    else if a == EN_ENERGY then (if c.energyCtrl then 1 else 0)
    else if a == EN_MULTI then (if c.multiCtrl then 1 else 0)
    else if a == EN_SAFTY then c.model.safety
    else if a == MODEL_FREQ then c.model.freq
    else if a == MODEL_TYPE then c.model.kind
    else if a == CAL_VAL then ToWire(c.cal)
    else ToWire(c.freqCal)
  }

  const CAL_MAX: int := 1000

  /** Two's complement first, then the symmetric clamp. */
  function CalFromWire(v: u16): (r: s16)
    ensures -CAL_MAX <= r <= CAL_MAX
  {
    var s := FromWire(v);
    if s > CAL_MAX then CAL_MAX else if s < -CAL_MAX then -CAL_MAX else s
  }

  /** The configuration with word `v` written to a setting. */
  function WithSetting(c: Cfg, a: nat, v: u16): Cfg {
    if a == DELAY1 then c.(times := c.times.(delay1 := AtMost(v, 500)))
    else if a == DELAY2 then c.(times := c.times.(delay2 := AtMost(v, 500)))
    else if a == DELAY3 then c.(times := c.times.(delay3 := AtMost(v, 2000)))
    else if a == TRIGGER2 then c.(times := c.times.(trigger2 := AtMost(v, 500)))
    else if a == TRIGGER3 then c.(times := c.times.(trigger3 := AtMost(v, 2000)))
    else if a == OUT_POWER then c.(power := ClampPower(v))
    else if a == ON_TIME then c.(times := c.times.(onTime := AtMost(v, 2000)))
    else if a == ENERGY then c.(energy := v)
    else if a == MULTI_T1 then c.(multi := c.multi.(time1 := AtMost(v, 2000)))
    else if a == MULTI_T2 then c.(multi := c.multi.(time2 := AtMost(v, 2000)))
    else if a == MULTI_O1 then c.(multi := c.multi.(out1 := ClampPower(v)))
    else if a == MULTI_O2 then c.(multi := c.multi.(out2 := ClampPower(v)))
    else if a == TIMEOVER then c.(times := c.times.(outTime := AtMost(v, 10)))
    else if a == RUN_MODE then c.(model := c.model.(runMode := Lo(v)))
    else if a == EN_ENERGY then c.(energyCtrl := v == 1)
    else if a == EN_MULTI then c.(multiCtrl := v == 1)
    else if a == EN_SAFTY then c.(model := c.model.(safety := if v == 1 then 1 else 0))
    else if a == MODEL_FREQ then c.(model := c.model.(freq := Lo(v)))
    else if a == MODEL_TYPE then c.(model := c.model.(kind := Lo(v)))
    else if a == CAL_VAL then c.(cal := CalFromWire(v))
    else c.(freqCal := CalFromWire(v))
  }

  /** A write acts only when it differs from what is shown; the two enables
      know only 0 and 1; the safety flag is normalised first. */
  predicate Differs(c: Cfg, a: nat, v: u16) {
    && v != SettingWord(a, c)
    && (a == EN_ENERGY || a == EN_MULTI ==> v <= 1)
    && (a == EN_SAFTY ==> (if v == 1 then 1 else 0) != c.model.safety)
  }

  function Saved(w: World, c: Cfg): Result { Result(w.(cfg := c), [SaveAll(c)]) }

  function SettingRule(w: World, a: nat, v: u16): Result {
    if Differs(w.cfg, a, v) then Saved(w, WithSetting(w.cfg, a, v)) else Result(w, [])
  }

  // --- Commands ---

  function StartRule(w: World, v: u16, e: Env): Result {
    if v == START_TAP then Result(Ordered(w, Reg.Start, e), [SetPot(w.cfg.power)])
    else if v == START_HOLD then
      if Reg.StartAllowed(w.core.reg, Locks(w, e)) then
        Result(Ordered(w, Reg.Start, e).(wdt := HoldWatchdog.Wdt(true, e.now)), [SetPot(w.cfg.power)])
      else Result(w.(wdt := HoldWatchdog.Kept(w.wdt, e.now)), [])
    else if v == START_KEEP then Result(w.(wdt := HoldWatchdog.Kept(w.wdt, e.now)), [])
    else Result(w, [])
  }

  function CommitRule(w: World, link: Link, v: u16): Result
    requires w.Valid()
  {
    if v == 1 then
      var running := w.core.m.live;
      var s := Committed(w.stage, link, running);
      if Commits(w.stage, link, running) then
        var c := w.cfg.(net := Taken(w.cfg.net, w.stage.dirty, w.stage.val));
        Result(w.(cfg := c, stage := s),
          (if w.stage.dirty * ETHER != {} then [EtherApply(c.net)] else []) + [SaveAll(c)])
      else Result(w.(stage := s), [])
    else if v == 2 then Result(w.(stage := Discarded(w.stage)), [])
    else Result(w, [])
  }

  function CommandRule(w: World, link: Link, a: nat, v: u16, e: Env): Result
    requires w.Valid()
  {
    if a == RESET then (if v == 1 then Result(Ordered(w, Reg.Reset, e), [SeekReset(Reg.Reset)]) else Result(w, []))
    else if a == SEEK then (if v == 1 then Result(Ordered(w, Reg.Seek, e), [SeekReset(Reg.Seek)]) else Result(w, []))
    else if a == START then StartRule(w, v, e)
    else if a == STOP then (if v == 1 then Result(Ordered(w, Reg.Release, e), []) else Result(w, []))
    else CommitRule(w, link, v)
  }

  // --- The dispatch ---

  /** One register write with the gate open. Registers without a rule do
      nothing. */
  function Dispatch(w: World, link: Link, a: nat, v: u16, e: Env): (r: Result)
    requires w.Valid()
    ensures r.w.Valid()
  {
    if IsCommand(a) then CommandRule(w, link, a, v, e)
    else if IsSetting(a) then SettingRule(w, a, v)
    else if a == HORN_CMD then
      if v != (if w.horn then 1 else 0) then Result(w.(horn := v != 0), [HornMode(v != 0)]) else Result(w, [])
    else if a == WORK_CNTL then
      if v == 0 && w.cfg.workCnt != 0 then Saved(w, w.cfg.(workCnt := 0)) else Result(w, [])
    else if IsStaged(a) then Result(w.(stage := Written(w.stage, StagedField(a), v, e.now)), [])
    else Result(w, [])
  }

  /** With the gate closed only STOP acts. */
  function Gated(w: World, link: Link, a: nat, v: u16, e: Env): (r: Result)
    requires w.Valid()
    ensures r.w.Valid()
  {
    if e.gate then Dispatch(w, link, a, v, e)
    else if a == STOP && v == 1 then Result(Ordered(w, Reg.Release, e), [])
    else Result(w, [])
  }

  // --- What the dispatch says ---

  /** A write to a setting either changes nothing, or changes that setting
      alone, leaving in it the clamped word; every other setting shows what it
      showed, and nothing but the configuration changes. */
  lemma SettingChangesOnlyItself(w: World, link: Link, a: nat, v: u16, e: Env, b: nat)
    requires w.Valid() && IsSetting(a) && IsSetting(b) && a != b
    ensures var r := Dispatch(w, link, a, v, e);
      && SettingWord(b, r.w.cfg) == SettingWord(b, w.cfg)
      && r.w == w.(cfg := r.w.cfg)
      && r.w.cfg.workCnt == w.cfg.workCnt && r.w.cfg.net == w.cfg.net
      && (r.w.cfg != w.cfg ==> r.fx == [SaveAll(r.w.cfg)])
  {
    OtherSettingsKept(w.cfg, a, v, b);
    hide WithSetting, SettingWord, Differs;
  }

  lemma OtherSettingsKept(c: Cfg, a: nat, v: u16, b: nat)
    requires IsSetting(a) && IsSetting(b) && a != b
    ensures SettingWord(b, WithSetting(c, a, v)) == SettingWord(b, c)
    ensures WithSetting(c, a, v).workCnt == c.workCnt && WithSetting(c, a, v).net == c.net
  {
    hide SettingWord, WithSetting;
    if a < MULTI_T1 {
      LowSettingKeepsOthers(c, a, v, b);
    } else {
      HighSettingKeepsOthers(c, a, v, b);
    }
  }

  lemma LowSettingKeepsOthers(c: Cfg, a: nat, v: u16, b: nat)
    requires IsSetting(a) && IsSetting(b) && a != b && a < MULTI_T1
    ensures SettingWord(b, WithSetting(c, a, v)) == SettingWord(b, c)
    ensures WithSetting(c, a, v).workCnt == c.workCnt && WithSetting(c, a, v).net == c.net
  {
    hide AtMost, ClampPower, CalFromWire, ToWire, Lo;
  }

  lemma HighSettingKeepsOthers(c: Cfg, a: nat, v: u16, b: nat)
    requires IsSetting(a) && IsSetting(b) && a != b && a >= MULTI_T1
    ensures SettingWord(b, WithSetting(c, a, v)) == SettingWord(b, c)
    ensures WithSetting(c, a, v).workCnt == c.workCnt && WithSetting(c, a, v).net == c.net
  {
    hide AtMost, ClampPower, CalFromWire, ToWire, Lo;
  }

  /** Writing back what a setting shows never does anything. */
  lemma WriteBackIsSilent(w: World, link: Link, a: nat, e: Env)
    requires w.Valid() && IsSetting(a)
    ensures Dispatch(w, link, a, SettingWord(a, w.cfg), e) == Result(w, [])
  {
  }

  /** Writing the same word again leaves the machine as the first write did. */
  lemma SettingIdempotent(w: World, link: Link, a: nat, v: u16, e: Env)
    requires w.Valid() && IsSetting(a)
    ensures var r := Dispatch(w, link, a, v, e); Dispatch(r.w, link, a, v, e).w == r.w
  {
    WrittenTwice(w.cfg, a, v);
    hide WithSetting, Differs;
  }

  lemma WrittenTwice(c: Cfg, a: nat, v: u16)
    requires IsSetting(a)
    ensures WithSetting(WithSetting(c, a, v), a, v) == WithSetting(c, a, v)
  {
    hide WithSetting;
    if a < MULTI_T1 {
      LowWrittenTwice(c, a, v);
    } else {
      HighWrittenTwice(c, a, v);
    }
  }

  lemma LowWrittenTwice(c: Cfg, a: nat, v: u16)
    requires IsSetting(a) && a < MULTI_T1
    ensures WithSetting(WithSetting(c, a, v), a, v) == WithSetting(c, a, v)
  {
    hide AtMost, ClampPower, CalFromWire, Lo;
  }

  lemma HighWrittenTwice(c: Cfg, a: nat, v: u16)
    requires IsSetting(a) && a >= MULTI_T1
    ensures WithSetting(WithSetting(c, a, v), a, v) == WithSetting(c, a, v)
  {
    hide AtMost, ClampPower, CalFromWire, Lo;
  }

  /** The accepted range of the clamped settings. */
  function RangeOf(a: nat): (u16, u16) {
    if a == DELAY1 || a == DELAY2 || a == TRIGGER2 then (0, 500)
    else if a == OUT_POWER || a == MULTI_O1 || a == MULTI_O2 then (50, 100)
    else if a == TIMEOVER then (0, 10)
    else if a == DELAY3 || a == TRIGGER3 || a == ON_TIME || a == MULTI_T1 || a == MULTI_T2 then (0, 2000)
    else if a == EN_ENERGY || a == EN_MULTI || a == EN_SAFTY then (0, 1)
    else if a == RUN_MODE || a == MODEL_FREQ || a == MODEL_TYPE then (0, 255)
    else (0, 0xFFFF)
  }

  /** A write that acts leaves the setting in range, and shows the written
      word itself when that was in range. */
  lemma SettingLandsInRange(w: World, link: Link, a: nat, v: u16, e: Env)
    requires w.Valid() && IsSetting(a) && a != CAL_VAL && a != FREQ_CAL_VAL && Differs(w.cfg, a, v)
    ensures var shown := SettingWord(a, Dispatch(w, link, a, v, e).w.cfg);
      && RangeOf(a).0 <= shown <= RangeOf(a).1
      && (RangeOf(a).0 <= v <= RangeOf(a).1 ==> shown == v)
  {
  }
}
