/** The register map, both ways: which field of the machine a written register
    sets, and which one a read register shows. */
module RemoteRegisters {
  import opened Words
  import opened Config
  import opened CfgStage
  import opened Remote
  import opened RemoteControl
  import Reg = Regulator
  import MB = ModbusCore

  // --- Writing ---

  function Least(v: u16, max: u16): (r: u16) { if v > max then max else v }

  function Percent(v: u16): (r: byte) { if v > 100 then 100 else if v < 50 then 50 else v }

  /** A write that acts stores the configuration and saves it. */
  function Acts(w: World, on: bool, c: Cfg): Result { if on then Result(w.(cfg := c), [SaveAll(c)]) else Result(w, []) }

  lemma SettingWrite(w: World, link: Link, a: nat, v: u16, e: Env)
    requires w.Valid() && e.gate && IsSetting(a)
    ensures Gated(w, link, a, v, e) == Acts(w, Differs(w.cfg, a, v), WithSetting(w.cfg, a, v))
  {
    hide Differs, WithSetting;
  }

  /** The delays and trigger times, in hundredths of a second. */
  lemma DelayWrites(w: World, link: Link, v: u16, e: Env)
    requires w.Valid() && e.gate
    ensures
      var c, t := w.cfg, w.cfg.times;
      && Gated(w, link, 0x0A, v, e) == Acts(w, v != t.delay1, c.(times := t.(delay1 := Least(v, 500))))
      && Gated(w, link, 0x0B, v, e) == Acts(w, v != t.delay2, c.(times := t.(delay2 := Least(v, 500))))
      && Gated(w, link, 0x0C, v, e) == Acts(w, v != t.delay3, c.(times := t.(delay3 := Least(v, 2000))))
      && Gated(w, link, 0x0D, v, e) == Acts(w, v != t.trigger2, c.(times := t.(trigger2 := Least(v, 500))))
      && Gated(w, link, 0x0E, v, e) == Acts(w, v != t.trigger3, c.(times := t.(trigger3 := Least(v, 2000))))
  {
    SettingWrite(w, link, 0x0A, v, e);
    SettingWrite(w, link, 0x0B, v, e);
    SettingWrite(w, link, 0x0C, v, e);
    SettingWrite(w, link, 0x0D, v, e);
    SettingWrite(w, link, 0x0E, v, e);
    DelayFields(w.cfg, v);
    hide Gated, Differs, WithSetting, Acts, Least;
  }

  lemma DelayFields(c: Cfg, v: u16)
    ensures
      var t := c.times;
      && Differs(c, 0x0A, v) == (v != t.delay1) && Differs(c, 0x0B, v) == (v != t.delay2)
      && Differs(c, 0x0C, v) == (v != t.delay3) && Differs(c, 0x0D, v) == (v != t.trigger2)
      && Differs(c, 0x0E, v) == (v != t.trigger3)
    ensures
      var t := c.times;
      && WithSetting(c, 0x0A, v) == c.(times := t.(delay1 := Least(v, 500)))
      && WithSetting(c, 0x0B, v) == c.(times := t.(delay2 := Least(v, 500)))
      && WithSetting(c, 0x0C, v) == c.(times := t.(delay3 := Least(v, 2000)))
      && WithSetting(c, 0x0D, v) == c.(times := t.(trigger2 := Least(v, 500)))
      && WithSetting(c, 0x0E, v) == c.(times := t.(trigger3 := Least(v, 2000)))
  {
  }

  lemma LimitFields(c: Cfg, v: u16)
    ensures
      var t := c.times;
      && Differs(c, 0x06, v) == (v != c.power) && Differs(c, 0x07, v) == (v != t.onTime)
      && Differs(c, 0x08, v) == (v != c.energy % 0x1_0000) && Differs(c, 0x09, v) == (v != t.outTime)
    ensures
      var t := c.times;
      && WithSetting(c, 0x06, v) == c.(power := Percent(v)) && WithSetting(c, 0x08, v) == c.(energy := v)
      && WithSetting(c, 0x07, v) == c.(times := t.(onTime := Least(v, 2000)))
      && WithSetting(c, 0x09, v) == c.(times := t.(outTime := Least(v, 10)))
  {
  }

  lemma StageFields(c: Cfg, v: u16)
    ensures
      var m := c.multi;
      && Differs(c, 0x0F, v) == (v != m.time1) && Differs(c, 0x10, v) == (v != m.time2)
      && Differs(c, 0x11, v) == (v != m.out1) && Differs(c, 0x12, v) == (v != m.out2)
    ensures
      var m := c.multi;
      && WithSetting(c, 0x0F, v) == c.(multi := m.(time1 := Least(v, 2000)))
      && WithSetting(c, 0x10, v) == c.(multi := m.(time2 := Least(v, 2000)))
      && WithSetting(c, 0x11, v) == c.(multi := m.(out1 := Percent(v)))
      && WithSetting(c, 0x12, v) == c.(multi := m.(out2 := Percent(v)))
  {
  }

  lemma ModeFields(c: Cfg, v: u16)
    ensures
      var m, flag := c.model, if v == 1 then 1 else 0;
      && Differs(c, 0x13, v) == (v != m.runMode) && Differs(c, 0x17, v) == (v != m.freq)
      && Differs(c, 0x18, v) == (v != m.kind) && Differs(c, 0x14, v) == (v <= 1 && c.energyCtrl != (v == 1))
      && Differs(c, 0x15, v) == (v <= 1 && c.multiCtrl != (v == 1))
      && Differs(c, 0x16, v) == (v != m.safety && flag != m.safety)
    ensures
      var m, flag := c.model, if v == 1 then 1 else 0;
      && WithSetting(c, 0x13, v) == c.(model := m.(runMode := v % 0x100))
      && WithSetting(c, 0x14, v) == c.(energyCtrl := v == 1) && WithSetting(c, 0x15, v) == c.(multiCtrl := v == 1)
      && WithSetting(c, 0x16, v) == c.(model := m.(safety := flag))
      && WithSetting(c, 0x17, v) == c.(model := m.(freq := v % 0x100))
      && WithSetting(c, 0x18, v) == c.(model := m.(kind := v % 0x100))
  {
  }

  /** Power, limits and the two-stage settings. */
  lemma LimitWrites(w: World, link: Link, v: u16, e: Env)
    requires w.Valid() && e.gate
    ensures
      var c, t, m := w.cfg, w.cfg.times, w.cfg.multi;
      && Gated(w, link, 0x06, v, e) == Acts(w, v != c.power, c.(power := Percent(v)))
      && Gated(w, link, 0x07, v, e) == Acts(w, v != t.onTime, c.(times := t.(onTime := Least(v, 2000))))
      && Gated(w, link, 0x08, v, e) == Acts(w, v != c.energy % 0x1_0000, c.(energy := v))
      && Gated(w, link, 0x09, v, e) == Acts(w, v != t.outTime, c.(times := t.(outTime := Least(v, 10))))
      && Gated(w, link, 0x0F, v, e) == Acts(w, v != m.time1, c.(multi := m.(time1 := Least(v, 2000))))
      && Gated(w, link, 0x10, v, e) == Acts(w, v != m.time2, c.(multi := m.(time2 := Least(v, 2000))))
      && Gated(w, link, 0x11, v, e) == Acts(w, v != m.out1, c.(multi := m.(out1 := Percent(v))))
      && Gated(w, link, 0x12, v, e) == Acts(w, v != m.out2, c.(multi := m.(out2 := Percent(v))))
  {
    SettingWrite(w, link, 0x06, v, e);
    SettingWrite(w, link, 0x07, v, e);
    SettingWrite(w, link, 0x08, v, e);
    SettingWrite(w, link, 0x09, v, e);
    SettingWrite(w, link, 0x0F, v, e);
    SettingWrite(w, link, 0x10, v, e);
    SettingWrite(w, link, 0x11, v, e);
    SettingWrite(w, link, 0x12, v, e);
    LimitFields(w.cfg, v);
    StageFields(w.cfg, v);
    hide Gated, Differs, WithSetting, Acts, Least, Percent;
  }

  /** The modes: the enables know only 0 and 1, and a safety word counts as 1
      or as 0. */
  lemma ModeWrites(w: World, link: Link, v: u16, e: Env)
    requires w.Valid() && e.gate
    ensures
      var c, m, flag := w.cfg, w.cfg.model, if v == 1 then 1 else 0;
      && Gated(w, link, 0x13, v, e) == Acts(w, v != m.runMode, c.(model := m.(runMode := v % 0x100)))
      && Gated(w, link, 0x14, v, e) == Acts(w, v <= 1 && c.energyCtrl != (v == 1), c.(energyCtrl := v == 1))
      && Gated(w, link, 0x15, v, e) == Acts(w, v <= 1 && c.multiCtrl != (v == 1), c.(multiCtrl := v == 1))
      && Gated(w, link, 0x16, v, e) ==
        Acts(w, v != m.safety && flag != m.safety, c.(model := m.(safety := flag)))
      && Gated(w, link, 0x17, v, e) == Acts(w, v != m.freq, c.(model := m.(freq := v % 0x100)))
      && Gated(w, link, 0x18, v, e) == Acts(w, v != m.kind, c.(model := m.(kind := v % 0x100)))
  {
    SettingWrite(w, link, 0x13, v, e);
    SettingWrite(w, link, 0x14, v, e);
    SettingWrite(w, link, 0x15, v, e);
    SettingWrite(w, link, 0x16, v, e);
    SettingWrite(w, link, 0x17, v, e);
    SettingWrite(w, link, 0x18, v, e);
    ModeFields(w.cfg, v);
    hide Gated, Differs, WithSetting, Acts;
  }

  /** The two calibrations, two's complement and within 1000 of zero; the horn
      mode; and the counter, which only a zero clears. */
  lemma OtherWrites(w: World, link: Link, v: u16, e: Env)
    requires w.Valid() && e.gate
    ensures
      var c, s := w.cfg, if v < 0x8000 then v else v - 0x1_0000;
      var cal := if s > 1000 then 1000 else if s < -1000 then -1000 else s;
      && Gated(w, link, 0x2E, v, e) == Acts(w, s != c.cal, c.(cal := cal))
      && Gated(w, link, 0x2F, v, e) == Acts(w, s != c.freqCal, c.(freqCal := cal))
      && Gated(w, link, 0x30, v, e) ==
        (if v == (if w.horn then 1 else 0) then Result(w, []) else Result(w.(horn := v != 0), [HornMode(v != 0)]))
      && Gated(w, link, 0x01, v, e) == Acts(w, v == 0 && c.workCnt != 0, c.(workCnt := 0))
  {
    SettingWrite(w, link, 0x2E, v, e);
    SettingWrite(w, link, 0x2F, v, e);
    CalFields(w.cfg, v);
    hide Differs, WithSetting;
  }

  lemma CalFields(c: Cfg, v: u16)
    ensures
      var s := if v < 0x8000 then v else v - 0x1_0000;
      var cal := if s > 1000 then 1000 else if s < -1000 then -1000 else s;
      && Differs(c, 0x2E, v) == (s != c.cal) && WithSetting(c, 0x2E, v) == c.(cal := cal)
      && Differs(c, 0x2F, v) == (s != c.freqCal) && WithSetting(c, 0x2F, v) == c.(freqCal := cal)
  {
    WordsApart(v, c.cal);
    WordsApart(v, c.freqCal);
    hide ToWire;
  }

  /** The staged fields, in register order. */
  lemma StagedWrites(w: World, link: Link, i: nat, v: u16, e: Env)
    requires w.Valid() && e.gate && i < 9
    ensures
      Gated(w, link, if i < 3 then 0x1E + i else 0x1F + i, v, e) ==
        Result(w.(stage := Stage(w.stage.val[i := v], w.stage.dirty + {i}, e.now, Staged)), [])
  {
    StagedRegIsField(i);
    hide SettingRule;
  }

  /** A word shows a signed value exactly when that is its own. */
  lemma WordsApart(v: u16, c: s16)
    ensures v == ToWire(c) <==> (if v < 0x8000 then v else v - 0x1_0000) == c
  {
  }

  /** The registers that can be written to any effect; through a closed gate
      only STOP=1 can. */
  lemma NothingElse(w: World, link: Link, a: nat, v: u16, e: Env)
    requires w.Valid()
    requires (!e.gate && !(a == 0x1C && v == 1))
      || !(a == 0x01 || 0x06 <= a <= 0x1C || 0x1E <= a <= 0x20 || 0x22 <= a <= 0x28 || 0x2E <= a <= 0x30)
    ensures Gated(w, link, a, v, e) == Result(w, [])
  {
  }

  // --- Reading ---

  lemma SettingShown(h0: seq<u16>, w: World, i: Inputs, remoteModel: bool, a: nat)
    requires w.Valid() && |h0| == 51 && IsSetting(a)
    ensures MirrorOf(h0, w, i, remoteModel)[a] == SettingWord(a, w.cfg)
  {
    hide SettingWord, Live, StatusBits;
  }

  /** After a mirror the register table shows the settings, word by word. */
  lemma SettingsShown(h0: seq<u16>, w: World, i: Inputs, remoteModel: bool)
    requires w.Valid() && |h0| == 51
    ensures
      var h, c := MirrorOf(h0, w, i, remoteModel), w.cfg;
      && (h[0x00] as int) * 0x1_0000 + h[0x01] == c.workCnt && h[0x06] == c.power && h[0x08] == c.energy % 0x1_0000
      && h[0x07] == c.times.onTime && h[0x09] == c.times.outTime
      && h[0x0A] == c.times.delay1 && h[0x0B] == c.times.delay2 && h[0x0C] == c.times.delay3
      && h[0x0D] == c.times.trigger2 && h[0x0E] == c.times.trigger3
      && h[0x0F] == c.multi.time1 && h[0x10] == c.multi.time2 && h[0x11] == c.multi.out1 && h[0x12] == c.multi.out2
  {
    SettingShown(h0, w, i, remoteModel, 0x06);
    SettingShown(h0, w, i, remoteModel, 0x07);
    SettingShown(h0, w, i, remoteModel, 0x08);
    SettingShown(h0, w, i, remoteModel, 0x09);
    SettingShown(h0, w, i, remoteModel, 0x0A);
    SettingShown(h0, w, i, remoteModel, 0x0B);
    SettingShown(h0, w, i, remoteModel, 0x0C);
    SettingShown(h0, w, i, remoteModel, 0x0D);
    SettingShown(h0, w, i, remoteModel, 0x0E);
    SettingShown(h0, w, i, remoteModel, 0x0F);
    SettingShown(h0, w, i, remoteModel, 0x10);
    SettingShown(h0, w, i, remoteModel, 0x11);
    SettingShown(h0, w, i, remoteModel, 0x12);
    CounterShown(h0, w, i, remoteModel);
    SettingNames(w.cfg);
    hide MirrorOf, SettingWord;
  }

  lemma ModesShown(h0: seq<u16>, w: World, i: Inputs, remoteModel: bool)
    requires w.Valid() && |h0| == 51
    ensures
      var h, c := MirrorOf(h0, w, i, remoteModel), w.cfg;
      && h[0x13] == c.model.runMode && h[0x14] == (if c.energyCtrl then 1 else 0)
      && h[0x15] == (if c.multiCtrl then 1 else 0) && h[0x16] == c.model.safety
      && h[0x17] == c.model.freq && h[0x18] == c.model.kind
      && (h[0x2E] - c.cal) % 0x1_0000 == 0 && (h[0x2F] - c.freqCal) % 0x1_0000 == 0
      && h[0x30] == (if w.horn then 1 else 0) && h[0x21] == c.net.mode
  {
    SettingShown(h0, w, i, remoteModel, 0x13);
    SettingShown(h0, w, i, remoteModel, 0x14);
    SettingShown(h0, w, i, remoteModel, 0x15);
    SettingShown(h0, w, i, remoteModel, 0x16);
    SettingShown(h0, w, i, remoteModel, 0x17);
    SettingShown(h0, w, i, remoteModel, 0x18);
    SettingShown(h0, w, i, remoteModel, 0x2E);
    SettingShown(h0, w, i, remoteModel, 0x2F);
    ModeNames(w.cfg);
    HornAndModeShown(h0, w, i, remoteModel);
    WireIsModular(w.cfg.cal);
    WireIsModular(w.cfg.freqCal);
    hide MirrorOf, SettingWord, ToWire;
  }

  lemma SettingNames(c: Cfg)
    ensures
      var t, m := c.times, c.multi;
      && SettingWord(0x06, c) == c.power && SettingWord(0x07, c) == t.onTime
      && SettingWord(0x08, c) == c.energy % 0x1_0000 && SettingWord(0x09, c) == t.outTime
      && SettingWord(0x0A, c) == t.delay1 && SettingWord(0x0B, c) == t.delay2 && SettingWord(0x0C, c) == t.delay3
      && SettingWord(0x0D, c) == t.trigger2 && SettingWord(0x0E, c) == t.trigger3
      && SettingWord(0x0F, c) == m.time1 && SettingWord(0x10, c) == m.time2
      && SettingWord(0x11, c) == m.out1 && SettingWord(0x12, c) == m.out2
  {
  }

  lemma ModeNames(c: Cfg)
    ensures
      var m := c.model;
      && SettingWord(0x13, c) == m.runMode && SettingWord(0x14, c) == (if c.energyCtrl then 1 else 0)
      && SettingWord(0x15, c) == (if c.multiCtrl then 1 else 0) && SettingWord(0x16, c) == m.safety
      && SettingWord(0x17, c) == m.freq && SettingWord(0x18, c) == m.kind
      && SettingWord(0x2E, c) == ToWire(c.cal) && SettingWord(0x2F, c) == ToWire(c.freqCal)
  {
  }

  lemma CounterShown(h0: seq<u16>, w: World, i: Inputs, remoteModel: bool)
    requires w.Valid() && |h0| == 51
    ensures var h := MirrorOf(h0, w, i, remoteModel); (h[0x00] as int) * 0x1_0000 + h[0x01] == w.cfg.workCnt
  {
    hide SettingWord, Live, StatusBits;
  }

  lemma HornAndModeShown(h0: seq<u16>, w: World, i: Inputs, remoteModel: bool)
    requires w.Valid() && |h0| == 51
    ensures var h := MirrorOf(h0, w, i, remoteModel);
      h[0x30] == (if w.horn then 1 else 0) && h[0x21] == w.cfg.net.mode
  {
    hide SettingWord, Live, StatusBits;
  }

  lemma WireIsModular(v: s16)
    ensures (ToWire(v) - v) % 0x1_0000 == 0
  {
  }

  /** The measurement while live, and the last run's readings otherwise; and
      the capability words. Commands are never shown. */
  lemma ReadingsShown(h0: seq<u16>, w: World, i: Inputs, remoteModel: bool)
    requires w.Valid() && |h0| == 51
    ensures
      var h, m := MirrorOf(h0, w, i, remoteModel), w.core.m;
      && h[0x02] == (if m.live then m.maxPower else m.lastPower)
      && h[0x03] == (if m.live then m.maxAmp else m.lastAmp)
      && h[0x04] == (if m.live then m.currFreq else m.lastFreq)
      && h[0x05] == (if m.live then m.currEnergy else m.lastEnergy) % 0x1_0000
      && h[0x29] == w.stage.stat.Code() && h[0x31] == 0xFA01 && h[0x32] == 1
      && (remoteModel ==> h[0x2A] == 0x5201 && h[0x2B] == i.gateState && h[0x2C] == 0)
      && (forall a :: (0x19 <= a <= 0x1C || a == 0x28 || a == 0x2D) ==> h[a] == h0[a])
  {
    hide ToWire, Live, StatusBits;
  }

  /** The link fields: the live words, high octet first, but for fields under
      edit, which keep the master's word. */
  lemma LinkFieldsShown(h0: seq<u16>, w: World, i: Inputs, remoteModel: bool)
    requires w.Valid() && |h0| == 51
    ensures
      var h, n, d := MirrorOf(h0, w, i, remoteModel), w.cfg.net, w.stage.dirty;
      && h[0x1E] == (if 0 in d then h0[0x1E] else n.addr) && h[0x1F] == (if 1 in d then h0[0x1F] else n.speed)
      && h[0x20] == (if 2 in d then h0[0x20] else n.parity)
      && h[0x22] == (if 3 in d then h0[0x22] else (n.ip[0] as int) * 0x100 + n.ip[1])
      && h[0x23] == (if 4 in d then h0[0x23] else (n.ip[2] as int) * 0x100 + n.ip[3])
      && h[0x24] == (if 5 in d then h0[0x24] else (n.nm[0] as int) * 0x100 + n.nm[1])
      && h[0x25] == (if 6 in d then h0[0x25] else (n.nm[2] as int) * 0x100 + n.nm[3])
      && h[0x26] == (if 7 in d then h0[0x26] else (n.gw[0] as int) * 0x100 + n.gw[1])
      && h[0x27] == (if 8 in d then h0[0x27] else (n.gw[2] as int) * 0x100 + n.gw[3])
  {
    for k := 0 to 9
      invariant forall j :: 0 <= j < k ==>
        MirrorOf(h0, w, i, remoteModel)[StagedReg(j)] ==
          if j in w.stage.dirty then h0[StagedReg(j)] else Live(w.cfg.net, j)
    {
      LinkFieldShown(h0, w, i, remoteModel, k);
    }
    LiveNames(w.cfg.net);
    hide MirrorOf, Live;
  }

  lemma LinkFieldShown(h0: seq<u16>, w: World, i: Inputs, remoteModel: bool, k: nat)
    requires w.Valid() && |h0| == 51 && k < 9
    ensures
      MirrorOf(h0, w, i, remoteModel)[StagedReg(k)] ==
        if k in w.stage.dirty then h0[StagedReg(k)] else Live(w.cfg.net, k)
  {
    StagedRegIsField(k);
    hide Live, StatusBits, SettingWord;
  }

  lemma LiveNames(n: Net)
    ensures Live(n, 0) == n.addr && Live(n, 1) == n.speed && Live(n, 2) == n.parity
    ensures Live(n, 3) == (n.ip[0] as int) * 0x100 + n.ip[1] && Live(n, 4) == (n.ip[2] as int) * 0x100 + n.ip[3]
    ensures Live(n, 5) == (n.nm[0] as int) * 0x100 + n.nm[1] && Live(n, 6) == (n.nm[2] as int) * 0x100 + n.nm[3]
    ensures Live(n, 7) == (n.gw[0] as int) * 0x100 + n.gw[1] && Live(n, 8) == (n.gw[2] as int) * 0x100 + n.gw[3]
  {
  }

  /** The status word, bit by bit. */
  lemma StatusReadsBack(h0: seq<u16>, w: World, i: Inputs, remoteModel: bool)
    requires w.Valid() && |h0| == 51
    ensures
      var s, m := MirrorOf(h0, w, i, remoteModel)[0x1D], w.core.m;
      && (Bit(s, 0) <==> !m.run.Idle?) && (Bit(s, 1) <==> i.estop) && (Bit(s, 2) <==> i.overload)
      && (Bit(s, 3) <==> m.fault) && !Bit(s, 4) && (Bit(s, 5) <==> i.sensor) && (Bit(s, 6) <==> w.horn)
      && (Bit(s, 7) <==> i.seekLeg) && (Bit(s, 8) <==> i.resetLeg) && s < 0x200
  {
    var m := w.core.m;
    StatusAt(h0, w, i, remoteModel);
    StatusWord(!m.run.Idle?, i, m.fault, w.horn);
    hide MirrorOf, StatusBits, Bit;
  }

  lemma StatusAt(h0: seq<u16>, w: World, i: Inputs, remoteModel: bool)
    requires w.Valid() && |h0| == 51
    ensures MirrorOf(h0, w, i, remoteModel)[0x1D] == StatusBits(!w.core.m.run.Idle?, i, w.core.m.fault, w.horn)
  {
    hide ToWire, Live, StatusBits;
  }

  lemma StatusWord(running: bool, i: Inputs, fault: bool, horn: bool)
    ensures
      var s := StatusBits(running, i, fault, horn);
      && (Bit(s, 0) <==> running) && (Bit(s, 1) <==> i.estop) && (Bit(s, 2) <==> i.overload)
      && (Bit(s, 3) <==> fault) && !Bit(s, 4) && (Bit(s, 5) <==> i.sensor) && (Bit(s, 6) <==> horn)
      && (Bit(s, 7) <==> i.seekLeg) && (Bit(s, 8) <==> i.resetLeg) && s < 0x200
  {
    hide Bit;
    var high := (if i.sensor then 1 else 0) + (if horn then 2 else 0) + (if i.seekLeg then 4 else 0)
      + (if i.resetLeg then 8 else 0);
    BitsOfFive(running, i.estop, i.overload, fault, high, StatusBits(running, i, fault, horn));
    BitsOfFour(i.sensor, horn, i.seekLeg, i.resetLeg, high);
  }

  lemma BitsOfFour(b0: bool, b1: bool, b2: bool, b3: bool, s: nat)
    requires s == (if b0 then 1 else 0) + (if b1 then 2 else 0) + (if b2 then 4 else 0) + (if b3 then 8 else 0)
    ensures (Bit(s, 0) <==> b0) && (Bit(s, 1) <==> b1) && (Bit(s, 2) <==> b2) && (Bit(s, 3) <==> b3)
  {
    assert s / 2 / 2 / 2 == if b3 then 1 else 0;
    assert Bit(s, 3) == Bit(s / 2, 2) == Bit(s / 2 / 2, 1) == Bit(s / 2 / 2 / 2, 0);
    assert Bit(s, 2) == Bit(s / 2, 1) == Bit(s / 2 / 2, 0);
  }

  /** Five low bits, the last one clear, below a higher part. */
  lemma BitsOfFive(b0: bool, b1: bool, b2: bool, b3: bool, high: nat, s: nat)
    requires s == (if b0 then 1 else 0) + (if b1 then 2 else 0) + (if b2 then 4 else 0) + (if b3 then 8 else 0)
      + 32 * high
    ensures (Bit(s, 0) <==> b0) && (Bit(s, 1) <==> b1) && (Bit(s, 2) <==> b2) && (Bit(s, 3) <==> b3) && !Bit(s, 4)
    ensures (Bit(s, 5) <==> Bit(high, 0)) && (Bit(s, 6) <==> Bit(high, 1)) && (Bit(s, 7) <==> Bit(high, 2))
    ensures Bit(s, 8) <==> Bit(high, 3)
  {
    BitBelow5(if b0 then 1 else 0, b1, b2, b3, high, s);
  }

  lemma BitBelow5(low: nat, b1: bool, b2: bool, b3: bool, high: nat, s: nat)
    requires low < 2
    requires s == low + (if b1 then 2 else 0) + (if b2 then 4 else 0) + (if b3 then 8 else 0) + 32 * high
    ensures (Bit(s, 0) <==> low == 1) && (Bit(s, 1) <==> b1) && (Bit(s, 2) <==> b2) && (Bit(s, 3) <==> b3)
    ensures !Bit(s, 4) && forall k: nat :: Bit(s, k + 5) <==> Bit(high, k)
  {
    var s1 := (if b1 then 1 else 0) + (if b2 then 2 else 0) + (if b3 then 4 else 0) + 16 * high;
    var s2 := (if b2 then 1 else 0) + (if b3 then 2 else 0) + 8 * high;
    var s3 := (if b3 then 1 else 0) + 4 * high;
    var s4 := 2 * high;
    assert s / 2 == s1 && s1 / 2 == s2 && s2 / 2 == s3 && s3 / 2 == s4 && s4 / 2 == high;
    forall k: nat
      ensures Bit(s, k + 5) <==> Bit(high, k)
    {
      assert Bit(s, k + 5) == Bit(s1, k + 4) == Bit(s2, k + 3) == Bit(s3, k + 2) == Bit(s4, k + 1) == Bit(high, k);
    }
    assert Bit(s, 1) == Bit(s1, 0);
    assert Bit(s, 2) == Bit(s1, 1) == Bit(s2, 0);
    assert Bit(s, 3) == Bit(s1, 2) == Bit(s2, 1) == Bit(s3, 0);
    assert Bit(s, 4) == Bit(s1, 3) == Bit(s2, 2) == Bit(s3, 1) == Bit(s4, 0);
  }
}
