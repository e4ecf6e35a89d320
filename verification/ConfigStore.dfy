/** Saving the configuration to FRAM and loading it back, with any of the
    reads failing. */
module ConfigStore {
  import opened Words
  import opened Config
  import opened Fram

  // --- The byte map ---

  const FLAG: nat := 0
  const FLAG_MAGIC: byte := 0xAA
  const WORK_CNT: nat := 1
  const DELAY1: nat := 5
  const DELAY2: nat := 7
  const DELAY3: nat := 9
  const TRIGGER2: nat := 11
  const TRIGGER3: nat := 13
  const SAFTY: nat := 15
  const RUN_MODE: nat := 16
  const MODEL_FREQ: nat := 17
  const MODEL_TYPE: nat := 18
  const OUT_POWER: nat := 19
  const ON_TIME: nat := 20
  const ENERGY: nat := 22
  const MULTI_T1: nat := 26
  const MULTI_T2: nat := 28
  const MULTI_O1: nat := 30
  const MULTI_O2: nat := 32
  const EN_ENERGY: nat := 34
  const EN_MULTI: nat := 35
  const TIMEOVER: nat := 36
  const COMM_ADDR: nat := 37
  const COMM_SPEED: nat := 38
  const COMM_PARITY: nat := 39
  const CAL_VAL: nat := 40
  const FREQ_CAL_VAL: nat := 42
  const COMM_MODE: nat := 44
  const ETHER_IP: nat := 45
  const ETHER_NM: nat := 49
  const ETHER_GW: nat := 53

  const ENERGY_MAX: u32 := 100000

  // --- What a saved page says ---

  predicate TimesStored(m: Page, c: Cfg) {
    && U32At(m, WORK_CNT) == c.workCnt
    && U16At(m, DELAY1) == c.times.delay1 && U16At(m, DELAY2) == c.times.delay2 && U16At(m, DELAY3) == c.times.delay3
    && U16At(m, TRIGGER2) == c.times.trigger2 && U16At(m, TRIGGER3) == c.times.trigger3
  }

  predicate ModelStored(m: Page, c: Cfg) {
    && m[SAFTY] == c.model.safety && m[RUN_MODE] == c.model.runMode && m[MODEL_FREQ] == c.model.freq
      && m[MODEL_TYPE] == c.model.kind
    && m[OUT_POWER] == c.power && U16At(m, ON_TIME) == c.times.onTime
  }

  predicate EnergyStored(m: Page, c: Cfg) {
    && m[EN_ENERGY] == (if c.energyCtrl then 1 else 0) && m[EN_MULTI] == (if c.multiCtrl then 1 else 0)
    && U32At(m, ENERGY) == c.energy
  }

  predicate MultiStored(m: Page, c: Cfg) {
    && U16At(m, MULTI_T1) == c.multi.time1 && U16At(m, MULTI_T2) == c.multi.time2
    && U16At(m, MULTI_O1) == c.multi.out1 && U16At(m, MULTI_O2) == c.multi.out2
  }

  predicate SerialStored(m: Page, c: Cfg) {
    && m[TIMEOVER] == Lo(c.times.outTime)
    && m[COMM_ADDR] == c.net.addr && m[COMM_SPEED] == c.net.speed && m[COMM_PARITY] == c.net.parity
    && U16At(m, CAL_VAL) == ToWire(c.cal) && U16At(m, FREQ_CAL_VAL) == ToWire(c.freqCal) && m[COMM_MODE] == c.net.mode
  }

  predicate EtherStored(m: Page, c: Cfg) {
    forall i :: 0 <= i < 4 ==>
      m[ETHER_IP + i] == c.net.ip[i] && m[ETHER_NM + i] == c.net.nm[i] && m[ETHER_GW + i] == c.net.gw[i]
  }

  /** Every field of the map holds the configuration's value. */
  predicate Stored(m: Page, c: Cfg) {
    TimesStored(m, c) && ModelStored(m, c) && EnergyStored(m, c) && MultiStored(m, c) && SerialStored(m, c)
      && EtherStored(m, c)
  }

  /** The bytes a save may write: everything but the flag, up to the end of the
      map. */
  predicate OnlyMap(m: Page, m': Page) {
    SameBut(m, m', WORK_CNT, ETHER_GW + 4 - WORK_CNT)
  }

  // --- What a load makes of a page ---

  function Pick<T>(ok: bool, v: T, d: T): T { if ok then v else d }

  function TimesIn(m: Page, bad: set<nat>, d: Times): Times {
    Times(
      Pick(DELAY1 !in bad, U16At(m, DELAY1), d.delay1), Pick(DELAY2 !in bad, U16At(m, DELAY2), d.delay2),
      Pick(DELAY3 !in bad, U16At(m, DELAY3), d.delay3),
      Pick(TRIGGER2 !in bad, U16At(m, TRIGGER2), d.trigger2), Pick(TRIGGER3 !in bad, U16At(m, TRIGGER3), d.trigger3),
      Pick(ON_TIME !in bad, U16At(m, ON_TIME), d.onTime), if TIMEOVER !in bad then m[TIMEOVER] else d.outTime)
  }

  function MultiIn(m: Page, bad: set<nat>, d: Multi): Multi {
    Multi(Pick(MULTI_O1 !in bad, U16At(m, MULTI_O1), d.out1), Pick(MULTI_O2 !in bad, U16At(m, MULTI_O2), d.out2),
          Pick(MULTI_T1 !in bad, U16At(m, MULTI_T1), d.time1), Pick(MULTI_T2 !in bad, U16At(m, MULTI_T2), d.time2))
  }

  function ModelIn(m: Page, bad: set<nat>, d: Model): Model {
    Model(Pick(MODEL_FREQ !in bad, m[MODEL_FREQ], d.freq), Pick(MODEL_TYPE !in bad, m[MODEL_TYPE], d.kind),
          Pick(SAFTY !in bad, m[SAFTY], d.safety), Pick(RUN_MODE !in bad, m[RUN_MODE], d.runMode))
  }

  function OctetsIn(m: Page, bad: set<nat>, a: nat, d: Octets): (o: Octets)
    requires a + 4 <= PAGE
  {
    [Pick(a !in bad, m[a], d[0]), Pick(a + 1 !in bad, m[a + 1], d[1]), Pick(a + 2 !in bad, m[a + 2], d[2]),
      Pick(a + 3 !in bad, m[a + 3], d[3])]
  }

  /** An index beyond its table counts as zero. */
  function Index(v: byte, max: nat): byte { if v > max then 0 else v }

  function NetIn(m: Page, bad: set<nat>, d: Net): Net {
    Net(Pick(COMM_ADDR !in bad, m[COMM_ADDR], d.addr),
        Pick(COMM_SPEED !in bad, Index(m[COMM_SPEED], SPEED_IDX_MAX), d.speed),
        Pick(COMM_PARITY !in bad, Index(m[COMM_PARITY], PARITY_IDX_MAX), d.parity),
        Pick(COMM_MODE !in bad, m[COMM_MODE], d.mode),
        OctetsIn(m, bad, ETHER_IP, d.ip), OctetsIn(m, bad, ETHER_NM, d.nm), OctetsIn(m, bad, ETHER_GW, d.gw))
  }

  function Capped(e: u32): u32 { if e > ENERGY_MAX then ENERGY_MAX else e }

  /** Each field is its stored value, normalised, or its default. */
  function Loaded(m: Page, bad: set<nat>, d: Cfg): Cfg {
    Cfg(ModelIn(m, bad, d.model), TimesIn(m, bad, d.times), MultiIn(m, bad, d.multi),
        Pick(OUT_POWER !in bad, ClampPower(m[OUT_POWER]), d.power),
        Pick(WORK_CNT !in bad, U32At(m, WORK_CNT), d.workCnt),
        Pick(ENERGY !in bad, Capped(U32At(m, ENERGY)), d.energy),
        Pick(EN_ENERGY !in bad, m[EN_ENERGY] == 1, d.energyCtrl), Pick(EN_MULTI !in bad, m[EN_MULTI] == 1, d.multiCtrl),
        Pick(CAL_VAL !in bad, FromWire(U16At(m, CAL_VAL)), d.cal),
        Pick(FREQ_CAL_VAL !in bad, FromWire(U16At(m, FREQ_CAL_VAL)), d.freqCal),
        NetIn(m, bad, d.net))
  }

  /** The write-back of a load: a readable energy limit above the cap. */
  predicate WrittenBack(m: Page, m': Page, bad: set<nat>) {
    if ENERGY !in bad && U32At(m, ENERGY) > ENERGY_MAX then U32At(m', ENERGY) == ENERGY_MAX && SameBut(m, m', ENERGY, 4)
    else m' == m
  }

  // --- Counting the failed reads ---

  const UNREADABLE: nat := 0xFF

  const TIMES_AT: set<nat> := {WORK_CNT, DELAY1, DELAY2, DELAY3, TRIGGER2, TRIGGER3}
  const MODEL_AT: set<nat> := {SAFTY, RUN_MODE, MODEL_FREQ, MODEL_TYPE, OUT_POWER, ON_TIME}
  const ENERGY_AT: set<nat> := {EN_ENERGY, ENERGY, EN_MULTI}
  const MULTI_AT: set<nat> := {MULTI_T1, MULTI_T2, MULTI_O1, MULTI_O2}
  const SERIAL_AT: set<nat> := {TIMEOVER, COMM_ADDR, COMM_SPEED, COMM_PARITY, CAL_VAL, FREQ_CAL_VAL, COMM_MODE}

  /** The address octets, a triple per step. */
  function EtherAt(n: nat): (s: set<nat>)
    ensures forall a :: a in s <==>
      (ETHER_IP <= a < ETHER_IP + n) || (ETHER_NM <= a < ETHER_NM + n) || (ETHER_GW <= a < ETHER_GW + n)
  {
    if n == 0 then {} else EtherAt(n - 1) + {ETHER_IP + n - 1, ETHER_NM + n - 1, ETHER_GW + n - 1}
  }

  /** The first byte of every field. */
  function FieldsAt(): set<nat> { TIMES_AT + MODEL_AT + ENERGY_AT + MULTI_AT + SERIAL_AT + EtherAt(4) }

  function Misses(bad: set<nat>, at: set<nat>): nat { |bad * at| }

  function Miss(bad: set<nat>, a: nat): nat { if a in bad then 1 else 0 }

  lemma MissesOfOne(bad: set<nat>, a: nat)
    ensures Misses(bad, {a}) == Miss(bad, a)
  {
    assert bad * {a} == if a in bad then {a} else {};
  }

  lemma MissesSplit(bad: set<nat>, x: set<nat>, y: set<nat>)
    requires x !! y
    ensures Misses(bad, x + y) == Misses(bad, x) + Misses(bad, y)
  {
    assert bad * (x + y) == bad * x + bad * y;
  }

  lemma MissesOfThree(bad: set<nat>, a: nat, b: nat, c: nat)
    requires a != b && a != c && b != c
    ensures Misses(bad, {a, b, c}) == Miss(bad, a) + Miss(bad, b) + Miss(bad, c)
  {
    assert {a, b, c} == {a} + {b} + {c};
    MissesSplit(bad, {a} + {b}, {c});
    MissesSplit(bad, {a}, {b});
    MissesOfOne(bad, a);
    MissesOfOne(bad, b);
    MissesOfOne(bad, c);
  }

  lemma MissesOfSix(bad: set<nat>, a: nat, b: nat, c: nat, d: nat, e: nat, f: nat)
    requires a < b < c < d < e < f
    ensures Misses(bad, {a, b, c, d, e, f}) == Miss(bad, a) + Miss(bad, b) + Miss(bad, c) + Miss(bad, d) + Miss(bad, e)
      + Miss(bad, f)
  {
    assert {a, b, c, d, e, f} == {a, b, c} + {d, e, f};
    MissesSplit(bad, {a, b, c}, {d, e, f});
    MissesOfThree(bad, a, b, c);
    MissesOfThree(bad, d, e, f);
  }

  lemma MultiMisses(bad: set<nat>)
    ensures Misses(bad, MULTI_AT) == Miss(bad, MULTI_T1) + Miss(bad, MULTI_T2) + Miss(bad, MULTI_O1)
      + Miss(bad, MULTI_O2)
  {
    assert MULTI_AT == {MULTI_T1, MULTI_T2, MULTI_O1} + {MULTI_O2};
    MissesSplit(bad, {MULTI_T1, MULTI_T2, MULTI_O1}, {MULTI_O2});
    MissesOfThree(bad, MULTI_T1, MULTI_T2, MULTI_O1);
    MissesOfOne(bad, MULTI_O2);
  }

  lemma SerialMisses(bad: set<nat>)
    ensures Misses(bad, SERIAL_AT) == Miss(bad, TIMEOVER) + Miss(bad, COMM_ADDR) + Miss(bad, COMM_SPEED)
      + Miss(bad, COMM_PARITY)
                                      + Miss(bad, CAL_VAL) + Miss(bad, FREQ_CAL_VAL) + Miss(bad, COMM_MODE)
  {
    var six := {TIMEOVER, COMM_ADDR, COMM_SPEED, COMM_PARITY, CAL_VAL, FREQ_CAL_VAL};
    assert SERIAL_AT == six + {COMM_MODE};
    MissesSplit(bad, six, {COMM_MODE});
    MissesOfSix(bad, TIMEOVER, COMM_ADDR, COMM_SPEED, COMM_PARITY, CAL_VAL, FREQ_CAL_VAL);
    MissesOfOne(bad, COMM_MODE);
  }

  lemma EtherMisses(bad: set<nat>, i: nat)
    requires i < 4
    ensures Misses(bad, EtherAt(i + 1)) == Misses(bad, EtherAt(i)) + Miss(bad, ETHER_IP + i) + Miss(bad, ETHER_NM + i)
      + Miss(bad, ETHER_GW + i)
  {
    MissesOfThree(bad, ETHER_IP + i, ETHER_NM + i, ETHER_GW + i);
    MissesSplit(bad, EtherAt(i), {ETHER_IP + i, ETHER_NM + i, ETHER_GW + i});
  }

  lemma SixGroups(bad: set<nat>, a: set<nat>, b: set<nat>, c: set<nat>, d: set<nat>, e: set<nat>, f: set<nat>)
    requires a !! b !! c !! d !! e !! f
    ensures Misses(bad, a) + Misses(bad, b) + Misses(bad, c) + Misses(bad, d) + Misses(bad, e) + Misses(bad, f)
            == Misses(bad, a + b + c + d + e + f)
  {
    MissesSplit(bad, a, b);
    MissesSplit(bad, a + b, c);
    MissesSplit(bad, a + b + c, d);
    MissesSplit(bad, a + b + c + d, e);
    MissesSplit(bad, a + b + c + d + e, f);
  }

  /** The groups lie in different parts of the page. */
  lemma GroupRanges()
    ensures forall a :: a in TIMES_AT ==> a < SAFTY
    ensures forall a :: a in MODEL_AT ==> SAFTY <= a < ENERGY
    ensures forall a :: a in ENERGY_AT ==> a == ENERGY || EN_ENERGY <= a < TIMEOVER
    ensures forall a :: a in MULTI_AT ==> ENERGY < a < EN_ENERGY
    ensures forall a :: a in SERIAL_AT ==> TIMEOVER <= a < ETHER_IP
  {
  }

  lemma FailuresAdd(bad: set<nat>)
    ensures Misses(bad, TIMES_AT) + Misses(bad, MODEL_AT) + Misses(bad, ENERGY_AT) + Misses(bad, MULTI_AT)
      + Misses(bad, SERIAL_AT) + Misses(bad, EtherAt(4))
            == Misses(bad, FieldsAt())
  {
    GroupRanges();
    var a, b, c, d, e, f := TIMES_AT, MODEL_AT, ENERGY_AT, MULTI_AT, SERIAL_AT, EtherAt(4);
    Apart(a, b, c, d, e, f);
    SixGroups(bad, a, b, c, d, e, f);
  }

  lemma Apart(a: set<nat>, b: set<nat>, c: set<nat>, d: set<nat>, e: set<nat>, f: set<nat>)
    requires forall x :: x in a ==> x < SAFTY
    requires forall x :: x in b ==> SAFTY <= x < ENERGY
    requires forall x :: x in c ==> x == ENERGY || EN_ENERGY <= x < TIMEOVER
    requires forall x :: x in d ==> ENERGY < x < EN_ENERGY
    requires forall x :: x in e ==> TIMEOVER <= x < ETHER_IP
    requires forall x :: x in f ==> ETHER_IP <= x
    ensures a !! b !! c !! d !! e !! f
  {
  }

  /** The write-back touches no other field. */
  lemma SameElsewhere(m: Page, m': Page, bad: set<nat>, d: Cfg)
    requires WrittenBack(m, m', bad)
    ensures MultiIn(m', bad, d.multi) == MultiIn(m, bad, d.multi) && NetIn(m', bad, d.net) == NetIn(m, bad, d.net)
    ensures m'[TIMEOVER] == m[TIMEOVER] && U16At(m', CAL_VAL) == U16At(m, CAL_VAL)
      && U16At(m', FREQ_CAL_VAL) == U16At(m, FREQ_CAL_VAL)
  {
  }

  // --- Round trips ---

  /** What one save and load may change: the power clamp, the energy cap, the
      index resets, the one-byte time limit. */
  function Normal(c: Cfg): Cfg {
    c.(power := ClampPower(c.power), energy := Capped(c.energy),
       times := c.times.(outTime := Lo(c.times.outTime)),
       net := c.net.(speed := Index(c.net.speed, SPEED_IDX_MAX), parity := Index(c.net.parity, PARITY_IDX_MAX)))
  }

  function MixedOctets(bad: set<nat>, a: nat, s: Octets, d: Octets): Octets {
    [if a in bad then d[0] else s[0], if a + 1 in bad then d[1] else s[1], if a + 2 in bad then d[2] else s[2],
      if a + 3 in bad then d[3] else s[3]]
  }

  /** Field by field: `d` where the read fails, `s` where it does not. */
  function Mixed(bad: set<nat>, s: Cfg, d: Cfg): Cfg {
    Cfg(
      Model(
        if MODEL_FREQ in bad then d.model.freq else s.model.freq,
        if MODEL_TYPE in bad then d.model.kind else s.model.kind,
        if SAFTY in bad then d.model.safety else s.model.safety,
        if RUN_MODE in bad then d.model.runMode else s.model.runMode),
      Times(
        if DELAY1 in bad then d.times.delay1 else s.times.delay1,
        if DELAY2 in bad then d.times.delay2 else s.times.delay2,
        if DELAY3 in bad then d.times.delay3 else s.times.delay3,
        if TRIGGER2 in bad then d.times.trigger2 else s.times.trigger2,
        if TRIGGER3 in bad then d.times.trigger3 else s.times.trigger3,
        if ON_TIME in bad then d.times.onTime else s.times.onTime,
        if TIMEOVER in bad then d.times.outTime else s.times.outTime),
      Multi(
        if MULTI_O1 in bad then d.multi.out1 else s.multi.out1,
        if MULTI_O2 in bad then d.multi.out2 else s.multi.out2,
        if MULTI_T1 in bad then d.multi.time1 else s.multi.time1,
        if MULTI_T2 in bad then d.multi.time2 else s.multi.time2),
      if OUT_POWER in bad then d.power else s.power,
      if WORK_CNT in bad then d.workCnt else s.workCnt,
      if ENERGY in bad then d.energy else s.energy,
      if EN_ENERGY in bad then d.energyCtrl else s.energyCtrl,
      if EN_MULTI in bad then d.multiCtrl else s.multiCtrl,
      if CAL_VAL in bad then d.cal else s.cal,
      if FREQ_CAL_VAL in bad then d.freqCal else s.freqCal,
      Net(
        if COMM_ADDR in bad then d.net.addr else s.net.addr,
        if COMM_SPEED in bad then d.net.speed else s.net.speed,
        if COMM_PARITY in bad then d.net.parity else s.net.parity,
        if COMM_MODE in bad then d.net.mode else s.net.mode,
        MixedOctets(bad, ETHER_IP, s.net.ip, d.net.ip),
        MixedOctets(bad, ETHER_NM, s.net.nm, d.net.nm),
        MixedOctets(bad, ETHER_GW, s.net.gw, d.net.gw)))
  }

  /** Whatever reads fail, a load after a save gives each failed field its
      default and every other field its saved value, normalised. */
  lemma LoadAfterSave(m: Page, c: Cfg, bad: set<nat>, d: Cfg)
    requires Stored(m, c)
    ensures Loaded(m, bad, d) == Mixed(bad, Normal(c), d)
  {
    WireRoundTrip(c.cal, 0);
    WireRoundTrip(c.freqCal, 0);
    hide U16At, U32At, ToWire, FromWire, Lo, TimesIn, NetIn, ModelIn, MultiIn;
    TimesBack(m, c, bad, d);
    ModelsBack(m, c, bad, d);
    NetBack(m, c, bad, d);
  }

  lemma TimesBack(m: Page, c: Cfg, bad: set<nat>, d: Cfg)
    requires Stored(m, c)
    ensures TimesIn(m, bad, d.times) == Mixed(bad, Normal(c), d).times
  {
    hide U16At, U32At, ToWire, Lo, MixedOctets;
  }

  lemma ModelsBack(m: Page, c: Cfg, bad: set<nat>, d: Cfg)
    requires Stored(m, c)
    ensures ModelIn(m, bad, d.model) == Mixed(bad, Normal(c), d).model
      && MultiIn(m, bad, d.multi) == Mixed(bad, Normal(c), d).multi
  {
    hide U16At, U32At, ToWire, Lo, MixedOctets;
  }

  lemma NetBack(m: Page, c: Cfg, bad: set<nat>, d: Cfg)
    requires Stored(m, c)
    ensures NetIn(m, bad, d.net) == Mixed(bad, Normal(c), d).net
  {
    hide U16At, U32At, ToWire, Lo;
    assert Octets4(c.net.ip) && Octets4(c.net.nm) && Octets4(c.net.gw);
  }

  predicate Octets4(o: Octets) { o == [o[0], o[1], o[2], o[3]] }

  predicate Storable(c: Cfg) {
    && 50 <= c.power <= 100 && c.energy <= ENERGY_MAX && c.times.outTime < 0x100
    && c.net.speed <= SPEED_IDX_MAX && c.net.parity <= PARITY_IDX_MAX
  }

  /** With no failing read it is exactly the normalised configuration, and a
      configuration comes back unchanged exactly when it is in range. */
  lemma RoundTrip(m: Page, c: Cfg, bad: set<nat>, d: Cfg)
    requires Stored(m, c) && bad !! FieldsAt()
    ensures Loaded(m, bad, d) == Normal(c)
    ensures Loaded(m, bad, d) == c <==> Storable(c)
  {
    hide Loaded, Mixed, Stored, FieldsAt, Normal, Storable;
    LoadAfterSave(m, c, bad, d);
    NoneFailing(bad);
    MixedOfNone(bad, Normal(c), d);
    StorableIsNormal(c);
  }

  lemma StorableIsNormal(c: Cfg)
    ensures Normal(c) == c <==> Storable(c)
  {
    hide Lo;
    LoKeeps(c.times.outTime);
  }

  lemma LoKeeps(v: u16)
    ensures Lo(v) == v <==> v < 0x100
  {
  }

  /** No field's read fails. */
  predicate Clear(bad: set<nat>) {
    && WORK_CNT !in bad && DELAY1 !in bad && DELAY2 !in bad && DELAY3 !in bad && TRIGGER2 !in bad && TRIGGER3 !in bad
    && SAFTY !in bad && RUN_MODE !in bad && MODEL_FREQ !in bad && MODEL_TYPE !in bad && OUT_POWER !in bad
      && ON_TIME !in bad
    && EN_ENERGY !in bad && ENERGY !in bad && EN_MULTI !in bad
    && MULTI_T1 !in bad && MULTI_T2 !in bad && MULTI_O1 !in bad && MULTI_O2 !in bad
    && TIMEOVER !in bad && COMM_ADDR !in bad && COMM_SPEED !in bad && COMM_PARITY !in bad && CAL_VAL !in bad
      && FREQ_CAL_VAL !in bad && COMM_MODE !in bad
    && forall a :: ETHER_IP <= a < ETHER_GW + 4 ==> a !in bad
  }

  lemma MixedOfNone(bad: set<nat>, s: Cfg, d: Cfg)
    requires Clear(bad)
    ensures Mixed(bad, s, d) == s
  {
    assert Octets4(s.net.ip) && Octets4(s.net.nm) && Octets4(s.net.gw);
  }

  lemma NoneFailing(bad: set<nat>)
    requires bad !! FieldsAt()
    ensures Clear(bad)
  {
    Apart1(bad, TIMES_AT, FieldsAt());
    Apart1(bad, MODEL_AT, FieldsAt());
    Apart1(bad, ENERGY_AT, FieldsAt());
    Apart1(bad, MULTI_AT, FieldsAt());
    Apart1(bad, SERIAL_AT, FieldsAt());
    Apart1(bad, EtherAt(4), FieldsAt());
    hide FieldsAt;
  }

  lemma Apart1(bad: set<nat>, part: set<nat>, whole: set<nat>)
    requires bad !! whole && part <= whole
    ensures forall a :: a in part ==> a !in bad
  {
  }

  /** Saving what was loaded, and loading that, changes nothing more. */
  lemma NormalIsStable(c: Cfg)
    ensures Normal(Normal(c)) == Normal(c)
    ensures Normal(Defaults()) == Defaults()
  {
  }

  // --- The page, byte by byte ---

  function Word(m: Page, a: nat): (v: int)
    requires a + 2 <= 256
  {
    (m[a] as int) * 0x100 + m[a + 1]
  }

  /** A readable page, whoever wrote it: which bytes make up each time, limit
      and mode, big-endian, with the power clamped, the energy capped, and an
      enable on only when its byte is 1. */
  lemma LoadedNumbers(m: Page, d: Cfg)
    ensures
      var c := Loaded(m, {}, d);
      var power, energy := m[19], Word(m, 22) * 0x1_0000 + Word(m, 24);
      && c.workCnt == Word(m, 1) * 0x1_0000 + Word(m, 3)
      && c.times == Times(Word(m, 5), Word(m, 7), Word(m, 9), Word(m, 11), Word(m, 13), Word(m, 20), m[36])
      && c.multi == Multi(Word(m, 30), Word(m, 32), Word(m, 26), Word(m, 28))
      && c.power == (if power > 100 then 100 else if power < 50 then 50 else power)
      && c.energy == (if energy > 100000 then 100000 else energy)
      && c.energyCtrl == (m[34] == 1) && c.multiCtrl == (m[35] == 1)
  {
    hide NetIn, ModelIn, FromWire;
  }

  /** ... and each model and link setting: a speed or parity index past its
      table counts as zero, and the calibrations are two's complement. */
  lemma LoadedSettings(m: Page, d: Cfg)
    ensures
      var c := Loaded(m, {}, d);
      && c.model == Model(m[17], m[18], m[15], m[16])
      && c.net == Net(m[37], if m[38] > 5 then 0 else m[38], if m[39] > 2 then 0 else m[39], m[44],
        [m[45], m[46], m[47], m[48]], [m[49], m[50], m[51], m[52]], [m[53], m[54], m[55], m[56]])
      && c.cal == (if Word(m, 40) < 0x8000 then Word(m, 40) else Word(m, 40) - 0x1_0000)
      && c.freqCal == (if Word(m, 42) < 0x8000 then Word(m, 42) else Word(m, 42) - 0x1_0000)
  {
    hide TimesIn, MultiIn, U32At, ClampPower, Capped;
  }

  /** What a blank page is given. */
  lemma FactorySettings()
    ensures Defaults().times == Times(50, 50, 50, 50, 50, 50, 10) && Defaults().multi == Multi(25, 50, 25, 50)
    ensures Defaults().power == 50 && Defaults().energy == 100000 && Defaults().workCnt == 0
    ensures !Defaults().energyCtrl && !Defaults().multiCtrl && Defaults().model == Model(0, 0, 0, 0)
    ensures Defaults().cal == 0 && Defaults().freqCal == 0 && Defaults().net.mode == 0 && Defaults().net.addr == 0
  {
  }

  // --- The store ---

  method SaveTimes(chip: Chip, c: Cfg)
    requires chip.Valid()
    modifies chip.mem
    ensures TimesStored(chip.Contents(), c) && SameBut(old(chip.Contents()), chip.Contents(), WORK_CNT, 14)
  {
    chip.WriteU32(WORK_CNT, c.workCnt);
    chip.WriteU16(DELAY1, c.times.delay1);
    chip.WriteU16(DELAY2, c.times.delay2);
    chip.WriteU16(DELAY3, c.times.delay3);
    chip.WriteU16(TRIGGER2, c.times.trigger2);
    chip.WriteU16(TRIGGER3, c.times.trigger3);
  }

  method SaveModel(chip: Chip, c: Cfg)
    requires chip.Valid()
    modifies chip.mem
    ensures ModelStored(chip.Contents(), c) && SameBut(old(chip.Contents()), chip.Contents(), SAFTY, 7)
  {
    chip.WriteByte(SAFTY, c.model.safety);
    chip.WriteByte(RUN_MODE, c.model.runMode);
    chip.WriteByte(MODEL_FREQ, c.model.freq);
    chip.WriteByte(MODEL_TYPE, c.model.kind);
    chip.WriteByte(OUT_POWER, c.power);
    chip.WriteU16(ON_TIME, c.times.onTime);
  }

  method SaveEnergy(chip: Chip, c: Cfg)
    requires chip.Valid()
    modifies chip.mem
    ensures EnergyStored(chip.Contents(), c)
    ensures forall p :: 0 <= p < PAGE && !(ENERGY <= p < ENERGY + 4) && p != EN_ENERGY && p != EN_MULTI ==>
      chip.Contents()[p] == old(chip.Contents())[p]
  {
    chip.WriteByte(EN_ENERGY, if c.energyCtrl then 1 else 0);
    chip.WriteByte(EN_MULTI, if c.multiCtrl then 1 else 0);
    chip.WriteU32(ENERGY, c.energy);
  }

  method SaveMulti(chip: Chip, c: Cfg)
    requires chip.Valid()
    modifies chip.mem
    ensures MultiStored(chip.Contents(), c) && SameBut(old(chip.Contents()), chip.Contents(), MULTI_T1, 8)
  {
    chip.WriteU16(MULTI_T1, c.multi.time1);
    chip.WriteU16(MULTI_T2, c.multi.time2);
    chip.WriteU16(MULTI_O1, c.multi.out1);
    chip.WriteU16(MULTI_O2, c.multi.out2);
  }

  method SaveSerial(chip: Chip, c: Cfg)
    requires chip.Valid()
    modifies chip.mem
    ensures SerialStored(chip.Contents(), c) && SameBut(old(chip.Contents()), chip.Contents(), TIMEOVER, 9)
  {
    chip.WriteByte(TIMEOVER, Lo(c.times.outTime));
    chip.WriteByte(COMM_ADDR, c.net.addr);
    chip.WriteByte(COMM_SPEED, c.net.speed);
    chip.WriteByte(COMM_PARITY, c.net.parity);
    chip.WriteU16(CAL_VAL, ToWire(c.cal));
    chip.WriteU16(FREQ_CAL_VAL, ToWire(c.freqCal));
    chip.WriteByte(COMM_MODE, c.net.mode);
  }

  method SaveEther(chip: Chip, c: Cfg)
    requires chip.Valid()
    modifies chip.mem
    ensures EtherStored(chip.Contents(), c) && SameBut(old(chip.Contents()), chip.Contents(), ETHER_IP, 12)
  {
    for i := 0 to 4
      invariant SameBut(old(chip.Contents()), chip.Contents(), ETHER_IP, 12)
      invariant forall k :: 0 <= k < i ==>
        chip.mem[ETHER_IP + k] == c.net.ip[k] && chip.mem[ETHER_NM + k] == c.net.nm[k]
        && chip.mem[ETHER_GW + k] == c.net.gw[k]
    {
      chip.WriteByte(ETHER_IP + i, c.net.ip[i]);
      chip.WriteByte(ETHER_NM + i, c.net.nm[i]);
      chip.WriteByte(ETHER_GW + i, c.net.gw[i]);
    }
  }

  /** app_config_save_all. */
  method SaveAll(chip: Chip, c: Cfg)
    requires chip.Valid()
    modifies chip.mem
    ensures Stored(chip.Contents(), c) && OnlyMap(old(chip.Contents()), chip.Contents())
  {
    SaveTimes(chip, c);
    SaveModel(chip, c);
    SaveEnergy(chip, c);
    SaveMulti(chip, c);
    SaveSerial(chip, c);
    SaveEther(chip, c);
  }

  method LoadTimes(chip: Chip, bad: set<nat>, c: Cfg) returns (r: Cfg, fail: nat)
    requires chip.Valid()
    ensures var m := chip.Contents(); var t := TimesIn(m, bad, c.times);
      r == c.(workCnt := Pick(WORK_CNT !in bad, U32At(m, WORK_CNT), c.workCnt),
        times := t.(onTime := c.times.onTime, outTime := c.times.outTime))
    ensures fail == Misses(bad, TIMES_AT)
  {
    hide U16At, U32At, Misses;
    var t, ok, v32, v := c.times, true, 0, 0;
    fail := 0;
    ok, v32 := chip.ReadU32(WORK_CNT, bad, c.workCnt);
    fail := if ok then fail else fail + 1;
    ok, v := chip.ReadU16(DELAY1, bad, t.delay1);
    t := t.(delay1 := v);
    fail := if ok then fail else fail + 1;
    ok, v := chip.ReadU16(DELAY2, bad, t.delay2);
    t := t.(delay2 := v);
    fail := if ok then fail else fail + 1;
    ok, v := chip.ReadU16(DELAY3, bad, t.delay3);
    t := t.(delay3 := v);
    fail := if ok then fail else fail + 1;
    ok, v := chip.ReadU16(TRIGGER2, bad, t.trigger2);
    t := t.(trigger2 := v);
    fail := if ok then fail else fail + 1;
    ok, v := chip.ReadU16(TRIGGER3, bad, t.trigger3);
    t := t.(trigger3 := v);
    fail := if ok then fail else fail + 1;
    r := c.(workCnt := v32, times := t);
    MissesOfSix(bad, WORK_CNT, DELAY1, DELAY2, DELAY3, TRIGGER2, TRIGGER3);
  }

  method LoadModel(chip: Chip, bad: set<nat>, c: Cfg) returns (r: Cfg, fail: nat)
    requires chip.Valid()
    ensures r == c.(model := ModelIn(chip.Contents(), bad, c.model))
    ensures fail == Miss(bad, SAFTY) + Miss(bad, RUN_MODE) + Miss(bad, MODEL_FREQ) + Miss(bad, MODEL_TYPE)
  {
    var d, ok, b := c.model, true, 0;
    fail := 0;
    ok, b := chip.ReadByte(SAFTY, bad, d.safety);
    d := d.(safety := b);
    fail := if ok then fail else fail + 1;
    ok, b := chip.ReadByte(RUN_MODE, bad, d.runMode);
    d := d.(runMode := b);
    fail := if ok then fail else fail + 1;
    ok, b := chip.ReadByte(MODEL_FREQ, bad, d.freq);
    d := d.(freq := b);
    fail := if ok then fail else fail + 1;
    ok, b := chip.ReadByte(MODEL_TYPE, bad, d.kind);
    d := d.(kind := b);
    fail := if ok then fail else fail + 1;
    r := c.(model := d);
  }

  method LoadPower(chip: Chip, bad: set<nat>, c: Cfg) returns (r: Cfg, fail: nat)
    requires chip.Valid()
    ensures var m := chip.Contents();
      r == c.(power := Pick(OUT_POWER !in bad, ClampPower(m[OUT_POWER]), c.power),
              times := c.times.(onTime := Pick(ON_TIME !in bad, U16At(m, ON_TIME), c.times.onTime)))
    ensures fail == Miss(bad, OUT_POWER) + Miss(bad, ON_TIME)
  {
    fail := 0;
    r := c;
    var ok, b := chip.ReadByte(OUT_POWER, bad, c.power);
    if !ok { fail := fail + 1; } else { r := r.(power := ClampPower(b)); }
    var w;
    ok, w := chip.ReadU16(ON_TIME, bad, c.times.onTime);
    r := r.(times := r.times.(onTime := w));
    fail := if ok then fail else fail + 1;
  }

  /** A stored energy limit above the cap is capped in memory and on the page. */
  method LoadEnergy(chip: Chip, bad: set<nat>, c: Cfg) returns (r: Cfg, fail: nat)
    requires chip.Valid()
    modifies chip.mem
    ensures var m := old(chip.Contents());
      r == c.(energyCtrl := Pick(EN_ENERGY !in bad, m[EN_ENERGY] == 1, c.energyCtrl),
        multiCtrl := Pick(EN_MULTI !in bad, m[EN_MULTI] == 1, c.multiCtrl),
              energy := Pick(ENERGY !in bad, Capped(U32At(m, ENERGY)), c.energy))
    ensures fail == Misses(bad, ENERGY_AT) && WrittenBack(old(chip.Contents()), chip.Contents(), bad)
  {
    var ok, b, e;
    fail := 0;
    r := c;
    ok, b := chip.ReadByte(EN_ENERGY, bad, 0);
    if ok { r := r.(energyCtrl := b == 1); } else { fail := fail + 1; }
    ok, e := chip.ReadU32(ENERGY, bad, r.energy);
    if ok {
      r := r.(energy := e);
      if r.energy > ENERGY_MAX {
        r := r.(energy := ENERGY_MAX);
        chip.WriteU32(ENERGY, r.energy);
      }
    } else {
      fail := fail + 1;
    }
    ok, b := chip.ReadByte(EN_MULTI, bad, 0);
    if ok { r := r.(multiCtrl := b == 1); } else { fail := fail + 1; }
    MissesOfThree(bad, EN_ENERGY, ENERGY, EN_MULTI);
  }

  method LoadMulti(chip: Chip, bad: set<nat>, c: Cfg) returns (r: Cfg, fail: nat)
    requires chip.Valid()
    ensures r == c.(multi := MultiIn(chip.Contents(), bad, c.multi)) && fail == Misses(bad, MULTI_AT)
  {
    var d, ok, v := c.multi, true, 0;
    fail := 0;
    ok, v := chip.ReadU16(MULTI_T1, bad, d.time1);
    d := d.(time1 := v);
    fail := if ok then fail else fail + 1;
    ok, v := chip.ReadU16(MULTI_T2, bad, d.time2);
    d := d.(time2 := v);
    fail := if ok then fail else fail + 1;
    ok, v := chip.ReadU16(MULTI_O1, bad, d.out1);
    d := d.(out1 := v);
    fail := if ok then fail else fail + 1;
    ok, v := chip.ReadU16(MULTI_O2, bad, d.out2);
    d := d.(out2 := v);
    fail := if ok then fail else fail + 1;
    r := c.(multi := d);
    MultiMisses(bad);
  }

  /** A table index read back beyond its table is reset. */
  method ReadIndex(chip: Chip, a: nat, bad: set<nat>, was: byte, max: nat) returns (ok: bool, v: byte)
    requires chip.Valid() && a < PAGE
    ensures ok == (a !in bad) && v == if ok then Index(chip.Contents()[a], max) else was
  {
    ok, v := chip.ReadByte(a, bad, was);
    if ok && v > max {
      v := 0;
    }
  }

  method LoadSerial(chip: Chip, bad: set<nat>, c: Cfg) returns (r: Cfg, fail: nat)
    requires chip.Valid()
    ensures var m := chip.Contents(); var n := NetIn(m, bad, c.net);
      r == c.(times := c.times.(outTime := if TIMEOVER !in bad then m[TIMEOVER] else c.times.outTime),
              net := c.net.(addr := n.addr, speed := n.speed, parity := n.parity))
    ensures fail == Miss(bad, TIMEOVER) + Miss(bad, COMM_ADDR) + Miss(bad, COMM_SPEED) + Miss(bad, COMM_PARITY)
  {
    hide Index, OctetsIn;
    var n, ok, b := c.net, true, 0;
    fail := 0;
    r := c;
    ok, b := chip.ReadByte(TIMEOVER, bad, 0);
    if ok { r := r.(times := r.times.(outTime := b)); } else { fail := fail + 1; }
    ok, b := chip.ReadByte(COMM_ADDR, bad, n.addr);
    n := n.(addr := b);
    fail := if ok then fail else fail + 1;
    ok, b := ReadIndex(chip, COMM_SPEED, bad, n.speed, SPEED_IDX_MAX);
    n := n.(speed := b);
    fail := if ok then fail else fail + 1;
    ok, b := ReadIndex(chip, COMM_PARITY, bad, n.parity, PARITY_IDX_MAX);
    n := n.(parity := b);
    fail := if ok then fail else fail + 1;
    r := r.(net := n);
  }

  method LoadCal(chip: Chip, bad: set<nat>, c: Cfg) returns (r: Cfg, fail: nat)
    requires chip.Valid()
    ensures var m := chip.Contents();
      r == c.(cal := Pick(CAL_VAL !in bad, FromWire(U16At(m, CAL_VAL)), c.cal),
        freqCal := Pick(FREQ_CAL_VAL !in bad, FromWire(U16At(m, FREQ_CAL_VAL)), c.freqCal),
              net := c.net.(mode := Pick(COMM_MODE !in bad, m[COMM_MODE], c.net.mode)))
    ensures fail == Miss(bad, CAL_VAL) + Miss(bad, FREQ_CAL_VAL) + Miss(bad, COMM_MODE)
  {
    fail := 0;
    r := c;
    var ok, w := chip.ReadU16(CAL_VAL, bad, 0);
    if ok { r := r.(cal := FromWire(w)); } else { fail := fail + 1; }
    ok, w := chip.ReadU16(FREQ_CAL_VAL, bad, 0);
    if ok { r := r.(freqCal := FromWire(w)); } else { fail := fail + 1; }
    var b;
    ok, b := chip.ReadByte(COMM_MODE, bad, r.net.mode);
    r := r.(net := r.net.(mode := b));
    fail := if ok then fail else fail + 1;
  }

  /** Octet `i` of the three addresses. */
  method LoadOctets(chip: Chip, bad: set<nat>, n: Net, i: nat) returns (r: Net, fail: nat)
    requires chip.Valid() && i < 4
    ensures var m := chip.Contents();
      r == n.(ip := n.ip[i := Pick(ETHER_IP + i !in bad, m[ETHER_IP + i], n.ip[i])],
              nm := n.nm[i := Pick(ETHER_NM + i !in bad, m[ETHER_NM + i], n.nm[i])],
              gw := n.gw[i := Pick(ETHER_GW + i !in bad, m[ETHER_GW + i], n.gw[i])])
    ensures fail == Miss(bad, ETHER_IP + i) + Miss(bad, ETHER_NM + i) + Miss(bad, ETHER_GW + i)
  {
    var ok, b;
    r, fail := n, 0;
    ok, b := chip.ReadByte(ETHER_IP + i, bad, r.ip[i]);
    r := r.(ip := r.ip[i := b]);
    fail := if ok then fail else fail + 1;
    ok, b := chip.ReadByte(ETHER_NM + i, bad, r.nm[i]);
    r := r.(nm := r.nm[i := b]);
    fail := if ok then fail else fail + 1;
    ok, b := chip.ReadByte(ETHER_GW + i, bad, r.gw[i]);
    r := r.(gw := r.gw[i := b]);
    fail := if ok then fail else fail + 1;
  }

  function FirstOctets(m: Page, bad: set<nat>, a: nat, d: Octets, i: nat): (o: Octets)
    requires a + 4 <= PAGE
  {
    var r := OctetsIn(m, bad, a, d);
    [if i > 0 then r[0] else d[0], if i > 1 then r[1] else d[1], if i > 2 then r[2] else d[2],
      if i > 3 then r[3] else d[3]]
  }

  /** The first `i` octets of each address are read, the rest are still the
      given ones. */
  function PartIn(m: Page, bad: set<nat>, d: Net, i: nat): Net {
    d.(ip := FirstOctets(m, bad, ETHER_IP, d.ip, i), nm := FirstOctets(m, bad, ETHER_NM, d.nm, i),
      gw := FirstOctets(m, bad, ETHER_GW, d.gw, i))
  }

  lemma NextOctet(m: Page, bad: set<nat>, a: nat, d: Octets, i: nat)
    requires a + 4 <= PAGE && i < 4
    ensures var o := FirstOctets(m, bad, a, d, i);
      o[i := Pick(a + i !in bad, m[a + i], o[i])] == FirstOctets(m, bad, a, d, i + 1)
  {
  }

  method LoadEther(chip: Chip, bad: set<nat>, c: Cfg) returns (r: Cfg, fail: nat)
    requires chip.Valid()
    ensures var m := chip.Contents();
      r == c.(net := c.net.(ip := OctetsIn(m, bad, ETHER_IP, c.net.ip), nm := OctetsIn(m, bad, ETHER_NM, c.net.nm),
        gw := OctetsIn(m, bad, ETHER_GW, c.net.gw)))
    ensures fail == Misses(bad, EtherAt(4))
  {
    var n := c.net;
    fail := 0;
    ghost var m := chip.Contents();
    NoOctets(m, bad, n);
    AllOctets(m, bad, n);
    for i := 0 to 4
      invariant fail == Misses(bad, EtherAt(i)) && n == PartIn(m, bad, c.net, i)
    {
      hide Misses, EtherAt, Miss, OctetsIn, FirstOctets;
      NextOctet(m, bad, ETHER_IP, c.net.ip, i);
      NextOctet(m, bad, ETHER_NM, c.net.nm, i);
      NextOctet(m, bad, ETHER_GW, c.net.gw, i);
      EtherMisses(bad, i);
      var f;
      n, f := LoadOctets(chip, bad, n, i);
      fail := fail + f;
    }
    r := c.(net := n);
  }

  lemma NoOctets(m: Page, bad: set<nat>, d: Net)
    ensures PartIn(m, bad, d, 0) == d && Misses(bad, EtherAt(0)) == 0
  {
    assert bad * {} == {};
    assert Octets4(d.ip) && Octets4(d.nm) && Octets4(d.gw);
  }

  lemma AllOctets(m: Page, bad: set<nat>, d: Net)
    ensures PartIn(m, bad, d, 4) ==
      d.(ip := OctetsIn(m, bad, ETHER_IP, d.ip), nm := OctetsIn(m, bad, ETHER_NM, d.nm),
      gw := OctetsIn(m, bad, ETHER_GW, d.gw))
  {
  }

  /** app_config_load. `bad` holds the addresses whose reads fail. */
  method Load(chip: Chip, bad: set<nat>) returns (c: Cfg, fail: nat)
    requires chip.Valid()
    modifies chip.mem
    ensures var m, m' := old(chip.Contents()), chip.Contents();
      if FLAG in bad then fail == UNREADABLE && c == Defaults() && m' == m
      else if m[0] != 0xAA then
        fail == 0 && c == Defaults() && m'[0] == 0xAA && Stored(m', Defaults()) && SameBut(m, m', FLAG, ETHER_GW + 4)
      else fail == |bad * FieldsAt()| && c == Loaded(m, bad, Defaults()) && WrittenBack(m, m', bad)
  {
    c := Defaults();
    var ok, flag := chip.ReadByte(FLAG, bad, 0);
    if !ok {
      return c, UNREADABLE;
    }
    if flag != FLAG_MAGIC {
      chip.WriteByte(FLAG, FLAG_MAGIC);
      SaveAll(chip, c);
      return c, 0;
    }
    c, fail := LoadFields(chip, bad, c);
  }

  method LoadFields(chip: Chip, bad: set<nat>, d: Cfg) returns (c: Cfg, fail: nat)
    requires chip.Valid()
    modifies chip.mem
    ensures var m, m' := old(chip.Contents()), chip.Contents();
      fail == |bad * FieldsAt()| && c == Loaded(m, bad, d) && WrittenBack(m, m', bad)
  {
    hide U16At, U32At, OctetsIn, ClampPower, Capped;
    var f1, f2, f3, f4, f5, f6, f7, f8;
    c, f1 := LoadTimes(chip, bad, d);
    c, f2 := LoadModel(chip, bad, c);
    c, f3 := LoadPower(chip, bad, c);
    c, f4 := LoadEnergy(chip, bad, c);
    ghost var m, m' := old(chip.Contents()), chip.Contents();
    c, f5 := LoadMulti(chip, bad, c);
    c, f6 := LoadSerial(chip, bad, c);
    c, f7 := LoadCal(chip, bad, c);
    c, f8 := LoadEther(chip, bad, c);
    fail := f1 + f2 + f3 + f4 + f5 + f6 + f7 + f8;
    MissesOfSix(bad, SAFTY, RUN_MODE, MODEL_FREQ, MODEL_TYPE, OUT_POWER, ON_TIME);
    SerialMisses(bad);
    FailuresAdd(bad);
    SameElsewhere(m, m', bad, d);
  }
}
