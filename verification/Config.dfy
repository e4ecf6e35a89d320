/** The controller configuration. */
module Config {
  import opened Words

  type s16 = x: int | -0x8000 <= x < 0x8000
  type Octets = s: seq<byte> | |s| == 4 witness [0, 0, 0, 0]

  const SPEED_IDX_MAX: nat := 5
  const PARITY_IDX_MAX: nat := 2
  const ADDR_MIN: nat := 1
  const ADDR_MAX: nat := 247

  /** The fields of app_config_t, grouped by what they govern. */
  datatype Times = Times(delay1: u16, delay2: u16, delay3: u16, trigger2: u16, trigger3: u16, onTime: u16, outTime: u16)

  datatype Multi = Multi(out1: u16, out2: u16, time1: u16, time2: u16)

  datatype Model = Model(freq: byte, kind: byte, safety: byte, runMode: byte)

  datatype Net = Net(addr: byte, speed: byte, parity: byte, mode: byte, ip: Octets, nm: Octets, gw: Octets)

  datatype Cfg = Cfg(
    model: Model, times: Times, multi: Multi, power: byte, workCnt: u32, energy: u32,
    energyCtrl: bool, multiCtrl: bool, cal: s16, freqCal: s16, net: Net)

  /** A signed word as it travels in a register: two's complement. */
  function ToWire(v: s16): (w: u16) { v % 0x1_0000 }

  function FromWire(w: u16): (v: s16) { if w < 0x8000 then w else w - 0x1_0000 }

  lemma WireRoundTrip(v: s16, w: u16)
    ensures FromWire(ToWire(v)) == v && ToWire(FromWire(w)) == w
  {
  }

  function AtMost(v: u16, max: u16): (r: u16) { if v > max then max else v }

  /** [50,100]. */
  function ClampPower(v: u16): (r: u16)
    ensures 50 <= r <= 100
  {
    if v > 100 then 100 else if v < 50 then 50 else v
  }

  function Defaults(): Cfg {
    Cfg(Model(0, 0, 0, 0), Times(50, 50, 50, 50, 50, 50, 10), Multi(25, 50, 25, 50), 50, 0, 100000,
        false, false, 0, 0, Net(0, 0, 0, 0, [0, 0, 0, 0], [0, 0, 0, 0], [0, 0, 0, 0]))
  }
}
