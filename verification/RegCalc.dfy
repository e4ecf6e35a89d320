/** The pure arithmetic of the regulator: displayed current and power, run
    energy, and the fixed-point filter of the measured current. */
module RegCalc {
  import opened Words
  import opened Config

  const ENERGY_DIV: nat := 250
  const DEADBAND: int := 14
  const OVTIME_SEC_MS: nat := 1000

  /** The displayed current before it is narrowed to 16 bits. */
  function RawCurrent(ch1Avg: u16, cal: s16): int { ch1Avg * 59 / 126 + cal }

  function CurrentFromAdc(ch1Avg: u16, cal: s16): (a: u16) {
    var v := RawCurrent(ch1Avg, cal);
    if v <= DEADBAND then 0 else v % 0x1_0000
  }

  function RawPower(amp: u16): nat { amp * 22 / 10 }

  function PowerFromAmp(amp: u16): (p: u16) { RawPower(amp) % 0x1_0000 }

  function EnergyFromAcc(acc: u32): (e: u32) { acc / ENERGY_DIV }

  function OnTime200(elapsed: u32): (u: byte) {
    if elapsed / 200 > 200 then 200 else elapsed / 200
  }

  datatype Outcome = Continue | StopEnergy | FaultOvtime

  function EnergyTermination(ctrl: bool, curr: u32, limit: u32, elapsed: u32, outTime: u16): Outcome {
    if !ctrl then Continue
    else if limit != 0 && curr >= limit then StopEnergy
    else if elapsed >= outTime * OVTIME_SEC_MS then FaultOvtime
    else Continue
  }

  /** In energy mode a run goes on exactly while its target, if any, is not
      reached and its time limit is not over; reaching the target is never
      reported as a fault, not even at the time limit. */
  lemma EnergyRunEnds(curr: u32, limit: u32, elapsed: u32, outTime: u16)
    ensures
      var o, reached := EnergyTermination(true, curr, limit, elapsed, outTime), limit != 0 && curr >= limit;
      && (o.Continue? <==> !reached && elapsed < 1000 * outTime)
      && (o.FaultOvtime? <==> !reached && elapsed >= 1000 * outTime)
  {
  }

  /** Narrowing the current never loses bits. */
  lemma CurrentNeverTruncates(ch1Avg: u16, cal: s16)
    ensures RawCurrent(ch1Avg, cal) > DEADBAND ==> CurrentFromAdc(ch1Avg, cal) == RawCurrent(ch1Avg, cal)
  {
    assert ch1Avg * 59 / 126 <= 0xFFFF * 59 / 126;
  }

  /** Narrowing the power keeps its value exactly for currents up to 29789. */
  lemma PowerTruncatesIff(ch1Avg: u16, cal: s16)
    ensures var a := CurrentFromAdc(ch1Avg, cal);
      PowerFromAmp(a) == RawPower(a) <==> RawCurrent(ch1Avg, cal) <= 29789
  {
    CurrentNeverTruncates(ch1Avg, cal);
  }

  /** The largest filtered current a 12-bit converter can produce. */
  const CH1_MAX: nat := 24570

  /** Within the remote calibration range nothing is lost at all. */
  lemma NoTruncationInCalRange(ch1Avg: u16, cal: s16)
    requires ch1Avg <= CH1_MAX && -1000 <= cal <= 1000
    ensures var a := CurrentFromAdc(ch1Avg, cal);
      && a == (if RawCurrent(ch1Avg, cal) <= DEADBAND then 0 else RawCurrent(ch1Avg, cal))
      && PowerFromAmp(a) == RawPower(a)
  {
    assert ch1Avg * 59 / 126 <= CH1_MAX * 59 / 126;
    CurrentNeverTruncates(ch1Avg, cal);
    PowerTruncatesIff(ch1Avg, cal);
  }

  /** A calibration the panel accepts, and for which the power does wrap. */
  lemma PanelCalCanWrapPower()
    ensures var a := CurrentFromAdc(CH1_MAX, 32767); RawPower(a) == 97398 && PowerFromAmp(a) == 31862
  {
  }

  // --- The filter: state in sixteenths, moving half way each commit ---

  /** C division by two: towards zero. */
  function Half(d: int): (h: int) { if d >= 0 then d / 2 else -((-d) / 2) }

  function Filtered(x16: int, avg: nat): int { x16 + Half(avg * 16 - x16) }

  /** `n` commits of the same average. */
  function FilteredN(x16: int, avg: nat, n: nat): int {
    if n == 0 then x16 else Filtered(FilteredN(x16, avg, n - 1), avg)
  }

  function Abs(x: int): nat { if x < 0 then -x else x }

  function CeilDiv(a: nat, b: nat): nat
    requires b > 0
  {
    (a + b - 1) / b
  }

  lemma MulGrows(m: int, d: nat)
    requires d > 0
    ensures m >= 1 ==> m * d >= d
    ensures m <= -1 ==> m * d + d <= 0
  {
  }

  lemma DivIs(x: nat, d: nat, q: nat, r: nat)
    requires d > 0 && r < d && x == q * d + r
    ensures x / d == q
  {
    var m := x / d - q;
    assert x == (x / d) * d + x % d;
    assert m * d == r - x % d;
    MulGrows(m, d);
  }

  /** Halving upwards a quotient rounded up is the quotient by twice as much. */
  lemma CeilHalves(a: nat, b: nat)
    requires b > 0
    ensures CeilDiv(CeilDiv(a, b), 2) == CeilDiv(a, 2 * b)
  {
    var q, r := (a + b - 1) / b, (a + b - 1) % b;
    var k := (q + 1) / 2;
    assert a + b - 1 == q * b + r;
    HalfOf(a, b, q, r, k);
  }

  lemma HalfOf(a: nat, b: nat, q: nat, r: nat, k: nat)
    requires b > 0 && r < b && a + b - 1 == q * b + r && k == (q + 1) / 2
    ensures (a + 2 * b - 1) / (2 * b) == k
  {
    if q + 1 == 2 * k {
      Doubled(k, b, q + 1);
      OneMore(q, b);
      DivIs(a + 2 * b - 1, 2 * b, k, r);
    } else {
      Doubled(k, b, q);
      DivIs(a + 2 * b - 1, 2 * b, k, b + r);
    }
  }

  lemma OneMore(q: nat, b: nat)
    ensures (q + 1) * b == q * b + b
  {
  }

  lemma Doubled(k: nat, b: nat, m: nat)
    requires m == 2 * k
    ensures m * b == k * (2 * b)
  {
  }

  /** With a constant input the error after `n` commits is exactly the first
      one divided by 2^n, rounded up, and it keeps its sign: no overshoot. */
  lemma {:induction false} FilterConverges(x16: int, avg: nat, n: nat)
    ensures var d0, dn := avg * 16 - x16, avg * 16 - FilteredN(x16, avg, n);
      Abs(dn) == CeilDiv(Abs(d0), Pow2(n)) && (d0 >= 0 ==> dn >= 0) && (d0 <= 0 ==> dn <= 0)
    decreases n
  {
    if n > 0 {
      FilterConverges(x16, avg, n - 1);
      var d := avg * 16 - FilteredN(x16, avg, n - 1);
      assert avg * 16 - FilteredN(x16, avg, n) == d - Half(d);
      assert Abs(d - Half(d)) == CeilDiv(Abs(d), 2);
      CeilHalves(Abs(avg * 16 - x16), Pow2(n - 1));
    }
  }

  /** From anywhere in the 12-bit range, 19 commits bring the error down to at
      most one sixteenth. */
  lemma SettledAfter19(x16: int, avg: nat)
    requires 0 <= x16 <= CH1_MAX * 16 && avg <= CH1_MAX
    ensures Abs(avg * 16 - FilteredN(x16, avg, 19)) <= 1
  {
    FilterConverges(x16, avg, 19);
    Pow2Values();
    assert Pow2(19) == 8 * Pow2(16);
    DivIsAtMostOne(Abs(avg * 16 - x16), Pow2(19));
  }

  lemma DivIsAtMostOne(a: nat, b: nat)
    requires 0 < b && a <= b
    ensures CeilDiv(a, b) <= 1
  {
    if a == 0 {
      DivIs(b - 1, b, 0, b - 1);
    } else {
      DivIs(a + b - 1, b, 1, a - 1);
    }
  }

  /** The filter never leaves the range of its inputs. */
  lemma FilterStaysInRange(x16: int, avg: nat)
    requires 0 <= x16 <= CH1_MAX * 16 && avg <= CH1_MAX
    ensures 0 <= Filtered(x16, avg) <= CH1_MAX * 16
  {
  }
}
