/** What holds of every run: its age, the number of publications it sees, and
    the energy shown for it. */
module RunEnergy {
  import opened Words
  import opened RegCalc
  import opened Regulator

  /** Everything that can happen to the arbiter. Instants are on an unbounded
      clock; the firmware sees them modulo 2^32. */
  datatype Event =
    | Cmd(cmd: Command, src: Source, il: Interlocks)
    | Fault
    | Tock(lim: Limits, sn: Sensors)

  /** The arbiter with a history the firmware does not keep: the instant of the
      last tick and of the last publication, the start of the current run, the
      publications that accumulated in it, and the sum of the published power
      since the accumulator was last cleared. */
  datatype History = History(c: Core, tick: nat, published: nat, start: nat, count: nat, sum: nat)

  /** The publication a tick makes clears the accumulator on a seek edge and
      then, during a run, adds the published power to it. */
  function AfterPublish(h: History, c: Core, now: nat, sn: Sensors): History {
    var cleared := sn.seek != c.reg.seekShown;
    var base := if cleared then 0 else h.sum;
    var c' := Published(c, Tick(now), sn.freq, sn.seek);
    if Active(c.reg) then h.(c := c', published := now, count := h.count + 1, sum := base + c'.m.currPower)
    else h.(c := c', published := now, sum := base)
  }

  function Next(h: History, e: Event, now: nat): History {
    match e
    case Cmd(cmd, src, il) =>
      var c' := Commanded(h.c, cmd, src, il, Tick(now));
      if Accepts(h.c, cmd, src, il) then h.(c := c', start := now, count := 0, sum := 0) else h.(c := c')
    case Fault => h.(c := h.c.(reg := h.c.reg.(fault := true)))
    case Tock(lim, sn) =>
      var b := BeforePublish(h.c, Tick(now), lim, sn);
      if Publishes(b, Tick(now)) then AfterPublish(h, b.(reg := b.reg.(publishAt := Tick(now))), now, sn).(tick := now)
      else h.(c := b, tick := now)
  }

  /** The history follows the firmware's own step. */
  lemma NextFollowsTick(h: History, lim: Limits, sn: Sensors, now: nat)
    ensures Next(h, Tock(lim, sn), now).c == Ticked(h.c, Tick(now), lim, sn)
  {
  }

  /** At most one publication per two milliseconds of a run younger than 30 s. */
  const MAX_PUBLISH: nat := 15000

  ghost predicate Inv(h: History, now: nat) {
    var r := h.c.reg;
    && h.published <= h.tick <= now
    && r.publishAt == Tick(h.published)
    && (Active(r) ==>
      && h.start <= now && r.runStart == Tick(h.start) && h.tick < h.start + ON_TIME_SAFETY_MS
      && (h.count == 0 || (h.start <= h.published && 2 * h.count <= h.published - h.start + 2))
      && h.sum <= 0xFFFF * h.count)
    && r.acc == h.sum && h.c.m.currEnergy == h.sum / ENERGY_DIV
  }

  lemma BootInv(now: nat)
    ensures Inv(History(Boot(Tick(now)), now, now, 0, 0, 0), now)
  {
  }

  /** Ticks come less than 2^32 ms - 30 s apart (nearly 50 days). */
  predicate Timely(h: History, now: nat) { now < h.tick + WRAP - ON_TIME_SAFETY_MS }

  lemma AgeIsReal(h: History, now: nat, before: nat)
    requires Inv(h, before) && before <= now && Timely(h, now) && Active(h.c.reg)
    ensures Elapsed(Tick(now), h.c.reg.runStart) == now - h.start
  {
    ElapsedIsReal(now, h.start);
  }

  /** Same accumulator, measurement, publication instant and run start; the
      run is the same one or has ended. */
  predicate Keeps(c: Core, d: Core) {
    && d.reg.acc == c.reg.acc && d.m == c.m && d.reg.publishAt == c.reg.publishAt && d.reg.runStart == c.reg.runStart
    && d.reg.seekShown == c.reg.seekShown && (Active(d.reg) ==> d.reg.run == c.reg.run)
  }

  lemma WarmedKeeps(c: Core, now: u32, lim: Limits)
    ensures Keeps(c, Warmed(c, now, lim))
  {
    hide Elapsed;
  }

  lemma GuardedKeeps(c: Core, now: u32)
    ensures Keeps(c, Guarded(c, now))
    ensures Active(Guarded(c, now).reg) ==> Elapsed(now, c.reg.runStart) < ON_TIME_SAFETY_MS
  {
    hide Elapsed;
  }

  lemma StoppedKeeps(c: Core)
    ensures Keeps(c, Stopped(c)) && Keeps(c, Stopped(c).(reg := Stopped(c).reg.(fault := true)))
  {
  }

  lemma TerminatedKeeps(c: Core, now: u32, lim: Limits)
    ensures Keeps(c, Terminated(c, now, lim))
  {
    hide Verdict, CeilingStops, Stopped, Keeps;
    StoppedKeeps(c);
    KeepsItself(c);
  }

  lemma KeepsItself(c: Core)
    ensures Keeps(c, c)
  {
  }

  lemma SampledKeeps(c: Core, now: u32, sample: u16)
    ensures Keeps(c, Sampled(c, now, sample))
  {
    hide Elapsed, Acquired;
    AcquireKeepsRun(c.reg.(acquireAt := now), sample);
  }

  lemma AcquireKeepsRun(r: Reg, sample: u16)
    ensures
      var r' := Acquired(r, sample);
      && r'.acc == r.acc && r'.publishAt == r.publishAt && r'.runStart == r.runStart
      && r'.seekShown == r.seekShown && r'.run == r.run
  {
    hide Filtered;
  }

  /** The steps before the publication stop an old run and touch neither the
      accumulator nor the run's start. */
  lemma BeforePublishKeeps(c: Core, now: u32, lim: Limits, sn: Sensors)
    ensures var b := BeforePublish(c, now, lim, sn);
      Keeps(c, b) && (Active(b.reg) ==> Elapsed(now, c.reg.runStart) < ON_TIME_SAFETY_MS)
  {
    hide Elapsed, Warmed, Guarded, Terminated, Sampled;
    var c1 := Warmed(c, now, lim);
    var c2 := Guarded(c1, now);
    var c3 := Terminated(c2, now, lim);
    WarmedKeeps(c, now, lim);
    GuardedKeeps(c1, now);
    TerminatedKeeps(c2, now, lim);
    SampledKeeps(c3, now, sn.sample);
  }

  /** What one publication does to the energy bookkeeping. */
  lemma PublishedEnergy(c: Core, now: u32, freq: u16, seek: bool)
    ensures var c' := Published(c, now, freq, seek);
      var base := if seek != c.reg.seekShown then 0 else c.reg.acc;
      && c'.reg.run == c.reg.run && c'.reg.runStart == c.reg.runStart && c'.reg.publishAt == c.reg.publishAt
      && c'.m.run == c.reg.run
      && (Active(c.reg) ==> c'.reg.acc == (base + c'.m.currPower) % WRAP && c'.m.currEnergy == c'.reg.acc / ENERGY_DIV)
      && (!Active(c.reg) ==>
        c'.reg.acc == base && c'.m.currEnergy == if seek != c.reg.seekShown then 0 else c.m.currEnergy)
  {
    hide CurrentFromAdc, PowerFromAmp, OnTime200, Elapsed;
  }

  /** The periodic tick starts nothing: it keeps the run or ends it. */
  lemma RegulateKeepsSource(c: Core, now: u32, lim: Limits, sn: Sensors)
    ensures var r := Ticked(c, now, lim, sn).reg.run; r.Idle? || r == c.reg.run
  {
    BeforePublishKeeps(c, now, lim, sn);
    var b := BeforePublish(c, now, lim, sn);
    PublishedEnergy(b.(reg := b.reg.(publishAt := now)), now, sn.freq, sn.seek);
    hide BeforePublish, Published;
  }

  /** Nothing runs, nothing is at fault, and warm-up is over. */
  predicate Free(r: Reg) { !r.warm && r.run.Idle? && !r.fault }

  /** The periodic tick disturbs none of that. */
  lemma RegulateKeepsFree(c: Core, now: u32, lim: Limits, sn: Sensors)
    requires Free(c.reg)
    ensures Free(Ticked(c, now, lim, sn).reg)
  {
    hide BeforePublish, Published;
    BeforePublishFree(c, now, lim, sn);
    var b := BeforePublish(c, now, lim, sn);
    PublishedFree(b.(reg := b.reg.(publishAt := now)), now, sn.freq, sn.seek);
  }

  lemma BeforePublishFree(c: Core, now: u32, lim: Limits, sn: Sensors)
    requires Free(c.reg)
    ensures Free(BeforePublish(c, now, lim, sn).reg)
  {
    var w := Warmed(c, now, lim);
    assert Free(w.reg) && Guarded(w, now) == w && Terminated(w, now, lim) == w;
    hide Elapsed, Filtered, Warmed, Guarded, Terminated;
  }

  lemma PublishedFree(c: Core, now: u32, freq: u16, seek: bool)
    requires Free(c.reg)
    ensures Free(Published(c, now, freq, seek).reg)
  {
    hide CurrentFromAdc, PowerFromAmp, OnTime200, Elapsed;
  }

  lemma TickInv(h: History, lim: Limits, sn: Sensors, now: nat, before: nat)
    requires Inv(h, before) && before <= now && Timely(h, now)
    ensures Inv(Next(h, Tock(lim, sn), now), now)
  {
    hide BeforePublish, Published, Elapsed, Tick;
    var b := BeforePublish(h.c, Tick(now), lim, sn);
    BeforePublishKeeps(h.c, Tick(now), lim, sn);
    if Active(b.reg) {
      AgeIsReal(h, now, before);
    }
    if Publishes(b, Tick(now)) {
      var p := b.(reg := b.reg.(publishAt := Tick(now)));
      PublishedEnergy(p, Tick(now), sn.freq, sn.seek);
      if Active(b.reg) {
        PublishInRun(h, now, Tick(now));
        SumFits(h.sum, h.count, Published(p, Tick(now), sn.freq, sn.seek).m.currPower);
      }
    }
  }

  lemma SumFits(sum: nat, count: nat, power: u16)
    requires sum <= 0xFFFF * count && 0xFFFF * (count + 1) < WRAP
    ensures sum + power <= 0xFFFF * (count + 1)
    ensures (sum + power) % WRAP == sum + power && power % WRAP == power && power <= 0xFFFF * (count + 1)
  {
  }

  /** Two publications are at least two milliseconds apart, so a young run has
      room for another one and its sum stays far from 2^32. */
  lemma PublishInRun(h: History, now: nat, t: u32)
    requires h.published <= now && t == Tick(now) && Elapsed(t, Tick(h.published)) >= TICK_MS
    requires h.start <= now < h.start + ON_TIME_SAFETY_MS
    requires h.count == 0 || (h.start <= h.published && 2 * h.count <= h.published - h.start + 2)
    ensures h.published + TICK_MS <= now
    ensures 2 * (h.count + 1) <= now - h.start + 2 && h.count + 1 <= MAX_PUBLISH
    ensures 0xFFFF * (h.count + 1) < WRAP
  {
    if now < h.published + TICK_MS {
      ElapsedIsReal(now, h.published);
      assert false;
    }
  }

  lemma CommandInv(h: History, cmd: Command, src: Source, il: Interlocks, now: nat, before: nat)
    requires Inv(h, before) && before <= now
    ensures Inv(Next(h, Cmd(cmd, src, il), now), now)
  {
    CommandMeaning(h.c, cmd, src, il, Tick(now));
  }

  // --- Every run ---

  /** Events with their instants; time does not go back, and ticks are timely. */
  predicate Schedule(h: History, before: nat, events: seq<(Event, nat)>)
    decreases |events|
  {
    events == [] ||
    (before <= events[0].1 && Timely(h, events[0].1)
      && Schedule(Next(h, events[0].0, events[0].1), events[0].1, events[1..]))
  }

  function Final(h: History, events: seq<(Event, nat)>): History
    decreases |events|
  {
    if events == [] then h else Final(Next(h, events[0].0, events[0].1), events[1..])
  }

  function LastInstant(before: nat, events: seq<(Event, nat)>): nat {
    if events == [] then before else events[|events| - 1].1
  }

  lemma {:induction false} EveryRunInv(h: History, before: nat, events: seq<(Event, nat)>)
    requires Inv(h, before) && Schedule(h, before, events)
    ensures Inv(Final(h, events), LastInstant(before, events))
    decreases |events|
  {
    if events != [] {
      var (e, now) := events[0];
      match e {
        case Cmd(cmd, src, il) => CommandInv(h, cmd, src, il, now, before);
        case Fault =>
        case Tock(lim, sn) => TickInv(h, lim, sn, now, before);
      }
      EveryRunInv(Next(h, e, now), now, events[1..]);
    }
  }

  /** The accumulator never wraps: at every point of every schedule it holds
      the true sum of the power published since it was last cleared, and the
      energy shown is that sum divided by 250. */
  lemma EnergyIsTrueSum(boot: nat, events: seq<(Event, nat)>)
    requires Schedule(History(Boot(Tick(boot)), boot, boot, 0, 0, 0), boot, events)
    ensures var h := Final(History(Boot(Tick(boot)), boot, boot, 0, 0, 0), events);
      h.c.reg.acc == h.sum && h.c.m.currEnergy == h.sum / 250
  {
    BootInv(boot);
    EveryRunInv(History(Boot(Tick(boot)), boot, boot, 0, 0, 0), boot, events);
  }

  /** No publication sees a run 30 s old, and no run sees more than 15000
      accumulating publications. */
  lemma PublishedRunIsYoung(h: History, lim: Limits, sn: Sensors, now: nat, before: nat)
    requires Inv(h, before) && before <= now && Timely(h, now)
    ensures var h' := Next(h, Tock(lim, sn), now);
      Publishes(BeforePublish(h.c, Tick(now), lim, sn), Tick(now)) && Active(h'.c.reg) ==>
        && h'.c.m.run == h'.c.reg.run && now - h'.start < 30000 && h'.count <= 15000
  {
    TickInv(h, lim, sn, now, before);
    var b := BeforePublish(h.c, Tick(now), lim, sn);
    BeforePublishKeeps(h.c, Tick(now), lim, sn);
    PublishedEnergy(b.(reg := b.reg.(publishAt := Tick(now))), Tick(now), sn.freq, sn.seek);
    hide BeforePublish, Published;
  }

  // --- The filtered current ---

  ghost predicate FilterInv(r: Reg) {
    && r.ch1Count < CH1_SAMPLES && r.ch1Acc <= 4095 * r.ch1Count
    && 0 <= r.filter <= 16 * CH1_MAX && r.ch1Avg <= CH1_MAX
  }

  /** Whatever the 12-bit samples, the filtered current stays in range. */
  lemma FilterInvKept(r: Reg, sample: u16)
    requires FilterInv(r) && sample <= 4095
    ensures FilterInv(Acquired(r, sample))
  {
    hide Filtered;
    AverageFits(r.ch1Acc, r.ch1Count, sample);
    if r.ch1Count + 1 >= CH1_SAMPLES {
      SixteenthFits(Filtered(r.filter, (r.ch1Acc + sample) * 6 / CH1_SAMPLES));
      FilterStaysInRange(r.filter, (r.ch1Acc + sample) * 6 / CH1_SAMPLES);
    }
  }

  lemma AverageFits(acc: nat, n: nat, sample: nat)
    requires n < CH1_SAMPLES && acc <= 4095 * n && sample <= 4095
    ensures (acc + sample) % WRAP == acc + sample && (acc + sample) * 6 % WRAP == (acc + sample) * 6
    ensures (acc + sample) * 6 / CH1_SAMPLES <= CH1_MAX
  {
    assert acc + sample <= 4095 * 50;
  }

  lemma SixteenthFits(f: int)
    ensures 0 <= f <= 16 * CH1_MAX ==> f / 16 % 0x1_0000 <= CH1_MAX
  {
  }

  /** Power-on begins in range. */
  lemma BootFilter(now: u32)
    ensures FilterInv(Boot(now).reg)
  {
  }

  predicate TwelveBit(e: Event) { e.Tock? ==> e.sn.sample <= 4095 }

  lemma PublishKeepsFilter(c: Core, now: u32, freq: u16, seek: bool)
    ensures SameFilter(c.reg, Published(c, now, freq, seek).reg)
  {
    hide CurrentFromAdc, PowerFromAmp, OnTime200, Elapsed;
  }

  lemma FilterInvStep(h: History, e: Event, now: nat)
    requires FilterInv(h.c.reg) && TwelveBit(e)
    ensures FilterInv(Next(h, e, now).c.reg)
  {
    hide BeforePublish, Published, Commanded, Accepts, Elapsed, Tick;
    match e {
      case Cmd(cmd, src, il) =>
        CommandKeepsFilter(h.c, cmd, src, il, Tick(now));
      case Fault =>
      case Tock(lim, sn) =>
        var b := BeforePublish(h.c, Tick(now), lim, sn);
        BeforePublishFilter(h.c, Tick(now), lim, sn);
        PublishKeepsFilter(b.(reg := b.reg.(publishAt := Tick(now))), Tick(now), sn.freq, sn.seek);
    }
  }

  lemma CommandKeepsFilter(c: Core, cmd: Command, src: Source, il: Interlocks, now: u32)
    ensures SameFilter(c.reg, Commanded(c, cmd, src, il, now).reg)
  {
  }

  predicate SameFilter(r: Reg, s: Reg) {
    s.ch1Count == r.ch1Count && s.ch1Acc == r.ch1Acc && s.filter == r.filter && s.ch1Avg == r.ch1Avg
  }

  lemma StopsKeepFilter(c: Core, now: u32, lim: Limits)
    ensures SameFilter(c.reg, Warmed(c, now, lim).reg)
    ensures SameFilter(c.reg, Guarded(c, now).reg)
    ensures SameFilter(c.reg, Terminated(c, now, lim).reg)
  {
    hide Elapsed, Verdict, Latched;
    LatchKeepsFilter(c);
  }

  lemma LatchKeepsFilter(c: Core)
    ensures SameFilter(c.reg, Latched(c).reg)
  {
  }

  lemma BeforePublishFilter(c: Core, now: u32, lim: Limits, sn: Sensors)
    requires FilterInv(c.reg) && sn.sample <= 4095
    ensures FilterInv(BeforePublish(c, now, lim, sn).reg)
  {
    hide Elapsed, Warmed, Guarded, Terminated, Acquired;
    var c1 := Warmed(c, now, lim);
    var c2 := Guarded(c1, now);
    var c3 := Terminated(c2, now, lim);
    StopsKeepFilter(c, now, lim);
    StopsKeepFilter(c1, now, lim);
    StopsKeepFilter(c2, now, lim);
    FilterInvKept(c3.reg.(acquireAt := now), sn.sample);
  }

  /** At every point of every schedule of 12-bit samples ch1_avg is at most
      24570. */
  lemma {:induction false} FilterAlwaysInRange(h: History, events: seq<(Event, nat)>)
    requires FilterInv(h.c.reg) && forall i :: 0 <= i < |events| ==> TwelveBit(events[i].0)
    ensures FilterInv(Final(h, events).c.reg)
    decreases |events|
  {
    if events != [] {
      FilterInvStep(h, events[0].0, events[0].1);
      FilterAlwaysInRange(Next(h, events[0].0, events[0].1), events[1..]);
    }
  }
}
