/** What the arbiter shows: the warm-up in real time, the displayed current
    and power, and the peaks of a run. */
module RunReadings {
  import opened Words
  import opened Config
  import opened RegCalc
  import opened Regulator
  import opened RunEnergy

  // --- Warm-up ---

  /** The last warm-up step was at `ramp`, and so many have been made. */
  predicate Warming(h: History, boot: nat, ramp: nat) {
    var r := h.c.reg;
    && r.rampAt == Tick(ramp) && ramp <= h.tick < ramp + 10
    && (r.warm <==> r.rampCount < 401) && boot + 10 * (if r.warm then r.rampCount else 401) <= ramp
    && (!r.run.Idle? ==> !r.warm)
  }

  /** One tick: a warm-up step when the last one is 10 ms old. */
  lemma RampStep(c: Core, now: u32, lim: Limits, sn: Sensors)
    ensures
      var r, r' := c.reg, Ticked(c, now, lim, sn).reg;
      if Elapsed(now, r.rampAt) < 10 then r'.rampAt == r.rampAt && r'.rampCount == r.rampCount && r'.warm == r.warm
      else
        && r'.rampAt == now && r'.rampCount == r.rampCount + (if r.warm then 1 else 0)
        && (r'.warm <==> r.warm && r.rampCount + 1 < 401)
  {
    var w := Warmed(c, now, lim);
    var g := Guarded(w, now);
    var t := Terminated(g, now, lim);
    var b := Sampled(t, now, sn.sample);
    StopsKeep(w, now, lim);
    StopsKeep(g, now, lim);
    SampleKeeps(t, now, sn.sample);
    PublishKeepsRamp(b.(reg := b.reg.(publishAt := now)), now, sn.freq, sn.seek);
    hide Elapsed, Guarded, Terminated, Sampled, Published;
  }

  predicate SameRamp(r: Reg, s: Reg) { s.rampAt == r.rampAt && s.rampCount == r.rampCount && s.warm == r.warm }

  predicate SamePeaks(r: Reg, s: Reg) {
    s.maxPower == r.maxPower && s.maxAmp == r.maxAmp && s.seekShown == r.seekShown
  }

  lemma StoppedKeeps(c: Core)
    ensures SameRamp(c.reg, Stopped(c).reg) && SamePeaks(c.reg, Stopped(c).reg)
  {
  }

  lemma StopsKeep(c: Core, now: u32, lim: Limits)
    ensures SameRamp(c.reg, Guarded(c, now).reg) && SamePeaks(c.reg, Guarded(c, now).reg)
    ensures SameRamp(c.reg, Terminated(c, now, lim).reg) && SamePeaks(c.reg, Terminated(c, now, lim).reg)
  {
    hide Elapsed, Verdict, Stopped, CeilingStops;
    StoppedKeeps(c);
  }

  lemma SampleKeeps(c: Core, now: u32, sample: u16)
    ensures SameRamp(c.reg, Sampled(c, now, sample).reg) && SamePeaks(c.reg, Sampled(c, now, sample).reg)
  {
    hide Elapsed, Filtered;
  }

  lemma PublishKeepsRamp(c: Core, now: u32, freq: u16, seek: bool)
    ensures SameRamp(c.reg, Published(c, now, freq, seek).reg)
  {
    hide CurrentFromAdc, PowerFromAmp, OnTime200, Elapsed;
  }

  lemma WarmingStep(h: History, e: Event, now: nat, boot: nat, ramp: nat) returns (ramp': nat)
    requires Warming(h, boot, ramp) && h.tick <= now && Timely(h, now)
    ensures Warming(Next(h, e, now), boot, ramp')
    ensures ramp' == ramp || ramp' == now
    ensures ramp' != ramp && h.c.reg.warm ==> Next(h, e, now).c.reg.rampCount == h.c.reg.rampCount + 1
    ensures Next(h, e, now).c.reg.warm ==> h.c.reg.warm
    ensures ramp' == ramp ==> Next(h, e, now).c.reg.rampCount == h.c.reg.rampCount
  {
    ramp' := ramp;
    match e {
      case Cmd(cmd, src, il) =>
      case Fault =>
      case Tock(lim, sn) =>
        ElapsedIsReal(now, ramp);
        RampStep(h.c, Tick(now), lim, sn);
        NextFollowsTick(h, lim, sn, now);
        RegulateKeepsSource(h.c, Tick(now), lim, sn);
        hide Ticked, BeforePublish, Elapsed, Published;
        if now - ramp >= 10 {
          ramp' := now;
        }
        hide Tick;
    }
  }

  lemma {:induction false} WarmingAlways(h: History, before: nat, events: seq<(Event, nat)>, boot: nat, ramp: nat)
    returns (ramp': nat)
    requires Warming(h, boot, ramp) && h.tick <= before && Schedule(h, before, events)
    ensures Warming(Final(h, events), boot, ramp')
    decreases |events|
  {
    if events == [] {
      ramp' := ramp;
    } else {
      var (e, now) := events[0];
      var r := WarmingStep(h, e, now, boot, ramp);
      ramp' := WarmingAlways(Next(h, e, now), now, events[1..], boot, r);
    }
  }

  /** Whatever the commands, no run is on before the 4010th millisecond after
      power-on. */
  lemma NoRunBeforeWarmup(boot: nat, events: seq<(Event, nat)>)
    requires Schedule(History(Boot(Tick(boot)), boot, boot, 0, 0, 0), boot, events)
    ensures
      var h := Final(History(Boot(Tick(boot)), boot, boot, 0, 0, 0), events);
      !h.c.reg.run.Idle? ==> h.tick >= boot + 4010
  {
    var _ := WarmingAlways(History(Boot(Tick(boot)), boot, boot, 0, 0, 0), boot, events, boot, boot);
  }

  /** Ticks no more than 10 ms apart. */
  predicate Steady(h: History, events: seq<(Event, nat)>)
    decreases |events|
  {
    events == [] ||
    (events[0].0.Tock? && events[0].1 <= h.tick + 10 && Steady(Next(h, events[0].0, events[0].1), events[1..]))
  }

  lemma {:induction false} WarmsUp(h: History, before: nat, events: seq<(Event, nat)>, boot: nat, ramp: nat)
    requires Warming(h, boot, ramp) && h.tick <= before && Schedule(h, before, events) && Steady(h, events)
    requires h.c.reg.warm ==> ramp <= boot + 20 * h.c.reg.rampCount
    ensures var h' := Final(h, events); h'.c.reg.warm ==> h'.tick < boot + 8010
    decreases |events|
  {
    if events != [] {
      var (e, now) := events[0];
      var r := WarmingStep(h, e, now, boot, ramp);
      assert now <= ramp + 20;
      WarmsUp(Next(h, e, now), now, events[1..], boot, r);
    }
  }

  /** With ticks at most 10 ms apart warm-up is over after 8.01 s. */
  lemma WarmupEnds(boot: nat, events: seq<(Event, nat)>)
    requires
      var h := History(Boot(Tick(boot)), boot, boot, 0, 0, 0);
      Schedule(h, boot, events) && Steady(h, events)
    ensures
      var h := Final(History(Boot(Tick(boot)), boot, boot, 0, 0, 0), events);
      h.tick >= boot + 8010 ==> !h.c.reg.warm
  {
    WarmsUp(History(Boot(Tick(boot)), boot, boot, 0, 0, 0), boot, events, boot, boot);
  }

  // --- One publication ---

  /** The displayed current and power, the run's on-time bar, and the copies
      taken for the display. */
  lemma PublicationShows(c: Core, now: u32, freq: u16, seek: bool)
    ensures
      var d, live := Published(c, now, freq, seek), !c.reg.run.Idle? || seek;
      var v := c.reg.ch1Avg * 59 / 126 + c.reg.cal;
      && d.m.currAmp == (if v <= 14 then 0 else v % 0x1_0000)
      && d.m.currPower == (if live then d.m.currAmp * 22 / 10 % 0x1_0000 else 0)
      && d.m.live == live && d.m.run == c.reg.run && d.m.fault == c.reg.fault && d.m.currFreq == freq
      && (!c.reg.run.Idle? ==>
        d.m.onTime200 == var bars := Elapsed(now, c.reg.runStart) / 200; if bars > 200 then 200 else bars)
      && (c.reg.run.Idle? ==> d.m.onTime200 == c.m.onTime200)
      && d.m.maxPower == d.reg.maxPower && d.m.maxAmp == d.reg.maxAmp && d.m.lastPower == d.reg.lastPower
      && d.m.lastAmp == d.reg.lastAmp && d.m.lastEnergy == d.reg.lastEnergy && d.m.lastFreq == d.reg.lastFreq
      && d.reg.lastFreq == c.reg.lastFreq
  {
    hide Elapsed;
  }

  /** The display follows seek and reset like a run: the last readings are
      those shown when it ended. */
  lemma SeekEndLatches(c: Core, now: u32, freq: u16, seek: bool)
    ensures
      var r, r' := c.reg, Published(c, now, freq, seek).reg;
      && r'.seekShown == seek
      && (if r.seekShown && !seek then
            r'.lastPower == c.m.currPower && r'.lastAmp == c.m.currAmp && r'.lastEnergy == c.m.currEnergy
          else
            && r'.lastPower == r.lastPower && r'.lastAmp == r.lastAmp
            && r'.lastEnergy == if seek && !r.seekShown then 0 else r.lastEnergy)
  {
    hide CurrentFromAdc, PowerFromAmp, OnTime200, Elapsed;
  }

  /** A tick takes one sample when the last is a millisecond old, and publishes
      when the last publication is two old; a tick that does not publish leaves
      the shown measurement alone. */
  lemma TickRates(c: Core, now: u32, lim: Limits, sn: Sensors)
    ensures
      var d, due := Ticked(c, now, lim, sn), Elapsed(now, c.reg.publishAt) >= 2;
      && d.reg.publishAt == (if due then now else c.reg.publishAt) && (!due ==> d.m == c.m)
      && (due ==> d.m.currFreq == sn.freq && d.m.live == (!d.reg.run.Idle? || sn.seek) && d.m.run == d.reg.run)
      && (if Elapsed(now, c.reg.acquireAt) < 1 then
            d.reg.acquireAt == c.reg.acquireAt && RunEnergy.SameFilter(c.reg, d.reg)
          else
            d.reg.acquireAt == now
            && RunEnergy.SameFilter(Acquired(c.reg, sn.sample), d.reg))
  {
    var b := BeforePublish(c, now, lim, sn);
    BeforePublishKeeps(c, now, lim, sn);
    BeforePublishSamples(c, now, lim, sn);
    if Publishes(b, now) {
      var p := b.(reg := b.reg.(publishAt := now));
      PublicationShows(p, now, sn.freq, sn.seek);
      PublishKeepsFilter(p, now, sn.freq, sn.seek);
      PublishKeepsClock(p, now, sn.freq, sn.seek);
    }
    hide BeforePublish, Published, Elapsed, Acquired;
  }

  lemma PublishKeepsClock(c: Core, now: u32, freq: u16, seek: bool)
    ensures var d := Published(c, now, freq, seek);
      d.reg.publishAt == c.reg.publishAt && d.reg.acquireAt == c.reg.acquireAt && d.reg.run == c.reg.run
  {
    hide CurrentFromAdc, PowerFromAmp, OnTime200, Elapsed;
  }

  predicate SameSampling(r: Reg, s: Reg) { RunEnergy.SameFilter(r, s) && s.acquireAt == r.acquireAt }

  lemma StopsKeepSampling(c: Core, now: u32, lim: Limits)
    ensures SameSampling(c.reg, Warmed(c, now, lim).reg)
    ensures SameSampling(c.reg, Guarded(c, now).reg) && SameSampling(c.reg, Terminated(c, now, lim).reg)
  {
    hide Elapsed, Verdict, Latched, CeilingStops;
    LatchKeepsSampling(c);
  }

  lemma LatchKeepsSampling(c: Core)
    ensures SameSampling(c.reg, Latched(c).reg)
  {
  }

  lemma BeforePublishSamples(c: Core, now: u32, lim: Limits, sn: Sensors)
    ensures
      var r := BeforePublish(c, now, lim, sn).reg;
      if Elapsed(now, c.reg.acquireAt) < 1 then SameSampling(c.reg, r)
      else r.acquireAt == now && RunEnergy.SameFilter(Acquired(c.reg, sn.sample), r)
  {
    var c1 := Warmed(c, now, lim);
    var c2 := Guarded(c1, now);
    StopsKeepSampling(c, now, lim);
    StopsKeepSampling(c1, now, lim);
    StopsKeepSampling(c2, now, lim);
    SamplesAlike(c.reg, Terminated(c2, now, lim).reg, now, sn.sample);
    hide Elapsed, Warmed, Guarded, Terminated, Acquired;
  }

  lemma SamplesAlike(r: Reg, s: Reg, now: u32, sample: u16)
    requires SameSampling(r, s)
    ensures
      var s' := Acquired(s.(acquireAt := now), sample);
      s'.acquireAt == now && RunEnergy.SameFilter(Acquired(r, sample), s')
  {
    SampleOf(r, sample);
    SampleOf(s.(acquireAt := now), sample);
    hide Acquired, Filtered;
  }

  /** A sample looks at the sampling fields alone, and keeps its instant. */
  lemma SampleOf(r: Reg, sample: u16)
    ensures
      var r', acc := Acquired(r, sample), (r.ch1Acc + sample) % WRAP;
      && r'.acquireAt == r.acquireAt
      && (if r.ch1Count + 1 >= 50 then
            && r'.ch1Acc == 0 && r'.ch1Count == 0 && r'.filter == Filtered(r.filter, acc * 6 % WRAP / 50)
            && r'.ch1Avg == r'.filter / 16 % 0x1_0000
          else
            r'.ch1Acc == acc && r'.ch1Count == r.ch1Count + 1 && r'.filter == r.filter && r'.ch1Avg == r.ch1Avg)
  {
    hide Filtered;
  }

  // --- A steady sample ---

  /** So many samples of the same value. */
  function AcquiredN(r: Reg, sample: u16, n: nat): (r': Reg) {
    if n == 0 then r else Acquired(AcquiredN(r, sample, n - 1), sample)
  }

  /** `n` steady samples make a commit of six times the sample at every
      fiftieth; the first one may still hold others. */
  ghost predicate Sampling(r: Reg, sample: u16, start: int, commits: nat) {
    && FilterInv(r) && r.ch1Acc == sample * r.ch1Count
    && r.filter == FilteredN(start, 6 * sample, commits)
    && (commits > 0 ==> r.ch1Avg == r.filter / 16)
  }

  /** One sample within the 12-bit range, without wrap-around. */
  lemma AcquiredOnce(r: Reg, sample: u16)
    requires FilterInv(r) && sample <= 4095
    ensures
      var r' := Acquired(r, sample);
      if r.ch1Count == 49 then
        && r'.ch1Acc == 0 && r'.ch1Count == 0 && r'.filter == Filtered(r.filter, (r.ch1Acc + sample) * 6 / 50)
        && r'.ch1Avg == r'.filter / 16
      else
        && r'.ch1Acc == r.ch1Acc + sample && r'.ch1Count == r.ch1Count + 1 && r'.filter == r.filter
        && r'.ch1Avg == r.ch1Avg
  {
    AverageFits(r.ch1Acc, r.ch1Count, sample);
    if r.ch1Count == 49 {
      FilterStaysInRange(r.filter, (r.ch1Acc + sample) * 6 / 50);
    }
    hide Filtered;
  }

  lemma SampledOnce(r: Reg, sample: u16, start: int, commits: nat)
    requires Sampling(r, sample, start, commits) && sample <= 4095
    ensures
      var r' := Acquired(r, sample);
      if r.ch1Count == 49 then r'.ch1Count == 0 && Sampling(r', sample, start, commits + 1)
      else r'.ch1Count == r.ch1Count + 1 && Sampling(r', sample, start, commits)
  {
    FilterInvKept(r, sample);
    AcquiredOnce(r, sample);
    FiftySum(r.ch1Count, sample);
    OneCommitMore(start, 6 * sample, commits);
    hide Acquired, FilterInv, Filtered, FilteredN;
  }

  /** Fifty equal samples average to six times one. */
  lemma FiftySum(count: nat, sample: nat)
    ensures sample * count + sample == sample * (count + 1)
    ensures count == 49 ==> (sample * count + sample) * 6 / 50 == 6 * sample
  {
  }

  lemma OneCommitMore(x16: int, avg: nat, n: nat)
    ensures FilteredN(x16, avg, n + 1) == Filtered(FilteredN(x16, avg, n), avg)
  {
  }

  lemma {:induction false} SteadyCommits(r: Reg, sample: u16, n: nat)
    requires FilterInv(r) && r.ch1Count == 0 && sample <= 4095
    ensures
      var r' := AcquiredN(r, sample, n);
      Sampling(r', sample, r.filter, n / 50) && r'.ch1Count == n % 50
    decreases n
  {
    hide Sampling, FilterInv, Acquired;
    if n == 0 {
      NothingSampled(r, sample);
    } else {
      SteadyCommits(r, sample, n - 1);
      SampledOnce(AcquiredN(r, sample, n - 1), sample, r.filter, (n - 1) / 50);
    }
  }

  lemma NothingSampled(r: Reg, sample: u16)
    requires FilterInv(r) && r.ch1Count == 0
    ensures Sampling(r, sample, r.filter, 0)
  {
  }

  lemma {:induction false} FirstCommit(r: Reg, sample: u16, n: nat)
    requires FilterInv(r) && sample <= 4095 && n <= 50 - r.ch1Count
    ensures
      var r' := AcquiredN(r, sample, n);
      FilterInv(r') && r'.ch1Count == if n == 50 - r.ch1Count then 0 else r.ch1Count + n
    decreases n
  {
    if n > 0 {
      FirstCommit(r, sample, n - 1);
      FilterInvKept(AcquiredN(r, sample, n - 1), sample);
    }
    hide FilterInv, Filtered;
  }

  lemma {:induction false} SamplesAdd(r: Reg, sample: u16, m: nat, n: nat)
    ensures AcquiredN(AcquiredN(r, sample, m), sample, n) == AcquiredN(r, sample, m + n)
    decreases n
  {
    hide Acquired;
    if n > 0 {
      SamplesAdd(r, sample, m, n - 1);
    }
  }

  /** From any state, a thousand equal 12-bit samples bring the filtered
      current to six times the sample, or one below, and it stays there. */
  lemma SteadySampleSettles(r: Reg, sample: u16, n: nat)
    requires FilterInv(r) && sample <= 4095 && n >= 1000
    ensures 6 * sample - 1 <= AcquiredN(r, sample, n).ch1Avg <= 6 * sample
  {
    var m := 50 - r.ch1Count;
    FirstCommit(r, sample, m);
    var r1 := AcquiredN(r, sample, m);
    FilterFits(r1);
    SteadyCommits(r1, sample, n - m);
    SamplesAdd(r, sample, m, n - m);
    assert (n - m) / 50 >= 19;
    SettledFilter(AcquiredN(r, sample, n), sample, r1.filter, (n - m) / 50);
    hide AcquiredN, Sampling, FilterInv;
  }

  lemma SettledFilter(r: Reg, sample: u16, start: int, commits: nat)
    requires Sampling(r, sample, start, commits) && commits >= 19 && sample <= 4095
    requires 0 <= start <= CH1_MAX * 16
    ensures 6 * sample - 1 <= r.ch1Avg <= 6 * sample
  {
    SettlesLater(start, 6 * sample, commits);
    SixteenthOf(r.filter, 6 * sample);
    hide FilteredN, Abs;
  }

  lemma FilterFits(r: Reg)
    requires FilterInv(r)
    ensures 0 <= r.filter <= CH1_MAX * 16
  {
  }

  lemma SixteenthOf(f: int, avg: nat)
    ensures 0 <= f && Abs(avg * 16 - f) <= 1 ==> avg - 1 <= f / 16 <= avg
  {
  }

  lemma SettlesLater(x16: int, avg: nat, n: nat)
    requires 0 <= x16 <= CH1_MAX * 16 && avg <= CH1_MAX && n >= 19
    ensures Abs(avg * 16 - FilteredN(x16, avg, n)) <= 1
  {
    FilterConverges(x16, avg, n);
    Pow2Values();
    Pow2Above(n, 19);
    assert Pow2(19) == 8 * Pow2(16);
    DivIsAtMostOne(Abs(avg * 16 - x16), Pow2(n));
  }

  lemma Pow2Above(n: nat, k: nat)
    requires n >= k
    ensures Pow2(n) >= Pow2(k)
    decreases n
  {
    hide Pow2;
    if n > k {
      Pow2Above(n - 1, k);
      Pow2Doubles(n - 1);
    }
  }

  lemma Pow2Doubles(n: nat)
    ensures Pow2(n + 1) == 2 * Pow2(n)
  {
  }

  /** What the display then shows: 59/126 of six times the sample, plus the
      calibration, to within the one count the filter may lack; nothing up to
      14. */
  lemma SteadyDisplay(c: Core, sample: u16, n: nat, now: u32, freq: u16, seek: bool)
    requires FilterInv(c.reg) && sample <= 4095 && n >= 1000
    ensures
      var amp := Published(c.(reg := AcquiredN(c.reg, sample, n)), now, freq, seek).m.currAmp;
      var cal := AcquiredN(c.reg, sample, n).cal;
      var low, high := (6 * sample - 1) * 59 / 126 + cal, 6 * sample * 59 / 126 + cal;
      (low > 14 ==> low <= amp <= high) && (high <= 14 ==> amp == 0) && (amp == 0 || 14 < amp <= high)
  {
    SteadySampleSettles(c.reg, sample, n);
    PublicationShows(c.(reg := AcquiredN(c.reg, sample, n)), now, freq, seek);
    DisplayWithin(AcquiredN(c.reg, sample, n).ch1Avg, 6 * sample, AcquiredN(c.reg, sample, n).cal);
    hide AcquiredN, Published, FilterInv;
  }

  lemma DisplayWithin(avg: nat, scaled: nat, cal: s16)
    requires scaled - 1 <= avg <= scaled <= CH1_MAX
    ensures
      var v := avg * 59 / 126 + cal;
      var amp := if v <= 14 then 0 else v % 0x1_0000;
      var low, high := (scaled - 1) * 59 / 126 + cal, scaled * 59 / 126 + cal;
      (low > 14 ==> low <= amp <= high) && (high <= 14 ==> amp == 0) && (amp == 0 || 14 < amp <= high)
  {
    ScaledWithin(avg, scaled);
  }

  lemma ScaledWithin(avg: nat, high: nat)
    requires high - 1 <= avg <= high <= CH1_MAX
    ensures (high - 1) * 59 / 126 <= avg * 59 / 126 <= high * 59 / 126 <= 11505
  {
  }

  // --- Peaks ---

  function Highest(xs: seq<u16>): (m: u16)
    ensures forall x :: x in xs ==> x <= m
    ensures m in xs || (m == 0 && xs == [])
  {
    if xs == [] then 0
    else
      var front, x := xs[..|xs| - 1], xs[|xs| - 1];
      assert xs == front + [x];
      if x > Highest(front) || front == [] then x else Highest(front)
  }

  lemma HighestOneMore(xs: seq<u16>, x: u16)
    ensures Highest(xs + [x]) == if x > Highest(xs) then x else Highest(xs)
  {
    assert (xs + [x])[..|xs|] == xs;
    if xs != [] {
      assert Highest(xs) in xs;
    }
  }

  /** The arbiter with the readings published live since the last accepted
      START or the last beginning of a seek or reset. */
  datatype Readings = Readings(c: Core, powers: seq<u16>, amps: seq<u16>)

  function Read(x: Readings, e: Event, now: nat): Readings {
    match e
    case Cmd(cmd, src, il) =>
      var c := Commanded(x.c, cmd, src, il, Tick(now));
      if Accepts(x.c, cmd, src, il) then Readings(c, [], []) else x.(c := c)
    case Fault => x.(c := x.c.(reg := x.c.reg.(fault := true)))
    case Tock(lim, sn) =>
      var b := BeforePublish(x.c, Tick(now), lim, sn);
      var c := Ticked(x.c, Tick(now), lim, sn);
      if !Publishes(b, Tick(now)) then x.(c := c)
      else
        var kept := if sn.seek && !b.reg.seekShown then Readings(c, [], []) else x.(c := c);
        if c.m.live then Readings(c, kept.powers + [c.m.currPower], kept.amps + [c.m.currAmp]) else kept
  }

  predicate PeaksHold(x: Readings) {
    x.c.reg.maxPower == Highest(x.powers) && x.c.reg.maxAmp == Highest(x.amps)
  }

  lemma PublishedPeaks(c: Core, now: u32, freq: u16, seek: bool)
    ensures
      var d := Published(c, now, freq, seek);
      var p := if seek && !c.reg.seekShown then 0 else c.reg.maxPower;
      var a := if seek && !c.reg.seekShown then 0 else c.reg.maxAmp;
      && d.reg.maxPower == (if d.m.live && d.m.currPower > p then d.m.currPower else p)
      && d.reg.maxAmp == (if d.m.live && d.m.currAmp > a then d.m.currAmp else a)
  {
    hide CurrentFromAdc, PowerFromAmp, OnTime200, Elapsed;
  }

  lemma BeforePublishPeaks(c: Core, now: u32, lim: Limits, sn: Sensors)
    ensures SamePeaks(c.reg, BeforePublish(c, now, lim, sn).reg)
  {
    var w := Warmed(c, now, lim);
    var g := Guarded(w, now);
    var t := Terminated(g, now, lim);
    assert SamePeaks(c.reg, w.reg);
    StopsKeep(w, now, lim);
    StopsKeep(g, now, lim);
    SampleKeeps(t, now, sn.sample);
    hide Elapsed, Warmed, Guarded, Terminated, Sampled;
  }

  lemma PeaksStep(x: Readings, e: Event, now: nat)
    requires PeaksHold(x)
    ensures PeaksHold(Read(x, e, now))
  {
    match e {
      case Cmd(cmd, src, il) =>
        CommandPeaks(x, cmd, src, il, now);
      case Fault =>
      case Tock(lim, sn) =>
        TickPeaks(x, lim, sn, now);
    }
  }

  lemma CommandPeaks(x: Readings, cmd: Command, src: Source, il: Interlocks, now: nat)
    requires PeaksHold(x)
    ensures PeaksHold(Read(x, Cmd(cmd, src, il), now))
  {
    hide Highest, Tick, StartAllowed;
    NothingHighest();
  }

  lemma TickPeaks(x: Readings, lim: Limits, sn: Sensors, now: nat)
    requires PeaksHold(x)
    ensures PeaksHold(Read(x, Tock(lim, sn), now))
  {
    hide BeforePublish, Published, Highest, Elapsed, Tick;
    var t := Tick(now);
    var b := BeforePublish(x.c, t, lim, sn);
    var p := b.(reg := b.reg.(publishAt := t));
    var c := Published(p, t, sn.freq, sn.seek);
    BeforePublishPeaks(x.c, t, lim, sn);
    PublishedPeaks(p, t, sn.freq, sn.seek);
    NothingHighest();
    HighestOneMore(x.powers, c.m.currPower);
    HighestOneMore(x.amps, c.m.currAmp);
    HighestOneMore([], c.m.currPower);
    HighestOneMore([], c.m.currAmp);
  }

  lemma NothingHighest()
    ensures Highest([]) == 0
  {
  }

  function ReadAll(x: Readings, events: seq<(Event, nat)>): Readings
    decreases |events|
  {
    if events == [] then x else ReadAll(Read(x, events[0].0, events[0].1), events[1..])
  }

  /** Over every run of events from power-on the peaks are the highest power
      and current published live since they were last cleared; a release shows
      them as the last run's. */
  lemma {:induction false} PeaksAreTrue(x: Readings, events: seq<(Event, nat)>)
    requires PeaksHold(x)
    ensures
      var y := ReadAll(x, events);
      PeaksHold(y) && forall src, il, now :: !y.c.reg.run.Idle? ==>
        var r := Commanded(y.c, Release, src, il, now).reg;
        r.lastPower == Highest(y.powers) && r.lastAmp == Highest(y.amps)
    decreases |events|
  {
    if events != [] {
      PeaksStep(x, events[0].0, events[0].1);
      PeaksAreTrue(Read(x, events[0].0, events[0].1), events[1..]);
    }
  }

  lemma BootPeaks(now: u32)
    ensures PeaksHold(Readings(Boot(now), [], []))
  {
  }
}
