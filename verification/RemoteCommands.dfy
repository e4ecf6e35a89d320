/** What each remote command does to the machine, in the machine's own fields
    and by register number, for one message, for one tick, and over runs. */
module RemoteCommands {
  import opened Words
  import opened Wrappers
  import opened Config
  import opened CfgStage
  import opened Remote
  import opened RemoteRuns
  import opened HoldWatchdog
  import Reg = Regulator
  import RunEnergy
  import RunRules

  /** The run as a release leaves it: ended, with its peaks, energy and
      frequency latched, and nothing else touched. */
  predicate Released(c: Reg.Core, d: Reg.Core) {
    if c.reg.run.Idle? then d == c
    else
      d == Reg.Core(
        c.reg.(run := Reg.Idle, lastPower := c.reg.maxPower, lastAmp := c.reg.maxAmp, lastEnergy := c.m.currEnergy,
          lastFreq := c.m.currFreq),
        c.m)
  }

  /** STOP=1 ends whatever run is on, over either link, with the gate open or
      closed, and does nothing else. Any other value does nothing. */
  lemma StopMeans(w: World, link: Link, v: u16, e: Env)
    requires w.Valid()
    ensures
      var r := Gated(w, link, 0x1C, v, e);
      if v == 1 then r == Result(w.(core := r.w.core), []) && r.w.core.reg.run.Idle? && Released(w.core, r.w.core)
      else r == Result(w, [])
  {
    RunRules.ReleaseEnds(w.core, Reg.Comm, Locks(w, e), e.now);
  }

  /** RESET=1 clears the fault and asks for a reset, SEEK=1 asks for a seek; a
      run in progress goes on. With the gate closed neither does anything. */
  lemma SeekResetMeans(w: World, link: Link, v: u16, e: Env)
    requires w.Valid()
    ensures Gated(w, link, 0x19, v, e) ==
      if e.gate && v == 1 then
        Result(w.(core := w.core.(reg := w.core.reg.(fault := false))), [SeekReset(Reg.Reset)])
      else Result(w, [])
    ensures Gated(w, link, 0x1A, v, e) ==
      if e.gate && v == 1 then Result(w, [SeekReset(Reg.Seek)]) else Result(w, [])
  {
  }

  /** Nothing stands in the way of a remote start. */
  predicate MayStart(w: World, e: Env) {
    && !w.core.reg.warm && w.core.reg.run.Idle? && !w.core.reg.fault
    && !e.seekReset && !e.overload && !e.estop && !w.horn
  }

  /** The run as a remote start leaves it. */
  predicate Begun(c: Reg.Core, d: Reg.Core, now: u32) {
    d == Reg.Core(
      c.reg.(run := Reg.Comm, runStart := now, acc := 0, maxPower := 0, maxAmp := 0),
      c.m.(currEnergy := 0, onTime200 := 0))
  }

  /** START=1 begins a remote run when nothing stands in its way, leaves the
      watchdog alone, and sets the power either way. START=2 that begins a run
      also arms the watchdog; one that does not only keeps an armed watchdog,
      as START=3 does. No other value, and nothing through a closed gate, does
      anything. */
  lemma StartMeans(w: World, link: Link, v: u16, e: Env)
    requires w.Valid()
    ensures
      var r := Gated(w, link, 0x1B, v, e);
      && r.w == w.(core := r.w.core, wdt := r.w.wdt)
      && r.fx == (if e.gate && (v == 1 || (v == 2 && MayStart(w, e))) then [SetPot(w.cfg.power)] else [])
      && (if e.gate && (v == 1 || v == 2) && MayStart(w, e) then Begun(w.core, r.w.core, e.now)
          else r.w.core == w.core)
      && r.w.wdt == (
        if e.gate && v == 2 && MayStart(w, e) then Wdt(true, e.now)
        else if e.gate && (v == 2 || v == 3) && w.wdt.armed then w.wdt.(keep := e.now)
        else w.wdt)
  {
    RunRules.StartBegins(w.core, Reg.Comm, Locks(w, e), e.now);
    hide Reg.Commanded;
  }

  /** CFG_CTRL=1 commits, CFG_CTRL=2 discards. A commit goes through exactly
      when something is staged, the staged address is in 1..247, the speed
      index at most 5 and the parity index at most 2, nothing staged belongs to
      the link it comes over, and no run or seek is shown as live. It then
      takes the dirty fields, tells the network side if an address is among
      them, and saves. */
  lemma CommitMeans(w: World, link: Link, v: u16, e: Env)
    requires w.Valid()
    ensures
      var r, d, val := Gated(w, link, 0x28, v, e), w.stage.dirty, w.stage.val;
      var ether := exists i :: 3 <= i < 9 && i in d;
      var serial := 0 in d || 1 in d || 2 in d;
      var commits := d != {} && (0 in d ==> 1 <= val[0] <= 247) && (1 in d ==> val[1] <= 5)
        && (2 in d ==> val[2] <= 2) && !(link.Rtu? && serial) && !(link.Tcp? && ether) && !w.core.m.live;
      if e.gate && v == 1 && commits then
        var c := w.cfg.(net := Taken(w.cfg.net, d, val));
        && r.w == w.(cfg := c, stage := w.stage.(dirty := {}, stat := CommitOk))
        && r.fx == (if ether then [EtherApply(c.net), SaveAll(c)] else [SaveAll(c)])
      else if e.gate && v == 2 then r == Result(w.(stage := w.stage.(dirty := {}, stat := Stat.Idle)), [])
      else r == Result(w.(stage := w.stage.(stat := r.w.stage.stat)), [])
  {
    EtherFields(w.stage.dirty);
    SerialFields(w.stage.dirty);
    hide Taken;
  }

  // --- A whole tick, and runs ---

  /** The watchdog's part of a tick: a hold session whose last signal is 600 ms
      old has its run released and is over; one whose run is no longer remote
      is over too; anything else stays as it is. */
  lemma WatchdogMeans(w: World, p: Poll)
    ensures
      var d, comm := Watched(w, p), w.core.reg.run.Comm?;
      var trip := w.wdt.armed && comm && Elapsed(Tick(p.wdtAt), w.wdt.keep) >= 600;
      && d == w.(core := d.core, wdt := w.wdt.(armed := w.wdt.armed && comm && !trip))
      && (if trip then d.core.reg.run.Idle? && Released(w.core, d.core) else d.core == w.core)
  {
    RunRules.ReleaseEnds(w.core, Reg.Comm, Locks(w, EnvAt(p, p.wdtAt)), Tick(p.wdtAt));
    hide Elapsed, Tick, Reg.Commanded;
  }

  /** A tick that accepts STOP=1 ends with no run. */
  lemma StopEndsTick(w: World, p: Poll, link: Link)
    requires w.Valid() && p.msg == Some(Msg(link, 0x1C, 1))
    ensures
      var w1, w' := Met(w, p), Polled(w, p).w;
      w'.core.reg.run.Idle? && Released(w1.core, w'.core) && w' == w1.(core := w'.core) && Polled(w, p).fx == []
  {
    StopMeans(Met(w, p), link, 1, EnvAt(p, p.msgAt));
    hide Met, Gated, Released;
  }

  /** Over the remote side's interleavings a run goes from none to an owner
      exactly by a START of another source, or by START=1 or START=2 through
      the open gate; and in either case only with warm-up over, no fault, and
      none of seek or reset, overload, emergency stop and horn. */
  lemma BeginsExactly(w: World, e: Event)
    requires w.Valid() && w.core.reg.run.Idle?
    ensures !Next(w, e).core.reg.run.Idle? <==>
      && !w.core.reg.warm && !w.core.reg.fault
      && match e {
        case Other(cmd, src, il, _) =>
          && cmd.Start? && !src.Idle? && !(src.Touch? && w.core.reg.swallow)
          && !il.seekReset && !il.overload && !il.estop && !il.horn
        case Remote(p) =>
          && p.gate && p.msg.Some? && p.msg.value.a == 0x1B && (p.msg.value.v == 1 || p.msg.value.v == 2)
          && !p.seekReset && !p.overload && !p.estop && !w.horn
        case _ => false
      }
  {
    match e {
      case Edit(c, h) =>
      case Other(cmd, src, il, at) =>
        if cmd.Start? {
          RunRules.StartBegins(w.core, src, il, Tick(at));
        } else {
          Reg.CommandMeaning(w.core, cmd, src, il, Tick(at));
        }
        hide Reg.Commanded;
      case Regulate(lim, sn, at) =>
        RunEnergy.RegulateKeepsSource(w.core, Tick(at), lim, sn);
        hide Reg.Ticked;
      case Fault =>
      case Remote(p) =>
        IdleMet(w, p);
        TickBegins(Met(w, p), p);
        hide Met, Delivered;
    }
  }

  lemma IdleMet(w: World, p: Poll)
    requires w.Valid() && w.core.reg.run.Idle?
    ensures Met(w, p).core == w.core && Met(w, p).horn == w.horn
  {
  }

  lemma TickBegins(w: World, p: Poll)
    requires w.Valid() && w.core.reg.run.Idle?
    ensures !Delivered(w, p).w.core.reg.run.Idle? <==>
      && p.gate && p.msg.Some? && p.msg.value.a == 0x1B && (p.msg.value.v == 1 || p.msg.value.v == 2)
      && !w.core.reg.warm && !w.core.reg.fault
      && !p.seekReset && !p.overload && !p.estop && !w.horn
  {
    MessageRuns(w, p);
    hide Delivered;
  }

  /** Nobody starts anything. */
  predicate Startless(e: Event) {
    && !(e.Other? && e.cmd.Start?)
    && !(e.Remote? && e.p.gate && e.p.msg.Some? && e.p.msg.value.a == 0x1B && e.p.msg.value.v in {1, 2})
  }

  /** Once a tick has accepted STOP=1, nothing runs until somebody starts
      something: over any panel edits, automatic steps, faults, resets, keep
      signals and other messages. */
  lemma {:induction false} StopHolds(w: World, p: Poll, link: Link, events: seq<Event>)
    requires w.Valid() && p.msg == Some(Msg(link, 0x1C, 1))
    requires forall k :: 0 <= k < |events| ==> Startless(events[k])
    ensures Final(Next(w, Remote(p)), events).core.reg.run.Idle?
  {
    StopEndsTick(w, p, link);
    StaysIdle(Next(w, Remote(p)), events);
    hide Final, Polled;
  }

  lemma {:induction false} StaysIdle(w: World, events: seq<Event>)
    requires w.Valid() && w.core.reg.run.Idle? && forall k :: 0 <= k < |events| ==> Startless(events[k])
    ensures Final(w, events).core.reg.run.Idle?
    decreases |events|
  {
    hide Next;
    if events != [] {
      assert Startless(events[0]);
      BeginsExactly(w, events[0]);
      StaysIdle(Next(w, events[0]), events[1..]);
    }
  }
}
