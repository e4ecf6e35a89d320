/** What the remote path guarantees over every interleaving with the panel,
    the physical buttons, the weld cycle and the automatic stops. */
module RemoteRuns {
  import opened Words
  import opened Wrappers
  import opened Config
  import opened CfgStage
  import opened Remote
  import opened HoldWatchdog
  import Reg = Regulator
  import RunEnergy

  /** One accepted register write. */
  datatype Msg = Msg(link: Link, a: nat, v: u16)

  /** One remote tick: the gate and the other machines as it finds them, the
      clock at the watchdog, at the staging timeout and at the message, the
      message if one was accepted, and whether a link transition discards the
      staged edit. */
  datatype Poll = Poll(gate: bool, seekReset: bool, overload: bool, estop: bool, wdtAt: nat, stageAt: nat, msgAt: nat,
    relink: bool, msg: Option<Msg>)

  datatype Event =
    | Edit(cfg: Cfg, horn: bool)
    | Other(cmd: Reg.Command, src: Reg.Source, il: Reg.Interlocks, at: nat)
    | Regulate(lim: Reg.Limits, sn: Reg.Sensors, at: nat)
    | Fault
    | Remote(p: Poll)

  /** No START from elsewhere carries the remote source. (The forced stops do
      release a run in its owner's name.) */
  predicate Fair(e: Event) {
    && (e.Other? ==> !(e.cmd.Start? && e.src.Comm?))
    && (e.Remote? ==> e.p.wdtAt <= e.p.stageAt <= e.p.msgAt)
  }

  function EnvAt(p: Poll, now: nat): Env { Env(p.gate, p.seekReset, p.overload, p.estop, Tick(now)) }

  function IsComm(w: World): bool { w.core.reg.run.Comm? }

  function Tripping(w: World, p: Poll): bool { Trips(w.wdt, Tick(p.wdtAt), IsComm(w)) }

  /** The watchdog step: a trip releases the run. */
  function Watched(w: World, p: Poll): World {
    var w1 := w.(wdt := Stepped(w.wdt, Tick(p.wdtAt), IsComm(w)));
    if Tripping(w, p) then Ordered(w1, Reg.Release, EnvAt(p, p.wdtAt)) else w1
  }

  function Staging(w: World, p: Poll): World
    requires w.Valid()
  {
    var s := Ticked(w.stage, Tick(p.stageAt));
    w.(stage := if p.relink then Discarded(s) else s)
  }

  function Delivered(w: World, p: Poll): (r: Result)
    requires w.Valid()
    ensures r.w.Valid()
  {
    match p.msg
    case None => Result(w, [])
    case Some(m) => Gated(w, m.link, m.a, m.v, EnvAt(p, p.msgAt))
  }

  /** One remote tick. */
  function Polled(w: World, p: Poll): (r: Result)
    requires w.Valid()
    ensures r.w.Valid()
  {
    Delivered(Staging(Watched(w, p), p), p)
  }

  function Next(w: World, e: Event): (w': World)
    requires w.Valid()
    ensures w'.Valid()
  {
    match e
    case Edit(c, h) => w.(cfg := c, horn := h)
    case Other(cmd, src, il, at) => w.(core := Reg.Commanded(w.core, cmd, src, il, Tick(at)))
    case Regulate(lim, sn, at) => w.(core := Reg.Ticked(w.core, Tick(at), lim, sn))
    case Fault => w.(core := w.core.(reg := w.core.reg.(fault := true)))
    case Remote(p) => Polled(w, p).w
  }

  function Final(w: World, events: seq<Event>): (w': World)
    requires w.Valid()
    ensures w'.Valid()
    decreases |events|
  {
    if events == [] then w else Final(Next(w, events[0]), events[1..])
  }

  // --- Hold sessions ---

  /** The machine with a history of hold-to-run: whether the latest remote run
      was started by START=2, when the last START=2 or START=3 was accepted,
      when the watchdog last looked, and how often it was armed and tripped. */
  datatype Held = Held(w: World, held: bool, accepted: nat, looked: nat, arms: nat, trips: nat)

  function IsStart(m: Option<Msg>, v: u16): bool { m.Some? && m.value.a == START && m.value.v == v }

  /** The message starts a remote run. */
  predicate Begins(w: World, p: Poll) {
    && p.gate && (IsStart(p.msg, START_TAP) || IsStart(p.msg, START_HOLD))
    && Reg.StartAllowed(w.core.reg, Locks(w, EnvAt(p, p.msgAt)))
  }

  /** A START=2 or START=3 that arms or keeps the watchdog. */
  predicate Keeps(w: World, p: Poll) {
    p.gate && ((IsStart(p.msg, START_HOLD) && (Begins(w, p) || w.wdt.armed))
      || (IsStart(p.msg, START_KEEP) && w.wdt.armed))
  }

  function NextHeld(h: Held, e: Event): Held
    requires h.w.Valid()
  {
    if e.Remote? then
      var p := e.p;
      var w1 := Staging(Watched(h.w, p), p);
      Held(Delivered(w1, p).w,
           if Begins(w1, p) then IsStart(p.msg, START_HOLD) else h.held,
           if Keeps(w1, p) then p.msgAt else h.accepted,
           p.wdtAt,
           h.arms + if Begins(w1, p) && IsStart(p.msg, START_HOLD) then 1 else 0,
           h.trips + if Tripping(h.w, p) then 1 else 0)
    else h.(w := Next(h.w, e))
  }

  lemma NextHeldFollows(h: Held, e: Event)
    requires h.w.Valid()
    ensures NextHeld(h, e).w == Next(h.w, e)
  {
  }

  /** A running remote run is watched exactly when START=2 began it; a session
      has been kept since it was last looked at; every trip had its own arming. */
  ghost predicate Owned(h: Held) {
    && h.w.Valid()
    && (IsComm(h.w) ==> (h.w.wdt.armed <==> h.held))
    && (h.w.wdt.armed ==> h.w.wdt.keep == Tick(h.accepted) && h.looked < h.accepted + HOLD_MS)
    && h.trips + (if h.w.wdt.armed then 1 else 0) <= h.arms
  }

  /** Watchdog looks come less than 2^32 - 600 ms apart, on a clock that does
      not run backwards. */
  predicate Timely(h: Held, e: Event) {
    e.Remote? ==> h.looked <= e.p.wdtAt < h.looked + WRAP - HOLD_MS && h.accepted <= e.p.wdtAt
  }

  /** Only the remote path makes a run remote. */
  lemma OthersNeverComm(w: World, e: Event)
    requires w.Valid() && Fair(e) && !e.Remote?
    ensures IsComm(Next(w, e)) ==> IsComm(w)
    ensures Next(w, e).wdt == w.wdt
  {
    match e {
      case Edit(c, h) =>
      case Other(cmd, src, il, at) => Reg.CommandMeaning(w.core, cmd, src, il, Tick(at));
      case Regulate(lim, sn, at) => RunEnergy.RegulateKeepsSource(w.core, Tick(at), lim, sn);
      case Fault =>
    }
  }

  /** After the step an armed watchdog means a remote run kept recently. */
  lemma WatchdogLook(h: Held, p: Poll)
    requires Owned(h) && Fair(Remote(p)) && Timely(h, Remote(p))
    ensures var w := Watched(h.w, p);
      && w.Valid() && w.stage == h.w.stage && w.cfg == h.w.cfg
      && (w.wdt.armed ==> IsComm(w) && w.wdt == h.w.wdt && p.wdtAt < h.accepted + HOLD_MS)
      && (IsComm(w) ==> IsComm(h.w) && (w.wdt.armed <==> h.held))
      && h.trips + (if Tripping(h.w, p) then 1 else 0) + (if w.wdt.armed then 1 else 0) <= h.arms
  {
    if h.w.wdt.armed {
      ElapsedIsReal(p.wdtAt, h.accepted);
    }
    hide Elapsed, Tick;
  }

  /** A START is the only message that changes who runs, except that RESET,
      STOP and the rest never start anything. */
  lemma MessageRuns(w: World, p: Poll)
    requires w.Valid()
    ensures var w' := Delivered(w, p).w;
      && (Begins(w, p) ==> w'.core.reg.run.Comm?)
      && (!Begins(w, p) ==> w'.core.reg.run == w.core.reg.run || w'.core.reg.run.Idle?)
      && (Begins(w, p) && IsStart(p.msg, START_HOLD) ==> w'.wdt == Wdt(true, Tick(p.msgAt)))
      && (!(Begins(w, p) && IsStart(p.msg, START_HOLD)) ==>
        w'.wdt == if Keeps(w, p) then Kept(w.wdt, Tick(p.msgAt)) else w.wdt)
  {
    hide Committed, Commits, Taken, WithSetting, Differs, Written, Tick;
  }

  lemma OwnedStep(h: Held, e: Event)
    requires Owned(h) && Fair(e) && Timely(h, e)
    ensures Owned(NextHeld(h, e))
  {
    if e.Remote? {
      var p := e.p;
      WatchdogLook(h, p);
      var w1 := Staging(Watched(h.w, p), p);
      MessageRuns(w1, p);
      hide Watched, Delivered, Begins, Keeps, Tripping, Ticked, Tick;
      KeepsMeans(w1, p);
    } else {
      OthersNeverComm(h.w, e);
    }
  }

  lemma KeepsMeans(w: World, p: Poll)
    ensures Begins(w, p) ==> w.core.reg.run.Idle?
    ensures Begins(w, p) && IsStart(p.msg, START_HOLD) ==> Keeps(w, p)
    ensures Keeps(w, p) && !Begins(w, p) ==> w.wdt.armed
    ensures Keeps(w, p) && Begins(w, p) ==> IsStart(p.msg, START_HOLD)
  {
  }

  predicate AllTimely(h: Held, events: seq<Event>)
    requires h.w.Valid()
    decreases |events|
  {
    events == [] || (Fair(events[0]) && Timely(h, events[0])
      && (NextHeldFollows(h, events[0]); AllTimely(NextHeld(h, events[0]), events[1..])))
  }

  function FinalHeld(h: Held, events: seq<Event>): Held
    requires h.w.Valid()
    decreases |events|
  {
    if events == [] then h else (NextHeldFollows(h, events[0]); FinalHeld(NextHeld(h, events[0]), events[1..]))
  }

  /** Over every interleaving: while a remote run is on, the watchdog is armed
      if and only if that run was started by START=2, and it has tripped at
      most once per arming. */
  lemma {:induction false} HoldOwnership(h: Held, events: seq<Event>)
    requires Owned(h) && AllTimely(h, events)
    ensures Owned(FinalHeld(h, events))
    decreases |events|
  {
    if events != [] {
      OwnedStep(h, events[0]);
      HoldOwnership(NextHeld(h, events[0]), events[1..]);
    }
  }

  /** Power-on begins with nothing to own. */
  lemma BootOwned(c: Cfg, at: nat)
    ensures Owned(Held(World(c, false, EMPTY, Wdt(false, 0), Reg.Boot(Tick(at))), false, at, at, 0, 0))
  {
  }

  /** After every watchdog step an active hold run had a START=2 or START=3
      accepted less than HOLD_MS before. */
  lemma HoldIsFresh(h: Held, p: Poll)
    requires Owned(h) && Fair(Remote(p)) && Timely(h, Remote(p))
    ensures IsComm(Watched(h.w, p)) && h.held ==> p.wdtAt < h.accepted + 600
  {
    WatchdogLook(h, p);
  }

  /** The watchdog trips exactly when the last accepted START=2 or START=3 of
      a running hold session is HOLD_MS old. */
  lemma TripsExactlyWhenStale(h: Held, p: Poll)
    requires Owned(h) && Fair(Remote(p)) && Timely(h, Remote(p))
    ensures Tripping(h.w, p) <==> h.w.wdt.armed && IsComm(h.w) && p.wdtAt >= h.accepted + 600
  {
    if h.w.wdt.armed {
      ElapsedIsReal(p.wdtAt, h.accepted);
    }
  }

  /** Nothing here starts a remote run or arms the watchdog. */
  predicate NoStart(e: Event) {
    Fair(e) && (e.Remote? ==> !IsStart(e.p.msg, START_TAP) && !IsStart(e.p.msg, START_HOLD))
  }

  /** Once disarmed and stopped, any number of keep signals, mixed with
      anything else but START=1 and START=2, starts nothing. */
  lemma {:induction false} KeepNeverStarts(w: World, events: seq<Event>)
    requires w.Valid() && !w.wdt.armed && !IsComm(w)
    requires forall i :: 0 <= i < |events| ==> NoStart(events[i])
    ensures var w' := Final(w, events); !w'.wdt.armed && !IsComm(w')
    decreases |events|
  {
    if events != [] {
      var e := events[0];
      assert NoStart(e);
      if e.Remote? {
        var w1 := Staging(Watched(w, e.p), e.p);
        DisarmedLook(w, e.p);
        MessageRuns(w1, e.p);
        hide Watched, Delivered;
      } else {
        OthersNeverComm(w, e);
      }
      KeepNeverStarts(Next(w, e), events[1..]);
    }
  }

  lemma DisarmedLook(w: World, p: Poll)
    requires !w.wdt.armed
    ensures Watched(w, p) == w
  {
  }

  // --- Staged commits ---

  /** The message is a commit that goes through. */
  predicate CommitBy(w: World, p: Poll, link: Link)
    requires w.Valid()
  {
    && p.gate && p.msg == Some(Msg(link, CFG_CTRL, 1))
    && Commits(w.stage, link, w.core.m.live)
  }

  /** The world a message meets: the watchdog and the staging timeout have
      been served. */
  function Met(w: World, p: Poll): (w': World)
    requires w.Valid()
    ensures w'.Valid() && w'.cfg == w.cfg && w'.core.m == w.core.m
  {
    Staging(Watched(w, p), p)
  }

  /** A remote tick touches the link settings only by a commit that goes
      through: the serial ones only over TCP, the addresses only over RTU, and
      then exactly the dirty fields take their staged values. */
  lemma LinkSettingsOnlyByCommit(w: World, p: Poll)
    requires w.Valid()
    ensures var w1, w' := Met(w, p), Polled(w, p).w;
      && (!SameSerial(w.cfg.net, w'.cfg.net) ==> CommitBy(w1, p, Tcp))
      && (!SameEther(w.cfg.net, w'.cfg.net) ==> CommitBy(w1, p, Rtu))
      && w'.cfg.net.mode == w.cfg.net.mode
      && (CommitBy(w1, p, Rtu) || CommitBy(w1, p, Tcp) ==>
        forall i :: 0 <= i < FIELDS ==>
          Live(w'.cfg.net, i) == if i in w1.stage.dirty then w1.stage.val[i] else Live(w.cfg.net, i))
  {
    var w1 := Met(w, p);
    NetAfterMessage(w1, p);
    if p.msg.Some? && CommitBy(w1, p, p.msg.value.link) {
      CommitSparesOwnLink(w1.stage, w1.cfg.net, p.msg.value.link, w1.core.m.live);
      CommitTakesExactlyDirty(w1.stage, w1.cfg.net, p.msg.value.link, w1.core.m.live);
    }
    hide Delivered, Watched, Staging, Taken, Live, Commits;
  }

  lemma NetAfterMessage(w: World, p: Poll)
    requires w.Valid()
    ensures Delivered(w, p).w.cfg.net ==
      if p.msg.Some? && CommitBy(w, p, p.msg.value.link) then Taken(w.cfg.net, w.stage.dirty, w.stage.val)
        else w.cfg.net
  {
    if p.msg.Some? && IsSetting(p.msg.value.a) {
      OtherSettingsKept(w.cfg, p.msg.value.a, p.msg.value.v, if p.msg.value.a == DELAY1 then DELAY2 else DELAY1);
    }
    hide WithSetting, Differs, Taken, Committed, Written;
  }

  /** What a message does to the staged edit: a staged write adds its word, a
      commit that goes through or a discard clears it, and everything else,
      rejected commits included, keeps every word and every dirty mark. */
  lemma EditAfterMessage(w: World, p: Poll)
    requires w.Valid()
    ensures var s, s' := w.stage, Delivered(w, p).w.stage;
      if p.msg.Some? && p.gate && IsStaged(p.msg.value.a) then
        var i := StagedField(p.msg.value.a);
        s'.val == s.val[i := p.msg.value.v] && s'.dirty == s.dirty + {i}
      else s'.val == s.val && (s'.dirty == s.dirty || s'.dirty == {})
    ensures
      var commit := p.msg.Some? && p.gate && p.msg.value.a == CFG_CTRL && p.msg.value.v == 1;
      commit && !CommitBy(w, p, p.msg.value.link) ==> Delivered(w, p).w.stage.dirty == w.stage.dirty
  {
    hide WithSetting, Differs, Taken;
    if p.msg.Some? {
      CommitOutcome(w.stage, p.msg.value.link, w.core.m.live);
    }
  }

  /** The word last staged for field `i` by a message the open gate let in. */
  function LastStaged(events: seq<Event>, i: nat, before: u16): u16
    decreases |events|
  {
    if events == [] then before
    else
      var e := events[|events| - 1];
      if e.Remote? && e.p.gate && e.p.msg.Some? && e.p.msg.value.a == StagedReg(i) then e.p.msg.value.v
      else LastStaged(events[..|events| - 1], i, before)
  }

  lemma {:induction false} FinalAppend(w: World, events: seq<Event>, e: Event)
    requires w.Valid()
    ensures Final(w, events + [e]) == Next(Final(w, events), e)
    decreases |events|
  {
    if events == [] {
      assert events + [e] == [e] && [e][1..] == [];
    } else {
      assert (events + [e])[1..] == events[1..] + [e];
      FinalAppend(Next(w, events[0]), events[1..], e);
    }
  }

  /** Over every run the value a commit would take is the last word staged. */
  lemma {:induction false} StagedValueIsLast(w: World, events: seq<Event>, i: nat)
    requires w.Valid() && i < FIELDS
    ensures Final(w, events).stage.val[i] == LastStaged(events, i, w.stage.val[i])
    decreases |events|
  {
    if events != [] {
      var front, e := events[..|events| - 1], events[|events| - 1];
      assert events == front + [e];
      FinalAppend(w, front, e);
      StagedValueIsLast(w, front, i);
      StagedRegIsField(i);
      if e.Remote? {
        EditAfterMessage(Met(Final(w, front), e.p), e.p);
        ValKeptBefore(Final(w, front), e.p);
      }
    }
  }

  lemma ValKeptBefore(w: World, p: Poll)
    requires w.Valid()
    ensures Met(w, p).stage.val == w.stage.val
  {
  }
}
