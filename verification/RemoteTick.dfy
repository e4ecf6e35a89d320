/** One pass of the Modbus slave in the super-loop: watchdog, staging timeout,
    link ownership, then at most one accepted register write. */
module RemoteTick {
  import opened Words
  import opened Wrappers
  import opened Config
  import opened CfgStage
  import opened Remote
  import opened RemoteControl
  import Crc16
  import HoldWatchdog
  import MB = ModbusCore
  import Frame = ModbusTcpFrame
  import Stream = ModbusTcp
  import Runs = RemoteRuns
  import Reg = Regulator

  // --- Link ownership ---

  const SERIAL_MODE: byte := 0

  /** g_applied: what the serial line is set up for. */
  datatype Line = Line(owned: bool, speed: byte, parity: byte, addr: byte)

  predicate Wants(n: Net) { n.mode == SERIAL_MODE && n.addr != 0 }

  /** The line is set up anew: taken over, or retuned. */
  predicate Acquires(l: Line, n: Net) {
    Wants(n) && !(l.owned && n.speed == l.speed && n.parity == l.parity)
  }

  function LineAfter(l: Line, n: Net): (l': Line)
    ensures l'.owned == Wants(n)
  {
    if Wants(n) then Line(true, n.speed, n.parity, n.addr) else l.(owned := false)
  }

  predicate OnTcp(n: Net, ethUp: bool) { n.mode != SERIAL_MODE && ethUp }

  /** A link transition: it discards the staged edit and blanks the tables. */
  predicate Relinks(l: Line, tcpActive: bool, n: Net, ethUp: bool) {
    Acquires(l, n) || (OnTcp(n, ethUp) && !tcpActive)
  }

  // --- What a tick takes in ---

  datatype Conn = Down | Up(isNew: bool, offered: seq<byte>)

  datatype Arrival = Arrival(
    i: Inputs, seekReset: bool, wdtAt: nat, stageAt: nat, msgAt: nat,
    ethUp: bool, frame: seq<byte>, conn: Conn)

  function WriteIn(link: Link, r: MB.Request): Option<Runs.Msg> {
    match r
    case WriteReg(a, v) => Some(Runs.Msg(link, a, v))
    case _ => None
  }

  /** The frames one poll serves. */
  function Polls(acc: seq<byte>, conn: Conn): (o: Stream.Outcome)
    ensures Stream.AllWire(o.served)
  {
    match conn
    case Down => Stream.Outcome([], acc, false, false)
    case Up(isNew, offered) => PollsOn(if isNew then [] else acc, offered)
  }

  /** ... once what fits of the offered bytes has joined the buffer. */
  function PollsOn(had: seq<byte>, offered: seq<byte>): (o: Stream.Outcome)
    ensures Stream.AllWire(o.served)
  {
    var full := |had| <= Stream.ACC_LEN && |offered| > Stream.ACC_LEN - |had|;
    var taken := if full then Stream.ACC_LEN - |had| else |offered|;
    Stream.Walk(had + offered[..taken], Stream.FRAMES_PER_POLL)
  }

  function LastWrite(served: seq<seq<byte>>): Option<Runs.Msg>
    requires Stream.AllWire(served)
  {
    if served == [] then None else WriteIn(Link.Tcp, Frame.RequestIn(served[|served| - 1]))
  }

  /** The one write a tick accepts, if any. */
  function Accepted(n: Net, acc: seq<byte>, x: Arrival): Option<Runs.Msg> {
    if Wants(n) then WriteIn(Link.Rtu, MB.Received(n.addr, x.frame, MB.Rtu))
    else if OnTcp(n, x.ethUp) then LastWrite(Polls(acc, x.conn).served)
    else None
  }

  /** The tick as the remote runs see it. */
  function Seen(l: Line, tcpActive: bool, n: Net, acc: seq<byte>, x: Arrival): Runs.Poll {
    Runs.Poll(x.i.gateState == GATE_OPEN, x.seekReset, x.i.overload, x.i.estop, x.wdtAt, x.stageAt, x.msgAt,
              Relinks(l, tcpActive, n, x.ethUp), Accepted(n, acc, x))
  }

  /** The serial message of a tick, read off the frame: a sealed function 6
      request to the own address, for one of the 51 registers. */
  lemma SerialMessage(n: Net, acc: seq<byte>, x: Arrival)
    requires n.mode == 0 && n.addr != 0
    ensures
      var f := x.frame;
      Accepted(n, acc, x) ==
        if |f| >= 8 && f[0] == n.addr && Crc16.Sealed(f) && f[1] == 6 && (f[2] as int) * 0x100 + f[3] < 51 then
          Some(Runs.Msg(Link.Rtu, (f[2] as int) * 0x100 + f[3], (f[4] as int) * 0x100 + f[5]))
        else None
  {
    if |x.frame| >= 6 {
      MB.FrameMeans(MB.Blank(n.addr), x.frame, MB.Rtu);
    }
    hide Crc16.Sealed;
  }

  /** The network message of a tick: the register write the poll ends on. */
  lemma NetworkMessage(n: Net, acc: seq<byte>, x: Arrival)
    requires n.mode != 0 || n.addr == 0
    ensures
      var o := Polls(acc, x.conn);
      match Accepted(n, acc, x)
      case Some(m) =>
        && n.mode != 0 && x.ethUp && o.served != [] && m.link.Tcp?
        && Frame.RequestIn(o.served[|o.served| - 1]) == MB.WriteReg(m.a, m.v)
      case None =>
        n.mode != 0 && x.ethUp && o.served != [] ==> !Frame.RequestIn(o.served[|o.served| - 1]).WriteReg?
  {
    hide Polls, Frame.RequestIn, Frame.WireFrame;
  }

  /** What a tick takes from its surroundings: the gate is open only in its own
      state 1, and a link transition is taking the serial line over, retuning
      it, or entering the network side. */
  lemma SeenMeans(l: Line, tcpActive: bool, n: Net, acc: seq<byte>, x: Arrival)
    ensures
      var p := Seen(l, tcpActive, n, acc, x);
      && p.gate == (x.i.gateState == 1) && p.seekReset == x.seekReset && p.overload == x.i.overload
      && p.estop == x.i.estop && p.wdtAt == x.wdtAt && p.stageAt == x.stageAt && p.msgAt == x.msgAt
      && (p.relink <==>
        || (n.mode == 0 && n.addr != 0 && !(l.owned && n.speed == l.speed && n.parity == l.parity))
        || (n.mode != 0 && x.ethUp && !tcpActive))
      && LineAfter(l, n) ==
        if n.mode == 0 && n.addr != 0 then Line(true, n.speed, n.parity, n.addr) else l.(owned := false)
  {
    hide Accepted;
  }

  /** What a poll makes of its bytes: a new connection forgets the old one's,
      up to 262 are held, and what is served and what is kept are the front and
      the rest of what is held. Leaving the network side forgets them too. */
  lemma PollMeans(acc: seq<byte>, isNew: bool, offered: seq<byte>)
    requires |acc| <= 262
    ensures
      var o, had := Polls(acc, Up(isNew, offered)), if isNew then [] else acc;
      var room := 262 - |had|;
      var held := had + if |offered| <= room then offered else offered[..room];
      Stream.TakenOff(held, Stream.Flat(o.served), o.kept, o.dropped)
    ensures Polls(acc, Down).served == [] && Polls(acc, Down).kept == acc
  {
    var had := if isNew then [] else acc;
    var room := 262 - |had|;
    var held := had + if |offered| <= room then offered else offered[..room];
    assert |offered| <= room ==> offered[..|offered|] == offered;
    Stream.WalkConsumes(held, Stream.FRAMES_PER_POLL);
    hide Stream.Walk, Stream.TakenOff, Stream.Flat;
  }

  lemma LeavingForgets(n: Net, acc: seq<byte>, x: Arrival)
    requires n.mode == 0 || !x.ethUp
    ensures KeptBytes(n, true, acc, x) == [] && KeptBytes(n, false, acc, x) == acc
  {
  }

  /** Nothing a tick receives changes the settings of the link it is received
      on: on the serial line the slave address, the speed and the parity stay,
      on the network the addresses, and never the choice of link. */
  lemma LinkInUseIsSafe(w: World, l: Line, tcpActive: bool, acc: seq<byte>, x: Arrival)
    requires w.Valid()
    ensures
      var n := w.cfg.net;
      var n' := Runs.Polled(w, Seen(l, tcpActive, n, acc, x)).w.cfg.net;
      && n'.mode == n.mode
      && (n.mode == 0 ==> n'.addr == n.addr && n'.speed == n.speed && n'.parity == n.parity)
      && (n.mode != 0 ==> n'.ip == n.ip && n'.nm == n.nm && n'.gw == n.gw)
  {
    var n := w.cfg.net;
    var p := Seen(l, tcpActive, n, acc, x);
    Runs.LinkSettingsOnlyByCommit(w, p);
    if n.mode == 0 && n.addr != 0 {
      SerialMessage(n, acc, x);
    } else {
      NetworkMessage(n, acc, x);
    }
    hide Runs.Polled, Runs.Met, Accepted, Frame.RequestIn, Polls, Relinks, Crc16.Sealed;
  }

  /** A poll writes one register at most, the one its last frame names. */
  lemma OnlyWritesLast(t: MB.Tables, s: seq<byte>)
    requires t.Valid()
    ensures
      var o := Stream.Walk(s, Stream.FRAMES_PER_POLL);
      var t' := Stream.ServeAll(t, o.served);
      var m := LastWrite(o.served);
      && (o.wrote <==> m.Some?)
      && (m.None? ==> t'.holding == t.holding)
      && (m.Some? ==> m.value.link.Tcp? && m.value.a < MB.REGS && t'.last == m.value.a)
      && (m.Some? ==> t'.holding == t.holding[m.value.a := m.value.v])
  {
    hide Stream.Walk, Stream.ServeAll, Frame.RequestIn, Frame.WireFrame;
    var o := Stream.Walk(s, Stream.FRAMES_PER_POLL);
    Stream.OneWritePerPoll(s, Stream.FRAMES_PER_POLL);
    Stream.OnlyLastWriteCounts(t, o.served);
  }

  /** The tables are as served, but for commands already carried out. */
  ghost predicate AsServed(t': MB.Tables, t: MB.Tables)
    requires t.Valid() && t'.Valid()
  {
    && t'.coils == t.coils && t'.last == t.last && t'.device == t.device
    && forall b :: 0 <= b < MB.REGS && !IsCommand(b) ==> t'.holding[b] == t.holding[b]
  }

  /** The bytes a tick sends, given the tables its mirror shows: the sealed
      answer to the serial frame, or the answers to the TCP frames served. */
  ghost predicate Replies(out: seq<byte>, t: MB.Tables, n: Net, acc: seq<byte>, x: Arrival)
    requires t.Valid()
  {
    if Wants(n) then
      var r := MB.Received(t.device, x.frame, MB.Rtu);
      (out == [] <==> r.Ignored?) && (!r.Ignored? ==> Crc16.Sealed(out) && out[..|out| - 2] == MB.Reply(t, r))
    else out == if OnTcp(n, x.ethUp) then Stream.Answers(t, Polls(acc, x.conn).served) else []
  }

  /** The bytes left in the stream buffer: those the poll keeps, or none once
      the server has been left. */
  function KeptBytes(n: Net, tcpActive: bool, acc: seq<byte>, x: Arrival): seq<byte> {
    if OnTcp(n, x.ethUp) then Polls(acc, x.conn).kept else if tcpActive then [] else acc
  }

  /** What a tick leaves on the wire side: its replies, the tables, and the
      bytes of an unfinished frame. `plain` are the tables it found, `shown`
      what its mirror made of them. */
  ghost predicate Leaves(
    out: seq<byte>, after: MB.Tables, kept: seq<byte>,
    plain: MB.Tables, shown: MB.Tables, n: Net, tcpActive: bool, acc: seq<byte>, x: Arrival)
    requires after.Valid() && shown.Valid()
  {
    && Replies(out, shown, n, acc, x)
    && kept == KeptBytes(n, tcpActive, acc, x)
    && if Wants(n) then AsServed(after, MB.Applied(shown, MB.Received(shown.device, x.frame, MB.Rtu)))
       else if OnTcp(n, x.ethUp) then AsServed(after, Stream.ServeAll(shown, Polls(acc, x.conn).served))
       else after == plain
  }

  function Entered(w: World, entering: bool): (w': World)
    requires w.Valid()
    ensures w'.Valid()
  {
    if entering then w.(stage := Discarded(w.stage)) else w
  }

  /** The tables the mirror starts from. */
  function StartsFrom(t: MB.Tables, l: Line, tcpActive: bool, n: Net, x: Arrival): (t': MB.Tables)
    requires t.Valid()
    ensures t'.Valid()
  {
    if Relinks(l, tcpActive, n, x.ethUp) then MB.Blank(n.addr)
    else t.(device := if Wants(n) then n.addr else t.device)
  }

  /** A link transition blanks the tables and takes the configured address; any
      other tick starts from the tables it finds. */
  lemma TransitionBlanks(t: MB.Tables, l: Line, tcpActive: bool, n: Net, x: Arrival)
    requires t.Valid()
    ensures
      var t' := StartsFrom(t, l, tcpActive, n, x);
      if Relinks(l, tcpActive, n, x.ethUp) then
        t'.holding == seq(51, i => 0) && t'.coils == seq(50, i => 0) && t'.device == n.addr && t'.last == 0xFFFF
      else
        && t'.holding == t.holding && t'.coils == t.coils && t'.last == t.last
        && t'.device == if n.mode == 0 && n.addr != 0 then n.addr else t.device
  {
  }

  function Prepared(w0: World, l: Line, n: Net, p: Runs.Poll): (w: World)
    requires w0.Valid()
    ensures w.Valid()
  {
    var w := Runs.Watched(w0, p);
    var s := Ticked(w.stage, Tick(p.stageAt));
    w.(stage := if Acquires(l, n) then Discarded(s) else s)
  }

  /** The tables once the configured link has been followed. */
  function PreparedTables(
    t: MB.Tables, w: World, l: Line, n: Net, i: Inputs, remoteModel: bool): (t': MB.Tables)
    requires t.Valid() && w.Valid()
    ensures t'.Valid()
  {
    if Acquires(l, n) then MirroredTables(MB.Blank(n.addr), w, i, remoteModel)
    else t.(device := if Wants(n) then n.addr else t.device)
  }

  /** Whichever branch serves, its mirror starts from the same tables and shows
      the same machine. */
  lemma SameMirror(
    t0: MB.Tables, w0: World, l: Line, tcpActive: bool, n: Net, x: Arrival, p: Runs.Poll, remoteModel: bool)
    requires t0.Valid() && w0.Valid() && p.relink == Relinks(l, tcpActive, n, x.ethUp)
    ensures
      var entering, w := OnTcp(n, x.ethUp) && !tcpActive, Prepared(w0, l, n, p);
      var t := if entering then MB.Blank(n.addr) else PreparedTables(t0, w, l, n, x.i, remoteModel);
      var plain := StartsFrom(t0, l, tcpActive, n, x);
      && Entered(w, entering) == Runs.Met(w0, p)
      && MirroredTables(t, Entered(w, entering), x.i, remoteModel) ==
        MirroredTables(plain, Runs.Met(w0, p), x.i, remoteModel)
      && (!Wants(n) ==> t == plain)
  {
    hide MirrorOf, Runs.Watched;
    BlankIsQuiet(n.addr);
    MirrorSyncs(MB.Blank(n.addr).holding, Prepared(w0, l, n, p), x.i, remoteModel);
  }

  /** The two halves of a tick make up the whole of it. */
  lemma TickComposes(
    t0: MB.Tables, w0: World, l: Line, tcpActive: bool, n: Net, acc: seq<byte>, x: Arrival, remoteModel: bool,
    w': World, fx: seq<Effect>, out: seq<byte>, after: MB.Tables, kept: seq<byte>)
    requires t0.Valid() && w0.Valid() && after.Valid()
    requires
      var p := Seen(l, tcpActive, n, acc, x);
      var entering, w := OnTcp(n, x.ethUp) && !tcpActive, Prepared(w0, l, n, p);
      var t := if entering then MB.Blank(n.addr) else PreparedTables(t0, w, l, n, x.i, remoteModel);
      && Result(w', fx) == Runs.Delivered(Entered(w, entering), p)
      && Leaves(out, after, kept, t, MirroredTables(t, Entered(w, entering), x.i, remoteModel), n, tcpActive, acc, x)
    ensures WholeTick(t0, w0, l, tcpActive, n, acc, x, remoteModel, w', fx, out, after, kept)
  {
    var p := Seen(l, tcpActive, n, acc, x);
    var entering, w := OnTcp(n, x.ethUp) && !tcpActive, Prepared(w0, l, n, p);
    var t := if entering then MB.Blank(n.addr) else PreparedTables(t0, w, l, n, x.i, remoteModel);
    SameMirror(t0, w0, l, tcpActive, n, x, p, remoteModel);
    hide MirroredTables, PreparedTables, StartsFrom, Prepared, Entered, Leaves, Runs.Delivered, Runs.Watched, Accepted;
    OnSerialShownCounts(
      out, after, kept, t, StartsFrom(t0, l, tcpActive, n, x),
      MirroredTables(t, Entered(w, entering), x.i, remoteModel), n, tcpActive, acc, x);
  }

  /** A whole tick: the machine does what the dispatch by register says, and
      the wire side is answered from the mirrored tables. */
  ghost predicate WholeTick(
    t0: MB.Tables, w0: World, l: Line, tcpActive: bool, n: Net, acc: seq<byte>, x: Arrival, remoteModel: bool,
    w': World, fx: seq<Effect>, out: seq<byte>, after: MB.Tables, kept: seq<byte>)
    requires t0.Valid() && w0.Valid() && after.Valid()
  {
    var p := Seen(l, tcpActive, n, acc, x);
    var plain := StartsFrom(t0, l, tcpActive, n, x);
    && Result(w', fx) == Runs.Polled(w0, p)
    && Leaves(out, after, kept, plain, MirroredTables(plain, Runs.Met(w0, p), x.i, remoteModel), n, tcpActive, acc, x)
  }

  /** With the serial line owned only the mirrored tables count. */
  lemma OnSerialShownCounts(
    out: seq<byte>, after: MB.Tables, kept: seq<byte>,
    plain: MB.Tables, plain': MB.Tables, shown: MB.Tables, n: Net, tcpActive: bool, acc: seq<byte>, x: Arrival)
    requires after.Valid() && shown.Valid()
    requires Leaves(out, after, kept, plain, shown, n, tcpActive, acc, x) && (!Wants(n) ==> plain == plain')
    ensures Leaves(out, after, kept, plain', shown, n, tcpActive, acc, x)
  {
    hide Replies, AsServed, KeptBytes;
  }

  lemma NothingDelivered(w: World, p: Runs.Poll)
    requires w.Valid() && p.msg.None?
    ensures Runs.Delivered(w, p) == Result(w, [])
  {
  }

  lemma BlankIsQuiet(addr: byte)
    ensures Quiet(MB.Blank(addr).holding)
  {
  }

  lemma ServedNothing(t: MB.Tables)
    requires t.Valid()
    ensures Stream.AllWire([]) && AsServed(t, Stream.ServeAll(t, [])) && Stream.Answers(t, []) == []
      && LastWrite([]).None?
  {
  }

  function MirroredTables(t: MB.Tables, w: World, i: Inputs, remoteModel: bool): (t': MB.Tables)
    requires t.Valid() && w.Valid()
    ensures t'.Valid() && t'.device == t.device
  {
    t.(holding := MirrorOf(t.holding, w, i, remoteModel))
  }

  class Slave {
    const panel: Panel
    const server: Stream.Server
    const remoteModel: bool
    var line: Line
    var tcpActive: bool

    ghost predicate Valid()
      reads this, panel, panel.core, panel.stage, panel.stage.val, server
    {
      && panel.Valid() && server.Valid()
      && server.acc != panel.core.coils && server.txacc != panel.core.coils
      && (line.owned ==> panel.core.device == line.addr)
    }

    constructor (now: u32, c: Cfg, forRemote: bool)
      ensures Valid() && panel.Now() == World(c, false, EMPTY, HoldWatchdog.Wdt(false, 0), Reg.Boot(now))
      ensures Quiet(panel.Table()) && !line.owned && !tcpActive && server.Buffered() == []
      ensures remoteModel == forRemote
    {
      panel := new Panel(now, 0, c);
      server := new Stream.Server();
      remoteModel := forRemote;
      line := Line(false, 0, 0, 0);
      tcpActive := false;
    }

    /** The watchdog runs ahead of any message of the same tick. */
    method StepWatchdog(e: Env, ghost p: Runs.Poll)
      requires Valid() && e == Runs.EnvAt(p, p.wdtAt)
      modifies panel.wdt, panel.arb
      ensures Valid() && panel.Now() == Runs.Watched(old(panel.Now()), p)
    {
      var isComm := panel.arb.reg.run == Reg.Comm;
      var trip := panel.wdt.Step(e.now, isComm);
      if trip {
        panel.arb.Command(Reg.Release, Reg.Comm, Reg.Interlocks(e.seekReset, e.overload, e.estop, panel.horn), e.now);
      }
    }

    /** A link transition: the staged edit is dropped, the tables are blank. */
    method Relink(addr: byte)
      requires Valid() && !line.owned
      modifies panel.stage, panel.core, panel.core.holding, panel.core.coils
      ensures Valid() && panel.Now() == old(panel.Now()).(stage := Discarded(old(panel.Now()).stage))
      ensures panel.core.State() == MB.Blank(addr)
    {
      panel.stage.Discard();
      panel.core.Init(addr);
    }

    /** apply_config: follow the configured link. */
    method ApplyConfig(i: Inputs)
      requires Valid() && Quiet(panel.Table())
      modifies this`line, panel.stage, panel.core, panel.core.holding, panel.core.coils
      ensures Valid() && Quiet(panel.Table())
      ensures var n, w := panel.cfg.net, old(panel.Now());
        && line == LineAfter(old(line), n) && line.owned == Wants(n)
        && panel.Now() == (if Acquires(old(line), n) then w.(stage := Discarded(w.stage)) else w)
        && panel.core.State() == PreparedTables(old(panel.core.State()), panel.Now(), old(line), n, i, remoteModel)
    {
      hide MirrorOf, Quiet;
      var n := panel.cfg.net;
      var want := n.mode == SERIAL_MODE && n.addr != 0;
      if want && line.owned && n.speed == line.speed && n.parity == line.parity {
        if n.addr != line.addr {
          line := line.(addr := n.addr);
          panel.core.device := n.addr;
        }
        return;
      }
      if !want && !line.owned {
        return;
      }
      if line.owned {
        line := line.(owned := false);
      }
      if want {
        Acquire(i);
      }
    }

    /** Take the line over and show a first mirror. */
    method Acquire(i: Inputs)
      requires Valid() && !line.owned
      modifies this`line, panel.stage, panel.core, panel.core.holding, panel.core.coils
      ensures Valid() && Quiet(panel.Table())
      ensures var n, w := panel.cfg.net, old(panel.Now());
        && line == Line(true, n.speed, n.parity, n.addr)
        && panel.Now() == w.(stage := Discarded(w.stage))
        && panel.core.State() == MirroredTables(MB.Blank(n.addr), panel.Now(), i, remoteModel)
    {
      var n := panel.cfg.net;
      Relink(n.addr);
      line := Line(true, n.speed, n.parity, n.addr);
      panel.Mirror(i, remoteModel);
    }

    /** Apply the one write that a mirrored table is pending. */
    method ApplyMessage(link: Link, e: Env, ghost h: seq<u16>, ghost p: Runs.Poll) returns (fx: seq<Effect>)
      requires Valid() && |h| == MB.REGS && Quiet(h) && InSync(h, panel.Now()) && e == Runs.EnvAt(p, p.msgAt)
      requires p.msg.Some? && p.msg.value.link == link && p.msg.value.a < MB.REGS
      requires panel.Table() == h[p.msg.value.a := p.msg.value.v] && panel.core.last == p.msg.value.a
      modifies panel`cfg, panel`horn, panel.core.holding, panel.stage, panel.stage.val, panel.wdt, panel.arb
      ensures Valid() && Quiet(panel.Table())
      ensures Result(panel.Now(), fx) == Runs.Delivered(old(panel.Now()), p)
      ensures AsServed(panel.core.State(), old(panel.core.State()))
    {
      WriteIsPending(h, panel.Now(), p.msg.value.a, p.msg.value.v);
      hide Quiet, InSync, Pending, Gated;
      fx := panel.ApplyWrites(link, e);
    }

    /** The serial branch: mirror, decode one frame, reply, apply. */
    method ServeRtu(x: Arrival, e: Env, ghost p: Runs.Poll) returns (reply: seq<byte>, fx: seq<Effect>)
      requires Valid() && Quiet(panel.Table()) && |x.frame| < 0x100
      requires e == Runs.EnvAt(p, p.msgAt)
        && p.msg == WriteIn(Link.Rtu, MB.Received(panel.core.device, x.frame, MB.Rtu))
      modifies panel`cfg, panel`horn, panel.core, panel.core.holding, panel.core.coils, panel.stage, panel.stage.val
      modifies panel.wdt, panel.arb
      ensures Valid() && Quiet(panel.Table())
      ensures Result(panel.Now(), fx) == Runs.Delivered(old(panel.Now()), p)
      ensures
        var t := MirroredTables(old(panel.core.State()), old(panel.Now()), x.i, remoteModel);
        var r := MB.Received(t.device, x.frame, MB.Rtu);
        && AsServed(panel.core.State(), MB.Applied(t, r)) && (reply == [] <==> r.Ignored?)
        && (!r.Ignored? ==> Crc16.Sealed(reply) && reply[..|reply| - 2] == MB.Reply(t, r))
    {
      hide MirrorOf, Quiet, InSync, Pending, Gated, MB.RequestOf, MB.Reply, Crc16.Sealed;
      fx, reply := [], [];
      panel.Mirror(x.i, remoteModel);
      ghost var t := panel.core.State();
      var resp := new byte[MB.RESP_MAX];
      var n, fc := panel.core.Decode(x.frame, MB.Rtu, resp);
      reply := resp[..n];
      MB.SixIsRegisterWrite(t.device, x.frame, MB.Rtu);
      if fc == 6 {
        fx := ApplyMessage(Link.Rtu, e, t.holding, p);
      }
    }

    /** The TCP branch: mirror, serve complete frames up to the first register
        write, apply it. The replies are the first `sent` bytes of txacc. */
    method ServeTcp(x: Arrival, e: Env, ghost p: Runs.Poll) returns (sent: nat, fx: seq<Effect>)
      requires Valid() && Quiet(panel.Table())
      requires e == Runs.EnvAt(p, p.msgAt) && p.msg == LastWrite(Polls(server.Buffered(), x.conn).served)
      modifies panel`cfg, panel`horn, panel.core, panel.core.holding, panel.core.coils, panel.stage, panel.stage.val
      modifies panel.wdt, panel.arb
      modifies server, server.acc, server.txacc
      ensures Valid() && Quiet(panel.Table()) && sent <= Stream.TXACC_LEN
      ensures Result(panel.Now(), fx) == Runs.Delivered(old(panel.Now()), p)
      ensures
        var t := MirroredTables(old(panel.core.State()), old(panel.Now()), x.i, remoteModel);
        var o := Polls(old(server.Buffered()), x.conn);
        && AsServed(panel.core.State(), Stream.ServeAll(t, o.served)) && server.Buffered() == o.kept
        && server.txacc[..sent] == Stream.Answers(t, o.served)
    {
      hide MirrorOf, Quiet, InSync, PollsOn, Gated, Stream.ServeAll, Stream.Answers, AsServed;
      panel.Mirror(x.i, remoteModel);
      match x.conn {
        case Down =>
          fx, sent := [], 0;
          ServedNothing(panel.core.State());
        case Up(isNew, offered) =>
          if isNew {
            server.Reset();
          }
          sent, fx := ServeConnected(offered, e, p);
      }
    }

    /** One poll of an established connection on a mirrored table. */
    method ServeConnected(offered: seq<byte>, e: Env, ghost p: Runs.Poll) returns (sent: nat, fx: seq<Effect>)
      requires Valid() && Quiet(panel.Table()) && InSync(panel.Table(), panel.Now())
      requires e == Runs.EnvAt(p, p.msgAt) && p.msg == LastWrite(PollsOn(server.Buffered(), offered).served)
      modifies panel`cfg, panel`horn, panel.core, panel.core.holding, panel.core.coils, panel.stage, panel.stage.val
      modifies panel.wdt, panel.arb
      modifies server, server.acc, server.txacc
      ensures Valid() && Quiet(panel.Table()) && sent <= Stream.TXACC_LEN
      ensures Result(panel.Now(), fx) == Runs.Delivered(old(panel.Now()), p)
      ensures var t := old(panel.core.State()); var o := PollsOn(old(server.Buffered()), offered);
        && AsServed(panel.core.State(), Stream.ServeAll(t, o.served)) && server.Buffered() == o.kept
        && server.txacc[..sent] == Stream.Answers(t, o.served)
    {
      hide MirrorOf, Quiet, InSync, Pending, Gated, Stream.Walk, Stream.ServeAll, Stream.Answers, LastWrite;
      fx := [];
      ghost var t, had := panel.core.State(), server.Buffered();
      var taken, wrote;
      taken, sent, wrote := server.Poll(panel.core, offered);
      OnlyWritesLast(t, had + offered[..taken]);
      if wrote {
        fx := ApplyMessage(Link.Tcp, e, t.holding, p);
      }
    }

    /** tcp_leave: close the connection and drop its partial frame. */
    method LeaveTcp()
      requires Valid()
      modifies this`tcpActive, server
      ensures Valid() && !tcpActive && server.Buffered() == (if old(tcpActive) then [] else old(server.Buffered()))
    {
      if tcpActive {
        server.Reset();
        tcpActive := false;
      }
    }

    /** The part of the tick that precedes the choice of branch. */
    method Prepare(x: Arrival, e: Env, ghost p: Runs.Poll)
      requires Valid() && Quiet(panel.Table()) && e == Runs.EnvAt(p, p.wdtAt) && p.stageAt == x.stageAt
      modifies this`line, panel.core, panel.core.holding, panel.core.coils, panel.stage, panel.wdt, panel.arb
      ensures Valid() && Quiet(panel.Table())
      ensures var n := panel.cfg.net;
        && line == LineAfter(old(line), n)
        && panel.Now() == Prepared(old(panel.Now()), old(line), n, p)
        && panel.core.State() == PreparedTables(old(panel.core.State()), panel.Now(), old(line), n, x.i, remoteModel)
        && (Wants(n) ==> panel.core.device == n.addr)
    {
      hide MirrorOf, Quiet, Runs.Watched;
      StepWatchdog(e, p);
      panel.stage.Tick(Tick(x.stageAt));
      ApplyConfig(x.i);
    }

    /** Serial, TCP, or neither. */
    method Serve(x: Arrival, e: Env, ghost p: Runs.Poll) returns (out: seq<byte>, fx: seq<Effect>)
      requires Valid() && Quiet(panel.Table()) && |x.frame| < 0x100
      requires e == Runs.EnvAt(p, p.msgAt) && p.msg == Accepted(panel.cfg.net, server.Buffered(), x)
      requires line.owned == Wants(panel.cfg.net) && (line.owned ==> panel.core.device == panel.cfg.net.addr)
      modifies this`tcpActive, panel`cfg, panel`horn, panel.core, panel.core.holding, panel.core.coils, panel.stage
      modifies panel.stage.val, panel.wdt, panel.arb
      modifies server, server.acc, server.txacc
      ensures Valid() && Quiet(panel.Table())
      ensures var n := old(panel.cfg.net);
        && Result(panel.Now(), fx) == Runs.Delivered(Entered(old(panel.Now()), OnTcp(n, x.ethUp) && !old(tcpActive)), p)
        && tcpActive == OnTcp(n, x.ethUp)
      ensures
        var n := old(panel.cfg.net);
        var entering := OnTcp(n, x.ethUp) && !old(tcpActive);
        var plain := if entering then MB.Blank(n.addr) else old(panel.core.State());
        var shown := MirroredTables(plain, Entered(old(panel.Now()), entering), x.i, remoteModel);
        Leaves(out, panel.core.State(), server.Buffered(), plain, shown, n, old(tcpActive), old(server.Buffered()), x)
    {
      hide MirroredTables, Runs.Delivered, Quiet, AsServed, LastWrite, Polls, MB.RequestOf, MB.Reply, Crc16.Sealed;
      hide Stream.ServeAll, Stream.Answers;
      out, fx := [], [];
      if line.owned {
        LeaveTcp();
        out, fx := ServeRtu(x, e, p);
      } else if panel.cfg.net.mode != SERIAL_MODE && x.ethUp {
        if !tcpActive {
          Relink(panel.cfg.net.addr);
          BlankIsQuiet(panel.cfg.net.addr);
          tcpActive := true;
        }
        var sent;
        sent, fx := ServeTcp(x, e, p);
        out := server.txacc[..sent];
      } else {
        LeaveTcp();
        NothingDelivered(panel.Now(), p);
      }
    }

    /** app_modbus_tick. Whatever the table held, and whatever the rest of the
        firmware did to the settings, the horn and the run since the last
        tick, this tick does to them exactly what the dispatch by register
        says; and it leaves no command behind. */
    method Pass(x: Arrival) returns (out: seq<byte>, fx: seq<Effect>)
      requires Valid() && Quiet(panel.Table()) && |x.frame| < 0x100
      modifies this, panel`cfg, panel`horn, panel.core, panel.core.holding, panel.core.coils, panel.stage
      modifies panel.stage.val, panel.wdt, panel.arb
      modifies server, server.acc, server.txacc
      ensures Valid() && Quiet(panel.Table())
      ensures line == LineAfter(old(line), old(panel.cfg.net)) && tcpActive == OnTcp(old(panel.cfg.net), x.ethUp)
      ensures WholeTick(
        old(panel.core.State()), old(panel.Now()), old(line), old(tcpActive), old(panel.cfg.net),
        old(server.Buffered()), x, remoteModel, panel.Now(), fx, out, panel.core.State(), server.Buffered())
    {
      hide MirroredTables, PreparedTables, Prepared, Entered, Leaves, Runs.Delivered, Runs.Watched, Accepted, WholeTick;
      hide Quiet, OnTcp;
      ghost var p := Seen(line, tcpActive, panel.cfg.net, server.Buffered(), x);
      var e := Env(x.i.gateState == GATE_OPEN, x.seekReset, x.i.overload, x.i.estop, Tick(x.wdtAt));
      Prepare(x, e, p);
      out, fx := Serve(x, e.(now := Tick(x.msgAt)), p);
      TickComposes(
        old(panel.core.State()), old(panel.Now()), old(line), old(tcpActive), old(panel.cfg.net),
        old(server.Buffered()), x, remoteModel, panel.Now(), fx, out, panel.core.State(), server.Buffered());
    }
  }
}
