/** Whole sessions of the slave: ticks with anything at all happening between
    them, and what becomes of a stream of requests. */
module RemoteSession {
  import opened Words
  import opened Wrappers
  import opened Config
  import opened Remote
  import opened RemoteControl
  import opened RemoteTick
  import CfgStage
  import Commands = RemoteCommands
  import Crc16
  import Frame = ModbusTcpFrame
  import MB = ModbusCore
  import Stream = ModbusTcp
  import Segments = TcpSegmentation
  import Runs = RemoteRuns
  import Reg = Regulator

  /** What the rest of the firmware does since the last tick, then a tick. */
  datatype Turn = Turn(others: seq<Runs.Event>, x: Arrival) {
    predicate Good() {
      (forall i :: 0 <= i < |others| ==> !others[i].Remote?) && |x.frame| < 0x100
    }
  }

  /** The machine and the two links. */
  datatype Situation = Situation(w: World, line: Line, tcpActive: bool, acc: seq<byte>) {
    ghost predicate Valid() { w.Valid() && |acc| <= Stream.ACC_LEN }
  }

  /** The situation a tick finds. */
  function Found(s: Situation, t: Turn): (s': Situation)
    requires s.Valid()
    ensures s'.Valid()
  {
    s.(w := Runs.Final(s.w, t.others))
  }

  function PollOf(s: Situation, t: Turn): Runs.Poll
    requires s.Valid()
  {
    Seen(s.line, s.tcpActive, Found(s, t).w.cfg.net, s.acc, t.x)
  }

  function Turned(s: Situation, t: Turn): (s': Situation)
    requires s.Valid()
    ensures s'.Valid()
  {
    var w := Found(s, t).w;
    KeptFits(w.cfg.net, s.tcpActive, s.acc, t.x);
    Situation(
      Runs.Polled(w, PollOf(s, t)).w, LineAfter(s.line, w.cfg.net), OnTcp(w.cfg.net, t.x.ethUp),
      KeptBytes(w.cfg.net, s.tcpActive, s.acc, t.x))
  }

  lemma KeptFits(n: Net, tcpActive: bool, acc: seq<byte>, x: Arrival)
    requires |acc| <= Stream.ACC_LEN
    ensures |KeptBytes(n, tcpActive, acc, x)| <= Stream.ACC_LEN
  {
    if OnTcp(n, x.ethUp) && x.conn.Up? {
      var had := if x.conn.isNew then [] else acc;
      Segments.KeptFits(had + x.conn.offered[..Room(had, x.conn.offered)], Stream.FRAMES_PER_POLL);
      PollTakes(had, x.conn.offered);
      hide Stream.Walk;
    }
  }

  /** How many of the offered bytes fit. */
  function Room(had: seq<byte>, offered: seq<byte>): (k: nat)
    requires |had| <= Stream.ACC_LEN
    ensures k <= |offered| && |had| + k <= Stream.ACC_LEN
  {
    if |offered| > Stream.ACC_LEN - |had| then Stream.ACC_LEN - |had| else |offered|
  }

  lemma PollTakes(had: seq<byte>, offered: seq<byte>)
    requires |had| <= Stream.ACC_LEN
    ensures PollsOn(had, offered) == Stream.Walk(had + offered[..Room(had, offered)], Stream.FRAMES_PER_POLL)
  {
    hide Stream.Walk;
  }

  function After(s: Situation, turns: seq<Turn>): (s': Situation)
    requires s.Valid()
    ensures s'.Valid()
    decreases |turns|
  {
    if turns == [] then s else After(Turned(s, turns[0]), turns[1..])
  }

  // --- A session is a run ---

  /** The events of a session, in order. */
  function Script(s: Situation, turns: seq<Turn>): seq<Runs.Event>
    requires s.Valid()
    decreases |turns|
  {
    if turns == [] then []
    else turns[0].others + [Runs.Remote(PollOf(s, turns[0]))] + Script(Turned(s, turns[0]), turns[1..])
  }

  lemma {:induction false} FinalSplit(w: World, a: seq<Runs.Event>, b: seq<Runs.Event>)
    requires w.Valid()
    ensures Runs.Final(w, a + b) == Runs.Final(Runs.Final(w, a), b)
    decreases |a|
  {
    if a == [] {
      assert a + b == b;
    } else {
      assert (a + b)[1..] == a[1..] + b;
      FinalSplit(Runs.Next(w, a[0]), a[1..], b);
    }
  }

  lemma TurnIsRun(s: Situation, t: Turn)
    requires s.Valid()
    ensures Turned(s, t).w == Runs.Final(s.w, t.others + [Runs.Remote(PollOf(s, t))])
  {
    var e := Runs.Remote(PollOf(s, t));
    FinalSplit(s.w, t.others, [e]);
    assert [e][1..] == [];
    hide Runs.Polled;
  }

  /** A session takes the machine where the run of its events takes it, so
      whatever holds of runs holds of sessions. */
  lemma {:induction false} SessionIsRun(s: Situation, turns: seq<Turn>)
    requires s.Valid()
    ensures After(s, turns).w == Runs.Final(s.w, Script(s, turns))
    decreases |turns|
  {
    if turns != [] {
      var t := turns[0];
      TurnIsRun(s, t);
      SessionIsRun(Turned(s, t), turns[1..]);
      FinalSplit(s.w, t.others + [Runs.Remote(PollOf(s, t))], Script(Turned(s, t), turns[1..]));
      hide Turned;
    }
  }

  // --- Driving the slave ---

  ghost function Here(s: Slave): (h: Situation)
    requires s.Valid()
    reads s, s.panel, s.panel.core, s.panel.stage, s.panel.stage.val, s.panel.wdt, s.panel.arb, s.server, s.server.acc
    ensures h.Valid()
  {
    Situation(s.panel.Now(), s.line, s.tcpActive, s.server.Buffered())
  }

  /** Anything but a remote tick: a panel edit, a run command, a regulator
      tick, a fault. */
  method Interpose(s: Slave, e: Runs.Event)
    requires s.Valid() && Quiet(s.panel.Table()) && !e.Remote?
    modifies s.panel`cfg, s.panel`horn, s.panel.arb
    ensures s.Valid() && Quiet(s.panel.Table())
    ensures Here(s) == old(Here(s)).(w := Runs.Next(old(s.panel.Now()), e))
  {
    match e {
      case Edit(c, h) =>
        s.panel.cfg := c;
        s.panel.horn := h;
      case Other(cmd, src, il, at) =>
        s.panel.arb.Command(cmd, src, il, Tick(at));
      case Regulate(lim, sn, at) =>
        s.panel.arb.Tick(Tick(at), lim, sn);
      case Fault =>
        s.panel.arb.RaiseOvtime();
    }
  }

  method InterposeAll(s: Slave, others: seq<Runs.Event>)
    requires s.Valid() && Quiet(s.panel.Table()) && forall i :: 0 <= i < |others| ==> !others[i].Remote?
    modifies s.panel`cfg, s.panel`horn, s.panel.arb
    ensures s.Valid() && Quiet(s.panel.Table())
    ensures Here(s) == old(Here(s)).(w := Runs.Final(old(s.panel.Now()), others))
  {
    ghost var h := Here(s);
    for i := 0 to |others|
      invariant s.Valid() && Quiet(s.panel.Table())
      invariant Here(s) == h.(w := Here(s).w) && Runs.Final(Here(s).w, others[i..]) == Runs.Final(h.w, others)
    {
      assert others[i..][1..] == others[i + 1..];
      Interpose(s, others[i]);
    }
  }

  /** A session of the slave, whatever happens between its ticks, follows the
      specification, and leaves no command behind. */
  method Session(s: Slave, turns: seq<Turn>)
    requires s.Valid() && Quiet(s.panel.Table()) && forall i :: 0 <= i < |turns| ==> turns[i].Good()
    modifies s, s.panel, s.panel.core, s.panel.core.holding, s.panel.core.coils
    modifies s.panel.stage, s.panel.stage.val, s.panel.wdt, s.panel.arb, s.server, s.server.acc, s.server.txacc
    ensures s.Valid() && Quiet(s.panel.Table())
    ensures Here(s) == After(old(Here(s)), turns)
    ensures s.panel.Now() == Runs.Final(old(s.panel.Now()), Script(old(Here(s)), turns))
  {
    hide Quiet, Turned;
    ghost var h := Here(s);
    SessionIsRun(h, turns);
    for i := 0 to |turns|
      invariant s.Valid() && Quiet(s.panel.Table())
      invariant After(Here(s), turns[i..]) == After(h, turns)
    {
      assert turns[i].Good() && turns[i..][1..] == turns[i + 1..];
      OneTurn(s, turns[i]);
    }
  }

  method OneTurn(s: Slave, t: Turn)
    requires s.Valid() && Quiet(s.panel.Table()) && t.Good()
    modifies s, s.panel`cfg, s.panel`horn, s.panel.core, s.panel.core.holding, s.panel.core.coils
    modifies s.panel.stage, s.panel.stage.val, s.panel.wdt, s.panel.arb, s.server, s.server.acc, s.server.txacc
    ensures s.Valid() && Quiet(s.panel.Table())
    ensures Here(s) == Turned(old(Here(s)), t)
  {
    hide Quiet, Runs.Polled, Replies, MirrorOf, KeptBytes, Seen, Runs.Final;
    InterposeAll(s, t.others);
    ghost var h := Here(s);
    var out, fx := s.Pass(t.x);
    assert s.panel.Now() == Runs.Polled(h.w, PollOf(old(Here(s)), t)).w;
    assert s.server.Buffered() == KeptBytes(h.w.cfg.net, h.tcpActive, h.acc, t.x);
  }

  // --- A stream of requests ---

  /** The register writes among frames, in order. */
  function Writes(fs: seq<seq<byte>>): seq<Runs.Msg>
    requires Stream.AllWire(fs)
  {
    if fs == [] then []
    else
      var m := LastWrite([fs[0]]);
      (if m.Some? then [m.value] else []) + Writes(fs[1..])
  }

  /** The messages a session accepts, in order. */
  function Messages(s: Situation, turns: seq<Turn>): seq<Runs.Msg>
    requires s.Valid()
    decreases |turns|
  {
    if turns == [] then []
    else
      var m := PollOf(s, turns[0]).msg;
      (if m.Some? then [m.value] else []) + Messages(Turned(s, turns[0]), turns[1..])
  }

  /** Every tick of the session finds the connection up and is offered some of
      what is still to come of the stream. */
  predicate Feeds(s: Situation, turns: seq<Turn>, rest: seq<byte>)
    requires s.Valid()
    decreases |turns|
  {
    turns == [] ||
    var x := turns[0].x;
    && OnTcp(Found(s, turns[0]).w.cfg.net, x.ethUp) && x.conn.Up? && !x.conn.isNew && x.conn.offered <= rest
    && Feeds(Turned(s, turns[0]), turns[1..], rest[Room(s.acc, x.conn.offered)..])
  }

  /** What the session has not yet taken of it. */
  function Untaken(s: Situation, turns: seq<Turn>, rest: seq<byte>): seq<byte>
    requires s.Valid() && Feeds(s, turns, rest)
    decreases |turns|
  {
    if turns == [] then rest
    else Untaken(Turned(s, turns[0]), turns[1..], rest[Room(s.acc, turns[0].x.conn.offered)..])
  }

  lemma {:induction false} WritesAppend(a: seq<seq<byte>>, b: seq<seq<byte>>)
    requires Stream.AllWire(a) && Stream.AllWire(b)
    ensures Writes(a + b) == Writes(a) + Writes(b)
    decreases |a|
  {
    hide LastWrite, Frame.WireFrame;
    if a == [] {
      assert a + b == b;
    } else {
      assert (a + b)[1..] == a[1..] + b && (a + b)[0] == a[0];
      WritesAppend(a[1..], b);
    }
  }

  /** A poll's one message is all the register writes among its frames. */
  lemma {:induction false} PollWrites(fs: seq<seq<byte>>)
    requires Stream.AllWire(fs) && forall i :: 0 <= i < |fs| - 1 ==> !Frame.RequestIn(fs[i]).WriteReg?
    ensures Writes(fs) == if LastWrite(fs).Some? then [LastWrite(fs).value] else []
    decreases |fs|
  {
    hide Frame.RequestIn;
    if |fs| > 1 {
      var rest := fs[1..];
      assert forall i :: 0 <= i < |rest| - 1 ==> rest[i] == fs[i + 1];
      assert LastWrite(rest) == LastWrite(fs) && LastWrite([fs[0]]).None?;
      PollWrites(rest);
    } else if fs != [] {
      assert fs == [fs[0]] && fs[1..] == [];
    }
  }

  /** One poll on a stream of good frames serves some of them, and its one
      message is the writes among those. */
  lemma PollOnStream(acc: seq<byte>, rest: seq<byte>, offered: seq<byte>, frames: seq<seq<byte>>) returns (k: nat)
    requires |acc| <= Stream.ACC_LEN && Segments.Streams(acc, rest, frames) && offered <= rest
    ensures k <= |frames| && Stream.AllWire(frames[..k])
    ensures var m := LastWrite(PollsOn(acc, offered).served); Writes(frames[..k]) == if m.Some? then [m.value] else []
    ensures Segments.Streams(PollsOn(acc, offered).kept, rest[Room(acc, offered)..], frames[k..])
  {
    var j := Room(acc, offered);
    var buffer := acc + offered[..j];
    assert offered[..j] == rest[..j];
    assert buffer + rest[j..] == acc + rest;
    PollTakes(acc, offered);
    Segments.PollServesPrefix(buffer, rest[j..], frames, Stream.FRAMES_PER_POLL);
    Stream.OneWritePerPoll(buffer, Stream.FRAMES_PER_POLL);
    k := |Stream.Walk(buffer, Stream.FRAMES_PER_POLL).served|;
    PollWrites(Stream.Walk(buffer, Stream.FRAMES_PER_POLL).served);
    hide Stream.Walk, Writes, LastWrite, PollsOn, Room;
  }

  /** A tick on the stream is such a poll. */
  lemma TurnOnStream(s: Situation, t: Turn, rest: seq<byte>, frames: seq<seq<byte>>) returns (k: nat)
    requires s.Valid() && OnTcp(Found(s, t).w.cfg.net, t.x.ethUp) && t.x.conn.Up? && !t.x.conn.isNew
    requires Segments.Streams(s.acc, rest, frames) && t.x.conn.offered <= rest
    ensures k <= |frames| && Stream.AllWire(frames[..k])
    ensures var m := PollOf(s, t).msg; Writes(frames[..k]) == if m.Some? then [m.value] else []
    ensures Segments.Streams(Turned(s, t).acc, rest[Room(s.acc, t.x.conn.offered)..], frames[k..])
  {
    hide PollsOn, LastWrite, Runs.Polled, Runs.Final, Segments.Streams, Writes, Room;
    k := PollOnStream(s.acc, rest, t.x.conn.offered, frames);
  }

  lemma Unroll(s: Situation, turns: seq<Turn>, rest: seq<byte>)
    requires s.Valid() && Feeds(s, turns, rest) && turns != []
    ensures
      var t, m := turns[0], PollOf(s, turns[0]).msg;
      && OnTcp(Found(s, t).w.cfg.net, t.x.ethUp) && t.x.conn.Up? && !t.x.conn.isNew && t.x.conn.offered <= rest
      && Feeds(Turned(s, t), turns[1..], rest[Room(s.acc, t.x.conn.offered)..])
      && Untaken(s, turns, rest) == Untaken(Turned(s, t), turns[1..], rest[Room(s.acc, t.x.conn.offered)..])
      && After(s, turns) == After(Turned(s, t), turns[1..])
      && Messages(s, turns) == (if m.Some? then [m.value] else []) + Messages(Turned(s, t), turns[1..])
  {
    hide PollOf, Turned, Found, Room;
  }

  /** However a stream of good requests is cut up and polled, and whatever
      happens between the ticks, its register writes are accepted once each
      and in order: those of the frames served so far, which are a prefix of
      the stream, and what is buffered or still to come is the rest of it. */
  lemma {:induction false} WritesArriveOnce(s: Situation, turns: seq<Turn>, rest: seq<byte>, frames: seq<seq<byte>>)
    returns (k: nat)
    requires s.Valid() && Segments.Streams(s.acc, rest, frames) && Feeds(s, turns, rest)
    ensures k <= |frames| && Stream.AllWire(frames[..k]) && Messages(s, turns) == Writes(frames[..k])
    ensures Segments.Streams(After(s, turns).acc, Untaken(s, turns, rest), frames[k..])
    decreases |turns|
  {
    hide Turned, PollOf, Writes, Segments.Streams, Stream.AllWire, Feeds, Untaken, Messages, After, Found, Room;
    if turns == [] {
      k := 0;
      NothingYet(s, rest, frames);
    } else {
      var t := turns[0];
      Unroll(s, turns, rest);
      var a := TurnOnStream(s, t, rest, frames);
      var b := WritesArriveOnce(Turned(s, t), turns[1..], rest[Room(s.acc, t.x.conn.offered)..], frames[a..]);
      k := a + b;
      JoinWrites(frames, a, b);
    }
  }

  lemma NothingYet(s: Situation, rest: seq<byte>, frames: seq<seq<byte>>)
    requires s.Valid()
    ensures frames[..0] == [] && frames[0..] == frames
    ensures Stream.AllWire([]) && Writes([]) == [] && Messages(s, []) == [] && After(s, []) == s
    ensures Feeds(s, [], rest) && Untaken(s, [], rest) == rest
  {
  }

  lemma JoinWrites(frames: seq<seq<byte>>, a: nat, b: nat)
    requires a + b <= |frames| && Stream.AllWire(frames[..a]) && Stream.AllWire(frames[a..][..b])
    ensures Stream.AllWire(frames[..a + b])
    ensures Writes(frames[..a + b]) == Writes(frames[..a]) + Writes(frames[a..][..b])
    ensures frames[a..][b..] == frames[a + b..]
  {
    Segments.Prefixes(frames, a, b);
    WritesAppend(frames[..a], frames[a..][..b]);
    hide Writes, Frame.WireFrame;
  }

  // --- From the bytes on the line to the run ---

  /** Whatever the tables, the settings and the gate: a tick on the serial line
      that receives a sealed write of 1 to register 0x1C for its own address
      ends with no run, and asks nothing of the rest of the firmware. */
  lemma StopFrameStops(
    t0: MB.Tables, w0: World, l: Line, tcpActive: bool, acc: seq<byte>, x: Arrival, remoteModel: bool,
    w': World, fx: seq<Effect>, out: seq<byte>, after: MB.Tables, kept: seq<byte>)
    requires t0.Valid() && w0.Valid() && after.Valid()
    requires WholeTick(t0, w0, l, tcpActive, w0.cfg.net, acc, x, remoteModel, w', fx, out, after, kept)
    requires w0.cfg.net.mode == 0 && w0.cfg.net.addr != 0
    requires |x.frame| == 8 && Crc16.Sealed(x.frame) && x.frame[..6] == [w0.cfg.net.addr, 6, 0, 0x1C, 0, 1]
    ensures w'.core.reg.run.Idle? && fx == []
  {
    var p := Seen(l, tcpActive, w0.cfg.net, acc, x);
    assert forall i :: 0 <= i < 6 ==> x.frame[i] == x.frame[..6][i];
    SerialMessage(w0.cfg.net, acc, x);
    Commands.StopEndsTick(w0, p, CfgStage.Link.Rtu);
    hide Leaves, MirroredTables, Runs.Polled, Runs.Met, Accepted, Crc16.Sealed, StartsFrom, Commands.Released;
  }
}
