/** The Modbus/TCP server: received bytes are accumulated, complete frames are
    served in order, the rest is kept for the next poll. */
module ModbusTcp {
  import opened Words
  import opened ModbusCore
  import opened ModbusTcpFrame

  const ACC_LEN: nat := 2 * (MBAP_LEN + FRAME_MAX)
  const FRAMES_PER_POLL: nat := 4
  const TXACC_LEN: nat := FRAMES_PER_POLL * TCP_RESP_MAX

  // --- The walk over one accumulated buffer ---

  datatype Verdict = NeedMore | Complete(len: nat) | Desync

  /** mb_tcp_frame_peek. */
  function Peek(s: seq<byte>): (v: Verdict)
    ensures v.Complete? <==> Enveloped(s)
    ensures v.Complete? ==> MBAP_LEN + 2 <= v.len <= |s| && s[..v.len] == FrameOf(s)
    ensures v.Desync? <==> |s| >= MBAP_LEN && !GoodHeader(s)
  {
    if |s| < MBAP_LEN then NeedMore
    else if Join(s[2], s[3]) != 0 || LengthField(s) < 2 || LengthField(s) > FRAME_MAX then Desync
    else if |s| < MBAP_LEN + LengthField(s) then NeedMore
    else Complete(MBAP_LEN + LengthField(s))
  }

  /** What one poll does with its buffer: the frames it serves, the bytes it
      keeps, whether it ended on a register write, and whether it met a bad
      header and dropped the rest. */
  datatype Outcome = Outcome(served: seq<seq<byte>>, kept: seq<byte>, wrote: bool, dropped: bool)

  function Walk(s: seq<byte>, budget: nat): (o: Outcome)
    ensures AllWire(o.served) && |o.served| <= budget
    decreases budget
  {
    if budget == 0 then Outcome([], s, false, false)
    else
      match Peek(s)
      case NeedMore => Outcome([], s, false, false)
      case Desync => Outcome([], [], false, true)
      case Complete(n) =>
        if RequestIn(s[..n]).WriteReg? then Outcome([s[..n]], s[n..], true, false)
        else
          var o := Walk(s[n..], budget - 1);
          Outcome([s[..n]] + o.served, o.kept, o.wrote, o.dropped)
  }

  function Flat(fs: seq<seq<byte>>): seq<byte> {
    if fs == [] then [] else fs[0] + Flat(fs[1..])
  }

  lemma {:induction false} FlatAppend(fs: seq<seq<byte>>, gs: seq<seq<byte>>)
    ensures Flat(fs + gs) == Flat(fs) + Flat(gs)
  {
    if fs == [] {
      assert fs + gs == gs;
    } else {
      assert (fs + gs)[1..] == fs[1..] + gs;
      FlatAppend(fs[1..], gs);
    }
  }

  /** At most one register write is served per poll, and it is the last frame
      served. */
  lemma {:induction false} OneWritePerPoll(s: seq<byte>, budget: nat)
    ensures var o := Walk(s, budget);
      && (forall i :: 0 <= i < |o.served| - 1 ==> !RequestIn(o.served[i]).WriteReg?)
      && (o.wrote <==> o.served != [] && RequestIn(o.served[|o.served| - 1]).WriteReg?)
    decreases budget
  {
    hide Walk, RequestIn;
    if budget > 0 && Peek(s).Complete? {
      var f, rest := s[..Peek(s).len], s[Peek(s).len..];
      WalkUnfold(s, budget);
      if !RequestIn(f).WriteReg? {
        OneWritePerPoll(rest, budget - 1);
        var more := Walk(rest, budget - 1).served;
        assert Walk(s, budget).served == [f] + more;
      }
    } else {
      WalkStops(s, budget);
    }
  }

  /** The verdict on a buffer, read off its bytes: protocol zero, a length of 2
      to 125, and that many bytes after the six of the header. */
  lemma PeekMeans(s: seq<byte>)
    ensures |s| < 6 ==> Peek(s).NeedMore?
    ensures |s| >= 6 ==>
      var n := (s[4] as int) * 0x100 + s[5];
      Peek(s) == if s[2] != 0 || s[3] != 0 || n < 2 || n > 125 then Desync
        else if |s| < 6 + n then NeedMore else Complete(6 + n)
  {
    if |s| >= 6 {
      JoinIs(s[2], s[3]);
      JoinIs(s[4], s[5]);
    }
    hide Join;
  }

  lemma JoinIs(hi: byte, lo: byte)
    ensures Join(hi, lo) == (hi as int) * 0x100 + lo
    ensures Join(hi, lo) == 0 <==> hi == 0 && lo == 0
  {
  }

  /** A poll goes on until its budget is used up or it has served a register
      write, until what is left is not a whole frame, or until a bad header. */
  lemma {:induction false} WalkGoesOn(s: seq<byte>, budget: nat)
    ensures
      var o := Walk(s, budget);
      && (|o.served| < budget && !o.wrote && !o.dropped ==> Peek(o.kept).NeedMore?)
      && (o.dropped ==> |o.served| < budget && !o.wrote)
    decreases budget
  {
    hide Walk, RequestIn, Peek;
    if budget > 0 && Peek(s).Complete? {
      WalkUnfold(s, budget);
      if !RequestIn(s[..Peek(s).len]).WriteReg? {
        WalkGoesOn(s[Peek(s).len..], budget - 1);
      }
    } else {
      WalkStops(s, budget);
    }
  }

  /** What is left of a buffer once `served` has been taken from its front. */
  predicate TakenOff(s: seq<byte>, served: seq<byte>, kept: seq<byte>, dropped: bool) {
    && |served| <= |s| && s[..|served|] == served
    && (if dropped then kept == [] && Peek(s[|served|..]).Desync? else kept == s[|served|..])
  }

  /** The frames served are the front of the buffer, byte for byte; the rest is
      kept, unless it begins with a bad header: then, and only then, it is
      dropped. */
  lemma {:induction false} WalkConsumes(s: seq<byte>, budget: nat)
    ensures var o := Walk(s, budget); TakenOff(s, Flat(o.served), o.kept, o.dropped)
    decreases budget
  {
    hide Walk, RequestIn, Peek, Flat;
    FlatNone();
    if budget > 0 && Peek(s).Complete? {
      var f, rest := s[..Peek(s).len], s[Peek(s).len..];
      WalkUnfold(s, budget);
      if RequestIn(f).WriteReg? {
        FlatMore(f, []);
      } else {
        WalkConsumes(rest, budget - 1);
        FlatMore(f, Walk(rest, budget - 1).served);
        TakenTwice(s, Peek(s).len, Flat(Walk(rest, budget - 1).served));
      }
    } else {
      WalkStops(s, budget);
    }
  }

  lemma FlatNone()
    ensures Flat([]) == []
  {
  }

  lemma FlatMore(f: seq<byte>, fs: seq<seq<byte>>)
    ensures Flat([f] + fs) == f + Flat(fs)
    ensures [f] + [] == [f] && f + [] == f
  {
    assert ([f] + fs)[1..] == fs;
  }

  lemma TakenTwice(s: seq<byte>, n: nat, more: seq<byte>)
    requires n <= |s| && |more| <= |s| - n && s[n..][..|more|] == more
    ensures s[..n + |more|] == s[..n] + more && s[n..][|more|..] == s[n + |more|..]
  {
  }

  lemma WalkStops(s: seq<byte>, budget: nat)
    requires budget == 0 || !Peek(s).Complete?
    ensures
      var o := Walk(s, budget);
      && o.served == [] && !o.wrote && o.dropped == (budget > 0 && Peek(s).Desync?)
      && o.kept == (if o.dropped then [] else s)
      && (budget > 0 && !o.dropped ==> Peek(s).NeedMore?)
  {
  }

  /** A poll serves four frames, fewer only when it stops at a register write,
      at a bad header, or short of a whole frame. */
  lemma PollBudget(s: seq<byte>)
    ensures FRAMES_PER_POLL == 4 && |Walk(s, FRAMES_PER_POLL).served| <= 4
    ensures
      var o := Walk(s, FRAMES_PER_POLL);
      |o.served| < 4 && !o.wrote && !o.dropped ==> |o.kept| < 6 || |o.kept| < 6 + Join(o.kept[4], o.kept[5])
  {
    WalkGoesOn(s, FRAMES_PER_POLL);
    hide Walk;
  }

  // --- Serving frames ---

  predicate AllWire(fs: seq<seq<byte>>) {
    forall i :: 0 <= i < |fs| ==> WireFrame(fs[i])
  }

  function Served(t: Tables, f: seq<byte>): (t': Tables)
    requires t.Valid() && WireFrame(f)
    ensures t'.Valid() && t'.device == t.device
  {
    Applied(t, RequestIn(f))
  }

  /** The tables after serving the frames in order. */
  function ServeAll(t: Tables, fs: seq<seq<byte>>): (t': Tables)
    requires t.Valid() && AllWire(fs)
    ensures t'.Valid() && t'.device == t.device
    decreases |fs|
  {
    if fs == [] then t else ServeAll(Served(t, fs[0]), fs[1..])
  }

  /** The answer to one frame; silence is empty. */
  function Answer(t: Tables, f: seq<byte>): (out: seq<byte>)
    requires t.Valid() && WireFrame(f)
    ensures |out| <= TCP_RESP_MAX
  {
    if RequestIn(f).Ignored? then [] else TcpReply(t, f)
  }

  function Answers(t: Tables, fs: seq<seq<byte>>): (out: seq<byte>)
    requires t.Valid() && AllWire(fs)
    decreases |fs|
  {
    if fs == [] then [] else Answer(t, fs[0]) + Answers(Served(t, fs[0]), fs[1..])
  }

  lemma ServeNone(t: Tables)
    requires t.Valid()
    ensures AllWire([]) && ServeAll(t, []) == t && Answers(t, []) == []
  {
  }

  lemma ServeOne(t: Tables, f: seq<byte>)
    requires t.Valid() && WireFrame(f)
    ensures AllWire([f]) && ServeAll(t, [f]) == Served(t, f) && Answers(t, [f]) == Answer(t, f)
  {
    hide Served, Answer, WireFrame;
    assert [f][1..] == [];
    ServeNone(Served(t, f));
    assert Answer(t, f) + [] == Answer(t, f);
  }

  lemma ServeFirst(t: Tables, fs: seq<seq<byte>>)
    requires t.Valid() && AllWire(fs) && fs != []
    ensures WireFrame(fs[0]) && AllWire(fs[1..])
    ensures ServeAll(t, fs) == ServeAll(Served(t, fs[0]), fs[1..])
    ensures Answers(t, fs) == Answer(t, fs[0]) + Answers(Served(t, fs[0]), fs[1..])
  {
    hide Served, Answer, WireFrame;
  }

  lemma {:induction false} ServeOneMore(t: Tables, fs: seq<seq<byte>>, f: seq<byte>)
    requires t.Valid() && WireFrame(f) && AllWire(fs)
    ensures AllWire(fs + [f])
    ensures ServeAll(t, fs + [f]) == Served(ServeAll(t, fs), f)
    ensures Answers(t, fs + [f]) == Answers(t, fs) + Answer(ServeAll(t, fs), f)
    decreases |fs|
  {
    hide Served, Answer, WireFrame, ServeAll, Answers;
    if fs == [] {
      ServeNone(t);
      ServeOne(t, f);
      assert fs + [f] == [f] && [] + Answer(t, f) == Answer(t, f);
    } else {
      assert (fs + [f])[1..] == fs[1..] + [f] && (fs + [f])[0] == fs[0];
      ServeFirst(t, fs);
      ServeFirst(t, fs + [f]);
      ServeOneMore(Served(t, fs[0]), fs[1..], f);
    }
  }

  /** Between register writes only coils change, so a poll leaves the register
      table as it found it except for the register its last frame wrote. */
  lemma {:induction false} OnlyLastWriteCounts(t: Tables, fs: seq<seq<byte>>)
    requires t.Valid() && AllWire(fs)
    requires forall i :: 0 <= i < |fs| - 1 ==> !RequestIn(fs[i]).WriteReg?
    ensures var t' := ServeAll(t, fs);
      if fs != [] && RequestIn(fs[|fs| - 1]).WriteReg? then
        var r := RequestIn(fs[|fs| - 1]);
        t'.holding == t.holding[r.addr := r.val] && t'.last == r.addr
      else t'.holding == t.holding && t'.last == t.last
    decreases |fs|
  {
    if fs != [] {
      var rest := fs[1..];
      assert forall i :: 0 <= i < |rest| - 1 ==> rest[i] == fs[i + 1];
      if rest != [] {
        assert rest[|rest| - 1] == fs[|fs| - 1];
      }
      OnlyLastWriteCounts(Served(t, fs[0]), rest);
    }
  }

  // --- The server ---

  function Prefixed(fs: seq<seq<byte>>, o: Outcome): Outcome {
    Outcome(fs + o.served, o.kept, o.wrote, o.dropped)
  }

  /** After serving `fs`, the walk over `s` goes on at `off`. */
  predicate Walking(s: seq<byte>, fs: seq<seq<byte>>, off: nat, wrote: bool) {
    && off <= |s| && |fs| <= FRAMES_PER_POLL && AllWire(fs)
    && Walk(s, FRAMES_PER_POLL) ==
      Prefixed(fs, if wrote then Outcome([], s[off..], true, false) else Walk(s[off..], FRAMES_PER_POLL - |fs|))
  }

  lemma WalkStart(s: seq<byte>)
    ensures Walking(s, [], 0, false)
  {
    assert s[0..] == s;
    assert [] + Walk(s, FRAMES_PER_POLL).served == Walk(s, FRAMES_PER_POLL).served;
  }

  lemma WalkOn(s: seq<byte>, fs: seq<seq<byte>>, off: nat, n: nat)
    requires Walking(s, fs, off, false) && |fs| < FRAMES_PER_POLL && Peek(s[off..]) == Complete(n)
    ensures WireFrame(s[off..][..n])
    ensures Walking(s, fs + [s[off..][..n]], off + n, RequestIn(s[off..][..n]).WriteReg?)
  {
    hide Walk, RequestIn, Peek, Enveloped, FrameOf, WireFrame;
    var window := s[off..];
    var f := window[..n];
    PeekDelimits(window, n);
    WalkUnfold(window, FRAMES_PER_POLL - |fs|);
    assert window[n..] == s[off + n..];
    AppendOutcome(fs, f,
      if RequestIn(f).WriteReg? then Outcome([], s[off + n..], true, false)
      else Walk(s[off + n..], FRAMES_PER_POLL - |fs| - 1));
  }

  lemma PeekDelimits(s: seq<byte>, n: nat)
    requires Peek(s) == Complete(n)
    ensures n <= |s| && WireFrame(s[..n])
  {
  }

  lemma WalkUnfold(s: seq<byte>, budget: nat)
    requires budget > 0 && Peek(s).Complete?
    ensures var f, rest := s[..Peek(s).len], s[Peek(s).len..];
      Walk(s, budget) ==
      if RequestIn(f).WriteReg? then Outcome([f], rest, true, false)
      else var o := Walk(rest, budget - 1); Outcome([f] + o.served, o.kept, o.wrote, o.dropped)
  {
  }

  lemma AppendOutcome(fs: seq<seq<byte>>, f: seq<byte>, o: Outcome)
    ensures Prefixed(fs, Outcome([f] + o.served, o.kept, o.wrote, o.dropped)) == Prefixed(fs + [f], o)
    ensures [f] + [] == [f]
  {
    assert fs + ([f] + o.served) == fs + [f] + o.served;
  }

  lemma WalkEnd(s: seq<byte>, fs: seq<seq<byte>>, off: nat, wrote: bool)
    requires Walking(s, fs, off, wrote)
    requires wrote || |fs| == FRAMES_PER_POLL || off == |s| || !Peek(s[off..]).Complete?
    ensures Walk(s, FRAMES_PER_POLL).served == fs && Walk(s, FRAMES_PER_POLL).wrote == wrote
    ensures
      var lost := !wrote && |fs| < FRAMES_PER_POLL && Peek(s[off..]).Desync?;
      Walk(s, FRAMES_PER_POLL).kept == if lost then [] else s[off..]
  {
    assert fs + [] == fs;
  }

  class Server {
    const acc: array<byte>
    const txacc: array<byte>
    var accLen: nat

    ghost predicate Valid()
      reads this
    {
      acc.Length == ACC_LEN && txacc.Length == TXACC_LEN && acc != txacc && accLen <= ACC_LEN
    }

    ghost function Buffered(): seq<byte>
      requires Valid()
      reads this, acc
    {
      acc[..accLen]
    }

    constructor ()
      ensures Valid() && fresh(acc) && fresh(txacc) && Buffered() == []
    {
      acc := new byte[ACC_LEN](i => 0);
      txacc := new byte[TXACC_LEN](i => 0);
      accLen := 0;
    }

    /** A new connection, or leaving TCP: the partial frame is discarded. */
    method Reset()
      requires Valid()
      modifies this
      ensures Valid() && Buffered() == []
    {
      accLen := 0;
    }

    /** Take as many of the offered bytes as fit. */
    method Receive(offered: seq<byte>) returns (taken: nat)
      requires Valid()
      modifies this, acc
      ensures Valid()
      ensures taken == if |offered| <= ACC_LEN - old(accLen) then |offered| else ACC_LEN - old(accLen)
      ensures Buffered() == old(Buffered()) + offered[..taken]
    {
      var space := ACC_LEN - accLen;
      var avail := |offered|;
      taken := 0;
      if avail != 0 && space != 0 {
        if avail > space {
          avail := space;
        }
        forall i | 0 <= i < avail {
          acc[accLen + i] := offered[i];
        }
        taken := avail;
        accLen := accLen + avail;
      }
    }

    /** Move the unserved tail of the buffer to its front. */
    method Compact(off: nat)
      requires Valid() && off <= accLen
      modifies this, acc
      ensures Valid() && Buffered() == old(Buffered())[off..]
    {
      if off != 0 {
        accLen := accLen - off;
        forall i | 0 <= i < accLen {
          acc[i] := acc[off + i];
        }
      }
    }

    /** app_modbus_tcp_poll on an established connection: take what fits,
        serve complete frames up to the first register write, keep the rest.
        The replies go out as one block of `sent` bytes; `wrote` tells the
        caller to apply the register write. */
    method Poll(core: Core, offered: seq<byte>) returns (taken: nat, sent: nat, wrote: bool)
      requires Valid() && core.Valid() && acc != core.coils && txacc != core.coils
      modifies this, acc, txacc, core, core.holding, core.coils
      ensures Valid() && core.Valid() && sent <= TXACC_LEN
      ensures taken == if |offered| <= ACC_LEN - old(accLen) then |offered| else ACC_LEN - old(accLen)
      ensures var t, o := old(core.State()), Walk(old(Buffered()) + offered[..taken], FRAMES_PER_POLL);
        && Buffered() == o.kept && wrote == o.wrote
        && core.State() == ServeAll(t, o.served) && txacc[..sent] == Answers(t, o.served)
    {
      hide Walk, ServeAll, Answers;
      taken := Receive(offered);
      sent, wrote := Work(core);
    }

    /** The walk over what is buffered. */
    method Work(core: Core) returns (sent: nat, wrote: bool)
      requires Valid() && core.Valid() && acc != core.coils && txacc != core.coils
      modifies this, acc, txacc, core, core.holding, core.coils
      ensures Valid() && core.Valid() && sent <= TXACC_LEN
      ensures
        var t, o := old(core.State()), Walk(old(Buffered()), FRAMES_PER_POLL);
        && Buffered() == o.kept && wrote == o.wrote
        && core.State() == ServeAll(t, o.served) && txacc[..sent] == Answers(t, o.served)
    {
      hide Walk, Walking, Peek, ServeAll, Answers, Answer, Served, RequestIn, AllWire, WireFrame;
      ghost var s := Buffered();
      sent := 0;
      wrote := false;
      var off: nat, frames: nat := 0, 0;
      ghost var t, fs := core.State(), [];
      WalkStart(s);
      ServeNone(t);
      if accLen == 0 {
        WalkEnd(s, [], 0, false);
        return;
      }
      while frames < FRAMES_PER_POLL
        invariant Valid() && core.Valid() && Buffered() == s && off <= accLen && !wrote
        invariant AllWire(fs) && |fs| == frames <= FRAMES_PER_POLL && Walking(s, fs, off, false)
          && sent <= TCP_RESP_MAX * frames
        invariant core.State() == ServeAll(t, fs) && txacc[..sent] == Answers(t, fs)
      {
        var window := acc[off..accLen];
        assert window == s[off..];
        var r := Peek(window);
        if r.Desync? {
          WalkEnd(s, fs, off, false);
          accLen := 0;
          return;
        }
        if !r.Complete? {
          break;
        }
        ghost var f := window[..r.len];
        WalkOn(s, fs, off, r.len);
        ServeOneMore(t, fs, f);
        var len, fc := Serve(core, window[..r.len], sent);
        sent := sent + len;
        off := off + r.len;
        frames := frames + 1;
        fs := fs + [f];
        if fc == 6 {
          wrote := true;
          break;
        }
      }
      WalkEnd(s, fs, off, wrote);
      Compact(off);
    }

    /** Serve one frame and append its reply. */
    method Serve(core: Core, frame: seq<byte>, sent: nat) returns (len: nat, fc: byte)
      requires Valid() && core.Valid() && txacc != core.coils && WireFrame(frame) && sent + TCP_RESP_MAX <= TXACC_LEN
      modifies txacc, core, core.holding, core.coils
      ensures Valid() && core.Valid() && len <= TCP_RESP_MAX
      ensures core.State() == Served(old(core.State()), frame)
      ensures fc == 6 <==> RequestIn(frame).WriteReg?
      ensures txacc[..sent + len] == old(txacc[..sent]) + Answer(old(core.State()), frame)
    {
      var ok, n, f := BuildResponse(core, frame, txacc, sent);
      fc := f;
      assert FrameOf(frame) == frame;
      len := if ok then n else 0;
      assert txacc[..sent + len] == txacc[..sent] + txacc[sent..sent + len];
    }
  }
}
