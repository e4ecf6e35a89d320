/** Modbus/TCP framing (MODBUS Messaging on TCP/IP V1.0b, section 3.1.3): the
    MBAP header is stripped from requests and put on replies. */
module ModbusTcpFrame {
  import opened Words
  import opened ModbusCore
  import Crc16

  const MBAP_LEN: nat := 6
  const TCP_RESP_MAX: nat := RESP_MAX + 4

  /** The length field: unit identifier and PDU. */
  function LengthField(s: seq<byte>): (n: nat)
    requires |s| >= MBAP_LEN
  {
    Join(s[4], s[5])
  }

  predicate GoodHeader(s: seq<byte>)
    requires |s| >= MBAP_LEN
  {
    Join(s[2], s[3]) == 0 && 2 <= LengthField(s) <= FRAME_MAX
  }

  /** One complete frame and nothing else. */
  predicate WireFrame(s: seq<byte>) {
    |s| >= MBAP_LEN && GoodHeader(s) && |s| == MBAP_LEN + LengthField(s)
  }

  /** The request inside a wire frame. The unit identifier is not checked. */
  function RequestIn(frame: seq<byte>): (r: Request)
    requires WireFrame(frame)
    ensures InTables(r)
  {
    Received(0, frame[MBAP_LEN..], Tcp)
  }

  /** The answer: transaction and unit identifiers echoed, protocol zero, the
      length of what follows, and the reply without its check bytes. */
  function TcpReply(t: Tables, frame: seq<byte>): (out: seq<byte>)
    requires t.Valid() && WireFrame(frame) && !RequestIn(frame).Ignored?
    ensures |out| <= TCP_RESP_MAX
  {
    var body := Reply(t, RequestIn(frame));
    [frame[0], frame[1], 0, 0, Hi(|body|), Lo(|body|), frame[6]] + body[1..]
  }

  /** A buffer that starts with a complete frame. */
  predicate Enveloped(req: seq<byte>) {
    |req| >= MBAP_LEN && GoodHeader(req) && |req| >= MBAP_LEN + LengthField(req)
  }

  function FrameOf(req: seq<byte>): (frame: seq<byte>)
    requires Enveloped(req)
    ensures WireFrame(frame)
  {
    req[..MBAP_LEN + LengthField(req)]
  }

  lemma SameRequest(pdu: seq<byte>, rtu: seq<byte>)
    requires |pdu| >= 6 && |rtu| >= 6 && rtu[..6] == pdu[..6]
    ensures RequestOf(rtu) == RequestOf(pdu)
  {
    assert forall i :: 0 <= i < 6 ==> rtu[..6][i] == rtu[i] && pdu[..6][i] == pdu[i];
    assert rtu[1] == pdu[1] && rtu[2] == pdu[2] && rtu[3] == pdu[3] && rtu[4] == pdu[4] && rtu[5] == pdu[5];
  }

  /** The same PDU, sealed for RTU or wrapped for TCP, is the same request
      and so has the same effect on the tables. */
  lemma SamePduSameRequest(device: byte, pdu: seq<byte>, crc: seq<byte>, tcp: seq<byte>)
    requires 6 <= |pdu| <= FRAME_MAX && pdu[0] == device
    requires |crc| == 2 && Crc16.Sealed(pdu + crc)
    requires WireFrame(tcp) && tcp[MBAP_LEN..] == pdu
    ensures Received(device, pdu + crc, Rtu) == RequestIn(tcp)
  {
    assert (pdu + crc)[0] == pdu[0];
    assert (pdu + crc)[..6] == pdu[..6];
    SameRequest(pdu, pdu + crc);
  }

  /** The two replies agree from the function code on: the TCP reply is a
      well-formed frame that echoes the ids and carries no check bytes. */
  lemma SamePduSameReply(t: Tables, tcp: seq<byte>)
    requires t.Valid() && WireFrame(tcp) && !RequestIn(tcp).Ignored?
    ensures var out := TcpReply(t, tcp);
      && WireFrame(out) && out[..2] == tcp[..2] && out[6] == tcp[6]
      && out[7..] == Reply(t, RequestIn(tcp))[1..]
  {
    hide Reply, RequestIn;
    var body := Reply(t, RequestIn(tcp));
    WrappedReply([tcp[0], tcp[1], 0, 0, Hi(|body|), Lo(|body|), tcp[6]], body);
  }

  lemma WrappedReply(head: seq<byte>, body: seq<byte>)
    requires 2 <= |body| <= FRAME_MAX && |head| == 7
    requires head[2] == 0 && head[3] == 0 && head[4] == Hi(|body|) && head[5] == Lo(|body|)
    ensures var out := head + body[1..]; WireFrame(out) && out[..2] == head[..2] && out[7..] == body[1..]
  {
    JoinSplit(|body|);
  }

  /** mb_tcp_build_response, writing at `out[at..]`: a buffer that holds a
      complete frame is served and, unless the core is silent, answered;
      anything else is dropped without effect. */
  method BuildResponse(core: Core, req: seq<byte>, out: array<byte>, at: nat) returns (ok: bool, len: nat, fc: byte)
    requires core.Valid() && out != core.coils && at + TCP_RESP_MAX <= out.Length
    modifies core, core.holding, core.coils, out
    ensures core.Valid() && core.device == old(core.device)
    ensures out[..at] == old(out[..at])
    ensures !Enveloped(req) ==> !ok && fc == 0 && core.State() == old(core.State())
    ensures Enveloped(req) ==> var r := RequestIn(FrameOf(req));
      && core.State() == Applied(old(core.State()), r)
      && (ok <==> !r.Ignored?) && fc == FunctionCode(r)
      && (ok ==> at + len <= out.Length && out[at..at + len] == TcpReply(old(core.State()), FrameOf(req)))
  {
    if |req| < 8 {
      return false, 0, 0;
    }
    var proto := Join(req[2], req[3]);
    var length := Join(req[4], req[5]);
    if proto != 0 {
      return false, 0, 0;
    }
    if length < 2 {
      return false, 0, 0;
    }
    if |req| < MBAP_LEN + length {
      return false, 0, 0;
    }
    if length > FRAME_MAX {
      return false, 0, 0;
    }
    var resp := new byte[RESP_MAX];
    assert req[6..6 + length] == FrameOf(req)[MBAP_LEN..];
    var n, f := core.Decode(req[6..6 + length], Tcp, resp);
    SameWithoutDevice(old(core.device), FrameOf(req));
    if n == 0 {
      return false, 0, f;
    }
    assert n >= 6;  // the source guards the subtraction of the two check bytes with n < 4
    len := PutReply(req[0], req[1], req[6], resp[..n - 2], out, at);
    return true, len, f;
  }

  /** The unit identifier plays no part in serving a TCP request. */
  lemma SameWithoutDevice(device: byte, frame: seq<byte>)
    requires WireFrame(frame)
    ensures Received(device, frame[MBAP_LEN..], Tcp) == RequestIn(frame)
  {
  }

  /** MBAP header, then the answer with the unit identifier in place of the
      device address. */
  method PutReply(id1: byte, id0: byte, unit: byte, body: seq<byte>, out: array<byte>, at: nat) returns (len: nat)
    requires 0 < |body| <= RESP_MAX - 2 && at + TCP_RESP_MAX <= out.Length
    modifies out
    ensures len == 6 + |body| && out[..at] == old(out[..at])
    ensures out[at..at + len] == [id1, id0, 0, 0, Hi(|body|), Lo(|body|), unit] + body[1..]
  {
    PutHeader(id1, id0, |body|, out, at);
    ghost var head := out[..at + 6];
    PutBody(unit, body, out, at + 6);
    len := 6 + |body|;
    assert out[..at + len] == head + out[at + 6..at + len];
    Joined(out[..at + len], head, old(out[..at]), out[at + 6..at + len]);
  }

  /** The answer, its first byte replaced. */
  method PutBody(unit: byte, body: seq<byte>, out: array<byte>, p: nat)
    requires 0 < |body| && p + |body| <= out.Length
    modifies out
    ensures out[..p] == old(out[..p]) && out[p..p + |body|] == [unit] + body[1..]
  {
    CopyAt(body, out, p);
    ghost var was := out[..];
    assert was[p..p + |body|] == body;
    out[p] := unit;
    assert out[..] == was[p := unit];
  }

  method PutHeader(id1: byte, id0: byte, length: u16, out: array<byte>, at: nat)
    requires at + 6 <= out.Length
    modifies out
    ensures out[..at + 6] == old(out[..at]) + [id1, id0, 0, 0, Hi(length), Lo(length)]
  {
    out[at] := id1;
    out[at + 1] := id0;
    out[at + 2] := 0;
    out[at + 3] := 0;
    out[at + 4] := Hi(length);
    out[at + 5] := Lo(length);
  }

  lemma Joined(all: seq<byte>, head: seq<byte>, front: seq<byte>, tail: seq<byte>)
    requires |front| <= |head| && head[..|front|] == front && all == head + tail
    ensures all[..|front|] == front && all[|front|..] == head[|front|..] + tail
  {
  }

  method CopyAt(body: seq<byte>, out: array<byte>, p: nat)
    requires p + |body| <= out.Length
    modifies out
    ensures out[..p] == old(out[..p]) && out[p..p + |body|] == body
  {
    var i := 0;
    while i < |body|
      invariant 0 <= i <= |body|
      invariant forall k :: 0 <= k < p ==> out[k] == old(out[k])
      invariant forall k :: 0 <= k < i ==> out[p + k] == body[k]
    {
      out[p + i] := body[i];
      i := i + 1;
    }
  }
}
