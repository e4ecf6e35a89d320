/** The Modbus slave core: one complete frame in, table changes and a reply
    out. Function codes 1 to 6 of MODBUS Application Protocol V1.1b3, sections
    6.1 to 6.6, without exception responses. */
module ModbusCore {
  import opened Words
  import Crc16

  const REGS: nat := 51
  const COILS: nat := 50
  const FRAME_MAX: nat := 125
  const RESP_MAX: nat := 125
  const NONE: u16 := 0xFFFF

  datatype Mode = Rtu | Tcp

  /** The register and coil tables, the slave address and the address of the
      last register write. */
  datatype Tables = Tables(holding: seq<u16>, coils: seq<byte>, device: byte, last: u16) {
    ghost predicate Valid() { |holding| == REGS && |coils| == COILS }
  }

  // --- What a frame asks for ---

  datatype Request =
    | Ignored
    | ReadCoils(fc: byte, addr: nat, num: nat)
    | ReadRegs(fc: byte, addr: nat, num: nat)
    | WriteCoil(addr: nat, val: u16)
    | WriteReg(addr: nat, val: u16)

  /** A read or write that stays inside its table. */
  predicate InTables(r: Request) {
    match r
    case Ignored => true
    case ReadCoils(_, a, n) => 0 < n && a + n <= COILS
    case ReadRegs(_, a, n) => 0 < n && a + n <= REGS
    case WriteCoil(a, _) => a < COILS
    case WriteReg(a, _) => a < REGS
  }

  /** The request carried by `[unit, fc, hi, lo, hi, lo, ...]`; requests that
      reach outside the tables are ignored. */
  function RequestOf(pdu: seq<byte>): (r: Request)
    requires |pdu| >= 6
    ensures InTables(r)
  {
    var fc, a, n := pdu[1], Join(pdu[2], pdu[3]), Join(pdu[4], pdu[5]);
    if fc == 1 || fc == 2 then
      if n == 0 || a + n > COILS then Ignored else ReadCoils(fc, a, n)
    else if fc == 3 || fc == 4 then
      if n == 0 || a + n > REGS then Ignored else ReadRegs(fc, a, n)
    else if fc == 5 then
      if a >= COILS then Ignored else WriteCoil(a, n)
    else if fc == 6 then
      if a >= REGS then Ignored else WriteReg(a, n)
    else Ignored
  }

  /** An RTU frame must carry the slave's address and its own check bytes; a
      TCP frame has had its envelope checked already. */
  function Received(device: byte, frame: seq<byte>, mode: Mode): (r: Request)
    ensures InTables(r)
  {
    if mode.Rtu? then
      if |frame| >= 8 && frame[0] == device && Crc16.Sealed(frame) then RequestOf(frame) else Ignored
    else
      if |frame| >= 6 then RequestOf(frame) else Ignored
  }

  function FunctionCode(r: Request): byte {
    match r
    case Ignored => 0
    case ReadCoils(fc, _, _) => fc
    case ReadRegs(fc, _, _) => fc
    case WriteCoil(_, _) => 5
    case WriteReg(_, _) => 6
  }

  /** Function code 6 is reported for register writes only. */
  lemma SixIsRegisterWrite(device: byte, frame: seq<byte>, mode: Mode)
    ensures FunctionCode(Received(device, frame, mode)) == 6 <==> Received(device, frame, mode).WriteReg?
  {
  }

  /** The effect of a request on the tables. */
  function Applied(t: Tables, r: Request): (t': Tables)
    requires t.Valid() && InTables(r)
    ensures t'.Valid() && t'.device == t.device
  {
    match r
    case WriteCoil(a, v) => t.(coils := t.coils[a := if v != 0 then 0xFF else 0])
    case WriteReg(a, v) => t.(holding := t.holding[a := v], last := a)
    case _ => t
  }

  // --- What a reply says ---

  function PackWords(ws: seq<u16>): (b: seq<byte>)
    ensures |b| == 2 * |ws|
  {
    if ws == [] then [] else [Hi(ws[0]), Lo(ws[0])] + PackWords(ws[1..])
  }

  /** The master's reading of a register payload. */
  function UnpackWords(b: seq<byte>): seq<u16> {
    if |b| < 2 then [] else [Join(b[0], b[1])] + UnpackWords(b[2..])
  }

  function PackByte(bits: seq<bool>): (b: nat)
    requires |bits| <= 8
    ensures b < Pow2(|bits|)
  {
    if bits == [] then 0 else (if bits[0] then 1 else 0) + 2 * PackByte(bits[1..])
  }

  function PackBits(bits: seq<bool>): (b: seq<byte>)
    ensures |b| == (|bits| + 7) / 8
    decreases |bits|
  {
    if bits == [] then []
    else
      Pow2Values();
      Pow2Grows(|bits|);
      if |bits| <= 8 then [PackByte(bits)]
      else [PackByte(bits[..8])] + PackBits(bits[8..])
  }

  lemma Pow2Grows(n: nat)
    ensures n <= 8 ==> Pow2(n) <= 0x100
    decreases 8 - n
  {
    if n == 8 {
      Pow2Values();
    } else if n < 8 {
      Pow2Grows(n + 1);
    }
  }

  function CoilBits(coils: seq<byte>): (bits: seq<bool>)
    ensures |bits| == |coils|
  {
    seq(|coils|, i requires 0 <= i < |coils| => coils[i] != 0)
  }

  function RegsBody(t: Tables, fc: byte, a: nat, n: nat): (body: seq<byte>)
    requires t.Valid() && 0 < n && a + n <= REGS
    ensures |body| == 3 + 2 * n
  {
    [t.device, fc, 2 * n] + PackWords(t.holding[a..a + n])
  }

  function CoilsBody(t: Tables, fc: byte, a: nat, n: nat): (body: seq<byte>)
    requires t.Valid() && 0 < n && a + n <= COILS
    ensures |body| == 3 + (n + 7) / 8
  {
    [t.device, fc, (n + 7) / 8] + PackBits(CoilBits(t.coils[a..a + n]))
  }

  function Reply(t: Tables, r: Request): (body: seq<byte>)
    requires t.Valid() && !r.Ignored? && InTables(r)
    ensures 4 <= |body| <= RESP_MAX - 2
  {
    match r
    case ReadCoils(fc, a, n) => CoilsBody(t, fc, a, n)
    case ReadRegs(fc, a, n) => RegsBody(t, fc, a, n)
    case WriteCoil(a, v) => [t.device, 5, Hi(a), Lo(a), Hi(v), Lo(v)]
    case WriteReg(a, v) => [t.device, 6, Hi(a), Lo(a), Hi(v), Lo(v)]
  }

  // --- Replies decode back ---

  lemma {:induction false} WordsDecodeBack(ws: seq<u16>)
    ensures UnpackWords(PackWords(ws)) == ws
  {
    if ws != [] {
      JoinSplit(ws[0]);
      WordsDecodeBack(ws[1..]);
      assert PackWords(ws)[2..] == PackWords(ws[1..]);
    }
  }

  lemma {:induction false} PackByteBit(bits: seq<bool>, i: nat)
    requires |bits| <= 8
    ensures Bit(PackByte(bits), i) <==> i < |bits| && bits[i]
    decreases |bits|
  {
    if bits == [] {
      BitOfZero(i);
    } else if i > 0 {
      PackByteBit(bits[1..], i - 1);
    }
  }

  /** The bits of a packed payload, on the line, are the coils followed by
      zeros up to the byte boundary. */
  lemma {:induction false} BitsDecodeBack(bits: seq<bool>)
    ensures LineBits(PackBits(bits)) == bits + seq(8 * ((|bits| + 7) / 8) - |bits|, i => false)
    decreases |bits|
  {
    if bits != [] {
      var head := if |bits| <= 8 then bits else bits[..8];
      var rest := bits[|head|..];
      var p := PackBits(bits);
      assert p[0] == PackByte(head);
      assert p[1..] == PackBits(rest);
      BitsDecodeBack(rest);
      forall i | 0 <= i < 8
        ensures ByteBits(p[0])[i] == (i < |head| && head[i])
      {
        PackByteBit(head, i);
      }
      assert LineBits(p) == ByteBits(p[0]) + LineBits(p[1..]);
      var pad := seq(8 * ((|bits| + 7) / 8) - |bits|, i => false);
      if |bits| <= 8 {
        assert rest == [] && LineBits(p[1..]) == [];
        assert ByteBits(p[0]) == bits + pad;
      } else {
        assert ByteBits(p[0]) == head && bits == head + rest;
      }
    }
  }

  /** Unpacking a register reply gives the registers asked for. */
  lemma RegisterReplyDecodesBack(t: Tables, fc: byte, a: nat, n: nat)
    requires t.Valid() && 0 < n && a + n <= REGS
    ensures var body := Reply(t, ReadRegs(fc, a, n));
      && body[2] == |body[3..]| && UnpackWords(body[3..]) == t.holding[a..a + n]
  {
    WordsDecodeBack(t.holding[a..a + n]);
    assert Reply(t, ReadRegs(fc, a, n))[3..] == PackWords(t.holding[a..a + n]);
  }

  /** Unpacking a coil reply gives the coils asked for, then zero bits. */
  lemma CoilReplyDecodesBack(t: Tables, fc: byte, a: nat, n: nat)
    requires t.Valid() && 0 < n && a + n <= COILS
    ensures var body := Reply(t, ReadCoils(fc, a, n));
      && body[2] == |body[3..]|
      && LineBits(body[3..]) == CoilBits(t.coils[a..a + n]) + seq(8 * body[2] - n, i => false)
  {
    BitsDecodeBack(CoilBits(t.coils[a..a + n]));
    assert Reply(t, ReadCoils(fc, a, n))[3..] == PackBits(CoilBits(t.coils[a..a + n]));
  }

  /** A write is answered with its own request. */
  lemma WriteReplyEchoes(t: Tables, pdu: seq<byte>)
    requires t.Valid() && |pdu| >= 6
    requires RequestOf(pdu).WriteCoil? || RequestOf(pdu).WriteReg?
    ensures Reply(t, RequestOf(pdu)) == [t.device] + pdu[1..6]
  {
    SplitJoin(pdu[2], pdu[3]);
    SplitJoin(pdu[4], pdu[5]);
  }

  // --- From the bytes of a request to the bytes of its reply ---

  /** The frame reaches the slave: over RTU it is long enough, addressed to it
      and sealed; over TCP the envelope has seen to that. */
  predicate Heard(device: byte, frame: seq<byte>, mode: Mode) {
    |frame| >= 6 && (mode.Rtu? ==> |frame| >= 8 && frame[0] == device && Crc16.Sealed(frame))
  }

  /** What a frame does, read off its bytes: which requests are served, and
      what the two writes store. Any nonzero value sets a coil. */
  lemma FrameMeans(t: Tables, frame: seq<byte>, mode: Mode)
    requires t.Valid() && |frame| >= 6
    ensures
      var fc, a, n := frame[1], (frame[2] as int) * 0x100 + frame[3], (frame[4] as int) * 0x100 + frame[5];
      var r := Received(t.device, frame, mode);
      var fits := ((fc == 1 || fc == 2) && 1 <= n && a + n <= 50) || ((fc == 3 || fc == 4) && 1 <= n && a + n <= 51)
        || (fc == 5 && a < 50) || (fc == 6 && a < 51);
      && r.Ignored? == !(Heard(t.device, frame, mode) && fits)
      && FunctionCode(r) == (if r.Ignored? then 0 else fc)
      && Applied(t, r) == (
        if r.Ignored? || fc <= 4 then t
        else if fc == 5 then t.(coils := t.coils[a := if n == 0 then 0 else 0xFF])
        else t.(holding := t.holding[a := n], last := a))
  {
    hide Crc16.Sealed;
  }

  lemma ShortIsIgnored(device: byte, frame: seq<byte>, mode: Mode)
    requires !Heard(device, frame, mode)
    ensures Received(device, frame, mode).Ignored?
  {
    hide Crc16.Sealed, RequestOf;
  }

  lemma {:induction false} PackedWord(ws: seq<u16>, i: nat)
    requires i < |ws|
    ensures (PackWords(ws)[2 * i] as int) * 0x100 + PackWords(ws)[2 * i + 1] == ws[i]
    decreases i
  {
    if i > 0 {
      PackedWord(ws[1..], i - 1);
      assert PackWords(ws)[2..] == PackWords(ws[1..]);
      assert PackWords(ws)[2 * i] == PackWords(ws)[2..][2 * (i - 1)];
      assert PackWords(ws)[2 * i + 1] == PackWords(ws)[2..][2 * (i - 1) + 1];
    }
  }

  lemma {:induction false} PackedBit(bits: seq<bool>, i: nat)
    requires i < 8 * |PackBits(bits)|
    ensures Bit(PackBits(bits)[i / 8], i % 8) <==> i < |bits| && bits[i]
    decreases i
  {
    hide Bit, PackByte;
    if |bits| <= 8 {
      PackByteBit(bits, i);
      assert i < 8;
    } else if i < 8 {
      PackByteBit(bits[..8], i);
    } else {
      PackedBit(bits[8..], i - 8);
      assert PackBits(bits)[1..] == PackBits(bits[8..]);
      assert PackBits(bits)[i / 8] == PackBits(bits)[1..][(i - 8) / 8];
    }
  }

  /** A served read and its reply, by the request's own numbers. */
  lemma ReadReply(t: Tables, frame: seq<byte>, mode: Mode, a: nat, n: nat)
    requires t.Valid() && |frame| >= 6 && a == Join(frame[2], frame[3]) && n == Join(frame[4], frame[5])
    requires !Received(t.device, frame, mode).Ignored?
    ensures
      frame[1] == 1 || frame[1] == 2 ==>
        0 < n && a + n <= COILS && Reply(t, Received(t.device, frame, mode)) == CoilsBody(t, frame[1], a, n)
    ensures
      frame[1] == 3 || frame[1] == 4 ==>
        0 < n && a + n <= REGS && Reply(t, Received(t.device, frame, mode)) == RegsBody(t, frame[1], a, n)
  {
    hide Crc16.Sealed, CoilsBody, RegsBody, Join;
  }

  /** The bytes of a register reply: address and function code, the byte count,
      and each register high byte first. */
  lemma RegisterBytes(t: Tables, frame: seq<byte>, mode: Mode, a: nat, n: nat, i: nat)
    requires t.Valid() && |frame| >= 6 && a == Join(frame[2], frame[3]) && n == Join(frame[4], frame[5])
    requires !Received(t.device, frame, mode).Ignored? && (frame[1] == 3 || frame[1] == 4) && i < n
    ensures a + n <= REGS && |Reply(t, Received(t.device, frame, mode))| == 3 + 2 * n
    ensures
      var out := Reply(t, Received(t.device, frame, mode));
      out[..3] == [t.device, frame[1], 2 * n] && (out[3 + 2 * i] as int) * 0x100 + out[4 + 2 * i] == t.holding[a + i]
  {
    hide Reply, Received, Join, RegsBody;
    ReadReply(t, frame, mode, a, n);
    BodyWords(t, frame[1], a, n, i);
  }

  lemma BodyWords(t: Tables, fc: byte, a: nat, n: nat, i: nat)
    requires t.Valid() && 0 < n && a + n <= REGS && i < n
    ensures
      var out := RegsBody(t, fc, a, n);
      out[..3] == [t.device, fc, 2 * n] && (out[3 + 2 * i] as int) * 0x100 + out[4 + 2 * i] == t.holding[a + i]
  {
    hide PackWords;
    var ws := t.holding[a..a + n];
    PackedWord(ws, i);
    AfterThree([t.device, fc, 2 * n], PackWords(ws), 2 * i);
    AfterThree([t.device, fc, 2 * n], PackWords(ws), 2 * i + 1);
  }

  lemma AfterThree(head: seq<byte>, tail: seq<byte>, k: nat)
    requires |head| == 3 && k < |tail|
    ensures (head + tail)[3 + k] == tail[k] && (head + tail)[..3] == head
  {
  }

  /** The bytes of a coil reply: coil `i` is bit `i % 8` of payload byte
      `i / 8`, and the bits past the last coil are clear. */
  lemma CoilBytes(t: Tables, frame: seq<byte>, mode: Mode, a: nat, n: nat, i: nat)
    requires t.Valid() && |frame| >= 6 && a == Join(frame[2], frame[3]) && n == Join(frame[4], frame[5])
    requires !Received(t.device, frame, mode).Ignored? && (frame[1] == 1 || frame[1] == 2)
    requires i < 8 * ((n + 7) / 8)
    ensures a + n <= COILS && |Reply(t, Received(t.device, frame, mode))| == 3 + (n + 7) / 8 && i / 8 < (n + 7) / 8
    ensures
      var out := Reply(t, Received(t.device, frame, mode));
      && out[..3] == [t.device, frame[1], (n + 7) / 8]
      && (Bit(out[3 + i / 8], i % 8) <==> i < n && t.coils[a + i] != 0)
  {
    hide Reply, Received, Join, CoilsBody, Bit;
    ReadReply(t, frame, mode, a, n);
    BodyBits(t, frame[1], a, n, i);
  }

  lemma BodyBits(t: Tables, fc: byte, a: nat, n: nat, i: nat)
    requires t.Valid() && 0 < n && a + n <= COILS && i < 8 * ((n + 7) / 8)
    ensures
      var out := CoilsBody(t, fc, a, n);
      && out[..3] == [t.device, fc, (n + 7) / 8]
      && (Bit(out[3 + i / 8], i % 8) <==> i < n && t.coils[a + i] != 0)
  {
    hide Bit, PackBits, CoilBits, CoilsBody;
    CoilsBodyIs(t, fc, a, n);
    CoilBitsAt(t.coils, a, n, i);
    PackedBit(CoilBits(t.coils[a..a + n]), i);
    AfterThree([t.device, fc, (n + 7) / 8], PackBits(CoilBits(t.coils[a..a + n])), i / 8);
  }

  lemma CoilBitsAt(coils: seq<byte>, a: nat, n: nat, i: nat)
    requires a + n <= |coils| && i < 8 * ((n + 7) / 8)
    ensures i / 8 < (n + 7) / 8 && i < 8 * |PackBits(CoilBits(coils[a..a + n]))|
    ensures i < n ==> CoilBits(coils[a..a + n])[i] == (coils[a + i] != 0)
  {
    hide PackBits;
  }

  // --- Corrupted frames ---

  /** A frame obtained from a sealed one by a burst of at most 16 bits, or by
      an odd number of bit flips, asks for nothing: no answer, no function code,
      no change. */
  lemma CorruptedFrameIgnored(t: Tables, f: seq<byte>, g: seq<byte>)
    requires t.Valid() && Crc16.Sealed(f) && |g| == |f|
    requires var e := Crc16.Difference(LineBits(f), LineBits(g));
      (exists k: nat :: Crc16.Burst(e, k)) || Crc16.Ones(e) % 2 == 1
    ensures var r := Received(t.device, g, Rtu); r.Ignored? && FunctionCode(r) == 0 && Applied(t, r) == t
  {
    var e := Crc16.Difference(LineBits(f), LineBits(g));
    if k: nat :| Crc16.Burst(e, k) {
      Crc16.BurstDetected(f, g, k);
    } else {
      Crc16.OddFlipsDetected(f, g);
    }
  }

  /** In particular: one changed byte, or two adjacent ones. */
  lemma TwoByteErrorIgnored(t: Tables, f: seq<byte>, g: seq<byte>, i: nat)
    requires t.Valid() && Crc16.Sealed(f) && |g| == |f| && f != g && i + 2 <= |f|
    requires forall k :: 0 <= k < |f| && k != i && k != i + 1 ==> f[k] == g[k]
    ensures var r := Received(t.device, g, Rtu); r.Ignored? && FunctionCode(r) == 0 && Applied(t, r) == t
  {
    Crc16.TwoByteErrorDetected(f, g, i);
  }

  // --- The slave ---

  lemma CoilsBodyIs(t: Tables, fc: byte, a: nat, n: nat)
    requires t.Valid() && 0 < n && a + n <= COILS
    ensures CoilsBody(t, fc, a, n) == [t.device, fc, (n + 7) / 8] + PackBits(CoilBits(t.coils[a..a + n]))
  {
  }

  lemma CheckBytesSeal(body: seq<byte>, crc: u16)
    requires LineBits([Hi(crc), Lo(crc)]) == Crc16.Check(body)
    ensures Crc16.Sealed(body + [Hi(crc), Lo(crc)])
  {
    var frame := body + [Hi(crc), Lo(crc)];
    assert frame[..|frame| - 2] == body && frame[|frame| - 2..] == [Hi(crc), Lo(crc)];
  }

  lemma SealedAsCompared(frame: seq<byte>, crc: u16)
    requires |frame| >= 2
    requires LineBits([Hi(crc), Lo(crc)]) == Crc16.Check(frame[..|frame| - 2])
    ensures Crc16.Sealed(frame) <==> frame[|frame| - 2] == Hi(crc) && frame[|frame| - 1] == Lo(crc)
  {
    var tail := frame[|frame| - 2..];
    assert tail == [frame[|frame| - 2], frame[|frame| - 1]];
    if tail != [Hi(crc), Lo(crc)] {
      Crc16.PairBitsDiffer(tail, [Hi(crc), Lo(crc)]);
    }
  }

  lemma {:induction false} PackWordsAppend(ws: seq<u16>, w: u16)
    ensures PackWords(ws + [w]) == PackWords(ws) + [Hi(w), Lo(w)]
  {
    if ws == [] {
      assert ws + [w] == [w];
    } else {
      assert (ws + [w])[1..] == ws[1..] + [w];
      PackWordsAppend(ws[1..], w);
    }
  }

  lemma XorEven(p0: nat, q: nat, m: nat)
    requires p0 <= 1
    ensures Xor(p0 + 2 * q, 2 * m) == p0 + 2 * Xor(q, m)
  {
    var a, b := p0 + 2 * q, 2 * m;
    assert a / 2 == q && b / 2 == m;
    assert (a + b) % 2 == p0 by {
      assert a + b == p0 + 2 * (q + m);
    }
    XorHalves(a, b);
  }

  lemma XorHalves(a: nat, b: nat)
    ensures Xor(a, b) == (a + b) % 2 + 2 * Xor(a / 2, b / 2)
  {
    XorParts(a, b);
  }

  lemma {:induction false} PackByteExtend(bits: seq<bool>, b: bool)
    requires |bits| < 8
    ensures Xor(PackByte(bits), BitAt(b, |bits|)) == PackByte(bits + [b])
  {
    hide Xor, PackByte, BitAt, Pow2;
    if bits == [] {
      OneBit(b);
      assert bits + [b] == [b];
    } else {
      var rest := bits[1..];
      assert (bits + [b])[1..] == rest + [b];
      PackByteExtend(rest, b);
      PackByteHead(bits);
      PackByteHead(bits + [b]);
      BitAtDoubles(b, |rest|);
      XorEven(if bits[0] then 1 else 0, PackByte(rest), BitAt(b, |rest|));
    }
  }

  lemma OneBit(b: bool)
    ensures Xor(PackByte([]), BitAt(b, 0)) == PackByte([b])
  {
  }

  lemma PackByteHead(bits: seq<bool>)
    requires 0 < |bits| <= 8
    ensures PackByte(bits) == (if bits[0] then 1 else 0) + 2 * PackByte(bits[1..])
  {
  }

  lemma BitAtDoubles(b: bool, n: nat)
    ensures BitAt(b, n + 1) == 2 * BitAt(b, n)
  {
  }

  /** One more bit of a byte, which still is one. */
  lemma NextBit(bits: seq<bool>, j: nat)
    requires j < |bits| <= 8
    ensures Xor(PackByte(bits[..j]), BitAt(bits[j], j)) == PackByte(bits[..j + 1]) < 0x100
  {
    hide Xor, PackByte, BitAt, Pow2;
    PackByteExtend(bits[..j], bits[j]);
    assert bits[..j + 1] == bits[..j] + [bits[j]];
    Pow2Grows(j + 1);
  }

  function BitAt(b: bool, n: nat): nat { if b then Pow2(n) else 0 }

  lemma CoilsLeft(num: nat, bytes: nat, rem: nat, i: nat)
    requires 0 < num && rem == num % 8 && bytes == (num + 7) / 8 && 0 < i <= bytes
    ensures var nbits := if i == 1 && rem != 0 then rem else 8;
      8 * (bytes - i) + nbits == if i == 1 then num else 8 * (bytes - i + 1)
    ensures 8 * (bytes - i) < num && (i > 1 ==> 8 * (bytes - i + 1) <= num)
  {
  }

  /** The coils that share payload byte `q`. */
  function Chunk(cs: seq<byte>, q: nat): (part: seq<byte>)
    requires 8 * q < |cs|
    ensures 0 < |part| <= 8
  {
    cs[8 * q..if 8 * q + 8 <= |cs| then 8 * q + 8 else |cs|]
  }

  lemma ChunkShift(cs: seq<byte>, q: nat)
    requires 8 * q + 8 < |cs|
    ensures Chunk(cs[8..], q) == Chunk(cs, q + 1)
  {
  }

  lemma ChunkOf(all: seq<byte>, addr: nat, num: nat, q: nat, nbits: nat)
    requires addr + num <= |all| && 8 * q + nbits <= num && (nbits == 8 || 8 * q + nbits == num) && 0 < nbits <= 8
    ensures Chunk(all[addr..addr + num], q) == all[addr + 8 * q..addr + 8 * q + nbits]
  {
    var cs, o := all[addr..addr + num], 8 * q;
    assert Chunk(cs, q) == cs[o..o + nbits];
    assert cs[o..o + nbits] == all[addr + o..addr + o + nbits];
  }

  lemma {:induction false} PackedByChunks(cs: seq<byte>, packed: seq<byte>)
    requires |packed| == (|cs| + 7) / 8
    requires forall q :: 0 <= q < |packed| ==> packed[q] == PackByte(CoilBits(Chunk(cs, q)))
    ensures packed == PackBits(CoilBits(cs))
    decreases |cs|
  {
    if cs != [] {
      var bits := CoilBits(cs);
      assert packed[0] == PackByte(CoilBits(Chunk(cs, 0)));
      if |cs| <= 8 {
        assert Chunk(cs, 0) == cs;
      } else {
        assert CoilBits(Chunk(cs, 0)) == bits[..8];
        assert CoilBits(cs[8..]) == bits[8..];
        forall q | 0 <= q < |packed| - 1
          ensures packed[1..][q] == PackByte(CoilBits(Chunk(cs[8..], q)))
        {
          ChunkShift(cs, q);
        }
        PackedByChunks(cs[8..], packed[1..]);
      }
    }
  }

  /** `resp` holds a sealed frame of length `n` with the given body. */
  ghost predicate Sends(resp: array<byte>, n: nat, body: seq<byte>)
    reads resp
  {
    2 < n <= resp.Length && Crc16.Sealed(resp[..n]) && resp[..n - 2] == body
  }

  class Core {
    const holding: array<u16>
    const coils: array<byte>
    var device: byte
    var last: u16

    ghost predicate Valid()
      reads this
    {
      holding.Length == REGS && coils.Length == COILS
    }

    ghost function State(): (t: Tables)
      requires Valid()
      reads this, holding, coils
      ensures t.Valid()
    {
      Tables(holding[..], coils[..], device, last)
    }

    constructor (addr: byte)
      ensures Valid() && fresh(holding) && fresh(coils)
      ensures State() == Blank(addr)
    {
      holding := new u16[REGS](i => 0);
      coils := new byte[COILS](i => 0);
      device := addr;
      last := NONE;
    }

    /** mb_core_init: zero both tables; no register has been written yet. */
    method Init(addr: byte)
      requires Valid()
      modifies this, holding, coils
      ensures Valid() && State() == Blank(addr)
      ensures holding[..] == seq(51, i => 0) && coils[..] == seq(50, i => 0) && device == addr && last == 0xFFFF
    {
      forall i | 0 <= i < holding.Length {
        holding[i] := 0;
      }
      forall i | 0 <= i < coils.Length {
        coils[i] := 0;
      }
      device := addr;
      last := NONE;
      assert holding[..] == Blank(addr).holding;
      assert coils[..] == Blank(addr).coils;
    }

    /** Append the check bytes of resp[..k]. */
    method Seal(resp: array<byte>, k: nat) returns (n: nat)
      requires 0 < k && k + 2 <= resp.Length
      modifies resp
      ensures n == k + 2 && Sends(resp, n, old(resp[..k]))
    {
      ghost var body := resp[..k];
      var crc := Crc16.Compute(resp[..k]);
      resp[k] := Hi(crc);
      resp[k + 1] := Lo(crc);
      n := k + 2;
      CheckBytesSeal(body, crc);
      assert resp[..n] == body + [Hi(crc), Lo(crc)];
    }

    method Finish(resp: array<byte>, k: nat, ghost head: seq<byte>, ghost payload: seq<byte>) returns (n: nat)
      requires 3 <= k && k + 2 <= resp.Length
      requires resp[..3] == head && resp[3..k] == payload
      modifies resp
      ensures n == k + 2 && Sends(resp, n, head + payload)
    {
      assert resp[..k] == head + payload;
      n := Seal(resp, k);
    }

    /** Function codes 3 and 4. */
    method AnswerRegs(frame: seq<byte>, fc: byte, resp: array<byte>) returns (n: nat)
      requires Valid() && resp != coils && resp.Length == RESP_MAX && |frame| >= 6
      requires frame[1] == fc && (fc == 3 || fc == 4)
      modifies resp
      ensures var a, k := Join(frame[2], frame[3]), Join(frame[4], frame[5]);
        && (n == 0 <==> k == 0 || a + k > REGS)
        && (n != 0 ==> Sends(resp, n, RegsBody(State(), fc, a, k)))
    {
      hide PackWords, Crc16.Sealed, Join;
      var addr := Join(frame[2], frame[3]);
      var num := Join(frame[4], frame[5]);
      if num == 0 || num > REGS || addr + num > REGS {
        return 0;
      }
      resp[0] := device;
      resp[1] := fc;
      resp[2] := Lo(num * 2);
      ghost var head := resp[..3];
      var j := FillWords(resp, addr, num);
      n := Finish(resp, j, head, PackWords(holding[addr..addr + num]));
    }

    /** The payload of a register reply: high byte, low byte, word by word. */
    method FillWords(resp: array<byte>, addr: nat, num: nat) returns (j: nat)
      requires Valid() && resp != coils && resp.Length == RESP_MAX && addr + num <= REGS
      modifies resp
      ensures j == 3 + 2 * num && resp[..3] == old(resp[..3])
      ensures resp[3..j] == PackWords(holding[addr..addr + num])
    {
      assert holding[addr..addr] == [] && PackWords([]) == [];
      hide PackWords, Hi, Lo;
      j := 3;
      var i := addr;
      while i < addr + num
        invariant addr <= i <= addr + num && j == 3 + 2 * (i - addr)
        invariant resp[..3] == old(resp[..3])
        invariant resp[3..j] == PackWords(holding[addr..i])
      {
        ghost var done := resp[3..j];
        resp[j] := Hi(holding[i]);
        resp[j + 1] := Lo(holding[i]);
        assert holding[addr..i + 1] == holding[addr..i] + [holding[i]];
        PackWordsAppend(holding[addr..i], holding[i]);
        assert resp[3..j + 2] == done + [Hi(holding[i]), Lo(holding[i])];
        j := j + 2;
        i := i + 1;
      }
    }

    /** Function code 6: store the raw word and echo the request. */
    method AnswerWriteReg(frame: seq<byte>, resp: array<byte>) returns (n: nat)
      requires Valid() && resp != coils && resp.Length == RESP_MAX && |frame| >= 6
      requires frame[1] == 6
      modifies this, holding, resp
      ensures State() == Applied(old(State()), RequestOf(frame))
      ensures n == 0 <==> RequestOf(frame).Ignored?
      ensures n != 0 ==> Sends(resp, n, Reply(old(State()), RequestOf(frame)))
    {
      var addr := Join(frame[2], frame[3]);
      var val := Join(frame[4], frame[5]);
      if addr >= REGS {
        return 0;
      }
      holding[addr] := val;
      last := addr;
      Echo(frame, device, 6, resp);
      n := Seal(resp, 6);
      WriteReplyEchoes(old(State()), frame);
    }

    method Echo(frame: seq<byte>, dev: byte, fc: byte, resp: array<byte>)
      requires resp.Length == RESP_MAX && |frame| >= 6 && frame[1] == fc
      modifies resp
      ensures resp[..6] == [dev] + frame[1..6]
    {
      resp[0] := dev;
      resp[1] := fc;
      resp[2] := frame[2];
      resp[3] := frame[3];
      resp[4] := frame[4];
      resp[5] := frame[5];
    }

    /** Function code 5: any nonzero value sets the coil. */
    method AnswerWriteCoil(frame: seq<byte>, resp: array<byte>) returns (n: nat)
      requires Valid() && resp != coils && resp.Length == RESP_MAX && |frame| >= 6
      requires frame[1] == 5
      modifies coils, resp
      ensures State() == Applied(old(State()), RequestOf(frame))
      ensures n == 0 <==> RequestOf(frame).Ignored?
      ensures n != 0 ==> Sends(resp, n, Reply(old(State()), RequestOf(frame)))
    {
      var addr := Join(frame[2], frame[3]);
      var val := Join(frame[4], frame[5]);
      if addr >= COILS {
        return 0;
      }
      coils[addr] := if val != 0 then 0xFF else 0x00;
      Echo(frame, device, 5, resp);
      n := Seal(resp, 6);
      WriteReplyEchoes(old(State()), frame);
    }

    /** One byte of a coil reply: the bits are xored into a zeroed byte. */
    method FillByte(resp: array<byte>, k: nat, l: nat, nbits: nat, ghost cs: seq<byte>)
      requires Valid() && resp != coils && k < resp.Length && resp[k] == 0
      requires 0 < nbits <= 8 && l + nbits <= COILS && cs == coils[l..l + nbits]
      modifies resp
      ensures resp[k] == PackByte(CoilBits(cs))
      ensures forall m :: 0 <= m < resp.Length && m != k ==> resp[m] == old(resp[m])
    {
      ghost var bits := CoilBits(cs);
      assert |bits| == nbits && bits[..0] == [] && PackByte([]) == 0;
      assert forall i :: 0 <= i < nbits ==> bits[i] == (coils[l + i] != 0);
      hide Xor, CoilBits, PackByte, BitAt, Pow2;
      var j := 0;
      while j != nbits
        invariant 0 <= j <= nbits
        invariant resp[k] == PackByte(bits[..j])
        invariant forall m :: 0 <= m < resp.Length && m != k ==> resp[m] == old(resp[m])
      {
        NextBit(bits, j);
        resp[k] := Xor(resp[k], BitAt(coils[l + j] != 0, j));
        j := j + 1;
      }
      assert bits[..nbits] == bits;
    }

    /** Function codes 1 and 2, over a zeroed reply buffer. */
    method AnswerCoils(frame: seq<byte>, fc: byte, resp: array<byte>) returns (n: nat)
      requires Valid() && resp != coils && resp.Length == RESP_MAX && |frame| >= 6
      requires frame[1] == fc && (fc == 1 || fc == 2)
      requires forall i :: 0 <= i < RESP_MAX ==> resp[i] == 0
      modifies resp
      ensures var a, k := Join(frame[2], frame[3]), Join(frame[4], frame[5]);
        && (n == 0 <==> k == 0 || a + k > COILS)
        && (n != 0 ==> Sends(resp, n, CoilsBody(State(), fc, a, k)))
    {
      hide PackBits, CoilBits, CoilsBody, Crc16.Sealed, Join;
      var addr := Join(frame[2], frame[3]);
      var num := Join(frame[4], frame[5]);
      if num == 0 || addr + num > COILS {
        return 0;
      }
      var bytes := num / 8;
      var rem := num % 8;
      if rem != 0 {
        bytes := bytes + 1;
      }
      ghost var t, cs := State(), coils[addr..addr + num];
      assert t.coils[addr..addr + num] == cs && bytes == (num + 7) / 8;
      resp[0] := device;
      resp[1] := fc;
      resp[2] := bytes;
      ghost var head := resp[..3];
      assert head == [t.device, fc, bytes];
      CoilsBodyIs(t, fc, addr, num);
      var k := FillBits(resp, addr, num, bytes, rem, cs);
      n := Finish(resp, k, head, PackBits(CoilBits(cs)));
      assert State() == t;
    }

    /** The payload of a coil reply: full bytes, then the remainder. */
    method FillBits(resp: array<byte>, addr: nat, num: nat, bytes: nat, rem: nat, ghost cs: seq<byte>) returns (k: nat)
      requires Valid() && resp != coils && resp.Length == RESP_MAX && 0 < num && addr + num <= COILS
      requires rem == num % 8 && bytes == (num + 7) / 8
      requires forall i :: 3 <= i < RESP_MAX ==> resp[i] == 0
      requires cs == coils[addr..addr + num]
      modifies resp
      ensures k == 3 + bytes && resp[..3] == old(resp[..3])
      ensures resp[3..k] == PackBits(CoilBits(cs))
    {
      hide Chunk, CoilBits, PackByte, PackBits;
      k := 3;
      var l := addr;
      var i := bytes;
      while i != 0
        invariant 0 <= i <= bytes && k == 3 + (bytes - i)
        invariant l == addr + if i == 0 then num else 8 * (bytes - i)
        invariant forall m :: 0 <= m < 3 ==> resp[m] == old(resp[m])
        invariant forall q :: 0 <= q < k - 3 ==> resp[q + 3] == PackByte(CoilBits(Chunk(cs, q)))
        invariant forall m :: k <= m < RESP_MAX ==> resp[m] == 0
      {
        CoilsLeft(num, bytes, rem, i);
        var nbits := if i == 1 && rem != 0 then rem else 8;
        ChunkOf(coils[..], addr, num, k - 3, nbits);
        FillByte(resp, k, l, nbits, Chunk(cs, k - 3));
        l := l + nbits;
        k := k + 1;
        i := i - 1;
      }
      PackedByChunks(cs, resp[3..k]);
    }

    /** mb_core_decode: the tables change as the request says, the reply is
        its answer followed by check bytes, and silence means no effect. */
    method Decode(frame: seq<byte>, mode: Mode, resp: array<byte>) returns (n: nat, fc: byte)
      requires Valid() && resp != coils && resp.Length == RESP_MAX && |frame| < 0x100
      modifies this, holding, coils, resp
      ensures Valid() && device == old(device)
      ensures var r := Received(old(device), frame, mode);
        && State() == Applied(old(State()), r)
        && (n == 0 <==> r.Ignored?) && fc == FunctionCode(r)
        && (n != 0 ==> Sends(resp, n, Reply(old(State()), r)))
    {
      fc := 0;
      if mode == Rtu {
        if |frame| < 8 {
          return 0, 0;
        }
        if frame[0] != device {
          return 0, 0;
        }
        var crc := Crc16.Compute(frame[..|frame| - 2]);
        SealedAsCompared(frame, crc);
        if frame[|frame| - 2] != Hi(crc) || frame[|frame| - 1] != Lo(crc) {
          return 0, 0;
        }
      } else {
        if |frame| < 6 {
          return 0, 0;
        }
      }
      forall i | 0 <= i < resp.Length {
        resp[i] := 0;
      }
      n := Dispatch(frame, resp);
      if n != 0 {
        fc := frame[1];
      }
    }

    method Dispatch(frame: seq<byte>, resp: array<byte>) returns (n: nat)
      requires Valid() && resp != coils && resp.Length == RESP_MAX && |frame| >= 6
      requires forall i :: 0 <= i < RESP_MAX ==> resp[i] == 0
      modifies this, holding, coils, resp
      ensures Valid() && device == old(device)
      ensures var r := RequestOf(frame);
        && State() == Applied(old(State()), r)
        && (n == 0 <==> r.Ignored?) && (n != 0 ==> FunctionCode(r) == frame[1])
        && (n != 0 ==> Sends(resp, n, Reply(old(State()), r)))
    {
      n := 0;
      if frame[1] == 1 || frame[1] == 2 {
        n := AnswerCoils(frame, frame[1], resp);
      } else if frame[1] == 3 || frame[1] == 4 {
        n := AnswerRegs(frame, frame[1], resp);
      } else if frame[1] == 5 {
        n := AnswerWriteCoil(frame, resp);
      } else if frame[1] == 6 {
        n := AnswerWriteReg(frame, resp);
      }
    }
  }

  function Blank(addr: byte): Tables {
    Tables(seq(REGS, i => 0), seq(COILS, i => 0), addr, NONE)
  }
}
