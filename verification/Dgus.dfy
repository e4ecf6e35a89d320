/** The panel link: frames `5A A5 LEN cmd addr addr payload...`, built on one
    side and parsed byte by byte on the other. */
module Dgus {
  import opened Words
  import opened Wrappers

  const SYNC1: byte := 0x5A
  const SYNC2: byte := 0xA5
  const LEN_MIN: nat := 4
  const LEN_MAX: nat := 26
  const TIMEOUT_MS: nat := 50
  const TX_BUF: nat := 32
  const RX_BUF: nat := 32

  datatype Frame = Frame(cmd: byte, vp: u16, data: seq<byte>) {
    predicate Fits() { 1 <= |data| <= LEN_MAX - 3 }
  }

  // --- The builder ---

  /** What LEN counts. */
  function Body(f: Frame): seq<byte> { [f.cmd, Hi(f.vp), Lo(f.vp)] + f.data }

  function Wire(f: Frame): seq<byte> { [SYNC1, SYNC2, Lo(|Body(f)|)] + Body(f) }

  /** send_frame: the bytes put on the line. */
  method BuildFrame(cmd: byte, vp: u16, payload: seq<byte>, tx: array<byte>) returns (n: nat)
    requires tx.Length == TX_BUF && 6 + |payload| <= TX_BUF
    modifies tx
    ensures n <= TX_BUF && tx[..n] == Wire(Frame(cmd, vp, payload))
  {
    PutHeader(cmd, vp, Lo(3 + |payload|), tx);
    ghost var head := tx[..6];
    for i := 0 to |payload|
      invariant forall k :: 0 <= k < 6 ==> tx[k] == head[k]
      invariant forall k :: 0 <= k < i ==> tx[6 + k] == payload[k]
    {
      tx[6 + i] := payload[i];
    }
    n := 6 + |payload|;
    assert tx[..n] == head + payload;
  }

  method PutHeader(cmd: byte, vp: u16, len: byte, tx: array<byte>)
    requires tx.Length == TX_BUF
    modifies tx
    ensures tx[..6] == [SYNC1, SYNC2, len, cmd, Hi(vp), Lo(vp)]
  {
    tx[0] := SYNC1;
    tx[1] := SYNC2;
    tx[2] := len;
    tx[3] := cmd;
    tx[4] := Hi(vp);
    tx[5] := Lo(vp);
  }

  // --- The parser ---

  /** `body` is what has been collected, `left` what LEN still promises. */
  datatype State = Idle | Got5A | GotHeader(start: u32) | Collecting(start: u32, body: seq<byte>, left: nat) {
    predicate Valid() { Collecting? ==> left > 0 && LEN_MIN <= |body| + left <= LEN_MAX }
  }

  function Decoded(body: seq<byte>): Frame
    requires |body| >= 3
  {
    Frame(body[0], Join(body[1], body[2]), body[3..])
  }

  /** A byte with the instant it is parsed at. */
  datatype Timed = Timed(b: byte, at: nat)

  function Step(s: State, x: Timed): (r: (State, Option<Frame>))
    requires s.Valid()
    ensures r.0.Valid() && (r.1.Some? ==> r.0.Idle? && r.1.value.Fits())
  {
    match s
    case Idle => (if x.b == SYNC1 then Got5A else Idle, None)
    case Got5A => (if x.b == SYNC2 then GotHeader(Tick(x.at)) else if x.b == SYNC1 then Got5A else Idle, None)
    case GotHeader(start) => (if LEN_MIN <= x.b <= LEN_MAX then Collecting(start, [], x.b) else Idle, None)
    case Collecting(start, body, left) =>
      if Elapsed(Tick(x.at), start) > TIMEOUT_MS then (Idle, None)
      else if left > 1 then (Collecting(start, body + [x.b], left - 1), None)
      else (Idle, Some(Decoded(body + [x.b])))
  }

  function Pushed(s: State, fs: seq<Frame>, x: Timed): (r: (State, seq<Frame>))
    requires s.Valid()
    ensures r.0.Valid()
  {
    var (s', f) := Step(s, x);
    (s', if f.Some? then fs + [f.value] else fs)
  }

  /** The state and the frames after a stretch of input. */
  function Parse(s: State, xs: seq<Timed>): (r: (State, seq<Frame>))
    requires s.Valid()
    ensures r.0.Valid()
    decreases |xs|
  {
    if xs == [] then (s, [])
    else
      var (s', fs) := Parse(s, xs[..|xs| - 1]);
      Pushed(s', fs, xs[|xs| - 1])
  }

  lemma ParseOneMore(s: State, xs: seq<Timed>, x: Timed)
    requires s.Valid()
    ensures Parse(s, xs + [x]) == Pushed(Parse(s, xs).0, Parse(s, xs).1, x)
  {
    assert (xs + [x])[..|xs|] == xs;
  }

  lemma PushedAfter(s: State, fs: seq<Frame>, gs: seq<Frame>, x: Timed)
    requires s.Valid()
    ensures Pushed(s, fs + gs, x) == (Pushed(s, gs, x).0, fs + Pushed(s, gs, x).1)
  {
    var f := Step(s, x).1;
    if f.Some? {
      assert fs + gs + [f.value] == fs + (gs + [f.value]);
    }
  }

  lemma {:induction false} ParseAppend(s: State, xs: seq<Timed>, ys: seq<Timed>)
    requires s.Valid()
    ensures Parse(s, xs + ys).0 == Parse(Parse(s, xs).0, ys).0
    ensures Parse(s, xs + ys).1 == Parse(s, xs).1 + Parse(Parse(s, xs).0, ys).1
    decreases |ys|
  {
    if ys == [] {
      assert xs + ys == xs;
    } else {
      hide Parse, Pushed;
      var k := |ys| - 1;
      var front, y := ys[..k], ys[k];
      assert xs + ys == xs + front + [y] && ys == front + [y];
      ParseAppend(s, xs, front);
      ParseOneMore(s, xs + front, y);
      ParseOneMore(Parse(s, xs).0, front, y);
      PushedAfter(Parse(s, xs + front).0, Parse(s, xs).1, Parse(Parse(s, xs).0, front).1, y);
    }
  }

  // --- Builder and parser undo each other ---

  function Bytes(xs: seq<Timed>): seq<byte> { seq(|xs|, i requires 0 <= i < |xs| => xs[i].b) }

  /** Noise between frames: anything without a header in it. */
  predicate Noise(xs: seq<Timed>) {
    forall i :: 0 <= i < |xs| - 1 ==> !(xs[i].b == SYNC1 && xs[i + 1].b == SYNC2)
  }

  /** A frame on the line: its bytes, those after LEN parsed no later than
      50 ms after the header. */
  predicate OnLine(xs: seq<Timed>, f: Frame) {
    && f.Fits() && Bytes(xs) == Wire(f)
    && forall i :: 3 <= i < |xs| ==> xs[1].at <= xs[i].at <= xs[1].at + 50
  }

  lemma {:induction false} NoiseIsSilent(xs: seq<Timed>)
    requires Noise(xs)
    ensures Parse(Idle, xs) == (if xs != [] && xs[|xs| - 1].b == SYNC1 then Got5A else Idle, [])
    decreases |xs|
  {
    if xs != [] {
      NoiseIsSilent(xs[..|xs| - 1]);
    }
  }

  lemma {:induction false} Collects(start: u32, t0: nat, xs: seq<Timed>, len: nat)
    requires start == Tick(t0) && LEN_MIN <= len <= LEN_MAX && |xs| < len
    requires forall i :: 0 <= i < |xs| ==> t0 <= xs[i].at <= t0 + TIMEOUT_MS
    ensures Parse(Collecting(start, [], len), xs) == (Collecting(start, Bytes(xs), len - |xs|), [])
    decreases |xs|
  {
    NothingCollected(start, len);
    hide Parse, Pushed, Step, Elapsed, Tick, Bytes;
    if xs == [] {
      NoBytes(xs);
    } else {
      var k := |xs| - 1;
      var front, x := xs[..k], xs[k];
      assert xs == front + [x];
      Collects(start, t0, front, len);
      ElapsedIsReal(x.at, t0);
      ByteMore(front, x);
      ParseOneMore(Collecting(start, [], len), front, x);
      CollectsOne(start, Bytes(front), len - k, x);
    }
  }

  lemma CollectsOne(start: u32, body: seq<byte>, left: nat, x: Timed)
    requires left > 1 && LEN_MIN <= |body| + left <= LEN_MAX && Elapsed(Tick(x.at), start) <= TIMEOUT_MS
    ensures Pushed(Collecting(start, body, left), [], x) == (Collecting(start, body + [x.b], left - 1), [])
  {
  }

  lemma NothingCollected(start: u32, len: nat)
    requires LEN_MIN <= len <= LEN_MAX
    ensures Parse(Collecting(start, [], len), []) == (Collecting(start, [], len), [])
  {
  }

  lemma NoBytes(xs: seq<Timed>)
    requires xs == []
    ensures Bytes(xs) == []
  {
  }

  lemma ByteMore(xs: seq<Timed>, x: Timed)
    ensures Bytes(xs + [x]) == Bytes(xs) + [x.b]
  {
  }

  lemma HeaderSeen(s: State, a: Timed, b: Timed, c: Timed)
    requires (s.Idle? || s.Got5A?) && a.b == SYNC1 && b.b == SYNC2 && LEN_MIN <= c.b <= LEN_MAX
    ensures Parse(s, [a, b, c]) == (Collecting(Tick(b.at), [], c.b), [])
  {
    assert [a, b, c][..2] == [a, b] && [a, b][..1] == [a] && [a][..0] == [];
    assert Parse(s, [a]) == (Got5A, []);
    assert Parse(s, [a, b]) == (GotHeader(Tick(b.at)), []);
  }

  /** A frame on the line is its header, the body but its last byte, and that
      byte. */
  lemma LineParts(xs: seq<Timed>, f: Frame)
    requires OnLine(xs, f)
    ensures |xs| == 3 + |Body(f)| && LEN_MIN <= |Body(f)| <= LEN_MAX
    ensures xs[0].b == SYNC1 && xs[1].b == SYNC2 && xs[2].b == |Body(f)|
    ensures Bytes(xs[3..|xs| - 1]) + [xs[|xs| - 1].b] == Body(f)
    ensures xs == [xs[0], xs[1], xs[2]] + xs[3..|xs| - 1] + [xs[|xs| - 1]]
  {
    hide Bytes, Wire, Body;
    WireParts(f);
    BytesParts(xs);
  }

  lemma WireParts(f: Frame)
    requires f.Fits()
    ensures |Wire(f)| == 3 + |Body(f)| && LEN_MIN <= |Body(f)| <= LEN_MAX
    ensures Wire(f)[0] == SYNC1 && Wire(f)[1] == SYNC2 && Wire(f)[2] == |Body(f)| && Wire(f)[3..] == Body(f)
  {
  }

  lemma BytesParts(xs: seq<Timed>)
    ensures |Bytes(xs)| == |xs|
    ensures |xs| >= 4 ==>
      && Bytes(xs[3..|xs| - 1]) + [xs[|xs| - 1].b] == Bytes(xs)[3..]
      && Bytes(xs)[0] == xs[0].b && Bytes(xs)[1] == xs[1].b && Bytes(xs)[2] == xs[2].b
      && xs == [xs[0], xs[1], xs[2]] + xs[3..|xs| - 1] + [xs[|xs| - 1]]
  {
  }

  lemma BodyDecodes(f: Frame)
    ensures Decoded(Body(f)) == f
  {
    JoinSplit(f.vp);
  }

  /** The last byte completes the frame. */
  lemma LastByte(start: u32, body: seq<byte>, x: Timed)
    requires Collecting(start, body, 1).Valid() && Elapsed(Tick(x.at), start) <= TIMEOUT_MS
    ensures Pushed(Collecting(start, body, 1), [], x) == (Idle, [Decoded(body + [x.b])])
  {
    AloneIsAlone(Decoded(body + [x.b]));
  }

  lemma AloneIsAlone(f: Frame)
    ensures [] + [f] == [f]
  {
  }

  /** One frame, between frames, is parsed to itself. */
  lemma FrameComesBack(s: State, xs: seq<Timed>, f: Frame)
    requires (s.Idle? || s.Got5A?) && OnLine(xs, f)
    ensures Parse(s, xs) == (Idle, [f])
  {
    LineParts(xs, f);
    var n, len := |xs|, |Body(f)|;
    var head, mid, last := [xs[0], xs[1], xs[2]], xs[3..n - 1], xs[n - 1];
    var start := Tick(xs[1].at);
    hide Parse, Body, Wire, Tick, Elapsed, Bytes;
    HeaderSeen(s, xs[0], xs[1], xs[2]);
    Collects(start, xs[1].at, mid, len);
    ParseAppend(s, head, mid);
    ElapsedIsReal(last.at, xs[1].at);
    ParseOneMore(s, head + mid, last);
    LastByte(start, Bytes(mid), last);
    BodyDecodes(f);
  }

  /** Noise, then a frame. */
  datatype Item = Item(noise: seq<Timed>, wire: seq<Timed>, frame: Frame) {
    predicate Good() { Noise(noise) && OnLine(wire, frame) }
  }

  function Stream(items: seq<Item>): seq<Timed> {
    if items == [] then [] else Stream(items[..|items| - 1]) + (items[|items| - 1].noise + items[|items| - 1].wire)
  }

  function Frames(items: seq<Item>): seq<Frame> { seq(|items|, i requires 0 <= i < |items| => items[i].frame) }

  lemma ItemComesBack(it: Item)
    requires it.Good()
    ensures Parse(Idle, it.noise + it.wire) == (Idle, [it.frame])
  {
    NoiseIsSilent(it.noise);
    FrameComesBack(Parse(Idle, it.noise).0, it.wire, it.frame);
    ParseAppend(Idle, it.noise, it.wire);
    AloneIsAlone(it.frame);
    hide Parse;
  }

  /** Any sequence of frames, with noise between them, comes back exactly and
      in order. */
  lemma {:induction false} StreamComesBack(items: seq<Item>)
    requires forall i :: 0 <= i < |items| ==> items[i].Good()
    ensures Parse(Idle, Stream(items)) == (Idle, Frames(items))
    decreases |items|
  {
    if items != [] {
      hide Parse;
      var k := |items| - 1;
      StreamComesBack(items[..k]);
      assert items[k].Good();
      ItemComesBack(items[k]);
      ParseAppend(Idle, Stream(items[..k]), items[k].noise + items[k].wire);
      assert Frames(items) == Frames(items[..k]) + [items[k].frame];
    }
  }

  // --- Nothing but frames on the line is returned ---

  /** The bytes of a frame: two sync bytes, the count of what follows, command,
      address high byte first, payload. */
  lemma WireBytes(f: Frame)
    requires f.Fits()
    ensures Wire(f) == [0x5A, 0xA5, 3 + |f.data|, f.cmd, f.vp / 0x100, f.vp % 0x100] + f.data
  {
  }

  /** No more than 50 ms after the header. */
  predicate InTime(x: Timed, start: u32) { Elapsed(Tick(x.at), start) <= 50 }

  /** The input ends with a header, a count of `len`, and `body`, each byte of
      the body in time. */
  predicate EndsWith(xs: seq<Timed>, start: u32, len: nat, body: seq<byte>) {
    && |xs| >= 3 + |body|
    && var t := xs[|xs| - 3 - |body|..];
      && t[0].b == 0x5A && t[1].b == 0xA5 && start == Tick(t[1].at) && t[2].b == len
      && Bytes(t[3..]) == body && forall i :: 3 <= i < |t| ==> InTime(t[i], start)
  }

  /** What the parser's state says about its input so far. */
  predicate Tracks(s: State, xs: seq<Timed>) {
    match s
    case Idle => true
    case Got5A => xs != [] && xs[|xs| - 1].b == 0x5A
    case GotHeader(start) =>
      |xs| >= 2 && xs[|xs| - 2].b == 0x5A && xs[|xs| - 1].b == 0xA5 && start == Tick(xs[|xs| - 1].at)
    case Collecting(start, body, left) => EndsWith(xs, start, |body| + left, body)
  }

  /** The input ends with the whole of a frame, in time. */
  predicate EndsInFrame(xs: seq<Timed>, f: Frame) {
    && f.Fits() && |xs| >= 6 + |f.data|
    && var t := xs[|xs| - 6 - |f.data|..];
      Bytes(t) == Wire(f) && forall i :: 3 <= i < |t| ==> InTime(t[i], Tick(t[1].at))
  }

  lemma EndsWholly(xs: seq<Timed>, start: u32, f: Frame)
    requires f.Fits() && EndsWith(xs, start, 3 + |f.data|, Body(f))
    ensures EndsInFrame(xs, f)
  {
    hide InTime, Tick;
    var t := xs[|xs| - 6 - |f.data|..];
    assert forall i :: 3 <= i < |t| ==> t[i].b == Bytes(t[3..])[i - 3];
    assert Bytes(t) == [t[0].b, t[1].b, t[2].b] + Bytes(t[3..]);
  }

  lemma EndsWithMore(xs: seq<Timed>, start: u32, len: nat, body: seq<byte>, x: Timed)
    requires EndsWith(xs, start, len, body) && InTime(x, start)
    ensures EndsWith(xs + [x], start, len, body + [x.b])
  {
    hide InTime, Tick, Bytes;
    var n := |xs| - 3 - |body|;
    var t := xs[n..];
    assert (xs + [x])[n..] == t + [x];
    ByteMore(t[3..], x);
    assert (t + [x])[3..] == t[3..] + [x];
  }

  lemma HeaderEnds(xs: seq<Timed>, x: Timed, start: u32)
    requires Tracks(GotHeader(start), xs)
    ensures EndsWith(xs + [x], start, x.b, [])
  {
    hide InTime, Tick;
    var t := (xs + [x])[|xs| - 2..];
    assert t[0] == xs[|xs| - 2] && t[1] == xs[|xs| - 1] && t[2] == x && t[3..] == [];
  }

  /** One byte: the state goes on telling the truth, and a frame that is
      returned is what the input ends with. */
  lemma StepTracks(s: State, xs: seq<Timed>, x: Timed)
    requires s.Valid() && Tracks(s, xs)
    ensures Tracks(Step(s, x).0, xs + [x])
    ensures Step(s, x).1.Some? ==> EndsInFrame(xs + [x], Step(s, x).1.value)
  {
    hide EndsWith, Tick, Elapsed;
    match s {
      case Idle =>
      case Got5A =>
      case GotHeader(start) =>
        HeaderEnds(xs, x, start);
      case Collecting(start, body, left) =>
        if Elapsed(Tick(x.at), start) <= TIMEOUT_MS {
          EndsWithMore(xs, start, |body| + left, body, x);
          if left == 1 {
            BodyBack(body + [x.b]);
            EndsWholly(xs + [x], start, Decoded(body + [x.b]));
          }
        }
    }
  }

  lemma BodyBack(body: seq<byte>)
    requires LEN_MIN <= |body| <= LEN_MAX
    ensures Body(Decoded(body)) == body && |Decoded(body).data| + 3 == |body| && Decoded(body).Fits()
  {
    SplitJoin(body[1], body[2]);
  }

  lemma {:induction false} AlwaysTracks(xs: seq<Timed>)
    ensures Tracks(Parse(Idle, xs).0, xs)
    decreases |xs|
  {
    hide Tracks, Step;
    if xs == [] {
      IdleTracks();
    } else {
      var front, x := xs[..|xs| - 1], xs[|xs| - 1];
      assert xs == front + [x];
      AlwaysTracks(front);
      StepTracks(Parse(Idle, front).0, front, x);
    }
  }

  lemma IdleTracks()
    ensures Tracks(Parse(Idle, []).0, [])
  {
  }

  /** The converse of the round trip, for any input at all: whenever a byte
      completes a frame, the input ends with exactly that frame's bytes, its
      count in 4..26, and every byte after the count within 50 ms of the
      header. */
  lemma OnlyFromTheLine(xs: seq<Timed>, x: Timed)
    ensures
      var before, after := Parse(Idle, xs).1, Parse(Idle, xs + [x]).1;
      if |after| <= |before| then after == before
      else after[..|before|] == before && |after| == |before| + 1 && EndsInFrame(xs + [x], after[|before|])
  {
    AlwaysTracks(xs);
    StepTracks(Parse(Idle, xs).0, xs, x);
    ParseOneMore(Idle, xs, x);
    hide Tracks, Step, EndsInFrame, Parse;
  }

  // --- The parser's statics ---

  datatype Phase = PsIdle | PsGot5A | PsGotHeader | PsCollecting

  class Parser {
    const buf: array<byte>
    var phase: Phase
    var idx: nat
    var left: nat
    var start: u32
    var drops: nat

    /** While collecting, what is collected and what is left make up LEN. */
    ghost predicate Valid()
      reads this
    {
      && buf.Length == RX_BUF
      && (phase.PsCollecting? ==> left > 0 && LEN_MIN <= idx + left <= LEN_MAX)
    }

    ghost function Now(): (s: State)
      requires Valid()
      reads this, buf
      ensures s.Valid()
    {
      match phase
      case PsIdle => Idle
      case PsGot5A => Got5A
      case PsGotHeader => GotHeader(start)
      case PsCollecting => Collecting(start, buf[..idx], left)
    }

    constructor ()
      ensures Valid() && fresh(buf) && Now() == Idle
    {
      buf := new byte[RX_BUF](i => 0);
      phase := PsIdle;
      idx, left, start, drops := 0, 0, 0, 0;
    }

    /** parser_step. A frame that times out or has a bad LEN is dropped and
        counted. */
    method Take(b: byte, now: u32, ghost at: nat) returns (out: Option<Frame>)
      requires Valid() && now == Tick(at)
      modifies this, buf
      ensures Valid() && (Now(), out) == Step(old(Now()), Timed(b, at))
      ensures drops == old(drops) + if !old(Now()).Got5A? && !old(Now()).Idle? && Now().Idle? && out.None? then 1 else 0
    {
      out := None;
      match phase {
        case PsIdle =>
          if b == SYNC1 {
            phase := PsGot5A;
          }
        case PsGot5A =>
          if b == SYNC2 {
            phase := PsGotHeader;
            start := now;
          } else if b == SYNC1 {
          } else {
            phase := PsIdle;
          }
        case PsGotHeader =>
          if b < LEN_MIN || b > LEN_MAX {
            drops := drops + 1;
            phase := PsIdle;
          } else {
            left := b;
            idx := 0;
            phase := PsCollecting;
          }
        case PsCollecting =>
          out := Collect(b, now, at);
      }
    }

    method Collect(b: byte, now: u32, ghost at: nat) returns (out: Option<Frame>)
      requires Valid() && phase.PsCollecting? && now == Tick(at)
      modifies this, buf
      ensures Valid() && (Now(), out) == Step(old(Now()), Timed(b, at))
      ensures drops == old(drops) + if Now().Idle? && out.None? then 1 else 0
    {
      if Elapsed(now, start) > TIMEOUT_MS {
        drops := drops + 1;
        phase := PsIdle;
        return None;
      }
      buf[idx] := b;
      assert buf[..idx + 1] == old(buf[..idx]) + [b];
      idx := idx + 1;
      left := left - 1;
      if left == 0 {
        var data := buf[3..idx];
        out := Some(Frame(buf[0], Join(buf[1], buf[2]), data));
        phase := PsIdle;
        return;
      }
      return None;
    }

    /** dgus_rx_poll over the bytes in the ring: consume up to the end of one
        frame, or everything. */
    method Poll(ring: seq<Timed>) returns (out: Option<Frame>, used: nat)
      requires Valid()
      modifies this, buf
      ensures Valid() && used <= |ring|
      ensures Parse(old(Now()), ring[..used]) == (Now(), if out.Some? then [out.value] else [])
      ensures out.None? ==> used == |ring|
    {
      used := 0;
      while used < |ring|
        invariant Valid() && used <= |ring|
        invariant Parse(old(Now()), ring[..used]) == (Now(), [])
      {
        assert ring[..used + 1][..used] == ring[..used];
        out := Take(ring[used].b, Tick(ring[used].at), ring[used].at);
        used := used + 1;
        if out.Some? {
          AloneIsAlone(out.value);
          return;
        }
      }
      out := None;
    }
  }
}
