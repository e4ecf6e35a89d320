/** However a stream of frames is cut into received chunks, and however the
    polls fall, the server serves exactly those frames, in order. */
module TcpSegmentation {
  import opened Words
  import opened ModbusTcpFrame
  import opened ModbusTcp

  /** The bytes one poll takes when the chip reports `reported` of them. */
  function Taken(acc: seq<byte>, rest: seq<byte>, reported: nat): (k: nat)
    requires |acc| <= ACC_LEN
    ensures k <= |rest| && |acc| + k <= ACC_LEN
    ensures reported >= |rest| ==> k == |rest| || |acc| + k == ACC_LEN
  {
    var offered := if reported <= |rest| then reported else |rest|;
    if offered <= ACC_LEN - |acc| then offered else ACC_LEN - |acc|
  }

  datatype Session = Session(served: seq<seq<byte>>, acc: seq<byte>, rest: seq<byte>)

  /** A whole session: the buffer, the bytes still to come, and for each poll
      the number of bytes the chip reports. */
  function Run(acc: seq<byte>, rest: seq<byte>, polls: seq<nat>): (s: Session)
    requires |acc| <= ACC_LEN
    decreases |polls|
  {
    if polls == [] then Session([], acc, rest)
    else
      var k := Taken(acc, rest, polls[0]);
      var o := Walk(acc + rest[..k], FRAMES_PER_POLL);
      KeptFits(acc + rest[..k], FRAMES_PER_POLL);
      var s := Run(o.kept, rest[k..], polls[1..]);
      Session(o.served + s.served, s.acc, s.rest)
  }

  lemma {:induction false} KeptFits(s: seq<byte>, budget: nat)
    ensures |Walk(s, budget).kept| <= |s|
    decreases budget
  {
    if budget > 0 && Peek(s).Complete? && !RequestIn(s[..Peek(s).len]).WriteReg? {
      KeptFits(s[Peek(s).len..], budget - 1);
    }
  }

  // --- One poll over a buffer that begins a stream of frames ---

  /** Buffered bytes and the bytes still to come spell out the frames. */
  predicate Streams(s: seq<byte>, tail: seq<byte>, frames: seq<seq<byte>>) {
    AllWire(frames) && s + tail == Flat(frames)
  }

  /** On such a buffer the peek never reports a bad header, and what it
      delimits is the next frame. */
  lemma PeekSeesNextFrame(s: seq<byte>, tail: seq<byte>, frames: seq<seq<byte>>)
    requires Streams(s, tail, frames)
    ensures !Peek(s).Desync?
    ensures Peek(s).Complete? <==> frames != [] && |frames[0]| <= |s|
    ensures Peek(s).Complete? ==> Peek(s).len == |frames[0]| && s[..|frames[0]|] == frames[0]
  {
    if frames == [] {
      assert s == [];
    } else {
      var f := frames[0];
      assert WireFrame(f);
      var flat := Flat(frames);
      assert flat == f + Flat(frames[1..]);
      if |s| >= MBAP_LEN {
        assert forall i :: 0 <= i < MBAP_LEN ==> s[i] == flat[i] == f[i];
        SameHeader(s, f);
      }
      if |s| >= |f| {
        assert s[..|f|] == flat[..|f|] == f;
      }
    }
  }

  lemma SameHeader(s: seq<byte>, f: seq<byte>)
    requires |s| >= MBAP_LEN && |f| >= MBAP_LEN && forall i :: 0 <= i < MBAP_LEN ==> s[i] == f[i]
    ensures GoodHeader(s) == GoodHeader(f) && LengthField(s) == LengthField(f)
  {
    assert s[2] == f[2] && s[3] == f[3] && s[4] == f[4] && s[5] == f[5];
  }

  lemma NextFrame(s: seq<byte>, tail: seq<byte>, frames: seq<seq<byte>>)
    requires Streams(s, tail, frames) && frames != [] && |frames[0]| <= |s| && s[..|frames[0]|] == frames[0]
    ensures Streams(s[|frames[0]|..], tail, frames[1..])
  {
    var n := |frames[0]|;
    assert s[n..] + tail == (s + tail)[n..] == Flat(frames)[n..] == Flat(frames[1..]);
  }

  /** One poll serves a prefix of the frames and keeps a buffer that begins
      the remaining ones. */
  lemma {:induction false} PollServesPrefix(s: seq<byte>, tail: seq<byte>, frames: seq<seq<byte>>, budget: nat)
    requires Streams(s, tail, frames)
    ensures var o := Walk(s, budget);
      && !o.dropped && |o.served| <= |frames| && o.served == frames[..|o.served|]
      && Streams(o.kept, tail, frames[|o.served|..])
    decreases budget
  {
    if budget > 0 {
      PeekSeesNextFrame(s, tail, frames);
      if Peek(s).Complete? {
        NextFrame(s, tail, frames);
        WalkUnfold(s, budget);
        PollServesPrefix(s[Peek(s).len..], tail, frames[1..], budget - 1);
        ServedIsPrefix(s, tail, frames, budget);
      }
    }
  }

  lemma ServedIsPrefix(s: seq<byte>, tail: seq<byte>, frames: seq<seq<byte>>, budget: nat)
    requires budget > 0 && frames != [] && Peek(s).Complete? && s[..Peek(s).len] == frames[0]
    requires AllWire(frames) && Streams(s[Peek(s).len..], tail, frames[1..])
    requires var o := Walk(s[Peek(s).len..], budget - 1);
      && !o.dropped && |o.served| <= |frames[1..]| && o.served == frames[1..][..|o.served|]
      && Streams(o.kept, tail, frames[1..][|o.served|..])
    ensures var o := Walk(s, budget);
      && !o.dropped && |o.served| <= |frames| && o.served == frames[..|o.served|]
      && Streams(o.kept, tail, frames[|o.served|..])
  {
    hide Walk, Peek, Streams, RequestIn, WireFrame;
    WalkUnfold(s, budget);
    WriteEndsPrefix(frames);
    FirstThenPrefix(frames, |Walk(s[Peek(s).len..], budget - 1).served|);
  }

  lemma WriteEndsPrefix(frames: seq<seq<byte>>)
    requires frames != []
    ensures [frames[0]] == frames[..1]
  {
  }

  lemma FirstThenPrefix(frames: seq<seq<byte>>, k: nat)
    requires frames != [] && k <= |frames[1..]|
    ensures [frames[0]] + frames[1..][..k] == frames[..k + 1] && frames[1..][k..] == frames[k + 1..]
  {
  }

  /** A poll serves at least one frame when the next one is wholly buffered. */
  lemma PollProgress(s: seq<byte>, tail: seq<byte>, frames: seq<seq<byte>>)
    requires Streams(s, tail, frames) && frames != [] && |frames[0]| <= |s|
    ensures |Walk(s, FRAMES_PER_POLL).served| >= 1
  {
    PeekSeesNextFrame(s, tail, frames);
    WalkUnfold(s, FRAMES_PER_POLL);
  }

  /** A full buffer always holds a complete frame. */
  lemma FullBufferHoldsFrame(s: seq<byte>, tail: seq<byte>, frames: seq<seq<byte>>)
    requires Streams(s, tail, frames) && |s| == ACC_LEN
    ensures Peek(s).Complete?
  {
    PeekSeesNextFrame(s, tail, frames);
    assert frames != [];
    assert WireFrame(frames[0]);
  }

  // --- Whole sessions ---

  /** Whatever the chunks and the polls: the frames served so far are a prefix
      of the frames sent, nothing is lost or served twice, and the bytes held
      or outstanding are exactly the frames not yet served. */
  lemma {:induction false} SessionServesInOrder(acc: seq<byte>, rest: seq<byte>, polls: seq<nat>,
    frames: seq<seq<byte>>)
    requires |acc| <= ACC_LEN && Streams(acc, rest, frames)
    ensures var s := Run(acc, rest, polls);
      && |s.served| <= |frames| && s.served == frames[..|s.served|]
      && |s.acc| <= ACC_LEN && Streams(s.acc, s.rest, frames[|s.served|..])
    decreases |polls|
  {
    if polls != [] {
      var k := Taken(acc, rest, polls[0]);
      var buffer := acc + rest[..k];
      assert buffer + rest[k..] == acc + rest;
      PollServesPrefix(buffer, rest[k..], frames, FRAMES_PER_POLL);
      KeptFits(buffer, FRAMES_PER_POLL);
      var o := Walk(buffer, FRAMES_PER_POLL);
      SessionServesInOrder(o.kept, rest[k..], polls[1..], frames[|o.served|..]);
      Prefixes(frames, |o.served|, |Run(o.kept, rest[k..], polls[1..]).served|);
    }
  }

  lemma Prefixes(frames: seq<seq<byte>>, a: nat, b: nat)
    requires a + b <= |frames|
    ensures frames[..a] + frames[a..][..b] == frames[..a + b]
    ensures frames[a..][b..] == frames[a + b..]
  {
  }

  lemma FlatEmpty(frames: seq<seq<byte>>)
    requires AllWire(frames)
    ensures Flat(frames) == [] <==> frames == []
  {
    assert frames != [] ==> WireFrame(frames[0]);
  }

  /** Segmentation independence: two sessions over the same bytes that have
      both consumed them serve the same frames, the ones that were sent. */
  lemma SegmentationIndependence(frames: seq<seq<byte>>, polls: seq<nat>, polls': seq<nat>)
    requires AllWire(frames)
    requires Run([], Flat(frames), polls).acc + Run([], Flat(frames), polls).rest == []
    requires Run([], Flat(frames), polls').acc + Run([], Flat(frames), polls').rest == []
    ensures Run([], Flat(frames), polls).served == Run([], Flat(frames), polls').served == frames
  {
    assert [] + Flat(frames) == Flat(frames);
    SessionServesInOrder([], Flat(frames), polls, frames);
    SessionServesInOrder([], Flat(frames), polls', frames);
    FlatEmpty(frames[|Run([], Flat(frames), polls).served|..]);
    FlatEmpty(frames[|Run([], Flat(frames), polls').served|..]);
  }

  /** Once all bytes have arrived, every poll serves another frame until none
      is left. */
  lemma {:induction false} EverythingIsServed(acc: seq<byte>, rest: seq<byte>, polls: seq<nat>, frames: seq<seq<byte>>)
    requires |acc| <= ACC_LEN && Streams(acc, rest, frames)
    requires |polls| >= |frames| && forall i :: 0 <= i < |polls| ==> polls[i] >= |rest|
    ensures Run(acc, rest, polls).served == frames
    decreases |polls|
  {
    if frames == [] {
      SessionServesInOrder(acc, rest, polls, frames);
    } else {
      var k := Taken(acc, rest, polls[0]);
      var buffer := acc + rest[..k];
      assert buffer + rest[k..] == acc + rest;
      PollServesPrefix(buffer, rest[k..], frames, FRAMES_PER_POLL);
      KeptFits(buffer, FRAMES_PER_POLL);
      NextFrameBuffered(buffer, rest[k..], frames);
      PollProgress(buffer, rest[k..], frames);
      var o := Walk(buffer, FRAMES_PER_POLL);
      EverythingIsServed(o.kept, rest[k..], polls[1..], frames[|o.served|..]);
    }
  }

  lemma NextFrameBuffered(s: seq<byte>, tail: seq<byte>, frames: seq<seq<byte>>)
    requires Streams(s, tail, frames) && frames != [] && (tail == [] || |s| == ACC_LEN)
    ensures |frames[0]| <= |s|
  {
    assert WireFrame(frames[0]);
    if tail == [] {
      assert s == Flat(frames);
    }
  }
}
