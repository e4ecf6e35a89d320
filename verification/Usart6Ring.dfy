/** The serial receiver: a circular DMA buffer read by polling, whose frames end
    where the line has been still for a gap. */
module Usart6Ring {
  import opened Words

  const SIZE: nat := 256

  /** Break time per baud index, in milliseconds; anything else is 19200 baud. */
  function GapMs(speed: byte): (g: nat) {
    if speed == 0 then 14 else if speed == 1 then 7 else if speed == 2 then 4 else 2
  }

  /** mb_baud, with the default branch. */
  function Baud(speed: byte): (b: nat) {
    if speed == 0 then 2400 else if speed == 1 then 4800 else if speed == 2 then 9600
    else if speed == 4 then 38400 else if speed == 5 then 115200 else 19200
  }

  /** The gap is the time of three characters of eleven bits at the configured
      speed, in whole milliseconds, and at least two. */
  lemma GapIsThreeCharacters(speed: byte)
    ensures GapMs(speed) == var chars := (33000 + Baud(speed) - 1) / Baud(speed); if chars < 2 then 2 else chars
  {
  }

  // --- The receiver as a byte queue ---

  /** The bytes received and not yet drained, how many of them the last poll
      that saw movement had seen, and when that was. */
  datatype Queue = Queue(pending: seq<byte>, seen: nat, since: u32)

  function Arrived(q: Queue, b: byte): Queue { q.(pending := q.pending + [b]) }

  predicate Ends(q: Queue, now: u32, gap: nat) {
    q.seen == |q.pending| && q.pending != [] && Elapsed(now, q.since) >= gap
  }

  /** One poll: movement restarts the gap; a gap ends the frame, which is
      delivered whole or, when it does not fit, dropped whole. */
  function Polled(q: Queue, now: u32, gap: nat, max: nat): (Queue, seq<byte>) {
    if q.seen != |q.pending| then (q.(seen := |q.pending|, since := now), [])
    else if Ends(q, now, gap) then (q.(pending := [], seen := 0), if |q.pending| <= max then q.pending else [])
    else (q, [])
  }

  /** A transmission discards what is pending when it ends. */
  function Flushed(now: u32): Queue { Queue([], 0, now) }

  // --- Whole runs ---

  datatype Event = Arrive(b: byte) | Poll(at: nat) | Sent(at: nat)

  /** What leaves the queue: a frame delivered, a run too long for the caller,
      or what a transmission discards. */
  datatype Block = Frame(bytes: seq<byte>) | Oversize(bytes: seq<byte>) | Discarded(bytes: seq<byte>)

  /** The queue with its history: everything received, the blocks drained so
      far, when movement was last noticed, and how much has arrived since. */
  datatype History = History(q: Queue, all: seq<byte>, blocks: seq<Block>, movedAt: nat, later: nat)

  function Next(h: History, e: Event, gap: nat, max: nat): History {
    match e
    case Arrive(b) => h.(q := Arrived(h.q, b), all := h.all + [b], later := h.later + 1)
    case Poll(at) =>
      var (q, out) := Polled(h.q, Tick(at), gap, max);
      if h.q.seen != |h.q.pending| then h.(q := q, movedAt := at, later := 0)
      else if out != [] then h.(q := q, blocks := h.blocks + [Frame(out)])
      else if q != h.q then h.(q := q, blocks := h.blocks + [Oversize(h.q.pending)])
      else h
    case Sent(at) => h.(q := Flushed(Tick(at)), blocks := h.blocks + [Discarded(h.q.pending)], movedAt := at,
      later := 0)
  }

  function After(h: History, es: seq<Event>, gap: nat, max: nat): History {
    if es == [] then h else Next(After(h, es[..|es| - 1], gap, max), es[|es| - 1], gap, max)
  }

  function Flat(bs: seq<Block>): seq<byte> {
    if bs == [] then [] else Flat(bs[..|bs| - 1]) + bs[|bs| - 1].bytes
  }

  /** Every received byte is in exactly one drained block or still pending, in
      order; frames fit and are not empty, oversize runs do not fit. */
  ghost predicate Inv(h: History, max: nat) {
    && h.all == Flat(h.blocks) + h.q.pending
    && (forall i :: 0 <= i < |h.blocks| ==> Fits(h.blocks[i], max))
    && |h.q.pending| == h.q.seen + h.later
    && h.q.since == Tick(h.movedAt)
  }

  predicate Fits(b: Block, max: nat) {
    (b.Frame? ==> 0 < |b.bytes| <= max) && (b.Oversize? ==> |b.bytes| > max)
  }

  function Start(at: nat): History { History(Flushed(Tick(at)), [], [], at, 0) }

  lemma FlatOneMore(bs: seq<Block>, b: Block)
    ensures Flat(bs + [b]) == Flat(bs) + b.bytes
  {
    assert (bs + [b])[..|bs|] == bs;
  }

  /** A block leaves with everything pending. */
  lemma BlockLeaves(h: History, b: Block, h': History, max: nat)
    requires Inv(h, max) && Fits(b, max) && b.bytes == h.q.pending
    requires h' == h.(q := h'.q, blocks := h.blocks + [b], movedAt := h'.movedAt, later := 0)
    requires h'.q.pending == [] && h'.q.seen == 0 && h'.q.since == Tick(h'.movedAt)
    ensures Inv(h', max)
  {
    FlatOneMore(h.blocks, b);
    assert h'.all == Flat(h'.blocks) + h'.q.pending;
    hide Flat, Tick, Fits;
  }

  lemma InvStep(h: History, e: Event, gap: nat, max: nat)
    requires Inv(h, max)
    ensures Inv(Next(h, e, gap, max), max)
  {
    hide Flat, Tick, Elapsed;
    var h' := Next(h, e, gap, max);
    match e {
      case Arrive(b) =>
        assert h.all + [b] == Flat(h.blocks) + (h.q.pending + [b]);
      case Poll(at) =>
        if h.q.seen == |h.q.pending| && Ends(h.q, Tick(at), gap) {
          BlockLeaves(h, if |h.q.pending| <= max then Frame(h.q.pending) else Oversize(h.q.pending), h', max);
        }
      case Sent(at) =>
        BlockLeaves(h, Discarded(h.q.pending), h', max);
    }
  }

  /** Nothing received is lost, duplicated, reordered or split. */
  lemma {:induction false} NothingLost(at: nat, es: seq<Event>, gap: nat, max: nat)
    ensures Inv(After(Start(at), es, gap, max), max)
  {
    if es != [] {
      NothingLost(at, es[..|es| - 1], gap, max);
      InvStep(After(Start(at), es[..|es| - 1], gap, max), es[|es| - 1], gap, max);
      hide Next;
    }
  }

  /** A poll ends a frame exactly when bytes are pending, none has arrived
      since a poll (or a transmission), and that was at least the gap ago. */
  lemma EndsExactlyAfterStillness(h: History, at: nat, gap: nat, max: nat)
    requires Inv(h, max) && h.movedAt <= at < h.movedAt + WRAP
    ensures var h' := Next(h, Poll(at), gap, max);
      && (h'.blocks != h.blocks <==> h.q.pending != [] && h.later == 0 && at - h.movedAt >= gap)
      && (h'.blocks != h.blocks ==>
            (h'.q.pending == [] && h'.blocks == h.blocks
              + [if |h.q.pending| <= max then Frame(h.q.pending) else Oversize(h.q.pending)]))
  {
    ElapsedIsReal(at, h.movedAt);
  }

  function Arrivals(f: seq<byte>): (es: seq<Event>)
    ensures |es| == |f|
  {
    seq(|f|, i requires 0 <= i < |f| => Arrive(f[i]))
  }

  lemma {:induction false} AfterArrivals(h: History, f: seq<byte>, gap: nat, max: nat)
    ensures After(h, Arrivals(f), gap, max) ==
      h.(q := h.q.(pending := h.q.pending + f), all := h.all + f, later := h.later + |f|)
    decreases |f|
  {
    if f == [] {
      assert h.q.pending + f == h.q.pending && h.all + f == h.all;
    } else {
      var front := f[..|f| - 1];
      AfterArrivals(h, front, gap, max);
      assert Arrivals(f)[..|f| - 1] == Arrivals(front);
      assert h.q.pending + front + [f[|f| - 1]] == h.q.pending + f && h.all + front + [f[|f| - 1]] == h.all + f;
    }
  }

  /** A burst on an idle line comes out whole, as one frame, at the first poll
      a gap after the poll that noticed it. */
  lemma BurstIsOneFrame(h: History, f: seq<byte>, t1: nat, t2: nat, gap: nat, max: nat)
    requires Inv(h, max) && h.q.pending == [] && 0 < |f| <= max && t1 + gap <= t2 < t1 + WRAP
    ensures var h' := Next(Next(After(h, Arrivals(f), gap, max), Poll(t1), gap, max), Poll(t2), gap, max);
      h'.blocks == h.blocks + [Frame(f)] && h'.q.pending == []
  {
    AfterArrivals(h, f, gap, max);
    assert h.q.pending + f == f;
    ElapsedIsReal(t2, t1);
  }

  // --- The ring ---

  lemma SlotsApart(i: nat, j: nat)
    requires i < j < i + SIZE
    ensures i % SIZE != j % SIZE
  {
    assert j - i == SIZE * (j / SIZE - i / SIZE) + (j % SIZE - i % SIZE);
  }

  lemma NextSlot(i: nat)
    ensures (i % SIZE + 1) % SIZE == (i + 1) % SIZE
  {
  }

  /** The DMA buffer with its write position, and the reader's two indices.
      `all`, `tailAt` and `seenAt` are positions in everything ever received. */
  class Ring {
    const dma: array<byte>
    var head: nat
    var tail: nat
    var prevHead: nat
    var lastRx: u32
    var gap: nat
    ghost var all: seq<byte>
    ghost var tailAt: nat
    ghost var seenAt: nat

    /** While less than one turn is outstanding the buffer holds it. */
    ghost predicate Valid()
      reads this, dma
    {
      && dma.Length == SIZE
      && tailAt <= seenAt <= |all| < tailAt + SIZE
      && head == |all| % SIZE && tail == tailAt % SIZE && prevHead == seenAt % SIZE
      && forall j :: tailAt <= j < |all| ==> dma[j % SIZE] == all[j]
    }

    ghost function Now(): Queue
      requires Valid()
      reads this, dma
    {
      Queue(all[tailAt..], seenAt - tailAt, lastRx)
    }

    /** usart6_mb_open. */
    constructor (speed: byte, now: u32)
      ensures Valid() && Now() == Flushed(now) && gap == GapMs(speed) && fresh(dma)
    {
      dma := new byte[SIZE](i => 0);
      head := 0;
      tail := 0;
      prevHead := 0;
      lastRx := now;
      gap := GapMs(speed);
      all := [];
      tailAt := 0;
      seenAt := 0;
    }

    /** The DMA controller stores a byte and moves on, wrapping. */
    method Store(b: byte)
      requires Valid() && |Now().pending| + 1 < SIZE
      modifies this`head, this`all, dma
      ensures Valid() && Now() == Arrived(old(Now()), b)
    {
      ghost var n := |all|;
      forall j | tailAt <= j < n
        ensures j % SIZE != n % SIZE
      {
        SlotsApart(j, n);
      }
      dma[head] := b;
      NextSlot(n);
      head := (head + 1) % SIZE;
      all := all + [b];
      assert all[tailAt..] == old(all[tailAt..]) + [b];
    }

    /** usart6_mb_rx_frame on an open port: 0, or a frame of `n` bytes. */
    method ReceiveFrame(now: u32, buf: array<byte>) returns (n: nat)
      requires Valid() && buf != dma
      modifies this`tail, this`prevHead, this`lastRx, this`tailAt, this`seenAt, buf
      ensures Valid() && n <= buf.Length && gap == old(gap)
      ensures (Now(), buf[..n]) == Polled(old(Now()), now, gap, buf.Length)
    {
      var h := head;
      if seenAt < |all| {
        SlotsApart(seenAt, |all|);
      }
      if tailAt < |all| {
        SlotsApart(tailAt, |all|);
      }
      if h != prevHead {
        prevHead := h;
        lastRx := now;
        seenAt := |all|;
        return 0;
      }
      if h == tail {
        return 0;
      }
      if Elapsed(now, lastRx) < gap {
        return 0;
      }
      n := Drain(buf);
      if n > buf.Length {
        n := 0;
      }
    }

    /** Empty the ring; bytes that do not fit are counted but not kept. */
    method Drain(buf: array<byte>) returns (n: nat)
      requires Valid() && buf != dma && seenAt == |all|
      modifies this`tail, this`tailAt, this`seenAt, buf
      ensures Valid() && Now() == old(Now()).(pending := [], seen := 0)
      ensures n == |old(Now()).pending| && (n <= buf.Length ==> buf[..n] == old(Now()).pending)
    {
      ghost var p, base := Now().pending, tailAt;
      n := 0;
      while tail != head
        invariant Valid() && seenAt == |all| && n <= |p| && tailAt == base + n
        invariant p == all[base..]
        invariant forall k :: 0 <= k < n && k < buf.Length ==> buf[k] == p[k]
        decreases |p| - n
      {
        if tailAt == |all| {
          assert false;
        }
        var b := dma[tail];
        NextSlot(tailAt);
        tail := (tail + 1) % SIZE;
        tailAt := tailAt + 1;
        if n < buf.Length {
          buf[n] := b;
        }
        n := n + 1;
      }
      if tailAt < |all| {
        SlotsApart(tailAt, |all|);
      }
      assert all[tailAt..] == [];
    }

    /** The end of usart6_mb_send: whatever is pending is discarded. */
    method Flush(now: u32)
      requires Valid()
      modifies this`tail, this`prevHead, this`lastRx, this`tailAt, this`seenAt
      ensures Valid() && Now() == Flushed(now)
    {
      tail := head;
      prevHead := tail;
      lastRx := now;
      tailAt := |all|;
      seenAt := |all|;
    }
  }
}
