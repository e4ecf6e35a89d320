/** The Modbus CRC-16 (MODBUS over Serial Line V1.02, section 2.5.1.2): the
    shift register of mb_crc16, its algebra, and the errors it detects. */
module Crc16 {
  import opened Words

  /** The 16-bit shift register, least significant bit first. */
  type Reg = c: seq<bool> | |c| == 16 witness [
    false, false, false, false, false, false, false, false, false, false, false, false, false, false, false, false]

  function Zero(): Reg { seq(16, i => false) }

  function Seed(): Reg { seq(16, i => true) }

  /** The feedback positions of 0xA001. */
  predicate Tap(i: int) { i == 0 || i == 13 || i == 15 }

  function XorReg(c: Reg, d: Reg): Reg { seq(16, i requires 0 <= i < 16 => c[i] != d[i]) }

  /** One bit step: shift right, and feed 0xA001 back when a one falls out. */
  function Shift(c: Reg): Reg {
    seq(16, i requires 0 <= i < 16 => (i < 15 && c[i + 1]) != (c[0] && Tap(i)))
  }

  function Shifts(c: Reg, n: nat): Reg
    decreases n
  {
    if n == 0 then c else Shifts(Shift(c), n - 1)
  }

  function Step(c: Reg, bit: bool): Reg { Shift(c[0 := c[0] != bit]) }

  /** The register after a stream of bits, starting from `c`. */
  function Run(c: Reg, m: seq<bool>): Reg
    decreases |m|
  {
    if m == [] then c else Run(Step(c, m[0]), m[1..])
  }

  /** The register of a message. */
  function Check(s: seq<byte>): Reg { Run(Seed(), LineBits(s)) }

  /** A frame whose last two bytes are, bit by bit on the line, the register
      of the bytes before them. */
  predicate Sealed(frame: seq<byte>) {
    |frame| >= 2 && LineBits(frame[|frame| - 2..]) == Check(frame[..|frame| - 2])
  }

  // --- The register step is linear over XOR and loses no information ---

  lemma StepLinear(c: Reg, d: Reg, x: bool, y: bool)
    ensures Step(XorReg(c, d), x != y) == XorReg(Step(c, x), Step(d, y))
  {
  }

  lemma ShiftInjective(c: Reg, d: Reg)
    requires Shift(c) == Shift(d)
    ensures c == d
  {
    assert Shift(c)[15] == c[0] && Shift(d)[15] == d[0];
    forall i | 0 <= i < 16
      ensures c[i] == d[i]
    {
      if i > 0 {
        assert Shift(c)[i - 1] == (c[i] != (c[0] && Tap(i - 1)));
        assert Shift(d)[i - 1] == (d[i] != (d[0] && Tap(i - 1)));
      }
    }
  }

  lemma {:induction false} ShiftsInjective(c: Reg, d: Reg, n: nat)
    requires Shifts(c, n) == Shifts(d, n)
    ensures c == d
    decreases n
  {
    if n > 0 {
      ShiftsInjective(Shift(c), Shift(d), n - 1);
      ShiftInjective(c, d);
    }
  }

  lemma {:induction false} ShiftsOfZero(n: nat)
    ensures Shifts(Zero(), n) == Zero()
    decreases n
  {
    if n > 0 {
      assert Shift(Zero()) == Zero();
      ShiftsOfZero(n - 1);
    }
  }

  lemma {:induction false} RunAppend(c: Reg, s: seq<bool>, t: seq<bool>)
    ensures Run(c, s + t) == Run(Run(c, s), t)
    decreases |s|
  {
    if s == [] {
      assert s + t == t;
    } else {
      assert (s + t)[1..] == s[1..] + t;
      RunAppend(Step(c, s[0]), s[1..], t);
    }
  }

  /** The register with a message of at most 16 bits added to it. */
  function Load(c: Reg, m: seq<bool>): Reg
    requires |m| <= 16
  {
    seq(16, i requires 0 <= i < 16 => c[i] != (i < |m| && m[i]))
  }

  /** Up to 16 bits may be loaded at once and shifted through afterwards. */
  lemma {:induction false} RunIsLoadAndShift(c: Reg, m: seq<bool>)
    requires |m| <= 16
    ensures Run(c, m) == Shifts(Load(c, m), |m|)
    decreases |m|
  {
    if m == [] {
      assert Load(c, m) == c;
    } else {
      RunIsLoadAndShift(Step(c, m[0]), m[1..]);
      LoadThenShift(c, m);
    }
  }

  lemma LoadThenShift(c: Reg, m: seq<bool>)
    requires 1 <= |m| <= 16
    ensures Load(Step(c, m[0]), m[1..]) == Shift(Load(c, m))
  {
    var l, r := Load(Step(c, m[0]), m[1..]), Shift(Load(c, m));
    forall i | 0 <= i < 16
      ensures l[i] == r[i]
    {
      if i < 15 {
        assert Load(c, m)[i + 1] == (c[i + 1] != (i + 1 < |m| && m[i + 1]));
      }
    }
  }

  // --- mb_crc16 computes the register ---

  /** A 16-bit word as a register. */
  function Bits16(w: u16): Reg { seq(16, i requires 0 <= i < 16 => Bit(w, i)) }

  function WordShifted(w: u16): nat { if w % 2 != 0 then Xor(w / 2, 0xA001) else w / 2 }

  lemma WordShift(w: u16)
    ensures WordShifted(w) < 0x1_0000 && Bits16(WordShifted(w)) == Shift(Bits16(w))
  {
    var r := WordShifted(w);
    Pow2Values();
    XorBound(w / 2, 0xA001, 16);
    forall i | 0 <= i < 16
      ensures Bits16(r)[i] == Shift(Bits16(w))[i]
    {
      assert Bit(w, i + 1) <==> Bit(w / 2, i);
      BitXor(w / 2, 0xA001, i);
      FeedbackBits(i);
      if i == 15 {
        BitBeyondWord(w);
      }
    }
  }

  lemma BitBeyondWord(w: u16)
    ensures !Bit(w, 16)
  {
    BitAboveByte(w, 8);
    BitAboveByte(w / 0x100, 0);
  }

  lemma FeedbackBits(i: nat)
    requires i < 16
    ensures Bit(0xA001, i) <==> Tap(i)
  {
    Pow2Values();
    if i < 8 {
      BitBelow(1, 0xA0, 8, i);
      if i > 0 {
        BitOfZero(i - 1);
      }
    } else {
      BitAboveByte(0xA001, i - 8);
      FeedbackHighBits(i - 8);
    }
  }

  lemma FeedbackHighBits(i: nat)
    requires i < 8
    ensures Bit(0xA0, i) <==> i == 5 || i == 7
  {
    if i < 5 {
      assert Pow2(5) == 32;
      BitBelow(0, 5, 5, i);
      BitOfZero(i);
    } else {
      assert Bit(0xA0, i) == Bit(0x50, i - 1) == Bit(0x28, i - 2);
      assert Bit(0x28, i - 2) == Bit(0x14, i - 3) == Bit(0x0A, i - 4) == Bit(0x05, i - 5);
    }
  }

  lemma WordLoad(w: u16, b: byte)
    ensures Xor(w, b) < 0x1_0000 && Bits16(Xor(w, b)) == Load(Bits16(w), ByteBits(b))
  {
    Pow2Values();
    XorBound(w, b, 16);
    var l, r := Bits16(Xor(w, b)), Load(Bits16(w), ByteBits(b));
    forall i | 0 <= i < 16
      ensures l[i] == r[i]
    {
      BitXor(w, b, i);
      if i >= 8 {
        BitAboveByte(b, i - 8);
        BitOfZero(i - 8);
      }
    }
  }

  /** The inner loop of mb_crc16: eight bit steps. */
  method ShiftByte(loaded: u16) returns (crc: u16)
    ensures Bits16(crc) == Shifts(Bits16(loaded), 8)
  {
    hide Bits16, Xor, Shift;
    crc := loaded;
    var j := 8;
    while j != 0
      invariant 0 <= j <= 8
      invariant Shifts(Bits16(crc), j) == Shifts(Bits16(loaded), 8)
    {
      WordShift(crc);
      if crc % 2 != 0 {
        crc := Xor(crc / 2, 0xA001);
      } else {
        crc := crc / 2;
      }
      j := j - 1;
    }
  }

  /** The loops of mb_crc16 leave the register of the whole buffer and return
      it byte-swapped: the high byte of the result goes first on the line, the
      low byte second. */
  method Compute(buf: seq<byte>) returns (crc: u16)
    ensures LineBits([Hi(crc), Lo(crc)]) == Check(buf)
  {
    crc := 0xFFFF;
    AllOnes();
    for i := 0 to |buf|
      invariant Run(Bits16(crc), LineBits(buf[i..])) == Check(buf)
    {
      ghost var before := Bits16(crc);
      WordLoad(crc, buf[i]);
      crc := Xor(crc, buf[i]);
      crc := ShiftByte(crc);
      ByteDone(before, Bits16(crc), buf, i);
    }
    WordLine(crc);
    SplitJoin(Lo(crc), Hi(crc));
    crc := Join(Lo(crc), Hi(crc));
  }

  lemma ByteDone(before: Reg, after: Reg, buf: seq<byte>, i: nat)
    requires i < |buf| && after == Shifts(Load(before, ByteBits(buf[i])), 8)
    ensures Run(after, LineBits(buf[i + 1..])) == Run(before, LineBits(buf[i..]))
  {
    RunIsLoadAndShift(before, ByteBits(buf[i]));
    assert buf[i..][1..] == buf[i + 1..];
    RunAppend(before, ByteBits(buf[i]), LineBits(buf[i + 1..]));
  }

  lemma AllOnes()
    ensures Bits16(0xFFFF) == Seed()
  {
    forall i | 0 <= i < 16
      ensures Bit(0xFFFF, i)
    {
      AllOnesBit(16, i);
    }
  }

  lemma {:induction false} AllOnesBit(n: nat, i: nat)
    requires i < n
    ensures Bit(Pow2(n) - 1, i)
    ensures n == 16 ==> Bit(0xFFFF, i)
    decreases n
  {
    Pow2Values();
    if i > 0 {
      assert (Pow2(n) - 1) / 2 == Pow2(n - 1) - 1;
      AllOnesBit(n - 1, i - 1);
    }
  }

  /** Low byte first, then high byte, puts the register itself on the line. */
  lemma WordLine(w: u16)
    ensures LineBits([Lo(w), Hi(w)]) == Bits16(w)
  {
    Pow2Values();
    var l := LineBits([Lo(w), Hi(w)]);
    assert [Lo(w), Hi(w)][1..] == [Hi(w)] && [Hi(w)][1..] == [];
    assert LineBits([Hi(w)]) == ByteBits(Hi(w));
    forall i | 0 <= i < 16
      ensures l[i] == Bit(w, i)
    {
      if i < 8 {
        BitBelow(Lo(w), Hi(w), 8, i);
      } else {
        BitAboveByte(w, i - 8);
      }
    }
  }

  // --- A frame is sealed exactly when its whole register is zero ---

  /** Feeding a frame its own check bytes empties the register, and no other
      two bytes do. */
  lemma SealedIffZeroResidue(frame: seq<byte>)
    requires |frame| >= 2
    ensures Sealed(frame) <==> Check(frame) == Zero()
  {
    var n := |frame| - 2;
    var body, tail := frame[..n], frame[n..];
    assert frame == body + tail;
    LineBitsAppend(body, tail);
    RunAppend(Seed(), LineBits(body), LineBits(tail));
    var c, m := Check(body), LineBits(tail);
    RunIsLoadAndShift(c, m);
    ShiftsOfZero(16);
    if Check(frame) == Zero() {
      ShiftsInjective(Load(c, m), Zero(), 16);
    }
    LoadCancels(c, m);
  }

  lemma LoadCancels(c: Reg, m: seq<bool>)
    requires |m| == 16
    ensures Load(c, m) == Zero() <==> m == c
  {
    if Load(c, m) == Zero() {
      forall i | 0 <= i < 16
        ensures m[i] == c[i]
      {
        assert Load(c, m)[i] == Zero()[i];
      }
    }
  }

  // --- Detected errors ---

  /** The positions where two messages of one length differ. */
  function Difference(f: seq<bool>, g: seq<bool>): (e: seq<bool>)
    requires |f| == |g|
    ensures |e| == |f|
  {
    seq(|f|, i requires 0 <= i < |f| => f[i] != g[i])
  }

  /** Two messages of one length: their registers differ by the register of
      the difference, started from the difference. */
  lemma {:induction false} RunDifference(c: Reg, f: seq<bool>, d: Reg, g: seq<bool>)
    requires |f| == |g|
    ensures XorReg(Run(c, f), Run(d, g)) == Run(XorReg(c, d), Difference(f, g))
    decreases |f|
  {
    if f != [] {
      RunDifference(Step(c, f[0]), f[1..], Step(d, g[0]), g[1..]);
      assert Difference(f, g)[1..] == Difference(f[1..], g[1..]);
      StepLinear(c, d, f[0], g[0]);
    }
  }

  lemma XorIsZero(c: Reg, d: Reg)
    ensures XorReg(c, d) == Zero() <==> c == d
  {
    if XorReg(c, d) == Zero() {
      forall i | 0 <= i < 16
        ensures c[i] == d[i]
      {
        assert XorReg(c, d)[i] == Zero()[i];
      }
    }
  }

  /** Changing a sealed frame leaves it sealed exactly when the register of
      the difference alone is zero. */
  lemma UndetectedIff(f: seq<byte>, g: seq<byte>)
    requires Sealed(f) && |g| == |f|
    ensures Sealed(g) <==> Run(Zero(), Difference(LineBits(f), LineBits(g))) == Zero()
  {
    SealedIffZeroResidue(f);
    SealedIffZeroResidue(g);
    RunDifference(Seed(), LineBits(f), Seed(), LineBits(g));
    XorIsZero(Seed(), Seed());
    XorIsZero(Check(f), Check(g));
  }

  lemma StepOfZeros(c: Reg)
    ensures Step(c, false) == Shift(c)
    ensures Step(Zero(), false) == Zero()
  {
    assert c[0 := c[0] != false] == c;
    assert Shift(Zero()) == Zero();
  }

  lemma {:induction false} Silence(c: Reg, m: seq<bool>)
    requires forall i :: 0 <= i < |m| ==> !m[i]
    ensures Run(c, m) == Zero() <==> c == Zero()
    decreases |m|
  {
    if m != [] {
      StepOfZeros(c);
      Silence(Shift(c), m[1..]);
      if Shift(c) == Zero() {
        assert Shift(c) == Shift(Zero());
        ShiftInjective(c, Zero());
      }
    }
  }

  /** All differing bits lie within 16 consecutive positions of the line,
      starting at `k`, and there is at least one. */
  predicate Burst(e: seq<bool>, k: nat) {
    && k + 16 <= |e|
    && (forall i :: 0 <= i < |e| && !(k <= i < k + 16) ==> !e[i])
    && (exists i :: k <= i < k + 16 && e[i])
  }

  lemma BurstLeavesTrace(e: seq<bool>, k: nat)
    requires Burst(e, k)
    ensures Run(Zero(), e) != Zero()
  {
    var pre, mid, post := e[..k], e[k..k + 16], e[k + 16..];
    assert e == pre + (mid + post);
    RunAppend(Zero(), pre, mid + post);
    RunAppend(Zero(), mid, post);
    Silence(Zero(), pre);
    RunIsLoadAndShift(Zero(), mid);
    var i :| k <= i < k + 16 && e[i];
    assert Load(Zero(), mid)[i - k] != Zero()[i - k];
    ShiftsOfZero(16);
    if Run(Zero(), mid) == Zero() {
      ShiftsInjective(Load(Zero(), mid), Zero(), 16);
    }
    Silence(Run(Zero(), mid), post);
  }

  /** Every burst of at most 16 bits turns a sealed frame into an unsealed
      one, wherever it falls, check bytes included. */
  lemma BurstDetected(f: seq<byte>, g: seq<byte>, k: nat)
    requires Sealed(f) && |g| == |f|
    requires Burst(Difference(LineBits(f), LineBits(g)), k)
    ensures !Sealed(g)
  {
    UndetectedIff(f, g);
    BurstLeavesTrace(Difference(LineBits(f), LineBits(g)), k);
  }

  /** Changing one byte, or two adjacent bytes, is such a burst. */
  lemma TwoByteErrorDetected(f: seq<byte>, g: seq<byte>, i: nat)
    requires Sealed(f) && |g| == |f| && f != g && i + 2 <= |f|
    requires forall k :: 0 <= k < |f| && k != i && k != i + 1 ==> f[k] == g[k]
    ensures !Sealed(g)
  {
    var pre, post := f[..i], f[i + 2..];
    assert f == pre + (f[i..i + 2] + post) && g == pre + (g[i..i + 2] + post);
    LineBitsAppend(pre, f[i..i + 2] + post);
    LineBitsAppend(f[i..i + 2], post);
    LineBitsAppend(pre, g[i..i + 2] + post);
    LineBitsAppend(g[i..i + 2], post);
    PairBitsDiffer(f[i..i + 2], g[i..i + 2]);
    PairIsBurst(LineBits(pre), LineBits(f[i..i + 2]), LineBits(g[i..i + 2]), LineBits(post));
    BurstDetected(f, g, 8 * i);
  }

  lemma PairBitsDiffer(p: seq<byte>, q: seq<byte>)
    requires |p| == |q| == 2 && p != q
    ensures |LineBits(p)| == |LineBits(q)| == 16 && LineBits(p) != LineBits(q)
  {
    assert p[1..][1..] == [] && q[1..][1..] == [];
    assert LineBits(p) == ByteBits(p[0]) + ByteBits(p[1]);
    assert LineBits(q) == ByteBits(q[0]) + ByteBits(q[1]);
    if LineBits(p) == LineBits(q) {
      assert ByteBits(p[0]) == LineBits(p)[..8] == ByteBits(q[0]);
      assert ByteBits(p[1]) == LineBits(p)[8..] == ByteBits(q[1]);
      ByteBitsInjective(p[0], q[0]);
      ByteBitsInjective(p[1], q[1]);
    }
  }

  lemma PairIsBurst(pre: seq<bool>, p: seq<bool>, q: seq<bool>, post: seq<bool>)
    requires |p| == |q| == 16 && p != q
    ensures Burst(Difference(pre + (p + post), pre + (q + post)), |pre|)
  {
    var e := Difference(pre + (p + post), pre + (q + post));
    var i :| 0 <= i < 16 && p[i] != q[i];
    assert e[|pre| + i];
  }

  // --- An odd number of flipped bits is always detected ---

  /** The number of set bits. */
  function Ones(m: seq<bool>): nat {
    if m == [] then 0 else (if m[0] then 1 else 0) + Ones(m[1..])
  }

  lemma {:induction false} OnesXor(a: seq<bool>, b: seq<bool>)
    requires |a| == |b|
    ensures Ones(Difference(a, b)) % 2 == (Ones(a) + Ones(b)) % 2
  {
    if a != [] {
      assert Difference(a, b)[1..] == Difference(a[1..], b[1..]);
      OnesXor(a[1..], b[1..]);
    }
  }

  lemma {:induction false} OnesAppendZero(a: seq<bool>)
    ensures Ones(a + [false]) == Ones(a)
  {
    if a == [] {
      assert a + [false] == [false];
    } else {
      assert (a + [false])[1..] == a[1..] + [false];
      OnesAppendZero(a[1..]);
    }
  }

  function Feedback(): Reg { seq(16, i => Tap(i)) }

  lemma FeedbackIsOdd()
    ensures Ones(Feedback()) == 3
  {
    NoOnes();
    FeedbackTaps();
    hide Ones, Feedback;
    var f := Feedback();
    assert f[0..] == f && f[16..] == [];
    OnesFrom(f, 0);
    OnesSkipZeros(f, 1, 13);
    OnesFrom(f, 13);
    OnesFrom(f, 14);
    OnesFrom(f, 15);
  }

  lemma NoOnes()
    ensures Ones([]) == 0
  {
  }

  lemma FeedbackTaps()
    ensures
      var f := Feedback();
      f[0] && f[13] && !f[14] && f[15] && forall k :: 1 <= k < 13 ==> !f[k]
  {
  }

  lemma OnesFrom(m: seq<bool>, i: nat)
    requires i < |m|
    ensures Ones(m[i..]) == (if m[i] then 1 else 0) + Ones(m[i + 1..])
  {
    assert m[i..][1..] == m[i + 1..];
  }

  lemma {:induction false} OnesSkipZeros(m: seq<bool>, i: nat, j: nat)
    requires i <= j <= |m|
    requires forall k :: i <= k < j ==> !m[k]
    ensures Ones(m[i..]) == Ones(m[j..])
    decreases j - i
  {
    if i < j {
      assert m[i..][1..] == m[i + 1..];
      OnesSkipZeros(m, i + 1, j);
    }
  }

  /** The feedback word has three bits, one of them for the one that falls out,
      so a shift keeps the parity. */
  lemma ShiftParity(d: Reg)
    ensures Ones(Shift(d)) % 2 == Ones(d) % 2
  {
    hide Shift, Tap, Feedback;
    var s := d[1..] + [false];
    OnesAppendZero(d[1..]);
    ShiftIs(d, s);
    if d[0] {
      OnesXor(s, Feedback());
      FeedbackIsOdd();
    }
  }

  lemma ShiftIs(d: Reg, s: Reg)
    requires s == d[1..] + [false]
    ensures Shift(d) == if d[0] then Difference(s, Feedback()) else s
  {
  }

  /** A step flips the parity of the register exactly when the bit fed in is
      one. */
  lemma StepParity(c: Reg, bit: bool)
    ensures Ones(Step(c, bit)) % 2 == (Ones(c) + (if bit then 1 else 0)) % 2
  {
    var d := c[0 := c[0] != bit];
    assert d[1..] == c[1..];
    ShiftParity(d);
    hide Shift;
  }

  lemma {:induction false} RunParity(c: Reg, m: seq<bool>)
    ensures Ones(Run(c, m)) % 2 == (Ones(c) + Ones(m)) % 2
    decreases |m|
  {
    if m != [] {
      StepParity(c, m[0]);
      RunParity(Step(c, m[0]), m[1..]);
    }
  }

  lemma OnesOfZero()
    ensures Ones(Zero()) == 0
  {
    var z := Zero();
    OnesSkipZeros(z, 0, 16);
    assert z[0..] == z && z[16..] == [];
  }

  /** Flipping an odd number of bits anywhere in a sealed frame unseals it. */
  lemma OddFlipsDetected(f: seq<byte>, g: seq<byte>)
    requires Sealed(f) && |g| == |f|
    requires Ones(Difference(LineBits(f), LineBits(g))) % 2 == 1
    ensures !Sealed(g)
  {
    UndetectedIff(f, g);
    OddLeavesTrace(Difference(LineBits(f), LineBits(g)));
  }

  lemma OddLeavesTrace(e: seq<bool>)
    requires Ones(e) % 2 == 1
    ensures Run(Zero(), e) != Zero()
  {
    RunParity(Zero(), e);
    OnesOfZero();
  }

  // --- A known frame ---

  /** Eight steps of the shift register, every value it passes through named. */
  predicate Chain(ws: seq<u16>) {
    |ws| == 9 && forall i :: 0 <= i < 8 ==> WordShifted(ws[i]) == ws[i + 1]
  }

  lemma {:induction false} ChainShifts(ws: seq<u16>, k: nat)
    requires Chain(ws) && k <= 8
    ensures Shifts(Bits16(ws[8 - k]), k) == Bits16(ws[8])
    decreases k
  {
    hide WordShifted, Bits16, Shift;
    if k > 0 {
      WordShift(ws[8 - k]);
      ChainShifts(ws, k - 1);
    }
  }

  lemma ByteByChain(w: u16, b: byte, ws: seq<u16>)
    requires Chain(ws) && Xor(w, b) == ws[0]
    ensures Run(Bits16(w), ByteBits(b)) == Bits16(ws[8])
  {
    hide Chain, Bits16, Xor, Shifts;
    WordLoad(w, b);
    RunIsLoadAndShift(Bits16(w), ByteBits(b));
    ChainShifts(ws, 8);
  }

  /** Xor works on the low bits and the high bits apart. */
  lemma {:induction false} XorSplit(a: nat, b: nat, x: nat, y: nat, n: nat)
    requires a < Pow2(n) && b < Pow2(n)
    ensures Xor(a + x * Pow2(n), b + y * Pow2(n)) == Xor(a, b) + Xor(x, y) * Pow2(n)
    decreases n
  {
    hide Xor, Pow2;
    Doubles(n);
    if n == 0 {
      XorOfZero();
    } else {
      var p := Pow2(n - 1);
      var s, t := a + x * (2 * p), b + y * (2 * p);
      Halved(a, x, p, s);
      Halved(b, y, p, t);
      XorSplit(a / 2, b / 2, x, y, n - 1);
      SplitOnce(a, b, x, y, p, s, t);
    }
  }

  lemma Doubles(n: nat)
    ensures Pow2(n) == if n == 0 then 1 else 2 * Pow2(n - 1)
  {
  }

  lemma SplitOnce(a: nat, b: nat, x: nat, y: nat, p: nat, s: nat, t: nat)
    requires s == a + x * (2 * p) && t == b + y * (2 * p) && s / 2 == a / 2 + x * p && t / 2 == b / 2 + y * p
    requires Xor(s / 2, t / 2) == Xor(a / 2, b / 2) + Xor(x, y) * p
    ensures Xor(s, t) == Xor(a, b) + Xor(x, y) * (2 * p)
  {
    hide Xor;
    Halved(a, x, p, s);
    Halved(b, y, p, t);
    XorParts(s, t);
    XorParts(a, b);
    SameParity(a, b, s, t);
    Rejoined(Xor(s, t), Xor(a, b), Xor(x, y), p);
  }

  lemma SameParity(a: nat, b: nat, s: nat, t: nat)
    requires s % 2 == a % 2 && t % 2 == b % 2
    ensures (s + t) % 2 == (a + b) % 2
  {
  }

  lemma XorOfZero()
    ensures Xor(0, 0) == 0
  {
  }

  lemma Halved(a: nat, x: nat, p: nat, s: nat)
    requires s == a + x * (2 * p)
    ensures s / 2 == a / 2 + x * p && s % 2 == a % 2
  {
    assert s == a + 2 * (x * p);
  }

  lemma Rejoined(r: nat, low: nat, high: nat, p: nat)
    requires r % 2 == low % 2 && r / 2 == low / 2 + high * p
    ensures r == low + high * (2 * p)
  {
    assert r == 2 * (low / 2 + high * p) + low % 2;
  }

  /** Feeding 0xA001 back touches the outer nibbles only. */
  lemma OuterNibbles(top: nat, mid: nat, low: nat)
    requires top < 16 && mid < 256 && low < 16
    ensures Xor(top * 0x1000 + mid * 0x10 + low, 0xA001) == Xor(top, 0xA) * 0x1000 + mid * 0x10 + Xor(low, 1)
  {
    assert Pow2(4) == 16;
    Pow2Values();
    XorSplit(low, 1, mid + top * 0x100, 0xA00, 4);
    XorSplit(mid, 0, top, 0xA, 8);
    assert 0xA00 == 0 + 0xA * 0x100 && 0xA001 == 1 + 0xA00 * 16;
  }

  lemma XorWithZero(v: nat)
    ensures Xor(v, 0) == v && Xor(0, v) == v
  {
  }

  /** The values of the outer nibbles. */
  lemma NibbleXor(low: nat, top: nat)
    requires low < 16 && top < 8
    ensures Xor(low, 1) == if low % 2 == 0 then low + 1 else low - 1
    ensures Xor(top, 0xA) == (if top / 2 % 2 == 0 then top + 10 else top + 6)
  {
    hide Xor;
    LowNibble(low);
    TopNibble(top);
  }

  lemma LowNibble(low: nat)
    ensures Xor(low, 1) == if low % 2 == 0 then low + 1 else low - 1
  {
    hide Xor;
    XorParts(low, 1);
    XorWithZero(low / 2);
  }

  lemma TopNibble(top: nat)
    requires top < 8
    ensures Xor(top, 0xA) == (if top / 2 % 2 == 0 then top + 10 else top + 6)
  {
    hide Xor;
    XorParts(top, 10);
    XorParts(top / 2, 5);
    XorParts(top / 4, 2);
    XorWithZero(1);
    assert top / 2 / 2 == top / 4 && top / 4 / 2 == 0;
  }

  lemma FeedbackValue(top: nat, mid: nat, low: nat)
    requires top < 8 && mid < 256 && low < 16
    ensures Xor(top * 0x1000 + mid * 0x10 + low, 0xA001) ==
      (if top / 2 % 2 == 0 then top + 10 else top + 6) * 0x1000 + mid * 0x10
        + if low % 2 == 0 then low + 1 else low - 1
  {
    hide Xor;
    OuterNibbles(top, mid, low);
    NibbleXor(low, top);
  }

  lemma FirstByteSteps()
    ensures WordShifted(0xFFFD) == 0xDFFF && WordShifted(0xDFFF) == 0xCFFE
    ensures WordShifted(0xCFFE) == 0x67FF && WordShifted(0x67FF) == 0x93FE
    ensures WordShifted(0x93FE) == 0x49FF && WordShifted(0x49FF) == 0x84FE
    ensures WordShifted(0x84FE) == 0x427F && WordShifted(0x427F) == 0x813E
  {
    hide Xor;
    FeedbackValue(0x7, 0xff, 0xe);
    FeedbackValue(0x6, 0xff, 0xf);
    FeedbackValue(0x3, 0x3f, 0xf);
    FeedbackValue(0x2, 0x4f, 0xf);
    FeedbackValue(0x2, 0x13, 0xf);
  }

  lemma FirstByte()
    ensures Chain([0xFFFD, 0xDFFF, 0xCFFE, 0x67FF, 0x93FE, 0x49FF, 0x84FE, 0x427F, 0x813E])
  {
    FirstByteSteps();
    hide WordShifted;
  }

  lemma SecondByteSteps()
    ensures WordShifted(0x8139) == 0xE09D && WordShifted(0xE09D) == 0xD04F
    ensures WordShifted(0xD04F) == 0xC826 && WordShifted(0xC826) == 0x6413
    ensures WordShifted(0x6413) == 0x9208 && WordShifted(0x9208) == 0x4904
    ensures WordShifted(0x4904) == 0x2482 && WordShifted(0x2482) == 0x1241
  {
    hide Xor;
    FeedbackValue(0x4, 0x09, 0xc);
    FeedbackValue(0x7, 0x04, 0xe);
    FeedbackValue(0x6, 0x82, 0x7);
    FeedbackValue(0x3, 0x20, 0x9);
  }

  lemma SecondByte()
    ensures Chain([0x8139, 0xE09D, 0xD04F, 0xC826, 0x6413, 0x9208, 0x4904, 0x2482, 0x1241])
  {
    SecondByteSteps();
    hide WordShifted;
  }

  lemma Loads()
    ensures Xor(0xFFFF, 0x02) == 0xFFFD && Xor(0x813E, 0x07) == 0x8139
  {
  }

  /** The example frame of MODBUS over Serial Line V1.02, appendix B: device 2,
      function 7, check bytes 41 12. */
  lemma KnownFrame()
    ensures Sealed([0x02, 0x07, 0x41, 0x12])
  {
    hide Chain, Bits16, Xor, Run, ByteBits, Seed;
    var frame := [0x02, 0x07, 0x41, 0x12];
    FirstByte();
    SecondByte();
    Loads();
    AllOnes();
    ByteByChain(0xFFFF, 0x02, [0xFFFD, 0xDFFF, 0xCFFE, 0x67FF, 0x93FE, 0x49FF, 0x84FE, 0x427F, 0x813E]);
    ByteByChain(0x813E, 0x07, [0x8139, 0xE09D, 0xD04F, 0xC826, 0x6413, 0x9208, 0x4904, 0x2482, 0x1241]);
    WordLine(0x1241);
    assert frame[..2] == [0x02, 0x07] && frame[2..] == [0x41, 0x12];
    TwoBytes(0x02, 0x07);
    RunAppend(Seed(), ByteBits(0x02), ByteBits(0x07));
  }

  lemma TwoBytes(a: byte, b: byte)
    ensures LineBits([a, b]) == ByteBits(a) + ByteBits(b)
  {
    assert [a, b][1..] == [b] && [b][1..] == [];
    assert LineBits([b]) == ByteBits(b);
  }
}
