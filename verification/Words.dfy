/** Machine words of the firmware: bytes, 16- and 32-bit words, and the
    32-bit millisecond clock seen through modular subtraction. */
module Words {
  type byte = x: int | 0 <= x < 0x100
  type u16 = x: int | 0 <= x < 0x1_0000
  type u32 = x: int | 0 <= x < 0x1_0000_0000

  const WRAP: int := 0x1_0000_0000

  function Hi(w: u16): (b: byte) { w / 0x100 }

  function Lo(w: int): (b: byte) { w % 0x100 }

  function Join(hi: byte, lo: byte): (w: u16) { hi * 0x100 + lo }

  lemma JoinSplit(w: u16)
    ensures Join(Hi(w), Lo(w)) == w
  {
  }

  lemma SplitJoin(hi: byte, lo: byte)
    ensures Hi(Join(hi, lo)) == hi && Lo(Join(hi, lo)) == lo
  {
  }

  /** The 32-bit tick counter shows an unbounded clock modulo 2^32. */
  function Tick(clock: nat): (t: u32) { clock % WRAP }

  /** `(uint32_t)(now - since)` on two tick values. */
  function Elapsed(now: u32, since: u32): (d: u32) { (now - since) % WRAP }

  /** The wrap-safe form measures real time as long as the two instants are
      less than 2^32 ms apart. */
  lemma ElapsedIsReal(now: nat, since: nat)
    requires since <= now < since + WRAP
    ensures Elapsed(Tick(now), Tick(since)) == now - since
  {
    var q, p := now / WRAP, since / WRAP;
    assert Tick(now) - Tick(since) == (now - since) - (q - p) * WRAP;
    assert q == p || q == p + 1;
  }

  /** Bit `i` of a word. */
  predicate Bit(w: nat, i: nat)
    decreases i
  {
    if i == 0 then w % 2 == 1 else Bit(w / 2, i - 1)
  }

  /** Bitwise exclusive or. */
  function Xor(a: nat, b: nat): nat
    decreases a + b
  {
    if a == 0 then b
    else if b == 0 then a
    else (a + b) % 2 + 2 * Xor(a / 2, b / 2)
  }

  lemma XorParts(a: nat, b: nat)
    ensures Xor(a, b) % 2 == (a + b) % 2
    ensures Xor(a, b) / 2 == Xor(a / 2, b / 2)
  {
    if a == 0 {
      assert Xor(a / 2, b / 2) == b / 2;
    } else if b == 0 {
      assert Xor(a / 2, b / 2) == a / 2;
    } else {
      var low, rest := (a + b) % 2, Xor(a / 2, b / 2);
      assert Xor(a, b) == low + 2 * rest;
      hide Xor;
      LowAndRest(low, rest);
    }
  }

  lemma LowAndRest(low: nat, rest: nat)
    requires low < 2
    ensures (low + 2 * rest) % 2 == low && (low + 2 * rest) / 2 == rest
  {
  }

  lemma {:induction false} BitXor(a: nat, b: nat, i: nat)
    ensures Bit(Xor(a, b), i) <==> (Bit(a, i) != Bit(b, i))
    decreases i
  {
    hide Xor;
    XorParts(a, b);
    if i > 0 {
      BitXor(a / 2, b / 2, i - 1);
    }
  }

  /** Xor stays inside a word of `n` bits. */
  lemma {:induction false} XorBound(a: nat, b: nat, n: nat)
    requires a < Pow2(n) && b < Pow2(n)
    ensures Xor(a, b) < Pow2(n)
    decreases n
  {
    if n > 0 {
      XorParts(a, b);
      XorBound(a / 2, b / 2, n - 1);
    }
  }

  function Pow2(n: nat): (p: nat)
    ensures p >= 1
  {
    if n == 0 then 1 else 2 * Pow2(n - 1)
  }

  lemma Pow2Values()
    ensures Pow2(8) == 0x100 && Pow2(16) == 0x1_0000
  {
    assert Pow2(4) == 16;
    assert Pow2(8) == 0x100;
    assert Pow2(12) == 0x1000;
  }

  lemma {:induction false} BitOfZero(i: nat)
    ensures !Bit(0, i)
    decreases i
  {
    if i > 0 {
      BitOfZero(i - 1);
    }
  }

  lemma BitAboveByte(w: nat, i: nat)
    ensures Bit(w, i + 8) <==> Bit(w / 0x100, i)
  {
    hide Bit;
    BitAboveTwo(w, i + 6);
    BitAboveTwo(w / 4, i + 4);
    BitAboveTwo(w / 16, i + 2);
    BitAboveTwo(w / 64, i);
  }

  lemma BitAboveTwo(w: nat, i: nat)
    ensures Bit(w, i + 2) <==> Bit(w / 4, i)
  {
    assert Bit(w, i + 2) == Bit(w / 2, i + 1) == Bit(w / 2 / 2, i);
    assert w / 2 / 2 == w / 4;
  }

  /** The low `n` bits do not see the part of the word above them. */
  lemma {:induction false} BitBelow(w: nat, h: nat, n: nat, i: nat)
    requires i < n
    ensures Bit(w + h * Pow2(n), i) <==> Bit(w, i)
    decreases n
  {
    var m := h * Pow2(n - 1);
    assert h * Pow2(n) == 2 * m;
    if i > 0 {
      assert (w + 2 * m) / 2 == w / 2 + m;
      BitBelow(w / 2, h, n - 1, i - 1);
    }
  }

  /** A word of `n` bits is determined by them. */
  lemma {:induction false} SameBits(a: nat, b: nat, n: nat)
    requires a < Pow2(n) && b < Pow2(n)
    requires forall i: nat :: i < n ==> (Bit(a, i) <==> Bit(b, i))
    ensures a == b
    decreases n
  {
    if n > 0 {
      forall i: nat | i < n - 1
        ensures Bit(a / 2, i) <==> Bit(b / 2, i)
      {
        assert Bit(a, i + 1) <==> Bit(b, i + 1);
      }
      SameBits(a / 2, b / 2, n - 1);
      assert Bit(a, 0) <==> Bit(b, 0);
    }
  }

  /** The eight bits of a byte, least significant first. */
  function ByteBits(b: byte): (r: seq<bool>)
    ensures |r| == 8
  {
    seq(8, i requires 0 <= i < 8 => Bit(b, i))
  }

  lemma ByteBitsInjective(a: byte, b: byte)
    requires ByteBits(a) == ByteBits(b)
    ensures a == b
  {
    Pow2Values();
    forall i: nat | i < 8
      ensures Bit(a, i) <==> Bit(b, i)
    {
      assert ByteBits(a)[i] == ByteBits(b)[i];
    }
    SameBits(a, b, 8);
  }

  /** The bits of a message in line order: bytes in order, each least
      significant bit first. */
  function LineBits(s: seq<byte>): (r: seq<bool>)
    ensures |r| == 8 * |s|
  {
    if s == [] then [] else ByteBits(s[0]) + LineBits(s[1..])
  }

  lemma {:induction false} LineBitsAppend(s: seq<byte>, t: seq<byte>)
    ensures LineBits(s + t) == LineBits(s) + LineBits(t)
  {
    if s == [] {
      assert s + t == t;
    } else {
      assert (s + t)[1..] == s[1..] + t;
      LineBitsAppend(s[1..], t);
    }
  }
}
