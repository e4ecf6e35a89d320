/** The FRAM page behind the configuration: a byte array whose reads may fail
    and leave their output untouched. */
module Fram {
  import opened Words

  const PAGE: nat := 256

  type Page = m: seq<byte> | |m| == PAGE witness seq(PAGE, i => 0)

  /** Big-endian values. */
  function U16At(m: Page, a: nat): (v: u16)
    requires a + 2 <= PAGE
  {
    Join(m[a], m[a + 1])
  }

  function U32At(m: Page, a: nat): (v: u32)
    requires a + 4 <= PAGE
  {
    Join(m[a], m[a + 1]) * 0x1_0000 + Join(m[a + 2], m[a + 3])
  }

  lemma U32Parts(v: u32)
    ensures Join(Lo(v / 0x100_0000), Lo(v / 0x1_0000)) == v / 0x1_0000
    ensures Join(Lo(v / 0x100), Lo(v)) == v % 0x1_0000
  {
    HighHalf(v / 0x1_0000, v % 0x1_0000);
    LowHalf(v / 0x1_0000, v % 0x1_0000);
  }

  lemma HighHalf(h: u16, l: u16)
    ensures var v := h * 0x1_0000 + l; Join(Lo(v / 0x100_0000), Lo(v / 0x1_0000)) == h
  {
    var v, a, b := h * 0x1_0000 + l, h / 0x100, h % 0x100;
    assert h == a * 0x100 + b;
    assert v == a * 0x100_0000 + (b * 0x1_0000 + l);
    assert v / 0x100_0000 == a;
    assert v / 0x1_0000 == h;
  }

  lemma LowHalf(h: u16, l: u16)
    ensures var v := h * 0x1_0000 + l; Join(Lo(v / 0x100), Lo(v)) == l
  {
    var v, a, b := h * 0x1_0000 + l, l / 0x100, l % 0x100;
    assert l == a * 0x100 + b;
    assert v == (h * 0x100 + a) * 0x100 + b;
    assert v / 0x100 == h * 0x100 + a;
    assert v % 0x100 == b;
  }

  /** Nothing outside the extent differs. */
  predicate SameBut(m: Page, m': Page, a: nat, n: nat) {
    forall p :: 0 <= p < PAGE && !(a <= p < a + n) ==> m'[p] == m[p]
  }

  class Chip {
    const mem: array<byte>

    ghost predicate Valid() { mem.Length == PAGE }

    ghost function Contents(): Page
      requires Valid()
      reads mem
    {
      mem[..]
    }

    constructor ()
      ensures Valid() && fresh(mem)
    {
      mem := new byte[PAGE](i => 0);
    }

    method ReadByte(a: nat, bad: set<nat>, was: byte) returns (ok: bool, v: byte)
      requires Valid() && a < PAGE
      ensures ok == (a !in bad) && v == if ok then Contents()[a] else was
    {
      ok, v := true, was;
      if a in bad {
        ok := false;
      } else {
        v := mem[a];
      }
    }

    method ReadU16(a: nat, bad: set<nat>, was: u16) returns (ok: bool, v: u16)
      requires Valid() && a + 2 <= PAGE
      ensures ok == (a !in bad) && v == if ok then U16At(Contents(), a) else was
    {
      ok, v := true, was;
      if a in bad {
        ok := false;
      } else {
        v := Join(mem[a], mem[a + 1]);
      }
    }

    method ReadU32(a: nat, bad: set<nat>, was: u32) returns (ok: bool, v: u32)
      requires Valid() && a + 4 <= PAGE
      ensures ok == (a !in bad) && v == if ok then U32At(Contents(), a) else was
    {
      ok, v := true, was;
      if a in bad {
        ok := false;
      } else {
        v := Join(mem[a], mem[a + 1]) * 0x1_0000 + Join(mem[a + 2], mem[a + 3]);
      }
    }

    method WriteByte(a: nat, v: byte)
      requires Valid() && a < PAGE
      modifies mem
      ensures Contents()[a] == v && SameBut(old(Contents()), Contents(), a, 1)
    {
      mem[a] := v;
    }

    method WriteU16(a: nat, v: u16)
      requires Valid() && a + 2 <= PAGE
      modifies mem
      ensures U16At(Contents(), a) == v && SameBut(old(Contents()), Contents(), a, 2)
    {
      JoinSplit(v);
      mem[a] := Hi(v);
      mem[a + 1] := Lo(v);
    }

    method WriteU32(a: nat, v: u32)
      requires Valid() && a + 4 <= PAGE
      modifies mem
      ensures U32At(Contents(), a) == v && SameBut(old(Contents()), Contents(), a, 4)
    {
      U32Parts(v);
      mem[a] := Lo(v / 0x100_0000);
      mem[a + 1] := Lo(v / 0x1_0000);
      mem[a + 2] := Lo(v / 0x100);
      mem[a + 3] := Lo(v);
    }
  }
}
