/** Machine integers, byte order, and the result types shared by every module. */
module Bytes {
  type byte = x: int | 0 <= x < 0x100
  type u16 = x: int | 0 <= x < 0x1_0000
  type u32 = x: int | 0 <= x < 0x1_0000_0000

  datatype Option<+T> = None | Some(value: T)

  /** Network byte order. */
  function Be16(x: u16): seq<byte> {
    [x / 0x100, x % 0x100]
  }

  function FromBe16(hi: byte, lo: byte): u16 {
    hi * 0x100 + lo
  }

  /** Little-endian order, the native order of the machines the ring runs on. */
  function Le16(x: u16): seq<byte> {
    [x % 0x100, x / 0x100]
  }

  function FromLe16(lo: byte, hi: byte): u16 {
    lo + hi * 0x100
  }

  function Le32(x: u32): seq<byte> {
    Le16(x % 0x1_0000) + Le16(x / 0x1_0000)
  }

  function U16At(b: seq<byte>, i: nat): u16
    requires i + 2 <= |b|
  {
    FromLe16(b[i], b[i + 1])
  }

  function U32At(b: seq<byte>, i: nat): u32
    requires i + 4 <= |b|
  {
    U16At(b, i) + U16At(b, i + 2) * 0x1_0000
  }

  function Zeros(n: nat): seq<byte> {
    seq(n, _ => 0)
  }

  /** The concatenation of a list of lists. */
  function Flatten<T>(xss: seq<seq<T>>): seq<T> {
    if xss == [] then [] else xss[0] + Flatten(xss[1..])
  }

  lemma {:induction false} FlattenAppend<T>(xss: seq<seq<T>>, yss: seq<seq<T>>)
    ensures Flatten(xss + yss) == Flatten(xss) + Flatten(yss)
  {
    if xss == [] {
      assert xss + yss == yss;
    } else {
      assert (xss + yss)[1..] == xss[1..] + yss;
      FlattenAppend(xss[1..], yss);
    }
  }

  lemma FlattenSingle<T>(xs: seq<T>)
    ensures Flatten([xs]) == xs
  {
    assert Flatten([xs]) == xs + Flatten<T>([]);
  }

  /** Writing `h` at `lo` and leaving every other place alone is splicing it in. */
  lemma Spliced(before: seq<byte>, after: seq<byte>, lo: nat, h: seq<byte>)
    requires lo + |h| <= |before| == |after|
    requires forall i :: 0 <= i < lo || lo + |h| <= i < |before| ==> after[i] == before[i]
    requires forall i :: 0 <= i < |h| ==> after[lo + i] == h[i]
    ensures after == before[..lo] + h + before[lo + |h|..]
  {
    forall i | 0 <= i < |after|
      ensures after[i] == (before[..lo] + h + before[lo + |h|..])[i]
    {
      if lo <= i < lo + |h| {
        assert after[lo + (i - lo)] == h[i - lo];
      }
    }
  }
}
