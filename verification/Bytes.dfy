/** Fixed-width integers and their big-endian byte strings (mov-ioutil.h). */
module Bytes {
  const TWO_31: int := 0x8000_0000
  const TWO_32: int := 0x1_0000_0000
  const TWO_63: int := 0x8000_0000_0000_0000
  const TWO_64: int := 0x1_0000_0000_0000_0000

  const UINT32_MAX: int := TWO_32 - 1

  type byte = x: int | 0 <= x < 0x100
  type u16 = x: int | 0 <= x < 0x1_0000
  type u32 = x: int | 0 <= x < 0x1_0000_0000
  type u64 = x: int | 0 <= x < 0x1_0000_0000_0000_0000

  /** The C cast `(uint32_t)v`. */
  function ToU32(v: int): u32 { v % 0x1_0000_0000 }

  /** The C cast `(int32_t)v` of an unsigned 32-bit word. */
  function ToI32(v: u32): int { if v < 0x8000_0000 then v else v - 0x1_0000_0000 }

  /** C division of signed integers truncates toward zero. */
  function TruncDiv(a: int, b: int): (q: int)
    requires b > 0
    ensures a >= 0 ==> q >= 0 && b * q <= a < b * q + b
    ensures a <= 0 ==> q <= 0 && b * q - b < a <= b * q
  {
    if a >= 0 then a / b else -((-a) / b)
  }

  function BE16(v: u16): (bs: seq<byte>) { [v / 0x100, v % 0x100] }

  function BE32(v: u32): (bs: seq<byte>)
    ensures |bs| == 4
  {
    BE16(v / 0x1_0000) + BE16(v % 0x1_0000)
  }

  function BE64(v: u64): (bs: seq<byte>)
    ensures |bs| == 8
  {
    BE32(v / 0x1_0000_0000) + BE32(v % 0x1_0000_0000)
  }

  function U16At(d: seq<byte>, i: nat): u16
    requires i + 2 <= |d|
  {
    (d[i] as int) * 0x100 + d[i + 1] as int
  }

  function U32At(d: seq<byte>, i: nat): u32
    requires i + 4 <= |d|
  {
    (U16At(d, i) as int) * 0x1_0000 + U16At(d, i + 2) as int
  }

  function U64At(d: seq<byte>, i: nat): u64
    requires i + 8 <= |d|
  {
    (U32At(d, i) as int) * 0x1_0000_0000 + U32At(d, i + 4) as int
  }

  /** A sequence of 32-bit words as the bytes the writer emits for them. */
  function Words(ws: seq<u32>): (bs: seq<byte>)
    ensures |bs| == 4 * |ws|
  {
    if ws == [] then [] else Words(ws[..|ws| - 1]) + BE32(ws[|ws| - 1])
  }

  lemma BE32Decodes(v: u32)
    ensures U32At(BE32(v), 0) == v
  {
    var hi, lo := v / 0x1_0000, v % 0x1_0000;
    assert BE32(v) == [hi / 0x100, hi % 0x100, lo / 0x100, lo % 0x100];
  }

  lemma WordsConcat(a: seq<u32>, b: seq<u32>)
    ensures Words(a + b) == Words(a) + Words(b)
  {
    if b == [] {
      assert a + b == a;
    } else {
      var i := b[..|b| - 1];
      assert (a + b)[..|a + b| - 1] == a + i;
      WordsConcat(a, i);
    }
  }

  lemma WordsOne(w: u32)
    ensures Words([w]) == BE32(w)
  {
    assert [w][..0] == [];
  }

  lemma WordsSplit(a: seq<u32>, x: u32, b: seq<u32>)
    ensures Words(a + [x] + b) == Words(a) + BE32(x) + Words(b)
  {
    WordsConcat(a + [x], b);
    WordsConcat(a, [x]);
    WordsOne(x);
  }

  lemma WordsTwo(hi: u32, lo: u32)
    ensures Words([hi, lo]) == BE32(hi) + BE32(lo)
  {
    assert [hi, lo] == [hi] + [lo];
    WordsConcat([hi], [lo]);
    WordsOne(hi);
    WordsOne(lo);
  }

  /** Words are read back one by one: the k-th word lies at byte 4 * k. */
  lemma {:induction false} WordsDecode(ws: seq<u32>, k: nat)
    requires k < |ws|
    ensures U32At(Words(ws), 4 * k) == ws[k]
  {
    var i := ws[..|ws| - 1];
    if k == |ws| - 1 {
      var bs := Words(ws);
      BE32Decodes(ws[k]);
      assert forall j :: 0 <= j < 4 ==> bs[4 * k + j] == BE32(ws[k])[j];
    } else {
      WordsDecode(i, k);
    }
  }

  /** Reading a word depends only on the four bytes under it. */
  lemma U32AtSlice(d: seq<byte>, p: nat, n: nat, k: nat)
    requires p + n <= |d| && k + 4 <= n
    ensures U32At(d[p..p + n], k) == U32At(d, p + k)
  {
  }
}
