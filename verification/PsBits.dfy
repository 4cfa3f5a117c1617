/** mpeg-ps utils.c: the bit cursor and the checksum of the program stream muxer. */
module PsBits {

  // ---------- powers of two ----------

  function Pow2(n: nat): (p: nat)
    ensures p > 0
  {
    if n == 0 then 1 else 2 * Pow2(n - 1)
  }

  lemma DivTwice(v: nat, p: nat)
    requires p > 0
    ensures v / (2 * p) == v / 2 / p
  {
    var q, r := v / (2 * p), v % (2 * p);
    assert v == 2 * (p * q) + r;
    var h := r / 2;
    assert v / 2 == p * q + h && 0 <= h < p;
    DivUnique(v / 2, p, q, h);
  }

  lemma DivUnique(a: nat, p: nat, q: nat, r: nat)
    requires p > 0 && a == p * q + r && r < p
    ensures a / p == q && a % p == r
  {
    var d := a / p - q;
    assert a == p * (a / p) + a % p;
    assert p * d == r - a % p by {
      assert p * (a / p) - p * q == p * d;
    }
    assert d >= 1 ==> p * d >= p;
    assert d <= -1 ==> p * d + p <= 0;
  }

  lemma ModTwice(v: nat, p: nat)
    requires p > 0
    ensures v % (2 * p) == 2 * (v / 2 % p) + v % 2
  {
    var q, r := v / 2 / p, v / 2 % p;
    assert v / 2 == p * q + r;
    assert v == 2 * (p * q + r) + v % 2 == (2 * p) * q + (2 * r + v % 2);
    DivUnique(v, 2 * p, q, 2 * r + v % 2);
  }

  // ---------- bits of bytes and of numbers ----------

  /** 0x80 shifted right by k. */
  function Mask(k: nat): bv8
    requires k < 8
  {
    if k == 0 then 0x80 else if k == 1 then 0x40 else if k == 2 then 0x20 else if k == 3 then 0x10
    else if k == 4 then 0x08 else if k == 5 then 0x04 else if k == 6 then 0x02 else 0x01
  }

  predicate Bit(b: bv8, k: nat)
    requires k < 8
  {
    b & Mask(k) != 0
  }

  /** Bit n of a byte string, most significant bits first. */
  predicate BitAt(d: seq<bv8>, n: nat)
    requires n < 8 * |d|
  {
    Bit(d[n / 8], n % 8)
  }

  lemma MaskShifts(k: nat)
    requires k < 8
    ensures Mask(k) >> 1 == if k == 7 then 0 else Mask(k + 1)
  {
  }

  lemma SetOne(b: bv8, k: nat, j: nat)
    requires k < 8 && j < 8
    ensures Bit(b | Mask(k), j) == (j == k || Bit(b, j))
    ensures Bit(b & !Mask(k), j) == (j != k && Bit(b, j))
  {
    hide Mask;
    MasksApart(k, j);
    SetMasked(b, Mask(k), Mask(j));
  }

  lemma SetMasked(b: bv8, m: bv8, n: bv8)
    requires n != 0 && (m == n || m & n == 0)
    ensures ((b | m) & n != 0) == (m == n || b & n != 0)
    ensures (b & !m) & n != 0 <==> m != n && b & n != 0
  {
    if m == n {
      SetSame(b, m);
    } else {
      SetOther(b, m, n);
    }
  }

  lemma SetSame(b: bv8, m: bv8)
    ensures (b | m) & m == m && (b & !m) & m == 0
  {
  }

  lemma SetOther(b: bv8, m: bv8, n: bv8)
    requires m & n == 0
    ensures (b | m) & n == b & n && (b & !m) & n == b & n
  {
  }

  lemma MasksApart(k: nat, j: nat)
    requires k < 8 && j < 8
    ensures Mask(j) != 0 && (if k == j then Mask(k) == Mask(j) else Mask(k) != Mask(j) && Mask(k) & Mask(j) == 0)
  {
  }

  /** Bit j, from the left, of a field of `count` bits with this value. */
  predicate FieldBit(count: nat, value: nat, j: nat)
    requires j < count
  {
    value / Pow2(count - 1 - j) % 2 == 1
  }

  function FieldBits(count: nat, value: nat): (bits: seq<bool>)
    ensures |bits| == count && forall j :: 0 <= j < count ==> bits[j] == FieldBit(count, value, j)
  {
    seq(count, j requires 0 <= j < count => FieldBit(count, value, j))
  }

  /** The number that the bits spell, most significant first. */
  function ValueOf(bits: seq<bool>): nat
  {
    if bits == [] then 0 else 2 * ValueOf(bits[..|bits| - 1]) + if bits[|bits| - 1] then 1 else 0
  }

  lemma FieldFront(count: nat, value: nat)
    requires count > 0
    ensures FieldBits(count, value) == FieldBits(count - 1, value / 2) + [value % 2 == 1]
  {
    var a, b := FieldBits(count, value), FieldBits(count - 1, value / 2) + [value % 2 == 1];
    forall j | 0 <= j < count
      ensures a[j] == b[j]
    {
      if j < count - 1 {
        DivTwice(value, Pow2(count - 2 - j));
      }
    }
  }

  /** Spelling a value and reading it back gives its low bits. */
  lemma {:induction false} FieldValue(count: nat, value: nat)
    ensures ValueOf(FieldBits(count, value)) == value % Pow2(count)
  {
    if count > 0 {
      FieldFront(count, value);
      FieldValue(count - 1, value / 2);
      hide FieldBits, ValueOf;
      ValuePush(FieldBits(count - 1, value / 2), value % 2 == 1);
      ModTwice(value, Pow2(count - 1));
    }
  }

  lemma ValuePush(bits: seq<bool>, b: bool)
    ensures ValueOf(bits + [b]) == 2 * ValueOf(bits) + if b then 1 else 0
  {
    assert (bits + [b])[..|bits|] == bits;
  }

  /** One call of bits_write. */
  datatype Field = Field(count: nat, value: nat)

  /** The bits of the first n fields. */
  function FieldsBits(fs: seq<Field>, n: nat): seq<bool>
    requires n <= |fs|
  {
    if n == 0 then [] else FieldsBits(fs, n - 1) + FieldBits(fs[n - 1].count, fs[n - 1].value)
  }

  /** Where field n starts. */
  function Width(fs: seq<Field>, n: nat): (w: nat)
    requires n <= |fs|
  {
    if n == 0 then 0 else Width(fs, n - 1) + fs[n - 1].count
  }

  lemma {:induction false} FieldsWidth(fs: seq<Field>, n: nat)
    requires n <= |fs|
    ensures |FieldsBits(fs, n)| == Width(fs, n)
  {
    if n > 0 {
      FieldsWidth(fs, n - 1);
    }
  }

  lemma {:induction false} FieldsSame(fs: seq<Field>, gs: seq<Field>, n: nat)
    requires n <= |fs| && n <= |gs| && forall i :: 0 <= i < n ==> fs[i] == gs[i]
    ensures FieldsBits(fs, n) == FieldsBits(gs, n) && Width(fs, n) == Width(gs, n)
  {
    if n > 0 {
      FieldsSame(fs, gs, n - 1);
    }
  }

  lemma FieldsPush(fs: seq<Field>, f: Field)
    ensures FieldsBits(fs + [f], |fs| + 1) == FieldsBits(fs, |fs|) + FieldBits(f.count, f.value)
  {
    FieldsSame(fs + [f], fs, |fs|);
  }

  /** Field n is found where the fields before it end. */
  lemma {:induction false} FieldsSlice(fs: seq<Field>, m: nat, n: nat)
    requires n < m <= |fs|
    ensures Width(fs, n) + fs[n].count <= |FieldsBits(fs, m)|
    ensures FieldsBits(fs, m)[Width(fs, n)..Width(fs, n) + fs[n].count] == FieldBits(fs[n].count, fs[n].value)
  {
    FieldsWidth(fs, m - 1);
    if n < m - 1 {
      FieldsSlice(fs, m - 1, n);
    }
  }

  // ---------- the cursor ----------

  /** BITS_BUFFER_S: a byte position and a one-bit mask. */
  class BitBuffer {
    const data: array<bv8>
    var i: nat
    var mask: bv8
    ghost var k: nat          // the mask is 0x80 >> k
    ghost var base: seq<bv8>  // the bytes before the first write
    ghost var fields: seq<Field>

    ghost predicate Valid()
      reads this
    {
      k < 8 && mask == Mask(k)
    }

    ghost function Pos(): nat
      reads this
    {
      8 * i + k
    }

    /** All that was written since the start are the fields, one behind the other. */
    ghost predicate Writing()
      reads this, data
    {
      Valid() && Pos() == |FieldsBits(fields, |fields|)| && Wrote(base, data[..], 0, FieldsBits(fields, |fields|))
    }

    /** A cursor at the start of the bytes, as bits_initread makes it. */
    constructor (d: array<bv8>)
      ensures Valid() && Pos() == 0 && data == d && Writing() && base == d[..] && fields == []
    {
      data, i, mask, k := d, 0, 0x80, 0;
      base, fields := d[..], [];
      new;
      WroteNothing(d[..], 0, []);
    }

    /** To the next bit. */
    method Advance()
      requires Valid()
      modifies this
      ensures base == old(base) && fields == old(fields)
      ensures Valid() && Pos() == old(Pos()) + 1
    {
      MaskShifts(k);
      MaskNonZero(k);
      mask := mask >> 1;
      if mask == 0 {
        i := i + 1;
        mask := 0x80;
        k := 0;
      } else {
        k := k + 1;
        MaskNonZero(k);
      }
    }

    /** The bit under the mask becomes b. */
    method SetHere(b: bool)
      requires Valid() && i < data.Length
      modifies data
      ensures data[..] == old(data[..])[i := if b then old(data[..])[i] | Mask(k) else old(data[..])[i] & !Mask(k)]
    {
      hide Mask;
      data[i] := if b then data[i] | mask else data[i] & !mask;
    }

    /** One turn of the loop in bits_write. */
    method PutBit(b: bool)
      requires Valid() && Pos() < 8 * data.Length
      modifies this, data
      ensures base == old(base) && fields == old(fields)
      ensures Valid() && Pos() == old(Pos()) + 1
      ensures Wrote(old(data[..]), data[..], old(Pos()), [b])
    {
      hide Mask, Wrote;
      PutAt(data[..], i, k, b);
      SetHere(b);
      Advance();
    }

    /** One turn of the loop in bits_read. */
    method TakeBit() returns (b: bool)
      requires Valid() && Pos() < 8 * data.Length
      modifies this
      ensures base == old(base) && fields == old(fields)
      ensures Valid() && Pos() == old(Pos()) + 1 && b == BitAt(data[..], old(Pos()))
    {
      hide Mask;
      SamePlace(Pos(), i, k);
      BitHere(data[..], Pos(), i, k);
      b := data[i] & mask != 0;
      Advance();
    }

    /** bits_write */
    method BitsWrite(count: nat, value: nat)
      requires Writing() && Pos() + count <= 8 * data.Length
      modifies this, data
      ensures Writing() && Pos() == old(Pos()) + count
      ensures base == old(base) && fields == old(fields) + [Field(count, value)]
    {
      hide Wrote, FieldBit, FieldsBits;
      ghost var was, p, bits := data[..], Pos(), FieldBits(count, value);
      var left: nat := count;
      WroteNothing(was, p, bits[..0]);
      while left > 0
        invariant left <= count && Valid() && Pos() == p + count - left && base == old(base) && fields == old(fields)
        invariant Wrote(was, data[..], p, bits[..count - left])
      {
        left := left - 1;
        BitOfField(count, value, left);
        ghost var now := data[..];
        PutBit(value / Pow2(left) % 2 == 1);
        WroteMore(was, now, data[..], p, bits[..count - left - 1], [bits[count - left - 1]]);
        assert bits[..count - left] == bits[..count - left - 1] + [bits[count - left - 1]];
      }
      assert bits[..count] == bits;
      FieldsPush(fields, Field(count, value));
      WroteMore(base, was, data[..], 0, FieldsBits(fields, |fields|), bits);
      fields := fields + [Field(count, value)];
    }

    /** bits_read */
    method BitsRead(count: nat) returns (value: nat)
      requires Valid() && Pos() + count <= 8 * data.Length
      modifies this
      ensures base == old(base) && fields == old(fields)
      ensures Valid() && Pos() == old(Pos()) + count
      ensures value == ValueOf(BitsFrom(data[..], old(Pos()), count))
    {
      hide BitAt, ValueOf, Mask, BitsFrom;
      ghost var d, p := data[..], Pos();
      value := 0;
      var left: nat := count;
      NoValue(d, p);
      while left > 0
        invariant left <= count && Valid() && Pos() == p + count - left && base == old(base) && fields == old(fields)
        invariant left == 0 || left == count ==> value == ValueOf(BitsFrom(d, p, count - left))
        invariant 0 < left < count ==> value == 2 * ValueOf(BitsFrom(d, p, count - left))
      {
        left := left - 1;
        MoreValue(d, p, count - left - 1);
        var b := TakeBit();
        if b {
          value := value + 1;
        }
        if left != 0 {
          value := value * 2;
        }
      }
    }
  }

  lemma MaskNonZero(k: nat)
    requires k < 8
    ensures Mask(k) != 0
  {
  }

  /** `e` is `d` with `bits` from bit p on. */
  ghost predicate Wrote(d: seq<bv8>, e: seq<bv8>, p: nat, bits: seq<bool>)
  {
    && |d| == |e| && p + |bits| <= 8 * |d|
    && forall n: nat :: n < 8 * |d| ==> BitAt(e, n) == if p <= n < p + |bits| then bits[n - p] else BitAt(d, n)
  }

  lemma WroteNothing(d: seq<bv8>, p: nat, none: seq<bool>)
    requires none == [] && p <= 8 * |d|
    ensures Wrote(d, d, p, none)
  {
  }

  lemma WroteMore(d: seq<bv8>, e: seq<bv8>, f: seq<bv8>, p: nat, a: seq<bool>, b: seq<bool>)
    requires Wrote(d, e, p, a) && Wrote(e, f, p + |a|, b)
    ensures Wrote(d, f, p, a + b)
  {
    hide BitAt;
  }

  /** Setting one bit of one byte. */
  lemma PutAt(d: seq<bv8>, i: nat, k: nat, b: bool)
    requires i < |d| && k < 8
    ensures Wrote(d, d[i := if b then d[i] | Mask(k) else d[i] & !Mask(k)], 8 * i + k, [b])
  {
    hide Mask, Bit;
    var x := if b then d[i] | Mask(k) else d[i] & !Mask(k);
    var e := d[i := x];
    forall n: nat | n < 8 * |d|
      ensures BitAt(e, n) == if 8 * i + k <= n < 8 * i + k + 1 then b else BitAt(d, n)
    {
      OneBit(d, i, k, b, n);
    }
  }

  lemma OneBit(d: seq<bv8>, i: nat, k: nat, b: bool, n: nat)
    requires i < |d| && k < 8 && n < 8 * |d|
    ensures var e := d[i := if b then d[i] | Mask(k) else d[i] & !Mask(k)];
            BitAt(e, n) == if n == 8 * i + k then b else BitAt(d, n)
  {
    hide Mask, Bit;
    var x := if b then d[i] | Mask(k) else d[i] & !Mask(k);
    NewBit(d[i], x, k, b, n % 8);
    PlaceOf(d, i, x, n);
    SamePlace(n, i, k);
  }

  lemma NewBit(b: bv8, x: bv8, k: nat, v: bool, j: nat)
    requires k < 8 && j < 8 && x == if v then b | Mask(k) else b & !Mask(k)
    ensures Bit(x, j) == if j == k then v else Bit(b, j)
  {
    hide Mask, Bit;
    SetOne(b, k, j);
  }

  lemma PlaceOf(d: seq<bv8>, i: nat, x: bv8, n: nat)
    requires i < |d| && n < 8 * |d|
    ensures BitAt(d[i := x], n) == if n / 8 == i then Bit(x, n % 8) else BitAt(d, n)
    ensures n / 8 == i ==> BitAt(d, n) == Bit(d[i], n % 8)
  {
    hide Bit;
  }

  lemma SamePlace(n: nat, i: nat, k: nat)
    requires k < 8
    ensures n == 8 * i + k <==> n / 8 == i && n % 8 == k
  {
  }

  lemma BitHere(d: seq<bv8>, n: nat, i: nat, k: nat)
    requires n < 8 * |d| && n / 8 == i && n % 8 == k
    ensures BitAt(d, n) == (d[i] & Mask(k) != 0)
  {
  }

  lemma BitOfField(count: nat, value: nat, left: nat)
    requires left < count
    ensures FieldBit(count, value, count - 1 - left) == (value / Pow2(left) % 2 == 1)
  {
  }

  /** Bits p .. p + count of a byte string. */
  function BitsFrom(d: seq<bv8>, p: nat, count: nat): (bits: seq<bool>)
    requires p + count <= 8 * |d|
    ensures |bits| == count && forall j :: 0 <= j < count ==> bits[j] == BitAt(d, p + j)
  {
    seq(count, j requires 0 <= j < count => BitAt(d, p + j))
  }

  lemma NoValue(d: seq<bv8>, p: nat)
    requires p <= 8 * |d|
    ensures ValueOf(BitsFrom(d, p, 0)) == 0
  {
  }

  lemma MoreValue(d: seq<bv8>, p: nat, n: nat)
    requires p + n < 8 * |d|
    ensures ValueOf(BitsFrom(d, p, n + 1)) == 2 * ValueOf(BitsFrom(d, p, n)) + if BitAt(d, p + n) then 1 else 0
    ensures n == 0 ==> ValueOf(BitsFrom(d, p, n)) == 0
  {
    var a := BitsFrom(d, p, n + 1);
    assert a[..n] == BitsFrom(d, p, n);
  }

  /**
   * bits_read undoes bits_write for any list of fields: where field n was written, its value modulo its
   * width is read.
   */
  lemma FieldsReadBack(d: seq<bv8>, e: seq<bv8>, fs: seq<Field>, n: nat)
    requires Wrote(d, e, 0, FieldsBits(fs, |fs|)) && n < |fs|
    ensures Width(fs, n) + fs[n].count <= 8 * |e|
    ensures ValueOf(BitsFrom(e, Width(fs, n), fs[n].count)) == fs[n].value % Pow2(fs[n].count)
  {
    hide FieldsBits, FieldBit, ValueOf, BitAt;
    var bits, w, c := FieldsBits(fs, |fs|), Width(fs, n), fs[n].count;
    FieldsSlice(fs, |fs|, n);
    FieldValue(c, fs[n].value);
    forall j | 0 <= j < c
      ensures BitsFrom(e, w, c)[j] == FieldBits(c, fs[n].value)[j]
    {
      assert bits[w..w + c][j] == bits[w + j];
    }
    assert BitsFrom(e, w, c) == FieldBits(c, fs[n].value);
  }

  // ---------- the checksum ----------

  const POLY: nat := 0x04c1_1db7
  const WORD: nat := 0x1_0000_0000

  function Xor(a: nat, b: nat): (r: nat)
    requires a < WORD && b < WORD
    ensures r < WORD
  {
    (((a as bv32) ^ (b as bv32)) as int) % WORD
  }

  predicate TopBit(crc: nat)
    requires crc < WORD
  {
    crc / 0x8000_0000 == 1
  }

  /** One message bit. */
  function CrcStep(crc: nat, b: bool): (r: nat)
    requires crc < WORD
    ensures r < WORD
  {
    var shifted := 2 * crc % WORD;
    if TopBit(crc) != b then Xor(shifted, POLY) else shifted
  }

  /** The register after the first n bits. */
  function CrcRun(crc: nat, bits: seq<bool>, n: nat): (r: nat)
    requires crc < WORD && n <= |bits|
    ensures r < WORD
  {
    if n == 0 then crc else CrcStep(CrcRun(crc, bits, n - 1), bits[n - 1])
  }

  function Crc(bits: seq<bool>): nat { CrcRun(WORD - 1, bits, |bits|) }

  lemma {:induction false} CrcSame(crc: nat, a: seq<bool>, b: seq<bool>, n: nat)
    requires crc < WORD && n <= |a| && n <= |b| && forall i :: 0 <= i < n ==> a[i] == b[i]
    ensures CrcRun(crc, a, n) == CrcRun(crc, b, n)
  {
    hide CrcStep;
    if n > 0 {
      CrcSame(crc, a, b, n - 1);
    }
  }

  lemma {:induction false} CrcJoin(crc: nat, a: seq<bool>, b: seq<bool>, n: nat)
    requires crc < WORD && n <= |b|
    ensures CrcRun(crc, a + b, |a| + n) == CrcRun(CrcRun(crc, a, |a|), b, n)
  {
    hide CrcStep;
    if n == 0 {
      CrcSame(crc, a + b, a, |a|);
    } else {
      CrcJoin(crc, a, b, n - 1);
      assert (a + b)[|a| + n - 1] == b[n - 1];
    }
  }

  /** CRC_encode */
  method CrcEncode(d: seq<bv8>) returns (crc: nat)
    ensures crc == Crc(BitsFrom(d, 0, 8 * |d|)) < WORD
  {
    hide CrcStep, Mask, BitAt, BitsFrom;
    ghost var bits := BitsFrom(d, 0, 8 * |d|);
    var byteCount: nat, bitCount: nat := 0, 0;
    crc := WORD - 1;
    while byteCount < |d|
      invariant byteCount <= |d| && bitCount < 8 && (byteCount == |d| ==> bitCount == 0)
      invariant crc < WORD && crc == CrcRun(WORD - 1, bits, 8 * byteCount + bitCount)
      decreases |d| - byteCount, 8 - bitCount
    {
      SamePlace(8 * byteCount + bitCount, byteCount, bitCount);
      BitHere(d, 8 * byteCount + bitCount, byteCount, bitCount);
      AllBits(d, 8 * byteCount + bitCount);
      crc := CrcStep(crc, d[byteCount] & Mask(bitCount) != 0);
      bitCount := bitCount + 1;
      if bitCount > 7 {
        bitCount := 0;
        byteCount := byteCount + 1;
      }
    }
  }

  lemma AllBits(d: seq<bv8>, n: nat)
    requires n < 8 * |d|
    ensures BitsFrom(d, 0, 8 * |d|)[n] == BitAt(d, n)
  {
  }

  /** The register while it is fed its own bits from the top: they shift out and nothing comes in. */
  lemma {:induction false} SelfFed(crc: nat, n: nat)
    requires crc < WORD && n <= 32
    ensures CrcRun(crc, FieldBits(32, crc), n) == crc % Pow2(32 - n) * Pow2(n)
  {
    Pow2Of32();
    if n == 0 {
    } else {
      SelfFed(crc, n - 1);
      SelfStep(crc, n - 1);
    }
  }

  lemma SelfStep(crc: nat, n: nat)
    requires crc < WORD && n < 32
    ensures crc % Pow2(32 - n) * Pow2(n) < WORD
    ensures CrcStep(crc % Pow2(32 - n) * Pow2(n), FieldBit(32, crc, n)) == crc % Pow2(31 - n) * Pow2(n + 1)
  {
    hide Pow2, Xor, CrcStep, FieldBit;
    HalfPowers(n);
    SelfStepOf(crc, n, Pow2(31 - n), Pow2(n));
  }

  lemma HalfPowers(n: nat)
    requires n < 32
    ensures Pow2(31 - n) * Pow2(n) == 0x8000_0000 && Pow2(32 - n) == 2 * Pow2(31 - n) && Pow2(n + 1) == 2 * Pow2(n)
  {
    Pow2Of32();
    PowSum(31 - n, n);
  }

  lemma SelfStepOf(crc: nat, n: nat, q: nat, p: nat)
    requires crc < WORD && n < 32 && q == Pow2(31 - n) && q * p == 0x8000_0000
    ensures crc % (2 * q) * p < WORD && CrcStep(crc % (2 * q) * p, FieldBit(32, crc, n)) == crc % q * (2 * p)
  {
    hide Pow2, Xor;
    var t, r := crc / q % 2, crc % q;
    SplitTop(crc, q);
    Shifted(q, p, t, r);
  }

  /** The part of crc below 2q is one bit in front of the part below q. */
  lemma SplitTop(crc: nat, q: nat)
    requires q > 0
    ensures crc % (2 * q) == q * (crc / q % 2) + crc % q
  {
    var h, r := crc / q, crc % q;
    var k, t := h / 2, h % 2;
    assert crc == q * h + r && h == 2 * k + t;
    assert q * h == (2 * q) * k + q * t;
    assert q * t + r < 2 * q by {
      assert t == 0 || t == 1;
    }
    DivUnique(crc, 2 * q, k, q * t + r);
  }

  /** Shifting the register (q * t + r) * p, whose top bit is t, by one. */
  lemma Shifted(q: nat, p: nat, t: nat, r: nat)
    requires q * p == 0x8000_0000 && t < 2 && r < q
    ensures var s := (q * t + r) * p; s < WORD && s / 0x8000_0000 == t && 2 * s % WORD == r * (2 * p)
  {
    var s, x := (q * t + r) * p, r * p;
    assert s == 0x8000_0000 * t + x by {
      assert (q * t + r) * p == (q * p) * t + r * p;
    }
    assert x < 0x8000_0000 by {
      assert p > 0;
      assert (q - r) * p >= p;
      assert (q - r) * p == q * p - x;
    }
    assert r * (2 * p) == 2 * x;
  }

  lemma Pow2Of32()
    ensures Pow2(32) == WORD && Pow2(31) == 0x8000_0000
  {
    assert Pow2(8) == 256;
    assert Pow2(16) == 65536;
    assert Pow2(24) == 0x100_0000;
  }

  lemma {:induction false} PowSum(a: nat, b: nat)
    ensures Pow2(a + b) == Pow2(a) * Pow2(b)
  {
    if a > 0 {
      PowSum(a - 1, b);
      assert 2 * Pow2(a - 1) * Pow2(b) == 2 * (Pow2(a - 1) * Pow2(b));
    }
  }

  /** Data followed by its own checksum has the checksum 0. */
  lemma ChecksumOfChecked(bits: seq<bool>)
    ensures Crc(bits) < WORD && Crc(bits + FieldBits(32, Crc(bits))) == 0
  {
    hide CrcStep, CrcRun, FieldBit;
    var crc := Crc(bits);
    CrcJoin(WORD - 1, bits, FieldBits(32, crc), 32);
    SelfFed(crc, 32);
    assert Pow2(32 - 32) == 1;
    assert crc % 1 * Pow2(32) == 0;
  }
}
