/** The reading half of mov-tfhd.c, mov-tfdt.c and mov-trun.c. */
module TrackFragmentReader {
  import opened Bytes
  import opened Samples
  import opened MovStream
  import opened Tracks
  import opened Stsz
  import opened TrackFragment

  /** The reader stands at word k of the box payload `ws`, which starts at byte p. */
  ghost predicate AtWord(io: Stream, p: nat, ws: seq<u32>, k: nat)
    reads io
  {
    io.error == 0 && Holds(io.data, p, ws) && io.pos == p + 4 * k && k <= |ws|
  }

  method Next(io: Stream, ghost p: nat, ghost ws: seq<u32>, ghost k: nat) returns (v: u32)
    requires AtWord(io, p, ws, k) && k < |ws|
    modifies io
    ensures io.data == old(io.data) && AtWord(io, p, ws, k + 1) && v == ws[k]
  {
    hide Words, U32At;
    HeldWord(io.data, p, ws, k);
    v := io.R32();
  }

  method Next64(io: Stream, ghost p: nat, ghost ws: seq<u32>, ghost k: nat) returns (v: u64)
    requires AtWord(io, p, ws, k) && k + 1 < |ws|
    modifies io
    ensures io.data == old(io.data) && AtWord(io, p, ws, k + 2)
    ensures v == (ws[k] as int) * 0x1_0000_0000 + ws[k + 1] as int
  {
    hide AtWord;
    var hi := Next(io, p, ws, k);
    var lo := Next(io, p, ws, k + 1);
    v := (hi as int) * 0x1_0000_0000 + lo as int;
  }

  lemma VersionAndFlags(d: seq<byte>, p: nat)
    requires p + 4 <= |d|
    ensures d[p] == U32At(d, p) / 0x100_0000
    ensures (d[p + 1] as int) * 0x1_0000 + U16At(d, p + 2) as int == U32At(d, p) % 0x100_0000
  {
  }

  method Version(io: Stream, ghost p: nat, ghost ws: seq<u32>) returns (version: byte, flags: u32)
    requires AtWord(io, p, ws, 0) && |ws| > 0
    modifies io
    ensures io.data == old(io.data) && AtWord(io, p, ws, 1)
    ensures version == ws[0] / 0x100_0000 && flags == ws[0] % 0x100_0000
  {
    hide Words, U32At, U16At;
    HeldWord(io.data, p, ws, 0);
    VersionAndFlags(io.data, p);
    version := io.R8();
    flags := io.R24();
  }

  lemma Multiple(d: int, m: int)
    requires m > 0
    ensures d >= 1 ==> d * m >= m
    ensures d <= -1 ==> d * m <= -m
  {
    if d >= 1 {
      assert (d - 1) * m >= 0;
    } else if d <= -1 {
      assert (-1 - d) * m >= 0;
    }
  }

  lemma QuotientIs(x: int, m: int, k: int, r: int)
    requires x == k * m + r && 0 <= r < m
    ensures x / m == k
  {
    Multiple(x / m - k, m);
    assert (x / m - k) * m == x / m * m - k * m;
  }

  lemma Distribute(hi: nat, twice: nat, mask: nat, a: nat)
    requires mask * twice == 0x100_0000
    ensures (hi * twice + a) * mask == hi * 0x100_0000 + a * mask
  {
    assert (hi * twice + a) * mask == hi * twice * mask + a * mask;
    assert hi * twice * mask == hi * (twice * mask);
  }

  /** The version byte does not reach the flag bits. */
  lemma LowBit(w: u32, mask: nat, twice: nat)
    requires mask > 0 && twice % 2 == 0 && mask * twice == 0x100_0000
    ensures Bit(w % 0x100_0000, mask) == Bit(w, mask)
  {
    var hi, lo := w / 0x100_0000, w % 0x100_0000;
    var a, r := lo / mask, lo % mask;
    Distribute(hi, twice, mask, a);
    QuotientIs(w, mask, hi * twice + a, r);
    EvenTimes(hi, twice, a);
  }

  lemma EvenTimes(hi: nat, twice: nat, a: nat)
    requires twice % 2 == 0
    ensures (hi * twice + a) % 2 == a % 2
  {
    var e := hi * (twice / 2);
    assert hi * twice == 2 * e by {
      assert twice == 2 * (twice / 2);
      assert hi * (2 * (twice / 2)) == 2 * (hi * (twice / 2));
    }
    assert (2 * e + a) % 2 == a % 2;
  }

  method NextIf(io: Stream, b: bool, other: u32, ghost p: nat, ghost ws: seq<u32>, ghost k: nat) returns (v: u32)
    requires AtWord(io, p, ws, k) && k + One(b) <= |ws|
    modifies io
    ensures io.data == old(io.data) && AtWord(io, p, ws, k + One(b)) && v == if b then ws[k] else other
  {
    v := other;
    if b {
      v := Next(io, p, ws, k);
    }
  }

  /** mov_read_tfhd behind the track number. */
  method ReadHeader(io: Stream, flags: u32, trex: Defaults, moof: nat, implicit: nat, ghost p: nat, ghost ws: seq<u32>)
    returns (h: Header)
    requires SoundTfhd(ws) && AtWord(io, p, ws, 2) && flags == ws[0] % 0x100_0000
    modifies io
    ensures io.data == old(io.data) && AtWord(io, p, ws, |ws|) && h == HeaderIn(ws, trex, moof, implicit)
  {
    hide AtWord, Bit;
    HeaderBits(ws[0]);
    var base := implicit;
    if Bit(flags, TFHD_BASE_DATA_OFFSET) {
      base := Next64(io, p, ws, 2);
    } else if Bit(flags, TFHD_BASE_IS_MOOF) {
      base := moof;
    }
    ghost var a := 2 + 2 * One(Bit(flags, TFHD_BASE_DATA_OFFSET));
    var sdi := NextIf(io, Bit(flags, TFHD_SAMPLE_DESCRIPTION), trex.sdi, p, ws, a);
    ghost var b := a + One(Bit(flags, TFHD_SAMPLE_DESCRIPTION));
    var duration := NextIf(io, Bit(flags, TFHD_DEFAULT_DURATION), trex.duration, p, ws, b);
    ghost var c := b + One(Bit(flags, TFHD_DEFAULT_DURATION));
    var size := NextIf(io, Bit(flags, TFHD_DEFAULT_SIZE), trex.size, p, ws, c);
    ghost var d := c + One(Bit(flags, TFHD_DEFAULT_SIZE));
    var sampleFlags := NextIf(io, Bit(flags, TFHD_DEFAULT_FLAGS), trex.sampleFlags, p, ws, d);
    h := Header(flags, base, sdi, duration, size, sampleFlags);
  }

  lemma HeaderBits(w: u32)
    ensures Bit(w % 0x100_0000, TFHD_BASE_DATA_OFFSET) == Bit(w, TFHD_BASE_DATA_OFFSET)
    ensures Bit(w % 0x100_0000, TFHD_SAMPLE_DESCRIPTION) == Bit(w, TFHD_SAMPLE_DESCRIPTION)
    ensures Bit(w % 0x100_0000, TFHD_DEFAULT_DURATION) == Bit(w, TFHD_DEFAULT_DURATION)
    ensures Bit(w % 0x100_0000, TFHD_DEFAULT_SIZE) == Bit(w, TFHD_DEFAULT_SIZE)
    ensures Bit(w % 0x100_0000, TFHD_DEFAULT_FLAGS) == Bit(w, TFHD_DEFAULT_FLAGS)
    ensures Bit(w % 0x100_0000, TFHD_BASE_IS_MOOF) == Bit(w, TFHD_BASE_IS_MOOF)
  {
    hide Bit;
    LowBit(w, TFHD_BASE_DATA_OFFSET, 0x1000000);
    LowBit(w, TFHD_SAMPLE_DESCRIPTION, 0x800000);
    LowBit(w, TFHD_DEFAULT_DURATION, 0x200000);
    LowBit(w, TFHD_DEFAULT_SIZE, 0x100000);
    LowBit(w, TFHD_DEFAULT_FLAGS, 0x80000);
    LowBit(w, TFHD_BASE_IS_MOOF, 0x80);
  }

  /** The empty edits in front of a track: its media starts that much later. */
  function EmptyEdits(es: seq<Edit>, n: nat): int
    requires n <= |es|
  {
    if n == 0 then 0 else EmptyEdits(es, n - 1) + if es[n - 1].mediaTime == -1 then es[n - 1].duration else 0
  }

  /** mov_read_tfdt, including mov_apply_elst_tfdt. */
  method ReadTfdt(io: Stream, elst: seq<Edit>, ghost p: nat, ghost ws: seq<u32>) returns (dts: int)
    requires SoundTfdt(ws) && AtWord(io, p, ws, 0)
    modifies io
    ensures io.data == old(io.data) && AtWord(io, p, ws, |ws|)
    ensures dts == TimeIn(ws) + EmptyEdits(elst, |elst|)
  {
    hide AtWord;
    var version, _ := Version(io, p, ws);
    if version == 1 {
      var t := Next64(io, p, ws, 1);
      dts := ToI64(t);
    } else {
      dts := Next(io, p, ws, 1);
    }
    for i := 0 to |elst|
      invariant dts == TimeIn(ws) + EmptyEdits(elst, i)
    {
      if elst[i].mediaTime == -1 {
        dts := dts + elst[i].duration;
      }
    }
  }

  lemma RunBits(w: u32)
    ensures Bit(w % 0x100_0000, TRUN_DATA_OFFSET) == Bit(w, TRUN_DATA_OFFSET)
    ensures Bit(w % 0x100_0000, TRUN_FIRST_FLAGS) == Bit(w, TRUN_FIRST_FLAGS)
    ensures Bit(w % 0x100_0000, TRUN_DURATION) == Bit(w, TRUN_DURATION)
    ensures Bit(w % 0x100_0000, TRUN_SIZE) == Bit(w, TRUN_SIZE)
    ensures Bit(w % 0x100_0000, TRUN_FLAGS) == Bit(w, TRUN_FLAGS)
    ensures Bit(w % 0x100_0000, TRUN_COMPOSITION) == Bit(w, TRUN_COMPOSITION)
  {
    hide Bit;
    LowBit(w, TRUN_DATA_OFFSET, 0x1000000);
    LowBit(w, TRUN_FIRST_FLAGS, 0x400000);
    LowBit(w, TRUN_DURATION, 0x10000);
    LowBit(w, TRUN_SIZE, 0x8000);
    LowBit(w, TRUN_FLAGS, 0x4000);
    LowBit(w, TRUN_COMPOSITION, 0x2000);
  }

  lemma LengthOfRow(f: u32)
    ensures RowLength(f) == One(Bit(f, TRUN_DURATION)) + One(Bit(f, TRUN_SIZE)) + One(Bit(f, TRUN_FLAGS))
                            + One(Bit(f, TRUN_COMPOSITION))
  {
  }

  /** One row of the run: duration, size, flags and composition offset, present or not. */
  method ReadRow(io: Stream, version: byte, flags: u32, h: Header, firstFlags: u32, i: nat, ghost p: nat,
                 ghost ws: seq<u32>)
    returns (duration: u32, size: u32, sampleFlags: u32, shift: int)
    requires SoundTrun(ws) && i < ws[1] && AtWord(io, p, ws, RowStart(ws, i))
    requires version == ws[0] / 0x100_0000 && flags == ws[0] % 0x100_0000 && firstFlags == FirstFlagsIn(ws, h)
    modifies io
    ensures io.data == old(io.data) && AtWord(io, p, ws, RowStart(ws, i) + RowLength(ws[0]))
    ensures duration == DurationIn(ws, h, i) && size == SizeIn(ws, h, i)
    ensures sampleFlags == SampleFlagsIn(ws, h, i) && shift == ShiftIn(ws, i)
  {
    hide AtWord, Bit, RowStart, FirstFlagsIn, RowsStart, RowLength;
    LengthOfRow(ws[0]);
    RunBits(ws[0]);
    ghost var a := RowStart(ws, i);
    duration := NextIf(io, Bit(flags, TRUN_DURATION), h.duration, p, ws, a);
    ghost var b := a + One(Bit(flags, TRUN_DURATION));
    size := NextIf(io, Bit(flags, TRUN_SIZE), h.size, p, ws, b);
    ghost var c := b + One(Bit(flags, TRUN_SIZE));
    sampleFlags := NextIf(io, Bit(flags, TRUN_FLAGS), if i > 0 then h.sampleFlags else firstFlags, p, ws, c);
    ghost var d := c + One(Bit(flags, TRUN_FLAGS));
    shift := 0;
    if Bit(flags, TRUN_COMPOSITION) {
      var w := Next(io, p, ws, d);
      shift := if version == 1 then ToI32(w) else w;
    }
  }

  lemma RowsFollow(ws: seq<u32>, i: nat)
    requires SoundTrun(ws)
    ensures i < ws[1] ==> RowStart(ws, i) == RowsStart(ws[0]) + i * RowLength(ws[0])
    ensures (i + 1) * RowLength(ws[0]) == i * RowLength(ws[0]) + RowLength(ws[0])
    ensures 0 * RowLength(ws[0]) == 0 && |ws| == RowsStart(ws[0]) + (ws[1] as int) * RowLength(ws[0])
  {
  }

  /** What comes before the rows: number of samples, base of the data and flags of the first sample. */
  method ReadRunHead(io: Stream, h: Header, ghost p: nat, ghost ws: seq<u32>)
    returns (version: byte, flags: u32, count: u32, offset: nat, firstFlags: u32)
    requires SoundTrun(ws) && AtWord(io, p, ws, 0)
    modifies io
    ensures io.data == old(io.data) && AtWord(io, p, ws, RowsStart(ws[0]))
    ensures version == ws[0] / 0x100_0000 && flags == ws[0] % 0x100_0000 && count == ws[1]
    ensures offset == RunBase(ws, h) && firstFlags == FirstFlagsIn(ws, h)
  {
    hide AtWord, Bit;
    RunBits(ws[0]);
    HeadInside(ws);
    version, flags := Version(io, p, ws);
    count := Next(io, p, ws, 1);
    offset := h.base;
    if Bit(flags, TRUN_DATA_OFFSET) {
      var w := Next(io, p, ws, 2);
      offset := (offset + ToI32(w)) % 0x1_0000_0000_0000_0000;
    }
    firstFlags := NextIf(io, Bit(flags, TRUN_FIRST_FLAGS), h.flags, p, ws, 2 + One(Bit(flags, TRUN_DATA_OFFSET)));
  }

  /** mov_read_trun: the samples it appends, the time and the file position reached. */
  method ReadTrun(io: Stream, h: Header, dts: int, ghost p: nat, ghost ws: seq<u32>)
    returns (s: seq<Sample>, time: int, end: nat)
    requires SoundTrun(ws) && AtWord(io, p, ws, 0)
    modifies io
    ensures io.data == old(io.data) && AtWord(io, p, ws, |ws|)
    ensures s == SamplesIn(ws, h, dts, ws[1])
    ensures time == DtsIn(ws, h, dts, ws[1]) && end == OffsetIn(ws, h, ws[1])
  {
    hide AtWord, Bit, RowStart, FirstFlagsIn, RunBase, DurationIn, SizeIn, SampleFlagsIn, ShiftIn, RowsStart, RowLength;
    hide KeyFlags;
    var version, flags, count, offset, firstFlags := ReadRunHead(io, h, p, ws);
    s, time, end := [], dts, offset;
    var i: nat := 0;
    RowsFollow(ws, 0);
    while i < count
      invariant i <= count && io.data == old(io.data)
      invariant AtWord(io, p, ws, RowsStart(ws[0]) + i * RowLength(ws[0]))
      invariant s == SamplesIn(ws, h, dts, i) && time == DtsIn(ws, h, dts, i) && end == OffsetIn(ws, h, i)
    {
      RowsFollow(ws, i);
      var duration, size, sampleFlags, shift := ReadRow(io, version, flags, h, firstFlags, i, p, ws);
      s := s + [EMPTY_SAMPLE.(key := KeyFlags(sampleFlags), pts := time + shift, dts := time,
                              offset := end, bytes := size, sdi := h.sdi)];
      end := end + size;
      time := time + duration;
      i := i + 1;
    }
  }
}
