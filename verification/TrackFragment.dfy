/** mov-tfhd.c, mov-tfdt.c and mov-trun.c: the boxes of one track fragment, written and read. */
module TrackFragment {
  import opened Bytes
  import opened Samples
  import opened Stsz

  const TAG_TFHD: u32 := 0x74666864
  const TAG_TFDT: u32 := 0x74666474
  const TAG_TRUN: u32 := 0x7472756e

  const TFHD_BASE_DATA_OFFSET := 0x1
  const TFHD_SAMPLE_DESCRIPTION := 0x2
  const TFHD_DEFAULT_DURATION := 0x8
  const TFHD_DEFAULT_SIZE := 0x10
  const TFHD_DEFAULT_FLAGS := 0x20
  const TFHD_BASE_IS_MOOF := 0x2_0000

  const TRUN_DATA_OFFSET := 0x1
  const TRUN_FIRST_FLAGS := 0x4
  const TRUN_DURATION := 0x100
  const TRUN_SIZE := 0x200
  const TRUN_FLAGS := 0x400
  const TRUN_COMPOSITION := 0x800

  const NO_SYNC_SAMPLE := 0x1_0000
  const DEPENDS_ON_NOT_I := 0x100_0000
  const DEPENDS_ON_I: u32 := 0x200_0000

  /** Version and flags share the first word of a full box. */
  const VERSION_1 := 0x100_0000

  predicate Bit(flags: u32, mask: nat)
    requires mask > 0
  {
    flags / mask % 2 == 1
  }

  function One(b: bool): nat { if b then 1 else 0 }

  function If(b: bool, ws: seq<u32>): (r: seq<u32>)
    ensures |r| == if b then |ws| else 0
  {
    if b then ws else []
  }

  /** The C cast `(int64_t)v` of an unsigned 64-bit word. */
  function ToI64(v: u64): int { if v < 0x8000_0000_0000_0000 then v else v - 0x1_0000_0000_0000_0000 }

  // ---------- what the boxes say, as values ----------

  /** mov_tfhd_t. */
  datatype Header = Header(flags: u32, base: nat, sdi: u32, duration: u32, size: u32, sampleFlags: u32)

  /** mov_trex_t: what applies where tfhd is silent. */
  datatype Defaults = Defaults(sdi: u32, duration: u32, size: u32, sampleFlags: u32)

  /** One track's share of a fragment; `turn` is the last duration, `start` the first dts of all. */
  datatype Part = Part(id: u32, audio: bool, s: seq<Sample>, turn: int, start: int)

  // ---------- the writer's words, behind box size and tag ----------

  function TfhdWords(h: Header, id: u32): (ws: seq<u32>)
    requires h.flags < 0x100_0000 && h.base < TWO_64
    ensures |ws| <= 8
  {
    [h.flags, id]
    + If(Bit(h.flags, TFHD_BASE_DATA_OFFSET), [h.base / 0x1_0000_0000, h.base % 0x1_0000_0000])
    + If(Bit(h.flags, TFHD_SAMPLE_DESCRIPTION), [h.sdi])
    + If(Bit(h.flags, TFHD_DEFAULT_DURATION), [h.duration])
    + If(Bit(h.flags, TFHD_DEFAULT_SIZE), [h.size])
    + If(Bit(h.flags, TFHD_DEFAULT_FLAGS), [h.sampleFlags])
  }

  /** The cast to uint64_t; a time below 2^31 is written in 32 bits. */
  function TfdtWords(time: int): (ws: seq<u32>)
  {
    var t := time % 0x1_0000_0000_0000_0000;
    if t > 0x7fff_ffff then [VERSION_1, t / 0x1_0000_0000, t % 0x1_0000_0000] else [0, t]
  }

  /** The duration written for sample i: the gap to the next one, or the last duration seen. */
  function Gap(s: seq<Sample>, turn: int, i: nat): u32
    requires i < |s|
  {
    ToU32(if i + 1 < |s| then s[i + 1].dts - s[i].dts else turn)
  }

  function Shift(x: Sample): u32 { ToU32(x.pts - x.dts) }

  predicate GapsDiffer(s: seq<Sample>, turn: int, a: nat, b: nat, duration: u32)
    requires a <= b <= |s|
  {
    exists i :: a <= i < b && Gap(s, turn, i) != duration
  }

  predicate SizesDiffer(s: seq<Sample>, a: nat, b: nat, size: u32)
    requires a <= b <= |s|
  {
    exists i :: a <= i < b && s[i].bytes != size
  }

  predicate Shifted(s: seq<Sample>, a: nat, b: nat)
    requires a <= b <= |s|
  {
    exists i :: a <= i < b && s[i].pts != s[i].dts
  }

  function FlagsOf(first: bool, duration: bool, size: bool, composition: bool): (f: u32)
    ensures f < 0x100_0000
  {
    TRUN_DATA_OFFSET + (if first then TRUN_FIRST_FLAGS else 0) + (if duration then TRUN_DURATION else 0)
    + (if size then TRUN_SIZE else 0) + if composition then TRUN_COMPOSITION else 0
  }

  lemma FlagBits(first: bool, duration: bool, size: bool, composition: bool)
    ensures var f := FlagsOf(first, duration, size, composition);
            && Bit(f, TRUN_DATA_OFFSET) && (Bit(f, TRUN_FIRST_FLAGS) <==> first)
            && (Bit(f, TRUN_DURATION) <==> duration) && (Bit(f, TRUN_SIZE) <==> size)
            && !Bit(f, TRUN_FLAGS) && (Bit(f, TRUN_COMPOSITION) <==> composition)
  {
  }

  function TrunFlags(v: Part, h: Header, a: nat, b: nat): (f: u32)
    requires a < b <= |v.s|
    ensures f < 0x100_0000
  {
    FlagsOf(v.s[a].key, GapsDiffer(v.s, v.turn, a, b, h.duration), SizesDiffer(v.s, a, b, h.size), Shifted(v.s, a, b))
  }

  function RowWords(s: seq<Sample>, turn: int, flags: u32, i: nat): (ws: seq<u32>)
    requires i < |s|
    ensures |ws| == One(Bit(flags, TRUN_DURATION)) + One(Bit(flags, TRUN_SIZE)) + One(Bit(flags, TRUN_COMPOSITION))
  {
    If(Bit(flags, TRUN_DURATION), [Gap(s, turn, i)]) + If(Bit(flags, TRUN_SIZE), [s[i].bytes])
    + If(Bit(flags, TRUN_COMPOSITION), [Shift(s[i])])
  }

  /** The rows of the samples a..b. */
  function RowsWords(s: seq<Sample>, turn: int, flags: u32, a: nat, b: nat): seq<u32>
    requires a <= b <= |s|
  {
    if a == b then [] else RowsWords(s, turn, flags, a, b - 1) + RowWords(s, turn, flags, b - 1)
  }

  /** What trun says before its rows. */
  function RunHead(v: Part, flags: u32, a: nat, b: nat, moof: u32): seq<u32>
    requires a < b <= |v.s| && b - a < TWO_32 && flags < 0x100_0000
  {
    [VERSION_1 + flags as int, b - a, ToU32((moof as int) + v.s[a].offset)]
    + If(Bit(flags, TRUN_FIRST_FLAGS), [DEPENDS_ON_I])
  }

  /** One run over the samples a..b. */
  function TrunWords(v: Part, h: Header, a: nat, b: nat, moof: u32): seq<u32>
    requires a < b <= |v.s| && b - a < TWO_32
  {
    var flags := TrunFlags(v, h, a, b);
    RunHead(v, flags, a, b, moof) + RowsWords(v.s, v.turn, flags, a, b)
  }

  // ---------- the reader's view of the words ----------

  predicate SoundTfhd(ws: seq<u32>)
  {
    && |ws| >= 2
    && |ws| == 2 + 2 * One(Bit(ws[0], TFHD_BASE_DATA_OFFSET)) + One(Bit(ws[0], TFHD_SAMPLE_DESCRIPTION))
               + One(Bit(ws[0], TFHD_DEFAULT_DURATION)) + One(Bit(ws[0], TFHD_DEFAULT_SIZE))
               + One(Bit(ws[0], TFHD_DEFAULT_FLAGS))
  }

  function HeaderIn(ws: seq<u32>, trex: Defaults, moof: nat, implicit: nat): Header
    requires SoundTfhd(ws)
  {
    var f := ws[0];
    var a := 2 + 2 * One(Bit(f, TFHD_BASE_DATA_OFFSET));
    var b := a + One(Bit(f, TFHD_SAMPLE_DESCRIPTION));
    var c := b + One(Bit(f, TFHD_DEFAULT_DURATION));
    var d := c + One(Bit(f, TFHD_DEFAULT_SIZE));
    Header(f % 0x100_0000,
           if Bit(f, TFHD_BASE_DATA_OFFSET) then (ws[2] as int) * 0x1_0000_0000 + ws[3] as int
           else if Bit(f, TFHD_BASE_IS_MOOF) then moof
           else implicit,
           if Bit(f, TFHD_SAMPLE_DESCRIPTION) then ws[a] else trex.sdi,
           if Bit(f, TFHD_DEFAULT_DURATION) then ws[b] else trex.duration,
           if Bit(f, TFHD_DEFAULT_SIZE) then ws[c] else trex.size,
           if Bit(f, TFHD_DEFAULT_FLAGS) then ws[d] else trex.sampleFlags)
  }

  predicate SoundTfdt(ws: seq<u32>)
  {
    |ws| >= 2 && |ws| == if ws[0] / 0x100_0000 == 1 then 3 else 2
  }

  function TimeIn(ws: seq<u32>): int
    requires SoundTfdt(ws)
  {
    if ws[0] / 0x100_0000 == 1 then ToI64((ws[1] as int) * 0x1_0000_0000 + ws[2] as int) else ws[1]
  }

  function RowLength(f: u32): nat
  {
    One(Bit(f, TRUN_DURATION)) + One(Bit(f, TRUN_SIZE)) + One(Bit(f, TRUN_FLAGS)) + One(Bit(f, TRUN_COMPOSITION))
  }

  function RowsStart(f: u32): nat { 2 + One(Bit(f, TRUN_DATA_OFFSET)) + One(Bit(f, TRUN_FIRST_FLAGS)) }

  predicate SoundTrun(ws: seq<u32>)
  {
    |ws| >= 2 && |ws| == RowsStart(ws[0]) + (ws[1] as int) * RowLength(ws[0])
  }

  /** Where row i starts. */
  function RowStart(ws: seq<u32>, i: nat): (k: nat)
    requires SoundTrun(ws) && i < ws[1]
    ensures k + RowLength(ws[0]) <= |ws|
  {
    RowInside(i, ws[1], RowLength(ws[0]));
    RowsStart(ws[0]) + i * RowLength(ws[0])
  }

  lemma RowInside(i: nat, n: nat, r: nat)
    requires i < n
    ensures i * r + r <= n * r
  {
    assert (i + 1) * r <= n * r;
  }

  function DurationIn(ws: seq<u32>, h: Header, i: nat): u32
    requires SoundTrun(ws) && i < ws[1]
  {
    if Bit(ws[0], TRUN_DURATION) then ws[RowStart(ws, i)] else h.duration
  }

  function SizeIn(ws: seq<u32>, h: Header, i: nat): u32
    requires SoundTrun(ws) && i < ws[1]
  {
    if Bit(ws[0], TRUN_SIZE) then ws[RowStart(ws, i) + One(Bit(ws[0], TRUN_DURATION))] else h.size
  }

  /** Without first_sample_flags the source takes the flags of tfhd, not its default sample flags. */
  function FirstFlagsIn(ws: seq<u32>, h: Header): u32
    requires SoundTrun(ws)
  {
    if Bit(ws[0], TRUN_FIRST_FLAGS)
    then HeadInside(ws); ws[2 + One(Bit(ws[0], TRUN_DATA_OFFSET))]
    else h.flags
  }

  lemma HeadInside(ws: seq<u32>)
    requires SoundTrun(ws)
    ensures RowsStart(ws[0]) <= |ws|
  {
    assert (ws[1] as int) * RowLength(ws[0]) >= 0;
  }

  function SampleFlagsIn(ws: seq<u32>, h: Header, i: nat): u32
    requires SoundTrun(ws) && i < ws[1]
  {
    if Bit(ws[0], TRUN_FLAGS)
    then ws[RowStart(ws, i) + One(Bit(ws[0], TRUN_DURATION)) + One(Bit(ws[0], TRUN_SIZE))]
    else if i > 0 then h.sampleFlags
    else FirstFlagsIn(ws, h)
  }

  function ShiftIn(ws: seq<u32>, i: nat): int
    requires SoundTrun(ws) && i < ws[1]
  {
    if Bit(ws[0], TRUN_COMPOSITION)
    then var w := ws[RowStart(ws, i) + RowLength(ws[0]) - 1]; if ws[0] / 0x100_0000 == 1 then ToI32(w) else w
    else 0
  }

  predicate KeyFlags(f: u32) { !Bit(f, NO_SYNC_SAMPLE) && !Bit(f, DEPENDS_ON_NOT_I) }

  /** uint64_t data_offset after adding the signed 32-bit offset of the run. */
  function RunBase(ws: seq<u32>, h: Header): nat
    requires SoundTrun(ws)
  {
    if Bit(ws[0], TRUN_DATA_OFFSET)
    then HeadInside(ws); (h.base + ToI32(ws[2])) % 0x1_0000_0000_0000_0000
    else h.base
  }

  function OffsetIn(ws: seq<u32>, h: Header, n: nat): nat
    requires SoundTrun(ws) && n <= ws[1]
  {
    if n == 0 then RunBase(ws, h) else OffsetIn(ws, h, n - 1) + SizeIn(ws, h, n - 1)
  }

  function DtsIn(ws: seq<u32>, h: Header, dts: int, n: nat): int
    requires SoundTrun(ws) && n <= ws[1]
  {
    if n == 0 then dts else DtsIn(ws, h, dts, n - 1) + DurationIn(ws, h, n - 1)
  }

  /** Sample i of a run, when the track has reached `dts` before the run. */
  function SampleIn(ws: seq<u32>, h: Header, dts: int, i: nat): Sample
    requires SoundTrun(ws) && i < ws[1]
  {
    var t := DtsIn(ws, h, dts, i);
    EMPTY_SAMPLE.(key := KeyFlags(SampleFlagsIn(ws, h, i)), pts := t + ShiftIn(ws, i), dts := t,
      offset := OffsetIn(ws, h, i), bytes := SizeIn(ws, h, i), sdi := h.sdi)
  }

  function SamplesIn(ws: seq<u32>, h: Header, dts: int, n: nat): (s: seq<Sample>)
    requires SoundTrun(ws) && n <= ws[1]
    ensures |s| == n && forall i :: 0 <= i < n ==> s[i] == SampleIn(ws, h, dts, i)
  {
    if n == 0 then [] else SamplesIn(ws, h, dts, n - 1) + [SampleIn(ws, h, dts, n - 1)]
  }
}
