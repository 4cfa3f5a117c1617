/** What the boxes of a track fragment say when they are read back. */
module TrackFragmentRoundTrip {
  import opened Bytes
  import opened Samples
  import opened TrackFragment
  import opened TrackFragmentReader

  /** Present fields come back; absent ones take the track's defaults. */
  lemma HeaderReadsBack(h: Header, id: u32, trex: Defaults, moof: nat, implicit: nat)
    requires h.flags < 0x100_0000 && h.base < TWO_64
    ensures var ws := TfhdWords(h, id);
            && SoundTfhd(ws) && ws[1] == id
            && HeaderIn(ws, trex, moof, implicit)
               == Header(h.flags,
                         if Bit(h.flags, TFHD_BASE_DATA_OFFSET) then h.base
                         else if Bit(h.flags, TFHD_BASE_IS_MOOF) then moof else implicit,
                         if Bit(h.flags, TFHD_SAMPLE_DESCRIPTION) then h.sdi else trex.sdi,
                         if Bit(h.flags, TFHD_DEFAULT_DURATION) then h.duration else trex.duration,
                         if Bit(h.flags, TFHD_DEFAULT_SIZE) then h.size else trex.size,
                         if Bit(h.flags, TFHD_DEFAULT_FLAGS) then h.sampleFlags else trex.sampleFlags)
  {
    hide Bit;
    var f := h.flags;
    var start := [f, id] + If(Bit(f, TFHD_BASE_DATA_OFFSET), [h.base / 0x1_0000_0000, h.base % 0x1_0000_0000]);
    var w2, w3 := If(Bit(f, TFHD_SAMPLE_DESCRIPTION), [h.sdi]), If(Bit(f, TFHD_DEFAULT_DURATION), [h.duration]);
    var w4, w5 := If(Bit(f, TFHD_DEFAULT_SIZE), [h.size]), If(Bit(f, TFHD_DEFAULT_FLAGS), [h.sampleFlags]);
    FourFields(start, Bit(f, TFHD_SAMPLE_DESCRIPTION), h.sdi, Bit(f, TFHD_DEFAULT_DURATION), h.duration,
               Bit(f, TFHD_DEFAULT_SIZE), h.size, Bit(f, TFHD_DEFAULT_FLAGS), h.sampleFlags);
    assert TfhdWords(h, id) == start + w2 + w3 + w4 + w5;
  }

  lemma FourFields(w: seq<u32>, b: bool, x: u32, c: bool, y: u32, d: bool, z: u32, e: bool, u: u32)
    ensures var ws := w + If(b, [x]) + If(c, [y]) + If(d, [z]) + If(e, [u]); var k := |w|;
            && |ws| == k + One(b) + One(c) + One(d) + One(e) && ws[..k] == w
            && (b ==> ws[k] == x) && (c ==> ws[k + One(b)] == y) && (d ==> ws[k + One(b) + One(c)] == z)
            && (e ==> ws[k + One(b) + One(c) + One(d)] == u)
  {
  }

  /** Every decode time of a signed 64-bit clock comes back, before the first sample's too. */
  lemma TimeReadsBack(time: int)
    requires -TWO_63 <= time < TWO_63
    ensures SoundTfdt(TfdtWords(time)) && TimeIn(TfdtWords(time)) == time
    ensures |TfdtWords(time)| == if 0 <= time < TWO_31 then 2 else 3
  {
  }

  // ---------- trun ----------

  lemma RunBitsAre(flags: u32)
    requires flags < 0x100_0000
    ensures var w := VERSION_1 + flags as int;
            && w / 0x100_0000 == 1
            && Bit(w, TRUN_DATA_OFFSET) == Bit(flags, TRUN_DATA_OFFSET)
            && Bit(w, TRUN_FIRST_FLAGS) == Bit(flags, TRUN_FIRST_FLAGS)
            && Bit(w, TRUN_DURATION) == Bit(flags, TRUN_DURATION) && Bit(w, TRUN_SIZE) == Bit(flags, TRUN_SIZE)
            && Bit(w, TRUN_FLAGS) == Bit(flags, TRUN_FLAGS) && Bit(w, TRUN_COMPOSITION) == Bit(flags, TRUN_COMPOSITION)
  {
    hide Bit;
    RunBits(VERSION_1 + flags as int);
  }

  lemma {:induction false} RowsLength(s: seq<Sample>, turn: int, flags: u32, a: nat, b: nat)
    requires a <= b <= |s| && !Bit(flags, TRUN_FLAGS)
    ensures |RowsWords(s, turn, flags, a, b)| == (b - a) * RowLength(flags)
  {
    hide Bit, RowWords;
    if a < b {
      RowsLength(s, turn, flags, a, b - 1);
      assert (b - a) * RowLength(flags) == (b - 1 - a) * RowLength(flags) + RowLength(flags);
    }
  }

  lemma SliceOfConcat<T>(x: seq<T>, y: seq<T>, k: nat, r: nat)
    ensures k == |x| && r == |y| ==> (x + y)[k..k + r] == y
    ensures k + r <= |x| ==> (x + y)[k..k + r] == x[k..k + r]
  {
  }

  lemma RowsGrow(s: seq<Sample>, turn: int, flags: u32, a: nat, b: nat)
    requires a < b <= |s| && !Bit(flags, TRUN_FLAGS)
    ensures var before, row := RowsWords(s, turn, flags, a, b - 1), RowWords(s, turn, flags, b - 1);
            RowsWords(s, turn, flags, a, b) == before + row && |before| == (b - 1 - a) * RowLength(flags) && |row| == RowLength(flags)
  {
    hide RowWords, Bit;
    RowsLength(s, turn, flags, a, b - 1);
    LengthOfRow(flags);
  }

  /** Row i of the run is the row of sample a + i. */
  lemma {:induction false} RowAt(s: seq<Sample>, turn: int, flags: u32, a: nat, b: nat, i: nat)
    requires a + i < b <= |s| && !Bit(flags, TRUN_FLAGS)
    ensures var k, rows := i * RowLength(flags), RowsWords(s, turn, flags, a, b);
            k + RowLength(flags) <= |rows| && rows[k..k + RowLength(flags)] == RowWords(s, turn, flags, a + i)
  {
    hide Bit, RowWords, RowLength, RowsWords;
    RowsGrow(s, turn, flags, a, b);
    var before, row := RowsWords(s, turn, flags, a, b - 1), RowWords(s, turn, flags, b - 1);
    if i == b - 1 - a {
      SliceOfConcat(before, row, i * RowLength(flags), RowLength(flags));
    } else {
      RowAt(s, turn, flags, a, b - 1, i);
      SliceOfConcat(before, row, i * RowLength(flags), RowLength(flags));
    }
  }

  /** The run is well formed, and its row i starts with the words of sample a + i. */
  lemma RunIsSound(v: Part, h: Header, a: nat, b: nat, moof: u32)
    requires a < b <= |v.s| && b - a < TWO_32
    ensures var ws, f := TrunWords(v, h, a, b, moof), TrunFlags(v, h, a, b);
            SoundTrun(ws) && ws[1] == b - a && ws[0] == VERSION_1 + f as int
  {
    hide Bit, FlagsOf, RowsWords;
    var f := TrunFlags(v, h, a, b);
    RunBitsAre(f);
    FlagBits(v.s[a].key, GapsDiffer(v.s, v.turn, a, b, h.duration), SizesDiffer(v.s, a, b, h.size), Shifted(v.s, a, b));
    RowsLength(v.s, v.turn, f, a, b);
  }

  lemma SliceBehind(a: seq<u32>, b: seq<u32>, o: nat, n: nat)
    requires o + n <= |b|
    ensures (a + b)[|a| + o..|a| + o + n] == b[o..o + n]
  {
  }

  lemma RowReads(v: Part, h: Header, a: nat, b: nat, moof: u32, i: nat)
    requires a + i < b <= |v.s| && b - a < TWO_32
    requires SoundTrun(TrunWords(v, h, a, b, moof)) && TrunWords(v, h, a, b, moof)[1] == b - a
    ensures var ws, f := TrunWords(v, h, a, b, moof), TrunFlags(v, h, a, b);
            var k := RowStart(ws, i);
            && RowLength(ws[0]) == RowLength(f)
            && ws[k..k + RowLength(ws[0])]
               == If(Bit(f, TRUN_DURATION), [Gap(v.s, v.turn, a + i)]) + If(Bit(f, TRUN_SIZE), [v.s[a + i].bytes])
                  + If(Bit(f, TRUN_COMPOSITION), [Shift(v.s[a + i])])
  {
    hide Bit, FlagsOf, RowsWords, RowLength, TrunFlags, Gap, Shift, If;
    var ws, f := TrunWords(v, h, a, b, moof), TrunFlags(v, h, a, b);
    RunFlagsAre(v, h, a, b);
    RunBitsAre(f);
    LengthOfRow(f);
    LengthOfRow(ws[0]);
    RowAt(v.s, v.turn, f, a, b, i);
    RowsFollow(ws, i);
    var head, rows, m := RunHead(v, f, a, b, moof), RowsWords(v.s, v.turn, f, a, b), i * RowLength(f);
    assert ws == head + rows && |head| == RowsStart(ws[0]);
    SliceBehind(head, rows, m, RowLength(f));
  }

  lemma RunFlagsAre(v: Part, h: Header, a: nat, b: nat)
    requires a < b <= |v.s|
    ensures var f := TrunFlags(v, h, a, b);
            && Bit(f, TRUN_DATA_OFFSET) && (Bit(f, TRUN_FIRST_FLAGS) <==> v.s[a].key) && !Bit(f, TRUN_FLAGS)
            && (Bit(f, TRUN_DURATION) <==> GapsDiffer(v.s, v.turn, a, b, h.duration))
            && (Bit(f, TRUN_SIZE) <==> SizesDiffer(v.s, a, b, h.size))
            && (Bit(f, TRUN_COMPOSITION) <==> Shifted(v.s, a, b))
  {
    hide Bit;
    FlagBits(v.s[a].key, GapsDiffer(v.s, v.turn, a, b, h.duration), SizesDiffer(v.s, a, b, h.size), Shifted(v.s, a, b));
  }

  lemma RowFields(w: seq<u32>, k: nat, r: nat, x: bool, g: u32, y: bool, n: u32, z: bool, c: u32)
    requires k + r <= |w| && w[k..k + r] == If(x, [g]) + If(y, [n]) + If(z, [c])
    ensures x ==> r > 0 && w[k] == g
    ensures y ==> r > One(x) && w[k + One(x)] == n
    ensures z ==> r > 0 && w[k + r - 1] == c
  {
    var u := If(x, [g]) + If(y, [n]) + If(z, [c]);
    assert |u| == r == One(x) + One(y) + One(z);
    assert forall j :: 0 <= j < r ==> w[k + j] == u[j];
    assert x ==> u[0] == g;
    assert y ==> u[One(x)] == n;
    assert z ==> u[r - 1] == c;
  }

  /** A column is left out only when every row agrees with the default. */
  lemma AllAlike(v: Part, h: Header, a: nat, b: nat, i: nat)
    requires a <= i < b <= |v.s|
    ensures !GapsDiffer(v.s, v.turn, a, b, h.duration) ==> Gap(v.s, v.turn, i) == h.duration
    ensures !SizesDiffer(v.s, a, b, h.size) ==> v.s[i].bytes == h.size
    ensures !Shifted(v.s, a, b) ==> ToI32(Shift(v.s[i])) == 0
  {
    hide Gap;
  }

  /** What the reader takes from a row of these fields; what is absent it takes from the header `h`. */
  lemma RowSays(ws: seq<u32>, h: Header, i: nat, x: bool, g: u32, y: bool, n: u32, z: bool, c: u32)
    requires SoundTrun(ws) && i < ws[1] && ws[0] / 0x100_0000 == 1
    requires Bit(ws[0], TRUN_DURATION) == x && Bit(ws[0], TRUN_SIZE) == y && Bit(ws[0], TRUN_COMPOSITION) == z
    requires ws[RowStart(ws, i)..RowStart(ws, i) + RowLength(ws[0])] == If(x, [g]) + If(y, [n]) + If(z, [c])
    ensures DurationIn(ws, h, i) == if x then g else h.duration
    ensures SizeIn(ws, h, i) == if y then n else h.size
    ensures ShiftIn(ws, i) == if z then ToI32(c) else 0
  {
    hide Bit, RowLength, RowStart, If, ToI32;
    RowFields(ws, RowStart(ws, i), RowLength(ws[0]), x, g, y, n, z, c);
  }

  /** `h'` is any header that agrees with the writer's on the defaults of duration and size. */
  lemma RowReadsBack(v: Part, h: Header, h': Header, a: nat, b: nat, moof: u32, i: nat)
    requires a + i < b <= |v.s| && b - a < TWO_32 && h'.duration == h.duration && h'.size == h.size
    ensures var ws, x := TrunWords(v, h, a, b, moof), v.s[a + i];
            && SoundTrun(ws) && ws[1] == b - a
            && DurationIn(ws, h', i) == Gap(v.s, v.turn, a + i) && SizeIn(ws, h', i) == x.bytes
            && ShiftIn(ws, i) == ToI32(Shift(x))
  {
    hide Bit, FlagsOf, RowLength, TrunFlags, RowStart, TrunWords, Gap, GapsDiffer, SizesDiffer, Shifted;
    hide SoundTrun, DurationIn, SizeIn, ShiftIn, If;
    RunIsSound(v, h, a, b, moof);
    var ws, f, x := TrunWords(v, h, a, b, moof), TrunFlags(v, h, a, b), v.s[a + i];
    RunFlagsAre(v, h, a, b);
    RunBitsAre(f);
    AllAlike(v, h, a, b, a + i);
    RowReads(v, h, a, b, moof, i);
    RowSays(ws, h', i, Bit(f, TRUN_DURATION), Gap(v.s, v.turn, a + i), Bit(f, TRUN_SIZE), x.bytes,
            Bit(f, TRUN_COMPOSITION), Shift(x));
  }

  // ---------- runs that others write ----------

  datatype Row = Row(duration: u32, size: u32, flags: u32, shift: u32)

  /** The columns that the word of version and flags announces, in their order. */
  function RowOf(w: u32, r: Row): (ws: seq<u32>)
    ensures |ws| == RowLength(w)
  {
    If(Bit(w, TRUN_DURATION), [r.duration]) + If(Bit(w, TRUN_SIZE), [r.size]) + If(Bit(w, TRUN_FLAGS), [r.flags])
    + If(Bit(w, TRUN_COMPOSITION), [r.shift])
  }

  function RowsOf(w: u32, rows: seq<Row>, n: nat): seq<u32>
    requires n <= |rows|
  {
    if n == 0 then [] else RowsOf(w, rows, n - 1) + RowOf(w, rows[n - 1])
  }

  /** Any run: what stands in front of its rows, and the rows. */
  function AnyRun(w: u32, offset: u32, first: u32, rows: seq<Row>): seq<u32>
    requires |rows| < TWO_32
  {
    AnyHead(w, offset, first, |rows|) + RowsOf(w, rows, |rows|)
  }

  function AnyHead(w: u32, offset: u32, first: u32, n: u32): (ws: seq<u32>)
    ensures |ws| == RowsStart(w)
  {
    [w, n] + If(Bit(w, TRUN_DATA_OFFSET), [offset]) + If(Bit(w, TRUN_FIRST_FLAGS), [first])
  }

  lemma {:induction false} RowsOfLength(w: u32, rows: seq<Row>, n: nat)
    requires n <= |rows|
    ensures |RowsOf(w, rows, n)| == n * RowLength(w)
  {
    hide RowLength, RowOf;
    if n > 0 {
      RowsOfLength(w, rows, n - 1);
      assert n * RowLength(w) == (n - 1) * RowLength(w) + RowLength(w);
    }
  }

  lemma {:induction false} RowOfAt(w: u32, rows: seq<Row>, n: nat, i: nat)
    requires i < n <= |rows|
    ensures var k, ws := i * RowLength(w), RowsOf(w, rows, n);
            k + RowLength(w) <= |ws| && ws[k..k + RowLength(w)] == RowOf(w, rows[i])
  {
    hide RowLength, RowOf;
    RowsOfLength(w, rows, n - 1);
    var before, row := RowsOf(w, rows, n - 1), RowOf(w, rows[n - 1]);
    if i < n - 1 {
      RowOfAt(w, rows, n - 1, i);
    }
    SliceOfConcat(before, row, i * RowLength(w), RowLength(w));
  }

  lemma AnyRunSound(w: u32, offset: u32, first: u32, rows: seq<Row>, i: nat)
    requires i < |rows| < TWO_32
    ensures var ws := AnyRun(w, offset, first, rows);
            && SoundTrun(ws) && ws[0] == w && ws[1] == |rows|
            && RowStart(ws, i) + RowLength(w) <= |ws|
            && ws[RowStart(ws, i)..RowStart(ws, i) + RowLength(w)] == RowOf(w, rows[i])
            && ws[..RowsStart(w)] == AnyHead(w, offset, first, |rows|)
  {
    hide RowLength, RowOf, RowsOf, RowStart, RowsStart;
    var ws, head, body := AnyRun(w, offset, first, rows), AnyHead(w, offset, first, |rows|), RowsOf(w, rows, |rows|);
    RowsOfLength(w, rows, |rows|);
    RowOfAt(w, rows, |rows|, i);
    assert ws == head + body && ws[0] == w && ws[1] == |rows|;
    RowsFollow(ws, i);
    SliceBehind(head, body, i * RowLength(w), RowLength(w));
  }

  lemma FourColumns(w: seq<u32>, k: nat, r: nat, x: bool, g: u32, y: bool, n: u32, u: bool, f: u32, z: bool, c: u32)
    requires k + r <= |w| && w[k..k + r] == If(x, [g]) + If(y, [n]) + If(u, [f]) + If(z, [c])
    ensures x ==> r > 0 && w[k] == g
    ensures y ==> r > One(x) && w[k + One(x)] == n
    ensures u ==> r > One(x) + One(y) && w[k + One(x) + One(y)] == f
    ensures z ==> r > 0 && w[k + r - 1] == c
  {
    var v := If(x, [g]) + If(y, [n]) + If(u, [f]) + If(z, [c]);
    assert |v| == r == One(x) + One(y) + One(u) + One(z);
    assert forall j :: 0 <= j < r ==> w[k + j] == v[j];
    assert x ==> v[0] == g;
    assert y ==> v[One(x)] == n;
    assert u ==> v[One(x) + One(y)] == f;
    assert z ==> v[r - 1] == c;
  }

  /**
   * Whatever columns a run announces, in version 0 or 1, the reader finds each of them in its place, and takes the
   * defaults for the others; without flags for the first sample it takes those of tfhd itself.
   */
  lemma AnyRunReads(w: u32, offset: u32, first: u32, rows: seq<Row>, h: Header, i: nat)
    requires i < |rows| < TWO_32
    ensures var ws, r := AnyRun(w, offset, first, rows), rows[i];
            && SoundTrun(ws) && ws[1] == |rows|
            && DurationIn(ws, h, i) == (if Bit(w, TRUN_DURATION) then r.duration else h.duration)
            && SizeIn(ws, h, i) == (if Bit(w, TRUN_SIZE) then r.size else h.size)
            && SampleFlagsIn(ws, h, i) == (if Bit(w, TRUN_FLAGS) then r.flags else if i > 0 then h.sampleFlags
                                           else if Bit(w, TRUN_FIRST_FLAGS) then first else h.flags)
            && ShiftIn(ws, i) == (if !Bit(w, TRUN_COMPOSITION) then 0
                                  else if w / 0x100_0000 == 1 && r.shift >= 0x8000_0000 then r.shift as int - 0x1_0000_0000
                                  else r.shift)
  {
    hide RowLength, RowStart, RowsStart, SoundTrun, Bit;
    AnyRunSound(w, offset, first, rows, i);
    var ws, r := AnyRun(w, offset, first, rows), rows[i];
    FourColumns(ws, RowStart(ws, i), RowLength(w), Bit(w, TRUN_DURATION), r.duration, Bit(w, TRUN_SIZE), r.size,
                Bit(w, TRUN_FLAGS), r.flags, Bit(w, TRUN_COMPOSITION), r.shift);
    HeadWords(ws, w, offset, first, |rows|, h);
  }

  lemma HeadWords(ws: seq<u32>, w: u32, offset: u32, first: u32, n: u32, h: Header)
    requires SoundTrun(ws) && ws[0] == w && RowsStart(w) <= |ws| && ws[..RowsStart(w)] == AnyHead(w, offset, first, n)
    ensures FirstFlagsIn(ws, h) == if Bit(w, TRUN_FIRST_FLAGS) then first else h.flags
    ensures RunBase(ws, h) == if !Bit(w, TRUN_DATA_OFFSET) then h.base
                              else (h.base + if offset < 0x8000_0000 then offset as int else offset as int - 0x1_0000_0000) % 0x1_0000_0000_0000_0000
  {
    hide Bit, RowLength;
    var head := AnyHead(w, offset, first, n);
    assert forall j :: 0 <= j < RowsStart(w) ==> ws[j] == head[j];
    HeadInside(ws);
  }

  /** Where the reader puts the run: the signed reading of the 32-bit data offset. */
  lemma BaseReadsBack(v: Part, h: Header, h': Header, a: nat, b: nat, moof: u32)
    requires a < b <= |v.s| && b - a < TWO_32
    ensures var ws := TrunWords(v, h, a, b, moof);
            && SoundTrun(ws)
            && RunBase(ws, h') == (h'.base + ToI32(ToU32((moof as int) + v.s[a].offset))) % 0x1_0000_0000_0000_0000
  {
    hide Bit, FlagsOf, RowsWords, TrunFlags, SoundTrun;
    RunIsSound(v, h, a, b, moof);
    RunFlagsAre(v, h, a, b);
    RunBitsAre(TrunFlags(v, h, a, b));
    HeadInside(TrunWords(v, h, a, b, moof));
  }

  /** The sum of the gaps the run states for the samples a..b. */
  function GapSum(s: seq<Sample>, turn: int, a: nat, b: nat): nat
    requires a <= b <= |s|
  {
    if a == b then 0 else GapSum(s, turn, a, b - 1) + Gap(s, turn, b - 1)
  }

  lemma {:induction false} RunningSums(v: Part, h: Header, h': Header, dts: int, a: nat, b: nat, moof: u32, n: nat)
    requires a + n <= b <= |v.s| && a < b && b - a < TWO_32 && h'.duration == h.duration && h'.size == h.size
    ensures var ws := TrunWords(v, h, a, b, moof);
            && SoundTrun(ws) && ws[1] == b - a
            && DtsIn(ws, h', dts, n) == dts + GapSum(v.s, v.turn, a, a + n)
            && OffsetIn(ws, h', n) == RunBase(ws, h') + ByteSum(v.s, a, a + n)
  {
    hide TrunWords, SoundTrun, Gap, DurationIn, SizeIn, RunBase;
    if n == 0 {
      RunIsSound(v, h, a, b, moof);
    } else {
      RunningSums(v, h, h', dts, a, b, moof, n - 1);
      RowReadsBack(v, h, h', a, b, moof, n - 1);
    }
  }

  lemma {:induction false} GapsAddUp(s: seq<Sample>, turn: int, b: nat)
    requires b < |s| && forall i :: 0 < i <= b ==> 0 <= s[i].dts - s[i - 1].dts < TWO_32
    ensures GapSum(s, turn, 0, b) == s[b].dts - s[0].dts
  {
    if b > 0 {
      GapsAddUp(s, turn, b - 1);
    }
  }

  lemma GapStep(s: seq<Sample>, turn: int, i: nat)
    requires 0 < i < |s|
    ensures GapSum(s, turn, 0, i) == GapSum(s, turn, 0, i - 1) + Gap(s, turn, i - 1)
    ensures Gap(s, turn, i - 1) == s[i].dts - s[i - 1].dts <==> 0 <= s[i].dts - s[i - 1].dts < TWO_32
  {
  }

  /** The times the gaps add up to are the real ones exactly when every gap is a 32-bit duration. */
  lemma GapsAddUpIff(s: seq<Sample>, turn: int, b: nat)
    requires b < |s|
    ensures (forall i :: 0 <= i <= b ==> GapSum(s, turn, 0, i) == s[i].dts - s[0].dts)
            <==> forall i :: 0 < i <= b ==> 0 <= s[i].dts - s[i - 1].dts < TWO_32
  {
    hide GapSum, Gap;
    if forall i :: 0 < i <= b ==> 0 <= s[i].dts - s[i - 1].dts < TWO_32 {
      forall i | 0 <= i <= b
        ensures GapSum(s, turn, 0, i) == s[i].dts - s[0].dts
      {
        GapsAddUp(s, turn, i);
      }
    }
    if forall i :: 0 <= i <= b ==> GapSum(s, turn, 0, i) == s[i].dts - s[0].dts {
      forall i | 0 < i <= b
        ensures 0 <= s[i].dts - s[i - 1].dts < TWO_32
      {
        GapStep(s, turn, i);
        assert GapSum(s, turn, 0, i - 1) == s[i - 1].dts - s[0].dts;
      }
    }
  }

  lemma ShiftReadsBackIff(x: Sample)
    ensures ToI32(Shift(x)) == x.pts - x.dts <==> -TWO_31 <= x.pts - x.dts < TWO_31
  {
  }
}
