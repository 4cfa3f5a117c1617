/** When a sample that went through a fragment comes back as it was handed over. */
module FragmentFidelity {
  import opened Bytes
  import opened Samples
  import opened Boxes
  import opened TrackFragment
  import opened TrackFragmentRoundTrip
  import opened TrackReader
  import opened MoofWriter
  import opened Moof
  import opened FragmentWriter
  import opened Fmp4Writer
  import opened FragmentReader
  import opened FragmentPlayback

  /** Sample i of a part, as the reader of its traf hears it; the fragment starts at time `time`. */
  ghost function HeardSample(v: Part, at: nat, moof: u32, time: int, i: nat): Sample
    requires i < |v.s| < TWO_32
  {
    SampleIn(RunOf(v, at, moof), HeaderFor(v, at), time, i)
  }

  /** Where the reader believes the track's data starts. */
  function HeardBase(v: Part, at: nat, moof: u32): nat
    requires |v.s| > 0
  {
    (at + ToI32(ToU32((moof as int) + v.s[0].offset))) % 0x1_0000_0000_0000_0000
  }

  lemma SampleHeard(v: Part, at: nat, moof: u32, time: int, i: nat)
    requires i < |v.s| < TWO_32
    ensures var x := HeardSample(v, at, moof, time, i);
            && x.bytes == v.s[i].bytes && x.sdi == 1
            && x.dts == time + GapSum(v.s, v.turn, 0, i)
            && x.pts == x.dts + ToI32(Shift(v.s[i]))
            && x.offset == HeardBase(v, at, moof) + ByteSum(v.s, 0, i)
  {
    hide TrunWords, SoundTrun, SampleFlagsIn, DtsIn, OffsetIn, RunBase, SizeIn, ShiftIn, KeyFlags, Gap, GapSum, ByteSum;
    var h, n := HeaderFor(v, at), |v.s|;
    RowReadsBack(v, h, h, 0, n, moof, i);
    RunningSums(v, h, h, time, 0, n, moof, i);
    BaseReadsBack(v, h, h, 0, n, moof);
  }

  /** The samples' distances in time come back exactly when every gap is a 32-bit duration. */
  lemma TimesSurviveIff(v: Part, at: nat, moof: u32, time: int)
    requires 0 < |v.s| < TWO_32
    ensures (forall i :: 0 <= i < |v.s| ==> HeardSample(v, at, moof, time, i).dts == time + v.s[i].dts - v.s[0].dts)
            <==> forall i :: 0 < i < |v.s| ==> 0 <= v.s[i].dts - v.s[i - 1].dts < TWO_32
  {
    hide HeardSample, GapSum, Gap;
    forall i | 0 <= i < |v.s|
      ensures HeardSample(v, at, moof, time, i).dts == time + GapSum(v.s, v.turn, 0, i)
    {
      SampleHeard(v, at, moof, time, i);
    }
    GapsAddUpIff(v.s, v.turn, |v.s| - 1);
    if forall i :: 0 <= i < |v.s| ==> HeardSample(v, at, moof, time, i).dts == time + v.s[i].dts - v.s[0].dts {
      forall i | 0 <= i <= |v.s| - 1
        ensures GapSum(v.s, v.turn, 0, i) == v.s[i].dts - v.s[0].dts
      {
        assert HeardSample(v, at, moof, time, i).dts == time + GapSum(v.s, v.turn, 0, i);
      }
    }
  }

  /** Behind the last sample of a part, the reader's clock stands one last duration further on. */
  lemma ClockEnds(v: Part, at: nat, moof: u32, time: int)
    requires 0 < |v.s| < TWO_32 && forall i :: 0 < i < |v.s| ==> 0 <= v.s[i].dts - v.s[i - 1].dts < TWO_32
    ensures DtsIn(RunOf(v, at, moof), HeaderFor(v, at), time, |v.s|)
      == time + v.s[|v.s| - 1].dts - v.s[0].dts + ToU32(v.turn)
  {
    hide TrunWords, SoundTrun, DtsIn, OffsetIn, HeaderFor, GapSum, Gap, ByteSum, RunBase;
    var h, n := HeaderFor(v, at), |v.s|;
    RunningSums(v, h, h, time, 0, n, moof, n);
    GapsAddUpIff(v.s, v.turn, n - 1);
    LastGap(v.s, v.turn);
  }

  /** The pending part of track j, as it goes into a fragment when dts is written to `track`. */
  ghost function SentPart(w: Fmp4Writer, track: nat, dts: int, j: nat): (v: Part)
    requires track < |w.parts| && track < |w.tracks| && j < |w.parts|
    reads w, w.tracks
    ensures |v.s| == |w.parts[j].s| && forall i :: 0 <= i < |v.s| ==> v.s[i].dts == w.parts[j].s[i].dts
  {
    Placed(w.Turned(track, dts))[j]
  }

  /** Its last duration. */
  lemma SentTurn(w: Fmp4Writer, track: nat, dts: int, j: nat)
    requires w.Timed() && |w.parts| == |w.tracks| && track < |w.parts| && j < |w.parts|
    ensures |w.written| == |w.parts|
    ensures SentPart(w, track, dts, j).turn == if j == track then DurationUntil(LastDts(w.written[j]), dts) else w.parts[j].turn
  {
    hide LastTimes, LastsOf, LastDts, DurationUntil, PlacedAt;
    w.TimedAt(track);
  }

  lemma GapWord(last: int, next: int)
    requires last > INT64_MIN
    ensures ToU32(DurationUntil(last, next)) == next - last <==> 0 <= next - last < TWO_32
  {
  }

  /** The gaps of a part are those of the pending samples. */
  lemma SentGaps(s: seq<Sample>, v: seq<Sample>)
    requires |v| == |s| && forall i :: 0 <= i < |v| ==> v[i].dts == s[i].dts
    requires forall i :: 0 < i < |s| ==> 0 <= s[i].dts - s[i - 1].dts < TWO_32
    ensures forall i :: 0 < i < |v| ==> 0 <= v[i].dts - v[i - 1].dts < TWO_32
  {
  }

  /** A track with pending samples has seen the last of them last. */
  lemma LastPending(w: Fmp4Writer, j: nat)
    requires w.Valid() && j < |w.parts| && |w.parts[j].s| > 0
    ensures |w.written| == |w.parts| == |w.tracks|
    ensures LastDts(w.written[j]) == w.parts[j].s[|w.parts[j].s| - 1].dts
  {
    hide WellFormed, FragmentBytes, AtEnd, StartOf, InOrder, Flushed;
    assert TrackBooks(w.fragments, j, w.parts[j], w.blocks[j], w.written[j]);
  }

  lemma IsTimed(w: Fmp4Writer)
    requires w.Valid()
    ensures w.Timed()
  {
  }

  /**
   * A write that sends a fragment off first fixes the last duration of its track, by the time of the new
   * sample: the reader's clock then ends the fragment where the track's next fragment starts, exactly when
   * the new sample is not earlier than the last one and less than 2^32 milliseconds later.
   */
  lemma ClockRunsOn(w: Fmp4Writer, track: nat, dts: int, at: nat, moof: u32, time: int)
    requires w.Valid() && track < |w.parts| && 0 < |w.parts[track].s| < TWO_32
    requires var s := w.parts[track].s;
             s[|s| - 1].dts > INT64_MIN && forall i :: 0 < i < |s| ==> 0 <= s[i].dts - s[i - 1].dts < TWO_32
    ensures track < |w.tracks|
    ensures var v, last := SentPart(w, track, dts, track), w.parts[track].s[|w.parts[track].s| - 1];
            DtsIn(RunOf(v, at, moof), HeaderFor(v, at), time, |v.s|) == time + dts - v.s[0].dts
            <==> 0 <= dts - last.dts < TWO_32
  {
    hide DtsIn, RunOf, HeaderFor, LastDts, DurationUntil, SentPart, ToU32, Fmp4Writer.Valid;
    LastPending(w, track);
    IsTimed(w);
    SentTurn(w, track, dts, track);
    var v, s := SentPart(w, track, dts, track), w.parts[track].s;
    SentGaps(s, v.s);
    ClockEnds(v, at, moof, time);
    assert v.s[|s| - 1].dts == s[|s| - 1].dts;
    GapWord(s[|s| - 1].dts, dts);
  }

  lemma PacedAt(w: Fmp4Writer, j: nat)
    requires w.Paced() && j < |w.parts|
    ensures j < |w.written| && w.parts[j].turn == LastGapOf(w.written[j])
  {
    hide LastGapOf;
  }

  /** For any other track the clock runs on exactly when its next gap repeats its last one. */
  lemma OtherClocks(w: Fmp4Writer, track: nat, dts: int, j: nat, next: int, at: nat, moof: u32, time: int)
    requires w.Valid() && w.Paced() && track < |w.parts| && j < |w.parts| && j != track && 0 < |w.parts[j].s| < TWO_32
    requires var s := w.parts[j].s; forall i :: 0 < i < |s| ==> 0 <= s[i].dts - s[i - 1].dts < TWO_32
    ensures track < |w.tracks| && j < |w.written|
    ensures var v, last := SentPart(w, track, dts, j), w.parts[j].s[|w.parts[j].s| - 1];
            DtsIn(RunOf(v, at, moof), HeaderFor(v, at), time, |v.s|) == time + next - v.s[0].dts
            <==> next - last.dts == ToU32(LastGapOf(w.written[j]))
  {
    hide DtsIn, RunOf, HeaderFor, LastGapOf, DurationUntil, SentPart, ToU32, Fmp4Writer.Valid, Fmp4Writer.Paced;
    hide Fmp4Writer.Timed, LastDts;
    PacedAt(w, j);
    LastPending(w, j);
    IsTimed(w);
    SentTurn(w, track, dts, j);
    var v, s := SentPart(w, track, dts, j), w.parts[j].s;
    SentGaps(s, v.s);
    ClockEnds(v, at, moof, time);
    assert v.s[|s| - 1].dts == s[|s| - 1].dts;
  }

  lemma LastGap(s: seq<Sample>, turn: int)
    requires |s| > 0
    ensures GapSum(s, turn, 0, |s|) == GapSum(s, turn, 0, |s| - 1) + ToU32(turn)
  {
  }

  /** A composition offset comes back exactly when it is a signed 32-bit number. */
  lemma CompositionSurvivesIff(v: Part, at: nat, moof: u32, time: int, i: nat)
    requires i < |v.s| < TWO_32
    ensures var x := HeardSample(v, at, moof, time, i);
            x.pts - x.dts == v.s[i].pts - v.s[i].dts <==> -TWO_31 <= v.s[i].pts - v.s[i].dts < TWO_31
  {
    hide HeardSample, Shift;
    SampleHeard(v, at, moof, time, i);
    ShiftReadsBackIff(v.s[i]);
  }

  /**
   * Key flags are not carried one by one: the first sample is always heard as a key frame, since
   * without first_sample_flags the reader looks at the flags of tfhd; the others follow the
   * defaults, which make every audio sample and no other sample a key frame.
   */
  lemma KeysSurviveIff(v: Part, at: nat, moof: u32, time: int)
    requires 0 < |v.s| < TWO_32
    ensures (forall i :: 0 <= i < |v.s| ==> HeardSample(v, at, moof, time, i).key == v.s[i].key)
            <==> v.s[0].key && forall i :: 0 < i < |v.s| ==> v.s[i].key == v.audio
  {
    hide HeardSample;
    forall i | 0 <= i < |v.s|
      ensures HeardSample(v, at, moof, time, i).key == (i == 0 || v.audio)
    {
      KeyHeard(v, at, moof, time, i);
    }
  }

  lemma KeyHeard(v: Part, at: nat, moof: u32, time: int, i: nat)
    requires i < |v.s| < TWO_32
    ensures HeardSample(v, at, moof, time, i).key == (i == 0 || v.audio)
  {
    hide Bit, DtsIn, OffsetIn, RunBase, SizeIn, ShiftIn, RowsWords, TrunFlags, RowStart, SoundTrun;
    var h, n := HeaderFor(v, at), |v.s|;
    var ws, f := TrunWords(v, h, 0, n, moof), TrunFlags(v, h, 0, n);
    RunIsSound(v, h, 0, n, moof);
    RunFlagsAre(v, h, 0, n);
    RunBitsAre(f);
    HeadInside(ws);
    FlagWords(v, at);
  }

  lemma FlagWords(v: Part, at: nat)
    requires |v.s| > 0
    ensures KeyFlags(HeaderFor(v, at).sampleFlags) == v.audio && KeyFlags(HeaderFor(v, at).flags) && KeyFlags(DEPENDS_ON_I)
  {
  }

  // ---------- where the data is ----------

  /** The file position of sample i of track j. */
  ghost function Position(f: Fragment, j: nat, i: nat): nat
    requires WellFormed(f) && j < |f.parts| && i < |f.parts[j].s|
  {
    f.at + MoofSize(f.number, f.parts, f.at) + 4 * |MdatHeader(Total(f))|
    + StartOf(f.parts, j) + ByteSum(f.parts[j].s, 0, i)
  }

  /** At its position lies the sample that was handed over. */
  lemma SampleLies(f: Fragment, d: seq<byte>, j: nat, i: nat)
    requires WellFormed(f) && LiesIn(f, d) && j < |f.parts| && i < |f.parts[j].s|
    ensures var p, n := Position(f, j, i), f.parts[j].s[i].bytes;
            && p + n <= |d| && j < |f.blocks| && i < |f.blocks[j]|
            && d[p..p + n] == f.blocks[j][i]
  {
    hide Fits, MoofTree, MoofBytes, Words, MediaBytes, StartOf, ByteSum, MdatHeader, Matching, DataStart, MoofSize;
    SecondFits(f.number, f.parts, f.at);
    var k, o, n := |f.parts|, StartOf(f.parts, j) + ByteSum(f.parts[j].s, 0, i), f.parts[j].s[i].bytes as int;
    MatchedBytes(f.parts[j], f.blocks[j], i);
    BlockInMedia(f.parts, f.blocks, j, i, k);
    var a := MoofBytes(f.number, f.parts, f.at, DataStart(f.number, f.parts, f.at));
    var b, c := Words(MdatHeader(Total(f))), MediaBytes(f.blocks, k);
    assert FragmentBytes(f) == a + b + c;
    SliceOfSum(a + b, c, o, n);
    SubSlice(d, f.at, FragmentBytes(f), |a + b| + o, n);
  }

  /** The reading of the data offset, apart from wrap-around of 64-bit positions. */
  lemma SignedOffset(x: nat)
    ensures exists k: nat :: ToI32(ToU32(x)) == x - k * 0x1_0000_0000 && (k == 0 <==> x < TWO_31)
  {
    var k: nat := x / 0x1_0000_0000 + if ToU32(x) < 0x8000_0000 then 0 else 1;
    assert ToI32(ToU32(x)) == x - k * 0x1_0000_0000;
  }

  lemma OffsetModulo(a: nat, b: nat)
    ensures ToU32((ToU32(a) as int) + b) == ToU32(a + b)
  {
  }

  /** All places are right if the first one is. */
  lemma PlacesFollowBase(f: Fragment, j: nat, time: int)
    requires WellFormed(f) && j < |f.parts| && 0 < |f.parts[j].s| < TWO_32
    ensures var m := DataStart(f.number, f.parts, f.at);
            (forall i :: 0 <= i < |f.parts[j].s| ==> HeardSample(f.parts[j], f.at, m, time, i).offset == Position(f, j, i))
            <==> HeardBase(f.parts[j], f.at, m) == Position(f, j, 0)
  {
    hide HeardSample, Fits, MoofTree, AllMatching, Placed, MoofSize, StartOf, ByteSum, HeardBase, MdatHeader;
    var v, m := f.parts[j], DataStart(f.number, f.parts, f.at);
    forall i | 0 <= i < |v.s|
      ensures HeardSample(v, f.at, m, time, i).offset - Position(f, j, i) == HeardBase(v, f.at, m) - Position(f, j, 0)
    {
      SumStep(v.s, 0);
      SampleHeard(v, f.at, m, time, i);
      assert ByteSum(v.s, 0, 0) == 0 by { NoSum(v.s); }
    }
  }

  lemma NoSum(s: seq<Sample>)
    ensures ByteSum(s, 0, 0) == 0
  {
  }

  /**
   * The reader finds a track's data exactly when mdat has the 8-byte header that the data offsets
   * count on, and the first data offset, which it reads as a signed number, stays below 2^31.
   */
  lemma PlacesSurviveIff(f: Fragment, j: nat, time: int)
    requires WellFormed(f) && j < |f.parts| && 0 < |f.parts[j].s| < TWO_32
    requires Position(f, j, 0) < TWO_63
    ensures var m := DataStart(f.number, f.parts, f.at);
            (forall i :: 0 <= i < |f.parts[j].s| ==> HeardSample(f.parts[j], f.at, m, time, i).offset == Position(f, j, i))
            <==> Total(f) + 8 <= UINT32_MAX
                 && MoofSize(f.number, f.parts, f.at) + 8 + StartOf(f.parts, j) < TWO_31
  {
    hide HeardSample, Fits, MoofTree, AllMatching, Placed, MoofSize, StartOf, ByteSum, MdatHeader, ToI32, ToU32, FragmentBytes;
    var v, m, size, o := f.parts[j], DataStart(f.number, f.parts, f.at), MoofSize(f.number, f.parts, f.at), StartOf(f.parts, j);
    NoSum(v.s);
    assert v.s[0].offset == o by {
      assert Placed(f.parts)[j] == v;
    }
    OffsetModulo(size + 8, o);
    PlacesFollowBase(f, j, time);
    HeaderSize(Total(f));
    BaseReads(f.at, size + 8 + o, 4 * |MdatHeader(Total(f))|);
  }

  lemma HeaderSize(n: nat)
    requires n + 16 < TWO_64
    ensures 4 * |MdatHeader(n)| == if n + 8 <= UINT32_MAX then 8 else 16
  {
  }

  lemma BaseReads(at: nat, x: nat, header: nat)
    requires (header == 8 || header == 16) && at + x - 8 + header < TWO_63
    ensures (at + ToI32(ToU32(x))) % 0x1_0000_0000_0000_0000 == at + x - 8 + header <==> header == 8 && x < TWO_31
  {
    SignedOffset(x);
    var k: nat :| ToI32(ToU32(x)) == x - k * 0x1_0000_0000 && (k == 0 <==> x < TWO_31);
    BaseIs(at, x, k, header);
  }

  /** Position `at + x`, read modulo 2^64 after losing k times 2^32, against where the data is. */
  lemma BaseIs(at: nat, x: nat, k: nat, header: nat)
    requires (header == 8 || header == 16) && at + x < TWO_63 && x - k * 0x1_0000_0000 >= -TWO_31
    ensures (at + (x - k * 0x1_0000_0000)) % 0x1_0000_0000_0000_0000 == at + x - 8 + header <==> header == 8 && k == 0
  {
    var y := at + (x - k * 0x1_0000_0000);
    if y >= 0 {
      assert y % 0x1_0000_0000_0000_0000 == y;
    } else {
      assert y % 0x1_0000_0000_0000_0000 == y + 0x1_0000_0000_0000_0000;
    }
  }

  /** All of it together: the reader's sample points at the bytes that were handed over. */
  lemma DataSurvives(f: Fragment, d: seq<byte>, j: nat, i: nat, time: int)
    requires WellFormed(f) && LiesIn(f, d) && j < |f.parts| && i < |f.parts[j].s| < TWO_32 && |d| < TWO_63
    requires Total(f) + 8 <= UINT32_MAX && MoofSize(f.number, f.parts, f.at) + 8 + StartOf(f.parts, j) < TWO_31
    ensures var x := HeardSample(f.parts[j], f.at, DataStart(f.number, f.parts, f.at), time, i);
            && x.offset + x.bytes <= |d| && j < |f.blocks| && i < |f.blocks[j]|
            && d[x.offset..x.offset + x.bytes] == f.blocks[j][i]
  {
    hide HeardSample, LiesIn, Position, MoofSize, StartOf, DataStart, Fits, MoofTree, AllMatching, Placed, MdatHeader;
    SampleLies(f, d, j, 0);
    PlacesSurviveIff(f, j, time);
    SampleLies(f, d, j, i);
    SampleHeard(f.parts[j], f.at, DataStart(f.number, f.parts, f.at), time, i);
  }

  // ---------- over a whole run ----------

  lemma {:induction false} FirstTree(ts: seq<Tree>, n: nat)
    requires 0 < n <= |ts| && forall i :: 0 <= i < |ts| ==> Fits(ts[i])
    ensures |Serialize(ts[0])| <= |SerializeAll(ts, n)| && SerializeAll(ts, n)[..|Serialize(ts[0])|] == Serialize(ts[0])
  {
    hide Fits, Serialize;
    if n > 1 {
      FirstTree(ts, n - 1);
    } else {
      assert SerializeAll(ts, 0) == [];
    }
  }

  /** The fourth word of the first child of a box that is a table is at byte 20. */
  lemma FourthWord(tag: u32, ts: seq<Tree>, sub: u32, ws: seq<u32>)
    requires |ws| == 2 && ts != [] && ts[0] == Table(sub, ws) && Fits(Node(tag, ts))
    ensures |Serialize(Node(tag, ts))| >= 24 && U32At(Serialize(Node(tag, ts)), 20) == ws[1]
  {
    hide Words, BE32;
    FirstTree(ts, |ts|);
    TableBytes(sub, ws);
    var d, x, b := Serialize(Node(tag, ts)), [8 + 4 * |ws|, sub] + ws, SerializeAll(ts, |ts|);
    WordsDecode(x, 3);
    assert |Words(x)| == 16;
    assert d[8..] == b && b[..16] == Words(x);
    assert d[8..24] == Words(x);
    U32AtSlice(d, 8, 16, 12);
  }

  /** The sequence number in the header of the fragment. */
  lemma NumberOf(f: Fragment)
    requires WellFormed(f)
    ensures |FragmentBytes(f)| >= 24 && U32At(FragmentBytes(f), 20) == f.number
  {
    var m := DataStart(f.number, f.parts, f.at);
    SecondFits(f.number, f.parts, f.at);
    hide Fits, Serialize, MediaBytes, Words, MdatHeader, DataStart, AllMatching, Placed, Total;
    var a := MoofBytes(f.number, f.parts, f.at, m);
    FourthWord(TAG_MOOF, MoofParts(f.number, f.parts, f.at, m), TAG_MFHD, [0, f.number]);
    var d := FragmentBytes(f);
    assert a <= d;
    assert d[..24] == a[..24];
    U32AtSlice(d, 0, 24, 20);
    U32AtSlice(a, 0, 24, 20);
  }

  /** Over a whole run the fragments are numbered from 1 on in the file. */
  lemma NumbersInFile(w: Fmp4Writer, k: nat)
    requires w.Valid() && k < |w.fragments|
    ensures w.fragments[k].at + 24 <= |w.io.data|
    ensures U32At(w.io.data, w.fragments[k].at + 20) == (k as int + 1) % 0x1_0000_0000
  {
    hide Fmp4Writer.Valid, WellFormed, FragmentBytes, BE32;
    RunLies(w, k);
    var f := w.fragments[k];
    NumberOf(f);
    U32AtSlice(w.io.data, f.at, |FragmentBytes(f)|, 20);
  }

  /** Every fragment of a run lies in the file for good, at the place its moof counts from. */
  lemma RunLies(w: Fmp4Writer, k: nat)
    requires w.Valid() && k < |w.fragments|
    ensures WellFormed(w.fragments[k]) && LiesIn(w.fragments[k], w.io.data) && w.fragments[k].number == ToU32(k + 1)
  {
    hide WellFormed, FragmentBytes, Books, AtEnd, StartOf;
    PlaceOf(w.front, w.fragments, k);
    FragmentInFile(w.front, w.fragments, k, |w.fragments|);
  }

  /** Fragments count time from the first sample the track was ever given. */
  lemma RunClock(w: Fmp4Writer, k: nat, j: nat, t: ReadTrack)
    requires w.Valid() && k < |w.fragments| && j < |w.fragments[k].parts| && |w.fragments[k].parts[j].s| > 0
    requires t.elst == []
    ensures j < |w.written| && |w.written[j]| > 0
            && StartTime(t, w.fragments[k].parts[j]) == w.fragments[k].parts[j].s[0].dts - w.written[j][0].dts
  {
    hide WellFormed, FragmentBytes, AtEnd, StartOf, Conserved, EntriesOf, InOrder, Stored;
    assert TrackBooks(w.fragments, j, w.parts[j], w.blocks[j], w.written[j]);
    if w.written[j] == [] {
      Unwritten(w.fragments, j, w.parts[j], w.blocks[j], k);
      assert false;
    }
  }

  lemma Unwritten(fs: seq<Fragment>, j: nat, v: Part, bs: seq<seq<byte>>, k: nat)
    requires Conserved(fs, j, v.s, bs, []) && k < |fs| && forall i :: 0 <= i < |fs| ==> j < |fs[i].parts|
    ensures |fs[k].parts[j].s| == 0
  {
    hide WellFormed, EntriesOf;
    NothingFlushed(fs, j, k, |fs|);
  }

  /** Sample i of track j in fragment k is the entry that was handed over in its turn. */
  lemma EntryOf(fs: seq<Fragment>, j: nat, k: nat, i: nat, n: nat)
    requires AllWellFormed(fs) && k < n <= |fs| && (forall m :: 0 <= m < n ==> j < |fs[m].parts|) && i < |fs[k].parts[j].s|
    ensures WellFormed(fs[k]) && j < |fs[k].blocks| && |fs[k].blocks[j]| == |fs[k].parts[j].s|
    ensures |Flushed(fs, j, k)| + i < |Flushed(fs, j, n)|
    ensures var x := fs[k].parts[j].s[i];
            Flushed(fs, j, n)[|Flushed(fs, j, k)| + i] == Entry(fs[k].blocks[j][i], x.pts, x.dts, x.key)
    decreases n
  {
    hide EntriesOf, WellFormed, Flushed, AllWellFormed;
    FragmentMatches(fs, j, n - 1);
    FragmentMatches(fs, j, k);
    FlushedStep(fs, j, n);
    var a, b := Flushed(fs, j, n - 1), EntriesOf(fs[n - 1].parts[j].s, fs[n - 1].blocks[j]);
    if k < n - 1 {
      EntryOf(fs, j, k, i, n - 1);
    } else {
      assert (a + b)[|a| + i] == b[i];
    }
  }

  lemma FlushedStep(fs: seq<Fragment>, j: nat, n: nat)
    requires AllWellFormed(fs) && 0 < n <= |fs| && j < |fs[n - 1].parts|
    requires j < |fs[n - 1].blocks| && |fs[n - 1].blocks[j]| == |fs[n - 1].parts[j].s|
    ensures Flushed(fs, j, n) == Flushed(fs, j, n - 1) + EntriesOf(fs[n - 1].parts[j].s, fs[n - 1].blocks[j])
  {
    hide EntriesOf, WellFormed;
  }

  lemma FragmentMatches(fs: seq<Fragment>, j: nat, k: nat)
    requires AllWellFormed(fs) && k < |fs| && j < |fs[k].parts|
    ensures WellFormed(fs[k]) && j < |fs[k].blocks| && |fs[k].blocks[j]| == |fs[k].parts[j].s|
  {
    hide MoofFits, Placed;
    assert Matching(fs[k].parts[j], fs[k].blocks[j]);
  }

  /**
   * Over a whole run: what the reader hears as sample i of track j in fragment k is what was handed over in
   * its turn. Its time counts from the first sample of all, if the gaps in the fragment are 32-bit numbers; its
   * composition offset is kept, if it is a signed 32-bit number; and at its place lies its data.
   */
  lemma RunHeard(w: Fmp4Writer, k: nat, j: nat, i: nat, t: ReadTrack)
    requires w.Valid() && k < |w.fragments| && j < |w.fragments[k].parts| && i < |w.fragments[k].parts[j].s| < TWO_32
    requires t.elst == [] && |w.io.data| < TWO_63
    ensures WellFormed(w.fragments[k]) && j < |w.written| && |Flushed(w.fragments, j, k)| + i < |w.written[j]|
    ensures var f := w.fragments[k]; var v := f.parts[j];
            var x := HeardSample(v, f.at, DataStart(f.number, f.parts, f.at), StartTime(t, v), i);
            var e := w.written[j][|Flushed(w.fragments, j, k)| + i];
            && x.bytes == |e.block|
            && ((forall n :: 0 < n < |v.s| ==> 0 <= v.s[n].dts - v.s[n - 1].dts < TWO_32) ==>
                  x.dts == e.dts - w.written[j][0].dts)
            && (-TWO_31 <= e.pts - e.dts < TWO_31 ==> x.pts - x.dts == e.pts - e.dts)
            && (Total(f) + 8 <= UINT32_MAX && MoofSize(f.number, f.parts, f.at) + 8 + StartOf(f.parts, j) < TWO_31 ==>
                  x.offset + x.bytes <= |w.io.data| && w.io.data[x.offset..x.offset + x.bytes] == e.block)
  {
    hide Fmp4Writer.Valid, WellFormed, FragmentBytes, HeardSample, StartOf, MoofSize, DataStart, Total, LiesIn, StartTime;
    hide Flushed, AllWellFormed;
    var f := w.fragments[k];
    TrackInRun(w, k, j);
    RunLies(w, k);
    EntryOf(w.fragments, j, k, i, |w.fragments|);
    RunClock(w, k, j, t);
    InFragment(f, w.io.data, j, i, StartTime(t, f.parts[j]));
  }

  /** The same for one fragment, whose first sample is heard at `time`. */
  lemma InFragment(f: Fragment, d: seq<byte>, j: nat, i: nat, time: int)
    requires WellFormed(f) && LiesIn(f, d) && j < |f.parts| && i < |f.parts[j].s| < TWO_32 && |d| < TWO_63
    ensures j < |f.blocks| && i < |f.blocks[j]| && Countable(f.parts) && f.at < TWO_64
    ensures var v := f.parts[j]; var x := HeardSample(v, f.at, DataStart(f.number, f.parts, f.at), time, i);
            && x.bytes == |f.blocks[j][i]|
            && ((forall n :: 0 < n < |v.s| ==> 0 <= v.s[n].dts - v.s[n - 1].dts < TWO_32) ==>
                  x.dts == time + v.s[i].dts - v.s[0].dts)
            && (-TWO_31 <= v.s[i].pts - v.s[i].dts < TWO_31 ==> x.pts - x.dts == v.s[i].pts - v.s[i].dts)
            && (Total(f) + 8 <= UINT32_MAX && MoofSize(f.number, f.parts, f.at) + 8 + StartOf(f.parts, j) < TWO_31 ==>
                  x.offset + x.bytes <= |d| && d[x.offset..x.offset + x.bytes] == f.blocks[j][i])
  {
    hide WellFormed, FragmentBytes, HeardSample, StartOf, MoofSize, DataStart, Total, LiesIn;
    Counted(f);
    var v, m := f.parts[j], DataStart(f.number, f.parts, f.at);
    SampleHeard(v, f.at, m, time, i);
    TimesSurviveIff(v, f.at, m, time);
    CompositionSurvivesIff(v, f.at, m, time, i);
    BlockSize(f, j, i);
    if Total(f) + 8 <= UINT32_MAX && MoofSize(f.number, f.parts, f.at) + 8 + StartOf(f.parts, j) < TWO_31 {
      DataSurvives(f, d, j, i, time);
    }
  }

  lemma Counted(f: Fragment)
    requires WellFormed(f)
    ensures Countable(f.parts) && f.at < TWO_64
  {
    hide Placed, AllMatching, Fits, MoofTree;
  }

  lemma TrackInRun(w: Fmp4Writer, k: nat, j: nat)
    requires w.Valid() && k < |w.fragments| && j < |w.fragments[k].parts|
    ensures AllWellFormed(w.fragments) && forall m :: 0 <= m < |w.fragments| ==> j < |w.fragments[m].parts|
    ensures j < |w.written| && Flushed(w.fragments, j, |w.fragments|) <= w.written[j]
  {
    hide WellFormed, FragmentBytes, AtEnd, StartOf, EntriesOf, InOrder, Stored, Flushed, Started;
    assert TrackBooks(w.fragments, j, w.parts[j], w.blocks[j], w.written[j]);
  }

  lemma BlockSize(f: Fragment, j: nat, i: nat)
    requires WellFormed(f) && j < |f.parts| && i < |f.parts[j].s|
    ensures j < |f.blocks| && i < |f.blocks[j]| && |f.blocks[j][i]| == f.parts[j].s[i].bytes
  {
    hide MoofFits, Placed;
    assert Matching(f.parts[j], f.blocks[j]);
  }
}
