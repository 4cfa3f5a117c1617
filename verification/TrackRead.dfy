/** mov_read_trak: the boxes of one track, then the five table expansions in the reader's order. */
module TrackRead {
  import opened Bytes
  import opened Samples
  import opened ChunkTables
  import opened RunLength
  import opened Tracks
  import opened MovStream
  import opened Boxes
  import opened Stts
  import opened Stss
  import opened StcoApply
  import opened Elst
  import opened Timeline
  import opened TrackWriter
  import opened TrackReader
  import opened TrackRoundTrip
  import opened TrackReload

  /** Tables that agree on the number of samples; the expansions index by it without checks. */
  ghost predicate Consistent(tb: Tables)
  {
    && 0 < tb.count && |tb.samples| == tb.count && |tb.stco| < UINT32_MAX
    && WellFormed(tb.stsc, |tb.stco|)
    && (var cs := DecodeChunks(tb.stsc, tb.stco); First(cs, |cs|) == tb.count)
    && Covered(tb.stts, |tb.stts|) == tb.count
    && (|tb.ctts| == 0 || Covered(tb.ctts, |tb.ctts|) == tb.count)
    && SpreadFits(tb.ctts)
  }

  /** The shifted offsets stay in the range of the C int they are computed in. */
  ghost predicate SpreadFits(rs: seq<Run>)
  {
    forall j :: 0 <= j < |rs| ==> ToI32(rs[j].value) - ShiftOf(rs, |rs|) < TWO_31
  }

  /** The samples after the chunk tables: placed, and otherwise as stsz left them. */
  ghost predicate AfterStage1(tb: Tables, s: seq<Sample>)
    requires tb.stsc != []
  {
    && |s| == tb.count + 1 && |tb.samples| == tb.count
    && Describes(DecodeChunks(tb.stsc, tb.stco), s, tb.count)
    && forall i :: 0 <= i < tb.count ==> s[i].bytes == tb.samples[i].bytes && s[i].key == tb.samples[i].key
  }

  /** `a` has its decoding times, `b` also its composition times, `c` also its key frames. */
  ghost predicate Expanded(tb: Tables, s: seq<Sample>, a: seq<Sample>, b: seq<Sample>, c: seq<Sample>)
    requires tb.stsc != []
  {
    && AfterStage1(tb, s)
    && OnlyTimesChanged(s, a) && Timed(tb.stts, a, tb.count)
    && a[0].dts == StartOf(tb.elst, |tb.elst|) == a[0].pts
    && OnlyPtsChanged(a, b)
    && Composed(tb.ctts, a, b, ShiftOf(tb.ctts, |tb.ctts|), if |tb.ctts| == 0 then 0 else tb.count)
    && |c| == |b|
    && forall i :: 0 <= i < |c| ==> c[i] == b[i].(key := b[i].key || (i < tb.count && (i + 1) in tb.stss))
  }

  lemma LoadedLengths(track: Track, tb: Tables)
    requires Loaded(track, tb) && Consistent(tb)
    ensures track.Valid() && track.sampleCount == tb.count && |track.samples| == tb.count + 1
    ensures |track.stsc| == track.stscCount + 1 && track.stsc[..track.stscCount] == tb.stsc
    ensures track.stco == tb.stco && track.stts == tb.stts && track.ctts == tb.ctts
    ensures track.elst == tb.elst && track.stss == tb.stss
    ensures forall i :: 0 <= i < tb.count ==> track.samples[i] == tb.samples[i]
  {
    assert forall i :: 0 <= i < tb.count ==> track.samples[i] == track.samples[..tb.count][i];
  }

  lemma StageOne(tb: Tables, s: seq<Sample>, t: seq<Sample>)
    requires Consistent(tb) && |s| == tb.count + 1 && forall i :: 0 <= i < tb.count ==> s[i] == tb.samples[i]
    requires OnlyPlacementChanged(s, t) && Describes(DecodeChunks(tb.stsc, tb.stco), t, tb.count)
    ensures AfterStage1(tb, t)
  {
    hide Describes;
    forall i | 0 <= i < tb.count
      ensures t[i].bytes == tb.samples[i].bytes && t[i].key == tb.samples[i].key
    {
      assert t[i] == s[i].(offset := t[i].offset, sdi := t[i].sdi);
    }
  }

  lemma TimesAfterElst(s: seq<Sample>, u: seq<Sample>, a: seq<Sample>, start: int)
    requires |s| > 0 && u == s[0 := s[0].(dts := start, pts := start)]
    requires OnlyTimesChanged(u, a) && a[0] == u[0]
    ensures OnlyTimesChanged(s, a) && a[0].dts == start == a[0].pts
  {
    forall i | 0 <= i < |s|
      ensures a[i] == s[i].(dts := a[i].dts, pts := a[i].pts)
    {
      assert a[i] == u[i].(dts := a[i].dts, pts := a[i].pts);
    }
  }

  /** The expansions of a non-empty track. */
  method Expand(track: Track, ghost tb: Tables) returns (ghost s: seq<Sample>, ghost a: seq<Sample>,
                ghost b: seq<Sample>)
    requires Loaded(track, tb) && Consistent(tb)
    modifies track
    ensures track.sampleCount == tb.count && Expanded(tb, s, a, b, track.samples)
  {
    hide Describes, Timed, Composed, WellFormed, ShiftOf, StartOf, Covered, DecodeChunks, First;
    LoadedLengths(track, tb);
    ghost var z := track.samples;
    ApplyStco(track);
    s := track.samples;
    StageOne(tb, z, s);
    ApplyElst(track);
    ghost var u := track.samples;
    ApplyStts(track);
    a := track.samples;
    TimesAfterElst(s, u, a, StartOf(tb.elst, |tb.elst|));
    ApplyCtts(track);
    b := track.samples;
    ApplyStss(track);
  }

  /** mov_read_trak for a track box whose children `ts` lie at the reading position. */
  method ReadTrak(io: Stream, track: Track, size: nat, ghost ts: seq<Tree>)
    returns (r: int, ghost s: seq<Sample>, ghost a: seq<Sample>, ghost b: seq<Sample>)
    requires AllAt(io, ts, TAG_TRAK) && size == SizeOfAll(ts, |ts|) && Loaded(track, NO_TABLES)
    requires var tb := LoadAll(NO_TABLES, ts, |ts|, TAG_TRAK); tb.count > 0 ==> Consistent(tb)
    modifies io, track
    ensures r == 0 == io.error && io.data == old(io.data) && io.pos == old(io.pos) + size
    ensures var tb := LoadAll(NO_TABLES, ts, |ts|, TAG_TRAK);
            && track.sampleCount == tb.count
            && (tb.count > 0 ==> tb.stsc != [] && Expanded(tb, s, a, b, track.samples))
  {
    hide Loaded, LoadAll, Expanded, SizeOfAll, SerializeAll, Sound;
    ghost var tb := LoadAll(NO_TABLES, ts, |ts|, TAG_TRAK);
    s, a, b := [], [], [];
    ReadBoxes(io, track, size, TAG_TRAK, ts, NO_TABLES);
    LoadedCount(track, tb);
    if track.sampleCount > 0 {
      s, a, b := Expand(track, tb);
    }
    r := io.error;
  }

  lemma LoadedCount(track: Track, tb: Tables)
    requires Loaded(track, tb)
    ensures track.sampleCount == tb.count
  {
  }

  // ---------- what was written is what is read ----------

  lemma {:induction false} RunValueIn(vs: seq<u32>, n: nat, j: nat)
    requires n <= |vs| && n <= UINT32_MAX && j < |RunsOf(vs, n)|
    ensures exists k :: 0 <= k < n && RunsOf(vs, n)[j].value == vs[k]
  {
    if j < |RunsOf(vs, n - 1)| {
      RunValueIn(vs, n - 1, j);
      var k :| 0 <= k < n - 1 && RunsOf(vs, n - 1)[j].value == vs[k];
      assert RunsOf(vs, n)[j].value == vs[k];
    } else {
      assert RunsOf(vs, n)[j].value == vs[n - 1];
    }
  }

  /** No two composition offsets are 2^31 or more apart. */
  ghost predicate NarrowSpread(s: seq<Sample>, n: nat)
    requires n <= |s|
  {
    OffsetsFit(s, n) && forall i :: 0 <= i < n ==> s[i].pts - s[i].dts - LeastOffset(s, n) < TWO_31
  }

  lemma SpreadOfRuns(s: seq<Sample>, n: nat)
    requires 0 < n <= |s| && n <= UINT32_MAX && NarrowSpread(s, n)
    ensures SpreadFits(RunsOf(OffsetsOf(s, n), n))
  {
    var vs := OffsetsOf(s, n);
    var rs := RunsOf(vs, n);
    ShiftIsLeast(s, n, n);
    forall j | 0 <= j < |rs|
      ensures ToI32(rs[j].value) - ShiftOf(rs, |rs|) < TWO_31
    {
      RunValueIn(vs, n, j);
      var k :| 0 <= k < n && rs[j].value == vs[k];
      ToI32Inverse(s[k].pts - s[k].dts);
    }
  }

  lemma WrittenConsistent(v: View, movieTimescale: u32)
    requires v.Valid() && Editable(v, movieTimescale) && |ChunksOf(v.s, v.n)| < UINT32_MAX
    requires NarrowSpread(v.s, v.n)
    ensures Consistent(WrittenTables(v, movieTimescale))
  {
    var cs, n := ChunksOf(v.s, v.n), v.n;
    ChunksDescribe(v.s, n);
    StscRoundTrip(cs, v.d, WrittenOffsets(v));
    FirstSame(cs, MoveChunks(cs, v.d), |cs|);
    RunsCover(Deltas(v.s, n), n);
    RunsCover(OffsetsOf(v.s, n), n);
    SpreadOfRuns(v.s, n);
    hide ChunksOf, StscOf, RunsOf, Deltas, OffsetsOf, Sized, EditsOf, PlanOf, MoveChunks, DecodeChunks, WrittenOffsets;
    hide KeyNumbers, Describes;
  }

  /** Sample i comes back at its final place, with its size, description and key flag. */
  lemma PlacementSurvives(v: View, movieTimescale: u32, s: seq<Sample>, a: seq<Sample>, b: seq<Sample>,
                          c: seq<Sample>, i: nat)
    requires v.Valid() && Editable(v, movieTimescale) && |ChunksOf(v.s, v.n)| < UINT32_MAX && i < v.n
    requires var tb := WrittenTables(v, movieTimescale); tb.stsc != [] && Expanded(tb, s, a, b, c)
    ensures i < |c| && c[i].offset == v.s[i].offset + v.d && c[i].sdi == v.s[i].sdi
    ensures c[i].bytes == v.s[i].bytes && c[i].key == (v.video && v.s[i].key)
  {
    hide ChunksOf, StscOf, RunsOf, Deltas, OffsetsOf, EditsOf, PlanOf, MoveChunks, DecodeChunks, WrittenOffsets;
    hide Describes, Timed, Composed, WrittenCtts, KeyNumbers;
    var cs, n, tb := ChunksOf(v.s, v.n), v.n, WrittenTables(v, movieTimescale);
    var t := Shifted(v.s, v.d);
    ChunksDescribe(v.s, n);
    MovedDescribe(cs, v.s, t, n, v.d);
    WrittenRoundTrip(v);
    assert DecodeChunks(tb.stsc, tb.stco) == MoveChunks(cs, v.d);
    forall k | 0 <= k < n
      ensures s[k].bytes == t[k].bytes
    {
      assert s[k].bytes == Sized(v.s, n)[k].bytes;
    }
    DescribedPlacementIsUnique(MoveChunks(cs, v.d), s, t, n, i);
    assert a[i] == s[i].(dts := a[i].dts, pts := a[i].pts);
    assert b[i] == a[i].(pts := b[i].pts);
    assert c[i] == b[i].(key := b[i].key || (i + 1) in tb.stss);
    KeyFramesRoundTrip(v.s, n, i);
  }

  lemma WrittenRoundTrip(v: View)
    requires v.Valid() && v.n > 0 && |ChunksOf(v.s, v.n)| < UINT32_MAX
    ensures var cs := ChunksOf(v.s, v.n);
            && WellFormed(StscOf(cs, |cs|), |cs|) && |WrittenOffsets(v)| == |cs|
            && DecodeChunks(StscOf(cs, |cs|), WrittenOffsets(v)) == MoveChunks(cs, v.d)
  {
    ChunksDescribe(v.s, v.n);
    StscRoundTrip(ChunksOf(v.s, v.n), v.d, WrittenOffsets(v));
  }

  function Shifted(s: seq<Sample>, d: nat): (t: seq<Sample>)
    ensures |t| == |s| && forall k :: 0 <= k < |s| ==> t[k] == s[k].(offset := s[k].offset + d)
  {
    seq(|s|, k requires 0 <= k < |s| => s[k].(offset := s[k].offset + d))
  }

  /**
   * The edit list comes back: one empty edit in front exactly when the track does not start at 0, then the
   * track's duration from its first composition offset on, or from 0 if that is negative.
   */
  lemma EditListSurvives(v: View, movieTimescale: u32)
    requires v.Valid() && Editable(v, movieTimescale)
    ensures var es, start := WrittenTables(v, movieTimescale).elst, StartTime(v.s[0].pts, movieTimescale, v.timescale);
            var time := if v.s[0].pts > v.s[0].dts then v.s[0].pts - v.s[0].dts else 0;
            && |es| == (if start > 0 then 2 else 1)
            && (start > 0 ==> es[0] == Edit(start, -1))
            && es[|es| - 1].duration == v.duration
            && (v.duration > UINT32_MAX || start > UINT32_MAX || time < TWO_31 ==> es[|es| - 1].mediaTime == time)
  {
    hide ChunksOf, StscOf, RunsOf, Deltas, OffsetsOf, Sized, WrittenOffsets, KeyNumbers, WrittenCtts;
    hide StartTime, EditsOf, PlanOf;
    EditsReadBack(v.s[0], movieTimescale, v.timescale, v.duration);
  }

  /**
   * The timeline comes back: it starts at the first pts, decoding times keep their distances
   * exactly when every gap is positive and fits 32 bits, and composition offsets keep theirs up to
   * the least negative one.
   */
  lemma TimelineSurvives(v: View, movieTimescale: u32, s: seq<Sample>, a: seq<Sample>, b: seq<Sample>, c: seq<Sample>)
    requires v.Valid() && Editable(v, movieTimescale) && OffsetsFit(v.s, v.n)
    requires var tb := WrittenTables(v, movieTimescale); tb.stsc != [] && Expanded(tb, s, a, b, c)
    ensures v.n < |c| && (SameElapsed(v.s, c, v.n) <==> GapsFit(v.s, v.n))
    ensures c[0].dts == FirstTime(v.s[0].pts, v.s[0].dts, movieTimescale, v.timescale, v.duration)
    ensures forall i :: 0 <= i < v.n ==>
      c[i].pts - c[i].dts == v.s[i].pts - v.s[i].dts - LeastOffset(v.s, v.n)
  {
    hide Timed, Composed, Describes, StscOf, ChunksOf, RunsOf, Deltas, OffsetsOf, EditsOf, PlanOf, WrittenOffsets;
    hide OffsetsFit, GapsFit, LeastOffset, KeyNumbers, WrittenCtts, OnlyTimesChanged, OnlyPtsChanged, StartOf;
    var n, tb := v.n, WrittenTables(v, movieTimescale);
    ExpandedLengths(tb, s, a, b, c);
    forall i | 0 <= i < n
      ensures c[i].dts == a[i].dts && c[i].pts - c[i].dts == v.s[i].pts - v.s[i].dts - LeastOffset(v.s, n)
    {
      OffsetSurvives(v.s, n, tb, a, b, c, i);
    }
    DecodingTimesRoundTrip(v.s, a, n);
    StartReadBack(v.s[0], movieTimescale, v.timescale, v.duration);
  }

  lemma ExpandedLengths(tb: Tables, s: seq<Sample>, a: seq<Sample>, b: seq<Sample>, c: seq<Sample>)
    requires tb.stsc != [] && Expanded(tb, s, a, b, c)
    ensures tb.count < |a| == |b| == |c|
  {
  }

  lemma TimedLength(rs: seq<Run>, a: seq<Sample>, n: nat)
    requires Timed(rs, a, n)
    ensures n < |a|
  {
  }

  lemma OffsetSurvives(s: seq<Sample>, n: nat, tb: Tables, a: seq<Sample>, b: seq<Sample>, c: seq<Sample>, i: nat)
    requires i < n <= |s| && n <= UINT32_MAX && OffsetsFit(s, n) && tb.ctts == WrittenCtts(s, n)
    requires Timed(tb.stts, a, n) && a[0].dts == a[0].pts && OnlyPtsChanged(a, b) && |c| == |b|
    requires Composed(tb.ctts, a, b, ShiftOf(tb.ctts, |tb.ctts|), if |tb.ctts| == 0 then 0 else n)
    requires c[i] == b[i].(key := c[i].key)
    ensures i < |a| && c[i].dts == a[i].dts && c[i].pts - c[i].dts == s[i].pts - s[i].dts - LeastOffset(s, n)
  {
    TimedLength(tb.stts, a, n);
    PtsStartsAsDts(tb.stts, a, n, i);
    hide Timed, Composed, RunsOf, OffsetsOf, LeastOffset, ShiftOf;
    CompositionOffsetsRoundTrip(s, a, b, n, i, tb.ctts);
  }

  lemma PtsStartsAsDts(rs: seq<Run>, a: seq<Sample>, n: nat, i: nat)
    requires Timed(rs, a, n) && i < n && a[0].dts == a[0].pts
    ensures a[i].pts == a[i].dts
  {
    if i > 0 {
      assert Follows(rs, a, i - 1);
    }
  }
}
