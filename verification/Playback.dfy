/** From mov_writer_write to the reader's samples: a fast-start file, written and read back. */
module Playback {
  import opened Bytes
  import opened Samples
  import opened ChunkTables
  import opened Stsz
  import opened Stco
  import opened TrackWriter
  import opened Moov
  import opened Relocation
  import opened MovWriter
  import opened FastStart
  import opened TrackRoundTrip
  import opened TrackReload
  import opened TrackRead

  lemma {:induction false} ChunkStartsAtSample(s: seq<Sample>, n: nat, j: nat)
    requires n <= |s| && n <= UINT32_MAX && j < |ChunksOf(s, n)|
    ensures exists k :: 0 <= k < n && ChunksOf(s, n)[j].offset == s[k].offset
  {
    if j < |ChunksOf(s, n - 1)| {
      ChunkStartsAtSample(s, n - 1, j);
      var k :| 0 <= k < n - 1 && ChunksOf(s, n - 1)[j].offset == s[k].offset;
      assert ChunksOf(s, n)[j].offset == s[k].offset;
    } else {
      assert ChunksOf(s, n)[j].offset == s[n - 1].offset;
    }
  }

  /** mov_write_stco looks at the last sample only; that suffices when no other lies behind it. */
  lemma LastOffsetDecidesWidth(v: View)
    requires v.Valid() && v.n > 0
    requires forall i :: 0 <= i < v.n ==> v.s[i].offset <= v.s[v.n - 1].offset
    ensures WidthHolds(WrittenOffsets(v), Wide(v.s, v.n, v.d))
    ensures Wide(v.s, v.n, v.d) <==> exists i :: 0 <= i < v.n && v.s[i].offset + v.d >= 0x1_0000_0000
  {
    var os := WrittenOffsets(v);
    forall j | 0 <= j < |os| && !Wide(v.s, v.n, v.d)
      ensures os[j] <= UINT32_MAX
    {
      ChunkStartsAtSample(v.s, v.n, j);
    }
  }

  /** Samples of one track lie in the file in the order in which they were written. */
  lemma RecordedAscends(w: MovWriter, j: nat, i: nat, k: nat)
    requires w.Valid() && j < |w.tracks| && i <= k < w.tracks[j].sampleCount
    ensures k < |w.tracks[j].samples| && w.tracks[j].samples[i].offset <= w.tracks[j].samples[k].offset
  {
    assert w.TrackOk(j);
    var t := w.tracks[j];
    if i < k {
      AtAscends(w.at[j], t.sampleCount, i, k);
      assert RecordedAt(j, t.samples, i, w.log, w.at[j], w.written[j], w.io.data);
      assert RecordedAt(j, t.samples, k, w.log, w.at[j], w.written[j], w.io.data);
      BlocksAscend(w.log, w.mdatOffset + 8, |w.io.data|, w.at[j][i], w.at[j][k]);
    }
  }

  lemma {:induction false} AtAscends(at: seq<nat>, n: nat, i: nat, k: nat)
    requires |at| == n && i < k < n && forall x :: 0 < x < n ==> at[x - 1] < at[x]
    ensures at[i] < at[k]
  {
    if i < k - 1 {
      AtAscends(at, n, i, k - 1);
    }
  }

  /** A recorded track loses no chunk offset to truncation, however far it is moved. */
  lemma RecordedIsStorable(w: MovWriter, vs: seq<View>, shift: nat, j: nat)
    requires w.Valid() && Viewed(w.tracks, vs) && j < |vs| && vs[j].n > 0
    requires Moved(vs, shift)[j].Valid() && PlainBoxes(vs[j])
    ensures Storable(Moved(vs, shift)[j]) <==> !AllEmpty(vs[j].s, vs[j].n)
  {
    var v := Moved(vs, shift)[j];
    forall i | 0 <= i < v.n
      ensures v.s[i].offset <= v.s[v.n - 1].offset
    {
      RecordedAscends(w, j, i, v.n - 1);
    }
    LastOffsetDecidesWidth(v);
    assert PlainBoxes(v) by {
      hide Plain;
    }
  }

  /** The file `e` holds every block, `shift` bytes further on than when it was recorded. */
  ghost predicate HoldsAll(vs: seq<View>, shift: nat, written: seq<seq<seq<byte>>>, e: seq<byte>)
  {
    forall j, k :: 0 <= j < |vs| && 0 <= k < vs[j].n ==> HoldsBlock(vs, shift, written, e, j, k)
  }

  ghost predicate HoldsBlock(vs: seq<View>, shift: nat, written: seq<seq<seq<byte>>>, e: seq<byte>, j: nat, k: nat)
    requires j < |vs|
  {
    && k < |vs[j].s| && j < |written| && k < |written[j]|
    && FastStart.Readable(vs, shift, written, e, j, k)
  }

  lemma AllHeld(w: MovWriter, vs: seq<View>, shift: nat, e: seq<byte>)
    requires w.Valid() && Viewed(w.tracks, vs)
    requires FrontLoaded(w.frame, vs, shift, w.io.data, w.mdatOffset, w.mdatSize, e)
    ensures HoldsAll(vs, shift, w.written, e)
  {
    hide FrontLoaded, Viewed, MovWriter.Valid, FastStart.Readable;
    forall j, k | 0 <= j < |vs| && 0 <= k < vs[j].n
      ensures HoldsBlock(vs, shift, w.written, e, j, k)
    {
      AllReadable(w, vs, j, k, shift, e);
    }
  }

  /** From such a file the expanded tables give every block back. */
  lemma BytesAreReadBack(w: MovWriter, vs: seq<View>, shift: nat, e: seq<byte>, j: nat, k: nat,
                         s: seq<Sample>, a: seq<Sample>, b: seq<Sample>, c: seq<Sample>)
    requires w.Valid() && Viewed(w.tracks, vs) && j < |vs| && k < vs[j].n && HoldsAll(vs, shift, w.written, e)
    requires var v := Moved(vs, shift)[j];
             && v.Valid() && Editable(v, w.frame.movieTimescale) && |ChunksOf(v.s, v.n)| < UINT32_MAX
             && var tb := WrittenTables(v, w.frame.movieTimescale);
             tb.stsc != [] && Expanded(tb, s, a, b, c)
    ensures j < |w.written| && k < |w.written[j]| && k < |c|
    ensures c[k].offset + c[k].bytes <= |e| && e[c[k].offset..c[k].offset + c[k].bytes] == w.written[j][k]
  {
    hide Expanded, WrittenTables, Viewed, ChunksOf, Editable, AllWritable, OffsetsFit64, MovWriter.Valid;
    var v := Moved(vs, shift)[j];
    PlacementSurvives(v, w.frame.movieTimescale, s, a, b, c, k);
    UnmovedTrack(w, vs, j);
    assert HoldsBlock(vs, shift, w.written, e, j, k);
  }

  /**
   * Fast start end to end: `e` is the finished file, `c` the samples that mov_read_trak expands from
   * the track's boxes in it. The bytes found at every decoded offset are the bytes that were written.
   */
  lemma WrittenBytesAreReadBack(w: MovWriter, vs: seq<View>, shift: nat, e: seq<byte>, j: nat, k: nat,
                                s: seq<Sample>, a: seq<Sample>, b: seq<Sample>, c: seq<Sample>)
    requires w.Valid() && Viewed(w.tracks, vs) && j < |vs| && k < vs[j].n
    requires FrontLoaded(w.frame, vs, shift, w.io.data, w.mdatOffset, w.mdatSize, e)
    requires var v := Moved(vs, shift)[j];
             && v.Valid() && Editable(v, w.frame.movieTimescale) && |ChunksOf(v.s, v.n)| < UINT32_MAX
             && var tb := WrittenTables(v, w.frame.movieTimescale);
             tb.stsc != [] && Expanded(tb, s, a, b, c)
    ensures j < |w.written| && k < |w.written[j]| && k < |c|
    ensures c[k].offset + c[k].bytes <= |e| && e[c[k].offset..c[k].offset + c[k].bytes] == w.written[j][k]
  {
    hide Expanded, FrontLoaded, WrittenTables, Viewed, ChunksOf, Editable, OffsetsFit64, HoldsAll, MovWriter.Valid;
    AllHeld(w, vs, shift, e);
    BytesAreReadBack(w, vs, shift, e, j, k, s, a, b, c);
  }

  lemma UnmovedTrack(w: MovWriter, vs: seq<View>, j: nat)
    requires w.Valid() && Viewed(w.tracks, vs) && j < |vs|
    ensures vs[j].d == 0
  {
    assert w.TrackOk(j);
  }
}
