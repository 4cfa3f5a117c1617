/** mov_writer_destroy: finishing mdat, writing moov and moving it to the front. */
module FastStart {
  import opened Bytes
  import opened Samples
  import opened Tracks
  import opened MovStream
  import opened Boxes
  import opened TrackWriter
  import opened Moov
  import opened Relocation
  import opened Rotate
  import opened MovWriter

  // ---------- the header of mdat ----------

  /** The bytes and the place of the final mdat header: a large one also takes the free box. */
  function MdatStart(offset: nat, size: nat): nat
    requires 8 <= offset
  {
    if size + 8 <= UINT32_MAX then offset else offset - 8
  }

  function MdatHeader(size: nat): (bs: seq<byte>)
    requires size + 16 < TWO_64
    ensures |bs| <= 16
  {
    if size + 8 <= UINT32_MAX then BE32(size + 8) else BE32(1) + BE32(TAG_MDAT) + BE64(size + 16)
  }

  method SealMdat(w: MovWriter)
    requires w.Valid() && w.mdatSize + 16 < TWO_64
    modifies w`mdatOffset, w.io
    ensures w.io.Valid() && w.io.pos == |w.io.data| == |old(w.io.data)|
    ensures w.mdatOffset == MdatStart(old(w.mdatOffset), w.mdatSize)
    ensures w.io.data == Splice(old(w.io.data), w.mdatOffset, MdatHeader(w.mdatSize))
  {
    hide Splice, BE32, BE64, RecordedAt, Recorded, BackToBack;
    var io, end := w.io, w.io.pos;
    if w.mdatSize + 8 <= UINT32_MAX {
      io.Seek(w.mdatOffset);
      io.W32(w.mdatSize + 8);
      DoneIs(BE32(w.mdatSize + 8));
    } else {
      w.mdatOffset := w.mdatOffset - 8;
      io.Seek(w.mdatOffset);
      io.W32(1);
      io.W32(TAG_MDAT);
      io.W64(w.mdatSize + 16);
      DoneIs(BE32(1));
    }
    io.Seek(end);
  }

  lemma DoneIs(bs: seq<byte>)
    ensures [] + bs == bs
  {
  }

  // ---------- the media data ----------

  /** Where a sample's bytes are, its block is inside mdat. */
  lemma SampleInside(w: MovWriter, j: nat, k: nat)
    requires w.Valid() && j < |w.tracks| && k < w.tracks[j].sampleCount
    ensures k < |w.tracks[j].samples| && j < |w.written| && k < |w.written[j]|
    ensures var x := w.tracks[j].samples[k];
            && w.mdatOffset + 8 <= x.offset && x.offset + x.bytes <= |w.io.data|
            && w.io.data[x.offset..x.offset + x.bytes] == w.written[j][k]
  {
    assert w.TrackOk(j);
    var t := w.tracks[j];
    assert RecordedAt(j, t.samples, k, w.log, w.at[j], w.written[j], w.io.data);
    BlocksInside(w.log, w.mdatOffset + 8, |w.io.data|, w.at[j][k]);
  }

  /** Two different samples never share a byte, whatever tracks they belong to. */
  lemma SamplesDisjoint(w: MovWriter, i: nat, j: nat, k: nat, l: nat)
    requires w.Valid() && i < |w.tracks| && j < |w.tracks| && (i != j || k != l)
    requires k < w.tracks[i].sampleCount && l < w.tracks[j].sampleCount
    ensures k < |w.tracks[i].samples| && l < |w.tracks[j].samples|
    ensures var x, y := w.tracks[i].samples[k], w.tracks[j].samples[l];
            x.offset + x.bytes <= y.offset || y.offset + y.bytes <= x.offset
  {
    assert w.TrackOk(i) && w.TrackOk(j);
    var s, t := w.tracks[i].samples, w.tracks[j].samples;
    assert RecordedAt(i, s, k, w.log, w.at[i], w.written[i], w.io.data);
    assert RecordedAt(j, t, l, w.log, w.at[j], w.written[j], w.io.data);
    var a, b := w.at[i][k], w.at[j][l];
    if a < b {
      BlocksAscend(w.log, w.mdatOffset + 8, |w.io.data|, a, b);
    } else if b < a {
      BlocksAscend(w.log, w.mdatOffset + 8, |w.io.data|, b, a);
    }
  }

  lemma {:induction false} SampleBytesAre(w: MovWriter, m: nat)
    requires w.Valid() && m <= |w.tracks|
    ensures forall j :: 0 <= j < |w.tracks| ==> w.tracks[j].Valid()
    ensures SampleBytes(w.tracks, m) == TracksBytes(w.log, |w.log|, m)
  {
    hide RecordedAt, BackToBack, Fronted, Headed;
    forall j | 0 <= j < |w.tracks|
      ensures w.tracks[j].Valid()
    {
      assert w.TrackOk(j);
    }
    if m > 0 {
      SampleBytesAre(w, m - 1);
      var j := m - 1;
      var t := w.tracks[j];
      assert w.TrackOk(j);
      LastLogged(j, t.samples, t.sampleCount, w.log, w.at[j], w.written[j], w.io.data);
      TrackBytesAre(j, t.samples, t.sampleCount, w.log, w.at, w.written[j], w.io.data, |w.log|, t.sampleCount);
    }
  }

  lemma LastLogged(t: nat, s: seq<Sample>, n: nat, log: seq<Block>, at: seq<nat>, w: seq<seq<byte>>, data: seq<byte>)
    requires Recorded(t, s, n, log, at, w, data)
    ensures |at| == n <= |s| && (n > 0 ==> at[n - 1] < |log|)
  {
    assert n > 0 ==> RecordedAt(t, s, n - 1, log, at, w, data);
  }

  /** The sizes of all samples recorded so far, of all tracks together, are exactly mdat_size. */
  lemma SizesSumToMdat(w: MovWriter)
    requires w.Valid()
    ensures forall j :: 0 <= j < |w.tracks| ==> w.tracks[j].Valid()
    ensures SampleBytes(w.tracks, |w.tracks|) == BlockSum(w.log, |w.log|) == w.mdatSize
  {
    hide Recorded, Fronted, Headed;
    SampleBytesAre(w, |w.tracks|);
    forall i | 0 <= i < |w.log|
      ensures w.log[i].track < |w.tracks|
    {
      assert InBooks(w.log[i], i, w.at);
    }
    TracksAreAll(w.log, |w.log|, |w.tracks|);
    BlocksSum(w.log, w.mdatOffset + 8, |w.io.data|, |w.log|);
  }

  // ---------- moov behind mdat ----------

  lemma {:induction false} FitsBySize(t: Tree)
    requires SizeOf(t) <= UINT32_MAX
    ensures Fits(t)
  {
    if t.Node? {
      forall i | 0 <= i < |t.children|
        ensures Fits(t.children[i])
      {
        ChildSmaller(t.children, |t.children|, i);
        FitsBySize(t.children[i]);
      }
    }
  }

  lemma {:induction false} ChildSmaller(ts: seq<Tree>, n: nat, i: nat)
    requires i < n <= |ts|
    ensures SizeOf(ts[i]) <= SizeOfAll(ts, n)
  {
    if i < n - 1 {
      ChildSmaller(ts, n - 1, i);
    }
  }

  /** What WriteMoov does to the file, wherever it starts. */
  method WriteMoovAt(io: Stream, tracks: seq<Track>, f: Frame, ghost vs: seq<View>) returns (size: u32)
    requires io.Valid() && f.Valid() && Viewed(tracks, vs) && AllWritable(vs, f.movieTimescale)
    requires SizeOf(MoovTree(f, vs)) <= UINT32_MAX
    modifies io, tracks
    ensures io.Valid() && Viewed(tracks, vs) && AllMarked(tracks, vs, |tracks|)
    ensures Fits(MoovTree(f, vs)) && size == SizeOf(MoovTree(f, vs))
    ensures old(io.pos) <= |old(io.data)|
    ensures io.data == Splice(old(io.data), old(io.pos), Serialize(MoovTree(f, vs)))
    ensures io.pos == old(io.pos) + size
  {
    hide Splice, MoovTree, Serialize, SizeOf, Viewed, AllMarked, Fits;
    FitsBySize(MoovTree(f, vs));
    PosInside(io);
    SpliceAppend(io.base, io.start, io.done, Serialize(MoovTree(f, vs)));
    size := WriteMoov(io, tracks, f, vs);
  }

  lemma PosInside(io: Stream)
    requires io.Valid()
    ensures io.pos <= |io.data|
  {
  }

  /** Every track's offset grows by x. */
  method ShiftTracks(tracks: seq<Track>, x: nat, ghost vs: seq<View>)
    requires Viewed(tracks, vs)
    requires forall i, j :: 0 <= i < j < |tracks| ==> tracks[i] != tracks[j]
    modifies tracks
    ensures Viewed(tracks, Moved(vs, x))
    ensures forall j :: 0 <= j < |tracks| ==>
      tracks[j].samples == old(tracks[j].samples) && tracks[j].sampleCount == old(tracks[j].sampleCount)
  {
    var i: nat := 0;
    while i < |tracks|
      invariant i <= |tracks|
      invariant forall j :: 0 <= j < |tracks| ==>
        && tracks[j].Valid() && LeavesReady(tracks[j])
        && ViewOf(tracks[j]) == if j < i then vs[j].(d := vs[j].d + x) else vs[j]
      invariant forall j :: 0 <= j < |tracks| ==>
        tracks[j].samples == old(tracks[j].samples) && tracks[j].sampleCount == old(tracks[j].sampleCount)
    {
      tracks[i].offset := tracks[i].offset + x;
      i := i + 1;
    }
  }

  // ---------- moov in front of mdat ----------

  /** No file position of the finished file leaves the range of a signed 64-bit offset. */
  ghost predicate FileFits(w: MovWriter, vs: seq<View>)
    requires AllWritable(vs, w.frame.movieTimescale) && Countable(vs)
    reads w, w.io
  {
    var most := SizeOf(MoovTree(w.frame, vs)) + MaxGrowth(vs, |vs|);
    most < TWO_31 && |w.io.data| + most < TWO_63
  }

  lemma MovedWritable(w: MovWriter, vs: seq<View>, x: nat)
    requires w.Valid() && Viewed(w.tracks, vs) && AllWritable(vs, w.frame.movieTimescale)
    requires |w.io.data| + x < TWO_63
    ensures AllWritable(Moved(vs, x), w.frame.movieTimescale)
  {
    forall j | 0 <= j < |vs|
      ensures Writable(Moved(vs, x)[j], w.frame.movieTimescale)
    {
      var v := vs[j];
      assert Writable(v, w.frame.movieTimescale) && w.TrackOk(j) && ViewOf(w.tracks[j]) == v;
      forall k | 0 <= k < v.n
        ensures v.s[k].offset + v.d + x < TWO_64
      {
        SampleInside(w, j, k);
      }
    }
  }

  lemma Rewritten(d: seq<byte>, a: seq<byte>, b: seq<byte>)
    requires |a| <= |b|
    ensures Splice(Splice(d, |d|, a), |d|, b) == d + b
  {
  }

  lemma MovedToFront(d: seq<byte>, m: nat, bs: seq<byte>)
    requires m <= |d|
    ensures Rotated(d + bs, m, |d|, |bs|) == d[..m] + bs + d[m..]
  {
  }

  /** A block behind the insertion point is found `|bs|` bytes further on. */
  lemma BlockShifted(d: seq<byte>, e: seq<byte>, m: nat, bs: seq<byte>, h: seq<byte>, o: nat, n: nat)
    requires m + |h| <= o && o + n <= |d| && e == Splice(d, m, h)
    ensures |e| == |d|
    ensures (e[..m] + bs + e[m..])[o + |bs|..o + |bs| + n] == d[o..o + n]
  {
    assert e[m + |h|..] == d[m + |h|..];
    assert e[o..o + n] == e[m + |h|..][o - m - |h|..o - m - |h| + n] == d[o..o + n];
    BehindBoth(e[..m], bs, e[m..], o - m, n);
    assert e[m..][o - m..o - m + n] == e[o..o + n];
  }

  lemma BehindBoth(a: seq<byte>, b: seq<byte>, c: seq<byte>, o: nat, n: nat)
    requires o + n <= |c|
    ensures (a + b + c)[|a| + |b| + o..|a| + |b| + o + n] == c[o..o + n]
  {
  }

  /** The sealed file with moov between what precedes mdat and mdat itself. */
  ghost function Finished(d: seq<byte>, mdatOffset: nat, mdatSize: nat, moov: seq<byte>): seq<byte>
    requires 8 <= mdatOffset <= |d| && mdatSize + 16 < TWO_64
  {
    var m := MdatStart(mdatOffset, mdatSize);
    var e := Splice(d, m, MdatHeader(mdatSize));
    e[..m] + moov + e[m..]
  }

  /** `e` is the sealed file `d` with the moov of the tracks moved by its own size put in front of mdat. */
  ghost predicate FrontLoaded(f: Frame, vs: seq<View>, shift: nat, d: seq<byte>, mdatOffset: nat,
                              mdatSize: nat, e: seq<byte>)
  {
    && AllWritable(Moved(vs, shift), f.movieTimescale)
    && var t := MoovTree(f, Moved(vs, shift));
    && shift == SizeOf(t) && Fits(t)
    && 8 <= mdatOffset <= |d| && mdatSize + 16 < TWO_64
    && e == Finished(d, mdatOffset, mdatSize, Serialize(t))
  }

  lemma SizePositive(t: Tree)
    ensures SizeOf(t) >= 8
  {
  }

  lemma AllMovesWritable(w: MovWriter, vs: seq<View>, most: nat)
    requires w.Valid() && Viewed(w.tracks, vs) && AllWritable(vs, w.frame.movieTimescale)
    requires |w.io.data| + most < TWO_63
    ensures forall x: nat :: x <= most ==> AllWritable(Moved(vs, x), w.frame.movieTimescale)
  {
    forall x: nat | x <= most
      ensures AllWritable(Moved(vs, x), w.frame.movieTimescale)
    {
      MovedWritable(w, vs, x);
    }
  }

  /** moov is written to learn its size, the tracks are moved by what it will take, and moov is written again. */
  method WriteMoovMoved(io: Stream, tracks: seq<Track>, f: Frame, ghost vs: seq<View>) returns (shift: nat)
    requires io.Valid() && io.pos == |io.data| && f.Valid() && Viewed(tracks, vs) && AllWritable(vs, f.movieTimescale) && Countable(vs)
    requires forall i, j :: 0 <= i < j < |tracks| ==> tracks[i] != tracks[j]
    requires var most := SizeOf(MoovTree(f, vs)) + MaxGrowth(vs, |vs|);
             most < TWO_31 && forall x: nat :: x <= most ==> AllWritable(Moved(vs, x), f.movieTimescale)
    modifies io, tracks
    ensures io.Valid() && Viewed(tracks, Moved(vs, shift)) && AllWritable(Moved(vs, shift), f.movieTimescale)
    ensures var t := MoovTree(f, Moved(vs, shift));
            && shift == SizeOf(t) && Fits(t)
            && io.data == old(io.data) + Serialize(t) && io.pos == |old(io.data)| + shift
  {
    hide Splice, MoovTree, Serialize, SizeOf, Viewed, AllMarked, Fits, AllWritable, Countable, TotalGrowth;
    hide MaxGrowth, Moved;
    ghost var d1 := io.data;
    var offset := io.pos;
    var size0 := WriteMoovAt(io, tracks, f, vs);
    var offset2 := io.pos;
    var co64 := CoGrowth(tracks, offset2 - offset, vs);
    shift := offset2 - offset + co64;
    MoovGrowth(f, vs, shift);
    ShiftTracks(tracks, shift, vs);
    io.Seek(offset);
    var size1 := WriteMoovAt(io, tracks, f, Moved(vs, shift));
    assert io.pos == offset2 + co64;
    Rewritten(d1, Serialize(MoovTree(f, vs)), Serialize(MoovTree(f, Moved(vs, shift))));
  }

  /** mov_writer_destroy with MOV_FLAG_FASTSTART. */
  method FinishFastStart(w: MovWriter, ghost vs: seq<View>) returns (shift: nat)
    requires w.Valid() && Viewed(w.tracks, vs) && AllWritable(vs, w.frame.movieTimescale)
    requires Countable(vs) && FileFits(w, vs)
    modifies w`mdatOffset, w.io, w.tracks
    ensures Viewed(w.tracks, Moved(vs, shift))
    ensures FrontLoaded(w.frame, vs, shift, old(w.io.data), old(w.mdatOffset), w.mdatSize, w.io.data)
  {
    hide Splice, MoovTree, Serialize, SizeOf, Viewed, AllMarked, Fits, AllWritable, Countable, TotalGrowth, MaxGrowth;
    hide MdatHeader, RecordedAt, Recorded, BackToBack, Fronted, Headed, Rotated, Moved, FrontLoaded;
    var io, tracks, f := w.io, w.tracks, w.frame;
    AllMovesWritable(w, vs, SizeOf(MoovTree(f, vs)) + MaxGrowth(vs, |vs|));
    SealMdat(w);
    ghost var d1 := io.data;
    var offset := io.pos;
    shift := WriteMoovMoved(io, tracks, f, vs);
    ghost var moov1 := Serialize(MoovTree(f, Moved(vs, shift)));
    MovedToFront(d1, w.mdatOffset, moov1);
    SizePositive(MoovTree(f, Moved(vs, shift)));
    var r := Move(io, w.mdatOffset, offset, io.pos - offset);
    FrontHolds(f, vs, shift, old(io.data), old(w.mdatOffset), w.mdatSize, d1, io.data);
  }

  lemma FrontHolds(f: Frame, vs: seq<View>, shift: nat, d: seq<byte>, mdatOffset: nat, mdatSize: nat,
                   d1: seq<byte>, e: seq<byte>)
    requires AllWritable(Moved(vs, shift), f.movieTimescale) && 8 <= mdatOffset <= |d| && mdatSize + 16 < TWO_64
    requires var t, m := MoovTree(f, Moved(vs, shift)), MdatStart(mdatOffset, mdatSize);
             && shift == SizeOf(t) && Fits(t) && m <= |d1| && d1 == Splice(d, m, MdatHeader(mdatSize))
             && e == d1[..m] + Serialize(t) + d1[m..]
    ensures FrontLoaded(f, vs, shift, d, mdatOffset, mdatSize, e)
  {
    hide Splice, MoovTree, Serialize, SizeOf, Fits, AllWritable, MdatHeader, Moved;
  }

  /** Sample k of track j as the finished file shows it. */
  ghost predicate Readable(vs: seq<View>, shift: nat, written: seq<seq<seq<byte>>>, data: seq<byte>, j: nat, k: nat)
    requires j < |vs| && k < |vs[j].s| && j < |written| && k < |written[j]|
  {
    var x := vs[j].s[k];
    && x.offset + shift + x.bytes <= |data|
    && data[x.offset + shift..x.offset + shift + x.bytes] == written[j][k]
  }

  /** Before finishing, every sample of every track is in the file, behind the mdat header. */
  lemma AllReadable(w: MovWriter, vs: seq<View>, j: nat, k: nat, shift: nat, e: seq<byte>)
    requires w.Valid() && Viewed(w.tracks, vs) && j < |vs| && k < vs[j].n
    requires FrontLoaded(w.frame, vs, shift, w.io.data, w.mdatOffset, w.mdatSize, e)
    ensures k < |vs[j].s| && j < |w.written| && k < |w.written[j]| && Readable(vs, shift, w.written, e, j, k)
  {
    hide MoovTree, Serialize, SizeOf, Fits, AllWritable, Splice, MovWriter.Valid, LeavesReady, BE32, BE64;
    SampleInside(w, j, k);
    var t := MoovTree(w.frame, Moved(vs, shift));
    var x := w.tracks[j].samples[k];
    assert Media(x) == vs[j].s[k];
    var m, h := MdatStart(w.mdatOffset, w.mdatSize), MdatHeader(w.mdatSize);
    BlockShifted(w.io.data, Splice(w.io.data, m, h), m, Serialize(t), h, x.offset, x.bytes);
  }
}
