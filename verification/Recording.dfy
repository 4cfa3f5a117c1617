/**
 * A file that can be played while it is still being written: moov is kept in a hole of MOOV_LEN
 * bytes in front of mdat and rewritten there between two samples.
 */
module Recording {
  import opened Bytes
  import opened Samples
  import opened Tracks
  import opened MovStream
  import opened Boxes
  import opened Stts
  import opened TrackWriter
  import opened Moov
  import opened MovWriter
  import TR = TrackReader
  import FastStart

  // ---------- walking the top-level boxes ----------

  /** Following the box sizes from byte p visits boxes with these tags and ends at the end of the file. */
  ghost predicate Tiles(d: seq<byte>, p: nat, tags: seq<u32>)
    decreases |tags|
  {
    if tags == [] then p == |d|
    else
      && p + 8 <= |d| && U32At(d, p) >= 8 && U32At(d, p + 4) == tags[0]
      && Tiles(d, p + U32At(d, p) as int, tags[1..])
  }

  const LAYOUT: seq<u32> := [TAG_FTYP, TAG_PWDT, TAG_MOOV, TAG_SKIP, TAG_MDAT]

  /** The size of the skip box behind a moov of this size: computed in 64 unsigned bits, written in 32. */
  function SkipSize(size: nat): u32 { ToU32((8 + MOOV_LEN - size) % TWO_64) }

  /** moov as mov_write_moov_ex leaves it, followed by the header of the box that covers the rest of the hole. */
  function Hole(moov: seq<byte>): (bs: seq<byte>)
    ensures |bs| == |moov| + 8
  {
    moov + BE32(SkipSize(|moov|)) + BE32(TAG_SKIP)
  }

  /** The file after one update. */
  function Updated(d: seq<byte>, moovOffset: nat, mdatOffset: nat, mdatSize: nat, moov: seq<byte>): (e: seq<byte>)
    requires moovOffset + 8 + MOOV_LEN == mdatOffset && mdatOffset + 8 <= |d|
    requires mdatSize + 8 <= UINT32_MAX
    ensures |e| == if moovOffset + |moov| + 8 <= |d| then |d| else moovOffset + |moov| + 8
  {
    Splice(Splice(d, mdatOffset, BE32(mdatSize + 8)), moovOffset, Hole(moov))
  }

  /** The last of two overlapping header words wins; everything else is where it was written. */
  lemma UpdatedBytes(d: seq<byte>, m: nat, mdat: nat, n: nat, moov: seq<byte>)
    requires m + 8 + MOOV_LEN == mdat && mdat + 8 <= |d| && n + 8 <= UINT32_MAX
    ensures var e := Updated(d, m, mdat, n, moov);
            && e[..m] == d[..m]
            && e[m..m + |moov|] == moov
            && e[m + |moov|..m + |moov| + 4] == BE32(SkipSize(|moov|))
            && e[m + |moov| + 4..m + |moov| + 8] == BE32(TAG_SKIP)
            && (|moov| <= 8 + MOOV_LEN ==> |e| == |d| && e[mdat + 8..] == d[mdat + 8..])
            && (|moov| <= MOOV_LEN ==> e[mdat..mdat + 4] == BE32(n + 8) && e[mdat + 4..mdat + 8] == d[mdat + 4..mdat + 8])
  {
    hide BE32;
    var x := Splice(d, mdat, BE32(n + 8));
    assert x[mdat..mdat + 4] == BE32(n + 8) && x[mdat + 4..mdat + 8] == d[mdat + 4..mdat + 8];
    var e := Updated(d, m, mdat, n, moov);
    if |moov| <= MOOV_LEN {
      assert e[mdat..mdat + 4] == x[mdat..mdat + 4];
    }
  }

  lemma WordIs(d: seq<byte>, p: nat, v: u32)
    requires p + 4 <= |d| && d[p..p + 4] == BE32(v)
    ensures U32At(d, p) == v
  {
    BE32Decodes(v);
    U32AtSlice(d, p, 4, 0);
    assert BE32(v)[0..4] == BE32(v);
  }

  /** The headers that an update leaves in the file. */
  lemma UpdatedWords(d: seq<byte>, free: nat, m: nat, mdat: nat, n: nat, moov: seq<byte>)
    requires Fronted(d, free, m, mdat) && n + 8 <= UINT32_MAX && 8 <= |moov|
    requires U32At(moov, 0) == |moov| && U32At(moov, 4) == TAG_MOOV
    ensures var e := Updated(d, m, mdat, n, moov);
            && U32At(e, 0) == free - 8 && U32At(e, 4) == TAG_FTYP
            && U32At(e, free - 8) == 8 + PW_DATA_LEN && U32At(e, free - 4) == TAG_PWDT
            && U32At(e, m) == |moov| && U32At(e, m + 4) == TAG_MOOV
            && U32At(e, m + |moov|) == SkipSize(|moov|) && U32At(e, m + |moov| + 4) == TAG_SKIP
            && (|moov| <= MOOV_LEN ==> U32At(e, mdat) == n + 8 && U32At(e, mdat + 4) == TAG_MDAT)
  {
    hide BE32, U32At, Splice, Updated, SkipSize;
    var e := Updated(d, m, mdat, n, moov);
    UpdatedBytes(d, m, mdat, n, moov);
    Below(d, e, m, 0);
    Below(d, e, m, 4);
    Below(d, e, m, free - 8);
    Below(d, e, m, free - 4);
    U32AtSlice(e, m, |moov|, 0);
    U32AtSlice(e, m, |moov|, 4);
    WordIs(e, m + |moov|, SkipSize(|moov|));
    WordIs(e, m + |moov| + 4, TAG_SKIP);
    if |moov| <= MOOV_LEN {
      WordIs(e, mdat, n + 8);
      SameWord(d, e, mdat + 4);
    }
  }

  lemma Below(d: seq<byte>, e: seq<byte>, m: nat, p: nat)
    requires m <= |d| && m <= |e| && e[..m] == d[..m] && p + 4 <= m
    ensures U32At(e, p) == U32At(d, p)
  {
    assert e[p..p + 4] == e[..m][p..p + 4] == d[..m][p..p + 4] == d[p..p + 4];
    SameWord(d, e, p);
  }

  /**
   * The skip box fills the hole if moov leaves room for it. A few bytes less, and its size is no box size;
   * a larger moov wraps the size around to more than any file can hold.
   */
  lemma SkipSizeIs(size: nat)
    requires size < TWO_32
    ensures size <= 8 + MOOV_LEN ==> SkipSize(size) == 8 + MOOV_LEN - size
    ensures size > 8 + MOOV_LEN ==> SkipSize(size) == TWO_32 + 8 + MOOV_LEN - size
  {
    if size > 8 + MOOV_LEN {
      assert (8 + MOOV_LEN - size) % TWO_64 == TWO_64 + 8 + MOOV_LEN - size;
      assert TWO_64 == TWO_32 * (TWO_32 - 1) + TWO_32;
    }
  }

  /**
   * After an update the boxes ftyp, pwdt, moov, skip and mdat tile the file exactly when moov is at
   * most MOOV_LEN bytes long. The assertion in mov_write_moov_ex compares unsigned numbers, so that every
   * size passes it except the one that leaves nothing for skip.
   */
  lemma UpdatedTilesIff(d: seq<byte>, free: nat, m: nat, mdat: nat, n: nat, moov: seq<byte>)
    requires Fronted(d, free, m, mdat) && n + 8 <= UINT32_MAX && 8 <= |moov| < TWO_32 && |moov| != 8 + MOOV_LEN
    requires U32At(moov, 0) == |moov| && U32At(moov, 4) == TAG_MOOV && |d| == mdat + 8 + n
    ensures Tiles(Updated(d, m, mdat, n, moov), 0, LAYOUT) <==> |moov| <= MOOV_LEN
  {
    hide U32At, Updated, Fronted, Headed, SkipSize;
    FrontedPlaces(d, free, m, mdat);
    UpdatedWords(d, free, m, mdat, n, moov);
    SkipSizeIs(|moov|);
    var e := Updated(d, m, mdat, n, moov);
    var skip := m + |moov|;
    assert Tiles(e, 0, LAYOUT) == Tiles(e, free - 8, LAYOUT[1..]);
    assert LAYOUT[1..] == [TAG_PWDT, TAG_MOOV, TAG_SKIP, TAG_MDAT];
    assert Tiles(e, free - 8, LAYOUT[1..]) == Tiles(e, m, LAYOUT[1..][1..]);
    assert LAYOUT[1..][1..] == [TAG_MOOV, TAG_SKIP, TAG_MDAT];
    assert Tiles(e, m, [TAG_MOOV, TAG_SKIP, TAG_MDAT]) == Tiles(e, skip, [TAG_MOOV, TAG_SKIP, TAG_MDAT][1..]);
    assert [TAG_MOOV, TAG_SKIP, TAG_MDAT][1..] == [TAG_SKIP, TAG_MDAT];
    assert [TAG_SKIP, TAG_MDAT][1..] == [TAG_MDAT];
    if |moov| <= MOOV_LEN {
      assert Tiles(e, skip, [TAG_SKIP, TAG_MDAT]) == Tiles(e, mdat, [TAG_MDAT]);
      assert Tiles(e, mdat, [TAG_MDAT]) == Tiles(e, |e|, [TAG_MDAT][1..]);
    } else if |moov| > 8 + MOOV_LEN {
      assert skip + SkipSize(|moov|) as int == mdat + TWO_32 > |e|;
      assert !Tiles(e, mdat + TWO_32, [TAG_MDAT]);
    }
  }

  /**
   * The media bytes stay, whatever they are, exactly when moov takes no more than the hole and the header
   * of mdat behind it; a larger moov is written over them.
   */
  lemma MediaStaysIff(front: seq<byte>, m: nat, n: nat, moov: seq<byte>)
    requires m + 8 + MOOV_LEN + 8 == |front| && n + 8 <= UINT32_MAX
    ensures (forall media: seq<byte> :: |media| == n ==> MediaStays(front, m, media, moov)) <==> |moov| <= 8 + MOOV_LEN
  {
    hide Updated, MediaStays;
    var zeros, ones: seq<byte> := seq(n, _ => 0), seq(n, _ => 1);
    if |moov| <= 8 + MOOV_LEN {
      forall media: seq<byte> | |media| == n
        ensures MediaStays(front, m, media, moov)
      {
        Overwritten(front, m, media, moov);
      }
    } else {
      Overwritten(front, m, zeros, moov);
      Overwritten(front, m, ones, moov);
    }
  }

  ghost predicate MediaStays(front: seq<byte>, m: nat, media: seq<byte>, moov: seq<byte>)
    requires m + 8 + MOOV_LEN + 8 == |front| && |media| + 8 <= UINT32_MAX
  {
    Updated(front + media, m, |front| - 8, |media|, moov)[|front|..] == media
  }

  /** What an update leaves of the media bytes. */
  lemma Overwritten(front: seq<byte>, m: nat, media: seq<byte>, moov: seq<byte>)
    requires m + 8 + MOOV_LEN + 8 == |front| && |media| + 8 <= UINT32_MAX
    ensures |moov| <= 8 + MOOV_LEN ==> MediaStays(front, m, media, moov)
    ensures |moov| > 8 + MOOV_LEN && MediaStays(front, m, media, moov) ==>
      |media| > 0 && media[0] == Hole(moov)[16 + MOOV_LEN]
  {
    hide BE32, SkipSize;
    var mdat := |front| - 8;
    var d, e := front + media, Updated(front + media, m, mdat, |media|, moov);
    if |moov| <= 8 + MOOV_LEN {
      UpdatedBytes(d, m, mdat, |media|, moov);
      assert d[|front|..] == media;
    } else {
      assert e[|front|] == Hole(moov)[|front| - m];
    }
  }

  lemma FrontedPlaces(d: seq<byte>, free: nat, m: nat, mdat: nat)
    requires Fronted(d, free, m, mdat)
    ensures 16 <= free && free + PW_DATA_LEN == m && m + 8 + MOOV_LEN == mdat && mdat + 8 <= |d|
  {
  }

  /** An update that fits keeps the boxes in front; so does any change outside their headers. */
  lemma UpdatedFronted(d: seq<byte>, free: nat, m: nat, mdat: nat, n: nat, moov: seq<byte>)
    requires Fronted(d, free, m, mdat) && n + 8 <= UINT32_MAX && 8 <= |moov| <= MOOV_LEN
    requires U32At(moov, 0) == |moov| && U32At(moov, 4) == TAG_MOOV
    ensures Fronted(Updated(d, m, mdat, n, moov), free, m, mdat)
  {
    hide U32At, Updated;
    UpdatedWords(d, free, m, mdat, n, moov);
  }

  // ---------- the media data stays ----------

  /** Only scratch fields changed in the samples, and no byte at or behind `lo` in the file. */
  lemma RecordedStays(t: nat, s: seq<Sample>, s': seq<Sample>, n: nat, log: seq<Block>, at: seq<nat>, w: seq<seq<byte>>,
                      data: seq<byte>, data': seq<byte>, lo: nat, hi: nat)
    requires Recorded(t, s, n, log, at, w, data) && BackToBack(log, lo, hi)
    requires MediaOf(s) == MediaOf(s') && |data| == |data'| && lo <= |data| && data[lo..] == data'[lo..]
    ensures Recorded(t, s', n, log, at, w, data')
  {
    assert |s'| == |MediaOf(s')| == |s|;
    forall k | 0 <= k < n
      ensures RecordedAt(t, s', k, log, at, w, data')
    {
      assert RecordedAt(t, s, k, log, at, w, data);
      assert Media(s[k]) == MediaOf(s)[k] == MediaOf(s')[k] == Media(s'[k]);
      BlocksInside(log, lo, hi, at[k]);
      TailSlice(data, data', lo, s[k].offset, s[k].bytes);
    }
  }

  lemma KeptStays(s: seq<Sample>, s': seq<Sample>, n: nat, given: seq<Given>, timescale: u32)
    requires AllKept(s, n, given, timescale) && MediaOf(s) == MediaOf(s')
    ensures AllKept(s', n, given, timescale)
  {
    hide Keeps;
    assert |s'| == |MediaOf(s')| == |s|;
    forall k | 0 <= k < n
      ensures Media(s[k]) == Media(s'[k])
    {
      assert Media(s[k]) == MediaOf(s)[k] == MediaOf(s')[k] == Media(s'[k]);
    }
    AllKeptSame(s, s', n, given, timescale);
  }

  lemma TailSlice(d: seq<byte>, e: seq<byte>, lo: nat, o: nat, n: nat)
    requires |d| == |e| && lo <= o && o + n <= |d| && d[lo..] == e[lo..]
    ensures d[o..o + n] == e[o..o + n]
  {
    assert d[o..o + n] == d[lo..][o - lo..o - lo + n] && e[o..o + n] == e[lo..][o - lo..o - lo + n];
  }

  lemma ViewedTrack(tracks: seq<Track>, vs: seq<View>, j: nat)
    requires Viewed(tracks, vs) && j < |tracks|
    ensures var t := tracks[j];
            && t.Valid() && LeavesReady(t) && MediaOf(t.samples) == vs[j].s && t.sampleCount == vs[j].n
            && t.offset == vs[j].d && t.timescale == vs[j].timescale
  {
    hide NeedsV1;
  }

  ghost function SamplesOf(tracks: seq<Track>): (ss: seq<seq<Sample>>)
    reads tracks
    ensures |ss| == |tracks| && forall j :: 0 <= j < |tracks| ==> ss[j] == tracks[j].samples
  {
    seq(|tracks|, j requires 0 <= j < |tracks| reads tracks => tracks[j].samples)
  }

  /** The file `d` holds what the books say about the samples `ss` of the views. */
  ghost predicate Books(w: MovWriter, vs: seq<View>, ss: seq<seq<Sample>>, d: seq<byte>)
    reads w
  {
    && |w.tracks| == |ss| == |vs| == |w.at| == |w.written| == |w.given|
    && BackToBack(w.log, w.mdatOffset + 8, |d|) && AllLogged(w.log, w.at)
    && forall j :: 0 <= j < |ss| ==>
      && MediaOf(ss[j]) == vs[j].s && vs[j].d == 0 && vs[j].timescale > 0
      && Recorded(j, ss[j], vs[j].n, w.log, w.at[j], w.written[j], d)
      && AllKept(ss[j], vs[j].n, w.given[j], vs[j].timescale)
  }

  lemma BooksKept(w: MovWriter, vs: seq<View>)
    requires w.Valid() && Viewed(w.tracks, vs)
    ensures Books(w, vs, SamplesOf(w.tracks), w.io.data)
  {
    hide Fronted, Headed, BackToBack, Recorded, Splice, MediaOf, ViewOf, Viewed, AllKept;
    ViewedCount(w.tracks, vs);
    forall j | 0 <= j < |w.tracks|
      ensures MediaOf(w.tracks[j].samples) == vs[j].s && w.tracks[j].sampleCount == vs[j].n
      ensures vs[j].d == 0 && vs[j].timescale > 0
      ensures Recorded(j, w.tracks[j].samples, vs[j].n, w.log, w.at[j], w.written[j], w.io.data)
      ensures AllKept(w.tracks[j].samples, vs[j].n, w.given[j], vs[j].timescale)
    {
      assert w.TrackOk(j);
      ViewedTrack(w.tracks, vs, j);
    }
  }

  lemma ViewedCount(tracks: seq<Track>, vs: seq<View>)
    requires Viewed(tracks, vs)
    ensures |tracks| == |vs|
  {
  }

  /** Only the file in front of the media data and the scratch fields changed. */
  lemma StaysValid(w: MovWriter, vs: seq<View>, ss: seq<seq<Sample>>, d: seq<byte>)
    requires Books(w, vs, ss, d) && Viewed(w.tracks, vs)
    requires w.io.Valid() && w.frame.Valid() && 8 <= w.mdatOffset
    requires w.io.pos == |w.io.data| == |d| == w.mdatOffset + 8 + w.mdatSize
    requires forall i, j :: 0 <= i < j < |w.tracks| ==> w.tracks[i] != w.tracks[j]
    requires w.io.data[w.mdatOffset + 8..] == d[w.mdatOffset + 8..]
    requires if w.reserve then Fronted(w.io.data, w.freeDataOffset, w.moovOffset, w.mdatOffset) else Headed(w.io.data, w.mdatOffset)
    ensures w.Valid()
  {
    hide Fronted, Headed, BackToBack, Recorded, Splice, MediaOf, ViewOf, Viewed, AllKept;
    forall j | 0 <= j < |w.tracks|
      ensures w.TrackOk(j)
    {
      ViewedTrack(w.tracks, vs, j);
      KeptStays(ss[j], w.tracks[j].samples, vs[j].n, w.given[j], vs[j].timescale);
      RecordedStays(j, ss[j], w.tracks[j].samples, vs[j].n, w.log, w.at[j], w.written[j], d, w.io.data, w.mdatOffset + 8, |d|);
    }
  }

  // ---------- the two updates ----------

  lemma MoovHeader(f: Frame, vs: seq<View>)
    requires AllWritable(vs, f.movieTimescale) && Fits(MoovTree(f, vs))
    ensures var bs := Serialize(MoovTree(f, vs)); |bs| >= 8 && U32At(bs, 0) == |bs| && U32At(bs, 4) == TAG_MOOV
  {
    hide Serialize, SizeOf, Fits, MoovTree, U32At;
    TR.HeaderOf(MoovTree(f, vs));
    TreeSize(f, vs);
  }

  lemma TreeSize(f: Frame, vs: seq<View>)
    requires AllWritable(vs, f.movieTimescale)
    ensures SizeOf(MoovTree(f, vs)) >= 8 && MoovTree(f, vs).tag == TAG_MOOV
  {
  }

  lemma HoleWritten(x: seq<byte>, p: nat, moov: seq<byte>, a: seq<byte>, b: seq<byte>)
    requires p <= |x|
    ensures Splice(Splice(x, p, moov), p + |moov|, a + b) == Splice(x, p, moov + a + b)
  {
    SpliceAppend(x, p, moov, a + b);
    assert moov + (a + b) == moov + a + b;
  }

  /** mov_write_moov_ex at the start of the hole. */
  method WriteMoovEx(io: Stream, tracks: seq<Track>, f: Frame, ghost vs: seq<View>)
    requires io.Valid() && f.Valid() && Viewed(tracks, vs) && AllWritable(vs, f.movieTimescale)
    requires SizeOf(MoovTree(f, vs)) <= UINT32_MAX && SizeOf(MoovTree(f, vs)) != 8 + MOOV_LEN
    modifies io, tracks
    ensures io.Valid() && Viewed(tracks, vs) && Fits(MoovTree(f, vs))
    ensures old(io.pos) <= |old(io.data)|
    ensures |Serialize(MoovTree(f, vs))| >= 8
    ensures io.data == Splice(old(io.data), old(io.pos), Hole(Serialize(MoovTree(f, vs))))
  {
    hide Splice, MoovTree, Serialize, SizeOf, Viewed, AllMarked, Fits, BE32, SkipSize;
    ghost var d, p := io.data, io.pos;
    var size := FastStart.WriteMoovAt(io, tracks, f, vs);
    ghost var moov := Serialize(MoovTree(f, vs));
    ghost var b, s, w := io.base, io.start, io.done;
    MoovHeader(f, vs);
    FastStart.PosInside(io);
    var skip := SkipSize(size);
    io.W32(skip);
    io.W32(TAG_SKIP);
    RunAppended(io, b, s, w, BE32(skip), BE32(TAG_SKIP));
    HoleWritten(d, p, moov, BE32(skip), BE32(TAG_SKIP));
  }

  lemma RunAppended(io: Stream, b: seq<byte>, s: nat, w: seq<byte>, x: seq<byte>, y: seq<byte>)
    requires io.Valid() && io.base == b && io.start == s && s <= |b| && io.done == w + x + y
    ensures s + |w| <= |Splice(b, s, w)| && io.data == Splice(Splice(b, s, w), s + |w|, x + y)
  {
    SpliceAppend(b, s, w, x + y);
    assert w + (x + y) == w + x + y;
  }

  /** The file position survives, and the file has the new mdat size and the new hole. */
  method RewriteHole(w: MovWriter, ghost vs: seq<View>)
    requires w.io.pos <= |w.io.data| && w.frame.Valid() && Viewed(w.tracks, vs) && AllWritable(vs, w.frame.movieTimescale)
    requires w.mdatSize + 8 <= UINT32_MAX && SizeOf(MoovTree(w.frame, vs)) <= UINT32_MAX
    requires SizeOf(MoovTree(w.frame, vs)) != 8 + MOOV_LEN
    requires w.moovOffset + 8 + MOOV_LEN == w.mdatOffset && w.mdatOffset + 8 <= |w.io.data|
    modifies w.io, w.tracks
    ensures w.io.Valid() && Viewed(w.tracks, vs) && w.io.pos == old(w.io.pos)
    ensures Fits(MoovTree(w.frame, vs))
    ensures 8 <= |Serialize(MoovTree(w.frame, vs))|
    ensures w.io.data == Updated(old(w.io.data), w.moovOffset, w.mdatOffset, w.mdatSize, Serialize(MoovTree(w.frame, vs)))
  {
    hide Splice, MoovTree, Serialize, SizeOf, Viewed, AllMarked, Fits, BE32, Hole;
    var io, offset := w.io, w.io.pos;
    io.Seek(w.mdatOffset);
    io.W32(w.mdatSize + 8);
    FastStart.DoneIs(BE32(w.mdatSize + 8));
    io.Seek(w.moovOffset);
    WriteMoovEx(io, w.tracks, w.frame, vs);
    io.Seek(offset);
  }

  lemma UpdatedKeeps(d: seq<byte>, m: nat, mdat: nat, n: nat, moov: seq<byte>)
    requires m + 8 + MOOV_LEN == mdat && mdat + 8 <= |d| && n + 8 <= UINT32_MAX && |moov| <= 8 + MOOV_LEN
    ensures Updated(d, m, mdat, n, moov)[mdat + 8..] == d[mdat + 8..]
  {
    UpdatedBytes(d, m, mdat, n, moov);
  }

  lemma ViewsOk(w: MovWriter)
    requires w.Valid() && w.reserve
    ensures w.frame.Valid() && w.io.pos == |w.io.data| == w.mdatOffset + 8 + w.mdatSize
    ensures Fronted(w.io.data, w.freeDataOffset, w.moovOffset, w.mdatOffset)
    ensures w.moovOffset + 8 + MOOV_LEN == w.mdatOffset && 8 <= w.mdatOffset
    ensures forall i, j :: 0 <= i < j < |w.tracks| ==> w.tracks[i] != w.tracks[j]
  {
  }

  /**
   * mov_writer_update_moov between two samples. Recording goes on at the same place. The boxes tile the file
   * exactly when moov fits its hole, and the media bytes stay if it takes no more than the header of mdat.
   */
  method UpdateMoov(w: MovWriter, ghost vs: seq<View>) returns (r: int)
    requires w.Valid() && Viewed(w.tracks, vs) && AllWritable(vs, w.frame.movieTimescale)
    requires w.reserve ==>
      && w.mdatSize + 8 <= UINT32_MAX
      && SizeOf(MoovTree(w.frame, vs)) <= UINT32_MAX && SizeOf(MoovTree(w.frame, vs)) != 8 + MOOV_LEN
    modifies w.io, w.tracks
    ensures r == 0 && Viewed(w.tracks, vs)
    ensures !w.reserve ==> w.Valid() && w.io.data == old(w.io.data)
    ensures w.reserve ==> w.moovOffset + 8 + MOOV_LEN == w.mdatOffset && w.mdatOffset + 8 <= |old(w.io.data)|
    ensures w.reserve ==> Fits(MoovTree(w.frame, vs)) && 8 <= |Serialize(MoovTree(w.frame, vs))|
    ensures w.reserve ==>
      var moov := Serialize(MoovTree(w.frame, vs));
      && w.io.data == Updated(old(w.io.data), w.moovOffset, w.mdatOffset, w.mdatSize, moov)
      && w.io.pos == old(w.io.pos)
      && (|moov| <= 8 + MOOV_LEN ==> w.io.data[w.mdatOffset + 8..] == old(w.io.data)[w.mdatOffset + 8..])
      && (Tiles(w.io.data, 0, LAYOUT) <==> |moov| <= MOOV_LEN)
      && (|moov| <= MOOV_LEN ==> w.Valid())
  {
    hide MovWriter.Valid, MoovTree, Serialize, SizeOf, Viewed, Fits, Tiles, Updated, AllWritable;
    r := 0;
    if w.reserve {
      UpdateHole(w, vs);
    }
  }

  method UpdateHole(w: MovWriter, ghost vs: seq<View>)
    requires w.Valid() && Viewed(w.tracks, vs) && AllWritable(vs, w.frame.movieTimescale)
    requires w.reserve && w.mdatSize + 8 <= UINT32_MAX
    requires SizeOf(MoovTree(w.frame, vs)) <= UINT32_MAX && SizeOf(MoovTree(w.frame, vs)) != 8 + MOOV_LEN
    modifies w.io, w.tracks
    ensures Viewed(w.tracks, vs) && w.moovOffset + 8 + MOOV_LEN == w.mdatOffset && w.mdatOffset + 8 <= |old(w.io.data)|
    ensures Fits(MoovTree(w.frame, vs)) && 8 <= |Serialize(MoovTree(w.frame, vs))|
    ensures var moov := Serialize(MoovTree(w.frame, vs));
      && w.io.data == Updated(old(w.io.data), w.moovOffset, w.mdatOffset, w.mdatSize, moov)
      && w.io.pos == old(w.io.pos)
      && (|moov| <= 8 + MOOV_LEN ==> w.io.data[w.mdatOffset + 8..] == old(w.io.data)[w.mdatOffset + 8..])
      && (Tiles(w.io.data, 0, LAYOUT) <==> |moov| <= MOOV_LEN)
      && (|moov| <= MOOV_LEN ==> w.Valid())
  {
    hide MovWriter.Valid, Splice, MoovTree, Serialize, SizeOf, Viewed, Fits, Fronted, Headed, Books, Tiles, Updated;
    ghost var d, ss, f := w.io.data, SamplesOf(w.tracks), w.freeDataOffset;
    BooksKept(w, vs);
    ViewsOk(w);
    FrontedPlaces(d, f, w.moovOffset, w.mdatOffset);
    RewriteHole(w, vs);
    MoovHeader(w.frame, vs);
    ghost var moov := Serialize(MoovTree(w.frame, vs));
    if |moov| <= 8 + MOOV_LEN {
      UpdatedKeeps(d, w.moovOffset, w.mdatOffset, w.mdatSize, moov);
    }
    UpdatedTilesIff(d, f, w.moovOffset, w.mdatOffset, w.mdatSize, moov);
    if |moov| <= MOOV_LEN {
      UpdatedFronted(d, f, w.moovOffset, w.mdatOffset, w.mdatSize, moov);
      StaysValid(w, vs, ss, d);
    }
  }

  /** The bytes of the four widths that mov_writer_update_free_data knows; any other length writes nothing. */
  function FreeBytes(len: int, val: u64): (bs: seq<byte>)
    ensures |bs| == if len == 1 || len == 2 || len == 4 || len == 8 then len else 0
  {
    if len == 1 then [val % 0x100]
    else if len == 2 then BE16(val % 0x1_0000)
    else if len == 4 then BE32(val % 0x1_0000_0000)
    else if len == 8 then BE64(val)
    else []
  }

  /** The number that bytes spell, the most significant first. */
  function Spelled(bs: seq<byte>): nat
  {
    if bs == [] then 0 else Spelled(bs[..|bs| - 1]) * 0x100 + bs[|bs| - 1] as nat
  }

  lemma {:induction false} SpelledJoin(a: seq<byte>, b: seq<byte>, unit: nat)
    requires unit == if |b| == 1 then 0x100 else if |b| == 2 then 0x1_0000 else 0x1_0000_0000
    requires |b| in {1, 2, 4}
    ensures Spelled(a + b) == Spelled(a) * unit + Spelled(b)
    decreases |b|
  {
    if |b| == 1 {
      assert (a + b)[..|a|] == a && b[..0] == [];
    } else {
      var h := |b| / 2;
      var x, y := b[..h], b[h..];
      var half := if h == 1 then 0x100 else 0x1_0000;
      assert b == x + y && a + b == (a + x) + y;
      SpelledJoin(a, x, half);
      SpelledJoin(a + x, y, half);
      SpelledJoin(x, y, half);
    }
  }

  lemma SpelledWords(v: u16, w: u32, x: u64)
    ensures Spelled(BE16(v)) == v as nat && Spelled(BE32(w)) == w as nat && Spelled(BE64(x)) == x as nat
  {
    Spelled16(v);
    Spelled32(w);
    Spelled32(x / 0x1_0000_0000);
    Spelled32(x % 0x1_0000_0000);
    hide BE32, Spelled;
    SpelledJoin(BE32(x / 0x1_0000_0000), BE32(x % 0x1_0000_0000), 0x1_0000_0000);
  }

  lemma Spelled16(v: u16)
    ensures Spelled(BE16(v)) == v as nat
  {
    var a: seq<byte>, b: seq<byte> := [v / 0x100], [v % 0x100];
    assert BE16(v) == a + b;
    assert a[..0] == [] && b[..0] == [];
    SpelledJoin(a, b, 0x100);
  }

  lemma Spelled32(v: u32)
    ensures Spelled(BE32(v)) == v as nat
  {
    Spelled16(v / 0x1_0000);
    Spelled16(v % 0x1_0000);
    hide BE16, Spelled;
    SpelledJoin(BE16(v / 0x1_0000), BE16(v % 0x1_0000), 0x1_0000);
  }

  /** Read back, the bytes are the value modulo the range of the width; one, two, four and eight bytes are known. */
  lemma FreeBytesRead(len: int, val: u64)
    ensures len !in {1, 2, 4, 8} ==> FreeBytes(len, val) == []
    ensures len in {1, 2, 4, 8} ==> |FreeBytes(len, val)| == len
    ensures len == 1 ==> Spelled(FreeBytes(len, val)) == val as nat % 0x100
    ensures len == 2 ==> Spelled(FreeBytes(len, val)) == val as nat % 0x1_0000
    ensures len == 4 ==> Spelled(FreeBytes(len, val)) == val as nat % 0x1_0000_0000
    ensures len == 8 ==> Spelled(FreeBytes(len, val)) == val as nat
  {
    if len == 1 {
      assert FreeBytes(len, val)[..0] == [];
    }
    SpelledWords(val % 0x1_0000, val % 0x1_0000_0000, val);
    hide BE16, BE32, BE64;
  }

  /** A value of one of the known widths at byte p, without losing the position. */
  method Poke(io: Stream, p: nat, len: int, val: u64)
    requires p <= |io.data| && io.pos <= |io.data| <= |Splice(io.data, p, FreeBytes(len, val))|
    modifies io
    ensures io.Valid() && io.pos == old(io.pos)
    ensures io.data == Splice(old(io.data), p, FreeBytes(len, val))
  {
    hide Splice, BE16, BE32, BE64;
    var pos := io.pos;
    io.Seek(p);
    if len == 1 {
      io.W8(val % 0x100);
    } else if len == 2 {
      io.W16(val % 0x1_0000);
    } else if len == 4 {
      io.W32(val % 0x1_0000_0000);
    } else if len == 8 {
      io.W64(val);
    }
    FastStart.DoneIs(FreeBytes(len, val));
    io.Seek(pos);
  }

  /**
   * mov_writer_update_free_data. The source does not check that the value stays inside the four bytes
   * of pwdt; a value that leaves them runs into the hole, or further.
   */
  method UpdateFreeData(w: MovWriter, offset: nat, len: int, val: u64, ghost vs: seq<View>) returns (r: int)
    requires w.Valid() && Viewed(w.tracks, vs)
    requires w.reserve ==> w.freeDataOffset + offset <= |w.io.data|
    modifies w.io
    ensures Viewed(w.tracks, vs) && w.io.pos == old(w.io.pos)
    ensures !w.reserve || offset + |FreeBytes(len, val)| <= PW_DATA_LEN ==> w.Valid()
    ensures r == if w.reserve then 0 else 1
    ensures !w.reserve ==> w.io.data == old(w.io.data)
    ensures w.reserve ==> w.io.data == Splice(old(w.io.data), w.freeDataOffset + offset, FreeBytes(len, val))
    ensures w.reserve && offset + |FreeBytes(len, val)| <= PW_DATA_LEN ==>
      w.moovOffset <= |w.io.data| && w.io.data[w.moovOffset..] == old(w.io.data)[w.moovOffset..]
  {
    hide MovWriter.Valid, Viewed, Fronted, Headed, Books, Splice, FreeBytes;
    if !w.reserve {
      return 1;
    }
    ghost var d, ss := w.io.data, SamplesOf(w.tracks);
    BooksKept(w, vs);
    ViewsOk(w);
    FrontedPlaces(d, w.freeDataOffset, w.moovOffset, w.mdatOffset);
    Poke(w.io, w.freeDataOffset + offset, len, val);
    if offset + |FreeBytes(len, val)| <= PW_DATA_LEN {
      PokedFree(d, w.freeDataOffset, w.moovOffset, w.mdatOffset, offset, FreeBytes(len, val));
      StaysValid(w, vs, ss, d);
    }
    r := 0;
  }

  /** Bytes written inside pwdt touch no header and no media byte. */
  lemma PokedFree(d: seq<byte>, free: nat, m: nat, mdat: nat, o: nat, bs: seq<byte>)
    requires Fronted(d, free, m, mdat) && o + |bs| <= PW_DATA_LEN
    ensures var e := Splice(d, free + o, bs); |e| == |d| && Fronted(e, free, m, mdat) && e[m..] == d[m..] && e[mdat + 8..] == d[mdat + 8..]
  {
    var e := Splice(d, free + o, bs);
    assert e[..free] == d[..free] && e[m..] == d[m..];
    Below(d, e, free, 0);
    Below(d, e, free, 4);
    Below(d, e, free, free - 8);
    Below(d, e, free, free - 4);
    assert e[mdat + 4..mdat + 8] == d[mdat + 4..mdat + 8];
    SameWord(d, e, mdat + 4);
  }

  /** The durations are computed anew before every moov; they only show in fixed-layout boxes. */
  method Refresh(w: MovWriter, j: nat, t: Track, tkhd: Tree, mdhd: Tree, duration: u64)
    requires w.Valid() && j < |w.tracks| && t == w.tracks[j] && tkhd.Leaf? && mdhd.Leaf?
    modifies t`tkhd, t`mdhd, t`duration
    ensures w.Valid() && t.tkhd == tkhd && t.mdhd == mdhd && t.duration == duration
  {
    hide Recorded, BackToBack, Fronted, Headed, Splice;
    assert forall i :: 0 <= i < |w.tracks| ==> w.TrackOk(i);
    t.tkhd, t.mdhd, t.duration := tkhd, mdhd, duration;
    forall i | 0 <= i < |w.tracks|
      ensures w.TrackOk(i)
    {
      assert old(w.TrackOk(i));
    }
  }

  /** A new track starts without samples. */
  method AddTrack(w: MovWriter, t: Track)
    requires w.Valid() && t !in w.tracks && t.Valid() && t.sampleCount == 0 && LeavesReady(t) && t.offset == 0 && t.timescale > 0
    modifies w`tracks, w`at, w`written, w`given
    ensures w.Valid() && w.tracks == old(w.tracks) + [t]
    ensures w.written == old(w.written) + [[]] && w.given == old(w.given) + [[]] && w.log == old(w.log)
  {
    hide RecordedAt, BackToBack, Fronted, Headed, Splice;
    assert forall i :: 0 <= i < |w.tracks| ==> w.TrackOk(i);
    ghost var n := |w.tracks|;
    LoggedWithTrack(w.log, w.at);
    w.tracks := w.tracks + [t];
    w.at := w.at + [[]];
    w.written := w.written + [[]];
    w.given := w.given + [[]];
    forall j | 0 <= j < |w.tracks|
      ensures w.TrackOk(j)
    {
      if j < n {
        assert old(w.TrackOk(j));
      } else {
        assert Recorded(j, t.samples, 0, w.log, [], [], w.io.data);
      }
    }
  }
}
