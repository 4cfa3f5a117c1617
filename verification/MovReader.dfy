/** mov-reader.c from the first byte of a finished file: its boxes, its tracks and their samples. */
module MovReader {
  import opened Bytes
  import opened Samples
  import opened ChunkTables
  import opened Tracks
  import opened MovStream
  import opened Boxes
  import opened Stsz
  import opened Stts
  import opened Timeline
  import opened TrackWriter
  import opened Moov
  import opened Relocation
  import opened MovWriter
  import opened FastStart
  import opened TrackReader
  import opened TrackRoundTrip
  import opened TrackReload
  import opened TrackRead
  import opened Playback
  import Elst

  /** A track whose boxes can be written and hold all its values. */
  ghost predicate Lossless(v: View, movieTimescale: u32)
  {
    && v.Valid() && Editable(v, movieTimescale) && Storable(v) && Fits(TrakTree(v, movieTimescale))
    && v.n < UINT32_MAX && NarrowSpread(v.s, v.n)
  }

  /** The samples of `t` are what mov_read_trak makes of the boxes of `v`. */
  ghost predicate Played(t: Track, v: View, movieTimescale: u32)
    requires v.Valid() && Editable(v, movieTimescale)
    reads t
  {
    var tb := WrittenTables(v, movieTimescale);
    tb.stsc != [] && exists s, a, b :: Expanded(tb, s, a, b, t.samples)
  }

  /** The tracks among the first k that have samples. */
  function Filled(vs: seq<View>, k: nat): (js: seq<nat>)
    requires k <= |vs|
    ensures |js| <= k && forall i :: 0 <= i < |js| ==> js[i] < k && vs[js[i]].n > 0
  {
    if k == 0 then [] else Filled(vs, k - 1) + if vs[k - 1].n > 0 then [k - 1] else []
  }

  ghost predicate AllLossless(vs: seq<View>, movieTimescale: u32)
  {
    forall j :: 0 <= j < |vs| && vs[j].n > 0 ==> Lossless(vs[j], movieTimescale)
  }

  /** The other boxes of moov carry their own tags and are not empty. */
  ghost predicate Readable(f: Frame)
  {
    f.Valid() && f.mvhd.tag != TAG_TRAK && f.mvhd.payload != []
    && forall t :: t in f.udta ==> t.tag != TAG_TRAK && t.payload != []
  }

  // ---------- one track ----------

  lemma WrittenTrakReads(v: View, movieTimescale: u32)
    requires Lossless(v, movieTimescale)
    ensures var ts, tb := [v.tkhd, EdtsTree(v, movieTimescale), MdiaTree(v)], WrittenTables(v, movieTimescale);
            AllSound(ts, TAG_TRAK) && LoadAll(NO_TABLES, ts, |ts|, TAG_TRAK) == tb && tb.count == v.n > 0 && Consistent(tb)
  {
    hide Storable, AllSound, LoadAll, Fits, NarrowSpread, Consistent, TrakTree, EdtsTree, MdiaTree;
    TrakLoads(v, movieTimescale);
    assert |ChunksOf(v.s, v.n)| <= v.n;
    WrittenConsistent(v, movieTimescale);
  }

  /** mov_read_trak on the payload of one written track box. */
  method ReadOneTrak(io: Stream, size: nat, ghost v: View, ghost movieTimescale: u32) returns (t: Track)
    requires Lossless(v, movieTimescale) && io.error == 0
    requires var p := Payload(TrakTree(v, movieTimescale));
             size == |p| && io.pos + size <= |io.data| && io.data[io.pos..io.pos + size] == p
    modifies io
    ensures io.data == old(io.data) && io.error == 0 && io.pos == old(io.pos) + size
    ensures fresh(t) && Played(t, v, movieTimescale)
  {
    hide Storable, AllSound, LoadAll, Fits, NarrowSpread, Consistent, EdtsTree, MdiaTree, WrittenTables;
    hide Expanded, SerializeAll, SizeOfAll, SizeOf;
    WrittenTrakReads(v, movieTimescale);
    ghost var ts := [v.tkhd, EdtsTree(v, movieTimescale), MdiaTree(v)];
    PayloadOf(TrakTree(v, movieTimescale));
    t := NewTrack();
    AllSoundFits(ts, TAG_TRAK);
    var r, s, a, b := ReadTrak(io, t, size, ts);
  }

  lemma AllSoundFits(ts: seq<Tree>, parent: u32)
    requires AllSound(ts, parent)
    ensures forall i :: 0 <= i < |ts| ==> Fits(ts[i])
  {
  }

  /** A track the reader has just found: without tables. */
  method NewTrack() returns (t: Track)
    ensures fresh(t) && Loaded(t, NO_TABLES)
  {
    var none := Leaf(0, []);
    t := new Track(0, false, none, none, none, none, none, none);
  }

  // ---------- moov ----------

  /** The traks are the filled tracks, in order. */
  lemma {:induction false} TraksAreFilled(f: Frame, vs: seq<View>, k: nat)
    requires k <= |vs| && AllWritable(vs, f.movieTimescale)
    ensures |Traks(f, vs, k)| == |Filled(vs, k)|
    ensures forall i :: 0 <= i < |Filled(vs, k)| ==>
      Writable(vs[Filled(vs, k)[i]], f.movieTimescale) && Traks(f, vs, k)[i] == TrakTree(vs[Filled(vs, k)[i]], f.movieTimescale)
  {
    hide TrakTree, Editable, View.Valid;
    if k > 0 {
      TraksAreFilled(f, vs, k - 1);
      assert Writable(vs[k - 1], f.movieTimescale);
    }
  }

  /** Child n of moov: a filled track, or a box that is not a track. */
  lemma MoovChild(f: Frame, vs: seq<View>, n: nat)
    requires AllWritable(vs, f.movieTimescale) && Readable(f) && n < |MoovParts(f, vs)|
    ensures var js, t := Filled(vs, |vs|), MoovParts(f, vs)[n];
            && |MoovParts(f, vs)| >= 1 + |js|
            && (t.tag == TAG_TRAK <==> 1 <= n <= |js|)
            && (1 <= n <= |js| ==>
                  Writable(vs[js[n - 1]], f.movieTimescale) && t == TrakTree(vs[js[n - 1]], f.movieTimescale))
  {
    hide EdtsTree, MdiaTree, Editable, View.Valid, Traks;
    TraksAreFilled(f, vs, |vs|);
    var js, parts := Filled(vs, |vs|), MoovParts(f, vs);
    if n > |js| {
      assert parts[n] == f.udta[n - 1 - |js|];
      assert parts[n] in f.udta;
    }
  }

  /** The first n children of moov gave these tracks. */
  ghost predicate ReadSoFar(tracks: seq<Track>, f: Frame, vs: seq<View>, n: nat)
    requires AllWritable(vs, f.movieTimescale)
    reads tracks
  {
    var js := Filled(vs, |vs|);
    && |tracks| == (if n == 0 then 0 else if n - 1 < |js| then n - 1 else |js|)
    && forall i :: 0 <= i < |tracks| ==>
         Writable(vs[js[i]], f.movieTimescale) && Played(tracks[i], vs[js[i]], f.movieTimescale)
  }

  lemma OneMoreTrack(tracks: seq<Track>, t: Track, f: Frame, vs: seq<View>, n: nat)
    requires AllWritable(vs, f.movieTimescale) && ReadSoFar(tracks, f, vs, n) && 1 <= n <= |Filled(vs, |vs|)|
    requires var v := vs[Filled(vs, |vs|)[n - 1]]; Writable(v, f.movieTimescale) && Played(t, v, f.movieTimescale)
    ensures ReadSoFar(tracks + [t], f, vs, n + 1)
  {
    hide Played, Filled, Writable, AllWritable;
  }

  lemma NoTrack(tracks: seq<Track>, f: Frame, vs: seq<View>, n: nat)
    requires AllWritable(vs, f.movieTimescale) && ReadSoFar(tracks, f, vs, n) && !(1 <= n <= |Filled(vs, |vs|)|)
    ensures ReadSoFar(tracks, f, vs, n + 1)
  {
    hide Played, Filled, Writable, AllWritable;
  }

  lemma NoneRead(f: Frame, vs: seq<View>)
    requires AllWritable(vs, f.movieTimescale)
    ensures ReadSoFar([], f, vs, 0)
  {
  }

  lemma LosslessAt(vs: seq<View>, movieTimescale: u32, j: nat)
    requires AllLossless(vs, movieTimescale) && j < |vs| && vs[j].n > 0
    ensures Lossless(vs[j], movieTimescale)
  {
  }

  /** mov_reader_box inside moov. */
  method ReadMoov(io: Stream, size: nat, ghost f: Frame, ghost vs: seq<View>) returns (tracks: seq<Track>)
    requires AllWritable(vs, f.movieTimescale) && AllLossless(vs, f.movieTimescale) && Readable(f)
    requires var ts := MoovParts(f, vs); io.error == 0 && BoxesAt(io.data, io.pos, ts) && size == SizeOfAll(ts, |ts|)
    modifies io
    ensures io.data == old(io.data) && io.error == 0 && io.pos == old(io.pos) + size
    ensures forall t :: t in tracks ==> fresh(t)
    ensures ReadSoFar(tracks, f, vs, |MoovParts(f, vs)|)
  {
    hide SizeOf, Fits, Serialize, SerializeAll, Payload, U32At, Lossless, MoovParts, TrakTree, Writable;
    hide AllWritable, Played, Filled;
    hide Readable, Walkable, ReadSoFar, AllLossless;
    tracks := [];
    NoneRead(f, vs);
    var bytes: nat := 0;
    ghost var n: nat, q, d, ts := 0, io.pos, io.data, MoovParts(f, vs);
    while bytes + 8 < size && io.error == 0
      invariant n <= |ts| && bytes == SizeOfAll(ts, n) <= size
      invariant io.data == d && io.error == 0 && io.pos == q + bytes
      invariant (forall t :: t in tracks ==> fresh(t)) && ReadSoFar(tracks, f, vs, n)
      decreases size - bytes
    {
      ChildHere(d, q, ts, n);
      MoovChild(f, vs, n);
      var boxSize := io.R32();
      var tag := io.R32();
      bytes := bytes + boxSize;
      if tag == TAG_TRAK {
        ghost var j := Filled(vs, |vs|)[n - 1];
        LosslessAt(vs, f.movieTimescale, j);
        var t := ReadOneTrak(io, boxSize - 8, vs[j], f.movieTimescale);
        OneMoreTrack(tracks, t, f, vs, n);
        tracks := tracks + [t];
      } else {
        NoTrack(tracks, f, vs, n);
        io.Seek(io.pos + (boxSize - 8));
      }
      n := n + 1;
    }
    if n < |ts| {
      ChildHere(d, q, ts, n);
    }
  }

  // ---------- the file ----------

  /** ftyp, perhaps an empty free box, moov and mdat, from the first byte to the last. */
  ghost predicate Laid(e: seq<byte>, t: Tree, mdatOffset: nat, mdatSize: nat)
  {
    && 16 <= mdatOffset && Fits(t) && mdatSize + 16 < TWO_64
    && var m := MdatStart(mdatOffset, mdatSize);
    var q := m + SizeOf(t);
    && q + 8 + mdatSize <= |e| && e[m..q] == Serialize(t)
    && U32At(e, 0) == mdatOffset - 8 && U32At(e, 4) == TAG_FTYP
    && (m == mdatOffset ==> U32At(e, m - 8) == 8 && U32At(e, m - 4) == TAG_FREE)
    && U32At(e, q + 4) == TAG_MDAT
    && if mdatSize + 8 <= UINT32_MAX then U32At(e, q) == mdatSize + 8 && |e| == q + 8 + mdatSize
       else |e| == q + 16 + mdatSize && U32At(e, q) == 1 && U64At(e, q + 8) == mdatSize + 16
  }

  lemma SameWordAt(d: seq<byte>, e: seq<byte>, p: nat, q: nat)
    requires p + 4 <= |d| && q + 4 <= |e| && d[p..p + 4] == e[q..q + 4]
    ensures U32At(d, p) == U32At(e, q)
  {
    U32AtSlice(d, p, 4, 0);
    U32AtSlice(e, q, 4, 0);
  }

  /** Words in front of mdat stay where they are, words from mdat on move with it. */
  lemma WordsOfFinished(d: seq<byte>, h: seq<byte>, m: nat, moov: seq<byte>, p: nat)
    requires m + |h| <= |d|
    ensures var e := Splice(d, m, h); var f := e[..m] + moov + e[m..];
            && |f| == |d| + |moov|
            && (p + 4 <= m ==> U32At(f, p) == U32At(d, p))
            && (p + 4 <= |h| ==> U32At(f, m + |moov| + p) == U32At(h, p))
            && (|h| <= p && m + p + 4 <= |d| ==> U32At(f, m + |moov| + p) == U32At(d, m + p))
  {
    hide U32At, Splice;
    var e := Splice(d, m, h);
    var f := e[..m] + moov + e[m..];
    SpliceParts(d, m, h, p);
    if p + 4 <= m {
      InFront(e, m, moov, p);
      SameWordAt(f, d, p, p);
    }
    if p + 4 <= |h| {
      BehindInserted(e, m, moov, p);
      SameWordAt(f, h, m + |moov| + p, p);
    } else if |h| <= p && m + p + 4 <= |d| {
      BehindInserted(e, m, moov, p);
      SameWordAt(f, d, m + |moov| + p, m + p);
    }
  }

  lemma SpliceParts(d: seq<byte>, m: nat, h: seq<byte>, p: nat)
    requires m + |h| <= |d|
    ensures p + 4 <= m ==> Splice(d, m, h)[p..p + 4] == d[p..p + 4]
    ensures p + 4 <= |h| ==> Splice(d, m, h)[m + p..m + p + 4] == h[p..p + 4]
    ensures |h| <= p && m + p + 4 <= |d| ==> Splice(d, m, h)[m + p..m + p + 4] == d[m + p..m + p + 4]
  {
  }

  lemma InFront(e: seq<byte>, m: nat, moov: seq<byte>, p: nat)
    requires m <= |e| && p + 4 <= m
    ensures (e[..m] + moov + e[m..])[p..p + 4] == e[p..p + 4]
  {
  }

  lemma BehindInserted(e: seq<byte>, m: nat, moov: seq<byte>, p: nat)
    requires m + p + 4 <= |e|
    ensures var f := e[..m] + moov + e[m..];
            m + |moov| + p + 4 <= |f| && f[m + |moov| + p..m + |moov| + p + 4] == e[m + p..m + p + 4]
  {
  }

  /** The words of the header that seals mdat. */
  lemma HeaderWords(size: nat)
    requires size + 16 < TWO_64
    ensures var h := FastStart.MdatHeader(size);
            if size + 8 <= UINT32_MAX then |h| == 4 && U32At(h, 0) == size + 8
            else |h| == 16 && U32At(h, 0) == 1 && U32At(h, 4) == TAG_MDAT && U64At(h, 8) == size + 16
  {
    hide U32At, BE32;
    if size + 8 <= UINT32_MAX {
      BE32Decodes(size + 8);
    } else {
      var hi, lo := (size + 16) / 0x1_0000_0000, (size + 16) % 0x1_0000_0000;
      var h := FastStart.MdatHeader(size);
      assert h == BE32(1) + BE32(TAG_MDAT) + (BE32(hi) + BE32(lo));
      FourWords(1, TAG_MDAT, hi, lo);
    }
  }

  lemma FourWords(a: u32, b: u32, c: u32, d: u32)
    ensures var h := BE32(a) + BE32(b) + (BE32(c) + BE32(d));
            U32At(h, 0) == a && U32At(h, 4) == b && U32At(h, 8) == c && U32At(h, 12) == d
  {
    hide U32At, BE32;
    var h := BE32(a) + BE32(b) + (BE32(c) + BE32(d));
    assert h == [] + BE32(a) + (BE32(b) + BE32(c) + BE32(d));
    WordInside([], a, BE32(b) + BE32(c) + BE32(d));
    assert h == BE32(a) + BE32(b) + (BE32(c) + BE32(d));
    WordInside(BE32(a), b, BE32(c) + BE32(d));
    assert h == BE32(a) + BE32(b) + BE32(c) + BE32(d);
    WordInside(BE32(a) + BE32(b), c, BE32(d));
    assert h == BE32(a) + BE32(b) + BE32(c) + BE32(d) + [];
    WordInside(BE32(a) + BE32(b) + BE32(c), d, []);
  }

  lemma FinishedIsLaid(w: MovWriter, vs: seq<View>, shift: nat, e: seq<byte>)
    requires w.Valid() && !w.reserve && FrontLoaded(w.frame, vs, shift, w.io.data, w.mdatOffset, w.mdatSize, e)
    ensures AllWritable(Moved(vs, shift), w.frame.movieTimescale)
    ensures Laid(e, MoovTree(w.frame, Moved(vs, shift)), w.mdatOffset, w.mdatSize)
  {
    hide BackToBack, Recorded, MoovTree, Serialize, SizeOf, Fits, AllWritable, Moved, FastStart.MdatHeader;
    hide U32At, Splice;
    assert AllWritable(Moved(vs, shift), w.frame.movieTimescale);
    var t := MoovTree(w.frame, Moved(vs, shift));
    LaidOut(w.io.data, t, w.mdatOffset, w.mdatSize);
  }

  lemma LaidOut(d: seq<byte>, t: Tree, mdatOffset: nat, mdatSize: nat)
    requires Headed(d, mdatOffset) && |d| == mdatOffset + 8 + mdatSize && Fits(t) && mdatSize + 16 < TWO_64
    ensures Laid(Finished(d, mdatOffset, mdatSize, Serialize(t)), t, mdatOffset, mdatSize)
  {
    hide Serialize, SizeOf, Fits, FastStart.MdatHeader, U32At, Splice;
    var m, h, moov := MdatStart(mdatOffset, mdatSize), FastStart.MdatHeader(mdatSize), Serialize(t);
    HeaderWords(mdatSize);
    var f := Finished(d, mdatOffset, mdatSize, moov);
    WordsOfFinished(d, h, m, moov, 0);
    WordsOfFinished(d, h, m, moov, 4);
    WordsOfFinished(d, h, m, moov, 8);
    WordsOfFinished(d, h, m, moov, 12);
    if m == mdatOffset {
      WordsOfFinished(d, h, m, moov, m - 8);
      WordsOfFinished(d, h, m, moov, m - 4);
    }
    assert f[m..m + |moov|] == moov;
  }

  /** What the file's first tracks give, once moov was read. */
  ghost predicate AllPlayed(tracks: seq<Track>, f: Frame, vs: seq<View>)
    requires AllWritable(vs, f.movieTimescale)
    reads tracks
  {
    var js := Filled(vs, |vs|);
    && |tracks| == |js|
    && forall i :: 0 <= i < |tracks| ==>
         Writable(vs[js[i]], f.movieTimescale) && Played(tracks[i], vs[js[i]], f.movieTimescale)
  }

  /** The top-level boxes of a file: where each starts, and at last the end of the file. */
  datatype Layout = Layout(starts: seq<nat>, tags: seq<u32>)

  /** A box of n bytes at byte p, with its size in 32 or in 64 bits. */
  ghost predicate HeaderHere(d: seq<byte>, p: nat, n: nat, tag: u32)
  {
    && p + 8 <= |d| && U32At(d, p + 4) == tag
    && if U32At(d, p) == 1 then 16 <= n && p + 16 <= |d| && U64At(d, p + 8) == n else 8 <= n && U32At(d, p) == n
  }

  ghost predicate BoxHere(d: seq<byte>, l: Layout, k: nat, i: nat)
    requires |l.starts| == |l.tags| + 1 && i < |l.tags|
  {
    && l.starts[i] <= l.starts[i + 1] <= |d| && HeaderHere(d, l.starts[i], l.starts[i + 1] - l.starts[i], l.tags[i])
    && (l.tags[i] == TAG_MOOV <==> i == k) && (l.tags[i] == TAG_MDAT <==> i == |l.tags| - 1)
  }

  /** The boxes tile the file; mdat is the last of them, and box k is the moov `t`. */
  ghost predicate RootLaid(d: seq<byte>, t: Tree, l: Layout, k: nat)
  {
    && |l.starts| == |l.tags| + 1 && k + 1 < |l.tags|
    && l.starts[0] == 0 && l.starts[|l.tags|] == |d|
    && (forall i :: 0 <= i < |l.tags| ==> BoxHere(d, l, k, i))
    && Fits(t) && l.starts[k] + SizeOf(t) == l.starts[k + 1] <= |d|
    && d[l.starts[k]..l.starts[k + 1]] == Serialize(t)
  }

  /** The layout of a finished file; a large mdat has swallowed the free box. */
  ghost function FinishedLayout(t: Tree, mdatOffset: nat, mdatSize: nat, end: nat): Layout
    requires 16 <= mdatOffset
  {
    var m := MdatStart(mdatOffset, mdatSize);
    if m == mdatOffset then Layout([0, m - 8, m, m + SizeOf(t), end], [TAG_FTYP, TAG_FREE, TAG_MOOV, TAG_MDAT])
    else Layout([0, m, m + SizeOf(t), end], [TAG_FTYP, TAG_MOOV, TAG_MDAT])
  }

  /** Each box is announced by its header, in 32 or 64 bits, and ends where the next one starts. */
  lemma FinishedTiles(d: seq<byte>, t: Tree, mdatOffset: nat, mdatSize: nat)
    requires Laid(d, t, mdatOffset, mdatSize) && 8 < SizeOf(t) && t.tag == TAG_MOOV
    ensures RootLaid(d, t, FinishedLayout(t, mdatOffset, mdatSize, |d|), if mdatSize + 8 <= UINT32_MAX then 2 else 1)
  {
    hide SizeOf, U32At, Fits, Serialize, BoxHere, RootLaid, HeaderHere;
    var m := MdatStart(mdatOffset, mdatSize);
    var l, k := FinishedLayout(t, mdatOffset, mdatSize, |d|), if mdatSize + 8 <= UINT32_MAX then 2 else 1;
    FinishedHeaders(d, t, mdatOffset, mdatSize);
    forall i | 0 <= i < |l.tags|
      ensures BoxHere(d, l, k, i)
    {
      if i == 0 {
        BoxIsHere(d, l, k, 0);
      } else if i == k {
        BoxIsHere(d, l, k, k);
      } else if i == k + 1 {
        BoxIsHere(d, l, k, k + 1);
      } else {
        BoxIsHere(d, l, k, 1);
      }
    }
    BoxesLie(d, t, l, k);
  }

  lemma FinishedHeaders(d: seq<byte>, t: Tree, mdatOffset: nat, mdatSize: nat)
    requires Laid(d, t, mdatOffset, mdatSize) && 8 < SizeOf(t) && t.tag == TAG_MOOV
    ensures Fits(t)
    ensures var m, n := MdatStart(mdatOffset, mdatSize), SizeOf(t);
            && 8 <= m && m + n + 8 <= |d| && d[m..m + n] == Serialize(t)
            && HeaderHere(d, 0, mdatOffset - 8, TAG_FTYP) && HeaderHere(d, m, n, TAG_MOOV)
            && HeaderHere(d, m + n, |d| - m - n, TAG_MDAT)
            && (m == mdatOffset ==> HeaderHere(d, m - 8, 8, TAG_FREE))
  {
    hide SizeOf, U32At, Fits, Serialize;
    MoovHeaderHere(d, t, MdatStart(mdatOffset, mdatSize));
  }

  /** A tree that was written at byte m begins with its header. */
  lemma MoovHeaderHere(d: seq<byte>, t: Tree, m: nat)
    requires Fits(t) && 8 < SizeOf(t) && m + SizeOf(t) <= |d| && d[m..m + SizeOf(t)] == Serialize(t)
    ensures HeaderHere(d, m, SizeOf(t), t.tag)
  {
    hide SizeOf, U32At, Fits, Serialize;
    FitsSize(t);
    HeaderOf(t);
    HeaderAt(d, m, SizeOf(t), Serialize(t), m, Serialize(t));
  }

  lemma BoxesLie(d: seq<byte>, t: Tree, l: Layout, k: nat)
    requires |l.starts| == |l.tags| + 1 && k + 1 < |l.tags| && l.starts[0] == 0 && l.starts[|l.tags|] == |d|
    requires forall i :: 0 <= i < |l.tags| ==> BoxHere(d, l, k, i)
    requires Fits(t) && l.starts[k] + SizeOf(t) == l.starts[k + 1] <= |d|
    requires d[l.starts[k]..l.starts[k + 1]] == Serialize(t)
    ensures RootLaid(d, t, l, k)
  {
    hide SizeOf, Fits, Serialize, BoxHere;
  }

  lemma BoxIsHere(d: seq<byte>, l: Layout, k: nat, i: nat)
    requires |l.starts| == |l.tags| + 1 && i < |l.tags| && l.starts[i] <= l.starts[i + 1] <= |d|
    requires HeaderHere(d, l.starts[i], l.starts[i + 1] - l.starts[i], l.tags[i])
    requires (l.tags[i] == TAG_MOOV <==> i == k) && (l.tags[i] == TAG_MDAT <==> i == |l.tags| - 1)
    ensures BoxHere(d, l, k, i)
  {
    hide HeaderHere;
  }

  lemma BoxAt(d: seq<byte>, t: Tree, l: Layout, k: nat, i: nat)
    requires RootLaid(d, t, l, k) && i < |l.tags|
    ensures |l.starts| == |l.tags| + 1 && BoxHere(d, l, k, i) && (i == |l.tags| - 1 ==> l.starts[i + 1] == |d|)
  {
    hide BoxHere, Serialize, SizeOf, Fits;
  }

  /** mov_reader_root: box after box, until mdat. */
  method ReadRoot(io: Stream, ghost f: Frame, ghost vs: seq<View>, ghost l: Layout, ghost k: nat)
    returns (tracks: seq<Track>)
    requires AllWritable(vs, f.movieTimescale) && AllLossless(vs, f.movieTimescale) && Readable(f)
    requires io.error == 0 && io.pos == 0 && RootLaid(io.data, MoovTree(f, vs), l, k)
    modifies io
    ensures io.data == old(io.data) && io.error == 0 && io.pos == |io.data|
    ensures (forall t :: t in tracks ==> fresh(t)) && AllPlayed(tracks, f, vs)
  {
    hide SizeOf, Fits, Serialize, U32At, Lossless, MoovTree, Writable, AllWritable, Played, Filled, Readable, AllPlayed;
    hide RootLaid, AllLossless, MoovParts, BoxesAt;
    tracks := [];
    ghost var i: nat, t, d := 0, MoovTree(f, vs), io.data;
    MoovFacts(f, vs, d, l, k);
    while io.error == 0
      invariant |l.starts| == |l.tags| + 1 && i < |l.tags| && k < |l.tags|
      invariant io.error == 0 && io.data == d && io.pos == l.starts[i]
      invariant i > k ==> (forall x :: x in tracks ==> fresh(x)) && AllPlayed(tracks, f, vs)
      decreases |l.tags| - i
    {
      BoxAt(d, t, l, k, i);
      var n: nat := 8;
      var word := io.R32();
      var tag := io.R32();
      var size: nat := word;
      if word == 1 {
        size := io.R64();
        n := 16;
      }
      if tag == TAG_MOOV {
        tracks := ReadMoov(io, size - n, f, vs);
        WholeMoov(tracks, f, vs);
      } else {
        io.Seek(io.pos + (size - n));
      }
      if tag == TAG_MDAT {
        break;
      }
      i := i + 1;
    }
  }

  lemma WholeMoov(tracks: seq<Track>, f: Frame, vs: seq<View>)
    requires AllWritable(vs, f.movieTimescale) && Readable(f) && ReadSoFar(tracks, f, vs, |MoovParts(f, vs)|)
    ensures AllPlayed(tracks, f, vs)
  {
    hide Played, Writable;
    TraksAreFilled(f, vs, |vs|);
  }

  lemma MoovFacts(f: Frame, vs: seq<View>, d: seq<byte>, l: Layout, k: nat)
    requires AllWritable(vs, f.movieTimescale) && AllLossless(vs, f.movieTimescale) && Readable(f)
    requires RootLaid(d, MoovTree(f, vs), l, k)
    ensures |l.starts| == |l.tags| + 1 && k + 1 < |l.tags| && l.starts[0] == 0 && l.starts[|l.tags|] == |d|
    ensures var t, ts, m := MoovTree(f, vs), MoovParts(f, vs), l.starts[k];
            && l.starts[k + 1] == m + SizeOf(t) && 8 < SizeOf(t) <= UINT32_MAX && SizeOf(t) - 8 == SizeOfAll(ts, |ts|)
            && m + SizeOf(t) <= |d| && U32At(d, m) == SizeOf(t) && U32At(d, m + 4) == TAG_MOOV && BoxesAt(d, m + 8, ts)
  {
    hide SizeOf, SizeOfAll, Fits, Serialize, SerializeAll, U32At, Traks, Lossless, Payload, AllLossless, BoxHere;
    var t, ts, m := MoovTree(f, vs), MoovParts(f, vs), l.starts[k];
    FitsSize(t);
    HeaderOf(t);
    PayloadOf(t);
    HeaderAt(d, m, SizeOf(t), Serialize(t), m, Serialize(t));
    PartsWalk(f, vs);
    AtLeastOne(ts);
  }

  lemma MoovNotEmpty(f: Frame, vs: seq<View>)
    requires AllWritable(vs, f.movieTimescale) && AllLossless(vs, f.movieTimescale) && Readable(f) && Fits(MoovTree(f, vs))
    ensures 8 < SizeOf(MoovTree(f, vs)) && MoovTree(f, vs).tag == TAG_MOOV
  {
    hide Fits, Serialize, SerializeAll, Traks, Lossless, AllLossless, AllWritable;
    PayloadOf(MoovTree(f, vs));
    PartsWalk(f, vs);
    AtLeastOne(MoovParts(f, vs));
  }

  lemma AtLeastOne(ts: seq<Tree>)
    requires Walkable(ts) && |ts| > 0
    ensures SizeOfAll(ts, |ts|) > 0
  {
    NextSize(ts, |ts| - 1);
  }

  lemma PartsWalk(f: Frame, vs: seq<View>)
    requires AllWritable(vs, f.movieTimescale) && AllLossless(vs, f.movieTimescale) && Readable(f) && Fits(MoovTree(f, vs))
    ensures Walkable(MoovParts(f, vs))
  {
    hide Fits, Traks, TrakTree, Lossless, AllLossless;
    var ts := MoovParts(f, vs);
    MoovPartsFit(f, vs);
    TraksAreFilled(f, vs, |vs|);
    var js := Filled(vs, |vs|);
    forall i | 0 <= i < |ts|
      ensures Fits(ts[i]) && 8 < SizeOf(ts[i])
    {
      if 1 <= i <= |js| {
        assert ts[i] == Traks(f, vs, |vs|)[i - 1] && ts[i] in Traks(f, vs, |vs|);
        assert ts[i] == TrakTree(vs[js[i - 1]], f.movieTimescale);
        TrakNotEmpty(vs[js[i - 1]], f.movieTimescale);
      } else if i > |js| {
        assert ts[i] == f.udta[i - 1 - |js|] && ts[i] in f.udta;
        LeafNotEmpty(ts[i]);
      } else {
        LeafNotEmpty(ts[i]);
      }
    }
  }

  lemma LeafNotEmpty(t: Tree)
    requires t.Leaf? && t.payload != []
    ensures 8 < SizeOf(t)
  {
  }

  lemma TrakNotEmpty(v: View, movieTimescale: u32)
    requires v.Valid() && Editable(v, movieTimescale)
    ensures 8 < SizeOf(TrakTree(v, movieTimescale))
  {
    hide EdtsTree, MdiaTree;
    var ts := [v.tkhd, EdtsTree(v, movieTimescale), MdiaTree(v)];
    assert SizeOfAll(ts, 1) == SizeOfAll(ts, 0) + SizeOf(ts[0]);
    assert SizeOfAll(ts, 3) >= SizeOfAll(ts, 2) >= SizeOfAll(ts, 1) >= 8;
  }

  // ---------- what was written ----------

  /** A recorded track that plays back without loss, whatever it is moved by. */
  ghost predicate Faithful(v: View)
  {
    v.n > 0 ==> v.n <= |v.s| && v.n < UINT32_MAX && PlainBoxes(v) && !AllEmpty(v.s, v.n) && NarrowSpread(v.s, v.n)
  }

  lemma FaithfulIsLossless(w: MovWriter, vs: seq<View>, shift: nat)
    requires w.Valid() && Viewed(w.tracks, vs) && forall v :: v in vs ==> Faithful(v)
    requires AllWritable(Moved(vs, shift), w.frame.movieTimescale) && Fits(MoovTree(w.frame, Moved(vs, shift)))
    ensures AllLossless(Moved(vs, shift), w.frame.movieTimescale)
  {
    hide Fits, Traks, TrakTree, Editable, Storable, MoovTree, PlainBoxes, NarrowSpread, AllEmpty, OffsetsFit64;
    hide MovWriter.Valid, Viewed;
    var ws, mts := Moved(vs, shift), w.frame.movieTimescale;
    MoovPartsFit(w.frame, ws);
    TraksAreFilled(w.frame, ws, |ws|);
    forall j | 0 <= j < |ws| && ws[j].n > 0
      ensures Lossless(ws[j], mts)
    {
      assert Writable(ws[j], mts) && Faithful(vs[j]) by { assert vs[j] in vs; }
      RecordedIsStorable(w, vs, shift, j);
      InFilled(ws, |ws|, j);
      var i :| 0 <= i < |Filled(ws, |ws|)| && Filled(ws, |ws|)[i] == j;
      assert Traks(w.frame, ws, |ws|)[i] == TrakTree(ws[j], mts);
      assert Traks(w.frame, ws, |ws|)[i] in Traks(w.frame, ws, |ws|);
    }
  }

  lemma {:induction false} InFilled(vs: seq<View>, k: nat, j: nat)
    requires j < k <= |vs| && vs[j].n > 0
    ensures exists i :: 0 <= i < |Filled(vs, k)| && Filled(vs, k)[i] == j
  {
    if j < k - 1 {
      InFilled(vs, k - 1, j);
      var i :| 0 <= i < |Filled(vs, k - 1)| && Filled(vs, k - 1)[i] == j;
      assert Filled(vs, k)[i] == j;
    } else {
      assert Filled(vs, k)[|Filled(vs, k)| - 1] == j;
    }
  }

  /** The distance of pts from dts that was handed over, in units of the track. */
  function OffsetGiven(g: Given, timescale: u32): int { InTrackTime(g.pts, timescale) - InTrackTime(g.dts, timescale) }

  /** The reader's shift: 0, or the least of the offsets below -1. */
  ghost predicate IsShift(given: seq<Given>, timescale: u32, shift: int)
  {
    && (shift == 0 || (shift < -1 && exists k :: 0 <= k < |given| && OffsetGiven(given[k], timescale) == shift))
    && forall k :: 0 <= k < |given| ==> OffsetGiven(given[k], timescale) >= shift || OffsetGiven(given[k], timescale) == -1
  }

  /** Every two samples that follow each other are at least one unit apart, and the gap fits 32 bits. */
  ghost predicate GapsGivenFit(given: seq<Given>, timescale: u32)
  {
    forall k :: 0 < k < |given| ==>
      1 <= InTrackTime(given[k].dts, timescale) - InTrackTime(given[k - 1].dts, timescale) < TWO_32
  }

  ghost predicate ElapsedAsGiven(c: seq<Sample>, given: seq<Given>, timescale: u32)
    requires |given| <= |c|
  {
    forall k :: 0 <= k < |given| ==>
      c[k].dts - c[0].dts == InTrackTime(given[k].dts, timescale) - InTrackTime(given[0].dts, timescale)
  }

  /**
   * The samples `c` read from the file `e` against what was handed over for one track: the blocks, and the
   * times and key flags that went with them.
   */
  ghost predicate SameAsWritten(e: seq<byte>, c: seq<Sample>, v: View, movieTimescale: u32, blocks: seq<seq<byte>>,
                                given: seq<Given>)
  {
    && v.timescale > 0 && 0 < |given| == |blocks| < |c|
    && (forall k :: 0 <= k < |blocks| ==>
          c[k].offset + c[k].bytes <= |e| && e[c[k].offset..c[k].offset + c[k].bytes] == blocks[k])
    && (forall k :: 0 <= k < |given| ==> c[k].key == (v.video && given[k].key))
    && c[0].dts == Elst.FirstTime(InTrackTime(given[0].pts, v.timescale), InTrackTime(given[0].dts, v.timescale),
                             movieTimescale, v.timescale, v.duration)
    && (ElapsedAsGiven(c, given, v.timescale) <==> GapsGivenFit(given, v.timescale))
    && exists shift :: IsShift(given, v.timescale, shift)
         && forall k :: 0 <= k < |given| ==> c[k].pts - c[k].dts == OffsetGiven(given[k], v.timescale) - shift
  }

  /** The shift is the least offset below -1, or 0 if there is none. */
  lemma {:induction false} LeastIsLeast(s: seq<Sample>, n: nat)
    requires n <= |s|
    ensures var least := LeastOffset(s, n);
            && (least == 0 || (least < -1 && exists k :: 0 <= k < n && s[k].pts - s[k].dts == least))
            && forall k :: 0 <= k < n ==> s[k].pts - s[k].dts >= least || s[k].pts - s[k].dts == -1
  {
    if n > 0 {
      LeastIsLeast(s, n - 1);
      assert LeastOffset(s, n) == LeastOffset(s, n - 1) || LeastOffset(s, n) == s[n - 1].pts - s[n - 1].dts;
    }
  }

  /** The same of the times that were handed over. */
  lemma TimesAsGiven(v: View, c: seq<Sample>, given: seq<Given>, blocks: seq<seq<byte>>)
    requires v.timescale > 0 && AllKept(v.s, v.n, given, v.timescale) && 0 < v.n < |c|
    requires SameElapsed(v.s, c, v.n) <==> GapsFit(v.s, v.n)
    requires forall k :: 0 <= k < v.n ==> c[k].pts - c[k].dts == v.s[k].pts - v.s[k].dts - LeastOffset(v.s, v.n)
    ensures ElapsedAsGiven(c, given, v.timescale) <==> GapsGivenFit(given, v.timescale)
    ensures IsShift(given, v.timescale, LeastOffset(v.s, v.n))
    ensures forall k :: 0 <= k < |given| ==>
      c[k].pts - c[k].dts == OffsetGiven(given[k], v.timescale) - LeastOffset(v.s, v.n)
  {
    hide InTrackTime, LeastOffset;
    LeastIsLeast(v.s, v.n);
    forall k | 0 <= k < v.n
      ensures v.s[k].pts - v.s[k].dts == OffsetGiven(given[k], v.timescale)
      ensures v.s[k].dts == InTrackTime(given[k].dts, v.timescale)
    {
      assert Keeps(v.s[k], given[k], v.timescale);
    }
  }

  lemma PlayedIsSame(w: MovWriter, vs: seq<View>, shift: nat, e: seq<byte>, j: nat, c: seq<Sample>)
    requires w.Valid() && Viewed(w.tracks, vs) && j < |vs| && vs[j].n > 0 && Faithful(vs[j])
    requires AllWritable(Moved(vs, shift), w.frame.movieTimescale) && HoldsAll(vs, shift, w.written, e)
    requires var v, mts := Moved(vs, shift)[j], w.frame.movieTimescale;
             && v.Valid() && Editable(v, mts)
             && var tb := WrittenTables(v, mts); tb.stsc != [] && exists s, a, b :: Expanded(tb, s, a, b, c)
    ensures j < |w.written| && j < |w.given| && SameAsWritten(e, c, vs[j], w.frame.movieTimescale, w.written[j], w.given[j])
  {
    hide Expanded, HoldsAll, WrittenTables, Viewed, Editable, OffsetsFit64, SameElapsed, GapsFit;
    hide LeastOffset, MovWriter.Valid, PlainBoxes, AllEmpty;
    var v, mts := Moved(vs, shift)[j], w.frame.movieTimescale;
    var s, a, b :| Expanded(WrittenTables(v, mts), s, a, b, c);
    assert |ChunksOf(v.s, v.n)| <= v.n;
    SpreadFitsOffsets(v);
    TimelineSurvives(v, mts, s, a, b, c);
    LongEnough(v, mts, s, a, b, c);
    forall k | 0 <= k < v.n
      ensures j < |w.written| && k < |w.written[j]| && k < |c|
      ensures c[k].offset + c[k].bytes <= |e| && e[c[k].offset..c[k].offset + c[k].bytes] == w.written[j][k]
      ensures c[k].key == (v.video && v.s[k].key)
    {
      BytesAreReadBack(w, vs, shift, e, j, k, s, a, b, c);
      PlacementSurvives(v, mts, s, a, b, c, k);
    }
    assert v.n - 1 < |w.written[j]|;
    KeptInView(w, vs, j);
    TimesAsGiven(vs[j], c, w.given[j], w.written[j]);
    assert Keeps(vs[j].s[0], w.given[j][0], vs[j].timescale);
  }

  /** The views hold the samples that were stored. */
  lemma KeptInView(w: MovWriter, vs: seq<View>, j: nat)
    requires w.Valid() && Viewed(w.tracks, vs) && j < |vs|
    ensures |w.written| == |w.given| == |vs| && vs[j].timescale > 0 && |w.written[j]| == vs[j].n
    ensures AllKept(vs[j].s, vs[j].n, w.given[j], vs[j].timescale)
  {
    hide RecordedAt, Keeps;
    assert w.TrackOk(j);
    var t := w.tracks[j];
    assert t.Valid() && ViewOf(t) == vs[j];
    AllKeptSame(t.samples, vs[j].s, t.sampleCount, w.given[j], t.timescale);
  }

  lemma SpreadFitsOffsets(v: View)
    requires v.n <= |v.s| && NarrowSpread(v.s, v.n)
    ensures OffsetsFit(v.s, v.n)
  {
  }

  lemma LongEnough(v: View, movieTimescale: u32, s: seq<Sample>, a: seq<Sample>, b: seq<Sample>, c: seq<Sample>)
    requires v.Valid() && Editable(v, movieTimescale)
    requires var tb := WrittenTables(v, movieTimescale); tb.stsc != [] && Expanded(tb, s, a, b, c)
    ensures v.n < |c|
  {
    hide ChunksOf, StscOf, Deltas, WrittenOffsets, WrittenCtts, Sized, Expanded;
    ExpandedLengths(WrittenTables(v, movieTimescale), s, a, b, c);
  }

  /** What a reader can make of the file `e`: its boxes are in place, and its tracks say what was written. */
  ghost predicate PlaysBack(e: seq<byte>, f: Frame, vs: seq<View>, shift: nat, written: seq<seq<seq<byte>>>,
                            given: seq<seq<Given>>)
  {
    var ws := Moved(vs, shift);
    && AllWritable(ws, f.movieTimescale) && AllLossless(ws, f.movieTimescale)
    && (exists l: Layout, k: nat :: RootLaid(e, MoovTree(f, ws), l, k))
    && forall j, c: seq<Sample> :: 0 <= j < |vs| && vs[j].n > 0 && PlayedAs(ws[j], f.movieTimescale, c) ==>
         j < |written| && j < |given| && SameAsWritten(e, c, vs[j], f.movieTimescale, written[j], given[j])
  }

  ghost predicate PlayedAs(v: View, movieTimescale: u32, c: seq<Sample>)
  {
    && v.Valid() && Editable(v, movieTimescale)
    && var tb := WrittenTables(v, movieTimescale); tb.stsc != [] && exists s, a, b :: Expanded(tb, s, a, b, c)
  }

  /** A file whose boxes are in place and that holds every block plays back. */
  lemma HeldPlays(w: MovWriter, vs: seq<View>, shift: nat, e: seq<byte>, l: Layout, k: nat)
    requires w.Valid() && Viewed(w.tracks, vs) && forall v :: v in vs ==> Faithful(v)
    requires AllWritable(Moved(vs, shift), w.frame.movieTimescale) && Fits(MoovTree(w.frame, Moved(vs, shift)))
    requires RootLaid(e, MoovTree(w.frame, Moved(vs, shift)), l, k) && HoldsAll(vs, shift, w.written, e)
    ensures PlaysBack(e, w.frame, vs, shift, w.written, w.given)
  {
    hide MoovTree, Fits, Viewed, Faithful, AllLossless, SameAsWritten, RootLaid, MovWriter.Valid, HoldsAll;
    hide AllWritable, WrittenTables, Expanded, Editable;
    FaithfulIsLossless(w, vs, shift);
    forall j, c: seq<Sample> | 0 <= j < |vs| && vs[j].n > 0 && PlayedAs(Moved(vs, shift)[j], w.frame.movieTimescale, c)
      ensures j < |w.written| && j < |w.given| && SameAsWritten(e, c, vs[j], w.frame.movieTimescale, w.written[j], w.given[j])
    {
      assert vs[j] in vs;
      PlayedIsSame(w, vs, shift, e, j, c);
    }
  }

  /** Any file that finishing the recording can produce plays back. */
  lemma FinishedPlays(w: MovWriter, vs: seq<View>, shift: nat, e: seq<byte>)
    requires w.Valid() && !w.reserve && Viewed(w.tracks, vs) && forall v :: v in vs ==> Faithful(v)
    requires FrontLoaded(w.frame, vs, shift, w.io.data, w.mdatOffset, w.mdatSize, e) && Readable(w.frame)
    ensures PlaysBack(e, w.frame, vs, shift, w.written, w.given)
  {
    hide FrontLoaded, MoovTree, Fits, Viewed, Faithful, AllLossless, Laid, MovWriter.Valid, HoldsAll;
    hide AllWritable, RootLaid, Readable, SizeOf, PlaysBack, FinishedLayout;
    FrontParts(w, vs, shift, e);
    FinishedIsLaid(w, vs, shift, e);
    FaithfulIsLossless(w, vs, shift);
    var t := MoovTree(w.frame, Moved(vs, shift));
    MoovNotEmpty(w.frame, Moved(vs, shift));
    LaidBehind(e, t, w.mdatOffset, w.mdatSize);
    FinishedTiles(e, t, w.mdatOffset, w.mdatSize);
    AllHeld(w, vs, shift, e);
    HeldPlays(w, vs, shift, e, FinishedLayout(t, w.mdatOffset, w.mdatSize, |e|), if w.mdatSize + 8 <= UINT32_MAX then 2 else 1);
  }

  lemma LaidBehind(d: seq<byte>, t: Tree, mdatOffset: nat, mdatSize: nat)
    requires Laid(d, t, mdatOffset, mdatSize)
    ensures 16 <= mdatOffset
  {
  }

  /**
   * Recording, fast start and reading, end to end: the recording is finished, a reader opens the file at
   * its first byte and finds every track that has samples, at each decoded offset the bytes that were
   * written, and the times and key flags that were handed over with them.
   */
  method FinishAndRead(w: MovWriter, ghost vs: seq<View>) returns (tracks: seq<Track>)
    requires w.Valid() && !w.reserve && Viewed(w.tracks, vs) && AllWritable(vs, w.frame.movieTimescale)
    requires Relocation.Countable(vs) && FileFits(w, vs) && Readable(w.frame) && forall v :: v in vs ==> Faithful(v)
    modifies w`mdatOffset, w.io, w.tracks
    ensures var js := Filled(vs, |vs|);
            && |tracks| == |js|
            && forall i :: 0 <= i < |js| ==>
                 && js[i] < |w.written| && js[i] < |w.given|
                 && SameAsWritten(w.io.data, tracks[i].samples, vs[js[i]], w.frame.movieTimescale,
                                  w.written[js[i]], w.given[js[i]])
  {
    hide FrontLoaded, Moved, MoovTree, Viewed, Faithful, AllPlayed, SameAsWritten, Filled, Laid, Readable;
    hide AllWritable, MovWriter.Valid, PlaysBack;
    hide FileFits, Relocation.Countable, AllLossless;
    ghost var f, d, start, n, written, given := w.frame, w.io.data, w.mdatOffset, w.mdatSize, w.written, w.given;
    forall shift: nat, e | FrontLoaded(f, vs, shift, d, start, n, e)
      ensures PlaysBack(e, f, vs, shift, written, given)
    {
      FinishedPlays(w, vs, shift, e);
    }
    ghost var shift := FinishFastStart(w, vs);
    tracks := OpenFile(w.io.data, f, vs, shift, written, given);
  }

  method OpenFile(e: seq<byte>, ghost f: Frame, ghost vs: seq<View>, ghost shift: nat,
                  ghost written: seq<seq<seq<byte>>>, ghost given: seq<seq<Given>>)
    returns (tracks: seq<Track>)
    requires PlaysBack(e, f, vs, shift, written, given) && Readable(f)
    ensures var js := Filled(vs, |vs|);
            && |tracks| == |js|
            && forall i :: 0 <= i < |js| ==>
                 && js[i] < |written| && js[i] < |given|
                 && SameAsWritten(e, tracks[i].samples, vs[js[i]], f.movieTimescale, written[js[i]], given[js[i]])
  {
    hide Moved, MoovTree, AllPlayed, SameAsWritten, Filled, RootLaid, Readable, AllWritable, AllLossless;
    var io := new Stream(e);
    ghost var l: Layout, k: nat :| RootLaid(e, MoovTree(f, Moved(vs, shift)), l, k);
    tracks := ReadRoot(io, f, Moved(vs, shift), l, k);
    AllSame(tracks, e, f, vs, shift, written, given);
  }

  lemma FrontParts(w: MovWriter, vs: seq<View>, shift: nat, e: seq<byte>)
    requires FrontLoaded(w.frame, vs, shift, w.io.data, w.mdatOffset, w.mdatSize, e)
    ensures AllWritable(Moved(vs, shift), w.frame.movieTimescale) && Fits(MoovTree(w.frame, Moved(vs, shift)))
  {
  }

  lemma {:induction false} MovedFilled(vs: seq<View>, shift: nat, k: nat)
    requires k <= |vs|
    ensures Filled(Moved(vs, shift), k) == Filled(vs, k)
  {
    if k > 0 {
      MovedFilled(vs, shift, k - 1);
    }
  }

  lemma AllSame(tracks: seq<Track>, e: seq<byte>, f: Frame, vs: seq<View>, shift: nat, written: seq<seq<seq<byte>>>,
                given: seq<seq<Given>>)
    requires PlaysBack(e, f, vs, shift, written, given)
    requires AllWritable(Moved(vs, shift), f.movieTimescale) && AllPlayed(tracks, f, Moved(vs, shift))
    ensures var js := Filled(vs, |vs|);
            && |tracks| == |js|
            && forall i :: 0 <= i < |js| ==>
                 && js[i] < |written| && js[i] < |given|
                 && SameAsWritten(e, tracks[i].samples, vs[js[i]], f.movieTimescale, written[js[i]], given[js[i]])
  {
    hide SameAsWritten, Filled, WrittenTables, Expanded, Editable, OffsetsFit64, RootLaid, AllLossless, MoovTree;
    MovedFilled(vs, shift, |vs|);
    var js := Filled(vs, |vs|);
    forall i | 0 <= i < |js|
      ensures js[i] < |written| && js[i] < |given|
      ensures SameAsWritten(e, tracks[i].samples, vs[js[i]], f.movieTimescale, written[js[i]], given[js[i]])
    {
      assert PlayedAs(Moved(vs, shift)[js[i]], f.movieTimescale, tracks[i].samples);
    }
  }
}
