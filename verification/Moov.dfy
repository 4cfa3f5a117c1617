/** mov_write_moov: the movie box over all tracks, and how its size depends on the offsets. */
module Moov {
  import opened Bytes
  import opened ChunkTables
  import opened Tracks
  import opened MovStream
  import opened Boxes
  import opened Stco
  import opened TrackWriter

  /** The boxes of moov that do not depend on the tracks. */
  datatype Frame = Frame(movieTimescale: u32, mvhd: Tree, udta: seq<Tree>)
  {
    ghost predicate Valid() { mvhd.Leaf? && |udta| <= 1 && forall t :: t in udta ==> t.Leaf? }
  }

  /** A track that will be written has times and offsets its boxes can hold. */
  ghost predicate Writable(v: View, movieTimescale: u32)
  {
    v.Valid() && (v.n > 0 ==> Editable(v, movieTimescale))
  }

  ghost predicate AllWritable(vs: seq<View>, movieTimescale: u32)
  {
    forall j :: 0 <= j < |vs| ==> Writable(vs[j], movieTimescale)
  }

  /** One trak for each of the first k tracks that has samples. */
  ghost function Traks(f: Frame, vs: seq<View>, k: nat): seq<Tree>
    requires k <= |vs| && AllWritable(vs, f.movieTimescale)
  {
    if k == 0 then []
    else Traks(f, vs, k - 1) + if vs[k - 1].n > 0 then [TrakTree(vs[k - 1], f.movieTimescale)] else []
  }

  ghost function MoovParts(f: Frame, vs: seq<View>): seq<Tree>
    requires AllWritable(vs, f.movieTimescale)
  {
    [f.mvhd] + Traks(f, vs, |vs|) + f.udta
  }

  ghost function MoovTree(f: Frame, vs: seq<View>): Tree
    requires AllWritable(vs, f.movieTimescale)
  {
    Node(TAG_MOOV, MoovParts(f, vs))
  }

  /** The tracks look like the views. */
  ghost predicate Viewed(tracks: seq<Track>, vs: seq<View>)
    reads tracks
  {
    && |tracks| == |vs|
    && forall j :: 0 <= j < |tracks| ==> tracks[j].Valid() && LeavesReady(tracks[j]) && ViewOf(tracks[j]) == vs[j]
  }

  ghost predicate ChunksMarked(track: Track, v: View)
    requires track.Valid() && v.Valid()
    reads track
  {
    v.n > 0 ==> track.sampleCount == v.n && Marked(track.samples, v.n, ChunksOf(v.s, v.n))
  }

  /** The scratch fields of the first k tracks hold their chunks. */
  ghost predicate AllMarked(tracks: seq<Track>, vs: seq<View>, k: nat)
    reads tracks
  {
    && k <= |tracks| == |vs|
    && forall j :: 0 <= j < k ==> tracks[j].Valid() && vs[j].Valid() && ChunksMarked(tracks[j], vs[j])
  }

  lemma MoovPartsFit(f: Frame, vs: seq<View>)
    requires AllWritable(vs, f.movieTimescale) && Fits(MoovTree(f, vs))
    ensures Fits(f.mvhd) && (forall t :: t in f.udta ==> Fits(t))
    ensures forall t :: t in Traks(f, vs, |vs|) ==> Fits(t)
    ensures 8 + SizeOfAll(MoovParts(f, vs), |MoovParts(f, vs)|) == SizeOf(MoovTree(f, vs)) <= UINT32_MAX
  {
    hide Traks;
    var parts := MoovParts(f, vs);
    forall t | t in parts
      ensures Fits(t)
    {
      var i :| 0 <= i < |parts| && parts[i] == t;
      ChildFits(MoovTree(f, vs), i);
    }
    assert f.mvhd in parts;
    assert forall t :: t in f.udta ==> t in parts;
    assert forall t :: t in Traks(f, vs, |vs|) ==> t in parts;
  }

  lemma {:induction false} TraksPrefix(f: Frame, vs: seq<View>, i: nat, k: nat)
    requires i <= k <= |vs| && AllWritable(vs, f.movieTimescale)
    ensures forall t :: t in Traks(f, vs, i) ==> t in Traks(f, vs, k)
  {
    hide TrakTree;
    if i < k {
      TraksPrefix(f, vs, i, k - 1);
      forall t | t in Traks(f, vs, i)
        ensures t in Traks(f, vs, k)
      {
        assert t in Traks(f, vs, k - 1);
      }
    }
  }

  /** Writing one track leaves the others, and the chunks marked in them, as they were. */
  method WriteTrakAt(io: Stream, tracks: seq<Track>, i: nat, f: Frame, ghost vs: seq<View>) returns (size: u32)
    requires io.Valid() && Viewed(tracks, vs) && i < |tracks| && AllMarked(tracks, vs, i)
    requires vs[i].n > 0 && Writable(vs[i], f.movieTimescale) && Fits(TrakTree(vs[i], f.movieTimescale))
    modifies io, tracks
    ensures io.Valid() && io.base == old(io.base) && io.start == old(io.start)
    ensures Viewed(tracks, vs) && AllMarked(tracks, vs, i + 1)
    ensures var t := TrakTree(vs[i], f.movieTimescale);
            io.done == old(io.done) + Serialize(t) && size == SizeOf(t)
  {
    hide Splice, Serialize, SizeOf, Fits, Marked, ChunksOf, TrakTree;
    assert ViewOf(tracks[i]) == vs[i];
    size := WriteTrak(io, tracks[i], f.movieTimescale);
    forall j | 0 <= j < |tracks|
      ensures tracks[j].Valid() && LeavesReady(tracks[j]) && ViewOf(tracks[j]) == vs[j]
    {
    }
  }

  lemma TraksStep(f: Frame, vs: seq<View>, i: nat)
    requires i < |vs| && AllWritable(vs, f.movieTimescale)
    ensures [f.mvhd] + Traks(f, vs, 0) == [f.mvhd]
    ensures vs[i].n == 0 ==> [f.mvhd] + Traks(f, vs, i + 1) == [f.mvhd] + Traks(f, vs, i)
    ensures vs[i].n > 0 ==>
      var t := TrakTree(vs[i], f.movieTimescale);
      && [f.mvhd] + Traks(f, vs, i + 1) == [f.mvhd] + Traks(f, vs, i) + [t]
      && t in Traks(f, vs, |vs|)
  {
    hide TrakTree;
    TraksPrefix(f, vs, i + 1, |vs|);
    if vs[i].n > 0 {
      assert TrakTree(vs[i], f.movieTimescale) in Traks(f, vs, i + 1);
    }
  }

  /** An open moov with the first k tracks written. */
  ghost predicate MoovOpen(io: Stream, f: Frame, vs: seq<View>, k: nat, pre: seq<byte>, size: int)
    requires k <= |vs| && AllWritable(vs, f.movieTimescale)
    reads io
  {
    var ts := [f.mvhd] + Traks(f, vs, k);
    && io.Valid()
    && (forall i :: 0 <= i < |ts| ==> Fits(ts[i]))
    && io.done == Opened(pre, TAG_MOOV, ts)
    && size == SizeOfAll(ts, |ts|) - SizeOf(f.mvhd)
  }

  method WriteTraks(io: Stream, tracks: seq<Track>, f: Frame, ghost vs: seq<View>, ghost pre: seq<byte>)
    returns (size: nat)
    requires io.Valid() && f.Valid() && Viewed(tracks, vs) && AllWritable(vs, f.movieTimescale)
    requires Fits(f.mvhd) && forall t :: t in Traks(f, vs, |vs|) ==> Fits(t)
    requires io.done == Opened(pre, TAG_MOOV, [f.mvhd])
    modifies io, tracks
    ensures io.base == old(io.base) && io.start == old(io.start)
    ensures Viewed(tracks, vs) && AllMarked(tracks, vs, |tracks|)
    ensures MoovOpen(io, f, vs, |vs|, pre, size)
  {
    hide Splice, Opened, Serialize, SizeOf, SizeOfAll, Fits, ChunksMarked, TrakTree, ViewOf, Traks;
    size := 0;
    var i: nat := 0;
    MoovOpenStart(f, vs);
    while i < |tracks|
      invariant i <= |tracks| && io.base == old(io.base) && io.start == old(io.start)
      invariant Viewed(tracks, vs) && AllMarked(tracks, vs, i)
      invariant MoovOpen(io, f, vs, i, pre, size)
    {
      TraksStep(f, vs, i);
      CountOf(tracks[i], vs[i]);
      if tracks[i].sampleCount >= 1 {
        OpenedNext(pre, TAG_MOOV, [f.mvhd] + Traks(f, vs, i), TrakTree(vs[i], f.movieTimescale));
        var part := WriteTrakAt(io, tracks, i, f, vs);
        size := size + part;
      } else {
        SkipMarked(tracks, vs, i);
      }
      i := i + 1;
    }
  }

  lemma CountOf(track: Track, v: View)
    requires track.Valid() && ViewOf(track) == v
    ensures track.sampleCount == v.n
  {
  }

  lemma SkipMarked(tracks: seq<Track>, vs: seq<View>, i: nat)
    requires AllMarked(tracks, vs, i) && i < |tracks| && tracks[i].Valid() && vs[i].Valid() && vs[i].n == 0
    ensures AllMarked(tracks, vs, i + 1)
  {
  }

  lemma MoovOpenStart(f: Frame, vs: seq<View>)
    requires AllWritable(vs, f.movieTimescale)
    ensures [f.mvhd] + Traks(f, vs, 0) == [f.mvhd]
    ensures SizeOfAll([f.mvhd], 1) == SizeOf(f.mvhd)
  {
    OneChildSize(f.mvhd);
  }

  lemma OneChildSize(t: Tree)
    ensures SizeOfAll([t], 1) == SizeOf(t)
  {
    assert SizeOfAll([t], 0) == 0;
  }

  method WriteMoov(io: Stream, tracks: seq<Track>, f: Frame, ghost vs: seq<View>) returns (size: u32)
    requires io.Valid() && f.Valid() && Viewed(tracks, vs) && AllWritable(vs, f.movieTimescale)
    requires Fits(MoovTree(f, vs))
    modifies io, tracks
    ensures io.Valid() && io.base == old(io.base) && io.start == old(io.start)
    ensures Viewed(tracks, vs) && AllMarked(tracks, vs, |tracks|)
    ensures io.done == old(io.done) + Serialize(MoovTree(f, vs)) && size == SizeOf(MoovTree(f, vs))
  {
    hide Splice, Opened, Serialize, SizeOf, SizeOfAll, Fits, Traks, BE32, Viewed, AllMarked;
    ghost var pre := io.done;
    MoovPartsFit(f, vs);
    var offset := Open(io, TAG_MOOV);
    OpenedEmpty(pre, TAG_MOOV);
    OpenedNext(pre, TAG_MOOV, [], f.mvhd);
    assert [] + [f.mvhd] == [f.mvhd];
    var total: nat := WriteLeaf(io, f.mvhd);
    OneChildSize(f.mvhd);
    var part := WriteTraks(io, tracks, f, vs, pre);
    total := 8 + total + part;
    ghost var ts := [f.mvhd] + Traks(f, vs, |vs|);
    if |f.udta| > 0 {
      OpenedNext(pre, TAG_MOOV, ts, f.udta[0]);
      var last := WriteLeaf(io, f.udta[0]);
      total := total + last;
      ts := ts + [f.udta[0]];
    }
    assert ts == MoovParts(f, vs);
    size := total;
    CloseNode(io, offset, size, pre, TAG_MOOV, ts);
  }
}
