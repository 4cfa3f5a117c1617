/**
 * The co64 fixpoint of mov_writer_destroy: moving the file by the size of moov can turn stco
 * boxes into co64 boxes, which makes moov larger, which moves the file further.
 */
module Relocation {
  import opened Bytes
  import opened Samples
  import opened ChunkTables
  import opened Tracks
  import opened Boxes
  import opened Stco
  import opened TrackWriter
  import opened Moov

  /** Every sample of every track moved by x. */
  ghost function Moved(vs: seq<View>, x: nat): (ws: seq<View>)
    ensures |ws| == |vs| && forall j :: 0 <= j < |vs| ==> ws[j] == vs[j].(d := vs[j].d + x)
  {
    seq(|vs|, j requires 0 <= j < |vs| => vs[j].(d := vs[j].d + x))
  }

  /** How much one track's chunk offset box grows when its samples move by x. */
  ghost function GrowthOf(v: View, x: nat): nat
    requires v.n <= |v.s| && v.n <= UINT32_MAX
  {
    if !Wide(v.s, v.n, v.d) && Wide(v.s, v.n, v.d + x) then 4 * |ChunksOf(v.s, v.n)| else 0
  }

  ghost predicate Countable(vs: seq<View>)
  {
    forall j :: 0 <= j < |vs| ==> vs[j].n <= |vs[j].s| && vs[j].n <= UINT32_MAX
  }

  ghost function TotalGrowth(vs: seq<View>, k: nat, x: nat): nat
    requires k <= |vs| && Countable(vs)
  {
    if k == 0 then 0 else TotalGrowth(vs, k - 1, x) + GrowthOf(vs[k - 1], x)
  }

  /** All chunks of all tracks, at four bytes each: no growth can exceed it. */
  ghost function MaxGrowth(vs: seq<View>, k: nat): nat
    requires k <= |vs| && Countable(vs)
  {
    if k == 0 then 0 else MaxGrowth(vs, k - 1) + 4 * |ChunksOf(vs[k - 1].s, vs[k - 1].n)|
  }

  lemma {:induction false} GrowthMonotone(vs: seq<View>, k: nat, x: nat, y: nat)
    requires k <= |vs| && Countable(vs) && x <= y
    ensures TotalGrowth(vs, k, x) <= TotalGrowth(vs, k, y) <= MaxGrowth(vs, k)
  {
    if k > 0 {
      GrowthMonotone(vs, k - 1, x, y);
    }
  }

  // ---------- growth is the difference of the box sizes ----------

  lemma {:induction false} SizeOfConcat(a: seq<Tree>, b: seq<Tree>, n: nat)
    requires n <= |b|
    ensures SizeOfAll(a + b, |a| + n) == SizeOfAll(a, |a|) + SizeOfAll(b, n)
  {
    if n > 0 {
      SizeOfConcat(a, b, n - 1);
    } else {
      SizeOfPrefix(a, a + b, |a|);
    }
  }

  lemma {:induction false} SizeOfPrefix(a: seq<Tree>, b: seq<Tree>, n: nat)
    requires n <= |a| && n <= |b| && forall i :: 0 <= i < n ==> a[i] == b[i]
    ensures SizeOfAll(a, n) == SizeOfAll(b, n)
  {
    if n > 0 {
      SizeOfPrefix(a, b, n - 1);
    }
  }

  lemma SizeOfThree(tag: u32, a: Tree, b: Tree, c: Tree)
    ensures SizeOf(Node(tag, [a, b, c])) == 8 + SizeOf(a) + SizeOf(b) + SizeOf(c)
  {
    SizeOfConcat([a, b], [c], 1);
    SizeOfConcat([a], [b], 1);
    assert [a, b] + [c] == [a, b, c] && [a] + [b] == [a, b];
    SizeOfAll1(a);
    SizeOfAll1(b);
    SizeOfAll1(c);
  }

  lemma SizeOfAll1(t: Tree)
    ensures SizeOfAll([t], 1) == SizeOf(t)
  {
    assert SizeOfAll([t], 0) == 0;
  }

  lemma StcoSizes(v: View)
    requires v.Valid()
    ensures SizeOf(StcoPart(v)) == StcoSizeOf(|ChunksOf(v.s, v.n)|, Wide(v.s, v.n, v.d))
  {
    ChunkOffsets(v.s, v.n, v.d);
  }

  lemma StblSize(v: View)
    requires v.Valid()
    ensures SizeOf(StblTree(v)) == 8 + SizeOfAll(StblFront(v), |StblFront(v)|)
      + SizeOf(StscTree(ChunksOf(v.s, v.n))) + SizeOf(StszTree(v.s, v.n)) + SizeOf(StcoPart(v))
  {
    hide StblFront, StscTree, StszTree, StcoPart, ChunksOf;
    var a, b, c := StscTree(ChunksOf(v.s, v.n)), StszTree(v.s, v.n), StcoPart(v);
    SizeOfConcat(StblFront(v), [a, b, c], 3);
    SizeOfThree(TAG_STBL, a, b, c);
  }

  lemma TrakGrowth(v: View, x: nat, movieTimescale: u32)
    requires v.Valid() && v.(d := v.d + x).Valid() && Editable(v, movieTimescale)
    ensures var w := v.(d := v.d + x);
            SizeOf(TrakTree(w, movieTimescale)) == SizeOf(TrakTree(v, movieTimescale)) + GrowthOf(v, x)
  {
    var w := v.(d := v.d + x);
    assert StblFront(w) == StblFront(v);
    StblSize(v);
    StblSize(w);
    StcoSizes(v);
    StcoSizes(w);
    assert SizeOf(StblTree(w)) == SizeOf(StblTree(v)) + GrowthOf(v, x);
    hide StblTree, GrowthOf, SizeOf;
    SizeOfThree(TAG_MINF, v.mediaHeader, v.dinf, StblTree(v));
    SizeOfThree(TAG_MINF, v.mediaHeader, v.dinf, StblTree(w));
    SizeOfThree(TAG_MDIA, v.mdhd, v.hdlr, MinfTree(v));
    SizeOfThree(TAG_MDIA, v.mdhd, v.hdlr, MinfTree(w));
    assert EdtsTree(w, movieTimescale) == EdtsTree(v, movieTimescale);
    SizeOfThree(TAG_TRAK, v.tkhd, EdtsTree(v, movieTimescale), MdiaTree(v));
    SizeOfThree(TAG_TRAK, v.tkhd, EdtsTree(v, movieTimescale), MdiaTree(w));
  }

  lemma TraksSnocSize(f: Frame, vs: seq<View>, k: nat)
    requires k < |vs| && AllWritable(vs, f.movieTimescale)
    ensures var a, b := Traks(f, vs, k), Traks(f, vs, k + 1);
            SizeOfAll(b, |b|) == SizeOfAll(a, |a|)
              + if vs[k].n > 0 then SizeOf(TrakTree(vs[k], f.movieTimescale)) else 0
  {
    hide TrakTree;
    if vs[k].n > 0 {
      var t := TrakTree(vs[k], f.movieTimescale);
      SizeOfConcat(Traks(f, vs, k), [t], 1);
      SizeOfAll1(t);
    } else {
      assert Traks(f, vs, k + 1) == Traks(f, vs, k);
    }
  }

  lemma WritableMoved(v: View, x: nat, movieTimescale: u32)
    requires Writable(v, movieTimescale) && Writable(v.(d := v.d + x), movieTimescale)
    ensures v.Valid() && v.(d := v.d + x).Valid()
    ensures v.n > 0 ==> Editable(v, movieTimescale)
    ensures v.n == 0 ==> GrowthOf(v, x) == 0
  {
  }

  lemma {:induction false} TraksGrowth(f: Frame, vs: seq<View>, k: nat, x: nat)
    requires k <= |vs| && Countable(vs)
    requires AllWritable(vs, f.movieTimescale) && AllWritable(Moved(vs, x), f.movieTimescale)
    ensures var a, b := Traks(f, vs, k), Traks(f, Moved(vs, x), k);
            SizeOfAll(b, |b|) == SizeOfAll(a, |a|) + TotalGrowth(vs, k, x)
  {
    hide TrakTree, SizeOf, Moved, GrowthOf, Writable, SizeOfAll;
    if k == 0 {
      assert Traks(f, vs, k) == Traks(f, Moved(vs, x), k);
    } else {
      TraksGrowth(f, vs, k - 1, x);
      TraksSnocSize(f, vs, k - 1);
      TraksSnocSize(f, Moved(vs, x), k - 1);
      WritableMoved(vs[k - 1], x, f.movieTimescale);
      if vs[k - 1].n > 0 {
        TrakGrowth(vs[k - 1], x, f.movieTimescale);
      }
    }
  }

  /** Moving everything by x makes moov longer by exactly the total growth. */
  lemma MoovGrowth(f: Frame, vs: seq<View>, x: nat)
    requires Countable(vs)
    requires AllWritable(vs, f.movieTimescale) && AllWritable(Moved(vs, x), f.movieTimescale)
    ensures SizeOf(MoovTree(f, Moved(vs, x))) == SizeOf(MoovTree(f, vs)) + TotalGrowth(vs, |vs|, x)
  {
    hide Traks, TotalGrowth, SizeOfAll, AllWritable, Countable;
    TraksGrowth(f, vs, |vs|, x);
    var a, b := Traks(f, vs, |vs|), Traks(f, Moved(vs, x), |vs|);
    SizeOfConcat([f.mvhd] + a, f.udta, |f.udta|);
    SizeOfConcat([f.mvhd] + b, f.udta, |f.udta|);
    SizeOfConcat([f.mvhd], a, |a|);
    SizeOfConcat([f.mvhd], b, |b|);
  }

  // ---------- the loop ----------

  /** The sum of mov_stco_size over all tracks. */
  method TotalStcoSize(tracks: seq<Track>, x: nat, ghost vs: seq<View>) returns (total: nat)
    requires Viewed(tracks, vs) && AllMarked(tracks, vs, |tracks|) && Countable(vs)
    ensures total == TotalGrowth(vs, |vs|, x)
  {
    hide ViewOf, ChunksOf;
    total := 0;
    var i: nat := 0;
    while i < |tracks|
      invariant i <= |tracks| && total == TotalGrowth(vs, i, x)
    {
      StcoSizeIsGrowth(tracks[i], vs[i], x);
      var g := StcoSize(tracks[i], x);
      total := total + g;
      i := i + 1;
    }
  }

  lemma StcoSizeIsGrowth(track: Track, v: View, x: nat)
    requires track.Valid() && ViewOf(track) == v && v.Valid() && ChunksMarked(track, v)
    ensures Growth(track.samples, track.sampleCount, track.offset, x) == GrowthOf(v, x)
  {
    if v.n > 0 {
      assert Media(track.samples[v.n - 1]) == v.s[v.n - 1];
    }
  }

  /** Growing by y is consistent: the file then moves by base + y, which makes moov y longer. */
  ghost predicate Settled(vs: seq<View>, base: nat, y: nat)
    requires Countable(vs)
  {
    y == TotalGrowth(vs, |vs|, base + y)
  }

  /** A lower bound of all fixpoints stays one when the growth function is applied to it. */
  lemma LeastSoFar(vs: seq<View>, base: nat, sz: nat)
    requires Countable(vs)
    requires forall y: nat :: Settled(vs, base, y) ==> sz <= y
    ensures forall y: nat :: Settled(vs, base, y) ==> TotalGrowth(vs, |vs|, base + sz) <= y
  {
    forall y: nat | Settled(vs, base, y)
      ensures TotalGrowth(vs, |vs|, base + sz) <= y
    {
      GrowthMonotone(vs, |vs|, base + sz, base + y);
    }
  }

  /** The least amount by which moov has to grow, given that it moves the file by base and by itself. */
  method CoGrowth(tracks: seq<Track>, base: nat, ghost vs: seq<View>) returns (co64: nat)
    requires Viewed(tracks, vs) && AllMarked(tracks, vs, |tracks|) && Countable(vs)
    ensures Settled(vs, base, co64)
    ensures forall y: nat :: Settled(vs, base, y) ==> co64 <= y
    ensures co64 <= MaxGrowth(vs, |vs|)
  {
    hide TotalGrowth, Viewed, AllMarked, Countable;
    co64 := TotalStcoSize(tracks, base, vs);
    LeastSoFar(vs, base, 0);
    GrowthMonotone(vs, |vs|, base, base + co64);
    if co64 != 0 {
      var sz := 0;
      while sz != co64
        invariant co64 == TotalGrowth(vs, |vs|, base + sz) && sz <= co64 <= MaxGrowth(vs, |vs|)
        invariant forall y: nat :: Settled(vs, base, y) ==> co64 <= y
        decreases MaxGrowth(vs, |vs|) - sz
      {
        ghost var previous := sz;
        sz := co64;
        LeastSoFar(vs, base, sz);
        GrowthMonotone(vs, |vs|, base + previous, base + sz);
        co64 := TotalStcoSize(tracks, base + sz, vs);
      }
    }
  }
}
