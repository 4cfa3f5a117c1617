/** Reading a recording that still goes on: the file as it stands after moov was rewritten into its hole. */
module LiveReader {
  import opened Bytes
  import opened Samples
  import opened Tracks
  import opened Boxes
  import opened TrackWriter
  import opened Moov
  import opened Relocation
  import opened MovWriter
  import opened Recording
  import opened Playback
  import opened MovReader
  import FastStart

  /** Where ftyp, pwdt, moov, skip and mdat start. */
  function HoleLayout(free: nat, m: nat, size: nat, mdat: nat, end: nat): Layout
    requires 8 <= free
  {
    Layout([0, free - 8, m, m + size, mdat, end], LAYOUT)
  }

  /** After an update that fits the hole, the boxes lie as a reader expects them. */
  lemma UpdatedIsLaid(d: seq<byte>, free: nat, m: nat, mdat: nat, n: nat, t: Tree)
    requires Fronted(d, free, m, mdat) && |d| == mdat + 8 + n && n + 8 <= UINT32_MAX
    requires Fits(t) && 8 < SizeOf(t) <= MOOV_LEN && t.tag == TAG_MOOV
    ensures 8 <= free && m + 8 + MOOV_LEN == mdat
    ensures RootLaid(Updated(d, m, mdat, n, Serialize(t)), t, HoleLayout(free, m, SizeOf(t), mdat, |d|), 2)
  {
    hide U32At, Updated, Serialize, SizeOf, Fits, Fronted, SkipSize, BoxHere;
    FrontedPlaces(d, free, m, mdat);
    TR.HeaderOf(t);
    var moov := Serialize(t);
    var e, l := Updated(d, m, mdat, n, moov), HoleLayout(free, m, SizeOf(t), mdat, |d|);
    UpdatedWords(d, free, m, mdat, n, moov);
    UpdatedBytes(d, m, mdat, n, moov);
    SkipSizeIs(|moov|);
    forall i | 0 <= i < 5
      ensures BoxHere(e, l, 2, i)
    {
      BoxIsHere(e, l, 2, i);
    }
    BoxesLie(e, t, l, 2);
  }

  /** While recording, every block is where its sample says. */
  lemma AllHeldNow(w: MovWriter, vs: seq<View>)
    requires w.Valid() && Viewed(w.tracks, vs)
    ensures HoldsAll(vs, 0, w.written, w.io.data)
  {
    hide Viewed, MovWriter.Valid;
    ViewedCount(w.tracks, vs);
    forall j, k | 0 <= j < |vs| && 0 <= k < vs[j].n
      ensures HoldsBlock(vs, 0, w.written, w.io.data, j, k)
    {
      ViewedTrack(w.tracks, vs, j);
      FastStart.SampleInside(w, j, k);
      assert Media(w.tracks[j].samples[k]) == MediaOf(w.tracks[j].samples)[k] == vs[j].s[k];
    }
  }

  lemma NotMoved(vs: seq<View>)
    ensures Moved(vs, 0) == vs
  {
  }

  /**
   * A reader that opens the file right after an update finds every track that has samples, and at each
   * decoded offset the bytes that were written so far; and the recording can go on.
   */
  method UpdateAndRead(w: MovWriter, ghost vs: seq<View>) returns (tracks: seq<Track>)
    requires w.Valid() && w.reserve && Viewed(w.tracks, vs) && AllWritable(vs, w.frame.movieTimescale)
    requires w.mdatSize + 8 <= UINT32_MAX && SizeOf(MoovTree(w.frame, vs)) <= MOOV_LEN
    requires MovReader.Readable(w.frame) && forall v :: v in vs ==> Faithful(v)
    modifies w.io, w.tracks
    ensures w.Valid() && w.io.pos == old(w.io.pos)
    ensures var js := Filled(vs, |vs|);
            && |tracks| == |js|
            && forall i :: 0 <= i < |js| ==>
                 && js[i] < |w.written| && js[i] < |w.given|
                 && SameAsWritten(w.io.data, tracks[i].samples, vs[js[i]], w.frame.movieTimescale,
                                  w.written[js[i]], w.given[js[i]])
  {
    hide MovWriter.Valid, MoovTree, Viewed, Faithful, SameAsWritten, Filled, MovReader.Readable, AllWritable, Updated;
    hide SizeOf, Serialize, Fits, RootLaid, HoldsAll, PlaysBack, AllLossless, Tiles, Fronted, Moved;
    ghost var d, t := w.io.data, MoovTree(w.frame, vs);
    ViewsOk(w);
    FrontedPlaces(d, w.freeDataOffset, w.moovOffset, w.mdatOffset);
    FastStart.FitsBySize(t);
    TR.HeaderOf(t);
    var _ := UpdateMoov(w, vs);
    NotMoved(vs);
    FaithfulIsLossless(w, vs, 0);
    MoovNotEmpty(w.frame, vs);
    UpdatedIsLaid(d, w.freeDataOffset, w.moovOffset, w.mdatOffset, w.mdatSize, t);
    AllHeldNow(w, vs);
    HeldPlays(w, vs, 0, w.io.data, HoleLayout(w.freeDataOffset, w.moovOffset, SizeOf(t), w.mdatOffset, |d|), 2);
    tracks := OpenFile(w.io.data, w.frame, vs, 0, w.written, w.given);
  }
}
