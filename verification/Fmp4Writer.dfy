/** fmp4-writer.c over a whole run: samples collect in the tracks and leave in fragments. */
module Fmp4Writer {
  import opened Bytes
  import opened Samples
  import opened MovStream
  import opened Boxes
  import opened TrackFragment
  import opened MoofWriter
  import opened Moof
  import opened FragmentWriter
  import MW = MovWriter

  /** What one fragment was made of: the tracks' samples, placed, and their data. */
  datatype Fragment = Fragment(at: nat, number: u32, parts: seq<Part>, blocks: seq<seq<seq<byte>>>)

  function Total(f: Fragment): nat { StartOf(f.parts, |f.parts|) }

  ghost predicate WellFormed(f: Fragment)
  {
    && MoofFits(f.number, f.parts, f.at) && f.parts == Placed(f.parts) && AllMatching(f.parts, f.blocks)
    && 0 < Total(f) && Total(f) + 16 < TWO_64
  }

  /** moof with its data offsets, the header of mdat, and the media. */
  ghost function FragmentBytes(f: Fragment): seq<byte>
    requires WellFormed(f)
  {
    SecondFits(f.number, f.parts, f.at);
    MoofBytes(f.number, f.parts, f.at, DataStart(f.number, f.parts, f.at))
    + (Words(MdatHeader(Total(f))) + MediaBytes(f.blocks, |f.blocks|))
  }

  ghost predicate AllWellFormed(fs: seq<Fragment>) { forall i :: 0 <= i < |fs| ==> WellFormed(fs[i]) }

  /** The file after the first k fragments. */
  ghost function FileOf(front: seq<byte>, fs: seq<Fragment>, k: nat): seq<byte>
    requires k <= |fs| && AllWellFormed(fs)
  {
    if k == 0 then front else FileOf(front, fs, k - 1) + FragmentBytes(fs[k - 1])
  }

  lemma {:induction false} FileGrows(front: seq<byte>, fs: seq<Fragment>, f: Fragment, k: nat)
    requires k <= |fs| && AllWellFormed(fs) && WellFormed(f)
    ensures AllWellFormed(fs + [f]) && FileOf(front, fs + [f], k) == FileOf(front, fs, k)
    decreases k
  {
    hide WellFormed, FragmentBytes;
    assert AllWellFormed(fs + [f]) by {
      forall i | 0 <= i < |fs + [f]|
        ensures WellFormed((fs + [f])[i])
      {
      }
    }
    if k > 0 {
      FileGrows(front, fs, f, k - 1);
    }
  }

  /** Each fragment starts where its predecessors end, and they are numbered from 1 on. */
  ghost predicate InOrder(front: seq<byte>, fs: seq<Fragment>)
  {
    AllWellFormed(fs) && forall i :: 0 <= i < |fs| ==> fs[i].at == |FileOf(front, fs, i)| && fs[i].number == ToU32(i + 1)
  }

  lemma NextNumber(n: nat)
    ensures ToU32((ToU32(n) as int) + 1) == ToU32(n + 1)
  {
  }

  lemma InOrderGrows(front: seq<byte>, fs: seq<Fragment>, f: Fragment)
    requires InOrder(front, fs) && WellFormed(f) && f.at == |FileOf(front, fs, |fs|)| && f.number == ToU32(|fs| + 1)
    ensures InOrder(front, fs + [f]) && AllWellFormed(fs + [f])
    ensures FileOf(front, fs + [f], |fs| + 1) == FileOf(front, fs, |fs|) + FragmentBytes(f)
  {
    hide WellFormed, FragmentBytes;
    FileGrows(front, fs, f, |fs|);
    var gs := fs + [f];
    forall i | 0 <= i < |gs|
      ensures gs[i].at == |FileOf(front, gs, i)| && gs[i].number == ToU32(i + 1)
    {
      FileGrows(front, fs, f, i);
    }
  }

  lemma PlaceOf(front: seq<byte>, fs: seq<Fragment>, i: nat)
    requires InOrder(front, fs) && i < |fs|
    ensures AllWellFormed(fs) && WellFormed(fs[i]) && fs[i].at == |FileOf(front, fs, i)| && fs[i].number == ToU32(i + 1)
  {
  }

  /** A fragment lies in the file where its `at` says. */
  lemma {:induction false} FragmentInFile(front: seq<byte>, fs: seq<Fragment>, i: nat, k: nat)
    requires InOrder(front, fs) && i < k <= |fs|
    ensures var d, b := FileOf(front, fs, k), FragmentBytes(fs[i]);
            fs[i].at + |b| <= |d| && d[fs[i].at..fs[i].at + |b|] == b
    decreases k
  {
    hide WellFormed, FragmentBytes, AllWellFormed, InOrder;
    PlaceOf(front, fs, i);
    PlaceOf(front, fs, k - 1);
    var before, last := FileOf(front, fs, k - 1), FragmentBytes(fs[k - 1]);
    if i < k - 1 {
      FragmentInFile(front, fs, i, k - 1);
      SliceOfSum(before, last, fs[i].at, |FragmentBytes(fs[i])|);
    } else {
      SliceOfSum(before, last, 0, |last|);
    }
  }

  // ---------- conservation ----------

  /** A sample as it was handed over, in the track's timescale. */
  datatype Entry = Entry(block: seq<byte>, pts: int, dts: int, key: bool)

  function EntriesOf(s: seq<Sample>, bs: seq<seq<byte>>): (es: seq<Entry>)
    requires |s| == |bs|
    ensures |es| == |s| && forall i :: 0 <= i < |s| ==> es[i] == Entry(bs[i], s[i].pts, s[i].dts, s[i].key)
  {
    seq(|s|, i requires 0 <= i < |s| => Entry(bs[i], s[i].pts, s[i].dts, s[i].key))
  }

  /** What the first k fragments carry of track j. */
  ghost function Flushed(fs: seq<Fragment>, j: nat, k: nat): seq<Entry>
    requires k <= |fs| && AllWellFormed(fs)
  {
    if k == 0 || j >= |fs[k - 1].parts| then []
    else Flushed(fs, j, k - 1) + EntriesOf(fs[k - 1].parts[j].s, fs[k - 1].blocks[j])
  }

  lemma {:induction false} FlushedGrows(fs: seq<Fragment>, f: Fragment, j: nat, k: nat)
    requires k <= |fs| && AllWellFormed(fs) && WellFormed(f) && AllWellFormed(fs + [f])
    ensures Flushed(fs + [f], j, k) == Flushed(fs, j, k)
    decreases k
  {
    hide EntriesOf, WellFormed;
    if k > 0 {
      assert (fs + [f])[k - 1] == fs[k - 1];
      FlushedGrows(fs, f, j, k - 1);
    }
  }

  lemma EntriesPlaced(s: seq<Sample>, at: nat, bs: seq<seq<byte>>)
    requires |s| == |bs|
    ensures EntriesOf(PlacedAt(s, at), bs) == EntriesOf(s, bs)
  {
    hide ByteSum;
  }

  /** Every sample handed over to track j is in exactly one fragment or still pending, in order. */
  ghost predicate Conserved(fs: seq<Fragment>, j: nat, s: seq<Sample>, bs: seq<seq<byte>>, written: seq<Entry>)
  {
    AllWellFormed(fs) && |s| == |bs| && written == Flushed(fs, j, |fs|) + EntriesOf(s, bs)
  }

  /** start_dts is the dts of the track's very first sample, in the fragments too. */
  ghost predicate Started(fs: seq<Fragment>, j: nat, start: int, written: seq<Entry>)
  {
    && (written == [] ==> start == INT64_MIN)
    && (written != [] ==> start == written[0].dts > INT64_MIN)
    && forall k :: 0 <= k < |fs| && j < |fs[k].parts| && |fs[k].parts[j].s| > 0 ==> fs[k].parts[j].start == start
  }

  lemma ConservedFlush(fs: seq<Fragment>, f: Fragment, j: nat, s: seq<Sample>, bs: seq<seq<byte>>,
                       written: seq<Entry>, start: int)
    requires Conserved(fs, j, s, bs, written) && WellFormed(f) && j < |f.parts| && f.blocks[j] == bs
    requires AllWellFormed(fs + [f]) && f.parts[j].s == PlacedAt(s, StartOf(f.parts, j)) && f.parts[j].start == start
    requires Started(fs, j, start, written)
    ensures Conserved(fs + [f], j, [], [], written) && Started(fs + [f], j, start, written)
  {
    hide WellFormed, PlacedAt, StartOf;
    FlushedGrows(fs, f, j, |fs|);
    EntriesPlaced(s, StartOf(f.parts, j), bs);
    assert EntriesOf([], []) == [];
    assert Flushed(fs, j, |fs|) + EntriesOf(s, bs) + [] == written;
  }

  lemma ConservedWrite(fs: seq<Fragment>, j: nat, s: seq<Sample>, bs: seq<seq<byte>>, written: seq<Entry>,
                       x: Sample, block: seq<byte>)
    requires Conserved(fs, j, s, bs, written)
    ensures Conserved(fs, j, s + [x], bs + [block], written + [Entry(block, x.pts, x.dts, x.key)])
  {
    hide Flushed, EntriesOf;
    OneMoreEntry(s, bs, x, block);
    Associate(Flushed(fs, j, |fs|), EntriesOf(s, bs), [Entry(block, x.pts, x.dts, x.key)]);
  }

  lemma OneMoreEntry(s: seq<Sample>, bs: seq<seq<byte>>, x: Sample, block: seq<byte>)
    requires |s| == |bs|
    ensures EntriesOf(s + [x], bs + [block]) == EntriesOf(s, bs) + [Entry(block, x.pts, x.dts, x.key)]
  {
  }

  lemma Associate(a: seq<Entry>, b: seq<Entry>, c: seq<Entry>)
    ensures a + (b + c) == a + b + c
  {
  }

  // ---------- the steps of fmp4_write_fragment ----------

  method ResetCursors(tracks: seq<FragmentTrack>)
    requires forall i, j :: 0 <= i < j < |tracks| ==> tracks[i] != tracks[j]
    modifies tracks`offset
    ensures Drained(tracks, 0)
  {
    for i := 0 to |tracks|
      invariant forall j :: 0 <= j < i ==> tracks[j].offset == 0
    {
      tracks[i].offset := 0;
    }
  }

  /** The tracks hold these parts and these blocks. */
  ghost predicate Stored(tracks: seq<FragmentTrack>, vs: seq<Part>, bss: seq<seq<seq<byte>>>)
    reads tracks`samples, tracks`blocks, tracks`turn, tracks`startDts
  {
    Holding(tracks, vs) && |bss| == |tracks| && forall j :: 0 <= j < |tracks| ==> tracks[j].blocks == bss[j]
  }

  method ClearTracks(tracks: seq<FragmentTrack>, ghost ps: seq<Part>)
    requires Holding(tracks, ps)
    modifies tracks`samples, tracks`blocks, tracks`offset
    ensures Stored(tracks, Cleared(ps), NoBlocks(|ps|)) && |tracks| == |ps|
    ensures forall j :: 0 <= j < |tracks| ==> tracks[j].offset == 0
  {
    for i := 0 to |tracks|
      invariant forall j :: 0 <= j < i ==> PartOf(tracks[j]) == ps[j].(s := []) && tracks[j].blocks == [] && tracks[j].offset == 0
      invariant forall j :: i <= j < |tracks| ==> PartOf(tracks[j]) == ps[j]
    {
      tracks[i].samples, tracks[i].blocks, tracks[i].offset := [], [], 0;
    }
  }

  lemma HeaderParts(n: nat)
    requires n + 16 < TWO_64
    ensures n + 8 <= UINT32_MAX ==> [n + 8] + [TAG_MDAT] == MdatHeader(n)
    ensures n + 8 > UINT32_MAX ==>
      [1, TAG_MDAT] + [(n + 16) / 0x1_0000_0000, (n + 16) % 0x1_0000_0000] == MdatHeader(n)
  {
  }

  method WriteMdatHeader(io: Stream, n: nat)
    requires io.Valid() && n + 16 < TWO_64
    modifies io
    ensures io.Valid() && io.base == old(io.base) && io.start == old(io.start)
    ensures io.done == old(io.done) + Words(MdatHeader(n))
  {
    hide Words, Splice, MdatHeader;
    ghost var pre := io.done;
    NoWords(pre);
    HeaderParts(n);
    if n + 8 <= UINT32_MAX {
      io.PutWord(n + 8, pre, []);
      assert [] + [n + 8] == [n + 8];
      io.PutWord(TAG_MDAT, pre, [n + 8]);
    } else {
      io.PutWord(1, pre, []);
      assert [] + [1] == [1];
      io.PutWord(TAG_MDAT, pre, [1]);
      assert [1] + [TAG_MDAT] == [1, TAG_MDAT];
      io.PutWord64(n + 16, pre, [1, TAG_MDAT]);
    }
  }

  method WriteMedia(io: Stream, tracks: seq<FragmentTrack>, mdatSize: nat, ghost vs: seq<Part>,
                    ghost bss: seq<seq<seq<byte>>>)
    requires AtEnd(io) && Loaded(tracks, vs, bss) && 0 < mdatSize == StartOf(vs, |vs|) && mdatSize + 16 < TWO_64
    modifies io, tracks`offset
    ensures AtEnd(io) && io.data == old(io.data) + (Words(MdatHeader(mdatSize)) + MediaBytes(bss, |bss|))
  {
    hide Splice, Words, MdatHeader, MediaBytes, StartOf, Loaded, Drained;
    ghost var data, done := io.data, io.done;
    Distinct(tracks, vs, bss);
    ResetCursors(tracks);
    WriteMdatHeader(io, mdatSize);
    Interleave(io, tracks, mdatSize, vs, bss);
    ghost var w, m := Words(MdatHeader(mdatSize)), MediaBytes(bss, |bss|);
    assert done + w + m == done + (w + m);
    Appended(io, data, done, w + m);
  }

  lemma Distinct(tracks: seq<FragmentTrack>, vs: seq<Part>, bss: seq<seq<seq<byte>>>)
    requires Loaded(tracks, vs, bss)
    ensures forall i, j :: 0 <= i < j < |tracks| ==> tracks[i] != tracks[j]
  {
  }

  lemma PlacedMatching(vs: seq<Part>, bss: seq<seq<seq<byte>>>)
    requires AllMatching(vs, bss)
    ensures AllMatching(Placed(vs), bss) && Placed(Placed(vs)) == Placed(vs) && |Placed(vs)| == |vs|
    ensures StartOf(Placed(vs), |vs|) == StartOf(vs, |vs|)
  {
    hide ByteSum;
    PlacingTwice(vs);
    StartSame(vs, |vs|);
    forall j | 0 <= j < |vs|
      ensures Matching(Placed(vs)[j], bss[j])
    {
      assert Matching(vs[j], bss[j]);
    }
  }

  /** moof and mdat of one fragment, appended to the file. */
  method WriteFragmentBoxes(io: Stream, tracks: seq<FragmentTrack>, number: u32, mdatSize: nat,
                            ghost vs: seq<Part>, ghost bss: seq<seq<seq<byte>>>)
    requires AtEnd(io) && Stored(tracks, vs, bss) && AllMatching(vs, bss)
    requires 0 < mdatSize == StartOf(vs, |vs|) && mdatSize + 16 < TWO_64 && MoofFits(number, Placed(vs), io.pos)
    modifies io, tracks`samples, tracks`tfhd, tracks`offset
    ensures AtEnd(io) && Holding(tracks, Placed(vs))
    ensures var f := Fragment(old(io.pos), number, Placed(vs), bss);
            WellFormed(f) && Total(f) == mdatSize && io.data == old(io.data) + FragmentBytes(f)
  {
    hide Splice, Words, MdatHeader, MediaBytes, StartOf, Placed, MoofBytes, Holding, DataStart, AllMatching;
    hide Fits, MoofTree, Countable, WellFormed, FragmentBytes, Total;
    ghost var data, at := io.data, io.pos;
    PlacedMatching(vs, bss);
    FragmentIs(at, number, vs, bss);
    WriteMoofTwice(io, tracks, number, io.pos, vs);
    ghost var a := MoofBytes(number, Placed(vs), at, DataStart(number, Placed(vs), at));
    assert Loaded(tracks, Placed(vs), bss);
    WriteMedia(io, tracks, mdatSize, Placed(vs), bss);
    ghost var b := Words(MdatHeader(mdatSize)) + MediaBytes(bss, |bss|);
    assert data + a + b == data + (a + b);
  }

  lemma FragmentIs(at: nat, number: u32, vs: seq<Part>, bss: seq<seq<seq<byte>>>)
    requires AllMatching(vs, bss) && MoofFits(number, Placed(vs), at) && 0 < StartOf(vs, |vs|) < TWO_64 - 16
    ensures var f := Fragment(at, number, Placed(vs), bss);
            && WellFormed(f) && Total(f) == StartOf(vs, |vs|) && Fits(MoofTree(number, Placed(vs), at, DataStart(number, Placed(vs), at)))
            && FragmentBytes(f) == MoofBytes(number, Placed(vs), at, DataStart(number, Placed(vs), at))
                                   + (Words(MdatHeader(StartOf(vs, |vs|))) + MediaBytes(bss, |bss|))
  {
    hide Words, MdatHeader, MediaBytes, StartOf, Placed, MoofBytes, MoofFits, DataStart, AllMatching;
    PlacedMatching(vs, bss);
    SecondFits(number, Placed(vs), at);
  }

  // ---------- the writer ----------

  /** The fragment that would be written now, at the end of the file. */
  ghost predicate Books(fs: seq<Fragment>, vs: seq<Part>, bss: seq<seq<seq<byte>>>, written: seq<seq<Entry>>)
  {
    && AllWellFormed(fs) && AllMatching(vs, bss) && |written| == |vs|
    && (forall k :: 0 <= k < |fs| ==> |fs[k].parts| == |vs|)
    && forall j :: 0 <= j < |vs| ==> TrackBooks(fs, j, vs[j], bss[j], written[j])
  }

  ghost predicate TrackBooks(fs: seq<Fragment>, j: nat, v: Part, bs: seq<seq<byte>>, written: seq<Entry>)
  {
    Conserved(fs, j, v.s, bs, written) && Started(fs, j, v.start, written)
  }

  function Cleared(vs: seq<Part>): (cs: seq<Part>)
    ensures |cs| == |vs| && forall j :: 0 <= j < |vs| ==> cs[j] == vs[j].(s := [])
  {
    seq(|vs|, j requires 0 <= j < |vs| => vs[j].(s := []))
  }

  function NoBlocks(n: nat): (bss: seq<seq<seq<byte>>>)
    ensures |bss| == n && forall j :: 0 <= j < n ==> bss[j] == []
  {
    seq(n, _ => [])
  }

  lemma {:induction false} ClearedTotal(vs: seq<Part>, k: nat)
    requires k <= |vs|
    ensures StartOf(Cleared(vs), k) == 0
    decreases k
  {
    if k > 0 {
      ClearedTotal(vs, k - 1);
    }
  }

  lemma BooksFlush(fs: seq<Fragment>, f: Fragment, vs: seq<Part>, bss: seq<seq<seq<byte>>>, written: seq<seq<Entry>>)
    requires Books(fs, vs, bss, written) && WellFormed(f) && f.parts == Placed(vs) && f.blocks == bss
    ensures Books(fs + [f], Cleared(vs), NoBlocks(|vs|), written)
  {
    hide WellFormed, PlacedAt, StartOf, Conserved, Started;
    var gs := fs + [f];
    SoundBoth(fs, f);
    forall j | 0 <= j < |vs|
      ensures TrackBooks(gs, j, Cleared(vs)[j], [], written[j])
    {
      assert TrackBooks(fs, j, vs[j], bss[j], written[j]);
      StartSame(vs, j);
      ConservedFlush(fs, f, j, vs[j].s, bss[j], written[j], vs[j].start);
    }
  }

  lemma SoundBoth(fs: seq<Fragment>, f: Fragment)
    requires AllWellFormed(fs) && WellFormed(f)
    ensures AllWellFormed(fs + [f])
  {
    hide WellFormed;
  }

  lemma FreshBooks(j: nat, v: Part)
    requires v.s == [] && v.start == INT64_MIN
    ensures TrackBooks([], j, v, [], [])
  {
    assert EntriesOf([], []) == [];
  }

  lemma NothingYet(tracks: seq<FragmentTrack>, vs: seq<Part>)
    requires |vs| == |tracks| && forall j :: 0 <= j < |tracks| ==> vs[j] == PartOf(tracks[j])
    requires forall t :: t in tracks ==> t.samples == [] && t.startDts == INT64_MIN
    ensures StartOf(vs, |vs|) == 0 && Books([], vs, NoBlocks(|vs|), seq(|vs|, _ => []))
  {
    hide StartOf;
    forall j | 0 <= j < |vs|
      ensures vs[j].s == [] && TrackBooks([], j, vs[j], [], [])
    {
      assert tracks[j] in tracks;
      FreshBooks(j, vs[j]);
    }
    assert Cleared(vs) == vs;
    ClearedTotal(vs, |vs|);
  }

  lemma StoredFresh(tracks: seq<FragmentTrack>, vs: seq<Part>)
    requires |vs| == |tracks| && forall j :: 0 <= j < |tracks| ==> vs[j] == PartOf(tracks[j])
    requires forall i, j :: 0 <= i < j < |tracks| ==> tracks[i] != tracks[j]
    requires forall t :: t in tracks ==> t.blocks == []
    ensures Stored(tracks, vs, NoBlocks(|tracks|))
  {
    assert forall j :: 0 <= j < |tracks| ==> tracks[j] in tracks;
  }

  lemma NoCuts(vs: seq<Part>)
    ensures |vs| == 1 && vs[0].s == [] ==> CutAtKeys([], vs)
  {
  }

  lemma NoFragments(front: seq<byte>)
    ensures AllWellFormed([]) && InOrder(front, []) && FileOf(front, [], 0) == front && [] + front == front
  {
  }

  lemma BooksMatch(fs: seq<Fragment>, vs: seq<Part>, bss: seq<seq<seq<byte>>>, written: seq<seq<Entry>>)
    requires Books(fs, vs, bss, written)
    ensures AllMatching(vs, bss) && AllWellFormed(fs)
  {
  }

  lemma ClearedPlaced(vs: seq<Part>)
    ensures Cleared(Placed(vs)) == Cleared(vs) && StartOf(Cleared(vs), |vs|) == 0
  {
    hide StartOf, PlacedAt;
    ClearedTotal(vs, |vs|);
    assert forall j :: 0 <= j < |vs| ==> Cleared(Placed(vs))[j] == Cleared(vs)[j];
  }

  /** What fmp4_writer_add_audio, _video and _subtitle pass on. */
  const TIMESCALE: u32 := 1000

  /** At the timescale that every add function sets, a sample keeps what its caller said. */
  lemma SampleFields(offset: nat, bytes: u32, pts: int, dts: int, key: bool)
    ensures var x := MW.MovWriter.SampleOf(offset, bytes, pts, dts, TIMESCALE, key);
            x.offset == offset && x.bytes == bytes && x.pts == pts && x.dts == dts && x.key == key
  {
  }

  /** The last duration of a track is not part of the books. */
  lemma TurnBooks(fs: seq<Fragment>, vs: seq<Part>, bss: seq<seq<seq<byte>>>, written: seq<seq<Entry>>, i: nat,
                  duration: int)
    requires Books(fs, vs, bss, written) && i < |vs|
    ensures Books(fs, vs[i := vs[i].(turn := duration)], bss, written)
    ensures StartOf(vs[i := vs[i].(turn := duration)], |vs|) == StartOf(vs, |vs|)
  {
    var us := vs[i := vs[i].(turn := duration)];
    SameBytes(vs, us, |vs|);
    forall j | 0 <= j < |us|
      ensures TrackBooks(fs, j, us[j], bss[j], written[j]) && Matching(us[j], bss[j])
    {
      assert TrackBooks(fs, j, vs[j], bss[j], written[j]) && Matching(vs[j], bss[j]);
    }
  }

  lemma {:induction false} SameBytes(vs: seq<Part>, us: seq<Part>, k: nat)
    requires |vs| == |us| && k <= |vs| && forall j :: 0 <= j < |vs| ==> us[j].s == vs[j].s
    ensures StartOf(us, k) == StartOf(vs, k)
    decreases k
  {
    if k > 0 {
      SameBytes(vs, us, k - 1);
    }
  }

  /** One more sample in track i adds its bytes to the total. */
  lemma {:induction false} TotalGrows(vs: seq<Part>, us: seq<Part>, i: nat, x: Sample, k: nat)
    requires i < k <= |vs| == |us| && us[i].s == vs[i].s + [x]
    requires forall j :: 0 <= j < |vs| && j != i ==> us[j].s == vs[j].s
    ensures StartOf(us, k) == StartOf(vs, k) + x.bytes
    decreases k
  {
    if i < k - 1 {
      TotalGrows(vs, us, i, x, k - 1);
    } else {
      EarlierBytes(vs, us, i, k - 1);
      ByteSumSame(vs[i].s, us[i].s, 0, |vs[i].s|);
    }
  }

  lemma {:induction false} EarlierBytes(vs: seq<Part>, us: seq<Part>, i: nat, k: nat)
    requires k <= i < |vs| == |us| && forall j :: 0 <= j < i ==> us[j].s == vs[j].s
    ensures StartOf(us, k) == StartOf(vs, k)
    decreases k
  {
    if k > 0 {
      EarlierBytes(vs, us, i, k - 1);
    }
  }

  function Pushed(v: Part, x: Sample): Part
  {
    v.(s := v.s + [x], start := if v.start == INT64_MIN then x.dts else v.start)
  }

  method Push(tracks: seq<FragmentTrack>, i: nat, x: Sample, block: seq<byte>, ghost vs: seq<Part>,
              ghost bss: seq<seq<seq<byte>>>)
    requires Stored(tracks, vs, bss) && i < |tracks| == |vs| == |bss|
    modifies tracks`samples, tracks`blocks, tracks`startDts, tracks`lastDts
    ensures Stored(tracks, vs[i := Pushed(vs[i], x)], bss[i := bss[i] + [block]])
    ensures tracks[i].samples == old(tracks[i].samples) + [x] && tracks[i].lastDts == x.dts
    ensures LastTimes(tracks) == old(LastTimes(tracks))[i := x.dts]
  {
    var t := tracks[i];
    t.samples := t.samples + [x];
    t.blocks := t.blocks + [block];
    if t.startDts == INT64_MIN {
      t.startDts := x.dts;
    }
    t.lastDts := x.dts;
  }

  lemma Counts(tracks: seq<FragmentTrack>, vs: seq<Part>, bss: seq<seq<seq<byte>>>, fs: seq<Fragment>,
               written: seq<seq<Entry>>)
    requires Stored(tracks, vs, bss) && Books(fs, vs, bss, written)
    ensures |tracks| == |vs| == |bss| == |written|
  {
  }

  lemma BooksWrite(fs: seq<Fragment>, vs: seq<Part>, bss: seq<seq<seq<byte>>>, written: seq<seq<Entry>>,
                   i: nat, x: Sample, block: seq<byte>)
    requires Books(fs, vs, bss, written) && i < |vs| && x.bytes == |block| && x.dts > INT64_MIN
    ensures var us := vs[i := Pushed(vs[i], x)];
            && Books(fs, us, bss[i := bss[i] + [block]], written[i := written[i] + [Entry(block, x.pts, x.dts, x.key)]])
            && StartOf(us, |us|) == StartOf(vs, |vs|) + x.bytes
  {
    hide Conserved, Started, StartOf, AllWellFormed;
    var v := vs[i];
    var u := Pushed(v, x);
    var us, cs, ws := vs[i := u], bss[i := bss[i] + [block]], written[i := written[i] + [Entry(block, x.pts, x.dts, x.key)]];
    TotalGrows(vs, us, i, x, |vs|);
    forall j | 0 <= j < |us|
      ensures TrackBooks(fs, j, us[j], cs[j], ws[j]) && Matching(us[j], cs[j])
    {
      assert TrackBooks(fs, j, vs[j], bss[j], written[j]) && Matching(vs[j], bss[j]);
      if j == i {
        ConservedWrite(fs, i, v.s, bss[i], written[i], x, block);
        StartedWrite(fs, i, v, bss[i], written[i], Entry(block, x.pts, x.dts, x.key));
      }
    }
  }

  /** The first sample of all fixes the start; until then no fragment has samples of the track. */
  lemma StartedWrite(fs: seq<Fragment>, j: nat, v: Part, bs: seq<seq<byte>>, written: seq<Entry>, e: Entry)
    requires TrackBooks(fs, j, v, bs, written) && e.dts > INT64_MIN
    requires forall k :: 0 <= k < |fs| ==> j < |fs[k].parts|
    ensures Started(fs, j, if v.start == INT64_MIN then e.dts else v.start, written + [e])
  {
    hide WellFormed, EntriesOf;
    if written == [] {
      assert Flushed(fs, j, |fs|) == [];
      forall k | 0 <= k < |fs| && j < |fs[k].parts|
        ensures |fs[k].parts[j].s| == 0
      {
        NothingFlushed(fs, j, k, |fs|);
      }
    }
  }

  lemma {:induction false} NothingFlushed(fs: seq<Fragment>, j: nat, k: nat, n: nat)
    requires k < n <= |fs| && AllWellFormed(fs) && Flushed(fs, j, n) == [] && j < |fs[k].parts|
    requires forall i :: 0 <= i < |fs| ==> j < |fs[i].parts|
    ensures |fs[k].parts[j].s| == 0
    decreases n
  {
    hide WellFormed;
    if k < n - 1 {
      NothingFlushed(fs, j, k, n - 1);
    }
  }

  /** The gap to the previous sample, when there is one and time moves on. */
  function DurationUntil(lastDts: int, dts: int): int
  {
    if dts > lastDts && lastDts != INT64_MIN then dts - lastDts else 0
  }

  /** The dts of the last sample that a track was given. */
  function LastDts(es: seq<Entry>): int { if es == [] then INT64_MIN else es[|es| - 1].dts }

  /** The last gap between two samples of a track: what turn_last_duration holds between two writes. */
  function LastGapOf(es: seq<Entry>): int
  {
    if es == [] then 0 else DurationUntil(LastDts(es[..|es| - 1]), LastDts(es))
  }

  /** A forced segment or a video key frame, unless segments are disabled. */
  predicate StartsFragment(handler: Handler, key: bool, force: bool, disable: bool)
  {
    !disable && (force || (handler.Video? && key))
  }

  /** A group of pictures: only its first sample may be a key frame, and is one if the group does not open the file. */
  predicate Gop(s: seq<Sample>, opens: bool) { s != [] && (opens || s[0].key) && forall i :: 0 < i < |s| ==> !s[i].key }

  ghost predicate AllGops(fs: seq<Fragment>)
  {
    forall k :: 0 <= k < |fs| ==> |fs[k].parts| == 1 && Gop(fs[k].parts[0].s, k == 0)
  }

  /** The fragments of the only track, and what is pending, are its groups of pictures. */
  ghost predicate CutAtKeys(fs: seq<Fragment>, vs: seq<Part>)
  {
    && |vs| == 1 && AllGops(fs)
    && (vs[0].s == [] ==> fs == [])
    && (vs[0].s != [] ==> Gop(vs[0].s, fs == []))
    && forall i :: 0 <= i < |vs[0].s| ==> vs[0].s[i].bytes > 0
  }

  lemma PendingBytes(vs: seq<Part>)
    requires |vs| == 1 && forall i :: 0 <= i < |vs[0].s| ==> vs[0].s[i].bytes > 0
    ensures StartOf(vs, 1) > 0 <==> vs[0].s != []
  {
    var s := vs[0].s;
    assert StartOf(vs, 1) == StartOf(vs, 0) + ByteSum(s, 0, |s|);
    if s != [] {
      assert ByteSum(s, 0, |s|) == ByteSum(s, 0, |s| - 1) + s[|s| - 1].bytes;
    }
  }

  lemma OnlyPlaced(vs: seq<Part>)
    requires |vs| == 1
    ensures Placed(vs)[0].s == PlacedAt(vs[0].s, 0)
  {
    assert StartOf(vs, 0) == 0;
  }

  /** A key frame sends off the group before it, any other sample joins it. */
  lemma CutOn(fs: seq<Fragment>, vs: seq<Part>, turned: seq<Part>, at: nat, number: u32, bss: seq<seq<seq<byte>>>,
              x: Sample, flush: bool)
    requires CutAtKeys(fs, vs) && x.bytes > 0 && |turned| == 1 && turned[0].s == vs[0].s
    requires flush <==> x.key && StartOf(vs, 1) > 0
    ensures var left := Left(turned, flush);
            CutAtKeys(fs + if flush then [Fragment(at, number, Placed(turned), bss)] else [], left[0 := Pushed(left[0], x)])
  {
    hide ByteSum, StartOf, Placed, PlacedAt;
    PendingBytes(vs);
    OnlyPlaced(turned);
    var f := Fragment(at, number, Placed(turned), bss);
    if flush {
      assert Gop(f.parts[0].s, fs == []);
    }
  }

  lemma CutLast(fs: seq<Fragment>, vs: seq<Part>, at: nat, number: u32, bss: seq<seq<seq<byte>>>)
    requires CutAtKeys(fs, vs) && StartOf(vs, 1) > 0
    ensures AllGops(fs + [Fragment(at, number, Placed(vs), bss)])
  {
    hide ByteSum, StartOf, Placed, PlacedAt;
    PendingBytes(vs);
    OnlyPlaced(vs);
  }

  /** What stays pending. */
  function Left(vs: seq<Part>, flush: bool): (us: seq<Part>)
    ensures |us| == |vs|
  {
    if flush then Cleared(vs) else vs
  }

  /** A new sample in one track, whose last duration was set before, keeps the last gaps of all tracks. */
  lemma PacedOn(vs: seq<Part>, us: seq<Part>, written: seq<seq<Entry>>, i: nat, flush: bool, x: Sample, e: Entry)
    requires |vs| == |written| && i < |vs| && e.dts == x.dts
    requires forall j :: 0 <= j < |vs| ==> vs[j].turn == LastGapOf(written[j])
    requires us == Left(vs[i := vs[i].(turn := DurationUntil(LastDts(written[i]), e.dts))], flush)
    ensures var ws, after := us[i := Pushed(us[i], x)], written[i := written[i] + [e]];
            forall j :: 0 <= j < |ws| ==> ws[j].turn == LastGapOf(after[j])
  {
    hide LastGapOf, DurationUntil;
    LastOf(written[i], e);
  }

  lemma ClearedSamples(tracks: seq<FragmentTrack>, vs: seq<Part>, bss: seq<seq<seq<byte>>>, i: nat)
    requires Stored(tracks, vs, bss) && i < |tracks|
    ensures |vs| == |tracks| && tracks[i].samples == vs[i].s
  {
  }

  ghost function LastTimes(tracks: seq<FragmentTrack>): (ts: seq<int>)
    reads tracks`lastDts
    ensures |ts| == |tracks| && forall j :: 0 <= j < |tracks| ==> ts[j] == tracks[j].lastDts
  {
    if tracks == [] then [] else LastTimes(tracks[..|tracks| - 1]) + [tracks[|tracks| - 1].lastDts]
  }

  lemma NoneTimed(tracks: seq<FragmentTrack>)
    requires forall t :: t in tracks ==> t.lastDts == INT64_MIN
    ensures LastTimes(tracks) == LastsOf(seq(|tracks|, _ => []))
  {
    var a, b := LastTimes(tracks), LastsOf(seq(|tracks|, _ => []));
    forall j | 0 <= j < |tracks|
      ensures a[j] == b[j]
    {
      assert tracks[j] in tracks;
    }
  }

  function LastsOf(written: seq<seq<Entry>>): (ts: seq<int>)
    ensures |ts| == |written| && forall j :: 0 <= j < |written| ==> ts[j] == LastDts(written[j])
  {
    seq(|written|, j requires 0 <= j < |written| => LastDts(written[j]))
  }

  lemma LastsGrow(written: seq<seq<Entry>>, i: nat, e: Entry)
    requires i < |written|
    ensures LastsOf(written[i := written[i] + [e]]) == LastsOf(written)[i := e.dts]
  {
    LastOf(written[i], e);
    var a, b := LastsOf(written[i := written[i] + [e]]), LastsOf(written)[i := e.dts];
    forall j | 0 <= j < |written|
      ensures a[j] == b[j]
    {
      assert j == i || written[i := written[i] + [e]][j] == written[j];
    }
  }

  lemma LastOf(es: seq<Entry>, e: Entry)
    ensures LastDts(es + [e]) == e.dts && LastGapOf(es + [e]) == DurationUntil(LastDts(es), e.dts)
  {
    assert (es + [e])[..|es + [e]| - 1] == es;
  }

  /** fmp4_writer_t. `front` stands for the ftyp, free and moov boxes written before the first moof. */
  class Fmp4Writer {
    const io: Stream
    const tracks: seq<FragmentTrack>
    const front: seq<byte>
    var mdatSize: nat
    var hasMoov: bool
    var fragmentId: u32

    ghost var parts: seq<Part>                 // the tracks' samples, not yet in a fragment
    ghost var blocks: seq<seq<seq<byte>>>
    ghost var fragments: seq<Fragment>
    ghost var written: seq<seq<Entry>>

    ghost predicate TracksHold()
      reads this`parts, this`blocks, tracks`samples, tracks`blocks, tracks`turn, tracks`startDts
    {
      Stored(tracks, parts, blocks)
    }

    /** Every track knows the time of its last sample, in a fragment or pending. */
    ghost predicate Timed()
      reads this`written, tracks`lastDts
    {
      LastTimes(tracks) == LastsOf(written) && forall j :: 0 <= j < |tracks| ==> tracks[j].timescale == TIMESCALE
    }

    /** Between two writes, the last duration of a track is its last gap. */
    ghost predicate Paced()
      reads this`written, this`parts
    {
      |written| == |parts| && forall j :: 0 <= j < |parts| ==> parts[j].turn == LastGapOf(written[j])
    }

    ghost predicate Valid()
      reads this, io, tracks
    {
      && AtEnd(io) && TracksHold() && Timed()
      && AllWellFormed(fragments) && InOrder(front, fragments)
      && io.data == (if hasMoov then FileOf(front, fragments, |fragments|) else [])
      && (!hasMoov ==> fragments == [])
      && mdatSize == StartOf(parts, |parts|) && fragmentId == ToU32(|fragments|)
      && Books(fragments, parts, blocks, written)
    }

    constructor (tracks: seq<FragmentTrack>, front: seq<byte>)
      requires forall i, j :: 0 <= i < j < |tracks| ==> tracks[i] != tracks[j]
      requires forall t :: t in tracks ==>
        t.samples == [] && t.blocks == [] && t.startDts == t.lastDts == INT64_MIN && t.turn == 0 && t.timescale == TIMESCALE
      ensures Valid() && Paced() && fresh(io) && this.tracks == tracks && this.front == front
      ensures fragments == [] && mdatSize == 0 && !hasMoov && written == seq(|tracks|, _ => [])
      ensures |tracks| == 1 ==> CutAtKeys(fragments, parts)
    {
      hide Splice, Books, Stored, NoBlocks, LastTimes, LastsOf, InOrder, FileOf, WellFormed, CutAtKeys, StartOf;
      io := new Stream([]);
      this.tracks, this.front := tracks, front;
      mdatSize, hasMoov, fragmentId := 0, false, 0;
      ghost var vs := seq(|tracks|, j requires 0 <= j < |tracks| reads tracks => PartOf(tracks[j]));
      parts, blocks, fragments, written := vs, NoBlocks(|tracks|), [], seq(|tracks|, _ => []);
      NothingYet(tracks, vs);
      new;
      NoneTimed(tracks);
      NoFragments(front);
      NoCuts(vs);
      assert Stored(tracks, parts, blocks) by { StoredFresh(tracks, parts); }
      assert forall j :: 0 <= j < |tracks| ==> tracks[j] in tracks;
    }

    /** Where the next moof will start. */
    ghost function NextAt(): nat
      reads this, io
    {
      if hasMoov then |io.data| else |front|
    }

    /** The pending samples fit one fragment: its boxes have 32-bit sizes, its mdat a 64-bit one. */
    ghost predicate CanFlush(vs: seq<Part>)
      reads this, io
    {
      mdatSize > 0 ==> MoofFits(ToU32((fragmentId as int) + 1), Placed(vs), NextAt()) && mdatSize + 16 < TWO_64
    }

    /** Before the first fragment the file is given its front boxes. */
    method BeginFile()
      requires AtEnd(io) && InOrder(front, fragments) && AllWellFormed(fragments) && (!hasMoov ==> fragments == [])
      requires io.data == if hasMoov then FileOf(front, fragments, |fragments|) else []
      modifies io, this`hasMoov
      ensures AtEnd(io) && hasMoov && io.data == FileOf(front, fragments, |fragments|) && |io.data| == old(NextAt())
    {
      hide Splice, FragmentBytes, WellFormed;
      if !hasMoov {
        ghost var data, done := io.data, io.done;
        io.Write(front);
        Appended(io, data, done, front);
        NoFragments(front);
        hasMoov := true;
      }
    }

    /** moof, mdat and the cleared tracks; the books are brought up to date by the caller. */
    method Flush(ghost f: Fragment)
      requires AtEnd(io) && TracksHold() && AllMatching(parts, blocks) && mdatSize == StartOf(parts, |parts|) > 0
      requires mdatSize + 16 < TWO_64 && MoofFits(f.number, Placed(parts), io.pos)
      requires f == Fragment(io.pos, ToU32((fragmentId as int) + 1), Placed(parts), blocks)
      modifies this`mdatSize, this`fragmentId, this`parts, this`blocks
      modifies io, tracks`samples, tracks`blocks, tracks`tfhd, tracks`offset
      ensures AtEnd(io) && TracksHold() && mdatSize == StartOf(parts, |parts|) == 0 && fragmentId == f.number
      ensures parts == Cleared(old(parts)) && blocks == NoBlocks(|tracks|) && |tracks| == |old(parts)|
      ensures WellFormed(f) && io.data == old(io.data) + FragmentBytes(f)
    {
      hide Splice, Stored, WellFormed, FragmentBytes, MoofFits, Placed, Cleared, NoBlocks, StartOf, AllMatching;
      ghost var vs := parts;
      fragmentId := ToU32((fragmentId as int) + 1);
      WriteFragmentBoxes(io, tracks, fragmentId, mdatSize, vs, blocks);
      ClearTracks(tracks, Placed(vs));
      ClearedPlaced(vs);
      mdatSize, parts, blocks := 0, Cleared(vs), NoBlocks(|vs|);
    }

    /** fmp4_write_fragment, also the whole of fmp4_writer_save_segment. */
    method WriteFragment() returns (r: int)
      requires Valid() && CanFlush(parts)
      modifies this`mdatSize, this`hasMoov, this`fragmentId, this`parts, this`blocks, this`fragments
      modifies io, tracks`samples, tracks`blocks, tracks`tfhd, tracks`offset
      ensures Valid() && r == 0 && written == old(written)
      ensures old(mdatSize) == 0 ==>
        io.data == old(io.data) && fragments == old(fragments) && parts == old(parts) && blocks == old(blocks)
      ensures old(mdatSize) > 0 ==>
        && fragments == old(fragments) + [Fragment(old(NextAt()), fragmentId, Placed(old(parts)), old(blocks))]
        && fragmentId == ToU32((old(fragmentId) as int) + 1)
        && mdatSize == 0 && parts == Cleared(old(parts)) && blocks == NoBlocks(|tracks|)
      ensures old(CutAtKeys(fragments, parts)) ==> AllGops(fragments)
    {
      hide Splice, Holding, InOrder, Books, WellFormed, FragmentBytes, MoofFits, Placed, Cleared, NoBlocks;
      hide StartOf, AllWellFormed, FileOf, LastTimes, LastsOf;
      hide TracksHold;
      if mdatSize < 1 {
        return 0;
      }
      ghost var fs, vs, bss, data := fragments, parts, blocks, FileOf(front, fragments, |fragments|);
      BooksMatch(fs, vs, bss, written);
      BeginFile();
      ghost var f := Fragment(|data|, ToU32((fragmentId as int) + 1), Placed(vs), bss);
      NextNumber(|fs|);
      Flush(f);
      InOrderGrows(front, fs, f);
      BooksFlush(fs, f, vs, bss, written);
      fragments := fs + [f];
      if CutAtKeys(fs, vs) {
        CutLast(fs, vs, f.at, f.number, bss);
      }
      r := io.error;
    }

    /** track->turn_last_duration. */
    method SetTurn(track: nat, duration: int)
      requires Valid() && track < |tracks|
      modifies this`parts, tracks[track..track + 1]`turn
      ensures Valid() && track < |parts| == |old(parts)|
      ensures parts == old(parts)[track := old(parts)[track].(turn := duration)]
    {
      hide InOrder, FileOf, AllWellFormed, WellFormed, AtEnd, TrackBooks, LastTimes, LastsOf;
      var t := tracks[track];
      assert t in tracks[track..track + 1] by {
        assert tracks[track..track + 1][0] == t;
      }
      ghost var vs := parts;
      ghost var us := vs[track := vs[track].(turn := duration)];
      TurnBooks(fragments, vs, blocks, written, track, duration);
      t.turn := duration;
      parts := us;
    }

    /** The new sample at the end of its track. */
    method Append(track: nat, block: seq<byte>, pts: int, dts: int, key: bool)
      requires Valid() && track < |tracks| && |block| <= UINT32_MAX && dts > INT64_MIN
      modifies this`mdatSize, this`parts, this`blocks, this`written
      modifies tracks`samples, tracks`blocks, tracks`startDts, tracks`lastDts
      ensures Valid() && mdatSize == old(mdatSize) + |block|
      ensures var x := MW.MovWriter.SampleOf(old(mdatSize), |block|, pts, dts, tracks[track].timescale, key);
              && track < |old(written)|
              && written == old(written)[track := old(written)[track] + [Entry(block, pts, dts, key)]]
              && tracks[track].lastDts == dts
              && tracks[track].samples == old(tracks[track].samples) + [x]
              && x.pts == pts && x.dts == dts && x.key == key && parts == old(parts)[track := Pushed(old(parts)[track], x)]
    {
      hide InOrder, FileOf, AllWellFormed, WellFormed, AtEnd, Books, Stored, StartOf, MW.MovWriter.SampleOf;
      hide LastTimes, LastsOf, LastDts, Pushed, MW.Keeps;
      Counts(tracks, parts, blocks, fragments, written);
      var x := MW.MovWriter.SampleOf(mdatSize, |block|, pts, dts, tracks[track].timescale, key);
      TimedAt(track);
      SampleFields(mdatSize, |block|, pts, dts, key);
      BooksWrite(fragments, parts, blocks, written, track, x, block);
      Push(tracks, track, x, block, parts, blocks);
      LastsGrow(written, track, Entry(block, x.pts, x.dts, key));
      mdatSize := mdatSize + |block|;
      parts, blocks := parts[track := Pushed(parts[track], x)], blocks[track := blocks[track] + [block]];
      written := written[track := written[track] + [Entry(block, x.pts, x.dts, key)]];
      assert TracksHold() && Timed();
    }

    /** The pending parts once the track has learned its last duration. */
    ghost function Turned(track: nat, dts: int): seq<Part>
      requires track < |parts| && track < |tracks|
      reads this`parts, tracks
    {
      parts[track := parts[track].(turn := DurationUntil(tracks[track].lastDts, dts))]
    }

    /** The first half of fmp4_writer_write: the last duration, and perhaps a fragment. */
    method SendOff(track: nat, dts: int, starts: bool)
      requires Valid() && track < |tracks| == |parts| && (starts ==> CanFlush(Turned(track, dts)))
      modifies this`mdatSize, this`hasMoov, this`fragmentId, this`parts, this`blocks, this`fragments
      modifies io, tracks`turn, tracks`samples, tracks`blocks, tracks`tfhd, tracks`offset
      ensures Valid() && written == old(written)
      ensures var flush := starts && old(mdatSize) > 0;
              && tracks[track].samples == (if flush then [] else old(tracks[track].samples))
              && mdatSize == (if flush then 0 else old(mdatSize))
              && parts == Left(old(Turned(track, dts)), flush)
              && fragments == old(fragments)
                   + if flush then [Fragment(old(NextAt()), fragmentId, Placed(old(Turned(track, dts))), old(blocks))] else []
    {
      hide Books, Stored, StartOf, InOrder, FileOf, AllWellFormed, AtEnd, Placed, Cleared, NoBlocks, MoofFits;
      hide LastTimes, LastsOf;
      ClearedSamples(tracks, parts, blocks, track);
      SetTurn(track, DurationUntil(tracks[track].lastDts, dts));
      if starts {
        var _ := WriteFragment();
      }
      ClearedSamples(tracks, parts, blocks, track);
    }

    lemma TimedAt(track: nat)
      requires Timed() && track < |tracks|
      ensures track < |written| && tracks[track].lastDts == LastDts(written[track]) && tracks[track].timescale == TIMESCALE
    {
    }

    /** fmp4_writer_write: a forced segment or a video key frame first sends off what is pending. */
    method Write(track: int, block: seq<byte>, pts: int, dts: int, key: bool, force: bool,
                 disable: bool) returns (r: int)
      requires Valid() && |block| <= UINT32_MAX && |parts| == |tracks|
      requires 0 <= track < |tracks| ==>
        && dts > INT64_MIN
        && (StartsFragment(tracks[track].handler, key, force, disable) ==> CanFlush(Turned(track, dts)))
      modifies this`mdatSize, this`hasMoov, this`fragmentId, this`parts, this`blocks, this`fragments, this`written
      modifies io, tracks
      ensures Valid() && (old(Paced()) ==> Paced())
      ensures |fragments| == |old(fragments)|
        + if 0 <= track < |tracks| && !disable && (force || (tracks[track].handler.Video? && key)) && old(mdatSize) > 0 then 1 else 0
      ensures old(CutAtKeys(fragments, parts)) && track == 0 && tracks[0].handler.Video? && !force && !disable && block != []
        ==> CutAtKeys(fragments, parts)
      ensures !(0 <= track < |tracks|) ==>
        r == -ENOENT && io.data == old(io.data) && written == old(written) && fragments == old(fragments) && parts == old(parts)
      ensures 0 <= track < |tracks| ==>
        var t := tracks[track];
        var flush := StartsFragment(t.handler, key, force, disable) && old(mdatSize) > 0;
        var x := MW.MovWriter.SampleOf(if flush then 0 else old(mdatSize), |block|, pts, dts, t.timescale, key);
        && r == 0 && track < |old(written)|
        && written == old(written)[track := old(written)[track] + [Entry(block, pts, dts, key)]]
        && x.pts == pts && x.dts == dts && x.key == key
        && t.samples == (if flush then [] else old(t.samples)) + [x]
        && var left := Left(old(Turned(track, dts)), flush);
        && parts == left[track := Pushed(left[track], x)]
        && fragments == old(fragments)
             + if flush then [Fragment(old(NextAt()), fragmentId, Placed(old(Turned(track, dts))), old(blocks))] else []
    {
      hide Books, Stored, StartOf, MW.MovWriter.SampleOf, InOrder, FileOf, AllWellFormed, AtEnd, Placed, MoofFits;
      hide LastTimes, LastsOf, LastDts, LastGapOf, DurationUntil;
      if track < 0 || track >= |tracks| {
        return -ENOENT;
      }
      var t := tracks[track];
      TimedAt(track);
      SampleFields(0, |block|, pts, dts, key);
      SampleFields(mdatSize, |block|, pts, dts, key);
      Counts(tracks, parts, blocks, fragments, written);
      ghost var vs, ws, flush := parts, written, StartsFragment(t.handler, key, force, disable) && mdatSize > 0;
      SendOff(track, dts, StartsFragment(t.handler, key, force, disable));
      ghost var us, x := parts, MW.MovWriter.SampleOf(mdatSize, |block|, pts, dts, t.timescale, key);
      Append(track, block, pts, dts, key);
      if CutAtKeys(old(fragments), vs) && track == 0 && t.handler.Video? && !force && !disable && block != [] {
        CutOn(old(fragments), vs, old(Turned(track, dts)), old(NextAt()), fragmentId, old(blocks), x, flush);
      }
      if old(Paced()) {
        PacedOn(vs, us, ws, track, flush, x, Entry(block, x.pts, x.dts, key));
      }
      assert io.error == 0 by { NoError(io); }
      r := io.error;
    }
  }

  lemma NoError(io: Stream)
    requires AtEnd(io)
    ensures io.error == 0
  {
  }
}
