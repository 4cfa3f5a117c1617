/** mov_read_trak on a written track: the reader's samples against the writer's. */
module TrackReload {
  import opened Bytes
  import opened Samples
  import opened ChunkTables
  import opened RunLength
  import opened Boxes
  import opened Stts
  import opened Stss
  import opened Stsz
  import opened Stco
  import opened Elst
  import opened Timeline
  import opened TrackWriter
  import opened TrackReader
  import opened TrackRoundTrip

  const NO_TABLES: Tables := Tables([], 0, [], [], [], [], [], [])

  ghost function WrittenOffsets(v: View): seq<u64>
    requires v.Valid()
  {
    ChunkOffsets(v.s, v.n, v.d);
    Offsets(ChunksOf(v.s, v.n), v.d)
  }

  function WrittenCtts(s: seq<Sample>, n: nat): seq<Run>
    requires n <= |s| && n <= UINT32_MAX
  {
    var rs := RunsOf(OffsetsOf(s, n), n);
    if n > 0 && !CttsOmitted(rs) then rs else []
  }

  /** The tables that the boxes of a written track stand for. */
  ghost function WrittenTables(v: View, movieTimescale: u32): Tables
    requires v.Valid() && Editable(v, movieTimescale)
  {
    var cs := ChunksOf(v.s, v.n);
    Tables(Sized(v.s, v.n), v.n, StscOf(cs, |cs|), WrittenOffsets(v),
      RunsOf(Deltas(v.s, v.n), v.n), WrittenCtts(v.s, v.n),
      EditsOf(PlanOf(v.s[0], movieTimescale, v.timescale, v.duration)),
      if v.video then KeyNumbers(v.s, v.n) else [])
  }

  /** What the writer has to be given for every table to hold its values. */
  ghost predicate Storable(v: View)
    requires v.Valid()
  {
    PlainBoxes(v) && !AllEmpty(v.s, v.n) && WidthHolds(WrittenOffsets(v), Wide(v.s, v.n, v.d))
  }

  /** The boxes `ts` can be read, and turn the tables `tb` into `after`. */
  ghost predicate Load(tb: Tables, ts: seq<Tree>, parent: u32, after: Tables)
  {
    AllSound(ts, parent) && LoadAll(tb, ts, |ts|, parent) == after
  }

  ghost predicate LoadsOne(tb: Tables, t: Tree, parent: u32, after: Tables)
  {
    Sound(t, parent) && LoadTree(tb, t, parent) == after
  }

  lemma NothingLoads(tb: Tables, parent: u32)
    ensures Load(tb, [], parent, tb)
  {
  }

  lemma LoadNext(tb: Tables, ts: seq<Tree>, t: Tree, parent: u32, mid: Tables, after: Tables)
    requires Load(tb, ts, parent, mid) && LoadsOne(mid, t, parent, after)
    ensures Load(tb, ts + [t], parent, after)
  {
    hide AllSound, Sound, LoadTree, LoadAll;
    LoadSnoc(tb, ts, t, parent);
  }

  lemma PlainLoad(tb: Tables, t: Tree, parent: u32)
    requires Plain(t, parent)
    ensures LoadsOne(tb, t, parent, tb)
  {
    PlainLoads(tb, t, parent);
  }

  ghost function AfterStts(v: View, tb: Tables): Tables
    requires v.Valid()
  {
    tb.(stts := RunsOf(Deltas(v.s, v.n), v.n))
  }

  ghost function AfterStss(v: View, tb: Tables): Tables
    requires v.Valid()
  {
    if v.video then tb.(stss := KeyNumbers(v.s, v.n)) else tb
  }

  ghost function AfterCtts(v: View, tb: Tables): Tables
    requires v.Valid()
  {
    if WrittenCtts(v.s, v.n) == [] then tb else tb.(ctts := WrittenCtts(v.s, v.n))
  }

  lemma SttsLoad(v: View, tb: Tables)
    requires v.Valid() && Fits(SttsPart(v))
    ensures LoadsOne(tb, SttsPart(v), TAG_STBL, AfterStts(v, tb))
  {
    hide RunsOf, RunsTree, Sound, LoadTree, Deltas, Fits;
    RunsLoad(TAG_STTS, 0, RunsOf(Deltas(v.s, v.n), v.n), tb);
  }

  lemma StssLoad(v: View, tb: Tables)
    requires v.Valid() && v.video && Fits(StssTree(v.s, v.n))
    ensures LoadsOne(tb, StssTree(v.s, v.n), TAG_STBL, AfterStss(v, tb))
  {
    hide KeyNumbers, StssTree, Sound, LoadTree, Fits;
    KeysLoad(v.s, v.n, tb);
  }

  lemma CttsLoad(v: View, ts: seq<Tree>, tb: Tables, mid: Tables)
    requires v.Valid() && v.n > 0 && Load(tb, ts, TAG_STBL, mid)
    requires forall t :: t in CttsPart(v.s, v.n, v.v1) ==> Fits(t)
    ensures Load(tb, ts + CttsPart(v.s, v.n, v.v1), TAG_STBL, AfterCtts(v, mid))
  {
    var full := RunsOf(OffsetsOf(v.s, v.n), v.n);
    assert full != [];
    hide RunsOf, RunsTree, Sound, LoadTree, OffsetsOf, Fits, Load, CttsOmitted;
    if CttsOmitted(full) {
      assert ts + CttsPart(v.s, v.n, v.v1) == ts;
    } else {
      var version: u32 := if v.v1 then 0x100_0000 else 0;
      assert RunsTree(TAG_CTTS, version, full) in CttsPart(v.s, v.n, v.v1);
      RunsLoad(TAG_CTTS, version, full, mid);
      LoadNext(tb, ts, RunsTree(TAG_CTTS, version, full), TAG_STBL, mid, mid.(ctts := full));
    }
  }

  lemma FrontLoads(v: View, tb: Tables)
    requires v.Valid() && v.n > 0 && Plain(v.stsd, TAG_STBL) && Fits(StblTree(v))
    ensures Load(tb, StblFront(v), TAG_STBL, AfterCtts(v, AfterStss(v, AfterStts(v, tb))))
  {
    hide Load, LoadsOne, StssTree, SttsPart, CttsPart, StblTree, Fits, Plain, AfterCtts, AfterStts;
    StblPartsFit(v);
    NothingLoads(tb, TAG_STBL);
    PlainLoad(tb, v.stsd, TAG_STBL);
    LoadNext(tb, [], v.stsd, TAG_STBL, tb, tb);
    var ts: seq<Tree> := [] + [v.stsd];
    var a := AfterStts(v, tb);
    SttsLoad(v, tb);
    LoadNext(tb, ts, SttsPart(v), TAG_STBL, tb, a);
    ts := ts + [SttsPart(v)];
    if v.video {
      StssLoad(v, a);
      LoadNext(tb, ts, StssTree(v.s, v.n), TAG_STBL, a, AfterStss(v, a));
      ts := ts + [StssTree(v.s, v.n)];
    }
    CttsLoad(v, ts, tb, AfterStss(v, a));
    assert ts + CttsPart(v.s, v.n, v.v1) == StblFront(v);
  }

  ghost function AfterStsc(v: View, tb: Tables): Tables
    requires v.Valid()
  {
    tb.(stsc := StscOf(ChunksOf(v.s, v.n), |ChunksOf(v.s, v.n)|))
  }

  ghost function AfterStsz(v: View, tb: Tables): Tables
    requires v.Valid()
  {
    tb.(samples := Sized(v.s, v.n), count := v.n)
  }

  ghost function AfterStco(v: View, tb: Tables): Tables
    requires v.Valid()
  {
    tb.(stco := WrittenOffsets(v))
  }

  lemma ChunkPartsLoad(v: View, a: Tables, b: Tables, c: Tables)
    requires v.Valid() && Storable(v) && Fits(StblTree(v))
    ensures LoadsOne(a, StscTree(ChunksOf(v.s, v.n)), TAG_STBL, AfterStsc(v, a))
    ensures LoadsOne(b, StszTree(v.s, v.n), TAG_STBL, AfterStsz(v, b))
    ensures LoadsOne(c, StcoPart(v), TAG_STBL, AfterStco(v, c))
  {
    StblPartsFit(v);
    hide Sound, LoadTree, ChunksOf, StscOf, Sized, StscTree, StszTree, StcoTree, Fits, Wide, WidthHolds;
    hide AllEmpty, StblTree, PlainBoxes;
    EntriesLoad(ChunksOf(v.s, v.n), a);
    SizesLoad(v.s, v.n, b);
    OffsetsLoad(WrittenOffsets(v), Wide(v.s, v.n, v.d), c);
  }

  /** The sample table box as a whole. */
  lemma StblLoads(v: View, tb: Tables)
    requires v.Valid() && v.n > 0 && Storable(v) && Fits(StblTree(v))
    ensures Load(tb, StblParts(v), TAG_STBL,
      AfterStco(v, AfterStsz(v, AfterStsc(v, AfterCtts(v, AfterStss(v, AfterStts(v, tb)))))))
  {
    hide Load, LoadsOne, StscTree, StszTree, StcoPart, StblTree, Plain, Fits, StblFront, ChunksOf, AllEmpty;
    hide WidthHolds, WrittenOffsets;
    hide AfterStco, AfterStsz, AfterStsc, AfterCtts, AfterStss, AfterStts, Wide;
    FrontLoads(v, tb);
    var ts, a := StblFront(v), AfterCtts(v, AfterStss(v, AfterStts(v, tb)));
    var b := AfterStsc(v, a);
    var c := AfterStsz(v, b);
    var x, y, z := StscTree(ChunksOf(v.s, v.n)), StszTree(v.s, v.n), StcoPart(v);
    ChunkPartsLoad(v, a, b, c);
    LoadNext(tb, ts, x, TAG_STBL, a, b);
    LoadNext(tb, ts + [x], y, TAG_STBL, b, c);
    LoadNext(tb, ts + [x] + [y], z, TAG_STBL, c, AfterStco(v, c));
    assert ts + [x] + [y] + [z] == StblParts(v);
  }

  /** A container holding sound boxes is sound, and loading it is loading them. */
  lemma NodeLoads(tag: u32, ts: seq<Tree>, parent: u32, tb: Tables, after: Tables)
    requires Load(tb, ts, tag, after) && ts != [] && Fits(Node(tag, ts)) && IsContainer(tag, parent)
    ensures LoadsOne(tb, Node(tag, ts), parent, after)
  {
    SizePositive(ts[|ts| - 1]);
    assert SizeOfAll(ts, |ts|) >= 8;
  }

  lemma SizePositive(t: Tree)
    ensures SizeOf(t) >= 8
  {
  }

  /** A plain box and two more. */
  lemma ThreeLoad(x: Tree, y: Tree, z: Tree, parent: u32, tb: Tables, mid: Tables, after: Tables)
    requires Plain(x, parent) && LoadsOne(tb, y, parent, mid) && LoadsOne(mid, z, parent, after)
    ensures Load(tb, [x, y, z], parent, after)
  {
    hide Load, LoadsOne, Plain;
    NothingLoads(tb, parent);
    PlainLoad(tb, x, parent);
    LoadNext(tb, [], x, parent, tb, tb);
    LoadNext(tb, [] + [x], y, parent, tb, mid);
    LoadNext(tb, [] + [x] + [y], z, parent, mid, after);
    assert [] + [x] + [y] + [z] == [x, y, z];
  }

  lemma EdtsLoads(v: View, movieTimescale: u32, tb: Tables)
    requires Editable(v, movieTimescale) && Fits(EdtsTree(v, movieTimescale))
    ensures LoadsOne(tb, EdtsTree(v, movieTimescale), TAG_TRAK,
      tb.(elst := EditsOf(PlanOf(v.s[0], movieTimescale, v.timescale, v.duration))))
  {
    var plan := PlanOf(v.s[0], movieTimescale, v.timescale, v.duration);
    ChildFits(EdtsTree(v, movieTimescale), 0);
    hide Load, Sound, LoadTree, Fits, EditsOf, PlanOf, EditPlan.Words;
    EditsLoad(plan, tb);
    var after, t := tb.(elst := EditsOf(plan)), ElstTree(v, movieTimescale);
    NothingLoads(tb, TAG_EDTS);
    LoadNext(tb, [], t, TAG_EDTS, tb, after);
    assert [] + [t] == [t];
    NodeLoads(TAG_EDTS, [t], TAG_TRAK, tb, after);
  }

  lemma MdiaLoads(v: View, tb: Tables)
    requires v.Valid() && v.n > 0 && Storable(v) && Fits(MdiaTree(v))
    ensures LoadsOne(tb, MdiaTree(v), TAG_TRAK,
      AfterStco(v, AfterStsz(v, AfterStsc(v, AfterCtts(v, AfterStss(v, AfterStts(v, tb)))))))
  {
    ChildFits(MdiaTree(v), 2);
    ChildFits(MinfTree(v), 2);
    hide Load, LoadsOne, Fits, Plain, StblParts, AllEmpty, WidthHolds, WrittenOffsets, Wide;
    hide AfterStco, AfterStsz, AfterStsc, AfterCtts, AfterStss, AfterStts;
    var after := AfterStco(v, AfterStsz(v, AfterStsc(v, AfterCtts(v, AfterStss(v, AfterStts(v, tb))))));
    StblLoads(v, tb);
    NodeLoads(TAG_STBL, StblParts(v), TAG_MINF, tb, after);
    PlainLoad(tb, v.dinf, TAG_MINF);
    ThreeLoad(v.mediaHeader, v.dinf, StblTree(v), TAG_MINF, tb, tb, after);
    NodeLoads(TAG_MINF, [v.mediaHeader, v.dinf, StblTree(v)], TAG_MDIA, tb, after);
    PlainLoad(tb, v.hdlr, TAG_MDIA);
    ThreeLoad(v.mdhd, v.hdlr, MinfTree(v), TAG_MDIA, tb, tb, after);
    NodeLoads(TAG_MDIA, [v.mdhd, v.hdlr, MinfTree(v)], TAG_TRAK, tb, after);
  }

  lemma TablesAssembled(v: View, movieTimescale: u32)
    requires v.Valid() && Editable(v, movieTimescale)
    ensures var tb := NO_TABLES.(elst := EditsOf(PlanOf(v.s[0], movieTimescale, v.timescale, v.duration)));
            AfterStco(v, AfterStsz(v, AfterStsc(v, AfterCtts(v, AfterStss(v, AfterStts(v, tb))))))
              == WrittenTables(v, movieTimescale)
  {
    hide EditsOf, PlanOf, RunsOf, Deltas, WrittenCtts, KeyNumbers, Sized, ChunksOf, StscOf, WrittenOffsets;
  }

  /** Reading a written track from the start fills in exactly its tables. */
  lemma TrakLoads(v: View, movieTimescale: u32)
    requires v.Valid() && Editable(v, movieTimescale) && Storable(v) && Fits(TrakTree(v, movieTimescale))
    ensures Load(NO_TABLES, [v.tkhd, EdtsTree(v, movieTimescale), MdiaTree(v)], TAG_TRAK, WrittenTables(v, movieTimescale))
  {
    ChildFits(TrakTree(v, movieTimescale), 1);
    ChildFits(TrakTree(v, movieTimescale), 2);
    hide Load, LoadsOne, Fits, Plain, AllEmpty, WidthHolds, WrittenOffsets, Wide, EditsOf, PlanOf, EdtsTree, MdiaTree;
    hide AfterStco, AfterStsz, AfterStsc, AfterCtts, AfterStss, AfterStts, WrittenTables;
    var a := NO_TABLES.(elst := EditsOf(PlanOf(v.s[0], movieTimescale, v.timescale, v.duration)));
    EdtsLoads(v, movieTimescale, NO_TABLES);
    MdiaLoads(v, a);
    TablesAssembled(v, movieTimescale);
    ThreeLoad(v.tkhd, EdtsTree(v, movieTimescale), MdiaTree(v), TAG_TRAK, NO_TABLES, a, WrittenTables(v, movieTimescale));
  }
}
