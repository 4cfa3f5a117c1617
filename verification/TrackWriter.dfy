/** mov-track.c: the boxes of one track, in the order in which the scratch fields are reused. */
module TrackWriter {
  import opened Bytes
  import opened Samples
  import opened ChunkTables
  import opened RunLength
  import opened Tracks
  import opened MovStream
  import opened Boxes
  import opened Stts
  import opened Stss
  import opened Stsc
  import opened Stsz
  import opened Stco
  import opened Elst
  import opened Timeline

  // ---------- only the media fields matter ----------

  lemma MediaFields(s: seq<Sample>, t: seq<Sample>, i: nat)
    requires SameMedia(s, t) && i < |s|
    ensures s[i].offset == t[i].offset && s[i].bytes == t[i].bytes && s[i].sdi == t[i].sdi
    ensures s[i].dts == t[i].dts && s[i].pts == t[i].pts && s[i].key == t[i].key
  {
    assert Media(s[i]) == Media(t[i]);
  }

  lemma {:induction false} ChunksSame(s: seq<Sample>, t: seq<Sample>, n: nat)
    requires SameMedia(s, t) && n <= |s| && n <= UINT32_MAX
    ensures ChunksOf(s, n) == ChunksOf(t, n)
  {
    if n > 0 {
      ChunksSame(s, t, n - 1);
      MediaFields(s, t, n - 1);
      if n > 1 {
        MediaFields(s, t, n - 2);
      }
    }
  }

  lemma DeltasSame(s: seq<Sample>, t: seq<Sample>, n: nat)
    requires SameMedia(s, t) && n <= |s|
    ensures Deltas(s, n) == Deltas(t, n) && OffsetsOf(s, n) == OffsetsOf(t, n)
  {
    forall i | 0 <= i < |s|
      ensures s[i].dts == t[i].dts && s[i].pts == t[i].pts
    {
      MediaFields(s, t, i);
    }
  }

  lemma {:induction false} KeysSame(s: seq<Sample>, t: seq<Sample>, n: nat)
    requires SameMedia(s, t) && n <= |s| && n <= UINT32_MAX
    ensures KeyNumbers(s, n) == KeyNumbers(t, n)
  {
    if n > 0 {
      KeysSame(s, t, n - 1);
      MediaFields(s, t, n - 1);
    }
  }

  lemma {:induction false} SizeWordsSame(s: seq<Sample>, t: seq<Sample>, n: nat)
    requires SameMedia(s, t) && n <= |s|
    ensures SizeWords(s, n) == SizeWords(t, n)
  {
    if n > 0 {
      SizeWordsSame(s, t, n - 1);
      MediaFields(s, t, n - 1);
    }
  }

  lemma SizesSame(s: seq<Sample>, t: seq<Sample>, n: nat)
    requires SameMedia(s, t) && n <= |s|
    ensures Uniform(s, n) == Uniform(t, n) && SizeWords(s, n) == SizeWords(t, n)
    ensures n > 0 ==> s[0].bytes == t[0].bytes
  {
    SizeWordsSame(s, t, n);
    forall i | 0 <= i < |s|
      ensures s[i].bytes == t[i].bytes
    {
      MediaFields(s, t, i);
    }
  }

  // ---------- the sample table box ----------

  function RunsTree(tag: u32, version: u32, rs: seq<Run>): Tree
    requires |rs| <= UINT32_MAX
  {
    Table(tag, [version, |rs|] + RunWords(rs, |rs|))
  }

  function StssTree(s: seq<Sample>, n: nat): Tree
    requires n <= |s| && n <= UINT32_MAX
  {
    var ks := KeyNumbers(s, n);
    Table(TAG_STSS, [0, |ks|] + ks)
  }

  function StscTree(cs: seq<Chunk>): Tree
    requires |cs| <= UINT32_MAX
  {
    var es := StscOf(cs, |cs|);
    Table(TAG_STSC, [0, |es|] + EntryWords(es, |es|))
  }

  function StszTree(s: seq<Sample>, n: nat): Tree
    requires n <= |s| && n <= UINT32_MAX
  {
    Table(TAG_STSZ,
      if Uniform(s, n) then [0, if n < 1 then 0 else s[0].bytes, n]
      else [0, 0, n] + SizeWords(s, n))
  }

  function StcoTree(os: seq<u64>, wide: bool): Tree
    requires |os| <= UINT32_MAX
  {
    Table(if wide then TAG_CO64 else TAG_STCO, [0, |os|] + OffsetWords(os, |os|, wide))
  }

  /** A moved file position still fits 64 bits. */
  ghost predicate OffsetsFit64(s: seq<Sample>, n: nat, d: nat)
    requires n <= |s|
  {
    forall i :: 0 <= i < n ==> s[i].offset + d < TWO_64
  }

  lemma {:induction false} ChunkOffsets(s: seq<Sample>, n: nat, d: nat)
    requires n <= |s| && n <= UINT32_MAX && OffsetsFit64(s, n, d)
    ensures forall j :: 0 <= j < |ChunksOf(s, n)| ==> ChunksOf(s, n)[j].offset + d < TWO_64
  {
    if n > 0 {
      ChunkOffsets(s, n - 1, d);
    }
  }

  function CttsPart(s: seq<Sample>, n: nat, v1: bool): (ts: seq<Tree>)
    requires n <= |s| && n <= UINT32_MAX
    ensures |ts| <= 1
  {
    var rs := RunsOf(OffsetsOf(s, n), n);
    if n > 0 && !CttsOmitted(rs) then [RunsTree(TAG_CTTS, if v1 then 0x100_0000 else 0, rs)] else []
  }

  /** What the boxes of a track depend on; `s` has its scratch fields cleared. */
  datatype View = View(
    s: seq<Sample>, n: nat, d: nat, video: bool, v1: bool, timescale: u32, duration: u64,
    tkhd: Tree, mdhd: Tree, hdlr: Tree, mediaHeader: Tree, dinf: Tree, stsd: Tree)
  {
    ghost predicate Valid() { n <= |s| && n <= UINT32_MAX && OffsetsFit64(s, n, d) }
  }

  function MediaOf(s: seq<Sample>): (t: seq<Sample>)
    ensures |t| == |s| && forall i :: 0 <= i < |s| ==> t[i] == Media(s[i])
  {
    seq(|s|, i requires 0 <= i < |s| => Media(s[i]))
  }

  lemma MediaOfSame(s: seq<Sample>, t: seq<Sample>)
    ensures SameMedia(s, MediaOf(s))
    ensures SameMedia(s, t) ==> MediaOf(s) == MediaOf(t)
  {
  }

  lemma {:induction false} NeedsV1Same(s: seq<Sample>, t: seq<Sample>, n: nat)
    requires SameMedia(s, t) && n <= |s|
    ensures NeedsV1(s, n) == NeedsV1(t, n)
  {
    if n > 0 {
      NeedsV1Same(s, t, n - 1);
      MediaFields(s, t, n - 1);
      if n > 1 {
        MediaFields(s, t, n - 2);
      }
    }
  }

  ghost function ViewOf(track: Track): View
    requires track.Valid()
    reads track
  {
    var s := MediaOf(track.samples);
    View(s, track.sampleCount, track.offset, track.video,
         track.cttsV1 || NeedsV1(s, track.sampleCount), track.timescale, track.duration,
         track.tkhd, track.mdhd, track.hdlr, track.mediaHeader, track.dinf, track.stsd)
  }

  ghost function SttsPart(v: View): Tree
    requires v.Valid()
  {
    RunsTree(TAG_STTS, 0, RunsOf(Deltas(v.s, v.n), v.n))
  }

  ghost function StcoPart(v: View): Tree
    requires v.Valid()
  {
    ChunkOffsets(v.s, v.n, v.d);
    StcoTree(Offsets(ChunksOf(v.s, v.n), v.d), Wide(v.s, v.n, v.d))
  }

  /** The boxes written before the scratch fields are reused for chunks. */
  ghost function StblFront(v: View): seq<Tree>
    requires v.Valid()
  {
    [v.stsd, SttsPart(v)] + (if v.video then [StssTree(v.s, v.n)] else []) + CttsPart(v.s, v.n, v.v1)
  }

  ghost function StblParts(v: View): seq<Tree>
    requires v.Valid()
  {
    StblFront(v) + [StscTree(ChunksOf(v.s, v.n)), StszTree(v.s, v.n), StcoPart(v)]
  }

  ghost function StblTree(v: View): Tree
    requires v.Valid()
  {
    Node(TAG_STBL, StblParts(v))
  }

  lemma SerializeSnoc(pre: seq<byte>, ts: seq<Tree>, t: Tree)
    requires Fits(t) && forall i :: 0 <= i < |ts| ==> Fits(ts[i])
    ensures pre + SerializeAll(ts, |ts|) + Serialize(t) == pre + SerializeAll(ts + [t], |ts| + 1)
    ensures SizeOfAll(ts + [t], |ts| + 1) == SizeOfAll(ts, |ts|) + SizeOf(t)
  {
    hide Serialize, SizeOf, BoxBytes, Fits, SerializeAll, SizeOfAll;
    var us := ts + [t];
    assert forall i :: 0 <= i < |us| ==> us[i] == if i < |ts| then ts[i] else t;
    SerializeSame(ts, us, |ts|);
    SerializeLast(us, |ts|);
    Concat3(pre, SerializeAll(ts, |ts|), Serialize(t));
  }

  lemma SerializeLast(us: seq<Tree>, n: nat)
    requires n < |us| && forall i :: 0 <= i < |us| ==> Fits(us[i])
    ensures SerializeAll(us, n + 1) == SerializeAll(us, n) + Serialize(us[n])
    ensures SizeOfAll(us, n + 1) == SizeOfAll(us, n) + SizeOf(us[n])
  {
  }

  lemma Concat3(a: seq<byte>, b: seq<byte>, c: seq<byte>)
    ensures a + b + c == a + (b + c)
  {
  }

  lemma {:induction false} SerializeSame(ts: seq<Tree>, us: seq<Tree>, n: nat)
    requires n <= |ts| && n <= |us| && forall i :: 0 <= i < n ==> ts[i] == us[i]
    requires forall i :: 0 <= i < |ts| ==> Fits(ts[i])
    requires forall i :: 0 <= i < |us| ==> Fits(us[i])
    ensures SerializeAll(ts, n) == SerializeAll(us, n)
    ensures SizeOfAll(ts, n) == SizeOfAll(us, n)
  {
    if n > 0 {
      SerializeSame(ts, us, n - 1);
    }
  }

  lemma RunsTreeBytes(tag: u32, version: u32, rs: seq<Run>)
    requires |rs| <= UINT32_MAX && Fits(RunsTree(tag, version, rs))
    ensures 16 + 8 * |rs| <= UINT32_MAX
    ensures var box := RunBox(tag, version, rs); var t := RunsTree(tag, version, rs);
            Serialize(t) == Words(box) && SizeOf(t) == 4 * |box|
  {
    hide Words, RunWords, Serialize;
    var rest := [version, |rs|] + RunWords(rs, |rs|);
    TableBytes(tag, rest);
    assert RunBox(tag, version, rs) == [8 + 4 * |rest|, tag] + rest;
  }

  lemma StssTreeBytes(s: seq<Sample>, n: nat)
    requires n <= |s| && n <= UINT32_MAX && Fits(StssTree(s, n))
    ensures 16 + 4 * |KeyNumbers(s, n)| <= UINT32_MAX
    ensures var box := StssBox(KeyNumbers(s, n)); var t := StssTree(s, n);
            Serialize(t) == Words(box) && SizeOf(t) == 4 * |box|
  {
    hide Words, KeyNumbers, Serialize;
    var ks := KeyNumbers(s, n);
    TableBytes(TAG_STSS, [0, |ks|] + ks);
    assert StssBox(ks) == [16 + 4 * |ks|, TAG_STSS] + ([0, |ks|] + ks);
  }

  lemma StscTreeBytes(cs: seq<Chunk>)
    requires |cs| <= UINT32_MAX && Fits(StscTree(cs))
    ensures 16 + 12 * |StscOf(cs, |cs|)| <= UINT32_MAX
    ensures var box := StscBox(StscOf(cs, |cs|)); var t := StscTree(cs);
            Serialize(t) == Words(box) && SizeOf(t) == 4 * |box|
  {
    hide Words, EntryWords, StscOf, Serialize;
    var es := StscOf(cs, |cs|);
    var rest := [0, |es|] + EntryWords(es, |es|);
    TableBytes(TAG_STSC, rest);
    assert StscBox(es) == [8 + 4 * |rest|, TAG_STSC] + rest;
  }

  lemma StszTreeBytes(s: seq<Sample>, n: nat)
    requires n <= |s| && n <= UINT32_MAX && Fits(StszTree(s, n))
    ensures Uniform(s, n) || 20 + 4 * n <= UINT32_MAX
    ensures var box := StszBox(s, n); var t := StszTree(s, n);
            Serialize(t) == Words(box) && SizeOf(t) == 4 * |box|
  {
    hide Words, SizeWords, Uniform, Serialize;
    var rest: seq<u32> :=
      if Uniform(s, n) then [0, if n < 1 then 0 else s[0].bytes, n] else [0, 0, n] + SizeWords(s, n);
    TableBytes(TAG_STSZ, rest);
    assert StszBox(s, n) == [8 + 4 * |rest|, TAG_STSZ] + rest;
  }

  lemma StcoTreeBytes(os: seq<u64>, wide: bool)
    requires |os| <= UINT32_MAX && Fits(StcoTree(os, wide))
    ensures StcoSizeOf(|os|, wide) <= UINT32_MAX
    ensures var box := StcoBox(os, wide); var t := StcoTree(os, wide);
            Serialize(t) == Words(box) && SizeOf(t) == 4 * |box|
  {
    hide Words, OffsetWords, Serialize;
    var tag: u32 := if wide then TAG_CO64 else TAG_STCO;
    var rest := [0, |os|] + OffsetWords(os, |os|, wide);
    TableBytes(tag, rest);
    assert StcoBox(os, wide) == [8 + 4 * |rest|, tag] + rest;
  }

  method WriteSttsPart(io: Stream, track: Track) returns (size: u32)
    requires io.Valid() && track.Valid() && ViewOf(track).Valid() && Fits(SttsPart(ViewOf(track)))
    modifies io, track`samples
    ensures io.Valid() && io.base == old(io.base) && io.start == old(io.start)
    ensures track.Valid() && ViewOf(track) == old(ViewOf(track))
    ensures io.done == old(io.done) + Serialize(SttsPart(ViewOf(track))) && size == SizeOf(SttsPart(ViewOf(track)))
  {
    hide RunsOf, MarkedRuns, Words, RunsTree, RunBox, Splice, Serialize, SizeOf, Fits, Deltas;
    ghost var s, n := track.samples, track.sampleCount;
    ghost var rs := RunsOf(Deltas(s, n), n);
    MediaOfSame(s, s);
    DeltasSame(s, MediaOf(s), n);
    var count := BuildStts(track);
    MediaOfSame(s, track.samples);
    RunsTreeBytes(TAG_STTS, 0, rs);
    size := WriteStts(io, track, count, rs);
  }

  method WriteStssPart(io: Stream, track: Track) returns (size: u32)
    requires io.Valid() && track.Valid() && Fits(StssTree(ViewOf(track).s, ViewOf(track).n))
    modifies io
    ensures io.Valid() && io.base == old(io.base) && io.start == old(io.start)
    ensures var t := StssTree(ViewOf(track).s, ViewOf(track).n);
            io.done == old(io.done) + Serialize(t) && size == SizeOf(t)
  {
    hide Words, Splice, KeyNumbers, StssTree, Serialize, SizeOf, Fits;
    ghost var s, n := track.samples, track.sampleCount;
    MediaOfSame(s, s);
    KeysSame(s, MediaOf(s), n);
    StssTreeBytes(MediaOf(s), n);
    size := WriteStss(io, track);
  }

  lemma {:induction false} FirstHead(s: seq<Sample>, n: nat)
    requires 0 < n <= |s| && s[0].firstChunk != 0
    ensures |HeadsOf(s, n)| > 0 && HeadsOf(s, n)[0] == s[0]
  {
    if n > 1 {
      FirstHead(s, n - 1);
    }
  }

  /** The test in mov_write_stbl, read off the scratch field of the first sample. */
  lemma CttsDecision(t: seq<Sample>, n: nat, rs: seq<Run>)
    requires 0 < n <= |t| && MarkedRuns(t, n, rs) && t[0].firstChunk != 0
    ensures CttsOmitted(rs) <==> !(|rs| > 1 || t[0].perChunk != 0)
  {
    FirstHead(t, n);
  }

  method WriteCttsPart(io: Stream, track: Track) returns (size: nat)
    requires io.Valid() && track.Valid()
    requires var v := ViewOf(track); forall t :: t in CttsPart(v.s, v.n, v.v1) ==> Fits(t)
    modifies io, track`samples, track`cttsV1
    ensures io.Valid() && io.base == old(io.base) && io.start == old(io.start)
    ensures track.Valid() && ViewOf(track) == old(ViewOf(track))
    ensures var v := ViewOf(track); var ts := CttsPart(v.s, v.n, v.v1);
            if ts == [] then size == 0 && io.done == old(io.done)
            else Fits(ts[0]) && io.done == old(io.done) + Serialize(ts[0]) && size == SizeOf(ts[0])
  {
    hide RunsOf, Words, MarkedRuns, Splice, Serialize, SizeOf, Fits, OffsetsOf, NeedsV1, RunBox, RunsTree, CttsOmitted;
    ghost var v := ViewOf(track);
    ghost var s, n := track.samples, track.sampleCount;
    ghost var rs := RunsOf(OffsetsOf(s, n), n);
    ghost var version: u32 := if v.v1 then 0x100_0000 else 0;
    MediaOfSame(s, s);
    DeltasSame(s, MediaOf(s), n);
    NeedsV1Same(s, MediaOf(s), n);
    assert CttsPart(v.s, v.n, v.v1) == if n > 0 && !CttsOmitted(rs) then [RunsTree(TAG_CTTS, version, rs)] else [];
    hide CttsPart;
    var count := BuildCtts(track);
    MediaOfSame(s, track.samples);
    size := 0;
    if track.sampleCount > 0 {
      CttsDecision(track.samples, n, rs);
      if count > 1 || track.samples[0].perChunk != 0 {
        assert RunsTree(TAG_CTTS, version, rs) in CttsPart(v.s, v.n, v.v1);
        RunsTreeBytes(TAG_CTTS, version, rs);
        size := WriteCtts(io, track, count, rs);
      }
    }
  }

  method WriteStscPart(io: Stream, track: Track, ghost cs: seq<Chunk>) returns (size: u32)
    requires io.Valid() && track.Valid() && |cs| <= UINT32_MAX
    requires Marked(track.samples, track.sampleCount, cs) && Fits(StscTree(cs))
    modifies io
    ensures io.Valid() && io.base == old(io.base) && io.start == old(io.start)
    ensures io.done == old(io.done) + Serialize(StscTree(cs)) && size == SizeOf(StscTree(cs))
  {
    hide Marked, Words, StscTree, Splice, StscOf, StscBox, Serialize, SizeOf, Fits;
    StscTreeBytes(cs);
    size := WriteStsc(io, track, cs);
  }

  lemma StszBoxSame(s: seq<Sample>, t: seq<Sample>, n: u32)
    requires SameMedia(s, t) && n <= |s| && (Uniform(t, n) || 20 + 4 * (n as int) <= UINT32_MAX)
    ensures Uniform(s, n) == Uniform(t, n)
    ensures StszBox(s, n) == StszBox(t, n)
  {
    hide SizeWords, Uniform;
    SizesSame(s, t, n);
  }

  method WriteStszPart(io: Stream, track: Track) returns (size: u32)
    requires io.Valid() && track.Valid()
    requires Fits(StszTree(ViewOf(track).s, ViewOf(track).n))
    modifies io
    ensures io.Valid() && io.base == old(io.base) && io.start == old(io.start)
    ensures var t := StszTree(ViewOf(track).s, ViewOf(track).n);
            io.done == old(io.done) + Serialize(t) && size == SizeOf(t)
  {
    hide Words, StszTree, StszBox, Splice, Serialize, SizeOf, Fits, NeedsV1;
    ghost var s, n := track.samples, track.sampleCount;
    MediaOfSame(s, s);
    StszTreeBytes(MediaOf(s), n);
    StszBoxSame(s, MediaOf(s), n);
    size := WriteStsz(io, track);
  }

  lemma StcoPartIs(v: View, s: seq<Sample>)
    requires v.Valid() && SameMedia(s, v.s)
    ensures Wide(s, v.n, v.d) == Wide(v.s, v.n, v.d)
    ensures OffsetsFit64(s, v.n, v.d)
    ensures var cs := ChunksOf(v.s, v.n);
            && (forall j :: 0 <= j < |cs| ==> cs[j].offset + v.d < TWO_64)
            && StcoPart(v) == StcoTree(Offsets(cs, v.d), Wide(v.s, v.n, v.d))
  {
    ChunkOffsets(v.s, v.n, v.d);
    forall i | 0 <= i < |s|
      ensures s[i].offset == v.s[i].offset
    {
      MediaFields(s, v.s, i);
    }
  }

  method WriteStcoPart(io: Stream, track: Track, count: u32) returns (size: u32)
    requires io.Valid() && track.Valid() && ViewOf(track).Valid() && Fits(StcoPart(ViewOf(track)))
    requires var v := ViewOf(track); var cs := ChunksOf(v.s, v.n);
             Marked(track.samples, v.n, cs) && count == |cs|
    modifies io
    ensures io.Valid() && io.base == old(io.base) && io.start == old(io.start)
    ensures var t := StcoPart(ViewOf(track)); io.done == old(io.done) + Serialize(t) && size == SizeOf(t)
  {
    hide Words, ChunksOf, Marked, Splice, StcoPart, StcoTree, StcoBox, Serialize, SizeOf, Fits, NeedsV1, Wide;
    hide SameMedia;
    ghost var v := ViewOf(track);
    ghost var cs := ChunksOf(v.s, v.n);
    MediaOfSame(track.samples, track.samples);
    StcoPartIs(v, track.samples);
    StcoTreeBytes(Offsets(cs, v.d), Wide(v.s, v.n, v.d));
    size := WriteStco(io, track, count, cs);
  }

  // ---------- containers ----------

  /** The bytes of an open container: its unfinished header and the children so far. */
  ghost function Opened(pre: seq<byte>, tag: u32, ts: seq<Tree>): seq<byte>
    requires forall i :: 0 <= i < |ts| ==> Fits(ts[i])
  {
    pre + BE32(0) + BE32(tag) + SerializeAll(ts, |ts|)
  }

  lemma OpenedEmpty(pre: seq<byte>, tag: u32)
    ensures Opened(pre, tag, []) == pre + BE32(0) + BE32(tag) && SizeOfAll([], 0) == 0
  {
  }

  lemma OpenedNext(pre: seq<byte>, tag: u32, ts: seq<Tree>, t: Tree)
    requires Fits(t) && forall i :: 0 <= i < |ts| ==> Fits(ts[i])
    ensures forall i :: 0 <= i <= |ts| ==> Fits((ts + [t])[i])
    ensures Opened(pre, tag, ts) + Serialize(t) == Opened(pre, tag, ts + [t])
    ensures SizeOfAll(ts + [t], |ts| + 1) == SizeOfAll(ts, |ts|) + SizeOf(t)
  {
    hide Serialize, SerializeAll, SizeOf, SizeOfAll, Fits, BE32;
    assert forall i :: 0 <= i <= |ts| ==> (ts + [t])[i] == if i < |ts| then ts[i] else t;
    SerializeSnoc(pre + BE32(0) + BE32(tag), ts, t);
  }

  /** mov_write_size turns the open container into the serialized node. */
  method CloseNode(io: Stream, offset: nat, size: u32, ghost pre: seq<byte>, ghost tag: u32, ghost ts: seq<Tree>)
    requires io.Valid() && offset == io.start + |pre|
    requires Fits(Node(tag, ts)) && forall i :: 0 <= i < |ts| ==> Fits(ts[i])
    requires io.done == Opened(pre, tag, ts) && size == 8 + SizeOfAll(ts, |ts|)
    modifies io
    ensures io.Valid() && io.base == old(io.base) && io.start == old(io.start)
    ensures io.done == pre + Serialize(Node(tag, ts)) && size == SizeOf(Node(tag, ts))
  {
    hide Splice, SerializeAll, BoxBytes;
    Close(io, offset, size, pre, tag, SerializeAll(ts, |ts|));
  }

  lemma ChildFits(t: Tree, i: nat)
    requires t.Node? && i < |t.children| && Fits(t)
    ensures Fits(t.children[i])
  {
  }

  lemma StblPartsFit(v: View)
    requires v.Valid() && Fits(StblTree(v))
    ensures Fits(v.stsd) && Fits(SttsPart(v)) && (v.video ==> Fits(StssTree(v.s, v.n)))
    ensures forall t :: t in CttsPart(v.s, v.n, v.v1) ==> Fits(t)
    ensures Fits(StscTree(ChunksOf(v.s, v.n))) && Fits(StszTree(v.s, v.n)) && Fits(StcoPart(v))
  {
    var parts := StblParts(v);
    hide *;
    forall t | t in parts
      ensures Fits(t)
    {
      var i :| 0 <= i < |parts| && parts[i] == t;
      ChildFits(Node(TAG_STBL, parts), i);
    }
  }

  /** mov_build_stco as the view sees it. */
  method BuildChunks(track: Track) returns (count: u32)
    requires track.Valid()
    modifies track`samples
    ensures track.Valid() && ViewOf(track) == old(ViewOf(track))
    ensures var v := ViewOf(track); var cs := ChunksOf(v.s, v.n);
            count == |cs| && Marked(track.samples, v.n, cs)
  {
    hide ChunksOf, Marked, NeedsV1;
    ghost var s := track.samples;
    MediaOfSame(s, s);
    ChunksSame(s, MediaOf(s), track.sampleCount);
    count := BuildStco(track);
    MediaOfSame(s, track.samples);
  }

  /** The last part of mov_write_stbl: chunks are built once and written to stsc, stsz and stco. */
  method WriteChunkParts(io: Stream, track: Track) returns (size: nat)
    requires io.Valid() && track.Valid() && ViewOf(track).Valid()
    requires var v := ViewOf(track);
             Fits(StscTree(ChunksOf(v.s, v.n))) && Fits(StszTree(v.s, v.n)) && Fits(StcoPart(v))
    modifies io, track`samples
    ensures io.Valid() && io.base == old(io.base) && io.start == old(io.start)
    ensures track.Valid() && ViewOf(track) == old(ViewOf(track))
    ensures var v := ViewOf(track);
            && Marked(track.samples, v.n, ChunksOf(v.s, v.n))
            && io.done == old(io.done) + Serialize(StscTree(ChunksOf(v.s, v.n))) + Serialize(StszTree(v.s, v.n))
                 + Serialize(StcoPart(v))
            && size == SizeOf(StscTree(ChunksOf(v.s, v.n))) + SizeOf(StszTree(v.s, v.n)) + SizeOf(StcoPart(v))
  {
    hide ChunksOf, Marked, Splice, Serialize, SizeOf, Fits, StscTree, StszTree, StcoPart, MediaOf, NeedsV1;
    var count := BuildChunks(track);
    ghost var v := ViewOf(track);
    var a: nat := WriteStscPart(io, track, ChunksOf(v.s, v.n));
    var b: nat := WriteStszPart(io, track);
    var c: nat := WriteStcoPart(io, track, count);
    size := a + b + c;
  }

  method WriteStblFront(io: Stream, track: Track, ghost pre: seq<byte>) returns (size: nat)
    requires io.Valid() && track.Valid() && ViewOf(track).Valid() && track.stsd.Leaf?
    requires var v := ViewOf(track);
             && Fits(v.stsd) && Fits(SttsPart(v)) && (v.video ==> Fits(StssTree(v.s, v.n)))
             && forall t :: t in CttsPart(v.s, v.n, v.v1) ==> Fits(t)
    requires io.done == Opened(pre, TAG_STBL, [])
    modifies io, track`samples, track`cttsV1
    ensures io.Valid() && io.base == old(io.base) && io.start == old(io.start)
    ensures track.Valid() && ViewOf(track) == old(ViewOf(track))
    ensures var ts := StblFront(ViewOf(track));
            && (forall i :: 0 <= i < |ts| ==> Fits(ts[i]))
            && io.done == Opened(pre, TAG_STBL, ts) && size == SizeOfAll(ts, |ts|)
  {
    hide ChunksOf, Splice, Serialize, SerializeAll, SizeOf, SizeOfAll, Fits;
    hide StssTree, SttsPart, CttsPart, MediaOf, NeedsV1, Opened;
    ghost var v := ViewOf(track);
    OpenedEmpty(pre, TAG_STBL);
    ghost var ts: seq<Tree> := [];
    OpenedNext(pre, TAG_STBL, ts, v.stsd);
    var part: nat := WriteLeaf(io, track.stsd);
    size := part;
    ts := ts + [v.stsd];
    OpenedNext(pre, TAG_STBL, ts, SttsPart(v));
    part := WriteSttsPart(io, track);
    size := size + part;
    ts := ts + [SttsPart(v)];
    if track.video {
      OpenedNext(pre, TAG_STBL, ts, StssTree(v.s, v.n));
      part := WriteStssPart(io, track);
      size := size + part;
      ts := ts + [StssTree(v.s, v.n)];
    }
    part := WriteCttsPart(io, track);
    ghost var ctts := CttsPart(v.s, v.n, v.v1);
    if ctts != [] {
      OpenedNext(pre, TAG_STBL, ts, ctts[0]);
      ts := ts + [ctts[0]];
    }
    size := size + part;
    assert ts == StblFront(v);
  }

  method WriteStbl(io: Stream, track: Track) returns (size: u32)
    requires io.Valid() && track.Valid() && ViewOf(track).Valid()
    requires track.stsd.Leaf? && Fits(StblTree(ViewOf(track)))
    modifies io, track`samples, track`cttsV1
    ensures io.Valid() && io.base == old(io.base) && io.start == old(io.start)
    ensures track.Valid() && ViewOf(track) == old(ViewOf(track))
    ensures Marked(track.samples, track.sampleCount, ChunksOf(ViewOf(track).s, track.sampleCount))
    ensures io.done == old(io.done) + Serialize(StblTree(ViewOf(track))) && size == SizeOf(StblTree(ViewOf(track)))
  {
    hide ChunksOf, Marked, Splice, Serialize, SerializeAll, SizeOfAll, Fits, StblFront;
    hide StscTree, StszTree, StssTree, StcoPart, SttsPart, CttsPart, MediaOf, NeedsV1, Opened;
    ghost var v, pre := ViewOf(track), io.done;
    StblPartsFit(v);
    var offset := Open(io, TAG_STBL);
    OpenedEmpty(pre, TAG_STBL);
    var front := WriteStblFront(io, track, pre);
    ghost var ts, a, b, c := StblFront(v), StscTree(ChunksOf(v.s, v.n)), StszTree(v.s, v.n), StcoPart(v);
    OpenedNext(pre, TAG_STBL, ts, a);
    OpenedNext(pre, TAG_STBL, ts + [a], b);
    OpenedNext(pre, TAG_STBL, ts + [a] + [b], c);
    var chunks := WriteChunkParts(io, track);
    assert ts + [a] + [b] + [c] == StblParts(v);
    StblFits(v);
    size := 8 + front + chunks;
    CloseNode(io, offset, size, pre, TAG_STBL, StblParts(v));
  }

  lemma StblFits(v: View)
    requires v.Valid() && Fits(StblTree(v))
    ensures 8 + SizeOfAll(StblParts(v), |StblParts(v)|) == SizeOf(StblTree(v)) <= UINT32_MAX
  {
    hide StblParts;
  }

  // ---------- minf, mdia, edts, trak ----------

  ghost function MinfTree(v: View): Tree
    requires v.Valid()
  {
    Node(TAG_MINF, [v.mediaHeader, v.dinf, StblTree(v)])
  }

  ghost function MdiaTree(v: View): Tree
    requires v.Valid()
  {
    Node(TAG_MDIA, [v.mdhd, v.hdlr, MinfTree(v)])
  }

  ghost predicate Editable(v: View, movieTimescale: u32)
  {
    && 0 < v.n <= |v.s| && v.timescale > 0
    && PlanOf(v.s[0], movieTimescale, v.timescale, v.duration).Valid()
  }

  ghost function ElstTree(v: View, movieTimescale: u32): Tree
    requires Editable(v, movieTimescale)
  {
    Table(TAG_ELST, PlanOf(v.s[0], movieTimescale, v.timescale, v.duration).Words()[2..])
  }

  ghost function EdtsTree(v: View, movieTimescale: u32): Tree
    requires Editable(v, movieTimescale)
  {
    Node(TAG_EDTS, [ElstTree(v, movieTimescale)])
  }

  ghost function TrakTree(v: View, movieTimescale: u32): Tree
    requires v.Valid() && Editable(v, movieTimescale)
  {
    Node(TAG_TRAK, [v.tkhd, EdtsTree(v, movieTimescale), MdiaTree(v)])
  }

  /** A node with three children, written one after the other. */
  lemma ThreeChildren(pre: seq<byte>, tag: u32, a: Tree, b: Tree, c: Tree)
    requires Fits(Node(tag, [a, b, c]))
    ensures Fits(a) && Fits(b) && Fits(c)
    ensures pre + BE32(0) + BE32(tag) + Serialize(a) + Serialize(b) + Serialize(c) == Opened(pre, tag, [a, b, c])
    ensures 8 + SizeOf(a) + SizeOf(b) + SizeOf(c) == 8 + SizeOfAll([a, b, c], 3) == SizeOf(Node(tag, [a, b, c]))
  {
    hide Opened, Serialize, SerializeAll;
    ChildFits(Node(tag, [a, b, c]), 0);
    ChildFits(Node(tag, [a, b, c]), 1);
    ChildFits(Node(tag, [a, b, c]), 2);
    hide Fits, BE32;
    OpenedEmpty(pre, tag);
    OpenedNext(pre, tag, [], a);
    assert [] + [a] == [a] && [a] + [b] == [a, b] && [a, b] + [c] == [a, b, c];
    OpenedNext(pre, tag, [a], b);
    OpenedNext(pre, tag, [a, b], c);
  }

  method WriteMinf(io: Stream, track: Track) returns (size: u32)
    requires io.Valid() && track.Valid() && ViewOf(track).Valid() && track.stsd.Leaf?
    requires track.mediaHeader.Leaf? && track.dinf.Leaf? && Fits(MinfTree(ViewOf(track)))
    modifies io, track`samples, track`cttsV1
    ensures io.Valid() && io.base == old(io.base) && io.start == old(io.start)
    ensures track.Valid() && ViewOf(track) == old(ViewOf(track))
    ensures Marked(track.samples, track.sampleCount, ChunksOf(ViewOf(track).s, track.sampleCount))
    ensures io.done == old(io.done) + Serialize(MinfTree(ViewOf(track))) && size == SizeOf(MinfTree(ViewOf(track)))
  {
    hide ChunksOf, Marked, Splice, Serialize, SizeOf, SizeOfAll, Fits, StblTree, MediaOf, NeedsV1, Opened;
    ghost var v, pre := ViewOf(track), io.done;
    ThreeChildren(pre, TAG_MINF, v.mediaHeader, v.dinf, StblTree(v));
    var offset := Open(io, TAG_MINF);
    var a: nat := WriteLeaf(io, track.mediaHeader);
    var b: nat := WriteLeaf(io, track.dinf);
    var c: nat := WriteStbl(io, track);
    NodeFits(TAG_MINF, [v.mediaHeader, v.dinf, StblTree(v)]);
    size := 8 + a + b + c;
    CloseNode(io, offset, size, pre, TAG_MINF, [v.mediaHeader, v.dinf, StblTree(v)]);
  }

  lemma NodeFits(tag: u32, ts: seq<Tree>)
    requires Fits(Node(tag, ts))
    ensures SizeOf(Node(tag, ts)) <= UINT32_MAX
    ensures forall i :: 0 <= i < |ts| ==> Fits(ts[i])
  {
  }

  method WriteMdia(io: Stream, track: Track) returns (size: u32)
    requires io.Valid() && track.Valid() && ViewOf(track).Valid() && track.stsd.Leaf?
    requires track.mediaHeader.Leaf? && track.dinf.Leaf? && track.mdhd.Leaf? && track.hdlr.Leaf?
    requires Fits(MdiaTree(ViewOf(track)))
    modifies io, track`samples, track`cttsV1
    ensures io.Valid() && io.base == old(io.base) && io.start == old(io.start)
    ensures track.Valid() && ViewOf(track) == old(ViewOf(track))
    ensures Marked(track.samples, track.sampleCount, ChunksOf(ViewOf(track).s, track.sampleCount))
    ensures io.done == old(io.done) + Serialize(MdiaTree(ViewOf(track))) && size == SizeOf(MdiaTree(ViewOf(track)))
  {
    hide ChunksOf, Marked, Splice, Serialize, SizeOf, SizeOfAll, Fits, MinfTree, MediaOf, NeedsV1, Opened;
    ghost var v, pre := ViewOf(track), io.done;
    ThreeChildren(pre, TAG_MDIA, v.mdhd, v.hdlr, MinfTree(v));
    var offset := Open(io, TAG_MDIA);
    var a: nat := WriteLeaf(io, track.mdhd);
    var b: nat := WriteLeaf(io, track.hdlr);
    var c: nat := WriteMinf(io, track);
    NodeFits(TAG_MDIA, [v.mdhd, v.hdlr, MinfTree(v)]);
    size := 8 + a + b + c;
    CloseNode(io, offset, size, pre, TAG_MDIA, [v.mdhd, v.hdlr, MinfTree(v)]);
  }

  lemma ElstTreeBytes(v: View, movieTimescale: u32)
    requires Editable(v, movieTimescale) && Fits(EdtsTree(v, movieTimescale))
    ensures var t := ElstTree(v, movieTimescale);
            var ws := PlanOf(v.s[0], movieTimescale, v.timescale, v.duration).Words();
            Fits(t) && Serialize(t) == Words(ws) && SizeOf(t) == 4 * |ws| && SizeOf(EdtsTree(v, movieTimescale)) == 8 + SizeOf(t)
  {
    ChildFits(EdtsTree(v, movieTimescale), 0);
    hide Serialize, Words;
    assert SizeOfAll([ElstTree(v, movieTimescale)], 1) == SizeOf(ElstTree(v, movieTimescale));
    var ws := PlanOf(v.s[0], movieTimescale, v.timescale, v.duration).Words();
    TableBytes(TAG_ELST, ws[2..]);
    assert ws == [8 + 4 * |ws[2..]|, TAG_ELST] + ws[2..];
  }

  method WriteEdts(io: Stream, track: Track, movieTimescale: u32) returns (size: u32)
    requires io.Valid() && track.Valid()
    requires Editable(ViewOf(track), movieTimescale) && Fits(EdtsTree(ViewOf(track), movieTimescale))
    modifies io
    ensures io.Valid() && io.base == old(io.base) && io.start == old(io.start)
    ensures io.done == old(io.done) + Serialize(EdtsTree(ViewOf(track), movieTimescale))
    ensures size == SizeOf(EdtsTree(ViewOf(track), movieTimescale))
  {
    hide Splice, Serialize, SerializeAll, SizeOf, SizeOfAll, Fits, NeedsV1, Opened, Words, BE32;
    ghost var v, pre := ViewOf(track), io.done;
    ghost var t := ElstTree(v, movieTimescale);
    assert Media(track.samples[0]) == v.s[0];
    ElstTreeBytes(v, movieTimescale);
    var offset := Open(io, TAG_EDTS);
    var a: nat := WriteElst(io, track, movieTimescale);
    OpenedEmpty(pre, TAG_EDTS);
    OpenedNext(pre, TAG_EDTS, [], t);
    assert [] + [t] == [t];
    NodeFits(TAG_EDTS, [t]);
    size := 8 + a;
    CloseNode(io, offset, size, pre, TAG_EDTS, [t]);
  }

  /** The fixed-layout boxes of a track are leaves. */
  ghost predicate LeavesReady(track: Track)
    reads track
  {
    track.tkhd.Leaf? && track.mdhd.Leaf? && track.hdlr.Leaf? && track.mediaHeader.Leaf?
    && track.dinf.Leaf? && track.stsd.Leaf?
  }

  method WriteTrak(io: Stream, track: Track, movieTimescale: u32) returns (size: u32)
    requires io.Valid() && track.Valid() && LeavesReady(track)
    requires ViewOf(track).Valid() && Editable(ViewOf(track), movieTimescale)
    requires Fits(TrakTree(ViewOf(track), movieTimescale))
    modifies io, track`samples, track`cttsV1
    ensures io.Valid() && io.base == old(io.base) && io.start == old(io.start)
    ensures track.Valid() && ViewOf(track) == old(ViewOf(track))
    ensures Marked(track.samples, track.sampleCount, ChunksOf(ViewOf(track).s, track.sampleCount))
    ensures io.done == old(io.done) + Serialize(TrakTree(ViewOf(track), movieTimescale))
    ensures size == SizeOf(TrakTree(ViewOf(track), movieTimescale))
  {
    hide ChunksOf, Marked, Splice, Serialize, SizeOf, SizeOfAll, Fits, MdiaTree, EdtsTree, MediaOf, NeedsV1, Opened;
    ghost var v, pre := ViewOf(track), io.done;
    ThreeChildren(pre, TAG_TRAK, v.tkhd, EdtsTree(v, movieTimescale), MdiaTree(v));
    var offset := Open(io, TAG_TRAK);
    var a: nat := WriteLeaf(io, track.tkhd);
    var b: nat := WriteEdts(io, track, movieTimescale);
    var c: nat := WriteMdia(io, track);
    NodeFits(TAG_TRAK, [v.tkhd, EdtsTree(v, movieTimescale), MdiaTree(v)]);
    size := 8 + a + b + c;
    CloseNode(io, offset, size, pre, TAG_TRAK, [v.tkhd, EdtsTree(v, movieTimescale), MdiaTree(v)]);
  }
}
