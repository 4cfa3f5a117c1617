/** mov-reader.c: walking the boxes of a track and filling its tables. */
module TrackReader {
  import opened Bytes
  import opened Samples
  import opened ChunkTables
  import opened RunLength
  import opened Tracks
  import opened MovStream
  import opened Boxes
  import opened Stts
  import opened Stss
  import opened Stsc
  import opened Stsz
  import opened Stco
  import opened Elst

  /** The tables of a track, as values. */
  datatype Tables = Tables(
    samples: seq<Sample>, count: u32,
    stsc: seq<StscEntry>, stco: seq<nat>, stts: seq<Run>, ctts: seq<Run>, elst: seq<Edit>, stss: seq<u32>)

  ghost predicate Loaded(track: Track, tb: Tables)
    reads track
  {
    && track.sampleCount == tb.count && |tb.samples| == tb.count
    && |track.samples| == (if tb.count == 0 then 0 else tb.count + 1)
    && track.samples[..tb.count] == tb.samples
    && track.stscCount == |tb.stsc| && (|tb.stsc| > 0 ==> |track.stsc| == |tb.stsc| + 1)
    && (forall i :: 0 <= i < |tb.stsc| ==> i < |track.stsc| && track.stsc[i] == tb.stsc[i])
    && track.stco == tb.stco && track.stts == tb.stts && track.ctts == tb.ctts
    && track.elst == tb.elst && track.stss == tb.stss
  }

  // ---------- what the payload of each table means ----------

  predicate Counted(p: seq<byte>, width: nat)
  {
    |p| >= 8 && |p| == 8 + width * (U32At(p, 4) as int)
  }

  function RunsIn(p: seq<byte>): (rs: seq<Run>)
    requires Counted(p, 8)
    ensures |rs| == U32At(p, 4) && forall i :: 0 <= i < |rs| ==> rs[i] == RunAt(p, 8, i)
  {
    seq(U32At(p, 4), i requires 0 <= i < U32At(p, 4) => RunAt(p, 8, i))
  }

  function EntriesIn(p: seq<byte>): (es: seq<StscEntry>)
    requires Counted(p, 12)
    ensures |es| == U32At(p, 4) && forall i :: 0 <= i < |es| ==> es[i] == EntryAt(p, 8, i)
  {
    seq(U32At(p, 4), i requires 0 <= i < U32At(p, 4) => EntryAt(p, 8, i))
  }

  function OffsetsIn(p: seq<byte>, wide: bool): (os: seq<nat>)
    requires Counted(p, if wide then 8 else 4)
    ensures |os| == U32At(p, 4) && forall i :: 0 <= i < |os| ==> os[i] == OffsetAt(p, 8, i, wide)
  {
    seq(U32At(p, 4), i requires 0 <= i < U32At(p, 4) => OffsetAt(p, 8, i, wide))
  }

  function NumbersIn(p: seq<byte>): (ks: seq<u32>)
    requires Counted(p, 4)
    ensures |ks| == U32At(p, 4) && forall i :: 0 <= i < |ks| ==> ks[i] == NumberAt(p, 8, i)
  {
    seq(U32At(p, 4), i requires 0 <= i < U32At(p, 4) => NumberAt(p, 8, i))
  }

  predicate EditsCounted(p: seq<byte>)
  {
    |p| >= 8 && |p| == 8 + EditBytes(U32At(p, 4), p[0] == 1)
  }

  function EditsIn(p: seq<byte>): (es: seq<Edit>)
    requires EditsCounted(p)
    ensures |es| == U32At(p, 4) && forall i :: 0 <= i < |es| ==> es[i] == EditAt(p, 8, i, p[0] == 1)
  {
    seq(U32At(p, 4), i requires 0 <= i < U32At(p, 4) => EditAt(p, 8, i, p[0] == 1))
  }

  predicate SizesCounted(p: seq<byte>) { |p| >= 12 && |p| == Consumed(p, 0) }

  function SizesIn(p: seq<byte>): (s: seq<Sample>)
    requires SizesCounted(p)
    ensures |s| == U32At(p, 8)
    ensures forall i :: 0 <= i < |s| ==> s[i] == EMPTY_SAMPLE.(bytes := SizeAt(p, 0, i))
  {
    seq(U32At(p, 8), i requires 0 <= i < U32At(p, 8) => EMPTY_SAMPLE.(bytes := SizeAt(p, 0, i)))
  }

  /** The containers that mov_read_default walks into, below a track. */
  predicate IsContainer(tag: u32, parent: u32)
  {
    || (parent == TAG_TRAK && (tag == TAG_EDTS || tag == TAG_MDIA))
    || (parent == TAG_MDIA && tag == TAG_MINF)
    || (parent == TAG_MINF && tag == TAG_STBL)
  }

  /** A box the reader can take: containers in their place, tables whose count matches their size. */
  ghost predicate Sound(t: Tree, parent: u32)
    decreases t
  {
    && 8 < SizeOf(t) && Fits(t)
    && match t
       case Node(tag, children) =>
         IsContainer(tag, parent) && forall i :: 0 <= i < |children| ==> Sound(children[i], tag)
       case Leaf(tag, p) =>
         !IsContainer(tag, parent) && SoundTable(tag, parent, p)
  }

  predicate SoundTable(tag: u32, parent: u32, p: seq<byte>)
  {
    if parent == TAG_EDTS && tag == TAG_ELST then EditsCounted(p)
    else if parent != TAG_STBL then true
    else if tag == TAG_STTS || tag == TAG_CTTS then Counted(p, 8)
    else if tag == TAG_STSC then Counted(p, 12)
    else if tag == TAG_STSZ then SizesCounted(p)
    else if tag == TAG_STCO then Counted(p, 4)
    else if tag == TAG_CO64 then Counted(p, 8)
    else if tag == TAG_STSS then Counted(p, 4)
    else true
  }

  /** The effect of one table box. */
  function LoadTable(tb: Tables, tag: u32, parent: u32, p: seq<byte>): Tables
    requires SoundTable(tag, parent, p)
  {
    if parent == TAG_EDTS && tag == TAG_ELST then tb.(elst := EditsIn(p))
    else if parent != TAG_STBL then tb
    else if tag == TAG_STTS then tb.(stts := RunsIn(p))
    else if tag == TAG_CTTS then tb.(ctts := RunsIn(p))
    else if tag == TAG_STSC then tb.(stsc := EntriesIn(p))
    else if tag == TAG_STSZ then tb.(samples := SizesIn(p), count := U32At(p, 8))
    else if tag == TAG_STCO then tb.(stco := OffsetsIn(p, false))
    else if tag == TAG_CO64 then tb.(stco := OffsetsIn(p, true))
    else if tag == TAG_STSS then tb.(stss := NumbersIn(p))
    else tb
  }

  ghost function LoadTree(tb: Tables, t: Tree, parent: u32): Tables
    requires Sound(t, parent)
    decreases t, 1
  {
    match t
    case Leaf(tag, p) => LoadTable(tb, tag, parent, p)
    case Node(tag, children) => LoadAll(tb, children, |children|, tag)
  }

  ghost function LoadAll(tb: Tables, ts: seq<Tree>, n: nat, parent: u32): Tables
    requires n <= |ts| && forall i :: 0 <= i < |ts| ==> Sound(ts[i], parent)
    decreases ts, 0, n
  {
    if n == 0 then tb else LoadTree(LoadAll(tb, ts, n - 1, parent), ts[n - 1], parent)
  }

  // ---------- reading a slice of the file is reading the payload ----------

  lemma WordInSlice(d: seq<byte>, q: nat, p: seq<byte>, k: nat)
    requires q + |p| <= |d| && d[q..q + |p|] == p && k + 4 <= |p|
    ensures U32At(d, q + k) == U32At(p, k)
  {
    U32AtSlice(d, q, |p|, k);
  }

  lemma RunsInSlice(d: seq<byte>, q: nat, p: seq<byte>, rs: seq<Run>)
    requires q + |p| <= |d| && d[q..q + |p|] == p && Counted(p, 8)
    requires |rs| == U32At(p, 4) && forall i :: 0 <= i < |rs| ==> rs[i] == RunAt(d, q + 8, i)
    ensures rs == RunsIn(p)
  {
    forall i | 0 <= i < |rs|
      ensures rs[i] == RunAt(p, 8, i)
    {
      WordInSlice(d, q, p, 8 + 8 * i);
      WordInSlice(d, q, p, 8 + 8 * i + 4);
    }
  }

  lemma EntriesInSlice(d: seq<byte>, q: nat, p: seq<byte>, es: seq<StscEntry>)
    requires q + |p| <= |d| && d[q..q + |p|] == p && Counted(p, 12)
    requires |es| == U32At(p, 4) && forall i :: 0 <= i < |es| ==> es[i] == EntryAt(d, q + 8, i)
    ensures es == EntriesIn(p)
  {
    forall i | 0 <= i < |es|
      ensures es[i] == EntryAt(p, 8, i)
    {
      WordInSlice(d, q, p, 8 + 12 * i);
      WordInSlice(d, q, p, 8 + 12 * i + 4);
      WordInSlice(d, q, p, 8 + 12 * i + 8);
    }
  }

  lemma OffsetsInSlice(d: seq<byte>, q: nat, p: seq<byte>, wide: bool, os: seq<nat>)
    requires q + |p| <= |d| && d[q..q + |p|] == p && Counted(p, if wide then 8 else 4)
    requires |os| == U32At(p, 4) && forall i :: 0 <= i < |os| ==> os[i] == OffsetAt(d, q + 8, i, wide)
    ensures os == OffsetsIn(p, wide)
  {
    forall i | 0 <= i < |os|
      ensures os[i] == OffsetAt(p, 8, i, wide)
    {
      if wide {
        WordInSlice(d, q, p, 8 + 8 * i);
        WordInSlice(d, q, p, 8 + 8 * i + 4);
      } else {
        WordInSlice(d, q, p, 8 + 4 * i);
      }
    }
  }

  lemma NumbersInSlice(d: seq<byte>, q: nat, p: seq<byte>, ks: seq<u32>)
    requires q + |p| <= |d| && d[q..q + |p|] == p && Counted(p, 4)
    requires |ks| == U32At(p, 4) && forall i :: 0 <= i < |ks| ==> ks[i] == NumberAt(d, q + 8, i)
    ensures ks == NumbersIn(p)
  {
    forall i | 0 <= i < |ks|
      ensures ks[i] == NumberAt(p, 8, i)
    {
      WordInSlice(d, q, p, 8 + 4 * i);
    }
  }

  lemma EditsInSlice(d: seq<byte>, q: nat, p: seq<byte>, es: seq<Edit>)
    requires q + |p| <= |d| && d[q..q + |p|] == p && EditsCounted(p)
    requires |es| == U32At(p, 4) && forall i :: 0 <= i < |es| ==> es[i] == EditAt(d, q + 8, i, p[0] == 1)
    ensures es == EditsIn(p)
  {
    forall i | 0 <= i < |es|
      ensures es[i] == EditAt(p, 8, i, p[0] == 1)
    {
      if p[0] == 1 {
        WordInSlice(d, q, p, 8 + 20 * i);
        WordInSlice(d, q, p, 8 + 20 * i + 4);
        WordInSlice(d, q, p, 8 + 20 * i + 8);
        WordInSlice(d, q, p, 8 + 20 * i + 12);
      } else {
        WordInSlice(d, q, p, 8 + 12 * i);
        WordInSlice(d, q, p, 8 + 12 * i + 4);
      }
    }
  }

  lemma SizesInSlice(d: seq<byte>, q: nat, p: seq<byte>, s: seq<Sample>)
    requires q + |p| <= |d| && d[q..q + |p|] == p && SizesCounted(p)
    requires U32At(d, q + 4) == U32At(p, 4)
    requires |s| == U32At(p, 8) && forall i :: 0 <= i < |s| ==> s[i] == EMPTY_SAMPLE.(bytes := SizeAt(d, q, i))
    ensures s == SizesIn(p)
  {
    forall i | 0 <= i < |s|
      ensures s[i] == EMPTY_SAMPLE.(bytes := SizeAt(p, 0, i))
    {
      if U32At(p, 4) == 0 {
        WordInSlice(d, q, p, 12 + 4 * i);
      }
    }
  }

  // ---------- the reader ----------

  /** The payload `p` lies at the reading position. */
  ghost predicate At(io: Stream, p: seq<byte>)
    reads io
  {
    io.error == 0 && io.pos + |p| <= |io.data| && io.data[io.pos..io.pos + |p|] == p
  }

  method ReadRunTable(io: Stream, track: Track, tag: u32, ghost p: seq<byte>, ghost tb: Tables)
    requires At(io, p) && Counted(p, 8) && Loaded(track, tb) && (tag == TAG_STTS || tag == TAG_CTTS)
    modifies io, track
    ensures io.data == old(io.data) && io.error == 0 && io.pos == old(io.pos) + |p|
    ensures Loaded(track, if tag == TAG_STTS then tb.(stts := RunsIn(p)) else tb.(ctts := RunsIn(p)))
  {
    ghost var q := io.pos;
    WordInSlice(io.data, q, p, 4);
    var rs, r := ReadRuns(io);
    RunsInSlice(io.data, q, p, rs);
    if tag == TAG_STTS {
      track.stts := rs;
    } else {
      track.ctts := rs;
    }
  }

  method ReadChunkTable(io: Stream, track: Track, ghost p: seq<byte>, ghost tb: Tables)
    requires At(io, p) && Counted(p, 12) && Loaded(track, tb)
    modifies io, track
    ensures io.data == old(io.data) && io.error == 0 && io.pos == old(io.pos) + |p|
    ensures Loaded(track, tb.(stsc := EntriesIn(p)))
  {
    ghost var q := io.pos;
    WordInSlice(io.data, q, p, 4);
    var r := ReadStsc(io, track);
    EntriesInSlice(io.data, q, p, track.stsc[..track.stscCount]);
  }

  method ReadSizeTable(io: Stream, track: Track, ghost p: seq<byte>, ghost tb: Tables)
    requires At(io, p) && SizesCounted(p) && Loaded(track, tb)
    modifies io, track
    ensures io.data == old(io.data) && io.error == 0 && io.pos == old(io.pos) + |p|
    ensures Loaded(track, tb.(samples := SizesIn(p), count := U32At(p, 8)))
  {
    ghost var q := io.pos;
    WordInSlice(io.data, q, p, 4);
    WordInSlice(io.data, q, p, 8);
    var r := ReadStsz(io, track);
    SizesInSlice(io.data, q, p, track.samples[..track.sampleCount]);
  }

  method ReadOffsetTable(io: Stream, track: Track, wide: bool, ghost p: seq<byte>, ghost tb: Tables)
    requires At(io, p) && Counted(p, if wide then 8 else 4) && Loaded(track, tb)
    modifies io, track
    ensures io.data == old(io.data) && io.error == 0 && io.pos == old(io.pos) + |p|
    ensures Loaded(track, tb.(stco := OffsetsIn(p, wide)))
  {
    ghost var q := io.pos;
    WordInSlice(io.data, q, p, 4);
    var r := ReadStco(io, track, wide);
    OffsetsInSlice(io.data, q, p, wide, track.stco);
  }

  method ReadKeyTable(io: Stream, track: Track, ghost p: seq<byte>, ghost tb: Tables)
    requires At(io, p) && Counted(p, 4) && Loaded(track, tb)
    modifies io, track
    ensures io.data == old(io.data) && io.error == 0 && io.pos == old(io.pos) + |p|
    ensures Loaded(track, tb.(stss := NumbersIn(p)))
  {
    ghost var q := io.pos;
    WordInSlice(io.data, q, p, 4);
    var r := ReadStss(io, track);
    NumbersInSlice(io.data, q, p, track.stss);
  }

  method ReadEditTable(io: Stream, track: Track, ghost p: seq<byte>, ghost tb: Tables)
    requires At(io, p) && EditsCounted(p) && Loaded(track, tb)
    modifies io, track
    ensures io.data == old(io.data) && io.error == 0 && io.pos == old(io.pos) + |p|
    ensures Loaded(track, tb.(elst := EditsIn(p)))
  {
    ghost var q := io.pos;
    WordInSlice(io.data, q, p, 4);
    assert io.data[q] == p[0];
    var r := ReadElst(io, track);
    EditsInSlice(io.data, q, p, track.elst);
  }

  /** The parse table of mov-reader.c below a track; every other box is skipped. */
  method ReadTable(io: Stream, track: Track, tag: u32, parent: u32, size: nat, ghost p: seq<byte>, ghost tb: Tables)
    requires At(io, p) && size == |p| && Loaded(track, tb) && SoundTable(tag, parent, p)
    modifies io, track
    ensures io.data == old(io.data) && io.error == 0 && io.pos == old(io.pos) + |p|
    ensures Loaded(track, LoadTable(tb, tag, parent, p))
  {
    hide Loaded, Counted, EditsCounted, SizesCounted;
    if parent == TAG_EDTS && tag == TAG_ELST {
      ReadEditTable(io, track, p, tb);
    } else if parent != TAG_STBL {
      io.Seek(io.pos + size);
    } else if tag == TAG_STTS || tag == TAG_CTTS {
      ReadRunTable(io, track, tag, p, tb);
    } else if tag == TAG_STSC {
      ReadChunkTable(io, track, p, tb);
    } else if tag == TAG_STSZ {
      ReadSizeTable(io, track, p, tb);
    } else if tag == TAG_STCO || tag == TAG_CO64 {
      ReadOffsetTable(io, track, tag == TAG_CO64, p, tb);
    } else if tag == TAG_STSS {
      ReadKeyTable(io, track, p, tb);
    } else {
      io.Seek(io.pos + size);
    }
  }

  ghost predicate AllSound(ts: seq<Tree>, parent: u32)
  {
    forall i :: 0 <= i < |ts| ==> Fits(ts[i]) && Sound(ts[i], parent)
  }

  lemma SubSlice(d: seq<byte>, q: nat, all: seq<byte>, o: nat, n: nat)
    requires q + |all| <= |d| && d[q..q + |all|] == all && o + n <= |all|
    ensures d[q + o..q + o + n] == all[o..o + n]
  {
    var a, b := d[q + o..q + o + n], all[o..o + n];
    forall i | 0 <= i < |a|
      ensures a[i] == b[i]
    {
      assert d[q..q + |all|][o + i] == all[o + i];
    }
  }

  lemma SoundFits(t: Tree, parent: u32)
    requires Sound(t, parent)
    ensures 8 < SizeOf(t) <= UINT32_MAX && Fits(t)
  {
  }

  /** Child n starts behind its predecessors: its header, then its payload. */
  lemma ChildAt(d: seq<byte>, q: nat, ts: seq<Tree>, parent: u32, n: nat)
    requires n < |ts| && AllSound(ts, parent)
    requires q + SizeOfAll(ts, |ts|) <= |d|
    requires d[q..q + SizeOfAll(ts, |ts|)] == SerializeAll(ts, |ts|)
    ensures var o, t := q + SizeOfAll(ts, n), ts[n];
            && 8 < SizeOf(t) <= UINT32_MAX && Fits(t)
            && SizeOfAll(ts, n + 1) == SizeOfAll(ts, n) + SizeOf(t) <= SizeOfAll(ts, |ts|)
            && U32At(d, o) == SizeOf(t) && U32At(d, o + 4) == t.tag
            && d[o + 8..o + SizeOf(t)] == Payload(t)
  {
    hide SizeOf, SizeOfAll, Serialize, SerializeAll, Payload, Fits, Sound, U32At;
    forall i | 0 <= i < |ts|
      ensures Fits(ts[i]) && 8 < SizeOf(ts[i])
    {
      SoundFits(ts[i], parent);
    }
    ChildHere(d, q, ts, n);
  }

  /** Boxes that can follow each other in a file: none empty, sizes in 32 bits. */
  ghost predicate Walkable(ts: seq<Tree>)
  {
    forall i :: 0 <= i < |ts| ==> Fits(ts[i]) && 8 < SizeOf(ts[i])
  }

  lemma FitsSize(t: Tree)
    requires Fits(t)
    ensures SizeOf(t) <= UINT32_MAX
  {
  }

  lemma NextSize(ts: seq<Tree>, n: nat)
    requires n < |ts|
    ensures SizeOfAll(ts, n + 1) == SizeOfAll(ts, n) + SizeOf(ts[n])
  {
  }

  lemma ChildHere(d: seq<byte>, q: nat, ts: seq<Tree>, n: nat)
    requires n < |ts| && Walkable(ts)
    requires q + SizeOfAll(ts, |ts|) <= |d|
    requires d[q..q + SizeOfAll(ts, |ts|)] == SerializeAll(ts, |ts|)
    ensures var o, t := q + SizeOfAll(ts, n), ts[n];
            && 8 < SizeOf(t) <= UINT32_MAX && Fits(t)
            && SizeOfAll(ts, n + 1) == SizeOfAll(ts, n) + SizeOf(t) <= SizeOfAll(ts, |ts|)
            && U32At(d, o) == SizeOf(t) && U32At(d, o + 4) == t.tag
            && d[o + 8..o + SizeOf(t)] == Payload(t)
  {
    hide Serialize, SerializeAll, SizeOf, SizeOfAll, Payload, U32At, Fits;
    var o, t := SizeOfAll(ts, n), ts[n];
    FitsSize(t);
    NextSize(ts, n);
    SliceOfAll(ts, |ts|, n);
    HeaderOf(t);
    HeaderAt(d, q + o, SizeOf(t), SerializeAll(ts, |ts|), q, Serialize(t));
  }

  /** The boxes `ts` lie at byte q of the file. */
  ghost predicate BoxesAt(d: seq<byte>, q: nat, ts: seq<Tree>)
  {
    && Walkable(ts)
    && q + SizeOfAll(ts, |ts|) <= |d|
    && d[q..q + SizeOfAll(ts, |ts|)] == SerializeAll(ts, |ts|)
  }

  /** A box inside a slice of the file: header words and payload can be read in place. */
  lemma HeaderAt(d: seq<byte>, p: nat, n: nat, all: seq<byte>, q: nat, box: seq<byte>)
    requires q <= p && q + |all| <= |d| && d[q..q + |all|] == all
    requires p + n <= q + |all| && 8 <= n == |box| && all[p - q..p - q + n] == box
    ensures U32At(d, p) == U32At(box, 0) && U32At(d, p + 4) == U32At(box, 4)
    ensures d[p + 8..p + n] == box[8..]
  {
    SubSlice(d, q, all, p - q, n);
    U32AtSlice(d, p, n, 0);
    U32AtSlice(d, p, n, 4);
    SubSlice(d, p, box, 8, n - 8);
    assert box[8..8 + (n - 8)] == box[8..];
  }

  ghost function Payload(t: Tree): (p: seq<byte>)
    requires Fits(t)
    ensures |p| == SizeOf(t) - 8
  {
    match t
    case Leaf(_, p) => p
    case Node(_, children) => SerializeAll(children, |children|)
  }

  lemma PayloadOf(t: Tree)
    requires Fits(t)
    ensures t.Leaf? ==> Payload(t) == t.payload
    ensures t.Node? ==> SizeOf(t) - 8 == SizeOfAll(t.children, |t.children|)
                        && (forall i :: 0 <= i < |t.children| ==> Fits(t.children[i]))
                        && Payload(t) == SerializeAll(t.children, |t.children|)
  {
  }

  lemma HeaderOf(t: Tree)
    requires Fits(t)
    ensures U32At(Serialize(t), 0) == SizeOf(t) && U32At(Serialize(t), 4) == t.tag && Serialize(t)[8..] == Payload(t)
  {
    hide U32At, BE32;
    assert Serialize(t) == BoxBytes(t.tag, Payload(t));
    HeaderOfBytes(t.tag, Payload(t));
  }

  lemma HeaderOfBytes(tag: u32, p: seq<byte>)
    requires 8 + |p| <= UINT32_MAX
    ensures var bs := BoxBytes(tag, p); U32At(bs, 0) == 8 + |p| && U32At(bs, 4) == tag && bs[8..] == p
  {
    hide U32At, BE32;
    var bs := BoxBytes(tag, p);
    BE32Decodes(8 + |p|);
    BE32Decodes(tag);
    assert bs[0..4] == BE32(8 + |p|)[0..4] && bs[4..8] == BE32(tag)[0..4];
    U32AtSlice(bs, 0, 4, 0);
    U32AtSlice(bs, 4, 4, 0);
    U32AtSlice(BE32(8 + |p|), 0, 4, 0);
    U32AtSlice(BE32(tag), 0, 4, 0);
  }

  lemma {:induction false} SliceOfAll(ts: seq<Tree>, m: nat, n: nat)
    requires n < m <= |ts| && forall i :: 0 <= i < |ts| ==> Fits(ts[i])
    ensures SizeOfAll(ts, n) + SizeOf(ts[n]) <= SizeOfAll(ts, m)
    ensures SerializeAll(ts, m)[SizeOfAll(ts, n)..SizeOfAll(ts, n) + SizeOf(ts[n])] == Serialize(ts[n])
  {
    hide Serialize, SizeOf, Fits;
    if n < m - 1 {
      SliceOfAll(ts, m - 1, n);
    }
  }

  /** The children `ts` lie at the reading position. */
  ghost predicate AllAt(io: Stream, ts: seq<Tree>, parent: u32)
    reads io
  {
    && AllSound(ts, parent)
    && io.error == 0 && io.pos + SizeOfAll(ts, |ts|) <= |io.data|
    && io.data[io.pos..io.pos + SizeOfAll(ts, |ts|)] == SerializeAll(ts, |ts|)
  }

  /** The shape of child n follows from its tag, and so does its effect. */
  lemma ChildStep(tb: Tables, ts: seq<Tree>, parent: u32, n: nat)
    requires n < |ts| && AllSound(ts, parent)
    ensures var t, before, after := ts[n], LoadAll(tb, ts, n, parent), LoadAll(tb, ts, n + 1, parent);
            && Fits(t)
            && (IsContainer(t.tag, parent) ==>
                  && t.Node? && AllSound(t.children, t.tag)
                  && SizeOf(t) - 8 == SizeOfAll(t.children, |t.children|)
                  && Payload(t) == SerializeAll(t.children, |t.children|)
                  && after == LoadAll(before, t.children, |t.children|, t.tag))
            && (!IsContainer(t.tag, parent) ==>
                  && t.Leaf? && SoundTable(t.tag, parent, Payload(t))
                  && after == LoadTable(before, t.tag, parent, Payload(t)))
  {
    assert Sound(ts[n], parent);
    hide SoundTable, LoadTable, SerializeAll;
  }

  /** mov_reader_box: reads headers and dispatches until the parent's bytes are used up. */
  method ReadBoxes(io: Stream, track: Track, parentSize: nat, parent: u32, ghost ts: seq<Tree>, ghost tb: Tables)
    requires AllAt(io, ts, parent) && parentSize == SizeOfAll(ts, |ts|) && Loaded(track, tb)
    modifies io, track
    ensures io.data == old(io.data) && io.error == 0 && io.pos == old(io.pos) + parentSize
    ensures Loaded(track, LoadAll(tb, ts, |ts|, parent))
    decreases ts
  {
    hide Loaded, Serialize, SerializeAll, SizeOf, SizeOfAll, Fits, Sound, SoundTable, LoadTable, LoadAll;
    hide Payload, IsContainer;
    hide AllSound;
    var bytes: nat := 0;
    ghost var n: nat, q, d := 0, io.pos, io.data;
    LoadNone(tb, ts, parent);
    while bytes + 8 < parentSize && io.error == 0
      invariant n <= |ts| && bytes == SizeOfAll(ts, n) <= parentSize
      invariant io.data == d && io.error == 0 && io.pos == q + bytes
      invariant Loaded(track, LoadAll(tb, ts, n, parent))
      decreases parentSize - bytes
    {
      ghost var t, before := ts[n], LoadAll(tb, ts, n, parent);
      ChildAt(d, q, ts, parent, n);
      ChildStep(tb, ts, parent, n);
      var size := io.R32();
      var tag := io.R32();
      bytes := bytes + size;
      if IsContainer(tag, parent) {
        ReadBoxes(io, track, size - 8, tag, t.children, before);
      } else {
        ReadTable(io, track, tag, parent, size - 8, Payload(t), before);
      }
      n := n + 1;
    }
    if n < |ts| {
      ChildAt(d, q, ts, parent, n);
    }
  }

  lemma LoadNone(tb: Tables, ts: seq<Tree>, parent: u32)
    requires AllSound(ts, parent)
    ensures LoadAll(tb, ts, 0, parent) == tb && SizeOfAll(ts, 0) == 0
    ensures forall i :: 0 <= i < |ts| ==> Fits(ts[i]) && Sound(ts[i], parent)
  {
  }
}
