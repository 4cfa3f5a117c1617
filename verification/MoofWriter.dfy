/** fmp4-writer.c: the moof box of a fragment, which is written twice. */
module MoofWriter {
  import opened Bytes
  import opened Samples
  import opened MovStream
  import opened Boxes
  import opened TrackWriter
  import opened TrackFragment
  import opened TrackFragmentWriter

  const TAG_MOOF: u32 := 0x6d6f6f66
  const TAG_MFHD: u32 := 0x6d666864
  const TAG_TRAF: u32 := 0x74726166
  const INT64_MIN: int := -TWO_63

  datatype Handler = Video | Audio | Subtitle

  /** The part of mov_track_t the fragmented writer uses; `blocks` is the samples' data. */
  class FragmentTrack {
    const id: u32
    const handler: Handler
    const timescale: u32
    var samples: seq<Sample>
    var blocks: seq<seq<byte>>
    var startDts: int
    var lastDts: int
    var turn: int             // turn_last_duration
    var offset: nat           // the next sample to put into mdat
    var tfhd: Header

    constructor (id: u32, handler: Handler, timescale: u32)
      ensures this.id == id && this.handler == handler && this.timescale == timescale
      ensures samples == [] && blocks == [] && offset == 0
      ensures startDts == lastDts == INT64_MIN && turn == 0
    {
      this.id, this.handler, this.timescale := id, handler, timescale;
      samples, blocks, offset := [], [], 0;
      startDts, lastDts, turn := INT64_MIN, INT64_MIN, 0;
      tfhd := Header(0, 0, 0, 0, 0, 0);
    }
  }

  function PartOf(t: FragmentTrack): Part
    reads t`samples, t`turn, t`startDts
  {
    Part(t.id, t.handler.Audio?, t.samples, t.turn, t.startDts)
  }

  // ---------- one traf ----------

  /** Sample i does not follow its predecessor in mdat: a new run starts. */
  predicate Breaks(s: seq<Sample>, i: nat)
    requires i < |s|
  {
    i == 0 || s[i - 1].offset + s[i - 1].bytes != s[i].offset
  }

  /** Where the run holding sample i - 1 starts. */
  function RunStart(s: seq<Sample>, i: nat): (a: nat)
    requires 0 < i <= |s|
    ensures a < i
  {
    if Breaks(s, i - 1) then i - 1 else RunStart(s, i - 1)
  }

  function RunTree(v: Part, h: Header, a: nat, b: nat, moof: u32): Tree
    requires a < b <= |v.s| < TWO_32
  {
    Table(TAG_TRUN, TrunWords(v, h, a, b, moof))
  }

  /** The runs that end before the one holding sample i - 1. */
  function ClosedRuns(v: Part, h: Header, i: nat, moof: u32): seq<Tree>
    requires 0 < i <= |v.s| < TWO_32
  {
    if i == 1 then []
    else ClosedRuns(v, h, i - 1, moof)
         + if Breaks(v.s, i - 1) then [RunTree(v, h, RunStart(v.s, i - 1), i - 1, moof)] else []
  }

  /** A longest stretch of samples without a jump, as far as sample b: it starts with the track or behind a jump. */
  predicate Stretch(s: seq<Sample>, a: nat, b: nat)
  {
    && a < b <= |s|
    && (a > 0 ==> s[a - 1].offset + s[a - 1].bytes != s[a].offset)
    && forall k :: a < k < b ==> s[k - 1].offset + s[k - 1].bytes == s[k].offset
  }

  lemma {:induction false} RunIsStretch(s: seq<Sample>, i: nat)
    requires 0 < i <= |s|
    ensures Stretch(s, RunStart(s, i), i)
  {
    if !Breaks(s, i - 1) {
      RunIsStretch(s, i - 1);
    }
  }

  /** Cutting the first n samples at these places makes stretches; every cut but the last is in front of a jump. */
  ghost predicate CutsOf(s: seq<Sample>, cuts: seq<nat>, n: nat)
  {
    && |cuts| >= 2 && cuts[0] == 0 && cuts[|cuts| - 1] == n
    && forall j :: 0 <= j < |cuts| - 1 ==> Stretch(s, cuts[j], cuts[j + 1])
  }

  lemma CutAdds(s: seq<Sample>, before: seq<nat>, n: nat)
    requires 1 < n <= |s| && CutsOf(s, before, n - 1) && Stretch(s, n - 1, n)
    ensures CutsOf(s, before + [n], n)
  {
    hide Stretch;
    var cuts := before + [n];
    assert forall j :: 0 <= j < |before| ==> cuts[j] == before[j];
  }

  lemma CutExtends(s: seq<Sample>, before: seq<nat>, n: nat)
    requires 1 < n <= |s| && CutsOf(s, before, n - 1) && Stretch(s, before[|before| - 2], n)
    ensures CutsOf(s, before[|before| - 1 := n], n)
  {
    hide Stretch;
    var last := |before| - 1;
    var cuts := before[last := n];
    assert forall j :: 0 <= j < last ==> cuts[j] == before[j];
  }

  /** The trees of the runs between the cuts. */
  ghost predicate RunsBetween(v: Part, h: Header, cuts: seq<nat>, ts: seq<Tree>, moof: u32)
    requires |v.s| < TWO_32
  {
    && |ts| == |cuts| - 1 && (forall j :: 0 < j < |cuts| ==> cuts[j - 1] < cuts[j] <= |v.s|)
    && forall j :: 0 <= j < |ts| ==> ts[j] == RunTree(v, h, cuts[j], cuts[j + 1], moof)
  }

  lemma RunAdds(v: Part, h: Header, before: seq<nat>, closed: seq<Tree>, a: nat, n: nat, moof: u32)
    requires |v.s| < TWO_32 && |before| >= 2 && before[|before| - 2] == a < before[|before| - 1] == n - 1 < n <= |v.s|
    requires RunsBetween(v, h, before, closed + [RunTree(v, h, a, n - 1, moof)], moof)
    ensures RunsBetween(v, h, before + [n], closed + [RunTree(v, h, a, n - 1, moof)] + [RunTree(v, h, n - 1, n, moof)], moof)
  {
    hide RunTree;
    var cuts := before + [n];
    assert forall j :: 0 <= j < |before| ==> cuts[j] == before[j];
  }

  lemma RunExtends(v: Part, h: Header, before: seq<nat>, closed: seq<Tree>, a: nat, n: nat, moof: u32)
    requires |v.s| < TWO_32 && |before| >= 2 && before[|before| - 2] == a < before[|before| - 1] == n - 1 < n <= |v.s|
    requires RunsBetween(v, h, before, closed + [RunTree(v, h, a, n - 1, moof)], moof)
    ensures RunsBetween(v, h, before[|before| - 1 := n], closed + [RunTree(v, h, a, n, moof)], moof)
  {
    hide RunTree;
    var last := |before| - 1;
    var cuts, ts, us := before[last := n], closed + [RunTree(v, h, a, n - 1, moof)], closed + [RunTree(v, h, a, n, moof)];
    assert forall j :: 0 <= j < last ==> cuts[j] == before[j];
    forall j | 0 <= j < |us|
      ensures us[j] == RunTree(v, h, cuts[j], cuts[j + 1], moof)
    {
      assert j < last - 1 ==> us[j] == ts[j] && ts[j] == RunTree(v, h, before[j], before[j + 1], moof);
    }
  }

  /** One trun for each stretch of samples without a jump: tree j holds the samples from cut j to cut j + 1. */
  lemma {:induction false} RunsAreStretches(v: Part, h: Header, n: nat, moof: u32) returns (cuts: seq<nat>)
    requires 0 < n <= |v.s| < TWO_32
    ensures CutsOf(v.s, cuts, n) && cuts[|cuts| - 2] == RunStart(v.s, n)
    ensures RunsBetween(v, h, cuts, ClosedRuns(v, h, n, moof) + [RunTree(v, h, RunStart(v.s, n), n, moof)], moof)
  {
    hide RunTree, CutsOf, RunsBetween, Stretch;
    RunIsStretch(v.s, n);
    if n == 1 {
      cuts := [0, 1];
      OneCut(v, h, moof);
    } else {
      var before := RunsAreStretches(v, h, n - 1, moof);
      CutsLength(v.s, before, n - 1);
      var a := RunStart(v.s, n - 1);
      if Breaks(v.s, n - 1) {
        CutAdds(v.s, before, n);
        RunAdds(v, h, before, ClosedRuns(v, h, n - 1, moof), a, n, moof);
        cuts := before + [n];
      } else {
        CutExtends(v.s, before, n);
        RunExtends(v, h, before, ClosedRuns(v, h, n - 1, moof), a, n, moof);
        assert ClosedRuns(v, h, n, moof) == ClosedRuns(v, h, n - 1, moof);
        cuts := before[|before| - 1 := n];
      }
    }
  }

  lemma CutsLength(s: seq<Sample>, cuts: seq<nat>, n: nat)
    requires CutsOf(s, cuts, n)
    ensures |cuts| >= 2 && cuts[|cuts| - 1] == n
  {
  }

  lemma OneCut(v: Part, h: Header, moof: u32)
    requires 0 < |v.s| < TWO_32
    ensures CutsOf(v.s, [0, 1], 1) && RunsBetween(v, h, [0, 1], ClosedRuns(v, h, 1, moof) + [RunTree(v, h, RunStart(v.s, 1), 1, moof)], moof)
  {
    hide RunTree;
    assert [0, 1][1] == 1 && Stretch(v.s, 0, 1);
  }

  const TFHD_FLAGS: u32 := TFHD_DEFAULT_FLAGS + TFHD_SAMPLE_DESCRIPTION + TFHD_BASE_IS_MOOF
                           + TFHD_DEFAULT_DURATION + TFHD_DEFAULT_SIZE

  /** The fields of tfhd for a track that has samples, when moof starts at `at`. */
  function HeaderFor(v: Part, at: nat): (h: Header)
    requires |v.s| > 0
    ensures h.flags < 0x100_0000 && h.base == at
  {
    Header(TFHD_FLAGS, at, 1, Gap(v.s, v.turn, 0), v.s[0].bytes,
           if v.audio then DEPENDS_ON_I else NO_SYNC_SAMPLE + DEPENDS_ON_NOT_I)
  }

  /**
   * The defaults are those of the first sample, and a column is announced exactly when some sample of the run
   * deviates: a run of samples alike has none.
   */
  lemma ColumnsIff(v: Part, at: nat, a: nat, b: nat)
    requires a < b <= |v.s|
    ensures var f, s := TrunFlags(v, HeaderFor(v, at), a, b), v.s;
            && (Bit(f, TRUN_DURATION) <==> exists i :: a <= i < b && Gap(s, v.turn, i) != Gap(s, v.turn, 0))
            && (Bit(f, TRUN_SIZE) <==> exists i :: a <= i < b && s[i].bytes != s[0].bytes)
            && (Bit(f, TRUN_COMPOSITION) <==> exists i :: a <= i < b && s[i].pts != s[i].dts)
            && (Bit(f, TRUN_FIRST_FLAGS) <==> s[a].key) && Bit(f, TRUN_DATA_OFFSET) && !Bit(f, TRUN_FLAGS)
    ensures var h := HeaderFor(v, at); (KeyFlags(h.sampleFlags) <==> v.audio) && h.sdi == 1
  {
    hide Gap;
    var h := HeaderFor(v, at);
    FlagBits(v.s[a].key, GapsDiffer(v.s, v.turn, a, b, h.duration), SizesDiffer(v.s, a, b, h.size), Shifted(v.s, a, b));
  }

  function HeadTrees(v: Part, at: nat): (ts: seq<Tree>)
    requires |v.s| > 0 && at < TWO_64
    ensures |ts| == 2
  {
    [Table(TAG_TFHD, TfhdWords(HeaderFor(v, at), v.id)), Table(TAG_TFDT, TfdtWords(v.s[0].dts - v.start))]
  }

  function TrafParts(v: Part, at: nat, moof: u32): seq<Tree>
    requires 0 < |v.s| < TWO_32 && at < TWO_64
  {
    var h, n := HeaderFor(v, at), |v.s|;
    HeadTrees(v, at) + ClosedRuns(v, h, n, moof) + [RunTree(v, h, RunStart(v.s, n), n, moof)]
  }

  function TrafTree(v: Part, at: nat, moof: u32): Tree
    requires 0 < |v.s| < TWO_32 && at < TWO_64
  {
    Node(TAG_TRAF, TrafParts(v, at, moof))
  }

  lemma {:induction false} ClosedPrefix(v: Part, h: Header, i: nat, n: nat, moof: u32)
    requires 0 < i <= n <= |v.s| < TWO_32
    ensures forall t :: t in ClosedRuns(v, h, i, moof) ==> t in ClosedRuns(v, h, n, moof)
  {
    hide RunTree;
    if i < n {
      ClosedPrefix(v, h, i, n - 1, moof);
      forall t | t in ClosedRuns(v, h, i, moof)
        ensures t in ClosedRuns(v, h, n, moof)
      {
        assert t in ClosedRuns(v, h, n - 1, moof);
      }
    }
  }

  lemma TrafPartsFit(v: Part, at: nat, moof: u32)
    requires 0 < |v.s| < TWO_32 && at < TWO_64 && Fits(TrafTree(v, at, moof))
    ensures var ts := TrafParts(v, at, moof);
            && (forall t :: t in ts ==> Fits(t))
            && 8 + SizeOfAll(ts, |ts|) == SizeOf(TrafTree(v, at, moof)) <= UINT32_MAX
  {
    hide TrafParts;
    var ts := TrafParts(v, at, moof);
    forall t | t in ts
      ensures Fits(t)
    {
      var i :| 0 <= i < |ts| && ts[i] == t;
      ChildFits(TrafTree(v, at, moof), i);
    }
  }

  lemma RunFits(v: Part, h: Header, at: nat, i: nat, moof: u32)
    requires 0 < i <= |v.s| < TWO_32 && at < TWO_64 && h == HeaderFor(v, at) && Fits(TrafTree(v, at, moof))
    requires i == |v.s| || Breaks(v.s, i)
    ensures Fits(RunTree(v, h, RunStart(v.s, i), i, moof))
  {
    hide RunTree, Fits;
    TrafPartsFit(v, at, moof);
    var t := RunTree(v, h, RunStart(v.s, i), i, moof);
    if i < |v.s| {
      assert t in ClosedRuns(v, h, i + 1, moof);
      ClosedPrefix(v, h, i + 1, |v.s|, moof);
    }
    assert t in TrafParts(v, at, moof);
  }

  lemma TableSize(tag: u32, ws: seq<u32>)
    ensures SizeOf(Table(tag, ws)) == 8 + 4 * |ws|
  {
  }

  /** An open traf with header boxes and the runs closed before sample i. */
  ghost predicate TrafOpen(io: Stream, v: Part, at: nat, i: nat, moof: u32, pre: seq<byte>, size: int)
    requires 0 < i <= |v.s| < TWO_32 && at < TWO_64
    reads io
  {
    var ts := HeadTrees(v, at) + ClosedRuns(v, HeaderFor(v, at), i, moof);
    && io.Valid()
    && (forall k :: 0 <= k < |ts| ==> Fits(ts[k]))
    && io.done == Opened(pre, TAG_TRAF, ts)
    && size == 8 + SizeOfAll(ts, |ts|)
  }

  lemma HeadFits(v: Part, at: nat, moof: u32)
    requires 0 < |v.s| < TWO_32 && at < TWO_64 && Fits(TrafTree(v, at, moof))
    ensures Fits(HeadTrees(v, at)[0]) && Fits(HeadTrees(v, at)[1])
  {
    hide Fits, HeadTrees, TrafTree, ClosedRuns, RunTree;
    TrafPartsFit(v, at, moof);
    var ts, us := HeadTrees(v, at), TrafParts(v, at, moof);
    assert us[0] == ts[0] && us[1] == ts[1];
    assert us[0] in us && us[1] in us;
  }

  /** The two header boxes go into the open traf one after the other. */
  lemma HeadOpens(v: Part, at: nat, moof: u32, pre: seq<byte>)
    requires 0 < |v.s| < TWO_32 && at < TWO_64 && Fits(TrafTree(v, at, moof))
    ensures var ts := HeadTrees(v, at);
            && Fits(ts[0]) && Fits(ts[1])
            && Opened(pre, TAG_TRAF, ts) == pre + BE32(0) + BE32(TAG_TRAF) + Serialize(ts[0]) + Serialize(ts[1])
            && SizeOfAll(ts, 2) == SizeOf(ts[0]) + SizeOf(ts[1])
  {
    hide Opened, Serialize, SizeOf, SizeOfAll, Fits, BE32, Table, TfhdWords, TfdtWords, TrafTree;
    var ts := HeadTrees(v, at);
    HeadFits(v, at, moof);
    OpenedEmpty(pre, TAG_TRAF);
    OpenedNext(pre, TAG_TRAF, [], ts[0]);
    OpenedNext(pre, TAG_TRAF, [] + [ts[0]], ts[1]);
    assert [] + [ts[0]] + [ts[1]] == ts;
  }

  method BeginTraf(io: Stream, v: Part, h: Header, ghost at: nat, ghost moof: u32) returns (offset: nat, size: nat)
    requires io.Valid() && 0 < |v.s| < TWO_32 && at < TWO_64 && h == HeaderFor(v, at)
    requires Fits(TrafTree(v, at, moof))
    modifies io
    ensures io.base == old(io.base) && io.start == old(io.start) && offset == old(io.pos)
    ensures TrafOpen(io, v, at, 1, moof, old(io.done), size)
  {
    hide Splice, Opened, Serialize, SizeOf, SizeOfAll, Fits, BE32, Table, TfhdWords, TfdtWords;
    ghost var ts := HeadTrees(v, at);
    HeadOpens(v, at, moof, io.done);
    offset := Open(io, TAG_TRAF);
    var a := WriteTfhd(io, h, v.id);
    var b := WriteTfdt(io, v.s[0].dts - v.start);
    TableSize(TAG_TFHD, TfhdWords(h, v.id));
    TableSize(TAG_TFDT, TfdtWords(v.s[0].dts - v.start));
    size := 8 + (a as int) + b as int;
    assert ts + [] == ts;
  }

  method WriteRunAt(io: Stream, v: Part, h: Header, a: nat, b: nat, moof: u32, ghost pre: seq<byte>,
                    ghost ts: seq<Tree>)
    returns (size: u32)
    requires a < b <= |v.s| < TWO_32 && Fits(RunTree(v, h, a, b, moof))
    requires io.Valid() && (forall k :: 0 <= k < |ts| ==> Fits(ts[k])) && io.done == Opened(pre, TAG_TRAF, ts)
    modifies io
    ensures io.Valid() && io.base == old(io.base) && io.start == old(io.start)
    ensures var us := ts + [RunTree(v, h, a, b, moof)];
            && (forall k :: 0 <= k < |us| ==> Fits(us[k]))
            && io.done == Opened(pre, TAG_TRAF, us)
            && SizeOfAll(us, |us|) == SizeOfAll(ts, |ts|) + size as int
  {
    hide Splice, Opened, Serialize, SizeOfAll, Words, TrunWords;
    OpenedNext(pre, TAG_TRAF, ts, RunTree(v, h, a, b, moof));
    TableSize(TAG_TRUN, TrunWords(v, h, a, b, moof));
    size := WriteTrun(io, v, h, a, b, moof);
  }

  /** fmp4_write_traf: one run per stretch of consecutive samples. */
  method WriteTraf(io: Stream, track: FragmentTrack, moofOffset: nat, moof: u32, ghost v: Part) returns (size: u32)
    requires io.Valid() && v == PartOf(track) && 0 < |v.s| < TWO_32 && moofOffset < TWO_64
    requires Fits(TrafTree(v, moofOffset, moof))
    modifies io, track`tfhd
    ensures io.Valid() && io.base == old(io.base) && io.start == old(io.start)
    ensures track.tfhd == HeaderFor(v, moofOffset)
    ensures io.done == old(io.done) + Serialize(TrafTree(v, moofOffset, moof)) && size == SizeOf(TrafTree(v, moofOffset, moof))
  {
    hide Splice, Opened, Serialize, SizeOf, SizeOfAll, Fits, BE32, HeadTrees, RunTree, HeaderFor;
    ghost var pre := io.done;
    var u := PartOf(track);
    track.tfhd := HeaderFor(u, moofOffset);
    var h := track.tfhd;
    var offset, total := BeginTraf(io, u, h, moofOffset, moof);
    var start: nat, i: nat := 0, 1;
    while i < |u.s|
      invariant 0 < i <= |u.s| && start == RunStart(u.s, i) && io.base == old(io.base) && io.start == old(io.start)
      invariant TrafOpen(io, u, moofOffset, i, moof, pre, total)
      invariant track.tfhd == h
    {
      ghost var ts := HeadTrees(u, moofOffset) + ClosedRuns(u, h, i, moof);
      if u.s[i - 1].offset + u.s[i - 1].bytes != u.s[i].offset {
        RunFits(u, h, moofOffset, i, moof);
        var part := WriteRunAt(io, u, h, start, i, moof, pre, ts);
        total := total + part;
        start := i;
        assert ts + [RunTree(u, h, RunStart(u.s, i), i, moof)] == HeadTrees(u, moofOffset) + ClosedRuns(u, h, i + 1, moof);
      } else {
        assert ts == HeadTrees(u, moofOffset) + ClosedRuns(u, h, i + 1, moof);
      }
      i := i + 1;
    }
    RunFits(u, h, moofOffset, i, moof);
    var last := WriteRunAt(io, u, h, start, i, moof, pre, HeadTrees(u, moofOffset) + ClosedRuns(u, h, i, moof));
    TrafPartsFit(u, moofOffset, moof);
    size := total + last as int;
    CloseNode(io, offset, size, pre, TAG_TRAF, TrafParts(u, moofOffset, moof));
  }
}
