/** mov-stts.c: decoding times (stts) and composition offsets (ctts). */
module Stts {
  import opened Bytes
  import opened Samples
  import opened RunLength
  import opened Tracks
  import opened MovStream

  const TAG_STTS: u32 := 0x73747473
  const TAG_CTTS: u32 := 0x63747473

  // ---------- building ----------

  /** The delta stored for sample i: a gap that is not positive, and the last one, become 1. */
  function DeltaOf(s: seq<Sample>, n: nat, i: nat): u32
    requires i < n <= |s|
  {
    if i + 1 < n && s[i + 1].dts > s[i].dts then ToU32(s[i + 1].dts - s[i].dts) else 1
  }

  function Deltas(s: seq<Sample>, n: nat): (vs: seq<u32>)
    requires n <= |s|
    ensures |vs| == n && forall i :: 0 <= i < n ==> vs[i] == DeltaOf(s, n, i)
  {
    seq(n, i requires 0 <= i < n => DeltaOf(s, n, i))
  }

  function OffsetsOf(s: seq<Sample>, n: nat): (vs: seq<u32>)
    requires n <= |s|
    ensures |vs| == n && forall i :: 0 <= i < n ==> vs[i] == ToU32(s[i].pts - s[i].dts)
  {
    seq(n, i requires 0 <= i < n => ToU32(s[i].pts - s[i].dts))
  }

  /** The scratch fields of the first n samples spell out the runs `rs`. */
  ghost predicate MarkedRuns(s: seq<Sample>, n: nat, rs: seq<Run>)
    requires n <= |s|
  {
    var hs := HeadsOf(s, n);
    && |hs| == |rs|
    && forall j :: 0 <= j < |hs| ==> hs[j].firstChunk == rs[j].count && hs[j].perChunk == rs[j].value
  }

  /** The state of the compressing loops after i samples: `vs` are the values being compressed. */
  ghost predicate Compressing(s: seq<Sample>, t: seq<Sample>, vs: seq<u32>, i: nat, head: int, count: nat)
  {
    && i <= |vs| <= |s| && i <= UINT32_MAX
    && SameMedia(s, t)
    && (forall k :: i <= k < |t| ==> t[k] == s[k])
    && count == |RunsOf(vs, i)|
    && MarkedRuns(t, i, RunsOf(vs, i))
    && (i == 0 <==> head == -1)
    && (i > 0 ==> 0 <= head < i && OpensLast(t, i, head))
  }

  ghost predicate OpensLast(t: seq<Sample>, i: nat, head: nat)
    requires head < i <= |t|
  {
    t[head].firstChunk != 0 && forall k :: head < k < i ==> t[k].firstChunk == 0
  }

  lemma CompressStart(s: seq<Sample>, vs: seq<u32>)
    requires |vs| <= |s|
    ensures Compressing(s, s, vs, 0, -1, 0)
  {
  }

  lemma CompressBounds(s: seq<Sample>, t: seq<Sample>, vs: seq<u32>, i: nat, head: int, count: nat)
    requires Compressing(s, t, vs, i, head, count)
    ensures |t| == |s| && SameMedia(s, t) && count <= i && -1 <= head < i && (i == 0 <==> head == -1)
    ensures forall k :: 0 <= k < |t| ==> t[k].dts == s[k].dts && t[k].pts == s[k].pts
    ensures count == |RunsOf(vs, i)| && MarkedRuns(t, i, RunsOf(vs, i))
  {
    forall k | 0 <= k < |t|
      ensures t[k].dts == s[k].dts && t[k].pts == s[k].pts
    {
      assert Media(s[k]) == Media(t[k]);
    }
  }

  lemma JoinRunHeads(t: seq<Sample>, i: nat, head: nat, x: Sample)
    requires head < i < |t| && OpensLast(t, i, head) && x.firstChunk != 0
    ensures var hs := HeadsOf(t, i);
            && hs != [] && hs[|hs| - 1] == t[head]
            && HeadsOf(t[i := t[i].(firstChunk := 0)][head := x], i + 1) == hs[|hs| - 1 := x]
  {
    var u := t[i := t[i].(firstChunk := 0)];
    HeadsRewriteLast(t, i, head, x);
    HeadsSame(t, u, i);
    HeadsSame(t, u, head);
    HeadsRewriteLast(u, i, head, x);
  }

  lemma CompressJoin(s: seq<Sample>, t: seq<Sample>, vs: seq<u32>, i: nat, head: nat, count: nat)
    requires i < |vs| && i < |t| && i < UINT32_MAX && head < i && Compressing(s, t, vs, i, head, count)
    requires vs[i] == t[head].perChunk
    ensures 0 < t[head].firstChunk < UINT32_MAX
    ensures var u := t[i := t[i].(firstChunk := 0)];
            Compressing(s, u[head := u[head].(firstChunk := u[head].firstChunk + 1)], vs, i + 1, head, count)
  {
    JoinRunHeads(t, i, head, t[head]);
    var rs := RunsOf(vs, i);
    assert RunsOf(vs, i + 1) == rs[|rs| - 1 := rs[|rs| - 1].(count := rs[|rs| - 1].count + 1)];
    hide HeadsOf, RunsOf;
    JoinRunHeads(t, i, head, t[head].(firstChunk := t[head].firstChunk + 1));
  }

  lemma CompressOpen(s: seq<Sample>, t: seq<Sample>, vs: seq<u32>, i: nat, head: int, count: nat)
    requires i < |vs| && i < |t| && i < UINT32_MAX && -1 <= head < i && Compressing(s, t, vs, i, head, count)
    requires head == -1 || vs[i] != t[head].perChunk
    ensures Compressing(s, t[i := t[i].(firstChunk := 1, perChunk := vs[i])], vs, i + 1, i, count + 1)
  {
    if head != -1 {
      JoinRunHeads(t, i, head, t[head]);
    }
    var u := t[i := t[i].(firstChunk := 1, perChunk := vs[i])];
    HeadsSame(t, u, i);
    assert HeadsOf(u, i + 1) == HeadsOf(t, i) + [u[i]];
    assert RunsOf(vs, i + 1) == RunsOf(vs, i) + [Run(1, vs[i])];
    hide HeadsOf, RunsOf;
  }

  method BuildStts(track: Track) returns (count: u32)
    requires track.Valid()
    modifies track`samples
    ensures track.Valid() && SameMedia(old(track.samples), track.samples)
    ensures var rs := RunsOf(Deltas(old(track.samples), track.sampleCount), track.sampleCount);
            count == |rs| && MarkedRuns(track.samples, track.sampleCount, rs)
  {
    hide Compressing, HeadsOf, RunsOf, SameMedia, MarkedRuns, Deltas;
    var n := track.sampleCount;
    ghost var s, vs := track.samples, Deltas(track.samples, n);
    count := 0;
    var i: nat, head: int := 0, -1;
    CompressStart(s, vs);
    while i < n
      invariant i <= n <= |s| && Compressing(s, track.samples, vs, i, head, count)
    {
      CompressBounds(s, track.samples, vs, i, head, count);
      var t := track.samples;
      var delta: u32 := if i + 1 < n && t[i + 1].dts > t[i].dts then ToU32(t[i + 1].dts - t[i].dts) else 1;
      if head != -1 && delta == t[head].perChunk {
        CompressJoin(s, t, vs, i, head, count);
        track.samples := track.samples[i := t[i].(firstChunk := 0)];
        track.samples := track.samples[head := track.samples[head].(firstChunk := track.samples[head].firstChunk + 1)];
      } else {
        CompressOpen(s, t, vs, i, head, count);
        head := i;
        track.samples := track.samples[i := t[i].(firstChunk := 1, perChunk := delta)];
        count := count + 1;
      }
      i := i + 1;
    }
    CompressBounds(s, track.samples, vs, i, head, count);
  }

  /** Composition offsets a signed 32-bit field can hold. */
  ghost predicate OffsetsFit(s: seq<Sample>, n: nat)
    requires n <= |s|
  {
    forall i :: 0 <= i < n ==> -TWO_31 <= s[i].pts - s[i].dts < TWO_31
  }

  /** Among the first n samples, some sample that opens a run of equal offsets has pts < dts. */
  predicate NeedsV1(s: seq<Sample>, n: nat)
    requires n <= |s|
  {
    n > 0 && (NeedsV1(s, n - 1) || (OpensRun(s, n - 1) && s[n - 1].pts < s[n - 1].dts))
  }

  predicate OpensRun(s: seq<Sample>, i: nat)
    requires i < |s|
  {
    i == 0 || ToU32(s[i].pts - s[i].dts) != ToU32(s[i - 1].pts - s[i - 1].dts)
  }

  /** For offsets that fit a signed word, version 1 is chosen exactly when one is negative. */
  lemma {:induction false} NeedsV1Iff(s: seq<Sample>, n: nat)
    requires n <= |s| && OffsetsFit(s, n)
    ensures NeedsV1(s, n) <==> exists i :: 0 <= i < n && s[i].pts < s[i].dts
  {
    if n > 0 {
      NeedsV1Iff(s, n - 1);
      if s[n - 1].pts < s[n - 1].dts && !OpensRun(s, n - 1) {
        assert s[n - 1].pts - s[n - 1].dts == s[n - 2].pts - s[n - 2].dts;
      }
    }
  }

  method BuildCtts(track: Track) returns (count: u32)
    requires track.Valid()
    modifies track`samples, track`cttsV1
    ensures track.Valid() && SameMedia(old(track.samples), track.samples)
    ensures var rs := RunsOf(OffsetsOf(old(track.samples), track.sampleCount), track.sampleCount);
            count == |rs| && MarkedRuns(track.samples, track.sampleCount, rs)
    ensures track.sampleCount > 0 ==> track.samples[0].firstChunk != 0
    ensures track.cttsV1 == (old(track.cttsV1) || NeedsV1(old(track.samples), track.sampleCount))
  {
    hide Compressing, HeadsOf, RunsOf, SameMedia, MarkedRuns, OffsetsOf;
    var n := track.sampleCount;
    ghost var s, vs := track.samples, OffsetsOf(track.samples, n);
    count := 0;
    var i: nat, head: int := 0, -1;
    CompressStart(s, vs);
    while i < n
      invariant i <= n <= |s| && Compressing(s, track.samples, vs, i, head, count)
      invariant i > 0 ==> 0 <= head < |track.samples| && track.samples[head].perChunk == vs[i - 1]
      invariant i > 0 ==> track.samples[0].firstChunk != 0
      invariant track.cttsV1 == (old(track.cttsV1) || NeedsV1(s, i))
    {
      CompressBounds(s, track.samples, vs, i, head, count);
      var t := track.samples;
      var delta := ToU32(t[i].pts - t[i].dts);
      if i > 0 && delta == t[head].perChunk {
        CompressJoin(s, t, vs, i, head, count);
        track.samples := track.samples[i := t[i].(firstChunk := 0)];
        track.samples := track.samples[head := track.samples[head].(firstChunk := track.samples[head].firstChunk + 1)];
      } else {
        CompressOpen(s, t, vs, i, head, count);
        head := i;
        track.samples := track.samples[i := t[i].(firstChunk := 1, perChunk := delta)];
        count := count + 1;
        if track.samples[i].pts < track.samples[i].dts {
          track.cttsV1 := true;
        }
      }
      i := i + 1;
    }
    CompressBounds(s, track.samples, vs, i, head, count);
  }

  // ---------- writing and reading ----------

  function RunWords(rs: seq<Run>, m: nat): (ws: seq<u32>)
    requires m <= |rs|
    ensures |ws| == 2 * m
  {
    if m == 0 then [] else RunWords(rs, m - 1) + [rs[m - 1].count, rs[m - 1].value]
  }

  function RunBox(tag: u32, version: u32, rs: seq<Run>): seq<u32>
    requires 16 + 8 * |rs| <= UINT32_MAX
  {
    [16 + 8 * |rs|, tag, version, |rs|] + RunWords(rs, |rs|)
  }

  lemma RunStep(s: seq<Sample>, i: nat, n: nat, rs: seq<Run>, header: seq<u32>)
    requires i < n <= |s| && MarkedRuns(s, n, rs) && |HeadsOf(s, i)| <= |rs|
    ensures |HeadsOf(s, i + 1)| == |HeadsOf(s, i)| + (if s[i].firstChunk == 0 then 0 else 1) <= |rs|
    ensures s[i].firstChunk != 0 ==>
      header + RunWords(rs, |HeadsOf(s, i + 1)|) ==
      header + RunWords(rs, |HeadsOf(s, i)|) + [s[i].firstChunk] + [s[i].perChunk]
  {
    HeadsPrefix(s, i + 1, n);
    if s[i].firstChunk != 0 {
      assert HeadsOf(s, i + 1)[|HeadsOf(s, i)|] == s[i];
      assert HeadsOf(s, n)[|HeadsOf(s, i)|] == s[i];
    }
  }

  lemma RunsStart(s: seq<Sample>, n: nat, rs: seq<Run>, header: seq<u32>)
    requires n <= |s| && MarkedRuns(s, n, rs)
    ensures |HeadsOf(s, 0)| == 0 && |HeadsOf(s, n)| == |rs| && header + RunWords(rs, 0) == header
  {
  }

  /** The common text of mov_write_stts and mov_write_ctts. */
  method WriteRuns(io: Stream, track: Track, tag: u32, version: u32, count: u32, ghost rs: seq<Run>)
    returns (size: u32)
    requires io.Valid() && track.Valid()
    requires MarkedRuns(track.samples, track.sampleCount, rs) && count == |rs|
    requires 16 + 8 * |rs| <= UINT32_MAX
    modifies io
    ensures io.Valid() && io.base == old(io.base) && io.start == old(io.start)
    ensures var box := RunBox(tag, version, rs); io.done == old(io.done) + Words(box) && size == 4 * |box|
  {
    hide HeadsOf, MarkedRuns, RunWords, Words, Splice;
    var n, s := track.sampleCount, track.samples;
    size := 16 + count * 8;
    ghost var pre := io.done;
    ghost var header: seq<u32> := [size, tag, version, count];
    io.Header(size, tag, version, count);
    RunsStart(s, n, rs, header);
    var i: nat := 0;
    while i < n
      invariant i <= n && io.Valid() && io.base == old(io.base) && io.start == old(io.start)
      invariant |HeadsOf(s, i)| <= |rs|
      invariant io.done == pre + Words(header + RunWords(rs, |HeadsOf(s, i)|))
    {
      RunStep(s, i, n, rs, header);
      if s[i].firstChunk != 0 {
        ghost var ws := header + RunWords(rs, |HeadsOf(s, i)|);
        io.PutWord(s[i].firstChunk, pre, ws);
        io.PutWord(s[i].perChunk, pre, ws + [s[i].firstChunk]);
      }
      i := i + 1;
    }
  }

  method WriteStts(io: Stream, track: Track, count: u32, ghost rs: seq<Run>) returns (size: u32)
    requires io.Valid() && track.Valid()
    requires MarkedRuns(track.samples, track.sampleCount, rs) && count == |rs|
    requires 16 + 8 * |rs| <= UINT32_MAX
    modifies io
    ensures io.Valid() && io.base == old(io.base) && io.start == old(io.start)
    ensures var box := RunBox(TAG_STTS, 0, rs); io.done == old(io.done) + Words(box) && size == 4 * |box|
  {
    size := WriteRuns(io, track, TAG_STTS, 0, count, rs);
  }

  method WriteCtts(io: Stream, track: Track, count: u32, ghost rs: seq<Run>) returns (size: u32)
    requires io.Valid() && track.Valid()
    requires MarkedRuns(track.samples, track.sampleCount, rs) && count == |rs|
    requires 16 + 8 * |rs| <= UINT32_MAX
    modifies io
    ensures io.Valid() && io.base == old(io.base) && io.start == old(io.start)
    ensures var box := RunBox(TAG_CTTS, if track.cttsV1 then 0x100_0000 else 0, rs);
            io.done == old(io.done) + Words(box) && size == 4 * |box|
  {
    size := WriteRuns(io, track, TAG_CTTS, if track.cttsV1 then 0x100_0000 else 0, count, rs);
  }

  function RunAt(data: seq<byte>, p: nat, i: nat): Run
    requires p + 8 * i + 8 <= |data|
  {
    Run(U32At(data, p + 8 * i), U32At(data, p + 8 * i + 4))
  }

  /** mov_read_stts and mov_read_ctts, which differ only in where they put the table. */
  method ReadRuns(io: Stream) returns (rs: seq<Run>, r: int)
    requires io.error == 0
    modifies io
    ensures io.data == old(io.data) && r == io.error
    ensures var p := old(io.pos);
            p + 8 <= |io.data| && p + 8 + 8 * (U32At(io.data, p + 4) as int) <= |io.data| ==>
              && r == 0
              && |rs| == U32At(io.data, p + 4)
              && io.pos == p + 8 + 8 * |rs|
              && forall i :: 0 <= i < |rs| ==> rs[i] == RunAt(io.data, p + 8, i)
  {
    ghost var p, d := io.pos, io.data;
    var _ := io.R8();
    var _ := io.R24();
    var entryCount := io.R32();
    ghost var ok := p + 8 <= |d| && p + 8 + 8 * (entryCount as int) <= |d|;
    rs := [];
    var i: nat := 0;
    while i < entryCount
      invariant i <= entryCount && |rs| == i && io.data == d
      invariant ok ==> io.error == 0 && io.pos == p + 8 + 8 * i
      invariant ok ==> forall k :: 0 <= k < i ==> rs[k] == RunAt(d, p + 8, k)
    {
      var count := io.R32();
      var value := io.R32();
      rs := rs + [Run(count, value)];
      i := i + 1;
    }
    r := io.error;
  }
}
