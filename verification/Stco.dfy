/** mov-stco.c: chunk building, the chunk offset box and its effect on the samples. */
module Stco {
  import opened Bytes
  import opened Samples
  import opened ChunkTables
  import opened Tracks
  import opened MovStream

  const TAG_STCO: u32 := 0x7374636f
  const TAG_CO64: u32 := 0x636f3634

  /** The scratch fields of the first n samples spell out the chunk list `cs`. */
  ghost predicate Marked(s: seq<Sample>, n: nat, cs: seq<Chunk>)
    requires n <= |s|
  {
    var hs := HeadsOf(s, n);
    && |hs| == |cs|
    && forall j :: 0 <= j < |hs| ==>
         && hs[j].firstChunk == j + 1
         && hs[j].perChunk == cs[j].count
         && hs[j].offset == cs[j].offset
         && hs[j].sdi == cs[j].sdi
  }

  /** The state of mov_build_stco's loop after i samples of `s`; `t` is the track so far. */
  ghost predicate Building(s: seq<Sample>, t: seq<Sample>, i: nat, head: int, bytes: nat, count: nat)
  {
    && i <= |s| && i <= UINT32_MAX
    && SameMedia(s, t)
    && (forall k :: i <= k < |t| ==> t[k] == s[k])
    && count == |ChunksOf(s, i)|
    && Marked(t, i, ChunksOf(s, i))
    && (i == 0 <==> head == -1)
    && (i > 0 ==> 0 <= head < i && Reaches(t, i, head, bytes))
  }

  /** `head` opened the run that the first i samples end in, and `bytes` is the run's length. */
  ghost predicate Reaches(t: seq<Sample>, i: nat, head: nat, bytes: nat)
    requires head < i <= |t|
  {
    && t[head].firstChunk != 0
    && (forall k :: head < k < i ==> t[k].firstChunk == 0)
    && t[head].offset + bytes == t[i - 1].offset + t[i - 1].bytes
    && t[head].sdi == t[i - 1].sdi
  }

  lemma JoinHeads(t: seq<Sample>, i: nat, head: nat, x: Sample)
    requires head < i < |t| && t[head].firstChunk != 0 && x.firstChunk != 0
    requires forall k :: head < k < i ==> t[k].firstChunk == 0
    ensures var hs := HeadsOf(t, i);
            && hs != [] && hs[|hs| - 1] == t[head]
            && HeadsOf(t[i := t[i].(firstChunk := 0)][head := x], i + 1) == hs[|hs| - 1 := x]
  {
    var u := t[i := t[i].(firstChunk := 0)];
    HeadsRewriteLast(t, i, head, x);
    HeadsSame(t, u, i);
    HeadsSame(t, u, head);
    HeadsRewriteLast(u, i, head, x);
  }

  lemma JoinChunks(s: seq<Sample>, t: seq<Sample>, i: nat, head: nat, bytes: nat)
    requires i < |s| == |t| && i < UINT32_MAX
    requires head < i && Reaches(t, i, head, bytes) && SameMedia(s, t)
    requires t[head].offset + bytes == t[i].offset && t[head].sdi == t[i].sdi
    ensures var cs := ChunksOf(s, i); var m := |cs| - 1;
            ChunksOf(s, i + 1) == cs[m := cs[m].(count := cs[m].count + 1)]
  {
    assert Media(s[i]) == Media(t[i]) && Media(s[i - 1]) == Media(t[i - 1]);
  }

  lemma StepJoin(s: seq<Sample>, t: seq<Sample>, i: nat, head: nat, bytes: nat, count: nat)
    requires i < |s| == |t| && i < UINT32_MAX && head < i && Building(s, t, i, head, bytes, count)
    requires t[head].offset + bytes == t[i].offset && t[head].sdi == t[i].sdi
    ensures t[head].perChunk < UINT32_MAX
    ensures var u := t[i := t[i].(firstChunk := 0)];
            Building(s, u[head := u[head].(perChunk := u[head].perChunk + 1)], i + 1, head, bytes + t[i].bytes, count)
  {
    hide HeadsOf, ChunksOf;
    JoinHeads(t, i, head, t[head]);
    var x := t[head].(perChunk := t[head].perChunk + 1);
    JoinHeads(t, i, head, x);
    JoinChunks(s, t, i, head, bytes);
  }

  lemma OpenChunks(s: seq<Sample>, t: seq<Sample>, i: nat, head: int, bytes: nat)
    requires i < |s| == |t| && i < UINT32_MAX && SameMedia(s, t)
    requires i > 0 ==> 0 <= head < i && Reaches(t, i, head, bytes)
    requires i > 0 ==> !(t[head].offset + bytes == t[i].offset && t[head].sdi == t[i].sdi)
    ensures ChunksOf(s, i + 1) == ChunksOf(s, i) + [Chunk(t[i].offset, 1, t[i].sdi)]
  {
    assert Media(s[i]) == Media(t[i]);
    if i > 0 {
      assert Media(s[i - 1]) == Media(t[i - 1]);
    }
  }

  lemma StepOpen(s: seq<Sample>, t: seq<Sample>, i: nat, head: int, bytes: nat, count: nat)
    requires i < |s| == |t| && i < UINT32_MAX && -1 <= head < i && Building(s, t, i, head, bytes, count)
    requires head == -1 || !(t[head].offset + bytes == t[i].offset && t[head].sdi == t[i].sdi)
    ensures Building(s, t[i := t[i].(firstChunk := count + 1, perChunk := 1)], i + 1, i, t[i].bytes, count + 1)
  {
    var u := t[i := t[i].(firstChunk := count + 1, perChunk := 1)];
    HeadsSame(t, u, i);
    assert HeadsOf(u, i + 1) == HeadsOf(t, i) + [u[i]];
    hide HeadsOf, ChunksOf;
    OpenChunks(s, t, i, head, bytes);
  }

  lemma BuildStart(s: seq<Sample>)
    ensures Building(s, s, 0, -1, 0, 0)
  {
  }

  lemma BuildBounds(s: seq<Sample>, t: seq<Sample>, i: nat, head: int, bytes: nat, count: nat)
    requires Building(s, t, i, head, bytes, count)
    ensures |t| == |s| && count <= i && -1 <= head < i && (i == 0 <==> head == -1)
  {
  }

  lemma BuildDone(s: seq<Sample>, t: seq<Sample>, i: nat, head: int, bytes: nat, count: nat)
    requires Building(s, t, i, head, bytes, count)
    ensures |t| == |s| && SameMedia(s, t)
    ensures count == |ChunksOf(s, i)| && Marked(t, i, ChunksOf(s, i))
  {
  }

  method BuildStco(track: Track) returns (count: u32)
    requires track.Valid()
    modifies track`samples
    ensures track.Valid() && SameMedia(old(track.samples), track.samples)
    ensures count == |ChunksOf(old(track.samples), track.sampleCount)|
    ensures Marked(track.samples, track.sampleCount, ChunksOf(old(track.samples), track.sampleCount))
  {
    hide Building, HeadsOf, ChunksOf, SameMedia, Marked;
    ghost var s := track.samples;
    count := 0;
    var i: nat, bytes: nat, head: int := 0, 0, -1;
    BuildStart(s);
    while i < track.sampleCount
      invariant i <= track.sampleCount <= |s|
      invariant Building(s, track.samples, i, head, bytes, count)
    {
      BuildBounds(s, track.samples, i, head, bytes, count);
      var x := track.samples[i];
      if head != -1 && track.samples[head].offset + bytes == x.offset && track.samples[head].sdi == x.sdi {
        StepJoin(s, track.samples, i, head, bytes, count);
        track.samples := track.samples[i := x.(firstChunk := 0)];
        var h := track.samples[head];
        track.samples := track.samples[head := h.(perChunk := h.perChunk + 1)];
        bytes := bytes + x.bytes;
      } else {
        StepOpen(s, track.samples, i, head, bytes, count);
        count := count + 1;
        head := i;
        track.samples := track.samples[i := x.(firstChunk := count, perChunk := 1)];
        bytes := x.bytes;
      }
      i := i + 1;
    }
    BuildDone(s, track.samples, i, head, bytes, count);
  }

  // ---------- writing ----------

  /** Whether mov_write_stco needs 64-bit offsets: it looks at the last sample only. */
  function Wide(s: seq<Sample>, n: nat, d: nat): bool
    requires n <= |s|
  {
    n > 0 && s[n - 1].offset + d > UINT32_MAX
  }

  /** The words of one chunk offset; the narrow box keeps the low 32 bits only. */
  function OffsetWord(offset: u64, wide: bool): seq<u32>
  {
    if wide then [offset / TWO_32, offset % TWO_32] else [ToU32(offset)]
  }

  function OffsetWords(os: seq<u64>, m: nat, wide: bool): (ws: seq<u32>)
    requires m <= |os|
    ensures |ws| == if wide then 2 * m else m
  {
    if m == 0 then [] else OffsetWords(os, m - 1, wide) + OffsetWord(os[m - 1], wide)
  }

  function Offsets(cs: seq<Chunk>, d: nat): (os: seq<u64>)
    requires forall j :: 0 <= j < |cs| ==> cs[j].offset + d < TWO_64
    ensures |os| == |cs| && forall j :: 0 <= j < |cs| ==> os[j] == cs[j].offset + d
  {
    seq(|cs|, j requires 0 <= j < |cs| => cs[j].offset + d)
  }

  function StcoSizeOf(chunks: nat, wide: bool): nat { 16 + chunks * (if wide then 8 else 4) }

  function StcoBox(os: seq<u64>, wide: bool): seq<u32>
    requires StcoSizeOf(|os|, wide) <= UINT32_MAX
  {
    [StcoSizeOf(|os|, wide), if wide then TAG_CO64 else TAG_STCO, 0, |os|] + OffsetWords(os, |os|, wide)
  }

  /** The i-th sample opens the next chunk exactly when its first_chunk is not zero. */
  lemma MarkedStep(s: seq<Sample>, i: nat, n: nat, cs: seq<Chunk>)
    requires i < n <= |s| && Marked(s, n, cs)
    ensures |HeadsOf(s, i + 1)| == |HeadsOf(s, i)| + (if s[i].firstChunk == 0 then 0 else 1)
    ensures s[i].firstChunk != 0 ==>
      var h := |HeadsOf(s, i)|;
      && h < |cs| && s[i].firstChunk == h + 1
      && s[i].offset == cs[h].offset && s[i].perChunk == cs[h].count && s[i].sdi == cs[h].sdi
  {
    HeadsPrefix(s, i + 1, n);
    if s[i].firstChunk != 0 {
      assert HeadsOf(s, i + 1)[|HeadsOf(s, i)|] == s[i];
      assert HeadsOf(s, n)[|HeadsOf(s, i)|] == s[i];
    }
  }

  lemma MarkedEnds(s: seq<Sample>, n: nat, cs: seq<Chunk>)
    requires n <= |s| && Marked(s, n, cs)
    ensures HeadsOf(s, 0) == [] && |HeadsOf(s, n)| == |cs|
  {
  }

  method WriteStco(io: Stream, track: Track, count: u32, ghost cs: seq<Chunk>) returns (size: u32)
    requires io.Valid() && track.Valid()
    requires Marked(track.samples, track.sampleCount, cs) && count == |cs|
    requires forall i :: 0 <= i < track.sampleCount ==> track.samples[i].offset + track.offset < TWO_64
    requires forall j :: 0 <= j < |cs| ==> cs[j].offset + track.offset < TWO_64
    requires StcoSizeOf(count, Wide(track.samples, track.sampleCount, track.offset)) <= UINT32_MAX
    modifies io
    ensures io.Valid() && io.base == old(io.base) && io.start == old(io.start)
    ensures var box := StcoBox(Offsets(cs, track.offset), Wide(track.samples, track.sampleCount, track.offset));
            io.done == old(io.done) + Words(box) && size == 4 * |box|
  {
    hide HeadsOf, Marked, OffsetWords, Words;
    var n, s, d := track.sampleCount, track.samples, track.offset;
    var co64 := n > 0 && s[n - 1].offset + d > UINT32_MAX;
    size := 16 + count * (if co64 then 8 else 4);
    ghost var pre, os := io.done, Offsets(cs, d);
    var tag := if co64 then TAG_CO64 else TAG_STCO;
    io.Header(size, tag, 0, count);
    ghost var header: seq<u32> := [size, tag, 0, count];
    MarkedEnds(s, n, cs);
    OffsetWordsNone(header, os, co64);
    var i: nat := 0;
    while i < n
      invariant i <= n && io.Valid() && io.base == old(io.base) && io.start == old(io.start)
      invariant |HeadsOf(s, i)| <= |cs|
      invariant io.done == pre + Words(header + OffsetWords(os, |HeadsOf(s, i)|, co64))
    {
      MarkedStep(s, i, n, cs);
      ghost var h := |HeadsOf(s, i)|;
      if s[i].firstChunk != 0 {
        ghost var ws := header + OffsetWords(os, h, co64);
        OffsetWordsStep(header, os, h, co64);
        if !co64 {
          io.PutWord(ToU32(s[i].offset + d), pre, ws);
        } else {
          io.PutWord64(s[i].offset + d, pre, ws);
        }
      }
      i := i + 1;
    }
  }

  lemma OffsetWordsNone(header: seq<u32>, os: seq<u64>, wide: bool)
    ensures header + OffsetWords(os, 0, wide) == header
  {
  }

  lemma OffsetWordsStep(header: seq<u32>, os: seq<u64>, m: nat, wide: bool)
    requires m < |os|
    ensures header + OffsetWords(os, m + 1, wide) ==
      header + OffsetWords(os, m, wide) + if wide then [os[m] / TWO_32, os[m] % TWO_32] else [ToU32(os[m])]
  {
  }

  /** mov_stco_size: how much the box grows when `d` more pushes the last chunk past 32 bits. */
  method StcoSize(track: Track, d: nat) returns (growth: nat)
    requires track.Valid()
    ensures growth == Growth(track.samples, track.sampleCount, track.offset, d)
  {
    var n, s := track.sampleCount, track.samples;
    if n < 1 {
      return 0;
    }
    var co64 := s[n - 1].offset + track.offset;
    if co64 > UINT32_MAX || co64 + d <= UINT32_MAX {
      return 0;
    }
    var i: nat, j: nat := 0, 0;
    while i < n
      invariant i <= n && j == |HeadsOf(s, i)|
    {
      if s[i].firstChunk != 0 {
        j := j + 1;
      }
      i := i + 1;
    }
    growth := j * 4;
  }

  /** The growth in terms of the box size: 64-bit entries after the move, 32-bit entries before. */
  function Growth(s: seq<Sample>, n: nat, offset: nat, d: nat): (g: nat)
    requires n <= |s|
    ensures var chunks := |HeadsOf(s, n)|;
            StcoSizeOf(chunks, Wide(s, n, offset + d)) == StcoSizeOf(chunks, Wide(s, n, offset)) + g
  {
    if !Wide(s, n, offset) && Wide(s, n, offset + d) then 4 * |HeadsOf(s, n)| else 0
  }

  // ---------- reading ----------

  /** Entry i of a chunk offset table whose entries start at byte p. */
  function OffsetAt(data: seq<byte>, p: nat, i: nat, wide: bool): u64
    requires p + (i + 1) * (if wide then 8 else 4) <= |data|
  {
    if wide then U64At(data, p + 8 * i) else U32At(data, p + 4 * i)
  }

  method ReadStco(io: Stream, track: Track, wide: bool) returns (r: int)
    requires io.error == 0
    modifies io, track`stco
    ensures io.data == old(io.data) && r == io.error
    ensures var p, w := old(io.pos), if wide then 8 else 4;
            p + 8 <= |io.data| && p + 8 + (U32At(io.data, p + 4) as int) * w <= |io.data| ==>
              && r == 0
              && io.pos == p + 8 + |track.stco| * w
              && |track.stco| == U32At(io.data, p + 4)
              && forall i :: 0 <= i < |track.stco| ==> track.stco[i] == OffsetAt(io.data, p + 8, i, wide)
  {
    ghost var p, d := io.pos, io.data;
    var _ := io.R8();
    var _ := io.R24();
    var entryCount := io.R32();
    ghost var ok := p + 8 <= |d| && p + 8 + (entryCount as int) * (if wide then 8 else 4) <= |d|;
    track.stco := [];
    var i: nat := 0;
    while i < entryCount
      invariant i <= entryCount && |track.stco| == i && io.data == d
      invariant ok ==> io.error == 0 && io.pos == p + 8 + i * (if wide then 8 else 4)
      invariant ok ==> forall k :: 0 <= k < i ==> track.stco[k] == OffsetAt(d, p + 8, k, wide)
    {
      var o: u64;
      if wide {
        o := io.R64();
      } else {
        o := io.R32();
      }
      track.stco := track.stco + [o];
      i := i + 1;
    }
    r := io.error;
  }
}
