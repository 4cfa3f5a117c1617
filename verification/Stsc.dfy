/** mov-stsc.c: the sample-to-chunk box. */
module Stsc {
  import opened Bytes
  import opened Samples
  import opened ChunkTables
  import opened Tracks
  import opened MovStream
  import opened Stco

  const TAG_STSC: u32 := 0x73747363

  function EntryWords(es: seq<StscEntry>, m: nat): (ws: seq<u32>)
    requires m <= |es|
    ensures |ws| == 3 * m
  {
    if m == 0 then []
    else EntryWords(es, m - 1) + [es[m - 1].firstChunk, es[m - 1].perChunk, es[m - 1].sdi]
  }

  function StscBox(es: seq<StscEntry>): seq<u32>
    requires 16 + 12 * |es| <= UINT32_MAX
  {
    [16 + 12 * |es|, TAG_STSC, 0, |es|] + EntryWords(es, |es|)
  }

  /** What the loop of mov_write_stsc knows after i samples: `chunk` is the last entry's chunk. */
  ghost predicate Writing(s: seq<Sample>, i: nat, cs: seq<Chunk>, chunk: int, entry: nat)
    requires i <= |s|
  {
    var h := |HeadsOf(s, i)|;
    && h <= |cs| <= UINT32_MAX
    && entry == |StscOf(cs, h)|
    && (h == 0 <==> chunk == -1)
    && (h > 0 ==> 0 <= chunk < i && s[chunk].perChunk == cs[h - 1].count && s[chunk].sdi == cs[h - 1].sdi)
  }

  lemma WritingStep(s: seq<Sample>, i: nat, n: nat, cs: seq<Chunk>, chunk: int, entry: nat)
    requires i < n <= |s| && Marked(s, n, cs) && Writing(s, i, cs, chunk, entry)
    ensures -1 <= chunk < i
    ensures var h, g := |HeadsOf(s, i)|, |HeadsOf(s, i + 1)|;
            if s[i].firstChunk == 0 || (chunk != -1 && s[chunk].perChunk == s[i].perChunk && s[chunk].sdi == s[i].sdi)
            then Writing(s, i + 1, cs, chunk, entry) && StscOf(cs, g) == StscOf(cs, h)
            else
              && Writing(s, i + 1, cs, i, entry + 1)
              && StscOf(cs, g) == StscOf(cs, h) + [StscEntry(s[i].firstChunk, s[i].perChunk, s[i].sdi)]
  {
    MarkedStep(s, i, n, cs);
  }

  lemma EntryWordsStep(header: seq<u32>, es: seq<StscEntry>, e: StscEntry)
    ensures header + EntryWords(es + [e], |es| + 1) ==
      header + EntryWords(es, |es|) + [e.firstChunk] + [e.perChunk] + [e.sdi]
  {
    EntryWordsSame(es + [e], es, |es|);
    ThreeMore(header, EntryWords(es, |es|), e.firstChunk, e.perChunk, e.sdi);
  }

  lemma ThreeMore(h: seq<u32>, w: seq<u32>, a: u32, b: u32, c: u32)
    ensures h + (w + [a, b, c]) == h + w + [a] + [b] + [c]
  {
  }

  lemma {:induction false} EntryWordsSame(es: seq<StscEntry>, fs: seq<StscEntry>, m: nat)
    requires m <= |es| && m <= |fs| && forall i :: 0 <= i < m ==> es[i] == fs[i]
    ensures EntryWords(es, m) == EntryWords(fs, m)
  {
    if m > 0 {
      EntryWordsSame(es, fs, m - 1);
    }
  }

  lemma WritingStart(s: seq<Sample>, cs: seq<Chunk>, n: nat)
    requires n <= |s| && Marked(s, n, cs) && |cs| <= UINT32_MAX
    ensures Writing(s, 0, cs, -1, 0) && StscOf(cs, 0) == [] && EntryWords([], 0) == []
    ensures |HeadsOf(s, 0)| == 0 && |HeadsOf(s, n)| == |cs|
  {
  }

  method WriteStsc(io: Stream, track: Track, ghost cs: seq<Chunk>) returns (size: u32)
    requires io.Valid() && track.Valid()
    requires Marked(track.samples, track.sampleCount, cs) && |cs| <= UINT32_MAX
    requires 16 + 12 * |StscOf(cs, |cs|)| <= UINT32_MAX
    modifies io
    ensures io.Valid() && io.base == old(io.base) && io.start == old(io.start)
    ensures var box := StscBox(StscOf(cs, |cs|)); io.done == old(io.done) + Words(box) && size == 4 * |box|
  {
    hide HeadsOf, Marked, EntryWords, Words, StscOf, Splice, Writing;
    var n, s := track.sampleCount, track.samples;
    var offset := io.pos;
    ghost var pre := io.done;
    ghost var header: seq<u32> := [0, TAG_STSC, 0, 0];
    io.Header(0, TAG_STSC, 0, 0);
    var i: nat, chunk: int, entry: u32 := 0, -1, 0;
    WritingStart(s, cs, n);
    assert header + [] == header;
    while i < n
      invariant i <= n && io.Valid() && io.base == old(io.base) && io.start == old(io.start)
      invariant Writing(s, i, cs, chunk, entry)
      invariant |HeadsOf(s, i)| <= |cs|
      invariant var es := StscOf(cs, |HeadsOf(s, i)|);
                io.done == pre + Words(header + EntryWords(es, |es|)) && |es| == entry
    {
      WritingStep(s, i, n, cs, chunk, entry);
      WritingBound(s, i + 1, cs);
      ghost var es := StscOf(cs, |HeadsOf(s, i)|);
      var x := s[i];
      if x.firstChunk == 0 || (chunk != -1 && s[chunk].perChunk == x.perChunk && s[chunk].sdi == x.sdi) {
        i := i + 1;
        continue;
      }
      entry := entry + 1;
      chunk := i;
      ghost var ws: seq<u32> := header + EntryWords(es, |es|);
      EntryWordsStep(header, es, StscEntry(x.firstChunk, x.perChunk, x.sdi));
      io.PutWord(x.firstChunk, pre, ws);
      io.PutWord(x.perChunk, pre, ws + [x.firstChunk]);
      io.PutWord(x.sdi, pre, ws + [x.firstChunk] + [x.perChunk]);
      i := i + 1;
    }
    ghost var es := StscOf(cs, |cs|);
    ghost var ws: seq<u32> := header + EntryWords(es, |es|);
    size := 16 + entry * 12;
    io.PatchWord(offset, size, pre, ws, 0);
    io.PatchWord(offset + 12, entry, pre, ws[0 := size], 3);
    assert ws[0 := size][3 := entry] == StscBox(es);
  }

  lemma WritingBound(s: seq<Sample>, i: nat, cs: seq<Chunk>)
    requires i <= |s| && exists chunk, entry :: Writing(s, i, cs, chunk, entry)
    ensures |HeadsOf(s, i)| <= |cs|
  {
  }

  /** Entry i of a sample-to-chunk table whose entries start at byte p. */
  function EntryAt(data: seq<byte>, p: nat, i: nat): StscEntry
    requires p + 12 * i + 12 <= |data|
  {
    StscEntry(U32At(data, p + 12 * i), U32At(data, p + 12 * i + 4), U32At(data, p + 12 * i + 8))
  }

  method ReadStsc(io: Stream, track: Track) returns (r: int)
    requires io.error == 0
    modifies io, track`stsc, track`stscCount
    ensures io.data == old(io.data) && r == io.error
    ensures var p := old(io.pos);
            p + 8 <= |io.data| && p + 8 + 12 * (U32At(io.data, p + 4) as int) <= |io.data| ==>
              && r == 0
              && track.stscCount == U32At(io.data, p + 4)
              && io.pos == p + 8 + 12 * track.stscCount
              && (track.stscCount > 0 ==> |track.stsc| == track.stscCount + 1)
              && forall i :: 0 <= i < track.stscCount ==> i < |track.stsc| && track.stsc[i] == EntryAt(io.data, p + 8, i)
  {
    hide U32At, U16At;
    ghost var p, d := io.pos, io.data;
    var _ := io.R8();
    var _ := io.R24();
    var entryCount := io.R32();
    ghost var ok := p + 8 <= |d| && p + 8 + 12 * (entryCount as int) <= |d|;
    var table: seq<StscEntry> := [];
    var i: nat := 0;
    while i < entryCount
      invariant i <= entryCount && |table| == i && io.data == d
      invariant ok ==> io.error == 0 && io.pos == p + 8 + 12 * i
      invariant ok ==> forall k :: 0 <= k < i ==> table[k] == EntryAt(d, p + 8, k)
    {
      var a := io.R32();
      var b := io.R32();
      var c := io.R32();
      table := table + [StscEntry(a, b, c)];
      i := i + 1;
    }
    // room for the entry that mov_apply_stco adds behind the table
    track.stsc := if entryCount > 0 then table + [StscEntry(0, 0, 0)] else table;
    track.stscCount := entryCount;
    r := io.error;
  }
}
