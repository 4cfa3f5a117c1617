/** mov-writer.c: recording samples into mdat and finishing the file. */
module MovWriter {
  import opened Bytes
  import opened Samples
  import opened Tracks
  import opened MovStream
  import opened Boxes
  import opened Stsz
  import opened TrackWriter
  import opened Moov

  const ENOENT: int := 2
  const TAG_FTYP: u32 := 0x66747970
  const TAG_MDAT: u32 := 0x6d646174
  const TAG_FREE: u32 := 0x66726565
  const TAG_PWDT: u32 := 0x70776474
  const TAG_SKIP: u32 := 0x736b6970
  const CAPACITY_STEP: int := 1024
  const PW_DATA_LEN: int := 4
  const MOOV_LEN: int := 204800

  /** What the caller of mov_writer_write says about a sample; times in milliseconds. */
  datatype Given = Given(pts: int, dts: int, key: bool)

  /** A time in milliseconds, in units of a track, rounded toward zero. */
  function InTrackTime(ms: int, timescale: u32): (t: int)
    ensures ms * timescale >= 0 ==> t >= 0 && 1000 * t <= ms * timescale < 1000 * t + 1000
    ensures ms * timescale <= 0 ==> t <= 0 && 1000 * t - 1000 < ms * timescale <= 1000 * t
    ensures timescale == 1000 ==> t == ms
  {
    TruncDiv(ms * timescale, 1000)
  }

  /** The sample keeps what its caller said. */
  predicate Keeps(x: Sample, g: Given, timescale: u32)
  {
    x.pts == InTrackTime(g.pts, timescale) && x.dts == InTrackTime(g.dts, timescale) && x.key == g.key
  }

  ghost predicate AllKept(s: seq<Sample>, n: nat, given: seq<Given>, timescale: u32)
  {
    n == |given| && n <= |s| && forall k :: 0 <= k < n ==> Keeps(s[k], given[k], timescale)
  }

  lemma AllKeptSame(s: seq<Sample>, s': seq<Sample>, n: nat, given: seq<Given>, timescale: u32)
    requires AllKept(s, n, given, timescale) && n <= |s'|
    requires forall k :: 0 <= k < n ==> Media(s[k]) == Media(s'[k])
    ensures AllKept(s', n, given, timescale)
  {
    hide InTrackTime;
    forall k | 0 <= k < n
      ensures Keeps(s'[k], given[k], timescale)
    {
      assert Keeps(s[k], given[k], timescale) && Media(s[k]) == Media(s'[k]);
    }
  }

  lemma AllKeptGrows(s: seq<Sample>, n: nat, given: seq<Given>, timescale: u32, x: Sample, g: Given)
    requires AllKept(s, n, given, timescale) && n < |s| && Keeps(x, g, timescale)
    ensures AllKept(s[n := x], n + 1, given + [g], timescale)
  {
    hide Keeps;
  }

  /** One media block in the order of writing: which sample it became and where it lies. */
  datatype Block = Block(track: nat, index: nat, offset: nat, bytes: nat)

  /** The blocks lie back to back from `lo` to `hi`. */
  ghost predicate BackToBack(log: seq<Block>, lo: nat, hi: nat)
  {
    && (|log| == 0 ==> lo == hi)
    && (|log| > 0 ==> log[0].offset == lo && log[|log| - 1].offset + log[|log| - 1].bytes == hi)
    && forall i :: 0 < i < |log| ==> log[i].offset == log[i - 1].offset + log[i - 1].bytes
  }

  lemma {:induction false} BlocksAscend(log: seq<Block>, lo: nat, hi: nat, i: nat, j: nat)
    requires BackToBack(log, lo, hi) && i < j < |log|
    ensures log[i].offset + log[i].bytes <= log[j].offset
  {
    if i < j - 1 {
      BlocksAscend(log, lo, hi, i, j - 1);
    }
  }

  lemma {:induction false} BlocksInside(log: seq<Block>, lo: nat, hi: nat, i: nat)
    requires BackToBack(log, lo, hi) && i < |log|
    ensures lo <= log[i].offset && log[i].offset + log[i].bytes <= hi
  {
    if i > 0 {
      BlocksAscend(log, lo, hi, 0, i);
    }
    if i < |log| - 1 {
      BlocksAscend(log, lo, hi, i, |log| - 1);
    }
  }

  function BlockSum(log: seq<Block>, n: nat): nat
    requires n <= |log|
  {
    if n == 0 then 0 else BlockSum(log, n - 1) + log[n - 1].bytes
  }

  /** The block sizes add up to the bytes they cover. */
  lemma {:induction false} BlocksSum(log: seq<Block>, lo: nat, hi: nat, n: nat)
    requires BackToBack(log, lo, hi) && n <= |log|
    ensures BlockSum(log, n) + lo == if n == 0 then lo else log[n - 1].offset + log[n - 1].bytes
  {
    if n > 0 {
      BlocksSum(log, lo, hi, n - 1);
    }
  }

  /**
   * The first n samples of track `t` are the blocks `at`, in writing order, and the file holds
   * at each of them the bytes `w` that were handed over.
   */
  ghost predicate Recorded(t: nat, s: seq<Sample>, n: nat, log: seq<Block>, at: seq<nat>, w: seq<seq<byte>>,
                           data: seq<byte>)
  {
    && n <= |s| && |at| == |w| == n
    && (forall k :: 0 <= k < n ==> RecordedAt(t, s, k, log, at, w, data))
    && (forall k :: 0 < k < n ==> at[k - 1] < at[k])
  }

  ghost predicate RecordedAt(t: nat, s: seq<Sample>, k: nat, log: seq<Block>, at: seq<nat>, w: seq<seq<byte>>,
                             data: seq<byte>)
    requires k < |s| && k < |at| && k < |w|
  {
    && at[k] < |log| && log[at[k]] == Block(t, k, s[k].offset, s[k].bytes)
    && s[k].offset + s[k].bytes <= |data|
    && data[s[k].offset..s[k].offset + s[k].bytes] == w[k]
    && s[k].sdi == 1
  }

  lemma RecordedCount(t: nat, s: seq<Sample>, n: nat, log: seq<Block>, at: seq<nat>, w: seq<seq<byte>>, data: seq<byte>)
    requires Recorded(t, s, n, log, at, w, data)
    ensures |at| == n
  {
  }

  /** Appending to the file and to the log keeps what was recorded. */
  lemma RecordedKeeps(t: nat, s: seq<Sample>, s': seq<Sample>, n: nat, log: seq<Block>, log': seq<Block>,
                      at: seq<nat>, w: seq<seq<byte>>, data: seq<byte>, data': seq<byte>)
    requires Recorded(t, s, n, log, at, w, data)
    requires n <= |s'| && forall k :: 0 <= k < n ==> s'[k] == s[k]
    requires log <= log' && data <= data'
    ensures Recorded(t, s', n, log', at, w, data')
  {
    forall k | 0 <= k < n
      ensures RecordedAt(t, s', k, log', at, w, data')
    {
      assert RecordedAt(t, s, k, log, at, w, data);
      var o, b := s[k].offset, s[k].bytes;
      assert data'[o..o + b] == data[o..o + b];
    }
  }

  lemma RecordedGrows(t: nat, s: seq<Sample>, n: nat, log: seq<Block>, at: seq<nat>, w: seq<seq<byte>>,
                      data: seq<byte>, x: Sample, block: seq<byte>)
    requires Recorded(t, s, n, log, at, w, data) && n < |s|
    requires x.offset == |data| && x.bytes == |block| && x.sdi == 1
    ensures Recorded(t, s[n := x], n + 1, log + [Block(t, n, x.offset, |block|)], at + [|log|], w + [block], data + block)
  {
    var u, log' := s[n := x], log + [Block(t, n, x.offset, |block|)];
    RecordedKeeps(t, s, u, n, log, log', at, w, data, data + block);
    forall k | 0 <= k < n + 1
      ensures RecordedAt(t, u, k, log', at + [|log|], w + [block], data + block)
    {
      if k < n {
        assert RecordedAt(t, u, k, log', at, w, data + block);
      } else {
        assert (data + block)[|data|..|data| + |block|] == block;
      }
    }
    forall k | 0 < k < n + 1
      ensures (at + [|log|])[k - 1] < (at + [|log|])[k]
    {
      assert RecordedAt(t, s, k - 1, log, at, w, data);
    }
  }

  /** Block i of the log is the sample it names: `at` lists the blocks of each track. */
  ghost predicate InBooks(b: Block, i: nat, at: seq<seq<nat>>)
  {
    b.track < |at| && b.index < |at[b.track]| && at[b.track][b.index] == i
  }

  /** No block belongs to no sample. */
  ghost predicate AllLogged(log: seq<Block>, at: seq<seq<nat>>)
  {
    forall i :: 0 <= i < |log| ==> InBooks(log[i], i, at)
  }

  lemma LoggedGrows(log: seq<Block>, at: seq<seq<nat>>, b: Block)
    requires AllLogged(log, at) && b.track < |at| && b.index == |at[b.track]|
    ensures AllLogged(log + [b], at[b.track := at[b.track] + [|log|]])
  {
    var log', at' := log + [b], at[b.track := at[b.track] + [|log|]];
    forall i | 0 <= i < |log'|
      ensures InBooks(log'[i], i, at')
    {
      if i < |log| {
        assert InBooks(log[i], i, at);
      }
    }
  }

  lemma LoggedWithTrack(log: seq<Block>, at: seq<seq<nat>>)
    requires AllLogged(log, at)
    ensures AllLogged(log, at + [[]])
  {
    forall i | 0 <= i < |log|
      ensures InBooks(log[i], i, at + [[]])
    {
      assert InBooks(log[i], i, at);
    }
  }

  /** Bytes of the first n blocks that belong to track t. */
  function TrackBytes(log: seq<Block>, n: nat, t: nat): nat
    requires n <= |log|
  {
    if n == 0 then 0 else TrackBytes(log, n - 1, t) + if log[n - 1].track == t then log[n - 1].bytes else 0
  }

  /** The same for the tracks below m together. */
  function TracksBytes(log: seq<Block>, n: nat, m: nat): nat
    requires n <= |log|
  {
    if m == 0 then 0 else TracksBytes(log, n, m - 1) + TrackBytes(log, n, m - 1)
  }

  lemma {:induction false} TracksStep(log: seq<Block>, n: nat, m: nat)
    requires 0 < n <= |log|
    ensures TracksBytes(log, n, m) == TracksBytes(log, n - 1, m) + if log[n - 1].track < m then log[n - 1].bytes else 0
  {
    if m > 0 {
      TracksStep(log, n, m - 1);
    }
  }

  lemma {:induction false} TracksAreAll(log: seq<Block>, n: nat, m: nat)
    requires n <= |log| && forall i :: 0 <= i < n ==> log[i].track < m
    ensures TracksBytes(log, n, m) == BlockSum(log, n)
  {
    if n == 0 {
      NoBytes(log, m);
    } else {
      TracksStep(log, n, m);
      TracksAreAll(log, n - 1, m);
    }
  }

  lemma {:induction false} NoBytes(log: seq<Block>, m: nat)
    ensures TracksBytes(log, 0, m) == 0
  {
    if m > 0 {
      NoBytes(log, m - 1);
    }
  }

  lemma {:induction false} Ascends(a: seq<nat>, i: nat, j: nat)
    requires i <= j < |a| && forall k :: 0 < k < |a| ==> a[k - 1] < a[k]
    ensures a[i] <= a[j] && (i < j ==> a[i] < a[j])
  {
    if i < j {
      Ascends(a, i, j - 1);
    }
  }

  /** Up to block n the track has its first k samples: the blocks of a track are its samples and nothing else. */
  lemma {:induction false} TrackBytesAre(t: nat, s: seq<Sample>, m: nat, log: seq<Block>, at: seq<seq<nat>>,
                                         w: seq<seq<byte>>, data: seq<byte>, n: nat, k: nat)
    requires AllLogged(log, at) && t < |at| && Recorded(t, s, m, log, at[t], w, data)
    requires n <= |log| && k <= m <= |s|
    requires (k > 0 ==> at[t][k - 1] < n) && (k < m ==> n <= at[t][k])
    ensures TrackBytes(log, n, t) == ByteSum(s, 0, k)
    decreases n
  {
    if n > 0 {
      var b := log[n - 1];
      if b.track == t {
        assert InBooks(b, n - 1, at);
        assert RecordedAt(t, s, b.index, log, at[t], w, data);
        if b.index < k - 1 {
          Ascends(at[t], b.index, k - 1);
        } else if b.index >= k {
          Ascends(at[t], k, b.index);
        }
        assert b.index == k - 1;
        if k > 1 {
          Ascends(at[t], k - 2, k - 1);
        }
        TrackBytesAre(t, s, m, log, at, w, data, n - 1, k - 1);
      } else {
        if k > 0 {
          assert RecordedAt(t, s, k - 1, log, at[t], w, data);
        }
        TrackBytesAre(t, s, m, log, at, w, data, n - 1, k);
      }
    } else if k > 0 {
      assert false;
    }
  }

  /** Bytes of all samples of the first m tracks. */
  ghost function SampleBytes(tracks: seq<Track>, m: nat): nat
    requires m <= |tracks| && forall j :: 0 <= j < m ==> tracks[j].Valid()
    reads tracks
  {
    if m == 0 then 0
    else
      var t := tracks[m - 1];
      assert t.Valid();
      SampleBytes(tracks, m - 1) + ByteSum(t.samples, 0, t.sampleCount)
  }

  lemma LogGrows(log: seq<Block>, lo: nat, hi: nat, b: Block)
    requires BackToBack(log, lo, hi) && b.offset == hi
    ensures BackToBack(log + [b], lo, hi + b.bytes)
  {
  }

  // ---------- the boxes in front of the media data ----------

  /** With a hole reserved for moov: ftyp, then pwdt around its four bytes, then the hole, then mdat. */
  ghost predicate Fronted(d: seq<byte>, free: nat, moov: nat, mdat: nat)
  {
    && 16 <= free && free + PW_DATA_LEN == moov && moov + 8 + MOOV_LEN == mdat && mdat + 8 <= |d|
    && U32At(d, 0) == free - 8 && U32At(d, 4) == TAG_FTYP
    && U32At(d, free - 8) == 8 + PW_DATA_LEN && U32At(d, free - 4) == TAG_PWDT
    && U32At(d, mdat + 4) == TAG_MDAT
  }

  /** Without a hole: ftyp, then an empty free box, then mdat. */
  ghost predicate Headed(d: seq<byte>, mdat: nat)
  {
    && 16 <= mdat && mdat + 8 <= |d|
    && U32At(d, 0) == mdat - 8 && U32At(d, 4) == TAG_FTYP
    && U32At(d, mdat - 8) == 8 && U32At(d, mdat - 4) == TAG_FREE
    && U32At(d, mdat + 4) == TAG_MDAT
  }

  /** A word is read from the four bytes under it. */
  lemma SameWord(d: seq<byte>, e: seq<byte>, p: nat)
    requires p + 4 <= |d| && p + 4 <= |e| && d[p..p + 4] == e[p..p + 4]
    ensures U32At(d, p) == U32At(e, p)
  {
    U32AtSlice(d, p, 4, 0);
    U32AtSlice(e, p, 4, 0);
  }

  lemma FrontedGrows(d: seq<byte>, x: seq<byte>, free: nat, moov: nat, mdat: nat)
    requires Fronted(d, free, moov, mdat)
    ensures Fronted(d + x, free, moov, mdat)
  {
    var e := d + x;
    forall p: nat | p + 4 <= |d|
      ensures U32At(e, p) == U32At(d, p)
    {
      assert e[p..p + 4] == d[p..p + 4];
      SameWord(d, e, p);
    }
  }

  lemma HeadedGrows(d: seq<byte>, x: seq<byte>, mdat: nat)
    requires Headed(d, mdat)
    ensures Headed(d + x, mdat)
  {
    var e := d + x;
    forall p: nat | p + 4 <= |d|
      ensures U32At(e, p) == U32At(d, p)
    {
      assert e[p..p + 4] == d[p..p + 4];
      SameWord(d, e, p);
    }
  }

  lemma WordInside(a: seq<byte>, v: u32, b: seq<byte>)
    ensures U32At(a + BE32(v) + b, |a|) == v
  {
    var d := a + BE32(v) + b;
    BE32Decodes(v);
    assert d[|a|..|a| + 4] == BE32(v);
    U32AtSlice(d, |a|, 4, 0);
    assert BE32(v)[0..4] == BE32(v);
  }

  /** The bytes WritePreamble emits with a hole; `box` is the ftyp box behind its size field. */
  ghost function FrontBytes(size: u32, rest: seq<byte>): seq<byte>
  {
    BE32(size) + BE32(TAG_FTYP) + rest + BE32(8 + PW_DATA_LEN) + BE32(TAG_PWDT) + seq(PW_DATA_LEN, _ => 0)
    + BE32(8) + BE32(TAG_MOOV) + seq(MOOV_LEN, _ => 0) + BE32(0) + BE32(TAG_MDAT)
  }

  lemma FrontBytesFronted(size: u32, rest: seq<byte>)
    requires size == 8 + |rest|
    ensures |FrontBytes(size, rest)| == size + 8 + PW_DATA_LEN + 8 + MOOV_LEN + 8
    ensures Fronted(FrontBytes(size, rest), size + 8, size + 8 + PW_DATA_LEN, size + 8 + PW_DATA_LEN + 8 + MOOV_LEN)
  {
    hide BE32, U32At;
    var z4, zs: seq<byte> := seq(PW_DATA_LEN, _ => 0), seq(MOOV_LEN, _ => 0);
    var a, b := BE32(size) + BE32(TAG_FTYP) + rest, z4 + BE32(8) + BE32(TAG_MOOV) + zs + BE32(0) + BE32(TAG_MDAT);
    var d := FrontBytes(size, rest);
    assert d == [] + BE32(size) + (BE32(TAG_FTYP) + rest + BE32(12) + BE32(TAG_PWDT) + b);
    WordInside([], size, BE32(TAG_FTYP) + rest + BE32(12) + BE32(TAG_PWDT) + b);
    assert d == BE32(size) + BE32(TAG_FTYP) + (rest + BE32(12) + BE32(TAG_PWDT) + b);
    WordInside(BE32(size), TAG_FTYP, rest + BE32(12) + BE32(TAG_PWDT) + b);
    assert d == a + BE32(12) + (BE32(TAG_PWDT) + b);
    WordInside(a, 12, BE32(TAG_PWDT) + b);
    assert d == a + BE32(12) + BE32(TAG_PWDT) + b;
    WordInside(a + BE32(12), TAG_PWDT, b);
    var c := a + BE32(12) + BE32(TAG_PWDT) + z4 + BE32(8) + BE32(TAG_MOOV) + zs + BE32(0);
    assert d == c + BE32(TAG_MDAT) + [];
    WordInside(c, TAG_MDAT, []);
  }

  lemma HeadBytesHeaded(size: u32, rest: seq<byte>)
    requires size == 8 + |rest|
    ensures Headed(BE32(size) + BE32(TAG_FTYP) + rest + BE32(8) + BE32(TAG_FREE) + BE32(0) + BE32(TAG_MDAT), size + 8)
  {
    hide BE32, U32At;
    var f, b := BE32(size) + BE32(TAG_FTYP) + rest, BE32(0) + BE32(TAG_MDAT);
    var d := f + BE32(8) + BE32(TAG_FREE) + BE32(0) + BE32(TAG_MDAT);
    assert d == [] + BE32(size) + (BE32(TAG_FTYP) + rest + BE32(8) + BE32(TAG_FREE) + b);
    WordInside([], size, BE32(TAG_FTYP) + rest + BE32(8) + BE32(TAG_FREE) + b);
    assert d == BE32(size) + BE32(TAG_FTYP) + (rest + BE32(8) + BE32(TAG_FREE) + b);
    WordInside(BE32(size), TAG_FTYP, rest + BE32(8) + BE32(TAG_FREE) + b);
    assert d == f + BE32(8) + (BE32(TAG_FREE) + b);
    WordInside(f, 8, BE32(TAG_FREE) + b);
    assert d == f + BE32(8) + BE32(TAG_FREE) + b;
    WordInside(f + BE32(8), TAG_FREE, b);
    var c := f + BE32(8) + BE32(TAG_FREE) + BE32(0);
    assert d == c + BE32(TAG_MDAT) + [];
    WordInside(c, TAG_MDAT, []);
  }

  /** pwdt with its four bytes, then a moov box that stands for the reserved space. */
  method WriteHole(io: Stream) returns (free: nat, moov: nat)
    requires io.Valid()
    modifies io
    ensures io.Valid() && io.base == old(io.base) && io.start == old(io.start)
    ensures free == old(io.pos) + 8 && moov == free + PW_DATA_LEN
    ensures io.done == old(io.done) + BE32(8 + PW_DATA_LEN) + BE32(TAG_PWDT) + seq(PW_DATA_LEN, _ => 0)
                       + BE32(8) + BE32(TAG_MOOV) + seq(MOOV_LEN, _ => 0)
  {
    hide Splice, BE32;
    io.W32(8 + PW_DATA_LEN);
    io.W32(TAG_PWDT);
    free := io.pos;
    io.Write(seq(PW_DATA_LEN, _ => 0));
    moov := io.pos;
    io.W32(8);
    io.W32(TAG_MOOV);
    io.Write(seq(MOOV_LEN, _ => 0));
  }

  /** Everything in front of the media data, up to and including the header of mdat. */
  method WritePreamble(io: Stream, ftyp: Tree, reserve: bool) returns (moov: nat, free: nat, mdat: nat)
    requires io.Valid() && io.data == [] && io.start == 0 && io.base == [] && io.done == []
    requires ftyp.Leaf? && ftyp.tag == TAG_FTYP && Fits(ftyp)
    modifies io
    ensures io.Valid() && 8 <= mdat && mdat + 8 == io.pos == |io.data|
    ensures if reserve then Fronted(io.data, free, moov, mdat) else Headed(io.data, mdat)
  {
    hide Splice, BE32, Fronted, Headed;
    var size := WriteLeaf(io, ftyp);
    ghost var rest := ftyp.payload;
    assert io.done == BE32(size) + BE32(TAG_FTYP) + rest;
    moov, free := 0, 0;
    if reserve {
      free, moov := WriteHole(io);
    } else {
      io.W32(8);
      io.W32(TAG_FREE);
    }
    mdat := io.pos;
    io.W32(0);
    io.W32(TAG_MDAT);
    WholeFile(io);
    if reserve {
      FrontBytesFronted(size, rest);
      assert io.done == FrontBytes(size, rest);
    } else {
      HeadBytesHeaded(size, rest);
    }
  }

  /** A file written from nothing is what was written. */
  lemma WholeFile(io: Stream)
    requires io.Valid() && io.base == [] && io.start == 0
    ensures io.data == io.done && io.pos == |io.data|
  {
  }

  class MovWriter {
    const io: Stream
    const frame: Frame
    var tracks: seq<Track>
    const reserve: bool           // MOV_FLAG_COSTUM_FASTSTART
    var mdatOffset: nat
    var mdatSize: nat
    var moovOffset: nat           // start of the reserved hole
    var freeDataOffset: nat       // start of the four bytes inside pwdt

    ghost var log: seq<Block>
    ghost var at: seq<seq<nat>>
    ghost var written: seq<seq<seq<byte>>>
    ghost var given: seq<seq<Given>>

    ghost predicate TrackOk(j: nat)
      requires j < |tracks| && j < |at| && j < |written|
      reads this, io, tracks
    {
      var t := tracks[j];
      && t.Valid() && LeavesReady(t) && t.offset == 0 && t.timescale > 0
      && Recorded(j, t.samples, t.sampleCount, log, at[j], written[j], io.data)
      && j < |given| && AllKept(t.samples, t.sampleCount, given[j], t.timescale)
    }

    /** While recording, the position is the end of mdat, which is the end of the file. */
    ghost predicate Valid()
      reads this, io, tracks
    {
      && io.Valid() && frame.Valid()
      && 8 <= mdatOffset
      && io.pos == |io.data| == mdatOffset + 8 + mdatSize
      && (if reserve then Fronted(io.data, freeDataOffset, moovOffset, mdatOffset) else Headed(io.data, mdatOffset))
      && BackToBack(log, mdatOffset + 8, |io.data|)
      && |at| == |written| == |given| == |tracks| && AllLogged(log, at)
      && (forall i, j :: 0 <= i < j < |tracks| ==> tracks[i] != tracks[j])
      && forall j :: 0 <= j < |tracks| ==> TrackOk(j)
    }

    /**
     * mov_writer_create. The ordinary layout leaves a free box in front of mdat, so that a large
     * mdat can take a 64-bit header; the other layout reserves a hole for moov in front of mdat.
     */
    constructor (ftyp: Tree, frame: Frame, reserve: bool)
      requires ftyp.Leaf? && ftyp.tag == TAG_FTYP && Fits(ftyp) && frame.Valid()
      ensures Valid() && fresh(io) && tracks == [] && mdatSize == 0 && this.frame == frame
      ensures this.reserve == reserve
    {
      var s := new Stream([]);
      var moov, free, mdat := WritePreamble(s, ftyp, reserve);
      moovOffset, freeDataOffset, mdatOffset := moov, free, mdat;
      io, this.frame, this.reserve := s, frame, reserve;
      tracks, mdatSize := [], 0;
      log, at, written, given := [], [], [], [];
    }

    /** realloc in steps of 1024 samples. */
    static method Reserve(t: Track)
      requires t.Valid()
      modifies t`samples
      ensures t.Valid() && t.sampleCount + 1 < |t.samples| && old(t.samples) <= t.samples
    {
      if t.sampleCount + 1 >= |t.samples| {
        t.samples := t.samples + seq(CAPACITY_STEP, _ => EMPTY_SAMPLE);
      }
    }

    /** The sample that mov_writer_write stores for a block written at position `offset`. */
    static function SampleOf(offset: nat, bytes: u32, pts: int, dts: int, timescale: u32, key: bool): (x: Sample)
      ensures x.offset == offset && x.bytes == bytes && x.sdi == 1 && Keeps(x, Given(pts, dts, key), timescale)
    {
      EMPTY_SAMPLE.(offset := offset, sdi := 1, bytes := bytes, key := key,
        pts := TruncDiv(pts * timescale, 1000), dts := TruncDiv(dts * timescale, 1000))
    }

    /** Appends the block to the file, its sample to the track and both to the books. */
    method Store(t: Track, track: nat, block: seq<byte>, pts: int, dts: int, key: bool)
      requires Valid() && |block| <= UINT32_MAX && track < |tracks| && t == tracks[track] && t.sampleCount < UINT32_MAX
      modifies this`mdatSize, this`log, this`at, this`written, this`given, io, t`samples, t`sampleCount
      ensures io.Valid() && io.pos == |io.data| && io.data == old(io.data) + block
      ensures mdatSize == old(mdatSize) + |block|
      ensures BackToBack(log, mdatOffset + 8, |io.data|) && old(log) <= log && AllLogged(log, at)
      ensures written == old(written)[track := old(written)[track] + [block]]
      ensures |at| == |old(at)| && forall j :: 0 <= j < |at| && j != track ==> at[j] == old(at)[j]
      ensures given == old(given)[track := old(given)[track] + [Given(pts, dts, key)]]
      ensures var n := old(t.sampleCount);
              && n <= |old(t.samples)| && t.sampleCount == n + 1 <= |t.samples|
              && t.samples[..n] == old(t.samples)[..n]
              && t.samples[n] == SampleOf(|old(io.data)|, |block|, pts, dts, t.timescale, key)
              && Recorded(track, t.samples, n + 1, log, at[track], written[track], io.data)
              && AllKept(t.samples, n + 1, given[track], t.timescale)
    {
      hide Splice, RecordedAt, BackToBack, Recorded, TruncDiv, AllLogged, AllKept, Keeps;
      assert TrackOk(track);
      RecordedCount(track, t.samples, t.sampleCount, log, at[track], written[track], io.data);
      var n := t.sampleCount;
      ghost var data, s := io.data, t.samples;
      Reserve(t);
      AllKeptSame(s, t.samples, n, given[track], t.timescale);
      RecordedKeeps(track, s, t.samples, n, log, log, at[track], written[track], data, data);
      var x := SampleOf(io.pos, |block|, pts, dts, t.timescale, key);
      io.Write(block);
      SpliceAtEnd(data, block);
      RecordedGrows(track, t.samples, n, log, at[track], written[track], data, x, block);
      LogGrows(log, mdatOffset + 8, |data|, Block(track, n, x.offset, |block|));
      AllKeptGrows(t.samples, n, given[track], t.timescale, x, Given(pts, dts, key));
      LoggedGrows(log, at, Block(track, n, x.offset, |block|));
      t.samples := t.samples[n := x];
      t.sampleCount := n + 1;
      mdatSize := mdatSize + |block|;
      at := at[track := at[track] + [|log|]];
      log := log + [Block(track, n, x.offset, |block|)];
      written := written[track := written[track] + [block]];
      given := given[track := given[track] + [Given(pts, dts, key)]];
    }

    /**
     * mov_writer_write; `block` is what the data callback actually appended. Valid() says what became of the
     * block and of the times and the key flag handed over with it.
     */
    method Write(track: int, block: seq<byte>, pts: int, dts: int, key: bool) returns (r: int)
      requires Valid() && |block| <= UINT32_MAX
      requires 0 <= track < |tracks| ==> tracks[track].sampleCount < UINT32_MAX
      modifies this`mdatSize, this`log, this`at, this`written, this`given, io, tracks
      ensures Valid()
      ensures !(0 <= track < |tracks|) ==>
        r == -ENOENT && io.data == old(io.data) && written == old(written) && given == old(given) && mdatSize == old(mdatSize)
      ensures 0 <= track < |tracks| ==>
        && r == 0
        && io.data == old(io.data) + block
        && mdatSize == old(mdatSize) + |block|
        && written == old(written)[track := old(written)[track] + [block]]
        && given == old(given)[track := old(given)[track] + [Given(pts, dts, key)]]
        && var t := tracks[track]; var n := old(t.sampleCount);
        && n <= |old(t.samples)| && t.sampleCount == n + 1 <= |t.samples|
        && t.samples[..n] == old(t.samples)[..n]
        && t.samples[n] == SampleOf(|old(io.data)|, |block|, pts, dts, t.timescale, key)
      ensures forall j :: 0 <= j < |tracks| && j != track ==>
        tracks[j].samples == old(tracks[j].samples) && tracks[j].sampleCount == old(tracks[j].sampleCount)
    {
      hide Splice, RecordedAt, BackToBack, Recorded, SampleOf, Frame.Valid, Fronted, Headed, AllLogged, AllKept, Keeps;
      if track < 0 || track >= |tracks| {
        return -ENOENT;
      }
      ghost var data, log0 := io.data, log;
      assert forall j :: 0 <= j < |tracks| ==> TrackOk(j);
      Store(tracks[track], track, block, pts, dts, key);
      if reserve {
        FrontedGrows(data, block, freeDataOffset, moovOffset, mdatOffset);
      } else {
        HeadedGrows(data, block, mdatOffset);
      }
      forall j | 0 <= j < |tracks|
        ensures TrackOk(j)
      {
        assert old(TrackOk(j));
        if j != track {
          var t := tracks[j];
          RecordedKeeps(j, t.samples, t.samples, t.sampleCount, log0, log, at[j], written[j], data, io.data);
        }
      }
      r := io.error;
    }
  }
}
