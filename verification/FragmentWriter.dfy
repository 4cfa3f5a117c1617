/** fmp4-writer.c: fragments, each a moof and the mdat it describes. */
module FragmentWriter {
  import opened Bytes
  import opened Samples
  import opened MovStream
  import opened Boxes
  import opened TrackFragment
  import opened MoofWriter
  import opened Moof

  const ENOENT: int := 2
  const TAG_MDAT: u32 := 0x6d646174

  // ---------- the media data ----------

  /** The header of mdat: 16 bytes once the box no longer fits a 32-bit size. */
  function MdatHeader(n: nat): (ws: seq<u32>)
    requires n + 16 < TWO_64
    ensures |ws| == if n + 8 <= UINT32_MAX then 2 else 4
  {
    if n + 8 <= UINT32_MAX then [n + 8, TAG_MDAT]
    else [1, TAG_MDAT, (n + 16) / 0x1_0000_0000, (n + 16) % 0x1_0000_0000]
  }

  function Joined(bs: seq<seq<byte>>, k: nat): seq<byte>
    requires k <= |bs|
  {
    if k == 0 then [] else Joined(bs, k - 1) + bs[k - 1]
  }

  /** The samples of the first k tracks, track after track. */
  function MediaBytes(bss: seq<seq<seq<byte>>>, k: nat): seq<byte>
    requires k <= |bss|
  {
    if k == 0 then [] else MediaBytes(bss, k - 1) + Joined(bss[k - 1], |bss[k - 1]|)
  }

  /** The samples have the sizes of their blocks. */
  ghost predicate Matching(v: Part, bs: seq<seq<byte>>)
  {
    |bs| == |v.s| && forall i :: 0 <= i < |bs| ==> |bs[i]| == v.s[i].bytes
  }

  ghost predicate AllMatching(vs: seq<Part>, bss: seq<seq<seq<byte>>>)
  {
    |bss| == |vs| && forall j :: 0 <= j < |vs| ==> Matching(vs[j], bss[j])
  }

  lemma {:induction false} JoinedLength(v: Part, bs: seq<seq<byte>>, k: nat)
    requires Matching(v, bs) && k <= |bs|
    ensures |Joined(bs, k)| == ByteSum(v.s, 0, k)
  {
    if k > 0 {
      JoinedLength(v, bs, k - 1);
    }
  }

  lemma {:induction false} MediaLength(vs: seq<Part>, bss: seq<seq<seq<byte>>>, k: nat)
    requires AllMatching(vs, bss) && k <= |vs|
    ensures |MediaBytes(bss, k)| == StartOf(vs, k)
    decreases k
  {
    if k > 0 {
      MediaLength(vs, bss, k - 1);
      JoinedLength(vs[k - 1], bss[k - 1], |bss[k - 1]|);
    }
  }

  lemma SliceOfSum(a: seq<byte>, b: seq<byte>, o: nat, n: nat)
    ensures o + n <= |a| ==> (a + b)[o..o + n] == a[o..o + n]
    ensures o + n <= |b| ==> (a + b)[|a| + o..|a| + o + n] == b[o..o + n]
  {
  }

  lemma {:induction false} BlockInJoined(v: Part, bs: seq<seq<byte>>, i: nat, k: nat)
    requires Matching(v, bs) && i < k <= |bs|
    ensures var o := ByteSum(v.s, 0, i);
            o + v.s[i].bytes <= |Joined(bs, k)| && Joined(bs, k)[o..o + v.s[i].bytes] == bs[i]
  {
    JoinedLength(v, bs, k - 1);
    if i < k - 1 {
      BlockInJoined(v, bs, i, k - 1);
    }
  }

  /** Sample i of track j lies where the placing put it. */
  lemma {:induction false} BlockInMedia(vs: seq<Part>, bss: seq<seq<seq<byte>>>, j: nat, i: nat, k: nat)
    requires AllMatching(vs, bss) && j < k <= |vs| && i < |bss[j]|
    ensures var o := StartOf(vs, j) + ByteSum(vs[j].s, 0, i);
            o + vs[j].s[i].bytes <= |MediaBytes(bss, k)| && MediaBytes(bss, k)[o..o + vs[j].s[i].bytes] == bss[j][i]
    decreases k
  {
    hide Joined, ByteSum, Matching, StartOf;
    MediaLength(vs, bss, k - 1);
    MatchedBytes(vs[j], bss[j], i);
    var o, n := ByteSum(vs[j].s, 0, i), vs[j].s[i].bytes as int;
    var before, last := MediaBytes(bss, k - 1), Joined(bss[k - 1], |bss[k - 1]|);
    if j < k - 1 {
      BlockInMedia(vs, bss, j, i, k - 1);
      SliceOfSum(before, last, StartOf(vs, j) + o, n);
    } else {
      BlockInJoined(vs[j], bss[j], i, |bss[j]|);
      SliceOfSum(before, last, o, n);
    }
  }

  lemma MatchedBytes(v: Part, bs: seq<seq<byte>>, i: nat)
    requires Matching(v, bs)
    ensures |bs| == |v.s| && (i < |bs| ==> |bs[i]| == v.s[i].bytes)
  {
  }

  /**
   * One track in the loop that interleaves: it stops at the first sample that is not next. A track that is
   * written out is passed over.
   */
  method DrainTrack(io: Stream, t: FragmentTrack, from: nat, ghost v: Part, ghost again: bool) returns (n: nat)
    requires io.Valid() && v == PartOf(t) && Matching(v, t.blocks)
    requires if again then t.offset == |v.s| else t.offset == 0 && v.s == PlacedAt(v.s, from)
    modifies io, t`offset
    ensures io.Valid() && io.base == old(io.base) && io.start == old(io.start) && t.offset == |v.s|
    ensures again ==> n == from && io.done == old(io.done)
    ensures !again ==> n == from + PartBytes(v) && io.done == old(io.done) + Joined(t.blocks, |t.blocks|)
  {
    hide Splice, ByteSum, Joined;
    ghost var pre := io.done;
    n := from;
    DrainStep(v, t.blocks, 0, pre);
    while t.offset < |t.samples| && n == t.samples[t.offset].offset
      invariant t.offset <= |v.s| && io.Valid() && io.base == old(io.base) && io.start == old(io.start)
      invariant again ==> t.offset == |v.s| && n == from && io.done == pre
      invariant !again ==> n == from + ByteSum(v.s, 0, t.offset) && io.done == pre + Joined(t.blocks, t.offset)
      decreases |t.samples| - t.offset
    {
      DrainStep(v, t.blocks, t.offset, pre);
      io.Write(t.blocks[t.offset]);
      n := n + t.samples[t.offset].bytes;
      t.offset := t.offset + 1;
    }
  }

  lemma DrainStep(v: Part, bs: seq<seq<byte>>, i: nat, pre: seq<byte>)
    requires |bs| == |v.s|
    ensures ByteSum(v.s, 0, 0) == 0 && pre + Joined(bs, 0) == pre
    ensures i < |bs| ==> ByteSum(v.s, 0, i + 1) == ByteSum(v.s, 0, i) + v.s[i].bytes
    ensures i < |bs| ==> pre + Joined(bs, i) + bs[i] == pre + Joined(bs, i + 1)
  {
  }

  /** The tracks hold placed parts and their blocks. */
  ghost predicate Loaded(tracks: seq<FragmentTrack>, vs: seq<Part>, bss: seq<seq<seq<byte>>>)
    reads tracks`samples, tracks`blocks, tracks`turn, tracks`startDts
  {
    && Holding(tracks, vs) && AllMatching(vs, bss) && vs == Placed(vs)
    && forall j :: 0 <= j < |tracks| ==> tracks[j].blocks == bss[j]
  }

  /** The cursors: the first k tracks are written out, the others not begun. */
  ghost predicate Drained(tracks: seq<FragmentTrack>, k: nat)
    reads tracks
  {
    && k <= |tracks|
    && (forall j :: 0 <= j < k ==> tracks[j].offset == |tracks[j].samples|)
    && forall j :: k <= j < |tracks| ==> tracks[j].offset == 0
  }

  method DrainOne(io: Stream, tracks: seq<FragmentTrack>, i: nat, from: nat,
                  ghost vs: seq<Part>, ghost bss: seq<seq<seq<byte>>>, ghost pre: seq<byte>, ghost again: bool)
    returns (n: nat)
    requires io.Valid() && Loaded(tracks, vs, bss) && i < |tracks| && RoundAt(tracks, i, from, vs, again)
    requires again || io.done == pre + MediaBytes(bss, i)
    modifies io, tracks`offset
    ensures io.Valid() && io.base == old(io.base) && io.start == old(io.start)
    ensures Loaded(tracks, vs, bss) && RoundAt(tracks, i + 1, n, vs, again)
    ensures io.done == if again then old(io.done) else pre + MediaBytes(bss, i + 1)
  {
    hide Splice, Matching, Joined, PartBytes, PlacedAt, Placed, Loaded, PartOf;
    LoadedAt(tracks, vs, bss, i);
    n := DrainTrack(io, tracks[i], from, vs[i], again);
    assert pre + MediaBytes(bss, i) + Joined(bss[i], |bss[i]|) == pre + MediaBytes(bss, i + 1);
  }

  /** The cursor `n` of a round in front of track i; in a later round there is nothing left to do. */
  ghost predicate RoundAt(tracks: seq<FragmentTrack>, i: nat, n: nat, vs: seq<Part>, again: bool)
    requires |tracks| == |vs|
    reads tracks
  {
    if again then Drained(tracks, |tracks|) && n == StartOf(vs, |vs|)
    else Drained(tracks, i) && i <= |vs| && n == StartOf(vs, i)
  }

  /**
   * One round of the loop that interleaves. Because the samples were placed track after track, the first
   * round writes all of them, each once, and leaves the cursor behind the sizes that the samples keep; any
   * later round changes nothing. So the loop ends exactly if mdat_size is no more than that.
   */
  method Round(io: Stream, tracks: seq<FragmentTrack>, from: nat, ghost vs: seq<Part>,
               ghost bss: seq<seq<seq<byte>>>, ghost again: bool) returns (n: nat)
    requires io.Valid() && Loaded(tracks, vs, bss) && |tracks| == |vs| && RoundAt(tracks, 0, from, vs, again)
    modifies io, tracks`offset
    ensures io.Valid() && io.base == old(io.base) && io.start == old(io.start)
    ensures Loaded(tracks, vs, bss) && Drained(tracks, |tracks|) && n == StartOf(vs, |vs|)
    ensures io.done == old(io.done) + if again then [] else MediaBytes(bss, |bss|)
  {
    hide Splice, Loaded, Drained, StartOf, MediaBytes;
    ghost var pre := io.done;
    LoadedLength(tracks, vs, bss, pre);
    n := from;
    var i: nat := 0;
    while i < |tracks|
      invariant i <= |tracks| && io.Valid() && io.base == old(io.base) && io.start == old(io.start)
      invariant Loaded(tracks, vs, bss) && RoundAt(tracks, i, n, vs, again)
      invariant io.done == if again then pre else pre + MediaBytes(bss, i)
    {
      n := DrainOne(io, tracks, i, n, vs, bss, pre, again);
      i := i + 1;
    }
    assert pre + [] == pre;
  }

  /** The loop that interleaves; `mdatSize` is what ends it. */
  method Interleave(io: Stream, tracks: seq<FragmentTrack>, mdatSize: nat, ghost vs: seq<Part>,
                    ghost bss: seq<seq<seq<byte>>>)
    requires io.Valid() && Loaded(tracks, vs, bss) && Drained(tracks, 0)
    requires 0 < mdatSize <= StartOf(vs, |vs|)
    modifies io, tracks`offset
    ensures io.Valid() && io.base == old(io.base) && io.start == old(io.start)
    ensures Loaded(tracks, vs, bss) && Drained(tracks, |tracks|)
    ensures io.done == old(io.done) + MediaBytes(bss, |bss|)
  {
    hide Splice, Loaded, Drained, StartOf, MediaBytes;
    ghost var pre := io.done;
    var n: nat := 0;
    LoadedLength(tracks, vs, bss, pre);
    while n < mdatSize
      invariant io.Valid() && io.base == old(io.base) && io.start == old(io.start) && Loaded(tracks, vs, bss)
      invariant (n == 0 && Drained(tracks, 0) && io.done == pre)
                || (n == StartOf(vs, |vs|) && Drained(tracks, |tracks|) && io.done == pre + MediaBytes(bss, |bss|))
      decreases mdatSize - n
    {
      n := Round(io, tracks, n, vs, bss, false);
    }
  }

  /** mdat_size adds up whole sizes, the samples keep 32 bits of them. */
  function SizeSum(sizes: seq<nat>, n: nat): nat
    requires n <= |sizes|
  {
    if n == 0 then 0 else SizeSum(sizes, n - 1) + sizes[n - 1]
  }

  /** What mdat_size comes to for the first k tracks. */
  function MdatSum(sizes: seq<seq<nat>>, k: nat): nat
    requires k <= |sizes|
  {
    if k == 0 then 0 else MdatSum(sizes, k - 1) + SizeSum(sizes[k - 1], |sizes[k - 1]|)
  }

  /** The samples of a part were stored for blocks of these sizes. */
  predicate StoredFor(v: Part, sizes: seq<nat>)
  {
    |sizes| == |v.s| && forall i :: 0 <= i < |sizes| ==> v.s[i].bytes == ToU32(sizes[i])
  }

  predicate AllNarrow(sizes: seq<nat>, n: nat)
    requires n <= |sizes|
  {
    forall i :: 0 <= i < n ==> sizes[i] <= UINT32_MAX
  }

  lemma {:induction false} TrackArrivesIff(v: Part, sizes: seq<nat>, n: nat)
    requires StoredFor(v, sizes) && n <= |sizes|
    ensures ByteSum(v.s, 0, n) <= SizeSum(sizes, n)
    ensures ByteSum(v.s, 0, n) == SizeSum(sizes, n) <==> AllNarrow(sizes, n)
    decreases n
  {
    if n > 0 {
      TrackArrivesIff(v, sizes, n - 1);
    }
  }

  /**
   * The cursor, which every round leaves at the sum of the stored sizes, reaches mdat_size exactly when no
   * block has 4 GiB or more; with such a block the loop would never end.
   */
  lemma {:induction false} CursorArrivesIff(vs: seq<Part>, sizes: seq<seq<nat>>, k: nat)
    requires k <= |vs| == |sizes| && forall j :: 0 <= j < |vs| ==> StoredFor(vs[j], sizes[j])
    ensures StartOf(vs, k) <= MdatSum(sizes, k)
    ensures MdatSum(sizes, k) <= StartOf(vs, k) <==> forall j :: 0 <= j < k ==> AllNarrow(sizes[j], |sizes[j]|)
    decreases k
  {
    hide StoredFor, AllNarrow, ByteSum, SizeSum;
    if k > 0 {
      CursorArrivesIff(vs, sizes, k - 1);
      PartSize(vs[k - 1], sizes[k - 1]);
      TrackArrivesIff(vs[k - 1], sizes[k - 1], |sizes[k - 1]|);
    }
  }

  lemma PartSize(v: Part, sizes: seq<nat>)
    requires StoredFor(v, sizes)
    ensures |sizes| == |v.s| && PartBytes(v) == ByteSum(v.s, 0, |v.s|)
  {
  }

  lemma LoadedAt(tracks: seq<FragmentTrack>, vs: seq<Part>, bss: seq<seq<seq<byte>>>, i: nat)
    requires Loaded(tracks, vs, bss) && i < |tracks|
    ensures |tracks| == |vs| == |bss| && (forall k :: 0 <= k < |tracks| && k != i ==> tracks[k] != tracks[i])
    ensures PartOf(tracks[i]) == vs[i] && |tracks[i].samples| == |vs[i].s| && tracks[i].blocks == bss[i]
    ensures Matching(vs[i], bss[i]) && vs[i].s == PlacedAt(vs[i].s, StartOf(vs, i))
  {
    assert Placed(vs)[i] == vs[i];
  }

  lemma LoadedLength(tracks: seq<FragmentTrack>, vs: seq<Part>, bss: seq<seq<seq<byte>>>, pre: seq<byte>)
    requires Loaded(tracks, vs, bss)
    ensures |tracks| == |vs| == |bss| && StartOf(vs, 0) == 0 && pre + MediaBytes(bss, 0) == pre
  {
  }

  // ---------- two passes over moof ----------

  lemma AppendAtEnd(base: seq<byte>, start: nat, done: seq<byte>, x: seq<byte>)
    requires start <= |base| && |Splice(base, start, done)| == start + |done|
    ensures Splice(base, start, done + x) == Splice(base, start, done) + x
  {
    SpliceAppend(base, start, done, x);
    SpliceAtEnd(Splice(base, start, done), x);
  }

  /** The stream is at the end of the file. */
  ghost predicate AtEnd(io: Stream)
    reads io
  {
    io.Valid() && io.pos == |io.data|
  }

  lemma Appended(io: Stream, data: seq<byte>, done: seq<byte>, x: seq<byte>)
    requires io.Valid() && io.done == done + x
    requires io.start <= |io.base| && data == Splice(io.base, io.start, done) && |data| == io.start + |done|
    ensures AtEnd(io) && io.data == data + x
  {
    AppendAtEnd(io.base, io.start, done, x);
  }

  ghost function MoofBytes(number: u32, vs: seq<Part>, at: nat, moof: u32): (bs: seq<byte>)
    requires Countable(vs) && at < TWO_64 && Fits(MoofTree(number, vs, at, moof))
    ensures |bs| == SizeOf(MoofTree(number, vs, at, moof))
  {
    Serialize(MoofTree(number, vs, at, moof))
  }

  /** Whatever is added to the data offsets, this is how long the moof box is. */
  ghost function MoofSize(number: u32, vs: seq<Part>, at: nat): nat
    requires Countable(vs) && at < TWO_64
  {
    SizeOf(MoofTree(number, vs, at, 0))
  }

  /** The data offset of the first media byte, as the second pass is told. */
  ghost function DataStart(number: u32, vs: seq<Part>, at: nat): u32
    requires Countable(vs) && at < TWO_64
  {
    ToU32(MoofSize(number, vs, at) + 8)
  }

  ghost predicate MoofFits(number: u32, vs: seq<Part>, at: nat)
  {
    Countable(vs) && at < TWO_64 && Fits(MoofTree(number, vs, at, 0))
  }

  lemma SecondFits(number: u32, vs: seq<Part>, at: nat)
    requires MoofFits(number, vs, at)
    ensures var m := DataStart(number, vs, at);
            Fits(MoofTree(number, vs, at, m)) && |MoofBytes(number, vs, at, m)| == MoofSize(number, vs, at) == |MoofBytes(number, vs, at, 0)|
  {
    hide SizeOf, Fits;
    BothPassesSameSize(number, vs, at, 0, DataStart(number, vs, at));
  }

  /** Writes moof once to learn its size, then again over itself with the data offsets. */
  method WriteMoofTwice(io: Stream, tracks: seq<FragmentTrack>, number: u32, moofOffset: nat, ghost vs: seq<Part>)
    requires AtEnd(io) && moofOffset == io.pos && Holding(tracks, vs) && MoofFits(number, Placed(vs), moofOffset)
    modifies io, tracks`samples, tracks`tfhd
    ensures AtEnd(io) && Holding(tracks, Placed(vs))
    ensures MoofFits(number, Placed(vs), moofOffset)
            && Fits(MoofTree(number, Placed(vs), moofOffset, DataStart(number, Placed(vs), moofOffset)))
            && io.data == old(io.data) + MoofBytes(number, Placed(vs), moofOffset, DataStart(number, Placed(vs), moofOffset))
  {
    hide Splice, Serialize, SizeOf, Fits, MoofTree, Holding, Placed, Countable;
    ghost var ps, data, done := Placed(vs), io.data, io.done;
    SecondFits(number, ps, moofOffset);
    var refsize := WriteMoof(io, tracks, number, moofOffset, 0, vs);
    ghost var first := MoofBytes(number, ps, moofOffset, 0);
    Appended(io, data, done, first);
    io.Seek(moofOffset);
    PlacingTwice(vs);
    var again := WriteMoof(io, tracks, number, moofOffset, ToU32((refsize as int) + 8), ps);
    ghost var second := MoofBytes(number, ps, moofOffset, DataStart(number, ps, moofOffset));
    Rewritten(io, data, first, second);
  }

  lemma Rewritten(io: Stream, data: seq<byte>, first: seq<byte>, second: seq<byte>)
    requires io.Valid() && io.base == data + first && io.start == |data| && io.done == [] + second && |first| == |second|
    ensures AtEnd(io) && io.data == data + second
  {
    SpliceMiddle(data, first, [], second);
    assert data + first + [] == data + first && data + second + [] == data + second && [] + second == second;
  }
}
