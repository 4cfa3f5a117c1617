/**
 * The two layers of run-length compression behind stsc and stco/co64 (ISO/IEC 14496-12,
 * sections 8.7.4 and 8.7.5): samples into chunks, then chunks into stsc entries.
 */
module ChunkTables {
  import opened Bytes
  import opened Samples

  datatype Chunk = Chunk(offset: nat, count: u32, sdi: u32)
  datatype StscEntry = StscEntry(firstChunk: u32, perChunk: u32, sdi: u32)

  // ---------- samples <-> chunks ----------

  /** Sample `y` continues the chunk of its predecessor `x`. */
  predicate Joined(x: Sample, y: Sample)
  {
    x.offset + x.bytes == y.offset && x.sdi == y.sdi
  }

  /** The chunks of the first n samples: maximal runs of joined samples. */
  function ChunksOf(s: seq<Sample>, n: nat): (cs: seq<Chunk>)
    requires n <= |s| && n <= UINT32_MAX
    ensures |cs| <= n && (n > 0 ==> cs != [])
    ensures n > 0 ==> cs[|cs| - 1].sdi == s[n - 1].sdi
    ensures forall j :: 0 <= j < |cs| ==> 1 <= cs[j].count <= n
  {
    if n == 0 then []
    else
      var cs := ChunksOf(s, n - 1);
      if n > 1 && Joined(s[n - 2], s[n - 1]) then
        cs[|cs| - 1 := cs[|cs| - 1].(count := cs[|cs| - 1].count + 1)]
      else
        cs + [Chunk(s[n - 1].offset, 1, s[n - 1].sdi)]
  }

  /** Number of samples in the first j chunks. */
  function First(cs: seq<Chunk>, j: nat): nat
    requires j <= |cs|
  {
    if j == 0 then 0 else First(cs, j - 1) + cs[j - 1].count
  }

  lemma {:induction false} FirstSame(cs: seq<Chunk>, ds: seq<Chunk>, j: nat)
    requires j <= |cs| && j <= |ds|
    requires forall i :: 0 <= i < j ==> cs[i].count == ds[i].count
    ensures First(cs, j) == First(ds, j)
  {
    if j > 0 {
      FirstSame(cs, ds, j - 1);
    }
  }

  lemma {:induction false} FirstMonotone(cs: seq<Chunk>, i: nat, j: nat)
    requires i <= j <= |cs|
    ensures First(cs, i) <= First(cs, j)
  {
    if i < j {
      FirstMonotone(cs, i, j - 1);
    }
  }

  /** Sample q of chunk j lies right behind the q samples before it in that chunk. */
  ghost predicate PlacedAt(cs: seq<Chunk>, s: seq<Sample>, j: nat, q: nat)
    requires j < |cs|
  {
    var k := First(cs, j);
    && k + q < |s|
    && s[k + q].offset == cs[j].offset + ByteSum(s, k, k + q)
    && s[k + q].sdi == cs[j].sdi
  }

  /** The chunk list describes exactly the first n samples. */
  ghost predicate Describes(cs: seq<Chunk>, s: seq<Sample>, n: nat)
  {
    && First(cs, |cs|) == n <= |s|
    && forall j, q :: 0 <= j < |cs| && 0 <= q < cs[j].count ==> PlacedAt(cs, s, j, q)
  }

  /** First layer: the chunks built from the samples describe them. */
  lemma {:induction false} ChunksDescribe(s: seq<Sample>, n: nat)
    requires n <= |s| && n <= UINT32_MAX
    ensures Describes(ChunksOf(s, n), s, n)
  {
    if n > 0 {
      ChunksDescribe(s, n - 1);
      var cs, ds := ChunksOf(s, n), ChunksOf(s, n - 1);
      FirstSame(cs, ds, |cs| - 1);
      if n > 1 && Joined(s[n - 2], s[n - 1]) {
        DescribeGrown(ds, s, n - 1);
      } else {
        DescribeAppended(ds, s, n - 1);
      }
    }
  }

  lemma DescribeGrown(ds: seq<Chunk>, s: seq<Sample>, n: nat)
    requires 0 < n < |s| && ds != [] && Describes(ds, s, n) && Joined(s[n - 1], s[n])
    requires 0 < ds[|ds| - 1].count < UINT32_MAX
    ensures var m := |ds| - 1; Describes(ds[m := ds[m].(count := ds[m].count + 1)], s, n + 1)
  {
    var m := |ds| - 1;
    var cs := ds[m := ds[m].(count := ds[m].count + 1)];
    FirstSame(cs, ds, m);
    forall j, q | 0 <= j < |cs| && 0 <= q < cs[j].count
      ensures PlacedAt(cs, s, j, q)
    {
      FirstSame(cs, ds, j);
      if j == m && q == ds[m].count {
        assert PlacedAt(ds, s, m, q - 1);
      } else {
        assert PlacedAt(ds, s, j, q);
      }
    }
  }

  lemma DescribeAppended(ds: seq<Chunk>, s: seq<Sample>, n: nat)
    requires n < |s| && Describes(ds, s, n)
    ensures Describes(ds + [Chunk(s[n].offset, 1, s[n].sdi)], s, n + 1)
  {
    var cs := ds + [Chunk(s[n].offset, 1, s[n].sdi)];
    FirstSame(cs, ds, |ds|);
    forall j, q | 0 <= j < |cs| && 0 <= q < cs[j].count
      ensures PlacedAt(cs, s, j, q)
    {
      FirstSame(cs, ds, j);
      if j < |ds| {
        assert PlacedAt(ds, s, j, q);
      }
    }
  }

  /** A chunk starts at sample i. */
  ghost predicate StartsAt(cs: seq<Chunk>, i: nat) { exists j :: 0 <= j < |cs| && First(cs, j) == i }

  lemma DescribedCount(s: seq<Sample>, n: nat)
    requires n <= |s| && n <= UINT32_MAX
    ensures First(ChunksOf(s, n), |ChunksOf(s, n)|) == n
  {
    ChunksDescribe(s, n);
  }

  lemma NoStartBehind(cs: seq<Chunk>, n: nat)
    requires First(cs, |cs|) == n && forall j :: 0 <= j < |cs| ==> cs[j].count >= 1
    ensures !StartsAt(cs, n)
  {
    FirstBelow(cs);
  }

  lemma FirstBelow(cs: seq<Chunk>)
    requires forall j :: 0 <= j < |cs| ==> cs[j].count >= 1
    ensures forall j :: 0 <= j < |cs| ==> First(cs, j) < First(cs, |cs|)
  {
    forall j | 0 <= j < |cs|
      ensures First(cs, j) < First(cs, |cs|)
    {
      assert First(cs, j + 1) == First(cs, j) + cs[j].count;
      FirstMonotone(cs, j + 1, |cs|);
    }
  }

  lemma JoinStarts(ds: seq<Chunk>, count: u32, i: nat)
    requires ds != []
    ensures var m := |ds| - 1; StartsAt(ds[m := ds[m].(count := count)], i) <==> StartsAt(ds, i)
  {
    var m := |ds| - 1;
    var cs := ds[m := ds[m].(count := count)];
    forall j | 0 <= j < |ds|
      ensures First(cs, j) == First(ds, j)
    {
      FirstSame(cs, ds, j);
    }
    SameStarts(cs, ds, i);
  }

  lemma SameStarts(cs: seq<Chunk>, ds: seq<Chunk>, i: nat)
    requires |cs| == |ds| && forall j :: 0 <= j < |cs| ==> First(cs, j) == First(ds, j)
    ensures StartsAt(cs, i) <==> StartsAt(ds, i)
  {
    hide First;
    if StartsAt(ds, i) {
      var j :| 0 <= j < |ds| && First(ds, j) == i;
      assert First(cs, j) == i;
    }
  }

  lemma NewStart(ds: seq<Chunk>, x: Chunk, m: nat, i: nat)
    requires First(ds, |ds|) == m
    ensures StartsAt(ds + [x], i) <==> StartsAt(ds, i) || i == m
  {
    var cs := ds + [x];
    forall j | 0 <= j <= |ds|
      ensures First(cs, j) == First(ds, j)
    {
      FirstSame(cs, ds, j);
    }
    OneMoreStart(cs, ds, m, i);
  }

  lemma OneMoreStart(cs: seq<Chunk>, ds: seq<Chunk>, m: nat, i: nat)
    requires |cs| == |ds| + 1 && First(cs, |ds|) == m && forall j :: 0 <= j < |ds| ==> First(cs, j) == First(ds, j)
    ensures StartsAt(cs, i) <==> StartsAt(ds, i) || i == m
  {
    hide First;
    if StartsAt(ds, i) {
      var j :| 0 <= j < |ds| && First(ds, j) == i;
      assert First(cs, j) == i;
    }
  }

  /** The chunks are as long as they can be: one starts exactly where file position or description jumps. */
  lemma {:induction false} ChunksAreMaximal(s: seq<Sample>, n: nat, i: nat)
    requires i < n <= |s| && n <= UINT32_MAX
    ensures StartsAt(ChunksOf(s, n), i) <==>
      i == 0 || s[i - 1].offset + s[i - 1].bytes != s[i].offset || s[i - 1].sdi != s[i].sdi
  {
    hide StartsAt, First;
    var ds := ChunksOf(s, n - 1);
    DescribedCount(s, n - 1);
    if i < n - 1 {
      ChunksAreMaximal(s, n - 1, i);
    } else {
      NoStartBehind(ds, n - 1);
    }
    if n > 1 && Joined(s[n - 2], s[n - 1]) {
      JoinStarts(ds, ds[|ds| - 1].count + 1, i);
    } else {
      NewStart(ds, Chunk(s[n - 1].offset, 1, s[n - 1].sdi), n - 1, i);
    }
  }

  /** A chunk list and the sizes leave no freedom: they determine every sample's placement. */
  lemma DescribedPlacementIsUnique(cs: seq<Chunk>, s: seq<Sample>, t: seq<Sample>, n: nat, i: nat)
    requires Describes(cs, s, n) && Describes(cs, t, n)
    requires forall k :: 0 <= k < n ==> s[k].bytes == t[k].bytes
    requires i < n
    ensures s[i].offset == t[i].offset && s[i].sdi == t[i].sdi
  {
    var j := ChunkOfSample(cs, |cs|, i);
    var k := First(cs, j);
    assert PlacedAt(cs, s, j, i - k) && PlacedAt(cs, t, j, i - k);
    ByteSumSame(s, t, k, i);
  }

  lemma {:induction false} ChunkOfSample(cs: seq<Chunk>, m: nat, i: nat) returns (j: nat)
    requires m <= |cs| && i < First(cs, m)
    ensures j < m && First(cs, j) <= i < First(cs, j) + cs[j].count
  {
    if i >= First(cs, m - 1) {
      j := m - 1;
    } else {
      j := ChunkOfSample(cs, m - 1, i);
    }
  }

  // ---------- chunks <-> stsc entries ----------

  /** Entries for the first n chunks: one for each chunk that differs from its predecessor. */
  function StscOf(cs: seq<Chunk>, n: nat): (es: seq<StscEntry>)
    requires n <= |cs| <= UINT32_MAX
    ensures |es| <= n && (n > 0 ==> es != [])
  {
    if n == 0 then []
    else if n > 1 && cs[n - 2].count == cs[n - 1].count && cs[n - 2].sdi == cs[n - 1].sdi then
      StscOf(cs, n - 1)
    else
      StscOf(cs, n - 1) + [StscEntry(n, cs[n - 1].count, cs[n - 1].sdi)]
  }

  /** What mov_apply_stco relies on: entries start at chunk 1 and never step back. */
  ghost predicate WellFormed(es: seq<StscEntry>, chunks: nat)
  {
    && es != [] && es[0].firstChunk == 1
    && (forall i :: 0 <= i < |es| ==> 1 <= es[i].firstChunk <= chunks)
    && (forall i, j :: 0 <= i <= j < |es| ==> es[i].firstChunk <= es[j].firstChunk)
  }

  /** Among the first m entries, the one that governs chunk `j`: the last starting at or before it. */
  function Governing(es: seq<StscEntry>, m: nat, j: nat): StscEntry
    requires 0 < m <= |es|
  {
    if m == 1 || es[m - 1].firstChunk <= j then es[m - 1] else Governing(es, m - 1, j)
  }

  /** The chunk list that stsc and stco stand for. */
  function DecodeChunks(es: seq<StscEntry>, stco: seq<nat>): (cs: seq<Chunk>)
    requires es != []
    ensures |cs| == |stco|
    ensures forall j :: 0 <= j < |stco| ==>
      cs[j] == Chunk(stco[j], Governing(es, |es|, j + 1).perChunk, Governing(es, |es|, j + 1).sdi)
  {
    seq(|stco|, j requires 0 <= j < |stco| =>
      Chunk(stco[j], Governing(es, |es|, j + 1).perChunk, Governing(es, |es|, j + 1).sdi))
  }

  lemma {:induction false} StscWellFormed(cs: seq<Chunk>, n: nat)
    requires 0 < n <= |cs| <= UINT32_MAX
    ensures WellFormed(StscOf(cs, n), n)
    ensures var es := StscOf(cs, n);
            && es[|es| - 1].perChunk == cs[n - 1].count && es[|es| - 1].sdi == cs[n - 1].sdi
  {
    if n > 1 {
      StscWellFormed(cs, n - 1);
    }
  }

  lemma {:induction false} GoverningSame(es: seq<StscEntry>, fs: seq<StscEntry>, m: nat, j: nat)
    requires 0 < m <= |es| && m <= |fs| && forall i :: 0 <= i < m ==> es[i] == fs[i]
    ensures Governing(es, m, j) == Governing(fs, m, j)
  {
    if m > 1 {
      GoverningSame(es, fs, m - 1, j);
    }
  }

  lemma {:induction false} StscGoverns(cs: seq<Chunk>, n: nat, j: nat)
    requires n <= |cs| <= UINT32_MAX && 1 <= j <= n
    ensures var e := Governing(StscOf(cs, n), |StscOf(cs, n)|, j);
            e.perChunk == cs[j - 1].count && e.sdi == cs[j - 1].sdi
  {
    StscWellFormed(cs, n);
    if j < n {
      StscGoverns(cs, n - 1, j);
      var es, fs := StscOf(cs, n), StscOf(cs, n - 1);
      if |es| > |fs| {
        GoverningSame(es, fs, |fs|, j);
      }
    }
  }

  /** The chunk list with every chunk moved by d. */
  function MoveChunks(cs: seq<Chunk>, d: nat): (ds: seq<Chunk>)
    ensures |ds| == |cs| && forall j :: 0 <= j < |cs| ==> ds[j] == cs[j].(offset := cs[j].offset + d)
  {
    seq(|cs|, j requires 0 <= j < |cs| => cs[j].(offset := cs[j].offset + d))
  }

  /** Second layer: stsc and the moved chunk offsets together give back the moved chunk list. */
  lemma StscRoundTrip(cs: seq<Chunk>, d: nat, stco: seq<nat>)
    requires 0 < |cs| <= UINT32_MAX
    requires |stco| == |cs| && forall j :: 0 <= j < |cs| ==> stco[j] == cs[j].offset + d
    ensures WellFormed(StscOf(cs, |cs|), |cs|)
    ensures DecodeChunks(StscOf(cs, |cs|), stco) == MoveChunks(cs, d)
  {
    StscWellFormed(cs, |cs|);
    forall j | 0 <= j < |cs|
      ensures DecodeChunks(StscOf(cs, |cs|), stco)[j] == MoveChunks(cs, d)[j]
    {
      StscGoverns(cs, |cs|, j + 1);
    }
  }

  /** Moving the chunks moves the samples they describe. */
  lemma MovedDescribe(cs: seq<Chunk>, s: seq<Sample>, t: seq<Sample>, n: nat, d: nat)
    requires Describes(cs, s, n) && |t| == |s|
    requires forall k :: 0 <= k < |s| ==> t[k] == s[k].(offset := s[k].offset + d)
    ensures Describes(MoveChunks(cs, d), t, n)
  {
    var ds := MoveChunks(cs, d);
    FirstSame(cs, ds, |cs|);
    forall j, q | 0 <= j < |ds| && 0 <= q < ds[j].count
      ensures PlacedAt(ds, t, j, q)
    {
      FirstSame(cs, ds, j);
      assert PlacedAt(cs, s, j, q);
      ByteSumSame(s, t, First(cs, j), First(cs, j) + q);
    }
  }

  /** Consecutive stsc entries differ and start later: the second layer is a real run-length code. */
  lemma {:induction false} StscIsCompressed(cs: seq<Chunk>, n: nat, i: nat)
    requires n <= |cs| <= UINT32_MAX && i + 1 < |StscOf(cs, n)|
    ensures var es := StscOf(cs, n);
            && es[i].firstChunk < es[i + 1].firstChunk
            && (es[i].perChunk != es[i + 1].perChunk || es[i].sdi != es[i + 1].sdi)
  {
    if n > 1 {
      StscWellFormed(cs, n - 1);
      if i + 1 < |StscOf(cs, n - 1)| {
        StscIsCompressed(cs, n - 1, i);
      }
    }
  }
}
