/** mov_apply_stco: expanding stsc and stco back into one placement per sample. */
module StcoApply {
  import opened Bytes
  import opened Samples
  import opened ChunkTables
  import opened Tracks

  lemma {:induction false} GoverningIs(es: seq<StscEntry>, m: nat, j: nat, i: nat)
    requires i < m <= |es| && es[i].firstChunk <= j
    requires forall a, b :: 0 <= a <= b < m ==> es[a].firstChunk <= es[b].firstChunk
    requires i + 1 < m ==> j < es[i + 1].firstChunk
    ensures Governing(es, m, j) == es[i]
  {
    if i + 1 < m {
      GoverningIs(es, m - 1, j, i);
    }
  }

  /** The first `m` chunks are in place, and so are the first `q` samples of the next one. */
  ghost predicate Placed(cs: seq<Chunk>, s: seq<Sample>, m: nat, q: nat)
  {
    && m <= |cs|
    && (forall a, b :: 0 <= a < m && 0 <= b < cs[a].count ==> PlacedAt(cs, s, a, b))
    && (m < |cs| ==> forall b :: 0 <= b < q ==> PlacedAt(cs, s, m, b))
  }

  lemma PlaceOne(cs: seq<Chunk>, s: seq<Sample>, m: nat, q: nat, x: Sample)
    requires m < |cs| && q < cs[m].count && Placed(cs, s, m, q)
    requires First(cs, m) + q < |s|
    requires x.bytes == s[First(cs, m) + q].bytes && x.sdi == cs[m].sdi
    requires x.offset == cs[m].offset + ByteSum(s, First(cs, m), First(cs, m) + q)
    ensures Placed(cs, s[First(cs, m) + q := x], m, q + 1)
  {
    var k := First(cs, m);
    var t := s[k + q := x];
    forall a, b | 0 <= a <= m && 0 <= b < (if a < m then cs[a].count else q + 1)
      ensures PlacedAt(cs, t, a, b)
    {
      FirstMonotone(cs, a, m);
      ByteSumFrame(s, t, First(cs, a), First(cs, a) + b);
      if a < m {
        FirstMonotone(cs, a + 1, m);
        assert PlacedAt(cs, s, a, b);
      } else if b < q {
        assert PlacedAt(cs, s, a, b);
      }
    }
  }

  lemma ByteSumFrame(s: seq<Sample>, t: seq<Sample>, a: nat, b: nat)
    requires |s| == |t| && a <= b
    requires forall i :: 0 <= i < |s| ==> s[i].bytes == t[i].bytes
    ensures b <= |s| ==> ByteSum(s, a, b) == ByteSum(t, a, b)
  {
    if b <= |s| {
      ByteSumSame(s, t, a, b);
    }
  }

  /** Everything mov_apply_stco leaves alone. */
  ghost predicate OnlyPlacementChanged(s: seq<Sample>, t: seq<Sample>)
  {
    |s| == |t| && forall i :: 0 <= i < |s| ==> t[i] == s[i].(offset := t[i].offset, sdi := t[i].sdi)
  }

  lemma PlacedStart(cs: seq<Chunk>, s: seq<Sample>)
    ensures Placed(cs, s, 0, 0) && First(cs, 0) == 0
  {
  }

  lemma PlacedNext(cs: seq<Chunk>, s: seq<Sample>, m: nat)
    requires m < |cs| && Placed(cs, s, m, cs[m].count)
    ensures Placed(cs, s, m + 1, 0)
  {
  }

  lemma PlacedAll(cs: seq<Chunk>, s: seq<Sample>, n: nat)
    requires Placed(cs, s, |cs|, 0) && First(cs, |cs|) == n <= |s|
    ensures Describes(cs, s, n)
  {
  }

  lemma FirstStep(cs: seq<Chunk>, m: nat)
    requires m < |cs|
    ensures First(cs, m + 1) == First(cs, m) + cs[m].count <= First(cs, |cs|)
  {
    FirstMonotone(cs, m + 1, |cs|);
  }

  method ApplyStco(track: Track)
    requires track.Valid()
    requires |track.stsc| == track.stscCount + 1 && |track.stco| < UINT32_MAX
    requires WellFormed(track.stsc[..track.stscCount], |track.stco|)
    requires var cs := DecodeChunks(track.stsc[..track.stscCount], track.stco);
             First(cs, |cs|) == track.sampleCount
    modifies track`samples, track`stsc
    ensures track.Valid() && OnlyPlacementChanged(old(track.samples), track.samples)
    ensures |track.stsc| == track.stscCount + 1
    ensures track.stsc[..track.stscCount] == old(track.stsc[..track.stscCount])
    ensures Describes(DecodeChunks(track.stsc[..track.stscCount], track.stco), track.samples, track.sampleCount)
  {
    hide Placed, First, PlacedAt;
    var count := track.stscCount;
    ghost var s, es := track.samples, track.stsc[..count];
    ghost var cs := DecodeChunks(es, track.stco);
    track.stsc := track.stsc[count := track.stsc[count].(firstChunk := |track.stco| + 1)];
    var stsc := track.stsc;
    assert stsc[..count] == es;
    var i: nat, n: nat := 0, 0;
    PlacedStart(cs, s);
    while i < count
      invariant i <= count && track.stsc == stsc
      invariant OnlyPlacementChanged(s, track.samples)
      invariant Placed(cs, track.samples, stsc[i].firstChunk - 1, 0)
      invariant n == First(cs, stsc[i].firstChunk - 1)
    {
      var e := stsc[i];
      var j: nat := e.firstChunk;
      while j < stsc[i + 1].firstChunk
        invariant track.stsc == stsc && e.firstChunk <= j <= stsc[i + 1].firstChunk <= |cs| + 1
        invariant OnlyPlacementChanged(s, track.samples)
        invariant Placed(cs, track.samples, j - 1, 0)
        invariant n == First(cs, j - 1)
      {
        assert es[i] == e;
        assert i + 1 < count ==> es[i + 1] == stsc[i + 1];
        GoverningIs(es, count, j, i);
        var chunkOffset: nat := track.stco[j - 1];
        FirstStep(cs, j - 1);
        var k: nat := 0;
        assert chunkOffset == cs[j - 1].offset + ByteSum(s, n, n);
        while k < e.perChunk
          invariant track.stsc == stsc && k <= e.perChunk && n == First(cs, j - 1) + k
          invariant OnlyPlacementChanged(s, track.samples)
          invariant Placed(cs, track.samples, j - 1, k)
          invariant n <= |s| && chunkOffset == cs[j - 1].offset + ByteSum(s, n - k, n)
        {
          ghost var t := track.samples;
          var x := track.samples[n].(sdi := e.sdi, offset := chunkOffset);
          ByteSumSame(s, t, n - k, n);
          PlaceOne(cs, t, j - 1, k, x);
          track.samples := track.samples[n := x];
          chunkOffset := chunkOffset + track.samples[n].bytes;
          k, n := k + 1, n + 1;
        }
        PlacedNext(cs, track.samples, j - 1);
        j := j + 1;
      }
      i := i + 1;
    }
    PlacedAll(cs, track.samples, track.sampleCount);
  }
}
