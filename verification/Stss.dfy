/** mov-stss.c: the sync sample box, which lists the key frames. */
module Stss {
  import opened Bytes
  import opened Samples
  import opened Tracks
  import opened MovStream

  const TAG_STSS: u32 := 0x73747373

  /** The numbers (from 1) of the key frames among the first n samples. */
  function KeyNumbers(s: seq<Sample>, n: nat): (ks: seq<u32>)
    requires n <= |s| && n <= UINT32_MAX
    ensures |ks| <= n
    ensures forall k :: k in ks <==> 1 <= k <= n && s[k - 1].key
  {
    if n == 0 then []
    else KeyNumbers(s, n - 1) + if s[n - 1].key then [n] else []
  }

  function StssBox(ks: seq<u32>): seq<u32>
    requires 16 + 4 * |ks| <= UINT32_MAX
  {
    [16 + 4 * |ks|, TAG_STSS, 0, |ks|] + ks
  }

  method WriteStss(io: Stream, track: Track) returns (size: u32)
    requires io.Valid() && track.Valid()
    requires 16 + 4 * |KeyNumbers(track.samples, track.sampleCount)| <= UINT32_MAX
    modifies io
    ensures io.Valid() && io.base == old(io.base) && io.start == old(io.start)
    ensures var box := StssBox(KeyNumbers(track.samples, track.sampleCount));
            io.done == old(io.done) + Words(box) && size == 4 * |box|
  {
    hide Words, Splice;
    var n, s := track.sampleCount, track.samples;
    var offset := io.pos;
    ghost var pre := io.done;
    ghost var header: seq<u32> := [0, TAG_STSS, 0, 0];
    io.Header(0, TAG_STSS, 0, 0);
    assert header + KeyNumbers(s, 0) == header;
    var i: nat, j: u32 := 0, 0;
    while i < n
      invariant i <= n && io.Valid() && io.base == old(io.base) && io.start == old(io.start)
      invariant j == |KeyNumbers(s, i)| && io.done == pre + Words(header + KeyNumbers(s, i))
    {
      if s[i].key {
        io.PutWord(i + 1, pre, header + KeyNumbers(s, i));
        assert header + KeyNumbers(s, i) + [i + 1] == header + KeyNumbers(s, i + 1);
        j := j + 1;
      } else {
        assert KeyNumbers(s, i + 1) == KeyNumbers(s, i);
      }
      i := i + 1;
    }
    size := 16 + j * 4;
    ghost var ws: seq<u32> := header + KeyNumbers(s, n);
    io.PatchWord(offset, size, pre, ws, 0);
    io.PatchWord(offset + 12, j, pre, ws[0 := size], 3);
    assert ws[0 := size][3 := j] == StssBox(KeyNumbers(s, n));
  }

  /** Entry i of a sync sample table whose entries start at byte p. */
  function NumberAt(data: seq<byte>, p: nat, i: nat): u32
    requires p + 4 * i + 4 <= |data|
  {
    U32At(data, p + 4 * i)
  }

  method ReadStss(io: Stream, track: Track) returns (r: int)
    requires io.error == 0
    modifies io, track`stss
    ensures io.data == old(io.data) && r == io.error
    ensures var p := old(io.pos);
            p + 8 <= |io.data| && p + 8 + 4 * (U32At(io.data, p + 4) as int) <= |io.data| ==>
              && r == 0
              && |track.stss| == U32At(io.data, p + 4)
              && io.pos == p + 8 + 4 * |track.stss|
              && forall i :: 0 <= i < |track.stss| ==> track.stss[i] == NumberAt(io.data, p + 8, i)
  {
    ghost var p, d := io.pos, io.data;
    var _ := io.R8();
    var _ := io.R24();
    var entryCount := io.R32();
    ghost var ok := p + 8 <= |d| && p + 8 + 4 * (entryCount as int) <= |d|;
    track.stss := [];
    var i: nat := 0;
    while i < entryCount
      invariant i <= entryCount && |track.stss| == i && io.data == d
      invariant ok ==> io.error == 0 && io.pos == p + 8 + 4 * i
      invariant ok ==> forall k :: 0 <= k < i ==> track.stss[k] == NumberAt(d, p + 8, k)
    {
      var k := io.R32();
      track.stss := track.stss + [k];
      i := i + 1;
    }
    r := io.error;
  }

  /** Samples named by the first m entries become key frames; entries out of range are ignored. */
  method ApplyStss(track: Track)
    requires track.Valid()
    modifies track`samples
    ensures |track.samples| == |old(track.samples)|
    ensures forall i :: 0 <= i < |track.samples| ==>
      track.samples[i] == old(track.samples)[i].(key :=
        old(track.samples)[i].key || (i < track.sampleCount && (i + 1) in track.stss))
  {
    ghost var s, ks := track.samples, track.stss;
    var i: nat := 0;
    while i < |track.stss|
      invariant i <= |ks| && track.stss == ks && |track.samples| == |s|
      invariant forall k :: 0 <= k < |s| ==>
        track.samples[k] == s[k].(key := s[k].key || (k < track.sampleCount && (k + 1) in ks[..i]))
    {
      var j := track.stss[i];
      assert ks[..i + 1] == ks[..i] + [j];
      if 0 < j <= track.sampleCount {
        track.samples := track.samples[j - 1 := track.samples[j - 1].(key := true)];
      }
      i := i + 1;
    }
    assert ks[..|ks|] == ks;
  }

  /** Every key flag survives, and no other sample becomes a key frame. */
  lemma KeyFramesRoundTrip(s: seq<Sample>, n: nat, i: nat)
    requires i < n <= |s| && n <= UINT32_MAX
    ensures (i + 1) in KeyNumbers(s, n) <==> s[i].key
  {
  }
}
