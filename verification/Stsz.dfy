/** mov-stsz.c: the sample size box. */
module Stsz {
  import opened Bytes
  import opened Samples
  import opened Tracks
  import opened MovStream

  const TAG_STSZ: u32 := 0x7374737a

  /** All of the first n samples have the same size. */
  predicate Uniform(s: seq<Sample>, n: nat)
    requires n <= |s|
  {
    forall i :: 1 <= i < n ==> s[i].bytes == s[i - 1].bytes
  }

  function SizeWords(s: seq<Sample>, n: nat): (ws: seq<u32>)
    requires n <= |s|
    ensures |ws| == n
  {
    if n == 0 then [] else SizeWords(s, n - 1) + [s[n - 1].bytes]
  }

  function StszBox(s: seq<Sample>, n: u32): seq<u32>
    requires n <= |s| && (Uniform(s, n) || 20 + 4 * (n as int) <= UINT32_MAX)
  {
    if Uniform(s, n) then [20, TAG_STSZ, 0, if n < 1 then 0 else s[0].bytes, n]
    else [20 + 4 * (n as int), TAG_STSZ, 0, 0, n] + SizeWords(s, n)
  }

  method WriteStsz(io: Stream, track: Track) returns (size: u32)
    requires io.Valid() && track.Valid()
    requires Uniform(track.samples, track.sampleCount) || 20 + 4 * (track.sampleCount as int) <= UINT32_MAX
    modifies io
    ensures io.Valid() && io.base == old(io.base) && io.start == old(io.start)
    ensures var box := StszBox(track.samples, track.sampleCount);
            io.done == old(io.done) + Words(box) && size == 4 * |box|
  {
    hide Words, Splice, SizeWords;
    var n, s := track.sampleCount, track.samples;
    var i: nat := 1;
    while i < n && s[i].bytes == s[i - 1].bytes
      invariant 1 <= i && (i <= n || n == 0) && forall k :: 1 <= k < i && k < n ==> s[k].bytes == s[k - 1].bytes
    {
      i := i + 1;
    }
    assert i < n <==> !Uniform(s, n);
    size := 20 + if i < n then 4 * (n as int) else 0;
    ghost var pre := io.done;
    var sampleSize: u32 := if i < n || n < 1 then 0 else s[0].bytes;
    io.Header(size, TAG_STSZ, 0, sampleSize);
    io.PutWord(n, pre, [size, TAG_STSZ, 0, sampleSize]);
    ghost var header: seq<u32> := [size, TAG_STSZ, 0, sampleSize, n];
    assert [size, TAG_STSZ, 0, sampleSize] + [n] == header;
    if i < n {
      i := 0;
      SizeWordsStep(s, 0, header);
      while i < n
        invariant i <= n && io.Valid() && io.base == old(io.base) && io.start == old(io.start)
        invariant io.done == pre + Words(header + SizeWords(s, i))
      {
        SizeWordsStep(s, i, header);
        io.PutWord(s[i].bytes, pre, header + SizeWords(s, i));
        i := i + 1;
      }
    }
  }

  lemma SizeWordsStep(s: seq<Sample>, i: nat, header: seq<u32>)
    requires i < |s|
    ensures header + SizeWords(s, 0) == header
    ensures header + SizeWords(s, i + 1) == header + SizeWords(s, i) + [s[i].bytes]
  {
  }

  /** A fresh sample: mov_read_stsz clears the array it allocates. */
  const EMPTY_SAMPLE: Sample := Sample(false, 0, 0, 0, 0, 0, 0, 0)

  /** The size a stsz payload at byte p gives to sample i. */
  function SizeAt(data: seq<byte>, p: nat, i: nat): u32
    requires p + 12 <= |data| && (U32At(data, p + 4) == 0 ==> p + 12 + 4 * i + 4 <= |data|)
  {
    if U32At(data, p + 4) == 0 then U32At(data, p + 12 + 4 * i) else U32At(data, p + 4)
  }

  /** How many bytes the reader takes from a stsz payload at byte p. */
  function Consumed(data: seq<byte>, p: nat): nat
    requires p + 12 <= |data|
  {
    12 + if U32At(data, p + 4) == 0 then 4 * (U32At(data, p + 8) as int) else 0
  }

  /** A second stsz box in one track is asserted away in the source; here it would start over. */
  method ReadStsz(io: Stream, track: Track) returns (r: int)
    requires io.error == 0
    modifies io, track`samples, track`sampleCount
    ensures io.data == old(io.data) && r == io.error
    ensures |track.samples| == if track.sampleCount == 0 then 0 else track.sampleCount + 1
    ensures var p := old(io.pos);
            p + 12 <= |io.data| && p + Consumed(io.data, p) <= |io.data| ==>
              && r == 0
              && track.sampleCount == U32At(io.data, p + 8)
              && io.pos == p + Consumed(io.data, p)
              && forall i :: 0 <= i < track.sampleCount ==>
                   track.samples[i] == EMPTY_SAMPLE.(bytes := SizeAt(io.data, p, i))
  {
    ghost var p, d := io.pos, io.data;
    var _ := io.R8();
    var _ := io.R24();
    var sampleSize := io.R32();
    var sampleCount := io.R32();
    ghost var ok := p + 12 <= |d| && p + Consumed(d, p) <= |d|;
    var blank: seq<Sample> := if sampleCount == 0 then [] else seq((sampleCount as int) + 1, _ => EMPTY_SAMPLE);
    track.samples, track.sampleCount := blank, sampleCount;
    var i: nat := 0;
    if sampleSize == 0 {
      while i < sampleCount
        invariant i <= sampleCount && io.data == d && track.sampleCount == sampleCount
        invariant |track.samples| == |blank|
        invariant ok ==> io.error == 0 && io.pos == p + 12 + 4 * i
        invariant forall k :: i <= k < |blank| ==> track.samples[k] == EMPTY_SAMPLE
        invariant ok ==> forall k :: 0 <= k < i ==>
          track.samples[k] == EMPTY_SAMPLE.(bytes := U32At(d, p + 12 + 4 * k))
      {
        var b := io.R32();
        track.samples := track.samples[i := track.samples[i].(bytes := b)];
        i := i + 1;
      }
    } else {
      while i < sampleCount
        invariant i <= sampleCount && track.sampleCount == sampleCount && io.data == d
        invariant |track.samples| == |blank| && (ok ==> io.error == 0 && io.pos == p + 12)
        invariant forall k :: i <= k < |blank| ==> track.samples[k] == EMPTY_SAMPLE
        invariant forall k :: 0 <= k < i ==> track.samples[k] == EMPTY_SAMPLE.(bytes := sampleSize)
      {
        track.samples := track.samples[i := track.samples[i].(bytes := sampleSize)];
        i := i + 1;
      }
    }
    r := io.error;
  }

  lemma {:induction false} SizeWordAt(s: seq<Sample>, n: nat, i: nat)
    requires i < n <= |s|
    ensures SizeWords(s, n)[i] == s[i].bytes
  {
    if i < n - 1 {
      SizeWordAt(s, n - 1, i);
    }
  }

  lemma {:induction false} UniformSize(s: seq<Sample>, n: nat, i: nat)
    requires i < n <= |s| && Uniform(s, n)
    ensures s[i].bytes == s[0].bytes
  {
    if i > 0 {
      UniformSize(s, n, i - 1);
    }
  }

  /** A non-empty track whose samples are all empty cannot be expressed: 0 announces a list. */
  predicate AllEmpty(s: seq<Sample>, n: nat)
    requires n <= |s|
  {
    n > 0 && Uniform(s, n) && s[0].bytes == 0
  }

  /**
   * The reader stops at the end of the box exactly when the track is not all empty, and then
   * it gives back every size. `p` is where the box starts, so its payload starts at p + 8.
   */
  lemma SizesRoundTripIff(data: seq<byte>, p: nat, s: seq<Sample>, n: u32)
    requires n <= |s| && (Uniform(s, n) || 20 + 4 * (n as int) <= UINT32_MAX) && Holds(data, p, StszBox(s, n))
    ensures U32At(data, p + 16) == n
    ensures 8 + Consumed(data, p + 8) == 4 * |StszBox(s, n)| <==> !AllEmpty(s, n)
    ensures !AllEmpty(s, n) ==> forall i :: 0 <= i < n ==>
      (U32At(data, p + 12) == 0 ==> p + 24 + 4 * i <= |data|) && SizeAt(data, p + 8, i) == s[i].bytes
  {
    var box := StszBox(s, n);
    HeldWord(data, p, box, 3);
    HeldWord(data, p, box, 4);
    forall i | !AllEmpty(s, n) && 0 <= i < n
      ensures (U32At(data, p + 12) == 0 ==> p + 24 + 4 * i <= |data|) && SizeAt(data, p + 8, i) == s[i].bytes
    {
      if Uniform(s, n) {
        UniformSize(s, n, i);
      } else {
        SizeWordAt(s, n, i);
        HeldWord(data, p, box, 5 + i);
      }
    }
  }
}
