/** A track's samples and the two scratch fields that every run-length table reuses. */
module Samples {
  import opened Bytes

  datatype Sample = Sample(
    key: bool,          // MOV_AV_FLAG_KEYFREAME
    pts: int,
    dts: int,
    offset: nat,        // a file position; never reaches 2^64
    bytes: u32,
    sdi: u32,           // sample_description_index
    perChunk: u32,      // samples_per_chunk, scratch
    firstChunk: u32     // first_chunk, scratch; 0 marks a sample that opens no run
  )

  /** The sample without its scratch fields. */
  function Media(x: Sample): Sample { x.(perChunk := 0, firstChunk := 0) }

  ghost predicate SameMedia(s: seq<Sample>, t: seq<Sample>)
  {
    |s| == |t| && forall i :: 0 <= i < |s| ==> Media(s[i]) == Media(t[i])
  }

  /** Bytes of the samples a..b. */
  function ByteSum(s: seq<Sample>, a: nat, b: nat): nat
    requires a <= b <= |s|
  {
    if a == b then 0 else ByteSum(s, a, b - 1) + s[b - 1].bytes
  }

  lemma {:induction false} ByteSumSame(s: seq<Sample>, t: seq<Sample>, a: nat, b: nat)
    requires a <= b <= |s| && b <= |t|
    requires forall i :: a <= i < b ==> s[i].bytes == t[i].bytes
    ensures ByteSum(s, a, b) == ByteSum(t, a, b)
  {
    if a < b {
      ByteSumSame(s, t, a, b - 1);
    }
  }

  /** Among the first n samples, those that open a run, in order. */
  function HeadsOf(s: seq<Sample>, n: nat): (hs: seq<Sample>)
    requires n <= |s|
    ensures |hs| <= n
  {
    if n == 0 then []
    else HeadsOf(s, n - 1) + if s[n - 1].firstChunk != 0 then [s[n - 1]] else []
  }

  lemma {:induction false} HeadsSame(s: seq<Sample>, t: seq<Sample>, n: nat)
    requires n <= |s| && n <= |t|
    requires forall i :: 0 <= i < n ==> s[i] == t[i]
    ensures HeadsOf(s, n) == HeadsOf(t, n)
  {
    if n > 0 {
      HeadsSame(s, t, n - 1);
    }
  }

  /** Rewriting the last run's head rewrites the last entry of HeadsOf and nothing else. */
  lemma {:induction false} HeadsRewriteLast(s: seq<Sample>, n: nat, h: nat, x: Sample)
    requires h < n <= |s| && s[h].firstChunk != 0 && x.firstChunk != 0
    requires forall i :: h < i < n ==> s[i].firstChunk == 0
    ensures |HeadsOf(s, n)| > 0
    ensures HeadsOf(s, n) == HeadsOf(s, h) + [s[h]]
    ensures HeadsOf(s[h := x], n) == HeadsOf(s, h) + [x]
  {
    if h == n - 1 {
      HeadsSame(s, s[h := x], h);
    } else {
      HeadsRewriteLast(s, n - 1, h, x);
    }
  }

  lemma {:induction false} HeadsPrefix(s: seq<Sample>, i: nat, n: nat)
    requires i <= n <= |s|
    ensures HeadsOf(s, i) <= HeadsOf(s, n)
  {
    if i < n {
      HeadsPrefix(s, i, n - 1);
    }
  }
}
