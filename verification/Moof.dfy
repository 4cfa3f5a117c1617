/** fmp4_write_moof: placing the samples of all tracks in mdat and describing them. */
module Moof {
  import opened Bytes
  import opened Samples
  import opened MovStream
  import opened Boxes
  import opened TrackWriter
  import opened TrackFragment
  import opened MoofWriter

  // ---------- where the samples go ----------

  function PartBytes(v: Part): nat { ByteSum(v.s, 0, |v.s|) }

  /** The media bytes of the first k tracks. */
  function StartOf(vs: seq<Part>, k: nat): nat
    requires k <= |vs|
  {
    if k == 0 then 0 else StartOf(vs, k - 1) + PartBytes(vs[k - 1])
  }

  /** The samples back to back from `at` on. */
  function PlacedAt(s: seq<Sample>, at: nat): (p: seq<Sample>)
    ensures |p| == |s|
    ensures forall i :: 0 <= i < |s| ==> p[i] == s[i].(offset := at + ByteSum(s, 0, i))
  {
    seq(|s|, i requires 0 <= i < |s| => s[i].(offset := at + ByteSum(s, 0, i)))
  }

  /** Track after track, as the loop over the tracks places them. */
  function Placed(vs: seq<Part>): (ps: seq<Part>)
    ensures |ps| == |vs|
    ensures forall k :: 0 <= k < |vs| ==> ps[k] == vs[k].(s := PlacedAt(vs[k].s, StartOf(vs, k)))
  {
    seq(|vs|, k requires 0 <= k < |vs| => vs[k].(s := PlacedAt(vs[k].s, StartOf(vs, k))))
  }

  lemma BytesSame(v: Part, at: nat)
    ensures PartBytes(v.(s := PlacedAt(v.s, at))) == PartBytes(v)
  {
    hide ByteSum;
    ByteSumSame(v.s, PlacedAt(v.s, at), 0, |v.s|);
  }

  lemma {:induction false} StartSame(vs: seq<Part>, k: nat)
    requires k <= |vs|
    ensures StartOf(Placed(vs), k) == StartOf(vs, k)
    decreases k
  {
    hide PartBytes, PlacedAt, Placed;
    if k > 0 {
      StartSame(vs, k - 1);
      BytesSame(vs[k - 1], StartOf(vs, k - 1));
    }
  }

  /** The second pass finds the samples where the first one put them. */
  lemma PlacingTwice(vs: seq<Part>)
    ensures Placed(Placed(vs)) == Placed(vs)
  {
    var ps := Placed(vs);
    forall k | 0 <= k < |vs|
      ensures Placed(ps)[k] == ps[k]
    {
      StartSame(vs, k);
      forall i | 0 <= i < |vs[k].s|
        ensures Placed(ps)[k].s[i] == ps[k].s[i]
      {
        ByteSumSame(vs[k].s, ps[k].s, 0, i);
      }
      assert Placed(ps)[k].s == ps[k].s;
    }
  }

  // ---------- the box ----------

  ghost predicate Countable(vs: seq<Part>) { forall v :: v in vs ==> |v.s| < TWO_32 }

  function MfhdTree(number: u32): Tree { Table(TAG_MFHD, [0, number]) }

  /** One traf for each of the first k tracks that has samples. */
  ghost function Trafs(vs: seq<Part>, k: nat, at: nat, moof: u32): seq<Tree>
    requires k <= |vs| && Countable(vs) && at < TWO_64
  {
    if k == 0 then []
    else Trafs(vs, k - 1, at, moof) + if |vs[k - 1].s| > 0 then [TrafTree(vs[k - 1], at, moof)] else []
  }

  ghost function MoofParts(number: u32, vs: seq<Part>, at: nat, moof: u32): seq<Tree>
    requires Countable(vs) && at < TWO_64
  {
    [MfhdTree(number)] + Trafs(vs, |vs|, at, moof)
  }

  /** `at` is where the box starts; `moof` is added to every data offset. */
  ghost function MoofTree(number: u32, vs: seq<Part>, at: nat, moof: u32): Tree
    requires Countable(vs) && at < TWO_64
  {
    Node(TAG_MOOF, MoofParts(number, vs, at, moof))
  }

  // ---------- both passes have the same size ----------

  /** The same boxes around payloads of the same length. */
  ghost predicate SameShape(t: Tree, u: Tree)
    decreases t
  {
    match t
    case Leaf(_, p) => u.Leaf? && |p| == |u.payload|
    case Node(_, ts) =>
      u.Node? && |ts| == |u.children| && forall i :: 0 <= i < |ts| ==> SameShape(ts[i], u.children[i])
  }

  lemma {:induction false} SameShapeSameSize(t: Tree, u: Tree)
    requires SameShape(t, u)
    ensures SizeOf(t) == SizeOf(u) && (Fits(t) ==> Fits(u))
    decreases t, 1
  {
    if t.Node? {
      SameSizes(t.children, u.children, |t.children|);
    }
  }

  lemma {:induction false} SameSizes(ts: seq<Tree>, us: seq<Tree>, n: nat)
    requires n <= |ts| == |us| && forall i :: 0 <= i < |ts| ==> SameShape(ts[i], us[i])
    ensures SizeOfAll(ts, n) == SizeOfAll(us, n)
    ensures forall i :: 0 <= i < n && Fits(ts[i]) ==> Fits(us[i])
    decreases ts, 0, n
  {
    if n > 0 {
      SameSizes(ts, us, n - 1);
      SameShapeSameSize(ts[n - 1], us[n - 1]);
    }
  }

  lemma {:induction false} SameRuns(v: Part, h: Header, i: nat, m: u32, m': u32)
    requires 0 < i <= |v.s| < TWO_32
    ensures var a, b := ClosedRuns(v, h, i, m), ClosedRuns(v, h, i, m');
            |a| == |b| && forall k :: 0 <= k < |a| ==> SameShape(a[k], b[k])
  {
    hide RowsWords, TrunFlags;
    if i > 1 {
      SameRuns(v, h, i - 1, m, m');
    }
  }

  lemma SameTraf(v: Part, at: nat, m: u32, m': u32)
    requires 0 < |v.s| < TWO_32 && at < TWO_64
    ensures SameShape(TrafTree(v, at, m), TrafTree(v, at, m'))
  {
    hide RowsWords, TrunFlags, ClosedRuns, HeaderFor, TfhdWords, TfdtWords;
    var h, n := HeaderFor(v, at), |v.s|;
    SameRuns(v, h, n, m, m');
    var x, y := RunTree(v, h, RunStart(v.s, n), n, m), RunTree(v, h, RunStart(v.s, n), n, m');
    assert SameShape(x, y);
    var a, b := TrafParts(v, at, m), TrafParts(v, at, m');
    forall k | 0 <= k < |a|
      ensures SameShape(a[k], b[k])
    {
      if k >= 2 && k < |a| - 1 {
        assert a[k] == ClosedRuns(v, h, n, m)[k - 2] && b[k] == ClosedRuns(v, h, n, m')[k - 2];
      }
    }
  }

  lemma {:induction false} SameTrafs(vs: seq<Part>, k: nat, at: nat, m: u32, m': u32)
    requires k <= |vs| && Countable(vs) && at < TWO_64
    ensures var a, b := Trafs(vs, k, at, m), Trafs(vs, k, at, m');
            |a| == |b| && forall i :: 0 <= i < |a| ==> SameShape(a[i], b[i])
  {
    hide TrafTree, SameShape;
    if k > 0 {
      SameTrafs(vs, k - 1, at, m, m');
      if |vs[k - 1].s| > 0 {
        SameTraf(vs[k - 1], at, m, m');
      }
    }
  }

  /** Whatever the data offsets are, the box has the same size: the second pass covers the first. */
  lemma BothPassesSameSize(number: u32, vs: seq<Part>, at: nat, m: u32, m': u32)
    requires Countable(vs) && at < TWO_64
    ensures SizeOf(MoofTree(number, vs, at, m)) == SizeOf(MoofTree(number, vs, at, m'))
    ensures Fits(MoofTree(number, vs, at, m)) ==> Fits(MoofTree(number, vs, at, m'))
  {
    hide Trafs, SizeOf, SizeOfAll, Fits;
    SameTrafs(vs, |vs|, at, m, m');
    var a, b := MoofParts(number, vs, at, m), MoofParts(number, vs, at, m');
    forall i | 0 <= i < |a|
      ensures SameShape(a[i], b[i])
    {
      if i > 0 {
        assert a[i] == Trafs(vs, |vs|, at, m)[i - 1] && b[i] == Trafs(vs, |vs|, at, m')[i - 1];
      }
    }
    SameShapeSameSize(MoofTree(number, vs, at, m), MoofTree(number, vs, at, m'));
  }

  // ---------- writing it ----------

  /** The tracks hold the parts, and are different objects. */
  ghost predicate Holding(tracks: seq<FragmentTrack>, vs: seq<Part>)
    reads tracks`samples, tracks`turn, tracks`startDts
  {
    && |tracks| == |vs|
    && (forall i, j :: 0 <= i < j < |tracks| ==> tracks[i] != tracks[j])
    && forall j :: 0 <= j < |tracks| ==> PartOf(tracks[j]) == vs[j]
  }

  lemma MoofPartsFit(number: u32, vs: seq<Part>, at: nat, moof: u32)
    requires Countable(vs) && at < TWO_64 && Fits(MoofTree(number, vs, at, moof))
    ensures var ts := MoofParts(number, vs, at, moof);
            && Fits(MfhdTree(number)) && (forall t :: t in Trafs(vs, |vs|, at, moof) ==> Fits(t))
            && 8 + SizeOfAll(ts, |ts|) == SizeOf(MoofTree(number, vs, at, moof)) <= UINT32_MAX
  {
    hide Trafs;
    var ts := MoofParts(number, vs, at, moof);
    forall t | t in ts
      ensures Fits(t)
    {
      var i :| 0 <= i < |ts| && ts[i] == t;
      ChildFits(MoofTree(number, vs, at, moof), i);
    }
    assert ts[0] in ts;
    assert forall t :: t in Trafs(vs, |vs|, at, moof) ==> t in ts;
  }

  lemma {:induction false} TrafsPrefix(vs: seq<Part>, i: nat, k: nat, at: nat, moof: u32)
    requires i <= k <= |vs| && Countable(vs) && at < TWO_64
    ensures forall t :: t in Trafs(vs, i, at, moof) ==> t in Trafs(vs, k, at, moof)
  {
    hide TrafTree;
    if i < k {
      TrafsPrefix(vs, i, k - 1, at, moof);
      forall t | t in Trafs(vs, i, at, moof)
        ensures t in Trafs(vs, k, at, moof)
      {
        assert t in Trafs(vs, k - 1, at, moof);
      }
    }
  }

  lemma TrafsStep(number: u32, vs: seq<Part>, i: nat, at: nat, moof: u32)
    requires i < |vs| && Countable(vs) && at < TWO_64
    ensures [MfhdTree(number)] + Trafs(vs, 0, at, moof) == [MfhdTree(number)]
    ensures |vs[i].s| == 0 ==> [MfhdTree(number)] + Trafs(vs, i + 1, at, moof) == [MfhdTree(number)] + Trafs(vs, i, at, moof)
    ensures |vs[i].s| > 0 ==>
      var t := TrafTree(vs[i], at, moof);
      && [MfhdTree(number)] + Trafs(vs, i + 1, at, moof) == [MfhdTree(number)] + Trafs(vs, i, at, moof) + [t]
      && t in Trafs(vs, |vs|, at, moof)
  {
    hide TrafTree;
    TrafsPrefix(vs, i + 1, |vs|, at, moof);
    if |vs[i].s| > 0 {
      assert TrafTree(vs[i], at, moof) in Trafs(vs, i + 1, at, moof);
    }
  }

  lemma SumStep(s: seq<Sample>, j: nat)
    ensures ByteSum(s, 0, 0) == 0
    ensures j < |s| ==> ByteSum(s, 0, j + 1) == ByteSum(s, 0, j) + s[j].bytes
  {
  }

  /** The loop that gives every sample of one track its place. */
  method PlaceTrack(track: FragmentTrack, from: nat) returns (n: nat)
    modifies track`samples
    ensures track.samples == PlacedAt(old(track.samples), from)
    ensures n == from + ByteSum(old(track.samples), 0, |old(track.samples)|)
  {
    hide ByteSum;
    ghost var s := track.samples;
    n := from;
    var j: nat := 0;
    SumStep(s, 0);
    while j < |track.samples|
      invariant j <= |track.samples| == |s| && n == from + ByteSum(s, 0, j)
      invariant forall i :: 0 <= i < j ==> track.samples[i] == s[i].(offset := from + ByteSum(s, 0, i))
      invariant forall i :: j <= i < |s| ==> track.samples[i] == s[i]
    {
      SumStep(s, j);
      track.samples := track.samples[j := track.samples[j].(offset := n)];
      n := n + track.samples[j].bytes;
      j := j + 1;
    }
  }

  /** The first k tracks are placed, the others are as they were. */
  ghost predicate PlacedUpTo(tracks: seq<FragmentTrack>, vs: seq<Part>, k: nat)
    reads tracks`samples, tracks`turn, tracks`startDts
  {
    && k <= |tracks| == |vs|
    && (forall i, j :: 0 <= i < j < |tracks| ==> tracks[i] != tracks[j])
    && (forall j :: 0 <= j < k ==> PartOf(tracks[j]) == Placed(vs)[j])
    && (forall j :: k <= j < |tracks| ==> PartOf(tracks[j]) == vs[j])
  }

  /** An open moof with the trafs of the first k tracks. */
  ghost predicate MoofOpen(io: Stream, number: u32, ps: seq<Part>, k: nat, at: nat, moof: u32, pre: seq<byte>,
                           size: int)
    requires k <= |ps| && Countable(ps) && at < TWO_64
    reads io
  {
    var ts := [MfhdTree(number)] + Trafs(ps, k, at, moof);
    && io.Valid()
    && (forall i :: 0 <= i < |ts| ==> Fits(ts[i]))
    && io.done == Opened(pre, TAG_MOOF, ts)
    && size == 8 + SizeOfAll(ts, |ts|)
  }

  method WriteMfhd(io: Stream, number: u32) returns (size: u32)
    requires io.Valid()
    modifies io
    ensures io.Valid() && io.base == old(io.base) && io.start == old(io.start)
    ensures io.done == old(io.done) + Serialize(MfhdTree(number)) && size == SizeOf(MfhdTree(number)) && Fits(MfhdTree(number))
  {
    hide Words, Splice, Serialize;
    TableBytes(TAG_MFHD, [0, number]);
    assert [16, TAG_MFHD] + [0, number] == [16, TAG_MFHD, 0, number];
    io.Header(16, TAG_MFHD, 0, number);
    size := 16;
  }

  method BeginMoof(io: Stream, number: u32, ghost ps: seq<Part>, ghost at: nat, ghost moof: u32)
    returns (offset: nat, size: nat)
    requires io.Valid() && Countable(ps) && at < TWO_64
    modifies io
    ensures io.base == old(io.base) && io.start == old(io.start) && offset == old(io.pos)
    ensures MoofOpen(io, number, ps, 0, at, moof, old(io.done), size)
  {
    hide Splice, Opened, Serialize, SizeOf, SizeOfAll, Fits, BE32, Table;
    ghost var pre := io.done;
    offset := Open(io, TAG_MOOF);
    var a := WriteMfhd(io, number);
    OpenedEmpty(pre, TAG_MOOF);
    OpenedNext(pre, TAG_MOOF, [], MfhdTree(number));
    assert [] + [MfhdTree(number)] == [MfhdTree(number)] + Trafs(ps, 0, at, moof);
    size := 8 + a as int;
  }

  method WriteTrafAt(io: Stream, track: FragmentTrack, i: nat, number: u32, moofOffset: nat, moof: u32, size: nat,
                     ghost vs: seq<Part>, ghost pre: seq<byte>)
    returns (total: nat)
    requires i < |vs| && PartOf(track) == Placed(vs)[i] && Countable(Placed(vs)) && moofOffset < TWO_64
    requires MoofOpen(io, number, Placed(vs), i, moofOffset, moof, pre, size)
    requires |vs[i].s| > 0 && Fits(TrafTree(Placed(vs)[i], moofOffset, moof))
    modifies io, track`tfhd
    ensures io.base == old(io.base) && io.start == old(io.start)
    ensures MoofOpen(io, number, Placed(vs), i + 1, moofOffset, moof, pre, total)
  {
    hide Splice, Opened, Serialize, SizeOf, SizeOfAll, Fits, Trafs, TrafTree, Placed, MfhdTree;
    ghost var ps := Placed(vs);
    ghost var ts := [MfhdTree(number)] + Trafs(ps, i, moofOffset, moof);
    TrafsStep(number, ps, i, moofOffset, moof);
    OpenedNext(pre, TAG_MOOF, ts, TrafTree(ps[i], moofOffset, moof));
    var part := WriteTraf(io, track, moofOffset, moof, ps[i]);
    total := size + part as int;
  }

  /** The body of the loop over the tracks: place the samples of one, and describe them. */
  method TrackInMoof(io: Stream, tracks: seq<FragmentTrack>, i: nat, n: nat, number: u32, moofOffset: nat, moof: u32,
                     size: nat, ghost vs: seq<Part>, ghost pre: seq<byte>)
    returns (end: nat, total: nat)
    requires PlacedUpTo(tracks, vs, i) && i < |tracks| && n == StartOf(vs, i)
    requires Countable(Placed(vs)) && moofOffset < TWO_64 && Fits(MoofTree(number, Placed(vs), moofOffset, moof))
    requires MoofOpen(io, number, Placed(vs), i, moofOffset, moof, pre, size)
    modifies io, tracks`samples, tracks`tfhd
    ensures io.base == old(io.base) && io.start == old(io.start)
    ensures PlacedUpTo(tracks, vs, i + 1) && end == StartOf(vs, i + 1)
    ensures MoofOpen(io, number, Placed(vs), i + 1, moofOffset, moof, pre, total)
  {
    hide MoofOpen, Trafs, TrafTree, MfhdTree, Fits, MoofTree, PlacedUpTo;
    ghost var ps := Placed(vs);
    var t := tracks[i];
    Unplaced(tracks, vs, i);
    end := PlaceTrack(t, n);
    assert PartOf(t) == ps[i];
    PlacedOneMore(tracks, vs, i);
    TrafsStep(number, ps, i, moofOffset, moof);
    total := size;
    if |t.samples| > 0 {
      MoofPartsFit(number, ps, moofOffset, moof);
      total := WriteTrafAt(io, t, i, number, moofOffset, moof, size, vs, pre);
    } else {
      NoTraf(io, number, ps, i, moofOffset, moof, pre, size);
    }
  }

  lemma NoTraf(io: Stream, number: u32, ps: seq<Part>, i: nat, at: nat, moof: u32, pre: seq<byte>, size: nat)
    requires i < |ps| && |ps[i].s| == 0 && Countable(ps) && at < TWO_64
    requires MoofOpen(io, number, ps, i, at, moof, pre, size)
    ensures MoofOpen(io, number, ps, i + 1, at, moof, pre, size)
  {
    hide Trafs, Opened, SizeOfAll;
    TrafsStep(number, ps, i, at, moof);
  }

  lemma Unplaced(tracks: seq<FragmentTrack>, vs: seq<Part>, i: nat)
    requires PlacedUpTo(tracks, vs, i)
    ensures |tracks| == |vs| == |Placed(vs)|
    ensures forall a, b :: 0 <= a < b < |tracks| ==> tracks[a] != tracks[b]
    ensures forall j :: 0 <= j < i ==> PartOf(tracks[j]) == Placed(vs)[j]
    ensures forall j :: i <= j < |tracks| ==> PartOf(tracks[j]) == vs[j]
  {
  }

  lemma PlacedOneMore(tracks: seq<FragmentTrack>, vs: seq<Part>, i: nat)
    requires i < |tracks| == |vs|
    requires forall a, b :: 0 <= a < b < |tracks| ==> tracks[a] != tracks[b]
    requires forall j :: 0 <= j < i ==> PartOf(tracks[j]) == Placed(vs)[j]
    requires PartOf(tracks[i]) == Placed(vs)[i]
    requires forall j :: i < j < |tracks| ==> PartOf(tracks[j]) == vs[j]
    ensures PlacedUpTo(tracks, vs, i + 1)
  {
  }

  /** fmp4_write_moof: one pass. */
  method WriteMoof(io: Stream, tracks: seq<FragmentTrack>, number: u32, moofOffset: nat, moof: u32, ghost vs: seq<Part>)
    returns (size: u32)
    requires io.Valid() && Holding(tracks, vs) && Countable(Placed(vs)) && moofOffset < TWO_64
    requires Fits(MoofTree(number, Placed(vs), moofOffset, moof))
    modifies io, tracks`samples, tracks`tfhd
    ensures io.Valid() && io.base == old(io.base) && io.start == old(io.start)
    ensures Holding(tracks, Placed(vs))
    ensures var t := MoofTree(number, Placed(vs), moofOffset, moof);
            io.done == old(io.done) + Serialize(t) && size == SizeOf(t)
  {
    hide Splice, Opened, Serialize, SizeOf, SizeOfAll, Fits, Trafs, TrafTree, BE32, MfhdTree, Placed, StartOf;
    hide PartOf, PlacedUpTo, Holding;
    NonePlaced(tracks, vs);
    ghost var pre, ps := io.done, Placed(vs);
    var offset, total := BeginMoof(io, number, ps, moofOffset, moof);
    var n: nat, i: nat := 0, 0;
    while i < |tracks|
      invariant i <= |tracks| && n == StartOf(vs, i) && io.base == old(io.base) && io.start == old(io.start)
      invariant PlacedUpTo(tracks, vs, i)
      invariant MoofOpen(io, number, ps, i, moofOffset, moof, pre, total)
    {
      n, total := TrackInMoof(io, tracks, i, n, number, moofOffset, moof, total, vs, pre);
      i := i + 1;
    }
    AllPlaced(tracks, vs);
    MoofPartsFit(number, ps, moofOffset, moof);
    size := total;
    CloseNode(io, offset, size, pre, TAG_MOOF, MoofParts(number, ps, moofOffset, moof));
  }

  lemma NonePlaced(tracks: seq<FragmentTrack>, vs: seq<Part>)
    requires Holding(tracks, vs)
    ensures PlacedUpTo(tracks, vs, 0) && StartOf(vs, 0) == 0
  {
  }

  lemma AllPlaced(tracks: seq<FragmentTrack>, vs: seq<Part>)
    requires PlacedUpTo(tracks, vs, |tracks|)
    ensures Holding(tracks, Placed(vs))
  {
  }
}
