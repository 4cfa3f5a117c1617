/** From fragment to samples: what the reader hears of what the writer wrote. */
module FragmentPlayback {
  import opened Bytes
  import opened Samples
  import opened Boxes
  import opened TrackReader
  import opened TrackFragment
  import opened TrackFragmentReader
  import opened TrackFragmentRoundTrip
  import opened MoofWriter
  import opened Moof
  import opened FragmentWriter
  import opened Fmp4Writer
  import opened FragmentReader

  // ---------- one traf ----------

  ghost predicate Consecutive(s: seq<Sample>) { forall i :: 0 < i < |s| ==> !Breaks(s, i) }

  /** Placed samples make a single run. */
  lemma {:induction false} OneRun(v: Part, h: Header, n: nat, moof: u32)
    requires Consecutive(v.s) && 0 < n <= |v.s| < TWO_32
    ensures RunStart(v.s, n) == 0 && ClosedRuns(v, h, n, moof) == []
  {
    hide RunTree;
    if n > 1 {
      OneRun(v, h, n - 1, moof);
    }
  }

  lemma PlacedConsecutive(s: seq<Sample>, at: nat)
    ensures Consecutive(PlacedAt(s, at))
  {
    forall i | 0 < i < |s|
      ensures !Breaks(PlacedAt(s, at), i)
    {
      assert ByteSum(s, 0, i) == ByteSum(s, 0, i - 1) + s[i - 1].bytes;
    }
  }

  /** tfdt counts from the track's first dts; the file's clock holds the difference. */
  ghost predicate Clocked(v: Part) { |v.s| > 0 ==> -TWO_63 <= v.s[0].dts - v.start < TWO_63 }

  /** Where the fragment starts on the reader's clock. */
  function StartTime(t: ReadTrack, v: Part): int
    requires |v.s| > 0
  {
    v.s[0].dts - v.start + EmptyEdits(t.elst, |t.elst|)
  }

  ghost function RunOf(v: Part, at: nat, moof: u32): (ws: seq<u32>)
    requires 0 < |v.s| < TWO_32
    ensures SoundTrun(ws) && ws[1] == |v.s|
  {
    RunIsSound(v, HeaderFor(v, at), 0, |v.s|, moof);
    TrunWords(v, HeaderFor(v, at), 0, |v.s|, moof)
  }

  /** The track after its traf was read. */
  ghost function Heard(t: ReadTrack, v: Part, at: nat, moof: u32): ReadTrack
    requires |v.s| < TWO_32
  {
    if |v.s| == 0 then t
    else var h, ws, n := HeaderFor(v, at), RunOf(v, at, moof), |v.s|;
         t.(tfhd := h, samples := t.samples + SamplesIn(ws, h, StartTime(t, v), n), dts := DtsIn(ws, h, StartTime(t, v), n))
  }

  lemma HeaderHeard(v: Part, at: nat, trex: Defaults, implicit: nat)
    requires 0 < |v.s| && at < TWO_64
    ensures var ws := TfhdWords(HeaderFor(v, at), v.id);
            SoundTfhd(ws) && ws[1] == v.id && HeaderIn(ws, trex, at, implicit) == HeaderFor(v, at)
  {
    hide TfhdWords, HeaderIn, SoundTfhd;
    HeaderReadsBack(HeaderFor(v, at), v.id, trex, at, implicit);
  }

  lemma TableLoads(sc: Scan, tag: u32, ws: seq<u32>)
    requires tag == TAG_TFHD || tag == TAG_TFDT || tag == TAG_TRUN
    ensures LoadLeaf(sc, tag, Words(ws)) == if tag == TAG_TFHD then LoadTfhd(sc, ws)
                                            else if tag == TAG_TFDT then LoadTfdt(sc, ws) else LoadTrun(sc, ws)
  {
    WordsInWords(ws);
  }

  lemma ThreeBoxes(sc: Scan, ts: seq<Tree>)
    requires |ts| == 3 && ts[0].Leaf? && ts[1].Leaf? && ts[2].Leaf?
    ensures LoadTraf(sc, ts, 3)
            == match LoadLeaf(sc, ts[0].tag, ts[0].payload)
               case Malformed => Malformed
               case Read(s1) => match LoadLeaf(s1, ts[1].tag, ts[1].payload)
                                case Malformed => Malformed
                                case Read(s2) => LoadLeaf(s2, ts[2].tag, ts[2].payload)
  {
    hide LoadLeaf;
    assert LoadTraf(sc, ts, 0) == Read(sc);
    assert LoadTraf(sc, ts, 1) == LoadLeaf(sc, ts[0].tag, ts[0].payload);
    var two := LoadTraf(sc, ts, 2);
    assert two == match LoadLeaf(sc, ts[0].tag, ts[0].payload)
                  case Malformed => Malformed
                  case Read(s1) => LoadLeaf(s1, ts[1].tag, ts[1].payload);
  }

  lemma TrafParts3(v: Part, at: nat, moof: u32)
    requires 0 < |v.s| < TWO_32 && at < TWO_64 && Consecutive(v.s)
    ensures TrafParts(v, at, moof)
            == [Table(TAG_TFHD, TfhdWords(HeaderFor(v, at), v.id)), Table(TAG_TFDT, TfdtWords(v.s[0].dts - v.start)),
                Table(TAG_TRUN, RunOf(v, at, moof))]
  {
    hide Words, TfhdWords, TfdtWords, TrunWords, HeaderFor;
    OneRun(v, HeaderFor(v, at), |v.s|, moof);
  }

  /** Reading one traf changes its own track only. */
  lemma TrafLoads(sc: Scan, v: Part, at: nat, moof: u32, j: nat)
    requires 0 < |v.s| < TWO_32 && at < TWO_64 && Consecutive(v.s) && Clocked(v) && sc.moof == at
    requires j < |sc.tracks| && sc.tracks[j].id == v.id && forall i :: 0 <= i < j ==> sc.tracks[i].id != v.id
    ensures var ts, out := TrafParts(v, at, moof), LoadTraf(sc, TrafParts(v, at, moof), |TrafParts(v, at, moof)|);
            && out.Read? && out.scan.moof == at && out.scan.tracks == sc.tracks[j := Heard(sc.tracks[j], v, at, moof)]
  {
    hide Words, TfhdWords, TfdtWords, TrunWords, SamplesIn, DtsIn, OffsetIn, HeaderIn, HeaderFor, LoadLeaf;
    hide TimeIn, SoundTfdt, SoundTfhd;
    var t, h, ws := sc.tracks[j], HeaderFor(v, at), RunOf(v, at, moof);
    var time := v.s[0].dts - v.start;
    TrafParts3(v, at, moof);
    ThreeBoxes(sc, TrafParts(v, at, moof));
    FindsFirst(sc.tracks, v.id, |sc.tracks|, j);
    HeaderHeard(v, at, t.trex, sc.implicit);
    TableLoads(sc, TAG_TFHD, TfhdWords(h, v.id));
    var s1 := sc.(current := j, tracks := sc.tracks[j := t.(tfhd := h)]);
    TimeReadsBack(time);
    TableLoads(s1, TAG_TFDT, TfdtWords(time));
    var s2 := s1.(tracks := s1.tracks[j := t.(tfhd := h, dts := StartTime(t, v))]);
    TableLoads(s2, TAG_TRUN, ws);
  }

  // ---------- the whole moof ----------

  /** The reader's tracks are the writer's, by number. */
  ghost predicate SameTracks(tracks: seq<ReadTrack>, vs: seq<Part>)
  {
    && |tracks| == |vs|
    && (forall j :: 0 <= j < |vs| ==> tracks[j].id == vs[j].id)
    && forall i, j :: 0 <= i < j < |vs| ==> vs[i].id != vs[j].id
  }

  ghost predicate Playable(vs: seq<Part>)
  {
    Countable(vs) && forall j :: 0 <= j < |vs| ==> Consecutive(vs[j].s) && Clocked(vs[j])
  }

  /** The state after the trafs of the first k tracks. */
  ghost predicate HeardUpTo(out: Outcome, sc: Scan, vs: seq<Part>, at: nat, moof: u32, k: nat)
    requires Countable(vs) && |sc.tracks| == |vs| && k <= |vs|
  {
    && out.Read? && out.scan.moof == at && |out.scan.tracks| == |vs|
    && (forall j :: 0 <= j < k ==> vs[j] in vs && out.scan.tracks[j] == Heard(sc.tracks[j], vs[j], at, moof))
    && (forall j :: k <= j < |vs| ==> out.scan.tracks[j] == sc.tracks[j])
  }

  lemma {:induction false} TrafsArePrefix(vs: seq<Part>, k: nat, n: nat, at: nat, moof: u32)
    requires k <= n <= |vs| && Countable(vs) && at < TWO_64
    ensures Trafs(vs, k, at, moof) <= Trafs(vs, n, at, moof)
  {
    hide TrafTree;
    if k < n {
      TrafsArePrefix(vs, k, n - 1, at, moof);
    }
  }

  lemma {:induction false} MoofLoads(sc: Scan, number: u32, vs: seq<Part>, at: nat, moof: u32, k: nat)
    requires Playable(vs) && at < TWO_64 && k <= |vs| && SameTracks(sc.tracks, vs) && sc.moof == at
    ensures var ts, n := MoofParts(number, vs, at, moof), 1 + |Trafs(vs, k, at, moof)|;
            n <= |ts| && HeardUpTo(LoadMoof(sc, ts, n), sc, vs, at, moof, k)
  {
    hide TrafParts, LoadTraf, Heard, Consecutive, Clocked, HeardUpTo, LoadChild, MoofParts;
    var ts := MoofParts(number, vs, at, moof);
    TrafsArePrefix(vs, k, |vs|, at, moof);
    AllParts(number, vs, at, moof);
    if k == 0 {
      assert LoadMoof(sc, ts, 0) == Read(sc);
      NoneHeard(sc, number, vs, at, moof);
    } else {
      MoofLoads(sc, number, vs, at, moof, k - 1);
      var v, n := vs[k - 1], 1 + |Trafs(vs, k - 1, at, moof)|;
      assert v in vs;
      if |v.s| > 0 {
        TrafAt(number, vs, at, moof, k - 1);
      }
      HeardStep(LoadMoof(sc, ts, n), sc, vs, at, moof, k - 1);
    }
  }

  lemma TrafAt(number: u32, vs: seq<Part>, at: nat, moof: u32, k: nat)
    requires Countable(vs) && at < TWO_64 && k < |vs| && |vs[k].s| > 0
    ensures var ts, n := MoofParts(number, vs, at, moof), 1 + |Trafs(vs, k, at, moof)|;
            n < |ts| && n + 1 == 1 + |Trafs(vs, k + 1, at, moof)| && ts[n] == TrafTree(vs[k], at, moof)
  {
    hide TrafTree;
    TrafsArePrefix(vs, k + 1, |vs|, at, moof);
    assert Trafs(vs, |vs|, at, moof)[|Trafs(vs, k, at, moof)|] == TrafTree(vs[k], at, moof);
  }

  lemma NoneHeard(sc: Scan, number: u32, vs: seq<Part>, at: nat, moof: u32)
    requires Countable(vs) && at < TWO_64 && SameTracks(sc.tracks, vs) && sc.moof == at
    ensures HeardUpTo(LoadMoof(sc, MoofParts(number, vs, at, moof), 1), sc, vs, at, moof, 0)
  {
    hide Trafs, Heard;
    var ts := MoofParts(number, vs, at, moof);
    assert LoadMoof(sc, ts, 0) == Read(sc) && ts[0] == MfhdTree(number);
  }

  /** Reading the traf of track k, or having none to read, hears one more track. */
  lemma HeardStep(out: Outcome, sc: Scan, vs: seq<Part>, at: nat, moof: u32, k: nat)
    requires Playable(vs) && at < TWO_64 && k < |vs| && SameTracks(sc.tracks, vs) && HeardUpTo(out, sc, vs, at, moof, k)
    ensures out.Read?
    ensures |vs[k].s| == 0 ==> HeardUpTo(out, sc, vs, at, moof, k + 1)
    ensures |vs[k].s| > 0 ==> HeardUpTo(LoadChild(out.scan, TrafTree(vs[k], at, moof)), sc, vs, at, moof, k + 1)
  {
    hide TrafParts, LoadTraf, Heard, Consecutive, Clocked;
    var v := vs[k];
    assert v in vs;
    if |v.s| > 0 {
      HeardIds(sc, out.scan, vs, at, moof, k);
      TrafLoads(out.scan, v, at, moof, k);
    } else {
      SilentTrack(sc.tracks[k], v, at, moof);
    }
  }

  lemma SilentTrack(t: ReadTrack, v: Part, at: nat, moof: u32)
    requires |v.s| == 0
    ensures Heard(t, v, at, moof) == t
  {
  }

  lemma HeardIds(sc: Scan, now: Scan, vs: seq<Part>, at: nat, moof: u32, k: nat)
    requires Countable(vs) && SameTracks(sc.tracks, vs) && k < |vs| && HeardUpTo(Read(now), sc, vs, at, moof, k)
    ensures now.tracks[k].id == vs[k].id && forall i :: 0 <= i < k ==> now.tracks[i].id != vs[k].id
  {
    hide HeaderFor, SamplesIn, DtsIn;
  }

  // ---------- the reader on the file ----------

  lemma TablesWalk(v: Part, at: nat, moof: u32)
    requires 0 < |v.s| < TWO_32 && at < TWO_64 && Consecutive(v.s) && Fits(TrafTree(v, at, moof))
    ensures Walkable(TrafParts(v, at, moof)) && 8 < SizeOf(TrafTree(v, at, moof))
  {
    hide Words, TfhdWords, TfdtWords, TrunWords, HeaderFor, TrafParts, Fits;
    TrafParts3(v, at, moof);
    TrafPartsFit(v, at, moof);
    var ts := TrafParts(v, at, moof);
    forall i | 0 <= i < |ts|
      ensures Fits(ts[i]) && 8 < SizeOf(ts[i])
    {
      assert ts[i] in ts;
      TableSize(ts[i].tag, if i == 0 then TfhdWords(HeaderFor(v, at), v.id) else if i == 1 then TfdtWords(v.s[0].dts - v.start) else RunOf(v, at, moof));
      SomeWords(v, at);
    }
  }

  lemma SomeWords(v: Part, at: nat)
    requires 0 < |v.s| && at < TWO_64
    ensures |TfhdWords(HeaderFor(v, at), v.id)| > 0 && |TfdtWords(v.s[0].dts - v.start)| > 0
  {
  }

  lemma MoofWalks(number: u32, vs: seq<Part>, at: nat, moof: u32)
    requires Playable(vs) && at < TWO_64 && Fits(MoofTree(number, vs, at, moof))
    ensures var ts := MoofParts(number, vs, at, moof);
            Walkable(ts) && forall t :: t in ts && t.Node? ==> Walkable(t.children)
  {
    hide SizeOf, Fits, Walkable, TrafParts, Consecutive, Clocked, Table;
    var ts := MoofParts(number, vs, at, moof);
    MoofPartsFit(number, vs, at, moof);
    TableSize(TAG_MFHD, [0, number]);
    forall t | t in ts
      ensures Fits(t) && 8 < SizeOf(t) && (t.Node? ==> Walkable(t.children))
    {
      if t in Trafs(vs, |vs|, at, moof) {
        TrafWalks(vs, |vs|, at, moof, t);
      } else {
        assert t == ts[0];
        assert Table(TAG_MFHD, [0, number]).Leaf? by { LeafTable(TAG_MFHD, [0, number]); }
      }
    }
    AllWalk(ts);
  }

  lemma LeafTable(tag: u32, ws: seq<u32>)
    ensures Table(tag, ws).Leaf?
  {
  }

  lemma AllWalk(ts: seq<Tree>)
    requires forall t :: t in ts ==> Fits(t) && 8 < SizeOf(t)
    ensures Walkable(ts)
  {
  }

  lemma {:induction false} TrafWalks(vs: seq<Part>, k: nat, at: nat, moof: u32, t: Tree)
    requires Playable(vs) && at < TWO_64 && k <= |vs| && t in Trafs(vs, k, at, moof) && Fits(t)
    ensures 8 < SizeOf(t) && t.Node? && Walkable(t.children)
  {
    hide SizeOf, Fits, Walkable, TrafParts, Consecutive, Clocked;
    var v := vs[k - 1];
    assert v in vs;
    if t in Trafs(vs, k - 1, at, moof) {
      TrafWalks(vs, k - 1, at, moof, t);
    } else {
      assert t == TrafTree(v, at, moof);
      TablesWalk(v, at, moof);
    }
  }

  /** The fragment lies in the file at its place. */
  ghost predicate LiesIn(f: Fragment, d: seq<byte>)
    requires WellFormed(f)
  {
    f.at + |FragmentBytes(f)| <= |d| && d[f.at..f.at + |FragmentBytes(f)|] == FragmentBytes(f)
  }

  lemma MoofLies(f: Fragment, d: seq<byte>)
    requires WellFormed(f) && LiesIn(f, d)
    ensures var t := MoofTree(f.number, f.parts, f.at, DataStart(f.number, f.parts, f.at));
            Fits(t) && SizeOf(t) == MoofSize(f.number, f.parts, f.at) && f.at + SizeOf(t) <= |d| && d[f.at..f.at + SizeOf(t)] == Serialize(t)
  {
    hide Fits, SizeOf, Serialize, MoofTree, MediaBytes, Words, MdatHeader, Placed, AllMatching, StartOf, DataStart;
    SecondFits(f.number, f.parts, f.at);
    var bs, n := FragmentBytes(f), MoofSize(f.number, f.parts, f.at);
    SubSlice(d, f.at, bs, 0, n);
    SliceOfSum(MoofBytes(f.number, f.parts, f.at, DataStart(f.number, f.parts, f.at)),
               Words(MdatHeader(Total(f))) + MediaBytes(f.blocks, |f.blocks|), 0, n);
    assert MoofBytes(f.number, f.parts, f.at, DataStart(f.number, f.parts, f.at))[0..n]
        == MoofBytes(f.number, f.parts, f.at, DataStart(f.number, f.parts, f.at));
  }

  lemma SoundPlayable(f: Fragment)
    requires WellFormed(f) && forall j :: 0 <= j < |f.parts| ==> Clocked(f.parts[j])
    ensures Countable(f.parts) && Playable(f.parts) && f.at < TWO_64
  {
    hide ByteSum, Fits, MoofTree, AllMatching;
    forall j | 0 <= j < |f.parts|
      ensures Consecutive(f.parts[j].s)
    {
      PlacedConsecutive(f.parts[j].s, StartOf(f.parts, j));
      assert Placed(f.parts)[j] == f.parts[j];
    }
  }

  /** Reading the moof of a written fragment gives every track what its part says. */
  method PlayFragment(reader: FragmentReader, ghost f: Fragment)
    requires reader.io.error == 0 && reader.io.pos == f.at && WellFormed(f) && LiesIn(f, reader.io.data)
    requires SameTracks(reader.tracks, f.parts) && forall j :: 0 <= j < |f.parts| ==> Clocked(f.parts[j])
    modifies reader, reader.io
    ensures reader.io.data == old(reader.io.data) && reader.io.error == 0
    ensures |reader.tracks| == |f.parts|
    ensures forall j :: 0 <= j < |f.parts| ==> |f.parts[j].s| < TWO_32
    ensures forall j :: 0 <= j < |f.parts| ==>
      reader.tracks[j] == Heard(old(reader.tracks[j]), f.parts[j], f.at, DataStart(f.number, f.parts, f.at))
  {
    hide WellFormed, LiesIn, Fits, Walkable, SizeOf, Serialize, LoadMoof, MoofParts, Clocked, Playable, Heard;
    hide DataStart;
    hide Countable, MoofTree, HeardUpTo, Trafs;
    SoundPlayable(f);
    ghost var m := DataStart(f.number, f.parts, f.at);
    ghost var ts := MoofParts(f.number, f.parts, f.at, m);
    MoofLies(f, reader.io.data);
    MoofWalks(f.number, f.parts, f.at, m);
    AllParts(f.number, f.parts, f.at, m);
    NodeSize(TAG_MOOF, ts);
    OneBox(reader.io.data, f.at, Node(TAG_MOOF, ts));
    ghost var sc := reader.State().(moof := f.at, implicit := f.at);
    MoofLoads(sc, f.number, f.parts, f.at, m, |f.parts|);
    AllHeard(LoadMoof(sc, ts, |ts|), sc, f.parts, f.at, m);
    reader.ReadMoof(ts);
  }

  lemma AllHeard(out: Outcome, sc: Scan, vs: seq<Part>, at: nat, moof: u32)
    requires Countable(vs) && |sc.tracks| == |vs| && HeardUpTo(out, sc, vs, at, moof, |vs|)
    ensures out.Read? && |out.scan.tracks| == |vs| && forall j :: 0 <= j < |vs| ==> |vs[j].s| < TWO_32
    ensures forall j :: 0 <= j < |vs| ==> out.scan.tracks[j] == Heard(sc.tracks[j], vs[j], at, moof)
  {
    assert forall j :: 0 <= j < |vs| ==> vs[j] in vs;
  }

  lemma NodeSize(tag: u32, ts: seq<Tree>)
    requires Walkable(ts) && |ts| > 0
    ensures 8 < SizeOf(Node(tag, ts))
  {
    assert SizeOf(Node(tag, ts)) == 8 + SizeOfAll(ts, |ts|);
    assert SizeOfAll(ts, |ts|) == SizeOfAll(ts, |ts| - 1) + SizeOf(ts[|ts| - 1]);
  }

  lemma AllParts(number: u32, vs: seq<Part>, at: nat, moof: u32)
    requires Countable(vs) && at < TWO_64
    ensures |MoofParts(number, vs, at, moof)| == 1 + |Trafs(vs, |vs|, at, moof)|
    ensures MoofTree(number, vs, at, moof) == Node(TAG_MOOF, MoofParts(number, vs, at, moof))
  {
  }

  lemma OneBox(d: seq<byte>, q: nat, t: Tree)
    requires Fits(t) && t.Node? && |t.children| > 0 && 8 < SizeOf(t)
    requires q + SizeOf(t) <= |d| && d[q..q + SizeOf(t)] == Serialize(t)
    ensures BoxesAt(d, q, [t])
  {
    hide SizeOf, Serialize, Fits;
    assert SizeOfAll([t], 0) == 0 && SizeOfAll([t], 1) == SizeOf(t);
    assert SerializeAll([t], 0) == [] && SerializeAll([t], 1) == [] + Serialize(t) == Serialize(t);
  }
}
