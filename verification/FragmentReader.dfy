/** mov-reader.c on a fragment: the walk through moof, down to the samples. */
module FragmentReader {
  import opened Bytes
  import opened Samples
  import opened MovStream
  import opened Boxes
  import opened Tracks
  import opened TrackReader
  import opened TrackFragment
  import opened TrackFragmentReader
  import opened MoofWriter

  /** A track as the reader keeps it between fragments. */
  datatype ReadTrack = ReadTrack(id: u32, trex: Defaults, elst: seq<Edit>, tfhd: Header, dts: int, samples: seq<Sample>)

  /** The reader's state: `current` is the track that the last tfhd named. */
  datatype Scan = Scan(tracks: seq<ReadTrack>, current: nat, moof: nat, implicit: nat)

  datatype Outcome = Malformed | Read(scan: Scan)

  /** A payload taken four bytes at a time. */
  function WordsIn(p: seq<byte>): (ws: seq<u32>)
    requires |p| % 4 == 0
    ensures |ws| == |p| / 4 && forall i :: 0 <= i < |ws| ==> ws[i] == U32At(p, 4 * i)
  {
    seq(|p| / 4, i requires 0 <= i < |p| / 4 => U32At(p, 4 * i))
  }

  lemma WordsInWords(ws: seq<u32>)
    ensures WordsIn(Words(ws)) == ws
  {
    forall i | 0 <= i < |ws|
      ensures WordsIn(Words(ws))[i] == ws[i]
    {
      WordsDecode(ws, i);
    }
  }

  lemma FourBytes(p: seq<byte>, i: nat)
    requires i + 4 <= |p|
    ensures BE32(U32At(p, i)) == p[i..i + 4]
  {
    var hi, lo := U16At(p, i), U16At(p, i + 2);
    assert U32At(p, i) / 0x1_0000 == hi && U32At(p, i) % 0x1_0000 == lo;
    assert hi / 0x100 == p[i] && hi % 0x100 == p[i + 1] && lo / 0x100 == p[i + 2] && lo % 0x100 == p[i + 3];
  }

  lemma {:induction false} WordsOfWordsIn(p: seq<byte>)
    requires |p| % 4 == 0
    ensures Words(WordsIn(p)) == p
  {
    hide BE32, U32At;
    if p != [] {
      var n := |p| - 4;
      var q := p[..n];
      WordsOfWordsIn(q);
      forall i | 0 <= i < |q| / 4
        ensures WordsIn(q)[i] == WordsIn(p)[i]
      {
        WordInSlice(p, 0, q, 4 * i);
      }
      assert WordsIn(p)[..|WordsIn(p)| - 1] == WordsIn(q);
      FourBytes(p, n);
      assert q + p[n..n + 4] == p;
    }
  }

  /** mov_find_track: the first of the first n tracks with this number, or n. */
  function Find(tracks: seq<ReadTrack>, id: u32, n: nat): (k: nat)
    requires n <= |tracks|
    ensures k <= n
  {
    if n == 0 then 0
    else var k := Find(tracks, id, n - 1);
         if k < n - 1 then k else if tracks[n - 1].id == id then n - 1 else n
  }

  lemma {:induction false} FindsFirst(tracks: seq<ReadTrack>, id: u32, n: nat, j: nat)
    requires j < n <= |tracks| && tracks[j].id == id && forall i :: 0 <= i < j ==> tracks[i].id != id
    ensures Find(tracks, id, n) == j
  {
    if n - 1 > j {
      FindsFirst(tracks, id, n - 1, j);
    } else {
      FindsNone(tracks, id, j);
    }
  }

  lemma {:induction false} FindsNone(tracks: seq<ReadTrack>, id: u32, n: nat)
    requires n <= |tracks| && forall i :: 0 <= i < n ==> tracks[i].id != id
    ensures Find(tracks, id, n) == n
  {
    if n > 0 {
      FindsNone(tracks, id, n - 1);
    }
  }

  // ---------- what the boxes do to the reader's state ----------

  function LoadTfhd(sc: Scan, ws: seq<u32>): Outcome
  {
    if !SoundTfhd(ws) then Malformed
    else var j := Find(sc.tracks, ws[1], |sc.tracks|);
         if j == |sc.tracks| then Malformed
         else var t := sc.tracks[j];
              Read(sc.(current := j, tracks := sc.tracks[j := t.(tfhd := HeaderIn(ws, t.trex, sc.moof, sc.implicit))]))
  }

  function LoadTfdt(sc: Scan, ws: seq<u32>): Outcome
  {
    if !SoundTfdt(ws) || sc.current >= |sc.tracks| then Malformed
    else var t := sc.tracks[sc.current];
         Read(sc.(tracks := sc.tracks[sc.current := t.(dts := TimeIn(ws) + EmptyEdits(t.elst, |t.elst|))]))
  }

  function LoadTrun(sc: Scan, ws: seq<u32>): Outcome
  {
    if !SoundTrun(ws) || sc.current >= |sc.tracks| then Malformed
    else var t := sc.tracks[sc.current];
         Read(sc.(implicit := OffsetIn(ws, t.tfhd, ws[1]),
                  tracks := sc.tracks[sc.current := t.(samples := t.samples + SamplesIn(ws, t.tfhd, t.dts, ws[1]),
                                                       dts := DtsIn(ws, t.tfhd, t.dts, ws[1]))]))
  }

  /** A box inside traf; those without a parser are skipped. */
  function LoadLeaf(sc: Scan, tag: u32, p: seq<byte>): Outcome
  {
    if tag != TAG_TFHD && tag != TAG_TFDT && tag != TAG_TRUN then Read(sc)
    else if |p| % 4 != 0 then Malformed
    else if tag == TAG_TFHD then LoadTfhd(sc, WordsIn(p))
    else if tag == TAG_TFDT then LoadTfdt(sc, WordsIn(p))
    else LoadTrun(sc, WordsIn(p))
  }

  function LoadTraf(sc: Scan, ts: seq<Tree>, n: nat): Outcome
    requires n <= |ts|
  {
    if n == 0 then Read(sc)
    else match LoadTraf(sc, ts, n - 1)
         case Malformed => Malformed
         case Read(now) => if ts[n - 1].Leaf? then LoadLeaf(now, ts[n - 1].tag, ts[n - 1].payload) else Malformed
  }

  /** A box inside moof: traf is walked, mfhd is read and ignored, others are skipped. */
  function LoadChild(sc: Scan, t: Tree): Outcome
  {
    match t
    case Leaf(tag, _) => if tag == TAG_TRAF then Malformed else Read(sc)
    case Node(tag, ts) => if tag == TAG_TRAF then LoadTraf(sc, ts, |ts|) else Malformed
  }

  function LoadMoof(sc: Scan, ts: seq<Tree>, n: nat): Outcome
    requires n <= |ts|
  {
    if n == 0 then Read(sc)
    else match LoadMoof(sc, ts, n - 1)
         case Malformed => Malformed
         case Read(now) => LoadChild(now, ts[n - 1])
  }

  lemma {:induction false} TrafPrefix(sc: Scan, ts: seq<Tree>, n: nat, m: nat)
    requires n <= m <= |ts| && LoadTraf(sc, ts, m).Read?
    ensures LoadTraf(sc, ts, n).Read?
  {
    if n < m {
      TrafPrefix(sc, ts, n, m - 1);
    }
  }

  lemma {:induction false} MoofPrefix(sc: Scan, ts: seq<Tree>, n: nat, m: nat)
    requires n <= m <= |ts| && LoadMoof(sc, ts, m).Read?
    ensures LoadMoof(sc, ts, n).Read?
  {
    hide LoadChild;
    if n < m {
      MoofPrefix(sc, ts, n, m - 1);
    }
  }

  // ---------- the walk ----------

  class FragmentReader {
    const io: Stream
    var tracks: seq<ReadTrack>
    var current: nat
    var moofOffset: nat
    var implicitOffset: nat

    constructor (io: Stream, tracks: seq<ReadTrack>)
      ensures this.io == io && this.tracks == tracks && current == |tracks|
    {
      this.io, this.tracks, current, moofOffset, implicitOffset := io, tracks, |tracks|, 0, 0;
    }

    ghost function State(): Scan
      reads this
    {
      Scan(tracks, current, moofOffset, implicitOffset)
    }

    method FindTrack(id: u32) returns (k: nat)
      ensures k == Find(tracks, id, |tracks|)
    {
      k := 0;
      while k < |tracks| && tracks[k].id != id
        invariant k <= |tracks| && forall i :: 0 <= i < k ==> tracks[i].id != id
      {
        k := k + 1;
      }
      if k < |tracks| {
        FindsFirst(tracks, id, |tracks|, k);
      } else {
        FindsNone(tracks, id, k);
      }
    }

    method ReadTfhd(ghost p: nat, ghost ws: seq<u32>)
      requires AtWord(io, p, ws, 0) && LoadTfhd(State(), ws).Read?
      modifies io, this`tracks, this`current
      ensures io.data == old(io.data) && AtWord(io, p, ws, |ws|) && State() == LoadTfhd(old(State()), ws).scan
    {
      hide AtWord, HeaderIn, Find;
      var _, flags := Version(io, p, ws);
      var id := Next(io, p, ws, 1);
      var k := FindTrack(id);
      current := k;
      var t := tracks[k];
      var h := ReadHeader(io, flags, t.trex, moofOffset, implicitOffset, p, ws);
      tracks := tracks[k := t.(tfhd := h)];
    }

    method ReadTime(ghost p: nat, ghost ws: seq<u32>)
      requires AtWord(io, p, ws, 0) && LoadTfdt(State(), ws).Read?
      modifies io, this`tracks
      ensures io.data == old(io.data) && AtWord(io, p, ws, |ws|) && State() == LoadTfdt(old(State()), ws).scan
    {
      hide AtWord;
      var t := tracks[current];
      var dts := ReadTfdt(io, t.elst, p, ws);
      tracks := tracks[current := t.(dts := dts)];
    }

    method ReadRun(ghost p: nat, ghost ws: seq<u32>)
      requires AtWord(io, p, ws, 0) && LoadTrun(State(), ws).Read?
      modifies io, this`tracks, this`implicitOffset
      ensures io.data == old(io.data) && AtWord(io, p, ws, |ws|) && State() == LoadTrun(old(State()), ws).scan
    {
      hide AtWord, SoundTrun;
      var t := tracks[current];
      var s, time, end := ReadTrun(io, t.tfhd, t.dts, p, ws);
      tracks := tracks[current := t.(samples := t.samples + s, dts := time)];
      implicitOffset := end;
    }

    /** The parse table below traf. */
    method ReadLeaf(tag: u32, size: nat, ghost p: seq<byte>)
      requires At(io, p) && size == |p| && LoadLeaf(State(), tag, p).Read?
      modifies io, this
      ensures io.data == old(io.data) && io.error == 0 && io.pos == old(io.pos) + |p|
      ensures State() == LoadLeaf(old(State()), tag, p).scan
    {
      hide Words, LoadTfhd, LoadTfdt, LoadTrun;
      if tag != TAG_TFHD && tag != TAG_TFDT && tag != TAG_TRUN {
        io.Seek(io.pos + size);
      } else {
        ghost var q, ws := io.pos, WordsIn(p);
        WordsOfWordsIn(p);
        assert AtWord(io, q, ws, 0);
        if tag == TAG_TFHD {
          ReadTfhd(q, ws);
        } else if tag == TAG_TFDT {
          ReadTime(q, ws);
        } else {
          ReadRun(q, ws);
        }
      }
    }

    /** mov_reader_box inside traf. */
    method ReadTraf(size: nat, ghost ts: seq<Tree>)
      requires io.error == 0 && BoxesAt(io.data, io.pos, ts) && size == SizeOfAll(ts, |ts|)
      requires LoadTraf(State(), ts, |ts|).Read?
      modifies io, this
      ensures io.data == old(io.data) && io.error == 0 && io.pos == old(io.pos) + size
      ensures State() == LoadTraf(old(State()), ts, |ts|).scan
    {
      hide LoadLeaf, SizeOf, Fits, Serialize, SerializeAll, Payload, U32At;
      var bytes: nat := 0;
      ghost var n: nat, q, d, sc := 0, io.pos, io.data, State();
      while bytes + 8 < size && io.error == 0
        invariant n <= |ts| && bytes == SizeOfAll(ts, n) <= size
        invariant io.data == d && io.error == 0 && io.pos == q + bytes
        invariant LoadTraf(sc, ts, n).Read? && State() == LoadTraf(sc, ts, n).scan
        decreases size - bytes
      {
        ChildHere(d, q, ts, n);
        TrafPrefix(sc, ts, n + 1, |ts|);
        PayloadOf(ts[n]);
        var boxSize := io.R32();
        var tag := io.R32();
        bytes := bytes + boxSize;
        ReadLeaf(tag, boxSize - 8, ts[n].payload);
        n := n + 1;
      }
      if n < |ts| {
        ChildHere(d, q, ts, n);
      }
    }

    /** mov_reader_box inside moof. */
    method ReadChildren(size: nat, ghost ts: seq<Tree>)
      requires io.error == 0 && BoxesAt(io.data, io.pos, ts) && size == SizeOfAll(ts, |ts|)
      requires LoadMoof(State(), ts, |ts|).Read? && forall t :: t in ts && t.Node? ==> Walkable(t.children)
      modifies io, this
      ensures io.data == old(io.data) && io.error == 0 && io.pos == old(io.pos) + size
      ensures State() == LoadMoof(old(State()), ts, |ts|).scan
    {
      hide LoadTraf, SizeOf, Fits, Serialize, SerializeAll, Payload, U32At, Walkable;
      var bytes: nat := 0;
      ghost var n: nat, q, d, sc := 0, io.pos, io.data, State();
      while bytes + 8 < size && io.error == 0
        invariant n <= |ts| && bytes == SizeOfAll(ts, n) <= size
        invariant io.data == d && io.error == 0 && io.pos == q + bytes
        invariant LoadMoof(sc, ts, n).Read? && State() == LoadMoof(sc, ts, n).scan
        decreases size - bytes
      {
        ChildHere(d, q, ts, n);
        MoofPrefix(sc, ts, n + 1, |ts|);
        PayloadOf(ts[n]);
        var boxSize := io.R32();
        var tag := io.R32();
        bytes := bytes + boxSize;
        if tag == TAG_TRAF {
          ReadTraf(boxSize - 8, ts[n].children);
        } else {
          io.Seek(io.pos + (boxSize - 8));
        }
        n := n + 1;
      }
      if n < |ts| {
        ChildHere(d, q, ts, n);
      }
    }

    /** The box header, then mov_read_moof: offsets in the fragment count from where moof starts. */
    method ReadMoof(ghost ts: seq<Tree>)
      requires io.error == 0 && Fits(Node(TAG_MOOF, ts)) && BoxesAt(io.data, io.pos, [Node(TAG_MOOF, ts)])
      requires Walkable(ts) && forall t :: t in ts && t.Node? ==> Walkable(t.children)
      requires LoadMoof(State().(moof := io.pos, implicit := io.pos), ts, |ts|).Read?
      modifies io, this
      ensures io.data == old(io.data) && io.error == 0 && io.pos == old(io.pos) + SizeOf(Node(TAG_MOOF, ts))
      ensures State() == LoadMoof(old(State()).(moof := old(io.pos), implicit := old(io.pos)), ts, |ts|).scan
    {
      hide LoadMoof, SizeOf, Fits, Serialize, SerializeAll, Payload, U32At, Walkable;
      ghost var moof := Node(TAG_MOOF, ts);
      ChildHere(io.data, io.pos, [moof], 0);
      PayloadOf(moof);
      assert SizeOfAll([moof], 0) == 0;
      var size := io.R32();
      var _ := io.R32();
      moofOffset, implicitOffset := io.pos - 8, io.pos - 8;
      ReadChildren(size - 8, ts);
    }
  }
}
