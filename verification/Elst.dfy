/** mov-elst.c: the edit list, which carries the start time of a track. */
module Elst {
  import opened Bytes
  import opened Samples
  import opened Tracks
  import opened MovStream

  const TAG_ELST: u32 := 0x656c7374
  const RATE_ONE: u32 := 0x1_0000  // media_rate 1.0, integer and fraction

  /** What mov_write_elst derives from the first sample and the two time scales. */
  datatype EditPlan = EditPlan(delay: int, time: int, duration: u64)
  {
    /** Version 1 fields are 64 bits wide. */
    predicate Long() { duration > UINT32_MAX || delay > UINT32_MAX }

    ghost predicate Valid() { delay < TWO_63 && 0 <= time < TWO_63 }

    function Words(): seq<u32>
      requires Valid()
    {
      var wide, version: u32 := Long(), if Long() then 0x100_0000 else 0;
      if delay > 0 then
        [16 + 2 * (if wide then 20 else 12), TAG_ELST, version, 2]
        + Entry(delay, if wide then TWO_64 - 1 else TWO_32 - 1) + Entry(duration, time)
      else
        [16 + (if wide then 20 else 12), TAG_ELST, version, 1] + Entry(duration, time)
    }

    function Entry(duration: u64, mediaTime: u64): seq<u32>
    {
      if Long() then
        [duration / TWO_32, duration % TWO_32, mediaTime / TWO_32, mediaTime % TWO_32, RATE_ONE]
      else
        [ToU32(duration), ToU32(mediaTime), RATE_ONE]
    }
  }

  function PlanOf(first: Sample, movieTimescale: u32, timescale: u32, duration: u64): EditPlan
    requires timescale > 0
  {
    var time := first.pts - first.dts;
    EditPlan(TruncDiv(first.pts * movieTimescale, timescale), if time < 0 then 0 else time, duration)
  }

  method WriteEntry(io: Stream, wide: bool, duration: u64, mediaTime: u64, ghost pre: seq<byte>, ghost ws: seq<u32>)
    requires io.Valid() && io.done == pre + Words(ws)
    modifies io
    ensures io.Valid() && io.base == old(io.base) && io.start == old(io.start)
    ensures io.done == pre + Words(ws +
      if wide then [duration / TWO_32, duration % TWO_32, mediaTime / TWO_32, mediaTime % TWO_32, RATE_ONE]
      else [ToU32(duration), ToU32(mediaTime), RATE_ONE])
  {
    hide Words, Splice;
    ghost var xs: seq<u32>;
    if wide {
      io.PutWord64(duration, pre, ws);
      xs := ws + [duration / TWO_32, duration % TWO_32];
      io.PutWord64(mediaTime, pre, xs);
      xs := xs + [mediaTime / TWO_32, mediaTime % TWO_32];
    } else {
      io.PutWord(ToU32(duration), pre, ws);
      xs := ws + [ToU32(duration)];
      io.PutWord(ToU32(mediaTime), pre, xs);
      xs := xs + [ToU32(mediaTime)];
    }
    io.PutWord(RATE_ONE, pre, xs);
    assert xs + [RATE_ONE] == ws +
      if wide then [duration / TWO_32, duration % TWO_32, mediaTime / TWO_32, mediaTime % TWO_32, RATE_ONE]
      else [ToU32(duration), ToU32(mediaTime), RATE_ONE];
  }

  method WriteElst(io: Stream, track: Track, movieTimescale: u32) returns (size: u32)
    requires io.Valid() && track.Valid() && track.sampleCount > 0 && track.timescale > 0
    requires PlanOf(track.samples[0], movieTimescale, track.timescale, track.duration).Valid()
    modifies io
    ensures io.Valid() && io.base == old(io.base) && io.start == old(io.start)
    ensures var ws := PlanOf(track.samples[0], movieTimescale, track.timescale, track.duration).Words();
            io.done == old(io.done) + Words(ws) && size == 4 * |ws|
  {
    hide Words, Splice;
    var first := track.samples[0];
    ghost var plan := PlanOf(first, movieTimescale, track.timescale, track.duration);
    var time := first.pts - first.dts;
    var delay := TruncDiv(first.pts * movieTimescale, track.timescale);
    var wide := track.duration > UINT32_MAX || delay > UINT32_MAX;
    time := if time < 0 then 0 else time;
    size := 16 + (if delay > 0 then 2 else 1) * (if wide then 20 else 12);
    ghost var pre := io.done;
    ghost var ws: seq<u32> := [size, TAG_ELST, if wide then 0x100_0000 else 0, if delay > 0 then 2 else 1];
    io.Header(size, TAG_ELST, if wide then 0x100_0000 else 0, if delay > 0 then 2 else 1);
    if delay > 0 {
      WriteEntry(io, wide, delay, if wide then TWO_64 - 1 else TWO_32 - 1, pre, ws);
      ws := ws + plan.Entry(delay, if wide then TWO_64 - 1 else TWO_32 - 1);
    }
    WriteEntry(io, wide, track.duration, time, pre, ws);
  }

  // ---------- reading ----------

  /** The C cast `(int64_t)v`. */
  function ToI64(v: u64): int { if v < TWO_63 then v else v - TWO_64 }

  function EditBytes(n: nat, wide: bool): nat { if wide then 20 * n else 12 * n }

  function EditAt(data: seq<byte>, p: nat, i: nat, wide: bool): Edit
    requires p + EditBytes(i + 1, wide) <= |data|
  {
    if wide then Edit(U64At(data, p + 20 * i), ToI64(U64At(data, p + 20 * i + 8)))
    else Edit(U32At(data, p + 12 * i), ToI32(U32At(data, p + 12 * i + 4)))
  }

  method ReadElst(io: Stream, track: Track) returns (r: int)
    requires io.error == 0
    modifies io, track`elst
    ensures io.data == old(io.data) && r == io.error
    ensures var p := old(io.pos);
            p + 8 <= |io.data| ==>
              var wide := io.data[p] == 1;
              p + 8 + EditBytes(U32At(io.data, p + 4), wide) <= |io.data| ==>
                && r == 0
                && |track.elst| == U32At(io.data, p + 4)
                && io.pos == p + 8 + EditBytes(|track.elst|, wide)
                && forall i :: 0 <= i < |track.elst| ==> track.elst[i] == EditAt(io.data, p + 8, i, wide)
  {
    ghost var p, d := io.pos, io.data;
    var version := io.R8();
    var _ := io.R24();
    var entryCount := io.R32();
    var wide := version == 1;
    ghost var ok := p + 8 <= |d| && p + 8 + EditBytes(entryCount, wide) <= |d|;
    var table: seq<Edit> := [];
    var i: nat := 0;
    while i < entryCount
      invariant i <= entryCount && |table| == i && io.data == d
      invariant ok ==> io.error == 0 && io.pos == p + 8 + EditBytes(i, wide)
      invariant ok ==> forall k :: 0 <= k < i ==> table[k] == EditAt(d, p + 8, k, wide)
    {
      var e := ReadEdit(io, wide);
      table := table + [e];
      i := i + 1;
    }
    track.elst := table;
    r := io.error;
  }

  method ReadEdit(io: Stream, wide: bool) returns (e: Edit)
    modifies io
    ensures io.data == old(io.data)
    ensures var p, w := old(io.pos), EditBytes(1, wide);
            old(io.error) == 0 && p + w <= |io.data| ==>
              io.error == 0 && io.pos == p + w && e == EditAt(io.data, p, 0, wide)
    ensures var p, w := old(io.pos), EditBytes(1, wide);
            !(old(io.error) == 0 && p + w <= |io.data|) ==> io.error != 0
  {
    if wide {
      var duration := io.R64();
      var mediaTime := io.R64();
      e := Edit(duration, ToI64(mediaTime));
    } else {
      var duration := io.R32();
      var mediaTime := io.R32();
      e := Edit(duration, ToI32(mediaTime));
    }
    var _ := io.R16();
    var _ := io.R16();
  }

  /** The start time an edit list stands for: the last empty edit's duration, else 0. */
  function StartOf(es: seq<Edit>, m: nat): int
    requires m <= |es|
  {
    if m == 0 then 0
    else if es[m - 1].mediaTime == -1 then es[m - 1].duration
    else StartOf(es, m - 1)
  }

  method ApplyElst(track: Track)
    requires |track.samples| > 0
    modifies track`samples
    ensures var start := StartOf(track.elst, |track.elst|);
            track.samples == old(track.samples)[0 := old(track.samples)[0].(dts := start, pts := start)]
  {
    ghost var s, es := track.samples, track.elst;
    track.samples := track.samples[0 := track.samples[0].(dts := 0, pts := 0)];
    var i: nat := 0;
    while i < |track.elst|
      invariant i <= |es| && track.elst == es
      invariant track.samples == s[0 := s[0].(dts := StartOf(es, i), pts := StartOf(es, i))]
    {
      if track.elst[i].mediaTime == -1 {
        var d := track.elst[i].duration;
        track.samples := track.samples[0 := track.samples[0].(dts := d, pts := d)];
      }
      i := i + 1;
    }
  }

  /** The edits a reader finds behind the box header of a written edit list. */
  function EditsOf(plan: EditPlan): seq<Edit>
    requires plan.Valid()
  {
    var last := Edit(plan.duration, if plan.Long() then plan.time else ToI32(ToU32(plan.time)));
    if plan.delay > 0 then [Edit(plan.delay, -1), last] else [last]
  }

  /**
   * The start time survives exactly when the second edit is not mistaken for an empty one.
   * The mistake needs a short edit list and a first composition offset of 2^32 - 1.
   */
  lemma StartRoundTripIff(plan: EditPlan)
    requires plan.Valid()
    ensures var es := EditsOf(plan);
            StartOf(es, |es|) == (if plan.delay > 0 then plan.delay else 0)
            <==> (plan.Long() || ToU32(plan.time) != UINT32_MAX || plan.duration == if plan.delay > 0 then plan.delay else 0)
  {
    var es := EditsOf(plan);
    if plan.delay > 0 {
      assert StartOf(es, 1) == plan.delay;
    } else {
      assert StartOf(es, 0) == 0;
    }
  }

  // ---------- what the edit list of a track says ----------

  /** When a track starts, in units of the movie, rounded toward zero; never negative. */
  function StartTime(pts: int, movieTimescale: u32, timescale: u32): (t: nat)
    requires timescale > 0
    ensures pts * movieTimescale <= 0 ==> t == 0
    ensures pts * movieTimescale >= 0 ==> timescale * t <= pts * movieTimescale < timescale * t + timescale
  {
    if pts * movieTimescale > 0 then pts * movieTimescale / timescale else 0
  }

  /** A first composition offset below 0 is not written. */
  function MediaTime(pts: int, dts: int): nat { if pts > dts then pts - dts else 0 }

  /** The entries need 64 bits. */
  predicate WideEdits(pts: int, movieTimescale: u32, timescale: u32, duration: u64)
    requires timescale > 0
  {
    duration > UINT32_MAX || StartTime(pts, movieTimescale, timescale) > UINT32_MAX
  }

  /** In 32 bits, this composition offset reads as the mark of an empty edit. */
  predicate Mistaken(pts: int, dts: int, movieTimescale: u32, timescale: u32, duration: u64)
    requires timescale > 0
  {
    !WideEdits(pts, movieTimescale, timescale, duration) && MediaTime(pts, dts) % TWO_32 == UINT32_MAX
  }

  /**
   * The table a reader finds: one empty edit in front exactly when the track does not start at 0, and the
   * track's duration from its first composition offset on.
   */
  lemma EditsReadBack(first: Sample, movieTimescale: u32, timescale: u32, duration: u64)
    requires timescale > 0 && PlanOf(first, movieTimescale, timescale, duration).Valid()
    ensures var es := EditsOf(PlanOf(first, movieTimescale, timescale, duration));
            var start, time := StartTime(first.pts, movieTimescale, timescale), MediaTime(first.pts, first.dts);
            && |es| == (if start > 0 then 2 else 1)
            && (start > 0 ==> es[0] == Edit(start, -1))
            && es[|es| - 1].duration == duration
            && (WideEdits(first.pts, movieTimescale, timescale, duration) || time < TWO_31 ==> es[|es| - 1].mediaTime == time)
            && (es[|es| - 1].mediaTime == -1 <==> Mistaken(first.pts, first.dts, movieTimescale, timescale, duration))
  {
    PlannedDelay(first.pts, movieTimescale, timescale);
    hide TruncDiv, StartTime;
  }

  lemma PlannedDelay(pts: int, movieTimescale: u32, timescale: u32)
    requires timescale > 0
    ensures var d := TruncDiv(pts * movieTimescale, timescale);
            StartTime(pts, movieTimescale, timescale) == if d > 0 then d else 0
  {
    var p := pts * movieTimescale;
    if p < 0 {
      assert TruncDiv(p, timescale) <= 0;
    }
  }

  /** When a reader lets a track start. */
  function FirstTime(pts: int, dts: int, movieTimescale: u32, timescale: u32, duration: u64): nat
    requires timescale > 0
  {
    if Mistaken(pts, dts, movieTimescale, timescale, duration) then duration else StartTime(pts, movieTimescale, timescale)
  }

  /** What a reader makes of it: the track starts when it should, unless its last edit is mistaken for an empty one. */
  lemma StartReadBack(first: Sample, movieTimescale: u32, timescale: u32, duration: u64)
    requires timescale > 0 && PlanOf(first, movieTimescale, timescale, duration).Valid()
    ensures var es := EditsOf(PlanOf(first, movieTimescale, timescale, duration));
            StartOf(es, |es|) == FirstTime(first.pts, first.dts, movieTimescale, timescale, duration)
  {
    EditsReadBack(first, movieTimescale, timescale, duration);
    hide EditsOf, PlanOf, StartTime, Mistaken, WideEdits;
    var es := EditsOf(PlanOf(first, movieTimescale, timescale, duration));
    if |es| == 2 {
      assert StartOf(es, 1) == es[0].duration;
    } else {
      assert StartOf(es, 0) == 0;
    }
  }
}
