/** mov_apply_stts and mov_apply_ctts, and what the reader's timeline says about the writer's. */
module Timeline {
  import opened Bytes
  import opened Samples
  import opened RunLength
  import opened Tracks
  import opened Stts

  // ---------- decoding times ----------

  ghost predicate OnlyTimesChanged(s: seq<Sample>, t: seq<Sample>)
  {
    |s| == |t| && forall i :: 0 <= i < |s| ==> t[i] == s[i].(dts := t[i].dts, pts := t[i].pts)
  }

  /** The first n gaps follow the runs, and pts starts out as dts. */
  ghost predicate Timed(rs: seq<Run>, t: seq<Sample>, n: nat)
  {
    && n < |t| && n <= Covered(rs, |rs|)
    && forall k :: 0 <= k < n ==> Follows(rs, t, k)
  }

  ghost predicate Follows(rs: seq<Run>, t: seq<Sample>, k: nat)
    requires k + 1 < |t| && k < Covered(rs, |rs|)
  {
    && t[k + 1].dts == t[k].dts + ValueAt(rs, |rs|, k)
    && t[k + 1].pts == t[k + 1].dts
  }

  lemma TimedStep(rs: seq<Run>, t: seq<Sample>, j: nat, q: nat)
    requires j < |rs| && q < rs[j].count && Timed(rs, t, Covered(rs, j) + q)
    requires Covered(rs, j) + q + 1 < |t|
    ensures var n := Covered(rs, j) + q;
            var d := t[n].dts + rs[j].value;
            Timed(rs, t[n + 1 := t[n + 1].(dts := d, pts := d)], n + 1)
  {
    ValueInRun(rs, |rs|, j, q);
    var n := Covered(rs, j) + q;
    var d := t[n].dts + rs[j].value;
    var u := t[n + 1 := t[n + 1].(dts := d, pts := d)];
    forall k | 0 <= k < n + 1
      ensures Follows(rs, u, k)
    {
      if k < n {
        assert Follows(rs, t, k);
      }
    }
  }

  method ApplyStts(track: Track)
    requires Covered(track.stts, |track.stts|) == track.sampleCount < |track.samples|
    modifies track`samples
    ensures OnlyTimesChanged(old(track.samples), track.samples)
    ensures track.samples[0] == old(track.samples)[0]
    ensures Timed(track.stts, track.samples, track.sampleCount)
  {
    hide Timed, ValueAt;
    ghost var s, rs := track.samples, track.stts;
    var i: nat, n: nat := 0, 1;
    TimedStart(rs, s);
    while i < |track.stts|
      invariant i <= |rs| && track.stts == rs && n == Covered(rs, i) + 1 && |track.samples| == |s|
      invariant OnlyTimesChanged(s, track.samples) && track.samples[0] == s[0]
      invariant Timed(rs, track.samples, n - 1)
    {
      var j: nat := 0;
      CoveredMonotone(rs, i + 1, |rs|);
      while j < track.stts[i].count
        invariant j <= rs[i].count && track.stts == rs && n == Covered(rs, i) + j + 1 && |track.samples| == |s|
        invariant OnlyTimesChanged(s, track.samples) && track.samples[0] == s[0]
        invariant Timed(rs, track.samples, n - 1)
      {
        var d := track.samples[n - 1].dts + track.stts[i].value;
        TimedStep(rs, track.samples, i, j);
        track.samples := track.samples[n := track.samples[n].(dts := d, pts := d)];
        j, n := j + 1, n + 1;
      }
      i := i + 1;
    }
  }

  lemma TimedStart(rs: seq<Run>, s: seq<Sample>)
    requires |s| > 0
    ensures Timed(rs, s, 0)
  {
  }

  // ---------- composition offsets ----------

  /** The least negative offset among the first m runs; -1 is ignored and 0 is the default. */
  function ShiftOf(rs: seq<Run>, m: nat): (shift: int)
    requires m <= |rs|
    ensures -TWO_31 <= shift <= 0 && shift != -1
  {
    if m == 0 then 0
    else
      var shift, delta := ShiftOf(rs, m - 1), ToI32(rs[m - 1].value);
      if delta < shift && delta != -1 then delta else shift
  }

  ghost predicate OnlyPtsChanged(s: seq<Sample>, t: seq<Sample>)
  {
    |s| == |t| && forall i :: 0 <= i < |s| ==> t[i] == s[i].(pts := t[i].pts)
  }

  /** The first n samples have their offset added, less the common shift. */
  ghost predicate Composed(rs: seq<Run>, s: seq<Sample>, t: seq<Sample>, shift: int, n: nat)
  {
    && n <= |s| == |t| && n <= Covered(rs, |rs|)
    && (forall k :: 0 <= k < n ==> t[k].pts == s[k].pts + ToI32(ValueAt(rs, |rs|, k)) - shift)
    && (forall k :: n <= k < |s| ==> t[k] == s[k])
  }

  lemma ComposedStep(rs: seq<Run>, s: seq<Sample>, t: seq<Sample>, shift: int, j: nat, q: nat)
    requires j < |rs| && q < rs[j].count && Composed(rs, s, t, shift, Covered(rs, j) + q)
    requires Covered(rs, j) + q < |t|
    ensures var n := Covered(rs, j) + q;
            Composed(rs, s, t[n := t[n].(pts := t[n].pts + ToI32(rs[j].value) - shift)], shift, n + 1)
  {
    ValueInRun(rs, |rs|, j, q);
  }

  lemma ComposedStart(rs: seq<Run>, s: seq<Sample>, shift: int)
    ensures Composed(rs, s, s, shift, 0)
  {
  }

  method ApplyCtts(track: Track)
    requires track.Valid()
    requires forall j :: 0 <= j < |track.ctts| ==>
      ToI32(track.ctts[j].value) - ShiftOf(track.ctts, |track.ctts|) < TWO_31
    requires |track.ctts| == 0 || Covered(track.ctts, |track.ctts|) == track.sampleCount
    modifies track`samples
    ensures OnlyPtsChanged(old(track.samples), track.samples)
    ensures Composed(track.ctts, old(track.samples), track.samples, ShiftOf(track.ctts, |track.ctts|),
              if |track.ctts| == 0 then 0 else track.sampleCount)
  {
    hide Composed, ValueAt, ShiftOf;
    ghost var s, rs := track.samples, track.ctts;
    var dtsShift: int := 0;
    var i: nat := 0;
    ShiftNone(rs);
    while i < |track.ctts|
      invariant i <= |rs| && track.ctts == rs && track.samples == s && dtsShift == ShiftOf(rs, i)
    {
      ShiftStep(rs, i);
      var delta := ToI32(track.ctts[i].value);
      if delta < 0 && dtsShift > delta && delta != -1 {
        dtsShift := delta;
      }
      i := i + 1;
    }
    i := 0;
    var n: nat := 0;
    ComposedStart(rs, s, dtsShift);
    while i < |track.ctts|
      invariant i <= |rs| && track.ctts == rs && n == Covered(rs, i) && |track.samples| == |s|
      invariant OnlyPtsChanged(s, track.samples)
      invariant Composed(rs, s, track.samples, dtsShift, n)
    {
      var j: nat := 0;
      CoveredMonotone(rs, i + 1, |rs|);
      while j < track.ctts[i].count
        invariant j <= rs[i].count && track.ctts == rs && n == Covered(rs, i) + j && |track.samples| == |s|
        invariant OnlyPtsChanged(s, track.samples)
        invariant Composed(rs, s, track.samples, dtsShift, n)
      {
        ComposedStep(rs, s, track.samples, dtsShift, i, j);
        var x := track.samples[n];
        track.samples := track.samples[n := x.(pts := x.pts + ToI32(track.ctts[i].value) - dtsShift)];
        j, n := j + 1, n + 1;
      }
      i := i + 1;
    }
  }

  lemma ShiftNone(rs: seq<Run>)
    ensures ShiftOf(rs, 0) == 0
  {
  }

  lemma ShiftStep(rs: seq<Run>, m: nat)
    requires m < |rs|
    ensures var shift, delta := ShiftOf(rs, m), ToI32(rs[m].value);
            && shift <= 0
            && ShiftOf(rs, m + 1) == if delta < shift && delta != -1 then delta else shift
  {
  }

  // ---------- what survives the round trip ----------

  /** Every gap can be stored: it is positive and fits 32 bits. */
  ghost predicate GapsFit(s: seq<Sample>, n: nat)
    requires n <= |s|
  {
    forall i :: 0 < i < n ==> 1 <= s[i].dts - s[i - 1].dts < TWO_32
  }

  ghost predicate SameElapsed(s: seq<Sample>, t: seq<Sample>, n: nat)
    requires n <= |s| && n <= |t|
  {
    forall i :: 0 <= i < n ==> t[i].dts - t[0].dts == s[i].dts - s[0].dts
  }

  lemma {:induction false} ElapsedWhenGapsFit(s: seq<Sample>, t: seq<Sample>, n: nat, i: nat)
    requires i < n <= |s| && n <= |t| && n <= UINT32_MAX && GapsFit(s, n)
    requires Timed(RunsOf(Deltas(s, n), n), t, n)
    ensures t[i].dts - t[0].dts == s[i].dts - s[0].dts
  {
    if i > 0 {
      ElapsedWhenGapsFit(s, t, n, i - 1);
      GapDecoded(s, t, n, i);
    }
  }

  /** Gap i comes back as the delta that was stored for it. */
  lemma GapDecoded(s: seq<Sample>, t: seq<Sample>, n: nat, i: nat)
    requires 0 < i < n <= |s| && n <= |t| && n <= UINT32_MAX
    requires Timed(RunsOf(Deltas(s, n), n), t, n)
    ensures t[i].dts - t[i - 1].dts == DeltaOf(s, n, i - 1)
  {
    RunsRoundTrip(Deltas(s, n), n, i - 1);
    assert Follows(RunsOf(Deltas(s, n), n), t, i - 1);
  }

  /** Decoding times survive exactly when every gap is positive and fits 32 bits. */
  lemma DecodingTimesRoundTrip(s: seq<Sample>, t: seq<Sample>, n: nat)
    requires n <= |s| && n <= |t| && n <= UINT32_MAX
    requires Timed(RunsOf(Deltas(s, n), n), t, n)
    ensures SameElapsed(s, t, n) <==> GapsFit(s, n)
  {
    if GapsFit(s, n) {
      forall i | 0 <= i < n
        ensures t[i].dts - t[0].dts == s[i].dts - s[0].dts
      {
        ElapsedWhenGapsFit(s, t, n, i);
      }
    }
    if SameElapsed(s, t, n) {
      forall i | 0 < i < n
        ensures 1 <= s[i].dts - s[i - 1].dts < TWO_32
      {
        GapDecoded(s, t, n, i);
        assert t[i - 1].dts - t[0].dts == s[i - 1].dts - s[0].dts;
      }
    }
  }

  /** The shift in terms of the samples: their least negative offset other than -1, or 0. */
  function LeastOffset(s: seq<Sample>, n: nat): int
    requires n <= |s|
  {
    if n == 0 then 0
    else
      var least, delta := LeastOffset(s, n - 1), s[n - 1].pts - s[n - 1].dts;
      if delta < least && delta != -1 then delta else least
  }

  lemma {:induction false} ShiftSame(rs: seq<Run>, ts: seq<Run>, m: nat)
    requires m <= |rs| && m <= |ts| && forall j :: 0 <= j < m ==> rs[j].value == ts[j].value
    ensures ShiftOf(rs, m) == ShiftOf(ts, m)
  {
    if m > 0 {
      ShiftSame(rs, ts, m - 1);
    }
  }

  lemma ToI32Inverse(v: int)
    requires -TWO_31 <= v < TWO_31
    ensures ToI32(ToU32(v)) == v
  {
  }

  lemma ShiftOfRuns(vs: seq<u32>, m: nat)
    requires 0 < m <= |vs| && m <= UINT32_MAX
    ensures var rs, ts := RunsOf(vs, m), RunsOf(vs, m - 1);
            var shift, delta := ShiftOf(ts, |ts|), ToI32(vs[m - 1]);
            ShiftOf(rs, |rs|) == if delta < shift && delta != -1 then delta else shift
  {
    var rs, ts := RunsOf(vs, m), RunsOf(vs, m - 1);
    ShiftSame(rs, ts, |rs| - 1);
    if m > 1 && vs[m - 2] == vs[m - 1] {
      ShiftStep(ts, |ts| - 1);
      ShiftStep(rs, |rs| - 1);
    }
  }

  lemma {:induction false} ShiftIsLeast(s: seq<Sample>, n: nat, m: nat)
    requires m <= n <= |s| && n <= UINT32_MAX && OffsetsFit(s, n)
    ensures var rs := RunsOf(OffsetsOf(s, n), m); ShiftOf(rs, |rs|) == LeastOffset(s, m)
  {
    if m > 0 {
      ShiftIsLeast(s, n, m - 1);
      ToI32Inverse(s[m - 1].pts - s[m - 1].dts);
      ShiftOfRuns(OffsetsOf(s, n), m);
      hide RunsOf, ShiftOf;
    }
  }

  lemma {:induction false} LeastOffsetBounds(s: seq<Sample>, n: nat)
    requires n <= |s|
    ensures LeastOffset(s, n) <= 0 && LeastOffset(s, n) != -1
    ensures forall i :: 0 <= i < n ==> s[i].pts - s[i].dts >= LeastOffset(s, n) || s[i].pts - s[i].dts == -1
    ensures LeastOffset(s, n) < 0 ==> exists i :: 0 <= i < n && s[i].pts - s[i].dts == LeastOffset(s, n)
  {
    if n > 0 {
      LeastOffsetBounds(s, n - 1);
    }
  }

  /** mov_write_stbl leaves ctts out when there is a single run of zero offsets. */
  predicate CttsOmitted(rs: seq<Run>) { |rs| == 1 && rs[0].value == 0 }

  /**
   * Composition offsets survive up to one common constant. `a` is the timeline after stts,
   * `b` the timeline after the ctts table, which may have been left out.
   */
  lemma CompositionOffsetsRoundTrip(s: seq<Sample>, a: seq<Sample>, b: seq<Sample>, n: nat, i: nat, rs: seq<Run>)
    requires i < n <= |s| && n < |a| == |b| && n <= UINT32_MAX && OffsetsFit(s, n)
    requires OnlyPtsChanged(a, b) && a[i].pts == a[i].dts
    requires var full := RunsOf(OffsetsOf(s, n), n); rs == if CttsOmitted(full) then [] else full
    requires Composed(rs, a, b, ShiftOf(rs, |rs|), if |rs| == 0 then 0 else n)
    ensures b[i].dts == a[i].dts
    ensures b[i].pts - b[i].dts == s[i].pts - s[i].dts - LeastOffset(s, n)
  {
    var full := RunsOf(OffsetsOf(s, n), n);
    RunsRoundTrip(OffsetsOf(s, n), n, i);
    ToI32Inverse(s[i].pts - s[i].dts);
    ShiftIsLeast(s, n, n);
    assert b[i] == a[i].(pts := b[i].pts);
    if CttsOmitted(full) {
      assert b[i] == a[i];
      assert ShiftOf(full, 1) == 0;
    }
  }

  /** The constant is zero exactly when no offset lies below -1. */
  lemma ShiftIsZeroIff(s: seq<Sample>, n: nat)
    requires n <= |s|
    ensures LeastOffset(s, n) == 0 <==> forall i :: 0 <= i < n ==> s[i].pts - s[i].dts >= -1
  {
    LeastOffsetBounds(s, n);
  }

  /** Decoded pts never precede dts, except when -1 is the least offset. */
  lemma PtsFollowsDtsIff(s: seq<Sample>, n: nat)
    requires n <= |s|
    ensures (forall i :: 0 <= i < n ==> s[i].pts - s[i].dts - LeastOffset(s, n) >= 0)
      <==> !((exists i :: 0 <= i < n && s[i].pts - s[i].dts == -1)
             && (forall i :: 0 <= i < n ==> s[i].pts - s[i].dts >= -1))
  {
    LeastOffsetBounds(s, n);
    ShiftIsZeroIff(s, n);
    if exists i :: 0 <= i < n && s[i].pts - s[i].dts < -1 {
      assert LeastOffset(s, n) <= -2;
    }
  }
}
