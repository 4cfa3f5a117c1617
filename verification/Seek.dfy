/** mov-reader.c: finding the sample or key frame nearest to a time. */
module Seek {
  import opened Bytes
  import opened Samples
  import opened Tracks
  import opened Stss

  /** The DIFF macro. */
  function Distance(a: int, b: int): (d: nat) { if a > b then a - b else b - a }

  predicate Ascending(ts: seq<int>) { forall i, j :: 0 <= i <= j < |ts| ==> ts[i] <= ts[j] }

  predicate NearestOf(ts: seq<int>, clock: int, k: nat)
    requires k < |ts|
  {
    forall i :: 0 <= i < |ts| ==> Distance(ts[k], clock) <= Distance(ts[i], clock)
  }

  /** What the binary search knows when it stops: `mid` is a hit, or the insertion point is at or right behind it. */
  predicate Stopped(ts: seq<int>, clock: int, start: nat, end: nat, mid: nat)
  {
    && mid < |ts| && start <= end <= |ts|
    && (ts[mid] == clock
        || (start == end && (mid == start || mid + 1 == start)
            && (forall i :: 0 <= i < start ==> ts[i] < clock) && (forall i :: end <= i < |ts| ==> ts[i] > clock)))
  }

  /** The two corrections after the search, which compare with the neighbours of mid. */
  function Corrected(ts: seq<int>, clock: int, mid: nat): (k: nat)
    requires mid < |ts|
    ensures k < |ts|
  {
    var prev := if mid > 0 then mid - 1 else mid;
    var next := if mid + 1 < |ts| then mid + 1 else mid;
    var a := if Distance(ts[prev], clock) < Distance(ts[mid], clock) then prev else mid;
    if Distance(ts[next], clock) < Distance(ts[a], clock) then next else a
  }

  /** The corrected result is nearest of all, ties and times out of range included. */
  lemma CorrectedIsNearest(ts: seq<int>, clock: int, start: nat, end: nat, mid: nat)
    requires Ascending(ts) && Stopped(ts, clock, start, end, mid)
    ensures NearestOf(ts, clock, Corrected(ts, clock, mid))
  {
    var k := Corrected(ts, clock, mid);
    forall i | 0 <= i < |ts|
      ensures Distance(ts[k], clock) <= Distance(ts[i], clock)
    {
      if ts[mid] != clock {
        if i < start {
          assert ts[i] <= ts[start - 1];
        } else {
          assert ts[start] <= ts[i];
        }
      }
    }
  }

  /** If the times ascend, everything in front of start is too early and everything from end on too late. */
  predicate Narrowed(ts: seq<int>, clock: int, start: nat, end: nat)
  {
    Ascending(ts) ==>
      (forall i :: 0 <= i < start && i < |ts| ==> ts[i] < clock) && (forall i :: end <= i < |ts| ==> ts[i] > clock)
  }

  lemma NarrowedStep(ts: seq<int>, clock: int, start: nat, end: nat, mid: nat)
    requires Narrowed(ts, clock, start, end) && mid < |ts|
    ensures ts[mid] > clock ==> Narrowed(ts, clock, start, mid)
    ensures ts[mid] < clock ==> Narrowed(ts, clock, mid + 1, end)
  {
  }

  lemma NarrowedStart(ts: seq<int>, clock: int)
    ensures Narrowed(ts, clock, 0, |ts|)
  {
  }

  lemma NarrowedDone(ts: seq<int>, clock: int, start: nat, end: nat, mid: nat)
    requires Narrowed(ts, clock, start, end) && mid < |ts| && start <= end <= |ts|
    requires ts[mid] == clock || (start == end && (mid == start || mid + 1 == start))
    ensures Ascending(ts) ==> NearestOf(ts, clock, Corrected(ts, clock, mid))
  {
    if Ascending(ts) {
      CorrectedIsNearest(ts, clock, start, end, mid);
    }
  }

  /** The decoding times of the first n samples. */
  function Times(s: seq<Sample>, n: nat): (ts: seq<int>)
    requires n <= |s|
    ensures |ts| == n && forall i :: 0 <= i < n ==> ts[i] == s[i].dts
  {
    seq(n, i requires 0 <= i < n => s[i].dts)
  }

  /** The binary search of mov_sample_seek. */
  method SearchSamples(s: seq<Sample>, n: nat, clock: int) returns (mid: nat)
    requires 0 < n <= |s|
    ensures mid < n && (Ascending(Times(s, n)) ==> NearestOf(Times(s, n), clock, Corrected(Times(s, n), clock, mid)))
  {
    hide Ascending, NearestOf, Narrowed, Corrected;
    ghost var ts := Times(s, n);
    NarrowedStart(ts, clock);
    var start: nat, end: nat := 0, n;
    mid := 0;
    while start < end
      invariant start <= end <= n && mid < n && Narrowed(ts, clock, start, end)
      invariant start == end ==> mid == start || mid + 1 == start
    {
      mid := (start + end) / 2;
      NarrowedStep(ts, clock, start, end, mid);
      if s[mid].dts > clock {
        end := mid;
      } else if s[mid].dts < clock {
        start := mid + 1;
      } else {
        break;
      }
    }
    NarrowedDone(ts, clock, start, end, mid);
  }

  /** mov_sample_seek */
  method SampleSeek(track: Track, timestamp: int) returns (r: int)
    requires track.Valid()
    modifies track`sampleOffset
    ensures track.sampleCount == 0 ==> r == -1 && track.sampleOffset == old(track.sampleOffset)
    ensures track.sampleCount > 0 ==> r == 0 && track.sampleOffset < track.sampleCount
    ensures track.sampleCount > 0 && Ascending(Times(track.samples, track.sampleCount)) ==>
      NearestOf(Times(track.samples, track.sampleCount), TruncDiv(timestamp * track.timescale, 1000), track.sampleOffset)
  {
    hide Ascending, NearestOf, TruncDiv;
    if track.sampleCount < 1 {
      return -1;
    }
    var clock, s := TruncDiv(timestamp * track.timescale, 1000), track.samples;
    var mid := SearchSamples(s, track.sampleCount, clock);
    var prev := if mid > 0 then mid - 1 else mid;
    var next := if mid + 1 < track.sampleCount then mid + 1 else mid;
    if Distance(s[prev].dts, clock) < Distance(s[mid].dts, clock) {
      mid := prev;
    }
    if Distance(s[next].dts, clock) < Distance(s[mid].dts, clock) {
      mid := next;
    }
    track.sampleOffset := mid;
    r := 0;
  }

  // ---------- key frames ----------

  /** mov_index_build */
  method IndexBuild(track: Track, video: bool) returns (r: int)
    requires track.Valid()
    modifies track`stss
    ensures r == 0 && track.stss == if video then KeyNumbers(track.samples, track.sampleCount) else []
  {
    track.stss := [];
    r := 0;
    if !video {
      return;
    }
    var i: nat := 0;
    while i < track.sampleCount
      invariant i <= track.sampleCount && track.stss == KeyNumbers(track.samples, i)
    {
      if track.samples[i].key {
        track.stss := track.stss + [i + 1];
      }
      i := i + 1;
    }
  }

  /** Every entry names a sample. */
  predicate InRange(stss: seq<u32>, n: nat) { forall i :: 0 <= i < |stss| ==> 1 <= stss[i] <= n }

  function KeyTimes(s: seq<Sample>, n: nat, stss: seq<u32>): (ts: seq<int>)
    requires n <= |s| && InRange(stss, n)
    ensures |ts| == |stss| && forall i :: 0 <= i < |stss| ==> ts[i] == s[stss[i] - 1].dts
  {
    seq(|stss|, i requires 0 <= i < |stss| => s[stss[i] - 1].dts)
  }

  lemma {:induction false} KeyNumbersAscend(s: seq<Sample>, n: nat, i: nat, j: nat)
    requires n <= |s| && n <= UINT32_MAX && i < j < |KeyNumbers(s, n)|
    ensures KeyNumbers(s, n)[i] < KeyNumbers(s, n)[j]
  {
    if j < |KeyNumbers(s, n - 1)| {
      KeyNumbersAscend(s, n - 1, i, j);
    } else {
      assert KeyNumbers(s, n)[i] in KeyNumbers(s, n - 1);
    }
  }

  /** The list that mov_index_build makes is in range, and its times ascend if the samples' times do. */
  lemma BuiltListIsSearchable(s: seq<Sample>, n: nat)
    requires n <= |s| && n <= UINT32_MAX
    ensures InRange(KeyNumbers(s, n), n)
    ensures Ascending(Times(s, n)) ==> Ascending(KeyTimes(s, n, KeyNumbers(s, n)))
  {
    var ks := KeyNumbers(s, n);
    forall i | 0 <= i < |ks|
      ensures 1 <= ks[i] <= n
    {
      assert ks[i] in ks;
    }
    if Ascending(Times(s, n)) {
      forall i, j | 0 <= i <= j < |ks|
        ensures KeyTimes(s, n, ks)[i] <= KeyTimes(s, n, ks)[j]
      {
        if i < j {
          KeyNumbersAscend(s, n, i, j);
        }
        assert Times(s, n)[ks[i] - 1] <= Times(s, n)[ks[j] - 1];
      }
    }
  }

  /** The binary search of mov_stss_seek over the list of sample numbers; `ok` unless it met one out of range. */
  method SearchKeys(s: seq<Sample>, n: nat, stss: seq<u32>, clock: int) returns (ok: bool, mid: nat, idx: nat)
    requires n <= |s| && |stss| > 0 && InRange(stss, n)
    ensures ok && mid < |stss| && idx == stss[mid] - 1
    ensures var ts := KeyTimes(s, n, stss); Ascending(ts) ==> NearestOf(ts, clock, Corrected(ts, clock, mid))
  {
    hide Ascending, NearestOf, Narrowed, Corrected;
    ghost var ts := KeyTimes(s, n, stss);
    NarrowedStart(ts, clock);
    var start: nat, end: nat := 0, |stss|;
    ok, mid, idx := true, 0, 0;
    while start < end
      invariant start <= end <= |stss| && mid < |stss| && Narrowed(ts, clock, start, end) && ok
      invariant start == end ==> (mid == start || mid + 1 == start) && idx == stss[mid] - 1
    {
      mid := (start + end) / 2;
      idx := stss[mid];
      if idx < 1 || idx > n {
        ok := false;
        return;
      }
      idx := idx - 1;
      NarrowedStep(ts, clock, start, end, mid);
      if s[idx].dts > clock {
        end := mid;
      } else if s[idx].dts < clock {
        start := mid + 1;
      } else {
        break;
      }
    }
    NarrowedDone(ts, clock, start, end, mid);
  }

  /** Key k of the list is a nearest one. */
  ghost predicate NearestKey(s: seq<Sample>, n: nat, stss: seq<u32>, clock: int, k: nat)
    requires n <= |s| && InRange(stss, n)
  {
    k < |stss| && NearestOf(KeyTimes(s, n, stss), clock, k)
  }

  /** mov_stss_seek; the further results are the time of the key frame it finds and its place in the list. */
  method StssSeek(track: Track, timestamp: int) returns (r: int, found: int, ghost k: nat)
    requires track.Valid() && |track.stss| > 0 && track.timescale > 0 && InRange(track.stss, track.sampleCount)
    modifies track`sampleOffset
    ensures r == 0 && k < |track.stss| && track.sampleOffset == track.stss[k] - 1 < track.sampleCount
    ensures found == TruncDiv(track.samples[track.sampleOffset].dts * 1000, track.timescale)
    ensures Ascending(KeyTimes(track.samples, track.sampleCount, track.stss)) ==>
      NearestKey(track.samples, track.sampleCount, track.stss, TruncDiv(timestamp * track.timescale, 1000), k)
  {
    hide Ascending, NearestOf, TruncDiv;
    var s, stss := track.samples, track.stss;
    var clock := TruncDiv(timestamp * track.timescale, 1000);
    var ok, mid, idx := SearchKeys(s, track.sampleCount, stss, clock);
    r, found, k := -1, timestamp, 0;
    if !ok {
      return;
    }
    k := Corrected(KeyTimes(s, track.sampleCount, stss), clock, mid);
    var prev := stss[if mid > 0 then mid - 1 else mid] - 1;
    var next := stss[if mid + 1 < |stss| then mid + 1 else mid] - 1;
    if Distance(s[prev].dts, clock) < Distance(s[idx].dts, clock) {
      idx := prev;
    }
    if Distance(s[next].dts, clock) < Distance(s[idx].dts, clock) {
      idx := next;
    }
    found := TruncDiv(s[idx].dts * 1000, track.timescale);
    track.sampleOffset := idx;
    r := 0;
  }

  /** The key frame found in a built list is nearest among all key frames of the track. */
  lemma NearestOfAllKeyFrames(s: seq<Sample>, n: nat, clock: int, k: nat, i: nat)
    requires n <= |s| && n <= UINT32_MAX && i < n && s[i].key
    requires InRange(KeyNumbers(s, n), n) && NearestKey(s, n, KeyNumbers(s, n), clock, k)
    ensures var x := KeyNumbers(s, n)[k] - 1;
            && s[x].key && Distance(s[x].dts, clock) <= Distance(s[i].dts, clock)
            && (s[x].dts - clock <= s[i].dts - clock || s[x].dts - clock <= clock - s[i].dts)
            && (clock - s[x].dts <= s[i].dts - clock || clock - s[x].dts <= clock - s[i].dts)
  {
    var ks := KeyNumbers(s, n);
    assert ks[k] in ks && (i + 1) in ks;
    var j :| 0 <= j < |ks| && ks[j] == i + 1;
    assert Distance(KeyTimes(s, n, ks)[k], clock) <= Distance(KeyTimes(s, n, ks)[j], clock);
  }

  /** How far apart two times are, whichever is later. */
  lemma DistanceIs(a: int, b: int)
    ensures var d := Distance(a, b); (d == a - b || d == b - a) && d >= a - b && d >= b - a
  {
  }

  /** A track whose samples are in decoding order stands at one that no other sample is closer to. */
  lemma NearestOfAllSamples(t: Track, time: int, i: nat)
    requires t.Valid() && AtSample(t, time) && i < t.sampleCount
    requires forall j, k :: 0 <= j <= k < t.sampleCount ==> t.samples[j].dts <= t.samples[k].dts
    ensures t.sampleOffset < t.sampleCount
    ensures var clock, x, y := TruncDiv(time * t.timescale, 1000), t.samples[t.sampleOffset].dts, t.samples[i].dts;
            (x - clock <= y - clock || x - clock <= clock - y) && (clock - x <= y - clock || clock - x <= clock - y)
  {
    hide Distance;
    var clock, ts := TruncDiv(time * t.timescale, 1000), Times(t.samples, t.sampleCount);
    assert Ascending(ts) && Distance(ts[t.sampleOffset], clock) <= Distance(ts[i], clock);
    DistanceIs(ts[t.sampleOffset], clock);
    DistanceIs(ts[i], clock);
  }

  // ---------- all tracks ----------

  /** The track stands at a key frame nearest to `from`, whose time is `to`. */
  ghost predicate AtKey(t: Track, from: int, to: int)
    requires t.Valid() && t.timescale > 0 && InRange(t.stss, t.sampleCount)
    reads t
  {
    && t.sampleOffset < t.sampleCount
    && to == TruncDiv(t.samples[t.sampleOffset].dts * 1000, t.timescale)
    && (Ascending(KeyTimes(t.samples, t.sampleCount, t.stss)) ==>
          exists k: nat :: NearestKey(t.samples, t.sampleCount, t.stss, TruncDiv(from * t.timescale, 1000), k)
                      && t.sampleOffset == t.stss[k] - 1)
  }

  /** The track, if it has samples, stands at one nearest to `time`. */
  ghost predicate AtSample(t: Track, time: int)
    requires t.Valid()
    reads t
  {
    t.sampleCount > 0 ==>
      && t.sampleOffset < t.sampleCount
      && (Ascending(Times(t.samples, t.sampleCount)) ==>
            NearestOf(Times(t.samples, t.sampleCount), TruncDiv(time * t.timescale, 1000), t.sampleOffset))
  }

  ghost predicate Seekable(t: Track)
    reads t
  {
    t.Valid() && t.timescale > 0 && InRange(t.stss, t.sampleCount)
  }

  ghost predicate AllSeekable(tracks: seq<Track>, video: seq<bool>)
    reads tracks
  {
    && |video| == |tracks| && (forall i :: 0 <= i < |tracks| ==> Seekable(tracks[i]))
    && forall i, j :: 0 <= i < j < |tracks| ==> tracks[i] != tracks[j]
  }

  /** The first n tracks are placed; stops[i] is the time that track i was asked for. */
  ghost predicate KeysPlaced(tracks: seq<Track>, video: seq<bool>, stops: seq<int>, n: nat)
    requires AllSeekable(tracks, video)
    reads tracks
  {
    && n <= |tracks| && |stops| == n + 1
    && forall i :: 0 <= i < n ==>
         if video[i] && |tracks[i].stss| > 0 then AtKey(tracks[i], stops[i], stops[i + 1]) else stops[i + 1] == stops[i]
  }

  lemma KeyStep(tracks: seq<Track>, video: seq<bool>, stops: seq<int>, n: nat, next: int)
    requires AllSeekable(tracks, video) && KeysPlaced(tracks, video, stops, n) && n < |tracks|
    requires if video[n] && |tracks[n].stss| > 0 then AtKey(tracks[n], stops[n], next) else next == stops[n]
    ensures KeysPlaced(tracks, video, stops + [next], n + 1)
  {
    hide AtKey;
    var more := stops + [next];
    forall i | 0 <= i < n + 1
      ensures if video[i] && |tracks[i].stss| > 0 then AtKey(tracks[i], more[i], more[i + 1]) else more[i + 1] == more[i]
    {
    }
  }

  /** The first loop of mov_reader_seek: key frames in the tracks that list them. */
  method SeekKeys(tracks: seq<Track>, video: seq<bool>, timestamp: int) returns (found: int, ghost stops: seq<int>)
    requires AllSeekable(tracks, video)
    modifies tracks`sampleOffset
    ensures AllSeekable(tracks, video) && KeysPlaced(tracks, video, stops, |tracks|)
    ensures stops[0] == timestamp && stops[|tracks|] == found
  {
    hide AtKey, Ascending, NearestOf, TruncDiv, InRange;
    found, stops := timestamp, [timestamp];
    var i: nat := 0;
    while i < |tracks|
      invariant i <= |tracks| && AllSeekable(tracks, video) && KeysPlaced(tracks, video, stops, i)
      invariant stops[0] == timestamp && stops[i] == found
    {
      ghost var from := found;
      if video[i] && |tracks[i].stss| > 0 {
        found := SeekKey(tracks[i], found);
      }
      KeyStep(tracks, video, stops, i, found);
      stops := stops + [found];
      i := i + 1;
    }
  }

  method SeekKey(t: Track, timestamp: int) returns (found: int)
    requires Seekable(t) && |t.stss| > 0
    modifies t`sampleOffset
    ensures Seekable(t) && AtKey(t, timestamp, found)
  {
    hide Ascending, NearestKey, TruncDiv, InRange;
    var r, at, k := StssSeek(t, timestamp);
    found := at;
  }

  /**
   * mov_reader_seek without a fragment index: video tracks go to key frames, one after the
   * other asking for the time the one before it found; the remaining tracks then go to the
   * samples nearest to the time found last, not to the time asked for.
   */
  method ReaderSeek(tracks: seq<Track>, video: seq<bool>, timestamp: int) returns (r: int, found: int,
                    ghost stops: seq<int>)
    requires AllSeekable(tracks, video)
    modifies tracks`sampleOffset
    ensures r == 0 && AllSeekable(tracks, video) && KeysPlaced(tracks, video, stops, |tracks|)
    ensures stops[0] == timestamp && stops[|tracks|] == found
    ensures forall i :: 0 <= i < |tracks| && !(video[i] && |tracks[i].stss| > 0) ==> AtSample(tracks[i], found)
  {
    hide AtKey, AtSample, Ascending, NearestOf, TruncDiv, InRange, AllSeekable;
    found, stops := SeekKeys(tracks, video, timestamp);
    PlaceSamples(tracks, video, found, stops);
    r := 0;
  }

  /** The second loop. */
  method PlaceSamples(tracks: seq<Track>, video: seq<bool>, time: int, ghost stops: seq<int>)
    requires AllSeekable(tracks, video) && KeysPlaced(tracks, video, stops, |tracks|)
    modifies tracks`sampleOffset
    ensures AllSeekable(tracks, video) && KeysPlaced(tracks, video, stops, |tracks|)
    ensures forall i :: 0 <= i < |tracks| && !(video[i] && |tracks[i].stss| > 0) ==> AtSample(tracks[i], time)
  {
    hide AtKey, AtSample, Ascending, NearestOf, TruncDiv, InRange;
    var i: nat := 0;
    while i < |tracks|
      invariant i <= |tracks| && AllSeekable(tracks, video) && KeysPlaced(tracks, video, stops, |tracks|)
      invariant forall j :: 0 <= j < i && !(video[j] && |tracks[j].stss| > 0) ==> AtSample(tracks[j], time)
    {
      if !(video[i] && |tracks[i].stss| > 0) {
        PlaceSample(tracks[i], time);
      }
      i := i + 1;
    }
  }

  method PlaceSample(t: Track, time: int)
    requires Seekable(t)
    modifies t`sampleOffset
    ensures Seekable(t) && AtSample(t, time)
  {
    hide Ascending, NearestOf, TruncDiv, InRange;
    var _ := SampleSeek(t, time);
  }
}
