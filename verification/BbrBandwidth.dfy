/** What the bandwidth estimate of the controller means over whole runs. */
module BbrBandwidth {
  import opened Bytes
  import opened MinMax
  import opened BbrState
  import opened BbrInvariants
  import opened BbrRuns

  // ---------- the measurements of one acknowledgement ----------

  /** A sample counts unless the sender had too little to send and it is no larger than the estimate. */
  predicate Counts(m: Filter, x: BwSample) { !x.appLimited || x.bandwidth > m.best.value }

  /** The measurements among the first n samples, taken in round `now`. */
  function NewMeas(m: Filter, now: nat, xs: seq<BwSample>, n: nat): (ms: seq<Meas>)
    requires n <= |xs|
    ensures forall k :: 0 <= k < |ms| ==> ms[k].time == now
  {
    if n == 0 then []
    else
      var ms := NewMeas(m, now, xs, n - 1);
      ms + if Counts(After(m, ms), xs[n - 1]) then [Meas(now, xs[n - 1].bandwidth)] else []
  }

  lemma {:induction false} TakenAre(p: Path, xs: seq<BwSample>, n: nat)
    requires n <= |xs|
    ensures var q := TakeSamples(p, xs, n);
            q.roundCount == p.roundCount
            && q.maxBandwidth == After(p.maxBandwidth, NewMeas(p.maxBandwidth, p.roundCount, xs, n))
  {
    hide UpMax, After;
    if n == 0 {
      NothingNew(p.maxBandwidth);
    } else {
      TakenAre(p, xs, n - 1);
      var ms := NewMeas(p.maxBandwidth, p.roundCount, xs, n - 1);
      AfterSnoc(p.maxBandwidth, ms, Meas(p.roundCount, xs[n - 1].bandwidth));
      assert ms + [] == ms;
    }
  }

  lemma NothingNew(m: Filter)
    ensures After(m, []) == m
  {
  }

  /** What one end_ack does to the filter; nothing but end_ack and a reinit touches it. */
  function NewIn(s: State, t: State, e: Event): (ms: seq<Meas>)
    ensures forall k :: 0 <= k < |ms| ==> ms[k].time == t.path.roundCount
  {
    if e.EndedAck? && s.ack.ackedBytes > 0
    then NewMeas(s.path.maxBandwidth, t.path.roundCount, s.ack.samples, |s.ack.samples|) else []
  }

  lemma FilterStep(s: State, e: Event)
    requires Inv(s) && Legal(s, e) && !e.Reinit?
    ensures Ready(s)
    ensures var t := Step(s, e);
            t.path.maxBandwidth == After(s.path.maxBandwidth, NewIn(s, t, e))
            && s.path.roundCount <= t.path.roundCount <= s.path.roundCount + 1
  {
    hide Inv, After, NewMeas, EndAck;
    NothingNew(s.path.maxBandwidth);
    GearsPositive(s);
    if e.EndedAck? {
      var k, b, t := EndAckShifts(s, e.inFlight, e.rand);
      hide Shifts;
      LearnedFilter(s.(inAck := false), AckedNow(s));
      IsShifted(s, e.inFlight, e.rand, k, b, t);
    } else {
      hide Cwnd, PipeFull, Init;
    }
  }

  lemma GearsPositive(s: State)
    requires Inv(s)
    ensures Ready(s)
  {
    GearPositive(s.opt, s.gear);
  }

  lemma IsShifted(s: State, inFlight: nat, rand: byte, k: Learned, b: State, t: State)
    requires Ready(s) && Shifts(s, inFlight, rand, k, b, t)
    ensures k == Learn(s.(inAck := false), AckedNow(s)) && t.path == k.s.path && t == EndAck(s, inFlight, rand)
  {
    hide Learn, EndAck, CycledGear, ProbeRttStep, ExitStartupOrDrain, Drained, RoundStart;
  }

  lemma LearnedFilter(s: State, acked: nat)
    ensures var p := Learn(s, acked).s.path;
            && p.maxBandwidth == After(s.path.maxBandwidth,
                 if s.ack.ackedBytes > 0 then NewMeas(s.path.maxBandwidth, p.roundCount, s.ack.samples, |s.ack.samples|) else [])
            && s.path.roundCount <= p.roundCount <= s.path.roundCount + 1
  {
    hide After, NewMeas, UpMax, TakeSamples, UpdateAggregation, LeastRtt, UpdateRecovery;
    NothingNew(s.path.maxBandwidth);
    var p := if RoundStart(s.repair, s.ack) then s.path.(roundCount := s.path.roundCount + 1) else s.path;
    TakenAre(p, s.ack.samples, |s.ack.samples|);
  }

  // ---------- the estimate over a run ----------

  /** The measurements that reached the filter since the start or the last reinit. */
  ghost function Measured(ss: seq<State>, es: seq<Event>, n: nat): seq<Meas>
    requires |ss| == |es| + 1 && n < |ss|
  {
    if n == 0 || es[n - 1].Reinit? then []
    else Measured(ss, es, n - 1) + NewIn(ss[n - 1], ss[n], es[n - 1])
  }

  /** The filter's choices are maxima of a history that ends no later than round `now`. */
  ghost predicate Holds(m: Filter, h: seq<Meas>, now: nat)
  {
    && m.window == 10
    && ((m == Empty(10) && h == []) || exists p0, p1, p2 :: Tracks(m, h, p0, p1, p2) && m.third.time <= now)
  }

  /** One update of the filter. */
  lemma HoldsUp(m: Filter, h: seq<Meas>, now: nat, x: Meas)
    requires Holds(m, h, now) && x.time == now
    ensures var n := UpMax(m, now, x.value);
            && Holds(n, h + [x], now)
            && n.best.value >= x.value && now <= n.best.time + 10
            && (n.best.value < m.best.value ==> now > m.best.time + 10)
            && (n.best == m.best || n.best == x || now > m.best.time + 10)
  {
    hide UpMax;
    var q0, q1, q2 := 0, 0, 0;
    if m == Empty(10) && h == [] {
      q0, q1, q2 := EstimateIsRecentMaximum(m, h, 0, 0, 0, now, x.value);
    } else {
      var p0, p1, p2 :| Tracks(m, h, p0, p1, p2) && m.third.time <= now;
      q0, q1, q2 := EstimateIsRecentMaximum(m, h, p0, p1, p2, now, x.value);
    }
    SameWindow(m, now, x.value);
  }

  /** All updates of one acknowledgement. */
  lemma {:induction false} HoldsAfter(m: Filter, h: seq<Meas>, now: nat, xs: seq<Meas>)
    requires Holds(m, h, now) && forall k :: 0 <= k < |xs| ==> xs[k].time == now
    ensures var n := After(m, xs);
            && Holds(n, h + xs, now)
            && (forall k :: 0 <= k < |xs| ==> n.best.value >= xs[k].value)
            && (xs != [] ==> now <= n.best.time + 10)
            && (n.best.value < m.best.value ==> now > m.best.time + 10)
    decreases |xs|
  {
    hide UpMax, Holds;
    if xs == [] {
      assert h + xs == h;
    } else {
      var l := |xs| - 1;
      var ys, x := xs[..l], xs[l];
      assert xs == ys + [x];
      assert h + xs == h + ys + [x];
      HoldsAfter(m, h, now, ys);
      AfterSnoc(m, ys, x);
      HoldsUp(After(m, ys), h + ys, now, x);
      assert forall k :: 0 <= k < l ==> xs[k] == ys[k];
      if ys == [] {
        NothingNew(m);
      }
    }
  }

  lemma HoldsLater(m: Filter, h: seq<Meas>, now: nat, later: nat)
    requires Holds(m, h, now) && now <= later
    ensures Holds(m, h, later)
  {
  }

  /**
   * In every state of a run the estimate is the maximum of what was measured from some round on, and so are
   * the two choices that may follow it.
   */
  lemma {:induction false} EstimateAlways(opt: Options, ss: seq<State>, es: seq<Event>, n: nat)
    requires Run(opt, ss, es) && n < |ss|
    ensures Holds(ss[n].path.maxBandwidth, Measured(ss, es, n), ss[n].path.roundCount)
  {
    hide Inv, Legal, Step, Fresh, Holds, NewIn, After;
    if n == 0 {
      StartsEmpty(opt, ss, es);
    } else {
      var m := n - 1;
      Reachable(opt, ss, es, m);
      assert Steps(ss[m], es[m], ss[n]);
      if es[m].Reinit? {
        ReinitEmpties(ss[m], es[m]);
      } else {
        EstimateAlways(opt, ss, es, m);
        FilterStep(ss[m], es[m]);
        var s, t := ss[m], ss[n];
        HoldsLater(s.path.maxBandwidth, Measured(ss, es, m), s.path.roundCount, t.path.roundCount);
        HoldsAfter(s.path.maxBandwidth, Measured(ss, es, m), t.path.roundCount, NewIn(s, t, es[m]));
      }
    }
  }

  lemma StartsEmpty(opt: Options, ss: seq<State>, es: seq<Event>)
    requires Run(opt, ss, es)
    ensures ss[0].path.maxBandwidth == Empty(10) && Holds(Empty(10), [], ss[0].path.roundCount)
  {
    hide Steps;
  }

  lemma ReinitEmpties(s: State, e: Event)
    requires Ready(s) && e.Reinit?
    ensures var p := Step(s, e).path; p.maxBandwidth == Empty(10) && p.roundCount == 0 && Holds(p.maxBandwidth, [], 0)
  {
    hide EndAck;
  }

  lemma {:induction false} NewAreSamples(m: Filter, now: nat, xs: seq<BwSample>, n: nat, p: nat) returns (k: nat)
    requires n <= |xs| && p < |NewMeas(m, now, xs, n)|
    ensures k < n && NewMeas(m, now, xs, n)[p] == Meas(now, xs[k].bandwidth)
  {
    hide After;
    if p < |NewMeas(m, now, xs, n - 1)| {
      k := NewAreSamples(m, now, xs, n - 1, p);
    } else {
      k := n - 1;
    }
  }

  /** Event i is an acknowledgement in round x.time, and its sample k has the bandwidth of x. */
  ghost predicate Sampled(ss: seq<State>, es: seq<Event>, i: nat, k: nat, x: Meas)
    requires |ss| == |es| + 1 && i < |es|
  {
    && es[i].EndedAck? && k < |ss[i].ack.samples|
    && ss[i].ack.samples[k].bandwidth == x.value && ss[i + 1].path.roundCount == x.time
  }

  lemma {:induction false} MeasuredAreSamples(ss: seq<State>, es: seq<Event>, n: nat, p: nat) returns (i: nat, k: nat)
    requires |ss| == |es| + 1 && n < |ss| && p < |Measured(ss, es, n)|
    ensures i < n && Sampled(ss, es, i, k, Measured(ss, es, n)[p])
  {
    var m := n - 1;
    if p < |Measured(ss, es, m)| {
      i, k := MeasuredAreSamples(ss, es, m, p);
    } else {
      i := m;
      k := NewAreSamples(ss[m].path.maxBandwidth, ss[n].path.roundCount, ss[m].ack.samples, |ss[m].ack.samples|,
        p - |Measured(ss, es, m)|);
    }
  }

  /** An estimate that is not 0 was sampled in the round that it names. */
  lemma EstimateWasSampled(opt: Options, ss: seq<State>, es: seq<Event>, n: nat) returns (i: nat, k: nat)
    requires Run(opt, ss, es) && n < |ss| && ss[n].path.maxBandwidth.best.value > 0
    ensures i < n && Sampled(ss, es, i, k, ss[n].path.maxBandwidth.best)
  {
    hide Steps, Fresh, Sampled;
    EstimateAlways(opt, ss, es, n);
    var m, h := ss[n].path.maxBandwidth, Measured(ss, es, n);
    var p0, p1, p2 :| Tracks(m, h, p0, p1, p2) && m.third.time <= ss[n].path.roundCount;
    i, k := MeasuredAreSamples(ss, es, n, p0);
  }

  /** The estimate falls only at the end of an acknowledgement more than ten rounds after it was measured. */
  lemma EstimateFalls(opt: Options, ss: seq<State>, es: seq<Event>, i: nat)
    requires Run(opt, ss, es) && i < |es| && !es[i].Reinit?
    requires ss[i + 1].path.maxBandwidth.best.value < ss[i].path.maxBandwidth.best.value
    ensures es[i].EndedAck? && ss[i + 1].path.roundCount > ss[i].path.maxBandwidth.best.time + 10
  {
    hide Inv, Legal, Step, Fresh, Holds, NewMeas, After;
    Reachable(opt, ss, es, i);
    assert Steps(ss[i], es[i], ss[i + 1]);
    var s, t := ss[i], ss[i + 1];
    EstimateAlways(opt, ss, es, i);
    FilterStep(s, es[i]);
    HoldsLater(s.path.maxBandwidth, Measured(ss, es, i), s.path.roundCount, t.path.roundCount);
    HoldsAfter(s.path.maxBandwidth, Measured(ss, es, i), t.path.roundCount, NewIn(s, t, es[i]));
    NothingNew(s.path.maxBandwidth);
  }

  /** What the filter makes of one acknowledgement with respect to its sample k. */
  lemma {:induction false} SampleCovered(m: Filter, h: seq<Meas>, now: nat, xs: seq<BwSample>, n: nat, k: nat)
    requires Holds(m, h, now) && k < n <= |xs|
    ensures var ms := NewMeas(m, now, xs, n);
            && (ms == [] ==> xs[k].appLimited && xs[k].bandwidth <= m.best.value)
            && (After(m, ms).best.value >= xs[k].bandwidth
                || (xs[k].appLimited && xs[k].bandwidth <= m.best.value && now > m.best.time + 10))
  {
    hide UpMax, Holds, After;
    var l := n - 1;
    var ms, x := NewMeas(m, now, xs, l), Meas(now, xs[l].bandwidth);
    NothingNew(m);
    HoldsAfter(m, h, now, ms);
    AfterSnoc(m, ms, x);
    HoldsUp(After(m, ms), h + ms, now, x);
    assert ms + [] == ms;
    if k < l {
      SampleCovered(m, h, now, xs, l, k);
    } else if ms == [] {
      assert After(m, ms) == m;
    }
  }

  /**
   * After an acknowledgement the estimate is no less than any bandwidth sampled by it that was not limited by
   * the application, and no less than the others unless the estimate above them had just left the window.
   */
  lemma EstimateCoversSamples(opt: Options, ss: seq<State>, es: seq<Event>, i: nat, k: nat)
    requires Run(opt, ss, es) && i < |es| && es[i].EndedAck? && ss[i].ack.ackedBytes > 0 && k < |ss[i].ack.samples|
    ensures var x, s, t := ss[i].ack.samples[k], ss[i].path, ss[i + 1].path;
            t.maxBandwidth.best.value >= x.bandwidth
            || (x.appLimited && x.bandwidth <= s.maxBandwidth.best.value && t.roundCount > s.maxBandwidth.best.time + 10)
  {
    hide Inv, Legal, Step, Fresh, Holds, NewMeas, After;
    Reachable(opt, ss, es, i);
    assert Steps(ss[i], es[i], ss[i + 1]);
    var s, t := ss[i], ss[i + 1];
    EstimateAlways(opt, ss, es, i);
    FilterStep(s, es[i]);
    HoldsLater(s.path.maxBandwidth, Measured(ss, es, i), s.path.roundCount, t.path.roundCount);
    SampleCovered(s.path.maxBandwidth, Measured(ss, es, i), t.path.roundCount, s.ack.samples, |s.ack.samples|, k);
  }

  /** Samples that the application limited and that do not exceed the estimate leave no trace in the filter. */
  lemma LimitedSamplesAreIgnored(opt: Options, ss: seq<State>, es: seq<Event>, i: nat)
    requires Run(opt, ss, es) && i < |es| && es[i].EndedAck?
    requires forall k :: 0 <= k < |ss[i].ack.samples| ==>
      ss[i].ack.samples[k].appLimited && ss[i].ack.samples[k].bandwidth <= ss[i].path.maxBandwidth.best.value
    ensures ss[i + 1].path.maxBandwidth == ss[i].path.maxBandwidth
  {
    hide Inv, Legal, Step, Fresh, NewMeas, After;
    Reachable(opt, ss, es, i);
    assert Steps(ss[i], es[i], ss[i + 1]);
    var s, t := ss[i], ss[i + 1];
    FilterStep(s, es[i]);
    NothingTaken(s.path.maxBandwidth, t.path.roundCount, s.ack.samples, |s.ack.samples|);
    NothingNew(s.path.maxBandwidth);
  }

  lemma {:induction false} NothingTaken(m: Filter, now: nat, xs: seq<BwSample>, n: nat)
    requires n <= |xs| && forall k :: 0 <= k < |xs| ==> xs[k].appLimited && xs[k].bandwidth <= m.best.value
    ensures NewMeas(m, now, xs, n) == []
  {
    hide UpMax;
    if n > 0 {
      NothingTaken(m, now, xs, n - 1);
      NothingNew(m);
    }
  }

  // ---------- how long a measured bandwidth bounds the estimate ----------

  /** The measurements of events i to j. */
  ghost function Between(ss: seq<State>, es: seq<Event>, i: nat, j: nat): seq<Meas>
    requires |ss| == |es| + 1 && i <= j < |ss|
    decreases j
  {
    if i == j then [] else Between(ss, es, i, j - 1) + NewIn(ss[j - 1], ss[j], es[j - 1])
  }

  lemma {:induction false} FilterBetween(opt: Options, ss: seq<State>, es: seq<Event>, i: nat, j: nat)
    requires Run(opt, ss, es) && i <= j < |ss| && forall k :: i <= k < j ==> !es[k].Reinit?
    ensures ss[j].path.maxBandwidth == After(ss[i].path.maxBandwidth, Between(ss, es, i, j))
    ensures ss[i].path.roundCount <= ss[j].path.roundCount
    ensures Follow(ss[i].path.roundCount, ss[j].path.roundCount, Between(ss, es, i, j))
    decreases j
  {
    hide Inv, Legal, Step, Fresh, NewIn, After;
    if i == j {
      NothingNew(ss[i].path.maxBandwidth);
    } else {
      FilterBetween(opt, ss, es, i, j - 1);
      Reachable(opt, ss, es, j - 1);
      assert Steps(ss[j - 1], es[j - 1], ss[j]);
      FilterStep(ss[j - 1], es[j - 1]);
      var xs, ys := Between(ss, es, i, j - 1), NewIn(ss[j - 1], ss[j], es[j - 1]);
      AfterJoin(ss[i].path.maxBandwidth, xs, ys);
      FollowJoin(ss[i].path.roundCount, ss[j - 1].path.roundCount, ss[j].path.roundCount, xs, ys);
    }
  }

  lemma FollowJoin(a: nat, b: nat, c: nat, xs: seq<Meas>, ys: seq<Meas>)
    requires a <= b <= c && Follow(a, b, xs) && forall k :: 0 <= k < |ys| ==> ys[k].time == c
    ensures Follow(a, c, xs + ys)
  {
    if xs != [] {
      FirstInTime(a, b, xs);
    }
  }

  /** What the filter remembers of round r bounds the estimate from below until round r + 10, or a reinit. */
  lemma BandwidthIsLowerBound(opt: Options, ss: seq<State>, es: seq<Event>, i: nat, j: nat, r: nat, bandwidth: nat)
    requires Run(opt, ss, es) && i <= j < |ss| && forall k :: i <= k < j ==> !es[k].Reinit?
    requires Remembers(ss[i].path.maxBandwidth, r, bandwidth)
    requires r <= ss[i].path.roundCount && ss[j].path.roundCount <= r + 10
    ensures ss[j].path.maxBandwidth.best.value >= bandwidth
  {
    hide Fresh, Steps, UpMax, After, Remembers, Between;
    var m, xs := ss[i].path.maxBandwidth, Between(ss, es, i, j);
    EstimateAlways(opt, ss, es, i);
    FilterBetween(opt, ss, es, i, j);
    HoldsAscending(m, Measured(ss, es, i), ss[i].path.roundCount);
    assert Follow(ss[i].path.roundCount, r + 10, xs);
    RememberedHolds(m, r, bandwidth, ss[i].path.roundCount, xs);
  }

  lemma HoldsAscending(m: Filter, h: seq<Meas>, now: nat)
    requires Holds(m, h, now)
    ensures Ascending(m, now) && m.window == 10
  {
  }

  /** The estimate itself bounds all later ones until ten rounds after it was measured. */
  lemma EstimateLasts(opt: Options, ss: seq<State>, es: seq<Event>, i: nat, j: nat)
    requires Run(opt, ss, es) && i <= j < |ss| && forall k :: i <= k < j ==> !es[k].Reinit?
    requires ss[j].path.roundCount <= ss[i].path.maxBandwidth.best.time + 10
    ensures ss[j].path.maxBandwidth.best.value >= ss[i].path.maxBandwidth.best.value
  {
    hide Fresh, Steps, UpMax;
    var m := ss[i].path.maxBandwidth;
    EstimateAlways(opt, ss, es, i);
    HoldsAscending(m, Measured(ss, es, i), ss[i].path.roundCount);
    BandwidthIsLowerBound(opt, ss, es, i, j, m.best.time, m.best.value);
  }
}
