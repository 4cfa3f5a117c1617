/** Which round trip time the congestion controller reckons with, and when it changes its mode, over whole runs. */
module BbrModes {
  import opened Bytes
  import opened BbrState
  import opened BbrInvariants
  import opened BbrRuns
  import opened BbrTiming
  import opened BbrSending

  // ---------- the least round trip time ----------

  /** `least` is the least rtt of the first n samples, UINT64_MAX if there is none. */
  ghost predicate IsLeast(xs: seq<BwSample>, n: nat, least: u64)
    requires n <= |xs|
  {
    && (forall k :: 0 <= k < n ==> least <= xs[k].rtt)
    && (least == UINT64_MAX || exists k :: 0 <= k < n && xs[k].rtt == least)
  }

  lemma {:induction false} LeastIs(xs: seq<BwSample>, n: nat)
    requires n <= |xs|
    ensures IsLeast(xs, n, LeastRtt(xs, n))
  {
    if n > 0 {
      LeastIs(xs, n - 1);
      assert xs[n - 1].rtt <= UINT64_MAX;
    }
  }

  /** The least rtt is more than ten seconds old. */
  predicate IsOld(s: State) { s.path.minRtt > 0 && s.ack.time > s.minRttStamp + 10_000_000 }

  /** An old rtt is kept: since it was measured the application sent little, and the rtt hardly grew. */
  predicate Keeps(s: State, least: u64)
  {
    && s.path.appLimitedSinceProbe
    && (s.opt.probeRttDisabledIfAppLimited
        || (s.opt.probeRttSkippedIfSimilarRtt && 8 * Min(s.path.minRttSinceProbe, least) <= 9 * s.path.minRtt))
  }

  /** The acknowledgement measures the rtt. */
  predicate Sees(s: State, least: u64) { s.ack.ackedBytes > 0 && least != UINT64_MAX }

  predicate Replaces(s: State, least: u64)
  {
    Sees(s, least) && (s.path.minRtt == 0 || least < s.path.minRtt || IsOld(s))
  }

  /** Paths that agree in all but bandwidth and rounds. */
  predicate SameRtt(p: Path, q: Path)
  {
    p.minRtt == q.minRtt && p.minRttSinceProbe == q.minRttSinceProbe && p.appLimitedSinceProbe == q.appLimitedSinceProbe
  }

  lemma {:induction false} SamplesKeepRtt(p: Path, xs: seq<BwSample>, n: nat)
    requires n <= |xs|
    ensures SameRtt(p, TakeSamples(p, xs, n))
    ensures TakeSamples(p, xs, n).lastAppLimited == if n == 0 then p.lastAppLimited else xs[n - 1].appLimited
  {
    if n > 0 {
      SamplesKeepRtt(p, xs, n - 1);
    }
  }

  lemma SimilarMeans(since: u64, rtt: u64)
    ensures since as real > rtt as real * SIMILAR_MIN_RTT <==> 8 * since > 9 * rtt
  {
  }

  /** What an acknowledgement does to the rtt of a path. */
  ghost predicate RttFollows(s: State, p: Path, least: u64)
  {
    if Replaces(s, least) then
      && p.minRtt == (if IsOld(s) && Keeps(s, least) then s.path.minRtt else least)
      && p.minRttSinceProbe == UINT64_MAX && !p.appLimitedSinceProbe
    else
      && p.minRtt == s.path.minRtt && p.appLimitedSinceProbe == s.path.appLimitedSinceProbe
      && p.minRttSinceProbe == if Sees(s, least) then Min(s.path.minRttSinceProbe, least) else s.path.minRttSinceProbe
  }

  lemma KeepsIff(s: State, p: Path, least: u64)
    requires SameRtt(s.path, p)
    ensures Keeps(s, least) <==>
      ExtendExpiry(s.opt, p.(minRttSinceProbe := if p.minRttSinceProbe < least then p.minRttSinceProbe else least))
  {
    SimilarMeans(if p.minRttSinceProbe < least then p.minRttSinceProbe else least, p.minRtt);
  }

  lemma RttUpdated(s: State, p: Path, least: u64)
    requires SameRtt(s.path, p) && s.ack.ackedBytes > 0
    ensures var u := UpdateMinRtt(s.opt, p, s.minRttStamp, s.ack.time, least);
            && RttFollows(s, u.path, least)
            && u.stamp == (if Replaces(s, least) then s.ack.time else s.minRttStamp)
            && (u.expired <==> Sees(s, least) && IsOld(s) && !Keeps(s, least))
  {
    hide ExtendExpiry, Keeps;
    KeepsIff(s, p, least);
  }

  lemma RttLearned(s: State, acked: nat) returns (least: u64)
    ensures IsLeast(s.ack.samples, |s.ack.samples|, least)
    ensures var k := Learn(s, acked);
            && RttFollows(s, k.s.path, least)
            && k.s.minRttStamp == (if Replaces(s, least) then s.ack.time else s.minRttStamp)
            && (k.expired <==> Sees(s, least) && IsOld(s) && !Keeps(s, least))
  {
    hide UpdateAggregation, TakeSamples, UpdateRecovery, RoundStart, LeastRtt, UpdateMinRtt, IsOld, Keeps, IsLeast;
    var n := |s.ack.samples|;
    least := LeastRtt(s.ack.samples, n);
    LeastIs(s.ack.samples, n);
    if s.ack.ackedBytes > 0 {
      var p := if RoundStart(s.repair, s.ack) then s.path.(roundCount := s.path.roundCount + 1) else s.path;
      SamplesKeepRtt(p, s.ack.samples, n);
      RttUpdated(s, TakeSamples(p, s.ack.samples, n), least);
    }
  }

  lemma StampSteered(k: Learned, inFlight: nat, rand: byte)
    requires GainsPositive(k.s)
    ensures var t, g := Steer(k, inFlight, rand), k.s.gear;
            t.minRttStamp == if g.mode == ProbeRtt && t.gear.mode != ProbeRtt then k.s.ack.time else k.s.minRttStamp
  {
    hide CycledGear, CheckFullBw, Drained, HeightAfterCheck, TargetCwnd;
    var b := Checked(k, CycledGear(k.s, inFlight));
    EarlierStages(k, b, inFlight, rand);
    hide ExitStartupOrDrain;
  }

  predicate Quiet(g: Gear) { !g.exitingQuiescence }

  /** The modes STARTUP and DRAIN end in one stage, where the bytes in flight fit or do not. */
  predicate Exits(g: Gear, h: Gear, fits: bool, now: nat, rand: byte)
  {
    && h.mode == (if g.mode == Startup && !g.fullBw then Startup
                  else if g.mode == Startup || g.mode == Drain then (if fits then ProbeBw else Drain)
                  else g.mode)
    && h.fullBw == g.fullBw && h.exitingQuiescence == g.exitingQuiescence
    && (g.mode != ProbeBw && h.mode == ProbeBw ==> Entered(h, now, rand))
  }

  /** The cycle begins at a random place, but not in the phase that drains. */
  predicate Entered(h: Gear, now: nat, rand: byte)
  {
    && h.cycleOffset == (if rand % 7 == 0 then 0 else rand % 7 + 1) && h.lastCycleStart == now
    && h.pacingGain == (if h.cycleOffset == 0 then 1.25 else 1.0)
  }

  lemma EntersCycle(g: Gear, now: nat, rand: byte)
    ensures Entered(EnterProbeBw(g, now, rand), now, rand)
  {
  }

  lemma ExitStage(s: State, inFlight: nat, rand: byte)
    ensures Exits(s.gear, ExitStartupOrDrain(s, inFlight, rand), inFlight <= TargetCwnd(s.path, s.rttMin, 1.0), s.ack.time, rand)
  {
    hide TargetCwnd, CycleStart, PacingGain, Entered;
    EntersCycle(s.gear, s.ack.time, rand);
    EntersCycle(s.gear.(mode := Drain, pacingGain := DRAIN_GAIN, cwndGain := HIGH_GAIN), s.ack.time, rand);
  }

  /** PROBE_RTT is entered and left in the last stage. */
  lemma LastStage(g: Gear, now: nat, round: bool, expired: bool, drained: bool, rand: byte)
    requires Quiet(g)
    ensures var h := ProbeRttStep(g, now, round, expired, drained, rand);
            && Quiet(h) && h.fullBw == g.fullBw
            && (g.mode != ProbeRtt ==> h.mode == if expired then ProbeRtt else g.mode)
            && (g.mode != ProbeRtt && !expired ==> h == g)
            && (g.mode == ProbeRtt && h.mode != ProbeRtt ==> h.mode == if h.fullBw then ProbeBw else Startup)
            && (g.mode == ProbeRtt && h.mode == ProbeBw ==> Entered(h, now, rand))
  {
    hide CycleStart, PacingGain, Entered;
    EntersCycle(g, now, rand);
    EntersCycle(g.(roundPassed := g.roundPassed || round), now, rand);
  }

  /** All stages: which mode follows, where `fits` says that the bytes in flight are no more than the target. */
  ghost predicate ModeFollows(g: Gear, h: Gear, expired: bool, fits: bool, now: nat, rand: byte)
  {
    && (g.mode != ProbeRtt ==> (h.mode == ProbeRtt <==> expired))
    && (g.mode == Startup && h.mode != ProbeRtt ==>
          h.mode == if !h.fullBw then Startup else if fits then ProbeBw else Drain)
    && (g.mode == Drain && h.mode != ProbeRtt ==> h.mode == if fits then ProbeBw else Drain)
    && (g.mode == ProbeBw && h.mode != ProbeRtt ==> h.mode == ProbeBw)
    && (g.mode == ProbeRtt && h.mode != ProbeRtt ==> h.mode == if h.fullBw then ProbeBw else Startup)
    && (g.mode != ProbeBw && h.mode == ProbeBw ==> Entered(h, now, rand))
  }

  lemma ModeSteered(k: Learned, inFlight: nat, rand: byte)
    requires GearOk(k.s.opt, k.s.gear) && Quiet(k.s.gear)
    ensures GainsPositive(k.s)
    ensures var h := Steer(k, inFlight, rand).gear;
            Quiet(h) && ModeFollows(k.s.gear, h, k.expired, inFlight <= TargetCwnd(k.s.path, k.s.rttMin, 1.0), k.s.ack.time, rand)
  {
    GearPositive(k.s.opt, k.s.gear);
    CycleKeeps(k.s, inFlight);
    var g := CycledGear(k.s, inFlight);
    QuietStages(k.s, k.s.(gear := g), inFlight);
    hide GearOk, TargetCwnd, Drained, HeightAfterCheck, CycledGear, CheckFullBw, ExitStartupOrDrain, ProbeRttStep, Entered;
    hide EnterProbeRtt, MayLeaveProbeRtt;
    var b := Checked(k, g);
    ExitStage(b, inFlight, rand);
    LastStage(ExitStartupOrDrain(b, inFlight, rand), b.ack.time, k.roundStart, k.expired, Drained(b, inFlight), rand);
  }

  lemma QuietStages(s: State, t: State, inFlight: nat)
    requires GainsPositive(s) && Quiet(s.gear)
    ensures Quiet(CycledGear(s, inFlight)) && CheckFullBw(t).exitingQuiescence == t.gear.exitingQuiescence
    ensures CheckFullBw(t).mode == t.gear.mode
  {
    hide AdvanceCycle, BandwidthGrew;
  }

  lemma {:induction false} QuietAlways(opt: Options, ss: seq<State>, es: seq<Event>, n: nat)
    requires Run(opt, ss, es) && n < |ss|
    ensures Quiet(ss[n].gear)
  {
    hide Inv, Step, Legal, Learn, Steer;
    if n == 0 {
      FreshQuiet(opt);
    } else {
      var m := n - 1;
      QuietAlways(opt, ss, es, m);
      Reachable(opt, ss, es, m);
      assert Steps(ss[m], es[m], ss[n]);
      if es[m].EndedAck? {
        var k, u := PartsOf(opt, ss, es, m);
        InvGear(ss[m]);
        LearnedOpt(ss[m].(inAck := false), AckedNow(ss[m]));
        ModeSteered(k, es[m].inFlight, es[m].rand);
      } else {
        QuietGear(ss[m], es[m]);
      }
    }
  }

  lemma FreshQuiet(opt: Options)
    ensures Quiet(Fresh(opt).gear)
  {
  }

  lemma QuietGear(s: State, e: Event)
    requires Ready(s) && !e.EndedAck? && Quiet(s.gear)
    ensures Quiet(Step(s, e).gear)
  {
    hide EndAck, Cwnd, PipeFull;
  }

  /** The bytes in flight are no more than what fits into the least round trip at the estimated bandwidth. */
  ghost predicate Fits(t: State, inFlight: nat) { exists target :: IsTarget(t, 1.0, target) && inFlight <= target }

  lemma FitsIff(t: State, inFlight: nat)
    ensures Fits(t, inFlight) <==> inFlight <= TargetCwnd(t.path, t.rttMin, 1.0)
  {
    hide TargetCwnd, IsTarget;
    TargetOfCwnd(t, 1.0);
    forall x: nat | IsTarget(t, 1.0, x)
      ensures x == TargetCwnd(t.path, t.rttMin, 1.0)
    {
      TargetIsUnique(t, 1.0, x, TargetCwnd(t.path, t.rttMin, 1.0));
    }
  }

  /**
   * What an acknowledgement does to the least rtt and to the mode: a lower rtt replaces it, and so does any when
   * it is older than ten seconds, unless the application was idle meanwhile; and just when an old one is
   * replaced, PROBE_RTT is entered. STARTUP ends with full bandwidth, DRAIN as soon as the bytes in flight fit.
   */
  lemma ModeAfterAck(opt: Options, ss: seq<State>, es: seq<Event>, i: nat) returns (least: u64)
    requires Run(opt, ss, es) && i < |es| && es[i].EndedAck?
    ensures IsLeast(ss[i].ack.samples, |ss[i].ack.samples|, least)
    ensures var s, t := ss[i], ss[i + 1];
            && RttFollows(s, t.path, least)
            && (t.minRttStamp == if Replaces(s, least) || (s.gear.mode == ProbeRtt && t.gear.mode != ProbeRtt)
                                 then s.ack.time else s.minRttStamp)
            && ModeFollows(s.gear, t.gear, Sees(s, least) && IsOld(s) && !Keeps(s, least), Fits(t, es[i].inFlight),
                 s.ack.time, es[i].rand)
  {
    var k, u := PartsOf(opt, ss, es, i);
    QuietAlways(opt, ss, es, i);
    var s, t, a := ss[i], ss[i + 1], ss[i].(inAck := false);
    InvGear(s);
    hide Inv, Run, Learn, Steer, Resize, IsLeast, IsOld, Keeps, ModeFollows, Fits, GearOk, TargetCwnd;
    LearnedOpt(a, AckedNow(s));
    LearnedAck(a, AckedNow(s));
    least := RttLearned(a, AckedNow(s));
    SameRttState(s, a, t.path, least);
    StampSteered(k, es[i].inFlight, es[i].rand);
    ModeSteered(k, es[i].inFlight, es[i].rand);
    FitsIff(t, es[i].inFlight);
  }

  lemma LearnedAck(s: State, acked: nat)
    ensures Learn(s, acked).s.ack == s.ack && Learn(s, acked).s.rttMin == s.rttMin
  {
  }

  lemma SameRttState(s: State, a: State, p: Path, least: u64)
    requires a == s.(inAck := false) && RttFollows(a, p, least)
    ensures RttFollows(s, p, least)
    ensures IsOld(s) == IsOld(a) && Sees(s, least) == Sees(a, least) && Keeps(s, least) == Keeps(a, least)
    ensures Replaces(s, least) == Replaces(a, least)
  {
  }

  /** An rtt below the least one is ignored exactly when it ends ten seconds in which the application was idle. */
  lemma LowerRttIsIgnoredIff(opt: Options, ss: seq<State>, es: seq<Event>, i: nat) returns (least: u64)
    requires Run(opt, ss, es) && i < |es| && es[i].EndedAck? && ss[i].ack.ackedBytes > 0 && ss[i].path.minRtt > 0
    ensures IsLeast(ss[i].ack.samples, |ss[i].ack.samples|, least)
    ensures least < ss[i + 1].path.minRtt <==> least < ss[i].path.minRtt && IsOld(ss[i]) && Keeps(ss[i], least)
  {
    hide Steps, Fresh, IsLeast, IsOld, Keeps, ModeFollows, Fits;
    least := ModeAfterAck(opt, ss, es, i);
    assert ss[i].path.minRtt <= UINT64_MAX;
  }

  // ---------- what limits the application ----------

  lemma {:induction false} SomeNotLimited(p: Path, xs: seq<BwSample>, n: nat)
    requires n <= |xs|
    ensures TakeSamples(p, xs, n).hasNonAppLimited <==> p.hasNonAppLimited || exists k :: 0 <= k < n && !xs[k].appLimited
  {
    if n > 0 {
      SomeNotLimited(p, xs, n - 1);
    }
  }

  lemma FlagsLearned(s: State, acked: nat)
    requires s.ack.ackedBytes > 0
    ensures var p, xs := Learn(s, acked).s.path, s.ack.samples;
            && p.lastAppLimited == (if xs == [] then s.path.lastAppLimited else xs[|xs| - 1].appLimited)
            && (p.hasNonAppLimited <==> s.path.hasNonAppLimited || exists k :: 0 <= k < |xs| && !xs[k].appLimited)
  {
    hide UpdateAggregation, TakeSamples, UpdateRecovery, RoundStart, LeastRtt;
    var p := if RoundStart(s.repair, s.ack) then s.path.(roundCount := s.path.roundCount + 1) else s.path;
    SamplesKeepRtt(p, s.ack.samples, |s.ack.samples|);
    SomeNotLimited(p, s.ack.samples, |s.ack.samples|);
  }

  /** The last sample says whether the application limits the flow; one sample that it did not is remembered. */
  lemma FlagsAfterAck(opt: Options, ss: seq<State>, es: seq<Event>, i: nat)
    requires Run(opt, ss, es) && i < |es| && es[i].EndedAck? && ss[i].ack.ackedBytes > 0
    ensures var s, t, xs := ss[i].path, ss[i + 1].path, ss[i].ack.samples;
            && t.lastAppLimited == (if xs == [] then s.lastAppLimited else xs[|xs| - 1].appLimited)
            && (t.hasNonAppLimited <==> s.hasNonAppLimited || exists k :: 0 <= k < |xs| && !xs[k].appLimited)
  {
    var k, u := PartsOf(opt, ss, es, i);
    hide Inv, Run, Learn, Steer, Resize;
    FlagsLearned(ss[i].(inAck := false), AckedNow(ss[i]));
  }

  /** A packet sent for want of more data counts if it leaves the window open. */
  lemma LimitedAfterSend(opt: Options, ss: seq<State>, es: seq<Event>, i: nat)
    requires Run(opt, ss, es) && i < |es| && es[i].SentPacket?
    ensures ss[i + 1].path.appLimitedSinceProbe <==>
      ss[i].path.appLimitedSinceProbe || (es[i].appLimited && es[i].inFlight < Cwnd(ss[i]))
  {
    Reachable(opt, ss, es, i);
    assert Steps(ss[i], es[i], ss[i + 1]);
    InvLimited(ss[i]);
    hide Inv, Cwnd, PipeFull, EndAck, Fresh;
  }

  lemma InvLimited(s: State)
    requires Inv(s)
    ensures !s.flexibleAppLimited
  {
    hide GearOk, SamplesOk, WindowsOk, RepairOk, AckOk;
  }

  // ---------- the least rtt over a run ----------

  /** The rtt of p bounds what the acknowledgement sampled. */
  ghost predicate Bounded(s: State, p: Path)
  {
    s.ack.ackedBytes > 0 ==> forall k :: 0 <= k < |s.ack.samples| ==> p.minRtt <= s.ack.samples[k].rtt
  }

  /**
   * Event j ended the acknowledgement that the stamp names, and no rtt sampled since is lower; unless that
   * acknowledgement kept an old rtt, no rtt that it sampled itself is.
   */
  ghost predicate LeastSince(ss: seq<State>, es: seq<Event>, n: nat, j: nat)
    requires |ss| == |es| + 1 && n < |ss|
  {
    && j < n && es[j].EndedAck? && ss[n].minRttStamp == ss[j].ack.time
    && (Bounded(ss[j], ss[n].path)
        || (IsOld(ss[j]) && ss[j].path.appLimitedSinceProbe && ss[j].path.minRtt == ss[n].path.minRtt))
    && (forall i :: j < i < n && es[i].EndedAck? ==> Bounded(ss[i], ss[n].path))
  }

  lemma NewBound(s: State, p: Path, least: u64)
    requires IsLeast(s.ack.samples, |s.ack.samples|, least) && RttFollows(s, p, least)
    ensures Bounded(s, p) || (Replaces(s, least) && IsOld(s) && s.path.appLimitedSinceProbe && p.minRtt == s.path.minRtt)
  {
    assert p.minRtt <= UINT64_MAX;
  }

  lemma SamePathBound(ss: seq<State>, es: seq<Event>, m: nat, j: nat)
    requires |ss| == |es| + 1 && m < |es| && LeastSince(ss, es, m, j)
    requires ss[m + 1].path.minRtt == ss[m].path.minRtt && ss[m + 1].minRttStamp == ss[m].minRttStamp
    requires es[m].EndedAck? ==> Bounded(ss[m], ss[m + 1].path)
    ensures LeastSince(ss, es, m + 1, j)
  {
    hide IsOld;
  }

  /** The least rtt bounds all rtts sampled since the acknowledgement that its stamp names. */
  lemma {:induction false} MinRttHistory(opt: Options, ss: seq<State>, es: seq<Event>, n: nat) returns (j: nat)
    requires Run(opt, ss, es) && n < |ss| && ss[n].path.minRtt > 0
    ensures LeastSince(ss, es, n, j)
  {
    hide Inv, Step, Legal, IsLeast, ModeFollows, Fits, IsOld, Keeps, Bounded;
    if n == 0 {
      FreshRtt(opt);
    } else {
      var m := n - 1;
      Reachable(opt, ss, es, m);
      assert Steps(ss[m], es[m], ss[n]);
      if es[m].EndedAck? {
        var least := ModeAfterAck(opt, ss, es, m);
        NewBound(ss[m], ss[n].path, least);
        if Replaces(ss[m], least) || (ss[m].gear.mode == ProbeRtt && ss[n].gear.mode != ProbeRtt) {
          j := m;
        } else {
          j := MinRttHistory(opt, ss, es, m);
          SamePathBound(ss, es, m, j);
        }
      } else {
        QuietRtt(ss[m], es[m]);
        j := MinRttHistory(opt, ss, es, m);
        SamePathBound(ss, es, m, j);
      }
    }
  }

  lemma FreshRtt(opt: Options)
    ensures Fresh(opt).path.minRtt == 0
  {
  }

  lemma QuietRtt(s: State, e: Event)
    requires Ready(s) && !e.EndedAck?
    ensures var t := Step(s, e);
            if e.Reinit? then t.path.minRtt == 0
            else t.path.minRtt == s.path.minRtt && t.minRttStamp == s.minRttStamp
  {
    hide EndAck, Cwnd, PipeFull;
  }

  /**
   * The least rtt rises only after ten seconds in which nothing lower was sampled, it rises to the least rtt of
   * that acknowledgement, and the controller is in PROBE_RTT before or after it.
   */
  lemma MinRttRises(opt: Options, ss: seq<State>, es: seq<Event>, i: nat) returns (j: nat)
    requires Run(opt, ss, es) && i < |es| && 0 < ss[i].path.minRtt < ss[i + 1].path.minRtt
    ensures es[i].EndedAck? && LeastSince(ss, es, i, j) && ss[i].ack.time > ss[j].ack.time + 10_000_000
    ensures IsLeast(ss[i].ack.samples, |ss[i].ack.samples|, ss[i + 1].path.minRtt)
    ensures ss[i].gear.mode == ProbeRtt || ss[i + 1].gear.mode == ProbeRtt
  {
    hide Inv, Step, Legal, IsLeast, Fits, Keeps, Bounded;
    Reachable(opt, ss, es, i);
    assert Steps(ss[i], es[i], ss[i + 1]);
    j := MinRttHistory(opt, ss, es, i);
    if es[i].EndedAck? {
      var least := ModeAfterAck(opt, ss, es, i);
    } else {
      QuietRtt(ss[i], es[i]);
    }
  }

  // ---------- full bandwidth ----------

  /** Event i ends an acknowledgement that starts a round and of which the last sample was not limited. */
  ghost predicate Checks(ss: seq<State>, es: seq<Event>, i: nat)
    requires |ss| == |es| + 1 && i < |es|
  {
    es[i].EndedAck? && ss[i + 1].path.roundCount != ss[i].path.roundCount && !ss[i + 1].path.lastAppLimited
  }

  /** How many checked rounds passed since the estimate last grew by a quarter, and the estimate it had then. */
  ghost function Idle(ss: seq<State>, es: seq<Event>, n: nat): (r: (nat, nat))
    requires |ss| == |es| + 1 && n < |ss|
    ensures r.0 <= 3
  {
    if n == 0 || es[n - 1].Reinit? then (0, 0)
    else
      var (rounds, base) := Idle(ss, es, n - 1);
      var bandwidth := ss[n].path.maxBandwidth.best.value;
      if rounds == 3 || !Checks(ss, es, n - 1) then (rounds, base)
      else if 5 * base < 4 * (bandwidth + 1) then (0, bandwidth)
      else (rounds + 1, base)
  }

  /** The full-bandwidth fields of two gears agree. */
  predicate SameCheck(g: Gear, h: Gear)
  {
    g.fullBw == h.fullBw && g.roundsWithoutGain == h.roundsWithoutGain && g.bwAtLastRound == h.bwAtLastRound
  }

  lemma CycleKeepsCheck(s: State, inFlight: nat)
    requires GainsPositive(s)
    ensures SameCheck(s.gear, CycledGear(s, inFlight))
  {
    hide AdvanceCycle, TargetCwnd;
  }

  lemma LaterKeepCheck(s: State, inFlight: nat, now: nat, round: bool, expired: bool, drained: bool, rand: byte)
    ensures SameCheck(s.gear, ProbeRttStep(ExitStartupOrDrain(s, inFlight, rand), now, round, expired, drained, rand))
  {
    hide TargetCwnd, CycleStart, PacingGain;
  }

  lemma CheckSteered(k: Learned, inFlight: nat, rand: byte)
    requires GainsPositive(k.s)
    ensures var g, h, v := k.s.gear, Steer(k, inFlight, rand).gear, k.s.path.maxBandwidth.best.value;
            if !k.roundStart || g.fullBw || k.s.path.lastAppLimited then SameCheck(g, h)
            else if 5 * g.bwAtLastRound < 4 * (v + 1) then
              !h.fullBw && h.roundsWithoutGain == 0 && h.bwAtLastRound == v
            else
              && h.bwAtLastRound == g.bwAtLastRound && h.roundsWithoutGain == g.roundsWithoutGain + 1
              && (!k.s.exitStartupOnLoss ==> (h.fullBw <==> h.roundsWithoutGain >= 3))
  {
    CycleKeepsCheck(k.s, inFlight);
    var g := CycledGear(k.s, inFlight);
    GrewMeans(k.s.path.maxBandwidth.best.value, g.bwAtLastRound);
    var b := Checked(k, g);
    hide CycledGear, ExitStartupOrDrain, ProbeRttStep, Times, Drained, HeightAfterCheck, EnterProbeRtt, MayLeaveProbeRtt;
    LaterKeepCheck(b, inFlight, b.ack.time, k.roundStart, k.expired, Drained(b, inFlight), rand);
  }

  /** The full-bandwidth fields count the checked rounds without growth. */
  ghost predicate Counted(g: Gear, idle: (nat, nat))
  {
    (g.fullBw <==> idle.0 == 3) && g.roundsWithoutGain == idle.0 && g.bwAtLastRound == idle.1
  }

  /**
   * Full bandwidth is declared exactly when the estimate failed three checked rounds in a row to grow by a
   * quarter; and STARTUP ends with it.
   */
  lemma {:induction false} FullBandwidthIff(opt: Options, ss: seq<State>, es: seq<Event>, n: nat)
    requires Run(opt, ss, es) && n < |ss|
    ensures Counted(ss[n].gear, Idle(ss, es, n))
    ensures Idle(ss, es, n).0 == 3 ==> ss[n].gear.mode != Startup
  {
    hide Inv, Step, Legal, Learn, Steer, Resize;
    ModesAlways(opt, ss, es, n);
    if n == 0 {
      FreshCount(opt);
    } else {
      var m := n - 1;
      FullBandwidthIff(opt, ss, es, m);
      Reachable(opt, ss, es, m);
      assert Steps(ss[m], es[m], ss[n]);
      if es[m].EndedAck? {
        var k, u := PartsOf(opt, ss, es, m);
        var a := ss[m].(inAck := false);
        HeightLearned(a, AckedNow(ss[m]));
        LearnedFlags(ss[m], AckedNow(ss[m]));
        CheckSteered(k, es[m].inFlight, es[m].rand);
      } else {
        QuietCheck(ss[m], es[m]);
      }
    }
  }

  lemma FreshCount(opt: Options)
    ensures Counted(Fresh(opt).gear, (0, 0))
  {
  }

  lemma LearnedFlags(s: State, acked: nat)
    requires Inv(s)
    ensures !Learn(s.(inAck := false), acked).s.exitStartupOnLoss
  {
    hide GearOk, SamplesOk, WindowsOk, RepairOk, AckOk;
  }

  lemma QuietCheck(s: State, e: Event)
    requires Ready(s) && !e.EndedAck?
    ensures var g := Step(s, e).gear;
            if e.Reinit? then Counted(g, (0, 0)) else SameCheck(s.gear, g)
  {
    hide EndAck, Cwnd, PipeFull;
  }

  // ---------- the gain cycle ----------

  /**
   * A phase of the cycle ends: the one that drains as soon as the bytes in flight fit, any after a round trip
   * time; but the one that probes lasts, without a loss, until its target was in flight.
   */
  ghost predicate PhaseEnds(s: State, t: State, inFlight: nat)
  {
    || (s.gear.pacingGain < 1.0 && Fits(t, inFlight))
    || ((exists rtt: nat :: IsRtt(t, rtt) && (s.ack.time - s.gear.lastCycleStart) % 0x1_0000_0000_0000_0000 > rtt)
        && (s.gear.pacingGain > 1.0 ==>
              s.ack.hasLosses || exists target :: IsTarget(t, s.gear.pacingGain, target) && s.ack.inFlight >= target))
  }

  lemma EndsIff(s: State, t: State, inFlight: nat)
    requires s.gear.pacingGain >= 0.0 && s.path == t.path && s.rttMin == t.rttMin
    ensures AdvanceCycle(s, inFlight) <==> PhaseEnds(s, t, inFlight)
  {
    hide TargetCwnd, IsTarget, Fits;
    FitsIff(t, inFlight);
    assert IsRtt(t, MinRtt(t.path, t.rttMin));
    var gain := s.gear.pacingGain;
    TargetOfCwnd(t, gain);
    forall x: nat | IsTarget(t, gain, x)
      ensures x == TargetCwnd(t.path, t.rttMin, gain)
    {
      TargetIsUnique(t, gain, x, TargetCwnd(t.path, t.rttMin, gain));
    }
  }

  lemma CycleSteered(k: Learned, inFlight: nat, rand: byte)
    requires GainsPositive(k.s) && Quiet(k.s.gear) && k.s.gear.mode == ProbeBw && k.s.gear.fullBw
    ensures var g, h := k.s.gear, Steer(k, inFlight, rand).gear;
            h.mode == ProbeBw ==> h == CycledGear(k.s, inFlight)
  {
    hide AdvanceCycle, TargetCwnd, Drained;
  }

  /** The next phase of the cycle, if the phase ends; 0.75 may be held until the bytes in flight fit. */
  predicate CycleFollows(g: Gear, h: Gear, ends: bool, holds: bool, now: nat)
  {
    if !ends then h == g
    else
      && h.cycleOffset == (if g.cycleOffset == 7 then 0 else g.cycleOffset + 1) && h.lastCycleStart == now
      && h.pacingGain == if holds && g.pacingGain < 1.0 && h.cycleOffset >= 2 then g.pacingGain
                         else if h.cycleOffset == 0 then 1.25 else if h.cycleOffset == 1 then 0.75 else 1.0
  }

  lemma CycledFollows(s: State, inFlight: nat)
    requires s.gear.pacingGain >= 0.0 && s.gear.mode == ProbeBw && s.gear.cycleOffset < 8
    ensures CycleFollows(s.gear, CycledGear(s, inFlight), AdvanceCycle(s, inFlight),
              s.opt.drainToTarget && inFlight > TargetCwnd(s.path, s.rttMin, 1.0), s.ack.time)
  {
    hide AdvanceCycle, TargetCwnd;
  }

  /** PROBE_BW goes through its phases in order, 1.25, 0.75, and six times 1, and may hold 0.75 until it drained. */
  lemma CycleAfterAck(opt: Options, ss: seq<State>, es: seq<Event>, i: nat)
    requires Run(opt, ss, es) && i < |es| && es[i].EndedAck?
    requires ss[i].gear.mode == ProbeBw && ss[i + 1].gear.mode == ProbeBw
    ensures var s, t := ss[i], ss[i + 1];
            CycleFollows(s.gear, t.gear, PhaseEnds(s, t, es[i].inFlight), s.opt.drainToTarget && !Fits(t, es[i].inFlight),
              s.ack.time)
  {
    var k, u := PartsOf(opt, ss, es, i);
    QuietAlways(opt, ss, es, i);
    ModesAlways(opt, ss, es, i);
    var s, t, a := ss[i], ss[i + 1], ss[i].(inAck := false);
    hide Inv, Run, Learn, Steer, Resize, Fits, TargetCwnd, AdvanceCycle, PhaseEnds, CycleFollows, CycledGear;
    LearnedOpt(a, AckedNow(s));
    LearnedAck(a, AckedNow(s));
    CycleSteered(k, es[i].inFlight, es[i].rand);
    CycledFollows(k.s, es[i].inFlight);
    EndsIff(k.s, t, es[i].inFlight);
    SamePhase(s, k.s, t, es[i].inFlight);
    FitsIff(t, es[i].inFlight);
  }

  lemma SamePhase(s: State, a: State, t: State, inFlight: nat)
    requires a.gear == s.gear && a.ack == s.ack
    ensures PhaseEnds(s, t, inFlight) <==> PhaseEnds(a, t, inFlight)
  {
    hide Fits, IsTarget;
  }
}
