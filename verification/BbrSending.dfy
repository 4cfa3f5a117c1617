/** What the congestion controller tells the sender, over whole runs: its windows and its pacing rate. */
module BbrSending {
  import opened Bytes
  import opened MinMax
  import opened BbrState
  import opened BbrInvariants
  import opened BbrRuns
  import opened BbrBandwidth

  // ---------- targets ----------

  /** `w` is the whole part of gain times x. */
  predicate IsProduct(x: nat, gain: real, w: nat) { w as real <= x as real * gain < w as real + 1.0 }

  /** The round trip time to reckon with; 25 ms while none is known. */
  predicate IsRtt(s: State, rtt: nat)
  {
    rtt == if s.path.minRtt > 0 then s.path.minRtt else if s.rttMin > 0 then s.rttMin else 25_000
  }

  /** `bdp` bytes fit into the least round trip at the estimated bandwidth. */
  ghost predicate IsBdp(s: State, bdp: nat)
  {
    exists rtt: nat :: IsRtt(s, rtt)
      && bdp * 1_000_000 <= rtt * (s.path.maxBandwidth.best.value / 8) < (bdp + 1) * 1_000_000
  }

  /** The window for a gain: that many times what fits, or 32 segments while nothing does; at least 4 segments. */
  ghost predicate IsTarget(s: State, gain: real, target: nat)
  {
    exists bdp: nat, w: nat, v: nat :: IsBdp(s, bdp) && IsProduct(bdp, gain, w) && IsProduct(32 * 1460, gain, v)
      && target == Max(if w > 0 then w else v, 4 * 1460)
  }

  lemma ProductOfTimes(x: nat, gain: real)
    requires gain >= 0.0
    ensures x as real * gain >= 0.0 && IsProduct(x, gain, Times(x, gain))
  {
  }

  lemma TargetOfCwnd(s: State, gain: real)
    requires gain >= 0.0
    ensures IsTarget(s, gain, TargetCwnd(s.path, s.rttMin, gain))
  {
    hide Times;
    var bdp := Bdp(s.path, s.rttMin);
    assert IsRtt(s, MinRtt(s.path, s.rttMin)) && IsBdp(s, bdp);
    ProductOfTimes(bdp, gain);
    ProductOfTimes(INIT_CWND, gain);
    assert IsProduct(32 * 1460, gain, Times(INIT_CWND, gain));
  }

  lemma BdpIsUnique(s: State, a: nat, b: nat)
    requires IsBdp(s, a) && IsBdp(s, b)
    ensures a == b
  {
  }

  lemma ProductIsUnique(x: nat, gain: real, v: nat, w: nat)
    requires IsProduct(x, gain, v) && IsProduct(x, gain, w)
    ensures v == w
  {
    var p := x as real * gain;
  }

  /** There is no other target. */
  lemma TargetIsUnique(s: State, gain: real, a: nat, b: nat)
    requires IsTarget(s, gain, a) && IsTarget(s, gain, b)
    ensures a == b
  {
    hide IsBdp, IsProduct;
    var d: nat, w: nat, v: nat :| IsBdp(s, d) && IsProduct(d, gain, w) && IsProduct(32 * 1460, gain, v)
      && a == Max(if w > 0 then w else v, 4 * 1460);
    var e: nat, x: nat, y: nat :| IsBdp(s, e) && IsProduct(e, gain, x) && IsProduct(32 * 1460, gain, y)
      && b == Max(if x > 0 then x else y, 4 * 1460);
    BdpIsUnique(s, d, e);
    ProductIsUnique(d, gain, w, x);
    ProductIsUnique(32 * 1460, gain, v, y);
  }

  // ---------- the stages of an end_ack ----------

  ghost predicate Parts(s: State, e: Event, t: State, k: Learned, u: State)
    requires Ready(s) && e.EndedAck?
  {
    && k == Learn(s.(inAck := false), AckedNow(s)) && k.s.gear == s.gear && Positive(s.gear)
    && u == Steer(k, e.inFlight, e.rand) && Positive(u.gear)
    && t == Resize(u, AckedNow(s), k.excess, e.inFlight)
    && u.path == t.path == k.s.path && u.gear == t.gear && u.opt == t.opt == s.opt && u.rttMin == t.rttMin == s.rttMin
    && u.cwnd == s.cwnd && u.pacingRate == s.pacingRate && u.totalAcked == s.totalAcked && u.ack == s.ack
    && u.repair == k.s.repair && u.maxAckHeight == t.maxAckHeight && u.minRttStamp == t.minRttStamp
    && t.aggStart == k.s.aggStart && t.aggBytes == k.s.aggBytes
  }

  lemma PartsOf(opt: Options, ss: seq<State>, es: seq<Event>, i: nat) returns (k: Learned, u: State)
    requires Run(opt, ss, es) && i < |es| && es[i].EndedAck?
    ensures Inv(ss[i]) && Ready(ss[i]) && Parts(ss[i], es[i], ss[i + 1], k, u)
  {
    Reachable(opt, ss, es, i);
    var s, e := ss[i], es[i];
    assert Steps(s, e, ss[i + 1]);
    hide Fresh;
    k, u := PartsOfStep(s, e);
  }

  lemma PartsOfStep(s: State, e: Event) returns (k: Learned, u: State)
    requires Inv(s) && e.EndedAck?
    ensures Ready(s) && Parts(s, e, Step(s, e), k, u)
  {
    GearPositive(s.opt, s.gear);
    hide GearOk, SamplesOk, RepairOk, WindowsOk, Learn, Steer, Resize;
    var a, acked := s.(inAck := false), AckedNow(s);
    LearnKeeps(a, acked);
    LearnRest(a, acked);
    k := Learn(a, acked);
    SteerKeeps(k, e.inFlight, e.rand);
    u := Steer(k, e.inFlight, e.rand);
    GearPositive(u.opt, u.gear);
    ResizeRest(u, acked, k.excess, e.inFlight);
  }

  lemma LearnRest(s: State, acked: nat)
    ensures Learn(s, acked).s.pacingRate == s.pacingRate
  {
  }

  // ---------- the window ----------

  /** `excess` bytes were acknowledged beyond what the estimate explains since the burst of acks began. */
  ghost predicate IsExcess(s: State, t: State, acked: nat, excess: nat)
  {
    if s.ack.ackedBytes == 0 then excess == 0 && t.aggStart == s.aggStart && t.aggBytes == s.aggBytes
    else
      var expected := t.path.maxBandwidth.best.value * ((s.ack.time - s.aggStart) % 0x1_0000_0000_0000_0000);
      if s.aggBytes <= expected then excess == 0 && t.aggStart == s.ack.time && t.aggBytes == acked
      else excess == s.aggBytes + acked - expected && t.aggStart == s.aggStart && t.aggBytes == s.aggBytes + acked
  }

  lemma ExcessLearned(s: State, acked: nat)
    ensures var k := Learn(s, acked); IsExcess(s, k.s, acked, k.excess)
  {
    hide UpMax, UpdateMinRtt, TakeSamples, UpdateRecovery, LeastRtt, RoundStart;
  }

  /**
   * The window that an acknowledgement leaves. Before full bandwidth it grows by the acknowledged bytes until it
   * reaches the target, and in any case while less than the initial window was acknowledged; afterwards it grows
   * up to the target and falls to it. PROBE_RTT keeps it.
   */
  lemma WindowAfterAck(opt: Options, ss: seq<State>, es: seq<Event>, i: nat) returns (base: nat, excess: nat)
    requires Run(opt, ss, es) && i < |es| && es[i].EndedAck?
    ensures ss[i].ack.totalBefore <= ss[i].totalAcked
    ensures IsTarget(ss[i + 1], ss[i + 1].gear.cwndGain, base)
    ensures IsExcess(ss[i], ss[i + 1], ss[i].totalAcked - ss[i].ack.totalBefore, excess)
    ensures var s, t := ss[i], ss[i + 1];
            var acked := s.totalAcked - s.ack.totalBefore;
            var target := base + if t.gear.fullBw then t.maxAckHeight.best.value else if s.opt.enableAckAgg then excess else 0;
            && (t.gear.mode == ProbeRtt ==> t.cwnd == s.cwnd)
            && (t.gear.mode != ProbeRtt && !t.gear.fullBw ==>
                  t.cwnd == if s.cwnd < target || s.totalAcked < 32 * 1460 then Min(s.cwnd + acked, 2000 * 1460) else s.cwnd)
            && (t.gear.mode != ProbeRtt && t.gear.fullBw ==>
                  t.cwnd == Min(Min(target, s.cwnd + acked), 2000 * 1460))
  {
    var k, u := PartsOf(opt, ss, es, i);
    hide Inv, Run, Learn, Steer, TargetCwnd, IsTarget, IsExcess, PacingRate, RecoveryWindow;
    var s, t := ss[i], ss[i + 1];
    excess := k.excess;
    base := TargetCwnd(t.path, t.rttMin, t.gear.cwndGain);
    TargetOfCwnd(t, t.gear.cwndGain);
    ExcessLearned(s.(inAck := false), AckedNow(s));
    SameExcess(s, k.s, t, AckedNow(s), excess);
    InvWindow(s);
  }

  lemma SameExcess(s: State, k: State, t: State, acked: nat, excess: nat)
    requires IsExcess(s.(inAck := false), k, acked, excess)
    requires t.path == k.path && t.aggStart == k.aggStart && t.aggBytes == k.aggBytes
    ensures IsExcess(s, t, acked, excess)
  {
  }

  lemma InvWindow(s: State)
    requires Inv(s)
    ensures MIN_CWND <= s.cwnd <= MAX_CWND
  {
    hide GearOk, SamplesOk, RepairOk, AckOk;
  }

  // ---------- the height of ack bursts ----------

  /** The heights are choices of a windowed maximum over ten rounds, too. */
  ghost predicate HeightsHold(s: State) { exists h :: Holds(s.maxAckHeight, h, s.path.roundCount) }

  /** The heights are forgotten when a round begins with a higher bandwidth before full bandwidth. */
  predicate Forgets(s: State, t: State)
  {
    && s.opt.expireAckAgg && !s.gear.fullBw && t.path.roundCount != s.path.roundCount && !t.path.lastAppLimited
    && 5 * s.gear.bwAtLastRound < 4 * (t.path.maxBandwidth.best.value + 1)
  }

  lemma GrewMeans(bandwidth: nat, before: nat)
    ensures bandwidth >= Times(before, STARTUP_GROWTH_TARGET) <==> 5 * before < 4 * (bandwidth + 1)
  {
    var w := Times(before, STARTUP_GROWTH_TARGET);
    assert w as real <= before as real * 1.25 < w as real + 1.0;
  }

  lemma HeightLearned(s: State, acked: nat)
    ensures var k := Learn(s, acked);
            && s.path.roundCount <= k.s.path.roundCount
            && (k.roundStart <==> k.s.path.roundCount != s.path.roundCount)
            && k.s.maxAckHeight == (if k.excess == 0 then s.maxAckHeight
                                    else UpMax(s.maxAckHeight, k.s.path.roundCount, k.excess))
            && (k.excess == 0 || s.ack.ackedBytes > 0)
  {
    hide UpMax, TakeSamples, UpdateRecovery, LeastRtt, RoundStart;
    var p := if RoundStart(s.repair, s.ack) then s.path.(roundCount := s.path.roundCount + 1) else s.path;
    hide After, NewMeas;
    TakenAre(p, s.ack.samples, |s.ack.samples|);
  }

  lemma HeightSteered(k: Learned, inFlight: nat, rand: byte)
    requires GainsPositive(k.s) && GearOk(k.s.opt, k.s.gear)
    ensures var m, p := k.s.maxAckHeight, k.s.path;
            Steer(k, inFlight, rand).maxAckHeight ==
              if k.roundStart && !k.s.gear.fullBw && !p.lastAppLimited && k.s.opt.expireAckAgg
                 && 5 * k.s.gear.bwAtLastRound < 4 * (p.maxBandwidth.best.value + 1)
              then Reset(m, Meas(p.roundCount, 0)) else m
  {
    hide CycledGear, CheckFullBw, ExitStartupOrDrain, ProbeRttStep, Drained, EnterProbeRtt, MayLeaveProbeRtt, Times, GearOk;
    CycleKeeps(k.s, inFlight);
    GrewMeans(k.s.path.maxBandwidth.best.value, k.s.gear.bwAtLastRound);
  }

  lemma ZeroHolds(m: Filter, now: nat)
    requires m.window == 10
    ensures Holds(Reset(m, Meas(now, 0)), [Meas(now, 0)], now)
  {
    assert Tracks(Reset(m, Meas(now, 0)), [Meas(now, 0)], 0, 0, 0);
  }

  /** The height that an acknowledgement leaves covers its excess, unless all heights are forgotten. */
  lemma HeightStep(s: State, e: Event) returns (excess: nat)
    requires Inv(s) && e.EndedAck? && HeightsHold(s)
    ensures Ready(s)
    ensures var t := Step(s, e);
            && HeightsHold(t) && IsExcess(s, t, s.totalAcked - s.ack.totalBefore, excess)
            && if Forgets(s, t) then t.maxAckHeight.best == Meas(t.path.roundCount, 0)
               else if excess == 0 then t.maxAckHeight == s.maxAckHeight
               else
                 && t.maxAckHeight.best.value >= excess
                 && (t.maxAckHeight.best == s.maxAckHeight.best
                     || t.maxAckHeight.best == Meas(t.path.roundCount, excess)
                     || t.path.roundCount > s.maxAckHeight.best.time + 10)
                 && (t.maxAckHeight.best.value < s.maxAckHeight.best.value ==>
                       t.path.roundCount > s.maxAckHeight.best.time + 10)
  {
    var k, u := PartsOfStep(s, e);
    var t := Step(s, e);
    hide Step, Learn, Steer, Resize, IsExcess, UpMax, Holds;
    var a, acked := s.(inAck := false), AckedNow(s);
    ExcessLearned(a, acked);
    SameExcess(s, k.s, t, acked, k.excess);
    excess := k.excess;
    HeightLearned(a, acked);
    InvGear(s);
    LearnedOpt(a, acked);
    HeightSteered(k, e.inFlight, e.rand);
    var h :| Holds(s.maxAckHeight, h, s.path.roundCount);
    HoldsLater(s.maxAckHeight, h, s.path.roundCount, t.path.roundCount);
    HoldsAscending(s.maxAckHeight, h, t.path.roundCount);
    if excess > 0 {
      HoldsUp(s.maxAckHeight, h, t.path.roundCount, Meas(t.path.roundCount, excess));
      SameWindow(s.maxAckHeight, t.path.roundCount, excess);
    }
    ZeroHolds(k.s.maxAckHeight, t.path.roundCount);
  }

  lemma InvGear(s: State)
    requires Inv(s)
    ensures GearOk(s.opt, s.gear)
  {
    hide GearOk, WindowsOk, SamplesOk, RepairOk, AckOk;
  }

  lemma LearnedOpt(s: State, acked: nat)
    ensures Learn(s, acked).s.opt == s.opt && Learn(s, acked).s.gear == s.gear
  {
  }

  lemma QuietHeights(s: State, e: Event)
    requires Ready(s) && !e.EndedAck? && HeightsHold(s)
    ensures HeightsHold(Step(s, e))
  {
    hide Cwnd, PipeFull, EndAck, Holds;
    if e.Reinit? {
      EmptyHolds();
      assert Holds(Step(s, e).maxAckHeight, [], 0);
    } else {
      var h :| Holds(s.maxAckHeight, h, s.path.roundCount);
      assert Holds(Step(s, e).maxAckHeight, h, Step(s, e).path.roundCount);
    }
  }

  lemma EmptyHolds()
    ensures Holds(Empty(10), [], 0)
  {
  }

  lemma {:induction false} HeightsAlways(opt: Options, ss: seq<State>, es: seq<Event>, n: nat)
    requires Run(opt, ss, es) && n < |ss|
    ensures HeightsHold(ss[n])
  {
    hide Inv, Step, Legal, HeightsHold, IsExcess;
    if n == 0 {
      FreshHeights(opt);
    } else {
      HeightsAlways(opt, ss, es, n - 1);
      Reachable(opt, ss, es, n - 1);
      assert Steps(ss[n - 1], es[n - 1], ss[n]);
      if es[n - 1].EndedAck? {
        var excess := HeightStep(ss[n - 1], es[n - 1]);
      } else {
        QuietHeights(ss[n - 1], es[n - 1]);
      }
    }
  }

  lemma FreshHeights(opt: Options)
    ensures HeightsHold(Fresh(opt))
  {
    EmptyHolds();
    hide Holds;
    assert Holds(Fresh(opt).maxAckHeight, [], Fresh(opt).path.roundCount);
  }

  /** What the target gains for bursts: the largest excess of ten rounds, as measured by these acknowledgements. */
  lemma HeightAfterAck(opt: Options, ss: seq<State>, es: seq<Event>, i: nat) returns (excess: nat)
    requires Run(opt, ss, es) && i < |es| && es[i].EndedAck?
    ensures ss[i].ack.totalBefore <= ss[i].totalAcked
    ensures IsExcess(ss[i], ss[i + 1], ss[i].totalAcked - ss[i].ack.totalBefore, excess)
    ensures var s, t := ss[i].maxAckHeight, ss[i + 1].maxAckHeight;
            var now := ss[i + 1].path.roundCount;
            if Forgets(ss[i], ss[i + 1]) then t.best.value == 0
            else if excess == 0 then t == s
            else
              && t.best.value >= excess
              && (t.best == s.best || t.best == Meas(now, excess) || now > s.best.time + 10)
              && (t.best.value < s.best.value ==> now > s.best.time + 10)
  {
    hide Inv, Step, Legal, HeightsHold, IsExcess, Fresh;
    Reachable(opt, ss, es, i);
    HeightsAlways(opt, ss, es, i);
    assert Steps(ss[i], es[i], ss[i + 1]);
    excess := HeightStep(ss[i], es[i]);
  }

  // ---------- the pacing rate ----------

  /**
   * The pacing rate that an acknowledgement leaves: gain times bandwidth once full bandwidth was reached. Before,
   * the first rate sends the initial window in one round trip, and it then only rises, unless losses slow it down.
   */
  lemma PacingAfterAck(opt: Options, ss: seq<State>, es: seq<Event>, i: nat)
    requires Run(opt, ss, es) && i < |es| && es[i].EndedAck?
    ensures var s, t := ss[i], ss[i + 1];
            var bandwidth := t.path.maxBandwidth.best.value;
            if bandwidth == 0 then t.pacingRate == s.pacingRate
            else if t.gear.fullBw then IsProduct(bandwidth, t.gear.pacingGain, t.pacingRate)
            else if s.pacingRate == 0 && t.rttMin > 0 then
              t.pacingRate * t.rttMin <= 32 * 1460 * 8_000_000 < (t.pacingRate + 1) * t.rttMin
            else if t.repair.endRecoveryAt > 0 && s.opt.slowerStartup && t.path.hasNonAppLimited then
              IsProduct(bandwidth, 1.5, t.pacingRate)
            else
              exists rate :: IsProduct(bandwidth, t.gear.pacingGain, rate) && t.pacingRate == Max(rate, s.pacingRate)
  {
    var k, u := PartsOf(opt, ss, es, i);
    hide Inv, Run, Learn, Steer, Times, Window, RecoveryWindow;
    var s, t := ss[i], ss[i + 1];
    var bandwidth := t.path.maxBandwidth.best.value;
    assert t.pacingRate == PacingRate(u) && t.repair.endRecoveryAt == u.repair.endRecoveryAt;
    ProductOfTimes(bandwidth, t.gear.pacingGain);
    ProductOfTimes(bandwidth, 1.5);
    if t.rttMin > 0 {
      Quotient(32 * 1460 * 8_000_000, t.rttMin);
    }
  }

  lemma Quotient(a: nat, b: nat)
    requires b > 0
    ensures (a / b) * b <= a < (a / b + 1) * b
  {
  }

  /** Before full bandwidth the pacing rate never falls, if a loss may not slow it down. */
  lemma PacingNeverFalls(opt: Options, ss: seq<State>, es: seq<Event>, i: nat)
    requires Run(opt, ss, es) && i < |es| && !es[i].Reinit? && !ss[i].opt.slowerStartup && !ss[i + 1].gear.fullBw
    ensures ss[i + 1].pacingRate >= ss[i].pacingRate
  {
    if es[i].EndedAck? {
      hide Run, IsProduct;
      PacingAfterAck(opt, ss, es, i);
    } else {
      assert Steps(ss[i], es[i], ss[i + 1]);
      hide Fresh, EndAck, Cwnd, PipeFull;
    }
  }

  // ---------- recovery ----------

  /**
   * The recovery window that an acknowledgement leaves: what is in flight and acknowledged when recovery starts;
   * then less the lost bytes, and in growth plus the acknowledged ones, but never below what is in flight and
   * acknowledged, nor below four segments.
   */
  lemma RecoveryWindowAfterAck(opt: Options, ss: seq<State>, es: seq<Event>, i: nat)
    requires Run(opt, ss, es) && i < |es| && es[i].EndedAck?
    ensures ss[i].ack.totalBefore <= ss[i].totalAcked
    ensures var s, t := ss[i], ss[i + 1];
            var acked := s.totalAcked - s.ack.totalBefore;
            var atLeast := Max(4 * 1460, es[i].inFlight + acked);
            var w := if InRecovery(s.repair) then s.repair.window else 0;
            if !InRecovery(t.repair) then t.repair.window == s.repair.window
            else if s.opt.rateBasedStartup && t.gear.mode == Startup then t.repair.window == w
            else if w == 0 then t.repair.window == atLeast
            else
              t.repair.window == Max(atLeast,
                (if s.ack.lostBytes <= w then w - s.ack.lostBytes else 1460)
                + if t.repair.recovery == Growth then acked else 0)
  {
    var k, u := PartsOf(opt, ss, es, i);
    hide Inv, Run, Learn, Steer, Window, PacingRate;
    WindowLearned(ss[i].(inAck := false), AckedNow(ss[i]));
  }

  lemma WindowLearned(s: State, acked: nat)
    ensures var r := Learn(s, acked).s.repair;
            r.window == if !InRecovery(s.repair) && InRecovery(r) then 0 else s.repair.window
  {
    hide UpMax, UpdateMinRtt, TakeSamples, UpdateAggregation, LeastRtt;
  }

  /** The window the sender may use, in any reachable state. */
  lemma ReportedAlways(opt: Options, ss: seq<State>, es: seq<Event>, i: nat)
    requires Run(opt, ss, es) && i < |ss|
    ensures var s, w := ss[i], Cwnd(ss[i]);
            if s.gear.mode == ProbeRtt then (if s.opt.probeRttBasedOnBdp then IsTarget(s, 0.75, w) else w == 4 * 1460)
            else if s.repair.recovery == NotInRecovery || (s.opt.rateBasedStartup && s.gear.mode == Startup) then w == s.cwnd
            else w == Min(s.cwnd, s.repair.window)
  {
    hide Run, TargetCwnd, IsTarget;
    TargetOfCwnd(ss[i], 0.75);
  }
}
