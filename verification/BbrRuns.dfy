/** What holds of the congestion controller over whole runs. */
module BbrRuns {
  import opened Bytes
  import opened BbrState
  import opened BbrInvariants

  /** The states of a run: one more than the events. */
  ghost predicate Run(opt: Options, ss: seq<State>, es: seq<Event>)
  {
    && |ss| == |es| + 1 && ss[0] == Fresh(opt)
    && forall i :: 0 <= i < |es| ==> Steps(ss[i], es[i], ss[i + 1])
  }

  ghost predicate Steps(s: State, e: Event, t: State)
  {
    Ready(s) && Legal(s, e) && t == Step(s, e)
  }

  lemma {:induction false} Reachable(opt: Options, ss: seq<State>, es: seq<Event>, i: nat)
    requires Run(opt, ss, es) && i < |ss|
    ensures Inv(ss[i])
  {
    hide Inv, Step, Legal, Fresh;
    if i == 0 {
      FreshOk(opt);
    } else {
      Reachable(opt, ss, es, i - 1);
      assert Steps(ss[i - 1], es[i - 1], ss[i]);
      StepKeeps(ss[i - 1], es[i - 1]);
    }
  }

  /** A run starts, and a reinit starts over, in STARTUP with 32 segments and nothing known; only recovery goes on. */
  lemma StartsOver(opt: Options, ss: seq<State>, es: seq<Event>, i: nat)
    requires Run(opt, ss, es) && i < |ss| && (i == 0 || es[i - 1].Reinit?)
    ensures var s := ss[i];
            && s.gear.mode == Startup && !s.gear.fullBw && s.cwnd == 32 * 1460 && s.pacingRate == 0
            && s.path.maxBandwidth.best.value == 0 && s.path.minRtt == 0 && s.path.roundCount == 0
            && s.maxAckHeight.best.value == 0 && s.aggBytes == 0 && !s.path.lastAppLimited && !s.path.hasNonAppLimited
            && s.repair == if i == 0 then Repair(NotInRecovery, 0, 0, 0, 0) else ss[i - 1].repair
  {
    if i > 0 {
      assert Steps(ss[i - 1], es[i - 1], ss[i]);
      hide EndAck, Fresh;
    }
  }

  // ---------- modes and gains ----------

  /** Modes and gains in every reachable state. */
  lemma ModesAlways(opt: Options, ss: seq<State>, es: seq<Event>, i: nat)
    requires Run(opt, ss, es) && i < |ss|
    ensures var g := ss[i].gear;
            && (g.mode == Drain || g.mode == ProbeBw ==> g.fullBw)
            && (g.mode == Startup ==> !g.fullBw)
            && (g.mode == Startup ==> g.pacingGain == HIGH_GAIN && g.cwndGain == HIGH_GAIN)
            && (g.mode == Drain ==> g.pacingGain == DRAIN_GAIN && g.cwndGain == HIGH_GAIN)
            && (g.mode == ProbeRtt ==> g.pacingGain == 1.0)
            && (g.mode == ProbeBw ==> g.cwndGain == CWND_GAIN && CycleGain(ss[i].opt, g))
  {
    Reachable(opt, ss, es, i);
  }

  /** The assertion of check_if_full_bw_reached holds whenever it is reached. */
  lemma FullBandwidthAlwaysMeasured(opt: Options, ss: seq<State>, es: seq<Event>, i: nat)
    requires Run(opt, ss, es) && i < |ss| && ss[i].gear.fullBw
    ensures ss[i].path.hasNonAppLimited
  {
    Reachable(opt, ss, es, i);
  }

  /** The gears that one end_ack passes through. */
  ghost predicate Shifts(s: State, inFlight: nat, rand: byte, k: Learned, b: State, t: State)
    requires Ready(s)
  {
    && k == Learn(s.(inAck := false), AckedNow(s))
    && k.s.gear == s.gear && k.s.opt == s.opt && k.s.ack == s.ack && k.s.rttMin == s.rttMin
    && GainsPositive(k.s)
    && b == Checked(k, CycledGear(k.s, inFlight))
    && b.opt == s.opt && b.ack == s.ack && b.path == k.s.path && b.rttMin == s.rttMin
    && t == EndAck(s, inFlight, rand)
    && t.opt == s.opt && t.path == k.s.path && t.rttMin == s.rttMin && t.ack == s.ack
    && t.gear == ProbeRttStep(ExitStartupOrDrain(b, inFlight, rand), s.ack.time, k.roundStart, k.expired, Drained(b, inFlight), rand)
    && (k.roundStart <==> (s.ack.ackedBytes > 0 && RoundStart(s.repair, s.ack)))
    && t.repair == k.s.repair.(window := t.repair.window)
  }

  lemma EndAckShifts(s: State, inFlight: nat, rand: byte) returns (k: Learned, b: State, t: State)
    requires Inv(s)
    ensures Ready(s) && Shifts(s, inFlight, rand, k, b, t)
  {
    hide ProbeRttStep, CycledGear, ExitStartupOrDrain, Drained, RoundStart, CheckFullBw, HeightAfterCheck;
    hide EnterProbeRtt, MayLeaveProbeRtt, PacingRate, Window, RecoveryWindow;
    GearPositive(s.opt, s.gear);
    var a := s.(inAck := false);
    LearnKeeps(a, AckedNow(s));
    k := Learn(a, AckedNow(s));
    LearnRound(a, AckedNow(s));
    hide Learn;
    SteerKeeps(k, inFlight, rand);
    b := Checked(k, CycledGear(k.s, inFlight));
    t := EndAck(s, inFlight, rand);
  }

  lemma LearnRound(s: State, acked: nat)
    ensures Learn(s, acked).roundStart <==> (s.ack.ackedBytes > 0 && RoundStart(s.repair, s.ack))
  {
  }

  predicate LowGain(g: Gear) { g.mode == ProbeBw && g.pacingGain == 0.75 }

  lemma LowGainStarts(s: State, inFlight: nat, rand: byte)
    requires Inv(s)
    ensures Ready(s)
    ensures LowGain(EndAck(s, inFlight, rand).gear) && !LowGain(s.gear) ==>
      s.gear.mode == ProbeBw && s.gear.cycleOffset == 0 && s.gear.pacingGain == 1.25
  {
    hide EndAck, Learn, TargetCwnd, Drained, BandwidthGrew, HeightAfterCheck, SamplesOk, WindowsOk, RepairOk;
    var k, b, t := EndAckShifts(s, inFlight, rand);
    var g := CycledGear(k.s, inFlight);
    assert b.gear.pacingGain == g.pacingGain && b.gear.mode == g.mode;
    var h := ExitStartupOrDrain(b, inFlight, rand);
    assert h.mode == ProbeBw && h.pacingGain == 0.75 ==> h.pacingGain == g.pacingGain && g.mode == ProbeBw;
  }

  /**
   * In a run the low-gain phase is entered only at the end of an acknowledgement, and only from the
   * high-gain phase.
   */
  lemma LowGainFollowsHighGain(opt: Options, ss: seq<State>, es: seq<Event>, i: nat)
    requires Run(opt, ss, es) && i < |es| && LowGain(ss[i + 1].gear) && !LowGain(ss[i].gear)
    ensures var g := ss[i].gear;
            es[i].EndedAck? && g.mode == ProbeBw && g.cycleOffset == 0 && g.pacingGain == 1.25
  {
    hide Inv, EndAck, Legal, Fresh, PipeFull;
    Reachable(opt, ss, es, i);
    assert Steps(ss[i], es[i], ss[i + 1]);
    if es[i].EndedAck? {
      LowGainStarts(ss[i], es[i].inFlight, es[i].rand);
    }
  }

  /** Every stretch of low gain in a run directly follows a high-gain phase. */
  lemma {:induction false} HighGainBefore(opt: Options, ss: seq<State>, es: seq<Event>, n: nat) returns (high: nat)
    requires Run(opt, ss, es) && n < |ss| && LowGain(ss[n].gear)
    ensures high < n && ss[high].gear.mode == ProbeBw && ss[high].gear.pacingGain == 1.25
    ensures forall j :: high < j <= n ==> LowGain(ss[j].gear)
  {
    hide Fresh, Steps;
    if n == 0 {
      FreshGear(opt);
    } else if LowGain(ss[n - 1].gear) {
      high := HighGainBefore(opt, ss, es, n - 1);
    } else {
      LowGainFollowsHighGain(opt, ss, es, n - 1);
      high := n - 1;
    }
  }

  lemma FreshGear(opt: Options)
    ensures Fresh(opt).gear.mode == Startup
  {
  }

  // ---------- windows ----------

  /** In every reachable state the windows are within their bounds, and so is what the sender is told. */
  lemma WindowsAlways(opt: Options, ss: seq<State>, es: seq<Event>, i: nat)
    requires Run(opt, ss, es) && i < |ss|
    ensures MIN_CWND <= ss[i].cwnd <= MAX_CWND && Cwnd(ss[i]) >= MIN_CWND
  {
    Reachable(opt, ss, es, i);
    ReportedWindow(ss[i]);
  }

  /**
   * One event raises the window by no more than the bytes it acknowledges, and no event but a reinit
   * lowers it before full bandwidth is reached.
   */
  lemma WindowSteps(opt: Options, ss: seq<State>, es: seq<Event>, i: nat)
    requires Run(opt, ss, es) && i < |es| && !es[i].Reinit?
    ensures ss[i].ack.totalBefore <= ss[i].totalAcked
    ensures ss[i + 1].cwnd <= ss[i].cwnd + if es[i].EndedAck? then AckedNow(ss[i]) else 0
    ensures !ss[i + 1].gear.fullBw ==> ss[i + 1].cwnd >= ss[i].cwnd
  {
    Reachable(opt, ss, es, i);
    var s, t, e := ss[i], ss[i + 1], es[i];
    assert Steps(s, e, t);
    if e.EndedAck? {
      EndAckWindow(s, e.inFlight, e.rand);
    } else {
      hide EndAck, Init, PipeFull, TargetCwnd;
    }
  }

  lemma EndAckWindow(s: State, inFlight: nat, rand: byte)
    requires Inv(s)
    ensures Ready(s)
    ensures var t := EndAck(s, inFlight, rand);
            && t.cwnd <= s.cwnd + AckedNow(s)
            && (!t.gear.fullBw ==> t.cwnd >= s.cwnd)
  {
    GearPositive(s.opt, s.gear);
    hide GearOk, SamplesOk, RepairOk, Learn, Steer, Window, PacingRate, RecoveryWindow;
    var a, acked := s.(inAck := false), AckedNow(s);
    LearnKeeps(a, acked);
    var k := Learn(a, acked);
    SteerKeeps(k, inFlight, rand);
    var u := Steer(k, inFlight, rand);
    GearPositive(u.opt, u.gear);
    WindowBounds(u, acked, k.excess);
  }
}
