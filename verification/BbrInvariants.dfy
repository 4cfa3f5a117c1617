/** What holds of the congestion controller in every reachable state. */
module BbrInvariants {
  import opened Bytes
  import opened MinMax
  import opened BbrState

  // ---------- events ----------

  datatype Event =
    | RttKnown(rtt: nat)
    | SentPacket(packno: u64, inFlight: nat, appLimited: bool)
    | BeganAck(time: nat, inFlight: nat)
    | AckedPacket(packno: u64, size: nat, counted: nat, samples: seq<BwSample>)
    | LostPacket(size: nat)
    | EndedAck(inFlight: nat, rand: byte)
    | Reinit

  /** What the assertions of the source and its use of packet numbers demand of the caller. */
  predicate Legal(s: State, e: Event)
  {
    match e
    case SentPacket(packno, _, _) => ValidPackno(packno) && s.repair.lastSent <= packno
    case BeganAck(_, _) => !s.inAck
    case AckedPacket(packno, _, _, samples) => s.inAck && ValidPackno(packno) && |samples| <= 1
    case EndedAck(_, _) => s.inAck
    case _ => true
  }

  predicate Ready(s: State) { s.ack.totalBefore <= s.totalAcked && GainsPositive(s) }

  function Step(s: State, e: Event): State
    requires Ready(s)
  {
    match e
    case RttKnown(rtt) => s.(rttMin := rtt)
    case SentPacket(packno, inFlight, appLimited) => Sent(s, packno, inFlight, appLimited)
    case BeganAck(time, inFlight) => BeginAck(s, time, inFlight)
    case AckedPacket(packno, size, counted, samples) => Acked(s, packno, size, counted, samples)
    case LostPacket(size) => Lost(s, size)
    case EndedAck(inFlight, rand) => EndAck(s, inFlight, rand)
    case Reinit => Init(s)
  }

  // ---------- the invariant ----------

  /** The pacing gain of the cycle phase, or the low gain held until the queue is drained. */
  predicate CycleGain(opt: Options, g: Gear)
  {
    && g.cycleOffset < GAIN_CYCLE
    && (g.pacingGain == PacingGain(g.cycleOffset) || (opt.drainToTarget && g.pacingGain == 0.75 && g.cycleOffset >= 2))
  }

  /** Each mode fixes its gains, and full bandwidth separates STARTUP from what follows it. */
  predicate GearOk(opt: Options, g: Gear)
  {
    match g.mode
    case Startup => !g.fullBw && g.pacingGain == HIGH_GAIN && g.cwndGain == HIGH_GAIN
    case Drain => g.fullBw && g.pacingGain == DRAIN_GAIN && g.cwndGain == HIGH_GAIN
    case ProbeBw => g.fullBw && g.cwndGain == CWND_GAIN && CycleGain(opt, g)
    case ProbeRtt => g.pacingGain == 1.0 && (g.cwndGain == HIGH_GAIN || g.cwndGain == CWND_GAIN)
  }

  /** As GearOk, but between the full-bandwidth check and the decision about the mode. */
  predicate GearOkInside(opt: Options, g: Gear)
  {
    match g.mode
    case Startup => g.pacingGain == HIGH_GAIN && g.cwndGain == HIGH_GAIN
    case _ => GearOk(opt, g)
  }

  /** Nothing was measured yet unless the last sample or an earlier one says otherwise. */
  predicate SamplesOk(p: Path, g: Gear)
  {
    && (!p.lastAppLimited && !p.hasNonAppLimited ==> p.maxBandwidth.best.value == 0 && g.bwAtLastRound == 0)
    && (g.fullBw ==> p.hasNonAppLimited)
  }

  predicate WindowsOk(s: State)
  {
    && MIN_CWND <= s.cwnd <= MAX_CWND
    && (InRecovery(s.repair) && !(s.opt.rateBasedStartup && s.gear.mode == Startup) ==> s.repair.window >= MIN_CWND)
    && (InRecovery(s.repair) && s.opt.rateBasedStartup ==> s.repair.window == 0 || s.repair.window >= MIN_CWND)
  }

  /** Conservation ends no earlier than the round that began with it. */
  predicate RepairOk(r: Repair)
  {
    && ValidPackno(r.lastSent) && ValidPackno(r.roundEnd) && r.roundEnd <= r.lastSent && r.endRecoveryAt <= r.lastSent
    && (r.recovery == Conservation ==> r.roundEnd <= r.endRecoveryAt)
  }

  predicate AckOk(s: State)
  {
    && s.ack.totalBefore <= s.totalAcked
    && (s.ack.ackedBytes > 0 ==> ValidPackno(s.ack.maxPackno) || s.ack.maxPackno == UINT64_MAX)
  }

  predicate Inv(s: State)
  {
    && GearOk(s.opt, s.gear) && SamplesOk(s.path, s.gear) && WindowsOk(s) && RepairOk(s.repair) && AckOk(s)
    && !s.exitStartupOnLoss && !s.flexibleAppLimited
  }

  lemma GearPositive(opt: Options, g: Gear)
    requires GearOk(opt, g)
    ensures Positive(g)
  {
  }

  // ---------- mode and gains ----------

  lemma CycleKeeps(s: State, inFlight: nat)
    requires GearOk(s.opt, s.gear)
    ensures var g := CycledGear(s, inFlight);
            && GearOk(s.opt, g) && g.mode == s.gear.mode && g.fullBw == s.gear.fullBw
            && g.bwAtLastRound == s.gear.bwAtLastRound
  {
    hide TargetCwnd, AdvanceCycle;
  }

  /** The assertion in check_if_full_bw_reached: full bandwidth was seen without application limits. */
  lemma FullBwWasMeasured(s: State)
    requires SamplesOk(s.path, s.gear) && !s.gear.fullBw && CheckFullBw(s).fullBw
    ensures s.path.hasNonAppLimited
  {
  }

  lemma CheckKeeps(s: State)
    requires SamplesOk(s.path, s.gear) && GearOk(s.opt, s.gear) && !s.gear.fullBw
    ensures SamplesOk(s.path, CheckFullBw(s)) && GearOkInside(s.opt, CheckFullBw(s))
    ensures CheckFullBw(s).mode == s.gear.mode
  {
    if CheckFullBw(s).fullBw {
      FullBwWasMeasured(s);
    }
    hide Times;
  }

  lemma ExitKeeps(s: State, inFlight: nat, rand: byte)
    requires GearOkInside(s.opt, s.gear)
    ensures var g := ExitStartupOrDrain(s, inFlight, rand);
            && GearOk(s.opt, g) && g.fullBw == s.gear.fullBw && g.bwAtLastRound == s.gear.bwAtLastRound
  {
    hide TargetCwnd;
  }

  lemma ProbeRttKeeps(opt: Options, g: Gear, now: nat, roundStart: bool, expired: bool, drained: bool, rand: byte)
    requires GearOk(opt, g)
    ensures var h := ProbeRttStep(g, now, roundStart, expired, drained, rand);
            && GearOk(opt, h) && h.fullBw == g.fullBw && h.bwAtLastRound == g.bwAtLastRound
  {
  }

  lemma {:induction false} SamplesOkTaken(p: Path, xs: seq<BwSample>, n: nat, g: Gear)
    requires n <= |xs| && SamplesOk(p, g)
    ensures SamplesOk(TakeSamples(p, xs, n), g)
  {
    if n > 0 {
      SamplesOkTaken(p, xs, n - 1, g);
    }
  }

  lemma LearnKeeps(s: State, acked: nat)
    requires SamplesOk(s.path, s.gear)
    ensures var t := Learn(s, acked).s;
            && SamplesOk(t.path, t.gear) && t.gear == s.gear && t.opt == s.opt && t.ack == s.ack && t.cwnd == s.cwnd
            && t.exitStartupOnLoss == s.exitStartupOnLoss && t.flexibleAppLimited == s.flexibleAppLimited
            && t.totalAcked == s.totalAcked && t.rttMin == s.rttMin && t.inAck == s.inAck
  {
    hide UpMax, LeastRtt;
    var p := if RoundStart(s.repair, s.ack) then s.path.(roundCount := s.path.roundCount + 1) else s.path;
    SamplesOkTaken(p, s.ack.samples, |s.ack.samples|, s.gear);
  }

  lemma LearnKeepsRepair(s: State, acked: nat)
    requires RepairOk(s.repair) && AckOk(s)
    ensures RepairOk(Learn(s, acked).s.repair)
  {
    hide UpMax, LeastRtt, TakeSamples, UpdateMinRtt, UpdateAggregation;
  }

  lemma SteerKeeps(k: Learned, inFlight: nat, rand: byte)
    requires GearOk(k.s.opt, k.s.gear) && SamplesOk(k.s.path, k.s.gear)
    ensures GainsPositive(k.s)
    ensures var t := Steer(k, inFlight, rand);
            && GearOk(t.opt, t.gear) && SamplesOk(t.path, t.gear)
            && t == k.s.(gear := t.gear, maxAckHeight := t.maxAckHeight, minRttStamp := t.minRttStamp)
  {
    hide ExitStartupOrDrain, ProbeRttStep, CycledGear, CheckFullBw, HeightAfterCheck, Drained, GearOk;
    hide SamplesOk, EnterProbeRtt, MayLeaveProbeRtt;
    GearPositive(k.s.opt, k.s.gear);
    CycleKeeps(k.s, inFlight);
    var g := CycledGear(k.s, inFlight);
    SamplesOfGear(k.s.path, k.s.gear, g);
    var b := Checked(k, g);
    CheckedKeeps(k, g);
    ExitKeeps(b, inFlight, rand);
    var h := ExitStartupOrDrain(b, inFlight, rand);
    SamplesOfGear(b.path, b.gear, h);
    ProbeRttKeeps(b.opt, h, b.ack.time, k.roundStart, k.expired, Drained(b, inFlight), rand);
    SamplesOfGear(b.path, h, ProbeRttStep(h, b.ack.time, k.roundStart, k.expired, Drained(b, inFlight), rand));
  }

  lemma SamplesOfGear(p: Path, g: Gear, h: Gear)
    requires SamplesOk(p, g) && h.fullBw == g.fullBw && h.bwAtLastRound == g.bwAtLastRound
    ensures SamplesOk(p, h)
  {
  }

  lemma CheckedKeeps(k: Learned, g: Gear)
    requires GearOk(k.s.opt, g) && SamplesOk(k.s.path, g)
    ensures var b := Checked(k, g);
            && GearOkInside(b.opt, b.gear) && SamplesOk(b.path, b.gear)
            && b == k.s.(gear := b.gear, maxAckHeight := b.maxAckHeight)
  {
    hide CheckFullBw, HeightAfterCheck, SamplesOk;
    if k.roundStart && !g.fullBw {
      CheckKeeps(k.s.(gear := g));
    }
  }

  // ---------- windows ----------

  lemma WindowBounds(s: State, acked: nat, excess: nat)
    requires MIN_CWND <= s.cwnd <= MAX_CWND && s.gear.cwndGain >= 0.0
    ensures MIN_CWND <= Window(s, acked, excess) <= MAX_CWND
    ensures Window(s, acked, excess) <= s.cwnd + acked
    ensures !s.gear.fullBw ==> Window(s, acked, excess) >= s.cwnd
  {
    hide TargetWindow;
  }

  lemma ResizeKeeps(s: State, acked: nat, excess: nat, inFlight: nat)
    requires MIN_CWND <= s.cwnd <= MAX_CWND && Positive(s.gear)
    requires InRecovery(s.repair) ==> s.repair.window == 0 || s.repair.window >= MIN_CWND
    ensures WindowsOk(Resize(s, acked, excess, inFlight))
  {
    WindowBounds(s, acked, excess);
    hide Window, PacingRate;
  }

  lemma LearnKeepsWindow(s: State, acked: nat)
    requires WindowsOk(s)
    ensures var r := Learn(s, acked).s.repair; InRecovery(r) ==> r.window == 0 || r.window >= MIN_CWND
  {
    hide UpMax, LeastRtt, TakeSamples, UpdateMinRtt, UpdateAggregation;
  }

  /** End of an acknowledgement. */
  lemma EndAckKeeps(s: State, inFlight: nat, rand: byte)
    requires Inv(s)
    ensures Ready(s) && Inv(EndAck(s, inFlight, rand))
  {
    hide GearOk, SamplesOk, RepairOk, Learn, Steer, Resize;
    GearPositive(s.opt, s.gear);
    var a, acked := s.(inAck := false), AckedNow(s);
    LearnKeeps(a, acked);
    LearnKeepsRepair(a, acked);
    LearnKeepsWindow(a, acked);
    var k := Learn(a, acked);
    SteerKeeps(k, inFlight, rand);
    var t := Steer(k, inFlight, rand);
    GearPositive(t.opt, t.gear);
    ResizeKeeps(t, acked, k.excess, inFlight);
    ResizeRest(t, acked, k.excess, inFlight);
  }

  lemma ResizeRest(s: State, acked: nat, excess: nat, inFlight: nat)
    requires Positive(s.gear)
    ensures var t := Resize(s, acked, excess, inFlight);
            && t == s.(pacingRate := t.pacingRate, cwnd := t.cwnd, repair := s.repair.(window := t.repair.window))
            && (RepairOk(s.repair) ==> RepairOk(t.repair))
  {
    hide PacingRate, Window, RecoveryWindow;
  }

  lemma FreshOk(opt: Options)
    ensures Inv(Fresh(opt))
  {
  }

  lemma InitKeeps(s: State)
    requires Inv(s)
    ensures Inv(Init(s))
  {
  }

  lemma StepKeeps(s: State, e: Event)
    requires Inv(s) && Legal(s, e)
    ensures Ready(s) && Inv(Step(s, e))
  {
    GearPositive(s.opt, s.gear);
    match e
    case EndedAck(inFlight, rand) => EndAckKeeps(s, inFlight, rand);
    case Reinit => InitKeeps(s);
    case SentPacket(packno, inFlight, appLimited) => SentKeeps(s, packno, inFlight, appLimited);
    case _ =>
  }

  lemma SentKeeps(s: State, packno: u64, inFlight: nat, appLimited: bool)
    requires Inv(s) && ValidPackno(packno) && s.repair.lastSent <= packno
    ensures Positive(s.gear) && Inv(Sent(s, packno, inFlight, appLimited))
  {
    hide Cwnd, PipeFull;
  }

  /** The window reported between events never falls below four segments, in any mode and recovery state. */
  lemma ReportedWindow(s: State)
    requires Inv(s)
    ensures Cwnd(s) >= MIN_CWND
  {
    hide TargetCwnd;
  }
}
