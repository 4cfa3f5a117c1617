/** lsquic_bbr.c: the congestion controller's state and what one event does to it. */
module BbrState {
  import opened Bytes
  import opened MinMax

  const MSS: nat := 1460                          // kDefaultTCPMSS
  const MIN_CWND: nat := 4 * MSS
  const INIT_CWND: nat := 32 * MSS
  const MAX_CWND: nat := 2000 * MSS
  const MAX_OUTGOING: nat := 1452
  const HIGH_GAIN: real := 2.885
  const DRAIN_GAIN: real := 1.0 / 2.885
  const CWND_GAIN: real := 2.0
  const STARTUP_AFTER_LOSS_GAIN: real := 1.5
  const STARTUP_GROWTH_TARGET: real := 1.25
  const SIMILAR_MIN_RTT: real := 1.125
  const MODERATE_PROBE_RTT: real := 0.75
  const MIN_RTT_EXPIRY: nat := 10_000_000         // microseconds
  const PROBE_RTT_TIME: nat := 200_000
  const DEFAULT_RTT: nat := 25_000
  const STARTUP_RTTS: nat := 3
  const GAIN_CYCLE: nat := 8
  const UINT64_MAX: u64 := TWO_64 - 1
  const MAX_PACKNO: nat := 0x3FFF_FFFF_FFFF_FFFF

  datatype Mode = Startup | Drain | ProbeBw | ProbeRtt
  datatype Recovery = NotInRecovery | Conservation | Growth

  /** What the bandwidth sampler says about one acknowledged packet; bandwidth in bits per second. */
  datatype BwSample = BwSample(bandwidth: nat, rtt: u64, appLimited: bool)

  /** Information gathered between begin_ack and end_ack. */
  datatype AckState = AckState(
    samples: seq<BwSample>, time: nat, maxPackno: u64, ackedBytes: nat, lostBytes: nat,
    totalBefore: nat, inFlight: nat, hasLosses: bool)

  const NO_ACK: AckState := AckState([], 0, 0, 0, 0, 0, 0, false)

  /** Flags that no function of the controller changes. */
  datatype Options = Options(
    probeRttDisabledIfAppLimited: bool, probeRttSkippedIfSimilarRtt: bool, drainToTarget: bool,
    expireAckAgg: bool, probeRttBasedOnBdp: bool, slowerStartup: bool, enableAckAgg: bool, rateBasedStartup: bool)

  /** What is known about the path. */
  datatype Path = Path(
    roundCount: nat, maxBandwidth: Filter,
    lastAppLimited: bool, hasNonAppLimited: bool, appLimitedSinceProbe: bool,
    minRttSinceProbe: u64, minRtt: u64)

  /** The mode, its gains, and what the next change of mode depends on. */
  datatype Gear = Gear(
    mode: Mode, pacingGain: real, cwndGain: real,
    cycleOffset: nat, lastCycleStart: nat,
    exitProbeRttAt: nat, roundPassed: bool, exitingQuiescence: bool,
    fullBw: bool, roundsWithoutGain: nat, bwAtLastRound: nat)

  /** Loss recovery. */
  datatype Repair = Repair(recovery: Recovery, lastSent: u64, roundEnd: u64, endRecoveryAt: u64, window: nat)

  datatype State = State(
    opt: Options, path: Path, gear: Gear, repair: Repair,
    inAck: bool, exitStartupOnLoss: bool, flexibleAppLimited: bool,
    maxAckHeight: Filter, aggStart: nat, aggBytes: nat,
    cwnd: nat, pacingRate: nat, minRttStamp: nat,
    ack: AckState,
    totalAcked: nat,      // bws_total_acked of the sampler
    rttMin: nat           // min_rtt of the connection's rtt statistics; 0 while unknown
  )

  // ---------- small helpers ----------

  function Max(a: nat, b: nat): nat { if a > b then a else b }

  function Min(a: nat, b: nat): nat { if a < b then a else b }

  /** The C conversion of a non-negative float product to an integer. */
  function Times(v: nat, gain: real): nat
    requires gain >= 0.0
  {
    (v as real * gain).Floor
  }

  /** Unsigned 64-bit difference of two times. */
  function Elapsed(now: nat, since: nat): nat { (now - since) % TWO_64 }

  function ValidPackno(p: u64): bool { p <= MAX_PACKNO }

  /** kPacingGain */
  function PacingGain(offset: nat): (g: real)
    ensures g > 0.0
  {
    if offset == 0 then 1.25 else if offset == 1 then 0.75 else 1.0
  }

  predicate InRecovery(r: Repair) { r.recovery != NotInRecovery }

  // ---------- reading the model ----------

  function MinRtt(p: Path, rttMin: nat): (rtt: nat)
    ensures rtt > 0
  {
    if p.minRtt != 0 then p.minRtt else if rttMin == 0 then DEFAULT_RTT else rttMin
  }

  function Bdp(p: Path, rttMin: nat): nat { MinRtt(p, rttMin) * (p.maxBandwidth.best.value / 8) / 1_000_000 }

  function TargetCwnd(p: Path, rttMin: nat, gain: real): (cwnd: nat)
    requires gain >= 0.0
    ensures cwnd >= MIN_CWND
  {
    var cwnd := Times(Bdp(p, rttMin), gain);
    Max(if cwnd == 0 then Times(INIT_CWND, gain) else cwnd, MIN_CWND)
  }

  function ProbeRttCwnd(opt: Options, p: Path, rttMin: nat): (cwnd: nat)
    ensures cwnd >= MIN_CWND
  {
    if opt.probeRttBasedOnBdp then TargetCwnd(p, rttMin, MODERATE_PROBE_RTT) else MIN_CWND
  }

  /** lsquic_bbr_get_cwnd: the window the sender may use. */
  function Cwnd(s: State): nat
  {
    if s.gear.mode == ProbeRtt then ProbeRttCwnd(s.opt, s.path, s.rttMin)
    else if InRecovery(s.repair) && !(s.opt.rateBasedStartup && s.gear.mode == Startup) then Min(s.cwnd, s.repair.window)
    else s.cwnd
  }

  function PipeFull(s: State, inFlight: nat): bool
    requires s.gear.pacingGain >= 0.0
  {
    if s.gear.mode == Startup then inFlight >= TargetCwnd(s.path, s.rttMin, 1.5)
    else if s.gear.pacingGain > 1.0 then inFlight >= TargetCwnd(s.path, s.rttMin, s.gear.pacingGain)
    else inFlight >= TargetCwnd(s.path, s.rttMin, 1.1)
  }

  // ---------- starting over ----------

  function StartupGear(g: Gear): Gear { g.(mode := Startup, pacingGain := HIGH_GAIN, cwndGain := HIGH_GAIN) }

  /** init_bbr; what it does not mention keeps its value across a reinit. */
  function Init(s: State): State
  {
    s.(path := s.path.(roundCount := 0, maxBandwidth := Empty(10), minRtt := 0, lastAppLimited := false, hasNonAppLimited := false),
       gear := Gear(Startup, HIGH_GAIN, HIGH_GAIN, 0, 0, 0, false, false, false, 0, 0),
       exitStartupOnLoss := false, flexibleAppLimited := false,
       maxAckHeight := Empty(10), aggStart := 0, aggBytes := 0,
       cwnd := INIT_CWND, pacingRate := 0, minRttStamp := 0)
  }

  /** A controller in zeroed memory, initialized. */
  function Fresh(opt: Options): State
  {
    Init(State(opt, Path(0, Empty(0), false, false, false, 0, 0),
      Gear(Startup, 0.0, 0.0, 0, 0, 0, false, false, false, 0, 0), Repair(NotInRecovery, 0, 0, 0, 0),
      false, false, false, Empty(0), 0, 0, 0, 0, 0, NO_ACK, 0, 0))
  }

  // ---------- sending, losing, gathering acknowledgements ----------

  /** bbr_app_limited */
  function AppLimited(s: State, inFlight: nat): State
    requires s.gear.pacingGain >= 0.0
  {
    if inFlight >= Cwnd(s) || (s.flexibleAppLimited && PipeFull(s, inFlight)) then s
    else s.(path := s.path.(appLimitedSinceProbe := true))
  }

  function Sent(s: State, packno: u64, inFlight: nat, appLimited: bool): State
    requires s.gear.pacingGain >= 0.0
  {
    var a := s.(repair := s.repair.(lastSent := packno));
    if appLimited then AppLimited(a, inFlight) else a
  }

  function BeginAck(s: State, time: nat, inFlight: nat): State
  {
    s.(inAck := true, ack := AckState([], time, UINT64_MAX, 0, 0, s.totalAcked, inFlight, false))
  }

  /** One packet of the acknowledgement; `counted` bytes are what the sampler adds to its total. */
  function Acked(s: State, packno: u64, size: nat, counted: nat, samples: seq<BwSample>): State
  {
    s.(totalAcked := s.totalAcked + counted,
       ack := s.ack.(
         samples := s.ack.samples + samples,
         maxPackno := if !ValidPackno(s.ack.maxPackno) || packno > s.ack.maxPackno then packno else s.ack.maxPackno,
         ackedBytes := s.ack.ackedBytes + size))
  }

  function Lost(s: State, size: nat): State
  {
    s.(ack := s.ack.(hasLosses := true, lostBytes := s.ack.lostBytes + size))
  }

  // ---------- end_ack: what the acknowledged packets say ----------

  predicate RoundStart(r: Repair, ack: AckState) { ack.maxPackno > r.roundEnd || !ValidPackno(r.roundEnd) }

  function TakeSample(p: Path, x: BwSample): Path
  {
    p.(lastAppLimited := x.appLimited,
       hasNonAppLimited := p.hasNonAppLimited || !x.appLimited,
       maxBandwidth :=
         if !x.appLimited || x.bandwidth > p.maxBandwidth.best.value
         then UpMax(p.maxBandwidth, p.roundCount, x.bandwidth) else p.maxBandwidth)
  }

  function TakeSamples(p: Path, xs: seq<BwSample>, n: nat): Path
    requires n <= |xs|
  {
    if n == 0 then p else TakeSample(TakeSamples(p, xs, n - 1), xs[n - 1])
  }

  /** The least rtt of the first n samples, UINT64_MAX if there is none. */
  function LeastRtt(xs: seq<BwSample>, n: nat): u64
    requires n <= |xs|
  {
    if n == 0 then UINT64_MAX
    else
      var m := LeastRtt(xs, n - 1);
      if m == UINT64_MAX || xs[n - 1].rtt < m then xs[n - 1].rtt else m
  }

  predicate ExtendExpiry(opt: Options, p: Path)
  {
    || (p.appLimitedSinceProbe && opt.probeRttDisabledIfAppLimited)
    || (p.appLimitedSinceProbe && opt.probeRttSkippedIfSimilarRtt
        && !(p.minRttSinceProbe as real > p.minRtt as real * SIMILAR_MIN_RTT))
  }

  /** The part of update_bandwidth_and_min_rtt behind its loop. */
  datatype RttUpdate = RttUpdate(path: Path, stamp: nat, expired: bool)

  function UpdateMinRtt(opt: Options, p: Path, stamp: nat, now: nat, least: u64): RttUpdate
  {
    if least == UINT64_MAX then RttUpdate(p, stamp, false)
    else
      var q := p.(minRttSinceProbe := if p.minRttSinceProbe < least then p.minRttSinceProbe else least);
      var expired := q.minRtt != 0 && now > stamp + MIN_RTT_EXPIRY;
      if expired || least < q.minRtt || q.minRtt == 0 then
        var extended := expired && ExtendExpiry(opt, q);
        RttUpdate(
          q.(minRtt := if extended then q.minRtt else least, minRttSinceProbe := UINT64_MAX, appLimitedSinceProbe := false),
          now, expired && !extended)
      else RttUpdate(q, stamp, false)
  }

  function UpdateRecovery(r: Repair, ack: AckState, roundStart: bool): Repair
  {
    var a := if ack.hasLosses then r.(endRecoveryAt := r.lastSent) else r;
    if a.recovery == NotInRecovery then
      if ack.hasLosses then a.(recovery := Conservation, window := 0, roundEnd := a.lastSent) else a
    else if !ack.hasLosses && ack.maxPackno > a.endRecoveryAt then a.(recovery := NotInRecovery)
    else if a.recovery == Conservation && roundStart then a.(recovery := Growth)
    else a
  }

  /** update_ack_aggregation_bytes; `excess` are bytes acknowledged beyond the expected ones. */
  datatype Aggregation = Aggregation(start: nat, bytes: nat, height: Filter, excess: nat)

  function UpdateAggregation(s: State, p: Path, newly: nat): Aggregation
  {
    var expected := p.maxBandwidth.best.value * Elapsed(s.ack.time, s.aggStart);
    if s.aggBytes <= expected then Aggregation(s.ack.time, newly, s.maxAckHeight, 0)
    else
      var total := s.aggBytes + newly;
      Aggregation(s.aggStart, total, UpMax(s.maxAckHeight, p.roundCount, total - expected), total - expected)
  }

  /** What the acknowledged packets say: round, bandwidth, min rtt, recovery, aggregation. */
  datatype Learned = Learned(s: State, roundStart: bool, expired: bool, excess: nat)

  function Learn(s: State, acked: nat): Learned
  {
    if s.ack.ackedBytes == 0 then Learned(s, false, false, 0)
    else
      var round := RoundStart(s.repair, s.ack);
      var p := if round then s.path.(roundCount := s.path.roundCount + 1) else s.path;
      var r := if round then s.repair.(roundEnd := s.repair.lastSent) else s.repair;
      var n := |s.ack.samples|;
      var u := UpdateMinRtt(s.opt, TakeSamples(p, s.ack.samples, n), s.minRttStamp, s.ack.time, LeastRtt(s.ack.samples, n));
      var g := UpdateAggregation(s, u.path, acked);
      Learned(
        s.(path := u.path, minRttStamp := u.stamp, repair := UpdateRecovery(r, s.ack, round),
           aggStart := g.start, aggBytes := g.bytes, maxAckHeight := g.height),
        round, u.expired, g.excess)
  }

  // ---------- end_ack: the mode and its gains ----------

  predicate AdvanceCycle(s: State, inFlight: nat)
    requires s.gear.pacingGain >= 0.0
  {
    var gain := s.gear.pacingGain;
    if gain < 1.0 && inFlight <= TargetCwnd(s.path, s.rttMin, 1.0) then true
    else if gain > 1.0 && !s.ack.hasLosses && s.ack.inFlight < TargetCwnd(s.path, s.rttMin, gain) then false
    else Elapsed(s.ack.time, s.gear.lastCycleStart) > MinRtt(s.path, s.rttMin)
  }

  /** update_gain_cycle_phase */
  function GainCycle(s: State, inFlight: nat): Gear
    requires s.gear.pacingGain >= 0.0
  {
    if !AdvanceCycle(s, inFlight) then s.gear
    else
      var next := (s.gear.cycleOffset + 1) % GAIN_CYCLE;
      var g := s.gear.(cycleOffset := next, lastCycleStart := s.ack.time);
      if s.opt.drainToTarget && g.pacingGain < 1.0 && PacingGain(next) == 1.0
         && inFlight > TargetCwnd(s.path, s.rttMin, 1.0) then g
      else g.(pacingGain := PacingGain(next))
  }

  /** The bandwidth grew by a quarter since the round it is compared with. */
  predicate BandwidthGrew(s: State)
  {
    s.path.maxBandwidth.best.value >= Times(s.gear.bwAtLastRound, STARTUP_GROWTH_TARGET)
  }

  /** check_if_full_bw_reached */
  function CheckFullBw(s: State): Gear
  {
    if s.path.lastAppLimited then s.gear
    else if BandwidthGrew(s) then
      s.gear.(bwAtLastRound := s.path.maxBandwidth.best.value, roundsWithoutGain := 0)
    else
      var rounds := s.gear.roundsWithoutGain + 1;
      s.gear.(roundsWithoutGain := rounds,
              fullBw := s.gear.fullBw || rounds >= STARTUP_RTTS || (s.exitStartupOnLoss && InRecovery(s.repair)))
  }

  /** The ack heights are forgotten together with a lower bandwidth. */
  function HeightAfterCheck(s: State): Filter
  {
    if !s.path.lastAppLimited && BandwidthGrew(s) && s.opt.expireAckAgg
    then Reset(s.maxAckHeight, Meas(s.path.roundCount, 0)) else s.maxAckHeight
  }

  /** The offset that a random byte selects: 0 or 2..7. */
  function CycleStart(rand: byte): (offset: nat)
    ensures offset < GAIN_CYCLE && offset != 1
  {
    var r := rand % (GAIN_CYCLE - 1);
    if r >= 1 then r + 1 else r
  }

  function EnterProbeBw(g: Gear, now: nat, rand: byte): Gear
  {
    g.(mode := ProbeBw, cwndGain := CWND_GAIN, cycleOffset := CycleStart(rand), lastCycleStart := now,
       pacingGain := PacingGain(CycleStart(rand)))
  }

  /** maybe_exit_startup_or_drain */
  function ExitStartupOrDrain(s: State, inFlight: nat, rand: byte): Gear
  {
    var g := if s.gear.mode == Startup && s.gear.fullBw
             then s.gear.(mode := Drain, pacingGain := DRAIN_GAIN, cwndGain := HIGH_GAIN) else s.gear;
    if g.mode == Drain && inFlight <= TargetCwnd(s.path, s.rttMin, 1.0) then EnterProbeBw(g, s.ack.time, rand) else g
  }

  function EnterProbeRtt(g: Gear, expired: bool): Gear
  {
    if expired && !g.exitingQuiescence && g.mode != ProbeRtt
    then g.(mode := ProbeRtt, pacingGain := 1.0, exitProbeRttAt := 0) else g
  }

  /** The bytes in flight are few enough to schedule the end of PROBE_RTT. */
  predicate Drained(s: State, inFlight: nat) { inFlight < ProbeRttCwnd(s.opt, s.path, s.rttMin) + MAX_OUTGOING }

  predicate MayLeaveProbeRtt(g: Gear, now: nat, roundStart: bool)
  {
    g.mode == ProbeRtt && g.exitProbeRttAt != 0 && now >= g.exitProbeRttAt && (g.roundPassed || roundStart)
  }

  function StayOrLeaveProbeRtt(g: Gear, now: nat, roundStart: bool, drained: bool, rand: byte): Gear
  {
    if g.mode != ProbeRtt then g
    else if g.exitProbeRttAt == 0 then
      if drained then g.(exitProbeRttAt := now + PROBE_RTT_TIME, roundPassed := false) else g
    else
      var h := g.(roundPassed := g.roundPassed || roundStart);
      if !MayLeaveProbeRtt(g, now, roundStart) then h
      else if h.fullBw then EnterProbeBw(h, now, rand)
      else StartupGear(h)
  }

  /** maybe_enter_or_exit_probe_rtt */
  function ProbeRttStep(g: Gear, now: nat, roundStart: bool, expired: bool, drained: bool, rand: byte): Gear
  {
    StayOrLeaveProbeRtt(EnterProbeRtt(g, expired), now, roundStart, drained, rand).(exitingQuiescence := false)
  }

  function CycledGear(s: State, inFlight: nat): Gear
    requires s.gear.pacingGain >= 0.0
  {
    if s.gear.mode == ProbeBw then GainCycle(s, inFlight) else s.gear
  }

  /** Gear and ack heights after the full-bandwidth check. */
  function Checked(k: Learned, g: Gear): State
  {
    var s := k.s.(gear := g);
    if k.roundStart && !g.fullBw then s.(gear := CheckFullBw(s), maxAckHeight := HeightAfterCheck(s)) else s
  }

  /** The mode and its gains follow from what was learned. */
  function Steer(k: Learned, inFlight: nat, rand: byte): State
    requires k.s.gear.pacingGain >= 0.0
  {
    var b := Checked(k, CycledGear(k.s, inFlight));
    var g := EnterProbeRtt(ExitStartupOrDrain(b, inFlight, rand), k.expired);
    var now := b.ack.time;
    b.(minRttStamp := if MayLeaveProbeRtt(g, now, k.roundStart) then now else b.minRttStamp,
       gear := ProbeRttStep(ExitStartupOrDrain(b, inFlight, rand), now, k.roundStart, k.expired, Drained(b, inFlight), rand))
  }

  // ---------- end_ack: pacing rate and windows ----------

  /** calculate_pacing_rate; the branch behind startup_rate_reduction_multiplier_ is constantly off. */
  function PacingRate(s: State): nat
    requires s.gear.pacingGain >= 0.0
  {
    var bw := s.path.maxBandwidth.best.value;
    var target := Times(bw, s.gear.pacingGain);
    if bw == 0 then s.pacingRate
    else if s.gear.fullBw then target
    else if s.pacingRate == 0 && s.rttMin != 0 then INIT_CWND * 8 * 1_000_000 / s.rttMin
    else if s.repair.endRecoveryAt != 0 && s.opt.slowerStartup && s.path.hasNonAppLimited then
      Times(bw, STARTUP_AFTER_LOSS_GAIN)
    else if s.pacingRate < target then target
    else s.pacingRate
  }

  function TargetWindow(s: State, excess: nat): (w: nat)
    requires s.gear.cwndGain >= 0.0
    ensures w >= MIN_CWND
  {
    TargetCwnd(s.path, s.rttMin, s.gear.cwndGain)
    + if s.gear.fullBw then s.maxAckHeight.best.value else if s.opt.enableAckAgg then excess else 0
  }

  /** calculate_cwnd */
  function Window(s: State, acked: nat, excess: nat): nat
    requires s.gear.cwndGain >= 0.0
  {
    if s.gear.mode == ProbeRtt then s.cwnd
    else
      var target := TargetWindow(s, excess);
      var cwnd :=
        if s.gear.fullBw then Min(target, s.cwnd + acked)
        else if s.cwnd < target || s.totalAcked < INIT_CWND then s.cwnd + acked
        else s.cwnd;
      if cwnd < MIN_CWND then MIN_CWND else if cwnd > MAX_CWND then MAX_CWND else cwnd
  }

  /** calculate_recovery_window */
  function RecoveryWindow(s: State, acked: nat, lost: nat, inFlight: nat): nat
  {
    var w := s.repair.window;
    if (s.opt.rateBasedStartup && s.gear.mode == Startup) || !InRecovery(s.repair) then w
    else if w == 0 then Max(MIN_CWND, inFlight + acked)
    else
      var left := if w >= lost then w - lost else MSS;
      var grown := if s.repair.recovery == Growth then left + acked else left;
      Max(Max(grown, inFlight + acked), MIN_CWND)
  }

  /** The pacing rate and the two windows follow from mode and gains. */
  function Resize(s: State, acked: nat, excess: nat, inFlight: nat): State
    requires s.gear.pacingGain >= 0.0 && s.gear.cwndGain >= 0.0
  {
    s.(pacingRate := PacingRate(s), cwnd := Window(s, acked, excess),
       repair := s.repair.(window := RecoveryWindow(s, acked, s.ack.lostBytes, inFlight)))
  }

  predicate GainsPositive(s: State) { Positive(s.gear) }

  function AckedNow(s: State): nat
    requires s.ack.totalBefore <= s.totalAcked
  {
    s.totalAcked - s.ack.totalBefore
  }

  lemma LearnKeepsGear(s: State, acked: nat)
    ensures Learn(s, acked).s.gear == s.gear
  {
  }

  predicate Positive(g: Gear) { g.pacingGain > 0.0 && g.cwndGain > 0.0 }

  lemma StagesKeepGains(s: State, g: Gear, now: nat, inFlight: nat, roundStart: bool, expired: bool,
                        drained: bool, rand: byte)
    requires Positive(s.gear)
    ensures Positive(CycledGear(s, inFlight)) && Positive(CheckFullBw(s)) && Positive(ExitStartupOrDrain(s, inFlight, rand))
    ensures Positive(g) ==> Positive(ProbeRttStep(g, now, roundStart, expired, drained, rand))
  {
    hide TargetCwnd, AdvanceCycle, CycleStart, BandwidthGrew;
  }

  lemma SteerKeepsGains(k: Learned, inFlight: nat, rand: byte)
    requires GainsPositive(k.s)
    ensures GainsPositive(Steer(k, inFlight, rand))
  {
    hide CycledGear, CheckFullBw, ExitStartupOrDrain, ProbeRttStep, Drained, HeightAfterCheck, EnterProbeRtt;
    hide MayLeaveProbeRtt;
    var g := CycledGear(k.s, inFlight);
    StagesKeepGains(k.s, g, 0, inFlight, false, false, false, rand);
    StagesKeepGains(k.s.(gear := g), g, 0, inFlight, false, false, false, rand);
    var b := Checked(k, g);
    var h := ExitStartupOrDrain(b, inFlight, rand);
    StagesKeepGains(b, h, b.ack.time, inFlight, k.roundStart, k.expired, Drained(b, inFlight), rand);
  }

  /** lsquic_bbr_end_ack; `rand` is the random byte it may draw. */
  function EndAck(s: State, inFlight: nat, rand: byte): State
    requires s.ack.totalBefore <= s.totalAcked && GainsPositive(s)
  {
    var acked := AckedNow(s);
    var k := Learn(s.(inAck := false), acked);
    LearnKeepsGear(s.(inAck := false), acked);
    SteerKeepsGains(k, inFlight, rand);
    Resize(Steer(k, inFlight, rand), acked, k.excess, inFlight)
  }
}
