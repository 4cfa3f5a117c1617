/** lsquic_bbr.c: struct lsquic_bbr and the functions that update it in place. */
module Bbr {
  import opened Bytes
  import opened MinMax
  import opened BbrState
  import opened BbrInvariants

  /** The fields of struct lsquic_bbr; those that change together are grouped. */
  class Controller {
    const opt: Options
    var path: Path
    var gear: Gear
    var repair: Repair
    var inAck: bool
    var exitStartupOnLoss: bool
    var flexibleAppLimited: bool
    var maxAckHeight: Filter
    var aggStart: nat
    var aggBytes: nat
    var cwnd: nat
    var pacingRate: nat
    var minRttStamp: nat
    var ack: AckState
    var totalAcked: nat
    var rttMin: nat

    function Now(): State
      reads this
    {
      State(opt, path, gear, repair, inAck, exitStartupOnLoss, flexibleAppLimited,
        maxAckHeight, aggStart, aggBytes, cwnd, pacingRate, minRttStamp, ack, totalAcked, rttMin)
    }

    ghost predicate Valid()
      reads this
    {
      Inv(Now())
    }

    /** Zeroed memory, then lsquic_bbr_init. */
    constructor (opt: Options)
      ensures Now() == Fresh(opt) && Valid()
    {
      this.opt := opt;
      path := Path(0, Empty(10), false, false, false, 0, 0);
      gear := Gear(Startup, HIGH_GAIN, HIGH_GAIN, 0, 0, 0, false, false, false, 0, 0);
      repair := Repair(NotInRecovery, 0, 0, 0, 0);
      inAck, exitStartupOnLoss, flexibleAppLimited := false, false, false;
      maxAckHeight, aggStart, aggBytes := Empty(10), 0, 0;
      cwnd, pacingRate, minRttStamp := INIT_CWND, 0, 0;
      ack, totalAcked, rttMin := NO_ACK, 0, 0;
      new;
      FreshOk(opt);
    }

    method SetStartupValues()
      modifies `gear
      ensures gear == old(gear).(pacingGain := HIGH_GAIN, cwndGain := HIGH_GAIN)
    {
      gear := gear.(pacingGain := HIGH_GAIN, cwndGain := HIGH_GAIN);
    }

    /** lsquic_bbr_reinit */
    method Reinit()
      requires Valid()
      modifies this
      ensures Now() == Init(old(Now())) && Valid()
    {
      hide Inv;
      InitKeeps(Now());
      path := path.(roundCount := 0, maxBandwidth := Empty(10), minRtt := 0);
      maxAckHeight, aggBytes, aggStart, minRttStamp := Empty(10), 0, 0, 0;
      cwnd, pacingRate, exitStartupOnLoss := INIT_CWND, 0, false;
      gear := Gear(Startup, 1.0, 1.0, 0, 0, 0, false, false, false, 0, 0);
      path := path.(lastAppLimited := false, hasNonAppLimited := false);
      flexibleAppLimited := false;
      SetStartupValues();
    }

    /** lsquic_bbr_get_cwnd: never below four segments. */
    function GetCwnd(): (r: nat)
      requires Valid()
      reads this
      ensures r == Cwnd(Now()) && r >= MIN_CWND
    {
      ReportedWindow(Now());
      if gear.mode == ProbeRtt then ProbeRttCwnd(opt, path, rttMin)
      else if InRecovery(repair) && !(opt.rateBasedStartup && gear.mode == Startup) then Min(cwnd, repair.window)
      else cwnd
    }

    /** The connection's rtt statistics changed. */
    method ObserveRtt(rtt: nat)
      requires Valid()
      modifies `rttMin
      ensures Ready(old(Now())) && Now() == Step(old(Now()), RttKnown(rtt)) && Valid()
    {
      StepKeeps(Now(), RttKnown(rtt));
      rttMin := rtt;
    }

    /** bbr_app_limited */
    method BecomeAppLimited(inFlight: nat)
      requires Valid()
      modifies `path
      ensures gear.pacingGain >= 0.0 && Now() == AppLimited(old(Now()), inFlight)
    {
      hide Cwnd, PipeFull, Inv;
      GearPositiveOf(Now());
      if inFlight >= GetCwnd() {
        return;
      }
      if flexibleAppLimited {
        if PipeFull(Now(), inFlight) {
          return;
        }
      }
      path := path.(appLimitedSinceProbe := true);
    }

    /** lsquic_bbr_sent */
    method OnSent(packno: u64, inFlight: nat, appLimited: bool)
      requires Valid() && ValidPackno(packno) && repair.lastSent <= packno
      modifies `path, `repair
      ensures Ready(old(Now())) && Now() == Step(old(Now()), SentPacket(packno, inFlight, appLimited)) && Valid()
    {
      hide AppLimited, Inv;
      ghost var s := Now();
      StepKeeps(s, SentPacket(packno, inFlight, appLimited));
      StepKeeps(s, SentPacket(packno, inFlight, false));
      repair := repair.(lastSent := packno);
      if appLimited {
        BecomeAppLimited(inFlight);
      }
    }

    /** lsquic_bbr_begin_ack */
    method OnBeginAck(time: nat, inFlight: nat)
      requires Valid() && !inAck
      modifies `inAck, `ack
      ensures Ready(old(Now())) && Now() == Step(old(Now()), BeganAck(time, inFlight)) && Valid()
    {
      hide Inv;
      StepKeeps(Now(), BeganAck(time, inFlight));
      inAck := true;
      ack := NO_ACK.(time := time, maxPackno := UINT64_MAX, inFlight := inFlight, totalBefore := totalAcked);
    }

    /** lsquic_bbr_ack; `counted` and `samples` come from the bandwidth sampler. */
    method OnAck(packno: u64, size: nat, counted: nat, samples: seq<BwSample>)
      requires Valid() && inAck && ValidPackno(packno) && |samples| <= 1
      modifies `totalAcked, `ack
      ensures Ready(old(Now())) && Now() == Step(old(Now()), AckedPacket(packno, size, counted, samples)) && Valid()
    {
      hide Inv;
      StepKeeps(Now(), AckedPacket(packno, size, counted, samples));
      totalAcked := totalAcked + counted;
      ack := ack.(samples := ack.samples + samples);
      if !ValidPackno(ack.maxPackno) || packno > ack.maxPackno {
        ack := ack.(maxPackno := packno);
      }
      ack := ack.(ackedBytes := ack.ackedBytes + size);
    }

    /** lsquic_bbr_lost */
    method OnLost(size: nat)
      requires Valid()
      modifies `ack
      ensures Ready(old(Now())) && Now() == Step(old(Now()), LostPacket(size)) && Valid()
    {
      hide Inv;
      StepKeeps(Now(), LostPacket(size));
      ack := ack.(hasLosses := true);
      ack := ack.(lostBytes := ack.lostBytes + size);
    }

    // ---------- the stages of end_ack ----------

    method CountRound() returns (roundStart: bool)
      modifies `path, `repair
      ensures roundStart == RoundStart(old(repair), ack)
      ensures path == if roundStart then old(path).(roundCount := old(path).roundCount + 1) else old(path)
      ensures repair == if roundStart then old(repair).(roundEnd := old(repair).lastSent) else old(repair)
    {
      roundStart := ack.maxPackno > repair.roundEnd || !ValidPackno(repair.roundEnd);
      if roundStart {
        path := path.(roundCount := path.roundCount + 1);
        repair := repair.(roundEnd := repair.lastSent);
      }
    }

    /** The loop of update_bandwidth_and_min_rtt. */
    method TakeAllSamples() returns (least: u64)
      modifies `path
      ensures least == LeastRtt(ack.samples, |ack.samples|)
      ensures path == TakeSamples(old(path), ack.samples, |ack.samples|)
    {
      hide UpMax;
      ghost var p := path;
      least := UINT64_MAX;
      var i: nat := 0;
      while i < |ack.samples|
        invariant i <= |ack.samples| && least == LeastRtt(ack.samples, i)
        invariant path == TakeSamples(p, ack.samples, i)
      {
        var x := ack.samples[i];
        if x.appLimited {
          path := path.(lastAppLimited := true);
        } else {
          path := path.(lastAppLimited := false);
          path := path.(hasNonAppLimited := true);
        }
        if least == UINT64_MAX || x.rtt < least {
          least := x.rtt;
        }
        if !x.appLimited || x.bandwidth > path.maxBandwidth.best.value {
          path := path.(maxBandwidth := UpMax(path.maxBandwidth, path.roundCount, x.bandwidth));
        }
        i := i + 1;
      }
    }

    /** update_bandwidth_and_min_rtt */
    method UpdateBandwidthAndMinRtt() returns (expired: bool)
      modifies `path, `minRttStamp
      ensures var n := |ack.samples|;
              RttUpdate(path, minRttStamp, expired)
                == UpdateMinRtt(opt, TakeSamples(old(path), ack.samples, n), old(minRttStamp), ack.time, LeastRtt(ack.samples, n))
    {
      hide TakeSamples, LeastRtt, ExtendExpiry;
      var least := TakeAllSamples();
      if least == UINT64_MAX {
        return false;
      }
      path := path.(minRttSinceProbe := if path.minRttSinceProbe < least then path.minRttSinceProbe else least);
      expired := path.minRtt != 0 && ack.time > minRttStamp + MIN_RTT_EXPIRY;
      if expired || least < path.minRtt || path.minRtt == 0 {
        if expired && ExtendExpiry(opt, path) {
          expired := false;
        } else {
          path := path.(minRtt := least);
        }
        minRttStamp := ack.time;
        path := path.(minRttSinceProbe := UINT64_MAX);
        path := path.(appLimitedSinceProbe := false);
      }
    }

    /** update_recovery_state, with the fall-through from CONSERVATION to GROWTH. */
    method UpdateRecoveryState(roundStart: bool)
      modifies `repair
      ensures repair == UpdateRecovery(old(repair), ack, roundStart)
    {
      if ack.hasLosses {
        repair := repair.(endRecoveryAt := repair.lastSent);
      }
      if repair.recovery == NotInRecovery {
        if ack.hasLosses {
          repair := repair.(recovery := Conservation);
          repair := repair.(window := 0);
          repair := repair.(roundEnd := repair.lastSent);
        }
      } else {
        if repair.recovery == Conservation && roundStart {
          repair := repair.(recovery := Growth);
        }
        if !ack.hasLosses && ack.maxPackno > repair.endRecoveryAt {
          repair := repair.(recovery := NotInRecovery);
        }
      }
    }

    /** update_ack_aggregation_bytes */
    method UpdateAckAggregationBytes(newly: nat) returns (excess: nat)
      modifies `aggStart, `aggBytes, `maxAckHeight
      ensures Aggregation(aggStart, aggBytes, maxAckHeight, excess) == UpdateAggregation(old(Now()), path, newly)
    {
      hide UpMax;
      var expected := path.maxBandwidth.best.value * Elapsed(ack.time, aggStart);
      if aggBytes <= expected {
        aggBytes := newly;
        aggStart := ack.time;
        return 0;
      }
      aggBytes := aggBytes + newly;
      excess := aggBytes - expected;
      maxAckHeight := UpMax(maxAckHeight, path.roundCount, excess);
    }

    /** update_gain_cycle_phase */
    method UpdateGainCyclePhase(inFlight: nat)
      requires gear.pacingGain >= 0.0
      modifies `gear
      ensures gear == GainCycle(old(Now()), inFlight)
    {
      hide TargetCwnd;
      var advance := Elapsed(ack.time, gear.lastCycleStart) > MinRtt(path, rttMin);
      if gear.pacingGain > 1.0 && !ack.hasLosses && ack.inFlight < TargetCwnd(path, rttMin, gear.pacingGain) {
        advance := false;
      }
      if gear.pacingGain < 1.0 && inFlight <= TargetCwnd(path, rttMin, 1.0) {
        advance := true;
      }
      if advance {
        gear := gear.(cycleOffset := (gear.cycleOffset + 1) % GAIN_CYCLE);
        gear := gear.(lastCycleStart := ack.time);
        if opt.drainToTarget && gear.pacingGain < 1.0 && PacingGain(gear.cycleOffset) == 1.0
           && inFlight > TargetCwnd(path, rttMin, 1.0) {
          return;
        }
        gear := gear.(pacingGain := PacingGain(gear.cycleOffset));
      }
    }

    /** check_if_full_bw_reached; the invariant of the samples discharges its assertion. */
    method CheckIfFullBwReached()
      requires SamplesOk(path, gear) && !gear.fullBw
      modifies `gear, `maxAckHeight
      ensures gear == CheckFullBw(old(Now())) && maxAckHeight == HeightAfterCheck(old(Now()))
    {
      hide Times;
      if path.lastAppLimited {
        return;
      }
      if path.maxBandwidth.best.value >= Times(gear.bwAtLastRound, STARTUP_GROWTH_TARGET) {
        gear := gear.(bwAtLastRound := path.maxBandwidth.best.value);
        gear := gear.(roundsWithoutGain := 0);
        if opt.expireAckAgg {
          maxAckHeight := Reset(maxAckHeight, Meas(path.roundCount, 0));
        }
        return;
      }
      gear := gear.(roundsWithoutGain := gear.roundsWithoutGain + 1);
      if gear.roundsWithoutGain >= STARTUP_RTTS || (exitStartupOnLoss && InRecovery(repair)) {
        assert path.hasNonAppLimited by {
          FullBwWasMeasured(old(Now()));
        }
        gear := gear.(fullBw := true);
      }
    }

    /** enter_probe_bw_mode */
    method EnterProbeBwMode(now: nat, rand: byte)
      modifies `gear
      ensures gear == EnterProbeBw(old(gear), now, rand)
    {
      gear := gear.(mode := ProbeBw, cwndGain := CWND_GAIN);
      gear := gear.(cycleOffset := rand % (GAIN_CYCLE - 1));
      if gear.cycleOffset >= 1 {
        gear := gear.(cycleOffset := gear.cycleOffset + 1);
      }
      gear := gear.(lastCycleStart := now, pacingGain := PacingGain(gear.cycleOffset));
    }

    method EnterStartupMode()
      modifies `gear
      ensures gear == StartupGear(old(gear))
    {
      gear := gear.(mode := Startup);
      SetStartupValues();
    }

    /** maybe_exit_startup_or_drain */
    method MaybeExitStartupOrDrain(inFlight: nat, rand: byte)
      modifies `gear
      ensures gear == ExitStartupOrDrain(old(Now()), inFlight, rand)
    {
      hide TargetCwnd, EnterProbeBw;
      if gear.mode == Startup && gear.fullBw {
        gear := gear.(mode := Drain);
        gear := gear.(pacingGain := DRAIN_GAIN, cwndGain := HIGH_GAIN);
      }
      if gear.mode == Drain {
        if inFlight <= TargetCwnd(path, rttMin, 1.0) {
          EnterProbeBwMode(ack.time, rand);
        }
      }
    }

    /** The part of maybe_enter_or_exit_probe_rtt inside PROBE_RTT. */
    method StayInOrLeaveProbeRtt(roundStart: bool, inFlight: nat, rand: byte)
      modifies `gear, `minRttStamp
      ensures gear == StayOrLeaveProbeRtt(old(gear), ack.time, roundStart, Drained(old(Now()), inFlight), rand)
      ensures minRttStamp == if MayLeaveProbeRtt(old(gear), ack.time, roundStart) then ack.time else old(minRttStamp)
    {
      hide ProbeRttCwnd, EnterProbeBw, StartupGear;
      if gear.mode == ProbeRtt {
        if gear.exitProbeRttAt == 0 {
          if inFlight < ProbeRttCwnd(opt, path, rttMin) + MAX_OUTGOING {
            gear := gear.(exitProbeRttAt := ack.time + PROBE_RTT_TIME);
            gear := gear.(roundPassed := false);
          }
        } else {
          if roundStart {
            gear := gear.(roundPassed := true);
          }
          if ack.time >= gear.exitProbeRttAt && gear.roundPassed {
            minRttStamp := ack.time;
            if !gear.fullBw {
              EnterStartupMode();
            } else {
              EnterProbeBwMode(ack.time, rand);
            }
          }
        }
      }
    }

    /** maybe_enter_or_exit_probe_rtt */
    method MaybeEnterOrExitProbeRtt(roundStart: bool, expired: bool, inFlight: nat, rand: byte)
      modifies `gear, `minRttStamp
      ensures gear == ProbeRttStep(old(gear), ack.time, roundStart, expired, Drained(old(Now()), inFlight), rand)
      ensures minRttStamp ==
        if MayLeaveProbeRtt(EnterProbeRtt(old(gear), expired), ack.time, roundStart) then ack.time else old(minRttStamp)
    {
      hide ProbeRttCwnd, StayOrLeaveProbeRtt, MayLeaveProbeRtt;
      if expired && !gear.exitingQuiescence && gear.mode != ProbeRtt {
        gear := gear.(mode := ProbeRtt);
        gear := gear.(pacingGain := 1.0, exitProbeRttAt := 0);
      }
      StayInOrLeaveProbeRtt(roundStart, inFlight, rand);
      gear := gear.(exitingQuiescence := false);
    }

    /** calculate_pacing_rate */
    method CalculatePacingRate()
      requires gear.pacingGain >= 0.0
      modifies `pacingRate
      ensures pacingRate == PacingRate(old(Now()))
    {
      hide Times;
      var bw := path.maxBandwidth.best.value;
      if bw == 0 {
        return;
      }
      var target := Times(bw, gear.pacingGain);
      if gear.fullBw {
        pacingRate := target;
        return;
      }
      if pacingRate == 0 && rttMin != 0 {
        pacingRate := INIT_CWND * 8 * 1_000_000 / rttMin;
        return;
      }
      if repair.endRecoveryAt != 0 && opt.slowerStartup && path.hasNonAppLimited {
        pacingRate := Times(bw, STARTUP_AFTER_LOSS_GAIN);
        return;
      }
      if pacingRate < target {
        pacingRate := target;
      }
    }

    /** calculate_cwnd */
    method CalculateCwnd(acked: nat, excess: nat)
      requires gear.cwndGain >= 0.0
      modifies `cwnd
      ensures cwnd == Window(old(Now()), acked, excess)
    {
      hide TargetCwnd;
      if gear.mode == ProbeRtt {
        return;
      }
      var target := TargetCwnd(path, rttMin, gear.cwndGain);
      if gear.fullBw {
        target := target + maxAckHeight.best.value;
      } else if opt.enableAckAgg {
        target := target + excess;
      }
      if gear.fullBw {
        cwnd := Min(target, cwnd + acked);
      } else if cwnd < target || totalAcked < INIT_CWND {
        cwnd := cwnd + acked;
      }
      if cwnd < MIN_CWND {
        cwnd := MIN_CWND;
      } else if cwnd > MAX_CWND {
        cwnd := MAX_CWND;
      }
    }

    /** calculate_recovery_window */
    method CalculateRecoveryWindow(acked: nat, lost: nat, inFlight: nat)
      modifies `repair
      ensures repair == old(repair).(window := RecoveryWindow(old(Now()), acked, lost, inFlight))
    {
      if opt.rateBasedStartup && gear.mode == Startup {
        return;
      }
      if repair.recovery == NotInRecovery {
        return;
      }
      if repair.window == 0 {
        repair := repair.(window := inFlight + acked);
        repair := repair.(window := Max(MIN_CWND, repair.window));
        return;
      }
      if repair.window >= lost {
        repair := repair.(window := repair.window - lost);
      } else {
        repair := repair.(window := MSS);
      }
      if repair.recovery == Growth {
        repair := repair.(window := repair.window + acked);
      }
      repair := repair.(window := Max(repair.window, inFlight + acked));
      repair := repair.(window := Max(repair.window, MIN_CWND));
    }

    // ---------- end_ack ----------

    method LearnFromAck(acked: nat) returns (roundStart: bool, expired: bool, excess: nat)
      modifies `path, `repair, `minRttStamp, `aggStart, `aggBytes, `maxAckHeight
      ensures Learned(Now(), roundStart, expired, excess) == Learn(old(Now()), acked)
    {
      hide TakeSamples, LeastRtt, UpdateMinRtt, UpdateRecovery, RoundStart, UpMax;
      roundStart, expired, excess := false, false, 0;
      if ack.ackedBytes != 0 {
        roundStart := CountRound();
        expired := UpdateBandwidthAndMinRtt();
        UpdateRecoveryState(roundStart);
        excess := UpdateAckAggregationBytes(acked);
      }
    }

    method SteerBy(roundStart: bool, expired: bool, ghost excess: nat, inFlight: nat, rand: byte)
      requires GearOk(opt, gear) && SamplesOk(path, gear)
      modifies `gear, `maxAckHeight, `minRttStamp
      ensures GainsPositive(old(Now()))
      ensures Now() == Steer(Learned(old(Now()), roundStart, expired, excess), inFlight, rand)
    {
      hide GainCycle, CheckFullBw, HeightAfterCheck, ExitStartupOrDrain, ProbeRttStep, EnterProbeRtt, MayLeaveProbeRtt;
      hide GearOk, SamplesOk, TargetCwnd, ProbeRttCwnd;
      GearPositive(opt, gear);
      ghost var s := Now();
      CycleKeeps(s, inFlight);
      SamplesOfGear(s.path, s.gear, CycledGear(s, inFlight));
      if gear.mode == ProbeBw {
        UpdateGainCyclePhase(inFlight);
      }
      if roundStart && !gear.fullBw {
        CheckIfFullBwReached();
      }
      assert Now() == Checked(Learned(s, roundStart, expired, excess), CycledGear(s, inFlight));
      MaybeExitStartupOrDrain(inFlight, rand);
      MaybeEnterOrExitProbeRtt(roundStart, expired, inFlight, rand);
    }

    /** lsquic_bbr_end_ack */
    method OnEndAck(inFlight: nat, rand: byte)
      requires Valid() && inAck
      modifies this
      ensures Ready(old(Now())) && Now() == EndAck(old(Now()), inFlight, rand) && Valid()
    {
      hide Learn, Steer, PacingRate, Window, RecoveryWindow, GearOk, SamplesOk, WindowsOk, RepairOk, Inv;
      ghost var s := Now();
      EndAckKeeps(s, inFlight, rand);
      InvParts(s);
      inAck := false;
      var acked := totalAcked - ack.totalBefore;
      LearnKeeps(Now(), acked);
      var roundStart, expired, excess := LearnFromAck(acked);
      ghost var k := Learn(s.(inAck := false), acked);
      SteerKeeps(k, inFlight, rand);
      SteerBy(roundStart, expired, excess, inFlight, rand);
      GearPositive(opt, gear);
      SameResize(Now(), acked, excess, inFlight);
      CalculatePacingRate();
      CalculateCwnd(acked, excess);
      CalculateRecoveryWindow(acked, ack.lostBytes, inFlight);
    }
  }

  lemma GearPositiveOf(s: State)
    requires Inv(s)
    ensures GainsPositive(s)
  {
  }

  lemma InvParts(s: State)
    requires Inv(s)
    ensures GearOk(s.opt, s.gear) && SamplesOk(s.path, s.gear) && s.ack.totalBefore <= s.totalAcked
  {
  }

  /** The three recalculations do not read each other's results. */
  lemma SameResize(t: State, acked: nat, excess: nat, inFlight: nat)
    requires Positive(t.gear)
    ensures var p := PacingRate(t); var w := Window(t, acked, excess);
            && Window(t.(pacingRate := p), acked, excess) == w
            && RecoveryWindow(t.(pacingRate := p, cwnd := w), acked, t.ack.lostBytes, inFlight)
               == RecoveryWindow(t, acked, t.ack.lostBytes, inFlight)
  {
    hide TargetCwnd, PacingRate;
  }
}
