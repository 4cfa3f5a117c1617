/** How long the congestion controller stays in PROBE_RTT and in its recovery states. */
module BbrTiming {
  import opened Bytes
  import opened BbrState
  import opened BbrInvariants
  import opened BbrRuns

  /** Event i ends an acknowledgement of which the first byte starts a new round. */
  ghost predicate StartsRound(s: State, e: Event)
  {
    e.EndedAck? && s.ack.ackedBytes > 0 && RoundStart(s.repair, s.ack)
  }

  // ---------- PROBE_RTT ----------

  /** The end of an acknowledgement that leaves the controller in PROBE_RTT with few bytes in flight. */
  ghost predicate SeesDrained(e: Event, t: State) { e.EndedAck? && Drained(t, e.inFlight) }

  /** One end_ack as PROBE_RTT sees it. */
  lemma ProbeRttEvent(s: State, e: Event)
    requires Inv(s) && e.EndedAck? && Legal(s, e)
    ensures Ready(s)
    ensures var t, round := Step(s, e), StartsRound(s, e);
            && t.ack == s.ack
            && (t.gear.mode == ProbeRtt && (s.gear.mode != ProbeRtt || s.gear.exitProbeRttAt == 0) ==>
                  if SeesDrained(e, t) then t.gear.exitProbeRttAt == t.ack.time + PROBE_RTT_TIME && !t.gear.roundPassed
                  else t.gear.exitProbeRttAt == 0)
            && (t.gear.mode == ProbeRtt && s.gear.mode == ProbeRtt && s.gear.exitProbeRttAt != 0 ==>
                  && t.gear.exitProbeRttAt == s.gear.exitProbeRttAt
                  && t.gear.roundPassed == (s.gear.roundPassed || round))
            && (s.gear.mode == ProbeRtt ==>
                  (t.gear.mode != ProbeRtt <==>
                     && s.gear.exitProbeRttAt != 0 && s.ack.time >= s.gear.exitProbeRttAt
                     && (s.gear.roundPassed || round)))
  {
    hide EndAck, Learn, CycledGear, HeightAfterCheck, SamplesOk, WindowsOk, RepairOk, RoundStart, ProbeRttStep;
    hide ExitStartupOrDrain, Checked, Drained, GearOk;
    var k, b, t := EndAckShifts(s, e.inFlight, e.rand);
    var g := ExitStartupOrDrain(b, e.inFlight, e.rand);
    EarlierStages(k, b, e.inFlight, e.rand);
    ProbeRttGear(g, s.ack.time, k.roundStart, k.expired, Drained(b, e.inFlight), e.rand);
    assert Drained(b, e.inFlight) == Drained(t, e.inFlight) by { SameDrained(b, t, e.inFlight); }
  }

  lemma SameDrained(s: State, t: State, inFlight: nat)
    requires s.opt == t.opt && s.path == t.path && s.rttMin == t.rttMin
    ensures Drained(s, inFlight) == Drained(t, inFlight)
  {
  }

  /** Before the last stage a stay in PROBE_RTT is not touched, and none begins. */
  lemma EarlierStages(k: Learned, b: State, inFlight: nat, rand: byte)
    requires GainsPositive(k.s) && b == Checked(k, CycledGear(k.s, inFlight))
    ensures var g, h := k.s.gear, ExitStartupOrDrain(b, inFlight, rand);
            && (h.mode == ProbeRtt <==> g.mode == ProbeRtt)
            && (g.mode == ProbeRtt ==> h.exitProbeRttAt == g.exitProbeRttAt && h.roundPassed == g.roundPassed)
  {
    hide TargetCwnd, AdvanceCycle, BandwidthGrew, HeightAfterCheck;
  }

  /** The last stage by itself. */
  lemma ProbeRttGear(g: Gear, now: nat, round: bool, expired: bool, drained: bool, rand: byte)
    ensures var h := ProbeRttStep(g, now, round, expired, drained, rand);
            && (h.mode == ProbeRtt && (g.mode != ProbeRtt || g.exitProbeRttAt == 0) ==>
                  if drained then h.exitProbeRttAt == now + PROBE_RTT_TIME && !h.roundPassed else h.exitProbeRttAt == 0)
            && (h.mode == ProbeRtt && g.mode == ProbeRtt && g.exitProbeRttAt != 0 ==>
                  h.exitProbeRttAt == g.exitProbeRttAt && h.roundPassed == (g.roundPassed || round))
            && (g.mode == ProbeRtt ==>
                  (h.mode != ProbeRtt <==> g.exitProbeRttAt != 0 && now >= g.exitProbeRttAt && (g.roundPassed || round)))
  {
  }

  /**
   * The history of a stay in PROBE_RTT at state n: event `entry` entered it; if the end is scheduled,
   * event `low` was the first to see few bytes in flight, and a passed round started behind it.
   */
  ghost predicate Stay(ss: seq<State>, es: seq<Event>, n: nat, entry: nat, low: nat)
    requires |ss| == |es| + 1 && n < |ss|
  {
    && entry < n && ss[entry].gear.mode != ProbeRtt
    && (forall j :: entry < j <= n ==> ss[j].gear.mode == ProbeRtt)
    && (ss[n].gear.exitProbeRttAt == 0 ==> forall j :: entry <= j < n ==> !SeesDrained(es[j], ss[j + 1]))
    && (ss[n].gear.exitProbeRttAt != 0 ==>
          && entry <= low < n && SeesDrained(es[low], ss[low + 1])
          && ss[n].gear.exitProbeRttAt == ss[low + 1].ack.time + PROBE_RTT_TIME
          && (forall j :: entry <= j < low ==> !SeesDrained(es[j], ss[j + 1])))
    && (ss[n].gear.exitProbeRttAt != 0 ==>
          (ss[n].gear.roundPassed <==> exists m :: low < m < n && StartsRound(ss[m], es[m])))
  }

  lemma QuietKeeps(s: State, e: Event)
    requires Ready(s) && !e.EndedAck? && !e.Reinit?
    ensures Step(s, e).gear == s.gear && Step(s, e).repair == s.repair.(lastSent := Step(s, e).repair.lastSent)
  {
    hide Cwnd, PipeFull;
  }

  lemma {:induction false} StayHistory(opt: Options, ss: seq<State>, es: seq<Event>,
                                       n: nat) returns (entry: nat, low: nat)
    requires Run(opt, ss, es) && n < |ss| && ss[n].gear.mode == ProbeRtt
    ensures Stay(ss, es, n, entry, low)
  {
    hide Inv, Step, Legal, Drained, RoundStart, Fresh;
    if n == 0 {
      FreshMode(opt);
    } else {
      var m := n - 1;
      Reachable(opt, ss, es, m);
      assert Steps(ss[m], es[m], ss[n]);
      EnteredBy(ss[m], es[m]);
      if ss[m].gear.mode == ProbeRtt {
        entry, low := StayHistory(opt, ss, es, m);
        StayOn(ss, es, m, entry, low);
        if es[m].EndedAck? && ss[m].gear.exitProbeRttAt == 0 {
          low := m;
        }
      } else {
        entry, low := m, m;
        ProbeRttEvent(ss[m], es[m]);
      }
    }
  }

  lemma FreshMode(opt: Options)
    ensures Fresh(opt).gear.mode == Startup && Fresh(opt).repair.recovery == NotInRecovery
  {
  }

  /** Only the end of an acknowledgement enters PROBE_RTT. */
  lemma EnteredBy(s: State, e: Event)
    requires Ready(s)
    ensures Step(s, e).gear.mode == ProbeRtt && s.gear.mode != ProbeRtt ==> e.EndedAck?
    ensures Step(s, e).gear.mode == ProbeRtt ==> !e.Reinit?
  {
    if !e.EndedAck? && !e.Reinit? {
      QuietKeeps(s, e);
    }
    hide EndAck, Sent;
  }

  lemma StayOn(ss: seq<State>, es: seq<Event>, m: nat, entry: nat, low: nat)
    requires |ss| == |es| + 1 && m < |es| && Stay(ss, es, m, entry, low)
    requires Inv(ss[m]) && Steps(ss[m], es[m], ss[m + 1]) && ss[m + 1].gear.mode == ProbeRtt && !es[m].Reinit?
    ensures Stay(ss, es, m + 1, entry, if es[m].EndedAck? && ss[m].gear.exitProbeRttAt == 0 then m else low)
  {
    hide Inv, Step, Legal, Drained, RoundStart;
    if es[m].EndedAck? {
      ProbeRttEvent(ss[m], es[m]);
      if ss[m].gear.exitProbeRttAt != 0 && ss[m + 1].gear.roundPassed && !ss[m].gear.roundPassed {
        assert StartsRound(ss[m], es[m]);
      }
    } else {
      QuietKeeps(ss[m], es[m]);
    }
  }

  /**
   * PROBE_RTT is left, other than by a reinit, only 200 ms or more after the bytes in flight first fell
   * below the limit, and in or after a round that started later than that.
   */
  lemma ProbeRttLasts(opt: Options, ss: seq<State>, es: seq<Event>, i: nat) returns (entry: nat, low: nat, round: nat)
    requires Run(opt, ss, es) && i < |es| && !es[i].Reinit?
    requires ss[i].gear.mode == ProbeRtt && ss[i + 1].gear.mode != ProbeRtt
    ensures entry <= low < round <= i && es[i].EndedAck?
    ensures ss[entry].gear.mode != ProbeRtt && forall j :: entry < j <= i ==> ss[j].gear.mode == ProbeRtt
    ensures SeesDrained(es[low], ss[low + 1]) && forall j :: entry <= j < low ==> !SeesDrained(es[j], ss[j + 1])
    ensures ss[i].ack.time >= ss[low + 1].ack.time + PROBE_RTT_TIME
    ensures StartsRound(ss[round], es[round])
  {
    hide Inv, Step, Legal, Drained, RoundStart, Fresh;
    Reachable(opt, ss, es, i);
    assert Steps(ss[i], es[i], ss[i + 1]);
    entry, low := StayHistory(opt, ss, es, i);
    if !es[i].EndedAck? {
      QuietKeeps(ss[i], es[i]);
    }
    ProbeRttEvent(ss[i], es[i]);
    if StartsRound(ss[i], es[i]) {
      round := i;
    } else {
      round :| low < round < i && StartsRound(ss[round], es[round]);
    }
  }

  /** And it is left by the first acknowledgement of which this is true; event `low` is i if flight did not fall yet. */
  lemma ProbeRttEndsIff(opt: Options, ss: seq<State>, es: seq<Event>, i: nat) returns (entry: nat, low: nat)
    requires Run(opt, ss, es) && i < |es| && es[i].EndedAck? && ss[i].gear.mode == ProbeRtt
    ensures entry <= low <= i && entry < i
    ensures ss[entry].gear.mode != ProbeRtt && forall j :: entry < j <= i ==> ss[j].gear.mode == ProbeRtt
    ensures (low < i ==> SeesDrained(es[low], ss[low + 1])) && forall j :: entry <= j < low ==> !SeesDrained(es[j], ss[j + 1])
    ensures ss[i + 1].gear.mode != ProbeRtt <==>
      && low < i && ss[i].ack.time >= ss[low + 1].ack.time + 200_000
      && exists round :: low < round <= i && StartsRound(ss[round], es[round])
  {
    hide Inv, Step, Legal, Drained, RoundStart, Fresh, StartsRound;
    Reachable(opt, ss, es, i);
    assert Steps(ss[i], es[i], ss[i + 1]);
    entry, low := StayHistory(opt, ss, es, i);
    if ss[i].gear.exitProbeRttAt == 0 {
      low := i;
    }
    ProbeRttEvent(ss[i], es[i]);
  }

  // ---------- recovery ----------

  /** The end of an acknowledgement that reports losses, together with acknowledged bytes. */
  ghost predicate SeesLoss(s: State, e: Event) { e.EndedAck? && s.ack.ackedBytes > 0 && s.ack.hasLosses }

  /** One end_ack as recovery sees it. */
  lemma RecoveryEvent(s: State, e: Event)
    requires Inv(s) && e.EndedAck? && Legal(s, e)
    ensures Ready(s)
    ensures var t := Step(s, e); var round := StartsRound(s, e);
            && t.repair.lastSent == s.repair.lastSent
            && t.repair.endRecoveryAt == (if SeesLoss(s, e) then s.repair.lastSent else s.repair.endRecoveryAt)
            && (s.repair.recovery == NotInRecovery ==>
                  t.repair.recovery == if SeesLoss(s, e) then Conservation else NotInRecovery)
            && (s.repair.recovery == NotInRecovery && SeesLoss(s, e) ==> t.repair.roundEnd == s.repair.lastSent)
            && (s.repair.recovery == Conservation ==>
                  (t.repair.recovery == Conservation <==> !round)
                  && (t.repair.recovery == Conservation ==> t.repair.roundEnd == s.repair.roundEnd))
            && (s.repair.recovery == Growth ==> t.repair.recovery != Conservation)
            && (InRecovery(s.repair) ==>
                  (t.repair.recovery == NotInRecovery <==>
                     s.ack.ackedBytes > 0 && !s.ack.hasLosses && s.ack.maxPackno > s.repair.endRecoveryAt))
  {
    var k, b, t := EndAckShifts(s, e.inFlight, e.rand);
    hide EndAck, TargetCwnd, GainCycle, UpdateMinRtt, UpdateAggregation, TakeSamples, LeastRtt, CheckFullBw;
    hide ProbeRttStep, ExitStartupOrDrain, Drained;
    hide GearOk, SamplesOk, HeightAfterCheck, CycledGear;
  }

  /** The first loss of this stay in conservation was seen by event `start`. */
  ghost predicate Conserving(ss: seq<State>, es: seq<Event>, n: nat, start: nat)
    requires |ss| == |es| + 1 && n < |ss|
  {
    && start < n && SeesLoss(ss[start], es[start]) && ss[start].repair.recovery == NotInRecovery
    && (forall j :: start < j <= n ==> ss[j].repair.recovery == Conservation)
    && ss[n].repair.roundEnd == ss[start].repair.lastSent
  }

  lemma ReinitKeepsRepair(s: State)
    ensures Init(s).repair == s.repair
  {
  }

  lemma QuietRepair(s: State, e: Event)
    requires Ready(s) && !e.EndedAck?
    ensures Step(s, e).repair == s.repair.(lastSent := Step(s, e).repair.lastSent)
  {
    if e.Reinit? {
      ReinitKeepsRepair(s);
    } else {
      QuietKeeps(s, e);
    }
  }

  lemma {:induction false} ConservationHistory(opt: Options, ss: seq<State>, es: seq<Event>,
                                               n: nat) returns (start: nat)
    requires Run(opt, ss, es) && n < |ss| && ss[n].repair.recovery == Conservation
    ensures Conserving(ss, es, n, start)
  {
    hide Inv, Step, Legal, RoundStart, Fresh;
    if n == 0 {
      FreshMode(opt);
    } else {
      var m := n - 1;
      Reachable(opt, ss, es, m);
      assert Steps(ss[m], es[m], ss[n]);
      if es[m].EndedAck? {
        RecoveryEvent(ss[m], es[m]);
      } else {
        QuietRepair(ss[m], es[m]);
      }
      if ss[m].repair.recovery == Conservation {
        start := ConservationHistory(opt, ss, es, m);
      } else {
        start := m;
      }
    }
  }

  /** Conservation ends only when a packet is acknowledged that was sent after it began: it lasts a round. */
  lemma ConservationLasts(opt: Options, ss: seq<State>, es: seq<Event>, i: nat) returns (start: nat)
    requires Run(opt, ss, es) && i < |es|
    requires ss[i].repair.recovery == Conservation && ss[i + 1].repair.recovery != Conservation
    ensures start < i && SeesLoss(ss[start], es[start]) && ss[start].repair.recovery == NotInRecovery
    ensures forall j :: start < j <= i ==> ss[j].repair.recovery == Conservation
    ensures StartsRound(ss[i], es[i]) && ss[i].ack.maxPackno > ss[start].repair.lastSent
  {
    hide Inv, Step, Legal, Fresh;
    Reachable(opt, ss, es, i);
    assert Steps(ss[i], es[i], ss[i + 1]);
    start := ConservationHistory(opt, ss, es, i);
    if es[i].EndedAck? {
      RecoveryEvent(ss[i], es[i]);
    } else {
      QuietRepair(ss[i], es[i]);
    }
    RoundEndValid(ss[i]);
  }

  lemma RoundEndValid(s: State)
    requires Inv(s)
    ensures ValidPackno(s.repair.roundEnd)
  {
    hide GearOk, SamplesOk, WindowsOk, AckOk;
  }

  /** Event `last` saw the last loss so far. */
  ghost predicate LastLoss(ss: seq<State>, es: seq<Event>, n: nat, last: nat)
    requires |ss| == |es| + 1 && n < |ss|
  {
    && last < n && SeesLoss(ss[last], es[last])
    && (forall j :: last < j < n ==> !SeesLoss(ss[j], es[j]))
    && ss[n].repair.endRecoveryAt == ss[last].repair.lastSent
  }

  lemma {:induction false} LossHistory(opt: Options, ss: seq<State>, es: seq<Event>, n: nat) returns (last: nat)
    requires Run(opt, ss, es) && n < |ss| && InRecovery(ss[n].repair)
    ensures LastLoss(ss, es, n, last)
  {
    hide Inv, Step, Legal, RoundStart, Fresh;
    if n == 0 {
      FreshMode(opt);
    } else {
      var m := n - 1;
      Reachable(opt, ss, es, m);
      assert Steps(ss[m], es[m], ss[n]);
      if es[m].EndedAck? {
        RecoveryEvent(ss[m], es[m]);
      } else {
        QuietRepair(ss[m], es[m]);
      }
      if SeesLoss(ss[m], es[m]) {
        last := m;
      } else {
        last := LossHistory(opt, ss, es, m);
      }
    }
  }

  /** Recovery ends exactly on a loss-free acknowledgement of a packet sent after the last loss it saw. */
  lemma RecoveryEndsIff(opt: Options, ss: seq<State>, es: seq<Event>, i: nat) returns (last: nat)
    requires Run(opt, ss, es) && i < |es| && InRecovery(ss[i].repair)
    ensures LastLoss(ss, es, i, last)
    ensures !InRecovery(ss[i + 1].repair) <==>
      es[i].EndedAck? && ss[i].ack.ackedBytes > 0 && !ss[i].ack.hasLosses && ss[i].ack.maxPackno > ss[last].repair.lastSent
  {
    hide Inv, Step, Legal, RoundStart, Fresh;
    Reachable(opt, ss, es, i);
    assert Steps(ss[i], es[i], ss[i + 1]);
    last := LossHistory(opt, ss, es, i);
    if es[i].EndedAck? {
      RecoveryEvent(ss[i], es[i]);
    } else {
      QuietRepair(ss[i], es[i]);
    }
  }

  // ---------- which losses start recovery ----------

  predicate AcksBytes(e: Event) { e.AckedPacket? && e.size > 0 }

  /** Event `begin` began the acknowledgement that is still open before event n. */
  ghost predicate OpenSince(ss: seq<State>, es: seq<Event>, n: nat, begin: nat)
    requires |ss| == |es| + 1 && n < |ss|
  {
    && begin < n && es[begin].BeganAck?
    && forall j :: begin < j < n ==> !es[j].BeganAck? && !es[j].EndedAck? && ss[j].inAck
  }

  ghost predicate LostBetween(es: seq<Event>, begin: nat, n: nat)
    requires n <= |es|
  {
    exists j :: begin < j < n && es[j].LostPacket?
  }

  ghost predicate AckedBetween(es: seq<Event>, begin: nat, n: nat)
    requires n <= |es|
  {
    exists j :: begin < j < n && AcksBytes(es[j])
  }

  lemma OneMoreEvent(es: seq<Event>, begin: nat, m: nat)
    requires begin < m < |es|
    ensures LostBetween(es, begin, m + 1) <==> (LostBetween(es, begin, m) || es[m].LostPacket?)
    ensures AckedBetween(es, begin, m + 1) <==> (AckedBetween(es, begin, m) || AcksBytes(es[m]))
  {
    if LostBetween(es, begin, m) {
      var j :| begin < j < m && es[j].LostPacket?;
      assert LostBetween(es, begin, m + 1);
    }
    if AckedBetween(es, begin, m) {
      var j :| begin < j < m && AcksBytes(es[j]);
      assert AckedBetween(es, begin, m + 1);
    }
  }

  /** What an open acknowledgement has gathered is what the events since its beginning brought. */
  lemma {:induction false} OpenHistory(opt: Options, ss: seq<State>, es: seq<Event>, n: nat) returns (begin: nat)
    requires Run(opt, ss, es) && n < |ss| && ss[n].inAck
    ensures OpenSince(ss, es, n, begin)
    ensures ss[n].ack.hasLosses <==> LostBetween(es, begin, n)
    ensures ss[n].ack.ackedBytes > 0 <==> AckedBetween(es, begin, n)
  {
    hide Inv, RoundStart, EndAck, Sent, Fresh, BeginAck, Acked, Lost, Init, Step, LostBetween, AckedBetween, AcksBytes;
    if n == 0 {
      FreshClosed(opt);
    } else {
      var m := n - 1;
      Reachable(opt, ss, es, m);
      assert Steps(ss[m], es[m], ss[n]);
      if es[m].EndedAck? {
        EndAckClosed(ss[m], es[m].inFlight, es[m].rand);
        IsEndAck(ss[m], es[m]);
      } else {
        QuietAck(ss[m], es[m]);
        if es[m].BeganAck? {
          begin := m;
          NothingBetween(es, m);
        } else {
          begin := OpenHistory(opt, ss, es, m);
          OneMoreEvent(es, begin, m);
        }
      }
    }
  }

  lemma IsEndAck(s: State, e: Event)
    requires Ready(s) && e.EndedAck?
    ensures Step(s, e) == EndAck(s, e.inFlight, e.rand)
  {
    hide EndAck;
  }

  lemma NothingBetween(es: seq<Event>, m: nat)
    requires m < |es|
    ensures !LostBetween(es, m, m + 1) && !AckedBetween(es, m, m + 1)
  {
  }

  /**
   * Recovery starts exactly at the end of an acknowledgement since whose beginning a loss was reported and
   * bytes were acknowledged. What was lost before begin_ack, or in an acknowledgement of no bytes, is ignored.
   */
  lemma RecoveryStartsIff(opt: Options, ss: seq<State>, es: seq<Event>, i: nat)
    requires Run(opt, ss, es) && i < |es| && !InRecovery(ss[i].repair)
    ensures InRecovery(ss[i + 1].repair) <==>
      es[i].EndedAck? && exists b: nat :: OpenSince(ss, es, i, b) && LostBetween(es, b, i) && AckedBetween(es, b, i)
  {
    hide Inv, Step, Legal, RoundStart, Fresh, LostBetween, AckedBetween;
    Reachable(opt, ss, es, i);
    assert Steps(ss[i], es[i], ss[i + 1]);
    if es[i].EndedAck? {
      EndsOpen(ss[i], es[i]);
      RecoveryEvent(ss[i], es[i]);
      var begin := OpenHistory(opt, ss, es, i);
      forall b: nat | OpenSince(ss, es, i, b)
        ensures b == begin
      {
      }
    } else {
      QuietRepair(ss[i], es[i]);
    }
  }

  lemma EndsOpen(s: State, e: Event)
    requires Legal(s, e) && e.EndedAck?
    ensures s.inAck
  {
  }

  /** No loss is pending while an acknowledgement is processed, and no recovery was ever started. */
  predicate Untroubled(s: State) { (s.inAck ==> !s.ack.hasLosses) && s.repair.recovery == NotInRecovery }

  /** So if losses are only ever reported between acknowledgements, as a timer does, recovery never starts. */
  lemma {:induction false} LossesBetweenAcksAreNeverSeen(opt: Options, ss: seq<State>, es: seq<Event>, n: nat)
    requires Run(opt, ss, es) && n < |ss|
    requires forall i :: 0 <= i < n ==> es[i].LostPacket? ==> !ss[i].inAck
    ensures Untroubled(ss[n])
  {
    hide Step, Fresh, Run, AckedBetween;
    if ss[n].inAck {
      var begin := OpenHistory(opt, ss, es, n);
    }
    if n == 0 {
      StartsUntroubled(opt, ss, es);
    } else {
      LossesBetweenAcksAreNeverSeen(opt, ss, es, n - 1);
      RunLength(opt, ss, es);
      RecoveryStartsIff(opt, ss, es, n - 1);
    }
  }

  lemma RunLength(opt: Options, ss: seq<State>, es: seq<Event>)
    requires Run(opt, ss, es)
    ensures |ss| == |es| + 1
  {
    hide Fresh;
  }

  lemma StartsUntroubled(opt: Options, ss: seq<State>, es: seq<Event>)
    requires Run(opt, ss, es)
    ensures ss[0].repair.recovery == NotInRecovery
  {
  }

  lemma FreshClosed(opt: Options)
    ensures !Fresh(opt).inAck
  {
  }

  lemma EndAckClosed(s: State, inFlight: nat, rand: byte)
    requires Inv(s)
    ensures Ready(s) && !EndAck(s, inFlight, rand).inAck
  {
    GearPositive(s.opt, s.gear);
    hide GearOk, SamplesOk, RepairOk, Learn, Steer, Resize;
    var a, acked := s.(inAck := false), AckedNow(s);
    LearnKeeps(a, acked);
    var k := Learn(a, acked);
    SteerKeeps(k, inFlight, rand);
    var t := Steer(k, inFlight, rand);
    GearPositive(t.opt, t.gear);
    ResizeRest(t, acked, k.excess, inFlight);
  }

  lemma QuietAck(s: State, e: Event)
    requires Ready(s) && !e.EndedAck?
    ensures var t := Step(s, e);
            if e.BeganAck? then t.inAck && !t.ack.hasLosses && t.ack.ackedBytes == 0
            else
              && t.inAck == s.inAck
              && (t.ack.hasLosses <==> s.ack.hasLosses || e.LostPacket?)
              && (t.ack.ackedBytes > 0 <==> s.ack.ackedBytes > 0 || AcksBytes(e))
  {
    hide Cwnd, PipeFull;
  }
}
