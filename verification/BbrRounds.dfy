/** What an acknowledgement gathers, and when a round of the congestion controller starts. */
module BbrRounds {
  import opened Bytes
  import opened BbrState
  import opened BbrInvariants
  import opened BbrRuns
  import opened BbrTiming

  // ---------- what was gathered ----------

  /** The samples of the events a to b, in order. */
  function Delivered(es: seq<Event>, a: nat, b: nat): seq<BwSample>
    requires a <= b <= |es|
    decreases b
  {
    if a == b then []
    else Delivered(es, a, b - 1) + if es[b - 1].AckedPacket? then es[b - 1].samples else []
  }

  /** The bytes of acknowledged packets, of those the sampler counts, and of lost packets. */
  function BytesOf(es: seq<Event>, a: nat, b: nat): (r: (nat, nat, nat))
    requires a <= b <= |es|
    decreases b
  {
    if a == b then (0, 0, 0)
    else
      var (acked, counted, lost) := BytesOf(es, a, b - 1);
      match es[b - 1]
      case AckedPacket(_, size, c, _) => (acked + size, counted + c, lost)
      case LostPacket(size) => (acked, counted, lost + size)
      case _ => (acked, counted, lost)
  }

  /** `p` is the largest number of a packet that events a to b acknowledge; there is at least one. */
  ghost predicate LargestAcked(es: seq<Event>, a: nat, b: nat, p: u64)
    requires a <= b <= |es|
  {
    && (exists j :: a <= j < b && es[j].AckedPacket? && es[j].packno == p)
    && (forall j :: a <= j < b && es[j].AckedPacket? ==> es[j].packno <= p)
  }

  ghost predicate NoneAcked(es: seq<Event>, a: nat, b: nat)
    requires a <= b <= |es|
  {
    forall j :: a <= j < b ==> !es[j].AckedPacket?
  }

  /** The acknowledgement that event `begin` began holds what events brought since. */
  ghost predicate Gathers(ss: seq<State>, es: seq<Event>, n: nat, begin: nat)
    requires |ss| == |es| + 1 && begin < n < |ss| && es[begin].BeganAck?
  {
    var s, sums := ss[n], BytesOf(es, begin + 1, n);
    && s.ack.time == es[begin].time && s.ack.inFlight == es[begin].inFlight
    && s.ack.samples == Delivered(es, begin + 1, n)
    && s.ack.ackedBytes == sums.0 && s.ack.lostBytes == sums.2
    && s.ack.totalBefore == ss[begin].totalAcked && s.totalAcked == ss[begin].totalAcked + sums.1
    && (if NoneAcked(es, begin + 1, n) then s.ack.maxPackno == UINT64_MAX
        else ValidPackno(s.ack.maxPackno) && LargestAcked(es, begin + 1, n, s.ack.maxPackno))
  }

  lemma GathersFirst(ss: seq<State>, es: seq<Event>, begin: nat)
    requires |ss| == |es| + 1 && begin < |es| && es[begin].BeganAck? && Steps(ss[begin], es[begin], ss[begin + 1])
    ensures Gathers(ss, es, begin + 1, begin)
  {
  }

  lemma OneMoreNumber(es: seq<Event>, a: nat, m: nat)
    requires a <= m < |es|
    ensures NoneAcked(es, a, m + 1) <==> (NoneAcked(es, a, m) && !es[m].AckedPacket?)
    ensures forall p: u64 :: LargestAcked(es, a, m, p) && es[m].AckedPacket?
              ==> LargestAcked(es, a, m + 1, if es[m].packno > p then es[m].packno else p)
    ensures forall p: u64 :: LargestAcked(es, a, m, p) && !es[m].AckedPacket? ==> LargestAcked(es, a, m + 1, p)
    ensures NoneAcked(es, a, m) && es[m].AckedPacket? ==> LargestAcked(es, a, m + 1, es[m].packno)
  {
    forall p: u64 | LargestAcked(es, a, m, p) && es[m].AckedPacket?
      ensures LargestAcked(es, a, m + 1, if es[m].packno > p then es[m].packno else p)
    {
      var j :| a <= j < m && es[j].AckedPacket? && es[j].packno == p;
    }
    forall p: u64 | LargestAcked(es, a, m, p) && !es[m].AckedPacket?
      ensures LargestAcked(es, a, m + 1, p)
    {
    }
  }

  lemma GathersMore(ss: seq<State>, es: seq<Event>, m: nat, begin: nat)
    requires |ss| == |es| + 1 && begin < m < |es| && es[begin].BeganAck? && Gathers(ss, es, m, begin)
    requires Steps(ss[m], es[m], ss[m + 1]) && !es[m].BeganAck? && !es[m].EndedAck?
    ensures Gathers(ss, es, m + 1, begin)
  {
    hide LargestAcked, NoneAcked, Cwnd, PipeFull, EndAck;
    OneMoreNumber(es, begin + 1, m);
  }

  /** In every state of a run, an open acknowledgement holds exactly what the events since begin_ack brought. */
  lemma {:induction false} OpenGathers(opt: Options, ss: seq<State>, es: seq<Event>, n: nat) returns (begin: nat)
    requires Run(opt, ss, es) && n < |ss| && ss[n].inAck
    ensures OpenSince(ss, es, n, begin) && Gathers(ss, es, n, begin)
  {
    hide Inv, Step, Legal, Fresh, Gathers;
    if n == 0 {
      FreshClosed(opt);
    } else {
      var m := n - 1;
      Reachable(opt, ss, es, m);
      assert Steps(ss[m], es[m], ss[n]);
      if es[m].EndedAck? {
        EndAckClosed(ss[m], es[m].inFlight, es[m].rand);
        IsEndAck(ss[m], es[m]);
      } else {
        QuietAck(ss[m], es[m]);
        if es[m].BeganAck? {
          begin := m;
          GathersFirst(ss, es, m);
        } else {
          begin := OpenGathers(opt, ss, es, m);
          GathersMore(ss, es, m, begin);
        }
      }
    }
  }

  // ---------- rounds ----------

  /** The number of the last packet sent before event n; 0 if there is none. */
  function LastSent(es: seq<Event>, n: nat): u64
    requires n <= |es|
  {
    if n == 0 then 0 else if es[n - 1].SentPacket? then es[n - 1].packno else LastSent(es, n - 1)
  }

  /** Event i ends an acknowledgement that starts a round or recovery. */
  ghost predicate Marks(ss: seq<State>, es: seq<Event>, i: nat)
    requires |ss| == |es| + 1 && i < |es|
  {
    && es[i].EndedAck?
    && (ss[i + 1].path.roundCount != ss[i].path.roundCount || (!InRecovery(ss[i].repair) && InRecovery(ss[i + 1].repair)))
  }

  /** The last packet sent before the round or the recovery that began last; 0 before the first. */
  ghost function MarkedPacket(ss: seq<State>, es: seq<Event>, n: nat): u64
    requires |ss| == |es| + 1 && n < |ss|
  {
    if n == 0 then 0 else if Marks(ss, es, n - 1) then LastSent(es, n - 1) else MarkedPacket(ss, es, n - 1)
  }

  /** One end_ack as rounds see it. */
  lemma RoundEvent(s: State, e: Event)
    requires Inv(s) && e.EndedAck? && Legal(s, e)
    ensures Ready(s)
    ensures var t, round := Step(s, e), s.ack.ackedBytes > 0 && s.ack.maxPackno > s.repair.roundEnd;
            && t.path.roundCount == s.path.roundCount + (if round then 1 else 0)
            && t.repair.lastSent == s.repair.lastSent
            && t.repair.roundEnd == (if round || (!InRecovery(s.repair) && InRecovery(t.repair)) then s.repair.lastSent
                                     else s.repair.roundEnd)
  {
    hide Learn, EndAck, ExitStartupOrDrain, ProbeRttStep, Checked, CycledGear, Drained, GearOk, SamplesOk, WindowsOk;
    var k, b, t := EndAckShifts(s, e.inFlight, e.rand);
    LearnedRound(s.(inAck := false), AckedNow(s));
  }

  lemma LearnedRound(s: State, acked: nat)
    requires RepairOk(s.repair)
    ensures var t, round := Learn(s, acked).s, s.ack.ackedBytes > 0 && s.ack.maxPackno > s.repair.roundEnd;
            && t.path.roundCount == s.path.roundCount + (if round then 1 else 0)
            && t.repair.lastSent == s.repair.lastSent
            && t.repair.roundEnd == (if round || (!InRecovery(s.repair) && InRecovery(t.repair)) then s.repair.lastSent
                                     else s.repair.roundEnd)
  {
    hide UpdateAggregation, LeastRtt, TakeSample;
    var p := if RoundStart(s.repair, s.ack) then s.path.(roundCount := s.path.roundCount + 1) else s.path;
    RoundsOfSamples(p, s.ack.samples, |s.ack.samples|);
  }

  lemma {:induction false} RoundsOfSamples(p: Path, xs: seq<BwSample>, n: nat)
    requires n <= |xs|
    ensures TakeSamples(p, xs, n).roundCount == p.roundCount
  {
    if n > 0 {
      RoundsOfSamples(p, xs, n - 1);
    }
  }

  lemma QuietRounds(s: State, e: Event)
    requires Ready(s) && !e.EndedAck?
    ensures var t := Step(s, e);
            && t.repair.roundEnd == s.repair.roundEnd
            && t.repair.lastSent == (if e.SentPacket? then e.packno else s.repair.lastSent)
            && (!e.Reinit? ==> t.path.roundCount == s.path.roundCount)
  {
    hide Cwnd, PipeFull, EndAck;
  }

  lemma {:induction false} SentAndMarked(opt: Options, ss: seq<State>, es: seq<Event>, n: nat)
    requires Run(opt, ss, es) && n < |ss|
    ensures ss[n].repair.lastSent == LastSent(es, n) && ss[n].repair.roundEnd == MarkedPacket(ss, es, n)
  {
    hide Inv, Step, Legal, Fresh;
    if n == 0 {
      FreshRounds(opt);
    } else {
      var m := n - 1;
      SentAndMarked(opt, ss, es, m);
      Reachable(opt, ss, es, m);
      assert Steps(ss[m], es[m], ss[n]);
      if es[m].EndedAck? {
        RoundEvent(ss[m], es[m]);
      } else {
        QuietRounds(ss[m], es[m]);
      }
    }
  }

  lemma FreshRounds(opt: Options)
    ensures Fresh(opt).repair == Repair(NotInRecovery, 0, 0, 0, 0)
  {
  }

  /**
   * A round starts exactly when bytes are acknowledged together with a packet sent after the last round, or
   * recovery, had begun: every round takes a full flight.
   */
  lemma RoundStartsIff(opt: Options, ss: seq<State>, es: seq<Event>, i: nat) returns (begin: nat)
    requires Run(opt, ss, es) && i < |es| && es[i].EndedAck?
    ensures OpenSince(ss, es, i, begin)
    ensures ss[i].path.roundCount <= ss[i + 1].path.roundCount <= ss[i].path.roundCount + 1
    ensures ss[i + 1].path.roundCount == ss[i].path.roundCount + 1 <==>
      && BytesOf(es, begin + 1, i).0 > 0
      && exists j :: begin < j < i && es[j].AckedPacket? && es[j].packno > MarkedPacket(ss, es, i)
  {
    hide Inv, Step, Legal, Fresh;
    Reachable(opt, ss, es, i);
    assert Steps(ss[i], es[i], ss[i + 1]);
    EndsOpen(ss[i], es[i]);
    begin := OpenGathers(opt, ss, es, i);
    SentAndMarked(opt, ss, es, i);
    RoundEvent(ss[i], es[i]);
    if NoneAcked(es, begin + 1, i) {
      BytesNeedPackets(es, begin + 1, i);
    }
  }

  lemma {:induction false} BytesNeedPackets(es: seq<Event>, a: nat, b: nat)
    requires a <= b <= |es| && NoneAcked(es, a, b)
    ensures BytesOf(es, a, b).0 == 0
    decreases b
  {
    if a < b {
      BytesNeedPackets(es, a, b - 1);
    }
  }
}
