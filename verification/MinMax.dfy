/** lsquic_minmax.c: the windowed maximum filter, which remembers three measurements. */
module MinMax {

  datatype Meas = Meas(time: nat, value: nat)

  /** Best, second best and third best choice. Times are round counts and never step back. */
  datatype Filter = Filter(window: nat, best: Meas, second: Meas, third: Meas)

  function Reset(m: Filter, x: Meas): Filter { Filter(m.window, x, x, x) }

  function Empty(window: nat): Filter { Reset(Filter(window, Meas(0, 0), Meas(0, 0), Meas(0, 0)), Meas(0, 0)) }

  function Shift(m: Filter, x: Meas): Filter { Filter(m.window, m.second, m.third, x) }

  /** As time advances, age out the choices and take new ones from later parts of the window. */
  function SubWindow(m: Filter, x: Meas): Filter
  {
    var dt := x.time - m.best.time;
    if dt > m.window then
      var a := Shift(m, x);
      if x.time - a.best.time > m.window then Shift(a, x) else a
    else if m.second.time == m.best.time && dt > m.window / 4 then
      m.(second := x, third := x)
    else if m.third.time == m.second.time && dt > m.window / 2 then
      m.(third := x)
    else m
  }

  function UpMax(m: Filter, now: nat, value: nat): Filter
  {
    var x := Meas(now, value);
    if m.best.value == 0 || value >= m.best.value || now - m.third.time > m.window then Reset(m, x)
    else
      SubWindow(
        if value >= m.second.value then m.(second := x, third := x)
        else if value >= m.third.value then m.(third := x)
        else m,
        x)
  }

  /** Measurement p of the history is `x`, and nothing measured since was larger. */
  ghost predicate Dominates(h: seq<Meas>, p: nat, x: Meas)
  {
    p < |h| && h[p] == x && forall q :: p <= q < |h| ==> h[q].value <= x.value
  }

  /** The three choices are measurements p0, p1 and p2 of the history. */
  ghost predicate Tracks(m: Filter, h: seq<Meas>, p0: nat, p1: nat, p2: nat)
  {
    && Dominates(h, p0, m.best) && Dominates(h, p1, m.second) && Dominates(h, p2, m.third)
    && p0 <= p1 <= p2 && m.best.time <= m.second.time <= m.third.time
  }

  lemma DominatesSmaller(h: seq<Meas>, p: nat, x: Meas, y: Meas)
    requires Dominates(h, p, x) && y.value <= x.value
    ensures Dominates(h + [y], p, x)
  {
  }

  lemma DominatesNew(h: seq<Meas>, y: Meas)
    ensures Dominates(h + [y], |h|, y)
  {
  }

  /**
   * After an update the estimate is the exact maximum of the history from some measurement on, and
   * that measurement is inside the window. The latest measurement is included.
   */
  lemma EstimateIsRecentMaximum(m: Filter, h: seq<Meas>, p0: nat, p1: nat, p2: nat, now: nat, value: nat)
    returns (q0: nat, q1: nat, q2: nat)
    requires (m == Empty(m.window) && h == []) || (Tracks(m, h, p0, p1, p2) && m.third.time <= now)
    ensures var n, x := UpMax(m, now, value), Meas(now, value);
            var g := h + [x];
            && Tracks(n, g, q0, q1, q2)
            && n.best.time <= now <= n.best.time + n.window && n.third.time <= now
            && n.best.value >= value
            && (n.best.value < m.best.value ==> now > m.best.time + m.window)
            && (n.best == m.best || n.best == x || now > m.best.time + m.window)
  {
    var x := Meas(now, value);
    DominatesNew(h, x);
    q0, q1, q2 := |h|, |h|, |h|;
    if !(m.best.value == 0 || value >= m.best.value || now - m.third.time > m.window) {
      var a :=
        if value >= m.second.value then m.(second := x, third := x)
        else if value >= m.third.value then m.(third := x)
        else m;
      DominatesSmaller(h, p0, m.best, x);
      if value < m.second.value {
        DominatesSmaller(h, p1, m.second, x);
      }
      if value < m.third.value {
        DominatesSmaller(h, p2, m.third, x);
      }
      var r1 := if value >= m.second.value then |h| else p1;
      var r2 := if value >= m.third.value || value >= m.second.value then |h| else p2;
      assert Tracks(a, h + [x], p0, r1, r2);
      var dt := now - a.best.time;
      if dt > m.window {
        if now - a.second.time > m.window {
          q0, q1, q2 := r2, |h|, |h|;
        } else {
          q0, q1, q2 := r1, r2, |h|;
        }
      } else if a.second.time == a.best.time && dt > m.window / 4 {
        q0, q1, q2 := p0, |h|, |h|;
      } else if a.third.time == a.second.time && dt > m.window / 2 {
        q0, q1, q2 := p0, r1, |h|;
      } else {
        q0, q1, q2 := p0, r1, r2;
      }
    }
  }

  // ---------- how long a measurement counts ----------

  /** The times of the choices ascend, and so do those of any further measurements. */
  predicate Ascending(m: Filter, now: nat) { m.best.time <= m.second.time <= m.third.time <= now }

  /** Measurements that follow at time `now` or later, and no later than `end`. */
  predicate Follow(now: nat, end: nat, xs: seq<Meas>)
  {
    && (xs != [] ==> now <= xs[0].time && xs[|xs| - 1].time <= end)
    && forall i :: 0 < i < |xs| ==> xs[i - 1].time <= xs[i].time
  }

  function After(m: Filter, xs: seq<Meas>): Filter
    decreases |xs|
  {
    if xs == [] then m else After(UpMax(m, xs[0].time, xs[0].value), xs[1..])
  }

  lemma {:induction false} AfterSnoc(m: Filter, xs: seq<Meas>, x: Meas)
    ensures After(m, xs + [x]) == UpMax(After(m, xs), x.time, x.value)
    decreases |xs|
  {
    hide UpMax;
    if xs == [] {
      assert ([x])[1..] == [] && xs + [x] == [x];
    } else {
      assert (xs + [x])[1..] == xs[1..] + [x];
      AfterSnoc(UpMax(m, xs[0].time, xs[0].value), xs[1..], x);
    }
  }

  lemma {:induction false} AfterJoin(m: Filter, xs: seq<Meas>, ys: seq<Meas>)
    ensures After(m, xs + ys) == After(After(m, xs), ys)
    decreases |ys|
  {
    hide UpMax;
    if ys == [] {
      assert xs + ys == xs;
    } else {
      var n := |ys| - 1;
      assert ys == ys[..n] + [ys[n]] && xs + ys == xs + ys[..n] + [ys[n]];
      AfterJoin(m, xs, ys[..n]);
      AfterSnoc(m, xs + ys[..n], ys[n]);
      AfterSnoc(After(m, xs), ys[..n], ys[n]);
    }
  }

  /** The choices that count until time r are at least `value`, and one of them was made at r or later. */
  predicate Remembers(m: Filter, r: nat, value: nat)
  {
    && m.best.value >= value
    && (m.best.time >= r
        || (m.second.value >= value
            && (m.second.time >= r
                || (m.third.value >= value && m.third.time >= r && m.best.time < m.second.time))))
  }

  lemma RemembersStep(m: Filter, r: nat, value: nat, now: nat, x: nat)
    requires Ascending(m, now) && r <= now <= r + m.window && Remembers(m, r, value)
    ensures var n := UpMax(m, now, x); Ascending(n, now) && n.window == m.window && Remembers(n, r, value)
  {
  }

  /** What the filter remembers is a lower bound of the estimate for a whole window, whatever is measured. */
  lemma {:induction false} RememberedHolds(m: Filter, r: nat, value: nat, now: nat, xs: seq<Meas>)
    requires Ascending(m, now) && r <= now && Remembers(m, r, value) && Follow(now, r + m.window, xs)
    ensures After(m, xs).best.value >= value
    decreases |xs|
  {
    hide UpMax, Remembers;
    if xs == [] {
      assert m.best.value >= value by { BestIsLarger(m, r, value); }
    } else {
      var rest := xs[1..];
      assert forall i :: 0 <= i < |rest| ==> rest[i] == xs[i + 1];
      FirstInTime(now, r + m.window, xs);
      RemembersStep(m, r, value, xs[0].time, xs[0].value);
      RememberedHolds(UpMax(m, xs[0].time, xs[0].value), r, value, xs[0].time, rest);
    }
  }

  lemma BestIsLarger(m: Filter, r: nat, value: nat)
    requires Remembers(m, r, value)
    ensures m.best.value >= value
  {
  }

  lemma {:induction false} FirstInTime(now: nat, end: nat, xs: seq<Meas>)
    requires Follow(now, end, xs) && xs != []
    ensures now <= xs[0].time <= end
    decreases |xs|
  {
    if |xs| > 1 {
      var rest := xs[1..];
      assert forall i :: 0 <= i < |rest| ==> rest[i] == xs[i + 1];
      FirstInTime(xs[0].time, end, rest);
    }
  }

  /** With all three choices larger, but none to remember it by, zeros bring the estimate below `value`. */
  lemma ForgottenFails(m: Filter, r: nat, value: nat) returns (xs: seq<Meas>)
    requires Ascending(m, r) && m.window > 0 && r <= m.best.time + m.window && value > 0
    requires m.best.value >= value && m.second.value >= value && m.third.value >= value && !Remembers(m, r, value)
    ensures Follow(r, r + m.window, xs) && After(m, xs).best.value < value
  {
    if m.third.time < r {
      xs := [Meas(r + m.window, 0)];
      assert xs[1..] == [];
      assert After(m, xs) == After(UpMax(m, r + m.window, 0), []);
    } else {
      var a, b := Meas(m.best.time + m.window, 0), Meas(m.best.time + m.window + 1, 0);
      xs := [a, b];
      assert xs[1..] == [b] && [b][1..] == [];
      var n := UpMax(m, a.time, 0);
      assert n == Filter(m.window, m.best, a, a);
      assert After(m, xs) == After(n, [b]) == After(UpMax(n, b.time, 0), []);
    }
  }

  /**
   * A measurement stays a lower bound of the estimate for a whole window exactly if the filter remembers it:
   * as the best choice, as the second, or as the third while the first two are apart.
   */
  lemma LowerBoundIff(m: Filter, h: seq<Meas>, p0: nat, p1: nat, p2: nat, now: nat, value: nat)
    requires (m == Empty(m.window) && h == []) || (Tracks(m, h, p0, p1, p2) && m.third.time <= now)
    requires m.window > 0 && value > 0
    ensures var n := UpMax(m, now, value);
            (forall xs :: Follow(now, now + n.window, xs) ==> After(n, xs).best.value >= value)
            <==> (n.best.time == now || n.second.time == now || (n.third.time == now && n.best.time < n.second.time))
  {
    var q0, q1, q2 := EstimateIsRecentMaximum(m, h, p0, p1, p2, now, value);
    var n, g := UpMax(m, now, value), h + [Meas(now, value)];
    hide UpMax;
    assert g[|h|] == Meas(now, value);
    assert n.window == m.window && Ascending(n, now) by { SameWindow(m, now, value); }
    if Remembers(n, now, value) {
      forall xs | Follow(now, now + n.window, xs)
        ensures After(n, xs).best.value >= value
      {
        RememberedHolds(n, now, value, now, xs);
      }
    } else {
      var xs := ForgottenFails(n, now, value);
    }
  }

  lemma SameWindow(m: Filter, now: nat, value: nat)
    ensures UpMax(m, now, value).window == m.window
  {
  }

  /** Such a loss: 7 is measured at time 7, within the window of time 17, where the estimate is 0. */
  lemma MeasurementIsLost()
    ensures var xs := [Meas(0, 10), Meas(3, 9), Meas(6, 8), Meas(7, 7), Meas(17, 0)];
            After(Empty(10), xs).best.value == 0
  {
    var a, b, c, d, e := Meas(0, 10), Meas(3, 9), Meas(6, 8), Meas(7, 7), Meas(17, 0);
    assert [a, b, c, d, e][1..] == [b, c, d, e] && [b, c, d, e][1..] == [c, d, e];
    assert [c, d, e][1..] == [d, e] && [d, e][1..] == [e];
    assert [e][1..] == [];
    var m := Filter(10, a, b, c);
    assert UpMax(UpMax(UpMax(Empty(10), 0, 10), 3, 9), 6, 8) == m == UpMax(m, 7, 7);
    assert After(m, [e]) == After(UpMax(m, 17, 0), []);
  }
}
