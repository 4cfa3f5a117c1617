/** Plain run-length coding, as stts and ctts use it (ISO/IEC 14496-12, section 8.6.1). */
module RunLength {
  import opened Bytes

  datatype Run = Run(count: u32, value: u32)

  function RunsOf(vs: seq<u32>, n: nat): (rs: seq<Run>)
    requires n <= |vs| && n <= UINT32_MAX
    ensures |rs| <= n && (n > 0 ==> rs != [] && rs[|rs| - 1].value == vs[n - 1])
    ensures forall j :: 0 <= j < |rs| ==> 1 <= rs[j].count <= n
  {
    if n == 0 then []
    else
      var rs := RunsOf(vs, n - 1);
      if n > 1 && vs[n - 2] == vs[n - 1] then
        rs[|rs| - 1 := rs[|rs| - 1].(count := rs[|rs| - 1].count + 1)]
      else
        rs + [Run(1, vs[n - 1])]
  }

  /** Number of samples in the first j runs. */
  function Covered(rs: seq<Run>, j: nat): nat
    requires j <= |rs|
  {
    if j == 0 then 0 else Covered(rs, j - 1) + rs[j - 1].count
  }

  lemma {:induction false} CoveredSame(rs: seq<Run>, ts: seq<Run>, j: nat)
    requires j <= |rs| && j <= |ts| && forall i :: 0 <= i < j ==> rs[i].count == ts[i].count
    ensures Covered(rs, j) == Covered(ts, j)
  {
    if j > 0 {
      CoveredSame(rs, ts, j - 1);
    }
  }

  lemma {:induction false} CoveredMonotone(rs: seq<Run>, i: nat, j: nat)
    requires i <= j <= |rs|
    ensures Covered(rs, i) <= Covered(rs, j)
  {
    if i < j {
      CoveredMonotone(rs, i, j - 1);
    }
  }

  /** The value the first m runs give to sample k. */
  function ValueAt(rs: seq<Run>, m: nat, k: nat): u32
    requires m <= |rs| && k < Covered(rs, m)
  {
    if k >= Covered(rs, m - 1) then rs[m - 1].value else ValueAt(rs, m - 1, k)
  }

  lemma {:induction false} ValueSame(rs: seq<Run>, ts: seq<Run>, m: nat, k: nat)
    requires m <= |rs| && m <= |ts| && forall i :: 0 <= i < m ==> rs[i] == ts[i]
    requires k < Covered(rs, m)
    ensures k < Covered(ts, m) && ValueAt(rs, m, k) == ValueAt(ts, m, k)
  {
    CoveredSame(rs, ts, m);
    CoveredSame(rs, ts, m - 1);
    if k < Covered(rs, m - 1) {
      ValueSame(rs, ts, m - 1, k);
    }
  }

  /** Run j covers the samples Covered(j) .. Covered(j) + count. */
  lemma {:induction false} ValueInRun(rs: seq<Run>, m: nat, j: nat, q: nat)
    requires j < m <= |rs| && q < rs[j].count
    ensures Covered(rs, j) + q < Covered(rs, m)
    ensures ValueAt(rs, m, Covered(rs, j) + q) == rs[j].value
  {
    CoveredMonotone(rs, j + 1, m);
    if j + 1 < m {
      CoveredMonotone(rs, j + 1, m - 1);
      ValueInRun(rs, m - 1, j, q);
    }
  }

  lemma {:induction false} RunsCover(vs: seq<u32>, n: nat)
    requires n <= |vs| && n <= UINT32_MAX
    ensures var rs := RunsOf(vs, n); Covered(rs, |rs|) == n
  {
    if n > 0 {
      RunsCover(vs, n - 1);
      var rs, ts := RunsOf(vs, n), RunsOf(vs, n - 1);
      CoveredSame(rs, ts, |rs| - 1);
    }
  }

  /** A longer last run gives its value to one more sample. */
  lemma ValueGrown(ts: seq<Run>, k: nat)
    requires ts != [] && ts[|ts| - 1].count < UINT32_MAX && k <= Covered(ts, |ts|)
    ensures var m := |ts| - 1; var rs := ts[m := ts[m].(count := ts[m].count + 1)];
            k < Covered(rs, |rs|) && ValueAt(rs, |rs|, k) == if k < Covered(ts, |ts|) then ValueAt(ts, |ts|, k) else ts[m].value
  {
    var m := |ts| - 1;
    var rs := ts[m := ts[m].(count := ts[m].count + 1)];
    CoveredSame(rs, ts, m);
    if k < Covered(rs, m) {
      ValueSame(rs, ts, m, k);
    }
  }

  lemma ValueAppended(ts: seq<Run>, r: Run, k: nat)
    requires k <= Covered(ts, |ts|) && r.count == 1
    ensures var rs := ts + [r];
            k < Covered(rs, |rs|) && ValueAt(rs, |rs|, k) == if k < Covered(ts, |ts|) then ValueAt(ts, |ts|, k) else r.value
  {
    var rs := ts + [r];
    CoveredSame(rs, ts, |ts|);
    if k < Covered(ts, |ts|) {
      ValueSame(rs, ts, |ts|, k);
    }
  }

  /** Decoding the runs gives back every value. */
  lemma {:induction false} RunsRoundTrip(vs: seq<u32>, n: nat, k: nat)
    requires k < n <= |vs| && n <= UINT32_MAX
    ensures var rs := RunsOf(vs, n); k < Covered(rs, |rs|) && ValueAt(rs, |rs|, k) == vs[k]
  {
    hide Covered, ValueAt;
    RunsCover(vs, n - 1);
    var ts := RunsOf(vs, n - 1);
    if k < n - 1 {
      RunsRoundTrip(vs, n - 1, k);
    }
    if n > 1 && vs[n - 2] == vs[n - 1] {
      ValueGrown(ts, k);
    } else {
      ValueAppended(ts, Run(1, vs[n - 1]), k);
    }
  }

  /** Neighbouring runs differ, so no shorter run list says the same. */
  lemma {:induction false} RunsAreMaximal(vs: seq<u32>, n: nat, j: nat)
    requires n <= |vs| && n <= UINT32_MAX && j + 1 < |RunsOf(vs, n)|
    ensures RunsOf(vs, n)[j].value != RunsOf(vs, n)[j + 1].value
  {
    if j + 1 < |RunsOf(vs, n - 1)| {
      RunsAreMaximal(vs, n - 1, j);
    }
  }
}
