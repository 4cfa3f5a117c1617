/** h264_annexbtomp4 and h264_mp4toannexb: rewriting a frame between start codes and length fields. */
module AvcConvert {
  import opened Bytes
  import opened NalUnits
  import opened ParamArena
  import opened ParamStore
  import opened UnitForms

  const E2BIG: int := 7
  const EINVAL: int := 22

  // ---------- start codes to lengths ----------

  /** struct h264_annexbtomp4_handle_t, with the sets of the store it works on. */
  datatype Packed = Packed(sets: Sets, errcode: int, update: int, vcl: int, out: seq<byte>)

  /** The flag for the kind of frame: 1 for an IDR slice, 2 for any other, unchanged for other units. */
  function VclOf(u: Nal, vcl: int): int
    requires u != []
  {
    if 1 <= NalType(u) <= NAL_IDR then (if NalType(u) == NAL_IDR then 1 else 2) else vcl
  }

  function PackUnit(ids: Ids, c: Packed, u: Nal, capacity: nat): Packed
    requires LongEnough(u)
  {
    var r := UpdateSets(ids, c.sets, u);
    var fits := capacity >= |c.out| + |u| + 4;
    Packed(r.sets,
      if !fits then -E2BIG else if r.r < 0 then r.r else c.errcode,
      if r.r == 1 then 1 else c.update,
      VclOf(u, c.vcl),
      if fits then c.out + BE32(|u| % TWO_32) + u else c.out)
  }

  predicate AllLongEnough(us: seq<Nal>) { forall u :: u in us ==> LongEnough(u) }

  function PackAll(ids: Ids, c: Packed, us: seq<Nal>, n: nat, capacity: nat): Packed
    requires n <= |us| && AllLongEnough(us)
  {
    if n == 0 then c else PackUnit(ids, PackAll(ids, c, us, n - 1, capacity), us[n - 1], capacity)
  }

  /** Whenever the oldest pps has to go on the way, the new one fits in its place. */
  predicate AllFit(ids: Ids, c: Packed, us: seq<Nal>, capacity: nat)
    requires AllLongEnough(us)
  {
    forall i :: 0 <= i < |us| ==> Fits(ids, PackAll(ids, c, us, i, capacity).sets, us[i])
  }

  /** The parameter sets after the first n units. */
  function SetsAfter(ids: Ids, s: Sets, us: seq<Nal>, n: nat): Sets
    requires n <= |us| && AllLongEnough(us)
  {
    if n == 0 then s else UpdateSets(ids, SetsAfter(ids, s, us, n - 1), us[n - 1]).sets
  }

  // ---------- the frame kind and the change flag ----------

  /** A coded slice, by its five type bits: 1 to 5. */
  predicate IsSlice(u: Nal) { u != [] && 1 <= u[0] % 32 <= 5 }

  predicate IsIdrSlice(u: Nal) { u != [] && u[0] % 32 == 5 }

  /** Unit i is the last slice among the first n units. */
  predicate LastSlice(us: seq<Nal>, n: nat, i: nat)
    requires n <= |us|
  {
    i < n && IsSlice(us[i]) && forall k :: i < k < n ==> !IsSlice(us[k])
  }

  predicate NoSlice(us: seq<Nal>, n: nat)
    requires n <= |us|
  {
    forall k :: 0 <= k < n ==> !IsSlice(us[k])
  }

  /** 0 without a slice; else 1 if the last slice is an IDR slice, and 2 if it is another. */
  ghost predicate KindOf(us: seq<Nal>, n: nat, vcl: int)
    requires n <= |us|
  {
    && (vcl == 0 <==> NoSlice(us, n))
    && forall i: nat :: LastSlice(us, n, i) ==> vcl == if IsIdrSlice(us[i]) then 1 else 2
  }

  /** Unit i changes the list of stored sps or pps. */
  predicate ChangesSets(ids: Ids, s: Sets, us: seq<Nal>, i: nat)
    requires i < |us| && AllLongEnough(us)
  {
    var a, b := SetsAfter(ids, s, us, i), SetsAfter(ids, s, us, i + 1);
    a.sps != b.sps || a.pps != b.pps
  }

  ghost predicate FlagOf(ids: Ids, s: Sets, us: seq<Nal>, n: nat, update: int)
    requires n <= |us| && AllLongEnough(us)
  {
    (update == 0 || update == 1) && (update == 1 <==> exists i :: 0 <= i < n && ChangesSets(ids, s, us, i))
  }

  lemma {:induction false} KindIs(ids: Ids, s: Sets, us: seq<Nal>, n: nat, capacity: nat)
    requires n <= |us| && AllLongEnough(us)
    ensures KindOf(us, n, PackAll(ids, Packed(s, 0, 0, 0, []), us, n, capacity).vcl)
  {
    hide UpdateSets, LongEnough, BE32, KindOf, VclOf;
    if n == 0 {
      KindOn(us, 0, 0, 0);
    } else {
      KindIs(ids, s, us, n - 1, capacity);
      var c := PackAll(ids, Packed(s, 0, 0, 0, []), us, n - 1, capacity);
      assert us[n - 1] in us;
      OneKind(us[n - 1], c.vcl);
      KindOn(us, n, c.vcl, VclOf(us[n - 1], c.vcl));
    }
  }

  /** The kind so far, and the kind with one unit more. */
  lemma KindOn(us: seq<Nal>, n: nat, before: int, now: int)
    requires n <= |us| && (n == 0 ==> now == 0) && (n > 0 ==> KindOf(us, n - 1, before))
    requires n > 0 ==> now == if !IsSlice(us[n - 1]) then before else if IsIdrSlice(us[n - 1]) then 1 else 2
    ensures KindOf(us, n, now)
  {
    hide NoSlice, LastSlice, IsIdrSlice, IsSlice;
    if n > 0 {
      SliceStep(us, n);
    } else {
      NoneIn(us);
    }
  }

  lemma NoneIn(us: seq<Nal>)
    ensures NoSlice(us, 0) && forall i: nat :: !LastSlice(us, 0, i)
  {
  }

  lemma SliceStep(us: seq<Nal>, n: nat)
    requires 0 < n <= |us|
    ensures NoSlice(us, n) <==> NoSlice(us, n - 1) && !IsSlice(us[n - 1])
    ensures forall i: nat :: LastSlice(us, n, i) <==> if IsSlice(us[n - 1]) then i == n - 1 else LastSlice(us, n - 1, i)
  {
    hide IsSlice;
  }

  lemma OneKind(u: Nal, vcl: int)
    requires LongEnough(u)
    ensures u != [] && VclOf(u, vcl) == if !IsSlice(u) then vcl else if IsIdrSlice(u) then 1 else 2
  {
  }

  /** A copy that reports a change changed the list, and one that reports none or a failure did not. */
  lemma UpdateReports(ids: Ids, s: Sets, u: Nal)
    requires LongEnough(u)
    ensures var o := UpdateSets(ids, s, u);
            o.r == 1 <==> o.sets.sps != s.sps || o.sets.pps != s.pps
  {
    if NalType(u) == NAL_PPS {
      var k := IndexOf(s.pps, ids.ppsId, ids.ppsId(u), 0);
      if k == |s.pps| && |s.pps| + 1 >= MAX_PPS {
        assert ids.ppsId(s.pps[0]) != ids.ppsId(u);
      }
    }
  }

  lemma {:induction false} FlagIs(ids: Ids, s: Sets, us: seq<Nal>, n: nat, capacity: nat)
    requires n <= |us| && AllLongEnough(us)
    ensures var c := PackAll(ids, Packed(s, 0, 0, 0, []), us, n, capacity);
            c.sets == SetsAfter(ids, s, us, n) && FlagOf(ids, s, us, n, c.update)
  {
    hide UpdateSets, LongEnough, BE32, VclOf;
    if n > 0 {
      FlagIs(ids, s, us, n - 1, capacity);
      assert us[n - 1] in us;
      UpdateReports(ids, SetsAfter(ids, s, us, n - 1), us[n - 1]);
      assert SetsAfter(ids, s, us, n) == UpdateSets(ids, SetsAfter(ids, s, us, n - 1), us[n - 1]).sets;
      if ChangesSets(ids, s, us, n - 1) {
        assert exists i :: 0 <= i < n && ChangesSets(ids, s, us, i);
      }
    }
  }

  /** Writes bs to out[at..]. */
  method CopyTo(out: array<byte>, at: nat, bs: seq<byte>)
    requires at + |bs| <= out.Length
    modifies out
    ensures out[..at + |bs|] == old(out[..at]) + bs
    ensures out[at + |bs|..] == old(out[at + |bs|..])
  {
    var i := 0;
    while i < |bs|
      invariant 0 <= i <= |bs| && forall k :: 0 <= k < out.Length ==> out[k] == if at <= k < at + i then bs[k - at] else old(out[k])
    {
      out[at + i] := bs[i];
      i := i + 1;
    }
  }

  /** h264_handler */
  method HandlePack(store: Store, u: Nal, out: array<byte>, bytes: nat, errcode: int, update: int, vcl: int)
    returns (bytes': nat, errcode': int, update': int, vcl': int)
    requires store.Valid() && LongEnough(u) && Fits(store.ids, store.Now(), u)
    requires bytes <= out.Length && out != store.data
    modifies store, store.data, out
    ensures store.Valid() && bytes' <= out.Length && store.nalu == old(store.nalu)
    ensures Packed(store.Now(), errcode', update', vcl', out[..bytes'])
      == PackUnit(store.ids, Packed(old(store.Now()), errcode, update, vcl, old(out[..bytes])), u, out.Length)
  {
    hide UpdateSets, Fits, Tiled, BE32;
    bytes', errcode', update', vcl' := bytes, errcode, update, vcl;
    var nalType := NalType(u);
    var r := store.Update(u);
    if r == 1 {
      update' := 1;
    } else if r < 0 {
      errcode' := r;
    }
    if 1 <= nalType <= NAL_IDR {
      vcl' := if nalType == NAL_IDR then 1 else 2;
    }
    if out.Length >= bytes + |u| + 4 {
      ghost var s := store.Now();
      CopyTo(out, bytes, BE32(|u| % TWO_32) + u);
      SameStore(store, s);
      assert old(out[..bytes]) + (BE32(|u| % TWO_32) + u) == old(out[..bytes]) + BE32(|u| % TWO_32) + u;
      bytes' := bytes + |u| + 4;
    } else {
      errcode' := -E2BIG;
    }
  }

  lemma SameStore(store: Store, s: Sets)
    requires store.Valid() && store.Now() == s
    ensures store.Now() == s
  {
  }

  /** h264_annexbtomp4; the three results are the length, the frame kind and whether a set changed. */
  method AnnexbToMp4(store: Store, d: seq<byte>, out: array<byte>) returns (r: int, vcl: int, update: int)
    requires store.Valid() && out != store.data && AllLongEnough(Units(d))
    requires AllFit(store.ids, Packed(store.Now(), 0, 0, 0, []), Units(d), out.Length)
    modifies store, store.data, out
    ensures store.Valid() && store.nalu == 4
    ensures var us := Units(d);
            var c := PackAll(store.ids, Packed(old(store.Now()), 0, 0, 0, []), us, |us|, out.Length);
            && store.Now() == c.sets && vcl == c.vcl && update == c.update
            && r == (if c.errcode == 0 then |c.out| else 0)
            && |c.out| <= out.Length && out[..|c.out|] == c.out
    ensures KindOf(Units(d), |Units(d)|, vcl)
    ensures FlagOf(store.ids, old(store.Now()), Units(d), |Units(d)|, update)
  {
    hide PackUnit, Units, Fits, Tiled, LongEnough, KindOf, FlagOf;
    var us := Split(d);
    ghost var start := Packed(store.Now(), 0, 0, 0, []);
    var bytes: nat, errcode: int := 0, 0;
    vcl, update := 0, 0;
    assert out[..0] == [];
    var i := 0;
    while i < |us|
      invariant 0 <= i <= |us| && store.Valid() && bytes <= out.Length
      invariant Packed(store.Now(), errcode, update, vcl, out[..bytes]) == PackAll(store.ids, start, us, i, out.Length)
    {
      bytes, errcode, update, vcl := HandlePack(store, us[i], out, bytes, errcode, update, vcl);
      i := i + 1;
    }
    KindIs(store.ids, start.sets, us, |us|, out.Length);
    FlagIs(store.ids, start.sets, us, |us|, out.Length);
    ghost var s := store.Now();
    store.nalu := 4;
    SameStore(store, s);
    r := if errcode == 0 then bytes else 0;
  }

  /** No parameter set among the first n units is turned down. */
  predicate NoneRejected(ids: Ids, s: Sets, us: seq<Nal>, n: nat)
    requires n <= |us| && AllLongEnough(us)
  {
    forall i :: 0 <= i < n ==> UpdateSets(ids, SetsAfter(ids, s, us, i), us[i]).r >= 0
  }

  lemma AvccFirst(us: seq<Nal>)
    requires AllSized(us) && us != []
    ensures AllSized(us[1..]) && Avcc(us) == BE32(|us[0]|) + us[0] + Avcc(us[1..])
  {
    hide BE32;
    assert forall x :: x in us[1..] ==> x in us;
  }

  lemma {:induction false} AvccSnoc(us: seq<Nal>, u: Nal)
    requires AllSized(us) && 0 < |u| < TWO_31
    ensures AllSized(us + [u]) && Avcc(us + [u]) == Avcc(us) + BE32(|u|) + u
    decreases |us|
  {
    hide BE32, Avcc;
    if us == [] {
      NoUnits();
      AvccFirst([u]);
      assert us + [u] == [u] && [u][1..] == [];
    } else {
      AvccFirst(us);
      AvccSnoc(us[1..], u);
      assert (us + [u])[1..] == us[1..] + [u];
      AvccFirst(us + [u]);
      Append(BE32(|us[0]|) + us[0], Avcc(us[1..]), BE32(|u|));
    }
  }

  lemma PackStep(ids: Ids, c: Packed, u: Nal, capacity: nat)
    requires LongEnough(u) && 0 < |u| < TWO_31
    ensures var e, r := PackUnit(ids, c, u, capacity), UpdateSets(ids, c.sets, u);
            && e.sets == r.sets
            && (e.errcode == 0 <==> c.errcode == 0 && |c.out| + |u| + 4 <= capacity && r.r >= 0)
            && (e.errcode == 0 ==> e.out == c.out + BE32(|u|) + u)
  {
    hide UpdateSets, BE32;
  }

  /** A failure is never forgotten; without one, the output is the units behind their lengths. */
  lemma {:induction false} PackedSoFar(ids: Ids, s: Sets, us: seq<Nal>, n: nat, capacity: nat)
    requires n <= |us| && AllLongEnough(us) && AllSized(us)
    ensures AllSized(us[..n])
    ensures var c := PackAll(ids, Packed(s, 0, 0, 0, []), us, n, capacity);
            && c.sets == SetsAfter(ids, s, us, n)
            && (c.errcode == 0 <==> |Avcc(us[..n])| <= capacity && NoneRejected(ids, s, us, n))
            && (c.errcode == 0 ==> c.out == Avcc(us[..n]))
  {
    hide UpdateSets, LongEnough, BE32, PackUnit, Avcc;
    if n == 0 {
      NoUnits();
      assert us[..0] == [];
    } else {
      PackedSoFar(ids, s, us, n - 1, capacity);
      var u := us[n - 1];
      assert u in us;
      AvccSnoc(us[..n - 1], u);
      assert us[..n] == us[..n - 1] + [u];
      PackStep(ids, PackAll(ids, Packed(s, 0, 0, 0, []), us, n - 1, capacity), u, capacity);
      MoreRejected(ids, s, us, n);
    }
  }

  lemma NoUnits()
    ensures Avcc([]) == []
  {
  }

  lemma MoreRejected(ids: Ids, s: Sets, us: seq<Nal>, n: nat)
    requires 0 < n <= |us| && AllLongEnough(us)
    ensures NoneRejected(ids, s, us, n) <==>
      NoneRejected(ids, s, us, n - 1) && UpdateSets(ids, SetsAfter(ids, s, us, n - 1), us[n - 1]).r >= 0
  {
    hide UpdateSets, SetsAfter;
  }

  /**
   * The conversion succeeds exactly when the output fits and no parameter set is turned down; it then
   * yields exactly the units, each behind its length.
   */
  lemma PackResult(ids: Ids, s: Sets, us: seq<Nal>, capacity: nat)
    requires AllLongEnough(us) && AllSized(us)
    ensures var c := PackAll(ids, Packed(s, 0, 0, 0, []), us, |us|, capacity);
            && (c.errcode == 0 <==> |Avcc(us)| <= capacity && NoneRejected(ids, s, us, |us|))
            && (c.errcode == 0 ==> c.out == Avcc(us))
  {
    PackedSoFar(ids, s, us, |us|, capacity);
    assert us[..|us|] == us;
  }

  /** Unit i is the last of type `kind` with its id among the first n. */
  predicate LastWithId(us: seq<Nal>, n: nat, i: nat, kind: nat, idOf: Nal -> nat)
    requires n <= |us|
  {
    && i < n && us[i] != [] && us[i][0] % 32 == kind
    && forall k :: i < k < n && us[k] != [] && us[k][0] % 32 == kind ==> idOf(us[k]) != idOf(us[i])
  }

  /** None of the first n units pushes the oldest pps out. */
  predicate NonePushedOut(ids: Ids, s: Sets, us: seq<Nal>, n: nat)
    requires n <= |us| && AllLongEnough(us)
  {
    forall i :: 0 <= i < n && us[i] != [] && us[i][0] % 32 == 8 ==>
      var t := SetsAfter(ids, s, us, i); !ReplacesOldest(ids, t.pps, |t.sps|, us[i])
  }

  lemma StepMaps(ids: Ids, t: Sets, u: Nal)
    requires LongEnough(u) && DistinctIds(t.sps, ids.spsId) && DistinctIds(t.pps, ids.ppsId)
    requires UpdateSets(ids, t, u).r >= 0 && (u[0] % 32 == 8 ==> !ReplacesOldest(ids, t.pps, |t.sps|, u))
    ensures var w := UpdateSets(ids, t, u).sets;
            && DistinctIds(w.sps, ids.spsId) && DistinctIds(w.pps, ids.ppsId)
            && MapOf(w.sps, ids.spsId)
               == (if u[0] % 32 == 7 then MapOf(t.sps, ids.spsId)[ids.spsId(u) := u] else MapOf(t.sps, ids.spsId))
            && MapOf(w.pps, ids.ppsId)
               == if u[0] % 32 == 8 then MapOf(t.pps, ids.ppsId)[ids.ppsId(u) := u] else MapOf(t.pps, ids.ppsId)
  {
    hide SpsOutcome, PpsOutcome, MapOf, DistinctIds, ReplacesOldest;
    SpsUpdatesMap(ids, t.sps, t.off, u);
    PpsUpdatesMap(ids, t.pps, |t.sps|, t.off, u);
  }

  /**
   * After any units of which none is turned down, and none pushes a pps out, the store holds under each id the last
   * set of the stream with that id, and under the other ids what it held before.
   */
  lemma {:induction false} LastSetsWin(ids: Ids, s: Sets, us: seq<Nal>, n: nat)
    requires n <= |us| && AllLongEnough(us) && DistinctIds(s.sps, ids.spsId) && DistinctIds(s.pps, ids.ppsId)
    requires NoneRejected(ids, s, us, n) && NonePushedOut(ids, s, us, n)
    ensures var t := SetsAfter(ids, s, us, n);
            && DistinctIds(t.sps, ids.spsId) && DistinctIds(t.pps, ids.ppsId)
            && Wins(us, n, 7, ids.spsId, MapOf(s.sps, ids.spsId), MapOf(t.sps, ids.spsId))
            && Wins(us, n, 8, ids.ppsId, MapOf(s.pps, ids.ppsId), MapOf(t.pps, ids.ppsId))
  {
    hide UpdateSets, MapOf, DistinctIds, ReplacesOldest, LongEnough, Wins;
    if n == 0 {
      NobodyWins(us, 7, ids.spsId, MapOf(s.sps, ids.spsId));
      NobodyWins(us, 8, ids.ppsId, MapOf(s.pps, ids.ppsId));
    } else {
      LastSetsWin(ids, s, us, n - 1);
      var t, u := SetsAfter(ids, s, us, n - 1), us[n - 1];
      assert u in us;
      NotEmpty(u);
      StepMaps(ids, t, u);
      var w := SetsAfter(ids, s, us, n);
      WinsOn(us, n, 7, ids.spsId, MapOf(s.sps, ids.spsId), MapOf(t.sps, ids.spsId), MapOf(w.sps, ids.spsId));
      WinsOn(us, n, 8, ids.ppsId, MapOf(s.pps, ids.ppsId), MapOf(t.pps, ids.ppsId), MapOf(w.pps, ids.ppsId));
    }
  }

  lemma NotEmpty(u: Nal)
    requires LongEnough(u)
    ensures u != []
  {
  }

  /** The later map holds the last units of a type, and the earlier map where there is none. */
  ghost predicate Wins(us: seq<Nal>, n: nat, kind: nat, idOf: Nal -> nat, a: map<nat, Nal>, b: map<nat, Nal>)
    requires n <= |us|
  {
    && (forall i: nat :: LastWithId(us, n, i, kind, idOf) ==> idOf(us[i]) in b && b[idOf(us[i])] == us[i])
    && forall id :: (forall i :: 0 <= i < n && us[i] != [] && us[i][0] % 32 == kind ==> idOf(us[i]) != id) ==>
         (id in b <==> id in a) && (id in a && id in b ==> a[id] == b[id])
  }

  lemma NobodyWins(us: seq<Nal>, kind: nat, idOf: Nal -> nat, a: map<nat, Nal>)
    ensures Wins(us, 0, kind, idOf, a, a)
  {
  }

  lemma WinsOn(us: seq<Nal>, n: nat, kind: nat, idOf: Nal -> nat, a: map<nat, Nal>, b: map<nat, Nal>, c: map<nat, Nal>)
    requires 0 < n <= |us| && us[n - 1] != [] && Wins(us, n - 1, kind, idOf, a, b)
    requires c == if us[n - 1][0] % 32 == kind then b[idOf(us[n - 1]) := us[n - 1]] else b
    ensures Wins(us, n, kind, idOf, a, c)
  {
    forall i: nat | LastWithId(us, n, i, kind, idOf)
      ensures idOf(us[i]) in c && c[idOf(us[i])] == us[i]
    {
      assert i < n - 1 ==> LastWithId(us, n - 1, i, kind, idOf);
    }
  }

  /** The stored ids stay distinct, whatever stream is converted. */
  lemma {:induction false} IdsStayDistinct(ids: Ids, s: Sets, us: seq<Nal>, n: nat)
    requires n <= |us| && AllLongEnough(us) && DistinctIds(s.sps, ids.spsId) && DistinctIds(s.pps, ids.ppsId)
    ensures var t := SetsAfter(ids, s, us, n); DistinctIds(t.sps, ids.spsId) && DistinctIds(t.pps, ids.ppsId)
  {
    hide SpsOutcome, PpsOutcome, MapOf, DistinctIds, ReplacesOldest;
    if n > 0 {
      IdsStayDistinct(ids, s, us, n - 1);
      var t, u := SetsAfter(ids, s, us, n - 1), us[n - 1];
      SpsUpdatesMap(ids, t.sps, t.off, u);
      PpsUpdatesMap(ids, t.pps, |t.sps|, t.off, u);
    }
  }

  /**
   * From start codes the units always come out. From lengths the same units come out exactly when neither
   * the first nor the last is a single byte, or all of them are: single bytes alone are both forms at once.
   */
  lemma EitherFormGivesTheSameUnits(us: seq<Nal>)
    requires AllClean(us)
    ensures AllSized(us) && Units(Annexb(us)) == us
    ensures AllSingle(us) || EndsLong(us) ==> Units(Avcc(us)) == us
    ensures AllShort(us) ==> (Units(Avcc(us)) == us <==> AllSingle(us) || EndsLong(us))
    ensures Format(Avcc(us)) == 4 <==> EndsLong(us)
  {
    hide Annexb, Avcc, Units;
    CleanSized(us);
    AnnexbRoundTrip(us);
    AvccIsDetectedIff(us);
    if EndsLong(us) {
      AvccRoundTrip(us);
    } else if AllSingle(us) {
      SinglesJoined(us);
    }
    if AllShort(us) {
      LengthsSurviveIff(us);
    }
  }

  // ---------- lengths to start codes ----------

  /** A stored set as mpeg4_avc_to_nalu writes it: behind a start code, unless it begins with one. */
  predicate BeginsWithCode(u: Nal)
  {
    |u| >= 4 && u[0] == 0 && u[1] == 0 && (u[2] == 1 || (u[2] == 0 && u[3] == 1))
  }

  predicate Plain(us: seq<Nal>) { forall u :: u in us ==> !BeginsWithCode(u) }

  /** The handler's state; `inserted` is sps_pps_flag. */
  datatype Unpacked = Unpacked(inserted: bool, errcode: int, out: seq<byte>)

  predicate IsSet(u: Nal)
    requires u != []
  {
    NalType(u) == NAL_SPS || NalType(u) == NAL_PPS
  }

  predicate IsIdr(u: Nal)
    requires u != []
  {
    NalType(u) == NAL_IDR
  }

  function EmitUnit(c: Unpacked, u: Nal, capacity: nat): Unpacked
  {
    if |c.out| + |u| + 4 > capacity then c.(errcode := -E2BIG) else c.(out := c.out + START_CODE + u)
  }

  /** h264_mp4toannexb_handler; `sets` are the stored sets behind start codes. */
  function UnpackUnit(sets: seq<byte>, c: Unpacked, u: Nal, capacity: nat): Unpacked
    requires u != []
  {
    if IsSet(u) then EmitUnit(c.(inserted := true), u, capacity)
    else if IsIdr(u) && !c.inserted then
      if |c.out| > 0 && |sets| + |c.out| > capacity then c.(errcode := -E2BIG)
      else if sets == [] then c.(errcode := -EINVAL)
      else EmitUnit(Unpacked(true, c.errcode, sets + c.out), u, capacity)
    else EmitUnit(c, u, capacity)
  }

  predicate NoneEmpty(us: seq<Nal>) { forall i :: 0 <= i < |us| ==> us[i] != [] }

  function UnpackAll(sets: seq<byte>, c: Unpacked, us: seq<Nal>, n: nat, capacity: nat): Unpacked
    requires n <= |us| && NoneEmpty(us)
  {
    if n == 0 then c else UnpackUnit(sets, UnpackAll(sets, c, us, n - 1, capacity), us[n - 1], capacity)
  }

  /** Units by their length fields from byte p on, and whether the rest is malformed. */
  datatype Framed = Framed(us: seq<Nal>, bad: bool)

  /** A length of 1, or a length field of no bytes, means that start codes follow after all. */
  function FramesFrom(d: seq<byte>, p: nat, w: nat): Framed
    requires p <= |d| && w <= 4
    decreases |d| - p
  {
    if p + w >= |d| then Framed([], false)
    else
      var n := ToI32(LengthAt(d, p, w) % TWO_32);
      if w == 0 || (n == 1 && w >= 3) then Framed(Units(d[p..]), false)
      else if n <= 0 || p + n + w > |d| then Framed([], true)
      else
        var f := FramesFrom(d, p + n + w, w);
        Framed([d[p + w..p + w + n]] + f.us, f.bad)
  }

  lemma {:induction false} AnnexbSnoc(us: seq<Nal>, u: Nal)
    ensures Annexb(us + [u]) == Annexb(us) + START_CODE + u
  {
    if us == [] {
      assert Annexb([u][1..]) == [];
    } else {
      AnnexbSnoc(us[1..], u);
      assert (us + [u])[1..] == us[1..] + [u];
    }
  }

  lemma {:induction false} AnnexbJoin(us: seq<Nal>, vs: seq<Nal>)
    ensures Annexb(us + vs) == Annexb(us) + Annexb(vs)
  {
    if us == [] {
      assert [] + vs == vs;
    } else {
      AnnexbJoin(us[1..], vs);
      assert (us + vs)[1..] == us[1..] + vs;
    }
  }

  lemma AnnexbPrefix(us: seq<Nal>, i: nat)
    requires i < |us|
    ensures Annexb(us[..i + 1]) == Annexb(us[..i]) + START_CODE + us[i]
    ensures |Annexb(us[..i + 1])| <= |Annexb(us)|
  {
    AnnexbSnoc(us[..i], us[i]);
    assert us[..i + 1] == us[..i] + [us[i]];
    AnnexbJoin(us[..i + 1], us[i + 1..]);
    assert us[..i + 1] + us[i + 1..] == us;
  }

  /** The stored sets behind start codes, the sps first. */
  ghost function StoredBytes(store: Store): seq<byte>
    requires store.Valid()
    reads store, store.data
  {
    Annexb(store.Sps()) + Annexb(store.Pps())
  }

  ghost predicate PlainStore(store: Store)
    requires store.Valid()
    reads store, store.data
  {
    Plain(store.Sps()) && Plain(store.Pps())
  }

  /** One of the two loops of h264_sps_pps_size. */
  method SizeOfSets(store: Store, ss: seq<Slice>) returns (n: nat)
    requires Within(ss, store.data.Length)
    ensures n == |Annexb(Contents(store.data[..], ss))|
  {
    hide Annexb;
    ghost var us := Contents(store.data[..], ss);
    n := 0;
    var i := 0;
    assert us[..0] == [];
    NothingJoined();
    while i < |ss|
      invariant 0 <= i <= |ss| && n == |Annexb(us[..i])|
    {
      AnnexbPrefix(us, i);
      assert |us[i]| == ss[i].len;
      n := n + (ss[i].len + 4);
      i := i + 1;
    }
    assert us[..|us|] == us;
  }

  lemma NothingJoined()
    ensures Annexb([]) == []
  {
  }

  /** One of the two loops of mpeg4_avc_to_nalu, where everything fits and no set begins with a start code. */
  method PutSets(store: Store, ss: seq<Slice>, out: array<byte>, at: nat) returns (k: nat)
    requires Within(ss, store.data.Length) && out != store.data && Plain(Contents(store.data[..], ss))
    requires at + |Annexb(Contents(store.data[..], ss))| <= out.Length
    modifies out
    ensures k == at + |Annexb(Contents(store.data[..], ss))|
    ensures out[..k] == old(out[..at]) + Annexb(Contents(store.data[..], ss))
    ensures out[k..] == old(out[k..])
  {
    hide Annexb, Content;
    ghost var us := Contents(store.data[..], ss);
    k := at;
    var i := 0;
    assert us[..0] == [];
    NothingJoined();
    assert old(out[..at]) + [] == old(out[..at]);
    while i < |ss|
      invariant 0 <= i <= |ss| && k == at + |Annexb(us[..i])| <= out.Length
      invariant out[..k] == old(out[..at]) + Annexb(us[..i])
      invariant out[k..] == old(out[k..])
    {
      AnnexbPrefix(us, i);
      var u := store.Stored(ss[i]);
      StoredSet(store, ss, i);
      assert us[i] in us;
      Append(old(out[..at]), Annexb(us[..i]), START_CODE + u);
      Append(old(out[..at]) + Annexb(us[..i]), START_CODE, u);
      Append(Annexb(us[..i]), START_CODE, u);
      CopyTo(out, k, START_CODE + u);
      k := k + 4 + |u|;
      i := i + 1;
    }
    assert us[..|us|] == us;
  }

  lemma StoredSet(store: Store, ss: seq<Slice>, i: nat)
    requires Within(ss, store.data.Length) && i < |ss|
    ensures store.Stored(ss[i]) == Contents(store.data[..], ss)[i]
  {
  }

  /** memmove of the first `bytes` bytes to byte n. */
  method ShiftUp(out: array<byte>, n: nat, bytes: nat)
    requires n + bytes <= out.Length
    modifies out
    ensures out[n..n + bytes] == old(out[..bytes])
  {
    var i := bytes;
    while i > 0
      invariant 0 <= i <= bytes
      invariant forall k :: 0 <= k < i ==> out[k] == old(out[k])
      invariant forall k :: n + i <= k < n + bytes ==> out[k] == old(out[k - n])
    {
      i := i - 1;
      out[n + i] := out[i];
    }
  }

  /** mpeg4_avc_to_nalu into a buffer that is large enough. */
  method PutStored(store: Store, out: array<byte>) returns (n: nat)
    requires store.Valid() && out != store.data && PlainStore(store) && |StoredBytes(store)| <= out.Length
    modifies out
    ensures n == |StoredBytes(store)| && out[..n] == StoredBytes(store) && out[n..] == old(out[n..])
  {
    hide Annexb, Tiled, Plain;
    SplitContents(store.data[..], store.sps, store.pps, store.off);
    var k := PutSets(store, store.sps, out, 0);
    n := PutSets(store, store.pps, out, k);
    assert old(out[..0]) == [];
  }

  /** h264_sps_pps_size */
  method SizeOfStored(store: Store) returns (n: nat)
    requires store.Valid()
    ensures n == |StoredBytes(store)|
  {
    hide Annexb, Tiled;
    SplitContents(store.data[..], store.sps, store.pps, store.off);
    var x := SizeOfSets(store, store.sps);
    var y := SizeOfSets(store, store.pps);
    n := x + y;
  }

  /** The stored sets in front of what has been written so far. */
  method InsertSets(store: Store, out: array<byte>, bytes: nat) returns (errcode: int, bytes': nat)
    requires store.Valid() && out != store.data && PlainStore(store) && |StoredBytes(store)| <= out.Length
    requires bytes <= out.Length
    modifies out
    ensures var sets := StoredBytes(store);
            if bytes > 0 && |sets| + bytes > out.Length then errcode == -E2BIG && bytes' == bytes && out[..bytes] == old(out[..bytes])
            else if sets == [] then errcode == -EINVAL && bytes' == bytes && out[..bytes] == old(out[..bytes])
            else errcode == 0 && bytes' == |sets| + bytes <= out.Length && out[..bytes'] == sets + old(out[..bytes])
  {
    hide StoredBytes, PlainStore;
    bytes' := bytes;
    ghost var was, sets := out[..bytes], StoredBytes(store);
    if bytes > 0 {
      var size := SizeOfStored(store);
      if size + bytes > out.Length {
        return -E2BIG, bytes;
      }
      ShiftUp(out, size, bytes);
      assert out[|sets|..][..bytes] == was;
    }
    assert bytes > 0 ==> |sets| + bytes <= out.Length;
    var n := PutStored(store, out);
    assert bytes > 0 ==> out[n..][..bytes] == was;
    if n == 0 {
      assert out[0..] == out[..];
      return -EINVAL, bytes;
    }
    errcode := 0;
    bytes' := n + bytes;
    assert out[..bytes'] == out[..n] + out[n..][..bytes];
  }

  /** h264_mp4toannexb_handler */
  method HandleUnpack(store: Store, u: Nal, out: array<byte>, bytes: nat, inserted: bool, errcode: int)
    returns (bytes': nat, inserted': bool, errcode': int)
    requires store.Valid() && out != store.data && PlainStore(store) && |StoredBytes(store)| <= out.Length
    requires u != [] && bytes <= out.Length
    modifies out
    ensures bytes' <= out.Length
    ensures Unpacked(inserted', errcode', out[..bytes'])
      == UnpackUnit(StoredBytes(store), Unpacked(inserted, errcode, old(out[..bytes])), u, out.Length)
  {
    hide StoredBytes, PlainStore;
    bytes', inserted', errcode' := bytes, inserted, errcode;
    var nalType := NalType(u);
    if nalType == NAL_SPS || nalType == NAL_PPS {
      inserted' := true;
    } else if nalType == NAL_IDR && !inserted {
      var r;
      r, bytes' := InsertSets(store, out, bytes);
      if r != 0 {
        errcode' := r;
        return;
      }
      inserted' := true;
    }
    if bytes' + |u| + 4 > out.Length {
      errcode' := -E2BIG;
      return;
    }
    ghost var was := out[..bytes'];
    CopyTo(out, bytes', START_CODE + u);
    Append(was, START_CODE, u);
    bytes' := bytes' + 4 + |u|;
  }

  lemma {:induction false} UnpackSame(sets: seq<byte>, c: Unpacked, us: seq<Nal>, vs: seq<Nal>, n: nat, capacity: nat)
    requires n <= |us| && n <= |vs| && NoneEmpty(us) && NoneEmpty(vs) && forall i :: 0 <= i < n ==> us[i] == vs[i]
    ensures UnpackAll(sets, c, us, n, capacity) == UnpackAll(sets, c, vs, n, capacity)
  {
    hide UnpackUnit;
    if n > 0 {
      UnpackSame(sets, c, us, vs, n - 1, capacity);
    }
  }

  function UnpackList(sets: seq<byte>, us: seq<Nal>, capacity: nat): Unpacked
    requires NoneEmpty(us)
  {
    UnpackAll(sets, Unpacked(false, 0, []), us, |us|, capacity)
  }

  lemma UnpackSnoc(sets: seq<byte>, us: seq<Nal>, u: Nal, capacity: nat)
    requires NoneEmpty(us) && u != []
    ensures NoneEmpty(us + [u])
    ensures UnpackList(sets, us + [u], capacity) == UnpackUnit(sets, UnpackList(sets, us, capacity), u, capacity)
  {
    hide UnpackUnit;
    UnpackSame(sets, Unpacked(false, 0, []), us + [u], us, |us|, capacity);
  }

  lemma {:induction false} AvccUnitsNonEmpty(d: seq<byte>, p: nat, w: nat)
    requires p <= |d| && w > 0
    ensures NoneEmpty(AvccUnits(d, p, w))
    decreases |d| - p
  {
    hide LengthAt;
    if w < |d| - p && p + w + LengthAt(d, p, w) <= |d| {
      AvccUnitsNonEmpty(d, p + w + LengthAt(d, p, w), w);
    }
  }

  lemma {:induction false} SplitNonEmpty(d: seq<byte>, p: nat)
    requires p <= |d|
    ensures NoneEmpty(SplitFrom(d, p))
    decreases |d| - p
  {
    hide NextStart, Trimmed;
    if NextStart(d, p) != -1 {
      SplitNonEmpty(d, NextStart(d, p));
    }
  }

  lemma UnitsNonEmpty(d: seq<byte>)
    ensures NoneEmpty(Units(d))
  {
    hide NextStart;
    if Format(d) > 0 {
      AvccUnitsNonEmpty(d, 0, Format(d));
    } else if NextStart(d, 0) != -1 {
      SplitNonEmpty(d, NextStart(d, 0));
    }
  }

  lemma {:induction false} FramesNonEmpty(d: seq<byte>, p: nat, w: nat)
    requires p <= |d| && w <= 4
    ensures NoneEmpty(FramesFrom(d, p, w).us)
    decreases |d| - p
  {
    hide LengthAt, Units;
    if p + w < |d| {
      var n := ToI32(LengthAt(d, p, w) % TWO_32);
      if w == 0 || (n == 1 && w >= 3) {
        UnitsNonEmpty(d[p..]);
      } else if n > 0 && p + n + w <= |d| {
        FramesNonEmpty(d, p + n + w, w);
      }
    }
  }

  /** The handler on a list of units, behind those that are done. */
  method HandleEach(store: Store, us: seq<Nal>, out: array<byte>, bytes: nat, inserted: bool, errcode: int,
                    ghost done: seq<Nal>)
    returns (bytes': nat, inserted': bool, errcode': int)
    requires store.Valid() && out != store.data && PlainStore(store) && |StoredBytes(store)| <= out.Length
    requires NoneEmpty(us) && NoneEmpty(done) && bytes <= out.Length
    requires Unpacked(inserted, errcode, out[..bytes]) == UnpackList(StoredBytes(store), done, out.Length)
    modifies out
    ensures bytes' <= out.Length && NoneEmpty(done + us)
    ensures Unpacked(inserted', errcode', out[..bytes']) == UnpackList(StoredBytes(store), done + us, out.Length)
  {
    hide StoredBytes, PlainStore, UnpackUnit, UnpackList;
    bytes', inserted', errcode' := bytes, inserted, errcode;
    var i := 0;
    assert done + us[..0] == done;
    while i < |us|
      invariant 0 <= i <= |us| && bytes' <= out.Length && NoneEmpty(done + us[..i])
      invariant Unpacked(inserted', errcode', out[..bytes']) == UnpackList(StoredBytes(store), done + us[..i], out.Length)
    {
      UnpackSnoc(StoredBytes(store), done + us[..i], us[i], out.Length);
      assert done + us[..i] + [us[i]] == done + us[..i + 1];
      bytes', inserted', errcode' := HandleUnpack(store, us[i], out, bytes', inserted', errcode');
      i := i + 1;
    }
    assert us[..|us|] == us;
  }

  lemma FramesStep(d: seq<byte>, p: nat, w: nat, done: seq<Nal>, rest: Framed)
    requires p <= |d| && w <= 4 && rest == FramesFrom(d, p, w)
    ensures p + w >= |d| ==> rest == Framed([], false) && done + [] == done
    ensures p + w < |d| ==>
      var n := ToI32(LengthAt(d, p, w) % TWO_32);
      if w == 0 || (n == 1 && w >= 3) then rest == Framed(Units(d[p..]), false)
      else if n <= 0 || p + n + w > |d| then rest == Framed([], true) && done + [] == done
      else
        var f := FramesFrom(d, p + n + w, w);
        rest == Framed([d[p + w..p + w + n]] + f.us, f.bad) && done + rest.us == done + [d[p + w..p + w + n]] + f.us
  {
    hide LengthAt, Units;
  }

  /** h264_mp4toannexb, with the length fields of the store's width. */
  method Mp4ToAnnexb(store: Store, d: seq<byte>, out: array<byte>) returns (r: int)
    requires store.Valid() && store.nalu <= 4 && out != store.data
    requires PlainStore(store) && |StoredBytes(store)| <= out.Length
    modifies out
    ensures var f := FramesFrom(d, 0, store.nalu);
            && NoneEmpty(f.us)
            && var c := UnpackList(StoredBytes(store), f.us, out.Length);
            && r == (if f.bad then -EINVAL else if c.errcode == 0 then |c.out| else 0)
            && |c.out| <= out.Length && out[..|c.out|] == c.out
  {
    hide StoredBytes, PlainStore, UnpackUnit, UnpackList, LengthAt, Units, FramesFrom;
    var w := store.nalu;
    FramesNonEmpty(d, 0, w);
    var p: nat, bytes: nat, inserted, errcode := 0, 0, false, 0;
    ghost var done: seq<Nal> := [];
    ghost var f := FramesFrom(d, 0, w);
    NothingUnpacked(StoredBytes(store), out.Length);
    assert out[..0] == [];
    while p + w < |d|
      invariant p <= |d| && bytes <= out.Length && NoneEmpty(done)
      invariant f == Framed(done + FramesFrom(d, p, w).us, FramesFrom(d, p, w).bad)
      invariant Unpacked(inserted, errcode, out[..bytes]) == UnpackList(StoredBytes(store), done, out.Length)
      decreases |d| - p
    {
      FramesStep(d, p, w, done, FramesFrom(d, p, w));
      var length := ReadLength(d, p, w);
      var n := ToI32(length % TWO_32);
      if w == 0 || (n == 1 && (w == 3 || w == 4)) {
        var us := Split(d[p..]);
        UnitsNonEmpty(d[p..]);
        bytes, inserted, errcode := HandleEach(store, us, out, bytes, inserted, errcode, done);
        done := done + us;
        return if errcode == 0 then bytes else 0;
      }
      if n <= 0 || p + n + w > |d| {
        return -EINVAL;
      }
      var u := d[p + w..p + w + n];
      UnpackSnoc(StoredBytes(store), done, u, out.Length);
      bytes, inserted, errcode := HandleUnpack(store, u, out, bytes, inserted, errcode);
      done := done + [u];
      p := p + n + w;
    }
    FramesStep(d, p, w, done, FramesFrom(d, p, w));
    r := if errcode == 0 then bytes else 0;
  }

  lemma NothingUnpacked(sets: seq<byte>, capacity: nat)
    ensures UnpackList(sets, [], capacity) == Unpacked(false, 0, [])
  {
  }

  // ---------- what the conversion means ----------

  /** An IDR slice comes before any parameter set. */
  predicate NeedsSets(us: seq<Nal>, n: nat)
    requires n <= |us| && NoneEmpty(us)
  {
    exists k :: 0 <= k < n && IsIdr(us[k]) && forall j :: 0 <= j < k ==> !IsSet(us[j])
  }

  predicate SeenSetOrIdr(us: seq<Nal>, n: nat)
    requires n <= |us| && NoneEmpty(us)
  {
    exists k :: 0 <= k < n && (IsSet(us[k]) || IsIdr(us[k]))
  }

  lemma NeedsStep(us: seq<Nal>, n: nat)
    requires n < |us| && NoneEmpty(us)
    ensures NeedsSets(us, n + 1) <==> (NeedsSets(us, n) || (IsIdr(us[n]) && !SeenSetOrIdr(us, n)))
    ensures SeenSetOrIdr(us, n + 1) <==> (SeenSetOrIdr(us, n) || IsSet(us[n]) || IsIdr(us[n]))
  {
    if NeedsSets(us, n) {
      var k :| 0 <= k < n && IsIdr(us[k]) && forall j :: 0 <= j < k ==> !IsSet(us[j]);
      assert NeedsSets(us, n + 1);
    }
    if SeenSetOrIdr(us, n) {
      var k :| 0 <= k < n && (IsSet(us[k]) || IsIdr(us[k]));
      assert SeenSetOrIdr(us, n + 1);
    }
    if NeedsSets(us, n + 1) && !NeedsSets(us, n) {
      var k :| 0 <= k < n + 1 && IsIdr(us[k]) && forall j :: 0 <= j < k ==> !IsSet(us[j]);
      assert k == n;
      if SeenSetOrIdr(us, n) {
        FirstIdr(us, n);
      }
    }
  }

  /** Without a parameter set, the first IDR slice needs the stored ones. */
  lemma {:induction false} FirstIdr(us: seq<Nal>, n: nat)
    requires n <= |us| && NoneEmpty(us) && SeenSetOrIdr(us, n) && forall j :: 0 <= j < n ==> !IsSet(us[j])
    ensures NeedsSets(us, n)
  {
    var k :| 0 <= k < n && (IsSet(us[k]) || IsIdr(us[k]));
    assert IsIdr(us[k]) && forall j :: 0 <= j < k ==> !IsSet(us[j]);
  }

  function SetsIf(sets: seq<byte>, b: bool): seq<byte> { if b then sets else [] }

  lemma {:induction false} UnpackedSoFar(sets: seq<byte>, us: seq<Nal>, n: nat, capacity: nat)
    requires n <= |us| && NoneEmpty(us) && (sets != [] || !NeedsSets(us, n)) && |sets| + |Annexb(us[..n])| <= capacity
    ensures UnpackAll(sets, Unpacked(false, 0, []), us, n, capacity)
      == Unpacked(SeenSetOrIdr(us, n), 0, SetsIf(sets, NeedsSets(us, n)) + Annexb(us[..n]))
  {
    hide Annexb, NeedsSets, SeenSetOrIdr, IsSet, IsIdr, EmitUnit, NoneEmpty;
    if n == 0 {
      NothingSeen(us);
      NothingJoined();
      assert us[..0] == [];
    } else {
      NeedsStep(us, n - 1);
      AnnexbPrefix(us[..n], n - 1);
      assert us[..n][..n] == us[..n] && us[..n][..n - 1] == us[..n - 1];
      UnpackedSoFar(sets, us, n - 1, capacity);
      NeverBoth(us, n - 1);
      UnpackStep(sets, SeenSetOrIdr(us, n - 1), NeedsSets(us, n - 1), Annexb(us[..n - 1]), us[n - 1], capacity);
    }
  }

  /** One unit behind the units `a`, where nothing went wrong so far. */
  lemma UnpackStep(sets: seq<byte>, seen: bool, needed: bool, a: seq<byte>, u: Nal, capacity: nat)
    requires u != [] && (needed ==> seen) && !(IsSet(u) && IsIdr(u))
    requires sets != [] || !(needed || (IsIdr(u) && !seen))
    requires |sets| + |a| + 4 + |u| <= capacity
    ensures UnpackUnit(sets, Unpacked(seen, 0, SetsIf(sets, needed) + a), u, capacity)
      == Unpacked(seen || IsSet(u) || IsIdr(u), 0, SetsIf(sets, needed || (IsIdr(u) && !seen)) + (a + START_CODE + u))
  {
    hide IsSet, IsIdr;
    assert [] + a == a && [] + (a + START_CODE + u) == a + START_CODE + u;
    assert sets + a + START_CODE + u == sets + (a + START_CODE + u);
  }

  lemma NothingSeen(us: seq<Nal>)
    requires NoneEmpty(us)
    ensures !NeedsSets(us, 0) && !SeenSetOrIdr(us, 0)
  {
  }

  lemma NeverBoth(us: seq<Nal>, n: nat)
    requires n < |us| && NoneEmpty(us)
    ensures NeedsSets(us, n) ==> SeenSetOrIdr(us, n)
    ensures us[n] != [] && !(IsSet(us[n]) && IsIdr(us[n]))
  {
  }

  /**
   * With room for everything, the output is the units behind start codes, and the stored sets come first
   * exactly when an IDR slice comes before any parameter set.
   */
  lemma UnpackResult(sets: seq<byte>, us: seq<Nal>, capacity: nat)
    requires NoneEmpty(us) && (sets != [] || !NeedsSets(us, |us|)) && |sets| + |Annexb(us)| <= capacity
    ensures UnpackList(sets, us, capacity) == Unpacked(SeenSetOrIdr(us, |us|), 0, SetsIf(sets, NeedsSets(us, |us|)) + Annexb(us))
  {
    assert us[..|us|] == us;
    UnpackedSoFar(sets, us, |us|, capacity);
  }

  /** The first k units are longer than a byte, the others are single bytes. */
  predicate LongUpTo(us: seq<Nal>, k: nat)
  {
    && k <= |us|
    && (forall i :: 0 <= i < k ==> |us[i]| >= 2)
    && forall i :: k <= i < |us| ==> |us[i]| == 1
  }

  ghost predicate LongThenSingle(us: seq<Nal>) { exists k: nat :: LongUpTo(us, k) }

  lemma LongThenSingleRest(us: seq<Nal>)
    requires us != [] && |us[0]| >= 2
    ensures LongThenSingle(us) <==> LongThenSingle(us[1..])
  {
    var rest := us[1..];
    assert forall i :: 0 <= i < |rest| ==> rest[i] == us[i + 1];
    if LongThenSingle(us) {
      var k: nat :| LongUpTo(us, k);
      assert LongUpTo(rest, k - 1);
    }
    if LongThenSingle(rest) {
      var k: nat :| LongUpTo(rest, k);
      assert forall i :: 1 <= i < |us| ==> us[i] == rest[i - 1];
      assert LongUpTo(us, k + 1);
    }
  }

  lemma SinglesOnly(us: seq<Nal>)
    requires us == [] || |us[0]| == 1
    ensures LongThenSingle(us) <==> AllSingle(us)
  {
    if AllSingle(us) {
      assert LongUpTo(us, 0);
    }
  }

  function Behind(u: Nal, f: Framed): Framed { Framed([u] + f.us, f.bad) }

  /** One step of mp4toannexb through length-prefixed units: over a single byte, and over a longer unit. */
  lemma FramesAtSingle(d: seq<byte>, pre: seq<byte>, us: seq<Nal>)
    requires AllSized(us) && us != [] && d == pre + Avcc(us) && |us[0]| == 1
    ensures FramesFrom(d, |pre|, 4) == Framed(Units(Avcc(us)), false)
  {
    hide LengthAt, BE32, Units, Avcc, FramesFrom;
    AvccPieces(d, pre, us);
    FramesHead(d, |pre|, us[0]);
    assert d[|pre|..] == Avcc(us);
  }

  lemma FramesAtLong(d: seq<byte>, pre: seq<byte>, us: seq<Nal>)
    requires AllSized(us) && us != [] && d == pre + Avcc(us) && |us[0]| >= 2
    ensures |pre| + 4 + |us[0]| <= |d|
    ensures FramesFrom(d, |pre|, 4) == Behind(us[0], FramesFrom(d, |pre| + 4 + |us[0]|, 4))
  {
    hide LengthAt, BE32, Units, Avcc, FramesFrom, Behind;
    AvccPieces(d, pre, us);
    assert us[0] in us;
    FramesHead(d, |pre|, us[0]);
  }

  lemma FramesHead(d: seq<byte>, p: nat, u: Nal)
    requires 0 < |u| < TWO_31 && p + 4 + |u| <= |d| && LengthAt(d, p, 4) == |u| && d[p + 4..p + 4 + |u|] == u
    ensures |u| == 1 ==> FramesFrom(d, p, 4) == Framed(Units(d[p..]), false)
    ensures |u| >= 2 ==> FramesFrom(d, p, 4) == Behind(u, FramesFrom(d, p + 4 + |u|, 4))
  {
    hide LengthAt, Units;
    SmallLength(|u|);
  }

  /** Length-prefixed units are read as they are when only single bytes follow the first single byte. */
  lemma {:induction false} FramesOfAvcc(d: seq<byte>, pre: seq<byte>, us: seq<Nal>)
    requires AllClean(us) && AllSized(us) && d == pre + Avcc(us)
    ensures LongThenSingle(us) ==> FramesFrom(d, |pre|, 4) == Framed(us, false)
    ensures AllShort(us) && FramesFrom(d, |pre|, 4) == Framed(us, false) ==> LongThenSingle(us)
    decreases |us|
  {
    hide BE32, Units, Avcc, Annexb, Clean, FramesFrom, LongThenSingle, LengthAt;
    if us == [] {
      SinglesOnly(us);
      NoneJoined(us);
      FramesStep(d, |pre|, 4, [], FramesFrom(d, |pre|, 4));
    } else if |us[0]| == 1 {
      SinglesOnly(us);
      FramesAtSingle(d, pre, us);
      EitherFormGivesTheSameUnits(us);
    } else {
      assert us[0] in us;
      LongThenSingleRest(us);
      AvccPieces(d, pre, us);
      FramesAtLong(d, pre, us);
      FramesOfAvcc(d, pre + BE32(|us[0]|) + us[0], us[1..]);
      assert [us[0]] + us[1..] == us;
      assert forall f: seq<Nal> :: ([us[0]] + f)[1..] == f;
    }
  }

  /**
   * mp4toannexb reads length-prefixed units as they are if and only if only single bytes follow the first
   * single byte.
   */
  lemma FramesSurviveIff(us: seq<Nal>)
    requires AllClean(us)
    ensures AllSized(us)
    ensures LongThenSingle(us) ==> FramesFrom(Avcc(us), 0, 4) == Framed(us, false)
    ensures AllShort(us) ==> (FramesFrom(Avcc(us), 0, 4) == Framed(us, false) <==> LongThenSingle(us))
  {
    hide Avcc, Clean, FramesFrom, LongThenSingle;
    CleanSized(us);
    assert [] + Avcc(us) == Avcc(us);
    FramesOfAvcc(Avcc(us), [], us);
  }

  lemma SmallLength(n: nat)
    requires n < TWO_31
    ensures ToI32(n % TWO_32) == n
  {
  }

  /**
   * From lengths to start codes and back: the units come out again, with the stored sets in front exactly
   * when they were needed.
   */
  lemma StartCodesKeepTheUnits(sets: seq<Nal>, us: seq<Nal>, capacity: nat)
    requires AllClean(us) && AllClean(sets) && LongThenSingle(us) && NoneEmpty(us)
    requires (sets != [] || !NeedsSets(us, |us|)) && |Annexb(sets)| + |Annexb(us)| <= capacity
    ensures AllSized(us) && FramesFrom(Avcc(us), 0, 4) == Framed(us, false)
    ensures var c := UnpackList(Annexb(sets), us, capacity);
            c.errcode == 0 && AnnexbUnits(c.out) == (if NeedsSets(us, |us|) then sets else []) + us
  {
    hide Annexb, NeedsSets, SeenSetOrIdr, AnnexbUnits, Clean;
    FramesSurviveIff(us);
    var first: seq<Nal> := if NeedsSets(us, |us|) then sets else [];
    NothingJoined();
    SetsJoined(sets);
    UnpackResult(Annexb(sets), us, capacity);
    AnnexbJoin(first, us);
    AllCleanJoin(first, us);
    AnnexbRoundTrip(first + us);
  }

  lemma CleanSized(us: seq<Nal>)
    requires AllClean(us)
    ensures AllSized(us)
  {
  }

  lemma SetsJoined(sets: seq<Nal>)
    ensures sets != [] ==> Annexb(sets) != []
  {
  }

  lemma AllCleanJoin(us: seq<Nal>, vs: seq<Nal>)
    requires AllClean(us) && AllClean(vs)
    ensures AllClean(us + vs)
  {
    hide Clean;
  }

  /** A single byte in front is taken for a start code, and whatever follows for its content. */
  lemma SingleByteSwallows(x: byte, us: seq<Nal>)
    requires AllSized(us) && Clean([x] + Avcc(us))
    ensures AllSized([[x]] + us) && FramesFrom(Avcc([[x]] + us), 0, 4) == Framed([[x] + Avcc(us)], false)
  {
    hide Clean, BE32, AvccUnits, AnnexbUnits, Annexb, FramesFrom;
    var all: seq<Nal>, u := [[x]] + us, [x] + Avcc(us);
    assert all[1..] == us && all[0] == [x];
    assert [] + Avcc(all) == Avcc(all);
    FramesAtSingle(Avcc(all), [], all);
    SingleFirst(all);
    OneJoined(u);
    CodeIsOne();
    assert Avcc(all) == START_CODE + u;
    AnnexbRoundTrip([u]);
  }

  /** The bound is needed: here a long unit behind a single byte comes back. */
  lemma LateUnitsSurvive(x: byte, u: Nal, v: Nal, w: Nal)
    requires x != 0 && Clean(w) && |w| == 0x100_0001
    requires |u| == 256 && forall i :: 0 <= i < 256 ==> u[i] == i % 2
    requires |v| == 65536 && forall i :: 0 <= i < 65536 ==> v[i] == 1
    ensures var us := [[x], u, v, w];
            AllSized(us) && FramesFrom(Avcc(us), 0, 4) == Framed(us, false) && !LongThenSingle(us)
  {
    hide Clean, BE32, AvccUnits, AnnexbUnits, Annexb, FramesFrom, Avcc, Units;
    var us: seq<Nal> := [[x], u, v, w];
    FourUnitsSurvive(x, u, v, w);
    assert [] + Avcc(us) == Avcc(us);
    FramesAtSingle(Avcc(us), [], us);
    SinglesOnly(us);
    assert |us[1]| != 1;
  }

  lemma CodeIsOne()
    ensures BE32(1) == START_CODE
  {
    assert BE32(1) == [0, 0, 0, 1];
  }

  lemma OneJoined(u: Nal)
    ensures Annexb([u]) == START_CODE + u
  {
    assert [u][1..] == [] && Annexb([]) == [];
  }

  /** For instance, this slice disappears in the unit before it. */
  lemma SingleByteSwallowsTheRest()
    ensures var us: seq<Nal> := [[9], [0x65, 0x88]];
            AllSized(us) && FramesFrom(Avcc(us), 0, 4) == Framed([[9, 0, 0, 0, 2, 0x65, 0x88]], false)
  {
    var rest: seq<Nal> := [[0x65, 0x88]];
    assert rest[1..] == [] && Avcc([]) == [];
    assert BE32(2) == [0, 0, 0, 2];
    assert Avcc(rest) == [0, 0, 0, 2, 0x65, 0x88];
    assert [9] + Avcc(rest) == [9, 0, 0, 0, 2, 0x65, 0x88];
    SingleByteSwallows(9, rest);
    assert [[9]] + rest == [[9], [0x65, 0x88]];
  }
}
