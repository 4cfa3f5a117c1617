/**
 * What mpeg4-annexbtomp4.c makes of units behind length fields when some of them are single bytes, whose
 * length field 00 00 00 01 is a start code.
 */
module UnitForms {
  import opened Bytes
  import opened NalUnits

  const TWO_24: int := 0x100_0000

  predicate AllSingle(us: seq<Nal>) { forall i :: 0 <= i < |us| ==> |us[i]| == 1 }

  /** Neither the first nor the last unit is a single byte. */
  predicate EndsLong(us: seq<Nal>) { us != [] && |us[0]| >= 2 && |us[|us| - 1]| >= 2 }

  /** Below 2^24 bytes, a length field ends in 00 00 01 for a single byte only. */
  predicate AllShort(us: seq<Nal>) { forall u :: u in us ==> |u| < TWO_24 }

  predicate CodeEndsAt(d: seq<byte>, p: nat)
  {
    3 <= p <= |d| && d[p - 3] == 0 && d[p - 2] == 0 && d[p - 1] == 1
  }

  /** What may stand in front of a length field: nothing, or a unit that start codes can delimit. */
  predicate CleanEnd(pre: seq<byte>)
  {
    pre != [] ==> pre[|pre| - 1] != 0 && !CodeEndsAt(pre, |pre|)
  }

  lemma {:induction false} NextStartEndsCode(d: seq<byte>, from: nat)
    ensures NextStart(d, from) != -1 ==> CodeEndsAt(d, NextStart(d, from))
    decreases |d| - from
  {
    if from + 3 < |d| && !StartCodeAt(d, from) {
      NextStartEndsCode(d, from + 1);
    }
  }

  /** Trimming stops behind a nonzero byte, and only zeros are taken away. */
  lemma {:induction false} TrimmedRest(d: seq<byte>, p: nat, e: nat)
    requires p <= e <= |d|
    ensures var n := Trimmed(d, p, e);
            && (n > p ==> d[n - 1] != 0)
            && forall i :: n <= i < e ==> d[i] == 0
    decreases e
  {
    if e > p && d[e - 1] == 0 {
      TrimmedRest(d, p, e - 1);
    }
  }

  /** Where the first length field and its unit lie, byte by byte. */
  lemma FieldAt(d: seq<byte>, pre: seq<byte>, us: seq<Nal>)
    requires AllSized(us) && us != [] && d == pre + Avcc(us)
    ensures var t := |pre| + 4;
            && t + |us[0]| <= |d| && d[|pre|..t] == BE32(|us[0]|) && d[t..t + |us[0]|] == us[0]
            && d[t + |us[0]| - 1] == us[0][|us[0]| - 1]
            && (us[1..] == [] ==> t + |us[0]| == |d|)
            && (pre != [] ==> d[|pre| - 1] == pre[|pre| - 1])
  {
    hide BE32, LengthAt;
    AvccPieces(d, pre, us);
    assert us[0] in us;
    assert d[|pre|..|pre| + 4] == BE32(|us[0]|);
    assert d[|pre| + 4..|pre| + 4 + |us[0]|][|us[0]| - 1] == us[0][|us[0]| - 1];
  }

  /** The three low bytes of a length below 2^24 are a start code exactly when the length is 1. */
  lemma FieldIsCode(n: u32)
    requires 0 < n < TWO_24
    ensures BE32(n)[0] == 0
    ensures BE32(n)[1] == 0 && BE32(n)[2] == 0 && BE32(n)[3] == 1 <==> n == 1
  {
    BE32Decodes(n);
  }

  /** A unit behind its length field ends as cleanly as the unit itself. */
  lemma CleanEndAfter(pre: seq<byte>, u: Nal)
    requires Clean(u) && |u| < TWO_24
    ensures CleanEnd(pre + BE32(|u|) + u)
  {
    var n := |u|;
    var x := pre + BE32(n) + u;
    assert x[|x| - 1] == u[n - 1];
    if n >= 3 {
      assert x[|x| - 3] == u[n - 3] && x[|x| - 2] == u[n - 2];
      assert !(u[n - 3] == 0 && u[n - 3 + 1] == 0 && u[n - 3 + 2] == 1);
    } else {
      BE32Decodes(n);
      assert x[|pre| + 3] == BE32(n)[3] == n;
    }
  }

  /** Between a start code that ends at the unit of the first length field and the zeros in front of it. */
  lemma GapBefore(d: seq<byte>, pre: seq<byte>, us: seq<Nal>, q: nat)
    requires AllSized(us) && us != [] && |us[0]| < TWO_24 && d == pre + Avcc(us) && CleanEnd(pre)
    requires CodeEndsAt(d, |pre| + 4) && q <= |pre| + 1 && forall i :: q <= i < |pre| + 1 ==> d[i] == 0
    ensures |us[0]| == 1 && d[|pre|] == 0 && |pre| <= q
  {
    FieldAt(d, pre, us);
    assert us[0] in us;
    FieldIsCode(|us[0]|);
    var f := d[|pre|..|pre| + 4];
    assert f[0] == d[|pre|] && f[1] == d[|pre| + 1] && f[2] == d[|pre| + 2] && f[3] == d[|pre| + 3];
  }

  lemma {:induction false} SplitNotNone(d: seq<byte>, p: nat)
    requires p < |d| && d[|d| - 1] != 0
    ensures SplitFrom(d, p) != []
    decreases |d| - p
  {
    var next := NextStart(d, p);
    if next == -1 {
      TrimmedRest(d, p, |d|);
    } else {
      SplitNotNone(d, next);
    }
  }

  /**
   * If splitting at start codes behind byte p happens to give the units back, then p is where the first unit
   * lies, and every unit is a single byte.
   */
  lemma {:induction false} SplitAligned(d: seq<byte>, pre: seq<byte>, us: seq<Nal>, p: nat)
    requires AllClean(us) && AllShort(us) && AllSized(us) && us != [] && d == pre + Avcc(us) && CleanEnd(pre)
    requires CodeEndsAt(d, p) && SplitFrom(d, p) == us
    ensures p == |pre| + 4 && AllSingle(us)
    decreases |d| - p
  {
    hide Clean, Avcc, NextStart, SplitFrom, BE32, LengthAt, Trimmed;
    var t, u, next := |pre| + 4, us[0], NextStart(d, p);
    var e := Trimmed(d, p, if next == -1 then |d| else next - 3);
    FieldAt(d, pre, us);
    assert u in us;
    LastNotZero(u);
    TrimmedRest(d, p, if next == -1 then |d| else next - 3);
    NextStartEndsCode(d, p);
    FirstOfSplit(d, p, us);
    if e == p {
      SplitAligned(d, pre, us, next);
      GapBefore(d, pre, us, p);
      SameEnd(d, pre, us, p);
      assert false;
    }
    if us[1..] == [] {
      assert d[|d| - 1] != 0;
      if next != -1 {
        SplitNotNone(d, next);
      }
      assert e == |d| && p == t;
      GapBefore(d, pre, us, t - 3);
    } else {
      var pre' := pre + BE32(|u|) + u;
      AvccPieces(d, pre, us);
      CleanEndAfter(pre, u);
      assert AllClean(us[1..]) && AllShort(us[1..]);
      SplitAligned(d, pre', us[1..], next);
      GapBefore(d, pre', us[1..], e);
      assert p == t;
      GapBefore(d, pre, us, t - 3);
      SingleThenRest(us);
    }
  }

  lemma LastNotZero(u: Nal)
    requires Clean(u)
    ensures u != [] && u[|u| - 1] != 0
  {
  }

  lemma SameEnd(d: seq<byte>, pre: seq<byte>, us: seq<Nal>, p: nat)
    requires AllSized(us) && d == pre + Avcc(us) && CodeEndsAt(d, p) && p <= |pre| + 1
    requires |pre| < |d| && d[|pre|] == 0 && CleanEnd(pre)
    ensures p < |pre|
  {
    hide Avcc;
    assert forall i :: 0 <= i < |pre| ==> d[i] == pre[i];
  }

  lemma SingleThenRest(us: seq<Nal>)
    requires us != [] && |us[0]| == 1 && AllSingle(us[1..])
    ensures AllSingle(us)
  {
    forall i | 0 <= i < |us|
      ensures |us[i]| == 1
    {
      if i > 0 {
        assert us[i] == us[1..][i - 1];
      }
    }
  }

  /** The first unit of a split that is not empty, and what follows it. */
  lemma FirstOfSplit(d: seq<byte>, p: nat, us: seq<Nal>)
    requires p <= |d| && SplitFrom(d, p) == us && us != []
    ensures var next := NextStart(d, p);
            var e := Trimmed(d, p, if next == -1 then |d| else next - 3);
            if e == p then next != -1 && SplitFrom(d, next) == us
            else d[p..e] == us[0] && us[1..] == (if next == -1 then [] else SplitFrom(d, next))
  {
    hide NextStart, Trimmed;
    var next := NextStart(d, p);
    var e := Trimmed(d, p, if next == -1 then |d| else next - 3);
    var rest := if next == -1 then [] else SplitFrom(d, next);
    if e == p {
      assert [] + rest == rest;
    } else {
      assert ([d[p..e]] + rest)[1..] == rest;
    }
  }

  lemma {:induction false} SinglesJoined(us: seq<Nal>)
    requires AllSized(us) && AllSingle(us)
    ensures Avcc(us) == Annexb(us)
  {
    if us != [] {
      BE32Decodes(1);
      assert BE32(1) == START_CODE;
      assert us[0] in us && |us[0]| == 1;
      assert forall i :: 0 <= i < |us[1..]| ==> us[1..][i] == us[i + 1];
      SinglesJoined(us[1..]);
    }
  }

  /** Splitting length-prefixed units at start codes gives them back exactly when all are single bytes. */
  lemma StartCodesInLengths(us: seq<Nal>)
    requires AllClean(us) && AllShort(us) && AllSized(us)
    ensures AnnexbUnits(Avcc(us)) == us <==> AllSingle(us)
  {
    hide Clean, Avcc, NextStart, SplitFrom, Annexb;
    if AllSingle(us) {
      SinglesJoined(us);
      AnnexbRoundTrip(us);
    } else if AnnexbUnits(Avcc(us)) == us {
      var d := Avcc(us);
      NextStartEndsCode(d, 0);
      assert [] + d == d;
      SplitAligned(d, [], us, NextStart(d, 0));
      assert false;
    }
  }

  /** Read with length fields of three bytes, the first unit never comes out. */
  lemma ThreeByteLengths(us: seq<Nal>)
    requires AllSized(us) && us != [] && |us[0]| >= 2
    ensures AvccUnits(Avcc(us), 0, 3) != us
  {
    hide Avcc, AvccUnits, LengthAt, BE32;
    var d, n := Avcc(us), |us[0]|;
    assert us[0] in us;
    assert [] + d == d;
    FieldAt(d, [], us);
    FieldBytes(d, n);
    FirstIsNot(d, n);
  }

  /** The first unit by three-byte lengths is shorter than n, or much longer. */
  lemma FirstIsNot(d: seq<byte>, n: nat)
    requires |d| > 4 && n >= 2
    requires (d[0] as int) * 0x100_0000 + (d[1] as int) * 0x1_0000 + (d[2] as int) * 0x100 + d[3] as int == n
    ensures AvccUnits(d, 0, 3) == [] || |AvccUnits(d, 0, 3)[0]| != n
  {
    hide AvccUnits, LengthAt;
    FirstLength(d, 0, 3);
    ThreeBytesAt(d, 0);
    if n < 0x100 {
      FirstLength(d, 3, 3);
      if 3 < |d| - 3 {
        ThreeBytesAt(d, 3);
      }
    }
  }

  /** A first length of zero is skipped; any other is the size of the first unit, if one comes out. */
  lemma FirstLength(d: seq<byte>, p: nat, w: nat)
    requires p <= |d| && w > 0
    ensures w >= |d| - p ==> AvccUnits(d, p, w) == []
    ensures w < |d| - p && LengthAt(d, p, w) == 0 ==> AvccUnits(d, p, w) == AvccUnits(d, p + w, w)
    ensures w < |d| - p && LengthAt(d, p, w) > 0 ==>
      AvccUnits(d, p, w) == [] || |AvccUnits(d, p, w)[0]| == LengthAt(d, p, w)
  {
    hide LengthAt;
    if w < |d| - p && LengthAt(d, p, w) == 0 {
      assert [] + AvccUnits(d, p + w, w) == AvccUnits(d, p + w, w);
    }
  }

  lemma ThreeBytesAt(d: seq<byte>, p: nat)
    requires p + 3 <= |d|
    ensures LengthAt(d, p, 3) == (d[p] as int) * 0x1_0000 + (d[p + 1] as int) * 0x100 + d[p + 2] as int
  {
    assert LengthAt(d, p, 1) == d[p] as int;
    assert LengthAt(d, p, 2) == (d[p] as int) * 0x100 + d[p + 1] as int;
  }

  lemma FieldBytes(d: seq<byte>, n: u32)
    requires |d| >= 4 && d[0..4] == BE32(n)
    ensures (d[0] as int) * 0x100_0000 + (d[1] as int) * 0x1_0000 + (d[2] as int) * 0x100 + d[3] as int == n
  {
    BE32Decodes(n);
    assert d[0] == d[0..4][0] && d[1] == d[0..4][1] && d[2] == d[0..4][2] && d[3] == d[0..4][3];
  }

  /** A single byte in front looks like a start code, and then start codes are looked for throughout. */
  lemma SingleFirst(us: seq<Nal>)
    requires AllSized(us) && us != [] && |us[0]| == 1
    ensures Units(Avcc(us)) == AnnexbUnits(Avcc(us))
  {
    hide Avcc, AvccUnits, AnnexbUnits;
    var d := Avcc(us);
    assert [] + d == d;
    FieldAt(d, [], us);
    FieldBytes(d, 1);
  }

  /**
   * Units behind length fields come back exactly when every one of them is a single byte, or neither the
   * first nor the last is.
   */
  lemma LengthsSurviveIff(us: seq<Nal>)
    requires AllClean(us) && AllShort(us) && AllSized(us)
    ensures Units(Avcc(us)) == us <==> AllSingle(us) || EndsLong(us)
  {
    hide Avcc, AvccUnits, AnnexbUnits, AvccValidFrom, Clean;
    var d := Avcc(us);
    StartCodesInLengths(us);
    if EndsLong(us) {
      AvccRoundTrip(us);
    } else if us == [] {
      assert d == [] by { NoneJoined(us); }
    } else if |us[0]| == 1 {
      SingleFirst(us);
    } else {
      assert us[0] in us;
      AvccIsDetectedIff(us);
      ThreeByteLengths(us);
    }
  }

  lemma NoneJoined(us: seq<Nal>)
    requires us == []
    ensures Avcc(us) == []
  {
  }

  /** A first unit of 2^24 + 1 bytes (or 2 * 2^24 + 1, and so on) has a start code in its length field, too. */
  lemma LongLengthIsCode(u: Nal, us: seq<Nal>)
    requires Clean(u) && |u| > 1 && |u| % TWO_24 == 1 && AllClean(us) && AllSized(us) && AllSingle(us)
    ensures AllSized([u] + us) && AnnexbUnits(Avcc([u] + us)) == [u] + us
  {
    hide Clean, SplitFrom, Annexb, BE32;
    var all := [u] + us;
    assert all[1..] == us && all[0] == u;
    assert Clean(u) && 0 < |u| < TWO_31 by { CleanSize(u); }
    SinglesJoined(us);
    var d := Avcc(all);
    assert d == BE32(|u|) + u + Annexb(us);
    assert d[0..4] == BE32(|u|);
    FieldBytes(d, |u|);
    assert d[0] != 0 && d[1] == 0 && d[2] == 0 && d[3] == 1;
    NextStartIs(d, 0, 1);
    SplitJoined(d, BE32(|u|), u, us);
  }

  lemma CleanSize(u: Nal)
    requires Clean(u)
    ensures 0 < |u| < TWO_31
  {
  }

  /** Units that neither form fits, and that come back all the same. */
  predicate SurvivesOddly(us: seq<Nal>)
  {
    AllClean(us) && AllSized(us) && !AllSingle(us) && !EndsLong(us) && Units(Avcc(us)) == us
  }

  /** So the bound in LengthsSurviveIff is needed: a long unit of equal bytes and a single byte come back. */
  lemma LongUnitSurvives(u: Nal)
    requires |u| == TWO_24 + 1 && forall i :: 0 <= i < |u| ==> u[i] == 0xFF
    ensures SurvivesOddly([u] + [[9]])
  {
    hide SplitFrom, Annexb, BE32, AvccUnits, AnnexbUnits, AvccValidFrom, Avcc;
    var v: Nal := [9];
    var us: seq<Nal> := [u] + [v];
    var d := Avcc(us);
    LongLengthIsCode(u, [v]);
    AvccIsDetectedIff(us);
    assert [] + d == d && us[1..] == [v];
    FieldAt(d, [], us);
    FieldBytes(d, |u|);
    assert |d| == |u| + 9 by { PairSize(u, v); }
    var w := d[4..4 + |u|];
    assert d[0x1_0003] == w[0xFFFF] && d[0x1_0004] == w[0x1_0000] && d[0x1_0005] == w[0x1_0001];
    NotThreeBytes(d);
    assert |us[0]| != 1;
  }

  lemma PairSize(u: Nal, v: Nal)
    requires 0 < |u| < TWO_31 && 0 < |v| < TWO_31
    ensures AllSized([u] + [v]) && |Avcc([u] + [v])| == 8 + |u| + |v|
  {
    hide BE32;
    assert ([u] + [v])[1..] == [v] && [v][1..] == [];
    assert Avcc([v]) == BE32(|v|) + v + Avcc([]);
  }

  lemma NotThreeBytes(d: seq<byte>)
    requires |d| == TWO_24 + 10 && d[0] == 1 && d[1] == 0 && d[2] == 0
    requires d[0x1_0003] == 0xFF && d[0x1_0004] == 0xFF && d[0x1_0005] == 0xFF
    ensures !AvccValidFrom(d, 0, 3)
  {
    hide LengthAt;
    ThreeBytesAt(d, 0);
    ThreeBytesAt(d, 0x1_0003);
  }

  /** A unit, zeros, and the next start code at byte c. */
  lemma SplitUpTo(d: seq<byte>, p: nat, u: Nal, c: nat)
    requires p + |u| <= c && StartCodeAt(d, c) && forall i: nat :: p <= i < c ==> !StartCodeAt(d, i)
    requires d[p..p + |u|] == u && (u != [] ==> u[|u| - 1] != 0) && forall i :: p + |u| <= i < c ==> d[i] == 0
    ensures SplitFrom(d, p) == (if u == [] then [] else [u]) + SplitFrom(d, c + 3)
  {
    hide StartCodeAt;
    assert c + 3 < |d| by { CodeInside(d, c); }
    NextStartIs(d, p, c);
    TrimmedRest(d, p, c);
    if u != [] {
      assert d[p..p + |u|][|u| - 1] == d[p + |u| - 1];
      TrimmedStays(d, p, c, p + |u|);
    }
    assert Trimmed(d, p, c) == p + |u|;
  }

  lemma CodeInside(d: seq<byte>, c: nat)
    requires StartCodeAt(d, c)
    ensures c + 3 < |d|
  {
  }

  lemma {:induction false} TrimmedStays(d: seq<byte>, p: nat, e: nat, n: nat)
    requires p < n <= e <= |d| && d[n - 1] != 0 && forall i :: n <= i < e ==> d[i] == 0
    ensures Trimmed(d, p, e) == n
    decreases e
  {
    if n < e {
      TrimmedStays(d, p, e - 1, n);
    }
  }

  /** The bytes of these four units behind their lengths, up to the last unit. */
  ghost predicate FourUnits(d: seq<byte>, x: byte, w: Nal)
  {
    && |d| == 65809 + |w| && |w| > 0
    && d[0] == 0 && d[1] == 0 && d[2] == 0 && d[3] == 1 && d[4] == x && d[5] == 0 && d[6] == 0 && d[7] == 1 && d[8] == 0
    && (forall i :: 9 <= i < 267 ==> d[i] == (i + 1) % 2)
    && d[267] == 0 && d[268] == 0
    && (forall i :: 269 <= i < 65806 ==> d[i] == 1)
    && d[65806] == 0 && d[65807] == 0 && d[65808] == 1
  }

  /** Start codes are found in it at five places, and between them lie the four units. */
  lemma FourUnitsSplit(d: seq<byte>, x: byte, u: Nal, v: Nal, w: Nal)
    requires FourUnits(d, x, w) && x != 0 && d[65809..] == w && Clean(w)
    requires |u| == 256 && forall i :: 0 <= i < 256 ==> u[i] == i % 2
    requires |v| == 65536 && forall i :: 0 <= i < 65536 ==> v[i] == 1
    ensures AnnexbUnits(d) == [[x], u, v, w]
  {
    hide SplitFrom, Clean;
    NextStartIs(d, 0, 1);
    assert d[4..5] == [x];
    SplitUpTo(d, 4, [x], 5);
    SplitUpTo(d, 8, [], 8);
    assert d[11..267] == u;
    SplitUpTo(d, 11, u, 267);
    assert d[270..65806] == v;
    SplitUpTo(d, 270, v, 65806);
    assert LiesAt(d, 65809, w) by {
      assert forall i :: 0 <= i < |w| ==> d[65809 + i] == d[65809..][i];
    }
    SplitLast(d, 65809, w);
    assert SplitFrom(d, 8) == SplitFrom(d, 11);
    assert [[x]] + ([u] + ([v] + [w])) == [[x], u, v, w];
  }

  lemma AvccFour(a: Nal, b: Nal, c: Nal, e: Nal)
    requires AllSized([a, b, c, e])
    ensures Avcc([a, b, c, e]) == BE32(|a|) + a + (BE32(|b|) + b + (BE32(|c|) + c + (BE32(|e|) + e)))
  {
    hide BE32;
    var us := [a, b, c, e];
    assert a in us && b in us && c in us && e in us;
    assert us[1..] == [b, c, e] && [b, c, e][1..] == [c, e] && [c, e][1..] == [e];
    assert [e][1..] == [];
    NoneJoined([]);
    assert Avcc([e]) == BE32(|e|) + e + Avcc([]) == BE32(|e|) + e;
    assert Avcc([c, e]) == BE32(|c|) + c + Avcc([e]);
    assert Avcc([b, c, e]) == BE32(|b|) + b + Avcc([c, e]);
  }

  lemma FourFields()
    ensures BE32(1) == [0, 0, 0, 1] && BE32(256) == [0, 0, 1, 0] && BE32(0x1_0000) == [0, 1, 0, 0]
    ensures BE32(0x100_0001) == [1, 0, 0, 1]
  {
  }

  /**
   * The same bound is needed for units behind a single byte: these four come back although the second is
   * longer. Each unit but the first is found a few bytes late, until the length of the last one, which ends
   * in a start code, sets that right.
   */
  lemma FourUnitsSurvive(x: byte, u: Nal, v: Nal, w: Nal)
    requires x != 0 && Clean(w) && |w| == 0x100_0001
    requires |u| == 256 && forall i :: 0 <= i < 256 ==> u[i] == i % 2
    requires |v| == 65536 && forall i :: 0 <= i < 65536 ==> v[i] == 1
    ensures AllSized([[x], u, v, w]) && Units(Avcc([[x], u, v, w])) == [[x], u, v, w]
  {
    hide Clean, BE32, SplitFrom, AnnexbUnits, Avcc, AvccUnits;
    var us: seq<Nal> := [[x], u, v, w];
    AvccFour([x], u, v, w);
    FourFields();
    var a: seq<byte>, b: seq<byte>, c: seq<byte> := [0, 0, 0, 1] + [x], [0, 0, 1, 0] + u, [0, 1, 0, 0] + v;
    var d := Avcc(us);
    assert d == a + (b + (c + ([1, 0, 0, 1] + w)));
    LiesBehind(d, a, b, c, w);
    FourUnitsSplit(d, x, u, v, w);
    SingleFirst(us);
  }

  lemma LiesBehind(d: seq<byte>, a: seq<byte>, b: seq<byte>, c: seq<byte>, w: Nal)
    requires |a| == 5 && |b| == 260 && |c| == 65540 && d == a + (b + (c + ([1, 0, 0, 1] + w)))
    ensures |d| == 65809 + |w| && d[65809..] == w
    ensures forall i :: 0 <= i < 5 ==> d[i] == a[i]
    ensures forall i :: 5 <= i < 265 ==> d[i] == b[i - 5]
    ensures forall i :: 265 <= i < 65805 ==> d[i] == c[i - 265]
    ensures d[65805] == 1 && d[65806] == 0 && d[65807] == 0 && d[65808] == 1
  {
  }
}
