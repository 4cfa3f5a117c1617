/**
 * mpeg4-annexbtomp4.c: splitting H.264 into NAL units, either at start codes (ITU-T H.264, Annex B) or by
 * length fields, and telling the two apart.
 */
module NalUnits {
  import opened Bytes

  type Nal = seq<byte>

  // ---------- start codes ----------

  /** 00 00 01 at byte i, with something behind it. */
  predicate StartCodeAt(d: seq<byte>, i: nat)
  {
    i + 3 < |d| && d[i] == 0 && d[i + 1] == 0 && d[i + 2] == 1
  }

  /** The first byte behind the next start code, or -1. */
  function NextStart(d: seq<byte>, from: nat): (k: int)
    ensures k == -1 || from + 3 <= k < |d|
    decreases |d| - from
  {
    if from + 3 >= |d| then -1
    else if StartCodeAt(d, from) then from + 3
    else NextStart(d, from + 1)
  }

  /** h264_startcode, from byte `from` on. */
  method FindStart(d: seq<byte>, from: nat) returns (k: int)
    ensures k == NextStart(d, from)
  {
    var i: nat := from + 2;
    while i + 1 < |d|
      invariant i >= from + 2 && NextStart(d, from) == NextStart(d, i - 2)
    {
      if d[i] == 1 && d[i - 1] == 0 && d[i - 2] == 0 {
        return i + 1;
      }
      i := i + 1;
    }
    k := -1;
  }

  /** The end of d[p..e] without its trailing zero bytes. */
  function Trimmed(d: seq<byte>, p: nat, e: nat): (n: nat)
    requires p <= e <= |d|
    ensures p <= n <= e
  {
    if e > p && d[e - 1] == 0 then Trimmed(d, p, e - 1) else e
  }

  /** The unit between byte p and the start code in front of byte `next`, as a list of at most one. */
  function UnitAt(d: seq<byte>, p: nat, next: int): (us: seq<Nal>)
    requires p <= |d| && (next == -1 || p + 3 <= next < |d|)
  {
    var e := Trimmed(d, p, if next == -1 then |d| else next - 3);
    if e > p then [d[p..e]] else []
  }

  /** The units of d from byte p on, where p lies right behind a start code. */
  function SplitFrom(d: seq<byte>, p: nat): seq<Nal>
    requires p <= |d|
    decreases |d| - p
  {
    var next := NextStart(d, p);
    UnitAt(d, p, next) + if next == -1 then [] else SplitFrom(d, next)
  }

  function SplitRest(d: seq<byte>, p: int): seq<Nal>
    requires p == -1 || 0 <= p <= |d|
  {
    if p == -1 then [] else SplitFrom(d, p)
  }

  function AnnexbUnits(d: seq<byte>): seq<Nal> { SplitRest(d, NextStart(d, 0)) }

  lemma Append<T>(us: seq<T>, x: seq<T>, rest: seq<T>)
    ensures us + (x + rest) == us + x + rest
  {
  }

  method TrimZeros(d: seq<byte>, p: nat, end: nat) returns (e: nat)
    requires p <= end <= |d|
    ensures e == Trimmed(d, p, end)
  {
    e := end;
    while e > p && d[e - 1] == 0
      invariant p <= e <= end && Trimmed(d, p, e) == Trimmed(d, p, end)
    {
      e := e - 1;
    }
  }

  /** The start-code loop of mpeg4_h264_annexb_nalu; the handler's calls are collected. */
  lemma SplitStep(d: seq<byte>, p: nat, next: int, e: nat, us: seq<Nal>)
    requires p <= |d| && next == NextStart(d, p) && e == Trimmed(d, p, if next == -1 then |d| else next - 3)
    ensures us + SplitRest(d, p) == (if e > p then us + [d[p..e]] else us) + SplitRest(d, next)
  {
    hide NextStart, Trimmed;
    Append(us, UnitAt(d, p, next), SplitRest(d, next));
    assert us + [] == us;
  }

  lemma SplitAll(d: seq<byte>)
    ensures AnnexbUnits(d) == [] + SplitRest(d, NextStart(d, 0))
    ensures SplitRest(d, -1) == []
  {
  }

  method SplitAnnexb(d: seq<byte>) returns (us: seq<Nal>)
    ensures us == AnnexbUnits(d)
  {
    hide NextStart, Trimmed, SplitRest, UnitAt;
    us := [];
    var p := FindStart(d, 0);
    SplitAll(d);
    while p != -1
      invariant p == -1 || 0 <= p <= |d|
      invariant AnnexbUnits(d) == us + SplitRest(d, p)
      decreases if p == -1 then 0 else |d| + 1 - p
    {
      var next := FindStart(d, p);
      var e := TrimZeros(d, p, if next == -1 then |d| else next - 3);
      SplitStep(d, p, next, e, us);
      if e > p {
        us := us + [d[p..e]];
      }
      p := next;
    }
  }

  // ---------- length fields ----------

  /** A big-endian length of w bytes at byte p. */
  function LengthAt(d: seq<byte>, p: nat, w: nat): (n: nat)
    requires p + w <= |d|
    decreases w
  {
    if w == 0 then 0 else LengthAt(d, p, w - 1) * 0x100 + d[p + w - 1] as int
  }

  /** mpeg4_h264_avcc_bitstream_valid from byte p on. */
  predicate AvccValidFrom(d: seq<byte>, p: nat, w: nat)
    requires p <= |d| && w > 0
    decreases |d| - p
  {
    if w + 1 < |d| - p then
      var n := LengthAt(d, p, w);
      n < TWO_31 && p + w + n <= |d| && AvccValidFrom(d, p + w + n, w)
    else p == |d|
  }

  /** `n + avcc` of the source: the length is an int that was sign-extended to 64 unsigned bits. */
  function Stride(n: u32, w: nat): u64 { (ToI32(n) + w) % TWO_64 }

  /**
   * For lengths of 2^31 and more the source compares and adds sign-extended numbers. That rejects them, too,
   * except for the few that wrap around to less than a length field: over those it goes on inside the field,
   * and it never advances over the length 2^32 - w.
   */
  lemma StrideAgreesIff(n: u32, w: nat, room: nat)
    requires 3 <= w <= 4 && w < room < TWO_63
    ensures (Stride(n, w) <= room <==> n < TWO_31 && w + n <= room) <==> n < TWO_32 - w
    ensures n < TWO_31 ==> Stride(n, w) == w + n
    ensures n >= TWO_32 - w ==> Stride(n, w) == n + w - TWO_32 < w
    ensures Stride(n, w) == 0 <==> n == TWO_32 - w
  {
    if n >= TWO_31 {
      var v := ToI32(n) + w;
      assert v % TWO_64 == if v < 0 then v + TWO_64 else v;
    }
  }

  /** Such an input: the loop of the source does not end on it, while AvccValidFrom calls it malformed. */
  lemma NeverAdvances(d: seq<byte>)
    requires |d| > 5 && d[0] == 0xFF && d[1] == 0xFF && d[2] == 0xFF && d[3] == 0xFC
    ensures LengthAt(d, 0, 4) < TWO_32 && Stride(LengthAt(d, 0, 4), 4) == 0 && !AvccValidFrom(d, 0, 4)
  {
    assert LengthAt(d, 0, 1) == 0xFF;
    assert LengthAt(d, 0, 2) == 0xFFFF;
    assert LengthAt(d, 0, 3) == 0xFFFFFF;
    assert LengthAt(d, 0, 4) == 0xFFFFFFFC;
  }

  method AvccValid(d: seq<byte>, w: nat) returns (r: bool)
    requires 3 <= w <= 4
    ensures r == AvccValidFrom(d, 0, w)
  {
    var p: nat := 0;
    while w + 1 < |d| - p
      invariant p <= |d| && AvccValidFrom(d, 0, w) == AvccValidFrom(d, p, w)
      decreases |d| - p
    {
      var n := ReadLength(d, p, w);
      if n >= TWO_31 || p + w + n > |d| {
        return false;
      }
      p := p + w + n;
    }
    r := p == |d|;
  }

  /** h264_avcc_length, where the length field is complete. */
  method ReadLength(d: seq<byte>, p: nat, w: nat) returns (n: nat)
    requires p + w <= |d|
    ensures n == LengthAt(d, p, w)
  {
    n := 0;
    var i: nat := 0;
    while i < w
      invariant i <= w && n == LengthAt(d, p, i)
    {
      n := n * 0x100 + d[p + i] as int;
      i := i + 1;
    }
  }

  /** 0: start codes, 3 or 4: lengths of that width, -1: neither. */
  function Format(d: seq<byte>): int
  {
    if |d| < 4 then -1
    else if d[0] == 0 && d[1] == 0 && d[2] == 0 && d[3] <= 1 then 0
    else if d[0] == 0 && d[1] == 0 && d[2] == 1 then (if AvccValidFrom(d, 0, 4) then 4 else 0)
    else if AvccValidFrom(d, 0, 4) then 4
    else if AvccValidFrom(d, 0, 3) then 3
    else -1
  }

  /** mpeg4_h264_bitstream_format */
  method DetectFormat(d: seq<byte>) returns (f: int)
    ensures f == Format(d)
  {
    if |d| < 4 {
      return -1;
    }
    var n := (d[0] as int) * 0x1_0000 + (d[1] as int) * 0x100 + d[2] as int;
    if n == 0 && d[3] <= 1 {
      return 0;
    }
    var four := AvccValid(d, 4);
    if n == 1 {
      return if four then 4 else 0;
    }
    if four {
      return 4;
    }
    var three := AvccValid(d, 3);
    f := if three then 3 else -1;
  }

  /** The unit of n bytes behind its length field at byte p, as a list of at most one. */
  function SizedUnit(d: seq<byte>, p: nat, n: nat): seq<Nal>
    requires p + n <= |d|
  {
    if n > 0 then [d[p..p + n]] else []
  }

  /** The units that the length fields from byte p on delimit; an empty one is not handed on. */
  function AvccUnits(d: seq<byte>, p: nat, w: nat): seq<Nal>
    requires p <= |d| && w > 0
    decreases |d| - p
  {
    if w >= |d| - p then []
    else
      var n := LengthAt(d, p, w);
      if p + w + n > |d| then [] else SizedUnit(d, p + w, n) + AvccUnits(d, p + w + n, w)
  }

  lemma AvccStep(d: seq<byte>, p: nat, w: nat, us: seq<Nal>)
    requires p <= |d| && w > 0
    ensures w >= |d| - p ==> AvccUnits(d, p, w) == []
    ensures w < |d| - p ==>
      var n := LengthAt(d, p, w);
      && (p + w + n > |d| ==> AvccUnits(d, p, w) == [])
      && (p + w + n <= |d| ==> us + AvccUnits(d, p, w) == us + SizedUnit(d, p + w, n) + AvccUnits(d, p + w + n, w))
  {
    hide LengthAt, SizedUnit;
  }

  /** mpeg4_h264_avcc_nalu */
  method SplitAvcc(d: seq<byte>, w: nat) returns (us: seq<Nal>)
    requires w > 0
    ensures us == AvccUnits(d, 0, w)
  {
    hide LengthAt, AvccUnits;
    us := [];
    var p: nat := 0;
    while w < |d| - p
      invariant p <= |d| && AvccUnits(d, 0, w) == us + AvccUnits(d, p, w)
      decreases |d| - p
    {
      var n := ReadLength(d, p, w);
      AvccStep(d, p, w, us);
      if p + w + n > |d| {
        return;
      }
      ghost var was := us;
      if n > 0 {
        us := us + [d[p + w..p + w + n]];
      }
      assert us == was + SizedUnit(d, p + w, n);
      p := p + w + n;
    }
    AvccStep(d, p, w, us);
  }

  /** What mpeg4_h264_annexb_nalu hands to its handler, whatever the format. */
  function Units(d: seq<byte>): seq<Nal>
  {
    var f := Format(d);
    if f > 0 then AvccUnits(d, 0, f) else AnnexbUnits(d)
  }

  /** mpeg4_h264_annexb_nalu */
  method Split(d: seq<byte>) returns (us: seq<Nal>)
    ensures us == Units(d)
  {
    var f := DetectFormat(d);
    if f > 0 {
      us := SplitAvcc(d, f);
    } else {
      us := SplitAnnexb(d);
    }
  }

  // ---------- joining ----------

  const START_CODE: seq<byte> := [0, 0, 0, 1]

  function Annexb(us: seq<Nal>): seq<byte>
  {
    if us == [] then [] else START_CODE + us[0] + Annexb(us[1..])
  }

  function Avcc(us: seq<Nal>): seq<byte>
    requires forall u :: u in us ==> |u| < TWO_31
  {
    if us == [] then [] else BE32(|us[0]|) + us[0] + Avcc(us[1..])
  }

  /** A unit that start codes can delimit: not empty, no 00 00 01 inside, and not ending in a zero byte. */
  predicate Clean(u: Nal)
  {
    && 0 < |u| < TWO_31 && u[|u| - 1] != 0
    && forall i :: 0 <= i && i + 2 < |u| ==> !(u[i] == 0 && u[i + 1] == 0 && u[i + 2] == 1)
  }

  predicate AllClean(us: seq<Nal>) { forall u :: u in us ==> Clean(u) }

  lemma {:induction false} NextStartIs(d: seq<byte>, from: nat, k: nat)
    requires from <= k && StartCodeAt(d, k) && forall i :: from <= i < k ==> !StartCodeAt(d, i)
    ensures NextStart(d, from) == k + 3
    decreases k - from
  {
    if from < k {
      NextStartIs(d, from + 1, k);
    }
  }

  lemma {:induction false} NextStartNone(d: seq<byte>, from: nat)
    requires forall i: nat :: from <= i ==> !StartCodeAt(d, i)
    ensures NextStart(d, from) == -1
    decreases |d| - from
  {
    if from + 3 < |d| {
      NextStartNone(d, from + 1);
    }
  }

  lemma AnnexbHead(us: seq<Nal>)
    requires us != [] && AllClean(us)
    ensures |Annexb(us)| > 4 && Annexb(us)[..4] == START_CODE
  {
    assert us[0] in us;
  }

  /** `u` lies at byte p. */
  predicate LiesAt(d: seq<byte>, p: nat, u: seq<byte>)
  {
    p + |u| <= |d| && forall i :: 0 <= i < |u| ==> d[p + i] == u[i]
  }

  /** A start code cannot begin inside a clean unit, nor at a zero byte whose third successor is zero. */
  lemma NoStartInside(d: seq<byte>, p: nat, u: Nal, i: nat)
    requires Clean(u) && LiesAt(d, p, u) && p <= i < p + |u|
    requires i + 3 >= |d| || i + 2 < p + |u| || d[p + |u| - 1] != 0
    ensures i + 2 < p + |u| ==> !StartCodeAt(d, i)
    ensures i + 2 >= p + |u| && d[p + |u|..] != [] && d[p + |u|] == 0 ==> !StartCodeAt(d, i)
    ensures p + |u| == |d| ==> !StartCodeAt(d, i)
  {
    var k := i - p;
    if k + 2 < |u| {
      assert !(u[k] == 0 && u[k + 1] == 0 && u[k + 2] == 1);
      assert d[p + k] == u[k] && d[p + (k + 1)] == u[k + 1] && d[p + (k + 2)] == u[k + 2];
    } else {
      assert d[p + (|u| - 1)] == u[|u| - 1];
    }
  }

  lemma NextStartAtEnd(d: seq<byte>, p: nat, u: Nal)
    requires Clean(u) && LiesAt(d, p, u) && p + |u| == |d|
    ensures NextStart(d, p) == -1
  {
    hide Clean, LiesAt, StartCodeAt;
    assert d[p + |u| - 1] != 0 by { LastByte(d, p, u); }
    forall i: nat | p <= i
      ensures !StartCodeAt(d, i)
    {
      if i < p + |u| {
        NoStartInside(d, p, u, i);
      } else {
        PastEnd(d, i);
      }
    }
    NextStartNone(d, p);
  }

  lemma PastEnd(d: seq<byte>, i: nat)
    requires i >= |d|
    ensures !StartCodeAt(d, i)
  {
  }

  lemma LastByte(d: seq<byte>, p: nat, u: Nal)
    requires Clean(u) && LiesAt(d, p, u)
    ensures |u| > 0 && p + |u| <= |d| && d[p + |u| - 1] != 0
  {
    assert d[p + (|u| - 1)] == u[|u| - 1];
  }

  lemma CodeBytes(d: seq<byte>, b: nat)
    requires LiesAt(d, b, START_CODE)
    ensures b + 4 <= |d| && d[b] == 0 && d[b + 1] == 0 && d[b + 2] == 0 && d[b + 3] == 1
  {
    assert d[b + 0] == START_CODE[0] && d[b + 1] == START_CODE[1] && d[b + 2] == START_CODE[2] && d[b + 3] == START_CODE[3];
  }

  lemma NextStartBehind(d: seq<byte>, p: nat, u: Nal)
    requires Clean(u) && LiesAt(d, p, u) && LiesAt(d, p + |u|, START_CODE) && p + |u| + 4 < |d|
    ensures NextStart(d, p) == p + |u| + 4
  {
    LastByte(d, p, u);
    var b := p + |u|;
    CodeBytes(d, b);
    forall i | p <= i < b + 1
      ensures !StartCodeAt(d, i)
    {
      if i < b {
        NoStartInside(d, p, u, i);
      }
    }
    NextStartIs(d, p, b + 1);
  }

  lemma TrimmedIs(d: seq<byte>, p: nat, e: nat)
    requires p < e <= |d| && d[e - 1] != 0
    ensures Trimmed(d, p, e) == e
    ensures e < |d| && d[e] == 0 ==> Trimmed(d, p, e + 1) == e
  {
  }

  /** Where the pieces of a joined stream lie. */
  lemma JoinedPieces(d: seq<byte>, pre: seq<byte>, u: Nal, us: seq<Nal>)
    requires d == pre + u + Annexb(us) && AllClean(us)
    ensures LiesAt(d, |pre|, u)
    ensures us == [] ==> |pre| + |u| == |d|
    ensures us != [] ==>
      && LiesAt(d, |pre| + |u|, START_CODE) && |pre| + |u| + 4 < |d|
      && d == pre + u + START_CODE + us[0] + Annexb(us[1..])
  {
    if us != [] {
      AnnexbHead(us);
      var a := Annexb(us);
      assert forall i :: 0 <= i < 4 ==> a[i] == a[..4][i];
      assert a == START_CODE + us[0] + Annexb(us[1..]);
      Append(pre + u, START_CODE + us[0], Annexb(us[1..]));
      Append(pre + u, START_CODE, us[0]);
    }
  }

  lemma SplitLast(d: seq<byte>, p: nat, u: Nal)
    requires Clean(u) && LiesAt(d, p, u) && p + |u| == |d|
    ensures SplitFrom(d, p) == [u]
  {
    NextStartAtEnd(d, p, u);
    LastByte(d, p, u);
    TrimmedIs(d, p, |d|);
    assert d[p..|d|] == u;
  }

  lemma SplitOne(d: seq<byte>, p: nat, u: Nal)
    requires Clean(u) && LiesAt(d, p, u) && LiesAt(d, p + |u|, START_CODE) && p + |u| + 4 < |d|
    ensures SplitFrom(d, p) == [u] + SplitFrom(d, p + |u| + 4)
  {
    NextStartBehind(d, p, u);
    LastByte(d, p, u);
    CodeBytes(d, p + |u|);
    TrimmedIs(d, p, p + |u|);
    assert d[p..p + |u|] == u;
  }

  lemma {:induction false} SplitJoined(d: seq<byte>, pre: seq<byte>, u: Nal, us: seq<Nal>)
    requires d == pre + u + Annexb(us) && Clean(u) && AllClean(us)
    ensures SplitFrom(d, |pre|) == [u] + us
    decreases |us|
  {
    hide SplitFrom, Annexb, LiesAt, Clean;
    JoinedPieces(d, pre, u, us);
    if us == [] {
      SplitLast(d, |pre|, u);
    } else {
      SplitOne(d, |pre|, u);
      SplitJoined(d, pre + u + START_CODE, us[0], us[1..]);
      assert [us[0]] + us[1..] == us;
    }
  }

  /** Units joined by four-byte start codes are split into the same units. */
  lemma AnnexbRoundTrip(us: seq<Nal>)
    requires AllClean(us)
    ensures AnnexbUnits(Annexb(us)) == us && Units(Annexb(us)) == us
  {
    var d := Annexb(us);
    if us == [] {
      assert d == [];
    } else {
      AnnexbHead(us);
      assert d[0] == 0 && d[1] == 0 && d[2] == 0 && d[3] == 1;
      NextStartIs(d, 0, 1);
      assert d == START_CODE + us[0] + Annexb(us[1..]);
      SplitJoined(d, START_CODE, us[0], us[1..]);
      assert [us[0]] + us[1..] == us;
    }
  }

  // ---------- length prefixes ----------

  predicate AllSized(us: seq<Nal>) { forall u :: u in us ==> 0 < |u| < TWO_31 }

  lemma LengthIs(pre: seq<byte>, n: u32, rest: seq<byte>)
    ensures LengthAt(pre + BE32(n) + rest, |pre|, 4) == n
  {
    var d, p := pre + BE32(n) + rest, |pre|;
    BE32Decodes(n);
    assert forall i :: 0 <= i < 4 ==> d[p + i] == BE32(n)[i];
    assert LengthAt(d, p, 1) == d[p] as int;
    assert LengthAt(d, p, 2) == (d[p] as int) * 0x100 + d[p + 1] as int;
    assert LengthAt(d, p, 3) == LengthAt(d, p, 2) * 0x100 + d[p + 2] as int;
  }

  /** The first piece of a length-prefixed stream at byte p. */
  lemma AvccPieces(d: seq<byte>, pre: seq<byte>, us: seq<Nal>)
    requires AllSized(us) && us != [] && d == pre + Avcc(us)
    ensures AllSized(us[1..]) && d == pre + BE32(|us[0]|) + us[0] + Avcc(us[1..])
    ensures |pre| + 4 + |us[0]| <= |d| && LengthAt(d, |pre|, 4) == |us[0]|
    ensures d[|pre| + 4..|pre| + 4 + |us[0]|] == us[0]
    ensures us[1..] == [] ==> |d| == |pre| + 4 + |us[0]|
    ensures us[1..] != [] ==> |d| > |pre| + 8 + |us[0]|
  {
    var u, rest := us[0], us[1..];
    assert forall x :: x in rest ==> x in us;
    hide BE32, LengthAt;
    Append(pre, BE32(|u|) + u, Avcc(rest));
    Append(pre, BE32(|u|), u);
    Append(pre + BE32(|u|), u, Avcc(rest));
    LengthIs(pre, |u|, u + Avcc(rest));
    if rest != [] {
      assert rest[0] in us;
    }
  }

  lemma AvccEnds(d: seq<byte>, p: nat)
    requires |d| == p
    ensures AvccUnits(d, p, 4) == []
  {
  }

  lemma AvccOne(d: seq<byte>, p: nat, n: nat)
    requires p + 4 + n <= |d| && LengthAt(d, p, 4) == n && 0 < n < TWO_31
    ensures AvccUnits(d, p, 4) == [d[p + 4..p + 4 + n]] + AvccUnits(d, p + 4 + n, 4)
  {
    hide LengthAt;
  }

  lemma {:induction false} AvccSplitJoined(d: seq<byte>, pre: seq<byte>, us: seq<Nal>)
    requires AllSized(us) && d == pre + Avcc(us)
    ensures AvccUnits(d, |pre|, 4) == us
    decreases |us|
  {
    hide LengthAt, BE32, AvccUnits;
    if us == [] {
      AvccEnds(d, |pre|);
    } else {
      AvccPieces(d, pre, us);
      AvccOne(d, |pre|, |us[0]|);
      hide Avcc;
      AvccSplitJoined(d, pre + BE32(|us[0]|) + us[0], us[1..]);
      assert [us[0]] + us[1..] == us;
    }
  }

  lemma {:induction false} AvccValidIff(d: seq<byte>, pre: seq<byte>, us: seq<Nal>)
    requires AllSized(us) && d == pre + Avcc(us)
    ensures AvccValidFrom(d, |pre|, 4) <==> (us == [] || |us[|us| - 1]| >= 2)
    decreases |us|
  {
    hide LengthAt, BE32;
    if us != [] {
      AvccPieces(d, pre, us);
      assert us[0] in us;
      AvccValidIff(d, pre + BE32(|us[0]|) + us[0], us[1..]);
    }
  }

  /**
   * Length-prefixed units are recognized as such exactly when neither the first nor the last of them is
   * a single byte: the first would look like a start code, the last is too short for the check.
   */
  lemma AvccIsDetectedIff(us: seq<Nal>)
    requires AllSized(us)
    ensures Format(Avcc(us)) == 4 <==> (us != [] && |us[0]| >= 2 && |us[|us| - 1]| >= 2)
  {
    var d := Avcc(us);
    assert [] + d == d;
    AvccValidIff(d, [], us);
    if us != [] {
      var u := us[0];
      assert u in us;
      assert d[..4] == BE32(|u|);
      assert d[0] == BE32(|u|)[0] && d[1] == BE32(|u|)[1] && d[2] == BE32(|u|)[2] && d[3] == BE32(|u|)[3];
    }
  }

  /** Length-prefixed units that are recognized are split into the same units. */
  lemma AvccRoundTrip(us: seq<Nal>)
    requires AllSized(us) && us != [] && |us[0]| >= 2 && |us[|us| - 1]| >= 2
    ensures Units(Avcc(us)) == us
  {
    AvccIsDetectedIff(us);
    assert [] + Avcc(us) == Avcc(us);
    AvccSplitJoined(Avcc(us), [], us);
  }
}
