/**
 * The arena behind struct mpeg4_avc_t: parameter sets are slices of one buffer, kept without gaps. Replacing
 * one moves the bytes behind it down and puts the new set at the end.
 */
module ParamArena {
  import opened Bytes
  import opened NalUnits

  datatype Slice = Slice(start: nat, len: nat)

  function End(s: Slice): nat { s.start + s.len }

  function Content(mem: seq<byte>, s: Slice): Nal
    requires End(s) <= |mem|
  {
    mem[s.start..End(s)]
  }

  predicate Apart(s: Slice, t: Slice) { End(s) <= t.start || End(t) <= s.start }

  predicate Holds(s: Slice, p: nat) { s.start <= p < End(s) }

  predicate Within(ss: seq<Slice>, off: nat) { forall i :: 0 <= i < |ss| ==> End(ss[i]) <= off }

  predicate Disjoint(ss: seq<Slice>) { forall i, j :: 0 <= i < j < |ss| ==> Apart(ss[i], ss[j]) }

  ghost predicate CoveredAt(ss: seq<Slice>, p: nat) { exists i :: 0 <= i < |ss| && Holds(ss[i], p) }

  ghost predicate Covered(ss: seq<Slice>, off: nat) { forall p :: 0 <= p < off ==> CoveredAt(ss, p) }

  function LenSum(ss: seq<Slice>, n: nat): nat
    requires n <= |ss|
  {
    if n == 0 then 0 else LenSum(ss, n - 1) + ss[n - 1].len
  }

  /** The slices are disjoint and together make up the first `off` bytes. */
  ghost predicate Tiled(ss: seq<Slice>, off: nat)
  {
    Within(ss, off) && Disjoint(ss) && Covered(ss, off) && LenSum(ss, |ss|) == off
  }

  function Contents(mem: seq<byte>, ss: seq<Slice>): (us: seq<Nal>)
    requires Within(ss, |mem|)
    ensures |us| == |ss| && forall i :: 0 <= i < |ss| ==> us[i] == Content(mem, ss[i])
  {
    seq(|ss|, i requires 0 <= i < |ss| => Content(mem, ss[i]))
  }

  // ---------- mpeg4_avc_remove ----------

  /** The buffer after the n bytes at ptr were taken out of its first `off` bytes. */
  function Pulled(mem: seq<byte>, ptr: nat, n: nat, off: nat): (r: seq<byte>)
    requires ptr + n <= off <= |mem|
    ensures |r| == |mem|
  {
    mem[..ptr] + mem[ptr + n..off] + mem[off - n..]
  }

  lemma PulledIs(was: seq<byte>, now: seq<byte>, ptr: nat, n: nat, off: nat)
    requires ptr + n <= off <= |was| == |now|
    requires forall i :: 0 <= i < ptr ==> now[i] == was[i]
    requires forall i :: ptr <= i < off - n ==> now[i] == was[i + n]
    requires forall i :: off - n <= i < |was| ==> now[i] == was[i]
    ensures now == Pulled(was, ptr, n, off)
  {
  }

  /** Slices behind ptr follow their bytes. */
  function Lowered(ss: seq<Slice>, ptr: nat, n: nat): (ts: seq<Slice>)
    requires forall i :: 0 <= i < |ss| ==> ss[i].start > ptr ==> ss[i].start >= n
    ensures |ts| == |ss|
    ensures forall i :: 0 <= i < |ss| ==> ts[i] == if ss[i].start > ptr then Slice(ss[i].start - n, ss[i].len) else ss[i]
  {
    seq(|ss|, i requires 0 <= i < |ss| => if ss[i].start > ptr then Slice(ss[i].start - n, ss[i].len) else ss[i])
  }

  /** No other slice starts inside the one that is taken out. */
  lemma OthersBehind(ss: seq<Slice>, off: nat, k: nat)
    requires Within(ss, off) && Disjoint(ss) && k < |ss|
    ensures forall i :: 0 <= i < |ss| && i != k ==>
      if ss[i].start > ss[k].start then ss[i].start >= End(ss[k]) else End(ss[i]) <= ss[k].start || ss[k].len == 0
    ensures forall i :: 0 <= i < |ss| ==> ss[i].start > ss[k].start ==> ss[i].start >= ss[k].len
  {
    forall i | 0 <= i < |ss| && i != k
      ensures if ss[i].start > ss[k].start then ss[i].start >= End(ss[k]) else End(ss[i]) <= ss[k].start || ss[k].len == 0
    {
      if i < k {
        assert Apart(ss[i], ss[k]);
      } else {
        assert Apart(ss[k], ss[i]);
      }
    }
  }

  /** The slices after slice k was taken out and `len` bytes were put at the end for it. */
  function Renewed(ss: seq<Slice>, off: nat, k: nat, len: nat): (ts: seq<Slice>)
    requires Within(ss, off) && Disjoint(ss) && k < |ss|
    ensures |ts| == |ss|
  {
    OthersBehind(ss, off, k);
    Lowered(ss, ss[k].start, ss[k].len)[k := Slice(off - ss[k].len, len)]
  }

  /** The buffer after the same. */
  function Rewritten(mem: seq<byte>, s: Slice, off: nat, nalu: Nal): (r: seq<byte>)
    requires End(s) <= off <= |mem| && off - s.len + |nalu| <= |mem|
    ensures |r| == |mem|
  {
    var m := Pulled(mem, s.start, s.len, off);
    m[..off - s.len] + nalu + m[off - s.len + |nalu|..]
  }

  /** Where a slice other than k lies after the replacement. */
  lemma RenewedAt(ss: seq<Slice>, off: nat, k: nat, len: nat, i: nat)
    requires Within(ss, off) && Disjoint(ss) && k < |ss| && i < |ss| && i != k
    ensures var t, n, ptr := Renewed(ss, off, k, len)[i], ss[k].len, ss[k].start;
            && t.len == ss[i].len && End(t) <= off - n
            && (if ss[i].start > ptr then t.start == ss[i].start - n >= ptr else t == ss[i] && (End(t) <= ptr || n == 0))
  {
    OthersBehind(ss, off, k);
  }

  lemma RenewedDisjoint(ss: seq<Slice>, off: nat, k: nat, len: nat)
    requires Within(ss, off) && Disjoint(ss) && k < |ss|
    ensures var ts := Renewed(ss, off, k, len); Within(ts, off - ss[k].len + len) && Disjoint(ts)
  {
    var ts := Renewed(ss, off, k, len);
    OthersBehind(ss, off, k);
    forall i, j | 0 <= i < j < |ts|
      ensures Apart(ts[i], ts[j])
    {
      assert Apart(ss[i], ss[j]);
    }
  }

  lemma RenewedCovers(ss: seq<Slice>, off: nat, k: nat, len: nat)
    requires Tiled(ss, off) && k < |ss|
    ensures Covered(Renewed(ss, off, k, len), off - ss[k].len + len)
  {
    var ts, n, ptr := Renewed(ss, off, k, len), ss[k].len, ss[k].start;
    forall p | 0 <= p < off - n + len
      ensures CoveredAt(ts, p)
    {
      if p >= off - n {
        assert Holds(ts[k], p);
      } else {
        var q := if p < ptr then p else p + n;
        assert CoveredAt(ss, q);
        var i :| 0 <= i < |ss| && Holds(ss[i], q);
        if i != k {
          RenewedAt(ss, off, k, len, i);
          assert Holds(ts[i], p);
        }
      }
    }
  }

  lemma RenewedLengths(ss: seq<Slice>, off: nat, k: nat, len: nat)
    requires Within(ss, off) && Disjoint(ss) && k < |ss|
    requires forall i :: 0 <= i < |ss| ==> ss[i].start > ss[k].start ==> ss[i].start >= ss[k].len
    ensures var ts := Renewed(ss, off, k, len);
            |ts| == |ss| && forall i :: 0 <= i < |ss| ==> ts[i].len == if i == k then len else ss[i].len
  {
  }

  lemma {:induction false} RenewedSum(ss: seq<Slice>, off: nat, k: nat, len: nat, n: nat)
    requires Within(ss, off) && Disjoint(ss) && k < |ss| && n <= |ss|
    ensures var ts := Renewed(ss, off, k, len);
            if k < n then LenSum(ts, n) + ss[k].len == LenSum(ss, n) + len else LenSum(ts, n) == LenSum(ss, n)
  {
    hide Within, Disjoint, Renewed;
    OthersBehind(ss, off, k);
    RenewedLengths(ss, off, k, len);
    if n > 0 {
      RenewedSum(ss, off, k, len, n - 1);
    }
  }

  lemma ContentMoves(mem: seq<byte>, s: Slice, off: nat, nalu: Nal, x: Slice, y: Slice)
    requires End(s) <= off <= |mem| && off - s.len + |nalu| <= |mem|
    requires End(x) <= off && y.len == x.len && End(y) <= off - s.len
    requires if x.start > s.start then x.start >= End(s) && y.start == x.start - s.len else y == x && (End(x) <= s.start || s.len == 0)
    ensures Content(Rewritten(mem, s, off, nalu), y) == Content(mem, x)
  {
    hide Rewritten;
    var r := Content(Rewritten(mem, s, off, nalu), y);
    forall j | 0 <= j < |r|
      ensures r[j] == Content(mem, x)[j]
    {
      RewrittenAt(mem, s, off, nalu, y.start + j);
    }
  }

  /** Below the new set, the bytes behind s have moved down and the others have stayed. */
  lemma RewrittenAt(mem: seq<byte>, s: Slice, off: nat, nalu: Nal, p: nat)
    requires End(s) <= off <= |mem| && off - s.len + |nalu| <= |mem| && p < off - s.len
    ensures Rewritten(mem, s, off, nalu)[p] == if p < s.start then mem[p] else mem[p + s.len]
  {
    assert Rewritten(mem, s, off, nalu)[p] == Pulled(mem, s.start, s.len, off)[p];
  }

  /** Replacing one set changes that set and no other, wherever their bytes have moved to. */
  lemma ReplaceKeeps(mem: seq<byte>, ss: seq<Slice>, off: nat, k: nat, nalu: Nal)
    requires Tiled(ss, off) && off <= |mem| && k < |ss| && off - ss[k].len + |nalu| <= |mem|
    ensures var ts, r := Renewed(ss, off, k, |nalu|), Rewritten(mem, ss[k], off, nalu);
            && Tiled(ts, off - ss[k].len + |nalu|)
            && Within(ts, |mem|) && Contents(r, ts) == Contents(mem, ss)[k := nalu]
  {
    hide Content, Rewritten;
    var ts, r := Renewed(ss, off, k, |nalu|), Rewritten(mem, ss[k], off, nalu);
    RenewedDisjoint(ss, off, k, |nalu|);
    RenewedCovers(ss, off, k, |nalu|);
    RenewedSum(ss, off, k, |nalu|, |ss|);
    OthersBehind(ss, off, k);
    forall i | 0 <= i < |ts|
      ensures Content(r, ts[i]) == if i == k then nalu else Content(mem, ss[i])
    {
      if i == k {
        NewContent(mem, ss[k], off, nalu);
      } else {
        RenewedAt(ss, off, k, |nalu|, i);
        ContentMoves(mem, ss[k], off, nalu, ss[i], ts[i]);
      }
    }
  }

  lemma NewContent(mem: seq<byte>, s: Slice, off: nat, nalu: Nal)
    requires End(s) <= off <= |mem| && off - s.len + |nalu| <= |mem|
    ensures Content(Rewritten(mem, s, off, nalu), Slice(off - s.len, |nalu|)) == nalu
  {
  }

  /** A set appended at the end leaves the others alone; `at` is where its slice enters the list. */
  lemma AppendKeeps(mem: seq<byte>, ss: seq<Slice>, off: nat, at: nat, nalu: Nal)
    requires Tiled(ss, off) && at <= |ss| && off + |nalu| <= |mem|
    ensures var ts, r := ss[..at] + [Slice(off, |nalu|)] + ss[at..], mem[..off] + nalu + mem[off + |nalu|..];
            && Tiled(ts, off + |nalu|)
            && Within(ts, |mem|) && Contents(r, ts) == Contents(mem, ss)[..at] + [nalu] + Contents(mem, ss)[at..]
  {
    var ts, r := ss[..at] + [Slice(off, |nalu|)] + ss[at..], mem[..off] + nalu + mem[off + |nalu|..];
    AppendTiled(ss, off, at, |nalu|);
    var us := Contents(mem, ss);
    forall i | 0 <= i < |ts|
      ensures Content(r, ts[i]) == (us[..at] + [nalu] + us[at..])[i]
    {
      if i == at {
        assert Content(r, Slice(off, |nalu|)) == nalu;
      } else {
        var j := if i < at then i else i - 1;
        assert ts[i] == ss[j];
        SameFront(mem, r, off, ss[j]);
      }
    }
  }

  lemma SameFront(mem: seq<byte>, r: seq<byte>, off: nat, s: Slice)
    requires |r| == |mem| && End(s) <= off <= |mem| && r[..off] == mem[..off]
    ensures Content(r, s) == Content(mem, s)
  {
    assert r[..off][s.start..End(s)] == Content(r, s);
    assert mem[..off][s.start..End(s)] == Content(mem, s);
  }

  /** `ts` is `ss` with x at place `at`. */
  predicate Inserted(ss: seq<Slice>, ts: seq<Slice>, at: nat, x: Slice)
  {
    && at <= |ss| && |ts| == |ss| + 1
    && forall i :: 0 <= i < |ts| ==> ts[i] == InsertedAt(ss, at, x, i)
  }

  function InsertedAt(ss: seq<Slice>, at: nat, x: Slice, i: nat): Slice
    requires at <= |ss| && i <= |ss|
  {
    if i < at then ss[i] else if i == at then x else ss[i - 1]
  }

  lemma {:induction false} InsertedSum(ss: seq<Slice>, ts: seq<Slice>, at: nat, x: Slice, n: nat)
    requires Inserted(ss, ts, at, x) && n <= |ts|
    ensures if n <= at then LenSum(ts, n) == LenSum(ss, n) else LenSum(ts, n) == LenSum(ss, n - 1) + x.len
  {
    if n > 0 {
      InsertedSum(ss, ts, at, x, n - 1);
    }
  }

  lemma AppendTiled(ss: seq<Slice>, off: nat, at: nat, len: nat)
    requires Tiled(ss, off) && at <= |ss|
    ensures Tiled(ss[..at] + [Slice(off, len)] + ss[at..], off + len)
  {
    hide LenSum, CoveredAt, Covered;
    var ts := ss[..at] + [Slice(off, len)] + ss[at..];
    assert Inserted(ss, ts, at, Slice(off, len));
    InsertedSum(ss, ts, at, Slice(off, len), |ts|);
    InsertedCovers(ss, ts, off, at, len);
    InsertedDisjoint(ss, ts, off, at, len);
  }

  lemma InsertedDisjoint(ss: seq<Slice>, ts: seq<Slice>, off: nat, at: nat, len: nat)
    requires Within(ss, off) && Disjoint(ss) && Inserted(ss, ts, at, Slice(off, len))
    ensures Within(ts, off + len) && Disjoint(ts)
  {
    forall i, j | 0 <= i < j < |ts|
      ensures Apart(ts[i], ts[j])
    {
      if i < at < j || j < at {
        assert Apart(ss[i], ss[if j < at then j else j - 1]);
      } else if i > at {
        assert Apart(ss[i - 1], ss[j - 1]);
      }
    }
  }

  lemma InsertedCovers(ss: seq<Slice>, ts: seq<Slice>, off: nat, at: nat, len: nat)
    requires Covered(ss, off) && Inserted(ss, ts, at, Slice(off, len))
    ensures Covered(ts, off + len)
  {
    forall p | 0 <= p < off + len
      ensures CoveredAt(ts, p)
    {
      if p < off {
        assert CoveredAt(ss, p);
        var i :| 0 <= i < |ss| && Holds(ss[i], p);
        assert Holds(ts[if i < at then i else i + 1], p);
      } else {
        assert Holds(ts[at], p);
      }
    }
  }
}
