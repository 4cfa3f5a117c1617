/** mpeg4-avc.c: the AVC decoder configuration record (ISO/IEC 14496-15, section 5.2.4.1.1). */
module AvcConfig {
  import opened Bytes
  import opened NalUnits
  import opened ParamArena
  import opened ParamStore

  // ---------- writing ----------

  /** The 16-bit length field counts modulo 2^16. */
  function SetBytes(u: Nal): (bs: seq<byte>)
    ensures |bs| == 2 + |u|
  {
    BE16(|u| % 0x1_0000) + u
  }

  /** The first n sets, each behind its length. */
  function SetsBytes(us: seq<Nal>, n: nat): (bs: seq<byte>)
    requires n <= |us|
  {
    if n == 0 then [] else SetsBytes(us, n - 1) + SetBytes(us[n - 1])
  }

  predicate HighProfile(profile: byte)
  {
    profile in {100, 110, 122, 244, 44, 83, 86, 118, 128, 138, 139, 134}
  }

  /** Profile dependent tail; the masks of the source keep the low bits of each value. */
  datatype Extension = Extension(chromaFormat: byte, lumaDepth: byte, chromaDepth: byte)

  function TailBytes(e: Extension): seq<byte>
  {
    [0xFC + e.chromaFormat % 4, 0xF8 + e.lumaDepth % 8, 0xF8 + e.chromaDepth % 8, 0]
  }

  function HeadBytes(s: Sets, nalu: nat): (bs: seq<byte>)
    requires 1 <= nalu <= 4
    ensures |bs| == 6
  {
    [1, s.profile, s.compatibility, s.level, 0xFC + (nalu - 1), 0xE0 + |s.sps| % 0x20]
  }

  /** The record up to its profile dependent tail. */
  function Record(s: Sets, nalu: nat): (bs: seq<byte>)
    requires 1 <= nalu <= 4 && |s.pps| < MAX_PPS
  {
    HeadBytes(s, nalu) + SetsBytes(s.sps, |s.sps|) + [|s.pps|] + SetsBytes(s.pps, |s.pps|)
  }

  lemma {:induction false} SetsGrow(us: seq<Nal>, i: nat, n: nat)
    requires i <= n <= |us|
    ensures |SetsBytes(us, i)| <= |SetsBytes(us, n)|
  {
    if i < n {
      SetsGrow(us, i, n - 1);
    }
  }

  lemma SetsStep(us: seq<Nal>, n: nat)
    ensures SetsBytes(us, 0) == []
    ensures n < |us| ==> SetsBytes(us, n + 1) == SetsBytes(us, n) + SetBytes(us[n])
  {
  }

  lemma LengthsOf(mem: seq<byte>, ss: seq<Slice>)
    requires Within(ss, |mem|)
    ensures forall i :: 0 <= i < |ss| ==> |Contents(mem, ss)[i]| == ss[i].len
  {
  }

  lemma StoredIs(store: Store, ss: seq<Slice>, i: nat)
    requires Within(ss, store.data.Length) && i < |ss|
    ensures store.Stored(ss[i]) == Contents(store.data[..], ss)[i]
  {
  }

  /** One of the two loops of the save function; `room` counts down and runs out exactly when the sets do not fit. */
  method SaveSets(store: Store, ss: seq<Slice>, room: nat) returns (ok: bool, bs: seq<byte>)
    requires Within(ss, store.data.Length)
    ensures var us := Contents(store.data[..], ss);
            && (ok <==> |SetsBytes(us, |us|)| <= room)
            && (ok ==> bs == SetsBytes(us, |us|))
  {
    hide Content, SetsBytes;
    ghost var us := Contents(store.data[..], ss);
    LengthsOf(store.data[..], ss);
    SetsStep(us, 0);
    bs := [];
    var left, i := room, 0;
    while i < |ss| && left >= ss[i].len + 2
      invariant 0 <= i <= |ss| && left >= 0 && bs == SetsBytes(us, i) && left == room - |bs|
    {
      SetsStep(us, i);
      StoredIs(store, ss, i);
      bs := bs + (BE16(ss[i].len % 0x1_0000) + store.Stored(ss[i]));
      left := left - (ss[i].len + 2);
      i := i + 1;
    }
    ok := i == |ss|;
    if i < |ss| {
      SetsStep(us, i);
      SetsGrow(us, i + 1, |us|);
    }
  }

  /** The record up to its tail, unless it does not fit. */
  method SaveRecord(store: Store, nalu: nat, capacity: nat) returns (ok: bool, bs: seq<byte>)
    requires store.Valid() && 1 <= nalu <= 4
    ensures ok <==> |Record(store.Now(), nalu)| <= capacity
    ensures ok ==> bs == Record(store.Now(), nalu)
  {
    hide Tiled, SetsBytes;
    SplitContents(store.data[..], store.sps, store.pps, store.off);
    ok, bs := false, [];
    if capacity < 7 {
      return;
    }
    var sizes: byte, count: byte := 0xFC + (nalu - 1), 0xE0 + |store.sps| % 0x20;
    bs := [1, store.profile, store.compatibility, store.level, sizes, count];
    var left := capacity - 7;
    var part: seq<byte>;
    ok, part := SaveSets(store, store.sps, left);
    if ok {
      left := left - |part|;
      count := |store.pps|;
      bs := bs + part + [count];
      ok, part := SaveSets(store, store.pps, left);
      bs := bs + part;
    }
  }

  /** mpeg4_avc_decoder_configuration_record_save into a buffer of `capacity` bytes. */
  method Save(store: Store, nalu: nat, ext: Extension, capacity: nat) returns (r: int, bs: seq<byte>)
    requires store.Valid() && 1 <= nalu <= 4
    ensures var record := Record(store.Now(), nalu);
            && (r == -1 <==> capacity < |record|)
            && (r != -1 ==>
                  && r == |bs|
                  && bs == record + if capacity >= |record| + 4 && HighProfile(store.profile) then TailBytes(ext) else [])
  {
    hide Tiled, HighProfile, Record;
    var ok;
    ok, bs := SaveRecord(store, nalu, capacity);
    if !ok {
      return -1, [];
    }
    if capacity - |bs| >= 4 && HighProfile(store.profile) {
      bs := bs + [0xFC + ext.chromaFormat % 4, 0xF8 + ext.lumaDepth % 8, 0xF8 + ext.chromaDepth % 8, 0];
    }
    r := |bs|;
  }

  // ---------- reading ----------

  /** Sets taken from a record, where the reading stopped, and whether their lengths were acceptable. */
  datatype Taken = Taken(us: seq<Nal>, j: nat, ok: bool)

  /** Up to n sets from byte j on; at least `behind` bytes must follow each, and they must fit the arena. */
  function TakeSets(d: seq<byte>, j: nat, n: nat, behind: nat, off: nat): (t: Taken)
    ensures |t.us| <= n
    decreases n
  {
    if n == 0 || j + 2 >= |d| then Taken([], j, true)
    else
      var len := (d[j] as int) * 0x100 + d[j + 1] as int;
      if j + 2 + len + behind > |d| || off + len > ARENA then Taken([], j, false)
      else
        var t := TakeSets(d, j + 2 + len, n - 1, behind, off + len);
        Taken([d[j + 2..j + 2 + len]] + t.us, t.j, t.ok)
  }

  function Total(us: seq<Nal>, n: nat): nat
    requires n <= |us|
  {
    if n == 0 then 0 else Total(us, n - 1) + |us[n - 1]|
  }

  lemma {:induction false} SetsFront(us: seq<Nal>, n: nat)
    requires 0 < n <= |us|
    ensures SetsBytes(us, n) == SetBytes(us[0]) + SetsBytes(us[1..], n - 1)
  {
    if n > 1 {
      SetsFront(us, n - 1);
    }
  }

  lemma {:induction false} TotalFront(us: seq<Nal>, n: nat)
    requires 0 < n <= |us|
    ensures Total(us, n) == |us[0]| + Total(us[1..], n - 1)
  {
    if n > 1 {
      TotalFront(us, n - 1);
    }
  }

  /** The first set behind `pre`. */
  lemma FirstSet(d: seq<byte>, pre: seq<byte>, us: seq<Nal>, post: seq<byte>)
    requires us != [] && |us[0]| < 0x1_0000 && d == pre + SetsBytes(us, |us|) + post
    ensures d == (pre + SetBytes(us[0])) + SetsBytes(us[1..], |us[1..]|) + post
    ensures |pre| + 2 + |us[0]| <= |d|
    ensures (d[|pre|] as int) * 0x100 + d[|pre| + 1] as int == |us[0]|
    ensures d[|pre| + 2..|pre| + 2 + |us[0]|] == us[0]
  {
    SetsFront(us, |us|);
    Append(pre, SetBytes(us[0]), SetsBytes(us[1..], |us[1..]|));
    var x := SetBytes(us[0]);
    assert x[0] == (|us[0]| % 0x1_0000) / 0x100 && x[1] == |us[0]| % 0x100;
    assert d[|pre|] == x[0] && d[|pre| + 1] == x[1];
  }

  /** The loop condition of the load function holds in front of every set that was written. */
  lemma MoreThanLength(us: seq<Nal>, post: seq<byte>, behind: nat)
    requires us != [] && behind <= |post| && (post == [] ==> us[|us| - 1] != [])
    ensures |SetsBytes(us, |us|)| + |post| > 2
    ensures 2 + |us[0]| + behind <= |SetsBytes(us, |us|)| + |post|
    ensures var rest := us[1..]; rest != [] && post == [] ==> rest[|rest| - 1] != []
  {
    SetsFront(us, |us|);
    if |us| > 1 {
      SetsGrow(us[1..], 1, |us| - 1);
      assert SetsBytes(us[1..], 0) == [];
    }
  }

  lemma TakeStep(d: seq<byte>, j: nat, n: nat, behind: nat, off: nat)
    ensures n == 0 || j + 2 >= |d| ==> TakeSets(d, j, n, behind, off) == Taken([], j, true)
    ensures n > 0 && j + 2 < |d| ==>
      var len := (d[j] as int) * 0x100 + d[j + 1] as int;
      if j + 2 + len + behind > |d| || off + len > ARENA then TakeSets(d, j, n, behind, off) == Taken([], j, false)
      else
        var s := TakeSets(d, j + 2 + len, n - 1, behind, off + len);
        TakeSets(d, j, n, behind, off) == Taken([d[j + 2..j + 2 + len]] + s.us, s.j, s.ok)
  {
  }

  lemma TakeFirst(d: seq<byte>, pre: seq<byte>, us: seq<Nal>, post: seq<byte>, behind: nat, off: nat)
    requires us != [] && |us[0]| < 0x1_0000 && d == pre + SetsBytes(us, |us|) + post && behind <= |post|
    requires off + |us[0]| <= ARENA && (post == [] ==> us[|us| - 1] != [])
    ensures var t := TakeSets(d, |pre| + |SetBytes(us[0])|, |us| - 1, behind, off + |us[0]|);
            TakeSets(d, |pre|, |us|, behind, off) == Taken([us[0]] + t.us, t.j, t.ok)
  {
    hide SetsBytes, TakeSets, SetBytes;
    FirstSet(d, pre, us, post);
    MoreThanLength(us, post, behind);
    FileLength(d, pre, us, post);
    TakeStep(d, |pre|, |us|, behind, off);
  }

  lemma FileLength(d: seq<byte>, pre: seq<byte>, us: seq<Nal>, post: seq<byte>)
    requires d == pre + SetsBytes(us, |us|) + post
    ensures |d| == |pre| + |SetsBytes(us, |us|)| + |post|
  {
  }

  /** Written sets are read back whole, and reading stops right behind them. */
  lemma {:induction false} SetsReadBack(d: seq<byte>, pre: seq<byte>, us: seq<Nal>, post: seq<byte>,
                                        behind: nat, off: nat)
    requires d == pre + SetsBytes(us, |us|) + post && behind <= |post| && off + Total(us, |us|) <= ARENA
    requires us != [] && post == [] ==> us[|us| - 1] != []
    ensures TakeSets(d, |pre|, |us|, behind, off) == Taken(us, |pre| + |SetsBytes(us, |us|)|, true)
    decreases |us|, 1
  {
    if us == [] {
      TakeStep(d, |pre|, 0, behind, off);
    } else {
      TotalFront(us, |us|);
      SetsFront(us, |us|);
      FirstSet(d, pre, us, post);
      MoreThanLength(us, post, behind);
      TakeFirst(d, pre, us, post, behind, off);
      Rest(d, pre, us, post, behind, off);
    }
  }

  lemma {:induction false} Rest(d: seq<byte>, pre: seq<byte>, us: seq<Nal>, post: seq<byte>, behind: nat, off: nat)
    requires us != [] && d == (pre + SetBytes(us[0])) + SetsBytes(us[1..], |us[1..]|) + post && behind <= |post|
    requires off + |us[0]| + Total(us[1..], |us[1..]|) <= ARENA
    requires us[1..] != [] && post == [] ==> us[1..][|us[1..]| - 1] != []
    ensures var t := TakeSets(d, |pre| + |SetBytes(us[0])|, |us| - 1, behind, off + |us[0]|);
            [us[0]] + t.us == us && t.j == |pre| + |SetBytes(us[0])| + |SetsBytes(us[1..], |us| - 1)| && t.ok
    decreases |us|, 0
  {
    hide SetsBytes, SetBytes, Total, TakeSets;
    SetsReadBack(d, pre + SetBytes(us[0]), us[1..], post, behind, off + |us[0]|);
    assert [us[0]] + us[1..] == us;
  }

  /** The three values behind the record, and which profiles have them (section 7.3.2.1.1 of ISO/IEC 14496-10). */
  lemma TailReads(profile: byte, e: Extension)
    ensures var tail := if HighProfile(profile) then TailBytes(e) else [];
            && (profile in [44, 83, 86, 100, 110, 118, 122, 128, 134, 138, 139, 244] <==> |tail| == 4)
            && (|tail| == 0 || |tail| == 4)
            && (|tail| == 4 ==>
                  && tail[0] / 4 == 0x3F && tail[0] % 4 == e.chromaFormat % 4
                  && tail[1] / 8 == 0x1F && tail[1] % 8 == e.lumaDepth % 8
                  && tail[2] / 8 == 0x1F && tail[2] % 8 == e.chromaDepth % 8 && tail[3] == 0)
  {
  }

  // ---------- the load function ----------

  /** Return value and state after a load, as far as the record determines it. */
  datatype Loaded = Loaded(r: int, sps: seq<Nal>, pps: seq<Nal>)

  function LoadOf(d: seq<byte>): Loaded
  {
    if |d| < 7 then Loaded(-1, [], [])
    else
      var a := TakeSets(d, 6, d[5] % 0x20, 1, 0);
      if !a.ok || a.j >= |d| then Loaded(-1, a.us, [])
      else
        var b := TakeSets(d, a.j + 1, d[a.j], 0, Total(a.us, |a.us|));
        Loaded(if b.ok then b.j else -1, a.us, b.us)
  }

  /** The slices follow each other without gaps from lo to hi. */
  predicate Stacked(ss: seq<Slice>, lo: nat, hi: nat)
  {
    && (ss == [] ==> lo == hi)
    && (ss != [] ==> ss[0].start == lo && End(ss[|ss| - 1]) == hi)
    && forall i :: 0 < i < |ss| ==> ss[i].start == End(ss[i - 1])
  }

  lemma {:induction false} StackedAscends(ss: seq<Slice>, lo: nat, hi: nat, i: nat, j: nat)
    requires Stacked(ss, lo, hi) && i <= j < |ss|
    ensures ss[i].start <= ss[j].start && (i < j ==> End(ss[i]) <= ss[j].start)
  {
    if i < j {
      StackedAscends(ss, lo, hi, i, j - 1);
    }
  }

  lemma {:induction false} StackedCovers(ss: seq<Slice>, hi: nat, n: nat, p: nat)
    requires 0 < n <= |ss| && Stacked(ss, 0, hi) && p < End(ss[n - 1])
    ensures CoveredAt(ss, p)
  {
    if p < ss[n - 1].start {
      StackedCovers(ss, hi, n - 1, p);
    } else {
      assert Holds(ss[n - 1], p);
    }
  }

  lemma {:induction false} StackedSum(ss: seq<Slice>, hi: nat, n: nat)
    requires n <= |ss| && Stacked(ss, 0, hi)
    ensures LenSum(ss, n) == if n == 0 then 0 else End(ss[n - 1])
  {
    if n > 0 {
      StackedSum(ss, hi, n - 1);
    }
  }

  lemma StackedTiled(ss: seq<Slice>, hi: nat)
    requires Stacked(ss, 0, hi)
    ensures Tiled(ss, hi)
  {
    var n := |ss|;
    StackedSum(ss, hi, n);
    forall i | 0 <= i < n
      ensures End(ss[i]) <= hi
    {
      StackedAscends(ss, 0, hi, i, n - 1);
    }
    forall i, j | 0 <= i < j < n
      ensures Apart(ss[i], ss[j])
    {
      StackedAscends(ss, 0, hi, i, j);
    }
    forall p | 0 <= p < hi
      ensures CoveredAt(ss, p)
    {
      StackedCovers(ss, hi, n, p);
    }
  }

  lemma StackedJoin(a: seq<Slice>, b: seq<Slice>, lo: nat, m: nat, hi: nat)
    requires Stacked(a, lo, m) && Stacked(b, m, hi)
    ensures Stacked(a + b, lo, hi)
  {
  }

  /** One more set at the end of the stack. */
  lemma StackedPush(mem: seq<byte>, r: seq<byte>, ss: seq<Slice>, lo: nat, off: nat, u: Nal)
    requires Stacked(ss, lo, off) && lo <= off && off + |u| <= |mem| && Within(ss, off)
    requires r == mem[..off] + u + mem[off + |u|..]
    ensures var ts := ss + [Slice(off, |u|)];
            && Stacked(ts, lo, off + |u|) && Within(ts, off + |u|) && Within(ss, |mem|) && Within(ts, |mem|) && |r| == |mem|
            && Contents(r, ts) == Contents(mem, ss) + [u] && r[..off] == mem[..off]
  {
    var ts := ss + [Slice(off, |u|)];
    forall i | 0 <= i < |ts|
      ensures Content(r, ts[i]) == (Contents(mem, ss) + [u])[i]
    {
      if i < |ss| {
        SameFront(mem, r, off, ss[i]);
      }
    }
  }

  lemma TotalPush(us: seq<Nal>, u: Nal)
    ensures Total(us + [u], |us| + 1) == Total(us, |us|) + |u|
  {
    TotalSame(us, us + [u], |us|);
  }

  lemma {:induction false} TotalSame(us: seq<Nal>, vs: seq<Nal>, n: nat)
    requires n <= |us| && n <= |vs| && forall i :: 0 <= i < n ==> us[i] == vs[i]
    ensures Total(us, n) == Total(vs, n)
  {
    if n > 0 {
      TotalSame(us, vs, n - 1);
    }
  }

  /** Both lists of a store are what a load of the record finds in it. */
  ghost predicate HoldsRecord(store: Store, d: seq<byte>)
    reads store, store.data
  {
    store.Valid() && |d| >= 7
    && Loaded(LoadOf(d).r, store.Sps(), store.Pps()) == LoadOf(d)
    && store.profile == d[1] && store.compatibility == d[2] && store.level == d[3] && store.nalu == d[4] % 4 + 1
  }

  /** Where one of the two loops of the load function is. */
  ghost predicate Taking(mem: seq<byte>, was: seq<byte>, ss: seq<Slice>, us: seq<Nal>, lo: nat, off: nat)
  {
    && |mem| == |was| == ARENA && lo <= off <= ARENA && mem[..lo] == was[..lo]
    && Stacked(ss, lo, off) && Within(ss, off) && Within(ss, ARENA) && Contents(mem, ss) == us
    && off == lo + Total(us, |us|)
  }

  lemma TakingNext(mem: seq<byte>, r: seq<byte>, was: seq<byte>, ss: seq<Slice>, us: seq<Nal>, lo: nat,
                   off: nat, u: Nal)
    requires Taking(mem, was, ss, us, lo, off) && off + |u| <= ARENA && r == mem[..off] + u + mem[off + |u|..]
    ensures Taking(r, was, ss + [Slice(off, |u|)], us + [u], lo, off + |u|)
  {
    StackedPush(mem, r, ss, lo, off, u);
    TotalPush(us, u);
    assert r[..lo] == mem[..lo];
  }

  lemma TakingNone(mem: seq<byte>, lo: nat)
    requires |mem| == ARENA && lo <= ARENA
    ensures Taking(mem, mem, [], [], lo, lo)
  {
  }

  /** One of the two loops of the load function. */
  method TakeInto(store: Store, d: seq<byte>, from: nat, count: nat, behind: nat)
    returns (ok: bool, j: nat, ss: seq<Slice>, ghost us: seq<Nal>)
    requires store.data.Length == ARENA && store.off <= ARENA
    modifies store.data, store`off
    ensures Taken(us, j, ok) == TakeSets(d, from, count, behind, old(store.off))
    ensures Taking(store.data[..], old(store.data[..]), ss, us, old(store.off), store.off)
  {
    hide TakeSets, Taking, Total;
    ghost var t, lo := TakeSets(d, from, count, behind, store.off), store.off;
    TakingNone(store.data[..], lo);
    ok, j, ss, us := true, from, [], [];
    var i: nat := 0;
    while i < count && j + 2 < |d|
      invariant i <= count && ok
      invariant store.off <= ARENA && Taking(store.data[..], old(store.data[..]), ss, us, lo, store.off)
      invariant var rest := TakeSets(d, j, count - i, behind, store.off);
                t.us == us + rest.us && t.j == rest.j && t.ok == rest.ok
    {
      TakeStep(d, j, count - i, behind, store.off);
      var len := (d[j] as int) * 0x100 + d[j + 1] as int;
      if j + 2 + len + behind > |d| || store.off + len > ARENA {
        ok := false;
        return;
      }
      ghost var mem, off, rest := store.data[..], store.off, TakeSets(d, j + 2 + len, count - i - 1, behind, store.off + len);
      var u := d[j + 2..j + 2 + len];
      TakingNext(mem, mem[..off] + u + mem[off + |u|..], old(store.data[..]), ss, us, lo, off, u);
      Append(us, [u], rest.us);
      ss := ss + [Slice(store.off, len)];
      store.Put(u);
      us := us + [u];
      j := j + len + 2;
      i := i + 1;
    }
    TakeStep(d, j, count - i, behind, store.off);
  }

  /** The second loop leaves what the first one stored, and the two stacks make one. */
  lemma BothTaken(m0: seq<byte>, m1: seq<byte>, m2: seq<byte>, a: seq<Slice>, us: seq<Nal>, b: seq<Slice>,
                  vs: seq<Nal>, m: nat, off: nat)
    requires Taking(m1, m0, a, us, 0, m) && Taking(m2, m1, b, vs, m, off)
    ensures Tiled(a + b, off) && off <= ARENA == |m2| && m == Total(us, |us|)
    ensures Within(a, |m2|) && Within(b, |m2|) && Contents(m2, a) == us && Contents(m2, b) == vs
  {
    StackedJoin(a, b, 0, m, off);
    StackedTiled(a + b, off);
    forall i | 0 <= i < |a|
      ensures Content(m2, a[i]) == Content(m1, a[i]) == us[i]
    {
      SameFront(m1, m2, m, a[i]);
      assert Contents(m1, a)[i] == us[i];
    }
  }

  /** The inner load function; after a failure the caller clears the structure. */
  method Load(store: Store, d: seq<byte>) returns (r: int)
    requires store.data.Length == ARENA
    modifies store, store.data
    ensures r == LoadOf(d).r
    ensures r != -1 ==> HoldsRecord(store, d)
  {
    hide TakeSets, Taking, Total, Tiled;
    r := -1;
    if |d| < 7 {
      return;
    }
    store.profile, store.compatibility, store.level := d[1], d[2], d[3];
    store.nalu := d[4] % 4 + 1;
    store.off := 0;
    ghost var m0 := store.data[..];
    var ok, j, a, us := TakeInto(store, d, 6, d[5] % 0x20, 1);
    if !ok || j >= |d| {
      return;
    }
    ghost var m1, m := store.data[..], store.off;
    TotalOf(m1, m0, a, us, m);
    var good, k, b, vs := TakeInto(store, d, j + 1, d[j], 0);
    if !good {
      return;
    }
    BothTaken(m0, m1, store.data[..], a, us, b, vs, m, store.off);
    store.sps, store.pps := a, b;
    r := k;
  }

  lemma TotalOf(mem: seq<byte>, was: seq<byte>, a: seq<Slice>, us: seq<Nal>, m: nat)
    requires Taking(mem, was, a, us, 0, m)
    ensures m == Total(us, |us|) <= ARENA && |a| == |us|
  {
    assert |Contents(mem, a)| == |a|;
  }

  // ---------- round trip ----------

  /** The loop of the load function stops in front of a last set of no bytes, with nothing behind it. */
  predicate EndsEmpty(us: seq<Nal>, tail: seq<byte>) { tail == [] && us != [] && us[|us| - 1] == [] }

  /** Loading a saved record gives back every set, for up to 31 sps: the count field has five bits. */
  lemma RecordRoundTrip(s: Sets, nalu: nat, tail: seq<byte>)
    requires 1 <= nalu <= 4 && |s.sps| <= 31 && |s.pps| < MAX_PPS
    requires Total(s.sps, |s.sps|) + Total(s.pps, |s.pps|) <= ARENA && !EndsEmpty(s.pps, tail)
    ensures var d := Record(s, nalu) + tail;
            && LoadOf(d) == Loaded(|Record(s, nalu)|, s.sps, s.pps)
            && |d| >= 7 && d[0] == 1 && d[1] == s.profile && d[2] == s.compatibility && d[3] == s.level
            && d[4] / 4 == 0x3F && d[4] % 4 + 1 == nalu && d[5] / 0x20 == 7 && d[5] % 0x20 == |s.sps|
  {
    hide SetsBytes, TakeSets, Total;
    var n: byte := |s.pps|;
    var head, a, b := HeadBytes(s, nalu), SetsBytes(s.sps, |s.sps|), SetsBytes(s.pps, |s.pps|);
    var d := Record(s, nalu) + tail;
    assert d == head + a + ([n] + b + tail);
    SetsReadBack(d, head, s.sps, [n] + b + tail, 1, 0);
    assert d == (head + a + [n]) + b + tail;
    SetsReadBack(d, head + a + [n], s.pps, tail, 0, Total(s.sps, |s.sps|));
    assert d[5] == head[5] && d[|head + a|] == n;
  }

  /** With 32 sps the count field overflows, and none of them is loaded. */
  lemma ThirtyTwoSpsAreLost(s: Sets, nalu: nat, tail: seq<byte>)
    requires 1 <= nalu <= 4 && |s.sps| == 32 && |s.pps| < MAX_PPS
    ensures LoadOf(Record(s, nalu) + tail).sps == []
  {
    hide SetsBytes;
    var d := Record(s, nalu) + tail;
    assert d[5] == HeadBytes(s, nalu)[5];
  }

  lemma {:induction false} LastEmptyIsLost(d: seq<byte>, pre: seq<byte>, us: seq<Nal>, off: nat)
    requires d == pre + SetsBytes(us, |us|) && us != [] && us[|us| - 1] == [] && off + Total(us, |us|) <= ARENA
    ensures TakeSets(d, |pre|, |us|, 0, off).us != us
    decreases |us|
  {
    hide SetsBytes, SetBytes, Total, TakeSets;
    assert d == pre + SetsBytes(us, |us|) + [];
    TotalFront(us, |us|);
    SetsFront(us, |us|);
    FirstSet(d, pre, us, []);
    TakeStep(d, |pre|, |us|, 0, off);
    if |us| == 1 {
      SetsStep(us[1..], 0);
    } else {
      LastEmptyIsLost(d, pre + SetBytes(us[0]), us[1..], off + |us[0]|);
      assert forall x: seq<Nal> :: ([us[0]] + x)[1..] == x;
    }
  }

  /** A record gives every set back exactly when there are fewer than 32 sps and it does not end in an empty pps. */
  lemma RecordRoundTripIff(s: Sets, nalu: nat, tail: seq<byte>)
    requires 1 <= nalu <= 4 && |s.sps| <= MAX_SPS && |s.pps| < MAX_PPS
    requires Total(s.sps, |s.sps|) + Total(s.pps, |s.pps|) <= ARENA
    ensures LoadOf(Record(s, nalu) + tail) == Loaded(|Record(s, nalu)|, s.sps, s.pps)
            <==> |s.sps| <= 31 && !EndsEmpty(s.pps, tail)
  {
    hide SetsBytes, TakeSets, Total, Record, LoadOf;
    if |s.sps| == 32 {
      ThirtyTwoSpsAreLost(s, nalu, tail);
    } else if EndsEmpty(s.pps, tail) {
      EmptyPpsIsLost(s, nalu, tail);
    } else {
      RecordRoundTrip(s, nalu, tail);
    }
  }

  lemma EmptyPpsIsLost(s: Sets, nalu: nat, tail: seq<byte>)
    requires 1 <= nalu <= 4 && |s.sps| <= 31 && |s.pps| < MAX_PPS
    requires Total(s.sps, |s.sps|) + Total(s.pps, |s.pps|) <= ARENA && EndsEmpty(s.pps, tail)
    ensures LoadOf(Record(s, nalu) + tail).pps != s.pps
  {
    hide SetsBytes, TakeSets, Total;
    var n: byte := |s.pps|;
    var head, a, b := HeadBytes(s, nalu), SetsBytes(s.sps, |s.sps|), SetsBytes(s.pps, |s.pps|);
    var d := Record(s, nalu) + tail;
    assert d == head + a + ([n] + b);
    SetsReadBack(d, head, s.sps, [n] + b, 1, 0);
    assert d == (head + a + [n]) + b;
    LastEmptyIsLost(d, head + a + [n], s.pps, Total(s.sps, |s.sps|));
    assert d[5] == head[5] && d[|head + a|] == n;
  }

  lemma {:induction false} TotalIsLenSum(mem: seq<byte>, ss: seq<Slice>, all: seq<Slice>, at: nat, n: nat)
    requires Within(ss, |mem|) && n <= |ss| && at + n <= |all| && forall i :: 0 <= i < n ==> all[at + i] == ss[i]
    ensures LenSum(all, at + n) == LenSum(all, at) + Total(Contents(mem, ss), n)
  {
    if n > 0 {
      TotalIsLenSum(mem, ss, all, at, n - 1);
      assert all[at + (n - 1)] == ss[n - 1];
    }
  }

  /** What one store saves another loads, exactly when it has fewer than 32 sps and no empty pps at its end. */
  lemma StoreRoundTrip(store: Store, nalu: nat, tail: seq<byte>)
    requires store.Valid() && 1 <= nalu <= 4
    ensures |store.Sps()| == |store.sps| && |store.Pps()| == |store.pps| < MAX_PPS
    ensures var s := store.Now();
            LoadOf(Record(s, nalu) + tail) == Loaded(|Record(s, nalu)|, s.sps, s.pps)
            <==> |store.sps| <= 31 && !EndsEmpty(store.Pps(), tail)
    ensures var s := store.Now(); var d := Record(s, nalu) + tail;
            |store.sps| <= 31 && !EndsEmpty(store.Pps(), tail) ==>
              |d| >= 7 && d[1] == s.profile && d[2] == s.compatibility && d[3] == s.level && d[4] % 4 + 1 == nalu
  {
    hide Record, LoadOf;
    StoreTotal(store);
    CountBound(store);
    RecordRoundTripIff(store.Now(), nalu, tail);
    if |store.sps| <= 31 && !EndsEmpty(store.Pps(), tail) {
      RecordRoundTrip(store.Now(), nalu, tail);
    }
  }

  lemma CountBound(store: Store)
    requires store.Valid()
    ensures |store.sps| <= MAX_SPS
  {
  }

  /** The used bytes are the sum of the sets. */
  lemma StoreTotal(store: Store)
    requires store.Valid()
    ensures |store.Sps()| == |store.sps| && |store.Pps()| == |store.pps| < MAX_PPS
    ensures Total(store.Sps(), |store.Sps()|) + Total(store.Pps(), |store.Pps()|) == store.off <= ARENA
  {
    hide Tiled, Total, LenSum, Content;
    var mem, a, b := store.data[..], store.sps, store.pps;
    SplitContents(mem, a, b, store.off);
    TiledSum(a + b, store.off);
    TotalIsLenSum(mem, a, a + b, 0, |a|);
    TotalIsLenSum(mem, b, a + b, |a|, |b|);
  }

  lemma TiledSum(ss: seq<Slice>, off: nat)
    requires Tiled(ss, off)
    ensures LenSum(ss, |ss|) == off && LenSum(ss, 0) == 0
  {
  }
}
