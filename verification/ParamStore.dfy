/** h264_sps_copy, h264_pps_copy and mpeg4_avc_update: the parameter sets of a stream, by id. */
module ParamStore {
  import opened Bytes
  import opened NalUnits
  import opened ParamArena

  const ARENA: nat := 4096
  const MAX_SPS: nat := 32
  const MAX_PPS: nat := 256
  const NAL_IDR: nat := 5
  const NAL_SPS: nat := 7
  const NAL_PPS: nat := 8

  /** How ids are read from the bits of a set; the id of a pps and that of its sps count as one number. */
  datatype Ids = Ids(spsId: Nal -> nat, ppsId: Nal -> nat)

  // ---------- the lists of sets, as values ----------

  /** The first of the sets with this id, or the number of sets. */
  function IndexOf(us: seq<Nal>, idOf: Nal -> nat, id: nat, from: nat): (k: nat)
    requires from <= |us|
    ensures from <= k <= |us|
    ensures forall i :: from <= i < k ==> idOf(us[i]) != id
    ensures k < |us| ==> idOf(us[k]) == id
    decreases |us| - from
  {
    if from == |us| || idOf(us[from]) == id then from else IndexOf(us, idOf, id, from + 1)
  }

  /** Return value, sets and used bytes after a copy. */
  datatype Outcome = Outcome(r: int, us: seq<Nal>, off: int)

  function Replaced(us: seq<Nal>, off: int, k: nat, nalu: Nal): Outcome
    requires k < |us|
  {
    if us[k] == nalu then Outcome(0, us, off)
    else if |nalu| > |us[k]| && off + (|nalu| - |us[k]|) > ARENA then Outcome(-1, us, off)
    else Outcome(1, us[k := nalu], off - |us[k]| + |nalu|)
  }

  function SpsOutcome(ids: Ids, us: seq<Nal>, off: int, nalu: Nal): Outcome
  {
    var k := IndexOf(us, ids.spsId, ids.spsId(nalu), 0);
    if |nalu| < 4 + 1 then Outcome(-1, us, off)
    else if k < |us| then Replaced(us, off, k, nalu)
    else if |us| >= MAX_SPS || off + |nalu| > ARENA then Outcome(-1, us, off)
    else Outcome(1, us + [nalu], off + |nalu|)
  }

  /** A full pps table of a stream that cycles through its ids gives up the set in its first place. */
  predicate ReplacesOldest(ids: Ids, us: seq<Nal>, nbSps: nat, nalu: Nal)
  {
    && |nalu| >= 1 + 1 && IndexOf(us, ids.ppsId, ids.ppsId(nalu), 0) == |us|
    && |us| + 1 >= MAX_PPS && nbSps > 16
  }

  function PpsOutcome(ids: Ids, us: seq<Nal>, nbSps: nat, off: int, nalu: Nal): Outcome
  {
    var k := IndexOf(us, ids.ppsId, ids.ppsId(nalu), 0);
    if |nalu| < 1 + 1 then Outcome(-1, us, off)
    else if k < |us| then Replaced(us, off, k, nalu)
    else if |us| + 1 >= MAX_PPS && nbSps > 16 then Outcome(1, us[0 := nalu], off - |us[0]| + |nalu|)
    else if |us| + 1 >= MAX_PPS || off + |nalu| > ARENA then Outcome(-1, us, off)
    else Outcome(1, us + [nalu], off + |nalu|)
  }

  /** All that a parameter set can change. */
  datatype Sets = Sets(sps: seq<Nal>, pps: seq<Nal>, off: int, profile: byte, compatibility: byte, level: byte)

  function NalType(u: Nal): nat
    requires u != []
  {
    u[0] % 0x20
  }

  /** The lengths that the assertions demand of parameter sets. */
  predicate LongEnough(u: Nal)
  {
    u != [] && (NalType(u) == NAL_SPS ==> |u| >= 5) && (NalType(u) == NAL_PPS ==> |u| >= 2)
  }

  datatype Updated = Updated(r: int, sets: Sets)

  function UpdateSets(ids: Ids, s: Sets, u: Nal): Updated
    requires LongEnough(u)
  {
    if NalType(u) == NAL_SPS then
      var o := SpsOutcome(ids, s.sps, s.off, u);
      var t := s.(sps := o.us, off := o.off);
      Updated(o.r, if o.r == 1 || |o.us| == 1 then t.(profile := u[1], compatibility := u[2], level := u[3]) else t)
    else if NalType(u) == NAL_PPS then
      var o := PpsOutcome(ids, s.pps, |s.sps|, s.off, u);
      Updated(o.r, s.(pps := o.us, off := o.off))
    else Updated(0, s)
  }

  /** If the oldest pps has to go, the new one fits in its place. */
  predicate Fits(ids: Ids, s: Sets, u: Nal)
  {
    u != [] && NalType(u) == NAL_PPS && ReplacesOldest(ids, s.pps, |s.sps|, u) ==> s.off - |s.pps[0]| + |u| <= ARENA
  }

  // ---------- the lists act as maps by id ----------

  predicate DistinctIds(us: seq<Nal>, idOf: Nal -> nat)
  {
    forall i, j :: 0 <= i < j < |us| ==> idOf(us[i]) != idOf(us[j])
  }

  ghost function MapOf(us: seq<Nal>, idOf: Nal -> nat): map<nat, Nal>
    requires DistinctIds(us, idOf)
  {
    map i | 0 <= i < |us| :: idOf(us[i]) := us[i]
  }

  lemma ReplacingKeepsIds(us: seq<Nal>, idOf: Nal -> nat, k: nat, nalu: Nal)
    requires DistinctIds(us, idOf) && k < |us| && idOf(us[k]) == idOf(nalu)
    ensures DistinctIds(us[k := nalu], idOf)
    ensures MapOf(us[k := nalu], idOf) == MapOf(us, idOf)[idOf(nalu) := nalu]
  {
    var vs := us[k := nalu];
    forall i, j | 0 <= i < j < |vs|
      ensures idOf(vs[i]) != idOf(vs[j])
    {
      assert idOf(us[i]) != idOf(us[j]);
    }
    var m, n := MapOf(vs, idOf), MapOf(us, idOf)[idOf(nalu) := nalu];
    forall x | x in n
      ensures x in m && m[x] == n[x]
    {
      if x == idOf(nalu) {
        assert idOf(vs[k]) == x;
      } else {
        var i :| 0 <= i < |us| && idOf(us[i]) == x;
        assert idOf(vs[i]) == x;
      }
    }
    forall x | x in m
      ensures x in n
    {
      var i :| 0 <= i < |vs| && idOf(vs[i]) == x;
      assert i != k ==> idOf(us[i]) == x;
    }
  }

  lemma AppendingKeepsIds(us: seq<Nal>, idOf: Nal -> nat, nalu: Nal)
    requires DistinctIds(us, idOf) && forall i :: 0 <= i < |us| ==> idOf(us[i]) != idOf(nalu)
    ensures DistinctIds(us + [nalu], idOf)
    ensures idOf(nalu) !in MapOf(us, idOf)
    ensures MapOf(us + [nalu], idOf) == MapOf(us, idOf)[idOf(nalu) := nalu]
  {
    var vs := us + [nalu];
    var m, n := MapOf(vs, idOf), MapOf(us, idOf)[idOf(nalu) := nalu];
    forall x | x in n
      ensures x in m && m[x] == n[x]
    {
      if x == idOf(nalu) {
        assert idOf(vs[|us|]) == x;
      } else {
        var i :| 0 <= i < |us| && idOf(us[i]) == x;
        assert idOf(vs[i]) == x;
      }
    }
    forall x | x in m
      ensures x in n
    {
      var i :| 0 <= i < |vs| && idOf(vs[i]) == x;
      assert i < |us| ==> idOf(us[i]) == x;
    }
  }

  lemma SwapDistinct(us: seq<Nal>, idOf: Nal -> nat, k: nat, nalu: Nal)
    requires DistinctIds(us, idOf) && k < |us| && forall i :: 0 <= i < |us| ==> idOf(us[i]) != idOf(nalu)
    ensures DistinctIds(us[k := nalu], idOf)
    ensures forall i :: 0 <= i < |us| && i != k ==> idOf(us[i]) != idOf(us[k])
  {
    var vs := us[k := nalu];
    forall i, j | 0 <= i < j < |vs|
      ensures idOf(vs[i]) != idOf(vs[j])
    {
      assert idOf(us[i]) != idOf(us[j]);
    }
  }

  lemma SwappingOutKeepsIds(us: seq<Nal>, idOf: Nal -> nat, k: nat, nalu: Nal)
    requires DistinctIds(us, idOf) && k < |us| && forall i :: 0 <= i < |us| ==> idOf(us[i]) != idOf(nalu)
    ensures DistinctIds(us[k := nalu], idOf)
    ensures MapOf(us[k := nalu], idOf) == (MapOf(us, idOf) - {idOf(us[k])})[idOf(nalu) := nalu]
  {
    SwapDistinct(us, idOf, k, nalu);
    SwappedKeys(us, idOf, k, nalu);
    SwappedValues(us, idOf, k, nalu);
  }

  lemma SwappedKeys(us: seq<Nal>, idOf: Nal -> nat, k: nat, nalu: Nal)
    requires DistinctIds(us, idOf) && k < |us| && forall i :: 0 <= i < |us| ==> idOf(us[i]) != idOf(nalu)
    requires DistinctIds(us[k := nalu], idOf)
    ensures var m, n := MapOf(us[k := nalu], idOf), (MapOf(us, idOf) - {idOf(us[k])})[idOf(nalu) := nalu];
            forall x :: x in m ==> x in n
  {
    var vs := us[k := nalu];
    var m, n := MapOf(vs, idOf), (MapOf(us, idOf) - {idOf(us[k])})[idOf(nalu) := nalu];
    forall x | x in m
      ensures x in n
    {
      var i :| 0 <= i < |vs| && idOf(vs[i]) == x;
      assert i != k ==> idOf(us[i]) == x;
    }
  }

  lemma SwappedValues(us: seq<Nal>, idOf: Nal -> nat, k: nat, nalu: Nal)
    requires DistinctIds(us, idOf) && k < |us| && forall i :: 0 <= i < |us| ==> idOf(us[i]) != idOf(nalu)
    requires DistinctIds(us[k := nalu], idOf)
    ensures var m, n := MapOf(us[k := nalu], idOf), (MapOf(us, idOf) - {idOf(us[k])})[idOf(nalu) := nalu];
            forall x :: x in n ==> x in m && m[x] == n[x]
  {
    var vs := us[k := nalu];
    var m, n := MapOf(vs, idOf), (MapOf(us, idOf) - {idOf(us[k])})[idOf(nalu) := nalu];
    forall x | x in n
      ensures x in m && m[x] == n[x]
    {
      if x == idOf(nalu) {
        assert idOf(vs[k]) == x;
      } else {
        var i :| 0 <= i < |us| && idOf(us[i]) == x;
        assert idOf(vs[i]) == x;
      }
    }
  }

  /** Copying an sps is an update of the map from ids to sets, or nothing at all. */
  lemma SpsUpdatesMap(ids: Ids, us: seq<Nal>, off: int, nalu: Nal)
    requires DistinctIds(us, ids.spsId)
    ensures var o := SpsOutcome(ids, us, off, nalu);
            && DistinctIds(o.us, ids.spsId)
            && MapOf(o.us, ids.spsId) ==
               if o.r < 0 then MapOf(us, ids.spsId) else MapOf(us, ids.spsId)[ids.spsId(nalu) := nalu]
  {
    var k := IndexOf(us, ids.spsId, ids.spsId(nalu), 0);
    var o := SpsOutcome(ids, us, off, nalu);
    if k < |us| {
      ReplacingKeepsIds(us, ids.spsId, k, nalu);
      if us[k] == nalu {
        assert us[k := nalu] == us;
      }
    } else {
      AppendingKeepsIds(us, ids.spsId, nalu);
    }
  }

  /** So is copying a pps, except that the oldest set may have to go. */
  lemma PpsUpdatesMap(ids: Ids, us: seq<Nal>, nbSps: nat, off: int, nalu: Nal)
    requires DistinctIds(us, ids.ppsId)
    ensures var o, m := PpsOutcome(ids, us, nbSps, off, nalu), MapOf(us, ids.ppsId);
            && DistinctIds(o.us, ids.ppsId)
            && MapOf(o.us, ids.ppsId) ==
               if o.r < 0 then m
               else if ReplacesOldest(ids, us, nbSps, nalu) then (m - {ids.ppsId(us[0])})[ids.ppsId(nalu) := nalu]
               else m[ids.ppsId(nalu) := nalu]
  {
    var k := IndexOf(us, ids.ppsId, ids.ppsId(nalu), 0);
    if k < |us| {
      ReplacingKeepsIds(us, ids.ppsId, k, nalu);
      if us[k] == nalu {
        assert us[k := nalu] == us;
      }
    } else {
      AppendingKeepsIds(us, ids.ppsId, nalu);
      if |us| > 0 {
        SwappingOutKeepsIds(us, ids.ppsId, 0, nalu);
      }
    }
  }

  // ---------- when a set is turned down, and what a set changes ----------

  lemma FoundIs(us: seq<Nal>, idOf: Nal -> nat, id: nat)
    requires DistinctIds(us, idOf)
    ensures var k, m := IndexOf(us, idOf, id, 0), MapOf(us, idOf);
            (k < |us| <==> id in m) && (k < |us| ==> m[id] == us[k])
  {
    var k := IndexOf(us, idOf, id, 0);
    if k < |us| {
      assert idOf(us[k]) in MapOf(us, idOf);
    }
  }

  /** A set that replaces one of the same id does not fit. */
  predicate Overflows(known: Nal, off: int, nalu: Nal)
  {
    nalu != known && |nalu| > |known| && off - |known| + |nalu| > 4096
  }

  /**
   * An sps is turned down exactly when it is too short, or too long for the free bytes, or a 33rd one. Otherwise
   * the answer is 0 if it was known, byte for byte, and 1 if not.
   */
  lemma SpsAnswer(ids: Ids, us: seq<Nal>, off: int, nalu: Nal)
    requires DistinctIds(us, ids.spsId)
    ensures var o, m, id := SpsOutcome(ids, us, off, nalu), MapOf(us, ids.spsId), ids.spsId(nalu);
            && (o.r < 0 <==> |nalu| < 5 || if id in m then Overflows(m[id], off, nalu) else |us| >= 32 || off + |nalu| > 4096)
            && (o.r == 0 <==> |nalu| >= 5 && id in m && m[id] == nalu)
            && -1 <= o.r <= 1
            && (o.r == 1 <==> o.us != us)
            && o.off == (if o.r != 1 then off else if id in m then off - |m[id]| + |nalu| else off + |nalu|)
            && |o.us| == (if o.r == 1 && id !in m then |us| + 1 else |us|)
  {
    FoundIs(us, ids.spsId, ids.spsId(nalu));
    var k := IndexOf(us, ids.spsId, ids.spsId(nalu), 0);
    if k < |us| && us[k] != nalu {
      assert us[k := nalu][k] != us[k];
    }
  }

  /** A pps that would be the 256th is turned down too, unless more than 16 sps are stored: then the first pps goes. */
  lemma PpsAnswer(ids: Ids, us: seq<Nal>, nbSps: nat, off: int, nalu: Nal)
    requires DistinctIds(us, ids.ppsId)
    ensures var o, m, id := PpsOutcome(ids, us, nbSps, off, nalu), MapOf(us, ids.ppsId), ids.ppsId(nalu);
            && (ReplacesOldest(ids, us, nbSps, nalu) <==> |nalu| >= 2 && id !in m && |us| >= 255 && nbSps > 16)
            && (o.r < 0 <==>
                  || |nalu| < 2
                  || if id in m then Overflows(m[id], off, nalu)
                     else if |us| >= 255 then nbSps <= 16 else off + |nalu| > 4096)
            && (o.r == 0 <==> |nalu| >= 2 && id in m && m[id] == nalu)
            && -1 <= o.r <= 1
            && (o.r == 1 <==> o.us != us)
            && o.off == (if o.r != 1 then off
                         else if id in m then off - |m[id]| + |nalu|
                         else if |us| >= 255 then off - |us[0]| + |nalu| else off + |nalu|)
  {
    FoundIs(us, ids.ppsId, ids.ppsId(nalu));
    var k := IndexOf(us, ids.ppsId, ids.ppsId(nalu), 0);
    if k < |us| && us[k] != nalu {
      assert us[k := nalu][k] != us[k];
    }
    if k == |us| && |us| > 0 {
      assert us[0 := nalu][0] != us[0];
    }
  }

  /**
   * A unit of type 7 can only change the sps, one of type 8 only the pps, any other nothing. Profile, compatibility
   * and level become those of the unit if it changes the sps or is, stored or not, the only one there is.
   */
  lemma UnitChanges(ids: Ids, s: Sets, u: Nal)
    requires LongEnough(u) && DistinctIds(s.sps, ids.spsId) && DistinctIds(s.pps, ids.ppsId)
    ensures var t := UpdateSets(ids, s, u).sets;
            && (u[0] % 32 != 7 ==> t.sps == s.sps) && (u[0] % 32 != 8 ==> t.pps == s.pps)
            && (u[0] % 32 != 7 && u[0] % 32 != 8 ==> t == s && UpdateSets(ids, s, u).r == 0)
            && if u[0] % 32 == 7 && (t.sps != s.sps || |t.sps| == 1) then
                 (t.profile, t.compatibility, t.level) == (u[1], u[2], u[3])
               else (t.profile, t.compatibility, t.level) == (s.profile, s.compatibility, s.level)
  {
    hide SpsOutcome, PpsOutcome, DistinctIds, MapOf;
    if NalType(u) == 7 {
      SpsAnswer(ids, s.sps, s.off, u);
    }
  }

  // ---------- the arena ----------

  /** struct mpeg4_avc_t; nb_sps and nb_pps are the lengths of the slice lists. */
  class Store {
    const ids: Ids
    const data: array<byte>
    var off: nat
    var sps: seq<Slice>
    var pps: seq<Slice>
    var profile: byte
    var compatibility: byte
    var level: byte
    var nalu: nat             // bytes of a length field

    ghost function All(): seq<Slice>
      reads this
    {
      sps + pps
    }

    ghost predicate Valid()
      reads this, data
    {
      data.Length == ARENA && off <= ARENA && |sps| <= MAX_SPS && |pps| < MAX_PPS && Tiled(All(), off)
    }

    /** The stored sets, in their order. */
    ghost function Sps(): seq<Nal>
      requires Valid()
      reads this, data
    {
      SplitContents(data[..], sps, pps, off);
      Contents(data[..], sps)
    }

    ghost function Pps(): seq<Nal>
      requires Valid()
      reads this, data
    {
      SplitContents(data[..], sps, pps, off);
      Contents(data[..], pps)
    }

    constructor (ids: Ids)
      ensures Valid() && fresh(data) && Sps() == [] && Pps() == [] && off == 0 && this.ids == ids
    {
      this.ids := ids;
      data := new byte[ARENA];
      off, sps, pps := 0, [], [];
      profile, compatibility, level, nalu := 0, 0, 0, 0;
    }

    /** The memmove of mpeg4_avc_remove. */
    method PullDown(ptr: nat, n: nat)
      requires ptr + n <= off <= data.Length
      modifies data
      ensures data[..] == Pulled(old(data[..]), ptr, n, off)
    {
      hide Pulled;
      var j := ptr;
      ghost var was := data[..];
      while j + n < off
        invariant ptr <= j && j + n <= off
        invariant forall i :: 0 <= i < ptr ==> data[i] == was[i]
        invariant forall i :: ptr <= i < j ==> data[i] == was[i + n]
        invariant forall i :: j <= i < data.Length ==> data[i] == was[i]
      {
        data[j] := data[j + n];
        j := j + 1;
      }
      PulledIs(was, data[..], ptr, n, off);
    }

    /** Its two loops over the slices. */
    static method Lower(ss: seq<Slice>, ptr: nat, n: nat) returns (ts: seq<Slice>)
      requires forall i :: 0 <= i < |ss| ==> ss[i].start > ptr ==> ss[i].start >= n
      ensures ts == Lowered(ss, ptr, n)
    {
      ts := ss;
      var i := 0;
      while i < |ts|
        invariant 0 <= i <= |ss| == |ts|
        invariant forall k :: 0 <= k < i ==> ts[k] == Lowered(ss, ptr, n)[k]
        invariant forall k :: i <= k < |ts| ==> ts[k] == ss[k]
      {
        if ts[i].start > ptr {
          ts := ts[i := Slice(ts[i].start - n, ts[i].len)];
        }
        i := i + 1;
      }
    }

    /** memcpy to the end of the used bytes. */
    method Put(nal: Nal)
      requires off + |nal| <= data.Length
      modifies data, `off
      ensures off == old(off) + |nal|
      ensures data[..] == old(data[..])[..old(off)] + nal + old(data[..])[old(off) + |nal|..]
    {
      var j := 0;
      ghost var was := data[..];
      while j < |nal|
        invariant 0 <= j <= |nal| && off == old(off)
        invariant forall i :: 0 <= i < data.Length ==> data[i] == if off <= i < off + j then nal[i - off] else was[i]
      {
        data[off + j] := nal[j];
        j := j + 1;
      }
      off := off + |nal|;
    }

    /** mpeg4_avc_remove of slice k of all slices, which then starts at the end of the used bytes. */
    method Remove(k: nat, len: nat)
      requires Valid() && k < |sps| + |pps|
      modifies data, `off, `sps, `pps
      ensures |sps| == |old(sps)| && |pps| == |old(pps)| && off == old(off) - old(All())[k].len
      ensures Within(old(All()), old(off)) && Disjoint(old(All()))
      ensures All() == Renewed(old(All()), old(off), k, len)
      ensures End(old(All())[k]) <= old(off)
      ensures data[..] == Pulled(old(data[..]), old(All())[k].start, old(All())[k].len, old(off))
    {
      hide Tiled, Pulled, Renewed;
      RenewParts(sps, pps, off, k, len);
      var s := if k < |sps| then sps[k] else pps[k - |sps|];
      PullDown(s.start, s.len);
      sps := Lower(sps, s.start, s.len);
      pps := Lower(pps, s.start, s.len);
      off := off - s.len;
      if k < |sps| {
        sps := sps[k := Slice(off, len)];
      } else {
        pps := pps[k - |sps| := Slice(off, len)];
      }
    }

    /** The replacement of slice k by `nal`. */
    method Renew(k: nat, nal: Nal)
      requires Valid() && k < |sps| + |pps| && off - All()[k].len + |nal| <= ARENA
      modifies data, `off, `sps, `pps
      ensures Valid() && |sps| == |old(sps)| && off == old(off) - old(All())[k].len + |nal|
      ensures Sps() + Pps() == (old(Sps()) + old(Pps()))[k := nal]
    {
      hide Tiled, Pulled, Renewed;
      ghost var mem, all, used := data[..], All(), off;
      SplitContents(mem, sps, pps, used);
      TiledParts(all, used);
      ReplaceKeeps(mem, all, used, k, nal);
      Remove(k, |nal|);
      Put(nal);
      assert data[..] == Rewritten(mem, all[k], used, nal);
      SplitContents(data[..], sps, pps, off);
    }

    /** A new set at the end of the used bytes and of its list. */
    method AppendSps(nal: Nal)
      requires Valid() && |sps| < MAX_SPS && off + |nal| <= ARENA
      modifies data, `off, `sps
      ensures Valid() && off == old(off) + |nal| && Sps() == old(Sps()) + [nal] && Pps() == old(Pps())
    {
      hide Tiled;
      ghost var mem, all, used, n := data[..], All(), off, |sps|;
      SplitContents(mem, sps, pps, used);
      AppendKeeps(mem, all, used, n, nal);
      sps := sps + [Slice(off, |nal|)];
      assert All() == all[..n] + [Slice(used, |nal|)] + all[n..];
      Put(nal);
      assert data[..] == mem[..used] + nal + mem[used + |nal|..];
      SplitContents(data[..], sps, pps, off);
      JoinedAt(Contents(data[..], sps), Contents(data[..], pps), Contents(mem, sps[..n]), Contents(mem, pps), nal);
    }

    method AppendPps(nal: Nal)
      requires Valid() && |pps| + 1 < MAX_PPS && off + |nal| <= ARENA
      modifies data, `off, `pps
      ensures Valid() && off == old(off) + |nal| && Pps() == old(Pps()) + [nal] && Sps() == old(Sps())
    {
      hide Tiled;
      ghost var mem, all, used, n := data[..], All(), off, |All()|;
      SplitContents(mem, sps, pps, used);
      AppendKeeps(mem, all, used, n, nal);
      pps := pps + [Slice(off, |nal|)];
      assert All() == all[..n] + [Slice(used, |nal|)] + all[n..];
      Put(nal);
      assert data[..] == mem[..used] + nal + mem[used + |nal|..];
      SplitContents(data[..], sps, pps, off);
      JoinedAtEnd(Contents(data[..], sps), Contents(data[..], pps), Contents(mem, sps), Contents(mem, pps[..|pps| - 1]), nal);
    }

    /** The bytes of a stored set. */
    function Stored(s: Slice): Nal
      requires End(s) <= data.Length
      reads data
    {
      data[s.start..End(s)]
    }

    /** The loop that looks for a set with this id. */
    method Find(ss: seq<Slice>, idOf: Nal -> nat, id: nat) returns (k: nat)
      requires Within(ss, data.Length)
      ensures k == IndexOf(Contents(data[..], ss), idOf, id, 0)
    {
      ghost var us := Contents(data[..], ss);
      k := 0;
      while k < |ss|
        invariant k <= |ss| && IndexOf(us, idOf, id, 0) == IndexOf(us, idOf, id, k)
      {
        assert Stored(ss[k]) == us[k];
        if idOf(Stored(ss[k])) == id {
          return;
        }
        k := k + 1;
      }
    }

    method ReplaceSps(k: nat, nal: Nal)
      requires Valid() && k < |sps| && off - sps[k].len + |nal| <= ARENA
      modifies data, `off, `sps, `pps
      ensures Valid() && off == old(off) - |old(Sps())[k]| + |nal|
      ensures Sps() == old(Sps())[k := nal] && Pps() == old(Pps())
    {
      hide Tiled;
      ghost var a, b := Sps(), Pps();
      SplitContents(data[..], sps, pps, off);
      assert All()[k] == sps[k];
      Renew(k, nal);
      ReplacedIn(a, b, Sps(), Pps(), k, nal);
    }

    method ReplacePps(k: nat, nal: Nal)
      requires Valid() && k < |pps| && off - pps[k].len + |nal| <= ARENA
      modifies data, `off, `sps, `pps
      ensures Valid() && off == old(off) - |old(Pps())[k]| + |nal|
      ensures Pps() == old(Pps())[k := nal] && Sps() == old(Sps())
    {
      hide Tiled;
      ghost var a, b := Sps(), Pps();
      SplitContents(data[..], sps, pps, off);
      assert All()[|sps| + k] == pps[k];
      Renew(|sps| + k, nal);
      ReplacedBehind(a, b, Sps(), Pps(), k, nal);
    }

    /** h264_sps_copy */
    method SpsCopy(nal: Nal) returns (r: int)
      requires Valid()
      modifies data, `off, `sps, `pps
      ensures Valid()
      ensures Outcome(r, Sps(), off) == SpsOutcome(ids, old(Sps()), old(off), nal) && Pps() == old(Pps())
    {
      hide Tiled, IndexOf;
      SplitContents(data[..], sps, pps, off);
      if |nal| < 4 + 1 {
        return -1;
      }
      var k := Find(sps, ids.spsId, ids.spsId(nal));
      if k < |sps| {
        if |nal| == sps[k].len && nal == Stored(sps[k]) {
          return 0;
        }
        if |nal| > sps[k].len && off + (|nal| - sps[k].len) > ARENA {
          return -1;
        }
        ReplaceSps(k, nal);
        return 1;
      }
      if |sps| >= MAX_SPS || off + |nal| > ARENA {
        return -1;
      }
      AppendSps(nal);
      r := 1;
    }

    /**
     * h264_pps_copy. The branch that gives up the oldest set does not check whether the new one fits,
     * so the caller has to know.
     */
    method PpsCopy(nal: Nal) returns (r: int)
      requires Valid()
      requires ReplacesOldest(ids, Pps(), |sps|, nal) ==> off - pps[0].len + |nal| <= ARENA
      modifies data, `off, `sps, `pps
      ensures Valid()
      ensures Outcome(r, Pps(), off) == PpsOutcome(ids, old(Pps()), old(|sps|), old(off), nal) && Sps() == old(Sps())
    {
      hide Tiled, IndexOf;
      SplitContents(data[..], sps, pps, off);
      if |nal| < 1 + 1 {
        return -1;
      }
      var k := Find(pps, ids.ppsId, ids.ppsId(nal));
      if k < |pps| {
        if |nal| == pps[k].len && nal == Stored(pps[k]) {
          return 0;
        }
        if |nal| > pps[k].len && off + (|nal| - pps[k].len) > ARENA {
          return -1;
        }
        ReplacePps(k, nal);
        return 1;
      }
      if |pps| + 1 >= MAX_PPS && |sps| > 16 {
        ReplacePps(0, nal);
        return 1;
      }
      if |pps| + 1 >= MAX_PPS || off + |nal| > ARENA {
        return -1;
      }
      AppendPps(nal);
      r := 1;
    }

    /** The parameter sets as values. */
    ghost function Now(): Sets
      requires Valid()
      reads this, data
    {
      Sets(Sps(), Pps(), off, profile, compatibility, level)
    }

    /** mpeg4_avc_update */
    method Update(u: Nal) returns (r: int)
      requires Valid() && LongEnough(u) && Fits(ids, Now(), u)
      modifies data, `off, `sps, `pps, `profile, `compatibility, `level
      ensures Valid() && Updated(r, Now()) == UpdateSets(ids, old(Now()), u)
    {
      hide Tiled, SpsOutcome, PpsOutcome;
      SplitContents(data[..], sps, pps, off);
      r := 0;
      if NalType(u) == NAL_SPS {
        r := SpsCopy(u);
        if r == 1 || |sps| == 1 {
          profile, compatibility, level := u[1], u[2], u[3];
        }
      } else if NalType(u) == NAL_PPS {
        r := PpsCopy(u);
      }
    }
  }

  lemma JoinedAt(a': seq<Nal>, b': seq<Nal>, a: seq<Nal>, b: seq<Nal>, nal: Nal)
    requires |a'| == |a| + 1 && |b'| == |b| && a' + b' == (a + b)[..|a|] + [nal] + (a + b)[|a|..]
    ensures a' == a + [nal] && b' == b
  {
    var all := a + [nal] + b;
    assert a' + b' == all;
    assert a' == all[..|a| + 1] && b' == all[|a| + 1..];
  }

  lemma JoinedAtEnd(a': seq<Nal>, b': seq<Nal>, a: seq<Nal>, b: seq<Nal>, nal: Nal)
    requires |a'| == |a| && a' + b' == (a + b)[..|a + b|] + [nal] + (a + b)[|a + b|..]
    ensures a' == a && b' == b + [nal]
  {
    var all := a + (b + [nal]);
    assert a' + b' == all;
    assert a' == all[..|a|] && b' == all[|a|..];
  }

  lemma ReplacedIn(a: seq<Nal>, b: seq<Nal>, a': seq<Nal>, b': seq<Nal>, k: nat, nal: Nal)
    requires |a'| == |a| && k < |a| && a' + b' == (a + b)[k := nal]
    ensures a' == a[k := nal] && b' == b
  {
    assert (a + b)[k := nal] == a[k := nal] + b;
    assert a' == (a' + b')[..|a|] && b' == (a' + b')[|a|..];
  }

  lemma ReplacedBehind(a: seq<Nal>, b: seq<Nal>, a': seq<Nal>, b': seq<Nal>, k: nat, nal: Nal)
    requires |a'| == |a| && k < |b| && a' + b' == (a + b)[|a| + k := nal]
    ensures a' == a && b' == b[k := nal]
  {
    assert (a + b)[|a| + k := nal] == a + b[k := nal];
    assert a' == (a' + b')[..|a|] && b' == (a' + b')[|a|..];
  }

  lemma TiledParts(ss: seq<Slice>, off: nat)
    requires Tiled(ss, off)
    ensures Within(ss, off) && Disjoint(ss)
  {
  }

  /** The slices of the two lists, and what they hold. */
  lemma SplitContents(mem: seq<byte>, a: seq<Slice>, b: seq<Slice>, off: nat)
    requires Tiled(a + b, off) && off <= |mem|
    ensures Within(a, off) && Within(b, off) && Within(a, |mem|) && Within(b, |mem|) && Within(a + b, |mem|)
    ensures Contents(mem, a + b) == Contents(mem, a) + Contents(mem, b)
  {
    TiledParts(a + b, off);
    hide Tiled, Content;
    WithinParts(a, b, off);
    hide Within;
    forall i | 0 <= i < |a| + |b|
      ensures Contents(mem, a + b)[i] == (Contents(mem, a) + Contents(mem, b))[i]
    {
    }
  }

  lemma WithinParts(a: seq<Slice>, b: seq<Slice>, off: nat)
    requires Within(a + b, off)
    ensures Within(a, off) && Within(b, off)
    ensures forall n: nat :: off <= n ==> Within(a, n) && Within(b, n) && Within(a + b, n)
  {
    assert forall i :: 0 <= i < |a| ==> a[i] == (a + b)[i];
    assert forall i :: 0 <= i < |b| ==> b[i] == (a + b)[|a| + i];
  }

  lemma RenewParts(a: seq<Slice>, b: seq<Slice>, off: nat, k: nat, len: nat)
    requires Tiled(a + b, off) && k < |a| + |b|
    ensures Within(a + b, off) && Disjoint(a + b)
    ensures var s := (a + b)[k];
            && End(s) <= off
            && (forall i :: 0 <= i < |a| ==> a[i].start > s.start ==> a[i].start >= s.len)
            && (forall i :: 0 <= i < |b| ==> b[i].start > s.start ==> b[i].start >= s.len)
            && var x, y, z := Lowered(a, s.start, s.len), Lowered(b, s.start, s.len), Slice(off - s.len, len);
            Renewed(a + b, off, k, len) == if k < |a| then x[k := z] + y else x + y[k - |a| := z]
  {
    TiledParts(a + b, off);
    hide Tiled;
    OthersBehind(a + b, off, k);
    var s := (a + b)[k];
    LoweredParts(a, b, s.start, s.len);
  }

  /** Lowering the joined list is lowering its parts. */
  lemma LoweredParts(a: seq<Slice>, b: seq<Slice>, ptr: nat, n: nat)
    requires forall i :: 0 <= i < |a + b| ==> (a + b)[i].start > ptr ==> (a + b)[i].start >= n
    ensures forall i :: 0 <= i < |a| ==> a[i].start > ptr ==> a[i].start >= n
    ensures forall i :: 0 <= i < |b| ==> b[i].start > ptr ==> b[i].start >= n
    ensures Lowered(a + b, ptr, n) == Lowered(a, ptr, n) + Lowered(b, ptr, n)
  {
    hide Lowered;
    var s := a + b;
    assert forall i :: 0 <= i < |a| ==> a[i] == s[i];
    assert forall i :: 0 <= i < |b| ==> b[i] == s[|a| + i];
    var x, y, z := Lowered(a, ptr, n), Lowered(b, ptr, n), Lowered(s, ptr, n);
    forall i | 0 <= i < |z|
      ensures z[i] == (x + y)[i]
    {
      if i >= |a| {
        assert s[i] == b[i - |a|];
      }
    }
  }
}
