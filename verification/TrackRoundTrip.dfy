/** What mov_read_trak recovers from the boxes that mov_write_trak wrote. */
module TrackRoundTrip {
  import opened Bytes
  import opened Samples
  import opened ChunkTables
  import opened RunLength
  import opened Boxes
  import opened Stts
  import opened Stss
  import opened Stsc
  import opened Stsz
  import opened Stco
  import opened Elst
  import opened TrackWriter
  import opened TrackReader

  // ---------- each table decodes to what was encoded ----------

  lemma {:induction false} RunWordAt(rs: seq<Run>, m: nat, i: nat)
    requires i < m <= |rs|
    ensures RunWords(rs, m)[2 * i] == rs[i].count && RunWords(rs, m)[2 * i + 1] == rs[i].value
  {
    if i < m - 1 {
      RunWordAt(rs, m - 1, i);
    }
  }

  lemma CountedWords(version: u32, n: u32, rest: seq<u32>, width: nat)
    requires 4 * |rest| == width * (n as int)
    ensures var p := Words([version, n] + rest); |p| >= 8 && U32At(p, 4) == n && Counted(p, width)
  {
    hide Words, U32At;
    WordsDecode([version, n] + rest, 1);
  }

  lemma RunsDecode(version: u32, rs: seq<Run>)
    requires |rs| <= UINT32_MAX
    ensures var p := Words([version, |rs|] + RunWords(rs, |rs|)); Counted(p, 8) && RunsIn(p) == rs
  {
    hide Words, U32At, RunWords, RunsIn, Counted;
    var ws: seq<u32> := [version, |rs|] + RunWords(rs, |rs|);
    var p := Words(ws);
    CountedWords(version, |rs|, RunWords(rs, |rs|), 8);
    forall i | 0 <= i < |rs|
      ensures RunAt(p, 8, i) == rs[i]
    {
      RunWordAt(rs, |rs|, i);
      WordsDecode(ws, 2 + 2 * i);
      WordsDecode(ws, 3 + 2 * i);
    }
  }

  lemma {:induction false} EntryWordAt(es: seq<StscEntry>, m: nat, i: nat)
    requires i < m <= |es|
    ensures EntryWords(es, m)[3 * i] == es[i].firstChunk
    ensures EntryWords(es, m)[3 * i + 1] == es[i].perChunk && EntryWords(es, m)[3 * i + 2] == es[i].sdi
  {
    if i < m - 1 {
      EntryWordAt(es, m - 1, i);
    }
  }

  lemma EntriesDecode(es: seq<StscEntry>)
    requires |es| <= UINT32_MAX
    ensures var p := Words([0, |es|] + EntryWords(es, |es|)); Counted(p, 12) && EntriesIn(p) == es
  {
    hide Words, U32At, EntryWords, EntriesIn, Counted;
    var ws: seq<u32> := [0, |es|] + EntryWords(es, |es|);
    var p := Words(ws);
    CountedWords(0, |es|, EntryWords(es, |es|), 12);
    forall i | 0 <= i < |es|
      ensures EntryAt(p, 8, i) == es[i]
    {
      EntryWordAt(es, |es|, i);
      WordsDecode(ws, 2 + 3 * i);
      WordsDecode(ws, 3 + 3 * i);
      WordsDecode(ws, 4 + 3 * i);
    }
  }

  lemma {:induction false} OffsetWordAt(os: seq<u64>, m: nat, wide: bool, i: nat)
    requires i < m <= |os|
    ensures if wide
      then OffsetWords(os, m, wide)[2 * i] == os[i] / TWO_32 && OffsetWords(os, m, wide)[2 * i + 1] == os[i] % TWO_32
      else OffsetWords(os, m, wide)[i] == ToU32(os[i])
  {
    if i < m - 1 {
      OffsetWordAt(os, m - 1, wide, i);
    }
  }

  /** A narrow table keeps an offset exactly when it fits 32 bits; a wide one always does. */
  lemma OffsetsDecode(os: seq<u64>, wide: bool, i: nat)
    requires |os| <= UINT32_MAX && i < |os|
    ensures var p := Words([0, |os|] + OffsetWords(os, |os|, wide));
            && Counted(p, if wide then 8 else 4) && |OffsetsIn(p, wide)| == |os|
            && (OffsetsIn(p, wide)[i] == os[i] <==> (wide || os[i] <= UINT32_MAX))
  {
    hide Words, U32At, OffsetWords;
    var ws: seq<u32> := [0, |os|] + OffsetWords(os, |os|, wide);
    WordsDecode(ws, 1);
    OffsetWordAt(os, |os|, wide, i);
    if wide {
      WordsDecode(ws, 2 + 2 * i);
      WordsDecode(ws, 3 + 2 * i);
    } else {
      WordsDecode(ws, 2 + i);
    }
  }

  /** A counted list of words is read back whole. */
  lemma NumbersDecode(ws: seq<u32>)
    requires |ws| >= 2 && |ws| - 2 == ws[1]
    ensures var p := Words(ws); Counted(p, 4) && NumbersIn(p) == ws[2..]
  {
    hide Words, U32At;
    WordsDecode(ws, 1);
    forall i | 0 <= i < |ws| - 2
      ensures NumberAt(Words(ws), 8, i) == ws[2 + i]
    {
      WordsDecode(ws, 2 + i);
    }
  }

  lemma KeysDecode(ks: seq<u32>)
    requires |ks| <= UINT32_MAX
    ensures var p := Words([0, |ks|] + ks); Counted(p, 4) && NumbersIn(p) == ks
  {
    hide Words, NumbersIn, Counted;
    var ws: seq<u32> := [0, |ks|] + ks;
    assert ws[2..] == ks;
    NumbersDecode(ws);
  }

  /** The samples a reader starts from: sizes only. */
  function Sized(s: seq<Sample>, n: nat): (t: seq<Sample>)
    requires n <= |s|
    ensures |t| == n && forall i :: 0 <= i < n ==> t[i] == EMPTY_SAMPLE.(bytes := s[i].bytes)
  {
    seq(n, i requires 0 <= i < n => EMPTY_SAMPLE.(bytes := s[i].bytes))
  }

  lemma SizesDecode(s: seq<Sample>, n: nat)
    requires n <= |s| && n <= UINT32_MAX && !AllEmpty(s, n)
    ensures StszTree(s, n).Leaf? && var p := StszTree(s, n).payload;
            SizesCounted(p) && U32At(p, 8) == n && SizesIn(p) == Sized(s, n)
  {
    hide Words, U32At, SizeWords;
    var rest: seq<u32> := if Uniform(s, n) then [0, if n < 1 then 0 else s[0].bytes, n] else [0, 0, n] + SizeWords(s, n);
    var p := Words(rest);
    assert StszTree(s, n).payload == p;
    WordsDecode(rest, 1);
    WordsDecode(rest, 2);
    forall i | 0 <= i < n
      ensures (U32At(p, 4) == 0 ==> 16 + 4 * i <= |p|) && SizeAt(p, 0, i) == s[i].bytes
    {
      if Uniform(s, n) {
        UniformSize(s, n, i);
      } else {
        SizeWordAt(s, n, i);
        WordsDecode(rest, 3 + i);
      }
    }
  }

  lemma EditsDecode(plan: EditPlan)
    requires plan.Valid()
    ensures var p := Words(plan.Words()[2..]); EditsCounted(p) && EditsIn(p) == EditsOf(plan)
  {
    hide Words, U32At;
    var ws: seq<u32> := plan.Words()[2..];
    var p := Words(ws);
    VersionByte(ws);
    WordsDecode(ws, 1);
    var k := if plan.delay > 0 then 2 else 1;
    forall i | 0 <= i < k
      ensures EditAt(p, 8, i, plan.Long()) == EditsOf(plan)[i]
    {
      if plan.Long() {
        WordsDecode(ws, 2 + 5 * i);
        WordsDecode(ws, 3 + 5 * i);
        WordsDecode(ws, 4 + 5 * i);
        WordsDecode(ws, 5 + 5 * i);
      } else {
        WordsDecode(ws, 2 + 3 * i);
        WordsDecode(ws, 3 + 3 * i);
      }
    }
  }

  /** The first byte of a table is its version. */
  lemma VersionByte(ws: seq<u32>)
    requires ws != []
    ensures Words(ws)[0] == ws[0] / 0x100_0000
  {
    assert ws == [] + [ws[0]] + ws[1..];
    WordsSplit([], ws[0], ws[1..]);
  }

  // ---------- a written track is a box tree the reader can take ----------

  /** A box the reader neither walks into nor decodes into a table. */
  ghost predicate Plain(t: Tree, parent: u32)
  {
    && t.Leaf? && t.payload != [] && Fits(t) && !IsContainer(t.tag, parent)
    && SoundTable(t.tag, parent, t.payload)
    && forall tb :: LoadTable(tb, t.tag, parent, t.payload) == tb
  }

  /** The fixed-layout boxes of a track carry their own tags. */
  ghost predicate PlainBoxes(v: View)
  {
    && Plain(v.tkhd, TAG_TRAK) && Plain(v.mdhd, TAG_MDIA) && Plain(v.hdlr, TAG_MDIA)
    && Plain(v.mediaHeader, TAG_MINF) && Plain(v.dinf, TAG_MINF) && Plain(v.stsd, TAG_STBL)
  }

  lemma PlainLoads(tb: Tables, t: Tree, parent: u32)
    requires Plain(t, parent)
    ensures Sound(t, parent) && LoadTree(tb, t, parent) == tb
  {
  }

  lemma {:induction false} LoadSame(tb: Tables, ts: seq<Tree>, us: seq<Tree>, n: nat, parent: u32)
    requires n <= |ts| && n <= |us| && forall i :: 0 <= i < n ==> ts[i] == us[i]
    requires forall i :: 0 <= i < |ts| ==> Sound(ts[i], parent)
    requires forall i :: 0 <= i < |us| ==> Sound(us[i], parent)
    ensures LoadAll(tb, ts, n, parent) == LoadAll(tb, us, n, parent)
  {
    hide Sound, LoadTree;
    if n > 0 {
      LoadSame(tb, ts, us, n - 1, parent);
    }
  }

  /** Loading one more box after the boxes `ts`. */
  lemma LoadSnoc(tb: Tables, ts: seq<Tree>, t: Tree, parent: u32)
    requires AllSound(ts, parent) && Sound(t, parent)
    ensures AllSound(ts + [t], parent)
    ensures LoadAll(tb, ts + [t], |ts| + 1, parent) == LoadTree(LoadAll(tb, ts, |ts|, parent), t, parent)
  {
    var us := ts + [t];
    SoundFits(t, parent);
    hide Sound, LoadTree;
    forall i | 0 <= i < |us|
      ensures Fits(us[i]) && Sound(us[i], parent)
    {
    }
    LoadSame(tb, us, ts, |ts|, parent);
  }

  lemma TableIsSound(tag: u32, rest: seq<u32>, parent: u32)
    requires |rest| > 0 && Fits(Table(tag, rest)) && !IsContainer(tag, parent) && SoundTable(tag, parent, Words(rest))
    ensures Sound(Table(tag, rest), parent)
    ensures forall tb :: LoadTree(tb, Table(tag, rest), parent) == LoadTable(tb, tag, parent, Words(rest))
  {
    hide SoundTable, LoadTable, Words;
  }

  lemma RunsLoad(tag: u32, version: u32, rs: seq<Run>, tb: Tables)
    requires |rs| <= UINT32_MAX && Fits(RunsTree(tag, version, rs)) && (tag == TAG_STTS || tag == TAG_CTTS)
    ensures Sound(RunsTree(tag, version, rs), TAG_STBL)
    ensures LoadTree(tb, RunsTree(tag, version, rs), TAG_STBL) == if tag == TAG_STTS then tb.(stts := rs) else tb.(ctts := rs)
  {
    hide Words, RunWords, RunsIn, Counted;
    RunsDecode(version, rs);
    TableIsSound(tag, [version, |rs|] + RunWords(rs, |rs|), TAG_STBL);
  }

  lemma KeysLoad(s: seq<Sample>, n: nat, tb: Tables)
    requires n <= |s| && n <= UINT32_MAX && Fits(StssTree(s, n))
    ensures Sound(StssTree(s, n), TAG_STBL)
    ensures LoadTree(tb, StssTree(s, n), TAG_STBL) == tb.(stss := KeyNumbers(s, n))
  {
    hide Words, KeyNumbers, NumbersIn, Counted;
    var ks := KeyNumbers(s, n);
    KeysDecode(ks);
    TableIsSound(TAG_STSS, [0, |ks|] + ks, TAG_STBL);
  }

  lemma EntriesLoad(cs: seq<Chunk>, tb: Tables)
    requires |cs| <= UINT32_MAX && Fits(StscTree(cs))
    ensures Sound(StscTree(cs), TAG_STBL)
    ensures LoadTree(tb, StscTree(cs), TAG_STBL) == tb.(stsc := StscOf(cs, |cs|))
  {
    hide Words, EntryWords, StscOf, EntriesIn, Counted;
    var es := StscOf(cs, |cs|);
    EntriesDecode(es);
    TableIsSound(TAG_STSC, [0, |es|] + EntryWords(es, |es|), TAG_STBL);
  }

  lemma SizesLoad(s: seq<Sample>, n: nat, tb: Tables)
    requires n <= |s| && n <= UINT32_MAX && Fits(StszTree(s, n)) && !AllEmpty(s, n)
    ensures Sound(StszTree(s, n), TAG_STBL)
    ensures LoadTree(tb, StszTree(s, n), TAG_STBL) == tb.(samples := Sized(s, n), count := n)
  {
    hide Words, SizeWords, SizesIn, SizesCounted, AllEmpty, Uniform;
    SizesDecode(s, n);
    TableIsSound(TAG_STSZ,
      if Uniform(s, n) then [0, if n < 1 then 0 else s[0].bytes, n] else [0, 0, n] + SizeWords(s, n), TAG_STBL);
  }

  /** Every chunk offset fits the width chosen for the table. */
  predicate WidthHolds(os: seq<u64>, wide: bool) { wide || forall i :: 0 <= i < |os| ==> os[i] <= UINT32_MAX }

  lemma OffsetTableDecodes(os: seq<u64>, wide: bool)
    requires |os| <= UINT32_MAX
    ensures var p := Words([0, |os|] + OffsetWords(os, |os|, wide));
            && Counted(p, if wide then 8 else 4)
            && (OffsetsIn(p, wide) == os <==> WidthHolds(os, wide))
  {
    hide Words, OffsetWords, Counted;
    var ws: seq<u32> := [0, |os|] + OffsetWords(os, |os|, wide);
    OffsetCount(os, wide);
    var p := Words(ws);
    forall i | 0 <= i < |os|
      ensures OffsetsIn(p, wide)[i] == os[i] <==> (wide || os[i] <= UINT32_MAX)
    {
      OffsetsDecode(os, wide, i);
    }
  }

  lemma OffsetCount(os: seq<u64>, wide: bool)
    requires |os| <= UINT32_MAX
    ensures var p := Words([0, |os|] + OffsetWords(os, |os|, wide));
            && Counted(p, if wide then 8 else 4) && |OffsetsIn(p, wide)| == |os|
  {
    hide Words, OffsetWords, U32At;
    WordsDecode([0, |os|] + OffsetWords(os, |os|, wide), 1);
  }

  lemma OffsetsLoad(os: seq<u64>, wide: bool, tb: Tables)
    requires |os| <= UINT32_MAX && Fits(StcoTree(os, wide)) && WidthHolds(os, wide)
    ensures Sound(StcoTree(os, wide), TAG_STBL)
    ensures LoadTree(tb, StcoTree(os, wide), TAG_STBL) == tb.(stco := os)
  {
    hide Words, OffsetWords, OffsetsIn, Counted;
    OffsetTableDecodes(os, wide);
    TableIsSound(if wide then TAG_CO64 else TAG_STCO, [0, |os|] + OffsetWords(os, |os|, wide), TAG_STBL);
  }

  lemma EditsLoad(plan: EditPlan, tb: Tables)
    requires plan.Valid() && Fits(Table(TAG_ELST, plan.Words()[2..]))
    ensures Sound(Table(TAG_ELST, plan.Words()[2..]), TAG_EDTS)
    ensures LoadTree(tb, Table(TAG_ELST, plan.Words()[2..]), TAG_EDTS) == tb.(elst := EditsOf(plan))
  {
    EditsDecode(plan);
    var ws: seq<u32> := plan.Words()[2..];
    assert |ws| > 0;
    hide Words, EditsIn, EditsCounted, EditsOf;
    TableIsSound(TAG_ELST, ws, TAG_EDTS);
  }
}
