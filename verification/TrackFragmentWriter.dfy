/** The writing half of mov-tfhd.c, mov-tfdt.c and mov-trun.c. */
module TrackFragmentWriter {
  import opened Bytes
  import opened MovStream
  import opened Boxes
  import opened TrackFragment

  /** The run of writes ends in an unfinished box with the words `ws` so far. */
  ghost predicate Unfinished(io: Stream, pre: seq<byte>, tag: u32, ws: seq<u32>)
    reads io
  {
    io.Valid() && io.done == pre + Words([0, tag] + ws)
  }

  method Begin(io: Stream, tag: u32) returns (offset: nat)
    requires io.Valid()
    modifies io
    ensures io.base == old(io.base) && io.start == old(io.start)
    ensures offset == old(io.pos) && Unfinished(io, old(io.done), tag, [])
  {
    hide Words, Splice;
    offset := io.pos;
    ghost var pre := io.done;
    NoWords(pre);
    io.PutWord(0, pre, []);
    assert [] + [0] == [0];
    io.PutWord(tag, pre, [0]);
    assert [0] + [tag] == [0, tag] + [];
  }

  method Put(io: Stream, v: u32, ghost pre: seq<byte>, ghost tag: u32, ghost ws: seq<u32>)
    requires Unfinished(io, pre, tag, ws)
    modifies io
    ensures io.base == old(io.base) && io.start == old(io.start)
    ensures Unfinished(io, pre, tag, ws + [v])
  {
    hide Words, Splice;
    io.PutWord(v, pre, [0, tag] + ws);
    assert [0, tag] + ws + [v] == [0, tag] + (ws + [v]);
  }

  /** mov_write_size at the end of the box. */
  method Finish(io: Stream, offset: nat, size: u32, ghost pre: seq<byte>, ghost tag: u32, ghost ws: seq<u32>)
    requires Unfinished(io, pre, tag, ws) && offset == io.start + |pre| && size == 8 + 4 * |ws|
    modifies io
    ensures io.Valid() && io.base == old(io.base) && io.start == old(io.start)
    ensures io.done == pre + Serialize(Table(tag, ws))
  {
    hide Words, Splice;
    io.PatchWord(offset, size, pre, [0, tag] + ws, 0);
    assert ([0, tag] + ws)[0 := size] == [8 + 4 * |ws|, tag] + ws;
    TableBytes(tag, ws);
  }

  method PutIf(io: Stream, b: bool, v: u32, ghost pre: seq<byte>, ghost tag: u32, ghost ws: seq<u32>)
    returns (size: nat)
    requires Unfinished(io, pre, tag, ws)
    modifies io
    ensures io.base == old(io.base) && io.start == old(io.start)
    ensures Unfinished(io, pre, tag, ws + If(b, [v])) && size == 4 * |If(b, [v])|
  {
    size := 0;
    if b {
      Put(io, v, pre, tag, ws);
      size := 4;
    } else {
      assert ws + [] == ws;
    }
  }

  method PutIf64(io: Stream, b: bool, v: u64, ghost pre: seq<byte>, ghost tag: u32, ghost ws: seq<u32>)
    returns (size: nat)
    requires Unfinished(io, pre, tag, ws)
    modifies io
    ensures io.base == old(io.base) && io.start == old(io.start)
    ensures Unfinished(io, pre, tag, ws + If(b, [v / 0x1_0000_0000, v % 0x1_0000_0000]))
    ensures size == 4 * |If(b, [v / 0x1_0000_0000, v % 0x1_0000_0000])|
  {
    hide Unfinished;
    var hi, lo := v / 0x1_0000_0000, v % 0x1_0000_0000;
    size := 0;
    if b {
      Put(io, hi, pre, tag, ws);
      Put(io, lo, pre, tag, ws + [hi]);
      assert ws + [hi] + [lo] == ws + [hi, lo];
      size := 8;
    } else {
      assert ws + [] == ws;
    }
  }

  method WriteTfhd(io: Stream, h: Header, id: u32) returns (size: u32)
    requires io.Valid() && h.flags < 0x100_0000 && h.base < TWO_64
    modifies io
    ensures io.Valid() && io.base == old(io.base) && io.start == old(io.start)
    ensures io.done == old(io.done) + Serialize(Table(TAG_TFHD, TfhdWords(h, id))) && size == 8 + 4 * |TfhdWords(h, id)|
  {
    hide Words, Splice, Serialize, Bit, Unfinished, Table, If;
    ghost var pre := io.done;
    var offset := Begin(io, TAG_TFHD);
    Put(io, h.flags, pre, TAG_TFHD, []);
    Put(io, id, pre, TAG_TFHD, [] + [h.flags]);
    ghost var ws := [h.flags, id];
    assert [] + [h.flags] + [id] == ws;
    var f := h.flags;
    var z := PutIf64(io, Bit(f, TFHD_BASE_DATA_OFFSET), h.base, pre, TAG_TFHD, ws);
    ws := ws + If(Bit(f, TFHD_BASE_DATA_OFFSET), [h.base / 0x1_0000_0000, h.base % 0x1_0000_0000]);
    var a := PutIf(io, Bit(f, TFHD_SAMPLE_DESCRIPTION), h.sdi, pre, TAG_TFHD, ws);
    ws := ws + If(Bit(f, TFHD_SAMPLE_DESCRIPTION), [h.sdi]);
    var b := PutIf(io, Bit(f, TFHD_DEFAULT_DURATION), h.duration, pre, TAG_TFHD, ws);
    ws := ws + If(Bit(f, TFHD_DEFAULT_DURATION), [h.duration]);
    var c := PutIf(io, Bit(f, TFHD_DEFAULT_SIZE), h.size, pre, TAG_TFHD, ws);
    ws := ws + If(Bit(f, TFHD_DEFAULT_SIZE), [h.size]);
    var d := PutIf(io, Bit(f, TFHD_DEFAULT_FLAGS), h.sampleFlags, pre, TAG_TFHD, ws);
    ws := ws + If(Bit(f, TFHD_DEFAULT_FLAGS), [h.sampleFlags]);
    assert ws == TfhdWords(h, id);
    assert 16 + z + a + b + c + d == 8 + 4 * |ws|;
    size := 16 + z + a + b + c + d;
    Finish(io, offset, size, pre, TAG_TFHD, ws);
  }

  /** `time` is the dts of the fragment's first sample less that of the track's first. */
  method WriteTfdt(io: Stream, time: int) returns (size: u32)
    requires io.Valid()
    modifies io
    ensures io.Valid() && io.base == old(io.base) && io.start == old(io.start)
    ensures io.done == old(io.done) + Serialize(Table(TAG_TFDT, TfdtWords(time))) && size == 8 + 4 * |TfdtWords(time)|
  {
    hide Words, Splice, Serialize, Table;
    ghost var pre := io.done;
    var t := time % 0x1_0000_0000_0000_0000;
    var wide := t > 0x7fff_ffff;
    size := if wide then 20 else 16;
    NoWords(pre);
    var version: u32 := if wide then VERSION_1 else 0;
    ghost var ws: seq<u32> := [size, TAG_TFDT, version];
    io.PutWord(size, pre, []);
    assert [] + [size] == [size];
    io.PutWord(TAG_TFDT, pre, [size]);
    assert [size] + [TAG_TFDT] == [size, TAG_TFDT];
    io.PutWord(version, pre, [size, TAG_TFDT]);
    assert [size, TAG_TFDT] + [version] == ws;
    if wide {
      io.PutWord64(t, pre, ws);
      assert ws + [t / 0x1_0000_0000, t % 0x1_0000_0000] == [size, TAG_TFDT] + TfdtWords(time);
    } else {
      io.PutWord(t, pre, ws);
      assert ws + [t] == [size, TAG_TFDT] + TfdtWords(time);
    }
    TableBytes(TAG_TFDT, TfdtWords(time));
  }

  // ---------- trun ----------

  /** The first loop of mov_write_trun decides which columns the run needs. */
  method ChooseFlags(v: Part, h: Header, a: nat, b: nat) returns (flags: u32)
    requires a < b <= |v.s|
    ensures flags == TrunFlags(v, h, a, b)
  {
    hide Gap, FlagsOf;
    var size, duration, composition := false, false, false;
    var i := a;
    while i < b
      invariant a <= i <= b
      invariant size <==> SizesDiffer(v.s, a, i, h.size)
      invariant duration <==> GapsDiffer(v.s, v.turn, a, i, h.duration)
      invariant composition <==> Shifted(v.s, a, i)
    {
      size := size || v.s[i].bytes != h.size;
      duration := duration || Gap(v.s, v.turn, i) != h.duration;
      composition := composition || v.s[i].pts != v.s[i].dts;
      i := i + 1;
    }
    flags := FlagsOf(v.s[a].key, duration, size, composition);
  }

  lemma RowsStep(v: Part, flags: u32, a: nat, i: nat, ws: seq<u32>)
    requires a <= i < |v.s|
    ensures ws + RowsWords(v.s, v.turn, flags, a, a) == ws
    ensures ws + RowsWords(v.s, v.turn, flags, a, i) + If(Bit(flags, TRUN_DURATION), [Gap(v.s, v.turn, i)])
              + If(Bit(flags, TRUN_SIZE), [v.s[i].bytes]) + If(Bit(flags, TRUN_COMPOSITION), [Shift(v.s[i])])
            == ws + RowsWords(v.s, v.turn, flags, a, i + 1)
  {
    hide Gap, Shift, If;
    FourParts(ws, RowsWords(v.s, v.turn, flags, a, i), If(Bit(flags, TRUN_DURATION), [Gap(v.s, v.turn, i)]),
              If(Bit(flags, TRUN_SIZE), [v.s[i].bytes]), If(Bit(flags, TRUN_COMPOSITION), [Shift(v.s[i])]));
  }

  lemma FourParts(w: seq<u32>, r: seq<u32>, x: seq<u32>, y: seq<u32>, z: seq<u32>)
    ensures w + r + x + y + z == w + (r + (x + y + z))
  {
  }

  method WriteRows(io: Stream, v: Part, flags: u32, a: nat, b: nat, ghost pre: seq<byte>, ghost ws: seq<u32>)
    returns (size: nat)
    requires a < b <= |v.s| && Unfinished(io, pre, TAG_TRUN, ws)
    modifies io
    ensures io.base == old(io.base) && io.start == old(io.start)
    ensures Unfinished(io, pre, TAG_TRUN, ws + RowsWords(v.s, v.turn, flags, a, b))
    ensures size == 4 * |RowsWords(v.s, v.turn, flags, a, b)|
  {
    hide Unfinished, Gap, Shift, Bit;
    size := 0;
    var i := a;
    RowsStep(v, flags, a, a, ws);
    while i < b
      invariant a <= i <= b && io.base == old(io.base) && io.start == old(io.start)
      invariant Unfinished(io, pre, TAG_TRUN, ws + RowsWords(v.s, v.turn, flags, a, i))
      invariant size == 4 * |RowsWords(v.s, v.turn, flags, a, i)|
    {
      RowsStep(v, flags, a, i, ws);
      ghost var us := ws + RowsWords(v.s, v.turn, flags, a, i);
      var x := PutIf(io, Bit(flags, TRUN_DURATION), Gap(v.s, v.turn, i), pre, TAG_TRUN, us);
      us := us + If(Bit(flags, TRUN_DURATION), [Gap(v.s, v.turn, i)]);
      var y := PutIf(io, Bit(flags, TRUN_SIZE), v.s[i].bytes, pre, TAG_TRUN, us);
      us := us + If(Bit(flags, TRUN_SIZE), [v.s[i].bytes]);
      var z := PutIf(io, Bit(flags, TRUN_COMPOSITION), Shift(v.s[i]), pre, TAG_TRUN, us);
      size := size + x + y + z;
      i := i + 1;
    }
  }

  method WriteTrun(io: Stream, v: Part, h: Header, a: nat, b: nat, moof: u32) returns (size: u32)
    requires io.Valid() && a < b <= |v.s| && b - a < TWO_32
    requires 8 + 4 * |TrunWords(v, h, a, b, moof)| <= UINT32_MAX
    modifies io
    ensures io.Valid() && io.base == old(io.base) && io.start == old(io.start)
    ensures io.done == old(io.done) + Serialize(Table(TAG_TRUN, TrunWords(v, h, a, b, moof)))
    ensures size == 8 + 4 * |TrunWords(v, h, a, b, moof)|
  {
    hide Words, Splice, Serialize, TrunFlags, RowsWords, Bit, Unfinished, Table;
    var flags := ChooseFlags(v, h, a, b);
    ghost var pre := io.done;
    var offset := Begin(io, TAG_TRUN);
    var first: u32, at := VERSION_1 + flags as int, ToU32((moof as int) + v.s[a].offset);
    Put(io, first, pre, TAG_TRUN, []);
    assert [] + [first] == [first];
    Put(io, b - a, pre, TAG_TRUN, [first]);
    assert [first] + [b - a] == [first, b - a];
    Put(io, at, pre, TAG_TRUN, [first, b - a]);
    assert [first, b - a] + [at] == [first, b - a, at];
    var x := PutIf(io, Bit(flags, TRUN_FIRST_FLAGS), DEPENDS_ON_I, pre, TAG_TRUN, [first, b - a, at]);
    var y := WriteRows(io, v, flags, a, b, pre, RunHead(v, flags, a, b, moof));
    size := 20 + x + y;
    Finish(io, offset, size, pre, TAG_TRUN, TrunWords(v, h, a, b, moof));
  }
}
