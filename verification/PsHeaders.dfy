/** psmux.c: the headers of a program stream (ISO/IEC 13818-1, section 2.5). */
module PsHeaders {
  import opened PsBits

  const PS_HDR_LEN: nat := 14
  const SYS_HDR_LEN: nat := 18
  const PSM_HDR_LEN: nat := 20
  const PES_HDR_LEN: nat := 19
  const PAYLOAD: nat := 65535 - 50
  const AUDIO_START: nat := 0
  const VIDEO_START: nat := 8
  const STREAMS: nat := 24

  datatype StreamInfo = StreamInfo(streamType: nat, streamId: nat)

  /** The bytes are the fields, one behind the other. */
  ghost predicate Spelled(h: seq<bv8>, fs: seq<Field>)
  {
    Wrote(h, h, 0, FieldsBits(fs, |fs|)) && |FieldsBits(fs, |fs|)| == 8 * |h|
  }

  /** Field n of a header reads as its value, if that fits. */
  lemma SpelledField(h: seq<bv8>, fs: seq<Field>, n: nat)
    requires Spelled(h, fs) && n < |fs|
    ensures Width(fs, n) + fs[n].count <= 8 * |h|
    ensures ValueOf(BitsFrom(h, Width(fs, n), fs[n].count)) == fs[n].value % Pow2(fs[n].count)
  {
    FieldsReadBack(h, h, fs, n);
  }

  lemma FinishedHeader(base: seq<bv8>, h: seq<bv8>, fs: seq<Field>)
    requires Wrote(base, h, 0, FieldsBits(fs, |fs|)) && |FieldsBits(fs, |fs|)| == 8 * |h|
    ensures Spelled(h, fs)
  {
    hide BitAt, FieldsBits;
  }

  // ---------- the fields ----------

  /** A 33-bit time in three parts with marker bits, behind a four-bit prefix. */
  function TimeFields(prefix: nat, t: nat): seq<Field>
  {
    [Field(4, prefix), Field(3, t / 0x4000_0000 % 8), Field(1, 1), Field(15, t / 0x8000 % 0x8000), Field(1, 1),
     Field(15, t % 0x8000), Field(1, 1)]
  }

  function PesStart(id: nat, length: nat): seq<Field>
  {
    [Field(24, 1), Field(8, id), Field(16, length + 13),
     Field(2, 2), Field(2, 0), Field(1, 0), Field(1, 0), Field(1, 0), Field(1, 0)]
  }

  function PesFlags(): seq<Field>
  {
    [Field(1, 1), Field(1, 1), Field(1, 0), Field(1, 0), Field(1, 0), Field(1, 0), Field(1, 0), Field(1, 0), Field(8, 10)]
  }

  function PesFields(id: nat, length: nat, pts: nat, dts: nat): seq<Field>
  {
    PesStart(id, length) + PesFlags() + TimeFields(3, pts) + TimeFields(1, dts)
  }

  lemma {:induction false} WidthJoin(a: seq<Field>, b: seq<Field>, n: nat)
    requires n <= |b|
    ensures Width(a + b, |a| + n) == Width(a, |a|) + Width(b, n)
  {
    if n == 0 {
      FieldsSame(a + b, a, |a|);
    } else {
      WidthJoin(a, b, n - 1);
      assert (a + b)[|a| + n - 1] == b[n - 1];
    }
  }

  lemma StartWidths(id: nat, length: nat)
    ensures var fs := PesStart(id, length); Width(fs, 2) == 32 && Width(fs, 9) == 56
  {
    var fs := PesStart(id, length);
    assert Width(fs, 1) == 24;
    assert Width(fs, 3) == 48;
    assert Width(fs, 5) == 52;
    assert Width(fs, 7) == 54;
  }

  lemma FlagWidths()
    ensures Width(PesFlags(), 8) == 8 && Width(PesFlags(), 9) == 16
  {
    assert Width(PesFlags(), 4) == 4;
  }

  lemma TimeWidths(prefix: nat, t: nat)
    ensures var fs := TimeFields(prefix, t); Width(fs, 1) == 4 && Width(fs, 3) == 8 && Width(fs, 5) == 24 && Width(fs, 7) == 40
  {
  }

  lemma PesWidths(id: nat, length: nat, pts: nat, dts: nat)
    ensures var fs := PesFields(id, length, pts, dts);
            && |fs| == 32 && Width(fs, |fs|) == 8 * PES_HDR_LEN
            && fs[0] == Field(24, 1) && fs[1] == Field(8, id)
            && Width(fs, 2) == 32 && fs[2] == Field(16, length + 13)
            && Width(fs, 17) == 64 && fs[17] == Field(8, 10)
            && forall i :: 0 <= i < 7 ==>
              && fs[18 + i] == TimeFields(3, pts)[i] && Width(fs, 18 + i) == 72 + Width(TimeFields(3, pts), i)
              && fs[25 + i] == TimeFields(1, dts)[i] && Width(fs, 25 + i) == 112 + Width(TimeFields(1, dts), i)
  {
    hide Width;
    var a, b, c, d := PesStart(id, length), PesFlags(), TimeFields(3, pts), TimeFields(1, dts);
    StartWidths(id, length);
    FlagWidths();
    TimeWidths(3, pts);
    TimeWidths(1, dts);
    WidthJoin(a + b + c, d, 7);
    WidthJoin(a + b, c, 7);
    WidthJoin(a, b, 9);
    WidthJoin(a, b, 8);
    FieldsSame(a + b + c + d, a, 2);
    FieldsSame(a + b + c + d, a + b, 17);
    forall i | 0 <= i < 7
      ensures Width(a + b + c + d, 18 + i) == 72 + Width(c, i) && Width(a + b + c + d, 25 + i) == 112 + Width(d, i)
    {
      WidthJoin(a + b, c, i);
      WidthJoin(a + b + c, d, i);
      FieldsSame(a + b + c + d, a + b + c, 18 + i);
    }
  }

  // ---------- what a reader finds ----------

  /** The number in the 16 bits from bit p on. */
  function Word16(h: seq<bv8>, p: nat): nat
    requires p + 16 <= 8 * |h|
  {
    ValueOf(BitsFrom(h, p, 16))
  }

  /** The 33-bit time in the five bytes from bit p on. */
  function TimeAt(h: seq<bv8>, p: nat): nat
    requires p + 40 <= 8 * |h|
  {
    ValueOf(BitsFrom(h, p + 4, 3)) * 0x4000_0000 + ValueOf(BitsFrom(h, p + 8, 15)) * 0x8000 + ValueOf(BitsFrom(h, p + 24, 15))
  }

  lemma TimeParts(t: nat)
    ensures t / 0x4000_0000 % 8 * 0x4000_0000 + t / 0x8000 % 0x8000 * 0x8000 + t % 0x8000 == t % 0x2_0000_0000
  {
    var q := t / 0x8000;
    var a := q / 0x8000;
    assert t / 0x4000_0000 == a;
    var e, f := a / 8, a % 8;
    assert t == e * 0x2_0000_0000 + (f * 0x4000_0000 + q % 0x8000 * 0x8000 + t % 0x8000);
  }

  lemma Pow2Of15()
    ensures Pow2(3) == 8 && Pow2(15) == 0x8000 && Pow2(16) == 0x1_0000
  {
    assert Pow2(8) == 256;
  }

  /** Time fields at bit p of a header are read back as the time modulo 2^33. */
  lemma TimeReadBack(h: seq<bv8>, fs: seq<Field>, at: nat, prefix: nat, t: nat, p: nat)
    requires Spelled(h, fs) && at + 7 <= |fs| && p + 40 <= 8 * |h|
    requires forall i :: 0 <= i < 7 ==> fs[at + i] == TimeFields(prefix, t)[i] && Width(fs, at + i) == p + Width(TimeFields(prefix, t), i)
    ensures TimeAt(h, p) == t % 0x2_0000_0000
  {
    hide Spelled, ValueOf, BitsFrom, Pow2;
    Pow2Of15();
    TimeWidths(prefix, t);
    assert fs[at + 1] == Field(3, t / 0x4000_0000 % 8) && Width(fs, at + 1) == p + 4;
    assert fs[at + 3] == Field(15, t / 0x8000 % 0x8000) && Width(fs, at + 3) == p + 8;
    assert fs[at + 5] == Field(15, t % 0x8000) && Width(fs, at + 5) == p + 24;
    SpelledField(h, fs, at + 1);
    SpelledField(h, fs, at + 3);
    SpelledField(h, fs, at + 5);
    TimeParts(t);
  }

  /** The header of a PES packet says how many bytes follow its length field, and both times come back. */
  lemma PesHeaderReads(h: seq<bv8>, id: nat, length: nat, pts: nat, dts: nat)
    requires Spelled(h, PesFields(id, length, pts, dts)) && length <= PAYLOAD
    ensures |h| == PES_HDR_LEN && (id < 0x100 ==> CodeOf(h) == 0x100 + id)
    ensures Word16(h, 32) == |h| - 6 + length && Word16(h, 32) < 0x1_0000
    ensures TimeAt(h, 72) == pts % 0x2_0000_0000 && TimeAt(h, 112) == dts % 0x2_0000_0000
    ensures ValueOf(BitsFrom(h, 64, 8)) == |h| - 9
  {
    hide Width, PesFields, ValueOf, BitsFrom, Pow2, FieldsBits, CodeOf;
    var fs := PesFields(id, length, pts, dts);
    PesWidths(id, length, pts, dts);
    if id < 0x100 {
      CodeInTwo(h, fs, id);
    }
    FieldsWidth(fs, |fs|);
    Pow2Of15();
    assert Pow2(8) == 256 by {
      SmallPow();
    }
    SpelledField(h, fs, 2);
    SpelledField(h, fs, 17);
    TimeReadBack(h, fs, 18, 3, pts, 72);
    TimeReadBack(h, fs, 25, 1, dts, 112);
  }

  lemma SmallPow()
    ensures Pow2(8) == 256
  {
    assert Pow2(4) == 16;
  }

  // ---------- writing the PES header ----------

  /** A buffer of zero bytes with a cursor at its start. */
  method Blank(n: nat) returns (bb: BitBuffer)
    ensures fresh(bb) && fresh(bb.data) && bb.Writing() && bb.fields == [] && bb.data.Length == n && bb.Pos() == 0
  {
    var a := new bv8[n](_ => 0);
    bb := new BitBuffer(a);
  }

  method WritePesStart(bb: BitBuffer, id: nat, length: nat)
    requires bb.Writing() && bb.Pos() + 56 <= 8 * bb.data.Length
    modifies bb, bb.data
    ensures bb.Writing() && bb.Pos() == old(bb.Pos()) + 56 && bb.fields == old(bb.fields) + PesStart(id, length)
  {
    hide BitBuffer.Writing;
    bb.BitsWrite(24, 0x000001);
    bb.BitsWrite(8, id);
    bb.BitsWrite(16, length + 13);
    bb.BitsWrite(2, 2);
    bb.BitsWrite(2, 0);
    bb.BitsWrite(1, 0);
    bb.BitsWrite(1, 0);
    bb.BitsWrite(1, 0);
    bb.BitsWrite(1, 0);
  }

  method WritePesFlags(bb: BitBuffer)
    requires bb.Writing() && bb.Pos() + 16 <= 8 * bb.data.Length
    modifies bb, bb.data
    ensures bb.Writing() && bb.Pos() == old(bb.Pos()) + 16 && bb.fields == old(bb.fields) + PesFlags()
  {
    hide BitBuffer.Writing;
    bb.BitsWrite(1, 1);
    bb.BitsWrite(1, 1);
    bb.BitsWrite(1, 0);
    bb.BitsWrite(1, 0);
    bb.BitsWrite(1, 0);
    bb.BitsWrite(1, 0);
    bb.BitsWrite(1, 0);
    bb.BitsWrite(1, 0);
    bb.BitsWrite(8, 10);
  }

  method WriteTime(bb: BitBuffer, prefix: nat, t: nat)
    requires bb.Writing() && bb.Pos() + 40 <= 8 * bb.data.Length
    modifies bb, bb.data
    ensures bb.Writing() && bb.Pos() == old(bb.Pos()) + 40 && bb.fields == old(bb.fields) + TimeFields(prefix, t)
  {
    hide BitBuffer.Writing;
    bb.BitsWrite(4, prefix);
    bb.BitsWrite(3, t / 0x4000_0000 % 8);
    bb.BitsWrite(1, 1);
    bb.BitsWrite(15, t / 0x8000 % 0x8000);
    bb.BitsWrite(1, 1);
    bb.BitsWrite(15, t % 0x8000);
    bb.BitsWrite(1, 1);
  }

  /** What a finished buffer holds. */
  lemma Finished(bb: BitBuffer, fs: seq<Field>)
    requires bb.Writing() && bb.Pos() == 8 * bb.data.Length && bb.fields == fs
    ensures Spelled(bb.data[..], fs)
  {
    hide BitAt, FieldsBits, Wrote;
    FinishedHeader(bb.base, bb.data[..], fs);
  }

  /** gb28181_make_pes_header */
  method MakePesHeader(id: nat, length: nat, pts: nat, dts: nat) returns (h: seq<bv8>)
    ensures Spelled(h, PesFields(id, length, pts, dts)) && |h| == PES_HDR_LEN
  {
    hide BitBuffer.Writing, Spelled, PesStart, PesFlags, TimeFields;
    var bb := Blank(PES_HDR_LEN);
    WritePesStart(bb, id, length);
    WritePesFlags(bb);
    WriteTime(bb, 3, pts);
    WriteTime(bb, 1, dts);
    assert [] + PesStart(id, length) == PesStart(id, length);
    Finished(bb, PesFields(id, length, pts, dts));
    h := bb.data[..];
  }

  // ---------- pack, system and map headers ----------

  function PackFields(t: nat): seq<Field>
  {
    [Field(32, 0x000001BA), Field(2, 1), Field(3, t / 0x4000_0000 % 8), Field(1, 1), Field(15, t / 0x8000 % 0x8000), Field(1, 1),
     Field(15, t % 0x8000), Field(1, 1), Field(9, t % 0x200), Field(1, 1), Field(22, 255), Field(2, 3), Field(5, 0x1f), Field(3, 0)]
  }

  function SysStart(streams: nat): seq<Field>
  {
    [Field(32, 0x000001BB), Field(16, SYS_HDR_LEN - 12 + streams * 3), Field(1, 1), Field(22, 50000), Field(1, 1), Field(6, 1),
     Field(1, 0), Field(1, 0), Field(1, 1), Field(1, 1), Field(1, 1), Field(5, 1), Field(1, 0), Field(7, 0x7F)]
  }

  function PsmStart(streams: nat): seq<Field>
  {
    [Field(24, 1), Field(8, 0xBC), Field(16, PSM_HDR_LEN - 10 + streams * 4), Field(1, 1), Field(2, 3), Field(5, 0),
     Field(7, 0x7F), Field(1, 1), Field(16, 0), Field(16, streams * 4)]
  }

  function SysStream(s: StreamInfo): seq<Field> { [Field(8, s.streamId), Field(2, 3), Field(1, 0), Field(13, 512)] }

  function PsmStream(s: StreamInfo): seq<Field> { [Field(8, s.streamType), Field(8, s.streamId), Field(16, 0)] }

  /** The entries of n streams from place `start` on. */
  function SysStreams(info: seq<StreamInfo>, start: nat, n: nat): (fs: seq<Field>)
    requires start + n <= |info|
    ensures |fs| == 4 * n
  {
    if n == 0 then [] else SysStreams(info, start, n - 1) + SysStream(info[start + n - 1])
  }

  function PsmStreams(info: seq<StreamInfo>, start: nat, n: nat): (fs: seq<Field>)
    requires start + n <= |info|
    ensures |fs| == 3 * n
  {
    if n == 0 then [] else PsmStreams(info, start, n - 1) + PsmStream(info[start + n - 1])
  }

  function SysFields(info: seq<StreamInfo>, audio: nat, video: nat): seq<Field>
    requires |info| == STREAMS && audio <= 8 && video <= 8
  {
    SysStart(audio + video) + SysStreams(info, AUDIO_START, audio) + SysStreams(info, VIDEO_START, video)
  }

  /** The program stream map without its checksum. */
  function MapFields(info: seq<StreamInfo>, audio: nat, video: nat): seq<Field>
    requires |info| == STREAMS && audio <= 8 && video <= 8
  {
    PsmStart(audio + video) + PsmStreams(info, AUDIO_START, audio) + PsmStreams(info, VIDEO_START, video)
  }

  lemma PackWidths(t: nat)
    ensures var fs := PackFields(t);
            && Width(fs, 2) == 34 && Width(fs, 4) == 38 && Width(fs, 6) == 54 && Width(fs, 8) == 70 && Width(fs, 13) == 109
            && Width(fs, 14) == 8 * PS_HDR_LEN
  {
    var fs := PackFields(t);
    assert Width(fs, 1) == 32;
    assert Width(fs, 3) == 37;
    assert Width(fs, 5) == 53;
    assert Width(fs, 7) == 69;
    assert Width(fs, 9) == 79;
    assert Width(fs, 11) == 102;
  }

  lemma SysStartWidths(streams: nat)
    ensures var fs := SysStart(streams); Width(fs, 1) == 32 && Width(fs, 14) == 96
  {
    var fs := SysStart(streams);
    assert Width(fs, 1) == 32;
    assert Width(fs, 3) == 49;
    assert Width(fs, 5) == 72;
    assert Width(fs, 7) == 79;
    assert Width(fs, 9) == 81;
    assert Width(fs, 11) == 83;
    assert Width(fs, 13) == 89;
  }

  lemma PsmStartWidths(streams: nat)
    ensures var fs := PsmStart(streams); Width(fs, 2) == 32 && Width(fs, 9) == 80 && Width(fs, 10) == 96
  {
    var fs := PsmStart(streams);
    assert Width(fs, 1) == 24;
    assert Width(fs, 3) == 48;
    assert Width(fs, 5) == 51;
    assert Width(fs, 7) == 63;
  }

  lemma {:induction false} SysStreamsWidth(info: seq<StreamInfo>, start: nat, n: nat)
    requires start + n <= |info|
    ensures var fs := SysStreams(info, start, n); Width(fs, |fs|) == 24 * n
  {
    if n > 0 {
      SysStreamsWidth(info, start, n - 1);
      var s := SysStream(info[start + n - 1]);
      assert Width(s, 1) == 8;
      assert Width(s, 3) == 11;
      WidthJoin(SysStreams(info, start, n - 1), s, 4);
    }
  }

  lemma {:induction false} PsmStreamsWidth(info: seq<StreamInfo>, start: nat, n: nat)
    requires start + n <= |info|
    ensures var fs := PsmStreams(info, start, n); Width(fs, |fs|) == 32 * n
  {
    if n > 0 {
      PsmStreamsWidth(info, start, n - 1);
      var s := PsmStream(info[start + n - 1]);
      assert Width(s, 1) == 8 && Width(s, 3) == 32;
      WidthJoin(PsmStreams(info, start, n - 1), s, 3);
    }
  }

  lemma SysWidths(info: seq<StreamInfo>, audio: nat, video: nat)
    requires |info| == STREAMS && audio <= 8 && video <= 8
    ensures var fs := SysFields(info, audio, video);
            && |fs| >= 14 && Width(fs, |fs|) == 8 * (12 + 3 * (audio + video)) && Width(fs, 1) == 32
            && fs[0] == Field(32, 0x1BB)
            && fs[1] == Field(16, 6 + 3 * (audio + video))
  {
    var a, b, c := SysStart(audio + video), SysStreams(info, AUDIO_START, audio), SysStreams(info, VIDEO_START, video);
    SysStartWidths(audio + video);
    SysStreamsWidth(info, AUDIO_START, audio);
    SysStreamsWidth(info, VIDEO_START, video);
    hide Width, SysStreams;
    WidthJoin(a + b, c, |c|);
    WidthJoin(a, b, |b|);
    FieldsSame(a + b + c, a, 1);
  }

  lemma MapWidths(info: seq<StreamInfo>, audio: nat, video: nat)
    requires |info| == STREAMS && audio <= 8 && video <= 8
    ensures var fs := MapFields(info, audio, video);
            && |fs| >= 10 && Width(fs, |fs|) == 8 * (12 + 4 * (audio + video)) && Width(fs, 2) == 32 && Width(fs, 9) == 80
            && fs[0] == Field(24, 1) && fs[1] == Field(8, 0xBC)
            && fs[2] == Field(16, 10 + 4 * (audio + video)) && fs[9] == Field(16, 4 * (audio + video))
  {
    hide Width, PsmStreams, PsmStart;
    var a, b, c := PsmStart(audio + video), PsmStreams(info, AUDIO_START, audio), PsmStreams(info, VIDEO_START, video);
    PsmStartWidths(audio + video);
    PsmStreamsWidth(info, AUDIO_START, audio);
    PsmStreamsWidth(info, VIDEO_START, video);
    PsmStartFields(audio + video);
    WidthJoin(a + b, c, |c|);
    WidthJoin(a, b, |b|);
    FieldsSame(a + b + c, a, 2);
    FieldsSame(a + b + c, a, 9);
  }

  lemma PsmStartFields(n: nat)
    ensures |PsmStart(n)| == 10 && PsmStart(n)[0] == Field(24, 1) && PsmStart(n)[1] == Field(8, 0xBC) && PsmStart(n)[2] == Field(16, 10 + 4 * n) && PsmStart(n)[9] == Field(16, 4 * n)
  {
  }

  method WritePackClock(bb: BitBuffer, t: nat)
    requires bb.Writing() && bb.Pos() + 70 <= 8 * bb.data.Length && bb.fields == []
    modifies bb, bb.data
    ensures bb.Writing() && bb.Pos() == old(bb.Pos()) + 70 && bb.fields == PackFields(t)[..8]
  {
    hide BitBuffer.Writing;
    bb.BitsWrite(32, 0x000001BA);
    bb.BitsWrite(2, 1);
    bb.BitsWrite(3, t / 0x4000_0000 % 8);
    bb.BitsWrite(1, 1);
    bb.BitsWrite(15, t / 0x8000 % 0x8000);
    bb.BitsWrite(1, 1);
    bb.BitsWrite(15, t % 0x8000);
    bb.BitsWrite(1, 1);
  }

  /** gb28181_make_ps_header */
  method MakePackHeader(t: nat) returns (h: seq<bv8>)
    ensures Spelled(h, PackFields(t)) && |h| == PS_HDR_LEN
  {
    hide BitBuffer.Writing, Spelled;
    var bb := Blank(PS_HDR_LEN);
    WritePackClock(bb, t);
    bb.BitsWrite(9, t % 0x200);
    bb.BitsWrite(1, 1);
    bb.BitsWrite(22, 255);
    bb.BitsWrite(2, 3);
    bb.BitsWrite(5, 0x1f);
    bb.BitsWrite(3, 0);
    Finished(bb, PackFields(t));
    h := bb.data[..];
  }

  /** The loop over the streams of one kind in the system header. */
  method WriteSysStreams(bb: BitBuffer, info: seq<StreamInfo>, start: nat, n: nat)
    requires bb.Writing() && start + n <= |info| && bb.Pos() + 24 * n <= 8 * bb.data.Length
    modifies bb, bb.data
    ensures bb.Writing() && bb.Pos() == old(bb.Pos()) + 24 * n && bb.fields == old(bb.fields) + SysStreams(info, start, n)
  {
    hide BitBuffer.Writing;
    ghost var fs := bb.fields;
    var i := 0;
    assert fs + [] == fs;
    while i < n
      invariant 0 <= i <= n && bb.Writing() && bb.Pos() == old(bb.Pos()) + 24 * i
      invariant bb.fields == fs + SysStreams(info, start, i)
    {
      ghost var a := SysStreams(info, start, i);
      bb.BitsWrite(8, info[start + i].streamId);
      bb.BitsWrite(2, 3);
      bb.BitsWrite(1, 0);
      bb.BitsWrite(13, 512);
      assert bb.fields == fs + (a + SysStream(info[start + i]));
      i := i + 1;
    }
  }

  method WriteSysBounds(bb: BitBuffer, n: nat)
    requires bb.Writing() && bb.Pos() + 80 <= 8 * bb.data.Length && bb.fields == []
    modifies bb, bb.data
    ensures bb.Writing() && bb.Pos() == old(bb.Pos()) + 80 && bb.fields == SysStart(n)[..8]
  {
    hide BitBuffer.Writing;
    bb.BitsWrite(32, 0x000001BB);
    bb.BitsWrite(16, SYS_HDR_LEN - 12 + n * 3);
    bb.BitsWrite(1, 1);
    bb.BitsWrite(22, 50000);
    bb.BitsWrite(1, 1);
    bb.BitsWrite(6, 1);
    bb.BitsWrite(1, 0);
    bb.BitsWrite(1, 0);
  }

  method WriteSysStart(bb: BitBuffer, n: nat)
    requires bb.Writing() && bb.Pos() + 96 <= 8 * bb.data.Length && bb.fields == []
    modifies bb, bb.data
    ensures bb.Writing() && bb.Pos() == old(bb.Pos()) + 96 && bb.fields == SysStart(n)
  {
    hide BitBuffer.Writing;
    WriteSysBounds(bb, n);
    bb.BitsWrite(1, 1);
    bb.BitsWrite(1, 1);
    bb.BitsWrite(1, 1);
    bb.BitsWrite(5, 1);
    bb.BitsWrite(1, 0);
    bb.BitsWrite(7, 0x7F);
  }

  /** gb28181_make_sys_header */
  method MakeSysHeader(info: seq<StreamInfo>, audio: nat, video: nat) returns (h: seq<bv8>)
    requires |info| == STREAMS && audio <= 8 && video <= 8
    ensures Spelled(h, SysFields(info, audio, video)) && |h| == 12 + 3 * (audio + video)
  {
    hide BitBuffer.Writing, Spelled, SysStreams, SysStart;
    var n := audio + video;
    var bb := Blank(12 + 3 * n);
    WriteSysStart(bb, n);
    WriteSysStreams(bb, info, AUDIO_START, audio);
    WriteSysStreams(bb, info, VIDEO_START, video);
    Finished(bb, SysFields(info, audio, video));
    h := bb.data[..];
  }

  /** The loop over the streams of one kind in the program stream map. */
  method WritePsmStreams(bb: BitBuffer, info: seq<StreamInfo>, start: nat, n: nat)
    requires bb.Writing() && start + n <= |info| && bb.Pos() + 32 * n <= 8 * bb.data.Length
    modifies bb, bb.data
    ensures bb.Writing() && bb.Pos() == old(bb.Pos()) + 32 * n && bb.fields == old(bb.fields) + PsmStreams(info, start, n)
  {
    hide BitBuffer.Writing;
    ghost var fs := bb.fields;
    var i := 0;
    assert fs + [] == fs;
    while i < n
      invariant 0 <= i <= n && bb.Writing() && bb.Pos() == old(bb.Pos()) + 32 * i
      invariant bb.fields == fs + PsmStreams(info, start, i)
    {
      ghost var a := PsmStreams(info, start, i);
      bb.BitsWrite(8, info[start + i].streamType);
      bb.BitsWrite(8, info[start + i].streamId);
      bb.BitsWrite(16, 0);
      assert bb.fields == fs + (a + PsmStream(info[start + i]));
      i := i + 1;
    }
  }

  method WritePsmStart(bb: BitBuffer, n: nat)
    requires bb.Writing() && bb.Pos() + 96 <= 8 * bb.data.Length && bb.fields == []
    modifies bb, bb.data
    ensures bb.Writing() && bb.Pos() == old(bb.Pos()) + 96 && bb.fields == PsmStart(n)
  {
    hide BitBuffer.Writing;
    bb.BitsWrite(24, 0x000001);
    bb.BitsWrite(8, 0xBC);
    bb.BitsWrite(16, PSM_HDR_LEN - 10 + n * 4);
    bb.BitsWrite(1, 1);
    bb.BitsWrite(2, 3);
    bb.BitsWrite(5, 0);
    bb.BitsWrite(7, 0x7F);
    bb.BitsWrite(1, 1);
    bb.BitsWrite(16, 0);
    bb.BitsWrite(16, n * 4);
  }

  /** The fields of the map and the checksum of everything behind its length field. */
  function PsmFields(info: seq<StreamInfo>, audio: nat, video: nat): seq<Field>
    requires |info| == STREAMS && audio <= 8 && video <= 8
  {
    MapWidths(info, audio, video);
    var fs := MapFields(info, audio, video);
    FieldsWidth(fs, |fs|);
    fs + [Field(32, Crc(FieldsBits(fs, |fs|)[48..]))]
  }

  /** The bits behind byte 6 of a buffer that starts with these bits. */
  lemma BitsBehind(d: seq<bv8>, base: seq<bv8>, bits: seq<bool>, n: nat)
    requires Wrote(base, d, 0, bits) && |bits| == 8 * n && 6 <= n <= |d|
    ensures BitsFrom(d[6..n], 0, 8 * |d[6..n]|) == bits[48..]
  {
    hide Bit;
    var x := BitsFrom(d[6..n], 0, 8 * |d[6..n]|);
    forall j | 0 <= j < |x|
      ensures x[j] == bits[48..][j]
    {
      assert (48 + j) / 8 == 6 + j / 8 && (48 + j) % 8 == j % 8;
      assert d[6..n][j / 8] == d[6 + j / 8];
      assert BitAt(d, 48 + j) == bits[48 + j];
    }
  }

  method WriteMap(bb: BitBuffer, info: seq<StreamInfo>, audio: nat, video: nat)
    requires |info| == STREAMS && audio <= 8 && video <= 8
    requires bb.Writing() && bb.Pos() == 0 && bb.fields == [] && 12 + 4 * (audio + video) <= bb.data.Length
    modifies bb, bb.data
    ensures bb.Writing() && bb.Pos() == 8 * (12 + 4 * (audio + video)) && bb.fields == MapFields(info, audio, video)
  {
    hide BitBuffer.Writing, PsmStreams, PsmStart;
    WritePsmStart(bb, audio + video);
    WritePsmStreams(bb, info, AUDIO_START, audio);
    WritePsmStreams(bb, info, VIDEO_START, video);
  }

  /** The checksum of everything written behind byte 6. */
  method ChecksumSoFar(bb: BitBuffer, n: nat) returns (crc: nat)
    requires bb.Writing() && bb.Pos() == 8 * n && 6 <= n <= bb.data.Length
    ensures |FieldsBits(bb.fields, |bb.fields|)| == 8 * n && crc == Crc(FieldsBits(bb.fields, |bb.fields|)[48..])
  {
    hide Wrote, FieldsBits, Crc;
    WholeBytes(bb, n);
    WrittenSoFar(bb);
    BitsBehind(bb.data[..], bb.base, FieldsBits(bb.fields, |bb.fields|), n);
    assert bb.data[..][6..n] == bb.data[6..n];
    crc := CrcEncode(bb.data[6..bb.i]);
  }

  /** gb28181_make_psm_header */
  method MakePsmHeader(info: seq<StreamInfo>, audio: nat, video: nat) returns (h: seq<bv8>)
    requires |info| == STREAMS && audio <= 8 && video <= 8
    ensures Spelled(h, PsmFields(info, audio, video)) && |h| == 16 + 4 * (audio + video)
  {
    hide BitBuffer.Writing, Spelled, MapFields, FieldsBits, Crc;
    var n := audio + video;
    var bb := Blank(16 + 4 * n);
    WriteMap(bb, info, audio, video);
    var crc := ChecksumSoFar(bb, 12 + 4 * n);
    bb.BitsWrite(32, crc);
    Finished(bb, PsmFields(info, audio, video));
    h := bb.data[..];
  }

  lemma WholeBytes(bb: BitBuffer, n: nat)
    requires bb.Writing() && bb.Pos() == 8 * n
    ensures bb.i == n
  {
  }

  lemma WrittenSoFar(bb: BitBuffer)
    requires bb.Writing()
    ensures Wrote(bb.base, bb.data[..], 0, FieldsBits(bb.fields, |bb.fields|)) && bb.Pos() == |FieldsBits(bb.fields, |bb.fields|)|
  {
  }

  // ---------- the headers say what follows them ----------

  /** The start code in the first four bytes. */
  function CodeOf(h: seq<bv8>): nat
    requires |h| >= 4
  {
    ValueOf(BitsFrom(h, 0, 32))
  }

  lemma ValueJoin(a: seq<bool>, b: seq<bool>)
    ensures ValueOf(a + b) == ValueOf(a) * Pow2(|b|) + ValueOf(b)
    decreases |b|
  {
    if b == [] {
      assert a + b == a;
    } else {
      var x, y := b[..|b| - 1], b[|b| - 1];
      assert a + b == (a + x) + [y] && b == x + [y];
      ValuePush(a + x, y);
      ValuePush(x, y);
      ValueJoin(a, x);
      hide ValueOf;
      assert Pow2(|b|) == 2 * Pow2(|x|);
      Doubled(ValueOf(a), Pow2(|x|));
    }
  }

  lemma Doubled(v: nat, p: nat)
    ensures 2 * (v * p) == v * (2 * p)
  {
  }

  /** A start code in one field. */
  lemma CodeInOne(h: seq<bv8>, fs: seq<Field>, code: nat)
    requires Spelled(h, fs) && fs != [] && fs[0] == Field(32, code) && code < WORD
    ensures |h| >= 4 && CodeOf(h) == code
  {
    hide Spelled, ValueOf, BitsFrom, Pow2;
    SpelledField(h, fs, 0);
    Pow2Of32();
  }

  /** A start code in two fields: 00 00 01 and the stream. */
  lemma CodeInTwo(h: seq<bv8>, fs: seq<Field>, id: nat)
    requires Spelled(h, fs) && |fs| >= 2 && fs[0] == Field(24, 1) && fs[1] == Field(8, id) && id < 0x100
    ensures |h| >= 4 && CodeOf(h) == 0x100 + id
  {
    hide Spelled, ValueOf, Pow2;
    SpelledField(h, fs, 0);
    assert Width(fs, 1) == Width(fs, 0) + 24;
    SpelledField(h, fs, 1);
    SmallPow();
    assert Pow2(24) > 1 by { PowSum(8, 16); Pow2Of15(); }
    assert BitsFrom(h, 0, 32) == BitsFrom(h, 0, 24) + BitsFrom(h, 24, 8);
    ValueJoin(BitsFrom(h, 0, 24), BitsFrom(h, 24, 8));
  }

  /**
   * The pack header: the clock base reads back as the time modulo 2^33, its extension as the time's low nine
   * bits, and no stuffing follows.
   */
  lemma PackHeaderReads(h: seq<bv8>, t: nat)
    requires Spelled(h, PackFields(t))
    ensures |h| == PS_HDR_LEN && CodeOf(h) == 0x1BA
    ensures TimeAt(h, 30) == t % 0x2_0000_0000 && ValueOf(BitsFrom(h, 70, 9)) == t % 0x200
    ensures ValueOf(BitsFrom(h, 109, 3)) == 0
  {
    hide Width, ValueOf, BitsFrom, Pow2, FieldsBits, CodeOf, PackFields, Spelled;
    var fs := PackFields(t);
    PackWidths(t);
    PackParts(t);
    SpelledSize(h, fs);
    CodeInOne(h, fs, 0x1BA);
    PackClock(h, t);
    Pow2Of15();
    assert Pow2(9) == 0x200 by {
      SmallPow();
      PowNext(8);
    }
    SpelledField(h, fs, 8);
    SpelledField(h, fs, 13);
  }

  lemma SpelledSize(h: seq<bv8>, fs: seq<Field>)
    requires Spelled(h, fs)
    ensures 8 * |h| == Width(fs, |fs|)
  {
    FieldsWidth(fs, |fs|);
  }

  lemma PackParts(t: nat)
    ensures var fs := PackFields(t);
            && |fs| == 14 && fs[0] == Field(32, 0x1BA) && fs[2] == Field(3, t / 0x4000_0000 % 8)
            && fs[4] == Field(15, t / 0x8000 % 0x8000) && fs[6] == Field(15, t % 0x8000)
            && fs[8] == Field(9, t % 0x200) && fs[13] == Field(3, 0)
  {
  }

  lemma PackClock(h: seq<bv8>, t: nat)
    requires Spelled(h, PackFields(t)) && |h| == PS_HDR_LEN
    ensures TimeAt(h, 30) == t % 0x2_0000_0000
  {
    hide Width, ValueOf, BitsFrom, Pow2, FieldsBits, PackFields, Spelled;
    var fs := PackFields(t);
    PackWidths(t);
    PackParts(t);
    Pow2Of15();
    SpelledField(h, fs, 2);
    SpelledField(h, fs, 4);
    SpelledField(h, fs, 6);
    TimeParts(t);
  }

  lemma PowNext(n: nat)
    ensures Pow2(n + 1) == 2 * Pow2(n)
  {
  }

  /** The length field of the system header counts the bytes behind it, for any number of streams. */
  lemma SysHeaderReads(h: seq<bv8>, info: seq<StreamInfo>, audio: nat, video: nat)
    requires |info| == STREAMS && audio <= 8 && video <= 8 && Spelled(h, SysFields(info, audio, video))
    ensures |h| == 12 + 3 * (audio + video) && Word16(h, 32) == |h| - 6 && CodeOf(h) == 0x1BB
  {
    hide Width, SysFields, ValueOf, BitsFrom, Pow2, FieldsBits, CodeOf;
    var fs := SysFields(info, audio, video);
    SysWidths(info, audio, video);
    CodeInOne(h, fs, 0x1BB);
    FieldsWidth(fs, |fs|);
    Pow2Of15();
    SpelledField(h, fs, 1);
  }

  lemma PsmWidths(info: seq<StreamInfo>, audio: nat, video: nat)
    requires |info| == STREAMS && audio <= 8 && video <= 8
    ensures var fs := PsmFields(info, audio, video);
            && |fs| >= 10 && Width(fs, |fs|) == 8 * (16 + 4 * (audio + video)) && Width(fs, 2) == 32 && Width(fs, 9) == 80
            && fs[0] == Field(24, 1) && fs[1] == Field(8, 0xBC)
            && fs[2] == Field(16, 10 + 4 * (audio + video)) && fs[9] == Field(16, 4 * (audio + video))
  {
    MapWidths(info, audio, video);
    var a, fs := MapFields(info, audio, video), PsmFields(info, audio, video);
    FieldsWidth(a, |a|);
    hide Width, MapFields, Crc, FieldsBits;
    FieldsSame(fs, a, 2);
    FieldsSame(fs, a, 9);
    PushWidth(a, fs[|a|]);
  }

  lemma PushWidth(fs: seq<Field>, f: Field)
    ensures Width(fs + [f], |fs| + 1) == Width(fs, |fs|) + f.count
  {
    FieldsSame(fs + [f], fs, |fs|);
  }

  /**
   * So do both length fields of the program stream map, and the bytes behind the first one, its checksum
   * included, have the checksum 0.
   */
  lemma PsmHeaderReads(h: seq<bv8>, info: seq<StreamInfo>, audio: nat, video: nat)
    requires |info| == STREAMS && audio <= 8 && video <= 8 && Spelled(h, PsmFields(info, audio, video))
    ensures |h| == 16 + 4 * (audio + video) && Word16(h, 32) == |h| - 6 && Word16(h, 80) == |h| - 16 && CodeOf(h) == 0x1BC
    ensures Crc(BitsFrom(h, 48, 8 * (|h| - 6))) == 0
  {
    hide Width, PsmFields, ValueOf, BitsFrom, Pow2, FieldsBits, Crc, Spelled, CodeOf;
    PsmLengths(h, info, audio, video);
    MapChecksum(h, info, audio, video);
  }

  lemma PsmLengths(h: seq<bv8>, info: seq<StreamInfo>, audio: nat, video: nat)
    requires |info| == STREAMS && audio <= 8 && video <= 8 && Spelled(h, PsmFields(info, audio, video))
    ensures |h| == 16 + 4 * (audio + video) && Word16(h, 32) == |h| - 6 && Word16(h, 80) == |h| - 16 && CodeOf(h) == 0x1BC
  {
    hide Width, PsmFields, ValueOf, BitsFrom, Pow2, FieldsBits, Crc, CodeOf;
    var fs := PsmFields(info, audio, video);
    PsmWidths(info, audio, video);
    CodeInTwo(h, fs, 0xBC);
    FieldsWidth(fs, |fs|);
    Pow2Of15();
    SpelledField(h, fs, 2);
    SpelledField(h, fs, 9);
  }

  lemma MapChecksum(h: seq<bv8>, info: seq<StreamInfo>, audio: nat, video: nat)
    requires |info| == STREAMS && audio <= 8 && video <= 8 && Spelled(h, PsmFields(info, audio, video))
    ensures |h| >= 6 && Crc(BitsFrom(h, 48, 8 * (|h| - 6))) == 0
  {
    MapWidths(info, audio, video);
    var a := MapFields(info, audio, video);
    FieldsWidth(a, |a|);
    hide Width, MapFields, Crc, FieldsBits, BitAt, FieldBit;
    var bits := FieldsBits(a, |a|);
    var crc := Crc(bits[48..]);
    FieldsPush(a, Field(32, crc));
    ChecksumOfChecked(bits[48..]);
    var all := bits + FieldBits(32, crc);
    assert all[48..] == bits[48..] + FieldBits(32, crc);
    SpelledBits(h, a + [Field(32, crc)], all);
  }

  /** The bits of a header from byte 6 on. */
  lemma SpelledBits(h: seq<bv8>, fs: seq<Field>, bits: seq<bool>)
    requires Spelled(h, fs) && bits == FieldsBits(fs, |fs|) && |bits| >= 48
    ensures |h| >= 6 && BitsFrom(h, 48, 8 * (|h| - 6)) == bits[48..]
  {
    hide FieldsBits, BitAt;
    var x := BitsFrom(h, 48, 8 * (|h| - 6));
    forall j | 0 <= j < |x|
      ensures x[j] == bits[48..][j]
    {
      assert BitAt(h, 48 + j) == bits[48 + j];
    }
  }

  // ---------- the streams that the headers list ----------

  /** The number in the byte p. */
  function ByteAt(h: seq<bv8>, p: nat): nat
    requires p < |h|
  {
    ValueOf(BitsFrom(h, 8 * p, 8))
  }

  /** The stream that a header lists at place k: first the audio streams, then the video streams. */
  function Listed(info: seq<StreamInfo>, audio: nat, video: nat, k: nat): StreamInfo
    requires |info| == STREAMS && audio <= 8 && video <= 8 && k < audio + video
  {
    if k < audio then info[k] else info[8 + k - audio]
  }

  /** Field i of `fs` is `f`, and it begins behind w bits. */
  ghost predicate FieldAt(fs: seq<Field>, i: nat, f: Field, w: nat) { i < |fs| && fs[i] == f && Width(fs, i) == w }

  lemma FieldBehind(a: seq<Field>, b: seq<Field>, i: nat, f: Field, w: nat)
    requires FieldAt(b, i, f, w)
    ensures FieldAt(a + b, |a| + i, f, Width(a, |a|) + w)
  {
    WidthJoin(a, b, i);
  }

  lemma FieldBefore(a: seq<Field>, b: seq<Field>, i: nat, f: Field, w: nat)
    requires FieldAt(a, i, f, w)
    ensures FieldAt(a + b, i, f, w)
  {
    FieldsSame(a + b, a, i);
  }

  lemma FieldReads(h: seq<bv8>, fs: seq<Field>, i: nat, f: Field, w: nat)
    requires Spelled(h, fs) && FieldAt(fs, i, f, w)
    ensures w + f.count <= 8 * |h| && ValueOf(BitsFrom(h, w, f.count)) == f.value % Pow2(f.count)
  {
    hide Spelled, Width, ValueOf, BitsFrom, Pow2;
    SpelledField(h, fs, i);
  }

  /** The three fields of stream s in a list of the map. */
  ghost predicate MapEntry(fs: seq<Field>, i: nat, s: StreamInfo, w: nat)
  {
    && FieldAt(fs, i, Field(8, s.streamType), w) && FieldAt(fs, i + 1, Field(8, s.streamId), w + 8)
    && FieldAt(fs, i + 2, Field(16, 0), w + 16)
  }

  lemma MapEntryBehind(a: seq<Field>, b: seq<Field>, i: nat, s: StreamInfo, w: nat)
    requires MapEntry(b, i, s, w)
    ensures MapEntry(a + b, |a| + i, s, Width(a, |a|) + w)
  {
    hide FieldAt, Width;
    FieldBehind(a, b, i, Field(8, s.streamType), w);
    FieldBehind(a, b, i + 1, Field(8, s.streamId), w + 8);
    FieldBehind(a, b, i + 2, Field(16, 0), w + 16);
  }

  lemma MapEntryBefore(a: seq<Field>, b: seq<Field>, i: nat, s: StreamInfo, w: nat)
    requires MapEntry(a, i, s, w)
    ensures MapEntry(a + b, i, s, w)
  {
    hide FieldAt;
    FieldBefore(a, b, i, Field(8, s.streamType), w);
    FieldBefore(a, b, i + 1, Field(8, s.streamId), w + 8);
    FieldBefore(a, b, i + 2, Field(16, 0), w + 16);
  }

  lemma {:induction false} MapListed(info: seq<StreamInfo>, start: nat, n: nat, k: nat)
    requires start + n <= |info| && k < n
    ensures MapEntry(PsmStreams(info, start, n), 3 * k, info[start + k], 32 * k)
  {
    hide MapEntry, Width;
    var a, b := PsmStreams(info, start, n - 1), PsmStream(info[start + n - 1]);
    if k < n - 1 {
      MapListed(info, start, n - 1, k);
      MapEntryBefore(a, b, 3 * k, info[start + k], 32 * k);
    } else {
      PsmStreamsWidth(info, start, n - 1);
      OneMapEntry(info[start + n - 1]);
      MapEntryBehind(a, b, 0, info[start + k], 0);
    }
  }

  lemma OneMapEntry(s: StreamInfo)
    ensures MapEntry(PsmStream(s), 0, s, 0)
  {
    var fs := PsmStream(s);
    assert Width(fs, 0) == 0 && Width(fs, 1) == 8 && Width(fs, 2) == 16;
  }

  /** Where the entry of place k is among the fields of the map. */
  lemma MapPlace(info: seq<StreamInfo>, audio: nat, video: nat, k: nat) returns (i: nat)
    requires |info| == STREAMS && audio <= 8 && video <= 8 && k < audio + video
    ensures MapEntry(PsmFields(info, audio, video), i, Listed(info, audio, video, k), 96 + 32 * k)
  {
    hide MapEntry, Width, PsmStreams, PsmStart, Crc, FieldsBits;
    var a, b, c := PsmStart(audio + video), PsmStreams(info, AUDIO_START, audio), PsmStreams(info, VIDEO_START, video);
    PsmStartWidths(audio + video);
    PsmStartFields(audio + video);
    PsmStreamsWidth(info, AUDIO_START, audio);
    WidthJoin(a, b, |b|);
    if k < audio {
      MapListed(info, AUDIO_START, audio, k);
      MapEntryBehind(a, b, 3 * k, info[k], 32 * k);
      i := |a| + 3 * k;
      MapEntryBefore(a + b, c, i, info[k], 96 + 32 * k);
    } else {
      MapListed(info, VIDEO_START, video, k - audio);
      MapEntryBehind(a + b, c, 3 * (k - audio), info[8 + k - audio], 32 * (k - audio));
      i := |a + b| + 3 * (k - audio);
    }
    var fs := a + b + c;
    MapWidths(info, audio, video);
    FieldsWidth(fs, |fs|);
    MapEntryBefore(fs, [Field(32, Crc(FieldsBits(fs, |fs|)[48..]))], i, Listed(info, audio, video, k), 96 + 32 * k);
  }

  lemma ByteValue()
    ensures Pow2(8) == 256
  {
    assert Pow2(4) == 16;
  }

  /** A reader of the map finds under place k the type and the id of that stream, and no descriptors. */
  lemma MapListsStreams(h: seq<bv8>, info: seq<StreamInfo>, audio: nat, video: nat, k: nat)
    requires |info| == STREAMS && audio <= 8 && video <= 8 && Spelled(h, PsmFields(info, audio, video))
    requires k < audio + video
    ensures 16 + 4 * k <= |h|
    ensures var s := Listed(info, audio, video, k);
            && ByteAt(h, 12 + 4 * k) == s.streamType % 256 && ByteAt(h, 13 + 4 * k) == s.streamId % 256
            && Word16(h, 8 * (14 + 4 * k)) == 0
  {
    hide Width, PsmFields, ValueOf, BitsFrom, Pow2, Spelled, FieldAt;
    var i := MapPlace(info, audio, video, k);
    var s, fs := Listed(info, audio, video, k), PsmFields(info, audio, video);
    FieldReads(h, fs, i, Field(8, s.streamType), 96 + 32 * k);
    FieldReads(h, fs, i + 1, Field(8, s.streamId), 104 + 32 * k);
    FieldReads(h, fs, i + 2, Field(16, 0), 112 + 32 * k);
    ByteValue();
    Pow2Of15();
  }

  /** The fields of stream s in the list of the system header: its id, and a bound of 512 units of 128 bytes. */
  ghost predicate SysEntry(fs: seq<Field>, i: nat, s: StreamInfo, w: nat)
  {
    && FieldAt(fs, i, Field(8, s.streamId), w) && FieldAt(fs, i + 2, Field(1, 0), w + 10)
    && FieldAt(fs, i + 3, Field(13, 512), w + 11)
  }

  lemma SysEntryBehind(a: seq<Field>, b: seq<Field>, i: nat, s: StreamInfo, w: nat)
    requires SysEntry(b, i, s, w)
    ensures SysEntry(a + b, |a| + i, s, Width(a, |a|) + w)
  {
    hide FieldAt, Width;
    FieldBehind(a, b, i, Field(8, s.streamId), w);
    FieldBehind(a, b, i + 2, Field(1, 0), w + 10);
    FieldBehind(a, b, i + 3, Field(13, 512), w + 11);
  }

  lemma SysEntryBefore(a: seq<Field>, b: seq<Field>, i: nat, s: StreamInfo, w: nat)
    requires SysEntry(a, i, s, w)
    ensures SysEntry(a + b, i, s, w)
  {
    hide FieldAt;
    FieldBefore(a, b, i, Field(8, s.streamId), w);
    FieldBefore(a, b, i + 2, Field(1, 0), w + 10);
    FieldBefore(a, b, i + 3, Field(13, 512), w + 11);
  }

  lemma {:induction false} SysListed(info: seq<StreamInfo>, start: nat, n: nat, k: nat)
    requires start + n <= |info| && k < n
    ensures SysEntry(SysStreams(info, start, n), 4 * k, info[start + k], 24 * k)
  {
    hide SysEntry, Width;
    var a, b := SysStreams(info, start, n - 1), SysStream(info[start + n - 1]);
    if k < n - 1 {
      SysListed(info, start, n - 1, k);
      SysEntryBefore(a, b, 4 * k, info[start + k], 24 * k);
    } else {
      SysStreamsWidth(info, start, n - 1);
      OneSysEntry(info[start + n - 1]);
      SysEntryBehind(a, b, 0, info[start + k], 0);
    }
  }

  lemma OneSysEntry(s: StreamInfo)
    ensures SysEntry(SysStream(s), 0, s, 0)
  {
    var fs := SysStream(s);
    assert Width(fs, 1) == 8;
    assert Width(fs, 2) == 10 && Width(fs, 3) == 11;
  }

  /** A reader of the system header finds under place k the id of that stream and the bound of its buffer. */
  lemma SystemListsStreams(h: seq<bv8>, info: seq<StreamInfo>, audio: nat, video: nat, k: nat)
    requires |info| == STREAMS && audio <= 8 && video <= 8 && Spelled(h, SysFields(info, audio, video))
    requires k < audio + video
    ensures 15 + 3 * k <= |h|
    ensures ByteAt(h, 12 + 3 * k) == Listed(info, audio, video, k).streamId % 256
    ensures ValueOf(BitsFrom(h, 106 + 24 * k, 1)) == 0 && ValueOf(BitsFrom(h, 107 + 24 * k, 13)) == 512
  {
    hide SysEntry, Width, SysStreams, SysStart, ValueOf, BitsFrom, Pow2, Spelled;
    var a, b, c := SysStart(audio + video), SysStreams(info, AUDIO_START, audio), SysStreams(info, VIDEO_START, video);
    var s, w, i := Listed(info, audio, video, k), 96 + 24 * k, 0;
    SysStartWidths(audio + video);
    SysStartLength(audio + video);
    SysStreamsWidth(info, AUDIO_START, audio);
    WidthJoin(a, b, |b|);
    if k < audio {
      SysListed(info, AUDIO_START, audio, k);
      SysEntryBehind(a, b, 4 * k, s, 24 * k);
      i := |a| + 4 * k;
      SysEntryBefore(a + b, c, i, s, w);
    } else {
      SysListed(info, VIDEO_START, video, k - audio);
      SysEntryBehind(a + b, c, 4 * (k - audio), s, 24 * (k - audio));
      i := |a + b| + 4 * (k - audio);
    }
    SysEntryReads(h, a + b + c, i, s, w);
  }

  lemma SysStartLength(n: nat)
    ensures |SysStart(n)| == 14
  {
  }

  lemma SysEntryReads(h: seq<bv8>, fs: seq<Field>, i: nat, s: StreamInfo, w: nat)
    requires Spelled(h, fs) && SysEntry(fs, i, s, w)
    ensures w + 24 <= 8 * |h| && ValueOf(BitsFrom(h, w, 8)) == s.streamId % 256
    ensures ValueOf(BitsFrom(h, w + 10, 1)) == 0 && ValueOf(BitsFrom(h, w + 11, 13)) == 512
  {
    hide FieldAt, Width, ValueOf, BitsFrom, Pow2, Spelled;
    FieldReads(h, fs, i, Field(8, s.streamId), w);
    FieldReads(h, fs, i + 2, Field(1, 0), w + 10);
    FieldReads(h, fs, i + 3, Field(13, 512), w + 11);
    ByteValue();
    Pow2Of13();
  }

  lemma Pow2Of13()
    ensures Pow2(13) == 8192 && Pow2(1) == 2
  {
    assert Pow2(4) == 16;
    assert Pow2(8) == 256;
    assert Pow2(12) == 4096;
  }
}
