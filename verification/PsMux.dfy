/** psmux.c: frames split into packets and put behind headers, and what a demultiplexer finds. */
module PsMux {
  import opened PsBits
  import opened PsHeaders

  // ---------- splitting a frame ----------

  function ChunkSize(n: nat): (k: nat)
    ensures k <= n && k <= PAYLOAD && (n > 0 ==> k > 0)
  {
    if n > PAYLOAD then PAYLOAD else n
  }

  /** The bytes are PES packets of one stream that carry the frame. */
  ghost predicate Carries(out: seq<bv8>, frame: seq<bv8>, id: nat, t: nat)
    decreases |frame|
  {
    if frame == [] then out == []
    else
      var k := ChunkSize(|frame|);
      && PES_HDR_LEN + k <= |out|
      && Spelled(out[..PES_HDR_LEN], PesFields(id, k, t, t))
      && out[PES_HDR_LEN..PES_HDR_LEN + k] == frame[..k]
      && Carries(out[PES_HDR_LEN + k..], frame[k..], id, t)
  }
  // ---------- what a demultiplexer finds ----------

  /** Stream ids that are not start codes of headers. */
  predicate PacketId(id: nat) { id < 0x100 && id != 0xBA && id != 0xBB && id != 0xBC }

  /** The end of the box of bytes at the start, by the rule for its start code; -1 if it is cut off. */
  function UnitEnd(out: seq<bv8>): (end: int)
    requires |out| >= 6
    ensures end == -1 || 6 <= end <= |out|
  {
    if CodeOf(out[..6]) == 0x1BA then
      if |out| < PS_HDR_LEN then -1
      else
        var end := PS_HDR_LEN + ValueOf(BitsFrom(out[..PS_HDR_LEN], 109, 3));
        if end <= |out| then end else -1
    else
      var end := 6 + Word16(out[..6], 32);
      if end <= |out| then end else -1
  }

  /** The payload of the packet in these bytes: it trusts the start code and the header length only. */
  function PayloadOf(unit: seq<bv8>, id: nat): seq<bv8>
  {
    if |unit| < 9 || CodeOf(unit[..6]) != 0x100 + id then []
    else
      var start := 9 + ValueOf(BitsFrom(unit[..9], 64, 8));
      if start <= |unit| then unit[start..] else []
  }

  /** What a demultiplexer delivers of one stream: header or packet after header or packet. */
  function Demux(out: seq<bv8>, id: nat): seq<bv8>
    decreases |out|
  {
    if |out| < 6 || UnitEnd(out) == -1 then []
    else PayloadOf(out[..UnitEnd(out)], id) + Demux(out[UnitEnd(out)..], id)
  }

  /** In front of any other bytes, these deliver `bytes` and nothing else. */
  ghost predicate Delivers(out: seq<bv8>, id: nat, bytes: seq<bv8>)
  {
    forall rest :: Demux(out + rest, id) == bytes + Demux(rest, id)
  }

  lemma DeliversNothing(id: nat)
    ensures Delivers([], id, [])
  {
    hide Demux;
    forall rest
      ensures Demux([] + rest, id) == [] + Demux(rest, id)
    {
      assert [] + rest == rest && [] + Demux(rest, id) == Demux(rest, id);
    }
  }

  lemma DeliversBoth(a: seq<bv8>, b: seq<bv8>, id: nat, x: seq<bv8>, y: seq<bv8>)
    requires Delivers(a, id, x) && Delivers(b, id, y)
    ensures Delivers(a + b, id, x + y)
  {
    hide Demux;
    forall rest
      ensures Demux(a + b + rest, id) == x + y + Demux(rest, id)
    {
      assert a + b + rest == a + (b + rest);
      assert Demux(b + rest, id) == y + Demux(rest, id);
      assert x + (y + Demux(rest, id)) == x + y + Demux(rest, id);
    }
  }

  lemma SameBits(h: seq<bv8>, n: nat, p: nat, count: nat)
    requires n <= |h| && p + count <= 8 * n
    ensures BitsFrom(h[..n], p, count) == BitsFrom(h, p, count)
  {
    hide Bit;
    var a, b := BitsFrom(h[..n], p, count), BitsFrom(h, p, count);
    forall j | 0 <= j < count
      ensures a[j] == b[j]
    {
      assert BitAt(h[..n], p + j) == BitAt(h, p + j);
    }
  }

  /** A unit that says where it ends delivers its payload. */
  lemma UnitDelivers(u: seq<bv8>, id: nat)
    requires |u| >= 6
    requires if CodeOf(u) == 0x1BA then |u| == PS_HDR_LEN && ValueOf(BitsFrom(u, 109, 3)) == 0 else Word16(u, 32) == |u| - 6
    ensures Delivers(u, id, PayloadOf(u, id))
  {
    hide Demux, BitsFrom, ValueOf;
    forall rest
      ensures Demux(u + rest, id) == PayloadOf(u, id) + Demux(rest, id)
    {
      var out := u + rest;
      assert out[..6] == u[..6];
      SameBits(u, 6, 0, 32);
      SameBits(u, 6, 32, 16);
      if CodeOf(u) == 0x1BA {
        assert out[..PS_HDR_LEN] == u;
      }
      assert UnitEnd(out) == |u|;
      assert out[..|u|] == u && out[|u|..] == rest;
      OneUnit(out, id);
    }
  }

  lemma OneUnit(out: seq<bv8>, id: nat)
    requires |out| >= 6 && UnitEnd(out) != -1
    ensures Demux(out, id) == PayloadOf(out[..UnitEnd(out)], id) + Demux(out[UnitEnd(out)..], id)
  {
    hide UnitEnd, PayloadOf;
  }

  /** Headers deliver nothing to any stream. */
  lemma HeaderDelivers(h: seq<bv8>, code: nat, id: nat)
    requires |h| >= 6 && CodeOf(h) == code && (code == 0x1BA || code == 0x1BB || code == 0x1BC) && PacketId(id)
    requires if code == 0x1BA then |h| == PS_HDR_LEN && ValueOf(BitsFrom(h, 109, 3)) == 0 else Word16(h, 32) == |h| - 6
    ensures Delivers(h, id, [])
  {
    hide Demux, BitsFrom, ValueOf, Delivers;
    UnitDelivers(h, id);
    SameBits(h, 6, 0, 32);
  }

  /** A packet delivers its payload to its own stream only. */
  lemma PacketDelivers(h: seq<bv8>, payload: seq<bv8>, own: nat, t: nat, id: nat)
    requires Spelled(h, PesFields(own, |payload|, t, t)) && |payload| <= PAYLOAD && PacketId(own) && PacketId(id)
    ensures Delivers(h + payload, id, if id == own then payload else [])
  {
    hide Demux, BitsFrom, ValueOf, Delivers, Spelled, PesFields, CodeOf, TimeAt;
    PesHeaderReads(h, own, |payload|, t, t);
    PacketUnit(h, payload, own, id);
    UnitDelivers(h + payload, id);
  }

  lemma PacketUnit(h: seq<bv8>, payload: seq<bv8>, own: nat, id: nat)
    requires |h| == PES_HDR_LEN && CodeOf(h) == 0x100 + own && Word16(h, 32) == |h| - 6 + |payload|
    requires ValueOf(BitsFrom(h, 64, 8)) == |h| - 9
    ensures var u := h + payload;
            && CodeOf(u) == 0x100 + own && Word16(u, 32) == |u| - 6
            && PayloadOf(u, id) == if id == own then payload else []
  {
    hide BitsFrom, ValueOf;
    var u := h + payload;
    assert u[..PES_HDR_LEN] == h && u[PES_HDR_LEN..] == payload;
    SameBits(u, PES_HDR_LEN, 0, 32);
    SameBits(u, PES_HDR_LEN, 32, 16);
    SameBits(u, PES_HDR_LEN, 64, 8);
    SameBits(u, 6, 0, 32);
    SameBits(u, 9, 64, 8);
  }

  /** The payloads of the packets, one behind the other, are the frame; no other stream gets anything. */
  lemma {:induction false} PayloadsAreTheFrame(out: seq<bv8>, frame: seq<bv8>, own: nat, t: nat, id: nat)
    requires Carries(out, frame, own, t) && PacketId(own) && PacketId(id)
    ensures Delivers(out, id, if id == own then frame else [])
    decreases |frame|
  {
    hide Spelled, PesFields, Delivers, Demux;
    if frame == [] {
      DeliversNothing(id);
    } else {
      var k := ChunkSize(|frame|);
      var h, rest := out[..PES_HDR_LEN], out[PES_HDR_LEN + k..];
      PacketDelivers(h, frame[..k], own, t, id);
      PayloadsAreTheFrame(rest, frame[k..], own, t, id);
      var x, y := if id == own then frame[..k] else [], if id == own then frame[k..] else [];
      DeliversBoth(h + frame[..k], rest, id, x, y);
      assert x + y == if id == own then frame else [];
      assert h + frame[..k] + rest == out;
    }
  }

  // ---------- what the packets say ----------

  /** Packet i: a header with the id, the length and both times, and up to 65485 bytes of the frame from their place on. */
  ghost predicate PacketAt(out: seq<bv8>, frame: seq<bv8>, id: nat, t: nat, i: nat)
  {
    var from, p := i * 65485, i * 65504;
    var k := if |frame| - from > 65485 then 65485 else |frame| - from;
    && from < |frame| && p + 19 + k <= |out| && out[p + 19..p + 19 + k] == frame[from..from + k]
    && PacketSays(out[p..p + 19], id, t, k)
  }

  ghost predicate PacketSays(h: seq<bv8>, id: nat, t: nat, k: nat)
  {
    && |h| == 19 && CodeOf(h) == 0x100 + id && Word16(h, 32) == 13 + k
    && TimeAt(h, 72) == t % 0x2_0000_0000 && TimeAt(h, 112) == t % 0x2_0000_0000
  }

  lemma PacketShift(out: seq<bv8>, frame: seq<bv8>, id: nat, t: nat, i: nat)
    requires |out| >= 65504 && |frame| >= 65485 && PacketAt(out[65504..], frame[65485..], id, t, i)
    ensures PacketAt(out, frame, id, t, i + 1)
  {
    hide PacketSays;
    var a, b, p, from := out[65504..], frame[65485..], i * 65504, i * 65485;
    var k := if |b| - from > 65485 then 65485 else |b| - from;
    assert a[p..p + 19] == out[p + 65504..p + 65504 + 19];
    assert a[p + 19..p + 19 + k] == out[p + 65504 + 19..p + 65504 + 19 + k];
    assert b[from..from + k] == frame[from + 65485..from + 65485 + k];
  }

  /** The packets are as long as they may be, and stand back to back. */
  lemma {:induction false} PacketsAre(out: seq<bv8>, frame: seq<bv8>, id: nat, t: nat, i: nat)
    requires Carries(out, frame, id, t) && id < 0x100 && i * 65485 < |frame|
    ensures PacketAt(out, frame, id, t, i)
    decreases i
  {
    hide Spelled, PesFields, CodeOf, TimeAt, Word16;
    var k := ChunkSize(|frame|);
    PesHeaderReads(out[..PES_HDR_LEN], id, k, t, t);
    if i > 0 {
      PacketsAre(out[PES_HDR_LEN + k..], frame[k..], id, t, i - 1);
      PacketShift(out, frame, id, t, i - 1);
    }
  }

  /** A frame takes 19 bytes more for each 65485 bytes begun. */
  lemma {:induction false} PacketsCount(out: seq<bv8>, frame: seq<bv8>, id: nat, t: nat) returns (n: nat)
    requires Carries(out, frame, id, t)
    ensures |out| == |frame| + 19 * n && |frame| <= 65485 * n < |frame| + 65485
    decreases |frame|
  {
    hide Spelled, PesFields;
    if frame == [] {
      n := 0;
    } else {
      var k := ChunkSize(|frame|);
      n := PacketsCount(out[PES_HDR_LEN + k..], frame[k..], id, t);
      n := n + 1;
    }
  }

  /**
   * A frame starts with a pack header that carries its time; behind it an I frame repeats the system header and
   * the stream map, and the packets come last.
   */
  lemma FrameLayout(out: seq<bv8>, info: seq<StreamInfo>, audio: nat, video: nat, f: Frame, pack: seq<bv8>,
                    sys: seq<bv8>, psm: seq<bv8>, packets: seq<bv8>)
    requires |info| == STREAMS && audio <= 8 && video <= 8
    requires IsFrame(out, info, audio, video, f, pack, sys, psm, packets)
    ensures var n := audio + video;
            var a, b := if f.iframe then 26 + 3 * n else 14, if f.iframe then 42 + 7 * n else 14;
            && 14 <= a <= b <= |out| && out[..14] == pack && out[14..a] == sys && out[a..b] == psm && out[b..] == packets
            && CodeOf(pack) == 0x1BA && TimeAt(pack, 30) == f.time % 0x2_0000_0000
            && (f.iframe ==> CodeOf(sys) == 0x1BB && CodeOf(psm) == 0x1BC)
            && Carries(out[b..], f.bytes, f.id, f.time)
  {
    hide Spelled, PackFields, SysFields, PsmFields, Carries, BitsFrom, ValueOf, Crc, CodeOf, TimeAt;
    PackHeaderReads(pack, f.time);
    if f.iframe {
      SysHeaderReads(sys, info, audio, video);
      PsmHeaderReads(psm, info, audio, video);
    }
    FourParts(pack, sys, psm, packets);
  }

  lemma FourParts(a: seq<bv8>, b: seq<bv8>, c: seq<bv8>, d: seq<bv8>)
    ensures var out, i, j := a + b + c + d, |a| + |b|, |a| + |b| + |c|;
            out[..|a|] == a && out[|a|..i] == b && out[i..j] == c && out[j..] == d
  {
  }

  /** A pack header, the two headers of an I frame, and the packets of a frame. */
  ghost predicate IsFrame(out: seq<bv8>, info: seq<StreamInfo>, audio: nat, video: nat, f: Frame, pack: seq<bv8>,
                          sys: seq<bv8>, psm: seq<bv8>, packets: seq<bv8>)
    requires |info| == STREAMS && audio <= 8 && video <= 8
  {
    && out == pack + sys + psm + packets
    && Spelled(pack, PackFields(f.time)) && Carries(packets, f.bytes, f.id, f.time)
    && if f.iframe then Spelled(sys, SysFields(info, audio, video)) && Spelled(psm, PsmFields(info, audio, video))
       else sys == [] == psm
  }

  /** What psmux_writeframe is given. */
  datatype Frame = Frame(id: nat, bytes: seq<bv8>, time: nat, iframe: bool)

  /** A whole frame, headers and packets, delivers its bytes to its own stream and nothing to the others. */
  lemma FrameDelivers(out: seq<bv8>, info: seq<StreamInfo>, audio: nat, video: nat, f: Frame, pack: seq<bv8>,
                      sys: seq<bv8>, psm: seq<bv8>, packets: seq<bv8>, id: nat)
    requires |info| == STREAMS && audio <= 8 && video <= 8 && PacketId(f.id) && PacketId(id)
    requires IsFrame(out, info, audio, video, f, pack, sys, psm, packets)
    ensures Delivers(out, id, if id == f.id then f.bytes else [])
  {
    hide Spelled, PackFields, SysFields, PsmFields, Delivers, Demux, Carries, BitsFrom, ValueOf, Crc, CodeOf, TimeAt;
    PackHeaderReads(pack, f.time);
    HeaderDelivers(pack, 0x1BA, id);
    if f.iframe {
      SysHeaderReads(sys, info, audio, video);
      HeaderDelivers(sys, 0x1BB, id);
      PsmHeaderReads(psm, info, audio, video);
      HeaderDelivers(psm, 0x1BC, id);
    } else {
      DeliversNothing(id);
    }
    var bytes: seq<bv8> := if id == f.id then f.bytes else [];
    PayloadsAreTheFrame(packets, f.bytes, f.id, f.time, id);
    var none: seq<bv8> := [];
    assert none + none == none && none + bytes == bytes;
    DeliversBoth(pack, sys, id, none, none);
    DeliversBoth(pack + sys, psm, id, none, none);
    DeliversBoth(pack + sys + psm, packets, id, none, bytes);
  }

  /** The bytes of all frames of one stream, in order. */
  function Sent(fs: seq<Frame>, id: nat): seq<bv8>
  {
    if fs == [] then []
    else
      var f := fs[|fs| - 1];
      Sent(fs[..|fs| - 1], id) + if f.id == id then f.bytes else []
  }

  lemma CarriesMore(x: seq<bv8>, h: seq<bv8>, rest: seq<bv8>, k: nat, id: nat, t: nat)
    requires |h| == PES_HDR_LEN && k == ChunkSize(|rest|) && rest != [] && Spelled(h, PesFields(id, k, t, t))
    requires Carries(x, rest[k..], id, t)
    ensures Carries(h + rest[..k] + x, rest, id, t)
  {
    hide Spelled, PesFields;
    var out := h + rest[..k] + x;
    assert out[..PES_HDR_LEN] == h && out[PES_HDR_LEN..PES_HDR_LEN + k] == rest[..k] && out[PES_HDR_LEN + k..] == x;
  }

  // ---------- the muxer ----------

  class Mux {
    var out: seq<bv8>         // the file
    var info: seq<StreamInfo>
    var audio: nat
    var video: nat

    ghost var frames: seq<Frame>

    /** As long as no frame is given the id of a header, a demultiplexer gets every stream back. */
    ghost predicate Valid()
      reads this
    {
      && |info| == STREAMS && audio <= 8 && video <= 8
      && ((forall f :: f in frames ==> PacketId(f.id)) ==> forall id :: PacketId(id) ==> Delivers(out, id, Sent(frames, id)))
    }

    /** psmux_alloc */
    constructor ()
      ensures Valid() && out == [] && audio == 0 && video == 0 && frames == []
    {
      hide Delivers;
      out, info, audio, video, frames := [], seq(STREAMS, _ => StreamInfo(0, 0)), 0, 0, [];
      new;
      forall id | PacketId(id)
        ensures Delivers(out, id, Sent(frames, id))
      {
        DeliversNothing(id);
      }
    }

    /** psmux_addvideostream; there is room for eight streams of each kind. */
    method AddVideoStream(payload: nat) returns (id: nat)
      requires Valid() && video < 8
      modifies this
      ensures Valid() && id == 0xe0 + old(video) && video == old(video) + 1 && audio == old(audio) && out == old(out)
      ensures info == old(info)[VIDEO_START + old(video) := StreamInfo(payload, id)]
    {
      id := 0xe0 + video;
      info := info[VIDEO_START + video := StreamInfo(payload, id)];
      video := video + 1;
    }

    /** psmux_addaudiostream */
    method AddAudioStream(payload: nat) returns (id: nat)
      requires Valid() && audio < 8
      modifies this
      ensures Valid() && id == 0xc0 + old(audio) && audio == old(audio) + 1 && video == old(video) && out == old(out)
      ensures info == old(info)[AUDIO_START + old(audio) := StreamInfo(payload, id)]
    {
      id := 0xc0 + audio;
      info := info[AUDIO_START + audio := StreamInfo(payload, id)];
      audio := audio + 1;
    }

    /** gb28181_make_psheader: a pack header, and for an I frame also the system header and the map. */
    method WriteHeaders(t: nat, iframe: bool) returns (ghost pack: seq<bv8>, ghost sys: seq<bv8>, ghost psm: seq<bv8>)
      requires |info| == STREAMS && audio <= 8 && video <= 8
      modifies `out
      ensures out == old(out) + pack + sys + psm
      ensures Spelled(pack, PackFields(t))
      ensures if iframe then Spelled(sys, SysFields(info, audio, video)) && Spelled(psm, PsmFields(info, audio, video)) else sys == [] == psm
    {
      hide Spelled, PackFields, SysFields, PsmFields;
      var head := MakePackHeader(t);
      pack, sys, psm := head, [], [];
      if iframe {
        var s := MakeSysHeader(info, audio, video);
        var m := MakePsmHeader(info, audio, video);
        sys, psm := s, m;
        head := head + s + m;
      }
      out := out + head;
      assert old(out) + (pack + sys + psm) == old(out) + pack + sys + psm;
    }

    /** The loop of psmux_writeframe. */
    method WritePackets(id: nat, frame: seq<bv8>, t: nat) returns (ghost packets: seq<bv8>)
      modifies `out
      ensures out == old(out) + packets && Carries(packets, frame, id, t)
    {
      hide Spelled, PesFields, Carries;
      packets := [];
      var left := frame;
      CarriesStart(frame, id, t);
      while |left| > 0
        invariant out == old(out) + packets && Extends(packets, left, frame, id, t)
        decreases |left|
      {
        var size := if |left| > PAYLOAD then PAYLOAD else |left|;
        var h := MakePesHeader(id, size, t, t);
        CarriesStep(packets, left, frame, h, size, id, t);
        out := out + h;
        out := out + left[..size];
        packets := packets + (h + left[..size]);
        left := left[size..];
      }
      CarriesEnd(packets, left, frame, id, t);
    }

    /** psmux_writeframe */
    method WriteFrame(id: nat, frame: seq<bv8>, t: nat, iframe: bool)
      returns (ghost pack: seq<bv8>, ghost sys: seq<bv8>, ghost psm: seq<bv8>, ghost packets: seq<bv8>)
      requires Valid()
      modifies `out, `frames
      ensures Valid() && frames == old(frames) + [Frame(id, frame, t, iframe)]
      ensures out == old(out) + (pack + sys + psm + packets)
      ensures IsFrame(pack + sys + psm + packets, info, audio, video, Frame(id, frame, t, iframe), pack, sys, psm, packets)
    {
      hide Spelled, PackFields, SysFields, PsmFields, Carries, Delivers;
      ghost var was, fs, f := out, frames, Frame(id, frame, t, iframe);
      pack, sys, psm := WriteHeaders(t, iframe);
      packets := WritePackets(id, frame, t);
      ghost var new' := pack + sys + psm + packets;
      assert was + pack + sys + psm + packets == was + new';
      frames := fs + [f];
      if forall g :: g in frames ==> PacketId(g.id) {
        assert forall g :: g in fs ==> g in frames;
        assert f in frames;
        forall x | PacketId(x)
          ensures Delivers(out, x, Sent(frames, x))
        {
          FrameDelivers(new', info, audio, video, f, pack, sys, psm, packets, x);
          DeliversBoth(was, new', x, Sent(fs, x), if x == id then frame else []);
          SentOneMore(fs, f, x);
        }
      }
    }
  }

  lemma SentOneMore(fs: seq<Frame>, f: Frame, id: nat)
    ensures Sent(fs + [f], id) == Sent(fs, id) + if f.id == id then f.bytes else []
  {
    assert (fs + [f])[..|fs + [f]| - 1] == fs;
  }

  /** Whatever was muxed, a demultiplexer gets the bytes of each stream back, in order. */
  lemma StreamsComeBack(m: Mux, id: nat)
    requires m.Valid() && PacketId(id) && forall f :: f in m.frames ==> PacketId(f.id)
    ensures Demux(m.out, id) == Sent(m.frames, id)
  {
    hide Demux;
    assert Delivers(m.out, id, Sent(m.frames, id));
    assert Demux(m.out + [], id) == Sent(m.frames, id) + Demux([], id);
    assert m.out + [] == m.out;
    assert Demux([], id) == [] by { NoneLeft(id); }
    assert Sent(m.frames, id) + [] == Sent(m.frames, id);
  }

  lemma NoneLeft(id: nat)
    ensures Demux([], id) == []
  {
  }

  /** Packets for the rest of the frame, put behind these, make packets for the whole frame. */
  ghost predicate Extends(done: seq<bv8>, rest: seq<bv8>, frame: seq<bv8>, id: nat, t: nat)
  {
    forall x :: Carries(x, rest, id, t) ==> Carries(done + x, frame, id, t)
  }

  lemma CarriesStart(frame: seq<bv8>, id: nat, t: nat)
    ensures Extends([], frame, frame, id, t)
  {
    hide Carries;
    forall x | Carries(x, frame, id, t)
      ensures Carries([] + x, frame, id, t)
    {
      assert [] + x == x;
    }
  }

  lemma CarriesStep(done: seq<bv8>, rest: seq<bv8>, frame: seq<bv8>, h: seq<bv8>, k: nat, id: nat, t: nat)
    requires Extends(done, rest, frame, id, t) && rest != [] && k == ChunkSize(|rest|)
    requires |h| == PES_HDR_LEN && Spelled(h, PesFields(id, k, t, t))
    ensures Extends(done + (h + rest[..k]), rest[k..], frame, id, t)
  {
    hide Carries, Spelled, PesFields;
    forall x | Carries(x, rest[k..], id, t)
      ensures Carries(done + (h + rest[..k]) + x, frame, id, t)
    {
      CarriesMore(x, h, rest, k, id, t);
      assert done + (h + rest[..k]) + x == done + (h + rest[..k] + x);
    }
  }

  lemma CarriesEnd(done: seq<bv8>, rest: seq<bv8>, frame: seq<bv8>, id: nat, t: nat)
    requires Extends(done, rest, frame, id, t) && rest == []
    ensures Carries(done, frame, id, t)
  {
    assert Carries([], rest, id, t);
    assert done + [] == done;
  }
}
