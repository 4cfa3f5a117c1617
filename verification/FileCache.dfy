/** mp4-io.c: the buffered file behind the movie writer, against the plain file it speeds up. */
module FileCache {
  import opened Bytes

  // ---------- a plain file ----------

  /** What a file operation does to the bytes and the position. */
  datatype Image = Image(data: seq<byte>, pos: nat)

  /** Writing behind the end leaves a hole of zero bytes. */
  function Padded(d: seq<byte>, n: nat): (r: seq<byte>)
    ensures |r| == if |d| >= n then |d| else n
    ensures d <= r
  {
    if |d| >= n then d else d + seq(n - |d|, _ => 0)
  }

  function Overlaid(d: seq<byte>, p: nat, bs: seq<byte>): (r: seq<byte>)
    ensures bs == [] ==> r == d
  {
    if bs == [] then d
    else
      var e := Padded(d, p);
      e[..p] + bs + if p + |bs| <= |e| then e[p + |bs|..] else []
  }

  function Write(f: Image, bs: seq<byte>): Image { Image(Overlaid(f.data, f.pos, bs), f.pos + |bs|) }

  /** The target of a seek: from the start, or from the end for a negative offset. */
  function Target(d: seq<byte>, offset: int): int { if offset >= 0 then offset else |d| + offset }

  function Seek(f: Image, offset: int): Image
  {
    if Target(f.data, offset) >= 0 then f.(pos := Target(f.data, offset)) else f
  }

  predicate Satisfiable(f: Image, n: nat) { f.pos + n <= |f.data| }

  function Read(f: Image, n: nat): Image { f.(pos := f.pos + n) }

  /** What was written is read back from its place, every other byte of the file stays, and a hole is zero. */
  lemma WriteReads(f: Image, bs: seq<byte>, i: nat)
    requires bs != [] && i < |Write(f, bs).data|
    ensures var d := Write(f, bs).data;
            && |d| == (if f.pos + |bs| > |f.data| then f.pos + |bs| else |f.data|)
            && Available(d, f.pos, |bs|) == bs && Write(f, bs).pos == f.pos + |bs|
            && d[i] == if f.pos <= i < f.pos + |bs| then bs[i - f.pos] else if i < |f.data| then f.data[i] else 0
  {
    var e := Padded(f.data, f.pos);
    var rest := if f.pos + |bs| <= |e| then e[f.pos + |bs|..] else [];
    var d := Write(f, bs).data;
    hide Padded, Overlaid, Available;
    assert d == e[..f.pos] + bs + rest by {
      OverlaidIs(f.data, f.pos, bs);
    }
    assert d[f.pos..f.pos + |bs|] == bs;
    PaddedAt(f.data, f.pos);
  }

  lemma OverlaidIs(d: seq<byte>, p: nat, bs: seq<byte>)
    requires bs != []
    ensures var e := Padded(d, p); Overlaid(d, p, bs) == e[..p] + bs + if p + |bs| <= |e| then e[p + |bs|..] else []
  {
  }

  lemma PaddedAt(d: seq<byte>, n: nat)
    ensures var e := Padded(d, n); forall i :: 0 <= i < |e| ==> e[i] == if i < |d| then d[i] else 0
  {
  }

  lemma OverlaidTwice(d: seq<byte>, p: nat, a: seq<byte>, b: seq<byte>)
    ensures Overlaid(Overlaid(d, p, a), p + |a|, b) == Overlaid(d, p, a + b)
  {
    if a == [] {
      assert a + b == b;
    } else if b == [] {
      assert a + b == a;
    } else {
      var e := Padded(d, p);
      var x := Overlaid(d, p, a);
      assert |x| >= p + |a| && x[..p + |a|] == e[..p] + a;
    }
  }

  /** As many of n bytes from position p on as there are. */
  function Available(d: seq<byte>, p: nat, n: nat): (bs: seq<byte>)
    ensures |bs| <= n && (|bs| < n ==> |d| <= p + |bs|) && (p + n <= |d| ==> bs == d[p..p + n])
    ensures bs != [] ==> p + |bs| <= |d| && bs == d[p..p + |bs|]
  {
    if p >= |d| then [] else if p + n <= |d| then d[p..p + n] else d[p..]
  }

  /** A stdio stream without its own buffer. */
  class File {
    var data: seq<byte>
    var pos: nat

    ghost function Now(): Image
      reads this
    {
      Image(data, pos)
    }

    constructor (d: seq<byte>)
      ensures data == d && pos == 0
    {
      data, pos := d, 0;
    }

    /** fread */
    method FRead(n: nat) returns (bs: seq<byte>)
      modifies `pos
      ensures bs == Available(data, old(pos), n) && pos == old(pos) + |bs|
    {
      bs := if pos >= |data| then [] else if pos + n <= |data| then data[pos..pos + n] else data[pos..];
      pos := pos + |bs|;
    }

    /** mov_file_write */
    method FWrite(bs: seq<byte>) returns (r: int)
      modifies this
      ensures r == 0 && Now() == Write(old(Now()), bs)
    {
      r := 0;
      if |bs| > 0 {
        var e := if |data| >= pos then data else data + seq(pos - |data|, _ => 0);
        data := e[..pos] + bs + if pos + |bs| <= |e| then e[pos + |bs|..] else [];
        pos := pos + |bs|;
      }
    }

    /** mov_file_seek */
    method FSeek(offset: int) returns (r: int)
      modifies `pos
      ensures Now() == Seek(old(Now()), offset)
      ensures r == 0 <==> Target(data, offset) >= 0
    {
      var target := if offset >= 0 then offset else |data| + offset;
      if target < 0 {
        return -1;
      }
      pos := target;
      r := 0;
    }

    /** mov_file_read: 0 exactly when every byte was there. */
    method ReadAll(n: nat) returns (r: int, bs: seq<byte>)
      modifies `pos
      ensures r == 0 <==> n == 0 || Satisfiable(old(Now()), n)
      ensures r == 0 ==> Now() == Read(old(Now()), n) && bs == Available(data, old(pos), n)
    {
      bs := FRead(n);
      r := if |bs| == n then 0 else -1;
    }
  }

  // ---------- the cache as a value ----------

  /** The disk below, the whole buffer, and the three counters of mov_file_cache_t. */
  datatype Held = Held(disk: Image, buffer: seq<byte>, off: nat, len: nat, tell: nat)

  /** What cached reads and writes leave: bytes that wait to be written, or bytes that were read ahead. */
  predicate Sound(h: Held)
  {
    && h.buffer != []
    && (if h.len == 0 then h.off < |h.buffer| else h.off <= h.len <= |h.buffer|)
    && h.tell + h.len == h.disk.pos + h.off
    && (h.off < h.len ==>
          && h.disk.pos <= |h.disk.data| && h.len - h.off <= h.disk.pos
          && h.buffer[h.off..h.len] == h.disk.data[h.tell..h.disk.pos])
  }

  /** The file as a user of the cache means it. */
  function Meant(h: Held): Image
    requires Sound(h)
  {
    Image(Overlaid(h.disk.data, h.disk.pos, if h.len == 0 then h.buffer[..h.off] else []), h.tell)
  }

  /** mov_file_cache_write */
  function HeldWrite(h: Held, bs: seq<byte>): Held
    requires h.off <= |h.buffer|
  {
    if h.off + |bs| < |h.buffer| then
      Held(h.disk, h.buffer[..h.off] + bs + h.buffer[h.off + |bs|..], h.off + |bs|, h.len, h.tell + |bs|)
    else
      var d := Write(h.disk, h.buffer[..h.off]);
      if |bs| < |h.buffer| then Held(d, bs + h.buffer[|bs|..], |bs|, h.len, h.tell + |bs|)
      else Held(Write(d, bs), h.buffer, 0, h.len, h.tell + |bs|)
  }

  /** The disk after a seek that moves: the buffer is written out if it looks written. */
  function Flushed(h: Held): seq<byte>
    requires h.off <= |h.buffer|
  {
    if h.off > h.len then Write(h.disk, h.buffer[..h.off]).data else h.disk.data
  }

  /** The bytes reach the disk where the user meant them to. */
  predicate Survives(h: Held, bs: seq<byte>)
    requires Sound(h)
  {
    Flushed(HeldWrite(h, bs)) == Write(Meant(h), bs).data
  }

  lemma OverlaidAt(d: seq<byte>, p: nat, bs: seq<byte>, i: nat)
    ensures p <= i < p + |bs| ==> i < |Overlaid(d, p, bs)| && Overlaid(d, p, bs)[i] == bs[i - p]
    ensures i < p && i < |d| ==> i < |Overlaid(d, p, bs)| && Overlaid(d, p, bs)[i] == d[i]
  {
  }

  /** With nothing read ahead, every write survives. */
  lemma WaitingSurvives(h: Held, bs: seq<byte>)
    requires Sound(h) && h.len == 0
    ensures Survives(h, bs)
  {
    hide Overlaid;
    OverlaidTwice(h.disk.data, h.disk.pos, h.buffer[..h.off], bs);
    var d := Write(h.disk, h.buffer[..h.off]);
    if h.off + |bs| < |h.buffer| {
      assert (h.buffer[..h.off] + bs + h.buffer[h.off + |bs|..])[..h.off + |bs|] == h.buffer[..h.off] + bs;
      NothingWritten(h.disk.data, h.disk.pos, h.buffer[..0]);
    } else if |bs| < |h.buffer| {
      assert (bs + h.buffer[|bs|..])[..|bs|] == bs;
      NothingWritten(d.data, d.pos, bs[..0]);
    }
  }

  /** It leaves what the user means, and nothing read ahead. */
  lemma WaitingKeeps(h: Held, bs: seq<byte>)
    requires Sound(h) && h.len == 0
    ensures var t := HeldWrite(h, bs); Sound(t) && t.len == 0 && Meant(t) == Write(Meant(h), bs)
  {
    hide Overlaid;
    OverlaidTwice(h.disk.data, h.disk.pos, h.buffer[..h.off], bs);
    var d := Write(h.disk, h.buffer[..h.off]);
    if h.off + |bs| < |h.buffer| {
      assert (h.buffer[..h.off] + bs + h.buffer[h.off + |bs|..])[..h.off + |bs|] == h.buffer[..h.off] + bs;
    } else if |bs| < |h.buffer| {
      assert (bs + h.buffer[|bs|..])[..|bs|] == bs;
    } else {
      NothingWritten(Write(d, bs).data, Write(d, bs).pos, h.buffer[..0]);
    }
  }

  /** What was on the disk, or in the buffer, where the next byte should go. */
  function StaleByte(h: Held): byte
    requires Sound(h) && h.len > 0
  {
    if h.off < h.len then h.disk.data[h.tell] else h.buffer[0]
  }

  /** With bytes read ahead, a single byte does not reach its place, except if it changes nothing there. */
  lemma ReadAheadLoses(h: Held, b: byte)
    requires Sound(h) && h.len > 0 && b != StaleByte(h)
    ensures !Survives(h, [b])
  {
    hide Overlaid;
    var t := HeldWrite(h, [b]);
    OverlaidAt(h.disk.data, h.tell, [b], h.tell);
    NothingWritten(h.disk.data, h.disk.pos, []);
    if h.off + 1 < |h.buffer| {
      var out := t.buffer[..t.off];
      assert h.off > 0 ==> out[0] == h.buffer[0];
      OverlaidAt(h.disk.data, h.disk.pos, out, h.tell);
    } else {
      var first := h.buffer[..h.off];
      assert h.off > 0 ==> first[0] == h.buffer[0];
      var d := Write(h.disk, first);
      OverlaidAt(h.disk.data, h.disk.pos, first, h.tell);
      OverlaidAt(d.data, d.pos, [b], h.tell);
    }
  }

  /** Every write survives if and only if nothing is read ahead. */
  lemma WritesSurviveIff(h: Held)
    requires Sound(h)
    ensures (forall bs :: Survives(h, bs)) <==> h.len == 0
  {
    hide Survives;
    if h.len == 0 {
      forall bs
        ensures Survives(h, bs)
      {
        WaitingSurvives(h, bs);
      }
    } else {
      var b: byte := if StaleByte(h) == 0 then 1 else 0;
      ReadAheadLoses(h, b);
    }
  }

  /**
   * One byte of a file of two has been read, the other read ahead. A byte written now is lost; of two bytes,
   * what was read goes to the disk as well, behind the end.
   */
  lemma WriteAfterRead()
    ensures var h := Held(Image([1, 2], 2), [1, 2, 0, 0], 1, 2, 1);
            && Sound(h) && Meant(h) == Image([1, 2], 1)
            && Flushed(HeldWrite(h, [7])) == [1, 2] && Write(Meant(h), [7]).data == [1, 7]
            && Flushed(HeldWrite(h, [7, 8])) == [1, 2, 1, 7, 8] && Write(Meant(h), [7, 8]).data == [1, 7, 8]
  {
    var h := Held(Image([1, 2], 2), [1, 2, 0, 0], 1, 2, 1);
    assert h.buffer[1..2] == [2] == h.disk.data[1..2];
    NothingWritten([1, 2], 2, []);
    assert HeldWrite(h, [7, 8]).buffer == [1, 7, 8, 0];
    assert [1, 7, 8, 0][..3] == [1, 7, 8];
  }

  // ---------- the cache ----------

  /** mov_file_cache_t: `off` bytes of the buffer are used, `len` bytes were read into it. */
  class Cache {
    const file: File
    const ptr: array<byte>
    var off: nat
    var len: nat
    var tell: nat

    /** The state as a value. */
    ghost function State(): Held
      reads this, file, ptr
    {
      Held(file.Now(), ptr[..], off, len, tell)
    }

    /** Either nothing was read ahead and `off` bytes wait to be written, or nothing waits. */
    ghost predicate Valid()
      reads this, file, ptr
    {
      Sound(State())
    }

    /** The file as a user of the cache sees it. */
    ghost function Now(): Image
      requires Valid()
      reads this, file, ptr
    {
      Meant(State())
    }

    constructor (f: File, size: nat)
      requires size > 0 && f.pos == 0
      ensures Valid() && Now() == f.Now() && off == 0 && len == 0 && fresh(ptr) && file == f
    {
      file := f;
      ptr := new byte[size];
      off, len, tell := 0, 0, 0;
    }

    /** memcpy into the buffer. */
    method Fill(at: nat, bs: seq<byte>)
      requires at + |bs| <= ptr.Length
      modifies ptr
      ensures ptr[..at + |bs|] == old(ptr[..at]) + bs
      ensures ptr[at + |bs|..] == old(ptr[at + |bs|..])
    {
      var i := 0;
      while i < |bs|
        invariant 0 <= i <= |bs| && forall k :: 0 <= k < ptr.Length ==> ptr[k] == if at <= k < at + i then bs[k - at] else old(ptr[k])
      {
        ptr[at + i] := bs[i];
        i := i + 1;
      }
    }

    /** The bytes find room in the buffer. */
    method Keep(bs: seq<byte>)
      requires off + |bs| < ptr.Length
      modifies `off, ptr
      ensures off == old(off) + |bs| && ptr[..off] == old(ptr[..off]) + bs && ptr[off..] == old(ptr[off + |bs|..])
    {
      hide Overlaid;
      Fill(off, bs);
      off := off + |bs|;
    }

    /** Everything in the buffer goes to the disk. */
    method Flush()
      requires off <= ptr.Length
      modifies `off, file
      ensures off == 0 && file.Now() == Write(old(file.Now()), ptr[..old(off)])
    {
      hide Overlaid;
      if off > 0 {
        var _ := file.FWrite(ptr[..off]);
        off := 0;
      } else {
        NothingWritten(file.data, file.pos, ptr[..0]);
      }
    }

    /**
     * mov_file_cache_write. The cache acts like the file if nothing is read ahead, which a seek that moves
     * makes sure of. Otherwise the buffer looks read, not written, until it holds more than was read ahead;
     * WritesSurviveIff says what becomes of the bytes.
     */
    method CacheWrite(bs: seq<byte>) returns (r: int)
      requires Valid()
      modifies this, file, ptr
      ensures r == 0
      ensures off <= ptr.Length && State() == HeldWrite(old(State()), bs)
      ensures old(len) == 0 ==> Valid() && len == 0 && Now() == Write(old(Now()), bs)
    {
      hide Overlaid, Meant, Write;
      assert off <= ptr.Length && ptr.Length > 0;
      hide Sound;
      ghost var h := State();
      if len == 0 {
        WaitingKeeps(h, bs);
      }
      tell := tell + |bs|;
      if off + |bs| < ptr.Length {
        ghost var whole := ptr[..];
        Keep(bs);
        Spliced(whole, ptr[..], old(off), bs);
        return 0;
      }
      Flush();
      if off + |bs| < ptr.Length {
        ghost var whole := ptr[..];
        Keep(bs);
        Spliced(whole, ptr[..], 0, bs);
        return 0;
      }
      r := file.FWrite(bs);
    }

    /**
     * mov_file_cache_seek. A seek to another position empties the buffer, so that disk and logical file
     * agree. If the target lies before the start, a reader does not keep its position but skips what was
     * read ahead.
     */
    method CacheSeek(offset: int) returns (r: int)
      requires 0 < ptr.Length && off <= ptr.Length
      modifies this, file
      ensures offset != old(tell) || old(Valid()) ==> Valid()
      ensures offset != old(tell) ==>
        off == 0 && len == 0 && file.data == Now().data == Flushed(old(State())) && file.pos == tell
      ensures offset == old(tell) ==> State() == old(State())
      ensures old(Valid()) && Target(old(Now()).data, offset) >= 0 ==> r == 0 && Now() == Seek(old(Now()), offset)
      ensures old(Valid()) && Target(old(Now()).data, offset) < 0 ==>
        r != 0 && Now().data == old(Now()).data && tell == old(tell) + if old(len) > 0 then old(len) - old(off) else 0
    {
      hide Overlaid;
      r := 0;
      NothingWritten(file.data, file.pos, ptr[..0]);
      if offset != tell {
        if off > len {
          var _ := file.FWrite(ptr[..off]);
        }
        off, len := 0, 0;
        r := file.FSeek(offset);
        tell := file.pos;
        NothingWritten(file.data, file.pos, ptr[..0]);
      }
    }

    /** mov_file_cache_tell: never -1. */
    method CacheTell() returns (r: int)
      requires Valid()
      ensures r == Now().pos
    {
      var dt := tell - off + len;
      if file.pos != dt {
        return -1;
      }
      r := tell;
    }

    /** The buffer is used up: read the next bufferful. */
    method Refill()
      requires Valid() && off == len
      modifies `off, `len, file`pos, ptr
      ensures Valid() && off == 0 && len == |Available(file.data, tell, ptr.Length)| && tell == old(tell)
    {
      off := 0;
      var x := file.FRead(ptr.Length);
      len := |x|;
      Fill(0, x);
      assert old(ptr[..0]) == [] && [] + x == x;
      assert len > 0 ==> ptr[0..len] == x;
    }

    /** The memcpy of the read loop. */
    method Take(k: nat) returns (x: seq<byte>)
      requires Valid() && 0 < k <= len - off
      modifies `off, `tell
      ensures Valid() && off <= len && tell == old(tell) + k <= |file.data| && x == file.data[old(tell)..tell]
    {
      x := ptr[off..off + k];
      Parts(ptr[off..len], file.data, tell, file.pos, k);
      assert ptr[off..len][..k] == x && ptr[off..len][k..] == ptr[off + k..len];
      tell := tell + k;
      off := off + k;
    }

    /** One turn of the read loop: some of the wanted bytes, or the end of the file is too near. */
    method ReadSome(want: nat) returns (ok: bool, x: seq<byte>)
      requires Valid() && off <= len && want > 0
      modifies `off, `len, `tell, file`pos, ptr
      ensures ok ==>
        && Valid() && off <= len && 0 < |x| <= want && tell == old(tell) + |x| <= |file.data|
        && x == file.data[old(tell)..tell]
      ensures !ok ==> |file.data| < old(tell) + want
    {
      if off >= len {
        if want >= ptr.Length {
          x := file.FRead(want);
          tell := tell + |x|;
          return |x| == want, x;
        }
        Refill();
        if len < 1 {
          return false, [];
        }
      }
      x := Take(if len - off > want then want else len - off);
      ok := true;
    }

    /** Without pending bytes, the logical file is the disk. */
    lemma NothingPending()
      requires Valid() && off <= len
      ensures Now() == Image(file.data, tell)
    {
      if len == 0 {
        assert ptr[..0] == [];
      }
    }

    /** mov_file_cache_read; nothing may wait to be written, which the source asserts. */
    method CacheRead(n: nat) returns (r: int, bs: seq<byte>)
      requires Valid() && off <= len
      modifies `off, `len, `tell, file`pos, ptr
      ensures Satisfiable(old(Now()), n) ==>
        && Valid() && off <= len
        && r == 0 && Now() == Read(old(Now()), n) && bs == Available(file.data, old(tell), n)
      ensures r == 0 ==> n == 0 || Satisfiable(old(Now()), n)
    {
      hide Overlaid, Available;
      ghost var d, start := file.data, tell;
      NothingPending();
      var left: nat := n;
      bs := [];
      while left > 0
        invariant Valid() && off <= len && file.data == d
        invariant Progress(d, start, tell, bs) && |bs| + left == n
        decreases left
      {
        var ok, x := ReadSome(left);
        if !ok {
          return -1, bs;
        }
        ProgressBy(d, start, tell - |x|, bs, x);
        bs := bs + x;
        left := left - |x|;
      }
      NothingPending();
      ProgressDone(d, start, tell, bs);
      r := 0;
    }
  }

  /** Bytes written over a stretch of the buffer. */
  lemma Spliced(was: seq<byte>, now: seq<byte>, off: nat, bs: seq<byte>)
    requires |was| == |now| && off + |bs| <= |was|
    requires now[..off + |bs|] == was[..off] + bs && now[off + |bs|..] == was[off + |bs|..]
    ensures now == was[..off] + bs + was[off + |bs|..]
    ensures off == 0 ==> now == bs + was[|bs|..]
  {
    assert now == now[..off + |bs|] + now[off + |bs|..];
    assert was[..0] == [];
  }

  lemma Parts(x: seq<byte>, d: seq<byte>, a: nat, b: nat, k: nat)
    requires a <= b <= |d| && x == d[a..b] && k <= |x|
    ensures x[..k] == d[a..a + k] && x[k..] == d[a + k..b]
  {
  }

  lemma ProgressDone(d: seq<byte>, start: nat, tell: nat, bs: seq<byte>)
    requires Progress(d, start, tell, bs)
    ensures tell == start + |bs| && (|bs| == 0 || tell <= |d|)
    ensures tell <= |d| ==> bs == Available(d, start, |bs|)
  {
  }

  lemma NothingWritten(d: seq<byte>, p: nat, none: seq<byte>)
    requires none == []
    ensures Overlaid(d, p, none) == d
  {
  }

  /** What has been delivered so far. */
  predicate Progress(d: seq<byte>, start: nat, tell: nat, bs: seq<byte>)
  {
    tell == start + |bs| && (bs != [] ==> tell <= |d| && bs == d[start..tell])
  }

  lemma ProgressBy(d: seq<byte>, start: nat, tell: nat, bs: seq<byte>, x: seq<byte>)
    requires Progress(d, start, tell, bs) && x != [] && tell + |x| <= |d| && x == d[tell..tell + |x|]
    ensures Progress(d, start, tell + |x|, bs + x)
  {
  }

  // ---------- whole runs ----------

  datatype Op = WriteOp(bs: seq<byte>) | ReadOp(n: nat) | SeekOp(offset: int) | TellOp

  /** What the operations since the last seek that moved have been. */
  datatype Phase = Fresh | Writing | Reading

  function Apply(f: Image, op: Op): Image
  {
    match op
    case WriteOp(bs) => Write(f, bs)
    case ReadOp(n) => Read(f, n)
    case SeekOp(offset) => Seek(f, offset)
    case TellOp => f
  }

  function NextPhase(f: Image, phase: Phase, op: Op): Phase
  {
    match op
    case WriteOp(_) => Writing
    case ReadOp(_) => Reading
    case SeekOp(offset) => if offset != f.pos then Fresh else phase
    case TellOp => phase
  }

  /** Reads stay inside the file, seeks do not leave it at the front, and a seek that moves separates reads from writes. */
  predicate Proper(f: Image, phase: Phase, op: Op)
  {
    match op
    case WriteOp(_) => phase != Reading
    case ReadOp(n) => phase != Writing && Satisfiable(f, n)
    case SeekOp(offset) => Target(f.data, offset) >= 0
    case TellOp => true
  }

  predicate ProperRun(f: Image, phase: Phase, ops: seq<Op>)
    decreases |ops|
  {
    ops == [] || (Proper(f, phase, ops[0]) && ProperRun(Apply(f, ops[0]), NextPhase(f, phase, ops[0]), ops[1..]))
  }

  /** What the buffer can look like in each phase. */
  predicate InPhase(phase: Phase, off: nat, len: nat)
  {
    match phase
    case Fresh => off == 0 && len == 0
    case Writing => len == 0
    case Reading => off <= len
  }

  /** One operation on the plain file and on the cache gives the same answer. */
  method BothDo(plain: File, cache: Cache, op: Op, ghost phase: Phase) returns (same: bool)
    requires cache.Valid() && plain != cache.file && plain.Now() == cache.Now()
    requires InPhase(phase, cache.off, cache.len) && Proper(plain.Now(), phase, op)
    modifies plain, cache, cache.file, cache.ptr
    ensures same && cache.Valid() && plain.Now() == cache.Now() == Apply(old(plain.Now()), op)
    ensures InPhase(NextPhase(old(plain.Now()), phase, op), cache.off, cache.len)
  {
    hide Overlaid, Available;
    match op {
      case WriteOp(bs) =>
        var a := plain.FWrite(bs);
        var b := cache.CacheWrite(bs);
        same := a == b;
      case ReadOp(n) =>
        cache.NothingPending();
        var a, x := plain.ReadAll(n);
        var b, y := cache.CacheRead(n);
        cache.NothingPending();
        same := a == b && x == y;
      case SeekOp(offset) =>
        var a := plain.FSeek(offset);
        var b := cache.CacheSeek(offset);
        same := a == b;
      case TellOp =>
        var b := cache.CacheTell();
        same := plain.pos == b;
    }
  }

  /** On any proper run, whoever uses the cache cannot tell it from the file. */
  method Replay(plain: File, cache: Cache, ops: seq<Op>, ghost start: Phase) returns (same: bool)
    requires cache.Valid() && plain != cache.file && plain.Now() == cache.Now()
    requires InPhase(start, cache.off, cache.len) && ProperRun(plain.Now(), start, ops)
    modifies plain, cache, cache.file, cache.ptr
    ensures same && cache.Valid() && plain.Now() == cache.Now()
  {
    hide Overlaid, Available;
    same := true;
    var i := 0;
    ghost var phase := start;
    while i < |ops|
      invariant 0 <= i <= |ops| && same && cache.Valid() && plain.Now() == cache.Now()
      invariant InPhase(phase, cache.off, cache.len) && ProperRun(plain.Now(), phase, ops[i..])
    {
      assert ops[i..][0] == ops[i] && ops[i..][1..] == ops[i + 1..];
      ghost var f := plain.Now();
      var one := BothDo(plain, cache, ops[i], phase);
      phase := NextPhase(f, phase, ops[i]);
      same := same && one;
      i := i + 1;
    }
  }
}
