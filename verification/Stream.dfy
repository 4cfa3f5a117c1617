/** The byte stream behind mov_ioutil_t: a seekable file with a sticky read error. */
module MovStream {
  import opened Bytes

  /** The file `d` after `bs` was written at position `p`. */
  function Splice(d: seq<byte>, p: nat, bs: seq<byte>): (r: seq<byte>)
    requires p <= |d|
    ensures |r| == if p + |bs| <= |d| then |d| else p + |bs|
  {
    d[..p] + bs + if p + |bs| <= |d| then d[p + |bs|..] else []
  }

  lemma SpliceAppend(d: seq<byte>, p: nat, a: seq<byte>, b: seq<byte>)
    requires p <= |d|
    ensures Splice(Splice(d, p, a), p + |a|, b) == Splice(d, p, a + b)
  {
  }

  lemma SplicePatch(d: seq<byte>, p: nat, a: seq<byte>, k: nat, b: seq<byte>)
    requires p <= |d| && k + |b| <= |a|
    ensures Splice(Splice(d, p, a), p + k, b) == Splice(d, p, Splice(a, k, b))
  {
  }

  lemma SpliceAtEnd(d: seq<byte>, bs: seq<byte>)
    ensures Splice(d, |d|, bs) == d + bs
  {
  }

  lemma AppendWord(pre: seq<byte>, ws: seq<u32>, v: u32)
    ensures pre + Words(ws) + BE32(v) == pre + Words(ws + [v])
  {
    assert (ws + [v])[..|ws|] == ws;
  }

  lemma NoWords(pre: seq<byte>)
    ensures pre == pre + Words([])
  {
  }

  lemma PatchedWord(pre: seq<byte>, ws: seq<u32>, k: nat, v: u32)
    requires k < |ws|
    ensures Splice(pre + Words(ws), |pre| + 4 * k, BE32(v)) == pre + Words(ws[k := v])
  {
    hide *;
    var a, b := ws[..k], ws[k + 1..];
    assert ws == a + [ws[k]] + b && ws[k := v] == a + [v] + b;
    WordsSplit(a, ws[k], b);
    WordsSplit(a, v, b);
    SpliceMiddle(pre + Words(a), BE32(ws[k]), Words(b), BE32(v));
    Regroup(pre, Words(a), BE32(ws[k]), Words(b));
    Regroup(pre, Words(a), BE32(v), Words(b));
  }

  lemma Regroup<T>(p: seq<T>, a: seq<T>, x: seq<T>, b: seq<T>)
    ensures p + (a + x + b) == p + a + x + b
  {
  }

  lemma SpliceMiddle(a: seq<byte>, x: seq<byte>, b: seq<byte>, y: seq<byte>)
    requires |x| == |y|
    ensures Splice(a + x + b, |a|, y) == a + y + b
  {
  }

  /** The words `ws` lie at byte p of the file. */
  ghost predicate Holds(data: seq<byte>, p: nat, ws: seq<u32>)
  {
    p + 4 * |ws| <= |data| && data[p..p + 4 * |ws|] == Words(ws)
  }

  lemma HeldWord(data: seq<byte>, p: nat, ws: seq<u32>, k: nat)
    requires Holds(data, p, ws) && k < |ws|
    ensures U32At(data, p + 4 * k) == ws[k]
  {
    WordsDecode(ws, k);
    U32AtSlice(data, p, 4 * |ws|, 4 * k);
  }

  /**
   * The writers emit a box by writing forward and patching its size afterwards. The ghost
   * fields name the run of writes since the last plain seek: `done` was written at `start`
   * over the file `base`.
   */
  class Stream {
    var data: seq<byte>
    var pos: nat
    var error: int
    ghost var base: seq<byte>
    ghost var start: nat
    ghost var done: seq<byte>

    ghost predicate Valid()
      reads this
    {
      && start <= |base|
      && data == Splice(base, start, done)
      && pos == start + |done|
      && error == 0
    }

    constructor (d: seq<byte>)
      ensures Valid() && data == d && pos == 0 && base == d && start == 0 && done == []
    {
      data, pos, error := d, 0, 0;
      base, start, done := d, 0, [];
    }

    /** fseek to an absolute position inside the file; it clears the error. */
    method Seek(p: nat)
      requires p <= |data|
      modifies this
      ensures data == old(data) && pos == p && error == 0
      ensures Valid() && base == data && start == p && done == []
    {
      pos, error := p, 0;
      base, start, done := data, p, [];
    }

    method Write(bs: seq<byte>)
      requires Valid()
      modifies this
      ensures Valid() && base == old(base) && start == old(start)
      ensures done == old(done) + bs
      ensures old(pos) <= |old(data)| && data == Splice(old(data), old(pos), bs)
    {
      SpliceAppend(base, start, done, bs);
      data := data[..pos] + bs + if pos + |bs| <= |data| then data[pos + |bs|..] else [];
      pos := pos + |bs|;
      done := done + bs;
    }

    method W8(v: byte)
      requires Valid()
      modifies this
      ensures Valid() && base == old(base) && start == old(start)
      ensures done == old(done) + [v]
    {
      Write([v]);
    }

    method W16(v: u16)
      requires Valid()
      modifies this
      ensures Valid() && base == old(base) && start == old(start)
      ensures done == old(done) + BE16(v)
    {
      W8(v / 0x100);
      W8(v % 0x100);
    }

    method W32(v: u32)
      requires Valid()
      modifies this
      ensures Valid() && base == old(base) && start == old(start)
      ensures done == old(done) + BE32(v)
    {
      W16(v / 0x1_0000);
      W16(v % 0x1_0000);
    }

    method W64(v: u64)
      requires Valid()
      modifies this
      ensures Valid() && base == old(base) && start == old(start)
      ensures done == old(done) + BE64(v)
    {
      W32(v / 0x1_0000_0000);
      W32(v % 0x1_0000_0000);
    }

    /** mov_write_size: go back, overwrite one word, and return to the end of the run. */
    method PatchU32(offset: nat, v: u32)
      requires Valid() && start <= offset && offset + 4 <= pos
      modifies this
      ensures Valid() && base == old(base) && start == old(start)
      ensures done == Splice(old(done), offset - start, BE32(v))
    {
      hide Splice;
      ghost var b, s, w := base, start, done;
      var back := pos;
      Seek(offset);
      W32(v);
      assert [] + BE32(v) == BE32(v);
      SplicePatch(b, s, w, offset - s, BE32(v));
      Seek(back);
      base, start, done := b, s, Splice(w, offset - s, BE32(v));
    }

    /** W32, remembering that the run so far ends in the words `ws`. */
    method PutWord(v: u32, ghost pre: seq<byte>, ghost ws: seq<u32>)
      requires Valid() && done == pre + Words(ws)
      modifies this
      ensures Valid() && base == old(base) && start == old(start)
      ensures done == pre + Words(ws + [v])
    {
      W32(v);
      AppendWord(pre, ws, v);
    }

    /** Box size, box type, version and flags, entry count. */
    method Header(size: u32, tag: u32, version: u32, count: u32)
      requires Valid()
      modifies this
      ensures Valid() && base == old(base) && start == old(start)
      ensures done == old(done) + Words([size, tag, version, count])
    {
      hide Words, Splice;
      ghost var pre := done;
      NoWords(pre);
      PutWord(size, pre, []);
      assert [] + [size] == [size];
      PutWord(tag, pre, [size]);
      assert [size] + [tag] == [size, tag];
      PutWord(version, pre, [size, tag]);
      assert [size, tag] + [version] == [size, tag, version];
      PutWord(count, pre, [size, tag, version]);
      assert [size, tag, version] + [count] == [size, tag, version, count];
    }

    /** W64, which emits the high word first. */
    method PutWord64(v: u64, ghost pre: seq<byte>, ghost ws: seq<u32>)
      requires Valid() && done == pre + Words(ws)
      modifies this
      ensures Valid() && base == old(base) && start == old(start)
      ensures done == pre + Words(ws + [v / 0x1_0000_0000, v % 0x1_0000_0000])
    {
      PutWord(v / 0x1_0000_0000, pre, ws);
      PutWord(v % 0x1_0000_0000, pre, ws + [v / 0x1_0000_0000]);
      assert ws + [v / 0x1_0000_0000, v % 0x1_0000_0000] == ws + [v / 0x1_0000_0000] + [v % 0x1_0000_0000];
    }

    /** PatchU32 on the k-th of the words the run ends in. */
    method PatchWord(offset: nat, v: u32, ghost pre: seq<byte>, ghost ws: seq<u32>, ghost k: nat)
      requires Valid() && done == pre + Words(ws) && k < |ws| && offset == start + |pre| + 4 * k
      modifies this
      ensures Valid() && base == old(base) && start == old(start)
      ensures done == pre + Words(ws[k := v])
    {
      PatchedWord(pre, ws, k, v);
      PatchU32(offset, v);
    }

    /** Reads `n` bytes; a short read keeps what was there and sets the error. */
    method Read(n: nat) returns (bs: seq<byte>)
      modifies this
      ensures data == old(data)
      ensures old(error) != 0 ==> bs == [] && pos == old(pos) && error == old(error)
      ensures old(error) == 0 && old(pos) + n <= |data| ==>
        error == 0 && pos == old(pos) + n && bs == data[old(pos)..pos]
      ensures old(error) == 0 && old(pos) + n > |data| ==>
        error != 0 && bs == if old(pos) <= |data| then data[old(pos)..] else []
    {
      if error != 0 {
        return [];
      }
      if pos + n <= |data| {
        bs := data[pos..pos + n];
        pos := pos + n;
      } else {
        bs := if pos <= |data| then data[pos..] else [];
        pos, error := if pos <= |data| then |data| else pos, -1;
      }
    }

    /** Reads `r8` to `r64` return zero bytes once the end of the file is reached. */
    method R8() returns (v: byte)
      modifies this
      ensures data == old(data)
      ensures old(error) == 0 && old(pos) < |data| ==>
        error == 0 && pos == old(pos) + 1 && v == data[old(pos)]
      ensures !(old(error) == 0 && old(pos) < |data|) ==> error != 0
    {
      var bs := Read(1);
      v := if |bs| == 1 then bs[0] else 0;
    }

    method R16() returns (v: u16)
      modifies this
      ensures data == old(data)
      ensures old(error) == 0 && old(pos) + 2 <= |data| ==>
        error == 0 && pos == old(pos) + 2 && v == U16At(data, old(pos))
      ensures !(old(error) == 0 && old(pos) + 2 <= |data|) ==> error != 0
    {
      var hi := R8();
      var lo := R8();
      v := (hi as int) * 0x100 + lo as int;
    }

    method R24() returns (v: u32)
      modifies this
      ensures data == old(data)
      ensures old(error) == 0 && old(pos) + 3 <= |data| ==>
        error == 0 && pos == old(pos) + 3
        && v == (data[old(pos)] as int) * 0x1_0000 + U16At(data, old(pos) + 1) as int
      ensures !(old(error) == 0 && old(pos) + 3 <= |data|) ==> error != 0
    {
      var hi := R8();
      var lo := R16();
      v := (hi as int) * 0x1_0000 + lo as int;
    }

    method R32() returns (v: u32)
      modifies this
      ensures data == old(data)
      ensures old(error) == 0 && old(pos) + 4 <= |data| ==>
        error == 0 && pos == old(pos) + 4 && v == U32At(data, old(pos))
      ensures !(old(error) == 0 && old(pos) + 4 <= |data|) ==> error != 0
    {
      var hi := R16();
      var lo := R16();
      v := (hi as int) * 0x1_0000 + lo as int;
    }

    method R64() returns (v: u64)
      modifies this
      ensures data == old(data)
      ensures old(error) == 0 && old(pos) + 8 <= |data| ==>
        error == 0 && pos == old(pos) + 8 && v == U64At(data, old(pos))
      ensures !(old(error) == 0 && old(pos) + 8 <= |data|) ==> error != 0
    {
      var hi := R32();
      var lo := R32();
      v := (hi as int) * 0x1_0000_0000 + lo as int;
    }
  }
}
