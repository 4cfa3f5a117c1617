/** mov_writer_move: rotating the tail of the file to the front, in place, with two buffers. */
module Rotate {
  import opened Bytes
  import opened MovStream

  /** The block [from, from + n) moved in front of [to, from). */
  function Rotated(d: seq<byte>, to: nat, from: nat, n: nat): (r: seq<byte>)
    requires to <= from && from + n <= |d|
    ensures |r| == |d|
  {
    d[..to] + d[from..from + n] + d[to..from] + d[from + n..]
  }

  /**
   * The file while the rotation is under way: everything before position i is final, and
   * everything from i on is still untouched.
   */
  ghost predicate Moving(d: seq<byte>, cur: seq<byte>, to: nat, from: nat, n: nat, i: nat)
  {
    && to <= from && from + n <= |d| == |cur| && to <= i < from + n
    && (i == to || to + n <= i)
    && cur[..to] == d[..to]
    && cur[i..] == d[i..]
    && (i > to ==> cur[to..to + n] == d[from..from + n] && cur[to + n..i] == d[to..i - n])
  }

  /** What has to be written next at position i. */
  function Next(d: seq<byte>, to: nat, from: nat, n: nat, i: nat): (bs: seq<byte>)
    requires to <= from && from + n <= |d| && to <= i < from + n && (i == to || to + n <= i)
    ensures |bs| == n
  {
    if i == to then d[from..from + n] else d[i - n..i]
  }

  lemma MoveStep(d: seq<byte>, cur: seq<byte>, to: nat, from: nat, n: nat, i: nat)
    requires n > 0 && Moving(d, cur, to, from, n, i) && i < from
    ensures Moving(d, Splice(cur, i, Next(d, to, from, n, i)), to, from, n, i + n)
    ensures Splice(cur, i, Next(d, to, from, n, i))[i + n..] == d[i + n..]
  {
    var w := Next(d, to, from, n, i);
    var c := Splice(cur, i, w);
    assert c[i..i + n] == w;
    assert c[..i] == cur[..i];
    assert c[i + n..] == cur[i..][n..] && d[i + n..] == d[i..][n..];
    assert c[..to] == cur[..i][..to] == cur[..to];
    if i > to {
      assert c[to..to + n] == cur[to..to + n];
      assert c[to + n..i + n] == c[to + n..i] + c[i..i + n];
      assert c[to + n..i] == cur[to + n..i];
      assert d[to..i] == d[to..i - n] + d[i - n..i];
    } else {
      assert c[to + n..i + n] == [] == d[to..i];
    }
  }

  lemma SameTail(a: seq<byte>, b: seq<byte>, i: nat, j: nat)
    requires i <= j <= |a| == |b| && a[i..] == b[i..]
    ensures a[j..] == b[j..]
  {
    assert a[j..] == a[i..][j - i..] && b[j..] == b[i..][j - i..];
  }

  /** A stretch of a sequence cut in two. */
  lemma Cut(s: seq<byte>, lo: nat, m: nat, hi: nat)
    requires lo <= m <= hi <= |s|
    ensures s[lo..hi] == s[lo..m] + s[m..hi]
  {
  }

  lemma CutTwice(s: seq<byte>, a: nat, b: nat, c: nat)
    requires a <= b <= c <= |s|
    ensures s[..c] == s[..a] + (s[a..b] + s[b..c])
  {
  }

  lemma Regrouped(a: seq<byte>, b: seq<byte>, x: seq<byte>, y: seq<byte>, z: seq<byte>)
    ensures a + (b + x) + y + z == a + b + (x + y) + z
  {
  }

  lemma MoveEnd(d: seq<byte>, cur: seq<byte>, to: nat, from: nat, n: nat, i: nat)
    requires n > 0 && Moving(d, cur, to, from, n, i) && from <= i
    ensures Splice(cur, i, Next(d, to, from, n, i)[..n - (i - from)]) == Rotated(d, to, from, n)
  {
    var w := Next(d, to, from, n, i)[..n - (i - from)];
    SameTail(cur, d, i, from + n);
    assert Splice(cur, i, w) == cur[..i] + w + d[from + n..];
    hide Splice;
    if i > to {
      MoveEndBehind(d, cur, to, from, n, i);
    } else {
      assert w == d[from..from + n] && d[to..from] == [];
    }
  }

  lemma MoveEndBehind(d: seq<byte>, cur: seq<byte>, to: nat, from: nat, n: nat, i: nat)
    requires n > 0 && Moving(d, cur, to, from, n, i) && from <= i && i > to
    ensures cur[..i] + Next(d, to, from, n, i)[..n - (i - from)] + d[from + n..] == Rotated(d, to, from, n)
  {
    var w := Next(d, to, from, n, i)[..n - (i - from)];
    assert w == d[i - n..from];
    var a, b, x := cur[..to], cur[to..to + n], cur[to + n..i];
    CutTwice(cur, to, to + n, i);
    Cut(d, to, i - n, from);
    Regrouped(a, b, x, w, d[from + n..]);
  }

  /** Reading into a buffer keeps the old tail when the file ends early. */
  function Filled(buffer: seq<byte>, got: seq<byte>): (r: seq<byte>)
    requires |got| <= |buffer|
    ensures |r| == |buffer|
  {
    got + buffer[|got|..]
  }

  /** The buffer holds what the file had at i, as far as the file reaches. */
  ghost predicate Ahead(d: seq<byte>, buffer: seq<byte>, i: nat, n: nat)
  {
    && |buffer| == n && i <= |d|
    && forall k :: 0 <= k < n && i + k < |d| ==> buffer[k] == d[i + k]
  }

  /** One turn of the loop: write a buffer at i and refill it from the next block. */
  method Exchange(io: Stream, ghost d: seq<byte>, buffer: seq<byte>, i: nat, bytes: nat) returns (filled: seq<byte>)
    requires |buffer| == bytes && i + bytes <= |io.data| == |d|
    requires Splice(io.data, i, buffer)[i + bytes..] == d[i + bytes..]
    modifies io
    ensures io.data == Splice(old(io.data), i, buffer)
    ensures Ahead(d, filled, i + bytes, bytes)
  {
    hide Splice;
    io.Seek(i);
    io.Write(buffer);
    assert [] + buffer == buffer;
    io.Seek(i + bytes);
    var got := io.Read(bytes);
    FillAhead(d, io.data, buffer, got, i + bytes, bytes);
    filled := Filled(buffer, got);
  }

  method Move(io: Stream, to: nat, from: nat, bytes: nat) returns (r: int)
    requires to <= from && 0 < bytes && from + bytes <= |io.data|
    modifies io
    ensures io.data == Rotated(old(io.data), to, from, bytes)
    ensures r == 0 && io.Valid() && io.pos == from + bytes
  {
    hide Splice, Moving, Next;
    ghost var d := io.data;
    io.Seek(from);
    var first := io.Read(bytes);
    io.Seek(to);
    var second := io.Read(bytes);
    var buffers := [first, second];
    var i: nat, j: nat := to, 0;
    MoveBegin(d, to, from, bytes);
    while i < from
      invariant |io.data| == |d| && to <= i < from + bytes && j <= 1 && |buffers| == 2
      invariant Moving(d, io.data, to, from, bytes, i)
      invariant i == to || to + bytes <= i
      invariant buffers[j] == Next(d, to, from, bytes, i)
      invariant Ahead(d, buffers[1 - j], i, bytes)
      decreases from - i
    {
      MoveStep(d, io.data, to, from, bytes, i);
      NextIsAhead(d, buffers[1 - j], to, from, bytes, i);
      var filled := Exchange(io, d, buffers[j], i, bytes);
      buffers := buffers[j := filled];
      j := 1 - j;
      i := i + bytes;
    }
    MoveEnd(d, io.data, to, from, bytes, i);
    io.Seek(i);
    ghost var last := buffers[j][..bytes - (i - from)];
    io.Write(buffers[j][..bytes - (i - from)]);
    assert [] + last == last;
    r := io.error;
  }

  lemma MoveBegin(d: seq<byte>, to: nat, from: nat, n: nat)
    requires n > 0 && to <= from && from + n <= |d|
    ensures Moving(d, d, to, from, n, to) && Next(d, to, from, n, to) == d[from..from + n]
    ensures Ahead(d, d[to..to + n], to, n)
  {
  }

  lemma FillAhead(d: seq<byte>, cur: seq<byte>, buffer: seq<byte>, got: seq<byte>, p: nat, n: nat)
    requires |d| == |cur| && p <= |d| && cur[p..] == d[p..] && |buffer| == n
    requires got == if p + n <= |cur| then cur[p..p + n] else cur[p..]
    ensures |got| <= n && Ahead(d, Filled(buffer, got), p, n)
  {
    forall k | 0 <= k < n && p + k < |d|
      ensures Filled(buffer, got)[k] == d[p + k]
    {
      assert cur[p..][k] == d[p..][k];
    }
  }

  lemma NextIsAhead(d: seq<byte>, buffer: seq<byte>, to: nat, from: nat, n: nat, i: nat)
    requires n > 0 && to <= i < from && from + n <= |d| && (i == to || to + n <= i) && Ahead(d, buffer, i, n)
    ensures Next(d, to, from, n, i + n) == buffer
  {
    assert buffer == d[i..i + n];
  }
}
