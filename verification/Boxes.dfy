/** ISO base media boxes as trees, and the bytes they are written as. */
module Boxes {
  import opened Bytes
  import opened MovStream

  const TAG_EDTS: u32 := 0x65647473
  const TAG_STBL: u32 := 0x7374626c
  const TAG_MINF: u32 := 0x6d696e66
  const TAG_MDIA: u32 := 0x6d646961
  const TAG_TRAK: u32 := 0x7472616b
  const TAG_MOOV: u32 := 0x6d6f6f76

  datatype Tree = Leaf(tag: u32, payload: seq<byte>) | Node(tag: u32, children: seq<Tree>)

  /** Bytes of a box, header included. */
  function SizeOf(t: Tree): nat
    decreases t, 1
  {
    8 + match t
        case Leaf(_, payload) => |payload|
        case Node(_, children) => SizeOfAll(children, |children|)
  }

  function SizeOfAll(ts: seq<Tree>, n: nat): nat
    requires n <= |ts|
    decreases ts, 0, n
  {
    if n == 0 then 0 else SizeOfAll(ts, n - 1) + SizeOf(ts[n - 1])
  }

  /** Every box size fits the 32-bit field of its header. */
  ghost predicate Fits(t: Tree)
    decreases t
  {
    && SizeOf(t) <= UINT32_MAX
    && (t.Node? ==> forall i :: 0 <= i < |t.children| ==> Fits(t.children[i]))
  }

  function BoxBytes(tag: u32, payload: seq<byte>): (bs: seq<byte>)
    requires 8 + |payload| <= UINT32_MAX
    ensures |bs| == 8 + |payload|
  {
    BE32(8 + |payload|) + BE32(tag) + payload
  }

  function Serialize(t: Tree): (bs: seq<byte>)
    requires Fits(t)
    ensures |bs| == SizeOf(t)
    decreases t, 1
  {
    match t
    case Leaf(tag, payload) => BoxBytes(tag, payload)
    case Node(tag, children) => BoxBytes(tag, SerializeAll(children, |children|))
  }

  function SerializeAll(ts: seq<Tree>, n: nat): (bs: seq<byte>)
    requires n <= |ts| && forall i :: 0 <= i < |ts| ==> Fits(ts[i])
    ensures |bs| == SizeOfAll(ts, n)
    decreases ts, 0, n
  {
    if n == 0 then [] else SerializeAll(ts, n - 1) + Serialize(ts[n - 1])
  }

  /** A table box written word by word is the leaf with the words behind its header. */
  function Table(tag: u32, rest: seq<u32>): Tree { Leaf(tag, Words(rest)) }

  lemma HeadWords(size: u32, tag: u32, rest: seq<u32>)
    ensures Words([size, tag] + rest) == BE32(size) + BE32(tag) + Words(rest)
  {
    hide Words, BE32;
    WordsConcat([size, tag], rest);
    WordsTwo(size, tag);
  }

  lemma {:induction false} TableFits(tag: u32, rest: seq<u32>)
    requires 8 + 4 * |rest| <= UINT32_MAX
    ensures Fits(Table(tag, rest)) && SizeOf(Table(tag, rest)) == 8 + 4 * |rest|
  {
  }

  lemma {:induction false} TableBytes(tag: u32, rest: seq<u32>)
    requires 8 + 4 * |rest| <= UINT32_MAX
    ensures Fits(Table(tag, rest))
    ensures Serialize(Table(tag, rest)) == Words([8 + 4 * |rest|, tag] + rest)
  {
    TableFits(tag, rest);
    hide Words, BE32, Fits, SizeOf;
    HeadWords(8 + 4 * |rest|, tag, rest);
  }

  lemma ClosedBox(pre: seq<byte>, tag: u32, payload: seq<byte>)
    requires 8 + |payload| <= UINT32_MAX
    ensures Splice(pre + BE32(0) + BE32(tag) + payload, |pre|, BE32(8 + |payload|)) == pre + BoxBytes(tag, payload)
  {
    SpliceMiddle(pre, BE32(0), BE32(tag) + payload, BE32(8 + |payload|));
    assert pre + BE32(0) + BE32(tag) + payload == pre + BE32(0) + (BE32(tag) + payload);
    assert BoxBytes(tag, payload) == BE32(8 + |payload|) + (BE32(tag) + payload);
    assert pre + BE32(8 + |payload|) + (BE32(tag) + payload) == pre + (BE32(8 + |payload|) + (BE32(tag) + payload));
  }

  /** The header of a container whose size is not known yet. */
  method Open(io: Stream, tag: u32) returns (offset: nat)
    requires io.Valid()
    modifies io
    ensures io.Valid() && io.base == old(io.base) && io.start == old(io.start)
    ensures offset == old(io.pos) && io.done == old(io.done) + BE32(0) + BE32(tag)
  {
    offset := io.pos;
    io.W32(0);
    io.W32(tag);
  }

  /** mov_write_size at the end of a container. */
  method Close(io: Stream, offset: nat, size: u32, ghost pre: seq<byte>, ghost tag: u32, ghost payload: seq<byte>)
    requires io.Valid() && offset == io.start + |pre|
    requires io.done == pre + BE32(0) + BE32(tag) + payload && size == 8 + |payload|
    modifies io
    ensures io.Valid() && io.base == old(io.base) && io.start == old(io.start)
    ensures io.done == pre + BoxBytes(tag, payload)
  {
    hide Splice;
    ClosedBox(pre, tag, payload);
    io.PatchU32(offset, size);
  }

  /** A fixed-layout box, whose bytes the caller has ready. */
  method WriteLeaf(io: Stream, t: Tree) returns (size: u32)
    requires io.Valid() && t.Leaf? && Fits(t)
    modifies io
    ensures io.Valid() && io.base == old(io.base) && io.start == old(io.start)
    ensures io.done == old(io.done) + Serialize(t) && size == SizeOf(t)
  {
    size := 8 + |t.payload|;
    io.W32(size);
    io.W32(t.tag);
    io.Write(t.payload);
  }
}
