/** lsquic_attq.c: the advisory tick time queue, a binary heap with back-indices. */
module Attq {

  class Conn {
    var elem: Elem?         // cn_attq_elem
    constructor ()
      ensures elem == null
    {
      elem := null;
    }
  }

  class Elem {
    const conn: Conn
    const advTime: nat
    const why: nat
    var heapIdx: nat
    constructor (conn: Conn, advTime: nat, why: nat, heapIdx: nat)
      ensures this.conn == conn && this.advTime == advTime && this.why == why && this.heapIdx == heapIdx
    {
      this.conn, this.advTime, this.why, this.heapIdx := conn, advTime, why, heapIdx;
    }
  }

  // ---------- heap order, on the elements alone ----------

  function Parent(i: nat): nat
    requires i > 0
  {
    (i - 1) / 2
  }

  /** Element i is not earlier than its parent. */
  predicate Settled(h: seq<Elem>, i: nat)
    requires 0 < i < |h|
  {
    h[Parent(i)].advTime <= h[i].advTime
  }

  predicate Ordered(h: seq<Elem>, n: nat)
    requires n <= |h|
  {
    forall i :: 0 < i < n ==> Settled(h, i)
  }

  /** Element c is not earlier than its grandparent, the parent of `i`. */
  predicate Bridged(h: seq<Elem>, i: nat, c: nat)
    requires i < |h| && 0 < c < |h|
  {
    i > 0 && Parent(c) == i ==> h[Parent(i)].advTime <= h[c].advTime
  }

  /** Only element i may be earlier than its parent. */
  predicate OrderedAbove(h: seq<Elem>, n: nat, i: nat)
    requires i < n <= |h|
  {
    && (forall k :: 0 < k < n && k != i ==> Settled(h, k))
    && (forall c :: 0 < c < n ==> Bridged(h, i, c))
  }

  /** Only the children of element i may be earlier than it. */
  predicate OrderedBelow(h: seq<Elem>, n: nat, i: nat)
    requires i < n <= |h|
  {
    && (forall k :: 0 < k < n && Parent(k) != i ==> Settled(h, k))
    && (forall c :: 0 < c < n ==> Bridged(h, i, c))
  }

  function Swapped(h: seq<Elem>, a: nat, b: nat): (g: seq<Elem>)
    requires a < |h| && b < |h|
    ensures |g| == |h|
  {
    h[a := h[b]][b := h[a]]
  }

  lemma SwapKeepsMembers(h: seq<Elem>, n: nat, a: nat, b: nat)
    requires a < n <= |h| && b < n
    ensures multiset(Swapped(h, a, b)[..n]) == multiset(h[..n])
  {
    var g := Swapped(h, a, b)[..n];
    assert g == h[..n][a := h[b]][b := h[a]];
  }

  lemma SiftUpStep(h: seq<Elem>, n: nat, i: nat)
    requires 0 < i < n <= |h| && OrderedAbove(h, n, i) && h[Parent(i)].advTime >= h[i].advTime
    ensures OrderedAbove(Swapped(h, i, Parent(i)), n, Parent(i))
  {
    var p, g := Parent(i), Swapped(h, i, Parent(i));
    forall k | 0 < k < n && k != p
      ensures Settled(g, k)
    {
      assert k != i ==> Settled(h, k);
      assert Bridged(h, i, k);
    }
    forall c | 0 < c < n
      ensures Bridged(g, p, c)
    {
      if p > 0 && Parent(c) == p {
        assert Settled(h, p);
        assert c != i ==> Settled(h, c);
      }
    }
  }

  lemma SiftUpDone(h: seq<Elem>, n: nat, i: nat)
    requires i < n <= |h| && OrderedAbove(h, n, i) && (i == 0 || Settled(h, i))
    ensures Ordered(h, n)
  {
  }

  /** `s` is a child of i that is earlier than i and not later than its sibling. */
  predicate LeastChild(h: seq<Elem>, n: nat, i: nat, s: nat)
    requires i < n <= |h|
  {
    && i < s < n && Parent(s) == i && h[s].advTime < h[i].advTime
    && forall c :: 0 < c < n && Parent(c) == i ==> h[s].advTime <= h[c].advTime
  }

  lemma SiftDownStep(h: seq<Elem>, n: nat, i: nat, s: nat)
    requires i < n <= |h| && OrderedBelow(h, n, i) && LeastChild(h, n, i, s)
    ensures OrderedBelow(Swapped(h, s, i), n, s)
  {
    var g := Swapped(h, s, i);
    forall k | 0 < k < n && Parent(k) != s
      ensures Settled(g, k)
    {
      assert Bridged(h, i, s);
      if Parent(k) != i {
        assert Settled(h, k);
      }
    }
    forall c | 0 < c < n
      ensures Bridged(g, s, c)
    {
      if Parent(c) == s {
        assert Settled(h, c);
      }
    }
  }

  lemma SiftDownDone(h: seq<Elem>, n: nat, i: nat)
    requires i < n <= |h| && OrderedBelow(h, n, i)
    requires forall c :: 0 < c < n && Parent(c) == i ==> h[i].advTime <= h[c].advTime
    ensures Ordered(h, n)
  {
    forall k | 0 < k < n
      ensures Settled(h, k)
    {
    }
  }

  /** The root of a heap is a least element. */
  lemma {:induction false} RootIsLeast(h: seq<Elem>, n: nat, i: nat)
    requires i < n <= |h| && Ordered(h, n)
    ensures h[0].advTime <= h[i].advTime
  {
    if i > 0 {
      RootIsLeast(h, n, Parent(i));
      assert Settled(h, i);
    }
  }

  /** Putting the last element in place of element i leaves order to restore at i only. */
  lemma ReplacedByLast(h: seq<Elem>, n: nat, i: nat)
    requires i < n < |h| && Ordered(h, n + 1)
    ensures var g := h[i := h[n]];
            (if i > 0 && g[i].advTime < g[Parent(i)].advTime then OrderedAbove(g, n, i) else OrderedBelow(g, n, i))
  {
    var g := h[i := h[n]];
    forall k | 0 < k < n
      ensures k != i && Parent(k) != i ==> Settled(g, k)
      ensures Bridged(g, i, k)
      ensures i > 0 && Parent(k) == i && g[i].advTime < g[Parent(i)].advTime ==> Settled(g, k)
    {
      assert Settled(h, k);
      if i > 0 {
        assert Settled(h, i);
      }
    }
  }

  // ---------- members ----------

  lemma RemovedMembers(h: seq<Elem>, n: nat, i: nat)
    requires i <= n < |h|
    ensures multiset(h[i := h[n]][..n]) == multiset(h[..n + 1]) - multiset{h[i]}
  {
    var g := h[..n + 1];
    assert g == h[..n] + [h[n]];
    if i < n {
      assert h[i := h[n]][..n] == h[..n][i := h[n]];
    } else {
      assert h[i := h[n]][..n] == h[..n];
    }
  }

  // ---------- counting ----------

  /** Elements a..b that are due before the cutoff. */
  function Due(h: seq<Elem>, a: nat, b: nat, cutoff: nat): (c: nat)
    requires a <= b <= |h|
    ensures c <= b - a
  {
    if a == b then 0 else Due(h, a, b - 1, cutoff) + if h[b - 1].advTime < cutoff then 1 else 0
  }

  lemma NoneDue(h: seq<Elem>, a: nat, cutoff: nat)
    requires a <= |h|
    ensures Due(h, a, a, cutoff) == 0
  {
  }

  lemma OneMoreDue(h: seq<Elem>, a: nat, b: nat, cutoff: nat)
    requires a <= b < |h|
    ensures Due(h, a, b + 1, cutoff) == Due(h, a, b, cutoff) + if h[b].advTime < cutoff then 1 else 0
  {
  }

  lemma {:induction false} DueSplit(h: seq<Elem>, a: nat, m: nat, b: nat, cutoff: nat)
    requires a <= m <= b <= |h|
    ensures Due(h, a, b, cutoff) == Due(h, a, m, cutoff) + Due(h, m, b, cutoff)
  {
    if m < b {
      DueSplit(h, a, m, b - 1, cutoff);
    }
  }

  lemma {:induction false} DueNone(h: seq<Elem>, a: nat, b: nat, cutoff: nat)
    requires a <= b <= |h|
    ensures Due(h, a, b, cutoff) == 0 <==> forall i :: a <= i < b ==> h[i].advTime >= cutoff
  {
    if a < b {
      DueNone(h, a, b - 1, cutoff);
    }
  }

  // ---------- the queue ----------

  class Queue {
    var heap: seq<Elem>     // aq_heap; entries from nelem on are stale
    var nelem: nat

    /** The elements in the queue. */
    ghost function Members(): multiset<Elem>
      requires nelem <= |heap|
      reads this
    {
      multiset(heap[..nelem])
    }

    ghost function Objects(): set<Elem>
      requires nelem <= |heap|
      reads this
    {
      set x | x in heap[..nelem]
    }

    /** Every element knows its place, and every connection its element. */
    ghost predicate Indexed()
      requires nelem <= |heap|
      reads this, heap, set x | x in heap :: x.conn
    {
      forall i :: 0 <= i < nelem ==> heap[i].heapIdx == i && heap[i].conn.elem == heap[i]
    }

    ghost predicate Valid()
      reads this, heap, set x | x in heap :: x.conn
    {
      nelem <= |heap| && Indexed() && Ordered(heap, nelem)
    }

    constructor ()
      ensures Valid() && nelem == 0 && heap == []
    {
      heap, nelem := [], 0;
    }

    /** attq_swap */
    method Swap(a: nat, b: nat)
      requires nelem <= |heap| && a < nelem && b < nelem && Indexed()
      modifies `heap, Objects()
      ensures heap == Swapped(old(heap), a, b) && Indexed() && Members() == old(Members()) && Objects() == old(Objects())
    {
      SwapKeepsMembers(heap, nelem, a, b);
      var el := heap[a];
      heap := heap[a := heap[b]];
      heap := heap[b := el];
      heap[a].heapIdx := a;
      heap[b].heapIdx := b;
      SameObjects(heap, old(heap), nelem);
    }

    /** The rising loop of lsquic_attq_add and lsquic_attq_remove; only the former also passes equals. */
    method SiftUp(start: nat, passEquals: bool)
      requires nelem <= |heap| && start < nelem && Indexed() && OrderedAbove(heap, nelem, start)
      modifies `heap, Objects()
      ensures nelem <= |heap| == |old(heap)| && Indexed() && Ordered(heap, nelem) && Members() == old(Members())
    {
      hide Ordered, OrderedAbove;
      var i: nat := start;
      ghost var all := Members();
      while i > 0 && (if passEquals then heap[Parent(i)].advTime >= heap[i].advTime else heap[i].advTime < heap[Parent(i)].advTime)
        invariant nelem <= |heap| == |old(heap)| && i < nelem && Indexed() && OrderedAbove(heap, nelem, i)
        invariant Members() == all == old(Members())
        invariant Objects() == old(Objects())
        decreases i
      {
        SiftUpStep(heap, nelem, i);
        Swap(i, Parent(i));
        i := Parent(i);
      }
      SiftUpDone(heap, nelem, i);
    }

    /** lsquic_attq_add; a connection is in the queue at most once. */
    method Add(conn: Conn, advTime: nat, why: nat) returns (r: int)
      requires Valid() && conn.elem == null
      modifies `heap, `nelem, Objects(), conn
      ensures Valid() && r == 0
      ensures conn.elem != null && fresh(conn.elem) && conn.elem.conn == conn
      ensures conn.elem.advTime == advTime && conn.elem.why == why
      ensures Members() == old(Members()) + multiset{conn.elem}
    {
      hide Ordered, OrderedAbove;
      var el := new Elem(conn, advTime, why, nelem);
      conn.elem := el;
      AddedLast(heap, nelem, el);
      heap := if nelem < |heap| then heap[nelem := el] else heap + [el];
      nelem := nelem + 1;
      SiftUp(nelem - 1, true);
      r := 0;
    }

    /** attq_heapify */
    method Heapify(i: nat)
      requires nelem <= |heap| && i < nelem && Indexed() && OrderedBelow(heap, nelem, i)
      modifies `heap, Objects()
      ensures nelem <= |heap| == |old(heap)| && Indexed() && Ordered(heap, nelem) && Members() == old(Members())
      decreases nelem - i
    {
      hide Ordered, OrderedBelow;
      var smallest := i;
      if 2 * i + 1 < nelem {
        if heap[2 * i + 1].advTime < heap[i].advTime {
          smallest := 2 * i + 1;
        }
        if 2 * i + 2 < nelem && heap[2 * i + 2].advTime < heap[smallest].advTime {
          smallest := 2 * i + 2;
        }
      }
      if smallest != i {
        SiftDownStep(heap, nelem, i, smallest);
        Swap(smallest, i);
        Heapify(smallest);
      } else {
        SiftDownDone(heap, nelem, i);
      }
    }

    /** Takes element `idx` out and puts the last one in its place. */
    method Unplug(idx: nat)
      requires Valid() && idx < nelem
      modifies `heap, `nelem, Objects(), heap[idx].conn
      ensures nelem == old(nelem) - 1 < |heap| && Indexed()
      ensures heap == old(heap)[idx := old(heap)[nelem]] && Members() == old(Members()) - multiset{old(heap)[idx]}
      ensures old(heap)[idx].conn.elem == null
      ensures Objects() <= old(Objects())
    {
      hide Ordered;
      heap[idx].conn.elem := null;
      nelem := nelem - 1;
      RemovedMembers(heap, nelem, idx);
      heap := heap[idx := heap[nelem]];
      heap[idx].heapIdx := idx;
    }

    /** Restores order after the last element has taken the place of element idx. */
    method Settle(idx: nat, ghost h: seq<Elem>)
      requires idx <= nelem < |h| && nelem <= |heap| && Indexed() && Ordered(h, nelem + 1) && heap == h[idx := h[nelem]]
      modifies `heap, Objects()
      ensures nelem <= |heap| && Indexed() && Ordered(heap, nelem) && Members() == old(Members())
    {
      hide Ordered, OrderedAbove, OrderedBelow;
      if idx < nelem {
        ReplacedByLast(h, nelem, idx);
      } else {
        OrderedPrefix(h, heap, nelem);
      }
      if idx > 0 && heap[idx].advTime < heap[Parent(idx)].advTime {
        LastIsSettled(h, nelem, idx);
        SiftUp(idx, false);
      } else if nelem > 1 && idx < nelem {
        Heapify(idx);
      } else if idx < nelem {
        OneIsOrdered(heap);
      }
    }

    /** lsquic_attq_remove */
    method Remove(conn: Conn)
      requires Valid() && conn.elem != null && conn.elem.heapIdx < nelem && heap[conn.elem.heapIdx] == conn.elem
      requires conn.elem.conn == conn
      modifies `heap, `nelem, Objects(), conn
      ensures Valid() && conn.elem == null
      ensures Members() == old(Members()) - multiset{old(conn.elem)}
    {
      hide Ordered;
      var idx := conn.elem.heapIdx;
      ghost var h := heap;
      Unplug(idx);
      Settle(idx, h);
    }

    ghost function Conns(): set<Conn>
      requires nelem <= |heap|
      reads this
    {
      set x | x in heap[..nelem] :: x.conn
    }

    /** lsquic_attq_pop: a connection with the least advisory time, if that is before the cutoff. */
    method Pop(cutoff: nat) returns (r: Conn?, ghost el: Elem?)
      requires Valid()
      modifies `heap, `nelem, Objects(), Conns()
      ensures Valid() && Objects() <= old(Objects()) && Conns() <= old(Conns())
      ensures r == null ==> el == null && Members() == old(Members()) && forall x :: x in Members() ==> x.advTime >= cutoff
      ensures r != null ==>
        && el != null && el in old(Members()) && el.conn == r && el.advTime < cutoff
        && (forall x :: x in old(Members()) ==> el.advTime <= x.advTime)
        && Members() == old(Members()) - multiset{el} && r.elem == null
    {
      hide Ordered;
      r, el := null, null;
      RootOfMembers(heap, nelem);
      if nelem == 0 {
        return;
      }
      var root := heap[0];
      if root.advTime >= cutoff {
        return;
      }
      el := root;
      r := root.conn;
      assert root in heap[..nelem];
      ghost var was := heap[..nelem];
      Remove(r);
      FewerObjects(heap[..nelem], was, root);
    }

    /** The engine's loop: connections due before `cutoff` leave the queue in order of their times. */
    method DrainBefore(cutoff: nat) returns (conns: seq<Conn>, ghost els: seq<Elem>)
      requires Valid()
      modifies `heap, `nelem, Objects(), Conns()
      ensures Valid() && |conns| == |els| && forall i :: 0 <= i < |els| ==> els[i].conn == conns[i]
      ensures Drains(els, Members(), old(Members()), cutoff)
      ensures forall x :: x in Members() ==> x.advTime >= cutoff
    {
      hide Drains, Ordered, Indexed, Paired;
      conns, els := [], [];
      PairedNone();
      ghost var all := Members();
      DrainsNone(all, cutoff);
      while true
        invariant Valid() && Objects() <= old(Objects()) && Conns() <= old(Conns())
        invariant Paired(els, conns)
        invariant Drains(els, Members(), all, cutoff)
        decreases |Members()|
      {
        ghost var rest := Members();
        var conn, el := Pop(cutoff);
        if conn == null {
          PairedMeans(els, conns);
          return;
        }
        DrainsNext(els, rest, el, all, cutoff);
        var due: Conn := conn;
        ghost var gone: Elem := el;
        PairedNext(els, conns, gone);
        conns := conns + [due];
        els := els + [gone];
      }
    }

    /** lsquic_attq_next */
    function Next(): (el: Elem?)
      requires Valid()
      reads this, heap, set x | x in heap :: x.conn
      ensures el == null <==> nelem == 0
      ensures el != null ==> forall i :: 0 <= i < nelem ==> el.advTime <= heap[i].advTime
    {
      if nelem > 0 then
        (NextIsLeast(heap, nelem);
         heap[0])
      else null
    }

    /**
     * lsquic_attq_count_before: counts level by level and gives up behind the first level, `width` wide,
     * that is not due as a whole. So it never counts too many, it counts none exactly when none is due, and
     * it counts all exactly when nothing due lies below that level.
     */
    method CountBefore(cutoff: nat) returns (total: nat, ghost width: nat)
      requires Valid()
      ensures PowerOfTwo(width) && width - 1 <= nelem
      ensures Due(heap, 0, width - 1, cutoff) == width - 1 && Due(heap, width - 1, LevelEnd(width, nelem), cutoff) < width
      ensures total == Due(heap, 0, LevelEnd(width, nelem), cutoff) <= Due(heap, 0, nelem, cutoff)
      ensures total == 0 <==> Due(heap, 0, nelem, cutoff) == 0
      ensures total == Due(heap, 0, nelem, cutoff) <==>
        forall i :: LevelEnd(width, nelem) <= i < nelem ==> heap[i].advTime >= cutoff
    {
      hide Ordered, Indexed, Due;
      NoneDue(heap, 0, cutoff);
      total := 0;
      var i: nat;
      var w: nat;
      i, w := 0, 1;
      while true
        invariant i <= nelem && i + 1 == w && PowerOfTwo(w) && total == i == Due(heap, 0, i, cutoff)
        decreases nelem - i
      {
        var levelCount: nat, levelMax := 0, i + w;
        ghost var first := i;
        NoneDue(heap, first, cutoff);
        while i < levelMax && i < nelem
          invariant first <= i <= levelMax && i <= nelem && levelCount == Due(heap, first, i, cutoff)
        {
          OneMoreDue(heap, first, i, cutoff);
          levelCount := levelCount + if heap[i].advTime < cutoff then 1 else 0;
          i := i + 1;
        }
        total := total + levelCount;
        DueSplit(heap, 0, first, i, cutoff);
        if levelCount < w {
          width := w;
          CountedSoFar(heap, nelem, i, cutoff);
          return;
        }
        w := 2 * w;
      }
    }
  }

  predicate PowerOfTwo(w: nat)
  {
    w == 1 || (w > 1 && w % 2 == 0 && PowerOfTwo(w / 2))
  }

  /** The level that is `w` wide starts at w - 1 and ends here. */
  function LevelEnd(w: nat, n: nat): (end: nat)
    requires 1 <= w && w - 1 <= n
    ensures w - 1 <= end <= n
  {
    if 2 * w - 1 <= n then 2 * w - 1 else n
  }

  /** An element that is due can stay uncounted: times 1 9 2 9 9 3 with cutoff 5 give 2, not 3. */
  lemma UncountedElement(h: seq<Elem>)
    requires |h| == 6 && h[0].advTime == 1 && h[1].advTime == 9 && h[2].advTime == 2
    requires h[3].advTime == 9 && h[4].advTime == 9 && h[5].advTime == 3
    ensures Ordered(h, 6) && Due(h, 0, 1, 5) == 1 && Due(h, 1, LevelEnd(2, 6), 5) < 2
    ensures Due(h, 0, LevelEnd(2, 6), 5) == 2 && Due(h, 0, 6, 5) == 3
  {
    assert Due(h, 0, 1, 5) == 1 && Due(h, 1, 2, 5) == 0 && Due(h, 1, 3, 5) == 1;
    DueSplit(h, 0, 1, 3, 5);
    assert Due(h, 3, 4, 5) == 0 && Due(h, 3, 5, 5) == 0 && Due(h, 3, 6, 5) == 1;
    DueSplit(h, 0, 3, 6, 5);
  }

  /** The elements `els` left the multiset `all` in order, all of them due, and none later than the rest. */
  ghost predicate Drains(els: seq<Elem>, rest: multiset<Elem>, all: multiset<Elem>, cutoff: nat)
  {
    && multiset(els) + rest == all
    && (forall i, j :: 0 <= i < j < |els| ==> els[i].advTime <= els[j].advTime)
    && (forall i :: 0 <= i < |els| ==> els[i].advTime < cutoff)
    && forall i, x :: 0 <= i < |els| && x in rest ==> els[i].advTime <= x.advTime
  }

  /** The connections of these elements. */
  ghost predicate Paired(els: seq<Elem>, conns: seq<Conn>)
  {
    |conns| == |els| && forall i :: 0 <= i < |els| ==> els[i].conn == conns[i]
  }

  lemma PairedNone()
    ensures Paired([], [])
  {
  }

  lemma PairedNext(els: seq<Elem>, conns: seq<Conn>, el: Elem)
    requires Paired(els, conns)
    ensures Paired(els + [el], conns + [el.conn])
  {
  }

  lemma PairedMeans(els: seq<Elem>, conns: seq<Conn>)
    requires Paired(els, conns)
    ensures |conns| == |els| && forall i :: 0 <= i < |els| ==> els[i].conn == conns[i]
  {
  }

  lemma DrainsNone(all: multiset<Elem>, cutoff: nat)
    ensures Drains([], all, all, cutoff)
  {
  }

  lemma DrainsNext(els: seq<Elem>, rest: multiset<Elem>, el: Elem, all: multiset<Elem>, cutoff: nat)
    requires Drains(els, rest, all, cutoff) && el in rest && el.advTime < cutoff
    requires forall x :: x in rest ==> el.advTime <= x.advTime
    ensures Drains(els + [el], rest - multiset{el}, all, cutoff)
  {
    assert multiset(els + [el]) == multiset(els) + multiset{el};
  }

  lemma NextIsLeast(h: seq<Elem>, n: nat)
    requires 0 < n <= |h| && Ordered(h, n)
    ensures forall i :: 0 <= i < n ==> h[0].advTime <= h[i].advTime
  {
    forall i | 0 <= i < n
      ensures h[0].advTime <= h[i].advTime
    {
      RootIsLeast(h, n, i);
    }
  }

  lemma RootOfMembers(h: seq<Elem>, n: nat)
    requires n <= |h| && Ordered(h, n)
    ensures n == 0 ==> multiset(h[..n]) == multiset{}
    ensures n > 0 ==> forall x :: x in multiset(h[..n]) ==> h[0].advTime <= x.advTime
  {
    if n > 0 {
      NextIsLeast(h, n);
    }
  }

  lemma FewerObjects(now: seq<Elem>, was: seq<Elem>, x: Elem)
    requires multiset(now) == multiset(was) - multiset{x}
    ensures forall y :: y in now ==> y in was
  {
    forall y | y in now
      ensures y in was
    {
      assert y in multiset(now);
      assert y in multiset(was);
    }
  }

  /** What was counted up to i against the whole: nothing is counted twice, and the root is counted. */
  lemma CountedSoFar(h: seq<Elem>, n: nat, i: nat, cutoff: nat)
    requires i <= n <= |h| && Ordered(h, n) && (n > 0 ==> i > 0)
    ensures Due(h, 0, i, cutoff) <= Due(h, 0, n, cutoff)
    ensures Due(h, 0, i, cutoff) == 0 <==> Due(h, 0, n, cutoff) == 0
    ensures Due(h, 0, i, cutoff) == Due(h, 0, n, cutoff) <==> forall k :: i <= k < n ==> h[k].advTime >= cutoff
  {
    DueSplit(h, 0, i, n, cutoff);
    DueNone(h, i, n, cutoff);
    DueNone(h, 0, i, cutoff);
    DueNone(h, 0, n, cutoff);
    if n > 0 {
      NextIsLeast(h, n);
    }
  }

  lemma OneIsOrdered(h: seq<Elem>)
    requires |h| > 0
    ensures Ordered(h, 1)
  {
  }

  lemma OrderedPrefix(h: seq<Elem>, g: seq<Elem>, n: nat)
    requires n < |h| && Ordered(h, n + 1) && n <= |g| && forall i :: 0 <= i < n ==> g[i] == h[i]
    ensures Ordered(g, n)
  {
    forall i | 0 < i < n
      ensures Settled(g, i)
    {
      assert Settled(h, i);
    }
  }

  /** Removing the last element of all never needs the rising loop. */
  lemma LastIsSettled(h: seq<Elem>, n: nat, i: nat)
    requires 0 < i <= n < |h| && Ordered(h, n + 1) && h[n].advTime < h[Parent(i)].advTime
    ensures i < n
  {
    assert Settled(h, n);
  }

  /** Two heaps with the same members are made of the same objects. */
  lemma SameObjects(h: seq<Elem>, g: seq<Elem>, n: nat)
    requires n <= |h| && n <= |g| && multiset(h[..n]) == multiset(g[..n])
    ensures forall x :: x in h[..n] <==> x in g[..n]
  {
    forall x: Elem
      ensures x in h[..n] <==> x in g[..n]
    {
      assert x in h[..n] <==> x in multiset(h[..n]);
      assert x in g[..n] <==> x in multiset(g[..n]);
    }
  }

  lemma AddedLast(h: seq<Elem>, n: nat, el: Elem)
    requires n <= |h| && Ordered(h, n)
    ensures var g := if n < |h| then h[n := el] else h + [el];
            OrderedAbove(g, n + 1, n) && multiset(g[..n + 1]) == multiset(h[..n]) + multiset{el}
  {
    var g := if n < |h| then h[n := el] else h + [el];
    assert g[..n + 1] == h[..n] + [el];
    forall k | 0 < k < n + 1
      ensures k != n ==> Settled(g, k)
      ensures Bridged(g, n, k)
    {
      if k < n {
        assert Settled(h, k);
      }
    }
  }
}
