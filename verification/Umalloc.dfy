/** The user-level allocator: a circular, address-ordered free list of blocks with headers, over
    memory obtained from sbrk. Addresses and sizes count units of 16 bytes, the size of a header. */
module Umalloc {
  import opened Blocks

  const UNIT: nat := 16
  const MINUNITS: nat := 4096

  /** The header of a block: ptr is the next free block, size counts the header too. */
  datatype Header = Header(ptr: nat, size: nat)

  type Memory = map<nat, Header>

  // ---- Requests ----

  function NUnits(nbytes: nat): (n: nat)
    ensures n >= 1
  {
    (nbytes + UNIT - 1) / UNIT + 1
  }

  /** The payload behind the header is large enough, and one unit less would not be. */
  lemma PayloadFits(nbytes: nat)
    ensures (NUnits(nbytes) - 1) * UNIT >= nbytes
    ensures nbytes > 0 ==> (NUnits(nbytes) - 2) * UNIT < nbytes
  {
  }

  /** The conversion of a 64-bit value to sbrk's int parameter. */
  function ToInt(x: nat): int
  {
    var w := x % 0x1_0000_0000;
    if w < 0x8000_0000 then w else w - 0x1_0000_0000
  }

  /** How many units morecore asks for: what is needed, but no less than 4096. */
  function MoreUnits(nunits: nat): (n: nat)
    ensures n >= nunits && n >= 4096 && (n == nunits || n == 4096)
  {
    if nunits < MINUNITS then MINUNITS else nunits
  }

  /** sbrk is asked for what malloc needs exactly when the request is at most 2147483616 bytes. */
  lemma SbrkArgument(nbytes: nat)
    requires nbytes < 0x1_0000_0000
    ensures ToInt(MoreUnits(NUnits(nbytes)) * UNIT) == MoreUnits(NUnits(nbytes)) * UNIT <==> nbytes <= 2147483616
  {
  }

  /** The largest request wraps: sbrk is asked for one unit. */
  lemma SbrkWraps()
    ensures NUnits(0xFFFF_FFFF) == 0x1000_0001 && ToInt(MoreUnits(NUnits(0xFFFF_FFFF)) * UNIT) == 16
  {
  }

  // ---- The free list as a value ----

  function Succ(order: seq<nat>, i: nat): nat
    requires i < |order|
  {
    if i + 1 < |order| then order[i + 1] else order[0]
  }

  /** order is the free list from its lowest block, the empty block base, on: one cycle,
      increasing in address, with a gap after every block. */
  ghost predicate FreeList(m: Memory, order: seq<nat>)
  {
    && |order| > 0
    && (forall i :: 0 <= i < |order| ==> order[i] in m && (m[order[i]].size == 0 <==> i == 0))
    && (forall i {:trigger Succ(order, i)} :: 0 <= i < |order| ==> m[order[i]].ptr == Succ(order, i))
    && forall i, j {:trigger Below(m, order[i], order[j])} :: 0 <= i < j < |order| ==> Below(m, order[i], order[j])
  }

  /** The header of order[i]: linked to its successor, and empty only at base. */
  predicate Entry(m: Memory, order: seq<nat>, i: nat)
    requires i < |order|
  {
    order[i] in m && m[order[i]].ptr == Succ(order, i) && (m[order[i]].size == 0 <==> i == 0)
  }

  /** Block x ends before address y. */
  predicate Below(m: Memory, x: nat, y: nat) { x in m && x + m[x].size < y }

  predicate In(u: nat, a: nat, size: nat) { a <= u < a + size }

  /** Unit u belongs to a free block. */
  ghost predicate FreeAt(m: Memory, order: seq<nat>, u: nat)
    requires FreeList(m, order)
  {
    exists i :: 0 <= i < |order| && In(u, order[i], m[order[i]].size)
  }

  /** Unit u belongs to a live block; live maps header addresses to sizes. */
  ghost predicate LiveAt(live: map<nat, nat>, u: nat)
  {
    exists a :: a in live && In(u, a, live[a])
  }

  /** No unit of the block is free. */
  ghost predicate Apart(m: Memory, order: seq<nat>, a: nat, size: nat)
    requires FreeList(m, order)
  {
    forall u :: In(u, a, size) ==> !FreeAt(m, order, u)
  }

  /** Blocks that share no unit with the free blocks lie in the gaps. */
  lemma ApartFrom(m: Memory, order: seq<nat>, a: nat, size: nat, i: nat)
    requires FreeList(m, order) && Apart(m, order, a, size) && size > 0 && a > order[0] && i < |order|
    ensures order[i] != a
    ensures order[i] < a ==> order[i] + m[order[i]].size <= a
    ensures order[i] > a ==> a + size <= order[i]
  {
    assert In(order[i], order[i], m[order[i]].size) <==> i > 0;
    assert In(a, a, size) && !FreeAt(m, order, a);
    assert !In(a, order[i], m[order[i]].size);
    assert i > 0 ==> FreeAt(m, order, order[i]);
  }

  /** Block a, if it lies above base, belongs right behind order[g]. */
  ghost predicate Gap(order: seq<nat>, g: nat, a: nat)
  {
    g < |order| && order[g] < a && (g + 1 < |order| ==> a < order[g + 1])
  }

  /** Block a may be freed: it is apart from the free blocks, and its gap is behind order[g]. */
  ghost predicate Freeable(m: Memory, order: seq<nat>, g: nat, a: nat)
  {
    && FreeList(m, order) && a in m && m[a].size > 0 && a > order[0] && Apart(m, order, a, m[a].size)
    && Gap(order, g, a)
  }

  /** There is exactly one gap for a block above base. */
  ghost function TheGap(m: Memory, order: seq<nat>, a: nat): (g: nat)
    requires FreeList(m, order) && a > order[0] && a !in order
    ensures Gap(order, g, a)
  {
    GapIn(order, a, |order| - 1)
  }

  ghost function GapIn(order: seq<nat>, a: nat, k: nat): (g: nat)
    requires k < |order| && order[0] < a && a !in order && (k + 1 < |order| ==> a < order[k + 1])
    ensures Gap(order, g, a)
  {
    if k == 0 || order[k] < a then k else GapIn(order, a, k - 1)
  }

  // ---- What free and malloc do to the free list ----

  predicate TouchesNext(m: Memory, order: seq<nat>, g: nat, a: nat)
    requires g < |order| && a in m
  {
    g + 1 < |order| && a + m[a].size == order[g + 1]
  }

  predicate TouchesPrev(m: Memory, order: seq<nat>, g: nat, a: nat)
    requires g < |order| && order[g] in m
  {
    order[g] + m[order[g]].size == a
  }

  /** The free list after block a was put behind order[g] and merged with the neighbours that it
      touches. */
  function Merged(m: Memory, order: seq<nat>, g: nat, a: nat): seq<nat>
    requires g < |order| && a in m && order[g] in m
  {
    if TouchesPrev(m, order, g, a) then
      if TouchesNext(m, order, g, a) then order[..g + 1] + order[g + 2..] else order
    else
      if TouchesNext(m, order, g, a) then order[g + 1 := a] else order[..g + 1] + [a] + order[g + 1..]
  }

  /** The memory after free has linked block a in behind order[g]. */
  function Linked(m: Memory, order: seq<nat>, g: nat, a: nat): (m': Memory)
    requires FreeList(m, order) && g < |order| && a in m
  {
    var p, q := order[g], Succ(order, g);
    var m1 := if a + m[a].size == q then m[a := Header(m[q].ptr, m[a].size + m[q].size)]
              else m[a := Header(q, m[a].size)];
    if p + m1[p].size == a then m1[p := Header(m1[a].ptr, m1[p].size + m1[a].size)]
    else m1[p := Header(a, m1[p].size)]
  }

  /** The free blocks on either side of the gap, the adjacent ones included. */
  lemma AroundGap(m: Memory, order: seq<nat>, g: nat, a: nat, i: nat)
    requires Freeable(m, order, g, a) && i < |order|
    ensures order[i] != a
    ensures i < g ==> Below(m, order[i], order[g]) && Below(m, order[i], a)
    ensures i == g ==> order[i] + m[order[i]].size <= a
    ensures i == g + 1 ==> a + m[a].size <= order[i]
    ensures i > g + 1 ==> Below(m, order[g + 1], order[i]) && Below(m, a, order[i])
  {
    ApartFrom(m, order, a, m[a].size, i);
    if i > g + 1 {
      ApartFrom(m, order, a, m[a].size, g + 1);
      assert Below(m, order[g + 1], order[i]);
    }
    assert i < g ==> Below(m, order[i], order[g]);
  }

  lemma SortedAlone(m: Memory, order: seq<nat>, g: nat, a: nat, i: nat, j: nat)
    requires Freeable(m, order, g, a) && !TouchesPrev(m, order, g, a) && !TouchesNext(m, order, g, a)
    requires i < j < |Merged(m, order, g, a)|
    ensures Below(Linked(m, order, g, a), Merged(m, order, g, a)[i], Merged(m, order, g, a)[j])
  {
    var i', j' := if i > g then i - 1 else i, if j > g then j - 1 else j;
    AroundGap(m, order, g, a, i');
    AroundGap(m, order, g, a, j');
    assert i' < j' ==> Below(m, order[i'], order[j']);
  }

  lemma LinkedAlone(m: Memory, order: seq<nat>, g: nat, a: nat, i: nat)
    requires Freeable(m, order, g, a) && !TouchesPrev(m, order, g, a) && !TouchesNext(m, order, g, a)
    requires i < |order| + 1
    ensures Entry(Linked(m, order, g, a), Merged(m, order, g, a), i)
  {
    var i' := if i > g then i - 1 else i;
    AroundGap(m, order, g, a, i');
    assert m[order[i']].ptr == Succ(order, i');
    assert i' > g ==> Below(m, order[g], order[i']);
  }

  lemma KeepsListAlone(m: Memory, order: seq<nat>, g: nat, a: nat)
    requires Freeable(m, order, g, a) && !TouchesPrev(m, order, g, a) && !TouchesNext(m, order, g, a)
    ensures FreeList(Linked(m, order, g, a), Merged(m, order, g, a))
  {
    var m', o := Linked(m, order, g, a), Merged(m, order, g, a);
    forall i, j | 0 <= i < j < |o| ensures Below(m', o[i], o[j]) {
      SortedAlone(m, order, g, a, i, j);
    }
    forall i | 0 <= i < |o| ensures o[i] in m' && m'[o[i]].ptr == Succ(o, i) && (m'[o[i]].size == 0 <==> i == 0) {
      LinkedAlone(m, order, g, a, i);
    }
  }

  lemma KeepsListNext(m: Memory, order: seq<nat>, g: nat, a: nat)
    requires Freeable(m, order, g, a) && !TouchesPrev(m, order, g, a) && TouchesNext(m, order, g, a)
    ensures FreeList(Linked(m, order, g, a), Merged(m, order, g, a))
  {
    var m', o := Linked(m, order, g, a), Merged(m, order, g, a);
    forall i, j | 0 <= i < j < |o| ensures Below(m', o[i], o[j]) {
      AroundGap(m, order, g, a, i);
      AroundGap(m, order, g, a, j);
      assert Below(m, order[i], order[j]);
    }
    forall i | 0 <= i < |o| ensures o[i] in m' && m'[o[i]].ptr == Succ(o, i) && (m'[o[i]].size == 0 <==> i == 0) {
      AroundGap(m, order, g, a, i);
      assert m[order[i]].ptr == Succ(order, i);
      assert i < g ==> Below(m, order[i], order[g]);
      assert i > g ==> Below(m, order[g], order[i]);
    }
  }

  lemma KeepsListPrev(m: Memory, order: seq<nat>, g: nat, a: nat)
    requires Freeable(m, order, g, a) && TouchesPrev(m, order, g, a) && !TouchesNext(m, order, g, a)
    ensures FreeList(Linked(m, order, g, a), Merged(m, order, g, a))
  {
    var m' := Linked(m, order, g, a);
    forall i, j | 0 <= i < j < |order| ensures Below(m', order[i], order[j]) {
      AroundGap(m, order, g, a, i);
      AroundGap(m, order, g, a, j);
      assert Below(m, order[i], order[j]);
    }
    forall i | 0 <= i < |order|
      ensures order[i] in m' && m'[order[i]].ptr == Succ(order, i) && (m'[order[i]].size == 0 <==> i == 0)
    {
      AroundGap(m, order, g, a, i);
      assert m[order[i]].ptr == Succ(order, i);
      assert i < g ==> Below(m, order[i], order[g]);
      assert i > g ==> Below(m, order[g], order[i]);
    }
  }

  lemma SortedBoth(m: Memory, order: seq<nat>, g: nat, a: nat, i: nat, j: nat)
    requires Freeable(m, order, g, a) && TouchesPrev(m, order, g, a) && TouchesNext(m, order, g, a)
    requires i < j < |order| - 1
    ensures Below(Linked(m, order, g, a), Merged(m, order, g, a)[i], Merged(m, order, g, a)[j])
  {
    var i', j' := if i > g then i + 1 else i, if j > g then j + 1 else j;
    AroundGap(m, order, g, a, i');
    AroundGap(m, order, g, a, j');
    assert Below(m, order[i'], order[j']);
  }

  lemma LinkedBoth(m: Memory, order: seq<nat>, g: nat, a: nat, i: nat)
    requires Freeable(m, order, g, a) && TouchesPrev(m, order, g, a) && TouchesNext(m, order, g, a)
    requires i < |order| - 1
    ensures Entry(Linked(m, order, g, a), Merged(m, order, g, a), i)
  {
    assert m[order[g + 1]].ptr == Succ(order, g + 1);
    var i' := if i > g then i + 1 else i;
    AroundGap(m, order, g, a, i');
    assert m[order[i']].ptr == Succ(order, i');
    assert i' < g ==> Below(m, order[i'], order[g]);
    assert i' > g ==> Below(m, order[g], order[i']);
  }

  lemma KeepsListBoth(m: Memory, order: seq<nat>, g: nat, a: nat)
    requires Freeable(m, order, g, a) && TouchesPrev(m, order, g, a) && TouchesNext(m, order, g, a)
    ensures FreeList(Linked(m, order, g, a), Merged(m, order, g, a))
  {
    var m', o := Linked(m, order, g, a), Merged(m, order, g, a);
    forall i, j | 0 <= i < j < |o| ensures Below(m', o[i], o[j]) {
      SortedBoth(m, order, g, a, i, j);
    }
    forall i | 0 <= i < |o| ensures o[i] in m' && m'[o[i]].ptr == Succ(o, i) && (m'[o[i]].size == 0 <==> i == 0) {
      LinkedBoth(m, order, g, a, i);
    }
  }

  /** free keeps the free list a cycle, sorted by address, without neighbours that touch. */
  lemma FreeKeepsList(m: Memory, order: seq<nat>, g: nat, a: nat)
    requires Freeable(m, order, g, a)
    ensures FreeList(Linked(m, order, g, a), Merged(m, order, g, a))
  {
    if TouchesPrev(m, order, g, a) {
      if TouchesNext(m, order, g, a) { KeepsListBoth(m, order, g, a); } else { KeepsListPrev(m, order, g, a); }
    } else if TouchesNext(m, order, g, a) {
      KeepsListNext(m, order, g, a);
    } else {
      KeepsListAlone(m, order, g, a);
    }
  }

  /** Where block i of the free list went when block a was freed. */
  function Moved(m: Memory, order: seq<nat>, g: nat, a: nat, i: nat): (k: nat)
    requires g < |order| && a in m && order[g] in m && i < |order|
    ensures k < |Merged(m, order, g, a)|
  {
    if i <= g then i
    else i + (if TouchesPrev(m, order, g, a) then 0 else 1) - (if TouchesNext(m, order, g, a) then 1 else 0)
  }

  /** The freed block and every block that was free are free afterwards. */
  lemma FreedAreFree(m: Memory, order: seq<nat>, g: nat, a: nat, u: nat)
    requires Freeable(m, order, g, a) && FreeList(Linked(m, order, g, a), Merged(m, order, g, a))
    requires FreeAt(m, order, u) || In(u, a, m[a].size)
    ensures FreeAt(Linked(m, order, g, a), Merged(m, order, g, a), u)
  {
    var m', o := Linked(m, order, g, a), Merged(m, order, g, a);
    AroundGap(m, order, g, a, g);
    if g + 1 < |order| { AroundGap(m, order, g, a, g + 1); }
    if In(u, a, m[a].size) {
      assert In(u, o[if TouchesPrev(m, order, g, a) then g else g + 1],
                   m'[o[if TouchesPrev(m, order, g, a) then g else g + 1]].size);
    } else {
      var i :| 0 <= i < |order| && In(u, order[i], m[order[i]].size);
      AroundGap(m, order, g, a, i);
      var k := Moved(m, order, g, a, i);
      assert i < g ==> Below(m, order[i], order[g]);
      assert i > g ==> Below(m, order[g], order[i]);
      assert In(u, o[k], m'[o[k]].size);
    }
  }

  /** Nothing else is. */
  lemma FreeWereFreed(m: Memory, order: seq<nat>, g: nat, a: nat, u: nat)
    requires Freeable(m, order, g, a) && FreeList(Linked(m, order, g, a), Merged(m, order, g, a))
    requires FreeAt(Linked(m, order, g, a), Merged(m, order, g, a), u)
    ensures FreeAt(m, order, u) || In(u, a, m[a].size)
  {
    var m', o := Linked(m, order, g, a), Merged(m, order, g, a);
    var k :| 0 <= k < |o| && In(u, o[k], m'[o[k]].size);
    AroundGap(m, order, g, a, g);
    if g + 1 < |order| { AroundGap(m, order, g, a, g + 1); }
    var prev, next := TouchesPrev(m, order, g, a), TouchesNext(m, order, g, a);
    var i := if k <= g then k else if prev then (if next then k + 1 else k) else (if next then k else k - 1);
    AroundGap(m, order, g, a, i);
    assert i < g ==> Below(m, order[i], order[g]);
    assert i > g ==> Below(m, order[g], order[i]);
    assert In(u, order[i], m[order[i]].size) || In(u, a, m[a].size)
      || (g + 1 < |order| && In(u, order[g + 1], m[order[g + 1]].size));
  }

  // ---- What malloc takes ----

  /** Taking the whole block order[k]. */
  lemma TakeWhole(m: Memory, order: seq<nat>, k: nat)
    requires FreeList(m, order) && 0 < k < |order|
    ensures var m', o := m[order[k - 1] := Header(m[order[k]].ptr, m[order[k - 1]].size)], order[..k] + order[k + 1..];
      && FreeList(m', o)
      && forall u :: FreeAt(m', o, u) <==> FreeAt(m, order, u) && !In(u, order[k], m[order[k]].size)
  {
    var m', o := m[order[k - 1] := Header(m[order[k]].ptr, m[order[k - 1]].size)], order[..k] + order[k + 1..];
    forall i, j | 0 <= i < j < |o| ensures Below(m', o[i], o[j]) {
      assert Below(m, order[if i < k then i else i + 1], order[if j < k then j else j + 1]);
    }
    forall i | 0 <= i < |o| ensures o[i] in m' && m'[o[i]].ptr == Succ(o, i) && (m'[o[i]].size == 0 <==> i == 0) {
      assert i != k - 1 ==> o[i] != order[k - 1] by {
        assert i < k - 1 ==> Below(m, order[i], order[k - 1]);
        assert i >= k ==> Below(m, order[k - 1], order[i + 1]);
      }
      assert m[order[k]].ptr == Succ(order, k);
      assert m[order[if i < k then i else i + 1]].ptr == Succ(order, if i < k then i else i + 1);
    }
    assert forall i :: 0 <= i < |o| ==> m'[o[i]].size == m[o[i]].size;
    forall u ensures FreeAt(m', o, u) <==> FreeAt(m, order, u) && !In(u, order[k], m[order[k]].size) {
      WithoutBlock(m, order, k, m', o, u);
    }
  }

  lemma WithoutBlock(m: Memory, order: seq<nat>, k: nat, m': Memory, o: seq<nat>, u: nat)
    requires FreeList(m, order) && k < |order| && o == order[..k] + order[k + 1..] && FreeList(m', o)
    requires forall i :: 0 <= i < |o| ==> o[i] in m && m'[o[i]].size == m[o[i]].size
    ensures FreeAt(m', o, u) <==> FreeAt(m, order, u) && !In(u, order[k], m[order[k]].size)
  {
    if FreeAt(m, order, u) && !In(u, order[k], m[order[k]].size) {
      var i :| 0 <= i < |order| && In(u, order[i], m[order[i]].size);
      assert In(u, o[if i < k then i else i - 1], m'[o[if i < k then i else i - 1]].size);
    }
    if FreeAt(m', o, u) {
      var i :| 0 <= i < |o| && In(u, o[i], m'[o[i]].size);
      var i' := if i < k then i else i + 1;
      assert In(u, order[i'], m[order[i']].size);
      assert if i' < k then Below(m, order[i'], order[k]) else Below(m, order[k], order[i']);
    }
  }

  /** Taking the last n units of block order[k], whose header goes to the address a. */
  lemma TakeTail(m: Memory, order: seq<nat>, k: nat, n: nat, a: nat, ptr: nat)
    requires FreeList(m, order) && 0 < k < |order| && 0 < n < m[order[k]].size && a == order[k] + m[order[k]].size - n
    ensures var m' := m[order[k] := Header(m[order[k]].ptr, m[order[k]].size - n)][a := Header(ptr, n)];
      && a !in order && FreeList(m', order)
      && forall u :: FreeAt(m', order, u) <==> FreeAt(m, order, u) && !In(u, a, n)
  {
    var m' := m[order[k] := Header(m[order[k]].ptr, m[order[k]].size - n)][a := Header(ptr, n)];
    forall i | 0 <= i < |order| ensures order[i] != a && (i < k ==> order[i] < order[k])
      && (i > k ==> a + n < order[i])
    {
      assert i < k ==> Below(m, order[i], order[k]);
      assert i > k ==> Below(m, order[k], order[i]);
    }
    forall i, j | 0 <= i < j < |order| ensures Below(m', order[i], order[j]) {
      assert Below(m, order[i], order[j]);
    }
    assert FreeList(m', order);
    forall u ensures FreeAt(m', order, u) <==> FreeAt(m, order, u) && !In(u, a, n) {
      ShortenedBlock(m, order, k, n, m', u);
    }
  }

  lemma ShortenedBlock(m: Memory, order: seq<nat>, k: nat, n: nat, m': Memory, u: nat)
    requires FreeList(m, order) && FreeList(m', order) && k < |order| && n <= m[order[k]].size
    requires forall i :: 0 <= i < |order| ==>
      m'[order[i]].size == if i == k then m[order[i]].size - n else m[order[i]].size
    ensures FreeAt(m', order, u) <==> FreeAt(m, order, u) && !In(u, order[k] + m[order[k]].size - n, n)
  {
    if FreeAt(m, order, u) && !In(u, order[k] + m[order[k]].size - n, n) {
      var i :| 0 <= i < |order| && In(u, order[i], m[order[i]].size);
      assert In(u, order[i], m'[order[i]].size);
    }
    if FreeAt(m', order, u) {
      var i :| 0 <= i < |order| && In(u, order[i], m'[order[i]].size);
      assert In(u, order[i], m[order[i]].size);
      assert if i < k then Below(m, order[i], order[k]) else i > k ==> Below(m, order[k], order[i]);
    }
  }

  // ---- The whole heap ----

  function Span(a: nat, n: nat): (s: set<nat>)
    ensures forall u :: u in s <==> In(u, a, n)
  {
    set u: nat | a <= u < a + n && In(u, a, n)
  }

  /** Free and live blocks are pairwise disjoint and together cover exactly the units obtained
      from sbrk. */
  ghost predicate Tiles(m: Memory, order: seq<nat>, live: map<nat, nat>, units: set<nat>)
  {
    && FreeList(m, order)
    && (forall a :: a in live ==> a in m && m[a].size == live[a] > 0 && a > order[0])
    && (forall a, b :: a in live && b in live && a < b ==> a + live[a] <= b)
    && (forall u :: u in units <==> FreeAt(m, order, u) || LiveAt(live, u))
    && forall u :: !(FreeAt(m, order, u) && LiveAt(live, u))
  }

  /** Live blocks are not on the free list. */
  lemma LiveNotListed(m: Memory, order: seq<nat>, live: map<nat, nat>, units: set<nat>, a: nat)
    requires Tiles(m, order, live, units) && a in live
    ensures a !in order && Apart(m, order, a, live[a])
  {
    forall u | In(u, a, live[a]) ensures !FreeAt(m, order, u) {
      assert LiveAt(live, u);
    }
    forall i | 0 <= i < |order| ensures order[i] != a {
      ApartFrom(m, order, a, live[a], i);
    }
  }

  lemma LiveWithout(live: map<nat, nat>, a: nat, u: nat)
    requires a in live && live[a] > 0
    requires forall a, b :: a in live && b in live && a < b ==> a + live[a] <= b
    ensures LiveAt(live - {a}, u) <==> LiveAt(live, u) && !In(u, a, live[a])
  {
    if LiveAt(live, u) {
      var b :| b in live && In(u, b, live[b]);
      assert b != a ==> b in live - {a};
    }
    if LiveAt(live - {a}, u) {
      var b :| b in live - {a} && In(u, b, (live - {a})[b]);
      assert b in live && In(u, b, live[b]);
    }
  }

  lemma LiveWith(live: map<nat, nat>, a: nat, n: nat, u: nat)
    requires a !in live
    ensures LiveAt(live[a := n], u) <==> LiveAt(live, u) || In(u, a, n)
  {
    var l := live[a := n];
    if LiveAt(live, u) {
      var b :| b in live && In(u, b, live[b]);
      assert b in l && In(u, b, l[b]);
    }
    if In(u, a, n) {
      assert a in l && In(u, a, l[a]);
    }
  }

  /** Freeing a live block keeps the tiling. */
  lemma FreeTiles(m: Memory, order: seq<nat>, live: map<nat, nat>, units: set<nat>, g: nat, a: nat)
    requires Tiles(m, order, live, units) && a in live && Gap(order, g, a)
    ensures Freeable(m, order, g, a)
    ensures Tiles(Linked(m, order, g, a), Merged(m, order, g, a), live - {a}, units)
    ensures HasRoom(Linked(m, order, g, a), Merged(m, order, g, a), live[a])
    ensures g < |Merged(m, order, g, a)| && Merged(m, order, g, a)[g] == order[g]
    ensures Merged(m, order, g, a)[0] == order[0]
  {
    LiveNotListed(m, order, live, units, a);
    FreedHasRoom(m, order, g, a);
    FreeKeepsList(m, order, g, a);
    var m', o, l := Linked(m, order, g, a), Merged(m, order, g, a), live - {a};
    assert o[0] == order[0];
    forall b | b in l ensures b in m' && m'[b] == m[b] {
      LiveNotListed(m, order, live, units, b);
    }
    forall u
      ensures FreeAt(m', o, u) <==> FreeAt(m, order, u) || In(u, a, m[a].size)
      ensures LiveAt(l, u) <==> LiveAt(live, u) && !In(u, a, live[a])
      ensures In(u, a, live[a]) ==> LiveAt(live, u)
    {
      if FreeAt(m', o, u) { FreeWereFreed(m, order, g, a, u); }
      if FreeAt(m, order, u) || In(u, a, m[a].size) { FreedAreFree(m, order, g, a, u); }
      LiveWithout(live, a, u);
    }
  }

  /** Handing out free units as a live block keeps the tiling. */
  lemma TakeTiles(m: Memory, order: seq<nat>, live: map<nat, nat>, units: set<nat>,
                  m': Memory, o: seq<nat>, a: nat, n: nat)
    requires Tiles(m, order, live, units) && FreeList(m', o) && o[0] == order[0] && n > 0 && a > order[0]
    requires a in m' && m'[a].size == n && forall b :: b in live ==> b in m' && m'[b].size == m[b].size
    requires forall u :: In(u, a, n) ==> FreeAt(m, order, u)
    requires forall u :: FreeAt(m', o, u) <==> FreeAt(m, order, u) && !In(u, a, n)
    ensures a !in live && Tiles(m', o, live[a := n], units)
  {
    assert In(a, a, n) && !LiveAt(live, a);
    assert a in live ==> In(a, a, live[a]);
    forall b | b in live ensures b < a ==> b + live[b] <= a
      ensures a < b ==> a + n <= b
    {
      assert In(b, b, live[b]) && LiveAt(live, b);
      assert !In(a, b, live[b]) && !In(b, a, n);
    }
    forall u ensures LiveAt(live[a := n], u) <==> LiveAt(live, u) || In(u, a, n) {
      LiveWith(live, a, n, u);
    }
  }

  /** A block that sbrk returned counts as live until morecore frees it. */
  lemma GrantTiles(m: Memory, order: seq<nat>, live: map<nat, nat>, units: set<nat>, a: nat, n: nat, ptr: nat)
    requires Tiles(m, order, live, units) && n > 0 && a > order[0] && forall u :: u in units ==> u < a
    ensures a !in live && a !in order
    ensures Tiles(m[a := Header(ptr, n)], order, live[a := n], units + Span(a, n))
  {
    var m', l := m[a := Header(ptr, n)], live[a := n];
    forall i | 0 <= i < |order| ensures order[i] < a {
      if i > 0 {
        assert In(order[i], order[i], m[order[i]].size);
        assert FreeAt(m, order, order[i]);
      }
    }
    forall b | b in live ensures b + live[b] <= a {
      assert In(b + live[b] - 1, b, live[b]) && LiveAt(live, b + live[b] - 1);
    }
    assert FreeList(m', order) by {
      forall i, j | 0 <= i < j < |order| ensures Below(m', order[i], order[j]) {
        assert Below(m, order[i], order[j]);
      }
    }
    forall u
      ensures FreeAt(m', order, u) <==> FreeAt(m, order, u)
      ensures LiveAt(l, u) <==> LiveAt(live, u) || In(u, a, n)
    {
      LiveWith(live, a, n, u);
      ShortenedBlock(m, order, 0, 0, m', u);
    }
  }

  /** The block that was freed is part of a block at least as large. */
  lemma FreedHasRoom(m: Memory, order: seq<nat>, g: nat, a: nat)
    requires Freeable(m, order, g, a)
    ensures HasRoom(Linked(m, order, g, a), Merged(m, order, g, a), m[a].size)
  {
    var m', o := Linked(m, order, g, a), Merged(m, order, g, a);
    FreeKeepsList(m, order, g, a);
    AroundGap(m, order, g, a, g);
    if TouchesPrev(m, order, g, a) { assert o[g] == order[g]; } else { assert o[g + 1] == a; }
  }

  /** Some free block has at least n units. */
  ghost predicate HasRoom(m: Memory, order: seq<nat>, n: nat)
  {
    exists i :: 0 <= i < |order| && order[i] in m && m[order[i]].size >= n
  }

  // ---- Walking the cycle ----

  /** The number of steps from the successor of index f to index i on a cycle of n. */
  function Steps(n: nat, f: nat, i: nat): int { if i > f then i - f - 1 else n - 1 - f + i }

  function NextIndex(n: nat, i: nat): nat { if i + 1 < n then i + 1 else 0 }

  /** The blocks from behind index f up to, not including, index k are all too small. */
  ghost predicate TooSmall(m: Memory, order: seq<nat>, f: nat, k: nat, n: nat)
    requires FreeList(m, order)
  {
    forall i :: 0 <= i < |order| && Steps(|order|, f, i) < Steps(|order|, f, k) ==> m[order[i]].size < n
  }

  /** malloc's loop is at p = order[k], behind prevp, and found all blocks since freep = order[f]
      too small. */
  ghost predicate Cursor(m: Memory, order: seq<nat>, freep: nat, f: nat, k: nat, p: nat, prevp: nat, n: nat)
    requires FreeList(m, order)
  {
    && f < |order| && k < |order| && order[f] == freep && order[k] == p
    && prevp == order[if k > 0 then k - 1 else |order| - 1] && TooSmall(m, order, f, k, n)
  }

  lemma CursorStarts(m: Memory, order: seq<nat>, f: nat, n: nat)
    requires FreeList(m, order) && f < |order|
    ensures Cursor(m, order, order[f], f, NextIndex(|order|, f), m[order[f]].ptr, order[f], n)
  {
    assert m[order[f]].ptr == Succ(order, f);
  }

  lemma CursorMoves(m: Memory, order: seq<nat>, freep: nat, f: nat, k: nat, p: nat, prevp: nat, n: nat)
    requires FreeList(m, order) && Cursor(m, order, freep, f, k, p, prevp, n) && m[p].size < n && p != freep
    ensures Cursor(m, order, freep, f, NextIndex(|order|, k), m[p].ptr, p, n)
    ensures Steps(|order|, f, NextIndex(|order|, k)) == Steps(|order|, f, k) + 1 < |order|
  {
    assert m[order[k]].ptr == Succ(order, k);
    forall i | 0 <= i < |order| && Steps(|order|, f, i) <= Steps(|order|, f, k) ensures m[order[i]].size < n {
      assert i == k || Steps(|order|, f, i) < Steps(|order|, f, k);
    }
  }

  /** The two exits of free's search loop: it goes on except at the gap. */
  lemma StopsAtGap(m: Memory, order: seq<nat>, g: nat, a: nat, k: nat)
    requires FreeList(m, order) && Gap(order, g, a) && order[0] < a && a !in order && k < |order|
    ensures var p, q := order[k], m[order[k]].ptr;
      k == g <==> (a > p && a < q) || (p >= q && (a > p || a < q))
  {
    assert m[order[k]].ptr == Succ(order, k);
    assert k + 1 < |order| ==> Below(m, order[k], order[k + 1]);
    assert k > 0 ==> Below(m, order[0], order[k]);
    if k < g { assert Below(m, order[k], order[g]) && (k + 1 < g ==> Below(m, order[k + 1], order[g])); }
    if k > g { assert k > g + 1 ==> Below(m, order[g + 1], order[k]); }
  }

  class Heap {
    const base: nat
    var hdr: Memory
    var freep: nat
    ghost var order: seq<nat>
    ghost var live: map<nat, nat>
    ghost var units: set<nat>

    /** Null is address 0; before the first malloc there is no free list at all. */
    ghost predicate Valid()
      reads this
    {
      && base > 0
      && if freep == 0 then order == [] && live == map[] && units == {}
         else Listed()
    }

    ghost predicate Listed()
      reads this
    {
      Tiles(hdr, order, live, units) && order[0] == base && freep in order
    }

    constructor (base: nat)
      requires base > 0
      ensures Valid() && this.base == base && live == map[] && units == {}
    {
      this.base, freep, hdr := base, 0, map[];
      order, live, units := [], map[], {};
    }

    /** What sbrk may return: memory above everything obtained before. */
    ghost predicate Fresh(addr: nat)
      reads this
    {
      addr > base && forall u :: u in units ==> u < addr
    }

    /** free's loop: the gap of block bp, found from freep on. */
    method Search(bp: nat) returns (p: nat, ghost g: nat)
      requires Valid() && freep != 0 && bp > base && bp !in order
      ensures Gap(order, g, bp) && order[g] == p > 0
    {
      g := TheGap(hdr, order, bp);
      p := freep;
      ghost var k :| 0 <= k < |order| && order[k] == p;
      while !(bp > p && bp < hdr[p].ptr)
        invariant 0 <= k < |order| && order[k] == p
        decreases if k <= g then g - k else |order| - k + g
      {
        StopsAtGap(hdr, order, g, bp, k);
        if p >= hdr[p].ptr && (bp > p || bp < hdr[p].ptr) {
          break;
        }
        assert hdr[p].ptr == Succ(order, k);
        p, k := hdr[p].ptr, NextIndex(|order|, k);
      }
      StopsAtGap(hdr, order, g, bp, k);
      assert g > 0 ==> Below(hdr, order[0], order[g]);
    }

    /** The relinking of free, once the gap is known. */
    method Link(bp: nat, p: nat, ghost g: nat)
      requires FreeList(hdr, order) && bp in hdr && g < |order| && order[g] == p
      modifies this`hdr
      ensures hdr == Linked(old(hdr), order, g, bp)
    {
      assert hdr[p].ptr == Succ(order, g);
      var q := hdr[p].ptr;
      if bp + hdr[bp].size == q {
        hdr := hdr[bp := hdr[bp].(size := hdr[bp].size + hdr[q].size)];
        hdr := hdr[bp := hdr[bp].(ptr := hdr[q].ptr)];
      } else {
        hdr := hdr[bp := hdr[bp].(ptr := q)];
      }
      if p + hdr[p].size == bp {
        hdr := hdr[p := hdr[p].(size := hdr[p].size + hdr[bp].size)];
        hdr := hdr[p := hdr[p].(ptr := hdr[bp].ptr)];
      } else {
        hdr := hdr[p := hdr[p].(ptr := bp)];
      }
    }

    /** free: the block of payload ap is free again, merged with the neighbours it touches. */
    method Free(ap: nat)
      requires Valid() && ap > 0 && ap - 1 in live
      modifies this
      ensures Valid() && live == old(live) - {ap - 1} && units == old(units)
      ensures HasRoom(hdr, order, old(live)[ap - 1])
    {
      var bp := ap - 1;
      LiveNotListed(hdr, order, live, units, bp);
      var p;
      ghost var g;
      p, g := Search(bp);
      FreeTiles(hdr, order, live, units, g, bp);
      ghost var o := Merged(hdr, order, g, bp);
      Link(bp, p, g);
      order, live := o, live - {bp};
      freep := p;
    }

    /** morecore: sbrk's memory becomes a free block; p is freep. */
    method MoreCore(nunits: nat, grant: nat) returns (p: nat)
      requires Valid() && freep != 0 && nunits > 0 && Fresh(grant)
      modifies this
      ensures Valid() && freep != 0 && p == freep && live == old(live)
      ensures units == old(units) + Span(grant, MoreUnits(nunits)) && HasRoom(hdr, order, nunits)
    {
      hide Tiles, Span;
      var nu := if nunits < MINUNITS then MINUNITS else nunits;
      var hp := grant;
      ghost var was := live;
      var header := Header(if hp in hdr then hdr[hp].ptr else 0, nu);
      GrantTiles(hdr, order, live, units, hp, nu, header.ptr);
      hdr := hdr[hp := header];
      live, units := live[hp := nu], units + Span(hp, nu);
      Free(hp + 1);
      assert live == was;
      p := freep;
    }

    /** Hands out block p = order[k] as a whole. */
    method TakeAll(p: nat, prevp: nat, ghost k: nat)
      requires Valid() && freep != 0 && 0 < k < |order| && order[k] == p && order[k - 1] == prevp
      modifies this
      ensures Valid() && freep == prevp != 0 && units == old(units)
      ensures p !in old(live) && live == old(live)[p := old(hdr)[p].size]
    {
      assert k > 1 ==> Below(hdr, order[0], prevp);
      TakeWholeTiles(hdr, order, live, units, k);
      order, live := order[..k] + order[k + 1..], live[p := hdr[p].size];
      hdr := hdr[prevp := Header(hdr[p].ptr, hdr[prevp].size)];
      freep := prevp;
    }

    /** Hands out the last nunits units of block p = order[k]. */
    method TakeEnd(p: nat, prevp: nat, nunits: nat, ghost k: nat) returns (h: nat)
      requires Valid() && freep != 0 && 0 < k < |order| && order[k] == p && order[k - 1] == prevp
      requires 0 < nunits < hdr[p].size
      modifies this
      ensures Valid() && freep == prevp != 0 && units == old(units)
      ensures h !in old(live) && live == old(live)[h := nunits]
    {
      assert k > 1 ==> Below(hdr, order[0], prevp);
      h := p + (hdr[p].size - nunits);
      ghost var m := hdr;
      var ptr := if h in hdr then hdr[h].ptr else 0;
      hdr := hdr[p := Header(hdr[p].ptr, hdr[p].size - nunits)][h := Header(ptr, nunits)];
      TakeTailTiles(m, order, live, units, k, nunits, h, ptr, hdr);
      live := live[h := nunits];
      freep := prevp;
    }

    /** Hands out nunits units of block p = order[k], all of it or its tail. */
    method Take(p: nat, prevp: nat, nunits: nat, ghost k: nat) returns (h: nat)
      requires Valid() && freep != 0 && 0 < k < |order| && order[k] == p && order[k - 1] == prevp
      requires 0 < nunits <= hdr[p].size
      modifies this
      ensures Valid() && freep == prevp != 0 && units == old(units)
      ensures h !in old(live) && live == old(live)[h := nunits]
    {
      if hdr[p].size == nunits {
        h := p;
        TakeAll(p, prevp, k);
      } else {
        h := TakeEnd(p, prevp, nunits, k);
      }
    }

    /** malloc: the payload address of a new live block of NUnits(nbytes) units, or None, the null
        pointer, when no free block is large enough and sbrk fails. sbrk is called at most once,
        and only when no free block is large enough; grant is its result. */
    method Malloc(nbytes: nat, grant: Option<nat>) returns (r: Option<nat>)
      requires Valid() && nbytes <= 2147483616 && (grant.Some? ==> Fresh(grant.value))
      modifies this
      ensures Valid()
      ensures r.None? <==> grant.None? && !old(HasRoom(hdr, order, NUnits(nbytes)))
      ensures r.None? ==> live == old(live)
      ensures r.Some? ==> r.value > 0 && r.value - 1 !in old(live)
                          && live == old(live)[r.value - 1 := NUnits(nbytes)]
      ensures units == if old(HasRoom(hdr, order, NUnits(nbytes))) || grant.None? then old(units)
                       else old(units) + Span(grant.value, MoreUnits(NUnits(nbytes)))
    {
      hide FreeAt, LiveAt, HasRoom, TooSmall, Below;
      var nunits := NUnits(nbytes);
      var prevp := freep;
      if prevp == 0 {
        Start();
        prevp := base;
      }
      var p := hdr[prevp].ptr;
      ghost var room, was, had := HasRoom(hdr, order, nunits), live, units;
      ghost var called := false;
      ghost var f: nat :| f < |order| && order[f] == freep;
      ghost var k := NextIndex(|order|, f);
      CursorStarts(hdr, order, f, nunits);
      while true
        invariant Valid() && freep != 0 && live == was && Cursor(hdr, order, freep, f, k, p, prevp, nunits)
        invariant HasRoom(hdr, order, nunits) <==> (room || called)
        invariant called ==> !room && grant.Some?
        invariant units == if called then had + Span(grant.value, MoreUnits(nunits)) else had
        decreases !called, |order| - Steps(|order|, f, k)
      {
        if hdr[p].size >= nunits {
          assert k > 0;
          RoomAt(hdr, order, k, nunits);
          var h := Take(p, prevp, nunits, k);
          return Some(h + 1);
        }
        if p == freep {
          SawAll(hdr, order, f, k, nunits);
          if grant.None? {
            return None;
          }
          p := MoreCore(nunits, grant.value);
          called := true;
          f :| f < |order| && order[f] == freep;
          k := f;
          CursorStarts(hdr, order, f, nunits);
        } else {
          CursorMoves(hdr, order, freep, f, k, p, prevp, nunits);
        }
        prevp, p, k := p, hdr[p].ptr, NextIndex(|order|, k);
      }
    }

    /** The first call's set-up of an empty cycle. */
    method Start()
      requires Valid() && freep == 0
      modifies this
      ensures Valid() && freep == base && live == old(live) && units == old(units) && order == [base]
      ensures forall n: nat :: n > 0 ==> !HasRoom(hdr, order, n) && !HasRoom(old(hdr), old(order), n)
    {
      hdr := hdr[base := Header(base, 0)];
      freep := base;
      order := [base];
    }
  }

  /** Taking block h changes no live block's header, and its units were free. */
  lemma TakeHeaders(m: Memory, order: seq<nat>, live: map<nat, nat>, units: set<nat>, k: nat, n: nat,
                    m': Memory, h: nat)
    requires Tiles(m, order, live, units) && 0 < k < |order| && 0 < n <= m[order[k]].size
    requires h == order[k] + m[order[k]].size - n
    requires forall b :: b in m && b != h && b != order[k] && b != order[k - 1] ==> b in m' && m'[b] == m[b]
    ensures forall b :: b in live ==> b in m' && m'[b].size == m[b].size
    ensures forall u :: In(u, h, n) ==> FreeAt(m, order, u)
  {
    forall u | In(u, h, n) ensures FreeAt(m, order, u) {
      assert In(u, order[k], m[order[k]].size);
    }
    forall b | b in live ensures b != h && b != order[k] && b != order[k - 1] {
      LiveNotListed(m, order, live, units, b);
      assert In(h, h, n) && FreeAt(m, order, h);
      assert In(b, b, live[b]);
    }
  }

  lemma TakeWholeTiles(m: Memory, order: seq<nat>, live: map<nat, nat>, units: set<nat>, k: nat)
    requires Tiles(m, order, live, units) && 0 < k < |order|
    ensures var m', o := m[order[k - 1] := Header(m[order[k]].ptr, m[order[k - 1]].size)], order[..k] + order[k + 1..];
      && order[k] !in live && Tiles(m', o, live[order[k] := m[order[k]].size], units)
      && o[0] == order[0] && o[k - 1] == order[k - 1]
  {
    var m', o := m[order[k - 1] := Header(m[order[k]].ptr, m[order[k - 1]].size)], order[..k] + order[k + 1..];
    TakeWhole(m, order, k);
    assert Below(m, order[k - 1], order[k]) && Below(m, order[0], order[k]);
    TakeHeaders(m, order, live, units, k, m[order[k]].size, m', order[k]);
    TakeTiles(m, order, live, units, m', o, order[k], m[order[k]].size);
  }

  lemma TakeTailTiles(m: Memory, order: seq<nat>, live: map<nat, nat>, units: set<nat>, k: nat, n: nat,
                      h: nat, ptr: nat, m': Memory)
    requires Tiles(m, order, live, units) && 0 < k < |order| && 0 < n < m[order[k]].size
    requires h == order[k] + m[order[k]].size - n
    requires m' == m[order[k] := Header(m[order[k]].ptr, m[order[k]].size - n)][h := Header(ptr, n)]
    ensures h !in live && Tiles(m', order, live[h := n], units)
  {
    TakeTail(m, order, k, n, h, ptr);
    assert Below(m, order[0], order[k]);
    TakeHeaders(m, order, live, units, k, n, m', h);
    TakeTiles(m, order, live, units, m', order, h, n);
  }

  lemma RoomAt(m: Memory, order: seq<nat>, k: nat, n: nat)
    requires k < |order| && order[k] in m && m[order[k]].size >= n
    ensures HasRoom(m, order, n)
  {
  }

  /** Back at freep, every block has been found too small. */
  lemma SawAll(m: Memory, order: seq<nat>, f: nat, k: nat, n: nat)
    requires FreeList(m, order) && f < |order| && k < |order| && order[k] == order[f]
    requires TooSmall(m, order, f, k, n) && m[order[k]].size < n
    ensures !HasRoom(m, order, n)
  {
    assert k < f ==> Below(m, order[k], order[f]);
    assert f < k ==> Below(m, order[f], order[k]);
  }
}
