/** The buffer cache as a value: NBUF buffers and an order of recency, what each operation of
    bio.c does to it, and what a reader sees through it. */
module CacheSpec {
  import opened Blocks
  import opened Ring

  const NBUF: nat := 30
  const ROOTDEV: nat := 1
  const HEAD: nat := NBUF

  /** struct buf without its list links; pid is the holder of b->lock, 0 when it is free. */
  datatype Buf = Buf(valid: bool, dev: nat, blockno: nat, refcnt: nat, pid: nat, data: Block)

  /** The cache as a value: the buffers, and their numbers from most to least recently used. */
  datatype Cache = Cache(bufs: seq<Buf>, order: seq<nat>)

  ghost predicate Wf(c: Cache)
  {
    && |c.bufs| == NBUF && |c.order| == NBUF && Distinct(c.order)
    && (forall k :: 0 <= k < NBUF ==> c.order[k] < NBUF)
    && forall i: nat :: i < NBUF ==> i in c.order
  }

  predicate Caches(b: Buf, dev: nat, blockno: nat) { b.dev == dev && b.blockno == blockno }

  /** At most one buffer carries a given block of a real device. */
  ghost predicate Unique(c: Cache)
  {
    forall i, j :: 0 <= i < j < |c.bufs| && c.bufs[i].dev != 0 ==>
      !Caches(c.bufs[j], c.bufs[i].dev, c.bufs[i].blockno)
  }

  ghost predicate Cached(c: Cache, dev: nat, blockno: nat)
  {
    exists i :: 0 <= i < |c.bufs| && Caches(c.bufs[i], dev, blockno)
  }

  ghost predicate Spare(c: Cache)
  {
    exists i :: 0 <= i < |c.bufs| && c.bufs[i].refcnt == 0
  }

  /** Buffer i is the least recently used one among those nobody references. */
  ghost predicate Victim(c: Cache, i: nat)
    requires Wf(c)
  {
    exists k :: 0 <= k < NBUF && c.order[k] == i && c.bufs[i].refcnt == 0
                && AllReferenced(c, k + 1, NBUF)
  }

  /** The buffer that bget picks: the cached one, else the victim. */
  ghost predicate Picks(c: Cache, dev: nat, blockno: nat, i: nat)
    requires Wf(c)
  {
    && i < NBUF
    && if Cached(c, dev, blockno) then Caches(c.bufs[i], dev, blockno) else Victim(c, i)
  }

  /** The cache after bget picked buffer i: one more reference, or a recycled buffer. */
  function Got(c: Cache, dev: nat, blockno: nat, i: nat): Cache
    requires i < |c.bufs|
  {
    var b := c.bufs[i];
    c.(bufs := c.bufs[i := if Caches(b, dev, blockno) then b.(refcnt := b.refcnt + 1)
                           else b.(dev := dev, blockno := blockno, valid := false, refcnt := 1)])
  }

  /** The list position of buffer i. */
  ghost function Position(c: Cache, i: nat): (k: nat)
    requires Wf(c) && i < NBUF
    ensures k < NBUF && c.order[k] == i
  {
    assert i in c.order;
    var k :| 0 <= k < |c.order| && c.order[k] == i;
    k
  }

  /** The cache after the holder of buffer i released it. */
  ghost function Released(c: Cache, i: nat): Cache
    requires Wf(c) && i < NBUF && c.bufs[i].refcnt > 0
  {
    var b := c.bufs[i].(pid := 0, refcnt := c.bufs[i].refcnt - 1);
    Cache(c.bufs[i := b],
          if b.refcnt == 0 then [i] + Remove(c.order, Position(c, i)) else c.order)
  }

  lemma ReleasedWf(c: Cache, i: nat)
    requires Wf(c) && i < NBUF && c.bufs[i].refcnt > 0
    ensures Wf(Released(c, i))
  {
    var k, o := Position(c, i), Released(c, i).order;
    if c.bufs[i].refcnt == 1 {
      forall m | 1 <= m < NBUF ensures o[m] == c.order[if m <= k then m - 1 else m] {}
      forall j: nat | j < NBUF && j != i ensures j in o {
        var l := Position(c, j);
        assert o[if l < k then l + 1 else l] == j;
      }
    }
  }

  /** No buffer at list positions from .. to - 1 carries the block. */
  ghost predicate NoneCaches(c: Cache, from: nat, to: nat, dev: nat, blockno: nat)
    requires Wf(c)
  {
    forall l :: from <= l < to && l < NBUF ==> !Caches(c.bufs[c.order[l]], dev, blockno)
  }

  /** Every buffer at list positions from .. to - 1 is referenced. */
  ghost predicate AllReferenced(c: Cache, from: nat, to: nat)
    requires Wf(c)
  {
    forall l :: from <= l < to && l < NBUF ==> c.bufs[c.order[l]].refcnt != 0
  }

  /** A walk over the whole list has seen every buffer. */
  lemma SawEveryBuffer(c: Cache, dev: nat, blockno: nat)
    requires Wf(c) && NoneCaches(c, 0, NBUF, dev, blockno)
    ensures !Cached(c, dev, blockno)
  {
    forall i | 0 <= i < NBUF ensures !Caches(c.bufs[i], dev, blockno) {
      assert !Caches(c.bufs[c.order[Position(c, i)]], dev, blockno);
    }
  }

  lemma SawNoSpare(c: Cache)
    requires Wf(c) && AllReferenced(c, 0, NBUF)
    ensures !Spare(c)
  {
    forall i | 0 <= i < NBUF ensures c.bufs[i].refcnt != 0 {
      assert c.bufs[c.order[Position(c, i)]].refcnt != 0;
    }
  }

  // ---- What the cache looks like block by block ----

  /** What holds of cache and disk between operations of disciplined callers: an unreferenced
      buffer may be recycled without losing data. */
  ghost predicate Consistent(c: Cache, d: Image)
  {
    && Wf(c) && Unique(c)
    && forall i :: 0 <= i < NBUF ==> BufConsistent(c.bufs[i], d)
  }

  ghost predicate BufConsistent(b: Buf, d: Image)
  {
    && b.dev <= ROOTDEV
    && (b.dev == 0 ==> b.refcnt == 0)
    && (b.pid != 0 ==> b.refcnt > 0)
    && (b.dev == ROOTDEV ==> b.blockno < |d| && (b.valid && b.refcnt == 0 ==> b.data == d[b.blockno]))
  }

  /** The buffer that carries block x, if any. */
  ghost function Carrier(c: Cache, x: nat): (r: Option<Buf>)
  {
    if i :| 0 <= i < |c.bufs| && Caches(c.bufs[i], ROOTDEV, x) then Some(c.bufs[i]) else None
  }

  /** The contents that bread returns for block x. */
  ghost function View(c: Cache, d: Image, x: nat): Block
    requires x < |d|
  {
    var r := Carrier(c, x);
    if r.Some? && r.value.valid then r.value.data else d[x]
  }

  /** The reference count and the lock holder of block x's buffer; 0 when it is not cached. */
  ghost function Refs(c: Cache, x: nat): nat
  {
    var r := Carrier(c, x);
    if r.Some? then r.value.refcnt else 0
  }

  ghost function Holder(c: Cache, x: nat): nat
  {
    var r := Carrier(c, x);
    if r.Some? then r.value.pid else 0
  }

  /** What every block looks like from above the cache. */
  datatype Look = Look(views: seq<Block>, refs: seq<nat>, holders: seq<nat>)

  ghost function LookOf(c: Cache, d: Image): (l: Look)
    ensures |l.views| == |l.refs| == |l.holders| == |d|
    ensures forall x :: 0 <= x < |d| ==> l.views[x] == View(c, d, x)
    ensures forall x :: 0 <= x < |d| ==> l.refs[x] == Refs(c, x) && l.holders[x] == Holder(c, x)
  {
    Look(seq(|d|, x requires 0 <= x < |d| => View(c, d, x)),
         seq(|d|, x requires 0 <= x < |d| => Refs(c, x)),
         seq(|d|, x requires 0 <= x < |d| => Holder(c, x)))
  }

  lemma CarrierIs(c: Cache, i: nat)
    requires Unique(c) && i < |c.bufs| && c.bufs[i].dev == ROOTDEV
    ensures Carrier(c, c.bufs[i].blockno) == Some(c.bufs[i])
  {
    assert Caches(c.bufs[i], ROOTDEV, c.bufs[i].blockno);
  }

  /** Changing buffer i but not the block it carries changes no other block's carrier. */
  lemma ChangeBuf(c: Cache, i: nat, b: Buf, order: seq<nat>)
    requires Unique(c) && i < |c.bufs| && c.bufs[i].dev == b.dev == ROOTDEV && c.bufs[i].blockno == b.blockno
    ensures var c' := Cache(c.bufs[i := b], order);
      && Unique(c') && Carrier(c', b.blockno) == Some(b)
      && forall x :: x != b.blockno ==> Carrier(c', x) == Carrier(c, x)
  {
    var c' := Cache(c.bufs[i := b], order);
    CarrierIs(c', i);
    forall x | x != b.blockno ensures Carrier(c', x) == Carrier(c, x) {
      SameCarrier(c, c', i, x);
    }
  }

  lemma SameCarrier(c: Cache, c': Cache, i: nat, x: nat)
    requires Unique(c) && Unique(c') && |c.bufs| == |c'.bufs| && i < |c.bufs|
    requires forall j :: 0 <= j < |c.bufs| && j != i ==> c'.bufs[j] == c.bufs[j]
    requires !Caches(c.bufs[i], ROOTDEV, x) && !Caches(c'.bufs[i], ROOTDEV, x)
    ensures Carrier(c', x) == Carrier(c, x)
  {
    if j :| 0 <= j < |c.bufs| && Caches(c.bufs[j], ROOTDEV, x) {
      CarrierIs(c, j);
      CarrierIs(c', j);
    } else {
      forall j | 0 <= j < |c'.bufs| ensures !Caches(c'.bufs[j], ROOTDEV, x) {
        assert j != i ==> !Caches(c.bufs[j], ROOTDEV, x);
      }
    }
  }

  /** bread: the picked buffer now carries block x, valid, locked, with one more reference. */
  ghost predicate Reads(c: Cache, d: Image, x: nat, pid: nat, i: nat, c': Cache)
    requires Wf(c) && x < |d|
  {
    && Picks(c, ROOTDEV, x, i)
    && c' == Cache(c.bufs[i := Buf(true, ROOTDEV, x, Refs(c, x) + 1, pid, View(c, d, x))], c.order)
  }

  /** Reading a block changes what no one sees, and no other block's references or lock. */
  lemma ReadsKeeps(c: Cache, d: Image, x: nat, pid: nat, i: nat, c': Cache)
    requires Consistent(c, d) && x < |d| && Reads(c, d, x, pid, i, c')
    ensures Consistent(c', d)
    ensures forall y :: 0 <= y < |d| ==> View(c', d, y) == View(c, d, y)
    ensures forall y :: y != x ==> Refs(c', y) == Refs(c, y) && Holder(c', y) == Holder(c, y)
    ensures Refs(c', x) == Refs(c, x) + 1 && Holder(c', x) == pid
  {
    assert Unique(c') by {
      forall j | 0 <= j < NBUF && j != i ensures !Caches(c.bufs[j], ROOTDEV, x) {
        assert Cached(c, ROOTDEV, x) || !Caches(c.bufs[j], ROOTDEV, x);
      }
    }
    CarrierIs(c', i);
    var was := c.bufs[i];
    forall y: nat | y != x
      ensures Refs(c', y) == Refs(c, y) && Holder(c', y) == Holder(c, y)
      ensures y < |d| ==> View(c', d, y) == View(c, d, y)
    {
      if Caches(was, ROOTDEV, y) {
        CarrierIs(c, i);
        forall j | 0 <= j < NBUF ensures !Caches(c'.bufs[j], ROOTDEV, y) {
          assert j != i ==> !Caches(c.bufs[j], ROOTDEV, y);
        }
      } else {
        SameCarrier(c, c', i, y);
      }
    }
  }

  /** Releasing a buffer that is still referenced or clean changes what no one sees. */
  lemma ReleasedKeeps(c: Cache, d: Image, i: nat)
    requires Consistent(c, d) && i < NBUF && c.bufs[i].refcnt > 0
    requires c.bufs[i].refcnt > 1 || !c.bufs[i].valid || c.bufs[i].data == d[c.bufs[i].blockno]
    ensures var c', x := Released(c, i), c.bufs[i].blockno;
      && Consistent(c', d)
      && (forall y :: 0 <= y < |d| ==> View(c', d, y) == View(c, d, y))
      && (forall y :: y != x ==> Refs(c', y) == Refs(c, y) && Holder(c', y) == Holder(c, y))
      && Refs(c', x) == Refs(c, x) - 1 && Holder(c', x) == 0
  {
    ReleasedWf(c, i);
    CarrierIs(c, i);
    ChangeBuf(c, i, Released(c, i).bufs[i], Released(c, i).order);
  }

  /** A block that nobody references looks the same from the disk and through the cache. */
  lemma UnreferencedClean(c: Cache, d: Image, x: nat)
    requires Consistent(c, d) && x < |d| && Refs(c, x) == 0
    ensures View(c, d, x) == d[x]
  {
    if i :| 0 <= i < NBUF && Caches(c.bufs[i], ROOTDEV, x) {
      CarrierIs(c, i);
      assert BufConsistent(c.bufs[i], d);
    }
  }

  /** One block moved: it is on disk, every reader sees it, it lost drop references, and nothing
      else looks different. */
  ghost predicate Moved(c: Cache, d: Image, c': Cache, d': Image, x: nat, v: Block, drop: nat)
  {
    && x < |d| && d' == d[x := v] && Consistent(c', d') && (Spare(c) ==> Spare(c'))
    && LookOf(c', d') == LookMoved(LookOf(c, d), x, v, drop)
  }

  function LookMoved(l: Look, x: nat, v: Block, drop: nat): Look
  {
    if x < |l.views| == |l.refs| && drop <= l.refs[x]
    then l.(views := l.views[x := v], refs := l.refs[x := l.refs[x] - drop])
    else l
  }

  /** Buffers that end with no more references than before leave a spare one spare. */
  lemma StillSpare(c: Cache, c': Cache)
    requires |c.bufs| == |c'.bufs| && Spare(c)
    requires forall j :: 0 <= j < |c.bufs| ==> c'.bufs[j].refcnt <= c.bufs[j].refcnt
    ensures Spare(c')
  {
    var j :| 0 <= j < |c.bufs| && c.bufs[j].refcnt == 0;
    assert c'.bufs[j].refcnt == 0;
  }

  /** The buffer that bget picks had the references that the block had. */
  lemma PickedRefs(c: Cache, x: nat, i: nat)
    requires Wf(c) && Unique(c) && Picks(c, ROOTDEV, x, i)
    ensures c.bufs[i].refcnt == Refs(c, x)
  {
    if Cached(c, ROOTDEV, x) {
      CarrierIs(c, i);
    }
  }

  /** One buffer read, changed, written to disk and released; valid or not, it reads as v. */
  lemma SingleReleased(c: Cache, d: Image, x: nat, pid: nat, i: nat, c1: Cache, v: Block, c3: Cache)
    requires Consistent(c, d) && x < |d| && Reads(c, d, x, pid, i, c1) && Holder(c, x) == 0 && Wf(c3)
    requires c3.bufs == c1.bufs[i := Buf(c3.bufs[i].valid, ROOTDEV, x, Refs(c, x), 0, v)]
    ensures Moved(c, d, c3, d[x := v], x, v, 0)
  {
    ReadsKeeps(c, d, x, pid, i, c1);
    PickedRefs(c, x, i);
    ChangeBuf(c1, i, c3.bufs[i], c3.order);
    assert c3 == Cache(c1.bufs[i := c3.bufs[i]], c3.order);
    SingleConsistent(c1, d, x, i, v, c3);
    var l, l' := LookMoved(LookOf(c, d), x, v, 0), LookOf(c3, d[x := v]);
    forall z | 0 <= z < |d|
      ensures l'.views[z] == l.views[z] && l'.refs[z] == l.refs[z] && l'.holders[z] == l.holders[z]
    {
      assert z != x ==> Carrier(c3, z) == Carrier(c1, z);
      assert View(c1, d, z) == View(c, d, z);
    }
    assert l'.views == l.views && l'.refs == l.refs && l'.holders == l.holders;
    if Spare(c) { StillSpare(c, c3); }
  }

  lemma SingleConsistent(c1: Cache, d: Image, x: nat, i: nat, v: Block, c3: Cache)
    requires Consistent(c1, d) && x < |d| && i < NBUF && Wf(c3) && Unique(c3)
    requires c1.bufs[i].dev == ROOTDEV && c1.bufs[i].blockno == x
    requires c3.bufs == c1.bufs[i := Buf(c3.bufs[i].valid, ROOTDEV, x, c3.bufs[i].refcnt, 0, v)]
    ensures Consistent(c3, d[x := v])
  {
    forall k | 0 <= k < NBUF ensures BufConsistent(c3.bufs[k], d[x := v]) {
      assert BufConsistent(c1.bufs[k], d);
      assert k != i && c1.bufs[k].dev == ROOTDEV ==> !Caches(c1.bufs[k], ROOTDEV, x);
    }
  }
}
