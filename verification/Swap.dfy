/** The page transfer of bio.c: a 4096-byte page goes to the first halves of eight consecutive
    blocks, through buffers whose previous contents were never read. */
module Swap {
  import opened Blocks
  import opened CacheSpec
  import opened Bio
  import T = Transparency

  /** 512 bytes in words; a page is eight such chunks. */
  const CHUNK: nat := 128
  const PGCHUNKS: nat := 8

  type Page = p: seq<Word> | |p| == PGCHUNKS * CHUNK witness seq(PGCHUNKS * CHUNK, i => 0)

  function Chunk(p: Page, i: nat): (r: seq<Word>)
    requires i < PGCHUNKS
    ensures |r| == CHUNK
  {
    p[i * CHUNK..(i + 1) * CHUNK]
  }

  /** The data of a buffer after memmove of 512 bytes: its second half is what was there. */
  function HalfWritten(old_: Block, chunk: seq<Word>): Block
    requires |chunk| == CHUNK
  {
    var words: seq<Word> := chunk + old_[CHUNK..];
    words
  }

  /** Chunks 0 to n - 1 of the page are what the first halves of the blocks hold. */
  ghost predicate Stored(views: seq<Block>, blk: nat, p: Page, n: nat)
  {
    && n <= PGCHUNKS && blk + n <= |views|
    && forall b :: blk <= b < blk + n ==> views[b][..CHUNK] == Chunk(p, b - blk)
  }

  /** Two looks differ in nothing but the contents of blocks blk to blk + n - 1. */
  ghost predicate SameBut(l: Look, l': Look, blk: nat, n: nat)
  {
    && l'.refs == l.refs && l'.holders == l.holders && |l'.views| == |l.views|
    && forall y :: 0 <= y < |l.views| && !(blk <= y < blk + n) ==> l'.views[y] == l.views[y]
  }

  ghost predicate Unlocked(l: Look, blk: nat)
  {
    blk + PGCHUNKS <= |l.holders| && forall b :: blk <= b < blk + PGCHUNKS ==> l.holders[b] == 0
  }

  lemma ChunkStored(l: Look, l1: Look, l2: Look, blk: nat, p: Page, n: nat, v: Block)
    requires SameBut(l, l1, blk, n) && Stored(l1.views, blk, p, n) && n < PGCHUNKS && blk + n < |l1.views| == |l1.refs|
    requires l2 == LookMoved(l1, blk + n, v, 0) && v[..CHUNK] == Chunk(p, n)
    ensures SameBut(l, l2, blk, n + 1) && Stored(l2.views, blk, p, n + 1)
  {
    assert l2.refs == l1.refs;
  }

  lemma PageIs(p: Page, q: Page)
    requires forall i :: 0 <= i < PGCHUNKS ==> Chunk(q, i) == Chunk(p, i)
    ensures p == q
  {
    forall k | 0 <= k < PGCHUNKS * CHUNK ensures p[k] == q[k] {
      assert Chunk(p, k / CHUNK)[k % CHUNK] == p[k] && Chunk(q, k / CHUNK)[k % CHUNK] == q[k];
    }
  }

  /** One round of write_page_to_disk: bget, memmove, bwrite, brelse; !ok is the panic of bget. */
  method WriteChunk(bc: BCache, chunk: seq<Word>, x: nat, pid: nat) returns (ok: bool)
    requires bc.Valid() && Consistent(bc.Abs(), bc.disk.blocks) && |chunk| == CHUNK && pid != 0
    requires x < |bc.disk.blocks| && Holder(bc.Abs(), x) == 0
    modifies bc.buf, bc.next, bc.prev, bc`order, bc.disk
    ensures bc.Valid() && (old(Spare(bc.Abs())) ==> ok)
    ensures ok ==> x < |bc.disk.blocks| && bc.disk.blocks[x][..CHUNK] == chunk
                   && Moved(old(bc.Abs()), old(bc.disk.blocks), bc.Abs(), bc.disk.blocks, x, bc.disk.blocks[x], 0)
    ensures !ok ==> bc.Abs() == old(bc.Abs()) && bc.disk.blocks == old(bc.disk.blocks)
  {
    ghost var c, d := bc.Abs(), bc.disk.blocks;
    var r := bc.Bget(ROOTDEV, x);
    if r.None? { return false; }
    var b := r.value;
    if Caches(c.bufs[b], ROOTDEV, x) { CarrierIs(c, b); }
    assert BufConsistent(c.bufs[b], d);
    PickedRefs(c, x, b);
    ghost var c1 := Cache(c.bufs[b := Buf(true, ROOTDEV, x, Refs(c, x) + 1, pid, View(c, d, x))], c.order);
    var v := HalfWritten(bc.buf[b].data, chunk);
    StoreAndRelease(bc, b, v, pid);
    SingleReleased(c, d, x, pid, b, c1, v, bc.Abs());
    ok := true;
  }

  /** acquiresleep of a free lock, memmove, bwrite and brelse of a referenced buffer. */
  method StoreAndRelease(bc: BCache, b: nat, v: Block, pid: nat)
    requires bc.Valid() && b < NBUF && bc.buf[b].pid == 0 && pid != 0 && bc.buf[b].refcnt > 0
    requires bc.buf[b].blockno < |bc.disk.blocks|
    modifies bc.buf, bc.next, bc.prev, bc`order, bc.disk
    ensures bc.Valid() && bc.disk.blocks == old(bc.disk.blocks)[old(bc.buf[b]).blockno := v]
    ensures bc.Abs().bufs ==
      old(bc.Abs()).bufs[b := old(bc.buf[b]).(data := v, refcnt := old(bc.buf[b]).refcnt - 1)]
  {
    bc.AcquireSleep(b, pid);
    bc.SetData(b, pid, v);
    var ok := bc.Bwrite(b, pid);
    ok := bc.Brelse(b, pid);
  }

  /** write_page_to_disk: afterwards every reader sees the page in the first halves of the eight
      blocks, and nothing else looks different. */
  method WritePage(bc: BCache, page: Page, blk: nat, pid: nat, ghost l: Look) returns (ok: bool)
    requires bc.Valid() && Consistent(bc.Abs(), bc.disk.blocks) && LookOf(bc.Abs(), bc.disk.blocks) == l
    requires Unlocked(l, blk) && pid != 0
    modifies bc.buf, bc.next, bc.prev, bc`order, bc.disk
    ensures bc.Valid() && Consistent(bc.Abs(), bc.disk.blocks) && (old(Spare(bc.Abs())) ==> ok)
    ensures SameBut(l, LookOf(bc.Abs(), bc.disk.blocks), blk, PGCHUNKS)
    ensures ok ==> Stored(LookOf(bc.Abs(), bc.disk.blocks).views, blk, page, PGCHUNKS)
  {
    var i := 0;
    ghost var spare := Spare(bc.Abs());
    while i < PGCHUNKS
      invariant 0 <= i <= PGCHUNKS && bc.Valid() && Consistent(bc.Abs(), bc.disk.blocks)
      invariant spare ==> Spare(bc.Abs())
      invariant SameBut(l, LookOf(bc.Abs(), bc.disk.blocks), blk, i)
      invariant Stored(LookOf(bc.Abs(), bc.disk.blocks).views, blk, page, i)
    {
      ghost var l1 := LookOf(bc.Abs(), bc.disk.blocks);
      ok := WriteChunk(bc, Chunk(page, i), blk + i, pid);
      if !ok { return; }
      ChunkStored(l, l1, LookOf(bc.Abs(), bc.disk.blocks), blk, page, i, bc.disk.blocks[blk + i]);
      i := i + 1;
    }
    return true;
  }

  /** One round of read_page_from_disk. */
  method ReadChunk(bc: BCache, x: nat, pid: nat) returns (r: Option<seq<Word>>)
    requires bc.Valid() && Consistent(bc.Abs(), bc.disk.blocks) && pid != 0
    requires x < |bc.disk.blocks| && Holder(bc.Abs(), x) == 0
    modifies bc.buf, bc.next, bc.prev, bc`order
    ensures bc.Valid() && Consistent(bc.Abs(), bc.disk.blocks)
    ensures LookOf(bc.Abs(), bc.disk.blocks) == old(LookOf(bc.Abs(), bc.disk.blocks))
    ensures old(Spare(bc.Abs())) ==> r.Some? && Spare(bc.Abs())
    ensures r.Some? ==> r.value == old(LookOf(bc.Abs(), bc.disk.blocks)).views[x][..CHUNK]
  {
    ghost var c, d := bc.Abs(), bc.disk.blocks;
    var o := bc.Bread(x, pid);
    if o.None? { return None; }
    var b := o.value;
    ghost var c1 := bc.Abs();
    r := Some(bc.buf[b].data[..CHUNK]);
    ReadsKeeps(c, d, x, pid, b, c1);
    PickedRefs(c, x, b);
    var ok := bc.Brelse(b, pid);
    ReadReleased(c, d, x, pid, b, c1, bc.Abs());
  }

  /** Reading a block and releasing it changes no look. */
  lemma ReadReleased(c: Cache, d: Image, x: nat, pid: nat, i: nat, c1: Cache, c2: Cache)
    requires Consistent(c, d) && x < |d| && Reads(c, d, x, pid, i, c1) && Holder(c, x) == 0 && Wf(c2)
    requires Wf(c1) && c2 == Released(c1, i)
    ensures Consistent(c2, d) && LookOf(c2, d) == LookOf(c, d) && (Spare(c) ==> Spare(c2))
  {
    ReadsKeeps(c, d, x, pid, i, c1);
    PickedRefs(c, x, i);
    if Refs(c, x) == 0 { UnreferencedClean(c, d, x); }
    ReleasedKeeps(c1, d, i);
    var l, l' := LookOf(c, d), LookOf(c2, d);
    forall z | 0 <= z < |d|
      ensures l'.views[z] == l.views[z] && l'.refs[z] == l.refs[z] && l'.holders[z] == l.holders[z]
    {
      assert View(c2, d, z) == View(c1, d, z) == View(c, d, z);
    }
    assert l'.views == l.views && l'.refs == l.refs && l'.holders == l.holders;
    if Spare(c) { StillSpare(c, c2); }
  }

  /** read_page_from_disk: the page whose chunks the first halves of the eight blocks show. */
  method ReadPage(bc: BCache, blk: nat, pid: nat, ghost l: Look) returns (r: Option<Page>)
    requires bc.Valid() && Consistent(bc.Abs(), bc.disk.blocks) && LookOf(bc.Abs(), bc.disk.blocks) == l
    requires Unlocked(l, blk) && pid != 0
    modifies bc.buf, bc.next, bc.prev, bc`order
    ensures bc.Valid() && Consistent(bc.Abs(), bc.disk.blocks) && LookOf(bc.Abs(), bc.disk.blocks) == l
    ensures old(Spare(bc.Abs())) ==> r.Some?
    ensures forall p: Page :: r.Some? && Stored(l.views, blk, p, PGCHUNKS) ==> r.value == p
  {
    var page: seq<Word> := [];
    var i := 0;
    ghost var spare := Spare(bc.Abs());
    while i < PGCHUNKS
      invariant 0 <= i <= PGCHUNKS && bc.Valid() && Consistent(bc.Abs(), bc.disk.blocks)
      invariant LookOf(bc.Abs(), bc.disk.blocks) == l && (spare ==> Spare(bc.Abs()))
      invariant |page| == i * CHUNK
      invariant forall b :: blk <= b < blk + i ==> page[(b - blk) * CHUNK..(b - blk + 1) * CHUNK] == l.views[b][..CHUNK]
    {
      var o := ReadChunk(bc, blk + i, pid);
      if o.None? { return None; }
      page := page + o.value;
      i := i + 1;
    }
    r := Some(page);
    forall p: Page | Stored(l.views, blk, p, PGCHUNKS) ensures page == p {
      forall k | 0 <= k < PGCHUNKS ensures Chunk(page, k) == Chunk(p, k) {
        assert l.views[blk + k][..CHUNK] == Chunk(p, blk + k - blk);
      }
      PageIs(p, page);
    }
  }

  // ---- The round trip over any run ----

  /** Between actions the cache is consistent, and a block whose buffer is not locked looks as its last
      holder left it. */
  lemma LeftIsSeen(s: T.Sys, b: nat)
    requires T.Inv(s) && b < |s.disk| && Holder(s.c, b) == 0
    ensures View(s.c, s.disk, b) == s.left[b]
    ensures forall j: nat :: j < NBUF && Caches(s.c.bufs[j], ROOTDEV, b) ==> !s.dirty[j]
  {
    forall j: nat | j < NBUF && Caches(s.c.bufs[j], ROOTDEV, b)
      ensures !s.dirty[j] && View(s.c, s.disk, b) == s.left[b]
    {
      CarrierIs(s.c, j);
      assert T.BufInv(s, j);
    }
    if !Cached(s.c, ROOTDEV, b) {
      assert Carrier(s.c, b).None?;
    }
  }

  lemma RunConsistent(s: T.Sys)
    requires T.Inv(s)
    ensures Consistent(s.c, s.disk)
  {
    forall i | 0 <= i < NBUF ensures BufConsistent(s.c.bufs[i], s.disk) {
      assert T.BufInv(s, i);
    }
  }

  /** What write_page_to_disk leaves is still there after any run in which no one changes the data of
      these blocks, whatever is read, written, pinned or evicted. */
  lemma SwapSurvives(s: T.Sys, acts: seq<T.Action>, t: T.Sys, blk: nat, p: Page)
    requires T.Inv(s) && Unlocked(LookOf(s.c, s.disk), blk) && Stored(LookOf(s.c, s.disk).views, blk, p, PGCHUNKS)
    requires T.Run(s, acts, t) && T.Sized(t) && Unlocked(LookOf(t.c, t.disk), blk)
    requires forall m, b :: 0 <= m < |acts| && blk <= b < blk + PGCHUNKS ==> !T.ModifiesBlock(s, acts, m, b)
    ensures T.Inv(t) && Stored(LookOf(t.c, t.disk).views, blk, p, PGCHUNKS)
  {
    T.RunInv(s, acts, t);
    forall b | blk <= b < blk + PGCHUNKS ensures LookOf(t.c, t.disk).views[b][..CHUNK] == Chunk(p, b - blk) {
      LeftIsSeen(s, b);
      T.UntouchedBlock(s, acts, t, b);
      LeftIsSeen(t, b);
    }
  }

  /** The swap round trip: s is the state that write_page_to_disk(page, blk) left, the cache now is that
      after any run since then, and read_page_from_disk returns the page. */
  method ReadBack(bc: BCache, blk: nat, pid: nat, ghost page: Page, ghost s: T.Sys, ghost acts: seq<T.Action>,
                  ghost t: T.Sys)
      returns (r: Option<Page>)
    requires T.Inv(s) && Unlocked(LookOf(s.c, s.disk), blk) && Stored(LookOf(s.c, s.disk).views, blk, page, PGCHUNKS)
    requires T.Run(s, acts, t) && T.Sized(t) && Unlocked(LookOf(t.c, t.disk), blk) && pid != 0
    requires forall m, b :: 0 <= m < |acts| && blk <= b < blk + PGCHUNKS ==> !T.ModifiesBlock(s, acts, m, b)
    requires bc.Valid() && bc.Abs() == t.c && bc.disk.blocks == t.disk
    modifies bc.buf, bc.next, bc.prev, bc`order
    ensures r.Some? ==> r.value == page
    ensures old(Spare(bc.Abs())) ==> r.Some?
  {
    SwapSurvives(s, acts, t, blk, page);
    RunConsistent(t);
    r := ReadPage(bc, blk, pid, LookOf(t.c, t.disk));
  }

  /** Every consistent cache, so also the one that write_page_to_disk leaves, is a state that runs start
      from. */
  lemma StartsRuns(c: Cache, d: Image) returns (s: T.Sys)
    requires Consistent(c, d)
    ensures T.Inv(s) && s.c == c && s.disk == d
  {
    var pins := seq(NBUF, i requires 0 <= i < NBUF => Pins(c.bufs[i]));
    var waits := seq(NBUF, i requires 0 <= i < NBUF => Waits(c.bufs[i]));
    var dirty := seq(NBUF, i requires 0 <= i < NBUF => Dirty(c.bufs[i], d));
    var stamp := seq(NBUF, i requires 0 <= i < NBUF => NBUF - 1 - Position(c, i));
    s := T.Sys(c, d, waits, pins, dirty, LookOf(c, d).views, stamp, NBUF);
    forall k, l | 0 <= k < l < NBUF ensures s.stamp[c.order[k]] > s.stamp[c.order[l]] {
      PositionOf(c, k);
      PositionOf(c, l);
    }
    forall i: nat | i < NBUF ensures T.BufInv(s, i) {
      assert BufConsistent(c.bufs[i], d);
      if c.bufs[i].dev == ROOTDEV { CarrierIs(c, i); }
    }
    forall b | 0 <= b < |d| && !Cached(c, ROOTDEV, b) ensures d[b] == s.left[b] {
      assert Carrier(c, b).None?;
    }
  }

  lemma PositionOf(c: Cache, k: nat)
    requires Wf(c) && k < NBUF
    ensures Position(c, c.order[k]) == k
  {
  }

  /** One way to account for the references of a buffer: beside the holder, all others are pins of a
      valid buffer, or wait for an invalid one. */
  function Others(b: Buf): nat { if b.pid != 0 && b.refcnt > 0 then b.refcnt - 1 else b.refcnt }

  function Pins(b: Buf): nat { if b.valid then Others(b) else 0 }

  function Waits(b: Buf): nat { if b.valid then 0 else Others(b) }

  predicate Dirty(b: Buf, d: Image)
  {
    b.pid != 0 && b.valid && Pins(b) == 0 && b.dev == ROOTDEV && b.blockno < |d| && b.data != d[b.blockno]
  }
}
