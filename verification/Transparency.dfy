/** The buffer cache under concurrent use: every critical section is one action, any
    interleaving of actions is a run, and the cache is invisible to disciplined holders. */
module Transparency {
  import opened Blocks
  import opened Ring
  import opened CacheSpec

  /** The cache and the disk, with the bookkeeping that the claims need: per buffer the number
      of processes waiting in acquiresleep, the number of pins, whether the current holder
      changed the data, and when it was last released; per block the contents left by the last
      holder that changed it. */
  datatype Sys = Sys(c: Cache, disk: Image, waits: seq<nat>, pins: seq<nat>, dirty: seq<bool>,
                     left: Image, stamp: seq<nat>, clock: nat)

  datatype Action =
    | Get(blockno: nat, i: nat)      // bget under bcache.lock: one more reference, now waiting
    | Acquire(i: nat, pid: nat)      // acquiresleep finds the lock free
    | Fill(i: nat)                   // bread reads an invalid buffer from disk
    | Modify(i: nat, v: Block)       // the holder changes the data
    | Write(i: nat)                  // bwrite
    | Release(i: nat)                // brelse
    | Pin(i: nat)                    // bpin
    | Unpin(i: nat)                  // bunpin

  predicate Sized(s: Sys)
  {
    && |s.c.bufs| == |s.waits| == |s.pins| == |s.dirty| == |s.stamp| == NBUF
    && |s.left| == |s.disk|
  }

  predicate Held(s: Sys, i: nat)
    requires Sized(s)
  {
    i < NBUF && s.c.bufs[i].pid != 0 && s.c.bufs[i].dev == ROOTDEV && s.c.bufs[i].blockno < |s.disk|
  }

  /** The buffer's data is what the disk holds. */
  predicate Clean(s: Sys, i: nat)
    requires Sized(s) && Held(s, i)
  {
    s.c.bufs[i].data == s.disk[s.c.bufs[i].blockno]
  }

  /** When the code may take the action, including what bio.c asks of its callers: a holder that
      changed the data writes it or has it pinned before releasing it, and bunpin is called by a
      holder that has written the data. */
  ghost predicate Enabled(s: Sys, a: Action)
  {
    && Sized(s) && Wf(s.c)
    && match a
       case Get(b, i) => b < |s.disk| && Picks(s.c, ROOTDEV, b, i)
       case Acquire(i, p) => i < NBUF && s.waits[i] > 0 && s.c.bufs[i].pid == 0 && p != 0
       case Fill(i) => Held(s, i) && !s.c.bufs[i].valid && !s.dirty[i]
       case Modify(i, v) => Held(s, i)
       case Write(i) => Held(s, i) && (s.c.bufs[i].valid || s.dirty[i])
       case Release(i) => (Held(s, i) && s.c.bufs[i].refcnt > 0
                           && (s.dirty[i] ==> Clean(s, i) || s.pins[i] > 0))
       case Pin(i) => Held(s, i) && s.c.bufs[i].valid
       case Unpin(i) => (Held(s, i) && s.pins[i] > 0 && s.c.bufs[i].refcnt > 0
                         && (Clean(s, i) || s.pins[i] > 1))
  }

  function SetBuf(s: Sys, i: nat, b: Buf): Sys
    requires i < |s.c.bufs|
  {
    s.(c := s.c.(bufs := s.c.bufs[i := b]))
  }

  /** The state after an enabled action. */
  ghost function Step(s: Sys, a: Action): Sys
    requires Enabled(s, a)
  {
    match a
    case Get(b, i) => s.(c := Got(s.c, ROOTDEV, b, i), waits := s.waits[i := s.waits[i] + 1])
    case Acquire(i, p) => SetBuf(s, i, s.c.bufs[i].(pid := p)).(waits := s.waits[i := s.waits[i] - 1])
    case Fill(i) => SetBuf(s, i, s.c.bufs[i].(data := s.disk[s.c.bufs[i].blockno], valid := true))
    case Modify(i, v) => SetBuf(s, i, s.c.bufs[i].(data := v)).(dirty := s.dirty[i := true])
    case Write(i) => s.(disk := s.disk[s.c.bufs[i].blockno := s.c.bufs[i].data])
    case Release(i) =>
      var b := s.c.bufs[i];
      s.(c := Released(s.c, i), dirty := s.dirty[i := false],
         left := if s.dirty[i] then s.left[b.blockno := b.data] else s.left,
         stamp := if b.refcnt == 1 then s.stamp[i := s.clock] else s.stamp,
         clock := s.clock + 1)
    case Pin(i) => SetBuf(s, i, s.c.bufs[i].(refcnt := s.c.bufs[i].refcnt + 1)).(pins := s.pins[i := s.pins[i] + 1])
    case Unpin(i) => SetBuf(s, i, s.c.bufs[i].(refcnt := s.c.bufs[i].refcnt - 1)).(pins := s.pins[i := s.pins[i] - 1])
  }

  /** What holds of each buffer between actions. */
  ghost predicate BufInv(s: Sys, i: nat)
    requires Sized(s) && i < NBUF
  {
    var b := s.c.bufs[i];
    && b.dev <= ROOTDEV
    && b.refcnt == s.waits[i] + s.pins[i] + (if b.pid != 0 then 1 else 0)
    && (b.dev == 0 ==> b.refcnt == 0)
    && (b.pid == 0 ==> !s.dirty[i])
    && (s.pins[i] > 0 ==> b.valid)
    && (b.dev == ROOTDEV ==>
          && b.blockno < |s.disk|
          && (!s.dirty[i] ==> (if b.valid then b.data else s.disk[b.blockno]) == s.left[b.blockno])
          && (!s.dirty[i] && b.valid && s.pins[i] == 0 ==> b.data == s.disk[b.blockno]))
  }

  /** The list order is the order of release. */
  ghost predicate SortedByRelease(s: Sys)
    requires Sized(s) && Wf(s.c)
  {
    && (forall k, l :: 0 <= k < l < NBUF ==> s.stamp[s.c.order[k]] > s.stamp[s.c.order[l]])
    && forall i :: 0 <= i < NBUF ==> s.stamp[i] < s.clock
  }

  ghost predicate Inv(s: Sys)
  {
    && Sized(s) && Wf(s.c) && Unique(s.c) && SortedByRelease(s)
    && (forall i: nat :: i < NBUF ==> BufInv(s, i))
    && forall b :: 0 <= b < |s.disk| && !Cached(s.c, ROOTDEV, b) ==> s.disk[b] == s.left[b]
  }

  /** The state that binit leaves, over any disk. */
  ghost predicate Init(s: Sys)
  {
    && Sized(s)
    && (forall i :: 0 <= i < NBUF ==> s.c.bufs[i] == Buf(false, 0, 0, 0, 0, s.c.bufs[i].data))
    && |s.c.order| == NBUF && (forall k :: 0 <= k < NBUF ==> s.c.order[k] == NBUF - 1 - k)
    && (forall i :: 0 <= i < NBUF ==> s.waits[i] == 0 && s.pins[i] == 0 && !s.dirty[i] && s.stamp[i] == i)
    && s.left == s.disk && s.clock == NBUF
  }

  ghost predicate Run(s: Sys, acts: seq<Action>, t: Sys)
    decreases |acts|
  {
    if acts == [] then t == s
    else Enabled(s, acts[0]) && Run(Step(s, acts[0]), acts[1..], t)
  }

  lemma InitInv(s: Sys)
    requires Init(s)
    ensures Inv(s)
  {
    forall i: nat | i < NBUF ensures i in s.c.order {
      assert s.c.order[NBUF - 1 - i] == i;
    }
  }

  lemma StepGet(s: Sys, b: nat, i: nat)
    requires Inv(s) && Enabled(s, Get(b, i))
    ensures Inv(Step(s, Get(b, i)))
  {
    var t := Step(s, Get(b, i));
    assert BufInv(s, i);
    if Cached(s.c, ROOTDEV, b) {
      forall j: nat | j < NBUF ensures BufInv(t, j) { assert BufInv(s, j); }
      forall x | 0 <= x < |t.disk| && !Cached(t.c, ROOTDEV, x) ensures !Cached(s.c, ROOTDEV, x) {
        if j :| 0 <= j < NBUF && Caches(s.c.bufs[j], ROOTDEV, x) {
          assert Caches(t.c.bufs[j], ROOTDEV, x);
        }
      }
    } else {
      assert !Caches(s.c.bufs[i], ROOTDEV, b);
      assert s.disk[b] == s.left[b];
      forall j: nat | j < NBUF ensures BufInv(t, j) { assert BufInv(s, j); }
      forall x | 0 <= x < |t.disk| && !Cached(t.c, ROOTDEV, x) ensures t.disk[x] == t.left[x] {
        if Cached(s.c, ROOTDEV, x) {
          var j :| 0 <= j < NBUF && Caches(s.c.bufs[j], ROOTDEV, x);
          assert Caches(t.c.bufs[j], ROOTDEV, x) || j == i;
        }
      }
    }
  }

  /** Changing a buffer without changing which block it carries keeps the shape invariants. */
  lemma SameBlocks(s: Sys, t: Sys)
    requires Sized(s) && Sized(t) && Wf(s.c) && Unique(s.c)
    requires forall i :: 0 <= i < NBUF ==>
      t.c.bufs[i].dev == s.c.bufs[i].dev && t.c.bufs[i].blockno == s.c.bufs[i].blockno
    ensures Unique(t.c)
    ensures forall b :: Cached(t.c, ROOTDEV, b) <==> Cached(s.c, ROOTDEV, b)
  {
    forall b ensures Cached(t.c, ROOTDEV, b) <==> Cached(s.c, ROOTDEV, b) {
      if j :| 0 <= j < NBUF && Caches(s.c.bufs[j], ROOTDEV, b) {
        assert Caches(t.c.bufs[j], ROOTDEV, b);
      }
    }
  }

  lemma StepRelease(s: Sys, i: nat)
    requires Inv(s) && Enabled(s, Release(i))
    ensures Inv(Step(s, Release(i)))
  {
    var t := Step(s, Release(i));
    ReleasedWf(s.c, i);
    SameBlocks(s, t);
    assert BufInv(s, i);
    forall j: nat | j < NBUF ensures BufInv(t, j) {
      assert BufInv(s, j);
      if j != i && s.c.bufs[j].dev == ROOTDEV && s.c.bufs[j].blockno == s.c.bufs[i].blockno {
        assert Caches(s.c.bufs[j], ROOTDEV, s.c.bufs[i].blockno);
      }
    }
    assert Caches(s.c.bufs[i], ROOTDEV, s.c.bufs[i].blockno);
    ReleaseSorted(s, i);
  }

  lemma ReleaseSorted(s: Sys, i: nat)
    requires Inv(s) && Enabled(s, Release(i)) && Wf(Step(s, Release(i)).c)
    ensures SortedByRelease(Step(s, Release(i)))
  {
    var t := Step(s, Release(i));
    if s.c.bufs[i].refcnt == 1 {
      var p := Position(s.c, i);
      forall k, l | 0 <= k < l < NBUF ensures t.stamp[t.c.order[k]] > t.stamp[t.c.order[l]] {
        var l' := if l <= p then l - 1 else l;
        assert t.c.order[l] == s.c.order[l'] && s.c.order[l'] != i;
        if k > 0 {
          var k' := if k <= p then k - 1 else k;
          assert t.c.order[k] == s.c.order[k'] && s.c.order[k'] != i;
        }
      }
    }
  }

  lemma StepOther(s: Sys, a: Action)
    requires Inv(s) && Enabled(s, a) && !a.Get? && !a.Release?
    ensures Inv(Step(s, a))
  {
    var t := Step(s, a);
    assert BufInv(s, a.i);
    SameBlocks(s, t);
    assert Caches(s.c.bufs[a.i], s.c.bufs[a.i].dev, s.c.bufs[a.i].blockno);
    forall j: nat | j < NBUF ensures BufInv(t, j) {
      assert BufInv(s, j);
      if j != a.i && s.c.bufs[j].dev == ROOTDEV {
        assert a.Write? ==> !Caches(s.c.bufs[j], ROOTDEV, s.c.bufs[a.i].blockno);
      }
    }
  }

  lemma StepInv(s: Sys, a: Action)
    requires Inv(s) && Enabled(s, a)
    ensures Inv(Step(s, a))
  {
    match a
    case Get(b, i) => StepGet(s, b, i);
    case Release(i) => StepRelease(s, i);
    case _ => StepOther(s, a);
  }

  lemma {:induction false} RunInv(s: Sys, acts: seq<Action>, t: Sys)
    requires Inv(s) && Run(s, acts, t)
    ensures Inv(t)
    decreases |acts|
  {
    if acts != [] {
      StepInv(s, acts[0]);
      RunInv(Step(s, acts[0]), acts[1..], t);
    }
  }

  /** Cache transparency: in every reachable state at most one buffer carries a block, and a
      process that has completed bread sees the contents that the last disciplined holder left,
      whatever was evicted in between. */
  lemma Transparent(s: Sys, acts: seq<Action>, t: Sys)
    requires Init(s) && Run(s, acts, t)
    ensures Sized(t) && Wf(t.c) && Unique(t.c)
    ensures forall i :: 0 <= i < NBUF && t.c.bufs[i].pid != 0 && t.c.bufs[i].valid && !t.dirty[i] ==>
      t.c.bufs[i].blockno < |t.left| && t.c.bufs[i].data == t.left[t.c.bufs[i].blockno]
  {
    InitInv(s);
    RunInv(s, acts, t);
    forall i | 0 <= i < NBUF && t.c.bufs[i].pid != 0 ensures BufInv(t, i) && t.c.bufs[i].dev != 0 {
      assert BufInv(t, i);
    }
  }

  /** A miss recycles the unreferenced buffer that was released longest ago. */
  lemma RecyclesLeastRecentlyReleased(s: Sys, acts: seq<Action>, t: Sys, b: nat, i: nat, j: nat)
    requires Init(s) && Run(s, acts, t) && Enabled(t, Get(b, i)) && !Cached(t.c, ROOTDEV, b)
    requires j < NBUF && j != i && t.c.bufs[j].refcnt == 0
    ensures t.c.bufs[i].refcnt == 0 && t.stamp[i] < t.stamp[j]
  {
    InitInv(s);
    RunInv(s, acts, t);
    var l := Position(t.c, j);
  }

  /** A run that never modifies a block's buffer leaves the block's contents as they were. */
  lemma {:induction false} UntouchedBlock(s: Sys, acts: seq<Action>, t: Sys, b: nat)
    requires Inv(s) && Run(s, acts, t) && b < |s.disk|
    requires forall i: nat :: i < NBUF && Caches(s.c.bufs[i], ROOTDEV, b) ==> !s.dirty[i]
    requires forall k :: 0 <= k < |acts| ==> !ModifiesBlock(s, acts, k, b)
    ensures Inv(t) && |t.left| == |s.left| && t.left[b] == s.left[b]
    decreases |acts|
  {
    if acts != [] {
      var u := Step(s, acts[0]);
      StepInv(s, acts[0]);
      assert !ModifiesBlock(s, acts, 0, b);
      forall i: nat | i < NBUF && Caches(u.c.bufs[i], ROOTDEV, b) ensures !u.dirty[i] {
        assert BufInv(s, i);
      }
      forall k | 0 <= k < |acts| - 1 ensures !ModifiesBlock(u, acts[1..], k, b) {
        assert !ModifiesBlock(s, acts, k + 1, b);
      }
      UntouchedBlock(u, acts[1..], t, b);
    }
  }

  /** Action k of the run is a Modify of the buffer that carries block b at that time. */
  ghost predicate ModifiesBlock(s: Sys, acts: seq<Action>, k: nat, b: nat)
    requires k < |acts|
    decreases k
  {
    Enabled(s, acts[0]) &&
    if k == 0 then acts[0].Modify? && Caches(s.c.bufs[acts[0].i], ROOTDEV, b)
    else ModifiesBlock(Step(s, acts[0]), acts[1..], k - 1, b)
  }
}
