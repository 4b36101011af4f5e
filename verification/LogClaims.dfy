/** What the log promises its callers over every run: durability, reserved space, no needless
    sleepers, and exactly when it panics. */
module LogClaims {
  import opened Blocks
  import opened CacheSpec
  import opened Transparency
  import opened LogFormat
  import opened GroupCommit
  import opened GroupCommitProof

  ghost predicate Extends(w: World, v: World)
  {
    && w.durable <= v.durable <= |v.trace| && w.durable <= |w.trace| && v.base == w.base
    && v.trace[..w.durable] == w.trace[..w.durable]
  }

  lemma DurableStep(g: Geometry, w: World, l: Label)
    requires WorldInv(g, w) && CanStep(g, w, l)
    ensures Extends(w, Next(g, w, l))
  {
    hide UpInv, DiskInv, Current, SameHome, NotTorn, AllEnded, NextUp, CanStepUp;
    WorldStep(g, w, l);
  }

  lemma ExtendsTransitive(w: World, u: World, v: World)
    requires Extends(w, u) && Extends(u, v)
    ensures Extends(w, v)
  {
    assert v.trace[..w.durable] == v.trace[..u.durable][..w.durable];
    assert u.trace[..w.durable] == u.trace[..u.durable][..w.durable];
  }

  /** What is durable stays durable: every run, crashes included, extends the durable history. */
  lemma {:induction false} DurableGrows(g: Geometry, w: World, ls: seq<Label>, v: World)
    requires WorldInv(g, w) && Reaches(g, w, ls, v)
    ensures Extends(w, v)
    decreases |ls|
  {
    if ls != [] {
      DurableStep(g, w, ls[0]);
      WorldStep(g, w, ls[0]);
      DurableGrows(g, Next(g, w, ls[0]), ls[1..], v);
      ExtendsTransitive(w, Next(g, w, ls[0]), v);
    }
  }

  /** When the end_op that commits returns, everything that was visible is durable. */
  lemma CommittedWhenDone(g: Geometry, w: World, ls: seq<Label>, v: World, p: nat)
    requires Start(g, w) && Reaches(g, w, ls, v) && CanStep(g, v, Finish(p)) && v.durable <= |v.trace|
    ensures var u := Next(g, v, Finish(p));
      SameHome(g, Apply(u.base, u.trace), Apply(u.base, u.trace[..u.durable]))
  {
    StartInv(g, w);
    ReachesInv(g, w, ls, v);
    WorldStep(g, v, Finish(p));
    assert Next(g, v, Finish(p)).trace == v.trace;
  }

  /** Reserved space: the logged blocks and the blocks that running operations may still add fit;
      a sleeper in begin_op has a reason, and there is none when nothing runs or commits; while
      a commit runs no operation does. */
  lemma Reservation(g: Geometry, w: World, ls: seq<Label>, v: World)
    requires Start(g, w) && Reaches(g, w, ls, v) && v.m.Up?
    ensures var s := v.m.s;
      && |s.lh| + Budgets(s.procs) <= LOGSIZE && s.outstanding == Ops(s.procs)
      && (s.committing ==> s.outstanding == 0)
      && (forall p :: 0 <= p < |s.procs| && s.procs[p].Asleep? ==> MustWait(s))
      && (s.outstanding == 0 && !s.committing ==> forall p :: 0 <= p < |s.procs| ==> !s.procs[p].Asleep?)
  {
    StartInv(g, w);
    ReachesInv(g, w, ls, v);
  }

  /** Blocks logged and not yet installed keep their buffer: it is referenced, so bget never
      recycles it, and once nobody changes it it holds the current contents. */
  lemma PinnedNeverRecycled(g: Geometry, w: World, ls: seq<Label>, v: World, b: nat)
    requires Start(g, w) && Reaches(g, w, ls, v) && v.m.Up? && b in Pinned(v.m.s)
    ensures var io := v.m.s.io;
      Sized(io) && Wf(io.c) && exists i ::
        && 0 <= i < NBUF && Caches(io.c.bufs[i], ROOTDEV, b) && io.c.bufs[i].valid && !Victim(io.c, i)
        && (!io.dirty[i] ==> b < |io.left| && io.c.bufs[i].data == io.left[b])
  {
    StartInv(g, w);
    ReachesInv(g, w, ls, v);
    var s := v.m.s;
    assert Cached(s.io.c, ROOTDEV, b);
    var i :| 0 <= i < NBUF && Caches(s.io.c.bufs[i], ROOTDEV, b);
    assert PinInv(s, i) && BufInv(s.io, i);
  }

  /** log_write by an operation panics exactly when the in-memory list or the log area is full. A log
      area of more than LOGSIZE blocks never stops an operation that has budget left; then the list is
      full only when no operation has any, so what panics is a block that is logged already. */
  lemma WithinBudgetPanics(g: Geometry, w: World, ls: seq<Label>, v: World, p: nat)
    requires Start(g, w) && Reaches(g, w, ls, v) && v.m.Up?
    requires p < |v.m.s.procs| && v.m.s.procs[p].InOp?
    ensures LogWritePanics(g, v.m.s) <==> |v.m.s.lh| == LOGSIZE || |v.m.s.lh| == g.size - 1
    ensures v.m.s.procs[p].budget > 0 ==> (LogWritePanics(g, v.m.s) <==> |v.m.s.lh| == g.size - 1)
    ensures LogWritePanics(g, v.m.s) && g.size > LOGSIZE ==> v.m.s.procs[p].budget == 0
  {
    StartInv(g, w);
    ReachesInv(g, w, ls, v);
    OpsAtLeast(v.m.s.procs, p);
  }

  // ---- When bget finds no buffer ----

  lemma CarrierOf(c: Cache, x: nat) returns (i: nat)
    requires Cached(c, ROOTDEV, x)
    ensures i < |c.bufs| && c.bufs[i].dev == ROOTDEV && c.bufs[i].blockno == x
  {
    i :| 0 <= i < |c.bufs| && Caches(c.bufs[i], ROOTDEV, x);
  }

  lemma {:induction false} AtMost(n: nat, used: set<nat>)
    requires forall i :: i in used ==> i < n
    ensures |used| <= n
  {
    if n > 0 {
      AtMost(n - 1, used - {n - 1});
    } else {
      assert used == {};
    }
  }

  lemma {:induction false} AtLeast(n: nat, used: set<nat>)
    requires forall i: nat :: i < n ==> i in used
    ensures |used| >= n
  {
    if n > 0 {
      AtLeast(n - 1, used - {n - 1});
    }
  }

  /** bget does not panic with "no buffers". */
  ghost predicate BgetSucceeds(c: Cache, b: nat)
  {
    Cached(c, ROOTDEV, b) || Spare(c)
  }

  /** The blocks that keep a buffer: those logged and not yet installed, and those whose buffer some
      process holds or waits for. */
  ghost function Busy(s: State): set<nat>
    requires Sized(s.io)
  {
    Elements(Pinned(s)) + HeldBlocks(s.io)
  }

  function Elements(bs: seq<nat>): set<nat> { set b | b in bs }

  ghost function HeldBlocks(io: Sys): set<nat>
    requires Sized(io)
  {
    set i: nat | i < NBUF && (io.waits[i] > 0 || io.c.bufs[i].pid != 0) :: io.c.bufs[i].blockno
  }

  /** The buffers that bget cannot recycle. */
  ghost function Referenced(c: Cache): set<nat> { set i: nat | i < |c.bufs| && c.bufs[i].refcnt != 0 }

  ghost function BlocksOf(c: Cache, r: set<nat>): set<nat>
    requires forall i :: i in r ==> i < |c.bufs|
  {
    set i | i in r :: c.bufs[i].blockno
  }

  lemma {:induction false} BlocksCount(c: Cache, r: set<nat>)
    requires Unique(c) && forall i :: i in r ==> i < |c.bufs| && c.bufs[i].dev == ROOTDEV
    ensures |BlocksOf(c, r)| == |r|
    decreases |r|
  {
    if r == {} {
      assert BlocksOf(c, r) == {};
    } else {
      var i :| i in r;
      BlocksCount(c, r - {i});
      OneMoreBlock(c, r, i);
    }
  }

  lemma OneMoreBlock(c: Cache, r: set<nat>, i: nat)
    requires Unique(c) && i in r && forall j :: j in r ==> j < |c.bufs| && c.bufs[j].dev == ROOTDEV
    ensures c.bufs[i].blockno !in BlocksOf(c, r - {i})
    ensures BlocksOf(c, r) == BlocksOf(c, r - {i}) + {c.bufs[i].blockno}
  {
    forall j | j in r - {i} ensures c.bufs[j].blockno != c.bufs[i].blockno {
      assert !Caches(c.bufs[if i < j then j else i], ROOTDEV, c.bufs[if i < j then i else j].blockno);
    }
  }

  /** A buffer is referenced exactly when its block is busy. */
  lemma ReferencedIsBusy(s: State)
    requires Transparency.Inv(s.io) && Pins(s)
    ensures BlocksOf(s.io.c, Referenced(s.io.c)) == Busy(s)
    ensures forall i :: i in Referenced(s.io.c) ==> s.io.c.bufs[i].dev == ROOTDEV
  {
    var c, r := s.io.c, Referenced(s.io.c);
    forall i: nat | i < NBUF
      ensures i in r <==> s.io.waits[i] > 0 || c.bufs[i].pid != 0
                          || (c.bufs[i].dev == ROOTDEV && c.bufs[i].blockno in Pinned(s))
      ensures i in r ==> c.bufs[i].dev == ROOTDEV
    {
      assert PinInv(s, i) && BufInv(s.io, i);
    }
    forall b | b in Pinned(s) ensures b in BlocksOf(c, r) {
      var i := CarrierOf(c, b);
      assert i in r;
    }
  }

  /** In every reachable state, bget panics exactly for a block that is not cached while the blocks that
      are logged, held or awaited number NBUF; they never number more. */
  lemma CommitFindsBuffer(g: Geometry, w: World, ls: seq<Label>, v: World, b: nat)
    requires Start(g, w) && Reaches(g, w, ls, v) && v.m.Up?
    ensures Sized(v.m.s.io) && |Busy(v.m.s)| <= NBUF
    ensures BgetSucceeds(v.m.s.io.c, b) <==> Cached(v.m.s.io.c, ROOTDEV, b) || |Busy(v.m.s)| < NBUF
  {
    StartInv(g, w);
    ReachesInv(g, w, ls, v);
    SpareIff(v.m.s);
  }

  lemma SpareIff(s: State)
    requires Transparency.Inv(s.io) && Pins(s)
    ensures |Busy(s)| <= NBUF && (Spare(s.io.c) <==> |Busy(s)| < NBUF)
  {
    var r := Referenced(s.io.c);
    ReferencedIsBusy(s);
    BlocksCount(s.io.c, r);
    AtMost(NBUF, r);
    if !Spare(s.io.c) {
      AtLeast(NBUF, r);
    } else {
      var i :| 0 <= i < NBUF && s.io.c.bufs[i].refcnt == 0;
      AtMost(NBUF, r + {i});
    }
  }

  /** When all buffers are busy, a log block is cached only if its own buffer is held or awaited. */
  lemma CachedIsBusy(s: State, b: nat)
    requires Transparency.Inv(s.io) && Pins(s) && |Busy(s)| == NBUF && Cached(s.io.c, ROOTDEV, b)
    ensures b in Busy(s)
  {
    SpareIff(s);
    ReferencedIsBusy(s);
    var i := CarrierOf(s.io.c, b);
    assert i in Referenced(s.io.c);
  }

  /** With no other user of the cache, a commit gets a buffer for a log block exactly when fewer than
      NBUF blocks are logged. */
  lemma CommitAlone(g: Geometry, w: World, ls: seq<Label>, v: World, b: nat)
    requires Start(g, w) && Reaches(g, w, ls, v) && v.m.Up? && v.m.s.phase.WriteLog? && g.InLog(b)
    requires Sized(v.m.s.io) && forall i :: 0 <= i < NBUF ==> v.m.s.io.waits[i] == 0 && v.m.s.io.c.bufs[i].pid == 0
    ensures BgetSucceeds(v.m.s.io.c, b) <==> |v.m.s.lh| < NBUF
  {
    hide Start, Reaches, WorldInv, Spare, Cached;
    StartInv(g, w);
    ReachesInv(g, w, ls, v);
    CacheFacts(g, v);
    SpareIff(v.m.s);
    assert Busy(v.m.s) == Elements(v.m.s.lh);
    Distinctly(v.m.s.lh);
    if |v.m.s.lh| == NBUF && Cached(v.m.s.io.c, ROOTDEV, b) {
      CachedIsBusy(v.m.s, b);
    }
  }

  lemma CacheFacts(g: Geometry, w: World)
    requires WorldInv(g, w) && w.m.Up?
    ensures Transparency.Inv(w.m.s.io) && Pins(w.m.s) && Loggable(g, |w.m.s.io.disk|, w.m.s.lh)
  {
  }

  lemma {:induction false} Distinctly(bs: seq<nat>)
    requires Distinct(bs)
    ensures |Elements(bs)| == |bs|
  {
    if bs == [] {
      assert Elements(bs) == {};
    } else {
      var b, rest := bs[|bs| - 1], bs[..|bs| - 1];
      Distinctly(rest);
      assert bs == rest + [b] && b !in rest;
      assert Elements(bs) == Elements(rest) + {b};
    }
  }
}
