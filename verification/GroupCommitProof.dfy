/** The invariant of the log over the cache, and what follows for every run. */
module GroupCommitProof {
  import opened Blocks
  import opened CacheSpec
  import opened Transparency
  import opened LogFormat
  import opened GroupCommit

  /** The blocks whose buffers are pinned: logged and not yet installed. */
  function Pinned(s: State): seq<nat>
  {
    if s.phase.Install? && s.phase.t <= |s.lh| then s.lh[s.phase.t..] else s.lh
  }

  /** The in-memory log and the process table. */
  ghost predicate Accounting(g: Geometry, s: State)
  {
    && Sized(s.io) && g.Fits(s.io.disk) && Loggable(g, |s.io.disk|, s.lh)
    && s.outstanding == Ops(s.procs)
    && |s.lh| + Budgets(s.procs) <= LOGSIZE
    && (forall p :: 0 <= p < |s.procs| && s.procs[p].InOp? ==> s.procs[p].budget <= MAXOPBLOCKS)
    && (s.committing <==> s.phase != Quiet)
    && (s.committing ==> s.outstanding == 0)
    && (s.outstanding == 0 && !s.committing ==> s.lh == [])
    && (s.phase.WriteLog? ==> s.phase.t <= |s.lh| && s.lh != [])
    && (s.phase.Install? ==> s.phase.t <= |s.lh| && s.lh != [])
    && (s.phase.Finished? ==> s.lh == [])
  }

  /** No process sleeps in begin_op without cause. */
  ghost predicate Sleepers(s: State)
  {
    forall p :: 0 <= p < |s.procs| && s.procs[p].Asleep? ==> MustWait(s)
  }

  /** Exactly the logged, uninstalled blocks are pinned, once each, in the cache. */
  ghost predicate Pins(s: State)
    requires Sized(s.io)
  {
    && (forall i :: 0 <= i < NBUF ==> PinInv(s, i))
    && forall b :: b in Pinned(s) ==> Cached(s.io.c, ROOTDEV, b)
  }

  predicate PinInv(s: State, i: nat)
    requires Sized(s.io) && i < NBUF
  {
    var b := s.io.c.bufs[i];
    s.io.pins[i] == if b.dev == ROOTDEV && b.blockno in Pinned(s) then 1 else 0
  }

  /** Only an operation holds changes that the disk does not have. */
  ghost predicate DirtyBuffers(g: Geometry, s: State)
    requires Sized(s.io)
  {
    forall i :: 0 <= i < NBUF ==> DirtyInv(g, s, i)
  }

  ghost predicate DirtyInv(g: Geometry, s: State, i: nat)
    requires Sized(s.io) && i < NBUF
  {
    var b := s.io.c.bufs[i];
    s.io.dirty[i] && !DirtyByOp(g, s, i) ==>
      && b.valid && b.blockno < |s.io.disk| && b.data == s.io.disk[b.blockno]
      && (!g.InLog(b.blockno) ==> b.data == s.io.left[b.blockno])
  }

  /** What is on disk, phase by phase, against the durable image and the current contents. */
  ghost predicate DiskInv(g: Geometry, s: State, dur: Image)
    requires Sized(s.io) && g.Fits(s.io.disk)
  {
    var d, left, n := s.io.disk, s.io.left, |s.lh|;
    && |dur| == |d|
    && match s.phase
       case Quiet => d[g.start][0] == 0 && SameHome(g, d, dur) && SameExcept(g, left, dur, s.lh)
       case WriteLog(t) => (
         && d[g.start][0] == 0 && SameHome(g, d, dur) && SameExcept(g, left, dur, s.lh)
         && LogHolds(g, s, t))
       case Install(t) => (
         && HeaderOk(g, |d|, d[g.start]) && Decode(d[g.start]) == s.lh
         && SameHome(g, left, dur) && SameExcept(g, d, dur, Pinned(s)) && LogHolds(g, s, n))
       case Finished => d[g.start][0] == 0 && SameHome(g, d, dur) && SameHome(g, left, dur)
  }

  /** The first t log data blocks hold the current contents of the first t logged blocks. */
  ghost predicate LogHolds(g: Geometry, s: State, t: nat)
    requires Sized(s.io) && g.Fits(s.io.disk)
  {
    && t <= |s.lh| < g.size
    && forall k :: 0 <= k < t ==> s.lh[k] < |s.io.left| && s.io.disk[g.start + 1 + k] == s.io.left[s.lh[k]]
  }

  ghost predicate SameExcept(g: Geometry, d: Image, e: Image, bs: seq<nat>)
  {
    |d| == |e| && forall b :: 0 <= b < |d| && !g.InLog(b) && b !in bs ==> d[b] == e[b]
  }

  /** The history: what is durable, what is still going on. */
  ghost predicate History(w: World)
  {
    && w.durable <= |w.trace|
    && NotTorn(w.trace, w.durable) && AllEnded(w.trace, w.durable)
    && forall i :: 0 <= i < |w.trace| ==> w.trace[i].op < w.nextop
  }

  /** The operations in progress are distinct and have no durable events. */
  ghost predicate CurrentOps(s: State, w: World)
    requires w.durable <= |w.trace|
  {
    && (forall p :: 0 <= p < |s.procs| && s.procs[p].InOp? ==> s.procs[p].op < w.nextop)
    && (forall p, i :: 0 <= p < |s.procs| && s.procs[p].InOp? && 0 <= i < |w.trace| ==>
          w.trace[i].op == s.procs[p].op ==> w.durable <= i && !w.trace[i].End?)
    && (forall p, q :: 0 <= p < q < |s.procs| && s.procs[p].InOp? && s.procs[q].InOp? ==>
          s.procs[p].op != s.procs[q].op)
  }

  /** Every operation with events has ended or is in progress. */
  ghost predicate EndedOrRunning(s: State, w: World)
  {
    forall i :: 0 <= i < |w.trace| ==> End(w.trace[i].op) in w.trace || Running(s, w.trace[i].op)
  }

  ghost predicate Current(s: State, w: World)
    requires w.durable <= |w.trace|
  {
    CurrentOps(s, w) && EndedOrRunning(s, w)
  }

  ghost predicate Running(s: State, op: nat)
  {
    exists p :: 0 <= p < |s.procs| && s.procs[p].InOp? && s.procs[p].op == op
  }

  ghost function Durable(w: World): (r: Image)
    requires w.durable <= |w.trace|
    ensures |r| == |w.base|
  {
    Apply(w.base, w.trace[..w.durable])
  }

  ghost predicate UpInv(g: Geometry, s: State)
  {
    && Transparency.Inv(s.io) && Accounting(g, s) && Sleepers(s) && Pins(s) && DirtyBuffers(g, s)
  }

  ghost predicate WorldInv(g: Geometry, w: World)
  {
    && History(w)
    && match w.m
       case Up(s) => (
         && UpInv(g, s) && DiskInv(g, s, Durable(w)) && Current(s, w)
         && SameHome(g, s.io.left, Apply(w.base, w.trace))
         && (s.phase.Install? ==> w.durable == |w.trace|))
       case Recovering(d, k) => (
         && Recoverable(g, d) && k <= d[g.start][0] + 1 && w.durable == |w.trace|
         && SameHome(g, Recovered(g, d), Durable(w)))
  }

  // ---- Cache activity ----

  lemma IoPins(g: Geometry, s: State, a: Action)
    requires UpInv(g, s) && IoOk(g, s, a)
    ensures Pins(s.(io := Step(s.io, a)))
  {
    var t := s.(io := Step(s.io, a));
    var i := a.i;
    assert BufInv(s.io, i) && PinInv(s, i);
    forall j | 0 <= j < NBUF ensures PinInv(t, j) {
      assert PinInv(s, j);
    }
    forall b | b in Pinned(t) ensures Cached(t.io.c, ROOTDEV, b) {
      assert b in Pinned(s) && Cached(s.io.c, ROOTDEV, b);
      var j :| 0 <= j < NBUF && Caches(s.io.c.bufs[j], ROOTDEV, b);
      assert PinInv(s, j) && BufInv(s.io, j);
      assert Caches(t.io.c.bufs[j], ROOTDEV, b);
    }
  }

  lemma IoDirtyAt(g: Geometry, s: State, a: Action, j: nat)
    requires UpInv(g, s) && IoOk(g, s, a) && j < NBUF
    ensures DirtyInv(g, s.(io := Step(s.io, a)), j)
  {
    hide Pins, Sleepers, SortedByRelease;
    assert BufInv(s.io, a.i) && DirtyInv(g, s, a.i);
    assert BufInv(s.io, j) && DirtyInv(g, s, j);
    if a.Release? && j != a.i && s.io.c.bufs[j].dev == ROOTDEV {
      assert !Caches(s.io.c.bufs[j], ROOTDEV, s.io.c.bufs[a.i].blockno);
    }
  }

  lemma IoDirty(g: Geometry, s: State, a: Action)
    requires UpInv(g, s) && IoOk(g, s, a)
    ensures DirtyBuffers(g, s.(io := Step(s.io, a)))
  {
    hide Pins, Sleepers, Transparency.Inv, DirtyInv;
    forall j | 0 <= j < NBUF ensures DirtyInv(g, s.(io := Step(s.io, a)), j) {
      IoDirtyAt(g, s, a, j);
    }
  }

  lemma IoUp(g: Geometry, s: State, a: Action)
    requires UpInv(g, s) && IoOk(g, s, a)
    ensures UpInv(g, s.(io := Step(s.io, a)))
  {
    StepInv(s.io, a);
    IoPins(g, s, a);
    IoDirty(g, s, a);
  }

  /** An operation in progress means that nothing is being committed. */
  lemma InOpIsQuiet(g: Geometry, s: State, p: nat)
    requires Accounting(g, s) && p < |s.procs| && s.procs[p].InOp?
    ensures s.phase == Quiet && !s.committing && s.outstanding >= 1
  {
    OpsAtLeast(s.procs, p);
  }

  /** What a release makes visible: the change of an operation to a logged block, or nothing. */
  lemma ReleaseLeft(g: Geometry, s: State, i: nat)
    requires UpInv(g, s) && IoOk(g, s, Release(i))
    ensures var t, b := Step(s.io, Release(i)), s.io.c.bufs[i];
      && t.disk == s.io.disk && |t.left| == |s.io.left|
      && (DirtyByOp(g, s, i) ==> t.left == s.io.left[b.blockno := b.data] && b.blockno in s.lh && s.phase == Quiet)
      && (!DirtyByOp(g, s, i) ==> SameHome(g, t.left, s.io.left))
  {
    assert BufInv(s.io, i) && DirtyInv(g, s, i);
    if DirtyByOp(g, s, i) {
      InOpIsQuiet(g, s, s.io.c.bufs[i].pid - 1);
    }
  }

  lemma IoDisk(g: Geometry, s: State, a: Action, dur: Image)
    requires UpInv(g, s) && IoOk(g, s, a) && DiskInv(g, s, dur)
    ensures DiskInv(g, s.(io := Step(s.io, a)), dur)
  {
    if a.Release? {
      ReleaseLeft(g, s, a.i);
    }
  }

  /** The current contents remain the initial ones with the history applied. */
  lemma IoLogical(g: Geometry, s: State, a: Action, base: Image, trace: seq<Event>, nextop: nat)
    requires UpInv(g, s) && IoOk(g, s, a) && SameHome(g, s.io.left, Apply(base, trace))
    ensures SameHome(g, Step(s.io, a).left, Apply(base, trace + NewEvents(g, s, Io(a), nextop)))
  {
    if a.Release? {
      ReleaseLeft(g, s, a.i);
      if DirtyByOp(g, s, a.i) {
        ApplyAppend(base, trace, NewEvents(g, s, Io(a), nextop)[0]);
      } else {
        assert trace + [] == trace;
      }
    } else {
      assert trace + [] == trace;
    }
  }

  // ---- begin_op, log_write, end_op ----

  lemma {:induction false} BudgetsAtMost(procs: seq<Proc>)
    requires forall p :: 0 <= p < |procs| && procs[p].InOp? ==> procs[p].budget <= MAXOPBLOCKS
    ensures Budgets(procs) <= MAXOPBLOCKS * Ops(procs)
  {
    if procs != [] {
      BudgetsAtMost(procs[..|procs| - 1]);
    }
  }

  /** Steps that leave cache and log list alone keep the claims about buffers. */
  lemma ProcsOnly(g: Geometry, s: State, t: State)
    requires UpInv(g, s) && t.io == s.io && t.lh == s.lh && Pinned(t) == Pinned(s)
    requires forall i :: 0 <= i < NBUF && DirtyByOp(g, s, i) ==> DirtyByOp(g, t, i)
    ensures Pins(t) && DirtyBuffers(g, t)
  {
    forall i | 0 <= i < NBUF ensures PinInv(t, i) && DirtyInv(g, t, i) {
      assert PinInv(s, i) && DirtyInv(g, s, i);
    }
  }

  lemma BeginOpUp(g: Geometry, s: State, p: nat, op: nat)
    requires UpInv(g, s) && BeginOpOk(s, p)
    ensures UpInv(g, BeginOpNext(s, p, op))
  {
    var t := BeginOpNext(s, p, op);
    BudgetsAtMost(s.procs);
    UpdateProc(s.procs, p, t.procs[p]);
    ProcsOnly(g, s, t);
  }

  lemma BeginSleepUp(g: Geometry, s: State, p: nat)
    requires UpInv(g, s) && BeginSleepOk(s, p)
    ensures UpInv(g, BeginSleepNext(s, p))
  {
    UpdateProc(s.procs, p, Asleep);
    ProcsOnly(g, s, BeginSleepNext(s, p));
  }

  lemma LogWriteBuffers(g: Geometry, s: State, p: nat, i: nat, t: State)
    requires UpInv(g, s) && LogWriteOk(g, s, p, i) && s.io.c.bufs[i].blockno !in s.lh
    requires t == LogWriteNext(g, s, p, i) && s.phase == Quiet
    ensures Transparency.Inv(t.io) && Pins(t) && DirtyBuffers(g, t)
  {
    var b := s.io.c.bufs[i].blockno;
    StepInv(s.io, Pin(i));
    forall j | 0 <= j < NBUF ensures PinInv(t, j) && DirtyInv(g, t, j) {
      assert PinInv(s, j) && DirtyInv(g, s, j);
      if j != i && s.io.c.bufs[j].dev == ROOTDEV {
        assert !Caches(s.io.c.bufs[j], ROOTDEV, b);
      }
    }
    SameBlocks(s.io, t.io);
    assert Caches(s.io.c.bufs[i], ROOTDEV, b);
  }

  lemma LogWriteUp(g: Geometry, s: State, p: nat, i: nat)
    requires UpInv(g, s) && LogWriteOk(g, s, p, i)
    ensures UpInv(g, LogWriteNext(g, s, p, i))
  {
    var t := LogWriteNext(g, s, p, i);
    InOpIsQuiet(g, s, p);
    if s.io.c.bufs[i].blockno !in s.lh {
      LogWriteBuffers(g, s, p, i, t);
      UpdateProc(s.procs, p, t.procs[p]);
    }
  }

  lemma EndOpUp(g: Geometry, s: State, p: nat)
    requires UpInv(g, s) && EndOpOk(s, p)
    ensures UpInv(g, EndOpNext(s, p))
  {
    var t := EndOpNext(s, p);
    InOpIsQuiet(g, s, p);
    assert forall i :: 0 <= i < NBUF && DirtyByOp(g, s, i) ==> s.io.c.bufs[i].pid != p + 1;
    if s.outstanding == 1 {
      UpdateProc(s.procs, p, Committer);
    } else {
      UpdateProc(s.procs, p, Idle);
      WokenSums(s.procs[p := Idle]);
    }
    ProcsOnly(g, s, t);
  }

  lemma FinishUp(g: Geometry, s: State, p: nat)
    requires UpInv(g, s) && FinishOk(s, p)
    ensures UpInv(g, FinishNext(s, p))
  {
    var t := FinishNext(s, p);
    UpdateProc(s.procs, p, Idle);
    WokenSums(s.procs[p := Idle]);
    ProcsOnly(g, s, t);
  }

  // ---- commit ----

  /** Nobody is in an operation while a commit runs. */
  lemma NoOps(g: Geometry, s: State, i: nat)
    requires Accounting(g, s) && s.committing && i < NBUF
    ensures !DirtyByOp(g, s, i)
  {
    if DirtyByOp(g, s, i) {
      OpsAtLeast(s.procs, s.io.c.bufs[i].pid - 1);
    }
  }

  /** A buffer held during a commit shows the current contents, and, unless it is pinned, what
      is on disk. */
  lemma HeldContents(g: Geometry, s: State, p: nat, i: nat, b: nat)
    requires UpInv(g, s) && s.committing && i < NBUF && Holds(s, p, i, b)
    ensures !g.InLog(b) ==> s.io.c.bufs[i].data == s.io.left[b]
    ensures g.InLog(b) ==> s.io.c.bufs[i].data == s.io.disk[b]
  {
    assert BufInv(s.io, i) && DirtyInv(g, s, i) && PinInv(s, i);
    NoOps(g, s, i);
  }

  /** memmove and bwrite during a commit: one block on disk and in its buffer changes. */
  lemma StoreUp(g: Geometry, s: State, p: nat, i: nat, b: nat, v: Block, t: State)
    requires UpInv(g, s) && s.committing && i < NBUF && Holds(s, p, i, b) && CanStore(s.io, i, v)
    requires !g.InLog(b) ==> v == s.io.left[b]
    requires t == s.(io := Stored(s.io, i, v), phase := t.phase) && Pinned(t) == Pinned(s)
    ensures Transparency.Inv(t.io) && Pins(t) && DirtyBuffers(g, t)
    ensures t.io.disk == s.io.disk[b := v] && t.io.left == s.io.left
  {
    StepInv(s.io, Modify(i, v));
    StepInv(Step(s.io, Modify(i, v)), Write(i));
    SameBlocks(s.io, t.io);
    forall j | 0 <= j < NBUF ensures PinInv(t, j) && DirtyInv(g, t, j) {
      assert PinInv(s, j) && DirtyInv(g, s, j) && BufInv(s.io, j);
      NoOps(g, s, j);
      if j != i && s.io.c.bufs[j].dev == ROOTDEV {
        assert !Caches(s.io.c.bufs[j], ROOTDEV, b);
      }
    }
  }

  lemma WriteLogUp(g: Geometry, s: State, p: nat, i: nat, j: nat, dur: Image)
    requires UpInv(g, s) && WriteLogOk(g, s, p, i, j) && DiskInv(g, s, dur)
    ensures var t := WriteLogNext(g, s, p, i, j);
      UpInv(g, t) && DiskInv(g, t, dur) && t.io.left == s.io.left
  {
    var t := WriteLogNext(g, s, p, i, j);
    HeldContents(g, s, p, j, s.lh[s.phase.t]);
    StoreUp(g, s, p, i, g.start + 1 + s.phase.t, s.io.c.bufs[j].data, t);
    LoggedDisk(g, s, t, dur);
  }

  lemma LoggedDisk(g: Geometry, s: State, t: State, dur: Image)
    requires Accounting(g, s) && s.phase.WriteLog? && s.phase.t < |s.lh| && DiskInv(g, s, dur)
    requires Sized(t.io) && g.Fits(t.io.disk) && t.lh == s.lh && t.phase == WriteLog(s.phase.t + 1)
    requires t.io.left == s.io.left
    requires t.io.disk == s.io.disk[g.start + 1 + s.phase.t := s.io.left[s.lh[s.phase.t]]]
    ensures DiskInv(g, t, dur)
  {
  }

  lemma WriteHeadUp(g: Geometry, s: State, p: nat, i: nat, dur: Image)
    requires UpInv(g, s) && WriteHeadOk(g, s, p, i) && DiskInv(g, s, dur)
    ensures var t := WriteHeadNext(g, s, p, i);
      UpInv(g, t) && t.io.left == s.io.left
      && forall dur' :: SameHome(g, s.io.left, dur') ==> DiskInv(g, t, dur')
  {
    var t := WriteHeadNext(g, s, p, i);
    var v := Encode(s.io.c.bufs[i].data, s.lh);
    DecodeEncode(s.io.c.bufs[i].data, s.lh);
    StoreUp(g, s, p, i, g.start, v, t);
    forall dur' | SameHome(g, s.io.left, dur') ensures DiskInv(g, t, dur') {
      assert SameExcept(g, t.io.disk, dur', Pinned(t));
    }
  }

  /** bunpin after the k-th install. */
  lemma UnpinUp(g: Geometry, s: State, j: nat, t: State)
    requires Transparency.Inv(s.io) && Pins(s) && DirtyBuffers(g, s) && Accounting(g, s)
    requires s.phase.Install? && s.phase.t < |s.lh| && Enabled(s.io, Unpin(j))
    requires s.io.c.bufs[j].blockno == s.lh[s.phase.t]
    requires t == s.(io := Step(s.io, Unpin(j)), phase := Install(s.phase.t + 1))
    ensures Transparency.Inv(t.io) && Pins(t) && DirtyBuffers(g, t)
  {
    var b := s.lh[s.phase.t];
    StepInv(s.io, Unpin(j));
    SameBlocks(s.io, t.io);
    assert Pinned(s) == [b] + Pinned(t) && b !in Pinned(t);
    assert Caches(s.io.c.bufs[j], ROOTDEV, b);
    forall m | 0 <= m < NBUF ensures PinInv(t, m) && DirtyInv(g, t, m) {
      assert PinInv(s, m) && DirtyInv(g, s, m);
      if m != j && s.io.c.bufs[m].dev == ROOTDEV {
        assert !Caches(s.io.c.bufs[m], ROOTDEV, b);
      }
    }
    forall x | x in Pinned(t) ensures Cached(t.io.c, ROOTDEV, x) {
      assert x in Pinned(s);
    }
  }

  /** What one round of install_trans does to cache, disk and bookkeeping. */
  lemma InstallRound(g: Geometry, s: State, p: nat, i: nat, j: nat)
    requires UpInv(g, s) && InstallOk(g, s, p, i, j) && s.phase.t < |s.lh|
    requires s.io.c.bufs[i].data == s.io.left[s.lh[s.phase.t]]
    ensures var t := InstallNext(g, s, p, i, j);
      && Transparency.Inv(t.io) && Pins(t) && DirtyBuffers(g, t) && t.io.left == s.io.left
      && t.io.disk == s.io.disk[s.lh[s.phase.t] := s.io.left[s.lh[s.phase.t]]]
  {
    hide Sleepers, SortedByRelease, DirtyInv, PinInv;
    var v := s.io.c.bufs[i].data;
    var u := s.(io := Stored(s.io, j, v));
    StoreUp(g, s, p, j, s.lh[s.phase.t], v, u);
    UnpinUp(g, u, j, InstallNext(g, s, p, i, j));
  }

  lemma InstallUpInv(g: Geometry, s: State, p: nat, i: nat, j: nat)
    requires UpInv(g, s) && InstallOk(g, s, p, i, j) && s.io.c.bufs[i].data == s.io.left[s.lh[s.phase.t]]
    ensures var t := InstallNext(g, s, p, i, j);
      && UpInv(g, t) && g.Fits(t.io.disk) && t.io.left == s.io.left
      && t.io.disk == s.io.disk[s.lh[s.phase.t] := s.io.left[s.lh[s.phase.t]]]
  {
    hide DirtyBuffers, Pins, SortedByRelease;
    InstallRound(g, s, p, i, j);
  }

  lemma LogHoldsAt(g: Geometry, s: State, dur: Image)
    requires Sized(s.io) && g.Fits(s.io.disk) && DiskInv(g, s, dur) && s.phase.Install? && s.phase.t < |s.lh| < g.size
    ensures s.lh[s.phase.t] < |s.io.left| && s.io.disk[g.start + 1 + s.phase.t] == s.io.left[s.lh[s.phase.t]]
  {
    hide SameExcept, SameHome;
  }

  /** The log block that a round of install_trans reads holds the contents to install. */
  lemma InstallSource(g: Geometry, s: State, p: nat, i: nat, j: nat, dur: Image)
    requires UpInv(g, s) && InstallOk(g, s, p, i, j) && DiskInv(g, s, dur)
    ensures s.lh[s.phase.t] < |s.io.left| && s.io.c.bufs[i].data == s.io.left[s.lh[s.phase.t]]
  {
    hide DirtyBuffers, Pins, Transparency.Inv, Sleepers, DiskInv, CanStore, Enabled;
    LogHoldsAt(g, s, dur);
    HeldContents(g, s, p, i, g.start + 1 + s.phase.t);
  }

  lemma InstallUp(g: Geometry, s: State, p: nat, i: nat, j: nat, dur: Image)
    requires UpInv(g, s) && InstallOk(g, s, p, i, j) && DiskInv(g, s, dur)
    ensures var t := InstallNext(g, s, p, i, j);
      UpInv(g, t) && DiskInv(g, t, dur) && t.io.left == s.io.left
  {
    hide DirtyBuffers, Pins, Transparency.Inv, DiskInv, Sleepers;
    InstallSource(g, s, p, i, j, dur);
    InstallUpInv(g, s, p, i, j);
    InstalledDisk(g, s, InstallNext(g, s, p, i, j), dur);
  }

  lemma InstalledOne(g: Geometry, d: Image, dur: Image, bs: seq<nat>, t: nat)
    requires t < |bs| && bs[t] < |d| && SameExcept(g, d, dur, bs[t..])
    ensures SameExcept(g, d[bs[t] := dur[bs[t]]], dur, bs[t + 1..])
  {
    assert bs[t..] == [bs[t]] + bs[t + 1..];
  }

  lemma InstalledDisk(g: Geometry, s: State, t: State, dur: Image)
    requires Accounting(g, s) && s.phase.Install? && s.phase.t < |s.lh| && DiskInv(g, s, dur)
    requires Sized(t.io) && g.Fits(t.io.disk) && t.lh == s.lh && t.phase == Install(s.phase.t + 1)
    requires t.io.left == s.io.left
    requires t.io.disk == s.io.disk[s.lh[s.phase.t] := s.io.left[s.lh[s.phase.t]]]
    ensures DiskInv(g, t, dur)
  {
    var b := s.lh[s.phase.t];
    InstalledOne(g, s.io.disk, dur, s.lh, s.phase.t);
    assert !g.InLog(b) && t.io.disk[g.start] == s.io.disk[g.start];
    assert forall x: nat :: g.InLog(x) && x < |dur| ==> t.io.disk[x] == s.io.disk[x];
  }

  lemma EraseHeadUp(g: Geometry, s: State, p: nat, i: nat, dur: Image)
    requires UpInv(g, s) && EraseHeadOk(g, s, p, i) && DiskInv(g, s, dur)
    ensures var t := EraseHeadNext(g, s, p, i);
      UpInv(g, t) && DiskInv(g, t, dur) && t.io.left == s.io.left
  {
    var t := EraseHeadNext(g, s, p, i);
    var v := Encode(s.io.c.bufs[i].data, []);
    var u := s.(io := Stored(s.io, i, v));
    StoreUp(g, s, p, i, g.start, v, u);
    forall m | 0 <= m < NBUF ensures PinInv(t, m) && DirtyInv(g, t, m) {
      assert PinInv(u, m) && DirtyInv(g, u, m);
    }
  }

  // ---- History ----

  /** Appending an event of an operation without durable events. */
  lemma AppendEvent(w: World, v: World, e: Event)
    requires History(w) && v.trace == w.trace + [e] && v.durable == w.durable && v.base == w.base
    requires w.nextop <= v.nextop && e.op < v.nextop
    requires forall i :: 0 <= i < w.durable ==> w.trace[i].op != e.op
    ensures History(v) && Durable(v) == Durable(w)
  {
    assert v.trace[..v.durable] == w.trace[..w.durable];
  }

  lemma UpHistory(g: Geometry, w: World, l: Label)
    requires WorldInv(g, w) && w.m.Up? && CanStep(g, w, l) && !l.Crash? && !l.WriteHead?
    ensures var v := Next(g, w, l); History(v) && Durable(v) == Durable(w)
  {
    var v, es := Next(g, w, l), NewEvents(g, w.m.s, l, w.nextop);
    if es == [] {
      assert v.trace == w.trace;
    } else {
      assert es == [es[0]];
      AppendEvent(w, v, es[0]);
    }
  }

  lemma UpEndedOrRunning(g: Geometry, w: World, l: Label)
    requires WorldInv(g, w) && w.m.Up? && CanStep(g, w, l) && !l.Crash? && !l.WriteHead?
    ensures var v := Next(g, w, l); EndedOrRunning(v.m.s, v)
  {
    var s, v, es := w.m.s, Next(g, w, l), NewEvents(g, w.m.s, l, w.nextop);
    forall i | 0 <= i < |v.trace| ensures End(v.trace[i].op) in v.trace || Running(v.m.s, v.trace[i].op) {
      if i < |w.trace| {
        StillAccounted(g, w, l, w.trace[i].op);
      } else {
        assert Running(s, es[0].op) || l.BeginOp?;
        StillAccounted(g, w, l, es[0].op);
      }
    }
  }

  /** Operations that were all in progress before keep their claims, unless they just ended. */
  lemma KeepsOps(s: State, t: State, w: World, v: World)
    requires w.durable <= |w.trace| && CurrentOps(s, w) && w.durable == v.durable && w.nextop == v.nextop
    requires |w.trace| <= |v.trace| && v.trace[..|w.trace|] == w.trace && |s.procs| == |t.procs|
    requires forall p :: 0 <= p < |t.procs| && t.procs[p].InOp? ==> s.procs[p].InOp? && s.procs[p].op == t.procs[p].op
    requires forall i :: |w.trace| <= i < |v.trace| && v.trace[i].End? ==> !Running(t, v.trace[i].op)
    ensures CurrentOps(t, v)
  {
    forall p, i | 0 <= p < |t.procs| && t.procs[p].InOp? && 0 <= i < |v.trace| && v.trace[i].op == t.procs[p].op
      ensures v.durable <= i && !v.trace[i].End?
    {
      assert Running(t, v.trace[i].op);
      assert i < |w.trace| ==> v.trace[i] == w.trace[i];
    }
  }

  lemma UpCurrentOps(g: Geometry, w: World, l: Label)
    requires WorldInv(g, w) && w.m.Up? && CanStep(g, w, l) && !l.Crash? && !l.WriteHead?
    ensures var v := Next(g, w, l); v.durable <= |v.trace| && CurrentOps(v.m.s, v)
  {
    hide UpInv, DiskInv, EndedOrRunning, SameHome, NotTorn, AllEnded, Durable, IoOk;
    var v := Next(g, w, l);
    if l.BeginOp? {
      assert v.trace == w.trace + [Begin(w.nextop)];
    } else {
      KeepsOps(w.m.s, v.m.s, w, v);
    }
  }

  /** An operation that was running still runs, or has just ended. */
  lemma StillAccounted(g: Geometry, w: World, l: Label, op: nat)
    requires WorldInv(g, w) && w.m.Up? && CanStep(g, w, l) && !l.Crash?
    requires Running(w.m.s, op) || (l.BeginOp? && op == w.nextop) || End(op) in w.trace
    ensures var v := Next(g, w, l); End(op) in v.trace || Running(v.m.s, op)
  {
    var s, v := w.m.s, Next(g, w, l);
    if End(op) in w.trace {
    } else if Running(s, op) {
      var p :| 0 <= p < |s.procs| && s.procs[p].InOp? && s.procs[p].op == op;
      if l == EndOp(p) {
        assert v.trace[|w.trace|] == End(op);
      } else {
        assert v.m.s.procs[p].InOp? && v.m.s.procs[p].op == op;
      }
    } else {
      assert v.m.s.procs[l.p] == InOp(op, MAXOPBLOCKS);
    }
  }

  /** The steps of a commit but its commit point keep DiskInv. */
  lemma CommitUpDisk(g: Geometry, s: State, l: Label, nextop: nat, dur: Image)
    requires UpInv(g, s) && CanStepUp(g, s, l) && DiskInv(g, s, dur)
    requires l.WriteLogBlock? || l.InstallBlock? || l.EraseHead? || l.Finish?
    ensures var t := NextUp(g, s, l, nextop); UpInv(g, t) && DiskInv(g, t, dur) && t.io.left == s.io.left
  {
    match l
    case WriteLogBlock(p, i, j) => WriteLogUp(g, s, p, i, j, dur);
    case InstallBlock(p, i, j) => InstallUp(g, s, p, i, j, dur);
    case EraseHead(p, i) => EraseHeadUp(g, s, p, i, dur);
    case Finish(p) => FinishUp(g, s, p);
  }

  lemma ProcsDisk(g: Geometry, s: State, t: State, dur: Image)
    requires Sized(s.io) && g.Fits(s.io.disk) && DiskInv(g, s, dur) && t.io == s.io && t.lh == s.lh
    requires t.phase == s.phase
    ensures DiskInv(g, t, dur)
  {
  }

  lemma LogWriteUpDisk(g: Geometry, s: State, p: nat, i: nat, dur: Image)
    requires UpInv(g, s) && LogWriteOk(g, s, p, i) && DiskInv(g, s, dur)
    ensures var t := LogWriteNext(g, s, p, i); UpInv(g, t) && DiskInv(g, t, dur) && t.io.left == s.io.left
  {
    LogWriteUp(g, s, p, i);
    InOpIsQuiet(g, s, p);
  }

  lemma EndOpUpDisk(g: Geometry, s: State, p: nat, dur: Image)
    requires UpInv(g, s) && EndOpOk(s, p) && DiskInv(g, s, dur)
    ensures var t := EndOpNext(s, p); UpInv(g, t) && DiskInv(g, t, dur) && t.io.left == s.io.left
  {
    hide Pins, Sleepers, DirtyBuffers;
    EndOpUp(g, s, p);
    InOpIsQuiet(g, s, p);
  }

  /** A step of the running machine that is no crash and no commit point keeps DiskInv. */
  lemma UpDisk(g: Geometry, s: State, l: Label, nextop: nat, dur: Image)
    requires UpInv(g, s) && CanStepUp(g, s, l) && !l.Crash? && !l.WriteHead? && DiskInv(g, s, dur)
    ensures var t := NextUp(g, s, l, nextop);
      UpInv(g, t) && DiskInv(g, t, dur) && (!l.Io? ==> t.io.left == s.io.left)
  {
    hide DiskInv, Pins, Sleepers, DirtyBuffers, IoOk, EndOpOk, LogWriteOk, EndOpNext, LogWriteNext;
    match l
    case Io(a) => IoUp(g, s, a); IoDisk(g, s, a, dur);
    case BeginOp(p) => BeginOpUp(g, s, p, nextop); ProcsDisk(g, s, BeginOpNext(s, p, nextop), dur);
    case BeginSleep(p) => BeginSleepUp(g, s, p); ProcsDisk(g, s, BeginSleepNext(s, p), dur);
    case LogWrite(p, i) => LogWriteUpDisk(g, s, p, i, dur);
    case EndOp(p) => EndOpUpDisk(g, s, p, dur);
    case _ => CommitUpDisk(g, s, l, nextop, dur);
  }

  /** The history after a step that does nothing to the cache. */
  lemma QuietEvents(g: Geometry, s: State, l: Label, base: Image, trace: seq<Event>, nextop: nat)
    requires Sized(s.io) && !l.Io?
    ensures Apply(base, trace + NewEvents(g, s, l, nextop)) == Apply(base, trace)
  {
    var es := NewEvents(g, s, l, nextop);
    if es == [] {
      assert trace + es == trace;
    } else {
      ApplyAppend(base, trace, es[0]);
      assert trace + es == trace + [es[0]];
    }
  }

  lemma UpLogical(g: Geometry, w: World, l: Label)
    requires WorldInv(g, w) && w.m.Up? && CanStep(g, w, l) && !l.Crash? && !l.WriteHead?
    ensures var v := Next(g, w, l);
      SameHome(g, v.m.s.io.left, Apply(v.base, v.trace)) && (v.m.s.phase.Install? ==> v.durable == |v.trace|)
  {
    hide UpInv, DiskInv, Current, NotTorn, AllEnded, IoOk, Apply, Durable;
    var s := w.m.s;
    UpDisk(g, s, l, w.nextop, Durable(w));
    if l.Io? {
      IoLogical(g, s, l.a, w.base, w.trace, w.nextop);
      if s.phase.Install? { IoEvents(g, w, l.a); }
    } else {
      QuietEvents(g, s, l, w.base, w.trace, w.nextop);
      QuietTrace(g, s, l, w.nextop);
    }
  }

  /** While a commit installs, no operation is there to add to the history. */
  lemma QuietTrace(g: Geometry, s: State, l: Label, nextop: nat)
    requires UpInv(g, s) && CanStepUp(g, s, l) && !l.Crash? && !l.WriteHead? && !l.Io?
    ensures NextUp(g, s, l, nextop).phase.Install? ==> s.phase.Install? && NewEvents(g, s, l, nextop) == []
  {
    hide Pins, Sleepers, DirtyBuffers;
    if l.BeginOp? {
      assert !s.committing;
    } else if l.EndOp? {
      InOpIsQuiet(g, s, l.p);
    }
  }

  lemma IoEvents(g: Geometry, w: World, a: Action)
    requires w.m.Up? && UpInv(g, w.m.s) && IoOk(g, w.m.s, a) && w.m.s.phase.Install?
    ensures NewEvents(g, w.m.s, Io(a), w.nextop) == []
  {
    if a.Release? {
      ReleaseLeft(g, w.m.s, a.i);
    }
  }

  /** The commit point: everything so far becomes durable, and nothing is torn. */
  lemma CommitPoint(g: Geometry, w: World, p: nat, i: nat)
    requires WorldInv(g, w) && w.m.Up? && CanStep(g, w, WriteHead(p, i))
    ensures WorldInv(g, Next(g, w, WriteHead(p, i)))
  {
    var s, v := w.m.s, Next(g, w, WriteHead(p, i));
    assert v.trace == w.trace && v.trace[..v.durable] == w.trace;
    WriteHeadUp(g, s, p, i, Durable(w));
    forall q | 0 <= q < |s.procs| ensures !s.procs[q].InOp? {
      if s.procs[q].InOp? { InOpIsQuiet(g, s, q); }
    }
    forall k | 0 <= k < |w.trace| ensures End(w.trace[k].op) in w.trace {
      assert !Running(s, w.trace[k].op);
    }
  }

  /** Recovery from the middle of an installation. */
  lemma InstallingImage(g: Geometry, d: Image, dur: Image, bs: seq<nat>)
    requires g.Fits(d) && |dur| == |d| && HeaderOk(g, |d|, d[g.start]) && Decode(d[g.start]) == bs
    requires Loggable(g, |d|, bs) && SameExcept(g, d, dur, bs)
    requires forall k :: 0 <= k < |bs| ==> d[g.start + 1 + k] == dur[bs[k]]
    ensures Recoverable(g, d) && SameHome(g, Recovered(g, d), dur)
  {
    RecoversToLogged(g, d);
    var r, vals := Recovered(g, d), d[g.start + 1..g.start + 1 + |bs|];
    forall b | 0 <= b < |d| && !g.InLog(b) ensures r[b] == dur[b] {
      if b in bs {
        var k :| 0 <= k < |bs| && bs[k] == b;
        assert r[bs[k]] == vals[k];
      }
    }
  }

  lemma CleanImage(g: Geometry, d: Image, dur: Image)
    requires CleanLog(g, d) && SameHome(g, d, dur)
    ensures Recoverable(g, d) && SameHome(g, Recovered(g, d), dur)
  {
    CleanRecovers(g, d);
  }

  /** What a crash of the running machine leaves recovers to the durable image. */
  lemma CrashImage(g: Geometry, s: State, dur: Image)
    requires UpInv(g, s) && DiskInv(g, s, dur)
    ensures Recoverable(g, s.io.disk) && SameHome(g, Recovered(g, s.io.disk), dur)
  {
    if s.phase.Install? {
      assert SameExcept(g, s.io.disk, dur, s.lh);
      InstallingImage(g, s.io.disk, dur, s.lh);
    } else {
      CleanImage(g, s.io.disk, dur);
    }
  }

  lemma CrashStep(g: Geometry, w: World)
    requires WorldInv(g, w) && CanStep(g, w, Crash)
    ensures WorldInv(g, Next(g, w, Crash))
  {
    var v := Next(g, w, Crash);
    assert v.trace[..v.durable] == w.trace[..w.durable];
    if w.m.Up? {
      CrashImage(g, w.m.s, Durable(w));
    } else {
      RecoverStep(g, w.m.d, w.m.k);
    }
  }

  lemma {:induction false} NoOpsInSum(procs: seq<Proc>)
    requires forall p :: 0 <= p < |procs| ==> procs[p].Idle?
    ensures Ops(procs) == 0 && Budgets(procs) == 0
    decreases |procs|
  {
    if procs != [] {
      NoOpsInSum(procs[..|procs| - 1]);
    }
  }

  lemma FreshUp(g: Geometry, s: State, d: Image)
    requires Fresh(s, d) && CleanLog(g, d)
    ensures UpInv(g, s) && s.io.left == d && DiskInv(g, s, d)
  {
    InitInv(s.io);
    NoOpsInSum(s.procs);
    forall i | 0 <= i < NBUF ensures PinInv(s, i) && DirtyInv(g, s, i) {
      assert BufInv(s.io, i);
    }
  }

  lemma BootStep(g: Geometry, w: World, s: State)
    requires WorldInv(g, w) && CanStep(g, w, Boot(s))
    ensures WorldInv(g, Next(g, w, Boot(s)))
  {
    var d := RecoverImage(g, w.m.d, w.m.k);
    DecodeEncode(w.m.d[g.start], []);
    FreshUp(g, s, d);
    assert w.trace[..w.durable] == w.trace;
  }

  lemma UpStep(g: Geometry, w: World, l: Label)
    requires WorldInv(g, w) && w.m.Up? && CanStep(g, w, l) && !l.Crash? && !l.WriteHead?
    ensures WorldInv(g, Next(g, w, l))
  {
    UpHistory(g, w, l);
    UpEndedOrRunning(g, w, l);
    UpCurrentOps(g, w, l);
    UpDisk(g, w.m.s, l, w.nextop, Durable(w));
    UpLogical(g, w, l);
  }

  lemma RecoverWriteStep(g: Geometry, w: World)
    requires WorldInv(g, w) && CanStep(g, w, RecoverWrite)
    ensures WorldInv(g, Next(g, w, RecoverWrite))
  {
  }

  lemma WorldStep(g: Geometry, w: World, l: Label)
    requires WorldInv(g, w) && CanStep(g, w, l)
    ensures WorldInv(g, Next(g, w, l))
  {
    hide WorldInv, Next, CanStepUp;
    if l.Crash? {
      CrashStep(g, w);
    } else if l.RecoverWrite? {
      RecoverWriteStep(g, w);
    } else if l.Boot? {
      BootStep(g, w, l.s);
    } else if l.WriteHead? {
      CommitPoint(g, w, l.p, l.i);
    } else {
      UpStep(g, w, l);
    }
  }

  lemma StartInv(g: Geometry, w: World)
    requires Start(g, w)
    ensures WorldInv(g, w)
  {
    FreshUp(g, w.m.s, w.base);
  }

  lemma {:induction false} ReachesInv(g: Geometry, w: World, ls: seq<Label>, v: World)
    requires WorldInv(g, w) && Reaches(g, w, ls, v)
    ensures WorldInv(g, v)
    decreases |ls|
  {
    if ls != [] {
      WorldStep(g, w, ls[0]);
      ReachesInv(g, Next(g, w, ls[0]), ls[1..], v);
    }
  }

  // ---- Theorems over all runs ----

  /** Group commit: in every reachable world, whatever the interleaving and the crashes so far,
      a crash now would leave an image that recovers to the initial home blocks with exactly the
      durable prefix of the history applied; no operation is torn by the prefix, and each
      operation in it had ended. */
  lemma GroupCommitTheorem(g: Geometry, w: World, ls: seq<Label>, v: World)
    requires Start(g, w) && Reaches(g, w, ls, v)
    ensures v.durable <= |v.trace| && NotTorn(v.trace, v.durable) && AllEnded(v.trace, v.durable)
    ensures v.m.Recovering? ==> Recoverable(g, v.m.d) && v.m.k <= v.m.d[g.start][0] + 1
    ensures Recoverable(g, OnDisk(g, v.m))
    ensures SameHome(g, Recovered(g, OnDisk(g, v.m)), Apply(v.base, v.trace[..v.durable]))
  {
    StartInv(g, w);
    ReachesInv(g, w, ls, v);
    if v.m.Up? {
      CrashImage(g, v.m.s, Durable(v));
    } else {
      RecoverStep(g, v.m.d, v.m.k);
    }
  }
}
