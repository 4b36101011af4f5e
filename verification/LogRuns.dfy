/** Runs that reach the limits of the log: commits that find no buffer, and operations within their
    budget whose log_write panics. */
module LogRuns {
  import opened Blocks
  import opened CacheSpec
  import opened Transparency
  import opened LogFormat
  import opened GroupCommit
  import opened GroupCommitProof
  import opened LogClaims

  lemma {:induction false} RunsJoin(g: Geometry, w: World, ls: seq<Label>, u: World, ms: seq<Label>, v: World)
    requires Reaches(g, w, ls, u) && Reaches(g, u, ms, v)
    ensures Reaches(g, w, ls + ms, v)
    decreases |ls|
  {
    hide CanStep, Next;
    if ls == [] {
      assert ls + ms == ms;
    } else {
      RunsJoin(g, Next(g, w, ls[0]), ls[1..], u, ms, v);
      assert (ls + ms)[1..] == ls[1..] + ms && (ls + ms)[0] == ls[0];
    }
  }

  lemma OneStep(g: Geometry, w: World, l: Label)
    requires WorldInv(g, w) && CanStep(g, w, l)
    ensures Reaches(g, w, [l], Next(g, w, l)) && WorldInv(g, Next(g, w, l))
  {
    hide WorldInv, CanStep, Next;
    WorldStep(g, w, l);
    HistoryOk(g, w);
    assert Reaches(g, Next(g, w, l), [], Next(g, w, l)) && [l][1..] == [];
  }

  lemma HistoryOk(g: Geometry, w: World)
    requires WorldInv(g, w)
    ensures w.durable <= |w.trace|
  {
  }

  /** Nobody holds, waits for or changes a buffer, and no block was installed. */
  ghost predicate Still(g: Geometry, w: World)
  {
    && WorldInv(g, w) && w.m.Up? && Sized(w.m.s.io) && !w.m.s.phase.Install?
    && forall i :: 0 <= i < NBUF ==> w.m.s.io.waits[i] == 0 && w.m.s.io.c.bufs[i].pid == 0
  }

  /** Besides, no commit runs. */
  ghost predicate Calm(g: Geometry, w: World) { Still(g, w) && w.m.s.phase == Quiet }

  /** The log, the processes and the size of the disk are the same. */
  predicate SameLog(w: World, v: World)
  {
    && w.m.Up? && v.m.Up? && v.m.s.lh == w.m.s.lh && v.m.s.procs == w.m.s.procs
    && v.m.s.outstanding == w.m.s.outstanding && |v.m.s.io.disk| == |w.m.s.io.disk|
  }

  /** Process p holds buffer i, which carries block x and was not changed; all else is calm. */
  ghost predicate Holding(g: Geometry, w: World, p: nat, i: nat, x: nat)
  {
    && WorldInv(g, w) && w.m.Up? && Sized(w.m.s.io) && w.m.s.phase == Quiet
    && p < |w.m.s.procs| && i < NBUF && Caches(w.m.s.io.c.bufs[i], ROOTDEV, x) && w.m.s.io.c.bufs[i].pid == p + 1
    && !w.m.s.io.dirty[i] && x < |w.m.s.io.disk|
    && forall j :: 0 <= j < NBUF ==> w.m.s.io.waits[j] == 0 && (j != i ==> w.m.s.io.c.bufs[j].pid == 0)
  }

  /** With fewer than NBUF blocks logged a buffer can be had, and for a logged block always. */
  lemma PickExists(g: Geometry, w: World, x: nat) returns (i: nat)
    requires Still(g, w) && (|w.m.s.lh| < NBUF || x in w.m.s.lh)
    ensures Wf(w.m.s.io.c) && Picks(w.m.s.io.c, ROOTDEV, x, i)
  {
    var s := w.m.s;
    var c := s.io.c;
    if Cached(c, ROOTDEV, x) {
      i :| 0 <= i < |c.bufs| && Caches(c.bufs[i], ROOTDEV, x);
    } else {
      BusyIsLogged(g, w);
      SpareIff(s);
      i := LastSpare(c, NBUF);
    }
  }

  lemma BusyIsLogged(g: Geometry, w: World)
    requires Still(g, w)
    ensures Busy(w.m.s) == Elements(w.m.s.lh) && |Busy(w.m.s)| == |w.m.s.lh|
    ensures Transparency.Inv(w.m.s.io) && Pins(w.m.s)
  {
    hide WorldInv, Pins;
    CacheFacts(g, w);
    Distinctly(w.m.s.lh);
  }

  lemma NotAllSeen(c: Cache, n: nat)
    requires Wf(c) && n <= NBUF && AllReferenced(c, n, NBUF) && Spare(c)
    ensures n > 0
  {
    if n == 0 { SawNoSpare(c); }
  }

  lemma {:induction false} LastSpare(c: Cache, n: nat) returns (i: nat)
    requires Wf(c) && n <= NBUF && AllReferenced(c, n, NBUF) && Spare(c)
    ensures Victim(c, i)
  {
    NotAllSeen(c, n);
    i := c.order[n - 1];
    if c.bufs[i].refcnt != 0 {
      i := LastSpare(c, n - 1);
    }
  }

  /** Process p waits for buffer i, which carries block x; all else is calm. */
  ghost predicate Waiting(g: Geometry, w: World, p: nat, i: nat, x: nat)
  {
    && WorldInv(g, w) && w.m.Up? && Sized(w.m.s.io) && w.m.s.phase == Quiet
    && p < |w.m.s.procs| && i < NBUF && Caches(w.m.s.io.c.bufs[i], ROOTDEV, x) && x < |w.m.s.io.disk|
    && w.m.s.io.waits[i] == 1
    && forall j :: 0 <= j < NBUF ==> w.m.s.io.c.bufs[j].pid == 0 && (j != i ==> w.m.s.io.waits[j] == 0)
  }

  lemma GetBuffer(g: Geometry, w: World, p: nat, x: nat) returns (i: nat, ls: seq<Label>, v: World)
    requires Calm(g, w) && (|w.m.s.lh| < NBUF || x in w.m.s.lh) && p < |w.m.s.procs| && x < |w.m.s.io.disk|
    ensures Reaches(g, w, ls, v) && Waiting(g, v, p, i, x) && SameLog(w, v)
  {
    i := PickExists(g, w, x);
    ls := [Io(Get(x, i))];
    assert CanStep(g, w, ls[0]);
    OneStep(g, w, ls[0]);
    v := Next(g, w, ls[0]);
  }

  lemma AcquireBuffer(g: Geometry, w: World, p: nat, i: nat, x: nat) returns (ls: seq<Label>, v: World)
    requires Waiting(g, w, p, i, x)
    ensures Reaches(g, w, ls, v) && Holding(g, v, p, i, x) && SameLog(w, v)
  {
    ls := [Io(Acquire(i, p + 1))];
    assert BufInv(w.m.s.io, i);
    assert CanStep(g, w, ls[0]);
    OneStep(g, w, ls[0]);
    v := Next(g, w, ls[0]);
  }

  /** bget and acquiresleep. */
  lemma TakeBuffer(g: Geometry, w: World, p: nat, x: nat) returns (i: nat, ls: seq<Label>, v: World)
    requires Calm(g, w) && (|w.m.s.lh| < NBUF || x in w.m.s.lh) && p < |w.m.s.procs| && x < |w.m.s.io.disk|
    ensures Reaches(g, w, ls, v) && Holding(g, v, p, i, x) && SameLog(w, v)
  {
    hide Calm, Holding, Waiting, Reaches;
    var k, ms, u := GetBuffer(g, w, p, x);
    i := k;
    var ns;
    ns, v := AcquireBuffer(g, u, p, i, x);
    ls := ms + ns;
    RunsJoin(g, w, ms, u, ns, v);
  }

  /** The rest of bread. */
  lemma FillBuffer(g: Geometry, w: World, p: nat, i: nat, x: nat) returns (ls: seq<Label>, v: World)
    requires Holding(g, w, p, i, x)
    ensures Reaches(g, w, ls, v) && Holding(g, v, p, i, x) && SameLog(w, v) && v.m.s.io.c.bufs[i].valid
  {
    if w.m.s.io.c.bufs[i].valid {
      ls, v := [], w;
    } else {
      ls := [Io(Fill(i))];
      assert CanStep(g, w, ls[0]);
      OneStep(g, w, ls[0]);
      v := Next(g, w, ls[0]);
    }
  }

  lemma MayLog(g: Geometry, w: World, p: nat, i: nat, x: nat)
    requires Holding(g, w, p, i, x) && w.m.s.io.c.bufs[i].valid && !g.InLog(x) && x !in w.m.s.lh
    requires w.m.s.procs[p].InOp? && w.m.s.procs[p].budget > 0 && |w.m.s.lh| < LOGSIZE && |w.m.s.lh| < g.size - 1
    ensures CanStep(g, w, LogWrite(p, i))
  {
    OpsAtLeast(w.m.s.procs, p);
  }

  /** log_write of a block that is not yet logged. */
  lemma LogBuffer(g: Geometry, w: World, p: nat, i: nat, x: nat) returns (ls: seq<Label>, v: World)
    requires Holding(g, w, p, i, x) && w.m.s.io.c.bufs[i].valid && !g.InLog(x) && x !in w.m.s.lh
    requires w.m.s.procs[p].InOp? && w.m.s.procs[p].budget > 0 && |w.m.s.lh| < LOGSIZE && |w.m.s.lh| < g.size - 1
    ensures Reaches(g, w, ls, v) && Holding(g, v, p, i, x)
    ensures Logged(w, v, p, x)
  {
    hide WorldInv, Reaches;
    HistoryOk(g, w);
    MayLog(g, w, p, i, x);
    ls := [LogWrite(p, i)];
    OneStep(g, w, ls[0]);
    v := Next(g, w, ls[0]);
  }

  /** Process p logged block x, at the cost of one of its budget. */
  predicate Logged(w: World, v: World, p: nat, x: nat)
  {
    && w.m.Up? && v.m.Up? && p < |w.m.s.procs| && w.m.s.procs[p].InOp? && w.m.s.procs[p].budget > 0
    && v.m.s.lh == w.m.s.lh + [x] && v.m.s.outstanding == w.m.s.outstanding && |v.m.s.io.disk| == |w.m.s.io.disk|
    && v.m.s.procs == w.m.s.procs[p := InOp(w.m.s.procs[p].op, w.m.s.procs[p].budget - 1)]
  }

  lemma DropBuffer(g: Geometry, w: World, p: nat, i: nat, x: nat) returns (ls: seq<Label>, v: World)
    requires Holding(g, w, p, i, x)
    ensures Reaches(g, w, ls, v) && Calm(g, v) && SameLog(w, v)
  {
    ls := [Io(Release(i))];
    assert BufInv(w.m.s.io, i);
    assert CanStep(g, w, ls[0]);
    OneStep(g, w, ls[0]);
    v := Next(g, w, ls[0]);
  }

  /** A block is read and logged. */
  lemma LogOne(g: Geometry, w: World, p: nat, x: nat) returns (ls: seq<Label>, v: World)
    requires Calm(g, w) && p < |w.m.s.procs| && w.m.s.procs[p].InOp? && w.m.s.procs[p].budget > 0
    requires x < |w.m.s.io.disk| && !g.InLog(x) && x !in w.m.s.lh && |w.m.s.lh| < LOGSIZE && |w.m.s.lh| < g.size - 1
    ensures Reaches(g, w, ls, v) && Calm(g, v) && Logged(w, v, p, x)
  {
    hide Calm, Holding, WorldInv, Reaches;
    var i, l1, w1 := TakeBuffer(g, w, p, x);
    var l2, w2 := FillBuffer(g, w1, p, i, x);
    var l3, w3 := LogBuffer(g, w2, p, i, x);
    var l4, w4 := DropBuffer(g, w3, p, i, x);
    RunsJoin(g, w, l1, w1, l2, w2);
    RunsJoin(g, w, l1 + l2, w2, l3, w3);
    RunsJoin(g, w, l1 + l2 + l3, w3, l4, w4);
    ls, v := l1 + l2 + l3 + l4, w4;
  }

  /** Process p logged the k blocks from x on. */
  ghost predicate LoggedRun(w: World, v: World, p: nat, x: nat, k: nat)
  {
    && w.m.Up? && v.m.Up? && p < |w.m.s.procs| && w.m.s.procs[p].InOp? && w.m.s.procs[p].budget >= k
    && v.m.s.lh == w.m.s.lh + seq(k, j => x + j) && v.m.s.outstanding == w.m.s.outstanding
    && |v.m.s.io.disk| == |w.m.s.io.disk|
    && v.m.s.procs == w.m.s.procs[p := InOp(w.m.s.procs[p].op, w.m.s.procs[p].budget - k)]
  }

  lemma {:induction false} LogMany(g: Geometry, w: World, p: nat, x: nat, k: nat) returns (ls: seq<Label>, v: World)
    requires Calm(g, w) && p < |w.m.s.procs| && w.m.s.procs[p].InOp? && w.m.s.procs[p].budget >= k
    requires x + k <= |w.m.s.io.disk| && |w.m.s.lh| + k <= LOGSIZE && |w.m.s.lh| + k < g.size
    requires forall j :: x <= j < x + k ==> !g.InLog(j) && j !in w.m.s.lh
    ensures Reaches(g, w, ls, v) && Calm(g, v) && LoggedRun(w, v, p, x, k)
  {
    hide Calm, Logged, Reaches;
    CalmUp(g, w);
    if k == 0 {
      ls, v := [], w;
      Stay(g, w);
      assert w.m.s.lh + seq(0, j => x + j) == w.m.s.lh;
    } else {
      var l1, u := LogMany(g, w, p, x, k - 1);
      assert x + k - 1 !in u.m.s.lh;
      var l2;
      l2, v := LogOne(g, u, p, x + k - 1);
      RunsJoin(g, w, l1, u, l2, v);
      ls := l1 + l2;
      LoggedMore(w, u, v, p, x, k);
    }
  }

  lemma Stay(g: Geometry, w: World)
    ensures Reaches(g, w, [], w)
  {
  }

  lemma CalmUp(g: Geometry, w: World)
    requires Calm(g, w)
    ensures w.m.Up?
  {
  }

  lemma LoggedMore(w: World, u: World, v: World, p: nat, x: nat, k: nat)
    requires k > 0 && LoggedRun(w, u, p, x, k - 1) && Logged(u, v, p, x + k - 1)
    ensures LoggedRun(w, v, p, x, k)
  {
    assert w.m.s.lh + seq(k, j => x + j) == (w.m.s.lh + seq(k - 1, j => x + j)) + [x + k - 1];
    assert w.m.s.procs[p := InOp(w.m.s.procs[p].op, w.m.s.procs[p].budget - (k - 1))]
                      [p := InOp(w.m.s.procs[p].op, w.m.s.procs[p].budget - k)]
        == w.m.s.procs[p := InOp(w.m.s.procs[p].op, w.m.s.procs[p].budget - k)];
  }

  /** begin_op by process p, which does not have to wait. */
  lemma Begins(g: Geometry, w: World, p: nat) returns (ls: seq<Label>, v: World)
    requires Calm(g, w) && p < |w.m.s.procs| && w.m.s.procs[p].Idle? && !MustWait(w.m.s)
    ensures Reaches(g, w, ls, v) && Calm(g, v) && v.m.s.lh == w.m.s.lh && |v.m.s.io.disk| == |w.m.s.io.disk|
    ensures v.m.s.outstanding == w.m.s.outstanding + 1 && v.m.s.procs == w.m.s.procs[p := InOp(w.nextop, MAXOPBLOCKS)]
    ensures !v.m.s.committing
  {
    ls := [BeginOp(p)];
    assert CanStep(g, w, ls[0]);
    OneStep(g, w, ls[0]);
    v := Next(g, w, ls[0]);
  }

  /** Three operations run at once and have all of the log between them. */
  ghost predicate Three(g: Geometry, w: World, v: World)
  {
    && Calm(g, v) && v.m.Up? && v.m.s.lh == [] && |v.m.s.procs| >= 3 && v.m.s.outstanding == 3
    && (forall p :: 0 <= p < 3 ==> v.m.s.procs[p].InOp? && v.m.s.procs[p].budget == MAXOPBLOCKS)
    && w.m.Up? && |v.m.s.io.disk| == |w.m.s.io.disk|
  }

  lemma ThreeBegin(g: Geometry, w: World) returns (ls: seq<Label>, v: World)
    requires Start(g, w) && |w.m.s.procs| >= 3
    ensures Reaches(g, w, ls, v) && Three(g, w, v)
  {
    hide Start, WorldInv, Reaches, Calm;
    StartCalm(g, w);
    CalmUp(g, w);
    var l1, w1 := Begins(g, w, 0);
    var l2, w2 := Begins(g, w1, 1);
    var l3, w3 := Begins(g, w2, 2);
    RunsJoin(g, w, l1, w1, l2, w2);
    RunsJoin(g, w, l1 + l2, w2, l3, w3);
    ls, v := l1 + l2 + l3, w3;
    CalmUp(g, v);
  }

  lemma StartCalm(g: Geometry, w: World)
    requires Start(g, w)
    ensures Calm(g, w) && w.m.s.lh == [] && w.m.s.outstanding == 0 && !w.m.s.committing
    ensures forall p :: 0 <= p < |w.m.s.procs| ==> w.m.s.procs[p].Idle?
  {
    StartInv(g, w);
  }

  /** Three operations log n blocks from x on between them, the first ten by process 0. */
  lemma LogsMany(g: Geometry, w: World, n: nat) returns (ls: seq<Label>, v: World)
    requires Start(g, w) && |w.m.s.procs| >= 3 && g.start + g.size + LOGSIZE <= |w.m.s.io.disk|
    requires 2 * MAXOPBLOCKS <= n <= LOGSIZE && n < g.size
    ensures Reaches(g, w, ls, v) && Calm(g, v) && v.m.Up? && v.m.s.lh == seq(n, j => g.start + g.size + j)
    ensures |v.m.s.procs| >= 3 && v.m.s.outstanding == 3 && |v.m.s.io.disk| == |w.m.s.io.disk|
    ensures forall p :: 0 <= p < 3 ==> v.m.s.procs[p].InOp?
    ensures v.m.s.procs[0].budget == 0 && v.m.s.procs[2].budget == LOGSIZE - n
  {
    hide Start, WorldInv, Reaches, Calm;
    var x := g.start + g.size;
    var l0, w0 := ThreeBegin(g, w);
    var l1, w1 := LogMany(g, w0, 0, x, 10);
    var l2, w2 := LogMany(g, w1, 1, x + 10, 10);
    var l3;
    l3, v := LogMany(g, w2, 2, x + 20, n - 20);
    RunsJoin(g, w, l0, w0, l1, w1);
    RunsJoin(g, w, l0 + l1, w1, l2, w2);
    RunsJoin(g, w, l0 + l1 + l2, w2, l3, v);
    ls := l0 + l1 + l2 + l3;
    assert v.m.s.lh == seq(n, j => x + j);
  }

  /** An operation with budget left can panic when the log area has no more than LOGSIZE blocks, which
      is what mkfs gives it: there is a run to that point from every start with three processes. */
  lemma PanicIsReached(g: Geometry, w: World) returns (ls: seq<Label>, v: World, p: nat)
    requires Start(g, w) && |w.m.s.procs| >= 3 && g.size == LOGSIZE && g.start + g.size + LOGSIZE <= |w.m.s.io.disk|
    ensures Reaches(g, w, ls, v) && v.m.Up? && p < |v.m.s.procs| && v.m.s.procs[p].InOp? && v.m.s.procs[p].budget > 0
    ensures LogWritePanics(g, v.m.s)
  {
    hide Start, WorldInv, Reaches, Calm;
    ls, v := LogsMany(g, w, LOGSIZE - 1);
    p := 2;
  }

  /** However large the log area, an operation that logs a block again, which needs no space, can panic. */
  lemma AbsorbedPanicIsReached(g: Geometry, w: World) returns (ls: seq<Label>, v: World, p: nat, i: nat, x: nat)
    requires Start(g, w) && |w.m.s.procs| >= 3 && g.size >= LOGSIZE && g.start + g.size + LOGSIZE <= |w.m.s.io.disk|
    ensures Reaches(g, w, ls, v) && v.m.Up? && p < |v.m.s.procs| && v.m.s.procs[p].InOp? && Sized(v.m.s.io)
    ensures Holds(v.m.s, p, i, x) && x in v.m.s.lh && LogWritePanics(g, v.m.s)
    ensures |v.m.s.lh| == if g.size > LOGSIZE then LOGSIZE else g.size - 1
  {
    hide Start, WorldInv, Reaches, Calm, Holding;
    var l1, w1 := LogsMany(g, w, if g.size > LOGSIZE then LOGSIZE else g.size - 1);
    p, x := 0, w1.m.s.lh[0];
    var l2, w2, l3;
    i, l2, w2 := TakeBuffer(g, w1, p, x);
    l3, v := FillBuffer(g, w2, p, i, x);
    RunsJoin(g, w, l1, w1, l2, w2);
    RunsJoin(g, w, l1 + l2, w2, l3, v);
    ls := l1 + l2 + l3;
    HoldingHolds(g, v, p, i, x);
  }

  lemma HoldingHolds(g: Geometry, w: World, p: nat, i: nat, x: nat)
    requires Holding(g, w, p, i, x) && w.m.s.io.c.bufs[i].valid
    ensures Sized(w.m.s.io) && Holds(w.m.s, p, i, x)
  {
  }

  /** end_op. */
  lemma Ends(g: Geometry, w: World, p: nat) returns (ls: seq<Label>, v: World)
    requires Calm(g, w) && p < |w.m.s.procs| && w.m.s.procs[p].InOp? && w.m.s.outstanding > 0 && w.m.s.lh != []
    ensures Reaches(g, w, ls, v) && Still(g, v) && v.m.Up? && v.m.s.lh == w.m.s.lh
    ensures |v.m.s.io.disk| == |w.m.s.io.disk|
    ensures v.m.s.outstanding == w.m.s.outstanding - 1 && |v.m.s.procs| == |w.m.s.procs|
    ensures w.m.s.outstanding > 1 ==> Calm(g, v)
    ensures w.m.s.outstanding == 1 ==> v.m.s.phase == WriteLog(0)
    ensures forall q :: 0 <= q < |w.m.s.procs| && q != p && w.m.s.procs[q].InOp? ==> v.m.s.procs[q] == w.m.s.procs[q]
  {
    ls := [EndOp(p)];
    assert CanStep(g, w, ls[0]);
    OneStep(g, w, ls[0]);
    v := Next(g, w, ls[0]);
  }

  lemma AllEnd(g: Geometry, w: World) returns (ls: seq<Label>, v: World)
    requires Calm(g, w) && |w.m.s.procs| >= 3 && w.m.s.outstanding == 3 && w.m.s.lh != []
    requires forall p :: 0 <= p < 3 ==> w.m.s.procs[p].InOp?
    ensures Reaches(g, w, ls, v) && Still(g, v) && v.m.Up? && v.m.s.phase == WriteLog(0) && v.m.s.lh == w.m.s.lh
    ensures |v.m.s.io.disk| == |w.m.s.io.disk|
  {
    hide WorldInv, Reaches, Calm, Still;
    CalmUp(g, w);
    var l1, w1 := Ends(g, w, 0);
    var l2, w2 := Ends(g, w1, 1);
    var l3, w3 := Ends(g, w2, 2);
    RunsJoin(g, w, l1, w1, l2, w2);
    RunsJoin(g, w, l1 + l2, w2, l3, w3);
    ls, v := l1 + l2 + l3, w3;
  }

  /** With a log area of more than LOGSIZE blocks, a full log pins all NBUF buffers, and its commit
      panics in bget: there is a run to that point from every start with three processes. */
  lemma NoBufferIsReached(g: Geometry, w: World) returns (ls: seq<Label>, v: World)
    requires Start(g, w) && |w.m.s.procs| >= 3 && g.size > LOGSIZE && g.start + g.size + LOGSIZE <= |w.m.s.io.disk|
    ensures Reaches(g, w, ls, v) && v.m.Up? && v.m.s.phase == WriteLog(0) && |v.m.s.lh| == NBUF
    ensures forall b :: g.InLog(b) ==> !BgetSucceeds(v.m.s.io.c, b)
  {
    hide Start, WorldInv, Reaches, Calm, Still, BgetSucceeds;
    var l1, u := LogsMany(g, w, LOGSIZE);
    var l2;
    l2, v := AllEnd(g, u);
    RunsJoin(g, w, l1, u, l2, v);
    ls := l1 + l2;
    forall b | g.InLog(b) ensures !BgetSucceeds(v.m.s.io.c, b) {
      StillAlone(g, v);
      CommitAlone(g, w, ls, v, b);
    }
  }

  lemma StillAlone(g: Geometry, w: World)
    requires Still(g, w)
    ensures w.m.Up? && Sized(w.m.s.io) && |w.m.s.io.c.bufs| == NBUF
    ensures forall i :: 0 <= i < NBUF ==> w.m.s.io.waits[i] == 0 && w.m.s.io.c.bufs[i].pid == 0
  {
  }

  /** bget of a reader, which needs no operation, while a commit runs. */
  lemma ReaderGets(g: Geometry, w: World, x: nat) returns (i: nat, ls: seq<Label>, v: World)
    requires Still(g, w) && |w.m.s.lh| < NBUF && x < |w.m.s.io.disk|
    ensures Reaches(g, w, ls, v) && WorldInv(g, v) && SameLog(w, v) && v.m.s.phase == w.m.s.phase && Sized(v.m.s.io)
    ensures HeldBlocks(v.m.s.io) == {x}
  {
    i := PickExists(g, w, x);
    ls := [Io(Get(x, i))];
    assert CanStep(g, w, ls[0]);
    OneStep(g, w, ls[0]);
    v := Next(g, w, ls[0]);
    assert v.m.s.io.waits[i] == 1 && v.m.s.io.c.bufs[i].blockno == x;
  }

  /** With the log area that mkfs makes, a commit of as many blocks as fit panics in bget when one more
      process looks at a block: there is a run to that point from every start with three processes. */
  lemma ReaderTakesLastBuffer(g: Geometry, w: World) returns (ls: seq<Label>, v: World, x: nat)
    requires Start(g, w) && |w.m.s.procs| >= 3 && g.size == LOGSIZE && g.start + g.size + LOGSIZE <= |w.m.s.io.disk|
    ensures Reaches(g, w, ls, v) && v.m.Up? && v.m.s.phase == WriteLog(0) && |v.m.s.lh| == NBUF - 1 && Sized(v.m.s.io)
    ensures HeldBlocks(v.m.s.io) == {x} && forall b :: g.InLog(b) ==> !BgetSucceeds(v.m.s.io.c, b)
  {
    hide Start, WorldInv, Reaches, Calm, Still, BgetSucceeds, HeldBlocks;
    x := g.start + g.size + NBUF - 1;
    var l1, u1 := LogsMany(g, w, LOGSIZE - 1);
    var l2, u2 := AllEnd(g, u1);
    var i, l3;
    i, l3, v := ReaderGets(g, u2, x);
    RunsJoin(g, w, l1, u1, l2, u2);
    RunsJoin(g, w, l1 + l2, u2, l3, v);
    ls := l1 + l2 + l3;
    forall b | g.InLog(b) ensures !BgetSucceeds(v.m.s.io.c, b) {
      LastTaken(g, v, x, b);
    }
  }

  lemma LastTaken(g: Geometry, w: World, x: nat, b: nat)
    requires WorldInv(g, w) && w.m.Up? && w.m.s.phase == WriteLog(0) && Sized(w.m.s.io)
    requires |w.m.s.lh| == NBUF - 1 && x !in w.m.s.lh && HeldBlocks(w.m.s.io) == {x} && g.InLog(b) && !g.InLog(x)
    ensures !BgetSucceeds(w.m.s.io.c, b)
  {
    hide WorldInv, Pins, HeldBlocks, Cached, Spare;
    CacheFacts(g, w);
    Distinctly(w.m.s.lh);
    assert Busy(w.m.s) == Elements(w.m.s.lh) + {x};
    SpareIff(w.m.s);
    if Cached(w.m.s.io.c, ROOTDEV, b) {
      CachedIsBusy(w.m.s, b);
    }
  }
}
