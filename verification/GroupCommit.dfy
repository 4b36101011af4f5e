/** The log above the buffer cache, over whole runs: processes begin and end operations, read,
    change and log blocks in any interleaving; the last one out commits the group one block
    write at a time; the machine may crash before any step, recovery included. */
module GroupCommit {
  import opened Blocks
  import opened CacheSpec
  import opened Transparency
  import opened LogFormat

  /** What a process is doing as far as the log is concerned. */
  datatype Proc =
    | Idle
    | Asleep                          // in begin_op
    | InOp(op: nat, budget: nat)      // between begin_op and end_op; blocks it may still add
    | Committer                       // in commit

  datatype Phase =
    | Quiet
    | WriteLog(t: nat)                // t log data blocks written
    | Install(t: nat)                 // header written, t blocks installed
    | Finished                        // header erased

  /** What file-system operations did, in the order in which it became visible. */
  datatype Event =
    | Begin(op: nat)
    | Put(op: nat, b: nat, v: Block)
    | End(op: nat)

  /** The running machine: struct log, the cache and the disk, and the processes. */
  datatype State = State(io: Sys, lh: seq<nat>, outstanding: nat, committing: bool, phase: Phase,
                         procs: seq<Proc>)

  datatype Machine =
    | Up(s: State)
    | Recovering(d: Image, k: nat)    // booted from d, k block writes of recovery done

  /** The machine with its history: the home blocks at the beginning, the events since, how many
      of them the last commit point covers, and the next unused operation number. */
  datatype World = World(m: Machine, base: Image, trace: seq<Event>, durable: nat, nextop: nat)

  datatype Label =
    | Io(a: Action)
    | BeginOp(p: nat)
    | BeginSleep(p: nat)
    | LogWrite(p: nat, i: nat)
    | EndOp(p: nat)
    | WriteLogBlock(p: nat, i: nat, j: nat)
    | WriteHead(p: nat, i: nat)
    | InstallBlock(p: nat, i: nat, j: nat)
    | EraseHead(p: nat, i: nat)
    | Finish(p: nat)
    | Crash
    | RecoverWrite
    | Boot(s: State)

  // ---- Sums over the process table ----

  function Ops(procs: seq<Proc>): nat
  {
    if procs == [] then 0
    else Ops(procs[..|procs| - 1]) + (if procs[|procs| - 1].InOp? then 1 else 0)
  }

  function Budgets(procs: seq<Proc>): nat
  {
    if procs == [] then 0
    else Budgets(procs[..|procs| - 1])
         + (if procs[|procs| - 1].InOp? then procs[|procs| - 1].budget else 0)
  }

  lemma {:induction false} UpdateProc(procs: seq<Proc>, p: nat, q: Proc)
    requires p < |procs|
    ensures Ops(procs[p := q]) ==
      Ops(procs) - (if procs[p].InOp? then 1 else 0) + (if q.InOp? then 1 else 0)
    ensures Budgets(procs[p := q]) ==
      Budgets(procs) - (if procs[p].InOp? then procs[p].budget else 0) + (if q.InOp? then q.budget else 0)
  {
    var n := |procs| - 1;
    if p < n {
      assert procs[p := q][..n] == procs[..n][p := q];
      UpdateProc(procs[..n], p, q);
    } else {
      assert procs[p := q][..n] == procs[..n];
    }
  }

  lemma {:induction false} OpsAtLeast(procs: seq<Proc>, p: nat)
    requires p < |procs| && procs[p].InOp?
    ensures Ops(procs) >= 1 && Budgets(procs) >= procs[p].budget
  {
    if p < |procs| - 1 {
      OpsAtLeast(procs[..|procs| - 1], p);
    }
  }

  /** wakeup(&log). */
  function Woken(procs: seq<Proc>): (r: seq<Proc>)
    ensures |r| == |procs|
    ensures forall p :: 0 <= p < |procs| ==> r[p] == if procs[p].Asleep? then Idle else procs[p]
  {
    seq(|procs|, p requires 0 <= p < |procs| => if procs[p].Asleep? then Idle else procs[p])
  }

  lemma {:induction false} WokenSums(procs: seq<Proc>)
    ensures Ops(Woken(procs)) == Ops(procs) && Budgets(Woken(procs)) == Budgets(procs)
    decreases |procs|
  {
    if procs != [] {
      var n := |procs| - 1;
      assert Woken(procs)[..n] == Woken(procs[..n]);
      WokenSums(procs[..n]);
    }
  }

  // ---- History ----

  /** The home blocks after the writes of a trace. */
  function Apply(base: Image, trace: seq<Event>): (r: Image)
    ensures |r| == |base|
  {
    if trace == [] then base
    else
      var r := Apply(base, trace[..|trace| - 1]);
      var e := trace[|trace| - 1];
      if e.Put? && e.b < |r| then r[e.b := e.v] else r
  }

  lemma ApplyAppend(base: Image, trace: seq<Event>, e: Event)
    ensures var r := Apply(base, trace);
      Apply(base, trace + [e]) == if e.Put? && e.b < |r| then r[e.b := e.v] else r
  {
    assert (trace + [e])[..|trace|] == trace;
  }

  /** No operation has events on both sides of position k. */
  ghost predicate NotTorn(trace: seq<Event>, k: nat)
  {
    forall i, j :: 0 <= i < k <= j < |trace| ==> trace[i].op != trace[j].op
  }

  /** Every operation among the first k events ends among them. */
  ghost predicate AllEnded(trace: seq<Event>, k: nat)
    requires k <= |trace|
  {
    forall i :: 0 <= i < k ==> End(trace[i].op) in trace[..k]
  }

  // ---- Steps ----

  /** What begin_op waits for. */
  predicate MustWait(s: State)
  {
    s.committing || |s.lh| + (s.outstanding + 1) * MAXOPBLOCKS > LOGSIZE
  }

  /** The guard of log_write: "too big a transaction" or "log_write outside of trans". */
  predicate LogWritePanics(g: Geometry, s: State)
  {
    |s.lh| >= LOGSIZE || |s.lh| >= g.size - 1 || s.outstanding < 1
  }

  /** Process p holds buffer i, which carries valid contents of block b. */
  predicate Holds(s: State, p: nat, i: nat, b: nat)
    requires Sized(s.io)
  {
    && Held(s.io, i) && s.io.c.bufs[i].pid == p + 1 && s.io.c.bufs[i].blockno == b
    && s.io.c.bufs[i].valid
  }

  predicate DirtyByOp(g: Geometry, s: State, i: nat)
    requires Sized(s.io) && i < NBUF
  {
    var b := s.io.c.bufs[i];
    && s.io.dirty[i] && !g.InLog(b.blockno)
    && 1 <= b.pid <= |s.procs| && s.procs[b.pid - 1].InOp?
  }

  /** Modify and write buffer i: memmove followed by bwrite. */
  ghost predicate CanStore(s: Sys, i: nat, v: Block)
  {
    Enabled(s, Modify(i, v)) && Enabled(Step(s, Modify(i, v)), Write(i))
  }

  ghost function Stored(s: Sys, i: nat, v: Block): Sys
    requires CanStore(s, i, v)
  {
    Step(Step(s, Modify(i, v)), Write(i))
  }

  /** When a label may happen. Callers of the log change a block only inside an operation and
      call log_write before they release it; the rest are the guards of log.c. */
  ghost predicate CanStep(g: Geometry, w: World, l: Label)
  {
    if l.RecoverWrite? then w.m.Recovering? && Recoverable(g, w.m.d) && w.m.k <= w.m.d[g.start][0]
    else if l.Boot? then
      && w.m.Recovering? && Recoverable(g, w.m.d) && w.m.k == w.m.d[g.start][0] + 1
      && Fresh(l.s, RecoverImage(g, w.m.d, w.m.k))
    else if l.Crash? then w.m.Recovering? ==> Recoverable(g, w.m.d) && w.m.k <= w.m.d[g.start][0] + 1
    else w.m.Up? && Sized(w.m.s.io) && g.Fits(w.m.s.io.disk) && CanStepUp(g, w.m.s, l)
  }

  /** Ordinary use of the cache. */
  ghost predicate IoOk(g: Geometry, s: State, a: Action)
    requires Sized(s.io)
  {
    && Enabled(s.io, a)
    && match a
       case Get(b, i) => true
       case Acquire(i, pid) => pid <= |s.procs|
       case Fill(i) => true
       case Modify(i, v) => (var b := s.io.c.bufs[i];
         b.valid && !g.InLog(b.blockno) && b.pid <= |s.procs| && s.procs[b.pid - 1].InOp?)
       case Release(i) => DirtyByOp(g, s, i) ==> s.io.c.bufs[i].blockno in s.lh
       case _ => false
  }

  predicate BeginOpOk(s: State, p: nat) { p < |s.procs| && s.procs[p].Idle? && !MustWait(s) }

  function BeginOpNext(s: State, p: nat, op: nat): State
    requires p < |s.procs|
  {
    s.(outstanding := s.outstanding + 1, procs := s.procs[p := InOp(op, MAXOPBLOCKS)])
  }

  predicate BeginSleepOk(s: State, p: nat) { p < |s.procs| && s.procs[p].Idle? && MustWait(s) }

  function BeginSleepNext(s: State, p: nat): State
    requires p < |s.procs|
  {
    s.(procs := s.procs[p := Asleep])
  }

  /** log_write that does not panic: an absorbed block, or a new one within the budget. */
  ghost predicate LogWriteOk(g: Geometry, s: State, p: nat, i: nat)
    requires Sized(s.io)
  {
    && p < |s.procs| && s.procs[p].InOp? && i < NBUF && Holds(s, p, i, s.io.c.bufs[i].blockno)
    && !g.InLog(s.io.c.bufs[i].blockno) && !LogWritePanics(g, s)
    && (s.io.c.bufs[i].blockno !in s.lh ==> s.procs[p].budget > 0 && Enabled(s.io, Pin(i)))
  }

  ghost function LogWriteNext(g: Geometry, s: State, p: nat, i: nat): State
    requires Sized(s.io) && LogWriteOk(g, s, p, i)
  {
    var b := s.io.c.bufs[i].blockno;
    if b in s.lh then s
    else s.(io := Step(s.io, Pin(i)), lh := s.lh + [b],
            procs := s.procs[p := InOp(s.procs[p].op, s.procs[p].budget - 1)])
  }

  /** end_op by a process that holds no changed buffer. */
  predicate EndOpOk(s: State, p: nat)
    requires Sized(s.io)
  {
    && p < |s.procs| && s.procs[p].InOp? && s.outstanding > 0
    && forall i :: 0 <= i < NBUF && s.io.c.bufs[i].pid == p + 1 ==> !s.io.dirty[i]
  }

  function EndOpNext(s: State, p: nat): State
    requires p < |s.procs| && s.outstanding > 0
  {
    if s.outstanding == 1 then
      s.(outstanding := 0, committing := true, procs := s.procs[p := Committer],
         phase := if s.lh == [] then Finished else WriteLog(0))
    else
      s.(outstanding := s.outstanding - 1, procs := Woken(s.procs[p := Idle]))
  }

  /** One round of write_log: buffer i carries the log block, buffer j the logged block. */
  ghost predicate WriteLogOk(g: Geometry, s: State, p: nat, i: nat, j: nat)
    requires Sized(s.io)
  {
    && CommitterAt(s, p) && s.phase.WriteLog? && s.phase.t < |s.lh| < g.size
    && Holds(s, p, i, g.start + 1 + s.phase.t) && Holds(s, p, j, s.lh[s.phase.t])
    && CanStore(s.io, i, s.io.c.bufs[j].data)
  }

  ghost function WriteLogNext(g: Geometry, s: State, p: nat, i: nat, j: nat): State
    requires Sized(s.io) && WriteLogOk(g, s, p, i, j)
  {
    s.(io := Stored(s.io, i, s.io.c.bufs[j].data), phase := WriteLog(s.phase.t + 1))
  }

  /** write_head with the block list: the commit point. */
  ghost predicate WriteHeadOk(g: Geometry, s: State, p: nat, i: nat)
    requires Sized(s.io)
  {
    && CommitterAt(s, p) && s.phase == WriteLog(|s.lh|) && Holds(s, p, i, g.start)
    && |s.lh| <= LOGSIZE && (forall k :: 0 <= k < |s.lh| ==> s.lh[k] < 0x8000_0000)
    && CanStore(s.io, i, Encode(s.io.c.bufs[i].data, s.lh))
  }

  ghost function WriteHeadNext(g: Geometry, s: State, p: nat, i: nat): State
    requires Sized(s.io) && WriteHeadOk(g, s, p, i)
  {
    s.(io := Stored(s.io, i, Encode(s.io.c.bufs[i].data, s.lh)), phase := Install(0))
  }

  /** One round of install_trans, the bunpin included. */
  ghost predicate InstallOk(g: Geometry, s: State, p: nat, i: nat, j: nat)
    requires Sized(s.io)
  {
    && CommitterAt(s, p) && s.phase.Install? && s.phase.t < |s.lh| < g.size
    && Holds(s, p, i, g.start + 1 + s.phase.t) && Holds(s, p, j, s.lh[s.phase.t])
    && CanStore(s.io, j, s.io.c.bufs[i].data)
    && Enabled(Stored(s.io, j, s.io.c.bufs[i].data), Unpin(j))
  }

  ghost function InstallNext(g: Geometry, s: State, p: nat, i: nat, j: nat): State
    requires Sized(s.io) && InstallOk(g, s, p, i, j)
  {
    s.(io := Step(Stored(s.io, j, s.io.c.bufs[i].data), Unpin(j)), phase := Install(s.phase.t + 1))
  }

  /** log.lh.n = 0; write_head. */
  ghost predicate EraseHeadOk(g: Geometry, s: State, p: nat, i: nat)
    requires Sized(s.io)
  {
    && CommitterAt(s, p) && s.phase == Install(|s.lh|) && Holds(s, p, i, g.start)
    && CanStore(s.io, i, Encode(s.io.c.bufs[i].data, []))
  }

  ghost function EraseHeadNext(g: Geometry, s: State, p: nat, i: nat): State
    requires Sized(s.io) && EraseHeadOk(g, s, p, i)
  {
    s.(io := Stored(s.io, i, Encode(s.io.c.bufs[i].data, [])), lh := [], phase := Finished)
  }

  predicate FinishOk(s: State, p: nat) { CommitterAt(s, p) && s.phase.Finished? }

  function FinishNext(s: State, p: nat): State
    requires p < |s.procs|
  {
    s.(committing := false, phase := Quiet, procs := Woken(s.procs[p := Idle]))
  }

  ghost predicate CanStepUp(g: Geometry, s: State, l: Label)
    requires Sized(s.io) && g.Fits(s.io.disk)
  {
    match l
    case Io(a) => IoOk(g, s, a)
    case BeginOp(p) => BeginOpOk(s, p)
    case BeginSleep(p) => BeginSleepOk(s, p)
    case LogWrite(p, i) => LogWriteOk(g, s, p, i)
    case EndOp(p) => EndOpOk(s, p)
    case WriteLogBlock(p, i, j) => WriteLogOk(g, s, p, i, j)
    case WriteHead(p, i) => WriteHeadOk(g, s, p, i)
    case InstallBlock(p, i, j) => InstallOk(g, s, p, i, j)
    case EraseHead(p, i) => EraseHeadOk(g, s, p, i)
    case Finish(p) => FinishOk(s, p)
    case Crash => true
    case RecoverWrite => false
    case Boot(_) => false
  }

  predicate CommitterAt(s: State, p: nat) { p < |s.procs| && s.procs[p].Committer? }

  /** The machine right after recovery: an empty cache and an empty log. */
  ghost predicate Fresh(s: State, d: Image)
  {
    && Transparency.Init(s.io) && s.io.disk == d
    && s.lh == [] && s.outstanding == 0 && !s.committing && s.phase == Quiet
    && forall p :: 0 <= p < |s.procs| ==> s.procs[p].Idle?
  }

  ghost function NextUp(g: Geometry, s: State, l: Label, nextop: nat): State
    requires Sized(s.io) && g.Fits(s.io.disk) && CanStepUp(g, s, l)
  {
    match l
    case Io(a) => s.(io := Step(s.io, a))
    case BeginOp(p) => BeginOpNext(s, p, nextop)
    case BeginSleep(p) => BeginSleepNext(s, p)
    case LogWrite(p, i) => LogWriteNext(g, s, p, i)
    case EndOp(p) => EndOpNext(s, p)
    case WriteLogBlock(p, i, j) => WriteLogNext(g, s, p, i, j)
    case WriteHead(p, i) => WriteHeadNext(g, s, p, i)
    case InstallBlock(p, i, j) => InstallNext(g, s, p, i, j)
    case EraseHead(p, i) => EraseHeadNext(g, s, p, i)
    case Finish(p) => FinishNext(s, p)
    case Crash => s
  }

  /** The events a step adds to the history. */
  function NewEvents(g: Geometry, s: State, l: Label, nextop: nat): seq<Event>
    requires Sized(s.io)
  {
    match l
    case BeginOp(p) => [Begin(nextop)]
    case EndOp(p) => if p < |s.procs| && s.procs[p].InOp? then [End(s.procs[p].op)] else []
    case Io(a) =>
      if a.Release? && a.i < NBUF && DirtyByOp(g, s, a.i) then
        var b := s.io.c.bufs[a.i];
        [Put(s.procs[b.pid - 1].op, b.blockno, b.data)]
      else []
    case _ => []
  }

  ghost function Next(g: Geometry, w: World, l: Label): World
    requires CanStep(g, w, l) && w.durable <= |w.trace|
  {
    match l
    case Crash =>
      var d := if w.m.Up? then w.m.s.io.disk else RecoverImage(g, w.m.d, w.m.k);
      w.(m := Recovering(d, 0), trace := w.trace[..w.durable])
    case RecoverWrite => w.(m := Recovering(w.m.d, w.m.k + 1))
    case Boot(s) => w.(m := Up(s))
    case _ =>
      var trace := w.trace + NewEvents(g, w.m.s, l, w.nextop);
      World(Up(NextUp(g, w.m.s, l, w.nextop)), w.base, trace,
            if l.WriteHead? then |trace| else w.durable,
            if l.BeginOp? then w.nextop + 1 else w.nextop)
  }

  /** A world reached from a freshly booted machine over an image with an empty log. */
  ghost predicate Start(g: Geometry, w: World)
  {
    && w.m.Up? && Fresh(w.m.s, w.m.s.io.disk) && CleanLog(g, w.m.s.io.disk)
    && w.base == w.m.s.io.disk && w.trace == [] && w.durable == 0
  }

  ghost predicate Reaches(g: Geometry, w: World, ls: seq<Label>, v: World)
    decreases |ls|
  {
    if ls == [] then v == w
    else w.durable <= |w.trace| && CanStep(g, w, ls[0]) && Reaches(g, Next(g, w, ls[0]), ls[1..], v)
  }

  /** The image that the next crash would leave on disk. */
  ghost function OnDisk(g: Geometry, m: Machine): Image
    requires m.Recovering? ==> Recoverable(g, m.d) && m.k <= m.d[g.start][0] + 1
  {
    if m.Up? then m.s.io.disk else RecoverImage(g, m.d, m.k)
  }
}
