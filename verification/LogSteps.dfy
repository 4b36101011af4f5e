/** The critical sections of class Logger are the steps of module GroupCommit. */
module LogSteps {
  import opened Blocks
  import opened CacheSpec
  import T = Transparency
  import opened LogFormat
  import G = GroupCommit
  import opened Log

  /** The fields of the log, the cache and the disk are those of the state. */
  ghost predicate Represents(log: Logger, s: G.State)
    reads log, log.block, log.bc, log.bc.buf, log.bc.next, log.bc.prev, log.disk
  {
    && log.Valid() && T.Sized(s.io) && s.lh == log.Lh() && log.outstanding == s.outstanding
    && log.committing == s.committing
    && s.io.c == log.bc.Abs() && s.io.disk == log.disk.blocks
  }

  /** begin_op: the operation starts, or the process goes to sleep. */
  method BeginStep(log: Logger, ghost s: G.State, ghost p: nat, ghost op: nat) returns (mustWait: bool)
    requires Represents(log, s) && p < |s.procs| && s.procs[p].Idle?
    modifies log`outstanding
    ensures mustWait ==> G.BeginSleepOk(s, p) && Represents(log, G.BeginSleepNext(s, p))
    ensures !mustWait ==> G.BeginOpOk(s, p) && Represents(log, G.BeginOpNext(s, p, op))
  {
    mustWait := log.BeginOp();
  }

  /** end_op: the panic needs a commit in progress, which no running operation allows. */
  method EndStep(log: Logger, ghost s: G.State, ghost p: nat) returns (doCommit: Option<bool>)
    requires Represents(log, s) && G.EndOpOk(s, p)
    modifies log`outstanding, log`committing
    ensures doCommit.None? <==> s.committing
    ensures doCommit.Some? ==> Represents(log, G.EndOpNext(s, p)) && doCommit.value == G.EndOpNext(s, p).committing
  {
    doCommit := log.EndOp();
  }

  /** log_write: it panics exactly when its guard says so, and else logs the block. */
  method LogWriteStep(log: Logger, ghost s: G.State, ghost p: nat, i: nat) returns (ok: bool)
    requires Represents(log, s) && p < |s.procs| && s.procs[p].InOp? && i < NBUF
    requires G.Holds(s, p, i, s.io.c.bufs[i].blockno) && !log.g.InLog(s.io.c.bufs[i].blockno)
    requires s.io.c.bufs[i].blockno !in s.lh ==> s.procs[p].budget > 0
    modifies log`n, log.block, log.bc.buf
    ensures ok <==> !G.LogWritePanics(log.g, s)
    ensures ok ==> G.LogWriteOk(log.g, s, p, i) && Represents(log, G.LogWriteNext(log.g, s, p, i))
  {
    ghost var c := log.bc.Abs();
    ok := log.LogWrite(i);
    if ok {
      assert T.Enabled(s.io, T.Pin(i));
      if s.io.c.bufs[i].blockno in s.lh {
        assert log.bc.Abs() == c;
      } else {
        assert log.bc.Abs().bufs == T.Step(s.io, T.Pin(i)).c.bufs;
      }
    }
  }
}
