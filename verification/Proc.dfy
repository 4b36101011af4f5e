/** sleep and wakeup, sleeplocks, fork, exit, wait and the scheduler: any number of processes and
    CPUs, interleaved at every acquire, release and context switch. */
module Proc {
  import opened Blocks

  datatype State = UNUSED | USED | SLEEPING | RUNNABLE | RUNNING | ZOMBIE

  /** What a process sleeps on: a sleeplock, or itself in wait. */
  datatype Chan = OnLock(l: nat) | OnProc(p: nat)

  /** The holder of a p->lock: a process, or the scheduler of some CPU. */
  datatype Holder = By(p: nat) | Sched

  /** Why a process left its CPU, and so where it goes on. */
  datatype Why = Slept(c: Chan) | Yielded | Exited | Forked

  /** Where wakeup returns to: releasesleep, reparent's loop, or exit. */
  datatype Ret = ToRelease(l: nat) | ToReparent(i: nat) | ToExit

  datatype Pc =
    | Out                          // a slot that is UNUSED, or USED by a fork in progress
    | Run                          // in user space or in kernel code that holds none of the locks
    // acquiresleep and releasesleep
    | WantSleeplock(l: nat)        // acquire(&lk->lk)
    | TestSleeplock(l: nat)        // while (lk->locked), holding lk->lk
    | SetSleeplock(l: nat)         // lk->locked = 1
    | GotSleeplock(l: nat)         // release(&lk->lk)
    | DropSleeplock(l: nat)        // acquire(&lk->lk) in releasesleep
    | ClearSleeplock(l: nat)       // lk->locked = 0
    | DroppedSleeplock(l: nat)     // release(&lk->lk)
    // sleep(chan, lk)
    | Sleep0(c: Chan)              // acquire(&p->lock), holding lk
    | Sleep1(c: Chan)              // release(lk), holding both
    | Sleep2(c: Chan)              // p->chan = chan; p->state = SLEEPING
    | Reacquire(c: Chan)           // acquire(lk)
    // wakeup(chan)
    | Wake(c: Chan, k: nat, ret: Ret)    // the loop, at process k
    | WakeAt(c: Chan, k: nat, ret: Ret)  // holding k's lock
    // sched and swtch
    | Leave(w: Why)                // in sched, state set, holding p->lock
    | Gone(w: Why)                 // switched out; the scheduler holds p->lock
    | Parked(w: Why)               // switched out
    | Back(w: Why)                 // switched in, holding p->lock
    | Yield                        // p->state = RUNNABLE, holding p->lock
    | Kill(q: nat)                 // in kill, holding q's lock
    // fork
    | ForkInit(np: nat)            // allocproc and uvmcopy, holding np->lock
    | ForkWant(np: nat)            // acquire(&wait_lock)
    | ForkParent(np: nat)          // np->parent = p, holding wait_lock
    | ForkDone(np: nat)            // release(&wait_lock)
    | ForkLock(np: nat)            // acquire(&np->lock)
    | ForkRun(np: nat)             // np->state = RUNNABLE; release(&np->lock)
    // exit
    | ExitWant                     // acquire(&wait_lock)
    | Reparent(i: nat)             // the loop of reparent, holding wait_lock
    | ExitLock                     // acquire(&p->lock), holding wait_lock
    | ExitZombie                   // p->state = ZOMBIE, holding both
    | ExitRelease                  // release(&wait_lock)
    // wait
    | WaitWant                     // acquire(&wait_lock)
    | Scan(i: nat, kids: bool)     // the loop over the process table, holding wait_lock
    | ScanAt(i: nat, kids: bool)   // holding the child's lock too
    | WaitDone                     // release(&wait_lock)

  /** The spinlock that sleep(c, lk) gives up: wait_lock is number 0, lk->lk of sleeplock l is l + 1. */
  function LkOf(c: Chan): nat { if c.OnLock? then c.l + 1 else 0 }

  /** The condition lock held at a program point. */
  function SpinOf(pc: Pc): Option<nat>
  {
    match pc
    case TestSleeplock(l) => Some(l + 1)
    case SetSleeplock(l) => Some(l + 1)
    case GotSleeplock(l) => Some(l + 1)
    case ClearSleeplock(l) => Some(l + 1)
    case DroppedSleeplock(l) => Some(l + 1)
    case Sleep0(c) => Some(LkOf(c))
    case Sleep1(c) => Some(LkOf(c))
    case Wake(c, k, ret) => Some(LkOf(c))
    case WakeAt(c, k, ret) => Some(LkOf(c))
    case ForkParent(np) => Some(0)
    case ForkDone(np) => Some(0)
    case Reparent(i) => Some(0)
    case ExitLock => Some(0)
    case ExitZombie => Some(0)
    case ExitRelease => Some(0)
    case Scan(i, kids) => Some(0)
    case ScanAt(i, kids) => Some(0)
    case WaitDone => Some(0)
    case _ => None
  }

  /** The process whose p->lock is held at a program point of process p. */
  function PLockOf(p: nat, pc: Pc): Option<nat>
  {
    match pc
    case Sleep1(c) => Some(p)
    case Sleep2(c) => Some(p)
    case WakeAt(c, k, ret) => Some(k)
    case Leave(w) => Some(p)
    case Back(w) => Some(p)
    case Yield => Some(p)
    case Kill(q) => Some(q)
    case ForkInit(np) => Some(np)
    case ForkRun(np) => Some(np)
    case ExitZombie => Some(p)
    case ExitRelease => Some(p)
    case ScanAt(i, kids) => Some(i)
    case _ => None
  }

  /** struct proc as far as it matters here; holds is the set of sleeplocks that the process acquired
      and did not release. */
  datatype Process = Process(state: State, chan: Option<Chan>, lock: Option<Holder>, parent: Option<nat>, pc: Pc,
                             holds: set<nat>)

  /** The process table, the condition locks' holders, and each sleeplock's holder if it is locked. */
  datatype Kernel = Kernel(procs: seq<Process>, spin: seq<Option<nat>>, locks: seq<Option<nat>>)

  const INIT: nat := 0

  predicate Sized(k: Kernel) { |k.spin| == |k.locks| + 1 && |k.procs| > INIT }

  function Put(k: Kernel, p: nat, r: Process): Kernel
    requires p < |k.procs|
  {
    k.(procs := k.procs[p := r])
  }

  /** Process p goes on at pc. */
  function Go(k: Kernel, p: nat, pc: Pc): Kernel
    requires p < |k.procs|
  {
    Put(k, p, k.procs[p].(pc := pc))
  }

  /** Process p acquired condition lock s and goes on at pc. */
  function GoSpin(k: Kernel, p: nat, s: nat, pc: Pc): Kernel
    requires p < |k.procs| && s < |k.spin|
  {
    Go(k, p, pc).(spin := k.spin[s := Some(p)])
  }

  /** Process p released condition lock s. */
  function GoUnspin(k: Kernel, p: nat, s: nat, pc: Pc): Kernel
    requires p < |k.procs| && s < |k.spin|
  {
    Go(k, p, pc).(spin := k.spin[s := None])
  }

  /** Process p acquired q's p->lock. */
  function GoLock(k: Kernel, p: nat, q: nat, pc: Pc): Kernel
    requires p < |k.procs| && q < |k.procs|
  {
    var k1 := Put(k, q, k.procs[q].(lock := Some(By(p))));
    Go(k1, p, pc)
  }

  /** Process p gave up q's p->lock, having changed q to r. */
  function GoUnlock(k: Kernel, p: nat, q: nat, r: Process, pc: Pc): Kernel
    requires p < |k.procs| && q < |k.procs|
  {
    var k1 := Put(k, q, r.(lock := None));
    Go(k1, p, pc)
  }

  predicate IsParent(k: Kernel, p: nat, q: nat)
    requires q < |k.procs|
  {
    k.procs[q].parent == Some(p)
  }

  /** A step of process p, one critical action each. */
  datatype Choice = Choice(n: nat, b: bool)

  /** The successors of program points at which a process acts on its own: what it does next may
      depend on a choice (which call it makes, which lock or process it names, whether copyout or
      uvmcopy fails, whether it was killed). None: it cannot move now. */
  function Move(k: Kernel, p: nat, ch: Choice): (r: Option<Kernel>)
    requires Sized(k) && p < |k.procs|
  {
    var me := k.procs[p];
    match me.pc
    case WantSleeplock(l) =>
      if l < |k.locks| && k.spin[l + 1].None? then Some(GoSpin(k, p, l + 1, TestSleeplock(l))) else None
    case TestSleeplock(l) =>
      if l >= |k.locks| then None
      else Some(Go(k, p, if k.locks[l].Some? then Sleep0(OnLock(l)) else SetSleeplock(l)))
    case SetSleeplock(l) =>
      if l < |k.locks|
      then Some(Put(k, p, me.(pc := GotSleeplock(l), holds := me.holds + {l})).(locks := k.locks[l := Some(p)]))
      else None
    case GotSleeplock(l) =>
      if l < |k.locks| then Some(GoUnspin(k, p, l + 1, Run)) else None
    case DropSleeplock(l) =>
      if l < |k.locks| && k.spin[l + 1].None? then Some(GoSpin(k, p, l + 1, ClearSleeplock(l))) else None
    case ClearSleeplock(l) =>
      if l < |k.locks|
      then Some(Put(k, p, me.(pc := Wake(OnLock(l), 0, ToRelease(l)), holds := me.holds - {l}))
                .(locks := k.locks[l := None]))
      else None
    case DroppedSleeplock(l) =>
      if l < |k.locks| then Some(GoUnspin(k, p, l + 1, Run)) else None
    case Sleep0(c) =>
      if me.lock.None? then Some(GoLock(k, p, p, Sleep1(c))) else None
    case Sleep1(c) =>
      if LkOf(c) < |k.spin| then Some(GoUnspin(k, p, LkOf(c), Sleep2(c))) else None
    case Sleep2(c) =>
      Some(Put(k, p, me.(chan := Some(c), state := SLEEPING, pc := Leave(Slept(c)))))
    case Reacquire(c) =>
      if LkOf(c) < |k.spin| && k.spin[LkOf(c)].None?
      then Some(GoSpin(k, p, LkOf(c), if c.OnLock? then TestSleeplock(c.l) else Scan(0, false)))
      else None
    case Wake(c, i, ret) =>
      if i >= |k.procs| then
        Some(Go(k, p, match ret
                      case ToRelease(l) => DroppedSleeplock(l)
                      case ToReparent(j) => Reparent(j)
                      case ToExit => ExitLock))
      else if i == p then Some(Go(k, p, Wake(c, i + 1, ret)))
      else if k.procs[i].lock.None? then Some(GoLock(k, p, i, WakeAt(c, i, ret)))
      else None
    case WakeAt(c, i, ret) =>
      if i >= |k.procs| || i == p then None
      else
        var q := k.procs[i];
        Some(GoUnlock(k, p, i, if q.state == SLEEPING && q.chan == Some(c) then q.(state := RUNNABLE) else q,
                      Wake(c, i + 1, ret)))
    case Leave(w) =>
      Some(Put(k, p, me.(lock := Some(Sched), pc := Gone(w))))
    case Back(w) =>
      if w.Exited? then None
      else Some(Put(k, p, me.(lock := None, chan := if w.Slept? then None else me.chan,
                              pc := if w.Slept? then Reacquire(w.c) else Run)))
    case Yield =>
      Some(Put(k, p, me.(state := RUNNABLE, pc := Leave(Yielded))))
    case Kill(q) =>
      if q >= |k.procs| || q == p then None
      else
        var r := k.procs[q];
        Some(GoUnlock(k, p, q, if r.state == SLEEPING then r.(state := RUNNABLE) else r, Run))
    case ForkInit(np) =>
      if np >= |k.procs| || np == p then None
      else if ch.b then Some(GoUnlock(k, p, np, Process(UNUSED, None, None, None, Out, {}), Run))
      else Some(GoUnlock(k, p, np, k.procs[np], ForkWant(np)))
    case ForkWant(np) =>
      if k.spin[0].None? then Some(GoSpin(k, p, 0, ForkParent(np))) else None
    case ForkParent(np) =>
      if np >= |k.procs| || np == p then None
      else Some(Go(Put(k, np, k.procs[np].(parent := Some(p))), p, ForkDone(np)))
    case ForkDone(np) => Some(GoUnspin(k, p, 0, ForkLock(np)))
    case ForkLock(np) =>
      if np < |k.procs| && np != p && k.procs[np].lock.None? then Some(GoLock(k, p, np, ForkRun(np))) else None
    case ForkRun(np) =>
      if np >= |k.procs| || np == p then None
      else Some(GoUnlock(k, p, np, k.procs[np].(state := RUNNABLE, pc := Parked(Forked)), Run))
    case ExitWant =>
      if k.spin[0].None? then Some(GoSpin(k, p, 0, Reparent(0))) else None
    case Reparent(i) =>
      if i >= |k.procs| then
        (if me.parent.Some? then Some(Go(k, p, Wake(OnProc(me.parent.value), 0, ToExit))) else None)
      else if IsParent(k, p, i) && i != p then
        Some(Go(Put(k, i, k.procs[i].(parent := Some(INIT))), p, Wake(OnProc(INIT), 0, ToReparent(i + 1))))
      else Some(Go(k, p, Reparent(i + 1)))
    case ExitLock =>
      if me.lock.None? then Some(GoLock(k, p, p, ExitZombie)) else None
    case ExitZombie => Some(Put(k, p, me.(state := ZOMBIE, pc := ExitRelease)))
    case ExitRelease => Some(GoUnspin(k, p, 0, Leave(Exited)))
    case WaitWant =>
      if k.spin[0].None? then Some(GoSpin(k, p, 0, Scan(0, false))) else None
    case Scan(i, kids) =>
      if i >= |k.procs| then Some(Go(k, p, if kids && !ch.b then Sleep0(OnProc(p)) else WaitDone))
      else if !IsParent(k, p, i) then Some(Go(k, p, Scan(i + 1, kids)))
      else if i != p && k.procs[i].lock.None? then Some(GoLock(k, p, i, ScanAt(i, kids)))
      else None
    case ScanAt(i, kids) =>
      if i >= |k.procs| || i == p then None
      else if k.procs[i].state == ZOMBIE then
        Some(GoUnlock(k, p, i, if ch.b then k.procs[i] else Process(UNUSED, None, None, None, Out, {}), WaitDone))
      else Some(GoUnlock(k, p, i, k.procs[i], Scan(i + 1, true)))
    case WaitDone => Some(GoUnspin(k, p, 0, Run))
    case _ => None
  }

  /** What a process in user space or elsewhere in the kernel may call. releasesleep is called by the
      holder, exit without sleeplocks; kill names another process. */
  function Call(k: Kernel, p: nat, to: Pc): Option<Kernel>
    requires Sized(k) && p < |k.procs|
  {
    var me := k.procs[p];
    if !me.pc.Run? then None
    else
      match to
      case WantSleeplock(l) => if l < |k.locks| then Some(Go(k, p, to)) else None
      case DropSleeplock(l) => if l < |k.locks| && l in me.holds then Some(Go(k, p, to)) else None
      case Yield => if me.lock.None? then Some(GoLock(k, p, p, to)) else None
      case Kill(q) => if q < |k.procs| && q != p && k.procs[q].lock.None? then Some(GoLock(k, p, q, to)) else None
      case ForkInit(np) =>
        if np < |k.procs| && np != p && k.procs[np].lock.None? && k.procs[np].state == UNUSED
        then Some(GoLock(Put(k, np, k.procs[np].(state := USED)), p, np, to))
        else None
      case ExitWant => if p != INIT && me.holds == {} then Some(Go(k, p, to)) else None
      case WaitWant => Some(Go(k, p, to))
      case _ => None
  }

  /** One step: of a process, or of the scheduler of some CPU. */
  datatype Label =
    | Steps(p: nat, ch: Choice)
    | Calls(p: nat, to: Pc)
    | Take(q: nat)      // acquire(&p->lock) in scheduler
    | Dispatch(q: nat)  // p->state = RUNNING and swtch to it
    | Drop(q: nat)      // release(&p->lock) in scheduler

  function Next(k: Kernel, a: Label): Option<Kernel>
    requires Sized(k)
  {
    match a
    case Steps(p, ch) => if p < |k.procs| then Move(k, p, ch) else None
    case Calls(p, to) => if p < |k.procs| then Call(k, p, to) else None
    case Take(q) =>
      if q < |k.procs| && k.procs[q].lock.None? then Some(Put(k, q, k.procs[q].(lock := Some(Sched)))) else None
    case Dispatch(q) =>
      if q < |k.procs| && k.procs[q].lock == Some(Sched) && k.procs[q].state == RUNNABLE && k.procs[q].pc.Parked?
      then Some(Put(k, q, k.procs[q].(state := RUNNING, lock := Some(By(q)), pc := Back(k.procs[q].pc.w))))
      else None
    case Drop(q) =>
      if q < |k.procs| && k.procs[q].lock == Some(Sched)
      then Some(Put(k, q, k.procs[q].(lock := None,
                     pc := if k.procs[q].pc.Gone? then Parked(k.procs[q].pc.w) else k.procs[q].pc)))
      else None
  }

  /** Boot: userinit made the first process, all else is unused. */
  ghost predicate Init(k: Kernel)
  {
    && Sized(k)
    && (forall p :: 0 <= p < |k.procs| && p != INIT ==> k.procs[p] == Process(UNUSED, None, None, None, Out, {}))
    && k.procs[INIT] == Process(RUNNABLE, None, None, None, Parked(Forked), {})
    && (forall s :: 0 <= s < |k.spin| ==> k.spin[s] == None)
    && forall l :: 0 <= l < |k.locks| ==> k.locks[l] == None
  }

  ghost predicate Runs(k: Kernel, acts: seq<Label>, k': Kernel)
    decreases |acts|
  {
    if acts == [] then k' == k
    else Sized(k) && Next(k, acts[0]).Some? && Runs(Next(k, acts[0]).value, acts[1..], k')
  }

  ghost predicate Reachable(k: Kernel)
  {
    exists k0, acts :: Init(k0) && Runs(k0, acts, k)
  }
}
