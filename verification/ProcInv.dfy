/** The invariant of module Proc: what every interleaving keeps. */
module ProcInv {
  import opened Blocks
  import opened Proc

  /** The process released the condition lock in sleep(c), and no one woke it since. */
  predicate WaitsOn(r: Process, c: Chan)
  {
    || r.pc == Sleep2(c)
    || r.pc == Leave(Slept(c))
    || ((r.pc == Gone(Slept(c)) || r.pc == Parked(Slept(c))) && r.state == SLEEPING)
  }

  /** The process is in the loop of wakeup(c), at process i. */
  predicate WakesFrom(pc: Pc, c: Chan, i: nat) { (pc.Wake? || pc.WakeAt?) && pc.c == c && pc.k <= i }

  /** The holder of condition lock s is going to wake process i from channel c. */
  predicate WillWake(k: Kernel, s: nat, c: Chan, i: nat)
  {
    && s < |k.spin| && k.spin[s].Some? && k.spin[s].value < |k.procs| && k.spin[s].value != i
    && WakesFrom(k.procs[k.spin[s].value].pc, c, i)
  }

  /** The slot that a fork in progress fills. */
  function ForkOf(pc: Pc): Option<nat>
  {
    match pc
    case ForkInit(np) => Some(np)
    case ForkWant(np) => Some(np)
    case ForkParent(np) => Some(np)
    case ForkDone(np) => Some(np)
    case ForkLock(np) => Some(np)
    case ForkRun(np) => Some(np)
    case _ => None
  }

  /** The first slot that may still hold a child of a process at this program point. */
  function KidsFrom(pc: Pc, n: nat): nat
  {
    match pc
    case Out => n
    case Reparent(i) => i
    case Wake(c, i, ret) => if ret.ToReparent? then ret.i else if ret.ToExit? then n else 0
    case WakeAt(c, i, ret) => if ret.ToReparent? then ret.i else if ret.ToExit? then n else 0
    case ExitLock => n
    case ExitZombie => n
    case ExitRelease => n
    case Leave(w) => if w.Exited? then n else 0
    case Gone(w) => if w.Exited? then n else 0
    case Parked(w) => if w.Exited? then n else 0
    case _ => 0
  }

  predicate Exiting(pc: Pc)
  {
    || pc.ExitWant? || pc.Reparent? || pc.ExitLock? || pc.ExitZombie? || pc.ExitRelease?
    || ((pc.Leave? || pc.Gone? || pc.Parked? || pc.Back?) && pc.w.Exited?)
    || ((pc.Wake? || pc.WakeAt?) && !pc.ret.ToRelease?)
  }

  /** No child of p below slot i is a zombie. */
  predicate NoZombieKid(k: Kernel, p: nat, i: nat)
  {
    forall z :: 0 <= z < i && z < |k.procs| && k.procs[z].parent == Some(p) ==> k.procs[z].state != ZOMBIE
  }

  /** The channel that a program point of sleep names. */
  function ChanOf(pc: Pc): Option<Chan>
  {
    match pc
    case Sleep0(c) => Some(c)
    case Sleep1(c) => Some(c)
    case Sleep2(c) => Some(c)
    case Reacquire(c) => Some(c)
    case Leave(w) => if w.Slept? then Some(w.c) else None
    case Gone(w) => if w.Slept? then Some(w.c) else None
    case Parked(w) => if w.Slept? then Some(w.c) else None
    case Back(w) => if w.Slept? then Some(w.c) else None
    case _ => None
  }

  /** The locks that a process holds are recorded as its. */
  predicate LocksOk(k: Kernel, p: nat)
    requires p < |k.procs|
  {
    var r := k.procs[p];
    && (SpinOf(r.pc).Some? ==> SpinOf(r.pc).value < |k.spin| && k.spin[SpinOf(r.pc).value] == Some(p))
    && (PLockOf(p, r.pc).Some? ==>
          PLockOf(p, r.pc).value < |k.procs| && k.procs[PLockOf(p, r.pc).value].lock == Some(By(p)))
    && (r.lock.Some? && r.lock.value.By? ==>
          r.lock.value.p < |k.procs| && PLockOf(r.lock.value.p, k.procs[r.lock.value.p].pc) == Some(p))
  }

  predicate SpinOk(k: Kernel, s: nat)
    requires s < |k.spin|
  {
    k.spin[s].Some? ==> k.spin[s].value < |k.procs| && SpinOf(k.procs[k.spin[s].value].pc) == Some(s)
  }

  /** p->state and p->chan fit the program point. */
  predicate StateOk(r: Process)
  {
    match r.pc
    case Out => r.state == UNUSED || r.state == USED
    case Leave(w) => OffState(r, w) && (w.Slept? ==> r.state == SLEEPING)
    case Gone(w) => OffState(r, w) && r.lock == Some(Sched)
    case Parked(w) => OffState(r, w)
    case Back(w) => r.state == RUNNING && !w.Exited?
    case ExitRelease => r.state == ZOMBIE
    case _ => r.state == RUNNING
  }

  predicate OffState(r: Process, w: Why)
  {
    match w
    case Slept(c) => (r.state == SLEEPING && r.chan == Some(c)) || r.state == RUNNABLE
    case Exited => r.state == ZOMBIE
    case _ => r.state == RUNNABLE
  }

  /** What a process that is about to sleep, or scans its children, found under the condition lock. */
  predicate TestOk(k: Kernel, p: nat)
    requires p < |k.procs|
  {
    var pc := k.procs[p].pc;
    && (ChanOf(pc).Some? ==>
          if ChanOf(pc).value.OnLock? then ChanOf(pc).value.l < |k.locks| else ChanOf(pc).value.p == p)
    && ((pc.Sleep0? || pc.Sleep1?) ==> if pc.c.OnLock? then k.locks[pc.c.l].Some? else NoZombieKid(k, p, |k.procs|))
    && (pc.SetSleeplock? ==> pc.l < |k.locks| && k.locks[pc.l].None?)
    && (pc.Scan? ==> NoZombieKid(k, p, pc.i))
    && (pc.ScanAt? ==> NoZombieKid(k, p, pc.i) && pc.i < |k.procs| && k.procs[pc.i].parent == Some(p))
  }

  /** The sleeplocks that a process believes it holds are those recorded as its. */
  ghost predicate HoldsOk(k: Kernel, p: nat)
    requires p < |k.procs|
  {
    var r := k.procs[p];
    && (forall l {:trigger k.locks[l]} :: 0 <= l < |k.locks| ==> (l in r.holds <==> k.locks[l] == Some(p)))
    && (Exiting(r.pc) || r.pc.Out? ==> r.holds == {})
    && (r.pc.DropSleeplock? || r.pc.ClearSleeplock? ==> r.pc.l < |k.locks| && r.pc.l in r.holds)
    && (r.pc.TestSleeplock? || r.pc.SetSleeplock? || r.pc.GotSleeplock? || r.pc.DroppedSleeplock? ==>
          r.pc.l < |k.locks|)
  }

  /** A parent is another process that can still have a child in this slot; only the first process
      and slots not running yet have none. */
  predicate ParentOk(k: Kernel, p: nat)
    requires p < |k.procs|
  {
    var r := k.procs[p];
    && (r.parent.Some? ==> r.parent.value < |k.procs| && r.parent.value != p
                           && KidsFrom(k.procs[r.parent.value].pc, |k.procs|) <= p)
    && (p != INIT && !r.pc.Out? ==> r.parent.Some?)
    && (p == INIT ==> !Exiting(r.pc) && !r.pc.Out? && r.parent.None?)
    && (r.state == UNUSED ==> r.parent.None?)
    && (r.pc.Out? && r.parent.Some? ==> ForkOf(k.procs[r.parent.value].pc) == Some(p))
  }

  /** The slot that a fork fills is reserved for it, and has its parent once that is set. */
  predicate ForkOk(k: Kernel, p: nat)
    requires p < |k.procs|
  {
    var pc := k.procs[p].pc;
    ForkOf(pc).Some? ==>
      var np := ForkOf(pc).value;
      && np < |k.procs| && np != p && k.procs[np].state == USED && k.procs[np].pc.Out? && k.procs[np].holds == {}
      && (pc.ForkInit? || pc.ForkWant? || pc.ForkParent? ==> k.procs[np].parent.None?)
      && (pc.ForkDone? || pc.ForkLock? || pc.ForkRun? ==> k.procs[np].parent == Some(p))
  }

  predicate ForkAlone(k: Kernel, p: nat, q: nat)
    requires p < |k.procs| && q < |k.procs|
  {
    p != q && ForkOf(k.procs[p].pc).Some? ==> ForkOf(k.procs[q].pc) != ForkOf(k.procs[p].pc)
  }

  /** What wakeup has achieved so far, and what it returns to. */
  predicate WakeOk(k: Kernel, p: nat)
    requires p < |k.procs|
  {
    var pc := k.procs[p].pc;
    && (pc.Wake? || pc.WakeAt? ==>
          && (forall q :: 0 <= q < pc.k && q < |k.procs| && q != p ==> !WaitsOn(k.procs[q], pc.c))
          && match pc.ret
             case ToRelease(l) => pc.c == OnLock(l) && l < |k.locks|
             case ToReparent(j) => pc.c == OnProc(INIT) && j <= |k.procs|
             case ToExit => k.procs[p].parent.Some? && pc.c == OnProc(k.procs[p].parent.value))
    && (pc.WakeAt? ==> pc.k != p)
    && (pc.Kill? ==> pc.q != p)
    && (pc.ScanAt? ==> pc.i != p)
    && (pc.ExitLock? || pc.ExitZombie? || pc.ExitRelease? ==>
          k.procs[p].parent.Some? && k.procs[p].parent.value < |k.procs|
          && !WaitsOn(k.procs[k.procs[p].parent.value], OnProc(k.procs[p].parent.value)))
    && (pc.Reparent? ==> pc.i <= |k.procs|)
  }

  /** A process asleep on a sleeplock will be woken: the lock is held, or its waker is on the way. */
  predicate SleeperOk(k: Kernel, p: nat, l: nat)
    requires p < |k.procs| && l < |k.locks|
  {
    WaitsOn(k.procs[p], OnLock(l)) ==> k.locks[l].Some? || WillWake(k, l + 1, OnLock(l), p)
  }

  /** The parent of a zombie is not asleep in wait, or its waker is on the way. */
  predicate ZombieOk(k: Kernel, z: nat)
    requires z < |k.procs|
  {
    var r := k.procs[z];
    r.state == ZOMBIE && r.parent.Some? && r.parent.value < |k.procs| ==>
      || !WaitsOn(k.procs[r.parent.value], OnProc(r.parent.value))
      || WillWake(k, 0, OnProc(r.parent.value), r.parent.value)
  }

  ghost predicate ProcOk(k: Kernel, p: nat)
    requires p < |k.procs|
  {
    && LocksOk(k, p) && StateOk(k.procs[p]) && TestOk(k, p) && HoldsOk(k, p) && ParentOk(k, p) && ForkOk(k, p)
    && WakeOk(k, p) && ZombieOk(k, p)
  }

  ghost predicate Inv(k: Kernel)
  {
    && Sized(k)
    && (forall p {:trigger ProcOk(k, p)} :: 0 <= p < |k.procs| ==> ProcOk(k, p))
    && (forall p, q {:trigger ForkAlone(k, p, q)} :: 0 <= p < |k.procs| && 0 <= q < |k.procs| ==> ForkAlone(k, p, q))
    && (forall s {:trigger SpinOk(k, s)} :: 0 <= s < |k.spin| ==> SpinOk(k, s))
    && forall p, l {:trigger SleeperOk(k, p, l)} :: 0 <= p < |k.procs| && 0 <= l < |k.locks| ==> SleeperOk(k, p, l)
  }

  /** The parts of the invariant at a process, a lock, and so on. */
  lemma Parts(k: Kernel, p: nat)
    requires Inv(k) && p < |k.procs|
    ensures LocksOk(k, p) && StateOk(k.procs[p]) && TestOk(k, p) && HoldsOk(k, p) && ParentOk(k, p) && ForkOk(k, p)
    ensures WakeOk(k, p) && ZombieOk(k, p) && Sized(k)
  {
    hide LocksOk, StateOk, TestOk, HoldsOk, ParentOk, ForkOk, WakeOk, ZombieOk;
    assert ProcOk(k, p);
  }

  lemma SpinAt(k: Kernel, s: nat)
    requires Inv(k) && s < |k.spin|
    ensures SpinOk(k, s)
  {
  }

  lemma SleeperAt(k: Kernel, p: nat, l: nat)
    requires Inv(k) && p < |k.procs| && l < |k.locks|
    ensures SleeperOk(k, p, l)
  {
  }

  lemma ForksAt(k: Kernel, p: nat, q: nat)
    requires Inv(k) && p < |k.procs| && q < |k.procs|
    ensures ForkAlone(k, p, q)
  {
  }

  lemma InitInv(k: Kernel)
    requires Init(k)
    ensures Inv(k)
  {
    forall p | 0 <= p < |k.procs| ensures ProcOk(k, p) {
      assert k.procs[p].pc.Out? || p == INIT;
    }
  }

  // ---- What a step of process p changes, besides p itself: at most process j ----

  /** The records of all processes but p and j, and the locks of all but p, are as before. */
  ghost predicate Frame(k: Kernel, k': Kernel, p: nat, j: nat)
  {
    && Sized(k) && Sized(k') && p < |k.procs| == |k'.procs| && j < |k.procs|
    && |k.spin| == |k'.spin| && |k.locks| == |k'.locks|
    && (forall q :: 0 <= q < |k.procs| && q != p && q != j ==> k'.procs[q] == k.procs[q])
    && (forall s :: 0 <= s < |k.spin| && k'.spin[s] != k.spin[s] ==>
          && (k.spin[s] == None || k.spin[s] == Some(p))
          && (k'.spin[s] == None || (k'.spin[s] == Some(p) && SpinOf(k'.procs[p].pc) == Some(s))))
    && (SpinOf(k'.procs[p].pc).Some? ==>
          SpinOf(k'.procs[p].pc).value < |k.spin| && k'.spin[SpinOf(k'.procs[p].pc).value] == Some(p))
    && (SpinOf(k.procs[p].pc).Some? && SpinOf(k.procs[p].pc) != SpinOf(k'.procs[p].pc) ==>
          SpinOf(k.procs[p].pc).value < |k.spin| && k'.spin[SpinOf(k.procs[p].pc).value] == None)
    && forall l :: 0 <= l < |k.locks| && k'.locks[l] != k.locks[l] ==>
         && (k.locks[l] == None || k.locks[l] == Some(p)) && (k'.locks[l] == None || k'.locks[l] == Some(p))
         && k.spin[l + 1] == Some(p)
         && (k'.locks[l] == None ==> WakesFrom(k'.procs[p].pc, OnLock(l), 0) && k'.spin[l + 1] == Some(p))
  }

  /** What the others rely on about the change of process x, which is p or j. */
  ghost predicate Calm(k: Kernel, k': Kernel, p: nat, j: nat, x: nat)
    requires Frame(k, k', p, j) && x < |k.procs|
  {
    var r, r', n := k.procs[x], k'.procs[x], |k.procs|;
    && (r.lock.Some? && r.lock.value.By? && r.lock.value.p != p && r.lock.value.p != j ==> r'.lock == r.lock)
    && (PLockOf(x, r.pc).None? || PLockOf(x, r.pc) == Some(p) || PLockOf(x, r.pc) == Some(j)
        || PLockOf(x, r'.pc) == PLockOf(x, r.pc))
    && (KidsFrom(r'.pc, n) <= KidsFrom(r.pc, n) || NoKids(k', x, KidsFrom(r'.pc, n)))
    && (r.state == USED && r.pc.Out? ==>
          || (r'.state == USED && r'.pc.Out? && r'.holds == r.holds && r'.parent == r.parent)
          || ForkOf(k.procs[p].pc) == Some(x))
    && (forall c :: WaitsOn(r', c) && !WaitsOn(r, c) ==>
          x == p && LkOf(c) < |k.spin| && k.spin[LkOf(c)] == Some(p) && (c == OnProc(x) ==> NoZombieKid(k, x, n)))
    && (r'.state == ZOMBIE && r'.parent.Some? && (r.state != ZOMBIE || r.parent != r'.parent) ==> k.spin[0] == Some(p))
    && (r'.parent != r.parent ==> k.spin[0] == Some(p))
    && (ForkOf(r.pc).Some? ==> ForkOf(r'.pc) == ForkOf(r.pc) || ForkOf(r.pc) == Some(j))
    && (x != p ==> r'.pc == r.pc || (SpinOf(r.pc).None? && ForkOf(r.pc).None? && ForkOf(r'.pc).None?))
  }

  /** No child of x lies below slot i. */
  ghost predicate NoKids(k: Kernel, x: nat, i: nat)
  {
    forall q :: 0 <= q < |k.procs| && q < i ==> k.procs[q].parent != Some(x)
  }

  /** Whoever p was going to wake it still will, or need not. */
  ghost predicate StillWakes(k: Kernel, k': Kernel, p: nat)
    requires p < |k.procs| == |k'.procs|
  {
    var pc, pc' := k.procs[p].pc, k'.procs[p].pc;
    pc.Wake? || pc.WakeAt? ==>
      forall i :: pc.k <= i < |k.procs| && i != p && WaitsOn(k'.procs[i], pc.c) ==> WakesFrom(pc', pc.c, i)
  }

  ghost predicate Delta(k: Kernel, k': Kernel, p: nat, j: nat)
  {
    Frame(k, k', p, j) && Calm(k, k', p, j, p) && Calm(k, k', p, j, j) && StillWakes(k, k', p)
  }

  lemma OtherLocks(k: Kernel, k': Kernel, p: nat, j: nat, q: nat)
    requires Inv(k) && Delta(k, k', p, j) && q < |k.procs| && q != p && q != j
    ensures LocksOk(k', q)
  {
    hide Inv;
    Parts(k, q);
    Parts(k, p);
    Parts(k, j);
  }

  predicate SameButLock(r: Process, r': Process) { r' == r.(lock := r'.lock) }

  lemma OtherHolds(k: Kernel, k': Kernel, p: nat, j: nat, q: nat)
    requires Inv(k) && Delta(k, k', p, j) && q < |k.procs| && q != p && SameButLock(k.procs[q], k'.procs[q])
    ensures HoldsOk(k', q)
  {
    hide Inv, StateOk, ParentOk, ForkOk, ZombieOk, WakeOk, TestOk, WaitsOn, KidsFrom, Exiting, Calm;
    Parts(k, q);
  }

  /** While q holds wait_lock, its children that are no zombies do not become any. */
  lemma KidsStay(k: Kernel, k': Kernel, p: nat, j: nat, q: nat, i: nat)
    requires Delta(k, k', p, j) && q < |k.procs| && q != p && SpinOf(k.procs[q].pc) == Some(0) && LocksOk(k, q)
    requires NoZombieKid(k, q, i)
    ensures NoZombieKid(k', q, i)
  {
    hide StillWakes, WaitsOn, KidsFrom, PLockOf, ForkOf;
  }

  lemma OtherTest(k: Kernel, k': Kernel, p: nat, j: nat, q: nat)
    requires Inv(k) && Delta(k, k', p, j) && q < |k.procs| && q != p && SameButLock(k.procs[q], k'.procs[q])
    ensures TestOk(k', q) && HoldsOk(k', q)
  {
    hide Inv, Calm, NoZombieKid, StateOk, ParentOk, ForkOk, ZombieOk, WakeOk, HoldsOk, WaitsOn, KidsFrom, Exiting,
         StillWakes, PLockOf;
    OtherHolds(k, k', p, j, q);
    Parts(k, q);
    var pc := k.procs[q].pc;
    if (pc.Sleep0? || pc.Sleep1?) && pc.c.OnProc? {
      KidsStay(k, k', p, j, q, |k.procs|);
    } else if pc.Scan? || pc.ScanAt? {
      KidsStay(k, k', p, j, q, pc.i);
    }
    ParentStays(k, k', p, j, q);
  }

  /** While q holds wait_lock, no one else changes parents. */
  lemma ParentStays(k: Kernel, k': Kernel, p: nat, j: nat, q: nat)
    requires Delta(k, k', p, j) && q < |k.procs| && q != p && LocksOk(k, q)
    ensures k.procs[q].pc.ScanAt? && k.procs[q].pc.i < |k.procs| ==>
      k'.procs[k.procs[q].pc.i].parent == k.procs[k.procs[q].pc.i].parent
  {
    hide StillWakes, WaitsOn, KidsFrom, PLockOf, ForkOf;
  }

  lemma OtherParent(k: Kernel, k': Kernel, p: nat, j: nat, q: nat)
    requires Inv(k) && Delta(k, k', p, j) && q < |k.procs| && q != p && SameButLock(k.procs[q], k'.procs[q])
    requires q == j ==> ForkOf(k'.procs[p].pc) == ForkOf(k.procs[p].pc)
    ensures ParentOk(k', q) && ForkOk(k', q)
  {
    hide Inv;
    Parts(k, q);
    ForksAt(k, q, p);
  }

  /** While q holds a channel's condition lock, no one starts to wait on the channel. */
  lemma NoNewSleeper(k: Kernel, k': Kernel, p: nat, j: nat, q: nat, x: nat, c: Chan)
    requires Delta(k, k', p, j) && q < |k.procs| && q != p && LocksOk(k, q) && SpinOf(k.procs[q].pc) == Some(LkOf(c))
    requires x < |k.procs| && WaitsOn(k'.procs[x], c)
    ensures WaitsOn(k.procs[x], c)
  {
  }

  lemma OtherWake(k: Kernel, k': Kernel, p: nat, j: nat, q: nat)
    requires Inv(k) && Delta(k, k', p, j) && q < |k.procs| && q != p && SameButLock(k.procs[q], k'.procs[q])
    ensures WakeOk(k', q)
  {
    hide Inv, Calm, StillWakes, WaitsOn;
    var r := k.procs[q];
    Parts(k, q);
    if r.pc.Wake? || r.pc.WakeAt? {
      forall x | 0 <= x < r.pc.k && x < |k.procs| && x != q ensures !WaitsOn(k'.procs[x], r.pc.c) {
        if WaitsOn(k'.procs[x], r.pc.c) { NoNewSleeper(k, k', p, j, q, x, r.pc.c); }
      }
    }
    if r.pc.ExitLock? || r.pc.ExitZombie? || r.pc.ExitRelease? {
      var x := r.parent.value;
      if WaitsOn(k'.procs[x], OnProc(x)) { NoNewSleeper(k, k', p, j, q, x, OnProc(x)); }
    }
  }

  lemma OtherZombie(k: Kernel, k': Kernel, p: nat, j: nat, q: nat)
    requires Inv(k) && Delta(k, k', p, j) && q < |k.procs| && q != p && SameButLock(k.procs[q], k'.procs[q])
    ensures ZombieOk(k', q)
  {
    hide Inv, StateOk, TestOk, HoldsOk, ParentOk, ForkOk;
    Parts(k, q);
    SpinAt(k, 0);
    Parts(k, p);
  }

  /** The waker of q is still on its way, or its loop has woken q. */
  lemma WakerStays(k: Kernel, k': Kernel, p: nat, j: nat, q: nat, s: nat, c: Chan)
    requires Delta(k, k', p, j) && q < |k.procs| && q != p && WillWake(k, s, c, q) && SpinOk(k, s)
    requires WaitsOn(k'.procs[q], c)
    ensures WillWake(k', s, c, q)
  {
    hide KidsFrom, PLockOf, ForkOf, WaitsOn;
    var h := k.spin[s].value;
    if h == p {
      assert StillWakes(k, k', p);
    } else {
      assert h == j ==> Calm(k, k', p, j, j);
    }
  }

  lemma OtherSleeper(k: Kernel, k': Kernel, p: nat, j: nat, q: nat, l: nat)
    requires Inv(k) && Delta(k, k', p, j) && q < |k.procs| && q != p && SameButLock(k.procs[q], k'.procs[q])
    requires l < |k.locks|
    ensures SleeperOk(k', q, l)
  {
    hide Inv, Calm, StillWakes, PLockOf, KidsFrom;
    SpinAt(k, l + 1);
    SleeperAt(k, q, l);
    if WaitsOn(k'.procs[q], OnLock(l)) && WillWake(k, l + 1, OnLock(l), q) {
      WakerStays(k, k', p, j, q, l + 1, OnLock(l));
    }
  }

  lemma OtherSpin(k: Kernel, k': Kernel, p: nat, j: nat, s: nat)
    requires Inv(k) && Delta(k, k', p, j) && s < |k.spin|
    ensures SpinOk(k', s)
  {
    hide Inv;
    SpinAt(k, s);
  }

  /** A step is safe when it is calm for the others and leaves p and j themselves in order. */
  lemma StepKeeps(k: Kernel, k': Kernel, p: nat, j: nat)
    requires Inv(k) && Delta(k, k', p, j) && ProcOk(k', p) && ProcOk(k', j)
    requires forall l :: 0 <= l < |k.locks| ==> SleeperOk(k', p, l) && SleeperOk(k', j, l)
    requires ForkOf(k'.procs[p].pc).Some? && ForkOf(k'.procs[p].pc) != ForkOf(k.procs[p].pc) ==>
      ForkOf(k'.procs[p].pc).value < |k.procs| && k.procs[ForkOf(k'.procs[p].pc).value].state != USED
    ensures Inv(k')
  {
    forall q | 0 <= q < |k.procs| ensures ProcOk(k', q) {
      if q != p && q != j {
        Parts(k, q);
        OtherLocks(k, k', p, j, q);
        OtherTest(k, k', p, j, q);
        OtherParent(k, k', p, j, q);
        OtherWake(k, k', p, j, q);
        OtherZombie(k, k', p, j, q);
      }
    }
    forall s | 0 <= s < |k.spin| ensures SpinOk(k', s) {
      OtherSpin(k, k', p, j, s);
    }
    forall q, l | 0 <= q < |k.procs| && 0 <= l < |k.locks| ensures SleeperOk(k', q, l) {
      if q != p && q != j {
        OtherSleeper(k, k', p, j, q, l);
      }
    }
    forall q, r | 0 <= q < |k.procs| && 0 <= r < |k.procs| ensures ForkAlone(k', q, r) {
      ForksApart(k, k', p, j, q, r);
    }
  }

  lemma ForksApart(k: Kernel, k': Kernel, p: nat, j: nat, q: nat, r: nat)
    requires Inv(k) && Delta(k, k', p, j) && q < |k.procs| && r < |k.procs|
    requires ForkOf(k'.procs[p].pc).Some? && ForkOf(k'.procs[p].pc) != ForkOf(k.procs[p].pc) ==>
      ForkOf(k'.procs[p].pc).value < |k.procs| && k.procs[ForkOf(k'.procs[p].pc).value].state != USED
    ensures ForkAlone(k', q, r)
  {
    hide Inv;
    ForksAt(k, q, r);
    Parts(k, q);
    Parts(k, r);
  }

  // ---- One lemma per kind of step ----

  /** Process p goes on to a program point with the same p->lock held, no less committed than before. */
  lemma GoKeeps(k: Kernel, p: nat, pc': Pc, k': Kernel)
    requires Inv(k) && p < |k.procs| && Frame(k, k', p, p) && k'.locks == k.locks
    requires k'.procs == k.procs[p := k.procs[p].(pc := pc')]
    requires PLockOf(p, pc') == PLockOf(p, k.procs[p].pc) && StateOk(k'.procs[p])
    requires forall c :: !WaitsOn(k'.procs[p], c)
    requires !k.procs[p].pc.Out? && !pc'.Out?
    requires KidsFrom(pc', |k.procs|) <= KidsFrom(k.procs[p].pc, |k.procs|) || NoKids(k', p, KidsFrom(pc', |k.procs|))
    requires p == INIT ==> !Exiting(pc')
    requires TestOk(k', p) && HoldsOk(k', p) && WakeOk(k', p) && ForkOk(k', p) && StillWakes(k, k', p)
    requires ForkOf(pc') == ForkOf(k.procs[p].pc)
    ensures Inv(k')
  {
    hide Inv;
    Parts(k, p);
    assert LocksOk(k', p);
    assert ParentOk(k', p);
    assert ZombieOk(k', p) by {
      if k.procs[p].parent.Some? { SpinAt(k, 0); }
    }
    StepKeeps(k, k', p, p);
  }

  lemma StepWantSleeplock(k: Kernel, p: nat, l: nat, k': Kernel)
    requires Inv(k) && p < |k.procs| && l < |k.locks| && k.spin[l + 1].None? && k.procs[p].pc == WantSleeplock(l)
    requires k' == GoSpin(k, p, l + 1, TestSleeplock(l))
    ensures Inv(k')
  {
    hide Inv, ProcOk, SleeperOk, SpinOk, ForkAlone, Calm, Delta, ZombieOk, ParentOk;
    Parts(k, p);
    GoKeeps(k, p, TestSleeplock(l), k');
  }

  lemma StepDropSleeplock(k: Kernel, p: nat, l: nat, k': Kernel)
    requires Inv(k) && p < |k.procs| && l < |k.locks| && k.spin[l + 1].None? && k.procs[p].pc == DropSleeplock(l)
    requires k' == GoSpin(k, p, l + 1, ClearSleeplock(l))
    ensures Inv(k')
  {
    hide Inv, ProcOk, SleeperOk, SpinOk, ForkAlone, Calm, Delta, ZombieOk, ParentOk;
    Parts(k, p);
    GoKeeps(k, p, ClearSleeplock(l), k');
  }

  lemma StepSleeplockExit(k: Kernel, p: nat, l: nat, k': Kernel)
    requires Inv(k) && p < |k.procs| && l < |k.locks|
    requires k.procs[p].pc == GotSleeplock(l) || k.procs[p].pc == DroppedSleeplock(l)
    requires k' == GoUnspin(k, p, l + 1, Run)
    ensures Inv(k')
  {
    hide Inv, ProcOk, SleeperOk, SpinOk, ForkAlone, Calm, Delta, ZombieOk, ParentOk;
    Parts(k, p);
    GoKeeps(k, p, Run, k');
  }

  lemma StepMustSleep(k: Kernel, p: nat, l: nat, k': Kernel)
    requires Inv(k) && p < |k.procs| && l < |k.locks| && k.procs[p].pc == TestSleeplock(l) && k.locks[l].Some?
    requires k' == Go(k, p, Sleep0(OnLock(l)))
    ensures Inv(k')
  {
    hide Inv, ProcOk, SleeperOk, SpinOk, ForkAlone, Calm, Delta, ZombieOk, ParentOk;
    Parts(k, p);
    GoKeeps(k, p, Sleep0(OnLock(l)), k');
  }

  lemma StepMaySet(k: Kernel, p: nat, l: nat, k': Kernel)
    requires Inv(k) && p < |k.procs| && l < |k.locks| && k.procs[p].pc == TestSleeplock(l) && k.locks[l].None?
    requires k' == Go(k, p, SetSleeplock(l))
    ensures Inv(k')
  {
    hide Inv, ProcOk, SleeperOk, SpinOk, ForkAlone, Calm, Delta, ZombieOk, ParentOk;
    Parts(k, p);
    GoKeeps(k, p, SetSleeplock(l), k');
  }

  lemma StepRelock(k: Kernel, p: nat, l: nat, k': Kernel)
    requires Inv(k) && p < |k.procs| && k.procs[p].pc == Reacquire(OnLock(l)) && l + 1 < |k.spin| && k.spin[l + 1].None?
    requires k' == GoSpin(k, p, l + 1, TestSleeplock(l))
    ensures Inv(k')
  {
    hide Inv, ProcOk, SleeperOk, SpinOk, ForkAlone, Calm, Delta, ZombieOk, ParentOk;
    Parts(k, p);
    GoKeeps(k, p, TestSleeplock(l), k');
  }

  lemma StepRescan(k: Kernel, p: nat, q: nat, k': Kernel)
    requires Inv(k) && p < |k.procs| && k.procs[p].pc == Reacquire(OnProc(q)) && k.spin[0].None?
    requires k' == GoSpin(k, p, 0, Scan(0, false))
    ensures Inv(k')
  {
    hide Inv, ProcOk, SleeperOk, SpinOk, ForkAlone, Calm, Delta, ZombieOk, ParentOk;
    Parts(k, p);
    GoKeeps(k, p, Scan(0, false), k');
  }

  lemma WakeEndRelease(k: Kernel, p: nat, c: Chan, i: nat, l: nat, k': Kernel)
    requires Inv(k) && p < |k.procs| && k.procs[p].pc == Wake(c, i, ToRelease(l)) && i >= |k.procs|
    requires k' == Go(k, p, DroppedSleeplock(l))
    ensures Inv(k')
  {
    hide Inv, ProcOk, SleeperOk, SpinOk, ForkAlone, Calm, Delta, ZombieOk;
    Parts(k, p);
    GoKeeps(k, p, DroppedSleeplock(l), k');
  }

  lemma WakeEndReparent(k: Kernel, p: nat, c: Chan, i: nat, j: nat, k': Kernel)
    requires Inv(k) && p < |k.procs| && k.procs[p].pc == Wake(c, i, ToReparent(j)) && i >= |k.procs|
    requires k' == Go(k, p, Reparent(j))
    ensures Inv(k')
  {
    hide Inv, ProcOk, SleeperOk, SpinOk, ForkAlone, Calm, Delta, ZombieOk;
    Parts(k, p);
    GoKeeps(k, p, Reparent(j), k');
  }

  lemma WakeEndExit(k: Kernel, p: nat, c: Chan, i: nat, k': Kernel)
    requires Inv(k) && p < |k.procs| && k.procs[p].pc == Wake(c, i, ToExit) && i >= |k.procs|
    requires k' == Go(k, p, ExitLock)
    ensures Inv(k')
  {
    hide Inv, ProcOk, SleeperOk, SpinOk, ForkAlone, Calm, Delta, ZombieOk;
    Parts(k, p);
    assert k.procs[p].parent.value != p;
    GoKeeps(k, p, ExitLock, k');
  }

  lemma StepWakeSelf(k: Kernel, p: nat, c: Chan, ret: Ret, k': Kernel)
    requires Inv(k) && p < |k.procs| && k.procs[p].pc == Wake(c, p, ret) && k' == Go(k, p, Wake(c, p + 1, ret))
    ensures Inv(k')
  {
    hide Inv, ProcOk, SleeperOk, SpinOk, ForkAlone, Calm, Delta, ZombieOk;
    Parts(k, p);
    GoKeeps(k, p, Wake(c, p + 1, ret), k');
  }

  lemma StepForkWant(k: Kernel, p: nat, np: nat, k': Kernel)
    requires Inv(k) && p < |k.procs| && k.procs[p].pc == ForkWant(np) && k.spin[0].None?
    requires k' == GoSpin(k, p, 0, ForkParent(np))
    ensures Inv(k')
  {
    hide Inv, ProcOk, SleeperOk, SpinOk, ForkAlone, Calm, Delta, ZombieOk, ParentOk;
    Parts(k, p);
    GoKeeps(k, p, ForkParent(np), k');
  }

  lemma StepForkDone(k: Kernel, p: nat, np: nat, k': Kernel)
    requires Inv(k) && p < |k.procs| && k.procs[p].pc == ForkDone(np) && k' == GoUnspin(k, p, 0, ForkLock(np))
    ensures Inv(k')
  {
    hide Inv, ProcOk, SleeperOk, SpinOk, ForkAlone, Calm, Delta, ZombieOk, ParentOk;
    Parts(k, p);
    GoKeeps(k, p, ForkLock(np), k');
  }

  lemma StepExitWant(k: Kernel, p: nat, k': Kernel)
    requires Inv(k) && p < |k.procs| && k.procs[p].pc == ExitWant && k.spin[0].None?
    requires k' == GoSpin(k, p, 0, Reparent(0))
    ensures Inv(k')
  {
    hide Inv, ProcOk, SleeperOk, SpinOk, ForkAlone, Calm, Delta, ZombieOk, LocksOk;
    Parts(k, p);
    GoKeeps(k, p, Reparent(0), k');
  }

  /** The children that a process in reparent still has. */
  lemma KidsAbove(k: Kernel, p: nat, i: nat)
    requires Inv(k) && p < |k.procs| && k.procs[p].pc == Reparent(i)
    ensures forall q :: 0 <= q < |k.procs| && k.procs[q].parent == Some(p) ==> q >= i && q != p
  {
    hide Inv, LocksOk, StateOk, TestOk, HoldsOk, ForkOk, WakeOk, ZombieOk;
    forall q | 0 <= q < |k.procs| && k.procs[q].parent == Some(p) ensures q >= i && q != p {
      Parts(k, q);
    }
  }

  lemma StepReparent(k: Kernel, p: nat, i: nat, k': Kernel)
    requires Inv(k) && p < |k.procs| && k.procs[p].pc == Reparent(i) && i < |k.procs| && (!IsParent(k, p, i) || i == p)
    requires k' == Go(k, p, Reparent(i + 1))
    ensures Inv(k')
  {
    hide Inv, ProcOk, SleeperOk, SpinOk, ForkAlone, Calm, Delta, ZombieOk;
    Parts(k, p);
    KidsAbove(k, p, i);
    GoKeeps(k, p, Reparent(i + 1), k');
  }

  lemma StepReparentEnd(k: Kernel, p: nat, i: nat, k': Kernel)
    requires Inv(k) && p < |k.procs| && k.procs[p].pc == Reparent(i) && i >= |k.procs| && k.procs[p].parent.Some?
    requires k' == Go(k, p, Wake(OnProc(k.procs[p].parent.value), 0, ToExit))
    ensures Inv(k')
  {
    hide Inv, ProcOk, SleeperOk, SpinOk, ForkAlone, Calm, Delta, ZombieOk;
    Parts(k, p);
    GoKeeps(k, p, k'.procs[p].pc, k');
  }

  lemma StepExitRelease(k: Kernel, p: nat, k': Kernel)
    requires Inv(k) && p < |k.procs| && k.procs[p].pc == ExitRelease && k' == GoUnspin(k, p, 0, Leave(Exited))
    ensures Inv(k')
  {
    hide Inv, ProcOk, SleeperOk, SpinOk, ForkAlone, Calm, Delta, ZombieOk;
    Parts(k, p);
    GoKeeps(k, p, Leave(Exited), k');
  }

  lemma StepWaitWant(k: Kernel, p: nat, k': Kernel)
    requires Inv(k) && p < |k.procs| && k.procs[p].pc == WaitWant && k.spin[0].None?
    requires k' == GoSpin(k, p, 0, Scan(0, false))
    ensures Inv(k')
  {
    hide Inv, ProcOk, SleeperOk, SpinOk, ForkAlone, Calm, Delta, ZombieOk, ParentOk;
    Parts(k, p);
    GoKeeps(k, p, Scan(0, false), k');
  }

  lemma StepScanNext(k: Kernel, p: nat, i: nat, kids: bool, k': Kernel)
    requires Inv(k) && p < |k.procs| && k.procs[p].pc == Scan(i, kids) && i < |k.procs| && !IsParent(k, p, i)
    requires k' == Go(k, p, Scan(i + 1, kids))
    ensures Inv(k')
  {
    hide Inv, ProcOk, SleeperOk, SpinOk, ForkAlone, Calm, Delta, ZombieOk, ParentOk;
    Parts(k, p);
    GoKeeps(k, p, Scan(i + 1, kids), k');
  }

  lemma StepScanEnd(k: Kernel, p: nat, i: nat, kids: bool, pc': Pc, k': Kernel)
    requires Inv(k) && p < |k.procs| && k.procs[p].pc == Scan(i, kids) && i >= |k.procs|
    requires (pc' == Sleep0(OnProc(p)) || pc' == WaitDone) && k' == Go(k, p, pc')
    ensures Inv(k')
  {
    hide Inv, ProcOk, SleeperOk, SpinOk, ForkAlone, Calm, Delta, ZombieOk, ParentOk;
    Parts(k, p);
    GoKeeps(k, p, pc', k');
  }

  lemma StepWaitDone(k: Kernel, p: nat, k': Kernel)
    requires Inv(k) && p < |k.procs| && k.procs[p].pc == WaitDone && k' == GoUnspin(k, p, 0, Run)
    ensures Inv(k')
  {
    hide Inv, ProcOk, SleeperOk, SpinOk, ForkAlone, Calm, Delta, ZombieOk, ParentOk;
    Parts(k, p);
    GoKeeps(k, p, Run, k');
  }

  lemma StepCall(k: Kernel, p: nat, to: Pc, k': Kernel)
    requires Inv(k) && p < |k.procs| && k.procs[p].pc == Run && k' == Go(k, p, to)
    requires (to.WantSleeplock? && to.l < |k.locks|)
          || (to.DropSleeplock? && to.l < |k.locks| && to.l in k.procs[p].holds)
          || (to == ExitWant && p != INIT && k.procs[p].holds == {}) || to == WaitWant
    ensures Inv(k')
  {
    hide Inv, ProcOk, SleeperOk, SpinOk, ForkAlone, Calm, Delta, ZombieOk, ParentOk;
    Parts(k, p);
    GoKeeps(k, p, to, k');
  }

  // ---- Steps that acquire a p->lock ----

  /** Process p acquired its own p->lock. */
  lemma OwnLockKeeps(k: Kernel, p: nat, pc': Pc, k': Kernel)
    requires Inv(k) && p < |k.procs| && k.procs[p].lock.None? && k' == GoLock(k, p, p, pc')
    requires PLockOf(p, k.procs[p].pc).None? && PLockOf(p, pc') == Some(p) && SpinOf(pc') == SpinOf(k.procs[p].pc)
    requires k.procs[p].state == RUNNING && StateOk(k'.procs[p]) && !k.procs[p].pc.Out? && !pc'.Out?
    requires !k.procs[p].pc.Wake? && !pc'.Wake? && !pc'.WakeAt? && ForkOf(pc') == ForkOf(k.procs[p].pc) == None
    requires (p == INIT ==> !Exiting(pc'))
    requires KidsFrom(pc', |k.procs|) == KidsFrom(k.procs[p].pc, |k.procs|) && forall c :: !WaitsOn(k'.procs[p], c)
    requires TestOk(k', p) && HoldsOk(k', p) && WakeOk(k', p)
    ensures Inv(k')
  {
    hide Inv;
    Parts(k, p);
    assert LocksOk(k', p) && ParentOk(k', p) && ForkOk(k', p) && ZombieOk(k', p);
    StepKeeps(k, k', p, p);
  }

  lemma StepSleep0(k: Kernel, p: nat, c: Chan, k': Kernel)
    requires Inv(k) && p < |k.procs| && k.procs[p].pc == Sleep0(c) && k.procs[p].lock.None?
    requires k' == GoLock(k, p, p, Sleep1(c))
    ensures Inv(k')
  {
    hide Inv;
    Parts(k, p);
    OwnLockKeeps(k, p, Sleep1(c), k');
  }

  lemma StepExitLock(k: Kernel, p: nat, k': Kernel)
    requires Inv(k) && p < |k.procs| && k.procs[p].pc == ExitLock && k.procs[p].lock.None?
    requires k' == GoLock(k, p, p, ExitZombie)
    ensures Inv(k')
  {
    hide Inv;
    Parts(k, p);
    OwnLockKeeps(k, p, ExitZombie, k');
  }

  lemma StepCallYield(k: Kernel, p: nat, k': Kernel)
    requires Inv(k) && p < |k.procs| && k.procs[p].pc == Run && k.procs[p].lock.None? && k' == GoLock(k, p, p, Yield)
    ensures Inv(k')
  {
    hide Inv;
    Parts(k, p);
    OwnLockKeeps(k, p, Yield, k');
  }

  /** Process p acquired the p->lock of another process. */
  ghost predicate IsLock(k: Kernel, p: nat, q: nat, pc': Pc, k': Kernel)
  {
    && Inv(k) && p < |k.procs| && q < |k.procs| && q != p && k.procs[q].lock.None? && k' == GoLock(k, p, q, pc')
    && PLockOf(p, k.procs[p].pc).None? && PLockOf(p, pc') == Some(q) && SpinOf(pc') == SpinOf(k.procs[p].pc)
    && k.procs[p].state == RUNNING && StateOk(k'.procs[p]) && !k.procs[p].pc.Out? && !pc'.Out?
    && ForkOf(pc') == ForkOf(k.procs[p].pc) && Exiting(pc') == Exiting(k.procs[p].pc)
    && KidsFrom(pc', |k.procs|) == KidsFrom(k.procs[p].pc, |k.procs|) && (forall c :: !WaitsOn(k'.procs[p], c))
    && TestOk(k', p) && HoldsOk(k', p) && WakeOk(k', p) && ForkOk(k', p) && StillWakes(k, k', p)
  }

  lemma LockFrame(k: Kernel, p: nat, q: nat, pc': Pc, k': Kernel)
    requires IsLock(k, p, q, pc', k')
    ensures Frame(k, k', p, q)
  {
    hide Inv, StateOk, TestOk, HoldsOk, ParentOk, ForkOk, WakeOk, ZombieOk, StillWakes, KidsFrom, WaitsOn;
    Parts(k, p);
  }

  lemma LockDelta(k: Kernel, p: nat, q: nat, pc': Pc, k': Kernel)
    requires IsLock(k, p, q, pc', k')
    ensures Delta(k, k', p, q)
  {
    hide Inv, Frame, TestOk, HoldsOk, ParentOk, ForkOk, WakeOk, ZombieOk, StillWakes;
    LockFrame(k, p, q, pc', k');
    Parts(k, p);
    Parts(k, q);
  }

  lemma LockState(k: Kernel, p: nat, q: nat, pc': Pc, k': Kernel)
    requires IsLock(k, p, q, pc', k')
    ensures LocksOk(k', p) && LocksOk(k', q) && StateOk(k'.procs[q]) && SameButLock(k.procs[q], k'.procs[q])
  {
    hide Inv, TestOk, HoldsOk, WakeOk, ForkOk, ParentOk, ZombieOk, StillWakes;
    Parts(k, p);
    Parts(k, q);
  }

  lemma LockActor(k: Kernel, p: nat, q: nat, pc': Pc, k': Kernel)
    requires IsLock(k, p, q, pc', k') && Delta(k, k', p, q)
    ensures LocksOk(k', p) && LocksOk(k', q) && StateOk(k'.procs[q])
    ensures ZombieOk(k', p) && ParentOk(k', p) && SameButLock(k.procs[q], k'.procs[q])
  {
    hide Inv, Calm, Frame, StillWakes, TestOk, HoldsOk, WakeOk, ForkOk, LocksOk;
    Parts(k, p);
    LockState(k, p, q, pc', k');
    ActorZombie(k, k', p, q);
  }

  lemma LockKeeps(k: Kernel, p: nat, q: nat, pc': Pc, k': Kernel)
    requires IsLock(k, p, q, pc', k')
    ensures Inv(k')
  {
    hide Calm, Frame, StillWakes;
    LockDelta(k, p, q, pc', k');
    LockActor(k, p, q, pc', k');
    LockOnly(k, k', p, q);
    assert ProcOk(k', p) && ProcOk(k', q);
    forall l | 0 <= l < |k.locks| ensures SleeperOk(k', p, l) {}
    hide ProcOk, SleeperOk, Delta;
    StepKeeps(k, k', p, q);
  }

  /** A process of which only the p->lock changed hands. */
  lemma LockOnly(k: Kernel, k': Kernel, p: nat, q: nat)
    requires Inv(k) && Delta(k, k', p, q) && q != p && SameButLock(k.procs[q], k'.procs[q])
    requires ForkOf(k'.procs[p].pc) == ForkOf(k.procs[p].pc)
    ensures TestOk(k', q) && HoldsOk(k', q) && ParentOk(k', q) && ForkOk(k', q) && WakeOk(k', q) && ZombieOk(k', q)
    ensures forall l :: 0 <= l < |k.locks| ==> SleeperOk(k', q, l)
  {
    OtherTest(k, k', p, q, q);
    OtherParent(k, k', p, q, q);
    OtherWake(k, k', p, q, q);
    OtherZombie(k, k', p, q, q);
    forall l | 0 <= l < |k.locks| ensures SleeperOk(k', q, l) {
      OtherSleeper(k, k', p, q, q, l);
    }
  }

  /** The acting process is no zombie before or after most steps, and has its parent as before. */
  lemma ActorZombie(k: Kernel, k': Kernel, p: nat, j: nat)
    requires Inv(k) && Delta(k, k', p, j) && k'.procs[p].state == RUNNING && k'.procs[p].parent == k.procs[p].parent
    requires !k.procs[p].pc.Out? && !k'.procs[p].pc.Out? && (Exiting(k'.procs[p].pc) ==> p != INIT)
    requires k'.procs[p].parent.Some? && k'.procs[p].parent.value < |k.procs| ==>
      KidsFrom(k'.procs[k'.procs[p].parent.value].pc, |k.procs|)
      <= KidsFrom(k.procs[k'.procs[p].parent.value].pc, |k.procs|)
    ensures ZombieOk(k', p) && ParentOk(k', p)
  {
    hide Inv;
    Parts(k, p);
  }

  lemma StepWakeLock(k: Kernel, p: nat, c: Chan, i: nat, ret: Ret, k': Kernel)
    requires Inv(k) && p < |k.procs| && k.procs[p].pc == Wake(c, i, ret) && i < |k.procs| && i != p
    requires k.procs[i].lock.None? && k' == GoLock(k, p, i, WakeAt(c, i, ret))
    ensures Inv(k')
  {
    hide Inv;
    Parts(k, p);
    LockKeeps(k, p, i, WakeAt(c, i, ret), k');
  }

  lemma StepForkLock(k: Kernel, p: nat, np: nat, k': Kernel)
    requires Inv(k) && p < |k.procs| && k.procs[p].pc == ForkLock(np) && np < |k.procs| && np != p
    requires k.procs[np].lock.None? && k' == GoLock(k, p, np, ForkRun(np))
    ensures Inv(k')
  {
    hide Inv;
    Parts(k, p);
    LockKeeps(k, p, np, ForkRun(np), k');
  }

  lemma StepScanLock(k: Kernel, p: nat, i: nat, kids: bool, k': Kernel)
    requires Inv(k) && p < |k.procs| && k.procs[p].pc == Scan(i, kids) && i < |k.procs| && i != p && IsParent(k, p, i)
    requires k.procs[i].lock.None? && k' == GoLock(k, p, i, ScanAt(i, kids))
    ensures Inv(k')
  {
    hide Inv;
    Parts(k, p);
    LockKeeps(k, p, i, ScanAt(i, kids), k');
  }

  lemma StepCallKill(k: Kernel, p: nat, q: nat, k': Kernel)
    requires Inv(k) && p < |k.procs| && k.procs[p].pc == Run && q < |k.procs| && q != p
    requires k.procs[q].lock.None? && k' == GoLock(k, p, q, Kill(q))
    ensures Inv(k')
  {
    hide Inv;
    Parts(k, p);
    LockKeeps(k, p, q, Kill(q), k');
  }

  // ---- Steps that release another process's p->lock ----

  /** What became of the process whose lock was released: it may have been woken. */
  predicate Woken(r: Process, r': Process)
  {
    r' == r.(lock := None) || (r.state == SLEEPING && r' == r.(lock := None, state := RUNNABLE))
  }

  ghost predicate IsUnlock(k: Kernel, p: nat, q: nat, r: Process, pc': Pc, k': Kernel)
  {
    && Inv(k) && p < |k.procs| && q < |k.procs| && q != p && Woken(k.procs[q], r.(lock := None))
    && k' == GoUnlock(k, p, q, r, pc')
    && PLockOf(p, k.procs[p].pc) == Some(q) && PLockOf(p, pc').None? && SpinOf(pc') == SpinOf(k.procs[p].pc)
    && k.procs[p].state == RUNNING && StateOk(k'.procs[p]) && !k.procs[p].pc.Out? && !pc'.Out?
    && ForkOf(pc') == ForkOf(k.procs[p].pc) && Exiting(pc') == Exiting(k.procs[p].pc)
    && KidsFrom(pc', |k.procs|) == KidsFrom(k.procs[p].pc, |k.procs|) && (forall c :: !WaitsOn(k'.procs[p], c))
    && TestOk(k', p) && HoldsOk(k', p) && WakeOk(k', p) && ForkOk(k', p) && StillWakes(k, k', p)
  }

  lemma UnlockFrame(k: Kernel, p: nat, q: nat, r: Process, pc': Pc, k': Kernel)
    requires IsUnlock(k, p, q, r, pc', k')
    ensures Frame(k, k', p, q)
  {
    hide Inv, StateOk, TestOk, HoldsOk, ParentOk, ForkOk, WakeOk, ZombieOk, StillWakes, KidsFrom, WaitsOn;
    Parts(k, p);
  }

  lemma UnlockDelta(k: Kernel, p: nat, q: nat, r: Process, pc': Pc, k': Kernel)
    requires IsUnlock(k, p, q, r, pc', k')
    ensures Delta(k, k', p, q)
  {
    hide Inv, Frame, TestOk, HoldsOk, ParentOk, ForkOk, WakeOk, ZombieOk, StillWakes;
    UnlockFrame(k, p, q, r, pc', k');
    Parts(k, p);
    Parts(k, q);
  }

  lemma UnlockActor(k: Kernel, p: nat, q: nat, r: Process, pc': Pc, k': Kernel)
    requires IsUnlock(k, p, q, r, pc', k') && Delta(k, k', p, q)
    ensures LocksOk(k', p) && LocksOk(k', q) && ZombieOk(k', p) && ParentOk(k', p)
  {
    hide Inv;
    Parts(k, p);
    Parts(k, q);
    hide Calm, StillWakes;
    ActorZombie(k, k', p, q);
  }

  lemma UnlockKeeps(k: Kernel, p: nat, q: nat, r: Process, pc': Pc, k': Kernel)
    requires IsUnlock(k, p, q, r, pc', k')
    ensures Inv(k')
  {
    hide Inv, Calm, Frame, StillWakes;
    Parts(k, q);
    Parts(k, p);
    UnlockDelta(k, p, q, r, pc', k');
    UnlockActor(k, p, q, r, pc', k');
    if SameButLock(k.procs[q], k'.procs[q]) {
      LockOnly(k, k', p, q);
    } else {
      WokenOk(k, k', p, q);
    }
    assert ProcOk(k', p) && ProcOk(k', q);
    forall l | 0 <= l < |k.locks| ensures SleeperOk(k', p, l) {}
    hide ProcOk, SleeperOk, Delta;
    StepKeeps(k, k', p, q);
  }

  lemma WokenOk(k: Kernel, k': Kernel, p: nat, q: nat)
    requires Inv(k) && Delta(k, k', p, q) && q != p && k.procs[q].state == SLEEPING
    requires PLockOf(p, k.procs[p].pc) == Some(q) && k'.procs[q] == k.procs[q].(lock := None, state := RUNNABLE)
    ensures StateOk(k'.procs[q]) && TestOk(k', q) && HoldsOk(k', q) && ParentOk(k', q) && ForkOk(k', q)
    ensures WakeOk(k', q) && ZombieOk(k', q)
    ensures forall l :: 0 <= l < |k.locks| ==> SleeperOk(k', q, l)
  {
    hide Inv;
    Parts(k, p);
    Parts(k, q);
  }

  /** The process looked at by wakeup, as wakeup leaves it. */
  function WokenAt(r: Process, c: Chan): Process
  {
    if r.state == SLEEPING && r.chan == Some(c) then r.(state := RUNNABLE) else r
  }

  ghost predicate IsWakeAt(k: Kernel, p: nat, c: Chan, i: nat, ret: Ret, k': Kernel)
  {
    && Inv(k) && p < |k.procs| && k.procs[p].pc == WakeAt(c, i, ret) && i < |k.procs| && i != p
    && k' == GoUnlock(k, p, i, WokenAt(k.procs[i], c), Wake(c, i + 1, ret))
  }

  lemma WakeAtWoke(k: Kernel, p: nat, c: Chan, i: nat, ret: Ret, k': Kernel)
    requires IsWakeAt(k, p, c, i, ret, k')
    ensures WakeOk(k', p) && StillWakes(k, k', p)
  {
    hide Inv, TestOk, HoldsOk, ParentOk, ForkOk, ZombieOk;
    Parts(k, p);
    Parts(k, i);
  }

  lemma WakeAtActor(k: Kernel, p: nat, c: Chan, i: nat, ret: Ret, k': Kernel)
    requires IsWakeAt(k, p, c, i, ret, k')
    ensures TestOk(k', p) && HoldsOk(k', p) && ForkOk(k', p) && StateOk(k'.procs[p]) && k.procs[p].state == RUNNING
  {
    hide Inv, ParentOk, ZombieOk, WakeOk, LocksOk;
    Parts(k, p);
  }

  lemma StepWakeAt(k: Kernel, p: nat, c: Chan, i: nat, ret: Ret, k': Kernel)
    requires IsWakeAt(k, p, c, i, ret, k')
    ensures Inv(k')
  {
    hide Inv, TestOk, HoldsOk, ForkOk, StateOk, WakeOk, StillWakes;
    WakeAtWoke(k, p, c, i, ret, k');
    WakeAtActor(k, p, c, i, ret, k');
    UnlockKeeps(k, p, i, WokenAt(k.procs[i], c), Wake(c, i + 1, ret), k');
  }

  lemma StepKill(k: Kernel, p: nat, q: nat, k': Kernel)
    requires Inv(k) && p < |k.procs| && k.procs[p].pc == Kill(q) && q < |k.procs| && q != p
    requires k' == GoUnlock(k, p, q, if k.procs[q].state == SLEEPING
                                     then k.procs[q].(state := RUNNABLE) else k.procs[q], Run)
    ensures Inv(k')
  {
    hide Inv;
    Parts(k, p);
    Parts(k, q);
    UnlockKeeps(k, p, q, if k.procs[q].state == SLEEPING then k.procs[q].(state := RUNNABLE) else k.procs[q], Run, k');
  }

  lemma StepForkInit(k: Kernel, p: nat, np: nat, k': Kernel)
    requires Inv(k) && p < |k.procs| && k.procs[p].pc == ForkInit(np) && np < |k.procs| && np != p
    requires k' == GoUnlock(k, p, np, k.procs[np], ForkWant(np))
    ensures Inv(k')
  {
    hide Inv;
    Parts(k, p);
    Parts(k, np);
    UnlockKeeps(k, p, np, k.procs[np], ForkWant(np), k');
  }

  lemma StepScanOn(k: Kernel, p: nat, i: nat, kids: bool, pc': Pc, k': Kernel)
    requires Inv(k) && p < |k.procs| && k.procs[p].pc == ScanAt(i, kids) && i < |k.procs| && i != p
    requires (k.procs[i].state != ZOMBIE && pc' == Scan(i + 1, true)) || pc' == WaitDone
    requires k' == GoUnlock(k, p, i, k.procs[i], pc')
    ensures Inv(k')
  {
    hide Inv;
    Parts(k, p);
    Parts(k, i);
    UnlockKeeps(k, p, i, k.procs[i], pc', k');
  }

  // ---- Steps that change the acting process itself ----

  ghost predicate IsSetSleeplock(k: Kernel, p: nat, l: nat, k': Kernel)
  {
    && Inv(k) && p < |k.procs| && l < |k.locks| && k.procs[p].pc == SetSleeplock(l)
    && k' == Put(k, p, k.procs[p].(pc := GotSleeplock(l), holds := k.procs[p].holds + {l}))
             .(locks := k.locks[l := Some(p)])
  }

  lemma SetSleeplockDelta(k: Kernel, p: nat, l: nat, k': Kernel)
    requires IsSetSleeplock(k, p, l, k')
    ensures Delta(k, k', p, p)
  {
    hide Inv;
    Parts(k, p);
  }

  lemma SetSleeplockActor(k: Kernel, p: nat, l: nat, k': Kernel)
    requires IsSetSleeplock(k, p, l, k') && Delta(k, k', p, p)
    ensures ProcOk(k', p) && forall l {:trigger SleeperOk(k', p, l)} :: 0 <= l < |k.locks| ==> SleeperOk(k', p, l)
  {
    hide Inv, Calm, StillWakes;
    Parts(k, p);
    ActorZombie(k, k', p, p);
  }

  lemma StepSetSleeplock(k: Kernel, p: nat, l: nat, k': Kernel)
    requires IsSetSleeplock(k, p, l, k')
    ensures Inv(k')
  {
    hide Inv, Delta, ProcOk, SleeperOk;
    SetSleeplockDelta(k, p, l, k');
    SetSleeplockActor(k, p, l, k');
    StepKeeps(k, k', p, p);
  }

  ghost predicate IsClearSleeplock(k: Kernel, p: nat, l: nat, k': Kernel)
  {
    && Inv(k) && p < |k.procs| && l < |k.locks| && k.procs[p].pc == ClearSleeplock(l)
    && k' == Put(k, p, k.procs[p].(pc := Wake(OnLock(l), 0, ToRelease(l)), holds := k.procs[p].holds - {l}))
                     .(locks := k.locks[l := None])
  }

  lemma ClearSleeplockDelta(k: Kernel, p: nat, l: nat, k': Kernel)
    requires IsClearSleeplock(k, p, l, k')
    ensures Delta(k, k', p, p)
  {
    hide Inv;
    Parts(k, p);
  }

  lemma ClearSleeplockActor(k: Kernel, p: nat, l: nat, k': Kernel)
    requires IsClearSleeplock(k, p, l, k') && Delta(k, k', p, p)
    ensures ProcOk(k', p) && forall l {:trigger SleeperOk(k', p, l)} :: 0 <= l < |k.locks| ==> SleeperOk(k', p, l)
  {
    hide Inv, Calm, StillWakes;
    Parts(k, p);
    ActorZombie(k, k', p, p);
  }

  lemma StepClearSleeplock(k: Kernel, p: nat, l: nat, k': Kernel)
    requires IsClearSleeplock(k, p, l, k')
    ensures Inv(k')
  {
    hide Inv, Delta, ProcOk, SleeperOk;
    ClearSleeplockDelta(k, p, l, k');
    ClearSleeplockActor(k, p, l, k');
    StepKeeps(k, k', p, p);
  }

  ghost predicate IsSleep1(k: Kernel, p: nat, c: Chan, k': Kernel)
  {
    && Inv(k) && p < |k.procs| && k.procs[p].pc == Sleep1(c) && LkOf(c) < |k.spin|
    && k' == GoUnspin(k, p, LkOf(c), Sleep2(c))
  }

  lemma Sleep1Delta(k: Kernel, p: nat, c: Chan, k': Kernel)
    requires IsSleep1(k, p, c, k')
    ensures Delta(k, k', p, p)
  {
    hide Inv;
    Parts(k, p);
  }

  lemma Sleep1Actor(k: Kernel, p: nat, c: Chan, k': Kernel)
    requires IsSleep1(k, p, c, k') && Delta(k, k', p, p)
    ensures ProcOk(k', p) && forall l {:trigger SleeperOk(k', p, l)} :: 0 <= l < |k.locks| ==> SleeperOk(k', p, l)
  {
    hide Inv, Calm, StillWakes;
    Parts(k, p);
    ActorZombie(k, k', p, p);
  }

  lemma StepSleep1(k: Kernel, p: nat, c: Chan, k': Kernel)
    requires IsSleep1(k, p, c, k')
    ensures Inv(k')
  {
    hide Inv, Delta, ProcOk, SleeperOk;
    Sleep1Delta(k, p, c, k');
    Sleep1Actor(k, p, c, k');
    StepKeeps(k, k', p, p);
  }

  ghost predicate IsSleep2(k: Kernel, p: nat, c: Chan, k': Kernel)
  {
    && Inv(k) && p < |k.procs| && k.procs[p].pc == Sleep2(c)
    && k' == Put(k, p, k.procs[p].(chan := Some(c), state := SLEEPING, pc := Leave(Slept(c))))
  }

  lemma Sleep2Delta(k: Kernel, p: nat, c: Chan, k': Kernel)
    requires IsSleep2(k, p, c, k')
    ensures Delta(k, k', p, p)
  {
    hide Inv;
    Parts(k, p);
  }

  lemma Sleep2Actor(k: Kernel, p: nat, c: Chan, k': Kernel)
    requires IsSleep2(k, p, c, k') && Delta(k, k', p, p)
    ensures ProcOk(k', p) && forall l {:trigger SleeperOk(k', p, l)} :: 0 <= l < |k.locks| ==> SleeperOk(k', p, l)
  {
    hide Inv, Calm, StillWakes;
    Parts(k, p);
    forall l | 0 <= l < |k.locks| ensures SleeperOk(k', p, l) {
      SleeperAt(k, p, l);
    }
  }

  lemma StepSleep2(k: Kernel, p: nat, c: Chan, k': Kernel)
    requires IsSleep2(k, p, c, k')
    ensures Inv(k')
  {
    hide Inv, Delta, ProcOk, SleeperOk;
    Sleep2Delta(k, p, c, k');
    Sleep2Actor(k, p, c, k');
    StepKeeps(k, k', p, p);
  }

  ghost predicate IsLeave(k: Kernel, p: nat, w: Why, k': Kernel)
  {
    && Inv(k) && p < |k.procs| && k.procs[p].pc == Leave(w)
    && k' == Put(k, p, k.procs[p].(lock := Some(Sched), pc := Gone(w)))
  }

  lemma LeaveDelta(k: Kernel, p: nat, w: Why, k': Kernel)
    requires IsLeave(k, p, w, k')
    ensures Delta(k, k', p, p)
  {
    hide Inv;
    Parts(k, p);
  }

  lemma LeaveActor(k: Kernel, p: nat, w: Why, k': Kernel)
    requires IsLeave(k, p, w, k') && Delta(k, k', p, p)
    ensures ProcOk(k', p) && forall l {:trigger SleeperOk(k', p, l)} :: 0 <= l < |k.locks| ==> SleeperOk(k', p, l)
  {
    hide Inv, Calm, StillWakes;
    Parts(k, p);
    forall l | 0 <= l < |k.locks| ensures SleeperOk(k', p, l) {
      SleeperAt(k, p, l);
    }
  }

  lemma StepLeave(k: Kernel, p: nat, w: Why, k': Kernel)
    requires IsLeave(k, p, w, k')
    ensures Inv(k')
  {
    hide Inv, Delta, ProcOk, SleeperOk;
    LeaveDelta(k, p, w, k');
    LeaveActor(k, p, w, k');
    StepKeeps(k, k', p, p);
  }

  ghost predicate IsBack(k: Kernel, p: nat, w: Why, k': Kernel)
  {
    && Inv(k) && p < |k.procs| && k.procs[p].pc == Back(w) && !w.Exited?
    && k' == Put(k, p, k.procs[p].(lock := None, chan := if w.Slept? then None else k.procs[p].chan,
                                         pc := if w.Slept? then Reacquire(w.c) else Run))
  }

  lemma BackDelta(k: Kernel, p: nat, w: Why, k': Kernel)
    requires IsBack(k, p, w, k')
    ensures Delta(k, k', p, p)
  {
    hide Inv;
    Parts(k, p);
  }

  lemma BackActor(k: Kernel, p: nat, w: Why, k': Kernel)
    requires IsBack(k, p, w, k') && Delta(k, k', p, p)
    ensures ProcOk(k', p) && forall l {:trigger SleeperOk(k', p, l)} :: 0 <= l < |k.locks| ==> SleeperOk(k', p, l)
  {
    hide Inv, Calm, StillWakes;
    Parts(k, p);
    ActorZombie(k, k', p, p);
  }

  lemma StepBack(k: Kernel, p: nat, w: Why, k': Kernel)
    requires IsBack(k, p, w, k')
    ensures Inv(k')
  {
    hide Inv, Delta, ProcOk, SleeperOk;
    BackDelta(k, p, w, k');
    BackActor(k, p, w, k');
    StepKeeps(k, k', p, p);
  }

  ghost predicate IsYield(k: Kernel, p: nat, k': Kernel)
  {
    && Inv(k) && p < |k.procs| && k.procs[p].pc == Yield
    && k' == Put(k, p, k.procs[p].(state := RUNNABLE, pc := Leave(Yielded)))
  }

  lemma YieldDelta(k: Kernel, p: nat, k': Kernel)
    requires IsYield(k, p, k')
    ensures Delta(k, k', p, p)
  {
    hide Inv;
    Parts(k, p);
  }

  lemma YieldActor(k: Kernel, p: nat, k': Kernel)
    requires IsYield(k, p, k') && Delta(k, k', p, p)
    ensures ProcOk(k', p) && forall l {:trigger SleeperOk(k', p, l)} :: 0 <= l < |k.locks| ==> SleeperOk(k', p, l)
  {
    hide Inv, Calm, StillWakes;
    Parts(k, p);
  }

  lemma StepYield(k: Kernel, p: nat, k': Kernel)
    requires IsYield(k, p, k')
    ensures Inv(k')
  {
    hide Inv, Delta, ProcOk, SleeperOk;
    YieldDelta(k, p, k');
    YieldActor(k, p, k');
    StepKeeps(k, k', p, p);
  }

  ghost predicate IsExitZombie(k: Kernel, p: nat, k': Kernel)
  {
    && Inv(k) && p < |k.procs| && k.procs[p].pc == ExitZombie
    && k' == Put(k, p, k.procs[p].(state := ZOMBIE, pc := ExitRelease))
  }

  lemma ExitZombieDelta(k: Kernel, p: nat, k': Kernel)
    requires IsExitZombie(k, p, k')
    ensures Delta(k, k', p, p)
  {
    hide Inv;
    Parts(k, p);
  }

  lemma ExitZombieActor(k: Kernel, p: nat, k': Kernel)
    requires IsExitZombie(k, p, k') && Delta(k, k', p, p)
    ensures ProcOk(k', p) && forall l {:trigger SleeperOk(k', p, l)} :: 0 <= l < |k.locks| ==> SleeperOk(k', p, l)
  {
    hide Inv, Calm, StillWakes;
    Parts(k, p);
  }

  lemma StepExitZombie(k: Kernel, p: nat, k': Kernel)
    requires IsExitZombie(k, p, k')
    ensures Inv(k')
  {
    hide Inv, Delta, ProcOk, SleeperOk;
    ExitZombieDelta(k, p, k');
    ExitZombieActor(k, p, k');
    StepKeeps(k, k', p, p);
  }

  // ---- Steps of the scheduler ----

  ghost predicate IsTake(k: Kernel, q: nat, k': Kernel)
  {
    && Inv(k)
    && q < |k.procs| && k.procs[q].lock.None? && k' == Put(k, q, k.procs[q].(lock := Some(Sched)))
  }

  lemma TakeDelta(k: Kernel, q: nat, k': Kernel)
    requires IsTake(k, q, k')
    ensures Delta(k, k', q, q)
  {
    hide Inv;
    Parts(k, q);
  }

  lemma TakeSleeper(k: Kernel, q: nat, k': Kernel, l: nat)
    requires IsTake(k, q, k') && l < |k.locks|
    ensures SleeperOk(k', q, l)
  {
    hide Inv;
    Parts(k, q);
    SleeperAt(k, q, l);
  }

  lemma TakeActor(k: Kernel, q: nat, k': Kernel)
    requires IsTake(k, q, k') && Delta(k, k', q, q)
    ensures ProcOk(k', q) && forall l :: 0 <= l < |k.locks| ==> SleeperOk(k', q, l)
  {
    hide Inv, Calm, StillWakes;
    Parts(k, q);
    forall l | 0 <= l < |k.locks| ensures SleeperOk(k', q, l) {
      TakeSleeper(k, q, k', l);
    }
    hide Inv, SleeperOk, Delta;
  }

  lemma StepTake(k: Kernel, q: nat, k': Kernel)
    requires IsTake(k, q, k')
    ensures Inv(k')
  {
    TakeDelta(k, q, k');
    TakeActor(k, q, k');
    hide Delta, ProcOk, SleeperOk;
    StepKeeps(k, k', q, q);
  }

  ghost predicate IsDispatch(k: Kernel, q: nat, w: Why, k': Kernel)
  {
    && Inv(k) && q < |k.procs| && k.procs[q].lock == Some(Sched) && k.procs[q].state == RUNNABLE
    && k.procs[q].pc == Parked(w)
    && k' == Put(k, q, k.procs[q].(state := RUNNING, lock := Some(By(q)), pc := Back(w)))
  }

  lemma DispatchDelta(k: Kernel, q: nat, w: Why, k': Kernel)
    requires IsDispatch(k, q, w, k')
    ensures Delta(k, k', q, q)
  {
    hide Inv;
    Parts(k, q);
  }

  lemma DispatchActor(k: Kernel, q: nat, w: Why, k': Kernel)
    requires IsDispatch(k, q, w, k') && Delta(k, k', q, q)
    ensures ProcOk(k', q) && forall l {:trigger SleeperOk(k', q, l)} :: 0 <= l < |k.locks| ==> SleeperOk(k', q, l)
  {
    hide Inv, Calm, StillWakes;
    Parts(k, q);
    ActorZombie(k, k', q, q);
  }

  lemma StepDispatch(k: Kernel, q: nat, w: Why, k': Kernel)
    requires IsDispatch(k, q, w, k')
    ensures Inv(k')
  {
    hide Inv, Delta, ProcOk, SleeperOk;
    DispatchDelta(k, q, w, k');
    DispatchActor(k, q, w, k');
    StepKeeps(k, k', q, q);
  }

  ghost predicate IsDrop(k: Kernel, q: nat, k': Kernel)
  {
    && Inv(k)
    && q < |k.procs| && k.procs[q].lock == Some(Sched)
    && k' == Put(k, q, k.procs[q].(lock := None, pc := if k.procs[q].pc.Gone?
                                                       then Parked(k.procs[q].pc.w) else k.procs[q].pc))
  }

  lemma DropDelta(k: Kernel, q: nat, k': Kernel)
    requires IsDrop(k, q, k')
    ensures Delta(k, k', q, q)
  {
    hide Inv;
    Parts(k, q);
  }

  lemma DropSleeper(k: Kernel, q: nat, k': Kernel, l: nat)
    requires IsDrop(k, q, k') && l < |k.locks|
    ensures SleeperOk(k', q, l)
  {
    hide Inv;
    Parts(k, q);
    SleeperAt(k, q, l);
  }

  lemma DropWake(k: Kernel, q: nat, k': Kernel)
    requires IsDrop(k, q, k')
    ensures TestOk(k', q) && WakeOk(k', q) && ZombieOk(k', q) && ParentOk(k', q)
  {
    hide Inv;
    Parts(k, q);
    hide Inv;
  }

  lemma DropActor(k: Kernel, q: nat, k': Kernel)
    requires IsDrop(k, q, k')
    ensures ProcOk(k', q) && forall l :: 0 <= l < |k.locks| ==> SleeperOk(k', q, l)
  {
    hide Inv;
    DropWake(k, q, k');
    hide TestOk, WakeOk, ZombieOk, ParentOk;
    Parts(k, q);
    forall l | 0 <= l < |k.locks| ensures SleeperOk(k', q, l) {
      DropSleeper(k, q, k', l);
    }
    hide Inv, SleeperOk;
  }

  lemma StepDrop(k: Kernel, q: nat, k': Kernel)
    requires IsDrop(k, q, k')
    ensures Inv(k')
  {
    DropDelta(k, q, k');
    DropActor(k, q, k');
    hide Delta, ProcOk, SleeperOk;
    StepKeeps(k, k', q, q);
  }

  // ---- Steps that make, reparent or reap a child ----

  ghost predicate IsCallFork(k: Kernel, p: nat, np: nat, k': Kernel)
  {
    && Inv(k)
    && p < |k.procs| && k.procs[p].pc == Run && np < |k.procs| && np != p
    && k.procs[np].lock.None? && k.procs[np].state == UNUSED
    && k' == GoLock(Put(k, np, k.procs[np].(state := USED)), p, np, ForkInit(np))
  }

  lemma CallForkDelta(k: Kernel, p: nat, np: nat, k': Kernel)
    requires IsCallFork(k, p, np, k')
    ensures Delta(k, k', p, np)
  {
    hide Inv;
    Parts(k, p);
    Parts(k, np);
  }

  /** A process that is awake needs no waker. */
  lemma AwakeOk(k: Kernel, p: nat)
    requires p < |k.procs| && forall c :: !WaitsOn(k.procs[p], c)
    ensures forall l {:trigger SleeperOk(k, p, l)} :: 0 <= l < |k.locks| ==> SleeperOk(k, p, l)
  {
  }

  lemma CallForkActor(k: Kernel, p: nat, np: nat, k': Kernel)
    requires IsCallFork(k, p, np, k') && Delta(k, k', p, np)
    ensures ProcOk(k', p) && forall l {:trigger SleeperOk(k', p, l)} :: 0 <= l < |k.locks| ==> SleeperOk(k', p, l)
  {
    hide Inv, SleeperOk, WillWake, Calm, StillWakes;
    Parts(k, p);
    Parts(k, np);
    hide Calm, StillWakes;
    ActorZombie(k, k', p, np);
    AwakeOk(k', p);
  }

  lemma CallForkOther(k: Kernel, p: nat, np: nat, k': Kernel)
    requires IsCallFork(k, p, np, k') && Delta(k, k', p, np)
    ensures ProcOk(k', np) && forall l {:trigger SleeperOk(k', np, l)} :: 0 <= l < |k.locks| ==> SleeperOk(k', np, l)
  {
    hide Inv, Calm, StillWakes, SleeperOk, WillWake;
    Parts(k, p);
    Parts(k, np);
    AwakeOk(k', np);
  }

  lemma StepCallFork(k: Kernel, p: nat, np: nat, k': Kernel)
    requires IsCallFork(k, p, np, k')
    ensures Inv(k')
  {
    CallForkDelta(k, p, np, k');
    CallForkActor(k, p, np, k');
    CallForkOther(k, p, np, k');
    hide Delta, ProcOk, SleeperOk;
    StepKeeps(k, k', p, np);
  }

  ghost predicate IsForkFail(k: Kernel, p: nat, np: nat, k': Kernel)
  {
    && Inv(k)
    && p < |k.procs| && k.procs[p].pc == ForkInit(np) && np < |k.procs| && np != p
    && k' == GoUnlock(k, p, np, Process(UNUSED, None, None, None, Out, {}), Run)
  }

  lemma ForkFailDelta(k: Kernel, p: nat, np: nat, k': Kernel)
    requires IsForkFail(k, p, np, k')
    ensures Delta(k, k', p, np)
  {
    hide Inv;
    Parts(k, p);
    Parts(k, np);
  }

  lemma ForkFailActor(k: Kernel, p: nat, np: nat, k': Kernel)
    requires IsForkFail(k, p, np, k') && Delta(k, k', p, np)
    ensures ProcOk(k', p) && forall l {:trigger SleeperOk(k', p, l)} :: 0 <= l < |k.locks| ==> SleeperOk(k', p, l)
  {
    hide Inv, SleeperOk, WillWake, Calm, StillWakes;
    Parts(k, p);
    Parts(k, np);
    hide Calm, StillWakes;
    ActorZombie(k, k', p, np);
    AwakeOk(k', p);
  }

  lemma ForkFailOther(k: Kernel, p: nat, np: nat, k': Kernel)
    requires IsForkFail(k, p, np, k') && Delta(k, k', p, np)
    ensures ProcOk(k', np) && forall l {:trigger SleeperOk(k', np, l)} :: 0 <= l < |k.locks| ==> SleeperOk(k', np, l)
  {
    hide Inv, Calm, StillWakes, SleeperOk, WillWake;
    Parts(k, p);
    Parts(k, np);
    AwakeOk(k', np);
  }

  lemma StepForkFail(k: Kernel, p: nat, np: nat, k': Kernel)
    requires IsForkFail(k, p, np, k')
    ensures Inv(k')
  {
    ForkFailDelta(k, p, np, k');
    ForkFailActor(k, p, np, k');
    ForkFailOther(k, p, np, k');
    hide Delta, ProcOk, SleeperOk;
    StepKeeps(k, k', p, np);
  }

  ghost predicate IsForkParent(k: Kernel, p: nat, np: nat, k': Kernel)
  {
    && Inv(k)
    && p < |k.procs| && k.procs[p].pc == ForkParent(np) && np < |k.procs| && np != p
    && k' == Go(Put(k, np, k.procs[np].(parent := Some(p))), p, ForkDone(np))
  }

  lemma ForkParentDelta(k: Kernel, p: nat, np: nat, k': Kernel)
    requires IsForkParent(k, p, np, k')
    ensures Delta(k, k', p, np)
  {
    hide Inv;
    Parts(k, p);
    Parts(k, np);
  }

  lemma ForkParentActor(k: Kernel, p: nat, np: nat, k': Kernel)
    requires IsForkParent(k, p, np, k') && Delta(k, k', p, np)
    ensures ProcOk(k', p) && forall l {:trigger SleeperOk(k', p, l)} :: 0 <= l < |k.locks| ==> SleeperOk(k', p, l)
  {
    hide Inv, SleeperOk, WillWake, Calm, StillWakes;
    Parts(k, p);
    Parts(k, np);
    hide Calm, StillWakes;
    ActorZombie(k, k', p, np);
    AwakeOk(k', p);
  }

  lemma ForkParentOther(k: Kernel, p: nat, np: nat, k': Kernel)
    requires IsForkParent(k, p, np, k') && Delta(k, k', p, np)
    ensures ProcOk(k', np) && forall l {:trigger SleeperOk(k', np, l)} :: 0 <= l < |k.locks| ==> SleeperOk(k', np, l)
  {
    hide Inv, Calm, StillWakes, SleeperOk, WillWake;
    Parts(k, p);
    Parts(k, np);
    AwakeOk(k', np);
  }

  lemma StepForkParent(k: Kernel, p: nat, np: nat, k': Kernel)
    requires IsForkParent(k, p, np, k')
    ensures Inv(k')
  {
    ForkParentDelta(k, p, np, k');
    ForkParentActor(k, p, np, k');
    ForkParentOther(k, p, np, k');
    hide Delta, ProcOk, SleeperOk;
    StepKeeps(k, k', p, np);
  }

  ghost predicate IsForkRun(k: Kernel, p: nat, np: nat, k': Kernel)
  {
    && Inv(k)
    && p < |k.procs| && k.procs[p].pc == ForkRun(np) && np < |k.procs| && np != p
    && k' == GoUnlock(k, p, np, k.procs[np].(state := RUNNABLE, pc := Parked(Forked)), Run)
  }

  lemma ForkRunDelta(k: Kernel, p: nat, np: nat, k': Kernel)
    requires IsForkRun(k, p, np, k')
    ensures Delta(k, k', p, np)
  {
    hide Inv;
    Parts(k, p);
    Parts(k, np);
  }

  lemma ForkRunActor(k: Kernel, p: nat, np: nat, k': Kernel)
    requires IsForkRun(k, p, np, k') && Delta(k, k', p, np)
    ensures ProcOk(k', p) && forall l {:trigger SleeperOk(k', p, l)} :: 0 <= l < |k.locks| ==> SleeperOk(k', p, l)
  {
    hide Inv, SleeperOk, WillWake, Calm, StillWakes;
    Parts(k, p);
    Parts(k, np);
    hide Calm, StillWakes;
    ActorZombie(k, k', p, np);
    AwakeOk(k', p);
  }

  lemma ForkRunOther(k: Kernel, p: nat, np: nat, k': Kernel)
    requires IsForkRun(k, p, np, k') && Delta(k, k', p, np)
    ensures ProcOk(k', np) && forall l {:trigger SleeperOk(k', np, l)} :: 0 <= l < |k.locks| ==> SleeperOk(k', np, l)
  {
    hide Inv, Calm, StillWakes, SleeperOk, WillWake;
    Parts(k, p);
    Parts(k, np);
    AwakeOk(k', np);
  }

  lemma StepForkRun(k: Kernel, p: nat, np: nat, k': Kernel)
    requires IsForkRun(k, p, np, k')
    ensures Inv(k')
  {
    ForkRunDelta(k, p, np, k');
    ForkRunActor(k, p, np, k');
    ForkRunOther(k, p, np, k');
    hide Delta, ProcOk, SleeperOk;
    StepKeeps(k, k', p, np);
  }

  ghost predicate IsReparentMove(k: Kernel, p: nat, i: nat, k': Kernel)
  {
    && Inv(k)
    && p < |k.procs| && k.procs[p].pc == Reparent(i) && i < |k.procs| && i != p && IsParent(k, p, i)
    && k' == Go(Put(k, i, k.procs[i].(parent := Some(INIT))), p, Wake(OnProc(INIT), 0, ToReparent(i + 1)))
  }

  lemma ReparentMoveDelta(k: Kernel, p: nat, i: nat, k': Kernel)
    requires IsReparentMove(k, p, i, k')
    ensures Delta(k, k', p, i)
  {
    hide Inv;
    Parts(k, p);
    Parts(k, i);
    forall q | 0 <= q < |k.procs| && k.procs[q].parent == Some(p) ensures q >= i {
      Parts(k, q);
    }
  }

  lemma ReparentMoveActor(k: Kernel, p: nat, i: nat, k': Kernel)
    requires IsReparentMove(k, p, i, k') && Delta(k, k', p, i)
    ensures ProcOk(k', p) && forall l {:trigger SleeperOk(k', p, l)} :: 0 <= l < |k.locks| ==> SleeperOk(k', p, l)
  {
    hide Inv, SleeperOk, WillWake, Calm, StillWakes;
    Parts(k, p);
    Parts(k, i);
    hide Calm, StillWakes;
    ActorZombie(k, k', p, i);
    AwakeOk(k', p);
  }

  lemma ReparentMoveChild(k: Kernel, p: nat, i: nat, k': Kernel)
    requires IsReparentMove(k, p, i, k') && Delta(k, k', p, i)
    ensures ParentOk(k', i) && ZombieOk(k', i)
  {
    hide Inv, Calm, StillWakes, TestOk, HoldsOk, WakeOk;
    Parts(k, p);
    Parts(k, i);
    Parts(k, INIT);
  }

  lemma ReparentMoveWake(k: Kernel, p: nat, i: nat, k': Kernel)
    requires IsReparentMove(k, p, i, k') && Delta(k, k', p, i)
    ensures WakeOk(k', i) && LocksOk(k', i)
  {
    hide Inv, Calm, StillWakes, TestOk, HoldsOk, ForkOk, ZombieOk, ParentOk;
    Parts(k, p);
    Parts(k, i);
    hide Inv;
    assert LocksOk(k', i);
  }

  lemma ReparentMoveRest(k: Kernel, p: nat, i: nat, k': Kernel)
    requires IsReparentMove(k, p, i, k') && Delta(k, k', p, i)
    ensures StateOk(k'.procs[i]) && TestOk(k', i) && HoldsOk(k', i) && ForkOk(k', i)
  {
    hide Inv, Calm, StillWakes, LocksOk, WakeOk, ZombieOk;
    Parts(k, p);
    Parts(k, i);
    hide Inv;
  }

  lemma ReparentMoveOther(k: Kernel, p: nat, i: nat, k': Kernel)
    requires IsReparentMove(k, p, i, k') && Delta(k, k', p, i)
    ensures ProcOk(k', i)
  {
    ReparentMoveChild(k, p, i, k');
    ReparentMoveWake(k, p, i, k');
    ReparentMoveRest(k, p, i, k');
  }

  lemma ReparentMoveSleeper(k: Kernel, p: nat, i: nat, k': Kernel, l: nat)
    requires IsReparentMove(k, p, i, k') && Delta(k, k', p, i) && l < |k.locks|
    ensures SleeperOk(k', i, l)
  {
    hide Inv, LocksOk, StateOk, TestOk, HoldsOk, ParentOk, ForkOk, WakeOk, ZombieOk;
    SleeperAt(k, i, l);
    SpinAt(k, l + 1);
  }

  lemma StepReparentMove(k: Kernel, p: nat, i: nat, k': Kernel)
    requires IsReparentMove(k, p, i, k')
    ensures Inv(k')
  {
    ReparentMoveDelta(k, p, i, k');
    ReparentMoveActor(k, p, i, k');
    ReparentMoveOther(k, p, i, k');
    forall l | 0 <= l < |k.locks| ensures SleeperOk(k', i, l) {
      ReparentMoveSleeper(k, p, i, k', l);
    }
    hide Delta, ProcOk, SleeperOk;
    StepKeeps(k, k', p, i);
  }

  ghost predicate IsReap(k: Kernel, p: nat, i: nat, kids: bool, k': Kernel)
  {
    && Inv(k)
    && p < |k.procs| && k.procs[p].pc == ScanAt(i, kids) && i < |k.procs| && i != p && k.procs[i].state == ZOMBIE
    && k' == GoUnlock(k, p, i, Process(UNUSED, None, None, None, Out, {}), WaitDone)
  }

  lemma ReapFrame(k: Kernel, p: nat, i: nat, kids: bool, k': Kernel)
    requires IsReap(k, p, i, kids, k')
    ensures Frame(k, k', p, i) && StillWakes(k, k', p)
  {
    hide Inv, TestOk, ParentOk, ForkOk, WakeOk, ZombieOk, HoldsOk;
    Parts(k, p);
    Parts(k, i);
    hide Inv;
  }

  lemma ReapDelta(k: Kernel, p: nat, i: nat, kids: bool, k': Kernel)
    requires IsReap(k, p, i, kids, k')
    ensures Delta(k, k', p, i)
  {
    hide Inv, Frame, StillWakes, TestOk, HoldsOk, ForkOk, WakeOk, ZombieOk;
    ReapFrame(k, p, i, kids, k');
    Parts(k, p);
    Parts(k, i);
  }

  lemma ReapHolder(k: Kernel, p: nat, i: nat, kids: bool, k': Kernel)
    requires IsReap(k, p, i, kids, k') && Delta(k, k', p, i)
    ensures ZombieOk(k', p) && ParentOk(k', p)
  {
    hide Inv, Calm, StillWakes, TestOk, HoldsOk, ForkOk, WakeOk, LocksOk;
    Parts(k, p);
    Parts(k, i);
    ActorZombie(k, k', p, i);
  }

  lemma ReapActor(k: Kernel, p: nat, i: nat, kids: bool, k': Kernel)
    requires IsReap(k, p, i, kids, k') && Delta(k, k', p, i)
    ensures ProcOk(k', p) && forall l {:trigger SleeperOk(k', p, l)} :: 0 <= l < |k.locks| ==> SleeperOk(k', p, l)
  {
    hide Inv, Calm, StillWakes, SleeperOk, WillWake, ZombieOk, ParentOk, Delta;
    Parts(k, p);
    Parts(k, i);
    ReapHolder(k, p, i, kids, k');
    AwakeOk(k', p);
  }

  lemma ReapOther(k: Kernel, p: nat, i: nat, kids: bool, k': Kernel)
    requires IsReap(k, p, i, kids, k')
    ensures ProcOk(k', i) && forall l {:trigger SleeperOk(k', i, l)} :: 0 <= l < |k.locks| ==> SleeperOk(k', i, l)
  {
    hide Inv, SleeperOk, WillWake;
    Parts(k, p);
    Parts(k, i);
    hide Inv;
    AwakeOk(k', i);
  }

  lemma StepReap(k: Kernel, p: nat, i: nat, kids: bool, k': Kernel)
    requires IsReap(k, p, i, kids, k')
    ensures Inv(k')
  {
    ReapDelta(k, p, i, kids, k');
    ReapActor(k, p, i, kids, k');
    ReapOther(k, p, i, kids, k');
    hide Delta, ProcOk, SleeperOk;
    StepKeeps(k, k', p, i);
  }

  // ---- Every step, every run ----

  /** The steps of fork, exit and wait. */
  lemma ChildMoveKeeps(k: Kernel, p: nat, ch: Choice, k': Kernel)
    requires Inv(k) && p < |k.procs| && Move(k, p, ch) == Some(k')
    requires match k.procs[p].pc
             case ForkInit(_) | ForkWant(_) | ForkParent(_) | ForkDone(_) | ForkLock(_) | ForkRun(_) => true
             case ExitWant | Reparent(_) | ExitLock | ExitZombie | ExitRelease => true
             case WaitWant | Scan(_, _) | ScanAt(_, _) | WaitDone => true
             case _ => false
    ensures Inv(k')
  {
    hide Inv;
    match k.procs[p].pc
    case ForkInit(np) => if ch.b { StepForkFail(k, p, np, k'); } else { StepForkInit(k, p, np, k'); }
    case ForkWant(np) => StepForkWant(k, p, np, k');
    case ForkParent(np) => StepForkParent(k, p, np, k');
    case ForkDone(np) => StepForkDone(k, p, np, k');
    case ForkLock(np) => StepForkLock(k, p, np, k');
    case ForkRun(np) => StepForkRun(k, p, np, k');
    case ExitWant => StepExitWant(k, p, k');
    case Reparent(i) =>
      if i >= |k.procs| { StepReparentEnd(k, p, i, k'); }
      else if IsParent(k, p, i) && i != p { StepReparentMove(k, p, i, k'); }
      else { StepReparent(k, p, i, k'); }
    case ExitLock => StepExitLock(k, p, k');
    case ExitZombie => StepExitZombie(k, p, k');
    case ExitRelease => StepExitRelease(k, p, k');
    case WaitWant => StepWaitWant(k, p, k');
    case Scan(i, kids) =>
      if i >= |k.procs| { StepScanEnd(k, p, i, kids, if kids && !ch.b then Sleep0(OnProc(p)) else WaitDone, k'); }
      else if !IsParent(k, p, i) { StepScanNext(k, p, i, kids, k'); }
      else { StepScanLock(k, p, i, kids, k'); }
    case ScanAt(i, kids) =>
      if k.procs[i].state == ZOMBIE && !ch.b { StepReap(k, p, i, kids, k'); }
      else { StepScanOn(k, p, i, kids, if k.procs[i].state == ZOMBIE then WaitDone else Scan(i + 1, true), k'); }
    case WaitDone => StepWaitDone(k, p, k');
  }

  lemma MoveKeeps(k: Kernel, p: nat, ch: Choice, k': Kernel)
    requires Inv(k) && p < |k.procs| && Move(k, p, ch) == Some(k')
    ensures Inv(k')
  {
    hide Inv;
    var me := k.procs[p];
    match me.pc
    case WantSleeplock(l) => StepWantSleeplock(k, p, l, k');
    case TestSleeplock(l) => if k.locks[l].Some? { StepMustSleep(k, p, l, k'); } else { StepMaySet(k, p, l, k'); }
    case SetSleeplock(l) => StepSetSleeplock(k, p, l, k');
    case GotSleeplock(l) => StepSleeplockExit(k, p, l, k');
    case DropSleeplock(l) => StepDropSleeplock(k, p, l, k');
    case ClearSleeplock(l) => StepClearSleeplock(k, p, l, k');
    case DroppedSleeplock(l) => StepSleeplockExit(k, p, l, k');
    case Sleep0(c) => StepSleep0(k, p, c, k');
    case Sleep1(c) => StepSleep1(k, p, c, k');
    case Sleep2(c) => StepSleep2(k, p, c, k');
    case Reacquire(c) => if c.OnLock? { StepRelock(k, p, c.l, k'); } else { StepRescan(k, p, c.p, k'); }
    case Wake(c, i, ret) =>
      if i >= |k.procs| {
        match ret
        case ToRelease(l) => WakeEndRelease(k, p, c, i, l, k');
        case ToReparent(j) => WakeEndReparent(k, p, c, i, j, k');
        case ToExit => WakeEndExit(k, p, c, i, k');
      }
      else if i == p { StepWakeSelf(k, p, c, ret, k'); }
      else { StepWakeLock(k, p, c, i, ret, k'); }
    case WakeAt(c, i, ret) => StepWakeAt(k, p, c, i, ret, k');
    case Leave(w) => StepLeave(k, p, w, k');
    case Back(w) => StepBack(k, p, w, k');
    case Yield => StepYield(k, p, k');
    case Kill(q) => StepKill(k, p, q, k');
    case _ => ChildMoveKeeps(k, p, ch, k');
  }

  lemma CallKeeps(k: Kernel, p: nat, to: Pc, k': Kernel)
    requires Inv(k) && p < |k.procs| && Call(k, p, to) == Some(k')
    ensures Inv(k')
  {
    hide Inv;
    match to
    case Yield => StepCallYield(k, p, k');
    case Kill(q) => StepCallKill(k, p, q, k');
    case ForkInit(np) => StepCallFork(k, p, np, k');
    case _ => StepCall(k, p, to, k');
  }

  lemma NextKeeps(k: Kernel, a: Label, k': Kernel)
    requires Inv(k) && Next(k, a) == Some(k')
    ensures Inv(k')
  {
    match a
    case Steps(p, ch) => MoveKeeps(k, p, ch, k');
    case Calls(p, to) => CallKeeps(k, p, to, k');
    case Take(q) => StepTake(k, q, k');
    case Dispatch(q) => StepDispatch(k, q, k.procs[q].pc.w, k');
    case Drop(q) => StepDrop(k, q, k');
  }

  lemma {:induction false} RunsKeep(k: Kernel, acts: seq<Label>, k': Kernel)
    requires Inv(k) && Runs(k, acts, k')
    ensures Inv(k')
    decreases |acts|
  {
    if acts != [] {
      NextKeeps(k, acts[0], Next(k, acts[0]).value);
      RunsKeep(Next(k, acts[0]).value, acts[1..], k');
    }
  }

  lemma ReachableInv(k: Kernel)
    requires Reachable(k)
    ensures Inv(k)
  {
    var k0, acts :| Init(k0) && Runs(k0, acts, k);
    InitInv(k0);
    RunsKeep(k0, acts, k);
  }

  // ---- What holds in every reachable state ----

  /** A sleeplock never has two holders. */
  lemma MutualExclusion(k: Kernel, p: nat, q: nat, l: nat)
    requires Sized(k) && Reachable(k) && p < |k.procs| && q < |k.procs| && l < |k.locks|
    requires l in k.procs[p].holds && l in k.procs[q].holds
    ensures p == q
  {
    ReachableInv(k);
    assert ProcOk(k, p) && ProcOk(k, q) && k.locks[l] == Some(p);
  }

  /** Whenever its inner spinlock is free, a sleeplock that a process sleeps on is locked. */
  lemma SleeperMeansLocked(k: Kernel, p: nat, l: nat)
    requires Sized(k) && Reachable(k) && p < |k.procs| && l < |k.locks|
    requires WaitsOn(k.procs[p], OnLock(l)) && k.spin[l + 1].None?
    ensures k.locks[l].Some?
  {
    ReachableInv(k);
    SleeperAt(k, p, l);
  }

  /** No lost wakeup: a process that has given up the condition lock in sleep(c), and was not woken
      since, is seen as SLEEPING on c by every wakeup(c) that looks at it. */
  lemma SeenByWakeup(k: Kernel, p: nat, i: nat, c: Chan, ret: Ret)
    requires Sized(k) && Reachable(k) && p < |k.procs| && k.procs[p].pc == WakeAt(c, i, ret) && i < |k.procs|
    requires WaitsOn(k.procs[i], c)
    ensures k.procs[i].state == SLEEPING && k.procs[i].chan == Some(c)
  {
    ReachableInv(k);
    Parts(k, p);
    Parts(k, i);
  }

  /** When wakeup(c) is done, no other process is left asleep on c. */
  lemma WakeupWakesAll(k: Kernel, p: nat, i: nat, c: Chan, n: nat, ret: Ret)
    requires Sized(k) && Reachable(k) && p < |k.procs| && k.procs[p].pc == Wake(c, n, ret) && n >= |k.procs|
    requires i < |k.procs| && i != p
    ensures !WaitsOn(k.procs[i], c)
  {
    ReachableInv(k);
    Parts(k, p);
  }

  /** Whenever wait_lock is free, no process asleep in wait has a zombie child. */
  lemma NoSleepOverZombie(k: Kernel, z: nat, q: nat)
    requires Sized(k) && Reachable(k) && z < |k.procs| && q < |k.procs| && k.spin[0].None?
    requires k.procs[z].state == ZOMBIE && k.procs[z].parent == Some(q)
    ensures !WaitsOn(k.procs[q], OnProc(q))
  {
    ReachableInv(k);
    Parts(k, z);
  }

  /** No zombie and no unused slot is any process's parent. */
  lemma ParentsLive(k: Kernel, p: nat, q: nat)
    requires Sized(k) && Reachable(k) && p < |k.procs| && k.procs[p].parent == Some(q)
    ensures q < |k.procs| && q != p && k.procs[q].state != ZOMBIE && k.procs[q].state != UNUSED
    ensures k.procs[q].state != USED
  {
    ReachableInv(k);
    Parts(k, p);
    Parts(k, q);
  }

  /** Program points at which a process acts on another one. */
  predicate Meddles(pc: Pc)
  {
    pc.WakeAt? || pc.Kill? || pc.ForkInit? || pc.ForkRun? || pc.ForkParent? || pc.Reparent? || pc.ScanAt?
  }

  lemma NoMeddling(k: Kernel, p: nat, ch: Choice, k': Kernel, z: nat)
    requires Sized(k) && p < |k.procs| && Move(k, p, ch) == Some(k') && z < |k.procs| && z != p
    requires !Meddles(k.procs[p].pc)
    ensures |k'.procs| == |k.procs| && k'.procs[z].state == k.procs[z].state
  {
  }

  lemma Meddling(k: Kernel, p: nat, ch: Choice, k': Kernel, z: nat)
    requires Sized(k) && p < |k.procs| && Move(k, p, ch) == Some(k') && z < |k.procs| && z != p
    requires Meddles(k.procs[p].pc)
    requires z < |k'.procs| && k'.procs[z].state != k.procs[z].state
    ensures k.procs[z].state == SLEEPING || ForkOf(k.procs[p].pc) == Some(z)
            || (k.procs[p].pc.ScanAt? && k.procs[p].pc.i == z && k'.procs[z].state == UNUSED)
  {
  }

  /** A zombie's own steps leave it one. */
  lemma ZombieSteps(k: Kernel, p: nat, ch: Choice, k': Kernel)
    requires Sized(k) && p < |k.procs| && Move(k, p, ch) == Some(k') && StateOk(k.procs[p])
    requires k.procs[p].state == ZOMBIE
    ensures p < |k'.procs| && k'.procs[p].state == ZOMBIE
  {
  }

  lemma ReapedInMove(k: Kernel, p: nat, ch: Choice, k': Kernel, z: nat)
    requires Inv(k) && p < |k.procs| && Move(k, p, ch) == Some(k') && z < |k.procs|
    requires k.procs[z].state == ZOMBIE && z < |k'.procs| && k'.procs[z].state != ZOMBIE
    ensures k.procs[p].pc.ScanAt? && k.procs[p].pc.i == z && k.procs[z].parent == Some(p)
    ensures k.procs[z].pc == Parked(Exited) && k'.procs[z].state == UNUSED
  {
    hide Inv, Move, HoldsOk, ParentOk, WakeOk, ZombieOk;
    Parts(k, p);
    Parts(k, z);
    if z == p {
      ZombieSteps(k, p, ch, k');
    } else if Meddles(k.procs[p].pc) {
      Meddling(k, p, ch, k', z);
    } else {
      NoMeddling(k, p, ch, k', z);
    }
  }

  /** A zombie leaves that state only when wait of its current parent frees it, and by then it is off
      its CPU for good: it is never dispatched again. */
  lemma ReapedByParent(k: Kernel, a: Label, k': Kernel, z: nat)
    requires Sized(k) && Reachable(k) && Next(k, a) == Some(k') && z < |k.procs| && k.procs[z].state == ZOMBIE
    requires z < |k'.procs| && k'.procs[z].state != ZOMBIE
    ensures a.Steps? && a.p < |k.procs| && k.procs[a.p].pc.ScanAt? && k.procs[a.p].pc.i == z
    ensures k.procs[z].parent == Some(a.p) && k.procs[z].pc == Parked(Exited) && k'.procs[z].state == UNUSED
  {
    ReachableInv(k);
    Parts(k, z);
    match a
    case Steps(p, ch) => ReapedInMove(k, p, ch, k', z);
    case _ =>
  }

  /** In sched a process holds its own p->lock and none of the condition locks, and is not RUNNING;
      and no exited process is switched in again. */
  lemma SchedSafe(k: Kernel, p: nat)
    requires Sized(k) && Reachable(k) && p < |k.procs|
    ensures k.procs[p].pc.Leave? ==>
      && k.procs[p].lock == Some(By(p)) && k.procs[p].state != RUNNING
      && forall s :: 0 <= s < |k.spin| ==> k.spin[s] != Some(p)
    ensures k.procs[p].pc != Back(Exited)
  {
    ReachableInv(k);
    Parts(k, p);
    forall s | 0 <= s < |k.spin| && k.procs[p].pc.Leave? ensures k.spin[s] != Some(p) {
      SpinAt(k, s);
    }
  }
}
