/** wait and its neighbours: which children a scan has seen, when wait sleeps and when it gives up, how
    parents change, and the life of a process slot. */
module ProcWait {
  import opened Blocks
  import opened Proc
  import opened ProcInv

  /** Some slot below i has p as its parent. */
  predicate HasKid(k: Kernel, p: nat, i: nat)
  {
    exists q :: 0 <= q < i && q < |k.procs| && k.procs[q].parent == Some(p)
  }

  /** havekids is what the scan found so far. */
  predicate KidsOk(k: Kernel, p: nat)
    requires p < |k.procs|
  {
    var pc := k.procs[p].pc;
    pc.Scan? || pc.ScanAt? ==> (pc.kids <==> HasKid(k, p, pc.i))
  }

  /** How the parent of slot z may change in a step of process p. */
  predicate Adopts(k: Kernel, p: nat, z: nat, parent: Option<nat>)
    requires p < |k.procs| && z < |k.procs|
  {
    var pc, was := k.procs[p].pc, k.procs[z].parent;
    || (pc == ForkParent(z) && was.None? && parent == Some(p))
    || (pc == Reparent(z) && was == Some(p) && parent == Some(INIT))
    || (pc.ScanAt? && pc.i == z && was == Some(p) && k.procs[z].state == ZOMBIE && parent == None)
  }

  // ---- A step of a process, looked at by what it is doing ----

  predicate LockPc(pc: Pc)
  {
    || pc.WantSleeplock? || pc.TestSleeplock? || pc.SetSleeplock? || pc.GotSleeplock? || pc.DropSleeplock?
    || pc.ClearSleeplock? || pc.DroppedSleeplock?
  }

  predicate SleepPc(pc: Pc)
  {
    || pc.Sleep0? || pc.Sleep1? || pc.Sleep2? || pc.Reacquire? || pc.Wake? || pc.WakeAt? || pc.Leave? || pc.Gone?
    || pc.Parked? || pc.Back? || pc.Yield?
  }

  lemma QuietOwnAtLocks(k: Kernel, p: nat, ch: Choice, k': Kernel)
    requires Sized(k) && p < |k.procs| && Move(k, p, ch) == Some(k') && !Meddles(k.procs[p].pc)
    requires LockPc(k.procs[p].pc)
    ensures |k'.procs| == |k.procs| && k'.procs[p].parent == k.procs[p].parent
  {
  }

  lemma QuietOwnAtSleep(k: Kernel, p: nat, ch: Choice, k': Kernel)
    requires Sized(k) && p < |k.procs| && Move(k, p, ch) == Some(k') && !Meddles(k.procs[p].pc)
    requires SleepPc(k.procs[p].pc)
    ensures |k'.procs| == |k.procs| && k'.procs[p].parent == k.procs[p].parent
  {
  }

  lemma QuietOwnElsewhere(k: Kernel, p: nat, ch: Choice, k': Kernel)
    requires Sized(k) && p < |k.procs| && Move(k, p, ch) == Some(k') && !Meddles(k.procs[p].pc)
    requires !LockPc(k.procs[p].pc) && !SleepPc(k.procs[p].pc)
    ensures |k'.procs| == |k.procs| && k'.procs[p].parent == k.procs[p].parent
  {
  }

  lemma QuietOwn(k: Kernel, p: nat, ch: Choice, k': Kernel)
    requires Sized(k) && p < |k.procs| && Move(k, p, ch) == Some(k') && !Meddles(k.procs[p].pc)
    ensures |k'.procs| == |k.procs| && k'.procs[p].parent == k.procs[p].parent
  {
    hide Move, LockPc, SleepPc;
    if LockPc(k.procs[p].pc) {
      QuietOwnAtLocks(k, p, ch, k');
    } else if SleepPc(k.procs[p].pc) {
      QuietOwnAtSleep(k, p, ch, k');
    } else {
      QuietOwnElsewhere(k, p, ch, k');
    }
  }

  lemma QuietOthersAtLocks(k: Kernel, p: nat, ch: Choice, k': Kernel, z: nat)
    requires Sized(k) && p < |k.procs| && Move(k, p, ch) == Some(k') && z < |k.procs| && z != p
    requires !Meddles(k.procs[p].pc)
    requires LockPc(k.procs[p].pc)
    ensures |k'.procs| == |k.procs| && k'.procs[z] == k.procs[z].(lock := k'.procs[z].lock)
  {
  }

  lemma QuietOthersAtSleep(k: Kernel, p: nat, ch: Choice, k': Kernel, z: nat)
    requires Sized(k) && p < |k.procs| && Move(k, p, ch) == Some(k') && z < |k.procs| && z != p
    requires !Meddles(k.procs[p].pc)
    requires SleepPc(k.procs[p].pc)
    ensures |k'.procs| == |k.procs| && k'.procs[z] == k.procs[z].(lock := k'.procs[z].lock)
  {
  }

  lemma QuietOthersElsewhere(k: Kernel, p: nat, ch: Choice, k': Kernel, z: nat)
    requires Sized(k) && p < |k.procs| && Move(k, p, ch) == Some(k') && z < |k.procs| && z != p
    requires !Meddles(k.procs[p].pc)
    requires !LockPc(k.procs[p].pc) && !SleepPc(k.procs[p].pc)
    ensures |k'.procs| == |k.procs| && k'.procs[z] == k.procs[z].(lock := k'.procs[z].lock)
  {
  }

  lemma QuietOthers(k: Kernel, p: nat, ch: Choice, k': Kernel, z: nat)
    requires Sized(k) && p < |k.procs| && Move(k, p, ch) == Some(k') && z < |k.procs| && z != p
    requires !Meddles(k.procs[p].pc)
    ensures |k'.procs| == |k.procs| && k'.procs[z] == k.procs[z].(lock := k'.procs[z].lock)
  {
    hide Move, LockPc, SleepPc;
    if LockPc(k.procs[p].pc) {
      QuietOthersAtLocks(k, p, ch, k', z);
    } else if SleepPc(k.procs[p].pc) {
      QuietOthersAtSleep(k, p, ch, k', z);
    } else {
      QuietOthersElsewhere(k, p, ch, k', z);
    }
  }

  lemma MeddlingParents(k: Kernel, p: nat, ch: Choice, k': Kernel, z: nat)
    requires Sized(k) && p < |k.procs| && Move(k, p, ch) == Some(k') && z < |k.procs|
    requires Meddles(k.procs[p].pc) && ForkOk(k, p) && TestOk(k, p)
    ensures |k'.procs| == |k.procs|
    ensures k'.procs[z].parent != k.procs[z].parent ==> Adopts(k, p, z, k'.procs[z].parent)
    ensures z != p ==> k'.procs[z].pc == k.procs[z].pc || !(k'.procs[z].pc.Scan? || k'.procs[z].pc.ScanAt?)
  {
    hide NoZombieKid;
  }

  lemma MoveParents(k: Kernel, p: nat, ch: Choice, k': Kernel, z: nat)
    requires Inv(k) && p < |k.procs| && Move(k, p, ch) == Some(k') && z < |k.procs|
    ensures |k'.procs| == |k.procs|
    ensures k'.procs[z].parent != k.procs[z].parent ==> Adopts(k, p, z, k'.procs[z].parent)
    ensures z != p ==> k'.procs[z].pc == k.procs[z].pc || !(k'.procs[z].pc.Scan? || k'.procs[z].pc.ScanAt?)
  {
    hide Inv, Move, Adopts, LocksOk, StateOk, TestOk, HoldsOk, ParentOk, ForkOk, WakeOk, ZombieOk;
    Parts(k, p);
    if Meddles(k.procs[p].pc) {
      MeddlingParents(k, p, ch, k', z);
    } else {
      if z == p { QuietOwn(k, p, ch, k'); } else { QuietOthers(k, p, ch, k', z); }
    }
  }

  lemma OtherParents(k: Kernel, a: Label, k': Kernel, z: nat)
    requires Sized(k) && Next(k, a) == Some(k') && !a.Steps? && z < |k.procs|
    ensures |k'.procs| == |k.procs| && k'.procs[z].parent == k.procs[z].parent
    ensures k'.procs[z].pc == k.procs[z].pc || !(k'.procs[z].pc.Scan? || k'.procs[z].pc.ScanAt?)
  {
  }

  /** Whoever changes parents holds wait_lock, so a scan is undisturbed. */
  lemma ScanUndisturbed(k: Kernel, a: Label, k': Kernel, p: nat)
    requires Inv(k) && Next(k, a) == Some(k') && p < |k.procs| && KidsOk(k, p) && !(a.Steps? && a.p == p)
    ensures p < |k'.procs| && KidsOk(k', p)
  {
    hide Inv, Move, Next, TestOk, HoldsOk, ParentOk, ForkOk, WakeOk, ZombieOk, StateOk;
    Parts(k, p);
    forall z | 0 <= z < |k.procs|
      ensures |k'.procs| == |k.procs|
      ensures k.procs[p].pc.Scan? || k.procs[p].pc.ScanAt? ==> k'.procs[z].parent == k.procs[z].parent
      ensures z == p ==> k'.procs[p].pc == k.procs[p].pc || !(k'.procs[p].pc.Scan? || k'.procs[p].pc.ScanAt?)
    {
      if a.Steps? {
        StepsMove(k, a, k');
        Parts(k, a.p);
        MoveParents(k, a.p, a.ch, k', z);
      } else {
        OtherParents(k, a, k', z);
      }
    }
    assert |k'.procs| == |k.procs| by { assert 0 <= p < |k.procs|; }
  }

  lemma StepsMove(k: Kernel, a: Label, k': Kernel)
    requires Sized(k) && Next(k, a) == Some(k') && a.Steps?
    ensures a.p < |k.procs| && Move(k, a.p, a.ch) == Some(k')
  {
    hide Move;
  }

  /** A scan's own step. */
  lemma ScanStep(k: Kernel, p: nat, ch: Choice, k': Kernel)
    requires Inv(k) && p < |k.procs| && Move(k, p, ch) == Some(k') && KidsOk(k, p)
    ensures p < |k'.procs| && KidsOk(k', p)
  {
    hide Inv, LocksOk, HoldsOk, ParentOk, ForkOk, WakeOk, ZombieOk, StateOk, NoZombieKid;
    Parts(k, p);
    var pc := k.procs[p].pc;
    if pc.Scan? || pc.ScanAt? || pc.WaitWant? || pc.Reacquire? {
      ScanSees(k, p, ch, k');
    } else {
      NoScan(k, p, ch, k');
    }
  }

  lemma NoScanAtLocks(k: Kernel, p: nat, ch: Choice, k': Kernel)
    requires Sized(k) && p < |k.procs| && Move(k, p, ch) == Some(k')
    requires var pc := k.procs[p].pc; !(pc.Scan? || pc.ScanAt? || pc.WaitWant? || pc.Reacquire?)
    requires LockPc(k.procs[p].pc)
    ensures p < |k'.procs| && !k'.procs[p].pc.Scan? && !k'.procs[p].pc.ScanAt?
  {
  }

  lemma NoScanAtSleep(k: Kernel, p: nat, ch: Choice, k': Kernel)
    requires Sized(k) && p < |k.procs| && Move(k, p, ch) == Some(k')
    requires var pc := k.procs[p].pc; !(pc.Scan? || pc.ScanAt? || pc.WaitWant? || pc.Reacquire?)
    requires SleepPc(k.procs[p].pc)
    ensures p < |k'.procs| && !k'.procs[p].pc.Scan? && !k'.procs[p].pc.ScanAt?
  {
  }

  lemma NoScanElsewhere(k: Kernel, p: nat, ch: Choice, k': Kernel)
    requires Sized(k) && p < |k.procs| && Move(k, p, ch) == Some(k')
    requires var pc := k.procs[p].pc; !(pc.Scan? || pc.ScanAt? || pc.WaitWant? || pc.Reacquire?)
    requires !LockPc(k.procs[p].pc) && !SleepPc(k.procs[p].pc)
    ensures p < |k'.procs| && !k'.procs[p].pc.Scan? && !k'.procs[p].pc.ScanAt?
  {
  }

  lemma NoScan(k: Kernel, p: nat, ch: Choice, k': Kernel)
    requires Sized(k) && p < |k.procs| && Move(k, p, ch) == Some(k')
    requires var pc := k.procs[p].pc; !(pc.Scan? || pc.ScanAt? || pc.WaitWant? || pc.Reacquire?)
    ensures p < |k'.procs| && !k'.procs[p].pc.Scan? && !k'.procs[p].pc.ScanAt?
  {
    hide Move, LockPc, SleepPc;
    if LockPc(k.procs[p].pc) {
      NoScanAtLocks(k, p, ch, k');
    } else if SleepPc(k.procs[p].pc) {
      NoScanAtSleep(k, p, ch, k');
    } else {
      NoScanElsewhere(k, p, ch, k');
    }
  }

  lemma ScanSees(k: Kernel, p: nat, ch: Choice, k': Kernel)
    requires Sized(k) && p < |k.procs| && Move(k, p, ch) == Some(k') && KidsOk(k, p) && TestOk(k, p)
    requires var pc := k.procs[p].pc; pc.Scan? || pc.ScanAt? || pc.WaitWant? || pc.Reacquire?
    ensures p < |k'.procs| && KidsOk(k', p)
  {
    hide NoZombieKid;
    var pc, pc' := k.procs[p].pc, k'.procs[p].pc;
    if pc'.Scan? && (pc.Scan? || pc.ScanAt?) {
      assert forall q :: 0 <= q < |k.procs| ==> k'.procs[q].parent == k.procs[q].parent;
      if pc.ScanAt? {
        assert k'.procs[pc.i].parent == Some(p);
      }
    } else if pc'.ScanAt? {
      assert forall q :: 0 <= q < |k.procs| ==> k'.procs[q].parent == k.procs[q].parent;
    }
  }

  ghost predicate KidsInv(k: Kernel)
  {
    Inv(k) && forall p {:trigger KidsOk(k, p)} :: 0 <= p < |k.procs| ==> KidsOk(k, p)
  }

  lemma KidsStep(k: Kernel, a: Label, k': Kernel)
    requires KidsInv(k) && Next(k, a) == Some(k')
    ensures KidsInv(k')
  {
    hide Inv, Move, Next, KidsOk;
    NextKeeps(k, a, k');
    SameSlots(k, a, k');
    forall p | 0 <= p < |k'.procs| ensures KidsOk(k', p) {
      assert KidsOk(k, p);
      if a.Steps? && a.p == p {
        StepsMove(k, a, k');
        ScanStep(k, p, a.ch, k');
      } else {
        ScanUndisturbed(k, a, k', p);
      }
    }
  }

  lemma SameSlots(k: Kernel, a: Label, k': Kernel)
    requires Inv(k) && Next(k, a) == Some(k')
    ensures Sized(k) && Sized(k') && |k'.procs| == |k.procs|
  {
    hide Move;
    if a.Steps? {
      MoveParents(k, a.p, a.ch, k', a.p);
    }
    NextKeeps(k, a, k');
  }

  lemma {:induction false} KidsRun(k: Kernel, acts: seq<Label>, k': Kernel)
    requires KidsInv(k) && Runs(k, acts, k')
    ensures KidsInv(k')
    decreases |acts|
  {
    hide Inv, Move, KidsOk;
    if acts != [] {
      KidsStep(k, acts[0], Next(k, acts[0]).value);
      KidsRun(Next(k, acts[0]).value, acts[1..], k');
    }
  }

  lemma ReachableKids(k: Kernel)
    requires Reachable(k)
    ensures KidsInv(k)
  {
    hide Inv;
    var k0, acts :| Init(k0) && Runs(k0, acts, k);
    InitInv(k0);
    KidsRun(k0, acts, k);
  }

  // ---- What holds in every reachable state ----

  /** A scan of wait has seen a child exactly when a slot that it passed belongs to one. */
  lemma HaveKids(k: Kernel, p: nat)
    requires Sized(k) && Reachable(k) && p < |k.procs| && k.procs[p].pc.Scan?
    ensures k.procs[p].pc.kids <==>
      exists q :: 0 <= q < k.procs[p].pc.i && q < |k.procs| && k.procs[q].parent == Some(p)
  {
    hide Inv;
    ReachableKids(k);
    assert KidsOk(k, p);
  }

  /** At the end of its scan wait sleeps exactly when the process has a child and was not killed, and
      then none of its children is a zombie; it gives up exactly when it has no child or was killed. */
  lemma WaitDecides(k: Kernel, p: nat, ch: Choice, k': Kernel)
    requires Sized(k) && Reachable(k) && p < |k.procs| && k.procs[p].pc.Scan? && k.procs[p].pc.i >= |k.procs|
    requires Next(k, Steps(p, ch)) == Some(k')
    ensures |k'.procs| == |k.procs|
    ensures k'.procs[p].pc == Sleep0(OnProc(p)) <==>
      !ch.b && exists q :: 0 <= q < |k.procs| && k.procs[q].parent == Some(p)
    ensures k'.procs[p].pc == WaitDone <==>
      ch.b || forall q :: 0 <= q < |k.procs| ==> k.procs[q].parent != Some(p)
    ensures forall q :: 0 <= q < |k.procs| && k.procs[q].parent == Some(p) ==> k.procs[q].state != ZOMBIE
  {
    hide Inv, Move, LocksOk, StateOk, HoldsOk, ParentOk, ForkOk, WakeOk, ZombieOk;
    HaveKids(k, p);
    ReachableInv(k);
    Parts(k, p);
    EndOfScan(k, p, ch, k');
  }

  lemma EndOfScan(k: Kernel, p: nat, ch: Choice, k': Kernel)
    requires Sized(k) && p < |k.procs| && k.procs[p].pc.Scan? && k.procs[p].pc.i >= |k.procs|
    requires Next(k, Steps(p, ch)) == Some(k')
    ensures |k'.procs| == |k.procs|
    ensures k'.procs[p].pc == if k.procs[p].pc.kids && !ch.b then Sleep0(OnProc(p)) else WaitDone
  {
  }

  /** The parent of a slot changes only when fork sets it, when exit hands a child to the first process,
      and when the parent's wait frees the zombie. */
  lemma ParentMoves(k: Kernel, a: Label, k': Kernel, z: nat)
    requires Sized(k) && Reachable(k) && Next(k, a) == Some(k') && z < |k.procs|
    ensures |k'.procs| == |k.procs|
    ensures k'.procs[z].parent != k.procs[z].parent ==>
      && a.Steps? && a.p < |k.procs|
      && var pc, was := k.procs[a.p].pc, k.procs[z].parent;
         || (pc == ForkParent(z) && was.None? && k'.procs[z].parent == Some(a.p))
         || (pc == Reparent(z) && was == Some(a.p) && k'.procs[z].parent == Some(INIT))
         || (pc.ScanAt? && pc.i == z && was == Some(a.p) && k.procs[z].state == ZOMBIE && k'.procs[z].parent == None)
  {
    hide Inv, Move, Next;
    ReachableInv(k);
    SameSlots(k, a, k');
    if a.Steps? {
      StepsMove(k, a, k');
      MoveParents(k, a.p, a.ch, k', z);
    } else {
      OtherParents(k, a, k', z);
    }
  }

  /** The ways a slot's state changes in a step of process p: by the process itself, or by another. */
  predicate OwnChange(pc: Pc, r: Process, r': Process)
  {
    && r.state == RUNNING
    && ((r'.state == RUNNABLE && pc.Yield?) || (r'.state == SLEEPING && pc.Sleep2? && r'.chan == Some(pc.c))
        || (r'.state == ZOMBIE && pc.ExitZombie?))
  }

  predicate OthersChange(pc: Pc, p: nat, q: nat, r: Process, state: State)
  {
    || (r.state == USED && state == UNUSED && pc == ForkInit(q))
    || (r.state == USED && state == RUNNABLE && pc == ForkRun(q))
    || (r.state == SLEEPING && state == RUNNABLE
        && ((pc.WakeAt? && pc.k == q && r.chan == Some(pc.c)) || pc == Kill(q)))
    || (r.state == ZOMBIE && state == UNUSED && pc.ScanAt? && pc.i == q && r.parent == Some(p))
  }

  lemma OwnState(k: Kernel, p: nat, ch: Choice, k': Kernel)
    requires Sized(k) && p < |k.procs| && Move(k, p, ch) == Some(k') && StateOk(k.procs[p])
    ensures p < |k'.procs|
    ensures k'.procs[p].state != k.procs[p].state ==> OwnChange(k.procs[p].pc, k.procs[p], k'.procs[p])
  {
  }

  lemma OthersState(k: Kernel, p: nat, ch: Choice, k': Kernel, q: nat)
    requires Sized(k) && p < |k.procs| && Move(k, p, ch) == Some(k') && q < |k.procs| && q != p
    requires Meddles(k.procs[p].pc) && ForkOk(k, p) && TestOk(k, p)
    ensures q < |k'.procs|
    ensures k'.procs[q].state != k.procs[q].state ==>
      OthersChange(k.procs[p].pc, p, q, k.procs[q], k'.procs[q].state)
  {
    hide NoZombieKid;
  }

  /** The life of a slot: fork takes it and lets it run, or gives it back; only the scheduler runs a
      runnable process; only a process itself yields, sleeps or exits; a sleeper is made runnable by a
      wakeup on its own channel, or by kill; and a zombie is freed by its parent's wait. */
  lemma LifeCycle(k: Kernel, a: Label, k': Kernel, q: nat)
    requires Sized(k) && Reachable(k) && Next(k, a) == Some(k') && q < |k.procs|
    ensures q < |k'.procs|
    ensures k'.procs[q].state != k.procs[q].state ==>
      var r, r' := k.procs[q], k'.procs[q];
      match a
      case Steps(p, ch) =>
        && p < |k.procs|
        && var pc := k.procs[p].pc;
           if p == q then
             && r.state == RUNNING
             && ((r'.state == RUNNABLE && pc.Yield?) || (r'.state == SLEEPING && pc.Sleep2? && r'.chan == Some(pc.c))
                 || (r'.state == ZOMBIE && pc.ExitZombie?))
           else
             || (r.state == USED && r'.state == UNUSED && pc == ForkInit(q))
             || (r.state == USED && r'.state == RUNNABLE && pc == ForkRun(q))
             || (r.state == SLEEPING && r'.state == RUNNABLE
                 && ((pc.WakeAt? && pc.k == q && r.chan == Some(pc.c)) || pc == Kill(q)))
             || (r.state == ZOMBIE && r'.state == UNUSED && pc.ScanAt? && pc.i == q && r.parent == Some(p))
      case Calls(p, to) => r.state == UNUSED && r'.state == USED && to == ForkInit(q)
      case Dispatch(p) => p == q && r.state == RUNNABLE && r'.state == RUNNING
      case _ => false
  {
    hide Inv, Move, Next, HoldsOk, ParentOk, WakeOk, ZombieOk, LocksOk, StateOk, TestOk, ForkOk;
    ReachableInv(k);
    SameSlots(k, a, k');
    if a.Steps? {
      StepsMove(k, a, k');
      Parts(k, a.p);
      if a.p == q {
        OwnState(k, q, a.ch, k');
      } else if Meddles(k.procs[a.p].pc) {
        OthersState(k, a.p, a.ch, k', q);
      } else {
        NoMeddling(k, a.p, a.ch, k', q);
      }
    } else {
      UnsteppedState(k, a, k', q);
    }
  }

  lemma UnsteppedState(k: Kernel, a: Label, k': Kernel, q: nat)
    requires Sized(k) && Next(k, a) == Some(k') && !a.Steps? && q < |k.procs|
    ensures q < |k'.procs|
    ensures k'.procs[q].state != k.procs[q].state ==>
      || (a.Calls? && k.procs[q].state == UNUSED && k'.procs[q].state == USED && a.to == ForkInit(q))
      || (a == Dispatch(q) && k.procs[q].state == RUNNABLE && k'.procs[q].state == RUNNING)
  {
  }

  /** wait returns only at the end of a scan, as WaitDecides says, or at a zombie child: which it freed, or
      could not report, and then left as it was. A woken wait scans again. */
  lemma WaitReturns(k: Kernel, p: nat, ch: Choice, k': Kernel)
    requires Sized(k) && Reachable(k) && p < |k.procs| && Next(k, Steps(p, ch)) == Some(k')
    ensures |k'.procs| == |k.procs|
    ensures k'.procs[p].pc.WaitDone? ==>
      var pc := k.procs[p].pc;
      || (pc.Scan? && pc.i >= |k.procs|)
      || (pc.ScanAt? && pc.i < |k.procs| && k.procs[pc.i].state == ZOMBIE && k.procs[pc.i].parent == Some(p)
          && (k'.procs[pc.i].state == UNUSED || (ch.b && k'.procs[pc.i].state == ZOMBIE)))
    ensures k.procs[p].pc == Reacquire(OnProc(p)) ==> k'.procs[p].pc == Scan(0, false)
  {
    hide Inv, Move, LocksOk, StateOk, TestOk, HoldsOk, ParentOk, ForkOk, WakeOk, ZombieOk;
    ReachableInv(k);
    Parts(k, p);
    SameSlots(k, Steps(p, ch), k');
    WaitDoneFrom(k, p, ch, k');
  }

  lemma WaitDoneFrom(k: Kernel, p: nat, ch: Choice, k': Kernel)
    requires Sized(k) && p < |k.procs| && Move(k, p, ch) == Some(k') && TestOk(k, p) && |k'.procs| == |k.procs|
    ensures k'.procs[p].pc.WaitDone? ==>
      var pc := k.procs[p].pc;
      || (pc.Scan? && pc.i >= |k.procs|)
      || (pc.ScanAt? && pc.i < |k.procs| && k.procs[pc.i].state == ZOMBIE && k.procs[pc.i].parent == Some(p)
          && (k'.procs[pc.i].state == UNUSED || (ch.b && k'.procs[pc.i].state == ZOMBIE)))
    ensures k.procs[p].pc == Reacquire(OnProc(p)) ==> k'.procs[p].pc == Scan(0, false)
  {
    hide NoZombieKid;
  }

  // ---- What acquiresleep and releasesleep return with ----

  /** acquiresleep is about to return with the lock, releasesleep without it. */
  predicate ReturnOk(r: Process)
  {
    && (r.pc.GotSleeplock? ==> r.pc.l in r.holds)
    && (r.pc.DroppedSleeplock? ==> r.pc.l !in r.holds)
    && ((r.pc.Wake? || r.pc.WakeAt?) && r.pc.ret.ToRelease? ==> r.pc.ret.l !in r.holds)
  }

  lemma OwnReturnAtLocks(k: Kernel, p: nat, ch: Choice, k': Kernel)
    requires Sized(k) && p < |k.procs| && Move(k, p, ch) == Some(k') && ReturnOk(k.procs[p])
    requires LockPc(k.procs[p].pc)
    ensures p < |k'.procs| && ReturnOk(k'.procs[p])
  {
  }

  lemma OwnReturnAtSleep(k: Kernel, p: nat, ch: Choice, k': Kernel)
    requires Sized(k) && p < |k.procs| && Move(k, p, ch) == Some(k') && ReturnOk(k.procs[p])
    requires SleepPc(k.procs[p].pc)
    ensures p < |k'.procs| && ReturnOk(k'.procs[p])
  {
  }

  lemma OwnReturnElsewhere(k: Kernel, p: nat, ch: Choice, k': Kernel)
    requires Sized(k) && p < |k.procs| && Move(k, p, ch) == Some(k') && ReturnOk(k.procs[p])
    requires !LockPc(k.procs[p].pc) && !SleepPc(k.procs[p].pc)
    ensures p < |k'.procs| && ReturnOk(k'.procs[p])
  {
  }

  lemma OwnReturn(k: Kernel, p: nat, ch: Choice, k': Kernel)
    requires Sized(k) && p < |k.procs| && Move(k, p, ch) == Some(k') && ReturnOk(k.procs[p])
    ensures p < |k'.procs| && ReturnOk(k'.procs[p])
  {
    hide Move, ReturnOk, LockPc, SleepPc;
    if LockPc(k.procs[p].pc) {
      OwnReturnAtLocks(k, p, ch, k');
    } else if SleepPc(k.procs[p].pc) {
      OwnReturnAtSleep(k, p, ch, k');
    } else {
      OwnReturnElsewhere(k, p, ch, k');
    }
  }

  lemma OthersReturn(k: Kernel, p: nat, ch: Choice, k': Kernel, z: nat)
    requires Sized(k) && p < |k.procs| && Move(k, p, ch) == Some(k') && z < |k.procs| && z != p
    requires Meddles(k.procs[p].pc) && ReturnOk(k.procs[z])
    ensures z < |k'.procs| && ReturnOk(k'.procs[z])
  {
  }

  lemma UnsteppedReturn(k: Kernel, a: Label, k': Kernel, z: nat)
    requires Sized(k) && Next(k, a) == Some(k') && !a.Steps? && z < |k.procs| && ReturnOk(k.procs[z])
    ensures z < |k'.procs| && ReturnOk(k'.procs[z])
  {
  }

  ghost predicate ReturnsInv(k: Kernel)
  {
    Inv(k) && forall p {:trigger ReturnOk(k.procs[p])} :: 0 <= p < |k.procs| ==> ReturnOk(k.procs[p])
  }

  lemma ReturnsStep(k: Kernel, a: Label, k': Kernel)
    requires ReturnsInv(k) && Next(k, a) == Some(k')
    ensures ReturnsInv(k')
  {
    hide Inv, Move, Next, ReturnOk;
    NextKeeps(k, a, k');
    SameSlots(k, a, k');
    forall p | 0 <= p < |k'.procs| ensures ReturnOk(k'.procs[p]) {
      assert ReturnOk(k.procs[p]);
      if a.Steps? {
        StepsMove(k, a, k');
        if a.p == p {
          OwnReturn(k, p, a.ch, k');
        } else if Meddles(k.procs[a.p].pc) {
          OthersReturn(k, a.p, a.ch, k', p);
        } else {
          QuietOthers(k, a.p, a.ch, k', p);
          SameReturn(k.procs[p], k'.procs[p]);
        }
      } else {
        UnsteppedReturn(k, a, k', p);
      }
    }
  }

  lemma SameReturn(r: Process, r': Process)
    requires ReturnOk(r) && r' == r.(lock := r'.lock)
    ensures ReturnOk(r')
  {
  }

  lemma {:induction false} ReturnsRun(k: Kernel, acts: seq<Label>, k': Kernel)
    requires ReturnsInv(k) && Runs(k, acts, k')
    ensures ReturnsInv(k')
    decreases |acts|
  {
    hide Inv, Move, ReturnOk;
    if acts != [] {
      ReturnsStep(k, acts[0], Next(k, acts[0]).value);
      ReturnsRun(Next(k, acts[0]).value, acts[1..], k');
    }
  }

  /** When acquiresleep is about to return, the lock is taken and recorded as this process's; when
      releasesleep is, it is no longer. */
  lemma ReturnsWithLock(k: Kernel, p: nat, l: nat)
    requires Sized(k) && Reachable(k) && p < |k.procs| && l < |k.locks|
    ensures k.procs[p].pc == GotSleeplock(l) ==> k.locks[l] == Some(p) && l in k.procs[p].holds
    ensures k.procs[p].pc == DroppedSleeplock(l) ==> k.locks[l] != Some(p) && l !in k.procs[p].holds
  {
    hide Inv;
    var k0, acts :| Init(k0) && Runs(k0, acts, k);
    InitInv(k0);
    ReturnsRun(k0, acts, k);
    assert ReturnOk(k.procs[p]);
    Parts(k, p);
  }
}
