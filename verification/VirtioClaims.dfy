/** What holds of the virtio driver in every run, against every device that follows the rings. */
module VirtioClaims {
  import opened Blocks
  import opened Virtio
  import opened VirtioInv

  lemma StepKeeps(s: System, a: Abs, l: Label, s': System)
    requires Inv(s, a) && Next(s, l) == Some(s')
    ensures Inv(s', Meaning(s, a, l))
  {
    hide Inv, Meaning, Next;
    match l
    case Prepare(b, write) => StepPrepare(s, a, b, write, s');
    case PutRing => StepPutRing(s, a, s'); PutRingMeans(s, a);
    case Publish => StepPublish(s, a, s');
    case Interrupt => StepInterrupt(s, a, s');
    case Release(h) => StepRelease(s, a, h, s');
    case Edit(b, buf) => StepEdit(s, a, b, buf, s'); EditMeans(s, a, b, buf);
    case DevTake => StepDevTake(s, a, s');
    case DevMove(h, fails) => StepDevMove(s, a, h, fails, s');
    case DevPush(h) => StepDevPush(s, a, h, s');
    case DevBump => StepDevBump(s, a, s');
  }

  lemma PutRingMeans(s: System, a: Abs)
    requires Inv(s, a) && Next(s, PutRing).Some?
    ensures Meaning(s, a, PutRing) == a
  {
  }

  lemma EditMeans(s: System, a: Abs, b: nat, buf: Buf)
    requires Inv(s, a) && Next(s, Edit(b, buf)).Some?
    ensures Meaning(s, a, Edit(b, buf)) == a
  {
  }

  lemma InitInv(s: System)
    requires Init(s)
    ensures Inv(s, Abs(map[], map[], [], []))
  {
  }

  /** The heads that a run offers to the device, takes from the avail ring, counts in the used ring and
      hands to the driver, each in order. */
  ghost function Offered(s: System, acts: seq<Label>): seq<nat>
    decreases |acts|
  {
    if acts == [] || !Sized(s.q) || Next(s, acts[0]).None? then []
    else (if acts[0].Publish? && s.phase.After? then [s.phase.h] else []) + Offered(Next(s, acts[0]).value, acts[1..])
  }

  ghost function Accepted(s: System, acts: seq<Label>): seq<nat>
    decreases |acts|
  {
    if acts == [] || !Sized(s.q) || Next(s, acts[0]).None? then []
    else (if acts[0].DevTake? then [s.q.ring[s.dev.last % NUM]] else []) + Accepted(Next(s, acts[0]).value, acts[1..])
  }

  ghost function Reported(s: System, acts: seq<Label>): seq<nat>
    decreases |acts|
  {
    if acts == [] || !Sized(s.q) || Next(s, acts[0]).None? then []
    else (if acts[0].DevBump? && s.dev.pushing.Some? then [s.dev.pushing.value] else [])
         + Reported(Next(s, acts[0]).value, acts[1..])
  }

  ghost function Noticed(s: System, acts: seq<Label>): seq<nat>
    decreases |acts|
  {
    if acts == [] || !Sized(s.q) || Next(s, acts[0]).None? then []
    else (if acts[0].Interrupt? then [s.q.used[s.q.seen % NUM]] else []) + Noticed(Next(s, acts[0]).value, acts[1..])
  }

  lemma StepPending(s: System, a: Abs, l: Label)
    requires Inv(s, a) && Next(s, l).Some?
    ensures a.pending + (if l.Publish? && s.phase.After? then [s.phase.h] else [])
            == (if l.DevTake? then [s.q.ring[s.dev.last % NUM]] else []) + Meaning(s, a, l).pending
  {
    hide Inv, ReqOk, DescOk, Apart, Holds, Known, FreedChain, Completed, Carried, Formatted, Wanted;
    Whole(s, a);
    HoldsFirst(s.q.ring, s.dev.last, s.q.idx, a.pending);
  }

  lemma StepFinished(s: System, a: Abs, l: Label)
    requires Inv(s, a) && Next(s, l).Some?
    ensures a.finished + (if l.DevBump? && s.dev.pushing.Some? then [s.dev.pushing.value] else [])
            == (if l.Interrupt? then [s.q.used[s.q.seen % NUM]] else []) + Meaning(s, a, l).finished
  {
    hide Inv, ReqOk, DescOk, Apart, Holds, Known, FreedChain, Completed, Carried, Formatted, Wanted;
    Whole(s, a);
    HoldsFirst(s.q.used, s.q.seen, s.q.usedIdx, a.finished);
  }

  lemma {:induction false} RunQueues(s: System, a: Abs, acts: seq<Label>, s': System) returns (a': Abs)
    requires Inv(s, a) && Runs(s, acts, s')
    ensures Inv(s', a')
    ensures a.pending + Offered(s, acts) == Accepted(s, acts) + a'.pending
    ensures a.finished + Reported(s, acts) == Noticed(s, acts) + a'.finished
    decreases |acts|
  {
    if acts == [] {
      a' := a;
    } else {
      var l, s1 := acts[0], Next(s, acts[0]).value;
      StepKeeps(s, a, l, s1);
      StepPending(s, a, l);
      StepFinished(s, a, l);
      var a1 := Meaning(s, a, l);
      a' := RunQueues(s1, a1, acts[1..], s');
      hide Inv, Meaning, Next;
      var x := if l.Publish? && s.phase.After? then [s.phase.h] else [];
      var y := if l.DevTake? then [s.q.ring[s.dev.last % NUM]] else [];
      Joined(a.pending, x, y, a1.pending, Offered(s1, acts[1..]), Accepted(s1, acts[1..]), a'.pending);
      var u := if l.DevBump? && s.dev.pushing.Some? then [s.dev.pushing.value] else [];
      var v := if l.Interrupt? then [s.q.used[s.q.seen % NUM]] else [];
      Joined(a.finished, u, v, a1.finished, Reported(s1, acts[1..]), Noticed(s1, acts[1..]), a'.finished);
    }
  }

  lemma Joined(p: seq<nat>, x: seq<nat>, y: seq<nat>, q: seq<nat>, xs: seq<nat>, ys: seq<nat>, r: seq<nat>)
    requires p + x == y + q && q + xs == ys + r
    ensures p + (x + xs) == (y + ys) + r
  {
    assert p + (x + xs) == (p + x) + xs == y + (q + xs) == (y + ys) + r;
  }

  lemma ReachableInv(s: System) returns (a: Abs)
    requires Reachable(s)
    ensures Inv(s, a)
  {
    var s0, acts :| Init(s0) && Runs(s0, acts, s);
    InitInv(s0);
    a := RunQueues(s0, Abs(map[], map[], [], []), acts, s);
  }

  // ---- Claims ----

  /** However long the run, and however often the 16-bit indices wrap: the device takes exactly what
      was offered, in that order, and the driver sees exactly what the device reported. At most two
      heads are on the way in each ring. */
  lemma Fifo(s: System, acts: seq<Label>, s': System)
    requires Init(s) && Runs(s, acts, s')
    ensures Accepted(s, acts) <= Offered(s, acts) && |Offered(s, acts)| <= |Accepted(s, acts)| + 2
    ensures Noticed(s, acts) <= Reported(s, acts) && |Reported(s, acts)| <= |Noticed(s, acts)| + 2
    ensures s'.q.idx == s'.dev.last <==> Accepted(s, acts) == Offered(s, acts)
    ensures s'.q.usedIdx == s'.q.seen <==> Noticed(s, acts) == Reported(s, acts)
  {
    InitInv(s);
    var a := RunQueues(s, Abs(map[], map[], [], []), acts, s');
    ShortQueue(s', a, a.pending);
    ShortQueue(s', a, a.finished);
    HoldsFirst(s'.q.ring, s'.dev.last, s'.q.idx, a.pending);
    HoldsFirst(s'.q.used, s'.q.seen, s'.q.usedIdx, a.finished);
    hide Inv, Runs;
    assert [] + Offered(s, acts) == Offered(s, acts) && [] + Reported(s, acts) == Reported(s, acts);
  }

  /** Free descriptors and three for each process inside virtio_disk_rw make NUM, at every moment. */
  lemma Conserved(s: System)
    requires Reachable(s)
    ensures |FreeSet(s.q.free)| + 3 * |s.callers| == NUM
  {
    var a := ReachableInv(s);
    forall i: nat | i < NUM ensures i in FreeSet(s.q.free) <==> i !in a.owner { assert DescOk(s, a, i); }
    assert FreeSet(s.q.free) == Below(NUM) - a.owner.Keys;
    assert a.owner.Keys <= Below(NUM);
    assert |a.owner.Keys| == |a.owner| && |a.reqs.Keys| == |a.reqs| && |s.callers.Keys| == |s.callers|;
  }

  /** The descriptors of the request whose head is h, as linked in memory. */
  function Linked(q: Queue, h: nat): seq<nat>
    requires Sized(q)
  {
    if h >= NUM || q.desc[h].next >= NUM then [h] else [h, q.desc[h].next, q.desc[q.desc[h].next].next]
  }

  /** Every request links three distinct descriptors that are not free, and no other request links
      any of them. */
  lemma ChainsDisjoint(s: System, h: nat, x: nat, i: nat, j: nat)
    requires Reachable(s) && Sized(s.q) && h in s.callers && x in s.callers
    ensures |Linked(s.q, h)| == 3 && |Linked(s.q, x)| == 3
    ensures i < 3 ==> Linked(s.q, h)[i] < NUM && !s.q.free[Linked(s.q, h)[i]]
    ensures i < 3 && j < 3 && Linked(s.q, h)[i] == Linked(s.q, x)[j] ==> h == x && i == j
  {
    var a := ReachableInv(s);
    assert ReqOk(s, a, h) && ReqOk(s, a, x);
    if i < 3 { assert DescOk(s, a, Linked(s.q, h)[i]); }
  }

  /** A round of the interrupt handler either panics on a status that the device reported as an error,
      or clears `disk` of exactly the buffer whose process issued the request. That buffer was owned by
      the disk, and its data and its block are the same. */
  lemma CompletesIssuer(s: System)
    requires Reachable(s) && Sized(s.q) && s.phase == Idle && s.q.seen != s.q.usedIdx
    ensures var h := s.q.used[s.q.seen % NUM];
      && h < NUM && h in s.callers && s.callers[h] < |s.bufs| && s.bufs[s.callers[h]].busy
      && (Next(s, Interrupt).Some? <==> s.q.info[h].status == 0)
      && (Next(s, Interrupt).Some? ==>
            && Next(s, Interrupt).value.bufs == Marked(s.bufs, s.callers[h], false)
            && Next(s, Interrupt).value.callers == s.callers && Next(s, Interrupt).value.dev == s.dev
            && InRange(s, s.bufs[s.callers[h]].blockno)
            && s.bufs[s.callers[h]].data == OnDisk(s, s.bufs[s.callers[h]].blockno))
  {
    var a := ReachableInv(s);
    HoldsFirst(s.q.used, s.q.seen, s.q.usedIdx, a.finished);
    assert ReqOk(s, a, a.finished[0]);
  }

  /** When a process finds its buffer no longer owned by the disk, free_chain does not panic: it gives
      back exactly the request's three descriptors. */
  lemma ReleaseSafe(s: System, h: nat)
    requires Reachable(s) && Sized(s.q) && s.phase == Idle && h in s.callers && s.callers[h] < |s.bufs|
    requires !s.bufs[s.callers[h]].busy
    ensures Next(s, Release(h)).Some? && |Linked(s.q, h)| == 3
    ensures FreeSet(Next(s, Release(h)).value.q.free) == FreeSet(s.q.free) + (set d | d in Linked(s.q, h))
  {
    var a := ReachableInv(s);
    assert ReqOk(s, a, h);
    var r := a.reqs[h];
    assert DescOk(s, a, h) && DescOk(s, a, r.d1) && DescOk(s, a, r.d2);
    ChainFreed(s.q, h, r, s.bufs[r.b].blockno);
    hide Inv, ReqOk, DescOk, FreedChain;
    assert (set d | d in Linked(s.q, h)) == {h, r.d1, r.d2};
  }

  /** A block changes only when the device carries out the write that a process inside
      virtio_disk_rw asked for. */
  lemma OnlyWritesChange(s: System, l: Label, s': System, n: nat)
    requires Reachable(s) && Sized(s.q) && Next(s, l) == Some(s') && InRange(s, n)
    ensures InRange(s', n)
    ensures OnDisk(s', n) != OnDisk(s, n) ==>
      l.DevMove? && l.h in s.callers && s.callers[l.h] < |s.bufs| && s.bufs[s.callers[l.h]].blockno == n
      && l.h < NUM && s.q.ops[l.h].kind == OUT && OnDisk(s', n) == s.bufs[s.callers[l.h]].data
  {
    var a := ReachableInv(s);
    if l.DevMove? {
      assert ReqOk(s, a, l.h);
    }
  }

  /** A request that was made stays what it is until it is released. */
  lemma {:induction false} ReqLasts(s: System, a: Abs, acts: seq<Label>, s': System, h: nat) returns (a': Abs)
    requires Inv(s, a) && Runs(s, acts, s') && h in a.reqs && Release(h) !in acts
    ensures Inv(s', a') && h in a'.reqs && a'.reqs[h].(stage := a.reqs[h].stage) == a.reqs[h]
    ensures a.reqs[h].b < |s.bufs| == |s'.bufs| && s'.bufs[a.reqs[h].b].blockno == s.bufs[a.reqs[h].b].blockno
    decreases |acts|
  {
    ReqAt(s, a, h);
    if acts == [] {
      a' := a;
    } else {
      StepKeeps(s, a, acts[0], Next(s, acts[0]).value);
      StepLasts(s, a, acts[0], Next(s, acts[0]).value, h);
      a' := ReqLasts(Next(s, acts[0]).value, Meaning(s, a, acts[0]), acts[1..], s', h);
    }
  }

  lemma NewHead(s: System, a: Abs)
    requires Inv(s, a) && Sized(s.q) && Three(s.q.free).Some?
    ensures Three(s.q.free).value.0 !in a.reqs
  {
    hide Inv, ReqOk, Rings, Known, Apart;
    DescAt(s, a, Three(s.q.free).value.0);
    HeadOwned(s, a, Three(s.q.free).value.0);
  }

  lemma ReqStays(s: System, a: Abs, l: Label, h: nat)
    requires Inv(s, a) && Next(s, l).Some? && h in a.reqs && l != Release(h)
    ensures var a' := Meaning(s, a, l); h in a'.reqs && a'.reqs[h].(stage := a.reqs[h].stage) == a.reqs[h]
  {
    hide Inv, ReqOk, DescOk, Rings, Apart, Holds, Formatted, Carried, FreedChain, Completed;
    Whole(s, a);
    if l.Prepare? { NewHead(s, a); }
  }

  lemma BufStays(s: System, a: Abs, l: Label, s': System, h: nat)
    requires Inv(s, a) && Next(s, l) == Some(s') && h in a.reqs
    ensures a.reqs[h].b < |s.bufs| == |s'.bufs| && s'.bufs[a.reqs[h].b].blockno == s.bufs[a.reqs[h].b].blockno
  {
    hide Inv, ChainOk, StageOk, DataOk, Formatted, FreedChain;
    ReqAt(s, a, h);
    if l.Edit? { assert s.callers[h] in s.callers.Values; }
  }

  lemma StepLasts(s: System, a: Abs, l: Label, s': System, h: nat)
    requires Inv(s, a) && Next(s, l) == Some(s') && h in a.reqs && l != Release(h)
    ensures var a' := Meaning(s, a, l);
      && h in a'.reqs && a'.reqs[h].(stage := a.reqs[h].stage) == a.reqs[h]
      && a.reqs[h].b < |s.bufs| == |s'.bufs| && s'.bufs[a.reqs[h].b].blockno == s.bufs[a.reqs[h].b].blockno
  {
    hide Inv, Next, Meaning;
    ReqStays(s, a, l, h);
    BufStays(s, a, l, s', h);
  }

  /** virtio_disk_rw does what it is for: from the moment that it sets b->disk, whatever other processes
      and the device do, once b->disk is 0 again the buffer and its block agree. They hold what the
      buffer held when the call was a write, and what the block held when it was a read. */
  lemma RequestServed(s: System, b: nat, write: bool, s1: System, acts: seq<Label>, s2: System, h: nat)
    requires Reachable(s) && Sized(s.q) && Next(s, Prepare(b, write)) == Some(s1) && Three(s.q.free).Some?
    requires h == Three(s.q.free).value.0
    requires Runs(s1, acts, s2) && Release(h) !in acts && b < |s2.bufs| && !s2.bufs[b].busy
    ensures b < |s.bufs| && s2.bufs[b].blockno == s.bufs[b].blockno
    ensures InRange(s, s.bufs[b].blockno) && InRange(s2, s.bufs[b].blockno)
    ensures s2.bufs[b].data == OnDisk(s2, s.bufs[b].blockno)
            == if write then s.bufs[b].data else OnDisk(s, s.bufs[b].blockno)
  {
    var a := ReachableInv(s);
    StepKeeps(s, a, Prepare(b, write), s1);
    var a1 := Meaning(s, a, Prepare(b, write));
    var a2 := ReqLasts(s1, a1, acts, s2, h);
    assert ReqOk(s2, a2, h);
    SectorsStay(s1, acts, s2);
  }

  lemma {:induction false} SectorsStay(s: System, acts: seq<Label>, s': System)
    requires Runs(s, acts, s')
    ensures |s'.dev.sectors| == |s.dev.sectors|
    decreases |acts|
  {
    if acts != [] {
      SectorsStay(Next(s, acts[0]).value, acts[1..], s');
    }
  }

  lemma FirstStatus(s: System, a: Abs)
    requires Inv(s, a) && a.finished != []
    ensures var h := s.q.used[s.q.seen % NUM]; h < NUM && (s.q.info[h].status == 0 || s.q.info[h].status == 1)
  {
    HoldsFirst(s.q.used, s.q.seen, s.q.usedIdx, a.finished);
    ReqAt(s, a, a.finished[0]);
  }

  /** No request gets stuck: as long as the disk owns a process's buffer, the driver or the device can
      take a step for it, unless the device reported an error. A device that does not fail serves every
      request for a block that it has. */
  lemma NotStuck(s: System, h: nat) returns (l: Label)
    requires Reachable(s) && Sized(s.q) && h in s.callers && s.callers[h] < |s.bufs| && s.bufs[s.callers[h]].busy
    requires forall x :: 0 <= x < NUM ==> s.q.info[x].status != 1
    ensures Next(s, l).Some? && !l.Prepare? && !l.Edit? && !l.Release?
    ensures l.DevMove? ==> l.h == h
    ensures l.DevMove? && InRange(s, s.bufs[s.callers[h]].blockno) ==>
      h < NUM && Next(s, l).value.q.info[h].status == 0
  {
    hide Inv, DescOk, Apart, Holds, Reachable;
    var a := ReachableInv(s);
    Whole(s, a);
    ReqAt(s, a, h);
    HoldsFirst(s.q.ring, s.dev.last, s.q.idx, a.pending);
    HoldsFirst(s.q.used, s.q.seen, s.q.usedIdx, a.finished);
    match a.reqs[h].stage
    case Written => l := if s.phase.Before? then PutRing else Publish;
    case Queued => l := DevTake;
    case Taken => l := DevMove(h, false);
    case Carry => l := if s.dev.pushing.Some? then DevBump else DevPush(h);
    case Pushed => l := DevBump;
    case Used =>
      FirstStatus(s, a);
      if s.phase == Idle {
        CompletesIssuer(s);
        l := Interrupt;
      } else {
        l := if s.phase.Before? then PutRing else Publish;
      }
    case Seen => assert false;
  }

  /** The rounds of one call of virtio_disk_intr are steps of a run. */
  lemma {:induction false} IntrIsRounds(s: System) returns (acts: seq<Label>)
    requires Sized(s.q) && s.phase == Idle && Drained(s.q, s.bufs).Some?
    ensures Runs(s, acts, s.(q := Drained(s.q, s.bufs).value.0, bufs := Drained(s.q, s.bufs).value.1))
    decreases Lag(s.q)
  {
    if s.q.seen == s.q.usedIdx {
      acts := [];
    } else {
      LagFalls(s.q);
      var s1 := Next(s, Interrupt).value;
      var rest := IntrIsRounds(s1);
      acts := [Interrupt] + rest;
      assert acts[1..] == rest;
    }
  }

  /** The sector number is computed in 32 bits: it is that of the block up to block 2^31 - 1, and then
      starts again at 0. */
  lemma SectorWraps(n: nat)
    requires n < 0x1_0000_0000
    ensures SectorOf(n) == 2 * n <==> n < 0x8000_0000
    ensures n < 0x8000_0000 ==> SectorOf(n + 0x8000_0000) == SectorOf(n)
  {
    assert (n + 0x8000_0000) * 2 == n * 2 + 0x1_0000_0000;
  }
}
