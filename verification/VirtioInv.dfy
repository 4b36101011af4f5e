/** What every interleaving of module Virtio keeps, and what follows from it. */
module VirtioInv {
  import opened Blocks
  import opened Virtio

  /** How far a request has come: written down, offered, taken by the device, carried out, put in the
      used ring, counted there, seen by the driver. */
  datatype Stage = Written | Queued | Taken | Carry | Pushed | Used | Seen

  /** A request: its buffer, its other two descriptors, what the buffer (write) or the disk (read)
      held when it was made. */
  datatype Req = Req(b: nat, write: bool, d1: nat, d2: nat, want: Data, stage: Stage)

  /** What the rings stand for: requests by head, each descriptor's request, and two queues. */
  datatype Abs = Abs(reqs: map<nat, Req>, owner: map<nat, nat>, pending: seq<nat>, finished: seq<nat>)

  /** A ring with a 16-bit index from which entries are taken and one at which they are added holds
      the queue. */
  ghost predicate Holds(ring: seq<nat>, from: nat, to: nat, queue: seq<nat>)
  {
    && |ring| == NUM && from < 0x1_0000 && |queue| <= NUM && to == (from + |queue|) % 0x1_0000
    && forall k {:trigger queue[k]} :: 0 <= k < |queue| ==> ring[(from + k) % NUM] == queue[k]
  }

  lemma HoldsFirst(ring: seq<nat>, from: nat, to: nat, queue: seq<nat>)
    requires Holds(ring, from, to, queue)
    ensures from == to <==> queue == []
    ensures queue != [] ==> ring[from % NUM] == queue[0] && Holds(ring, Inc(from), to, queue[1..])
  {
    if queue != [] {
      forall k | 0 <= k < |queue| - 1 ensures ring[(Inc(from) + k) % NUM] == queue[1..][k] {
        assert ring[(from + (k + 1)) % NUM] == queue[k + 1];
      }
    }
  }

  /** Writing the slot at the second index and moving that index on appends to the queue. */
  lemma HoldsMore(ring: seq<nat>, from: nat, to: nat, queue: seq<nat>, h: nat)
    requires Holds(ring, from, to, queue) && |queue| < NUM
    ensures Holds(ring[to % NUM := h], from, to, queue)
    ensures Holds(ring[to % NUM := h], from, Inc(to), queue + [h])
  {
    var ring' := ring[to % NUM := h];
    assert to % NUM == (from + |queue|) % NUM;
    forall k | 0 <= k < |queue| ensures ring'[(from + k) % NUM] == queue[k] {
      Slots(from, k, |queue|);
    }
  }

  lemma Slots(from: nat, k: nat, n: nat)
    requires k < n < NUM
    ensures (from + k) % NUM != (from + n) % NUM
  {
  }

  ghost predicate Unique(s: seq<nat>) { forall i, j :: 0 <= i < j < |s| ==> s[i] != s[j] }

  /** The sectors of a block. */
  function OnDisk(s: System, blockno: nat): Data
    requires 2 * blockno + 1 < |s.dev.sectors|
  {
    Data(s.dev.sectors[2 * blockno], s.dev.sectors[2 * blockno + 1])
  }

  predicate InRange(s: System, blockno: nat) { 2 * blockno + 1 < |s.dev.sectors| }

  predicate Early(g: Stage) { g.Written? || g.Queued? || g.Taken? }

  /** Where a request is. */
  predicate StageOk(s: System, a: Abs, h: nat, g: Stage)
  {
    && (g.Written? <==> s.phase == Before(h) || s.phase == After(h))
    && (g.Queued? <==> h in a.pending)
    && (g.Taken? <==> h in s.dev.taken)
    && (g.Carry? <==> h in s.dev.done)
    && (g.Pushed? <==> s.dev.pushing == Some(h))
    && (g.Used? <==> h in a.finished)
  }

  /** The descriptors say what the request is. */
  predicate ChainOk(q: Queue, h: nat, r: Req, blockno: nat)
    requires Sized(q)
  {
    && h < NUM && r.d1 < NUM && r.d2 < NUM && h != r.d1 && h != r.d2 && r.d1 != r.d2
    && q.ops[h] == Header(if r.write then OUT else IN, 2 * blockno)
    && q.desc[h] == Desc(OpOf(h), 16, NEXT, r.d1)
    && q.desc[r.d1] == Desc(DataOf(r.b), BSIZE, (if r.write then 0 else WRITE) + NEXT, r.d2)
    && q.desc[r.d2] == Desc(StatusOf(h), 1, WRITE, 0)
    && q.info[h].b == Some(r.b)
  }

  /** Where the data is: before the device carries the request out, at its source; afterwards, if that
      went well, in the buffer and on the disk. */
  predicate DataOk(s: System, r: Req, status: nat)
    requires r.b < |s.bufs|
  {
    var b := s.bufs[r.b];
    if Early(r.stage) then
      status == 0xff && (if r.write then b.data == r.want else InRange(s, b.blockno) ==> OnDisk(s, b.blockno) == r.want)
    else
      && (status == 0 ==> InRange(s, b.blockno) && b.data == r.want && OnDisk(s, b.blockno) == r.want)
      && status <= 1 && (r.stage.Seen? ==> status == 0)
  }

  ghost predicate ReqOk(s: System, a: Abs, h: nat)
    requires Sized(s.q) && h in a.reqs
  {
    var r := a.reqs[h];
    && h in s.callers && s.callers[h] == r.b && r.b < |s.bufs| && s.bufs[r.b].blockno < 0x8000_0000
    && ChainOk(s.q, h, r, s.bufs[r.b].blockno) && StageOk(s, a, h, r.stage) && DataOk(s, r, s.q.info[h].status)
    && (s.bufs[r.b].busy <==> !r.stage.Seen?)
    && Owns(a, h, h) && Owns(a, r.d1, h) && Owns(a, r.d2, h)
  }

  predicate Owns(a: Abs, i: nat, h: nat) { i in a.owner && a.owner[i] == h }

  /** Descriptor i is free, or of exactly one request. */
  predicate DescOk(s: System, a: Abs, i: nat)
    requires Sized(s.q) && i < NUM
  {
    && (s.q.free[i] <==> i !in a.owner)
    && (s.q.free[i] ==> s.q.desc[i] == Zero())
    && (i in a.owner ==>
          && a.owner[i] in a.reqs
          && (i == a.owner[i] || i == a.reqs[a.owner[i]].d1 || i == a.reqs[a.owner[i]].d2))
  }

  /** Requests name different buffers and different blocks. */
  predicate Apart(s: System, a: Abs, h: nat, x: nat)
    requires h in a.reqs && x in a.reqs
  {
    var b, c := a.reqs[h].b, a.reqs[x].b;
    h != x ==> b != c && b < |s.bufs| && c < |s.bufs| && s.bufs[b].blockno != s.bufs[c].blockno
  }

  /** Whoever a ring or the device names is a request. */
  ghost predicate Known(s: System, a: Abs)
  {
    && (forall h :: h in a.pending ==> h in a.reqs) && (forall h :: h in a.finished ==> h in a.reqs)
    && (forall h :: h in s.dev.taken ==> h in a.reqs) && (forall h :: h in s.dev.done ==> h in a.reqs)
    && (s.dev.pushing.Some? ==> s.dev.pushing.value in a.reqs) && (s.phase != Idle ==> s.phase.h in a.reqs)
    && s.callers.Keys == a.reqs.Keys
  }

  ghost predicate Rings(s: System, a: Abs)
    requires Sized(s.q)
  {
    && Holds(s.q.ring, s.dev.last, s.q.idx, a.pending) && Holds(s.q.used, s.q.seen, s.q.usedIdx, a.finished)
    && Unique(a.pending) && Unique(a.finished)
    && (s.phase.After? ==> s.q.ring[s.q.idx % NUM] == s.phase.h)
    && (s.dev.pushing.Some? ==> s.q.used[s.q.usedIdx % NUM] == s.dev.pushing.value)
  }

  ghost predicate Inv(s: System, a: Abs)
  {
    && Sized(s.q) && Known(s, a) && Rings(s, a) && |a.owner| == 3 * |a.reqs|
    && (forall h {:trigger ReqOk(s, a, h)} :: h in a.reqs ==> ReqOk(s, a, h))
    && (forall i {:trigger DescOk(s, a, i)} :: 0 <= i < NUM ==> DescOk(s, a, i))
    && (forall i :: i in a.owner ==> i < NUM)
    && (forall h, x {:trigger Apart(s, a, h, x)} :: h in a.reqs && x in a.reqs ==> Apart(s, a, h, x))
  }

  /** The parts of the invariant. */
  lemma ReqAt(s: System, a: Abs, h: nat)
    requires Inv(s, a) && h in a.reqs
    ensures Sized(s.q) && ReqOk(s, a, h)
  {
  }

  lemma DescAt(s: System, a: Abs, i: nat)
    requires Inv(s, a) && i < NUM
    ensures Sized(s.q) && DescOk(s, a, i)
  {
  }

  lemma ApartAt(s: System, a: Abs, h: nat, x: nat)
    requires Inv(s, a) && h in a.reqs && x in a.reqs
    ensures Apart(s, a, h, x)
  {
  }

  lemma Whole(s: System, a: Abs)
    requires Inv(s, a)
    ensures Sized(s.q) && Known(s, a) && Rings(s, a) && |a.owner| == 3 * |a.reqs|
    ensures forall i :: i in a.owner ==> i < NUM
  {
  }

  /** Request h moves on. */
  function Go(a: Abs, h: nat, g: Stage): Abs
    requires h in a.reqs
  {
    a.(reqs := a.reqs[h := a.reqs[h].(stage := g)])
  }

  /** What a step means for the requests. */
  function Meaning(s: System, a: Abs, l: Label): Abs
    requires Sized(s.q) && Next(s, l).Some? && Inv(s, a)
  {
    match l
    case Prepare(b, write) =>
      var (i, j, k) := Three(s.q.free).value;
      a.(reqs := a.reqs[i := Req(b, write, j, k, Wanted(s, b, write), Written)],
         owner := a.owner[i := i][j := i][k := i])
    case PutRing => a
    case Publish => Go(a, s.phase.h, Queued).(pending := a.pending + [s.phase.h])
    case Interrupt =>
      HoldsFirst(s.q.used, s.q.seen, s.q.usedIdx, a.finished);
      Go(a, a.finished[0], Seen).(finished := a.finished[1..])
    case Release(h) =>
      assert ReqOk(s, a, h);
      a.(reqs := a.reqs - {h}, owner := a.owner - {h, a.reqs[h].d1, a.reqs[h].d2})
    case Edit(b, buf) => a
    case DevTake =>
      HoldsFirst(s.q.ring, s.dev.last, s.q.idx, a.pending);
      Go(a, a.pending[0], Taken).(pending := a.pending[1..])
    case DevMove(h, fails) => Go(a, h, Carry)
    case DevPush(h) => Go(a, h, Pushed)
    case DevBump => Go(a, s.dev.pushing.value, Used).(finished := a.finished + [s.dev.pushing.value])
  }

  // ---- Every step keeps the invariant ----

  /** At most two requests are about, so the rings never fill up. */
  lemma {:induction false} Fits(queue: seq<nat>, bound: set<nat>)
    requires Unique(queue) && forall h :: h in queue ==> h in bound
    ensures |queue| <= |bound|
  {
    if queue != [] {
      forall h | h in queue[1..] ensures h in bound - {queue[0]} {
        var k :| 0 <= k < |queue| - 1 && queue[1..][k] == h;
        assert queue[0] != queue[k + 1];
      }
      forall i, j | 0 <= i < j < |queue[1..]| ensures queue[1..][i] != queue[1..][j] {
        assert queue[i + 1] != queue[j + 1];
      }
      Fits(queue[1..], bound - {queue[0]});
    }
  }

  function Below(n: nat): (r: set<nat>)
    ensures |r| == n && forall i: nat :: i in r <==> i < n
  {
    if n == 0 then {}
    else
      assert n - 1 !in Below(n - 1);
      Below(n - 1) + {n - 1}
  }

  lemma FewRequests(s: System, a: Abs)
    requires Inv(s, a)
    ensures |a.reqs| <= 2
  {
    Fewer(a.owner.Keys, Below(NUM));
    assert |a.owner.Keys| == |a.owner|;
  }

  lemma {:induction false} Fewer(x: set<nat>, y: set<nat>)
    requires x <= y
    ensures |x| <= |y|
  {
    if x != {} {
      var i :| i in x;
      Fewer(x - {i}, y - {i});
    }
  }

  lemma ShortQueue(s: System, a: Abs, queue: seq<nat>)
    requires Inv(s, a) && Unique(queue) && forall h :: h in queue ==> h in a.reqs
    ensures |queue| <= 2
  {
    FewRequests(s, a);
    Fits(queue, a.reqs.Keys);
    assert |a.reqs.Keys| == |a.reqs|;
  }

  /** A request that a step has nothing to do with. */
  ghost predicate Same(s: System, a: Abs, s': System, a': Abs, x: nat)
    requires Sized(s.q) && Sized(s'.q) && x in a.reqs && ReqOk(s, a, x)
  {
    var r := a.reqs[x];
    && x in a'.reqs && a'.reqs[x] == r && x in s'.callers && s'.callers[x] == s.callers[x]
    && |s'.bufs| == |s.bufs| && s'.bufs[r.b] == s.bufs[r.b] && s'.q.ops[x] == s.q.ops[x] && s'.q.info[x] == s.q.info[x]
    && s'.q.desc[x] == s.q.desc[x] && s'.q.desc[r.d1] == s.q.desc[r.d1] && s'.q.desc[r.d2] == s.q.desc[r.d2]
    && |s'.dev.sectors| == |s.dev.sectors|
    && (InRange(s, s.bufs[r.b].blockno) ==> OnDisk(s', s.bufs[r.b].blockno) == OnDisk(s, s.bufs[r.b].blockno))
    && Owns(a', x, x) && Owns(a', r.d1, x) && Owns(a', r.d2, x)
    && StageOk(s', a', x, r.stage)
  }

  lemma OtherReq(s: System, a: Abs, s': System, a': Abs, x: nat)
    requires Sized(s.q) && Sized(s'.q) && x in a.reqs && ReqOk(s, a, x) && Same(s, a, s', a', x)
    ensures ReqOk(s', a', x)
  {
  }

  /** A step that moves request h on and leaves all else as it is, but for h's buffer, its block and
      its status. */
  ghost predicate Moves(s: System, a: Abs, s': System, a': Abs, h: nat)
  {
    && Sized(s.q) && Sized(s'.q) && h in a.reqs && h in a'.reqs && h < NUM && a.reqs[h].b < |s.bufs|
    && a'.reqs == a.reqs[h := a.reqs[h].(stage := a'.reqs[h].stage)] && a'.owner == a.owner
    && s'.callers == s.callers && s'.q.desc == s.q.desc && s'.q.free == s.q.free && s'.q.ops == s.q.ops
    && (forall x :: 0 <= x < NUM && x != h ==> s'.q.info[x] == s.q.info[x])
    && s'.q.info[h].b == s.q.info[h].b
    && |s'.bufs| == |s.bufs| && (forall b :: 0 <= b < |s.bufs| && b != a.reqs[h].b ==> s'.bufs[b] == s.bufs[b])
    && s'.bufs[a.reqs[h].b].blockno == s.bufs[a.reqs[h].b].blockno
    && |s'.dev.sectors| == |s.dev.sectors|
    && (forall n: nat {:trigger InRange(s, n)} :: n != s.bufs[a.reqs[h].b].blockno && InRange(s, n) ==>
          OnDisk(s', n) == OnDisk(s, n))
    && forall x {:trigger StageOk(s', a', x, a.reqs[x].stage)} :: x in a.reqs && x != h ==>
         (StageOk(s, a, x, a.reqs[x].stage) ==> StageOk(s', a', x, a.reqs[x].stage))
  }

  lemma MovesOther(s: System, a: Abs, s': System, a': Abs, h: nat, x: nat)
    requires Inv(s, a) && Moves(s, a, s', a', h) && x in a.reqs && x != h
    ensures ReqOk(s', a', x)
  {
    hide Inv, Holds, Known, Rings, StageOk, DataOk, DescOk;
    ReqAt(s, a, x);
    ReqAt(s, a, h);
    ApartAt(s, a, h, x);
    assert StageOk(s', a', x, a.reqs[x].stage);
    OtherReq(s, a, s', a', x);
  }

  lemma MovesKeeps(s: System, a: Abs, s': System, a': Abs, h: nat)
    requires Inv(s, a) && Moves(s, a, s', a', h) && Known(s', a') && Rings(s', a')
    requires StageOk(s', a', h, a'.reqs[h].stage) && DataOk(s', a'.reqs[h], s'.q.info[h].status)
    requires s'.bufs[a.reqs[h].b].busy <==> !a'.reqs[h].stage.Seen?
    ensures Inv(s', a')
  {
    hide Holds, Known, Rings, StageOk, DataOk;
    assert ReqOk(s, a, h);
    assert ReqOk(s', a', h);
    forall x | x in a'.reqs && x != h ensures ReqOk(s', a', x) {
      MovesOther(s, a, s', a', h, x);
    }
    hide ReqOk;
    forall i | 0 <= i < NUM ensures DescOk(s', a', i) {
      assert DescOk(s, a, i);
    }
    forall x, y | x in a'.reqs && y in a'.reqs ensures Apart(s', a', x, y) {
      assert Apart(s, a, x, y);
    }
  }

  lemma InPlus(queue: seq<nat>, h: nat, x: nat)
    ensures x in queue + [h] <==> x in queue || x == h
  {
  }

  lemma InRest(queue: seq<nat>, x: nat)
    requires Unique(queue) && queue != []
    ensures x in queue[1..] <==> x in queue && x != queue[0]
    ensures Unique(queue[1..])
  {
    if x in queue[1..] {
      var k :| 0 <= k < |queue| - 1 && queue[1..][k] == x;
      assert queue[k + 1] == x;
    }
    if x in queue && x != queue[0] {
      var k :| 0 <= k < |queue| && queue[k] == x;
      assert queue[1..][k - 1] == x;
    }
    forall i, j | 0 <= i < j < |queue[1..]| ensures queue[1..][i] != queue[1..][j] {
      assert queue[i + 1] != queue[j + 1];
    }
  }

  lemma StepPutRing(s: System, a: Abs, s': System)
    requires Inv(s, a) && Next(s, PutRing) == Some(s')
    ensures Inv(s', a)
  {
    hide Inv, DescOk, Apart, Owns;
    Whole(s, a);
    var h := s.phase.h;
    ReqAt(s, a, h);
    ShortQueue(s, a, a.pending);
    HoldsMore(s.q.ring, s.dev.last, s.q.idx, a.pending, h);
    MovesKeeps(s, a, s', a, h);
  }

  lemma StepPublish(s: System, a: Abs, s': System)
    requires Inv(s, a) && Next(s, Publish) == Some(s')
    ensures Inv(s', Meaning(s, a, Publish))
  {
    hide Inv, DescOk, Apart, Owns;
    Whole(s, a);
    var h, a' := s.phase.h, Meaning(s, a, Publish);
    ReqAt(s, a, h);
    ShortQueue(s, a, a.pending);
    HoldsMore(s.q.ring, s.dev.last, s.q.idx, a.pending, h);
    assert s.q.ring[s.q.idx % NUM := h] == s.q.ring;
    forall x ensures x in a'.pending <==> x in a.pending || x == h { InPlus(a.pending, h, x); }
    MovesKeeps(s, a, s', a', h);
  }

  lemma StepDevTake(s: System, a: Abs, s': System)
    requires Inv(s, a) && Next(s, DevTake) == Some(s')
    ensures Inv(s', Meaning(s, a, DevTake))
  {
    hide Inv, DescOk, Apart, Owns;
    Whole(s, a);
    HoldsFirst(s.q.ring, s.dev.last, s.q.idx, a.pending);
    var h, a' := a.pending[0], Meaning(s, a, DevTake);
    ReqAt(s, a, h);
    forall x ensures x in a'.pending <==> x in a.pending && x != h { InRest(a.pending, x); }
    MovesKeeps(s, a, s', a', h);
  }

  lemma StepDevPush(s: System, a: Abs, h: nat, s': System)
    requires Inv(s, a) && Next(s, DevPush(h)) == Some(s')
    ensures Inv(s', Meaning(s, a, DevPush(h)))
  {
    hide Inv, DescOk, Apart, Owns;
    Whole(s, a);
    ReqAt(s, a, h);
    ShortQueue(s, a, a.finished);
    HoldsMore(s.q.used, s.q.seen, s.q.usedIdx, a.finished, h);
    MovesKeeps(s, a, s', Meaning(s, a, DevPush(h)), h);
  }

  lemma StepDevBump(s: System, a: Abs, s': System)
    requires Inv(s, a) && Next(s, DevBump) == Some(s')
    ensures Inv(s', Meaning(s, a, DevBump))
  {
    hide Inv, DescOk, Apart, Owns;
    Whole(s, a);
    var h, a' := s.dev.pushing.value, Meaning(s, a, DevBump);
    ReqAt(s, a, h);
    ShortQueue(s, a, a.finished);
    HoldsMore(s.q.used, s.q.seen, s.q.usedIdx, a.finished, h);
    assert s.q.used[s.q.usedIdx % NUM := h] == s.q.used;
    forall x ensures x in a'.finished <==> x in a.finished || x == h { InPlus(a.finished, h, x); }
    MovesKeeps(s, a, s', a', h);
  }

  lemma StepInterrupt(s: System, a: Abs, s': System)
    requires Inv(s, a) && Next(s, Interrupt) == Some(s')
    ensures Inv(s', Meaning(s, a, Interrupt))
  {
    hide Inv, DescOk, Apart, Owns;
    Whole(s, a);
    HoldsFirst(s.q.used, s.q.seen, s.q.usedIdx, a.finished);
    var h, a' := a.finished[0], Meaning(s, a, Interrupt);
    ReqAt(s, a, h);
    forall x ensures x in a'.finished <==> x in a.finished && x != h { InRest(a.finished, x); }
    MovesKeeps(s, a, s', a', h);
  }

  lemma DevMoveRest(s: System, a: Abs, h: nat, fails: bool, s': System)
    requires Inv(s, a) && Next(s, DevMove(h, fails)) == Some(s')
    ensures var a' := Meaning(s, a, DevMove(h, fails)); Known(s', a') && Rings(s', a')
  {
    hide Inv, DescOk, Apart, Owns, DataOk, ChainOk, ReqOk;
    Whole(s, a);
  }

  lemma DevMoveMoves(s: System, a: Abs, h: nat, fails: bool, s': System)
    requires Inv(s, a) && Next(s, DevMove(h, fails)) == Some(s')
    ensures Moves(s, a, s', Meaning(s, a, DevMove(h, fails)), h)
  {
    hide Inv, DescOk, Apart, Owns, Rings, DataOk;
    Whole(s, a);
    ReqAt(s, a, h);
  }

  lemma DevMoveReq(s: System, a: Abs, h: nat, fails: bool, s': System)
    requires Inv(s, a) && Next(s, DevMove(h, fails)) == Some(s')
    ensures var r' := Meaning(s, a, DevMove(h, fails)).reqs[h];
      && StageOk(s', Meaning(s, a, DevMove(h, fails)), h, r'.stage) && r'.stage == Carry
      && r'.b < |s'.bufs| && s'.bufs[r'.b].busy && Sized(s'.q) && DataOk(s', r', s'.q.info[h].status)
  {
    hide Inv, DescOk, Apart, Owns, Rings;
    Whole(s, a);
    ReqAt(s, a, h);
  }

  lemma StepDevMove(s: System, a: Abs, h: nat, fails: bool, s': System)
    requires Inv(s, a) && Next(s, DevMove(h, fails)) == Some(s')
    ensures Inv(s', Meaning(s, a, DevMove(h, fails)))
  {
    hide Inv, Known, Rings, Moves, DataOk, StageOk;
    Whole(s, a);
    DevMoveRest(s, a, h, fails, s');
    DevMoveMoves(s, a, h, fails, s');
    DevMoveReq(s, a, h, fails, s');
    MovesKeeps(s, a, s', Meaning(s, a, DevMove(h, fails)), h);
  }

  lemma EditReq(s: System, a: Abs, b: nat, buf: Buf, s': System, x: nat)
    requires Inv(s, a) && s' == s.(bufs := s'.bufs) && b < |s.bufs| && s'.bufs == s.bufs[b := buf]
    requires b !in s.callers.Values
    requires x in a.reqs
    ensures ReqOk(s', a, x) && a.reqs[x].b != b
  {
    hide Inv;
    Whole(s, a);
    ReqAt(s, a, x);
    assert s.callers[x] in s.callers.Values;
    OtherReq(s, a, s', a, x);
  }

  lemma StepEdit(s: System, a: Abs, b: nat, buf: Buf, s': System)
    requires Inv(s, a) && Next(s, Edit(b, buf)) == Some(s')
    ensures Inv(s', a)
  {
    hide ReqOk, DataOk, StageOk, ChainOk, Holds;
    forall x | x in a.reqs ensures ReqOk(s', a, x) && a.reqs[x].b != b {
      EditReq(s, a, b, buf, s', x);
    }
    forall i | 0 <= i < NUM ensures DescOk(s', a, i) {
      DescAt(s, a, i);
    }
    forall x, y | x in a.reqs && y in a.reqs ensures Apart(s', a, x, y) {
      ApartAt(s, a, x, y);
    }
  }

  /** Buffer b of some process becomes request i with descriptors i, j and k. */
  ghost predicate IsPrepare(s: System, a: Abs, b: nat, write: bool, i: nat, j: nat, k: nat, s': System, a': Abs)
  {
    && Inv(s, a) && Sized(s.q) && s.phase == Idle && MayCall(s, b) && i < j < k < NUM
    && s' == System(Formatted(s.q, b, s.bufs[b].blockno, write, i, j, k), Marked(s.bufs, b, true), s.callers[i := b],
                    Before(i), s.dev)
    && a' == a.(reqs := a.reqs[i := Req(b, write, j, k, Wanted(s, b, write), Written)],
                owner := a.owner[i := i][j := i][k := i])
    && i !in a.owner && j !in a.owner && k !in a.owner && i !in a.reqs
  }

  /** What a new request is to bring about: the contents of its source. */
  function Wanted(s: System, b: nat, write: bool): Data
    requires b < |s.bufs|
  {
    if write || !InRange(s, s.bufs[b].blockno) then s.bufs[b].data else OnDisk(s, s.bufs[b].blockno)
  }

  lemma PrepareOther(s: System, a: Abs, b: nat, write: bool, i: nat, j: nat, k: nat, s': System, a': Abs, x: nat)
    requires IsPrepare(s, a, b, write, i, j, k, s', a') && x in a.reqs
    ensures ReqOk(s', a', x) && a.reqs[x].b != b && Apart(s', a', i, x) && Apart(s', a', x, i)
  {
    hide Inv;
    Whole(s, a);
    ReqAt(s, a, x);
    OtherReq(s, a, s', a', x);
  }

  lemma PrepareNew(s: System, a: Abs, b: nat, write: bool, i: nat, j: nat, k: nat, s': System, a': Abs)
    requires IsPrepare(s, a, b, write, i, j, k, s', a')
    ensures ReqOk(s', a', i)
  {
    hide Inv, Rings, DescOk, Apart;
    Whole(s, a);
  }

  lemma PrepareDesc(s: System, a: Abs, b: nat, write: bool, i: nat, j: nat, k: nat, s': System, a': Abs, d: nat)
    requires IsPrepare(s, a, b, write, i, j, k, s', a') && d < NUM
    ensures DescOk(s', a', d)
  {
    hide Inv;
    Whole(s, a);
    DescAt(s, a, d);
  }

  lemma PrepareRest(s: System, a: Abs, b: nat, write: bool, i: nat, j: nat, k: nat, s': System, a': Abs)
    requires IsPrepare(s, a, b, write, i, j, k, s', a')
    ensures Sized(s'.q) && Known(s', a') && Rings(s', a') && |a'.owner| == 3 * |a'.reqs|
    ensures a'.reqs.Keys == a.reqs.Keys + {i} && forall d :: d in a'.owner ==> d < NUM
  {
    hide Inv, ReqOk, DescOk, Apart, Holds, MayCall;
    Whole(s, a);
    assert a'.owner == a.owner[i := i][j := i][k := i] && |a'.owner| == |a.owner| + 3;
  }

  lemma PreparedInv(s: System, a: Abs, b: nat, write: bool, i: nat, j: nat, k: nat, s': System, a': Abs)
    requires IsPrepare(s, a, b, write, i, j, k, s', a')
    ensures Inv(s', a')
  {
    hide IsPrepare, ReqOk, DescOk, Known, Rings;
    PrepareRest(s, a, b, write, i, j, k, s', a');
    PrepareNew(s, a, b, write, i, j, k, s', a');
    forall d | 0 <= d < NUM ensures DescOk(s', a', d) {
      PrepareDesc(s, a, b, write, i, j, k, s', a', d);
    }
    forall x | x in a.reqs ensures ReqOk(s', a', x) && Apart(s', a', i, x) && Apart(s', a', x, i) {
      PrepareOther(s, a, b, write, i, j, k, s', a', x);
    }
    forall x, y | x in a'.reqs && y in a'.reqs ensures Apart(s', a', x, y) {
      if x in a.reqs && y in a.reqs { PrepareApart(s, a, b, write, i, j, k, s', a', x, y); }
    }
  }

  lemma HeadOwned(s: System, a: Abs, h: nat)
    requires Inv(s, a)
    ensures h in a.reqs ==> h in a.owner
  {
    if h in a.reqs { ReqAt(s, a, h); }
  }

  lemma StepPrepare(s: System, a: Abs, b: nat, write: bool, s': System)
    requires Inv(s, a) && Next(s, Prepare(b, write)) == Some(s')
    ensures Inv(s', Meaning(s, a, Prepare(b, write)))
  {
    var (i, j, k) := Three(s.q.free).value;
    DescAt(s, a, i);
    DescAt(s, a, j);
    DescAt(s, a, k);
    HeadOwned(s, a, i);
    hide Inv, ReqOk, DescOk;
    PreparedInv(s, a, b, write, i, j, k, s', Meaning(s, a, Prepare(b, write)));
  }

  lemma PrepareApart(s: System, a: Abs, b: nat, write: bool, i: nat, j: nat, k: nat, s': System, a': Abs, x: nat,
                     y: nat)
    requires IsPrepare(s, a, b, write, i, j, k, s', a') && x in a.reqs && y in a.reqs
    ensures Apart(s', a', x, y)
  {
    ApartAt(s, a, x, y);
  }

  /** free_chain gives back exactly the three descriptors of a request. */
  lemma ChainFreed(q: Queue, h: nat, r: Req, blockno: nat)
    requires Sized(q) && ChainOk(q, h, r, blockno) && !q.free[h] && !q.free[r.d1] && !q.free[r.d2]
    ensures FreedChain(Dropped(q, h), h) == Some(q.(info := q.info[h := q.info[h].(b := None)],
                                                    desc := q.desc[h := Zero()][r.d1 := Zero()][r.d2 := Zero()],
                                                    free := q.free[h := true][r.d1 := true][r.d2 := true]))
  {
    var q0 := Dropped(q, h);
    var q1 := q0.(desc := q0.desc[h := Zero()], free := q0.free[h := true]);
    var q2 := q1.(desc := q1.desc[r.d1 := Zero()], free := q1.free[r.d1 := true]);
    assert FreedChain(q0, h) == FreedChain(q1, r.d1);
    assert FreedChain(q1, r.d1) == FreedChain(q2, r.d2);
  }

  ghost predicate IsRelease(s: System, a: Abs, h: nat, r: Req, s': System, a': Abs)
  {
    && Inv(s, a) && h in a.reqs && r == a.reqs[h] && s.phase == Idle
    && h < NUM && r.d1 < NUM && r.d2 < NUM && r.b < |s.bufs| && r.stage.Seen?
    && s' == s.(q := s'.q, callers := s.callers - {h})
    && a' == a.(reqs := a.reqs - {h}, owner := a.owner - {h, r.d1, r.d2})
    && s'.q == s.q.(info := s.q.info[h := s.q.info[h].(b := None)],
                    desc := s.q.desc[h := Zero()][r.d1 := Zero()][r.d2 := Zero()],
                    free := s.q.free[h := true][r.d1 := true][r.d2 := true])
  }

  lemma ReleaseOther(s: System, a: Abs, h: nat, r: Req, s': System, a': Abs, x: nat)
    requires IsRelease(s, a, h, r, s', a') && x in a.reqs && x != h
    ensures ReqOk(s', a', x)
  {
    hide Inv;
    Whole(s, a);
    ReqAt(s, a, h);
    ReqAt(s, a, x);
    OtherReq(s, a, s', a', x);
  }

  lemma ReleaseDesc(s: System, a: Abs, h: nat, r: Req, s': System, a': Abs, d: nat)
    requires IsRelease(s, a, h, r, s', a') && d < NUM
    ensures DescOk(s', a', d)
  {
    hide Inv;
    Whole(s, a);
    ReqAt(s, a, h);
    DescAt(s, a, d);
  }

  lemma ReleaseRest(s: System, a: Abs, h: nat, r: Req, s': System, a': Abs)
    requires IsRelease(s, a, h, r, s', a')
    ensures Known(s', a') && Rings(s', a') && |a'.owner| == 3 * |a'.reqs|
  {
    ReqAt(s, a, h);
    hide ReqOk, DescOk, Apart;
    Without3(a.owner, h, r.d1, r.d2);
    assert a'.reqs.Keys == a.reqs.Keys - {h} && |a'.reqs| == |a'.reqs.Keys| && |a.reqs| == |a.reqs.Keys|;
  }

  lemma Without3(m: map<nat, nat>, i: nat, j: nat, k: nat)
    requires i in m && j in m && k in m && i != j && i != k && j != k
    ensures |m - {i, j, k}| == |m| - 3
  {
    var m' := m - {i, j, k};
    assert m'.Keys == m.Keys - {i} - {j} - {k};
    assert |m'| == |m'.Keys| && |m| == |m.Keys|;
  }

  lemma ReleaseFacts(s: System, a: Abs, h: nat, r: Req, s': System, a': Abs)
    requires IsRelease(s, a, h, r, s', a')
    ensures Sized(s'.q) && (forall x :: x in a'.reqs <==> x in a.reqs && x != h)
    ensures forall i :: i in a'.owner ==> i < NUM
  {
    hide ReqOk, DescOk, Rings, Apart;
  }

  lemma ReleaseApart(s: System, a: Abs, h: nat, r: Req, s': System, a': Abs, x: nat, y: nat)
    requires IsRelease(s, a, h, r, s', a') && x in a'.reqs && y in a'.reqs
    ensures Apart(s', a', x, y)
  {
    hide Inv, ReqOk, DescOk, Rings, Known;
    ApartAt(s, a, x, y);
  }

  lemma ReleasedInv(s: System, a: Abs, h: nat, r: Req, s': System, a': Abs)
    requires IsRelease(s, a, h, r, s', a')
    ensures Inv(s', a')
  {
    hide IsRelease, ReqOk, DescOk, Known, Rings;
    ReleaseFacts(s, a, h, r, s', a');
    ReleaseRest(s, a, h, r, s', a');
    forall x | x in a'.reqs ensures ReqOk(s', a', x) {
      ReleaseOther(s, a, h, r, s', a', x);
    }
    forall d | 0 <= d < NUM ensures DescOk(s', a', d) {
      ReleaseDesc(s, a, h, r, s', a', d);
    }
    forall x, y | x in a'.reqs && y in a'.reqs ensures Apart(s', a', x, y) {
      ReleaseApart(s, a, h, r, s', a', x, y);
    }
  }

  lemma StepRelease(s: System, a: Abs, h: nat, s': System)
    requires Inv(s, a) && Next(s, Release(h)) == Some(s')
    ensures Inv(s', Meaning(s, a, Release(h)))
  {
    var r := a.reqs[h];
    ReqAt(s, a, h);
    DescAt(s, a, h);
    DescAt(s, a, r.d1);
    DescAt(s, a, r.d2);
    ChainFreed(s.q, h, r, s.bufs[r.b].blockno);
    hide DescOk, Known, Rings, FreedChain;
    ReleasedInv(s, a, h, r, s', Meaning(s, a, Release(h)));
  }
}
