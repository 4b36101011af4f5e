/** virtio_disk.c: the driver's queue operations, and the interleaving of the driver with a device at
    every access to the shared rings. */
module Virtio {
  import opened Blocks

  const NUM: nat := 8
  const NEXT: nat := 1
  const WRITE: nat := 2
  const IN: nat := 0
  const OUT: nat := 1
  const BSIZE: nat := 1024

  /** The 512 bytes of a sector as words; a buffer's data is two of them. */
  type Sector = s: seq<Word> | |s| == 128 witness seq(128, i => 0)
  datatype Data = Data(lo: Sector, hi: Sector)

  /** The memory that a descriptor points to: nothing, a request header, a buffer, a status byte. */
  datatype Addr = Null | OpOf(i: nat) | DataOf(b: nat) | StatusOf(i: nat)
  datatype Desc = Desc(addr: Addr, len: nat, flags: nat, next: nat)
  datatype Header = Header(kind: nat, sector: nat)
  datatype Info = Info(b: Option<nat>, status: nat)

  /** struct disk: descriptors, avail ring, used ring (ids only), bookkeeping. The three indices are
      16 bits wide. */
  datatype Queue = Queue(desc: seq<Desc>, ops: seq<Header>, ring: seq<nat>, idx: nat, used: seq<nat>, usedIdx: nat,
                         free: seq<bool>, seen: nat, info: seq<Info>)

  datatype Buf = Buf(blockno: nat, data: Data, busy: bool)

  predicate Sized(q: Queue)
  {
    && |q.desc| == |q.ops| == |q.ring| == |q.used| == |q.free| == |q.info| == NUM
    && q.idx < 0x1_0000 && q.usedIdx < 0x1_0000 && q.seen < 0x1_0000
  }

  /** A 16-bit index plus one. */
  function Inc(x: nat): nat { (x + 1) % 0x1_0000 }

  function Zero(): Desc { Desc(Null, 0, 0, 0) }

  /** b->blockno * (BSIZE / 512), computed in 32 bits. */
  function SectorOf(blockno: nat): nat { blockno * 2 % 0x1_0000_0000 }

  function InUse(free: seq<bool>): set<nat> { set i: nat | i < |free| && !free[i] }

  function FreeSet(free: seq<bool>): set<nat> { set i: nat | i < |free| && free[i] }

  /** What free_desc(i) does; None is a panic. */
  function FreedDesc(q: Queue, i: nat): Option<Queue>
    requires Sized(q)
  {
    if i >= NUM || q.free[i] then None
    else Some(q.(desc := q.desc[i := Zero()], free := q.free[i := true]))
  }

  /** What free_chain(i) does; it ends on every list of descriptors, for a cycle makes it panic. */
  function FreedChain(q: Queue, i: nat): (r: Option<Queue>)
    requires Sized(q)
    ensures r.Some? ==> Sized(r.value)
    decreases InUse(q.free)
  {
    if i >= NUM || q.free[i] then None
    else
      var q1 := q.(desc := q.desc[i := Zero()], free := q.free[i := true]);
      assert i in InUse(q.free) && i !in InUse(q1.free);
      if HasNext(q.desc[i]) then FreedChain(q1, q.desc[i].next) else Some(q1)
  }

  predicate HasNext(d: Desc) { d.flags % 2 == 1 }

  predicate DeviceWrites(d: Desc) { d.flags / 2 % 2 == 1 }

  /** The lowest free descriptor from i on; NUM for none. */
  function FirstFree(free: seq<bool>, i: nat): (r: nat)
    requires i <= |free|
    ensures i <= r <= |free| && (r < |free| ==> free[r]) && forall j :: i <= j < r ==> !free[j]
    decreases |free| - i
  {
    if i == |free| || free[i] then i else FirstFree(free, i + 1)
  }

  /** The descriptors that alloc3_desc takes: the three lowest. */
  function Three(free: seq<bool>): (r: Option<(nat, nat, nat)>)
    ensures r.Some? ==> r.value.0 < r.value.1 < r.value.2 < |free| && free[r.value.0] && free[r.value.1]
    ensures r.Some? ==> free[r.value.2]
  {
    var i := FirstFree(free, 0);
    if i == |free| then None
    else
      var j := FirstFree(free, i + 1);
      if j == |free| then None
      else
        var k := FirstFree(free, j + 1);
        if k == |free| then None else Some((i, j, k))
  }

  /** The request of buffer b in three descriptors, not yet offered to the device. */
  function Formatted(q: Queue, b: nat, blockno: nat, write: bool, i: nat, j: nat, k: nat): Queue
    requires Sized(q) && i < NUM && j < NUM && k < NUM
  {
    q.(free := q.free[i := false][j := false][k := false],
       ops := q.ops[i := Header(if write then OUT else IN, SectorOf(blockno))],
       desc := q.desc[i := Desc(OpOf(i), 16, NEXT, j)]
                     [j := Desc(DataOf(b), BSIZE, (if write then 0 else WRITE) + NEXT, k)]
                     [k := Desc(StatusOf(i), 1, WRITE, 0)],
       info := q.info[i := Info(Some(b), 0xff)])
  }

  /** disk.avail->ring[disk.avail->idx % NUM] = h. */
  function Ringed(q: Queue, h: nat): Queue
    requires Sized(q)
  {
    q.(ring := q.ring[q.idx % NUM := h])
  }

  /** disk.avail->idx += 1. */
  function Published(q: Queue): Queue { q.(idx := Inc(q.idx)) }

  function Marked(bufs: seq<Buf>, b: nat, busy: bool): seq<Buf>
    requires b < |bufs|
  {
    bufs[b := bufs[b].(busy := busy)]
  }

  /** One round of the loop in virtio_disk_intr; None is a panic. */
  function Completed(q: Queue, bufs: seq<Buf>): Option<(Queue, seq<Buf>)>
    requires Sized(q)
  {
    var id := q.used[q.seen % NUM];
    if id >= NUM || q.info[id].status != 0 || q.info[id].b.None? || q.info[id].b.value >= |bufs| then None
    else Some((q.(seen := Inc(q.seen)), Marked(bufs, q.info[id].b.value, false)))
  }

  /** How far used_idx is behind used->idx, modulo their width. */
  function Lag(q: Queue): int { (q.usedIdx + 0x1_0000 - q.seen) % 0x1_0000 }

  lemma LagFalls(q: Queue)
    requires Sized(q) && q.seen != q.usedIdx
    ensures 0 <= Lag(q.(seen := Inc(q.seen))) < Lag(q)
  {
  }

  /** The whole loop, as long as the device adds nothing meanwhile. */
  function Drained(q: Queue, bufs: seq<Buf>): (r: Option<(Queue, seq<Buf>)>)
    requires Sized(q)
    ensures r.Some? ==> Sized(r.value.0)
    decreases Lag(q)
  {
    if q.seen == q.usedIdx then Some((q, bufs))
    else if Completed(q, bufs).None? then None
    else
      LagFalls(q);
      Drained(Completed(q, bufs).value.0, Completed(q, bufs).value.1)
  }

  /** The id in the used ring k places after the last one seen. */
  function IdAt(q: Queue, k: nat): nat
    requires Sized(q)
  {
    q.used[(q.seen + k) % NUM]
  }

  /** The handler can complete the request with this id: it succeeded and has a buffer. */
  predicate Completes(q: Queue, n: nat, id: nat)
    requires Sized(q)
  {
    id < NUM && q.info[id].status == 0 && q.info[id].b.Some? && q.info[id].b.value < n
  }

  lemma NextPlace(x: nat, k: nat)
    requires x < 0x1_0000
    ensures (Inc(x) + k) % NUM == (x + (k + 1)) % NUM
  {
    if x == 0xFFFF {
      assert (0x1_0000 + k) % 8 == k % 8;
    }
  }

  lemma NextLag(q: Queue)
    requires Sized(q) && q.seen != q.usedIdx
    ensures Lag(q.(seen := Inc(q.seen))) == Lag(q) - 1
  {
  }

  lemma NextId(q: Queue, k: nat)
    requires Sized(q) && q.seen != q.usedIdx
    ensures var q1 := q.(seen := Inc(q.seen)); Lag(q1) == Lag(q) - 1 && IdAt(q1, k) == IdAt(q, k + 1)
  {
    hide Inc, Lag;
    NextLag(q);
    IncSized(q);
    NextPlace(q.seen, k);
  }

  lemma IncSized(q: Queue)
    requires Sized(q)
    ensures Sized(q.(seen := Inc(q.seen)))
  {
  }

  /** Buffer b is the one of a new entry. */
  predicate Finished(q: Queue, b: nat)
    requires Sized(q) && forall k :: 0 <= k < Lag(q) ==> IdAt(q, k) < NUM
  {
    exists k :: 0 <= k < Lag(q) && q.info[IdAt(q, k)].b == Some(b)
  }

  lemma FinishedFirst(q: Queue, b: nat)
    requires Sized(q) && q.seen != q.usedIdx && forall k :: 0 <= k < Lag(q) ==> IdAt(q, k) < NUM
    ensures var q1 := q.(seen := Inc(q.seen));
      && (forall k :: 0 <= k < Lag(q1) ==> IdAt(q1, k) < NUM)
      && IdAt(q, 0) < NUM && (Finished(q, b) <==> q.info[IdAt(q, 0)].b == Some(b) || Finished(q1, b))
  {
    var q1 := q.(seen := Inc(q.seen));
    NextId(q, 0);
    forall k | 0 <= k < Lag(q1) ensures IdAt(q1, k) == IdAt(q, k + 1) { NextId(q, k); }
    if k :| 0 <= k < Lag(q) && q.info[IdAt(q, k)].b == Some(b) {
      if k > 0 { NextId(q, k - 1); }
    }
    if k :| 0 <= k < Lag(q1) && q.info[IdAt(q1, k)].b == Some(b) {
      assert q.info[IdAt(q, k + 1)].b == Some(b);
    }
  }

  lemma AllComplete(q: Queue, n: nat)
    requires Sized(q) && q.seen != q.usedIdx
    ensures var q1 := q.(seen := Inc(q.seen));
      (forall k :: 0 <= k < Lag(q) ==> Completes(q, n, IdAt(q, k)))
      <==> Completes(q, n, IdAt(q, 0)) && forall k :: 0 <= k < Lag(q1) ==> Completes(q1, n, IdAt(q1, k))
  {
    var q1 := q.(seen := Inc(q.seen));
    NextId(q, 0);
    forall k | 0 <= k < Lag(q1) ensures IdAt(q1, k) == IdAt(q, k + 1) { NextId(q, k); }
    if forall k :: 0 <= k < Lag(q1) ==> Completes(q1, n, IdAt(q1, k)) {
      forall k | 0 < k < Lag(q) ensures Completes(q, n, IdAt(q, k)) {
        assert IdAt(q1, k - 1) == IdAt(q, k) && Completes(q1, n, IdAt(q1, k - 1));
      }
    }
  }

  /** What the whole loop comes to: it panics exactly when one of the new entries cannot be completed, and
      else clears `disk` of exactly the buffers of the new entries. */
  lemma {:induction false} DrainedMeans(q: Queue, bufs: seq<Buf>)
    requires Sized(q)
    ensures Drained(q, bufs).Some? <==> forall k :: 0 <= k < Lag(q) ==> Completes(q, |bufs|, IdAt(q, k))
    ensures Drained(q, bufs).Some? ==>
      var (q', bufs') := Drained(q, bufs).value;
      && q' == q.(seen := q.usedIdx) && |bufs'| == |bufs|
      && forall b :: 0 <= b < |bufs| ==>
           bufs'[b] == if Finished(q, b) then bufs[b].(busy := false) else bufs[b]
    decreases Lag(q)
  {
    hide Finished, IdAt;
    if q.seen == q.usedIdx {
      NoneNew(q);
    } else {
      LagFalls(q);
      AllComplete(q, |bufs|);
      FirstId(q);
      if Completed(q, bufs).Some? {
        var (q1, bufs1) := Completed(q, bufs).value;
        DrainedMeans(q1, bufs1);
        if Drained(q1, bufs1).Some? {
          forall b | 0 <= b < |bufs|
            ensures Drained(q, bufs).value.1[b] == if Finished(q, b) then bufs[b].(busy := false) else bufs[b]
          {
            FinishedFirst(q, b);
          }
        }
      }
    }
  }

  lemma FirstId(q: Queue)
    requires Sized(q)
    ensures IdAt(q, 0) == q.used[q.seen % NUM]
  {
  }

  lemma NoneNew(q: Queue)
    requires Sized(q) && q.seen == q.usedIdx
    ensures Lag(q) == 0 && forall b :: !Finished(q, b)
  {
  }

  class Driver {
    var q: Queue
    var bufs: seq<Buf>

    /** virtio_disk_init: every descriptor starts out unused, the pages are cleared. */
    constructor (bufs: seq<Buf>)
      ensures this.bufs == bufs && Sized(q) && q == InitQueue(q.ops, q.info)
    {
      this.bufs := bufs;
      this.q := InitQueue(seq(NUM, i => Header(0, 0)), seq(NUM, i => Info(None, 0)));
    }

    /** alloc_desc; NUM stands for -1. */
    method AllocDesc() returns (r: nat)
      requires Sized(q)
      modifies this`q
      ensures r == FirstFree(old(q.free), 0)
      ensures q == if r < NUM then old(q).(free := old(q.free)[r := false]) else old(q)
    {
      r := 0;
      while r < NUM
        invariant r <= NUM && q == old(q) && FirstFree(q.free, r) == FirstFree(q.free, 0)
      {
        if q.free[r] {
          q := q.(free := q.free[r := false]);
          return;
        }
        r := r + 1;
      }
    }

    /** free_desc; !ok is a panic. */
    method FreeDesc(i: nat) returns (ok: bool)
      requires Sized(q)
      modifies this`q
      ensures ok == FreedDesc(old(q), i).Some?
      ensures q == if ok then FreedDesc(old(q), i).value else old(q)
    {
      if i >= NUM || q.free[i] {
        return false;
      }
      q := q.(desc := q.desc[i := Zero()]);
      q := q.(free := q.free[i := true]);
      ok := true;
    }

    /** free_chain; !ok is a panic of free_desc. */
    method FreeChain(i: nat) returns (ok: bool)
      requires Sized(q)
      modifies this`q
      ensures ok == FreedChain(old(q), i).Some?
      ensures ok ==> q == FreedChain(old(q), i).value
    {
      var at: nat := i;
      while true
        invariant Sized(q) && FreedChain(q, at) == FreedChain(old(q), i)
        decreases InUse(q.free)
      {
        if at >= NUM {
          return false;
        }
        var d := q.desc[at];
        ghost var before := q;
        ok := FreeDesc(at);
        if !ok {
          return;
        }
        assert at in InUse(before.free) && at !in InUse(q.free);
        if !HasNext(d) {
          return;
        }
        at := d.next;
      }
      assert false;
    }

    /** alloc3_desc: all three or none. Descriptors that are free hold zeros. */
    method Alloc3Desc() returns (idx: seq<nat>, ok: bool)
      requires Sized(q) && forall i :: 0 <= i < NUM && q.free[i] ==> q.desc[i] == Zero()
      modifies this`q
      ensures ok == Three(old(q.free)).Some? && (!ok ==> q == old(q))
      ensures ok ==> var (i, j, k) := Three(old(q.free)).value;
        idx == [i, j, k] && q == old(q).(free := old(q.free)[i := false][j := false][k := false])
    {
      var i := AllocDesc();
      if i == NUM {
        return [], false;
      }
      var j := AllocDesc();
      FirstAfter(old(q.free), i);
      if j == NUM {
        ok := FreeDesc(i);
        Restored(old(q), i);
        return [], false;
      }
      ghost var q1 := q;
      var k := AllocDesc();
      SecondAfter(old(q.free), i, j);
      if k == NUM {
        ok := FreeDesc(i);
        ok := FreeDesc(j);
        Restored2(old(q), i, j);
        return [], false;
      }
      idx, ok := [i, j, k], true;
    }

    /** virtio_disk_rw up to its wait: none is the case that it has to sleep for descriptors. */
    method Submit(b: nat, write: bool) returns (h: Option<nat>)
      requires Sized(q) && b < |bufs| && forall i :: 0 <= i < NUM && q.free[i] ==> q.desc[i] == Zero()
      modifies this
      ensures h.Some? <==> Three(old(q.free)).Some?
      ensures h.None? ==> q == old(q) && bufs == old(bufs)
      ensures h.Some? ==> var (i, j, k) := Three(old(q.free)).value;
        && h.value == i && bufs == Marked(old(bufs), b, true)
        && q == Published(Ringed(Formatted(old(q), b, old(bufs)[b].blockno, write, i, j, k), i))
    {
      var idx, ok := Alloc3Desc();
      if !ok {
        return None;
      }
      var i, j, k := idx[0], idx[1], idx[2];
      q := q.(ops := q.ops[i := Header(if write then OUT else IN, SectorOf(bufs[b].blockno))]);
      q := q.(desc := q.desc[i := Desc(OpOf(i), 16, NEXT, j)]);
      q := q.(desc := q.desc[j := Desc(DataOf(b), BSIZE, if write then 0 else WRITE, 0)]);
      q := q.(desc := q.desc[j := q.desc[j].(flags := q.desc[j].flags + NEXT, next := k)]);
      q := q.(info := q.info[i := q.info[i].(status := 0xff)]);
      q := q.(desc := q.desc[k := Desc(StatusOf(i), 1, WRITE, 0)]);
      bufs := bufs[b := bufs[b].(busy := true)];
      q := q.(info := q.info[i := q.info[i].(b := Some(b))]);
      assert q == Formatted(old(q), b, old(bufs)[b].blockno, write, i, j, k);
      q := q.(ring := q.ring[q.idx % NUM := i]);
      q := q.(idx := Inc(q.idx));
      h := Some(i);
    }

    /** The end of virtio_disk_rw, once b->disk is 0. */
    method Finish(h: nat) returns (ok: bool)
      requires Sized(q) && h < NUM
      modifies this`q
      ensures ok == FreedChain(Dropped(old(q), h), h).Some?
      ensures ok ==> q == FreedChain(Dropped(old(q), h), h).value
    {
      q := q.(info := q.info[h := q.info[h].(b := None)]);
      ok := FreeChain(h);
    }

    /** virtio_disk_intr; !ok is a panic. */
    method Intr() returns (ok: bool)
      requires Sized(q)
      modifies this
      ensures ok == Drained(old(q), old(bufs)).Some?
      ensures ok ==> (q, bufs) == Drained(old(q), old(bufs)).value
      ensures ok <==> forall k :: 0 <= k < Lag(old(q)) ==> Completes(old(q), |old(bufs)|, IdAt(old(q), k))
      ensures ok ==> q == old(q).(seen := old(q.usedIdx)) && |bufs| == |old(bufs)|
      ensures ok ==> forall b :: 0 <= b < |bufs| ==>
        bufs[b] == if Finished(old(q), b) then old(bufs)[b].(busy := false) else old(bufs)[b]
    {
      DrainedMeans(q, bufs);
      while q.seen != q.usedIdx
        invariant Sized(q) && Drained(q, bufs) == Drained(old(q), old(bufs))
        decreases Lag(q)
      {
        var id := q.used[q.seen % NUM];
        if id >= NUM || q.info[id].status != 0 || q.info[id].b.None? || q.info[id].b.value >= |bufs| {
          return false;
        }
        LagFalls(q);
        var b := q.info[id].b.value;
        bufs := bufs[b := bufs[b].(busy := false)];
        q := q.(seen := Inc(q.seen));
      }
      ok := true;
    }
  }

  /** disk.info[h].b = 0. */
  function Dropped(q: Queue, h: nat): Queue
    requires Sized(q) && h < NUM
  {
    q.(info := q.info[h := q.info[h].(b := None)])
  }

  function InitQueue(ops: seq<Header>, info: seq<Info>): Queue
  {
    Queue(seq(NUM, i => Zero()), ops, seq(NUM, i => 0), 0, seq(NUM, i => 0), 0, seq(NUM, i => true), 0, info)
  }

  lemma {:induction false} FirstSkips(free: seq<bool>, free': seq<bool>, from: nat, i: nat)
    requires |free'| == |free| && from <= i <= |free| && (forall j :: from <= j < i ==> !free'[j])
    requires forall j :: i <= j < |free| ==> free'[j] == free[j]
    ensures FirstFree(free', from) == FirstFree(free, i)
    decreases |free| - from
  {
    if from < i {
      FirstSkips(free, free', from + 1, i);
    } else if i < |free| && !free[i] {
      FirstSkips(free, free', i + 1, i + 1);
    }
  }

  lemma FirstAfter(free: seq<bool>, i: nat)
    requires i == FirstFree(free, 0) < |free|
    ensures FirstFree(free[i := false], 0) == FirstFree(free, i + 1)
  {
    FirstSkips(free, free[i := false], 0, i + 1);
  }

  lemma SecondAfter(free: seq<bool>, i: nat, j: nat)
    requires i == FirstFree(free, 0) && i < |free| && j == FirstFree(free, i + 1) < |free|
    ensures FirstFree(free[i := false][j := false], 0) == FirstFree(free, j + 1)
  {
    FirstSkips(free, free[i := false][j := false], 0, j + 1);
  }

  lemma Restored2(q: Queue, i: nat, j: nat)
    requires Sized(q) && i < j < NUM && q.free[i] && q.free[j] && q.desc[i] == q.desc[j] == Zero()
    ensures q.free[i := false][j := false][i := true][j := true] == q.free
    ensures q.desc[i := Zero()][j := Zero()] == q.desc
  {
  }

  lemma Restored(q: Queue, i: nat)
    requires Sized(q) && i < NUM && q.free[i] && q.desc[i] == Zero()
    ensures FreedDesc(q.(free := q.free[i := false]), i) == Some(q)
  {
    assert q.free[i := false][i := true] == q.free && q.desc[i := Zero()] == q.desc;
  }

  // ---- Driver and device together ----

  /** The driver is idle (vdisk_lock may change hands), or in virtio_disk_rw before or after the write
      to the avail ring, holding vdisk_lock. */
  datatype Phase = Idle | Before(h: nat) | After(h: nat)

  /** The device: its place in the avail ring, requests it took and requests it carried out, the used
      entry it wrote without counting it yet, and the sectors. */
  datatype Device = Device(last: nat, taken: set<nat>, done: set<nat>, pushing: Option<nat>, sectors: seq<Sector>)

  /** callers: the processes inside virtio_disk_rw, by idx[0], with their buffer. */
  datatype System = System(q: Queue, bufs: seq<Buf>, callers: map<nat, nat>, phase: Phase, dev: Device)

  datatype Label =
    | Prepare(b: nat, write: bool)
    | PutRing
    | Publish
    | Interrupt                      // one round of virtio_disk_intr's loop
    | Release(h: nat)
    | Edit(b: nat, buf: Buf)         // the holder of the buffer, or the cache, changes it
    | DevTake
    | DevMove(h: nat, fails: bool)
    | DevPush(h: nat)
    | DevBump

  /** bread and bwrite call virtio_disk_rw for a buffer whose sleeplock they hold, and the cache has
      one buffer per block. */
  predicate MayCall(s: System, b: nat)
  {
    && b < |s.bufs| && !s.bufs[b].busy && s.bufs[b].blockno < 0x8000_0000
    && forall h :: h in s.callers ==>
         && s.callers[h] != b && s.callers[h] < |s.bufs|
         && s.bufs[s.callers[h]].blockno != s.bufs[b].blockno
  }

  /** The device carries out request h by following its descriptors. */
  function Carried(s: System, h: nat, fails: bool): Option<System>
    requires Sized(s.q)
  {
    var q := s.q;
    if h >= NUM || q.desc[h].next >= NUM || q.desc[q.desc[h].next].next >= NUM then None
    else
      var d0, d1, d2 := q.desc[h], q.desc[q.desc[h].next], q.desc[q.desc[q.desc[h].next].next];
      if !HasNext(d0) || !HasNext(d1) || HasNext(d2) || !d0.addr.OpOf? || !d1.addr.DataOf? || !d2.addr.StatusOf?
      then None
      else if d0.addr.i >= NUM || d1.addr.b >= |s.bufs| || d2.addr.i >= NUM then None
      else
        var op, b, at := q.ops[d0.addr.i], d1.addr.b, d2.addr.i;
        var moved := s.dev.(taken := s.dev.taken - {h}, done := s.dev.done + {h});
        if fails || d0.len != 16 || d1.len != BSIZE || d2.len != 1 || op.sector + 1 >= |s.dev.sectors|
           || DeviceWrites(d0) || !DeviceWrites(d2) || op.kind != (if DeviceWrites(d1) then IN else OUT)
        then Some(s.(dev := moved, q := q.(info := q.info[at := q.info[at].(status := 1)])))
        else
          var q' := q.(info := q.info[at := q.info[at].(status := 0)]);
          if op.kind == OUT
          then Some(s.(dev := moved.(sectors := s.dev.sectors[op.sector := s.bufs[b].data.lo]
                                                             [op.sector + 1 := s.bufs[b].data.hi]),
                       q := q'))
          else Some(s.(dev := moved, q := q',
                       bufs := s.bufs[b := s.bufs[b].(data := Data(s.dev.sectors[op.sector],
                                                                   s.dev.sectors[op.sector + 1]))]))
  }

  function Next(s: System, a: Label): Option<System>
    requires Sized(s.q)
  {
    var q := s.q;
    match a
    case Prepare(b, write) =>
      if s.phase != Idle || !MayCall(s, b) || Three(q.free).None? then None
      else
        var (i, j, k) := Three(q.free).value;
        Some(s.(q := Formatted(q, b, s.bufs[b].blockno, write, i, j, k), bufs := Marked(s.bufs, b, true),
                callers := s.callers[i := b], phase := Before(i)))
    case PutRing =>
      if s.phase.Before? then Some(s.(q := Ringed(q, s.phase.h), phase := After(s.phase.h))) else None
    case Publish =>
      if s.phase.After? then Some(s.(q := Published(q), phase := Idle)) else None
    case Interrupt =>
      if s.phase != Idle || q.seen == q.usedIdx || Completed(q, s.bufs).None? then None
      else Some(s.(q := Completed(q, s.bufs).value.0, bufs := Completed(q, s.bufs).value.1))
    case Release(h) =>
      if s.phase != Idle || h !in s.callers || h >= NUM || s.callers[h] >= |s.bufs| || s.bufs[s.callers[h]].busy
      then None
      else if FreedChain(Dropped(q, h), h).None? then None
      else Some(s.(q := FreedChain(Dropped(q, h), h).value, callers := s.callers - {h}))
    case Edit(b, buf) =>
      if b >= |s.bufs| || s.bufs[b].busy || buf.busy || b in s.callers.Values then None
      else Some(s.(bufs := s.bufs[b := buf]))
    case DevTake =>
      if s.dev.last == q.idx then None
      else Some(s.(dev := s.dev.(last := Inc(s.dev.last), taken := s.dev.taken + {q.ring[s.dev.last % NUM]})))
    case DevMove(h, fails) =>
      if h !in s.dev.taken then None else Carried(s, h, fails)
    case DevPush(h) =>
      if h !in s.dev.done || s.dev.pushing.Some? then None
      else Some(s.(q := q.(used := q.used[q.usedIdx % NUM := h]),
                   dev := s.dev.(done := s.dev.done - {h}, pushing := Some(h))))
    case DevBump =>
      if s.dev.pushing.None? then None
      else Some(s.(q := q.(usedIdx := Inc(q.usedIdx)), dev := s.dev.(pushing := None)))
  }

  ghost predicate Init(s: System)
  {
    && Sized(s.q) && s.q == InitQueue(s.q.ops, s.q.info) && s.callers == map[] && s.phase == Idle
    && s.dev == Device(0, {}, {}, None, s.dev.sectors) && forall b :: 0 <= b < |s.bufs| ==> !s.bufs[b].busy
  }

  ghost predicate Runs(s: System, acts: seq<Label>, s': System)
    decreases |acts|
  {
    if acts == [] then s' == s
    else Sized(s.q) && Next(s, acts[0]).Some? && Runs(Next(s, acts[0]).value, acts[1..], s')
  }

  ghost predicate Reachable(s: System)
  {
    exists s0, acts :: Init(s0) && Runs(s0, acts, s)
  }
}
