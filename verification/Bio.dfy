/** The buffer cache: a table of NBUF buffers on a doubly linked list ordered by how recently
    each buffer was released, over a disk that records every image it passes through. */
module Bio {
  import opened Blocks
  import opened Ring
  import opened CacheSpec

  /** The disk, and every image it went through, one per block write. */
  class Disk {
    var blocks: Image
    ghost var writes: seq<Image>

    constructor (image: Image)
      ensures blocks == image && writes == []
    {
      blocks, writes := image, [];
    }

    method Write(b: nat, v: Block)
      requires b < |blocks|
      modifies this
      ensures blocks == old(blocks)[b := v] && writes == old(writes) + [blocks]
    {
      blocks := blocks[b := v];
      writes := writes + [blocks];
    }
  }

  class BCache {
    var buf: array<Buf>
    var next: array<nat>
    var prev: array<nat>
    const disk: Disk
    ghost var order: seq<nat>

    ghost predicate Valid()
      reads this, buf, next, prev
    {
      && buf.Length == NBUF && next.Length == prev.Length == NBUF + 1 && next != prev
      && Linked(next[..], prev[..], HEAD, order) && |order| == NBUF
      && forall i: nat :: i < NBUF ==> i in order
    }

    ghost function Abs(): (c: Cache)
      reads this, buf, next, prev
      requires Valid()
      ensures Wf(c)
    {
      Cache(buf[..], order)
    }

    ghost function Repr(): set<object>
      reads this
    {
      {this, buf, next, prev}
    }

    /** binit: all buffers zero, the last one linked in first on the list. */
    constructor (disk: Disk)
      ensures Valid() && this.disk == disk && fresh(Repr())
      ensures forall i :: 0 <= i < NBUF ==> Abs().bufs[i] == Buf(false, 0, 0, 0, 0, Abs().bufs[i].data)
      ensures forall k :: 0 <= k < NBUF ==> Abs().order[k] == NBUF - 1 - k
    {
      this.disk := disk;
      var zero: Block := seq(BLOCKWORDS, i => 0);
      buf := new Buf[NBUF](i => Buf(false, 0, 0, 0, 0, zero));
      next := new nat[NBUF + 1](i => 0);
      prev := new nat[NBUF + 1](i => 0);
      order := [];
      new;
      next[HEAD], prev[HEAD] := HEAD, HEAD;
      for b: nat := 0 to NBUF
        invariant fresh(this) && fresh(buf) && fresh(next) && fresh(prev) && next != prev
        invariant next.Length == prev.Length == NBUF + 1 && buf.Length == NBUF
        invariant Linked(next[..], prev[..], HEAD, order) && |order| == b
        invariant forall k :: 0 <= k < b ==> order[k] == b - 1 - k
        invariant forall i :: 0 <= i < NBUF ==> buf[i] == Buf(false, 0, 0, 0, 0, zero)
      {
        LinkFront(b);
      }
      forall i: nat | i < NBUF ensures i in order {
        assert order[NBUF - 1 - i] == i;
      }
    }

    /** Links buffer b in right behind the list head. */
    method LinkFront(b: nat)
      requires next.Length == prev.Length && next != prev && b < next.Length && b != HEAD && b !in order
      requires Linked(next[..], prev[..], HEAD, order)
      modifies this`order, next, prev
      ensures order == [b] + old(order) && Linked(next[..], prev[..], HEAD, order)
    {
      PushFront(next[..], prev[..], HEAD, order, b);
      ghost var n: seq<nat>, p: seq<nat> := next[..], prev[..];
      next[b] := next[HEAD];
      prev[b] := HEAD;
      prev[next[HEAD]] := b;
      next[HEAD] := b;
      assert next[..] == n[b := n[HEAD]][HEAD := b];
      assert prev[..] == p[b := HEAD][n[HEAD] := b];
      order := [b] + order;
    }

    /** Takes buffer b, at position k, out of the list. */
    method UnlinkBuf(b: nat, ghost k: nat)
      requires next.Length == prev.Length && next != prev && k < |order| && order[k] == b
      requires b < next.Length && Linked(next[..], prev[..], HEAD, order)
      modifies this`order, next, prev
      ensures order == Remove(old(order), k) && Linked(next[..], prev[..], HEAD, order)
    {
      Unlink(next[..], prev[..], HEAD, order, k);
      ghost var n: seq<nat>, p: seq<nat> := next[..], prev[..];
      prev[next[b]] := prev[b];
      next[prev[b]] := next[b];
      assert next[..] == n[p[b] := n[b]];
      assert prev[..] == p[n[b] := p[b]];
      order := Remove(order, k);
    }

    /** The buffer that caches the block, found from the most recently used end; HEAD if none. */
    method Lookup(dev: nat, blockno: nat) returns (b: nat)
      requires Valid()
      ensures b <= NBUF
      ensures if Cached(Abs(), dev, blockno) then b < NBUF && Caches(buf[b], dev, blockno) else b == HEAD
    {
      ghost var c, n, p := Abs(), next[..], prev[..];
      b := next[HEAD];
      ghost var k := 0;
      Links(n, p, HEAD, c.order, 0);
      while b != HEAD && !Caches(buf[b], dev, blockno)
        invariant 0 <= k <= NBUF && b == Node(HEAD, c.order, k + 1)
        invariant NoneCaches(c, 0, k, dev, blockno)
        decreases NBUF - k
      {
        Links(n, p, HEAD, c.order, k + 1);
        assert c.order[k] == b && c.bufs[b] == buf[b] && next[b] == n[b];
        b, k := next[b], k + 1;
      }
      if b == HEAD {
        SawEveryBuffer(c, dev, blockno);
      } else {
        assert Caches(c.bufs[b], dev, blockno);
      }
    }

    /** The unreferenced buffer nearest to the least recently used end; HEAD if none. */
    method LeastRecentlyUsed() returns (b: nat)
      requires Valid()
      ensures b <= NBUF
      ensures if Spare(Abs()) then Victim(Abs(), b) else b == HEAD
    {
      ghost var c, n, p := Abs(), next[..], prev[..];
      ghost var k := NBUF;
      Links(n, p, HEAD, c.order, k);
      b := prev[HEAD];
      while b != HEAD
        invariant 0 <= k <= NBUF && b == Node(HEAD, c.order, k)
        invariant AllReferenced(c, k, NBUF)
        decreases k
      {
        assert c.order[k - 1] == b && c.bufs[b] == buf[b];
        if buf[b].refcnt == 0 {
          return;
        }
        Links(n, p, HEAD, c.order, k - 1);
        assert prev[b] == p[b];
        b, k := prev[b], k - 1;
      }
      SawNoSpare(c);
    }

    /** The part of bget under bcache.lock; None is the panic "bget: no buffers". */
    method Bget(dev: nat, blockno: nat) returns (r: Option<nat>)
      requires Valid()
      modifies buf
      ensures Valid()
      ensures r.None? <==> !old(Cached(Abs(), dev, blockno)) && !old(Spare(Abs()))
      ensures r.None? ==> Abs() == old(Abs())
      ensures r.Some? ==> old(Picks(Abs(), dev, blockno, r.value))
                          && Abs() == Got(old(Abs()), dev, blockno, r.value)
    {
      var b := Lookup(dev, blockno);
      if b != HEAD {
        buf[b] := buf[b].(refcnt := buf[b].refcnt + 1);
        return Some(b);
      }
      b := LeastRecentlyUsed();
      if b != HEAD {
        buf[b] := buf[b].(dev := dev, blockno := blockno, valid := false, refcnt := 1);
        return Some(b);
      }
      return None;
    }

    /** acquiresleep(&b->lock) once the lock is free; see module Proc for the waiting. */
    method AcquireSleep(b: nat, pid: nat)
      requires Valid() && b < NBUF && buf[b].pid == 0 && pid != 0
      modifies buf
      ensures Valid() && order == old(order)
      ensures Abs().bufs == old(Abs()).bufs[b := old(buf[b]).(pid := pid)]
    {
      buf[b] := buf[b].(pid := pid);
    }

    /** The holder changes b->data. */
    method SetData(b: nat, pid: nat, v: Block)
      requires Valid() && b < NBUF && buf[b].pid == pid != 0
      modifies buf
      ensures Valid() && order == old(order)
      ensures Abs().bufs == old(Abs()).bufs[b := old(buf[b]).(data := v)]
    {
      buf[b] := buf[b].(data := v);
    }

    /** virtio_disk_rw(b, 0); b->valid = 1. */
    method Fill(b: nat)
      requires Valid() && b < NBUF && buf[b].blockno < |disk.blocks|
      modifies buf
      ensures Valid() && order == old(order)
      ensures Abs().bufs ==
        old(Abs()).bufs[b := old(buf[b]).(data := disk.blocks[old(buf[b]).blockno], valid := true)]
    {
      buf[b] := buf[b].(data := disk.blocks[buf[b].blockno], valid := true);
    }

    /** Write b's contents to disk; !ok is the panic "bwrite". */
    method Bwrite(b: nat, pid: nat) returns (ok: bool)
      requires Valid() && b < NBUF && pid != 0 && buf[b].blockno < |disk.blocks|
      modifies disk
      ensures Valid() && Abs() == old(Abs())
      ensures ok <==> buf[b].pid == pid
      ensures ok ==> disk.blocks == old(disk.blocks)[buf[b].blockno := buf[b].data]
                     && disk.writes == old(disk.writes) + [disk.blocks]
      ensures !ok ==> disk.blocks == old(disk.blocks) && disk.writes == old(disk.writes)
    {
      ok := buf[b].pid == pid;
      if ok {
        disk.Write(buf[b].blockno, buf[b].data);
      }
    }

    /** Release a locked buffer, most recently used first; !ok is the panic "brelse". */
    method Brelse(b: nat, pid: nat) returns (ok: bool)
      requires Valid() && b < NBUF && pid != 0 && (buf[b].pid == pid ==> buf[b].refcnt > 0)
      modifies this`order, buf, next, prev
      ensures Valid()
      ensures ok <==> old(buf[b]).pid == pid
      ensures Abs() == if ok then Released(old(Abs()), b) else old(Abs())
    {
      ok := buf[b].pid == pid;
      if ok {
        ghost var c := Abs();
        buf[b] := buf[b].(pid := 0);
        buf[b] := buf[b].(refcnt := buf[b].refcnt - 1);
        if buf[b].refcnt == 0 {
          ReleasedWf(c, b);
          UnlinkBuf(b, Position(c, b));
          LinkFront(b);
        }
      }
    }

    method Bpin(b: nat)
      requires Valid() && b < NBUF
      modifies buf
      ensures Valid() && order == old(order)
      ensures Abs().bufs == old(Abs()).bufs[b := old(buf[b]).(refcnt := old(buf[b]).refcnt + 1)]
    {
      buf[b] := buf[b].(refcnt := buf[b].refcnt + 1);
    }

    method Bunpin(b: nat)
      requires Valid() && b < NBUF && buf[b].refcnt > 0
      modifies buf
      ensures Valid() && order == old(order)
      ensures Abs().bufs == old(Abs()).bufs[b := old(buf[b]).(refcnt := old(buf[b]).refcnt - 1)]
    {
      buf[b] := buf[b].(refcnt := buf[b].refcnt - 1);
    }

    /** bread, with the block's lock free; None is the panic of bget. */
    method Bread(blockno: nat, pid: nat) returns (r: Option<nat>)
      requires Valid() && Consistent(Abs(), disk.blocks) && blockno < |disk.blocks|
      requires pid != 0 && Holder(Abs(), blockno) == 0
      modifies buf
      ensures Valid()
      ensures r.None? <==> !old(Cached(Abs(), ROOTDEV, blockno)) && !old(Spare(Abs()))
      ensures r.None? ==> Abs() == old(Abs())
      ensures r.Some? ==> Reads(old(Abs()), disk.blocks, blockno, pid, r.value, Abs())
    {
      ghost var c := Abs();
      r := Bget(ROOTDEV, blockno);
      if r.Some? {
        var b := r.value;
        assert BufConsistent(c.bufs[b], disk.blocks);
        if Caches(c.bufs[b], ROOTDEV, blockno) {
          CarrierIs(c, b);
        }
        AcquireSleep(b, pid);
        if !buf[b].valid {
          Fill(b);
        }
      }
    }
  }
}
