/** fs.c: the block allocator and the file operations, over the blocks as the buffer cache shows
    them inside a transaction. */
module Fs {
  import opened Blocks
  import opened FsBlocks
  import opened FsSpec

  /** readi's and writei's results: a value, the error return -1, or the panic of balloc. */
  datatype Outcome<T> = Done(value: T) | Failed | OutOfBlocks

  class FileSystem {
    const sb: Super
    var disk: FsSpec.Disk
    var inodes: seq<Inode>
    ghost var owner: map<nat, Owner>

    ghost predicate Valid()
      reads this
    {
      Ok(sb, disk, inodes, owner, 0) && AllFilled(disk, inodes)
    }

    constructor (sb: Super, disk: FsSpec.Disk, inodes: seq<Inode>, ghost owner: map<nat, Owner>)
      requires Ok(sb, disk, inodes, owner, 0) && AllFilled(disk, inodes)
      ensures Valid() && this.sb == sb && this.disk == disk && this.inodes == inodes && this.owner == owner
    {
      this.sb, this.disk, this.inodes, this.owner := sb, disk, inodes, owner;
    }

    /** balloc: the first block whose bit is clear, now marked and zeroed; None is its panic. */
    method Balloc() returns (r: Option<nat>)
      requires Ok(sb, disk, inodes, owner, 0)
      modifies this`disk
      ensures r.None? ==> disk == old(disk) && forall c :: 0 <= c < sb.size ==> InUse(sb, disk, c)
      ensures r.Some? ==> r.value < sb.size && !InUse(sb, old(disk), r.value)
                          && disk == Marked(sb, old(disk), r.value)[r.value := Zeroed()]
      ensures r.Some? ==> forall c :: 0 <= c < r.value ==> InUse(sb, old(disk), c)
    {
      hide SlotOk, OwnerOk, BitOk, BitAt, SetBit;
      var b := 0;
      while b < sb.size
        invariant b % BPB == 0 && disk == old(disk) && b <= sb.size + BPB
        invariant forall c :: 0 <= c < b && c < sb.size ==> InUse(sb, disk, c)
        decreases sb.size - b
      {
        MapBlock(sb, disk, b);
        var bi := 0;
        while bi < BPB && b + bi < sb.size
          invariant 0 <= bi <= BPB && disk == old(disk)
          invariant forall c :: 0 <= c < b + bi && c < sb.size ==> InUse(sb, disk, c)
        {
          InMap(b, bi);
          MapBlock(sb, disk, b + bi);
          if !BitAt(disk[sb.bmapstart + b / BPB], bi) {
            disk := disk[sb.bmapstart + b / BPB := SetBit(disk[sb.bmapstart + b / BPB], bi)];
            disk := disk[b + bi := Zeroed()];
            return Some(b + bi);
          }
          bi := bi + 1;
        }
        b := b + BPB;
      }
      r := None;
    }

    lemma InMap(b: nat, bi: nat)
      requires b % BPB == 0 && bi < BPB
      ensures (b + bi) / BPB == b / BPB && (b + bi) % BPB == bi
    {
    }

    /** bfree; !ok is the panic "freeing free block". */
    method Bfree(b: nat) returns (ok: bool)
      requires Layout(sb, disk) && b < sb.size
      modifies this`disk
      ensures ok <==> InUse(sb, old(disk), b)
      ensures disk == if ok then Unmarked(sb, old(disk), b) else old(disk)
    {
      MapBlock(sb, disk, b);
      var m, bi := sb.bmapstart + b / BPB, b % BPB;
      if !BitAt(disk[m], bi) {
        return false;
      }
      disk := disk[m := ClearBit(disk[m], bi)];
      ok := true;
    }

    /** ip->addrs[s] = balloc(), for an empty slot. */
    method NewSlot(i: nat, s: nat) returns (r: Option<nat>)
      requires Ok(sb, disk, inodes, owner, 0) && i < |inodes| && s <= INDIRECT && inodes[i].addrs[s] == 0
      modifies this
      ensures Ok(sb, disk, inodes, owner, 0) && SameFiles(old(disk), old(inodes), disk, inodes)
      ensures OwnerGrows(old(owner), owner)
      ensures r.Some? ==> r.value != 0 && inodes[i].addrs[s] == r.value && r.value < |disk|
      ensures r.Some? ==> owner == old(owner)[r.value := Owner(i, s)]
      ensures r.None? ==> owner == old(owner) && Full(sb, disk)
    {
      ghost var d := disk;
      r := Balloc();
      if r.Some? {
        AllocOk(sb, d, inodes, owner, r.value, disk);
        AssignOk(sb, disk, inodes, owner, i, s, r.value);
        inodes := SetAddr(inodes, i, s, r.value);
        owner := owner[r.value := Owner(i, s)];
      }
    }

    /** a[j] = balloc() in the indirect block, for an empty entry. */
    method NewEntry(i: nat, j: nat) returns (r: Option<nat>)
      requires Ok(sb, disk, inodes, owner, 0) && i < |inodes| && j < NINDIRECT
      requires inodes[i].addrs[INDIRECT] != 0 && inodes[i].addrs[INDIRECT] < |disk|
      requires WordAt(disk[inodes[i].addrs[INDIRECT]], j) == 0
      modifies this
      ensures Ok(sb, disk, inodes, owner, 0) && SameFiles(old(disk), old(inodes), disk, inodes)
      ensures OwnerGrows(old(owner), owner)
      ensures r.Some? ==> r.value != 0 && Addr(disk, inodes[i], INDIRECT + 1 + j) == r.value && r.value < |disk|
      ensures r.Some? ==> owner == old(owner)[r.value := Owner(i, INDIRECT + 1 + j)]
      ensures r.None? ==> owner == old(owner) && Full(sb, disk)
    {
      ghost var d := disk;
      var a := inodes[i].addrs[INDIRECT];
      assert SlotOk(sb, disk, inodes, owner, i, INDIRECT) && Addr(disk, inodes[i], INDIRECT) == a;
      r := Balloc();
      if r.Some? {
        AllocOk(sb, d, inodes, owner, r.value, disk);
        ghost var d1 := disk;
        assert disk[a] == d[a] by { MapBlock(sb, d, r.value); }
        disk := disk[a := PutWord(disk[a], j, r.value)];
        AssignThroughOk(sb, d1, inodes, owner, i, j, r.value, disk);
        WordPut(d1[a], j, r.value, j);
        owner := owner[r.value := Owner(i, INDIRECT + 1 + j)];
      }
    }

    /** bmap: the address of file block bn, allocated if need be; no file looks different. OutOfBlocks
        is the panic of balloc, when no block is free, Failed the panic "bmap: out of range". */
    method Bmap(i: nat, bn: nat) returns (r: Outcome<nat>)
      requires Ok(sb, disk, inodes, owner, 0) && i < |inodes|
      modifies this
      ensures Ok(sb, disk, inodes, owner, 0) && SameFiles(old(disk), old(inodes), disk, inodes)
      ensures OwnerGrows(old(owner), owner) && (r.Failed? <==> bn >= MAXFILE)
      ensures r.Done? ==> r.value != 0 && r.value < |disk| && Addr(disk, inodes[i], SlotOf(bn)) == r.value
      ensures bn < MAXFILE && Addr(old(disk), old(inodes)[i], SlotOf(bn)) != 0 ==>
        r.Done? && disk == old(disk) && inodes == old(inodes) && owner == old(owner)
      ensures r.Done? && bn < 12 ==> r.value == inodes[i].addrs[bn]
      ensures r.Done? && bn >= 12 ==>
        inodes[i].addrs[12] < |disk| && r.value == WordAt(disk[inodes[i].addrs[12]], bn - 12)
      ensures r.OutOfBlocks? ==> Full(sb, disk)
      ensures forall b :: b in owner && b !in old(owner) ==> owner[b].i == i && owner[b].s in {SlotOf(bn), INDIRECT}
    {
      if bn < NDIRECT {
        assert SlotOk(sb, disk, inodes, owner, i, bn);
        var addr := inodes[i].addrs[bn];
        if addr == 0 {
          var o := NewSlot(i, bn);
          return if o.None? then OutOfBlocks else Done(o.value);
        }
        return Done(addr);
      }
      var j := bn - NDIRECT;
      if j >= NINDIRECT {
        return Failed;
      }
      assert SlotOk(sb, disk, inodes, owner, i, INDIRECT) && SlotOk(sb, disk, inodes, owner, i, SlotOf(bn));
      if inodes[i].addrs[INDIRECT] == 0 {
        var o := NewSlot(i, INDIRECT);
        if o.None? {
          return OutOfBlocks;
        }
      }
      assert SlotOk(sb, disk, inodes, owner, i, SlotOf(bn));
      var addr := WordAt(disk[inodes[i].addrs[INDIRECT]], j);
      if addr == 0 {
        var o := NewEntry(i, j);
        return if o.None? then OutOfBlocks else Done(o.value);
      }
      r := Done(addr);
    }

    /** One file's slot s (one of addrs) is freed and emptied. */
    method FreeSlot(i: nat, s: nat)
      requires Ok(sb, disk, inodes, owner, 0) && i < |inodes| && s <= INDIRECT && inodes[i].addrs[s] != 0
      requires s != INDIRECT
      modifies this
      ensures Ok(sb, disk, inodes, owner, 0) && inodes == SetAddr(old(inodes), i, s, 0)
      ensures owner == old(owner) - {old(inodes)[i].addrs[s]}
      ensures old(inodes)[i].addrs[s] in old(owner) && old(owner)[old(inodes)[i].addrs[s]] == Owner(i, s)
      ensures OthersSame(old(disk), old(inodes), disk, inodes, i)
    {
      ghost var d, b := disk, inodes[i].addrs[s];
      Owned(sb, disk, inodes, owner, i, s);
      var ok := Bfree(inodes[i].addrs[s]);
      FreeSlotOk(sb, d, inodes, owner, i, s, disk);
      inodes := SetAddr(inodes, i, s, 0);
      owner := owner - {b};
    }

    /** The loop of itrunc over the entries of the indirect block, whose words stay as they are: g is
        the disk with the words of the freed blocks cleared. */
    method FreeEntries(i: nat, a: nat) returns (ghost g: FsSpec.Disk)
      requires Ok(sb, disk, inodes, owner, 0) && i < |inodes| && a == inodes[i].addrs[INDIRECT] != 0 && a < |disk|
      modifies this`disk, this`owner
      ensures Ok(sb, g, inodes, owner, 0) && Ghostly(disk, g, a)
      ensures forall j :: 0 <= j < NINDIRECT ==> WordAt(g[a], j) == 0
      ensures Shrinks(old(owner), owner, i) && OthersSame(old(disk), inodes, g, inodes, i)
    {
      hide WordAt, PutWord, Unmarked, InUse;
      g := disk;
      assert SlotOk(sb, disk, inodes, owner, i, INDIRECT) && Addr(disk, inodes[i], INDIRECT) == a;
      for j := 0 to NINDIRECT
        invariant Ok(sb, g, inodes, owner, 0) && Ghostly(disk, g, a)
        invariant forall x :: 0 <= x < j ==> WordAt(g[a], x) == 0
        invariant forall x :: j <= x < NINDIRECT ==> WordAt(g[a], x) == WordAt(disk[a], x)
        invariant Shrinks(old(owner), owner, i) && OthersSame(old(disk), inodes, g, inodes, i)
      {
        var b := WordAt(disk[a], j);
        if b != 0 {
          assert SlotOk(sb, g, inodes, owner, i, INDIRECT) && Addr(g, inodes[i], INDIRECT + 1 + j) == b;
          Owned(sb, g, inodes, owner, i, INDIRECT + 1 + j);
          GhostBits(sb, disk, g, a, b);
          ghost var d := disk;
          var ok := Bfree(b);
          ghost var g' := Unmarked(sb, g, b)[a := PutWord(g[a], j, 0)];
          FreeThroughOk(sb, g, inodes, owner, i, j, b, g');
          forall x | 0 <= x < NINDIRECT ensures WordAt(g'[a], x) == if x == j then 0 else WordAt(g[a], x) {
            WordPut(g[a], j, 0, x);
          }
          g, owner := g', owner - {b};
        }
      }
    }

    /** The part of itrunc that deals with the indirect block. */
    method FreeIndirect(i: nat)
      requires Ok(sb, disk, inodes, owner, 0) && i < |inodes|
      modifies this
      ensures Ok(sb, disk, inodes, owner, 0) && inodes == SetAddr(old(inodes), i, INDIRECT, 0)
      ensures Shrinks(old(owner), owner, i) && OthersSame(old(disk), old(inodes), disk, inodes, i)
    {
      var a := inodes[i].addrs[INDIRECT];
      if a != 0 {
        assert SlotOk(sb, disk, inodes, owner, i, INDIRECT) && Addr(disk, inodes[i], INDIRECT) == a;
        ghost var g := FreeEntries(i, a);
        assert SlotOk(sb, g, inodes, owner, i, INDIRECT) && Addr(g, inodes[i], INDIRECT) == a;
        Owned(sb, g, inodes, owner, i, INDIRECT);
        GhostBits(sb, disk, g, a, a);
        var ok := Bfree(a);
        ghost var g' := Unmarked(sb, g, a);
        FreeSlotOk(sb, g, inodes, owner, i, INDIRECT, g');
        inodes := SetAddr(inodes, i, INDIRECT, 0);
        owner := owner - {a};
        LooseBlock(sb, g', inodes, owner, a, disk);
      } else {
        assert inodes[i].addrs[INDIRECT := 0] == inodes[i].addrs;
      }
    }

    /** itrunc: exactly the blocks of inode i are freed, its size is 0, and no other file changes. */
    method Itrunc(i: nat)
      requires Valid() && i < |inodes|
      modifies this
      ensures Valid() && |inodes| == |old(inodes)| && inodes[i] == Inode(seq(NDIRECT + 1, s => 0), 0)
      ensures forall b :: b in owner <==> b in old(owner) && old(owner)[b].i != i
      ensures forall b :: b in owner ==> owner[b] == old(owner)[b]
      ensures OthersSame(old(disk), old(inodes), disk, inodes, i)
    {
      for s := 0 to NDIRECT
        invariant Ok(sb, disk, inodes, owner, 0) && Shrinks(old(owner), owner, i)
        invariant OthersSame(old(disk), old(inodes), disk, inodes, i)
        invariant forall t :: 0 <= t < s ==> inodes[i].addrs[t] == 0
        invariant forall x :: 0 <= x < |inodes| && x != i ==> inodes[x] == old(inodes)[x]
      {
        if inodes[i].addrs[s] != 0 {
          FreeSlot(i, s);
        }
      }
      FreeIndirect(i);
      ghost var before := inodes;
      inodes := inodes[i := inodes[i].(size := 0)];
      SizeOk(sb, disk, before, owner, i, 0);
      Emptied(sb, disk, inodes, owner, i);
      assert inodes[i].addrs == seq(NDIRECT + 1, s => 0);
      forall x | 0 <= x < |inodes| ensures NoHoles(disk, inodes[x]) {
        if x != i { OthersHoles(sb, old(disk), old(inodes), old(owner), disk, inodes, owner, i, x); }
      }
    }

    /** Where readi's loop stands: nothing has changed. */
    ghost predicate Reading(d: FsSpec.Disk, nodes: seq<Inode>, own: map<nat, Owner>)
      reads this
    {
      Valid() && disk == d && inodes == nodes && owner == own
    }

    /** The data of one round of readi: at most left bytes from byte o of the file on. */
    method ReadChunk(i: nat, o: nat, left: nat, ghost d: FsSpec.Disk, ghost nodes: seq<Inode>,
                     ghost own: map<nat, Owner>)
        returns (bytes: seq<Byte>)
      requires Reading(d, nodes, own) && i < |nodes| && NoHoles(d, nodes[i])
      requires o < nodes[i].size && left > 0 && o + left <= FILEBYTES
      modifies this
      ensures Reading(d, nodes, own) && 0 < |bytes| <= left && ReadSoFar(d, nodes[i], o, bytes)
    {
      NoHoleAt(disk, inodes[i], o);
      var b := Bmap(i, o / BSIZE);
      var m := ChunkLen(o, left);
      bytes := disk[b.value][o % BSIZE..o % BSIZE + m];
      SliceInBlock(disk, inodes[i], o, m);
    }

    /** readi's loop: left bytes from off on, all below the size; !ok when the destination faults. */
    method ReadLoop(i: nat, off: nat, left: nat, room: nat, ghost d: FsSpec.Disk, ghost nodes: seq<Inode>,
                    ghost own: map<nat, Owner>)
        returns (dst: seq<Byte>, ok: bool)
      requires Reading(d, nodes, own) && i < |nodes| && NoHoles(d, nodes[i]) && off + left <= nodes[i].size
      modifies this
      ensures Reading(d, nodes, own) && (ok <==> left <= room)
      ensures ok ==> |dst| == left && ReadSoFar(d, nodes[i], off, dst)
    {
      assert |nodes[i].addrs| == NDIRECT + 1 && nodes[i].size <= FILEBYTES;
      hide *;
      var tot: nat := 0;
      dst := [];
      ReadMore(d, nodes[i], off, [], []);
      while tot < left
        invariant tot <= left && tot <= room && tot == |dst| && ReadSoFar(d, nodes[i], off, dst)
        invariant Reading(d, nodes, own)
      {
        var bytes := ReadChunk(i, off + tot, left - tot, d, nodes, own);
        if tot + |bytes| > room {
          return dst, false;
        }
        ReadMore(d, nodes[i], off, dst, bytes);
        dst := dst + bytes;
        tot := tot + |bytes|;
      }
      ok := true;
    }

    /** readi: up to n bytes from off on, cut at the end of the file; the destination takes room bytes
        before it faults. */
    method Readi(i: nat, off: nat, n: nat, room: nat) returns (r: Outcome<seq<Byte>>)
      requires Valid() && i < |inodes| && off < 0x1_0000_0000 && n < 0x1_0000_0000
      modifies this
      ensures disk == old(disk) && inodes == old(inodes) && owner == old(owner)
      ensures NoHoles(disk, inodes[i]) && r == ReadResult(disk, inodes[i], off, n, room)
      ensures off > inodes[i].size || off + n >= 0x1_0000_0000 ==> r == Done([])
      ensures off <= inodes[i].size && off + n < 0x1_0000_0000 ==>
        && r != OutOfBlocks
        && (r.Failed? <==> (if off + n > inodes[i].size then inodes[i].size - off else n) > room)
        && (r.Done? ==> if off + n > inodes[i].size then off + |r.value| == inodes[i].size else |r.value| == n)
      ensures r.Done? ==> forall o :: off <= o < off + |r.value| ==>
        o < FILEBYTES && r.value[o - off] == ByteOf(disk, inodes[i], o)
    {
      hide Ok, Slice;
      assert NoHoles(disk, inodes[i]);
      if off > inodes[i].size || off + n >= 0x1_0000_0000 {
        return Done([]);
      }
      var left := n;
      if off + n > inodes[i].size {
        left := inodes[i].size - off;
      }
      var dst, ok := ReadLoop(i, off, left, room, disk, inodes, owner);
      r := if ok then Done(dst) else Failed;
      if ok { SliceBytes(disk, inodes[i], off, left); }
    }

    /** One round of writei's loop: m bytes to file block bn at offset at. */
    method WriteChunk(i: nat, bn: nat, at: nat, bytes: seq<Byte>) returns (ok: bool)
      requires Ok(sb, disk, inodes, owner, 0) && i < |inodes| && bn < MAXFILE && at + |bytes| <= BSIZE
      modifies this
      ensures Ok(sb, disk, inodes, owner, 0) && OwnerGrows(old(owner), owner)
      ensures OthersSame(old(disk), old(inodes), disk, inodes, i) && inodes[i].size == old(inodes)[i].size
      ensures !ok ==> SameFile(old(disk), old(inodes)[i], disk, inodes[i]) && Full(sb, disk)
      ensures ok ==> Addr(disk, inodes[i], SlotOf(bn)) != 0
      ensures ok ==> BlockWritten(old(disk), old(inodes)[i], disk, inodes[i], bn, at, bytes)
    {
      var b := Bmap(i, bn);
      if !b.Done? {
        return false;
      }
      ghost var d := disk;
      assert FileBlock(disk, inodes[i], bn) == disk[b.value];
      disk := disk[b.value := Spliced(disk[b.value], at, bytes)];
      WriteOk(sb, d, inodes, owner, i, bn, disk[b.value], disk);
      assert SlotOk(sb, disk, inodes, owner, i, SlotOf(bn)) && SlotOk(sb, d, inodes, owner, i, SlotOf(bn));
      WriteKeepsSlot(sb, d, inodes, owner, i, bn, disk);
      ok := true;
    }

    /** Where writei's loop stands after tot bytes. */
    ghost predicate Writing(d: FsSpec.Disk, nodes: seq<Inode>, own: map<nat, Owner>, i: nat, off: nat, src: seq<Byte>)
      reads this
    {
      && Ok(sb, disk, inodes, owner, 0) && OwnerGrows(own, owner) && i < |nodes|
      && OthersSame(d, nodes, disk, inodes, i) && inodes[i].size == nodes[i].size
      && Written(d, nodes[i], disk, inodes[i], off, src) && Filled(disk, inodes[i], off + |src|)
    }

    /** A round of writei's loop that copies src[tot..to], all in one block. */
    method WriteNext(i: nat, off: nat, src: seq<Byte>, tot: nat, to: nat,
                     ghost d: FsSpec.Disk, ghost nodes: seq<Inode>, ghost own: map<nat, Owner>) returns (ok: bool)
      requires tot <= to <= |src| && off + to <= FILEBYTES && Writing(d, nodes, own, i, off, src[..tot])
      requires tot < |src| && off + tot < FILEBYTES && (off + tot) % BSIZE + (to - tot) <= BSIZE
      modifies this
      ensures Writing(d, nodes, own, i, off, src[..if ok then to else tot]) && (!ok ==> Full(sb, disk))
    {
      ghost var d1, is1, own1 := disk, inodes, owner;
      InFile(off + tot);
      ok := WriteChunk(i, (off + tot) / BSIZE, (off + tot) % BSIZE, src[tot..to]);
      if ok {
        WrittenMore(d, nodes[i], d1, is1[i], disk, inodes[i], off, src, tot, to);
      } else {
        WrittenSame(d, nodes[i], d1, is1[i], disk, inodes[i], off, src[..tot]);
      }
      FilledMore(sb, d1, is1, own1, disk, inodes, owner, i, off + tot, if ok then off + to else off + tot);
    }

    /** writei: src goes to the flat array of the file from off on. The source can be read for `good`
        bytes before it faults. tot counts the bytes of the chunks that were written completely. What
        was copied of the chunk that faults is in a buffer that is released without log_write: `kept`
        says whether the buffer is still there (or logged before) when the block is looked at again. */
    method Writei(i: nat, off: nat, src: seq<Byte>, good: nat, kept: bool) returns (r: Outcome<nat>, ghost tot: nat)
      requires Valid() && i < |inodes| && off < 0x1_0000_0000 && |src| < 0x1_0000_0000
      modifies this
      ensures Valid() && tot <= |src| && OwnerGrows(old(owner), owner)
      ensures OthersSame(old(disk), old(inodes), disk, inodes, i)
      ensures Refused(old(inodes)[i].size, off, |src|) ==> r == Failed && disk == old(disk) && inodes == old(inodes)
      ensures !Refused(old(inodes)[i].size, off, |src|) ==>
        && (r.Done? ==> r.value == tot == |src|) && (r.Failed? ==> tot <= good < |src|)
        && (good >= |src| ==> !r.Failed?) && (r.OutOfBlocks? ==> Full(sb, disk))
        && (r.Failed? ==> (tot == 0 || (off + tot) % BSIZE == 0) && good - tot < BSIZE - (off + tot) % BSIZE)
        && Written(old(disk), old(inodes)[i], disk, inodes[i], off, src[..if r.Failed? && kept then good else tot])
        && inodes[i].size == (if r.OutOfBlocks? || off + tot <= old(inodes)[i].size
                              then old(inodes)[i].size else off + tot)
    {
      hide Ok, SlotOk, Written, Filled;
      tot := 0;
      if off > inodes[i].size || off + |src| >= 0x1_0000_0000 {
        return Failed, 0;
      }
      if off + |src| > FILEBYTES {
        return Failed, 0;
      }
      ghost var d, nodes, own := disk, inodes, owner;
      WritesNothing(sb, disk, inodes, owner, i, off);
      assert src[..0] == [];
      var done, failed := 0, false;
      while done < |src|
        invariant done <= |src| && done <= good && tot == done && Writing(d, nodes, own, i, off, src[..done])
        invariant done == 0 || done == |src| || (off + done) % BSIZE == 0
        decreases |src| - done
      {
        var o := off + done;
        var m := ChunkLen(o, |src| - done);
        failed := done + m > good;
        var to := if !failed then done + m else if kept then good else done;
        var ok := WriteNext(i, off, src, done, to, d, nodes, own);
        if !ok {
          FinishWrite(sb, d, nodes, own, disk, inodes, owner, i, off, src[..done], nodes[i].size);
          return OutOfBlocks, done;
        }
        if failed {
          break;
        }
        done, tot := done + m, done + m;
      }
      ghost var before, w := inodes, if failed && kept then good else done;
      if off + done > inodes[i].size {
        inodes := inodes[i := inodes[i].(size := off + done)];
      }
      FinishWrite(sb, d, nodes, own, disk, before, owner, i, off, src[..w], inodes[i].size);
      assert inodes == before[i := before[i].(size := inodes[i].size)];
      r := if failed then Failed else Done(|src|);
    }
  }

  /** No block is free. */
  ghost predicate Full(sb: Super, disk: FsSpec.Disk)
  {
    Layout(sb, disk) && forall c :: 0 <= c < sb.size ==> InUse(sb, disk, c)
  }

  /** writei's own checks. */
  predicate Refused(size: nat, off: nat, n: nat)
  {
    off > size || off + n >= 0x1_0000_0000 || off + n > FILEBYTES
  }

  /** The block in a slot is marked in use. */
  lemma Owned(sb: Super, disk: FsSpec.Disk, inodes: seq<Inode>, owner: map<nat, Owner>, i: nat, s: nat)
    requires Ok(sb, disk, inodes, owner, 0) && i < |inodes| && s < SLOTS && Addr(disk, inodes[i], s) != 0
    ensures Addr(disk, inodes[i], s) < sb.size && InUse(sb, disk, Addr(disk, inodes[i], s))
  {
    assert SlotOk(sb, disk, inodes, owner, i, s) && BitOk(sb, disk, owner, 0, Addr(disk, inodes[i], s));
  }

  /** No block of the file below its size is missing. */
  ghost predicate NoHoles(disk: FsSpec.Disk, ino: Inode)
  {
    && |ino.addrs| == NDIRECT + 1 && ino.size <= FILEBYTES
    && forall bn :: 0 <= bn < MAXFILE && bn * BSIZE < ino.size ==> Addr(disk, ino, SlotOf(bn)) != 0
  }

  ghost predicate AllFilled(disk: FsSpec.Disk, inodes: seq<Inode>)
  {
    forall i :: 0 <= i < |inodes| ==> NoHoles(disk, inodes[i])
  }

  /** All files have the same flat arrays and sizes. */
  ghost predicate SameFiles(disk: FsSpec.Disk, inodes: seq<Inode>, disk': FsSpec.Disk, inodes': seq<Inode>)
  {
    && |disk'| == |disk| && |inodes'| == |inodes|
    && forall x :: 0 <= x < |inodes| ==>
         inodes'[x].size == inodes[x].size && SameFile(disk, inodes[x], disk', inodes'[x])
  }

  ghost predicate OthersSame(disk: FsSpec.Disk, inodes: seq<Inode>, disk': FsSpec.Disk, inodes': seq<Inode>, i: nat)
  {
    && |disk'| == |disk| && |inodes'| == |inodes|
    && forall x :: 0 <= x < |inodes| && x != i ==>
         inodes'[x].size == inodes[x].size && SameFile(disk, inodes[x], disk', inodes'[x])
  }

  /** No block lost its owner. */
  ghost predicate OwnerGrows(owner: map<nat, Owner>, owner': map<nat, Owner>)
  {
    forall b :: b in owner ==> b in owner' && owner'[b] == owner[b]
  }

  /** A slot's block stays in the slot as long as its owner does. */
  lemma SlotKept(sb: Super, disk: FsSpec.Disk, inodes: seq<Inode>, owner: map<nat, Owner>,
                 disk': FsSpec.Disk, inodes': seq<Inode>, owner': map<nat, Owner>, x: nat, t: nat)
    requires Ok(sb, disk, inodes, owner, 0) && Ok(sb, disk', inodes', owner', 0) && |inodes'| == |inodes|
    requires x < |inodes| && t < SLOTS && OwnerGrows(owner, owner')
    ensures Addr(disk, inodes[x], t) != 0 ==> Addr(disk', inodes'[x], t) == Addr(disk, inodes[x], t)
  {
    var b := Addr(disk, inodes[x], t);
    assert SlotOk(sb, disk, inodes, owner, x, t);
    if b != 0 { assert OwnerOk(sb, disk', inodes', owner', b); }
  }

  lemma HolesKept(sb: Super, disk: FsSpec.Disk, inodes: seq<Inode>, owner: map<nat, Owner>,
                  disk': FsSpec.Disk, inodes': seq<Inode>, owner': map<nat, Owner>, x: nat)
    requires Ok(sb, disk, inodes, owner, 0) && Ok(sb, disk', inodes', owner', 0) && |inodes'| == |inodes|
    requires x < |inodes| && OwnerGrows(owner, owner') && NoHoles(disk, inodes[x]) && inodes'[x].size == inodes[x].size
    ensures NoHoles(disk', inodes'[x])
  {
    forall bn | 0 <= bn < MAXFILE && bn * BSIZE < inodes[x].size ensures Addr(disk', inodes'[x], SlotOf(bn)) != 0 {
      SlotKept(sb, disk, inodes, owner, disk', inodes', owner', x, SlotOf(bn));
    }
  }

  /** Inode i's blocks may have lost their owner, others not. */
  ghost predicate Shrinks(owner: map<nat, Owner>, owner': map<nat, Owner>, i: nat)
  {
    && (forall b :: b in owner' ==> b in owner && owner'[b] == owner[b])
    && forall b :: b in owner && owner[b].i != i ==> b in owner'
  }

  /** Two disks differ in block a at most. */
  ghost predicate Ghostly(disk: FsSpec.Disk, g: FsSpec.Disk, a: nat)
  {
    |g| == |disk| && a < |disk| && forall c :: 0 <= c < |disk| && c != a ==> g[c] == disk[c]
  }

  /** Disks that differ in a data block have the same free map. */
  lemma GhostBits(sb: Super, disk: FsSpec.Disk, g: FsSpec.Disk, a: nat, b: nat)
    requires Layout(sb, g) && Ghostly(disk, g, a) && a >= sb.nmeta && b < sb.size
    ensures Layout(sb, disk) && (InUse(sb, disk, b) <==> InUse(sb, g, b))
    ensures InUse(sb, g, b) ==> Ghostly(Unmarked(sb, disk, b), Unmarked(sb, g, b), a)
    ensures InUse(sb, g, b) ==> Unmarked(sb, disk, b)[a] == disk[a]
                                && Unmarked(sb, g, b)[a] == g[a]
  {
    MapBlock(sb, g, b);
  }

  /** The size of an inode has no part in who owns what. */
  lemma SizeOk(sb: Super, disk: FsSpec.Disk, inodes: seq<Inode>, owner: map<nat, Owner>, i: nat, size: nat)
    requires Ok(sb, disk, inodes, owner, 0) && i < |inodes|
    ensures Ok(sb, disk, inodes[i := inodes[i].(size := size)], owner, 0)
    ensures SameFile(disk, inodes[i], disk, inodes[i].(size := size))
  {
    var inodes' := inodes[i := inodes[i].(size := size)];
    forall x, t | 0 <= x < |inodes| && 0 <= t < SLOTS ensures SlotOk(sb, disk, inodes', owner, x, t) {
      assert SlotOk(sb, disk, inodes, owner, x, t);
    }
    forall b | b in owner ensures OwnerOk(sb, disk, inodes', owner, b) {
      assert OwnerOk(sb, disk, inodes, owner, b);
    }
  }

  /** An inode without blocks owns none. */
  lemma Emptied(sb: Super, disk: FsSpec.Disk, inodes: seq<Inode>, owner: map<nat, Owner>, i: nat)
    requires Ok(sb, disk, inodes, owner, 0) && i < |inodes|
    requires forall t :: 0 <= t <= INDIRECT ==> inodes[i].addrs[t] == 0
    ensures forall b :: b in owner ==> owner[b].i != i
  {
    forall b | b in owner ensures owner[b].i != i {
      assert OwnerOk(sb, disk, inodes, owner, b);
    }
  }

  /** Files that keep their owners keep their blocks. */
  lemma OthersHoles(sb: Super, disk: FsSpec.Disk, inodes: seq<Inode>, owner: map<nat, Owner>,
                    disk': FsSpec.Disk, inodes': seq<Inode>, owner': map<nat, Owner>, i: nat, x: nat)
    requires Ok(sb, disk, inodes, owner, 0) && Ok(sb, disk', inodes', owner', 0) && |inodes'| == |inodes|
    requires x < |inodes| && x != i && NoHoles(disk, inodes[x]) && inodes'[x].size == inodes[x].size
    requires forall b :: b in owner && owner[b].i != i ==> b in owner' && owner'[b] == owner[b]
    ensures NoHoles(disk', inodes'[x])
  {
    forall bn | 0 <= bn < MAXFILE && bn * BSIZE < inodes[x].size ensures Addr(disk', inodes'[x], SlotOf(bn)) != 0 {
      assert SlotOk(sb, disk, inodes, owner, x, SlotOf(bn));
      assert OwnerOk(sb, disk', inodes', owner', Addr(disk, inodes[x], SlotOf(bn)));
    }
  }

  /** min(left, BSIZE - off % BSIZE). */
  function ChunkLen(o: nat, left: nat): (m: nat)
    ensures m <= left && o % BSIZE + m <= BSIZE && (left > 0 ==> m > 0)
  {
    if left < BSIZE - o % BSIZE then left else BSIZE - o % BSIZE
  }

  /** What readi returns. */
  function ReadResult(disk: FsSpec.Disk, ino: Inode, off: nat, n: nat, room: nat): Outcome<seq<Byte>>
    requires |ino.addrs| == NDIRECT + 1 && ino.size <= FILEBYTES
  {
    if off > ino.size || off + n >= 0x1_0000_0000 then Done([])
    else if Rest(ino.size, off, n) > room then Failed
    else Done(Slice(disk, ino, off, Rest(ino.size, off, n)))
  }

  /** How many of n bytes from off on the file has. */
  function Rest(size: nat, off: nat, n: nat): nat
    requires off <= size
  {
    if off + n > size then size - off else n
  }

  /** n bytes of the flat array from off on. */
  function Slice(disk: FsSpec.Disk, ino: Inode, off: nat, n: nat): (r: seq<Byte>)
    requires |ino.addrs| == NDIRECT + 1 && off + n <= FILEBYTES
    ensures |r| == n
  {
    if n == 0 then [] else Slice(disk, ino, off, n - 1) + [ByteOf(disk, ino, off + n - 1)]
  }

  lemma InFile(o: nat)
    requires o < FILEBYTES
    ensures o / BSIZE < MAXFILE && o / BSIZE * BSIZE <= o
  {
  }

  lemma InBlock(o: nat, k: nat)
    requires o <= k < o - o % BSIZE + BSIZE
    ensures k / BSIZE == o / BSIZE && k % BSIZE == o % BSIZE + (k - o)
  {
  }

  lemma {:induction false} SliceAt(disk: FsSpec.Disk, ino: Inode, off: nat, n: nat, k: nat)
    requires |ino.addrs| == NDIRECT + 1 && off + n <= FILEBYTES && k < n
    ensures Slice(disk, ino, off, n)[k] == ByteOf(disk, ino, off + k)
  {
    if k < n - 1 {
      SliceAt(disk, ino, off, n - 1, k);
    }
  }

  lemma SliceBytes(disk: FsSpec.Disk, ino: Inode, off: nat, n: nat)
    requires |ino.addrs| == NDIRECT + 1 && off + n <= FILEBYTES
    ensures forall o :: off <= o < off + n ==> Slice(disk, ino, off, n)[o - off] == ByteOf(disk, ino, o)
  {
    hide Slice, ByteOf;
    forall o | off <= o < off + n ensures Slice(disk, ino, off, n)[o - off] == ByteOf(disk, ino, o) {
      SliceAt(disk, ino, off, n, o - off);
    }
  }

  lemma SliceInBlock(disk: FsSpec.Disk, ino: Inode, o: nat, m: nat)
    requires |ino.addrs| == NDIRECT + 1 && o + m <= FILEBYTES && o % BSIZE + m <= BSIZE && o / BSIZE < MAXFILE
    ensures Slice(disk, ino, o, m) == FileBlock(disk, ino, o / BSIZE)[o % BSIZE..o % BSIZE + m]
  {
    var r := Slice(disk, ino, o, m);
    forall k | 0 <= k < m ensures r[k] == FileBlock(disk, ino, o / BSIZE)[o % BSIZE + k] {
      InBlock(o, o + k);
      SliceAt(disk, ino, o, m, k);
    }
  }

  lemma {:induction false} SliceJoin(disk: FsSpec.Disk, ino: Inode, off: nat, n: nat, m: nat)
    requires |ino.addrs| == NDIRECT + 1 && off + n + m <= FILEBYTES
    ensures Slice(disk, ino, off, n + m) == Slice(disk, ino, off, n) + Slice(disk, ino, off + n, m)
  {
    if m > 0 {
      SliceJoin(disk, ino, off, n, m - 1);
    }
  }

  /** The bytes of a file from off on. */
  predicate ReadSoFar(disk: FsSpec.Disk, ino: Inode, off: nat, bytes: seq<Byte>)
  {
    |ino.addrs| == NDIRECT + 1 && off + |bytes| <= FILEBYTES && bytes == Slice(disk, ino, off, |bytes|)
  }

  lemma ReadMore(disk: FsSpec.Disk, ino: Inode, off: nat, dst: seq<Byte>, bytes: seq<Byte>)
    requires |ino.addrs| == NDIRECT + 1 && off + |dst| + |bytes| <= FILEBYTES
    requires dst == [] || ReadSoFar(disk, ino, off, dst)
    requires bytes == [] || ReadSoFar(disk, ino, off + |dst|, bytes)
    ensures ReadSoFar(disk, ino, off, dst + bytes)
  {
    hide ByteOf;
    SliceJoin(disk, ino, off, |dst|, |bytes|);
  }

  /** A block with bytes copied to offset at. */
  function Spliced(b: Bytes, at: nat, bytes: seq<Byte>): (r: Bytes)
    requires at + |bytes| <= BSIZE
    ensures forall k :: 0 <= k < BSIZE ==> r[k] == if at <= k < at + |bytes| then bytes[k - at] else b[k]
  {
    var s: seq<Byte> := b[..at] + bytes + b[at + |bytes|..];
    s
  }

  lemma WriteKeepsSlot(sb: Super, disk: FsSpec.Disk, inodes: seq<Inode>, owner: map<nat, Owner>, i: nat, bn: nat,
                       disk': FsSpec.Disk)
    requires Ok(sb, disk, inodes, owner, 0) && Ok(sb, disk', inodes, owner, 0) && i < |inodes| && bn < MAXFILE
    requires Addr(disk, inodes[i], SlotOf(bn)) != 0
    ensures Addr(disk', inodes[i], SlotOf(bn)) != 0
  {
    assert SlotOk(sb, disk, inodes, owner, i, SlotOf(bn));
    assert OwnerOk(sb, disk', inodes, owner, Addr(disk, inodes[i], SlotOf(bn)));
  }

  /** The flat array changed to src from off on, and nowhere else. */
  ghost predicate Written(disk: FsSpec.Disk, ino: Inode, disk': FsSpec.Disk, ino': Inode, off: nat, src: seq<Byte>)
  {
    && |ino.addrs| == |ino'.addrs| == NDIRECT + 1
    && forall k :: 0 <= k < FILEBYTES ==> WrittenAt(disk, ino, disk', ino', off, src, k)
  }

  predicate WrittenAt(disk: FsSpec.Disk, ino: Inode, disk': FsSpec.Disk, ino': Inode, off: nat, src: seq<Byte>, k: nat)
    requires |ino.addrs| == |ino'.addrs| == NDIRECT + 1 && k < FILEBYTES
  {
    ByteOf(disk', ino', k) == if off <= k < off + |src| then src[k - off] else ByteOf(disk, ino, k)
  }

  /** Block bn of the file got bytes at offset at; the other blocks are as before. */
  ghost predicate BlockWritten(disk: FsSpec.Disk, ino: Inode, disk': FsSpec.Disk, ino': Inode, bn: nat, at: nat,
                               bytes: seq<Byte>)
    requires bn < MAXFILE && at + |bytes| <= BSIZE
  {
    && |ino.addrs| == |ino'.addrs| == NDIRECT + 1 && Addr(disk', ino', SlotOf(bn)) != 0
    && forall n :: 0 <= n < MAXFILE ==>
         FileBlock(disk', ino', n)
         == if n == bn then Spliced(FileBlock(disk, ino, bn), at, bytes) else FileBlock(disk, ino, n)
  }

  /** Every block of the file below byte `to` is there. */
  ghost predicate Filled(disk: FsSpec.Disk, ino: Inode, to: nat)
  {
    |ino.addrs| == NDIRECT + 1 && forall bn :: 0 <= bn < MAXFILE && bn * BSIZE < to ==> Addr(disk, ino, SlotOf(bn)) != 0
  }

  lemma WrittenMore(d: FsSpec.Disk, ino: Inode, d1: FsSpec.Disk, ino1: Inode, d2: FsSpec.Disk, ino2: Inode,
                    off: nat, src: seq<Byte>, tot: nat, to: nat)
    requires tot <= to <= |src| && off + tot < FILEBYTES && (off + tot) % BSIZE + (to - tot) <= BSIZE
    requires Written(d, ino, d1, ino1, off, src[..tot]) && (off + tot) / BSIZE < MAXFILE
    requires BlockWritten(d1, ino1, d2, ino2, (off + tot) / BSIZE, (off + tot) % BSIZE, src[tot..to])
    ensures Written(d, ino, d2, ino2, off, src[..to])
  {
    forall k | 0 <= k < FILEBYTES ensures WrittenAt(d, ino, d2, ino2, off, src[..to], k) {
      ByteWritten(d, ino, d1, ino1, d2, ino2, off, src, tot, to, k);
    }
  }

  lemma ByteWritten(d: FsSpec.Disk, ino: Inode, d1: FsSpec.Disk, ino1: Inode, d2: FsSpec.Disk, ino2: Inode,
                    off: nat, src: seq<Byte>, tot: nat, to: nat, k: nat)
    requires tot <= to <= |src| && off + tot < FILEBYTES && (off + tot) % BSIZE + (to - tot) <= BSIZE
    requires |ino.addrs| == |ino1.addrs| == NDIRECT + 1 && (off + tot) / BSIZE < MAXFILE
    requires k < FILEBYTES && WrittenAt(d, ino, d1, ino1, off, src[..tot], k)
    requires BlockWritten(d1, ino1, d2, ino2, (off + tot) / BSIZE, (off + tot) % BSIZE, src[tot..to])
    ensures WrittenAt(d, ino, d2, ino2, off, src[..to], k)
  {
    hide Spliced, FileBlock, Addr, SlotOf;
    var bn, at, bytes := (off + tot) / BSIZE, (off + tot) % BSIZE, src[tot..to];
    InFile(k);
    SameBlock(off + tot, to - tot, k);
    if k / BSIZE == bn {
      assert ByteOf(d2, ino2, k) == Spliced(FileBlock(d1, ino1, bn), at, bytes)[k % BSIZE];
      if off + tot <= k < off + to {
        assert ByteOf(d2, ino2, k) == bytes[k - (off + tot)] == src[k - off];
      } else {
        assert ByteOf(d2, ino2, k) == FileBlock(d1, ino1, bn)[k % BSIZE] == ByteOf(d1, ino1, k);
      }
    } else {
      assert ByteOf(d2, ino2, k) == ByteOf(d1, ino1, k);
    }
  }

  /** Which bytes of the flat array lie in the part of a block that starts at byte o. */
  lemma SameBlock(o: nat, n: nat, k: nat)
    requires o % BSIZE + n <= BSIZE
    ensures k / BSIZE == o / BSIZE && o % BSIZE <= k % BSIZE < o % BSIZE + n <==> o <= k < o + n
    ensures o <= k < o + n ==> k % BSIZE - o % BSIZE == k - o
  {
  }

  lemma WrittenSame(d: FsSpec.Disk, ino: Inode, d1: FsSpec.Disk, ino1: Inode, d2: FsSpec.Disk, ino2: Inode,
                    off: nat, src: seq<Byte>)
    requires Written(d, ino, d1, ino1, off, src) && SameFile(d1, ino1, d2, ino2)
    ensures Written(d, ino, d2, ino2, off, src)
  {
    forall k | 0 <= k < FILEBYTES ensures WrittenAt(d, ino, d2, ino2, off, src, k) {
      assert WrittenAt(d, ino, d1, ino1, off, src, k);
    }
  }

  lemma FilledMore(sb: Super, d1: FsSpec.Disk, is1: seq<Inode>, own1: map<nat, Owner>,
                   d2: FsSpec.Disk, is2: seq<Inode>, own2: map<nat, Owner>, i: nat, from: nat, to: nat)
    requires Ok(sb, d1, is1, own1, 0) && Ok(sb, d2, is2, own2, 0) && |is1| == |is2| && i < |is1|
    requires OwnerGrows(own1, own2)
    requires Filled(d1, is1[i], from) && from <= to
    requires from < to ==> from / BSIZE < MAXFILE && Addr(d2, is2[i], SlotOf(from / BSIZE)) != 0
    requires from < to ==> from % BSIZE + (to - from) <= BSIZE
    ensures Filled(d2, is2[i], to)
  {
    forall bn | 0 <= bn < MAXFILE && bn * BSIZE < to ensures Addr(d2, is2[i], SlotOf(bn)) != 0 {
      if bn * BSIZE < from {
        SlotKept(sb, d1, is1, own1, d2, is2, own2, i, SlotOf(bn));
      } else {
        assert bn == from / BSIZE;
      }
    }
  }

  lemma WritesNothing(sb: Super, disk: FsSpec.Disk, inodes: seq<Inode>, owner: map<nat, Owner>, i: nat, off: nat)
    requires Ok(sb, disk, inodes, owner, 0) && i < |inodes| && NoHoles(disk, inodes[i]) && off <= inodes[i].size
    ensures Written(disk, inodes[i], disk, inodes[i], off, []) && Filled(disk, inodes[i], off)
    ensures inodes[i].size <= FILEBYTES
  {
  }

  /** Setting the size ends a write in good order. */
  lemma FinishWrite(sb: Super, d: FsSpec.Disk, nodes: seq<Inode>, own: map<nat, Owner>,
                    disk: FsSpec.Disk, inodes: seq<Inode>, owner: map<nat, Owner>, i: nat, off: nat, src: seq<Byte>,
                    size: nat)
    requires Ok(sb, d, nodes, own, 0) && Ok(sb, disk, inodes, owner, 0) && OwnerGrows(own, owner) && i < |nodes|
    requires OthersSame(d, nodes, disk, inodes, i) && inodes[i].size == nodes[i].size
    requires Written(d, nodes[i], disk, inodes[i], off, src) && Filled(disk, inodes[i], off + |src|)
    requires nodes[i].size <= size <= FILEBYTES && (size == nodes[i].size || size <= off + |src|)
    requires forall x :: 0 <= x < |nodes| ==> NoHoles(d, nodes[x])
    ensures var after := inodes[i := inodes[i].(size := size)];
      && Ok(sb, disk, after, owner, 0) && (forall x :: 0 <= x < |nodes| ==> NoHoles(disk, after[x]))
      && OthersSame(d, nodes, disk, after, i) && Written(d, nodes[i], disk, after[i], off, src)
  {
    SizeOk(sb, disk, inodes, owner, i, size);
    WrittenSame(d, nodes[i], disk, inodes[i], disk, inodes[i].(size := size), off, src);
    var after := inodes[i := inodes[i].(size := size)];
    forall x | 0 <= x < |nodes| ensures NoHoles(disk, after[x]) {
      HolesKept(sb, d, nodes, own, disk, inodes, owner, x);
    }
  }

  lemma NoHoleAt(disk: FsSpec.Disk, ino: Inode, o: nat)
    requires NoHoles(disk, ino) && o < ino.size
    ensures o / BSIZE < MAXFILE && Addr(disk, ino, SlotOf(o / BSIZE)) != 0
  {
    InFile(o);
  }

  /** What writei wrote, readi reads back; what lies outside, it reads as before. */
  lemma ReadsBack(d: FsSpec.Disk, ino: Inode, d': FsSpec.Disk, ino': Inode, off: nat, src: seq<Byte>, at: nat, n: nat)
    requires Written(d, ino, d', ino', off, src) && at + n <= FILEBYTES
    ensures at == off && n == |src| ==> Slice(d', ino', at, n) == src
    ensures at + n <= off || off + |src| <= at ==> Slice(d', ino', at, n) == Slice(d, ino, at, n)
  {
    var r, r0 := Slice(d', ino', at, n), Slice(d, ino, at, n);
    forall k | 0 <= k < n ensures r[k] == if off <= at + k < off + |src| then src[at + k - off] else r0[k] {
      assert WrittenAt(d, ino, d', ino', off, src, at + k);
      SliceAt(d', ino', at, n, k);
      SliceAt(d, ino, at, n, k);
    }
  }
}
