/** Files over a disk of blocks: who owns which block, and the flat byte array of each inode. */
module FsSpec {
  import opened FsBlocks

  const NDIRECT: nat := 12
  const MAXFILE: nat := NDIRECT + NINDIRECT

  /** MAXFILE * BSIZE. */
  const FILEBYTES: nat := 274432

  /** Slots of an inode: its direct blocks, its indirect block, and the blocks listed there. */
  const INDIRECT: nat := NDIRECT
  const SLOTS: nat := NDIRECT + 1 + NINDIRECT

  function SlotOf(bn: nat): nat { if bn < NDIRECT then bn else bn + 1 }

  /** struct inode: addrs and size. */
  datatype Inode = Inode(addrs: seq<nat>, size: nat)

  /** The superblock as far as it matters here: the blocks below nmeta hold no file data, the free
      map starts at bmapstart, and size is the number of blocks. */
  datatype Super = Super(size: nat, nmeta: nat, bmapstart: nat)

  type Disk = seq<Bytes>

  predicate Layout(sb: Super, disk: Disk)
  {
    && 0 < sb.nmeta <= sb.size <= |disk| && sb.size < 0x1_0000_0000
    && sb.bmapstart + (sb.size - 1) / BPB < sb.nmeta
  }

  /** The free-map bit of block b. */
  predicate InUse(sb: Super, disk: Disk, b: nat)
    requires Layout(sb, disk) && b < sb.size
  {
    MapBlock(sb, disk, b);
    BitAt(disk[sb.bmapstart + b / BPB], b % BPB)
  }

  lemma MapBlock(sb: Super, disk: Disk, b: nat)
    requires Layout(sb, disk) && b < sb.size
    ensures sb.bmapstart + b / BPB < sb.nmeta
  {
  }

  /** Where the bit of block b is: bit b % 8 of a byte of the free map. */
  lemma BitPlace(sb: Super, disk: Disk, b: nat)
    requires Layout(sb, disk) && b < sb.size
    ensures sb.bmapstart + b / 8192 < |disk|
    ensures InUse(sb, disk, b) <==>
      disk[sb.bmapstart + b / 8192][b % 8192 / 8] / [1, 2, 4, 8, 16, 32, 64, 128][b % 8] % 2 == 1
  {
    var x := disk[sb.bmapstart + b / 8192][b % 8192 / 8];
    assert b % 8192 % 8 == b % 8;
    EachBit(x, b % 8);
  }

  /** The block in a slot, 0 for none. */
  function Addr(disk: Disk, ino: Inode, s: nat): nat
    requires |ino.addrs| == NDIRECT + 1 && s < SLOTS
  {
    if s <= INDIRECT then ino.addrs[s]
    else if ino.addrs[INDIRECT] == 0 || ino.addrs[INDIRECT] >= |disk| then 0
    else WordAt(disk[ino.addrs[INDIRECT]], s - INDIRECT - 1)
  }

  /** An inode and a slot of it. */
  datatype Owner = Owner(i: nat, s: nat)

  /** Inode i's slot s holds the block that the owner map says, if any. */
  predicate SlotOk(sb: Super, disk: Disk, inodes: seq<Inode>, owner: map<nat, Owner>, i: nat, s: nat)
    requires i < |inodes| && |inodes[i].addrs| == NDIRECT + 1 && s < SLOTS
  {
    var b := Addr(disk, inodes[i], s);
    b != 0 ==> sb.nmeta <= b < sb.size && b in owner && owner[b] == Owner(i, s)
  }

  /** Block b is in the slot that owns it. */
  predicate OwnerOk(sb: Super, disk: Disk, inodes: seq<Inode>, owner: map<nat, Owner>, b: nat)
    requires b in owner
  {
    var o := owner[b];
    && sb.nmeta <= b < sb.size && o.i < |inodes| && o.s < SLOTS && |inodes[o.i].addrs| == NDIRECT + 1
    && Addr(disk, inodes[o.i], o.s) == b
  }

  /** A bit of the free map is set exactly when the block holds no file data, one slot of one inode
      owns it, or it is the block just allocated (`newb`, if not 0). */
  predicate BitOk(sb: Super, disk: Disk, owner: map<nat, Owner>, newb: nat, b: nat)
    requires Layout(sb, disk) && b < sb.size
  {
    InUse(sb, disk, b) <==> b < sb.nmeta || b in owner || b == newb
  }

  ghost predicate Ok(sb: Super, disk: Disk, inodes: seq<Inode>, owner: map<nat, Owner>, newb: nat)
  {
    && Layout(sb, disk)
    && (forall i :: 0 <= i < |inodes| ==> |inodes[i].addrs| == NDIRECT + 1)
    && (forall i, s {:trigger SlotOk(sb, disk, inodes, owner, i, s)} :: 0 <= i < |inodes| && 0 <= s < SLOTS ==>
          SlotOk(sb, disk, inodes, owner, i, s))
    && (forall b {:trigger OwnerOk(sb, disk, inodes, owner, b)} :: b in owner ==> OwnerOk(sb, disk, inodes, owner, b))
    && (forall b {:trigger BitOk(sb, disk, owner, newb, b)} :: 0 <= b < sb.size ==> BitOk(sb, disk, owner, newb, b))
    && (newb != 0 ==> newb !in owner && sb.nmeta <= newb < sb.size)
  }

  /** The contents of file block bn; a block that is not there reads as zeros. */
  function FileBlock(disk: Disk, ino: Inode, bn: nat): Bytes
    requires |ino.addrs| == NDIRECT + 1 && bn < MAXFILE
  {
    var b := Addr(disk, ino, SlotOf(bn));
    if b == 0 || b >= |disk| then Zeroed() else disk[b]
  }

  /** Byte k of the file as one flat array of MAXFILE blocks. */
  function ByteOf(disk: Disk, ino: Inode, k: nat): Byte
    requires |ino.addrs| == NDIRECT + 1 && k < FILEBYTES
  {
    FileBlock(disk, ino, k / BSIZE)[k % BSIZE]
  }

  /** The flat array of a file is the same in two states. */
  ghost predicate SameFile(disk: Disk, ino: Inode, disk': Disk, ino': Inode)
  {
    && |ino.addrs| == |ino'.addrs| == NDIRECT + 1
    && forall bn :: 0 <= bn < MAXFILE ==> FileBlock(disk', ino', bn) == FileBlock(disk, ino, bn)
  }

  /** A block owned by someone else, or by no one, may change without notice to inode i. */
  lemma OthersBlock(sb: Super, disk: Disk, inodes: seq<Inode>, owner: map<nat, Owner>, newb: nat, i: nat,
                    b: nat, v: Bytes)
    requires Ok(sb, disk, inodes, owner, newb) && i < |inodes| && b < |disk| && (b in owner ==> owner[b].i != i)
    requires b < sb.size ==> b >= sb.nmeta
    ensures forall s :: 0 <= s < SLOTS ==> Addr(disk[b := v], inodes[i], s) == Addr(disk, inodes[i], s)
    ensures SameFile(disk, inodes[i], disk[b := v], inodes[i])
  {
    var disk' := disk[b := v];
    assert SlotOk(sb, disk, inodes, owner, i, INDIRECT);
    forall bn | 0 <= bn < MAXFILE ensures FileBlock(disk', inodes[i], bn) == FileBlock(disk, inodes[i], bn) {
      assert SlotOk(sb, disk, inodes, owner, i, SlotOf(bn));
    }
  }

  // ---- balloc and bfree ----

  /** The disk with block b's bit set. */
  function Marked(sb: Super, disk: Disk, b: nat): (r: Disk)
    requires Layout(sb, disk) && b < sb.size && !InUse(sb, disk, b)
    ensures |r| == |disk|
  {
    MapBlock(sb, disk, b);
    var m := sb.bmapstart + b / BPB;
    disk[m := SetBit(disk[m], b % BPB)]
  }

  function Unmarked(sb: Super, disk: Disk, b: nat): (r: Disk)
    requires Layout(sb, disk) && b < sb.size && InUse(sb, disk, b)
    ensures |r| == |disk|
  {
    MapBlock(sb, disk, b);
    var m := sb.bmapstart + b / BPB;
    disk[m := ClearBit(disk[m], b % BPB)]
  }

  lemma MarkedBits(sb: Super, disk: Disk, b: nat, c: nat)
    requires Layout(sb, disk) && b < sb.size && c < sb.size
    ensures !InUse(sb, disk, b) ==> Layout(sb, Marked(sb, disk, b))
    ensures !InUse(sb, disk, b) ==> (InUse(sb, Marked(sb, disk, b), c) <==> c == b || InUse(sb, disk, c))
    ensures InUse(sb, disk, b) ==> Layout(sb, Unmarked(sb, disk, b))
    ensures InUse(sb, disk, b) ==> (InUse(sb, Unmarked(sb, disk, b), c) <==> c != b && InUse(sb, disk, c))
  {
    MapBlock(sb, disk, b);
    MapBlock(sb, disk, c);
    var m := disk[sb.bmapstart + b / BPB];
    if c / BPB == b / BPB {
      if InUse(sb, disk, b) { BitCleared(m, b % BPB, c % BPB); } else { BitSet(m, b % BPB, c % BPB); }
    }
  }

  /** Blocks that hold no file data may change: files and slots stay as they are. */
  lemma MetaChanged(sb: Super, disk: Disk, inodes: seq<Inode>, owner: map<nat, Owner>, newb: nat, disk': Disk, i: nat)
    requires Ok(sb, disk, inodes, owner, newb) && |disk'| == |disk| && i < |inodes|
    requires forall c :: sb.nmeta <= c < sb.size ==> disk'[c] == disk[c]
    ensures forall s :: 0 <= s < SLOTS ==> Addr(disk', inodes[i], s) == Addr(disk, inodes[i], s)
    ensures SameFile(disk, inodes[i], disk', inodes[i])
  {
    assert SlotOk(sb, disk, inodes, owner, i, INDIRECT);
    forall bn | 0 <= bn < MAXFILE ensures FileBlock(disk', inodes[i], bn) == FileBlock(disk, inodes[i], bn) {
      assert SlotOk(sb, disk, inodes, owner, i, SlotOf(bn));
    }
  }

  /** balloc marks a free block and zeroes it: no file notices. */
  lemma AllocOk(sb: Super, disk: Disk, inodes: seq<Inode>, owner: map<nat, Owner>, b: nat, disk': Disk)
    requires Ok(sb, disk, inodes, owner, 0) && b < sb.size && !InUse(sb, disk, b)
    requires disk' == Marked(sb, disk, b)[b := Zeroed()]
    ensures Ok(sb, disk', inodes, owner, b) && b >= sb.nmeta && disk'[b] == Zeroed()
    ensures forall i :: 0 <= i < |inodes| ==> SameFile(disk, inodes[i], disk', inodes[i])
  {
    assert BitOk(sb, disk, owner, 0, b);
    var m := Marked(sb, disk, b);
    MapBlock(sb, disk, b);
    forall c | 0 <= c < sb.size ensures BitOk(sb, disk', owner, b, c) {
      assert BitOk(sb, disk, owner, 0, c);
      MarkedBits(sb, disk, b, c);
      MapBlock(sb, disk, c);
    }
    forall i | 0 <= i < |inodes|
      ensures SameFile(disk, inodes[i], disk', inodes[i])
      ensures forall s :: 0 <= s < SLOTS ==> Addr(disk', inodes[i], s) == Addr(disk, inodes[i], s)
    {
      MetaChanged(sb, disk, inodes, owner, 0, m, i);
      OthersMarked(sb, disk, inodes, owner, m, i, b);
    }
    forall i, s | 0 <= i < |inodes| && 0 <= s < SLOTS ensures SlotOk(sb, disk', inodes, owner, i, s) {
      assert SlotOk(sb, disk, inodes, owner, i, s);
    }
    forall c | c in owner ensures OwnerOk(sb, disk', inodes, owner, c) {
      assert OwnerOk(sb, disk, inodes, owner, c);
    }
  }

  /** Zeroing a block that no one owns. */
  lemma OthersMarked(sb: Super, disk: Disk, inodes: seq<Inode>, owner: map<nat, Owner>, m: Disk, i: nat, b: nat)
    requires Ok(sb, disk, inodes, owner, 0) && i < |inodes| && |m| == |disk| && b < |disk| && b !in owner
    requires forall s :: 0 <= s < SLOTS ==> Addr(m, inodes[i], s) == Addr(disk, inodes[i], s)
    ensures forall s :: 0 <= s < SLOTS ==> Addr(m[b := Zeroed()], inodes[i], s) == Addr(m, inodes[i], s)
    ensures SameFile(m, inodes[i], m[b := Zeroed()], inodes[i])
  {
    assert SlotOk(sb, disk, inodes, owner, i, INDIRECT);
    assert Addr(m, inodes[i], INDIRECT) != b || b == 0;
    forall bn | 0 <= bn < MAXFILE ensures FileBlock(m[b := Zeroed()], inodes[i], bn) == FileBlock(m, inodes[i], bn) {
      assert SlotOk(sb, disk, inodes, owner, i, SlotOf(bn));
    }
  }

  // ---- bmap: a new block goes into an empty slot ----

  function SetAddr(inodes: seq<Inode>, i: nat, s: nat, b: nat): seq<Inode>
    requires i < |inodes| && |inodes[i].addrs| == NDIRECT + 1 && s <= INDIRECT
  {
    inodes[i := inodes[i].(addrs := inodes[i].addrs[s := b])]
  }

  /** ip->addrs[s] = b, for a slot that was empty and a block that is zeroed and owned by no one. */
  lemma AssignOk(sb: Super, disk: Disk, inodes: seq<Inode>, owner: map<nat, Owner>, i: nat, s: nat, b: nat)
    requires Ok(sb, disk, inodes, owner, b) && b != 0 && i < |inodes| && s <= INDIRECT && inodes[i].addrs[s] == 0
    requires disk[b] == Zeroed()
    ensures Ok(sb, disk, SetAddr(inodes, i, s, b), owner[b := Owner(i, s)], 0)
    ensures forall j :: 0 <= j < |inodes| ==> SameFile(disk, inodes[j], disk, SetAddr(inodes, i, s, b)[j])
  {
    var inodes' := SetAddr(inodes, i, s, b);
    var owner': map<nat, Owner> := owner[b := Owner(i, s)];
    forall t | 0 <= t < SLOTS ensures Addr(disk, inodes'[i], t) == if t == s then b else Addr(disk, inodes[i], t) {
      if t > INDIRECT && s == INDIRECT { ZeroWords(t - INDIRECT - 1); }
    }
    forall j, t | 0 <= j < |inodes| && 0 <= t < SLOTS ensures SlotOk(sb, disk, inodes', owner', j, t) {
      assert SlotOk(sb, disk, inodes, owner, j, t);
    }
    forall c | c in owner' ensures OwnerOk(sb, disk, inodes', owner', c) {
      if c != b { assert OwnerOk(sb, disk, inodes, owner, c); }
    }
    forall c | 0 <= c < sb.size ensures BitOk(sb, disk, owner', 0, c) {
      assert BitOk(sb, disk, owner, b, c);
    }
    forall bn | 0 <= bn < MAXFILE ensures FileBlock(disk, inodes'[i], bn) == FileBlock(disk, inodes[i], bn) {
      assert SlotOk(sb, disk, inodes, owner, i, SlotOf(bn));
    }
  }

  /** a[j] = b in the indirect block, likewise. */
  lemma AssignThroughOk(sb: Super, disk: Disk, inodes: seq<Inode>, owner: map<nat, Owner>, i: nat, j: nat, b: nat,
                        disk': Disk)
    requires Ok(sb, disk, inodes, owner, b) && b != 0 && i < |inodes| && j < NINDIRECT && disk[b] == Zeroed()
    requires inodes[i].addrs[INDIRECT] != 0 && inodes[i].addrs[INDIRECT] < |disk|
    requires WordAt(disk[inodes[i].addrs[INDIRECT]], j) == 0 && b < 0x1_0000_0000
    requires disk' == disk[inodes[i].addrs[INDIRECT] := PutWord(disk[inodes[i].addrs[INDIRECT]], j, b)]
    ensures Ok(sb, disk', inodes, owner[b := Owner(i, INDIRECT + 1 + j)], 0)
    ensures forall x :: 0 <= x < |inodes| ==> SameFile(disk, inodes[x], disk', inodes[x])
  {
    var a := inodes[i].addrs[INDIRECT];
    var owner': map<nat, Owner> := owner[b := Owner(i, INDIRECT + 1 + j)];
    assert SlotOk(sb, disk, inodes, owner, i, INDIRECT) && a == Addr(disk, inodes[i], INDIRECT);
    forall t | 0 <= t < SLOTS
      ensures Addr(disk', inodes[i], t) == if t == INDIRECT + 1 + j then b else Addr(disk, inodes[i], t)
    {
      if t > INDIRECT { WordPut(disk[a], j, b, t - INDIRECT - 1); }
    }
    forall x | 0 <= x < |inodes| && x != i
      ensures SameFile(disk, inodes[x], disk', inodes[x])
      ensures forall s :: 0 <= s < SLOTS ==> Addr(disk', inodes[x], s) == Addr(disk, inodes[x], s)
    {
      OthersBlock(sb, disk, inodes, owner, b, x, a, disk'[a]);
    }
    forall x, t | 0 <= x < |inodes| && 0 <= t < SLOTS ensures SlotOk(sb, disk', inodes, owner', x, t) {
      assert SlotOk(sb, disk, inodes, owner, x, t);
    }
    forall c | c in owner' ensures OwnerOk(sb, disk', inodes, owner', c) {
      if c != b { assert OwnerOk(sb, disk, inodes, owner, c); }
    }
    forall c | 0 <= c < sb.size ensures BitOk(sb, disk', owner', 0, c) {
      assert BitOk(sb, disk, owner, b, c);
      MapBlock(sb, disk, c);
    }
    forall bn | 0 <= bn < MAXFILE ensures FileBlock(disk', inodes[i], bn) == FileBlock(disk, inodes[i], bn) {
      assert SlotOk(sb, disk, inodes, owner, i, SlotOf(bn));
    }
  }

  /** Writing a data block of inode i changes that block of that file only. */
  lemma WriteOk(sb: Super, disk: Disk, inodes: seq<Inode>, owner: map<nat, Owner>, i: nat, bn: nat, v: Bytes,
                disk': Disk)
    requires Ok(sb, disk, inodes, owner, 0) && i < |inodes| && bn < MAXFILE && Addr(disk, inodes[i], SlotOf(bn)) != 0
    requires Addr(disk, inodes[i], SlotOf(bn)) < |disk| && disk' == disk[Addr(disk, inodes[i], SlotOf(bn)) := v]
    ensures Ok(sb, disk', inodes, owner, 0)
    ensures forall x :: 0 <= x < |inodes| && x != i ==> SameFile(disk, inodes[x], disk', inodes[x])
    ensures forall n :: 0 <= n < MAXFILE ==>
      FileBlock(disk', inodes[i], n) == if n == bn then v else FileBlock(disk, inodes[i], n)
  {
    var b := Addr(disk, inodes[i], SlotOf(bn));
    assert SlotOk(sb, disk, inodes, owner, i, SlotOf(bn)) && SlotOk(sb, disk, inodes, owner, i, INDIRECT);
    forall x | 0 <= x < |inodes| && x != i
      ensures SameFile(disk, inodes[x], disk', inodes[x])
      ensures forall s :: 0 <= s < SLOTS ==> Addr(disk', inodes[x], s) == Addr(disk, inodes[x], s)
    {
      OthersBlock(sb, disk, inodes, owner, 0, x, b, v);
    }
    forall x, t | 0 <= x < |inodes| && 0 <= t < SLOTS ensures SlotOk(sb, disk', inodes, owner, x, t) {
      assert SlotOk(sb, disk, inodes, owner, x, t);
    }
    forall c | c in owner ensures OwnerOk(sb, disk', inodes, owner, c) {
      assert OwnerOk(sb, disk, inodes, owner, c);
    }
    forall c | 0 <= c < sb.size ensures BitOk(sb, disk', owner, 0, c) {
      assert BitOk(sb, disk, owner, 0, c);
      MapBlock(sb, disk, c);
    }
    forall n | 0 <= n < MAXFILE
      ensures FileBlock(disk', inodes[i], n) == if n == bn then v else FileBlock(disk, inodes[i], n)
    {
      assert SlotOk(sb, disk, inodes, owner, i, SlotOf(n));
    }
  }

  // ---- itrunc: blocks leave their slots ----

  lemma FreeBits(sb: Super, disk: Disk, inodes: seq<Inode>, owner: map<nat, Owner>, b: nat, disk': Disk)
    requires Ok(sb, disk, inodes, owner, 0) && b in owner && b < sb.size && InUse(sb, disk, b)
    requires |disk'| == |disk| && forall c :: 0 <= c < sb.nmeta ==> disk'[c] == Unmarked(sb, disk, b)[c]
    ensures Layout(sb, disk') && forall c :: 0 <= c < sb.size ==> BitOk(sb, disk', owner - {b}, 0, c)
  {
    assert OwnerOk(sb, disk, inodes, owner, b);
    forall c | 0 <= c < sb.size ensures BitOk(sb, disk', owner - {b}, 0, c) {
      assert BitOk(sb, disk, owner, 0, c);
      MarkedBits(sb, disk, b, c);
      MapBlock(sb, disk, c);
    }
  }

  /** bfree of a block whose slot is one of addrs, and addrs[s] = 0; an indirect block only when it
      lists nothing any more. */
  lemma FreeSlotOk(sb: Super, disk: Disk, inodes: seq<Inode>, owner: map<nat, Owner>, i: nat, s: nat, disk': Disk)
    requires Ok(sb, disk, inodes, owner, 0) && i < |inodes| && s <= INDIRECT && inodes[i].addrs[s] != 0
    requires inodes[i].addrs[s] < sb.size && InUse(sb, disk, inodes[i].addrs[s])
    requires s == INDIRECT ==> forall j :: 0 <= j < NINDIRECT ==> WordAt(disk[inodes[i].addrs[s]], j) == 0
    requires disk' == Unmarked(sb, disk, inodes[i].addrs[s])
    ensures Ok(sb, disk', SetAddr(inodes, i, s, 0), owner - {inodes[i].addrs[s]}, 0)
    ensures inodes[i].addrs[s] in owner && owner[inodes[i].addrs[s]] == Owner(i, s)
    ensures forall x :: 0 <= x < |inodes| && x != i ==> SameFile(disk, inodes[x], disk', inodes[x])
  {
    var b, inodes' := inodes[i].addrs[s], SetAddr(inodes, i, s, 0);
    assert SlotOk(sb, disk, inodes, owner, i, s) && Addr(disk, inodes[i], s) == b;
    FreeBits(sb, disk, inodes, owner, b, disk');
    forall x | 0 <= x < |inodes|
      ensures SameFile(disk, inodes[x], disk', inodes[x])
      ensures forall t :: 0 <= t < SLOTS ==> Addr(disk', inodes[x], t) == Addr(disk, inodes[x], t)
    {
      MetaChanged(sb, disk, inodes, owner, 0, disk', x);
    }
    forall t | 0 <= t < SLOTS ensures Addr(disk', inodes'[i], t) == if t == s then 0 else Addr(disk, inodes[i], t) {
      assert t > INDIRECT && s == INDIRECT ==> Addr(disk, inodes[i], t) == WordAt(disk[b], t - INDIRECT - 1);
    }
    forall x, t | 0 <= x < |inodes| && 0 <= t < SLOTS ensures SlotOk(sb, disk', inodes', owner - {b}, x, t) {
      assert SlotOk(sb, disk, inodes, owner, x, t);
    }
    forall c | c in owner - {b} ensures OwnerOk(sb, disk', inodes', owner - {b}, c) {
      assert OwnerOk(sb, disk, inodes, owner, c);
    }
  }

  /** bfree of the block that word j of the indirect block lists, as if the word were cleared too. */
  lemma FreeThroughOk(sb: Super, disk: Disk, inodes: seq<Inode>, owner: map<nat, Owner>, i: nat, j: nat, b: nat,
                      disk': Disk)
    requires Ok(sb, disk, inodes, owner, 0) && i < |inodes| && j < NINDIRECT
    requires inodes[i].addrs[INDIRECT] != 0 && inodes[i].addrs[INDIRECT] < |disk|
    requires b == WordAt(disk[inodes[i].addrs[INDIRECT]], j) && b != 0 && b < sb.size && InUse(sb, disk, b)
    requires disk' == Unmarked(sb, disk, b)[inodes[i].addrs[INDIRECT] := PutWord(disk[inodes[i].addrs[INDIRECT]], j, 0)]
    ensures Ok(sb, disk', inodes, owner - {b}, 0) && b in owner && owner[b] == Owner(i, INDIRECT + 1 + j)
    ensures forall x :: 0 <= x < |inodes| && x != i ==> SameFile(disk, inodes[x], disk', inodes[x])
  {
    var a := inodes[i].addrs[INDIRECT];
    assert SlotOk(sb, disk, inodes, owner, i, INDIRECT) && SlotOk(sb, disk, inodes, owner, i, INDIRECT + 1 + j);
    assert Addr(disk, inodes[i], INDIRECT) == a && Addr(disk, inodes[i], INDIRECT + 1 + j) == b;
    FreeBits(sb, disk, inodes, owner, b, disk');
    forall t | 0 <= t < SLOTS
      ensures Addr(disk', inodes[i], t) == if t == INDIRECT + 1 + j then 0 else Addr(disk, inodes[i], t)
    {
      if t > INDIRECT { WordPut(disk[a], j, 0, t - INDIRECT - 1); }
    }
    forall x | 0 <= x < |inodes| && x != i
      ensures SameFile(disk, inodes[x], disk', inodes[x])
      ensures forall t :: 0 <= t < SLOTS ==> Addr(disk', inodes[x], t) == Addr(disk, inodes[x], t)
    {
      OthersMeta(sb, disk, inodes, owner, x, a, disk');
    }
    forall x, t | 0 <= x < |inodes| && 0 <= t < SLOTS ensures SlotOk(sb, disk', inodes, owner - {b}, x, t) {
      assert SlotOk(sb, disk, inodes, owner, x, t);
    }
    forall c | c in owner - {b} ensures OwnerOk(sb, disk', inodes, owner - {b}, c) {
      assert OwnerOk(sb, disk, inodes, owner, c);
    }
  }

  /** Blocks without file data and one block of another inode may change. */
  lemma OthersMeta(sb: Super, disk: Disk, inodes: seq<Inode>, owner: map<nat, Owner>, x: nat, a: nat, disk': Disk)
    requires Ok(sb, disk, inodes, owner, 0) && x < |inodes| && |disk'| == |disk| && a in owner && owner[a].i != x
    requires forall c :: sb.nmeta <= c < sb.size && c != a ==> disk'[c] == disk[c]
    ensures forall t :: 0 <= t < SLOTS ==> Addr(disk', inodes[x], t) == Addr(disk, inodes[x], t)
    ensures SameFile(disk, inodes[x], disk', inodes[x])
  {
    assert SlotOk(sb, disk, inodes, owner, x, INDIRECT) && OwnerOk(sb, disk, inodes, owner, a);
    assert Addr(disk, inodes[x], INDIRECT) != a;
    forall bn | 0 <= bn < MAXFILE ensures FileBlock(disk', inodes[x], bn) == FileBlock(disk, inodes[x], bn) {
      assert SlotOk(sb, disk, inodes, owner, x, SlotOf(bn));
    }
  }

  /** The contents of a block that no one owns do not matter. */
  lemma LooseBlock(sb: Super, disk: Disk, inodes: seq<Inode>, owner: map<nat, Owner>, b: nat, disk': Disk)
    requires Ok(sb, disk, inodes, owner, 0) && sb.nmeta <= b < sb.size && b !in owner
    requires |disk'| == |disk| && forall c :: 0 <= c < |disk| && c != b ==> disk'[c] == disk[c]
    ensures Ok(sb, disk', inodes, owner, 0)
    ensures forall x :: 0 <= x < |inodes| ==> SameFile(disk, inodes[x], disk', inodes[x])
  {
    forall x | 0 <= x < |inodes|
      ensures SameFile(disk, inodes[x], disk', inodes[x])
      ensures forall t :: 0 <= t < SLOTS ==> Addr(disk', inodes[x], t) == Addr(disk, inodes[x], t)
    {
      OthersBlock(sb, disk, inodes, owner, 0, x, b, disk'[b]);
      assert disk[b := disk'[b]] == disk';
    }
    forall x, t | 0 <= x < |inodes| && 0 <= t < SLOTS ensures SlotOk(sb, disk', inodes, owner, x, t) {
      assert SlotOk(sb, disk, inodes, owner, x, t);
    }
    forall c | c in owner ensures OwnerOk(sb, disk', inodes, owner, c) {
      assert OwnerOk(sb, disk, inodes, owner, c);
    }
    forall c | 0 <= c < sb.size ensures BitOk(sb, disk', owner, 0, c) {
      assert BitOk(sb, disk, owner, 0, c);
      MapBlock(sb, disk, c);
    }
  }
}
