/** The bytes of a block: little-endian 32-bit words for indirect blocks, bits for the free map. */
module FsBlocks {

  const BSIZE: nat := 1024
  const BPB: nat := 8192
  const NINDIRECT: nat := 256

  type Byte = x: int | 0 <= x < 256

  /** A block as bytes. */
  type Bytes = b: seq<Byte> | |b| == BSIZE witness seq(BSIZE, i => 0)

  function Zeroed(): Bytes { seq(BSIZE, i => 0) }

  /** Word j of an indirect block. */
  function WordAt(b: Bytes, j: nat): (w: nat)
    requires j < NINDIRECT
    ensures w < 0x1_0000_0000
  {
    var b0: int, b1: int, b2: int, b3: int := b[4 * j], b[4 * j + 1], b[4 * j + 2], b[4 * j + 3];
    b0 + 0x100 * b1 + 0x1_0000 * b2 + 0x100_0000 * b3
  }

  function PutWord(b: Bytes, j: nat, w: nat): (r: Bytes)
    requires j < NINDIRECT && w < 0x1_0000_0000
  {
    var b0: Byte, b1: Byte, b2: Byte, b3: Byte :=
      w % 0x100, w / 0x100 % 0x100, w / 0x1_0000 % 0x100, w / 0x100_0000;
    var s: seq<Byte> := b[4 * j := b0][4 * j + 1 := b1][4 * j + 2 := b2][4 * j + 3 := b3];
    s
  }

  lemma WordPut(b: Bytes, j: nat, w: nat, i: nat)
    requires j < NINDIRECT && w < 0x1_0000_0000 && i < NINDIRECT
    ensures WordAt(PutWord(b, j, w), i) == if i == j then w else WordAt(b, i)
  {
    if i == j { FourBytes(w); }
  }

  lemma FourBytes(w: nat)
    requires w < 0x1_0000_0000
    ensures w == w % 0x100 + 0x100 * (w / 0x100 % 0x100) + 0x1_0000 * (w / 0x1_0000 % 0x100)
                 + 0x100_0000 * (w / 0x100_0000)
  {
  }

  lemma ZeroWords(j: nat)
    requires j < NINDIRECT
    ensures WordAt(Zeroed(), j) == 0
  {
  }

  /** 1 << i. */
  function Mask(i: nat): (m: nat)
    ensures m > 0
  {
    if i == 0 then 1 else 2 * Mask(i - 1)
  }

  /** x & (1 << i) is not 0. */
  predicate HasBit(x: nat, i: nat)
  {
    if i == 0 then x % 2 == 1 else HasBit(x / 2, i - 1)
  }

  lemma LowBits(x: nat, i: nat)
    requires i < 4
    ensures HasBit(x, i) <==> x / [1, 2, 4, 8][i] % 2 == 1
  {
    if i == 2 {
      assert HasBit(x, 2) == HasBit(x / 2, 1) == HasBit(x / 2 / 2, 0);
    } else if i == 3 {
      assert HasBit(x, 3) == HasBit(x / 2, 2) == HasBit(x / 2 / 2, 1) == HasBit(x / 2 / 2 / 2, 0);
    }
  }

  lemma FourUp(x: nat, i: nat)
    ensures HasBit(x, i + 4) == HasBit(x / 16, i)
  {
    assert HasBit(x, i + 4) == HasBit(x / 2, i + 3);
    assert HasBit(x / 2, i + 3) == HasBit(x / 2 / 2, i + 2);
    assert HasBit(x / 2 / 2, i + 2) == HasBit(x / 2 / 2 / 2, i + 1);
    assert HasBit(x / 2 / 2 / 2, i + 1) == HasBit(x / 2 / 2 / 2 / 2, i);
    assert x / 2 / 2 / 2 / 2 == x / 16;
  }

  lemma EachBit(x: nat, i: nat)
    requires i < 8
    ensures HasBit(x, i) <==> x / [1, 2, 4, 8, 16, 32, 64, 128][i] % 2 == 1
  {
    if i < 4 {
      LowBits(x, i);
    } else {
      FourUp(x, i - 4);
      LowBits(x / 16, i - 4);
    }
  }

  /** Bit bi of a free-map block. */
  predicate BitAt(b: Bytes, bi: nat)
    requires bi < BPB
  {
    HasBit(b[bi / 8], bi % 8)
  }

  /** b->data[bi/8] |= 1 << (bi % 8), where the bit is clear. */
  function SetBit(b: Bytes, bi: nat): (r: Bytes)
    requires bi < BPB && !BitAt(b, bi)
  {
    ByteMask();
    BitFits(b[bi / 8], bi % 8, 8);
    b[bi / 8 := b[bi / 8] + Mask(bi % 8)]
  }

  /** b->data[bi/8] &= ~(1 << (bi % 8)), where the bit is set. */
  function ClearBit(b: Bytes, bi: nat): (r: Bytes)
    requires bi < BPB && BitAt(b, bi)
  {
    ByteMask();
    BitFits(b[bi / 8], bi % 8, 8);
    b[bi / 8 := b[bi / 8] - Mask(bi % 8)]
  }

  lemma {:induction false} BitFits(x: nat, i: nat, n: nat)
    requires i < n && x < Mask(n)
    ensures !HasBit(x, i) ==> x + Mask(i) < Mask(n)
    ensures HasBit(x, i) ==> x >= Mask(i)
  {
    if i > 0 {
      BitFits(x / 2, i - 1, n - 1);
    }
  }

  /** Adding a clear bit's value sets it, subtracting a set bit's clears it; other bits stay. */
  lemma {:induction false} OneBit(x: nat, i: nat, k: nat)
    ensures !HasBit(x, i) ==> (HasBit(x + Mask(i), k) <==> (k == i || HasBit(x, k)))
    ensures HasBit(x, i) && x >= Mask(i) ==> (HasBit(x - Mask(i), k) <==> (k != i && HasBit(x, k)))
  {
    if i > 0 && k > 0 {
      OneBit(x / 2, i - 1, k - 1);
      assert (x + Mask(i)) / 2 == x / 2 + Mask(i - 1);
      if x >= Mask(i) { assert (x - Mask(i)) / 2 == x / 2 - Mask(i - 1); }
    } else if i == 0 && k > 0 {
      assert x % 2 == 0 ==> (x + 1) / 2 == x / 2;
      assert x % 2 == 1 ==> (x - 1) / 2 == x / 2;
    }
  }

  lemma ByteMask()
    ensures Mask(8) == 256
  {
    assert Mask(4) == 16;
  }

  lemma BitSet(b: Bytes, bi: nat, k: nat)
    requires bi < BPB && k < BPB && !BitAt(b, bi)
    ensures BitAt(SetBit(b, bi), k) <==> (k == bi || BitAt(b, k))
  {
    ByteMask();
    BitFits(b[bi / 8], bi % 8, 8);
    OneBit(b[bi / 8], bi % 8, k % 8);
  }

  lemma BitCleared(b: Bytes, bi: nat, k: nat)
    requires bi < BPB && k < BPB && BitAt(b, bi)
    ensures BitAt(ClearBit(b, bi), k) <==> (k != bi && BitAt(b, k))
  {
    ByteMask();
    BitFits(b[bi / 8], bi % 8, 8);
    OneBit(b[bi / 8], bi % 8, k % 8);
  }
}
