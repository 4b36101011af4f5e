/** kalloc.c: physical memory and the frame allocator. */
module Kalloc {
  import opened Blocks
  import opened Sv39

  type Byte = x: int | 0 <= x < 256

  type Page = p: seq<Byte> | |p| == PGSIZE witness seq(PGSIZE, i => 0)

  function Filled(b: Byte): Page { seq(PGSIZE, i => b) }

  /** The n low bytes of a word, little-endian, and the word of some bytes. */
  function BytesOf(w: nat, n: nat): (b: seq<Byte>)
    ensures |b| == n
  {
    if n == 0 then [] else [w % 256] + BytesOf(w / 256, n - 1)
  }

  function WordOf(b: seq<Byte>): nat
  {
    if b == [] then 0 else b[0] + 256 * WordOf(b[1..])
  }

  /** A table as the bytes of its frame, and a frame as the 512 PTEs in it. */
  function AsPage(t: Table): Page { seq(PGSIZE, i requires 0 <= i < PGSIZE => BytesOf(t[i / 8].Word(), 8)[i % 8]) }

  function AsTable(p: Page): Table { seq(ENTRIES, i requires 0 <= i < ENTRIES => PteOf(WordOf(p[8 * i..8 * i + 8]))) }

  function PteOf(w: nat): Pte { Pte(w / 1024, w % 1024) }

  function Pow256(n: nat): nat { if n == 0 then 1 else 256 * Pow256(n - 1) }

  lemma {:induction false} WordRead(w: nat, n: nat)
    requires w < Pow256(n)
    ensures WordOf(BytesOf(w, n)) == w
  {
    if n > 0 {
      WordRead(w / 256, n - 1);
      assert BytesOf(w, n)[1..] == BytesOf(w / 256, n - 1);
    }
  }

  /** A PTE that fits into 64 bits. */
  predicate Fits(e: Pte) { e.flags < 1024 && e.frame < 0x40_0000_0000_0000 }

  lemma WordFits(e: Pte)
    requires Fits(e)
    ensures e.Word() < Pow256(8) && PteOf(e.Word()) == e
  {
    assert Pow256(4) == 0x1_0000_0000;
  }

  lemma EntryRead(t: Table, i: nat)
    requires i < ENTRIES && Fits(t[i])
    ensures AsTable(AsPage(t))[i] == t[i]
  {
    hide BytesOf, WordOf;
    var p, b := AsPage(t), BytesOf(t[i].Word(), 8);
    forall k | 0 <= k < 8 ensures p[8 * i + k] == b[k] {
      assert (8 * i + k) / 8 == i && (8 * i + k) % 8 == k;
    }
    assert p[8 * i..8 * i + 8] == b;
    WordFits(t[i]);
    WordRead(t[i].Word(), 8);
  }

  /** The two views of a frame are of one memory: what is written as a table reads as that table. */
  lemma TableRead(t: Table)
    requires forall i :: 0 <= i < ENTRIES ==> Fits(t[i])
    ensures AsTable(AsPage(t)) == t
  {
    forall i | 0 <= i < ENTRIES ensures AsTable(AsPage(t))[i] == t[i] {
      EntryRead(t, i);
    }
  }

  /** What m and m' hold outside the frames s is the same. */
  ghost predicate Kept<T>(m: map<nat, T>, m': map<nat, T>, s: set<nat>)
  {
    forall f {:trigger m[f]} {:trigger m'[f]} :: f in m && f !in s ==> f in m' && m'[f] == m[f]
  }

  /** The list holds exactly the frames of the set, each once. */
  ghost predicate Lists(free: seq<nat>, s: set<nat>)
  {
    if free == [] then s == {} else free[0] in s && Lists(free[1..], s - {free[0]})
  }

  lemma ListsCons(f: nat, free: seq<nat>, s: set<nat>)
    requires Lists(free, s) && f !in s
    ensures Lists([f] + free, s + {f})
  {
    assert ([f] + free)[1..] == free && s + {f} - {f} == s;
  }

  /** A list that holds every frame of a set once holds no frame twice and no other. */
  lemma {:induction false} ListsExactly(free: seq<nat>, s: set<nat>)
    requires Lists(free, s)
    ensures Distinct(free) && |free| == |s| && forall f :: f in free <==> f in s
  {
    if free != [] {
      ListsExactly(free[1..], s - {free[0]});
      assert free == [free[0]] + free[1..];
    }
  }

  /** Physical memory. Each frame is kept as 512 PTEs and as 4096 bytes: a write through one view
      changes the other. The frames lo .. hi - 1 are those that kinit gave to the allocator. */
  class Phys {
    const lo: nat
    const hi: nat
    var tables: Tables
    var data: map<nat, Page>
    var free: seq<nat>
    ghost var avail: set<nat>

    predicate Managed(f: nat) { lo <= f < hi }

    ghost predicate Valid()
      reads this
    {
      0 < lo && Lists(free, avail) && forall f {:trigger Managed(f)} :: f in avail ==> Managed(f)
    }

    /** Writing a frame as bytes, and as a table. */
    method SetData(f: nat, p: Page)
      modifies this`data, this`tables
      ensures data == old(data)[f := p] && tables == old(tables)[f := AsTable(p)]
    {
      data, tables := data[f := p], tables[f := AsTable(p)];
    }

    method SetTable(f: nat, t: Table)
      modifies this`data, this`tables
      ensures tables == old(tables)[f := t] && data == old(data)[f := AsPage(t)]
    {
      data, tables := data[f := AsPage(t)], tables[f := t];
    }

    /** kinit: freerange puts every whole page between start and end on the free list. */
    constructor (start: nat, end: nat)
      requires 0 < start
      ensures Valid() && lo == (start + PGSIZE - 1) / PGSIZE && hi == end / PGSIZE
      ensures forall f :: f in avail <==> Managed(f)
    {
      lo, hi := (start + PGSIZE - 1) / PGSIZE, end / PGSIZE;
      tables, data, free, avail := map[], map[], [], {};
      new;
      var p := (start + PGSIZE - 1) / PGSIZE;
      while p * PGSIZE + PGSIZE <= end
        invariant lo <= p && (p <= hi || p == lo) && fresh(this)
        invariant Lists(free, avail)
        invariant forall f :: f in avail <==> lo <= f < p
        decreases end - p * PGSIZE
      {
        assert p * PGSIZE / PGSIZE == p && p * PGSIZE % PGSIZE == 0;
        assert (p + 1) * PGSIZE <= end && p + 1 <= end / PGSIZE;
        var ok := Kfree(p * PGSIZE);
        p := p + 1;
      }
    }

    /** kfree; !ok is its panic. */
    method Kfree(pa: nat) returns (ok: bool)
      requires Lists(free, avail) && pa / PGSIZE !in avail
      modifies this
      ensures Lists(free, avail) && avail == old(avail) + (if ok then {pa / PGSIZE} else {})
      ensures ok <==> pa % PGSIZE == 0 && Managed(pa / PGSIZE)
      ensures free == if ok then [pa / PGSIZE] + old(free) else old(free)
      ensures Kept(old(tables), tables, {pa / PGSIZE}) && Kept(old(data), data, {pa / PGSIZE})
    {
      if pa % PGSIZE != 0 || pa < lo * PGSIZE || pa >= hi * PGSIZE {
        return false;
      }
      SetData(pa / PGSIZE, Filled(1));
      ListsCons(pa / PGSIZE, free, avail);
      free, avail := [pa / PGSIZE] + free, avail + {pa / PGSIZE};
      ok := true;
    }

    /** kalloc: the frame at the head of the free list, or 0, the null pointer. */
    method Kalloc() returns (f: nat)
      requires Valid()
      modifies this
      ensures Valid()
      ensures f == 0 <==> old(free) == []
      ensures f == 0 ==> free == [] && avail == old(avail) && tables == old(tables) && data == old(data)
      ensures f != 0 ==> old(free) == [f] + free && f in old(avail) && avail == old(avail) - {f} && Managed(f)
      ensures f != 0 ==> f in tables && f in data
      ensures Kept(old(tables), tables, {f}) && Kept(old(data), data, {f})
    {
      if |free| == 0 {
        return 0;
      }
      f := free[0];
      assert Managed(f);
      free, avail := free[1..], avail - {f};
      SetData(f, Filled(5));
    }
  }
}
