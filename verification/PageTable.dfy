/** vm.c: page tables in the frames that kalloc hands out. */
module PageTable {
  import opened Blocks
  import opened Sv39
  import opened Kalloc

  /** Done, the error return, or a panic. */
  datatype Status = Done | NoMemory | Panic

  // ---- Stretches of the flat map ----

  /** flat without the n pages from v on. */
  function Cut(flat: map<nat, Pte>, v: nat, n: nat): map<nat, Pte>
  {
    if n == 0 then flat else Cut(flat, v, n - 1) - {v + n - 1}
  }

  lemma {:induction false} CutAt(flat: map<nat, Pte>, v: nat, n: nat, x: nat)
    ensures x in Cut(flat, v, n) <==> x in flat && !(v <= x < v + n)
    ensures x in Cut(flat, v, n) ==> Cut(flat, v, n)[x] == flat[x]
  {
    if n > 0 {
      CutAt(flat, v, n - 1, x);
    }
  }

  /** Mapping one page behind the stretch changes nothing about the rest. */
  lemma CutMapped(flat: map<nat, Pte>, v: nat, n: nat, e: Pte)
    requires v + n !in flat
    ensures Cut(flat[v + n := e], v, n + 1) == Cut(flat, v, n)
  {
    var m := flat[v + n := e];
    forall x: nat
      ensures x in Cut(m, v, n + 1) <==> x in Cut(flat, v, n)
      ensures x in Cut(flat, v, n) ==> Cut(m, v, n + 1)[x] == Cut(flat, v, n)[x]
    {
      CutAt(m, v, n + 1, x);
      CutAt(flat, v, n, x);
    }
  }

  /** The frames of the n pages from v on, as far as they are mapped. */
  ghost function Frames(flat: map<nat, Pte>, v: nat, n: nat): set<nat>
  {
    if n == 0 then {} else Frames(flat, v, n - 1) + (if v + n - 1 in flat then {flat[v + n - 1].frame} else {})
  }

  lemma {:induction false} FramesAt(flat: map<nat, Pte>, v: nat, n: nat, x: nat)
    requires v <= x < v + n && x in flat
    ensures flat[x].frame in Frames(flat, v, n)
  {
    if x < v + n - 1 {
      FramesAt(flat, v, n - 1, x);
    }
  }

  lemma {:induction false} FramesIn(flat: map<nat, Pte>, v: nat, n: nat, f: nat) returns (x: nat)
    requires f in Frames(flat, v, n)
    ensures v <= x < v + n && x in flat && flat[x].frame == f
  {
    if v + n - 1 in flat && flat[v + n - 1].frame == f {
      x := v + n - 1;
    } else {
      x := FramesIn(flat, v, n - 1, f);
    }
  }

  lemma {:induction false} FramesSame(flat: map<nat, Pte>, m: map<nat, Pte>, v: nat, n: nat)
    requires forall x :: v <= x < v + n ==> (x in flat <==> x in m) && (x in m ==> flat[x] == m[x])
    ensures Frames(flat, v, n) == Frames(m, v, n)
  {
    if n > 0 {
      FramesSame(flat, m, v, n - 1);
    }
  }

  /** None of the n pages from v on is mapped. */
  predicate Unmapped(flat: map<nat, Pte>, v: nat, n: nat)
  {
    n == 0 || (v + n - 1 !in flat && Unmapped(flat, v, n - 1))
  }

  lemma {:induction false} UnmappedAt(flat: map<nat, Pte>, v: nat, n: nat, x: nat)
    requires Unmapped(flat, v, n) && v <= x < v + n
    ensures x !in flat
  {
    if x < v + n - 1 {
      UnmappedAt(flat, v, n - 1, x);
    }
  }

  /** One user page table: the tree under root, the places of its tables, and the flat map that
      it refines. */
  class UserTable {
    const root: nat
    const mem: Phys
    ghost var pos: map<nat, Pos>
    ghost var flat: map<nat, Pte>

    ghost predicate Valid()
      reads this, mem
    {
      && mem.Valid() && Refines(mem.tables, root, pos, flat)
      && forall f {:trigger pos[f]} :: f in pos ==> f !in mem.avail && mem.Managed(f)
    }

    /** The page table whose root table, zeroed, is in the given frame. */
    constructor (mem: Phys, frame: nat)
      requires mem.Valid() && frame !in mem.avail && mem.Managed(frame)
      requires frame in mem.tables && mem.tables[frame] == Zeros()
      ensures Valid() && this.mem == mem && root == frame && flat == map[] && pos == map[frame := ROOT]
    {
      this.mem, root, pos, flat := mem, frame, map[frame := ROOT], map[];
    }

    /** walk: the place of the PTE of va; with alloc, missing tables are added. */
    method Walk(va: nat, alloc: bool) returns (s: Status, f: nat, i: nat)
      requires Valid()
      modifies mem, this`pos
      ensures Valid()
      ensures s.Panic? <==> va >= MAXVA
      ensures s.Done? ==> f in pos && pos[f] == PosAt(0, va / PGSIZE) && i == Px(0, va / PGSIZE)
      ensures s.NoMemory? ==> if alloc then mem.free == [] else va / PGSIZE !in flat
      ensures !alloc ==> mem.tables == old(mem.tables) && mem.data == old(mem.data) && mem.free == old(mem.free)
      ensures !alloc ==> mem.avail == old(mem.avail) && pos == old(pos)
      ensures Grown(old(mem.avail), old(pos), mem.avail, pos)
      ensures Kept(old(mem.tables), mem.tables, old(mem.avail) + old(pos).Keys)
      ensures Kept(old(mem.data), mem.data, old(mem.avail) + old(pos).Keys)
    {
      f, i := root, 0;
      if va >= MAXVA {
        s := Panic;
        return;
      }
      ghost var v := va / PGSIZE;
      var level := 2;
      while level > 0
        invariant 0 <= level <= 2 && Valid() && f in pos && pos[f] == PosAt(level, v)
        invariant !alloc ==> mem.tables == old(mem.tables) && mem.data == old(mem.data) && mem.free == old(mem.free)
        invariant !alloc ==> mem.avail == old(mem.avail) && pos == old(pos)
        invariant Grown(old(mem.avail), old(pos), mem.avail, pos)
        invariant Kept(old(mem.tables), mem.tables, old(mem.avail) + old(pos).Keys)
        invariant Kept(old(mem.data), mem.data, old(mem.avail) + old(pos).Keys)
      {
        WalkDown(mem.tables, root, pos, flat, f, level, v);
        var e := mem.tables[f][Px(level, va / PGSIZE)];
        if e.V() {
          f := e.frame;
        } else {
          if !alloc {
            s := NoMemory;
            return;
          }
          var c := AddTable(f, Px(level, va / PGSIZE));
          if c == 0 {
            s := NoMemory;
            return;
          }
          WalkGoesDown(level, v);
          f := c;
        }
        level := level - 1;
      }
      s, i := Done, Px(0, va / PGSIZE);
    }

    /** kalloc, memset and *pte = PA2PTE(pagetable) | PTE_V; 0 if there is no frame. */
    method AddTable(f: nat, i: nat) returns (c: nat)
      requires Valid() && f in pos && pos[f].level > 0 && i < ENTRIES && !mem.tables[f][i].V()
      modifies mem, this`pos
      ensures Valid()
      ensures c == 0 ==> mem.free == [] && pos == old(pos)
      ensures c != 0 ==> pos == old(pos)[c := Child(old(pos)[f], i)]
      ensures Grown(old(mem.avail), old(pos), mem.avail, pos)
      ensures Kept(old(mem.tables), mem.tables, old(mem.avail) + {f})
      ensures Kept(old(mem.data), mem.data, old(mem.avail) + {f})
    {
      hide Refines, Lists;
      ghost var tables := mem.tables;
      c := mem.Kalloc();
      if c != 0 {
        Hanging(tables, mem.tables, root, pos, flat, f, i, c);
        ghost var p: map<nat, Pos> := pos[c := Child(pos[f], i)];
        mem.SetTable(c, Zeros());
        mem.SetTable(f, mem.tables[f][i := Pte(c, 1)]);
        pos := p;
      }
    }

    /** *pte = e, for the PTE that walk found for page v. */
    method Store(f: nat, i: nat, ghost v: nat, e: Pte)
      requires Valid() && f in pos && pos[f] == PosAt(0, v) && i == Px(0, v)
      modifies mem`tables, mem`data, this`flat
      ensures Valid() && flat == SetPte(old(flat), v, e)
      ensures Kept(old(mem.tables), mem.tables, {f}) && Kept(old(mem.data), mem.data, {f})
    {
      CoversIsPosAt(pos[f], v);
      ghost var t: Tables := mem.tables[f := mem.tables[f][i := e]];
      ghost var m: map<nat, Pte> := SetPte(flat, v, e);
      StoreRefines(mem.tables, root, pos, flat, f, i, e, t, m);
      mem.SetTable(f, mem.tables[f][i := e]);
      flat := m;
    }

    /** One round of mappages: page v is mapped to the frame. */
    method MapOne(v: nat, frame: nat, perm: nat) returns (s: Status)
      requires Valid() && perm < 1024
      modifies mem, this`pos, this`flat
      ensures Valid()
      ensures s.Done? ==> v < MAXVPN && v !in old(flat) && flat == old(flat)[v := MakePte(frame, perm)]
      ensures !s.Done? ==> flat == old(flat)
      ensures s.NoMemory? ==> mem.free == []
      ensures s.Panic? ==> v >= MAXVPN || v in old(flat)
      ensures Grown(old(mem.avail), old(pos), mem.avail, pos)
      ensures Kept(old(mem.tables), mem.tables, old(mem.avail) + old(pos).Keys)
      ensures Kept(old(mem.data), mem.data, old(mem.avail) + old(pos).Keys)
    {
      var f, i;
      s, f, i := Walk(v * PGSIZE, true);
      assert v * PGSIZE / PGSIZE == v && (v * PGSIZE >= MAXVA <==> v >= MAXVPN);
      if s.Done? {
        WalkEnds(mem.tables, root, pos, flat, f, v);
        if mem.tables[f][i].V() {
          return Panic;
        }
        Store(f, i, v, MakePte(frame, perm));
      }
    }

    /** mappages, in page numbers: n pages from v on are mapped to consecutive frames; all up to
        page last when it succeeds, all before a page that is mapped or too high when it panics. */
    method MapRange(v: nat, last: nat, frame: nat, perm: nat) returns (s: Status, ghost n: nat)
      requires Valid() && perm < 1024
      modifies mem, this`pos, this`flat
      ensures Valid()
      ensures flat == PutRun(old(flat), v, frame, perm, n) && Unmapped(old(flat), v, n)
      ensures s.Done? ==> n > 0 && v + n - 1 == last < MAXVPN
      ensures s.NoMemory? ==> mem.free == []
      ensures !s.Done? && v <= last ==> v + n <= last
      ensures s.Panic? ==> v + n >= MAXVPN || v + n in old(flat)
      ensures Grown(old(mem.avail), old(pos), mem.avail, pos)
      ensures Kept(old(mem.tables), mem.tables, old(mem.avail) + old(pos).Keys)
      ensures Kept(old(mem.data), mem.data, old(mem.avail) + old(pos).Keys)
    {
      hide Refines;
      var a, to := v, frame;
      ghost var was := flat;
      n := 0;
      while true
        invariant Valid() && a == v + n && to == frame + n && (n > 0 ==> a <= MAXVPN)
        invariant v <= last ==> a <= last
        invariant flat == PutRun(was, v, frame, perm, n) && Unmapped(was, v, n)
        invariant Grown(old(mem.avail), old(pos), mem.avail, pos)
        invariant Kept(old(mem.tables), mem.tables, old(mem.avail) + old(pos).Keys)
        invariant Kept(old(mem.data), mem.data, old(mem.avail) + old(pos).Keys)
        decreases MAXVPN - a
      {
        PutRunAt(was, v, frame, perm, n, a);
        s := MapOne(a, to, perm);
        if !s.Done? {
          return;
        }
        n := n + 1;
        if a == last {
          return;
        }
        a, to := a + 1, to + 1;
      }
    }

    /** mappages: it got through the n pages from va's on. When it is done these are the pages of the
        bytes va .. va + size - 1; an empty range, or one that goes past 2^64, ends only when its last
        byte, counted modulo 2^64, is in va's own page, and then maps that page alone. */
    method MapPages(va: nat, size: nat, pa: nat, perm: nat) returns (s: Status, ghost n: nat)
      requires Valid() && perm < 1024
      modifies mem, this`pos, this`flat
      ensures Valid()
      ensures forall x :: x in flat <==> x in old(flat) || va / PGSIZE <= x < va / PGSIZE + n
      ensures forall x :: x in old(flat) ==> !(va / PGSIZE <= x < va / PGSIZE + n) && flat[x] == old(flat)[x]
      ensures forall x :: va / PGSIZE <= x < va / PGSIZE + n ==>
        flat[x] == MakePte(pa / PGSIZE + (x - va / PGSIZE), perm)
      ensures size > 0 && va + size <= 0x1_0000_0000_0000_0000 && s.Done? ==>
        forall b :: va <= b < va + size ==>
          b / PGSIZE in flat && flat[b / PGSIZE] == MakePte(pa / PGSIZE + (b / PGSIZE - va / PGSIZE), perm)
      ensures size > 0 && va + size <= 0x1_0000_0000_0000_0000 && s.Done? ==>
        forall x :: x in flat && x !in old(flat) ==> x * PGSIZE < va + size && va < (x + 1) * PGSIZE
      ensures size > 0 && va + size <= 0x1_0000_0000_0000_0000 && !s.Done? ==>
        (va / PGSIZE + n) * PGSIZE < va + size
      ensures size == 0 && s.Done? ==> n == 1 && va % PGSIZE != 0
      ensures va < 0x1_0000_0000_0000_0000 && size < 0x1_0000_0000_0000_0000 < va + size && s.Done? ==>
        n == 1 && (va + size - 1 - 0x1_0000_0000_0000_0000) / PGSIZE == va / PGSIZE
      ensures flat == PutRun(old(flat), va / PGSIZE, pa / PGSIZE, perm, n) && Unmapped(old(flat), va / PGSIZE, n)
      ensures s.Done? ==> n > 0 && va / PGSIZE + n - 1 == LastPage(va, size) < MAXVPN
      ensures s.NoMemory? ==> mem.free == []
      ensures !s.Done? && va / PGSIZE <= LastPage(va, size) ==> va / PGSIZE + n <= LastPage(va, size)
      ensures s.Panic? ==> va / PGSIZE + n >= MAXVPN || va / PGSIZE + n in old(flat)
      ensures Grown(old(mem.avail), old(pos), mem.avail, pos)
      ensures Kept(old(mem.tables), mem.tables, old(mem.avail) + old(pos).Keys)
      ensures Kept(old(mem.data), mem.data, old(mem.avail) + old(pos).Keys)
    {
      hide Refines;
      ghost var was := flat;
      s, n := MapRange(va / PGSIZE, LastPage(va, size), pa / PGSIZE, perm);
      PutRunPlain(was, va / PGSIZE, pa / PGSIZE, perm, n);
      LastPageIs(va, size);
    }

    /** One round of uvmunmap. */
    method UnmapOne(v: nat, doFree: bool) returns (s: Status)
      requires Valid() && (doFree ==> Owns(flat, v, 1, mem.avail, pos))
      modifies mem, this`pos, this`flat
      ensures pos == old(pos)
      ensures Valid() && !s.NoMemory? && (s.Done? <==> CanUnmap(old(flat), v, doFree, mem))
      ensures s.Done? ==> flat == old(flat) - {v}
      ensures s.Done? ==> mem.free == (if doFree then [old(flat)[v].frame] else []) + old(mem.free)
      ensures s.Panic? ==> flat == old(flat) && mem.free == old(mem.free)
      ensures mem.avail == old(mem.avail) + (if s.Done? then FrameAt(old(flat), v, doFree) else {})
      ensures Kept(old(mem.tables), mem.tables, pos.Keys + FrameAt(old(flat), v, doFree))
      ensures Kept(old(mem.data), mem.data, pos.Keys + FrameAt(old(flat), v, doFree))
    {
      var f, i;
      s, f, i := Walk(v * PGSIZE, false);
      assert v * PGSIZE / PGSIZE == v && (v * PGSIZE >= MAXVA <==> v >= MAXVPN);
      if !s.Done? {
        return Panic;
      }
      WalkEnds(mem.tables, root, pos, flat, f, v);
      var e := mem.tables[f][i];
      if !e.V() || e.flags == 1 {
        return Panic;
      }
      if doFree {
        ghost var t := mem.tables;
        assert e.frame * PGSIZE / PGSIZE == e.frame;
        var ok := mem.Kfree(e.Address());
        OtherFrames(t, mem.tables, root, pos, flat);
        if !ok {
          return Panic;
        }
      }
      Store(f, i, v, NOPTE);
    }

    /** uvmunmap, in page numbers: stops with a panic at the first page that cannot be unmapped. */
    method UnmapRange(v: nat, npages: nat, doFree: bool) returns (s: Status, ghost n: nat)
      requires Valid() && (doFree ==> Owns(flat, v, npages, mem.avail, pos))
      modifies mem, this`pos, this`flat
      ensures Valid() && pos == old(pos) && n <= npages
      ensures forall x :: v <= x < v + n ==> CanUnmap(old(flat), x, doFree, mem)
      ensures if s.Done? then n == npages else s.Panic? && n < npages && !CanUnmap(old(flat), v + n, doFree, mem)
      ensures flat == Cut(old(flat), v, n)
      ensures mem.avail == old(mem.avail) + Freed(old(flat), v, n, doFree)
      ensures Kept(old(mem.tables), mem.tables, pos.Keys + Freed(old(flat), v, npages, doFree))
      ensures Kept(old(mem.data), mem.data, pos.Keys + Freed(old(flat), v, npages, doFree))
    {
      hide Refines, Owns, FrameAt, Cut, CanUnmap, Frames, Freed;
      n := 0;
      var a := v;
      UnmapNone(flat, v, doFree);
      ghost var was, had, all := flat, mem.avail, Freed(flat, v, npages, doFree);
      while a < v + npages
        invariant a == v + n && n <= npages && Valid() && pos == old(pos)
        invariant forall x :: v <= x < v + n ==> CanUnmap(was, x, doFree, mem)
        invariant doFree ==> Owns(flat, a, npages - n, mem.avail, pos)
        invariant flat == Cut(was, v, n) && mem.avail == had + Freed(was, v, n, doFree)
        invariant Kept(old(mem.tables), mem.tables, pos.Keys + all) && Kept(old(mem.data), mem.data, pos.Keys + all)
      {
        UnmapStep(was, v, n, npages, doFree, flat, mem.avail, pos);
        SameAt(was, flat, a, doFree, mem);
        s := UnmapOne(a, doFree);
        if !s.Done? {
          return;
        }
        n, a := n + 1, a + 1;
      }
      s := Done;
    }

    /** kalloc, filling the frame, and mappages of one page; the frame is freed again when a table is
        missing. The common part of the loops of uvmalloc and uvmcopy. */
    method AllocOne(v: nat, content: Page, perm: nat) returns (s: Status, f: nat)
      requires Valid() && perm < 1024 && v < 0x10_0000_0000_0000
      modifies mem, this`pos, this`flat
      ensures Valid()
      ensures s.Done? ==> v < MAXVPN && v !in old(flat) && flat == old(flat)[v := MakePte(f, perm)]
      ensures s.Done? ==> Books(old(mem.avail), old(pos), mem.avail, pos, {f})
                          && f in mem.data && mem.data[f] == content && mem.Managed(f)
      ensures !s.Done? ==> flat == old(flat)
      ensures s.NoMemory? ==> Books(old(mem.avail), old(pos), mem.avail, pos, {})
      ensures s.Panic? ==> v >= MAXVPN || v in old(flat)
      ensures Kept(old(mem.tables), mem.tables, old(mem.avail) + old(pos).Keys)
      ensures Kept(old(mem.data), mem.data, old(mem.avail) + old(pos).Keys)
    {
      hide Refines;
      f := TakeFrame(content);
      if f == 0 {
        return NoMemory, 0;
      }
      s := MapPage(v, f, perm);
      if s.NoMemory? {
        FreeFrame(f);
      }
    }

    /** mappages of one page. */
    method MapPage(v: nat, frame: nat, perm: nat) returns (s: Status)
      requires Valid() && perm < 1024 && v < 0x10_0000_0000_0000
      modifies mem, this`pos, this`flat
      ensures Valid()
      ensures s.Done? ==> v < MAXVPN && v !in old(flat) && flat == old(flat)[v := MakePte(frame, perm)]
      ensures !s.Done? ==> flat == old(flat)
      ensures s.Panic? ==> v >= MAXVPN || v in old(flat)
      ensures Grown(old(mem.avail), old(pos), mem.avail, pos)
      ensures Kept(old(mem.tables), mem.tables, old(mem.avail) + old(pos).Keys)
      ensures Kept(old(mem.data), mem.data, old(mem.avail) + old(pos).Keys)
    {
      hide Refines;
      OnePage(v, frame);
      ghost var n, was := 0, flat;
      s, n := MapPages(v * PGSIZE, PGSIZE, frame * PGSIZE, perm);
      assert n <= 1 && PutRun(was, v, frame, perm, 0) == was;
      assert PutRun(was, v, frame, perm, 1) == PutRun(was, v, frame, perm, 0)[v := MakePte(frame, perm)];
    }

    /** uvmdealloc: the pages from PGROUNDUP(newsz) up to PGROUNDUP(oldsz) are unmapped and freed. */
    method UvmDealloc(oldsz: nat, newsz: nat) returns (s: Status, r: nat)
      requires Valid() && oldsz <= MAXVA && Owns(flat, Pages(newsz), Span(newsz, oldsz), mem.avail, pos)
      modifies mem, this`pos, this`flat
      ensures Valid() && pos == old(pos) && r == if newsz >= oldsz then oldsz else newsz
      ensures s.Done? <==> forall x :: Pages(newsz) <= x < Pages(oldsz) ==> CanUnmap(old(flat), x, true, mem)
      ensures s.Done? ==> flat == Cut(old(flat), Pages(newsz), Span(newsz, oldsz))
      ensures s.Done? ==> forall x :: x in flat <==> x in old(flat) && !(newsz <= x * PGSIZE < oldsz)
      ensures s.Done? ==> forall x :: x in flat ==> flat[x] == old(flat)[x]
      ensures s.Done? ==> mem.avail == old(mem.avail) + Frames(old(flat), Pages(newsz), Span(newsz, oldsz))
      ensures Kept(old(mem.tables), mem.tables, pos.Keys + Frames(old(flat), Pages(newsz), Span(newsz, oldsz)))
      ensures Kept(old(mem.data), mem.data, pos.Keys + Frames(old(flat), Pages(newsz), Span(newsz, oldsz)))
    {
      hide Refines;
      s := Done;
      ghost var was := flat;
      CutPlain(was, newsz, oldsz);
      if newsz >= oldsz {
        return Done, oldsz;
      }
      if Pages(newsz) < Pages(oldsz) {
        ghost var n;
        s, n := UnmapRange(Pages(newsz), Pages(oldsz) - Pages(newsz), true);
      }
      r := newsz;
    }

    /** Where the loops of uvmalloc and uvmcopy stand after n pages. */
    ghost predicate Filling(was: map<nat, Pte>, v: nat, n: nat, want: Want, had: set<nat>,
                            places: map<nat, Pos>)
      reads this, mem
    {
      && Valid() && Stretch(was, flat, v, n, had, places, mem.avail, pos) && Holds(flat, v, n, want, mem.data)
      && forall f {:trigger mem.Managed(f)} :: f in had ==> mem.Managed(f)
    }

    /** One more page of uvmalloc or uvmcopy. */
    method FillOne(a: nat, content: Page, perm: nat, ghost was: map<nat, Pte>, ghost v: nat,
                   ghost n: nat, ghost want: Want, ghost had: set<nat>, ghost places: map<nat, Pos>)
      returns (s: Status)
      requires Filling(was, v, n, want, had, places) && a == v + n && perm < 1024 && a < 0x10_0000_0000_0000
      requires want(a) == (content, MakePte(0, perm).flags)
      modifies mem, this`pos, this`flat
      ensures s.Done? ==> Filling(was, v, n + 1, want, had, places)
      ensures s.NoMemory? ==> Filling(was, v, n, want, had, places)
      ensures s.Panic? ==> Valid() && (a >= MAXVPN || a in was)
      ensures Touched(mem, old(mem.tables), old(mem.data), old(mem.avail) + old(pos).Keys)
      ensures forall f :: f in old(mem.avail) + old(pos).Keys ==> f in had + places.Keys
    {
      hide Refines, Kept, Stretch, Holds;
      ghost var avail, p, m, data := mem.avail, pos, flat, mem.data;
      FromFree(was, m, v, n, had, places, avail, p);
      StretchApart(was, m, v, n, had, places, avail, p, a);
      var f;
      s, f := AllocOne(a, content, perm);
      if s.Done? {
        StretchGrows(was, m, v, n, had, places, avail, p, f, perm, mem.avail, pos, a);
        HoldsGrows(was, m, v, n, had, places, avail, p, want, data, MakePte(f, perm), mem.data, a);
      } else if s.NoMemory? {
        StretchFails(was, m, v, n, had, places, avail, p, mem.avail, pos);
        HoldsKept(was, m, v, n, had, places, avail, p, want, data, mem.data);
      }
    }

    /** uvmalloc's loop, in page numbers. */
    method Grow(v: nat, newsz: nat, ghost was: map<nat, Pte>, ghost had: set<nat>, ghost places: map<nat, Pos>)
      returns (s: Status, ghost n: nat)
      requires Filling(was, v, 0, ZeroedPages(), had, places) && v <= MAXVPN && newsz < 0x1_0000_0000_0000_0000
      modifies mem, this`pos, this`flat
      ensures Valid()
      ensures s.Done? ==> Filling(was, v, n, ZeroedPages(), had, places)
      ensures s.Done? ==> n == if v < Pages(newsz) then Pages(newsz) - v else 0
      ensures s.NoMemory? ==> flat == was && Grown(had, places, mem.avail, pos)
      ensures s.Panic? ==> v + n < Pages(newsz) && (v + n >= MAXVPN || v + n in was)
      ensures !s.Panic? ==> Touched(mem, old(mem.tables), old(mem.data), had + places.Keys)
    {
      hide Refines, Kept, Stretch, Holds, Filled, Pages, Lists;
      ghost var t0, d0 := mem.tables, mem.data;
      KeptSame(t0, had + places.Keys);
      KeptSame(d0, had + places.Keys);
      var a := v;
      n := 0;
      while a * PGSIZE < newsz
        invariant a == v + n && a <= (if v <= Pages(newsz) then Pages(newsz) else v)
        invariant Filling(was, v, n, ZeroedPages(), had, places)
        invariant Touched(mem, t0, d0, had + places.Keys)
        decreases Pages(newsz) - a
      {
        BelowPages(a, newsz);
        ghost var t1, d1, more := mem.tables, mem.data, mem.avail + pos.Keys;
        StretchLow(was, flat, v, n, had, places, mem.avail, pos);
        s := FillOne(a, Filled(0), PTE_W + PTE_X + PTE_R + PTE_U, was, v, n, ZeroedPages(), had, places);
        if s.Panic? {
          return;
        }
        TouchedMore(t0, d0, t1, d1, mem, had + places.Keys, more);
        if s.NoMemory? {
          Undo(a, v, was, n, had, places, t0, d0);
          return;
        }
        n, a := n + 1, a + 1;
      }
      BelowPages(a, newsz);
      s := Done;
    }

    /** uvmalloc: zeroed frames behind the pages of oldsz, or none at all when memory runs out. */
    method UvmAlloc(oldsz: nat, newsz: nat) returns (s: Status, r: nat, ghost n: nat)
      requires Valid() && oldsz <= MAXVA && newsz < 0x1_0000_0000_0000_0000
      modifies mem, this`pos, this`flat
      ensures Valid()
      ensures s.Done? ==> r == if newsz < oldsz then oldsz else newsz
      ensures s.Done? ==> n == Span(oldsz, newsz)
      ensures s.Done? ==> Filling(old(flat), Pages(oldsz), n, ZeroedPages(), old(mem.avail), old(pos))
      ensures s.Done? ==> forall x :: x in flat <==> x in old(flat) || oldsz <= x * PGSIZE < newsz
      ensures s.Done? ==> forall x :: x in old(flat) ==> flat[x] == old(flat)[x]
      ensures s.Done? ==> forall x :: x in flat && x !in old(flat) ==>
        && flat[x].flags == 31 && flat[x].frame in old(mem.avail) && flat[x].frame in mem.data
        && forall i :: 0 <= i < PGSIZE ==> mem.data[flat[x].frame][i] == 0
      ensures s.NoMemory? ==> r == 0 && flat == old(flat) && Grown(old(mem.avail), old(pos), mem.avail, pos)
      ensures s.Panic? ==> n < Span(oldsz, newsz) && (Pages(oldsz) + n >= MAXVPN || Pages(oldsz) + n in old(flat))
      ensures !s.Panic? ==> Touched(mem, old(mem.tables), old(mem.data), old(mem.avail) + old(pos).Keys)
    {
      hide Refines;
      ghost var was, had, places := flat, mem.avail, pos;
      if newsz < oldsz {
        NoSpan(oldsz, newsz);
        return Done, oldsz, 0;
      }
      s, n := Grow(Pages(oldsz), newsz, flat, mem.avail, pos);
      r := if s.Done? then newsz else 0;
      if s.Done? { ZeroedPlain(was, flat, oldsz, newsz, had, places, mem.avail, pos, mem.data); }
    }

    /** The error path of uvmalloc: uvmdealloc of what was added so far. */
    method Undo(a: nat, v: nat, ghost was: map<nat, Pte>, ghost n: nat, ghost had: set<nat>,
                ghost places: map<nat, Pos>, ghost t0: Tables, ghost d0: map<nat, Page>)
      requires Filling(was, v, n, ZeroedPages(), had, places) && a == v + n <= MAXVPN
      requires Touched(mem, t0, d0, had + places.Keys)
      modifies mem, this`pos, this`flat
      ensures Valid() && flat == was && Grown(had, places, mem.avail, pos) && Touched(mem, t0, d0, had + places.Keys)
    {
      hide Refines, Stretch, Holds, Kept;
      ghost var t1, d1 := mem.tables, mem.data;
      FromFree(was, flat, v, n, had, places, mem.avail, pos);
      ghost var more := pos.Keys + Frames(flat, v, n);
      WholePages(v, n);
      CanUndo(was, flat, v, n, ZeroedPages(), had, places, mem.avail, pos, mem, mem.data);
      var s, r := UvmDealloc(a * PGSIZE, v * PGSIZE);
      assert Touched(mem, t1, d1, more);
      TouchedMore(t0, d0, t1, d1, mem, had + places.Keys, more);
    }

    /** kalloc and filling the frame. */
    method TakeFrame(content: Page) returns (f: nat)
      requires Valid()
      modifies mem
      ensures Valid()
      ensures f == 0 ==> mem.free == [] && mem.avail == old(mem.avail) && mem.tables == old(mem.tables)
                         && mem.data == old(mem.data)
      ensures f != 0 ==> f in old(mem.avail) && mem.avail == old(mem.avail) - {f} && f !in pos && mem.Managed(f)
      ensures f != 0 ==> f in mem.data && mem.data[f] == content
      ensures Kept(old(mem.tables), mem.tables, {f}) && Kept(old(mem.data), mem.data, {f})
    {
      ghost var t := mem.tables;
      f := mem.Kalloc();
      if f != 0 {
        mem.SetData(f, content);
        OtherFrames(t, mem.tables, root, pos, flat);
      }
    }

    /** kfree of a frame that is no table. */
    method FreeFrame(f: nat)
      requires Valid() && f !in mem.avail && f !in pos && mem.Managed(f)
      modifies mem
      ensures Valid() && mem.avail == old(mem.avail) + {f}
      ensures Kept(old(mem.tables), mem.tables, {f}) && Kept(old(mem.data), mem.data, {f})
    {
      ghost var t := mem.tables;
      assert f * PGSIZE / PGSIZE == f;
      var ok := mem.Kfree(f * PGSIZE);
      OtherFrames(t, mem.tables, root, pos, flat);
    }
  }

  /** No frame but those of s was written to. */
  ghost predicate Touched(mem: Phys, tables: Tables, data: map<nat, Page>, s: set<nat>)
    reads mem
  {
    Kept(tables, mem.tables, s) && Kept(data, mem.data, s)
  }

  lemma TouchedMore(t0: Tables, d0: map<nat, Page>, t1: Tables, d1: map<nat, Page>, mem: Phys, s: set<nat>,
                    more: set<nat>)
    requires Kept(t0, t1, s) && Kept(d0, d1, s) && Touched(mem, t1, d1, more) && forall f :: f in more ==> f in s
    ensures Touched(mem, t0, d0, s)
  {
  }

  lemma KeptSame<T>(m: map<nat, T>, s: set<nat>)
    ensures Kept(m, m, s)
  {
  }

  /** Page v can be unmapped. */
  predicate CanUnmap(flat: map<nat, Pte>, v: nat, doFree: bool, mem: Phys)
  {
    v < MAXVPN && v in flat && flat[v].flags != 1 && (doFree ==> mem.Managed(flat[v].frame))
  }

  function FrameAt(flat: map<nat, Pte>, v: nat, doFree: bool): set<nat>
  {
    if doFree && v in flat then {flat[v].frame} else {}
  }

  /** What uvmunmap's round for page v + n is about, and what it leaves for the next round. */
  lemma UnmapStep(was: map<nat, Pte>, v: nat, n: nat, npages: nat, doFree: bool,
                  flat: map<nat, Pte>, avail: set<nat>, pos: map<nat, Pos>)
    requires n < npages && flat == Cut(was, v, n) && (doFree ==> Owns(flat, v + n, npages - n, avail, pos))
    ensures v + n in flat <==> v + n in was
    ensures v + n in was ==> flat[v + n] == was[v + n]
    ensures FrameAt(flat, v + n, doFree) <= Freed(was, v, npages, doFree)
    ensures Freed(was, v, n + 1, doFree) == Freed(was, v, n, doFree) + FrameAt(flat, v + n, doFree)
    ensures Cut(was, v, n + 1) == flat - {v + n}
    ensures doFree ==> Owns(flat, v + n, 1, avail, pos)
    ensures doFree ==> Owns(flat - {v + n}, v + n + 1, npages - n - 1, avail + FrameAt(flat, v + n, doFree), pos)
  {
    CutAt(was, v, n, v + n);
    if doFree && v + n in was {
      FramesAt(was, v, npages, v + n);
    }
  }

  lemma UnmapNone(was: map<nat, Pte>, v: nat, doFree: bool)
    ensures Cut(was, v, 0) == was && Freed(was, v, 0, doFree) == {}
  {
  }

  lemma SameAt(was: map<nat, Pte>, flat: map<nat, Pte>, x: nat, doFree: bool, mem: Phys)
    requires (x in flat <==> x in was) && (x in was ==> flat[x] == was[x])
    ensures CanUnmap(flat, x, doFree, mem) <==> CanUnmap(was, x, doFree, mem)
  {
  }

  /** The frames that unmapping the n pages from v on frees. */
  ghost function Freed(flat: map<nat, Pte>, v: nat, n: nat, doFree: bool): set<nat>
  {
    if doFree then Frames(flat, v, n) else {}
  }

  /** The pages v .. v + n - 1, as far as they are mapped, own their frames: no two share one, and
      no frame is free or a table of this tree. */
  ghost predicate Owns(flat: map<nat, Pte>, v: nat, n: nat, avail: set<nat>, pos: map<nat, Pos>)
  {
    && (forall x :: v <= x < v + n && x in flat ==> flat[x].frame !in avail && flat[x].frame !in pos)
    && forall x, y :: v <= x < y < v + n && x in flat && y in flat ==> flat[x].frame != flat[y].frame
  }

  /** flat with the n pages from v on mapped to consecutive frames. */
  function PutRun(flat: map<nat, Pte>, v: nat, frame: nat, perm: nat, n: nat): map<nat, Pte>
  {
    if n == 0 then flat else PutRun(flat, v, frame, perm, n - 1)[v + n - 1 := MakePte(frame + n - 1, perm)]
  }

  lemma {:induction false} PutRunAt(flat: map<nat, Pte>, v: nat, frame: nat, perm: nat, n: nat, x: nat)
    ensures x in PutRun(flat, v, frame, perm, n) <==> x in flat || v <= x < v + n
    ensures v <= x < v + n ==> PutRun(flat, v, frame, perm, n)[x] == MakePte(frame + x - v, perm)
    ensures x in flat && !(v <= x < v + n) ==> PutRun(flat, v, frame, perm, n)[x] == flat[x]
  {
    if n > 0 {
      PutRunAt(flat, v, frame, perm, n - 1, x);
    }
  }

  /** The page of va + size - 1 in 64-bit arithmetic. */
  function LastPage(va: nat, size: nat): nat { (va + size - 1) % 0x1_0000_0000_0000_0000 / PGSIZE }

  lemma LastPageIs(va: nat, size: nat)
    ensures size > 0 && va + size <= 0x1_0000_0000_0000_0000 ==>
      LastPage(va, size) * PGSIZE < va + size <= (LastPage(va, size) + 1) * PGSIZE
    ensures size == 0 && va > 0 && va < 0x1_0000_0000_0000_0000 ==> LastPage(va, size) == (va - 1) / PGSIZE
    ensures va < 0x1_0000_0000_0000_0000 && size < 0x1_0000_0000_0000_0000 < va + size ==>
      LastPage(va, size) == (va + size - 1 - 0x1_0000_0000_0000_0000) / PGSIZE
  {
  }

  lemma PutRunPlain(flat: map<nat, Pte>, v: nat, frame: nat, perm: nat, n: nat)
    requires Unmapped(flat, v, n)
    ensures var m := PutRun(flat, v, frame, perm, n);
      && (forall x :: x in m <==> x in flat || v <= x < v + n)
      && (forall x :: x in flat ==> !(v <= x < v + n) && m[x] == flat[x])
      && forall x :: v <= x < v + n ==> m[x] == MakePte(frame + (x - v), perm)
  {
    forall x: nat
      ensures x in PutRun(flat, v, frame, perm, n) <==> x in flat || v <= x < v + n
      ensures v <= x < v + n ==> PutRun(flat, v, frame, perm, n)[x] == MakePte(frame + (x - v), perm)
      ensures x in flat && !(v <= x < v + n) ==> PutRun(flat, v, frame, perm, n)[x] == flat[x]
    {
      PutRunAt(flat, v, frame, perm, n, x);
    }
  }

  /** What uvmcopy should put into a page: the contents and flags of the same page of flat. */
  ghost function CopyOf(flat: map<nat, Pte>, data: map<nat, Page>): Want
  {
    x => if x in flat && flat[x].frame in data then (data[flat[x].frame], flat[x].flags) else (Filled(0), 0)
  }

  /** The frames of t's pages below n are in memory, and neither free nor tables of u. */
  ghost predicate HasData(t: UserTable, u: UserTable, n: nat)
    reads t, t.mem, u
  {
    forall x :: 0 <= x < n && x in t.flat ==>
      && t.flat[x].frame in t.mem.data && t.flat[x].frame !in t.mem.avail && t.flat[x].frame !in u.pos
      && t.flat[x].flags < 1024
  }

  /** Two page tables over the same memory that share no table. */
  ghost predicate Separate(t: UserTable, u: UserTable)
    reads t, u, t.mem
  {
    t != u && t.mem == u.mem && t.Valid() && u.Valid() && t.pos.Keys !! u.pos.Keys
  }

  /** Reading page a of the parent: walk without allocation. */
  method PageOf(t: UserTable, a: nat) returns (r: Option<Pte>)
    requires t.Valid()
    modifies t.mem, t`pos
    ensures t.Valid() && t.pos == old(t.pos) && t.mem.tables == old(t.mem.tables) && t.mem.data == old(t.mem.data)
    ensures t.mem.avail == old(t.mem.avail) && t.mem.free == old(t.mem.free)
    ensures r == if a < MAXVPN && a in t.flat then Some(t.flat[a]) else None
    ensures r.Some? ==> r.value.V()
  {
    var s, f, i := t.Walk(a * PGSIZE, false);
    assert a * PGSIZE / PGSIZE == a && (a * PGSIZE >= MAXVA <==> a >= MAXVPN);
    r := None;
    if s.Done? {
      WalkEnds(t.mem.tables, t.root, t.pos, t.flat, f, a);
      if t.mem.tables[f][i].V() {
        r := Some(t.mem.tables[f][i]);
      }
    }
  }

  /** Another table survives what happens to free frames and to this table's. */
  lemma OtherTable(tables: Tables, tables': Tables, s: set<nat>, root: nat, pos: map<nat, Pos>, flat: map<nat, Pte>)
    requires Refines(tables, root, pos, flat) && Kept(tables, tables', s)
    requires forall f {:trigger pos[f]} :: f in pos ==> f !in s
    ensures Refines(tables', root, pos, flat)
  {
    forall f | f in pos ensures f in tables' && tables'[f] == tables[f] {}
    OtherFrames(tables, tables', root, pos, flat);
  }

  /** The books say that new tables and data frames were free before. */
  lemma FromFree(was: map<nat, Pte>, flat: map<nat, Pte>, v: nat, n: nat, had: set<nat>, places: map<nat, Pos>,
                 free: set<nat>, pos: map<nat, Pos>)
    requires Stretch(was, flat, v, n, had, places, free, pos)
    ensures forall f :: f in Frames(flat, v, n) ==> f in had
    ensures forall f :: f in pos ==> f in had || f in places
    ensures forall f :: f in free ==> f in had
  {
    assert forall f :: f in pos ==> f in free + Frames(flat, v, n) + pos.Keys;
  }

  /** Where uvmcopy stands after i pages. */
  ghost predicate Copying(t: UserTable, u: UserTable, i: nat, was: map<nat, Pte>, want: Want,
                          had: set<nat>, places: map<nat, Pos>)
    reads t, u, t.mem, u.mem
  {
    && t != u && t.mem == u.mem && t.Valid()
    && (forall f {:trigger t.pos[f]} :: f in t.pos ==> f !in had && f !in places)
    && u.Filling(was, 0, i, want, had, places)
  }

  /** The parent's contents as uvmcopy finds them. */
  ghost predicate Source(t: UserTable, n: nat, data: map<nat, Page>, taken: set<nat>)
    reads t, t.mem
  {
    Kept(data, t.mem.data, taken) && forall x :: 0 <= x < n && x in t.flat ==>
      t.flat[x].frame in data && t.flat[x].frame !in taken && t.flat[x].flags < 1024
  }

  lemma KeptOn<T>(m0: map<nat, T>, m1: map<nat, T>, m2: map<nat, T>, had: set<nat>, s: set<nat>)
    requires Kept(m0, m1, had) && Kept(m1, m2, s) && forall f :: f in s ==> f in had
    ensures Kept(m0, m2, had)
  {
  }

  lemma SourceAt(flat: map<nat, Pte>, data: map<nat, Page>, now: map<nat, Page>, had: set<nat>, x: nat)
    requires Kept(data, now, had) && x in flat && flat[x].frame in data && flat[x].frame !in had && flat[x].V()
    ensures flat[x].frame in now
    ensures CopyOf(flat, data)(x) == (now[flat[x].frame], MakePte(0, flat[x].flags).flags)
  {
  }

  /** One page of uvmcopy. */
  method CopyOne(t: UserTable, u: UserTable, i: nat, ghost n: nat, ghost was: map<nat, Pte>, ghost data: map<nat, Page>,
                 ghost had: set<nat>, ghost places: map<nat, Pos>)
    returns (s: Status)
    requires Copying(t, u, i, was, CopyOf(t.flat, data), had, places) && Source(t, n, data, had + places.Keys)
    requires i < n && i < 0x10_0000_0000_0000
    modifies u.mem, t`pos, u`pos, u`flat
    ensures t.pos == old(t.pos)
    ensures s.Done? ==> Copying(t, u, i + 1, was, CopyOf(t.flat, data), had, places) && i in t.flat
    ensures s.NoMemory? ==> Copying(t, u, i, was, CopyOf(t.flat, data), had, places)
    ensures !s.Panic? ==> Source(t, n, data, had + places.Keys)
    ensures Touched(u.mem, old(u.mem.tables), old(u.mem.data), old(u.mem.avail) + old(u.pos).Keys)
    ensures forall f :: f in old(u.mem.avail) + old(u.pos).Keys ==> f in had + places.Keys
    ensures s.Panic? ==> i >= MAXVPN || i !in t.flat || i in was
  {
    hide Refines, Stretch, Holds, Kept, CopyOf;
    FromFree(was, u.flat, 0, i, had, places, u.mem.avail, u.pos);
    var e := PageOf(t, i);
    KeptSame(u.mem.tables, u.mem.avail + u.pos.Keys);
    KeptSame(u.mem.data, u.mem.avail + u.pos.Keys);
    if e.None? {
      return Panic;
    }
    SourceAt(t.flat, data, u.mem.data, had + places.Keys, i);
    ghost var tables, avail, p, now := u.mem.tables, u.mem.avail, u.pos, u.mem.data;
    s := u.FillOne(i, u.mem.data[e.value.frame], e.value.flags, was, 0, i, CopyOf(t.flat, data), had, places);
    if !s.Panic? {
      OtherTable(tables, t.mem.tables, avail + p.Keys, t.root, t.pos, t.flat);
      FromFree(was, u.flat, 0, if s.Done? then i + 1 else i, had, places, u.mem.avail, u.pos);
      KeptOn(data, now, u.mem.data, had + places.Keys, avail + p.Keys);
    }
  }

  lemma LeafFlags(flat: map<nat, Pte>, data: map<nat, Page>)
    ensures forall x :: CopyOf(flat, data)(x).1 == 1 ==> x in flat && flat[x].flags == 1
  {
  }

  /** uvmcopy: the child gets its own copy of every page below sz, or, when memory runs out, is as
      before; a panic names a page that is missing in the parent, too high, already in the child, or
      without leaf flags. */
  method UvmCopy(t: UserTable, u: UserTable, sz: nat) returns (s: Status, ghost bad: nat)
    requires Separate(t, u) && HasData(t, u, Pages(sz)) && sz < 0x1_0000_0000_0000_0000
    modifies u.mem, t`pos, u`pos, u`flat
    ensures !s.Panic? ==> Separate(t, u) && t.pos == old(t.pos)
    ensures s.Done? ==>
      u.Filling(old(u.flat), 0, Pages(sz), CopyOf(t.flat, old(u.mem.data)), old(u.mem.avail), old(u.pos))
    ensures s.Done? ==> forall x :: x in u.flat <==> x in old(u.flat) || 0 <= x * PGSIZE < sz
    ensures s.Done? ==> forall x :: x in old(u.flat) ==> u.flat[x] == old(u.flat)[x]
    ensures s.Done? ==> forall x :: x in u.flat && x !in old(u.flat) ==>
      && x in t.flat && u.flat[x].flags == t.flat[x].flags && t.flat[x].frame in old(u.mem.data)
      && u.flat[x].frame in old(u.mem.avail) && u.flat[x].frame in u.mem.data
      && u.mem.data[u.flat[x].frame] == old(u.mem.data)[t.flat[x].frame]
    ensures s.NoMemory? ==> u.flat == old(u.flat) && Grown(old(u.mem.avail), old(u.pos), u.mem.avail, u.pos)
    ensures !s.Panic? ==> Touched(u.mem, old(u.mem.tables), old(u.mem.data), old(u.mem.avail) + old(u.pos).Keys)
    ensures s.Panic? ==> bad < Pages(sz)
    ensures s.Panic? ==> bad >= MAXVPN || bad !in t.flat || t.flat[bad].flags == 1 || bad in old(u.flat)
  {
    hide Refines, Stretch, Holds, Kept, CopyOf;
    ghost var was, had, places, data := u.flat, u.mem.avail, u.pos, u.mem.data;
    var i := 0;
    bad := 0;
    StretchStarts(was, 0, had, places, CopyOf(t.flat, data), data);
    LeafFlags(t.flat, data);
    ghost var t0, taken := u.mem.tables, had + places.Keys;
    KeptSame(data, taken);
    KeptSame(t0, taken);
    while i * PGSIZE < sz
      invariant i <= Pages(sz) && t.pos == old(t.pos)
      invariant Copying(t, u, i, was, CopyOf(t.flat, data), had, places)
      invariant Source(t, Pages(sz), data, had + places.Keys) && forall x :: 0 <= x < i ==> x in t.flat
      invariant Touched(u.mem, t0, data, taken)
      decreases Pages(sz) - i
    {
      BelowPages(i, sz);
      ghost var t1, d1, more := u.mem.tables, u.mem.data, u.mem.avail + u.pos.Keys;
      s := CopyOne(t, u, i, Pages(sz), was, data, had, places);
      if s.Panic? {
        return s, i;
      }
      TouchedMore(t0, data, t1, d1, u.mem, taken, more);
      if s.NoMemory? {
        s, bad := UndoCopy(t, u, i, was, CopyOf(t.flat, data), had, places, t0, data);
        return;
      }
      i := i + 1;
    }
    BelowPages(i, sz);
    FromFree(was, u.flat, 0, i, had, places, u.mem.avail, u.pos);
    CopiedPlain(was, u.flat, t.flat, sz, had, places, u.mem.avail, u.pos, data, u.mem.data);
    s := Done;
  }

  /** What uvmdealloc leaves, in plain terms. */
  lemma CutPlain(was: map<nat, Pte>, from: nat, to: nat)
    ensures var m := Cut(was, Pages(from), Span(from, to));
      && (forall x :: x in m <==> x in was && !(from <= x * PGSIZE < to))
      && forall x :: x in m ==> m[x] == was[x]
  {
    var v, n := Pages(from), Span(from, to);
    forall x: nat ensures from <= x * PGSIZE < to <==> v <= x < v + n
                  ensures x in Cut(was, v, n) <==> x in was && !(v <= x < v + n)
                  ensures x in Cut(was, v, n) ==> Cut(was, v, n)[x] == was[x]
    {
      BelowPages(x, from);
      BelowPages(x, to);
      CutAt(was, v, n, x);
    }
  }

  /** The pages of a stretch, in plain terms. */
  lemma StretchPlain(was: map<nat, Pte>, flat: map<nat, Pte>, from: nat, to: nat, had: set<nat>,
                     places: map<nat, Pos>, free: set<nat>, pos: map<nat, Pos>)
    requires Stretch(was, flat, Pages(from), Span(from, to), had, places, free, pos)
    ensures forall x :: x in flat <==> x in was || from <= x * PGSIZE < to
    ensures forall x :: x in was ==> flat[x] == was[x]
    ensures forall x :: x in flat && x !in was ==>
      Pages(from) <= x < Pages(from) + Span(from, to) && flat[x].frame in had
  {
    var v, n := Pages(from), Span(from, to);
    forall x: nat ensures from <= x * PGSIZE < to <==> v <= x < v + n
                  ensures x in was <==> x in flat && !(v <= x < v + n)
                  ensures x in was ==> flat[x] == was[x]
    {
      BelowPages(x, from);
      BelowPages(x, to);
      CutAt(flat, v, n, x);
    }
  }

  lemma ZeroedPlain(was: map<nat, Pte>, flat: map<nat, Pte>, from: nat, to: nat, had: set<nat>,
                    places: map<nat, Pos>, free: set<nat>, pos: map<nat, Pos>, data: map<nat, Page>)
    requires Stretch(was, flat, Pages(from), Span(from, to), had, places, free, pos)
    requires Holds(flat, Pages(from), Span(from, to), ZeroedPages(), data)
    ensures forall x :: x in flat <==> x in was || from <= x * PGSIZE < to
    ensures forall x :: x in was ==> flat[x] == was[x]
    ensures forall x :: x in flat && x !in was ==>
      && flat[x].flags == 31 && flat[x].frame in had && flat[x].frame in data
      && forall i :: 0 <= i < PGSIZE ==> data[flat[x].frame][i] == 0
  {
    hide Stretch, Holds, Filled;
    StretchPlain(was, flat, from, to, had, places, free, pos);
    forall x | x in flat && x !in was
      ensures flat[x].flags == 31 && flat[x].frame in data
      ensures forall i :: 0 <= i < PGSIZE ==> data[flat[x].frame][i] == 0
    {
      ZeroAt(flat, Pages(from), Span(from, to), data, x);
    }
  }

  lemma ZeroAt(flat: map<nat, Pte>, v: nat, n: nat, data: map<nat, Page>, x: nat)
    requires Holds(flat, v, n, ZeroedPages(), data) && v <= x < v + n
    ensures x in flat && flat[x].flags == 31 && flat[x].frame in data
    ensures forall i :: 0 <= i < PGSIZE ==> data[flat[x].frame][i] == 0
  {
    assert HoldsAt(flat, x, ZeroedPages(), data);
  }

  lemma CopiedPlain(was: map<nat, Pte>, flat: map<nat, Pte>, parent: map<nat, Pte>, sz: nat, had: set<nat>,
                    places: map<nat, Pos>, free: set<nat>, pos: map<nat, Pos>, data: map<nat, Page>,
                    data': map<nat, Page>)
    requires Stretch(was, flat, 0, Pages(sz), had, places, free, pos)
    requires Holds(flat, 0, Pages(sz), CopyOf(parent, data), data')
    requires forall x :: x in parent && x < Pages(sz) ==> parent[x].frame in data
    requires forall x :: 0 <= x < Pages(sz) ==> x in parent
    ensures forall x :: x in flat <==> x in was || 0 <= x * PGSIZE < sz
    ensures forall x :: x in was ==> flat[x] == was[x]
    ensures forall x :: x in flat && x !in was ==>
      && x in parent && flat[x].flags == parent[x].flags && parent[x].frame in data
      && flat[x].frame in had && flat[x].frame in data' && data'[flat[x].frame] == data[parent[x].frame]
  {
    hide Stretch, Holds, CopyOf;
    assert Pages(0) == 0 && Span(0, sz) == Pages(sz);
    StretchPlain(was, flat, 0, sz, had, places, free, pos);
    forall x | x in flat && x !in was
      ensures x in parent && flat[x].flags == parent[x].flags && parent[x].frame in data
              && flat[x].frame in data' && data'[flat[x].frame] == data[parent[x].frame]
    {
      CopyAt(flat, parent, Pages(sz), data, data', x);
    }
  }

  lemma CopyAt(flat: map<nat, Pte>, parent: map<nat, Pte>, n: nat, data: map<nat, Page>, data': map<nat, Page>, x: nat)
    requires Holds(flat, 0, n, CopyOf(parent, data), data') && x < n && x in parent && parent[x].frame in data
    ensures x in flat && flat[x].flags == parent[x].flags
    ensures flat[x].frame in data' && data'[flat[x].frame] == data[parent[x].frame]
  {
    assert HoldsAt(flat, x, CopyOf(parent, data), data');
  }

  /** uvmcopy's error path: uvmunmap of the i pages copied so far. */
  method UndoCopy(t: UserTable, u: UserTable, i: nat, ghost was: map<nat, Pte>, ghost want: Want,
                  ghost had: set<nat>, ghost places: map<nat, Pos>, ghost t0: Tables, ghost d0: map<nat, Page>)
    returns (s: Status, ghost bad: nat)
    requires Copying(t, u, i, was, want, had, places) && Touched(u.mem, t0, d0, had + places.Keys)
    modifies u.mem, u`pos, u`flat
    ensures !s.Done?
    ensures s.NoMemory? ==> Separate(t, u) && u.flat == was && Grown(had, places, u.mem.avail, u.pos)
    ensures s.NoMemory? ==> Touched(u.mem, t0, d0, had + places.Keys)
    ensures s.Panic? ==> bad < i && want(bad).1 == 1
  {
    hide Refines, Stretch, Holds, Kept;
    ghost var tables, m, d1, more := u.mem.tables, u.flat, u.mem.data, u.pos.Keys + Freed(u.flat, 0, i, true);
    CanUndo(was, u.flat, 0, i, want, had, places, u.mem.avail, u.pos, u.mem, u.mem.data);
    FromFree(was, u.flat, 0, i, had, places, u.mem.avail, u.pos);
    s, bad := u.UnmapRange(0, i, true);
    if s.Done? {
      OtherTable(tables, t.mem.tables, more, t.root, t.pos, t.flat);
      assert Touched(u.mem, tables, d1, more);
      TouchedMore(t0, d0, tables, d1, u.mem, had + places.Keys, more);
      s := NoMemory;
    }
  }

  /** uvmcreate: null if there is no frame. */
  method UvmCreate(mem: Phys) returns (t: UserTable?)
    requires mem.Valid()
    modifies mem
    ensures mem.Valid() && (t == null <==> old(mem.free) == [])
    ensures t == null ==> old(mem.avail) == mem.avail == {} && mem.tables == old(mem.tables)
    ensures t == null ==> mem.data == old(mem.data)
    ensures t != null ==> fresh(t) && t.Valid() && t.mem == mem && t.flat == map[] && t.pos == map[t.root := ROOT]
    ensures t != null ==> old(mem.free) == [t.root] + mem.free && t.root in old(mem.avail)
    ensures t != null ==> mem.avail == old(mem.avail) - {t.root}
    ensures t != null ==> Touched(mem, old(mem.tables), old(mem.data), {t.root})
  {
    var f := mem.Kalloc();
    if f == 0 {
      return null;
    }
    mem.SetTable(f, Zeros());
    t := new UserTable(mem, f);
  }

  /** The new tables came from the free list, and no other frame left it. */
  ghost predicate Grown(free: set<nat>, pos: map<nat, Pos>, free': set<nat>, pos': map<nat, Pos>)
  {
    && free' <= free && free' + pos'.Keys == free + pos.Keys && free' !! pos'.Keys
    && forall f {:trigger pos[f]} {:trigger pos'[f]} :: f in pos ==> f in pos' && pos'[f] == pos[f]
  }

  /** The free frames became tables, data in the frames leaf, or stayed free. */
  ghost predicate Books(free: set<nat>, pos: map<nat, Pos>, free': set<nat>, pos': map<nat, Pos>, leaf: set<nat>)
  {
    && Grown(free, pos, free' + leaf, pos') && free' !! leaf
  }

  /** The number of pages that hold sz bytes, and PGROUNDUP(sz) in pages. */
  function Pages(sz: nat): nat { (sz + PGSIZE - 1) / PGSIZE }

  function Span(from: nat, to: nat): nat { if Pages(from) < Pages(to) then Pages(to) - Pages(from) else 0 }

  /** The n pages from v on were added to `was`: each owns a frame that was free before, the rest of
      the translations is as before, and the books balance. */
  ghost predicate Stretch(was: map<nat, Pte>, flat: map<nat, Pte>, v: nat, n: nat,
                          free: set<nat>, pos: map<nat, Pos>, free': set<nat>, pos': map<nat, Pos>)
  {
    && Cut(flat, v, n) == was && Owns(flat, v, n, free', pos')
    && (forall x :: v <= x < v + n ==> x in flat && x !in was && x < MAXVPN && flat[x].frame in free)
    && Books(free, pos, free', pos', Frames(flat, v, n))
  }

  /** The contents and flags that a page should get. */
  type Want = nat -> (Page, nat)

  /** The n pages from v on have the contents and the flags that they should. */
  ghost predicate Holds(flat: map<nat, Pte>, v: nat, n: nat, want: Want, data: map<nat, Page>)
  {
    forall x :: v <= x < v + n ==> HoldsAt(flat, x, want, data)
  }

  predicate HoldsAt(flat: map<nat, Pte>, x: nat, want: Want, data: map<nat, Page>)
  {
    x in flat && flat[x].flags == want(x).1 && flat[x].frame in data && data[flat[x].frame] == want(x).0
  }

  /** Zeroed pages that the user may read, write and execute. */
  function ZeroedPages(): Want { _ => (Filled(0), 31) }

  lemma HoldsGrows(was: map<nat, Pte>, flat: map<nat, Pte>, v: nat, n: nat, free: set<nat>, pos: map<nat, Pos>,
                   free1: set<nat>, pos1: map<nat, Pos>, want: Want, data: map<nat, Page>, e: Pte,
                   data': map<nat, Page>, a: nat)
    requires Stretch(was, flat, v, n, free, pos, free1, pos1) && Holds(flat, v, n, want, data)
    requires Kept(data, data', free1 + pos1.Keys) && a == v + n && a !in flat
    requires e.frame in data' && want(a) == (data'[e.frame], e.flags)
    ensures Holds(flat[a := e], v, n + 1, want, data')
  {
    var m: map<nat, Pte> := flat[a := e];
    forall x | v <= x < v + n + 1 ensures HoldsAt(m, x, want, data') {
      assert x < v + n ==> HoldsAt(flat, x, want, data);
    }
  }

  lemma HoldsKept(was: map<nat, Pte>, flat: map<nat, Pte>, v: nat, n: nat, free: set<nat>, pos: map<nat, Pos>,
                  free1: set<nat>, pos1: map<nat, Pos>, want: Want, data: map<nat, Page>, data': map<nat, Page>)
    requires Stretch(was, flat, v, n, free, pos, free1, pos1) && Holds(flat, v, n, want, data)
    requires Kept(data, data', free1 + pos1.Keys)
    ensures Holds(flat, v, n, want, data')
  {
    forall x | v <= x < v + n ensures HoldsAt(flat, x, want, data') {
      assert HoldsAt(flat, x, want, data);
    }
  }

  lemma BooksGrow(free: set<nat>, pos: map<nat, Pos>, free1: set<nat>, pos1: map<nat, Pos>, leaf: set<nat>,
                  f: nat, free2: set<nat>, pos2: map<nat, Pos>)
    requires Books(free, pos, free1, pos1, leaf) && Books(free1, pos1, free2, pos2, {f})
    ensures Books(free, pos, free2, pos2, leaf + {f}) && f in free1 && f in free && f !in leaf
  {
    assert free2 + {f} + pos2.Keys == free1 + pos1.Keys;
    assert free2 + (leaf + {f}) + pos2.Keys == free + pos.Keys by {
      assert free2 + (leaf + {f}) + pos2.Keys == (free2 + {f} + pos2.Keys) + leaf;
    }
  }

  lemma OwnsGrows(flat: map<nat, Pte>, v: nat, n: nat, free1: set<nat>, pos1: map<nat, Pos>, f: nat, perm: nat,
                  free2: set<nat>, pos2: map<nat, Pos>)
    requires Owns(flat, v, n, free1, pos1) && v + n !in flat && Books(free1, pos1, free2, pos2, {f})
    ensures Owns(flat[v + n := MakePte(f, perm)], v, n + 1, free2, pos2)
  {
    assert f in free1;
    forall x | v <= x < v + n && x in flat
      ensures flat[x].frame !in free2 && flat[x].frame !in pos2 && flat[x].frame != f
    {
      assert flat[x].frame !in free1 + pos1.Keys;
    }
  }

  lemma StretchGrows(was: map<nat, Pte>, flat: map<nat, Pte>, v: nat, n: nat, free: set<nat>, pos: map<nat, Pos>,
                     free1: set<nat>, pos1: map<nat, Pos>, f: nat, perm: nat, free2: set<nat>, pos2: map<nat, Pos>,
                     a: nat)
    requires Stretch(was, flat, v, n, free, pos, free1, pos1) && a == v + n && a < MAXVPN && a !in flat
    requires Books(free1, pos1, free2, pos2, {f})
    ensures Stretch(was, flat[a := MakePte(f, perm)], v, n + 1, free, pos, free2, pos2)
  {
    hide Books, Cut;
    var m: map<nat, Pte> := flat[v + n := MakePte(f, perm)];
    CutMapped(flat, v, n, MakePte(f, perm));
    CutAt(flat, v, n, v + n);
    FramesSame(flat, m, v, n);
    BooksGrow(free, pos, free1, pos1, Frames(flat, v, n), f, free2, pos2);
    OwnsGrows(flat, v, n, free1, pos1, f, perm, free2, pos2);
  }

  lemma StretchStarts(flat: map<nat, Pte>, v: nat, free: set<nat>, pos: map<nat, Pos>, want: Want, data: map<nat, Page>)
    requires free !! pos.Keys
    ensures Stretch(flat, flat, v, 0, free, pos, free, pos) && Holds(flat, v, 0, want, data) && Kept(data, data, free)
  {
  }

  lemma StretchLow(was: map<nat, Pte>, flat: map<nat, Pte>, v: nat, n: nat, free: set<nat>, pos: map<nat, Pos>,
                   free1: set<nat>, pos1: map<nat, Pos>)
    requires Stretch(was, flat, v, n, free, pos, free1, pos1) && v <= MAXVPN
    ensures v + n <= MAXVPN
  {
    assert n > 0 ==> v + n - 1 in flat;
  }

  lemma StretchFails(was: map<nat, Pte>, flat: map<nat, Pte>, v: nat, n: nat, free: set<nat>, pos: map<nat, Pos>,
                     free1: set<nat>, pos1: map<nat, Pos>, free2: set<nat>, pos2: map<nat, Pos>)
    requires Stretch(was, flat, v, n, free, pos, free1, pos1) && Books(free1, pos1, free2, pos2, {})
    ensures Stretch(was, flat, v, n, free, pos, free2, pos2)
  {
  }

  lemma StretchApart(was: map<nat, Pte>, flat: map<nat, Pte>, v: nat, n: nat, free: set<nat>, pos: map<nat, Pos>,
                     free1: set<nat>, pos1: map<nat, Pos>, x: nat)
    requires Stretch(was, flat, v, n, free, pos, free1, pos1) && x == v + n
    ensures x in flat <==> x in was
  {
    CutAt(flat, v, n, x);
  }

  /** A stretch of genuine leaves can be unmapped, which undoes it. */
  lemma CanUndo(was: map<nat, Pte>, flat: map<nat, Pte>, v: nat, n: nat, want: Want, had: set<nat>,
                places: map<nat, Pos>, free1: set<nat>, pos1: map<nat, Pos>, mem: Phys, data: map<nat, Page>)
    requires Stretch(was, flat, v, n, had, places, free1, pos1) && Holds(flat, v, n, want, data)
    requires forall f {:trigger mem.Managed(f)} :: f in had ==> mem.Managed(f)
    ensures Cut(flat, v, n) == was && Grown(had, places, free1 + Frames(flat, v, n), pos1)
    ensures Owns(flat, v, n, free1, pos1)
    ensures forall x :: v <= x < v + n ==> (CanUnmap(flat, x, true, mem) <==> want(x).1 != 1)
  {
    forall x | v <= x < v + n ensures CanUnmap(flat, x, true, mem) <==> want(x).1 != 1 {
      assert HoldsAt(flat, x, want, data) && mem.Managed(flat[x].frame);
    }
  }

  lemma BelowPages(a: nat, sz: nat)
    ensures a * PGSIZE < sz <==> a < Pages(sz)
  {
  }

  lemma NoSpan(from: nat, to: nat)
    requires to < from
    ensures Span(from, to) == 0
  {
  }

  lemma WholePages(v: nat, n: nat)
    requires v + n <= MAXVPN
    ensures Pages(v * PGSIZE) == v && Pages((v + n) * PGSIZE) == v + n && (v + n) * PGSIZE <= MAXVA
    ensures Span(v * PGSIZE, (v + n) * PGSIZE) == n
  {
  }

  lemma OnePage(v: nat, frame: nat)
    requires v < 0x10_0000_0000_0000
    ensures v * PGSIZE / PGSIZE == v && frame * PGSIZE / PGSIZE == frame && LastPage(v * PGSIZE, PGSIZE) == v
  {
  }

  /** Frames that are no tables of the tree may change. */
  /** The zeroed frame c becomes a table that entry i of table f points to. */
  lemma Hanging(tables: Tables, tables': Tables, root: nat, pos: map<nat, Pos>, flat: map<nat, Pte>, f: nat, i: nat,
                c: nat)
    requires Refines(tables, root, pos, flat) && Kept(tables, tables', {c}) && c !in pos && c in tables'
    requires f in pos && pos[f].level > 0 && i < ENTRIES && !tables[f][i].V()
    ensures f in tables' && Refines(Hung(tables', f, i, c), root, pos[c := Child(pos[f], i)], flat)
    ensures Hung(tables', f, i, c) == tables'[c := Zeros()][f := tables'[f][i := Pte(c, 1)]]
  {
    OtherFrames(tables, tables', root, pos, flat);
    AddRefines(tables', root, pos, flat, f, i, c, Hung(tables', f, i, c), pos[c := Child(pos[f], i)]);
  }

  lemma OtherFrames(tables: Tables, tables': Tables, root: nat, pos: map<nat, Pos>, flat: map<nat, Pte>)
    requires Refines(tables, root, pos, flat)
    requires forall f :: f in pos ==> f in tables' && tables'[f] == tables[f]
    ensures Refines(tables', root, pos, flat)
  {
    forall f, i | f in pos && pos[f].level > 0 && 0 <= i < ENTRIES ensures NodeOk(tables', pos, f, i) {
      assert NodeOk(tables, pos, f, i);
    }
    forall c | c in pos && c != root ensures Parented(tables', pos, c) {
      assert Parented(tables, pos, c);
      var f, i :| Points(tables, pos, f, i, c);
      assert Points(tables', pos, f, i, c);
    }
    forall f, i | f in pos && pos[f].level == 0 && 0 <= i < ENTRIES ensures LeafOk(tables', pos, flat, f, i) {
      assert LeafOk(tables, pos, flat, f, i);
    }
  }
}
