/** freewalk and uvmfree: tearing down a whole address space returns each of its frames once. */
module UvmFree {
  import opened Blocks
  import opened Sv39
  import opened Kalloc
  import opened PageTable

  function Parent(p: Pos): Pos { Pos(p.level + 1, p.key / ENTRIES) }

  /** The place of the given level above p. */
  function Up(p: Pos, level: nat): (q: Pos)
    requires p.level <= level
    ensures q.level == level
    decreases level - p.level
  {
    if p.level == level then p else Up(Parent(p), level)
  }

  /** p is q or a place below it. */
  predicate Under(p: Pos, q: Pos) { p.level <= q.level && Up(p, q.level) == q }

  /** The entry of the table at q through which the walk to the place p below it goes. */
  function Branch(p: Pos, q: Pos): nat
    requires p.level < q.level
  {
    Up(p, q.level - 1).key % ENTRIES
  }

  lemma {:induction false} UpUp(p: Pos, level: nat)
    requires p.level < level
    ensures Up(p, level) == Parent(Up(p, level - 1))
    decreases level - p.level
  {
    if p.level < level - 1 {
      UpUp(Parent(p), level);
    }
  }

  lemma ParentOfChild(q: Pos, i: nat)
    requires q.level > 0 && i < ENTRIES
    ensures Parent(Child(q, i)) == q && Child(q, i).key % ENTRIES == i
  {
  }

  /** The places below entry i of the table at q are those whose branch is i. */
  lemma UnderChild(p: Pos, q: Pos, i: nat)
    requires q.level > 0 && i < ENTRIES
    ensures Under(p, Child(q, i)) <==> p.level < q.level && Under(p, q) && Branch(p, q) == i
  {
    ParentOfChild(q, i);
    if p.level < q.level {
      UpUp(p, q.level);
      var a := Up(p, q.level - 1);
      assert a.key == a.key / ENTRIES * ENTRIES + a.key % ENTRIES;
    }
  }

  /** The frames of the tables at q and below it. */
  ghost function Below(pos: map<nat, Pos>, q: Pos): set<nat>
  {
    set c | c in pos && Under(pos[c], q)
  }

  /** Those below the first i entries of the table at q. */
  ghost function BelowFirst(pos: map<nat, Pos>, q: Pos, i: nat): set<nat>
  {
    set c | c in pos && pos[c].level < q.level && Under(pos[c], q) && Branch(pos[c], q) < i
  }

  ghost predicate Clear(tables: Tables, c: nat)
  {
    c in tables && forall i :: 0 <= i < ENTRIES ==> !tables[c][i].V()
  }

  /** No valid PTE in the level-0 tables at q and below it. */
  ghost predicate NoLeaf(tables: Tables, pos: map<nat, Pos>, q: Pos)
  {
    forall c :: c in Below(pos, q) && pos[c].level == 0 ==> Clear(tables, c)
  }

  /** Leaf PTEs grant some access, which tells them from pointers to tables. */
  ghost predicate GenuineLeaves(tables: Tables, pos: map<nat, Pos>)
  {
    forall c, i :: c in pos && pos[c].level == 0 && 0 <= i < ENTRIES && c in tables && tables[c][i].V() ==>
      tables[c][i].RWX()
  }

  /** No table hangs below an invalid entry. */
  lemma {:induction false} NothingBelow(tables: Tables, root: nat, pos: map<nat, Pos>, f: nat, i: nat, c: nat)
    requires Tree(tables, root, pos) && f in pos && pos[f].level > 0 && i < ENTRIES && !tables[f][i].V() && c in pos
    ensures !Under(pos[c], Child(pos[f], i))
    decreases 2 - pos[c].level
  {
    var q := Child(pos[f], i);
    PlaceFree(tables, root, pos, f, i, c);
    if pos[c].level < q.level {
      assert Parented(tables, pos, c);
      var g, j :| Points(tables, pos, g, j, c);
      ParentOfChild(pos[g], j);
      NothingBelow(tables, root, pos, f, i, g);
    }
  }

  /** What freewalk finds at entry i: the table below it, or nothing. */
  lemma AtEntry(tables: Tables, root: nat, pos: map<nat, Pos>, f: nat, i: nat)
    requires Tree(tables, root, pos) && f in pos && pos[f].level > 0 && i < ENTRIES
    ensures var q, e := pos[f], tables[f][i];
      if e.V() then
        e.frame in pos && pos[e.frame] == Child(q, i) && !e.RWX()
        && BelowFirst(pos, q, i + 1) == BelowFirst(pos, q, i) + Below(pos, Child(q, i))
        && BelowFirst(pos, q, i) !! Below(pos, Child(q, i)) && Below(pos, Child(q, i)) <= Below(pos, q) - {f}
      else BelowFirst(pos, q, i + 1) == BelowFirst(pos, q, i)
  {
    var q, e := pos[f], tables[f][i];
    assert NodeOk(tables, pos, f, i);
    forall c | c in pos
      ensures Under(pos[c], Child(q, i)) <==> pos[c].level < q.level && Under(pos[c], q) && Branch(pos[c], q) == i
    {
      UnderChild(pos[c], q, i);
    }
    if !e.V() {
      forall c | c in pos ensures !Under(pos[c], Child(q, i)) {
        NothingBelow(tables, root, pos, f, i, c);
      }
    }
  }

  /** No leaf was met in or below the first i entries of the table in frame f. */
  ghost predicate Progress(tables: Tables, pos: map<nat, Pos>, f: nat, i: nat)
    requires f in pos && f in tables
  {
    && (forall c :: c in BelowFirst(pos, pos[f], i) && pos[c].level == 0 ==> Clear(tables, c))
    && (pos[f].level == 0 ==> forall j :: 0 <= j < i && j < ENTRIES ==> !tables[f][j].V())
  }

  /** Entry i is a pointer: its table is not a leaf's, and freewalk goes on below it. */
  lemma AtPointer(tables: Tables, root: nat, pos: map<nat, Pos>, f: nat, i: nat)
    requires Tree(tables, root, pos) && GenuineLeaves(tables, pos) && f in pos && i < ENTRIES
    requires tables[f][i].V() && !tables[f][i].RWX()
    ensures var q, c := pos[f], tables[f][i].frame;
      && q.level > 0 && c in pos && pos[c] == Child(q, i)
      && BelowFirst(pos, q, i + 1) == BelowFirst(pos, q, i) + Below(pos, pos[c])
      && BelowFirst(pos, q, i) !! Below(pos, pos[c]) && Below(pos, pos[c]) <= Below(pos, q) - {f}
    ensures var c := tables[f][i].frame;
      && (NoLeaf(tables, pos, pos[f]) ==> NoLeaf(tables, pos, pos[c]))
      && (NoLeaf(tables, pos, pos[c]) && Progress(tables, pos, f, i) ==> Progress(tables, pos, f, i + 1))
  {
    AtEntry(tables, root, pos, f, i);
  }

  /** Entry i is a leaf. */
  lemma AtLeaf(tables: Tables, root: nat, pos: map<nat, Pos>, f: nat, i: nat)
    requires Tree(tables, root, pos) && f in pos && i < ENTRIES && tables[f][i].V() && tables[f][i].RWX()
    ensures !NoLeaf(tables, pos, pos[f])
  {
    assert pos[f].level > 0 ==> NodeOk(tables, pos, f, i);
    assert f in Below(pos, pos[f]);
  }

  /** Entry i is invalid. */
  lemma AtNothing(tables: Tables, root: nat, pos: map<nat, Pos>, f: nat, i: nat)
    requires Tree(tables, root, pos) && f in pos && i < ENTRIES && !tables[f][i].V()
    ensures BelowFirst(pos, pos[f], i + 1) == BelowFirst(pos, pos[f], i)
    ensures Progress(tables, pos, f, i) ==> Progress(tables, pos, f, i + 1)
  {
    if pos[f].level > 0 {
      AtEntry(tables, root, pos, f, i);
    }
  }

  lemma AllEntries(tables: Tables, root: nat, pos: map<nat, Pos>, f: nat)
    requires Tree(tables, root, pos) && f in pos
    ensures Below(pos, pos[f]) == BelowFirst(pos, pos[f], ENTRIES) + {f}
    ensures BelowFirst(pos, pos[f], 0) == {} && f !in BelowFirst(pos, pos[f], ENTRIES)
    ensures Progress(tables, pos, f, 0)
    ensures Progress(tables, pos, f, ENTRIES) ==> NoLeaf(tables, pos, pos[f])
  {
  }

  /** The tables in the frames s are still as in t0, and owned by the tree. */
  ghost predicate Intact(mem: Phys, t0: Tables, s: set<nat>)
    reads mem
  {
    forall c :: c in s ==>
      c in t0 && c in mem.tables && mem.tables[c] == t0[c] && c !in mem.avail && mem.Managed(c)
  }

  /** The tables below the first i entries were freed, the others and entries i .. are as before. */
  ghost predicate Walked(mem: Phys, t0: Tables, pos: map<nat, Pos>, f: nat, i: nat, had: set<nat>)
    reads mem
  {
    && f in pos && f in t0 && mem.Valid() && mem.avail == had + BelowFirst(pos, pos[f], i)
    && Intact(mem, t0, Below(pos, pos[f]) - BelowFirst(pos, pos[f], i) - {f})
    && f in mem.tables && f !in mem.avail && mem.Managed(f)
    && forall j :: i <= j < ENTRIES ==> mem.tables[f][j] == t0[f][j]
  }

  /** The round of freewalk's loop for a pointer: the table it points to and all below are freed. */
  method FreeBelow(mem: Phys, f: nat, i: nat, ghost t0: Tables, ghost root: nat, ghost pos: map<nat, Pos>,
                   ghost had: set<nat>)
      returns (ok: bool)
    requires Tree(t0, root, pos) && GenuineLeaves(t0, pos) && f in pos && i < ENTRIES
    requires Walked(mem, t0, pos, f, i, had) && Progress(t0, pos, f, i) && t0[f][i].V() && !t0[f][i].RWX()
    modifies mem
    ensures ok ==> Walked(mem, t0, pos, f, i + 1, had) && Progress(t0, pos, f, i + 1)
    ensures !ok ==> !NoLeaf(t0, pos, pos[f])
    ensures Kept(old(mem.tables), mem.tables, Below(pos, pos[f])) && Kept(old(mem.data), mem.data, Below(pos, pos[f]))
    decreases pos[f].level, 0
  {
    hide Tree, NoLeaf, Lists, Progress, GenuineLeaves, Under;
    AtPointer(t0, root, pos, f, i);
    AllEntries(t0, root, pos, f);
    var pte := mem.tables[f][i];
    ok := FreeWalk(mem, pte.frame, t0, root, pos);
    if ok {
      mem.SetTable(f, mem.tables[f][i := NOPTE]);
    }
  }

  /** freewalk of the table in frame f: every table at and below it is freed, unless a leaf is left,
      which is a panic. t0 is the tree as it was before. */
  method FreeWalk(mem: Phys, f: nat, ghost t0: Tables, ghost root: nat, ghost pos: map<nat, Pos>) returns (ok: bool)
    requires mem.Valid() && Tree(t0, root, pos) && GenuineLeaves(t0, pos) && f in pos
    requires Intact(mem, t0, Below(pos, pos[f]))
    modifies mem
    ensures ok <==> NoLeaf(t0, pos, pos[f])
    ensures ok ==> mem.Valid() && mem.avail == old(mem.avail) + Below(pos, pos[f])
    ensures Kept(old(mem.tables), mem.tables, Below(pos, pos[f])) && Kept(old(mem.data), mem.data, Below(pos, pos[f]))
    decreases pos[f].level, 1
  {
    hide Tree, NoLeaf, Lists, Progress, GenuineLeaves, Under;
    ghost var had, all := mem.avail, Below(pos, pos[f]);
    AllEntries(t0, root, pos, f);
    for i := 0 to ENTRIES
      invariant Walked(mem, t0, pos, f, i, had) && Progress(t0, pos, f, i)
      invariant Kept(old(mem.tables), mem.tables, all) && Kept(old(mem.data), mem.data, all)
    {
      var pte := mem.tables[f][i];
      if pte.V() && !pte.RWX() {
        ok := FreeBelow(mem, f, i, t0, root, pos, had);
        if !ok {
          return;
        }
      } else if pte.V() {
        AtLeaf(t0, root, pos, f, i);
        return false;
      } else {
        AtNothing(t0, root, pos, f, i);
      }
    }
    assert f * PGSIZE / PGSIZE == f;
    ok := mem.Kfree(f * PGSIZE);
  }

  /** Below the root lie all tables; they have no leaf exactly when nothing is mapped. */
  lemma WholeTree(tables: Tables, root: nat, pos: map<nat, Pos>, flat: map<nat, Pte>)
    requires Refines(tables, root, pos, flat)
    ensures Below(pos, ROOT) == pos.Keys && pos[root] == ROOT
    ensures NoLeaf(tables, pos, ROOT) <==> flat == map[]
  {
    forall c | c in pos ensures Under(pos[c], ROOT) {
      UnderRoot(tables, root, pos, c);
    }
    if flat != map[] {
      var v :| v in flat;
      assert HasTable(pos, v);
      var f :| f in pos && Covers(pos[f], v);
      assert LeafOk(tables, pos, flat, f, v - pos[f].key * ENTRIES);
    } else {
      forall c | c in pos && pos[c].level == 0 ensures Clear(tables, c) {
        forall i | 0 <= i < ENTRIES ensures !tables[c][i].V() {
          assert LeafOk(tables, pos, flat, c, i);
        }
      }
    }
  }

  lemma {:induction false} UnderRoot(tables: Tables, root: nat, pos: map<nat, Pos>, c: nat)
    requires Tree(tables, root, pos) && c in pos
    ensures Under(pos[c], ROOT)
    decreases 2 - pos[c].level
  {
    if c != root {
      assert Parented(tables, pos, c);
      var g, i :| Points(tables, pos, g, i, c);
      ParentOfChild(pos[g], i);
      UnderRoot(tables, root, pos, g);
    }
  }

  /** Every mapping grants some access. */
  ghost predicate GenuineFlat(flat: map<nat, Pte>)
  {
    forall v :: v in flat ==> flat[v].RWX()
  }

  lemma GenuineFlatLeaves(tables: Tables, root: nat, pos: map<nat, Pos>, flat: map<nat, Pte>)
    requires Refines(tables, root, pos, flat) && GenuineFlat(flat)
    ensures GenuineLeaves(tables, pos)
  {
    forall c, i | c in pos && pos[c].level == 0 && 0 <= i < ENTRIES && tables[c][i].V() ensures tables[c][i].RWX() {
      assert LeafOk(tables, pos, flat, c, i);
    }
  }

  lemma {:induction false} CutGenuine(flat: map<nat, Pte>, v: nat, n: nat)
    requires GenuineFlat(flat)
    ensures GenuineFlat(Cut(flat, v, n))
  {
    if n > 0 {
      CutGenuine(flat, v, n - 1);
    }
  }

  /** uvmfree: succeeds exactly when all pages below sz can be unmapped and nothing else is mapped,
      and then the free list holds, once each, the frames that were free, those of the tables and
      those of the pages. */
  method Free(t: UserTable, sz: nat) returns (s: Status)
    requires t.Valid() && Owns(t.flat, 0, Pages(sz), t.mem.avail, t.pos) && GenuineFlat(t.flat)
    modifies t.mem, t`pos, t`flat
    ensures s.Done? <==> (forall x :: 0 <= x < Pages(sz) ==> CanUnmap(old(t.flat), x, true, t.mem))
                         && Cut(old(t.flat), 0, Pages(sz)) == map[]
    ensures s.Done? ==> t.mem.Valid()
    ensures s.Done? ==> t.mem.avail == old(t.mem.avail) + old(t.pos).Keys + Frames(old(t.flat), 0, Pages(sz))
    ensures Kept(old(t.mem.tables), t.mem.tables, t.pos.Keys + Frames(old(t.flat), 0, Pages(sz)))
    ensures Kept(old(t.mem.data), t.mem.data, t.pos.Keys + Frames(old(t.flat), 0, Pages(sz)))
    ensures t.pos == old(t.pos)
  {
    hide Refines, Owns, Lists, CanUnmap, GenuineLeaves;
    s := Done;
    ghost var was, n := t.flat, Pages(sz);
    if sz > 0 {
      ghost var k;
      s, k := t.UnmapRange(0, Pages(sz), true);
      if s.Panic? {
        return;
      }
    }
    CutGenuine(was, 0, n);
    WholeTree(t.mem.tables, t.root, t.pos, t.flat);
    GenuineFlatLeaves(t.mem.tables, t.root, t.pos, t.flat);
    RefinesTree(t.mem.tables, t.root, t.pos, t.flat);
    var ok := FreeWalk(t.mem, t.root, t.mem.tables, t.root, t.pos);
    s := if ok then Done else Panic;
  }

  lemma RefinesTree(tables: Tables, root: nat, pos: map<nat, Pos>, flat: map<nat, Pte>)
    requires Refines(tables, root, pos, flat)
    ensures Tree(tables, root, pos) && root in pos && pos.Keys <= tables.Keys
  {
  }
}
