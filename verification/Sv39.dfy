/** Sv39 page tables as values: PTE encoding, the split of a page number into three indices, and
    the three-level tree of table frames as a refinement of a flat map from page to PTE. Section
    4.4 of the RISC-V Privileged Architecture specification. */
module Sv39 {
  import opened Blocks

  const PGSIZE: nat := 4096
  const ENTRIES: nat := 512
  const MAXVA: nat := 0x40_0000_0000
  const MAXVPN: nat := 0x400_0000

  /** PTE bits 1..3 and 4; bit 0 is V. */
  const PTE_R: nat := 2
  const PTE_W: nat := 4
  const PTE_X: nat := 8
  const PTE_U: nat := 16

  /** A 64-bit PTE, taken apart: the frame number above bit 10, the flags below. */
  datatype Pte = Pte(frame: nat, flags: nat) {
    predicate V() { flags % 2 == 1 }

    predicate U() { flags / 16 % 2 == 1 }

    predicate RWX() { flags / 2 % 8 != 0 }

    /** The word in memory, and PTE2PA of it. */
    function Word(): nat { frame * 1024 + flags }

    function Address(): nat { frame * PGSIZE }
  }

  const NOPTE := Pte(0, 0)

  /** PA2PTE(pa) | perm | PTE_V, for the frame at pa. */
  function MakePte(frame: nat, perm: nat): Pte
  {
    Pte(frame, if perm % 2 == 1 then perm else perm + 1)
  }

  /** PTE_FLAGS and PTE2PA take apart what PA2PTE and the flags put together. */
  lemma PteParts(frame: nat, perm: nat)
    requires perm < 1024
    ensures var p := MakePte(frame, perm);
      p.Word() % 1024 == p.flags && p.Word() / 1024 * PGSIZE == p.Address() == frame * PGSIZE
      && p.flags / 2 == perm / 2 && p.V() && (p.U() <==> perm / 16 % 2 == 1) && (p.RWX() <==> perm / 2 % 8 != 0)
  {
    var p := MakePte(frame, perm);
    assert p.flags / 2 == perm / 2 && p.flags / 16 == perm / 16;
    assert p.Word() / 1024 == frame;
  }

  /** PX(level, va) of a page number. */
  function Px(level: nat, vpn: nat): (i: nat)
    requires level <= 2
    ensures i < ENTRIES
  {
    if level == 2 then vpn / 262144 % 512 else if level == 1 then vpn / 512 % 512 else vpn % 512
  }

  /** The place of a table in the tree: its level and the number of its first page, in units of
      what a table of its level covers. */
  datatype Pos = Pos(level: nat, key: nat)

  const ROOT := Pos(2, 0)

  function Child(p: Pos, i: nat): Pos
    requires p.level > 0
  {
    Pos(p.level - 1, p.key * ENTRIES + i)
  }

  /** The place of the table of the given level through which the walk for a page goes. */
  function PosAt(level: nat, vpn: nat): Pos
    requires level <= 2
  {
    Pos(level, if level == 2 then vpn / 134217728 else if level == 1 then vpn / 262144 else vpn / 512)
  }

  lemma WalkGoesDown(level: nat, vpn: nat)
    requires 0 < level <= 2
    ensures Child(PosAt(level, vpn), Px(level, vpn)) == PosAt(level - 1, vpn)
  {
  }

  /** The three indices are the 9-bit digits of the page number, the highest first. */
  lemma PxParts(v: nat)
    requires v < MAXVPN
    ensures v == Px(2, v) * 262144 + Px(1, v) * 512 + Px(0, v)
  {
    assert v / 262144 == Px(2, v) && v / 512 == v / 262144 * 512 + Px(1, v) && v == v / 512 * 512 + Px(0, v);
  }

  /** The three indices determine the page below MAXVA. */
  lemma PxInjective(v: nat, w: nat)
    requires v < MAXVPN && w < MAXVPN && forall level :: 0 <= level <= 2 ==> Px(level, v) == Px(level, w)
    ensures v == w
  {
    assert Px(0, v) == Px(0, w) && Px(1, v) == Px(1, w) && Px(2, v) == Px(2, w);
  }

  type Table = t: seq<Pte> | |t| == ENTRIES witness seq(ENTRIES, i => NOPTE)

  type Tables = map<nat, Table>

  /** Entry i of the table in frame f: invalid, or a pointer to the table one level below. */
  predicate NodeOk(tables: Tables, pos: map<nat, Pos>, f: nat, i: nat)
  {
    f in pos && f in tables && i < ENTRIES && pos[f].level > 0 &&
    var e := tables[f][i];
    e.V() ==> e.flags == 1 && e.frame in pos && pos[e.frame] == Child(pos[f], i)
  }

  /** The table in frame c is what entry i of the table in frame f points to. */
  predicate Points(tables: Tables, pos: map<nat, Pos>, f: nat, i: nat, c: nat)
  {
    && f in pos && f in tables && i < ENTRIES && c in pos && pos[f].level > 0
    && pos[c] == Child(pos[f], i) && tables[f][i] == Pte(c, 1)
  }

  ghost predicate Parented(tables: Tables, pos: map<nat, Pos>, c: nat)
  {
    exists f, i :: Points(tables, pos, f, i, c)
  }

  /** pos maps the frames of the tables reachable from root to their places; no frame is reached
      twice and no place is taken twice. */
  ghost predicate Tree(tables: Tables, root: nat, pos: map<nat, Pos>)
  {
    && root in pos && pos[root] == ROOT
    && (forall f :: f in pos ==> f in tables && pos[f].level <= 2)
    && (forall f, g :: f in pos && g in pos && pos[f] == pos[g] ==> f == g)
    && (forall f, i :: f in pos && pos[f].level > 0 && 0 <= i < ENTRIES ==> NodeOk(tables, pos, f, i))
    && forall c {:trigger Parented(tables, pos, c)} :: c in pos && c != root ==> Parented(tables, pos, c)
  }

  /** The flat map agrees with entry i of the level-0 table in frame f. */
  predicate LeafOk(tables: Tables, pos: map<nat, Pos>, flat: map<nat, Pte>, f: nat, i: nat)
  {
    f in pos && f in tables && i < ENTRIES && pos[f].level == 0 &&
    var v, e := pos[f].key * ENTRIES + i, tables[f][i];
    if e.V() then v in flat && flat[v] == e else v !in flat
  }

  /** Page v is one of those of the level-0 table at p. */
  predicate Covers(p: Pos, v: nat) { p.level == 0 && p.key * ENTRIES <= v < p.key * ENTRIES + ENTRIES }

  lemma CoversIsPosAt(p: Pos, v: nat)
    ensures Covers(p, v) <==> p == PosAt(0, v)
    ensures Covers(p, v) ==> v == p.key * ENTRIES + Px(0, v)
  {
  }

  /** The level-0 table for page v is in the tree. */
  ghost predicate HasTable(pos: map<nat, Pos>, v: nat)
  {
    exists f :: f in pos && Covers(pos[f], v)
  }

  /** flat maps exactly the pages with a valid PTE in the tree, to that PTE. */
  ghost predicate Flat(tables: Tables, pos: map<nat, Pos>, flat: map<nat, Pte>)
  {
    && (forall f, i :: f in pos && pos[f].level == 0 && 0 <= i < ENTRIES ==> LeafOk(tables, pos, flat, f, i))
    && forall v {:trigger HasTable(pos, v)} :: v in flat ==> HasTable(pos, v)
  }

  ghost predicate Refines(tables: Tables, root: nat, pos: map<nat, Pos>, flat: map<nat, Pte>)
  {
    Tree(tables, root, pos) && Flat(tables, pos, flat)
  }

  /** flat with page v's PTE set to e. */
  function SetPte(flat: map<nat, Pte>, v: nat, e: Pte): map<nat, Pte>
  {
    if e.V() then flat[v := e] else flat - {v}
  }

  lemma StoreTree(tables: Tables, root: nat, pos: map<nat, Pos>, f: nat, t: Table)
    requires Tree(tables, root, pos) && f in pos && pos[f].level == 0
    ensures Tree(tables[f := t], root, pos)
  {
    var tables' := tables[f := t];
    forall g, i | g in pos && pos[g].level > 0 && 0 <= i < ENTRIES ensures NodeOk(tables', pos, g, i) {
      assert NodeOk(tables, pos, g, i);
    }
    forall c | c in pos && c != root ensures Parented(tables', pos, c) {
      assert Parented(tables, pos, c);
      var g, i :| Points(tables, pos, g, i, c);
      assert Points(tables', pos, g, i, c);
    }
  }

  lemma LeafStored(tables: Tables, pos: map<nat, Pos>, flat: map<nat, Pte>, f: nat, i: nat, e: Pte, g: nat, j: nat,
                   tables': Tables, flat': map<nat, Pte>)
    requires LeafOk(tables, pos, flat, g, j) && f in pos && f in tables && pos[f].level == 0 && i < ENTRIES
    requires pos[f] == pos[g] ==> f == g
    requires tables' == tables[f := tables[f][i := e]] && flat' == SetPte(flat, pos[f].key * ENTRIES + i, e)
    ensures LeafOk(tables', pos, flat', g, j)
  {
    if pos[g].key * ENTRIES + j == pos[f].key * ENTRIES + i {
      assert pos[g].key == pos[f].key;
    }
  }

  /** Storing a PTE in a level-0 table changes that page's translation and no other. */
  lemma StoreRefines(tables: Tables, root: nat, pos: map<nat, Pos>, flat: map<nat, Pte>, f: nat, i: nat, e: Pte,
                     tables': Tables, flat': map<nat, Pte>)
    requires Refines(tables, root, pos, flat) && f in pos && pos[f].level == 0 && i < ENTRIES
    requires tables' == tables[f := tables[f][i := e]] && flat' == SetPte(flat, pos[f].key * ENTRIES + i, e)
    ensures Refines(tables', root, pos, flat')
  {
    StoreTree(tables, root, pos, f, tables'[f]);
    forall g, j | g in pos && pos[g].level == 0 && 0 <= j < ENTRIES ensures LeafOk(tables', pos, flat', g, j) {
      LeafStored(tables, pos, flat, f, i, e, g, j, tables', flat');
    }
    assert Covers(pos[f], pos[f].key * ENTRIES + i);
  }

  function Zeros(): Table { seq(ENTRIES, i => NOPTE) }

  /** The places of two different entries differ. */
  lemma ChildInjective(p: Pos, i: nat, q: Pos, j: nat)
    requires p.level > 0 && q.level > 0 && i < ENTRIES && j < ENTRIES && Child(p, i) == Child(q, j)
    ensures p == q && i == j
  {
  }

  /** Nothing hangs at an invalid entry. */
  lemma PlaceFree(tables: Tables, root: nat, pos: map<nat, Pos>, f: nat, i: nat, g: nat)
    requires Tree(tables, root, pos) && f in pos && pos[f].level > 0 && i < ENTRIES && !tables[f][i].V() && g in pos
    ensures pos[g] != Child(pos[f], i)
  {
    if pos[g] == Child(pos[f], i) {
      assert Parented(tables, pos, g);
      var h, j :| Points(tables, pos, h, j, g);
      ChildInjective(pos[f], i, pos[h], j);
      assert false;
    }
  }

  /** tables with a zeroed table in frame c hung into entry i of the table in frame f. */
  function Hung(tables: Tables, f: nat, i: nat, c: nat): Tables
    requires f in tables && i < ENTRIES
  {
    tables[c := Zeros()][f := tables[f][i := Pte(c, 1)]]
  }

  lemma AddTree(tables: Tables, root: nat, pos: map<nat, Pos>, f: nat, i: nat, c: nat,
                tables': Tables, pos': map<nat, Pos>)
    requires Tree(tables, root, pos) && f in pos && pos[f].level > 0 && i < ENTRIES && c !in pos
    requires !tables[f][i].V()
    requires tables' == Hung(tables, f, i, c) && pos' == pos[c := Child(pos[f], i)]
    ensures Tree(tables', root, pos')
  {
    forall g | g in pos ensures pos[g] != Child(pos[f], i) {
      PlaceFree(tables, root, pos, f, i, g);
    }
    forall g, j | g in pos' && pos'[g].level > 0 && 0 <= j < ENTRIES ensures NodeOk(tables', pos', g, j) {
      assert g != c ==> NodeOk(tables, pos, g, j);
    }
    forall g | g in pos' && g != root ensures Parented(tables', pos', g) {
      if g == c {
        assert Points(tables', pos', f, i, c);
      } else {
        assert Parented(tables, pos, g);
        var h, j :| Points(tables, pos, h, j, g);
        assert Points(tables', pos', h, j, g);
      }
    }
  }

  lemma CoversSame(p: Pos, q: Pos, v: nat)
    requires p != q && Covers(q, v)
    ensures !Covers(p, v)
  {
  }

  /** A place that is not taken covers no mapped page. */
  lemma NotCovered(tables: Tables, root: nat, pos: map<nat, Pos>, flat: map<nat, Pte>, p: Pos, v: nat)
    requires Refines(tables, root, pos, flat) && Covers(p, v) && forall g :: g in pos ==> pos[g] != p
    ensures v !in flat
  {
    assert v in flat ==> HasTable(pos, v);
    forall h | h in pos ensures !Covers(pos[h], v) {
      CoversSame(pos[h], p, v);
    }
  }

  lemma LeafKept(tables: Tables, root: nat, pos: map<nat, Pos>, flat: map<nat, Pte>, c: nat, p: Pos, g: nat, j: nat,
                 tables': Tables, pos': map<nat, Pos>)
    requires Refines(tables, root, pos, flat) && c !in pos && c in tables' && tables'[c] == Zeros()
    requires forall h :: h in pos ==> pos[h] != p
    requires pos' == pos[c := p] && g in pos' && pos'[g].level == 0 && j < ENTRIES
    requires g in pos && pos[g].level == 0 ==> g in tables' && tables'[g] == tables[g]
    ensures LeafOk(tables', pos', flat, g, j)
  {
    if g == c {
      NotCovered(tables, root, pos, flat, p, p.key * ENTRIES + j);
      assert tables'[c][j] == NOPTE;
    } else {
      assert LeafOk(tables, pos, flat, g, j);
    }
  }

  lemma TableKept(pos: map<nat, Pos>, c: nat, p: Pos, v: nat)
    requires HasTable(pos, v) && c !in pos
    ensures HasTable(pos[c := p], v)
  {
    var h :| h in pos && Covers(pos[h], v);
    assert h in pos[c := p] && Covers(pos[c := p][h], v);
  }

  /** Hanging a zeroed table into an invalid entry changes no translation. */
  lemma AddRefines(tables: Tables, root: nat, pos: map<nat, Pos>, flat: map<nat, Pte>, f: nat, i: nat, c: nat,
                   tables': Tables, pos': map<nat, Pos>)
    requires Refines(tables, root, pos, flat) && f in pos && pos[f].level > 0 && i < ENTRIES && c !in pos
    requires !tables[f][i].V()
    requires tables' == Hung(tables, f, i, c) && pos' == pos[c := Child(pos[f], i)]
    ensures Refines(tables', root, pos', flat)
  {
    AddTree(tables, root, pos, f, i, c, tables', pos');
    forall g | g in pos ensures pos[g] != Child(pos[f], i) {
      PlaceFree(tables, root, pos, f, i, g);
    }
    forall g, j | g in pos' && pos'[g].level == 0 && 0 <= j < ENTRIES ensures LeafOk(tables', pos', flat, g, j) {
      LeafKept(tables, root, pos, flat, c, Child(pos[f], i), g, j, tables', pos');
    }
    forall v | v in flat ensures HasTable(pos', v) {
      TableKept(pos, c, Child(pos[f], i), v);
    }
  }

  /** The walk for a page goes on to the table one level below, or the page is not mapped. */
  lemma WalkDown(tables: Tables, root: nat, pos: map<nat, Pos>, flat: map<nat, Pte>, f: nat, level: nat, v: nat)
    requires Refines(tables, root, pos, flat) && 0 < level <= 2 && f in pos && pos[f] == PosAt(level, v)
    ensures var e := tables[f][Px(level, v)];
      if e.V() then e.frame in pos && pos[e.frame] == PosAt(level - 1, v) else v !in flat
  {
    WalkGoesDown(level, v);
    assert NodeOk(tables, pos, f, Px(level, v));
    if !tables[f][Px(level, v)].V() {
      NoTableBelow(tables, root, pos, f, level, v);
    }
  }

  /** At the level-0 table, the entry is the page's translation. */
  lemma WalkEnds(tables: Tables, root: nat, pos: map<nat, Pos>, flat: map<nat, Pte>, f: nat, v: nat)
    requires Refines(tables, root, pos, flat) && f in pos && pos[f] == PosAt(0, v)
    ensures var e := tables[f][Px(0, v)]; if e.V() then v in flat && flat[v] == e else v !in flat
  {
    var i := Px(0, v);
    assert LeafOk(tables, pos, flat, f, i);
    CoversIsPosAt(pos[f], v);
  }

  /** Below an invalid entry there is no level-0 table. */
  lemma NoTableBelow(tables: Tables, root: nat, pos: map<nat, Pos>, f: nat, level: nat, v: nat)
    requires Tree(tables, root, pos) && 0 < level <= 2 && f in pos && pos[f] == PosAt(level, v)
    requires !tables[f][Px(level, v)].V()
    ensures !HasTable(pos, v)
  {
    if t :| t in pos && Covers(pos[t], v) {
      CoversIsPosAt(pos[t], v);
      assert Parented(tables, pos, t);
      var g, i :| Points(tables, pos, g, i, t);
      WalkGoesDown(1, v);
      ChildInjective(PosAt(1, v), Px(1, v), pos[g], i);
      if level == 2 {
        assert Parented(tables, pos, g);
        var h, j :| Points(tables, pos, h, j, g);
        WalkGoesDown(2, v);
        ChildInjective(PosAt(2, v), Px(2, v), pos[h], j);
      }
      assert false;
    }
  }
}
