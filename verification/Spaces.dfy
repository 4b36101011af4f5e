/** All address spaces over one physical memory: every frame that kinit gave to the allocator is
    free, a table of one space, a page of one space, or in the hands of the rest of the kernel. */
module Spaces {
  import opened Blocks
  import opened Sv39
  import opened Kalloc
  import opened PageTable
  import UserCopy
  import UvmFree

  /** An address space: the places of its tables, its mappings, and the number of its user pages. */
  datatype Space = Space(pos: map<nat, Pos>, flat: map<nat, Pte>, n: nat)

  /** The frames that belong to a space: its tables and its user pages. */
  ghost function Held(s: Space): set<nat> { s.pos.Keys + Frames(s.flat, 0, s.n) }

  /** Pages below n are user pages, each with a frame of its own; what is mapped above them is of the
      kernel (trampoline and trapframe) and out of the user's reach. */
  ghost predicate SpaceOk(mem: Phys, avail: set<nat>, s: Space, kernel: set<nat>)
  {
    && s.n <= MAXVPN && (forall x :: 0 <= x < s.n ==> x in s.flat)
    && Owns(s.flat, 0, s.n, avail, s.pos)
    && Held(s) !! avail && Held(s) !! kernel && (forall f {:trigger mem.Managed(f)} :: f in Held(s) ==> mem.Managed(f))
    && forall x {:trigger s.flat[x]} :: x in s.flat ==> LeafOf(mem, s.flat[x], x < s.n, kernel)
  }

  predicate LeafOf(mem: Phys, e: Pte, user: bool, kernel: set<nat>)
  {
    e.V() && e.RWX() && e.flags < 1024 && (!user ==> !e.U() && (e.frame in kernel || !mem.Managed(e.frame)))
  }

  /** A frame of some space. */
  ghost predicate InUse<K>(spaces: map<K, Space>, f: nat) { exists t :: t in spaces && f in Held(spaces[t]) }

  /** The free frames, those of each space and those of the kernel are disjoint and together all that
      kinit gave to the allocator. */
  ghost predicate Partition<K>(mem: Phys, avail: set<nat>, spaces: map<K, Space>, kernel: set<nat>)
  {
    && avail !! kernel
    && (forall f {:trigger mem.Managed(f)} :: f in avail || f in kernel ==> mem.Managed(f))
    && (forall t :: t in spaces ==> SpaceOk(mem, avail, spaces[t], kernel))
    && (forall t, u :: t in spaces && u in spaces && t != u ==> Held(spaces[t]) !! Held(spaces[u]))
    && forall f {:trigger mem.Managed(f)} :: mem.Managed(f) ==> f in avail || f in kernel || InUse(spaces, f)
  }

  // ---- What keeps the partition ----

  /** Space t and the free list exchange frames. */
  lemma Exchange<K>(mem: Phys, avail: set<nat>, spaces: map<K, Space>, kernel: set<nat>, t: K, s: Space,
                    avail': set<nat>)
    requires Partition(mem, avail, spaces, kernel) && t in spaces && SpaceOk(mem, avail', s, kernel)
    requires avail' + Held(s) == avail + Held(spaces[t])
    ensures Partition(mem, avail', spaces[t := s], kernel)
  {
    var spaces' := spaces[t := s];
    hide Held, LeafOf;
    forall f | f in avail' + Held(s) ensures f !in kernel {
      assert f in avail + Held(spaces[t]);
    }
    forall u | u in spaces && u != t ensures Held(spaces[u]) !! avail' + Held(s) {
      assert Held(spaces[u]) !! Held(spaces[t]);
      assert SpaceOk(mem, avail, spaces[u], kernel);
    }
    forall u | u in spaces' ensures SpaceOk(mem, avail', spaces'[u], kernel) {
      if u != t { FewerFree(mem, avail, avail', spaces[u], kernel); }
    }
    forall f | mem.Managed(f) && f !in avail' && f !in kernel ensures InUse(spaces', f) {
      if f in Held(s) {
        assert t in spaces' && f in Held(spaces'[t]);
      } else {
        assert f !in avail && f !in Held(spaces[t]);
        assert InUse(spaces, f);
        var u :| u in spaces && f in Held(spaces[u]);
        assert u in spaces' && f in Held(spaces'[u]);
      }
    }
  }

  /** A space stays in order as long as none of its frames becomes free. */
  lemma FewerFree(mem: Phys, avail: set<nat>, avail': set<nat>, s: Space, kernel: set<nat>)
    requires SpaceOk(mem, avail, s, kernel) && Held(s) !! avail'
    ensures SpaceOk(mem, avail', s, kernel)
  {
    forall x | 0 <= x < s.n && x in s.flat ensures s.flat[x].frame !in avail' {
      FramesAt(s.flat, 0, s.n, x);
    }
  }

  /** A new space takes its frames from the free list. */
  lemma Join<K>(mem: Phys, avail: set<nat>, spaces: map<K, Space>, kernel: set<nat>, t: K, s: Space, avail': set<nat>)
    requires Partition(mem, avail, spaces, kernel) && t !in spaces && SpaceOk(mem, avail', s, kernel)
    requires avail' + Held(s) == avail
    ensures Partition(mem, avail', spaces[t := s], kernel)
  {
    var spaces' := spaces[t := s];
    hide Held, LeafOf;
    forall u | u in spaces ensures Held(spaces[u]) !! avail' + Held(s) {
      assert SpaceOk(mem, avail, spaces[u], kernel);
    }
    forall u | u in spaces' ensures SpaceOk(mem, avail', spaces'[u], kernel) {
      if u != t { FewerFree(mem, avail, avail', spaces[u], kernel); }
    }
    forall f | mem.Managed(f) && f !in avail' && f !in kernel ensures InUse(spaces', f) {
      if f in Held(s) {
        assert t in spaces' && f in Held(spaces'[t]);
      } else {
        assert InUse(spaces, f);
        var u :| u in spaces && f in Held(spaces[u]);
        assert u in spaces' && f in Held(spaces'[u]);
      }
    }
  }

  /** A space that goes gives all its frames back. */
  lemma Leave<K>(mem: Phys, avail: set<nat>, spaces: map<K, Space>, kernel: set<nat>, t: K)
    requires Partition(mem, avail, spaces, kernel) && t in spaces
    ensures Partition(mem, avail + Held(spaces[t]), spaces - {t}, kernel)
  {
    var spaces', avail' := spaces - {t}, avail + Held(spaces[t]);
    assert SpaceOk(mem, avail, spaces[t], kernel);
    hide Held, LeafOf;
    forall u | u in spaces' ensures SpaceOk(mem, avail', spaces'[u], kernel) {
      assert SpaceOk(mem, avail, spaces[u], kernel) && Held(spaces[u]) !! Held(spaces[t]);
      FewerFree(mem, avail, avail', spaces[u], kernel);
    }
    forall f | mem.Managed(f) && f !in avail' && f !in kernel ensures InUse(spaces', f) {
      assert InUse(spaces, f);
      var u :| u in spaces && f in Held(spaces[u]);
      assert u in spaces' && f in Held(spaces'[u]);
    }
  }

  // ---- What the operations do to one space ----

  lemma {:induction false} FramesSplit(flat: map<nat, Pte>, v: nat, n: nat, m: nat)
    requires m <= n
    ensures Frames(flat, v, n) == Frames(flat, v, m) + Frames(flat, v + m, n - m)
    decreases n - m
  {
    if m < n {
      FramesSplit(flat, v, n - 1, m);
    }
  }

  /** s' has the pages of s, and k more with frames from the free list. */
  ghost predicate Grows(s: Space, s': Space, k: nat, avail: set<nat>, avail': set<nat>)
  {
    s'.n == s.n + k && Stretch(s.flat, s'.flat, s.n, k, avail, s.pos, avail', s'.pos)
  }

  lemma GrowAt(s: Space, s': Space, k: nat, avail: set<nat>, avail': set<nat>, x: nat)
    requires Grows(s, s', k, avail, avail')
    ensures x in s.flat <==> x in s'.flat && !(s.n <= x < s'.n)
    ensures x in s.flat ==> s'.flat[x] == s.flat[x]
  {
    CutAt(s'.flat, s.n, k, x);
  }

  lemma GrowFrames(s: Space, s': Space, k: nat, avail: set<nat>, avail': set<nat>)
    requires Grows(s, s', k, avail, avail')
    ensures Frames(s'.flat, 0, s'.n) == Frames(s.flat, 0, s.n) + Frames(s'.flat, s.n, k)
  {
    hide Stretch, Books, Owns, Cut;
    forall x | 0 <= x < s.n ensures (x in s.flat <==> x in s'.flat) && (x in s'.flat ==> s.flat[x] == s'.flat[x]) {
      GrowAt(s, s', k, avail, avail', x);
    }
    FramesSame(s.flat, s'.flat, 0, s.n);
    FramesSplit(s'.flat, 0, s'.n, s.n);
  }

  lemma GrowHeld(mem: Phys, avail: set<nat>, s: Space, kernel: set<nat>, k: nat, avail': set<nat>, s': Space)
    requires SpaceOk(mem, avail, s, kernel) && Grows(s, s', k, avail, avail')
    ensures avail' + Held(s') == avail + Held(s) && Held(s') !! avail'
  {
    var old', leaf := Frames(s.flat, 0, s.n), Frames(s'.flat, s.n, k);
    OwnFrames(mem, avail, s, kernel);
    GrowFrames(s, s', k, avail, avail');
    assert Books(avail, s.pos, avail', s'.pos, leaf);
    hide SpaceOk, Owns, Stretch, Frames;
    assert Held(s') == old' + (leaf + s'.pos.Keys);
  }

  lemma GrowLeaves(mem: Phys, avail: set<nat>, s: Space, kernel: set<nat>, k: nat, avail': set<nat>, s': Space, x: nat)
    requires SpaceOk(mem, avail, s, kernel) && Grows(s, s', k, avail, avail')
    requires s.n <= x < s'.n ==> x in s'.flat && LeafOf(mem, s'.flat[x], true, kernel)
    ensures x < s'.n ==> x in s'.flat
    ensures x in s'.flat ==> LeafOf(mem, s'.flat[x], x < s'.n, kernel)
  {
    GrowAt(s, s', k, avail, avail', x);
    if x in s.flat { assert LeafOf(mem, s.flat[x], x < s.n, kernel); }
  }

  /** A space with k more pages, fresh from the free list. */
  lemma GrowOk(mem: Phys, avail: set<nat>, s: Space, kernel: set<nat>, k: nat, avail': set<nat>, s': Space)
    requires SpaceOk(mem, avail, s, kernel) && Grows(s, s', k, avail, avail') && avail !! kernel && s'.n <= MAXVPN
    requires forall f {:trigger mem.Managed(f)} :: f in avail ==> mem.Managed(f)
    requires forall x :: s.n <= x < s'.n ==> x in s'.flat && LeafOf(mem, s'.flat[x], true, kernel)
    ensures SpaceOk(mem, avail', s', kernel) && avail' + Held(s') == avail + Held(s)
  {
    GrowHeld(mem, avail, s, kernel, k, avail', s');
    GrowOwns(mem, avail, s, kernel, k, avail', s');
    forall f | f in Held(s') ensures f !in kernel && mem.Managed(f) {
      assert f in avail + Held(s);
    }
    forall x: nat ensures x < s'.n ==> x in s'.flat
                  ensures x in s'.flat ==> LeafOf(mem, s'.flat[x], x < s'.n, kernel) {
      GrowLeaves(mem, avail, s, kernel, k, avail', s', x);
    }
    hide Held, Grows, Owns, LeafOf;
  }

  lemma OwnFrames(mem: Phys, avail: set<nat>, s: Space, kernel: set<nat>)
    requires SpaceOk(mem, avail, s, kernel)
    ensures Frames(s.flat, 0, s.n) !! s.pos.Keys && Frames(s.flat, 0, s.n) !! avail
  {
    forall f | f in Frames(s.flat, 0, s.n) ensures f !in s.pos && f !in avail {
      var x := FramesIn(s.flat, 0, s.n, f);
    }
  }

  lemma GrowOwns(mem: Phys, avail: set<nat>, s: Space, kernel: set<nat>, k: nat, avail': set<nat>, s': Space)
    requires SpaceOk(mem, avail, s, kernel) && Grows(s, s', k, avail, avail')
    ensures Owns(s'.flat, 0, s'.n, avail', s'.pos)
  {
    forall x | 0 <= x < s'.n && x in s'.flat ensures s'.flat[x].frame !in avail' && s'.flat[x].frame !in s'.pos {
      GrowAt(s, s', k, avail, avail', x);
      if x < s.n {
        assert s.flat[x].frame !in avail + s.pos.Keys;
      }
    }
    forall x, y | 0 <= x < y < s'.n && x in s'.flat && y in s'.flat ensures s'.flat[x].frame != s'.flat[y].frame {
      GrowAt(s, s', k, avail, avail', x);
      GrowAt(s, s', k, avail, avail', y);
      if x < s.n <= y {
        assert s.flat[x].frame !in avail && s'.flat[y].frame in avail;
      }
    }
  }

  lemma {:induction false} FramesCut(flat: map<nat, Pte>, m: nat, k: nat, n: nat)
    requires n <= m
    ensures Frames(Cut(flat, m, k), 0, n) == Frames(flat, 0, n)
  {
    forall x | 0 <= x < n
      ensures (x in Cut(flat, m, k) <==> x in flat) && (x in flat ==> Cut(flat, m, k)[x] == flat[x])
    {
      CutAt(flat, m, k, x);
    }
    FramesSame(Cut(flat, m, k), flat, 0, n);
  }

  /** s' is s without its last k pages. */
  ghost predicate Shrinks(s: Space, s': Space, k: nat)
  {
    s'.n + k == s.n && s'.pos == s.pos && s'.flat == Cut(s.flat, s'.n, k)
  }

  lemma ShrinkAt(s: Space, s': Space, k: nat, x: nat)
    requires Shrinks(s, s', k)
    ensures x in s'.flat <==> x in s.flat && !(s'.n <= x < s.n)
    ensures x in s'.flat ==> s'.flat[x] == s.flat[x]
  {
    CutAt(s.flat, s'.n, k, x);
  }

  lemma ShrinkHeld(mem: Phys, avail: set<nat>, s: Space, kernel: set<nat>, s': Space, k: nat)
    requires SpaceOk(mem, avail, s, kernel) && Shrinks(s, s', k)
    ensures avail + Frames(s.flat, s'.n, k) + Held(s') == avail + Held(s)
    ensures Held(s') !! avail + Frames(s.flat, s'.n, k)
  {
    FramesCut(s.flat, s'.n, k, s'.n);
    FramesSplit(s.flat, 0, s.n, s'.n);
    forall f | f in Frames(s.flat, s'.n, k) ensures f !in Held(s') {
      var x := FramesIn(s.flat, s'.n, k, f);
      if f in Frames(s.flat, 0, s'.n) {
        var y := FramesIn(s.flat, 0, s'.n, f);
      }
    }
  }

  lemma ShrinkOwns(mem: Phys, avail: set<nat>, s: Space, kernel: set<nat>, s': Space, k: nat, avail': set<nat>)
    requires SpaceOk(mem, avail, s, kernel) && Shrinks(s, s', k) && Held(s') !! avail'
    ensures Owns(s'.flat, 0, s'.n, avail', s'.pos)
  {
    forall x | 0 <= x < s'.n && x in s'.flat
      ensures x in s.flat && s'.flat[x] == s.flat[x] && s'.flat[x].frame !in avail'
    {
      ShrinkAt(s, s', k, x);
      FramesAt(s'.flat, 0, s'.n, x);
    }
  }

  /** A space whose last k pages were unmapped and freed. */
  lemma ShrinkOk(mem: Phys, avail: set<nat>, s: Space, kernel: set<nat>, s': Space, k: nat)
    requires SpaceOk(mem, avail, s, kernel) && Shrinks(s, s', k)
    ensures SpaceOk(mem, avail + Frames(s.flat, s'.n, k), s', kernel)
    ensures avail + Frames(s.flat, s'.n, k) + Held(s') == avail + Held(s)
  {
    var avail' := avail + Frames(s.flat, s'.n, k);
    ShrinkHeld(mem, avail, s, kernel, s', k);
    ShrinkOwns(mem, avail, s, kernel, s', k, avail');
    forall f | f in Held(s') ensures f in Held(s) { assert f in avail' + Held(s') && f !in avail'; }
    forall x: nat
      ensures x < s'.n ==> x in s'.flat
      ensures x in s'.flat ==> LeafOf(mem, s'.flat[x], x < s'.n, kernel)
    {
      ShrinkAt(s, s', k, x);
      if x in s.flat { assert LeafOf(mem, s.flat[x], x < s.n, kernel); }
    }
    hide Held, Shrinks, Owns, LeafOf, Frames;
  }

  // ---- Memory as the page tables and the pages use it ----

  type Data = map<nat, Page>

  /** The tables under root hold the mappings of s, and its pages are in memory. */
  ghost predicate Stored(tables: Tables, data: Data, root: nat, s: Space)
  {
    Refines(tables, root, s.pos, s.flat) && forall x :: 0 <= x < s.n && x in s.flat ==> s.flat[x].frame in data
  }

  ghost predicate Mirrored(tables: Tables, data: Data, spaces: map<UserTable, Space>)
  {
    forall t {:trigger spaces[t]} :: t in spaces ==> Stored(tables, data, t.root, spaces[t])
  }

  /** The user pages of s hold the same bytes in s' and data'. */
  ghost predicate SamePages(s: Space, data: Data, s': Space, data': Data)
  {
    s.n <= s'.n && forall x :: 0 <= x < s.n && x in s.flat && s.flat[x].frame in data ==>
      && x in s'.flat && s'.flat[x] == s.flat[x] && s.flat[x].frame in data'
      && data'[s.flat[x].frame] == data[s.flat[x].frame]
  }

  /** Frames that s does not hold may be written to. */
  lemma StoredKept(tables: Tables, data: Data, root: nat, s: Space, tables': Tables, data': Data, touched: set<nat>)
    requires Stored(tables, data, root, s) && Kept(tables, tables', touched) && Kept(data, data', touched)
    requires Held(s) !! touched
    ensures Stored(tables', data', root, s) && SamePages(s, data, s, data')
  {
    OtherTable(tables, tables', touched, root, s.pos, s.flat);
    forall x | 0 <= x < s.n && x in s.flat ensures s.flat[x].frame !in touched {
      FramesAt(s.flat, 0, s.n, x);
    }
  }

  lemma HeldApart(mem: Phys, avail: set<nat>, s: Space, kernel: set<nat>)
    requires SpaceOk(mem, avail, s, kernel)
    ensures Held(s) !! avail
  {
  }

  /** A step that writes to free frames and to those of space t only, and moves frames between them,
      keeps the partition and all other spaces. */
  lemma StepOk(mem: Phys, avail: set<nat>, spaces: map<UserTable, Space>, kernel: set<nat>, tables: Tables, data: Data,
               t: UserTable, s: Space, avail': set<nat>, tables': Tables, data': Data, touched: set<nat>)
    requires Partition(mem, avail, spaces, kernel) && Mirrored(tables, data, spaces) && t in spaces
    requires SpaceOk(mem, avail', s, kernel) && avail' + Held(s) == avail + Held(spaces[t])
    requires Stored(tables', data', t.root, s) && Kept(tables, tables', touched) && Kept(data, data', touched)
    requires touched <= avail + Held(spaces[t])
    ensures Partition(mem, avail', spaces[t := s], kernel) && Mirrored(tables', data', spaces[t := s])
    ensures forall u {:trigger spaces[u]} :: u in spaces && u != t ==> SamePages(spaces[u], data, spaces[u], data')
  {
    hide Stored, Kept, SamePages, Held, SpaceOk, InUse;
    Exchange(mem, avail, spaces, kernel, t, s, avail');
    forall u | u in spaces && u != t
      ensures Stored(tables', data', u.root, spaces[u]) && SamePages(spaces[u], data, spaces[u], data')
    {
      HeldApart(mem, avail, spaces[u], kernel);
      StoredKept(tables, data, u.root, spaces[u], tables', data', touched);
    }
  }

  /** Flags of a page that user code may get: valid and granting some access. */
  predicate PageFlags(flags: nat) { flags < 1024 && Pte(0, flags).V() && Pte(0, flags).RWX() }

  /** What the space had, it still has. */
  lemma GrowSame(mem: Phys, avail: set<nat>, s: Space, kernel: set<nat>, data: Data, s': Space, k: nat,
                 avail': set<nat>, data': Data)
    requires SpaceOk(mem, avail, s, kernel) && Grows(s, s', k, avail, avail')
    requires Kept(data, data', avail + s.pos.Keys)
    ensures forall x :: 0 <= x < s.n ==>
      x in s.flat && x in s'.flat && s'.flat[x] == s.flat[x] && Untouched(data, data', s.flat[x].frame)
    ensures s.n <= MAXVPN
  {
    hide Kept, Grows;
    forall x | 0 <= x < s.n ensures x in s.flat && x in s'.flat && s'.flat[x] == s.flat[x]
                                    && Untouched(data, data', s.flat[x].frame) {
      GrowAt(s, s', k, avail, avail', x);
      KeptAt(data, data', avail + s.pos.Keys, s.flat[x].frame);
    }
  }

  lemma GrowNew(mem: Phys, s: Space, kernel: set<nat>, data': Data, s': Space, k: nat, want: Want)
    requires s'.n == s.n + k && Holds(s'.flat, s.n, k, want, data')
    requires forall x {:trigger want(x)} :: s.n <= x < s'.n ==> PageFlags(want(x).1)
    ensures forall x :: s.n <= x < s'.n ==>
      x in s'.flat && LeafOf(mem, s'.flat[x], true, kernel) && s'.flat[x].frame in data'
  {
    forall x | s.n <= x < s'.n
      ensures x in s'.flat && LeafOf(mem, s'.flat[x], true, kernel) && s'.flat[x].frame in data'
    {
      assert HoldsAt(s'.flat, x, want, data') && PageFlags(want(x).1);
    }
  }

  lemma GrowStep(mem: Phys, avail: set<nat>, s: Space, kernel: set<nat>, tables: Tables, data: Data, root: nat,
                 s': Space, k: nat, avail': set<nat>, tables': Tables, data': Data, want: Want)
    requires SpaceOk(mem, avail, s, kernel) && Stored(tables, data, root, s) && avail !! kernel
    requires forall f {:trigger mem.Managed(f)} :: f in avail ==> mem.Managed(f)
    requires Refines(tables', root, s'.pos, s'.flat) && Kept(data, data', avail + s.pos.Keys)
    requires Grows(s, s', k, avail, avail') && Holds(s'.flat, s.n, k, want, data')
    requires forall x {:trigger want(x)} :: s.n <= x < s'.n ==> PageFlags(want(x).1)
    ensures SpaceOk(mem, avail', s', kernel) && avail' + Held(s') == avail + Held(s)
    ensures Stored(tables', data', root, s') && SamePages(s, data, s', data')
  {
    hide Refines, Kept, Books, Cut, Frames, Owns, SpaceOk, Holds, LeafOf, PageFlags;
    GrowSame(mem, avail, s, kernel, data, s', k, avail', data');
    GrowNew(mem, s, kernel, data', s', k, want);
    assert s'.n <= MAXVPN by { assert k > 0 ==> s'.n - 1 in s'.flat; }
    GrowOk(mem, avail, s, kernel, k, avail', s');
  }

  /** An operation that ran out of memory added no page. */
  lemma NoGrowth(flat: map<nat, Pte>, n: nat, avail: set<nat>, pos: map<nat, Pos>, avail': set<nat>,
                 pos': map<nat, Pos>,
                 want: Want, data': Data)
    requires Grown(avail, pos, avail', pos')
    ensures Stretch(flat, flat, n, 0, avail, pos, avail', pos') && Holds(flat, n, 0, want, data')
    ensures avail' + pos'.Keys == avail + pos.Keys
  {
    assert avail' + {} == avail';
  }

  lemma SpanPages(from: nat, to: nat)
    requires from <= to
    ensures Pages(to) == Pages(from) + Span(from, to)
  {
  }

  lemma SizeFits(sz: nat)
    ensures Pages(sz) <= MAXVPN <==> sz <= MAXVA
  {
  }

  /** Pages of a space can be unmapped and freed. */
  lemma CanShrink(mem: Phys, avail: set<nat>, s: Space, kernel: set<nat>, m: nat)
    requires SpaceOk(mem, avail, s, kernel) && m <= s.n
    ensures Owns(s.flat, m, s.n - m, avail, s.pos) && forall x :: m <= x < s.n ==> CanUnmap(s.flat, x, true, mem)
  {
    forall x | m <= x < s.n ensures CanUnmap(s.flat, x, true, mem) {
      assert x in s.flat;
      FramesAt(s.flat, 0, s.n, x);
      assert s.flat[x].frame in Held(s) && LeafOf(mem, s.flat[x], true, kernel);
    }
  }

  lemma ShrinkKept(mem: Phys, avail: set<nat>, s: Space, kernel: set<nat>, s': Space, k: nat,
                   tables: Tables, data: Data, tables': Tables, data': Data, root: nat)
    requires SpaceOk(mem, avail, s, kernel) && Stored(tables, data, root, s) && Shrinks(s, s', k)
    requires Refines(tables', root, s'.pos, s'.flat) && Kept(data, data', s.pos.Keys + Frames(s.flat, s'.n, k))
    ensures Stored(tables', data', root, s') && SamePages(s', data', s', data)
    ensures s.pos.Keys + Frames(s.flat, s'.n, k) <= Held(s)
  {
    hide SpaceOk, Refines, Kept, Shrinks, Frames;
    assert s'.n <= s.n by { ShrinkLess(s, s', k); }
    ShrinkHolds(s, s', k);
    forall x | 0 <= x < s'.n && x in s'.flat
      ensures x in s.flat && s'.flat[x] == s.flat[x] && s.flat[x].frame in data
      ensures Untouched(data, data', s.flat[x].frame)
    {
      ShrinkApart(mem, avail, s, kernel, s', k, x);
      KeptAt(data, data', s.pos.Keys + Frames(s.flat, s'.n, k), s.flat[x].frame);
    }
  }

  lemma ShrinkLess(s: Space, s': Space, k: nat)
    requires Shrinks(s, s', k)
    ensures s'.n + k == s.n
  {
  }

  lemma ShrinkHolds(s: Space, s': Space, k: nat)
    requires Shrinks(s, s', k)
    ensures s.pos.Keys + Frames(s.flat, s'.n, k) <= Held(s)
  {
    FramesSplit(s.flat, 0, s.n, s'.n);
  }

  /** The frame of a page that stays is none of those that go. */
  lemma ShrinkApart(mem: Phys, avail: set<nat>, s: Space, kernel: set<nat>, s': Space, k: nat, x: nat)
    requires SpaceOk(mem, avail, s, kernel) && Shrinks(s, s', k) && x < s'.n && x in s'.flat
    ensures x in s.flat && s'.flat[x] == s.flat[x] && s.flat[x].frame !in s.pos.Keys + Frames(s.flat, s'.n, k)
  {
    hide LeafOf, Held;
    ShrinkAt(s, s', k, x);
    if s.flat[x].frame in Frames(s.flat, s'.n, k) {
      var y := FramesIn(s.flat, s'.n, k, s.flat[x].frame);
    }
  }

  lemma LeafAt(mem: Phys, avail: set<nat>, s: Space, kernel: set<nat>, x: nat)
    requires SpaceOk(mem, avail, s, kernel) && x in s.flat
    ensures LeafOf(mem, s.flat[x], x < s.n, kernel)
  {
  }

  /** What uvmcopy puts into a page of the child are flags of a page. */
  lemma CopyFlags(mem: Phys, avail: set<nat>, s: Space, kernel: set<nat>, data: Data, tables: Tables, root: nat)
    requires SpaceOk(mem, avail, s, kernel) && Stored(tables, data, root, s)
    ensures forall x {:trigger CopyOf(s.flat, data)(x)} :: 0 <= x < s.n ==> PageFlags(CopyOf(s.flat, data)(x).1)
  {
    hide Refines, Owns, Held;
    forall x | 0 <= x < s.n ensures PageFlags(CopyOf(s.flat, data)(x).1) {
      LeafAt(mem, avail, s, kernel, x);
      assert x in s.flat;
    }
  }

  lemma ForkPages(mem: Phys, avail: set<nat>, s: Space, kernel: set<nat>)
    requires SpaceOk(mem, avail, s, kernel)
    ensures forall x :: 0 <= x < s.n ==> x < MAXVPN && x in s.flat && s.flat[x].flags != 1
  {
    hide Owns, Held;
    forall x | 0 <= x < s.n ensures x < MAXVPN && x in s.flat && s.flat[x].flags != 1 {
      assert x in s.flat;
      LeafAt(mem, avail, s, kernel, x);
    }
  }

  lemma SeparateValid(t: UserTable, u: UserTable)
    requires Separate(t, u)
    ensures t.Valid() && u.Valid()
  {
  }

  lemma Genuine(mem: Phys, avail: set<nat>, s: Space, kernel: set<nat>)
    requires SpaceOk(mem, avail, s, kernel)
    ensures UvmFree.GenuineFlat(s.flat)
  {
    hide Owns, Held;
  }

  lemma AllCut(flat: map<nat, Pte>, n: nat)
    requires forall x :: x in flat ==> x < n
    ensures Cut(flat, 0, n) == map[]
  {
    forall x: nat ensures x !in Cut(flat, 0, n) {
      CutAt(flat, 0, n, x);
    }
  }

  lemma MirroredPlus(tables: Tables, data: Data, spaces: map<UserTable, Space>, t: UserTable, s: Space)
    requires Mirrored(tables, data, spaces) && Stored(tables, data, t.root, s)
    ensures Mirrored(tables, data, spaces[t := s])
  {
  }

  lemma NoneFree(free: seq<nat>, avail: set<nat>)
    requires Lists(free, avail)
    ensures free == [] ==> avail == {}
  {
  }

  lemma Leaves(mem: Phys, avail: set<nat>, s: Space, kernel: set<nat>)
    requires SpaceOk(mem, avail, s, kernel)
    ensures forall x :: x in s.flat && x >= s.n ==> LeafOf(mem, s.flat[x], false, kernel)
    ensures Held(s) !! avail
  {
    hide LeafOf, Held, Owns;
  }

  lemma KeptMore<T>(m: map<nat, T>, m': map<nat, T>, s: set<nat>, s': set<nat>)
    requires Kept(m, m', s) && s <= s'
    ensures Kept(m, m', s')
  {
  }

  lemma RemapOk(mem: Phys, avail: set<nat>, s: Space, kernel: set<nat>, avail': set<nat>, s': Space,
                tables: Tables, data: Data, tables': Tables, data': Data, root: nat)
    requires SpaceOk(mem, avail, s, kernel) && Stored(tables, data, root, s) && avail !! kernel && s'.n == s.n
    requires forall f {:trigger mem.Managed(f)} :: f in avail ==> mem.Managed(f)
    requires Grown(avail, s.pos, avail', s'.pos) && Kept(data, data', avail + s.pos.Keys)
    requires Refines(tables', root, s'.pos, s'.flat)
    requires forall x :: 0 <= x < s.n ==> (x in s'.flat <==> x in s.flat) && (x in s'.flat ==> s'.flat[x] == s.flat[x])
    requires forall x :: x in s'.flat && x >= s.n ==> LeafOf(mem, s'.flat[x], false, kernel)
    ensures SpaceOk(mem, avail', s', kernel) && avail' + Held(s') == avail + Held(s)
    ensures Stored(tables', data', root, s') && SamePages(s, data, s', data')
    ensures s.pos.Keys <= Held(s)
  {
    hide Refines, Grown, LeafOf, Kept;
    forall x | 0 <= x < s.n ensures x in s.flat && Untouched(data, data', s.flat[x].frame) {
      assert x in s.flat;
      KeptAt(data, data', avail + s.pos.Keys, s.flat[x].frame);
    }
    AboveOk(mem, avail, s, kernel, avail', s');
  }

  /** The pages that a user may access are pages of its space. */
  lemma UserPages(mem: Phys, avail: set<nat>, s: Space, kernel: set<nat>, tables: Tables, data: Data, root: nat)
    requires SpaceOk(mem, avail, s, kernel) && Stored(tables, data, root, s)
    ensures UserCopy.Present(s.flat, data) && UserCopy.NoTables(s.flat, s.pos) && UserCopy.UserFrames(s.flat) <= Held(s)
  {
    hide Refines;
    forall x | x in s.flat && s.flat[x].U()
      ensures s.flat[x].frame in data && s.flat[x].frame !in s.pos && s.flat[x].frame in Held(s)
    {
      LeafAt(mem, avail, s, kernel, x);
      FramesAt(s.flat, 0, s.n, x);
    }
  }

  predicate Untouched(data: Data, data': Data, f: nat) { f in data ==> f in data' && data'[f] == data[f] }

  lemma KeptAt(data: Data, data': Data, s: set<nat>, f: nat)
    requires Kept(data, data', s) && f !in s
    ensures Untouched(data, data', f)
  {
  }

  /** A step that writes to frames of t only, keeps all other spaces in order. */
  lemma MirroredWithout(mem: Phys, avail: set<nat>, spaces: map<UserTable, Space>, kernel: set<nat>, tables: Tables,
                        data: Data,
                        t: UserTable, tables': Tables, data': Data)
    requires Partition(mem, avail, spaces, kernel) && Mirrored(tables, data, spaces) && t in spaces
    requires Kept(tables, tables', Held(spaces[t])) && Kept(data, data', Held(spaces[t]))
    ensures Mirrored(tables', data', spaces - {t})
    ensures forall u {:trigger spaces[u]} :: u in spaces && u != t ==> SamePages(spaces[u], data, spaces[u], data')
  {
    hide Stored, Kept, SamePages, Held, SpaceOk;
    forall u | u in spaces && u != t
      ensures Stored(tables', data', u.root, spaces[u]) && SamePages(spaces[u], data, spaces[u], data')
    {
      StoredKept(tables, data, u.root, spaces[u], tables', data', Held(spaces[t]));
    }
  }

  /** The same for writes to free frames. */
  lemma MirroredFree(mem: Phys, avail: set<nat>, spaces: map<UserTable, Space>, kernel: set<nat>, tables: Tables,
                     data: Data,
                     tables': Tables, data': Data, touched: set<nat>)
    requires Partition(mem, avail, spaces, kernel) && Mirrored(tables, data, spaces)
    requires Kept(tables, tables', touched) && Kept(data, data', touched) && touched <= avail + kernel
    ensures Mirrored(tables', data', spaces)
    ensures forall u {:trigger spaces[u]} :: u in spaces ==> SamePages(spaces[u], data, spaces[u], data')
  {
    hide Stored, Kept, SamePages, Held;
    forall u | u in spaces
      ensures Stored(tables', data', u.root, spaces[u]) && SamePages(spaces[u], data, spaces[u], data')
    {
      assert SpaceOk(mem, avail, spaces[u], kernel);
      StoredKept(tables, data, u.root, spaces[u], tables', data', touched);
    }
  }

  /** A page table that is only a root. */
  lemma EmptyOk(mem: Phys, avail: set<nat>, kernel: set<nat>, f: nat)
    requires mem.Managed(f) && f !in avail && f !in kernel
    ensures SpaceOk(mem, avail, Space(map[f := ROOT], map[], 0), kernel) && Held(Space(map[f := ROOT], map[], 0)) == {f}
  {
  }

  /** s' differs from s by tables taken from the free list and by mappings above the user pages. */
  lemma AboveOk(mem: Phys, avail: set<nat>, s: Space, kernel: set<nat>, avail': set<nat>, s': Space)
    requires SpaceOk(mem, avail, s, kernel) && Grown(avail, s.pos, avail', s'.pos) && avail !! kernel && s'.n == s.n
    requires forall f {:trigger mem.Managed(f)} :: f in avail ==> mem.Managed(f)
    requires forall x :: 0 <= x < s.n ==> x in s'.flat && x in s.flat && s'.flat[x] == s.flat[x]
    requires forall x :: x in s'.flat && x >= s.n ==> LeafOf(mem, s'.flat[x], false, kernel)
    ensures SpaceOk(mem, avail', s', kernel) && avail' + Held(s') == avail + Held(s)
  {
    FramesSame(s.flat, s'.flat, 0, s.n);
    OwnFrames(mem, avail, s, kernel);
    var leaf := Frames(s.flat, 0, s.n);
    assert avail' + Held(s') == avail + Held(s) by {
      assert avail' + (s'.pos.Keys + leaf) == (avail' + s'.pos.Keys) + leaf;
    }
    assert forall f :: f in avail' + Held(s') ==> f in avail + Held(s);
  }

  /** The kernel takes a free frame. */
  lemma KernelTakes<K>(mem: Phys, avail: set<nat>, spaces: map<K, Space>, kernel: set<nat>, f: nat)
    requires Partition(mem, avail, spaces, kernel) && f in avail
    ensures Partition(mem, avail - {f}, spaces, kernel + {f})
  {
    forall t | t in spaces ensures SpaceOk(mem, avail - {f}, spaces[t], kernel + {f}) {
      assert SpaceOk(mem, avail, spaces[t], kernel);
    }
  }

  /** The kernel frees a frame that no space maps. */
  lemma KernelFrees<K>(mem: Phys, avail: set<nat>, spaces: map<K, Space>, kernel: set<nat>, f: nat)
    requires Partition(mem, avail, spaces, kernel) && f in kernel
    requires forall t, x :: t in spaces && x in spaces[t].flat ==> spaces[t].flat[x].frame != f
    ensures Partition(mem, avail + {f}, spaces, kernel - {f})
  {
    forall t | t in spaces ensures SpaceOk(mem, avail + {f}, spaces[t], kernel - {f}) {
      assert SpaceOk(mem, avail, spaces[t], kernel);
    }
  }

  // ---- The address spaces of a kernel ----

  class Memory {
    const mem: Phys
    /** The page tables of the processes, each with its size in bytes, p->sz. */
    var spaces: map<UserTable, nat>
    /** The frames that the rest of the kernel has. */
    ghost var kernel: set<nat>

    ghost function View(): map<UserTable, Space>
      reads this, spaces.Keys
    {
      map t | t in spaces :: Space(t.pos, t.flat, Pages(spaces[t]))
    }

    ghost predicate Valid()
      reads this, mem, spaces.Keys
    {
      && mem.Valid() && Partition(mem, mem.avail, View(), kernel) && Mirrored(mem.tables, mem.data, View())
      && forall t :: t in spaces ==> t.mem == mem && spaces[t] <= MAXVA
    }

    /** All of memory is free. */
    constructor (mem: Phys)
      requires mem.Valid() && forall f :: f in mem.avail <==> mem.Managed(f)
      ensures Valid() && this.mem == mem && spaces == map[] && kernel == {}
    {
      this.mem, spaces, kernel := mem, map[], {};
    }

    /** Space t as it is. */
    ghost function Of(t: UserTable): Space
      requires t in spaces
      reads this, t
    {
      Space(t.pos, t.flat, Pages(spaces[t]))
    }

    lemma TableValid(t: UserTable)
      requires Valid() && t in spaces
      ensures t.Valid() && t.mem == mem && t in View() && View()[t] == Of(t)
      ensures SpaceOk(mem, mem.avail, Of(t), kernel) && Held(Of(t)) !! mem.avail
      ensures Stored(mem.tables, mem.data, t.root, Of(t))
      ensures mem.avail !! kernel && spaces.Keys == View().Keys
      ensures forall u :: u in spaces ==> u.mem == mem && spaces[u] <= MAXVA
      ensures Partition(mem, mem.avail, View(), kernel) && Mirrored(mem.tables, mem.data, View())
    {
      var s := View()[t];
      assert SpaceOk(mem, mem.avail, s, kernel) && Stored(mem.tables, mem.data, t.root, s);
      forall f | f in t.pos ensures f !in mem.avail && mem.Managed(f) { assert f in Held(s); }
    }

    /** An operation on t changed no other page table. */
    twostate lemma ViewStep(t: UserTable)
      requires t in old(spaces) && spaces.Keys == old(spaces).Keys
      requires forall u :: u in spaces && u != t ==>
        u.pos == old(u.pos) && u.flat == old(u.flat) && spaces[u] == old(spaces)[u]
      ensures View() == old(View())[t := Of(t)]
    {
    }

    /** The other spaces of an earlier state are there with the same pages. */
    ghost predicate OthersAs(view: map<UserTable, Space>, data: Data, but: set<UserTable>)
      reads this, spaces.Keys, mem
    {
      forall u {:trigger view[u]} :: u in view && u !in but ==>
        u in spaces && Of(u) == view[u] && SamePages(view[u], data, view[u], mem.data)
    }

    /** Two spaces share no table, and the pages of one are no tables of the other. */
    lemma Strangers(t: UserTable, u: UserTable)
      requires Valid() && t in spaces && u in spaces && t != u
      ensures Separate(t, u) && HasData(t, u, Pages(spaces[t]))
    {
      TableValid(t);
      TableValid(u);
      hide Refines, SpaceOk, Lists;
      var s, s' := Of(t), Of(u);
      assert Held(View()[t]) !! Held(View()[u]);
      forall x | 0 <= x < s.n && x in s.flat ensures s.flat[x].frame in Held(s) && s.flat[x].flags < 1024 {
        FramesAt(s.flat, 0, s.n, x);
        LeafAt(mem, mem.avail, s, kernel, x);
      }
    }

    /** What is left to say after an operation on space t, given the state before it. */
    lemma Settled(avail: set<nat>, view: map<UserTable, Space>, tables: Tables, data: Data, t: UserTable,
                  touched: set<nat>)
      requires Partition(mem, avail, view, kernel) && Mirrored(tables, data, view) && t in view && t in spaces
      requires View() == view[t := Of(t)] && mem.Valid()
      requires forall u :: u in spaces ==> u.mem == mem && spaces[u] <= MAXVA
      requires SpaceOk(mem, mem.avail, Of(t), kernel) && mem.avail + Held(Of(t)) == avail + Held(view[t])
      requires Stored(mem.tables, mem.data, t.root, Of(t))
      requires Touched(mem, tables, data, touched) && touched <= avail + Held(view[t])
      ensures Valid() && OthersAs(view, data, {t})
    {
      hide Refines, Partition, Mirrored, SpaceOk, Stored, Held, Kept, Lists, SamePages, Pages;
      StepOk(mem, avail, view, kernel, tables, data, t, Of(t), mem.avail, mem.tables, mem.data, touched);
      forall u | u in view && u != t ensures u in spaces && Of(u) == view[u] {
        assert u in View() && View()[u] == view[u];
      }
    }

    /** The same for an operation that added n pages. */
    lemma Grew(avail: set<nat>, view: map<UserTable, Space>, tables: Tables, data: Data, t: UserTable, n: nat,
               want: Want)
      requires Partition(mem, avail, view, kernel) && Mirrored(tables, data, view) && t in view && t in spaces
      requires View() == view[t := Of(t)] && t.Valid()
      requires forall u :: u in spaces ==> u.mem == mem && (u != t ==> spaces[u] <= MAXVA)
      requires Grows(view[t], Of(t), n, avail, mem.avail) && Holds(t.flat, view[t].n, n, want, mem.data)
      requires Touched(mem, tables, data, avail + view[t].pos.Keys)
      requires forall x {:trigger want(x)} :: view[t].n <= x < Of(t).n ==> PageFlags(want(x).1)
      ensures Valid() && OthersAs(view, data, {t}) && SamePages(view[t], data, Of(t), mem.data)
    {
      hide Refines, Kept, Lists, SamePages, Pages, Frames, Books, Owns, Stretch, Holds;
      assert SpaceOk(mem, avail, view[t], kernel) && Stored(tables, data, t.root, view[t]);
      GrowStep(mem, avail, view[t], kernel, tables, data, t.root, Of(t), n, mem.avail, mem.tables, mem.data, want);
      SizeFits(spaces[t]);
      hide Partition, Mirrored, SpaceOk, Stored;
      Settled(avail, view, tables, data, t, avail + view[t].pos.Keys);
    }

    /** The same for an operation that took the last k pages away. */
    lemma Shrunk(avail: set<nat>, view: map<UserTable, Space>, tables: Tables, data: Data, t: UserTable, k: nat)
      requires Partition(mem, avail, view, kernel) && Mirrored(tables, data, view) && t in view && t in spaces
      requires View() == view[t := Of(t)] && t.Valid()
      requires forall u :: u in spaces ==> u.mem == mem && (u != t ==> spaces[u] <= MAXVA)
      requires Shrinks(view[t], Of(t), k) && mem.avail == avail + Frames(view[t].flat, Of(t).n, k)
      requires Touched(mem, tables, data, view[t].pos.Keys + Frames(view[t].flat, Of(t).n, k))
      ensures Valid() && OthersAs(view, data, {t}) && SamePages(Of(t), mem.data, Of(t), data)
    {
      hide Refines, Kept, Lists, SamePages, Pages, Frames, Owns;
      assert SpaceOk(mem, avail, view[t], kernel) && Stored(tables, data, t.root, view[t]);
      ShrinkOk(mem, avail, view[t], kernel, Of(t), k);
      ShrinkKept(mem, avail, view[t], kernel, Of(t), k, tables, data, mem.tables, mem.data, t.root);
      SizeFits(spaces[t]);
      Settled(avail, view, tables, data, t, view[t].pos.Keys + Frames(view[t].flat, Of(t).n, k));
    }

    /** growproc(n) for n > 0: uvmalloc. */
    method Grow(t: UserTable, newsz: nat) returns (s: Status, ghost bad: nat)
      requires Valid() && t in spaces && spaces[t] <= newsz < 0x1_0000_0000_0000_0000
      modifies this`spaces, mem, t`pos, t`flat
      ensures !s.Panic? ==> Valid() && t in spaces && OthersAs(old(View()), old(mem.data), {t})
      ensures !s.Panic? ==> SamePages(old(Of(t)), old(mem.data), Of(t), mem.data)
      ensures s.Done? ==> spaces == old(spaces)[t := newsz]
      ensures s.Done? ==> Holds(t.flat, Pages(old(spaces)[t]), Span(old(spaces)[t], newsz), ZeroedPages(), mem.data)
      ensures s.Done? ==> forall x :: x in t.flat <==> x in old(t.flat) || old(spaces)[t] <= x * PGSIZE < newsz
      ensures s.Done? ==> forall x :: x in t.flat && x !in old(t.flat) ==>
        && t.flat[x].flags == 31 && t.flat[x].frame in mem.data
        && forall i :: 0 <= i < PGSIZE ==> mem.data[t.flat[x].frame][i] == 0
      ensures s.NoMemory? ==> spaces == old(spaces) && t.flat == old(t.flat)
      ensures s.NoMemory? ==> mem.avail + t.pos.Keys == old(mem.avail) + old(t.pos).Keys
      ensures s.Panic? ==> Pages(old(spaces)[t]) <= bad < Pages(newsz) && (bad >= MAXVPN || bad in old(t.flat))
    {
      hide Refines, Partition, Mirrored, SpaceOk, Stored, Held, Kept, Touched, Lists, Owns, Books, Cut, Frames,
           SamePages, Stretch,
           Holds, Grown, Pages, Span, Valid, View, OthersAs;
      ghost var view, avail, tables, data, was := View(), mem.avail, mem.tables, mem.data, Of(t);
      TableValid(t);
      SpanPages(spaces[t], newsz);
      ghost var n;
      var r;
      s, r, n := t.UvmAlloc(spaces[t], newsz);
      bad := was.n + n;
      if s.Panic? {
        return;
      }
      if s.Done? {
        spaces := spaces[t := r];
      } else {
        NoGrowth(was.flat, was.n, avail, was.pos, mem.avail, t.pos, ZeroedPages(), mem.data);
        n := 0;
      }
      ViewStep(t);
      Grew(avail, view, tables, data, t, n, ZeroedPages());
    }
 
    /** growproc(n) for n < 0: uvmdealloc. */
    method Shrink(t: UserTable, newsz: nat) returns (s: Status)
      requires Valid() && t in spaces && newsz <= spaces[t]
      modifies this`spaces, mem, t`pos, t`flat
      ensures s.Done? && Valid() && spaces == old(spaces)[t := newsz] && t.pos == old(t.pos)
      ensures OthersAs(old(View()), old(mem.data), {t}) && SamePages(Of(t), mem.data, Of(t), old(mem.data))
      ensures mem.avail == old(mem.avail) + Frames(old(t.flat), Pages(newsz), Span(newsz, old(spaces)[t]))
    {
      hide Refines, Partition, Mirrored, SpaceOk, Stored, Held, Kept, Lists, Owns, Books, Cut, Frames, SamePages,
           Pages, Span, Valid, View, OthersAs;
      ghost var view, avail, tables, data, was := View(), mem.avail, mem.tables, mem.data, Of(t);
      TableValid(t);
      SpanPages(newsz, spaces[t]);
      CanShrink(mem, mem.avail, was, kernel, Pages(newsz));
      var r;
      s, r := t.UvmDealloc(spaces[t], newsz);
      spaces := spaces[t := newsz];
      ViewStep(t);
      Shrunk(avail, view, tables, data, t, was.n - Pages(newsz));
    }
 
    /** fork: uvmcopy from the parent t to the child u, which has no pages yet. */
    method Fork(t: UserTable, u: UserTable) returns (s: Status, ghost bad: nat)
      requires Valid() && t in spaces && u in spaces && t != u && spaces[u] == 0
      modifies this`spaces, mem, t`pos, u`pos, u`flat
      ensures !s.Panic? ==> Valid() && OthersAs(old(View()), old(mem.data), {u})
      ensures s.Done? ==> spaces == old(spaces)[u := old(spaces)[t]]
      ensures s.Done? ==> Holds(u.flat, 0, Pages(old(spaces)[t]), CopyOf(t.flat, old(mem.data)), mem.data)
      ensures s.Done? ==> forall x :: x in u.flat <==> x in old(u.flat) || 0 <= x * PGSIZE < old(spaces)[t]
      ensures s.Done? ==> forall x :: x in u.flat && x !in old(u.flat) ==>
        && x in t.flat && u.flat[x].flags == t.flat[x].flags && t.flat[x].frame in old(mem.data)
        && u.flat[x].frame in mem.data && mem.data[u.flat[x].frame] == old(mem.data)[t.flat[x].frame]
      ensures s.NoMemory? ==> spaces == old(spaces) && u.flat == old(u.flat)
      ensures s.NoMemory? ==> mem.avail + u.pos.Keys == old(mem.avail) + old(u.pos).Keys
      ensures s.Panic? ==> bad < Pages(old(spaces)[t]) && bad in old(u.flat)
    {
      hide Refines, Partition, Mirrored, SpaceOk, Stored, Held, Kept, Touched, Lists, Owns, Books, Cut, Frames,
           SamePages, Stretch,
           Holds, Grown, Span, Valid, View, OthersAs, CopyOf, Separate, HasData;
      ghost var view, avail, tables, data, was, from := View(), mem.avail, mem.tables, mem.data, Of(u), Of(t);
      TableValid(t);
      TableValid(u);
      Strangers(t, u);
      SizeFits(spaces[t]);
      CopyFlags(mem, avail, from, kernel, data, tables, t.root);
      ForkPages(mem, avail, from, kernel);
      s, bad := UvmCopy(t, u, spaces[t]);
      if s.Panic? {
        return;
      }
      SeparateValid(t, u);
      ghost var n := 0;
      if s.Done? {
        spaces := spaces[u := spaces[t]];
        n := from.n;
      } else {
        NoGrowth(was.flat, 0, avail, was.pos, mem.avail, u.pos, CopyOf(t.flat, data), mem.data);
      }
      ViewStep(u);
      Grew(avail, view, tables, data, u, n, CopyOf(t.flat, data));
    }
 
    /** freeproc, after the trampoline and the trapframe were unmapped: uvmfree. */
    method Destroy(t: UserTable) returns (s: Status)
      requires Valid() && t in spaces && forall x :: x in t.flat ==> x < Pages(spaces[t])
      modifies this`spaces, mem, t`pos, t`flat
      ensures s.Done? && Valid() && spaces == old(spaces) - {t} && OthersAs(old(View()), old(mem.data), {t})
      ensures mem.avail == old(mem.avail) + Held(old(Of(t)))
    {
      hide Refines, Partition, Mirrored, SpaceOk, Stored, Kept, Lists, Owns, Cut, Frames, SamePages, Pages, Valid,
           View, OthersAs;
      ghost var view, avail, tables, data, was := View(), mem.avail, mem.tables, mem.data, Of(t);
      TableValid(t);
      CanShrink(mem, avail, was, kernel, 0);
      Genuine(mem, avail, was, kernel);
      AllCut(was.flat, was.n);
      s := UvmFree.Free(t, spaces[t]);
      assert mem.avail == avail + Held(was);
      spaces := spaces - {t};
      ViewWithout(t);
      Leave(mem, avail, view, kernel, t);
      MirroredWithout(mem, avail, view, kernel, tables, data, t, mem.tables, mem.data);
      Left(view, data, t);
    }

    twostate lemma ViewWithout(t: UserTable)
      requires t in old(spaces) && spaces == old(spaces) - {t}
      requires forall u :: u in spaces ==> u.pos == old(u.pos) && u.flat == old(u.flat)
      ensures View() == old(View()) - {t}
    {
    }

    lemma Left(view: map<UserTable, Space>, data: Data, t: UserTable)
      requires mem.Valid() && Partition(mem, mem.avail, View(), kernel) && Mirrored(mem.tables, mem.data, View())
      requires forall u :: u in spaces ==> u.mem == mem && spaces[u] <= MAXVA
      requires View() == view - {t}
      requires forall u {:trigger view[u]} :: u in view && u != t ==> SamePages(view[u], data, view[u], mem.data)
      ensures Valid() && OthersAs(view, data, {t})
    {
      hide Partition, Mirrored, SamePages;
      forall u | u in view && u != t ensures u in spaces && Of(u) == view[u] {
        assert u in View() && View()[u] == view[u];
      }
    }
 
    /** uvmcreate: a space without pages, or null when memory has run out. */
    method Create() returns (t: UserTable?)
      requires Valid()
      modifies this`spaces, mem
      ensures Valid()
      ensures t == null ==> spaces == old(spaces) && mem.avail == old(mem.avail) == {}
      ensures t != null ==> fresh(t) && spaces == old(spaces)[t := 0] && t.flat == map[]
      ensures t != null ==> mem.avail + t.pos.Keys == old(mem.avail)
      ensures OthersAs(old(View()), old(mem.data), {})
    {
      hide Refines, Partition, Mirrored, SpaceOk, Stored, Kept, Lists, SamePages, Valid, View, OthersAs;
      ghost var view, avail, tables, data := View(), mem.avail, mem.tables, mem.data;
      MemoryValid();
      t := UvmCreate(mem);
      if t == null {
        Unchanged();
        return;
      }
      spaces := spaces[t := 0];
      ViewPlus(t);
      RootOk(avail, view, tables, data, t);
    }

    lemma MemoryValid()
      requires Valid()
      ensures mem.Valid() && Partition(mem, mem.avail, View(), kernel) && Mirrored(mem.tables, mem.data, View())
      ensures spaces.Keys == View().Keys && forall u :: u in spaces ==> u.mem == mem && spaces[u] <= MAXVA
      ensures mem.avail !! kernel
    {
    }

    twostate lemma ViewPlus(new t: UserTable)
      requires t !in old(spaces) && spaces == old(spaces)[t := 0]
      requires forall u :: u in old(spaces) ==> u.pos == old(u.pos) && u.flat == old(u.flat)
      ensures View() == old(View())[t := Of(t)] && t !in old(View())
    {
    }

    lemma RootOk(avail: set<nat>, view: map<UserTable, Space>, tables: Tables, data: Data, t: UserTable)
      requires Partition(mem, avail, view, kernel) && Mirrored(tables, data, view) && t !in view && t in spaces
      requires View() == view[t := Of(t)] && t.Valid() && forall u :: u in spaces ==> u.mem == mem && spaces[u] <= MAXVA
      requires Of(t) == Space(map[t.root := ROOT], map[], 0) && t.root in avail && mem.avail == avail - {t.root}
      requires Touched(mem, tables, data, {t.root})
      ensures Valid() && OthersAs(view, data, {})
    {
      hide Refines, Mirrored, SamePages, Kept, Lists, SpaceOk, Held;
      EmptyOk(mem, mem.avail, kernel, t.root);
      Join(mem, avail, view, kernel, t, Of(t), mem.avail);
      MirroredFree(mem, avail, view, kernel, tables, data, mem.tables, mem.data, {t.root});
      MirroredPlus(mem.tables, mem.data, view, t, Of(t));
      forall u | u in view ensures u in spaces && Of(u) == view[u] {
        assert u in View() && View()[u] == view[u];
      }
    }

    /** Nothing has changed. */
    twostate lemma Unchanged()
      requires old(Valid()) && spaces == old(spaces) && kernel == old(kernel) && mem.Valid()
      requires mem.avail == old(mem.avail)
      requires mem.tables == old(mem.tables) && mem.data == old(mem.data)
      requires forall u :: u in spaces ==> u.pos == old(u.pos) && u.flat == old(u.flat)
      ensures Valid() && OthersAs(old(View()), old(mem.data), {})
    {
      assert View() == old(View());
    }
 
    /** kalloc by another part of the kernel; 0 when memory has run out. */
    method Lend() returns (f: nat)
      requires Valid()
      modifies this`kernel, mem
      ensures Valid() && OthersAs(old(View()), old(mem.data), {})
      ensures if f == 0 then mem.avail == old(mem.avail) == {} && kernel == old(kernel)
              else f in old(mem.avail) && mem.avail == old(mem.avail) - {f} && kernel == old(kernel) + {f}
    {
      hide Partition, Mirrored, SamePages, Kept, Lists, SpaceOk, Held, Valid, View, OthersAs;
      ghost var view, avail, tables, data := View(), mem.avail, mem.tables, mem.data;
      MemoryValid();
      NoneFree(mem.free, mem.avail);
      f := mem.Kalloc();
      if f == 0 {
        Unchanged();
        return;
      }
      kernel := kernel + {f};
      ViewSame();
      KernelTakes(mem, avail, view, old(kernel), f);
      MirroredFree(mem, avail, view, old(kernel), tables, data, mem.tables, mem.data, {f});
      Stays(view, data);
    }

    /** kfree by another part of the kernel, of a frame that is mapped nowhere. */
    method GiveBack(f: nat)
      requires Valid() && f in kernel && forall t, x :: t in spaces && x in t.flat ==> t.flat[x].frame != f
      modifies this`kernel, mem
      ensures Valid() && OthersAs(old(View()), old(mem.data), {})
      ensures mem.avail == old(mem.avail) + {f} && kernel == old(kernel) - {f}
    {
      hide Partition, Mirrored, SamePages, Kept, Lists, SpaceOk, Held, Valid, OthersAs;
      ghost var view, avail, tables, data := View(), mem.avail, mem.tables, mem.data;
      MemoryValid();
      KernelFrame(f);
      assert f * PGSIZE / PGSIZE == f;
      var ok := mem.Kfree(f * PGSIZE);
      kernel := kernel - {f};
      ViewSame();
      KernelFrees(mem, avail, view, old(kernel), f);
      MirroredFree(mem, avail, view, old(kernel), tables, data, mem.tables, mem.data, {f});
      Stays(view, data);
    }

    lemma KernelFrame(f: nat)
      requires Valid() && f in kernel
      ensures f !in mem.avail && mem.Managed(f)
    {
      assert mem.Managed(f);
    }

    twostate lemma ViewSame()
      requires spaces == old(spaces) && forall u :: u in spaces ==> u.pos == old(u.pos) && u.flat == old(u.flat)
      ensures View() == old(View())
    {
    }

    lemma Stays(view: map<UserTable, Space>, data: Data)
      requires mem.Valid() && Partition(mem, mem.avail, view, kernel) && Mirrored(mem.tables, mem.data, view)
      requires View() == view
      requires forall u :: u in spaces ==> u.mem == mem && spaces[u] <= MAXVA
      requires forall u {:trigger view[u]} :: u in view ==> SamePages(view[u], data, view[u], mem.data)
      ensures Valid() && OthersAs(view, data, {})
    {
      hide Partition, Mirrored, SamePages;
    }

    /** What is left to say after an operation on the tables and the upper mappings of t. */
    lemma Remapped(avail: set<nat>, view: map<UserTable, Space>, tables: Tables, data: Data, t: UserTable)
      requires Partition(mem, avail, view, kernel) && Mirrored(tables, data, view) && t in view && t in spaces
      requires View() == view[t := Of(t)] && t.Valid() && forall u :: u in spaces ==> u.mem == mem && spaces[u] <= MAXVA
      requires Grown(avail, view[t].pos, mem.avail, t.pos) && Of(t).n == view[t].n
      requires forall x :: 0 <= x < view[t].n ==>
        (x in t.flat <==> x in view[t].flat) && (x in t.flat ==> t.flat[x] == view[t].flat[x])
      requires forall x :: x in t.flat && x >= view[t].n ==> LeafOf(mem, t.flat[x], false, kernel)
      requires Touched(mem, tables, data, avail + view[t].pos.Keys)
      ensures Valid() && OthersAs(view, data, {t}) && SamePages(view[t], data, Of(t), mem.data)
    {
      hide Refines, Lists, Grown, LeafOf, Pages;
      var s := view[t];
      assert SpaceOk(mem, avail, s, kernel) && Stored(tables, data, t.root, s);
      RemapOk(mem, avail, s, kernel, mem.avail, Of(t), tables, data, mem.tables, mem.data, t.root);
      hide Partition, Mirrored, SpaceOk, Stored, Held, SamePages, Kept;
      Settled(avail, view, tables, data, t, avail + s.pos.Keys);
    }

    /** mappages of the trampoline or of a trapframe, above the user pages and out of the user's reach. */
    method MapKernel(t: UserTable, v: nat, frame: nat, perm: nat) returns (s: Status)
      requires Valid() && t in spaces && Pages(spaces[t]) <= v < MAXVPN && v !in t.flat && perm < 1024
      requires LeafOf(mem, MakePte(frame, perm), false, kernel)
      modifies mem, t`pos, t`flat
      ensures !s.Panic? && Valid() && OthersAs(old(View()), old(mem.data), {t})
      ensures SamePages(old(Of(t)), old(mem.data), Of(t), mem.data)
      ensures t.flat == if s.Done? then old(t.flat)[v := MakePte(frame, perm)] else old(t.flat)
    {
      hide Refines, Partition, Mirrored, SpaceOk, Stored, Held, Kept, Lists, SamePages, Grown, Valid, View, OthersAs,
           Pages, LeafOf;
      ghost var view, avail, tables, data, was := View(), mem.avail, mem.tables, mem.data, Of(t);
      TableValid(t);
      Leaves(mem, avail, was, kernel);
      s := t.MapPage(v, frame, perm);
      ViewStep(t);
      Remapped(avail, view, tables, data, t);
    }

    /** uvmunmap of such a page, which frees nothing. */
    method UnmapKernel(t: UserTable, v: nat) returns (s: Status)
      requires Valid() && t in spaces && Pages(spaces[t]) <= v && v in t.flat
      modifies mem, t`pos, t`flat
      ensures Valid() && OthersAs(old(View()), old(mem.data), {t})
      ensures SamePages(old(Of(t)), old(mem.data), Of(t), mem.data)
      ensures t.flat == (if s.Done? then old(t.flat) - {v} else old(t.flat)) && (s.Done? <==> v < MAXVPN)
      ensures mem.avail == old(mem.avail)
    {
      hide Refines, Partition, Mirrored, SpaceOk, Stored, Held, Kept, Lists, SamePages, Valid, View, OthersAs, Pages;
      ghost var view, avail, tables, data, was := View(), mem.avail, mem.tables, mem.data, Of(t);
      TableValid(t);
      Leaves(mem, avail, was, kernel);
      s := t.UnmapOne(v, false);
      assert mem.avail == avail;
      ViewStep(t);
      KeptMore(tables, mem.tables, t.pos.Keys + {}, avail + t.pos.Keys);
      KeptMore(data, mem.data, t.pos.Keys + {}, avail + t.pos.Keys);
      Remapped(avail, view, tables, data, t);
    }

    /** copyout: the bytes of t's pages change, no other space and no page table does. */
    method CopyOut(t: UserTable, dstva: nat, src: seq<Byte>) returns (ok: bool)
      requires Valid() && t in spaces
      modifies mem, t`pos
      ensures Valid() && OthersAs(old(View()), old(mem.data), {t}) && Of(t) == old(Of(t))
      ensures UserCopy.Present(t.flat, old(mem.data))
      ensures (mem.data, ok) == UserCopy.Out(t.flat, old(mem.data), dstva, src)
    {
      hide Refines, Partition, Mirrored, SpaceOk, Held, Kept, Lists, SamePages, Valid, View, OthersAs, Pages;
      ghost var view, avail, tables, data, was := View(), mem.avail, mem.tables, mem.data, Of(t);
      TableValid(t);
      UserPages(mem, avail, was, kernel, tables, data, t.root);
      UserCopy.OutKept(t.flat, data, dstva, src);
      ok := UserCopy.CopyOut(t, dstva, src);
      ViewStep(t);
      Settled(avail, view, tables, data, t, UserCopy.UserFrames(t.flat));
    }
  }
}
