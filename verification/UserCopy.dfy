/** walkaddr, copyout, copyin and copyinstr: bytes between the kernel and a user address space. */
module UserCopy {
  import opened Blocks
  import opened Sv39
  import opened Kalloc
  import opened PageTable

  type Data = map<nat, Page>

  /** walkaddr finds a frame for va. */
  predicate Mapped(flat: map<nat, Pte>, va: nat)
  {
    va < MAXVA && va / PGSIZE in flat && flat[va / PGSIZE].U() && flat[va / PGSIZE].frame != 0
  }

  function Frame(flat: map<nat, Pte>, va: nat): nat
    requires Mapped(flat, va)
  {
    flat[va / PGSIZE].frame
  }

  /** The user's frames are in memory. */
  ghost predicate Present(flat: map<nat, Pte>, data: Data)
  {
    forall x :: x in flat && flat[x].U() ==> flat[x].frame in data
  }

  /** The byte that the user sees at va. */
  ghost function ByteAt(flat: map<nat, Pte>, data: Data, va: nat): Option<Byte>
  {
    if Mapped(flat, va) && Frame(flat, va) in data then Some(data[Frame(flat, va)][va % PGSIZE]) else None
  }

  /** How many of len bytes at va lie in va's page. */
  function InPage(va: nat, len: nat): (n: nat)
    ensures n <= len && va % PGSIZE + n <= PGSIZE && (len > 0 ==> n > 0)
  {
    if PGSIZE - va % PGSIZE > len then len else PGSIZE - va % PGSIZE
  }

  function NextPage(va: nat): nat { va - va % PGSIZE + PGSIZE }

  /** memmove of bytes to offset off of a page. */
  function Splice(p: Page, off: nat, bytes: seq<Byte>): (q: Page)
    requires off + |bytes| <= PGSIZE
    ensures forall i :: 0 <= i < PGSIZE ==> q[i] == if off <= i < off + |bytes| then bytes[i - off] else p[i]
  {
    var s: seq<Byte> := p[..off] + bytes + p[off + |bytes|..];
    s
  }

  /** copyout as a function: memory afterwards, and whether it succeeded. */
  ghost function Out(flat: map<nat, Pte>, data: Data, va: nat, src: seq<Byte>): (r: (Data, bool))
    requires Present(flat, data)
    ensures r.0.Keys == data.Keys
    decreases |src|
  {
    if src == [] then (data, true)
    else if !Mapped(flat, va) then (data, false)
    else
      var n, f := InPage(va, |src|), Frame(flat, va);
      Out(flat, data[f := Splice(data[f], va % PGSIZE, src[..n])], NextPage(va), src[n..])
  }

  /** copyin as a function: the bytes copied, and whether it succeeded. */
  ghost function In(flat: map<nat, Pte>, data: Data, va: nat, len: nat): (seq<Byte>, bool)
    requires Present(flat, data)
    decreases len
  {
    if len == 0 then ([], true)
    else if !Mapped(flat, va) then ([], false)
    else
      var n, f := InPage(va, len), Frame(flat, va);
      var r := In(flat, data, NextPage(va), len - n);
      (data[f][va % PGSIZE..va % PGSIZE + n] + r.0, r.1)
  }

  /** The pages that len bytes at va touch have different frames. */
  ghost predicate Unaliased(flat: map<nat, Pte>, va: nat, len: nat)
  {
    forall x, y :: va / PGSIZE <= x < y && y * PGSIZE < va + len && x in flat && y in flat ==>
      flat[x].frame != flat[y].frame
  }

  /** copyout changes no frame but those of the pages of its range. */
  lemma {:induction false} OutElsewhere(flat: map<nat, Pte>, data: Data, va: nat, src: seq<Byte>, f: nat)
    requires Present(flat, data) && f in data
    requires forall x :: va / PGSIZE <= x && x * PGSIZE < va + |src| && x in flat ==> flat[x].frame != f
    ensures Out(flat, data, va, src).0[f] == data[f]
    decreases |src|
  {
    if src != [] && Mapped(flat, va) {
      var n, g := InPage(va, |src|), Frame(flat, va);
      PageStep(va, |src|);
      OutElsewhere(flat, data[g := Splice(data[g], va % PGSIZE, src[..n])], NextPage(va), src[n..], f);
    }
  }

  lemma PageStep(va: nat, len: nat)
    requires len > 0
    ensures va / PGSIZE * PGSIZE < va + len && va == va / PGSIZE * PGSIZE + va % PGSIZE
    ensures NextPage(va) % PGSIZE == 0 && NextPage(va) / PGSIZE == va / PGSIZE + 1
    ensures InPage(va, len) < len ==> NextPage(va) == va + InPage(va, len)
    ensures InPage(va, len) == len || InPage(va, len) == PGSIZE - va % PGSIZE
  {
  }

  /** copyin after a successful copyout of the same range returns the same bytes, across any page
      boundaries. */
  lemma {:induction false} InAfterOut(flat: map<nat, Pte>, data: Data, va: nat, src: seq<Byte>)
    requires Present(flat, data) && Unaliased(flat, va, |src|) && Out(flat, data, va, src).1
    ensures In(flat, Out(flat, data, va, src).0, va, |src|) == (src, true)
    decreases |src|
  {
    if src != [] {
      var n, f := InPage(va, |src|), Frame(flat, va);
      var d1: Data := data[f := Splice(data[f], va % PGSIZE, src[..n])];
      PageStep(va, |src|);
      if n < |src| {
        assert Unaliased(flat, NextPage(va), |src| - n);
      }
      InAfterOut(flat, d1, NextPage(va), src[n..]);
      forall x | NextPage(va) / PGSIZE <= x && x * PGSIZE < NextPage(va) + (|src| - n) && x in flat
        ensures flat[x].frame != f
      {
        assert va / PGSIZE < x;
      }
      OutElsewhere(flat, d1, NextPage(va), src[n..], f);
      assert d1[f][va % PGSIZE..va % PGSIZE + n] == src[..n];
      assert src[..n] + src[n..] == src;
    }
  }

  /** copyin copies the bytes at va, va + 1, and so on: len of them, or all before the first that is
      not mapped. */
  lemma {:induction false} InBytes(flat: map<nat, Pte>, data: Data, va: nat, len: nat)
    requires Present(flat, data)
    ensures var (dst, ok) := In(flat, data, va, len);
      && |dst| <= len && (ok <==> |dst| == len) && (!ok ==> !Mapped(flat, va + |dst|))
      && forall k :: 0 <= k < |dst| ==> ByteAt(flat, data, va + k) == Some(dst[k])
    decreases len
  {
    if len > 0 && Mapped(flat, va) {
      var n, r := InPage(va, len), In(flat, data, NextPage(va), len - InPage(va, len));
      PageStep(va, len);
      InBytes(flat, data, NextPage(va), len - n);
      var dst := In(flat, data, va, len).0;
      assert |dst| == n + |r.0|;
      forall k | 0 <= k < |dst| ensures ByteAt(flat, data, va + k) == Some(dst[k]) {
        if k < n {
          SamePage(va, len, va + k);
        } else {
          assert va + k == NextPage(va) + (k - n) && dst[k] == r.0[k - n];
        }
      }
    }
  }

  /** What copyin copied: it succeeds exactly when the whole range is mapped. */
  lemma Copied(flat: map<nat, Pte>, data: Data, va: nat, len: nat, dst: seq<Byte>, ok: bool)
    requires Present(flat, data) && In(flat, data, va, len) == (dst, ok)
    ensures ok <==> forall k :: va <= k < va + len ==> Mapped(flat, k)
    ensures if ok then |dst| == len else |dst| < len && !Mapped(flat, va + |dst|)
    ensures forall b :: va <= b < va + |dst| ==>
      Mapped(flat, b) && dst[b - va] == data[flat[b / PGSIZE].frame][b % PGSIZE]
  {
    hide In;
    InBytes(flat, data, va, len);
    forall b | va <= b < va + |dst|
      ensures Mapped(flat, b) && dst[b - va] == data[flat[b / PGSIZE].frame][b % PGSIZE]
    {
      var j := b - va;
      assert va + j == b && ByteAt(flat, data, va + j) == Some(dst[j]);
    }
  }

  /** copyout succeeds exactly when the whole range is mapped. */
  lemma {:induction false} OutSucceeds(flat: map<nat, Pte>, data: Data, va: nat, src: seq<Byte>)
    requires Present(flat, data)
    ensures Out(flat, data, va, src).1 <==> forall k :: va <= k < va + |src| ==> Mapped(flat, k)
    decreases |src|
  {
    if src != [] {
      assert Mapped(flat, va) ==> va / PGSIZE in flat;
      if Mapped(flat, va) {
        var n, f := InPage(va, |src|), Frame(flat, va);
        PageStep(va, |src|);
        OutSucceeds(flat, data[f := Splice(data[f], va % PGSIZE, src[..n])], NextPage(va), src[n..]);
        forall k | va <= k < va + n ensures Mapped(flat, k) {
          SamePage(va, |src|, k);
        }
      }
    }
  }

  /** What copyout does first, and that the rest leaves it alone. */
  lemma OutFirst(flat: map<nat, Pte>, data: Data, va: nat, src: seq<Byte>)
    requires Present(flat, data) && Unaliased(flat, va, |src|) && src != [] && Mapped(flat, va)
    ensures var n, f := InPage(va, |src|), Frame(flat, va);
      var d1: Data := data[f := Splice(data[f], va % PGSIZE, src[..n])];
      && Out(flat, data, va, src) == Out(flat, d1, NextPage(va), src[n..])
      && Out(flat, d1, NextPage(va), src[n..]).0[f] == d1[f] && Unaliased(flat, NextPage(va), |src| - n)
  {
    hide Mapped, Splice;
    AtFrame(flat, va);
    var n, f := InPage(va, |src|), Frame(flat, va);
    var d1: Data := data[f := Splice(data[f], va % PGSIZE, src[..n])];
    PageStep(va, |src|);
    forall x | NextPage(va) / PGSIZE <= x && x * PGSIZE < NextPage(va) + (|src| - n) && x in flat
      ensures flat[x].frame != f
    {
      assert va / PGSIZE < x;
    }
    OutElsewhere(flat, d1, NextPage(va), src[n..], f);
  }

  lemma AtFrame(flat: map<nat, Pte>, va: nat)
    requires Mapped(flat, va)
    ensures va / PGSIZE in flat && flat[va / PGSIZE].U() && Frame(flat, va) == flat[va / PGSIZE].frame
  {
  }

  /** After copyout, successful or not, the user sees the bytes of src up to the first byte that is not
      mapped. */
  lemma {:induction false} OutBytes(flat: map<nat, Pte>, data: Data, va: nat, src: seq<Byte>, b: nat)
    requires Present(flat, data) && Unaliased(flat, va, |src|)
    requires va <= b < va + |src| && forall j :: va <= j <= b ==> Mapped(flat, j)
    ensures ByteAt(flat, Out(flat, data, va, src).0, b) == Some(src[b - va])
    decreases |src|
  {
    hide Out, Unaliased;
    var n, f := InPage(va, |src|), Frame(flat, va);
    var d1: Data := data[f := Splice(data[f], va % PGSIZE, src[..n])];
    PageStep(va, |src|);
    OutFirst(flat, data, va, src);
    if b < va + n {
      SamePage(va, |src|, b);
      assert d1[f][b % PGSIZE] == src[..n][b - va];
    } else {
      OutBytes(flat, d1, NextPage(va), src[n..], b);
    }
  }

  lemma SamePage(va: nat, len: nat, k: nat)
    requires va <= k < va + InPage(va, len)
    ensures k / PGSIZE == va / PGSIZE && k % PGSIZE == va % PGSIZE + (k - va)
    ensures va < MAXVA ==> k < MAXVA
  {
  }

  /** A successful or failed copyout changes no byte of user memory outside its range, unless two
      pages share a frame. */
  lemma {:induction false} OutOutside(flat: map<nat, Pte>, data: Data, va: nat, src: seq<Byte>, k: nat)
    requires Present(flat, data) && !(va <= k < va + |src|)
    requires k / PGSIZE in flat ==>
      forall x :: va / PGSIZE <= x && x * PGSIZE < va + |src| && x in flat && x != k / PGSIZE ==>
        flat[x].frame != flat[k / PGSIZE].frame
    ensures ByteAt(flat, Out(flat, data, va, src).0, k) == ByteAt(flat, data, k)
    decreases |src|
  {
    if src != [] && Mapped(flat, va) {
      var n, f := InPage(va, |src|), Frame(flat, va);
      var d1: Data := data[f := Splice(data[f], va % PGSIZE, src[..n])];
      PageStep(va, |src|);
      OutOutside(flat, d1, NextPage(va), src[n..], k);
      if Mapped(flat, k) {
        OutsideStep(va, |src|, k);
      }
    }
  }

  lemma OutsideStep(va: nat, len: nat, k: nat)
    requires !(va <= k < va + len) && len > 0
    ensures k / PGSIZE == va / PGSIZE ==> !(va % PGSIZE <= k % PGSIZE < va % PGSIZE + InPage(va, len))
  {
  }

  /** walkaddr: the physical address of va's page, or 0. */
  method WalkAddr(t: UserTable, va: nat) returns (pa: nat)
    requires t.Valid()
    modifies t.mem, t`pos
    ensures t.Valid() && t.pos == old(t.pos)
    ensures t.mem.tables == old(t.mem.tables) && t.mem.data == old(t.mem.data) && t.mem.avail == old(t.mem.avail)
    ensures t.mem.free == old(t.mem.free)
    ensures pa != 0 <==> Mapped(t.flat, va)
    ensures pa != 0 <==>
      va < MAXVA && va / PGSIZE in t.flat && t.flat[va / PGSIZE].flags / 16 % 2 == 1 && t.flat[va / PGSIZE].frame != 0
    ensures pa != 0 ==> pa == t.flat[va / PGSIZE].frame * PGSIZE
  {
    if va >= MAXVA {
      return 0;
    }
    var s, f, i := t.Walk(va, false);
    if !s.Done? {
      return 0;
    }
    WalkEnds(t.mem.tables, t.root, t.pos, t.flat, f, va / PGSIZE);
    var e := t.mem.tables[f][i];
    if !e.V() || !e.U() {
      return 0;
    }
    pa := e.Address();
  }

  lemma OutStep(flat: map<nat, Pte>, data: Data, va: nat, src: seq<Byte>, done: nat)
    requires Present(flat, data) && done < |src|
    ensures !Mapped(flat, va) ==> Out(flat, data, va, src[done..]) == (data, false)
    ensures Mapped(flat, va) ==> var n, f := InPage(va, |src| - done), Frame(flat, va);
      Out(flat, data, va, src[done..])
      == Out(flat, data[f := Splice(data[f], va % PGSIZE, src[done..done + n])], NextPage(va), src[done + n..])
  {
    var n := InPage(va, |src| - done);
    assert src[done..][..n] == src[done..done + n] && src[done..][n..] == src[done + n..];
  }

  /** No user page is a table of the tree: else copyout could change translations. */
  ghost predicate NoTables(flat: map<nat, Pte>, pos: map<nat, Pos>)
  {
    forall x :: x in flat && flat[x].U() ==> flat[x].frame !in pos
  }

  /** The frames of the pages that the user may access. */
  ghost function UserFrames(flat: map<nat, Pte>): set<nat> { set x | x in flat && flat[x].U() :: flat[x].frame }

  /** copyout writes to frames of user pages only. */
  lemma {:induction false} OutKept(flat: map<nat, Pte>, data: Data, va: nat, src: seq<Byte>)
    requires Present(flat, data)
    ensures Kept(data, Out(flat, data, va, src).0, UserFrames(flat))
    decreases |src|
  {
    if src != [] && Mapped(flat, va) {
      var n, f := InPage(va, |src|), Frame(flat, va);
      OutKept(flat, data[f := Splice(data[f], va % PGSIZE, src[..n])], NextPage(va), src[n..]);
    }
  }

  /** copyout, from kernel to user. */
  method CopyOut(t: UserTable, dstva: nat, src: seq<Byte>) returns (ok: bool)
    requires t.Valid() && Present(t.flat, t.mem.data) && NoTables(t.flat, t.pos)
    modifies t.mem, t`pos
    ensures t.Valid() && t.pos == old(t.pos) && t.mem.avail == old(t.mem.avail) && t.mem.free == old(t.mem.free)
    ensures Kept(old(t.mem.tables), t.mem.tables, UserFrames(t.flat))
    ensures (t.mem.data, ok) == Out(t.flat, old(t.mem.data), dstva, src)
  {
    hide Refines, Lists, Out, Splice;
    var va: nat, done: nat := dstva, 0;
    assert src[0..] == src;
    while done < |src|
      invariant done <= |src| && t.Valid() && t.pos == old(t.pos) && Present(t.flat, t.mem.data)
      invariant Kept(old(t.mem.tables), t.mem.tables, UserFrames(t.flat))
      invariant t.mem.avail == old(t.mem.avail) && t.mem.free == old(t.mem.free)
      invariant Out(t.flat, t.mem.data, va, src[done..]) == Out(t.flat, old(t.mem.data), dstva, src)
    {
      var va0 := va / PGSIZE * PGSIZE;
      PageStep(va, |src| - done);
      OutStep(t.flat, t.mem.data, va, src, done);
      var pa0 := WalkAddr(t, va);
      if pa0 == 0 {
        return false;
      }
      var n := PGSIZE - (va - va0);
      if n > |src| - done {
        n := |src| - done;
      }
      var f := pa0 / PGSIZE;
      ghost var tables := t.mem.tables;
      assert f in UserFrames(t.flat);
      t.mem.SetData(f, Splice(t.mem.data[f], va - va0, src[done..done + n]));
      OtherTable(tables, t.mem.tables, {f}, t.root, t.pos, t.flat);
      done, va := done + n, va0 + PGSIZE;
    }
    OutNothing(t.flat, t.mem.data, va, src[done..]);
    ok := true;
  }

  lemma OutNothing(flat: map<nat, Pte>, data: Data, va: nat, src: seq<Byte>)
    requires Present(flat, data) && src == []
    ensures Out(flat, data, va, src) == (data, true)
  {
  }

  /** copyin, from user to kernel: dst holds the bytes copied. */
  method CopyIn(t: UserTable, srcva: nat, len: nat) returns (dst: seq<Byte>, ok: bool)
    requires t.Valid() && Present(t.flat, t.mem.data)
    modifies t.mem, t`pos
    ensures t.Valid() && t.pos == old(t.pos) && t.mem.tables == old(t.mem.tables) && t.mem.avail == old(t.mem.avail)
    ensures t.mem.data == old(t.mem.data) && (dst, ok) == In(t.flat, t.mem.data, srcva, len)
    ensures ok <==> forall b :: srcva <= b < srcva + len ==> Mapped(t.flat, b)
    ensures if ok then |dst| == len else |dst| < len && !Mapped(t.flat, srcva + |dst|)
    ensures forall b :: srcva <= b < srcva + |dst| ==>
      Mapped(t.flat, b) && dst[b - srcva] == t.mem.data[t.flat[b / PGSIZE].frame][b % PGSIZE]
  {
    hide Refines, Lists, In, Mapped;
    var va: nat, left: nat := srcva, len;
    dst := [];
    ghost var all := In(t.flat, t.mem.data, srcva, len);
    InDone(t.flat, t.mem.data, srcva, len, dst, va, left);
    while left > 0
      invariant t.Valid() && t.pos == old(t.pos) && Present(t.flat, t.mem.data)
      invariant t.mem.tables == old(t.mem.tables) && t.mem.avail == old(t.mem.avail) && t.mem.data == old(t.mem.data)
      invariant all == In(t.flat, t.mem.data, srcva, len) && InGoesOn(t.flat, t.mem.data, all, dst, va, left)
    {
      var va0 := va / PGSIZE * PGSIZE;
      PageStep(va, left);
      var pa0 := WalkAddr(t, va);
      InStep(t.flat, t.mem.data, all, dst, va, left);
      if pa0 == 0 {
        ok := false;
        Copied(t.flat, t.mem.data, srcva, len, dst, ok);
        return;
      }
      var n := PGSIZE - (va - va0);
      if n > left {
        n := left;
      }
      var f := pa0 / PGSIZE;
      dst := dst + t.mem.data[f][va - va0..va - va0 + n];
      left, va := left - n, va0 + PGSIZE;
    }
    InDone(t.flat, t.mem.data, srcva, len, dst, va, left);
    ok := true;
    Copied(t.flat, t.mem.data, srcva, len, dst, ok);
  }

  /** What is left to copy, after dst, completes all. */
  ghost predicate InGoesOn(flat: map<nat, Pte>, data: Data, all: (seq<Byte>, bool), dst: seq<Byte>, va: nat, left: nat)
    requires Present(flat, data)
  {
    all == (dst + In(flat, data, va, left).0, In(flat, data, va, left).1)
  }

  lemma InDone(flat: map<nat, Pte>, data: Data, srcva: nat, len: nat, dst: seq<Byte>, va: nat, left: nat)
    requires Present(flat, data)
    ensures dst == [] ==> InGoesOn(flat, data, In(flat, data, srcva, len), dst, srcva, len)
    ensures left == 0 && InGoesOn(flat, data, In(flat, data, srcva, len), dst, va, left) ==>
      In(flat, data, srcva, len) == (dst, true)
  {
    assert dst + [] == dst;
    if dst == [] { assert dst + In(flat, data, srcva, len).0 == In(flat, data, srcva, len).0; }
  }

  lemma InStep(flat: map<nat, Pte>, data: Data, all: (seq<Byte>, bool), dst: seq<Byte>, va: nat, left: nat)
    requires Present(flat, data) && left > 0 && InGoesOn(flat, data, all, dst, va, left)
    ensures !Mapped(flat, va) ==> all == (dst, false)
    ensures Mapped(flat, va) ==>
      var n, f := InPage(va, left), flat[va / PGSIZE].frame;
      f in data && InGoesOn(flat, data, all, dst + data[f][va % PGSIZE..va % PGSIZE + n], NextPage(va), left - n)
  {
    assert dst + [] == dst;
    if Mapped(flat, va) {
      var n, f := InPage(va, left), flat[va / PGSIZE].frame;
      var r := In(flat, data, NextPage(va), left - n);
      assert dst + (data[f][va % PGSIZE..va % PGSIZE + n] + r.0) == dst + data[f][va % PGSIZE..va % PGSIZE + n] + r.0;
    }
  }

  /** The string at va ends with a NUL at va + k, and all of it is mapped. */
  ghost predicate StringAt(flat: map<nat, Pte>, data: Data, va: nat, k: nat)
  {
    && ByteAt(flat, data, va + k) == Some(0)
    && forall x :: va <= x < va + k ==> ByteAt(flat, data, x).Some? && ByteAt(flat, data, x) != Some(0)
  }

  /** The bytes of the user at va .. va + |s| - 1. */
  ghost predicate Reads(flat: map<nat, Pte>, data: Data, va: nat, s: seq<Byte>)
  {
    forall i :: 0 <= i < |s| ==> ByteAt(flat, data, va + i) == Some(s[i])
  }

  predicate NoNul(s: seq<Byte>) { forall i :: 0 <= i < |s| ==> s[i] != 0 }

  /** A prefix without NUL up to an unmapped byte or to the limit leaves no string. */
  lemma NoString(flat: map<nat, Pte>, data: Data, va: nat, s: seq<Byte>, k: nat)
    requires Reads(flat, data, va, s) && NoNul(s) && (k < |s| || ByteAt(flat, data, va + |s|).None?)
    ensures !StringAt(flat, data, va, k)
  {
    if k < |s| {
      assert ByteAt(flat, data, va + k) == Some(s[k]);
    } else {
      assert k > |s| ==> va <= va + |s| < va + k;
    }
  }

  /** copyinstr's inner loop, over the bytes of one page: n bytes at most, none of them after a NUL. */
  method CopyFromPage(page: Page, off: nat, n: nat) returns (got: seq<Byte>, gotNull: bool)
    requires off + n <= PGSIZE
    ensures |got| <= n && got == page[off..off + |got|]
    ensures if gotNull then |got| > 0 && got[|got| - 1] == 0 && NoNul(got[..|got| - 1]) else |got| == n && NoNul(got)
  {
    var p, left := off, n;
    got, gotNull := [], false;
    while left > 0
      invariant p + left == off + n && off <= p && got == page[off..p] && NoNul(got)
    {
      if page[p] == 0 {
        return got + [0], true;
      }
      got := got + [page[p]];
      left, p := left - 1, p + 1;
    }
  }

  lemma ReadsMore(flat: map<nat, Pte>, data: Data, va0: nat, s: seq<Byte>, va: nat, len: nat, got: seq<Byte>)
    requires Reads(flat, data, va0, s) && va == va0 + |s| && Mapped(flat, va) && Frame(flat, va) in data
    requires |got| <= InPage(va, len) && got == data[Frame(flat, va)][va % PGSIZE..va % PGSIZE + |got|]
    ensures Reads(flat, data, va0, s + got)
  {
    forall i | 0 <= i < |s| + |got| ensures ByteAt(flat, data, va0 + i) == Some((s + got)[i]) {
      if i >= |s| {
        SamePage(va, len, va0 + i);
      }
    }
  }

  /** copyinstr: succeeds exactly when a NUL lies within the first max mapped bytes, and then has
      copied precisely through it. */
  method CopyInStr(t: UserTable, srcva: nat, max: nat) returns (dst: seq<Byte>, ok: bool)
    requires t.Valid() && Present(t.flat, t.mem.data)
    modifies t.mem, t`pos
    ensures t.Valid() && t.pos == old(t.pos) && t.mem.tables == old(t.mem.tables) && t.mem.avail == old(t.mem.avail)
    ensures t.mem.data == old(t.mem.data)
    ensures ok <==> exists k :: 0 <= k < max && StringAt(t.flat, t.mem.data, srcva, k)
    ensures ok ==> |dst| > 0 && StringAt(t.flat, t.mem.data, srcva, |dst| - 1)
    ensures |dst| <= max && Reads(t.flat, t.mem.data, srcva, dst)
  {
    hide Refines, Lists;
    var va: nat, left: nat, gotNull := srcva, max, false;
    dst := [];
    while !gotNull && left > 0
      invariant t.Valid() && t.pos == old(t.pos) && Present(t.flat, t.mem.data)
      invariant t.mem.tables == old(t.mem.tables) && t.mem.avail == old(t.mem.avail) && t.mem.data == old(t.mem.data)
      invariant |dst| <= max && Reads(t.flat, t.mem.data, srcva, dst)
      invariant !gotNull ==> |dst| + left == max && NoNul(dst) && (left > 0 ==> va == srcva + |dst|)
      invariant gotNull ==> |dst| > 0 && dst[|dst| - 1] == 0 && NoNul(dst[..|dst| - 1])
      decreases !gotNull, left
    {
      var va0 := va / PGSIZE * PGSIZE;
      PageStep(va, left);
      var pa0 := WalkAddr(t, va);
      if pa0 == 0 {
        forall k | 0 <= k < max ensures !StringAt(t.flat, t.mem.data, srcva, k) {
          NoString(t.flat, t.mem.data, srcva, dst, k);
        }
        return dst, false;
      }
      var n := PGSIZE - (va - va0);
      if n > left {
        n := left;
      }
      var got;
      got, gotNull := CopyFromPage(t.mem.data[pa0 / PGSIZE], va - va0, n);
      ReadsMore(t.flat, t.mem.data, srcva, dst, va, left, got);
      assert gotNull ==> (dst + got)[..|dst + got| - 1] == dst + got[..|got| - 1];
      dst := dst + got;
      left, va := left - |got|, va0 + PGSIZE;
    }
    ok := gotNull;
    if ok {
      EndsWithNul(t.flat, t.mem.data, srcva, dst);
    } else {
      forall k | 0 <= k < max ensures !StringAt(t.flat, t.mem.data, srcva, k) {
        NoString(t.flat, t.mem.data, srcva, dst, k);
      }
    }
  }

  lemma EndsWithNul(flat: map<nat, Pte>, data: Data, va: nat, s: seq<Byte>)
    requires Reads(flat, data, va, s) && |s| > 0 && s[|s| - 1] == 0 && NoNul(s[..|s| - 1])
    ensures StringAt(flat, data, va, |s| - 1)
  {
    forall x | va <= x < va + |s| - 1 ensures ByteAt(flat, data, x).Some? && ByteAt(flat, data, x) != Some(0) {
      assert ByteAt(flat, data, va + (x - va)) == Some(s[x - va]) && s[..|s| - 1][x - va] == s[x - va];
    }
  }
}
