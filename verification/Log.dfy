/** kernel/log.c over the buffer cache: the group's bookkeeping under log.lock, and commit and
    recovery, whose disk writes are exactly the images of module LogFormat. */
module Log {
  import opened Blocks
  import opened Ring
  import opened CacheSpec
  import opened Bio
  import opened LogFormat

  /** Buffers i and j were read for the distinct blocks x and y and are held by pid. */
  ghost predicate ReadPair(c: Cache, d: Image, x: nat, y: nat, pid: nat, i: nat, j: nat, c': Cache)
  {
    && x < |d| && y < |d| && x != y && Consistent(c, d) && Consistent(c', d) && i < NBUF && j < NBUF && i != j
    && c'.bufs[i] == Buf(true, ROOTDEV, x, Refs(c, x) + 1, pid, View(c, d, x))
    && c'.bufs[j] == Buf(true, ROOTDEV, y, Refs(c, y) + 1, pid, View(c, d, y))
    && c.bufs[i].refcnt == Refs(c, x) && c.bufs[j].refcnt == Refs(c, y)
    && (forall k :: 0 <= k < NBUF && k != i && k != j ==> c'.bufs[k] == c.bufs[k])
    && (forall z :: 0 <= z < |d| ==> View(c', d, z) == View(c, d, z))
    && (forall z :: Refs(c', z) == Refs(c, z) + (if z == x || z == y then 1 else 0))
    && (forall z :: z != x && z != y ==> Holder(c', z) == Holder(c, z))
  }

  lemma PairRead(c: Cache, d: Image, x: nat, y: nat, pid: nat, i: nat, c1: Cache, j: nat, c2: Cache)
    requires Consistent(c, d) && x < |d| && y < |d| && x != y && Reads(c, d, x, pid, i, c1)
    requires Consistent(c1, d) && Reads(c1, d, y, pid, j, c2)
    ensures ReadPair(c, d, x, y, pid, i, j, c2)
  {
    ReadsKeeps(c, d, x, pid, i, c1);
    PickedRefs(c, x, i);
    ReadsKeeps(c1, d, y, pid, j, c2);
    PickedRefs(c1, y, j);
  }

  lemma ReadPairSwap(c: Cache, d: Image, x: nat, y: nat, pid: nat, i: nat, j: nat, c': Cache)
    requires ReadPair(c, d, x, y, pid, i, j, c')
    ensures ReadPair(c, d, y, x, pid, j, i, c')
  {
  }

  /** Both buffers released again, one of them changed and written to disk: buffer i (block x)
      now has contents v on disk and in the cache, and lost drop references more than the read
      had added. */
  lemma PairReleased(c: Cache, d: Image, x: nat, y: nat, pid: nat, i: nat, j: nat, c2: Cache,
                     v: Block, drop: nat, c5: Cache)
    requires ReadPair(c, d, x, y, pid, i, j, c2)
    requires Holder(c, x) == Holder(c, y) == 0 && drop <= Refs(c, x) && Wf(c5)
    requires c5.bufs == c2.bufs[i := Buf(true, ROOTDEV, x, Refs(c, x) - drop, 0, v)]
                               [j := c2.bufs[j].(refcnt := Refs(c, y), pid := 0)]
    ensures Moved(c, d, c5, d[x := v], x, v, drop)
  {
    PairCarriers(c2, i, j, c5);
    PairConsistent(c, d, x, y, pid, i, j, c2, v, drop, c5);
    var l, l' := LookMoved(LookOf(c, d), x, v, drop), LookOf(c5, d[x := v]);
    forall z | 0 <= z < |d|
      ensures l'.views[z] == l.views[z] && l'.refs[z] == l.refs[z] && l'.holders[z] == l.holders[z]
    {
      PairSeen(c, d, x, y, pid, i, j, c2, v, drop, c5, z);
    }
    assert l'.views == l.views && l'.refs == l.refs && l'.holders == l.holders;
    if Spare(c) { StillSpare(c, c5); }
  }

  /** The same for a clean unreferenced block x copied over block y, whose buffer is j. */
  lemma InstallReleased(c: Cache, d: Image, x: nat, y: nat, pid: nat, i: nat, j: nat, c2: Cache,
                        drop: nat, c5: Cache)
    requires ReadPair(c, d, x, y, pid, i, j, c2) && Refs(c, x) == 0
    requires Holder(c, x) == Holder(c, y) == 0 && drop <= Refs(c, y) && Wf(c5)
    requires c5.bufs == c2.bufs[j := Buf(true, ROOTDEV, y, Refs(c, y) - drop, 0, c2.bufs[i].data)]
                               [i := c2.bufs[i].(refcnt := 0, pid := 0)]
    ensures Moved(c, d, c5, d[y := d[x]], y, d[x], drop)
  {
    UnreferencedClean(c, d, x);
    ReadPairSwap(c, d, x, y, pid, i, j, c2);
    PairReleased(c, d, y, x, pid, j, i, c2, d[x], drop, c5);
  }

  /** What block z looks like afterwards. */
  lemma PairSeen(c: Cache, d: Image, x: nat, y: nat, pid: nat, i: nat, j: nat, c2: Cache,
                 v: Block, drop: nat, c5: Cache, z: nat)
    requires ReadPair(c, d, x, y, pid, i, j, c2) && Holder(c, x) == Holder(c, y) == 0 && drop <= Refs(c, x)
    requires Carrier(c5, x) == Some(Buf(true, ROOTDEV, x, Refs(c, x) - drop, 0, v))
    requires Carrier(c5, y) == Some(c2.bufs[j].(refcnt := Refs(c, y), pid := 0))
    requires z != x && z != y ==> Carrier(c5, z) == Carrier(c2, z)
    ensures Refs(c, z) == Refs(c5, z) + (if z == x then drop else 0) && Holder(c5, z) == Holder(c, z)
    ensures z < |d| ==> View(c5, d[x := v], z) == if z == x then v else View(c, d, z)
  {
    assert z != x && z != y ==> Refs(c2, z) == Refs(c, z) && Holder(c2, z) == Holder(c, z);
    assert z < |d| ==> View(c2, d, z) == View(c, d, z);
  }

  /** Two buffers changed, but not the blocks they carry. */
  lemma PairCarriers(c: Cache, i: nat, j: nat, c': Cache)
    requires Unique(c) && i < |c.bufs| && j < |c.bufs| && i != j && |c'.bufs| == |c.bufs|
    requires forall k :: 0 <= k < |c.bufs| && k != i && k != j ==> c'.bufs[k] == c.bufs[k]
    requires c.bufs[i].dev == c'.bufs[i].dev == ROOTDEV && c.bufs[i].blockno == c'.bufs[i].blockno
    requires c.bufs[j].dev == c'.bufs[j].dev == ROOTDEV && c.bufs[j].blockno == c'.bufs[j].blockno
    ensures Unique(c') && Carrier(c', c'.bufs[i].blockno) == Some(c'.bufs[i])
    ensures Carrier(c', c'.bufs[j].blockno) == Some(c'.bufs[j])
    ensures forall z :: z != c.bufs[i].blockno && z != c.bufs[j].blockno ==> Carrier(c', z) == Carrier(c, z)
  {
    var c1 := Cache(c.bufs[i := c'.bufs[i]], c.order);
    ChangeBuf(c, i, c'.bufs[i], c.order);
    ChangeBuf(c1, j, c'.bufs[j], c'.order);
    assert c' == Cache(c1.bufs[j := c'.bufs[j]], c'.order);
  }

  lemma PairConsistent(c: Cache, d: Image, x: nat, y: nat, pid: nat, i: nat, j: nat, c2: Cache,
                       v: Block, drop: nat, c5: Cache)
    requires ReadPair(c, d, x, y, pid, i, j, c2) && drop <= Refs(c, x) && Wf(c5) && Unique(c5)
    requires c5.bufs == c2.bufs[i := Buf(true, ROOTDEV, x, Refs(c, x) - drop, 0, v)]
                               [j := c2.bufs[j].(refcnt := Refs(c, y), pid := 0)]
    ensures Consistent(c5, d[x := v])
  {
    if Refs(c, y) == 0 { UnreferencedClean(c, d, y); }
    forall k | 0 <= k < NBUF ensures BufConsistent(c5.bufs[k], d[x := v]) {
      assert BufConsistent(c2.bufs[k], d);
      assert k != i && c2.bufs[k].dev == ROOTDEV ==> !Caches(c2.bufs[k], ROOTDEV, x);
    }
  }

  /** A look at which a commit or recovery of the blocks bs may run: only the log uses the log
      area, and the blocks are not locked. */
  ghost predicate Ready(g: Geometry, l: Look, bs: seq<nat>)
  {
    && |l.views| == |l.refs| == |l.holders| && g.start + g.size <= |l.views| <= 0x8000_0000
    && Loggable(g, |l.views|, bs)
    && (forall x :: 0 <= x < |l.refs| && g.InLog(x) ==> l.refs[x] == 0 && l.holders[x] == 0)
    && forall i :: 0 <= i < |bs| ==> l.holders[bs[i]] == 0
  }

  /** The blocks bs are pinned. */
  ghost predicate PinnedAll(l: Look, bs: seq<nat>)
  {
    forall i :: 0 <= i < |bs| ==> bs[i] < |l.refs| && l.refs[bs[i]] > 0
  }

  /** Only the contents of the log area may look different. */
  ghost predicate LooksLike(g: Geometry, l: Look, l': Look)
  {
    && l'.refs == l.refs && l'.holders == l.holders && |l'.views| == |l.views|
    && forall y :: 0 <= y < |l.views| && !g.InLog(y) ==> l'.views[y] == l.views[y]
  }

  /** Writing a log block, data or header, leaves the rest looking the same. */
  lemma LogLooks(g: Geometry, l: Look, bs: seq<nat>, l1: Look, x: nat, v: Block, l2: Look)
    requires Ready(g, l, bs) && LooksLike(g, l, l1) && g.InLog(x) && l2 == LookMoved(l1, x, v, 0)
    ensures LooksLike(g, l, l2) && Ready(g, l2, bs)
  {
    assert l2.refs == l1.refs;
  }

  /** The first k of the blocks bs look like the log data blocks of e and lost drop references. */
  ghost predicate LooksInstalled(g: Geometry, l: Look, bs: seq<nat>, e: Image, k: nat, drop: nat, l': Look)
  {
    && |l.views| == |l.refs| == |e| && |l'.views| == |l'.refs| == |e| && l'.holders == l.holders
    && k <= |bs| && g.start + |bs| < |e| && (forall i :: 0 <= i < |bs| ==> bs[i] < |e|)
    && (forall y :: 0 <= y < |e| && y !in bs[..k] ==> l'.views[y] == l.views[y] && l'.refs[y] == l.refs[y])
    && forall i :: 0 <= i < k ==>
         && l'.views[bs[i]] == e[g.start + i + 1] && l.refs[bs[i]] == l'.refs[bs[i]] + drop
  }

  lemma InstalledReady(g: Geometry, l: Look, bs: seq<nat>, e: Image, k: nat, drop: nat, l1: Look)
    requires Ready(g, l, bs) && k <= |bs| && LooksInstalled(g, l, bs, e, k, drop, l1)
    ensures Ready(g, l1, bs) && (k < |bs| ==> l1.refs[bs[k]] == l.refs[bs[k]])
  {
  }

  lemma InstallLooks(g: Geometry, l: Look, bs: seq<nat>, e: Image, k: nat, drop: nat, l1: Look, l2: Look)
    requires Ready(g, l, bs) && k < |bs| && LooksInstalled(g, l, bs, e, k, drop, l1)
    requires l2 == LookMoved(l1, bs[k], e[g.start + k + 1], drop) && drop <= l.refs[bs[k]]
    ensures LooksInstalled(g, l, bs, e, k + 1, drop, l2) && Ready(g, l1, bs) && Ready(g, l2, bs)
  {
    assert bs[..k + 1] == bs[..k] + [bs[k]];
  }

  // ---- Plans: the images that a series of block writes goes through ----

  /** The plan's write number `from` + k stores vals[k] in the log. */
  ghost predicate LogsAt(g: Geometry, plan: seq<Image>, vals: seq<Block>, from: nat, k: nat)
    requires from + k + 1 < |plan| && k < |vals|
  {
    && g.start + k + 1 < |plan[from + k]|
    && plan[from + k + 1] == plan[from + k][g.start + k + 1 := vals[k]]
  }

  /** The plan's write number `from` + k copies log data block k home to bs[k]. */
  ghost predicate InstallsAt(g: Geometry, plan: seq<Image>, bs: seq<nat>, from: nat, k: nat)
    requires from + k + 1 < |plan| && k < |bs|
  {
    && g.start + k + 1 < |plan[from]| == |plan[from + k]| && bs[k] < |plan[from + k]|
    && plan[from + k][g.start + k + 1] == plan[from][g.start + k + 1]
    && plan[from + k + 1] == plan[from + k][bs[k] := plan[from][g.start + k + 1]]
  }

  ghost predicate PlansLog(g: Geometry, plan: seq<Image>, vals: seq<Block>, from: nat)
  {
    from + |vals| < |plan| && forall k :: 0 <= k < |vals| ==> LogsAt(g, plan, vals, from, k)
  }

  ghost predicate PlansInstall(g: Geometry, plan: seq<Image>, bs: seq<nat>, from: nat)
  {
    from + |bs| < |plan| && forall k :: 0 <= k < |bs| ==> InstallsAt(g, plan, bs, from, k)
  }

  /** Image number `from` is followed by one whose header lists bs. */
  ghost predicate PlansHead(g: Geometry, plan: seq<Image>, bs: seq<nat>, from: nat)
  {
    && from + 1 < |plan| && g.start < |plan[from]| && |bs| <= LOGSIZE
    && (forall i :: 0 <= i < |bs| ==> bs[i] < 0x8000_0000)
    && plan[from + 1] == plan[from][g.start := Encode(plan[from][g.start], bs)]
  }

  /** The disk stands at image k of the plan, having gone through those after `from`. */
  ghost predicate OnPlan(plan: seq<Image>, from: nat, k: nat, w: seq<Image>, ws: seq<Image>, d: Image)
  {
    from <= k < |plan| && d == plan[k] && ws == w + plan[from + 1..k + 1]
  }

  lemma PlanStep(plan: seq<Image>, from: nat, k: nat, w: seq<Image>, ws: seq<Image>, d: Image, d': Image)
    requires OnPlan(plan, from, k, w, ws, d) && k + 1 < |plan| && d' == plan[k + 1]
    ensures OnPlan(plan, from, k + 1, w, ws + [d'], d')
  {
    assert plan[from + 1..k + 2] == plan[from + 1..k + 1] + [d'];
  }

  lemma PlanJoin(plan: seq<Image>, from: nat, mid: nat, k: nat, w: seq<Image>, w1: seq<Image>, ws: seq<Image>,
                 d1: Image, d: Image)
    requires OnPlan(plan, from, mid, w, w1, d1) && OnPlan(plan, mid, k, w1, ws, d)
    ensures OnPlan(plan, from, k, w, ws, d)
  {
    assert plan[from + 1..k + 1] == plan[from + 1..mid + 1] + plan[mid + 1..k + 1];
  }

  /** All images of a commit, the one before its first write included. */
  ghost function CommitPlan(g: Geometry, d: Image, bs: seq<nat>, vals: seq<Block>): (plan: seq<Image>)
    requires g.Fits(d) && Loggable(g, |d|, bs) && |vals| == |bs|
    ensures |plan| == CommitWrites(|bs|) + 1
    ensures forall s :: 0 <= s < |plan| ==> plan[s] == CommitImage(g, d, bs, vals, s)
  {
    seq(CommitWrites(|bs|) + 1, s requires 0 <= s <= CommitWrites(|bs|) => CommitImage(g, d, bs, vals, s))
  }

  /** All images of a recovery. */
  ghost function RecoverPlan(g: Geometry, d: Image): (plan: seq<Image>)
    requires g.Fits(d) && HeaderOk(g, |d|, d[g.start])
    ensures |plan| == d[g.start][0] + 2
    ensures forall s :: 0 <= s < |plan| ==> plan[s] == RecoverImage(g, d, s)
  {
    seq(d[g.start][0] + 2, s requires 0 <= s < d[g.start][0] + 2 => RecoverImage(g, d, s))
  }

  /** The plan of a commit of bs with contents vals: log blocks, header, installs, header. */
  ghost predicate PlansCommit(g: Geometry, plan: seq<Image>, bs: seq<nat>, vals: seq<Block>)
  {
    && |plan| == CommitWrites(|bs|) + 1 && |vals| == |bs| > 0
    && PlansLog(g, plan, vals, 0) && PlansHead(g, plan, bs, |bs|)
    && PlansInstall(g, plan, bs, |bs| + 1) && PlansHead(g, plan, [], 2 * |bs| + 1)
    && g.start + |bs| < |plan[|bs| + 1]|
    && forall i :: 0 <= i < |bs| ==> plan[|bs| + 1][g.start + i + 1] == vals[i]
  }

  ghost predicate PlansRecovery(g: Geometry, plan: seq<Image>, bs: seq<nat>)
  {
    |plan| == |bs| + 2 && PlansInstall(g, plan, bs, 0) && PlansHead(g, plan, [], |bs|)
  }

  /** Image `from` + k of the plan is d with k blocks installed. */
  ghost predicate InstalledAtStep(g: Geometry, plan: seq<Image>, d: Image, bs: seq<nat>, from: nat, k: nat)
    requires g.Fits(d) && Loggable(g, |d|, bs) && from + k < |plan| && k <= |bs|
  {
    plan[from + k] == Installed(g, d, bs, k)
  }

  lemma InstallPlanned(g: Geometry, plan: seq<Image>, d: Image, bs: seq<nat>, from: nat)
    requires g.Fits(d) && Loggable(g, |d|, bs) && from + |bs| < |plan|
    requires forall k :: 0 <= k <= |bs| ==> InstalledAtStep(g, plan, d, bs, from, k)
    ensures PlansInstall(g, plan, bs, from)
  {
    forall k | 0 <= k < |bs| ensures InstallsAt(g, plan, bs, from, k) {
      assert InstalledAtStep(g, plan, d, bs, from, 0) && InstalledAtStep(g, plan, d, bs, from, k);
      assert g.InLog(g.start + k + 1) && InstalledAtStep(g, plan, d, bs, from, k + 1);
    }
  }

  lemma CommitPlansLog(g: Geometry, d: Image, bs: seq<nat>, vals: seq<Block>, plan: seq<Image>)
    requires g.Fits(d) && Loggable(g, |d|, bs) && |vals| == |bs| > 0 && plan == CommitPlan(g, d, bs, vals)
    ensures PlansLog(g, plan, vals, 0) && PlansHead(g, plan, bs, |bs|)
  {
    var n := |bs|;
    forall k | 0 <= k < n ensures LogsAt(g, plan, vals, 0, k) {
      assert plan[k] == Logged(g, d, vals, k) && plan[k + 1] == Logged(g, d, vals, k + 1);
    }
    assert plan[n] == Logged(g, d, vals, n) && plan[n + 1] == Committed(g, d, bs, vals);
  }

  /** The images of a commit after its header write. */
  lemma CommitImageIs(g: Geometry, d: Image, bs: seq<nat>, vals: seq<Block>, k: nat)
    requires g.Fits(d) && Loggable(g, |d|, bs) && |vals| == |bs| > 0 && k <= |bs|
    ensures CommitImage(g, d, bs, vals, |bs| + 1 + k) == Installed(g, Committed(g, d, bs, vals), bs, k)
  {
  }

  lemma CommitPlansInstall(g: Geometry, d: Image, bs: seq<nat>, vals: seq<Block>, plan: seq<Image>)
    requires g.Fits(d) && Loggable(g, |d|, bs) && |vals| == |bs| > 0 && plan == CommitPlan(g, d, bs, vals)
    ensures plan[|bs| + 1] == Committed(g, d, bs, vals)
    ensures PlansInstall(g, plan, bs, |bs| + 1) && PlansHead(g, plan, [], 2 * |bs| + 1)
  {
    var n, from, c := |bs|, |bs| + 1, Committed(g, d, bs, vals);
    forall k | 0 <= k <= n ensures InstalledAtStep(g, plan, c, bs, from, k) {
      CommitImageIs(g, d, bs, vals, k);
    }
    InstallPlanned(g, plan, c, bs, from);
    assert InstalledAtStep(g, plan, c, bs, from, 0) && InstalledAtStep(g, plan, c, bs, from, n);
    assert plan[2 * n + 2] == CommitImage(g, d, bs, vals, 2 * n + 2);
    assert g.InLog(g.start);
  }

  lemma CommitPlanned(g: Geometry, d: Image, bs: seq<nat>, vals: seq<Block>, plan: seq<Image>)
    requires g.Fits(d) && Loggable(g, |d|, bs) && |vals| == |bs| > 0 && plan == CommitPlan(g, d, bs, vals)
    ensures plan[0] == d && PlansCommit(g, plan, bs, vals)
  {
    CommitPlansLog(g, d, bs, vals, plan);
    CommitPlansInstall(g, d, bs, vals, plan);
  }

  lemma RecoverPlanned(g: Geometry, d: Image, plan: seq<Image>)
    requires Recoverable(g, d) && plan == RecoverPlan(g, d)
    ensures plan[0] == d && PlansRecovery(g, plan, Decode(d[g.start]))
  {
    var bs := Decode(d[g.start]);
    assert Loggable(g, |d|, bs) && g.InLog(g.start);
    forall k {:trigger Installed(g, d, bs, k)} | 0 <= k <= |bs| ensures InstalledAtStep(g, plan, d, bs, 0, k) {
      assert plan[0 + k] == RecoverImage(g, d, k);
    }
    InstallPlanned(g, plan, d, bs, 0);
  }

  /** What a commit would log: the contents that readers see of the listed blocks. */
  ghost function Views(l: Look, bs: seq<nat>): (vals: seq<Block>)
    requires forall i :: 0 <= i < |bs| ==> bs[i] < |l.views|
    ensures |vals| == |bs| && forall i :: 0 <= i < |bs| ==> vals[i] == l.views[bs[i]]
  {
    seq(|bs|, i requires 0 <= i < |bs| => l.views[bs[i]])
  }

  /** Cache and disk are consistent and look as told. */
  ghost predicate At(c: Cache, d: Image, l: Look) { Consistent(c, d) && LookOf(c, d) == l }

  /** Nobody references a buffer, as after boot: block by block, and buffer by buffer. */
  ghost predicate Unreferenced(l: Look) { forall x :: 0 <= x < |l.refs| ==> l.refs[x] == 0 }

  ghost predicate AllFree(c: Cache) { forall i :: 0 <= i < |c.bufs| ==> c.bufs[i].refcnt == 0 }

  lemma FreeIff(c: Cache, d: Image)
    requires Consistent(c, d)
    ensures Unreferenced(LookOf(c, d)) <==> AllFree(c)
  {
    if Unreferenced(LookOf(c, d)) {
      forall i | 0 <= i < |c.bufs| ensures c.bufs[i].refcnt == 0 {
        assert BufConsistent(c.bufs[i], d);
        if c.bufs[i].dev == ROOTDEV {
          CarrierIs(c, i);
          assert Refs(c, c.bufs[i].blockno) == LookOf(c, d).refs[c.bufs[i].blockno];
        }
      }
    }
  }

  /** Two buffers can be had when all are free. */
  lemma OneTaken(c: Cache, d: Image, x: nat, pid: nat, i: nat, c': Cache)
    requires Consistent(c, d) && x < |d| && AllFree(c) && Reads(c, d, x, pid, i, c')
    ensures Spare(c) && Spare(c')
  {
    var j := if i == 0 then 1 else 0;
    assert c.bufs[j].refcnt == 0 && c'.bufs[j].refcnt == 0;
  }

  /** What boot leaves is ready for recovery. */
  lemma BootReady(g: Geometry, c: Cache, d: Image)
    requires Consistent(c, d) && AllFree(c) && Recoverable(g, d) && |d| <= 0x8000_0000
    ensures At(c, d, LookOf(c, d)) && Unreferenced(LookOf(c, d)) && Ready(g, LookOf(c, d), Decode(d[g.start]))
  {
    FreeIff(c, d);
    forall i | 0 <= i < |c.bufs| ensures c.bufs[i].pid == 0 {
      assert BufConsistent(c.bufs[i], d);
    }
  }

  /** After a complete commit: home blocks look the same, and the logged ones lost their pin. */
  ghost predicate LookCommitted(g: Geometry, l: Look, bs: seq<nat>, l': Look)
  {
    && |l'.views| == |l.views| == |l.refs| == |l'.refs| && l'.holders == l.holders
    && (forall y :: 0 <= y < |l.views| && !g.InLog(y) ==> l'.views[y] == l.views[y])
    && forall y :: 0 <= y < |l.refs| ==> l.refs[y] == l'.refs[y] + (if y in bs then 1 else 0)
  }

  /** Installing what was logged shows every reader the same home blocks as before. */
  lemma CommitLooks(g: Geometry, l: Look, bs: seq<nat>, e: Image, l2: Look, r: Look)
    requires Ready(g, l, bs) && LooksLike(g, l, l2) && LooksInstalled(g, l2, bs, e, |bs|, 1, r)
    requires forall i :: 0 <= i < |bs| ==> e[g.start + i + 1] == l.views[bs[i]]
    ensures LookCommitted(g, l, bs, r)
  {
    assert bs[..|bs|] == bs;
    forall y | 0 <= y < |l.views|
      ensures !g.InLog(y) ==> r.views[y] == l.views[y]
      ensures l.refs[y] == r.refs[y] + (if y in bs then 1 else 0)
    {
      if y in bs {
        var i :| 0 <= i < |bs| && bs[i] == y;
        assert r.views[bs[i]] == e[g.start + i + 1];
      }
    }
  }

  /** Erasing the header changes no home block's look. */
  lemma ErasedLooks(g: Geometry, l: Look, bs: seq<nat>, r: Look, v: Block, r': Look)
    requires LookCommitted(g, l, bs, r) && 1 <= g.size && r' == LookMoved(r, g.start, v, 0)
    ensures LookCommitted(g, l, bs, r')
  {
    assert g.start < |r.refs| ==> r'.refs == r.refs;
  }

  lemma LogStep(g: Geometry, plan: seq<Image>, w: seq<Image>, ws: seq<Image>, l: Look, bs: seq<nat>, k: nat,
                c: Cache, e: Image, c': Cache, e': Image)
    requires Ready(g, l, bs) && k < |bs| && PlansLog(g, plan, Views(l, bs), 0)
    requires LooksLike(g, l, LookOf(c, e)) && OnPlan(plan, 0, k, w, ws, e)
    requires Moved(c, e, c', e', g.start + k + 1, l.views[bs[k]], 0)
    ensures LooksLike(g, l, LookOf(c', e')) && OnPlan(plan, 0, k + 1, w, ws + [e'], e')
  {
    assert LogsAt(g, plan, Views(l, bs), 0, k);
    PlanStep(plan, 0, k, w, ws, e, e');
    LogLooks(g, l, bs, LookOf(c, e), g.start + k + 1, l.views[bs[k]], LookOf(c', e'));
  }

  lemma InstallStep(g: Geometry, plan: seq<Image>, from: nat, w: seq<Image>, ws: seq<Image>, l: Look, bs: seq<nat>,
                    k: nat, drop: nat, c: Cache, e: Image, c': Cache, e': Image)
    requires Ready(g, l, bs) && k < |bs| && PlansInstall(g, plan, bs, from)
    requires LooksInstalled(g, l, bs, plan[from], k, drop, LookOf(c, e)) && drop <= l.refs[bs[k]]
    requires InstallsAt(g, plan, bs, from, k) && OnPlan(plan, from, from + k, w, ws, e)
    requires Moved(c, e, c', e', bs[k], e[g.start + k + 1], drop)
    ensures LooksInstalled(g, l, bs, plan[from], k + 1, drop, LookOf(c', e'))
    ensures OnPlan(plan, from, from + k + 1, w, ws + [e'], e')
  {
    PlanStep(plan, from, from + k, w, ws, e, e');
    InstallLooks(g, l, bs, plan[from], k, drop, LookOf(c, e), LookOf(c', e'));
  }

  lemma NothingToCommit(g: Geometry, d: Image, bs: seq<nat>, vals: seq<Block>, l: Look)
    requires g.Fits(d) && Loggable(g, |d|, bs) && |vals| == |bs| == 0 && Ready(g, l, bs)
    ensures CommitImage(g, d, bs, vals, 0) == d && LookCommitted(g, l, bs, l)
  {
  }

  class Logger {
    const bc: BCache
    const disk: Disk
    const g: Geometry
    var n: nat
    const block: array<nat>
    var outstanding: int
    var committing: bool

    ghost predicate Valid()
      reads this, bc, bc.buf, bc.next, bc.prev
    {
      && bc.Valid() && bc.disk == disk && block.Length == LOGSIZE && n <= LOGSIZE
      && block != bc.next && block != bc.prev
    }

    /** lh.block[0..n]. */
    ghost function Lh(): seq<nat>
      reads this, block
      requires n <= block.Length
    {
      block[..n]
    }

    constructor (bc: BCache, g: Geometry)
      requires bc.Valid()
      ensures Valid() && Lh() == [] && outstanding == 0 && !committing
      ensures this.bc == bc && this.g == g && disk == bc.disk && fresh(block)
    {
      this.bc, this.disk, this.g := bc, bc.disk, g;
      block := new nat[LOGSIZE](i => 0);
      n, outstanding, committing := 0, 0, false;
    }

    // ---- Critical sections under log.lock ----

    /** One pass of begin_op's loop; mustWait means that it goes to sleep. */
    method BeginOp() returns (mustWait: bool)
      requires Valid()
      modifies this`outstanding
      ensures mustWait <==> committing || n + (old(outstanding) + 1) * MAXOPBLOCKS > LOGSIZE
      ensures outstanding == old(outstanding) + (if mustWait then 0 else 1)
    {
      if committing {
        mustWait := true;
      } else if n + (outstanding + 1) * MAXOPBLOCKS > LOGSIZE {
        mustWait := true;
      } else {
        outstanding := outstanding + 1;
        mustWait := false;
      }
    }

    /** end_op up to the release of log.lock; None is the panic "log.committing". */
    method EndOp() returns (doCommit: Option<bool>)
      requires Valid()
      modifies this`outstanding, this`committing
      ensures outstanding == old(outstanding) - 1
      ensures doCommit == if old(committing) then None else Some(outstanding == 0)
      ensures committing == (old(committing) || outstanding == 0)
    {
      outstanding := outstanding - 1;
      if committing {
        return None;
      }
      if outstanding == 0 {
        committing := true;
      }
      doCommit := Some(outstanding == 0);
    }

    /** log_write for buffer b: absorbed, or appended and pinned; !ok is a panic. */
    method LogWrite(b: nat) returns (ok: bool)
      requires Valid() && b < NBUF && bc.buf[b].pid != 0
      modifies this`n, block, bc.buf
      ensures Valid() && bc.order == old(bc.order) && n <= LOGSIZE
      ensures ok <==> old(n) < LOGSIZE && old(n) < g.size - 1 && outstanding >= 1
      ensures var bno := old(bc.buf[b].blockno);
        Lh() == if !ok || bno in old(Lh()) then old(Lh()) else old(Lh()) + [bno]
      ensures bc.buf[..] == if Lh() == old(Lh()) then old(bc.buf[..])
                            else old(bc.buf[..])[b := old(bc.buf[b]).(refcnt := old(bc.buf[b]).refcnt + 1)]
    {
      if n >= LOGSIZE || n >= g.size - 1 || outstanding < 1 {
        return false;
      }
      var i := 0;
      while i < n && block[i] != bc.buf[b].blockno
        invariant 0 <= i <= n && bc.buf[b].blockno !in block[..i]
      {
        i := i + 1;
      }
      ghost var lh := Lh();
      block[i] := bc.buf[b].blockno;
      if i == n {
        bc.Bpin(b);
        n := n + 1;
        assert Lh() == lh + [old(bc.buf[b].blockno)];
      } else {
        assert Lh() == lh;
      }
      ok := true;
    }

    // ---- Commit and recovery ----

    /** Two breads, of distinct unlocked blocks; None is the panic of bget. */
    method ReadBoth(x: nat, y: nat, pid: nat) returns (r: Option<(nat, nat)>)
      requires Valid() && Consistent(bc.Abs(), disk.blocks) && pid != 0
      requires x < |disk.blocks| && y < |disk.blocks| && x != y
      requires Holder(bc.Abs(), x) == Holder(bc.Abs(), y) == 0
      modifies bc.buf
      ensures bc.Valid() && bc.order == old(bc.order)
      ensures old(Spare(bc.Abs())) && old(Refs(bc.Abs(), y)) > 0 ==> r.Some?
      ensures old(AllFree(bc.Abs())) ==> r.Some?
      ensures r.Some? ==> ReadPair(old(bc.Abs()), disk.blocks, x, y, pid, r.value.0, r.value.1, bc.Abs())
    {
      ghost var c := bc.Abs();
      var a := bc.Bread(x, pid);
      if a.None? {
        assert c.bufs[0].refcnt != 0;
        return None;
      }
      ghost var c1 := bc.Abs();
      if AllFree(c) { OneTaken(c, disk.blocks, x, pid, a.value, c1); }
      ReadsKeeps(c, disk.blocks, x, pid, a.value, c1);
      var b := bc.Bread(y, pid);
      if b.None? { return None; }
      PairRead(c, disk.blocks, x, y, pid, a.value, c1, b.value, bc.Abs());
      return Some((a.value, b.value));
    }

    /** Two brelses, of buffers that pid holds. */
    method ReleaseBoth(a: nat, b: nat, pid: nat)
      requires bc.Valid() && a < NBUF && b < NBUF && a != b && pid != 0
      requires bc.buf[a].pid == bc.buf[b].pid == pid && bc.buf[a].refcnt > 0 && bc.buf[b].refcnt > 0
      modifies bc.buf, bc.next, bc.prev, bc`order
      ensures bc.Valid()
      ensures bc.Abs().bufs == old(bc.Abs()).bufs
        [a := old(bc.buf[a]).(pid := 0, refcnt := old(bc.buf[a]).refcnt - 1)]
        [b := old(bc.buf[b]).(pid := 0, refcnt := old(bc.buf[b]).refcnt - 1)]
    {
      var ok := bc.Brelse(a, pid);
      ok := bc.Brelse(b, pid);
    }

    /** memmove into buffer b, bwrite, and the bunpin of install_trans. */
    method Overwrite(b: nat, v: Block, unpin: bool, pid: nat)
      requires bc.Valid() && bc.disk == disk && b < NBUF && pid != 0 && bc.buf[b].pid == pid
      requires bc.buf[b].blockno < |disk.blocks| && bc.buf[b].refcnt > 0
      modifies bc.buf, disk
      ensures bc.Valid() && bc.order == old(bc.order)
      ensures bc.Abs().bufs == old(bc.Abs()).bufs
        [b := old(bc.buf[b]).(data := v, refcnt := old(bc.buf[b]).refcnt - (if unpin then 1 else 0))]
      ensures disk.blocks == old(disk.blocks)[old(bc.buf[b]).blockno := v]
      ensures disk.writes == old(disk.writes) + [disk.blocks]
    {
      bc.SetData(b, pid, v);
      var ok := bc.Bwrite(b, pid);
      if unpin {
        bc.Bunpin(b);
      }
    }

    /** memmove from buffer src to dst, bwrite, bunpin for install_trans, and both brelses. */
    method CopyOver(dst: nat, src: nat, unpin: bool, pid: nat)
      requires bc.Valid() && bc.disk == disk && dst < NBUF && src < NBUF && dst != src && pid != 0
      requires bc.buf[dst].pid == bc.buf[src].pid == pid && bc.buf[src].refcnt > 0
      requires bc.buf[dst].blockno < |disk.blocks| && bc.buf[dst].refcnt > (if unpin then 1 else 0)
      modifies bc.buf, bc.next, bc.prev, bc`order, disk
      ensures bc.Valid()
      ensures bc.Abs().bufs == old(bc.Abs()).bufs
        [dst := old(bc.buf[dst]).(data := old(bc.buf[src]).data, pid := 0,
                                  refcnt := old(bc.buf[dst]).refcnt - (if unpin then 2 else 1))]
        [src := old(bc.buf[src]).(pid := 0, refcnt := old(bc.buf[src]).refcnt - 1)]
      ensures disk.blocks == old(disk.blocks)[old(bc.buf[dst]).blockno := old(bc.buf[src]).data]
      ensures disk.writes == old(disk.writes) + [disk.blocks]
    {
      Overwrite(dst, bc.buf[src].data, unpin, pid);
      ReleaseBoth(src, dst, pid);
    }

    /** One round of write_log's loop; !ok is the panic of bget. */
    method LogRound(tail: nat, pid: nat, ghost l: Look) returns (ok: bool)
      requires Valid() && At(bc.Abs(), disk.blocks, l) && Ready(g, l, Lh()) && PinnedAll(l, Lh())
      requires tail < n && pid != 0
      modifies bc.buf, bc.next, bc.prev, bc`order, disk
      ensures Valid() && (old(Spare(bc.Abs())) ==> ok)
      ensures ok ==> Moved(old(bc.Abs()), old(disk.blocks), bc.Abs(), disk.blocks,
                           g.start + tail + 1, l.views[Lh()[tail]], 0)
      ensures ok ==> disk.writes == old(disk.writes) + [disk.blocks]
      ensures !ok ==> disk.blocks == old(disk.blocks) && disk.writes == old(disk.writes)
    {
      hide Consistent, Moved;
      ghost var c, d, lb, hb := bc.Abs(), disk.blocks, g.start + tail + 1, block[tail];
      assert Lh()[tail] == hb && l.refs[lb] == 0 && l.refs[hb] > 0;
      var r := ReadBoth(g.start + tail + 1, block[tail], pid);
      if r.None? { return false; }
      var (to, from) := r.value;
      ghost var c2 := bc.Abs();
      CopyOver(to, from, false, pid);
      PairReleased(c, d, lb, hb, pid, to, from, c2, l.views[hb], 0, bc.Abs());
      ok := true;
    }

    /** Log block x goes home to block y; !ok is the panic of bget. */
    method InstallBlock(x: nat, y: nat, unpin: bool, pid: nat) returns (ok: bool)
      requires Valid() && Consistent(bc.Abs(), disk.blocks) && x < |disk.blocks| && y < |disk.blocks| && x != y
      requires Holder(bc.Abs(), x) == Holder(bc.Abs(), y) == 0 && Refs(bc.Abs(), x) == 0 && pid != 0
      requires unpin ==> Refs(bc.Abs(), y) > 0
      modifies bc.buf, bc.next, bc.prev, bc`order, disk
      ensures Valid()
      ensures old(Spare(bc.Abs())) && old(Refs(bc.Abs(), y)) > 0 ==> ok
      ensures old(AllFree(bc.Abs())) ==> ok
      ensures ok ==> Moved(old(bc.Abs()), old(disk.blocks), bc.Abs(), disk.blocks, y, old(disk.blocks)[x],
                           if unpin then 1 else 0)
      ensures ok ==> disk.writes == old(disk.writes) + [disk.blocks]
      ensures !ok ==> disk.blocks == old(disk.blocks) && disk.writes == old(disk.writes)
    {
      hide Consistent, Moved, AllFree, Spare;
      ghost var c, d := bc.Abs(), disk.blocks;
      UnreferencedClean(c, d, x);
      var r := ReadBoth(x, y, pid);
      if r.None? { return false; }
      var (lbuf, dbuf) := r.value;
      ghost var c2 := bc.Abs();
      CopyOver(dbuf, lbuf, unpin, pid);
      InstallReleased(c, d, x, y, pid, lbuf, dbuf, c2, if unpin then 1 else 0, bc.Abs());
      ok := true;
    }

    /** One round of install_trans's loop; !ok is the panic of bget. */
    method InstallRound(tail: nat, recovering: bool, pid: nat, ghost l: Look, ghost drop: nat) returns (ok: bool)
      requires Valid() && At(bc.Abs(), disk.blocks, l) && Ready(g, l, Lh())
      requires tail < n && pid != 0 && drop == if recovering then 0 else 1
      requires drop <= l.refs[Lh()[tail]]
      modifies bc.buf, bc.next, bc.prev, bc`order, disk
      ensures Valid() && (old(Spare(bc.Abs())) && !recovering ==> ok) && (Unreferenced(l) ==> ok)
      ensures ok ==> Moved(old(bc.Abs()), old(disk.blocks), bc.Abs(), disk.blocks, Lh()[tail],
                           old(disk.blocks)[g.start + tail + 1], drop)
      ensures ok ==> disk.writes == old(disk.writes) + [disk.blocks]
      ensures !ok ==> disk.blocks == old(disk.blocks) && disk.writes == old(disk.writes)
    {
      hide Consistent, Moved, AllFree, Unreferenced, Refs, Holder;
      assert Lh()[tail] == block[tail] && l.refs[g.start + tail + 1] == 0;
      FreeIff(bc.Abs(), disk.blocks);
      ok := InstallBlock(g.start + tail + 1, block[tail], !recovering, pid);
    }

    /** Cache and disk as they look now. */
    ghost function Sight(): Look
      reads this, bc, bc.buf, bc.next, bc.prev, disk
      requires bc.Valid()
    {
      LookOf(bc.Abs(), disk.blocks)
    }

    /** Where write_log stands after k rounds. */
    ghost predicate LogState(plan: seq<Image>, w: seq<Image>, l: Look, lh: seq<nat>, spare: bool, k: nat)
      reads this, bc, bc.buf, bc.next, bc.prev, disk, block
    {
      && Valid() && Lh() == lh && Ready(g, l, lh) && PinnedAll(l, lh) && k <= |lh|
      && Consistent(bc.Abs(), disk.blocks) && LooksLike(g, l, Sight()) && (spare ==> Spare(bc.Abs()))
      && OnPlan(plan, 0, k, w, disk.writes, disk.blocks)
    }

    /** Where install_trans stands after k rounds. */
    ghost predicate InstallState(plan: seq<Image>, from: nat, w: seq<Image>, l: Look, lh: seq<nat>, spare: bool,
                                 drop: nat, k: nat)
      reads this, bc, bc.buf, bc.next, bc.prev, disk, block
    {
      && Valid() && Lh() == lh && Ready(g, l, lh) && (drop > 0 ==> drop == 1 && PinnedAll(l, lh)) && k <= |lh|
      && Consistent(bc.Abs(), disk.blocks) && (spare ==> Spare(bc.Abs()))
      && OnPlan(plan, from, from + k, w, disk.writes, disk.blocks)
      && LooksInstalled(g, l, lh, plan[from], k, drop, Sight())
    }

    method LogNext(tail: nat, pid: nat, ghost plan: seq<Image>, ghost w: seq<Image>, ghost l: Look,
                   ghost lh: seq<nat>, ghost spare: bool)
      returns (ok: bool)
      requires LogState(plan, w, l, lh, spare, tail) && tail < n && pid != 0 && PlansLog(g, plan, Views(l, lh), 0)
      modifies bc.buf, bc.next, bc.prev, bc`order, disk
      ensures ok ==> LogState(plan, w, l, lh, spare, tail + 1)
      ensures !ok ==> Valid() && !spare && disk.blocks == old(disk.blocks) && disk.writes == old(disk.writes)
    {
      ghost var c, e, ws := bc.Abs(), disk.blocks, disk.writes;
      assert !g.InLog(lh[tail]);
      ok := LogRound(tail, pid, Sight());
      if ok {
        LogStep(g, plan, w, ws, l, lh, tail, c, e, bc.Abs(), disk.blocks);
      }
    }

    method InstallNext(tail: nat, recovering: bool, pid: nat, ghost plan: seq<Image>, ghost from: nat,
                       ghost w: seq<Image>, ghost l: Look, ghost lh: seq<nat>, ghost spare: bool, ghost drop: nat)
      returns (ok: bool)
      requires InstallState(plan, from, w, l, lh, spare, drop, tail) && tail < n && pid != 0
      requires drop == (if recovering then 0 else 1) && PlansInstall(g, plan, lh, from)
      modifies bc.buf, bc.next, bc.prev, bc`order, disk
      ensures ok ==> InstallState(plan, from, w, l, lh, spare, drop, tail + 1)
      ensures !ok ==> Valid() && (spare ==> recovering) && !(recovering && Unreferenced(l))
                      && disk.blocks == old(disk.blocks) && disk.writes == old(disk.writes)
    {
      ghost var c, e, ws := bc.Abs(), disk.blocks, disk.writes;
      InstalledReady(g, l, lh, plan[from], tail, drop, Sight());
      ok := InstallRound(tail, recovering, pid, Sight(), drop);
      if ok {
        InstallStep(g, plan, from, w, ws, l, lh, tail, drop, c, e, bc.Abs(), disk.blocks);
      }
    }

    /** write_log: after `done` rounds the disk stands at image `done` of the plan. */
    method WriteLog(pid: nat, ghost plan: seq<Image>, ghost l: Look) returns (ok: bool, ghost done: nat)
      requires Valid() && At(bc.Abs(), disk.blocks, l) && Ready(g, l, Lh()) && PinnedAll(l, Lh()) && pid != 0
      requires PlansLog(g, plan, Views(l, Lh()), 0) && plan[0] == disk.blocks
      modifies bc.buf, bc.next, bc.prev, bc`order, disk
      ensures Valid() && done <= n && (old(Spare(bc.Abs())) ==> ok)
      ensures OnPlan(plan, 0, done, old(disk.writes), disk.writes, disk.blocks)
      ensures ok ==> done == n && Consistent(bc.Abs(), disk.blocks) && LooksLike(g, l, Sight())
      ensures ok && old(Spare(bc.Abs())) ==> Spare(bc.Abs())
    {
      hide Consistent, Spare;
      ghost var w, lh, spare := disk.writes, Lh(), Spare(bc.Abs());
      var tail := 0;
      while tail < n
        invariant 0 <= tail <= n && LogState(plan, w, l, lh, spare, tail)
      {
        ok := LogNext(tail, pid, plan, w, l, lh, spare);
        if !ok { return false, tail; }
        tail := tail + 1;
      }
      return true, n;
    }

    /** install_trans: after `done` rounds the disk stands `done` images further on the plan. */
    method InstallTrans(recovering: bool, pid: nat, ghost plan: seq<Image>, ghost from: nat, ghost l: Look,
                        ghost drop: nat)
      returns (ok: bool, ghost done: nat)
      requires Valid() && At(bc.Abs(), disk.blocks, l) && Ready(g, l, Lh()) && pid != 0
      requires drop == (if recovering then 0 else 1) && (recovering || PinnedAll(l, Lh()))
      requires PlansInstall(g, plan, Lh(), from) && plan[from] == disk.blocks
      modifies bc.buf, bc.next, bc.prev, bc`order, disk
      ensures Valid() && done <= n && (old(Spare(bc.Abs())) && !recovering ==> ok)
      ensures recovering && Unreferenced(l) ==> ok
      ensures OnPlan(plan, from, from + done, old(disk.writes), disk.writes, disk.blocks)
      ensures ok ==> done == n && Consistent(bc.Abs(), disk.blocks) && Ready(g, Sight(), Lh())
      ensures ok ==> LooksInstalled(g, l, Lh(), old(disk.blocks), n, drop, Sight())
      ensures ok && old(Spare(bc.Abs())) ==> Spare(bc.Abs())
    {
      hide Consistent, Spare;
      ghost var w, lh, spare := disk.writes, Lh(), Spare(bc.Abs());
      var tail := 0;
      while tail < n
        invariant 0 <= tail <= n && InstallState(plan, from, w, l, lh, spare, drop, tail)
      {
        ok := InstallNext(tail, recovering, pid, plan, from, w, l, lh, spare, drop);
        if !ok { return false, tail; }
        tail := tail + 1;
      }
      InstalledReady(g, l, lh, plan[from], n, drop, Sight());
      return true, n;
    }

    /** hb->n and hb->block[] of write_head, in a copy of the header block. */
    method FillHead(h: Block) returns (words: Block)
      requires block.Length == LOGSIZE && n <= LOGSIZE && forall i :: 0 <= i < n ==> Lh()[i] < 0x8000_0000
      ensures words == Encode(h, Lh())
    {
      ghost var lh := Lh();
      var ws: seq<Word> := h;
      ws := ws[0 := n];
      for i := 0 to n
        invariant |ws| == BLOCKWORDS && ws[0] == n
        invariant forall k :: 1 <= k <= i ==> ws[k] == block[k - 1]
        invariant forall k :: i < k < BLOCKWORDS ==> ws[k] == h[k]
      {
        assert lh[i] == block[i];
        ws := ws[i + 1 := block[i]];
      }
      words := ws;
      assert words == Encode(h, lh);
    }

    /** write_head: the header block becomes the encoding of the in-memory list. */
    method WriteHead(pid: nat, ghost l: Look) returns (ok: bool)
      requires Valid() && At(bc.Abs(), disk.blocks, l) && Ready(g, l, Lh()) && pid != 0
      modifies bc.buf, bc.next, bc.prev, bc`order, disk
      ensures Valid() && (old(Spare(bc.Abs())) ==> ok)
      ensures ok ==> Moved(old(bc.Abs()), old(disk.blocks), bc.Abs(), disk.blocks, g.start,
                           Encode(old(disk.blocks)[g.start], Lh()), 0)
      ensures ok ==> disk.writes == old(disk.writes) + [disk.blocks]
      ensures !ok ==> disk.blocks == old(disk.blocks) && disk.writes == old(disk.writes)
    {
      hide Consistent, Moved;
      ghost var c, d, lh := bc.Abs(), disk.blocks, Lh();
      assert l.refs[g.start] == 0 && l.holders[g.start] == 0;
      UnreferencedClean(c, d, g.start);
      var r := bc.Bread(g.start, pid);
      if r.None? { return false; }
      var b := r.value;
      ghost var c1 := bc.Abs();
      ReadsKeeps(c, d, g.start, pid, b, c1);
      var words := FillHead(bc.buf[b].data);
      Overwrite(b, words, false, pid);
      ok := bc.Brelse(b, pid);
      SingleReleased(c, d, g.start, pid, b, c1, words, bc.Abs());
      ok := true;
    }

    /** read_head: the in-memory list becomes the one in the header block. */
    method ReadHead(pid: nat, ghost l: Look) returns (ok: bool)
      requires Valid() && At(bc.Abs(), disk.blocks, l) && pid != 0 && g.Fits(disk.blocks)
      requires l.refs[g.start] == 0 && l.holders[g.start] == 0 && disk.blocks[g.start][0] <= LOGSIZE
      modifies this`n, block, bc.buf, bc.next, bc.prev, bc`order
      ensures Valid() && (old(Spare(bc.Abs())) ==> ok)
      ensures ok ==> Lh() == Decode(disk.blocks[g.start]) && At(bc.Abs(), disk.blocks, l)
                     && (old(Spare(bc.Abs())) ==> Spare(bc.Abs()))
    {
      ghost var c, d := bc.Abs(), disk.blocks;
      UnreferencedClean(c, d, g.start);
      var r := bc.Bread(g.start, pid);
      if r.None? { return false; }
      var b := r.value;
      ghost var c1 := bc.Abs();
      ReadsKeeps(c, d, g.start, pid, b, c1);
      FetchHead(bc.buf[b].data);
      ok := bc.Brelse(b, pid);
      SingleReleased(c, d, g.start, pid, b, c1, d[g.start], bc.Abs());
      assert d[g.start := d[g.start]] == d;
      assert l.views[g.start := d[g.start]] == l.views && l.refs[g.start := l.refs[g.start] - 0] == l.refs;
      ok := true;
    }

    /** log.lh.n and log.lh.block[] of read_head. */
    method FetchHead(h: Block)
      requires Valid() && h[0] <= LOGSIZE
      modifies this`n, block
      ensures n <= LOGSIZE && Lh() == Decode(h)
    {
      n := h[0];
      for i := 0 to n
        invariant n == h[0] && forall k :: 0 <= k < i ==> block[k] == h[1 + k]
      {
        block[i] := h[1 + i];
      }
    }

    /** write_head as a step of the plan. */
    method WriteHeadOn(pid: nat, ghost plan: seq<Image>, ghost from: nat, ghost w: seq<Image>, ghost l: Look)
      returns (ok: bool)
      requires Valid() && At(bc.Abs(), disk.blocks, l) && Ready(g, l, Lh()) && pid != 0
      requires PlansHead(g, plan, Lh(), from) && OnPlan(plan, 0, from, w, disk.writes, disk.blocks)
      modifies bc.buf, bc.next, bc.prev, bc`order, disk
      ensures Valid() && (old(Spare(bc.Abs())) ==> ok)
      ensures OnPlan(plan, 0, if ok then from + 1 else from, w, disk.writes, disk.blocks)
      ensures ok ==> Consistent(bc.Abs(), disk.blocks) && (old(Spare(bc.Abs())) ==> Spare(bc.Abs()))
      ensures ok ==> Sight() == LookMoved(l, g.start, disk.blocks[g.start], 0)
    {
      ghost var ws, d := disk.writes, disk.blocks;
      ok := WriteHead(pid, l);
      if ok {
        PlanStep(plan, 0, from, w, ws, d, disk.blocks);
      }
    }

    /** commit up to the commit point: write_log and write_head. */
    method CommitGroup(pid: nat, ghost plan: seq<Image>, ghost l: Look) returns (ok: bool, ghost done: nat)
      requires Valid() && At(bc.Abs(), disk.blocks, l) && Ready(g, l, Lh()) && PinnedAll(l, Lh()) && pid != 0
      requires PlansLog(g, plan, Views(l, Lh()), 0) && PlansHead(g, plan, Lh(), n) && plan[0] == disk.blocks
      requires 1 <= g.size
      modifies bc.buf, bc.next, bc.prev, bc`order, disk
      ensures Valid() && done <= n + 1 && (old(Spare(bc.Abs())) ==> ok) && (ok ==> done == n + 1)
      ensures OnPlan(plan, 0, done, old(disk.writes), disk.writes, disk.blocks)
      ensures ok ==> Consistent(bc.Abs(), disk.blocks) && LooksLike(g, l, Sight())
      ensures ok && old(Spare(bc.Abs())) ==> Spare(bc.Abs())
    {
      hide Consistent, Spare;
      ghost var w, lh := disk.writes, Lh();
      ok, done := WriteLog(pid, plan, l);
      if ok {
        ghost var l1 := Sight();
        ok := WriteHeadOn(pid, plan, n, w, l1);
        if ok {
          done := n + 1;
          LogLooks(g, l, lh, l1, g.start, disk.blocks[g.start], Sight());
        }
      }
    }

    /** log.lh.n = 0 and write_head. */
    method EraseOn(pid: nat, ghost plan: seq<Image>, ghost from: nat, ghost w: seq<Image>, ghost l: Look)
      returns (ok: bool)
      requires Valid() && At(bc.Abs(), disk.blocks, l) && Ready(g, l, Lh()) && pid != 0
      requires PlansHead(g, plan, [], from) && OnPlan(plan, 0, from, w, disk.writes, disk.blocks)
      modifies this`n, bc.buf, bc.next, bc.prev, bc`order, disk
      ensures Valid() && (old(Spare(bc.Abs())) ==> ok) && Lh() == []
      ensures OnPlan(plan, 0, if ok then from + 1 else from, w, disk.writes, disk.blocks)
      ensures ok ==> Consistent(bc.Abs(), disk.blocks)
                     && Sight() == LookMoved(l, g.start, disk.blocks[g.start], 0)
    {
      n := 0;
      assert Lh() == [];
      ok := WriteHeadOn(pid, plan, from, w, l);
    }

    /** The rest of commit: install_trans, log.lh.n = 0 and write_head. */
    method InstallGroup(pid: nat, ghost plan: seq<Image>, ghost w: seq<Image>, ghost l0: Look)
      returns (ok: bool, ghost done: nat)
      requires Valid() && Consistent(bc.Abs(), disk.blocks) && LooksLike(g, l0, Sight()) && pid != 0
      requires Ready(g, l0, Lh()) && PinnedAll(l0, Lh()) && 1 <= g.size
      requires PlansInstall(g, plan, Lh(), n + 1) && PlansHead(g, plan, [], 2 * n + 1)
      requires OnPlan(plan, 0, n + 1, w, disk.writes, disk.blocks)
      requires forall i :: 0 <= i < n ==> disk.blocks[g.start + i + 1] == l0.views[Lh()[i]]
      modifies this`n, bc.buf, bc.next, bc.prev, bc`order, disk
      ensures Valid() && (old(Spare(bc.Abs())) ==> ok) && done <= 2 * old(n) + 2
      ensures OnPlan(plan, 0, done, w, disk.writes, disk.blocks)
      ensures ok ==> Lh() == [] && done == 2 * old(n) + 2 && Consistent(bc.Abs(), disk.blocks)
      ensures ok ==> LookCommitted(g, l0, old(Lh()), Sight())
    {
      hide Consistent, LookCommitted, LooksInstalled, PlansInstall, PlansHead, Spare;
      ghost var d, w1, lh, l := disk.blocks, disk.writes, Lh(), Sight();
      ghost var k;
      ok, k := InstallTrans(false, pid, plan, n + 1, l, 1);
      done := n + 1 + k;
      PlanJoin(plan, 0, n + 1, done, w, w1, disk.writes, d, disk.blocks);
      if ok {
        ghost var l1 := Sight();
        CommitLooks(g, l0, lh, d, l, l1);
        ok := EraseOn(pid, plan, done, w, l1);
        if ok {
          done := done + 1;
          ErasedLooks(g, l0, lh, l1, disk.blocks[g.start], Sight());
        }
      }
    }

    /** commit along its plan. */
    method CommitOn(pid: nat, ghost plan: seq<Image>, ghost l: Look) returns (ok: bool, ghost done: nat)
      requires Valid() && At(bc.Abs(), disk.blocks, l) && Ready(g, l, Lh()) && PinnedAll(l, Lh()) && pid != 0
      requires PlansCommit(g, plan, Lh(), Views(l, Lh())) && plan[0] == disk.blocks && 1 <= g.size
      modifies this`n, bc.buf, bc.next, bc.prev, bc`order, disk
      ensures Valid() && (old(Spare(bc.Abs())) ==> ok) && done <= 2 * old(n) + 2
      ensures OnPlan(plan, 0, done, old(disk.writes), disk.writes, disk.blocks)
      ensures ok ==> Lh() == [] && done == 2 * old(n) + 2 && Consistent(bc.Abs(), disk.blocks)
      ensures ok ==> LookCommitted(g, l, old(Lh()), Sight())
    {
      hide Consistent, LookCommitted, LooksLike, Spare;
      ghost var w := disk.writes;
      ok, done := CommitGroup(pid, plan, l);
      if ok {
        ok, done := InstallGroup(pid, plan, w, l);
      }
    }

    /** commit: when it ends or panics after `done` block writes, the disk went through exactly
        the images of that many writes of a commit, one by one. */
    method Commit(pid: nat, ghost l: Look) returns (ok: bool, ghost done: nat)
      requires Valid() && At(bc.Abs(), disk.blocks, l) && Ready(g, l, Lh()) && PinnedAll(l, Lh()) && pid != 0
      requires 1 <= g.size
      modifies this`n, bc.buf, bc.next, bc.prev, bc`order, disk
      ensures Valid() && (old(Spare(bc.Abs())) ==> ok) && done <= CommitWrites(old(n))
      ensures disk.blocks == CommitImage(g, old(disk.blocks), old(Lh()), Views(l, old(Lh())), done)
      ensures disk.writes == old(disk.writes)
                             + CommitPlan(g, old(disk.blocks), old(Lh()), Views(l, old(Lh())))[1..done + 1]
      ensures ok ==> done == CommitWrites(old(n)) && Lh() == [] && Consistent(bc.Abs(), disk.blocks)
      ensures ok ==> LookCommitted(g, l, old(Lh()), Sight())
    {
      hide CommitImage, Consistent, LookCommitted, PlansCommit, Logged, Installed, Spare;
      ghost var plan := CommitPlan(g, disk.blocks, Lh(), Views(l, Lh()));
      if n > 0 {
        CommitPlanned(g, disk.blocks, Lh(), Views(l, Lh()), plan);
        ok, done := CommitOn(pid, plan, l);
      } else {
        NothingToCommit(g, disk.blocks, Lh(), Views(l, Lh()), l);
        ok, done := true, 0;
      }
    }

    /** recover_from_log after read_head, along its plan. */
    method ReplayOn(pid: nat, ghost plan: seq<Image>, ghost l: Look) returns (ok: bool, ghost done: nat)
      requires Valid() && At(bc.Abs(), disk.blocks, l) && pid != 0 && Ready(g, l, Lh())
      requires PlansInstall(g, plan, Lh(), 0) && PlansHead(g, plan, [], n) && plan[0] == disk.blocks
      modifies this`n, bc.buf, bc.next, bc.prev, bc`order, disk
      ensures Valid() && done <= old(n) + 1 && (ok ==> done == old(n) + 1)
      ensures Unreferenced(l) ==> ok
      ensures OnPlan(plan, 0, done, old(disk.writes), disk.writes, disk.blocks)
      ensures ok ==> Lh() == [] && Consistent(bc.Abs(), disk.blocks)
    {
      ghost var w := disk.writes;
      FreeIff(bc.Abs(), disk.blocks);
      assert AllFree(bc.Abs()) ==> bc.Abs().bufs[0].refcnt == 0;
      ok, done := InstallTrans(true, pid, plan, 0, l, 0);
      if ok {
        ok := EraseOn(pid, plan, done, w, Sight());
        if ok { done := done + 1; }
      }
    }

    /** recover_from_log on a freshly booted cache: the disk goes through exactly the images of a
        recovery, one by one, also when bget panics after `done` block writes. It does not panic when
        no buffer is referenced, as after boot. */
    method RecoverFromLog(pid: nat, ghost l: Look) returns (ok: bool, ghost done: nat)
      requires Valid() && At(bc.Abs(), disk.blocks, l) && pid != 0 && Recoverable(g, disk.blocks)
      requires Ready(g, l, Decode(disk.blocks[g.start]))
      modifies this`n, block, bc.buf, bc.next, bc.prev, bc`order, disk
      ensures Valid() && done <= old(disk.blocks)[g.start][0] + 1
      ensures disk.blocks == RecoverImage(g, old(disk.blocks), done)
      ensures disk.writes == old(disk.writes) + RecoverPlan(g, old(disk.blocks))[1..done + 1]
      ensures ok ==> Lh() == [] && disk.blocks == Recovered(g, old(disk.blocks)) && Consistent(bc.Abs(), disk.blocks)
      ensures Unreferenced(l) ==> ok
    {
      ghost var plan := RecoverPlan(g, disk.blocks);
      RecoverPlanned(g, disk.blocks, plan);
      FreeIff(bc.Abs(), disk.blocks);
      assert AllFree(bc.Abs()) ==> bc.Abs().bufs[0].refcnt == 0;
      done := 0;
      ok := ReadHead(pid, l);
      if ok {
        ok, done := ReplayOn(pid, plan, l);
      }
    }
  }
}
