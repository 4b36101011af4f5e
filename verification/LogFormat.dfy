/** The on-disk redo log: header encoding, the image after each single block write of a
    commit and of a recovery, and crash atomicity over any number of interrupted recoveries. */
module LogFormat {
  import opened Blocks

  const MAXOPBLOCKS := 10
  const LOGSIZE := 3 * MAXOPBLOCKS

  /** log.start and log.size: block `start` is the header, the log data blocks follow it. */
  datatype Geometry = Geometry(start: nat, size: nat) {
    predicate InLog(b: nat) { start <= b < start + size }

    ghost predicate Fits(d: Image) { 1 <= size && start + size <= |d| <= 0x8000_0000 }
  }

  /** The header block holds a count and that many home block numbers. */
  predicate HeaderOk(g: Geometry, size: nat, h: Block)
  {
    && h[0] <= LOGSIZE && h[0] < g.size
    && forall i :: 1 <= i <= h[0] ==> h[i] < size && !g.InLog(h[i])
  }

  function Decode(h: Block): seq<nat>
    requires h[0] <= LOGSIZE
  {
    seq(h[0], i requires 0 <= i < h[0] => h[1 + i])
  }

  /** What write_head stores: the count and the block numbers, the other words untouched. */
  function Encode(h: Block, bs: seq<nat>): Block
    requires |bs| <= LOGSIZE && forall i :: 0 <= i < |bs| ==> bs[i] < 0x8000_0000
  {
    var words: seq<Word> := seq(BLOCKWORDS, i requires 0 <= i < BLOCKWORDS =>
      if i == 0 then |bs| else if i <= |bs| then bs[i - 1] else h[i]);
    words
  }

  /** The header block starts with the count and the block numbers, and reads back as the list. */
  lemma DecodeEncode(h: Block, bs: seq<nat>)
    requires |bs| <= LOGSIZE && forall i :: 0 <= i < |bs| ==> bs[i] < 0x8000_0000
    ensures Decode(Encode(h, bs)) == bs
    ensures Encode(h, bs)[0] == |bs| && forall i :: 0 <= i < |bs| ==> Encode(h, bs)[1 + i] == bs[i]
    ensures forall i :: |bs| < i < BLOCKWORDS ==> Encode(h, bs)[i] == h[i]
  {
  }

  /** A list of home blocks that one transaction may log. */
  ghost predicate Loggable(g: Geometry, size: nat, bs: seq<nat>)
  {
    && |bs| <= LOGSIZE && |bs| < g.size && Distinct(bs)
    && forall i :: 0 <= i < |bs| ==> bs[i] < size && !g.InLog(bs[i])
  }

  /** The image after the first k log data blocks were written. */
  function Logged(g: Geometry, d: Image, vals: seq<Block>, k: nat): (r: Image)
    requires k <= |vals| < g.size && g.start + g.size <= |d|
    ensures |r| == |d|
    ensures forall b :: 0 <= b < |d| ==>
      r[b] == if g.start < b <= g.start + k then vals[b - g.start - 1] else d[b]
  {
    if k == 0 then d else Logged(g, d, vals, k - 1)[g.start + k := vals[k - 1]]
  }

  /** The image after the first k log data blocks were copied to their home locations. */
  function Installed(g: Geometry, d: Image, bs: seq<nat>, k: nat): (r: Image)
    requires k <= |bs| < g.size && g.start + g.size <= |d|
    requires forall i :: 0 <= i < |bs| ==> bs[i] < |d| && !g.InLog(bs[i])
    ensures |r| == |d|
    ensures forall b :: 0 <= b < |d| && g.InLog(b) ==> r[b] == d[b]
  {
    if k == 0 then d
    else Installed(g, d, bs, k - 1)[bs[k - 1] := d[g.start + k]]
  }

  /** Blocks that are not installed stay as they are. */
  lemma {:induction false} InstalledElsewhere(g: Geometry, d: Image, bs: seq<nat>, k: nat)
    requires k <= |bs| < g.size && g.start + g.size <= |d|
    requires forall i :: 0 <= i < |bs| ==> bs[i] < |d| && !g.InLog(bs[i])
    ensures forall b :: 0 <= b < |d| && b !in bs[..k] ==> Installed(g, d, bs, k)[b] == d[b]
  {
    if k > 0 {
      InstalledElsewhere(g, d, bs, k - 1);
      assert bs[..k] == bs[..k - 1] + [bs[k - 1]];
    }
  }

  /** Distinct home blocks each receive their own log block. */
  lemma {:induction false} InstalledAt(g: Geometry, d: Image, bs: seq<nat>, k: nat, i: nat)
    requires i < k <= |bs| < g.size && g.start + g.size <= |d| && Distinct(bs)
    requires forall j :: 0 <= j < |bs| ==> bs[j] < |d| && !g.InLog(bs[j])
    ensures Installed(g, d, bs, k)[bs[i]] == d[g.start + i + 1]
  {
    if i < k - 1 {
      InstalledAt(g, d, bs, k - 1, i);
    }
  }

  /** Copying an image's log blocks home again, after a first interrupted copy, changes
      nothing about the final result. */
  lemma {:induction false} InstallAgain(g: Geometry, d: Image, bs: seq<nat>, k: nat, m: nat)
    requires k <= |bs| && m <= |bs| < g.size && g.start + g.size <= |d| && Distinct(bs)
    requires forall j :: 0 <= j < |bs| ==> bs[j] < |d| && !g.InLog(bs[j])
    ensures forall b :: 0 <= b < |d| && b !in bs[..k] ==>
      Installed(g, Installed(g, d, bs, k), bs, m)[b] == Installed(g, d, bs, m)[b]
    ensures k <= m ==> Installed(g, Installed(g, d, bs, k), bs, m) == Installed(g, d, bs, m)
  {
    var e := Installed(g, d, bs, k);
    InstalledElsewhere(g, d, bs, k);
    InstalledElsewhere(g, d, bs, m);
    InstalledElsewhere(g, e, bs, m);
    forall b | 0 <= b < |d| && (b in bs[..k] ==> k <= m)
      ensures Installed(g, e, bs, m)[b] == Installed(g, d, bs, m)[b]
    {
      if b in bs[..m] {
        var i :| 0 <= i < m && bs[i] == b;
        InstalledAt(g, e, bs, m, i);
        InstalledAt(g, d, bs, m, i);
      }
    }
  }

  // ---- A commit, one block write at a time ----

  /** The number of block writes of a commit of n blocks: log blocks, header, installs, header. */
  function CommitWrites(n: nat): nat { if n == 0 then 0 else 2 * n + 2 }

  /** The image right after the header write: the commit point. */
  function Committed(g: Geometry, d: Image, bs: seq<nat>, vals: seq<Block>): (r: Image)
    requires g.Fits(d) && Loggable(g, |d|, bs) && |vals| == |bs|
    ensures |r| == |d| && HeaderOk(g, |r|, r[g.start]) && Decode(r[g.start]) == bs
    ensures forall i :: 0 <= i < |bs| ==> r[g.start + i + 1] == vals[i]
    ensures forall b :: 0 <= b < |d| && !g.InLog(b) ==> r[b] == d[b]
  {
    DecodeEncode(d[g.start], bs);
    Logged(g, d, vals, |bs|)[g.start := Encode(d[g.start], bs)]
  }

  /** The image on disk after s block writes of a commit of blocks bs with contents vals. */
  function CommitImage(g: Geometry, d: Image, bs: seq<nat>, vals: seq<Block>, s: nat): (r: Image)
    requires g.Fits(d) && Loggable(g, |d|, bs) && |vals| == |bs| && s <= CommitWrites(|bs|)
    ensures |r| == |d|
  {
    var n := |bs|;
    var committed := Committed(g, d, bs, vals);
    if s <= n then Logged(g, d, vals, s)
    else if s <= 2 * n + 1 then Installed(g, committed, bs, s - n - 1)
    else Installed(g, committed, bs, n)[g.start := Encode(committed[g.start], [])]
  }

  /** The image on disk after s block writes of recover_from_log. */
  function RecoverImage(g: Geometry, d: Image, s: nat): (r: Image)
    requires g.Fits(d) && HeaderOk(g, |d|, d[g.start]) && s <= d[g.start][0] + 1
    ensures |r| == |d|
  {
    var bs := Decode(d[g.start]);
    if s <= |bs| then Installed(g, d, bs, s)
    else Installed(g, d, bs, |bs|)[g.start := Encode(d[g.start], [])]
  }

  /** A recovery that runs to its end. */
  function Recovered(g: Geometry, d: Image): (r: Image)
    requires g.Fits(d) && HeaderOk(g, |d|, d[g.start])
    ensures |r| == |d|
  {
    RecoverImage(g, d, d[g.start][0] + 1)
  }

  /** An image that recovery may meet: its header is well formed and lists distinct blocks. */
  ghost predicate Recoverable(g: Geometry, d: Image)
  {
    g.Fits(d) && HeaderOk(g, |d|, d[g.start]) && Distinct(Decode(d[g.start]))
  }

  /** Two images agree on every block outside the log area. */
  ghost predicate SameHome(g: Geometry, d: Image, e: Image)
  {
    |d| == |e| && forall b :: 0 <= b < |d| && !g.InLog(b) ==> d[b] == e[b]
  }

  /** Home blocks bs overwritten with vals. */
  ghost predicate HomeUpdated(g: Geometry, d: Image, bs: seq<nat>, vals: seq<Block>, e: Image)
    requires |bs| == |vals|
  {
    && |d| == |e|
    && (forall i :: 0 <= i < |bs| && bs[i] < |e| ==> e[bs[i]] == vals[i])
    && forall b :: 0 <= b < |d| && !g.InLog(b) && b !in bs ==> e[b] == d[b]
  }

  /** Any number of recoveries, each cut by a crash after some number of block writes. */
  ghost predicate CrashedRecoveries(g: Geometry, d: Image, cuts: seq<nat>, e: Image)
    decreases |cuts|
  {
    if cuts == [] then e == d
    else
      && g.Fits(d) && HeaderOk(g, |d|, d[g.start]) && cuts[0] <= d[g.start][0] + 1
      && CrashedRecoveries(g, RecoverImage(g, d, cuts[0]), cuts[1..], e)
  }

  /** Recovery is idempotent under a crash after any of its block writes. */
  lemma RecoverStep(g: Geometry, d: Image, s: nat)
    requires Recoverable(g, d) && s <= d[g.start][0] + 1
    ensures Recoverable(g, RecoverImage(g, d, s))
    ensures SameHome(g, Recovered(g, RecoverImage(g, d, s)), Recovered(g, d))
  {
    var bs := Decode(d[g.start]);
    if s <= |bs| {
      InstallAgain(g, d, bs, s, |bs|);
    } else {
      DecodeEncode(d[g.start], []);
    }
  }

  lemma {:induction false} CrashedRecoveriesAgree(g: Geometry, d: Image, cuts: seq<nat>, e: Image)
    requires Recoverable(g, d) && CrashedRecoveries(g, d, cuts, e)
    ensures Recoverable(g, e)
    ensures SameHome(g, Recovered(g, e), Recovered(g, d))
    decreases |cuts|
  {
    if cuts != [] {
      RecoverStep(g, d, cuts[0]);
      CrashedRecoveriesAgree(g, RecoverImage(g, d, cuts[0]), cuts[1..], e);
    }
  }

  /** A clean image has an empty log. */
  ghost predicate CleanLog(g: Geometry, d: Image)
  {
    g.Fits(d) && d[g.start][0] == 0
  }

  /** Recovery of an image whose header lists bs installs exactly its log blocks. */
  lemma RecoversToLogged(g: Geometry, c: Image)
    requires Recoverable(g, c)
    ensures var bs := Decode(c[g.start]);
      HomeUpdated(g, c, bs, c[g.start + 1..g.start + 1 + |bs|], Recovered(g, c))
  {
    var bs := Decode(c[g.start]);
    InstalledElsewhere(g, c, bs, |bs|);
    forall i | 0 <= i < |bs| ensures Installed(g, c, bs, |bs|)[bs[i]] == c[g.start + i + 1] {
      InstalledAt(g, c, bs, |bs|, i);
    }
  }

  lemma CommittedRecovers(g: Geometry, d: Image, bs: seq<nat>, vals: seq<Block>)
    requires g.Fits(d) && Loggable(g, |d|, bs) && |vals| == |bs|
    ensures var c := Committed(g, d, bs, vals);
      Recoverable(g, c) && HomeUpdated(g, d, bs, vals, Recovered(g, c))
  {
    var c := Committed(g, d, bs, vals);
    RecoversToLogged(g, c);
    assert c[g.start + 1..g.start + 1 + |bs|] == vals;
  }

  /** Recovery from an image whose log is empty leaves every home block alone. */
  lemma CleanRecovers(g: Geometry, d: Image)
    requires CleanLog(g, d)
    ensures Recoverable(g, d) && SameHome(g, d, Recovered(g, d)) && CleanLog(g, Recovered(g, d))
  {
  }

  /** After the commit point, the rest of a commit is what recovery would do. */
  lemma InstallingIsRecovering(g: Geometry, d: Image, bs: seq<nat>, vals: seq<Block>, k: nat)
    requires g.Fits(d) && Loggable(g, |d|, bs) && |vals| == |bs| > 0 && k <= |bs| + 1
    ensures CommitImage(g, d, bs, vals, |bs| + 1 + k) == RecoverImage(g, Committed(g, d, bs, vals), k)
  {
  }

  lemma BeforeCommitPoint(g: Geometry, d: Image, bs: seq<nat>, vals: seq<Block>, s: nat)
    requires CleanLog(g, d) && Loggable(g, |d|, bs) && |vals| == |bs| && s <= |bs|
    ensures var c := CommitImage(g, d, bs, vals, s); Recoverable(g, c) && SameHome(g, d, Recovered(g, c))
  {
    var c := CommitImage(g, d, bs, vals, s);
    assert CleanLog(g, c) && SameHome(g, d, c);
    CleanRecovers(g, c);
  }

  lemma UpdatedUpToHome(g: Geometry, d: Image, bs: seq<nat>, vals: seq<Block>, e: Image, e': Image)
    requires g.Fits(d) && Loggable(g, |d|, bs) && |vals| == |bs|
    requires HomeUpdated(g, d, bs, vals, e) && SameHome(g, e', e)
    ensures HomeUpdated(g, d, bs, vals, e')
  {
  }

  lemma AfterCommitPoint(g: Geometry, d: Image, bs: seq<nat>, vals: seq<Block>, k: nat)
    requires g.Fits(d) && Loggable(g, |d|, bs) && |vals| == |bs| > 0 && k <= |bs| + 1
    ensures var c := CommitImage(g, d, bs, vals, |bs| + 1 + k);
      Recoverable(g, c) && HomeUpdated(g, d, bs, vals, Recovered(g, c))
  {
    var d1 := Committed(g, d, bs, vals);
    CommittedRecovers(g, d, bs, vals);
    InstallingIsRecovering(g, d, bs, vals, k);
    RecoverStep(g, d1, k);
    UpdatedUpToHome(g, d, bs, vals, Recovered(g, d1), Recovered(g, RecoverImage(g, d1, k)));
  }

  /** The image between two block writes of a commit recovers to the old home blocks up to
      the header write, and to the new ones from the header write on. */
  lemma CommitImageRecovers(g: Geometry, d: Image, bs: seq<nat>, vals: seq<Block>, s: nat)
    requires CleanLog(g, d) && Loggable(g, |d|, bs) && |vals| == |bs| && s <= CommitWrites(|bs|)
    ensures var c := CommitImage(g, d, bs, vals, s);
      && Recoverable(g, c)
      && (s <= |bs| ==> SameHome(g, d, Recovered(g, c)))
      && (s > |bs| ==> HomeUpdated(g, d, bs, vals, Recovered(g, c)))
  {
    if s <= |bs| {
      BeforeCommitPoint(g, d, bs, vals, s);
    } else {
      AfterCommitPoint(g, d, bs, vals, s - |bs| - 1);
    }
  }

  /** Crash atomicity: whatever block write of the commit the machine stops after, and however
      often recovery itself is interrupted, the final recovery leaves the home blocks all old
      or all new, decided by whether the header write happened. */
  lemma CrashAtomicity(g: Geometry, d: Image, bs: seq<nat>, vals: seq<Block>, s: nat,
                       cuts: seq<nat>, e: Image)
    requires CleanLog(g, d) && Loggable(g, |d|, bs) && |vals| == |bs| && s <= CommitWrites(|bs|)
    requires CrashedRecoveries(g, CommitImage(g, d, bs, vals, s), cuts, e)
    ensures Recoverable(g, e) && CleanLog(g, Recovered(g, e))
    ensures s <= |bs| ==> SameHome(g, d, Recovered(g, e))
    ensures s > |bs| ==> HomeUpdated(g, d, bs, vals, Recovered(g, e))
  {
    var c := CommitImage(g, d, bs, vals, s);
    CommitImageRecovers(g, d, bs, vals, s);
    CrashedRecoveriesAgree(g, c, cuts, e);
    if s > |bs| {
      UpdatedUpToHome(g, d, bs, vals, Recovered(g, c), Recovered(g, e));
    }
  }
}
