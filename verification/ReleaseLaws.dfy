/** Crash atomicity of a release: whatever dies wherever, once no release is pending the tree is
    exactly the old one or exactly the proposed one. */
module ReleaseLaws {
  import opened Prelude
  import opened Releases
  import PC = ProtectedClosure

  /** Every file holds its old or its new content. */
  ghost predicate Mixed(tree: Tree, oldTree: Tree, newTree: Tree) {
    forall p :: Lookup(tree, p) == Lookup(oldTree, p) || Lookup(tree, p) == Lookup(newTree, p)
  }

  ghost predicate AllBackups(d: Disk, id: nat, changes: seq<Change>) {
    forall i :: 0 <= i < |changes| ==> BackupGood(d, id, changes[i])
  }

  ghost predicate AllAllowed(changes: seq<Change>, allowed: Path -> bool) {
    forall i :: 0 <= i < |changes| ==> allowed(changes[i].path)
  }

  /** What holds at every moment of release `id` from `oldTree` to `newTree`. */
  ghost predicate Safe(d: Disk, id: nat, oldTree: Tree, newTree: Tree, allowed: Path -> bool) {
    match d.pending
    case Some(r) =>
      && r.id == id && (r.stage == Installing || r.stage == PendingHealth)
      && Describes(r.changes, oldTree, newTree) && AllAllowed(r.changes, allowed)
      && AllBackups(d, id, r.changes) && Mixed(d.tree, oldTree, newTree)
    case None =>
      && (d.tree == oldTree || d.tree == newTree)
      && (id in d.journal ==>
            && (d.journal[id] == Verified ==> d.tree == newTree)
            && (d.journal[id] != Verified ==> d.tree == oldTree))
      && (id !in d.journal ==> d.tree == oldTree)
  }

  // ---------------------------------------------------------------- lists of file writes

  /** Writes of files only, each to its old or its new content. */
  ghost predicate FileWrites(ws: seq<Write>, oldTree: Tree, newTree: Tree) {
    forall i :: 0 <= i < |ws| ==>
      ws[i].PutFile? && (ws[i].content == Lookup(oldTree, ws[i].path) || ws[i].content == Lookup(newTree, ws[i].path))
  }

  lemma {:induction false} FileWritesKeepMixed(d: Disk, ws: seq<Write>, oldTree: Tree, newTree: Tree)
    requires FileWrites(ws, oldTree, newTree) && Mixed(d.tree, oldTree, newTree)
    ensures var e := ExecAll(d, ws); Mixed(e.tree, oldTree, newTree) && e == d.(tree := e.tree)
  {
    if ws != [] {
      FileWritesKeepMixed(d, ws[..|ws| - 1], oldTree, newTree);
    }
  }

  lemma SameLookups(a: Tree, b: Tree)
    requires forall p :: Lookup(a, p) == Lookup(b, p)
    ensures a == b
  {
    assert forall p :: p in a <==> Lookup(a, p).Some?;
    assert forall p :: p in b <==> Lookup(b, p).Some?;
    assert forall p :: p in a ==> a[p] == Lookup(a, p).value && b[p] == Lookup(b, p).value;
  }

  lemma {:induction false} InstallFilesSet(d: Disk, changes: seq<Change>)
    requires DistinctPaths(changes)
    ensures var e := ExecAll(d, InstallFiles(changes));
            && (forall i :: 0 <= i < |changes| ==> Lookup(e.tree, changes[i].path) == changes[i].after)
            && (forall p :: p !in Paths(changes) ==> Lookup(e.tree, p) == Lookup(d.tree, p))
  {
    if changes != [] {
      var front := changes[..|changes| - 1];
      InstallFilesSet(d, front);
      assert InstallFiles(changes)[..|front|] == InstallFiles(front);
      assert forall p :: p in Paths(front) ==> p in Paths(changes) by { PathsFront(changes); }
      assert changes[|changes| - 1].path in Paths(changes);
    }
  }

  lemma PathsFront(changes: seq<Change>)
    requires changes != []
    ensures Paths(changes) == Paths(changes[..|changes| - 1]) + {changes[|changes| - 1].path}
  {
    var front := changes[..|changes| - 1];
    assert forall i :: 0 <= i < |front| ==> front[i] == changes[i];
  }

  lemma InstallFilesAre(changes: seq<Change>, oldTree: Tree, newTree: Tree)
    requires Describes(changes, oldTree, newTree)
    ensures FileWrites(InstallFiles(changes), oldTree, newTree)
  {
    InstallFileAt(changes);
  }

  lemma {:induction false} InstallFileAt(changes: seq<Change>)
    ensures forall i :: 0 <= i < |changes| ==> InstallFiles(changes)[i] == PutFile(changes[i].path, changes[i].after)
  {
    if changes != [] {
      InstallFileAt(changes[..|changes| - 1]);
    }
  }

  lemma {:induction false} RestoreFilesAre(d: Disk, r: Release, k: nat, oldTree: Tree, newTree: Tree)
    requires k <= |r.changes| && Describes(r.changes, oldTree, newTree)
    ensures FileWrites(RestoreFiles(d, r, k), oldTree, newTree)
    decreases k
  {
    if k > 0 && BackupGood(d, r.id, r.changes[k - 1]) {
      RestoreFilesAre(d, r, k - 1, oldTree, newTree);
    }
  }

  lemma {:induction false} RestoreFilesSet(d: Disk, e: Disk, r: Release, k: nat)
    requires k <= |r.changes| && DistinctPaths(r.changes) && AllBackups(d, r.id, r.changes)
    ensures var ws := RestoreFiles(d, r, k);
            && |ws| == k
            && (forall i :: 0 <= i < k ==> Lookup(ExecAll(e, ws).tree, r.changes[i].path) == r.changes[i].before)
            && (forall p :: p !in Paths(r.changes[..k]) ==> Lookup(ExecAll(e, ws).tree, p) == Lookup(e.tree, p))
    decreases k
  {
    if k > 0 {
      var w := PutFile(r.changes[k - 1].path, r.changes[k - 1].before);
      var rest := RestoreFiles(d, r, k - 1);
      RestoreFilesSet(d, Exec(e, w), r, k - 1);
      ExecSplit(e, [w], rest);
      assert ExecAll(e, [w]) == Exec(e, w) by { assert [w][..0] == []; }
      PathsFront(r.changes[..k]);
      assert r.changes[..k][..k - 1] == r.changes[..k - 1];
      assert r.changes[k - 1].path !in Paths(r.changes[..k - 1]);
      hide RestoreFiles, ExecAll, Exec;
    }
  }

  // ---------------------------------------------------------------- a release from start to finish

  lemma {:induction false} BackupWritesKeep(d: Disk, id: nat, changes: seq<Change>, n: nat)
    requires n <= |BackupWrites(id, changes)|
    ensures var e := ExecAll(d, BackupWrites(id, changes)[..n]); e == d.(backups := e.backups)
  {
    var ws := BackupWrites(id, changes);
    if n > 0 {
      BackupWritesKeep(d, id, changes, n - 1);
      BackupWritesAre(id, changes);
      assert ws[..n][..n - 1] == ws[..n - 1];
    } else {
      assert ws[..0] == [];
    }
  }

  lemma {:induction false} BackupWritesAre(id: nat, changes: seq<Change>)
    ensures forall i :: 0 <= i < |BackupWrites(id, changes)| ==> BackupWrites(id, changes)[i].PutBackup?
  {
    if changes != [] {
      BackupWritesAre(id, changes[..|changes| - 1]);
    }
  }

  lemma {:induction false} BackupsComplete(d: Disk, id: nat, changes: seq<Change>)
    requires DistinctPaths(changes)
    ensures AllBackups(ExecAll(d, BackupWrites(id, changes)), id, changes)
  {
    if changes != [] {
      var front, c := changes[..|changes| - 1], changes[|changes| - 1];
      BackupsComplete(d, id, front);
      var ws := BackupWrites(id, changes);
      if c.before.Some? {
        assert ws[..|ws| - 1] == BackupWrites(id, front);
      } else {
        assert ws == BackupWrites(id, front);
      }
      forall i | 0 <= i < |changes| ensures BackupGood(ExecAll(d, ws), id, changes[i]) {
        if i < |front| {
          assert changes[i] == front[i] && changes[i].path != c.path;
          assert BackupGood(ExecAll(d, BackupWrites(id, front)), id, front[i]);
        }
      }
    }
  }

  /** The premises of an installation: nothing pending, a fresh id, rows that lead from tree to tree. */
  ghost predicate Ready(d: Disk, id: nat, changes: seq<Change>, newTree: Tree, allowed: Path -> bool) {
    d.pending.None? && id !in d.journal && Describes(changes, d.tree, newTree) && AllAllowed(changes, allowed)
  }

  /** A change set that `check` passes leads from the live tree to exactly the proposed one, touches
      only allowed paths, and changes something. */
  lemma CheckedIsReady(d: Disk, id: nat, names: seq<Path>, baseline: Tree, proposed: Tree, allowed: Path -> bool, frozenTest: Change -> bool)
    requires forall i, j :: 0 <= i < j < |names| ==> names[i] != names[j]
    requires forall p :: p in d.tree || p in proposed ==> p in names
    requires d.pending.None? && id !in d.journal
    requires Check(names, baseline, d.tree, proposed, allowed, frozenTest).Ok?
    ensures Ready(d, id, Check(names, baseline, d.tree, proposed, allowed, frozenTest).value, proposed, allowed)
    ensures d.tree != proposed
  {
    var changes := Check(names, baseline, d.tree, proposed, allowed, frozenTest).value;
    DiffDescribes(names, d.tree, proposed);
    DiffRows(names, d.tree, proposed);
    DiffChanges(names, d.tree, proposed);
    assert changes[0].before == Lookup(d.tree, changes[0].path) && changes[0].after == Lookup(proposed, changes[0].path);
  }

  lemma {:induction false} DiffChanges(names: seq<Path>, live: Tree, proposed: Tree)
    ensures forall i :: 0 <= i < |Diff(names, live, proposed)| ==> Diff(names, live, proposed)[i].before != Diff(names, live, proposed)[i].after
  {
    if names != [] {
      DiffChanges(names[..|names| - 1], live, proposed);
    }
  }

  /** Dying anywhere in an installation leaves a safe disk. */
  lemma InstallPrefixSafe(d: Disk, id: nat, changes: seq<Change>, newTree: Tree, allowed: Path -> bool, n: nat)
    requires Ready(d, id, changes, newTree, allowed) && n <= |InstallPlan(id, changes)|
    ensures Safe(ExecAll(d, InstallPlan(id, changes)[..n]), id, d.tree, newTree, allowed)
  {
    var b, f := BackupWrites(id, changes), InstallFiles(changes);
    var intent := [PutJournal(id, Installing), PutPending(Some(Release(id, Installing, changes)))];
    var finish := [PutJournal(id, PendingHealth), PutPending(Some(Release(id, PendingHealth, changes)))];
    var plan := InstallPlan(id, changes);
    assert plan == b + (intent + (f + finish));
    if n <= |b| {
      assert plan[..n] == b[..n];
      BackupWritesKeep(d, id, changes, n);
    } else {
      BackupWritesKeep(d, id, changes, |b|);
      assert b[..|b|] == b;
      BackupsComplete(d, id, changes);
      var d1 := ExecAll(d, b);
      var m := n - |b|;
      assert plan[..n] == b + (intent + (f + finish))[..m];
      ExecSplit(d, b, (intent + (f + finish))[..m]);
      AfterBackupsSafe(d1, id, changes, newTree, allowed, m);
    }
  }

  lemma AfterBackupsSafe(d: Disk, id: nat, changes: seq<Change>, newTree: Tree, allowed: Path -> bool, m: nat)
    requires Ready(d, id, changes, newTree, allowed) && AllBackups(d, id, changes)
    requires m <= |changes| + 4
    ensures var rest := [PutJournal(id, Installing), PutPending(Some(Release(id, Installing, changes)))]
                        + (InstallFiles(changes) + [PutJournal(id, PendingHealth), PutPending(Some(Release(id, PendingHealth, changes)))]);
            Safe(ExecAll(d, rest[..m]), id, d.tree, newTree, allowed)
  {
    var i1, i2 := PutJournal(id, Installing), PutPending(Some(Release(id, Installing, changes)));
    var f := InstallFiles(changes);
    var finish := [PutJournal(id, PendingHealth), PutPending(Some(Release(id, PendingHealth, changes)))];
    var rest := [i1, i2] + (f + finish);
    ExecPair(d, i1, i2);
    if m == 0 {
      assert rest[..m] == [];
    } else if m == 1 {
      assert rest[..m] == [i1];
    } else {
      var d2 := Exec(Exec(d, i1), i2);
      assert rest[..m] == [i1, i2] + (f + finish)[..m - 2];
      ExecSplit(d, [i1, i2], (f + finish)[..m - 2]);
      FilesThenFinishSafe(d2, id, changes, d.tree, newTree, allowed, m - 2);
    }
  }

  lemma ExecPair(d: Disk, a: Write, b: Write)
    ensures ExecAll(d, []) == d && ExecAll(d, [a]) == Exec(d, a) && ExecAll(d, [a, b]) == Exec(Exec(d, a), b)
  {
    assert [a][..0] == [] && [a, b][..1] == [a];
  }

  lemma FilesThenFinishSafe(d: Disk, id: nat, changes: seq<Change>, oldTree: Tree, newTree: Tree, allowed: Path -> bool, m: nat)
    requires Safe(d, id, oldTree, newTree, allowed) && d.pending == Some(Release(id, Installing, changes))
    requires m <= |changes| + 2
    ensures var rest := InstallFiles(changes) + [PutJournal(id, PendingHealth), PutPending(Some(Release(id, PendingHealth, changes)))];
            Safe(ExecAll(d, rest[..m]), id, oldTree, newTree, allowed)
  {
    var f := InstallFiles(changes);
    var j1, j2 := PutJournal(id, PendingHealth), PutPending(Some(Release(id, PendingHealth, changes)));
    InstallFilesAre(changes, oldTree, newTree);
    hide Safe, InstallFiles, Exec, Describes;
    if m <= |f| {
      assert (f + [j1, j2])[..m] == f[..m];
      FilesSafe(d, f[..m], id, oldTree, newTree, allowed);
    } else {
      hide FileWrites;
      FilesSafe(d, f, id, oldTree, newTree, allowed);
      CutBeyond(f, [j1, j2], m);
      ExecSplit(d, f, [j1, j2][..m - |f|]);
      hide ExecAll;
      HealthWaitSafe(ExecAll(d, f), id, changes, oldTree, newTree, allowed, m - |f|);
    }
  }

  lemma CutBeyond(a: seq<Write>, b: seq<Write>, m: nat)
    requires |a| <= m <= |a + b|
    ensures (a + b)[..m] == a + b[..m - |a|]
  {
  }

  lemma FilesSafe(d: Disk, ws: seq<Write>, id: nat, oldTree: Tree, newTree: Tree, allowed: Path -> bool)
    requires Safe(d, id, oldTree, newTree, allowed) && d.pending.Some? && FileWrites(ws, oldTree, newTree)
    ensures var e := ExecAll(d, ws); Safe(e, id, oldTree, newTree, allowed) && e.pending == d.pending && e == d.(tree := e.tree)
  {
    FileWritesKeepMixed(d, ws, oldTree, newTree);
  }

  lemma HealthWaitSafe(d: Disk, id: nat, changes: seq<Change>, oldTree: Tree, newTree: Tree, allowed: Path -> bool, m: nat)
    requires Safe(d, id, oldTree, newTree, allowed) && d.pending == Some(Release(id, Installing, changes)) && m <= 2
    ensures Safe(ExecAll(d, [PutJournal(id, PendingHealth), PutPending(Some(Release(id, PendingHealth, changes)))][..m]), id, oldTree, newTree, allowed)
  {
    var j1, j2 := PutJournal(id, PendingHealth), PutPending(Some(Release(id, PendingHealth, changes)));
    ExecPair(d, j1, j2);
    assert m == 0 ==> [j1, j2][..m] == [];
    assert m == 1 ==> [j1, j2][..m] == [j1];
    assert m == 2 ==> [j1, j2][..m] == [j1, j2];
  }

  /** An uninterrupted installation leaves exactly the proposed tree, waiting for its health check. */
  lemma CompleteInstall(d: Disk, id: nat, changes: seq<Change>, newTree: Tree, allowed: Path -> bool)
    requires Ready(d, id, changes, newTree, allowed)
    ensures var e := ExecAll(d, InstallPlan(id, changes));
            e.tree == newTree && e.pending == Some(Release(id, PendingHealth, changes))
  {
    var b, f := BackupWrites(id, changes), InstallFiles(changes);
    var i1, i2 := PutJournal(id, Installing), PutPending(Some(Release(id, Installing, changes)));
    var j1, j2 := PutJournal(id, PendingHealth), PutPending(Some(Release(id, PendingHealth, changes)));
    assert b[..|b|] == b;
    BackupWritesKeep(d, id, changes, |b|);
    var d1 := ExecAll(d, b);
    ExecSplit(d, b, [i1, i2]);
    ExecPair(d1, i1, i2);
    var d2 := Exec(Exec(d1, i1), i2);
    ExecSplit(d, b + [i1, i2], f);
    var d3 := ExecAll(d2, f);
    InstallFilesSet(d2, changes);
    ExecSplit(d, b + [i1, i2] + f, [j1, j2]);
    ExecPair(d3, j1, j2);
    forall p ensures Lookup(d3.tree, p) == Lookup(newTree, p) {
      if p in Paths(changes) {
        var i :| 0 <= i < |changes| && changes[i].path == p;
      }
    }
    SameLookups(d3.tree, newTree);
  }

  // ---------------------------------------------------------------- recovery

  lemma SettlePrefixSafe(d: Disk, r: Release, stage: Stage, oldTree: Tree, newTree: Tree, allowed: Path -> bool, n: nat)
    requires Safe(d, r.id, oldTree, newTree, allowed) && d.pending == Some(r) && n <= 3
    requires (stage == Verified && d.tree == newTree) || (stage == RolledBack && d.tree == oldTree)
    ensures Safe(ExecAll(d, Settle(r, stage)[..n]), r.id, oldTree, newTree, allowed)
    ensures n == 3 ==> ExecAll(d, Settle(r, stage)).pending.None? && ExecAll(d, Settle(r, stage)).tree == d.tree
  {
    var ws := Settle(r, stage);
    ExecPair(d, ws[0], ws[1]);
    var e := Exec(Exec(d, ws[0]), ws[1]);
    assert n == 0 ==> ws[..n] == [];
    assert n == 1 ==> ws[..n] == [ws[0]];
    assert n == 2 ==> ws[..n] == [ws[0], ws[1]];
    if n == 3 {
      assert ws[..n] == ws && ws[..2] == [ws[0], ws[1]];
    }
  }

  /** When every file was known and every backup is good, the rollback writes the whole old tree. */
  lemma RollbackRestores(d: Disk, r: Release, oldTree: Tree, newTree: Tree, allowed: Path -> bool)
    requires Safe(d, r.id, oldTree, newTree, allowed) && d.pending == Some(r)
    ensures var files := RestoreFiles(d, r, |r.changes|);
            && |files| == |r.changes| && ExecAll(d, files).tree == oldTree && FileWrites(files, oldTree, newTree)
  {
    var files := RestoreFiles(d, r, |r.changes|);
    RestoreFilesSet(d, d, r, |r.changes|);
    RestoreFilesAre(d, r, |r.changes|, oldTree, newTree);
    assert r.changes[..|r.changes|] == r.changes;
    var e := ExecAll(d, files);
    forall p ensures Lookup(e.tree, p) == Lookup(oldTree, p) {
      if p in Paths(r.changes) {
        var i :| 0 <= i < |r.changes| && r.changes[i].path == p;
      } else {
        assert Lookup(d.tree, p) == Lookup(oldTree, p);
      }
    }
    SameLookups(e.tree, oldTree);
  }

  lemma AllAfterIsNew(d: Disk, r: Release, oldTree: Tree, newTree: Tree, allowed: Path -> bool)
    requires Safe(d, r.id, oldTree, newTree, allowed) && d.pending == Some(r) && AllAfter(d, r)
    ensures d.tree == newTree
  {
    forall p ensures Lookup(d.tree, p) == Lookup(newTree, p) {
      if p in Paths(r.changes) {
        var i :| 0 <= i < |r.changes| && r.changes[i].path == p;
      }
    }
    SameLookups(d.tree, newTree);
  }

  lemma RollbackPrefixSafe(d: Disk, r: Release, oldTree: Tree, newTree: Tree, allowed: Path -> bool, n: nat)
    requires Safe(d, r.id, oldTree, newTree, allowed) && d.pending == Some(r)
    requires n <= |RestoreFiles(d, r, |r.changes|) + Settle(r, RolledBack)|
    ensures Safe(ExecAll(d, (RestoreFiles(d, r, |r.changes|) + Settle(r, RolledBack))[..n]), r.id, oldTree, newTree, allowed)
  {
    RollbackRestores(d, r, oldTree, newTree, allowed);
    assert |Settle(r, RolledBack)| == 3 by { SettleLength(r); }
    hide Safe, Settle, RestoreFiles, ExecAll, Lookup;
    var files, settle := RestoreFiles(d, r, |r.changes|), Settle(r, RolledBack);
    PrefixOfConcat(files, settle, n);
    if n <= |files| {
      FilesSafe(d, files[..n], r.id, oldTree, newTree, allowed);
    } else {
      FilesSafe(d, files, r.id, oldTree, newTree, allowed);
      ExecSplit(d, files, settle[..n - |files|]);
      SettlePrefixSafe(ExecAll(d, files), r, RolledBack, oldTree, newTree, allowed, n - |files|);
    }
  }

  lemma PrefixOfConcat(a: seq<Write>, b: seq<Write>, n: nat)
    requires n <= |a + b|
    ensures (a + b)[..n] == if n <= |a| then a[..n] else a + b[..n - |a|]
  {
  }

  lemma SettleLength(r: Release)
    ensures |Settle(r, RolledBack)| == 3
  {
  }

  /** Dying anywhere in a verification or rollback leaves a safe disk. */
  lemma VerifyPrefixSafe(d: Disk, id: nat, oldTree: Tree, newTree: Tree, allowed: Path -> bool, healthy: bool, n: nat)
    requires Safe(d, id, oldTree, newTree, allowed) && n <= |VerifyPlan(d, healthy, allowed).0|
    ensures Safe(ExecAll(d, VerifyPlan(d, healthy, allowed).0[..n]), id, oldTree, newTree, allowed)
  {
    var plan := VerifyPlan(d, healthy, allowed).0;
    if plan == [] {
      assert plan[..n] == [];
    } else {
      var r := d.pending.value;
      if healthy && r.stage == PendingHealth {
        AllAfterIsNew(d, r, oldTree, newTree, allowed);
        SettlePrefixSafe(d, r, Verified, oldTree, newTree, allowed, n);
      } else {
        RollbackRestores(d, r, oldTree, newTree, allowed);
        assert plan == RestoreFiles(d, r, |r.changes|) + Settle(r, RolledBack);
        hide RestoreFiles, Settle, VerifyPlan, ExecAll, Describes;
        RollbackPrefixSafe(d, r, oldTree, newTree, allowed, n);
      }
    }
  }

  /** One run of the supervisor or of start-up recovery, dying after `life` writes. */
  datatype Attempt = Verify(healthy: bool, life: nat) | Recover(life: nat)

  function PlanOf(d: Disk, a: Attempt, allowed: Path -> bool): seq<Write> {
    if a.Verify? then VerifyPlan(d, a.healthy, allowed).0 else RecoverPlan(d, allowed).0
  }

  function Try(d: Disk, a: Attempt, allowed: Path -> bool): Disk {
    var plan := PlanOf(d, a, allowed);
    ExecAll(d, if a.life < |plan| then plan[..a.life] else plan)
  }

  function TryAll(d: Disk, attempts: seq<Attempt>, allowed: Path -> bool): Disk {
    if attempts == [] then d else Try(TryAll(d, attempts[..|attempts| - 1], allowed), attempts[|attempts| - 1], allowed)
  }

  lemma {:induction false} AttemptsSafe(d: Disk, id: nat, oldTree: Tree, newTree: Tree, allowed: Path -> bool, attempts: seq<Attempt>)
    requires Safe(d, id, oldTree, newTree, allowed)
    ensures Safe(TryAll(d, attempts, allowed), id, oldTree, newTree, allowed)
  {
    if attempts != [] {
      AttemptsSafe(d, id, oldTree, newTree, allowed, attempts[..|attempts| - 1]);
      var e, a := TryAll(d, attempts[..|attempts| - 1], allowed), attempts[|attempts| - 1];
      var plan := PlanOf(e, a, allowed);
      var n := if a.life < |plan| then a.life else |plan|;
      assert plan[..|plan|] == plan;
      if plan == VerifyPlan(e, if a.Verify? then a.healthy else false, allowed).0 {
        VerifyPrefixSafe(e, id, oldTree, newTree, allowed, if a.Verify? then a.healthy else false, n);
      } else {
        assert plan == [];
      }
    }
  }

  /** Crash atomicity. Let an installation die after any number of its writes and let any sequence
      of recoveries and verifications follow, each dying anywhere. With no edits from outside,
      whenever no release is pending the tree is exactly the old tree or exactly the proposed one, and
      it is the proposed one precisely when the journal says verified. */
  lemma CrashAtomicRelease(d: Disk, id: nat, changes: seq<Change>, newTree: Tree, allowed: Path -> bool, death: nat, attempts: seq<Attempt>)
    requires Ready(d, id, changes, newTree, allowed) && d.tree != newTree && death <= |InstallPlan(id, changes)|
    ensures var e := TryAll(ExecAll(d, InstallPlan(id, changes)[..death]), attempts, allowed);
            e.pending.None? ==>
              && (e.tree == d.tree || e.tree == newTree)
              && (e.tree == newTree <==> id in e.journal && e.journal[id] == Verified)
  {
    InstallPrefixSafe(d, id, changes, newTree, allowed, death);
    AttemptsSafe(ExecAll(d, InstallPlan(id, changes)[..death]), id, d.tree, newTree, allowed, attempts);
  }

  /** Recovery is always possible: from any safe disk one uninterrupted rollback clears the release
      and restores the old tree. */
  lemma RollbackSucceeds(d: Disk, id: nat, oldTree: Tree, newTree: Tree, allowed: Path -> bool)
    requires Safe(d, id, oldTree, newTree, allowed) && d.pending.Some?
    ensures var (plan, out) := VerifyPlan(d, false, allowed);
            out == Cleared(RolledBack) && ExecAll(d, plan).pending.None? && ExecAll(d, plan).tree == oldTree
  {
    var r := d.pending.value;
    RollbackRestores(d, r, oldTree, newTree, allowed);
    assert AllKnown(d, r);
    var files := RestoreFiles(d, r, |r.changes|);
    FileWritesKeepMixed(d, files, oldTree, newTree);
    ExecSplit(d, files, Settle(r, RolledBack));
    SettlePrefixSafe(ExecAll(d, files), r, RolledBack, oldTree, newTree, allowed, 3);
  }

  /** A healthy release is accepted: from any safe disk whose release waits for its health check with
      every file new, one uninterrupted healthy verification records it as verified and keeps the
      proposed tree. With a file that is not new it is a conflict and nothing is written. */
  lemma HealthyReleaseIsVerified(d: Disk, id: nat, oldTree: Tree, newTree: Tree, allowed: Path -> bool)
    requires Safe(d, id, oldTree, newTree, allowed) && d.pending.Some? && d.pending.value.stage == PendingHealth
    ensures var (plan, out) := VerifyPlan(d, true, allowed);
            var e := ExecAll(d, plan);
            if AllNew(d) then out == Cleared(Verified) && e.pending.None? && e.tree == newTree && id in e.journal && e.journal[id] == Verified
            else out == Conflict && plan == []
  {
    var r := d.pending.value;
    SettledIsAccepted(d);
    if AllNew(d) {
      AllAfterIsNew(d, r, oldTree, newTree, allowed);
    }
    hide Settle, ExecAll, RollbackPlan, Mixed;
  }

  /** An installation that runs through, restarts and proves healthy ends with the proposed tree, verified. */
  lemma HealthyInstallIsKept(d: Disk, id: nat, changes: seq<Change>, newTree: Tree, allowed: Path -> bool)
    requires Ready(d, id, changes, newTree, allowed)
    ensures var e := ExecAll(d, InstallPlan(id, changes));
            && RecoverPlan(e, allowed) == ([], Installed)
            && var (plan, out) := VerifyPlan(e, true, allowed);
               var f := ExecAll(e, plan);
               out == Cleared(Verified) && f.tree == newTree && f.pending.None? && id in f.journal && f.journal[id] == Verified
  {
    var e := ExecAll(d, InstallPlan(id, changes));
    CompleteInstall(d, id, changes, newTree, allowed);
    InstallPrefixSafe(d, id, changes, newTree, allowed, |InstallPlan(id, changes)|);
    assert InstallPlan(id, changes)[..|InstallPlan(id, changes)|] == InstallPlan(id, changes);
    hide InstallPlan, ExecAll, VerifyPlan, Mixed;
    assert AllNew(e);
    HealthyReleaseIsVerified(e, id, d.tree, newTree, allowed);
  }

  /** Recovery after a crash rolls an interrupted installation back to the old tree and leaves an
      installed release alone. */
  lemma RecoveryMeaning(d: Disk, id: nat, oldTree: Tree, newTree: Tree, allowed: Path -> bool)
    requires Safe(d, id, oldTree, newTree, allowed)
    ensures var (plan, out) := RecoverPlan(d, allowed);
            match d.pending
            case None => plan == [] && out == NothingPending
            case Some(r) =>
              if r.stage == Installing then out == Cleared(RolledBack) && ExecAll(d, plan).pending.None? && ExecAll(d, plan).tree == oldTree
              else plan == [] && out == Installed
  {
    if d.pending.Some? {
      RollbackSucceeds(d, id, oldTree, newTree, allowed);
      hide VerifyPlan, ExecAll;
    }
  }

  /** Outside edits are never overwritten: on any disk at all, a file that holds neither its old nor
      its new content when the pre-check runs stops the attempt before its first write. */
  lemma UnknownFileBlocksRollback(d: Disk, allowed: Path -> bool, a: Attempt, i: nat)
    requires d.pending.Some? && i < |d.pending.value.changes|
    requires var c := d.pending.value.changes[i]; Lookup(d.tree, c.path) != c.before && Lookup(d.tree, c.path) != c.after
    ensures PlanOf(d, a, allowed) == [] && Try(d, a, allowed) == d
    ensures a.Verify? ==> VerifyPlan(d, a.healthy, allowed).1 == Conflict
  {
  }

  // ---------------------------------------------------------------- what stays protected

  /** `g` holds the imports of every module as its source file in the tree has them; a module
      without a source imports nothing. */
  ghost predicate ReadFrom(g: PC.Imports, tree: Tree, source: PC.Name -> Path, parse: Content -> seq<PC.Name>) {
    forall m :: PC.ImportsOf(g, m) == (var file := Lookup(tree, source(m)); if file.Some? then parse(file.value) else [])
  }

  /** No source of a protected module may change. */
  ghost predicate Guards(allowed: Path -> bool, g: PC.Imports, roots: seq<PC.Name>, source: PC.Name -> Path) {
    forall m :: PC.Reached(g, roots, m) ==> !allowed(source(m))
  }

  /** On every disk a release can leave, complete or not, a manager that starts anew finds the same
      modules protected as the one that installed it. */
  lemma ReleaseKeepsProtection(d: Disk, changes: seq<Change>, oldTree: Tree, newTree: Tree, allowed: Path -> bool,
                               g: PC.Imports, h: PC.Imports, roots: seq<PC.Name>, source: PC.Name -> Path, parse: Content -> seq<PC.Name>)
    requires Describes(changes, oldTree, newTree) && AllAllowed(changes, allowed) && Mixed(d.tree, oldTree, newTree)
    requires ReadFrom(g, oldTree, source, parse) && ReadFrom(h, d.tree, source, parse) && Guards(allowed, g, roots, source)
    ensures forall name :: PC.Reached(g, roots, name) <==> PC.Reached(h, roots, name)
    ensures Guards(allowed, h, roots, source)
  {
    forall m | PC.Reached(g, roots, m) ensures PC.ImportsOf(h, m) == PC.ImportsOf(g, m) {
      assert source(m) !in Paths(changes) by {
        assert !allowed(source(m));
        NotAllowedIsUnchanged(changes, allowed, source(m));
      }
      assert Lookup(d.tree, source(m)) == Lookup(oldTree, source(m));
    }
    forall name ensures PC.Reached(g, roots, name) <==> PC.Reached(h, roots, name) {
      PC.ProtectionStays(g, h, roots, name);
    }
  }

  lemma NotAllowedIsUnchanged(changes: seq<Change>, allowed: Path -> bool, p: Path)
    requires AllAllowed(changes, allowed) && !allowed(p)
    ensures p !in Paths(changes)
  {
  }
}
