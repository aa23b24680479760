/** The release journal of xauusd/agent_engineering.py: a tested change set is installed file by
    file behind a durable intent record, and an interrupted release is rolled back from backups.
    A digest is identified with the content it stands for. Every durable write is a step after
    which the process may die. */
module Releases {
  import opened Prelude

  type Path = string
  type Content = string
  type Tree = map<Path, Content>

  /** `before` and `after` are digests, None where the file does not exist. */
  datatype Change = Change(path: Path, before: Option<Content>, after: Option<Content>)

  datatype Stage = Installing | PendingHealth | Verified | RolledBack

  datatype Release = Release(id: nat, stage: Stage, changes: seq<Change>)

  /** Everything that survives a crash. */
  datatype Disk = Disk(
    tree: Tree, backups: map<(nat, Path), Content>, journal: map<nat, Stage>,
    pending: Option<Release>, history: seq<Release>)

  datatype Write =
    | PutFile(path: Path, content: Option<Content>)
    | PutBackup(id: nat, path: Path, bytes: Content)
    | PutJournal(id: nat, stage: Stage)
    | PutPending(pending: Option<Release>)
    | PutHistory(release: Release)

  datatype Outcome = NothingPending | Installed | Cleared(stage: Stage) | Conflict

  function Lookup(tree: Tree, path: Path): Option<Content> {
    if path in tree then Some(tree[path]) else None
  }

  function SetFile(tree: Tree, path: Path, content: Option<Content>): (t: Tree)
    ensures forall p :: Lookup(t, p) == if p == path then content else Lookup(tree, p)
  {
    match content
    case Some(c) => tree[path := c]
    case None => tree - {path}
  }

  function Exec(d: Disk, w: Write): Disk {
    match w
    case PutFile(path, content) => d.(tree := SetFile(d.tree, path, content))
    case PutBackup(id, path, bytes) => d.(backups := d.backups[(id, path) := bytes])
    case PutJournal(id, stage) => d.(journal := d.journal[id := stage])
    case PutPending(pending) => d.(pending := pending)
    case PutHistory(release) =>
      var h := d.history + [release];
      d.(history := if |h| <= 3 then h else h[|h| - 3..])
  }

  function ExecAll(d: Disk, ws: seq<Write>): Disk {
    if ws == [] then d else Exec(ExecAll(d, ws[..|ws| - 1]), ws[|ws| - 1])
  }

  // ---------------------------------------------------------------- the change set of `check`

  /** The changed names, in the order of `names` (the sorted union of both name sets). */
  function Diff(names: seq<Path>, live: Tree, proposed: Tree): seq<Change> {
    if names == [] then [] else
    var name := names[|names| - 1];
    Diff(names[..|names| - 1], live, proposed)
      + if Lookup(live, name) == Lookup(proposed, name) then [] else [Change(name, Lookup(live, name), Lookup(proposed, name))]
  }

  function Paths(changes: seq<Change>): set<Path> {
    set i | 0 <= i < |changes| :: changes[i].path
  }

  ghost predicate DistinctPaths(changes: seq<Change>) {
    forall i, j :: 0 <= i < j < |changes| ==> changes[i].path != changes[j].path
  }

  /** The rows say, for different paths, what the old tree holds and what the new one will. */
  ghost predicate Describes(changes: seq<Change>, oldTree: Tree, newTree: Tree) {
    && DistinctPaths(changes)
    && (forall i :: 0 <= i < |changes| ==> changes[i].before == Lookup(oldTree, changes[i].path)
                                           && changes[i].after == Lookup(newTree, changes[i].path))
    && forall p :: p !in Paths(changes) ==> Lookup(oldTree, p) == Lookup(newTree, p)
  }

  lemma {:induction false} DiffRows(names: seq<Path>, live: Tree, proposed: Tree)
    requires forall i, j :: 0 <= i < j < |names| ==> names[i] != names[j]
    ensures var cs := Diff(names, live, proposed);
            && (forall i :: 0 <= i < |cs| ==> cs[i].path in names && cs[i] == Change(cs[i].path, Lookup(live, cs[i].path), Lookup(proposed, cs[i].path)))
            && DistinctPaths(cs)
            && (forall p :: p in names && Lookup(live, p) != Lookup(proposed, p) ==> p in Paths(cs))
  {
    if names != [] {
      var front, name := names[..|names| - 1], names[|names| - 1];
      DiffRows(front, live, proposed);
      var cs, fs := Diff(names, live, proposed), Diff(front, live, proposed);
      assert name !in front;
      assert forall i :: 0 <= i < |fs| ==> cs[i] == fs[i];
      forall p | p in names && Lookup(live, p) != Lookup(proposed, p) ensures p in Paths(cs) {
        if p == name {
          assert cs[|fs|].path == name;
        } else {
          assert p in front;
          var i :| 0 <= i < |fs| && fs[i].path == p;
          assert cs[i].path == p;
        }
      }
    }
  }

  /** `check` lists exactly what turns the live tree into the proposed one. */
  lemma DiffDescribes(names: seq<Path>, live: Tree, proposed: Tree)
    requires forall i, j :: 0 <= i < j < |names| ==> names[i] != names[j]
    requires forall p :: p in live || p in proposed ==> p in names
    ensures Describes(Diff(names, live, proposed), live, proposed)
  {
    DiffRows(names, live, proposed);
  }

  /** The paths that differ, and none of them may be forbidden. */
  lemma DiffersMeans(names: seq<Path>, live: Tree, proposed: Tree, p: Path)
    requires forall i, j :: 0 <= i < j < |names| ==> names[i] != names[j]
    ensures var row := Change(p, Lookup(live, p), Lookup(proposed, p));
            p in names && Lookup(live, p) != Lookup(proposed, p) <==> row in Diff(names, live, proposed)
  {
    DiffRows(names, live, proposed);
    DiffDiffers(names, live, proposed);
    var cs := Diff(names, live, proposed);
    hide Diff;
    if p in names && Lookup(live, p) != Lookup(proposed, p) {
      assert p in Paths(cs);
      var i :| 0 <= i < |cs| && cs[i].path == p;
    }
  }

  lemma {:induction false} DiffDiffers(names: seq<Path>, live: Tree, proposed: Tree)
    ensures forall i :: 0 <= i < |Diff(names, live, proposed)| ==>
              var c := Diff(names, live, proposed)[i]; c.path in names && c.before != c.after
  {
    if names != [] {
      DiffDiffers(names[..|names| - 1], live, proposed);
    }
  }

  datatype Refusal = LiveBaseChanged | ProtectedChange | NoChanges | ReleasePending | TestsFailed | SourcesChanged

  /** `check`: the live tree must still be the snapshot's, no row may touch a protected path or an
      existing test, and something must have changed. */
  function Check(names: seq<Path>, baseline: Tree, live: Tree, proposed: Tree, allowed: Path -> bool, frozenTest: Change -> bool): Result<seq<Change>, Refusal> {
    var changes := Diff(names, live, proposed);
    if live != baseline then Err(LiveBaseChanged)
    else if exists i :: 0 <= i < |changes| && (!allowed(changes[i].path) || frozenTest(changes[i])) then Err(ProtectedChange)
    else if changes == [] then Err(NoChanges)
    else Ok(changes)
  }

  /** When the check passes, and why not: the live tree is no longer the snapshot's, a difference touches
      what no release may change, or there is no difference. */
  lemma CheckMeaning(names: seq<Path>, baseline: Tree, live: Tree, proposed: Tree, allowed: Path -> bool, frozenTest: Change -> bool)
    requires forall i, j :: 0 <= i < j < |names| ==> names[i] != names[j]
    ensures var r := Check(names, baseline, live, proposed, allowed, frozenTest);
            && (r == Err(LiveBaseChanged) <==> live != baseline)
            && (r == Err(ProtectedChange) <==> live == baseline && exists p :: Forbidden(names, live, proposed, allowed, frozenTest, p))
            && (r == Err(NoChanges) <==> live == baseline && forall p :: p in names ==> Lookup(live, p) == Lookup(proposed, p))
            && (r.Err? ==> r.error in {LiveBaseChanged, ProtectedChange, NoChanges})
  {
    BadRowMeans(names, live, proposed, allowed, frozenTest);
    NoRowMeans(names, live, proposed);
    hide Diff, Lookup, Forbidden;
  }

  lemma BadRowMeans(names: seq<Path>, live: Tree, proposed: Tree, allowed: Path -> bool, frozenTest: Change -> bool)
    requires forall i, j :: 0 <= i < j < |names| ==> names[i] != names[j]
    ensures var cs := Diff(names, live, proposed);
            (exists i :: 0 <= i < |cs| && (!allowed(cs[i].path) || frozenTest(cs[i])))
            <==> exists p :: Forbidden(names, live, proposed, allowed, frozenTest, p)
  {
    var cs := Diff(names, live, proposed);
    RowsAre(names, live, proposed);
    hide Diff, Lookup;
    if i :| 0 <= i < |cs| && (!allowed(cs[i].path) || frozenTest(cs[i])) {
      assert cs[i] in cs;
      assert Forbidden(names, live, proposed, allowed, frozenTest, cs[i].path);
    }
    if p :| Forbidden(names, live, proposed, allowed, frozenTest, p) {
      assert Change(p, Lookup(live, p), Lookup(proposed, p)) in cs;
    }
  }

  lemma NoRowMeans(names: seq<Path>, live: Tree, proposed: Tree)
    requires forall i, j :: 0 <= i < j < |names| ==> names[i] != names[j]
    ensures Diff(names, live, proposed) == [] <==> forall p :: p in names ==> Lookup(live, p) == Lookup(proposed, p)
  {
    RowsAre(names, live, proposed);
    var cs := Diff(names, live, proposed);
    hide Diff, Lookup;
    if cs != [] {
      assert cs[0] in cs;
    }
  }

  lemma RowsAre(names: seq<Path>, live: Tree, proposed: Tree)
    requires forall i, j :: 0 <= i < j < |names| ==> names[i] != names[j]
    ensures var cs := Diff(names, live, proposed);
            && (forall c :: c in cs ==> c.path in names && c == Change(c.path, Lookup(live, c.path), Lookup(proposed, c.path)) && c.before != c.after)
            && (forall p :: p in names && Lookup(live, p) != Lookup(proposed, p) ==> Change(p, Lookup(live, p), Lookup(proposed, p)) in cs)
  {
    DiffRows(names, live, proposed);
    DiffDiffers(names, live, proposed);
    forall p ensures p in names && Lookup(live, p) != Lookup(proposed, p) <==> Change(p, Lookup(live, p), Lookup(proposed, p)) in Diff(names, live, proposed) {
      DiffersMeans(names, live, proposed, p);
    }
    hide Diff;
  }

  ghost predicate Forbidden(names: seq<Path>, live: Tree, proposed: Tree, allowed: Path -> bool, frozenTest: Change -> bool, p: Path) {
    && p in names && Lookup(live, p) != Lookup(proposed, p)
    && (!allowed(p) || frozenTest(Change(p, Lookup(live, p), Lookup(proposed, p))))
  }

  /** The frozen contents are those of every file the release installs. */
  lemma HoldsMeaning(frozen: Tree, names: seq<Path>, live: Tree, proposed: Tree)
    requires forall i, j :: 0 <= i < j < |names| ==> names[i] != names[j]
    ensures Holds(frozen, Diff(names, live, proposed)) <==>
              forall p :: p in names && p in proposed && Lookup(live, p) != Lookup(proposed, p) ==> Lookup(frozen, p) == Lookup(proposed, p)
  {
    var cs := Diff(names, live, proposed);
    DiffRows(names, live, proposed);
    DiffDiffers(names, live, proposed);
    hide Diff;
    if Holds(frozen, cs) {
      forall p | p in names && p in proposed && Lookup(live, p) != Lookup(proposed, p) ensures Lookup(frozen, p) == Lookup(proposed, p) {
        assert p in Paths(cs);
        var i :| 0 <= i < |cs| && cs[i].path == p;
      }
    } else {
      var i :| 0 <= i < |cs| && cs[i].after.Some? && Lookup(frozen, cs[i].path) != cs[i].after;
      assert cs[i].path in names && cs[i].path in proposed;
    }
  }

  /** The disk and the workspace as found at one moment. */
  datatype Reading = Reading(disk: Disk, proposed: Tree)

  /** The workspace still has every content to be installed. */
  predicate Holds(frozen: Tree, changes: seq<Change>) {
    forall i :: 0 <= i < |changes| && changes[i].after.Some? ==> Lookup(frozen, changes[i].path) == changes[i].after
  }

  // ---------------------------------------------------------------- the writes of each operation

  function BackupWrites(id: nat, changes: seq<Change>): seq<Write> {
    if changes == [] then [] else
    var c := changes[|changes| - 1];
    BackupWrites(id, changes[..|changes| - 1]) + if c.before.Some? then [PutBackup(id, c.path, c.before.value)] else []
  }

  function InstallFiles(changes: seq<Change>): (ws: seq<Write>)
    ensures |ws| == |changes|
  {
    if changes == [] then [] else
    InstallFiles(changes[..|changes| - 1]) + [PutFile(changes[|changes| - 1].path, changes[|changes| - 1].after)]
  }

  /** `deploy` after its checks: backups, intent, files, then the wait for a health check. */
  function InstallPlan(id: nat, changes: seq<Change>): seq<Write> {
    BackupWrites(id, changes)
    + [PutJournal(id, Installing), PutPending(Some(Release(id, Installing, changes)))]
    + InstallFiles(changes)
    + [PutJournal(id, PendingHealth), PutPending(Some(Release(id, PendingHealth, changes)))]
  }

  predicate BackupGood(d: Disk, id: nat, c: Change) {
    c.before.Some? ==> (id, c.path) in d.backups && d.backups[(id, c.path)] == c.before.value
  }

  /** The rollback loop over the first `k` rows, last first, up to a missing or damaged backup. */
  function RestoreFiles(d: Disk, r: Release, k: nat): (ws: seq<Write>)
    requires k <= |r.changes|
    ensures |ws| <= k
    decreases k
  {
    if k == 0 || !BackupGood(d, r.id, r.changes[k - 1]) then []
    else [PutFile(r.changes[k - 1].path, r.changes[k - 1].before)] + RestoreFiles(d, r, k - 1)
  }

  predicate AllAfter(d: Disk, r: Release) {
    forall i :: 0 <= i < |r.changes| ==> Lookup(d.tree, r.changes[i].path) == r.changes[i].after
  }

  /** The rollback pre-check: no file holds anything but its old or its new content. */
  predicate AllKnown(d: Disk, r: Release) {
    forall i :: 0 <= i < |r.changes| ==>
      Lookup(d.tree, r.changes[i].path) == r.changes[i].before || Lookup(d.tree, r.changes[i].path) == r.changes[i].after
  }

  function Settle(r: Release, stage: Stage): seq<Write> {
    [PutJournal(r.id, stage), PutPending(None), PutHistory(r.(stage := stage))]
  }

  function RollbackPlan(d: Disk, r: Release): (seq<Write>, Outcome) {
    if !AllKnown(d, r) then ([], Conflict) else
    var files := RestoreFiles(d, r, |r.changes|);
    if |files| < |r.changes| then (files, Conflict)
    else (files + Settle(r, RolledBack), Cleared(RolledBack))
  }

  /** `verify_pending`: accept a healthy installed release, roll anything else back. */
  function VerifyPlan(d: Disk, healthy: bool, allowed: Path -> bool): (seq<Write>, Outcome) {
    if d.pending.None? then ([], NothingPending) else
    var r := d.pending.value;
    if exists i :: 0 <= i < |r.changes| && !allowed(r.changes[i].path) then ([], Conflict)
    else if healthy && r.stage == PendingHealth then
      if AllAfter(d, r) then (Settle(r, Verified), Cleared(Verified)) else ([], Conflict)
    else RollbackPlan(d, r)
  }

  /** `recover_pending`: an interrupted install is rolled back, an installed one is left alone. */
  function RecoverPlan(d: Disk, allowed: Path -> bool): (seq<Write>, Outcome) {
    if d.pending.Some? && d.pending.value.stage == Installing then VerifyPlan(d, false, allowed)
    else if d.pending.Some? then ([], Installed) else ([], NothingPending)
  }

  // ---------------------------------------------------------------- a healthy release

  /** A release that has passed its checks waits for its health verification, and is healthy. */
  ghost predicate Waiting(d: Disk, healthy: bool, allowed: Path -> bool) {
    && healthy && d.pending.Some? && d.pending.value.stage == PendingHealth
    && forall i :: 0 <= i < |d.pending.value.changes| ==> allowed(d.pending.value.changes[i].path)
  }

  /** The pending release would change a file that no release may change. */
  ghost predicate TouchesProtected(d: Disk, allowed: Path -> bool) {
    d.pending.Some? && exists c :: c in d.pending.value.changes && !allowed(c.path)
  }

  /** Every changed file holds its new content. */
  ghost predicate AllNew(d: Disk)
    requires d.pending.Some?
  {
    forall i :: 0 <= i < |d.pending.value.changes| ==> Lookup(d.tree, d.pending.value.changes[i].path) == d.pending.value.changes[i].after
  }

  ghost predicate Healthy(d: Disk, healthy: bool, allowed: Path -> bool) { Waiting(d, healthy, allowed) && AllNew(d) }

  /** The release is recorded as verified and nothing else has changed. */
  ghost predicate Accepted(d: Disk, e: Disk)
    requires d.pending.Some?
  {
    && e.tree == d.tree && e.backups == d.backups && e.pending == None
    && e.journal == d.journal[d.pending.value.id := Verified]
    && e.history == Tail(d.history + [d.pending.value.(stage := Verified)], 3)
  }

  lemma SettledIsAccepted(d: Disk)
    requires d.pending.Some?
    ensures var ws := Settle(d.pending.value, Verified); |ws| == 3 && Accepted(d, ExecAll(d, ws))
  {
    var ws := Settle(d.pending.value, Verified);
    assert ws[..2][..1] == ws[..1] && ws[..1][..0] == [] && ws[..2] == [ws[0], ws[1]];
    assert ExecAll(d, ws[..1]) == Exec(d, ws[0]);
    assert ExecAll(d, ws[..2]) == Exec(Exec(d, ws[0]), ws[1]);
    assert ExecAll(d, ws) == Exec(ExecAll(d, ws[..2]), ws[2]);
  }

  /** A rollback that meets a missing or altered backup is a conflict: what it restored stays, and the
      release stays pending as it was. */
  lemma BadBackupIsConflict(d: Disk, r: Release, i: nat)
    requires i < |r.changes| && r.changes[i].before.Some?
    requires (r.id, r.changes[i].path) in d.backups ==> d.backups[(r.id, r.changes[i].path)] != r.changes[i].before.value
    ensures var (plan, out) := RollbackPlan(d, r);
            var e := ExecAll(d, plan);
            out == Conflict && e.pending == d.pending && e.journal == d.journal && e.history == d.history && e.backups == d.backups
  {
    FilesUpToBad(d, r, |r.changes|, i);
    FilesOnly(d, RestoreFiles(d, r, |r.changes|));
    hide RestoreFiles, AllKnown;
    assert ExecAll(d, []) == d;
  }

  lemma {:induction false} FilesUpToBad(d: Disk, r: Release, n: nat, i: nat)
    requires i < n <= |r.changes| && !BackupGood(d, r.id, r.changes[i])
    ensures |RestoreFiles(d, r, n)| < n
    ensures forall k :: 0 <= k < |RestoreFiles(d, r, n)| ==> RestoreFiles(d, r, n)[k].PutFile?
  {
    FilesArePuts(d, r, n);
    if n > i + 1 {
      FilesUpToBad(d, r, n - 1, i);
    }
  }

  lemma {:induction false} FilesArePuts(d: Disk, r: Release, n: nat)
    requires n <= |r.changes|
    ensures |RestoreFiles(d, r, n)| <= n && forall k :: 0 <= k < |RestoreFiles(d, r, n)| ==> RestoreFiles(d, r, n)[k].PutFile?
  {
    if n > 0 {
      FilesArePuts(d, r, n - 1);
    }
  }

  lemma {:induction false} FilesOnly(d: Disk, ws: seq<Write>)
    requires forall k :: 0 <= k < |ws| ==> ws[k].PutFile?
    ensures ExecAll(d, ws) == d.(tree := ExecAll(d, ws).tree)
  {
    if ws != [] {
      FilesOnly(d, ws[..|ws| - 1]);
    }
  }

  // ---------------------------------------------------------------- the manager

  /** The manager over its durable state. `budget` is the number of durable writes it completes
      before the process dies; None is returned when that happens first. */
  class EngineeringManager {
    var disk: Disk
    var budget: nat
    const allowed: Path -> bool

    constructor (disk: Disk, allowed: Path -> bool)
      ensures this.disk == disk && this.allowed == allowed
    {
      this.disk, this.allowed, budget := disk, allowed, 0;
    }

    /** One durable write; nothing happens once the process is dead. */
    method Commit(w: Write) returns (alive: bool)
      modifies this
      ensures alive <==> old(budget) > 0
      ensures alive ==> budget == old(budget) - 1 && disk == Exec(old(disk), w)
      ensures !alive ==> budget == 0 && disk == old(disk)
    {
      alive := budget > 0;
      if alive {
        budget := budget - 1;
        disk := Exec(disk, w);
      }
    }

    /** A list of durable writes, as far as the budget goes. */
    method CommitAll(ws: seq<Write>) returns (alive: bool)
      modifies this
      ensures alive <==> old(budget) >= |ws|
      ensures alive ==> disk == ExecAll(old(disk), ws) && budget == old(budget) - |ws|
      ensures !alive ==> budget == 0 && old(budget) < |ws| && disk == ExecAll(old(disk), ws[..old(budget)])
    {
      var i := 0;
      while i < |ws|
        invariant 0 <= i <= |ws| && i <= old(budget)
        invariant budget == old(budget) - i && disk == ExecAll(old(disk), ws[..i])
      {
        assert ws[..i + 1][..i] == ws[..i];
        alive := Commit(ws[i]);
        if !alive {
          return;
        }
        i := i + 1;
      }
      assert ws[..|ws|] == ws;
      alive := true;
    }

    /** The mutating part of `deploy`, under the install lock and after the last `check`. */
    method Install(id: nat, changes: seq<Change>, life: nat) returns (outcome: Option<Outcome>)
      modifies this
      ensures old(disk).pending.Some? ==> outcome == Some(Conflict) && disk == old(disk)
      ensures old(disk).pending.None? ==>
                var plan := InstallPlan(id, changes);
                if life >= |plan| then outcome == Some(Installed) && disk == ExecAll(old(disk), plan)
                else outcome == None && disk == ExecAll(old(disk), plan[..life])
    {
      if disk.pending.Some? {
        return Some(Conflict);
      }
      budget := life;
      var alive := CommitAll(InstallPlan(id, changes));
      outcome := if alive then Some(Installed) else None;
    }

    /** `deploy`: nothing is written unless the check finds the same changes before the tests, after
        them and under the lock, the tests pass, no release is pending, and the proposed contents
        are still there. Between its readings others may have changed the disk and the workspace:
        `tested` is what it finds after the tests, `locked` and then `frozen` what it finds under
        the lock. */
    method Deploy(names: seq<Path>, baseline: Tree, proposed: Tree, frozenTest: Change -> bool, testsPass: bool,
                  tested: Reading, locked: Reading, frozen: Tree, id: nat, life: nat)
      returns (r: Result<Option<Outcome>, Refusal>)
      modifies this
      ensures var checked := Check(names, baseline, old(disk).tree, proposed, allowed, frozenTest);
              var begun := checked.Ok? && old(disk).pending.None? && testsPass;
              var again := Check(names, baseline, tested.disk.tree, tested.proposed, allowed, frozenTest);
              && (r.Ok? <==> begun && again == checked && locked.disk.pending.None?
                             && Check(names, baseline, locked.disk.tree, locked.proposed, allowed, frozenTest) == checked
                             && Holds(frozen, checked.value))
              && (r.Err? ==> disk == if !begun then old(disk) else if again != checked then tested.disk else locked.disk)
      ensures r.Ok? ==>
                var plan := InstallPlan(id, Diff(names, baseline, proposed));
                && old(disk).tree == locked.disk.tree == baseline
                && if life >= |plan| then r.value == Some(Installed) && disk == ExecAll(locked.disk, plan)
                   else r.value == None && disk == ExecAll(locked.disk, plan[..life])
    {
      hide Diff, InstallPlan, ExecAll;
      var checked := Check(names, baseline, disk.tree, proposed, allowed, frozenTest);
      if checked.Err? {
        return Err(checked.error);
      }
      if disk.pending.Some? {
        return Err(ReleasePending);
      }
      if !testsPass {
        return Err(TestsFailed);
      }
      disk := tested.disk;
      var after := Check(names, baseline, disk.tree, tested.proposed, allowed, frozenTest);
      if after.Err? {
        return Err(after.error);
      }
      if after.value != checked.value {
        return Err(SourcesChanged);
      }
      disk := locked.disk;
      if disk.pending.Some? {
        return Err(ReleasePending);
      }
      var final := Check(names, baseline, disk.tree, locked.proposed, allowed, frozenTest);
      if final != checked {
        return Err(LiveBaseChanged);
      }
      if !Holds(frozen, checked.value) {
        return Err(SourcesChanged);
      }
      var outcome := Install(id, checked.value, life);
      r := Ok(outcome);
    }

    /** The pre-check loops of `verify_pending`. */
    method Matches(r: Release, installed: bool) returns (ok: bool)
      ensures ok <==> if installed then AllAfter(disk, r) else AllKnown(disk, r)
    {
      for i := 0 to |r.changes|
        invariant forall j :: 0 <= j < i ==>
          Lookup(disk.tree, r.changes[j].path) == r.changes[j].after
          || (!installed && Lookup(disk.tree, r.changes[j].path) == r.changes[j].before)
      {
        var current := Lookup(disk.tree, r.changes[i].path);
        if current != r.changes[i].after && (installed || current != r.changes[i].before) {
          return false;
        }
      }
      ok := true;
    }

    /** The restore loop: last row first, each backup checked before it is written. */
    method Restore(r: Release) returns (alive: bool, complete: bool)
      modifies this
      ensures var files := RestoreFiles(old(disk), r, |r.changes|);
              && (alive <==> old(budget) >= |files|)
              && (alive ==> disk == ExecAll(old(disk), files) && budget == old(budget) - |files| && (complete <==> |files| == |r.changes|))
              && (!alive ==> old(budget) < |files| && disk == ExecAll(old(disk), files[..old(budget)]))
    {
      hide RestoreFiles, ExecAll, SetFile;
      ghost var files := RestoreFiles(disk, r, |r.changes|);
      ghost var start := disk;
      var k := |r.changes|;
      NothingDone(start, files);
      alive, complete := true, true;
      while k > 0
        invariant 0 <= k <= |r.changes|
        invariant disk.backups == start.backups
        invariant |r.changes| - k <= old(budget) && budget == old(budget) - (|r.changes| - k)
        invariant |r.changes| - k <= |files| && RestoreFiles(start, r, k) == files[|r.changes| - k..]
        invariant disk == ExecAll(start, files[..|r.changes| - k])
      {
        RestoreStep(start, r, k, files, |r.changes| - k);
        if !BackupGood(disk, r.id, r.changes[k - 1]) {
          complete := false;
          return;
        }
        ExecNext(start, files, |r.changes| - k);
        alive := Commit(PutFile(r.changes[k - 1].path, r.changes[k - 1].before));
        if !alive {
          return;
        }
        k := k - 1;
      }
      RestoreEnd(start, r, files);
    }

    /** The journal entry, the end of the pending record, and the history row. */
    method SettleRelease(r: Release, stage: Stage, ghost start: Disk, ghost files: seq<Write>, ghost life: nat) returns (outcome: Option<Outcome>)
      requires disk == ExecAll(start, files) && life == |files| + budget
      modifies this
      ensures var plan := files + Settle(r, stage);
              if life >= |plan| then outcome == Some(Cleared(stage)) && disk == ExecAll(start, plan)
              else outcome == None && disk == ExecAll(start, plan[..life])
    {
      var settle := Settle(r, stage);
      ExecSplit(start, files, settle);
      if life < |files + settle| {
        assert (files + settle)[..life] == files + settle[..life - |files|];
        ExecSplit(start, files, settle[..life - |files|]);
      }
      var alive := CommitAll(settle);
      outcome := if alive then Some(Cleared(stage)) else None;
    }

    method RollBack(r: Release) returns (outcome: Option<Outcome>)
      modifies this
      ensures var (plan, out) := RollbackPlan(old(disk), r);
              if old(budget) >= |plan| then outcome == Some(out) && disk == ExecAll(old(disk), plan)
              else outcome == None && disk == ExecAll(old(disk), plan[..old(budget)])
    {
      hide RestoreFiles, Settle;
      var known := Matches(r, false);
      if !known {
        return Some(Conflict);
      }
      ghost var files := RestoreFiles(disk, r, |r.changes|);
      var alive, complete := Restore(r);
      if !alive {
        RollbackCut(r, files, old(budget));
        return None;
      }
      if !complete {
        return Some(Conflict);
      }
      outcome := SettleRelease(r, RolledBack, old(disk), files, old(budget));
    }

    method VerifyPending(healthy: bool, life: nat) returns (outcome: Option<Outcome>)
      modifies this
      ensures var (plan, out) := VerifyPlan(old(disk), healthy, allowed);
              if life >= |plan| then outcome == Some(out) && disk == ExecAll(old(disk), plan)
              else outcome == None && disk == ExecAll(old(disk), plan[..life])
      ensures old(disk).pending.None? ==> outcome == Some(NothingPending) && disk == old(disk)
      ensures TouchesProtected(old(disk), allowed) ==> outcome == Some(Conflict) && disk == old(disk)
      ensures Healthy(old(disk), healthy, allowed) && life >= 3 ==> outcome == Some(Cleared(Verified)) && Accepted(old(disk), disk)
      ensures Waiting(old(disk), healthy, allowed) && !AllNew(old(disk)) ==> outcome == Some(Conflict) && disk == old(disk)
    {
      ghost var was := disk;
      if Healthy(was, healthy, allowed) {
        SettledIsAccepted(was);
      }
      hide Settle, RollbackPlan, Accepted;
      budget := life;
      if disk.pending.None? {
        return Some(NothingPending);
      }
      var r := disk.pending.value;
      if exists i :: 0 <= i < |r.changes| && !allowed(r.changes[i].path) {
        return Some(Conflict);
      }
      if healthy && r.stage == PendingHealth {
        var installed := Matches(r, true);
        if !installed {
          return Some(Conflict);
        }
        assert [] + Settle(r, Verified) == Settle(r, Verified);
        outcome := SettleRelease(r, Verified, disk, [], life);
      } else {
        outcome := RollBack(r);
      }
    }

    method RecoverPending(life: nat) returns (outcome: Option<Outcome>)
      modifies this
      ensures var (plan, out) := RecoverPlan(old(disk), allowed);
              if life >= |plan| then outcome == Some(out) && disk == ExecAll(old(disk), plan)
              else outcome == None && disk == ExecAll(old(disk), plan[..life])
      ensures old(disk).pending.None? ==> outcome == Some(NothingPending) && disk == old(disk)
      ensures old(disk).pending.Some? && old(disk).pending.value.stage == PendingHealth ==> outcome == Some(Installed) && disk == old(disk)
    {
      if disk.pending.Some? && disk.pending.value.stage == Installing {
        outcome := VerifyPending(false, life);
      } else {
        outcome := Some(if disk.pending.Some? then Installed else NothingPending);
      }
    }
  }

  lemma NothingDone(d: Disk, ws: seq<Write>)
    ensures ExecAll(d, ws[..0]) == d && ws[0..] == ws
  {
  }

  lemma RestoreStep(d: Disk, r: Release, k: nat, files: seq<Write>, done: nat)
    requires 0 < k <= |r.changes| && done <= |files| && RestoreFiles(d, r, k) == files[done..]
    ensures !BackupGood(d, r.id, r.changes[k - 1]) ==> files == files[..done] && |files| == done
    ensures BackupGood(d, r.id, r.changes[k - 1]) ==>
              && done < |files| && files[done] == PutFile(r.changes[k - 1].path, r.changes[k - 1].before)
              && RestoreFiles(d, r, k - 1) == files[done + 1..]
  {
    assert done < |files| ==> files[done..] == [files[done]] + files[done + 1..];
  }

  lemma RestoreEnd(d: Disk, r: Release, files: seq<Write>)
    requires |r.changes| <= |files| && RestoreFiles(d, r, 0) == files[|r.changes|..]
    ensures |files| == |r.changes| && files == files[..|r.changes|]
  {
  }

  lemma RollbackCut(r: Release, files: seq<Write>, life: nat)
    requires life < |files|
    ensures files[..life] == (files + Settle(r, RolledBack))[..life]
  {
  }

  lemma ExecNext(d: Disk, ws: seq<Write>, n: nat)
    requires n < |ws|
    ensures ExecAll(d, ws[..n + 1]) == Exec(ExecAll(d, ws[..n]), ws[n])
    ensures ws[n..] == [ws[n]] + ws[n + 1..]
  {
    assert ws[..n + 1][..n] == ws[..n];
  }

  lemma {:induction false} ExecSplit(d: Disk, a: seq<Write>, b: seq<Write>)
    ensures ExecAll(d, a + b) == ExecAll(ExecAll(d, a), b)
    decreases |b|
  {
    if b == [] {
      assert a + b == a;
    } else {
      assert (a + b)[..|a + b| - 1] == a + b[..|b| - 1];
      ExecSplit(d, a, b[..|b| - 1]);
    }
  }
}
