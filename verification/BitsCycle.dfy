/** The decision cycle of xauusd/bits_runner.py over the job table of xauusd/bits_jobs.py: a
    persisted phase, rows keyed by cycle and action, and a process that may die at any store write.
    One move is one durable write, one remote call or one process start. */
module BitsCycle {
  import opened Prelude

  datatype Key = Key(cycle: nat, action: string)

  datatype Status = Running | Succeeded | Failed | Cancelled | TimedOut | Unsure
  {
    predicate Terminal() { !Running? && !Unsure? }
  }

  /** A row of the job table, named by its position; a deleted row stays in the list as `gone`. */
  datatype Row = Row(key: Key, request: string, status: Status, gone: bool)
  {
    predicate Prunable() { !gone && status.Terminal() }
  }

  datatype Action = Action(id: string, request: string)

  /** The persisted cycle record. */
  datatype Cycle =
    | Idle
    | Submitting(id: nat, steps: nat)
    | Workflow(id: nat, steps: nat)
    | Response(id: nat, steps: nat, action: Option<Action>)
    | Job(id: nat, steps: nat, job: nat)
    | Feedback(id: nat, steps: nat)
    | Blocked

  /** What the process is in the middle of; nothing of it survives a crash. */
  datatype Doing =
    | Down
    | Recovering(interrupted: bool)
    | WritingStop
    | WritingBlock
    | Rest
    | Posting
    | Posted
    | Claimed(job: nat, created: bool)
    | Spawned(job: nat)

  /** `posted` and `spawned` record the outside effects; `next` is the next unused cycle id. */
  datatype World = World(
    cycle: Cycle, rows: seq<Row>, stopped: bool, doing: Doing, workers: set<nat>,
    posted: seq<(nat, nat)>, spawned: seq<nat>, next: nat)

  datatype Limits = Limits(maxSteps: nat, keep: nat)

  // ---------------------------------------------------------------- the job table

  function Prunables(rows: seq<Row>): nat {
    if rows == [] then 0 else Prunables(rows[..|rows| - 1]) + if rows[|rows| - 1].Prunable() then 1 else 0
  }

  /** Deletes the first `n` terminal rows: those with fewer than `n` terminal rows before them. */
  function DropOldest(rows: seq<Row>, n: nat): seq<Row> {
    if rows == [] then [] else
    var front, last := rows[..|rows| - 1], rows[|rows| - 1];
    DropOldest(front, n) + [if last.Prunable() && Prunables(front) < n then last.(gone := true) else last]
  }

  function Prune(rows: seq<Row>, keep: nat): seq<Row> {
    if Prunables(rows) <= keep then rows else DropOldest(rows, Prunables(rows) - keep)
  }

  /** The row that owns a key, when it has not been deleted. */
  function Lookup(rows: seq<Row>, key: Key): Option<nat> {
    if rows == [] then None
    else if !rows[|rows| - 1].gone && rows[|rows| - 1].key == key then Some(|rows| - 1)
    else Lookup(rows[..|rows| - 1], key)
  }

  function AllUnsure(rows: seq<Row>): (r: seq<Row>)
    ensures |r| == |rows| && forall i :: 0 <= i < |rows| ==> r[i] == if !rows[i].gone && rows[i].status.Running? then rows[i].(status := Unsure) else rows[i]
  {
    seq(|rows|, i requires 0 <= i < |rows| => if !rows[i].gone && rows[i].status.Running? then rows[i].(status := Unsure) else rows[i])
  }

  predicate AnyRunning(rows: seq<Row>) { exists i :: 0 <= i < |rows| && !rows[i].gone && rows[i].status.Running? }

  // ---------------------------------------------------------------- moves

  datatype Move =
    | Boot(pruned: bool)
    | RecoverRow(job: nat)
    | BootDecide
    | BootStop
    | BootBlock
    | Submit
    | Post(answered: bool)
    | PutWorkflow
    | Reply(action: Option<Action>)
    | Deadline
    | Finish
    | Drop
    | Act
    | Spawn
    | PutJob
    | Observe
    | Strand
    | TickBlocked
    | Abort
    | WorkerEnds(job: nat, status: Status)
    | Crash
    | PaperStops
    | PaperStarts
    | OperatorReset

  /** A tick goes on only while the process is at rest and paper is not stopped. */
  predicate Ticks(w: World) { w.doing.Rest? && !w.stopped }

  function Step(c: Limits, w: World, m: Move): World {
    match m
    // Start of a process: delete old rows, mark what was running, block what cannot be known.
    case Boot(pruned) =>
      if w.doing.Down? then w.(rows := if pruned then Prune(w.rows, c.keep) else w.rows, doing := Recovering(false)) else w
    case RecoverRow(job) =>
      if w.doing.Recovering? && job < |w.rows| && !w.rows[job].gone && w.rows[job].status.Running?
      then w.(rows := w.rows[job := w.rows[job].(status := Unsure)], doing := Recovering(true)) else w
    case BootDecide =>
      if w.doing.Recovering? && !AnyRunning(w.rows)
      then w.(doing := if w.doing.interrupted || w.cycle.Submitting? then WritingStop else Rest) else w
    case BootStop => if w.doing.WritingStop? then w.(stopped := true, doing := WritingBlock) else w
    case BootBlock => if w.doing.WritingBlock? then w.(cycle := Blocked, doing := Rest) else w
    // Submission: the phase is written before the request leaves and again after it is answered.
    case Submit =>
      if Ticks(w) && w.cycle.Idle? then w.(cycle := Submitting(w.next, 0), next := w.next + 1, doing := Posting)
      else if Ticks(w) && w.cycle.Feedback? then w.(cycle := Submitting(w.cycle.id, w.cycle.steps), doing := Posting)
      else w
    case Post(answered) =>
      if w.doing.Posting? && w.cycle.Submitting?
      then w.(posted := w.posted + [(w.cycle.id, w.cycle.steps)], doing := if answered then Posted else Rest) else w
    case PutWorkflow =>
      if w.doing.Posted? && w.cycle.Submitting? then w.(cycle := Workflow(w.cycle.id, w.cycle.steps), doing := Rest) else w
    case Reply(action) =>
      if Ticks(w) && w.cycle.Workflow? then w.(cycle := Response(w.cycle.id, w.cycle.steps, action)) else w
    case Deadline => if Ticks(w) && w.cycle.Workflow? then w.(cycle := Idle) else w
    case Finish => if Ticks(w) && w.cycle.Response? && w.cycle.action.None? then w.(cycle := Idle) else w
    // A response that is too old is dropped; otherwise its action is claimed, started and recorded.
    case Drop => if Ticks(w) && w.cycle.Response? && w.cycle.action.Some? then w.(cycle := Idle) else w
    case Act =>
      if !Ticks(w) || !w.cycle.Response? || w.cycle.action.None? then w
      else if w.cycle.steps >= c.maxSteps then w.(cycle := Idle)
      else
        var key := Key(w.cycle.id, w.cycle.action.value.id);
        var request := w.cycle.action.value.request;
        var found := Lookup(w.rows, key);
        if found.None? then w.(rows := w.rows + [Row(key, request, Running, false)], doing := Claimed(|w.rows|, true))
        else if found.value < |w.rows| && w.rows[found.value].request == request then w.(doing := Claimed(found.value, false))
        else w
    case Spawn =>
      if !w.doing.Claimed? then w
      else w.(spawned := if w.doing.created then w.spawned + [w.doing.job] else w.spawned,
              workers := if w.doing.created then w.workers + {w.doing.job} else w.workers,
              doing := Spawned(w.doing.job))
    case PutJob =>
      if w.doing.Spawned? && w.cycle.Response? then w.(cycle := Job(w.cycle.id, w.cycle.steps + 1, w.doing.job), doing := Rest) else w
    case Observe =>
      if !Ticks(w) || !w.cycle.Job? || w.cycle.job >= |w.rows| || w.rows[w.cycle.job].gone then w
      else
        var status := w.rows[w.cycle.job].status;
        if status.Running? then w
        else if status.Unsure? || status.Cancelled? || status.TimedOut? then w.(stopped := true)
        else w.(cycle := Feedback(w.cycle.id, w.cycle.steps))
    // A job past its ceiling is given up; seeing it uncertain is what stops paper.
    case Strand =>
      if Ticks(w) && w.cycle.Job? && w.cycle.job < |w.rows| && !w.rows[w.cycle.job].gone && w.rows[w.cycle.job].status.Running?
      then w.(rows := w.rows[w.cycle.job := w.rows[w.cycle.job].(status := Unsure)]) else w
    case TickBlocked => if Ticks(w) && (w.cycle.Blocked? || w.cycle.Submitting?) then w.(stopped := true) else w
    // A step that raises: the process lives on with what is on disk.
    case Abort => if w.doing.Posting? || w.doing.Posted? || w.doing.Claimed? || w.doing.Spawned? then w.(doing := Rest) else w
    case WorkerEnds(job, status) =>
      if job in w.workers && job < |w.rows| && status.Terminal()
      then w.(rows := w.rows[job := w.rows[job].(status := status)], workers := w.workers - {job}) else w
    case Crash => w.(doing := Down, workers := {})
    case PaperStops => w.(stopped := true)
    case PaperStarts => w.(stopped := false)
    // The operator's acknowledgement, with the process down and paper stopped.
    case OperatorReset => if w.doing.Down? && w.stopped then w.(rows := AllUnsure(w.rows), cycle := Idle) else w
  }

  function Run(c: Limits, w: World, ms: seq<Move>): World {
    if ms == [] then w else Step(c, Run(c, w, ms[..|ms| - 1]), ms[|ms| - 1])
  }

  const EMPTY := World(Idle, [], false, Down, {}, [], [], 0)

  // ---------------------------------------------------------------- the invariant

  predicate Active(w: World) { !w.cycle.Idle? && !w.cycle.Blocked? }

  function CountOf(rows: seq<Row>, cycle: nat): nat {
    if rows == [] then 0 else CountOf(rows[..|rows| - 1], cycle) + if rows[|rows| - 1].key.cycle == cycle then 1 else 0
  }

  /** Rows are in cycle order, below the next id, and not beyond the cycle under way. */
  ghost predicate Ordered(w: World) {
    && (forall i, j :: 0 <= i < j < |w.rows| ==> w.rows[i].key.cycle <= w.rows[j].key.cycle)
    && (forall i :: 0 <= i < |w.rows| ==> w.rows[i].key.cycle < w.next)
    && (Active(w) ==> w.cycle.id < w.next && forall i :: 0 <= i < |w.rows| ==> w.rows[i].key.cycle <= w.cycle.id)
  }

  /** What has been posted for the cycle under way lies before the next submission. */
  ghost predicate PostsOnce(w: World) {
    && Distinct(w.posted)
    && (forall i :: 0 <= i < |w.posted| ==> w.posted[i].0 < w.next)
    && (w.doing.Posting? || w.doing.Posted? ==> w.cycle.Submitting?)
    && (Active(w) ==> forall i :: 0 <= i < |w.posted| && w.posted[i].0 == w.cycle.id ==>
          w.posted[i].1 < w.cycle.steps || (w.posted[i].1 == w.cycle.steps && (w.cycle.Workflow? || w.cycle.Response? || (w.cycle.Submitting? && !w.doing.Posting?))))
  }

  /** A row of the cycle under way was claimed for the pending action but not yet counted. */
  ghost predicate Uncounted(w: World) {
    && w.cycle.Response? && w.cycle.action.Some?
    && CountOf(w.rows, w.cycle.id) == w.cycle.steps + 1
    && |w.rows| > 0 && w.rows[|w.rows| - 1].key == Key(w.cycle.id, w.cycle.action.value.id) && !w.rows[|w.rows| - 1].gone
  }

  ghost predicate WithinBudget(c: Limits, w: World) {
    && (forall k :: CountOf(w.rows, k) <= c.maxSteps)
    && (Active(w) ==> w.cycle.steps <= c.maxSteps && (CountOf(w.rows, w.cycle.id) <= w.cycle.steps || Uncounted(w)))
    && (w.doing.Claimed? || w.doing.Spawned? ==>
          && w.cycle.Response? && w.cycle.action.Some? && w.cycle.steps < c.maxSteps
          && w.doing.job < |w.rows| && w.rows[w.doing.job].key == Key(w.cycle.id, w.cycle.action.value.id))
  }

  /** A deleted row of the cycle under way has at least `keep` successors in that cycle. */
  ghost predicate GoneOnlyBeyond(c: Limits, w: World) {
    Active(w) ==> forall i :: 0 <= i < |w.rows| && w.rows[i].key.cycle == w.cycle.id && w.rows[i].gone ==> CountOf(w.rows, w.cycle.id) > c.keep
  }

  /** Each row starts at most one process. */
  ghost predicate SpawnsOnce(w: World) {
    && Distinct(w.spawned)
    && (forall i :: 0 <= i < |w.spawned| ==> w.spawned[i] < |w.rows|)
    && (w.doing.Claimed? ==> w.doing.job < |w.rows| && (w.doing.created ==> w.doing.job !in w.spawned))
    && (w.doing.Spawned? ==> w.doing.job < |w.rows|)
    && (w.doing.Down? || w.doing.Recovering? || w.doing.WritingStop? || w.doing.WritingBlock? ==> w.workers == {})
  }

  ghost predicate Inv(c: Limits, w: World) {
    Ordered(w) && PostsOnce(w) && WithinBudget(c, w) && GoneOnlyBeyond(c, w) && SpawnsOnce(w)
  }

  ghost predicate KeysOnce(w: World) {
    forall i, j :: 0 <= i < j < |w.rows| ==> w.rows[i].key != w.rows[j].key
  }

  // ---------------------------------------------------------------- what pruning removes

  /** The same rows up to their status and deletion. */
  ghost predicate SameKeys(a: seq<Row>, b: seq<Row>) {
    |a| == |b| && forall i :: 0 <= i < |a| ==> a[i].key == b[i].key
  }

  lemma {:induction false} SameCounts(a: seq<Row>, b: seq<Row>, k: nat)
    requires SameKeys(a, b)
    ensures CountOf(a, k) == CountOf(b, k)
  {
    if a != [] {
      SameCounts(a[..|a| - 1], b[..|b| - 1], k);
    }
  }

  lemma {:induction false} DropOldestAt(rows: seq<Row>, n: nat, i: nat)
    requires i < |rows|
    ensures |DropOldest(rows, n)| == |rows|
    ensures DropOldest(rows, n)[i] == if rows[i].Prunable() && Prunables(rows[..i]) < n then rows[i].(gone := true) else rows[i]
  {
    var front := rows[..|rows| - 1];
    DropLength(front, n);
    if i < |front| {
      DropOldestAt(front, n, i);
      assert front[..i] == rows[..i];
    }
  }

  lemma {:induction false} DropLength(rows: seq<Row>, n: nat)
    ensures |DropOldest(rows, n)| == |rows|
  {
    if rows != [] {
      DropLength(rows[..|rows| - 1], n);
    }
  }

  lemma {:induction false} PrunablesSplit(rows: seq<Row>, i: nat)
    requires i <= |rows|
    ensures Prunables(rows) == Prunables(rows[..i]) + Prunables(rows[i..])
  {
    if i == |rows| {
      assert rows[..i] == rows && rows[i..] == [];
    } else {
      var front := rows[..|rows| - 1];
      PrunablesSplit(front, i);
      assert front[..i] == rows[..i];
      assert rows[i..][..|rows[i..]| - 1] == front[i..];
    }
  }

  lemma {:induction false} CountSplit(rows: seq<Row>, k: nat, i: nat)
    requires i <= |rows|
    ensures CountOf(rows, k) == CountOf(rows[..i], k) + CountOf(rows[i..], k)
  {
    if i == |rows| {
      assert rows[..i] == rows && rows[i..] == [];
    } else {
      var front := rows[..|rows| - 1];
      CountSplit(front, k, i);
      assert front[..i] == rows[..i];
      assert rows[i..][..|rows[i..]| - 1] == front[i..];
    }
  }

  lemma {:induction false} OneCycleCounts(rows: seq<Row>, k: nat)
    requires forall i :: 0 <= i < |rows| ==> rows[i].key.cycle == k
    ensures Prunables(rows) <= CountOf(rows, k) == |rows|
  {
    if rows != [] {
      OneCycleCounts(rows[..|rows| - 1], k);
    }
  }

  /** Pruning only deletes terminal rows, and a row it deletes has `keep` terminal rows after it. */
  lemma PruneAt(rows: seq<Row>, keep: nat, i: nat)
    requires i < |rows|
    ensures var r := Prune(rows, keep);
            && |r| == |rows| && (r[i] == rows[i] || (rows[i].Prunable() && r[i] == rows[i].(gone := true)))
            && (r[i] != rows[i] ==> Prunables(rows[i + 1..]) >= keep)
  {
    if Prunables(rows) > keep {
      DropOldestAt(rows, Prunables(rows) - keep, i);
      PrunablesSplit(rows, i);
      PrunablesSplit(rows[i..], 1);
      assert rows[i..][1..] == rows[i + 1..];
      assert rows[i..][..1] == [rows[i]];
      assert Prunables([rows[i]]) <= 1;
    }
  }

  /** A row that has come to an end that is known, and has not been deleted. */
  predicate Ended(row: Row) { !row.gone && (row.status.Succeeded? || row.status.Failed? || row.status.Cancelled? || row.status.TimedOut?) }

  function EndedFrom(rows: seq<Row>, i: nat): set<nat> { set j: nat | i <= j < |rows| && Ended(rows[j]) }

  lemma {:induction false} PrunablesAreEnded(rows: seq<Row>, i: nat)
    requires i <= |rows|
    ensures Prunables(rows[i..]) == |EndedFrom(rows, i)|
    decreases |rows| - i
  {
    if i < |rows| {
      PrunablesAreEnded(rows, i + 1);
      PrunablesSplit(rows[i..], 1);
      assert rows[i..][1..] == rows[i + 1..] && rows[i..][..1] == [rows[i]];
      assert [rows[i]][..0] == [];
      assert EndedFrom(rows, i) == EndedFrom(rows, i + 1) + if Ended(rows[i]) then {i} else {};
    }
  }

  /** Pruning deletes exactly the ended rows that have at least `keep` ended rows after them. */
  lemma PruneExactly(rows: seq<Row>, keep: nat, i: nat)
    requires i < |rows|
    ensures |Prune(rows, keep)| == |rows|
    ensures Prune(rows, keep)[i] == if Ended(rows[i]) && |EndedFrom(rows, i + 1)| >= keep then rows[i].(gone := true) else rows[i]
  {
    PrunablesAreEnded(rows, i + 1);
    PrunablesSplit(rows, i);
    PrunablesSplit(rows[i..], 1);
    assert rows[i..][1..] == rows[i + 1..] && rows[i..][..1] == [rows[i]];
    assert [rows[i]][..0] == [];
    if Prunables(rows) > keep {
      DropOldestAt(rows, Prunables(rows) - keep, i);
    }
  }

  lemma PruneShape(rows: seq<Row>, keep: nat)
    ensures var r := Prune(rows, keep);
            && SameKeys(r, rows)
            && forall i :: 0 <= i < |rows| ==> r[i] == rows[i] || (rows[i].Prunable() && r[i] == rows[i].(gone := true))
  {
    DropLength(rows, if Prunables(rows) > keep then Prunables(rows) - keep else 0);
    forall i | 0 <= i < |rows| ensures Prune(rows, keep)[i] == rows[i] || (rows[i].Prunable() && Prune(rows, keep)[i] == rows[i].(gone := true)) {
      PruneAt(rows, keep, i);
    }
  }

  /** A row of the newest cycle goes only when that cycle has more than `keep` rows. */
  lemma NewestCycleIsKept(rows: seq<Row>, keep: nat, id: nat, i: nat)
    requires i < |rows| && rows[i].key.cycle == id
    requires forall j :: i <= j < |rows| ==> rows[j].key.cycle == id
    ensures |Prune(rows, keep)| == |rows|
    ensures Prune(rows, keep)[i] != rows[i] ==> CountOf(rows, id) > keep && (keep > 0 ==> i < |rows| - 1)
  {
    PruneAt(rows, keep, i);
    var later := rows[i + 1..];
    OneCycleCounts(later, id);
    OneCycleCounts(rows[i..], id);
    CountSplit(rows, id, i);
  }

  // ---------------------------------------------------------------- every move keeps the invariant

  /** Changing only statuses and deletions keeps what depends on keys. */
  lemma SameKeysKeep(c: Limits, w: World, v: World)
    requires Ordered(w) && WithinBudget(c, w) && SameKeys(v.rows, w.rows)
    requires v.cycle == w.cycle && v.next == w.next && (v.doing == w.doing || !(v.doing.Claimed? || v.doing.Spawned?))
    requires Uncounted(w) ==> !v.rows[|v.rows| - 1].gone
    ensures Ordered(v) && WithinBudget(c, v)
  {
    forall k ensures CountOf(v.rows, k) == CountOf(w.rows, k) {
      SameCounts(v.rows, w.rows, k);
    }
  }

  lemma BootKeeps(c: Limits, w: World, pruned: bool)
    requires c.keep > 0 && Inv(c, w)
    ensures Inv(c, Step(c, w, Boot(pruned)))
  {
    hide Prune;
    if w.doing.Down? && pruned {
      var v := Step(c, w, Boot(pruned));
      PruneShape(w.rows, c.keep);
      if Active(w) {
        SameCounts(v.rows, w.rows, w.cycle.id);
        forall i | 0 <= i < |w.rows| && w.rows[i].key.cycle == w.cycle.id
          ensures v.rows[i] != w.rows[i] ==> CountOf(w.rows, w.cycle.id) > c.keep && i < |w.rows| - 1
        {
          NewestCycleIsKept(w.rows, c.keep, w.cycle.id, i);
        }
      }
      hide CountOf;
      SameKeysKeep(c, w, v);
      hide WithinBudget, Ordered, SameKeys;
    } else {
      hide Ordered, CountOf;
    }
  }

  /** Writing the status of one row. */
  lemma StatusKeeps(c: Limits, w: World, v: World, job: nat, status: Status)
    requires Inv(c, w) && job < |w.rows|
    requires v == w.(rows := w.rows[job := w.rows[job].(status := status)], stopped := v.stopped, doing := v.doing, workers := v.workers)
    requires v.doing == w.doing || (w.doing.Recovering? && v.doing.Recovering?)
    requires v.workers <= w.workers
    ensures Inv(c, v)
  {
    SameKeysKeep(c, w, v);
    hide Ordered, WithinBudget;
    if Active(w) {
      SameCounts(v.rows, w.rows, w.cycle.id);
    }
    hide CountOf;
  }

  lemma ResetKeeps(c: Limits, w: World)
    requires Inv(c, w)
    ensures Inv(c, Step(c, w, OperatorReset))
  {
    if w.doing.Down? && w.stopped {
      var v := w.(rows := AllUnsure(w.rows));
      SameKeysKeep(c, w, v);
      hide CountOf;
    }
  }

  lemma ClaimKeeps(c: Limits, w: World)
    requires Inv(c, w)
    ensures Inv(c, Step(c, w, Act))
  {
    if Ticks(w) && w.cycle.Response? && w.cycle.action.Some? && w.cycle.steps < c.maxSteps {
      var key := Key(w.cycle.id, w.cycle.action.value.id);
      LookupFinds(w.rows, key);
      if Lookup(w.rows, key).None? {
        ClaimNewKeeps(c, w, Row(key, w.cycle.action.value.request, Running, false));
      }
    }
    hide Ordered, CountOf, Lookup;
  }

  lemma ClaimNewKeeps(c: Limits, w: World, row: Row)
    requires Inv(c, w) && w.doing.Rest? && w.cycle.Response? && w.cycle.action.Some? && w.cycle.steps < c.maxSteps
    requires row.key == Key(w.cycle.id, w.cycle.action.value.id) && !row.gone && Lookup(w.rows, row.key).None?
    ensures Inv(c, w.(rows := w.rows + [row], doing := Claimed(|w.rows|, true)))
  {
    LookupFinds(w.rows, row.key);
    hide Lookup;
    var v := w.(rows := w.rows + [row], doing := Claimed(|w.rows|, true));
    assert v.rows[..|v.rows| - 1] == w.rows;
    assert !Uncounted(w);
    assert forall k :: CountOf(v.rows, k) == CountOf(w.rows, k) + if k == w.cycle.id then 1 else 0;
    hide CountOf;
  }

  lemma {:induction false} LookupFinds(rows: seq<Row>, key: Key)
    ensures match Lookup(rows, key)
            case None => forall i :: 0 <= i < |rows| && rows[i].key == key ==> rows[i].gone
            case Some(i) => i < |rows| && rows[i].key == key && !rows[i].gone && forall j :: i < j < |rows| && rows[j].key == key ==> rows[j].gone
  {
    if rows != [] {
      LookupFinds(rows[..|rows| - 1], key);
    }
  }

  lemma PostKeeps(c: Limits, w: World, answered: bool)
    requires Inv(c, w)
    ensures Inv(c, Step(c, w, Post(answered)))
  {
    hide CountOf;
    var v := Step(c, w, Post(answered));
    assert Ordered(v) && WithinBudget(c, v) && GoneOnlyBeyond(c, v);
  }

  lemma SpawnKeeps(c: Limits, w: World)
    requires Inv(c, w)
    ensures Inv(c, Step(c, w, Spawn))
  {
    hide CountOf, PostsOnce;
    assert PostsOnce(w) ==> PostsOnce(Step(c, w, Spawn)) by { SpawnKeepsPosts(c, w); }
  }

  lemma SpawnKeepsPosts(c: Limits, w: World)
    requires PostsOnce(w)
    ensures PostsOnce(Step(c, w, Spawn))
  {
  }

  lemma {:induction false} CountNone(rows: seq<Row>, k: nat)
    ensures (forall i :: 0 <= i < |rows| ==> rows[i].key.cycle != k) ==> CountOf(rows, k) == 0
  {
    if rows != [] {
      CountNone(rows[..|rows| - 1], k);
    }
  }

  lemma Together(c: Limits, w: World)
    ensures Ordered(w) && PostsOnce(w) && WithinBudget(c, w) && GoneOnlyBeyond(c, w) && SpawnsOnce(w) ==> Inv(c, w)
  {
  }

  predicate Special(m: Move) {
    m.Boot? || m.RecoverRow? || m.Strand? || m.WorkerEnds? || m.OperatorReset? || m.Act? || m.Post? || m.Spawn?
  }

  lemma OtherMovesKeepOrder(c: Limits, w: World, m: Move)
    requires Inv(c, w) && !Special(m)
    ensures Ordered(Step(c, w, m))
  {
    hide CountOf, Lookup, AnyRunning, WithinBudget, GoneOnlyBeyond, SpawnsOnce, PostsOnce;
    assert Step(c, w, m).rows == w.rows;
  }

  lemma OtherMovesKeepPosts(c: Limits, w: World, m: Move)
    requires Inv(c, w) && !Special(m)
    ensures PostsOnce(Step(c, w, m))
  {
    assert Active(w) ==> w.cycle.id < w.next;
    hide CountOf, Lookup, AnyRunning, WithinBudget, GoneOnlyBeyond, SpawnsOnce, Ordered, Distinct;
    assert Step(c, w, m).posted == w.posted;
  }

  lemma OtherMovesKeepRows(c: Limits, w: World, m: Move)
    requires Inv(c, w) && !Special(m)
    ensures var v := Step(c, w, m); WithinBudget(c, v) && GoneOnlyBeyond(c, v)
  {
    CountNone(w.rows, w.next);
    hide CountOf, Lookup, AnyRunning, PostsOnce, SpawnsOnce;
    assert Step(c, w, m).rows == w.rows;
  }

  lemma OtherMovesKeepSpawns(c: Limits, w: World, m: Move)
    requires Inv(c, w) && !Special(m)
    ensures SpawnsOnce(Step(c, w, m))
  {
    hide CountOf, Lookup, AnyRunning, PostsOnce, WithinBudget, GoneOnlyBeyond, Ordered;
    var v := Step(c, w, m);
    assert v.rows == w.rows && v.spawned == w.spawned;
  }

  lemma StepKeeps(c: Limits, w: World, m: Move)
    requires c.keep > 0 && Inv(c, w)
    ensures Inv(c, Step(c, w, m))
  {
    hide Inv;
    match m
    case Boot(pruned) => BootKeeps(c, w, pruned);
    case RecoverRow(job) =>
      if Step(c, w, m) != w { StatusKeeps(c, w, Step(c, w, m), job, Unsure); }
    case Strand =>
      if Step(c, w, m) != w { StatusKeeps(c, w, Step(c, w, m), w.cycle.job, Unsure); }
    case WorkerEnds(job, status) =>
      if Step(c, w, m) != w { StatusKeeps(c, w, Step(c, w, m), job, status); }
    case OperatorReset => ResetKeeps(c, w);
    case Act => ClaimKeeps(c, w);
    case Post(answered) => PostKeeps(c, w, answered);
    case Spawn => SpawnKeeps(c, w);
    case _ =>
      OtherMovesKeepOrder(c, w, m);
      OtherMovesKeepPosts(c, w, m);
      OtherMovesKeepRows(c, w, m);
      OtherMovesKeepSpawns(c, w, m);
      assert Inv(c, Step(c, w, m)) by { Together(c, Step(c, w, m)); }
  }
}
