/** What every run of the decision cycle keeps, and the two places where its promises end. */
module BitsLaws {
  import opened Prelude
  import opened BitsCycle

  // ---------------------------------------------------------------- at most once

  lemma EmptyHolds(c: Limits)
    ensures Inv(c, EMPTY) && KeysOnce(EMPTY)
  {
  }

  lemma {:induction false} RunKeeps(c: Limits, w: World, ms: seq<Move>)
    requires c.keep > 0 && Inv(c, w)
    ensures Inv(c, Run(c, w, ms))
  {
    hide Inv, Step;
    if ms != [] {
      RunKeeps(c, w, ms[..|ms| - 1]);
      StepKeeps(c, Run(c, w, ms[..|ms| - 1]), ms[|ms| - 1]);
    }
  }

  /** Within one cycle nothing is deleted before the budget is spent, so a key is never claimed anew. */
  lemma ClaimIsNew(c: Limits, w: World)
    requires Inv(c, w) && KeysOnce(w) && c.maxSteps <= c.keep + 1
    ensures KeysOnce(Step(c, w, Act))
  {
    if Ticks(w) && w.cycle.Response? && w.cycle.action.Some? && w.cycle.steps < c.maxSteps {
      var key := Key(w.cycle.id, w.cycle.action.value.id);
      LookupFinds(w.rows, key);
      hide Ordered, PostsOnce, SpawnsOnce, CountOf;
    }
  }

  lemma StepKeepsKeys(c: Limits, w: World, m: Move)
    requires Inv(c, w) && KeysOnce(w) && c.maxSteps <= c.keep + 1
    ensures KeysOnce(Step(c, w, m))
  {
    if m.Act? {
      ClaimIsNew(c, w);
    } else {
      if m.Boot? {
        PruneShape(w.rows, c.keep);
      }
      hide Inv, Prune, Lookup, AnyRunning;
      assert SameKeys(Step(c, w, m).rows, w.rows);
    }
    hide Step, Inv;
  }

  lemma {:induction false} RunKeepsKeys(c: Limits, w: World, ms: seq<Move>)
    requires c.keep > 0 && Inv(c, w) && KeysOnce(w) && c.maxSteps <= c.keep + 1
    ensures KeysOnce(Run(c, w, ms))
  {
    hide Inv, Step, KeysOnce;
    if ms != [] {
      RunKeepsKeys(c, w, ms[..|ms| - 1]);
      RunKeeps(c, w, ms[..|ms| - 1]);
      StepKeepsKeys(c, Run(c, w, ms[..|ms| - 1]), ms[|ms| - 1]);
    }
  }

  function SpawnsIn(w: World, k: nat, n: nat): nat
    requires n <= |w.spawned| && forall i :: 0 <= i < |w.spawned| ==> w.spawned[i] < |w.rows|
  {
    if n == 0 then 0 else SpawnsIn(w, k, n - 1) + if w.rows[w.spawned[n - 1]].key.cycle == k then 1 else 0
  }

  function RowsIn(rows: seq<Row>, k: nat): set<nat> { set i: nat | i < |rows| && rows[i].key.cycle == k }

  lemma {:induction false} RowsInSize(rows: seq<Row>, k: nat)
    ensures |RowsIn(rows, k)| == CountOf(rows, k)
  {
    if rows != [] {
      var front := rows[..|rows| - 1];
      RowsInSize(front, k);
      assert RowsIn(rows, k) == RowsIn(front, k) + if rows[|rows| - 1].key.cycle == k then {|rows| - 1} else {};
    }
  }

  lemma {:induction false} SpawnedAreRows(w: World, k: nat, n: nat) returns (jobs: set<nat>)
    requires n <= |w.spawned| && Distinct(w.spawned) && forall i :: 0 <= i < |w.spawned| ==> w.spawned[i] < |w.rows|
    ensures |jobs| == SpawnsIn(w, k, n) && jobs <= RowsIn(w.rows, k) && forall job :: job in jobs ==> job in w.spawned[..n]
  {
    jobs := {};
    if n > 0 {
      jobs := SpawnedAreRows(w, k, n - 1);
      assert w.spawned[..n] == w.spawned[..n - 1] + [w.spawned[n - 1]];
      if w.rows[w.spawned[n - 1]].key.cycle == k {
        jobs := jobs + {w.spawned[n - 1]};
      }
    }
  }

  lemma SubsetSize(a: set<nat>, b: set<nat>)
    requires a <= b
    ensures |a| <= |b|
  {
    assert b == a + (b - a);
  }

  /** No submission is posted twice, and no cycle starts more processes than its budget, over every
      sequence of ticks, worker endings, stops, resets and crashes at any write. */
  lemma PostedOnceWithinBudget(c: Limits, ms: seq<Move>)
    requires c.keep > 0
    ensures var w := Run(c, EMPTY, ms);
            && Distinct(w.posted)
            && (forall i :: 0 <= i < |w.spawned| ==> w.spawned[i] < |w.rows|)
            && forall k: nat :: SpawnsIn(w, k, |w.spawned|) <= c.maxSteps
  {
    EmptyHolds(c);
    RunKeeps(c, EMPTY, ms);
    var w := Run(c, EMPTY, ms);
    forall k: nat ensures SpawnsIn(w, k, |w.spawned|) <= c.maxSteps {
      var jobs := SpawnedAreRows(w, k, |w.spawned|);
      RowsInSize(w.rows, k);
      SubsetSize(jobs, RowsIn(w.rows, k));
    }
  }

  /** No two processes were started for the same action of the same cycle. */
  ghost predicate SpawnKeysOnce(w: World) {
    && (forall i :: 0 <= i < |w.spawned| ==> w.spawned[i] < |w.rows|)
    && (forall i, j :: 0 <= i < j < |w.spawned| ==> w.rows[w.spawned[i]].key != w.rows[w.spawned[j]].key)
  }

  /** Each action of a cycle starts at most one process, as long as a cycle's budget is at most one
      more than the number of finished rows a start-up keeps. */
  lemma ShellExactlyOnce(c: Limits, ms: seq<Move>)
    requires c.keep > 0 && c.maxSteps <= c.keep + 1
    ensures SpawnKeysOnce(Run(c, EMPTY, ms))
  {
    EmptyHolds(c);
    RunKeeps(c, EMPTY, ms);
    RunKeepsKeys(c, EMPTY, ms);
    hide Run, Ordered, PostsOnce, WithinBudget, GoneOnlyBeyond;
  }

  // ---------------------------------------------------------------- uncertain effects

  /** The cycle waits on something whose effect is not known: it is blocked, a submission was
      interrupted, or its job lost its worker before the end. */
  ghost predicate Stuck(w: World) {
    && (w.doing.Down? || w.doing.Recovering? || w.doing.WritingStop? || w.doing.WritingBlock? || w.doing.Rest?)
    && (w.cycle.Blocked? || w.cycle.Submitting?
        || (w.cycle.Job? && w.cycle.job < |w.rows| && !w.rows[w.cycle.job].gone && !w.rows[w.cycle.job].status.Terminal() && w.cycle.job !in w.workers))
  }

  /** From there no move but the operator's reset posts or starts anything. */
  lemma StuckStays(c: Limits, w: World, m: Move)
    requires Stuck(w) && !m.OperatorReset?
    ensures var v := Step(c, w, m); Stuck(v) && v.posted == w.posted && v.spawned == w.spawned
  {
    if m.Boot? {
      PruneShape(w.rows, c.keep);
    }
    hide Prune, Lookup, AnyRunning;
  }

  /** For ever: whatever happens after the crash, nothing is posted or started again. */
  lemma {:induction false} UncertainNeverActs(c: Limits, w: World, ms: seq<Move>)
    requires Stuck(w) && forall i :: 0 <= i < |ms| ==> !ms[i].OperatorReset?
    ensures var v := Run(c, w, ms); Stuck(v) && v.posted == w.posted && v.spawned == w.spawned
  {
    hide Stuck, Step;
    if ms != [] {
      UncertainNeverActs(c, w, ms[..|ms| - 1]);
      StuckStays(c, Run(c, w, ms[..|ms| - 1]), ms[|ms| - 1]);
    }
  }

  /** A tick in that state stops paper, unless the row still reads as running and a start-up or the
      time limit has yet to mark it. */
  lemma StuckTickStops(c: Limits, w: World)
    requires Stuck(w) && Ticks(w)
    ensures Step(c, w, TickBlocked).stopped || Step(c, w, Observe).stopped || Step(c, Step(c, w, Strand), Observe).stopped
  {
  }

  /** A crash during a submission, or while the recorded job still runs, leads there. */
  lemma CrashIsStuck(c: Limits, w: World)
    requires w.cycle.Submitting? || (w.cycle.Job? && w.cycle.job < |w.rows| && !w.rows[w.cycle.job].gone && !w.rows[w.cycle.job].status.Terminal())
    ensures Stuck(Step(c, w, Crash))
  {
  }

  // ---------------------------------------------------------------- start-up

  function RunningRows(rows: seq<Row>): seq<Move> {
    if rows == [] then [] else
    RunningRows(rows[..|rows| - 1]) + if !rows[|rows| - 1].gone && rows[|rows| - 1].status.Running? then [RecoverRow(|rows| - 1)] else []
  }

  lemma {:induction false} RunAppends(c: Limits, w: World, ms: seq<Move>, ns: seq<Move>)
    ensures Run(c, w, ms + ns) == Run(c, Run(c, w, ms), ns)
  {
    hide Step;
    if ns == [] {
      assert ms + ns == ms;
    } else {
      RunAppends(c, w, ms, ns[..|ns| - 1]);
      assert (ms + ns)[..|ms + ns| - 1] == ms + ns[..|ns| - 1];
    }
  }

  predicate RunningAt(rows: seq<Row>, i: nat)
    requires i < |rows|
  {
    !rows[i].gone && rows[i].status.Running?
  }

  function MarkedTo(rows: seq<Row>, n: nat): (r: seq<Row>)
    requires n <= |rows|
    ensures |r| == |rows| && forall i :: 0 <= i < |rows| ==> r[i] == if i < n && RunningAt(rows, i) then rows[i].(status := Unsure) else rows[i]
  {
    seq(|rows|, i requires 0 <= i < |rows| => if i < n && RunningAt(rows, i) then rows[i].(status := Unsure) else rows[i])
  }

  lemma MarkNext(c: Limits, w: World, n: nat)
    requires n < |w.rows|
    ensures var v := w.(rows := MarkedTo(w.rows, n), doing := Recovering(AnyRunning(w.rows[..n])));
            var u := w.(rows := MarkedTo(w.rows, n + 1), doing := Recovering(AnyRunning(w.rows[..n + 1])));
            u == if RunningAt(w.rows, n) then Step(c, v, RecoverRow(n)) else v
  {
    var a, b := MarkedTo(w.rows, n), MarkedTo(w.rows, n + 1);
    assert b == if RunningAt(w.rows, n) then a[n := a[n].(status := Unsure)] else a;
    hide AnyRunning;
  }

  lemma {:induction false} RecoveryMarks(c: Limits, w: World, n: nat)
    requires w.doing == Recovering(false) && n <= |w.rows|
    ensures Run(c, w, RunningRows(w.rows[..n])) == w.(rows := MarkedTo(w.rows, n), doing := Recovering(AnyRunning(w.rows[..n])))
  {
    if n == 0 {
      assert MarkedTo(w.rows, 0) == w.rows;
    } else {
      var front := RunningRows(w.rows[..n - 1]);
      RecoveryMarks(c, w, n - 1);
      assert w.rows[..n][..n - 1] == w.rows[..n - 1];
      MarkNext(c, w, n - 1);
      assert RunningRows(w.rows[..n]) == if RunningAt(w.rows, n - 1) then front + [RecoverRow(n - 1)] else front;
      hide Step, AnyRunning, RunningRows;
      RunAppends(c, w, front, [RecoverRow(n - 1)]);
      hide Run;
    }
  }

  /** A start-up that is not itself interrupted, after a crash during a submission or with any job
      still running: paper is stopped and the cycle blocked before the first tick. */
  lemma UninterruptedRecovery(c: Limits, w: World)
    requires w.doing.Recovering? && !w.doing.interrupted && (w.cycle.Submitting? || AnyRunning(w.rows))
    ensures var v := Run(c, w, RunningRows(w.rows) + [BootDecide, BootStop, BootBlock]);
            && v.stopped && v.cycle.Blocked? && v.doing.Rest? && Stuck(v)
  {
    var marks := RunningRows(w.rows);
    assert w.rows[..|w.rows|] == w.rows;
    RecoveryMarks(c, w, |w.rows|);
    var u := Run(c, w, marks);
    RunAppends(c, w, marks, [BootDecide, BootStop, BootBlock]);
    NoneLeftRunning(w.rows);
    hide Run, RunningRows, MarkedTo, AnyRunning, Step;
    BlockFrom(c, u);
  }

  lemma BlockFrom(c: Limits, u: World)
    requires u.doing.Recovering? && (u.doing.interrupted || u.cycle.Submitting?) && !AnyRunning(u.rows)
    ensures var v := Run(c, u, [BootDecide, BootStop, BootBlock]); v.stopped && v.cycle.Blocked? && v.doing.Rest?
  {
    ThreeMoves(c, u, BootDecide, BootStop, BootBlock);
    hide Run, AnyRunning;
  }

  lemma NoneLeftRunning(rows: seq<Row>)
    ensures !AnyRunning(MarkedTo(rows, |rows|))
  {
    assert forall i :: 0 <= i < |rows| ==> !RunningAt(MarkedTo(rows, |rows|), i);
  }

  lemma ThreeMoves(c: Limits, w: World, m: Move, n: Move, o: Move)
    ensures Run(c, w, [m, n, o]) == Step(c, Step(c, Step(c, w, m), n), o)
  {
    hide Step;
    assert [m, n, o][..2] == [m, n] && [m, n][..1] == [m] && [m][..0] == [];
    assert Run(c, w, [m]) == Step(c, w, m);
    assert Run(c, w, [m, n]) == Step(c, Run(c, w, [m]), n);
  }

  // ---------------------------------------------------------------- where the promises end

  ghost predicate Reaches(c: Limits, w: World, v: World) { exists ms :: Run(c, w, ms) == v }

  lemma ReachStep(c: Limits, v: World, m: Move, u: World)
    requires Reaches(c, EMPTY, v) && Step(c, v, m) == u
    ensures Reaches(c, EMPTY, u)
  {
    var ms :| Run(c, EMPTY, ms) == v;
    hide Step;
    assert (ms + [m])[..|ms|] == ms;
    assert Run(c, EMPTY, ms + [m]) == u;
  }

  function Name(k: nat): string { seq(k, _ => 'a') }

  /** The first cycle after `k` actions with names of their own, all of them successful. */
  function AfterActions(k: nat): World {
    World(Workflow(0, k), seq(k, i requires 0 <= i < k => Row(Key(0, Name(i)), "", Succeeded, false)), false, Rest, {},
          seq(k + 1, i requires 0 <= i <= k => (0, i)), seq(k, i requires 0 <= i < k => i), 1)
  }

  lemma FreshName(rows: seq<Row>, k: nat)
    requires forall i :: 0 <= i < |rows| ==> rows[i].gone || rows[i].key != Key(0, Name(k))
    ensures Lookup(rows, Key(0, Name(k))) == None
  {
    LookupFinds(rows, Key(0, Name(k)));
  }

  lemma OtherNames(i: nat, k: nat)
    requires i != k
    ensures Name(i) != Name(k)
  {
    assert |Name(i)| == i && |Name(k)| == k;
  }

  lemma OneMoreAction(c: Limits, k: nat)
    requires k < c.maxSteps && Reaches(c, EMPTY, AfterActions(k))
    ensures Reaches(c, EMPTY, AfterActions(k + 1))
  {
    hide Reaches;
    var w := AfterActions(k);
    var row := Row(Key(0, Name(k)), "", Running, false);
    forall i | 0 <= i < k ensures w.rows[i].key != Key(0, Name(k)) { OtherNames(i, k); }
    FreshName(w.rows, k);
    hide Lookup, Name;
    var w1 := w.(cycle := Response(0, k, Some(Action(Name(k), ""))));
    ReachStep(c, w, Reply(Some(Action(Name(k), ""))), w1);
    var w2 := w1.(rows := w.rows + [row], doing := Claimed(k, true));
    ReachStep(c, w1, Act, w2);
    var w3 := w2.(spawned := w.spawned + [k], workers := {k}, doing := Spawned(k));
    ReachStep(c, w2, Spawn, w3);
    var w4 := w3.(cycle := Job(0, k + 1, k), doing := Rest);
    ReachStep(c, w3, PutJob, w4);
    var w5 := w4.(rows := AfterActions(k + 1).rows, workers := {});
    assert w4.rows[k := row.(status := Succeeded)] == AfterActions(k + 1).rows;
    ReachStep(c, w4, WorkerEnds(k, Succeeded), w5);
    assert w5.spawned == AfterActions(k + 1).spawned;
    ReportAction(c, k, w5);
  }

  lemma ReportAction(c: Limits, k: nat, w5: World)
    requires Reaches(c, EMPTY, w5)
    requires w5 == AfterActions(k).(cycle := Job(0, k + 1, k), rows := AfterActions(k + 1).rows, spawned := AfterActions(k + 1).spawned)
    ensures Reaches(c, EMPTY, AfterActions(k + 1))
  {
    hide Reaches, Name;
    var w6 := w5.(cycle := Feedback(0, k + 1));
    ReachStep(c, w5, Observe, w6);
    var w7 := w6.(cycle := Submitting(0, k + 1), doing := Posting);
    ReachStep(c, w6, Submit, w7);
    var w8 := w7.(posted := w7.posted + [(0, k + 1)], doing := Posted);
    ReachStep(c, w7, Post(true), w8);
    assert w8.posted == AfterActions(k + 1).posted;
    ReachStep(c, w8, PutWorkflow, AfterActions(k + 1));
  }

  lemma {:induction false} ActionsReached(c: Limits, k: nat)
    requires k <= c.maxSteps
    ensures Reaches(c, EMPTY, AfterActions(k))
  {
    if k == 0 {
      assert Run(c, EMPTY, []) == EMPTY;
      hide Reaches;
      var w1 := EMPTY.(doing := Recovering(false));
      ReachStep(c, EMPTY, Boot(false), w1);
      var w2 := EMPTY.(doing := Rest);
      ReachStep(c, w1, BootDecide, w2);
      var w3 := EMPTY.(cycle := Submitting(0, 0), next := 1, doing := Posting);
      ReachStep(c, w2, Submit, w3);
      var w4 := w3.(posted := [(0, 0)], doing := Posted);
      ReachStep(c, w3, Post(true), w4);
      assert AfterActions(0).posted == [(0, 0)];
      ReachStep(c, w4, PutWorkflow, AfterActions(0));
    } else {
      ActionsReached(c, k - 1);
      OneMoreAction(c, k - 1);
    }
  }

  lemma {:induction false} AllPrunable(rows: seq<Row>)
    requires forall i :: 0 <= i < |rows| ==> rows[i].Prunable()
    ensures Prunables(rows) == |rows|
  {
    if rows != [] {
      AllPrunable(rows[..|rows| - 1]);
    }
  }

  /** The start-up after `keep + 1` actions deletes the first row of the very cycle under way. */
  lemma PruneForgetsFirst(keep: nat)
    ensures var rows := AfterActions(keep + 1).rows; Prune(rows, keep) == rows[0 := rows[0].(gone := true)]
  {
    var rows := AfterActions(keep + 1).rows;
    AllPrunable(rows);
    DropLength(rows, 1);
    forall i | 0 <= i < |rows| ensures Prune(rows, keep)[i] == if i == 0 then rows[0].(gone := true) else rows[i] {
      DropOldestAt(rows, 1, i);
      AllPrunable(rows[..i]);
    }
  }

  /** With a larger budget an action id used again after a restart runs a second time. */
  lemma ForgottenActionRunsAgain(c: Limits) returns (w: World)
    requires c.keep > 0 && c.maxSteps > c.keep + 1
    ensures Reaches(c, EMPTY, w) && !SpawnKeysOnce(w)
  {
    hide Reaches;
    var k := c.keep + 1;
    var a := AfterActions(k);
    ActionsReached(c, k);
    var rows := a.rows[0 := a.rows[0].(gone := true)];
    var b := a.(rows := rows, doing := Rest);
    RestartForgets(c, a, b);
    var d := b.(cycle := Response(0, k, Some(Action(Name(0), ""))));
    ReachStep(c, b, Reply(Some(Action(Name(0), ""))), d);
    forall i | 0 < i < k ensures rows[i].key != Key(0, Name(0)) { OtherNames(i, 0); }
    FreshName(rows, 0);
    hide Lookup, Name;
    var e := d.(rows := rows + [Row(Key(0, Name(0)), "", Running, false)], doing := Claimed(k, true));
    ReachStep(c, d, Act, e);
    w := e.(spawned := a.spawned + [k], workers := {k}, doing := Spawned(k));
    ReachStep(c, e, Spawn, w);
    assert w.spawned[0] == 0 && w.spawned[k] == k;
  }

  lemma RestartForgets(c: Limits, a: World, b: World)
    requires c.keep > 0 && a == AfterActions(c.keep + 1) && Reaches(c, EMPTY, a)
    requires b == a.(rows := a.rows[0 := a.rows[0].(gone := true)], doing := Rest)
    ensures Reaches(c, EMPTY, b)
  {
    hide Reaches;
    PruneForgetsFirst(c.keep);
    hide Prune, Name;
    ReachStep(c, a, Crash, a.(doing := Down));
    var r := b.(doing := Recovering(false));
    ReachStep(c, a.(doing := Down), Boot(true), r);
    assert !AnyRunning(r.rows);
    ReachStep(c, r, BootDecide, b);
  }

  /** Exactly the budgets of at most `keep + 1` actions keep every action to one process. */
  lemma ExactHorizon(c: Limits)
    requires c.keep > 0
    ensures c.maxSteps <= c.keep + 1 <==> forall w :: Reaches(c, EMPTY, w) ==> SpawnKeysOnce(w)
  {
    if c.maxSteps <= c.keep + 1 {
      forall w | Reaches(c, EMPTY, w) ensures SpawnKeysOnce(w) {
        var ms :| Run(c, EMPTY, ms) == w;
        hide Step;
        ShellExactlyOnce(c, ms);
      }
    } else {
      var w := ForgottenActionRunsAgain(c);
    }
  }

  // ---------------------------------------------------------------- after a second crash

  /** What is on disk lets some later process act again: the cycle holds nothing whose effect is in
      doubt, or its job is retained with a plain end. */
  predicate CanGoOn(w: World) {
    match w.cycle
    case Blocked => false
    case Submitting(_, _) => false
    case Job(_, _, job) => job < |w.rows| && !w.rows[job].gone && (w.rows[job].status.Succeeded? || w.rows[job].status.Failed?)
    case _ => true
  }

  /** No work in hand and nothing to go on with. */
  ghost predicate Dead(w: World) {
    && (w.doing.Down? || w.doing.Recovering? || w.doing.WritingStop? || w.doing.WritingBlock? || w.doing.Rest?)
    && !CanGoOn(w) && (w.cycle.Job? ==> w.cycle.job !in w.workers)
  }

  lemma DeadStays(c: Limits, w: World, m: Move)
    requires Dead(w) && !m.OperatorReset?
    ensures var v := Step(c, w, m); Dead(v) && v.posted == w.posted && v.spawned == w.spawned
  {
    if m.Boot? {
      PruneShape(w.rows, c.keep);
    }
    hide Prune, Lookup, AnyRunning;
  }

  lemma {:induction false} DeadNeverActs(c: Limits, w: World, ms: seq<Move>)
    requires Dead(w) && forall i :: 0 <= i < |ms| ==> !ms[i].OperatorReset?
    ensures var v := Run(c, w, ms); Dead(v) && v.posted == w.posted && v.spawned == w.spawned
  {
    hide Dead, Step;
    if ms != [] {
      DeadNeverActs(c, w, ms[..|ms| - 1]);
      DeadStays(c, Run(c, w, ms[..|ms| - 1]), ms[|ms| - 1]);
    }
  }

  /** The move that turns a cycle which can go on into one that may submit. */
  function Release(cycle: Cycle): Move {
    match cycle
    case Workflow(_, _) => Deadline
    case Response(_, _, action) => if action.None? then Finish else Drop
    case _ => Observe
  }

  lemma ReleasedSubmits(c: Limits, w: World)
    requires Ticks(w) && CanGoOn(w)
    ensures var v := Step(c, Step(c, Step(c, w, Release(w.cycle)), Submit), Post(true)); !v.stopped && |v.posted| == |w.posted| + 1
  {
  }

  /** A start-up that marks every running row and dies before its stop, followed by one that runs through. */
  lemma SecondStartRests(c: Limits, w: World)
    requires w.doing.Down? && !w.cycle.Submitting?
    ensures var first := [Boot(false)] + RunningRows(w.rows);
            Run(c, w, first + [Crash, Boot(false), BootDecide]) == w.(rows := MarkedTo(w.rows, |w.rows|), doing := Rest, workers := {})
  {
    hide MarkedTo, RunningRows;
    var booted := w.(doing := Recovering(false));
    var first := [Boot(false)] + RunningRows(w.rows);
    assert w.rows[..|w.rows|] == w.rows;
    RunAppends(c, w, first, [Crash, Boot(false), BootDecide]);
    RunAppends(c, w, [Boot(false)], RunningRows(w.rows));
    assert Run(c, w, [Boot(false)]) == booted by { assert [Boot(false)][..0] == []; }
    RecoveryMarks(c, booted, |w.rows|);
    NoneLeftRunning(w.rows);
    hide Run, AnyRunning;
    var u := Run(c, w, first);
    ThreeMoves(c, u, Crash, Boot(false), BootDecide);
  }

  ghost predicate NoOperator(ms: seq<Move>) { forall i :: 0 <= i < |ms| ==> !ms[i].OperatorReset? && !ms[i].PaperStarts? }

  lemma {:induction false} MarksAreQuiet(rows: seq<Row>)
    ensures NoOperator(RunningRows(rows))
  {
    if rows != [] {
      MarksAreQuiet(rows[..|rows| - 1]);
    }
  }

  lemma GoesOn(c: Limits, w: World) returns (ms: seq<Move>)
    requires w.doing.Down? && !w.stopped && CanGoOn(w)
    ensures NoOperator(ms) && var v := Run(c, w, ms); !v.stopped && |v.posted| > |w.posted|
  {
    var start, last := [Boot(false)] + RunningRows(w.rows) + [Crash, Boot(false), BootDecide], [Release(w.cycle), Submit, Post(true)];
    ms := start + last;
    MarksAreQuiet(w.rows);
    SecondStartRests(c, w);
    var v := w.(rows := MarkedTo(w.rows, |w.rows|), doing := Rest, workers := {});
    RunAppends(c, w, start, last);
    ReleasedSubmits(c, v);
    ThreeMoves(c, v, Release(w.cycle), Submit, Post(true));
    hide Run, RunningRows, MarkedTo;
  }

  /** Exactly which crashes can be forgotten. Of a process that is down with paper running, however it
      came there and whatever was running: some later run that no operator interferes with acts again
      if and only if the cycle on disk is not blocked, not submitting and not waiting for a job other
      than one that is retained and ended plainly. */
  lemma ForgottenExactly(c: Limits, w: World)
    requires c.keep > 0 && Reaches(c, EMPTY, w) && w.doing.Down? && !w.stopped
    ensures CanGoOn(w) <==> exists ms :: NoOperator(ms) && |Run(c, w, ms).posted| > |w.posted|
    ensures !CanGoOn(w) ==> forall ms :: NoOperator(ms) ==> Run(c, w, ms).posted == w.posted && Run(c, w, ms).spawned == w.spawned
  {
    if CanGoOn(w) {
      var ms := GoesOn(c, w);
    } else {
      var es :| Run(c, EMPTY, es) == w;
      EmptyHolds(c);
      RunKeeps(c, EMPTY, es);
      hide Run, CanGoOn;
      forall ms | NoOperator(ms) ensures Run(c, w, ms).posted == w.posted && Run(c, w, ms).spawned == w.spawned {
        DeadNeverActs(c, w, ms);
      }
    }
  }

  /** A job started just before a crash, and a second crash after the start-up marked its row but
      before it wrote the stop: the next start-up sees nothing running, the old response is dropped
      for its age, and a new cycle is posted although paper was never stopped. */
  lemma SecondCrashForgetsTheJob(c: Limits) returns (w: World, ms: seq<Move>)
    requires c.maxSteps > 0
    ensures Reaches(c, EMPTY, w) && w.doing.Down? && AnyRunning(w.rows) && w.cycle.Response?
    ensures NoOperator(ms) && var v := Run(c, w, ms); !v.stopped && |v.posted| > |w.posted|
  {
    w := JobLost(c);
    ms := GoesOn(c, w);
  }

  lemma JobLost(c: Limits) returns (w: World)
    requires c.maxSteps > 0
    ensures Reaches(c, EMPTY, w) && AnyRunning(w.rows)
    ensures w == World(Response(0, 0, Some(Action("a", ""))), [Row(Key(0, "a"), "", Running, false)], false, Down, {}, [(0, 0)], [0], 1)
  {
    ActionsReached(c, 0);
    hide Reaches;
    var a := AfterActions(0);
    assert a == World(Workflow(0, 0), [], false, Rest, {}, [(0, 0)], [], 1);
    var b := a.(cycle := Response(0, 0, Some(Action("a", ""))));
    ReachStep(c, a, Reply(Some(Action("a", ""))), b);
    var d := b.(rows := [Row(Key(0, "a"), "", Running, false)], doing := Claimed(0, true));
    ReachStep(c, b, Act, d);
    var e := d.(spawned := [0], workers := {0}, doing := Spawned(0));
    ReachStep(c, d, Spawn, e);
    w := e.(doing := Down, workers := {});
    ReachStep(c, e, Crash, w);
    assert w.rows[0].status.Running?;
  }
}
