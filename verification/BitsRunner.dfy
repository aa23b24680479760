/** The runner of xauusd/bits_runner.py as an object: a start-up and a tick, each proved to be a
    composition of the cycle's moves. */
module BitsRunner {
  import opened Prelude
  import opened BitsCycle
  import opened BitsLaws

  datatype Poll = Waiting | Late | Said(action: Option<Action>)

  /** What a tick meets: market data or none, an open market, data or a response too old, a job past
      its ceiling, a review that is due, the planner's poll, and whether a request is answered. */
  datatype Env = Env(noData: bool, open: bool, stale: bool, tooOld: bool, stranded: bool, due: bool, poll: Poll, answered: bool)

  // ---------------------------------------------------------------- a tick as moves

  function SubmitAll(c: Limits, w: World, e: Env): World { Step(c, Step(c, Step(c, w, Submit), Post(e.answered)), PutWorkflow) }

  function ActAll(c: Limits, w: World): World { Step(c, Step(c, Step(c, w, Act), Spawn), PutJob) }

  /** New work needs an open market and fresh data. */
  function AtRest(c: Limits, w: World, e: Env): World {
    if !e.open || e.stale then w
    else if w.cycle.Response? then (if e.tooOld then Step(c, w, Drop) else ActAll(c, w))
    else if w.cycle.Feedback? || (w.cycle.Idle? && e.due) then SubmitAll(c, w, e)
    else w
  }

  function AfterReply(c: Limits, w: World, e: Env): World {
    if w.cycle.Response? && w.cycle.action.None? then Step(c, w, Finish) else AtRest(c, w, e)
  }

  function Tick(c: Limits, w: World, e: Env): World {
    if !Ticks(w) then w
    else if w.cycle.Blocked? || w.cycle.Submitting? then Step(c, w, TickBlocked)
    else if e.noData then w
    else if w.cycle.Job? then
      var u := Step(c, if e.stranded then Step(c, w, Strand) else w, Observe);
      if u.cycle.Feedback? then AtRest(c, u, e) else u
    else if w.cycle.Workflow? then
      match e.poll
      case Waiting => w
      case Late => Step(c, w, Deadline)
      case Said(action) => AfterReply(c, Step(c, w, Reply(action)), e)
    else AfterReply(c, w, e)
  }

  /** Every tick keeps what every move keeps. */
  lemma TickKeeps(c: Limits, w: World, e: Env)
    requires c.keep > 0 && Inv(c, w)
    ensures Inv(c, Tick(c, w, e))
  {
    hide Inv, Step;
    forall v, m | Inv(c, v) ensures Inv(c, Step(c, v, m)) {
      StepKeeps(c, v, m);
    }
  }

  // ---------------------------------------------------------------- what a tick leaves behind

  /** A new cycle or the next step of this one is posted once, and waits for its answer when the request
      was answered; an unanswered one stays as being submitted. */
  lemma SubmitLeaves(c: Limits, w: World, e: Env)
    requires !w.stopped && w.doing.Rest? && (w.cycle.Idle? || w.cycle.Feedback?)
    ensures var v := SubmitAll(c, w, e);
            var id, steps := if w.cycle.Feedback? then w.cycle.id else w.next, if w.cycle.Feedback? then w.cycle.steps else 0;
            v == w.(cycle := if e.answered then Workflow(id, steps) else Submitting(id, steps), posted := w.posted + [(id, steps)],
                    next := if w.cycle.Feedback? then w.next else w.next + 1)
  {
  }

  /** The row of a key that has not been deleted. */
  ghost predicate Owns(rows: seq<Row>, key: Key, i: nat) {
    i < |rows| && !rows[i].gone && rows[i].key == key && forall j :: i < j < |rows| ==> rows[j].gone || rows[j].key != key
  }

  lemma {:induction false} LookupOwns(rows: seq<Row>, key: Key)
    ensures match Lookup(rows, key)
            case Some(i) => Owns(rows, key, i)
            case None => forall i :: 0 <= i < |rows| ==> rows[i].gone || rows[i].key != key
  {
    if rows != [] && !(!rows[|rows| - 1].gone && rows[|rows| - 1].key == key) {
      LookupOwns(rows[..|rows| - 1], key);
    }
  }

  /** The action of a response: beyond the budget the cycle ends; a key without a row gets one and its
      process; a key with a row for the same request is that job again, without a new process; one with
      a row for another request changes nothing. */
  lemma ActLeaves(c: Limits, w: World)
    requires !w.stopped && w.doing.Rest? && w.cycle.Response? && w.cycle.action.Some?
    ensures var v, key, request := ActAll(c, w), Key(w.cycle.id, w.cycle.action.value.id), w.cycle.action.value.request;
            var owner := Lookup(w.rows, key);
            if w.cycle.steps >= c.maxSteps then v == w.(cycle := Idle)
            else match owner
                 case None =>
                   v == w.(rows := w.rows + [Row(key, request, Running, false)], spawned := w.spawned + [|w.rows|],
                           workers := w.workers + {|w.rows|}, cycle := Job(w.cycle.id, w.cycle.steps + 1, |w.rows|))
                 case Some(i) =>
                   Owns(w.rows, key, i)
                   && v == if w.rows[i].request == request then w.(cycle := Job(w.cycle.id, w.cycle.steps + 1, i)) else w
  {
    LookupOwns(w.rows, Key(w.cycle.id, w.cycle.action.value.id));
    hide Lookup;
  }

  /** A job that runs is waited for; past its ceiling it is given up as uncertain, and an uncertain,
      cancelled or timed-out job stops paper; a plain end leads on to feedback. */
  lemma WatchLeaves(c: Limits, w: World, e: Env)
    requires !w.stopped && w.doing.Rest? && w.cycle.Job? && w.cycle.job < |w.rows| && !w.rows[w.cycle.job].gone
    ensures var v, row := Step(c, if e.stranded then Step(c, w, Strand) else w, Observe), w.rows[w.cycle.job];
            v == match row.status
                 case Running => if e.stranded then w.(rows := w.rows[w.cycle.job := row.(status := Unsure)], stopped := true) else w
                 case Succeeded => w.(cycle := Feedback(w.cycle.id, w.cycle.steps))
                 case Failed => w.(cycle := Feedback(w.cycle.id, w.cycle.steps))
                 case _ => w.(stopped := true)
  {
  }

  /** A tick of a stopped runner does nothing; a blocked or interrupted submission stops paper; without
      market data nothing else happens. A reply is taken when there is one and a late one ends the cycle.
      A response without an action ends the cycle. New work waits for an open market and fresh data: then
      an old response is dropped, another acted on, and feedback or a due review submitted. */
  lemma TickLeaves(c: Limits, w: World, e: Env)
    requires w.doing.Rest?
    ensures var v := Tick(c, w, e);
            var ready := e.open && !e.stale;
              && (w.stopped ==> v == w)
              && (!w.stopped && (w.cycle.Blocked? || w.cycle.Submitting?) ==> v == w.(stopped := true))
              && (!w.stopped && !w.cycle.Blocked? && !w.cycle.Submitting? && e.noData ==> v == w)
              && (!w.stopped && !e.noData ==>
                    && (w.cycle.Workflow? ==>
                          v == match e.poll
                               case Waiting => w
                               case Late => w.(cycle := Idle)
                               case Said(action) => Tick(c, w.(cycle := Response(w.cycle.id, w.cycle.steps, action)), e))
                    && (w.cycle.Response? && w.cycle.action.None? ==> v == w.(cycle := Idle))
                    && (w.cycle.Response? && w.cycle.action.Some? ==>
                          v == if !ready then w else if e.tooOld then w.(cycle := Idle) else ActAll(c, w))
                    && (w.cycle.Feedback? || w.cycle.Idle? ==>
                          v == if ready && (w.cycle.Feedback? || e.due) then SubmitAll(c, w, e) else w)
                    && (w.cycle.Job? ==>
                          var u := Step(c, if e.stranded then Step(c, w, Strand) else w, Observe);
                          v == if u.cycle.Feedback? && ready then SubmitAll(c, u, e) else u))
  {
    hide SubmitAll, ActAll;
  }

  /** What happens outside a tick: paper is stopped and started, a raising step leaves the process at
      rest with what is on disk, and the operator, with the process down and paper stopped, frees the
      cycle and takes every running row for uncertain. */
  lemma OutsideLeaves(c: Limits, w: World)
    ensures Step(c, w, PaperStops) == w.(stopped := true) && Step(c, w, PaperStarts) == w.(stopped := false)
    ensures var starting := w.doing.Down? || w.doing.Recovering? || w.doing.WritingStop? || w.doing.WritingBlock?;
            Step(c, w, Abort) == if starting then w else w.(doing := Rest)
    ensures var halts := w.doing.Rest? && !w.stopped && (w.cycle.Blocked? || w.cycle.Submitting?);
            Step(c, w, TickBlocked) == if halts then w.(stopped := true) else w
    ensures var v := Step(c, w, OperatorReset);
            if w.doing.Down? && w.stopped then
              && v.cycle == Idle && v.stopped && v.doing.Down? && v.posted == w.posted && v.spawned == w.spawned && |v.rows| == |w.rows|
              && forall i :: 0 <= i < |w.rows| ==>
                   v.rows[i] == if !w.rows[i].gone && w.rows[i].status.Running? then w.rows[i].(status := Unsure) else w.rows[i]
            else v == w
  {
  }

  // ---------------------------------------------------------------- a tick that dies

  function RestMoves(w: World, e: Env): seq<Move> {
    if !e.open || e.stale then []
    else if w.cycle.Response? then (if e.tooOld then [Drop] else [Act, Spawn, PutJob])
    else if w.cycle.Feedback? || (w.cycle.Idle? && e.due) then [Submit, Post(e.answered), PutWorkflow]
    else []
  }

  function ReplyMoves(w: World, e: Env): seq<Move> {
    if w.cycle.Response? && w.cycle.action.None? then [Finish] else RestMoves(w, e)
  }

  function JobMoves(e: Env): seq<Move> {
    if e.stranded then [Strand, Observe] else [Observe]
  }

  /** The moves a tick makes, in order. */
  function TickMoves(c: Limits, w: World, e: Env): seq<Move> {
    if !Ticks(w) then []
    else if w.cycle.Blocked? || w.cycle.Submitting? then [TickBlocked]
    else if e.noData then []
    else if w.cycle.Job? then
      var u := Run(c, w, JobMoves(e));
      JobMoves(e) + if u.cycle.Feedback? then RestMoves(u, e) else []
    else if w.cycle.Workflow? then
      match e.poll
      case Waiting => []
      case Late => [Deadline]
      case Said(action) => [Reply(action)] + ReplyMoves(Step(c, w, Reply(action)), e)
    else ReplyMoves(w, e)
  }

  lemma OneMove(c: Limits, w: World, m: Move)
    ensures Run(c, w, [m]) == Step(c, w, m) && Run(c, w, []) == w
  {
    hide Step;
    assert [m][..0] == [];
  }

  lemma RestIsRun(c: Limits, w: World, e: Env)
    ensures Run(c, w, RestMoves(w, e)) == AtRest(c, w, e)
  {
    hide Step, Run;
    OneMove(c, w, Drop);
    ThreeMoves(c, w, Act, Spawn, PutJob);
    ThreeMoves(c, w, Submit, Post(e.answered), PutWorkflow);
  }

  lemma ReplyIsRun(c: Limits, w: World, e: Env)
    ensures Run(c, w, ReplyMoves(w, e)) == AfterReply(c, w, e)
  {
    hide Step, Run, AtRest, RestMoves;
    OneMove(c, w, Finish);
    RestIsRun(c, w, e);
  }

  lemma JobIsRun(c: Limits, w: World, e: Env)
    ensures Run(c, w, JobMoves(e)) == Step(c, if e.stranded then Step(c, w, Strand) else w, Observe)
  {
    hide Step, Run;
    OneMove(c, w, if e.stranded then Strand else Observe);
    OneMove(c, Step(c, w, Strand), Observe);
    RunAppends(c, w, [Strand], [Observe]);
    assert [Strand] + [Observe] == [Strand, Observe];
  }

  /** A tick is a run of the cycle's moves. A process that dies in a tick has made the first of these
      moves and then crashed, so all that holds of runs holds of such ticks. */
  lemma TickIsRun(c: Limits, w: World, e: Env)
    ensures Run(c, w, TickMoves(c, w, e)) == Tick(c, w, e)
  {
    hide Step, Run, AtRest, RestMoves, AfterReply, ReplyMoves, JobMoves;
    OneMove(c, w, TickBlocked);
    OneMove(c, w, Deadline);
    JobIsRun(c, w, e);
    var u := Run(c, w, JobMoves(e));
    RunAppends(c, w, JobMoves(e), if u.cycle.Feedback? then RestMoves(u, e) else []);
    RestIsRun(c, u, e);
    OneMove(c, u, Drop);
    ReplyIsRun(c, w, e);
    if e.poll.Said? {
      var m := Move.Reply(e.poll.action);
      OneMove(c, w, m);
      RunAppends(c, w, [m], ReplyMoves(Step(c, w, m), e));
      ReplyIsRun(c, Step(c, w, m), e);
    }
  }

  // ---------------------------------------------------------------- the job table

  class BitsStore {
    var rows: seq<Row>

    constructor (rows: seq<Row>)
      ensures this.rows == rows
    {
      this.rows := rows;
    }

    /** The row of an action, inserted when the key is free; an error when the key was used for
        something else. `created` says whether this call inserted it. */
    method Claim(key: Key, request: string) returns (r: Result<(nat, bool), string>)
      modifies this
      ensures match Lookup(old(rows), key)
              case None => rows == old(rows) + [Row(key, request, Running, false)] && r == Ok((|old(rows)|, true))
              case Some(i) => rows == old(rows) && i < |rows|
                              && r == if rows[i].request == request then Ok((i, false)) else Err("action_id_conflict")
    {
      LookupFinds(rows, key);
      match Lookup(rows, key) {
        case None =>
          rows := rows + [Row(key, request, Running, false)];
          r := Ok((|rows| - 1, true));
        case Some(i) =>
          r := if rows[i].request == request then Ok((i, false)) else Err("action_id_conflict");
      }
    }

    method Finish(job: nat, status: Status)
      requires job < |rows|
      modifies this
      ensures rows == old(rows)[job := old(rows)[job].(status := status)]
    {
      rows := rows[job := rows[job].(status := status)];
    }

    /** Marks every running row as uncertain and counts them. */
    method Recover() returns (interrupted: nat)
      modifies this
      ensures rows == MarkedTo(old(rows), |old(rows)|)
      ensures interrupted > 0 <==> AnyRunning(old(rows))
    {
      ghost var was := rows;
      interrupted := 0;
      var n := |rows|;
      for i := 0 to n
        invariant |rows| == n == |was| && rows == MarkedTo(was, i)
        invariant interrupted > 0 <==> AnyRunning(was[..i])
      {
        ghost var before := rows;
        if !rows[i].gone && rows[i].status.Running? {
          Finish(i, Unsure);
          interrupted := interrupted + 1;
        }
        assert rows == MarkedTo(was, i + 1);
      }
      assert was[..n] == was;
    }

    /** Deletes all but the newest `keep` terminal rows. */
    method PruneRows(keep: nat)
      modifies this
      ensures rows == Prune(old(rows), keep)
    {
      var total := Prunables(rows);
      if total > keep {
        rows := DropOldest(rows, total - keep);
      }
    }
  }

  // ---------------------------------------------------------------- the runner

  class BitsAgentRunner {
    const limits: Limits
    const store: BitsStore
    var cycle: Cycle
    var stopped: bool
    var workers: set<nat>
    var posted: seq<(nat, nat)>
    var spawned: seq<nat>
    var next: nat

    function View(): World
      reads this, store
    {
      World(cycle, store.rows, stopped, Rest, workers, posted, spawned, next)
    }

    /** A new process over the persisted state of `w`: rows beyond the horizon are deleted, running
        rows marked, and anything uncertain ends in a stop and a blocked cycle. */
    constructor (limits: Limits, w: World)
      requires w.doing.Down? && w.workers == {}
      ensures this.limits == limits && fresh(store)
      ensures var marked := MarkedTo(Prune(w.rows, limits.keep), |Prune(w.rows, limits.keep)|);
              var uncertain := AnyRunning(Prune(w.rows, limits.keep)) || w.cycle.Submitting?;
              View() == w.(rows := marked, doing := Rest, stopped := w.stopped || uncertain, cycle := if uncertain then Blocked else w.cycle)
      ensures View() == Run(limits, w, [Boot(true)] + RunningRows(Prune(w.rows, limits.keep)) + [BootDecide, BootStop, BootBlock])
    {
      this.limits, cycle, stopped, workers, posted, spawned, next := limits, w.cycle, w.stopped, {}, w.posted, w.spawned, w.next;
      store := new BitsStore(w.rows);
      new;
      hide Run, MarkedTo, Prune, AnyRunning;
      store.PruneRows(limits.keep);
      var interrupted := store.Recover();
      if interrupted > 0 || cycle.Submitting? {
        stopped := true;
        cycle := Blocked;
      }
      StartIsRun(limits, w);
      hide RunningRows;
    }

    method SubmitNow(e: Env)
      requires !stopped && (cycle.Idle? || cycle.Feedback?)
      modifies this
      ensures View() == SubmitAll(limits, old(View()), e)
    {
      var id, steps := next, 0;
      if cycle.Feedback? {
        id, steps := cycle.id, cycle.steps;
      } else {
        next := next + 1;
      }
      cycle := Submitting(id, steps);
      posted := posted + [(id, steps)];
      if e.answered {
        cycle := Workflow(id, steps);
      }
    }

    method ActNow()
      requires !stopped && cycle.Response? && cycle.action.Some?
      modifies this, store
      ensures View() == ActAll(limits, old(View()))
    {
      hide Lookup;
      if cycle.steps >= limits.maxSteps {
        cycle := Idle;
        return;
      }
      var claimed := store.Claim(Key(cycle.id, cycle.action.value.id), cycle.action.value.request);
      if claimed.Ok? {
        var (job, created) := claimed.value;
        if created {
          spawned, workers := spawned + [job], workers + {job};
        }
        cycle := Job(cycle.id, cycle.steps + 1, job);
      }
    }

    method WorkAtRest(e: Env)
      requires !stopped
      modifies this, store
      ensures View() == AtRest(limits, old(View()), e)
    {
      hide SubmitAll, ActAll;
      if !e.open || e.stale {
        return;
      }
      if cycle.Response? {
        if e.tooOld {
          if cycle.action.Some? {
            cycle := Idle;
          }
        } else if cycle.action.Some? {
          ActNow();
        } else {
          NothingToDo(limits, View());
        }
      } else if cycle.Feedback? || (cycle.Idle? && e.due) {
        SubmitNow(e);
      }
    }

    method FollowReply(e: Env)
      requires !stopped
      modifies this, store
      ensures View() == AfterReply(limits, old(View()), e)
    {
      hide AtRest;
      if cycle.Response? && cycle.action.None? {
        cycle := Idle;
        return;
      }
      WorkAtRest(e);
    }

    method RunTick(e: Env)
      modifies this, store
      ensures View() == Tick(limits, old(View()), e)
    {
      hide AtRest, AfterReply;
      if stopped {
        return;
      }
      if cycle.Blocked? || cycle.Submitting? {
        stopped := true;
        return;
      }
      if e.noData {
        return;
      }
      if cycle.Job? {
        WatchJob(e);
        hide Step;
        if cycle.Feedback? {
          WorkAtRest(e);
        }
      } else if cycle.Workflow? {
        match e.poll {
          case Waiting =>
          case Late => cycle := Idle;
          case Said(action) =>
            cycle := Response(cycle.id, cycle.steps, action);
            FollowReply(e);
        }
      } else {
        FollowReply(e);
      }
    }

    /** Looks at the job of the cycle: still running, stranded, uncertain or done. */
    method WatchJob(e: Env)
      requires !stopped && cycle.Job?
      modifies this, store
      ensures View() == Step(limits, if e.stranded then Step(limits, old(View()), Strand) else old(View()), Observe)
      ensures cycle.Feedback? ==> !stopped
    {
      var job := cycle.job;
      if job >= |store.rows| || store.rows[job].gone {
        return;
      }
      var status := store.rows[job].status;
      if status.Running? {
        if e.stranded {
          store.Finish(job, Unsure);
          stopped := true;
        }
      } else if status.Unsure? || status.Cancelled? || status.TimedOut? {
        stopped := true;
      } else {
        cycle := Feedback(cycle.id, cycle.steps);
      }
    }
  }

  lemma NothingToDo(c: Limits, w: World)
    requires w.cycle.Response? && w.cycle.action.None? && w.doing.Rest?
    ensures ActAll(c, w) == w
  {
  }

  lemma StartIsRun(c: Limits, w: World)
    requires w.doing.Down? && w.workers == {}
    ensures var rows := Prune(w.rows, c.keep);
            var uncertain := AnyRunning(rows) || w.cycle.Submitting?;
            Run(c, w, [Boot(true)] + RunningRows(rows) + [BootDecide, BootStop, BootBlock])
            == w.(rows := MarkedTo(rows, |rows|), doing := Rest, stopped := w.stopped || uncertain, cycle := if uncertain then Blocked else w.cycle)
  {
    hide Prune, AnyRunning, MarkedTo, RunningRows;
    var rows := Prune(w.rows, c.keep);
    var booted := w.(rows := rows, doing := Recovering(false));
    var last := [BootDecide, BootStop, BootBlock];
    RunAppends(c, w, [Boot(true)] + RunningRows(rows), last);
    RunAppends(c, w, [Boot(true)], RunningRows(rows));
    assert rows[..|rows|] == rows;
    RecoveryMarks(c, booted, |rows|);
    NoneLeftRunning(rows);
    var u := booted.(rows := MarkedTo(rows, |rows|), doing := Recovering(AnyRunning(rows)));
    ThreeMoves(c, u, BootDecide, BootStop, BootBlock);
    hide Run;
  }

  // ---------------------------------------------------------------- the risk monitor

  const MONITOR_FAILURE_LIMIT := 3

  /** The counter that is tested, the one that a success resets, and the stop. */
  datatype Monitor = Monitor(tested: nat, reset: nat, stopped: bool)

  function MonitorOnce(m: Monitor, ok: bool): Monitor {
    var n := if ok then m.(reset := 0) else m.(tested := m.tested + 1);
    n.(stopped := n.stopped || n.tested >= MONITOR_FAILURE_LIMIT)
  }

  function Watch(outcomes: seq<bool>): Monitor {
    if outcomes == [] then Monitor(0, 0, false) else MonitorOnce(Watch(outcomes[..|outcomes| - 1]), outcomes[|outcomes| - 1])
  }

  function Failures(outcomes: seq<bool>): nat {
    if outcomes == [] then 0 else Failures(outcomes[..|outcomes| - 1]) + if outcomes[|outcomes| - 1] then 0 else 1
  }

  /** The monitor stops paper exactly when three of its cycles have failed since the process began, in
      a row or not: a success resets a counter that nothing tests. */
  lemma {:induction false} MonitorCountsAllFailures(outcomes: seq<bool>)
    ensures Watch(outcomes).stopped <==> Failures(outcomes) >= 3
    ensures Watch(outcomes).tested == Failures(outcomes) && Watch(outcomes).reset == 0
  {
    if outcomes != [] {
      MonitorCountsAllFailures(outcomes[..|outcomes| - 1]);
    }
  }

  ghost predicate ThreeInARow(outcomes: seq<bool>) {
    exists i :: 0 <= i < |outcomes| - 2 && !outcomes[i] && !outcomes[i + 1] && !outcomes[i + 2]
  }

  /** So it is not three failures in a row that it waits for. */
  lemma ScatteredFailuresStop()
    ensures exists outcomes :: Watch(outcomes).stopped && !ThreeInARow(outcomes)
  {
    var outcomes := [false, true, false, true, false];
    assert outcomes[..4] == [false, true, false, true] && outcomes[..4][..3] == [false, true, false];
    assert [false, true, false][..2] == [false, true] && [false, true][..1] == [false] && [false][..0] == [];
    assert Failures([false]) == 1 && Failures([false, true]) == 1 && Failures([false, true, false]) == 2;
    assert Failures([false, true, false, true]) == 2;
    assert Failures(outcomes) == 3;
    MonitorCountsAllFailures(outcomes);
  }

  /** Three in a row are enough, whatever came before. */
  lemma ThreeInARowStop(outcomes: seq<bool>, i: nat)
    requires i < |outcomes| - 2 && !outcomes[i] && !outcomes[i + 1] && !outcomes[i + 2]
    ensures Watch(outcomes).stopped
  {
    MonitorCountsAllFailures(outcomes);
    FailuresGrow(outcomes, i + 3);
    assert outcomes[..i + 3][..i + 2] == outcomes[..i + 2] && outcomes[..i + 2][..i + 1] == outcomes[..i + 1] && outcomes[..i + 1][..i] == outcomes[..i];
    assert Failures(outcomes[..i + 1]) >= 1 && Failures(outcomes[..i + 2]) >= 2;
  }

  lemma {:induction false} FailuresGrow(outcomes: seq<bool>, n: nat)
    requires n <= |outcomes|
    ensures Failures(outcomes[..n]) <= Failures(outcomes)
  {
    if n < |outcomes| {
      FailuresGrow(outcomes[..|outcomes| - 1], n);
      assert outcomes[..|outcomes| - 1][..n] == outcomes[..n];
    } else {
      assert outcomes[..n] == outcomes;
    }
  }
}
