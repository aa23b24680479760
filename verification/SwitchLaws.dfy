/** The two kill switches: what lifts them, and what a stopped side still does. */
module SwitchLaws {
  import opened Prelude
  import opened DemoOrders
  import opened DemoLaws
  import opened DemoAdapter
  import opened DemoLockstep

  /** A stop that only an operator may lift: any but the one of a fresh account. */
  predicate MustHold(stopped: bool, reason: string) { stopped && reason != "missing_state" }

  predicate PaperHeld(l: Lab) { MustHold(l.paper.stopped, l.paper.reason) }

  predicate DemoHeld(l: Lab) { MustHold(l.desk.store.stopped, l.desk.store.reason) }

  /** A start-up never touches anything while either switch must hold. Otherwise it ends running
      exactly when the reconciliation succeeds, and then both switches run and the demo side is
      reconciled; else both are stopped for good. */
  lemma StartupMeaning(c: Setup, l: Lab, snapshot: Option<Snapshot>, n: nat)
    requires SetupOk(c) && Indexed(l.desk.store) && !l.running && l.phase.Quiet? && l.desk.flight.Idle?
    ensures var r := Step(c, l, StartRunner(snapshot, n));
            var sound := Reconcilable(c.account, l.desk.store, snapshot, Expected(c.factor, l.paper.position));
            && (PaperHeld(l) || DemoHeld(l) ==> r == l)
            && (!PaperHeld(l) && !DemoHeld(l) && sound ==> r.running && !r.paper.stopped && !r.desk.store.stopped && r.desk.store.reconciled)
            && (!PaperHeld(l) && !DemoHeld(l) && !sound ==> !r.running && PaperHeld(r) && DemoHeld(r) && !r.desk.store.reconciled)
            && r.paper.position == l.paper.position && r.paper.answers == l.paper.answers && r.desk.wire == l.desk.wire
  {
    hide Reconcilable, Expected;
  }

  /** Moves that start the paper switch, or stop it in the name of a fresh account. */
  predicate LiftsPaper(m: Move) {
    m.OperatorStartsPaper? || ((m.OperatorStopsPaper? || m.RunnerQuits?) && m.reason == "missing_state")
  }

  predicate LiftsDemo(m: Move) {
    m.OperatorStartsDemo? || ((m.OperatorStopsDemo? || m.RunnerQuits?) && m.reason == "missing_state")
  }

  lemma PaperStepHolds(c: Setup, l: Lab, m: Move)
    requires SetupOk(c) && PaperHeld(l) && !LiftsPaper(m)
    ensures var r := Step(c, l, m); PaperHeld(r) && r.paper.position == l.paper.position
  {
    hide OrderOf, Reconciliation, DemoLaws.Next, Open, Close, Send, Hold;
    assert l.paper.position + 0.0 == l.paper.position;
  }

  /** The paper switch holds. Whatever happens, restarts included, a stop for any reason but that of a
      fresh account stays until an operator starts paper, and until then the position never moves. */
  lemma {:induction false} PaperStopHolds(c: Setup, l: Lab, ms: seq<Move>)
    requires SetupOk(c) && PaperHeld(l) && forall i :: 0 <= i < |ms| ==> !LiftsPaper(ms[i])
    ensures var r := History(c, l, ms); PaperHeld(r) && r.paper.position == l.paper.position
  {
    hide Step, PaperHeld, LiftsPaper;
    if ms != [] {
      PaperStopHolds(c, l, ms[..|ms| - 1]);
      PaperStepHolds(c, History(c, l, ms[..|ms| - 1]), ms[|ms| - 1]);
    }
  }

  lemma DemoStepHolds(c: Setup, l: Lab, m: Move)
    requires SetupOk(c) && DemoHeld(l) && (l.desk.flight.Idle? || !l.phase.Executing?) && !LiftsDemo(m)
    ensures var r := Step(c, l, m); DemoHeld(r) && r.desk.wire == l.desk.wire && (r.desk.flight.Idle? || !r.phase.Executing?)
  {
    hide OrderOf, Evaluate, Collides, Reconcilable;
  }

  /** The demo switch holds likewise, and until an operator starts execution nothing is sent. */
  lemma {:induction false} DemoStopHolds(c: Setup, l: Lab, ms: seq<Move>)
    requires SetupOk(c) && DemoHeld(l) && l.desk.flight.Idle? && forall i :: 0 <= i < |ms| ==> !LiftsDemo(ms[i])
    ensures var r := History(c, l, ms); DemoHeld(r) && r.desk.wire == l.desk.wire && (r.desk.flight.Idle? || !r.phase.Executing?)
  {
    hide Step, DemoHeld, LiftsDemo;
    if ms != [] {
      DemoStopHolds(c, l, ms[..|ms| - 1]);
      DemoStepHolds(c, History(c, l, ms[..|ms| - 1]), ms[|ms| - 1]);
    }
  }

  /** Stops and starts by hand, and the runner's own end: a stop takes its reason at once, and of the demo
      side also the reconciliation; a start of the demo side needs one; a runner that gives up stops both. */
  lemma SwitchesMove(c: Setup, l: Lab, reason: string)
    requires SetupOk(c)
    ensures Step(c, l, OperatorStopsPaper(reason)) == l.(paper := Paper(l.paper.position, l.paper.answers, true, reason))
    ensures Step(c, l, OperatorStartsPaper(reason)) == l.(paper := Paper(l.paper.position, l.paper.answers, false, reason))
    ensures var r := Step(c, l, OperatorStopsDemo(reason));
            r.paper == l.paper && r.desk.store.stopped && r.desk.store.reason == reason && !r.desk.store.reconciled && r.desk.wire == l.desk.wire
    ensures var r := Step(c, l, OperatorStartsDemo(reason));
            r.paper == l.paper && (r.desk.store.stopped <==> l.desk.store.stopped && !l.desk.store.reconciled)
    ensures var r := Step(c, l, RunnerQuits(reason));
            l.phase.Quiet? ==> !r.running && r.paper.stopped && r.paper.reason == reason
                               && r.desk.store.stopped && r.desk.store.reason == reason && !r.desk.store.reconciled
  {
  }

  /** Reconciliations and settlements wait for the order in flight; a settlement records a rejection for a
      request that is pending or unknown, and touches nothing else. */
  lemma SettlingWaits(c: Setup, l: Lab, id: Id, snapshot: Option<Snapshot>, n: nat, order: Order)
    requires SetupOk(c)
    ensures !l.desk.flight.Idle? ==>
              Step(c, l, SettleOne(id)) == l && Step(c, l, Reconcile(snapshot, n)) == l
              && DemoLaws.Next(c.account, c.key, l.desk, OpenOrder(order)) == l.desk
    ensures var r := Step(c, l, SettleOne(id));
            l.desk.flight.Idle? && id in l.desk.store.rows
            && (l.desk.store.rows[id].outcome == None || l.desk.store.rows[id].outcome == Some(Unknown)) ==>
              r.paper == l.paper && r.desk.store.rows == l.desk.store.rows[id := l.desk.store.rows[id].(outcome := Some(Rejected))]
              && r.desk.store.order == l.desk.store.order && r.desk.wire == l.desk.wire
  {
  }
}
