/** Lock-step and at-most-once over every run of the coordinated demo account. */
module LockstepLaws {
  import opened Prelude
  import opened DemoOrders
  import opened DemoLaws
  import opened DemoAdapter
  import opened DemoLockstep

  // ---------------------------------------------------------------- sums under single changes

  lemma {:induction false} SameFills(a: map<Id, Record>, b: map<Id, Record>, order: seq<Id>)
    requires forall id :: id in order ==> id in a && id in b && FillOf(a[id]) == FillOf(b[id])
    ensures NetTotal(a, order) == NetTotal(b, order)
  {
    hide FillOf;
    if order != [] {
      assert order[|order| - 1] in order;
      SameFills(a, b, order[..|order| - 1]);
    }
  }

  lemma {:induction false} OneFillChanges(rows: map<Id, Record>, order: seq<Id>, id: Id, r: Record)
    requires id in order && Distinct(order) && (forall x :: x in order ==> x in rows)
    ensures NetTotal(rows[id := r], order) == NetTotal(rows, order) - FillOf(rows[id]) + FillOf(r)
  {
    hide FillOf;
    var front := order[..|order| - 1];
    assert order == front + [order[|order| - 1]];
    if order[|order| - 1] == id {
      assert id !in front;
      SameFills(rows, rows[id := r], front);
    } else {
      OneFillChanges(rows, front, id, r);
    }
  }

  lemma SettlingKeepsTotal(s: Store, n: nat)
    requires Indexed(s) && n <= |s.order|
    ensures Indexed(SettledTo(s, n)) && NetTotal(SettledTo(s, n).rows, s.order) == NetTotal(s.rows, s.order)
    ensures forall id :: id in SettledTo(s, n).rows <==> id in s.rows
    ensures Indexed(Settled(s)) && NetTotal(Settled(s).rows, s.order) == NetTotal(s.rows, s.order)
    ensures forall id :: id in Settled(s).rows <==> id in s.rows
  {
    SameFills(SettledTo(s, n).rows, s.rows, s.order);
    SameFills(Settled(s).rows, s.rows, s.order);
  }

  // ---------------------------------------------------------------- what each move keeps

  /** A decision that paper accepted before and the desk has no record of. */
  ghost predicate Orphan(l: Lab, decision: Decision) {
    decision.id in l.paper.answers && l.paper.answers[decision.id] && decision.id !in l.desk.store.rows
  }

  /** The move that puts an acceptance on file. */
  predicate RecordsFill(l: Lab, m: Move) {
    && l.phase.Executing? && l.desk.flight.Held? && l.desk.flight.outcome.Accepted?
    && (m.DeskStep? || (m.AdapterRaises? && m.committed))
  }

  /** Every move but two: a fill goes on file for an order that paper did not move for, and an
      exception ends a cycle while its order is owed. */
  ghost predicate Ordinary(l: Lab, m: Move) {
    && (RecordsFill(l, m) ==> l.phase.owed)
    && (m.CycleRaises? && !l.phase.Executing? ==> !Owing(l.phase))
  }

  lemma DecideKeeps(c: Setup, l: Lab, m: Move)
    requires SetupOk(c) && m.Decide? && LockStep(c, l)
    ensures LockStep(c, Step(c, l, m))
  {
    if OrderOf(c, m.decision).Some? {
      OrderMoves(c, l.paper.position, m.decision);
    }
    assert l.paper.position + 0.0 == l.paper.position;
    hide Indexed, NetTotal, PaperVolume, SignedQuantity;
  }

  /** The order carries exactly what the paper position moves by. */
  lemma OrderMoves(c: Setup, position: real, decision: Decision)
    requires SetupOk(c) && OrderOf(c, decision).Some?
    ensures var order := OrderOf(c, decision).value;
            && order.id == decision.id && order.side == decision.side && order.volume > 0
            && PaperVolume(c, position + SignedQuantity(decision.side, decision.quantity)) == PaperVolume(c, position) + Signed(order.side, order.volume) as real
  {
    var f, q := c.factor as real, SignedQuantity(decision.side, decision.quantity);
    assert (position + q) * f == position * f + q * f;
    assert q == -decision.quantity ==> q * f == -(decision.quantity * f);
  }

  lemma ReservedTotal(s: Store, id: Id, request: Request)
    requires Indexed(s) && id !in s.rows
    ensures var t := Reserve(s, id, request); Indexed(t) && NetTotal(t.rows, t.order) == NetTotal(s.rows, s.order)
  {
    var t := Reserve(s, id, request);
    assert t.order[..|t.order| - 1] == s.order;
    assert id !in s.order;
    SameFills(t.rows, s.rows, s.order);
  }

  /** Opening moves no fill; an answer given at once leaves the rows alone. */
  ghost predicate OpenOk(c: Setup, d: Desk, order: Order, e: Desk, answer: Option<Answer>)
    requires Indexed(d.store)
  {
    && Indexed(e.store) && NetTotal(e.store.rows, e.store.order) == NetTotal(d.store.rows, d.store.order)
    && (answer.Some? ==> e.flight.Idle? && e.store.rows == d.store.rows && (answer.value.IsAccepted() ==> order.id in d.store.rows))
    && (answer.None? ==> (&& e.flight == Reserved(order) && order.id !in d.store.rows && order.id in e.store.rows
                          && (forall id :: id in e.store.rows <==> id in d.store.rows || id == order.id)
                          && FillOf(e.store.rows[order.id]) == 0
                          && e.store.rows[order.id].request.side == order.side
                          && e.store.rows[order.id].BrokerKey(order.id) == c.key(order.id)))
  }

  lemma OpenReserves(c: Setup, d: Desk, order: Order)
    requires Indexed(d.store) && d.flight.Idle? && Open(c.account, c.key, d, order).1.None?
    ensures OpenOk(c, d, order, Open(c.account, c.key, d, order).0, None)
  {
    hide Collides;
    var request := Request(c.account.accountId, c.account.symbolId, order.side, order.volume, Some(c.key(order.id)));
    ReservedTotal(d.store, order.id, request);
    hide Indexed, NetTotal;
  }

  lemma OpenRefuses(c: Setup, d: Desk, order: Order)
    requires Indexed(d.store) && d.flight.Idle? && Open(c.account, c.key, d, order).1.Some?
    ensures var (e, answer) := Open(c.account, c.key, d, order); OpenOk(c, d, order, e, answer)
  {
    hide Collides, NetTotal, FillOf;
    StopIndexed(d.store);
    hide Indexed;
  }

  lemma OpenEffect(c: Setup, d: Desk, order: Order)
    requires Indexed(d.store) && d.flight.Idle?
    ensures var (e, answer) := Open(c.account, c.key, d, order); OpenOk(c, d, order, e, answer)
  {
    if Open(c.account, c.key, d, order).1.None? {
      OpenReserves(c, d, order);
    } else {
      OpenRefuses(c, d, order);
    }
    hide OpenOk, Open;
  }

  lemma OpenKeeps(c: Setup, l: Lab)
    requires SetupOk(c) && LockStep(c, l)
    ensures LockStep(c, Step(c, l, DeskOpen))
  {
    hide Indexed, NetTotal, Signed, PaperVolume, Open, FillOf;
    if l.phase.Papered? && l.desk.flight.Idle? {
      var (desk, answer) := Open(c.account, c.key, l.desk, l.phase.order);
      OpenEffect(c, l.desk, l.phase.order);
      var m := Step(c, l, DeskOpen);
      assert m.desk == desk && m.phase.owed == l.phase.owed;
      assert Known(m);
      assert InStep(c, m);
      assert l.running ==> Even(c, m);
    }
  }

  /** Putting an outcome on file turns what was owed into a fill, exactly when it is an acceptance. */
  lemma RecordedMeaning(c: Setup, l: Lab, accepted: bool)
    requires SetupOk(c) && LockStep(c, l) && l.phase.Executing? && l.desk.flight.Held? && (accepted ==> l.desk.flight.outcome.Accepted?)
    ensures var r := Recorded(l, accepted);
            && Indexed(r.desk.store) && Known(r) && InStep(c, r)
            && (l.running ==> (Even(c, r) <==> (l.desk.flight.outcome.Accepted? ==> l.phase.owed)))
  {
    hide NetTotal, PaperVolume;
    var id := l.phase.order.id;
    var s := l.desk.store;
    var r := s.rows[id].(outcome := Some(l.desk.flight.outcome));
    OneFillChanges(s.rows, s.order, id, r);
    FinishIndexed(s, id, l.desk.flight.outcome);
    hide Indexed;
  }

  lemma DeskStepKeeps(c: Setup, l: Lab, reply: Reply)
    requires SetupOk(c) && LockStep(c, l) && Ordinary(l, DeskStep(reply))
    ensures LockStep(c, Step(c, l, DeskStep(reply)))
  {
    if l.phase.Executing? && l.desk.flight.Held? {
      RecordedMeaning(c, l, l.desk.flight.outcome.Accepted?);
      hide Recorded, Even, InStep, Known, Indexed;
    } else {
      hide Indexed, NetTotal, PaperVolume, FillOf, Signed;
    }
  }

  /** An adapter that raises has at most reserved the order or recorded its outcome. */
  lemma RaisesAtOpenKeeps(c: Setup, l: Lab, committed: bool)
    requires SetupOk(c) && LockStep(c, l) && l.phase.Papered?
    ensures LockStep(c, Step(c, l, AdapterRaises(committed)))
  {
    hide Indexed, NetTotal, Signed, PaperVolume, Open, FillOf;
    var (desk, answer) := Open(c.account, c.key, l.desk, l.phase.order);
    OpenEffect(c, l.desk, l.phase.order);
    var m := Step(c, l, AdapterRaises(committed));
    assert m.desk == (if committed then desk else l.desk).(flight := Idle) && m.phase.owed == l.phase.owed;
    assert Known(m);
    assert InStep(c, m);
    assert l.running ==> Even(c, m);
  }

  lemma AdapterRaisesKeeps(c: Setup, l: Lab, committed: bool)
    requires SetupOk(c) && LockStep(c, l) && Ordinary(l, AdapterRaises(committed))
    ensures LockStep(c, Step(c, l, AdapterRaises(committed)))
  {
    if l.phase.Papered? {
      RaisesAtOpenKeeps(c, l, committed);
      hide LockStep;
    } else if l.phase.Executing? && l.desk.flight.Held? && committed {
      RecordedMeaning(c, l, false);
      hide Recorded, Even, InStep, Known, Indexed;
    } else {
      hide Indexed, NetTotal, PaperVolume, FillOf, Signed;
    }
  }

  lemma FinishIndexed(s: Store, id: Id, outcome: Outcome)
    requires Indexed(s) && id in s.rows
    ensures Indexed(Finish(s, id, outcome))
  {
  }

  lemma ReconciledTotal(c: Setup, s: Store, snapshot: Option<Snapshot>, position: real)
    requires SetupOk(c) && Indexed(s) && Reconcilable(c.account, s, snapshot, Expected(c.factor, position))
    ensures Indexed(Settled(s)) && PaperVolume(c, position) == NetTotal(Settled(s).rows, s.order) as real
  {
    hide ExposureAgrees, AllRejected, Unambiguous, Settled, NetTotal, Indexed;
    AgreementTotals(c.account, Settled(s), snapshot.value, Expected(c.factor, position).value);
    SettledOrder(s);
  }

  lemma SettledOrder(s: Store)
    ensures Settled(s).order == s.order && Settled(s).reconciled == s.reconciled
  {
  }

  lemma MarkIndexed(s: Store)
    requires Indexed(s)
    ensures Indexed(s.(reconciled := true))
  {
  }

  /** A reconciliation touches no fill; a successful one means the fills are the paper volume. */
  lemma ReconciliationMeaning(c: Setup, s: Store, snapshot: Option<Snapshot>, position: real, n: nat)
    requires SetupOk(c) && Indexed(s)
    ensures var t := Reconciliation(c, s, snapshot, position, n);
            && Indexed(t) && (forall id :: id in t.rows <==> id in s.rows) && NetTotal(t.rows, t.order) == NetTotal(s.rows, s.order)
            && (t.reconciled ==> PaperVolume(c, position) == NetTotal(t.rows, t.order) as real)
  {
    if n <= |s.order| {
      SettlingKeepsTotal(s, n);
    }
    SettlingKeepsTotal(s, 0);
    MarkIndexed(Settled(s));
    if Reconcilable(c.account, s, snapshot, Expected(c.factor, position)) {
      ReconciledTotal(c, s, snapshot, position);
    }
    hide Reconcilable, SettledTo, Settled, NetTotal, PaperVolume, Indexed, Expected;
    StopIndexed(s);
    if n <= |s.order| {
      StopIndexed(SettledTo(s, n));
    }
  }

  lemma ReconciliationKeeps(c: Setup, l: Lab, snapshot: Option<Snapshot>, n: nat)
    requires SetupOk(c) && LockStep(c, l)
    ensures LockStep(c, Step(c, l, Reconcile(snapshot, n)))
  {
    ReconciliationMeaning(c, l.desk.store, snapshot, l.paper.position, n);
    hide Indexed, Reconciliation, NetTotal, Signed, FillOf, PaperVolume;
  }

  /** A successful start-up finds both sides even. */
  lemma StartupKeeps(c: Setup, l: Lab, snapshot: Option<Snapshot>, n: nat)
    requires SetupOk(c) && LockStep(c, l)
    ensures LockStep(c, Step(c, l, StartRunner(snapshot, n)))
  {
    ReconciliationMeaning(c, l.desk.store, snapshot, l.paper.position, n);
    HaltIndexed(Reconciliation(c, l.desk.store, snapshot, l.paper.position, n));
    hide Indexed, Reconciliation, NetTotal, FillOf, PaperVolume, Signed;
  }

  lemma HaltIndexed(s: Store)
    requires Indexed(s)
    ensures Indexed(Halt(s, "startup_reconciliation_failed"))
    ensures Indexed(s.(stopped := false, reason := AUTOMATION))
  {
  }

  lemma StopIndexed(s: Store)
    requires Indexed(s)
    ensures forall reason :: Indexed(Halt(s, reason)) && Indexed(s.(stopped := false, reason := reason))
  {
  }

  lemma SettleOneKeeps(c: Setup, l: Lab, id: Id)
    requires SetupOk(c) && LockStep(c, l)
    ensures LockStep(c, Step(c, l, SettleOne(id)))
  {
    var s := l.desk.store;
    if id in s.rows && !s.rows[id].Completed() {
      OneFillChanges(s.rows, s.order, id, s.rows[id].(outcome := Some(Rejected)));
      FinishIndexed(s, id, Rejected);
    }
    hide Indexed, NetTotal, PaperVolume, Signed;
  }

  lemma OtherMovesKeep(c: Setup, l: Lab, m: Move)
    requires SetupOk(c) && LockStep(c, l) && Ordinary(l, m)
    requires !m.Decide? && !m.DeskOpen? && !m.DeskStep? && !m.AdapterRaises? && !m.SettleOne? && !m.Reconcile? && !m.StartRunner?
    ensures LockStep(c, Step(c, l, m))
  {
    StopIndexed(l.desk.store);
    hide Indexed, NetTotal, FillOf, Signed, PaperVolume;
  }

  lemma StepKeepsLockStep(c: Setup, l: Lab, m: Move)
    requires SetupOk(c) && LockStep(c, l) && Ordinary(l, m)
    ensures LockStep(c, Step(c, l, m))
  {
    hide LockStep, Ordinary;
    match m
    case Decide(decision, gate) => DecideKeeps(c, l, m);
    case DeskOpen => OpenKeeps(c, l);
    case DeskStep(reply) => DeskStepKeeps(c, l, reply);
    case AdapterRaises(committed) => AdapterRaisesKeeps(c, l, committed);
    case SettleOne(id) => SettleOneKeeps(c, l, id);
    case Reconcile(snapshot, n) => ReconciliationKeeps(c, l, snapshot, n);
    case StartRunner(snapshot, n) => StartupKeeps(c, l, snapshot, n);
    case _ => OtherMovesKeep(c, l, m);
  }

  /** The two excluded moves are exactly the ones that put the sides apart: of a runner that is in
      lock-step and goes on, a move keeps lock-step if and only if it is neither of them. */
  lemma OrdinaryIsExact(c: Setup, l: Lab, m: Move)
    requires SetupOk(c) && LockStep(c, l) && l.running
    ensures Step(c, l, m).running ==> (LockStep(c, Step(c, l, m)) <==> Ordinary(l, m))
  {
    if Ordinary(l, m) {
      StepKeepsLockStep(c, l, m);
    } else if m.CycleRaises? {
      hide Indexed, NetTotal, PaperVolume;
    } else {
      RecordedMeaning(c, l, if m.DeskStep? then l.desk.flight.outcome.Accepted? else false);
      hide Recorded, Even, InStep, Known, Indexed;
    }
  }

  /** A crash takes the runner down and leaves both switches as they are; the sides are then even
      exactly when nothing was owed. */
  lemma CrashLeavesTheDebt(c: Setup, l: Lab)
    requires SetupOk(c) && LockStep(c, l) && l.running
    ensures var r := Step(c, l, Move.Crash);
            && !r.running && r.phase.Quiet? && r.paper == l.paper && r.desk.store == l.desk.store
            && (Even(c, r) <==> !Owing(l.phase))
  {
    hide NetTotal, PaperVolume;
  }

  // ---------------------------------------------------------------- whole runs

  ghost predicate AllOrdinary(c: Setup, l: Lab, ms: seq<Move>)
    requires SetupOk(c)
  {
    ms == [] || (AllOrdinary(c, l, ms[..|ms| - 1]) && Ordinary(History(c, l, ms[..|ms| - 1]), ms[|ms| - 1]))
  }

  /** Lock-step exposure. Whatever the decisions, replies, losses, crashes, stops, starts and
      reconciliations, whenever the runner is running and no execution is under way, the paper
      position in broker volume is the net of all accepted fills. */
  lemma {:induction false} LockStepExposure(c: Setup, l: Lab, ms: seq<Move>)
    requires SetupOk(c) && LockStep(c, l) && AllOrdinary(c, l, ms)
    ensures LockStep(c, History(c, l, ms))
    ensures var r := History(c, l, ms);
            r.running && r.phase.Quiet? ==> PaperVolume(c, r.paper.position) == NetTotal(r.desk.store.rows, r.desk.store.order) as real
  {
    if ms != [] {
      LockStepExposure(c, l, ms[..|ms| - 1]);
      StepKeepsLockStep(c, History(c, l, ms[..|ms| - 1]), ms[|ms| - 1]);
    }
    hide Step, NetTotal, PaperVolume, Known, InStep, AllOrdinary;
  }

  /** A desk without orders, a runner that has not started, and any paper account. */
  lemma FreshLabIsInLockStep(c: Setup, paper: Paper)
    ensures LockStep(c, Lab(paper, Desk(FRESH, [], Idle), Quiet, false))
  {
  }

  ghost predicate SameRequests(s: Store, t: Store) {
    && t.order == s.order && (forall id :: id in t.rows <==> id in s.rows)
    && (forall id :: id in s.rows && id in t.rows ==> t.rows[id].request == s.rows[id].request)
  }

  /** Sending depends on which records exist and on their broker keys only. */
  lemma RewritingKeepsOnce(c: Setup, d: Desk, t: Store)
    requires OnceOnly(c.key, d) && SameRequests(d.store, t)
    ensures OnceOnly(c.key, d.(store := t))
  {
  }

  lemma ReconciliationSameRequests(c: Setup, s: Store, snapshot: Option<Snapshot>, position: real, n: nat)
    requires SetupOk(c)
    ensures SameRequests(s, Reconciliation(c, s, snapshot, position, n))
  {
    hide Reconcilable;
  }

  lemma StepSendsOnce(c: Setup, l: Lab, m: Move)
    requires SetupOk(c) && OnceOnly(c.key, l.desk)
    ensures OnceOnly(c.key, Step(c, l, m).desk)
  {
    if m.DeskOpen? {
      if l.phase.Papered? && l.desk.flight.Idle? {
        OpenKeepsOnce(c.account, c.key, l.desk, l.phase.order);
      }
      hide Open, OnceOnly;
    } else if m.Reconcile? || m.StartRunner? {
      var t := Reconciliation(c, l.desk.store, m.snapshot, l.paper.position, m.n);
      ReconciliationSameRequests(c, l.desk.store, m.snapshot, l.paper.position, m.n);
      RewritingKeepsOnce(c, l.desk, t);
      RewritingKeepsOnce(c, l.desk, Halt(t, "startup_reconciliation_failed"));
      RewritingKeepsOnce(c, l.desk, t.(stopped := false, reason := AUTOMATION));
      hide OnceOnly, Reconciliation;
    } else if m.AdapterRaises? {
      RaisesSendsOnce(c, l, m.committed);
    } else {
      var e := match m
        case DeskStep(reply) => if l.desk.flight.Reserved? then SendOrder(reply) else if l.desk.flight.Sent? then HoldOrder else CloseOrder
        case StopDemo => StopSwitch(FAILED)
        case RunnerQuits(reason) => StopSwitch(reason)
        case OperatorStopsDemo(reason) => StopSwitch(reason)
        case OperatorStartsDemo(reason) => StartSwitch(reason)
        case SettleOne(id) => ResolvePending(id)
        case _ => DemoLaws.Event.Crash;
      StepKeepsOnce(c.account, c.key, l.desk, e);
      hide OnceOnly, Open, Startup, Reconciliation, Send, Hold, Close;
    }
  }

  lemma RaisesSendsOnce(c: Setup, l: Lab, committed: bool)
    requires SetupOk(c) && OnceOnly(c.key, l.desk)
    ensures OnceOnly(c.key, Step(c, l, AdapterRaises(committed)).desk)
  {
    hide OnceOnly;
    StepKeepsOnce(c.account, c.key, l.desk, DemoLaws.Event.Crash);
    StepKeepsOnce(c.account, c.key, l.desk, CloseOrder);
    if l.phase.Papered? && l.desk.flight.Idle? {
      OpenKeepsOnce(c.account, c.key, l.desk, l.phase.order);
      StepKeepsOnce(c.account, c.key, Open(c.account, c.key, l.desk, l.phase.order).0, DemoLaws.Event.Crash);
    }
    hide Open, Close;
  }

  /** At most once, over every run of the whole machine, orphan replays and lost stops included. */
  lemma {:induction false} EveryOrderOnce(c: Setup, l: Lab, ms: seq<Move>)
    requires SetupOk(c) && OnceOnly(c.key, l.desk)
    ensures OnceOnly(c.key, History(c, l, ms).desk)
  {
    if ms != [] {
      EveryOrderOnce(c, l, ms[..|ms| - 1]);
      StepSendsOnce(c, History(c, l, ms[..|ms| - 1]), ms[|ms| - 1]);
    }
    hide OnceOnly, Step;
  }
}
