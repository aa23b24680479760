/** One coordinated execution, where lock-step ends, and the coordinator and runner as objects. */
module DemoRunner {
  import opened Prelude
  import opened DemoOrders
  import opened DemoLaws
  import opened DemoAdapter
  import opened DemoLockstep
  import opened LockstepLaws

  // ---------------------------------------------------------------- one execution

  /** Where the coordinator raises out of the cycle: when paper has committed, at the audit or the first
      stop, or between the two stops. */
  datatype CycleRaising = Nowhere | AfterPaper | BeforeStops | BetweenStops

  datatype Fault = Fault(adapter: Raising, cycle: CycleRaising)

  const SOUND := Fault(Never, Nowhere)

  datatype Result = NotTaken | PaperRefused | DemoRefused | Traded | Raised

  ghost function Coordinate(c: Setup, l: Lab, decision: Decision, gate: bool, reply: Reply, f: Fault): Lab
    requires SetupOk(c)
  {
    History(c, l, [Decide(decision, gate), SecondMove(f), ThirdMove(f, reply), FourthMove(f, reply), FifthMove(f, reply),
                   if f.cycle.BeforeStops? then CycleRaises else StopPaper, if f.cycle.BetweenStops? then CycleRaises else StopDemo])
  }

  function SecondMove(f: Fault): Move {
    if f.cycle.AfterPaper? then CycleRaises else if f.adapter.BeforeOpening? then AdapterRaises(false) else DeskOpen
  }

  function ThirdMove(f: Fault, reply: Reply): Move { if f.adapter.AfterReserving? then AdapterRaises(false) else DeskStep(reply) }

  function FourthMove(f: Fault, reply: Reply): Move { if f.adapter.AfterSending? then AdapterRaises(false) else DeskStep(reply) }

  function FifthMove(f: Fault, reply: Reply): Move {
    if f.adapter.AfterHolding? then AdapterRaises(false) else if f.adapter.AfterRecording? then AdapterRaises(true) else DeskStep(reply)
  }

  predicate Accepts(answer: Option<Answer>) { answer.Some? && answer.value.IsAccepted() }

  /** The same execution in one piece: convert, ask paper, try the broker, and stop both on any refusal;
      an exception of the adapter is a refusal, one of the coordinator leaves things as they are. */
  function Executed(c: Setup, l: Lab, decision: Decision, gate: bool, reply: Reply, f: Fault): (Lab, Result)
    requires SetupOk(c)
  {
    var order := OrderOf(c, decision);
    if order.None? then (l, NotTaken) else
    var (paper, taken) := Evaluate(l.paper, decision, gate);
    if !taken then (l.(paper := paper), PaperRefused)
    else if f.cycle.AfterPaper? then (l.(paper := paper), Raised)
    else
      var (desk, answer) := Attempt(c.account, c.key, l.desk, order.value, reply, f.adapter);
      var m := l.(paper := paper, desk := desk);
      if f.cycle.BeforeStops? then (m, Raised)
      else if Accepts(answer) then (m, Traded)
      else if f.cycle.BetweenStops? then (m.(paper := paper.(stopped := true, reason := FAILED)), Raised)
      else (m.(paper := paper.(stopped := true, reason := FAILED), desk := desk.(store := Halt(desk.store, FAILED)), running := false), DemoRefused)
  }

  lemma SevenSteps(c: Setup, l: Lab, m: Move, n: Move, o: Move, p: Move, q: Move, r: Move, s: Move)
    requires SetupOk(c)
    ensures History(c, l, [m, n, o, p, q, r, s])
            == Step(c, Step(c, Step(c, Step(c, Step(c, Step(c, Step(c, l, m), n), o), p), q), r), s)
  {
    hide Step;
    assert [m, n, o, p, q, r, s][..6] == [m, n, o, p, q, r];
    assert [m, n, o, p, q, r][..5] == [m, n, o, p, q];
    assert [m, n, o, p, q][..4] == [m, n, o, p];
    assert [m, n, o, p][..3] == [m, n, o];
    assert [m, n, o][..2] == [m, n];
    assert [m, n][..1] == [m];
    assert [m][..0] == [];
    assert History(c, l, [m]) == Step(c, l, m);
    assert History(c, l, [m, n]) == Step(c, History(c, l, [m]), n);
    assert History(c, l, [m, n, o]) == Step(c, History(c, l, [m, n]), o);
    assert History(c, l, [m, n, o, p]) == Step(c, History(c, l, [m, n, o]), p);
    assert History(c, l, [m, n, o, p, q]) == Step(c, History(c, l, [m, n, o, p]), q);
    assert History(c, l, [m, n, o, p, q, r]) == Step(c, History(c, l, [m, n, o, p, q]), r);
  }

  lemma ConcludedWaits(c: Setup, l: Lab, m: Move)
    requires SetupOk(c) && l.phase.Concluded? && (m.DeskStep? || m.AdapterRaises?)
    ensures Step(c, l, m) == l
  {
  }

  lemma OrderInHand(c: Setup, l: Lab, reply: Reply, f: Fault)
    requires SetupOk(c) && l.phase.Executing? && l.desk.flight == Reserved(l.phase.order)
    ensures var r := Step(c, Step(c, Step(c, l, ThirdMove(f, reply)), FourthMove(f, reply)), FifthMove(f, reply));
            var sent := Send(l.desk, reply);
            var held := Hold(c.key, sent);
            && r.phase.Concluded? && r == l.(desk := r.desk, phase := r.phase)
            && r.desk == (if f.adapter.AfterReserving? then l.desk.(flight := Idle)
                          else if f.adapter.AfterSending? then sent.(flight := Idle)
                          else if f.adapter.AfterHolding? then held.(flight := Idle)
                          else Close(held))
            && (r.phase.accepted <==> (f.adapter.Never? || f.adapter.BeforeOpening?) && Judge(reply, l.phase.order, c.key(l.phase.order.id)).Accepted?)
  {
    hide Judge, Close;
  }

  /** The moves of the adapter are its attempt. */
  lemma AttemptIsMoves(c: Setup, l: Lab, reply: Reply, f: Fault)
    requires SetupOk(c) && l.phase.Papered? && l.desk.flight.Idle? && !f.cycle.AfterPaper?
    ensures var (desk, answer) := Attempt(c.account, c.key, l.desk, l.phase.order, reply, f.adapter);
            var r := Step(c, Step(c, Step(c, Step(c, l, SecondMove(f)), ThirdMove(f, reply)), FourthMove(f, reply)), FifthMove(f, reply));
            r.phase.Concluded? && r.phase.accepted == Accepts(answer) && r == l.(desk := desk, phase := r.phase)
  {
    hide Judge, Collides, Send, Hold, Close;
    var l2 := Step(c, l, SecondMove(f));
    OpenSets(c, l.desk, l.phase.order);
    if l2.phase.Concluded? {
      ConcludedWaits(c, l2, ThirdMove(f, reply));
      ConcludedWaits(c, l2, FourthMove(f, reply));
      ConcludedWaits(c, l2, FifthMove(f, reply));
      hide Open;
    } else {
      hide Open;
      OrderInHand(c, l2, reply, f);
      hide Step;
    }
  }

  lemma OpenSets(c: Setup, d: Desk, order: Order)
    requires d.flight.Idle?
    ensures var (e, answer) := Open(c.account, c.key, d, order); e.flight == if answer.Some? then Idle else Reserved(order)
  {
  }

  lemma QuietWaits(c: Setup, l: Lab, m: Move)
    requires SetupOk(c) && l.phase.Quiet? && (m.DeskOpen? || m.DeskStep? || m.AdapterRaises? || m.StopPaper? || m.StopDemo? || m.CycleRaises?)
    ensures Step(c, l, m) == l
  {
  }

  lemma CoordinateIsExecuted(c: Setup, l: Lab, decision: Decision, gate: bool, reply: Reply, f: Fault)
    requires SetupOk(c) && l.running && l.phase.Quiet? && l.desk.flight.Idle?
    ensures Coordinate(c, l, decision, gate, reply, f) == Executed(c, l, decision, gate, reply, f).0
  {
    var m6, m7 := if f.cycle.BeforeStops? then CycleRaises else StopPaper, if f.cycle.BetweenStops? then CycleRaises else StopDemo;
    SevenSteps(c, l, Decide(decision, gate), SecondMove(f), ThirdMove(f, reply), FourthMove(f, reply), FifthMove(f, reply), m6, m7);
    hide History, OrderOf, Attempt, Open;
    var l1 := Step(c, l, Decide(decision, gate));
    var l2 := Step(c, l1, SecondMove(f));
    if l1.phase.Papered? && !f.cycle.AfterPaper? {
      AttemptIsMoves(c, l1, reply, f);
      var l5 := Step(c, Step(c, Step(c, l2, ThirdMove(f, reply)), FourthMove(f, reply)), FifthMove(f, reply));
      StopsAre(c, l5, f);
    } else {
      assert l2 == l1.(phase := Quiet);
      QuietWaits(c, l2, ThirdMove(f, reply));
      QuietWaits(c, l2, FourthMove(f, reply));
      QuietWaits(c, l2, FifthMove(f, reply));
      QuietWaits(c, l2, m6);
      QuietWaits(c, l2, m7);
    }
    DecideIs(c, l, decision, gate);
    hide Step, SecondMove, ThirdMove, FourthMove, FifthMove;
  }

  lemma DecideIs(c: Setup, l: Lab, decision: Decision, gate: bool)
    requires SetupOk(c) && l.running && l.phase.Quiet?
    ensures Step(c, l, Decide(decision, gate)) ==
            if OrderOf(c, decision).None? then l
            else var (paper, accepted) := Evaluate(l.paper, decision, gate);
                 l.(paper := paper, phase := if accepted then Papered(OrderOf(c, decision).value, decision.id !in l.paper.answers) else Quiet)
  {
    hide OrderOf;
  }

  lemma StopsAre(c: Setup, l: Lab, f: Fault)
    requires SetupOk(c) && l.phase.Concluded?
    ensures Step(c, Step(c, l, if f.cycle.BeforeStops? then CycleRaises else StopPaper), if f.cycle.BetweenStops? then CycleRaises else StopDemo)
            == if f.cycle.BeforeStops? || l.phase.accepted then l.(phase := Quiet)
               else if f.cycle.BetweenStops? then l.(paper := l.paper.(stopped := true, reason := FAILED), phase := Quiet)
               else l.(paper := l.paper.(stopped := true, reason := FAILED), desk := l.desk.(store := Halt(l.desk.store, FAILED)), phase := Quiet, running := false)
  {
  }

  /** What one more record adds to the fills on file. */
  lemma OneMoreRecord(d: Store, e: Store, id: Id)
    requires Indexed(d) && id !in d.rows && id in e.rows && e.order == d.order + [id] && e.rows == d.rows[id := e.rows[id]]
    ensures Indexed(e) && NetTotal(e.rows, e.order) == NetTotal(d.rows, d.order) + FillOf(e.rows[id])
  {
    assert e.order[..|e.order| - 1] == d.order;
    assert id !in d.order;
    SameFills(e.rows, d.rows, d.order);
  }

  /** What an attempt adds to the fills on file. */
  lemma AttemptTotal(c: Setup, d: Desk, order: Order, reply: Reply, raising: Raising)
    requires Indexed(d.store) && d.flight.Idle?
    ensures var (e, answer) := Attempt(c.account, c.key, d, order, reply, raising);
            && Indexed(e.store) && Indexed(Halt(e.store, FAILED)) && e.flight.Idle?
            && NetTotal(e.store.rows, e.store.order) == NetTotal(d.store.rows, d.store.order) + if PutOnFile(d, e, order) then Signed(order.side, order.volume) else 0
  {
    hide Attempt, NetTotal;
    var (e, answer) := Attempt(c.account, c.key, d, order, reply, raising);
    AttemptMeaning(c.account, c.key, d, order, reply, raising);
    if e.store.rows != d.store.rows || e.store.order != d.store.order {
      OneMoreRecord(d.store, e.store, order.id);
    }
    SameStoreIndexed(d.store, e.store);
    StopIndexed(e.store);
    hide Indexed;
  }

  lemma SameStoreIndexed(d: Store, e: Store)
    requires Indexed(d)
    ensures e.rows == d.rows && e.order == d.order ==> Indexed(e)
  {
  }

  /** How an execution ends. `filled` says that it put an acceptance on file. */
  ghost predicate Concludes(c: Setup, l: Lab, decision: Decision, r: Lab, result: Result, filled: bool)
    requires SetupOk(c)
  {
    && r.phase.Quiet? && r.desk.flight.Idle? && Indexed(r.desk.store)
    && (r.running <==> !result.DemoRefused?)
    && (result.DemoRefused? ==> r.paper.stopped && r.desk.store.stopped && !r.desk.store.reconciled)
    && (result.NotTaken? || result.PaperRefused? ==> !filled && Even(c, r))
    && (result.Traded? || result.DemoRefused? || result.Raised? ==> (Even(c, r) <==> (filled <==> decision.id !in l.paper.answers)))
    && (result.Traded? ==> filled || decision.id in l.desk.store.rows)
  }

  function WasFilled(c: Setup, l: Lab, decision: Decision, r: Lab): bool
    requires SetupOk(c)
  {
    OrderOf(c, decision).Some? && PutOnFile(l.desk, r.desk, OrderOf(c, decision).value)
  }

  lemma TakenConcludes(c: Setup, l: Lab, decision: Decision, r: Lab)
    requires SetupOk(c) && LockStep(c, l) && l.running && l.phase.Quiet? && OrderOf(c, decision).Some? && r.phase.Quiet? && Indexed(r.desk.store)
    requires r.paper.position == l.paper.position + if decision.id in l.paper.answers then 0.0 else SignedQuantity(decision.side, decision.quantity)
    requires var order := OrderOf(c, decision).value;
             NetTotal(r.desk.store.rows, r.desk.store.order)
             == NetTotal(l.desk.store.rows, l.desk.store.order) + if PutOnFile(l.desk, r.desk, order) then Signed(order.side, order.volume) else 0
    ensures Even(c, r) <==> (PutOnFile(l.desk, r.desk, OrderOf(c, decision).value) <==> decision.id !in l.paper.answers)
  {
    hide NetTotal, OrderOf, PaperVolume, PutOnFile, SignedQuantity, InStep, Known, Indexed;
    OrderMoves(c, l.paper.position, decision);
    assert l.paper.position + 0.0 == l.paper.position;
  }

  /** What an execution past paper leaves, in terms of the attempt. */
  lemma ExecutedShape(c: Setup, l: Lab, decision: Decision, gate: bool, reply: Reply, f: Fault)
    requires SetupOk(c) && l.running && OrderOf(c, decision).Some? && Evaluate(l.paper, decision, gate).1
    ensures var (r, result) := Executed(c, l, decision, gate, reply, f);
            var (desk, answer) := Attempt(c.account, c.key, l.desk, OrderOf(c, decision).value, reply, f.adapter);
            var tried := if f.cycle.AfterPaper? then l.desk else desk;
            && r.phase == l.phase && r.paper.position == Evaluate(l.paper, decision, gate).0.position && r.desk.flight == tried.flight
            && (r.desk.store == tried.store || r.desk.store == Halt(tried.store, FAILED))
            && (r.running <==> !result.DemoRefused?) && (result.DemoRefused? ==> r.paper.stopped && r.desk.store == Halt(tried.store, FAILED))
            && (result.Traded? || result.DemoRefused? || result.Raised?) && (result.Traded? ==> !f.cycle.AfterPaper? && Accepts(answer))
  {
    hide Attempt, OrderOf;
  }

  /** Outcome of one execution, sound or interrupted by any exception, from a running runner in
      lock-step. A refusal after paper acceptance stops both switches and the runner. The sides are
      even exactly when a fill went on file for a decision new to paper, or none for one that paper
      had answered before. */
  lemma ExecutionOutcome(c: Setup, l: Lab, decision: Decision, gate: bool, reply: Reply, f: Fault)
    requires SetupOk(c) && LockStep(c, l) && l.running && l.phase.Quiet?
    ensures var (r, result) := Executed(c, l, decision, gate, reply, f); Concludes(c, l, decision, r, result, WasFilled(c, l, decision, r))
  {
    if OrderOf(c, decision).Some? && Evaluate(l.paper, decision, gate).1 {
      TakenOutcome(c, l, decision, gate, reply, f);
    } else {
      assert l.paper.position + 0.0 == l.paper.position;
      hide NetTotal, PaperVolume, Indexed, OrderOf, Attempt;
    }
  }

  lemma TakenOutcome(c: Setup, l: Lab, decision: Decision, gate: bool, reply: Reply, f: Fault)
    requires SetupOk(c) && LockStep(c, l) && l.running && l.phase.Quiet? && OrderOf(c, decision).Some? && Evaluate(l.paper, decision, gate).1
    ensures var (r, result) := Executed(c, l, decision, gate, reply, f); Concludes(c, l, decision, r, result, WasFilled(c, l, decision, r))
  {
    hide NetTotal, OrderOf, Indexed, SignedQuantity, PaperVolume, Attempt, Executed;
    assert l.paper.position + 0.0 == l.paper.position;
    var order := OrderOf(c, decision).value;
    var (r, result) := Executed(c, l, decision, gate, reply, f);
    var (desk, answer) := Attempt(c.account, c.key, l.desk, order, reply, f.adapter);
    OrderMoves(c, l.paper.position, decision);
    AttemptTotal(c, l.desk, order, reply, f.adapter);
    AttemptMeaning(c.account, c.key, l.desk, order, reply, f.adapter);
    ExecutedShape(c, l, decision, gate, reply, f);
    StopIndexed(l.desk.store);
    TakenConcludes(c, l, decision, r);
    hide Even, InStep, Known;
  }

  /** A completed trade: the sides are even exactly when this was no second taking of a decision that
      paper had accepted and the desk had never recorded. */
  lemma TradedOutcome(c: Setup, l: Lab, decision: Decision, gate: bool, reply: Reply, f: Fault)
    requires SetupOk(c) && LockStep(c, l) && l.running && l.phase.Quiet?
    requires Executed(c, l, decision, gate, reply, f).1.Traded?
    ensures Indexed(Executed(c, l, decision, gate, reply, f).0.desk.store)
    ensures Even(c, Executed(c, l, decision, gate, reply, f).0) <==> !Orphan(l, decision)
  {
    ExecutionOutcome(c, l, decision, gate, reply, f);
    hide Attempt, Even, NetTotal, Indexed;
  }

  /** A lost stop: when the audit or a stop raises after a refusal that followed paper acceptance, the
      runner goes on, and the sides are even exactly when paper had answered the decision before. */
  lemma LostStopOutcome(c: Setup, l: Lab, decision: Decision, gate: bool, reply: Reply, f: Fault)
    requires SetupOk(c) && LockStep(c, l) && l.running && l.phase.Quiet?
    requires f.adapter.Never? && (f.cycle.BeforeStops? || f.cycle.BetweenStops?)
    requires OrderOf(c, decision).Some? && Evaluate(l.paper, decision, gate).1
    requires !Submit(c.account, c.key, l.desk, OrderOf(c, decision).value, reply).1.IsAccepted()
    ensures var (r, result) := Executed(c, l, decision, gate, reply, f);
            && result.Raised? && r.running && r.phase.Quiet? && Indexed(r.desk.store)
            && (Even(c, r) <==> decision.id in l.paper.answers)
  {
    ExecutionOutcome(c, l, decision, gate, reply, f);
    AttemptIsSubmit(c.account, c.key, l.desk, OrderOf(c, decision).value, reply);
    AttemptMeaning(c.account, c.key, l.desk, OrderOf(c, decision).value, reply, Never);
    hide Attempt, Submit, Even, NetTotal, Indexed, OrderOf;
  }

  /** An exception after paper has committed leaves the sides even exactly when the decision was not new. */
  lemma LostOrderOutcome(c: Setup, l: Lab, decision: Decision, gate: bool, reply: Reply, f: Fault)
    requires SetupOk(c) && LockStep(c, l) && l.running && l.phase.Quiet? && f.cycle.AfterPaper?
    requires OrderOf(c, decision).Some? && Evaluate(l.paper, decision, gate).1
    ensures var (r, result) := Executed(c, l, decision, gate, reply, f);
            && result.Raised? && r.running && r.phase.Quiet? && Indexed(r.desk.store)
            && (Even(c, r) <==> decision.id in l.paper.answers)
  {
    ExecutionOutcome(c, l, decision, gate, reply, f);
    hide Attempt, Even, NetTotal, Indexed, OrderOf;
  }

  // ---------------------------------------------------------------- where lock-step fails

  ghost predicate Apart(c: Setup, l: Lab) {
    && l.running && l.phase.Quiet? && !l.paper.stopped && !l.desk.store.stopped && Indexed(l.desk.store)
    && PaperVolume(c, l.paper.position) != NetTotal(l.desk.store.rows, l.desk.store.order) as real
  }

  function Sample(): Setup { Setup(Account(1, 1), id => id, 100, None) }

  function Running(paper: Paper): Lab { Lab(paper, Desk(FRESH.(stopped := false, reason := AUTOMATION, reconciled := true), [], Idle), Quiet, true) }

  /** A start-up with an empty desk and a flat paper account succeeds. */
  lemma FlatStart(paper: Paper)
    requires paper.position == 0.0 && !paper.stopped
    ensures Step(Sample(), Lab(paper, Desk(FRESH, [], Idle), Quiet, false), StartRunner(Some(Snapshot(Account(1, 1), true, 0, [], [])), 0))
            == Running(paper)
  {
    var snap := Snapshot(Account(1, 1), true, 0, [], []);
    assert Settled(FRESH) == FRESH;
    assert forall p :: NetAt(FRESH.rows, FRESH.order, p) == BrokerAt([], p);
    assert Expected(100, 0.0) == Some(0);
    assert ExposureAgrees(Account(1, 1), FRESH, snap, 0);
    assert Reconcilable(Account(1, 1), FRESH, Some(snap), Some(0));
  }

  /** The one reason a restart does not respect: a stop by hand in the name of a fresh account is lifted
      by the next start-up. */
  lemma StopAsFreshIsLifted() returns (c: Setup, l: Lab, ms: seq<Move>)
    ensures SetupOk(c) && LockStep(c, l) && !l.paper.stopped && |ms| == 2 && ms[0] == OperatorStopsPaper("missing_state") && ms[1].StartRunner?
    ensures var r := History(c, l, ms); r.running && !r.paper.stopped
  {
    c := Sample();
    var p := Paper(0.0, map[], false, "");
    l := Lab(p, Desk(FRESH, [], Idle), Quiet, false);
    FreshLabIsInLockStep(c, p);
    FlatStart(p);
    ms := [OperatorStopsPaper("missing_state"), StartRunner(Some(Snapshot(Account(1, 1), true, 0, [], [])), 0)];
    assert ms[..1] == [ms[0]] && ms[..1][..0] == [];
    assert History(c, l, ms[..1]) == Step(c, l, ms[0]);
    hide Reconciliation;
  }

  /** Two paper trades of opposite sides made while the runner was off leave paper flat, so start-up
      passes; taking the first decision again then buys at the broker what paper does not move by. */
  lemma OrphanReplayBreaksLockStep() returns (c: Setup, l: Lab, ms: seq<Move>)
    ensures SetupOk(c) && LockStep(c, l) && Apart(c, History(c, l, ms))
    ensures forall m :: m in ms ==> !m.CycleRaises?
  {
    c := Sample();
    var a, b := Decision("a", Buy, 1.0), Decision("b", Sell, 1.0);
    var p0 := Paper(0.0, map[], false, "");
    var p2 := Paper(0.0, map["a" := true, "b" := true], false, "");
    l := Lab(p0, Desk(FRESH, [], Idle), Quiet, false);
    FreshLabIsInLockStep(c, p0);
    var start := StartRunner(Some(Snapshot(Account(1, 1), true, 0, [], [])), 0);
    var reply := Reply.Answered(Receipt(3, false, true, 100, 1, 1, Some("a"), None));
    ms := [ElsewherePaper(a, true), ElsewherePaper(b, true), start];
    FlatStart(p2);
    ThreeSteps(c, l, ms[0], ms[1], ms[2]);
    assert History(c, l, ms) == Running(p2) by { hide Startup; }
    hide Step, Running, Apart;
    OrphanTaken(p2, a, reply);
    var taken := [Decide(a, true), DeskOpen, DeskStep(reply), DeskStep(reply), DeskStep(reply), StopPaper, StopDemo];
    HistoryAppends(c, l, ms, taken);
    ms := ms + taken;
  }

  lemma OrphanTaken(paper: Paper, a: Decision, reply: Reply)
    requires paper == Paper(0.0, map["a" := true, "b" := true], false, "") && a == Decision("a", Buy, 1.0)
    requires reply == Reply.Answered(Receipt(3, false, true, 100, 1, 1, Some("a"), None))
    ensures Apart(Sample(), Coordinate(Sample(), Running(paper), a, true, reply, SOUND))
  {
    var c, run := Sample(), Running(paper);
    hide Coordinate, ToVolume, NetTotal;
    CoordinateIsExecuted(c, run, a, true, reply, SOUND);
    SampleOrder(a);
    RunningIsEven(paper);
    ExecutionOutcome(c, run, a, true, reply, SOUND);
  }

  lemma SampleOrder(a: Decision)
    requires a.quantity == 1.0
    ensures OrderOf(Sample(), a) == Some(Order(a.id, a.side, 100))
  {
  }

  lemma RunningIsEven(paper: Paper)
    requires paper.position == 0.0
    ensures LockStep(Sample(), Running(paper))
  {
  }

  lemma ThreeSteps(c: Setup, l: Lab, m: Move, n: Move, o: Move)
    requires SetupOk(c)
    ensures History(c, l, [m, n, o]) == Step(c, Step(c, Step(c, l, m), n), o)
  {
    hide Step;
    assert [m, n, o][..2] == [m, n] && [m, n][..1] == [m] && [m][..0] == [];
    assert History(c, l, [m]) == Step(c, l, m);
    assert History(c, l, [m, n]) == Step(c, History(c, l, [m]), n);
  }

  lemma {:induction false} HistoryAppends(c: Setup, l: Lab, ms: seq<Move>, ns: seq<Move>)
    requires SetupOk(c)
    ensures History(c, l, ms + ns) == History(c, History(c, l, ms), ns)
  {
    hide Step;
    if ns == [] {
      assert ms + ns == ms;
    } else {
      HistoryAppends(c, l, ms, ns[..|ns| - 1]);
      assert (ms + ns)[..|ms + ns| - 1] == ms + ns[..|ns| - 1];
    }
  }

  /** An order the broker refuses, and a stop write that fails: the runner counts one failure and
      goes on with both switches running and the two sides apart. */
  lemma LostStopBreaksLockStep() returns (c: Setup, l: Lab, ms: seq<Move>)
    ensures SetupOk(c) && LockStep(c, l) && Apart(c, History(c, l, ms))
    ensures forall m :: m in ms && m.Decide? ==> m.decision.id !in l.paper.answers
  {
    c := Sample();
    var a := Decision("a", Buy, 1.0);
    var p0 := Paper(0.0, map[], false, "");
    l := Lab(p0, Desk(FRESH, [], Idle), Quiet, false);
    FreshLabIsInLockStep(c, p0);
    FlatStart(p0);
    SampleOrder(a);
    var start := StartRunner(Some(Snapshot(Account(1, 1), true, 0, [], [])), 0);
    var refusal := Reply.Answered(Receipt(0, true, false, 0, 0, 0, None, None));
    ms := [start, Decide(a, true), DeskOpen, DeskStep(refusal), DeskStep(refusal), DeskStep(refusal), CycleRaises];
    SevenSteps(c, l, start, Decide(a, true), DeskOpen, DeskStep(refusal), DeskStep(refusal), DeskStep(refusal), CycleRaises);
  }

  /** A crash between paper's answer and the reservation: both switches go on running and the sides are
      apart. The runner is down, and its next start finds the difference. */
  lemma CrashAfterPaperLeavesSwitchesRunning() returns (c: Setup, l: Lab, ms: seq<Move>)
    ensures SetupOk(c) && LockStep(c, l)
    ensures var r := History(c, l, ms);
            && !r.running && r.phase.Quiet? && !r.paper.stopped && !r.desk.store.stopped && Indexed(r.desk.store)
            && PaperVolume(c, r.paper.position) != NetTotal(r.desk.store.rows, r.desk.store.order) as real
  {
    c := Sample();
    var a := Decision("a", Buy, 1.0);
    var p0 := Paper(0.0, map[], false, "");
    l := Lab(p0, Desk(FRESH, [], Idle), Quiet, false);
    FreshLabIsInLockStep(c, p0);
    FlatStart(p0);
    SampleOrder(a);
    var start := StartRunner(Some(Snapshot(Account(1, 1), true, 0, [], [])), 0);
    ms := [start, Decide(a, true), Move.Crash];
    ThreeSteps(c, l, start, Decide(a, true), Move.Crash);
  }

  /** A start-up that succeeds is a reconciliation and the two starts it needs, each of which is a move
      of its own, so a crash inside it ends in a state that those moves reach. */
  lemma StartupInPieces(c: Setup, l: Lab, snapshot: Option<Snapshot>, n: nat)
    requires SetupOk(c) && !l.running && l.phase.Quiet? && l.desk.flight.Idle?
    requires MayResume(l.paper.stopped, l.paper.reason) && MayResume(l.desk.store.stopped, l.desk.store.reason)
    requires Reconciliation(c, l.desk.store, snapshot, l.paper.position, n).reconciled
    ensures var l1 := Step(c, l, Reconcile(snapshot, n));
            var l2 := if l.desk.store.stopped then Step(c, l1, OperatorStartsDemo(AUTOMATION)) else l1;
            var l3 := if l.paper.stopped then Step(c, l2, OperatorStartsPaper(AUTOMATION)) else l2;
            Step(c, l, StartRunner(snapshot, n)) == l3.(running := true)
  {
    hide Reconciliation;
  }

  // ---------------------------------------------------------------- the objects

  class PaperToCTraderDemoCoordinator {
    const setup: Setup
    const adapter: CTraderDemoAdapter
    var paper: Paper

    constructor (setup: Setup, adapter: CTraderDemoAdapter, paper: Paper)
      requires SetupOk(setup) && adapter.account == setup.account && adapter.key == setup.key
      ensures Valid() && this.setup == setup && this.adapter == adapter && this.paper == paper
    {
      this.setup, this.adapter, this.paper := setup, adapter, paper;
    }

    ghost predicate Valid() { SetupOk(setup) && adapter.account == setup.account && adapter.key == setup.key }

    function View(running: bool): Lab
      reads this, adapter
    {
      Lab(paper, adapter.View(), Quiet, running)
    }

    /** Paper risk first, then the broker; a refusal after paper acceptance, an exception of the adapter
        included, stops both. */
    method Execute(decision: Decision, gate: bool, reply: Reply, f: Fault) returns (result: Result)
      requires Valid()
      modifies this, adapter
      ensures (View(!result.DemoRefused?), result) == Executed(setup, old(View(true)), decision, gate, reply, f)
      ensures result.DemoRefused? ==> paper.stopped && adapter.store.stopped
    {
      hide DemoLaws.Run;
      var order := OrderOf(setup, decision);
      if order.None? {
        return NotTaken;
      }
      var (after, taken) := Evaluate(paper, decision, gate);
      paper := after;
      if !taken {
        return PaperRefused;
      }
      if f.cycle.AfterPaper? {
        return Raised;
      }
      var answer := adapter.Execute(order.value, reply, f.adapter);
      hide Attempt, Submit;
      if f.cycle.BeforeStops? {
        return Raised;
      }
      if Accepts(answer) {
        return Traded;
      }
      paper := paper.(stopped := true, reason := FAILED);
      if f.cycle.BetweenStops? {
        return Raised;
      }
      adapter.Stop(FAILED);
      result := DemoRefused;
    }
  }

  /** What a poll of the market and the strategy brings. */
  datatype Poll = StaleData | SourceRaises | NoDecision | Proposed(decision: Decision)

  lemma StartupCases(c: Setup, l: Lab, snapshot: Option<Snapshot>, n: nat, ok: bool, s: Store)
    requires SetupOk(c) && Indexed(l.desk.store) && MayResume(l.paper.stopped, l.paper.reason) && MayResume(l.desk.store.stopped, l.desk.store.reason)
    requires !l.running && l.phase.Quiet? && l.desk.flight.Idle? && n <= |l.desk.store.order|
    requires ok <==> Reconcilable(c.account, l.desk.store, snapshot, Expected(c.factor, l.paper.position))
    requires s == if ok then Settled(l.desk.store).(reconciled := true) else Halt(SettledTo(l.desk.store, n), "reconciliation_failed")
    ensures s.reconciled == ok && s.stopped == (l.desk.store.stopped || !ok)
    ensures Step(c, l, StartRunner(snapshot, n)) ==
            if ok then
              l.(paper := if l.paper.stopped then l.paper.(stopped := false, reason := AUTOMATION) else l.paper,
                 desk := l.desk.(store := if l.desk.store.stopped then s.(stopped := false, reason := AUTOMATION) else s), running := true)
            else
              l.(paper := l.paper.(stopped := true, reason := "startup_reconciliation_failed"),
                 desk := l.desk.(store := Halt(s, "startup_reconciliation_failed")))
  {
    hide Reconcilable, MayResume;
  }

  class DemoAutomationRunner {
    const coordinator: PaperToCTraderDemoCoordinator
    const maxFailures: nat
    var running: bool
    var failures: nat

    constructor (coordinator: PaperToCTraderDemoCoordinator, maxFailures: nat)
      ensures this.coordinator == coordinator && this.maxFailures == maxFailures && !running && failures == 0
    {
      this.coordinator, this.maxFailures, running, failures := coordinator, maxFailures, false, 0;
    }

    function View(): Lab
      reads this, coordinator, coordinator.adapter
    {
      coordinator.View(running)
    }

    /** Both switches are consulted before any broker contact; running means reconciled and even. */
    method Start(snapshot: Option<Snapshot>) returns (ok: bool, ghost n: nat)
      requires coordinator.Valid() && Indexed(coordinator.adapter.store) && !running
      modifies this, coordinator, coordinator.adapter
      ensures View() == Step(coordinator.setup, old(View()), StartRunner(snapshot, n))
      ensures ok == running && (ok ==> failures == 0)
      ensures old(coordinator.paper).stopped && old(coordinator.paper).reason != "missing_state" ==> !ok && View() == old(View())
      ensures old(coordinator.adapter.store).stopped && old(coordinator.adapter.store).reason != "missing_state" ==> !ok && View() == old(View())
    {
      var adapter := coordinator.adapter;
      var paper := coordinator.paper;
      ghost var c, was := coordinator.setup, View();
      n := 0;
      if !MayResume(paper.stopped, paper.reason) || !MayResume(adapter.store.stopped, adapter.store.reason) {
        return false, n;
      }
      hide MayResume;
      var wasStopped := adapter.store.stopped;
      ok, n := adapter.ReconcileAfterRestart(snapshot, Expected(coordinator.setup.factor, paper.position));
      StartupCases(c, was, snapshot, n, ok, adapter.store);
      hide *;
      Conclude(ok, wasStopped);
    }

    /** After the reconciliation: start what was never stopped, or stop both. */
    method Conclude(ok: bool, wasStopped: bool)
      requires ok ==> coordinator.adapter.store.reconciled
      requires !running
      modifies this, coordinator, coordinator.adapter
      ensures running == ok && (ok ==> failures == 0) && coordinator.adapter.wire == old(coordinator.adapter.wire)
      ensures coordinator.paper == if !ok then old(coordinator.paper).(stopped := true, reason := "startup_reconciliation_failed")
                                   else if old(coordinator.paper).stopped then old(coordinator.paper).(stopped := false, reason := AUTOMATION)
                                   else old(coordinator.paper)
      ensures coordinator.adapter.store == if !ok then Halt(old(coordinator.adapter.store), "startup_reconciliation_failed")
                                           else if wasStopped then old(coordinator.adapter.store).(stopped := false, reason := AUTOMATION)
                                           else old(coordinator.adapter.store)
    {
      var adapter := coordinator.adapter;
      var paper := coordinator.paper;
      if !ok {
        coordinator.paper := paper.(stopped := true, reason := "startup_reconciliation_failed");
        adapter.Stop("startup_reconciliation_failed");
        return;
      }
      if wasStopped {
        var started := adapter.Start(AUTOMATION);
      }
      if paper.stopped {
        coordinator.paper := paper.(stopped := false, reason := AUTOMATION);
      }
      running, failures := true, 0;
    }

    /** One poll. Stale data changes nothing; no decision clears the count; a decision is one coordinated
        execution, and a demo refusal after paper acceptance ends the run. A poll or an execution that
        raises counts, and at the limit both switches stop. */
    method RunCycle(poll: Poll, gate: bool, reply: Reply, f: Fault)
      requires coordinator.Valid()
      modifies this, coordinator, coordinator.adapter
      ensures !old(running) || poll.StaleData? ==> View() == old(View()) && failures == old(failures)
      ensures old(running) && poll.NoDecision? ==> View() == old(View()) && failures == 0
      ensures old(running) && poll.SourceRaises? ==> AfterFailure(old(View()), old(failures), View(), failures)
      ensures old(running) && poll.Proposed? ==>
                var (r, result) := Executed(coordinator.setup, old(View()), poll.decision, gate, reply, f);
                && Coordinate(coordinator.setup, old(View()), poll.decision, gate, reply, f) == r
                && (if result.Raised? then AfterFailure(r, old(failures), View(), failures)
                    else View() == r && failures == if result.DemoRefused? then old(failures) else 0)
    {
      if !running {
        return;
      }
      match poll {
        case StaleData =>
        case NoDecision => failures := 0;
        case SourceRaises => CountFailure();
        case Proposed(decision) =>
          ghost var was := View();
          CoordinateIsExecuted(coordinator.setup, was, decision, gate, reply, f);
          hide Coordinate, Executed;
          var result := coordinator.Execute(decision, gate, reply, f);
          if result.Raised? {
            CountFailure();
          } else if result.DemoRefused? {
            running := false;
          } else {
            failures := 0;
          }
      }
    }

    /** One failure more than before, and at the limit the runner quits. */
    ghost predicate AfterFailure(l: Lab, before: nat, r: Lab, after: nat)
      requires coordinator.Valid()
    {
      && after == before + 1
      && r == if after >= maxFailures then Step(coordinator.setup, l, RunnerQuits("max_consecutive_failures")) else l
    }

    method CountFailure()
      requires running && coordinator.Valid()
      modifies this, coordinator, coordinator.adapter
      ensures AfterFailure(old(View()), old(failures), View(), failures)
    {
      failures := failures + 1;
      if failures >= maxFailures {
        running := false;
        coordinator.paper := coordinator.paper.(stopped := true, reason := "max_consecutive_failures");
        coordinator.adapter.Stop("max_consecutive_failures");
      }
    }
  }
}
