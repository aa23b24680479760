/** Paper decisions executed on the demo account (xauusd/demo_execution.py) under the runner of
    xauusd/demo_runner.py. One step is one durable write or one reply, a crash may fall between any
    two, and the claim is that broker fills stay in lock-step with the paper position. */
module DemoLockstep {
  import opened Prelude
  import opened DemoOrders
  import opened DemoLaws
  import opened DemoAdapter

  // ---------------------------------------------------------------- volumes

  datatype VolumePolicy = VolumePolicy(minVolume: int, maxVolume: int, stepVolume: int)
  {
    predicate Valid() { 0 < minVolume <= maxVolume && 0 < stepVolume }

    function Reason(volume: int): Option<string>
      requires Valid()
    {
      if volume < minVolume then Some("volume_below_broker_minimum")
      else if volume > maxVolume then Some("volume_above_broker_maximum")
      else if (volume - minVolume) % stepVolume != 0 then Some("volume_not_aligned_to_broker_step")
      else None
    }
  }

  /** A volume passes exactly when it is one the broker's minimum, maximum and step allow. */
  lemma PolicyMeaning(p: VolumePolicy, volume: int)
    requires p.Valid()
    ensures p.Reason(volume) == None <==> volume <= p.maxVolume && exists k: nat :: volume == p.minVolume + k * p.stepVolume
  {
    var d := volume - p.minVolume;
    if p.Reason(volume) == None {
      var k := d / p.stepVolume;
      assert d == k * p.stepVolume;
      assert k >= 0;
      assert volume == p.minVolume + k * p.stepVolume;
    }
    if k: nat :| volume == p.minVolume + k * p.stepVolume {
      Multiples(k, p.stepVolume);
    }
  }

  lemma Multiples(k: nat, step: int)
    requires step > 0
    ensures k * step >= 0 && (k * step) % step == 0
  {
    var q, r := k * step / step, k * step % step;
    assert step * (k - q) == r;
    NoSmallMultiple(k - q, step);
  }

  lemma NoSmallMultiple(n: int, step: int)
    requires step > 0
    ensures n >= 1 ==> step * n >= step
    ensures n <= 0 ==> step * n <= 0
  {
  }

  function ToVolume(factor: int, quantity: real): (r: Option<int>)
    requires factor > 0
    ensures r.Some? ==> r.value > 0 && r.value as real == quantity * factor as real
  {
    var volume := quantity * factor as real;
    if quantity > 0.0 && volume.Floor as real == volume then Some(volume.Floor) else None
  }

  /** The volume the paper position stands for; absent when it is not a whole number. */
  function Expected(factor: int, position: real): (r: Option<int>)
    requires factor > 0
    ensures r.Some? ==> r.value as real == position * factor as real
  {
    if position == 0.0 then Some(0)
    else if position > 0.0 then ToVolume(factor, position)
    else match ToVolume(factor, -position)
      case None => None
      case Some(v) => Some(-v)
  }

  // ---------------------------------------------------------------- the paper account

  datatype Decision = Decision(id: Id, side: Side, quantity: real)

  /** The part of the paper store the coordinator depends on: a decision id is answered once and
      for all, and only an accepted first answer moves the position. */
  datatype Paper = Paper(position: real, answers: map<Id, bool>, stopped: bool, reason: string)

  function SignedQuantity(side: Side, quantity: real): real { if side == Buy then quantity else -quantity }

  /** `gate` is the verdict of the market, size and loss checks; the kill switch comes before them. */
  function Evaluate(p: Paper, decision: Decision, gate: bool): (Paper, bool) {
    if decision.id in p.answers then (p, p.answers[decision.id])
    else
      var accepted := !p.stopped && gate;
      (p.(position := p.position + if accepted then SignedQuantity(decision.side, decision.quantity) else 0.0,
          answers := p.answers[decision.id := accepted]), accepted)
  }

  // ---------------------------------------------------------------- the machine

  datatype Setup = Setup(account: Account, key: Id -> Id, factor: int, policy: Option<VolumePolicy>)

  ghost predicate SetupOk(c: Setup) { c.factor > 0 && (c.policy.Some? ==> c.policy.value.Valid()) }

  /** Where the coordinator is: between decisions, after the paper answer, with an order open at the
      desk, with the desk's answer in hand, or between its two stops. An order is `owed` while paper
      has moved for it and no fill of it is on file. */
  datatype Phase =
    | Quiet
    | Papered(order: Order, owed: bool)
    | Executing(order: Order, owed: bool)
    | Concluded(order: Order, owed: bool, accepted: bool)
    | HalfStopped(order: Order, owed: bool)

  datatype Lab = Lab(paper: Paper, desk: Desk, phase: Phase, running: bool)

  /** The order a decision becomes, when its quantity converts and the broker's policy admits it. */
  function OrderOf(c: Setup, decision: Decision): (r: Option<Order>)
    requires SetupOk(c)
  {
    match ToVolume(c.factor, decision.quantity)
    case None => None
    case Some(volume) =>
      if c.policy.Some? && c.policy.value.Reason(volume).Some? then None else Some(Order(decision.id, decision.side, volume))
  }

  datatype Move =
    | Decide(decision: Decision, gate: bool)
    | DeskOpen
    | DeskStep(reply: Reply)
    | AdapterRaises(committed: bool)
    | StopPaper
    | StopDemo
    | CycleRaises
    | RunnerQuits(reason: string)
    | Crash
    | ElsewherePaper(decision: Decision, gate: bool)
    | OperatorStopsPaper(reason: string)
    | OperatorStartsPaper(reason: string)
    | OperatorStopsDemo(reason: string)
    | OperatorStartsDemo(reason: string)
    | SettleOne(id: Id)
    | Reconcile(snapshot: Option<Snapshot>, n: nat)
    | StartRunner(snapshot: Option<Snapshot>, n: nat)

  const AUTOMATION := "explicit demo automation enabled"
  const FAILED := "broker_execution_failed"

  /** What a reconciliation leaves in the store; `n` requests were settled before a failure. */
  ghost function Reconciliation(c: Setup, s: Store, snapshot: Option<Snapshot>, position: real, n: nat): Store
    requires SetupOk(c)
  {
    if Indexed(s) && Reconcilable(c.account, s, snapshot, Expected(c.factor, position)) then Settled(s).(reconciled := true)
    else Halt(if n <= |s.order| then SettledTo(s, n) else s, "reconciliation_failed")
  }

  predicate MayResume(stopped: bool, reason: string) { stopped ==> reason == "missing_state" }

  /** Start-up: nothing changes when either switch must hold; otherwise reconcile, then start what
      was never stopped. A failed reconciliation stops both. */
  ghost function Startup(c: Setup, l: Lab, snapshot: Option<Snapshot>, n: nat): Lab
    requires SetupOk(c)
  {
    if !MayResume(l.paper.stopped, l.paper.reason) || !MayResume(l.desk.store.stopped, l.desk.store.reason) then l.(running := false)
    else
      var s := Reconciliation(c, l.desk.store, snapshot, l.paper.position, n);
      if !s.reconciled then
        l.(paper := l.paper.(stopped := true, reason := "startup_reconciliation_failed"),
           desk := l.desk.(store := Halt(s, "startup_reconciliation_failed")), running := false)
      else
        l.(paper := if l.paper.stopped then l.paper.(stopped := false, reason := AUTOMATION) else l.paper,
           desk := l.desk.(store := if l.desk.store.stopped then s.(stopped := false, reason := AUTOMATION) else s), running := true)
  }

  /** One move; a move whose phase has not come does nothing. Somebody else may trade the paper
      account only while the runner is not running. A reconciliation and a start-up are one move when
      they run through; each of their writes is also a move of its own, which covers a crash inside. */
  ghost function Step(c: Setup, l: Lab, m: Move): Lab
    requires SetupOk(c)
  {
    match m
    case Decide(decision, gate) =>
      if !l.running || !l.phase.Quiet? || OrderOf(c, decision).None? then l else
      var (paper, accepted) := Evaluate(l.paper, decision, gate);
      l.(paper := paper, phase := if accepted then Papered(OrderOf(c, decision).value, decision.id !in l.paper.answers) else Quiet)
    case DeskOpen =>
      if !l.phase.Papered? || !l.desk.flight.Idle? then l else
      var (desk, answer) := Open(c.account, c.key, l.desk, l.phase.order);
      l.(desk := desk, phase := if answer.Some? then Concluded(l.phase.order, l.phase.owed, answer.value.IsAccepted()) else Executing(l.phase.order, l.phase.owed))
    case DeskStep(reply) =>
      if !l.phase.Executing? then l
      else if l.desk.flight.Reserved? then l.(desk := Send(l.desk, reply))
      else if l.desk.flight.Sent? then l.(desk := Hold(c.key, l.desk))
      else if l.desk.flight.Held? then Recorded(l, l.desk.flight.outcome.Accepted?)
      else l
    // The adapter raises, before or after its last write; the coordinator takes it for a broker error.
    case AdapterRaises(committed) =>
      if l.phase.Papered? && l.desk.flight.Idle? then
        var desk := if committed then Open(c.account, c.key, l.desk, l.phase.order).0 else l.desk;
        l.(desk := desk.(flight := Idle), phase := Concluded(l.phase.order, l.phase.owed, false))
      else if l.phase.Executing? && committed && l.desk.flight.Held? then Recorded(l, false)
      else if l.phase.Executing? then l.(desk := l.desk.(flight := Idle), phase := Concluded(l.phase.order, l.phase.owed, false))
      else l
    case StopPaper =>
      if !l.phase.Concluded? then l
      else if l.phase.accepted then l.(phase := Quiet)
      else l.(paper := l.paper.(stopped := true, reason := FAILED), phase := HalfStopped(l.phase.order, l.phase.owed))
    case StopDemo =>
      if l.phase.HalfStopped? then l.(desk := l.desk.(store := Halt(l.desk.store, FAILED)), phase := Quiet, running := false) else l
    // The paper store after its commit, the audit of the outcome, or one of the two stops raises out of
    // the cycle, which the runner counts as a failure.
    case CycleRaises => if l.phase.Papered? || l.phase.Concluded? || l.phase.HalfStopped? then l.(phase := Quiet) else l
    case RunnerQuits(reason) =>
      if !l.phase.Quiet? then l
      else l.(paper := l.paper.(stopped := true, reason := reason), desk := l.desk.(store := Halt(l.desk.store, reason)), running := false)
    case Crash => l.(desk := l.desk.(flight := Idle), phase := Quiet, running := false)
    case ElsewherePaper(decision, gate) => if l.running then l else l.(paper := Evaluate(l.paper, decision, gate).0)
    case OperatorStopsPaper(reason) => l.(paper := l.paper.(stopped := true, reason := reason))
    case OperatorStartsPaper(reason) => l.(paper := l.paper.(stopped := false, reason := reason))
    case OperatorStopsDemo(reason) => l.(desk := Next(c.account, c.key, l.desk, StopSwitch(reason)))
    case OperatorStartsDemo(reason) => l.(desk := Next(c.account, c.key, l.desk, StartSwitch(reason)))
    case SettleOne(id) => l.(desk := Next(c.account, c.key, l.desk, ResolvePending(id)))
    case Reconcile(snapshot, n) =>
      if !l.desk.flight.Idle? then l
      else l.(desk := l.desk.(store := Reconciliation(c, l.desk.store, snapshot, l.paper.position, n)))
    case StartRunner(snapshot, n) =>
      if l.running || !l.phase.Quiet? || !l.desk.flight.Idle? then l else Startup(c, l, snapshot, n)
  }

  /** The final write of an order in hand. */
  function Recorded(l: Lab, accepted: bool): Lab
    requires l.phase.Executing? && l.desk.flight.Held?
  {
    l.(desk := Close(l.desk), phase := Concluded(l.phase.order, l.phase.owed && !l.desk.flight.outcome.Accepted?, accepted))
  }

  ghost function History(c: Setup, l: Lab, ms: seq<Move>): Lab
    requires SetupOk(c)
  {
    if ms == [] then l else Step(c, History(c, l, ms[..|ms| - 1]), ms[|ms| - 1])
  }

  // ---------------------------------------------------------------- lock-step

  /** The paper position in broker volume. */
  function PaperVolume(c: Setup, position: real): real { position * c.factor as real }

  predicate Owing(phase: Phase) { !phase.Quiet? && phase.owed }

  /** What the paper position still holds that the fills on file do not. */
  function Owed(l: Lab): int { if Owing(l.phase) then Signed(l.phase.order.side, l.phase.order.volume) else 0 }

  ghost predicate Even(c: Setup, l: Lab)
    requires Indexed(l.desk.store)
  {
    PaperVolume(c, l.paper.position) == (NetTotal(l.desk.store.rows, l.desk.store.order) + Owed(l)) as real
  }

  /** The desk only knows decisions that paper accepted. */
  ghost predicate Known(l: Lab) {
    forall id :: id in l.desk.store.rows ==> id in l.paper.answers && l.paper.answers[id]
  }

  /** The desk's flight is the coordinator's order, under a record still without acceptance. */
  ghost predicate InStep(c: Setup, l: Lab) {
    && (l.desk.flight.Idle? <==> !l.phase.Executing?)
    && (!l.running ==> l.phase.Quiet?)
    && (!l.phase.Quiet? ==> l.phase.order.volume > 0)
    && (l.phase.Executing? ==>
          && l.desk.flight.order == l.phase.order
          && l.phase.order.id in l.desk.store.rows
          && FillOf(l.desk.store.rows[l.phase.order.id]) == 0
          && l.desk.store.rows[l.phase.order.id].request.side == l.phase.order.side
          && l.desk.store.rows[l.phase.order.id].BrokerKey(l.phase.order.id) == c.key(l.phase.order.id)
          && (l.desk.flight.Held? && l.desk.flight.outcome.Accepted? ==> l.desk.flight.outcome.receipt.filledVolume == l.phase.order.volume))
    && (l.phase.Papered? ==> l.phase.order.id in l.paper.answers && l.paper.answers[l.phase.order.id])
    && (l.phase.Papered? && l.phase.owed ==> l.phase.order.id !in l.desk.store.rows)
    && (l.phase.Concluded? && l.phase.accepted ==> !l.phase.owed)
  }

  /** While the runner runs, the paper position is the fills on file and what is owed. */
  ghost predicate LockStep(c: Setup, l: Lab) {
    && Indexed(l.desk.store) && Known(l) && InStep(c, l)
    && (l.running ==> Even(c, l))
  }
}
