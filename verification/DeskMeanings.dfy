/** What the order desk and the coordinator do in every case, read off requests, receipts and records
    alone. */
module DeskMeanings {
  import opened Prelude
  import opened DemoOrders
  import opened DemoLaws
  import opened DemoAdapter
  import opened DemoLockstep

  // ---------------------------------------------------------------- one order

  /** The key under which a record speaks to the broker. */
  function SpeaksAs(id: Id, r: Record): Id { match r.request.brokerId case Some(key) => key case None => id }

  /** The answer before anything is sent. A stopped desk refuses; another record under the same broker
      key stops the desk; a recorded request gets what its record says; anything else is reserved, as
      pending, with its volume, side and broker key. */
  lemma OpenMeaning(account: Account, key: Id -> Id, d: Desk, order: Order)
    requires d.flight.Idle?
    ensures var (e, answer) := Open(account, key, d, order);
            var collides := exists other :: other in d.store.rows && other != order.id && SpeaksAs(other, d.store.rows[other]) == key(order.id);
            && e.wire == d.wire
            && if d.store.stopped then e == d && answer == Some(KillSwitch)
               else if collides then
                 && answer == Some(Collision) && e.store.rows == d.store.rows && e.store.order == d.store.order && e.flight.Idle?
                 && e.store.stopped && !e.store.reconciled && e.store.reason == "broker_identity_collision"
               else if order.id in d.store.rows then
                 && e == d
                 && answer == Some(match d.store.rows[order.id].outcome case Some(outcome) => Prior(outcome) case None => Duplicate)
               else
                 && answer == None && e.flight == Reserved(order) && !e.store.stopped && e.store.reconciled == d.store.reconciled
                 && e.store.order == d.store.order + [order.id]
                 && e.store.rows == d.store.rows[order.id :=
                      Record(Request(account.accountId, account.symbolId, order.side, order.volume, Some(key(order.id))), None)]
  {
    assert forall other :: other in d.store.rows ==> SpeaksAs(other, d.store.rows[other]) == d.store.rows[other].BrokerKey(other);
  }

  /** How far an order that gets its reservation comes before an exception: the request is on file and
      pending as soon as it is reserved, it has been sent from the second write on, an unknown verdict
      stops the desk at the third, and the fourth puts the verdict on file. */
  lemma AttemptStages(account: Account, key: Id -> Id, d: Desk, order: Order, reply: Reply, raising: Raising)
    requires d.flight.Idle? && Submit(account, key, d, order, reply).1.Done?
    ensures var (e, answer) := Attempt(account, key, d, order, reply, raising);
            var whole := Submit(account, key, d, order, reply).0;
            && (answer.Some? <==> raising.Never?)
            && (raising.BeforeOpening? ==> e == d)
            && (!raising.BeforeOpening? ==>
                  && order.id in e.store.rows && e.store.order == d.store.order + [order.id] && e.flight.Idle?
                  && e.wire == (if raising.AfterReserving? then d.wire else d.wire + [order])
                  && (e.store.rows[order.id].outcome.Some? <==> raising.Never? || raising.AfterRecording?)
                  && (e.store.stopped <==> !raising.AfterReserving? && !raising.AfterSending? && whole.store.stopped))
            && (raising.Never? || raising.AfterRecording? ==> e == whole)
  {
    hide Collides, Judge;
  }

  /** A stop of execution withdraws the reconciliation, and only a reconciled desk can be started; a
      pending request can be recorded as rejected, and a desk without pending requests as reconciled. */
  lemma SwitchMeaning(account: Account, key: Id -> Id, d: Desk, reason: string, id: Id)
    ensures var stopped := Next(account, key, d, StopSwitch(reason));
            stopped.store.stopped && !stopped.store.reconciled && stopped.store.reason == reason && stopped.store.rows == d.store.rows
            && stopped.store.order == d.store.order && stopped.wire == d.wire && stopped.flight == d.flight
    ensures var started := Next(account, key, d, StartSwitch(reason));
            if d.store.reconciled then started == d.(store := d.store.(stopped := false, reason := reason)) else started == d
    ensures var settled := Next(account, key, d, ResolvePending(id));
            if d.flight.Idle? && id in d.store.rows && (d.store.rows[id].outcome == None || d.store.rows[id].outcome == Some(Unknown))
            then settled == d.(store := d.store.(rows := d.store.rows[id := d.store.rows[id].(outcome := Some(Rejected))])) else settled == d
    ensures var marked := Next(account, key, d, MarkReconciled);
            if d.flight.Idle? && forall id :: id in d.store.rows ==> exists o :: d.store.rows[id].outcome == Some(o) && !o.Unknown?
            then marked == d.(store := d.store.(reconciled := true)) else marked == d
  {
    assert forall id :: id in d.store.rows ==>
      (d.store.rows[id].Completed() <==> exists o :: d.store.rows[id].outcome == Some(o) && !o.Unknown?) by {
      forall id | id in d.store.rows ensures d.store.rows[id].Completed() <==> exists o :: d.store.rows[id].outcome == Some(o) && !o.Unknown? {
        if d.store.rows[id].Completed() {
          assert d.store.rows[id].outcome == Some(d.store.rows[id].outcome.value);
        }
      }
    }
  }

  // ---------------------------------------------------------------- reconciliation

  /** The last verdict reported under a request's broker key, or under the id itself when no record
      speaks under it. */
  lemma {:induction false} WordMeaning(s: Store, verdicts: seq<(Id, Outcome)>, id: Id)
    ensures match Word(s, verdicts, id)
            case Some(outcome) => exists i :: 0 <= i < |verdicts| && LastAbout(s, verdicts, id, i) && verdicts[i].1 == outcome
            case None => forall i :: 0 <= i < |verdicts| ==> !About(s, verdicts[i].0, id)
  {
    AboutIsNames(s, id);
    hide Names, About;
    if verdicts != [] && !Names(s, verdicts[|verdicts| - 1].0, id) {
      var front := verdicts[..|verdicts| - 1];
      WordMeaning(s, front, id);
      assert forall i :: 0 <= i < |front| ==> front[i] == verdicts[i];
      if Word(s, front, id).Some? {
        var i :| 0 <= i < |front| && LastAbout(s, front, id, i) && front[i].1 == Word(s, front, id).value;
        assert LastAbout(s, verdicts, id, i);
      }
    } else if verdicts != [] {
      assert LastAbout(s, verdicts, id, |verdicts| - 1);
    }
  }

  ghost predicate About(s: Store, key: Id, id: Id) {
    if exists other :: other in s.rows && SpeaksAs(other, s.rows[other]) == key then id in s.rows && SpeaksAs(id, s.rows[id]) == key
    else id == key
  }

  ghost predicate LastAbout(s: Store, verdicts: seq<(Id, Outcome)>, id: Id, i: int) {
    0 <= i < |verdicts| && About(s, verdicts[i].0, id) && forall j :: i < j < |verdicts| ==> !About(s, verdicts[j].0, id)
  }

  lemma AboutIsNames(s: Store, id: Id)
    ensures forall key :: About(s, key, id) <==> Names(s, key, id)
  {
    assert forall other :: other in s.rows ==> SpeaksAs(other, s.rows[other]) == s.rows[other].BrokerKey(other);
  }

  /** A record is evidence of a fill when it is a complete execution of its own request, on this account
      and symbol, under its own broker key, with an order and a position. */
  predicate IsFill(account: Account, id: Id, r: Record) {
    match r.outcome
    case Some(Accepted(c)) =>
      && c.executionType == 3 && c.filledVolume == r.request.volume > 0 && c.orderId > 0 && c.positionId > 0
      && r.request.accountId == account.accountId && r.request.symbolId == account.symbolId && c.brokerId == Some(SpeaksAs(id, r))
    case _ => false
  }

  /** What the records hold in one position: what was bought less what was sold. */
  function OnFile(rows: map<Id, Record>, order: seq<Id>, position: int): int
    requires forall id :: id in order ==> id in rows
  {
    if order == [] then 0 else
    var r := rows[order[|order| - 1]];
    OnFile(rows, order[..|order| - 1], position)
    + match r.outcome
      case Some(Accepted(c)) => if c.positionId != position then 0 else if r.request.side == Buy then c.filledVolume else -c.filledVolume
      case _ => 0
  }

  /** A broker position on the books: of this symbol, open, with a volume, long (1) or short (2). */
  predicate IsOpen(account: Account, p: Position) {
    p.id > 0 && p.volume > 0 && p.symbolId == account.symbolId && p.status == 1 && 1 <= p.side <= 2
  }

  function Holding(ps: seq<Position>, position: int): int {
    if ps == [] then 0 else
    var p := ps[|ps| - 1];
    Holding(ps[..|ps| - 1], position) + if p.id != position then 0 else if p.side == 1 then p.volume else -p.volume
  }

  function HoldingTotal(ps: seq<Position>): int {
    if ps == [] then 0 else
    var p := ps[|ps| - 1];
    HoldingTotal(ps[..|ps| - 1]) + if p.side == 1 then p.volume else -p.volume
  }

  /** No deal stands behind two fills, and a fill that names one names a real one. */
  ghost predicate DealsUsedOnce(rows: map<Id, Record>, order: seq<Id>)
    requires forall id :: id in order ==> id in rows
  {
    && (forall i :: 0 <= i < |order| ==>
          match rows[order[i]].outcome case Some(Accepted(c)) => (c.dealId.Some? ==> c.dealId.value > 0) case _ => true)
    && forall i, j :: 0 <= i < j < |order| ==>
         match (rows[order[i]].outcome, rows[order[j]].outcome)
         case (Some(Accepted(c)), Some(Accepted(d))) => c.dealId.Some? ==> d.dealId != c.dealId
         case _ => true
  }

  lemma DealsMean(rows: map<Id, Record>, order: seq<Id>)
    requires forall id :: id in order ==> id in rows
    ensures DealsDistinct(rows, order) <==> DealsUsedOnce(rows, order)
  {
    if DealsDistinct(rows, order) {
      forall i | 0 <= i < |order|
        ensures match rows[order[i]].outcome case Some(Accepted(c)) => (c.dealId.Some? ==> c.dealId.value > 0) case _ => true
      {
        assert DealOf(rows[order[i]]).Some? ==> DealOf(rows[order[i]]).value > 0;
      }
      forall i, j | 0 <= i < j < |order|
        ensures match (rows[order[i]].outcome, rows[order[j]].outcome)
                case (Some(Accepted(c)), Some(Accepted(d))) => c.dealId.Some? ==> d.dealId != c.dealId
                case _ => true
      {
        assert DealOf(rows[order[i]]).Some? ==> DealOf(rows[order[j]]) != DealOf(rows[order[i]]);
      }
    }
    if DealsUsedOnce(rows, order) {
      forall i, j | 0 <= i < j < |order| && DealOf(rows[order[i]]).Some? ensures DealOf(rows[order[j]]) != DealOf(rows[order[i]]) {
      }
    }
  }

  /** What agreement means: no open orders; every request on file is a fill or a rejection; no deal is
      used twice; every broker position is sound and listed once; position by position the broker holds
      what the records hold; and all of it together is the paper volume. */
  lemma AgreementMeaning(account: Account, s: Store, snap: Snapshot, paper: int)
    requires Indexed(s)
    ensures ExposureAgrees(account, s, snap, paper) <==>
              && snap.openOrders == 0
              && (forall id :: id in s.rows ==> s.rows[id].outcome == Some(Rejected) || IsFill(account, id, s.rows[id]))
              && DealsUsedOnce(s.rows, s.order)
              && (forall i :: 0 <= i < |snap.positions| ==> IsOpen(account, snap.positions[i]))
              && (forall i, j :: 0 <= i < j < |snap.positions| ==> snap.positions[i].id != snap.positions[j].id)
              && (forall p :: OnFile(s.rows, s.order, p) == Holding(snap.positions, p))
              && HoldingTotal(snap.positions) == paper
  {
    SameHoldings(s, snap.positions);
    DealsMean(s.rows, s.order);
    TotalIsBroker(snap.positions);
    FillsAreVerified(account, s);
    PositionsAreOpen(account, snap.positions);
    hide DealsDistinct, DealsUsedOnce, PositionsOk, SameExposure, BrokerTotal, OnFile, Holding, HoldingTotal, IsFill, IsOpen, Verifiable;
  }

  lemma SameHoldings(s: Store, ps: seq<Position>)
    requires Indexed(s)
    ensures SameExposure(s, ps) <==> forall p :: OnFile(s.rows, s.order, p) == Holding(ps, p)
  {
    forall p ensures OnFile(s.rows, s.order, p) == NetAt(s.rows, s.order, p) {
      OnFileIsNet(s.rows, s.order, p);
    }
    forall p ensures Holding(ps, p) == BrokerAt(ps, p) {
      HoldingIsBroker(ps, p);
    }
    hide NetAt, BrokerAt, OnFile, Holding;
    if !SameExposure(s, ps) {
      var p :| NetAt(s.rows, s.order, p) != BrokerAt(ps, p);
      assert OnFile(s.rows, s.order, p) != Holding(ps, p);
    } else {
      forall p ensures OnFile(s.rows, s.order, p) == Holding(ps, p) {
        assert NetAt(s.rows, s.order, p) == BrokerAt(ps, p);
      }
    }
  }

  lemma PositionsAreOpen(account: Account, ps: seq<Position>)
    ensures PositionsOk(account, ps) <==>
              (forall i :: 0 <= i < |ps| ==> IsOpen(account, ps[i])) && forall i, j :: 0 <= i < j < |ps| ==> ps[i].id != ps[j].id
  {
    assert forall i :: 0 <= i < |ps| ==> (PositionOk(account, ps[i]) <==> IsOpen(account, ps[i]));
    hide PositionOk, IsOpen;
  }

  /** What a reconciliation asks for: a snapshot of this very demo account; no two records under one
      broker key; every request that is pending or unknown last reported as rejected; and, with those
      rejections on file, agreement with the paper volume. */
  lemma ReconcilableMeaning(account: Account, s: Store, reply: Option<Snapshot>, paper: Option<int>)
    requires Indexed(s)
    ensures Reconcilable(account, s, reply, paper) <==>
              && reply.Some? && paper.Some? && reply.value.isDemo && reply.value.account == account
              && (forall i, j :: 0 <= i < j < |s.order| ==> SpeaksAs(s.order[i], s.rows[s.order[i]]) != SpeaksAs(s.order[j], s.rows[s.order[j]]))
              && (forall id :: id in s.rows && IsPending(s.rows[id]) ==> Word(s, reply.value.outcomes, id) == Some(Rejected))
              && Indexed(WithRejections(s)) && ExposureAgrees(account, WithRejections(s), reply.value, paper.value)
  {
    assert WithRejections(s) == Settled(s);
    KeysAreUsedOnce(s);
    if reply.Some? {
      PendingAreRejected(s, reply.value.outcomes);
    }
    hide ExposureAgrees, Word, WithRejections, Settled, Unambiguous, AllRejected, SpeaksAs, IsPending, Indexed;
  }

  lemma KeysAreUsedOnce(s: Store)
    requires Indexed(s)
    ensures Unambiguous(s) <==> forall i, j :: 0 <= i < j < |s.order| ==> SpeaksAs(s.order[i], s.rows[s.order[i]]) != SpeaksAs(s.order[j], s.rows[s.order[j]])
  {
    assert forall i :: 0 <= i < |s.order| ==> SpeaksAs(s.order[i], s.rows[s.order[i]]) == s.rows[s.order[i]].BrokerKey(s.order[i]);
  }

  lemma PendingAreRejected(s: Store, verdicts: seq<(Id, Outcome)>)
    requires Indexed(s)
    ensures AllRejected(s, verdicts) <==> forall id :: id in s.rows && IsPending(s.rows[id]) ==> Word(s, verdicts, id) == Some(Rejected)
  {
    assert forall id :: id in s.rows ==> (IsPending(s.rows[id]) <==> !s.rows[id].Completed());
    hide Word;
  }

  predicate IsPending(r: Record) { r.outcome == None || r.outcome == Some(Unknown) }

  function WithRejections(s: Store): Store {
    s.(rows := map id | id in s.rows :: if IsPending(s.rows[id]) then s.rows[id].(outcome := Some(Rejected)) else s.rows[id])
  }

  lemma FillsAreVerified(account: Account, s: Store)
    requires Indexed(s)
    ensures (forall id :: id in s.order ==> Verifiable(account, id, s.rows[id]))
            <==> forall id :: id in s.rows ==> s.rows[id].outcome == Some(Rejected) || IsFill(account, id, s.rows[id])
  {
    forall id | id in s.rows ensures Verifiable(account, id, s.rows[id]) <==> s.rows[id].outcome == Some(Rejected) || IsFill(account, id, s.rows[id]) {
      OneIsVerified(account, id, s.rows[id]);
    }
    hide Verifiable, IsFill;
  }

  lemma OneIsVerified(account: Account, id: Id, r: Record)
    ensures Verifiable(account, id, r) <==> r.outcome == Some(Rejected) || IsFill(account, id, r)
  {
  }

  lemma {:induction false} OnFileIsNet(rows: map<Id, Record>, order: seq<Id>, position: int)
    requires forall id :: id in order ==> id in rows
    ensures OnFile(rows, order, position) == NetAt(rows, order, position)
  {
    if order != [] {
      OnFileIsNet(rows, order[..|order| - 1], position);
    }
  }

  lemma {:induction false} HoldingIsBroker(ps: seq<Position>, position: int)
    ensures Holding(ps, position) == BrokerAt(ps, position)
  {
    if ps != [] {
      HoldingIsBroker(ps[..|ps| - 1], position);
    }
  }

  lemma {:induction false} TotalIsBroker(ps: seq<Position>)
    ensures HoldingTotal(ps) == BrokerTotal(ps)
  {
    if ps != [] {
      TotalIsBroker(ps[..|ps| - 1]);
    }
  }

  // ---------------------------------------------------------------- volumes and paper

  /** A quantity converts exactly when it is positive and a whole number of broker units, and a position
      has an expected volume exactly when it is a whole number of them, of either sign. */
  lemma VolumeMeaning(factor: int, quantity: real, v: int)
    requires factor > 0
    ensures ToVolume(factor, quantity) == Some(v) <==> quantity > 0.0 && v as real == quantity * factor as real
    ensures Expected(factor, quantity) == Some(v) <==> v as real == quantity * factor as real
  {
    var product := quantity * factor as real;
    assert (v as real == product) ==> product.Floor == v;
    assert (-quantity) * factor as real == -product;
    assert (v as real == product) ==> (-product).Floor == -v;
    PositiveProduct(quantity, factor as real);
  }

  lemma PositiveProduct(quantity: real, factor: real)
    requires factor > 0.0
    ensures quantity > 0.0 <==> quantity * factor > 0.0
    ensures quantity == 0.0 <==> quantity * factor == 0.0
  {
  }

  /** A policy makes sense when its minimum is positive and not above its maximum, and its step positive. */
  lemma PolicyMakesSense(p: VolumePolicy)
    ensures p.Valid() <==> p.minVolume > 0 && p.maxVolume >= p.minVolume && p.stepVolume > 0
  {
  }

  /** The order of a decision: its id and side, and its volume when that converts and the broker's policy
      allows it. */
  lemma OrderMeaning(c: Setup, decision: Decision)
    requires SetupOk(c)
    ensures var volume := ToVolume(c.factor, decision.quantity);
            OrderOf(c, decision) ==
              if volume.Some? && (c.policy.None? || c.policy.value.Reason(volume.value).None?)
              then Some(Order(decision.id, decision.side, volume.value)) else None
  {
    hide ToVolume;
  }

  /** Paper answers a decision once: a known id gets its answer again and moves nothing, a new one is
      accepted exactly when paper is not stopped and the gate lets it pass, and then the position moves by
      its quantity on its side. */
  lemma PaperMeaning(p: Paper, decision: Decision, gate: bool)
    ensures var (q, accepted) := Evaluate(p, decision, gate);
            if decision.id in p.answers then q == p && accepted == p.answers[decision.id]
            else
              && (accepted <==> gate && !p.stopped) && q.answers == p.answers[decision.id := accepted]
              && q.position == (if !accepted then p.position else if decision.side == Buy then p.position + decision.quantity else p.position - decision.quantity)
              && q.stopped == p.stopped && q.reason == p.reason
  {
  }
}
