/** At-most-once sending and what reconciliation establishes. */
module DemoLaws {
  import opened Prelude
  import opened DemoOrders

  // ---------------------------------------------------------------- at most once

  datatype Event =
    | OpenOrder(order: Order)
    | SendOrder(reply: Reply)
    | HoldOrder
    | CloseOrder
    | Crash
    | StopSwitch(reason: string)
    | StartSwitch(reason: string)
    | ResolvePending(id: Id)
    | MarkReconciled

  /** One durable step of the desk. Reconciliation may record a verified rejection for a pending
      request and mark the state; starting needs a reconciled state; a crash loses only the flight. */
  function Next(account: Account, key: Id -> Id, d: Desk, e: Event): Desk {
    match e
    case OpenOrder(order) => if d.flight.Idle? then Open(account, key, d, order).0 else d
    case SendOrder(reply) => Send(d, reply)
    case HoldOrder => Hold(key, d)
    case CloseOrder => Close(d)
    case Crash => d.(flight := Idle)
    case StopSwitch(reason) => d.(store := Halt(d.store, reason))
    case StartSwitch(reason) => if d.store.reconciled then d.(store := d.store.(stopped := false, reason := reason)) else d
    case ResolvePending(id) =>
      if d.flight.Idle? && id in d.store.rows && !d.store.rows[id].Completed() then d.(store := Finish(d.store, id, Rejected)) else d
    case MarkReconciled =>
      if d.flight.Idle? && (forall id :: id in d.store.rows ==> d.store.rows[id].Completed())
      then d.(store := d.store.(reconciled := true)) else d
  }

  function Run(account: Account, key: Id -> Id, d: Desk, es: seq<Event>): Desk {
    if es == [] then d else Next(account, key, Run(account, key, d, es[..|es| - 1]), es[|es| - 1])
  }

  /** Every sent order has a record under its own broker key, no id and no broker key was sent
      twice, and a reserved order has not been sent. */
  ghost predicate OnceOnly(key: Id -> Id, d: Desk) {
    && Indexed(d.store)
    && (forall i :: 0 <= i < |d.wire| ==> d.wire[i].id in d.store.rows && d.store.rows[d.wire[i].id].BrokerKey(d.wire[i].id) == key(d.wire[i].id))
    && (forall i, j :: 0 <= i < j < |d.wire| ==> d.wire[i].id != d.wire[j].id && key(d.wire[i].id) != key(d.wire[j].id))
    && (!d.flight.Idle? ==> d.flight.order.id in d.store.rows)
    && (d.flight.Reserved? ==>
          && d.store.rows[d.flight.order.id].BrokerKey(d.flight.order.id) == key(d.flight.order.id)
          && forall i :: 0 <= i < |d.wire| ==> d.wire[i].id != d.flight.order.id && key(d.wire[i].id) != key(d.flight.order.id))
  }

  lemma OpenKeepsOnce(account: Account, key: Id -> Id, d: Desk, order: Order)
    requires OnceOnly(key, d) && d.flight.Idle?
    ensures OnceOnly(key, Open(account, key, d, order).0)
  {
    var e := Open(account, key, d, order).0;
    if e.flight.Reserved? {
      assert order.id !in d.store.order;
      forall i | 0 <= i < |d.wire| ensures d.wire[i].id != order.id && key(d.wire[i].id) != key(order.id) {
        assert d.wire[i].id in d.store.rows;
      }
    }
  }

  lemma StepKeepsOnce(account: Account, key: Id -> Id, d: Desk, e: Event)
    requires OnceOnly(key, d)
    ensures OnceOnly(key, Next(account, key, d, e))
  {
    if e.OpenOrder? && d.flight.Idle? {
      OpenKeepsOnce(account, key, d, e.order);
    } else {
      hide Open;
    }
  }

  /** At most once. Starting from any store and an empty wire, over every sequence of executions,
      replies, losses, crashes, restarts, stops, starts and reconciliations, no request id and no
      broker key reaches the wire twice, whatever the function that shortens ids. */
  lemma {:induction false} AtMostOnce(account: Account, key: Id -> Id, start: Store, es: seq<Event>)
    requires Indexed(start)
    ensures OnceOnly(key, Run(account, key, Desk(start, [], Idle), es))
  {
    if es != [] {
      AtMostOnce(account, key, start, es[..|es| - 1]);
      StepKeepsOnce(account, key, Run(account, key, Desk(start, [], Idle), es[..|es| - 1]), es[|es| - 1]);
    }
  }

  /** A request keeps its record for ever, so a crash anywhere after the reservation leads to a
      refusal, never to a second order. */
  lemma RecordedIdIsNeverReopened(account: Account, key: Id -> Id, d: Desk, order: Order)
    requires order.id in d.store.rows
    ensures var (e, answer) := Open(account, key, d, order); answer.Some? && e.wire == d.wire && e.flight == d.flight && e.store.rows == d.store.rows
  {
  }

  // ---------------------------------------------------------------- sums over positions

  function SumAt(rows: map<Id, Record>, order: seq<Id>, ps: seq<int>): int
    requires forall id :: id in order ==> id in rows
  {
    if ps == [] then 0 else SumAt(rows, order, ps[..|ps| - 1]) + NetAt(rows, order, ps[|ps| - 1])
  }

  function FillIn(r: Record, ps: seq<int>): int {
    if r.outcome.Some? && r.outcome.value.Accepted? && r.outcome.value.receipt.positionId in ps then FillOf(r) else 0
  }

  lemma {:induction false} OneFillOnce(rows: map<Id, Record>, order: seq<Id>, ps: seq<int>)
    requires order != [] && Distinct(ps) && forall id :: id in order ==> id in rows
    ensures SumAt(rows, order, ps) == SumAt(rows, order[..|order| - 1], ps) + FillIn(rows[order[|order| - 1]], ps)
  {
    if ps != [] {
      OneFillOnce(rows, order, ps[..|ps| - 1]);
      assert ps == ps[..|ps| - 1] + [ps[|ps| - 1]];
      assert ps[|ps| - 1] !in ps[..|ps| - 1];
    }
  }

  ghost predicate Includes(rows: map<Id, Record>, order: seq<Id>, ps: seq<int>)
    requires forall id :: id in order ==> id in rows
  {
    forall id :: id in order && rows[id].outcome.Some? && rows[id].outcome.value.Accepted? ==> rows[id].outcome.value.receipt.positionId in ps
  }

  /** Summing position by position or fill by fill gives the same total. */
  lemma {:induction false} TotalIsSum(rows: map<Id, Record>, order: seq<Id>, ps: seq<int>)
    requires Distinct(ps) && (forall id :: id in order ==> id in rows) && Includes(rows, order, ps)
    ensures NetTotal(rows, order) == SumAt(rows, order, ps)
  {
    if order == [] {
      NothingAt(rows, ps);
    } else {
      TotalIsSum(rows, order[..|order| - 1], ps);
      OneFillOnce(rows, order, ps);
      assert order[|order| - 1] in order;
    }
  }

  lemma {:induction false} NothingAt(rows: map<Id, Record>, ps: seq<int>)
    ensures SumAt(rows, [], ps) == 0
  {
    if ps != [] {
      NothingAt(rows, ps[..|ps| - 1]);
    }
  }

  function Ids(ps: seq<Position>): (r: seq<int>)
    ensures |r| == |ps| && forall i :: 0 <= i < |ps| ==> r[i] == ps[i].id
  {
    if ps == [] then [] else Ids(ps[..|ps| - 1]) + [ps[|ps| - 1].id]
  }

  lemma {:induction false} BrokerAtDistinct(ps: seq<Position>, i: nat)
    requires i < |ps| && forall j, k :: 0 <= j < k < |ps| ==> ps[j].id != ps[k].id
    ensures BrokerAt(ps, ps[i].id) == Held1(ps[i])
    ensures forall q :: (forall j :: 0 <= j < |ps| ==> ps[j].id != q) ==> BrokerAt(ps, q) == 0
  {
    BrokerAtAbsent(ps);
    var front := ps[..|ps| - 1];
    BrokerAtAbsent(front);
    if i < |front| {
      BrokerAtDistinct(front, i);
      assert front[i] == ps[i];
    } else {
      assert forall j :: 0 <= j < |front| ==> front[j].id != ps[i].id;
    }
  }

  lemma {:induction false} BrokerAtAbsent(ps: seq<Position>)
    ensures forall q :: (forall j :: 0 <= j < |ps| ==> ps[j].id != q) ==> BrokerAt(ps, q) == 0
  {
    if ps != [] {
      var front := ps[..|ps| - 1];
      BrokerAtAbsent(front);
      forall q | forall j :: 0 <= j < |ps| ==> ps[j].id != q ensures BrokerAt(ps, q) == 0 {
        assert forall j :: 0 <= j < |front| ==> front[j].id == ps[j].id;
        assert ps[|ps| - 1].id != q;
      }
    }
  }

  lemma {:induction false} SumIsBrokerTotal(rows: map<Id, Record>, order: seq<Id>, ps: seq<Position>, n: nat)
    requires n <= |ps| && (forall id :: id in order ==> id in rows)
    requires forall j, k :: 0 <= j < k < |ps| ==> ps[j].id != ps[k].id
    requires forall p :: NetAt(rows, order, p) == BrokerAt(ps, p)
    ensures SumAt(rows, order, Ids(ps)[..n]) == BrokerTotal(ps[..n])
  {
    if n > 0 {
      SumIsBrokerTotal(rows, order, ps, n - 1);
      BrokerAtDistinct(ps, n - 1);
      assert Ids(ps)[..n][..n - 1] == Ids(ps)[..n - 1] && ps[..n][..n - 1] == ps[..n - 1];
    }
  }

  /** Positions of fills that the snapshot lacks, appended once each; they net to zero. */
  lemma {:induction false} CompleteIds(rows: map<Id, Record>, order: seq<Id>, part: seq<Id>, ps: seq<int>) returns (all: seq<int>)
    requires (forall id :: id in order ==> id in rows) && (forall id :: id in part ==> id in order)
    requires Distinct(ps) && forall p :: p !in ps ==> NetAt(rows, order, p) == 0
    ensures Distinct(all) && ps <= all && Includes(rows, part, all)
    ensures SumAt(rows, order, all) == SumAt(rows, order, ps)
  {
    all := ps;
    if part != [] {
      all := CompleteIds(rows, order, part[..|part| - 1], ps);
      var r := rows[part[|part| - 1]];
      if r.outcome.Some? && r.outcome.value.Accepted? && r.outcome.value.receipt.positionId !in all {
        var q := r.outcome.value.receipt.positionId;
        assert (all + [q])[..|all|] == all;
        assert q !in ps;
        all := all + [q];
      }
      assert part == part[..|part| - 1] + [part[|part| - 1]];
    }
  }

  /** When every position agrees, the broker's total is the total of all persisted fills. */
  lemma AgreementTotals(account: Account, s: Store, snap: Snapshot, paper: int)
    requires Indexed(s) && ExposureAgrees(account, s, snap, paper)
    ensures NetTotal(s.rows, s.order) == paper
  {
    var ps := snap.positions;
    var ids := Ids(ps);
    BrokerAtAbsent(ps);
    forall p | p !in ids ensures NetAt(s.rows, s.order, p) == 0 {
      assert forall j :: 0 <= j < |ps| ==> ps[j].id == ids[j];
    }
    var all := CompleteIds(s.rows, s.order, s.order, ids);
    TotalIsSum(s.rows, s.order, all);
    SumIsBrokerTotal(s.rows, s.order, ps, |ps|);
    assert ids[..|ps|] == ids && ps[..|ps|] == ps;
  }
}
