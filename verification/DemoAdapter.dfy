/** The order adapter of xauusd/ctrader_demo.py as the object it is: every method is proved to be a
    run of the desk machine, so what holds over all runs holds of it. */
module DemoAdapter {
  import opened Prelude
  import opened DemoOrders
  import opened DemoLaws

  // ---------------------------------------------------------------- one execution

  /** An order that meets no crash: opened and, when it got its reservation, sent, judged, recorded. */
  function Submit(account: Account, key: Id -> Id, d: Desk, order: Order, reply: Reply): (Desk, Answer) {
    var (e, answer) := Open(account, key, d, order);
    if answer.Some? then (e, answer.value)
    else (Close(Hold(key, Send(e, reply))), Done(Judge(reply, order, key(order.id))))
  }

  /** The order in which the desk machine performs an execution. */
  function Steps(order: Order, reply: Reply): seq<Event> { [OpenOrder(order), SendOrder(reply), HoldOrder, CloseOrder] }

  lemma FourSteps(account: Account, key: Id -> Id, d: Desk, a: Event, b: Event, c: Event, e: Event)
    ensures Run(account, key, d, [a, b, c, e]) == Next(account, key, Next(account, key, Next(account, key, Next(account, key, d, a), b), c), e)
  {
    hide Next;
    assert [a, b, c, e][..3] == [a, b, c] && [a, b, c][..2] == [a, b] && [a, b][..1] == [a];
    assert Run(account, key, d, [a, b]) == Next(account, key, Run(account, key, d, [a]), b);
    assert Run(account, key, d, [a]) == Next(account, key, Run(account, key, d, []), a) by { assert [a][..0] == []; }
  }

  lemma SubmitIsARun(account: Account, key: Id -> Id, d: Desk, order: Order, reply: Reply)
    requires d.flight.Idle?
    ensures Submit(account, key, d, order, reply).0 == Run(account, key, d, Steps(order, reply))
  {
    FourSteps(account, key, d, OpenOrder(order), SendOrder(reply), HoldOrder, CloseOrder);
    hide Judge, Collides;
  }

  /** What a caller learns from an execution. The order went out exactly when execution was not
      stopped, no other record spoke under its broker key and it had no record; then its record
      holds the verdict on the reply. Only a verdict of accepted on this very order, now or
      recorded before, is accepted, and an unknown verdict leaves execution stopped. */
  lemma SubmitMeaning(account: Account, key: Id -> Id, d: Desk, order: Order, reply: Reply)
    requires d.flight.Idle?
    ensures var (e, answer) := Submit(account, key, d, order, reply);
            var sent := !d.store.stopped && !Collides(d.store, order.id, key(order.id)) && order.id !in d.store.rows;
            && e.flight.Idle?
            && e.wire == d.wire + (if sent then [order] else [])
            && (sent <==> answer.Done?)
            && (sent ==> (&& e.store.order == d.store.order + [order.id]
                          && e.store.rows == d.store.rows[order.id := Record(
                                Request(account.accountId, account.symbolId, order.side, order.volume, Some(key(order.id))),
                                Some(Judge(reply, order, key(order.id))))]
                          && e.store.stopped == Judge(reply, order, key(order.id)).Unknown?))
            && (!sent ==> e.store.rows == d.store.rows && e.store.order == d.store.order)
            && (answer.IsAccepted() ==> !e.store.stopped && e.store.reconciled == d.store.reconciled)
            && (answer.IsAccepted() ==> order.id in e.store.rows && e.store.rows[order.id].outcome.Some? && e.store.rows[order.id].outcome.value.Accepted?)
  {
    hide Collides;
  }

  /** What a sent order's record says. It is accepted exactly when the reply is the complete fill of this
      very order without an error, and rejected exactly when the reply is an error that shows no fill.
      Anything else, a lost reply above all, is unknown and leaves execution stopped. */
  lemma VerdictMeaning(account: Account, key: Id -> Id, d: Desk, order: Order, reply: Reply)
    requires d.flight.Idle? && Submit(account, key, d, order, reply).1.Done?
    ensures var (e, answer) := Submit(account, key, d, order, reply);
            && order.id in e.store.rows && e.store.rows[order.id].outcome == Some(answer.outcome)
            && (answer.outcome.Accepted? <==>
                  && reply.Answered? && reply.receipt.executionType == 3 && !reply.receipt.isError && reply.receipt.filledVolume == order.volume
                  && reply.receipt.orderId > 0 && reply.receipt.positionId > 0 && reply.receipt.brokerId == Some(key(order.id)))
            && (answer.outcome.Accepted? ==> answer.outcome.receipt == reply.receipt)
            && (answer.outcome.Rejected? <==> reply.Answered? && reply.receipt.isError && !reply.receipt.executed)
            && (answer.outcome.Unknown? ==> e.store.stopped && !e.store.reconciled
                                            && e.store.reason == if reply.Lost? then "transport_failure" else "order_outcome_unknown")
            && (!answer.outcome.Unknown? ==> !e.store.stopped && e.store.reason == d.store.reason && e.store.reconciled == d.store.reconciled)
  {
    hide Collides;
  }

  /** Where an execution raises: before it opens the order, or after one of its writes. */
  datatype Raising = Never | BeforeOpening | AfterReserving | AfterSending | AfterHolding | AfterRecording

  /** An execution that may raise; its caller then has no answer, and the writes made so far stay. */
  function Attempt(account: Account, key: Id -> Id, d: Desk, order: Order, reply: Reply, raising: Raising): (Desk, Option<Answer>) {
    if raising.BeforeOpening? then (d, None) else
    var (e, answer) := Open(account, key, d, order);
    if answer.Some? then (e, answer)
    else if raising.AfterReserving? then (e.(flight := Idle), None)
    else if raising.AfterSending? then (Send(e, reply).(flight := Idle), None)
    else if raising.AfterHolding? then (Hold(key, Send(e, reply)).(flight := Idle), None)
    else (Close(Hold(key, Send(e, reply))), if raising.AfterRecording? then None else Some(Done(Judge(reply, order, key(order.id)))))
  }

  lemma AttemptIsSubmit(account: Account, key: Id -> Id, d: Desk, order: Order, reply: Reply)
    ensures var (e, answer) := Submit(account, key, d, order, reply); Attempt(account, key, d, order, reply, Never) == (e, Some(answer))
  {
  }

  /** The execution put an acceptance of this order on file. */
  predicate PutOnFile(d: Desk, e: Desk, order: Order) {
    && order.id !in d.store.rows && order.id in e.store.rows
    && e.store.rows[order.id].outcome.Some? && e.store.rows[order.id].outcome.value.Accepted?
  }

  /** An execution, raising or not, adds at most one record, and an accepted answer rests on a record
      of an acceptance, from now or before. */
  lemma AttemptMeaning(account: Account, key: Id -> Id, d: Desk, order: Order, reply: Reply, raising: Raising)
    requires d.flight.Idle?
    ensures var (e, answer) := Attempt(account, key, d, order, reply, raising);
            && e.flight.Idle?
            && ((e.store.rows == d.store.rows && e.store.order == d.store.order)
                || (&& order.id !in d.store.rows && e.store.order == d.store.order + [order.id]
                    && order.id in e.store.rows && e.store.rows == d.store.rows[order.id := e.store.rows[order.id]]
                    && e.store.rows[order.id].request.side == order.side
                    && (PutOnFile(d, e, order) ==> e.store.rows[order.id].outcome.value.receipt.filledVolume == order.volume)))
            && (answer.Some? && answer.value.IsAccepted() ==> order.id in d.store.rows || PutOnFile(d, e, order))
            && (answer.Some? && !answer.value.IsAccepted() ==> !PutOnFile(d, e, order))
  {
    hide Collides;
  }

  // ---------------------------------------------------------------- naming broker identities

  ghost predicate Unambiguous(s: Store)
    requires Indexed(s)
  {
    forall i, j :: 0 <= i < j < |s.order| ==> s.rows[s.order[i]].BrokerKey(s.order[i]) != s.rows[s.order[j]].BrokerKey(s.order[j])
  }

  /** Whom a verdict under `k` speaks about: the record with that broker key, or else the id itself. */
  ghost predicate Names(s: Store, k: Id, id: Id) {
    || (id in s.rows && s.rows[id].BrokerKey(id) == k)
    || (k == id && forall other :: other in s.rows ==> s.rows[other].BrokerKey(other) != k)
  }

  /** The last verdict about `id`. */
  ghost function Word(s: Store, verdicts: seq<(Id, Outcome)>, id: Id): Option<Outcome> {
    if verdicts == [] then None
    else if Names(s, verdicts[|verdicts| - 1].0, id) then Some(verdicts[|verdicts| - 1].1)
    else Word(s, verdicts[..|verdicts| - 1], id)
  }

  /** Every request without a final outcome is reported as rejected. */
  ghost predicate AllRejected(s: Store, verdicts: seq<(Id, Outcome)>)
    requires Indexed(s)
  {
    forall id :: id in s.order && !s.rows[id].Completed() ==> Word(s, verdicts, id) == Some(Rejected)
  }

  /** Every request without a final outcome has some verdict. */
  ghost predicate AllAnswered(s: Store, verdicts: seq<(Id, Outcome)>)
    requires Indexed(s)
  {
    forall i :: 0 <= i < |s.order| && !s.rows[s.order[i]].Completed() ==> Word(s, verdicts, s.order[i]).Some?
  }

  /** Where settling stops: nowhere while some pending request has no verdict, else at the first one
      that is not a rejection. */
  ghost predicate StopsAt(s: Store, verdicts: seq<(Id, Outcome)>, n: nat)
    requires Indexed(s)
  {
    if !AllAnswered(s, verdicts) then n == 0
    else n < |s.order| && !s.rows[s.order[n]].Completed() && Word(s, verdicts, s.order[n]) != Some(Rejected)
  }

  /** The store with those rejections written down. */
  function Settled(s: Store): Store {
    s.(rows := map id | id in s.rows :: if s.rows[id].Completed() then s.rows[id] else s.rows[id].(outcome := Some(Rejected)))
  }

  ghost predicate NamedBy(s: Store, mapping: map<Id, Id>, n: nat)
    requires Indexed(s) && n <= |s.order|
  {
    && (forall i :: 0 <= i < n ==> s.rows[s.order[i]].BrokerKey(s.order[i]) in mapping
                                    && mapping[s.rows[s.order[i]].BrokerKey(s.order[i])] == s.order[i])
    && (forall k :: k in mapping ==> mapping[k] in s.order[..n] && s.rows[mapping[k]].BrokerKey(mapping[k]) == k)
  }

  lemma NamedMeans(s: Store, mapping: map<Id, Id>, k: Id, id: Id)
    requires Indexed(s) && NamedBy(s, mapping, |s.order|)
    ensures Names(s, k, id) <==> (if k in mapping then mapping[k] else k) == id
  {
    assert s.order[..|s.order|] == s.order;
    forall other | other in s.rows ensures s.rows[other].BrokerKey(other) in mapping && mapping[s.rows[other].BrokerKey(other)] == other {
      var i :| 0 <= i < |s.order| && s.order[i] == other;
    }
  }

  ghost predicate KeysDiffer(s: Store, n: nat)
    requires Indexed(s) && n <= |s.order|
  {
    forall i, j :: 0 <= i < j < n ==> s.rows[s.order[i]].BrokerKey(s.order[i]) != s.rows[s.order[j]].BrokerKey(s.order[j])
  }

  lemma NamedStep(s: Store, mapping: map<Id, Id>, n: nat)
    requires Indexed(s) && n < |s.order| && NamedBy(s, mapping, n) && KeysDiffer(s, n)
    ensures s.order[n] in s.rows
    ensures var k := s.rows[s.order[n]].BrokerKey(s.order[n]);
            if k in mapping then !Unambiguous(s) else NamedBy(s, mapping[k := s.order[n]], n + 1) && KeysDiffer(s, n + 1)
  {
    var k := s.rows[s.order[n]].BrokerKey(s.order[n]);
    if k in mapping {
      assert mapping[k] in s.order[..n];
    }
    assert s.order[..n + 1] == s.order[..n] + [s.order[n]];
  }

  method Identify(s: Store) returns (r: Option<map<Id, Id>>)
    requires Indexed(s)
    ensures r.Some? <==> Unambiguous(s)
    ensures r.Some? ==> NamedBy(s, r.value, |s.order|)
  {
    var mapping: map<Id, Id> := map[];
    hide NamedBy, Indexed;
    assert NamedBy(s, mapping, 0) by { NothingNamed(s); }
    for n := 0 to |s.order|
      invariant NamedBy(s, mapping, n)
      invariant KeysDiffer(s, n)
    {
      NamedStep(s, mapping, n);
      hide KeysDiffer, Unambiguous;
      var id := s.order[n];
      var k := s.rows[id].BrokerKey(id);
      if k in mapping {
        return None;
      }
      mapping := mapping[k := id];
    }
    r := Some(mapping);
  }

  lemma NothingNamed(s: Store)
    requires Indexed(s)
    ensures NamedBy(s, map[], 0)
  {
  }

  method Translate(s: Store, mapping: map<Id, Id>, verdicts: seq<(Id, Outcome)>) returns (r: map<Id, Outcome>)
    requires Indexed(s) && NamedBy(s, mapping, |s.order|)
    ensures forall id :: Word(s, verdicts, id) == if id in r then Some(r[id]) else None
  {
    r := map[];
    for n := 0 to |verdicts|
      invariant forall id :: Word(s, verdicts[..n], id) == if id in r then Some(r[id]) else None
    {
      var (k, outcome) := verdicts[n];
      ghost var was := r;
      r := r[(if k in mapping then mapping[k] else k) := outcome];
      assert verdicts[..n + 1][..n] == verdicts[..n];
      forall id ensures Word(s, verdicts[..n + 1], id) == if id in r then Some(r[id]) else None {
        NamedMeans(s, mapping, k, id);
      }
    }
    assert verdicts[..|verdicts|] == verdicts;
  }

  // ---------------------------------------------------------------- exposure

  ghost predicate FillsOk(account: Account, s: Store, n: nat)
    requires Indexed(s) && n <= |s.order|
  {
    && (forall i :: 0 <= i < n ==> Verifiable(account, s.order[i], s.rows[s.order[i]]))
    && DealsDistinct(s.rows, s.order[..n])
  }

  ghost predicate SumsTo(rows: map<Id, Record>, order: seq<Id>, expected: map<int, int>)
    requires forall id :: id in order ==> id in rows
  {
    forall p :: NetAt(rows, order, p) == if p in expected then expected[p] else 0
  }

  ghost predicate DealsSeen(rows: map<Id, Record>, order: seq<Id>, deals: set<int>)
    requires forall id :: id in order ==> id in rows
  {
    && (forall i :: 0 <= i < |order| && DealOf(rows[order[i]]).Some? ==> DealOf(rows[order[i]]).value in deals)
    && (forall x :: x in deals ==> exists i :: 0 <= i < |order| && DealOf(rows[order[i]]) == Some(x))
  }

  lemma SumsSnoc(rows: map<Id, Record>, order: seq<Id>, id: Id, expected: map<int, int>, more: map<int, int>)
    requires id in rows && (forall x :: x in order ==> x in rows)
    requires SumsTo(rows, order, expected)
    requires forall p :: (if p in more then more[p] else 0) == (if p in expected then expected[p] else 0) + FillAt(rows[id], p)
    ensures SumsTo(rows, order + [id], more)
  {
    assert (order + [id])[..|order|] == order;
  }

  /** One record read into the books, or its refusal. */
  method ReadFill(account: Account, id: Id, r: Record, expected: map<int, int>, deals: set<int>)
    returns (ok: bool, more: map<int, int>, seen: set<int>)
    ensures ok <==> Verifiable(account, id, r) && (DealOf(r).Some? ==> DealOf(r).value > 0 && DealOf(r).value !in deals)
    ensures ok ==> forall p :: (if p in more then more[p] else 0) == (if p in expected then expected[p] else 0) + FillAt(r, p)
    ensures ok ==> seen == deals + (if DealOf(r).Some? then {DealOf(r).value} else {})
  {
    ok, more, seen := true, expected, deals;
    if !r.Completed() {
      ok := false;
    } else if r.outcome.value.Accepted? {
      if !VerifiedFill(account, id, r) {
        ok := false;
      } else {
        var c := r.outcome.value.receipt;
        if c.dealId.Some? {
          if c.dealId.value <= 0 || c.dealId.value in deals {
            return false, more, seen;
          }
          seen := deals + {c.dealId.value};
        }
        more := expected[c.positionId := (if c.positionId in expected then expected[c.positionId] else 0) + Signed(r.request.side, c.filledVolume)];
      }
    }
  }

  lemma DealsSnoc(rows: map<Id, Record>, order: seq<Id>, id: Id, deals: set<int>)
    requires id in rows && (forall x :: x in order ==> x in rows)
    requires DealsDistinct(rows, order) && DealsSeen(rows, order, deals)
    ensures DealsDistinct(rows, order + [id]) <==> (DealOf(rows[id]).Some? ==> DealOf(rows[id]).value > 0 && DealOf(rows[id]).value !in deals)
    ensures DealsSeen(rows, order + [id], deals + (if DealOf(rows[id]).Some? then {DealOf(rows[id]).value} else {}))
  {
    hide DealOf;
    var n, b, deal := |order|, order + [id], DealOf(rows[id]);
    assert b[n] == id && forall i :: 0 <= i < n ==> b[i] == order[i];
    if deal.Some? && deal.value in deals {
      var x := deal.value;
      assert x in deals;
      var i :| 0 <= i < n && DealOf(rows[order[i]]) == Some(x);
      assert DealOf(rows[b[n]]) == DealOf(rows[b[i]]);
    }
    if deal.Some? {
      assert DealOf(rows[b[n]]) == Some(deal.value);
    }
    forall x | x in deals ensures exists i :: 0 <= i < |b| && DealOf(rows[b[i]]) == Some(x) {
      var i :| 0 <= i < n && DealOf(rows[order[i]]) == Some(x);
      assert DealOf(rows[b[i]]) == Some(x);
    }
  }

  lemma FillsSnoc(account: Account, s: Store, n: nat, deals: set<int>)
    requires Indexed(s) && n < |s.order| && FillsOk(account, s, n) && DealsSeen(s.rows, s.order[..n], deals)
    ensures var r := s.rows[s.order[n]];
            FillsOk(account, s, n + 1) <==>
              Verifiable(account, s.order[n], r) && (DealOf(r).Some? ==> DealOf(r).value > 0 && DealOf(r).value !in deals)
    ensures var r := s.rows[s.order[n]];
            DealsSeen(s.rows, s.order[..n + 1], deals + (if DealOf(r).Some? then {DealOf(r).value} else {}))
  {
    hide Verifiable, DealOf, DealsDistinct, DealsSeen;
    assert s.order[..n + 1] == s.order[..n] + [s.order[n]];
    DealsSnoc(s.rows, s.order[..n], s.order[n], deals);
  }

  lemma FillsFront(account: Account, s: Store, n: nat, m: nat)
    requires Indexed(s) && n <= m <= |s.order| && FillsOk(account, s, m)
    ensures FillsOk(account, s, n)
  {
    hide Verifiable;
    hide DealOf;
    assert forall i :: 0 <= i < n ==> s.order[..n][i] == s.order[..m][i];
  }

  /** All persisted records as net volume per position; `None` when any of them cannot be verified. */
  method ReadFills(account: Account, s: Store) returns (r: Option<map<int, int>>)
    requires Indexed(s)
    ensures r.Some? <==> FillsOk(account, s, |s.order|)
    ensures r.Some? ==> SumsTo(s.rows, s.order, r.value)
  {
    hide Verifiable, DealOf, FillAt, FillsOk, SumsTo, DealsSeen;
    var expected: map<int, int> := map[];
    var deals: set<int> := {};
    NothingRead(account, s);
    for n := 0 to |s.order|
      invariant FillsOk(account, s, n)
      invariant SumsTo(s.rows, s.order[..n], expected)
      invariant DealsSeen(s.rows, s.order[..n], deals)
    {
      var id := s.order[n];
      FillsSnoc(account, s, n, deals);
      var ok, more, seen := ReadFill(account, id, s.rows[id], expected, deals);
      if !ok {
        if FillsOk(account, s, |s.order|) {
          FillsFront(account, s, n + 1, |s.order|);
        }
        return None;
      }
      SumsSnoc(s.rows, s.order[..n], id, expected, more);
      assert s.order[..n + 1] == s.order[..n] + [id];
      expected, deals := more, seen;
    }
    assert s.order[..|s.order|] == s.order;
    r := Some(expected);
  }

  lemma NothingRead(account: Account, s: Store)
    requires Indexed(s)
    ensures FillsOk(account, s, 0) && SumsTo(s.rows, s.order[..0], map[]) && DealsSeen(s.rows, s.order[..0], {})
  {
  }

  ghost predicate Books(ps: seq<Position>, actual: map<int, int>) {
    && (forall p :: BrokerAt(ps, p) == if p in actual then actual[p] else 0)
    && (forall i :: 0 <= i < |ps| ==> ps[i].id in actual)
    && (forall p :: p in actual ==> actual[p] != 0 && exists i :: 0 <= i < |ps| && ps[i].id == p)
  }

  lemma BooksSnoc(account: Account, ps: seq<Position>, n: nat, actual: map<int, int>)
    requires n < |ps| && PositionsOk(account, ps[..n]) && Books(ps[..n], actual)
    ensures PositionsOk(account, ps[..n + 1]) <==> PositionOk(account, ps[n]) && ps[n].id !in actual
    ensures PositionOk(account, ps[n]) && ps[n].id !in actual ==> Books(ps[..n + 1], actual[ps[n].id := Held1(ps[n])])
  {
    var a := ps[..n];
    var b := ps[..n + 1];
    assert b[..n] == a && b[n] == ps[n];
    assert forall i :: 0 <= i < n ==> b[i] == a[i];
    if ps[n].id in actual {
      var i :| 0 <= i < |a| && a[i].id == ps[n].id;
      assert b[i].id == b[n].id;
    } else if PositionOk(account, ps[n]) {
      var more := actual[ps[n].id := Held1(ps[n])];
      forall p | p in more ensures more[p] != 0 && exists i :: 0 <= i < |b| && b[i].id == p {
        if p == ps[n].id {
          assert b[n].id == p;
        } else {
          var i :| 0 <= i < |a| && a[i].id == p;
          assert b[i].id == p;
        }
      }
    }
  }

  lemma PositionsFront(account: Account, ps: seq<Position>, n: nat)
    requires n <= |ps| && PositionsOk(account, ps)
    ensures PositionsOk(account, ps[..n])
  {
  }

  method ReadPositions(account: Account, ps: seq<Position>) returns (r: Option<map<int, int>>, total: int)
    ensures r.Some? <==> PositionsOk(account, ps)
    ensures r.Some? ==> Books(ps, r.value) && total == BrokerTotal(ps)
  {
    hide Books, PositionsOk, Held1;
    var actual: map<int, int> := map[];
    total := 0;
    NoPositions(account, ps);
    for n := 0 to |ps|
      invariant PositionsOk(account, ps[..n])
      invariant Books(ps[..n], actual)
      invariant total == BrokerTotal(ps[..n])
    {
      BooksSnoc(account, ps, n, actual);
      if !PositionOk(account, ps[n]) || ps[n].id in actual {
        if PositionsOk(account, ps) {
          PositionsFront(account, ps, n + 1);
        }
        return None, 0;
      }
      actual := actual[ps[n].id := Held1(ps[n])];
      total := total + Held1(ps[n]);
      assert ps[..n + 1][..n] == ps[..n];
    }
    assert ps[..|ps|] == ps;
    r := Some(actual);
  }

  lemma NoPositions(account: Account, ps: seq<Position>)
    ensures PositionsOk(account, ps[..0]) && Books(ps[..0], map[])
  {
  }

  function NonZero(m: map<int, int>): map<int, int> { map p | p in m && m[p] != 0 :: m[p] }

  /** Comparing the two dictionaries after dropping zeros compares every position. */
  lemma SameBooks(s: Store, expected: map<int, int>, ps: seq<Position>, actual: map<int, int>)
    requires Indexed(s) && SumsTo(s.rows, s.order, expected) && Books(ps, actual)
    ensures actual == NonZero(expected) <==> SameExposure(s, ps)
  {
    var kept := NonZero(expected);
    if SameExposure(s, ps) {
      forall p ensures p in kept <==> p in actual {
        assert NetAt(s.rows, s.order, p) == BrokerAt(ps, p);
      }
      forall p | p in kept ensures kept[p] == actual[p] {
        assert NetAt(s.rows, s.order, p) == BrokerAt(ps, p);
      }
    }
    if actual == kept {
      forall p ensures NetAt(s.rows, s.order, p) == BrokerAt(ps, p) {
        assert p in actual <==> p in kept;
      }
    }
  }

  lemma AgreementSplits(account: Account, s: Store, snap: Snapshot, paper: int)
    requires Indexed(s)
    ensures ExposureAgrees(account, s, snap, paper) <==>
            && snap.openOrders == 0 && FillsOk(account, s, |s.order|) && PositionsOk(account, snap.positions)
            && SameExposure(s, snap.positions) && BrokerTotal(snap.positions) == paper
  {
    hide Verifiable, DealsDistinct, PositionsOk, SameExposure;
    assert s.order[..|s.order|] == s.order;
    if FillsOk(account, s, |s.order|) {
      forall id | id in s.order ensures Verifiable(account, id, s.rows[id]) {
        var i :| 0 <= i < |s.order| && s.order[i] == id;
      }
    }
  }

  /** Passes exactly when nothing is open at the broker, every persisted request has a verified
      fill or a rejection under its own deal, every broker position is sound, the two sides agree
      position by position, and the broker's total is the paper volume. `paper` is absent when its
      provider fails. */
  method VerifyExposure(account: Account, s: Store, snap: Snapshot, paper: Option<int>) returns (ok: bool)
    requires Indexed(s)
    ensures ok <==> paper.Some? && ExposureAgrees(account, s, snap, paper.value)
  {
    hide Books, PositionsOk, SumsTo, FillsOk, ExposureAgrees, BrokerTotal, SameExposure;
    if paper.Some? {
      AgreementSplits(account, s, snap, paper.value);
    }
    if snap.openOrders > 0 {
      return false;
    }
    var expected := ReadFills(account, s);
    if expected.None? {
      return false;
    }
    var actual, total := ReadPositions(account, snap.positions);
    if actual.None? {
      return false;
    }
    SameBooks(s, expected.value, snap.positions, actual.value);
    if actual.value != NonZero(expected.value) {
      return false;
    }
    ok := paper.Some? && total == paper.value;
  }

  // ---------------------------------------------------------------- the adapter

  /** Rejections of the first `n` requests, which concern only those still pending. */
  ghost function Rejections(s: Store, n: nat): seq<Event>
    requires n <= |s.order|
  {
    if n == 0 then [] else Rejections(s, n - 1) + [ResolvePending(s.order[n - 1])]
  }

  /** The store after the first `n` rows were settled. */
  function SettledTo(s: Store, n: nat): Store
    requires n <= |s.order|
  {
    s.(rows := map id | id in s.rows :: if s.rows[id].Completed() || id !in s.order[..n] then s.rows[id] else s.rows[id].(outcome := Some(Rejected)))
  }

  lemma SettledStep(s: Store, n: nat)
    requires Indexed(s) && n < |s.order|
    ensures var id := s.order[n];
            && id in SettledTo(s, n).rows && SettledTo(s, n).rows[id] == s.rows[id]
            && SettledTo(s, n + 1) == if s.rows[id].Completed() then SettledTo(s, n) else Finish(SettledTo(s, n), id, Rejected)
  {
    var id := s.order[n];
    hide Indexed;
    var a, b := SettledTo(s, n), SettledTo(s, n + 1);
    assert a.rows.Keys == s.rows.Keys == b.rows.Keys;
    forall x | x in s.rows ensures b.rows[x] == if x == id && !s.rows[id].Completed() then s.rows[id].(outcome := Some(Rejected)) else a.rows[x] {
      assert x in s.order[..n + 1] <==> x in s.order[..n] || x == id;
    }
    if s.rows[id].Completed() {
      assert a.rows == b.rows;
    } else {
      assert b.rows == a.rows[id := s.rows[id].(outcome := Some(Rejected))];
    }
  }

  lemma SettledEnds(s: Store)
    requires Indexed(s)
    ensures SettledTo(s, 0) == s && SettledTo(s, |s.order|) == Settled(s)
  {
    assert s.order[..|s.order|] == s.order;
    assert SettledTo(s, 0).rows == s.rows;
  }

  lemma ResolveStep(account: Account, key: Id -> Id, s: Store, wire: seq<Order>, n: nat)
    requires Indexed(s) && n < |s.order|
    ensures Next(account, key, Desk(SettledTo(s, n), wire, Idle), ResolvePending(s.order[n])) == Desk(SettledTo(s, n + 1), wire, Idle)
  {
    SettledStep(s, n);
    hide Indexed, SettledTo;
  }

  lemma {:induction false} RejectionsRun(account: Account, key: Id -> Id, s: Store, wire: seq<Order>, n: nat)
    requires Indexed(s) && n <= |s.order|
    ensures Run(account, key, Desk(s, wire, Idle), Rejections(s, n)) == Desk(SettledTo(s, n), wire, Idle)
  {
    SettledEnds(s);
    hide Indexed, SettledTo, Next;
    if n > 0 {
      RejectionsRun(account, key, s, wire, n - 1);
      ResolveStep(account, key, s, wire, n - 1);
      RunSnoc(account, key, Desk(s, wire, Idle), Rejections(s, n - 1), ResolvePending(s.order[n - 1]));
      assert Rejections(s, n) == Rejections(s, n - 1) + [ResolvePending(s.order[n - 1])];
      hide Run, Rejections;
    }
  }

  /** When a reconciliation succeeds. */
  ghost predicate Reconcilable(account: Account, s: Store, reply: Option<Snapshot>, paper: Option<int>)
    requires Indexed(s)
  {
    && reply.Some? && reply.value.account == account && reply.value.isDemo
    && Unambiguous(s) && AllRejected(s, reply.value.outcomes)
    && Indexed(Settled(s))
    && paper.Some? && ExposureAgrees(account, Settled(s), reply.value, paper.value)
  }

  lemma RunSnoc(account: Account, key: Id -> Id, d: Desk, es: seq<Event>, e: Event)
    ensures Run(account, key, d, es + [e]) == Next(account, key, Run(account, key, d, es), e)
  {
    assert (es + [e])[..|es|] == es;
  }

  lemma SettledIsMarked(account: Account, key: Id -> Id, s: Store, wire: seq<Order>)
    requires Indexed(s)
    ensures Next(account, key, Desk(Settled(s), wire, Idle), MarkReconciled) == Desk(Settled(s).(reconciled := true), wire, Idle)
    ensures Indexed(Settled(s).(reconciled := true))
  {
  }

  class CTraderDemoAdapter {
    const account: Account
    const key: Id -> Id
    var store: Store
    /** Orders handed to the transport. */
    var wire: seq<Order>

    constructor (account: Account, key: Id -> Id, store: Store)
      ensures this.account == account && this.key == key && this.store == store && wire == []
    {
      this.account, this.key, this.store, wire := account, key, store, [];
    }

    function View(): Desk
      reads this
    {
      Desk(store, wire, Idle)
    }

    method Stop(reason: string)
      modifies this
      ensures View() == Next(account, key, old(View()), StopSwitch(reason))
    {
      store := store.(stopped := true, reason := reason, reconciled := false);
    }

    /** Refused unless a reconciliation has succeeded since the last stop. */
    method Start(reason: string) returns (ok: bool)
      modifies this
      ensures ok <==> old(store).reconciled
      ensures View() == Next(account, key, old(View()), StartSwitch(reason))
      ensures ok ==> !store.stopped
    {
      if !store.reconciled {
        return false;
      }
      store := store.(stopped := false, reason := reason);
      ok := true;
    }

    method Execute(order: Order, reply: Reply, raising: Raising) returns (answer: Option<Answer>)
      modifies this
      ensures (View(), answer) == Attempt(account, key, old(View()), order, reply, raising)
      ensures raising.Never? ==> answer.Some? && (View(), answer.value) == Submit(account, key, old(View()), order, reply)
      ensures raising.Never? ==> View() == Run(account, key, old(View()), Steps(order, reply))
    {
      SubmitIsARun(account, key, View(), order, reply);
      hide Run;
      if raising.BeforeOpening? {
        return None;
      }
      if store.stopped {
        return Some(KillSwitch);
      }
      var brokerId := key(order.id);
      if Collides(store, order.id, brokerId) {
        Stop("broker_identity_collision");
        return Some(Collision);
      }
      if order.id in store.rows {
        var prior := store.rows[order.id].outcome;
        return Some(if prior.Some? then Prior(prior.value) else Duplicate);
      }
      store := Reserve(store, order.id, Request(account.accountId, account.symbolId, order.side, order.volume, Some(brokerId)));
      if raising.AfterReserving? {
        return None;
      }
      wire := wire + [order];
      if raising.AfterSending? {
        return None;
      }
      var outcome := Verdict(order, reply, brokerId);
      if raising.AfterHolding? {
        return None;
      }
      store := Finish(store, order.id, outcome);
      answer := if raising.AfterRecording? then None else Some(Done(outcome));
    }

    /** Reads the reply, and stops execution at once when the outcome is not known. */
    method Verdict(order: Order, reply: Reply, brokerId: Id) returns (outcome: Outcome)
      modifies this
      ensures outcome == Judge(reply, order, brokerId) && wire == old(wire)
      ensures store == if outcome.Unknown? then Halt(old(store), if reply.Lost? then "transport_failure" else "order_outcome_unknown") else old(store)
    {
      if reply.Lost? {
        outcome := Unknown;
        Stop("transport_failure");
      } else if reply.receipt.isError && !reply.receipt.executed {
        outcome := Rejected;
      } else if Filled(reply.receipt, order, brokerId) {
        outcome := Accepted(reply.receipt);
      } else {
        outcome := Unknown;
        Stop("order_outcome_unknown");
      }
    }

    /** Nothing is written while a pending request has no verdict; then the rejections go in, in record
        order, up to the first pending request with another verdict. */
    method SettlePending(outcomes: map<Id, Outcome>, verdicts: seq<(Id, Outcome)>) returns (ok: bool, ghost n: nat)
      requires Indexed(store)
      requires forall id :: Word(store, verdicts, id) == if id in outcomes then Some(outcomes[id]) else None
      modifies this
      ensures ok <==> AllRejected(old(store), verdicts)
      ensures n <= |old(store).order| && store == SettledTo(old(store), n) && wire == old(wire)
      ensures if ok then n == |old(store).order| else StopsAt(old(store), verdicts, n)
    {
      hide Word, SettledTo;
      ghost var was := store;
      SettledEnds(was);
      var ids := store.order;
      n := 0;
      for k := 0 to |ids|
        invariant n == 0 && store == was && ids == was.order && wire == old(wire)
        invariant forall i :: 0 <= i < k && !was.rows[ids[i]].Completed() ==> Word(was, verdicts, ids[i]).Some?
      {
        if !store.rows[ids[k]].Completed() && ids[k] !in outcomes {
          assert ids[k] in was.order && Word(was, verdicts, ids[k]).None?;
          return false, n;
        }
      }
      for k := 0 to |ids|
        invariant n == k && ids == was.order && Indexed(was) && AllAnswered(was, verdicts)
        invariant store == SettledTo(was, k) && wire == old(wire)
        invariant forall i :: 0 <= i < k && !was.rows[ids[i]].Completed() ==> Word(was, verdicts, ids[i]) == Some(Rejected)
      {
        SettledStep(was, k);
        if !store.rows[ids[k]].Completed() {
          if outcomes[ids[k]] != Rejected {
            assert ids[k] in was.order && Word(was, verdicts, ids[k]) != Some(Rejected);
            return false, n;
          }
          store := Finish(store, ids[k], Rejected);
        }
        n := k + 1;
      }
      ok := true;
      forall id | id in was.order && !was.rows[id].Completed() ensures Word(was, verdicts, id) == Some(Rejected) {
        var i :| 0 <= i < |ids| && ids[i] == id;
      }
    }

    /** Succeeds exactly when the snapshot is of this demo account, broker identities are
        unambiguous, every pending request is reported as rejected and the exposure then agrees; all
        requests are then resolved and the fills on file total the paper volume. Any failure stops
        execution and withdraws reconciliation, keeping the rejections already written. */
    method ReconcileAfterRestart(reply: Option<Snapshot>, paper: Option<int>) returns (ok: bool, ghost n: nat)
      requires Indexed(store)
      modifies this
      ensures ok <==> Reconcilable(account, old(store), reply, paper)
      ensures ok ==> store == Settled(old(store)).(reconciled := true) && Indexed(store)
      ensures ok ==> NetTotal(store.rows, store.order) == paper.value
      ensures !ok ==> n <= |old(store).order| && store == Halt(SettledTo(old(store), n), "reconciliation_failed")
      ensures wire == old(wire)
      ensures n <= |old(store).order|
      ensures View() == Run(account, key, old(View()),
                            Rejections(old(store), n) + [if ok then MarkReconciled else StopSwitch("reconciliation_failed")])
    {
      ghost var was := store;
      ghost var before := View();
      ok, n := Reconciled(reply, paper);
      ghost var middle := View();
      ghost var last := if ok then MarkReconciled else StopSwitch("reconciliation_failed");
      RejectionsRun(account, key, was, wire, n);
      RunSnoc(account, key, before, Rejections(was, n), last);
      hide *;
      if ok {
        SettledIsMarked(account, key, was, wire);
        store := store.(reconciled := true);
      } else {
        Stop("reconciliation_failed");
      }
    }

    /** The guarded part; a failure is the exception the caller turns into a stop. */
    method Reconciled(reply: Option<Snapshot>, paper: Option<int>) returns (ok: bool, ghost n: nat)
      requires Indexed(store)
      modifies this
      ensures ok <==> Reconcilable(account, old(store), reply, paper)
      ensures n <= |old(store).order| && store == SettledTo(old(store), n) && wire == old(wire)
      ensures ok ==> n == |old(store).order| && store == Settled(old(store)) && Indexed(store)
      ensures ok ==> NetTotal(store.rows, store.order) == paper.value
    {
      ghost var was := store;
      SettledEnds(was);
      hide Indexed, Unambiguous, AllRejected, ExposureAgrees, Settled, SettledTo, NetTotal, Word;
      n := 0;
      if reply.None? || reply.value.account != account || !reply.value.isDemo {
        return false, n;
      }
      var mapping := Identify(store);
      if mapping.None? {
        return false, n;
      }
      var outcomes := Translate(store, mapping.value, reply.value.outcomes);
      ok, n := SettlePending(outcomes, reply.value.outcomes);
      if !ok {
        return;
      }
      ok := VerifyExposure(account, store, reply.value, paper);
      if ok {
        AgreementTotals(account, store, reply.value, paper.value);
      }
    }
  }
}
