/** The fail-closed demo order boundary of xauusd/ctrader_demo.py: a persistent request store, an
    adapter that reserves, sends and finishes, and the reconciliation of persisted fills with
    broker positions. The transport is a reply or a failure; `wire` records what was sent. */
module DemoOrders {
  import opened Prelude

  type Id = string

  datatype Side = Buy | Sell

  datatype Order = Order(id: Id, side: Side, volume: int)

  datatype Account = Account(accountId: int, symbolId: int)

  /** `brokerId` is absent on records written before it was persisted; they used the id itself. */
  datatype Request = Request(accountId: int, symbolId: int, side: Side, volume: int, brokerId: Option<Id>)

  /** The receipt fields the code reads. `executed` says whether the reply or any of its events
      shows a fill (a positive filled volume or execution type 3 or 11). */
  datatype Receipt = Receipt(
    executionType: int, isError: bool, executed: bool, filledVolume: int, orderId: int, positionId: int,
    brokerId: Option<Id>, dealId: Option<int>)

  datatype Reply = Lost | Answered(receipt: Receipt)

  datatype Outcome = Accepted(receipt: Receipt) | Rejected | Unknown

  datatype Record = Record(request: Request, outcome: Option<Outcome>)
  {
    predicate Completed() { outcome.Some? && !outcome.value.Unknown? }

    function BrokerKey(id: Id): Id { if request.brokerId.Some? then request.brokerId.value else id }
  }

  /** Persistent execution state; `order` is the insertion order of the rows. */
  datatype Store = Store(stopped: bool, reason: string, reconciled: bool, order: seq<Id>, rows: map<Id, Record>)

  const FRESH := Store(true, "missing_state", false, [], map[])

  ghost predicate Indexed(s: Store) {
    && Distinct(s.order)
    && (forall id :: id in s.rows <==> id in s.order)
  }

  // ---------------------------------------------------------------- store operations

  function Halt(s: Store, reason: string): Store { s.(stopped := true, reason := reason, reconciled := false) }

  function Reserve(s: Store, id: Id, request: Request): Store
    requires id !in s.rows
  {
    s.(order := s.order + [id], rows := s.rows[id := Record(request, None)])
  }

  function Finish(s: Store, id: Id, outcome: Outcome): Store
    requires id in s.rows
  {
    s.(rows := s.rows[id := s.rows[id].(outcome := Some(outcome))])
  }

  /** Another record already speaks to the broker under this key. */
  predicate Collides(s: Store, id: Id, key: Id) {
    exists other :: other in s.rows && other != id && s.rows[other].BrokerKey(other) == key
  }

  // ---------------------------------------------------------------- one order

  predicate Filled(r: Receipt, order: Order, key: Id) {
    && r.executionType == 3 && !r.isError && r.filledVolume == order.volume
    && r.orderId > 0 && r.positionId > 0 && r.brokerId == Some(key)
  }

  /** How a reply is read: an error without any fill is a rejection, a complete fill of this very
      order is an acceptance, and everything else is unknown. */
  function Judge(reply: Reply, order: Order, key: Id): Outcome {
    if reply.Lost? then Unknown
    else if reply.receipt.isError && !reply.receipt.executed then Rejected
    else if Filled(reply.receipt, order, key) then Accepted(reply.receipt)
    else Unknown
  }

  /** What `execute` returns. */
  datatype Answer = KillSwitch | Collision | Prior(outcome: Outcome) | Duplicate | Done(outcome: Outcome)
  {
    predicate IsAccepted() {
      (Prior? || Done?) && outcome.Accepted?
    }
  }

  /** An order between its reservation and its final write. */
  datatype Flight = Idle | Reserved(order: Order) | Sent(order: Order, reply: Reply) | Held(order: Order, outcome: Outcome)

  /** The store, the orders that reached the wire, and the order in flight, which a crash forgets. */
  datatype Desk = Desk(store: Store, wire: seq<Order>, flight: Flight)

  /** The part of `execute` before anything is sent: an answer, or a reservation. */
  function Open(account: Account, key: Id -> Id, d: Desk, order: Order): (Desk, Option<Answer>) {
    var s := d.store;
    if s.stopped then (d, Some(KillSwitch))
    else if Collides(s, order.id, key(order.id)) then (d.(store := Halt(s, "broker_identity_collision")), Some(Collision))
    else if order.id in s.rows then
      (d, Some(if s.rows[order.id].outcome.Some? then Prior(s.rows[order.id].outcome.value) else Duplicate))
    else
      var request := Request(account.accountId, account.symbolId, order.side, order.volume, Some(key(order.id)));
      (d.(store := Reserve(s, order.id, request), flight := Reserved(order)), None)
  }

  function Send(d: Desk, reply: Reply): Desk {
    if d.flight.Reserved? then d.(wire := d.wire + [d.flight.order], flight := Sent(d.flight.order, reply)) else d
  }

  /** An outcome that is not known stops execution before it is recorded. */
  function Hold(key: Id -> Id, d: Desk): Desk {
    if !d.flight.Sent? then d else
    var outcome := Judge(d.flight.reply, d.flight.order, key(d.flight.order.id));
    var reason := if d.flight.reply.Lost? then "transport_failure" else "order_outcome_unknown";
    d.(store := if outcome.Unknown? then Halt(d.store, reason) else d.store, flight := Held(d.flight.order, outcome))
  }

  function Close(d: Desk): Desk {
    if d.flight.Held? && d.flight.order.id in d.store.rows
    then d.(store := Finish(d.store, d.flight.order.id, d.flight.outcome), flight := Idle) else d
  }

  // ---------------------------------------------------------------- exposure

  datatype Position = Position(id: int, symbolId: int, volume: int, status: int, side: int)

  /** The reply to a reconcile request; `outcomes` are verdicts on requests, in the reply's order. */
  datatype Snapshot = Snapshot(account: Account, isDemo: bool, openOrders: nat, positions: seq<Position>, outcomes: seq<(Id, Outcome)>)

  /** A persisted acceptance that names this account, this volume and a real position. */
  predicate VerifiedFill(account: Account, id: Id, r: Record) {
    && r.outcome.Some? && r.outcome.value.Accepted?
    && (var c := r.outcome.value.receipt;
        && c.executionType == 3 && c.filledVolume > 0 && c.filledVolume == r.request.volume
        && c.positionId > 0 && c.orderId > 0
        && r.request.accountId == account.accountId && r.request.symbolId == account.symbolId
        && c.brokerId == Some(r.BrokerKey(id)))
  }

  predicate Verifiable(account: Account, id: Id, r: Record) {
    r.Completed() && (r.outcome == Some(Rejected) || VerifiedFill(account, id, r))
  }

  function Signed(side: Side, volume: int): int { if side == Buy then volume else -volume }

  function FillOf(r: Record): int {
    if r.outcome.Some? && r.outcome.value.Accepted? then Signed(r.request.side, r.outcome.value.receipt.filledVolume) else 0
  }

  function FillAt(r: Record, position: int): int {
    if r.outcome.Some? && r.outcome.value.Accepted? && r.outcome.value.receipt.positionId == position then FillOf(r) else 0
  }

  /** Net accepted volume of one position, over the listed requests. */
  function NetAt(rows: map<Id, Record>, order: seq<Id>, position: int): int
    requires forall id :: id in order ==> id in rows
  {
    if order == [] then 0 else NetAt(rows, order[..|order| - 1], position) + FillAt(rows[order[|order| - 1]], position)
  }

  /** Net accepted volume of all positions together. */
  function NetTotal(rows: map<Id, Record>, order: seq<Id>): int
    requires forall id :: id in order ==> id in rows
  {
    if order == [] then 0 else NetTotal(rows, order[..|order| - 1]) + FillOf(rows[order[|order| - 1]])
  }

  function DealOf(r: Record): Option<int> {
    if r.outcome.Some? && r.outcome.value.Accepted? then r.outcome.value.receipt.dealId else None
  }

  ghost predicate DealsDistinct(rows: map<Id, Record>, order: seq<Id>)
    requires forall id :: id in order ==> id in rows
  {
    && (forall i :: 0 <= i < |order| && DealOf(rows[order[i]]).Some? ==> DealOf(rows[order[i]]).value > 0)
    && (forall i, j :: 0 <= i < j < |order| && DealOf(rows[order[i]]).Some? ==> DealOf(rows[order[j]]) != DealOf(rows[order[i]]))
  }

  function Held1(p: Position): int { if p.side == 1 then p.volume else -p.volume }

  predicate PositionOk(account: Account, p: Position) {
    p.id > 0 && p.volume > 0 && p.symbolId == account.symbolId && p.status == 1 && (p.side == 1 || p.side == 2)
  }

  ghost predicate PositionsOk(account: Account, ps: seq<Position>) {
    && (forall i :: 0 <= i < |ps| ==> PositionOk(account, ps[i]))
    && (forall i, j :: 0 <= i < j < |ps| ==> ps[i].id != ps[j].id)
  }

  /** The broker's signed volume of one position, zero when it has none. */
  function BrokerAt(ps: seq<Position>, position: int): int {
    if ps == [] then 0 else
    BrokerAt(ps[..|ps| - 1], position) + if ps[|ps| - 1].id == position then Held1(ps[|ps| - 1]) else 0
  }

  function BrokerTotal(ps: seq<Position>): int {
    if ps == [] then 0 else BrokerTotal(ps[..|ps| - 1]) + Held1(ps[|ps| - 1])
  }

  /** Fills on file and broker positions agree position by position. */
  ghost predicate SameExposure(s: Store, ps: seq<Position>)
    requires Indexed(s)
  {
    forall p :: NetAt(s.rows, s.order, p) == BrokerAt(ps, p)
  }

  /** What a successful exposure check means. */
  ghost predicate ExposureAgrees(account: Account, s: Store, snap: Snapshot, paper: int)
    requires Indexed(s)
  {
    && snap.openOrders == 0
    && (forall id :: id in s.order ==> Verifiable(account, id, s.rows[id]))
    && DealsDistinct(s.rows, s.order)
    && PositionsOk(account, snap.positions)
    && SameExposure(s, snap.positions)
    && BrokerTotal(snap.positions) == paper
  }
}
