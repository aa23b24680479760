/** The tool-call ledger of xauusd/agent_advisor.py with the bounded investigations of
    xauusd/research_recovery.py: a call is recorded before it runs, an interrupted one is unknown, and
    an unknown call is never run again. */
module CallLedger {
  import opened Prelude

  type Id = string

  const KEPT := 100
  const OPEN_LIMIT := 20
  const MAX_MISSING_CHECKS := 2

  /** What a call asks for; the fingerprint is taken of exactly this. `Keep` only changes records of
      the lab, `Local` and `Remote` have side effects whose outcome can be uncertain, and a remote call
      runs as a job named after its id. */
  datatype Payload =
    | Read(text: string)
    | Keep(text: string)
    | Local(text: string)
    | Remote(text: string)
    | Status(job: Id)
    | Reconcile(target: Id, evidence: Option<Id>)
  {
    predicate SideEffect() { Local? || Remote? }

    predicate Exempt() { Read? || Status? || Reconcile? }
  }

  datatype State = Running | Unknown | Completed | Refused

  datatype JobState = Done | NotFound | Other

  /** A reply to a job-status lookup. */
  datatype Reply = Reply(job: Id, state: JobState, ok: bool)

  datatype Row = Row(id: Id, payload: Payload, state: State, checks: nat, parked: bool, reply: Option<Reply>)
  {
    predicate Unresolved() { state.Running? || state.Unknown? }

    predicate Parked() { state.Unknown? && parked }
  }

  // ---------------------------------------------------------------- the ledger

  function Settled(rows: seq<Row>): seq<Row> {
    if rows == [] then [] else Settled(rows[..|rows| - 1]) + if rows[|rows| - 1].Unresolved() then [] else [rows[|rows| - 1]]
  }

  function Open(rows: seq<Row>): seq<Row> {
    if rows == [] then [] else Open(rows[..|rows| - 1]) + if rows[|rows| - 1].Unresolved() then [rows[|rows| - 1]] else []
  }

  function Others(rows: seq<Row>, id: Id): seq<Row> {
    if rows == [] then [] else Others(rows[..|rows| - 1], id) + if rows[|rows| - 1].id == id then [] else [rows[|rows| - 1]]
  }

  /** Replaces or adds a row; only settled rows are bounded. */
  function Put(rows: seq<Row>, row: Row): seq<Row> {
    var all := Others(rows, row.id) + [row];
    Tail(Settled(all), KEPT) + Open(all)
  }

  function Find(rows: seq<Row>, id: Id): (r: Option<Row>)
    ensures r.Some? ==> r.value in rows && r.value.id == id
    ensures r.None? ==> forall i :: 0 <= i < |rows| ==> rows[i].id != id
  {
    if rows == [] then None else if rows[0].id == id then Some(rows[0]) else Find(rows[1..], id)
  }

  function FindOpen(rows: seq<Row>, payload: Payload): (r: Option<Row>)
    ensures r.Some? ==> r.value in rows && r.value.payload == payload && r.value.Unresolved()
    ensures r.None? ==> forall i :: 0 <= i < |rows| ==> !(rows[i].payload == payload && rows[i].Unresolved())
  {
    if rows == [] then None else if rows[0].payload == payload && rows[0].Unresolved() then Some(rows[0]) else FindOpen(rows[1..], payload)
  }

  function OpenCount(rows: seq<Row>): nat {
    if rows == [] then 0 else OpenCount(rows[..|rows| - 1]) + if rows[|rows| - 1].Unresolved() && !rows[|rows| - 1].Parked() then 1 else 0
  }

  function Interrupted(rows: seq<Row>): (r: seq<Row>)
    ensures |r| == |rows| && forall i :: 0 <= i < |rows| ==> r[i] == if rows[i].state.Running? then rows[i].(state := Unknown) else rows[i]
  {
    seq(|rows|, i requires 0 <= i < |rows| => if rows[i].state.Running? then rows[i].(state := Unknown) else rows[i])
  }

  // ---------------------------------------------------------------- the machine

  /** The durable ledger; the call in flight, which a crash forgets, and whether it has been let
      loose; with the history of dispatched side effects, settled calls and used ids. */
  datatype World = World(
    rows: seq<Row>, alive: bool, flight: Option<Id>, loose: bool,
    dispatched: seq<(Id, Payload)>, settled: set<Id>, used: set<Id>)

  const EMPTY := World([], true, None, false, [], {}, {})

  datatype Event =
    | Request(id: Id, payload: Payload)
    | Refuse(id: Id, payload: Payload)
    | Dispatch
    | Investigate(reply: Reply)
    | Finish(uncertain: bool, reply: Reply)
    | Crash
    | Restart

  /** A status request for the job of an unknown call is turned into its reconciliation. */
  function Redirected(rows: seq<Row>, payload: Payload): Payload {
    if payload.Status? && Find(rows, payload.job).Some? && Find(rows, payload.job).value.payload.Remote? && Find(rows, payload.job).value.state.Unknown?
    then Reconcile(payload.job, None) else payload
  }

  predicate Prior(rows: seq<Row>, id: Id, payload: Payload) { Find(rows, id).Some? || FindOpen(rows, payload).Some? }

  /** A call that is neither a replay nor over the limit of unresolved calls. */
  predicate Admissible(rows: seq<Row>, id: Id, payload: Payload) {
    && !Prior(rows, id, payload)
    && (OpenCount(rows) >= OPEN_LIMIT ==> payload.Exempt())
    && !Prior(rows, id, Redirected(rows, payload))
  }

  /** A retained status result of that job, completed. */
  predicate Proves(e: Row, job: Id) {
    e.payload.Status? && e.state.Completed? && e.reply.Some? && e.reply.value.job == job && e.reply.value.state.Done? && e.reply.value.ok
  }

  /** The evidence named by a reconciliation settles the job in question. */
  predicate Matching(rows: seq<Row>, payload: Payload, job: Id) {
    && payload.Reconcile? && payload.evidence.Some?
    && Find(rows, payload.evidence.value).Some? && Proves(Find(rows, payload.evidence.value).value, job)
  }

  /** What a lookup says about the original call. */
  function Judged(original: Row, reply: Reply): Row {
    if reply.state.NotFound? then original.(checks := original.checks + 1, parked := original.parked || original.checks + 1 >= MAX_MISSING_CHECKS)
    else if reply.ok && reply.state.Done? then original.(state := Completed, parked := false)
    else original
  }

  function InvestigateWith(w: World, payload: Payload, reply: Reply): World
    requires payload.Reconcile?
  {
    var found := Find(w.rows, payload.target);
    if found.None? || !found.value.payload.Remote? || found.value.state.Refused? then w
    else
      var original := found.value;
      var matching := Matching(w.rows, payload, original.id);
      if original.Parked() && !matching then w
      else
        var observed := if matching then Find(w.rows, payload.evidence.value).value.reply.value else reply;
        var judged := Judged(original, observed);
        w.(rows := Put(w.rows, judged), settled := if judged.state.Completed? then w.settled + {original.id} else w.settled)
  }

  function Next(w: World, e: Event): World {
    match e
    case Request(id, payload) =>
      if !w.alive || w.flight.Some? || !Admissible(w.rows, id, payload) then w
      else w.(rows := Put(w.rows, Row(id, Redirected(w.rows, payload), Running, 0, false, None)), flight := Some(id), loose := false, used := w.used + {id})
    case Refuse(id, payload) =>
      if !w.alive || w.flight.Some? || !Admissible(w.rows, id, payload) then w
      else w.(rows := Put(w.rows, Row(id, payload, Refused, 0, false, None)), used := w.used + {id})
    case Dispatch =>
      if w.flight.None? || w.loose || Find(w.rows, w.flight.value).None? then w
      else
        var row := Find(w.rows, w.flight.value).value;
        if row.payload.SideEffect() then w.(dispatched := w.dispatched + [(row.id, row.payload)], loose := true) else w.(loose := true)
    case Investigate(reply) =>
      if w.flight.None? || w.loose || Find(w.rows, w.flight.value).None? || !Find(w.rows, w.flight.value).value.payload.Reconcile? then w
      else InvestigateWith(w, Find(w.rows, w.flight.value).value.payload, reply).(loose := true)
    case Finish(uncertain, reply) =>
      if w.flight.None? || Find(w.rows, w.flight.value).None? then w
      else
        var row := Find(w.rows, w.flight.value).value;
        var unknown := row.payload.SideEffect() && uncertain;
        w.(rows := Put(w.rows, row.(state := if unknown then Unknown else Completed, reply := if row.payload.Status? then Some(reply) else None)),
           flight := None, settled := if unknown then w.settled else w.settled + {row.id})
    case Crash => w.(alive := false, flight := None)
    case Restart => if w.alive then w else w.(rows := Interrupted(w.rows), alive := true)
  }

  function Run(w: World, es: seq<Event>): World {
    if es == [] then w else Next(Run(w, es[..|es| - 1]), es[|es| - 1])
  }

  /** What is assumed of the outside: new calls carry new ids, a lookup answers about the job that
      was asked for, and a job is done only after it was submitted. */
  ghost predicate Fair(w: World, e: Event) {
    match e
    case Request(id, payload) => id !in w.used || Find(w.rows, id).Some?
    case Refuse(id, payload) => id !in w.used || Find(w.rows, id).Some?
    case Finish(uncertain, reply) =>
      w.flight.Some? && Find(w.rows, w.flight.value).Some? && Find(w.rows, w.flight.value).value.payload.Status? ==>
        reply.job == Find(w.rows, w.flight.value).value.payload.job && (reply.state.Done? ==> Submitted(w, reply.job))
    case Investigate(reply) =>
      w.flight.Some? && Find(w.rows, w.flight.value).Some? && Find(w.rows, w.flight.value).value.payload.Reconcile? ==>
        reply.job == Find(w.rows, w.flight.value).value.payload.target
    case _ => true
  }

  ghost predicate Submitted(w: World, job: Id) { exists i :: 0 <= i < |w.dispatched| && w.dispatched[i].0 == job }

  // ---------------------------------------------------------------- the invariant

  ghost predicate ById(rows: seq<Row>) { forall x, y :: x in rows && y in rows && x.id == y.id ==> x == y }

  /** No two unresolved calls ask for the same. */
  ghost predicate ByPayload(rows: seq<Row>) {
    forall x, y :: x in rows && y in rows && x.Unresolved() && y.Unresolved() && x.payload == y.payload ==> x == y
  }

  /** An unknown remote call has been missed at most twice, and twice means parked. */
  ghost predicate Checked(rows: seq<Row>) {
    forall x :: x in rows && x.Unresolved() ==> x.checks <= MAX_MISSING_CHECKS && (x.parked <==> x.checks >= MAX_MISSING_CHECKS)
  }

  /** No retained status result can settle an unresolved call. */
  ghost predicate NoEvidence(rows: seq<Row>) {
    forall x, e :: x in rows && x.Unresolved() && x.payload.Remote? && e in rows ==> !Proves(e, x.id)
  }

  /** A job reported as done is one that was submitted. */
  ghost predicate Reported(w: World) {
    forall e :: e in w.rows && e.reply.Some? && e.reply.value.state.Done? ==> e.reply.value.job in w.used
  }

  ghost predicate OneFlight(w: World) {
    && (w.flight.Some? ==> w.alive && Find(w.rows, w.flight.value).Some? && Find(w.rows, w.flight.value).value.state.Running?)
    && (w.alive ==> forall x :: x in w.rows && x.state.Running? ==> w.flight == Some(x.id))
    && (w.flight.Some? && Find(w.rows, w.flight.value).value.payload.Status? ==>
          forall x :: x in w.rows && x.id == Find(w.rows, w.flight.value).value.payload.job ==> !(x.payload.Remote? && x.Unresolved()))
  }

  /** A dispatched side effect is settled or still unresolved in the ledger, and of two for the same
      payload the earlier one is settled. */
  ghost predicate Accounted(w: World) {
    && (forall i :: 0 <= i < |w.dispatched| ==>
          w.dispatched[i].0 in w.used
          && (w.dispatched[i].0 in w.settled || (Find(w.rows, w.dispatched[i].0).Some?
                && Find(w.rows, w.dispatched[i].0).value.Unresolved() && Find(w.rows, w.dispatched[i].0).value.payload == w.dispatched[i].1)))
    && (forall i, j :: 0 <= i < j < |w.dispatched| && w.dispatched[i].1 == w.dispatched[j].1 ==> w.dispatched[i].0 in w.settled)
    && (forall x :: x in w.rows ==> x.id in w.used)
    && (w.flight.Some? && !w.loose ==> forall i :: 0 <= i < |w.dispatched| ==> w.dispatched[i].0 != w.flight.value)
    && (forall x :: x in w.rows && x.Unresolved() ==> x.id !in w.settled)
    && w.settled <= w.used
  }

  ghost predicate Inv(w: World) {
    ById(w.rows) && ByPayload(w.rows) && Checked(w.rows) && NoEvidence(w.rows) && Reported(w) && OneFlight(w) && Accounted(w)
  }
}
