/** What every run of the call ledger keeps. */
module CallLaws {
  import opened Prelude
  import opened CallLedger

  // ---------------------------------------------------------------- what a replacement keeps

  lemma {:induction false} SplitMembers(rows: seq<Row>)
    ensures forall x :: x in Settled(rows) <==> x in rows && !x.Unresolved()
    ensures forall x :: x in Open(rows) <==> x in rows && x.Unresolved()
  {
    if rows != [] {
      SplitMembers(rows[..|rows| - 1]);
      assert rows == rows[..|rows| - 1] + [rows[|rows| - 1]];
    }
  }

  lemma {:induction false} OthersMembers(rows: seq<Row>, id: Id)
    ensures forall x :: x in Others(rows, id) <==> x in rows && x.id != id
  {
    if rows != [] {
      OthersMembers(rows[..|rows| - 1], id);
      assert rows == rows[..|rows| - 1] + [rows[|rows| - 1]];
    }
  }

  lemma {:induction false} SettledLast(rows: seq<Row>, row: Row)
    requires !row.Unresolved()
    ensures Settled(rows + [row]) == Settled(rows) + [row]
  {
    assert (rows + [row])[..|rows|] == rows;
  }

  /** A replacement keeps the row itself and every other unresolved row, and brings in nothing else. */
  lemma PutMembers(rows: seq<Row>, row: Row)
    ensures row in Put(rows, row)
    ensures forall x :: x in Put(rows, row) ==> x == row || (x in rows && x.id != row.id)
    ensures forall x :: x in rows && x.id != row.id && x.Unresolved() ==> x in Put(rows, row)
  {
    var others := Others(rows, row.id);
    var all := others + [row];
    OthersMembers(rows, row.id);
    SplitMembers(all);
    if !row.Unresolved() {
      SettledLast(others, row);
      assert Tail(Settled(all), KEPT)[|Tail(Settled(all), KEPT)| - 1] == row;
    }
    TailMembers(Settled(all), KEPT);
    hide Settled, Open, Others, Tail;
  }

  lemma TailMembers(rows: seq<Row>, n: nat)
    ensures forall x :: x in Tail(rows, n) ==> x in rows
  {
  }

  lemma {:induction false} FindExact(rows: seq<Row>, x: Row)
    requires ById(rows) && x in rows
    ensures Find(rows, x.id) == Some(x)
  {
  }

  ghost predicate RowsOk(rows: seq<Row>) { ById(rows) && ByPayload(rows) && Checked(rows) && NoEvidence(rows) }

  /** A row that may enter the ledger in place of the one with its id. */
  ghost predicate Fits(rows: seq<Row>, row: Row) {
    && (row.Unresolved() ==>
          && row.checks <= MAX_MISSING_CHECKS && (row.parked <==> row.checks >= MAX_MISSING_CHECKS)
          && forall x :: x in rows && x.id != row.id ==>
               !(x.Unresolved() && x.payload == row.payload) && !(row.payload.Remote? && Proves(x, row.id)))
    && (forall x :: x in rows && x.id != row.id && x.Unresolved() && x.payload.Remote? ==> !Proves(row, x.id))
  }

  lemma PutKeepsRows(rows: seq<Row>, row: Row)
    requires RowsOk(rows) && Fits(rows, row)
    ensures RowsOk(Put(rows, row)) && Find(Put(rows, row), row.id) == Some(row)
  {
    PutMembers(rows, row);
    hide Put;
    var all := Put(rows, row);
    assert ById(all) && ByPayload(all) && Checked(all);
    assert !(row.payload.Remote? && Proves(row, row.id));
    assert NoEvidence(all);
    FindExact(all, row);
  }

  lemma FindAfterPut(rows: seq<Row>, row: Row, id: Id)
    requires ById(rows) && ById(Put(rows, row)) && id != row.id
    ensures Find(rows, id).Some? && Find(rows, id).value.Unresolved() ==> Find(Put(rows, row), id) == Find(rows, id)
  {
    PutMembers(rows, row);
    hide Put;
    if Find(rows, id).Some? && Find(rows, id).value.Unresolved() {
      FindExact(Put(rows, row), Find(rows, id).value);
    }
  }

  // ---------------------------------------------------------------- each event

  lemma RequestKeeps(w: World, e: Event)
    requires Inv(w) && Fair(w, e) && (e.Request? || e.Refuse?)
    ensures Inv(Next(w, e))
  {
    if w.alive && w.flight.None? && Admissible(w.rows, e.id, e.payload) {
      hide Put, OpenCount;
      var p := Redirected(w.rows, e.payload);
      var row := if e.Request? then Row(e.id, p, Running, 0, false, None) else Row(e.id, e.payload, Refused, 0, false, None);
      FreshFits(w, row);
      PutKeepsRows(w.rows, row);
      if p.Status? {
        forall x | x in w.rows && x.id == p.job ensures !(x.payload.Remote? && x.Unresolved()) {
          FindExact(w.rows, x);
        }
      }
      AddedAccounts(w, row);
    }
    hide ById, ByPayload, Checked, NoEvidence, OneFlight, Accounted, Put, Admissible;
  }

  lemma FreshFits(w: World, row: Row)
    requires Inv(w) && row.id !in w.used && w.flight.None?
    requires row.checks == 0 && !row.parked && row.reply.None?
    requires FindOpen(w.rows, row.payload).None?
    ensures Fits(w.rows, row)
  {
    forall x | x in w.rows && row.payload.Remote? ensures !Proves(x, row.id) {
      EvidenceIsSubmitted(w, x, row.id);
    }
  }

  /** Only a submitted job is ever reported as done. */
  lemma EvidenceIsSubmitted(w: World, e: Row, job: Id)
    requires Inv(w) && e in w.rows && job !in w.used
    ensures !Proves(e, job)
  {
  }

  lemma AddedAccounts(w: World, row: Row)
    requires Inv(w) && w.alive && w.flight.None? && row.id !in w.used && !row.state.Unknown? && row.reply.None?
    requires RowsOk(Put(w.rows, row)) && Find(Put(w.rows, row), row.id) == Some(row)
    requires row.state.Running? && row.payload.Status? ==>
               forall x :: x in w.rows && x.id == row.payload.job ==> !(x.payload.Remote? && x.Unresolved())
    ensures var v := w.(rows := Put(w.rows, row), used := w.used + {row.id}, flight := if row.state.Running? then Some(row.id) else None, loose := if row.state.Running? then false else w.loose);
            OneFlight(v) && Accounted(v) && Reported(v)
  {
    PutMembers(w.rows, row);
    hide Put;
    forall i | 0 <= i < |w.dispatched| && w.dispatched[i].0 !in w.settled
      ensures Find(Put(w.rows, row), w.dispatched[i].0) == Find(w.rows, w.dispatched[i].0)
    {
      FindAfterPut(w.rows, row, w.dispatched[i].0);
    }
  }

  /** A row that keeps its id and payload and is replaced in place; its call may become settled. */
  ghost predicate Replaces(w: World, row: Row, flight: Option<Id>, loose: bool) {
    && Find(w.rows, row.id).Some? && Find(w.rows, row.id).value.payload == row.payload && !row.state.Refused?
    && RowsOk(Put(w.rows, row)) && Find(Put(w.rows, row), row.id) == Some(row)
    && (row.state.Running? ==> flight == Some(row.id))
    && (flight == w.flight || (flight.None? && w.flight == Some(row.id)))
    && (flight.Some? ==> w.alive && (flight == Some(row.id) ==> row.state.Running?) && (loose || loose == w.loose))
    && (Find(w.rows, row.id).value.Unresolved() || !row.Unresolved())
    && (row.reply.Some? && row.reply.value.state.Done? ==> row.reply.value.job in w.used)
  }

  lemma ReplacedAccounts(w: World, row: Row, flight: Option<Id>, loose: bool)
    requires Inv(w) && Replaces(w, row, flight, loose)
    ensures var v := w.(rows := Put(w.rows, row), flight := flight, loose := loose, settled := if row.state.Completed? then w.settled + {row.id} else w.settled);
            OneFlight(v) && Accounted(v) && Reported(v)
  {
    ReplacedFlight(w, row, flight, loose);
    ReplacedCalls(w, row, flight, loose);
    hide OneFlight, Accounted, Reported, Put, RowsOk, Replaces, ById, ByPayload, Checked, NoEvidence;
  }

  lemma ReplacedCalls(w: World, row: Row, flight: Option<Id>, loose: bool)
    requires ById(w.rows) && Accounted(w) && Replaces(w, row, flight, loose)
    ensures Accounted(w.(rows := Put(w.rows, row), flight := flight, loose := loose, settled := if row.state.Completed? then w.settled + {row.id} else w.settled))
  {
    OthersFound(w, row);
    PutMembers(w.rows, row);
    hide Put, ById, ByPayload, Checked, NoEvidence, Find;
  }

  lemma OthersFound(w: World, row: Row)
    requires ById(w.rows) && ById(Put(w.rows, row)) && Accounted(w)
    ensures forall i :: 0 <= i < |w.dispatched| && w.dispatched[i].0 !in w.settled && w.dispatched[i].0 != row.id ==>
              Find(Put(w.rows, row), w.dispatched[i].0) == Find(w.rows, w.dispatched[i].0)
  {
    hide Put, ById;
    forall i | 0 <= i < |w.dispatched| && w.dispatched[i].0 !in w.settled && w.dispatched[i].0 != row.id
      ensures Find(Put(w.rows, row), w.dispatched[i].0) == Find(w.rows, w.dispatched[i].0)
    {
      FindAfterPut(w.rows, row, w.dispatched[i].0);
    }
  }

  lemma ReplacedFlight(w: World, row: Row, flight: Option<Id>, loose: bool)
    requires Inv(w) && Replaces(w, row, flight, loose)
    ensures var v := w.(rows := Put(w.rows, row), flight := flight, loose := loose, settled := if row.state.Completed? then w.settled + {row.id} else w.settled);
            OneFlight(v) && Reported(v)
  {
    PutMembers(w.rows, row);
    hide Put, ByPayload, Checked, NoEvidence, Accounted;
    if flight.Some? && flight.value != row.id {
      FindAfterPut(w.rows, row, flight.value);
    }
  }

  lemma FinishKeeps(w: World, uncertain: bool, reply: Reply)
    requires Inv(w) && Fair(w, Finish(uncertain, reply))
    ensures Inv(Next(w, Finish(uncertain, reply)))
  {
    if w.flight.Some? && Find(w.rows, w.flight.value).Some? {
      var row := Find(w.rows, w.flight.value).value;
      var unknown := row.payload.SideEffect() && uncertain;
      var done := row.(state := if unknown then Unknown else Completed, reply := if row.payload.Status? then Some(reply) else None);
      hide Put;
      FinishedFits(w, row, done);
      PutKeepsRows(w.rows, done);
      ReplacedAccounts(w, done, None, w.loose);
    }
    hide ById, ByPayload, Checked, NoEvidence, OneFlight, Accounted, Put, Reported;
  }

  lemma FinishedFits(w: World, row: Row, done: Row)
    requires Inv(w) && w.flight == Some(row.id) && Find(w.rows, row.id) == Some(row)
    requires done == row.(state := done.state, reply := done.reply) && (done.state.Unknown? || done.state.Completed?)
    requires done.reply.Some? ==> row.payload.Status? && done.reply.value.job == row.payload.job
    ensures Fits(w.rows, done)
  {
    assert forall x :: x in w.rows && x.Unresolved() && x.payload.Remote? && x.id != row.id ==> x.state.Unknown? || x.state.Running?;
  }

  lemma InvestigateKeeps(w: World, reply: Reply)
    requires Inv(w)
    ensures Inv(Next(w, Investigate(reply)))
  {
    if w.flight.Some? && !w.loose && Find(w.rows, w.flight.value).Some? && Find(w.rows, w.flight.value).value.payload.Reconcile? {
      var payload := Find(w.rows, w.flight.value).value.payload;
      hide Put, Matching, Judged;
      var found := Find(w.rows, payload.target);
      if found.Some? && found.value.payload.Remote? && !found.value.state.Refused? {
        var matching := Matching(w.rows, payload, payload.target);
        if !found.value.Parked() || matching {
          MatchingIsDone(w.rows, payload, payload.target);
          var observed := if matching then Find(w.rows, payload.evidence.value).value.reply.value else reply;
          JudgedFits(w, payload, found.value, observed, matching);
          hide Inv;
          InvestigatedKeeps(w, found.value, observed);
        }
      }
      LooseKeeps(w);
    }
    hide Inv, Find;
  }

  lemma MatchingIsDone(rows: seq<Row>, payload: Payload, job: Id)
    ensures Matching(rows, payload, job) ==>
              payload.evidence.Some? && Find(rows, payload.evidence.value).Some?
              && Find(rows, payload.evidence.value).value.reply.Some? && Find(rows, payload.evidence.value).value.reply.value.state.Done?
  {
  }

  lemma LooseKeeps(w: World)
    requires Inv(w)
    ensures Inv(w.(loose := true))
  {
  }

  lemma InvestigatedKeeps(w: World, original: Row, observed: Reply)
    requires Inv(w) && w.flight.Some? && Find(w.rows, original.id) == Some(original) && original.id != w.flight.value
    requires !original.state.Refused? && Fits(w.rows, Judged(original, observed))
    ensures var judged := Judged(original, observed);
            Inv(w.(rows := Put(w.rows, judged), settled := if judged.state.Completed? then w.settled + {original.id} else w.settled, loose := true))
  {
    hide Put;
    PutKeepsRows(w.rows, Judged(original, observed));
    assert original in w.rows;
    ReplacedAccounts(w, Judged(original, observed), w.flight, true);
    hide ById, ByPayload, Checked, NoEvidence, Accounted, Reported;
  }

  lemma JudgedFits(w: World, payload: Payload, original: Row, observed: Reply, matching: bool)
    requires Inv(w) && w.flight.Some? && Find(w.rows, w.flight.value).value.payload == payload && payload.Reconcile?
    requires Find(w.rows, payload.target) == Some(original) && original.payload.Remote?
    requires matching == Matching(w.rows, payload, original.id) && (original.Parked() ==> matching)
    requires matching ==> observed.state.Done?
    ensures Fits(w.rows, Judged(original, observed))
  {
    if original.Unresolved() {
      UnresolvedHasNoEvidence(w, payload, original);
      assert original.state.Unknown?;
    }
  }

  /** The evidence a reconciliation could name is never there while its call is unresolved. */
  lemma UnresolvedHasNoEvidence(w: World, payload: Payload, original: Row)
    requires Inv(w) && original in w.rows && original.Unresolved() && original.payload.Remote?
    ensures !Matching(w.rows, payload, original.id)
  {
  }

  lemma DispatchKeeps(w: World)
    requires Inv(w)
    ensures Inv(Next(w, Dispatch))
  {
    if w.flight.Some? && !w.loose && Find(w.rows, w.flight.value).Some? {
      var row := Find(w.rows, w.flight.value).value;
      EarlierSettled(w, row);
      DispatchAccounts(w, row);
    }
    hide ById, ByPayload, Checked, NoEvidence, Accounted;
  }

  /** Whatever was dispatched for the same payload before is settled by now. */
  lemma EarlierSettled(w: World, row: Row)
    requires Inv(w) && w.flight == Some(row.id) && !w.loose && Find(w.rows, row.id) == Some(row)
    ensures forall i :: 0 <= i < |w.dispatched| && w.dispatched[i].1 == row.payload ==> w.dispatched[i].0 in w.settled
  {
    hide ById, Checked, NoEvidence, Reported;
    forall i | 0 <= i < |w.dispatched| && w.dispatched[i].1 == row.payload ensures w.dispatched[i].0 in w.settled {
    }
  }

  lemma DispatchAccounts(w: World, row: Row)
    requires Accounted(w) && w.flight == Some(row.id) && !w.loose && Find(w.rows, row.id) == Some(row) && row.Unresolved()
    requires forall i :: 0 <= i < |w.dispatched| && w.dispatched[i].1 == row.payload ==> w.dispatched[i].0 in w.settled
    ensures Accounted(w.(dispatched := w.dispatched + [(row.id, row.payload)], loose := true)) && Accounted(w.(loose := true))
  {
  }

  lemma RestartKeeps(w: World)
    requires Inv(w)
    ensures Inv(Next(w, Restart))
  {
    if !w.alive {
      InterruptedRows(w.rows);
      InterruptedAccounts(w);
    }
    hide ById, ByPayload, Checked, NoEvidence, Accounted, Find, Reported;
  }

  lemma InterruptedRows(rows: seq<Row>)
    requires RowsOk(rows)
    ensures RowsOk(Interrupted(rows)) && forall x :: x in Interrupted(rows) ==> !x.state.Running?
  {
    InterruptedEvidence(rows);
    InterruptedKeys(rows);
    InterruptedChecks(rows);
  }

  lemma InterruptedChecks(rows: seq<Row>)
    requires Checked(rows)
    ensures Checked(Interrupted(rows)) && forall x :: x in Interrupted(rows) ==> !x.state.Running?
  {
    InterruptedMembers(rows);
    hide Interrupted;
  }

  lemma InterruptedKeys(rows: seq<Row>)
    requires ById(rows) && ByPayload(rows)
    ensures ById(Interrupted(rows)) && ByPayload(Interrupted(rows))
  {
    InterruptedMembers(rows);
    hide Interrupted;
  }

  lemma InterruptedEvidence(rows: seq<Row>)
    requires NoEvidence(rows)
    ensures NoEvidence(Interrupted(rows))
  {
    InterruptedMembers(rows);
    var r := Interrupted(rows);
    hide Interrupted;
    forall x, e | x in r && x.Unresolved() && x.payload.Remote? && e in r ensures !Proves(e, x.id) {
      if e in rows {
        assert x in rows || x.(state := Running) in rows;
      }
    }
  }

  lemma InterruptedAccounts(w: World)
    requires Inv(w) && ById(Interrupted(w.rows)) && !w.alive
    ensures var v := w.(rows := Interrupted(w.rows), alive := true); Accounted(v) && Reported(v)
  {
    var rows := Interrupted(w.rows);
    InterruptedMembers(w.rows);
    hide Interrupted, ByPayload, Checked, NoEvidence;
    forall i | 0 <= i < |w.dispatched| && w.dispatched[i].0 !in w.settled
      ensures var f := Find(rows, w.dispatched[i].0); f.Some? && f.value.Unresolved() && f.value.payload == w.dispatched[i].1
    {
      var x := Find(w.rows, w.dispatched[i].0).value;
      FindExact(rows, if x.state.Running? then x.(state := Unknown) else x);
    }
  }

  lemma InterruptedMembers(rows: seq<Row>)
    ensures forall y :: y in Interrupted(rows) ==> y in rows || (y.state.Unknown? && y.(state := Running) in rows)
    ensures forall x :: x in rows ==> (if x.state.Running? then x.(state := Unknown) else x) in Interrupted(rows)
  {
    var r := Interrupted(rows);
    forall x | x in rows ensures (if x.state.Running? then x.(state := Unknown) else x) in r {
      var i :| 0 <= i < |rows| && rows[i] == x;
      assert r[i] in r;
    }
  }

  lemma NextKeeps(w: World, e: Event)
    requires Inv(w) && Fair(w, e)
    ensures Inv(Next(w, e))
  {
    hide Inv, Fair;
    match e
    case Request(id, payload) => RequestKeeps(w, e);
    case Refuse(id, payload) => RequestKeeps(w, e);
    case Dispatch => DispatchKeeps(w);
    case Investigate(reply) => InvestigateKeeps(w, reply);
    case Finish(uncertain, reply) => FinishKeeps(w, uncertain, reply);
    case Crash => CrashKeeps(w);
    case Restart => RestartKeeps(w);
  }

  lemma CrashKeeps(w: World)
    requires Inv(w)
    ensures Inv(Next(w, Crash))
  {
  }

  // ---------------------------------------------------------------- whole runs

  ghost predicate FairRun(w: World, es: seq<Event>) {
    es == [] || (FairRun(w, es[..|es| - 1]) && Fair(Run(w, es[..|es| - 1]), es[|es| - 1]))
  }

  lemma {:induction false} RunKeeps(w: World, es: seq<Event>)
    requires Inv(w) && FairRun(w, es)
    ensures Inv(Run(w, es))
  {
    hide Inv, Next, Fair;
    if es != [] {
      RunKeeps(w, es[..|es| - 1]);
      NextKeeps(Run(w, es[..|es| - 1]), es[|es| - 1]);
    }
  }

  lemma EmptyHolds()
    ensures Inv(EMPTY)
  {
  }

  /** Nothing uncertain is run again. Over every run with crashes at any point, of two dispatches for
      the same payload the earlier one is settled, and every other dispatched side effect still stands
      unresolved in the ledger. */
  lemma NeverRepeated(es: seq<Event>)
    requires FairRun(EMPTY, es)
    ensures var w := Run(EMPTY, es);
            && (forall i, j :: 0 <= i < j < |w.dispatched| && w.dispatched[i].1 == w.dispatched[j].1 ==> w.dispatched[i].0 in w.settled)
            && (forall i :: 0 <= i < |w.dispatched| && w.dispatched[i].0 !in w.settled ==>
                  exists x :: x in w.rows && x.id == w.dispatched[i].0 && x.payload == w.dispatched[i].1 && x.Unresolved())
  {
    EmptyHolds();
    RunKeeps(EMPTY, es);
    var w := Run(EMPTY, es);
    hide Run;
    forall i | 0 <= i < |w.dispatched| && w.dispatched[i].0 !in w.settled
      ensures exists x :: x in w.rows && x.id == w.dispatched[i].0 && x.payload == w.dispatched[i].1 && x.Unresolved()
    {
      assert Find(w.rows, w.dispatched[i].0).value in w.rows;
    }
  }

  // ---------------------------------------------------------------- what each step does

  /** The calls that count against the limit: unresolved and not parked. */
  function Pressing(rows: seq<Row>): set<nat> {
    set i: nat | i < |rows| && IsPressing(rows[i])
  }

  predicate IsPressing(x: Row) { x.state.Running? || (x.state.Unknown? && !x.parked) }

  lemma {:induction false} OpenCountMeaning(rows: seq<Row>)
    ensures OpenCount(rows) == |Pressing(rows)|
  {
    if rows != [] {
      var front, last := rows[..|rows| - 1], |rows| - 1;
      OpenCountMeaning(front);
      assert Pressing(rows) == Pressing(front) + if IsPressing(rows[last]) then {last} else {};
    }
  }

  /** A status request for a job that a crash left unknown asks for the reconciliation of its call. */
  ghost predicate AsksAboutUnknown(w: World, payload: Payload) {
    payload.Status? && exists x :: x in w.rows && x.id == payload.job && x.payload.Remote? && x.state.Unknown?
  }

  /** A row that already answers the request: the same id, or the same unresolved call. */
  ghost predicate Answers(x: Row, id: Id, payload: Payload) { x.id == id || (!x.state.Completed? && !x.state.Refused? && x.payload == payload) }

  /** A call is taken up exactly when no row answers it, nor the reconciliation it stands for, and fewer
      than twenty calls press or it only reads, asks for a status or reconciles. It is then on record as
      running before anything else happens. */
  lemma RequestMeaning(w: World, id: Id, payload: Payload)
    requires Inv(w) && w.alive && w.flight.None?
    ensures var asked := if AsksAboutUnknown(w, payload) then Reconcile(payload.job, None) else payload;
            var known := exists x :: x in w.rows && (Answers(x, id, payload) || Answers(x, id, asked));
            var crowded := |Pressing(w.rows)| >= 20 && !payload.Read? && !payload.Status? && !payload.Reconcile?;
            var v := Next(w, Request(id, payload));
            if known || crowded then v == w
            else
              && v.flight == Some(id) && !v.loose && Row(id, asked, Running, 0, false, None) in v.rows && id in v.used
              && v.dispatched == w.dispatched && v.settled == w.settled
  {
    OpenCountMeaning(w.rows);
    var asked := if AsksAboutUnknown(w, payload) then Reconcile(payload.job, None) else payload;
    RedirectedMeaning(w, payload);
    PriorMeaning(w.rows, id, payload);
    PriorMeaning(w.rows, id, asked);
    PutMembers(w.rows, Row(id, asked, Running, 0, false, None));
    hide Inv, Put, OpenCount, Prior, Redirected, AsksAboutUnknown, Answers, Pressing;
  }

  /** A call that would be taken up but finds no planned variant is on record as refused, and nothing else
      happens. */
  lemma RefusalMeaning(w: World, id: Id, payload: Payload)
    requires Inv(w) && w.alive && w.flight.None? && Next(w, Request(id, payload)) != w
    ensures var v := Next(w, Refuse(id, payload));
            && Row(id, payload, Refused, 0, false, None) in v.rows && id in v.used
            && v.flight.None? && v.dispatched == w.dispatched && v.settled == w.settled
  {
    PutMembers(w.rows, Row(id, payload, Refused, 0, false, None));
    hide Inv, Put, Admissible;
  }

  lemma RedirectedMeaning(w: World, payload: Payload)
    requires ById(w.rows)
    ensures Redirected(w.rows, payload) == if AsksAboutUnknown(w, payload) then Reconcile(payload.job, None) else payload
  {
    if x :| payload.Status? && x in w.rows && x.id == payload.job && x.payload.Remote? && x.state.Unknown? {
      FindExact(w.rows, x);
    }
  }

  lemma PriorMeaning(rows: seq<Row>, id: Id, payload: Payload)
    ensures Prior(rows, id, payload) <==> exists x :: x in rows && Answers(x, id, payload)
  {
    if x :| x in rows && Answers(x, id, payload) {
      var i :| 0 <= i < |rows| && rows[i] == x;
    }
  }

  /** What leaves the process: the effect of a local or remote call, once, and nothing for any other. */
  lemma DispatchMeaning(w: World)
    requires Inv(w) && w.flight.Some? && !w.loose
    ensures var v, row := Next(w, Dispatch), Find(w.rows, w.flight.value).value;
            && v.rows == w.rows && v.loose && v.flight == w.flight && Next(v, Dispatch) == v
            && v.dispatched == w.dispatched + if row.payload.Local? || row.payload.Remote? then [(row.id, row.payload)] else []
  {
  }

  /** How a call ends: an effect whose outcome is uncertain is unknown from then on, and everything else
      is completed and settled. */
  lemma FinishMeaning(w: World, uncertain: bool, reply: Reply)
    requires Inv(w) && w.flight.Some?
    ensures var v, row := Next(w, Finish(uncertain, reply)), Find(w.rows, w.flight.value).value;
            && v.flight.None?
            && if uncertain && (row.payload.Local? || row.payload.Remote?) then row.(state := Unknown, reply := None) in v.rows && v.settled == w.settled
               else row.(state := Completed, reply := if row.payload.Status? then Some(reply) else None) in v.rows && v.settled == w.settled + {row.id}
  {
    hide Put, Inv, Find;
    FlightIsFound(w);
    var row := Find(w.rows, w.flight.value).value;
    PutMembers(w.rows, row.(state := Unknown, reply := None));
    PutMembers(w.rows, row.(state := Completed, reply := if row.payload.Status? then Some(reply) else None));
  }

  lemma FlightIsFound(w: World)
    requires Inv(w) && w.flight.Some?
    ensures Find(w.rows, w.flight.value).Some?
  {
  }

  /** A reconciliation that could name matching evidence would reopen even a parked call. */
  lemma EvidenceReopens(w: World, payload: Payload, reply: Reply, x: Row, e: Row)
    requires ById(w.rows) && x in w.rows && x.payload.Remote? && !x.state.Refused? && payload == Reconcile(x.id, Some(e.id))
    requires e in w.rows && e.payload.Status? && e.state.Completed? && e.reply == Some(Reply(x.id, Done, true))
    ensures x.(state := Completed, parked := false) in InvestigateWith(w, payload, reply).rows
  {
    FindExact(w.rows, x);
    FindExact(w.rows, e);
    PutMembers(w.rows, x.(state := Completed, parked := false));
    hide Put;
  }

  /** An unresolved call is in the ledger until the step that completes it; the bound on settled calls
      never reaches it. */
  lemma UnresolvedIsKept(w: World, e: Event, x: Row)
    requires Inv(w) && x in w.rows && x.Unresolved()
    ensures exists y :: y in Next(w, e).rows && y.id == x.id && y.payload == x.payload && (y.Unresolved() || y.state.Completed?)
  {
    match e
    case Request(id, payload) => AddedKeeps(w, e, x);
    case Refuse(id, payload) => AddedKeeps(w, e, x);
    case Dispatch =>
    case Investigate(reply) => InvestigationOf(w, reply, x);
    case Finish(uncertain, reply) => FinishOf(w, uncertain, reply, x);
    case Crash =>
    case Restart =>
      InterruptedMembers(w.rows);
      var y := if x.state.Running? then x.(state := Unknown) else x;
      assert !w.alive ==> y in Next(w, e).rows;
  }

  lemma AddedKeeps(w: World, e: Event, x: Row)
    requires Inv(w) && x in w.rows && x.Unresolved() && (e.Request? || e.Refuse?)
    ensures x in Next(w, e).rows
  {
    var p := Redirected(w.rows, e.payload);
    FindExact(w.rows, x);
    PutMembers(w.rows, Row(e.id, p, Running, 0, false, None));
    PutMembers(w.rows, Row(e.id, e.payload, Refused, 0, false, None));
    hide Put, Redirected, FindOpen, OpenCount;
  }

  lemma FinishOf(w: World, uncertain: bool, reply: Reply, x: Row)
    requires Inv(w) && x in w.rows && x.Unresolved()
    ensures exists y :: y in Next(w, Finish(uncertain, reply)).rows && y.id == x.id && y.payload == x.payload && (y.Unresolved() || y.state.Completed?)
    ensures x.state.Unknown? ==> x in Next(w, Finish(uncertain, reply)).rows
  {
    FindExact(w.rows, x);
    if w.flight.Some? && Find(w.rows, w.flight.value).Some? {
      var row := Find(w.rows, w.flight.value).value;
      var done := row.(state := if row.payload.SideEffect() && uncertain then Unknown else Completed, reply := if row.payload.Status? then Some(reply) else None);
      PutMembers(w.rows, done);
      hide Put;
      assert row.id == x.id ==> done in Next(w, Finish(uncertain, reply)).rows;
    }
  }

  /** What a reconciliation does to one unresolved call: nothing, unless it names it; then the call
      becomes completed exactly when the lookup reports that its own job is done and succeeded in
      running, and a parked call is not even looked up. */
  lemma InvestigationOf(w: World, reply: Reply, x: Row)
    requires Inv(w) && x in w.rows && x.Unresolved()
    ensures var v := Next(w, Investigate(reply));
            var named := w.flight.Some? && !w.loose && Find(w.rows, w.flight.value).Some?
              && Find(w.rows, w.flight.value).value.payload.Reconcile? && Find(w.rows, w.flight.value).value.payload.target == x.id;
            (if named && x.payload.Remote? && !x.Parked() then Judged(x, reply) else x) in v.rows
  {
    FindExact(w.rows, x);
    if w.flight.Some? && !w.loose && Find(w.rows, w.flight.value).Some? && Find(w.rows, w.flight.value).value.payload.Reconcile? {
      var payload := Find(w.rows, w.flight.value).value.payload;
      var found := Find(w.rows, payload.target);
      if found.Some? && found.value.payload.Remote? && !found.value.state.Refused? {
        if payload.target == x.id {
          UnresolvedHasNoEvidence(w, payload, x);
        }
        var observed := if Matching(w.rows, payload, payload.target) then Find(w.rows, payload.evidence.value).value.reply.value else reply;
        PutMembers(w.rows, Judged(found.value, observed));
        hide Put;
      }
    }
  }

  /** And it settles what it can: a reconciliation under way that names an unknown remote call which is
      not parked completes the call when its job is reported done and succeeded in running, counts a
      miss when the job is not found, and otherwise leaves it. */
  lemma LookupSettles(w: World, reply: Reply, x: Row)
    requires Inv(w) && x in w.rows && x.state.Unknown? && x.payload.Remote? && !x.parked
    requires w.flight.Some? && !w.loose && Find(w.rows, w.flight.value).Some?
    requires Find(w.rows, w.flight.value).value.payload.Reconcile? && Find(w.rows, w.flight.value).value.payload.target == x.id
    ensures var v := Next(w, Investigate(reply));
            && (reply.state.Done? && reply.ok ==> x.(state := Completed) in v.rows && v.settled == w.settled + {x.id})
            && (reply.state.NotFound? ==> x.(checks := x.checks + 1, parked := x.checks >= 1) in v.rows && v.settled == w.settled)
            && (!reply.state.NotFound? && !(reply.state.Done? && reply.ok) ==> x in v.rows && v.settled == w.settled)
  {
    FindExact(w.rows, x);
    InvestigationOf(w, reply, x);
    UnresolvedHasNoEvidence(w, Find(w.rows, w.flight.value).value.payload, x);
    hide Put, Matching, ById, ByPayload, NoEvidence, Reported, Accounted;
  }

  /** An unknown call becomes completed only in a reconciliation that names it, from a reply saying
      that its own job is done. */
  lemma CompletionNeedsEvidence(w: World, e: Event, x: Row, y: Row)
    requires Inv(w) && Inv(Next(w, e)) && Fair(w, e) && x in w.rows && x.state.Unknown? && y in Next(w, e).rows && y.id == x.id && y.state.Completed?
    ensures e.Investigate? && e.reply.job == x.id && e.reply.state.Done? && e.reply.ok && !x.parked && x.payload.Remote?
    ensures w.flight.Some? && Find(w.rows, w.flight.value).Some? && Find(w.rows, w.flight.value).value.payload.Reconcile?
            && Find(w.rows, w.flight.value).value.payload.target == x.id
  {
    if e.Investigate? {
      InvestigationOf(w, e.reply, x);
    } else {
      UnknownStays(w, e, x);
    }
    hide Next, Find, NoEvidence, Accounted, Reported, Checked, ByPayload;
  }

  lemma UnknownStays(w: World, e: Event, x: Row)
    requires Inv(w) && x in w.rows && x.state.Unknown? && !e.Investigate?
    ensures x in Next(w, e).rows
  {
    match e
    case Request(id, payload) => AddedKeeps(w, e, x);
    case Refuse(id, payload) => AddedKeeps(w, e, x);
    case Dispatch =>
    case Finish(uncertain, reply) => FinishOf(w, uncertain, reply, x);
    case Crash =>
    case Restart => InterruptedMembers(w.rows);
  }

  /** At most two missing checks, for ever. A call whose job was twice not found is parked, and a
      parked call stays exactly as it is in every later run: the status request that could produce
      new evidence is itself turned into the parked reconciliation. */
  lemma {:induction false} ParkedForEver(w: World, es: seq<Event>, x: Row)
    requires Inv(w) && FairRun(w, es) && x in w.rows && x.Parked()
    ensures x in Run(w, es).rows && x.checks == 2
  {
    if es != [] {
      ParkedForEver(w, es[..|es| - 1], x);
      RunKeeps(w, es[..|es| - 1]);
      var v, e := Run(w, es[..|es| - 1]), es[|es| - 1];
      if e.Investigate? {
        InvestigationOf(v, e.reply, x);
      } else {
        UnknownStays(v, e, x);
      }
    }
  }

  function Missing(job: Id): Reply { Reply(job, NotFound, false) }

  /** One whole reconciliation of a job that is not found. */
  function MissedLookup(w: World, job: Id, id: Id): World {
    Next(Next(Next(w, Request(id, Reconcile(job, None))), Investigate(Missing(job))), Finish(false, Missing(job)))
  }

  ghost predicate AtRest(w: World) { Inv(w) && w.alive && w.flight.None? }

  /** A lookup under a new id that finds nothing counts one miss of the unknown call it names. */
  lemma MissCounts(w: World, x: Row, id: Id)
    requires AtRest(w) && x in w.rows && x.state.Unknown? && x.payload.Remote? && !x.parked && id !in w.used
    requires FindOpen(w.rows, Reconcile(x.id, None)).None?
    ensures var v := MissedLookup(w, x.id, id);
            && AtRest(v) && Judged(x, Missing(x.id)) in v.rows && v.used == w.used + {id}
            && FindOpen(v.rows, Reconcile(x.id, None)).None?
  {
    var lookup := Row(id, Reconcile(x.id, None), Running, 0, false, None);
    var a := LookupBegins(w, x, lookup);
    var b := LookupLooks(a, x, lookup);
    LookupEnds(b, Judged(x, Missing(x.id)), lookup);
  }

  lemma LookupBegins(w: World, x: Row, lookup: Row) returns (a: World)
    requires AtRest(w) && x in w.rows && x.state.Unknown? && lookup.id !in w.used && FindOpen(w.rows, lookup.payload).None?
    requires lookup == Row(lookup.id, Reconcile(x.id, None), Running, 0, false, None)
    ensures a == Next(w, Request(lookup.id, lookup.payload)) && Inv(a) && a.alive && a.flight == Some(lookup.id) && !a.loose
    ensures x in a.rows && lookup in a.rows && Find(a.rows, lookup.id) == Some(lookup) && a.used == w.used + {lookup.id}
  {
    var e := Request(lookup.id, lookup.payload);
    a := Next(w, e);
    NextKeeps(w, e);
    AddedKeeps(w, e, x);
    PutMembers(w.rows, lookup);
    hide Put, OpenCount;
    FindExact(a.rows, lookup);
  }

  lemma LookupLooks(a: World, x: Row, lookup: Row) returns (b: World)
    requires Inv(a) && a.alive && a.flight == Some(lookup.id) && !a.loose
    requires x in a.rows && lookup in a.rows && Find(a.rows, lookup.id) == Some(lookup)
    requires x.state.Unknown? && x.payload.Remote? && !x.parked && lookup.payload == Reconcile(x.id, None) && lookup.state.Running?
    ensures b == Next(a, Investigate(Missing(x.id))) && Inv(b) && b.alive && b.flight == a.flight && b.used == a.used
    ensures Judged(x, Missing(x.id)) in b.rows && lookup in b.rows && Find(b.rows, lookup.id) == Some(lookup)
  {
    var e := Investigate(Missing(x.id));
    b := Next(a, e);
    NextKeeps(a, e);
    InvestigationOf(a, Missing(x.id), x);
    InvestigationOf(a, Missing(x.id), lookup);
    hide Put, OpenCount;
    FindExact(b.rows, lookup);
  }

  lemma LookupEnds(b: World, x: Row, lookup: Row)
    requires Inv(b) && b.alive && b.flight == Some(lookup.id) && Find(b.rows, lookup.id) == Some(lookup) && lookup in b.rows
    requires x in b.rows && x.state.Unknown? && lookup.payload == Reconcile(x.id, None) && lookup.state.Running?
    ensures var v := Next(b, Finish(false, Missing(x.id)));
            AtRest(v) && x in v.rows && v.used == b.used && FindOpen(v.rows, lookup.payload).None?
  {
    FinishOf(b, false, Missing(x.id), x);
    NoneOpenAfter(b.rows, lookup);
    hide Inv, Put, FindOpen;
    NextKeeps(b, Finish(false, Missing(x.id)));
  }

  lemma NoneOpenAfter(rows: seq<Row>, lookup: Row)
    requires ByPayload(rows) && lookup in rows && lookup.Unresolved()
    ensures FindOpen(Put(rows, lookup.(state := Completed, reply := None)), lookup.payload).None?
  {
    PutMembers(rows, lookup.(state := Completed, reply := None));
    hide Put;
  }

  /** A parked call is reached: any unknown remote call that no lookup has missed yet is parked by two
      lookups that find nothing. */
  lemma TwoMissesPark(w: World, x: Row, first: Id, second: Id)
    requires AtRest(w) && x in w.rows && x.state.Unknown? && x.payload.Remote? && x.checks == 0
    requires first !in w.used && second !in w.used && first != second && FindOpen(w.rows, Reconcile(x.id, None)).None?
    ensures var v := MissedLookup(MissedLookup(w, x.id, first), x.id, second);
            AtRest(v) && x.(checks := MAX_MISSING_CHECKS, parked := true) in v.rows
  {
    hide MissedLookup;
    MissCounts(w, x, first);
    MissCounts(MissedLookup(w, x.id, first), Judged(x, Missing(x.id)), second);
  }

  /** Such a call is reached from an empty ledger: a crash under a remote call leaves one. */
  lemma CrashLeavesUnknown(id: Id, text: string)
    ensures var w := Next(Next(Next(Next(EMPTY, Request(id, Remote(text))), Dispatch), Crash), Restart);
            AtRest(w) && w.rows == [Row(id, Remote(text), Unknown, 0, false, None)] && w.used == {id}
            && FindOpen(w.rows, Reconcile(id, None)).None?
  {
    var row := Row(id, Remote(text), Running, 0, false, None);
    var a := FirstCall(row);
    var b := FirstDispatch(row, a);
    CrashUnder(row, b);
    hide *;
  }

  /** The first call of an empty ledger. */
  lemma FirstCall(row: Row) returns (a: World)
    requires row == Row(row.id, row.payload, Running, 0, false, None) && row.payload.Remote?
    ensures a == Next(EMPTY, Request(row.id, row.payload)) == EMPTY.(rows := [row], flight := Some(row.id), used := {row.id}) && Inv(a)
  {
    hide Put, Inv, Admissible;
    PutFirst(row);
    EmptyHolds();
    EmptyAdmits(row.id, row.payload);
    NextKeeps(EMPTY, Request(row.id, row.payload));
    a := Next(EMPTY, Request(row.id, row.payload));
  }

  lemma EmptyAdmits(id: Id, payload: Payload)
    ensures Admissible(EMPTY.rows, id, payload) && Redirected(EMPTY.rows, payload) == payload
  {
  }

  lemma FirstDispatch(row: Row, a: World) returns (b: World)
    requires a == EMPTY.(rows := [row], flight := Some(row.id), used := {row.id}) && Inv(a) && row.payload.Remote?
    ensures b == Next(a, Dispatch) && Inv(b) && b.rows == [row] && b.used == {row.id}
  {
    NextKeeps(a, Dispatch);
    hide Inv, Put;
    b := Next(a, Dispatch);
  }

  lemma CrashUnder(row: Row, b: World)
    requires Inv(b) && b.rows == [row] && row == Row(row.id, row.payload, Running, 0, false, None) && row.payload.Remote?
    ensures var w := Next(Next(b, Crash), Restart);
            AtRest(w) && w.rows == [row.(state := Unknown)] && w.used == b.used && FindOpen(w.rows, Reconcile(row.id, None)).None?
  {
    hide Inv;
    NextKeeps(b, Crash);
    NextKeeps(Next(b, Crash), Restart);
    assert Interrupted([row]) == [row.(state := Unknown)];
  }

  lemma OpenLast(rows: seq<Row>, row: Row)
    requires row.Unresolved()
    ensures Settled(rows + [row]) == Settled(rows) && Open(rows + [row]) == Open(rows) + [row]
  {
    assert (rows + [row])[..|rows|] == rows;
  }

  lemma PutFirst(row: Row)
    requires row.Unresolved()
    ensures Put([], row) == [row]
  {
    OpenLast([], row);
    assert Others([], row.id) == [] && Settled([]) == [] && Open([]) == [];
    assert [] + [row] == [row];
    hide Others, Settled, Open;
  }

  /** A lookup that was itself interrupted is not made again: while both rows stand, neither the same
      reconciliation nor a status request for that job is admitted. */
  lemma InterruptedLookupBlocks(w: World, job: Row, lookup: Row, id: Id)
    requires Inv(w) && job in w.rows && job.state.Unknown? && job.payload.Remote?
    requires lookup in w.rows && lookup.state.Unknown? && lookup.payload == Reconcile(job.id, None)
    ensures !Admissible(w.rows, id, Reconcile(job.id, None)) && !Admissible(w.rows, id, Status(job.id))
  {
    FindExact(w.rows, job);
    assert FindOpen(w.rows, lookup.payload).Some?;
  }

  lemma {:induction false} SettledSize(rows: seq<Row>, more: seq<Row>)
    requires (forall i :: 0 <= i < |rows| ==> !rows[i].Unresolved()) && (forall i :: 0 <= i < |more| ==> more[i].Unresolved())
    ensures Settled(rows + more) == rows
  {
    if more != [] {
      SettledSize(rows, more[..|more| - 1]);
      assert (rows + more)[..|rows + more| - 1] == rows + more[..|more| - 1];
    } else if rows != [] {
      SettledSize(rows[..|rows| - 1], []);
      assert rows + [] == rows && rows[..|rows| - 1] + [] == rows[..|rows| - 1];
    }
  }

  /** After every write at most a hundred settled calls are left. */
  lemma SettledIsBounded(rows: seq<Row>, row: Row)
    ensures |Settled(Put(rows, row))| <= 100
  {
    var all := Others(rows, row.id) + [row];
    SplitMembers(all);
    TailMembers(Settled(all), KEPT);
    hide Others;
    var kept, unresolved := Tail(Settled(all), KEPT), Open(all);
    assert forall i :: 0 <= i < |kept| ==> kept[i] in kept;
    assert forall i :: 0 <= i < |unresolved| ==> unresolved[i] in unresolved;
    SettledSize(kept, unresolved);
  }

  // ---------------------------------------------------------------- the object

  datatype Answer = Replayed(row: Row) | OverLimit | Ran

  /** The first `n` steps of an admitted call. */
  function Carried(w: World, id: Id, payload: Payload, uncertain: bool, reply: Reply, n: nat): World
    requires n <= 4
  {
    match n
    case 0 => w
    case 1 => Next(w, Request(id, payload))
    case 2 => Next(Next(w, Request(id, payload)), Investigate(reply))
    case 3 => Next(Next(Next(w, Request(id, payload)), Investigate(reply)), Dispatch)
    case 4 => Next(Next(Next(Next(w, Request(id, payload)), Investigate(reply)), Dispatch), Finish(uncertain, reply))
  }

  class AgentAdvisor {
    var rows: seq<Row>
    /** The call under way, and whether its effect has been let loose. */
    var flight: Option<Id>
    var loose: bool
    var dispatched: seq<(Id, Payload)>
    var settled: set<Id>
    var used: set<Id>

    function View(): World
      reads this
    {
      World(rows, true, flight, loose, dispatched, settled, used)
    }

    /** A new process: every call still running is unknown from here on. */
    constructor (w: World)
      requires !w.alive && w.flight.None?
      ensures View() == Next(w, Restart)
    {
      rows, flight, loose, dispatched, settled, used := w.rows, None, w.loose, w.dispatched, w.settled, w.used;
      new;
      var i := 0;
      while i < |rows|
        invariant i <= |rows| == |w.rows| && View() == World(rows, true, None, w.loose, w.dispatched, w.settled, w.used)
        invariant forall k :: 0 <= k < |rows| ==> rows[k] == if k < i && w.rows[k].state.Running? then w.rows[k].(state := Unknown) else w.rows[k]
      {
        if rows[i].state.Running? {
          rows := rows[i := rows[i].(state := Unknown)];
        }
        i := i + 1;
      }
      assert rows == Interrupted(w.rows);
    }

    /** Replaces a row and bounds the settled ones. */
    method Record(row: Row)
      modifies this`rows
      ensures rows == Put(old(rows), row)
    {
      var all := Others(rows, row.id) + [row];
      var bounded := Settled(all);
      if |bounded| > KEPT {
        bounded := bounded[|bounded| - KEPT..];
      }
      rows := bounded + Open(all);
    }

    /** Admission: a duplicate of a known or unresolved call is answered with that call's row, and too
        many unresolved calls refuse all but reading; otherwise the call is on record as running. */
    method Begin(id: Id, payload: Payload) returns (answer: Answer)
      requires flight.None?
      modifies this
      ensures View() == Next(old(View()), Request(id, payload))
      ensures answer.Ran? <==> Admissible(old(rows), id, payload)
      ensures !answer.Ran? ==> View() == old(View())
      ensures answer.Replayed? ==> answer.row in old(rows) && (answer.row.id == id || answer.row.Unresolved())
      ensures answer.Ran? ==> flight == Some(id)
    {
      hide Put;
      if Prior(rows, id, payload) {
        return Replayed(if Find(rows, id).Some? then Find(rows, id).value else FindOpen(rows, payload).value);
      }
      if OpenCount(rows) >= OPEN_LIMIT && !payload.Exempt() {
        return OverLimit;
      }
      var asked := Redirected(rows, payload);
      if Prior(rows, id, asked) {
        return Replayed(FindOpen(rows, asked).value);
      }
      Record(Row(id, asked, Running, 0, false, None));
      flight, loose, used := Some(id), false, used + {id};
      answer := Ran;
    }

    /** A reconciliation looks at the call it names, unless that call is parked. */
    method Look(reply: Reply)
      modifies this
      ensures View() == Next(old(View()), Investigate(reply))
    {
      hide Put, Judged, Matching;
      if flight.None? || loose || Find(rows, flight.value).None? || !Find(rows, flight.value).value.payload.Reconcile? {
        return;
      }
      var payload := Find(rows, flight.value).value.payload;
      loose := true;
      var found := Find(rows, payload.target);
      if found.None? || !found.value.payload.Remote? || found.value.state.Refused? {
        return;
      }
      var matching := Matching(rows, payload, found.value.id);
      if found.value.Parked() && !matching {
        return;
      }
      MatchingIsDone(rows, payload, found.value.id);
      var observed := if matching then Find(rows, payload.evidence.value).value.reply.value else reply;
      var judged := Judged(found.value, observed);
      Record(judged);
      if judged.state.Completed? {
        settled := settled + {found.value.id};
      }
    }

    method Conclude(uncertain: bool, reply: Reply)
      modifies this
      ensures View() == Next(old(View()), Finish(uncertain, reply))
    {
      hide Put;
      if flight.None? || Find(rows, flight.value).None? {
        return;
      }
      var row := Find(rows, flight.value).value;
      var unknown := row.payload.SideEffect() && uncertain;
      Record(row.(state := if unknown then Unknown else Completed, reply := if row.payload.Status? then Some(reply) else None));
      flight := None;
      if !unknown {
        settled := settled + {row.id};
      }
    }

    /** A call from its admission to its final row, or as far as the process lives: `life` is the
        number of steps it still makes. */
    method Execute(id: Id, payload: Payload, uncertain: bool, reply: Reply, life: nat) returns (answer: Option<Answer>)
      requires flight.None?
      modifies this
      ensures !Admissible(old(rows), id, payload) && life > 0 ==> answer.Some? && !answer.value.Ran? && View() == old(View())
      ensures Admissible(old(rows), id, payload) && life >= 4 ==> answer == Some(Ran)
      ensures Admissible(old(rows), id, payload) ==>
                View() == Carried(old(View()), id, payload, uncertain, reply, if life < 4 then life else 4)
      ensures life == 0 || (Admissible(old(rows), id, payload) && life < 4) ==> answer == None
      ensures answer.Some? && answer.value.Replayed? ==> answer.value.row in old(rows) && (answer.value.row.id == id || answer.value.row.Unresolved())
    {
      if life == 0 {
        return None;
      }
      var begun := Begin(id, payload);
      if !begun.Ran? {
        return Some(begun);
      }
      hide Admissible;
      if life == 1 {
        return None;
      }
      Look(reply);
      if life == 2 {
        return None;
      }
      LetLoose();
      if life == 3 {
        return None;
      }
      Conclude(uncertain, reply);
      answer := Some(begun);
    }

    /** The effect of the call under way leaves the process. */
    method LetLoose()
      modifies this
      ensures View() == Next(old(View()), Dispatch)
    {
      hide Put;
      if flight.Some? && !loose && Find(rows, flight.value).Some? {
        var row := Find(rows, flight.value).value;
        if row.payload.SideEffect() {
          dispatched := dispatched + [(row.id, row.payload)];
        }
        loose := true;
      }
    }
  }
}
