/** Conservation of drafts, versions that follow the notes, and writes that cannot be lost. */
module MemoryLaws {
  import opened Prelude
  import opened MemoryBook

  // ---------------------------------------------------------------- conservation

  function OpenIds(open: seq<Draft>): set<Id> { set i | 0 <= i < |open| :: open[i].id }

  function FateIds(fates: seq<Tombstone>): set<Id> { set i | 0 <= i < |fates| :: fates[i].id }

  function CountOf(fates: seq<Tombstone>, resolution: Resolution): nat {
    if fates == [] then 0 else CountOf(fates[..|fates| - 1], resolution) + if fates[|fates| - 1].resolution == resolution then 1 else 0
  }

  ghost predicate UniqueOpen(open: seq<Draft>) { forall i, j :: 0 <= i < j < |open| ==> open[i].id != open[j].id }

  ghost predicate UniqueFates(fates: seq<Tombstone>) { forall i, j :: 0 <= i < j < |fates| ==> fates[i].id != fates[j].id }

  /** Every draft ever born is open, or has met exactly one fate, and not both. */
  ghost predicate Conserved(b: Book) {
    && UniqueOpen(b.drafts.open) && UniqueFates(b.fates)
    && b.born == OpenIds(b.drafts.open) + FateIds(b.fates)
    && OpenIds(b.drafts.open) !! FateIds(b.fates)
    && b.drafts.evicted == CountOf(b.fates, Evicted)
    && b.drafts.closed == Tail(b.fates, MAX_CLOSED_DRAFTS)
  }

  ghost predicate Settled(b: Book) {
    Conserved(b) && |b.drafts.open| <= MAX_OPEN_DRAFTS && (b.legacy.Some? ==> b.legacy.value.id !in b.born)
  }

  lemma {:induction false} WithoutShape(open: seq<Draft>, id: Id)
    requires UniqueOpen(open)
    ensures var r := Without(open, id); UniqueOpen(r) && OpenIds(r) == OpenIds(open) - {id}
    ensures forall d :: d in Without(open, id) <==> d in open && d.id != id
  {
    if open != [] {
      var front, last := open[..|open| - 1], open[|open| - 1];
      WithoutShape(front, id);
      assert open == front + [last];
      assert OpenIds(open) == OpenIds(front) + {last.id} by { IdsSnoc(front, last); }
      IdsSnoc(Without(front, id), last);
      assert last.id !in OpenIds(front);
    }
  }

  lemma IdsSnoc(open: seq<Draft>, d: Draft)
    ensures OpenIds(open + [d]) == OpenIds(open) + {d.id}
  {
    var all := open + [d];
    assert all[|open|] == d;
    forall id | id in OpenIds(open) ensures id in OpenIds(all) {
      var i :| 0 <= i < |open| && open[i].id == id;
      assert all[i].id == id;
    }
  }

  lemma FatesSnoc(fates: seq<Tombstone>, t: Tombstone)
    requires UniqueFates(fates) && t.id !in FateIds(fates)
    ensures UniqueFates(fates + [t]) && FateIds(fates + [t]) == FateIds(fates) + {t.id}
    ensures forall r :: CountOf(fates + [t], r) == CountOf(fates, r) + if t.resolution == r then 1 else 0
    ensures Tail(fates + [t], MAX_CLOSED_DRAFTS) == Tail(Tail(fates, MAX_CLOSED_DRAFTS) + [t], MAX_CLOSED_DRAFTS)
  {
    var all := fates + [t];
    assert all[..|fates|] == fates;
    assert all[|fates|] == t;
    forall id | id in FateIds(fates) ensures id in FateIds(all) {
      var i :| 0 <= i < |fates| && fates[i].id == id;
      assert all[i].id == id;
    }
  }

  lemma HasMeans(open: seq<Draft>, id: Id)
    ensures Has(open, id) <==> id in OpenIds(open)
  {
  }

  lemma CloseConserves(b: Book, id: Id, resolution: Resolution)
    requires Conserved(b) && Has(b.drafts.open, id)
    ensures var c := Close(b, id, resolution);
            var d := if resolution.Evicted? then c.(drafts := c.drafts.(evicted := c.drafts.evicted + 1)) else c;
            Conserved(d) && OpenIds(d.drafts.open) == OpenIds(b.drafts.open) - {id} && d.fates == b.fates + [Tombstone(id, resolution)]
            && forall x :: x in d.drafts.open <==> x in b.drafts.open && x.id != id
  {
    WithoutShape(b.drafts.open, id);
    HasMeans(b.drafts.open, id);
    FatesSnoc(b.fates, Tombstone(id, resolution));
    hide UniqueOpen, UniqueFates, OpenIds, FateIds, CountOf, Tail, Without;
  }

  /** Evictions close the oldest drafts only, and only as long as there are too many. */
  lemma {:induction false} EvictConserves(b: Book, n: nat)
    requires Conserved(b)
    ensures var c := EvictTo(b, n);
            Conserved(c) && c.notes == b.notes && c.born == b.born && c.legacy == b.legacy && c.drafts.rejections == b.drafts.rejections
            && |c.drafts.open| <= n && (|b.drafts.open| <= n ==> c == b)
    decreases |b.drafts.open|
  {
    if |b.drafts.open| > n {
      var id := b.drafts.open[0].id;
      assert Has(b.drafts.open, id);
      CloseConserves(b, id, Evicted);
      hide Conserved;
      EvictConserves(Evict(b), n);
    }
  }

  lemma ClosedAreFates(b: Book)
    requires Conserved(b)
    ensures forall id :: Closed(b, id) ==> id in FateIds(b.fates)
  {
    var k := |b.fates| - |b.drafts.closed|;
    forall id | Closed(b, id) ensures id in FateIds(b.fates) {
      var i :| 0 <= i < |b.drafts.closed| && b.drafts.closed[i].id == id;
      assert b.fates[k + i] == b.drafts.closed[i];
    }
  }

  lemma LegacyFirst(b: Book)
    requires Settled(b) && b.legacy.Some?
    ensures !Has(b.drafts.open, b.legacy.value.id) && !Closed(b, b.legacy.value.id)
    ensures Conserved(b.(drafts := b.drafts.(open := [b.legacy.value] + b.drafts.open), born := b.born + {b.legacy.value.id}))
  {
    var id := b.legacy.value.id;
    HasMeans(b.drafts.open, id);
    ClosedAreFates(b);
    var open := [b.legacy.value] + b.drafts.open;
    assert OpenIds(open) == {id} + OpenIds(b.drafts.open) by {
      assert open[0].id == id;
      forall x | x in OpenIds(b.drafts.open) ensures x in OpenIds(open) {
        var i :| 0 <= i < |b.drafts.open| && b.drafts.open[i].id == x;
        assert open[i + 1].id == x;
      }
      assert forall i :: 0 < i < |open| ==> open[i] == b.drafts.open[i - 1];
    }
    assert forall i :: 0 < i < |open| ==> open[i] == b.drafts.open[i - 1] && open[i].id in OpenIds(b.drafts.open);
  }

  lemma LoadSettles(b: Book)
    requires Settled(b)
    ensures var l := Load(b);
            Settled(l) && l.legacy.None? && l.notes == b.notes && b.born <= l.born
            && l.born == b.born + (if b.legacy.Some? then {b.legacy.value.id} else {})
            && (b.legacy.None? ==> l == b)
  {
    var c := b;
    if b.legacy.Some? {
      LegacyFirst(b);
      c := b.(drafts := b.drafts.(open := [b.legacy.value] + b.drafts.open), born := b.born + {b.legacy.value.id});
    }
    hide OpenIds, FateIds, UniqueOpen, UniqueFates, CountOf, Tail;
    var d := if b.legacy.Some? && b.legacy.value.attempts > c.drafts.rejections
             then c.(drafts := c.drafts.(rejections := b.legacy.value.attempts)) else c;
    EvictConserves(d.(legacy := None), MAX_OPEN_DRAFTS);
  }

  lemma {:induction false} NamedShape(open: seq<Draft>, ids: seq<Id>)
    ensures forall d :: d in Named(open, ids) <==> d in open && d.id in ids
    ensures UniqueOpen(open) ==> UniqueOpen(Named(open, ids))
  {
    if open != [] {
      NamedShape(open[..|open| - 1], ids);
      assert open == open[..|open| - 1] + [open[|open| - 1]];
    }
  }

  /** Closing several drafts in turn closes exactly them. */
  lemma {:induction false} CloseAllConserves(b: Book, ds: seq<Draft>)
    requires Conserved(b) && UniqueOpen(ds) && forall d :: d in ds ==> d in b.drafts.open
    ensures var c := CloseAll(b, ds);
            Conserved(c) && c == b.(drafts := c.drafts, fates := c.fates)
            && c.drafts.rejections == b.drafts.rejections && c.drafts.evicted == b.drafts.evicted
            && (forall d :: d in c.drafts.open <==> d in b.drafts.open && d.id !in OpenIds(ds))
            && |c.fates| == |b.fates| + |ds| && |c.drafts.open| <= |b.drafts.open|
            && (forall i :: 0 <= i < |ds| ==> c.fates[|b.fates| + i] == Tombstone(ds[i].id, Resolved))
            && c.fates[..|b.fates|] == b.fates
  {
    if ds != [] {
      var front, last := ds[..|ds| - 1], ds[|ds| - 1];
      assert ds == front + [last];
      CloseAllConserves(b, front);
      var c := CloseAll(b, front);
      IdsSnoc(front, last);
      assert last.id !in OpenIds(front);
      assert last in c.drafts.open;
      hide Conserved, OpenIds, UniqueOpen;
      CloseConserves(c, last.id, Resolved);
    }
  }

  /** The same drafts up to their contents. */
  lemma SameIdsConserve(b: Book, open: seq<Draft>)
    requires Conserved(b) && |open| == |b.drafts.open| && forall i :: 0 <= i < |open| ==> open[i].id == b.drafts.open[i].id
    ensures OpenIds(open) == OpenIds(b.drafts.open)
    ensures Conserved(b.(drafts := b.drafts.(open := open)))
  {
    hide FateIds, CountOf, Tail, UniqueFates;
    assert OpenIds(open) == OpenIds(b.drafts.open);
  }

  // ---------------------------------------------------------------- what each transaction does

  ghost predicate Extends(a: seq<Tombstone>, b: seq<Tombstone>) { |a| <= |b| && b[..|a|] == a }

  /** An accepted write saves its content, raises the version by one exactly when the content is new,
      resolves exactly the drafts it names and leaves every other open draft in place; it is accepted
      only on the current version. A refused write changes nothing. */
  lemma WriteMeaning(b: Book, w: WriteRequest)
    requires Settled(b)
    ensures Settled(Write(b, w))
    ensures var l, r := Load(b), Write(b, w);
            if !Accepts(b, w) then r == b else
            && r.notes.content == w.content
            && r.notes.version == b.notes.version + (if b.notes.version > 0 && b.notes.content == w.content then 0 else 1)
            && (w.base.Some? ==> w.base.value == b.notes.version)
            && (forall d :: d in l.drafts.open && d.id in w.resolves && w.base.None? ==> d.base == Some(b.notes.version))
            && OpenIds(r.drafts.open) == OpenIds(l.drafts.open) - (set id | id in w.resolves)
            && (forall id :: id in w.resolves ==> Tombstone(id, Resolved) in r.fates)
            && r.born == l.born && Extends(l.fates, r.fates)
  {
    LoadSettles(b);
    if Accepts(b, w) {
      AcceptedWrite(b, w);
    }
    hide Load, Settled, CloseAll, Named, OpenIds;
  }

  lemma AcceptedWrite(b: Book, w: WriteRequest)
    requires Settled(b) && Accepts(b, w) && Settled(Load(b)) && Load(b).legacy.None?
    ensures var l, r := Load(b), Write(b, w);
            && Settled(r) && OpenIds(r.drafts.open) == OpenIds(l.drafts.open) - (set id | id in w.resolves)
            && (forall id :: id in w.resolves ==> Tombstone(id, Resolved) in r.fates)
            && r.born == l.born && Extends(l.fates, r.fates)
  {
    var l := Load(b);
    hide Load;
    var ds := Named(l.drafts.open, w.resolves);
    NamedShape(l.drafts.open, w.resolves);
    CloseAllConserves(l, ds);
    var c := CloseAll(l, ds);
    NamedIds(l, c, ds, w.resolves);
    forall id | id in w.resolves ensures Tombstone(id, Resolved) in c.fates {
      ResolvedFate(l, c, ds, w.resolves, id);
    }
    hide Named, CloseAll;
    SameIdsConserve(c, Skip(c.drafts.open));
    hide OpenIds, FateIds, UniqueOpen, UniqueFates, CountOf, Tail;
  }

  lemma NamedIds(l: Book, c: Book, ds: seq<Draft>, ids: seq<Id>)
    requires UniqueOpen(l.drafts.open)
    requires forall d :: d in ds <==> d in l.drafts.open && d.id in ids
    requires forall d :: d in c.drafts.open <==> d in l.drafts.open && d.id !in OpenIds(ds)
    ensures OpenIds(c.drafts.open) == OpenIds(l.drafts.open) - (set id | id in ids)
  {
    IdsAreMembers(l.drafts.open);
    IdsAreMembers(c.drafts.open);
    IdsAreMembers(ds);
    hide OpenIds;
    forall id ensures id in OpenIds(c.drafts.open) <==> id in OpenIds(l.drafts.open) && id !in ids {
      if id in OpenIds(l.drafts.open) && id !in ids {
        var d :| d in l.drafts.open && d.id == id;
        assert d in c.drafts.open;
      }
    }
  }

  lemma IdsAreMembers(open: seq<Draft>)
    ensures forall id :: id in OpenIds(open) <==> exists d :: d in open && d.id == id
  {
    forall id | id in OpenIds(open) ensures exists d :: d in open && d.id == id {
      var i :| 0 <= i < |open| && open[i].id == id;
      assert open[i] in open;
    }
  }

  lemma ResolvedFate(l: Book, c: Book, ds: seq<Draft>, ids: seq<Id>, id: Id)
    requires OpenAll(l.drafts.open, ids) && id in ids
    requires forall d :: d in ds <==> d in l.drafts.open && d.id in ids
    requires |c.fates| == |l.fates| + |ds| && forall i :: 0 <= i < |ds| ==> c.fates[|l.fates| + i] == Tombstone(ds[i].id, Resolved)
    ensures Tombstone(id, Resolved) in c.fates
  {
    var k :| 0 <= k < |ids| && ids[k] == id;
    assert Has(l.drafts.open, ids[k]);
    var i :| 0 <= i < |l.drafts.open| && l.drafts.open[i].id == id;
    var d := l.drafts.open[i];
    assert d in ds;
    var j :| 0 <= j < |ds| && ds[j] == d;
    assert c.fates[|l.fates| + j] == Tombstone(id, Resolved);
  }

  /** A recorded rejection leaves the notes alone. It closes nothing, unless it opens a new draft
      while the limit is reached: then the oldest open draft, and only that one, is evicted. */
  lemma RecordMeaning(b: Book, r: Rejection)
    requires Settled(b) && r.freshId !in Load(b).born
    ensures Settled(Record(b, r))
    ensures var l, s := Load(b), Record(b, r);
            && s.notes == b.notes
            && (s.born == l.born || s.born == l.born + {r.freshId})
            && (s.born == l.born ==> s.fates == l.fates && OpenIds(s.drafts.open) == OpenIds(l.drafts.open))
            && (s.born != l.born ==>
                  if |l.drafts.open| < MAX_OPEN_DRAFTS then s.fates == l.fates
                  else s.fates == l.fates + [Tombstone(l.drafts.open[0].id, Evicted)])
            && Extends(l.fates, s.fates)
  {
    LoadSettles(b);
    hide *;
    var l, s := Load(b), Record(b, r);
    var c := l.(drafts := l.drafts.(rejections := l.drafts.rejections + 1));
    assert Conserved(c) && |c.drafts.open| <= MAX_OPEN_DRAFTS by { CountingKeeps(l); }
    RecordIs(b, r);
    if s == c {
      SettledIs(s);
    } else if s == OpenDraft(c, r) {
      OpeningKeeps(c, r);
      SettledIs(s);
    } else {
      RefreshingKeeps(c, r);
      SettledIs(s);
    }
    NothingLost(l.fates, s.fates);
  }

  lemma NothingLost(a: seq<Tombstone>, b: seq<Tombstone>)
    ensures a == b || (b != [] && a == b[..|b| - 1]) ==> Extends(a, b)
  {
  }

  lemma CountingKeeps(l: Book)
    requires Settled(l)
    ensures Conserved(l.(drafts := l.drafts.(rejections := l.drafts.rejections + 1))) && |l.drafts.open| <= MAX_OPEN_DRAFTS
  {
  }

  lemma SettledIs(b: Book)
    requires Conserved(b) && |b.drafts.open| <= MAX_OPEN_DRAFTS && b.legacy.None?
    ensures Settled(b)
  {
  }

  lemma RecordIs(b: Book, r: Rejection)
    ensures var l, s := Load(b), Record(b, r);
            var c := l.(drafts := l.drafts.(rejections := l.drafts.rejections + 1));
            s == c || s == OpenDraft(c, r) || s == c.(drafts := c.drafts.(open := RefreshAll(c.drafts.open, Targets(c.drafts.open, r), r)))
  {
    hide Load, OpenDraft, RefreshAll, Targets;
  }

  lemma RefreshingKeeps(c: Book, r: Rejection)
    requires Conserved(c)
    ensures var open := RefreshAll(c.drafts.open, Targets(c.drafts.open, r), r);
            Conserved(c.(drafts := c.drafts.(open := open))) && OpenIds(open) == OpenIds(c.drafts.open) && |open| == |c.drafts.open|
  {
    hide Targets, MergeRefs;
    SameIdsConserve(c, RefreshAll(c.drafts.open, Targets(c.drafts.open, r), r));
    hide Conserved, OpenIds;
  }

  lemma OpeningKeeps(c: Book, r: Rejection)
    requires Conserved(c) && r.freshId !in c.born && |c.drafts.open| <= MAX_OPEN_DRAFTS
    ensures var d := OpenDraft(c, r);
            && Conserved(d) && |d.drafts.open| <= MAX_OPEN_DRAFTS && d.notes == c.notes && d.born == c.born + {r.freshId} && d.legacy == c.legacy
            && d.fates == (if |c.drafts.open| < MAX_OPEN_DRAFTS then c.fates else c.fates + [Tombstone(c.drafts.open[0].id, Evicted)])
  {
    RoomForOne(c);
    EvictConserves(c, MAX_OPEN_DRAFTS - 1);
    var e := EvictTo(c, MAX_OPEN_DRAFTS - 1);
    hide EvictTo, MergeRefs;
    OpenConserves(e, Refresh(FreshDraft(c, r.freshId), r));
    hide Conserved;
  }

  lemma OpenConserves(e: Book, d: Draft)
    requires Conserved(e) && d.id !in e.born
    ensures Conserved(e.(drafts := e.drafts.(open := e.drafts.open + [d]), born := e.born + {d.id}))
  {
    IdsSnoc(e.drafts.open, d);
    hide FateIds, UniqueFates, CountOf, Tail;
  }

  /** Superseding closes exactly the named draft and touches no notes. */
  lemma SupersedeMeaning(b: Book, id: Id, valid: bool)
    requires Settled(b)
    ensures var l, s := Load(b), Supersede(b, id, valid);
            && Settled(s) && s.notes == b.notes
            && (if valid && id in OpenIds(l.drafts.open)
                then s.born == l.born && OpenIds(s.drafts.open) == OpenIds(l.drafts.open) - {id} && s.fates == l.fates + [Tombstone(id, Superseded)]
                else s == b)
  {
    LoadSettles(b);
    hide Load;
    HasMeans(Load(b).drafts.open, id);
    if valid && Has(Load(b).drafts.open, id) {
      CloseConserves(Load(b), id, Superseded);
    }
    hide OpenIds, FateIds, UniqueOpen, UniqueFates, CountOf, Tail;
  }

  /** Work that was refused but may be kept is found again in some open draft. */
  lemma RefusedWorkIsKept(b: Book, r: Rejection)
    requires r.supplied && r.retained && r.digest.Some? && (r.asNotes.None? || b.notes.version == 0 || r.asNotes.value != b.notes.content)
    requires Settled(b)
    ensures exists d :: d in Record(b, r).drafts.open && d.payload == r.digest && d.attempts > 0
  {
    LoadSettles(b);
    var l := Load(b);
    hide Load, MergeRefs;
    var c := l.(drafts := l.drafts.(rejections := l.drafts.rejections + 1));
    var targets := Targets(c.drafts.open, r);
    if targets != {} {
      TargetsAreOpen(c.drafts.open, r);
      var id :| id in targets;
      var i :| 0 <= i < |c.drafts.open| && c.drafts.open[i].id == id;
      assert Record(b, r).drafts.open[i] in Record(b, r).drafts.open;
    } else {
      var open := Record(b, r).drafts.open;
      assert open[|open| - 1] in open;
    }
  }

  lemma TargetsAreOpen(open: seq<Draft>, r: Rejection)
    ensures Targets(open, r) <= OpenIds(open)
  {
    FirstIsOpen(open, r.digest);
  }

  lemma {:induction false} FirstIsOpen(open: seq<Draft>, digest: Option<string>)
    ensures FirstWith(open, digest).Some? ==> FirstWith(open, digest).value in OpenIds(open)
  {
    if open != [] {
      FirstIsOpen(open[1..], digest);
      forall i | 0 <= i < |open[1..]| ensures open[1..][i].id in OpenIds(open) {
        assert open[i + 1] == open[1..][i];
      }
    }
  }

  // ---------------------------------------------------------------- whose drafts change

  /** Loading puts the record of the previous release first, unless five drafts are open: then it is
      the oldest and evicted at once. */
  lemma LoadMeaning(b: Book)
    requires Settled(b)
    ensures var l := Load(b);
            match b.legacy
            case None => l == b
            case Some(d) =>
              && l.drafts.rejections == (if d.attempts > b.drafts.rejections then d.attempts else b.drafts.rejections)
              && if |b.drafts.open| < MAX_OPEN_DRAFTS then l.drafts.open == [d] + b.drafts.open && l.fates == b.fates
                 else l.drafts.open == b.drafts.open && l.fates == b.fates + [Tombstone(d.id, Evicted)]
  {
    if b.legacy.Some? {
      LegacyFirst(b);
      hide Conserved, Has, Closed, EvictTo;
      var d := b.legacy.value;
      var c := b.(drafts := b.drafts.(open := [d] + b.drafts.open), born := b.born + {d.id});
      var e := if d.attempts > c.drafts.rejections then c.(drafts := c.drafts.(rejections := d.attempts)) else c;
      Evictions(e.(legacy := None), MAX_OPEN_DRAFTS);
      assert ([d] + b.drafts.open)[1..] == b.drafts.open;
    }
  }

  /** At most one eviction, of the oldest. */
  lemma Evictions(c: Book, n: nat)
    requires |c.drafts.open| <= n + 1 && (c.drafts.open != [] ==> !Has(c.drafts.open[1..], c.drafts.open[0].id))
    ensures var e, open := EvictTo(c, n), c.drafts.open;
            && e.drafts.rejections == c.drafts.rejections
            && if |open| <= n then e == c else e.drafts.open == open[1..] && e.fates == c.fates + [Tombstone(open[0].id, Evicted)]
  {
    var open := c.drafts.open;
    if |open| > n {
      assert [open[0]] + open[1..] == open;
      WithoutFirst(open[0], open[1..]);
      hide Without, Has;
      assert Evict(c).drafts.open == open[1..];
      assert EvictTo(c, n) == EvictTo(Evict(c), n);
    }
  }

  /** The record of the previous release is taken over once: when its draft is open or remembered as
      closed, loading adds nothing. */
  lemma LegacyOnce(b: Book)
    requires b.legacy.Some? && |b.drafts.open| <= MAX_OPEN_DRAFTS
    requires var id := b.legacy.value.id; (exists d :: d in b.drafts.open && d.id == id) || exists t :: t in b.drafts.closed && t.id == id
    ensures Load(b).drafts.open == b.drafts.open && Load(b).born == b.born && Load(b).fates == b.fates && Load(b).legacy == None
  {
    var id := b.legacy.value.id;
    if d :| d in b.drafts.open && d.id == id {
      var i :| 0 <= i < |b.drafts.open| && b.drafts.open[i] == d;
      assert Has(b.drafts.open, id);
    } else {
      var t :| t in b.drafts.closed && t.id == id;
      var i :| 0 <= i < |b.drafts.closed| && b.drafts.closed[i] == t;
      assert Closed(b, id);
    }
  }

  lemma WithoutFirst(d: Draft, open: seq<Draft>)
    requires !Has(open, d.id)
    ensures Without([d] + open, d.id) == open
  {
    WithoutNone(open, d.id);
    WithoutHead(d, open);
  }

  lemma {:induction false} WithoutNone(open: seq<Draft>, id: Id)
    requires !Has(open, id)
    ensures Without(open, id) == open
  {
    if open != [] {
      var front := open[..|open| - 1];
      assert forall i :: 0 <= i < |front| ==> open[i] == front[i];
      WithoutNone(front, id);
    }
  }

  lemma {:induction false} WithoutHead(d: Draft, open: seq<Draft>)
    ensures Without([d] + open, d.id) == Without(open, d.id)
  {
    if open != [] {
      var front := open[..|open| - 1];
      WithoutHead(d, front);
      assert ([d] + open)[..|open|] == [d] + front;
    } else {
      assert ([d] + open)[..0] == [];
    }
  }

  /** The drafts that are not named, oldest first. */
  function Unnamed(open: seq<Draft>, ids: set<Id>): seq<Draft> {
    if open == [] then [] else
    Unnamed(open[..|open| - 1], ids) + if open[|open| - 1].id in ids then [] else [open[|open| - 1]]
  }

  lemma {:induction false} WithoutUnnamed(open: seq<Draft>, ids: set<Id>, id: Id)
    ensures Without(Unnamed(open, ids), id) == Unnamed(open, ids + {id})
  {
    if open != [] {
      var front, last := open[..|open| - 1], open[|open| - 1];
      WithoutUnnamed(front, ids, id);
      assert (Unnamed(front, ids) + [last])[..|Unnamed(front, ids)|] == Unnamed(front, ids);
      assert Unnamed(front, ids) + [] == Unnamed(front, ids) && Unnamed(front, ids + {id}) + [] == Unnamed(front, ids + {id});
    }
  }

  lemma {:induction false} UnnamedNone(open: seq<Draft>)
    ensures Unnamed(open, {}) == open
  {
    if open != [] {
      UnnamedNone(open[..|open| - 1]);
    }
  }

  lemma {:induction false} UnnamedSame(open: seq<Draft>, ids: set<Id>, jds: set<Id>)
    requires forall i :: 0 <= i < |open| ==> (open[i].id in ids <==> open[i].id in jds)
    ensures Unnamed(open, ids) == Unnamed(open, jds)
  {
    if open != [] {
      UnnamedSame(open[..|open| - 1], ids, jds);
    }
  }

  lemma {:induction false} CloseAllLeaves(b: Book, ds: seq<Draft>)
    ensures CloseAll(b, ds).drafts.open == Unnamed(b.drafts.open, OpenIds(ds))
  {
    hide OpenIds, Without, Tail;
    if ds == [] {
      assert OpenIds(ds) == {} by { NoIds(); }
      UnnamedNone(b.drafts.open);
    } else {
      var front, last := ds[..|ds| - 1], ds[|ds| - 1];
      assert ds == front + [last];
      CloseAllLeaves(b, front);
      IdsSnoc(front, last);
      WithoutUnnamed(b.drafts.open, OpenIds(front), last.id);
    }
  }

  lemma NoIds()
    ensures OpenIds([]) == {}
  {
  }

  /** An accepted write leaves exactly the drafts it does not name, in their order and as they were,
      each passed over once more. */
  lemma WriteLeavesTheRest(b: Book, w: WriteRequest)
    requires Settled(b) && Accepts(b, w)
    ensures var rest, open := Unnamed(Load(b).drafts.open, set id | id in w.resolves), Write(b, w).drafts.open;
            && |open| == |rest| && (forall i :: 0 <= i < |rest| ==> open[i] == rest[i].(skipped := rest[i].skipped + 1))
            && Write(b, w).drafts.rejections == 0
  {
    var l := Load(b);
    hide Load;
    var named := Named(l.drafts.open, w.resolves);
    NamedShape(l.drafts.open, w.resolves);
    CloseAllLeaves(l, named);
    hide CloseAll, Unnamed, Named;
    forall i | 0 <= i < |l.drafts.open| ensures l.drafts.open[i].id in OpenIds(named) <==> l.drafts.open[i].id in w.resolves {
      IdsAreMembers(named);
      assert l.drafts.open[i] in l.drafts.open;
    }
    UnnamedSame(l.drafts.open, OpenIds(named), set id | id in w.resolves);
  }

  /** One more refusal of a draft's work. */
  ghost predicate Refused(d: Draft, e: Draft, r: Rejection) {
    && e.id == d.id && e.attempts == d.attempts + 1 && e.skipped == d.skipped
    && e.base == (if r.base.Some? then r.base else d.base)
    && e.payload == (if r.retained then r.digest else d.payload)
    && (e.evidence, e.omitted) == MergeRefs(d.evidence, r.refs, d.omitted + r.refsOmitted)
  }

  ghost predicate NamesAny(open: seq<Draft>, r: Rejection) { exists i :: 0 <= i < |open| && open[i].id in r.resolves }

  /** Draft `i` is the first that holds the refused payload. */
  predicate FirstHolds(open: seq<Draft>, r: Rejection, i: nat)
    requires i < |open|
  {
    r.digest.Some? && open[i].payload == r.digest && forall j :: 0 <= j < i ==> open[j].payload != r.digest
  }

  ghost predicate HoldsAny(open: seq<Draft>, r: Rejection) { exists i :: 0 <= i < |open| && FirstHolds(open, r, i) }

  /** The drafts a rejection belongs to change, and no others. */
  ghost predicate OnlyItsOwn(open: seq<Draft>, after: seq<Draft>, r: Rejection) {
    && |after| == |open|
    && forall i :: 0 <= i < |open| ==>
         if (if NamesAny(open, r) then open[i].id in r.resolves else FirstHolds(open, r, i)) then Refused(open[i], after[i], r)
         else after[i] == open[i]
  }

  /** The draft a rejection opens, after the oldest has made room when five are open. */
  ghost predicate OpensOne(b: Book, open: seq<Draft>, after: seq<Draft>, r: Rejection) {
    && after != [] && after[..|after| - 1] == (if |open| < MAX_OPEN_DRAFTS then open else open[1..])
    && Refused(Draft(r.freshId, 0, Some(b.notes.version), None, [], 0, 0), after[|after| - 1], r)
  }

  /** What a rejection does to the drafts. It belongs to the open drafts it names, or when it names none
      to the first that holds its payload; those count one more attempt and take over what is new, and
      every other draft stays exactly as it was. Where there is none it opens a draft of its own, unless
      nothing was supplied or the payload is what the notes hold. */
  lemma RecordTouches(b: Book, r: Rejection)
    requires Settled(b)
    ensures var open, after := Load(b).drafts.open, Record(b, r).drafts.open;
            && Record(b, r).drafts.rejections == Load(b).drafts.rejections + 1
            && if !r.supplied then after == open
               else if NamesAny(open, r) || HoldsAny(open, r) then OnlyItsOwn(open, after, r)
               else if r.asNotes.Some? && b.notes.version > 0 && r.asNotes.value == b.notes.content then after == open
               else OpensOne(b, open, after, r)
  {
    LoadSettles(b);
    RecordCases(b, r);
    var open, targets := Load(b).drafts.open, Targets(Load(b).drafts.open, r);
    assert UniqueOpen(open);
    TargetsMeaning(open, r);
    hide Record, Load, Targets, MergeRefs, NamesAny, HoldsAny, FirstHolds, Settled, UniqueOpen;
    if targets != {} {
      RefreshIsRefused(open, targets, r);
    }
    hide Refused, RefreshAll;
  }

  /** The three ways a record goes. */
  lemma RecordCases(b: Book, r: Rejection)
    requires Settled(b) && Settled(Load(b)) && Load(b).notes == b.notes
    ensures var open, s := Load(b).drafts.open, Record(b, r);
            var targets := Targets(open, r);
            && s.drafts.rejections == Load(b).drafts.rejections + 1
            && if !r.supplied || (targets == {} && r.asNotes.Some? && b.notes.version > 0 && r.asNotes.value == b.notes.content) then s.drafts.open == open
               else if targets != {} then s.drafts.open == RefreshAll(open, targets, r)
               else OpensOne(b, open, s.drafts.open, r)
  {
    var l := Load(b);
    hide Load;
    var c := l.(drafts := l.drafts.(rejections := l.drafts.rejections + 1));
    SameIdsConserve(c, c.drafts.open);
    OpensItsOwn(c, r);
    hide Targets, Conserved, OpenDraft, Refused, RefreshAll;
  }

  lemma OpensItsOwn(c: Book, r: Rejection)
    requires Conserved(c) && |c.drafts.open| <= MAX_OPEN_DRAFTS
    ensures OpensOne(c, c.drafts.open, OpenDraft(c, r).drafts.open, r) && OpenDraft(c, r).drafts.rejections == c.drafts.rejections
  {
    RoomForOne(c);
    NewIsRefused(c, r);
    hide Conserved, EvictTo, Refresh, Refused;
  }

  lemma RefreshIsRefused(open: seq<Draft>, targets: set<Id>, r: Rejection)
    ensures var after := RefreshAll(open, targets, r);
            |after| == |open| && forall i :: 0 <= i < |open| ==> if open[i].id in targets then Refused(open[i], after[i], r) else after[i] == open[i]
  {
    hide MergeRefs;
  }

  lemma NewIsRefused(c: Book, r: Rejection)
    ensures Refused(Draft(r.freshId, 0, Some(c.notes.version), None, [], 0, 0), Refresh(FreshDraft(c, r.freshId), r), r)
  {
    hide MergeRefs;
  }

  lemma TargetsMeaning(open: seq<Draft>, r: Rejection)
    requires UniqueOpen(open)
    ensures Targets(open, r) != {} <==> NamesAny(open, r) || HoldsAny(open, r)
    ensures forall i :: 0 <= i < |open| ==>
              (open[i].id in Targets(open, r) <==> if NamesAny(open, r) then open[i].id in r.resolves else FirstHolds(open, r, i))
  {
    FirstMeaning(open, r);
    hide FirstHolds, FirstWith;
    if k :| 0 <= k < |open| && open[k].id in r.resolves {
      assert open[k].id in Targets(open, r);
    } else {
      assert (set i | 0 <= i < |open| && open[i].id in r.resolves :: open[i].id) == {};
    }
  }

  lemma {:induction false} FirstMeaning(open: seq<Draft>, r: Rejection)
    requires UniqueOpen(open)
    ensures r.digest.Some? ==>
              match FirstWith(open, r.digest)
              case None => forall i :: 0 <= i < |open| ==> !FirstHolds(open, r, i)
              case Some(id) => (exists i :: 0 <= i < |open| && FirstHolds(open, r, i))
                               && forall i :: 0 <= i < |open| ==> (open[i].id == id <==> FirstHolds(open, r, i))
  {
    if open != [] && r.digest.Some? && open[0].payload != r.digest {
      var rest := open[1..];
      FirstMeaning(rest, r);
      forall i | 0 <= i < |rest| ensures FirstHolds(rest, r, i) <==> FirstHolds(open, r, i + 1) {
        assert open[i + 1] == rest[i];
        assert forall j :: 0 <= j < i ==> open[j + 1] == rest[j];
        assert forall j :: 0 < j < i + 1 ==> open[j] == rest[j - 1];
      }
      assert !FirstHolds(open, r, 0);
      assert forall i :: 0 < i < |open| ==> open[i] == rest[i - 1] && (FirstHolds(rest, r, i - 1) <==> FirstHolds(open, r, i));
      FirstIsOpen(rest, r.digest);
    } else if open != [] && r.digest.Some? {
      assert FirstHolds(open, r, 0);
    }
  }

  lemma RoomForOne(c: Book)
    requires Conserved(c) && |c.drafts.open| <= MAX_OPEN_DRAFTS
    ensures var e := EvictTo(c, MAX_OPEN_DRAFTS - 1);
            && e.drafts.rejections == c.drafts.rejections && e.notes == c.notes
            && e.fates == (if |c.drafts.open| < MAX_OPEN_DRAFTS then c.fates else c.fates + [Tombstone(c.drafts.open[0].id, Evicted)])
            && e.drafts.open == if |c.drafts.open| < MAX_OPEN_DRAFTS then c.drafts.open else c.drafts.open[1..]
  {
    EvictConserves(c, MAX_OPEN_DRAFTS - 1);
    assert c.drafts.open != [] ==> !Has(c.drafts.open[1..], c.drafts.open[0].id);
    Evictions(c, MAX_OPEN_DRAFTS - 1);
    hide EvictTo, Conserved;
  }

  // ---------------------------------------------------------------- runs

  datatype Event = WriteNotes(w: WriteRequest) | RecordRejection(r: Rejection) | SupersedeDraft(id: Id, valid: bool)

  function Next(b: Book, e: Event): Book {
    match e
    case WriteNotes(w) => Write(b, w)
    case RecordRejection(r) => Record(b, r)
    case SupersedeDraft(id, valid) => Supersede(b, id, valid)
  }

  function Run(b: Book, es: seq<Event>): Book {
    if es == [] then b else Next(Run(b, es[..|es| - 1]), es[|es| - 1])
  }

  /** New draft ids are new. */
  ghost predicate FreshIds(b: Book, es: seq<Event>) {
    forall i :: 0 <= i < |es| && es[i].RecordRejection? ==> es[i].r.freshId !in Load(Run(b, es[..i])).born
  }

  lemma FreshFront(b: Book, es: seq<Event>)
    requires es != [] && FreshIds(b, es)
    ensures FreshIds(b, es[..|es| - 1])
    ensures es[|es| - 1].RecordRejection? ==> es[|es| - 1].r.freshId !in Load(Run(b, es[..|es| - 1])).born
  {
    var front := es[..|es| - 1];
    assert forall i :: 0 <= i < |front| ==> front[..i] == es[..i] && front[i] == es[i];
  }

  lemma NextSettles(b: Book, e: Event)
    requires Settled(b) && (e.RecordRejection? ==> e.r.freshId !in Load(b).born)
    ensures Settled(Next(b, e)) && b.born <= Next(b, e).born
    ensures b.notes.version <= Next(b, e).notes.version <= b.notes.version + 1
    ensures Next(b, e).notes.version == b.notes.version <==> Next(b, e).notes == b.notes
    ensures Next(b, e).notes != b.notes ==> e.WriteNotes? && Accepts(b, e.w)
  {
    hide Settled, Load, Write, Record, Supersede;
    LoadSettles(b);
    match e
    case WriteNotes(w) => WriteMeaning(b, w);
    case RecordRejection(r) => RecordMeaning(b, r);
    case SupersedeDraft(id, valid) => SupersedeMeaning(b, id, valid);
  }

  /** Over every run, every draft ever opened is open or has met exactly one fate, evictions are
      counted, and at most five are open and twenty remembered as closed. */
  lemma {:induction false} DraftsConserved(b: Book, es: seq<Event>)
    requires Settled(b) && FreshIds(b, es)
    ensures Settled(Run(b, es)) && b.born <= Run(b, es).born && b.notes.version <= Run(b, es).notes.version
    ensures |Run(b, es).drafts.open| <= 5 && |Run(b, es).drafts.closed| <= 20
  {
    if es != [] {
      FreshFront(b, es);
      DraftsConserved(b, es[..|es| - 1]);
      hide Settled, Next;
      NextSettles(Run(b, es[..|es| - 1]), es[|es| - 1]);
    }
  }

  /** Conservation as numbers: the drafts ever opened are those open, resolved, superseded and
      evicted, and the last group is what `evicted` counts. */
  lemma DraftsAddUp(b: Book)
    requires Settled(b)
    ensures |b.born| == |b.drafts.open| + CountOf(b.fates, Resolved) + CountOf(b.fates, Superseded) + b.drafts.evicted
  {
    OpenSize(b.drafts.open);
    FateSize(b.fates);
    hide OpenIds, FateIds, UniqueOpen, UniqueFates, CountOf, Tail;
  }

  lemma {:induction false} OpenSize(open: seq<Draft>)
    requires UniqueOpen(open)
    ensures |OpenIds(open)| == |open|
  {
    if open != [] {
      var front, last := open[..|open| - 1], open[|open| - 1];
      assert open == front + [last];
      OpenSize(front);
      IdsSnoc(front, last);
      assert last.id !in OpenIds(front);
    }
  }

  lemma {:induction false} FateSize(fates: seq<Tombstone>)
    requires UniqueFates(fates)
    ensures |FateIds(fates)| == |fates| == CountOf(fates, Resolved) + CountOf(fates, Superseded) + CountOf(fates, Evicted)
  {
    if fates != [] {
      var front, last := fates[..|fates| - 1], fates[|fates| - 1];
      assert fates == front + [last];
      FateSize(front);
      assert last.id !in FateIds(front);
      FatesSnoc(front, last);
    }
  }

  /** No lost update: once a write based on a version has changed the notes, no write naming that
      version is ever accepted again. */
  lemma LostUpdateImpossible(b: Book, first: WriteRequest, es: seq<Event>, second: WriteRequest)
    requires Settled(b) && Accepts(b, first) && Write(b, first).notes != b.notes && FreshIds(Write(b, first), es)
    requires second.base == Some(b.notes.version)
    ensures !Accepts(Run(Write(b, first), es), second)
  {
    WriteMeaning(b, first);
    DraftsConserved(Write(b, first), es);
    WriteMeaning(Run(Write(b, first), es), second);
  }

  // ---------------------------------------------------------------- evidence references

  /** How many of the references are not among those kept. */
  function Absent(refs: seq<string>, kept: seq<string>): nat {
    if refs == [] then 0 else Absent(refs[..|refs| - 1], kept) + if refs[|refs| - 1] in kept then 0 else 1
  }

  lemma {:induction false} NoneAbsent(refs: seq<string>, kept: seq<string>)
    requires forall k :: 0 <= k < |refs| ==> refs[k] in kept
    ensures Absent(refs, kept) == 0
  {
    if refs != [] {
      NoneAbsent(refs[..|refs| - 1], kept);
    }
  }

  /** Merging keeps what was there, adds nothing twice, stays within the limit, and counts exactly
      the references that it could not keep. */
  lemma {:induction false} MergedRefs(existing: seq<string>, extra: seq<string>, omitted: nat)
    requires Distinct(existing)
    ensures var (merged, left) := MergeRefs(existing, extra, omitted);
            && existing <= merged && Distinct(merged) && left == omitted + Absent(extra, merged)
            && |merged| <= (if |existing| > 40 then |existing| else 40)
            && (forall k :: 0 <= k < |merged| ==> merged[k] in existing || merged[k] in extra)
            && (left == omitted ==> forall k :: 0 <= k < |extra| ==> extra[k] in merged)
            && (left > omitted ==> |merged| >= 40)
  {
    if extra != [] {
      var front := extra[..|extra| - 1];
      MergedRefs(existing, front, omitted);
      assert extra == front + [extra[|extra| - 1]];
      if MergeRefs(existing, front, omitted).1 == omitted {
        NoneAbsent(front, MergeRefs(existing, extra, omitted).0);
      }
    }
  }

  // ---------------------------------------------------------------- the object

  class BitsMemory {
    var book: Book

    constructor (book: Book)
      ensures this.book == book
    {
      this.book := book;
    }

    /** The transaction of an accepted write, draft by draft; a refused one leaves all as it was. */
    method WriteNotes(w: WriteRequest) returns (saved: bool)
      requires Settled(book)
      modifies this
      ensures book == Write(old(book), w)
      ensures saved <==> Accepts(old(book), w)
    {
      hide Load, Settled, Close, Tail;
      var b := Load(book);
      if !w.valid || !OpenAll(b.drafts.open, w.resolves) || !FreshBase(b, w) {
        return false;
      }
      var notes := NewNotes(book.notes, w.content);
      var named := Named(b.drafts.open, w.resolves);
      ghost var loaded := b;
      var n := 0;
      while n < |named|
        invariant n <= |named| && b == CloseAll(loaded, named[..n])
      {
        b := Close(b, named[n].id, Resolved);
        assert named[..n + 1][..n] == named[..n];
        n := n + 1;
      }
      assert named[..n] == named;
      var open := b.drafts.open;
      var k := 0;
      while k < |open|
        invariant k <= |open| == |b.drafts.open|
        invariant forall i :: 0 <= i < |open| ==> open[i] == if i < k then b.drafts.open[i].(skipped := b.drafts.open[i].skipped + 1) else b.drafts.open[i]
      {
        open := open[k := open[k].(skipped := open[k].skipped + 1)];
        k := k + 1;
      }
      assert open == Skip(b.drafts.open);
      book := b.(notes := notes, drafts := b.drafts.(open := open, rejections := 0));
      saved := true;
    }

    method RecordRejection(r: Rejection)
      modifies this
      ensures book == Record(old(book), r)
    {
      hide Load, Close, Targets, MergeRefs;
      var b := Load(book);
      b := b.(drafts := b.drafts.(rejections := b.drafts.rejections + 1));
      var targets := Targets(b.drafts.open, r);
      if r.supplied && !(targets == {} && r.asNotes.Some? && b.notes.version > 0 && r.asNotes.value == b.notes.content) {
        if targets == {} {
          var fresh_ := Refresh(FreshDraft(b, r.freshId), r);
          b := MakeRoom(b);
          b := b.(drafts := b.drafts.(open := b.drafts.open + [fresh_]), born := b.born + {r.freshId});
        } else {
          var open := b.drafts.open;
          var k := 0;
          while k < |open|
            invariant k <= |open| == |b.drafts.open|
            invariant forall i :: 0 <= i < |open| ==> open[i] == if i < k && b.drafts.open[i].id in targets then Refresh(b.drafts.open[i], r) else b.drafts.open[i]
          {
            if open[k].id in targets {
              open := open[k := Refresh(open[k], r)];
            }
            k := k + 1;
          }
          assert open == RefreshAll(b.drafts.open, targets, r);
          b := b.(drafts := b.drafts.(open := open));
        }
      }
      book := b;
    }

    /** Evicts the oldest open drafts until one more fits. */
    method MakeRoom(start: Book) returns (b: Book)
      ensures b == EvictTo(start, MAX_OPEN_DRAFTS - 1)
    {
      b := start;
      while |b.drafts.open| >= MAX_OPEN_DRAFTS
        invariant EvictTo(b, MAX_OPEN_DRAFTS - 1) == EvictTo(start, MAX_OPEN_DRAFTS - 1)
        decreases |b.drafts.open|
      {
        assert Has(b.drafts.open, b.drafts.open[0].id);
        b := Evict(b);
      }
    }

    method SupersedeDraft(id: Id, valid: bool) returns (closed: bool)
      modifies this
      ensures book == Supersede(old(book), id, valid)
      ensures closed <==> valid && Has(Load(old(book)).drafts.open, id)
    {
      hide Load, Close;
      closed := valid && Has(Load(book).drafts.open, id);
      if closed {
        book := Close(Load(book), id, Superseded);
      }
    }
  }

  // ---------------------------------------------------------------- the recent log

  /** One remembered exchange; `size` and `brief` are its serialized lengths in full and shortened. */
  datatype Entry = Entry(source: string, size: nat, brief: nat)

  datatype Log = Log(digest: seq<Entry>, recent: seq<Entry>)

  const RECENT_LIMIT := 6
  const RECENT_BUDGET := 9500
  const DIGEST_BUDGET := 3500

  /** Length of a serialized list: brackets, items and the commas between them. */
  function Length(s: seq<Entry>, shortened: bool): nat {
    if s == [] then 2
    else Length(s[..|s| - 1], shortened) + (if |s| > 1 then 1 else 0) + if shortened then s[|s| - 1].brief else s[|s| - 1].size
  }

  predicate RecentFits(s: seq<Entry>) { |s| <= RECENT_LIMIT && Length(s, false) <= RECENT_BUDGET }

  predicate DigestFits(s: seq<Entry>) { Length(s, true) <= DIGEST_BUDGET }

  /** In closed form: the items, a bracket at either end and a comma after each item but the last. */
  lemma {:induction false} LengthMeaning(s: seq<Entry>, shortened: bool)
    ensures Length(s, shortened) == Items(s, shortened) + if s == [] then 2 else |s| + 1
  {
    if s != [] {
      LengthMeaning(s[..|s| - 1], shortened);
      ItemsSnoc(s, shortened);
    }
  }

  function Items(s: seq<Entry>, shortened: bool): nat {
    if s == [] then 0 else Items(s[1..], shortened) + if shortened then s[0].brief else s[0].size
  }

  lemma {:induction false} ItemsSnoc(s: seq<Entry>, shortened: bool)
    requires s != []
    ensures Items(s, shortened) == Items(s[..|s| - 1], shortened) + if shortened then s[|s| - 1].brief else s[|s| - 1].size
  {
    if |s| > 1 {
      ItemsSnoc(s[1..], shortened);
      assert s[1..][..|s| - 2] == s[..|s| - 1][1..];
    }
  }

  /** `s[n..]` is the longest newest run of at most `most` entries within the budget. */
  ghost predicate LongestFitting(s: seq<Entry>, n: nat, most: nat, shortened: bool, budget: nat)
    requires n <= |s|
  {
    && |s[n..]| <= most && Length(s[n..], shortened) <= budget
    && (forall m :: 0 <= m < n ==> |s[m..]| > most || Length(s[m..], shortened) > budget)
  }

  /** Remembering appends an exchange once. What stays in full is the longest newest run within six
      entries and the budget, what leaves it is shortened in order, and of those again the longest
      newest run stays: nothing is lost from the middle. */
  method Remember(l: Log, entry: Entry) returns (r: Log, ghost n: nat, ghost m: nat)
    ensures (exists e :: e in l.digest + l.recent && e.source == entry.source) ==> r == l
    ensures !(exists e :: e in l.digest + l.recent && e.source == entry.source) ==>
              var recent, digest := l.recent + [entry], l.digest + (l.recent + [entry])[..if n <= |l.recent| + 1 then n else 0];
              && n <= |recent| && LongestFitting(recent, n, 6, false, 9500) && r.recent == recent[n..]
              && m <= |digest| && LongestFitting(digest, m, |digest|, true, 3500) && r.digest == digest[m..]
  {
    hide RecentFits, DigestFits, LongestFitting;
    n, m := 0, 0;
    var known := l.digest + l.recent;
    KnownMeans(known, entry.source);
    if exists i :: 0 <= i < |known| && known[i].source == entry.source {
      return l, 0, 0;
    }
    var all := l.recent + [entry];
    var recent, digest := all, l.digest;
    while !RecentFits(recent)
      invariant n <= |all| && recent == all[n..] && digest == l.digest + all[..n]
      invariant forall k :: 0 <= k < n ==> !RecentFits(all[k..])
      decreases |recent|
    {
      NothingFits(recent);
      digest, recent := digest + [recent[0]], recent[1..];
      n := n + 1;
    }
    LongestRecent(all, n);
    ghost var shortened := digest;
    while !DigestFits(digest)
      invariant m <= |shortened| && digest == shortened[m..]
      invariant forall k :: 0 <= k < m ==> !DigestFits(shortened[k..])
      decreases |digest|
    {
      NothingFits(digest);
      digest := digest[1..];
      m := m + 1;
    }
    LongestDigest(shortened, m);
    r := Log(digest, recent);
  }

  lemma KnownMeans(s: seq<Entry>, source: string)
    ensures (exists i :: 0 <= i < |s| && s[i].source == source) <==> exists e :: e in s && e.source == source
  {
    if i :| 0 <= i < |s| && s[i].source == source {
      assert s[i] in s;
    }
  }

  lemma NothingFits(s: seq<Entry>)
    ensures !RecentFits(s) || !DigestFits(s) ==> s != []
  {
  }

  lemma LongestRecent(s: seq<Entry>, n: nat)
    requires n <= |s| && RecentFits(s[n..]) && forall k :: 0 <= k < n ==> !RecentFits(s[k..])
    ensures LongestFitting(s, n, 6, false, 9500)
  {
    hide Length;
  }

  lemma LongestDigest(s: seq<Entry>, m: nat)
    requires m <= |s| && DigestFits(s[m..]) && forall k :: 0 <= k < m ==> !DigestFits(s[k..])
    ensures LongestFitting(s, m, |s|, true, 3500)
  {
    hide Length;
  }
}
