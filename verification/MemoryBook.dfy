/** Versioned notes with pending drafts (xauusd/bits_memory.py): a rejected write is kept as an open
    draft until a later write names it, somebody supersedes it, or newer drafts push it out. */
module MemoryBook {
  import opened Prelude

  type Id = string

  const MAX_OPEN_DRAFTS := 5
  const MAX_CLOSED_DRAFTS := 20
  const MAX_EVIDENCE_REFS := 40

  datatype Resolution = Resolved | Superseded | Evicted

  datatype Tombstone = Tombstone(id: Id, resolution: Resolution)

  /** `base` is the notes version the draft was written against, unknown for a migrated draft. */
  datatype Draft = Draft(id: Id, attempts: nat, base: Option<int>, payload: Option<string>, evidence: seq<string>, omitted: nat, skipped: nat)

  /** Version zero means that there are no notes yet. A digest stands for the content itself. */
  datatype Notes = Notes(version: nat, content: string)

  datatype Drafts = Drafts(open: seq<Draft>, closed: seq<Tombstone>, rejections: nat, evicted: nat)

  /** The stored keys, with the whole history of drafts born and closed beside them. */
  datatype Book = Book(notes: Notes, drafts: Drafts, legacy: Option<Draft>, born: set<Id>, fates: seq<Tombstone>)

  datatype WriteRequest = WriteRequest(valid: bool, content: string, resolves: seq<Id>, base: Option<int>)

  /** What a refused write leaves to be recorded. `digest` is absent for missing or sensitive input;
      `asNotes` is the content the payload would have had as notes. */
  datatype Rejection = Rejection(
    resolves: seq<Id>, base: Option<int>, supplied: bool, digest: Option<string>, retained: bool,
    asNotes: Option<string>, refs: seq<string>, refsOmitted: nat, freshId: Id)

  // ---------------------------------------------------------------- drafts

  function Has(open: seq<Draft>, id: Id): bool { exists i :: 0 <= i < |open| && open[i].id == id }

  function Without(open: seq<Draft>, id: Id): (r: seq<Draft>)
    ensures |r| <= |open|
    ensures Has(open, id) ==> |r| < |open|
  {
    if open == [] then [] else
    var front, last := open[..|open| - 1], open[|open| - 1];
    var rest := Without(front, id);
    assert Has(open, id) ==> last.id == id || Has(front, id) by {
      if Has(open, id) && last.id != id {
        var i :| 0 <= i < |open| && open[i].id == id;
        assert front[i].id == id;
      }
    }
    if last.id == id then rest else rest + [last]
  }

  function Close(b: Book, id: Id, resolution: Resolution): Book {
    var t := Tombstone(id, resolution);
    b.(drafts := b.drafts.(open := Without(b.drafts.open, id), closed := Tail(b.drafts.closed + [t], MAX_CLOSED_DRAFTS)), fates := b.fates + [t])
  }

  function Evict(b: Book): Book
    requires |b.drafts.open| > 0
  {
    var c := Close(b, b.drafts.open[0].id, Evicted);
    c.(drafts := c.drafts.(evicted := c.drafts.evicted + 1))
  }

  /** Pushes out the oldest open drafts until at most `n` are left. */
  function EvictTo(b: Book, n: nat): Book
    decreases |b.drafts.open|
  {
    if |b.drafts.open| <= n then b else
    assert b.drafts.open[0].id == b.drafts.open[0].id && Has(b.drafts.open, b.drafts.open[0].id);
    EvictTo(Evict(b), n)
  }

  predicate Closed(b: Book, id: Id) { exists i :: 0 <= i < |b.drafts.closed| && b.drafts.closed[i].id == id }

  /** Stored drafts as every transaction sees them: the record of the previous release comes first,
      and an overflow is evicted. */
  function Load(b: Book): Book {
    var c := if b.legacy.Some? && !Has(b.drafts.open, b.legacy.value.id) && !Closed(b, b.legacy.value.id)
             then b.(drafts := b.drafts.(open := [b.legacy.value] + b.drafts.open), born := b.born + {b.legacy.value.id})
             else b;
    var d := if b.legacy.Some? && b.legacy.value.attempts > c.drafts.rejections
             then c.(drafts := c.drafts.(rejections := b.legacy.value.attempts)) else c;
    EvictTo(d.(legacy := None), MAX_OPEN_DRAFTS)
  }

  // ---------------------------------------------------------------- writing notes

  predicate OpenAll(open: seq<Draft>, ids: seq<Id>) { forall i :: 0 <= i < |ids| ==> Has(open, ids[i]) }

  /** The base is the version the caller names, or else the one every named draft was written on. */
  predicate FreshBase(b: Book, w: WriteRequest) {
    if w.base.Some? then w.base.value == b.notes.version
    else forall i :: 0 <= i < |b.drafts.open| && b.drafts.open[i].id in w.resolves ==> b.drafts.open[i].base == Some(b.notes.version)
  }

  function Named(open: seq<Draft>, ids: seq<Id>): seq<Draft> {
    if open == [] then [] else
    Named(open[..|open| - 1], ids) + if open[|open| - 1].id in ids then [open[|open| - 1]] else []
  }

  /** Closes the named drafts in turn, oldest first. */
  function CloseAll(b: Book, ds: seq<Draft>): Book {
    if ds == [] then b else Close(CloseAll(b, ds[..|ds| - 1]), ds[|ds| - 1].id, Resolved)
  }

  function Skip(open: seq<Draft>): (r: seq<Draft>)
    ensures |r| == |open| && forall i :: 0 <= i < |open| ==> r[i] == open[i].(skipped := open[i].skipped + 1)
  {
    seq(|open|, i requires 0 <= i < |open| => open[i].(skipped := open[i].skipped + 1))
  }

  function NewNotes(notes: Notes, content: string): Notes {
    if notes.version > 0 && notes.content == content then notes else Notes(notes.version + 1, content)
  }

  predicate Accepts(b: Book, w: WriteRequest) {
    w.valid && (var c := Load(b); OpenAll(c.drafts.open, w.resolves) && FreshBase(c, w))
  }

  /** One transaction: new notes, the named drafts closed, the others counted as skipped. */
  function Write(b: Book, w: WriteRequest): Book {
    if !Accepts(b, w) then b else
    var c := CloseAll(Load(b), Named(Load(b).drafts.open, w.resolves));
    c.(notes := NewNotes(b.notes, w.content), drafts := c.drafts.(open := Skip(c.drafts.open), rejections := 0))
  }

  // ---------------------------------------------------------------- rejections

  /** Appends unseen references up to the limit and counts the rest. */
  function MergeRefs(existing: seq<string>, extra: seq<string>, omitted: nat): (seq<string>, nat) {
    if extra == [] then (existing, omitted) else
    var (merged, left) := MergeRefs(existing, extra[..|extra| - 1], omitted);
    var ref := extra[|extra| - 1];
    if ref in merged then (merged, left)
    else if |merged| >= MAX_EVIDENCE_REFS then (merged, left + 1)
    else (merged + [ref], left)
  }

  function Refresh(d: Draft, r: Rejection): Draft {
    var (evidence, omitted) := MergeRefs(d.evidence, r.refs, d.omitted + r.refsOmitted);
    d.(attempts := d.attempts + 1, base := if r.base.Some? then r.base else d.base,
       payload := if r.retained then r.digest else d.payload, evidence := evidence, omitted := omitted)
  }

  /** The drafts a rejected write belongs to: those it names, else the first with the same payload. */
  function Targets(open: seq<Draft>, r: Rejection): set<Id> {
    var named := set i | 0 <= i < |open| && open[i].id in r.resolves :: open[i].id;
    if named != {} || r.digest.None? then named
    else match FirstWith(open, r.digest)
      case None => {}
      case Some(id) => {id}
  }

  function FirstWith(open: seq<Draft>, digest: Option<string>): Option<Id> {
    if open == [] then None else if open[0].payload == digest then Some(open[0].id) else FirstWith(open[1..], digest)
  }

  function RefreshAll(open: seq<Draft>, ids: set<Id>, r: Rejection): (s: seq<Draft>)
    ensures |s| == |open| && forall i :: 0 <= i < |open| ==> s[i] == if open[i].id in ids then Refresh(open[i], r) else open[i]
  {
    seq(|open|, i requires 0 <= i < |open| => if open[i].id in ids then Refresh(open[i], r) else open[i])
  }

  function FreshDraft(b: Book, id: Id): Draft { Draft(id, 0, Some(b.notes.version), None, [], 0, 0) }

  /** A draft for a refused write that belongs to none, after the oldest drafts have made room. */
  function OpenDraft(b: Book, r: Rejection): Book {
    var e := EvictTo(b, MAX_OPEN_DRAFTS - 1);
    e.(drafts := e.drafts.(open := e.drafts.open + [Refresh(FreshDraft(b, r.freshId), r)]), born := e.born + {r.freshId})
  }

  /** Records a refused write; the notes are not touched. */
  function Record(b: Book, r: Rejection): Book {
    var l := Load(b);
    var c := l.(drafts := l.drafts.(rejections := l.drafts.rejections + 1));
    var targets := Targets(c.drafts.open, r);
    if !r.supplied || (targets == {} && r.asNotes.Some? && c.notes.version > 0 && r.asNotes.value == c.notes.content) then c
    else if targets != {} then c.(drafts := c.drafts.(open := RefreshAll(c.drafts.open, targets, r)))
    else OpenDraft(c, r)
  }

  /** Closes one draft without saving it. */
  function Supersede(b: Book, id: Id, valid: bool): Book {
    if valid && Has(Load(b).drafts.open, id) then Close(Load(b), id, Superseded) else b
  }
}
