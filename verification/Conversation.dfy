/** The conversation log of xauusd/agent_conversation.py: entries in time order over bodies that are
    stored once per content, bounded by age, number and distinct bytes, and read back in pages. */
module Conversation {
  import opened Prelude

  const MAX_BYTES := 20000000
  const MAX_ENTRIES := 2000
  const RETENTION := 7 * 24 * 60

  /** Times are minutes; ids order entries of the same time. A digest stands for its content. */
  datatype Entry = Entry(at: int, id: nat, digest: string)

  datatype Body = Body(digest: string, size: nat)

  predicate Before(a: Entry, b: Entry) { a.at < b.at || (a.at == b.at && a.id < b.id) }

  ghost predicate Sorted(es: seq<Entry>) { forall i, j :: 0 <= i < j < |es| ==> Before(es[i], es[j]) }

  predicate Uses(es: seq<Entry>, digest: string) { exists i :: 0 <= i < |es| && es[i].digest == digest }

  /** The bodies some entry still refers to. */
  function UsedBy(bodies: seq<Body>, es: seq<Entry>): seq<Body> {
    if bodies == [] then [] else
    var last := bodies[|bodies| - 1];
    UsedBy(bodies[..|bodies| - 1], es) + if Uses(es, last.digest) then [last] else []
  }

  function Bytes(bodies: seq<Body>): nat {
    if bodies == [] then 0 else Bytes(bodies[..|bodies| - 1]) + bodies[|bodies| - 1].size
  }

  predicate Stored(bodies: seq<Body>, digest: string) { exists i :: 0 <= i < |bodies| && bodies[i].digest == digest }

  ghost predicate OnePerContent(bodies: seq<Body>) { forall i, j :: 0 <= i < j < |bodies| ==> bodies[i].digest != bodies[j].digest }

  /** Every entry has its body, every body an entry, and no content is stored twice. */
  ghost predicate Matched(es: seq<Entry>, bodies: seq<Body>) {
    && OnePerContent(bodies)
    && (forall i :: 0 <= i < |es| ==> Stored(bodies, es[i].digest))
    && (forall i :: 0 <= i < |bodies| ==> Uses(es, bodies[i].digest))
  }

  ghost predicate Within(es: seq<Entry>, bodies: seq<Body>, cutoff: int) {
    && |es| <= 2000 && Bytes(UsedBy(bodies, es)) <= 20000000
    && forall i :: 0 <= i < |es| ==> es[i].at >= cutoff
  }

  /** `n` entries go, and no longer run of newest entries would have been within the limits. */
  ghost predicate Longest(es: seq<Entry>, bodies: seq<Body>, cutoff: int, n: nat) {
    && n <= |es| && Within(es[n..], bodies, cutoff)
    && forall m :: 0 <= m < n ==> !Within(es[m..], bodies, cutoff)
  }

  function Insert(es: seq<Entry>, e: Entry): seq<Entry> {
    if es == [] || Before(es[|es| - 1], e) then es + [e] else Insert(es[..|es| - 1], e) + [es[|es| - 1]]
  }

  function Unexpired(es: seq<Entry>, cutoff: int): seq<Entry> {
    if es == [] then [] else Unexpired(es[..|es| - 1], cutoff) + if es[|es| - 1].at >= cutoff then [es[|es| - 1]] else []
  }

  // ---------------------------------------------------------------- lists

  lemma {:induction false} InsertKeeps(es: seq<Entry>, e: Entry)
    ensures multiset(Insert(es, e)) == multiset(es) + multiset{e}
  {
    hide Before;
    if es != [] && !Before(es[|es| - 1], e) {
      assert es == es[..|es| - 1] + [es[|es| - 1]];
      InsertKeeps(es[..|es| - 1], e);
    }
  }

  lemma {:induction false} InsertShape(es: seq<Entry>, e: Entry)
    requires Sorted(es) && forall i :: 0 <= i < |es| ==> es[i].id != e.id
    ensures Sorted(Insert(es, e)) && multiset(Insert(es, e)) == multiset(es) + multiset{e}
  {
    InsertKeeps(es, e);
    if es != [] && !Before(es[|es| - 1], e) {
      var front, last := es[..|es| - 1], es[|es| - 1];
      InsertShape(front, e);
      var r := Insert(front, e);
      forall i | 0 <= i < |r| ensures Before(r[i], last) {
        assert r[i] in multiset(r);
        if r[i] != e {
          assert r[i] in front;
        }
      }
      SortedSnoc(r, last);
      hide Sorted;
    }
  }

  lemma SortedSnoc(es: seq<Entry>, e: Entry)
    requires Sorted(es) && forall i :: 0 <= i < |es| ==> Before(es[i], e)
    ensures Sorted(es + [e])
  {
    hide Before;
  }

  lemma InsertMembers(es: seq<Entry>, e: Entry)
    requires Sorted(es) && forall i :: 0 <= i < |es| ==> es[i].id != e.id
    ensures Sorted(Insert(es, e)) && forall x :: x in Insert(es, e) <==> x in es || x == e
  {
    InsertShape(es, e);
    forall x ensures x in Insert(es, e) <==> x in es || x == e {
      assert x in Insert(es, e) <==> x in multiset(Insert(es, e));
      assert x in es <==> x in multiset(es);
    }
  }

  /** In time order the expired entries come first. */
  lemma {:induction false} ExpiredFirst(es: seq<Entry>, cutoff: int) returns (n: nat)
    requires Sorted(es)
    ensures n <= |es| && Unexpired(es, cutoff) == es[n..]
    ensures forall i :: 0 <= i < |es| ==> (es[i].at < cutoff <==> i < n)
  {
    assert es != [] && es[|es| - 1].at >= cutoff ==> Unexpired(es, cutoff) == Unexpired(es[..|es| - 1], cutoff) + [es[|es| - 1]];
    n := |es|;
    if es != [] {
      if es[|es| - 1].at < cutoff {
        AllExpired(es, cutoff);
      } else {
        var front := es[..|es| - 1];
        n := ExpiredFirst(front, cutoff);
        hide Sorted, Unexpired;
        assert es[n..] == front[n..] + [es[|es| - 1]];
        assert forall i :: 0 <= i < |front| ==> front[i] == es[i];
      }
    }
  }

  lemma {:induction false} AllExpired(es: seq<Entry>, cutoff: int)
    requires Sorted(es) && es != [] && es[|es| - 1].at < cutoff
    ensures Unexpired(es, cutoff) == [] && forall i :: 0 <= i < |es| ==> es[i].at < cutoff
  {
    assert forall i :: 0 <= i < |es| - 1 ==> Before(es[i], es[|es| - 1]);
    if |es| > 1 {
      AllExpired(es[..|es| - 1], cutoff);
    }
  }

  lemma {:induction false} UsedMembers(bodies: seq<Body>, es: seq<Entry>)
    ensures forall b :: b in UsedBy(bodies, es) <==> b in bodies && Uses(es, b.digest)
  {
    if bodies != [] {
      UsedMembers(bodies[..|bodies| - 1], es);
      assert bodies == bodies[..|bodies| - 1] + [bodies[|bodies| - 1]];
    }
  }

  /** Dropping orphans twice is dropping them for the smaller list. */
  lemma {:induction false} UsedTwice(bodies: seq<Body>, more: seq<Entry>, less: seq<Entry>)
    requires forall d :: Uses(less, d) ==> Uses(more, d)
    ensures UsedBy(UsedBy(bodies, more), less) == UsedBy(bodies, less)
  {
    if bodies != [] {
      var front, last := bodies[..|bodies| - 1], bodies[|bodies| - 1];
      UsedTwice(front, more, less);
      hide Uses;
      assert Uses(less, last.digest) ==> Uses(more, last.digest);
      assert UsedBy(front, more) + [] == UsedBy(front, more) && UsedBy(front, less) + [] == UsedBy(front, less);
      if Uses(more, last.digest) {
        assert UsedBy(bodies, more)[..|UsedBy(bodies, more)| - 1] == UsedBy(front, more);
      }
    }
  }

  lemma {:induction false} FewerBytes(bodies: seq<Body>, more: seq<Entry>, less: seq<Entry>)
    requires forall d :: Uses(less, d) ==> Uses(more, d)
    ensures Bytes(UsedBy(bodies, less)) <= Bytes(UsedBy(bodies, more))
  {
    if bodies != [] {
      var front, last := bodies[..|bodies| - 1], bodies[|bodies| - 1];
      FewerBytes(front, more, less);
      hide Uses;
      BytesSnoc(UsedBy(front, less), last);
      BytesSnoc(UsedBy(front, more), last);
    }
  }

  lemma BytesSnoc(bodies: seq<Body>, b: Body)
    ensures Bytes(bodies + [b]) == Bytes(bodies) + b.size
    ensures bodies + [] == bodies
  {
    assert (bodies + [b])[..|bodies|] == bodies;
  }

  lemma TailUses(es: seq<Entry>, n: nat, m: nat)
    requires n <= m <= |es|
    ensures forall d :: Uses(es[m..], d) ==> Uses(es[n..], d)
  {
    forall d | Uses(es[m..], d) ensures Uses(es[n..], d) {
      var i :| 0 <= i < |es[m..]| && es[m..][i].digest == d;
      assert es[n..][m - n + i].digest == d;
    }
  }

  /** Limits that hold of a run hold of every newer run. */
  lemma NewerIsWithin(es: seq<Entry>, bodies: seq<Body>, cutoff: int, n: nat, m: nat)
    requires n <= m <= |es| && Within(es[n..], bodies, cutoff)
    ensures Within(es[m..], bodies, cutoff)
  {
    TailUses(es, n, m);
    FewerBytes(bodies, es[n..], es[m..]);
    assert forall i :: 0 <= i < |es[m..]| ==> es[m..][i] == es[n..][m - n + i];
  }

  /** The survivors do not depend on how they were found. */
  lemma LongestIsUnique(es: seq<Entry>, bodies: seq<Body>, cutoff: int, n: nat, m: nat)
    requires Longest(es, bodies, cutoff, n) && Longest(es, bodies, cutoff, m)
    ensures n == m
  {
  }

  /** An entry newer than all others, young enough and small enough, is never what goes. */
  lemma NewestSurvives(es: seq<Entry>, bodies: seq<Body>, cutoff: int, n: nat)
    requires Longest(es, bodies, cutoff, n) && es != []
    requires es[|es| - 1].at >= cutoff && Bytes(UsedBy(bodies, [es[|es| - 1]])) <= MAX_BYTES
    ensures n < |es|
  {
    assert es[|es| - 1..] == [es[|es| - 1]];
    assert Within(es[|es| - 1..], bodies, cutoff);
  }

  lemma StillMatched(es: seq<Entry>, bodies: seq<Body>, n: nat)
    requires Matched(es, bodies) && n <= |es|
    ensures Matched(es[n..], UsedBy(bodies, es[n..]))
  {
    var used := UsedBy(bodies, es[n..]);
    UsedMembers(bodies, es[n..]);
    UsedDistinct(bodies, es[n..]);
    forall i | 0 <= i < |es[n..]| ensures Stored(used, es[n..][i].digest) {
      assert Stored(bodies, es[n + i].digest);
      var k :| 0 <= k < |bodies| && bodies[k].digest == es[n + i].digest;
      assert es[n..][i].digest == bodies[k].digest;
      assert bodies[k] in used;
      var j :| 0 <= j < |used| && used[j] == bodies[k];
    }
    forall i | 0 <= i < |used| ensures Uses(es[n..], used[i].digest) {
      assert used[i] in used;
    }
  }

  lemma {:induction false} UsedDistinct(bodies: seq<Body>, es: seq<Entry>)
    requires OnePerContent(bodies)
    ensures OnePerContent(UsedBy(bodies, es))
  {
    if bodies != [] {
      var front, last := bodies[..|bodies| - 1], bodies[|bodies| - 1];
      UsedDistinct(front, es);
      UsedMembers(front, es);
      var r := UsedBy(front, es);
      forall i | 0 <= i < |r| ensures r[i].digest != last.digest {
        assert r[i] in r;
      }
      assert r + [] == r;
      assert UsedBy(bodies, es) == if Uses(es, last.digest) then r + [last] else r;
      hide UsedBy, Uses;
    }
  }

  // ---------------------------------------------------------------- the store

  class ConversationStore {
    var entries: seq<Entry>
    var bodies: seq<Body>

    constructor ()
      ensures entries == [] && bodies == [] && Valid()
    {
      entries, bodies := [], [];
    }

    ghost predicate Valid()
      reads this
    {
      Sorted(entries) && Matched(entries, bodies)
    }

    /** Deletes expired entries, then what exceeds the number, then oldest first until the distinct
        bytes fit. What stays is exactly the longest newest run within all three limits, with exactly
        the bodies it refers to. */
    method Prune(now: int) returns (removed: nat)
      requires Sorted(entries)
      requires (forall i :: 0 <= i < |entries| ==> Stored(bodies, entries[i].digest))
      requires OnePerContent(bodies)
      modifies this
      ensures removed <= |old(entries)| && Longest(old(entries), old(bodies), now - 10080, removed)
      ensures entries == old(entries)[removed..] && bodies == UsedBy(old(bodies), entries)
    {
      hide Uses, Stored, Sorted, Matched, UsedBy, Bytes, Within, Unexpired;
      ghost var es, bs := entries, bodies;
      var cutoff := now - RETENTION;
      ghost var expired := ExpiredFirst(es, cutoff);
      removed := DropOld(cutoff, expired);
      EarlierRunsFail(es, bs, cutoff, expired, removed);
      removed := DropBytes(cutoff, es, removed);
    }

    /** By age and by number. */
    method DropOld(cutoff: int, ghost expired: nat) returns (removed: nat)
      requires expired <= |entries| && Unexpired(entries, cutoff) == entries[expired..]
      modifies this`entries
      ensures expired <= removed <= |old(entries)| && entries == old(entries)[removed..]
      ensures |entries| <= MAX_ENTRIES && (removed > expired ==> |old(entries)[removed - 1..]| > MAX_ENTRIES)
    {
      var before := |entries|;
      entries := Unexpired(entries, cutoff);
      removed := before - |entries|;
      while |entries| > MAX_ENTRIES
        invariant expired <= removed <= before == |old(entries)| && entries == old(entries)[removed..]
        invariant removed > expired ==> |old(entries)[removed - 1..]| > MAX_ENTRIES
      {
        entries := entries[1..];
        removed := removed + 1;
      }
    }

    /** By distinct bytes, dropping orphans after every deletion. */
    method DropBytes(cutoff: int, ghost es: seq<Entry>, start: nat) returns (removed: nat)
      requires start <= |es| && entries == es[start..] && |entries| <= MAX_ENTRIES
      requires forall i :: start <= i < |es| ==> es[i].at >= cutoff
      requires forall m :: 0 <= m < start ==> !Within(es[m..], bodies, cutoff)
      modifies this
      ensures Longest(es, old(bodies), cutoff, removed) && entries == es[removed..] && bodies == UsedBy(old(bodies), entries)
    {
      hide Uses, UsedBy, Bytes;
      ghost var bs := bodies;
      removed := start;
      bodies := UsedBy(bodies, entries);
      var size := Bytes(bodies);
      while size > MAX_BYTES && |entries| > 0
        invariant start <= removed <= |es| && entries == es[removed..] && |entries| <= MAX_ENTRIES
        invariant bodies == UsedBy(bs, entries) && size == Bytes(bodies)
        invariant forall m :: 0 <= m < removed ==> !Within(es[m..], bs, cutoff)
        decreases |entries|
      {
        TailUses(es, removed, removed + 1);
        UsedTwice(bs, es[removed..], es[removed + 1..]);
        entries := entries[1..];
        bodies := UsedBy(bodies, entries);
        size := Bytes(bodies);
        removed := removed + 1;
      }
      if |entries| == 0 {
        NoEntriesNoBodies(bs, entries);
      }
    }

    method Append(entry: Entry, size: nat, now: int) returns (removed: nat)
      requires Valid() && forall i :: 0 <= i < |entries| ==> entries[i].id != entry.id
      modifies this
      ensures Valid()
      ensures var es := Insert(old(entries), entry);
              var bs := if Stored(old(bodies), entry.digest) then old(bodies) else old(bodies) + [Body(entry.digest, size)];
              && removed <= |es| && Longest(es, bs, now - 10080, removed)
              && entries == es[removed..] && bodies == UsedBy(bs, entries)
    {
      InsertMembers(entries, entry);
      var known := exists i :: 0 <= i < |bodies| && bodies[i].digest == entry.digest;
      ghost var bs := if known then bodies else bodies + [Body(entry.digest, size)];
      InsertMatched(entries, bodies, entry, size);
      hide Sorted, Matched, Insert;
      if !known {
        bodies := bodies + [Body(entry.digest, size)];
      }
      entries := Insert(entries, entry);
      ghost var es := entries;
      removed := Prune(now);
      StillMatched(es, bs, removed);
    }
  }

  lemma NoEntriesNoBodies(bodies: seq<Body>, es: seq<Entry>)
    requires es == []
    ensures UsedBy(bodies, es) == [] && Bytes(UsedBy(bodies, es)) == 0
  {
    if bodies != [] {
      NoEntriesNoBodies(bodies[..|bodies| - 1], es);
    }
  }

  /** Runs that reach back to an expired entry, or past the number, are outside the limits. */
  lemma EarlierRunsFail(es: seq<Entry>, bodies: seq<Body>, cutoff: int, expired: nat, n: nat)
    requires expired <= n <= |es| && (forall i :: 0 <= i < |es| ==> (es[i].at < cutoff <==> i < expired))
    requires n > expired ==> |es[n - 1..]| > MAX_ENTRIES
    ensures forall m :: 0 <= m < n ==> !Within(es[m..], bodies, cutoff)
  {
    forall m | 0 <= m < n ensures !Within(es[m..], bodies, cutoff) {
      if m < expired {
        assert es[m..][0].at < cutoff;
      } else {
        assert |es[m..]| > MAX_ENTRIES;
      }
    }
  }

  lemma InsertMatched(es: seq<Entry>, bodies: seq<Body>, e: Entry, size: nat)
    requires Sorted(es) && Matched(es, bodies) && forall i :: 0 <= i < |es| ==> es[i].id != e.id
    ensures Matched(Insert(es, e), if Stored(bodies, e.digest) then bodies else bodies + [Body(e.digest, size)])
  {
    InsertMembers(es, e);
    var r := Insert(es, e);
    hide Insert, Sorted;
    var bs := if Stored(bodies, e.digest) then bodies else bodies + [Body(e.digest, size)];
    assert !Stored(bodies, e.digest) ==> bs[|bodies|].digest == e.digest;
    assert forall i :: 0 <= i < |bodies| ==> bs[i] == bodies[i];
    assert Stored(bs, e.digest);
    forall i | 0 <= i < |r| ensures Stored(bs, r[i].digest) {
      if r[i] != e {
        assert r[i] in es;
        var k :| 0 <= k < |es| && es[k] == r[i];
        assert Stored(bodies, es[k].digest);
        var j :| 0 <= j < |bodies| && bodies[j].digest == es[k].digest;
        assert bs[j].digest == r[i].digest;
      }
    }
    forall i | 0 <= i < |bs| ensures Uses(r, bs[i].digest) {
      if i < |bodies| {
        assert Uses(es, bodies[i].digest);
        var k :| 0 <= k < |es| && es[k].digest == bodies[i].digest;
        assert es[k] in r;
        var j :| 0 <= j < |r| && r[j] == es[k];
      } else {
        assert e in r;
        var j :| 0 <= j < |r| && r[j] == e;
      }
    }
  }

  // ---------------------------------------------------------------- reading in pages

  datatype Page = Page(entries: seq<Entry>, next: Option<Entry>)

  function Clamp(limit: int, top: int): (r: int)
    requires top >= 1
    ensures 1 <= r <= top
  {
    if limit < 1 then 1 else if limit > top then top else limit
  }

  function Newest(es: seq<Entry>): seq<Entry> {
    if es == [] then [] else [es[|es| - 1]] + Newest(es[..|es| - 1])
  }

  /** The unexpired entries older than the cursor, which is the last entry already shown. */
  function Older(es: seq<Entry>, cutoff: int, before: Option<Entry>): seq<Entry> {
    if es == [] then [] else
    var last := es[|es| - 1];
    Older(es[..|es| - 1], cutoff, before) + if last.at >= cutoff && (before.None? || Before(last, before.value)) then [last] else []
  }

  /** One page, newest first, with a cursor when more remains. */
  function Entries(es: seq<Entry>, cutoff: int, before: Option<Entry>, limit: int): Page {
    var rows := Newest(Older(es, cutoff, before));
    var k := Clamp(limit, 100);
    if |rows| > k then Page(rows[..k], Some(rows[k - 1])) else Page(rows, None)
  }

  /** All pages from a cursor on. */
  function AllPages(es: seq<Entry>, cutoff: int, before: Option<Entry>, limit: int, fuel: nat): seq<Entry>
    decreases fuel
  {
    var page := Entries(es, cutoff, before, limit);
    page.entries + if page.next.Some? && fuel > 0 then AllPages(es, cutoff, page.next, limit, fuel - 1) else []
  }

  lemma {:induction false} NewestAt(es: seq<Entry>, i: nat)
    requires i < |es|
    ensures |Newest(es)| == |es| && Newest(es)[i] == es[|es| - 1 - i]
  {
    NewestLength(es);
    NewestLength(es[..|es| - 1]);
    if i > 0 {
      NewestAt(es[..|es| - 1], i - 1);
    }
  }

  lemma {:induction false} NewestLength(es: seq<Entry>)
    ensures |Newest(es)| == |es|
  {
    if es != [] {
      NewestLength(es[..|es| - 1]);
    }
  }

  /** When everything stored precedes `e`, a cursor at or after `e` hides nothing. */
  lemma {:induction false} NothingHidden(es: seq<Entry>, cutoff: int, e: Entry, before: Option<Entry>)
    requires forall i :: 0 <= i < |es| ==> Before(es[i], e)
    requires before.Some? ==> before.value == e || Before(e, before.value)
    ensures Older(es, cutoff, before) == Older(es, cutoff, None)
  {
    if es != [] {
      NothingHidden(es[..|es| - 1], cutoff, e, before);
    }
  }

  lemma {:induction false} OlderMembers(es: seq<Entry>, cutoff: int, before: Option<Entry>)
    ensures forall e :: e in Older(es, cutoff, before) ==> e in es && (before.Some? ==> Before(e, before.value))
  {
    if es != [] {
      OlderMembers(es[..|es| - 1], cutoff, before);
    }
  }

  /** A cursor at a row that was shown leaves the rows before it. */
  lemma {:induction false} OlderThanShown(es: seq<Entry>, cutoff: int, before: Option<Entry>, j: nat)
    requires Sorted(es) && j < |Older(es, cutoff, before)|
    ensures Older(es, cutoff, Some(Older(es, cutoff, before)[j])) == Older(es, cutoff, before)[..j]
  {
    var front, last := es[..|es| - 1], es[|es| - 1];
    var rows, less := Older(es, cutoff, before), Older(front, cutoff, before);
    if j < |less| {
      OlderThanShown(front, cutoff, before, j);
      OlderMembers(front, cutoff, before);
      assert less[j] in front;
      assert rows[j] == less[j] && rows[..j] == less[..j];
    } else {
      NothingHidden(front, cutoff, last, before);
      NothingHidden(front, cutoff, last, Some(last));
      assert rows[..j] == less;
    }
  }

  lemma {:induction false} OlderIsUnexpired(es: seq<Entry>, cutoff: int)
    ensures Older(es, cutoff, None) == Unexpired(es, cutoff)
  {
    if es != [] {
      OlderIsUnexpired(es[..|es| - 1], cutoff);
    }
  }

  /** Following the cursor from anywhere shows every unexpired older entry once, newest first,
      whatever the page size. */
  lemma {:induction false} PagesShowAll(es: seq<Entry>, cutoff: int, before: Option<Entry>, limit: int, fuel: nat)
    requires Sorted(es) && fuel >= |Older(es, cutoff, before)|
    ensures AllPages(es, cutoff, before, limit, fuel) == Newest(Older(es, cutoff, before))
    decreases fuel
  {
    hide Older, Newest, AllPages, Sorted;
    var rows := Older(es, cutoff, before);
    var c := Clamp(limit, 100);
    PageUnfold(es, cutoff, before, limit, fuel, rows);
    if |rows| > c {
      var less := PageOfRows(rows, c);
      OlderThanShown(es, cutoff, before, |less|);
      PagesShowAll(es, cutoff, Some(rows[|less|]), limit, fuel - 1);
    }
  }

  /** From the top, the pages show exactly the unexpired entries, each once, newest first. */
  lemma PagesShowUnexpired(es: seq<Entry>, cutoff: int, limit: int, fuel: nat)
    requires Sorted(es) && fuel >= |Unexpired(es, cutoff)|
    ensures AllPages(es, cutoff, None, limit, fuel) == Newest(Unexpired(es, cutoff))
  {
    OlderIsUnexpired(es, cutoff);
    PagesShowAll(es, cutoff, None, limit, fuel);
  }

  lemma PageUnfold(es: seq<Entry>, cutoff: int, before: Option<Entry>, limit: int, fuel: nat, rows: seq<Entry>)
    requires Older(es, cutoff, before) == rows && fuel >= |rows|
    ensures |Newest(rows)| == |rows|
    ensures var c := Clamp(limit, 100);
            AllPages(es, cutoff, before, limit, fuel)
            == if |rows| > c then Newest(rows)[..c] + AllPages(es, cutoff, Some(Newest(rows)[c - 1]), limit, fuel - 1) else Newest(rows)
  {
    NewestLength(rows);
    hide Older, Newest;
  }

  lemma PageOfRows(rows: seq<Entry>, c: nat) returns (less: seq<Entry>)
    requires 0 < c < |rows|
    ensures |Newest(rows)| == |rows| == |less| + c && less == rows[..|less|]
    ensures Newest(rows) == Newest(rows)[..c] + Newest(less) && Newest(rows)[c - 1] == rows[|less|]
  {
    less := rows[..|rows| - c];
    NewestAt(rows, c - 1);
    NewestSplit(rows, |rows| - c);
    assert Newest(rows)[..c] == Newest(rows[|rows| - c..]);
  }

  lemma {:induction false} NewestSplit(es: seq<Entry>, i: nat)
    requires i <= |es|
    ensures Newest(es) == Newest(es[i..]) + Newest(es[..i]) && |Newest(es[i..])| == |es| - i
  {
    NewestLength(es[i..]);
    if i == |es| {
      assert es[..i] == es && es[i..] == [];
    } else {
      NewestSplit(es[..|es| - 1], i);
      assert es[..|es| - 1][i..] == es[i..][..|es[i..]| - 1];
      assert es[..|es| - 1][..i] == es[..i];
    }
  }

  /** A limit as the readers of pages understand it. */
  function AtMost(limit: int, most: nat): int { if limit > most then most else if limit <= 0 then 1 else limit }

  /** A page holds as many of the remaining entries as asked for, at least one and at most a hundred, and
      has a cursor at the last of them exactly when more remain. */
  lemma PageMeaning(es: seq<Entry>, cutoff: int, before: Option<Entry>, limit: int)
    ensures var rows, page, size := Newest(Older(es, cutoff, before)), Entries(es, cutoff, before, limit), AtMost(limit, 100);
            && |page.entries| == (if |rows| < size then |rows| else size) && page.entries == rows[..|page.entries|]
            && page.next == if |rows| > size then Some(page.entries[size - 1]) else None
  {
    hide Newest, Older;
  }

  datatype TextPage = TextPage(text: string, next: Option<nat>)

  function PageOf(content: string, offset: int, limit: int): TextPage {
    var from := if offset < 0 then 0 else if offset > |content| then |content| else offset;
    var end := if from + Clamp(limit, 12000) < |content| then from + Clamp(limit, 12000) else |content|;
    TextPage(content[from..end], if end < |content| then Some(end) else None)
  }

  function AllText(content: string, offset: nat, limit: int): string
    decreases |content| - offset
  {
    var page := PageOf(content, offset, limit);
    page.text + if page.next.Some? && page.next.value > offset then AllText(content, page.next.value, limit) else ""
  }

  /** A page of a body: from the offset as many characters as asked for, at least one and at most twelve
      thousand of those there are, and the next offset exactly when some remain. */
  lemma TextPageMeaning(content: string, offset: nat, limit: int)
    requires offset <= |content|
    ensures var page, left, size := PageOf(content, offset, limit), |content| - offset, AtMost(limit, 12000);
            && |page.text| == (if left < size then left else size) && page.text == content[offset..offset + |page.text|]
            && page.next == if left > size then Some(offset + size) else None
  {
  }

  /** An offset outside the body is taken for its nearer end. */
  lemma TextPageClamps(content: string, offset: int, limit: int)
    ensures offset < 0 ==> PageOf(content, offset, limit) == PageOf(content, 0, limit)
    ensures offset > |content| ==> PageOf(content, offset, limit) == TextPage("", None)
  {
  }

  /** Reading a body page by page gives it back whole. */
  lemma {:induction false} TextRoundTrip(content: string, offset: nat, limit: int)
    requires offset <= |content|
    ensures AllText(content, offset, limit) == content[offset..]
    decreases |content| - offset
  {
    var page := PageOf(content, offset, limit);
    if page.next.Some? {
      TextRoundTrip(content, page.next.value, limit);
    }
  }
}
