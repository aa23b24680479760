/** The bar store of xauusd/data.py: `normalize`, `write` and the chunked `rebuild_from_raw`.
    A page is the frame its file decodes to together with the range its name claims. */
module HistoricalStore {
  import opened Prelude
  import opened Frames

  datatype Error = InvalidBars | NoArchive | NoBars | NoStore

  datatype Page = Page(first: int, last: int, rows: Frame)

  predicate ValidBar(b: Bar) {
    b.low <= b.high && b.low <= b.open <= b.high && b.low <= b.close <= b.high && b.volume >= 0.0
  }

  predicate AllValid(rows: Frame) {
    forall i :: 0 <= i < |rows| ==> ValidBar(rows[i].bar)
  }

  /** `normalize` on numeric columns. */
  function Normalize(rows: Frame): Result<Frame, Error> {
    var x := Normal(rows);
    if AllValid(x) then Ok(x) else Err(InvalidBars)
  }

  /** What `write` leaves in the file, given the frame it holds, if any, and a normalised frame. */
  function Merged(file: Option<Frame>, x: Frame): Frame {
    if file.Some? then Normal(file.value + x) else x
  }

  /** In a canonical frame every row is what the frame means for its minute. */
  lemma {:induction false} CanonicalRows(x: Frame)
    requires Canonical(x)
    ensures forall i :: 0 <= i < |x| ==> x[i].minute in Latest(x) && Latest(x)[x[i].minute] == x[i].bar
    ensures forall t :: t in Latest(x) ==> exists i :: 0 <= i < |x| && x[i].minute == t
  {
    if x != [] {
      var front, last := x[..|x| - 1], x[|x| - 1];
      CanonicalRows(front);
      forall i | 0 <= i < |x| ensures x[i].minute in Latest(x) && Latest(x)[x[i].minute] == x[i].bar {
        if i < |front| {
          assert front[i] == x[i];
        }
      }
      forall t | t in Latest(x) ensures exists i :: 0 <= i < |x| && x[i].minute == t {
        if t != last.minute {
          assert t in Latest(front);
          var i :| 0 <= i < |front| && front[i].minute == t;
          assert x[i].minute == t;
        } else {
          assert x[|front|].minute == t;
        }
      }
    }
  }

  /** A frame is refused exactly when the bar given last for some minute has an open or a close outside
      its range, a range upside down, or a negative volume. */
  lemma RefusedExactly(rows: Frame)
    ensures Normalize(rows) == Err(InvalidBars) <==>
              exists t :: t in Latest(rows) && var b := Latest(rows)[t];
                !(b.low <= b.open && b.open <= b.high && b.low <= b.close && b.close <= b.high && 0.0 <= b.volume)
    ensures Normalize(rows).Ok? ==> Normalize(rows).value == Normal(rows)
  {
    var x := Normal(rows);
    NormalMeaning(rows);
    CanonicalRows(x);
    hide Normal, Latest;
    if !AllValid(x) {
      var i :| 0 <= i < |x| && !ValidBar(x[i].bar);
      assert x[i].minute in Latest(rows);
    }
  }

  // ---------------------------------------------------------------- rebuilding from the archive

  /** Pages that survive the name filter: the claimed last minute is not before the cutoff's minute. */
  function Replayed(pages: seq<Page>, cutoff: int): seq<Page> {
    if pages == [] then [] else
    var p := pages[|pages| - 1];
    Replayed(pages[..|pages| - 1], cutoff) + if p.last >= cutoff / 60 then [p] else []
  }

  /** The first `n` pages whose names do not claim to end before the minute of the cutoff. */
  function LatePages(pages: seq<Page>, cutoff: int, n: nat): set<nat> { set i: nat | i < n <= |pages| && EndsLate(pages[i], cutoff) }

  /** A page is read exactly when it is one of these, and as often as it is. */
  lemma ReplayedExactly(pages: seq<Page>, cutoff: int)
    ensures forall p :: p in Replayed(pages, cutoff) <==> p in pages && EndsLate(p, cutoff)
    ensures |Replayed(pages, cutoff)| == |LatePages(pages, cutoff, |pages|)|
  {
    ReplayedMembers(pages, cutoff);
    ReplayedCount(pages, cutoff, |pages|);
    assert pages[..|pages|] == pages;
  }

  lemma {:induction false} ReplayedMembers(pages: seq<Page>, cutoff: int)
    ensures forall p :: p in Replayed(pages, cutoff) <==> p in pages && EndsLate(p, cutoff)
  {
    hide EndsLate;
    if pages != [] {
      var front, last := pages[..|pages| - 1], pages[|pages| - 1];
      ReplayedMembers(front, cutoff);
      MinuteOf(last, cutoff);
      assert pages == front + [last];
    }
  }

  lemma {:induction false} ReplayedCount(pages: seq<Page>, cutoff: int, n: nat)
    requires n <= |pages|
    ensures |Replayed(pages[..n], cutoff)| == |LatePages(pages, cutoff, n)|
  {
    if n > 0 {
      ReplayedCount(pages, cutoff, n - 1);
      MinuteOf(pages[n - 1], cutoff);
      hide EndsLate;
      assert pages[..n][..n - 1] == pages[..n - 1];
      assert LatePages(pages, cutoff, n) == LatePages(pages, cutoff, n - 1) + if EndsLate(pages[n - 1], cutoff) then {n - 1} else {};
    } else {
      assert LatePages(pages, cutoff, 0) == {};
    }
  }

  lemma MinuteOf(p: Page, cutoff: int)
    ensures EndsLate(p, cutoff) <==> p.last >= cutoff / 60
  {
  }

  /** The page's last minute ends at the cutoff or after it. */
  predicate EndsLate(p: Page, cutoff: int) { 60 * p.last + 59 >= cutoff }

  /** The rows of the pages from the cutoff on, in archive order. */
  function Replay(pages: seq<Page>, cutoff: int): Frame {
    if pages == [] then [] else Replay(pages[..|pages| - 1], cutoff) + Since(pages[|pages| - 1].rows, cutoff)
  }

  /** Every page's bars, later pages overriding earlier ones. */
  function Override(pages: seq<Page>): map<int, Bar> {
    if pages == [] then map[] else Override(pages[..|pages| - 1]) + Latest(pages[|pages| - 1].rows)
  }

  /** A page's name is honest when it claims no earlier end than its rows have. */
  ghost predicate HonestNames(pages: seq<Page>) {
    forall i, k :: 0 <= i < |pages| && 0 <= k < |pages[i].rows| ==> pages[i].rows[k].minute <= pages[i].last
  }

  lemma {:induction false} ReplayConcat(a: seq<Page>, b: seq<Page>, cutoff: int)
    ensures Replay(a + b, cutoff) == Replay(a, cutoff) + Replay(b, cutoff)
    decreases |b|
  {
    if b == [] {
      assert a + b == a;
    } else {
      hide Since;
      var front, last := b[..|b| - 1], Since(b[|b| - 1].rows, cutoff);
      assert (a + b)[..|a + b| - 1] == a + front;
      ReplayConcat(a, front, cutoff);
      assert Replay(a, cutoff) + (Replay(front, cutoff) + last) == (Replay(a, cutoff) + Replay(front, cutoff)) + last;
    }
  }

  /** The replay means the override fold of the archive cut at the cutoff. */
  lemma {:induction false} ReplayMeaning(pages: seq<Page>, cutoff: int)
    ensures Latest(Replay(pages, cutoff)) == SinceMap(Override(pages), cutoff)
  {
    if pages != [] {
      var front, p := pages[..|pages| - 1], pages[|pages| - 1];
      ReplayMeaning(front, cutoff);
      LatestConcat(Replay(front, cutoff), Since(p.rows, cutoff));
      SinceMeaning(p.rows, cutoff);
    }
  }

  /** A skipped page with an honest name held nothing from the cutoff on. */
  lemma {:induction false} SkippedPagesHoldNothing(pages: seq<Page>, cutoff: int)
    requires HonestNames(pages)
    ensures Replay(Replayed(pages, cutoff), cutoff) == Replay(pages, cutoff)
  {
    if pages != [] {
      var front, p := pages[..|pages| - 1], pages[|pages| - 1];
      SkippedPagesHoldNothing(front, cutoff);
      if p.last >= cutoff / 60 {
        assert (Replayed(front, cutoff) + [p])[..|Replayed(front, cutoff)|] == Replayed(front, cutoff);
      } else {
        NothingSince(p.rows, p.last, cutoff);
        assert Replayed(front, cutoff) + [] == Replayed(front, cutoff);
      }
    }
  }

  lemma {:induction false} NothingSince(rows: Frame, last: int, cutoff: int)
    requires last < cutoff / 60 && forall k :: 0 <= k < |rows| ==> rows[k].minute <= last
    ensures Since(rows, cutoff) == []
  {
    if rows != [] {
      NothingSince(rows[..|rows| - 1], last, cutoff);
    }
  }

  /** The rebuilt frame, with no chunks in sight. */
  function Rebuilt(pages: seq<Page>, cutoff: int): Frame {
    Normal(Replay(Replayed(pages, cutoff), cutoff))
  }

  /** Under honest names the rebuilt frame means exactly the archive's override fold from the cutoff on. */
  lemma RebuiltMeaning(pages: seq<Page>, cutoff: int)
    requires HonestNames(pages)
    ensures Canonical(Rebuilt(pages, cutoff))
    ensures Latest(Rebuilt(pages, cutoff)) == SinceMap(Override(pages), cutoff)
  {
    SkippedPagesHoldNothing(pages, cutoff);
    ReplayMeaning(pages, cutoff);
    NormalMeaning(Replay(pages, cutoff));
  }

  lemma ReplayPrefix(pages: seq<Page>, i: nat, j: nat, cutoff: int)
    requires i <= j <= |pages|
    ensures Replay(pages[..j], cutoff) == Replay(pages[..i], cutoff) + Replay(pages[i..j], cutoff)
  {
    assert pages[..j] == pages[..i] + pages[i..j];
    ReplayConcat(pages[..i], pages[i..j], cutoff);
  }

  /** Merging a chunk, normalised on its own, into the total so far. */
  lemma ChunkMerge(total: Frame, before: Frame, chunk: Frame)
    requires total == Normal(before)
    ensures Normal(total + Normal(chunk)) == Normal(before + chunk)
  {
    NormalMeaning(before);
    NormalMeaning(chunk);
    LatestConcat(total, Normal(chunk));
    LatestConcat(before, chunk);
    NormalByMeaning(total + Normal(chunk), before + chunk);
  }

  lemma NormalEmpty(rows: Frame)
    ensures Normal(rows) == [] <==> rows == []
  {
    NormalMeaning(rows);
    LatestKeys(rows);
    LatestKeys(Normal(rows));
    if rows != [] {
      assert rows[0].minute in Minutes(rows);
    }
  }

  /** The store object: `file` is the parquet file's frame, absent until the first write. */
  class Store {
    var file: Option<Frame>

    constructor ()
      ensures file == None
    {
      file := None;
    }

    /** `write`: normalise, merge into what is there, swap. A rejected frame leaves the file alone. */
    method Write(bars: Frame, merge: bool) returns (r: Result<Frame, Error>)
      modifies this
      ensures Normalize(bars).Err? ==> r == Err(InvalidBars) && file == old(file)
      ensures Normalize(bars).Ok? ==> r.Ok? && file == Some(r.value)
      ensures Normalize(bars).Ok? && merge && old(file).Some? ==> Latest(r.value) == Latest(old(file).value) + Latest(bars) && Canonical(r.value)
      ensures Normalize(bars).Ok? && !(merge && old(file).Some?) ==> r.value == Normal(bars)
      ensures Normalize(bars).Ok? ==> r.value == Merged(if merge then old(file) else None, Normal(bars))
    {
      var normalized := Normalize(bars);
      if normalized.Err? {
        return Err(InvalidBars);
      }
      var x := normalized.value;
      NormalMeaning(bars);
      if merge && file.Some? {
        LatestConcat(file.value, x);
        NormalMeaning(file.value + x);
        x := KeepLast(StableSort(file.value + x));
      }
      file := Some(x);
      r := Ok(x);
    }

    /** `rebuild_from_raw`: one pass over the surviving pages, `chunk` at a time. For every positive
        chunk size it writes the same frame: the normalised replay of the archive. */
    method RebuildFromRaw(pages: seq<Page>, cutoff: int, chunk: nat) returns (r: Result<Frame, Error>)
      requires chunk >= 1
      modifies this
      ensures pages == [] ==> r == Err(NoArchive) && file == old(file)
      ensures pages != [] && Rebuilt(pages, cutoff) == [] ==> r == Err(NoBars) && file == old(file)
      ensures pages != [] && Rebuilt(pages, cutoff) != [] && !AllValid(Rebuilt(pages, cutoff)) ==> r == Err(InvalidBars) && file == old(file)
      ensures pages != [] && Rebuilt(pages, cutoff) != [] && AllValid(Rebuilt(pages, cutoff)) ==>
                r == Ok(Rebuilt(pages, cutoff)) && file == Some(Rebuilt(pages, cutoff))
    {
      if pages == [] {
        return Err(NoArchive);
      }
      var survivors := Replayed(pages, cutoff);
      var total: Option<Frame> := None;
      var start := 0;
      assert Replay(survivors[..start], cutoff) == [];
      hide Replay, Replayed, StableSort, KeepLast, Latest, Minutes, AllValid;
      while start < |survivors|
        invariant 0 <= start <= |survivors|
        invariant file == old(file)
        invariant total == if Replay(survivors[..start], cutoff) == [] then None else Some(Normal(Replay(survivors[..start], cutoff)))
      {
        var end := if start + chunk < |survivors| then start + chunk else |survivors|;
        var frames := Gather(survivors[start..end], cutoff);
        ReplayPrefix(survivors, start, end, cutoff);
        if frames != [] {
          var merged := KeepLast(StableSort(frames));
          if total.Some? {
            ChunkMerge(total.value, Replay(survivors[..start], cutoff), frames);
            total := Some(KeepLast(StableSort(total.value + merged)));
          } else {
            assert [] + frames == frames;
            NormalMeaning(frames);
            NormalFixes(merged);
            total := Some(KeepLast(StableSort(merged)));
          }
        } else {
          assert Replay(survivors[..start], cutoff) + [] == Replay(survivors[..start], cutoff);
        }
        start := end;
      }
      assert survivors[..start] == survivors;
      NormalEmpty(Replay(survivors, cutoff));
      if total.None? || total.value == [] {
        return Err(NoBars);
      }
      NormalMeaning(Replay(survivors, cutoff));
      NormalFixes(total.value);
      r := Write(total.value, false);
    }
  }

  /** The frames of one chunk, concatenated. */
  method Gather(pages: seq<Page>, cutoff: int) returns (frames: Frame)
    ensures frames == Replay(pages, cutoff)
  {
    frames := [];
    for i := 0 to |pages|
      invariant frames == Replay(pages[..i], cutoff)
    {
      assert pages[..i + 1][..i] == pages[..i];
      frames := frames + Since(pages[i].rows, cutoff);
    }
    assert pages[..|pages|] == pages;
  }
}
