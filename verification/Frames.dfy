/** Minute-indexed frames as xauusd/data.py handles them: stable sorting by the index and keeping
    the last of the rows that share a minute. `Latest` is what a frame means: for each minute, the
    bar given last. */
module Frames {
  import opened Prelude

  datatype Bar = Bar(open: real, high: real, low: real, close: real, volume: real)

  datatype Row = Row(minute: int, bar: Bar)

  type Frame = seq<Row>

  function Insert(sorted: Frame, row: Row): Frame {
    if sorted == [] || sorted[|sorted| - 1].minute <= row.minute then sorted + [row]
    else Insert(sorted[..|sorted| - 1], row) + [sorted[|sorted| - 1]]
  }

  /** `sort_index(kind="stable")`. */
  function StableSort(rows: Frame): Frame {
    if rows == [] then [] else Insert(StableSort(rows[..|rows| - 1]), rows[|rows| - 1])
  }

  function Minutes(rows: Frame): set<int> {
    set i | 0 <= i < |rows| :: rows[i].minute
  }

  /** `x[~x.index.duplicated(keep="last")]`. */
  function KeepLast(rows: Frame): Frame {
    if rows == [] then []
    else if rows[0].minute in Minutes(rows[1..]) then KeepLast(rows[1..])
    else [rows[0]] + KeepLast(rows[1..])
  }

  function Normal(rows: Frame): Frame {
    KeepLast(StableSort(rows))
  }

  /** The bar given last for each minute. */
  function Latest(rows: Frame): map<int, Bar> {
    if rows == [] then map[] else Latest(rows[..|rows| - 1])[rows[|rows| - 1].minute := rows[|rows| - 1].bar]
  }

  ghost predicate Ascending(rows: Frame) {
    forall i, j :: 0 <= i < j < |rows| ==> rows[i].minute <= rows[j].minute
  }

  ghost predicate Canonical(rows: Frame) {
    forall i, j :: 0 <= i < j < |rows| ==> rows[i].minute < rows[j].minute
  }

  // ---------------------------------------------------------------- meaning of concatenation

  lemma {:induction false} LatestConcat(a: Frame, b: Frame)
    ensures Latest(a + b) == Latest(a) + Latest(b)
    decreases |b|
  {
    if b == [] {
      assert a + b == a;
    } else {
      assert (a + b)[..|a + b| - 1] == a + b[..|b| - 1];
      LatestConcat(a, b[..|b| - 1]);
    }
  }

  lemma {:induction false} LatestKeys(rows: Frame)
    ensures Latest(rows).Keys == Minutes(rows)
  {
    if rows != [] {
      var front := rows[..|rows| - 1];
      LatestKeys(front);
      assert Minutes(rows) == Minutes(front) + {rows[|rows| - 1].minute};
    }
  }

  lemma LatestSnoc(rows: Frame, row: Row)
    ensures Latest(rows + [row]) == Latest(rows)[row.minute := row.bar]
  {
    assert (rows + [row])[..|rows|] == rows;
  }

  lemma LatestEmpty(rows: Frame)
    ensures Latest(rows) == map[] <==> rows == []
  {
    if rows != [] {
      assert rows[|rows| - 1].minute in Latest(rows);
    }
  }

  lemma LatestHead(row: Row, rest: Frame)
    ensures Latest([row] + rest) == map[row.minute := row.bar] + Latest(rest)
  {
    LatestConcat([row], rest);
    assert [row][..0] == [];
  }

  // ---------------------------------------------------------------- sorting and deduplicating

  /** A row placed after its equals still speaks last for its minute. */
  lemma {:induction false} InsertMeaning(sorted: Frame, row: Row)
    ensures Latest(Insert(sorted, row)) == Latest(sorted)[row.minute := row.bar]
  {
    hide Latest;
    if sorted == [] || sorted[|sorted| - 1].minute <= row.minute {
      LatestSnoc(sorted, row);
    } else {
      var front, last := sorted[..|sorted| - 1], sorted[|sorted| - 1];
      assert sorted == front + [last];
      InsertMeaning(front, row);
      LatestSnoc(front, last);
      LatestSnoc(Insert(front, row), last);
    }
  }

  lemma AscendingSnoc(front: Frame, row: Row)
    requires Ascending(front) && (front != [] ==> front[|front| - 1].minute <= row.minute)
    ensures Ascending(front + [row])
  {
  }

  lemma AscendingFront(rows: Frame)
    requires Ascending(rows) && rows != []
    ensures Ascending(rows[..|rows| - 1])
    ensures |rows| > 1 ==> rows[..|rows| - 1][|rows| - 2].minute <= rows[|rows| - 1].minute
  {
  }

  lemma {:induction false} InsertShape(sorted: Frame, row: Row)
    requires Ascending(sorted)
    ensures Ascending(Insert(sorted, row)) && Insert(sorted, row) != []
    ensures var last := Insert(sorted, row)[|Insert(sorted, row)| - 1].minute;
            last == row.minute || (sorted != [] && last == sorted[|sorted| - 1].minute)
  {
    hide Ascending;
    if sorted == [] || sorted[|sorted| - 1].minute <= row.minute {
      AscendingSnoc(sorted, row);
    } else {
      var front, last := sorted[..|sorted| - 1], sorted[|sorted| - 1];
      AscendingFront(sorted);
      InsertShape(front, row);
      AscendingSnoc(Insert(front, row), last);
    }
  }

  lemma {:induction false} SortMeaning(rows: Frame)
    ensures Ascending(StableSort(rows)) && Latest(StableSort(rows)) == Latest(rows)
  {
    if rows != [] {
      hide Latest;
      SortMeaning(rows[..|rows| - 1]);
      assert rows == rows[..|rows| - 1] + [rows[|rows| - 1]];
      LatestSnoc(rows[..|rows| - 1], rows[|rows| - 1]);
      InsertShape(StableSort(rows[..|rows| - 1]), rows[|rows| - 1]);
      InsertMeaning(StableSort(rows[..|rows| - 1]), rows[|rows| - 1]);
    }
  }

  lemma {:induction false} KeepLastMeaning(rows: Frame)
    ensures Latest(KeepLast(rows)) == Latest(rows)
  {
    hide Latest;
    if rows != [] {
      var head, rest := rows[0], rows[1..];
      KeepLastMeaning(rest);
      assert rows == [head] + rest;
      LatestHead(head, rest);
      LatestKeys(rest);
      LatestHead(head, KeepLast(rest));
    }
  }

  lemma CanonicalCons(head: Row, rest: Frame)
    requires Canonical(rest) && (forall i :: 0 <= i < |rest| ==> head.minute < rest[i].minute)
    ensures Canonical([head] + rest)
  {
  }

  lemma AscendingRest(rows: Frame)
    requires Ascending(rows) && rows != []
    ensures Ascending(rows[1..]) && forall i :: 0 <= i < |rows[1..]| ==> rows[0].minute <= rows[1..][i].minute
  {
  }

  lemma {:induction false} KeepLastShape(rows: Frame)
    requires Ascending(rows)
    ensures Canonical(KeepLast(rows))
    ensures forall i :: 0 <= i < |KeepLast(rows)| ==> KeepLast(rows)[i].minute in Minutes(rows)
  {
    hide Ascending, Canonical;
    if rows != [] {
      var head, rest := rows[0], rows[1..];
      AscendingRest(rows);
      KeepLastShape(rest);
      var kept := KeepLast(rest);
      MinutesCons(rows);
      if head.minute !in Minutes(rest) {
        CanonicalCons(head, kept);
      }
    } else {
      assert Canonical([]) by { EmptyCanonical(); }
    }
  }

  lemma EmptyCanonical()
    ensures Canonical([])
  {
  }

  lemma MinutesCons(rows: Frame)
    requires rows != []
    ensures Minutes(rows) == {rows[0].minute} + Minutes(rows[1..])
    ensures forall m :: m in Minutes(rows[1..]) ==> exists i :: 0 <= i < |rows[1..]| && rows[1..][i].minute == m
  {
    assert forall i :: 0 < i < |rows| ==> rows[i] == rows[1..][i - 1];
    forall m | m in Minutes(rows) ensures m in {rows[0].minute} + Minutes(rows[1..]) {
      var i :| 0 <= i < |rows| && rows[i].minute == m;
      if i > 0 {
        assert rows[1..][i - 1].minute == m;
      }
    }
  }

  lemma NormalMeaning(rows: Frame)
    ensures Canonical(Normal(rows)) && Latest(Normal(rows)) == Latest(rows)
  {
    SortMeaning(rows);
    KeepLastMeaning(StableSort(rows));
    KeepLastShape(StableSort(rows));
  }

  /** A canonical frame is determined by what it means. */
  lemma {:induction false} CanonicalUnique(a: Frame, b: Frame)
    requires Canonical(a) && Canonical(b) && Latest(a) == Latest(b)
    ensures a == b
  {
    hide Latest;
    LatestEmpty(a);
    LatestEmpty(b);
    if a != [] {
      LatestFront(a);
      LatestFront(b);
      CanonicalUnique(a[..|a| - 1], b[..|b| - 1]);
      assert a == a[..|a| - 1] + [a[|a| - 1]] && b == b[..|b| - 1] + [b[|b| - 1]];
    }
  }

  /** The last row of a canonical frame has its greatest minute. */
  lemma LatestFront(a: Frame)
    requires a != [] && Canonical(a)
    ensures var last := a[|a| - 1];
            && last.minute in Latest(a) && Latest(a)[last.minute] == last.bar
            && (forall m :: m in Latest(a) ==> m <= last.minute)
            && Latest(a[..|a| - 1]) == Latest(a) - {last.minute}
  {
    hide Latest, Minutes, Canonical;
    var front, last := a[..|a| - 1], a[|a| - 1];
    LatestKeys(a);
    LatestKeys(front);
    assert a == front + [last];
    LatestSnoc(front, last);
    LastMinuteIsGreatest(a);
    RemoveAdded(Latest(front), last.minute, last.bar);
  }

  lemma RemoveAdded(m: map<int, Bar>, k: int, v: Bar)
    requires k !in m
    ensures m[k := v] - {k} == m
  {
  }

  lemma LastMinuteIsGreatest(a: Frame)
    requires a != [] && Canonical(a)
    ensures a[|a| - 1].minute !in Minutes(a[..|a| - 1])
    ensures forall m :: m in Minutes(a) ==> m <= a[|a| - 1].minute
  {
  }

  /** Normalising depends only on meaning, and changes nothing the second time. */
  lemma NormalByMeaning(a: Frame, b: Frame)
    requires Latest(a) == Latest(b)
    ensures Normal(a) == Normal(b)
  {
    NormalMeaning(a);
    NormalMeaning(b);
    CanonicalUnique(Normal(a), Normal(b));
  }

  lemma NormalFixes(a: Frame)
    requires Canonical(a)
    ensures Normal(a) == a
  {
    NormalMeaning(a);
    CanonicalUnique(Normal(a), a);
  }

  // ---------------------------------------------------------------- restricting to a cutoff

  function Since(rows: Frame, cutoff: int): Frame {
    if rows == [] then [] else
    var last := rows[|rows| - 1];
    Since(rows[..|rows| - 1], cutoff) + if last.minute * 60 >= cutoff then [last] else []
  }

  function SinceMap(m: map<int, Bar>, cutoff: int): map<int, Bar> {
    map k | k in m && k * 60 >= cutoff :: m[k]
  }

  lemma {:induction false} SinceMeaning(rows: Frame, cutoff: int)
    ensures Latest(Since(rows, cutoff)) == SinceMap(Latest(rows), cutoff)
  {
    if rows != [] {
      var front, last := rows[..|rows| - 1], rows[|rows| - 1];
      SinceMeaning(front, cutoff);
      var kept := Since(front, cutoff);
      if last.minute * 60 >= cutoff {
        assert (kept + [last])[..|kept|] == kept;
      } else {
        assert kept + [] == kept;
      }
    }
  }
}
