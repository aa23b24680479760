/** The bounded-memory chart resampler of xauusd/lab_market.py (`chart_bars`).
    Minutes are whole numbers; a row and a bucket have the same five columns. */
module ChartBars {
  import opened Prelude

  datatype Bar = Bar(start: int, open: real, high: real, low: real, close: real, volume: real)

  datatype Timeframe = M1 | M5 | M15 | H1 | H4 | D1
  {
    function Minutes(): (m: int)
      ensures m >= 1
    {
      match this
      case M1 => 1 case M5 => 5 case M15 => 15 case H1 => 60 case H4 => 240 case D1 => 1440
    }
  }

  function MaxR(a: real, b: real): real { if a < b then b else a }

  function MinR(a: real, b: real): real { if b < a then b else a }

  /** first, max, min, last and sum of two consecutive parts of one bucket. */
  function Merge(a: Bar, b: Bar): Bar {
    Bar(a.start, a.open, MaxR(a.high, b.high), MinR(a.low, b.low), b.close, a.volume + b.volume)
  }

  function Add(g: seq<Bar>, b: Bar): seq<Bar> {
    if g != [] && g[|g| - 1].start == b.start then g[..|g| - 1] + [Merge(g[|g| - 1], b)] else g + [b]
  }

  /** `groupby(level=0).agg(AGG)` on rows whose labels are in order. */
  function Group(bs: seq<Bar>): seq<Bar> {
    if bs == [] then [] else Add(Group(bs[..|bs| - 1]), bs[|bs| - 1])
  }

  function BucketStart(minute: int, interval: int): int
    requires interval >= 1
  {
    minute - minute % interval
  }

  function Relabel(rows: seq<Bar>, interval: int): (r: seq<Bar>)
    requires interval >= 1
    ensures |r| == |rows|
    ensures forall i :: 0 <= i < |rows| ==> r[i] == rows[i].(start := BucketStart(rows[i].start, interval))
  {
    if rows == [] then [] else
    var last := rows[|rows| - 1];
    Relabel(rows[..|rows| - 1], interval) + [last.(start := BucketStart(last.start, interval))]
  }

  /** `resample(rule).agg(AGG).dropna()`: one bucket for each interval that holds a row. */
  function Resample(rows: seq<Bar>, interval: int): seq<Bar>
    requires interval >= 1
  {
    Group(Relabel(rows, interval))
  }

  function Closed(rows: seq<Bar>, now: int): seq<Bar> {
    if rows == [] then [] else
    var last := rows[|rows| - 1];
    Closed(rows[..|rows| - 1], now) + if last.start + 1 <= now then [last] else []
  }

  function Complete(bs: seq<Bar>, interval: int, now: int): seq<Bar> {
    if bs == [] then [] else
    var last := bs[|bs| - 1];
    Complete(bs[..|bs| - 1], interval, now) + if last.start + interval <= now then [last] else []
  }

  function Flatten(groups: seq<seq<Bar>>): seq<Bar> {
    if groups == [] then [] else Flatten(groups[..|groups| - 1]) + groups[|groups| - 1]
  }

  ghost predicate Increasing(rows: seq<Bar>) {
    forall i, j :: 0 <= i < j < |rows| ==> rows[i].start < rows[j].start
  }

  /** What the chart promises: the last `limit` complete buckets of the whole closed history. */
  function Expected(rows: seq<Bar>, tf: Timeframe, limit: nat, now: int): seq<Bar> {
    Tail(Complete(Resample(Closed(rows, now), tf.Minutes()), tf.Minutes(), now), limit)
  }

  function Needed(tf: Timeframe, limit: nat): nat { (limit + 2) * tf.Minutes() }

  /** Rows of the trailing row groups, taken until they number at least `needed`. */
  function FirstGroup(groups: seq<seq<Bar>>, needed: nat): (first: nat)
    ensures first <= |groups|
    ensures first == 0 || |Flatten(groups[first..])| >= needed
    decreases |groups|
  {
    if groups == [] then 0 else
    TrailingFrom(groups, needed, |groups| - 1)
  }

  function TrailingFrom(groups: seq<seq<Bar>>, needed: nat, i: nat): (first: nat)
    requires i < |groups|
    ensures first <= i
    ensures first == 0 || |Flatten(groups[first..])| >= needed
    decreases i
  {
    if |Flatten(groups[i..])| >= needed || i == 0 then i else TrailingFrom(groups, needed, i - 1)
  }

  // ---------------------------------------------------------------- grouping is a stream operation

  function Join(x: seq<Bar>, y: seq<Bar>): seq<Bar> {
    if x != [] && y != [] && x[|x| - 1].start == y[0].start
    then x[..|x| - 1] + [Merge(x[|x| - 1], y[0])] + y[1..]
    else x + y
  }

  ghost predicate Separated(bs: seq<Bar>) {
    forall i :: 0 <= i < |bs| - 1 ==> bs[i].start != bs[i + 1].start
  }

  lemma {:induction false} GroupSeparates(bs: seq<Bar>)
    ensures Separated(Group(bs))
    ensures bs == [] <==> Group(bs) == []
    ensures bs != [] ==> Group(bs)[|Group(bs)| - 1].start == bs[|bs| - 1].start && Group(bs)[0].start == bs[0].start
  {
    if bs != [] {
      GroupSeparates(bs[..|bs| - 1]);
    }
  }

  lemma {:induction false} GroupFixes(bs: seq<Bar>)
    requires Separated(bs)
    ensures Group(bs) == bs
  {
    if bs != [] {
      GroupFixes(bs[..|bs| - 1]);
      assert bs == bs[..|bs| - 1] + [bs[|bs| - 1]];
    }
  }

  lemma AddToJoin(x: seq<Bar>, y: seq<Bar>, b: Bar)
    requires y != []
    ensures Add(Join(x, y), b) == Join(x, Add(y, b))
  {
    var j := Join(x, y);
    if x != [] && x[|x| - 1].start == y[0].start {
      if |y| == 1 {
        assert j[..|j| - 1] == x[..|x| - 1];
        assert Add(y, b) == if y[0].start == b.start then [Merge(y[0], b)] else [y[0], b];
      } else {
        assert j[|j| - 1] == y[|y| - 1];
        assert Add(y, b)[0] == y[0];
        if y[|y| - 1].start == b.start {
          assert j[..|j| - 1] == x[..|x| - 1] + [Merge(x[|x| - 1], y[0])] + y[1..|y| - 1];
          assert Add(y, b)[1..] == y[1..|y| - 1] + [Merge(y[|y| - 1], b)];
        } else {
          assert Add(y, b)[1..] == y[1..] + [b];
        }
      }
    } else {
      assert j == x + y;
      assert j[..|j| - 1] == x + y[..|y| - 1];
      assert Add(y, b)[0].start == y[0].start;
    }
  }

  lemma AddIsJoin(x: seq<Bar>, b: Bar)
    ensures Add(x, b) == Join(x, [b])
  {
    if x != [] && x[|x| - 1].start == b.start {
      assert [b][1..] == [];
      assert x[..|x| - 1] + [Merge(x[|x| - 1], b)] + [] == x[..|x| - 1] + [Merge(x[|x| - 1], b)];
    }
  }

  /** Grouping a concatenation is grouping the parts and merging across the seam. */
  lemma {:induction false} GroupConcat(a: seq<Bar>, b: seq<Bar>)
    ensures Group(a + b) == Join(Group(a), Group(b))
    decreases |b|
  {
    if b == [] {
      assert a + b == a;
    } else {
      GroupConcatStep(a, b);
    }
  }

  lemma GroupConcatStep(a: seq<Bar>, b: seq<Bar>)
    requires b != []
    ensures Group(a + b) == Join(Group(a), Group(b))
    decreases |b|, 0
  {
    hide Join, Add;
    var b', l := b[..|b| - 1], b[|b| - 1];
    assert (a + b)[..|a + b| - 1] == a + b' && (a + b)[|a + b| - 1] == l;
    if b' == [] {
      assert a + b' == a;
      AddIsJoin(Group(a), l);
      AddIsJoin([], l);
      assert Group(b') == [] && Join([], [l]) == [l] by { JoinEmpty(l); }
      assert Group(b) == [l];
    } else {
      GroupConcat(a, b');
      GroupSeparates(b');
      AddToJoin(Group(a), Group(b'), l);
    }
  }

  lemma JoinEmpty(b: Bar)
    ensures Join([], [b]) == [b]
  {
  }

  ghost predicate Suffix<T>(s: seq<T>, t: seq<T>) {
    |s| <= |t| && s == t[|t| - |s|..]
  }

  lemma TailOfSuffix<T>(s: seq<T>, t: seq<T>, n: nat)
    requires Suffix(s, t) && (|s| >= n || s == t)
    ensures Tail(s, n) == Tail(t, n)
  {
  }

  lemma JoinTail(x: seq<Bar>, y: seq<Bar>, n: nat)
    requires n >= 1
    ensures Suffix(Join(Tail(x, n), y), Join(x, y))
    ensures Tail(Join(Tail(x, n), y), n) == Tail(Join(x, y), n)
  {
    if |x| > n {
      var cut := |x| - n;
      assert x == x[..cut] + x[cut..];
      JoinKeepsHead(x[..cut], x[cut..], y);
      assert Join(x, y)[cut..] == Join(Tail(x, n), y);
      TailOfSuffix(Join(Tail(x, n), y), Join(x, y), n);
    }
  }

  lemma JoinKeepsHead(h: seq<Bar>, x: seq<Bar>, y: seq<Bar>)
    requires x != []
    ensures Join(h + x, y) == h + Join(x, y) && |Join(x, y)| >= |x|
  {
    if y != [] && x[|x| - 1].start == y[0].start {
      assert (h + x)[..|h + x| - 1] == h + x[..|x| - 1];
    }
  }

  /** Truncating the running view to its last `n` buckets before merging the next part loses
      nothing from the last `n` buckets of the result. */
  lemma TruncationIsHarmless(rows: seq<Bar>, part: seq<Bar>, interval: int, n: nat)
    requires interval >= 1 && n >= 1
    ensures Tail(Group(Tail(Resample(rows, interval), n) + Resample(part, interval)), n) == Tail(Resample(rows + part, interval), n)
  {
    var x, y := Resample(rows, interval), Resample(part, interval);
    RelabelConcat(rows, part, interval);
    GroupConcat(Relabel(rows, interval), Relabel(part, interval));
    GroupSeparates(Relabel(rows, interval));
    GroupSeparates(Relabel(part, interval));
    var x' := Tail(x, n);
    assert Separated(x');
    GroupConcat(x', y);
    GroupFixes(x');
    GroupFixes(y);
    JoinTail(x, y, n);
  }

  lemma {:induction false} RelabelConcat(a: seq<Bar>, b: seq<Bar>, interval: int)
    requires interval >= 1
    ensures Relabel(a + b, interval) == Relabel(a, interval) + Relabel(b, interval)
  {
  }

  lemma {:induction false} ClosedConcat(a: seq<Bar>, b: seq<Bar>, now: int)
    ensures Closed(a + b, now) == Closed(a, now) + Closed(b, now)
    decreases |b|
  {
    if b == [] {
      assert a + b == a;
    } else {
      assert (a + b)[..|a + b| - 1] == a + b[..|b| - 1];
      ClosedConcat(a, b[..|b| - 1], now);
    }
  }

  lemma {:induction false} FlattenConcat(a: seq<seq<Bar>>, b: seq<seq<Bar>>)
    ensures Flatten(a + b) == Flatten(a) + Flatten(b)
    decreases |b|
  {
    if b == [] {
      assert a + b == a;
    } else {
      assert (a + b)[..|a + b| - 1] == a + b[..|b| - 1];
      FlattenConcat(a, b[..|b| - 1]);
    }
  }

  // ---------------------------------------------------------------- the shape of a resample

  ghost predicate Aligned(bs: seq<Bar>, interval: int)
    requires interval >= 1
  {
    && Increasing(bs)
    && forall i :: 0 <= i < |bs| ==> bs[i].start % interval == 0
  }

  lemma PositiveMultiple(k: int, n: int)
    requires n >= 1 && k * n > 0
    ensures k * n >= n
  {
  }

  lemma MultipleMod(q: int, n: int)
    requires n >= 1
    ensures (q * n) % n == 0
  {
    var r, d := (q * n) % n, (q * n) / n;
    assert (q - d) * n == r;
    if r > 0 {
      PositiveMultiple(q - d, n);
    }
  }

  lemma BucketStartFacts(m: int, interval: int)
    requires interval >= 1
    ensures BucketStart(m, interval) <= m < BucketStart(m, interval) + interval
    ensures BucketStart(m, interval) % interval == 0
  {
    assert m - m % interval == (m / interval) * interval;
    MultipleMod(m / interval, interval);
  }

  lemma AlignedGap(a: int, b: int, interval: int)
    requires interval >= 1 && a % interval == 0 && b % interval == 0 && a < b
    ensures a + interval <= b
  {
    var p, q := a / interval, b / interval;
    assert a == p * interval && b == q * interval;
    var k := q - p;
    assert k * interval == b - a;
    PositiveMultiple(k, interval);
  }

  /** Aligned increasing buckets of which the last holds `row`, too few to hold more than `n` rows. */
  ghost predicate Shaped(r: seq<Bar>, interval: int, row: int, n: nat)
    requires interval >= 1
  {
    && Aligned(r, interval) && r != [] && r[|r| - 1].start == BucketStart(row, interval)
    && n <= interval * (|r| - 1) + (row - r[|r| - 1].start + 1)
  }

  lemma AddShaped(g: seq<Bar>, row: Bar, interval: int, previous: int, n: nat)
    requires interval >= 1 && Shaped(g, interval, previous, n) && previous < row.start
    ensures Shaped(Add(g, row.(start := BucketStart(row.start, interval))), interval, row.start, n + 1)
  {
    BucketStartFacts(row.start, interval);
    BucketStartFacts(previous, interval);
    hide BucketStart;
    var b := row.(start := BucketStart(row.start, interval));
    if g[|g| - 1].start != b.start {
      if b.start < g[|g| - 1].start {
        AlignedGap(b.start, g[|g| - 1].start, interval);
      }
      assert interval * |g| == interval * (|g| - 1) + interval;
    }
  }

  lemma ShapedBound(r: seq<Bar>, interval: int, row: int, n: nat)
    requires interval >= 1 && Shaped(r, interval, row, n)
    ensures n <= interval * |r|
  {
    BucketStartFacts(row, interval);
    assert interval * |r| == interval * (|r| - 1) + interval;
  }

  /** Buckets are aligned and increasing, the last one holds the last row, and a bucket holds at
      most `interval` rows: `k` buckets never account for more than `k * interval` rows. */
  lemma {:induction false} ResampleShape(rows: seq<Bar>, interval: int)
    requires interval >= 1 && Increasing(rows)
    ensures var r := Resample(rows, interval);
            && Aligned(r, interval)
            && (rows == [] <==> r == [])
            && (rows != [] ==> Shaped(r, interval, rows[|rows| - 1].start, |rows|))
            && |rows| <= interval * |r|
  {
    if rows != [] {
      var front, row := rows[..|rows| - 1], rows[|rows| - 1];
      ResampleShape(front, interval);
      ResampleStep(rows, interval);
      var r := Resample(rows, interval);
      BucketStartFacts(row.start, interval);
      if front == [] {
        assert Resample(front, interval) == [];
        assert r == [row.(start := BucketStart(row.start, interval))];
      } else {
        hide Resample;
        AddShaped(Resample(front, interval), row, interval, front[|front| - 1].start, |front|);
      }
      ShapedBound(r, interval, row.start, |rows|);
    }
  }

  lemma {:induction false} ClosedIsPrefix(rows: seq<Bar>, now: int)
    requires Increasing(rows)
    ensures var k := |Closed(rows, now)|; k <= |rows| && Closed(rows, now) == rows[..k]
    ensures forall i :: 0 <= i < |rows| ==> (rows[i].start < now <==> i < |Closed(rows, now)|)
  {
    if rows != [] {
      var front := rows[..|rows| - 1];
      ClosedIsPrefix(front, now);
      var k := |Closed(front, now)|;
      if rows[|rows| - 1].start < now {
        assert forall i :: 0 <= i < |front| ==> front[i].start < now;
        assert k == |front|;
      }
      forall i | 0 <= i < |rows| ensures rows[i].start < now <==> i < |Closed(rows, now)| {
        assert i < |front| ==> rows[i] == front[i];
      }
    }
  }

  /** At most the last of the buckets that closed rows fill is still forming. */
  lemma {:induction false} CompleteDropsAtMostLast(bs: seq<Bar>, interval: int, now: int)
    requires interval >= 1 && Aligned(bs, interval)
    requires bs != [] ==> bs[|bs| - 1].start < now
    ensures Complete(bs, interval, now) == if bs != [] && bs[|bs| - 1].start + interval > now then bs[..|bs| - 1] else bs
  {
    if bs != [] {
      var front := bs[..|bs| - 1];
      if front != [] {
        AlignedGap(front[|front| - 1].start, bs[|bs| - 1].start, interval);
      }
      CompleteDropsAtMostLast(front, interval, now);
      assert bs == front + [bs[|bs| - 1]];
    }
  }

  // ---------------------------------------------------------------- what one bucket holds

  function Members(rows: seq<Bar>, interval: int, start: int): seq<Bar>
    requires interval >= 1
  {
    if rows == [] then [] else
    var last := rows[|rows| - 1];
    Members(rows[..|rows| - 1], interval, start) + if BucketStart(last.start, interval) == start then [last] else []
  }

  function Highest(rows: seq<Bar>): real
    requires rows != []
  {
    if |rows| == 1 then rows[0].high else MaxR(Highest(rows[..|rows| - 1]), rows[|rows| - 1].high)
  }

  function Lowest(rows: seq<Bar>): real
    requires rows != []
  {
    if |rows| == 1 then rows[0].low else MinR(Lowest(rows[..|rows| - 1]), rows[|rows| - 1].low)
  }

  function Volume(rows: seq<Bar>): real {
    if rows == [] then 0.0 else Volume(rows[..|rows| - 1]) + rows[|rows| - 1].volume
  }

  /** The highest high is the high of some row and no row's is higher; so for the lowest low. */
  lemma {:induction false} HighestMeaning(rows: seq<Bar>)
    requires rows != []
    ensures exists i :: 0 <= i < |rows| && rows[i].high == Highest(rows)
    ensures forall i :: 0 <= i < |rows| ==> rows[i].high <= Highest(rows)
    ensures exists i :: 0 <= i < |rows| && rows[i].low == Lowest(rows)
    ensures forall i :: 0 <= i < |rows| ==> Lowest(rows) <= rows[i].low
  {
    if |rows| > 1 {
      var front := rows[..|rows| - 1];
      HighestMeaning(front);
      var i :| 0 <= i < |front| && front[i].high == Highest(front);
      var j :| 0 <= j < |front| && front[j].low == Lowest(front);
      assert rows[i] == front[i] && rows[j] == front[j];
      assert forall k :: 0 <= k < |front| ==> rows[k] == front[k];
      var k := |front|;
      assert rows[k].high == Highest(rows) || rows[i].high == Highest(rows);
      assert rows[k].low == Lowest(rows) || rows[j].low == Lowest(rows);
    } else {
      assert rows[0].high == Highest(rows) && rows[0].low == Lowest(rows);
    }
  }

  ghost predicate Summarises(b: Bar, rows: seq<Bar>) {
    rows != [] && b.open == rows[0].open && b.high == Highest(rows) && b.low == Lowest(rows)
    && b.close == rows[|rows| - 1].close && b.volume == Volume(rows)
  }

  /** Merging one more row into a bucket that summarises some rows summarises them all. */
  lemma SummaryGains(b: Bar, rows: seq<Bar>, row: Bar)
    requires Summarises(b, rows)
    ensures Summarises(Merge(b, row), rows + [row])
  {
    assert (rows + [row])[..|rows|] == rows;
  }

  lemma SummaryStarts(row: Bar, start: int)
    ensures Summarises(row.(start := start), [row])
  {
    assert [row][..0] == [];
  }

  /** The buckets before the last take no part in adding one row; the last gains exactly it. */
  lemma LastBucketGains(front: seq<Bar>, row: Bar, interval: int)
    requires interval >= 1 && Increasing(front + [row])
    requires forall k :: 0 <= k < |Resample(front, interval)| ==>
               Summarises(Resample(front, interval)[k], Members(front, interval, Resample(front, interval)[k].start))
    requires Members(front, interval, BucketStart(row.start, interval)) != [] ==>
               Resample(front, interval) != [] && Resample(front, interval)[|Resample(front, interval)| - 1].start == BucketStart(row.start, interval)
    ensures var r := Add(Resample(front, interval), row.(start := BucketStart(row.start, interval)));
            Summarises(r[|r| - 1], Members(front + [row], interval, r[|r| - 1].start))
  {
    hide Resample, BucketStart, Relabel, Merge, Increasing;
    var g, start := Resample(front, interval), BucketStart(row.start, interval);
    var before := Members(front, interval, start);
    assert Members(front + [row], interval, start) == before + [row] by { assert (front + [row])[..|front|] == front; }
    SummariesNeedRows();
    hide Summarises, Members;
    MergeKeepsStart(if g != [] then g[|g| - 1] else row, row);
    if g != [] && g[|g| - 1].start == start {
      SummaryGains(g[|g| - 1], before, row.(start := start));
      SameSummary(Merge(g[|g| - 1], row.(start := start)), before, row, start);
    } else {
      SummaryStarts(row, start);
      assert before + [row] == [row];
    }
  }

  lemma SummariesNeedRows()
    ensures forall b, rows :: Summarises(b, rows) ==> rows != []
  {
  }

  lemma MergeKeepsStart(a: Bar, b: Bar)
    ensures forall c: Bar :: Merge(a, c).start == a.start
  {
  }

  /** A summary does not look at the labels of the rows. */
  lemma SameSummary(b: Bar, rows: seq<Bar>, row: Bar, start: int)
    ensures Summarises(b, rows + [row.(start := start)]) ==> Summarises(b, rows + [row])
  {
    var x, y := rows + [row.(start := start)], rows + [row];
    assert x[..|rows|] == rows && y[..|rows|] == rows;
  }

  /** Every bucket is the first open, highest high, lowest low, last close and total volume of
      exactly the rows of its interval, and every row's interval has a bucket. */
  ghost predicate Faithful(r: seq<Bar>, rows: seq<Bar>, interval: int)
    requires interval >= 1
  {
    && (forall k :: 0 <= k < |r| ==> Summarises(r[k], Members(rows, interval, r[k].start)))
    && (forall i :: 0 <= i < |rows| ==> HasBucket(r, BucketStart(rows[i].start, interval)))
  }

  lemma FaithfulStep(front: seq<Bar>, row: Bar, interval: int, g: seq<Bar>, r: seq<Bar>)
    requires interval >= 1 && Increasing(front + [row]) && Increasing(r) && Faithful(g, front, interval)
    requires g == Resample(front, interval) && r == Add(g, row.(start := BucketStart(row.start, interval)))
    ensures Faithful(r, front + [row], interval)
  {
    hide Resample, Summarises, BucketStart, Merge, Add, Members, Relabel;
    var start := BucketStart(row.start, interval);
    if Members(front, interval, start) != [] {
      var i := MembersPresent(front, interval, start);
      LabelIsLast(g, row.(start := start), r);
    }
    LastBucketGains(front, row, interval);
    OtherBucketsStay(front, row, interval, g, r);
    EveryRowHasBucket(front, row, interval, g, r);
  }

  /** The reference meaning of a resample. */
  lemma {:induction false} ResampleMeaning(rows: seq<Bar>, interval: int)
    requires interval >= 1 && Increasing(rows)
    ensures Faithful(Resample(rows, interval), rows, interval)
  {
    if rows != [] {
      var front, row := rows[..|rows| - 1], rows[|rows| - 1];
      assert rows == front + [row];
      ResampleMeaning(front, interval);
      ResampleShape(rows, interval);
      ResampleStep(rows, interval);
      FaithfulStep(front, row, interval, Resample(front, interval), Resample(rows, interval));
    }
  }

  lemma ResampleStep(rows: seq<Bar>, interval: int)
    requires interval >= 1 && rows != []
    ensures var row := rows[|rows| - 1];
            Resample(rows, interval) == Add(Resample(rows[..|rows| - 1], interval), row.(start := BucketStart(row.start, interval)))
  {
    assert Relabel(rows, interval)[..|rows| - 1] == Relabel(rows[..|rows| - 1], interval);
  }

  /** A label added in order that is already present is the last one. */
  lemma LabelIsLast(g: seq<Bar>, b: Bar, r: seq<Bar>)
    requires r == Add(g, b) && Increasing(r) && HasBucket(g, b.start)
    ensures g != [] && g[|g| - 1].start == b.start
  {
    var k :| 0 <= k < |g| && g[k].start == b.start;
    AddLabels(g, b);
  }

  lemma OtherBucketsStay(front: seq<Bar>, row: Bar, interval: int, g: seq<Bar>, r: seq<Bar>)
    requires interval >= 1 && Increasing(r) && r == Add(g, row.(start := BucketStart(row.start, interval)))
    requires forall k :: 0 <= k < |g| ==> Summarises(g[k], Members(front, interval, g[k].start))
    requires Summarises(r[|r| - 1], Members(front + [row], interval, r[|r| - 1].start))
    ensures forall k :: 0 <= k < |r| ==> Summarises(r[k], Members(front + [row], interval, r[k].start))
  {
    hide Summarises, BucketStart, Merge, Members;
    AddLabels(g, row.(start := BucketStart(row.start, interval)));
    forall k | 0 <= k < |r| ensures Summarises(r[k], Members(front + [row], interval, r[k].start)) {
      if k < |r| - 1 {
        assert r[k] == g[k] && r[k].start < r[|r| - 1].start;
        StrangerIsNoMember(front, row, interval, r[k].start);
      }
    }
  }

  lemma StrangerIsNoMember(front: seq<Bar>, row: Bar, interval: int, start: int)
    requires interval >= 1 && BucketStart(row.start, interval) != start
    ensures Members(front + [row], interval, start) == Members(front, interval, start)
  {
    assert (front + [row])[..|front|] == front;
  }

  lemma EveryRowHasBucket(front: seq<Bar>, row: Bar, interval: int, g: seq<Bar>, r: seq<Bar>)
    requires interval >= 1 && r == Add(g, row.(start := BucketStart(row.start, interval)))
    requires forall i :: 0 <= i < |front| ==> HasBucket(g, BucketStart(front[i].start, interval))
    ensures forall i :: 0 <= i < |front + [row]| ==> HasBucket(r, BucketStart((front + [row])[i].start, interval))
  {
    hide BucketStart, Merge, Add;
    AddLabels(g, row.(start := BucketStart(row.start, interval)));
    forall i | 0 <= i < |front + [row]| ensures HasBucket(r, BucketStart((front + [row])[i].start, interval)) {
      if i < |front| {
        var k :| 0 <= k < |g| && g[k].start == BucketStart(front[i].start, interval);
        assert r[k].start == g[k].start;
      } else {
        assert r[|r| - 1].start == BucketStart(row.start, interval);
      }
    }
  }

  lemma AddLabels(g: seq<Bar>, b: Bar)
    ensures |Add(g, b)| >= |g| && forall k :: 0 <= k < |g| ==> Add(g, b)[k].start == g[k].start
    ensures Add(g, b) != [] && Add(g, b)[|Add(g, b)| - 1].start == b.start
  {
  }

  ghost predicate HasBucket(bs: seq<Bar>, start: int) {
    exists k :: 0 <= k < |bs| && bs[k].start == start
  }

  /** An interval with members has a bucket, so one appended for a new interval starts empty. */
  lemma {:induction false} MembersPresent(rows: seq<Bar>, interval: int, start: int) returns (i: nat)
    requires interval >= 1 && Members(rows, interval, start) != []
    ensures i < |rows| && BucketStart(rows[i].start, interval) == start
  {
    i := |rows| - 1;
    if BucketStart(rows[i].start, interval) != start {
      i := MembersPresent(rows[..|rows| - 1], interval, start);
    }
  }

  // ---------------------------------------------------------------- the trailing row groups suffice

  /** The rows read suffice when every group was read or enough of the rows read are closed. */
  ghost predicate EnoughRead(groups: seq<seq<Bar>>, tf: Timeframe, limit: nat, now: int) {
    var first := FirstGroup(groups, Needed(tf, limit));
    first == 0 || |Closed(Flatten(groups[first..]), now)| >= Needed(tf, limit)
  }

  /** A file with no row newer than the last closed minute always has enough. */
  lemma NoUnclosedRowsSuffices(groups: seq<seq<Bar>>, tf: Timeframe, limit: nat, now: int)
    requires Increasing(Flatten(groups))
    requires Flatten(groups) != [] ==> Flatten(groups)[|Flatten(groups)| - 1].start + 1 <= now
    ensures EnoughRead(groups, tf, limit, now)
  {
    hide Flatten, Closed, FirstGroup;
    var first := FirstGroup(groups, Needed(tf, limit));
    assert groups == groups[..first] + groups[first..];
    FlattenConcat(groups[..first], groups[first..]);
    SuffixClosed(Flatten(groups[..first]), Flatten(groups[first..]), now);
  }

  lemma SuffixClosed(a: seq<Bar>, b: seq<Bar>, now: int)
    requires Increasing(a + b)
    requires a + b != [] ==> (a + b)[|a + b| - 1].start + 1 <= now
    ensures Closed(b, now) == b
  {
    PrefixIncreasing(a + b, a, b);
    ClosedIsPrefix(b, now);
    if b != [] {
      assert b[|b| - 1] == (a + b)[|a + b| - 1];
      assert b[|b| - 1].start < now;
    }
  }

  lemma PrefixIncreasing(rows: seq<Bar>, a: seq<Bar>, b: seq<Bar>)
    requires Increasing(rows) && rows == a + b
    ensures Increasing(a) && Increasing(b)
  {
    assert forall i :: 0 <= i < |a| ==> a[i] == rows[i];
    assert forall i :: 0 <= i < |b| ==> b[i] == rows[|a| + i];
  }

  /** The newest buckets of all rows, complete or forming, are those of the newest rows. */
  lemma NewestBucketsAgree(older: seq<Bar>, newer: seq<Bar>, m: int, n: nat)
    requires m >= 1 && n >= 1 && Increasing(older + newer) && |newer| >= n * m
    ensures |Resample(newer, m)| >= n && |Resample(older + newer, m)| >= n
    ensures Tail(Resample(older + newer, m), n - 1) == Tail(Tail(Resample(newer, m), n), n - 1)
  {
    hide Group, Relabel, Join;
    PrefixIncreasing(older + newer, older, newer);
    ResampleShape(newer, m);
    EnoughBuckets(|newer|, |Resample(newer, m)|, n, m);
    RelabelConcat(older, newer, m);
    GroupConcat(Relabel(older, m), Relabel(newer, m));
    JoinSharesTail(Resample(older, m), Resample(newer, m), n);
  }

  /** `limit + 2` buckets of the newest rows determine the last `limit` complete buckets of all of
      them: the oldest of those buckets may be partial and the newest may still be forming. */
  lemma NewestRowsSuffice(older: seq<Bar>, newer: seq<Bar>, tf: Timeframe, limit: nat, now: int)
    requires Increasing(older + newer) && forall i :: 0 <= i < |older + newer| ==> (older + newer)[i].start < now
    requires older == [] || |newer| >= Needed(tf, limit)
    ensures var m := tf.Minutes();
            Tail(Complete(Tail(Resample(newer, m), limit + 2), m, now), limit) == Tail(Complete(Resample(older + newer, m), m, now), limit)
  {
    hide Resample, Complete, Timeframe.Minutes, Increasing;
    var m, n := tf.Minutes(), limit + 2;
    NewestLabels(older, newer, m, n, now);
    if older == [] {
      assert older + newer == newer;
      SameCutOfTail(Resample(newer, m), m, now, limit, n);
    } else {
      NewestBucketsAgree(older, newer, m, n);
      SameCutOfNewest(Tail(Resample(newer, m), n), Resample(older + newer, m), m, now, limit, n);
    }
  }

  lemma SameCutOfTail(w: seq<Bar>, m: int, now: int, limit: nat, n: nat)
    requires m >= 1 && n == limit + 2 && Aligned(Tail(w, n), m) && Aligned(w, m) && (w != [] ==> w[|w| - 1].start < now)
    ensures Tail(Complete(Tail(w, n), m, now), limit) == Tail(Complete(w, m, now), limit)
  {
    if w != [] {
      var v := Tail(w, n);
      CompleteDropsAtMostLast(v, m, now);
      CompleteDropsAtMostLast(w, m, now);
      CutEqualTails(v, w, limit, |v|, w[|w| - 1].start + m > now);
    }
  }

  lemma SameCutOfNewest(v: seq<Bar>, w: seq<Bar>, m: int, now: int, limit: nat, n: nat)
    requires m >= 1 && n == limit + 2 && |v| == n && |w| >= n && Aligned(v, m) && Aligned(w, m)
    requires v[|v| - 1].start == w[|w| - 1].start < now && Tail(w, n - 1) == Tail(v, n - 1)
    ensures Tail(Complete(v, m, now), limit) == Tail(Complete(w, m, now), limit)
  {
    CompleteDropsAtMostLast(v, m, now);
    CompleteDropsAtMostLast(w, m, now);
    CutEqualTails(v, w, limit, n - 1, w[|w| - 1].start + m > now);
  }

  lemma NewestLabels(older: seq<Bar>, newer: seq<Bar>, m: int, n: nat, now: int)
    requires m >= 1 && n >= 1 && Increasing(older + newer)
    requires forall i :: 0 <= i < |older + newer| ==> (older + newer)[i].start < now
    requires older == [] || newer != []
    ensures var v, w := Tail(Resample(newer, m), n), Resample(older + newer, m);
            Aligned(v, m) && Aligned(w, m) && (v == [] <==> w == []) && (v != [] ==> v[|v| - 1].start == w[|w| - 1].start < now)
  {
    hide Resample;
    var all := older + newer;
    PrefixIncreasing(all, older, newer);
    ResampleShape(all, m);
    ResampleShape(newer, m);
    TailAligned(Resample(newer, m), n, m);
    if newer != [] {
      assert newer[|newer| - 1] == all[|all| - 1];
      BucketStartFacts(all[|all| - 1].start, m);
    }
  }

  lemma TailAligned(y: seq<Bar>, n: nat, m: int)
    requires m >= 1 && Aligned(y, m)
    ensures Aligned(Tail(y, n), m)
    ensures n > 0 && y != [] ==> Tail(y, n) != [] && Tail(y, n)[|Tail(y, n)| - 1] == y[|y| - 1]
  {
  }

  lemma EnoughBuckets(rows: nat, buckets: nat, n: nat, m: int)
    requires m >= 1 && rows >= n * m && rows <= m * buckets
    ensures buckets >= n
  {
    var short := n - buckets;
    assert n * m == m * buckets + m * short;
    if short > 0 {
      ProductPositive(m, short);
    }
  }

  lemma ProductPositive(a: int, b: int)
    requires a > 0 && b > 0
    ensures a * b > 0
  {
  }

  /** Only the first bucket of the right operand can change at a seam. */
  lemma JoinSharesTail(x: seq<Bar>, y: seq<Bar>, n: nat)
    requires |y| >= n >= 1
    ensures |Join(x, y)| >= n && Tail(Join(x, y), n - 1) == Tail(Tail(y, n), n - 1)
  {
    var j := Join(x, y);
    if x != [] && x[|x| - 1].start == y[0].start {
      assert j == (x[..|x| - 1] + [Merge(x[|x| - 1], y[0])]) + y[1..];
    }
    assert j[|j| - (n - 1)..] == y[|y| - (n - 1)..];
  }

  /** Two lists with the same last `known` buckets, with or without the newest, agree on the last `limit`. */
  lemma CutEqualTails(v: seq<Bar>, w: seq<Bar>, limit: nat, known: nat, drop: bool)
    requires |v| <= |w| && known <= |v| && v[|v| - known..] == w[|w| - known..]
    requires known == |v| == |w| || known >= limit + 1
    requires drop ==> v != []
    ensures Tail(if drop then v[..|v| - 1] else v, limit) == Tail(if drop then w[..|w| - 1] else w, limit)
  {
    var v', w' := if drop then v[..|v| - 1] else v, if drop then w[..|w| - 1] else w;
    if known >= limit + 1 {
      var v1, w1 := v[|v| - known..], w[|w| - known..];
      assert v == v[..|v| - known] + v1 && w == w[..|w| - known] + w1;
      assert Tail(v', limit) == Tail(w', limit);
    } else {
      assert v == v[|v| - known..] && w == w[|w| - known..];
    }
  }

  // ---------------------------------------------------------------- the reading loop

  /** How the file reader cuts the rows of the selected groups into batches. */
  ghost predicate Splits(batches: seq<seq<Bar>>, rows: seq<Bar>) {
    Flatten(batches) == rows
  }

  lemma RegroupWhenNeeded(bs: seq<Bar>)
    ensures !HasDuplicates(bs) ==> Group(bs) == bs
  {
    if !HasDuplicates(bs) {
      GroupFixes(bs);
    }
  }

  /** One batch into the view, as the loop body does it. */
  method AddBatch(view: seq<Bar>, batch: seq<Bar>, tf: Timeframe, limit: nat, now: int, ghost before: seq<Bar>) returns (view': seq<Bar>)
    requires Increasing(batch)
    requires view == Tail(Resample(before, tf.Minutes()), limit + 2)
    ensures view' == Tail(Resample(before + Closed(batch, now), tf.Minutes()), limit + 2)
  {
    hide Closed, Group, Resample, HasDuplicates, Increasing;
    var part := Closed(batch, now);
    if part == [] {
      assert before + part == before;
      return view;
    }
    ClosedIncreasing(batch, now);
    TruncationIsHarmless(before, part, tf.Minutes(), limit + 2);
    if tf != M1 {
      part := Resample(part, tf.Minutes());
    } else {
      MinuteRowsAreBuckets(part);
    }
    assert part == Resample(Closed(batch, now), tf.Minutes());
    assert view == [] ==> view + part == part;
    view' := if view != [] then view + part else part;
    RegroupWhenNeeded(view');
    if HasDuplicates(view') {
      view' := Group(view');
    }
    view' := Tail(view', limit + 2);
  }

  /** The batch loop: the view never holds more than `limit + 2` buckets plus one batch. */
  method StreamBatches(batches: seq<seq<Bar>>, tf: Timeframe, limit: nat, now: int) returns (view: seq<Bar>)
    requires Increasing(Flatten(batches))
    ensures view == Tail(Resample(Closed(Flatten(batches), now), tf.Minutes()), limit + 2)
  {
    view := [];
    assert Resample([], tf.Minutes()) == [];
    hide Resample;
    for i := 0 to |batches|
      invariant view == Tail(Resample(Closed(Flatten(batches[..i]), now), tf.Minutes()), limit + 2)
    {
      assert batches[..i + 1][..i] == batches[..i];
      assert Flatten(batches[..i + 1]) == Flatten(batches[..i]) + batches[i];
      ClosedConcat(Flatten(batches[..i]), batches[i], now);
      BatchIncreasing(batches, i);
      view := AddBatch(view, batches[i], tf, limit, now, Closed(Flatten(batches[..i]), now));
    }
    assert batches[..|batches|] == batches;
  }

  lemma ClosedIncreasing(rows: seq<Bar>, now: int)
    requires Increasing(rows)
    ensures Increasing(Closed(rows, now))
  {
    ClosedIsPrefix(rows, now);
  }

  predicate HasDuplicates(bs: seq<Bar>) {
    exists i, j :: 0 <= i < j < |bs| && bs[i].start == bs[j].start
  }

  lemma BatchIncreasing(batches: seq<seq<Bar>>, i: nat)
    requires i < |batches| && Increasing(Flatten(batches))
    ensures Increasing(batches[i])
  {
    hide Flatten;
    assert batches == batches[..i] + batches[i..];
    FlattenConcat(batches[..i], batches[i..]);
    FlattenHead(batches, i);
    PrefixIncreasing(Flatten(batches), Flatten(batches[..i]), Flatten(batches[i..]));
    PrefixIncreasing(Flatten(batches[i..]), batches[i], Flatten(batches[i + 1..]));
  }

  /** One-minute rows are their own buckets, which is why M1 skips the resample. */
  lemma MinuteRowsAreBuckets(rows: seq<Bar>)
    requires Increasing(rows)
    ensures Resample(rows, 1) == rows
  {
    assert Relabel(rows, 1) == rows;
    GroupFixes(rows);
  }

  /** `chart_bars` on a file of row groups, for any way of cutting the rows it reads into batches.
      The view is always that of the rows in the groups read, and that of all rows when those hold
      enough closed ones. */
  method Chart(groups: seq<seq<Bar>>, read: seq<Bar> -> seq<seq<Bar>>, tf: Timeframe, limit: nat, now: int) returns (view: seq<Bar>)
    requires Increasing(Flatten(groups))
    requires forall rows :: Splits(read(rows), rows)
    ensures |view| <= limit
    ensures view == Expected(Flatten(groups[FirstGroup(groups, Needed(tf, limit))..]), tf, limit, now)
    ensures EnoughRead(groups, tf, limit, now) ==> view == Expected(Flatten(groups), tf, limit, now)
  {
    var needed := Needed(tf, limit);
    var first := |groups|;
    var count := 0;
    assert groups[first..] == [];
    while first > 0 && (first == |groups| || count < needed)
      invariant 0 <= first <= |groups|
      invariant count == |Flatten(groups[first..])|
      invariant forall j :: first < j < |groups| ==> |Flatten(groups[j..])| < needed
    {
      first := first - 1;
      FlattenHead(groups, first);
      count := count + |groups[first]|;
    }
    FirstGroupIs(groups, needed, first);
    var rows := Flatten(groups[first..]);
    assert groups == groups[..first] + groups[first..];
    FlattenConcat(groups[..first], groups[first..]);
    PrefixIncreasing(Flatten(groups), Flatten(groups[..first]), rows);
    var batches := read(rows);
    assert Splits(batches, rows);
    view := StreamBatches(batches, tf, limit, now);
    view := Tail(Complete(view, tf.Minutes(), now), limit);
    ReadRowsAre(rows, tf, limit, now);
    if EnoughRead(groups, tf, limit, now) {
      SelectedRowsSuffice(groups, first, tf, limit, now);
    }
  }

  /** The row groups are read from the newest on until they number the rows of two buckets more than
      asked for, and no further. */
  lemma GroupsRead(groups: seq<seq<Bar>>, tf: Timeframe, limit: nat)
    ensures var first, rows := FirstGroup(groups, Needed(tf, limit)), (limit + 2) * tf.Minutes();
            && (first == 0 || |Flatten(groups[first..])| >= rows)
            && forall j :: first < j < |groups| ==> |Flatten(groups[j..])| < rows
  {
    if groups != [] {
      TrailingStops(groups, Needed(tf, limit), |groups| - 1);
    }
  }

  lemma {:induction false} TrailingStops(groups: seq<seq<Bar>>, needed: nat, i: nat)
    requires i < |groups|
    ensures forall j :: TrailingFrom(groups, needed, i) < j <= i ==> |Flatten(groups[j..])| < needed
    decreases i
  {
    if i > 0 && |Flatten(groups[i..])| < needed {
      TrailingStops(groups, needed, i - 1);
    }
  }

  lemma Timeframes()
    ensures M1.Minutes() == 1 && M5.Minutes() == 5 && M15.Minutes() == 15 && H1.Minutes() == 60
    ensures H4.Minutes() == 4 * 60 && D1.Minutes() == 24 * 60
  {
  }

  lemma ReadRowsAre(rows: seq<Bar>, tf: Timeframe, limit: nat, now: int)
    requires Increasing(rows)
    ensures var m := tf.Minutes();
            Tail(Complete(Tail(Resample(Closed(rows, now), m), limit + 2), m, now), limit) == Expected(rows, tf, limit, now)
  {
    ClosedRowsAre(rows, now);
    hide Closed, Resample, Complete, Needed;
    assert [] + Closed(rows, now) == Closed(rows, now);
    NewestRowsSuffice([], Closed(rows, now), tf, limit, now);
  }

  lemma FlattenHead(groups: seq<seq<Bar>>, i: nat)
    requires i < |groups|
    ensures Flatten(groups[i..]) == groups[i] + Flatten(groups[i + 1..])
  {
    assert groups[i..] == [groups[i]] + groups[i + 1..];
    FlattenConcat([groups[i]], groups[i + 1..]);
    assert Flatten([groups[i]]) == groups[i] by { assert [groups[i]][..0] == []; assert [] + groups[i] == groups[i]; }
  }

  lemma FirstGroupIs(groups: seq<seq<Bar>>, needed: nat, first: nat)
    requires first <= |groups| && (first == 0 || (first < |groups| && |Flatten(groups[first..])| >= needed))
    requires forall j :: first < j < |groups| ==> |Flatten(groups[j..])| < needed
    ensures FirstGroup(groups, needed) == first
  {
    if groups != [] {
      TrailingFromIs(groups, needed, first, |groups| - 1);
    }
  }

  lemma {:induction false} TrailingFromIs(groups: seq<seq<Bar>>, needed: nat, first: nat, i: nat)
    requires first <= i < |groups| && (first == 0 || |Flatten(groups[first..])| >= needed)
    requires forall j :: first < j < |groups| ==> |Flatten(groups[j..])| < needed
    ensures TrailingFrom(groups, needed, i) == first
  {
    if i > first {
      TrailingFromIs(groups, needed, first, i - 1);
    }
  }

  lemma SelectedRowsSuffice(groups: seq<seq<Bar>>, first: nat, tf: Timeframe, limit: nat, now: int)
    requires first == FirstGroup(groups, Needed(tf, limit)) && Increasing(Flatten(groups))
    requires EnoughRead(groups, tf, limit, now)
    ensures var m := tf.Minutes();
            Tail(Complete(Tail(Resample(Closed(Flatten(groups[first..]), now), m), limit + 2), m, now), limit)
            == Expected(Flatten(groups), tf, limit, now)
  {
    hide Flatten, Closed, Resample, Complete, Needed, FirstGroup;
    assert groups == groups[..first] + groups[first..];
    FlattenConcat(groups[..first], groups[first..]);
    var older, newer := Flatten(groups[..first]), Flatten(groups[first..]);
    ClosedConcat(older, newer, now);
    ClosedRowsAre(Flatten(groups), now);
    if first == 0 {
      assert groups[..first] == [];
      NothingSkipped(now);
    }
    NewestRowsSuffice(Closed(older, now), Closed(newer, now), tf, limit, now);
  }

  lemma NothingSkipped(now: int)
    ensures Closed(Flatten([]), now) == []
  {
  }

  lemma ClosedRowsAre(rows: seq<Bar>, now: int)
    requires Increasing(rows)
    ensures Increasing(Closed(rows, now)) && forall i :: 0 <= i < |Closed(rows, now)| ==> Closed(rows, now)[i].start < now
  {
    ClosedIsPrefix(rows, now);
  }
}
