/** Holes in the bar store (`missing_windows`, `validate`) and batch lookup (`positions`) of
    xauusd/data.py. Times are minutes and the market hours are any predicate on minutes. */
module BarIndex {
  import opened Prelude

  ghost predicate Increasing(index: seq<int>) { forall i, j :: 0 <= i < j < |index| ==> index[i] < index[j] }

  /** A run of open minutes without bars between two neighbouring bars. */
  datatype Window = Window(start: int, end: int, minutes: nat, after: int, before: int)

  /** Open minutes `m` with `lo < m < hi`. */
  function OpenBetween(open: int -> bool, lo: int, hi: int): seq<int>
    decreases hi - lo
  {
    if hi - lo <= 1 then [] else OpenBetween(open, lo, hi - 1) + if open(hi - 1) then [hi - 1] else []
  }

  ghost predicate Inside(s: seq<int>, open: int -> bool, lo: int, hi: int) { forall i :: 0 <= i < |s| ==> lo < s[i] < hi && open(s[i]) }

  ghost predicate Complete(s: seq<int>, open: int -> bool, lo: int, hi: int) { forall m :: lo < m < hi && open(m) ==> m in s }

  lemma {:induction false} OpenMeaning(open: int -> bool, lo: int, hi: int)
    ensures Inside(OpenBetween(open, lo, hi), open, lo, hi) && Increasing(OpenBetween(open, lo, hi)) && Complete(OpenBetween(open, lo, hi), open, lo, hi)
    decreases hi - lo
  {
    if hi - lo > 1 {
      OpenMeaning(open, lo, hi - 1);
    }
  }

  lemma {:induction false} OpenSplits(open: int -> bool, lo: int, mid: int, hi: int)
    requires lo < mid < hi
    ensures |OpenBetween(open, lo, hi)| == |OpenBetween(open, lo, mid)| + |OpenBetween(open, mid, hi)| + if open(mid) then 1 else 0
    decreases hi - mid
  {
    if mid < hi - 1 {
      OpenSplits(open, lo, mid, hi - 1);
    }
  }

  // ---------------------------------------------------------------- windows

  function WindowAt(index: seq<int>, open: int -> bool, p: nat): Option<Window>
    requires 0 < p < |index|
  {
    var missing := OpenBetween(open, index[p - 1], index[p]);
    if missing == [] then None else Some(Window(missing[0], missing[|missing| - 1], |missing|, index[p - 1], index[p]))
  }

  /** The windows of the first `n` bars with at least `least` open minutes each. */
  function WindowsOf(index: seq<int>, open: int -> bool, least: int, n: nat): seq<Window>
    requires n <= |index|
  {
    if n <= 1 then [] else
    var w := WindowAt(index, open, n - 1);
    WindowsOf(index, open, least, n - 1) + if w.Some? && w.value.minutes >= least then [w.value] else []
  }

  /** A limit of zero or less makes a wholly closed gap a window without a first minute. */
  predicate Fails(index: seq<int>, open: int -> bool, least: int) {
    least <= 0 && exists p :: 0 < p < |index| && index[p] - index[p - 1] > 1 && WindowAt(index, open, p).None?
  }

  /** The smallest such input: two bars around minutes the market is closed, as over a weekend, and
      a limit of zero. */
  lemma ClosedGapFails(index: seq<int>, open: int -> bool)
    requires |index| == 2 && index[1] - index[0] > 1 && forall m :: index[0] < m < index[1] ==> !open(m)
    ensures Fails(index, open, 0) && !Fails(index, open, 1)
  {
    OpenMeaning(open, index[0], index[1]);
    assert WindowAt(index, open, 1).None?;
  }

  /** Bar `p` lies more than a minute after the bar before it, and no minute between them was open. */
  ghost predicate ClosedGap(index: seq<int>, open: int -> bool, p: int) {
    0 < p < |index| && index[p] - index[p - 1] > 1 && forall m :: index[p - 1] < m < index[p] ==> !open(m)
  }

  lemma FailsMeaning(index: seq<int>, open: int -> bool, least: int)
    ensures Fails(index, open, least) <==> least <= 0 && exists p :: ClosedGap(index, open, p)
  {
    forall p: nat | 0 < p < |index| && index[p] - index[p - 1] > 1 ensures WindowAt(index, open, p).None? <==> ClosedGap(index, open, p) {
      OpenMeaning(open, index[p - 1], index[p]);
      var missing := OpenBetween(open, index[p - 1], index[p]);
      hide OpenBetween;
      if missing != [] {
        assert open(missing[0]) && index[p - 1] < missing[0] < index[p];
      }
    }
    hide WindowAt;
    if least <= 0 {
      if p :| ClosedGap(index, open, p) {
        assert WindowAt(index, open, p).None?;
      }
    }
  }

  /** Scans the gaps; absent when taking the first minute of an empty list fails. Repeated and
      unsorted minutes make no gap. */
  method MissingWindows(index: seq<int>, open: int -> bool, least: int) returns (r: Option<seq<Window>>)
    ensures r.None? <==> least <= 0 && exists p :: ClosedGap(index, open, p)
    ensures r.Some? ==> r.value == WindowsOf(index, open, least, |index|)
  {
    hide OpenBetween, ClosedGap;
    FailsMeaning(index, open, least);
    var windows := [];
    for p := 0 to |index|
      invariant windows == WindowsOf(index, open, least, p)
      invariant forall q :: 0 < q < p ==> !(least <= 0 && index[q] - index[q - 1] > 1 && WindowAt(index, open, q).None?)
    {
      if p > 0 {
        NoGapNoWindow(index, open, p);
        if index[p] - index[p - 1] > 1 {
          var missing := OpenBetween(open, index[p - 1], index[p]);
          if |missing| >= least {
            if missing == [] {
              return None;
            }
            windows := windows + [Window(missing[0], missing[|missing| - 1], |missing|, index[p - 1], index[p])];
          }
        }
      }
    }
    r := Some(windows);
  }

  lemma NoGapNoWindow(index: seq<int>, open: int -> bool, p: nat)
    requires 0 < p < |index|
    ensures index[p] - index[p - 1] <= 1 ==> WindowAt(index, open, p).None?
  {
  }

  // ---------------------------------------------------------------- what the windows are

  /** Between two neighbouring bars, from the first to the last open minute there. */
  ghost predicate Sound(index: seq<int>, open: int -> bool, w: Window, n: nat) {
    exists p :: 0 < p < n <= |index| && WindowAt(index, open, p) == Some(w)
  }

  lemma {:induction false} WindowsMeaning(index: seq<int>, open: int -> bool, least: int, n: nat)
    requires n <= |index|
    ensures forall k :: 0 <= k < |WindowsOf(index, open, least, n)| ==> Sound(index, open, WindowsOf(index, open, least, n)[k], n)
    ensures forall p :: 0 < p < n && WindowAt(index, open, p).Some? && WindowAt(index, open, p).value.minutes >= least ==>
              WindowAt(index, open, p).value in WindowsOf(index, open, least, n)
  {
    hide WindowAt;
    if n > 1 {
      WindowsMeaning(index, open, least, n - 1);
      var ws, front := WindowsOf(index, open, least, n), WindowsOf(index, open, least, n - 1);
      forall k | 0 <= k < |ws| ensures Sound(index, open, ws[k], n) {
        if k < |front| {
          assert Sound(index, open, front[k], n - 1);
        }
      }
    }
  }

  /** Completeness at the level of minutes: an open minute without a bar, inside the stored range, lies
      in a reported window as soon as its gap has enough open minutes. */
  lemma MinuteIsReported(index: seq<int>, open: int -> bool, least: int, p: nat, m: int)
    requires 0 < p < |index| && index[p - 1] < m < index[p] && open(m)
    requires |OpenBetween(open, index[p - 1], index[p])| >= least
    ensures exists w :: w in WindowsOf(index, open, least, |index|) && w.after < w.start <= m <= w.end < w.before
  {
    WindowsMeaning(index, open, least, |index|);
    OpenMeaning(open, index[p - 1], index[p]);
    hide OpenBetween, WindowsOf;
    var missing := OpenBetween(open, index[p - 1], index[p]);
    var i :| 0 <= i < |missing| && missing[i] == m;
    var w := WindowAt(index, open, p).value;
    assert w in WindowsOf(index, open, least, |index|);
    assert missing[0] <= missing[i] <= missing[|missing| - 1];
  }

  ghost predicate InOrder(ws: seq<Window>) { forall i, j :: 0 <= i < j < |ws| ==> ws[i].end < ws[j].start }

  ghost predicate AllBefore(ws: seq<Window>, time: int) { forall i :: 0 <= i < |ws| ==> ws[i].end < time }

  lemma WindowBounds(index: seq<int>, open: int -> bool, p: nat)
    requires 0 < p < |index|
    ensures var w := WindowAt(index, open, p); w.Some? ==> index[p - 1] < w.value.start <= w.value.end < index[p]
  {
    var missing := OpenBetween(open, index[p - 1], index[p]);
    OpenMeaning(open, index[p - 1], index[p]);
  }

  /** Windows come in time order and never overlap. */
  lemma {:induction false} WindowsInOrder(index: seq<int>, open: int -> bool, least: int, n: nat)
    requires Increasing(index) && n <= |index|
    ensures InOrder(WindowsOf(index, open, least, n)) && (n > 0 ==> AllBefore(WindowsOf(index, open, least, n), index[n - 1]))
  {
    if n > 1 {
      WindowsInOrder(index, open, least, n - 1);
      WindowBounds(index, open, n - 1);
      hide WindowAt;
      var front, w := WindowsOf(index, open, least, n - 1), WindowAt(index, open, n - 1);
      assert index[n - 2] < index[n - 1];
      if w.Some? && w.value.minutes >= least {
      } else {
        assert WindowsOf(index, open, least, n) == front;
      }
    }
  }

  function Minutes(ws: seq<Window>): nat { if ws == [] then 0 else Minutes(ws[..|ws| - 1]) + ws[|ws| - 1].minutes }

  // ---------------------------------------------------------------- the store report

  datatype Report = Report(rows: nat, absent: nat, closed: nat, missing: nat, gapEvents: nat)

  /** The bars among the first `n` that do not follow the bar before them minute on minute. */
  function Gaps(index: seq<int>, n: nat): set<nat>
    requires n <= |index|
  {
    set p: nat | p < n && FollowsGap(index, p)
  }

  predicate FollowsGap(index: seq<int>, p: int) { 0 < p < |index| && index[p] - index[p - 1] > 1 }

  lemma GapsGrow(index: seq<int>, p: nat)
    requires 0 < p < |index|
    ensures |Gaps(index, p + 1)| == |Gaps(index, p)| + if index[p] - index[p - 1] > 1 then 1 else 0
  {
    assert Gaps(index, p + 1) == Gaps(index, p) + if index[p] - index[p - 1] > 1 then {p} else {};
  }

  /** `validate`: every minute of the range without a bar is absent; the closed ones are set apart. */
  method Validate(index: seq<int>, open: int -> bool) returns (r: Report)
    requires Increasing(index)
    ensures index == [] ==> r == Report(0, 0, 0, 0, 0)
    ensures index != [] ==> r.rows == |index| && r.absent == index[|index| - 1] - index[0] + 1 - |index| && r.absent == r.closed + r.missing
    ensures r.missing == MissingTotal(index, open, |index|) && r.gapEvents == |Gaps(index, |index|)|
  {
    if index == [] {
      assert Gaps(index, 0) == {};
      return Report(0, 0, 0, 0, 0);
    }
    hide OpenBetween;
    var absent, closed, events := 0, 0, 0;
    assert Gaps(index, 1) == {};
    for p := 1 to |index|
      invariant absent == index[p - 1] - index[0] + 1 - p
      invariant 0 <= closed <= absent && absent - closed == MissingTotal(index, open, p)
      invariant events == |Gaps(index, p)|
    {
      GapsGrow(index, p);
      var span := index[p] - index[p - 1] - 1;
      OpenFits(open, index[p - 1], index[p]);
      absent := absent + span;
      closed := closed + span - |OpenBetween(open, index[p - 1], index[p])|;
      if span > 0 {
        events := events + 1;
      }
    }
    r := Report(|index|, absent, closed, absent - closed, events);
  }

  lemma {:induction false} OpenFits(open: int -> bool, lo: int, hi: int)
    requires lo < hi
    ensures |OpenBetween(open, lo, hi)| <= hi - lo - 1
    decreases hi - lo
  {
    if hi - lo > 1 {
      OpenFits(open, lo, hi - 1);
    }
  }

  function MissingTotal(index: seq<int>, open: int -> bool, n: nat): nat
    requires n <= |index|
  {
    if n <= 1 then 0 else MissingTotal(index, open, n - 1) + |OpenBetween(open, index[n - 2], index[n - 1])|
  }

  function InIndex(index: seq<int>, open: int -> bool, n: nat): nat
    requires n <= |index|
  {
    if n <= 1 then 0 else InIndex(index, open, n - 1) + if n > 2 && open(index[n - 2]) then 1 else 0
  }

  /** Reporting and healing agree: with a limit of one minute the windows hold exactly the missing
      market minutes of the report. */
  lemma {:induction false} WindowsHoldAllMissing(index: seq<int>, open: int -> bool, n: nat)
    requires n <= |index|
    ensures Minutes(WindowsOf(index, open, 1, n)) == MissingTotal(index, open, n)
  {
    if n > 1 {
      WindowsHoldAllMissing(index, open, n - 1);
      var ws, front := WindowsOf(index, open, 1, n), WindowsOf(index, open, 1, n - 1);
      if WindowAt(index, open, n - 1).Some? {
        assert ws[..|ws| - 1] == front;
      } else {
        assert ws == front;
      }
    }
  }

  /** The missing minutes are the open minutes of the range less the open bars inside it. */
  lemma {:induction false} MissingIsOpenLessBars(index: seq<int>, open: int -> bool, n: nat)
    requires Increasing(index) && 0 < n <= |index|
    ensures MissingTotal(index, open, n) + InIndex(index, open, n) == |OpenBetween(open, index[0], index[n - 1])|
  {
    if n > 1 {
      MissingIsOpenLessBars(index, open, n - 1);
      if n > 2 {
        OpenSplits(open, index[0], index[n - 2], index[n - 1]);
      }
    }
  }

  // ---------------------------------------------------------------- batch lookup

  /** Insertion points: how many entries are below, or not above, a value. */
  function Below(index: seq<int>, x: int): (n: nat)
    ensures n <= |index|
  {
    if index == [] then 0 else Below(index[..|index| - 1], x) + if index[|index| - 1] < x then 1 else 0
  }

  function NotAbove(index: seq<int>, x: int): (n: nat)
    ensures n <= |index|
  {
    if index == [] then 0 else NotAbove(index[..|index| - 1], x) + if index[|index| - 1] <= x then 1 else 0
  }

  datatype LookupError = Unsorted | Duplicates

  predicate Sorted(index: seq<int>) { forall i, j :: 0 <= i < j < |index| ==> index[i] <= index[j] }

  predicate HasDuplicates(index: seq<int>) { exists i, j :: 0 <= i < j < |index| && index[i] == index[j] }

  function Positions(index: seq<int>, required: seq<int>): Result<seq<int>, LookupError> {
    if !Sorted(index) then Err(Unsorted)
    else if HasDuplicates(index) then Err(Duplicates)
    else Ok(seq(|required|, k requires 0 <= k < |required| =>
              if Below(index, required[k]) < NotAbove(index, required[k]) then Below(index, required[k]) else -1))
  }

  /** The lookup refuses an index exactly when it is out of order or repeats a minute. */
  lemma RefusedExactly(index: seq<int>, required: seq<int>)
    ensures Positions(index, required) == Err(Unsorted) <==> exists i, j :: 0 <= i < j < |index| && index[i] > index[j]
    ensures Positions(index, required).Ok? <==> Increasing(index)
  {
  }

  lemma {:induction false} BelowMeaning(index: seq<int>, x: int)
    requires Increasing(index)
    ensures forall i :: 0 <= i < |index| ==> (index[i] < x <==> i < Below(index, x)) && (index[i] <= x <==> i < NotAbove(index, x))
  {
    if index != [] {
      var front, last := index[..|index| - 1], index[|index| - 1];
      BelowMeaning(front, x);
      if last < x {
        AllCounted(index, x);
      } else if last <= x {
        AllCounted(index, x + 1);
        BelowShift(index, x);
      }
    }
  }

  lemma {:induction false} AllCounted(index: seq<int>, x: int)
    requires Increasing(index) && index != [] && index[|index| - 1] < x
    ensures Below(index, x) == |index| && NotAbove(index, x) == |index|
  {
    if |index| > 1 {
      AllCounted(index[..|index| - 1], x);
    }
  }

  lemma {:induction false} BelowShift(index: seq<int>, x: int)
    ensures Below(index, x + 1) == NotAbove(index, x)
  {
    if index != [] {
      BelowShift(index[..|index| - 1], x);
    }
  }

  predicate Locates(index: seq<int>, x: int) {
    var b := Below(index, x);
    if b < NotAbove(index, x) then b < |index| && index[b] == x else x !in index
  }

  lemma PointsMeet(index: seq<int>, x: int)
    requires Increasing(index)
    ensures Locates(index, x)
  {
    BelowMeaning(index, x);
    var b := Below(index, x);
    if x in index {
      var i :| 0 <= i < |index| && index[i] == x;
      assert i >= b && i < NotAbove(index, x);
    }
  }

  /** The two insertion points find exactly what a lookup finds: the row of a stored bar, and -1 for a
      bar that is not stored. */
  lemma PositionsFind(index: seq<int>, required: seq<int>)
    requires Increasing(index)
    ensures Positions(index, required).Ok?
    ensures var found := Positions(index, required).value;
            && |found| == |required|
            && forall k :: 0 <= k < |required| ==>
                 if required[k] in index then 0 <= found[k] < |index| && index[found[k]] == required[k] else found[k] == -1
  {
    forall k | 0 <= k < |required| ensures Locates(index, required[k]) {
      PointsMeet(index, required[k]);
    }
  }
}
