/** The greedy cover of `HistoricalDataStore.raw_retention_plan` (xauusd/data.py). A page is the
    range of minutes its file name claims; the plan works on the pages sorted by
    first minute, longest first. */
module RawRetention {
  import opened Prelude

  datatype Page = Page(first: int, last: int, path: string)

  ghost predicate Sorted(ps: seq<Page>) {
    forall i, j :: 0 <= i < j < |ps| ==> ps[i].first < ps[j].first || (ps[i].first == ps[j].first && ps[i].last >= ps[j].last)
  }

  /** A downloaded page holds at least one bar. */
  ghost predicate NoEmptyPages(ps: seq<Page>) {
    forall i :: 0 <= i < |ps| ==> ps[i].first <= ps[i].last
  }

  predicate Holds(p: Page, m: int) { p.first <= m <= p.last }

  ghost predicate Covered(ps: seq<Page>, m: int) {
    exists j :: 0 <= j < |ps| && Holds(ps[j], m)
  }

  /** Every minute of every page of `ps` lies in a page of `cover`. */
  ghost predicate Covers(cover: seq<Page>, ps: seq<Page>) {
    forall i, m :: 0 <= i < |ps| && Holds(ps[i], m) ==> Covered(cover, m)
  }

  function MaxLast(ps: seq<Page>): (m: int)
    requires ps != []
    ensures forall i :: 0 <= i < |ps| ==> ps[i].last <= m
    ensures exists i :: 0 <= i < |ps| && ps[i].last == m
  {
    var p := ps[|ps| - 1];
    if |ps| == 1 then p.last else
    var m := MaxLast(ps[..|ps| - 1]);
    if m < p.last then p.last else m
  }

  /** Contiguous blocks: a page starts one when it begins beyond the minute after all before it. */
  function Blocks(ps: seq<Page>): nat {
    if ps == [] then 0 else
    var front, p := ps[..|ps| - 1], ps[|ps| - 1];
    Blocks(front) + if front == [] || p.first > MaxLast(front) + 1 then 1 else 0
  }

  /** Kept pages that end no later than the page kept before them. */
  function Redundant(keep: seq<Page>): nat {
    if |keep| <= 1 then 0 else
    Redundant(keep[..|keep| - 1]) + if keep[|keep| - 1].last <= keep[|keep| - 2].last then 1 else 0
  }

  /** How far a single look ahead takes one over the pages in order: `far` is the furthest end
      seen, `near` where the hop before it ended, `lone` whether the last page opened its block. */
  datatype Hop = Hop(near: int, far: int, lone: bool)

  /** A page up to the minute after `near` may lengthen the present hop, one up to the minute after
      `far` begins the next, and any other opens a block. */
  function Hops(ps: seq<Page>): Hop
    requires ps != []
  {
    var p := ps[|ps| - 1];
    if |ps| == 1 then Hop(p.last, p.last, true) else
    var h := Hops(ps[..|ps| - 1]);
    if p.first > h.far + 1 then Hop(p.last, p.last, true)
    else Hop(if p.first > h.near + 1 then h.far else h.near, if p.last > h.far then p.last else h.far, false)
  }

  /** The block that ends `ps` ends in pages that the hop before could not take in and that lead no
      further. */
  predicate Stalled(ps: seq<Page>)
    requires ps != []
  {
    Hops(ps).near == Hops(ps).far && !Hops(ps).lone
  }

  /** The blocks before the last that end stalled. */
  function StalledBefore(ps: seq<Page>): nat {
    if |ps| <= 1 then 0 else
    var front, p := ps[..|ps| - 1], ps[|ps| - 1];
    StalledBefore(front) + if p.first > Hops(front).far + 1 && Stalled(front) then 1 else 0
  }

  function StalledBlocks(ps: seq<Page>): nat {
    StalledBefore(ps) + if ps != [] && Stalled(ps) then 1 else 0
  }

  /** Page `k` is the last of its block. */
  predicate EndsBlock(ps: seq<Page>, k: int) {
    0 <= k < |ps| && (k == |ps| - 1 || ps[k + 1].first > Hops(ps[..k + 1]).far + 1)
  }

  ghost predicate NeverStalls(ps: seq<Page>) {
    forall k :: EndsBlock(ps, k) ==> !Stalled(ps[..k + 1])
  }

  /** Minutes that no single page of `ps` shares: any cover needs a page for each of them. */
  ghost predicate Independent(marks: seq<int>, ps: seq<Page>) {
    && (forall t :: 0 <= t < |marks| ==> Covered(ps, marks[t]))
    && forall s, t, i :: 0 <= s < t < |marks| && 0 <= i < |ps| && Holds(ps[i], marks[s]) ==> !Holds(ps[i], marks[t])
  }

  // ---------------------------------------------------------------- the lower bound

  /** Page number `i` for some `i` in `cover` holds minute `m`. */
  ghost predicate HeldBy(cover: set<nat>, ps: seq<Page>, m: int) {
    exists i :: i in cover && i < |ps| && Holds(ps[i], m)
  }

  /** A cover of independent minutes has at least as many pages as there are minutes. */
  lemma {:induction false} CoverNeedsMarks(marks: seq<int>, ps: seq<Page>, cover: set<nat>)
    requires forall t :: 0 <= t < |marks| ==> HeldBy(cover, ps, marks[t])
    requires forall s, t, i :: 0 <= s < t < |marks| && 0 <= i < |ps| && Holds(ps[i], marks[s]) ==> !Holds(ps[i], marks[t])
    ensures |cover| >= |marks|
  {
    if marks != [] {
      var l := |marks| - 1;
      var c :| c in cover && c < |ps| && Holds(ps[c], marks[l]);
      var rest := cover - {c};
      forall t | 0 <= t < l ensures HeldBy(rest, ps, marks[..l][t]) {
        var i :| i in cover && i < |ps| && Holds(ps[i], marks[t]);
        assert i != c;
      }
      CoverNeedsMarks(marks[..l], ps, rest);
    }
  }

  // ---------------------------------------------------------------- list facts

  lemma CoveredMore(a: seq<Page>, b: seq<Page>, m: int)
    requires Covered(a, m)
    ensures Covered(a + b, m)
  {
    var j :| 0 <= j < |a| && Holds(a[j], m);
    assert (a + b)[j] == a[j];
  }

  lemma CoveredLast(a: seq<Page>, p: Page, m: int)
    requires Holds(p, m)
    ensures Covered(a + [p], m)
  {
    assert (a + [p])[|a|] == p;
  }

  lemma MaxLastSnoc(ps: seq<Page>, i: nat)
    requires i < |ps|
    ensures MaxLast(ps[..i + 1]) == if i == 0 || MaxLast(ps[..i]) < ps[i].last then ps[i].last else MaxLast(ps[..i])
    ensures Blocks(ps[..i + 1]) == Blocks(ps[..i]) + if i == 0 || ps[i].first > MaxLast(ps[..i]) + 1 then 1 else 0
  {
    assert ps[..i + 1][..i] == ps[..i];
  }

  lemma RedundantSnoc(keep: seq<Page>, p: Page)
    ensures Redundant(keep + [p]) == Redundant(keep) + if keep != [] && p.last <= keep[|keep| - 1].last then 1 else 0
  {
    assert (keep + [p])[..|keep|] == keep;
  }

  // ---------------------------------------------------------------- the plan

  /** After `index` pages: the useful picks cover every page consumed and every minute from `low`,
      the first of the current block, to the furthest minute `top`; a pick that fell short of `top`
      ended its block. */
  ghost predicate Reached(ordered: seq<Page>, index: nat, keep: seq<Page>, useful: seq<Page>, low: int, gaps: int) {
    && 0 < index <= |ordered| && keep != [] && keep[0] == ordered[0]
    && low <= ordered[index - 1].first
    && var top, reach := MaxLast(ordered[..index]), keep[|keep| - 1].last;
       && reach <= top
       && (reach < top && index < |ordered| ==> ordered[index].first > top + 1)
       && Blocks(ordered[..index]) == gaps + 1
       && Covers(useful, ordered[..index])
       && (forall m :: low <= m <= top ==> Covered(useful, m))
       && (forall p :: p in useful ==> p in keep)
       && (exists j :: 0 <= j < |useful| && useful[j].last == top)
  }

  /** Without empty pages: each useful pick stands for an independent minute, the other picks are
      the redundant ones, and at most one of those ended each block. */
  ghost predicate Tight(ordered: seq<Page>, index: nat, keep: seq<Page>, useful: seq<Page>, marks: seq<int>, gaps: int)
    requires 0 < index <= |ordered|
  {
    && |useful| == |marks| && |keep| == |useful| + Redundant(keep)
    && Redundant(keep) <= gaps + (if EndsRedundant(keep) then 1 else 0)
    && (EndsRedundant(keep) && index < |ordered| ==> ordered[index].first > MaxLast(ordered[..index]) + 1)
    && MarksOk(ordered, marks, MaxLast(ordered[..index]))
  }

  /** The redundant picks so far are the stalled blocks so far, and the pick that stalled a block is
      the last one. */
  ghost predicate Counted(ordered: seq<Page>, index: nat, keep: seq<Page>)
    requires 0 < index <= |ordered|
  {
    var h := Hops(ordered[..index]);
    && Redundant(keep) == StalledBefore(ordered[..index]) + (if EndsRedundant(keep) then 1 else 0)
    && (EndsRedundant(keep) <==> Stalled(ordered[..index]))
    && h.far == MaxLast(ordered[..index])
    && (index < |ordered| ==> h.near == h.far || ordered[index].first > h.near + 1)
  }

  predicate EndsRedundant(keep: seq<Page>) {
    |keep| >= 2 && keep[|keep| - 1].last <= keep[|keep| - 2].last
  }

  /** Marks increase, are covered, and a page that starts by one of them ends before the next;
      those that start by the last end by `top`. */
  ghost predicate MarksOk(ordered: seq<Page>, marks: seq<int>, top: int) {
    && marks != []
    && (forall s, t :: 0 <= s < t < |marks| ==> marks[s] < marks[t])
    && (forall t :: 0 <= t < |marks| ==> Covered(ordered, marks[t]))
    && (forall t, i :: 0 <= t < |marks| - 1 && 0 <= i < |ordered| && ordered[i].first <= marks[t] ==> ordered[i].last < marks[t + 1])
    && (forall i :: 0 <= i < |ordered| && ordered[i].first <= marks[|marks| - 1] ==> ordered[i].last <= top)
    && marks[|marks| - 1] <= top
  }

  lemma MarksAreIndependent(ordered: seq<Page>, marks: seq<int>, top: int)
    requires MarksOk(ordered, marks, top)
    ensures Independent(marks, ordered)
  {
    forall s, t, i | 0 <= s < t < |marks| && 0 <= i < |ordered| && Holds(ordered[i], marks[s]) ensures !Holds(ordered[i], marks[t]) {
      assert ordered[i].last < marks[s + 1];
      assert s + 1 == t || marks[s + 1] < marks[t];
    }
  }

  /** Adding a pick that holds everything new in the consumed pages keeps them covered. */
  lemma CoversMore(ordered: seq<Page>, start: nat, index: nat, useful: seq<Page>, useful': seq<Page>)
    requires start <= index <= |ordered| && useful <= useful'
    requires Covers(useful, ordered[..start])
    requires forall i, m :: start <= i < index && Holds(ordered[i], m) ==> Covered(useful', m)
    ensures Covers(useful', ordered[..index])
  {
    var consumed := ordered[..index];
    forall i, m | 0 <= i < |consumed| && Holds(consumed[i], m) ensures Covered(useful', m) {
      assert consumed[i] == ordered[i];
      if i < start {
        assert ordered[..start][i] == ordered[i];
        assert Covered(useful, m);
        CoveredMore(useful, useful'[|useful|..], m);
        assert useful + useful'[|useful|..] == useful';
      }
    }
  }

  /** A page beyond the minute after `top` opens a block of its own. */
  lemma OpenBlock(ordered: seq<Page>, index: nat, keep: seq<Page>, useful: seq<Page>, low: int, gaps: int)
    requires Sorted(ordered) && index < |ordered|
    requires Reached(ordered, index, keep, useful, low, gaps)
    requires ordered[index].first > keep[|keep| - 1].last + 1
    ensures var p := ordered[index];
            Reached(ordered, index + 1, keep + [p], useful + [p], p.first, gaps + 1)
  {
    hide MaxLast, Blocks, Covers;
    var p := ordered[index];
    var top := MaxLast(ordered[..index]);
    assert p.first > top + 1;
    MaxLastSnoc(ordered, index);
    var useful' := useful + [p];
    forall m | Holds(p, m) ensures Covered(useful', m) {
      CoveredLast(useful, p, m);
    }
    CoversMore(ordered, index, index + 1, useful, useful');
    var j :| 0 <= j < |useful| && useful[j].last == top;
    assert useful'[j].last == top && useful'[|useful|].last == p.last;
    assert forall q :: q in useful' ==> q in keep + [p];
    assert ordered[index + 1 - 1] == p;
    assert forall m :: p.first <= m <= MaxLast(ordered[..index + 1]) ==> Holds(p, m);
  }

  lemma OpenTight(ordered: seq<Page>, index: nat, keep: seq<Page>, useful: seq<Page>, marks: seq<int>, low: int, gaps: int)
    requires Sorted(ordered) && NoEmptyPages(ordered) && index < |ordered|
    requires Reached(ordered, index, keep, useful, low, gaps)
    requires ordered[index].first > keep[|keep| - 1].last + 1
    requires Tight(ordered, index, keep, useful, marks, gaps)
    ensures var p := ordered[index];
            Tight(ordered, index + 1, keep + [p], useful + [p], marks + [p.first], gaps + 1)
  {
    hide Blocks, Covers, Redundant, MarksOk;
    var p := ordered[index];
    assert p.first > MaxLast(ordered[..index]) + 1;
    MaxLastSnoc(ordered, index);
    RedundantSnoc(keep, p);
    assert forall i :: 0 <= i < index ==> ordered[..index][i] == ordered[i];
    OpenMarks(ordered, index, marks, MaxLast(ordered[..index]));
  }

  lemma OpenMarks(ordered: seq<Page>, index: nat, marks: seq<int>, top: int)
    requires Sorted(ordered) && NoEmptyPages(ordered) && 0 < index < |ordered|
    requires MarksOk(ordered, marks, top) && ordered[index].first > top + 1
    requires forall i :: 0 <= i < index ==> ordered[i].last <= top
    ensures MarksOk(ordered, marks + [ordered[index].first], ordered[index].last)
  {
    var p := ordered[index];
    assert Holds(p, p.first);
    MarkMore(ordered, marks, top, p.first, p.last);
  }

  /** What one round of the inner loop has seen: every page in reach from `start` on, and the first
      of those that end last. */
  ghost predicate Round(ordered: seq<Page>, start: nat, index: nat, reach: int, best: Option<Page>) {
    && start <= index <= |ordered|
    && (forall i :: start <= i < index ==> ordered[i].first <= reach + 1)
    && (best.None? <==> index == start)
    && (best.Some? ==> best.value in ordered[start..index] && forall i :: start <= i < index ==> ordered[i].last <= best.value.last)
  }

  lemma MaxLastJump(ordered: seq<Page>, start: nat, index: nat, best: int)
    requires 0 < start < index <= |ordered|
    requires forall i :: start <= i < index ==> ordered[i].last <= best
    requires exists i :: start <= i < index && ordered[i].last == best
    ensures MaxLast(ordered[..index]) == if best > MaxLast(ordered[..start]) then best else MaxLast(ordered[..start])
  {
    var whole, part := ordered[..index], ordered[..start];
    assert forall i :: 0 <= i < start ==> whole[i] == part[i];
    assert forall i :: start <= i < index ==> whole[i].last <= best;
    var i :| start <= i < index && ordered[i].last == best;
    assert whole[i].last == best;
    var k :| 0 <= k < |part| && part[k].last == MaxLast(part);
    assert whole[k].last == MaxLast(part);
  }

  lemma {:induction false} BlocksStay(ordered: seq<Page>, start: nat, index: nat, reach: int)
    requires 0 < start <= index <= |ordered| && MaxLast(ordered[..start]) >= reach
    requires forall i :: start <= i < index ==> ordered[i].first <= reach + 1
    ensures Blocks(ordered[..index]) == Blocks(ordered[..start])
    decreases index
  {
    if index > start {
      BlocksStay(ordered, start, index - 1, reach);
      MaxLastSnoc(ordered, index - 1);
      MaxLastGrows(ordered, start, index - 1);
      hide Blocks, MaxLast;
    }
  }

  lemma MaxLastGrows(ordered: seq<Page>, start: nat, index: nat)
    requires 0 < start <= index <= |ordered|
    ensures MaxLast(ordered[..start]) <= MaxLast(ordered[..index])
  {
    var part, whole := ordered[..start], ordered[..index];
    var k :| 0 <= k < start && part[k].last == MaxLast(part);
    assert whole[k] == part[k];
  }

  /** A round in reach extends the block by its best page, or shows that the block had ended. */
  lemma ExtendBlock(ordered: seq<Page>, start: nat, index: nat, best: Page, keep: seq<Page>, useful: seq<Page>, low: int, gaps: int)
    requires Sorted(ordered) && start < index
    requires Reached(ordered, start, keep, useful, low, gaps)
    requires Round(ordered, start, index, keep[|keep| - 1].last, Some(best))
    requires index < |ordered| ==> ordered[index].first > keep[|keep| - 1].last + 1
    ensures keep[|keep| - 1].last == MaxLast(ordered[..start])
    ensures MaxLast(ordered[..index]) == if best.last > MaxLast(ordered[..start]) then best.last else MaxLast(ordered[..start])
    ensures Reached(ordered, index, keep + [best], if best.last > MaxLast(ordered[..start]) then useful + [best] else useful, low, gaps)
  {
    hide MaxLast, Blocks, Covers;
    var top, reach := MaxLast(ordered[..start]), keep[|keep| - 1].last;
    assert ordered[start].first <= reach + 1;
    assert reach == top;
    assert exists i :: start <= i < index && ordered[i].last == best.last;
    MaxLastJump(ordered, start, index, best.last);
    BlocksStay(ordered, start, index, reach);
    var more := best.last > top;
    var useful' := if more then useful + [best] else useful;
    assert best.first <= reach + 1;
    BlockCovered(useful, best, low, top, useful');
    forall i, m | start <= i < index && Holds(ordered[i], m) ensures Covered(useful', m) {
      assert low <= ordered[start - 1].first <= ordered[i].first <= m <= best.last;
    }
    CoversMore(ordered, start, index, useful, useful');
    var j :| 0 <= j < |useful| && useful[j].last == top;
    assert useful'[j].last == top && (more ==> useful'[|useful|].last == best.last);
    assert forall q :: q in useful' ==> q in keep + [best];
  }

  lemma BlockCovered(useful: seq<Page>, best: Page, low: int, top: int, useful': seq<Page>)
    requires forall m :: low <= m <= top ==> Covered(useful, m)
    requires best.first <= top + 1
    requires useful' == if best.last > top then useful + [best] else useful
    ensures forall m :: low <= m <= top || low <= m <= best.last ==> Covered(useful', m)
  {
    forall m | low <= m <= top || low <= m <= best.last ensures Covered(useful', m) {
      if m <= top {
        assert Covered(useful, m);
        if best.last > top { CoveredMore(useful, [best], m); }
      } else {
        CoveredLast(useful, best, m);
      }
    }
  }

  lemma ExtendTight(ordered: seq<Page>, start: nat, index: nat, best: Page, keep: seq<Page>, useful: seq<Page>, marks: seq<int>, low: int, gaps: int)
    requires Sorted(ordered) && NoEmptyPages(ordered) && start < index
    requires Reached(ordered, start, keep, useful, low, gaps)
    requires Round(ordered, start, index, keep[|keep| - 1].last, Some(best))
    requires index < |ordered| ==> ordered[index].first > keep[|keep| - 1].last + 1
    requires keep[|keep| - 1].last == MaxLast(ordered[..start])
    requires MaxLast(ordered[..index]) == if best.last > MaxLast(ordered[..start]) then best.last else MaxLast(ordered[..start])
    requires Tight(ordered, start, keep, useful, marks, gaps)
    ensures var top := MaxLast(ordered[..start]);
            var more := best.last > top;
            Tight(ordered, index, keep + [best], if more then useful + [best] else useful, if more then marks + [top + 1] else marks, gaps)
  {
    hide MaxLast, Blocks, Covers, Redundant, MarksOk;
    var top := MaxLast(ordered[..start]);
    RedundantSnoc(keep, best);
    assert ordered[start].first <= top + 1;
    assert !EndsRedundant(keep);
    if best.last > top {
      assert forall i :: 0 <= i < start ==> ordered[..start][i] == ordered[i];
      ExtendMarks(ordered, start, index, best, marks, top);
    }
  }

  lemma HopsSnoc(ps: seq<Page>, i: nat)
    requires 0 < i < |ps|
    ensures var h, p := Hops(ps[..i]), ps[i];
            Hops(ps[..i + 1]) ==
              if p.first > h.far + 1 then Hop(p.last, p.last, true)
              else Hop(if p.first > h.near + 1 then h.far else h.near, if p.last > h.far then p.last else h.far, false)
    ensures StalledBefore(ps[..i + 1]) ==
              StalledBefore(ps[..i]) + if ps[i].first > Hops(ps[..i]).far + 1 && Stalled(ps[..i]) then 1 else 0
  {
    assert ps[..i + 1][..i] == ps[..i];
  }

  lemma OpenCounted(ordered: seq<Page>, index: nat, keep: seq<Page>, useful: seq<Page>, low: int, gaps: int)
    requires Sorted(ordered) && NoEmptyPages(ordered) && index < |ordered|
    requires Reached(ordered, index, keep, useful, low, gaps)
    requires ordered[index].first > keep[|keep| - 1].last + 1
    requires Counted(ordered, index, keep)
    ensures Counted(ordered, index + 1, keep + [ordered[index]])
  {
    hide Blocks, Covers, Redundant, MaxLast, Hops, StalledBefore;
    var p := ordered[index];
    assert p.first > MaxLast(ordered[..index]) + 1;
    MaxLastSnoc(ordered, index);
    HopsSnoc(ordered, index);
    RedundantSnoc(keep, p);
  }

  /** A round in reach of the last hop begins the next, which ends at its best page. */
  lemma {:induction false} HopsInReach(ordered: seq<Page>, start: nat, index: nat, best: int)
    requires 0 < start < index <= |ordered|
    requires var h := Hops(ordered[..start]);
             && (h.near == h.far || ordered[start].first > h.near + 1)
             && (forall i :: start <= i < index ==> ordered[i].first <= h.far + 1 && ordered[start].first <= ordered[i].first)
    requires forall i :: start <= i < index ==> ordered[i].last <= best
    requires exists i :: start <= i < index && ordered[i].last == best
    ensures var far := Hops(ordered[..start]).far;
            Hops(ordered[..index]) == Hop(far, if best > far then best else far, false)
    ensures StalledBefore(ordered[..index]) == StalledBefore(ordered[..start])
    decreases index
  {
    hide Hops, StalledBefore;
    HopsSnoc(ordered, index - 1);
    if index > start + 1 {
      var best' := BestOf(ordered, start, index - 1);
      HopsInReach(ordered, start, index - 1, best');
    }
  }

  lemma {:induction false} BestOf(ordered: seq<Page>, start: nat, index: nat) returns (best: int)
    requires start < index <= |ordered|
    ensures forall i :: start <= i < index ==> ordered[i].last <= best
    ensures exists i :: start <= i < index && ordered[i].last == best
    decreases index
  {
    best := ordered[index - 1].last;
    if index > start + 1 {
      var b := BestOf(ordered, start, index - 1);
      if b > best { best := b; }
    }
  }

  lemma ExtendCounted(ordered: seq<Page>, start: nat, index: nat, best: Page, keep: seq<Page>, useful: seq<Page>, marks: seq<int>, low: int, gaps: int)
    requires Sorted(ordered) && NoEmptyPages(ordered) && start < index
    requires Reached(ordered, start, keep, useful, low, gaps)
    requires Round(ordered, start, index, keep[|keep| - 1].last, Some(best))
    requires index < |ordered| ==> ordered[index].first > keep[|keep| - 1].last + 1
    requires keep[|keep| - 1].last == MaxLast(ordered[..start])
    requires MaxLast(ordered[..index]) == if best.last > MaxLast(ordered[..start]) then best.last else MaxLast(ordered[..start])
    requires Tight(ordered, start, keep, useful, marks, gaps)
    requires Counted(ordered, start, keep)
    ensures Counted(ordered, index, keep + [best])
  {
    hide MaxLast, Blocks, Covers, Redundant, MarksOk, Hops, StalledBefore;
    var top := MaxLast(ordered[..start]);
    RedundantSnoc(keep, best);
    assert ordered[start].first <= top + 1;
    assert !EndsRedundant(keep);
    HopsInReach(ordered, start, index, best.last);
  }

  lemma ExtendMarks(ordered: seq<Page>, start: nat, index: nat, best: Page, marks: seq<int>, top: int)
    requires Sorted(ordered) && 0 < start < index <= |ordered| && best in ordered[start..index]
    requires MarksOk(ordered, marks, top) && best.first <= top + 1 <= best.last
    requires forall i :: 0 <= i < start ==> ordered[i].last <= top
    requires forall i :: start <= i < index ==> ordered[i].last <= best.last
    requires index < |ordered| ==> ordered[index].first > top + 1
    ensures MarksOk(ordered, marks + [top + 1], best.last)
  {
    hide MarksOk;
    assert Covered(ordered, top + 1) by {
      var i :| start <= i < index && ordered[i] == best;
      assert Holds(ordered[i], top + 1);
    }
    forall k | 0 <= k < |ordered| && ordered[k].first <= top + 1 ensures ordered[k].last <= best.last {
      assert k < index;
    }
    hide *;
    MarkMore(ordered, marks, top, top + 1, best.last);
  }

  /** A minute beyond `top` that some page holds, with every page that starts by it ending by `end`. */
  lemma MarkMore(ordered: seq<Page>, marks: seq<int>, top: int, mark: int, end: int)
    requires MarksOk(ordered, marks, top) && mark > top && mark <= end && Covered(ordered, mark)
    requires forall k :: 0 <= k < |ordered| && ordered[k].first <= mark ==> ordered[k].last <= end
    ensures MarksOk(ordered, marks + [mark], end)
  {
    hide Covered;
    var marks' := marks + [mark];
    assert forall t :: 0 <= t < |marks| ==> marks'[t] == marks[t];
  }

  /** The pages in reach from `index` on: where they end, and the first of those that end last. */
  function Scan(ps: seq<Page>, index: nat, reach: int, best: Option<Page>): (r: (nat, Option<Page>))
    requires index <= |ps|
    ensures index <= r.0 <= |ps| && (best.Some? || r.0 > index ==> r.1.Some?)
    ensures r.0 == index ==> r.1 == best
    decreases |ps| - index
  {
    if index < |ps| && ps[index].first <= reach + 1 then
      Scan(ps, index + 1, reach, if best.None? || ps[index].last > best.value.last then Some(ps[index]) else best)
    else (index, best)
  }

  /** The pages the pass keeps from `index` on. */
  function Greedy(ps: seq<Page>, index: nat, reach: Option<int>): seq<Page>
    requires index <= |ps|
    decreases |ps| - index
  {
    if index == |ps| then [] else
    var (next, best) := if reach.Some? then Scan(ps, index, reach.value, None) else (index, None);
    if best.Some? && next > index then [best.value] + Greedy(ps, next, Some(best.value.last))
    else [ps[index]] + Greedy(ps, index + 1, Some(ps[index].last))
  }

  /** The plan `raw_retention_plan` reports, apart from file sizes. */
  datatype Plan = Plan(keep: seq<Page>, redundantPages: int, gaps: int)

  /** The loop invariant: nothing is known before the first page. */
  ghost predicate Passed(ordered: seq<Page>, index: nat, keep: seq<Page>, record: Record, gaps: int) {
    && index <= |ordered| && (keep == [] <==> index == 0)
    && (index == 0 ==> gaps == 0 && record.useful == [] && record.marks == [])
    && (index > 0 ==> Reached(ordered, index, keep, record.useful, record.low, gaps))
    && (index > 0 && NoEmptyPages(ordered) ==> Tight(ordered, index, keep, record.useful, record.marks, gaps) && Counted(ordered, index, keep))
  }

  /** The proof's record of a pass: useful picks, independent minutes, start of the current block. */
  datatype Record = Record(useful: seq<Page>, marks: seq<int>, low: int)

  lemma PassOpens(ordered: seq<Page>, start: nat, keep: seq<Page>, record: Record, gaps: int) returns (record': Record)
    requires Sorted(ordered) && start < |ordered| && Passed(ordered, start, keep, record, gaps)
    requires keep != [] ==> ordered[start].first > keep[|keep| - 1].last + 1
    ensures Passed(ordered, start + 1, keep + [ordered[start]], record', if keep == [] then gaps else gaps + 1)
  {
    hide Reached, Tight, Counted, MaxLast, Blocks, Redundant;
    var p := ordered[start];
    record' := Record(record.useful + [p], record.marks + [p.first], p.first);
    if keep == [] {
      FirstPage(ordered);
      assert keep + [p] == [p] && record'.useful == [p] && record'.marks == [p.first];
    } else {
      OpenBlock(ordered, start, keep, record.useful, record.low, gaps);
      if NoEmptyPages(ordered) {
        OpenTight(ordered, start, keep, record.useful, record.marks, record.low, gaps);
        OpenCounted(ordered, start, keep, record.useful, record.low, gaps);
      }
    }
  }

  lemma PassExtends(ordered: seq<Page>, start: nat, index: nat, best: Page, keep: seq<Page>, record: Record, gaps: int) returns (record': Record)
    requires Sorted(ordered) && start < index && Passed(ordered, start, keep, record, gaps) && keep != []
    requires Round(ordered, start, index, keep[|keep| - 1].last, Some(best))
    requires index < |ordered| ==> ordered[index].first > keep[|keep| - 1].last + 1
    ensures Passed(ordered, index, keep + [best], record', gaps)
  {
    hide Reached, Tight, Counted, MaxLast, Blocks, Redundant;
    ExtendBlock(ordered, start, index, best, keep, record.useful, record.low, gaps);
    if NoEmptyPages(ordered) {
      ExtendTight(ordered, start, index, best, keep, record.useful, record.marks, record.low, gaps);
      ExtendCounted(ordered, start, index, best, keep, record.useful, record.marks, record.low, gaps);
    }
    var top := MaxLast(ordered[..start]);
    record' := if best.last > top then record.(useful := record.useful + [best], marks := record.marks + [top + 1]) else record;
  }

  lemma PassEnds(ordered: seq<Page>, keep: seq<Page>, record: Record, gaps: int)
    requires Passed(ordered, |ordered|, keep, record, gaps) && forall p :: p in keep ==> p in ordered
    ensures ordered == [] ==> keep == [] && gaps == 0
    ensures ordered != [] ==> Blocks(ordered) == gaps + 1 && keep != [] && keep[0] == ordered[0] && MaxLast(keep) == MaxLast(ordered)
    ensures Covers(keep, ordered)
    ensures NoEmptyPages(ordered) ==>
              && Planned(ordered, keep, record.useful, record.marks) && Redundant(keep) <= Blocks(ordered)
              && (forall p :: p in record.useful ==> p in keep)
              && (NoSmallerCover(ordered, |keep|) <==> NeverStalls(ordered))
  {
    assert ordered[..|ordered|] == ordered;
    if ordered == [] {
      return;
    }
    KeepCovers(ordered, keep, record.useful);
    if NoEmptyPages(ordered) {
      MarksAreIndependent(ordered, record.marks, MaxLast(ordered));
      MinimalExactly(ordered, keep, record.useful, record.marks);
    }
  }

  /** One turn of the outer loop: the pages in reach give at most one pick; none in reach is a gap. */
  method OneRound(ordered: seq<Page>, start: nat, keep: seq<Page>, gaps: nat, ghost record: Record)
    returns (index: nat, pick: Page, gaps': nat, ghost record': Record)
    requires Sorted(ordered) && start < |ordered| && Passed(ordered, start, keep, record, gaps)
    ensures start < index <= |ordered| && pick in ordered
    ensures Passed(ordered, index, keep + [pick], record', gaps')
    ensures keep + Greedy(ordered, start, ReachOf(keep)) == (keep + [pick]) + Greedy(ordered, index, ReachOf(keep + [pick]))
  {
    hide Passed, MaxLast, Blocks, Redundant, Greedy, Scan;
    assert keep == [] <==> start == 0 by { PassedStart(ordered, start, keep, record, gaps); }
    var best: Option<Page> := None;
    index, gaps', record' := start, gaps, record;
    if keep != [] {
      ghost var b;
      index, best, b := PagesInReach(ordered, start, keep[|keep| - 1].last);
    }
    if best.None? {
      record' := PassOpens(ordered, start, keep, record, gaps);
      gaps' := if keep != [] then gaps + 1 else gaps;
      pick, index := ordered[start], start + 1;
    } else {
      pick := best.value;
      record' := PassExtends(ordered, start, index, pick, keep, record, gaps);
    }
    GreedyPick(ordered, start, ReachOf(keep), index, pick, keep);
  }

  lemma PassedStart(ordered: seq<Page>, index: nat, keep: seq<Page>, record: Record, gaps: int)
    requires Passed(ordered, index, keep, record, gaps)
    ensures keep == [] <==> index == 0
  {
  }

  function ReachOf(keep: seq<Page>): Option<int> {
    if keep == [] then None else Some(keep[|keep| - 1].last)
  }

  /** The greedy pass. It keeps a cover of the whole archive and counts the gaps between contiguous
      blocks exactly. It keeps one page for each stalled block more than the smallest cover has, so
      it is minimal exactly when no block stalls. */
  method RetentionPlan(ordered: seq<Page>) returns (plan: Plan, ghost useful: seq<Page>, ghost marks: seq<int>)
    requires Sorted(ordered)
    ensures ordered == [] ==> plan == Plan([], 0, 0)
    ensures plan.keep == Greedy(ordered, 0, None)
    ensures forall p :: p in plan.keep ==> p in ordered
    ensures Covers(plan.keep, ordered)
    ensures ordered != [] ==> plan.gaps == Blocks(ordered) - 1
    ensures plan.redundantPages == |ordered| - |plan.keep|
    ensures ordered != [] ==> plan.keep != [] && plan.keep[0] == ordered[0] && MaxLast(plan.keep) == MaxLast(ordered)
    ensures NoEmptyPages(ordered) ==>
              && Planned(ordered, plan.keep, useful, marks) && Redundant(plan.keep) <= Blocks(ordered)
              && (forall p :: p in useful ==> p in plan.keep)
              && (NoSmallerCover(ordered, |plan.keep|) <==> NeverStalls(ordered))
  {
    var keep: seq<Page> := [];
    var index, gaps := 0, 0;
    ghost var record := Record([], [], 0);
    assert Passed(ordered, index, keep, record, gaps) && ReachOf(keep) == None;
    hide *;
    assert keep + Greedy(ordered, 0, None) == Greedy(ordered, 0, None);
    while index < |ordered|
      invariant index <= |ordered| && Passed(ordered, index, keep, record, gaps)
      invariant forall p :: p in keep ==> p in ordered
      invariant keep + Greedy(ordered, index, ReachOf(keep)) == Greedy(ordered, 0, None)
    {
      var pick;
      index, pick, gaps, record := OneRound(ordered, index, keep, gaps, record);
      keep := keep + [pick];
    }
    NothingLeft(ordered, ReachOf(keep));
    assert keep + [] == keep;
    PassEnds(ordered, keep, record, gaps);
    plan, useful, marks := Plan(keep, |ordered| - |keep|, gaps), record.useful, record.marks;
  }

  /** Of the pages consumed, the one at `b` is the first that ends as late as any. */
  ghost predicate FirstLongest(ordered: seq<Page>, start: nat, index: nat, b: nat) {
    && start <= b < index <= |ordered|
    && (forall i :: start <= i < b ==> ordered[i].last < ordered[b].last) && forall i :: b <= i < index ==> ordered[i].last <= ordered[b].last
  }

  lemma LongestStep(ordered: seq<Page>, start: nat, index: nat, b: nat)
    requires index < |ordered| && FirstLongest(ordered, start, index, b)
    ensures FirstLongest(ordered, start, index + 1, if ordered[index].last > ordered[b].last then index else b)
  {
  }

  lemma LongestIsRound(ordered: seq<Page>, start: nat, index: nat, reach: int, b: nat)
    requires FirstLongest(ordered, start, index, b) && forall i :: start <= i < index ==> ordered[i].first <= reach + 1
    ensures Round(ordered, start, index, reach, Some(ordered[b]))
  {
    assert ordered[start..index][b - start] == ordered[b];
  }

  /** The inner loop: consume every page in reach and remember the first of those that end last. */
  method PagesInReach(ordered: seq<Page>, start: nat, reach: int) returns (index: nat, best: Option<Page>, ghost b: nat)
    requires start <= |ordered|
    ensures Round(ordered, start, index, reach, best)
    ensures index < |ordered| ==> ordered[index].first > reach + 1
    ensures Scan(ordered, start, reach, None) == (index, best)
    ensures index > start ==> FirstLongest(ordered, start, index, b) && best == Some(ordered[b])
  {
    hide FirstLongest, Round;
    index, best, b := start, None, start;
    assert Round(ordered, start, start, reach, None) by { NoRound(ordered, start, reach); }
    while index < |ordered| && ordered[index].first <= reach + 1
      invariant start <= index <= |ordered| && forall i :: start <= i < index ==> ordered[i].first <= reach + 1
      invariant index == start ==> best == None
      invariant index > start ==> b < |ordered| && FirstLongest(ordered, start, index, b) && best == Some(ordered[b])
      invariant Scan(ordered, start, reach, None) == Scan(ordered, index, reach, best)
    {
      if best.None? || ordered[index].last > best.value.last {
        best := Some(ordered[index]);
      }
      if index == start {
        OneLongest(ordered, start);
      } else {
        LongestStep(ordered, start, index, b);
      }
      b := if index == start || ordered[index].last > ordered[b].last then index else b;
      index := index + 1;
    }
    if index > start {
      LongestIsRound(ordered, start, index, reach, b);
    }
  }

  lemma NoRound(ordered: seq<Page>, start: nat, reach: int)
    requires start <= |ordered|
    ensures Round(ordered, start, start, reach, None)
  {
  }

  lemma OneLongest(ordered: seq<Page>, start: nat)
    requires start < |ordered|
    ensures FirstLongest(ordered, start, start + 1, start)
  {
  }

  lemma Regroup(a: seq<Page>, p: Page, b: seq<Page>)
    ensures (a + [p]) + b == a + ([p] + b)
  {
  }

  lemma GreedyPick(ps: seq<Page>, start: nat, reach: Option<int>, index: nat, pick: Page, keep: seq<Page>)
    requires start < index <= |ps|
    requires (reach.Some? && Scan(ps, start, reach.value, None) == (index, Some(pick)))
          || ((reach.None? || Scan(ps, start, reach.value, None) == (start, None)) && index == start + 1 && pick == ps[start])
    ensures (keep + [pick]) + Greedy(ps, index, Some(pick.last)) == keep + Greedy(ps, start, reach)
  {
    hide Scan;
    var rest := Greedy(ps, index, Some(pick.last));
    assert Greedy(ps, start, reach) == [pick] + rest;
    hide *;
    Regroup(keep, pick, rest);
  }

  lemma NothingLeft(ps: seq<Page>, reach: Option<int>)
    ensures Greedy(ps, |ps|, reach) == []
  {
  }

  lemma FirstPage(ordered: seq<Page>)
    requires ordered != [] && Sorted(ordered)
    ensures Reached(ordered, 1, [ordered[0]], [ordered[0]], ordered[0].first, 0)
    ensures NoEmptyPages(ordered) ==> Tight(ordered, 1, [ordered[0]], [ordered[0]], [ordered[0].first], 0) && Counted(ordered, 1, [ordered[0]])
  {
    var p := ordered[0];
    assert ordered[..1] == [p];
    assert MaxLast([p]) == p.last && Blocks([p]) == 1 by { assert [p][..0] == []; }
    forall m | Holds(p, m) ensures Covered([p], m) {
      assert Holds([p][0], m);
    }
    if NoEmptyPages(ordered) {
      assert Holds(p, p.first);
    }
  }

  lemma KeepCovers(ordered: seq<Page>, keep: seq<Page>, useful: seq<Page>)
    requires ordered != [] && keep != [] && Covers(useful, ordered) && forall p :: p in useful ==> p in keep
    requires forall p :: p in keep ==> p in ordered
    requires exists j :: 0 <= j < |useful| && useful[j].last == MaxLast(ordered)
    ensures Covers(keep, ordered) && MaxLast(keep) == MaxLast(ordered)
  {
    forall i, m | 0 <= i < |ordered| && Holds(ordered[i], m) ensures Covered(keep, m) {
      assert Covered(useful, m);
      var j :| 0 <= j < |useful| && Holds(useful[j], m);
      assert useful[j] in keep;
    }
    var j :| 0 <= j < |useful| && useful[j].last == MaxLast(ordered);
    assert useful[j] in keep;
    var k :| 0 <= k < |keep| && keep[k].last == MaxLast(keep);
    assert keep[k] in ordered;
  }

  // ---------------------------------------------------------------- the optimum

  /** The numbered pages hold every minute of the archive. */
  ghost predicate CoverOf(cover: set<nat>, ordered: seq<Page>) {
    && (forall i :: i in cover ==> i < |ordered|)
    && forall i, m :: 0 <= i < |ordered| && Holds(ordered[i], m) ==> HeldBy(cover, ordered, m)
  }

  /** No set of archived pages that covers every minute is smaller than `n`. */
  ghost predicate NoSmallerCover(ordered: seq<Page>, n: int) {
    forall cover: set<nat> :: CoverOf(cover, ordered) ==> |cover| >= n
  }

  ghost predicate HasCover(ordered: seq<Page>, n: int) {
    exists cover: set<nat> :: CoverOf(cover, ordered) && |cover| <= n
  }

  lemma IndependentBound(ordered: seq<Page>, marks: seq<int>)
    requires Independent(marks, ordered)
    ensures NoSmallerCover(ordered, |marks|)
  {
    forall cover: set<nat> | CoverOf(cover, ordered) ensures |cover| >= |marks| {
      forall t | 0 <= t < |marks| ensures HeldBy(cover, ordered, marks[t]) {
        var i :| 0 <= i < |ordered| && Holds(ordered[i], marks[t]);
      }
      CoverNeedsMarks(marks, ordered, cover);
    }
  }

  ghost predicate PlacedIn(p: Page, cover: set<nat>, ordered: seq<Page>) {
    exists i :: i in cover && i < |ordered| && ordered[i] == p
  }

  /** The places of some archived pages in the archive. */
  lemma {:induction false} Places(pages: seq<Page>, ordered: seq<Page>) returns (cover: set<nat>)
    requires forall p :: p in pages ==> p in ordered
    ensures |cover| <= |pages| && forall i :: i in cover ==> i < |ordered|
    ensures forall p :: p in pages ==> PlacedIn(p, cover, ordered)
  {
    cover := {};
    if pages != [] {
      var rest := Places(pages[1..], ordered);
      assert pages[0] in pages;
      var i :| 0 <= i < |ordered| && ordered[i] == pages[0];
      cover := rest + {i};
      forall p | p in pages ensures PlacedIn(p, cover, ordered) {
        if p != pages[0] {
          assert p in pages[1..];
          var k :| k in rest && k < |ordered| && ordered[k] == p;
          assert k in cover;
        } else {
          assert i in cover;
        }
      }
    }
  }

  lemma PagesAreCover(pages: seq<Page>, ordered: seq<Page>)
    requires Covers(pages, ordered) && forall p :: p in pages ==> p in ordered
    ensures HasCover(ordered, |pages|)
  {
    var cover := Places(pages, ordered);
    forall i, m | 0 <= i < |ordered| && Holds(ordered[i], m) ensures HeldBy(cover, ordered, m) {
      assert Covered(pages, m);
      var j :| 0 <= j < |pages| && Holds(pages[j], m);
      assert pages[j] in pages && PlacedIn(pages[j], cover, ordered);
    }
    assert CoverOf(cover, ordered);
  }

  /** What `RetentionPlan` promises of its picks. */
  ghost predicate Planned(ordered: seq<Page>, keep: seq<Page>, useful: seq<Page>, marks: seq<int>) {
    && |keep| == |marks| + Redundant(keep) && Redundant(keep) == StalledBlocks(ordered) && Independent(marks, ordered)
    && |useful| == |marks| && Covers(useful, ordered) && (forall p :: p in useful ==> p in ordered)
  }

  /** The optimum: the smallest cover has exactly one page less for every stalled block, so the plan
      is minimal exactly when no block is stalled. */
  lemma MinimalExactly(ordered: seq<Page>, keep: seq<Page>, useful: seq<Page>, marks: seq<int>)
    requires Planned(ordered, keep, useful, marks)
    ensures NoSmallerCover(ordered, |keep| - StalledBlocks(ordered)) && HasCover(ordered, |keep| - StalledBlocks(ordered))
    ensures NoSmallerCover(ordered, |keep|) <==> NeverStalls(ordered)
  {
    IndependentBound(ordered, marks);
    PagesAreCover(useful, ordered);
    NoneStalled(ordered);
  }

  lemma {:induction false} NoneStalled(ps: seq<Page>)
    ensures StalledBlocks(ps) == 0 <==> NeverStalls(ps)
  {
    StalledBeforeZero(ps);
    if ps != [] {
      assert ps[..|ps| - 1 + 1] == ps;
      assert EndsBlock(ps, |ps| - 1);
    }
  }

  lemma {:induction false} StalledBeforeZero(ps: seq<Page>)
    ensures StalledBefore(ps) == 0 <==> forall k :: 0 <= k < |ps| - 1 && EndsBlock(ps, k) ==> !Stalled(ps[..k + 1])
  {
    hide Stalled, Hops;
    if |ps| > 1 {
      var front := ps[..|ps| - 1];
      StalledBeforeZero(front);
      assert forall n: int {:trigger front[..n]} {:trigger ps[..n]} :: 0 <= n <= |front| ==> front[..n] == ps[..n];
      assert front[..|ps| - 1] == front;
      assert EndsBlock(ps, |ps| - 2) <==> ps[|ps| - 1].first > Hops(front).far + 1;
      assert forall k :: 0 <= k < |ps| - 2 ==> (EndsBlock(ps, k) <==> EndsBlock(front, k));
    }
  }

  /** A caller's test: a block whose last page ends after every other page of the archive up to it
      is not stalled. When all end so, as they do when downloads never reach back inside an older
      page, the plan is minimal. */
  lemma LastPageEndsLast(ordered: seq<Page>, keep: seq<Page>, useful: seq<Page>, marks: seq<int>)
    requires Planned(ordered, keep, useful, marks)
    requires forall i, k :: 0 <= i < k < |ordered| && EndsBlock(ordered, k) ==> ordered[i].last < ordered[k].last
    ensures NoSmallerCover(ordered, |keep|)
  {
    forall k | EndsBlock(ordered, k) ensures !Stalled(ordered[..k + 1]) {
      if k > 0 {
        HopsSnoc(ordered, k);
        HopsBounded(ordered[..k]);
        assert forall i :: 0 <= i < k ==> ordered[..k][i] == ordered[i];
      } else {
        assert ordered[..1][0] == ordered[0];
      }
    }
    MinimalExactly(ordered, keep, useful, marks);
  }

  lemma {:induction false} HopsBounded(ps: seq<Page>)
    requires ps != []
    ensures Hops(ps).near <= Hops(ps).far
    ensures exists i :: 0 <= i < |ps| && ps[i].last == Hops(ps).far
  {
    if |ps| > 1 {
      var front := ps[..|ps| - 1];
      HopsBounded(front);
      var i :| 0 <= i < |front| && front[i].last == Hops(front).far;
      assert ps[i] == front[i];
    }
  }

  /** The greedy pass is not always minimal: a page inside the reach of the pick before it is still
      kept when nothing extends the block. */
  lemma ContainedPageIsKept()
    ensures var pages := [Page(0, 100, "a"), Page(50, 60, "b")];
            Greedy(pages, 0, None) == pages && Stalled(pages) && Covers(pages[..1], pages)
  {
    var pages := [Page(0, 100, "a"), Page(50, 60, "b")];
    assert Scan(pages, 1, 100, None) == (2, Some(pages[1]));
    assert pages[..1] == [pages[0]];
    forall i, m | 0 <= i < |pages| && Holds(pages[i], m) ensures Covered(pages[..1], m) {
      assert Holds(pages[..1][0], m);
    }
  }
}
