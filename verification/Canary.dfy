/** Breakout transitions and the decisions made of them (xauusd/canary_strategy.py,
    xauusd/engine_loop.py): which transition a read emits, and how often a transition can be filled
    when processes restart and decisions carry ids. */
module Canary {
  import opened Prelude

  /** A closed bar with the signal of its time: -1, 0 or 1. */
  datatype Bar = Bar(time: int, signal: int)

  datatype Transition = Transition(time: int, signal: int)

  ghost predicate Increasing(bars: seq<Bar>) { forall i, j :: 0 <= i < j < |bars| ==> bars[i].time < bars[j].time }

  predicate ValidSignals(bars: seq<Bar>) { forall i :: 0 <= i < |bars| ==> -1 <= bars[i].signal <= 1 }

  /** The signal is on and differs from the one before. */
  predicate Turns(bars: seq<Bar>, i: nat)
    requires i < |bars|
  {
    bars[i].signal != 0 && bars[i].signal != if i == 0 then 0 else bars[i - 1].signal
  }

  /** Bars up to a time. */
  function Observed(bars: seq<Bar>, last: int): (n: nat)
    ensures n <= |bars|
  {
    if bars == [] then 0
    else if bars[|bars| - 1].time <= last then |bars|
    else Observed(bars[..|bars| - 1], last)
  }

  /** The newest transition at or after index `from`. */
  function Newest(bars: seq<Bar>, from: nat): (r: Option<nat>)
    ensures r.Some? ==> from <= r.value < |bars|
  {
    if |bars| <= from then None
    else if Turns(bars, |bars| - 1) then Some(|bars| - 1)
    else Newest(bars[..|bars| - 1], from)
  }

  /** Where the actionable part of the unobserved bars begins. */
  function Oldest(bars: seq<Bar>, last: Option<int>, backlog: nat): nat {
    if last.None? then (if bars == [] then 0 else |bars| - 1)
    else
      var n := Observed(bars, last.value);
      if |bars| - n > backlog then |bars| - backlog else n
  }

  /** A first read looks at the newest bar only; later reads look at the newest unobserved bars. */
  function Emission(bars: seq<Bar>, last: Option<int>, backlog: nat): Option<nat> { Newest(bars, Oldest(bars, last, backlog)) }

  // ---------------------------------------------------------------- what a read emits

  lemma {:induction false} NewestMeaning(bars: seq<Bar>, from: nat)
    ensures match Newest(bars, from)
            case Some(i) => Turns(bars, i) && forall k :: i < k < |bars| ==> !Turns(bars, k)
            case None => forall k :: from <= k < |bars| ==> !Turns(bars, k)
  {
    if |bars| > from && !Turns(bars, |bars| - 1) {
      var front := bars[..|bars| - 1];
      NewestMeaning(front, from);
      assert forall k :: 0 <= k < |front| ==> (Turns(front, k) <==> Turns(bars, k));
    }
  }

  lemma {:induction false} ObservedMeaning(bars: seq<Bar>, last: int)
    requires Increasing(bars)
    ensures forall i :: 0 <= i < |bars| ==> (bars[i].time <= last <==> i < Observed(bars, last))
  {
    if bars != [] && bars[|bars| - 1].time > last {
      ObservedMeaning(bars[..|bars| - 1], last);
    }
  }

  /** A bar whose signal is on and was not the signal of the bar before. */
  predicate Confirms(bars: seq<Bar>, k: int) {
    0 <= k < |bars| && bars[k].signal != 0 && (k > 0 ==> bars[k - 1].signal != bars[k].signal)
  }

  /** An emitted transition is one of the last `backlog` bars, was not observed before, and is the
      newest of those; nothing is emitted exactly when there is none. */
  lemma EmissionMeaning(bars: seq<Bar>, last: Option<int>, backlog: nat)
    requires Increasing(bars) && backlog >= 1
    ensures match Emission(bars, last, backlog)
            case Some(i) =>
              && i < |bars| && Confirms(bars, i) && |bars| - i <= backlog
              && (last.Some? ==> bars[i].time > last.value) && (last.None? ==> i == |bars| - 1)
              && forall k :: i < k < |bars| ==> !Confirms(bars, k)
            case None =>
              forall k :: 0 <= k < |bars| && |bars| - k <= backlog && (if last.Some? then bars[k].time > last.value else k == |bars| - 1) ==> !Confirms(bars, k)
  {
    NewestMeaning(bars, Oldest(bars, last, backlog));
    assert forall k: nat :: k < |bars| ==> (Turns(bars, k) <==> Confirms(bars, k));
    if last.Some? {
      ObservedMeaning(bars, last.value);
    }
  }

  /** When every read sees one more bar, every transition is emitted, each on its own bar. */
  lemma EveryBarEveryTransition(bars: seq<Bar>, backlog: nat)
    requires Increasing(bars) && backlog >= 1 && |bars| >= 2
    ensures Emission(bars, Some(bars[|bars| - 2].time), backlog) == if Confirms(bars, |bars| - 1) then Some(|bars| - 1) else None
  {
    EmissionMeaning(bars, Some(bars[|bars| - 2].time), backlog);
  }

  // ---------------------------------------------------------------- the source

  datatype ReadError = InvalidSignal

  class ConfirmedBreakoutCanarySource {
    const backlog: nat
    var lastObserved: Option<int>

    constructor (backlog: nat)
      ensures this.backlog == backlog && lastObserved == None
    {
      this.backlog, lastObserved := backlog, None;
    }

    /** The pending transition of a snapshot; the newest bar counts as observed from then on, also
        when nothing is emitted, unless the snapshot is empty or its signals are invalid. */
    method Read(bars: seq<Bar>) returns (r: Result<Option<Transition>, ReadError>)
      modifies this
      ensures r.Ok? <==> forall bar :: bar in bars ==> bar.signal == -1 || bar.signal == 0 || bar.signal == 1
      ensures r.Err? || bars == [] ==> lastObserved == old(lastObserved)
      ensures r.Ok? && bars != [] ==> lastObserved == Some(bars[|bars| - 1].time)
      ensures r.Ok? ==> r.value == match Emission(bars, old(lastObserved), backlog) case None => None case Some(i) => Some(Transition(bars[i].time, bars[i].signal))
    {
      assert ValidSignals(bars) <==> forall bar :: bar in bars ==> -1 <= bar.signal <= 1;
      if bars == [] {
        return Ok(None);
      }
      if !ValidSignals(bars) {
        return Err(InvalidSignal);
      }
      var pending := PendingTransition(bars);
      lastObserved := Some(bars[|bars| - 1].time);
      r := Ok(pending);
    }

    method PendingTransition(bars: seq<Bar>) returns (r: Option<Transition>)
      requires bars != []
      ensures r == match Emission(bars, lastObserved, backlog) case None => None case Some(i) => Some(Transition(bars[i].time, bars[i].signal))
    {
      var oldest := |bars| - 1;
      if lastObserved.Some? {
        var window := CountObserved(bars, lastObserved.value);
        if window == |bars| {
          return None;
        }
        oldest := if |bars| - window > backlog then |bars| - backlog else window;
      }
      var i := |bars|;
      assert bars[..i] == bars;
      while i > oldest
        invariant oldest <= i <= |bars| && oldest == Oldest(bars, lastObserved, backlog)
        invariant Newest(bars[..i], oldest) == Newest(bars, oldest)
      {
        assert bars[..i][..i - 1] == bars[..i - 1];
        if Turns(bars, i - 1) {
          return Some(Transition(bars[i - 1].time, bars[i - 1].signal));
        }
        i := i - 1;
      }
      r := None;
    }

    method CountObserved(bars: seq<Bar>, last: int) returns (n: nat)
      ensures n == Observed(bars, last)
    {
      n := |bars|;
      assert bars[..n] == bars;
      while n > 0 && bars[n - 1].time > last
        invariant n <= |bars| && Observed(bars[..n], last) == Observed(bars, last)
      {
        assert bars[..n][..n - 1] == bars[..n - 1];
        n := n - 1;
      }
    }
  }

  // ---------------------------------------------------------------- fills over restarts

  /** Who named the decision: the engine by its newest bar, the demo runner by the transition. */
  datatype Naming = ByNewestBar | ByTransition

  /** Decision ids, up to what is constant in them. */
  datatype DecisionId = DecisionId(time: int, buy: bool)

  /** A fill of the transition of one time under an id. */
  datatype FillRecord = FillRecord(time: int, id: DecisionId)

  /** Bars the store had at the last read, what the living process observed, the gate's remembered
      decisions and its fills. */
  datatype State = State(seen: nat, last: Option<int>, decided: set<DecisionId>, fills: seq<FillRecord>)

  /** A tick names its decision from a first snapshot of `first` bars and reads its signal from a
      second one of `second` bars; `accepted` is the gate's verdict on a new id. A tick that fails
      between reading its signal and reaching the gate is lost. */
  datatype Event = Tick(first: nat, second: nat, accepted: bool) | Lost(second: nat) | Restart

  predicate Possible(all: seq<Bar>, s: State, e: Event) {
    && (e.Tick? ==> s.seen <= e.first <= e.second <= |all| && e.first > 0)
    && (e.Lost? ==> s.seen <= e.second <= |all| && e.second > 0)
  }

  function IdOf(all: seq<Bar>, naming: Naming, first: nat, i: nat): DecisionId
    requires i < |all| && 0 < first <= |all|
  {
    DecisionId(if naming.ByNewestBar? then all[first - 1].time else all[i].time, all[i].signal == 1)
  }

  function Next(all: seq<Bar>, naming: Naming, backlog: nat, s: State, e: Event): State
    requires Possible(all, s, e)
  {
    match e
    case Restart => s.(last := None)
    case Lost(second) => s.(seen := second, last := Some(all[second - 1].time))
    case Tick(first, second, accepted) =>
      var bars := all[..second];
      var t := s.(seen := second, last := Some(bars[second - 1].time));
      match Emission(bars, s.last, backlog)
      case None => t
      case Some(i) =>
        var id := IdOf(all, naming, first, i);
        if id in s.decided then t
        else t.(decided := s.decided + {id}, fills := if accepted then s.fills + [FillRecord(all[i].time, id)] else s.fills)
  }

  /** What each event leaves. A tick observes its second snapshot; the transition pending in it, if any,
      goes to the gate under an id of the engine's newest bar and the side of the signal; an id decided
      before is refused, any other is decided for good, and filled when the gate accepts. A tick that is
      lost has observed all the same, and a restart has observed nothing. */
  lemma EventMeaning(all: seq<Bar>, backlog: nat, s: State, e: Event)
    requires Possible(all, s, e)
    ensures var v := Next(all, ByNewestBar, backlog, s, e);
            match e
            case Restart => v == State(s.seen, None, s.decided, s.fills)
            case Lost(second) => v == State(second, Some(all[second - 1].time), s.decided, s.fills)
            case Tick(first, second, accepted) =>
              && v.seen == second && v.last == Some(all[second - 1].time)
              && match Emission(all[..second], s.last, backlog)
                 case None => v.decided == s.decided && v.fills == s.fills
                 case Some(i) =>
                   all[i].signal == 1 || all[i].signal == -1 ==>
                     var id := DecisionId(all[first - 1].time, all[i].signal > 0);
                     && v.decided == s.decided + {id}
                     && v.fills == s.fills + if accepted && id !in s.decided then [FillRecord(all[i].time, id)] else []
  {
    hide Emission;
    if e.Tick? {
      assert Emission(all[..e.second], s.last, backlog).Some? ==> Emission(all[..e.second], s.last, backlog).value < e.second by { EmissionInRange(all, e.second, s.last, backlog); }
    }
  }

  lemma EmissionInRange(all: seq<Bar>, n: nat, last: Option<int>, backlog: nat)
    requires n <= |all|
    ensures Emission(all[..n], last, backlog).Some? ==> Emission(all[..n], last, backlog).value < n
  {
  }

  ghost predicate PossibleRun(all: seq<Bar>, naming: Naming, backlog: nat, s: State, es: seq<Event>)
    decreases |es|, 0
  {
    es == [] || (PossibleRun(all, naming, backlog, s, es[..|es| - 1])
                 && Possible(all, Run(all, naming, backlog, s, es[..|es| - 1]), es[|es| - 1]))
  }

  ghost function Run(all: seq<Bar>, naming: Naming, backlog: nat, s: State, es: seq<Event>): State
    requires PossibleRun(all, naming, backlog, s, es)
    decreases |es|, 1
  {
    if es == [] then s else Next(all, naming, backlog, Run(all, naming, backlog, s, es[..|es| - 1]), es[|es| - 1])
  }

  const START := State(0, None, {}, [])

  /** The tick emits the newest bar of its second snapshot, which its first snapshot lacked. */
  ghost predicate Exposed(all: seq<Bar>, backlog: nat, s: State, e: Event)
    requires Possible(all, s, e)
  {
    e.Tick? && e.first < e.second && Emission(all[..e.second], s.last, backlog) == Some(e.second - 1)
  }

  /** An exposed tick that the gate fills. */
  ghost predicate FillsExposed(all: seq<Bar>, backlog: nat, s: State, e: Event)
    requires Possible(all, s, e)
  {
    Exposed(all, backlog, s, e) && e.accepted && IdOf(all, ByNewestBar, e.first, e.second - 1) !in s.decided
  }

  ghost predicate NeverExposed(all: seq<Bar>, naming: Naming, backlog: nat, s: State, es: seq<Event>)
    requires PossibleRun(all, naming, backlog, s, es)
  {
    es == [] || (NeverExposed(all, naming, backlog, s, es[..|es| - 1])
                 && !FillsExposed(all, backlog, Run(all, naming, backlog, s, es[..|es| - 1]), es[|es| - 1]))
  }

  ghost predicate FilledOnce(s: State) { forall i, j :: 0 <= i < j < |s.fills| ==> s.fills[i].time < s.fills[j].time }

  /** Fills lie among the bars seen, all observed by a process that has read, and a fill on the newest
      bar seen left behind the id that a restarted process would give it. */
  ghost predicate FillsInv(all: seq<Bar>, naming: Naming, s: State) {
    && s.seen <= |all| && FilledOnce(s)
    && (forall k :: 0 <= k < |s.fills| ==> s.seen > 0 && s.fills[k].time <= all[s.seen - 1].time)
    && (s.last.Some? ==> forall k :: 0 <= k < |s.fills| ==> s.fills[k].time <= s.last.value)
    && (forall k :: 0 <= k < |s.fills| && s.fills[k].time == all[s.seen - 1].time ==> IdOf(all, naming, s.seen, s.seen - 1) in s.decided)
  }

  /** No id names a bar that has not been seen. */
  ghost predicate IdsSeen(all: seq<Bar>, s: State) {
    s.seen <= |all| && forall id :: id in s.decided ==> s.seen > 0 && id.time <= all[s.seen - 1].time
  }

  ghost predicate Inv(all: seq<Bar>, naming: Naming, s: State) { FillsInv(all, naming, s) && IdsSeen(all, s) }

  lemma PrefixIncreasing(all: seq<Bar>, n: nat)
    requires Increasing(all) && n <= |all|
    ensures Increasing(all[..n])
  {
  }

  /** A transition emitted under an id not yet decided is newer than every fill. */
  lemma EmittedIsNew(all: seq<Bar>, naming: Naming, backlog: nat, s: State, e: Event, i: nat)
    requires Increasing(all) && backlog >= 1 && Possible(all, s, e) && FillsInv(all, naming, s) && e.Tick?
    requires Emission(all[..e.second], s.last, backlog) == Some(i)
    requires naming.ByNewestBar? ==> !Exposed(all, backlog, s, e)
    ensures i < e.second && (IdOf(all, naming, e.first, i) !in s.decided ==> forall k :: 0 <= k < |s.fills| ==> s.fills[k].time < all[i].time)
    ensures i == e.second - 1 ==> IdOf(all, naming, e.first, i) == IdOf(all, naming, e.second, i)
  {
    var bars := all[..e.second];
    PrefixIncreasing(all, e.second);
    EmissionMeaning(bars, s.last, backlog);
    hide Emission, Turns, FilledOnce;
    forall k | 0 <= k < |s.fills| && IdOf(all, naming, e.first, i) !in s.decided ensures s.fills[k].time < all[i].time {
      if s.last.Some? {
        assert bars[i].time > s.last.value;
      }
    }
  }

  lemma IdsStaySeen(all: seq<Bar>, naming: Naming, backlog: nat, s: State, e: Event)
    requires Increasing(all) && Possible(all, s, e) && IdsSeen(all, s)
    ensures IdsSeen(all, Next(all, naming, backlog, s, e))
  {
    if e.Tick? || e.Lost? {
      assert s.seen > 0 ==> all[s.seen - 1].time <= all[e.second - 1].time;
    }
    if e.Tick? {
      var emitted := Emission(all[..e.second], s.last, backlog);
      assert emitted.Some? ==> emitted.value < e.second;
    }
    hide Emission;
  }

  lemma FillsStayOnce(all: seq<Bar>, naming: Naming, backlog: nat, s: State, e: Event)
    requires Increasing(all) && backlog >= 1 && Possible(all, s, e) && FillsInv(all, naming, s)
    requires naming.ByNewestBar? ==> !FillsExposed(all, backlog, s, e)
    ensures FillsInv(all, naming, Next(all, naming, backlog, s, e))
  {
    if e.Tick? {
      var emitted := Emission(all[..e.second], s.last, backlog);
      if emitted.Some? && (naming.ByNewestBar? ==> !Exposed(all, backlog, s, e)) {
        EmittedIsNew(all, naming, backlog, s, e, emitted.value);
      }
      hide Emission;
    }
  }

  lemma {:induction false} RunKeeps(all: seq<Bar>, naming: Naming, backlog: nat, s: State, es: seq<Event>)
    requires Increasing(all) && backlog >= 1 && Inv(all, naming, s) && PossibleRun(all, naming, backlog, s, es)
    requires naming.ByNewestBar? ==> NeverExposed(all, naming, backlog, s, es)
    ensures Inv(all, naming, Run(all, naming, backlog, s, es))
  {
    hide Next, FillsInv, IdsSeen, FillsExposed;
    if es != [] {
      var front := Run(all, naming, backlog, s, es[..|es| - 1]);
      RunKeeps(all, naming, backlog, s, es[..|es| - 1]);
      IdsStaySeen(all, naming, backlog, front, es[|es| - 1]);
      FillsStayOnce(all, naming, backlog, front, es[|es| - 1]);
    }
  }

  /** Each transition is filled at most once, over restarts and a growing store, whenever no tick
      fills a bar that its own id is older than; fills then follow the order of the transitions. */
  lemma TransitionAtMostOnce(all: seq<Bar>, naming: Naming, backlog: nat, es: seq<Event>)
    requires Increasing(all) && backlog >= 1 && PossibleRun(all, naming, backlog, START, es)
    requires naming.ByNewestBar? ==> NeverExposed(all, naming, backlog, START, es)
    ensures Inv(all, naming, Run(all, naming, backlog, START, es))
  {
    RunKeeps(all, naming, backlog, START, es);
  }

  /** With one snapshot per tick the condition always holds. */
  lemma {:induction false} OneSnapshotIsNeverExposed(all: seq<Bar>, naming: Naming, backlog: nat, es: seq<Event>)
    requires PossibleRun(all, naming, backlog, START, es)
    requires forall i :: 0 <= i < |es| && es[i].Tick? ==> es[i].first == es[i].second
    ensures NeverExposed(all, naming, backlog, START, es)
  {
    if es != [] {
      OneSnapshotIsNeverExposed(all, naming, backlog, es[..|es| - 1]);
    }
  }

  /** After an exposed tick that fills, a restart that finds the same newest bar fills the same
      transition again under another id. */
  lemma ExposedFillsTwice(all: seq<Bar>, backlog: nat, s: State, e: Event)
    requires Increasing(all) && backlog >= 1 && Possible(all, s, e) && IdsSeen(all, s) && FillsExposed(all, backlog, s, e)
    ensures var t := Next(all, ByNewestBar, backlog, s, e);
            var again := Tick(e.second, e.second, true);
            && Possible(all, t, Restart) && Possible(all, Next(all, ByNewestBar, backlog, t, Restart), again)
            && var u := Next(all, ByNewestBar, backlog, Next(all, ByNewestBar, backlog, t, Restart), again);
            |u.fills| == |s.fills| + 2 && u.fills[|s.fills|].time == u.fills[|s.fills| + 1].time == all[e.second - 1].time
  {
    var bars := all[..e.second];
    PrefixIncreasing(all, e.second);
    EmissionMeaning(bars, s.last, backlog);
    EmissionMeaning(bars, None, backlog);
    assert s.seen > 0 ==> all[s.seen - 1].time < all[e.second - 1].time;
  }

  /** Events that fill some transition a second time from `s` on, none of them by an exposed tick. */
  ghost predicate Refills(all: seq<Bar>, backlog: nat, s: State, es: seq<Event>) {
    && PossibleRun(all, ByNewestBar, backlog, s, es)
    && NeverExposed(all, ByNewestBar, backlog, s, es) && !FilledOnce(Run(all, ByNewestBar, backlog, s, es))
  }

  /** The condition is exact for the engine. In every state that a run without exposed fills reaches,
      a tick can be followed by a second fill of one transition, with no further exposed fill,
      exactly when it is itself an exposed fill. */
  lemma ExposureIsExact(all: seq<Bar>, backlog: nat, es: seq<Event>, e: Event)
    requires Increasing(all) && backlog >= 1 && PossibleRun(all, ByNewestBar, backlog, START, es)
    requires NeverExposed(all, ByNewestBar, backlog, START, es)
    requires Possible(all, Run(all, ByNewestBar, backlog, START, es), e)
    ensures var s := Run(all, ByNewestBar, backlog, START, es);
            FillsExposed(all, backlog, s, e) <==> exists later :: Refills(all, backlog, Next(all, ByNewestBar, backlog, s, e), later)
  {
    TransitionAtMostOnce(all, ByNewestBar, backlog, es);
    var s := Run(all, ByNewestBar, backlog, START, es);
    var t := Next(all, ByNewestBar, backlog, s, e);
    if FillsExposed(all, backlog, s, e) {
      RestartRefills(all, backlog, s, e);
    } else {
      IdsStaySeen(all, ByNewestBar, backlog, s, e);
      FillsStayOnce(all, ByNewestBar, backlog, s, e);
      forall later | PossibleRun(all, ByNewestBar, backlog, t, later) && NeverExposed(all, ByNewestBar, backlog, t, later)
        ensures !Refills(all, backlog, t, later)
      {
        RunKeeps(all, ByNewestBar, backlog, t, later);
      }
    }
  }

  lemma RestartRefills(all: seq<Bar>, backlog: nat, s: State, e: Event)
    requires Increasing(all) && backlog >= 1 && Possible(all, s, e) && IdsSeen(all, s) && FillsExposed(all, backlog, s, e)
    ensures Refills(all, backlog, Next(all, ByNewestBar, backlog, s, e), [Restart, Tick(e.second, e.second, true)])
  {
    ExposedFillsTwice(all, backlog, s, e);
    var t := Next(all, ByNewestBar, backlog, s, e);
    var again := Tick(e.second, e.second, true);
    hide Next, Emission, Turns;
    RunOfTwo(all, backlog, t, Restart, again);
  }

  lemma RunOfTwo(all: seq<Bar>, backlog: nat, s: State, a: Event, b: Event)
    requires Possible(all, s, a) && Possible(all, Next(all, ByNewestBar, backlog, s, a), b)
    requires !a.Tick? && (b.Tick? ==> b.first == b.second)
    ensures PossibleRun(all, ByNewestBar, backlog, s, [a, b]) && NeverExposed(all, ByNewestBar, backlog, s, [a, b])
    ensures Run(all, ByNewestBar, backlog, s, [a, b]) == Next(all, ByNewestBar, backlog, Next(all, ByNewestBar, backlog, s, a), b)
  {
    hide Next, Emission;
    assert [a, b][..1] == [a] && [a][..0] == [];
    assert PossibleRun(all, ByNewestBar, backlog, s, []);
    assert PossibleRun(all, ByNewestBar, backlog, s, [a]);
    assert Run(all, ByNewestBar, backlog, s, [a]) == Next(all, ByNewestBar, backlog, s, a);
    assert NeverExposed(all, ByNewestBar, backlog, s, []);
    assert NeverExposed(all, ByNewestBar, backlog, s, [a]);
  }

  /** Such a tick is reachable: two bars, the second appearing between the two reads of one tick. */
  lemma ExposedIsReachable(backlog: nat)
    requires backlog >= 1
    ensures var all := [Bar(0, 0), Bar(1, 1)];
            var e := Tick(1, 2, true);
            Increasing(all) && Possible(all, START, e) && FillsExposed(all, backlog, START, e)
  {
    var all := [Bar(0, 0), Bar(1, 1)];
    assert all[..2] == all;
    assert Turns(all, 1);
  }

  // ---------------------------------------------------------------- the engine

  /** Where an evaluation raises: before its signal is read, before the gate, or when the gate is done. */
  datatype Failure = NoFailure | BeforeReading | AfterReading | AfterGate

  datatype Status = Halted | Unvalidated | Errored | Stale | NoSignal | Refused | Filled

  class PaperTradingEngine {
    const backlog: nat
    const haltAfter: nat
    const signals: ConfirmedBreakoutCanarySource
    /** The stored halt and validation, which operators change, and the halt as last seen. */
    var storedHalt: bool
    var validated: bool
    var knownHalt: bool
    var errors: nat
    var seen: nat
    var decided: set<DecisionId>
    var fills: seq<FillRecord>

    /** A new process over the persisted halt, validation and decisions. */
    constructor (backlog: nat, haltAfter: nat, storedHalt: bool, validated: bool, s: State)
      ensures this.backlog == backlog && this.haltAfter == haltAfter && signals.backlog == backlog && fresh(signals)
      ensures this.storedHalt == storedHalt && this.validated == validated && knownHalt == storedHalt && errors == 0
      ensures View() == s.(last := None)
    {
      this.backlog, this.haltAfter := backlog, haltAfter;
      signals := new ConfirmedBreakoutCanarySource(backlog);
      this.storedHalt, this.validated, knownHalt, errors := storedHalt, validated, storedHalt, 0;
      seen, decided, fills := s.seen, s.decided, s.fills;
    }

    function View(): State
      reads this, signals
    {
      State(seen, signals.lastObserved, decided, fills)
    }

    /** The stored halt decides; the field only notices that it was lifted, which clears the count. */
    method CheckHalt() returns (halted: bool)
      modifies this
      ensures halted == storedHalt == knownHalt
      ensures errors == if old(knownHalt) && !storedHalt then 0 else old(errors)
      ensures storedHalt == old(storedHalt) && validated == old(validated) && View() == old(View())
    {
      if storedHalt != knownHalt {
        knownHalt := storedHalt;
        if !storedHalt {
          errors := 0;
        }
      }
      halted := knownHalt;
    }

    /** One evaluation. Halted or unvalidated engines do nothing at all; a failure counts towards the
        halt, which comes exactly with the limit; anything else clears the count and is one tick. A
        failure after the gate is one tick as well: it may have filled. */
    method EvaluateOnce(all: seq<Bar>, first: nat, second: nat, isFresh: bool, failure: Failure, accepted: bool) returns (status: Status)
      requires signals.backlog == backlog && ValidSignals(all)
      requires Possible(all, View(), Tick(first, second, accepted))
      modifies this, signals
      ensures status.Halted? <==> old(storedHalt)
      ensures status.Unvalidated? <==> !old(storedHalt) && !old(validated)
      ensures status.Errored? <==> !old(storedHalt) && old(validated) && (failure.BeforeReading? || (isFresh && !failure.NoFailure?))
      ensures status.Halted? || status.Unvalidated? || status.Stale? || (status.Errored? && !isFresh) || failure.BeforeReading? ==>
                View() == old(View())
      ensures status.Errored? && isFresh && failure.AfterReading? ==> View() == Next(all, ByNewestBar, backlog, old(View()), Lost(second))
      ensures (status.Errored? && isFresh && failure.AfterGate?) || status.NoSignal? || status.Refused? || status.Filled? ==>
                View() == Next(all, ByNewestBar, backlog, old(View()), Tick(first, second, accepted))
      ensures |fills| > |old(fills)| ==> status.Filled? || (status.Errored? && failure.AfterGate?)
      ensures status.Filled? ==> |fills| > |old(fills)|
      ensures status.Errored? ==> errors == (if old(knownHalt) then 0 else old(errors)) + 1 && storedHalt == (errors >= haltAfter)
      ensures !status.Errored? ==> storedHalt == old(storedHalt)
      ensures status.Stale? || status.NoSignal? || status.Refused? || status.Filled? ==> errors == 0
      ensures validated == old(validated)
    {
      hide Emission;
      var halted := CheckHalt();
      if halted {
        return Halted;
      }
      if !validated {
        return Unvalidated;
      }
      status := Stale;
      if isFresh && failure.AfterReading? {
        var unused := ReadSignal(all, second);
      } else if isFresh && !failure.BeforeReading? {
        status := Decide(all, first, second, accepted);
      }
      if failure.BeforeReading? || (isFresh && !failure.NoFailure?) {
        errors := errors + 1;
        if errors >= haltAfter {
          storedHalt, knownHalt := true, true;
        }
        return Errored;
      }
      errors := 0;
    }

    /** The part of `_decide` after a fresh bar: at most one proposal goes to the gate. */
    method Decide(all: seq<Bar>, first: nat, second: nat, accepted: bool) returns (status: Status)
      requires signals.backlog == backlog && ValidSignals(all)
      requires Possible(all, View(), Tick(first, second, accepted))
      modifies this, signals
      ensures View() == Next(all, ByNewestBar, backlog, old(View()), Tick(first, second, accepted))
      ensures status.NoSignal? || status.Refused? || status.Filled?
      ensures status.Filled? <==> |fills| > |old(fills)|
      ensures storedHalt == old(storedHalt) && validated == old(validated) && knownHalt == old(knownHalt) && errors == old(errors)
    {
      hide Emission;
      var emitted := ReadSignal(all, second);
      if emitted.None? {
        return NoSignal;
      }
      var id := DecisionId(all[first - 1].time, emitted.value.signal == 1);
      if id in decided {
        return Refused;
      }
      decided := decided + {id};
      if !accepted {
        return Refused;
      }
      fills := fills + [FillRecord(emitted.value.time, id)];
      status := Filled;
    }

    /** The signal source over its own snapshot. */
    method ReadSignal(all: seq<Bar>, second: nat) returns (r: Option<Transition>)
      requires signals.backlog == backlog && ValidSignals(all) && 0 < second <= |all|
      modifies this, signals
      ensures View() == old(View()).(seen := second, last := Some(all[second - 1].time))
      ensures storedHalt == old(storedHalt) && validated == old(validated) && knownHalt == old(knownHalt) && errors == old(errors)
      ensures r == match Emission(all[..second], old(signals.lastObserved), backlog)
                   case None => None
                   case Some(i) => Some(Transition(all[i].time, all[i].signal))
    {
      var bars := all[..second];
      var read := signals.Read(bars);
      seen := second;
      r := read.value;
    }
  }
}
