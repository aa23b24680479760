/** What the backtester guarantees over whole runs: no look-ahead, an exact cash
    identity recovered from the ledger alone, and disjoint trade intervals. */
module BacktestLaws {
  import opened Prelude
  import opened Backtester

  // ---------------------------------------------------------------- no look-ahead

  /** Two inputs a trader could not tell apart before bar `n`: the same first `n` bars and the
      same targets at every bar but the last of them. */
  ghost predicate Indistinguishable(bars: seq<Bar>, signals: map<int, real>, bars': seq<Bar>, signals': map<int, real>, n: nat) {
    && n <= |bars| && n <= |bars'| && bars[..n] == bars'[..n]
    && forall i :: 0 <= i < n - 1 ==> TargetAt(signals, bars[i].time) == TargetAt(signals', bars[i].time)
  }

  lemma {:induction false} StateIsCausal(c: Config, bars: seq<Bar>, signals: map<int, real>, bars': seq<Bar>, signals': map<int, real>, n: nat)
    requires Indistinguishable(bars, signals, bars', signals', n)
    ensures After(c, bars, signals, n) == After(c, bars', signals', n)
  {
    if n > 0 {
      assert bars[..n - 1] == bars[..n][..n - 1] == bars'[..n][..n - 1] == bars'[..n - 1];
      StateIsCausal(c, bars, signals, bars', signals', n - 1);
      assert bars[n - 1] == bars[..n][n - 1] == bars'[..n][n - 1] == bars'[n - 1];
      if n > 1 {
        assert bars[n - 2] == bars[..n][n - 2] == bars'[..n][n - 2] == bars'[n - 2];
      }
      StepIsLocal(c, bars, signals, bars', signals', n - 1, After(c, bars, signals, n - 1));
    }
  }

  lemma StepIsLocal(c: Config, bars: seq<Bar>, signals: map<int, real>, bars': seq<Bar>, signals': map<int, real>, i: nat, s: State)
    requires i < |bars| && i < |bars'| && bars[i] == bars'[i]
    requires i > 0 ==> bars[i - 1] == bars'[i - 1]
    requires i > 0 ==> TargetAt(signals, bars[i - 1].time) == TargetAt(signals', bars'[i - 1].time)
    ensures Step(c, bars, signals, i, s) == Step(c, bars', signals', i, s)
  {
    var s1 := ChargeCarry(c, bars, i, s);
    assert s1 == ChargeCarry(c, bars', i, s);
    var s2 := SignalExit(c, bars, signals, i, s1);
    assert s2 == SignalExit(c, bars', signals', i, s1);
    var s3 := Enter(c, bars, signals, i, s2);
    assert s3 == Enter(c, bars', signals', i, s2);
    assert ProtectiveExit(c, bars, i, s3) == ProtectiveExit(c, bars', i, s3);
  }

  /** The marked value of an open position is the cash that closing it at that price leaves. */
  lemma MarkIsLiquidation(c: Config, s: State, i: nat, close: real, reason: ExitReason, held: int)
    requires s.position.Some?
    ensures Close(c, s, i, close, reason, held).cash == Marked(c, s, close)
  {
    var p := s.position.value;
    assert CloseTrade(c, p, i, close, reason, held).grossPnl
        == p.side as real * (FillPrice(c, close, p.side, false) - p.entryPrice) * c.quantity;
  }

  /** Marking is the last thing a bar does, so it records the state the bar leaves behind. */
  lemma LastMark(c: Config, bars: seq<Bar>, signals: map<int, real>, n: nat)
    requires 0 < n <= |bars|
    ensures var s := After(c, bars, signals, n);
            s.equity[n - 1] == Marked(c, s, bars[n - 1].close)
  {
  }

  /** The forced close at the end changes the ledger but no equity value. */
  lemma FinalOverwriteChangesNothing(c: Config, bars: seq<Bar>, signals: map<int, real>)
    requires bars != []
    ensures Backtest(c, bars, signals).equity == After(c, bars, signals, |bars|).equity
  {
    var n := |bars|;
    var s := After(c, bars, signals, n);
    if s.position.Some? {
      LastMark(c, bars, signals, n);
      MarkIsLiquidation(c, s, n - 1, bars[n - 1].close, End, n - s.position.value.entryBar);
    }
  }

  lemma {:induction false} HistoryOnlyGrows(c: Config, bars: seq<Bar>, signals: map<int, real>, n: nat, m: nat)
    requires n <= m <= |bars|
    ensures var s, t := After(c, bars, signals, n), After(c, bars, signals, m);
            && s.equity == t.equity[..n] && s.trades <= t.trades
            && forall j :: |s.trades| <= j < |t.trades| ==> t.trades[j].exitBar >= n
    decreases m
  {
    hide Step;
    if n < m {
      HistoryOnlyGrows(c, bars, signals, n, m - 1);
      BarAppends(c, bars, signals, m - 1, After(c, bars, signals, m - 1));
    }
  }

  /** One bar appends one equity value and only trades that exit on it. */
  lemma BarAppends(c: Config, bars: seq<Bar>, signals: map<int, real>, i: nat, s: State)
    requires i < |bars|
    ensures var t := Step(c, bars, signals, i, s);
            && |t.equity| == |s.equity| + 1 && s.equity <= t.equity && s.trades <= t.trades
            && forall j :: |s.trades| <= j < |t.trades| ==> t.trades[j].exitBar == i
  {
    var s1 := ChargeCarry(c, bars, i, s);
    var s2 := SignalExit(c, bars, signals, i, s1);
    var s3 := Enter(c, bars, signals, i, s2);
    var s4 := ProtectiveExit(c, bars, i, s3);
    assert s2.trades == s1.trades || s2.trades == s1.trades + [s2.trades[|s1.trades|]];
    assert s4.trades == s3.trades || s4.trades == s3.trades + [s4.trades[|s3.trades|]];
  }

  /** No look-ahead. A backtest over a prefix gives exactly the first equity values of the
      backtest over any continuation (whatever its later bars and signals), and exactly the trades
      the continuation had closed by then, plus at most one forced exit on the last bar. */
  lemma PrefixStability(c: Config, early: seq<Bar>, signals: map<int, real>, late: seq<Bar>, signals': map<int, real>) returns (k: nat)
    requires early != [] && |early| < |late|
    requires Indistinguishable(early, signals, late, signals', |early|)
    ensures Backtest(c, early, signals).equity == Backtest(c, late, signals').equity[..|early|]
    ensures var short, long := Backtest(c, early, signals).trades, Backtest(c, late, signals').trades;
            && k <= |short| <= k + 1 && k <= |long| && short[..k] == long[..k]
            && (|short| == k + 1 ==> short[k].reason == End && short[k].exitBar == |early| - 1)
            && (forall j :: k <= j < |long| ==> long[j].exitBar >= |early|)
  {
    hide After, FillPrice, Commission;
    var n := |early|;
    StateIsCausal(c, early, signals, late, signals', n);
    FinalOverwriteChangesNothing(c, early, signals);
    FinalOverwriteChangesNothing(c, late, signals');
    HistoryOnlyGrows(c, late, signals', n, |late|);
    k := |After(c, early, signals, n).trades|;
  }

  // ---------------------------------------------------------------- trade intervals

  ghost predicate SidesOk(s: State) {
    && (s.position.Some? ==> s.position.value.side == 1 || s.position.value.side == -1)
    && forall t :: t in s.trades ==> t.side == 1 || t.side == -1
  }

  function EndOf(t: Trade): int { t.entryBar + t.barsHeld }

  /** The bars [entryBar, entryBar + barsHeld) of successive trades do not overlap, lie in the
      first `n` bars, and respect a positive holding limit. */
  ghost predicate Disjoint(c: Config, ts: seq<Trade>, n: nat) {
    && (forall j :: 0 <= j < |ts| ==> 1 <= ts[j].barsHeld && EndOf(ts[j]) <= n)
    && (forall i, j :: 0 <= i < j < |ts| ==> EndOf(ts[i]) <= ts[j].entryBar)
    && (forall j :: 0 <= j < |ts| && c.maxHoldingBars.Some? && c.maxHoldingBars.value >= 1 ==> ts[j].barsHeld <= c.maxHoldingBars.value)
  }

  ghost predicate OpenFits(c: Config, s: State, n: nat) {
    s.position.Some? ==>
      var e := s.position.value.entryBar;
      && e < n
      && (forall j :: 0 <= j < |s.trades| ==> EndOf(s.trades[j]) <= e)
      && (c.maxHoldingBars.Some? && c.maxHoldingBars.value >= 1 ==> n - e < c.maxHoldingBars.value)
  }

  /** The same, between the open of bar `i` and its exits. */
  ghost predicate OpenBefore(c: Config, s: State, i: nat) {
    s.position.Some? ==>
      var e := s.position.value.entryBar;
      && e <= i
      && (forall j :: 0 <= j < |s.trades| ==> EndOf(s.trades[j]) <= e)
      && (c.maxHoldingBars.Some? && c.maxHoldingBars.value >= 1 ==> i - e < c.maxHoldingBars.value)
  }

  lemma CloseKeepsIntervals(c: Config, s: State, i: nat, m: nat, n: nat, mid: real, reason: ExitReason, held: int)
    requires s.position.Some? && SidesOk(s) && Disjoint(c, s.trades, m)
    requires forall j :: 0 <= j < |s.trades| ==> EndOf(s.trades[j]) <= s.position.value.entryBar
    requires 1 <= held && m <= n && s.position.value.entryBar + held <= n
    requires c.maxHoldingBars.Some? && c.maxHoldingBars.value >= 1 ==> held <= c.maxHoldingBars.value
    ensures var t := Close(c, s, i, mid, reason, held); SidesOk(t) && Disjoint(c, t.trades, n) && t.position.None?
  {
    hide CloseTrade;
    var trade := CloseTrade(c, s.position.value, i, mid, reason, held);
    assert trade.side == s.position.value.side && trade.entryBar == s.position.value.entryBar && trade.barsHeld == held by {
      CloseTradeRow(c, s.position.value, i, mid, reason, held);
    }
  }

  lemma CloseTradeRow(c: Config, p: Position, i: nat, mid: real, reason: ExitReason, held: int)
    ensures var t := CloseTrade(c, p, i, mid, reason, held);
            t.side == p.side && t.entryBar == p.entryBar && t.exitBar == i && t.barsHeld == held && t.reason == reason
  {
  }

  lemma OpeningKeepsIntervals(c: Config, bars: seq<Bar>, signals: map<int, real>, i: nat, s: State)
    requires i < |bars| && SidesOk(s) && Disjoint(c, s.trades, i) && OpenFits(c, s, i)
    ensures var t := Enter(c, bars, signals, i, SignalExit(c, bars, signals, i, s));
            && SidesOk(t) && Disjoint(c, t.trades, i)
            && OpenBefore(c, t, i)
  {
    hide FillPrice, Commission, CloseTrade;
    if s.position.Some? && Desired(bars, signals, i) != s.position.value.side {
      CloseKeepsIntervals(c, s, i, i, i, bars[i].open, Signal, i - s.position.value.entryBar);
    }
  }

  lemma ExitKeepsIntervals(c: Config, bars: seq<Bar>, i: nat, s: State)
    requires i < |bars| && SidesOk(s) && Disjoint(c, s.trades, i)
    requires OpenBefore(c, s, i)
    ensures var t := ProtectiveExit(c, bars, i, s); SidesOk(t) && Disjoint(c, t.trades, i + 1) && OpenFits(c, t, i + 1)
  {
    hide StopLevel, TargetLevel, CloseTrade, StopHit, TargetHit;
    if s.position.Some? {
      var p := s.position.value;
      var held := i - p.entryBar + 1;
      if StopHit(c, bars[i], p) {
        assert c.stopDistance.Some? by { StopNeedsDistance(c, bars[i], p); }
        CloseKeepsIntervals(c, s, i, i, i + 1, StopLevel(c, p), Stop, held);
      } else if TargetHit(c, bars[i], p) {
        assert c.targetDistance.Some? by { StopNeedsDistance(c, bars[i], p); }
        CloseKeepsIntervals(c, s, i, i, i + 1, TargetLevel(c, p), Target, held);
      } else if TimeUp(c, held) {
        CloseKeepsIntervals(c, s, i, i, i + 1, bars[i].close, Time, held);
      }
    }
  }

  lemma StopNeedsDistance(c: Config, bar: Bar, p: Position)
    ensures StopHit(c, bar, p) ==> c.stopDistance.Some?
    ensures TargetHit(c, bar, p) ==> c.targetDistance.Some?
  {
  }

  lemma BarKeepsIntervals(c: Config, bars: seq<Bar>, signals: map<int, real>, i: nat, s: State)
    requires i < |bars| && SidesOk(s) && Disjoint(c, s.trades, i) && OpenFits(c, s, i)
    ensures var t := Step(c, bars, signals, i, s); SidesOk(t) && Disjoint(c, t.trades, i + 1) && OpenFits(c, t, i + 1)
  {
    var s1 := ChargeCarry(c, bars, i, s);
    assert SidesOk(s1) && Disjoint(c, s1.trades, i) && OpenFits(c, s1, i);
    hide ProtectiveExit, Enter, SignalExit, ChargeCarry;
    OpeningKeepsIntervals(c, bars, signals, i, s1);
    ExitKeepsIntervals(c, bars, i, Enter(c, bars, signals, i, SignalExit(c, bars, signals, i, s1)));
  }

  lemma {:induction false} IntervalsInvariant(c: Config, bars: seq<Bar>, signals: map<int, real>, n: nat)
    requires n <= |bars|
    ensures var s := After(c, bars, signals, n);
            SidesOk(s) && Disjoint(c, s.trades, n) && OpenFits(c, s, n)
  {
    if n > 0 {
      hide Step;
      IntervalsInvariant(c, bars, signals, n - 1);
      BarKeepsIntervals(c, bars, signals, n - 1, After(c, bars, signals, n - 1));
    }
  }

  function Exposure(ts: seq<Trade>): int {
    if ts == [] then 0 else Exposure(ts[..|ts| - 1]) + ts[|ts| - 1].barsHeld
  }

  lemma {:induction false} DisjointFits(c: Config, ts: seq<Trade>, n: nat)
    requires Disjoint(c, ts, n)
    ensures 0 <= Exposure(ts) <= n
  {
    if ts != [] {
      var last := ts[|ts| - 1];
      var front := ts[..|ts| - 1];
      assert Disjoint(c, front, last.entryBar);
      DisjointFits(c, front, last.entryBar);
    }
  }

  /** Over any run the trades' bar ranges are ordered, disjoint and within the holding limit, so
      the bars they hold never outnumber the bars of the frame. */
  lemma TradeIntervals(c: Config, bars: seq<Bar>, signals: map<int, real>)
    requires bars != []
    ensures var ts := Backtest(c, bars, signals).trades;
            Disjoint(c, ts, |bars|) && 0 <= Exposure(ts) <= |bars|
  {
    hide After, CloseTrade;
    var n := |bars|;
    var s := After(c, bars, signals, n);
    IntervalsInvariant(c, bars, signals, n);
    if s.position.Some? {
      CloseKeepsIntervals(c, s, n - 1, n, n, bars[n - 1].close, End, n - s.position.value.entryBar);
      assert Backtest(c, bars, signals).trades == Close(c, s, n - 1, bars[n - 1].close, End, n - s.position.value.entryBar).trades;
    }
    DisjointFits(c, Backtest(c, bars, signals).trades, n);
  }

  // ---------------------------------------------------------------- accounting

  /** Financing owed on bars `entry + 1 .. exit`, recomputed from prices. */
  function CarryOver(c: Config, bars: seq<Bar>, entry: nat, exit: nat): (cost: real)
    requires entry <= exit < |bars|
    ensures cost >= 0.0
    decreases exit
  {
    if exit == entry then 0.0 else CarryOver(c, bars, entry, exit - 1) + CarryAt(c, bars, exit)
  }

  ghost predicate InFrame(ts: seq<Trade>, n: nat) {
    forall t :: t in ts ==> t.entryBar <= t.exitBar < n
  }

  function SumNet(ts: seq<Trade>): real {
    if ts == [] then 0.0 else SumNet(ts[..|ts| - 1]) + ts[|ts| - 1].netPnl
  }

  function SumGross(ts: seq<Trade>): real {
    if ts == [] then 0.0 else SumGross(ts[..|ts| - 1]) + ts[|ts| - 1].grossPnl
  }

  function SumCommission(ts: seq<Trade>): real {
    if ts == [] then 0.0 else SumCommission(ts[..|ts| - 1]) + ts[|ts| - 1].commission
  }

  /** What each trade of the ledger was charged, found again from its entry and exit bars. */
  function SumCarry(c: Config, bars: seq<Bar>, ts: seq<Trade>): real
    requires InFrame(ts, |bars|)
  {
    if ts == [] then 0.0 else
    var t := ts[|ts| - 1];
    SumCarry(c, bars, ts[..|ts| - 1]) + CarryOver(c, bars, t.entryBar, t.exitBar)
  }

  function SumSignedCarry(c: Config, bars: seq<Bar>, ts: seq<Trade>): real
    requires InFrame(ts, |bars|)
  {
    if ts == [] then 0.0 else
    var t := ts[|ts| - 1];
    SumSignedCarry(c, bars, ts[..|ts| - 1]) + SignedCarry(t.side, CarryOver(c, bars, t.entryBar, t.exitBar))
  }

  /** Cash, in terms of a ledger and of a position that has paid its entry fee and its carry up to
      bar `upTo`. */
  ghost predicate Balanced(c: Config, bars: seq<Bar>, s: State, upTo: nat)
    requires upTo < |bars|
  {
    && InFrame(s.trades, |bars|)
    && (s.position.Some? ==> s.position.value.entryBar <= upTo && s.position.value.entryCommission == Commission(c))
    && (var paid := if s.position.Some? then CarryOver(c, bars, s.position.value.entryBar, upTo) else 0.0;
        && s.financing == SumCarry(c, bars, s.trades) + paid
        && s.cash == c.initialCash + SumNet(s.trades) - SumSignedCarry(c, bars, s.trades)
                     - (if s.position.Some? then Commission(c) + SignedCarry(s.position.value.side, paid) else 0.0))
  }

  lemma CloseBalances(c: Config, bars: seq<Bar>, s: State, i: nat, mid: real, reason: ExitReason, held: int)
    requires i < |bars| && Balanced(c, bars, s, i) && s.position.Some?
    ensures Balanced(c, bars, Close(c, s, i, mid, reason, held), i)
    ensures Close(c, s, i, mid, reason, held).position.None? && Close(c, s, i, mid, reason, held).financing == s.financing
  {
    var p := s.position.value;
    var t := CloseTrade(c, p, i, mid, reason, held);
    var done := Close(c, s, i, mid, reason, held);
    assert done.trades[..|done.trades| - 1] == s.trades;
    assert t.netPnl == t.grossPnl - (Commission(c) + Commission(c));
    hide CloseTrade, Commission, CarryOver, SignedCarry;
    assert InFrame(done.trades, |bars|);
    assert SumNet(done.trades) == SumNet(s.trades) + t.netPnl;
    assert SumCarry(c, bars, done.trades) == SumCarry(c, bars, s.trades) + CarryOver(c, bars, t.entryBar, t.exitBar);
  }

  lemma CarryBalances(c: Config, bars: seq<Bar>, s: State, i: nat)
    requires 0 < i < |bars| && Balanced(c, bars, s, i - 1)
    ensures Balanced(c, bars, ChargeCarry(c, bars, i, s), i)
  {
    if s.position.Some? {
      var p := s.position.value;
      var before, now := CarryOver(c, bars, p.entryBar, i - 1), CarryAt(c, bars, i);
      assert CarryOver(c, bars, p.entryBar, i) == before + now;
      assert SignedCarry(p.side, before + now) == SignedCarry(p.side, before) + SignedCarry(p.side, now);
      assert SignedCarry(p.side, 0.0) == 0.0;
    }
  }

  lemma MarkBalances(c: Config, bars: seq<Bar>, i: nat, s: State)
    requires i < |bars| && Balanced(c, bars, s, i)
    ensures Balanced(c, bars, Mark(c, bars, i, s), i)
  {
    hide Marked, CarryOver, SignedCarry, Commission, SumNet, SumCarry, SumSignedCarry;
  }

  lemma StartBalances(c: Config, bars: seq<Bar>)
    requires bars != []
    ensures Balanced(c, bars, ChargeCarry(c, bars, 0, Initial(c)), 0)
  {
  }

  lemma {:induction false} CashInvariant(c: Config, bars: seq<Bar>, signals: map<int, real>, n: nat)
    requires 0 < n <= |bars|
    ensures Balanced(c, bars, After(c, bars, signals, n), n - 1)
  {
    hide Balanced, ChargeCarry, SignalExit, Enter, ProtectiveExit, Mark, Initial;
    var i := n - 1;
    var s0 := After(c, bars, signals, i);
    if n == 1 {
      StartBalances(c, bars);
    } else {
      CashInvariant(c, bars, signals, n - 1);
      CarryBalances(c, bars, s0, i);
    }
    var s1 := ChargeCarry(c, bars, i, s0);
    SignalExitBalances(c, bars, signals, i, s1);
    EnterBalances(c, bars, signals, i, SignalExit(c, bars, signals, i, s1));
    ProtectiveExitBalances(c, bars, i, Enter(c, bars, signals, i, SignalExit(c, bars, signals, i, s1)));
    MarkBalances(c, bars, i, ProtectiveExit(c, bars, i, Enter(c, bars, signals, i, SignalExit(c, bars, signals, i, s1))));
  }

  lemma SignalExitBalances(c: Config, bars: seq<Bar>, signals: map<int, real>, i: nat, s1: State)
    requires i < |bars| && Balanced(c, bars, s1, i)
    ensures Balanced(c, bars, SignalExit(c, bars, signals, i, s1), i)
  {
    if SignalExit(c, bars, signals, i, s1) != s1 {
      CloseBalances(c, bars, s1, i, bars[i].open, Signal, i - s1.position.value.entryBar);
    }
    hide Balanced, Close;
  }

  lemma EnterBalances(c: Config, bars: seq<Bar>, signals: map<int, real>, i: nat, s2: State)
    requires i < |bars| && Balanced(c, bars, s2, i)
    ensures Balanced(c, bars, Enter(c, bars, signals, i, s2), i)
  {
    hide SumNet, SumCarry, SumSignedCarry, Commission;
    assert SignedCarry(Desired(bars, signals, i), 0.0) == 0.0;
    assert CarryOver(c, bars, i, i) == 0.0;
  }

  lemma ProtectiveExitBalances(c: Config, bars: seq<Bar>, i: nat, s3: State)
    requires i < |bars| && Balanced(c, bars, s3, i)
    ensures Balanced(c, bars, ProtectiveExit(c, bars, i, s3), i)
  {
    hide Balanced, Close, StopLevel, TargetLevel;
    if s3.position.Some? {
      var p := s3.position.value;
      var held := i - p.entryBar + 1;
      if StopHit(c, bars[i], p) {
        CloseBalances(c, bars, s3, i, StopLevel(c, p), Stop, held);
      } else if TargetHit(c, bars[i], p) {
        CloseBalances(c, bars, s3, i, TargetLevel(c, p), Target, held);
      } else if TimeUp(c, held) {
        CloseBalances(c, bars, s3, i, bars[i].close, Time, held);
      }
    }
  }

  function FinalEquity(r: Report): real
    requires r.equity != []
  {
    r.equity[|r.equity| - 1]
  }

  /** Cash conservation: the final equity is the initial cash plus the ledger's net results less
      the side-weighted financing that the ledger's own entry and exit bars imply, and
      the reported financing is the unweighted sum of the same charges. */
  lemma Conservation(c: Config, bars: seq<Bar>, signals: map<int, real>)
    requires bars != []
    ensures var r := Backtest(c, bars, signals);
            && InFrame(r.trades, |bars|) && |r.equity| == |bars|
            && FinalEquity(r) == c.initialCash + SumNet(r.trades) - SumSignedCarry(c, bars, r.trades)
            && r.financing == SumCarry(c, bars, r.trades)
  {
    hide After, Close, CloseTrade, Commission, CarryOver, SignedCarry, SumNet, SumCarry, SumSignedCarry;
    LastMark(c, bars, signals, |bars|);
    CashInvariant(c, bars, signals, |bars|);
    var s := After(c, bars, signals, |bars|);
    if s.position.Some? {
      CloseBalances(c, bars, s, |bars| - 1, bars[|bars| - 1].close, End, |bars| - s.position.value.entryBar);
    }
  }

  // ---------------------------------------------------------------- reported metrics

  /** The money figures of `_metrics`. */
  datatype Metrics = Metrics(
    netProfit: real, grossProfit: real, implicitCost: real, commissionCost: real, totalCost: real, overnightFinancing: real)

  function ImplicitPerTrade(c: Config): real {
    c.quantity * (c.spread + 2.0 * c.slippage)
  }

  /** Profit before costs: the ledger's gross results with the spread and slippage added back. */
  function PreCost(c: Config, ts: seq<Trade>): real {
    SumGross(ts) + |ts| as real * ImplicitPerTrade(c)
  }

  const SNAP := 0.0000000001

  function Measure(c: Config, r: Report): Metrics
    requires r.equity != []
  {
    var implicit := |r.trades| as real * ImplicitPerTrade(c);
    var pre := PreCost(c, r.trades);
    Metrics(FinalEquity(r) - c.initialCash, if AbsR(pre) < SNAP then 0.0 else pre, implicit,
            SumCommission(r.trades), implicit + SumCommission(r.trades), r.financing)
  }

  ghost predicate RowsNet(ts: seq<Trade>) {
    forall j :: 0 <= j < |ts| ==> ts[j].netPnl == ts[j].grossPnl - ts[j].commission
  }

  lemma CloseNetsItsRow(c: Config, s: State, i: nat, mid: real, reason: ExitReason, held: int)
    requires s.position.Some? && RowsNet(s.trades)
    ensures RowsNet(Close(c, s, i, mid, reason, held).trades)
  {
    var t := CloseTrade(c, s.position.value, i, mid, reason, held);
    assert t.netPnl == t.grossPnl - t.commission;
    hide CloseTrade;
  }

  lemma BarNetsItsRows(c: Config, bars: seq<Bar>, signals: map<int, real>, i: nat, s: State)
    requires i < |bars| && RowsNet(s.trades)
    ensures RowsNet(Trading(c, bars, signals, i, s).trades)
  {
    hide Close, RowsNet, FillPrice, Commission, OvernightCost, CrossedGap, StopLevel, TargetLevel;
    var s1 := ChargeCarry(c, bars, i, s);
    if s1.position.Some? {
      CloseNetsItsRow(c, s1, i, bars[i].open, Signal, i - s1.position.value.entryBar);
    }
    var s3 := Enter(c, bars, signals, i, SignalExit(c, bars, signals, i, s1));
    if s3.position.Some? {
      var p := s3.position.value;
      var held := i - p.entryBar + 1;
      if StopHit(c, bars[i], p) {
        CloseNetsItsRow(c, s3, i, StopLevel(c, p), Stop, held);
      } else if TargetHit(c, bars[i], p) {
        CloseNetsItsRow(c, s3, i, TargetLevel(c, p), Target, held);
      } else if TimeUp(c, held) {
        CloseNetsItsRow(c, s3, i, bars[i].close, Time, held);
      }
    }
  }

  lemma {:induction false} RunsNetTheirRows(c: Config, bars: seq<Bar>, signals: map<int, real>, n: nat)
    requires n <= |bars|
    ensures RowsNet(After(c, bars, signals, n).trades)
  {
    hide Trading, RowsNet, Marked;
    if n > 0 {
      RunsNetTheirRows(c, bars, signals, n - 1);
      BarNetsItsRows(c, bars, signals, n - 1, After(c, bars, signals, n - 1));
    } else {
      assert RowsNet([]) by { EmptyRowsNet(); }
    }
  }

  lemma EmptyRowsNet()
    ensures RowsNet([])
  {
  }

  lemma {:induction false} NetIsGrossLessFees(ts: seq<Trade>)
    requires RowsNet(ts)
    ensures SumNet(ts) == SumGross(ts) - SumCommission(ts)
  {
    if ts != [] {
      NetIsGrossLessFees(ts[..|ts| - 1]);
    }
  }

  lemma BacktestNetsItsRows(c: Config, bars: seq<Bar>, signals: map<int, real>)
    requires bars != []
    ensures RowsNet(Backtest(c, bars, signals).trades)
  {
    hide After, Close, RowsNet;
    var n := |bars|;
    var s := After(c, bars, signals, n);
    RunsNetTheirRows(c, bars, signals, n);
    if s.position.Some? {
      CloseNetsItsRow(c, s, n - 1, bars[n - 1].close, End, n - s.position.value.entryBar);
    }
  }

  /** Pre-cost profit less total cost less side-weighted financing is the net profit, to the last
      cent; the reported gross figure takes part exactly when it was not snapped to zero. */
  lemma MetricsReconcile(c: Config, bars: seq<Bar>, signals: map<int, real>)
    requires bars != []
    ensures var r := Backtest(c, bars, signals);
            && r.equity != [] && InFrame(r.trades, |bars|)
            && var m := Measure(c, r);
               && m.netProfit == PreCost(c, r.trades) - m.totalCost - SumSignedCarry(c, bars, r.trades)
               && (m.netProfit == m.grossProfit - m.totalCost - SumSignedCarry(c, bars, r.trades)
                   <==> PreCost(c, r.trades) == 0.0 || AbsR(PreCost(c, r.trades)) >= 0.0000000001)
  {
    hide Backtest, SumSignedCarry, SumCarry, SumNet, SumGross, SumCommission, ImplicitPerTrade;
    Conservation(c, bars, signals);
    BacktestNetsItsRows(c, bars, signals);
    NetIsGrossLessFees(Backtest(c, bars, signals).trades);
  }

  /** What the short trades of a ledger were charged. */
  function ShortCarry(c: Config, bars: seq<Bar>, ts: seq<Trade>): (cost: real)
    requires InFrame(ts, |bars|)
    ensures cost >= 0.0
  {
    if ts == [] then 0.0 else
    var t := ts[|ts| - 1];
    ShortCarry(c, bars, ts[..|ts| - 1]) + if t.side < 0 then CarryOver(c, bars, t.entryBar, t.exitBar) else 0.0
  }

  lemma {:induction false} SignedCarrySplits(c: Config, bars: seq<Bar>, ts: seq<Trade>)
    requires InFrame(ts, |bars|) && forall t :: t in ts ==> t.side == 1 || t.side == -1
    ensures SumSignedCarry(c, bars, ts) == SumCarry(c, bars, ts) - 2.0 * ShortCarry(c, bars, ts)
  {
    if ts != [] {
      var t := ts[|ts| - 1];
      assert t in ts;
      SignedCarrySplits(c, bars, ts[..|ts| - 1]);
      var carry := CarryOver(c, bars, t.entryBar, t.exitBar);
      assert SignedCarry(1, carry) == carry && SignedCarry(-1, carry) == -carry;
    }
  }

  /** Bar `i` opens beyond a session gap that costs something, with a short position in the book. */
  predicate ShortPays(c: Config, bars: seq<Bar>, signals: map<int, real>, i: nat)
    requires i < |bars|
  {
    var s := After(c, bars, signals, i);
    s.position.Some? && s.position.value.side < 0 && CrossedGap(c, bars, i) && OvernightCost(c, bars[i - 1].close) > 0.0
  }

  /** The charges of the bars in question. */
  function ShortCharges(c: Config, bars: seq<Bar>, signals: map<int, real>, n: nat): (cost: real)
    requires n <= |bars|
    ensures cost >= 0.0
  {
    if n == 0 then 0.0 else
    ShortCharges(c, bars, signals, n - 1) + if ShortPays(c, bars, signals, n - 1) then CarryAt(c, bars, n - 1) else 0.0
  }

  /** What the shorts of a ledger and a short still open at bar `upTo` were charged. */
  function ShortSide(c: Config, bars: seq<Bar>, s: State, upTo: nat): real
    requires upTo < |bars| && Balanced(c, bars, s, upTo)
  {
    ShortCarry(c, bars, s.trades)
    + if s.position.Some? && s.position.value.side < 0 then CarryOver(c, bars, s.position.value.entryBar, upTo) else 0.0
  }

  lemma CloseKeepsShortSide(c: Config, bars: seq<Bar>, s: State, i: nat, mid: real, reason: ExitReason, held: int)
    requires i < |bars| && Balanced(c, bars, s, i) && s.position.Some?
    ensures var done := Close(c, s, i, mid, reason, held);
            Balanced(c, bars, done, i) && ShortSide(c, bars, done, i) == ShortSide(c, bars, s, i)
  {
    CloseBalances(c, bars, s, i, mid, reason, held);
    CloseTradeRow(c, s.position.value, i, mid, reason, held);
    var done := Close(c, s, i, mid, reason, held);
    assert done.trades[..|done.trades| - 1] == s.trades;
    hide Balanced, CloseTrade, CarryOver;
  }

  lemma ExitKeepsShortSide(c: Config, bars: seq<Bar>, i: nat, s: State)
    requires i < |bars| && Balanced(c, bars, s, i)
    ensures Balanced(c, bars, ProtectiveExit(c, bars, i, s), i)
    ensures ShortSide(c, bars, ProtectiveExit(c, bars, i, s), i) == ShortSide(c, bars, s, i)
  {
    hide Balanced, ShortSide, Close, StopLevel, TargetLevel;
    if s.position.Some? {
      var p := s.position.value;
      var held := i - p.entryBar + 1;
      if StopHit(c, bars[i], p) {
        CloseKeepsShortSide(c, bars, s, i, StopLevel(c, p), Stop, held);
      } else if TargetHit(c, bars[i], p) {
        CloseKeepsShortSide(c, bars, s, i, TargetLevel(c, p), Target, held);
      } else if TimeUp(c, held) {
        CloseKeepsShortSide(c, bars, s, i, bars[i].close, Time, held);
      }
    }
  }

  lemma FollowKeepsShortSide(c: Config, bars: seq<Bar>, signals: map<int, real>, i: nat, s: State)
    requires i < |bars| && Balanced(c, bars, s, i)
    ensures var t := Enter(c, bars, signals, i, SignalExit(c, bars, signals, i, s));
            Balanced(c, bars, t, i) && ShortSide(c, bars, t, i) == ShortSide(c, bars, s, i)
  {
    hide Balanced, Close, FillPrice, Commission, ShortCarry;
    if s.position.Some? && Desired(bars, signals, i) != s.position.value.side {
      CloseKeepsShortSide(c, bars, s, i, bars[i].open, Signal, i - s.position.value.entryBar);
    }
    var s2 := SignalExit(c, bars, signals, i, s);
    EnterBalances(c, bars, signals, i, s2);
    assert CarryOver(c, bars, i, i) == 0.0;
  }

  lemma CarryAddsShortCharge(c: Config, bars: seq<Bar>, signals: map<int, real>, i: nat)
    requires 0 < i < |bars| && Balanced(c, bars, After(c, bars, signals, i), i - 1)
    ensures var s := After(c, bars, signals, i);
            && Balanced(c, bars, ChargeCarry(c, bars, i, s), i)
            && ShortSide(c, bars, ChargeCarry(c, bars, i, s), i)
               == ShortSide(c, bars, s, i - 1) + if ShortPays(c, bars, signals, i) then CarryAt(c, bars, i) else 0.0
  {
    var s := After(c, bars, signals, i);
    CarryBalances(c, bars, s, i);
    assert s.position.Some? ==> s.position.value.entryBar <= i - 1;
    hide After, Balanced, ShortCarry, OvernightCost;
    if s.position.Some? {
      assert CarryOver(c, bars, s.position.value.entryBar, i) == CarryOver(c, bars, s.position.value.entryBar, i - 1) + CarryAt(c, bars, i);
    }
  }

  lemma BarKeepsShortSide(c: Config, bars: seq<Bar>, signals: map<int, real>, i: nat, s: State)
    requires i < |bars| && Balanced(c, bars, ChargeCarry(c, bars, i, s), i)
    ensures Balanced(c, bars, Step(c, bars, signals, i, s), i)
    ensures ShortSide(c, bars, Step(c, bars, signals, i, s), i) == ShortSide(c, bars, ChargeCarry(c, bars, i, s), i)
  {
    var s1 := ChargeCarry(c, bars, i, s);
    FollowKeepsShortSide(c, bars, signals, i, s1);
    var s2 := Enter(c, bars, signals, i, SignalExit(c, bars, signals, i, s1));
    ExitKeepsShortSide(c, bars, i, s2);
    MarkBalances(c, bars, i, ProtectiveExit(c, bars, i, s2));
    hide ChargeCarry, SignalExit, Enter, ProtectiveExit, Balanced, CarryOver, ShortCarry, Marked;
  }

  lemma {:induction false} ShortSideOfRun(c: Config, bars: seq<Bar>, signals: map<int, real>, n: nat)
    requires 0 < n <= |bars|
    ensures Balanced(c, bars, After(c, bars, signals, n), n - 1)
    ensures ShortSide(c, bars, After(c, bars, signals, n), n - 1) == ShortCharges(c, bars, signals, n)
  {
    var i := n - 1;
    if n == 1 {
      StartBalances(c, bars);
      StartHasNoCharges(c, bars, signals);
    } else {
      ShortSideOfRun(c, bars, signals, n - 1);
      CarryAddsShortCharge(c, bars, signals, i);
    }
    hide ShortSide, Balanced, ChargeCarry, Step, ShortPays, CarryAt, Initial;
    BarKeepsShortSide(c, bars, signals, i, After(c, bars, signals, i));
  }

  lemma StartHasNoCharges(c: Config, bars: seq<Bar>, signals: map<int, real>)
    requires bars != [] && Balanced(c, bars, ChargeCarry(c, bars, 0, Initial(c)), 0)
    ensures ShortSide(c, bars, ChargeCarry(c, bars, 0, Initial(c)), 0) == 0.0
    ensures ShortCharges(c, bars, signals, 1) == 0.0 && After(c, bars, signals, 0) == Initial(c)
  {
    hide Balanced;
    assert ShortCharges(c, bars, signals, 0) == 0.0;
  }

  lemma {:induction false} NoChargesWithoutPayers(c: Config, bars: seq<Bar>, signals: map<int, real>, n: nat)
    requires n <= |bars|
    ensures ShortCharges(c, bars, signals, n) == 0.0 <==> forall i :: 0 <= i < n ==> !ShortPays(c, bars, signals, i)
  {
    hide ShortPays, CarryAt, After;
    if n > 0 {
      NoChargesWithoutPayers(c, bars, signals, n - 1);
      if ShortPays(c, bars, signals, n - 1) {
        PayersAreCharged(c, bars, signals, n - 1);
      }
    }
  }

  lemma PayersAreCharged(c: Config, bars: seq<Bar>, signals: map<int, real>, i: nat)
    requires i < |bars| && ShortPays(c, bars, signals, i)
    ensures CarryAt(c, bars, i) > 0.0
  {
    hide After, OvernightCost;
  }

  /** Cash credits a short where the metric charges it. The reported financing differs from what
      cash paid by twice the charges on short positions, so it is what cash paid exactly when no bar
      opens beyond a paid session gap with a short in the book. */
  lemma FinancingMetricIsSignedIffNoShortPays(c: Config, bars: seq<Bar>, signals: map<int, real>)
    requires bars != []
    ensures var r := Backtest(c, bars, signals);
            && InFrame(r.trades, |bars|)
            && r.financing - SumSignedCarry(c, bars, r.trades) == 2.0 * ShortCharges(c, bars, signals, |bars|)
            && (r.financing == SumSignedCarry(c, bars, r.trades)
                <==> forall i :: 0 <= i < |bars| ==> !ShortPays(c, bars, signals, i))
  {
    Conservation(c, bars, signals);
    NoChargesWithoutPayers(c, bars, signals, |bars|);
    LedgerShortCharges(c, bars, signals);
    LedgerSides(c, bars, signals);
    SignedCarrySplits(c, bars, Backtest(c, bars, signals).trades);
    hide *;
  }

  lemma LedgerSides(c: Config, bars: seq<Bar>, signals: map<int, real>)
    requires bars != []
    ensures forall t :: t in Backtest(c, bars, signals).trades ==> t.side == 1 || t.side == -1
  {
    var n := |bars|;
    var s := After(c, bars, signals, n);
    IntervalsInvariant(c, bars, signals, n);
    hide After, CloseTrade;
    if s.position.Some? {
      CloseTradeRow(c, s.position.value, n - 1, bars[n - 1].close, End, n - s.position.value.entryBar);
    }
  }

  /** What the ledger's short trades were charged is what the bars charged. */
  lemma LedgerShortCharges(c: Config, bars: seq<Bar>, signals: map<int, real>)
    requires bars != [] && InFrame(Backtest(c, bars, signals).trades, |bars|)
    ensures ShortCarry(c, bars, Backtest(c, bars, signals).trades) == ShortCharges(c, bars, signals, |bars|)
  {
    ShortSideOfRun(c, bars, signals, |bars|);
    hide After, Finish, ShortSide, ShortCharges, Balanced, ShortCarry;
    FinishKeepsShortSide(c, bars, After(c, bars, signals, |bars|));
  }

  lemma FinishKeepsShortSide(c: Config, bars: seq<Bar>, s: State)
    requires bars != [] && |s.equity| == |bars| && Balanced(c, bars, s, |bars| - 1)
    ensures InFrame(Finish(c, bars, s).trades, |bars|)
    ensures ShortCarry(c, bars, Finish(c, bars, s).trades) == ShortSide(c, bars, s, |bars| - 1)
  {
    var n := |bars|;
    if s.position.Some? {
      var held := n - s.position.value.entryBar;
      CloseKeepsShortSide(c, bars, s, n - 1, bars[n - 1].close, End, held);
      CloseBalances(c, bars, s, n - 1, bars[n - 1].close, End, held);
    }
    hide Close, CarryOver, ShortCarry, SumNet, SumCarry, SumSignedCarry, Commission;
  }

  /** An open position took the side of a signal at an earlier bar. */
  lemma {:induction false} SideWasSignalled(c: Config, bars: seq<Bar>, signals: map<int, real>, n: nat)
    requires n <= |bars| && After(c, bars, signals, n).position.Some?
    ensures exists i :: 0 <= i < n - 1 && TargetAt(signals, bars[i].time) == After(c, bars, signals, n).position.value.side
  {
    hide Close, FillPrice, Commission, StopHit, TargetHit, TimeUp;
    var s := After(c, bars, signals, n - 1);
    if s.position.Some? {
      SideWasSignalled(c, bars, signals, n - 1);
    }
    SideOfBar(c, bars, signals, n - 1, s);
  }

  lemma SideOfBar(c: Config, bars: seq<Bar>, signals: map<int, real>, i: nat, s: State)
    requires i < |bars| && Step(c, bars, signals, i, s).position.Some?
    ensures var side := Step(c, bars, signals, i, s).position.value.side;
            (s.position.Some? && side == s.position.value.side) || (i > 0 && side == TargetAt(signals, bars[i - 1].time))
  {
    hide CloseTrade, FillPrice, Commission, StopHit, TargetHit, TimeUp, OvernightCost, CrossedGap, SignedCarry;
  }

  /** Without a financing rate, a session gap or a negative signal no short pays. */
  lemma NoShortPays(c: Config, bars: seq<Bar>, signals: map<int, real>)
    requires c.annualFinancingRate == 0.0
          || (forall i :: 0 <= i < |bars| ==> !CrossedGap(c, bars, i))
          || (forall i :: 0 <= i < |bars| - 2 ==> TargetAt(signals, bars[i].time) >= 0)
    ensures forall i :: 0 <= i < |bars| ==> !ShortPays(c, bars, signals, i)
  {
    forall i | 0 <= i < |bars| ensures !ShortPays(c, bars, signals, i) {
      hide After;
      if After(c, bars, signals, i).position.Some? {
        SideWasSignalled(c, bars, signals, i);
      }
    }
  }

  const GAP_CONFIG: Config := ConfigFields(1000.0, 1.0, 0.0, 0.0, 0.0, 1.0, None, None, None, 365.25, 60.0)

  function GapBars(): seq<Bar> {
    [Bar(0, 100.0, 100.0, 100.0, 100.0), Bar(1, 100.0, 100.0, 100.0, 100.0), Bar(9, 100.0, 100.0, 100.0, 100.0)]
  }

  function ShortSignals(): map<int, real> { map[0 := -1.0, 1 := -1.0] }

  lemma GapCosts()
    ensures CrossedGap(GAP_CONFIG, GapBars(), 2) && OvernightCost(GAP_CONFIG, 100.0) == 100.0
    ensures SignedCarry(-1, 100.0) == -100.0
  {
    assert GAP_CONFIG.annualFinancingRate / 365.25 == 1.0;
  }

  lemma FlatFirstBar(c: Config, bars: seq<Bar>, signals: map<int, real>)
    requires bars != []
    ensures var s := After(c, bars, signals, 1); s.position == None && s.trades == [] && s.financing == 0.0
  {
    assert After(c, bars, signals, 0) == Initial(c);
  }

  /** With no levels and no limit, a flat book follows its target into a position and keeps it. */
  lemma EntersAndHolds(c: Config, bars: seq<Bar>, signals: map<int, real>, i: nat, s: State)
    requires i < |bars| && s.position.None? && Desired(bars, signals, i) != 0
    requires c.stopDistance.None? && c.targetDistance.None? && c.maxHoldingBars.None?
    ensures var t := Step(c, bars, signals, i, s);
            && t.position == Some(Position(Desired(bars, signals, i), i, FillPrice(c, bars[i].open, Desired(bars, signals, i), true), Commission(c)))
            && t.trades == s.trades && t.financing == s.financing
  {
  }

  lemma HoldsOverGap(c: Config, bars: seq<Bar>, signals: map<int, real>, i: nat, s: State)
    requires 0 < i < |bars| && s.position.Some? && s.position.value.entryBar < i
    requires Desired(bars, signals, i) == s.position.value.side && CrossedGap(c, bars, i)
    requires c.stopDistance.None? && c.targetDistance.None? && c.maxHoldingBars.None?
    ensures var t := Step(c, bars, signals, i, s);
            && t.position == s.position && t.trades == s.trades
            && t.financing == s.financing + OvernightCost(c, bars[i - 1].close)
  {
  }

  /** A run the metric misstates: one short held over one gap is credited 100 and reported as charged 100. */
  lemma ShortHoldIsCredited()
    ensures var r := Backtest(GAP_CONFIG, GapBars(), ShortSignals());
            InFrame(r.trades, 3) && r.financing == 100.0 && SumSignedCarry(GAP_CONFIG, GapBars(), r.trades) == -100.0
  {
    hide Step, OvernightCost, CarryOver, FillPrice, Commission;
    var c, bars, signals := GAP_CONFIG, GapBars(), ShortSignals();
    GapCosts();
    FlatFirstBar(c, bars, signals);
    EntersAndHolds(c, bars, signals, 1, After(c, bars, signals, 1));
    assert After(c, bars, signals, 2) == Step(c, bars, signals, 1, After(c, bars, signals, 1));
    HoldsOverGap(c, bars, signals, 2, After(c, bars, signals, 2));
    assert After(c, bars, signals, 3) == Step(c, bars, signals, 2, After(c, bars, signals, 2));
    Conservation(c, bars, signals);
  }
}
