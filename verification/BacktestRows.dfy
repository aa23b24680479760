/** What every row of a backtest's ledger says, read off the bars, the signals and the configuration
    alone: why and where it was opened and closed, at what price, and what it cost. */
module BacktestRows {
  import opened Prelude
  import opened Backtester
  import opened BacktestLaws

  // ---------------------------------------------------------------- one row

  /** What a fill costs against the mid price, per unit; what the two fills of a row cost so; and the
      commission of one fill. */
  function Against(c: Config): real { c.spread / 2.0 + c.slippage }

  function CrossingCost(c: Config): real { c.quantity * (c.spread + 2.0 * c.slippage) }

  function Fee(c: Config): real { c.commissionPerLotSide * c.quantity / c.ouncesPerLot }

  /** The signal of the bar before `k` asks for that side. */
  predicate Asked(bars: seq<Bar>, signals: map<int, real>, k: int, side: int) {
    && 0 < k <= |bars| && bars[k - 1].time in signals
    && ((side == 1 && signals[bars[k - 1].time] > 0.0) || (side == -1 && signals[bars[k - 1].time] < 0.0))
  }

  predicate StopTouched(c: Config, bar: Bar, side: int, entryPrice: real) {
    c.stopDistance.Some? && if side == 1 then bar.low <= entryPrice - c.stopDistance.value else bar.high >= entryPrice + c.stopDistance.value
  }

  predicate TargetTouched(c: Config, bar: Bar, side: int, entryPrice: real) {
    c.targetDistance.Some? && if side == 1 then bar.high >= entryPrice + c.targetDistance.value else bar.low <= entryPrice - c.targetDistance.value
  }

  predicate LimitReached(c: Config, held: int) {
    c.maxHoldingBars.Some? && c.maxHoldingBars.value != 0 && held >= c.maxHoldingBars.value
  }

  /** A bar on which a position that has been held for `held` bars would be closed. */
  predicate Ends(c: Config, bar: Bar, side: int, entryPrice: real, held: int) {
    StopTouched(c, bar, side, entryPrice) || TargetTouched(c, bar, side, entryPrice) || LimitReached(c, held)
  }

  /** Opened on the side the bar before asked for, at this bar's open and half the spread and the
      slippage against it. */
  ghost predicate Opened(c: Config, bars: seq<Bar>, signals: map<int, real>, side: int, entryBar: nat, entryPrice: real) {
    && 0 < entryBar < |bars| && (side == 1 || side == -1) && Asked(bars, signals, entryBar, side)
    && entryPrice == bars[entryBar].open + side as real * Against(c)
  }

  /** Nothing ended the position before bar `upTo`, and every signal in between asked for its side. */
  ghost predicate HeldThrough(c: Config, bars: seq<Bar>, signals: map<int, real>, side: int, entryBar: nat, entryPrice: real, upTo: nat) {
    && upTo <= |bars|
    && (forall k :: entryBar <= k < upTo ==> !Ends(c, bars[k], side, entryPrice, k - entryBar + 1))
    && forall k :: entryBar < k < upTo ==> Asked(bars, signals, k, side)
  }

  function Distance(d: Option<real>): real { if d.Some? then d.value else 0.0 }

  /** The mid price a row was closed at. */
  function ExitMid(c: Config, bars: seq<Bar>, t: Trade): real
    requires t.exitBar < |bars|
  {
    match t.reason
    case Signal => bars[t.exitBar].open
    case Stop => t.entryPrice - t.side as real * Distance(c.stopDistance)
    case Target => t.entryPrice + t.side as real * Distance(c.targetDistance)
    case Time => bars[t.exitBar].close
    case End => bars[t.exitBar].close
  }

  /** Why the row was closed on its last bar. */
  ghost predicate Closed(c: Config, bars: seq<Bar>, signals: map<int, real>, t: Trade)
    requires 0 < t.entryBar <= t.exitBar < |bars|
  {
    var bar := bars[t.exitBar];
    var stop, target := StopTouched(c, bar, t.side, t.entryPrice), TargetTouched(c, bar, t.side, t.entryPrice);
    if t.reason.Signal? then
      t.exitBar > t.entryBar && !Asked(bars, signals, t.exitBar, t.side) && t.barsHeld == t.exitBar - t.entryBar
    else
      && (t.exitBar > t.entryBar ==> Asked(bars, signals, t.exitBar, t.side))
      && t.barsHeld == t.exitBar - t.entryBar + 1
      && (t.reason.Stop? <==> stop)
      && (t.reason.Target? <==> target && !stop)
      && (t.reason.Time? <==> !stop && !target && LimitReached(c, t.barsHeld))
      && (t.reason.End? ==> t.exitBar == |bars| - 1)
  }

  ghost predicate Priced(c: Config, bars: seq<Bar>, t: Trade)
    requires t.exitBar < |bars|
  {
    && t.exitPrice == ExitMid(c, bars, t) - t.side as real * Against(c)
    && t.grossPnl == t.side as real * (t.exitPrice - t.entryPrice) * c.quantity
    && t.commission == 2.0 * Fee(c)
    && t.netPnl == t.grossPnl - t.commission
  }

  ghost predicate RowOk(c: Config, bars: seq<Bar>, signals: map<int, real>, t: Trade) {
    && Opened(c, bars, signals, t.side, t.entryBar, t.entryPrice) && t.entryBar <= t.exitBar < |bars|
    && HeldThrough(c, bars, signals, t.side, t.entryBar, t.entryPrice, t.exitBar)
    && Closed(c, bars, signals, t) && Priced(c, bars, t)
  }

  /** The row holds its side over bar `i`; a row closed by a signal leaves at the open of its last bar. */
  predicate Covers(t: Trade, side: int, i: nat) {
    t.side == side && t.entryBar <= i && (i < t.exitBar || (i == t.exitBar && !t.reason.Signal?))
  }

  // ---------------------------------------------------------------- the run

  ghost predicate RowsOk(c: Config, bars: seq<Bar>, signals: map<int, real>, ts: seq<Trade>) {
    forall t :: t in ts ==> RowOk(c, bars, signals, t)
  }

  /** A position that has lived up to bar `n`. */
  ghost predicate Alive(c: Config, bars: seq<Bar>, signals: map<int, real>, p: Position, n: nat) {
    && Opened(c, bars, signals, p.side, p.entryBar, p.entryPrice)
    && p.entryCommission == Fee(c)
    && HeldThrough(c, bars, signals, p.side, p.entryBar, p.entryPrice, n)
  }

  /** The open position after `n` bars, and the same after the open of bar `i`. */
  ghost predicate OpenOk(c: Config, bars: seq<Bar>, signals: map<int, real>, s: State, n: nat) {
    s.position.Some? ==> s.position.value.entryBar < n && Alive(c, bars, signals, s.position.value, n)
  }

  ghost predicate OpenAt(c: Config, bars: seq<Bar>, signals: map<int, real>, s: State, i: nat)
    requires i < |bars|
  {
    s.position.Some? ==>
      var p := s.position.value;
      p.entryBar <= i && Alive(c, bars, signals, p, i) && (p.entryBar < i ==> Asked(bars, signals, i, p.side))
  }

  lemma TargetMeaning(bars: seq<Bar>, signals: map<int, real>, i: nat)
    requires i < |bars|
    ensures var d := Desired(bars, signals, i);
            && (d == 1 || d == -1 || d == 0) && (i == 0 ==> d == 0)
            && (i > 0 && d != 0 ==> Asked(bars, signals, i, d))
            && forall side :: Asked(bars, signals, i, side) ==> d == side
  {
  }

  lemma FillMeaning(c: Config, mid: real, side: int)
    ensures FillPrice(c, mid, side, true) == mid + side as real * Against(c)
    ensures FillPrice(c, mid, side, false) == mid - side as real * Against(c)
  {
    assert (-side) as real * HalfCost(c) == -(side as real * HalfCost(c));
  }

  lemma RowMeaning(c: Config, p: Position, i: nat, mid: real, reason: ExitReason, held: int)
    ensures var t := CloseTrade(c, p, i, mid, reason, held);
            && t.side == p.side && t.entryBar == p.entryBar && t.entryPrice == p.entryPrice && t.exitBar == i
            && t.exitPrice == mid - p.side as real * Against(c) && t.reason == reason && t.barsHeld == held
            && t.grossPnl == t.side as real * (t.exitPrice - t.entryPrice) * c.quantity
            && t.commission == p.entryCommission + Fee(c)
            && t.netPnl == t.grossPnl - t.commission
  {
    FillMeaning(c, mid, p.side);
  }

  // ---------------------------------------------------------------- one bar

  /** Closing a position that has lived up to bar `i` gives a sound row. */
  lemma ClosedRow(c: Config, bars: seq<Bar>, signals: map<int, real>, s: State, i: nat, mid: real, reason: ExitReason, held: int)
    requires i < |bars| && s.position.Some? && s.position.value.entryBar <= i && RowsOk(c, bars, signals, s.trades)
    requires Alive(c, bars, signals, s.position.value, i)
    requires var t := CloseTrade(c, s.position.value, i, mid, reason, held);
             && t.side == s.position.value.side && t.entryBar == s.position.value.entryBar && t.exitBar == i
             && Closed(c, bars, signals, t) && mid == ExitMid(c, bars, t)
    ensures RowsOk(c, bars, signals, Close(c, s, i, mid, reason, held).trades)
  {
    RowMeaning(c, s.position.value, i, mid, reason, held);
    hide CloseTrade, Closed, HeldThrough, ExitMid, Commission, Asked;
    var t := CloseTrade(c, s.position.value, i, mid, reason, held);
    assert RowOk(c, bars, signals, t);
    hide RowOk;
  }

  /** Reading the levels off a position is reading them off its row. */
  lemma LevelsMean(c: Config, bar: Bar, p: Position, held: int)
    requires p.side == 1 || p.side == -1
    ensures StopHit(c, bar, p) <==> StopTouched(c, bar, p.side, p.entryPrice)
    ensures TargetHit(c, bar, p) <==> TargetTouched(c, bar, p.side, p.entryPrice)
    ensures TimeUp(c, held) <==> LimitReached(c, held)
    ensures c.stopDistance.Some? ==> StopLevel(c, p) == p.entryPrice - p.side as real * Distance(c.stopDistance)
    ensures c.targetDistance.Some? ==> TargetLevel(c, p) == p.entryPrice + p.side as real * Distance(c.targetDistance)
  {
    var stop, target := Distance(c.stopDistance), Distance(c.targetDistance);
    assert p.side as real * stop == if p.side == 1 then stop else -stop;
    assert p.side as real * target == if p.side == 1 then target else -target;
  }

  lemma SignalRows(c: Config, bars: seq<Bar>, signals: map<int, real>, i: nat, s: State)
    requires i < |bars| && RowsOk(c, bars, signals, s.trades) && OpenOk(c, bars, signals, s, i)
    ensures var t := SignalExit(c, bars, signals, i, s); RowsOk(c, bars, signals, t.trades) && OpenAt(c, bars, signals, t, i)
  {
    TargetMeaning(bars, signals, i);
    if s.position.Some? && Desired(bars, signals, i) != s.position.value.side {
      var p := s.position.value;
      RowMeaning(c, p, i, bars[i].open, Signal, i - p.entryBar);
      hide CloseTrade, Desired, Asked, HeldThrough, StopTouched, TargetTouched, LimitReached, RowsOk;
      ClosedRow(c, bars, signals, s, i, bars[i].open, Signal, i - p.entryBar);
    }
    hide CloseTrade, Desired, Asked, HeldThrough, RowsOk;
  }

  lemma EntryRows(c: Config, bars: seq<Bar>, signals: map<int, real>, i: nat, s: State)
    requires i < |bars| && OpenAt(c, bars, signals, s, i)
    ensures OpenAt(c, bars, signals, Enter(c, bars, signals, i, s), i) && Enter(c, bars, signals, i, s).trades == s.trades
  {
    TargetMeaning(bars, signals, i);
    var d := Desired(bars, signals, i);
    FillMeaning(c, bars[i].open, d);
    hide Desired, Asked, FillPrice, Ends;
  }

  lemma LevelRows(c: Config, bars: seq<Bar>, signals: map<int, real>, i: nat, s: State)
    requires i < |bars| && RowsOk(c, bars, signals, s.trades) && OpenAt(c, bars, signals, s, i)
    ensures var t := ProtectiveExit(c, bars, i, s); RowsOk(c, bars, signals, t.trades) && OpenOk(c, bars, signals, t, i + 1)
  {
    if s.position.Some? {
      var p := s.position.value;
      var held := i - p.entryBar + 1;
      LevelsMean(c, bars[i], p, held);
      hide CloseTrade, Asked, RowsOk, StopHit, TargetHit, TimeUp, StopLevel, TargetLevel;
      if StopHit(c, bars[i], p) {
        RowMeaning(c, p, i, StopLevel(c, p), Stop, held);
        ClosedRow(c, bars, signals, s, i, StopLevel(c, p), Stop, held);
      } else if TargetHit(c, bars[i], p) {
        RowMeaning(c, p, i, TargetLevel(c, p), Target, held);
        ClosedRow(c, bars, signals, s, i, TargetLevel(c, p), Target, held);
      } else if TimeUp(c, held) {
        RowMeaning(c, p, i, bars[i].close, Time, held);
        ClosedRow(c, bars, signals, s, i, bars[i].close, Time, held);
      }
    }
  }

  // ---------------------------------------------------------------- every run

  lemma BarRows(c: Config, bars: seq<Bar>, signals: map<int, real>, i: nat, s: State)
    requires i < |bars| && RowsOk(c, bars, signals, s.trades) && OpenOk(c, bars, signals, s, i)
    ensures var t := Step(c, bars, signals, i, s); RowsOk(c, bars, signals, t.trades) && OpenOk(c, bars, signals, t, i + 1)
  {
    var s1 := ChargeCarry(c, bars, i, s);
    assert s1.position == s.position && s1.trades == s.trades;
    hide RowsOk, OpenAt, ChargeCarry, SignalExit, Enter, ProtectiveExit, Alive;
    SignalRows(c, bars, signals, i, s1);
    var s2 := SignalExit(c, bars, signals, i, s1);
    EntryRows(c, bars, signals, i, s2);
    LevelRows(c, bars, signals, i, Enter(c, bars, signals, i, s2));
  }

  lemma {:induction false} RunRows(c: Config, bars: seq<Bar>, signals: map<int, real>, n: nat)
    requires n <= |bars|
    ensures var s := After(c, bars, signals, n); RowsOk(c, bars, signals, s.trades) && OpenOk(c, bars, signals, s, n)
  {
    if n > 0 {
      hide Step, RowsOk, OpenOk;
      RunRows(c, bars, signals, n - 1);
      BarRows(c, bars, signals, n - 1, After(c, bars, signals, n - 1));
    }
  }

  /** Every row of the ledger: opened because the bar before asked for its side, at the open and half
      the spread and the slippage against it; kept while the signals agreed and neither level nor the
      holding limit was reached; closed for the reason it states, at the mid price that reason
      implies and again the same cost against it; with the two commissions. */
  lemma LedgerRows(c: Config, bars: seq<Bar>, signals: map<int, real>)
    requires bars != []
    ensures RowsOk(c, bars, signals, Backtest(c, bars, signals).trades)
  {
    var n := |bars|;
    var s := After(c, bars, signals, n);
    RunRows(c, bars, signals, n);
    hide After, RowsOk;
    if s.position.Some? {
      LastRow(c, bars, signals, s);
    }
  }

  /** The forced close on the last bar. */
  lemma LastRow(c: Config, bars: seq<Bar>, signals: map<int, real>, s: State)
    requires bars != [] && RowsOk(c, bars, signals, s.trades) && OpenOk(c, bars, signals, s, |bars|) && s.position.Some?
    ensures var n := |bars|;
            RowsOk(c, bars, signals, Close(c, s, n - 1, bars[n - 1].close, End, n - s.position.value.entryBar).trades)
  {
    var n, p := |bars|, s.position.value;
    RowMeaning(c, p, n - 1, bars[n - 1].close, End, n - p.entryBar);
    hide CloseTrade, Asked, RowsOk, StopTouched, TargetTouched, LimitReached;
    ClosedRow(c, bars, signals, s, n - 1, bars[n - 1].close, End, n - p.entryBar);
  }

  // ---------------------------------------------------------------- signals are followed

  /** A row or the open position holds its side over bar `i`. */
  ghost predicate Held(s: State, side: int, i: nat) {
    || (exists t :: t in s.trades && Covers(t, side, i))
    || (s.position.Some? && s.position.value.side == side && s.position.value.entryBar <= i)
  }

  ghost predicate Followed(bars: seq<Bar>, signals: map<int, real>, s: State, n: nat) {
    forall i, side :: 0 <= i < n && Asked(bars, signals, i, side) ==> Held(s, side, i)
  }

  /** Closing after bar `i` was lived through takes no bar from what was held. */
  lemma HeldAfterClose(c: Config, s: State, i: nat, mid: real, reason: ExitReason, held: int, side: int, k: nat)
    requires s.position.Some? && Held(s, side, k) && k <= i && (reason.Signal? ==> k < i)
    ensures Held(Close(c, s, i, mid, reason, held), side, k)
  {
    var t := CloseTrade(c, s.position.value, i, mid, reason, held);
    CloseTradeRow(c, s.position.value, i, mid, reason, held);
    hide CloseTrade, Commission;
    var done := Close(c, s, i, mid, reason, held);
    assert t in done.trades;
    if row :| row in s.trades && Covers(row, side, k) {
      assert row in done.trades;
    }
  }

  /** One close keeps all that was held. */
  lemma CloseFollows(c: Config, bars: seq<Bar>, signals: map<int, real>, s: State, i: nat, mid: real, reason: ExitReason, held: int, n: nat)
    requires s.position.Some? && Followed(bars, signals, s, n) && n <= i + 1 && (reason.Signal? ==> n <= i)
    ensures Followed(bars, signals, Close(c, s, i, mid, reason, held), n)
  {
    hide Held, Close, Asked;
    forall k, side | 0 <= k < n && Asked(bars, signals, k, side) ensures Held(Close(c, s, i, mid, reason, held), side, k) {
      HeldAfterClose(c, s, i, mid, reason, held, side, k);
    }
  }

  lemma FollowBar(c: Config, bars: seq<Bar>, signals: map<int, real>, i: nat, s: State)
    requires i < |bars| && Followed(bars, signals, s, i) && (s.position.Some? ==> s.position.value.entryBar <= i)
    ensures var t := Enter(c, bars, signals, i, SignalExit(c, bars, signals, i, s)); Followed(bars, signals, t, i + 1)
  {
    TargetMeaning(bars, signals, i);
    if s.position.Some? {
      CloseFollows(c, bars, signals, s, i, bars[i].open, Signal, i - s.position.value.entryBar, i);
    }
    hide CloseTrade, Desired, Asked, FillPrice, Commission, Covers;
    var t := SignalExit(c, bars, signals, i, s);
    assert Followed(bars, signals, t, i);
    var u := Enter(c, bars, signals, i, t);
    forall k, side | 0 <= k < i + 1 && Asked(bars, signals, k, side) ensures Held(u, side, k) {
      if k < i {
        assert Held(t, side, k);
      } else {
        assert Desired(bars, signals, i) == side;
      }
    }
  }

  lemma FollowExit(c: Config, bars: seq<Bar>, signals: map<int, real>, i: nat, s: State)
    requires i < |bars| && Followed(bars, signals, s, i + 1)
    ensures Followed(bars, signals, ProtectiveExit(c, bars, i, s), i + 1)
  {
    if s.position.Some? {
      var p := s.position.value;
      var held := i - p.entryBar + 1;
      hide Followed, Close, StopHit, TargetHit, TimeUp;
      if StopHit(c, bars[i], p) {
        CloseFollows(c, bars, signals, s, i, StopLevel(c, p), Stop, held, i + 1);
      } else if TargetHit(c, bars[i], p) {
        CloseFollows(c, bars, signals, s, i, TargetLevel(c, p), Target, held, i + 1);
      } else if TimeUp(c, held) {
        CloseFollows(c, bars, signals, s, i, bars[i].close, Time, held, i + 1);
      }
    }
  }

  lemma SameHeld(bars: seq<Bar>, signals: map<int, real>, s: State, t: State, n: nat)
    requires Followed(bars, signals, s, n) && t.trades == s.trades && t.position == s.position
    ensures Followed(bars, signals, t, n)
  {
    hide Asked, Covers;
    forall k, side | 0 <= k < n && Asked(bars, signals, k, side) ensures Held(t, side, k) {
      assert Held(s, side, k);
    }
  }

  lemma {:induction false} RunFollows(c: Config, bars: seq<Bar>, signals: map<int, real>, n: nat)
    requires n <= |bars|
    ensures Followed(bars, signals, After(c, bars, signals, n), n)
  {
    if n > 0 {
      var i := n - 1;
      RunFollows(c, bars, signals, i);
      RunRows(c, bars, signals, i);
      var s := After(c, bars, signals, i);
      var s1 := ChargeCarry(c, bars, i, s);
      SameHeld(bars, signals, s, s1, i);
      hide Followed, SignalExit, Enter, ProtectiveExit, RowsOk, Alive;
      FollowBar(c, bars, signals, i, s1);
      var s3 := Enter(c, bars, signals, i, SignalExit(c, bars, signals, i, s1));
      FollowExit(c, bars, signals, i, s3);
      SameHeld(bars, signals, ProtectiveExit(c, bars, i, s3), Step(c, bars, signals, i, s), n);
    }
  }

  /** No signal is ignored: whenever the bar before asks for a side, some row of the ledger holds that
      side over the bar. */
  lemma SignalsAreFollowed(c: Config, bars: seq<Bar>, signals: map<int, real>, i: nat, side: int)
    requires i < |bars| && Asked(bars, signals, i, side)
    ensures exists t :: t in Backtest(c, bars, signals).trades && Covers(t, side, i)
  {
    var n := |bars|;
    var s := After(c, bars, signals, n);
    RunFollows(c, bars, signals, n);
    if s.position.Some? {
      CloseFollows(c, bars, signals, s, n - 1, bars[n - 1].close, End, n - s.position.value.entryBar, n);
    }
    hide After, CloseTrade, Commission, Covers, Asked;
    assert Held(if s.position.Some? then Close(c, s, n - 1, bars[n - 1].close, End, n - s.position.value.entryBar) else s, side, i);
  }

  // ---------------------------------------------------------------- profit before costs

  /** What the rows gained at mid prices. */
  function MidProfit(c: Config, bars: seq<Bar>, ts: seq<Trade>): real
    requires InFrame(ts, |bars|)
  {
    if ts == [] then 0.0 else
    var t := ts[|ts| - 1];
    MidProfit(c, bars, ts[..|ts| - 1]) + t.side as real * (ExitMid(c, bars, t) - bars[t.entryBar].open) * c.quantity
  }

  lemma RowAtMid(c: Config, bars: seq<Bar>, signals: map<int, real>, t: Trade)
    requires RowOk(c, bars, signals, t)
    ensures t.grossPnl == t.side as real * (ExitMid(c, bars, t) - bars[t.entryBar].open) * c.quantity - CrossingCost(c)
  {
    hide Closed, HeldThrough, ExitMid, Asked;
    GrossAtMid(t.side as real, ExitMid(c, bars, t), bars[t.entryBar].open, c.spread, c.slippage, c.quantity, t.exitPrice, t.entryPrice);
  }

  lemma GrossAtMid(side: real, exit: real, entry: real, spread: real, slippage: real, quantity: real, exitPrice: real, entryPrice: real)
    requires side == 1.0 || side == -1.0
    requires exitPrice == exit - side * (spread / 2.0 + slippage) && entryPrice == entry + side * (spread / 2.0 + slippage)
    ensures side * (exitPrice - entryPrice) * quantity == side * (exit - entry) * quantity - quantity * (spread + 2.0 * slippage)
  {
    assert side * (exitPrice - entryPrice) == side * (exit - entry) - (spread + 2.0 * slippage);
  }

  /** The profit before costs that the metrics report is what the rows gained at mid prices. */
  lemma {:induction false} PreCostIsMidProfit(c: Config, bars: seq<Bar>, signals: map<int, real>, ts: seq<Trade>)
    requires RowsOk(c, bars, signals, ts)
    ensures InFrame(ts, |bars|) && PreCost(c, ts) == MidProfit(c, bars, ts)
  {
    hide RowOk, ExitMid;
    assert InFrame(ts, |bars|) by { RowsInFrame(c, bars, signals, ts); }
    if ts != [] {
      var front, t := ts[..|ts| - 1], ts[|ts| - 1];
      PreCostIsMidProfit(c, bars, signals, front);
      RowAtMid(c, bars, signals, t);
      var each := ImplicitPerTrade(c);
      assert |ts| as real * each == |front| as real * each + each;
    }
  }

  lemma RowsInFrame(c: Config, bars: seq<Bar>, signals: map<int, real>, ts: seq<Trade>)
    requires RowsOk(c, bars, signals, ts)
    ensures InFrame(ts, |bars|)
  {
    hide Opened, HeldThrough, Closed, Priced;
  }

  // ---------------------------------------------------------------- where the money went

  /** What holding over the open of bar `k` costs: a year's rate over 365.25 of the notional at the
      close before, for a gap longer than a session may have. */
  function GapCharge(c: Config, bars: seq<Bar>, k: nat): real
    requires 0 < k < |bars|
  {
    if (60 * (bars[k].time - bars[k - 1].time)) as real > c.sessionGapSeconds
    then c.annualFinancingRate / 365.25 * AbsR(bars[k - 1].close) * c.quantity else 0.0
  }

  function HoldCharge(c: Config, bars: seq<Bar>, entry: nat, exit: nat): real
    requires entry <= exit < |bars|
    decreases exit
  {
    if exit == entry then 0.0 else HoldCharge(c, bars, entry, exit - 1) + GapCharge(c, bars, exit)
  }

  function HoldCharges(c: Config, bars: seq<Bar>, ts: seq<Trade>, signed: bool): real
    requires InFrame(ts, |bars|)
  {
    if ts == [] then 0.0 else
    var t := ts[|ts| - 1];
    HoldCharges(c, bars, ts[..|ts| - 1], signed) + (if signed then t.side else 1) as real * HoldCharge(c, bars, t.entryBar, t.exitBar)
  }

  lemma {:induction false} CarryIsCharged(c: Config, bars: seq<Bar>, entry: nat, exit: nat)
    requires entry <= exit < |bars|
    ensures CarryOver(c, bars, entry, exit) == HoldCharge(c, bars, entry, exit)
    decreases exit
  {
    if exit > entry {
      CarryIsCharged(c, bars, entry, exit - 1);
      ChargeMeaning(c, bars, exit);
      hide CarryAt, GapCharge;
    }
  }

  lemma ChargeMeaning(c: Config, bars: seq<Bar>, k: nat)
    requires 0 < k < |bars|
    ensures CarryAt(c, bars, k) == GapCharge(c, bars, k)
  {
    var price := AbsR(bars[k - 1].close);
    if c.annualFinancingRate == 0.0 {
      assert c.annualFinancingRate / 365.25 == 0.0;
      assert 0.0 * price * c.quantity == 0.0;
    }
  }

  lemma {:induction false} SumsAreCharges(c: Config, bars: seq<Bar>, ts: seq<Trade>)
    requires InFrame(ts, |bars|)
    ensures SumCarry(c, bars, ts) == HoldCharges(c, bars, ts, false) && SumSignedCarry(c, bars, ts) == HoldCharges(c, bars, ts, true)
  {
    hide CarryOver, HoldCharge;
    if ts != [] {
      SumsAreCharges(c, bars, ts[..|ts| - 1]);
      CarryIsCharged(c, bars, ts[|ts| - 1].entryBar, ts[|ts| - 1].exitBar);
    }
  }

  /** What one row brought: its gain at mid prices, less the spread and slippage and the commissions of
      its two fills, less the charges for the gaps it was held over, which a short is paid. */
  function RowResult(c: Config, bars: seq<Bar>, t: Trade): real
    requires t.entryBar <= t.exitBar < |bars|
  {
    t.side as real * (ExitMid(c, bars, t) - bars[t.entryBar].open) * c.quantity - CrossingCost(c) - 2.0 * Fee(c)
    - t.side as real * HoldCharge(c, bars, t.entryBar, t.exitBar)
  }

  function RowResults(c: Config, bars: seq<Bar>, ts: seq<Trade>): real
    requires InFrame(ts, |bars|)
  {
    if ts == [] then 0.0 else RowResults(c, bars, ts[..|ts| - 1]) + RowResult(c, bars, ts[|ts| - 1])
  }

  lemma RowNet(c: Config, bars: seq<Bar>, signals: map<int, real>, t: Trade)
    requires RowOk(c, bars, signals, t)
    ensures t.netPnl - t.side as real * HoldCharge(c, bars, t.entryBar, t.exitBar) == RowResult(c, bars, t)
  {
    RowAtMid(c, bars, signals, t);
    assert t.netPnl == t.grossPnl - 2.0 * Fee(c);
    hide RowOk, Fee, CrossingCost, ExitMid, HoldCharge;
  }

  lemma {:induction false} NetsAreResults(c: Config, bars: seq<Bar>, signals: map<int, real>, ts: seq<Trade>)
    requires RowsOk(c, bars, signals, ts)
    ensures InFrame(ts, |bars|) && SumNet(ts) - HoldCharges(c, bars, ts, true) == RowResults(c, bars, ts)
  {
    hide RowOk, RowResult, HoldCharge;
    assert InFrame(ts, |bars|) by { RowsInFrame(c, bars, signals, ts); }
    if ts != [] {
      NetsAreResults(c, bars, signals, ts[..|ts| - 1]);
      RowNet(c, bars, signals, ts[|ts| - 1]);
    }
  }

  /** The final equity, explained without the run: the initial cash and what each row of the ledger
      brought. The reported financing adds up the rows' gap charges without their sign. */
  lemma ProfitExplained(c: Config, bars: seq<Bar>, signals: map<int, real>)
    requires bars != []
    ensures var r := Backtest(c, bars, signals);
            && r.equity != [] && InFrame(r.trades, |bars|)
            && FinalEquity(r) == c.initialCash + RowResults(c, bars, r.trades)
            && r.financing == HoldCharges(c, bars, r.trades, false)
  {
    var ts := Backtest(c, bars, signals).trades;
    Conservation(c, bars, signals);
    LedgerRows(c, bars, signals);
    NetsAreResults(c, bars, signals, ts);
    SumsAreCharges(c, bars, ts);
    hide *;
  }

  /** What closing an open position at the close of bar `i` would bring in all. */
  function OpenResult(c: Config, bars: seq<Bar>, p: Position, i: nat): real
    requires p.entryBar <= i < |bars|
  {
    p.side as real * (bars[i].close - p.side as real * Against(c) - p.entryPrice) * c.quantity - 2.0 * Fee(c)
    - p.side as real * HoldCharge(c, bars, p.entryBar, i)
  }

  lemma MarkedMeaning(c: Config, bars: seq<Bar>, s: State, i: nat)
    requires i < |bars| && Balanced(c, bars, s, i)
    ensures Marked(c, s, bars[i].close) == c.initialCash + SumNet(s.trades) - SumSignedCarry(c, bars, s.trades)
                                           + if s.position.Some? then OpenResult(c, bars, s.position.value, i) else 0.0
  {
    hide CarryOver, HoldCharge, SumNet, SumCarry, SumSignedCarry;
    if s.position.Some? {
      var p := s.position.value;
      CarryIsCharged(c, bars, p.entryBar, i);
      FillMeaning(c, bars[i].close, p.side);
      assert Commission(c) == Fee(c);
      hide Commission, Fee, Against, FillPrice;
      assert SignedCarry(p.side, HoldCharge(c, bars, p.entryBar, i)) == p.side as real * HoldCharge(c, bars, p.entryBar, i);
      hide SignedCarry;
    }
  }

  /** The equity value of a bar: the initial cash, what the rows closed so far brought, and what closing
      an open position at this bar's close would bring. */
  lemma EquityExplained(c: Config, bars: seq<Bar>, signals: map<int, real>, n: nat)
    requires 0 < n <= |bars|
    ensures var s := After(c, bars, signals, n);
            && InFrame(s.trades, |bars|) && (s.position.Some? ==> s.position.value.entryBar < n)
            && s.equity[n - 1] == c.initialCash + RowResults(c, bars, s.trades)
                                  + if s.position.Some? then OpenResult(c, bars, s.position.value, n - 1) else 0.0
  {
    var s := After(c, bars, signals, n);
    LastMark(c, bars, signals, n);
    CashInvariant(c, bars, signals, n);
    RunRows(c, bars, signals, n);
    NetsAreResults(c, bars, signals, s.trades);
    SumsAreCharges(c, bars, s.trades);
    MarkedMeaning(c, bars, s, n - 1);
    assert s.position.Some? ==> s.position.value.entryBar < n;
    hide After, SumNet, SumSignedCarry, RowResults, OpenResult, HoldCharges, Marked, Balanced, RowsOk;
  }
}
