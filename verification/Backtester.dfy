/** The event-driven backtester of xauusd/engine.py.
    Prices and cash are exact reals and bar times are whole minutes. The frame is the one
    `run` works on, after its sort; a trade records the bars whose timestamps it carries. */
module Backtester {
  import opened Prelude

  /** ExecutionConfig; `Valid` is what its constructor checks. The remaining field,
      intrabar_priority, may only be "stop", so a bar that touches both levels is a stop. */
  datatype ConfigFields = ConfigFields(
    initialCash: real, quantity: real, spread: real, slippage: real,
    commissionPerLotSide: real, ouncesPerLot: real,
    stopDistance: Option<real>, targetDistance: Option<real>, maxHoldingBars: Option<int>,
    annualFinancingRate: real, sessionGapSeconds: real)
  {
    predicate Valid() {
      && initialCash > 0.0 && quantity > 0.0 && ouncesPerLot > 0.0
      && spread >= 0.0 && slippage >= 0.0 && commissionPerLotSide >= 0.0
      && annualFinancingRate >= 0.0 && sessionGapSeconds > 0.0
    }
  }

  const DEFAULTS := ConfigFields(100000.0, 1.0, 0.2, 0.03, 3.5, 100.0, Some(2.0), Some(3.0), Some(30), 0.0, 60.0)

  type Config = c: ConfigFields | c.Valid() witness DEFAULTS

  datatype Bar = Bar(time: int, open: real, high: real, low: real, close: real)

  datatype Position = Position(side: int, entryBar: nat, entryPrice: real, entryCommission: real)

  datatype ExitReason = Signal | Stop | Target | Time | End

  datatype Trade = Trade(
    side: int, entryBar: nat, entryPrice: real, exitBar: nat, exitPrice: real,
    grossPnl: real, commission: real, netPnl: real, barsHeld: int, reason: ExitReason)

  /** The variables the loop of `run` carries from bar to bar. */
  datatype State = State(
    cash: real, position: Option<Position>, trades: seq<Trade>, equity: seq<real>, financing: real)

  datatype Error = EmptyBars

  datatype Report = Report(trades: seq<Trade>, equity: seq<real>, financing: real)

  // ---------------------------------------------------------------- prices and costs

  function Sign(x: real): int {
    if x > 0.0 then 1 else if x < 0.0 then -1 else 0
  }

  /** The target position at a bar: the reindexed, zero-filled, clipped signal. */
  function TargetAt(signals: map<int, real>, time: int): int {
    if time in signals then Sign(signals[time]) else 0
  }

  /** A signal seen at a bar's close is acted on at the next bar's open. */
  function Desired(bars: seq<Bar>, signals: map<int, real>, i: nat): int
    requires i < |bars|
  {
    if i == 0 then 0 else TargetAt(signals, bars[i - 1].time)
  }

  function Commission(c: Config): real {
    c.commissionPerLotSide * c.quantity / c.ouncesPerLot
  }

  function HalfCost(c: Config): real {
    c.spread / 2.0 + c.slippage
  }

  function FillPrice(c: Config, mid: real, side: int, opening: bool): real {
    mid + (if opening then side else -side) as real * HalfCost(c)
  }

  function OvernightCost(c: Config, price: real): (cost: real)
    ensures cost >= 0.0
  {
    if c.annualFinancingRate == 0.0 then 0.0
    else c.annualFinancingRate / 365.25 * AbsR(price) * c.quantity
  }

  predicate CrossedGap(c: Config, bars: seq<Bar>, i: nat)
    requires i < |bars|
  {
    i > 0 && (60 * (bars[i].time - bars[i - 1].time)) as real > c.sessionGapSeconds
  }

  /** Financing owed for entering bar `i` with a position open. */
  function CarryAt(c: Config, bars: seq<Bar>, i: nat): (cost: real)
    requires i < |bars|
    ensures cost >= 0.0
  {
    if CrossedGap(c, bars, i) then OvernightCost(c, bars[i - 1].close) else 0.0
  }

  // ---------------------------------------------------------------- one bar

  /** The ledger row `close` appends. */
  function CloseTrade(c: Config, p: Position, i: nat, mid: real, reason: ExitReason, held: int): Trade {
    var exitPrice := FillPrice(c, mid, p.side, false);
    var gross := p.side as real * (exitPrice - p.entryPrice) * c.quantity;
    var fees := p.entryCommission + Commission(c);
    Trade(p.side, p.entryBar, p.entryPrice, i, exitPrice, gross, fees, gross - fees, held, reason)
  }

  function Close(c: Config, s: State, i: nat, mid: real, reason: ExitReason, held: int): State
    requires s.position.Some?
  {
    var trade := CloseTrade(c, s.position.value, i, mid, reason, held);
    s.(cash := s.cash + trade.grossPnl - Commission(c), position := None, trades := s.trades + [trade])
  }

  function SignedCarry(side: int, carry: real): real {
    side as real * carry
  }

  function StopLevel(c: Config, p: Position): real
    requires c.stopDistance.Some?
  {
    p.entryPrice - p.side as real * c.stopDistance.value
  }

  function TargetLevel(c: Config, p: Position): real
    requires c.targetDistance.Some?
  {
    p.entryPrice + p.side as real * c.targetDistance.value
  }

  /** What `marked` adds to cash for an open position. */
  function Liquidation(c: Config, p: Position, close: real): real {
    p.side as real * (FillPrice(c, close, p.side, false) - p.entryPrice) * c.quantity - Commission(c)
  }

  function ChargeCarry(c: Config, bars: seq<Bar>, i: nat, s: State): State
    requires i < |bars|
  {
    if s.position.Some? && i > s.position.value.entryBar && CrossedGap(c, bars, i) then
      var carry := OvernightCost(c, bars[i - 1].close);
      s.(financing := s.financing + carry, cash := s.cash - SignedCarry(s.position.value.side, carry))
    else s
  }

  function SignalExit(c: Config, bars: seq<Bar>, signals: map<int, real>, i: nat, s: State): State
    requires i < |bars|
  {
    if s.position.Some? && Desired(bars, signals, i) != s.position.value.side then
      Close(c, s, i, bars[i].open, Signal, i - s.position.value.entryBar)
    else s
  }

  function Enter(c: Config, bars: seq<Bar>, signals: map<int, real>, i: nat, s: State): State
    requires i < |bars|
  {
    var desired := Desired(bars, signals, i);
    if s.position.None? && desired != 0 then
      var fee := Commission(c);
      s.(position := Some(Position(desired, i, FillPrice(c, bars[i].open, desired, true), fee)), cash := s.cash - fee)
    else s
  }

  predicate StopHit(c: Config, bar: Bar, p: Position) {
    c.stopDistance.Some? &&
    if p.side > 0 then bar.low <= StopLevel(c, p) else bar.high >= StopLevel(c, p)
  }

  predicate TargetHit(c: Config, bar: Bar, p: Position) {
    c.targetDistance.Some? &&
    if p.side > 0 then bar.high >= TargetLevel(c, p) else bar.low <= TargetLevel(c, p)
  }

  /** A missing or zero limit never closes; a negative one closes at once. */
  predicate TimeUp(c: Config, held: int) {
    c.maxHoldingBars.Some? && c.maxHoldingBars.value != 0 && held >= c.maxHoldingBars.value
  }

  function ProtectiveExit(c: Config, bars: seq<Bar>, i: nat, s: State): State
    requires i < |bars|
  {
    if s.position.None? then s else
    var p := s.position.value;
    var held := i - p.entryBar + 1;
    if StopHit(c, bars[i], p) then
      Close(c, s, i, StopLevel(c, p), Stop, held)
    else if TargetHit(c, bars[i], p) then
      Close(c, s, i, TargetLevel(c, p), Target, held)
    else if TimeUp(c, held) then
      Close(c, s, i, bars[i].close, Time, held)
    else s
  }

  function Marked(c: Config, s: State, close: real): real {
    if s.position.None? then s.cash else s.cash + Liquidation(c, s.position.value, close)
  }

  function Mark(c: Config, bars: seq<Bar>, i: nat, s: State): State
    requires i < |bars|
  {
    s.(equity := s.equity + [Marked(c, s, bars[i].close)])
  }

  function Trading(c: Config, bars: seq<Bar>, signals: map<int, real>, i: nat, s: State): State
    requires i < |bars|
  {
    ProtectiveExit(c, bars, i, Enter(c, bars, signals, i, SignalExit(c, bars, signals, i, ChargeCarry(c, bars, i, s))))
  }

  function Step(c: Config, bars: seq<Bar>, signals: map<int, real>, i: nat, s: State): State
    requires i < |bars|
  {
    Mark(c, bars, i, Trading(c, bars, signals, i, s))
  }

  // ---------------------------------------------------------------- whole runs

  function Initial(c: Config): State {
    State(c.initialCash, None, [], [], 0.0)
  }

  /** The loop's variables after the first `n` bars. */
  function After(c: Config, bars: seq<Bar>, signals: map<int, real>, n: nat): (s: State)
    requires n <= |bars|
    ensures |s.equity| == n
  {
    if n == 0 then Initial(c) else Step(c, bars, signals, n - 1, After(c, bars, signals, n - 1))
  }

  /** A position left after the last bar is closed at that bar's close and the last equity
      value is replaced by the resulting cash. */
  function Finish(c: Config, bars: seq<Bar>, s: State): (r: Report)
    requires bars != [] && |s.equity| == |bars|
  {
    if s.position.None? then Report(s.trades, s.equity, s.financing) else
    var n := |bars|;
    var done := Close(c, s, n - 1, bars[n - 1].close, End, n - s.position.value.entryBar);
    Report(done.trades, s.equity[n - 1 := done.cash], s.financing)
  }

  function Backtest(c: Config, bars: seq<Bar>, signals: map<int, real>): Report
    requires bars != []
  {
    Finish(c, bars, After(c, bars, signals, |bars|))
  }

  /** The nonlocal variables of one `run`, updated in place by its closures and its loop body. */
  class Simulation {
    const c: Config
    const bars: seq<Bar>
    const signals: map<int, real>
    var cash: real
    var position: Option<Position>
    var trades: seq<Trade>
    var equity: seq<real>
    var financing: real

    function Now(): State
      reads this
    {
      State(cash, position, trades, equity, financing)
    }

    constructor (c: Config, bars: seq<Bar>, signals: map<int, real>)
      ensures this.c == c && this.bars == bars && this.signals == signals
      ensures Now() == Initial(c)
    {
      this.c, this.bars, this.signals := c, bars, signals;
      cash, position, trades, equity, financing := c.initialCash, None, [], [], 0.0;
    }

    /** The inner function `close`. */
    method CloseOut(i: nat, mid: real, reason: ExitReason, held: int)
      requires position.Some?
      modifies this
      ensures Now() == Close(c, old(Now()), i, mid, reason, held)
    {
      var trade := CloseTrade(c, position.value, i, mid, reason, held);
      cash := cash + trade.grossPnl - Commission(c);
      trades := trades + [trade];
      position := None;
    }

    method ChargeOvernight(i: nat)
      requires i < |bars|
      modifies this
      ensures Now() == ChargeCarry(c, bars, i, old(Now()))
    {
      if position.Some? && i > position.value.entryBar && CrossedGap(c, bars, i) {
        var carry := OvernightCost(c, bars[i - 1].close);
        financing := financing + carry;
        cash := cash - SignedCarry(position.value.side, carry);
      }
    }

    method FollowSignal(i: nat)
      requires i < |bars|
      modifies this
      ensures Now() == Enter(c, bars, signals, i, SignalExit(c, bars, signals, i, old(Now())))
    {
      var desired := Desired(bars, signals, i);
      if position.Some? && desired != position.value.side {
        CloseOut(i, bars[i].open, Signal, i - position.value.entryBar);
      }
      if position.None? && desired != 0 {
        var fee := Commission(c);
        position := Some(Position(desired, i, FillPrice(c, bars[i].open, desired, true), fee));
        cash := cash - fee;
      }
    }

    method CheckLevels(i: nat)
      requires i < |bars|
      modifies this
      ensures Now() == ProtectiveExit(c, bars, i, old(Now()))
    {
      if position.Some? {
        var p := position.value;
        var held := i - p.entryBar + 1;
        if StopHit(c, bars[i], p) {
          CloseOut(i, StopLevel(c, p), Stop, held);
        } else if TargetHit(c, bars[i], p) {
          CloseOut(i, TargetLevel(c, p), Target, held);
        } else if TimeUp(c, held) {
          CloseOut(i, bars[i].close, Time, held);
        }
      }
    }

    method MarkToMarket(i: nat)
      requires i < |bars|
      modifies this
      ensures Now() == Mark(c, bars, i, old(Now()))
    {
      var marked := cash;
      if position.Some? {
        marked := marked + Liquidation(c, position.value, bars[i].close);
      }
      equity := equity + [marked];
    }

    /** `run`: one pass over the bars, then the forced close. */
    method Run() returns (r: Result<Report, Error>)
      requires Now() == Initial(c)
      modifies this
      ensures bars == [] ==> r == Err(EmptyBars)
      ensures bars != [] ==> r == Ok(Backtest(c, bars, signals))
    {
      if bars == [] {
        return Err(EmptyBars);
      }
      for i := 0 to |bars|
        invariant Now() == After(c, bars, signals, i)
      {
        ChargeOvernight(i);
        FollowSignal(i);
        CheckLevels(i);
        MarkToMarket(i);
      }
      if position.Some? {
        CloseOut(|bars| - 1, bars[|bars| - 1].close, End, |bars| - position.value.entryBar);
        equity := equity[|bars| - 1 := cash];
      }
      r := Ok(Report(trades, equity, financing));
    }
  }
}
