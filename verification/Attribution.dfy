/** Fills of the paper account (xauusd/paper_trading.py) and the incremental attribution of profit
    and cost observed beside them (xauusd/experiment_learning.py), over exact reals. */
module Attribution {
  import opened Prelude

  type Id = string

  datatype Decision = Decision(id: Id, buy: bool, quantity: real, price: real)

  datatype Quote = Quote(bid: real, ask: real)

  /** `realized` is the profit column of the fill ledger. */
  datatype Account = Account(cash: real, position: real, average: real, realized: seq<real>)

  /** The entry being tracked: mid price, side and cost per unit. */
  datatype Entry = Entry(mid: real, side: real, cost: real)

  datatype Learning = Learning(
    lastId: Option<Id>, accepted: nat, closed: nat, wins: nat, losses: nat, net: real,
    gross: real, matchedNet: real, matchedCost: real, matched: nat, unmatched: nat,
    spread: real, slippage: real, best: seq<real>, positive: real, entry: Option<Entry>)

  const BLANK := Learning(None, 0, 0, 0, 0, 0.0, 0.0, 0.0, 0.0, 0, 0, 0.0, 0.0, [], 0.0, None)

  function Side(d: Decision): real { if d.buy then 1.0 else -1.0 }

  function Signed(d: Decision): real { if d.buy then d.quantity else -d.quantity }

  function SignOf(x: real): real { if x > 0.0 then 1.0 else -1.0 }

  function Least(x: real, y: real): real { if y < x then y else x }

  function Sum(s: seq<real>): real {
    if s == [] then 0.0 else Sum(s[..|s| - 1]) + s[|s| - 1]
  }

  // ---------------------------------------------------------------- the account

  predicate Closes(position: real, signed: real) { position != 0.0 && position * signed < 0.0 }

  function Realized(a: Account, signed: real, price: real): real {
    if Closes(a.position, signed) then Least(AbsR(a.position), AbsR(signed)) * (price - a.average) * SignOf(a.position) else 0.0
  }

  /** Two prices weighted by quantities, over a total. */
  function Blend(p: real, x: real, q: real, y: real, total: real): real
    requires total != 0.0
  {
    (p * x + q * y) / total
  }

  function NextAverage(a: Account, signed: real, price: real): real {
    var current := a.position + signed;
    if current == 0.0 then 0.0
    else if a.position == 0.0 || a.position * current < 0.0 then price
    else if a.position * signed > 0.0 then Blend(AbsR(a.position), a.average, AbsR(signed), price, AbsR(current))
    else a.average
  }

  function Fill(a: Account, d: Decision): Account {
    var s := Signed(d);
    Account(a.cash - s * d.price, a.position + s, NextAverage(a, s, d.price), a.realized + [Realized(a, s, d.price)])
  }

  // ---------------------------------------------------------------- the observation

  function Mid(q: Quote): real { (q.bid + q.ask) / 2.0 }

  function CostPerUnit(d: Decision, q: Quote): real { Side(d) * (d.price - Mid(q)) }

  /** The two largest, larger first, after one more positive close. */
  function TopTwo(best: seq<real>, x: real): seq<real> {
    if best == [] then [x]
    else if |best| == 1 then (if x > best[0] then [x, best[0]] else [best[0], x])
    else if x > best[0] then [x, best[0]]
    else if x > best[1] then [best[0], x]
    else [best[0], best[1]]
  }

  /** Profit of the closed part, its mid-price move, and the costs of both its fills. */
  function NetOf(before: Account, d: Decision): real {
    Least(AbsR(before.position), d.quantity) * (d.price - before.average) * SignOf(before.position)
  }

  function GrossOf(before: Account, e: Entry, d: Decision, q: Quote): real {
    Least(AbsR(before.position), d.quantity) * (Mid(q) - e.mid) * e.side
  }

  function CostOf(before: Account, e: Entry, d: Decision, q: Quote): real {
    Least(AbsR(before.position), d.quantity) * (e.cost + CostPerUnit(d, q))
  }

  /** The closing side of a fill. */
  function ObserveClose(l: Learning, before: Account, d: Decision, q: Quote): Learning {
    if !Closes(before.position, Side(d)) then l else
    var net := NetOf(before, d);
    var m := l.(closed := l.closed + 1, net := l.net + net, wins := l.wins + (if net > 0.0 then 1 else 0), losses := l.losses + (if net < 0.0 then 1 else 0),
                positive := if net > 0.0 then l.positive + net else l.positive, best := if net > 0.0 then TopTwo(l.best, net) else l.best);
    if l.entry.None? then m.(unmatched := m.unmatched + 1)
    else m.(matched := m.matched + 1, gross := m.gross + GrossOf(before, l.entry.value, d, q), matchedNet := m.matchedNet + net,
            matchedCost := m.matchedCost + CostOf(before, l.entry.value, d, q))
  }

  const TINY := 0.000000001

  /** The tracked entry after a fill. */
  function NextEntry(entry: Option<Entry>, position: real, d: Decision, q: Quote): Option<Entry> {
    var current := position + Side(d) * d.quantity;
    if AbsR(current) < TINY then None
    else if position == 0.0 || position * current < 0.0 then Some(Entry(Mid(q), Side(d), CostPerUnit(d, q)))
    else if position * Side(d) > 0.0 && entry.Some? then
      var total := AbsR(position) + d.quantity;
      Some(Entry(Blend(AbsR(position), entry.value.mid, d.quantity, Mid(q), total), Side(d),
                 Blend(AbsR(position), entry.value.cost, d.quantity, CostPerUnit(d, q), total)))
    else entry
  }

  /** What every fill adds: half the spread, and the rest of its cost as slippage and commission. */
  function Counted(l: Learning, d: Decision, q: Quote): Learning {
    var half := (q.ask - q.bid) / 2.0;
    l.(lastId := Some(d.id), accepted := l.accepted + 1, spread := l.spread + half * d.quantity,
       slippage := l.slippage + (CostPerUnit(d, q) - half) * d.quantity)
  }

  function Observe(l: Learning, before: Account, d: Decision, q: Quote): Learning {
    if l.lastId == Some(d.id) then l
    else ObserveClose(Counted(l, d, q), before, d, q).(entry := NextEntry(l.entry, before.position, d, q))
  }

  // ---------------------------------------------------------------- runs

  /** An experiment: its account, what is observed of it, and every observed profit of a close. */
  datatype Row = Row(account: Account, learning: Learning, closes: seq<real>)

  function Next(r: Row, d: Decision, q: Quote): Row {
    Row(Fill(r.account, d), Observe(r.learning, r.account, d, q),
        if Closes(r.account.position, Signed(d)) then r.closes + [Realized(r.account, Signed(d), d.price)] else r.closes)
  }

  function Run(r: Row, fills: seq<(Decision, Quote)>): Row {
    if fills == [] then r else Next(Run(r, fills[..|fills| - 1]), fills[|fills| - 1].0, fills[|fills| - 1].1)
  }

  /** Accepted fills have positive quantities, and an account accepts a decision id once. */
  ghost predicate Orders(fills: seq<(Decision, Quote)>) {
    && (forall i :: 0 <= i < |fills| ==> fills[i].0.quantity > 0.0)
    && (forall i, j :: 0 <= i < j < |fills| ==> fills[i].0.id != fills[j].0.id)
  }

  // ---------------------------------------------------------------- what holds

  /** Cash and the position at its average price are the initial cash and all realized profit. */
  ghost predicate Booked(a: Account, initial: real) { a.cash + a.position * a.average == initial + Sum(a.realized) }

  /** The account's average price is the tracked mid price and cost. */
  ghost predicate Tracks(a: Account, l: Learning) {
    l.entry.Some? ==> a.position != 0.0 && l.entry.value.side == SignOf(a.position) && a.average == l.entry.value.mid + l.entry.value.side * l.entry.value.cost
  }

  function CountPositive(s: seq<real>): nat { if s == [] then 0 else CountPositive(s[..|s| - 1]) + if s[|s| - 1] > 0.0 then 1 else 0 }

  function CountNegative(s: seq<real>): nat { if s == [] then 0 else CountNegative(s[..|s| - 1]) + if s[|s| - 1] < 0.0 then 1 else 0 }

  function Positives(s: seq<real>): seq<real> {
    if s == [] then [] else Positives(s[..|s| - 1]) + if s[|s| - 1] > 0.0 then [s[|s| - 1]] else []
  }

  /** The elements at `i` and `j` are the two largest. */
  ghost predicate LargestAt(best: seq<real>, all: seq<real>, i: nat, j: nat) {
    && i < |all| && j < |all| && i != j && best == [all[i], all[j]] && all[i] >= all[j]
    && forall k :: 0 <= k < |all| && k != i && k != j ==> all[k] <= all[j]
  }

  /** `best` holds the two largest of `all`, or all of them when there are fewer. */
  ghost predicate Largest(best: seq<real>, all: seq<real>) {
    if |all| < 2 then best == all else exists i: nat, j: nat :: LargestAt(best, all, i, j)
  }

  /** The matched part splits into mid-price profit and cost, and the counters agree with the closes. */
  ghost predicate Attributed(l: Learning, closes: seq<real>) {
    && l.matchedNet == l.gross - l.matchedCost
    && l.closed == l.matched + l.unmatched == |closes|
    && l.net == Sum(closes) && l.wins == CountPositive(closes) && l.losses == CountNegative(closes)
    && l.positive == Sum(Positives(closes)) && Largest(l.best, Positives(closes))
  }

  lemma SumSnoc(s: seq<real>, x: real)
    ensures Sum(s + [x]) == Sum(s) + x
  {
    assert (s + [x])[..|s|] == s;
  }

  // ---------------------------------------------------------------- the arithmetic of one fill

  lemma Averaged(p: real, q: real, x: real, y: real)
    requires p > 0.0 && q > 0.0
    ensures (p + q) * ((p * x + q * y) / (p + q)) == p * x + q * y
  {
  }

  lemma FillBooks(a: Account, s: real, price: real)
    requires s != 0.0
    ensures a.cash - s * price + (a.position + s) * NextAverage(a, s, price) == a.cash + a.position * a.average + Realized(a, s, price)
  {
    var p := a.position;
    if p == 0.0 || p + s == 0.0 {
    } else if (p > 0.0) == (s > 0.0) {
      AddingBooks(a, s, price);
    } else {
      ReducingBooks(a, s, price);
    }
  }

  lemma AddingBooks(a: Account, s: real, price: real)
    requires a.position != 0.0 && s != 0.0 && (a.position > 0.0) == (s > 0.0)
    ensures (a.position + s) * NextAverage(a, s, price) == a.position * a.average + s * price && Realized(a, s, price) == 0.0
  {
    SameSide(a.position, s);
    Averaged(AbsR(a.position), AbsR(s), a.average, price);
  }

  lemma ReducingBooks(a: Account, s: real, price: real)
    requires a.position != 0.0 && s != 0.0 && (a.position > 0.0) != (s > 0.0) && a.position + s != 0.0
    ensures (a.position + s) * NextAverage(a, s, price) == a.position * a.average + s * price + Realized(a, s, price)
  {
    var p, avg := a.position, a.average;
    OppositeSide(p, s);
    if AbsR(s) > AbsR(p) {
      assert Realized(a, s, price) == p * (price - avg);
      assert (p + s) * price == p * price + s * price;
    } else {
      assert Realized(a, s, price) == -s * (price - avg);
      assert (p + s) * avg == p * avg + s * avg;
    }
  }

  lemma SameSide(p: real, s: real)
    requires p != 0.0 && s != 0.0 && (p > 0.0) == (s > 0.0)
    ensures p * s > 0.0 && p * (p + s) > 0.0 && AbsR(p + s) == AbsR(p) + AbsR(s) && p + s != 0.0
  {
  }

  lemma OppositeSide(p: real, s: real)
    requires p != 0.0 && s != 0.0 && (p > 0.0) != (s > 0.0)
    ensures p * s < 0.0
    ensures p * (p + s) < 0.0 <==> AbsR(s) > AbsR(p)
    ensures p + s == 0.0 <==> AbsR(s) == AbsR(p)
  {
  }

  lemma FlatHasNoAverage(a: Account, s: real, price: real)
    ensures a.position + s == 0.0 ==> NextAverage(a, s, price) == 0.0
  {
  }

  lemma FillKeepsBooks(a: Account, d: Decision, initial: real)
    requires Booked(a, initial) && d.quantity > 0.0
    ensures Booked(Fill(a, d), initial) && (Fill(a, d).position == 0.0 ==> Fill(a, d).average == 0.0)
  {
    FlatHasNoAverage(a, Signed(d), d.price);
    hide NextAverage, Realized, Sum;
    FillBooks(a, Signed(d), d.price);
    SumSnoc(a.realized, Realized(a, Signed(d), d.price));
  }

  /** At any mark, equity is the initial cash, the realized profit and the open profit. */
  lemma EquityMeaning(a: Account, initial: real, mark: real)
    requires Booked(a, initial)
    ensures a.cash + a.position * mark == initial + Sum(a.realized) + a.position * (mark - a.average)
  {
    assert a.position * (mark - a.average) == a.position * mark - a.position * a.average;
  }

  /** The price of a fill is its mid price and its cost on its side. */
  lemma PriceSplits(d: Decision, q: Quote)
    ensures d.price == Mid(q) + Side(d) * CostPerUnit(d, q)
  {
  }

  /** Weighted averages commute with splitting a price into mid and cost. */
  lemma AverageSplits(p: real, q: real, e: Entry, n: Entry, m: real, c: real, average: real)
    requires p > 0.0 && q > 0.0 && n.side == e.side
    requires (p + q) * n.mid == p * e.mid + q * m && (p + q) * n.cost == p * e.cost + q * c
    requires (p + q) * average == p * (e.mid + e.side * e.cost) + q * (m + e.side * c)
    ensures average == n.mid + n.side * n.cost
  {
    var t := p + q;
    assert t * (n.side * n.cost) == n.side * (t * n.cost);
    assert n.side * (t * n.cost) == n.side * (p * e.cost + q * c);
    assert n.side * (p * e.cost + q * c) == p * (e.side * e.cost) + q * (e.side * c);
    Expanded(p, q, e, m, c);
    assert t * (n.mid + n.side * n.cost) == t * average;
    Cancel(t, n.mid + n.side * n.cost, average);
  }

  lemma Expanded(p: real, q: real, e: Entry, m: real, c: real)
    ensures p * (e.mid + e.side * e.cost) + q * (m + e.side * c) == p * e.mid + q * m + (p * (e.side * e.cost) + q * (e.side * c))
  {
  }

  lemma Cancel(t: real, x: real, y: real)
    requires t > 0.0 && t * x == t * y
    ensures x == y
  {
  }

  lemma AddedAverage(a: Account, s: real, price: real)
    requires a.position != 0.0 && s != 0.0 && (a.position > 0.0) == (s > 0.0)
    ensures (AbsR(a.position) + AbsR(s)) * NextAverage(a, s, price) == AbsR(a.position) * a.average + AbsR(s) * price
  {
    SameSide(a.position, s);
    Averaged(AbsR(a.position), AbsR(s), a.average, price);
  }

  lemma AddedEntry(e: Entry, position: real, d: Decision, q: Quote)
    requires position != 0.0 && d.quantity > 0.0 && (position > 0.0) == d.buy
    ensures var n, p := NextEntry(Some(e), position, d, q), AbsR(position);
            n.Some? ==>
              && n.value.side == Side(d)
              && (p + d.quantity) * n.value.mid == p * e.mid + d.quantity * Mid(q)
              && (p + d.quantity) * n.value.cost == p * e.cost + d.quantity * CostPerUnit(d, q)
  {
    hide Mid, CostPerUnit;
    SameSide(position, Signed(d));
    Averaged(AbsR(position), d.quantity, e.mid, Mid(q));
    Averaged(AbsR(position), d.quantity, e.cost, CostPerUnit(d, q));
    assert Side(d) * d.quantity == Signed(d) && position * Side(d) > 0.0;
  }

  /** Adding to a tracked position averages mid and cost with the weights of the account. */
  lemma AddedTracks(a: Account, l: Learning, d: Decision, q: Quote)
    requires Tracks(a, l) && l.entry.Some? && d.quantity > 0.0 && (a.position > 0.0) == d.buy && a.position != 0.0
    ensures var e := NextEntry(l.entry, a.position, d, q);
            e.Some? ==> e.value.side == SignOf(a.position + Signed(d)) && NextAverage(a, Signed(d), d.price) == e.value.mid + e.value.side * e.value.cost
  {
    var e, n := l.entry.value, NextEntry(l.entry, a.position, d, q);
    hide NextEntry, NextAverage;
    AddedEntry(e, a.position, d, q);
    AddedAverage(a, Signed(d), d.price);
    SameSide(a.position, Signed(d));
    PriceSplits(d, q);
    hide Mid, CostPerUnit;
    assert AbsR(Signed(d)) == d.quantity && e.side == Side(d);
    if n.Some? {
      AverageSplits(AbsR(a.position), d.quantity, e, n.value, Mid(q), CostPerUnit(d, q), NextAverage(a, Signed(d), d.price));
    }
  }

  lemma FillKeepsTracking(a: Account, l: Learning, d: Decision, q: Quote)
    requires Tracks(a, l) && d.quantity > 0.0 && l.lastId != Some(d.id)
    ensures Tracks(Fill(a, d), Observe(l, a, d, q))
    ensures (l.entry.Some? <==> a.position != 0.0) && Tellable(Fill(a, d).position) ==>
              (Observe(l, a, d, q).entry.Some? <==> Fill(a, d).position != 0.0)
  {
    if (l.entry.Some? <==> a.position != 0.0) && Tellable(a.position + Signed(d)) {
      NextEntryThere(l.entry, a.position, d, q);
    }
    assert Observe(l, a, d, q).entry == NextEntry(l.entry, a.position, d, q);
    assert Side(d) * d.quantity == Signed(d);
    PriceSplits(d, q);
    if a.position != 0.0 && (a.position > 0.0) == d.buy {
      SameSide(a.position, Signed(d));
      if l.entry.Some? {
        AddedTracks(a, l, d, q);
      }
      hide NextAverage, Mid, CostPerUnit, Observe;
    } else if a.position != 0.0 {
      OppositeSide(a.position, Signed(d));
      hide Mid, CostPerUnit, Observe;
    } else {
      hide Mid, CostPerUnit, Observe;
    }
  }

  /** Of a tracked close, the profit is the mid-price move less both sides' costs. */
  lemma MatchedClose(a: Account, l: Learning, d: Decision, q: Quote)
    requires Tracks(a, l) && l.entry.Some? && (a.position > 0.0) != d.buy
    ensures NetOf(a, d) == GrossOf(a, l.entry.value, d, q) - CostOf(a, l.entry.value, d, q)
  {
    var e, c := l.entry.value, CostPerUnit(d, q);
    var closed := Least(AbsR(a.position), d.quantity);
    PriceSplits(d, q);
    assert Side(d) == -e.side && e.side * e.side == 1.0;
    var m := Mid(q);
    hide Mid, CostPerUnit, Side, Least;
    assert d.price - a.average == (m - e.mid) - e.side * (c + e.cost);
    CloseArithmetic(closed, m - e.mid, c + e.cost, e.side);
  }

  lemma CloseArithmetic(closed: real, move: real, cost: real, side: real)
    requires side * side == 1.0
    ensures closed * (move - side * cost) * side == closed * move * side - closed * cost
  {
    assert (move - side * cost) * side == move * side - side * side * cost;
    assert closed * (move - side * cost) * side == closed * ((move - side * cost) * side);
    assert closed * move * side == closed * (move * side);
  }

  lemma {:induction false} PositivesSnoc(s: seq<real>, x: real)
    ensures Positives(s + [x]) == if x > 0.0 then Positives(s) + [x] else Positives(s)
    ensures CountPositive(s + [x]) == CountPositive(s) + if x > 0.0 then 1 else 0
    ensures CountNegative(s + [x]) == CountNegative(s) + if x < 0.0 then 1 else 0
  {
    assert (s + [x])[..|s|] == s;
  }

  lemma TopTwoLargest(best: seq<real>, all: seq<real>, x: real)
    requires Largest(best, all)
    ensures Largest(TopTwo(best, x), all + [x])
  {
    var more, n := all + [x], |all|;
    if n >= 2 {
      var i: nat, j: nat :| LargestAt(best, all, i, j);
      if x > best[0] {
        assert LargestAt(TopTwo(best, x), more, n, i);
      } else if x > best[1] {
        assert LargestAt(TopTwo(best, x), more, i, n);
      } else {
        assert LargestAt(TopTwo(best, x), more, i, j);
      }
    } else if n == 1 {
      if x > best[0] {
        assert LargestAt(TopTwo(best, x), more, 1, 0);
      } else {
        assert LargestAt(TopTwo(best, x), more, 0, 1);
      }
    }
  }

  /** One observed close enters every figure it belongs to. */
  lemma CloseKeeps(l: Learning, closes: seq<real>, a: Account, d: Decision, q: Quote)
    requires Attributed(l, closes) && Tracks(a, l) && d.quantity > 0.0 && Closes(a.position, Signed(d))
    ensures Attributed(ObserveClose(l, a, d, q), closes + [NetOf(a, d)])
  {
    hide Sum, Positives, CountPositive, CountNegative, Largest, TopTwo, Mid, CostPerUnit, SignOf, NetOf, GrossOf, CostOf, Least;
    SidesOppose(a, d);
    var net := NetOf(a, d);
    PositivesSnoc(closes, net);
    SumSnoc(closes, net);
    if net > 0.0 {
      SumSnoc(Positives(closes), net);
      TopTwoLargest(l.best, Positives(closes), net);
    }
    if l.entry.Some? {
      MatchedClose(a, l, d, q);
    }
    hide Tracks, Closes, Signed;
  }

  lemma NetIsRealized(a: Account, d: Decision)
    requires d.quantity > 0.0 && Closes(a.position, Signed(d))
    ensures NetOf(a, d) == Realized(a, Signed(d), d.price)
  {
  }

  lemma SidesOppose(a: Account, d: Decision)
    requires d.quantity > 0.0
    ensures Closes(a.position, Side(d)) <==> Closes(a.position, Signed(d))
    ensures Closes(a.position, Signed(d)) ==> (a.position > 0.0) != d.buy
  {
  }

  lemma FillKeepsAttribution(r: Row, d: Decision, q: Quote)
    requires Attributed(r.learning, r.closes) && Tracks(r.account, r.learning) && d.quantity > 0.0 && r.learning.lastId != Some(d.id)
    ensures Attributed(Next(r, d, q).learning, Next(r, d, q).closes)
  {
    hide Realized, NextEntry, CostPerUnit, NetOf, GrossOf, CostOf, NextAverage, Sum, Positives, CountPositive, CountNegative, Largest;
    var l, a := r.learning, r.account;
    SidesOppose(a, d);
    var m := Counted(l, d, q);
    assert Attributed(m, r.closes);
    hide Counted;
    if Closes(a.position, Signed(d)) {
      NetIsRealized(a, d);
      CloseKeeps(m, r.closes, a, d, q);
    }
    hide Attributed, Closes;
    SameFigures(ObserveClose(m, a, d, q), NextEntry(l.entry, a.position, d, q));
  }

  /** The tracked entry is not among the figures. */
  lemma SameFigures(l: Learning, entry: Option<Entry>)
    ensures forall closes :: Attributed(l, closes) ==> Attributed(l.(entry := entry), closes)
  {
  }

  /** A fill observed twice counts once. */
  lemma ObservedOnce(l: Learning, a: Account, b: Account, d: Decision, q: Quote)
    ensures Observe(Observe(l, a, d, q), b, d, q) == Observe(l, a, d, q)
  {
    ObserveCloseKeepsId(l.(lastId := Some(d.id)), a, d, q);
  }

  lemma ObserveCloseKeepsId(l: Learning, a: Account, d: Decision, q: Quote)
    ensures ObserveClose(l, a, d, q).lastId == l.lastId && Observe(l, a, d, q).lastId == Some(d.id)
  {
  }

  // ---------------------------------------------------------------- the whole run

  ghost predicate Holds(r: Row, initial: real, baseline: real) {
    && Booked(r.account, initial) && Tracks(r.account, r.learning) && Attributed(r.learning, r.closes)
    && Sum(r.account.realized) == baseline + Sum(r.closes)
  }

  lemma NextHolds(r: Row, d: Decision, q: Quote, initial: real, baseline: real)
    requires Holds(r, initial, baseline) && d.quantity > 0.0 && r.learning.lastId != Some(d.id)
    ensures Holds(Next(r, d, q), initial, baseline) && Next(r, d, q).learning.lastId == Some(d.id)
  {
    FillKeepsBooks(r.account, d, initial);
    FillKeepsTracking(r.account, r.learning, d, q);
    FillKeepsAttribution(r, d, q);
    SumSnoc(r.account.realized, Realized(r.account, Signed(d), d.price));
    SumSnoc(r.closes, Realized(r.account, Signed(d), d.price));
    ObserveCloseKeepsId(r.learning, r.account, d, q);
    NoCloseNoProfit(r.account, Signed(d), d.price);
    hide Booked, Tracks, Attributed, Sum, Realized, Closes, Observe, NextAverage;
  }

  lemma NoCloseNoProfit(a: Account, s: real, price: real)
    ensures !Closes(a.position, s) ==> Realized(a, s, price) == 0.0
  {
  }

  /** Attribution identity. From an account whose books balance and a fresh observation, over every
      sequence of fills: the books balance; while an entry is tracked the account's average price is
      its mid price plus the cost on its side; the matched profit is the mid-price profit less the
      cost; every close is matched or unmatched; and net profit, wins, losses and the two best closes
      are those of the closes observed, whose sum is the account's own realized profit since then. From a
      flat account an entry is tracked exactly while a position is open, and every close is matched. */
  lemma {:induction false} AttributionIdentity(account: Account, initial: real, fills: seq<(Decision, Quote)>)
    requires Booked(account, initial) && Orders(fills)
    ensures var r := Run(Row(account, BLANK, []), fills);
            && Holds(r, initial, Sum(account.realized))
            && r.learning.lastId == (if fills == [] then None else Some(fills[|fills| - 1].0.id))
            && (account.position == 0.0 && NeverTiny(Row(account, BLANK, []), fills) ==> AllTracked(r))
  {
    hide Next, Sum, Holds, Booked, NeverTiny, AllTracked;
    if account.position == 0.0 && NeverTiny(Row(account, BLANK, []), fills) {
      EveryCloseIsMatched(account, fills);
    }
    var start := Row(account, BLANK, []);
    StartHolds(account, initial);
    if fills != [] {
      var front := fills[..|fills| - 1];
      AttributionIdentity(account, initial, front);
      var (d, q) := fills[|fills| - 1];
      assert front != [] ==> front[|front| - 1].0.id != d.id;
      hide Orders;
      NextHolds(Run(start, front), d, q, initial, Sum(account.realized));
    }
  }

  lemma StartHolds(account: Account, initial: real)
    requires Booked(account, initial)
    ensures Holds(Row(account, BLANK, []), initial, Sum(account.realized))
  {
  }

  /** What the fills cost against their mid prices, and half the spreads they crossed. */
  function TotalCost(fills: seq<(Decision, Quote)>): real {
    if fills == [] then 0.0 else
    var (d, q) := fills[|fills| - 1];
    TotalCost(fills[..|fills| - 1]) + CostPerUnit(d, q) * d.quantity
  }

  function TotalHalfSpread(fills: seq<(Decision, Quote)>): real {
    if fills == [] then 0.0 else
    var (d, q) := fills[|fills| - 1];
    TotalHalfSpread(fills[..|fills| - 1]) + (q.ask - q.bid) / 2.0 * d.quantity
  }

  /** The account had every fill been at its mid price. */
  function CashAtMid(cash: real, fills: seq<(Decision, Quote)>): real {
    if fills == [] then cash else
    var (d, q) := fills[|fills| - 1];
    CashAtMid(cash, fills[..|fills| - 1]) - Signed(d) * Mid(q)
  }

  /** Every fill is counted, and the accumulated spread and slippage are together exactly the cash
      that trading at mid prices would have left besides. */
  lemma {:induction false} CostsAddUp(account: Account, fills: seq<(Decision, Quote)>)
    requires Orders(fills)
    ensures var r := Run(Row(account, BLANK, []), fills);
            && r.learning.accepted == |fills| && r.learning.spread == TotalHalfSpread(fills)
            && r.learning.spread + r.learning.slippage == TotalCost(fills)
            && r.account.cash + r.learning.spread + r.learning.slippage == CashAtMid(account.cash, fills)
            && r.learning.lastId == if fills == [] then None else Some(fills[|fills| - 1].0.id)
  {
    hide CostPerUnit, Mid, Signed, Observe, Fill;
    if fills != [] {
      var front := fills[..|fills| - 1];
      CostsAddUp(account, front);
      var (d, q) := fills[|fills| - 1];
      assert front != [] ==> front[|front| - 1].0.id != d.id;
      hide Orders;
      var r := Run(Row(account, BLANK, []), front);
      FillCost(r.learning, r.account, d, q);
      assert Run(Row(account, BLANK, []), fills) == Next(r, d, q);
      hide Run;
    }
  }

  /** One fill adds its cost, which is what cash loses against the mid price. */
  lemma FillCost(l: Learning, a: Account, d: Decision, q: Quote)
    requires l.lastId != Some(d.id)
    ensures var m := Observe(l, a, d, q);
            && m.accepted == l.accepted + 1 && m.lastId == Some(d.id) && m.spread == l.spread + (q.ask - q.bid) / 2.0 * d.quantity
            && m.spread + m.slippage == l.spread + l.slippage + CostPerUnit(d, q) * d.quantity
    ensures Fill(a, d).cash == a.cash - Signed(d) * Mid(q) - CostPerUnit(d, q) * d.quantity
  {
    hide *;
    CountedCost(l, d, q);
    CloseCostsNothing(Counted(l, d, q), a, d, q);
    ObserveCounts(l, a, d, q);
    FillCash(a, d, q);
  }

  lemma ObserveCounts(l: Learning, a: Account, d: Decision, q: Quote)
    requires l.lastId != Some(d.id)
    ensures Observe(l, a, d, q) == ObserveClose(Counted(l, d, q), a, d, q).(entry := NextEntry(l.entry, a.position, d, q))
  {
    hide ObserveClose, Counted, NextEntry;
  }

  lemma CountedCost(l: Learning, d: Decision, q: Quote)
    ensures var m := Counted(l, d, q);
            && m.accepted == l.accepted + 1 && m.lastId == Some(d.id) && m.spread == l.spread + (q.ask - q.bid) / 2.0 * d.quantity
            && m.spread + m.slippage == l.spread + l.slippage + CostPerUnit(d, q) * d.quantity
  {
    hide CostPerUnit;
    CostSplits((q.ask - q.bid) / 2.0, CostPerUnit(d, q), d.quantity);
  }

  lemma CloseCostsNothing(l: Learning, a: Account, d: Decision, q: Quote)
    ensures var m := ObserveClose(l, a, d, q);
            m.accepted == l.accepted && m.lastId == l.lastId && m.spread == l.spread && m.slippage == l.slippage
  {
    hide CostPerUnit, Mid, NetOf, GrossOf, CostOf, TopTwo, Closes, Side;
  }

  lemma FillCash(a: Account, d: Decision, q: Quote)
    ensures Fill(a, d).cash == a.cash - Signed(d) * Mid(q) - CostPerUnit(d, q) * d.quantity
  {
    assert Side(d) * d.quantity == Signed(d) && Side(d) * Side(d) == 1.0;
    PriceSplits(d, q);
    assert Fill(a, d).cash == a.cash - Signed(d) * d.price by { hide CostPerUnit, Mid, NextAverage, Realized; }
    hide *;
    CostArithmetic(CostPerUnit(d, q), d.quantity, Side(d), Mid(q));
  }

  lemma CostSplits(half: real, c: real, quantity: real)
    ensures half * quantity + (c - half) * quantity == c * quantity
  {
  }

  lemma CostArithmetic(c: real, quantity: real, side: real, mid: real)
    requires side * side == 1.0
    ensures side * quantity * (mid + side * c) == side * quantity * mid + c * quantity
  {
    assert side * quantity * (side * c) == side * side * (c * quantity);
  }

  // ---------------------------------------------------------------- what is tracked

  /** A fill that opens or reverses a position tracks it from there: the quote's mid price, the side of
      the fill, and its own cost per unit. */
  lemma OpeningIsTracked(l: Learning, a: Account, d: Decision, q: Quote)
    requires l.lastId != Some(d.id) && d.quantity > 0.0
    requires var current := if d.buy then a.position + d.quantity else a.position - d.quantity;
             AbsR(current) >= 0.000000001 && (a.position == 0.0 || (a.position > 0.0) != (current > 0.0))
    ensures var mid, side := (q.bid + q.ask) / 2.0, if d.buy then 1.0 else -1.0;
            Observe(l, a, d, q).entry == Some(Entry(mid, side, side * (d.price - mid)))
  {
    ObserveCounts(l, a, d, q);
    var current := if d.buy then a.position + d.quantity else a.position - d.quantity;
    assert Side(d) * d.quantity == Signed(d) && current == a.position + Signed(d);
    hide ObserveClose, Counted;
    if a.position != 0.0 {
      Reversed(a.position, current);
    }
  }

  lemma Reversed(p: real, current: real)
    requires p != 0.0 && current != 0.0 && (p > 0.0) != (current > 0.0)
    ensures p * current < 0.0
  {
  }

  /** No position is ever open that is too small to be told from none. */
  ghost predicate NeverTiny(r: Row, fills: seq<(Decision, Quote)>) {
    forall n :: 0 <= n <= |fills| ==> Tellable(Run(r, fills[..n]).account.position)
  }

  predicate Tellable(position: real) { position == 0.0 || AbsR(position) >= TINY }

  /** The tracked entry is there exactly while a position is open, and every close was matched. */
  ghost predicate AllTracked(r: Row) {
    && (r.learning.entry.Some? <==> r.account.position != 0.0)
    && r.learning.unmatched == 0 && r.learning.matched == r.learning.closed && r.learning.matchedNet == r.learning.net
  }

  lemma NextIsTracked(r: Row, d: Decision, q: Quote)
    requires AllTracked(r) && d.quantity > 0.0 && r.learning.lastId != Some(d.id) && Tellable(Next(r, d, q).account.position)
    ensures AllTracked(Next(r, d, q))
  {
    var l, a := r.learning, r.account;
    ObserveCounts(l, a, d, q);
    SidesOppose(a, d);
    NextEntryThere(l.entry, a.position, d, q);
    CloseIsMatched(Counted(l, d, q), a, d, q);
    assert Side(d) * d.quantity == Signed(d);
    hide NextEntry, ObserveClose, NextAverage, Realized, Closes;
  }

  lemma CloseIsMatched(l: Learning, a: Account, d: Decision, q: Quote)
    ensures var m := ObserveClose(l, a, d, q);
            && m.entry == l.entry && (m == l || (m.closed == l.closed + 1 && a.position != 0.0))
            && (m.matched, m.unmatched) == (if m.closed == l.closed then (l.matched, l.unmatched)
                                            else if l.entry.Some? then (l.matched + 1, l.unmatched) else (l.matched, l.unmatched + 1))
            && (l.entry.Some? ==> m.matchedNet - l.matchedNet == m.net - l.net)
  {
    hide NetOf, GrossOf, CostOf, TopTwo;
  }

  lemma NextEntryThere(entry: Option<Entry>, position: real, d: Decision, q: Quote)
    requires (entry.Some? <==> position != 0.0) && d.quantity > 0.0 && Tellable(position + Signed(d))
    ensures NextEntry(entry, position, d, q).Some? <==> position + Signed(d) != 0.0
  {
    assert Side(d) * d.quantity == Signed(d);
    hide Mid, CostPerUnit;
  }

  /** Nothing goes unmatched. From a fresh observation of a flat account, over every sequence of fills
      that never leaves a position too small to tell, an entry is tracked exactly while a position is
      open, so every close is matched and the matched profit is all of it. */
  lemma {:induction false} EveryCloseIsMatched(account: Account, fills: seq<(Decision, Quote)>)
    requires account.position == 0.0 && Orders(fills) && NeverTiny(Row(account, BLANK, []), fills)
    ensures AllTracked(Run(Row(account, BLANK, []), fills))
  {
    hide Next, Tellable;
    if fills != [] {
      var start, front := Row(account, BLANK, []), fills[..|fills| - 1];
      assert forall n :: 0 <= n <= |front| ==> front[..n] == fills[..n];
      EveryCloseIsMatched(account, front);
      CostsAddUp(account, front);
      var (d, q) := fills[|fills| - 1];
      assert fills[..|fills|] == fills;
      assert front != [] ==> front[|front| - 1].0.id != d.id;
      hide Orders, NeverTiny, AllTracked;
      NextIsTracked(Run(start, front), d, q);
    }
  }

  /** One round trip, in figures: bought at 101 on a quote of 99 to 101, sold at 104 on one of 104 to 106. */
  lemma RoundTripIsMatched(account: Account)
    requires account.position == 0.0
    ensures var r := Run(Row(account, BLANK, []), [(Decision("a", true, 1.0, 101.0), Quote(99.0, 101.0)), (Decision("b", false, 1.0, 104.0), Quote(104.0, 106.0))]);
            && r.account.position == 0.0 && r.learning.entry.None? && r.learning.closed == r.learning.matched == 1 && r.learning.unmatched == 0
            && r.learning.gross == 5.0 && r.learning.matchedCost == 2.0 && r.learning.net == 3.0
  {
    var buy, sell := (Decision("a", true, 1.0, 101.0), Quote(99.0, 101.0)), (Decision("b", false, 1.0, 104.0), Quote(104.0, 106.0));
    var start := Row(account, BLANK, []);
    assert [buy, sell][..1] == [buy];
    assert Run(start, [buy][..0]) == start;
    assert Run(start, [buy]) == Next(start, buy.0, buy.1);
    assert Run(start, [buy, sell]) == Next(Next(start, buy.0, buy.1), sell.0, sell.1);
    hide Run;
    BuyOne(start);
    SellOne(Next(start, buy.0, buy.1));
  }

  lemma BuyOne(r: Row)
    requires r.account.position == 0.0 && r.learning == BLANK
    ensures var n := Next(r, Decision("a", true, 1.0, 101.0), Quote(99.0, 101.0));
            && n.account.position == 1.0 && n.account.average == 101.0 && n.learning.entry == Some(Entry(100.0, 1.0, 1.0))
            && n.learning.closed == n.learning.matched == n.learning.unmatched == 0
            && n.learning.gross == n.learning.net == n.learning.matchedCost == 0.0 && n.learning.lastId == Some("a")
  {
  }

  lemma SellOne(r: Row)
    requires r.account.position == 1.0 && r.account.average == 101.0 && r.learning.entry == Some(Entry(100.0, 1.0, 1.0))
    requires r.learning.closed == r.learning.matched == r.learning.unmatched == 0
    requires r.learning.gross == r.learning.net == r.learning.matchedCost == 0.0 && r.learning.lastId == Some("a")
    ensures var n := Next(r, Decision("b", false, 1.0, 104.0), Quote(104.0, 106.0));
            && n.account.position == 0.0 && n.learning.entry.None? && n.learning.closed == n.learning.matched == 1 && n.learning.unmatched == 0
            && n.learning.gross == 5.0 && n.learning.matchedCost == 2.0 && n.learning.net == 3.0
  {
    var d, q, a, l := Decision("b", false, 1.0, 104.0), Quote(104.0, 106.0), r.account, r.learning;
    ObserveCounts(l, a, d, q);
    assert Mid(q) == 105.0 && CostPerUnit(d, q) == 1.0;
    assert Closes(a.position, Side(d)) && Least(AbsR(a.position), d.quantity) == 1.0 && SignOf(a.position) == 1.0;
    assert NetOf(a, d) == 3.0 && GrossOf(a, l.entry.value, d, q) == 5.0 && CostOf(a, l.entry.value, d, q) == 2.0;
    assert NextEntry(l.entry, a.position, d, q) == None;
    assert Signed(d) == -1.0;
    hide NextAverage, Realized, TopTwo, Mid, CostPerUnit, NetOf, GrossOf, CostOf, NextEntry, Closes, Least, AbsR, Observe;
  }

  function TrackedMid(l: Learning): real { if l.entry.Some? then l.entry.value.mid else 0.0 }

  function TrackedCost(l: Learning): real { if l.entry.Some? then l.entry.value.cost else 0.0 }

  /** The account as it would be had it dealt at mid prices. */
  function AtMid(a: Account, l: Learning): Account { Account(0.0, a.position, TrackedMid(l), []) }

  /** At mid prices the tracked entry is the average price and the matched gross the realized profit. */
  lemma MidFill(r: Row, d: Decision, q: Quote)
    requires AllTracked(r) && Tracks(r.account, r.learning) && d.quantity > 0.0 && r.learning.lastId != Some(d.id)
    requires Tellable(Next(r, d, q).account.position)
    ensures var n := Next(r, d, q);
            && (n.account.position != 0.0 ==> TrackedMid(n.learning) == NextAverage(AtMid(r.account, r.learning), Signed(d), Mid(q)))
            && n.learning.gross == r.learning.gross + Realized(AtMid(r.account, r.learning), Signed(d), Mid(q))
  {
    var l, a := r.learning, r.account;
    ObserveCounts(l, a, d, q);
    SidesOppose(a, d);
    assert Side(d) * d.quantity == Signed(d);
    if a.position + Signed(d) != 0.0 {
      MidEntry(l, a, d, q);
    }
    GrossIsRealized(Counted(l, d, q), a, d, q);
    hide NextEntry, NextAverage, Realized, ObserveClose, Mid, CostPerUnit;
  }

  lemma MidEntry(l: Learning, a: Account, d: Decision, q: Quote)
    requires (l.entry.Some? <==> a.position != 0.0) && d.quantity > 0.0 && a.position + Signed(d) != 0.0 && Tellable(a.position + Signed(d))
    ensures var e := NextEntry(l.entry, a.position, d, q);
            e.Some? && e.value.mid == NextAverage(AtMid(a, l), Signed(d), Mid(q))
  {
    var p, s := a.position, Signed(d);
    assert Side(d) * d.quantity == s && AbsR(s) == d.quantity;
    hide Mid, CostPerUnit, Blend;
    if p == 0.0 {
    } else if (p > 0.0) == d.buy {
      SameSide(p, s);
      assert p * Side(d) > 0.0 && AbsR(p) + d.quantity == AbsR(p + s);
    } else {
      OppositeSide(p, s);
      assert p * Side(d) < 0.0;
    }
    hide AbsR, Signed, Side;
  }

  lemma GrossIsRealized(l: Learning, a: Account, d: Decision, q: Quote)
    requires (l.entry.Some? <==> a.position != 0.0) && (l.entry.Some? ==> l.entry.value.side == SignOf(a.position)) && d.quantity > 0.0
    ensures ObserveClose(l, a, d, q).gross == l.gross + Realized(AtMid(a, l), Signed(d), Mid(q))
  {
    SidesOppose(a, d);
    assert AbsR(Signed(d)) == d.quantity;
    hide Mid, CostPerUnit, NetOf, CostOf, TopTwo, Closes;
  }

  /** The books at mid prices, after every run that `EveryCloseIsMatched` speaks of: cash at mid prices
      and the position at its tracked mid are the initial cash and the matched gross, and the spread and
      slippage of all fills are the matched cost and what the open position still carries. */
  ghost predicate MidBooks(cash: real, fills: seq<(Decision, Quote)>, r: Row) {
    && CashAtMid(cash, fills) + r.account.position * TrackedMid(r.learning) == cash + r.learning.gross
    && r.learning.spread + r.learning.slippage == r.learning.matchedCost + AbsR(r.account.position) * TrackedCost(r.learning)
  }

  lemma GrossStep(r: Row, d: Decision, q: Quote, mid: real, cash: real)
    requires AllTracked(r) && Tracks(r.account, r.learning) && d.quantity > 0.0 && r.learning.lastId != Some(d.id)
    requires Tellable(Next(r, d, q).account.position) && mid + r.account.position * TrackedMid(r.learning) == cash + r.learning.gross
    ensures var n := Next(r, d, q); mid - Signed(d) * Mid(q) + n.account.position * TrackedMid(n.learning) == cash + n.learning.gross
  {
    hide *;
    MidFill(r, d, q);
    MidFillBooks(r.account, r.learning, d, q);
    var p, s, after := r.account.position, Signed(d), Next(r, d, q);
    assert after.account.position == p + s by { PositionMoves(r, d, q); }
    MidArithmetic(p, s, p + s, Mid(q), NextAverage(AtMid(r.account, r.learning), s, Mid(q)), TrackedMid(r.learning), TrackedMid(after.learning),
                  mid, cash, r.learning.gross, Realized(AtMid(r.account, r.learning), s, Mid(q)));
    SameProduct(p + s, after.account.position, TrackedMid(after.learning));
  }

  lemma PositionMoves(r: Row, d: Decision, q: Quote)
    ensures Next(r, d, q).account.position == r.account.position + Signed(d)
  {
    hide Signed, Observe, Realized, NextAverage;
  }

  lemma MidFillBooks(a: Account, l: Learning, d: Decision, q: Quote)
    requires d.quantity > 0.0
    ensures 0.0 - Signed(d) * Mid(q) + (a.position + Signed(d)) * NextAverage(AtMid(a, l), Signed(d), Mid(q))
            == 0.0 + a.position * TrackedMid(l) + Realized(AtMid(a, l), Signed(d), Mid(q))
  {
    FillBooks(AtMid(a, l), Signed(d), Mid(q));
    hide NextAverage, Realized, TrackedMid, Mid;
  }

  lemma SameProduct(x: real, x': real, y: real)
    ensures x == x' ==> x * y == x' * y
  {
  }

  lemma MidArithmetic(p: real, s: real, n: real, x: real, average: real, m: real, m': real, mid: real, cash: real, gross: real, gain: real)
    requires n == p + s && mid + p * m == cash + gross && (n != 0.0 ==> m' == average)
    requires 0.0 - s * x + n * average == 0.0 + p * m + gain
    ensures mid - s * x + n * m' == cash + (gross + gain)
  {
    Zero(n, average);
    Zero(n, m');
  }

  lemma Zero(x: real, y: real)
    ensures x == 0.0 ==> x * y == 0.0
  {
  }

  lemma {:induction false} GrossBooks(account: Account, fills: seq<(Decision, Quote)>)
    requires account.position == 0.0 && Orders(fills) && NeverTiny(Row(account, BLANK, []), fills)
    ensures var r := Run(Row(account, BLANK, []), fills);
            CashAtMid(account.cash, fills) + r.account.position * TrackedMid(r.learning) == account.cash + r.learning.gross
  {
    hide Next, Tellable, Booked, Sum, Mid, Signed, TrackedMid;
    var start := Row(account, BLANK, []);
    if fills == [] {
      Zero(start.account.position, TrackedMid(BLANK));
    } else {
      var front := fills[..|fills| - 1];
      assert forall n :: 0 <= n <= |front| ==> front[..n] == fills[..n];
      GrossBooks(account, front);
      EveryCloseIsMatched(account, front);
      RunTracks(account, front);
      var (d, q) := fills[|fills| - 1];
      assert fills[..|fills|] == fills;
      assert front != [] ==> front[|front| - 1].0.id != d.id;
      CostsAddUp(account, front);
      hide Orders, NeverTiny, AllTracked, Tracks;
      GrossStep(Run(start, front), d, q, CashAtMid(account.cash, front), account.cash);
    }
  }

  lemma RunTracks(account: Account, fills: seq<(Decision, Quote)>)
    requires account.position == 0.0 && Orders(fills)
    ensures Tracks(Run(Row(account, BLANK, []), fills).account, Run(Row(account, BLANK, []), fills).learning)
  {
    hide Run, Tracks, Booked, Attributed, Sum;
    FlatIsBooked(account);
    AttributionIdentity(account, account.cash - Sum(account.realized), fills);
  }

  lemma FlatIsBooked(account: Account)
    requires account.position == 0.0
    ensures Booked(account, account.cash - Sum(account.realized))
  {
    assert account.position * account.average == 0.0;
  }

  /** From a fresh observation of a flat account the figures split the profit completely: cash at mid
      prices and the position at its tracked mid are the cash at the start and the matched gross, and the
      spread and slippage of all fills are the matched cost and what the open position still carries. */
  lemma MidBooksBalance(account: Account, fills: seq<(Decision, Quote)>)
    requires account.position == 0.0 && Orders(fills) && NeverTiny(Row(account, BLANK, []), fills)
    ensures MidBooks(account.cash, fills, Run(Row(account, BLANK, []), fills))
  {
    hide Run, CashAtMid, TotalCost, TotalHalfSpread, Orders, NeverTiny, Holds, Booked, AllTracked, Sum, TrackedMid, TrackedCost;
    var r, baseline := Run(Row(account, BLANK, []), fills), Sum(account.realized);
    GrossBooks(account, fills);
    EveryCloseIsMatched(account, fills);
    FlatIsBooked(account);
    AttributionIdentity(account, account.cash - baseline, fills);
    CostsAddUp(account, fills);
    CostBooks(r, CashAtMid(account.cash, fills), account.cash, baseline);
  }

  lemma CostBooks(r: Row, mid: real, cash: real, baseline: real)
    requires AllTracked(r) && Holds(r, cash - baseline, baseline)
    requires mid + r.account.position * TrackedMid(r.learning) == cash + r.learning.gross
    requires r.account.cash + r.learning.spread + r.learning.slippage == mid
    ensures r.learning.spread + r.learning.slippage == r.learning.matchedCost + AbsR(r.account.position) * TrackedCost(r.learning)
  {
    var p, l := r.account.position, r.learning;
    assert r.account.cash + p * r.account.average == cash + l.net && l.net == l.gross - l.matchedCost by { hide Sum, Largest, Positives, CountPositive, CountNegative; }
    if l.entry.Some? {
      var e := l.entry.value;
      assert r.account.average == e.mid + e.side * e.cost && AbsR(p) == p * e.side;
      hide *;
      assert TrackedMid(l) == e.mid && TrackedCost(l) == e.cost by { TrackedIs(l); }
      Spread(p, e.mid, e.side, e.cost);
    } else {
      hide Holds, Sum;
    }
  }

  lemma TrackedIs(l: Learning)
    requires l.entry.Some?
    ensures TrackedMid(l) == l.entry.value.mid && TrackedCost(l) == l.entry.value.cost
  {
  }

  lemma Spread(p: real, m: real, side: real, cost: real)
    ensures p * (m + side * cost) == p * m + p * side * cost
  {
  }

  /** The observed net profit is what the account has realized since the observation began. */
  lemma NetSinceStart(account: Account, initial: real, fills: seq<(Decision, Quote)>)
    requires Booked(account, initial) && Orders(fills)
    ensures var r := Run(Row(account, BLANK, []), fills); r.learning.net == Sum(r.account.realized) - Sum(account.realized)
  {
    hide Run, Booked, Sum, Holds;
    AttributionIdentity(account, initial, fills);
    HoldsNet(Run(Row(account, BLANK, []), fills), initial, Sum(account.realized));
  }

  lemma HoldsNet(r: Row, initial: real, baseline: real)
    ensures Holds(r, initial, baseline) ==> r.learning.net == Sum(r.account.realized) - baseline
  {
    hide Sum;
  }

  /** The two best closes never exceed the profit of all winning closes. */
  lemma BestWithinPositive(l: Learning, closes: seq<real>)
    requires Attributed(l, closes)
    ensures Sum(l.best) <= l.positive
  {
    var all := Positives(closes);
    PositivesPositive(closes);
    hide Positives;
    SumNotNegative(all);
    if |all| >= 2 {
      var i: nat, j: nat :| LargestAt(l.best, all, i, j);
      var low, high := if i < j then i else j, if i < j then j else i;
      TwoOfMany(all, low, high);
      SumSnoc([], all[i]);
      SumSnoc([all[i]], all[j]);
      assert [] + [all[i]] == [all[i]] && [all[i]] + [all[j]] == l.best;
    }
  }

  lemma {:induction false} PositivesPositive(s: seq<real>)
    ensures forall i :: 0 <= i < |Positives(s)| ==> Positives(s)[i] > 0.0
  {
    if s != [] {
      PositivesPositive(s[..|s| - 1]);
    }
  }

  lemma {:induction false} OneOfMany(s: seq<real>, i: nat)
    requires i < |s| && forall i :: 0 <= i < |s| ==> s[i] > 0.0
    ensures s[i] <= Sum(s)
  {
    SumNotNegative(s[..|s| - 1]);
    if i < |s| - 1 {
      OneOfMany(s[..|s| - 1], i);
    }
  }

  lemma {:induction false} SumNotNegative(s: seq<real>)
    requires forall i :: 0 <= i < |s| ==> s[i] > 0.0
    ensures Sum(s) >= 0.0
  {
    if s != [] {
      SumNotNegative(s[..|s| - 1]);
    }
  }

  lemma {:induction false} TwoOfMany(s: seq<real>, i: nat, j: nat)
    requires i < j < |s| && forall i :: 0 <= i < |s| ==> s[i] > 0.0
    ensures s[i] + s[j] <= Sum(s)
  {
    if j < |s| - 1 {
      TwoOfMany(s[..|s| - 1], i, j);
    } else {
      OneOfMany(s[..|s| - 1], i);
    }
  }

  // ---------------------------------------------------------------- the objects

  class PaperAccount {
    var cash: real
    var position: real
    var average: real
    var realized: seq<real>

    constructor (initial: real)
      ensures View() == Account(initial, 0.0, 0.0, []) && Booked(View(), initial)
    {
      cash, position, average, realized := initial, 0.0, 0.0, [];
    }

    function View(): Account
      reads this
    {
      Account(cash, position, average, realized)
    }

    /** The fill of an accepted decision. */
    method Apply(d: Decision)
      modifies this
      ensures View() == Fill(old(View()), d)
    {
      hide NextAverage, Realized;
      var signed := Signed(d);
      var profit := Profit(signed, d.price);
      var next := AverageAfter(signed, d.price);
      cash := cash - signed * d.price;
      position := position + signed;
      average := next;
      realized := realized + [profit];
    }

    method Profit(signed: real, price: real) returns (profit: real)
      ensures profit == Realized(View(), signed, price)
    {
      profit := 0.0;
      if position != 0.0 && position * signed < 0.0 {
        var closed := Least(AbsR(position), AbsR(signed));
        profit := closed * (price - average) * SignOf(position);
      }
    }

    method AverageAfter(signed: real, price: real) returns (next: real)
      ensures next == NextAverage(View(), signed, price)
    {
      hide Blend;
      var current := position + signed;
      next := average;
      if current == 0.0 {
        next := 0.0;
      } else if position == 0.0 || position * current < 0.0 {
        next := price;
      } else if position * signed > 0.0 {
        next := Blend(AbsR(position), average, AbsR(signed), price, AbsR(current));
      }
    }
  }

  class ExperimentRow {
    var learning: Learning

    constructor ()
      ensures learning == BLANK
    {
      learning := BLANK;
    }

    /** Observes an accepted fill; the account is only read. */
    method ObserveFill(before: Account, d: Decision, q: Quote)
      modifies this
      ensures learning == Observe(old(learning), before, d, q)
    {
      hide NextEntry;
      if learning.lastId == Some(d.id) {
        return;
      }
      var entry := learning.entry;
      learning := Counted(learning, d, q);
      hide Counted, CostPerUnit, Mid;
      if before.position != 0.0 && before.position * Side(d) < 0.0 {
        var net := NetOf(before, d);
        learning := learning.(closed := learning.closed + 1, net := learning.net + net);
        if net > 0.0 {
          learning := learning.(wins := learning.wins + 1, positive := learning.positive + net, best := TopTwo(learning.best, net));
        }
        if net < 0.0 {
          learning := learning.(losses := learning.losses + 1);
        }
        if entry.Some? {
          learning := learning.(matched := learning.matched + 1, gross := learning.gross + GrossOf(before, entry.value, d, q),
                                matchedNet := learning.matchedNet + net, matchedCost := learning.matchedCost + CostOf(before, entry.value, d, q));
        } else {
          learning := learning.(unmatched := learning.unmatched + 1);
        }
      }
      learning := learning.(entry := NextEntry(entry, before.position, d, q));
    }
  }
}
