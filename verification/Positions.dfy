/** A window's result told position by position: what each symbol earned, what was charged for
    it and on which row, without the vectors the scoring is written in. */
module Positions {
  import opened Vectors
  import opened Protocol
  import opened Backtest
  import Accounting

  // ----- one symbol, one session

  /** The weight of a symbol when the session before ends; flat before the first. */
  function Prior(ws: seq<Vec>, o: nat, i: nat): real
    requires o < |ws| && i < |ws[o]| && (0 < o ==> i < |ws[o - 1]|)
  {
    if o == 0 then 0.0 else ws[o - 1][i]
  }

  function Change(ws: seq<Vec>, o: nat, i: nat): real
    requires o < |ws| && i < |ws[o]| && (0 < o ==> i < |ws[o - 1]|)
  {
    Abs(ws[o][i] - Prior(ws, o, i))
  }

  function ChangeBy(b: Backtester, ws: seq<Vec>, start: nat, o: nat): Vec
    requires b.Path(ws, start) && o < |ws|
  {
    seq(b.Symbols(), i requires 0 <= i < b.Symbols() => Change(ws, o, i))
  }

  /** Spread of the session before, paid on the change of weight. */
  function SpreadBy(b: Backtester, ws: seq<Vec>, start: nat, o: nat): Vec
    requires b.Priced() && b.Path(ws, start) && o < |ws|
  {
    seq(b.Symbols(), i requires 0 <= i < b.Symbols() =>
      Change(ws, o, i) * b.market.rows[start + o - 1].spread[i] / 10_000.0)
  }

  /** Weight given up when the window ends, and the spread of its last session paid on it. */
  function LeavingBy(b: Backtester, ws: seq<Vec>, start: nat): Vec
    requires b.Path(ws, start) && 1 <= |ws|
  {
    seq(b.Symbols(), i requires 0 <= i < b.Symbols() => Abs(ws[|ws| - 1][i]))
  }

  function LeavingSpreadBy(b: Backtester, ws: seq<Vec>, start: nat): Vec
    requires b.Priced() && b.Path(ws, start)
  {
    seq(b.Symbols(), i requires 0 <= i < b.Symbols() =>
      Abs(ws[|ws| - 1][i]) * b.market.rows[start + b.windowDays - 1].spread[i] / 10_000.0)
  }

  function SpotBy(b: Backtester, ws: seq<Vec>, start: nat, o: nat): Vec
    requires b.Priced() && b.Path(ws, start) && o < |ws|
  {
    seq(b.Symbols(), i requires 0 <= i < b.Symbols() => ws[o][i] * b.market.rows[start + o].spot[i])
  }

  function CarryBy(b: Backtester, ws: seq<Vec>, start: nat, o: nat): Vec
    requires b.Priced() && b.Path(ws, start) && o < |ws|
  {
    seq(b.Symbols(), i requires 0 <= i < b.Symbols() =>
      ws[o][i] * ((1.0 + b.market.rows[start + o].spot[i]) * b.market.rows[start + o].carry[i]))
  }

  /** What a session leaves of each position: the compounded return of spot and carry, less
      fee and prior spread on its change, and on the last session less fee and spread on
      giving it up. */
  function EarnedBy(b: Backtester, ws: seq<Vec>, start: nat, o: nat): Vec
    requires b.Priced() && b.Path(ws, start) && o < |ws|
  {
    seq(b.Symbols(), i requires 0 <= i < b.Symbols() =>
      var row, prior := b.market.rows[start + o], b.market.rows[start + o - 1];
      ws[o][i] * ((1.0 + row.spot[i]) * (1.0 + row.carry[i]) - 1.0)
      - Change(ws, o, i) * (b.costBps + prior.spread[i]) / 10_000.0
      - (if o == b.windowDays - 1 then Abs(ws[o][i]) * (b.costBps + row.spread[i]) / 10_000.0 else 0.0))
  }

  // ----- one window, day by day and in all

  function ChangeByDay(b: Backtester, ws: seq<Vec>, start: nat): Vec
    requires b.Priced() && b.Path(ws, start)
  {
    seq(b.windowDays, o requires 0 <= o < b.windowDays => Sum(ChangeBy(b, ws, start, o)))
  }

  function SpreadByDay(b: Backtester, ws: seq<Vec>, start: nat): Vec
    requires b.Priced() && b.Path(ws, start)
  {
    seq(b.windowDays, o requires 0 <= o < b.windowDays => Sum(SpreadBy(b, ws, start, o)))
  }

  function SpotByDay(b: Backtester, ws: seq<Vec>, start: nat): Vec
    requires b.Priced() && b.Path(ws, start)
  {
    seq(b.windowDays, o requires 0 <= o < b.windowDays => Sum(SpotBy(b, ws, start, o)))
  }

  function CarryByDay(b: Backtester, ws: seq<Vec>, start: nat): Vec
    requires b.Priced() && b.Path(ws, start)
  {
    seq(b.windowDays, o requires 0 <= o < b.windowDays => Sum(CarryBy(b, ws, start, o)))
  }

  function EarnedByDay(b: Backtester, ws: seq<Vec>, start: nat): Vec
    requires b.Priced() && b.Path(ws, start)
  {
    seq(b.windowDays, o requires 0 <= o < b.windowDays => Sum(EarnedBy(b, ws, start, o)))
  }

  function SpreadPaid(b: Backtester, ws: seq<Vec>, start: nat): real
    requires b.Priced() && b.Path(ws, start)
  {
    Sum(SpreadByDay(b, ws, start)) + Sum(LeavingSpreadBy(b, ws, start))
  }

  function Traded(b: Backtester, ws: seq<Vec>, start: nat): real
    requires b.Priced() && b.Path(ws, start)
  {
    Sum(ChangeByDay(b, ws, start)) + Sum(LeavingBy(b, ws, start))
  }

  function SpotEarned(b: Backtester, ws: seq<Vec>, start: nat): real
    requires b.Priced() && b.Path(ws, start)
  {
    Sum(SpotByDay(b, ws, start))
  }

  function CarryEarned(b: Backtester, ws: seq<Vec>, start: nat): real
    requires b.Priced() && b.Path(ws, start)
  {
    Sum(CarryByDay(b, ws, start))
  }

  function Earned(b: Backtester, ws: seq<Vec>, start: nat): real
    requires b.Priced() && b.Path(ws, start)
  {
    Sum(EarnedByDay(b, ws, start))
  }

  // ----- the scores are those

  predicate PaidAt(traded: Vec, row: Row, paid: Vec, i: nat)
    requires i < |traded| == |paid| == |row.spread|
  {
    paid[i] == traded[i] * row.spread[i] / 10_000.0
  }

  lemma CostOf(b: Backtester, traded: Vec, row: Row, paid: Vec)
    requires row.Valid(|traded|) && |paid| == |traded|
    requires forall i :: 0 <= i < |traded| ==> PaidAt(traded, row, paid, i)
    ensures Dot(traded, b.PerSide(row)) == b.costBps / 10_000.0 * Sum(traded) + Sum(paid)
  {
    hide Sum, Mul, Dot, Backtester.PerSide, PaidAt, Row.Valid;
    CostAtRate(b, traded, row, paid, b.costBps / 10_000.0);
  }

  lemma CostAtRate(b: Backtester, traded: Vec, row: Row, paid: Vec, k: real)
    requires row.Valid(|traded|) && |paid| == |traded| && k == b.costBps / 10_000.0
    requires forall i :: 0 <= i < |traded| ==> PaidAt(traded, row, paid, i)
    ensures Dot(traded, b.PerSide(row)) == k * Sum(traded) + Sum(paid)
  {
    hide Sum, Mul, Dot, Backtester.PerSide, PaidAt, ChargedAt, Row.Valid;
    SideLength(b, traded, row);
    var charged := Mul(traded, b.PerSide(row));
    forall i | 0 <= i < |traded|
      ensures ChargedAt(charged, k, traded, paid, i)
    {
      ChargeAt(b, traded, row, paid, i);
    }
    DotIsSum(traded, b.PerSide(row));
    SumOfCharges(charged, k, traded, paid);
  }

  lemma SideLength(b: Backtester, traded: Vec, row: Row)
    requires row.Valid(|traded|)
    ensures |b.PerSide(row)| == |row.spread| == |traded|
    ensures |Mul(traded, b.PerSide(row))| == |traded|
  {
  }

  lemma {:induction false} SumOfCharges(charged: Vec, k: real, traded: Vec, paid: Vec)
    requires |charged| == |traded| == |paid|
    requires forall i :: 0 <= i < |charged| ==> ChargedAt(charged, k, traded, paid, i)
    ensures Sum(charged) == k * Sum(traded) + Sum(paid)
  {
    if charged != [] {
      var n := |charged| - 1;
      assert forall i :: 0 <= i < n && ChargedAt(charged, k, traded, paid, i) ==>
        ChargedAt(charged[..n], k, traded[..n], paid[..n], i);
      SumOfCharges(charged[..n], k, traded[..n], paid[..n]);
      assert ChargedAt(charged, k, traded, paid, n);
      Accounting.Distributes(k, Sum(traded[..n]), traded[n]);
    }
  }

  predicate ChargedAt(charged: Vec, k: real, traded: Vec, paid: Vec, i: nat)
    requires i < |charged| == |traded| == |paid|
  {
    charged[i] == k * traded[i] + paid[i]
  }

  lemma DotIsSum(x: Vec, y: Vec)
    requires |x| == |y|
    ensures Dot(x, y) == Sum(Mul(x, y))
  {
  }

  lemma ChargeAt(b: Backtester, traded: Vec, row: Row, paid: Vec, i: nat)
    requires row.Valid(|traded|) && i < |traded| == |paid| == |b.PerSide(row)| && PaidAt(traded, row, paid, i)
    ensures |Mul(traded, b.PerSide(row))| == |traded|
    ensures ChargedAt(Mul(traded, b.PerSide(row)), b.costBps / 10_000.0, traded, paid, i)
  {
    ChargeSplits(traded[i], b.costBps, row.spread[i]);
  }

  lemma ChargeSplits(x: real, fee: real, spread: real)
    ensures x * ((fee + spread) / 10_000.0) == fee / 10_000.0 * x + x * spread / 10_000.0
  {
  }

  lemma TradesAreChanges(b: Backtester, ws: seq<Vec>, start: nat, o: nat)
    requires b.Path(ws, start) && o < |ws|
    ensures b.Trades(ws, start, o) == ChangeBy(b, ws, start, o)
  {
  }

  /** The trading cost of a session: the fee on every change, and the spread of the session
      before on each. */
  lemma TradeCostIs(b: Backtester, ws: seq<Vec>, start: nat, o: nat)
    requires b.Priced() && b.Path(ws, start) && o < |ws|
    ensures b.TradeCost(ws, start, o) ==
              b.costBps / 10_000.0 * Sum(ChangeBy(b, ws, start, o)) + Sum(SpreadBy(b, ws, start, o))
  {
    hide Sum;
    TradesAreChanges(b, ws, start, o);
    CostOf(b, ChangeBy(b, ws, start, o), b.market.rows[start + o - 1], SpreadBy(b, ws, start, o));
  }

  lemma LiquidationCostIs(b: Backtester, ws: seq<Vec>, start: nat)
    requires b.Priced() && b.Path(ws, start)
    ensures b.LiquidationCost(ws, start) ==
              b.costBps / 10_000.0 * Sum(LeavingBy(b, ws, start)) + Sum(LeavingSpreadBy(b, ws, start))
    ensures Gross(ws[b.windowDays - 1]) == Sum(LeavingBy(b, ws, start))
  {
    hide Sum;
    var last := ws[b.windowDays - 1];
    assert AbsAll(last) == LeavingBy(b, ws, start);
    CostOf(b, LeavingBy(b, ws, start), b.market.rows[start + b.windowDays - 1], LeavingSpreadBy(b, ws, start));
  }

  lemma PnlIs(b: Backtester, ws: seq<Vec>, start: nat, o: nat)
    requires b.Priced() && b.Path(ws, start) && o < |ws|
    ensures b.SpotPnl(ws, start, o) == Sum(SpotBy(b, ws, start, o))
    ensures b.CarryPnl(ws, start, o) == Sum(CarryBy(b, ws, start, o))
  {
    hide Sum;
    var row := b.market.rows[start + o];
    assert Mul(ws[o], row.spot) == SpotBy(b, ws, start, o);
    var carried := Mul(ws[o], CarryComponent(row));
    forall i | 0 <= i < b.Symbols()
      ensures carried[i] == CarryBy(b, ws, start, o)[i]
    {
      assert CarryComponent(row)[i] == (1.0 + row.spot[i]) * row.carry[i];
    }
    assert carried == CarryBy(b, ws, start, o);
  }

  /** What is charged on giving the positions up, on the last session only. */
  function LeavingFeeBy(b: Backtester, ws: seq<Vec>, start: nat, o: nat): Vec
    requires b.Priced() && b.Path(ws, start) && o < |ws|
  {
    seq(b.Symbols(), i requires 0 <= i < b.Symbols() =>
      if o == b.windowDays - 1 then Abs(ws[o][i]) * (b.costBps + b.market.rows[start + o].spread[i]) / 10_000.0 else 0.0)
  }

  lemma LeavingFeeIs(b: Backtester, ws: seq<Vec>, start: nat, o: nat)
    requires b.Priced() && b.Path(ws, start) && o < |ws|
    ensures Sum(LeavingFeeBy(b, ws, start, o)) == (if o == b.windowDays - 1 then b.LiquidationCost(ws, start) else 0.0)
  {
    hide Sum;
    if o == b.windowDays - 1 {
      var row := b.market.rows[start + o];
      assert LeavingFeeBy(b, ws, start, o) == Mul(AbsAll(ws[o]), b.PerSide(row)) by {
        forall i | 0 <= i < b.Symbols()
          ensures LeavingFeeBy(b, ws, start, o)[i] == Mul(AbsAll(ws[o]), b.PerSide(row))[i]
        {
          var size, side := Abs(ws[o][i]), b.costBps + row.spread[i];
          assert size * side / 10_000.0 == size * (side / 10_000.0);
        }
      }
    } else {
      SumOfZeros(LeavingFeeBy(b, ws, start, o));
    }
  }

  lemma {:induction false} SumOfDifferences(parts: Vec, x: Vec, y: Vec, k: real, t: Vec, z: Vec, u: Vec)
    requires |parts| == |x| == |y| == |t| == |z| == |u|
    requires forall i :: 0 <= i < |parts| ==> parts[i] == x[i] + y[i] - k * t[i] - z[i] - u[i]
    ensures Sum(parts) == Sum(x) + Sum(y) - k * Sum(t) - Sum(z) - Sum(u)
  {
    if parts != [] {
      var n := |parts| - 1;
      SumOfDifferences(parts[..n], x[..n], y[..n], k, t[..n], z[..n], u[..n]);
    }
  }

  lemma PositionSplits(w: real, s: real, c: real, change: real, fee: real, spread: real, leaving: real)
    ensures w * ((1.0 + s) * (1.0 + c) - 1.0) - change * (fee + spread) / 10_000.0 - leaving
              == w * s + w * ((1.0 + s) * c) - fee / 10_000.0 * change - change * spread / 10_000.0 - leaving
  {
    Backtester.ScalarSplit(w, s, c);
  }

  lemma EarnedAt(b: Backtester, ws: seq<Vec>, start: nat, o: nat, i: nat)
    requires b.Priced() && b.Path(ws, start) && o < |ws| && i < b.Symbols()
    ensures EarnedBy(b, ws, start, o)[i] ==
              SpotBy(b, ws, start, o)[i] + CarryBy(b, ws, start, o)[i]
              - b.costBps / 10_000.0 * ChangeBy(b, ws, start, o)[i] - SpreadBy(b, ws, start, o)[i]
              - LeavingFeeBy(b, ws, start, o)[i]
  {
    hide Change;
    var row, prior := b.market.rows[start + o], b.market.rows[start + o - 1];
    PositionSplits(ws[o][i], row.spot[i], row.carry[i], Change(ws, o, i), b.costBps, prior.spread[i],
                   LeavingFeeBy(b, ws, start, o)[i]);
  }

  /** The net return of a session is what its positions earned together. */
  lemma NetIsEarned(b: Backtester, ws: seq<Vec>, start: nat, o: nat)
    requires b.Priced() && b.Path(ws, start) && o < |ws|
    ensures b.NetReturn(ws, start, o) == Sum(EarnedBy(b, ws, start, o))
  {
    hide Sum, Backtester.TradeCost, Backtester.LiquidationCost, Backtester.SpotPnl, Backtester.CarryPnl;
    PnlIs(b, ws, start, o);
    TradeCostIs(b, ws, start, o);
    LeavingFeeIs(b, ws, start, o);
    forall i | 0 <= i < b.Symbols()
      ensures EarnedBy(b, ws, start, o)[i] ==
                SpotBy(b, ws, start, o)[i] + CarryBy(b, ws, start, o)[i]
                - b.costBps / 10_000.0 * ChangeBy(b, ws, start, o)[i] - SpreadBy(b, ws, start, o)[i]
                - LeavingFeeBy(b, ws, start, o)[i]
    {
      EarnedAt(b, ws, start, o, i);
    }
    SumOfDifferences(EarnedBy(b, ws, start, o), SpotBy(b, ws, start, o), CarryBy(b, ws, start, o), b.costBps / 10_000.0,
                     ChangeBy(b, ws, start, o), SpreadBy(b, ws, start, o), LeavingFeeBy(b, ws, start, o));
  }

  /** Each reported return is what the positions earned that session after costs, never less
      than -99 percent; turnover counts every change of weight and the closing one. */
  lemma WindowIsEarned(b: Backtester, ws: seq<Vec>, start: nat)
    requires b.Priced() && b.Path(ws, start)
    ensures var s := b.Score(ws, start);
            && (forall o :: 0 <= o < b.windowDays ==> s.daily[o] == Max(-0.99, Sum(EarnedBy(b, ws, start, o))))
            && s.turnover == Traded(b, ws, start)
            && s.carryContribution == CarryEarned(b, ws, start)
  {
    hide Sum, Backtester.NetReturn, Backtester.Trades, Backtester.CarryPnl, EarnedBy, ChangeBy, CarryBy;
    forall o | 0 <= o < b.windowDays
      ensures b.NetReturn(ws, start, o) == Sum(EarnedBy(b, ws, start, o))
      ensures b.TradedBy(ws, start)[o] == ChangeByDay(b, ws, start)[o]
      ensures b.CarryBy(ws, start)[o] == CarryByDay(b, ws, start)[o]
    {
      NetIsEarned(b, ws, start, o);
      TradesAreChanges(b, ws, start, o);
      PnlIs(b, ws, start, o);
    }
    LiquidationCostIs(b, ws, start);
    assert b.TradedBy(ws, start) == ChangeByDay(b, ws, start);
    assert b.CarryBy(ws, start) == CarryByDay(b, ws, start);
  }

  lemma {:induction false} SumOfDays(parts: Vec, x: Vec, y: Vec, k: real, t: Vec, z: Vec, last: real)
    requires |parts| == |x| == |y| == |t| == |z| && parts != []
    requires forall o :: 0 <= o < |parts| - 1 ==> parts[o] == x[o] + y[o] - k * t[o] - z[o]
    requires var n := |parts| - 1; parts[n] == x[n] + y[n] - k * t[n] - z[n] - last
    ensures Sum(parts) == Sum(x) + Sum(y) - k * Sum(t) - Sum(z) - last
  {
    hide Sum;
    var n := |parts| - 1;
    var before := parts[n := parts[n] + last];
    SumOfUsual(before, x, y, k, t, z);
    LastChanged(parts, before, last);
  }

  lemma LastChanged(parts: Vec, before: Vec, last: real)
    requires parts != [] && before == parts[|parts| - 1 := parts[|parts| - 1] + last]
    ensures Sum(before) == Sum(parts) + last
  {
    assert before[..|parts| - 1] == parts[..|parts| - 1];
  }

  lemma {:induction false} SumOfUsual(parts: Vec, x: Vec, y: Vec, k: real, t: Vec, z: Vec)
    requires |parts| == |x| == |y| == |t| == |z|
    requires forall o :: 0 <= o < |parts| ==> parts[o] == x[o] + y[o] - k * t[o] - z[o]
    ensures Sum(parts) == Sum(x) + Sum(y) - k * Sum(t) - Sum(z)
  {
    if parts != [] {
      var n := |parts| - 1;
      SumOfUsual(parts[..n], x[..n], y[..n], k, t[..n], z[..n]);
    }
  }

  /** A window earns what spot moves and carry bring, less the fee on all its turnover and the
      spreads its trades were charged. */
  lemma EarnedIsConserved(b: Backtester, ws: seq<Vec>, start: nat)
    requires b.Priced() && b.Path(ws, start)
    ensures Earned(b, ws, start) ==
              SpotEarned(b, ws, start) + b.Score(ws, start).carryContribution
              - b.costBps / 10_000.0 * b.Score(ws, start).turnover - SpreadPaid(b, ws, start)
  {
    hide Sum, Backtester.TradeCost, Backtester.LiquidationCost, Backtester.SpotPnl, Backtester.CarryPnl, Backtester.Score;
    hide EarnedBy, SpotBy, CarryBy, ChangeBy, SpreadBy, LeavingBy, LeavingSpreadBy;
    var n, k, last := b.windowDays, b.costBps / 10_000.0, b.LiquidationCost(ws, start);
    forall o | 0 <= o < n
      ensures EarnedByDay(b, ws, start)[o] ==
                SpotByDay(b, ws, start)[o] + CarryByDay(b, ws, start)[o] - k * ChangeByDay(b, ws, start)[o]
                - SpreadByDay(b, ws, start)[o] - (if o == n - 1 then last else 0.0)
    {
      NetIsEarned(b, ws, start, o);
      PnlIs(b, ws, start, o);
      TradeCostIs(b, ws, start, o);
    }
    SumOfDays(EarnedByDay(b, ws, start), SpotByDay(b, ws, start), CarryByDay(b, ws, start), k,
              ChangeByDay(b, ws, start), SpreadByDay(b, ws, start), last);
    LiquidationCostIs(b, ws, start);
    WindowIsEarned(b, ws, start);
    Accounting.Distributes(k, Sum(ChangeByDay(b, ws, start)), Sum(LeavingBy(b, ws, start)));
  }

  /** When no session was cut off at -99 percent, so do the reported returns. */
  lemma ReportedFallsShortByCosts(b: Backtester, ws: seq<Vec>, start: nat)
    requires b.Priced() && b.Path(ws, start)
    requires forall o :: 0 <= o < b.windowDays ==> -0.99 < b.Score(ws, start).daily[o]
    ensures Sum(b.Score(ws, start).daily) ==
              SpotEarned(b, ws, start) + b.Score(ws, start).carryContribution
              - b.costBps / 10_000.0 * b.Score(ws, start).turnover - SpreadPaid(b, ws, start)
  {
    hide Sum, Backtester.Score, EarnedBy, SpotEarned, SpreadPaid;
    WindowIsEarned(b, ws, start);
    EarnedIsConserved(b, ws, start);
    assert b.Score(ws, start).daily == EarnedByDay(b, ws, start);
  }

  // ----- spreads charged, from above and below

  /** Every spread a window is charged at lies within these bounds. */
  predicate SpreadsWithin(b: Backtester, start: nat, low: real, high: real)
    requires b.market.Valid() && 1 <= start && start + b.windowDays <= |b.market.rows|
  {
    forall k, i :: start - 1 <= k < start + b.windowDays && 0 <= i < b.Symbols() ==>
      low <= b.market.rows[k].spread[i] <= high
  }

  lemma PaidWithin(x: real, spread: real, low: real, high: real)
    requires 0.0 <= x && low <= spread <= high
    ensures low / 10_000.0 * x <= x * spread / 10_000.0 <= high / 10_000.0 * x
  {
    MulMonotone(low, spread, x);
    MulMonotone(spread, high, x);
    assert low / 10_000.0 * x == low * x / 10_000.0 && high / 10_000.0 * x == high * x / 10_000.0;
  }

  lemma SpreadOfDayWithin(b: Backtester, ws: seq<Vec>, start: nat, o: nat, low: real, high: real)
    requires b.Priced() && b.Path(ws, start) && o < |ws| && SpreadsWithin(b, start, low, high)
    ensures low / 10_000.0 * Sum(ChangeBy(b, ws, start, o)) <= Sum(SpreadBy(b, ws, start, o))
    ensures Sum(SpreadBy(b, ws, start, o)) <= high / 10_000.0 * Sum(ChangeBy(b, ws, start, o))
  {
    hide Sum;
    forall i | 0 <= i < b.Symbols()
      ensures Scaled(low / 10_000.0, ChangeBy(b, ws, start, o))[i] <= SpreadBy(b, ws, start, o)[i]
      ensures SpreadBy(b, ws, start, o)[i] <= Scaled(high / 10_000.0, ChangeBy(b, ws, start, o))[i]
    {
      PaidWithin(Change(ws, o, i), b.market.rows[start + o - 1].spread[i], low, high);
    }
    Accounting.SumWithin(low / 10_000.0, high / 10_000.0, ChangeBy(b, ws, start, o), SpreadBy(b, ws, start, o));
  }

  lemma SpreadOfLeavingWithin(b: Backtester, ws: seq<Vec>, start: nat, low: real, high: real)
    requires b.Priced() && b.Path(ws, start) && SpreadsWithin(b, start, low, high)
    ensures low / 10_000.0 * Sum(LeavingBy(b, ws, start)) <= Sum(LeavingSpreadBy(b, ws, start))
    ensures Sum(LeavingSpreadBy(b, ws, start)) <= high / 10_000.0 * Sum(LeavingBy(b, ws, start))
  {
    hide Sum;
    var last := b.windowDays - 1;
    forall i | 0 <= i < b.Symbols()
      ensures Scaled(low / 10_000.0, LeavingBy(b, ws, start))[i] <= LeavingSpreadBy(b, ws, start)[i]
      ensures LeavingSpreadBy(b, ws, start)[i] <= Scaled(high / 10_000.0, LeavingBy(b, ws, start))[i]
    {
      PaidWithin(Abs(ws[last][i]), b.market.rows[start + last].spread[i], low, high);
    }
    Accounting.SumWithin(low / 10_000.0, high / 10_000.0, LeavingBy(b, ws, start), LeavingSpreadBy(b, ws, start));
  }

  /** What a window's trades are charged for spreads is at least the smallest and at most the
      largest of them on the whole turnover. */
  lemma SpreadPaidWithin(b: Backtester, ws: seq<Vec>, start: nat, low: real, high: real)
    requires b.Priced() && b.Path(ws, start) && SpreadsWithin(b, start, low, high)
    ensures var turnover := b.Score(ws, start).turnover;
            low / 10_000.0 * turnover <= SpreadPaid(b, ws, start) <= high / 10_000.0 * turnover
  {
    hide Sum, ChangeBy, SpreadBy, LeavingBy, LeavingSpreadBy, Backtester.Score;
    var l, h := low / 10_000.0, high / 10_000.0;
    forall o | 0 <= o < b.windowDays
      ensures Scaled(l, ChangeByDay(b, ws, start))[o] <= SpreadByDay(b, ws, start)[o]
      ensures SpreadByDay(b, ws, start)[o] <= Scaled(h, ChangeByDay(b, ws, start))[o]
    {
      SpreadOfDayWithin(b, ws, start, o, low, high);
    }
    Accounting.SumWithin(l, h, ChangeByDay(b, ws, start), SpreadByDay(b, ws, start));
    SpreadOfLeavingWithin(b, ws, start, low, high);
    WindowIsEarned(b, ws, start);
    Accounting.Distributes(l, Sum(ChangeByDay(b, ws, start)), Sum(LeavingBy(b, ws, start)));
    Accounting.Distributes(h, Sum(ChangeByDay(b, ws, start)), Sum(LeavingBy(b, ws, start)));
  }

  // ----- exposure

  function SizeBy(w: Vec): Vec {
    seq(|w|, i requires 0 <= i < |w| => Abs(w[i]))
  }

  function SquareBy(w: Vec): Vec {
    seq(|w|, i requires 0 <= i < |w| => w[i] * w[i])
  }

  predicate Active(w: Vec, threshold: real) {
    exists i :: 0 <= i < |w| && threshold <= Abs(w[i])
  }

  /** The largest position: no weight exceeds it, and one attains it. */
  predicate IsLargest(w: Vec, largest: real) {
    && (forall i :: 0 <= i < |w| ==> Abs(w[i]) <= largest)
    && (w == [] ==> largest == 0.0)
    && (w != [] ==> exists i :: 0 <= i < |w| && Abs(w[i]) == largest)
  }

  /** How many equal positions would be as concentrated: gross squared over the sum of
      squares, none without exposure. */
  predicate IsEffectiveCount(w: Vec, count: real) {
    if Sum(SizeBy(w)) == 0.0 then count == 0.0
    else count * Sum(SquareBy(w)) == Sum(SizeBy(w)) * Sum(SizeBy(w)) && 0.0 < Sum(SquareBy(w))
  }

  /** The exposure diagnostics of every session. */
  lemma SessionExposure(b: Backtester, ws: seq<Vec>, start: nat, o: nat)
    requires b.Priced() && b.Path(ws, start) && o < b.windowDays
    ensures var s := b.Score(ws, start);
            && s.gross[o] == Sum(SizeBy(ws[o]))
            && (s.meaningful[o] <==> Active(ws[o], b.meaningfulWeight))
            && IsEffectiveCount(ws[o], s.effective[o])
            && IsLargest(ws[o], s.maxWeight[o])
  {
    hide Sum, Backtester.NetReturn, Backtester.Turnover, Backtester.CarryBy;
    var w := ws[o];
    assert AbsAll(w) == SizeBy(w) && Mul(w, w) == SquareBy(w);
    GrossNonNegative(w);
    LargestIs(w);
    if 0.0 < Gross(w) {
      EffectivePositions(w);
      DividesBack(Gross(w), SumOfSquares(w));
    }
  }

  lemma DividesBack(g: real, q: real)
    requires 0.0 < q
    ensures Concentration(g, q) * q == g * g
  {
  }

  lemma LargestIs(w: Vec)
    ensures IsLargest(w, if 0.0 < Gross(w) then MaxAbs(w) else 0.0)
  {
    hide Sum, MaxOf;
    MaxOfBounds(AbsAll(w), 0.0);
    GrossZero(w);
    GrossNonNegative(w);
    assert forall i :: 0 <= i < |w| ==> AbsAll(w)[i] == Abs(w[i]);
    if w == [] {
      SumOfZeros(AbsAll(w));
    } else if 0.0 < Gross(w) {
      var k :| 0 <= k < |w| && w[k] != 0.0;
      assert 0.0 < AbsAll(w)[k];
      var i :| 0 <= i < |w| && AbsAll(w)[i] == MaxAbs(w);
    } else {
      assert Abs(w[0]) == 0.0;
    }
  }
}
