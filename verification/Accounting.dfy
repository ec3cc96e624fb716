/** What a scored window and a summary conserve and how far they can go. */
module Accounting {
  import opened Vectors
  import opened Protocol
  import opened Executors
  import opened Backtest

  // ----- conservation over a window

  function SpotBy(b: Backtester, ws: seq<Vec>, start: nat): Vec
    requires b.Priced() && b.Path(ws, start)
  {
    seq(|ws|, o requires 0 <= o < |ws| => b.SpotPnl(ws, start, o))
  }

  function TradeCostsBy(b: Backtester, ws: seq<Vec>, start: nat): Vec
    requires b.Priced() && b.Path(ws, start)
  {
    seq(|ws|, o requires 0 <= o < |ws| => b.TradeCost(ws, start, o))
  }

  function CostsBy(b: Backtester, ws: seq<Vec>, start: nat): Vec
    requires b.Priced() && b.Path(ws, start)
  {
    seq(|ws|, o requires 0 <= o < |ws| => b.Costs(ws, start, o))
  }

  function NetBy(b: Backtester, ws: seq<Vec>, start: nat): Vec
    requires b.Priced() && b.Path(ws, start)
  {
    seq(|ws|, o requires 0 <= o < |ws| => b.NetReturn(ws, start, o))
  }

  lemma SumSubtracts(a: Vec, c: Vec, d: Vec)
    requires |a| == |c| == |d|
    requires forall i :: 0 <= i < |a| ==> d[i] == a[i] - c[i]
    ensures Sum(d) == Sum(a) - Sum(c)
  {
    SumAdds(c, d, a);
  }

  /** Before flooring, a window's net returns add up to its spot profit, plus the reported
      carry contribution, less everything charged. */
  lemma NetIsConserved(b: Backtester, ws: seq<Vec>, start: nat)
    requires b.Priced() && b.Path(ws, start)
    ensures Sum(NetBy(b, ws, start)) ==
              Sum(SpotBy(b, ws, start)) + b.Score(ws, start).carryContribution - Sum(CostsBy(b, ws, start))
  {
    hide Sum;
    var earned := seq(|ws|, o requires 0 <= o < |ws| => b.SpotPnl(ws, start, o) + b.CarryPnl(ws, start, o));
    SumAdds(SpotBy(b, ws, start), b.CarryBy(ws, start), earned);
    SumSubtracts(earned, CostsBy(b, ws, start), NetBy(b, ws, start));
  }

  /** The largest half-spread quoted on these rows. */
  function LargestSpread(rows: seq<Row>): real {
    if |rows| == 0 then 0.0
    else Max(LargestSpread(rows[..|rows| - 1]), MaxOf(rows[|rows| - 1].spread, 0.0))
  }

  lemma {:induction false} LargestSpreadBounds(rows: seq<Row>, k: nat, i: nat)
    requires k < |rows| && i < |rows[k].spread|
    ensures rows[k].spread[i] <= LargestSpread(rows)
  {
    if k == |rows| - 1 {
      MaxOfBounds(rows[k].spread, 0.0);
    } else {
      LargestSpreadBounds(rows[..|rows| - 1], k, i);
    }
  }

  lemma FeesWithin(b: Backtester, row: Row, spread: real)
    requires b.Priced() && row.Valid(|row.spread|)
    requires forall i :: 0 <= i < |row.spread| ==> row.spread[i] <= spread
    ensures forall i :: 0 <= i < |row.spread| ==>
              b.costBps / 10_000.0 <= b.PerSide(row)[i] <= (b.costBps + spread) / 10_000.0
  {
  }

  /** Charging a change of weights costs between the flat fee and fee plus spread. */
  lemma CostWithin(b: Backtester, traded: Vec, row: Row, spread: real)
    requires b.Priced() && row.Valid(|traded|)
    requires forall i :: 0 <= i < |traded| ==> 0.0 <= traded[i]
    requires forall i :: 0 <= i < |traded| ==> row.spread[i] <= spread
    ensures b.costBps / 10_000.0 * Sum(traded) <= Dot(traded, b.PerSide(row))
    ensures Dot(traded, b.PerSide(row)) <= (b.costBps + spread) / 10_000.0 * Sum(traded)
  {
    hide Sum, Dot;
    FeesWithin(b, row, spread);
    CostPointwise(b, traded, row, b.costBps / 10_000.0, (b.costBps + spread) / 10_000.0);
    ScaledSum(b.costBps / 10_000.0, traded);
    ScaledSum((b.costBps + spread) / 10_000.0, traded);
  }

  lemma CostPointwise(b: Backtester, traded: Vec, row: Row, low: real, high: real)
    requires b.Priced() && row.Valid(|traded|)
    requires forall i :: 0 <= i < |traded| ==> 0.0 <= traded[i]
    requires forall i :: 0 <= i < |traded| ==> low <= b.PerSide(row)[i] <= high
    ensures Sum(Scaled(low, traded)) <= Dot(traded, b.PerSide(row)) <= Sum(Scaled(high, traded))
  {
    hide Sum;
    forall i | 0 <= i < |traded|
      ensures Scaled(low, traded)[i] <= Mul(traded, b.PerSide(row))[i] <= Scaled(high, traded)[i]
    {
      MulMonotone(low, b.PerSide(row)[i], traded[i]);
      MulMonotone(b.PerSide(row)[i], high, traded[i]);
    }
    SumMonotone(Scaled(low, traded), Mul(traded, b.PerSide(row)));
    SumMonotone(Mul(traded, b.PerSide(row)), Scaled(high, traded));
  }

  /** Rows whose spreads a window is charged at: the session before it up to its last. */
  function RowsCharged(b: Backtester, start: nat): seq<Row>
    requires 1 <= start && start + b.windowDays <= |b.market.rows|
  {
    b.market.rows[start - 1..start + b.windowDays]
  }

  lemma TradeCostWithin(b: Backtester, ws: seq<Vec>, start: nat, o: nat)
    requires b.Priced() && b.Path(ws, start) && o < |ws|
    ensures b.costBps / 10_000.0 * b.TradedBy(ws, start)[o] <= b.TradeCost(ws, start, o)
    ensures b.TradeCost(ws, start, o) <=
              (b.costBps + LargestSpread(RowsCharged(b, start))) / 10_000.0 * b.TradedBy(ws, start)[o]
  {
    hide Sum, LargestSpread;
    var row := b.market.rows[start + o - 1];
    assert row == RowsCharged(b, start)[o];
    forall i | 0 <= i < b.Symbols()
      ensures row.spread[i] <= LargestSpread(RowsCharged(b, start))
    {
      LargestSpreadBounds(RowsCharged(b, start), o, i);
    }
    CostWithin(b, b.Trades(ws, start, o), row, LargestSpread(RowsCharged(b, start)));
  }

  lemma LiquidationWithin(b: Backtester, ws: seq<Vec>, start: nat)
    requires b.Priced() && b.Path(ws, start)
    ensures b.costBps / 10_000.0 * Gross(ws[b.windowDays - 1]) <= b.LiquidationCost(ws, start)
    ensures b.LiquidationCost(ws, start) <=
              (b.costBps + LargestSpread(RowsCharged(b, start))) / 10_000.0 * Gross(ws[b.windowDays - 1])
  {
    hide Sum, LargestSpread;
    var row := b.market.rows[start + b.windowDays - 1];
    assert row == RowsCharged(b, start)[b.windowDays];
    forall i | 0 <= i < b.Symbols()
      ensures row.spread[i] <= LargestSpread(RowsCharged(b, start))
    {
      LargestSpreadBounds(RowsCharged(b, start), b.windowDays, i);
    }
    CostWithin(b, AbsAll(ws[b.windowDays - 1]), row, LargestSpread(RowsCharged(b, start)));
  }

  lemma CostsAreTradesPlusLiquidation(b: Backtester, ws: seq<Vec>, start: nat)
    requires b.Priced() && b.Path(ws, start)
    ensures Sum(CostsBy(b, ws, start)) == Sum(TradeCostsBy(b, ws, start)) + b.LiquidationCost(ws, start)
  {
    var n := b.windowDays - 1;
    assert CostsBy(b, ws, start)[..n] == TradeCostsBy(b, ws, start)[..n];
  }

  lemma SumWithin(low: real, high: real, amounts: Vec, costs: Vec)
    requires |amounts| == |costs|
    requires forall o :: 0 <= o < |costs| ==>
               Scaled(low, amounts)[o] <= costs[o] <= Scaled(high, amounts)[o]
    ensures low * Sum(amounts) <= Sum(costs) <= high * Sum(amounts)
  {
    hide Sum;
    SumMonotone(Scaled(low, amounts), costs);
    SumMonotone(costs, Scaled(high, amounts));
    ScaledSum(low, amounts);
    ScaledSum(high, amounts);
  }

  /** Everything charged in a window lies between the flat fee on its turnover and the flat
      fee plus the largest spread used on that same turnover, forced liquidation included. */
  lemma CostsFollowTurnover(b: Backtester, ws: seq<Vec>, start: nat)
    requires b.Priced() && b.Path(ws, start)
    ensures var fee, spread := b.costBps, LargestSpread(RowsCharged(b, start));
            var turnover := b.Score(ws, start).turnover;
            fee / 10_000.0 * turnover <= Sum(CostsBy(b, ws, start)) <= (fee + spread) / 10_000.0 * turnover
  {
    hide Sum, LargestSpread, Backtester.TradeCost, Backtester.Trades;
    var low := b.costBps / 10_000.0;
    var high := (b.costBps + LargestSpread(RowsCharged(b, start))) / 10_000.0;
    forall o | 0 <= o < |ws|
      ensures Scaled(low, b.TradedBy(ws, start))[o] <= TradeCostsBy(b, ws, start)[o]
      ensures TradeCostsBy(b, ws, start)[o] <= Scaled(high, b.TradedBy(ws, start))[o]
    {
      TradeCostWithin(b, ws, start, o);
    }
    SumWithin(low, high, b.TradedBy(ws, start), TradeCostsBy(b, ws, start));
    LiquidationWithin(b, ws, start);
    CostsAreTradesPlusLiquidation(b, ws, start);
    Distributes(low, Sum(b.TradedBy(ws, start)), Gross(ws[b.windowDays - 1]));
    Distributes(high, Sum(b.TradedBy(ws, start)), Gross(ws[b.windowDays - 1]));
  }

  lemma Distributes(k: real, x: real, y: real)
    ensures k * (x + y) == k * x + k * y
  {
  }

  // ----- turnover

  lemma TradeIsNorm(b: Backtester, ws: seq<Vec>, start: nat, o: nat)
    requires b.Path(ws, start) && o < |ws|
    ensures b.TradedBy(ws, start)[o] == Gross(Sub(ws[o], b.Held(ws, o)))
    ensures Gross(ws[o]) <= b.TradedBy(ws, start)[o] + Gross(b.Held(ws, o))
    ensures Gross(b.Held(ws, o)) <= b.TradedBy(ws, start)[o] + Gross(ws[o])
    ensures b.TradedBy(ws, start)[o] <= Gross(ws[o]) + Gross(b.Held(ws, o))
  {
    hide Sum;
    GrossTriangle(ws[o], b.Held(ws, o));
  }

  /** Getting from flat to the portfolio of session j takes trades worth its gross. */
  lemma {:induction false} TradedInto(b: Backtester, ws: seq<Vec>, start: nat, j: nat)
    requires b.Path(ws, start) && j < |ws|
    ensures Gross(ws[j]) <= Sum(b.TradedBy(ws, start)[..j + 1])
  {
    hide Gross, Backtester.Trades;
    TradeIsNorm(b, ws, start, j);
    SumPrefix(b.TradedBy(ws, start), j);
    if j == 0 {
      GrossOfZeros(b.Symbols());
      SumEmpty(b.TradedBy(ws, start));
    } else {
      TradedInto(b, ws, start, j - 1);
    }
  }

  /** Getting from session j to session k - 1 takes trades worth the difference. */
  lemma {:induction false} TradedOut(b: Backtester, ws: seq<Vec>, start: nat, j: nat, k: nat)
    requires b.Path(ws, start) && j < k <= |ws|
    ensures Gross(ws[j]) - Gross(ws[k - 1]) <=
              Sum(b.TradedBy(ws, start)[..k]) - Sum(b.TradedBy(ws, start)[..j + 1])
  {
    hide Gross, Sum, Backtester.Trades;
    if j + 1 < k {
      TradedOut(b, ws, start, j, k - 1);
      TradeIsNorm(b, ws, start, k - 1);
      SumPrefix(b.TradedBy(ws, start), k - 1);
    }
  }

  /** Forced liquidation makes every position a round trip: turnover is at least twice the
      gross exposure of any session. */
  lemma TurnoverAtLeast(b: Backtester, ws: seq<Vec>, start: nat, j: nat)
    requires b.Priced() && b.Path(ws, start) && j < b.windowDays
    ensures 2.0 * Gross(ws[j]) <= b.Score(ws, start).turnover
  {
    hide Gross, Sum;
    TradedInto(b, ws, start, j);
    TradedOut(b, ws, start, j, b.windowDays);
    assert b.TradedBy(ws, start)[..b.windowDays] == b.TradedBy(ws, start);
  }

  lemma {:induction false} TradedAtMost(b: Backtester, ws: seq<Vec>, start: nat, grosses: Vec, k: nat)
    requires b.Path(ws, start) && 0 < k <= |ws|
    requires |grosses| == |ws| && forall o :: 0 <= o < |ws| ==> grosses[o] == Gross(ws[o])
    ensures Sum(b.TradedBy(ws, start)[..k]) + Gross(ws[k - 1]) <= 2.0 * Sum(grosses[..k])
  {
    hide Gross, Sum, Backtester.Trades;
    TradeIsNorm(b, ws, start, k - 1);
    SumPrefix(b.TradedBy(ws, start), k - 1);
    SumPrefix(grosses, k - 1);
    if k == 1 {
      GrossOfZeros(b.Symbols());
      SumEmpty(b.TradedBy(ws, start));
      SumEmpty(grosses);
    } else {
      TradedAtMost(b, ws, start, grosses, k - 1);
    }
  }

  /** Turnover is at most twice the summed gross exposure, hence bounded by the caps. */
  lemma TurnoverAtMost(b: Backtester, ws: seq<Vec>, start: nat, init: InitializeFrame)
    requires b.Priced() && b.Path(ws, start)
    requires forall o :: 0 <= o < |ws| ==> Admissible(ws[o], init)
    ensures b.Score(ws, start).turnover <= 2.0 * Sum(b.Score(ws, start).gross)
    ensures b.Score(ws, start).turnover <= 2.0 * b.windowDays as real * (init.maxGross + WEIGHT_TOLERANCE)
  {
    hide Gross, Sum;
    var grosses := b.Score(ws, start).gross;
    TradedAtMost(b, ws, start, grosses, b.windowDays);
    assert b.TradedBy(ws, start)[..b.windowDays] == b.TradedBy(ws, start);
    assert grosses[..b.windowDays] == grosses;
    SumAtMost(grosses, init.maxGross + WEIGHT_TOLERANCE);
  }

  // ----- exposure diagnostics

  /** On every session: no effective positions without exposure; otherwise between one and
      the number of symbols, and the gross is at most the largest weight times the count. */
  lemma ExposureOfSession(b: Backtester, ws: seq<Vec>, start: nat, o: nat)
    requires b.Priced() && b.Path(ws, start) && o < b.windowDays
    ensures var s := b.Score(ws, start);
            && 0.0 <= s.gross[o]
            && (s.gross[o] == 0.0 ==> s.effective[o] == 0.0 && s.maxWeight[o] == 0.0 && !s.meaningful[o])
            && (0.0 < s.gross[o] ==> 1.0 <= s.effective[o] <= b.Symbols() as real)
            && s.gross[o] <= s.maxWeight[o] * s.effective[o]
  {
    hide Sum, Backtester.NetReturn, Backtester.Turnover;
    var w := ws[o];
    GrossNonNegative(w);
    GrossZero(w);
    if 0.0 < Gross(w) {
      EffectivePositions(w);
    }
  }

  lemma {:induction false} SelectedWithin(values: Vec, mask: seq<bool>, low: real, high: real)
    requires |values| == |mask|
    requires forall i :: 0 <= i < |values| && mask[i] ==> low <= values[i] <= high
    ensures forall i :: 0 <= i < |Select(values, mask)| ==> low <= Select(values, mask)[i] <= high
  {
    if |values| != 0 {
      var n := |values| - 1;
      SelectedWithin(values[..n], mask[..n], low, high);
    }
  }

  lemma SumAtLeast(v: Vec, bound: real)
    requires forall i :: 0 <= i < |v| ==> bound <= v[i]
    ensures |v| as real * bound <= Sum(v)
  {
    hide Sum;
    var negated := Scaled(-1.0, v);
    SumAtMost(negated, -bound);
    ScaledSum(-1.0, v);
    assert |v| as real * -bound == -(|v| as real * bound);
  }

  lemma MeanWithin(v: Vec, low: real, high: real)
    requires v != []
    requires forall i :: 0 <= i < |v| ==> low <= v[i] <= high
    ensures low <= Mean(v) <= high
  {
    hide Sum;
    SumAtLeast(v, low);
    SumAtMost(v, high);
    var n := |v| as real;
    assert Mean(v) * n == Sum(v);
    Cancel(low, Mean(v), n);
    Cancel(Mean(v), high, n);
  }

  /** The cash fraction is what the capped gross exposure leaves. */
  lemma CashComplementsExposure(gross: Vec)
    requires gross != [] && forall t :: 0 <= t < |gross| ==> 0.0 <= gross[t]
    ensures Mean(Uninvested(gross)) + Mean(Capped(gross)) == 1.0
  {
    hide Sum;
    var n := |gross|;
    var ones: Vec := seq(n, _ => 1.0);
    SumAdds(Uninvested(gross), Capped(gross), ones);
    SumAtMost(ones, 1.0);
    SumAtLeast(ones, 1.0);
    DivideSum(Sum(Uninvested(gross)), Sum(Capped(gross)), n as real);
  }

  lemma DivideSum(x: real, y: real, n: real)
    requires 0.0 < n && x + y == n
    ensures x / n + y / n == 1.0
  {
    assert x / n + y / n == (x + y) / n;
  }

  function Capped(gross: Vec): Vec {
    seq(|gross|, t requires 0 <= t < |gross| => Min(gross[t], 1.0))
  }

  /** Results that scoring some path of portfolios produced. */
  ghost predicate IsScore(b: Backtester, w: WindowResult) {
    b.Priced() && exists ws, start :: b.Path(ws, start) && w == b.Score(ws, start)
  }

  /** The exposure facts of a window that survive flattening. */
  predicate AllExposed(w: WindowResult, size: nat, n: nat)
    requires w.Covers(size)
  {
    forall j :: 0 <= j < size ==>
      0.0 <= w.gross[j] && (w.meaningful[j] ==> 1.0 <= w.effective[j] <= n as real)
  }

  lemma ScoreExposed(b: Backtester, w: WindowResult)
    requires IsScore(b, w)
    ensures w.Covers(b.windowDays)
    ensures AllExposed(w, b.windowDays, b.Symbols())
  {
    hide Backtester.Score;
    var ws, start :| b.Path(ws, start) && w == b.Score(ws, start);
    forall j | 0 <= j < b.windowDays
      ensures 0.0 <= w.gross[j] && (w.meaningful[j] ==> 1.0 <= w.effective[j] <= b.Symbols() as real)
    {
      ExposureOfSession(b, ws, start, j);
    }
  }

  lemma {:induction false} ColumnsExposed(results: seq<WindowResult>, size: nat, n: nat)
    requires forall i :: 0 <= i < |results| ==> results[i].Covers(size)
    requires forall i :: 0 <= i < |results| ==> AllExposed(results[i], size, n)
    requires PerSession(GrossOf, size) && PerSession(MeaningfulOf, size) && PerSession(EffectiveOf, size)
    ensures var gross, mask := Column(results, GrossOf, size), Column(results, MeaningfulOf, size);
            var effective := Column(results, EffectiveOf, size);
            && |gross| == |mask| == |effective|
            && forall t :: 0 <= t < |gross| ==>
                 0.0 <= gross[t] && (mask[t] ==> 1.0 <= effective[t] <= n as real)
  {
    if results != [] {
      var last := |results| - 1;
      ColumnsExposed(results[..last], size, n);
      assert AllExposed(results[last], size, n);
    }
  }

  /** Over a whole evaluation: the effective position count is 0 or between 1 and the number
      of symbols, and the cash fraction is one minus the mean of the capped gross exposure. */
  lemma ExposureOfSummary(b: Backtester, results: seq<WindowResult>)
    requires b.Valid() && b.AllCover(results)
    requires forall i :: 0 <= i < |results| ==> IsScore(b, results[i])
    ensures var s, all := b.Summarize(results), b.AllSessions(results);
            && (s.effectivePositionCount == 0.0 || 1.0 <= s.effectivePositionCount <= b.Symbols() as real)
            && all.gross != []
            && s.cashFraction + Mean(Capped(all.gross)) == 1.0
  {
    forall i | 0 <= i < |results|
      ensures AllExposed(results[i], b.windowDays, b.Symbols())
    {
      ScoreExposed(b, results[i]);
    }
    FieldsArePerSession(b.windowDays);
    ColumnsExposed(results, b.windowDays, b.Symbols());
    ProductMonotone(1, b.windows, b.windowDays);
    SummaryWithin(b, results);
  }

  lemma SummaryWithin(b: Backtester, results: seq<WindowResult>)
    requires b.Valid() && b.AllCover(results)
    requires var all := b.AllSessions(results);
             && all.gross != []
             && forall t :: 0 <= t < |all.gross| ==>
                  0.0 <= all.gross[t] && (all.meaningful[t] ==> 1.0 <= all.effective[t] <= b.Symbols() as real)
    ensures var s, all := b.Summarize(results), b.AllSessions(results);
            && (s.effectivePositionCount == 0.0 || 1.0 <= s.effectivePositionCount <= b.Symbols() as real)
            && s.cashFraction + Mean(Capped(all.gross)) == 1.0
  {
    hide Backtester.AllSessions, Sum, Mean;
    var all := b.AllSessions(results);
    SelectedMeanWithin(all.effective, all.meaningful, b.Symbols() as real);
    CashComplementsExposure(all.gross);
  }

  lemma SelectedMeanWithin(values: Vec, mask: seq<bool>, high: real)
    requires |values| == |mask|
    requires forall t :: 0 <= t < |values| && mask[t] ==> 1.0 <= values[t] <= high
    ensures MeanOrZero(Select(values, mask)) == 0.0 || 1.0 <= MeanOrZero(Select(values, mask)) <= high
  {
    hide Sum;
    SelectedWithin(values, mask, 1.0, high);
    if Select(values, mask) != [] {
      MeanWithin(Select(values, mask), 1.0, high);
    }
  }

  // ----- tiling

  /** No gap: every session of the scoring horizon is some session o of some window i. */
  lemma WindowsCover(b: Backtester, asOf: nat, day: nat) returns (i: nat, o: nat)
    requires b.Valid() && b.ValidateHorizon(asOf).None?
    requires asOf <= day < asOf + b.windows * b.windowDays
    ensures i < b.windows && o < b.windowDays
    ensures b.WindowStart(asOf, i) + o == day
  {
    hide Backtester.Priced;
    i, o := SessionOf(day - asOf, b.windowDays, b.windows);
  }

  lemma SessionOf(t: nat, d: nat, n: nat) returns (i: nat, o: nat)
    requires 0 < d && t < n * d
    ensures i < n && o < d && i * d + o == t
  {
    Divides(t, d, n);
    i, o := t / d, t % d;
  }

  lemma Divides(t: nat, d: nat, n: nat)
    requires 0 < d && t < n * d
    ensures t == t / d * d + t % d && t % d < d && t / d < n
  {
    if n <= t / d {
      ProductMonotone(n, t / d, d);
    }
  }

  lemma ProductMonotone(x: nat, y: nat, d: nat)
    requires x <= y
    ensures x * d <= y * d
  {
    assert (y - x) * d >= 0;
  }

  /** No overlap: a session belongs to one window only, at one offset. */
  lemma WindowsAreDisjoint(b: Backtester, asOf: nat, i: nat, o: nat, j: nat, q: nat)
    requires o < b.windowDays && q < b.windowDays
    requires b.WindowStart(asOf, i) + o == b.WindowStart(asOf, j) + q
    ensures i == j && o == q
  {
    if i < j {
      ProductMonotone(i + 1, j, b.windowDays);
    } else if j < i {
      ProductMonotone(j + 1, i, b.windowDays);
    }
  }

  /** A window's request: valid, with the backtester's symbols, caps and limits and a seed of
      its own, warm-up plus window days less one bars, bar k being market session
      start - warmup + k, and the last session of the window never among them. */
  lemma RequestShape(b: Backtester, program: CandidateProgram, asOf: nat, i: nat)
    requires b.Valid() && b.ValidateHorizon(asOf).None? && i < b.windows
    ensures var r, start := b.WindowRequest(program, asOf, i), b.WindowStart(asOf, i);
            && b.warmupDays <= start && start + b.windowDays <= |b.market.rows|
            && r.Valid()
            && r.program == program && r.limits == b.limits
            && r.init.symbols == b.market.symbols && r.init.seed == b.seed + i
            && r.init.maxGross == b.maxGross && r.init.maxAbsWeight == b.maxAbsWeight
            && r.init.allowShort == b.allowShort
            && |r.bars| == b.warmupDays + b.windowDays - 1
            && (forall k :: 0 <= k < |r.bars| ==>
                  r.bars[k] == BarFrame(k, b.market.rows[start - b.warmupDays + k]))
  {
    b.WindowInHorizon(asOf, i);
  }

  /** Session j of window i is entry i * windowDays + j of every flattened series. */
  lemma {:induction false} ColumnAt<T(!new)>(results: seq<WindowResult>, field: WindowResult -> seq<T>, size: nat,
                                       i: nat, j: nat)
    requires forall k :: 0 <= k < |results| ==> results[k].Covers(size)
    requires PerSession(field, size)
    requires i < |results| && j < size
    ensures i * size + j < |Column(results, field, size)|
    ensures Column(results, field, size)[i * size + j] == field(results[i])[j]
  {
    var n := |results| - 1;
    var before := Column(results[..n], field, size);
    if i < n {
      ColumnAt(results[..n], field, size, i, j);
    }
    assert Column(results, field, size) == before + field(results[n]);
  }

  lemma SummaryDaily(b: Backtester, results: seq<WindowResult>)
    requires b.Valid() && b.AllCover(results)
    ensures PerSession(DailyOf, b.windowDays)
    ensures b.Summarize(results).daily == Column(results, DailyOf, b.windowDays)
  {
    hide Sum, Mean, Select, Count;
    FieldsArePerSession(b.windowDays);
  }

  lemma FlattenedReturns(b: Backtester, results: seq<WindowResult>, i: nat, j: nat)
    requires b.Valid() && b.AllCover(results)
    requires i < b.windows && j < b.windowDays
    ensures var t, daily := i * b.windowDays + j, b.Summarize(results).daily;
            0 <= t < |daily| && daily[t] == results[i].daily[j]
  {
    FieldsArePerSession(b.windowDays);
    hide Backtester.Summarize, Backtester.Valid, Column;
    SummaryDaily(b, results);
    ColumnAt(results, DailyOf, b.windowDays, i, j);
    ProductMonotone(0, i, b.windowDays);
  }
}
