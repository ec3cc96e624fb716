/** A whole evaluation's report, field by field, from the portfolios the sandboxes answered and
    the market rows. */
module Reports {
  import opened Wrappers
  import opened Vectors
  import opened Protocol
  import opened Executors
  import opened Backtest
  import opened Positions
  import Accounting

  // ----- the portfolios of an evaluation

  function StartOf(b: Backtester, asOf: nat, i: nat): nat {
    asOf + i * b.windowDays
  }

  /** One path of portfolios per window. */
  predicate Played(b: Backtester, paths: seq<seq<Vec>>, asOf: nat) {
    |paths| == b.windows && forall i :: 0 <= i < |paths| ==> b.Path(paths[i], StartOf(b, asOf, i))
  }

  /** The portfolios of a window: those answered from its last warm-up bar on. */
  predicate Answered(b: Backtester, ws: seq<Vec>, frames: seq<FrameOutcome>) {
    && 1 <= b.warmupDays && |frames| == b.warmupDays - 1 + b.windowDays
    && |ws| == b.windowDays
    && forall o :: 0 <= o < b.windowDays ==>
         |ws[o]| == |frames[b.warmupDays - 1 + o].weights|
         && forall k :: 0 <= k < |ws[o]| ==> frames[b.warmupDays - 1 + o].weights[k] == Finite(ws[o][k])
  }

  // ----- what the report must say

  function TradedByWindow(b: Backtester, paths: seq<seq<Vec>>, asOf: nat): Vec
    requires b.Priced() && Played(b, paths, asOf)
  {
    seq(|paths|, i requires 0 <= i < |paths| => Traded(b, paths[i], StartOf(b, asOf, i)))
  }

  function CarryByWindow(b: Backtester, paths: seq<seq<Vec>>, asOf: nat): Vec
    requires b.Priced() && Played(b, paths, asOf)
  {
    seq(|paths|, i requires 0 <= i < |paths| => CarryEarned(b, paths[i], StartOf(b, asOf, i)))
  }

  function SpotByWindow(b: Backtester, paths: seq<seq<Vec>>, asOf: nat): Vec
    requires b.Priced() && Played(b, paths, asOf)
  {
    seq(|paths|, i requires 0 <= i < |paths| => SpotEarned(b, paths[i], StartOf(b, asOf, i)))
  }

  function SpreadByWindow(b: Backtester, paths: seq<seq<Vec>>, asOf: nat): Vec
    requires b.Priced() && Played(b, paths, asOf)
  {
    seq(|paths|, i requires 0 <= i < |paths| => SpreadPaid(b, paths[i], StartOf(b, asOf, i)))
  }

  function EarnedByWindow(b: Backtester, paths: seq<seq<Vec>>, asOf: nat): Vec
    requires b.Priced() && Played(b, paths, asOf)
  {
    seq(|paths|, i requires 0 <= i < |paths| => Earned(b, paths[i], StartOf(b, asOf, i)))
  }

  function Size(w: Vec): real {
    Sum(SizeBy(w))
  }

  function Uncovered(w: Vec): real {
    if Size(w) < 1.0 then 1.0 - Size(w) else 0.0
  }

  function EffectiveNumber(w: Vec): real {
    if Sum(SquareBy(w)) == 0.0 then 0.0 else Size(w) * Size(w) / Sum(SquareBy(w))
  }

  /** A figure of every session of every window, added up. */
  function OverSessions(paths: seq<seq<Vec>>, figure: Vec -> real): real {
    Sum(seq(|paths|, i requires 0 <= i < |paths| => Sum(Figures(paths[i], figure))))
  }

  function Figures(ws: seq<Vec>, figure: Vec -> real): Vec {
    seq(|ws|, o requires 0 <= o < |ws| => figure(ws[o]))
  }

  /** The figure on active sessions, nothing on the others. */
  function WhenActive(threshold: real, figure: Vec -> real): Vec -> real {
    w => if Active(w, threshold) then figure(w) else 0.0
  }

  function One(w: Vec): real {
    1.0
  }

  function ActiveWindows(paths: seq<seq<Vec>>, threshold: real): set<nat> {
    set i: nat | i < |paths| && exists o :: 0 <= o < |paths[i]| && Active(paths[i][o], threshold)
  }

  /** No weight held exceeds it, and one attains it. */
  predicate IsLargestOfAll(paths: seq<seq<Vec>>, largest: real) {
    && (forall i, o, k :: 0 <= i < |paths| && 0 <= o < |paths[i]| && 0 <= k < |paths[i][o]| ==> Abs(paths[i][o][k]) <= largest)
    && exists i, o, k :: 0 <= i < |paths| && 0 <= o < |paths[i]| && 0 <= k < |paths[i][o]| && Abs(paths[i][o][k]) == largest
  }

  predicate TradingReported(b: Backtester, paths: seq<seq<Vec>>, asOf: nat, s: BacktestResult)
    requires b.Priced() && Played(b, paths, asOf)
  {
    && s.turnover == Sum(TradedByWindow(b, paths, asOf))
    && s.carryContribution == Sum(CarryByWindow(b, paths, asOf))
    && |s.daily| == b.windows * b.windowDays
    && forall i, o :: 0 <= i < b.windows && 0 <= o < b.windowDays ==> DayReported(b, paths, asOf, s, i, o)
  }

  predicate DayReported(b: Backtester, paths: seq<seq<Vec>>, asOf: nat, s: BacktestResult, i: nat, o: nat)
    requires b.Priced() && Played(b, paths, asOf) && i < b.windows && o < b.windowDays
  {
    var t := i * b.windowDays + o;
    t < |s.daily| && s.daily[t] == Max(-0.99, Sum(EarnedBy(b, paths[i], StartOf(b, asOf, i), o)))
  }

  /** Means are told by what they add up to over all sessions, or over the active ones. */
  predicate ExposureReported(b: Backtester, paths: seq<seq<Vec>>, s: BacktestResult) {
    var sessions := (b.windows * b.windowDays) as real;
    var active := OverSessions(paths, WhenActive(b.meaningfulWeight, One));
    && s.averageGross * sessions == OverSessions(paths, Size)
    && s.cashFraction * sessions == OverSessions(paths, Uncovered)
    && s.activeSessionFraction * sessions == active
    && s.meanActiveGross * active == OverSessions(paths, WhenActive(b.meaningfulWeight, Size))
    && s.effectivePositionCount * active == OverSessions(paths, WhenActive(b.meaningfulWeight, EffectiveNumber))
    && (active == 0.0 ==> s.meanActiveGross == 0.0 && s.effectivePositionCount == 0.0)
    && s.activeWindows == |ActiveWindows(paths, b.meaningfulWeight)|
    && IsLargestOfAll(paths, s.maxWeight)
  }

  // ----- flattening adds up

  lemma {:induction false} SumJoins(x: Vec, y: Vec)
    ensures Sum(x + y) == Sum(x) + Sum(y)
  {
    if y == [] {
      assert x + y == x;
    } else {
      var n := |y| - 1;
      SumJoins(x, y[..n]);
      assert (x + y)[..|x| + n] == x + y[..n];
    }
  }

  predicate Scored(b: Backtester, results: seq<WindowResult>, paths: seq<seq<Vec>>, asOf: nat) {
    && b.Priced() && Played(b, paths, asOf) && |results| == |paths|
    && forall i :: 0 <= i < |results| ==> results[i] == b.Score(paths[i], StartOf(b, asOf, i))
  }

  /** A per-session field that is this figure of the session's portfolio. */
  ghost predicate Shows(results: seq<WindowResult>, paths: seq<seq<Vec>>, field: WindowResult -> Vec, figure: Vec -> real) {
    |results| == |paths| && forall i :: 0 <= i < |results| ==> field(results[i]) == Figures(paths[i], figure)
  }

  lemma {:induction false} ColumnAddsUp(results: seq<WindowResult>, paths: seq<seq<Vec>>, size: nat,
                                        field: WindowResult -> Vec, figure: Vec -> real)
    requires forall i :: 0 <= i < |results| ==> results[i].Covers(size)
    requires PerSession(field, size) && Shows(results, paths, field, figure)
    ensures Sum(Column(results, field, size)) == OverSessions(paths, figure)
  {
    hide Sum;
    if results == [] {
      SumEmpty([]);
      assert Column(results, field, size) == [][..0];
      EmptyOver(paths, figure);
    } else {
      var n := |results| - 1;
      ColumnAddsUp(results[..n], paths[..n], size, field, figure);
      SumJoins(Column(results[..n], field, size), field(results[n]));
      OverNext(paths, figure);
    }
  }

  lemma EmptyOver(paths: seq<seq<Vec>>, figure: Vec -> real)
    requires paths == []
    ensures OverSessions(paths, figure) == 0.0
  {
  }

  lemma OverNext(paths: seq<seq<Vec>>, figure: Vec -> real)
    requires paths != []
    ensures OverSessions(paths, figure) == OverSessions(paths[..|paths| - 1], figure) + Sum(Figures(paths[|paths| - 1], figure))
  {
    var n := |paths| - 1;
    var all := seq(|paths|, i requires 0 <= i < |paths| => Sum(Figures(paths[i], figure)));
    var before := seq(n, i requires 0 <= i < n => Sum(Figures(paths[..n][i], figure)));
    assert all[..n] == before;
  }

  function Masked(values: Vec, mask: seq<bool>): Vec
    requires |values| == |mask|
  {
    seq(|values|, k requires 0 <= k < |values| => if mask[k] then values[k] else 0.0)
  }

  function Ones(mask: seq<bool>): Vec {
    seq(|mask|, k requires 0 <= k < |mask| => if mask[k] then 1.0 else 0.0)
  }

  lemma {:induction false} SelectAddsUp(values: Vec, mask: seq<bool>)
    requires |values| == |mask|
    ensures Sum(Select(values, mask)) == Sum(Masked(values, mask))
    ensures |Select(values, mask)| == Count(mask)
    ensures Count(mask) as real == Sum(Ones(mask))
  {
    if values != [] {
      var n := |values| - 1;
      SelectAddsUp(values[..n], mask[..n]);
      assert Masked(values, mask)[..n] == Masked(values[..n], mask[..n]);
      assert Ones(mask)[..n] == Ones(mask[..n]);
      SumJoins(Select(values[..n], mask[..n]), if mask[n] then [values[n]] else []);
    }
  }

  /** The sessions marked meaningful are the active ones. */
  predicate Marked(results: seq<WindowResult>, paths: seq<seq<Vec>>, threshold: real) {
    && |results| == |paths|
    && forall i :: 0 <= i < |results| ==> MarkedAt(results[i].meaningful, paths[i], threshold)
  }

  predicate MarkedAt(mask: seq<bool>, ws: seq<Vec>, threshold: real) {
    |mask| == |ws| && forall o :: 0 <= o < |ws| ==> (mask[o] <==> Active(ws[o], threshold))
  }

  lemma MaskedFigures(values: Vec, mask: seq<bool>, ws: seq<Vec>, threshold: real, figure: Vec -> real)
    requires values == Figures(ws, figure) && MarkedAt(mask, ws, threshold)
    ensures Masked(values, mask) == Figures(ws, WhenActive(threshold, figure))
    ensures Ones(mask) == Figures(ws, WhenActive(threshold, One))
  {
    hide Active;
    forall o | 0 <= o < |ws|
      ensures Ones(mask)[o] == Figures(ws, WhenActive(threshold, One))[o]
    {
      assert One(ws[o]) == 1.0;
    }
  }

  lemma MaskedJoins(x: Vec, y: Vec, m: seq<bool>, k: seq<bool>)
    requires |x| == |m| && |y| == |k|
    ensures Masked(x + y, m + k) == Masked(x, m) + Masked(y, k)
    ensures Ones(m + k) == Ones(m) + Ones(k)
  {
  }

  lemma {:induction false} ActiveColumnAddsUp(results: seq<WindowResult>, paths: seq<seq<Vec>>, size: nat,
                                              field: WindowResult -> Vec, figure: Vec -> real, threshold: real)
    requires forall i :: 0 <= i < |results| ==> results[i].Covers(size)
    requires PerSession(field, size) && PerSession(MeaningfulOf, size)
    requires Shows(results, paths, field, figure) && Marked(results, paths, threshold)
    ensures var values, mask := Column(results, field, size), Column(results, MeaningfulOf, size);
            && Sum(Masked(values, mask)) == OverSessions(paths, WhenActive(threshold, figure))
            && Sum(Ones(mask)) == OverSessions(paths, WhenActive(threshold, One))
  {
    hide Sum, OverSessions, Masked, Ones, MarkedAt, Figures;
    if results == [] {
      NothingMasked();
      EmptyOver(paths, WhenActive(threshold, figure));
      EmptyOver(paths, WhenActive(threshold, One));
    } else {
      var n := |results| - 1;
      var values, mask := Column(results[..n], field, size), Column(results[..n], MeaningfulOf, size);
      ActiveColumnAddsUp(results[..n], paths[..n], size, field, figure, threshold);
      MaskedJoins(values, field(results[n]), mask, results[n].meaningful);
      MaskedFigures(field(results[n]), results[n].meaningful, paths[n], threshold, figure);
      SumJoins(Masked(values, mask), Masked(field(results[n]), results[n].meaningful));
      SumJoins(Ones(mask), Ones(results[n].meaningful));
      OverNext(paths, WhenActive(threshold, figure));
      OverNext(paths, WhenActive(threshold, One));
    }
  }

  lemma NothingMasked()
    ensures Sum(Masked([], [])) == 0.0 && Sum(Ones([])) == 0.0
  {
  }

  // ----- the fields of the report

  lemma ScoresShow(b: Backtester, results: seq<WindowResult>, paths: seq<seq<Vec>>, asOf: nat)
    requires Scored(b, results, paths, asOf)
    ensures Shows(results, paths, GrossOf, Size) && Shows(results, paths, EffectiveOf, EffectiveNumber)
    ensures Marked(results, paths, b.meaningfulWeight)
    ensures forall i, o :: 0 <= i < |paths| && 0 <= o < b.windowDays ==> IsLargest(paths[i][o], results[i].maxWeight[o])
  {
    hide Backtester.Score, Size, EffectiveNumber, Active, IsLargest;
    forall i | 0 <= i < |results|
      ensures GrossOf(results[i]) == Figures(paths[i], Size)
      ensures EffectiveOf(results[i]) == Figures(paths[i], EffectiveNumber)
      ensures MarkedAt(results[i].meaningful, paths[i], b.meaningfulWeight)
      ensures forall o :: 0 <= o < b.windowDays ==> IsLargest(paths[i][o], results[i].maxWeight[o])
    {
      forall o | 0 <= o < b.windowDays
        ensures results[i].gross[o] == Size(paths[i][o])
        ensures results[i].effective[o] == EffectiveNumber(paths[i][o])
        ensures results[i].meaningful[o] <==> Active(paths[i][o], b.meaningfulWeight)
        ensures IsLargest(paths[i][o], results[i].maxWeight[o])
      {
        SessionExposure(b, paths[i], StartOf(b, asOf, i), o);
        EffectiveIs(paths[i][o], results[i].effective[o]);
        SizeIs(paths[i][o]);
      }
    }
  }

  lemma SizeIs(w: Vec)
    ensures Size(w) == Sum(SizeBy(w))
  {
  }

  lemma EffectiveIs(w: Vec, count: real)
    requires IsEffectiveCount(w, count)
    ensures count == EffectiveNumber(w)
  {
    hide Sum;
    if Size(w) == 0.0 {
      assert SizeBy(w) == AbsAll(w);
      GrossZero(w);
      SumOfZeros(SquareBy(w));
    } else {
      DividesTo(count, Sum(SquareBy(w)), Size(w) * Size(w));
    }
  }

  lemma DividesTo(count: real, q: real, g: real)
    requires 0.0 < q && count * q == g
    ensures g / q == count
  {
  }

  lemma MeanTimesCount(v: Vec)
    requires v != []
    ensures Mean(v) * |v| as real == Sum(v)
  {
  }

  /** The exposure means: gross and cash over all sessions, the others over the active ones. */
  lemma MeansAreReported(b: Backtester, results: seq<WindowResult>, paths: seq<seq<Vec>>, asOf: nat)
    requires b.Valid() && b.AllCover(results) && Scored(b, results, paths, asOf)
    ensures var s := b.Summarize(results);
            var sessions := (b.windows * b.windowDays) as real;
            var active := OverSessions(paths, WhenActive(b.meaningfulWeight, One));
            && s.averageGross * sessions == OverSessions(paths, Size)
            && s.cashFraction * sessions == OverSessions(paths, Uncovered)
            && s.activeSessionFraction * sessions == active
            && s.meanActiveGross * active == OverSessions(paths, WhenActive(b.meaningfulWeight, Size))
            && s.effectivePositionCount * active == OverSessions(paths, WhenActive(b.meaningfulWeight, EffectiveNumber))
            && (active == 0.0 ==> s.meanActiveGross == 0.0 && s.effectivePositionCount == 0.0)
  {
    hide Sum, Mean, OverSessions, Select, Count, Column, Backtester.Score, Scored;
    FieldsArePerSession(b.windowDays);
    ScoresShow(b, results, paths, asOf);
    var size, threshold := b.windowDays, b.meaningfulWeight;
    var gross, mask := Column(results, GrossOf, size), Column(results, MeaningfulOf, size);
    var effective := Column(results, EffectiveOf, size);
    Accounting.ProductMonotone(1, b.windows, size);
    ColumnAddsUp(results, paths, size, GrossOf, Size);
    MeanTimesCount(gross);
    CashAddsUp(b, results, paths, asOf);
    MeanTimesCount(Uninvested(gross));
    ActiveColumnAddsUp(results, paths, size, GrossOf, Size, threshold);
    ActiveColumnAddsUp(results, paths, size, EffectiveOf, EffectiveNumber, threshold);
    SelectAddsUp(gross, mask);
    SelectAddsUp(effective, mask);
    SelectedMean(gross, mask);
    SelectedMean(effective, mask);
    FractionTimesCount(Count(mask), |mask|);
  }

  lemma FractionTimesCount(k: nat, n: nat)
    requires 0 < n
    ensures k as real / n as real * n as real == k as real
  {
  }

  lemma SelectedMean(values: Vec, mask: seq<bool>)
    requires |values| == |mask|
    ensures var picked := Select(values, mask);
            && MeanOrZero(picked) * |picked| as real == Sum(picked)
            && (picked == [] ==> MeanOrZero(picked) == 0.0)
  {
    hide Select, Mean;
    if Select(values, mask) != [] {
      MeanTimesCount(Select(values, mask));
    } else {
      assert Sum(Select(values, mask)) == 0.0;
    }
  }

  lemma {:induction false} UninvestedJoins(x: Vec, y: Vec)
    ensures Uninvested(x + y) == Uninvested(x) + Uninvested(y)
  {
  }

  lemma {:induction false} CashColumnAddsUp(results: seq<WindowResult>, paths: seq<seq<Vec>>, size: nat)
    requires forall i :: 0 <= i < |results| ==> results[i].Covers(size)
    requires PerSession(GrossOf, size) && Shows(results, paths, GrossOf, Size)
    ensures Sum(Uninvested(Column(results, GrossOf, size))) == OverSessions(paths, Uncovered)
  {
    hide Sum, OverSessions, Uninvested, Figures, Size, Uncovered;
    if results == [] {
      NothingUninvested();
      EmptyOver(paths, Uncovered);
    } else {
      var n := |results| - 1;
      CashColumnAddsUp(results[..n], paths[..n], size);
      UninvestedJoins(Column(results[..n], GrossOf, size), results[n].gross);
      UninvestedFigures(results[n].gross, paths[n]);
      SumJoins(Uninvested(Column(results[..n], GrossOf, size)), Uninvested(results[n].gross));
      OverNext(paths, Uncovered);
    }
  }

  lemma NothingUninvested()
    ensures Sum(Uninvested([])) == 0.0
  {
  }

  lemma UninvestedFigures(gross: Vec, ws: seq<Vec>)
    requires gross == Figures(ws, Size)
    ensures Uninvested(gross) == Figures(ws, Uncovered)
  {
    hide Sum;
    forall o | 0 <= o < |ws|
      ensures Uninvested(gross)[o] == Uncovered(ws[o])
    {
      SumNonNegative(SizeBy(ws[o]));
    }
  }

  lemma CashAddsUp(b: Backtester, results: seq<WindowResult>, paths: seq<seq<Vec>>, asOf: nat)
    requires b.AllCover(results) && Scored(b, results, paths, asOf)
    requires PerSession(GrossOf, b.windowDays)
    ensures Sum(Uninvested(Column(results, GrossOf, b.windowDays))) == OverSessions(paths, Uncovered)
  {
    ScoresShow(b, results, paths, asOf);
    CashColumnAddsUp(results, paths, b.windowDays);
  }

  function Marks(mask: seq<bool>): set<nat> {
    set k: nat | k < |mask| && mask[k]
  }

  lemma {:induction false} CountIsHowMany(mask: seq<bool>)
    ensures Count(mask) == |Marks(mask)|
  {
    if mask == [] {
      assert Marks(mask) == {};
    } else {
      var n := |mask| - 1;
      CountIsHowMany(mask[..n]);
      assert Marks(mask) == Marks(mask[..n]) + if mask[n] then {n} else {};
    }
  }

  lemma ActiveWindowsAreReported(b: Backtester, results: seq<WindowResult>, paths: seq<seq<Vec>>, asOf: nat)
    requires b.Valid() && b.AllCover(results) && Scored(b, results, paths, asOf)
    ensures b.Summarize(results).activeWindows == |ActiveWindows(paths, b.meaningfulWeight)|
  {
    hide Sum, Mean, Select, Count, Column, Backtester.Score, Scored, Active;
    ScoresShow(b, results, paths, asOf);
    var mask := seq(|results|, i requires 0 <= i < |results| => true in results[i].meaningful);
    CountIsHowMany(mask);
    forall i: nat | i < |results|
      ensures mask[i] <==> i in ActiveWindows(paths, b.meaningfulWeight)
    {
      assert MarkedAt(results[i].meaningful, paths[i], b.meaningfulWeight);
    }
    assert Marks(mask) == ActiveWindows(paths, b.meaningfulWeight);
  }

  lemma LargestIsReported(b: Backtester, results: seq<WindowResult>, paths: seq<seq<Vec>>, asOf: nat)
    requires b.Valid() && b.AllCover(results) && Scored(b, results, paths, asOf)
    ensures IsLargestOfAll(paths, b.Summarize(results).maxWeight)
  {
    hide Sum, Mean, Select, Count, Column, MaxOf, Backtester.Score;
    FieldsArePerSession(b.windowDays);
    ScoresShow(b, results, paths, asOf);
    var largest := Column(results, MaxWeightOf, b.windowDays);
    MaxOfBounds(largest, 0.0);
    SummaryLargest(b, results);
    var m := b.Summarize(results).maxWeight;
    hide Backtester.Summarize;
    forall i, o, k | 0 <= i < |paths| && 0 <= o < |paths[i]| && 0 <= k < |paths[i][o]|
      ensures Abs(paths[i][o][k]) <= m
    {
      assert IsLargest(paths[i][o], results[i].maxWeight[o]);
      Accounting.ColumnAt(results, MaxWeightOf, b.windowDays, i, o);
      InsideColumn(i, b.windowDays, o);
    }
    LargestAttained(b, results, paths, m);
  }

  lemma InsideColumn(i: nat, d: nat, o: nat)
    ensures 0 <= i * d + o
  {
  }

  lemma SummaryLargest(b: Backtester, results: seq<WindowResult>)
    requires b.Valid() && b.AllCover(results)
    ensures PerSession(MaxWeightOf, b.windowDays)
    ensures b.Summarize(results).maxWeight == MaxOf(Column(results, MaxWeightOf, b.windowDays), 0.0)
  {
    hide Sum, Mean, Select, Count, Column, MaxOf;
    FieldsArePerSession(b.windowDays);
  }

  lemma LargestAttained(b: Backtester, results: seq<WindowResult>, paths: seq<seq<Vec>>, m: real)
    requires b.Valid() && b.AllCover(results) && |paths| == |results| == b.windows
    requires forall i :: 0 <= i < |paths| ==> |paths[i]| == b.windowDays
    requires forall i, o :: 0 <= i < |paths| && 0 <= o < b.windowDays ==> |paths[i][o]| == b.Symbols()
    requires forall i, o :: 0 <= i < |paths| && 0 <= o < b.windowDays ==> IsLargest(paths[i][o], results[i].maxWeight[o])
    requires PerSession(MaxWeightOf, b.windowDays)
    requires var column := Column(results, MaxWeightOf, b.windowDays); m == 0.0 || m in column
    requires forall i, o, k :: 0 <= i < |paths| && 0 <= o < |paths[i]| && 0 <= k < |paths[i][o]| ==> Abs(paths[i][o][k]) <= m
    ensures exists i, o, k :: 0 <= i < |paths| && 0 <= o < |paths[i]| && 0 <= k < |paths[i][o]| && Abs(paths[i][o][k]) == m
  {
    hide Column;
    var column := Column(results, MaxWeightOf, b.windowDays);
    if m in column {
      var t :| 0 <= t < |column| && column[t] == m;
      var i, o := Accounting.SessionOf(t, b.windowDays, b.windows);
      Accounting.ColumnAt(results, MaxWeightOf, b.windowDays, i, o);
      assert IsLargest(paths[i][o], m);
    } else {
      assert Abs(paths[0][0][0]) == 0.0;
    }
  }

  lemma TradingIsReported(b: Backtester, results: seq<WindowResult>, paths: seq<seq<Vec>>, asOf: nat)
    requires b.Valid() && b.AllCover(results) && Scored(b, results, paths, asOf)
    ensures TradingReported(b, paths, asOf, b.Summarize(results))
  {
    hide Sum, Mean, Select, Count, Column, MaxOf, Backtester.Score, Traded, CarryEarned, EarnedBy, Backtester.Valid;
    forall i | 0 <= i < |results|
      ensures results[i].turnover == Traded(b, paths[i], StartOf(b, asOf, i))
      ensures results[i].carryContribution == CarryEarned(b, paths[i], StartOf(b, asOf, i))
      ensures forall o :: 0 <= o < b.windowDays ==>
                results[i].daily[o] == Max(-0.99, Sum(EarnedBy(b, paths[i], StartOf(b, asOf, i), o)))
    {
      WindowIsEarned(b, paths[i], StartOf(b, asOf, i));
    }
    TotalsAreSummed(b, results, TradedByWindow(b, paths, asOf), CarryByWindow(b, paths, asOf));
    forall i, o | 0 <= i < b.windows && 0 <= o < b.windowDays
      ensures DayReported(b, paths, asOf, b.Summarize(results), i, o)
    {
      Accounting.FlattenedReturns(b, results, i, o);
    }
    DailyLength(b, results);
  }

  lemma DailyLength(b: Backtester, results: seq<WindowResult>)
    requires b.Valid() && b.AllCover(results)
    ensures |b.Summarize(results).daily| == b.windows * b.windowDays
  {
    hide Sum, Mean, Select, Count;
    Accounting.SummaryDaily(b, results);
  }

  lemma TotalsAreSummed(b: Backtester, results: seq<WindowResult>, traded: Vec, carried: Vec)
    requires b.Valid() && b.AllCover(results) && |traded| == |carried| == |results|
    requires forall i :: 0 <= i < |results| ==> traded[i] == results[i].turnover && carried[i] == results[i].carryContribution
    ensures b.Summarize(results).turnover == Sum(traded) && b.Summarize(results).carryContribution == Sum(carried)
  {
    hide Sum, Mean, Select, Count, Column, MaxOf;
    assert traded == seq(|results|, i requires 0 <= i < |results| => results[i].turnover);
    assert carried == seq(|results|, i requires 0 <= i < |results| => results[i].carryContribution);
  }

  lemma ExposureIsReported(b: Backtester, results: seq<WindowResult>, paths: seq<seq<Vec>>, asOf: nat)
    requires b.Valid() && b.AllCover(results) && Scored(b, results, paths, asOf)
    ensures ExposureReported(b, paths, b.Summarize(results))
  {
    hide Backtester.Summarize, OverSessions, ActiveWindows, IsLargestOfAll, Scored, Backtester.Valid;
    MeansAreReported(b, results, paths, asOf);
    ActiveWindowsAreReported(b, results, paths, asOf);
    LargestIsReported(b, results, paths, asOf);
  }

  // ----- the whole evaluation

  /** Over the whole evaluation: net of costs the positions earn the spot moves and the
      reported carry contribution, less the fee on the reported turnover and the spreads. */
  lemma ReportIsConserved(b: Backtester, paths: seq<seq<Vec>>, asOf: nat, s: BacktestResult)
    requires b.Priced() && Played(b, paths, asOf) && TradingReported(b, paths, asOf, s)
    ensures Sum(EarnedByWindow(b, paths, asOf)) ==
              Sum(SpotByWindow(b, paths, asOf)) + s.carryContribution
              - b.costBps / 10_000.0 * s.turnover - Sum(SpreadByWindow(b, paths, asOf))
  {
    hide Sum, Backtester.Score, Earned, SpotEarned, CarryEarned, Traded, SpreadPaid;
    forall i | 0 <= i < |paths|
      ensures EarnedByWindow(b, paths, asOf)[i] ==
                SpotByWindow(b, paths, asOf)[i] + CarryByWindow(b, paths, asOf)[i]
                - b.costBps / 10_000.0 * TradedByWindow(b, paths, asOf)[i] - SpreadByWindow(b, paths, asOf)[i]
    {
      EarnedIsConserved(b, paths[i], StartOf(b, asOf, i));
      WindowIsEarned(b, paths[i], StartOf(b, asOf, i));
    }
    SumOfUsual(EarnedByWindow(b, paths, asOf), SpotByWindow(b, paths, asOf), CarryByWindow(b, paths, asOf),
               b.costBps / 10_000.0, TradedByWindow(b, paths, asOf), SpreadByWindow(b, paths, asOf));
  }

  /** And the spreads paid lie between the smallest and the largest one on that turnover. */
  lemma ReportedSpreads(b: Backtester, paths: seq<seq<Vec>>, asOf: nat, s: BacktestResult, low: real, high: real)
    requires b.Priced() && Played(b, paths, asOf) && TradingReported(b, paths, asOf, s)
    requires forall i :: 0 <= i < |paths| ==> SpreadsWithin(b, StartOf(b, asOf, i), low, high)
    ensures low / 10_000.0 * s.turnover <= Sum(SpreadByWindow(b, paths, asOf)) <= high / 10_000.0 * s.turnover
  {
    hide Sum, Backtester.Score, Traded, SpreadPaid, SpreadsWithin;
    forall i | 0 <= i < |paths|
      ensures Scaled(low / 10_000.0, TradedByWindow(b, paths, asOf))[i] <= SpreadByWindow(b, paths, asOf)[i]
      ensures SpreadByWindow(b, paths, asOf)[i] <= Scaled(high / 10_000.0, TradedByWindow(b, paths, asOf))[i]
    {
      SpreadPaidWithin(b, paths[i], StartOf(b, asOf, i), low, high);
      WindowIsEarned(b, paths[i], StartOf(b, asOf, i));
    }
    Accounting.SumWithin(low / 10_000.0, high / 10_000.0, TradedByWindow(b, paths, asOf), SpreadByWindow(b, paths, asOf));
  }

  /** The portfolios an evaluation was scored on. */
  ghost predicate AllAnswered(b: Backtester, paths: seq<seq<Vec>>, results: seq<SandboxResult>) {
    |paths| == |results| && forall i :: 0 <= i < |paths| ==> Answered(b, paths[i], results[i].frames)
  }

  /** A successful evaluation reports, field by field, what the portfolios its sandboxes
      answered earned, cost, traded and held on the market rows of their windows. */
  lemma EvaluationReports(b: Backtester, executor: seq<SandboxRequest> -> SandboxResult, before: seq<SandboxRequest>,
                          after: seq<SandboxRequest>, program: CandidateProgram, asOf: nat,
                          metadata: CandidateMetadata, e: ProgramEvaluation)
    returns (paths: seq<seq<Vec>>)
    requires b.Valid() && b.ValidateHorizon(asOf).None?
    requires b.FailsClosed(executor, before, after, program, asOf, metadata, e) && e.Succeeded()
    ensures AllAnswered(b, paths, e.sandboxResults)
    ensures Played(b, paths, asOf)
    ensures TradingReported(b, paths, asOf, e.backtest.value)
    ensures ExposureReported(b, paths, e.backtest.value)
  {
    hide Backtester.Summarize, Backtester.Score, TradingReported, ExposureReported, Backtester.WindowPasses;
    var results := b.AllScores(executor, before, program, asOf);
    paths := seq(b.windows, i requires 0 <= i < b.windows => PathAnswered(b, executor, before, program, asOf, i));
    forall i | 0 <= i < b.windows
      ensures b.Path(paths[i], StartOf(b, asOf, i)) && results[i] == b.Score(paths[i], StartOf(b, asOf, i))
      ensures Answered(b, paths[i], e.sandboxResults[i].frames)
    {
      WindowScored(b, executor, before, program, asOf, i);
    }
    TradingIsReported(b, results, paths, asOf);
    ExposureIsReported(b, results, paths, asOf);
  }

  /** The portfolios of a window that passed. */
  function PathAnswered(b: Backtester, executor: seq<SandboxRequest> -> SandboxResult, before: seq<SandboxRequest>,
                        program: CandidateProgram, asOf: nat, i: nat): seq<Vec>
    requires b.Valid() && b.ValidateHorizon(asOf).None? && i < b.windows
    requires b.WindowPasses(executor, before, program, asOf, i)
  {
    b.PathOf(b.Answer(executor, before, program, asOf, i).frames)
  }

  lemma WindowScored(b: Backtester, executor: seq<SandboxRequest> -> SandboxResult, before: seq<SandboxRequest>,
                     program: CandidateProgram, asOf: nat, i: nat)
    requires b.Valid() && b.ValidateHorizon(asOf).None? && i < b.windows
    requires b.WindowPasses(executor, before, program, asOf, i)
    ensures var ws := PathAnswered(b, executor, before, program, asOf, i);
            && b.Path(ws, StartOf(b, asOf, i))
            && b.WindowScore(executor, before, program, asOf, i) == b.Score(ws, StartOf(b, asOf, i))
            && Answered(b, ws, b.Answer(executor, before, program, asOf, i).frames)
  {
    hide Backtester.Score, Admissible;
    b.WindowInHorizon(asOf, i);
    Accounting.RequestShape(b, program, asOf, i);
    FramesMeasure(b, b.WindowRequest(program, asOf, i), b.Answer(executor, before, program, asOf, i).frames);
  }

  lemma FramesMeasure(b: Backtester, r: SandboxRequest, frames: seq<FrameOutcome>)
    requires b.ContractHolds(r, frames) && r.init.symbols == b.market.symbols
    ensures forall k :: 0 <= k < |frames| ==> |frames[k].weights| == b.Symbols() && AllFinite(frames[k].weights)
  {
  }
}
