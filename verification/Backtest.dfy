/** The trusted windowed backtester: requests, one-session lag, costs, liquidation. */
module Backtest {
  import opened Wrappers
  import opened Vectors
  import opened Protocol
  import opened Executors

  datatype MarketPanel = MarketPanel(symbols: seq<string>, rows: seq<Row>) {
    predicate Valid() {
      forall i :: 0 <= i < |rows| ==> rows[i].Valid(|symbols|)
    }
  }

  datatype ContractFault =
    | WrongFrameCount
    | SequencesNotContiguous
    | PortfolioRejected(fault: WeightFault)
    | WindowNotCovered

  /** One scored window; every sequence has one entry per session. */
  datatype WindowResult = WindowResult(
    daily: Vec,
    turnover: real,
    carryContribution: real,
    gross: Vec,
    meaningful: seq<bool>,
    effective: Vec,
    maxWeight: Vec)
  {
    predicate Covers(days: nat) {
      |daily| == |gross| == |meaningful| == |effective| == |maxWeight| == days
    }
  }

  datatype BacktestResult = BacktestResult(
    daily: Vec,
    turnover: real,
    carryContribution: real,
    averageGross: real,
    activeSessionFraction: real,
    meanActiveGross: real,
    cashFraction: real,
    maxWeight: real,
    effectivePositionCount: real,
    activeWindows: nat)

  /** The text of an evaluation's error field; NoEvaluationError is the empty string. */
  datatype EvaluationError =
    | NoEvaluationError
    | SourceInvalid(findings: seq<string>)
    | SandboxFailed(window: nat, status: SandboxStatus, detail: SandboxError)
    | ContractViolated(window: nat, fault: ContractFault)

  datatype ProgramEvaluation = ProgramEvaluation(
    programSha256: string,
    metadata: Option<CandidateMetadata>,
    backtest: Option<BacktestResult>,
    sandboxResults: seq<SandboxResult>,
    error: EvaluationError)
  {
    predicate Succeeded() {
      backtest.Some? && error.NoEvaluationError?
    }
  }

  datatype HorizonError = NoWarmup | NoHorizon

  /** Any executor: what it returns may depend on every call it has ever received. */
  class SandboxExecutor {
    const respond: seq<SandboxRequest> -> SandboxResult
    var calls: seq<SandboxRequest>

    constructor (respond: seq<SandboxRequest> -> SandboxResult)
      ensures this.respond == respond && calls == []
    {
      this.respond := respond;
      calls := [];
    }

    method Execute(request: SandboxRequest) returns (result: SandboxResult)
      modifies this
      ensures calls == old(calls) + [request]
      ensures result == respond(calls)
    {
      calls := calls + [request];
      result := respond(calls);
    }
  }

  // ----- small vector functions of one session

  const FLOOR := -0.99

  function Floored(x: real): real {
    Max(FLOOR, x)
  }

  function CarryComponent(row: Row): Vec
    requires |row.spot| == |row.carry|
  {
    seq(|row.spot|, i requires 0 <= i < |row.spot| => (1.0 + row.spot[i]) * row.carry[i])
  }

  function AssetReturns(row: Row): Vec
    requires |row.spot| == |row.carry|
  {
    seq(|row.spot|, i requires 0 <= i < |row.spot| => (1.0 + row.spot[i]) * (1.0 + row.carry[i]) - 1.0)
  }

  predicate AnyAtLeast(w: Vec, threshold: real) {
    exists i :: 0 <= i < |w| && threshold <= Abs(w[i])
  }

  function Mean(v: Vec): real
    requires v != []
  {
    Sum(v) / |v| as real
  }

  function DailyOf(w: WindowResult): Vec { w.daily }
  function GrossOf(w: WindowResult): Vec { w.gross }
  function MeaningfulOf(w: WindowResult): seq<bool> { w.meaningful }
  function EffectiveOf(w: WindowResult): Vec { w.effective }
  function MaxWeightOf(w: WindowResult): Vec { w.maxWeight }

  lemma FieldsArePerSession(size: nat)
    ensures PerSession(DailyOf, size) && PerSession(GrossOf, size) && PerSession(MeaningfulOf, size)
    ensures PerSession(EffectiveOf, size) && PerSession(MaxWeightOf, size)
  {
  }

  function MeanOrZero(v: Vec): real {
    if v == [] then 0.0 else Mean(v)
  }

  function Uninvested(gross: Vec): Vec {
    seq(|gross|, i requires 0 <= i < |gross| => 1.0 - Clip(gross[i]))
  }

  /** A per-session field of a window result. */
  ghost predicate PerSession<T(!new)>(field: WindowResult -> seq<T>, size: nat) {
    forall w: WindowResult :: w.Covers(size) ==> |field(w)| == size
  }

  /** One per-session field of every window, end to end. */
  function Column<T(!new)>(results: seq<WindowResult>, field: WindowResult -> seq<T>, size: nat): (column: seq<T>)
    requires forall i :: 0 <= i < |results| ==> results[i].Covers(size)
    requires PerSession(field, size)
    ensures |column| == |results| * size
  {
    if results == [] then []
    else
      var n := |results| - 1;
      assert |results| * size == n * size + size;
      Column(results[..n], field, size) + field(results[n])
  }

  /** numpy's values[mask]. */
  function Select(values: Vec, mask: seq<bool>): Vec
    requires |values| == |mask|
  {
    if values == [] then []
    else
      var n := |values| - 1;
      Select(values[..n], mask[..n]) + if mask[n] then [values[n]] else []
  }

  function Count(mask: seq<bool>): nat {
    if mask == [] then 0 else Count(mask[..|mask| - 1]) + if mask[|mask| - 1] then 1 else 0
  }

  function Clip(x: real): real {
    Max(0.0, Min(x, 1.0))
  }

  datatype Backtester = Backtester(
    market: MarketPanel,
    windows: nat,
    windowDays: nat,
    warmupDays: nat,
    costBps: real,
    seed: int,
    maxGross: real,
    maxAbsWeight: real,
    allowShort: bool,
    limits: ExecutionLimits,
    meaningfulWeight: real)
  {
    /** What the constructor accepts, over a well-formed panel. */
    predicate Valid() {
      && 4 <= windows && windows % 2 == 0
      && 20 <= windowDays
      && 1 <= warmupDays
      && 0.0 <= costBps
      && Initialization(seed).Valid()
      && limits.Valid()
      && warmupDays + windowDays - 1 <= limits.maxFrames
      && Priced()
    }

    /** The part of Valid that pricing a window relies on. */
    predicate Priced() {
      market.Valid() && 0.0 <= costBps && 0.0 < meaningfulWeight && 1 <= windowDays
    }

    function Symbols(): nat {
      |market.symbols|
    }

    function Initialization(windowSeed: int): InitializeFrame {
      InitializeFrame(market.symbols, windowSeed, maxGross, maxAbsWeight, allowShort)
    }

    function ValidateHorizon(asOf: nat): Option<HorizonError> {
      if asOf < warmupDays then Some(NoWarmup)
      else if |market.rows| < asOf + windows * windowDays then Some(NoHorizon)
      else None
    }

    // ----- requests

    function WindowStart(asOf: nat, window: nat): nat {
      asOf + window * windowDays
    }

    /** Bars from warm-up days before the window to its last session but one. */
    function BuildRequest(program: CandidateProgram, start: nat, end: nat, windowSeed: int): SandboxRequest
      requires warmupDays <= start && start < end <= |market.rows|
    {
      var first := start - warmupDays;
      SandboxRequest(
        program,
        Initialization(windowSeed),
        seq(end - 1 - first, k requires 0 <= k < end - 1 - first => BarFrame(k, market.rows[first + k])),
        limits)
    }

    lemma WindowInHorizon(asOf: nat, window: nat)
      requires ValidateHorizon(asOf).None? && window < windows
      ensures warmupDays <= WindowStart(asOf, window)
      ensures WindowStart(asOf, window) + windowDays <= asOf + windows * windowDays <= |market.rows|
    {
      assert (window + 1) * windowDays <= windows * windowDays;
    }

    function WindowRequest(program: CandidateProgram, asOf: nat, window: nat): SandboxRequest
      requires Valid() && ValidateHorizon(asOf).None? && window < windows
    {
      WindowInHorizon(asOf, window);
      var start := WindowStart(asOf, window);
      BuildRequest(program, start, start + windowDays, seed + window)
    }

    function WindowRequests(program: CandidateProgram, asOf: nat): (requests: seq<SandboxRequest>)
      requires Valid() && ValidateHorizon(asOf).None?
      ensures |requests| == windows
    {
      seq(windows, i requires 0 <= i < windows => WindowRequest(program, asOf, i))
    }

    // ----- what one window of weights earns, day by day

    /** The weights of a window: one portfolio per session, over sessions start.. */
    predicate Path(ws: seq<Vec>, start: nat) {
      && |ws| == windowDays
      && (forall o :: 0 <= o < |ws| ==> |ws[o]| == Symbols())
      && 1 <= start && start + windowDays <= |market.rows|
    }

    /** The portfolio carried into session o. */
    function Held(ws: seq<Vec>, o: nat): Vec
      requires o <= |ws|
    {
      if o == 0 then Zeros(Symbols()) else ws[o - 1]
    }

    function PerSide(row: Row): Vec {
      seq(|row.spread|, i requires 0 <= i < |row.spread| => (costBps + row.spread[i]) / 10_000.0)
    }

    function Trades(ws: seq<Vec>, start: nat, o: nat): (traded: Vec)
      requires Path(ws, start) && o < |ws|
      ensures |traded| == Symbols()
    {
      AbsAll(Sub(ws[o], Held(ws, o)))
    }

    function TradeCost(ws: seq<Vec>, start: nat, o: nat): real
      requires Priced() && Path(ws, start) && o < |ws|
    {
      Dot(Trades(ws, start, o), PerSide(market.rows[start + o - 1]))
    }

    function LiquidationCost(ws: seq<Vec>, start: nat): real
      requires Priced() && Path(ws, start)
    {
      Dot(AbsAll(ws[windowDays - 1]), PerSide(market.rows[start + windowDays - 1]))
    }

    function SpotPnl(ws: seq<Vec>, start: nat, o: nat): real
      requires Priced() && Path(ws, start) && o < |ws|
    {
      Dot(ws[o], market.rows[start + o].spot)
    }

    function CarryPnl(ws: seq<Vec>, start: nat, o: nat): real
      requires Priced() && Path(ws, start) && o < |ws|
    {
      Dot(ws[o], CarryComponent(market.rows[start + o]))
    }

    /** Everything charged on session o; the last one also pays for leaving the market. */
    function Costs(ws: seq<Vec>, start: nat, o: nat): real
      requires Priced() && Path(ws, start) && o < |ws|
    {
      TradeCost(ws, start, o) + if o == windowDays - 1 then LiquidationCost(ws, start) else 0.0
    }

    function NetReturn(ws: seq<Vec>, start: nat, o: nat): real
      requires Priced() && Path(ws, start) && o < |ws|
    {
      SpotPnl(ws, start, o) + CarryPnl(ws, start, o) - Costs(ws, start, o)
    }

    /** Weight changed hands, session by session, before any liquidation. */
    function TradedBy(ws: seq<Vec>, start: nat): Vec
      requires Path(ws, start)
    {
      seq(|ws|, o requires 0 <= o < |ws| => Sum(Trades(ws, start, o)))
    }

    function CarryBy(ws: seq<Vec>, start: nat): Vec
      requires Priced() && Path(ws, start)
    {
      seq(|ws|, o requires 0 <= o < |ws| => CarryPnl(ws, start, o))
    }

    function Turnover(ws: seq<Vec>, start: nat): real
      requires Priced() && Path(ws, start)
    {
      Sum(TradedBy(ws, start)) + Gross(ws[windowDays - 1])
    }

    function EffectiveCount(w: Vec): real {
      if 0.0 < Gross(w) then
        SquareBounds(w);
        EffectivePositions(w);
        Concentration(Gross(w), SumOfSquares(w))
      else 0.0
    }

    function LargestWeight(w: Vec): real {
      if 0.0 < Gross(w) then MaxAbs(w) else 0.0
    }

    /** A window's result, session by session: one floor over one net return. */
    function Score(ws: seq<Vec>, start: nat): (result: WindowResult)
      requires Priced() && Path(ws, start)
      ensures result.Covers(windowDays)
    {
      var n := windowDays;
      WindowResult(
        seq(n, o requires 0 <= o < n => Floored(NetReturn(ws, start, o))),
        Turnover(ws, start),
        Sum(CarryBy(ws, start)),
        seq(n, o requires 0 <= o < n => Gross(ws[o])),
        seq(n, o requires 0 <= o < n => AnyAtLeast(ws[o], meaningfulWeight)),
        seq(n, o requires 0 <= o < n => EffectiveCount(ws[o])),
        seq(n, o requires 0 <= o < n => LargestWeight(ws[o])))
    }

    // ----- the scoring loop

    lemma AssetSplit(w: Vec, row: Row)
      requires row.Valid(|w|)
      ensures Dot(w, AssetReturns(row)) == Dot(w, row.spot) + Dot(w, CarryComponent(row))
    {
      forall i | 0 <= i < |w|
        ensures Mul(w, AssetReturns(row))[i] == Mul(w, row.spot)[i] + Mul(w, CarryComponent(row))[i]
      {
        ScalarSplit(w[i], row.spot[i], row.carry[i]);
      }
      SumAdds(Mul(w, row.spot), Mul(w, CarryComponent(row)), Mul(w, AssetReturns(row)));
    }

    static lemma ScalarSplit(w: real, s: real, c: real)
      ensures w * ((1.0 + s) * (1.0 + c) - 1.0) == w * s + w * ((1.0 + s) * c)
    {
      assert (1.0 + s) * (1.0 + c) - 1.0 == s + (1.0 + s) * c;
    }

    lemma CostNonNegative(traded: Vec, row: Row)
      requires Priced() && row.Valid(|traded|)
      requires forall i :: 0 <= i < |traded| ==> 0.0 <= traded[i]
      ensures 0.0 <= Dot(traded, PerSide(row))
    {
      forall i | 0 <= i < |traded|
        ensures 0.0 <= Mul(traded, PerSide(row))[i]
      {
        assert 0.0 <= PerSide(row)[i];
      }
      SumNonNegative(Mul(traded, PerSide(row)));
    }

    lemma FlatCostsNothing(w: Vec, row: Row)
      requires row.Valid(|w|)
      requires forall i :: 0 <= i < |w| ==> w[i] == 0.0
      ensures Dot(AbsAll(w), PerSide(row)) == 0.0
      ensures Gross(w) == 0.0
    {
      GrossZero(w);
      SumOfZeros(Mul(AbsAll(w), PerSide(row)));
    }

    static lemma FloorOnce(x: real, cost: real)
      requires 0.0 <= cost
      ensures Floored(Floored(x) - cost) == Floored(x - cost)
    {
    }

    /** One pass of the scoring loop: what a session does with a change of portfolio. */
    method ScoreSession(ws: seq<Vec>, start: nat, o: nat, previous: Vec)
      returns (traded: real, carried: real, floored: real)
      requires Priced() && Path(ws, start) && o < |ws| && previous == Held(ws, o)
      ensures traded == Sum(Trades(ws, start, o))
      ensures carried == CarryPnl(ws, start, o)
      ensures floored == BeforeLiquidation(ws, start, o)
    {
      var current, day := ws[o], start + o;
      var tradedWeight := AbsAll(Sub(current, previous));
      var transactionCost := Dot(tradedWeight, PerSide(market.rows[day - 1]));
      traded := Sum(tradedWeight);
      var row := market.rows[day];
      carried := Dot(current, CarryComponent(row));
      AssetSplit(current, row);
      floored := Max(FLOOR, Dot(current, AssetReturns(row)) - transactionCost);
    }

    /** The exposure diagnostics of one session. */
    method Expose(current: Vec) returns (gross: real, meaningful: bool, effective: real, largest: real)
      requires Priced()
      ensures Diagnosed(current, gross, meaningful, effective, largest)
    {
      gross := Gross(current);
      meaningful := exists i :: 0 <= i < |current| && meaningfulWeight <= Abs(current[i]);
      effective, largest := 0.0, 0.0;
      if 0.0 < gross {
        EffectivePositions(current);
        effective := Concentration(gross, SumOfSquares(current));
        largest := MaxAbs(current);
      }
    }

    /** Forced liquidation at the end of the window: it only happens to a portfolio that
        holds something, and charging a flat one would cost nothing. */
    method Liquidate(ws: seq<Vec>, start: nat, lastReturn: real, turnover: real)
      returns (net: real, total: real)
      requires Priced() && Path(ws, start)
      requires lastReturn == BeforeLiquidation(ws, start, windowDays - 1)
      requires turnover == Sum(TradedBy(ws, start))
      ensures net == Floored(NetReturn(ws, start, windowDays - 1))
      ensures total == Turnover(ws, start)
    {
      net, total := lastReturn, turnover;
      var previous, row := ws[windowDays - 1], market.rows[start + windowDays - 1];
      CostNonNegative(AbsAll(previous), row);
      if exists i :: 0 <= i < |previous| && previous[i] != 0.0 {
        var liquidationCost := Dot(AbsAll(previous), PerSide(row));
        net := Max(FLOOR, lastReturn - liquidationCost);
        total := turnover + Gross(previous);
      } else {
        FlatCostsNothing(previous, row);
      }
      FinalSession(ws, start, net);
    }

    /** What the exposure arrays hold for one session. */
    predicate Diagnosed(w: Vec, gross: real, meaningful: bool, effective: real, largest: real) {
      && gross == Gross(w) && meaningful == AnyAtLeast(w, meaningfulWeight)
      && effective == EffectiveCount(w) && largest == LargestWeight(w)
    }

    /** The scoring loop, up to but not including the forced liquidation. */
    method ScoreSessions(ws: seq<Vec>, start: nat)
      returns (daily: array<real>, gross: Vec, meaningful: seq<bool>, effective: Vec, maxWeight: Vec,
               turnover: real, carry: real)
      requires Priced() && Path(ws, start)
      ensures fresh(daily) && daily.Length == windowDays
      ensures forall o :: 0 <= o < windowDays ==> daily[o] == BeforeLiquidation(ws, start, o)
      ensures |gross| == |meaningful| == |effective| == |maxWeight| == windowDays
      ensures forall o :: 0 <= o < windowDays ==>
                Diagnosed(ws[o], gross[o], meaningful[o], effective[o], maxWeight[o])
      ensures turnover == Sum(TradedBy(ws, start))
      ensures carry == Sum(CarryBy(ws, start))
    {
      hide Sum, Priced, Diagnosed, BeforeLiquidation, CarryPnl, Trades;
      var n := windowDays;
      daily := new real[n](_ => 0.0);
      gross, meaningful, effective, maxWeight := Zeros(n), seq(n, _ => false), Zeros(n), Zeros(n);
      var previous := Zeros(Symbols());
      turnover, carry := 0.0, 0.0;
      ghost var tradedBy, carryBy := TradedBy(ws, start), CarryBy(ws, start);
      SumEmpty(tradedBy);
      SumEmpty(carryBy);
      for offset := 0 to n
        invariant previous == Held(ws, offset)
        invariant turnover == Sum(tradedBy[..offset])
        invariant carry == Sum(carryBy[..offset])
        invariant forall o :: 0 <= o < offset ==> daily[o] == BeforeLiquidation(ws, start, o)
        invariant |gross| == |meaningful| == |effective| == |maxWeight| == n
        invariant forall o :: 0 <= o < offset ==>
                    Diagnosed(ws[o], gross[o], meaningful[o], effective[o], maxWeight[o])
      {
        var current := ws[offset];
        var g, m, e, x := Expose(current);
        gross, meaningful := gross[offset := g], meaningful[offset := m];
        effective, maxWeight := effective[offset := e], maxWeight[offset := x];
        var traded, carried, floored := ScoreSession(ws, start, offset, previous);
        SumPrefix(tradedBy, offset);
        SumPrefix(carryBy, offset);
        turnover := turnover + traded;
        carry := carry + carried;
        daily[offset] := floored;
        previous := current;
      }
      assert tradedBy[..n] == tradedBy && carryBy[..n] == carryBy;
    }

    method ScorePath(ws: seq<Vec>, start: nat, end: nat) returns (result: WindowResult)
      requires Priced() && Path(ws, start) && end == start + windowDays
      ensures result == Score(ws, start)
    {
      hide Sum, Diagnosed, BeforeLiquidation, NetReturn;
      var daily, gross, meaningful, effective, maxWeight, traded, carry := ScoreSessions(ws, start);
      var last := windowDays - 1;
      var final, turnover := Liquidate(ws, start, daily[last], traded);
      daily[last] := final;
      result := WindowResult(daily[..], turnover, carry, gross, meaningful, effective, maxWeight);
      Assembled(ws, start, result);
    }

    lemma Assembled(ws: seq<Vec>, start: nat, result: WindowResult)
      requires Priced() && Path(ws, start)
      requires |result.daily| == |result.gross| == |result.meaningful| == |result.effective| ==
                 |result.maxWeight| == windowDays
      requires forall o :: 0 <= o < windowDays - 1 ==> result.daily[o] == BeforeLiquidation(ws, start, o)
      requires result.daily[windowDays - 1] == Floored(NetReturn(ws, start, windowDays - 1))
      requires forall o :: 0 <= o < windowDays ==>
                 Diagnosed(ws[o], result.gross[o], result.meaningful[o], result.effective[o], result.maxWeight[o])
      requires result.turnover == Turnover(ws, start) && result.carryContribution == Sum(CarryBy(ws, start))
      ensures result == Score(ws, start)
    {
      hide Sum, BeforeLiquidation, NetReturn;
      var score := Score(ws, start);
      forall o | 0 <= o < windowDays
        ensures result.daily[o] == score.daily[o]
      {
        AssembledDay(ws, start, o);
      }
      forall o | 0 <= o < windowDays
        ensures result.gross[o] == score.gross[o] && result.meaningful[o] == score.meaningful[o]
        ensures result.effective[o] == score.effective[o] && result.maxWeight[o] == score.maxWeight[o]
      {
        assert Diagnosed(ws[o], result.gross[o], result.meaningful[o], result.effective[o], result.maxWeight[o]);
      }
    }

    lemma AssembledDay(ws: seq<Vec>, start: nat, o: nat)
      requires Priced() && Path(ws, start) && o < windowDays
      ensures o < windowDays - 1 ==> BeforeLiquidation(ws, start, o) == Floored(NetReturn(ws, start, o))
      ensures Score(ws, start).daily[o] == Floored(NetReturn(ws, start, o))
    {
    }

    /** The two floors of the last session, before and after liquidation, are one floor. */
    lemma FinalSession(ws: seq<Vec>, start: nat, final: real)
      requires Priced() && Path(ws, start)
      requires 0.0 <= LiquidationCost(ws, start)
      requires var last := BeforeLiquidation(ws, start, windowDays - 1);
               final == Floored(last - LiquidationCost(ws, start))
               || (final == last && LiquidationCost(ws, start) == 0.0)
      ensures final == Floored(NetReturn(ws, start, windowDays - 1))
    {
      var o := windowDays - 1;
      FloorOnce(SpotPnl(ws, start, o) + CarryPnl(ws, start, o) - TradeCost(ws, start, o), LiquidationCost(ws, start));
    }

    /** A session's floored return before any forced liquidation. */
    function BeforeLiquidation(ws: seq<Vec>, start: nat, o: nat): real
      requires Priced() && Path(ws, start) && o < |ws|
    {
      Floored(SpotPnl(ws, start, o) + CarryPnl(ws, start, o) - TradeCost(ws, start, o))
    }

    // ----- the executor contract

    predicate FrameHolds(init: InitializeFrame, frame: FrameOutcome, i: nat) {
      frame.sequence == i && AllFinite(frame.weights) && Admissible(Values(frame.weights), init)
    }

    /** The complaint about the first frame out of sequence or with a rejected portfolio. */
    function FrameBreach(init: InitializeFrame, frames: seq<FrameOutcome>): (fault: Option<ContractFault>)
      ensures fault.None? <==> forall i :: 0 <= i < |frames| ==> FrameHolds(init, frames[i], i)
    {
      if frames == [] then None
      else
        var n := |frames| - 1;
        match FrameBreach(init, frames[..n])
        case Some(fault) => Some(fault)
        case None =>
          if frames[n].sequence != n then Some(SequencesNotContiguous)
          else
            match ValidateTargetWeights(frames[n].weights, init)
            case Failure(fault) => Some(PortfolioRejected(fault))
            case Success(_) => None
    }

    /** The first complaint about an executor's frames. */
    function Breach(request: SandboxRequest, frames: seq<FrameOutcome>): (fault: Option<ContractFault>)
      ensures fault.None? <==> ContractHolds(request, frames)
    {
      if |frames| != |request.bars| then Some(WrongFrameCount)
      else
        match FrameBreach(request.init, frames)
        case Some(fault) => Some(fault)
        case None => if |frames| != warmupDays - 1 + windowDays then Some(WindowNotCovered) else None
    }

    lemma {:induction false} FrameBreachStays(init: InitializeFrame, frames: seq<FrameOutcome>, k: nat)
      requires k <= |frames| && FrameBreach(init, frames[..k]).Some?
      ensures FrameBreach(init, frames) == FrameBreach(init, frames[..k])
    {
      hide FrameHolds;
      if k == |frames| {
        assert frames[..k] == frames;
      } else {
        var n := |frames| - 1;
        assert frames[..n][..k] == frames[..k];
        FrameBreachStays(init, frames[..n], k);
      }
    }

    /** Frames the scoring code may rely on: one per bar, in order, all admissible. */
    predicate ContractHolds(request: SandboxRequest, frames: seq<FrameOutcome>) {
      && |frames| == |request.bars|
      && (forall i :: 0 <= i < |frames| ==> FrameHolds(request.init, frames[i], i))
      && |frames| == warmupDays - 1 + windowDays
    }

    /** The portfolios in force during the window: those answered from the last warm-up bar on. */
    function PathOf(frames: seq<FrameOutcome>): seq<Vec>
      requires |frames| == warmupDays - 1 + windowDays && 1 <= warmupDays
      requires forall i :: 0 <= i < |frames| ==> AllFinite(frames[i].weights)
    {
      seq(windowDays, o requires 0 <= o < windowDays => Values(frames[warmupDays - 1 + o].weights))
    }

    /** The portfolios of all frames, or the complaint about the first bad one. */
    method ValidateFrames(init: InitializeFrame, frames: seq<FrameOutcome>)
      returns (r: Result<seq<Vec>, ContractFault>)
      ensures r.Failure? ==> FrameBreach(init, frames) == Some(r.error)
      ensures r.Success? ==>
                && FrameBreach(init, frames).None?
                && |r.value| == |frames|
                && forall i :: 0 <= i < |frames| ==>
                     AllFinite(frames[i].weights) && r.value[i] == Values(frames[i].weights)
                     && |r.value[i]| == |init.symbols|
    {
      hide Gross;
      var validated: seq<Vec> := [];
      for expected := 0 to |frames|
        invariant |validated| == expected && FrameBreach(init, frames[..expected]).None?
        invariant forall i :: 0 <= i < expected ==>
                    AllFinite(frames[i].weights) && validated[i] == Values(frames[i].weights)
                    && |validated[i]| == |init.symbols|
      {
        var frame := frames[expected];
        assert frames[..expected + 1][..expected] == frames[..expected];
        if frame.sequence != expected {
          FrameBreachStays(init, frames, expected + 1);
          return Failure(SequencesNotContiguous);
        }
        var weights := ValidateTargetWeights(frame.weights, init);
        if weights.Failure? {
          FrameBreachStays(init, frames, expected + 1);
          return Failure(PortfolioRejected(weights.error));
        }
        validated := validated + [weights.value];
      }
      assert frames[..|frames|] == frames;
      return Success(validated);
    }

    method ScoreWindow(request: SandboxRequest, sandbox: SandboxResult, start: nat, end: nat)
      returns (r: Result<WindowResult, ContractFault>)
      requires Valid() && request.init.symbols == market.symbols
      requires 1 <= start && end == start + windowDays && end <= |market.rows|
      ensures r.Success? <==> ContractHolds(request, sandbox.frames)
      ensures r.Failure? ==> Breach(request, sandbox.frames) == Some(r.error)
      ensures r.Success? ==>
                Path(PathOf(sandbox.frames), start) && r.value == Score(PathOf(sandbox.frames), start)
    {
      hide FrameHolds, FrameBreach, Score;
      if |sandbox.frames| != |request.bars| {
        return Failure(WrongFrameCount);
      }
      var validated := ValidateFrames(request.init, sandbox.frames);
      if validated.Failure? {
        return Failure(validated.error);
      }
      var from := warmupDays - 1;
      var weights := if |validated.value| < from then [] else validated.value[from..];
      if |weights| != windowDays {
        return Failure(WindowNotCovered);
      }
      assert weights == PathOf(sandbox.frames);
      var result := ScorePath(weights, start, end);
      return Success(result);
    }

    // ----- the whole evaluation

    predicate AllCover(results: seq<WindowResult>) {
      |results| == windows && forall i :: 0 <= i < |results| ==> results[i].Covers(windowDays)
    }

    function AllSessions(results: seq<WindowResult>): (all: WindowResult)
      requires AllCover(results)
      ensures all.Covers(windows * windowDays)
    {
      FieldsArePerSession(windowDays);
      WindowResult(
        Column(results, DailyOf, windowDays),
        Sum(seq(|results|, i requires 0 <= i < |results| => results[i].turnover)),
        Sum(seq(|results|, i requires 0 <= i < |results| => results[i].carryContribution)),
        Column(results, GrossOf, windowDays),
        Column(results, MeaningfulOf, windowDays),
        Column(results, EffectiveOf, windowDays),
        Column(results, MaxWeightOf, windowDays))
    }

    function Summarize(results: seq<WindowResult>): BacktestResult
      requires Valid() && AllCover(results)
    {
      var all := AllSessions(results);
      assert 0 < windows * windowDays;
      BacktestResult(
        all.daily,
        all.turnover,
        all.carryContribution,
        Mean(all.gross),
        Count(all.meaningful) as real / |all.meaningful| as real,
        MeanOrZero(Select(all.gross, all.meaningful)),
        Mean(Uninvested(all.gross)),
        MaxOf(all.maxWeight, 0.0),
        MeanOrZero(Select(all.effective, all.meaningful)),
        Count(seq(|results|, i requires 0 <= i < |results| => true in results[i].meaningful)))
    }

    /** The executor's answer to window i of an evaluation whose earlier calls are known. */
    function Answer(executor: seq<SandboxRequest> -> SandboxResult, before: seq<SandboxRequest>,
                    program: CandidateProgram, asOf: nat, i: nat): SandboxResult
      requires Valid() && ValidateHorizon(asOf).None? && i < windows
    {
      executor(before + WindowRequests(program, asOf)[..i + 1])
    }

    predicate WindowPasses(executor: seq<SandboxRequest> -> SandboxResult, before: seq<SandboxRequest>,
                           program: CandidateProgram, asOf: nat, i: nat)
      requires Valid() && ValidateHorizon(asOf).None? && i < windows
    {
      var result := Answer(executor, before, program, asOf, i);
      result.Succeeded() && ContractHolds(WindowRequest(program, asOf, i), result.frames)
    }

    function WindowScore(executor: seq<SandboxRequest> -> SandboxResult, before: seq<SandboxRequest>,
                         program: CandidateProgram, asOf: nat, i: nat): (result: WindowResult)
      requires Valid() && ValidateHorizon(asOf).None? && i < windows
      requires WindowPasses(executor, before, program, asOf, i)
      ensures result.Covers(windowDays)
    {
      WindowInHorizon(asOf, i);
      Score(PathOf(Answer(executor, before, program, asOf, i).frames), WindowStart(asOf, i))
    }

    /** One turn of the evaluation loop: run the window's sandbox, then score it. */
    method TryWindow(executor: SandboxExecutor, program: CandidateProgram, asOf: nat, window: nat)
      returns (sandbox: SandboxResult, score: Result<WindowResult, EvaluationError>)
      requires Valid() && ValidateHorizon(asOf).None? && window < windows
      modifies executor
      ensures executor.calls == old(executor.calls) + [WindowRequest(program, asOf, window)]
      ensures sandbox == executor.respond(executor.calls)
      ensures score.Success? <==>
                sandbox.Succeeded() && ContractHolds(WindowRequest(program, asOf, window), sandbox.frames)
      ensures score.Success? ==>
                Path(PathOf(sandbox.frames), WindowStart(asOf, window))
                && score.value == Score(PathOf(sandbox.frames), WindowStart(asOf, window))
      ensures score.Failure? ==>
                if sandbox.Succeeded() then
                  && score.error.ContractViolated? && score.error.window == window
                  && Breach(WindowRequest(program, asOf, window), sandbox.frames) == Some(score.error.fault)
                else score.error == SandboxFailed(window, sandbox.status, sandbox.error)
    {
      hide Score, ContractHolds, Breach, Path, PathOf;
      WindowInHorizon(asOf, window);
      var start := asOf + window * windowDays;
      var end := start + windowDays;
      var request := BuildRequest(program, start, end, seed + window);
      sandbox := executor.Execute(request);
      if !sandbox.Succeeded() {
        return sandbox, Failure(SandboxFailed(window, sandbox.status, sandbox.error));
      }
      var result := ScoreWindow(request, sandbox, start, end);
      if result.Failure? {
        return sandbox, Failure(ContractViolated(window, result.error));
      }
      return sandbox, Success(result.value);
    }

    method Evaluate(executor: SandboxExecutor, validate: CandidateProgram -> Result<CandidateMetadata, seq<string>>,
                    program: CandidateProgram, asOf: nat)
      returns (r: Result<ProgramEvaluation, HorizonError>)
      requires Valid()
      modifies executor
      ensures r.Failure? <==> ValidateHorizon(asOf).Some?
      ensures r.Failure? ==> ValidateHorizon(asOf) == Some(r.error)
      ensures r.Failure? || validate(program).Failure? ==> executor.calls == old(executor.calls)
      ensures r.Success? && validate(program).Failure? ==>
                r.value == ProgramEvaluation(program.sha256, None, None, [], SourceInvalid(validate(program).error))
      ensures r.Success? && validate(program).Success? ==>
                FailsClosed(executor.respond, old(executor.calls), executor.calls, program, asOf,
                            validate(program).value, r.value)
    {
      hide Summarize, WindowPasses, WindowScore, Answer, WindowRequest, Breach;
      var horizon := ValidateHorizon(asOf);
      if horizon.Some? {
        return Failure(horizon.value);
      }
      var metadata := validate(program);
      if metadata.Failure? {
        return Success(ProgramEvaluation(program.sha256, None, None, [], SourceInvalid(metadata.error)));
      }
      var before := executor.calls;
      var sandboxResults, results, failure := RunWindows(executor, program, asOf);
      var error := if failure.Some? then failure.value else NoEvaluationError;
      var backtest := if failure.Some? then None else Some(Summarize(results));
      r := Success(ProgramEvaluation(program.sha256, Some(metadata.value), backtest, sandboxResults, error));
      Closed(executor.respond, before, program, asOf, sandboxResults, results, failure);
    }

    method RunWindows(executor: SandboxExecutor, program: CandidateProgram, asOf: nat)
      returns (sandboxResults: seq<SandboxResult>, results: seq<WindowResult>, failure: Option<EvaluationError>)
      requires Valid() && ValidateHorizon(asOf).None?
      modifies executor
      ensures |sandboxResults| <= windows
      ensures executor.calls == old(executor.calls) + WindowRequests(program, asOf)[..|sandboxResults|]
      ensures Stopped(executor.respond, old(executor.calls), program, asOf, sandboxResults, results, failure)
    {
      hide Score, ContractHolds, BuildRequest;
      ghost var before := executor.calls;
      sandboxResults, results := [], [];
      for window := 0 to windows
        invariant executor.calls == before + WindowRequests(program, asOf)[..window]
        invariant Progress(executor.respond, before, program, asOf, window, sandboxResults, results)
      {
        var sandbox, score := TryWindow(executor, program, asOf, window);
        assert executor.calls == before + WindowRequests(program, asOf)[..window + 1];
        sandboxResults := sandboxResults + [sandbox];
        if score.Failure? {
          return sandboxResults, results, Some(score.error);
        }
        results := results + [score.value];
      }
      failure := None;
    }

    /** How the window loop ends: after all windows, or right after the first that fails. */
    ghost predicate Stopped(executor: seq<SandboxRequest> -> SandboxResult, before: seq<SandboxRequest>,
                            program: CandidateProgram, asOf: nat, sandboxResults: seq<SandboxResult>,
                            results: seq<WindowResult>, failure: Option<EvaluationError>)
      requires Valid() && ValidateHorizon(asOf).None?
    {
      var k := |sandboxResults|;
      if failure.None? then
        k == windows && Progress(executor, before, program, asOf, k, sandboxResults, results)
      else
        && 0 < k <= windows
        && Progress(executor, before, program, asOf, k - 1, sandboxResults[..k - 1], results)
        && sandboxResults[k - 1] == Answer(executor, before, program, asOf, k - 1)
        && !WindowPasses(executor, before, program, asOf, k - 1)
        && var failed := sandboxResults[k - 1];
           if failed.Succeeded() then
             && failure.value.ContractViolated? && failure.value.window == k - 1
             && Breach(WindowRequest(program, asOf, k - 1), failed.frames) == Some(failure.value.fault)
           else failure.value == SandboxFailed(k - 1, failed.status, failed.error)
    }

    lemma Closed(executor: seq<SandboxRequest> -> SandboxResult, before: seq<SandboxRequest>,
                 program: CandidateProgram, asOf: nat, sandboxResults: seq<SandboxResult>,
                 results: seq<WindowResult>, failure: Option<EvaluationError>)
      requires Valid() && ValidateHorizon(asOf).None?
      requires Stopped(executor, before, program, asOf, sandboxResults, results, failure)
      ensures forall i :: 0 <= i < |sandboxResults| ==> sandboxResults[i] == Answer(executor, before, program, asOf, i)
      ensures failure.None? <==> forall i :: 0 <= i < windows ==> WindowPasses(executor, before, program, asOf, i)
      ensures failure.None? ==> results == AllScores(executor, before, program, asOf)
      ensures failure.Some? ==>
                forall i :: 0 <= i < |sandboxResults| - 1 ==> WindowPasses(executor, before, program, asOf, i)
    {
      hide Score, ContractHolds, BuildRequest;
      if failure.Some? {
        var k := |sandboxResults| - 1;
        assert forall i :: 0 <= i < k ==> sandboxResults[..k][i] == sandboxResults[i];
      }
    }

    /** The first windows all passed, with these sandbox results and scores. */
    ghost predicate Progress(executor: seq<SandboxRequest> -> SandboxResult, before: seq<SandboxRequest>,
                             program: CandidateProgram, asOf: nat, window: nat,
                             sandboxResults: seq<SandboxResult>, results: seq<WindowResult>)
      requires Valid() && ValidateHorizon(asOf).None? && window <= windows
    {
      && |results| == |sandboxResults| == window
      && forall i :: 0 <= i < window ==>
           && sandboxResults[i] == Answer(executor, before, program, asOf, i)
           && WindowPasses(executor, before, program, asOf, i)
           && results[i] == WindowScore(executor, before, program, asOf, i)
    }

    ghost function AllScores(executor: seq<SandboxRequest> -> SandboxResult, before: seq<SandboxRequest>,
                             program: CandidateProgram, asOf: nat): (scores: seq<WindowResult>)
      requires Valid() && ValidateHorizon(asOf).None?
      requires forall i :: 0 <= i < windows ==> WindowPasses(executor, before, program, asOf, i)
      ensures AllCover(scores)
    {
      seq(windows, i requires 0 <= i < windows => WindowScore(executor, before, program, asOf, i))
    }

    /** An evaluation stops at the first window that does not pass, has a backtest exactly
        when every window passed, and an error exactly when it has none. */
    ghost predicate FailsClosed(executor: seq<SandboxRequest> -> SandboxResult, before: seq<SandboxRequest>,
                                after: seq<SandboxRequest>, program: CandidateProgram, asOf: nat,
                                metadata: CandidateMetadata, e: ProgramEvaluation)
      requires Valid() && ValidateHorizon(asOf).None?
    {
      var k := |e.sandboxResults|;
      && k <= windows
      && after == before + WindowRequests(program, asOf)[..k]
      && (forall i :: 0 <= i < k ==> e.sandboxResults[i] == Answer(executor, before, program, asOf, i))
      && e.programSha256 == program.sha256
      && e.metadata == Some(metadata)
      && (e.backtest.Some? <==> forall i :: 0 <= i < windows ==> WindowPasses(executor, before, program, asOf, i))
      && (e.error.NoEvaluationError? <==> e.backtest.Some?)
      && (e.backtest.Some? ==>
            && k == windows
            && e.backtest.value == Summarize(AllScores(executor, before, program, asOf)))
      && (e.backtest.None? ==>
            && 0 < k
            && (forall i :: 0 <= i < k - 1 ==> WindowPasses(executor, before, program, asOf, i))
            && !WindowPasses(executor, before, program, asOf, k - 1)
            && var failed := Answer(executor, before, program, asOf, k - 1);
               if failed.Succeeded() then
                 && e.error.ContractViolated? && e.error.window == k - 1
                 && Breach(WindowRequest(program, asOf, k - 1), failed.frames) == Some(e.error.fault)
               else e.error == SandboxFailed(k - 1, failed.status, failed.error))
    }
  }
}
