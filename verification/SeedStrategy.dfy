/** The bundled momentum strategy: twenty closes per symbol, the weakest sold, the strongest
    bought, equal amounts of each. */
module SeedStrategy {
  import opened Wrappers
  import opened Vectors
  import opened Protocol
  import opened Executors
  import opened Ranking
  import Text
  import Worker
  import Lockstep
  import ProcessDriver
  import Simulation

  const LOOKBACK := 20
  const LEG := 0.25
  const ZERO_ERROR := Worker.Own("ZeroDivisionError", "float division by zero")

  /** zip(closes, current, strict=True) on lists of different lengths. */
  function LengthError(given: nat, expected: nat): Worker.Raised {
    Worker.Own("ValueError", "zip() argument 2 is " + (if given < expected then "shorter" else "longer") + " than argument 1")
  }

  // ----- the window of closes

  function Pushed(history: Vec, value: real): Vec {
    var longer := history + [value];
    if LOOKBACK < |longer| then longer[1..] else longer
  }

  function Observed(closes: seq<Vec>, close: Vec): seq<Vec>
    requires |closes| == |close|
  {
    seq(|closes|, i requires 0 <= i < |closes| => Pushed(closes[i], close[i]))
  }

  predicate Full(closes: seq<Vec>) {
    forall i :: 0 <= i < |closes| ==> LOOKBACK <= |closes[i]|
  }

  predicate Divisible(closes: seq<Vec>)
    requires Full(closes)
  {
    forall i :: 0 <= i < |closes| ==> closes[i][0] != 0.0
  }

  // ----- the ranking and the portfolio

  datatype Scored = Scored(index: nat, score: real, symbol: string)

  /** Ascending score, then symbol. */
  function KeyOf(s: Scored): Standing {
    Standing(-s.score, 0.0, 0.0, s.symbol)
  }

  function Scores(symbols: seq<string>, closes: seq<Vec>): seq<Scored>
    requires |symbols| == |closes| && Full(closes) && Divisible(closes)
  {
    seq(|closes|, i requires 0 <= i < |closes| =>
      Scored(i, closes[i][|closes[i]| - 1] / closes[i][0] - 1.0, symbols[i]))
  }

  function PerSide(n: nat): nat {
    if n / 2 < 2 then n / 2 else 2
  }

  /** The slice ranked[-p:], which is the whole list when p is zero. */
  function LastOf(ranked: seq<Scored>, p: nat): seq<Scored>
    requires p <= |ranked|
  {
    if p == 0 then ranked else ranked[|ranked| - p..]
  }

  predicate Indexed(picked: seq<Scored>, n: nat) {
    forall k :: 0 <= k < |picked| ==> picked[k].index < n
  }

  function Assign(w: Vec, picked: seq<Scored>, x: real): (r: Vec)
    requires Indexed(picked, |w|)
    ensures |r| == |w|
  {
    if picked == [] then w
    else Assign(w, picked[..|picked| - 1], x)[picked[|picked| - 1].index := x]
  }

  lemma RankedIndexed(symbols: seq<string>, closes: seq<Vec>)
    requires |symbols| == |closes| && Full(closes) && Divisible(closes)
    ensures var ranked := Ranked(Scores(symbols, closes), KeyOf);
            && |ranked| == |closes|
            && forall k :: 0 <= k < |ranked| ==>
                 ranked[k].index < |closes| && ranked[k] == Scores(symbols, closes)[ranked[k].index]
  {
    hide Ranked;
    var scores := Scores(symbols, closes);
    var ranked := Ranked(scores, KeyOf);
    RankedKeeps(scores, KeyOf);
    forall k | 0 <= k < |ranked|
      ensures ranked[k].index < |closes| && ranked[k] == scores[ranked[k].index]
    {
      SharedMember(ranked, scores, ranked[k]);
    }
  }

  function Portfolio(symbols: seq<string>, closes: seq<Vec>): (w: Vec)
    requires |symbols| == |closes| && Full(closes) && Divisible(closes)
    ensures |w| == |closes|
  {
    RankedIndexed(symbols, closes);
    var ranked, p := Ranked(Scores(symbols, closes), KeyOf), PerSide(|symbols|);
    Assign(Assign(Zeros(|symbols|), ranked[..p], -LEG), LastOf(ranked, p), LEG)
  }

  /** What on_bar answers once the bar is in the window. */
  function Decided(symbols: seq<string>, closes: seq<Vec>): Worker.Attempt<Vec>
    requires |symbols| == |closes|
  {
    if !Full(closes) then Worker.Done(Zeros(|symbols|))
    else if !Divisible(closes) then Worker.Threw(ZERO_ERROR)
    else Worker.Done(Portfolio(symbols, closes))
  }

  class Strategy {
    const symbols: seq<string>
    const seed: int
    var closes: seq<Vec>

    constructor (symbols: seq<string>, seed: int)
      ensures this.symbols == symbols && this.seed == seed
      ensures closes == seq(|symbols|, _ => [])
    {
      this.symbols, this.seed := symbols, seed;
      closes := seq(|symbols|, _ => []);
    }

    method OnBar(close: Vec) returns (r: Worker.Attempt<Vec>)
      requires |closes| == |symbols|
      modifies this
      ensures |closes| == |symbols|
      ensures |close| != |symbols| ==> r == Worker.Threw(LengthError(|close|, |symbols|))
      ensures |close| == |symbols| ==> closes == Observed(old(closes), close) && r == Decided(symbols, closes)
    {
      hide Ranked, Portfolio;
      var n := if |close| < |symbols| then |close| else |symbols|;
      for i := 0 to n
        invariant |closes| == |symbols|
        invariant forall k :: 0 <= k < i ==> closes[k] == Pushed(old(closes)[k], close[k])
        invariant forall k :: i <= k < |closes| ==> closes[k] == old(closes)[k]
      {
        var history := closes[i] + [close[i]];
        if LOOKBACK < |history| {
          history := history[1..];
        }
        closes := closes[i := history];
      }
      if |close| != |symbols| {
        return Worker.Threw(LengthError(|close|, |symbols|));
      }
      assert closes == Observed(old(closes), close);
      if exists i :: 0 <= i < |closes| && |closes[i]| < LOOKBACK {
        return Worker.Done(Zeros(|symbols|));
      }
      if exists i :: 0 <= i < |closes| && closes[i][0] == 0.0 {
        return Worker.Threw(ZERO_ERROR);
      }
      var weights := Allocate();
      return Worker.Done(weights);
    }

    /** Sells the first of the ranking and buys the last. */
    method Allocate() returns (w: Vec)
      requires |closes| == |symbols| && Full(closes) && Divisible(closes)
      ensures w == Portfolio(symbols, closes)
    {
      hide Ranked, Scores;
      RankedIndexed(symbols, closes);
      var ranked := Ranked(Scores(symbols, closes), KeyOf);
      var perSide := PerSide(|symbols|);
      var weights := new real[|symbols|](_ => 0.0);
      ghost var zeros := Zeros(|symbols|);
      assert weights[..] == zeros;
      SetAll(weights, ranked[..perSide], -LEG);
      SetAll(weights, LastOf(ranked, perSide), LEG);
      w := weights[..];
    }
  }

  method SetAll(weights: array<real>, picked: seq<Scored>, x: real)
    requires Indexed(picked, weights.Length)
    modifies weights
    ensures weights[..] == Assign(old(weights[..]), picked, x)
  {
    for k := 0 to |picked|
      invariant weights[..] == Assign(old(weights[..]), picked[..k], x)
    {
      assert picked[..k + 1][..k] == picked[..k];
      weights[picked[k].index] := x;
    }
    assert picked[..|picked|] == picked;
  }

  predicate Short(closes: seq<Vec>) {
    exists i :: 0 <= i < |closes| && |closes[i]| < 20
  }

  predicate StartsAtZero(closes: seq<Vec>) {
    exists i :: 0 <= i < |closes| && |closes[i]| != 0 && closes[i][0] == 0.0
  }

  predicate Raises<T>(answer: Worker.Attempt<T>, typeName: string, text: string) {
    answer.Threw? && answer.exc.typeName == typeName && answer.exc.text == Worker.Call([], Worker.Done(text))
  }

  /** Before every symbol has twenty closes nothing is held; then a window that starts at zero
      raises, and any other is answered. */
  lemma BarIsDecided(symbols: seq<string>, closes: seq<Vec>)
    requires |symbols| == |closes|
    ensures var answer := Decided(symbols, closes);
            && (Short(closes) ==>
                  answer.Done? && |answer.value| == |symbols| && forall i :: 0 <= i < |symbols| ==> answer.value[i] == 0.0)
            && (!Short(closes) && StartsAtZero(closes) ==>
                  Raises(answer, "ZeroDivisionError", "float division by zero"))
            && (!Short(closes) && !StartsAtZero(closes) ==> answer.Done? && |answer.value| == |symbols|)
  {
    hide Portfolio;
  }

  /** A bar with too few or too many closes raises what zip says of its second argument. */
  lemma LengthErrorReads(given: nat, expected: nat)
    requires given != expected
    ensures var text := LengthError(given, expected).text.outcome;
            && LengthError(given, expected).typeName == "ValueError"
            && (given < expected ==> text == Worker.Done("zip() argument 2 is " + "shorter" + " than argument 1"))
            && (expected < given ==> text == Worker.Done("zip() argument 2 is " + "longer" + " than argument 1"))
  {
  }

  // ----- the window holds the latest closes

  /** The window after a run of bars, oldest first. */
  function After(n: nat, bars: seq<Vec>): (closes: seq<Vec>)
    requires forall i :: 0 <= i < |bars| ==> |bars[i]| == n
    ensures |closes| == n
  {
    if bars == [] then seq(n, _ => [])
    else Observed(After(n, bars[..|bars| - 1]), bars[|bars| - 1])
  }

  function Kept(bars: nat): nat {
    if bars < LOOKBACK then bars else LOOKBACK
  }

  /** The history is the last entries of the column, at most twenty. */
  predicate Recent(history: Vec, bars: seq<Vec>, j: nat)
    requires forall i :: 0 <= i < |bars| ==> j < |bars[i]|
  {
    && |history| == Kept(|bars|)
    && forall t :: 0 <= t < |history| ==> history[t] == bars[|bars| - |history| + t][j]
  }

  lemma PushedIsRecent(history: Vec, bars: seq<Vec>, last: Vec, j: nat)
    requires forall i :: 0 <= i < |bars| ==> j < |bars[i]|
    requires j < |last| && Recent(history, bars, j)
    ensures Recent(Pushed(history, last[j]), bars + [last], j)
  {
  }

  /** Whatever the history, each symbol's window is its latest closes, at most twenty. */
  lemma {:induction false} WindowIsRecent(n: nat, bars: seq<Vec>, j: nat)
    requires forall i :: 0 <= i < |bars| ==> |bars[i]| == n
    requires j < n
    ensures Recent(After(n, bars)[j], bars, j)
  {
    hide Recent, Pushed;
    if bars != [] {
      var m := |bars| - 1;
      WindowIsRecent(n, bars[..m], j);
      PushedIsRecent(After(n, bars[..m])[j], bars[..m], bars[m], j);
      assert bars[..m] + [bars[m]] == bars;
    } else {
      StartsRecent(n, j);
    }
  }

  lemma StartsRecent(n: nat, j: nat)
    requires j < n
    ensures Recent(After(n, [])[j], [], j)
  {
  }

  // ----- what the portfolio is

  lemma {:induction false} AssignAt(w: Vec, picked: seq<Scored>, x: real, i: nat)
    requires Indexed(picked, |w|) && i < |w|
    ensures (exists k :: 0 <= k < |picked| && picked[k].index == i) ==> Assign(w, picked, x)[i] == x
    ensures (forall k :: 0 <= k < |picked| ==> picked[k].index != i) ==> Assign(w, picked, x)[i] == w[i]
  {
    if picked != [] {
      var n := |picked| - 1;
      AssignAt(w, picked[..n], x, i);
      if picked[n].index != i && exists k :: 0 <= k < |picked| && picked[k].index == i {
        var k :| 0 <= k < |picked| && picked[k].index == i;
        assert picked[..n][k].index == i;
      }
    }
  }

  lemma {:induction false} SumOfUpdate(v: Vec, k: nat, x: real)
    requires k < |v|
    ensures Sum(v[k := x]) == Sum(v) - v[k] + x
  {
    var n := |v| - 1;
    if k == n {
      assert v[k := x][..n] == v[..n];
    } else {
      assert v[k := x][..n] == v[..n][k := x];
      SumOfUpdate(v[..n], k, x);
    }
  }

  predicate DistinctIndices(picked: seq<Scored>) {
    forall k, l :: 0 <= k < l < |picked| ==> picked[k].index != picked[l].index
  }

  /** Filling distinct empty positions adds up. */
  lemma {:induction false} AssignSum(w: Vec, picked: seq<Scored>, x: real)
    requires Indexed(picked, |w|) && DistinctIndices(picked)
    requires forall k :: 0 <= k < |picked| ==> w[picked[k].index] == 0.0
    ensures Sum(Assign(w, picked, x)) == Sum(w) + |picked| as real * x
  {
    hide Sum;
    if picked != [] {
      var n := |picked| - 1;
      var before := picked[..n];
      AssignSum(w, before, x);
      AssignAt(w, before, x, picked[n].index);
      SumOfUpdate(Assign(w, before, x), picked[n].index, x);
      assert (n as real + 1.0) * x == n as real * x + x;
    }
  }

  lemma {:induction false} AbsOfAssign(w: Vec, picked: seq<Scored>, x: real)
    requires Indexed(picked, |w|)
    ensures AbsAll(Assign(w, picked, x)) == Assign(AbsAll(w), picked, Abs(x))
  {
    if picked != [] {
      AbsOfAssign(w, picked[..|picked| - 1], x);
    }
  }

  ghost predicate Unique(symbols: seq<string>) {
    forall i, j :: 0 <= i < j < |symbols| ==> symbols[i] != symbols[j]
  }

  lemma RankedDistinct(symbols: seq<string>, closes: seq<Vec>)
    requires |symbols| == |closes| && Full(closes) && Divisible(closes) && Unique(symbols)
    ensures DistinctIndices(Ranked(Scores(symbols, closes), KeyOf))
    ensures StrictlyRanked(Ranked(Scores(symbols, closes), KeyOf), KeyOf)
  {
    hide Ranked, Before;
    var scores := Scores(symbols, closes);
    RankedKeepsIds(scores, KeyOf);
    RankedIsRanked(scores, KeyOf);
    RankedIndexed(symbols, closes);
    var ranked := Ranked(scores, KeyOf);
    forall k, l | 0 <= k < l < |ranked|
      ensures ranked[k].index != ranked[l].index
    {
      assert KeyOf(ranked[k]).candidateId != KeyOf(ranked[l]).candidateId;
    }
  }

  /** Where a symbol with this weight can stand in the ranking. */
  predicate Placement(weight: real, rank: nat, p: nat, n: nat) {
    && (weight == -LEG <==> rank < p)
    && (weight == LEG <==> n <= rank + p)
    && (weight == 0.0 <==> p <= rank && rank + p < n)
  }

  /** With two symbols or more, the p lowest-ranked symbols are held short, the p highest
      long, and every other one not at all. */
  lemma PortfolioByRank(symbols: seq<string>, closes: seq<Vec>, k: nat)
    requires |symbols| == |closes| && Full(closes) && Divisible(closes) && Unique(symbols)
    requires 2 <= |symbols| && k < |symbols|
    ensures var ranked := Ranked(Scores(symbols, closes), KeyOf);
            && |ranked| == |symbols| && ranked[k].index < |symbols|
            && Placement(Portfolio(symbols, closes)[ranked[k].index], k, PerSide(|symbols|), |symbols|)
  {
    hide Ranked, Scores;
    RankedIndexed(symbols, closes);
    RankedDistinct(symbols, closes);
    var n, p := |symbols|, PerSide(|symbols|);
    var ranked := Ranked(Scores(symbols, closes), KeyOf);
    var i := ranked[k].index;
    var zeros := Zeros(n);
    var low, high := ranked[..p], LastOf(ranked, p);
    AssignAt(zeros, low, -LEG, i);
    AssignAt(Assign(zeros, low, -LEG), high, LEG, i);
    if k < p {
      assert low[k].index == i;
    }
    if n <= k + p {
      assert high[k - (n - p)].index == i;
    }
  }

  lemma LegsAreApart(symbols: seq<string>, closes: seq<Vec>)
    requires |symbols| == |closes| && Full(closes) && Divisible(closes) && Unique(symbols)
    requires 2 <= |symbols|
    ensures var ranked, p := Ranked(Scores(symbols, closes), KeyOf), PerSide(|symbols|);
            && |ranked| == |symbols|
            && Apart(ranked[..p], LastOf(ranked, p), p, |symbols|)
  {
    hide Ranked, Scores;
    RankedIndexed(symbols, closes);
    RankedDistinct(symbols, closes);
  }

  /** Two legs of p distinct positions each, none in both. */
  predicate Apart(low: seq<Scored>, high: seq<Scored>, p: nat, n: nat) {
    && Indexed(low, n) && Indexed(high, n)
    && DistinctIndices(low) && DistinctIndices(high)
    && |low| == |high| == p
    && forall k, l :: 0 <= k < |low| && 0 <= l < |high| ==> low[k].index != high[l].index
  }

  /** Market neutral, a quarter per position: the weights cancel and the gross is half the
      number of positions per side. */
  lemma PortfolioIsNeutral(symbols: seq<string>, closes: seq<Vec>)
    requires |symbols| == |closes| && Full(closes) && Divisible(closes) && Unique(symbols)
    requires 2 <= |symbols|
    ensures Sum(Portfolio(symbols, closes)) == 0.0
    ensures Gross(Portfolio(symbols, closes)) == 0.5 * PerSide(|symbols|) as real <= 1.0
  {
    hide Ranked, Scores, Sum, Apart, Assign;
    LegsAreApart(symbols, closes);
    var n, p := |symbols|, PerSide(|symbols|);
    var ranked := Ranked(Scores(symbols, closes), KeyOf);
    BookOf(n, ranked[..p], LastOf(ranked, p), p);
  }

  lemma BookOf(n: nat, low: seq<Scored>, high: seq<Scored>, p: nat)
    requires Apart(low, high, p, n)
    ensures Indexed(low, n) && Indexed(high, n)
    ensures var w := Assign(Assign(Zeros(n), low, -LEG), high, LEG);
            Sum(w) == 0.0 && Gross(w) == 0.5 * p as real
  {
    hide Sum, Assign;
    var zeros := Zeros(n);
    SumOfZeros(zeros);
    LegsAddUp(zeros, low, high, -LEG, LEG);
    AbsOfAssign(zeros, low, -LEG);
    AbsOfAssign(Assign(zeros, low, -LEG), high, LEG);
    assert AbsAll(zeros) == zeros;
    LegsAddUp(zeros, low, high, LEG, LEG);
  }

  lemma LegsAddUp(zeros: Vec, low: seq<Scored>, high: seq<Scored>, x: real, y: real)
    requires Apart(low, high, |low|, |zeros|)
    requires forall i :: 0 <= i < |zeros| ==> zeros[i] == 0.0
    requires Sum(zeros) == 0.0
    ensures Sum(Assign(Assign(zeros, low, x), high, y)) == |low| as real * (x + y)
  {
    hide Sum, Assign;
    AssignSum(zeros, low, x);
    var w := Assign(zeros, low, x);
    forall l | 0 <= l < |high|
      ensures w[high[l].index] == 0.0
    {
      AssignAt(zeros, low, x, high[l].index);
    }
    AssignSum(w, high, y);
    assert |low| as real * x + |low| as real * y == |low| as real * (x + y);
  }

  /** The code's last slice is the whole list when nothing goes on a side: with one symbol it
      is bought outright, so the book is neutral exactly when there is not just one. */
  lemma NeutralExactlyWhen(symbols: seq<string>, closes: seq<Vec>)
    requires |symbols| == |closes| && Full(closes) && Divisible(closes) && Unique(symbols)
    ensures Sum(Portfolio(symbols, closes)) == 0.0 <==> |symbols| != 1
  {
    if 2 <= |symbols| {
      PortfolioIsNeutral(symbols, closes);
    } else if |symbols| == 1 {
      RankedIndexed(symbols, closes);
      var ranked := Ranked(Scores(symbols, closes), KeyOf);
      assert ranked[..0] == [] && LastOf(ranked, 0) == ranked && ranked[..1] == ranked;
      var w := Portfolio(symbols, closes);
      AssignAt(Assign(Zeros(1), ranked[..0], -LEG), ranked, LEG, 0);
      assert ranked[0].index == 0;
      assert w == [LEG];
    }
  }

  // ----- the portfolio, told from the closes

  /** What a price has become of what it was. */
  function Gain(closes: Vec): real
    requires closes != [] && closes[0] != 0.0
  {
    closes[|closes| - 1] / closes[0]
  }

  /** Every symbol is bought, sold or left alone, a quarter each, as many bought as sold, at
      most two; and of two symbols the one with the larger weight has gained at least as much,
      more unless its name sorts after the other's. */
  predicate FollowsMomentum(w: Vec, symbols: seq<string>, gains: Vec) {
    && |w| == |symbols| == |gains|
    && (forall i :: 0 <= i < |w| ==> w[i] == 0.25 || w[i] == 0.0 || w[i] == -0.25)
    && Sum(w) == 0.0
    && Gross(w) == (if |symbols| < 4 then 0.5 else 1.0)
    && (forall a, b :: 0 <= a < |w| && 0 <= b < |w| && w[b] < w[a] ==>
          gains[b] < gains[a] || (gains[b] == gains[a] && Text.Less(symbols[b], symbols[a])))
  }

  function Gains(closes: seq<Vec>): Vec
    requires Full(closes) && Divisible(closes)
  {
    seq(|closes|, i requires 0 <= i < |closes| => Gain(closes[i]))
  }

  lemma RankOf(symbols: seq<string>, closes: seq<Vec>, i: nat) returns (k: nat)
    requires |symbols| == |closes| && Full(closes) && Divisible(closes) && i < |closes|
    ensures var ranked := Ranked(Scores(symbols, closes), KeyOf);
            k < |ranked| == |closes| && ranked[k] == Scores(symbols, closes)[i] && ranked[k].index == i
  {
    hide Ranked;
    var scores := Scores(symbols, closes);
    RankedKeeps(scores, KeyOf);
    SharedMember(scores, Ranked(scores, KeyOf), scores[i]);
    k :| 0 <= k < |scores| && Ranked(scores, KeyOf)[k] == scores[i];
  }

  lemma LargerGainsMore(symbols: seq<string>, closes: seq<Vec>, a: nat, b: nat)
    requires |symbols| == |closes| && Full(closes) && Divisible(closes) && Unique(symbols)
    requires 2 <= |symbols| && a < |symbols| && b < |symbols|
    requires Portfolio(symbols, closes)[b] < Portfolio(symbols, closes)[a]
    ensures Gain(closes[b]) < Gain(closes[a]) || (Gain(closes[b]) == Gain(closes[a]) && Text.Less(symbols[b], symbols[a]))
  {
    hide Ranked, Portfolio, Text.Less;
    var j := RankOf(symbols, closes, a);
    var k := RankOf(symbols, closes, b);
    PortfolioByRank(symbols, closes, j);
    PortfolioByRank(symbols, closes, k);
    RankedDistinct(symbols, closes);
    var ranked := Ranked(Scores(symbols, closes), KeyOf);
    SmallWeightsOnly(Portfolio(symbols, closes)[a], j, Portfolio(symbols, closes)[b], k, PerSide(|symbols|), |symbols|);
    assert Before(KeyOf(ranked[k]), KeyOf(ranked[j]));
  }

  lemma SmallWeightsOnly(x: real, j: nat, y: real, k: nat, p: nat, n: nat)
    requires Placement(x, j, p, n) && Placement(y, k, p, n) && y < x && 2 * p <= n
    ensures k < j
  {
  }

  lemma WeightOf(symbols: seq<string>, closes: seq<Vec>, i: nat)
    requires |symbols| == |closes| && Full(closes) && Divisible(closes) && Unique(symbols)
    requires 2 <= |symbols| && i < |symbols|
    ensures var w := Portfolio(symbols, closes)[i]; w == 0.25 || w == 0.0 || w == -0.25
  {
    hide Ranked, Portfolio;
    var k := RankOf(symbols, closes, i);
    PortfolioByRank(symbols, closes, k);
  }

  /** The portfolio of full windows, for every market with two symbols or more. */
  lemma PortfolioByCloses(symbols: seq<string>, closes: seq<Vec>)
    requires |symbols| == |closes| && Full(closes) && Divisible(closes) && Unique(symbols)
    requires 2 <= |symbols|
    ensures FollowsMomentum(Portfolio(symbols, closes), symbols, Gains(closes))
  {
    hide Portfolio, Gain, Text.Less, Sum, Gross;
    var w := Portfolio(symbols, closes);
    PortfolioIsNeutral(symbols, closes);
    forall i | 0 <= i < |w|
      ensures w[i] == 0.25 || w[i] == 0.0 || w[i] == -0.25
    {
      WeightOf(symbols, closes, i);
    }
    forall a, b | 0 <= a < |w| && 0 <= b < |w| && w[b] < w[a]
      ensures Gain(closes[b]) < Gain(closes[a]) || (Gain(closes[b]) == Gain(closes[a]) && Text.Less(symbols[b], symbols[a]))
    {
      LargerGainsMore(symbols, closes, a, b);
    }
  }

  // ----- the strategy in the sandbox

  datatype Instance = Instance(symbols: seq<string>, closes: seq<Vec>)

  function Numbers(w: Vec): seq<Number> {
    seq(|w|, i requires 0 <= i < |w| => Finite(w[i]))
  }

  function FloatItems(w: Vec): seq<Worker.Item> {
    seq(|w|, i requires 0 <= i < |w| => Worker.FloatItem(Finite(w[i])))
  }

  function Constructed(symbols: seq<string>, seed: int): Worker.Call<Instance> {
    Worker.Call([], Worker.Done(Instance(symbols, seq(|symbols|, _ => []))))
  }

  /** on_bar on values, as OnBar leaves the object. */
  function Next(instance: Instance, bar: BarFrame): Worker.Attempt<(Instance, Worker.Value)> {
    var close := bar.row.close;
    if |instance.closes| != |instance.symbols| || |close| != |instance.symbols| then
      Worker.Threw(LengthError(|close|, |instance.symbols|))
    else
      var closes := Observed(instance.closes, close);
      match Decided(instance.symbols, closes)
      case Done(w) => Worker.Done((Instance(instance.symbols, closes), Worker.Items(FloatItems(w))))
      case Threw(exc) => Worker.Threw(exc)
      case Hangs => Worker.Hangs
  }

  function Momentum(): Worker.Strategy<Instance> {
    Worker.Strategy(Constructed, (instance: Instance, bar: BarFrame) => Worker.Call([], Next(instance, bar)))
  }

  lemma FloatsAreKept(w: Vec)
    ensures Worker.CoerceWeights(Worker.Items(FloatItems(w))) == Success(Numbers(w))
    ensures AllFinite(Numbers(w)) && Values(Numbers(w)) == w
  {
    var items := FloatItems(w);
    forall i | 0 <= i < |items|
      ensures Worker.AsFloat(items[i]) == Success(Numbers(w)[i])
    {
    }
    var r := Worker.Coerced(items);
    assert forall i :: 0 <= i < |items| ==> Worker.AsFloat(items[i]) == Success(r.value[i]);
    assert r.value == Numbers(w);
  }

  function Closes(r: SandboxRequest, k: nat): seq<Vec>
    requires k <= |r.bars|
  {
    seq(k, i requires 0 <= i < k => r.bars[i].row.close)
  }

  /** The windows the strategy holds once it has seen k bars. */
  function Windows(r: SandboxRequest, k: nat): (closes: seq<Vec>)
    requires r.Valid() && k <= |r.bars|
    ensures |closes| == |r.init.symbols|
  {
    After(|r.init.symbols|, Closes(r, k))
  }

  lemma WindowsStep(r: SandboxRequest, k: nat)
    requires r.Valid() && k < |r.bars|
    ensures Windows(r, k + 1) == Observed(Windows(r, k), r.bars[k].row.close)
  {
    assert Closes(r, k + 1)[..k] == Closes(r, k);
  }

  /** Positive closes never divide by zero, and the windows are full from the twentieth bar. */
  lemma WindowsAreSound(r: SandboxRequest, k: nat)
    requires r.Valid() && k <= |r.bars|
    ensures Full(Windows(r, k)) <==> LOOKBACK <= k
    ensures Full(Windows(r, k)) ==> Divisible(Windows(r, k))
  {
    var n := |r.init.symbols|;
    forall j | 0 <= j < n
      ensures |Windows(r, k)[j]| == Kept(k)
      ensures forall t :: 0 <= t < Kept(k) ==> 0.0 < Windows(r, k)[j][t]
    {
      WindowIsRecent(n, Closes(r, k), j);
      forall t | 0 <= t < Kept(k)
        ensures 0.0 < Windows(r, k)[j][t]
      {
        assert Windows(r, k)[j][t] == r.bars[k - Kept(k) + t].row.close[j];
      }
    }
    assert |Windows(r, k)[0]| == Kept(k);
  }

  /** What the strategy holds on bar k: nothing for nineteen bars, then the portfolio of the
      twenty latest closes. */
  function Holding(r: SandboxRequest, k: nat): Vec
    requires r.Valid() && k < |r.bars|
  {
    WindowsAreSound(r, k + 1);
    if k + 1 < LOOKBACK then Zeros(|r.init.symbols|) else Portfolio(r.init.symbols, Windows(r, k + 1))
  }

  lemma NextHolds(r: SandboxRequest, k: nat)
    requires r.Valid() && k < |r.bars|
    ensures Next(Instance(r.init.symbols, Windows(r, k)), r.bars[k])
              == Worker.Done((Instance(r.init.symbols, Windows(r, k + 1)), Worker.Items(FloatItems(Holding(r, k)))))
  {
    hide Windows, Portfolio, Full, Divisible, FloatItems, Observed;
    WindowsAreSound(r, k + 1);
    WindowsStep(r, k);
  }

  lemma {:induction false} MomentumFolds(r: SandboxRequest, k: nat)
    requires r.Valid() && k <= |r.bars|
    ensures Lockstep.InstanceBefore(Momentum(), r.init, r.bars, k) == Some(Instance(r.init.symbols, Windows(r, k)))
    ensures k < |r.bars| ==> Lockstep.ActAt(Momentum(), r, k) == Lockstep.Did(Numbers(Holding(r, k)))
  {
    hide Windows, Holding, Next, FloatItems, Worker.CoerceWeights;
    if k == 0 {
      StartsEmpty(r);
    } else {
      MomentumFolds(r, k - 1);
      NextHolds(r, k - 1);
      FloatsAreKept(Holding(r, k - 1));
    }
    if k < |r.bars| {
      NextHolds(r, k);
      FloatsAreKept(Holding(r, k));
    }
  }

  lemma StartsEmpty(r: SandboxRequest)
    requires r.Valid()
    ensures Windows(r, 0) == seq(|r.init.symbols|, _ => [])
  {
    assert Closes(r, 0) == [];
  }

  /** The gain of every symbol over the nineteen sessions up to bar k. */
  function GainsUpTo(r: SandboxRequest, k: nat): Vec
    requires r.Valid() && 19 <= k < |r.bars|
  {
    seq(|r.init.symbols|, i requires 0 <= i < |r.init.symbols| => r.bars[k].row.close[i] / r.bars[k - 19].row.close[i])
  }

  /** On bar k the strategy holds nothing while fewer than twenty bars are in, and from then
      on buys the symbols that gained most over the nineteen sessions before and sells those
      that gained least. */
  lemma HoldsByMomentum(r: SandboxRequest, k: nat)
    requires r.Valid() && k < |r.bars|
    ensures k < 19 ==> Holding(r, k) == Zeros(|r.init.symbols|)
    ensures 19 <= k ==> FollowsMomentum(Holding(r, k), r.init.symbols, GainsUpTo(r, k))
  {
    hide Portfolio, Windows, FollowsMomentum, Full;
    WindowsAreSound(r, k + 1);
    if 19 <= k {
      PortfolioByCloses(r.init.symbols, Windows(r, k + 1));
      forall i | 0 <= i < |r.init.symbols|
        ensures Gains(Windows(r, k + 1))[i] == GainsUpTo(r, k)[i]
      {
        GainOf(r, k, i);
      }
      assert Gains(Windows(r, k + 1)) == GainsUpTo(r, k);
    }
  }

  lemma GainOf(r: SandboxRequest, k: nat, i: nat)
    requires r.Valid() && 19 <= k < |r.bars| && i < |r.init.symbols|
    requires Full(Windows(r, k + 1)) && Divisible(Windows(r, k + 1))
    ensures Gain(Windows(r, k + 1)[i]) == GainsUpTo(r, k)[i]
  {
    hide Windows;
    var n := |r.init.symbols|;
    WindowHoldsLatest(r, k + 1, i);
  }

  lemma WindowHoldsLatest(r: SandboxRequest, k: nat, i: nat)
    requires r.Valid() && k <= |r.bars| && i < |r.init.symbols|
    ensures |Windows(r, k)[i]| == Kept(k)
    ensures forall t :: 0 <= t < Kept(k) ==> Windows(r, k)[i][t] == r.bars[k - Kept(k) + t].row.close[i]
  {
    WindowIsRecent(|r.init.symbols|, Closes(r, k), i);
    assert forall t :: 0 <= t < k ==> Closes(r, k)[t] == r.bars[t].row.close;
  }

  /** The limits leave room for the strategy's book. */
  predicate LeavesRoom(init: InitializeFrame) {
    && init.allowShort
    && LEG <= init.maxAbsWeight + WEIGHT_TOLERANCE
    && 0.5 * PerSide(|init.symbols|) as real <= init.maxGross + WEIGHT_TOLERANCE
  }

  lemma ZerosAdmissible(init: InitializeFrame)
    requires init.Valid()
    ensures Admissible(Zeros(|init.symbols|), init)
  {
    hide Gross;
    GrossOfZeros(|init.symbols|);
  }

  lemma PortfolioAdmissibleExactlyWhen(init: InitializeFrame, closes: seq<Vec>)
    requires init.Valid() && |closes| == |init.symbols| && Full(closes) && Divisible(closes)
    ensures Admissible(Portfolio(init.symbols, closes), init) <==> LeavesRoom(init)
  {
    hide Portfolio, Gross, Ranked, Scores, PerSide;
    var w := Portfolio(init.symbols, closes);
    PortfolioIsNeutral(init.symbols, closes);
    SmallWeights(init.symbols, closes);
    SidesAreUsed(|init.symbols|);
    PortfolioByRank(init.symbols, closes, 0);
    var i := Ranked(Scores(init.symbols, closes), KeyOf)[0].index;
    assert w[i] == -LEG;
  }

  lemma SidesAreUsed(n: nat)
    requires 2 <= n
    ensures 1 <= PerSide(n)
  {
  }

  lemma SmallWeights(symbols: seq<string>, closes: seq<Vec>)
    requires |symbols| == |closes| && Full(closes) && Divisible(closes)
    ensures forall i :: 0 <= i < |closes| ==> Abs(Portfolio(symbols, closes)[i]) <= LEG
  {
    hide Ranked, Scores;
    RankedIndexed(symbols, closes);
    var ranked, p := Ranked(Scores(symbols, closes), KeyOf), PerSide(|symbols|);
    var zeros := Zeros(|symbols|);
    forall i | 0 <= i < |closes|
      ensures Abs(Portfolio(symbols, closes)[i]) <= LEG
    {
      AssignAt(zeros, ranked[..p], -LEG, i);
      AssignAt(Assign(zeros, ranked[..p], -LEG), LastOf(ranked, p), LEG, i);
    }
  }

  lemma HoldingAdmissible(r: SandboxRequest, k: nat)
    requires r.Valid() && k < |r.bars|
    ensures Admissible(Holding(r, k), r.init) <==> k + 1 < LOOKBACK || LeavesRoom(r.init)
  {
    hide Admissible, Windows, Portfolio, Full, Divisible;
    WindowsAreSound(r, k + 1);
    if k + 1 < LOOKBACK {
      ZerosAdmissible(r.init);
    } else {
      PortfolioAdmissibleExactlyWhen(r.init, Windows(r, k + 1));
    }
  }

  lemma MomentumBehavesExactlyWhen(r: SandboxRequest)
    requires r.Valid()
    ensures Simulation.BehavesThrough(Momentum(), r, |r.bars|) <==> |r.bars| < LOOKBACK || LeavesRoom(r.init)
  {
    hide Admissible, LeavesRoom, Holding, Numbers, Lockstep.ActAt, Lockstep.InstanceBefore;
    forall k | 0 <= k < |r.bars|
      ensures Lockstep.InstanceBefore(Momentum(), r.init, r.bars, k).Some?
      ensures Lockstep.ActAt(Momentum(), r, k) == Lockstep.Did(Numbers(Holding(r, k)))
      ensures Simulation.Portfolio(r.init, Lockstep.ActAt(Momentum(), r, k)) <==> k + 1 < LOOKBACK || LeavesRoom(r.init)
    {
      MomentumFolds(r, k);
      FloatsAreKept(Holding(r, k));
      HoldingAdmissible(r, k);
    }
    MomentumStarts(r);
    if LOOKBACK <= |r.bars| {
      assert Simulation.Portfolio(r.init, Lockstep.ActAt(Momentum(), r, LOOKBACK - 1)) <==> LeavesRoom(r.init);
    }
  }

  lemma MomentumStarts(r: SandboxRequest)
    ensures Lockstep.StartAct(Momentum(), r.init).Did?
  {
  }

  lemma MomentumIsQuiet(r: SandboxRequest)
    requires r.Valid()
    ensures Simulation.Quiet(Momentum(), r)
  {
    hide Holding, Numbers, Lockstep.ActAt, Lockstep.InstanceBefore;
    MomentumStarts(r);
    forall k | 0 <= k < |r.bars|
      ensures Lockstep.InstanceBefore(Momentum(), r.init, r.bars, k).Some?
      ensures !Lockstep.ActAt(Momentum(), r, k).Prints?
    {
      MomentumFolds(r, k);
    }
  }

  /** In the sandbox the bundled strategy completes exactly when it is in time, exits cleanly,
      its output fits the byte budget and, once twenty bars are in, the limits leave room for
      its book; its frames then hold nothing for nineteen bars and the portfolio of the latest
      closes after. */
  lemma MomentumCompletesExactlyWhen(r: SandboxRequest, around: Lockstep.Surroundings)
    requires r.Valid() && around.Valid()
    ensures var loaded, n := Worker.Done(Momentum()), |r.bars| + 2;
            var result := ProcessDriver.Drive(Lockstep.WithWorker(loaded, around, r.limits), r);
            && (result.Succeeded() <==>
                  && (|r.bars| < LOOKBACK || LeavesRoom(r.init))
                  && Lockstep.Spent(r, around, n) + around.exitSeconds <= r.limits.timeoutSeconds
                  && around.exitCode == 0
                  && Lockstep.Bytes(loaded, r, around, n) + |ProcessDriver.Flatten(around.stderr)|
                       <= r.limits.maxOutputBytes)
            && (result.Succeeded() ==>
                  && |result.frames| == |r.bars|
                  && forall k :: 0 <= k < |r.bars| ==> result.frames[k].weights == Numbers(Holding(r, k)))
  {
    hide ProcessDriver.Drive, LeavesRoom, Holding, Numbers, Simulation.BehavesThrough, Simulation.Quiet;
    hide Lockstep.Bytes, Lockstep.Spent, Lockstep.ActAt, Lockstep.InstanceBefore;
    Simulation.CompletesExactlyWhenWellBehaved(Momentum(), r, around);
    MomentumBehavesExactlyWhen(r);
    MomentumIsQuiet(r);
    forall k | 0 <= k < |r.bars|
      ensures Lockstep.InstanceBefore(Momentum(), r.init, r.bars, k).Some?
      ensures Lockstep.ActAt(Momentum(), r, k) == Lockstep.Did(Numbers(Holding(r, k)))
    {
      MomentumFolds(r, k);
    }
  }
}
