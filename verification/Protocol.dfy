/** The lockstep messages and the checks their models carry. */
module Protocol {
  import opened Wrappers
  import opened Vectors

  const PROTOCOL_VERSION := "alpha-gate.strategy.v1"
  const WEIGHT_TOLERANCE := 0.000000000001

  /** A JSON or Python float: a finite real, or one of NaN and the infinities. */
  datatype Number = Finite(value: real) | NonFinite

  predicate AllFinite(numbers: seq<Number>) {
    forall i :: 0 <= i < |numbers| ==> numbers[i].Finite?
  }

  function Values(numbers: seq<Number>): Vec
    requires AllFinite(numbers)
  {
    seq(|numbers|, i requires 0 <= i < |numbers| => numbers[i].value)
  }

  datatype InitializeFrame = InitializeFrame(
    symbols: seq<string>,
    seed: int,
    maxGross: real,
    maxAbsWeight: real,
    allowShort: bool)
  {
    predicate Valid() {
      && 2 <= |symbols| <= 256
      && 0.0 < maxGross <= 2.0
      && 0.0 < maxAbsWeight <= 1.0
      && (forall i, j :: 0 <= i < j < |symbols| ==> symbols[i] != symbols[j])
      && (forall i :: 0 <= i < |symbols| ==> 1 <= |symbols[i]| <= 64)
    }
  }

  /** One session of the market, one entry per symbol in every vector. */
  datatype Row = Row(
    date: string,
    close: Vec,
    spot: Vec,
    carry: Vec,
    spread: Vec,
    foreignRate: Vec,
    baseRate: Vec)
  {
    predicate Valid(symbolCount: nat) {
      && |close| == |spot| == |carry| == |spread| == |foreignRate| == |baseRate| == symbolCount
      && (forall i :: 0 <= i < |close| ==> 0.0 < close[i])
      && (forall i :: 0 <= i < |spread| ==> 0.0 <= spread[i])
    }
  }

  datatype BarFrame = BarFrame(sequence: nat, row: Row)

  datatype RequestFrame = Initialize(init: InitializeFrame) | Bar(bar: BarFrame) | Stop

  datatype Response =
    | Ready
    | Weights(sequence: nat, weights: seq<Number>)
    | CandidateError(message: string)
    | Stopped

  /** The content of one line on the worker's stdout, before any validation. */
  datatype RawResponse =
    | RawReady(version: string)
    | RawWeights(sequence: int, weights: seq<Number>)
    | RawError(errorSequence: Option<int>, message: string)
    | RawStopped
    | Malformed

  function ParseResponse(raw: RawResponse): Option<Response> {
    match raw
    case RawReady(version) =>
      if version == PROTOCOL_VERSION then Some(Ready) else None
    case RawWeights(sequence, weights) =>
      if 0 <= sequence && AllFinite(weights) then Some(Weights(sequence, weights)) else None
    case RawError(sequence, message) =>
      if (sequence.Some? ==> 0 <= sequence.value) && 1 <= |message| <= 512
      then Some(CandidateError(message))
      else None
    case RawStopped => Some(Stopped)
    case Malformed => None
  }

  datatype WeightFault = WrongCount | NotFinite | ShortDisabled | PositionTooLarge | GrossTooLarge

  /** What a portfolio must satisfy before trusted code uses it. */
  predicate Admissible(weights: Vec, init: InitializeFrame) {
    && |weights| == |init.symbols|
    && (!init.allowShort ==> forall i :: 0 <= i < |weights| ==> -WEIGHT_TOLERANCE <= weights[i])
    && (forall i :: 0 <= i < |weights| ==> Abs(weights[i]) <= init.maxAbsWeight + WEIGHT_TOLERANCE)
    && Gross(weights) <= init.maxGross + WEIGHT_TOLERANCE
  }

  function ValidateTargetWeights(weights: seq<Number>, init: InitializeFrame): (r: Result<Vec, WeightFault>)
    ensures r.Success? <==> AllFinite(weights) && Admissible(Values(weights), init)
    ensures r.Success? ==> r.value == Values(weights)
  {
    if |weights| != |init.symbols| then
      Failure(WrongCount)
    else if exists i :: 0 <= i < |weights| && weights[i].NonFinite? then
      Failure(NotFinite)
    else
      var values := Values(weights);
      if !init.allowShort && exists i :: 0 <= i < |values| && values[i] < -WEIGHT_TOLERANCE then
        Failure(ShortDisabled)
      else if exists i :: 0 <= i < |values| && init.maxAbsWeight + WEIGHT_TOLERANCE < Abs(values[i]) then
        Failure(PositionTooLarge)
      else if init.maxGross + WEIGHT_TOLERANCE < Gross(values) then
        Failure(GrossTooLarge)
      else
        Success(values)
  }

  // ----- which fault is named

  /** The portfolio has this fault, and none that is looked for before it. */
  predicate HasFault(weights: seq<Number>, init: InitializeFrame, fault: WeightFault) {
    && (fault.WrongCount? <==> |weights| != |init.symbols|)
    && (!fault.WrongCount? ==>
          && (fault.NotFinite? <==> exists i :: 0 <= i < |weights| && weights[i].NonFinite?)
          && (!fault.NotFinite? ==>
                && (fault.ShortDisabled? <==>
                      !init.allowShort && exists i :: 0 <= i < |weights| && Below(weights[i], -0.000000000001))
                && (fault.PositionTooLarge? ==>
                      exists i :: 0 <= i < |weights| && Beyond(weights[i], init.maxAbsWeight + 0.000000000001))
                && (fault.GrossTooLarge? ==>
                      && (forall i :: 0 <= i < |weights| ==> !Beyond(weights[i], init.maxAbsWeight + 0.000000000001))
                      && init.maxGross + 0.000000000001 < Sum(Sizes(weights)))))
  }

  predicate Below(number: Number, bound: real) {
    number.Finite? && number.value < bound
  }

  predicate Beyond(number: Number, bound: real) {
    number.Finite? && (bound < number.value || number.value < -bound)
  }

  function Sizes(weights: seq<Number>): Vec
    requires forall i :: 0 <= i < |weights| ==> weights[i].Finite?
  {
    seq(|weights|, i requires 0 <= i < |weights| =>
      if weights[i].value < 0.0 then -weights[i].value else weights[i].value)
  }

  /** A rejected portfolio has the fault it is rejected for, and an accepted one has none. */
  lemma FirstWeightFault(weights: seq<Number>, init: InitializeFrame)
    ensures match ValidateTargetWeights(weights, init)
            case Failure(fault) => HasFault(weights, init, fault)
            case Success(_) => forall fault :: !HasFault(weights, init, fault)
  {
    hide Sum;
    if |weights| == |init.symbols| && AllFinite(weights) {
      var values := Values(weights);
      assert AbsAll(values) == Sizes(weights);
      assert forall i :: 0 <= i < |values| ==> values[i] == weights[i].value;
    }
  }
}
