/** The worker inside the sandbox: one JSON line in, one JSON line out, around a
    candidate strategy that may return anything, raise anything, print, or never return. */
module Worker {
  import opened Wrappers
  import opened Protocol

  /** How a call into candidate code ends. */
  datatype Attempt<+T> = Done(value: T) | Threw(exc: Raised) | Hangs

  /** A call into candidate code that is not wholly under the stdout redirect: the lines it
      puts on the protocol stream itself, then how it ends. */
  datatype Call<+T> = Call(printed: seq<RawResponse>, outcome: Attempt<T>)

  /** A raised exception; rendering it as text is again a call into candidate code. */
  datatype Raised = Raised(typeName: string, text: Call<string>)

  /** One returned weight; HugeIntItem is an integer that does not convert to a float. */
  datatype Item = IntItem(i: int) | HugeIntItem | FloatItem(number: Number) | BoolItem | OtherItem

  /** What on_bar returned, after any tolist(). */
  datatype Value = Items(items: seq<Item>) | NotASequence

  /** Constructing an instance and answering a bar, the latter with tolist() and iteration. */
  datatype Strategy<!S> = Strategy(
    construct: (seq<string>, int) -> Call<S>,
    onBar: (S, BarFrame) -> Call<(S, Value)>)

  /** One line of stdin; Unreadable stands for text json.loads or the object check rejects. */
  datatype InputLine =
    | Unreadable(exc: Raised)
    | InitializeLine(version: string, symbols: Option<seq<string>>, seed: Option<int>)
    | BarLine(sequence: Option<int>, bar: BarFrame)
    | StopLine
    | UnknownType

  /** Where the loop stands: reading with the current instance, returned, left by an
      exception that nothing reported, or stuck in a call. */
  datatype State<+S> = Running(instance: Option<S>) | Exited(code: int) | Escaped | Stuck

  /** An exception of the worker's own, whose text is plain. */
  function Own(typeName: string, text: string): Raised {
    Raised(typeName, Call([], Done(text)))
  }

  function Blanked(text: string): string {
    seq(|text|, i requires 0 <= i < |text| => if text[i] == '\n' then ' ' else text[i])
  }

  function MessageError(typeName: string, text: string): string {
    var detail := if |text| <= 400 then Blanked(text) else Blanked(text)[..400];
    if detail != "" then typeName + ": " + detail else typeName
  }

  /** The message of an error frame: the exception's type and, unless it has no text, a colon
      and the text, at most 400 characters of it, on one line. */
  lemma MessageReads(typeName: string, text: string)
    ensures text == "" ==> MessageError(typeName, text) == typeName
    ensures text != "" ==>
              var message, shown := MessageError(typeName, text), if |text| < 400 then |text| else 400;
              && |message| == |typeName| + 2 + shown
              && message[..|typeName| + 2] == typeName + ": "
              && forall i :: 0 <= i < shown ==>
                   message[|typeName| + 2 + i] == (if text[i] == '\n' then ' ' else text[i])
  {
    if text != "" {
      var detail := if |text| <= 400 then Blanked(text) else Blanked(text)[..400];
      assert MessageError(typeName, text) == typeName + ": " + detail;
    }
  }

  const VERSION_ERROR := Own("ValueError", "unsupported protocol version")
  const SYMBOLS_ERROR := Own("TypeError", "symbols must be a string list")
  const SEED_ERROR := Own("TypeError", "seed must be an integer")
  const ORDER_ERROR := Own("RuntimeError", "initialize must precede bars")
  const SEQUENCE_ERROR := Own("TypeError", "bar sequence must be an integer")
  const UNKNOWN_ERROR := Own("ValueError", "unknown request frame type")
  const SHAPE_ERROR := Own("TypeError", "on_bar must return a list, tuple, or one-dimensional array")
  const NUMBER_ERROR := Own("TypeError", "weights must be real numbers")
  const OVERFLOW_ERROR := Own("OverflowError", "int too large to convert to float")
  const FINITE_ERROR := Own("ValueError", "weights must be finite")

  // ----- coercion of the returned portfolio

  function AsFloat(item: Item): Result<Number, Raised> {
    match item
    case BoolItem => Failure(NUMBER_ERROR)
    case OtherItem => Failure(NUMBER_ERROR)
    case HugeIntItem => Failure(OVERFLOW_ERROR)
    case IntItem(i) => Success(Finite(i as real))
    case FloatItem(number) => if number.Finite? then Success(number) else Failure(FINITE_ERROR)
  }

  /** All the items as finite floats, or the complaint about the first that is not one. */
  function Coerced(items: seq<Item>): (r: Result<seq<Number>, Raised>)
    ensures r.Success? <==> forall i :: 0 <= i < |items| ==> AsFloat(items[i]).Success?
    ensures r.Success? ==>
              && |r.value| == |items|
              && AllFinite(r.value)
              && forall i :: 0 <= i < |items| ==> AsFloat(items[i]) == Success(r.value[i])
  {
    if items == [] then
      Success([])
    else
      var n := |items| - 1;
      match Coerced(items[..n])
      case Failure(exc) => Failure(exc)
      case Success(weights) =>
        match AsFloat(items[n])
        case Failure(exc) => Failure(exc)
        case Success(number) => Success(weights + [number])
  }

  function CoerceWeights(value: Value): (r: Result<seq<Number>, Raised>)
    ensures r.Success? ==> AllFinite(r.value)
  {
    match value
    case NotASequence => Failure(SHAPE_ERROR)
    case Items(items) => Coerced(items)
  }

  lemma {:induction false} CoercedStopsAtFirst(items: seq<Item>, k: nat)
    requires k < |items|
    requires forall i :: 0 <= i < k ==> AsFloat(items[i]).Success?
    requires AsFloat(items[k]).Failure?
    ensures Coerced(items) == Failure(AsFloat(items[k]).error)
  {
    var n := |items| - 1;
    if k < n {
      CoercedStopsAtFirst(items[..n], k);
    }
  }

  /** What becomes of one returned item: an int or a finite float is that number. */
  predicate Becomes(item: Item, number: Number) {
    match item
    case IntItem(i) => number == Finite(i as real)
    case FloatItem(x) => number == x && x.Finite?
    case HugeIntItem => false
    case BoolItem => false
    case OtherItem => false
  }

  /** Why an item cannot be a weight, by the exception it raises. */
  predicate Refused(item: Item, typeName: string) {
    match item
    case BoolItem => typeName == "TypeError"
    case OtherItem => typeName == "TypeError"
    case HugeIntItem => typeName == "OverflowError"
    case FloatItem(x) => typeName == "ValueError" && x.NonFinite?
    case IntItem(_) => false
  }

  predicate IsNumber(item: Item) {
    item.IntItem? || (item.FloatItem? && item.number.Finite?)
  }

  lemma ItemBecomes(item: Item)
    ensures AsFloat(item).Success? <==> IsNumber(item)
    ensures AsFloat(item).Success? ==> Becomes(item, AsFloat(item).value)
    ensures AsFloat(item).Failure? ==> Refused(item, AsFloat(item).error.typeName)
  {
  }

  /** The item that is refused is the first that is no number. */
  predicate FirstRefusal(items: seq<Item>, k: nat, typeName: string) {
    k < |items| && Refused(items[k], typeName) && forall j :: 0 <= j < k ==> IsNumber(items[j])
  }

  /** The weights are exactly the numbers returned, in order; they are refused exactly when
      what was returned is no sequence, or some item is a bool, of another type, an integer
      too large or a float that is not finite, and by the exception of the first such item. */
  lemma CoercionIsExact(value: Value)
    ensures CoerceWeights(value).Success? <==>
              value.Items? && forall k :: 0 <= k < |value.items| ==> IsNumber(value.items[k])
    ensures CoerceWeights(value).Success? ==>
              && |CoerceWeights(value).value| == |value.items|
              && forall k :: 0 <= k < |value.items| ==> Becomes(value.items[k], CoerceWeights(value).value[k])
    ensures value.NotASequence? ==> CoerceWeights(value).error.typeName == "TypeError"
    ensures value.Items? && CoerceWeights(value).Failure? ==>
              exists k: nat :: FirstRefusal(value.items, k, CoerceWeights(value).error.typeName)
  {
    hide AsFloat, Becomes, IsNumber, Refused;
    if value.Items? {
      forall k | 0 <= k < |value.items|
        ensures AsFloat(value.items[k]).Success? <==> IsNumber(value.items[k])
        ensures AsFloat(value.items[k]).Success? ==> Becomes(value.items[k], AsFloat(value.items[k]).value)
        ensures AsFloat(value.items[k]).Failure? ==> Refused(value.items[k], AsFloat(value.items[k]).error.typeName)
      {
        ItemBecomes(value.items[k]);
      }
      if Coerced(value.items).Failure? {
        var k := FirstRefused(value.items);
        assert FirstRefusal(value.items, k, CoerceWeights(value).error.typeName);
      }
    }
  }

  lemma {:induction false} FirstRefused(items: seq<Item>) returns (k: nat)
    requires Coerced(items).Failure?
    ensures k < |items| && AsFloat(items[k]) == Failure(Coerced(items).error)
    ensures forall j :: 0 <= j < k ==> AsFloat(items[j]).Success?
  {
    hide AsFloat;
    k := |items| - 1;
    if Coerced(items[..k]).Failure? {
      k := FirstRefused(items[..k]);
    } else {
      assert forall j :: 0 <= j < k ==> items[..k][j] == items[j];
    }
  }

  method CoerceWeightsLoop(value: Value) returns (r: Result<seq<Number>, Raised>)
    ensures r == CoerceWeights(value)
  {
    if value.NotASequence? {
      return Failure(SHAPE_ERROR);
    }
    var weights := [];
    for i := 0 to |value.items|
      invariant Coerced(value.items[..i]) == Success(weights)
    {
      assert value.items[..i + 1][..i] == value.items[..i];
      var item := value.items[i];
      if item.BoolItem? || item.OtherItem? {
        CoercedStopsAtFirst(value.items, i);
        return Failure(NUMBER_ERROR);
      }
      if item.HugeIntItem? {
        CoercedStopsAtFirst(value.items, i);
        return Failure(OVERFLOW_ERROR);
      }
      var number := if item.IntItem? then Finite(item.i as real) else item.number;
      if number.NonFinite? {
        CoercedStopsAtFirst(value.items, i);
        return Failure(FINITE_ERROR);
      }
      weights := weights + [number];
    }
    assert value.items[..|value.items|] == value.items;
    return Success(weights);
  }

  // ----- the loop

  /** The lines one input line gives, and the state after it. */
  function Handle<S>(strategy: Strategy<S>, instance: Option<S>, line: InputLine): (seq<RawResponse>, State<S>) {
    match line
    case Unreadable(exc) => Report(None, exc)
    case UnknownType => Report(None, UNKNOWN_ERROR)
    case StopLine => ([RawStopped], Exited(0))
    case InitializeLine(version, symbols, seed) =>
      if version != PROTOCOL_VERSION then Report(None, VERSION_ERROR)
      else if symbols.None? then Report(None, SYMBOLS_ERROR)
      else if seed.None? then Report(None, SEED_ERROR)
      else
        var call := strategy.construct(symbols.value, seed.value);
        match call.outcome {
          case Done(created) => (call.printed + [RawReady(PROTOCOL_VERSION)], Running(Some(created)))
          case Threw(exc) => After(call.printed, Report(None, exc))
          case Hangs => (call.printed, Stuck)
        }
    case BarLine(sequence, bar) =>
      if instance.None? then Report(None, ORDER_ERROR)
      else if sequence.None? then Report(None, SEQUENCE_ERROR)
      else
        var call := strategy.onBar(instance.value, bar);
        match call.outcome {
          case Hangs => (call.printed, Stuck)
          case Threw(exc) => After(call.printed, Report(sequence, exc))
          case Done((next, value)) =>
            match CoerceWeights(value)
            case Failure(exc) => After(call.printed, Report(sequence, exc))
            case Success(weights) => (call.printed + [RawWeights(sequence.value, weights)], Running(Some(next)))
        }
  }

  /** The error frame and exit status 1; nothing of the kind when the exception cannot be
      rendered, because that happens inside the handler. */
  function Report<S>(sequence: Option<int>, exc: Raised): (seq<RawResponse>, State<S>) {
    match exc.text.outcome
    case Done(text) => (exc.text.printed + [RawError(sequence, MessageError(exc.typeName, text))], Exited(1))
    case Threw(_) => (exc.text.printed, Escaped)
    case Hangs => (exc.text.printed, Stuck)
  }

  function After<S>(printed: seq<RawResponse>, step: (seq<RawResponse>, State<S>)): (seq<RawResponse>, State<S>) {
    (printed + step.0, step.1)
  }

  /** All lines written for a list of input lines, and the state they leave the loop in. */
  function Answers<S>(loaded: Attempt<Strategy<S>>, lines: seq<InputLine>): (seq<RawResponse>, State<S>)
    decreases |lines|
  {
    match loaded
    case Hangs => ([], Stuck)
    case Threw(exc) => Report(None, exc)
    case Done(strategy) =>
      if lines == [] then
        ([], Running(None))
      else
        var (replies, state) := Answers(loaded, lines[..|lines| - 1]);
        if !state.Running? then
          (replies, state)
        else
          After(replies, Handle(strategy, state.instance, lines[|lines| - 1]))
  }

  /** Once the loop has ended or is stuck, further lines change nothing. */
  lemma {:induction false} AnswersSettle<S>(loaded: Attempt<Strategy<S>>, lines: seq<InputLine>, k: nat)
    requires k <= |lines|
    requires !Answers(loaded, lines[..k]).1.Running?
    ensures Answers(loaded, lines) == Answers(loaded, lines[..k])
  {
    if k == |lines| {
      assert lines[..k] == lines;
    } else {
      var n := |lines| - 1;
      assert lines[..n][..k] == lines[..k];
      AnswersSettle(loaded, lines[..n], k);
    }
  }

  /** The handler: write the error frame and return 1, unless rendering the exception leaves
      the handler or never ends; None is no exit code of run's own. */
  method EmitError(sequence: Option<int>, exc: Raised) returns (out: seq<RawResponse>, code: Option<int>)
    ensures var (lines, state) := Report<()>(sequence, exc);
            out == lines && code == (if state.Exited? then Some(state.code) else None)
  {
    out := exc.text.printed;
    match exc.text.outcome {
      case Done(text) =>
        return out + [RawError(sequence, MessageError(exc.typeName, text))], Some(1);
      case Threw(_) =>
        return out, None;
      case Hangs =>
        return out, None;
    }
  }

  lemma ReportIsGeneric<S>(sequence: Option<int>, exc: Raised)
    ensures var a, b := Report<()>(sequence, exc), Report<S>(sequence, exc);
            a.0 == b.0 && !b.1.Running? && a.1.Exited? == b.1.Exited? && (a.1.Exited? ==> a.1.code == b.1.code)
  {
  }

  /** run: the lines written and the exit code, or None when candidate code keeps control or
      an exception leaves run. */
  method Run<S>(loaded: Attempt<Strategy<S>>, lines: seq<InputLine>)
    returns (out: seq<RawResponse>, code: Option<int>)
    ensures var (replies, state) := Answers(loaded, lines);
            && out == replies
            && code == match state
                       case Running(_) => Some(0)
                       case Exited(c) => Some(c)
                       case Escaped => None
                       case Stuck => None
  {
    hide MessageError, CoerceWeights, Report;
    out := [];
    if loaded.Hangs? {
      return out, None;
    }
    if loaded.Threw? {
      ReportIsGeneric<S>(None, loaded.exc);
      out, code := EmitError(None, loaded.exc);
      return;
    }
    var strategy := loaded.value;
    var instance: Option<S> := None;
    for i := 0 to |lines|
      invariant Answers(loaded, lines[..i]) == (out, Running(instance))
    {
      assert lines[..i + 1][..i] == lines[..i];
      assert Answers(loaded, lines[..i + 1]) == After(out, Handle(strategy, instance, lines[i]));
      ghost var written := out;
      var printed, reply, failure, sequence, hangs;
      printed, reply, failure, sequence, hangs, instance := Step(strategy, instance, lines[i]);
      out := out + printed;
      if hangs {
        AnswersSettle(loaded, lines, i + 1);
        return out, None;
      }
      if failure.Some? {
        ReportIsGeneric<S>(sequence, failure.value);
        var report;
        report, code := EmitError(sequence, failure.value);
        AnswersSettle(loaded, lines, i + 1);
        assert written + (printed + report) == out + report;
        return out + report, code;
      }
      assert written + (printed + [reply]) == out + [reply];
      out := out + [reply];
      if lines[i].StopLine? {
        AnswersSettle(loaded, lines, i + 1);
        return out, Some(0);
      }
    }
    assert lines[..|lines|] == lines;
    code := Some(0);
  }

  /** The try block of run for one line: what candidate code printed, and the reply to emit,
      the exception to report, or no return at all. */
  method Step<S>(strategy: Strategy<S>, before: Option<S>, line: InputLine)
    returns (printed: seq<RawResponse>, reply: RawResponse, failure: Option<Raised>, sequence: Option<int>,
             hangs: bool, instance: Option<S>)
    ensures var step := Handle(strategy, before, line);
            if hangs then step == (printed, Stuck)
            else if failure.Some? then step == After(printed, Report(sequence, failure.value))
            else step == (printed + [reply], if line.StopLine? then Exited(0) else Running(instance))
  {
    hide MessageError, CoerceWeights, Report;
    printed, reply, failure, sequence, hangs, instance := [], Malformed, None, None, false, before;
    match line {
      case Unreadable(exc) =>
        failure := Some(exc);
      case InitializeLine(version, symbols, seed) =>
        if version != PROTOCOL_VERSION {
          failure := Some(VERSION_ERROR);
        } else if symbols.None? {
          failure := Some(SYMBOLS_ERROR);
        } else if seed.None? {
          failure := Some(SEED_ERROR);
        } else {
          var made := strategy.construct(symbols.value, seed.value);
          printed := made.printed;
          match made.outcome {
            case Done(created) =>
              instance, reply := Some(created), RawReady(PROTOCOL_VERSION);
            case Threw(exc) =>
              failure := Some(exc);
            case Hangs =>
              hangs := true;
          }
        }
      case BarLine(raw, bar) =>
        if instance.None? {
          failure := Some(ORDER_ERROR);
        } else if raw.None? {
          failure := Some(SEQUENCE_ERROR);
        } else {
          sequence := raw;
          var result := strategy.onBar(instance.value, bar);
          printed := result.printed;
          match result.outcome {
            case Hangs =>
              hangs := true;
            case Threw(exc) =>
              failure := Some(exc);
            case Done((next, value)) =>
              var weights := CoerceWeightsLoop(value);
              if weights.Success? {
                instance, reply := Some(next), RawWeights(sequence.value, weights.value);
              } else {
                failure := Some(weights.error);
              }
          }
        }
      case StopLine =>
        reply := RawStopped;
      case UnknownType =>
        failure := Some(UNKNOWN_ERROR);
    }
    assert [] + [reply] == [reply];
    if failure.Some? {
      AfterNothing<S>(Report(sequence, failure.value));
    }
  }

  lemma AfterNothing<S>(step: (seq<RawResponse>, State<S>))
    ensures After([], step) == step
  {
    assert [] + step.0 == step.0;
  }

  // ----- lines in, lines out

  /** Lines candidate code itself put on the protocol stream while one line was handled. */
  function PrintedBy<S>(strategy: Strategy<S>, instance: Option<S>, line: InputLine): nat {
    match line
    case Unreadable(exc) => |exc.text.printed|
    case UnknownType => 0
    case StopLine => 0
    case InitializeLine(version, symbols, seed) =>
      if version != PROTOCOL_VERSION || symbols.None? || seed.None? then 0
      else
        var call := strategy.construct(symbols.value, seed.value);
        |call.printed| + if call.outcome.Threw? then |call.outcome.exc.text.printed| else 0
    case BarLine(sequence, bar) =>
      if instance.None? || sequence.None? then 0
      else
        var call := strategy.onBar(instance.value, bar);
        |call.printed| + if call.outcome.Threw? then |call.outcome.exc.text.printed| else 0
  }

  /** And while all lines were handled. */
  function Printed<S>(strategy: Strategy<S>, lines: seq<InputLine>): nat {
    if lines == [] then 0
    else
      var n := |lines| - 1;
      var state := Answers(Done(strategy), lines[..n]).1;
      Printed(strategy, lines[..n]) + if state.Running? then PrintedBy(strategy, state.instance, lines[n]) else 0
  }

  lemma {:induction false} CoercionComplains(items: seq<Item>)
    ensures Coerced(items).Failure? ==> Coerced(items).error.text.printed == [] && Coerced(items).error.text.outcome.Done?
  {
    if items != [] {
      CoercionComplains(items[..|items| - 1]);
    }
  }

  /** A line is answered by one line of the worker's own, on top of what candidate code
      printed; by none exactly when candidate code hangs or its exception cannot be rendered. */
  lemma OneReplyOrNone<S>(strategy: Strategy<S>, instance: Option<S>, line: InputLine)
    ensures var (replies, state) := Handle(strategy, instance, line);
            |replies| == PrintedBy(strategy, instance, line) + (if state.Stuck? || state.Escaped? then 0 else 1)
  {
    hide MessageError;
    if line.BarLine? && instance.Some? && line.sequence.Some? {
      var call := strategy.onBar(instance.value, line.bar);
      if call.outcome.Done? && call.outcome.value.1.Items? {
        CoercionComplains(call.outcome.value.1.items);
      }
    }
  }

  /** From a loaded module, lines written are lines read plus lines candidate code printed;
      one fewer when the last one hung or escaped. */
  lemma {:induction false} OneReplyPerLine<S>(strategy: Strategy<S>, lines: seq<InputLine>)
    ensures var (replies, state) := Answers(Done(strategy), lines);
            && |replies| <= |lines| + Printed(strategy, lines)
            && (state.Running? ==> |replies| == |lines| + Printed(strategy, lines))
  {
    hide Handle, PrintedBy;
    if lines != [] {
      var n := |lines| - 1;
      OneReplyPerLine(strategy, lines[..n]);
      var state := Answers(Done(strategy), lines[..n]).1;
      if state.Running? {
        OneReplyOrNone(strategy, state.instance, lines[n]);
      }
    }
  }

  /** As long as it runs, the loop has written at least one line per line read. */
  lemma {:induction false} RepliesKeepUp<S>(loaded: Attempt<Strategy<S>>, lines: seq<InputLine>)
    ensures Answers(loaded, lines).1.Running? ==> |lines| <= |Answers(loaded, lines).0|
  {
    if loaded.Done? {
      OneReplyPerLine(loaded.value, lines);
    } else if loaded.Threw? {
      ReportIsGeneric<S>(None, loaded.exc);
    }
  }

  /** Lines already written never change as more lines arrive. */
  lemma {:induction false} AnswersExtend<S>(loaded: Attempt<Strategy<S>>, lines: seq<InputLine>, k: nat)
    requires k <= |lines|
    ensures Answers(loaded, lines[..k]).0 <= Answers(loaded, lines).0
  {
    hide Handle;
    if k == |lines| {
      assert lines[..k] == lines;
    } else {
      var n := |lines| - 1;
      assert lines[..n][..k] == lines[..k];
      AnswersExtend(loaded, lines[..n], k);
    }
  }
}
