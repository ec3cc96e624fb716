/** What the worker replies to a line it cannot accept, word for word. */
module Replies {
  import opened Wrappers
  import opened Protocol
  import opened Worker

  predicate OneRow(text: string) {
    forall i :: 0 <= i < |text| ==> text[i] != '\n'
  }

  /** One error frame with the exception's type and text, and exit status 1. */
  predicate Refuses<S>(step: (seq<RawResponse>, State<S>), typeName: string, text: string) {
    step == ([RawError(None, typeName + ": " + text)], Exited(1))
  }

  lemma OwnReport<S>(typeName: string, text: string)
    requires 0 < |text| <= 400 && OneRow(text)
    ensures Refuses(Report<S>(None, Own(typeName, text)), typeName, text)
  {
    assert Blanked(text) == text;
    var message := RawError(None, typeName + ": " + text);
    assert [] + [message] == [message];
  }

  /** An initialize line is refused for its version, then its symbols, then its seed. */
  lemma InitializeIsChecked<S>(strategy: Strategy<S>, instance: Option<S>, version: string,
                               symbols: Option<seq<string>>, seed: Option<int>)
    ensures var step := Handle(strategy, instance, InitializeLine(version, symbols, seed));
            && (version != "alpha-gate.strategy.v1" ==> Refuses(step, "ValueError", "unsupported protocol version"))
            && (version == "alpha-gate.strategy.v1" && symbols.None? ==>
                  Refuses(step, "TypeError", "symbols must be a string list"))
            && (version == "alpha-gate.strategy.v1" && symbols.Some? && seed.None? ==>
                  Refuses(step, "TypeError", "seed must be an integer"))
  {
    hide Report, Refuses, Own;
    OwnReport<S>("ValueError", "unsupported protocol version");
    OwnReport<S>("TypeError", "symbols must be a string list");
    OwnReport<S>("TypeError", "seed must be an integer");
  }

  /** So is a bar before initialize, or one without a sequence. */
  lemma BarIsChecked<S>(strategy: Strategy<S>, instance: Option<S>, sequence: Option<int>, bar: BarFrame)
    ensures var step := Handle(strategy, instance, BarLine(sequence, bar));
            && (instance.None? ==> Refuses(step, "RuntimeError", "initialize must precede bars"))
            && (instance.Some? && sequence.None? ==> Refuses(step, "TypeError", "bar sequence must be an integer"))
  {
    hide Report, Refuses, Own;
    OwnReport<S>("RuntimeError", "initialize must precede bars");
    OwnReport<S>("TypeError", "bar sequence must be an integer");
  }

  /** And a line of another type; a stop line is answered and ends the loop with status 0. */
  lemma OtherLinesAreAnswered<S>(strategy: Strategy<S>, instance: Option<S>)
    ensures Refuses(Handle(strategy, instance, UnknownType), "ValueError", "unknown request frame type")
    ensures Handle(strategy, instance, StopLine) == ([RawStopped], Exited(0))
  {
    hide Report, Refuses, Own;
    OwnReport<S>("ValueError", "unknown request frame type");
  }
}
