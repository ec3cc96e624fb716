/** The mutator told in plain terms: where the block is, which values a number is replaced by,
    that each of them can come up, and where untokenize puts a token. */
module Mutations {
  import opened Wrappers
  import opened Protocol
  import opened Executors
  import opened Text
  import opened LocalEvolver
  import opened EvolverProperties

  // ----- the block

  /** Line a, counted from one, is the marker once stripped, and no other line is. */
  predicate OnlyMarkerAt(lines: seq<string>, marker: string, a: nat) {
    && 1 <= a <= |lines|
    && forall k :: 0 <= k < |lines| ==> (Strip(lines[k]) == marker <==> k + 1 == a)
  }

  lemma {:induction false} MarkerLinesAre(lines: seq<string>, marker: string)
    ensures forall n :: n in MarkerLines(lines, marker) <==> 1 <= n <= |lines| && Strip(lines[n - 1]) == marker
    ensures forall i, j :: 0 <= i < j < |MarkerLines(lines, marker)| ==>
              MarkerLines(lines, marker)[i] < MarkerLines(lines, marker)[j]
  {
    hide Strip;
    if lines != [] {
      var n := |lines| - 1;
      MarkerLinesAre(lines[..n], marker);
      var before := MarkerLines(lines[..n], marker);
      assert forall i :: 0 <= i < |before| ==> before[i] in before;
    }
  }

  lemma OneMarkerLine(lines: seq<string>, marker: string, a: nat)
    ensures MarkerLines(lines, marker) == [a] <==> OnlyMarkerAt(lines, marker, a)
  {
    hide Strip, MarkerLines;
    MarkerLinesAre(lines, marker);
    if OnlyMarkerAt(lines, marker, a) {
      MarkerOnce(lines, a - 1, marker);
    }
    if MarkerLines(lines, marker) == [a] {
      assert a in MarkerLines(lines, marker);
      forall k | 0 <= k < |lines|
        ensures Strip(lines[k]) == marker <==> k + 1 == a
      {
        assert k + 1 in MarkerLines(lines, marker) <==> k + 1 == a;
      }
    }
  }

  /** A source has the evolve block (a, b) exactly when line a is its only start marker, line
      b its only end marker, and a comes first. */
  lemma EvolveBlockExactlyWhen(source: string, a: nat, b: nat)
    ensures EvolveBlock(source) == Some((a, b)) <==>
              && OnlyMarkerAt(SplitLines(source), "# EVOLVE-BLOCK-START", a)
              && OnlyMarkerAt(SplitLines(source), "# EVOLVE-BLOCK-END", b)
              && a < b
  {
    hide SplitLines, OnlyMarkerAt, MarkerLines;
    var lines := SplitLines(source);
    OneMarkerLine(lines, START_MARKER, a);
    OneMarkerLine(lines, END_MARKER, b);
    var starts, ends := MarkerLines(lines, START_MARKER), MarkerLines(lines, END_MARKER);
    if |starts| == 1 && |ends| == 1 {
      assert starts == [starts[0]] && ends == [ends[0]];
    }
  }

  // ----- the values offered

  /** One less, one more, half rounded down, and double, the number itself left out. */
  lemma IntegerOffers(n: nat, round: real -> Number, x: real)
    ensures x in Replacements(IntLiteral(n), round) <==>
              && x != n as real
              && (x == (n + 1) as real || x == (n / 2) as real || x == (2 * n) as real
                  || (0 < n && x == (n - 1) as real) || (n == 0 && x == 0.0))
  {
    hide Replacements;
    var offered := Replacements(IntLiteral(n), round);
    var neighbours := AsReals(IntNeighbours(n));
    assert neighbours == [(if n == 0 then 0 else n - 1) as real, (n + 1) as real, (n / 2) as real, (n * 2) as real];
    assert x in offered ==> x in neighbours by {
      if x in offered {
        var i :| 0 <= i < |offered| && offered[i] == x;
      }
    }
  }

  /** Half, four fifths, five quarters, double, and one step down or up, the step being 0.05
      below one in size and 1.0 from there; each rounded, the number itself and whatever is
      not finite left out. */
  predicate FloatOffer(x: real, y: real, round: real -> Number) {
    && y != x
    && (var step := if -1.0 < x && x < 1.0 then 0.05 else 1.0;
        || round(x / 2.0) == Finite(y) || round(x * 4.0 / 5.0) == Finite(y)
        || round(x * 5.0 / 4.0) == Finite(y) || round(x * 2.0) == Finite(y)
        || round(x - step) == Finite(y) || round(x + step) == Finite(y))
  }

  lemma FloatOffers(x: real, round: real -> Number, y: real)
    ensures y in Replacements(FloatLiteral(Finite(x)), round) <==> FloatOffer(x, y, round)
  {
    hide Replacements;
    var literal := FloatLiteral(Finite(x));
    var offered, exact := Replacements(literal, round), FloatNeighbours(x);
    assert x * 0.5 == x / 2.0 && x * 0.8 == x * 4.0 / 5.0 && x * 1.25 == x * 5.0 / 4.0;
    if y in offered {
      var i :| 0 <= i < |offered| && offered[i] == y;
      var z :| z in exact && round(z) == Finite(offered[i]);
    }
    if FloatOffer(x, y, round) {
      var k: nat :| k < 6 && round(exact[k]) == Finite(y);
      assert exact[k] in exact && Moves(round(exact[k]), x);
    }
  }

  // ----- what a mutation writes, and that everything on offer can come up

  /** The literal written reads as the value drawn. */
  lemma WrittenReadsBack(e: Evolver, token: Token, draw: nat)
    requires FormatsSound(e) && e.IsMutable(token) && !e.GrowsTooLarge(e.literal(token.text))
    requires Replacements(e.literal(token.text), e.round) != []
    ensures var offered, now := Replacements(e.literal(token.text), e.round), e.literal(e.ReplacementText(token, draw));
            Numeric(now) && ValueOf(now) == offered[draw % |offered|] && now.IntLiteral? == e.literal(token.text).IntLiteral?
  {
    hide Evolver.GrowsTooLarge, Replacements;
    var literal := e.literal(token.text);
    var replacements := Replacements(literal, e.round);
    var value := replacements[draw % |replacements|];
    assert value in replacements;
    if literal.IntLiteral? {
      var k: nat :| k < 4 && value == AsReals(IntNeighbours(literal.n))[k];
      var n := IntNeighbours(literal.n)[k];
      assert value == n as real && value.Floor == n;
      SmallNeighbour(e, literal, k);
      assert e.literal(Decimal(n)) == IntLiteral(n);
    } else {
      var x :| e.round(x) == Finite(value);
      assert e.literal(e.repr(value)) == FloatLiteral(Finite(value));
    }
  }

  /** A mutation replaces a number by one of the values on offer for it, an int by an int and
      a float by a float. */
  lemma MutationWritesAnOffer(e: Evolver, parent: CandidateProgram, draws: nat -> nat, at: nat)
    requires FormatsSound(e) && e.Mutated(parent, draws, at).0.Some?
    ensures var m := e.Mutated(parent, draws, at).0.value;
            && Numeric(e.literal(m.before)) && Numeric(e.literal(m.after))
            && e.literal(m.before).IntLiteral? == e.literal(m.after).IntLiteral?
            && ValueOf(e.literal(m.after)) in Replacements(e.literal(m.before), e.round)
  {
    hide Evolver.Mutated, Replacements, Evolver.GrowsTooLarge, Evolver.ReplacementText, Chosen;
    MutatedToken(e, parent, draws, at);
    var token := e.tokenize(parent.source).value[Chosen(e, parent, draws, at)];
    WrittenReadsBack(e, token, draws(at + 1));
  }

  /** Conversely any number of the block and any value on offer for it come up under some
      draws, unless the source would grow past its limit. */
  lemma EveryOfferComesUp(e: Evolver, parent: CandidateProgram, tokens: seq<Token>, block: (nat, nat), i: nat, x: real)
    requires FormatsSound(e) && e.tokenize(parent.source) == Some(tokens) && EvolveBlock(parent.source) == Some(block)
    requires e.MutableTokens(tokens, block).Success? && Untokenize(tokens).Some?
    requires i < |tokens| && e.InBlock(tokens[i], block) && e.IsMutable(tokens[i])
    requires !e.GrowsTooLarge(e.literal(tokens[i].text)) && x in Replacements(e.literal(tokens[i].text), e.round)
    ensures exists draws: nat -> nat, d: nat :: Draws(e, parent, tokens, i, x, draws, d)
  {
    hide EvolveBlock, Replacements, Evolver.MutableTokens, Evolver.GrowsTooLarge, Untokenize, Draws, Evolver.ReplacementText;
    var mutable := e.MutableTokens(tokens, block).value;
    MutableTokensFound(e, tokens, block);
    var k: nat :| k < |mutable| && mutable[k] == i;
    var offered := Replacements(e.literal(tokens[i].text), e.round);
    var d: nat :| d < |offered| && offered[d] == x;
    var draws: nat -> nat := (at: nat) => if at == 0 then k else d;
    SmallMod(k, |mutable|);
    assert draws(0) == k && draws(1) == d;
    DrawsIt(e, parent, tokens, block, i, x, draws, d);
  }

  /** These draws replace that number by that value, if the result is not too long. */
  ghost predicate Draws(e: Evolver, parent: CandidateProgram, tokens: seq<Token>, i: nat, x: real,
                        draws: nat -> nat, d: nat)
    requires i < |tokens| && Untokenize(tokens).Some?
    requires e.IsMutable(tokens[i]) && Replacements(e.literal(tokens[i].text), e.round) != []
  {
    var text := e.ReplacementText(tokens[i], d);
    && Numeric(e.literal(text)) && ValueOf(e.literal(text)) == x
    && (|Untokenize(tokens).value| - |tokens[i].text| + |text| <= MAX_SOURCE ==>
          var m := e.Mutated(parent, draws, 0).0;
          m.Some? && m.value.row == tokens[i].startRow && m.value.before == tokens[i].text && m.value.after == text)
  }

  lemma DrawsIt(e: Evolver, parent: CandidateProgram, tokens: seq<Token>, block: (nat, nat), i: nat, x: real,
                draws: nat -> nat, d: nat)
    requires FormatsSound(e) && e.tokenize(parent.source) == Some(tokens) && EvolveBlock(parent.source) == Some(block)
    requires e.MutableTokens(tokens, block).Success? && Untokenize(tokens).Some?
    requires i < |tokens| && e.InBlock(tokens[i], block) && e.IsMutable(tokens[i])
    requires !e.GrowsTooLarge(e.literal(tokens[i].text))
    requires var offered := Replacements(e.literal(tokens[i].text), e.round); d < |offered| && offered[d] == x
    requires var mutable := e.MutableTokens(tokens, block).value; mutable != [] && mutable[draws(0) % |mutable|] == i
    requires draws(1) == d
    ensures Draws(e, parent, tokens, i, x, draws, d)
  {
    hide EvolveBlock, Replacements, Evolver.MutableTokens, Evolver.GrowsTooLarge, Untokenize, Evolver.Mutated;
    hide Evolver.ReplacementText, Chosen, FormatsSound, Evolver.InBlock;
    var text := e.ReplacementText(tokens[i], d);
    SmallMod(d, |Replacements(e.literal(tokens[i].text), e.round)|);
    WrittenReadsBack(e, tokens[i], d);
    if |Untokenize(tokens).value| - |tokens[i].text| + |text| <= MAX_SOURCE {
      IsNumberToken(e, tokens[i], block);
      StrayRewrites(e, tokens, i, d);
      RewordingExists(e, parent, tokens, block, draws, i);
      MutatedToken(e, parent, draws, 0);
    }
  }

  lemma IsNumberToken(e: Evolver, token: Token, block: (nat, nat))
    requires e.InBlock(token, block)
    ensures IsWritten(token)
  {
  }
}
