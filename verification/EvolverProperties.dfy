/** What a mutation changes, when it keeps the evolve block and when it leaves it; a batch is
    fresh, full and validated. */
module EvolverProperties {
  import opened Wrappers
  import opened Protocol
  import opened Executors
  import opened Text
  import opened LocalEvolver

  // ----- what is assumed of the lexer and the number formats

  predicate Plain(text: string) {
    text != "" && Unbroken(text) && HasDigit(text)
  }

  /** The text before a position, rows counted by newlines; None when the row is shorter. */
  function Before(source: string, row: nat, col: nat): (before: Option<string>)
    ensures before.Some? ==> before.value <= source && row == 1 + Newlines(before.value)
  {
    if row == 1 && col == 0 then Some("")
    else if row == 0 || source == "" || (row == 1 && source[0] == '\n') then None
    else
      match Before(source[1..], if source[0] == '\n' then row - 1 else row, if row == 1 then col - 1 else col)
      case None => None
      case Some(before) => Some([source[0]] + before)
  }

  /** The source reads so at that place. */
  predicate StandsAt(source: string, row: nat, col: nat, text: string) {
    Before(source, row, col).Some? && Before(source, row, col).value + text <= source
  }

  /** NUMBER tokens carry a digit and no line break, and stand where they are recorded. */
  ghost predicate Faithful(tokens: seq<Token>, source: string) {
    forall i :: 0 <= i < |tokens| && tokens[i].kind.NumberToken? ==>
      && Plain(tokens[i].text)
      && StandsAt(source, tokens[i].startRow, tokens[i].startCol, tokens[i].text)
  }

  /** This one source, if it can be lexed at all, is lexed so. */
  ghost predicate ReadsFaithfully(e: Evolver, source: string) {
    e.tokenize(source).Some? ==> Faithful(e.tokenize(source).value, source)
  }

  ghost predicate LexerSound(e: Evolver) {
    forall source: string :: ReadsFaithfully(e, source)
  }

  /** repr and str read back as what was printed, for floats and for integers in their range. */
  ghost predicate FormatsSound(e: Evolver) {
    && (forall x: real :: e.round(x).Finite? ==>
          && Plain(e.repr(e.round(x).value))
          && e.literal(e.repr(e.round(x).value)) == FloatLiteral(e.round(x)))
    && (forall n: nat :: n <= e.largestInt ==> e.literal(Decimal(n)) == IntLiteral(n))
  }

  // ----- one mutation

  /** The child is the text with one number span replaced by a different one. */
  ghost predicate OneSpanApart(text: string, child: string, pre: string, was: string, span: string, post: string) {
    && text == pre + was + post
    && child == pre + span + post
    && was != span
    && Plain(was) && Plain(span)
  }

  /** The token a mutation rewords. */
  function Chosen(e: Evolver, parent: CandidateProgram, draws: nat -> nat, at: nat): (i: nat)
    requires e.Mutated(parent, draws, at).0.Some?
    ensures i < |e.tokenize(parent.source).value|
    ensures e.InBlock(e.tokenize(parent.source).value[i], EvolveBlock(parent.source).value)
  {
    var mutable := e.MutableTokens(e.tokenize(parent.source).value, EvolveBlock(parent.source).value).value;
    mutable[draws(at) % |mutable|]
  }

  lemma SmallNeighbour(e: Evolver, literal: NumberLiteral, k: nat)
    requires literal.IntLiteral? && !e.GrowsTooLarge(literal) && k < 4
    requires IntNeighbours(literal.n)[k] != literal.n
    ensures IntNeighbours(literal.n)[k] <= e.largestInt
  {
  }

  lemma ReplacementIsPlain(e: Evolver, token: Token, draw: nat)
    requires FormatsSound(e) && e.IsMutable(token) && !e.GrowsTooLarge(e.literal(token.text))
    requires Replacements(e.literal(token.text), e.round) != []
    ensures Plain(e.ReplacementText(token, draw))
    ensures e.ReplacementText(token, draw) != token.text
  {
    hide Evolver.GrowsTooLarge;
    var literal := e.literal(token.text);
    var replacements := Replacements(literal, e.round);
    var value := replacements[draw % |replacements|];
    assert value in replacements;
    if literal.IntLiteral? {
      var k: nat :| k < 4 && value == AsReals(IntNeighbours(literal.n))[k];
      var n := IntNeighbours(literal.n)[k];
      assert value == n as real && value.Floor == n;
      SmallNeighbour(e, literal, k);
      DecimalIsPlain(n);
      assert e.literal(Decimal(n)) == IntLiteral(n);
    } else {
      var x :| e.round(x) == Finite(value);
      assert e.literal(e.repr(value)) == FloatLiteral(Finite(value));
    }
  }

  /** Whether tokens can be written back does not depend on their texts. */
  lemma RewordedCanBeWritten(tokens: seq<Token>, i: nat, text: string)
    requires i < |tokens| && IsWritten(tokens[i]) && Untokenize(Reworded(tokens, i, text)).Some?
    ensures Untokenize(tokens).Some?
  {
    hide Untokenize;
    var pre, post := RewordingIsLocal(Reworded(tokens, i, text), i, tokens[i].text);
    assert Reworded(Reworded(tokens, i, text), i, tokens[i].text) == tokens;
  }

  /** A mutation replaces exactly one number of the parent as untokenize writes it back by a
      different number: the chosen token's text, which stands in the parent on the reported row,
      strictly between the marker lines. So parent and child differ in that number alone if and
      only if untokenize writes the parent back unchanged. */
  lemma MutationIsLocal(e: Evolver, parent: CandidateProgram, draws: nat -> nat, at: nat)
    returns (pre: string, post: string)
    requires FormatsSound(e) && ReadsFaithfully(e, parent.source)
    requires e.Mutated(parent, draws, at).0.Some?
    ensures var m, tokens := e.Mutated(parent, draws, at).0.value, e.tokenize(parent.source).value;
            && Untokenize(tokens).Some?
            && OneSpanApart(Untokenize(tokens).value, m.program.source, pre, m.before, m.after, post)
            && TextBefore(tokens, Chosen(e, parent, draws, at)) == Some(pre)
            && (OneSpanApart(parent.source, m.program.source, pre, m.before, m.after, post) <==>
                Untokenize(tokens) == Some(parent.source))
    ensures var m, block := e.Mutated(parent, draws, at).0.value, EvolveBlock(parent.source);
            && StandsAt(parent.source, m.row, MutatedColumn(e, parent, draws, at), m.before)
            && block.Some? && block.value.0 < m.row < block.value.1
  {
    hide EvolveBlock, Replacements, Evolver.GrowsTooLarge, Untokenize, TextBefore, Before, Plain;
    var block := EvolveBlock(parent.source).value;
    var tokens := e.tokenize(parent.source).value;
    assert Faithful(tokens, parent.source);
    var i := Chosen(e, parent, draws, at);
    var text := e.ReplacementText(tokens[i], draws(at + 1));
    ReplacementIsPlain(e, tokens[i], draws(at + 1));
    RewordedCanBeWritten(tokens, i, text);
    pre, post := RewordingIsLocal(tokens, i, text);
  }

  /** The column, in the parent, of the number a mutation replaces. */
  function MutatedColumn(e: Evolver, parent: CandidateProgram, draws: nat -> nat, at: nat): nat
    requires e.Mutated(parent, draws, at).0.Some?
  {
    e.tokenize(parent.source).value[Chosen(e, parent, draws, at)].startCol
  }

  /** If it can be lexed and written at all, the source is written back as it stands. */
  predicate WrittenBack(e: Evolver, source: string) {
    match e.tokenize(source)
    case None => true
    case Some(tokens) => Untokenize(tokens).Some? ==> Untokenize(tokens).value == source
  }

  /** Written back, the source has the evolve block it has as it stands. */
  predicate BlockStays(e: Evolver, source: string) {
    match e.tokenize(source)
    case None => true
    case Some(tokens) => Untokenize(tokens).Some? ==> EvolveBlock(Untokenize(tokens).value) == EvolveBlock(source)
  }

  /** A source that has an evolve block still has one, on whatever lines, when written back. */
  predicate BlockSurvives(e: Evolver, source: string) {
    match e.tokenize(source)
    case None => true
    case Some(tokens) =>
      EvolveBlock(source).Some? && Untokenize(tokens).Some? ==> EvolveBlock(Untokenize(tokens).value).Some?
  }

  /** The mutant has the very same evolve block lines as its parent if and only if writing the
      parent back unmutated keeps them, and a block at all if and only if that leaves one; the
      number replaced never matters. */
  lemma MutationKeepsBlock(e: Evolver, parent: CandidateProgram, draws: nat -> nat, at: nat)
    requires FormatsSound(e) && ReadsFaithfully(e, parent.source)
    requires e.Mutated(parent, draws, at).0.Some?
    ensures EvolveBlock(parent.source).Some?
    ensures var child := e.Mutated(parent, draws, at).0.value.program;
            && (EvolveBlock(child.source) == EvolveBlock(parent.source) <==> BlockStays(e, parent.source))
            && (EvolveBlock(child.source).Some? <==> BlockSurvives(e, parent.source))
  {
    hide Chosen, TextBefore, Untokenize, EvolveBlock, Before, Evolver.Mutated;
    var pre, post := MutationIsLocal(e, parent, draws, at);
    var m := e.Mutated(parent, draws, at).0.value;
    SwapKeepsBlock(pre, m.before, m.after, post);
    MutatedToken(e, parent, draws, at);
  }

  // ----- between the markers: exactly when

  /** The one-based number, as splitlines counts, of the line a span after `before` is on. */
  function LineOf(before: string): nat {
    1 + BreaksIn(before)
  }

  lemma {:induction false} NewlinesAtMostBreaks(s: string)
    ensures Newlines(s) <= BreaksIn(s)
    decreases |s|
  {
    if |s| != 0 {
      if OpensWithCrLf(s) {
        assert s[1..][1..] == s[2..];
        assert Newlines(s) == Newlines(s[1..]) == 1 + Newlines(s[2..]);
        NewlinesAtMostBreaks(s[2..]);
      } else {
        NewlinesAtMostBreaks(s[1..]);
      }
    }
  }

  predicate Between(block: (nat, nat), line: nat) {
    block.0 < line < block.1
  }

  /** This mutation rewords a number whose line in the parent is not strictly between the
      marker lines. */
  ghost predicate LeavesBlock(e: Evolver, parent: CandidateProgram, draws: nat -> nat, at: nat) {
    && e.Mutated(parent, draws, at).0.Some?
    && var before := Before(parent.source, e.Mutated(parent, draws, at).0.value.row, MutatedColumn(e, parent, draws, at));
       before.Some? && !Between(EvolveBlock(parent.source).value, LineOf(before.value))
  }

  ghost predicate CanLeaveBlock(e: Evolver, parent: CandidateProgram) {
    exists draws: nat -> nat, at: nat :: LeavesBlock(e, parent, draws, at)
  }

  /** Some replacement of the number keeps the text within the length limit of a source. */
  predicate CanRewrite(e: Evolver, written: string, token: Token) {
    && e.IsMutable(token)
    && !e.GrowsTooLarge(e.literal(token.text))
    && var n := |Replacements(e.literal(token.text), e.round)|;
       exists d: nat :: d < n && |written| - |token.text| + |e.ReplacementText(token, d)| <= MAX_SOURCE
  }

  /** The number is on a row between the markers, and on a line beyond them. */
  predicate Strays(source: string, block: (nat, nat), token: Token) {
    var before := Before(source, token.startRow, token.startCol);
    before.Some? && block.1 <= LineOf(before.value)
  }

  /** What a caller can see in the parent before any draw: it can be written back, all numbers
      on the rows between the markers can be read, and one that can be rewritten strays. */
  predicate HoldsStray(e: Evolver, parent: CandidateProgram) {
    && EvolveBlock(parent.source).Some?
    && e.tokenize(parent.source).Some?
    && var tokens, block := e.tokenize(parent.source).value, EvolveBlock(parent.source).value;
       && e.MutableTokens(tokens, block).Success?
       && Untokenize(tokens).Some?
       && exists i: nat :: i < |tokens| && Stray(e, parent.source, tokens, block, i)
  }

  predicate Stray(e: Evolver, source: string, tokens: seq<Token>, block: (nat, nat), i: nat)
    requires i < |tokens| && Untokenize(tokens).Some?
  {
    && e.InBlock(tokens[i], block)
    && CanRewrite(e, Untokenize(tokens).value, tokens[i])
    && Strays(source, block, tokens[i])
  }

  lemma LeavingNeedsStray(e: Evolver, parent: CandidateProgram, draws: nat -> nat, at: nat)
    requires FormatsSound(e) && ReadsFaithfully(e, parent.source)
    requires LeavesBlock(e, parent, draws, at)
    ensures HoldsStray(e, parent)
  {
    var pre, post := MutationIsLocal(e, parent, draws, at);
    MutatedToken(e, parent, draws, at);
    hide EvolveBlock, Replacements, Evolver.MutableTokens, Evolver.GrowsTooLarge, Untokenize, Before, BreaksIn, TextBefore;
    var tokens, block := e.tokenize(parent.source).value, EvolveBlock(parent.source).value;
    var i := Chosen(e, parent, draws, at);
    NewlinesAtMostBreaks(Before(parent.source, tokens[i].startRow, tokens[i].startCol).value);
    RewriteFits(e, parent, draws, at, pre, post);
    assert Stray(e, parent.source, tokens, block, i);
  }

  lemma MutatedToken(e: Evolver, parent: CandidateProgram, draws: nat -> nat, at: nat)
    requires e.Mutated(parent, draws, at).0.Some?
    ensures e.tokenize(parent.source).Some?
    ensures var token, m := e.tokenize(parent.source).value[Chosen(e, parent, draws, at)], e.Mutated(parent, draws, at).0.value;
            && e.IsMutable(token) && !e.GrowsTooLarge(e.literal(token.text))
            && Replacements(e.literal(token.text), e.round) != []
            && m.row == token.startRow
            && m.before == token.text && m.after == e.ReplacementText(token, draws(at + 1))
            && |m.program.source| <= MAX_SOURCE
  {
    hide EvolveBlock, Replacements, Evolver.GrowsTooLarge, Untokenize, Evolver.ReplacementText;
  }

  lemma TextByIndex(e: Evolver, token: Token, draw: nat, d: nat)
    requires e.IsMutable(token) && Replacements(e.literal(token.text), e.round) != []
    requires d == draw % |Replacements(e.literal(token.text), e.round)|
    ensures e.ReplacementText(token, d) == e.ReplacementText(token, draw)
  {
    hide Replacements, Evolver.LiteralText;
    SmallMod(d, |Replacements(e.literal(token.text), e.round)|);
  }

  lemma SmallMod(d: nat, n: nat)
    requires d < n
    ensures d % n == d
  {
  }

  lemma RewriteFits(e: Evolver, parent: CandidateProgram, draws: nat -> nat, at: nat, pre: string, post: string)
    requires e.Mutated(parent, draws, at).0.Some? && Untokenize(e.tokenize(parent.source).value).Some?
    requires var m := e.Mutated(parent, draws, at).0.value;
             OneSpanApart(Untokenize(e.tokenize(parent.source).value).value, m.program.source, pre, m.before, m.after, post)
    ensures CanRewrite(e, Untokenize(e.tokenize(parent.source).value).value,
                       e.tokenize(parent.source).value[Chosen(e, parent, draws, at)])
  {
    hide EvolveBlock, Replacements, Evolver.GrowsTooLarge, Evolver.Mutated, Evolver.ReplacementText, Chosen, Untokenize;
    MutatedToken(e, parent, draws, at);
    var token := e.tokenize(parent.source).value[Chosen(e, parent, draws, at)];
    var written := Untokenize(e.tokenize(parent.source).value).value;
    var n := |Replacements(e.literal(token.text), e.round)|;
    var d := draws(at + 1) % n;
    TextByIndex(e, token, draws(at + 1), d);
    assert |written| - |token.text| + |e.ReplacementText(token, d)| <= MAX_SOURCE;
  }

  lemma StrayCanLeave(e: Evolver, parent: CandidateProgram)
    requires FormatsSound(e) && HoldsStray(e, parent)
    ensures CanLeaveBlock(e, parent)
  {
    hide EvolveBlock, Replacements, Evolver.MutableTokens, Evolver.GrowsTooLarge, Stray, Untokenize;
    var tokens, block := e.tokenize(parent.source).value, EvolveBlock(parent.source).value;
    var i: nat :| i < |tokens| && Stray(e, parent.source, tokens, block, i);
    StrayLeaves(e, parent, tokens, block, i);
  }

  lemma StrayLeaves(e: Evolver, parent: CandidateProgram, tokens: seq<Token>, block: (nat, nat), i: nat)
    requires e.tokenize(parent.source) == Some(tokens) && EvolveBlock(parent.source) == Some(block)
    requires FormatsSound(e) && Untokenize(tokens).Some? && e.MutableTokens(tokens, block).Success?
    requires i < |tokens| && Stray(e, parent.source, tokens, block, i)
    ensures CanLeaveBlock(e, parent)
  {
    hide EvolveBlock, Replacements, Evolver.MutableTokens, Evolver.GrowsTooLarge, Untokenize, Before, BreaksIn;
    hide Evolver.Mutated, Chosen, Evolver.ReplacementText, FormatsSound;
    var mutable := e.MutableTokens(tokens, block).value;
    MutableTokensFound(e, tokens, block);
    var k: nat :| k < |mutable| && mutable[k] == i;
    var n := |Replacements(e.literal(tokens[i].text), e.round)|;
    var d: nat :| d < n && |Untokenize(tokens).value| - |tokens[i].text| + |e.ReplacementText(tokens[i], d)| <= MAX_SOURCE;
    var draws: nat -> nat := (at: nat) => if at == 0 then k else d;
    SmallMod(k, |mutable|);
    StrayRewrites(e, tokens, i, d);
    assert draws(0) == k && draws(1) == d;
    RewordingExists(e, parent, tokens, block, draws, i);
    MutatedToken(e, parent, draws, 0);
    assert LeavesBlock(e, parent, draws, 0);
  }

  lemma StrayRewrites(e: Evolver, tokens: seq<Token>, i: nat, d: nat)
    requires FormatsSound(e) && Untokenize(tokens).Some?
    requires i < |tokens| && IsWritten(tokens[i])
    requires e.IsMutable(tokens[i]) && !e.GrowsTooLarge(e.literal(tokens[i].text))
    requires d < |Replacements(e.literal(tokens[i].text), e.round)|
    requires |Untokenize(tokens).value| - |tokens[i].text| + |e.ReplacementText(tokens[i], d)| <= MAX_SOURCE
    ensures var child := Untokenize(Reworded(tokens, i, e.ReplacementText(tokens[i], d)));
            child.Some? && 1 <= |child.value| <= MAX_SOURCE
  {
    hide Replacements, Evolver.GrowsTooLarge, Untokenize, TextBefore, Evolver.ReplacementText;
    var text := e.ReplacementText(tokens[i], d);
    ReplacementIsPlain(e, tokens[i], d);
    var pre, post := RewordingIsLocal(tokens, i, text);
    RewordedLength(Untokenize(tokens).value, pre, tokens[i].text, text, post);
  }

  lemma RewordedLength(source: string, pre: string, was: string, text: string, post: string)
    requires source == pre + was + post
    ensures |pre + text + post| == |source| - |was| + |text|
  {
  }

  lemma RewordingExists(e: Evolver, parent: CandidateProgram, tokens: seq<Token>, block: (nat, nat),
                        draws: nat -> nat, i: nat)
    requires e.tokenize(parent.source) == Some(tokens) && EvolveBlock(parent.source) == Some(block)
    requires e.MutableTokens(tokens, block).Success? && i < |tokens|
    requires var mutable := e.MutableTokens(tokens, block).value;
             mutable != [] && mutable[draws(0) % |mutable|] == i
    requires e.IsMutable(tokens[i]) && !e.GrowsTooLarge(e.literal(tokens[i].text))
    requires Replacements(e.literal(tokens[i].text), e.round) != []
    requires var source := Untokenize(Reworded(tokens, i, e.ReplacementText(tokens[i], draws(1))));
             source.Some? && 1 <= |source.value| <= MAX_SOURCE
    ensures e.Mutated(parent, draws, 0).0.Some? && Chosen(e, parent, draws, 0) == i
  {
    hide EvolveBlock, Replacements, Evolver.MutableTokens, Evolver.GrowsTooLarge, Untokenize;
  }

  /** Some draw mutates a number outside the markers if and only if the parent can be written
      back and holds one that can be rewritten on a row between the markers but, as splitlines
      counts lines, at or beyond the end marker. */
  lemma LeavesBlockExactlyWhen(e: Evolver, parent: CandidateProgram)
    requires FormatsSound(e) && ReadsFaithfully(e, parent.source)
    ensures CanLeaveBlock(e, parent) <==> HoldsStray(e, parent)
  {
    hide LeavesBlock, HoldsStray, FormatsSound, ReadsFaithfully;
    if CanLeaveBlock(e, parent) {
      var draws: nat -> nat, at: nat :| LeavesBlock(e, parent, draws, at);
      LeavingNeedsStray(e, parent, draws, at);
    }
    if HoldsStray(e, parent) {
      StrayCanLeave(e, parent);
    }
  }

  /** In a source whose only line breaks are newlines the mutated number is always strictly
      between the markers. */
  lemma MutationIsInsideBlock(e: Evolver, parent: CandidateProgram, draws: nat -> nat, at: nat)
    requires FormatsSound(e) && ReadsFaithfully(e, parent.source) && OnlyNewlineBreaks(parent.source)
    requires e.Mutated(parent, draws, at).0.Some?
    ensures var m, block := e.Mutated(parent, draws, at).0.value, EvolveBlock(parent.source);
            var before := Before(parent.source, m.row, MutatedColumn(e, parent, draws, at));
            && before.Some? && before.value + m.before <= parent.source
            && block.Some? && Between(block.value, LineOf(before.value))
  {
    hide Chosen, TextBefore, Untokenize, EvolveBlock, Before, Evolver.Mutated;
    var pre, post := MutationIsLocal(e, parent, draws, at);
    var before := Before(parent.source, e.Mutated(parent, draws, at).0.value.row, MutatedColumn(e, parent, draws, at)).value;
    assert forall k :: 0 <= k < |before| ==> before[k] == parent.source[k];
    NewlinesAreBreaks(before);
  }

  /** Two form feeds in a comment between two marker lines, and a last line after them. */
  function FormFeeds(first: string, second: string, last: string): string {
    first + ['\n'] + ("#" + ['\U{000C}'] + ("" + ['\U{000C}'] + ("" + ['\n'] + (second + ['\n'] + last))))
  }

  /** splitlines sees six lines where the lexer, which only counts newlines, sees four. */
  lemma FormFeedCounts(first: string, second: string, last: string)
    requires Unbroken(first) && Unbroken(second) && Unbroken(last) && last != ""
    ensures var text := FormFeeds(first, second, last);
            && SplitLines(text) == [first, "#", "", "", second, last]
            && Newlines(text) == 3
            && BreaksIn(text) == 5
  {
    hide SplitLines, BreaksIn, Newlines;
    var d := second + ['\n'] + last;
    var c := "" + ['\n'] + d;
    var b := "" + ['\U{000C}'] + c;
    var a := "#" + ['\U{000C}'] + b;
    LineThenBreak(first, '\n', a);
    LineThenBreak("#", '\U{000C}', b);
    LineThenBreak("", '\U{000C}', c);
    LineThenBreak("", '\n', d);
    LineThenBreak(second, '\n', last);
    LastLine(last);
  }

  lemma LastLine(last: string)
    requires Unbroken(last) && last != ""
    ensures SplitLines(last) == [last] && BreaksIn(last) == 0 && Newlines(last) == 0
  {
    SpanOpensLine(last, "");
    UnbrokenCountsNothing(last, "");
    assert last + "" == last;
  }

  lemma MarkersAreTight()
    ensures Unbroken(START_MARKER) && Unbroken(END_MARKER) && START_MARKER != END_MARKER
    ensures Strip(START_MARKER) == START_MARKER && Strip(END_MARKER) == END_MARKER
    ensures |START_MARKER| == 20 && |END_MARKER| == 18
  {
    assert |START_MARKER| == 20 && |END_MARKER| == 18;
  }

  /** Two form feeds in a comment carry the line after the end marker past it, while its
      token row, which only counts newlines, stays before it. */
  lemma FormFeedBlock(last: string)
    requires Unbroken(last) && last != "" && Strip(last) != START_MARKER && Strip(last) != END_MARKER
    ensures EvolveBlock(FormFeeds(START_MARKER, END_MARKER, last)) == Some((1, 5))
  {
    hide SplitLines, BreaksIn, Newlines, Strip, MarkerLines;
    MarkersAreTight();
    FormFeedCounts(START_MARKER, END_MARKER, last);
    StripTight("#");
    StripEmpty();
    var lines := [START_MARKER, "#", "", "", END_MARKER, last];
    MarkerOnce(lines, 0, START_MARKER);
    MarkerOnce(lines, 4, END_MARKER);
  }

  lemma StripEmpty()
    ensures Strip("") == ""
  {
  }

  // ----- integers too large for a float

  predicate Unreadable(e: Evolver, token: Token, block: (nat, nat)) {
    e.InBlock(token, block) && e.literal(token.text).Unreadable?
  }

  /** An integer of the block that doubles past what converts to a float. */
  predicate Doubles(e: Evolver, token: Token, block: (nat, nat)) {
    && e.InBlock(token, block)
    && e.literal(token.text).IntLiteral?
    && e.largestInt < 2 * e.literal(token.text).n
  }

  predicate Oversized(e: Evolver, token: Token, block: (nat, nat)) {
    Doubles(e, token, block) && e.largestInt < e.literal(token.text).n
  }

  predicate ReadableBefore(e: Evolver, tokens: seq<Token>, block: (nat, nat), i: nat) {
    forall j :: 0 <= j < i && j < |tokens| ==> !Unreadable(e, tokens[j], block)
  }

  lemma GrowthIsDoubling(e: Evolver, n: nat)
    requires 1 <= e.largestInt
    requires n <= e.largestInt
    ensures e.GrowsTooLarge(IntLiteral(n)) <==> e.largestInt < 2 * n
  {
    var literal := IntLiteral(n);
    if e.largestInt < 2 * n {
      assert IntNeighbours(literal.n)[3] == 2 * n;
    }
  }

  predicate FaultIn(e: Evolver, token: Token, block: (nat, nat), fault: LiteralFault) {
    e.InBlock(token, block) && e.FaultOf(token) == Some(fault)
  }

  /** The scan finds every mutable number of the block, or stops at its first fault. */
  lemma {:induction false} MutableTokensFound(e: Evolver, tokens: seq<Token>, block: (nat, nat))
    ensures match e.MutableTokens(tokens, block)
            case Failure(fault) =>
              exists u :: 0 <= u < |tokens| && FaultIn(e, tokens[u], block, fault) && NoFaultBefore(e, tokens, block, u)
            case Success(mutable) =>
              && NoFaultBefore(e, tokens, block, |tokens|)
              && (forall i :: 0 <= i < |tokens| && e.InBlock(tokens[i], block) && e.IsMutable(tokens[i]) ==> i in mutable)
  {
    hide Evolver.InBlock, Evolver.IsMutable, Evolver.FaultOf;
    if tokens != [] {
      var n := |tokens| - 1;
      var before := tokens[..n];
      MutableTokensFound(e, before, block);
      assert forall i :: 0 <= i < n ==> before[i] == tokens[i];
      if e.MutableTokens(before, block).Failure? {
        var fault := e.MutableTokens(before, block).error;
        var u :| 0 <= u < n && FaultIn(e, before[u], block, fault) && NoFaultBefore(e, before, block, u);
        assert FaultIn(e, tokens[u], block, fault) && NoFaultBefore(e, tokens, block, u);
      } else if e.InBlock(tokens[n], block) && e.FaultOf(tokens[n]).Some? {
        assert FaultIn(e, tokens[n], block, e.FaultOf(tokens[n]).value) && NoFaultBefore(e, tokens, block, n);
      }
    }
  }

  predicate NoFaultBefore(e: Evolver, tokens: seq<Token>, block: (nat, nat), u: nat) {
    forall j :: 0 <= j < u && j < |tokens| && e.InBlock(tokens[j], block) ==> e.FaultOf(tokens[j]).None?
  }

  ghost predicate CanCrash(e: Evolver, parent: CandidateProgram) {
    exists draws: nat -> nat, at: nat :: e.Crashes(parent, draws, at)
  }

  /** An integer of the block doubles past the float range, and no number that cannot be read
      comes before it, or anywhere if the integer itself is still in range. */
  predicate HoldsOverflow(e: Evolver, tokens: seq<Token>, block: (nat, nat)) {
    exists i :: 0 <= i < |tokens| && Doubles(e, tokens[i], block)
      && ReadableBefore(e, tokens, block, if Oversized(e, tokens[i], block) then i else |tokens|)
  }

  predicate OverflowWithinReach(e: Evolver, parent: CandidateProgram) {
    && EvolveBlock(parent.source).Some?
    && e.tokenize(parent.source).Some?
    && HoldsOverflow(e, e.tokenize(parent.source).value, EvolveBlock(parent.source).value)
  }

  lemma FaultKinds(e: Evolver, token: Token, block: (nat, nat))
    ensures FaultIn(e, token, block, CannotRead) <==> Unreadable(e, token, block)
    ensures FaultIn(e, token, block, TooLarge) <==> Oversized(e, token, block)
  {
  }

  lemma NoFaultIsReadable(e: Evolver, tokens: seq<Token>, block: (nat, nat), u: nat)
    requires NoFaultBefore(e, tokens, block, u)
    ensures ReadableBefore(e, tokens, block, u)
  {
  }

  lemma CrashNeedsOverflow(e: Evolver, parent: CandidateProgram, draws: nat -> nat, at: nat)
    requires 1 <= e.largestInt
    requires e.Crashes(parent, draws, at)
    ensures OverflowWithinReach(e, parent)
  {
    hide EvolveBlock, Evolver.MutableTokens, Evolver.GrowsTooLarge, NoFaultBefore, ReadableBefore, FaultIn;
    var tokens, block := e.tokenize(parent.source).value, EvolveBlock(parent.source).value;
    MutableTokensFound(e, tokens, block);
    if e.MutableTokens(tokens, block).Success? {
      var mutable := e.MutableTokens(tokens, block).value;
      var i := mutable[draws(at) % |mutable|];
      GrowthNeedsInteger(e, e.literal(tokens[i].text));
      GrownDoubles(e, tokens, block, i);
      NoFaultIsReadable(e, tokens, block, |tokens|);
    } else {
      var u :| 0 <= u < |tokens| && FaultIn(e, tokens[u], block, TooLarge) && NoFaultBefore(e, tokens, block, u);
      FaultKinds(e, tokens[u], block);
      NoFaultIsReadable(e, tokens, block, u);
    }
  }

  lemma GrownDoubles(e: Evolver, tokens: seq<Token>, block: (nat, nat), i: nat)
    requires 1 <= e.largestInt && i < |tokens| && NoFaultBefore(e, tokens, block, |tokens|)
    requires e.InBlock(tokens[i], block) && e.literal(tokens[i].text).IntLiteral?
    requires e.GrowsTooLarge(e.literal(tokens[i].text))
    ensures Doubles(e, tokens[i], block) && !Oversized(e, tokens[i], block)
  {
    hide Evolver.GrowsTooLarge;
    assert e.FaultOf(tokens[i]).None?;
    GrowthIsDoubling(e, e.literal(tokens[i].text).n);
  }

  lemma GrowthNeedsInteger(e: Evolver, literal: NumberLiteral)
    requires e.GrowsTooLarge(literal)
    ensures literal.IntLiteral?
  {
  }

  lemma ChoiceCrashes(e: Evolver, parent: CandidateProgram, k: nat)
    requires EvolveBlock(parent.source).Some? && e.tokenize(parent.source).Some?
    requires var r := e.MutableTokens(e.tokenize(parent.source).value, EvolveBlock(parent.source).value);
             && r.Success? && k < |r.value|
             && e.GrowsTooLarge(e.literal(e.tokenize(parent.source).value[r.value[k]].text))
    ensures CanCrash(e, parent)
  {
    hide EvolveBlock, Evolver.MutableTokens, Evolver.GrowsTooLarge, Evolver.InBlock, Evolver.IsMutable;
    var draws: nat -> nat := (_: nat) => k;
    var mutable := e.MutableTokens(e.tokenize(parent.source).value, EvolveBlock(parent.source).value).value;
    SmallMod(k, |mutable|);
    assert mutable[draws(0) % |mutable|] == mutable[k];
    assert e.Crashes(parent, draws, 0);
  }

  lemma FirstFaultCrashes(e: Evolver, parent: CandidateProgram)
    requires EvolveBlock(parent.source).Some? && e.tokenize(parent.source).Some?
    requires e.MutableTokens(e.tokenize(parent.source).value, EvolveBlock(parent.source).value) == Failure(TooLarge)
    ensures CanCrash(e, parent)
  {
    hide EvolveBlock, Evolver.MutableTokens, Evolver.GrowsTooLarge;
    var draws: nat -> nat := (_: nat) => 0;
    assert e.Crashes(parent, draws, 0);
  }

  /** With such an integer the scan cannot stop at an unreadable number first. */
  lemma OverflowComesFirst(e: Evolver, tokens: seq<Token>, block: (nat, nat), i: nat)
    requires i < |tokens| && Doubles(e, tokens[i], block)
    requires ReadableBefore(e, tokens, block, if Oversized(e, tokens[i], block) then i else |tokens|)
    ensures e.MutableTokens(tokens, block) != Failure(CannotRead)
    ensures e.MutableTokens(tokens, block).Success? ==> !Oversized(e, tokens[i], block)
  {
    hide Evolver.MutableTokens, Evolver.InBlock, Doubles, Unreadable, Evolver.FaultOf;
    MutableTokensFound(e, tokens, block);
    FaultKinds(e, tokens[i], block);
    if e.MutableTokens(tokens, block) == Failure(CannotRead) {
      var u :| 0 <= u < |tokens| && FaultIn(e, tokens[u], block, CannotRead) && NoFaultBefore(e, tokens, block, u);
      FaultKinds(e, tokens[u], block);
      assert false;
    }
  }

  lemma LargeIntegerCanCrash(e: Evolver, parent: CandidateProgram)
    requires 1 <= e.largestInt
    requires OverflowWithinReach(e, parent)
    ensures CanCrash(e, parent)
  {
    hide EvolveBlock, Evolver.MutableTokens, Evolver.GrowsTooLarge, CanCrash, ReadableBefore, NoFaultBefore, FaultIn;
    var tokens, block := e.tokenize(parent.source).value, EvolveBlock(parent.source).value;
    var i :| 0 <= i < |tokens| && Doubles(e, tokens[i], block)
      && ReadableBefore(e, tokens, block, if Oversized(e, tokens[i], block) then i else |tokens|);
    OverflowComesFirst(e, tokens, block, i);
    MutableTokensFound(e, tokens, block);
    if e.MutableTokens(tokens, block).Success? {
      var mutable := e.MutableTokens(tokens, block).value;
      var k: nat :| k < |mutable| && mutable[k] == i;
      GrowthIsDoubling(e, e.literal(tokens[i].text).n);
      ChoiceCrashes(e, parent, k);
    } else {
      assert e.MutableTokens(tokens, block).error == TooLarge;
      FirstFaultCrashes(e, parent);
    }
  }

  /** Some mutation attempt on a parent ends the whole run with an uncaught overflow exactly
      when an integer of its block doubles past what converts to a float and no unreadable
      number keeps the scan from it. */
  lemma OverflowExactlyWhen(e: Evolver, parent: CandidateProgram)
    requires 1 <= e.largestInt
    ensures CanCrash(e, parent) <==> OverflowWithinReach(e, parent)
  {
    hide OverflowWithinReach, Evolver.Crashes;
    if CanCrash(e, parent) {
      var draws: nat -> nat, at: nat :| e.Crashes(parent, draws, at);
      CrashNeedsOverflow(e, parent, draws, at);
    }
    if OverflowWithinReach(e, parent) {
      LargeIntegerCanCrash(e, parent);
    }
  }

  // ----- a whole batch

  ghost predicate FromSeed(request: ProposalRequest, p: Proposal) {
    && p.parentSha256 == []
    && p.origin == "seed" && p.mutation == "unmodified seed"
    && request.generation == 0
    && p.program in request.seedPrograms
  }

  /** The proposal is this mutation of this parent, says so, and names the parent's hash. */
  predicate Attributed(parent: CandidateProgram, m: Mutation, p: Proposal) {
    && p.program == m.program
    && p.parentSha256 == [parent.sha256]
    && p.origin == "local_numeric_mutation"
    && p.mutation == "line " + Decimal(m.row) + " numeric literal " + m.before + " -> " + m.after
  }

  ghost predicate FromParent(e: Evolver, request: ProposalRequest, p: Proposal) {
    exists parent, at ::
      && parent in e.Parents(request)
      && e.Mutated(parent, e.stream(request.seed), at).0.Some?
      && Attributed(parent, e.Mutated(parent, e.stream(request.seed), at).0.value, p)
  }

  ghost predicate Fresh(e: Evolver, request: ProposalRequest, s: Search) {
    && |s.proposals| <= request.batchSize
    && (forall i :: 0 <= i < |s.proposals| ==> e.validate(s.proposals[i].program))
    && (forall i :: 0 <= i < |s.proposals| ==> s.proposals[i].program.sha256 !in request.seen)
    && (forall i, j :: 0 <= i < j < |s.proposals| ==>
          s.proposals[i].program.sha256 != s.proposals[j].program.sha256)
    && request.seen <= s.seen
    && (forall i :: 0 <= i < |s.proposals| ==> s.proposals[i].program.sha256 in s.seen)
    && (forall i :: 0 <= i < |s.proposals| ==>
          FromSeed(request, s.proposals[i]) || FromParent(e, request, s.proposals[i]))
  }

  lemma {:induction false} SeedsAreFresh(e: Evolver, request: ProposalRequest, count: nat)
    requires request.generation == 0 && 1 <= request.batchSize
    requires count <= |request.seedPrograms| && e.WithSeeds(request, count).Success?
    ensures Fresh(e, request, e.WithSeeds(request, count).value)
    ensures e.WithSeeds(request, count).value.attempts == 0 && !e.WithSeeds(request, count).value.crashed
  {
    if 0 < count {
      SeedsAreFresh(e, request, count - 1);
    }
  }

  lemma AttemptIsFresh(e: Evolver, request: ProposalRequest, s: Search)
    requires request.seedPrograms != []
    requires Fresh(e, request, s) && |s.proposals| < request.batchSize
    ensures Fresh(e, request, e.Attempt(e.Parents(request), e.stream(request.seed), s))
  {
    hide Evolver.Mutated, Evolver.Crashes;
    var parents, draws := e.Parents(request), e.stream(request.seed);
    var parent := parents[draws(s.drawn) % |parents|];
    var mutation := e.Mutated(parent, draws, s.drawn + 1).0;
    if mutation.Some? {
      assert parent in parents;
      assert Attributed(parent, mutation.value, e.MutationProposal(parent, mutation.value));
      assert FromParent(e, request, e.MutationProposal(parent, mutation.value));
    }
  }

  lemma {:induction false} SearchIsFresh(e: Evolver, request: ProposalRequest, s: Search)
    requires request.seedPrograms != [] && 1 <= request.batchSize
    requires Fresh(e, request, s)
    requires s.attempts <= request.batchSize * MAX_ATTEMPTS_PER_PROPOSAL
    ensures var last := e.Searched(e.Parents(request), e.stream(request.seed), request.batchSize, s);
            && Fresh(e, request, last)
            && last.attempts <= request.batchSize * MAX_ATTEMPTS_PER_PROPOSAL
            && (last.crashed || |last.proposals| == request.batchSize
                || last.attempts == request.batchSize * MAX_ATTEMPTS_PER_PROPOSAL)
    decreases request.batchSize * MAX_ATTEMPTS_PER_PROPOSAL - s.attempts
  {
    if !s.crashed && |s.proposals| < request.batchSize && s.attempts < request.batchSize * MAX_ATTEMPTS_PER_PROPOSAL {
      AttemptIsFresh(e, request, s);
      SearchIsFresh(e, request, e.Attempt(e.Parents(request), e.stream(request.seed), s));
    }
  }

  /** Whenever propose returns a batch it has exactly the size asked for, every program in
      it validated, no two with one hash and none already seen, each an unmodified seed or a
      mutation of a parent, found within 200 attempts per proposal; and it gives up only
      after spending all of them. */
  lemma BatchIsFresh(e: Evolver, request: ProposalRequest)
    ensures e.SearchOutcome(request).Success? ==>
              var last := e.SearchOutcome(request).value;
              && Fresh(e, request, last)
              && |last.proposals| == request.batchSize
              && last.attempts <= request.batchSize * 200
    ensures e.SearchOutcome(request) == Failure(Exhausted) ==>
              var s := e.FirstSearch(request).value;
              e.Searched(e.Parents(request), e.stream(request.seed), request.batchSize, s).attempts
                == request.batchSize * 200
  {
    hide Evolver.Mutated, Evolver.Crashes, EvolveBlock;
    if 1 <= request.batchSize && request.seedPrograms != [] && e.FirstSearch(request).Success? {
      if request.generation == 0 {
        SeedsAreFresh(e, request, |request.seedPrograms|);
      }
      SearchIsFresh(e, request, e.FirstSearch(request).value);
    }
  }

  // ----- seeds first

  predicate Among(request: ProposalRequest, picks: seq<nat>, hash: string) {
    exists i :: 0 <= i < |picks| && picks[i] < |request.seedPrograms| && request.seedPrograms[picks[i]].sha256 == hash
  }

  /** Seeds picked in their order, and no seed passed over while there is room: its hash had
      been seen, or one that was picked has it. */
  predicate SeedsPicked(request: ProposalRequest, picks: seq<nat>, count: nat)
    requires count <= |request.seedPrograms|
  {
    && |picks| <= request.batchSize
    && (forall i :: 0 <= i < |picks| ==> picks[i] < count)
    && (forall i, j :: 0 <= i < j < |picks| ==> picks[i] < picks[j])
    && (|picks| < request.batchSize ==> forall k :: 0 <= k < count ==>
          request.seedPrograms[k].sha256 in request.seen || Among(request, picks, request.seedPrograms[k].sha256))
  }

  /** The proposals so far are those seeds, as they are. */
  predicate AreSeeds(request: ProposalRequest, picks: seq<nat>, proposals: seq<Proposal>) {
    && |proposals| == |picks|
    && forall i :: 0 <= i < |picks| ==>
         && picks[i] < |request.seedPrograms|
         && proposals[i].program == request.seedPrograms[picks[i]]
         && proposals[i].parentSha256 == []
         && proposals[i].origin == "seed" && proposals[i].mutation == "unmodified seed"
  }

  /** The hashes known are those seen before and those of the picks. */
  ghost predicate Knows(request: ProposalRequest, picks: seq<nat>, seen: set<string>) {
    forall h :: h in seen <==> h in request.seen || Among(request, picks, h)
  }

  lemma {:induction false} SeedsAreTaken(e: Evolver, request: ProposalRequest, count: nat) returns (picks: seq<nat>)
    requires 1 <= request.batchSize
    requires count <= |request.seedPrograms| && e.WithSeeds(request, count).Success?
    ensures SeedsPicked(request, picks, count)
    ensures AreSeeds(request, picks, e.WithSeeds(request, count).value.proposals)
    ensures Knows(request, picks, e.WithSeeds(request, count).value.seen)
  {
    hide SeedsPicked, AreSeeds, Knows;
    if count == 0 {
      picks := [];
      NothingPicked(request);
    } else {
      picks := SeedsAreTaken(e, request, count - 1);
      var s := e.WithSeeds(request, count - 1).value;
      SameLength(request, picks, s.proposals);
      if |s.proposals| < request.batchSize && request.seedPrograms[count - 1].sha256 !in s.seen {
        SeedTaken(request, picks, s, count);
        picks := picks + [count - 1];
      } else {
        SeedPassed(request, picks, s, count);
      }
    }
  }

  lemma NothingPicked(request: ProposalRequest)
    requires 1 <= request.batchSize
    ensures SeedsPicked(request, [], 0) && AreSeeds(request, [], []) && Knows(request, [], request.seen)
  {
  }

  lemma SeedPassed(request: ProposalRequest, picks: seq<nat>, s: Search, count: nat)
    requires 1 <= count <= |request.seedPrograms| && |picks| == |s.proposals|
    requires SeedsPicked(request, picks, count - 1) && Knows(request, picks, s.seen)
    requires request.batchSize <= |s.proposals| || request.seedPrograms[count - 1].sha256 in s.seen
    ensures SeedsPicked(request, picks, count)
  {
    hide Among;
  }

  lemma AmongMore(request: ProposalRequest, picks: seq<nat>, k: nat, h: string)
    requires k < |request.seedPrograms|
    ensures Among(request, picks + [k], h) <==> Among(request, picks, h) || h == request.seedPrograms[k].sha256
  {
    var more := picks + [k];
    assert more[|picks|] == k;
    if Among(request, picks, h) {
      var i :| 0 <= i < |picks| && picks[i] < |request.seedPrograms| && request.seedPrograms[picks[i]].sha256 == h;
      assert more[i] == picks[i];
    }
  }

  lemma SeedTaken(request: ProposalRequest, picks: seq<nat>, s: Search, count: nat)
    requires 1 <= count <= |request.seedPrograms| && |picks| < request.batchSize
    requires SeedsPicked(request, picks, count - 1) && AreSeeds(request, picks, s.proposals)
    requires Knows(request, picks, s.seen)
    ensures var more, program := picks + [count - 1], request.seedPrograms[count - 1];
            && SeedsPicked(request, more, count)
            && AreSeeds(request, more, s.proposals + [Proposal(program, [], "seed", "unmodified seed")])
            && Knows(request, more, s.seen + {program.sha256})
  {
    hide Among;
    var more := picks + [count - 1];
    forall h | h in s.seen + {request.seedPrograms[count - 1].sha256} || Among(request, more, h) || Among(request, picks, h)
      ensures Among(request, more, h) <==> Among(request, picks, h) || h == request.seedPrograms[count - 1].sha256
    {
      AmongMore(request, picks, count - 1, h);
    }
    forall k | 0 <= k < count
      ensures request.seedPrograms[k].sha256 in request.seen || Among(request, more, request.seedPrograms[k].sha256)
    {
      AmongMore(request, picks, count - 1, request.seedPrograms[k].sha256);
    }
  }

  lemma {:induction false} SearchExtends(e: Evolver, parents: seq<CandidateProgram>, draws: nat -> nat, batchSize: nat, s: Search)
    requires parents != []
    ensures s.proposals <= e.Searched(parents, draws, batchSize, s).proposals
    decreases batchSize * MAX_ATTEMPTS_PER_PROPOSAL - s.attempts
  {
    hide Evolver.Mutated, Evolver.Crashes;
    if !s.crashed && |s.proposals| < batchSize && s.attempts < batchSize * MAX_ATTEMPTS_PER_PROPOSAL {
      SearchExtends(e, parents, draws, batchSize, e.Attempt(parents, draws, s));
    }
  }

  /** A batch of generation 0 opens with the unmodified seeds, in order, as many as fit. */
  lemma SeedsComeFirst(e: Evolver, request: ProposalRequest) returns (picks: seq<nat>)
    requires request.generation == 0 && e.Proposed(request).Success?
    ensures SeedsPicked(request, picks, |request.seedPrograms|)
    ensures |picks| <= |e.Proposed(request).value|
    ensures AreSeeds(request, picks, e.Proposed(request).value[..|picks|])
  {
    hide Evolver.Attempt, Evolver.Searched, Evolver.Parents, SeedsPicked, AreSeeds;
    picks := SeedsAreTaken(e, request, |request.seedPrograms|);
    var s := e.WithSeeds(request, |request.seedPrograms|).value;
    SearchExtends(e, e.Parents(request), e.stream(request.seed), request.batchSize, s);
    SameLength(request, picks, s.proposals);
    assert e.Proposed(request).value[..|picks|] == s.proposals;
  }

  lemma SameLength(request: ProposalRequest, picks: seq<nat>, proposals: seq<Proposal>)
    requires AreSeeds(request, picks, proposals)
    ensures |picks| == |proposals|
  {
  }

  // ----- how a lineage keeps its block, or loses it

  predicate AllSurvive(e: Evolver, programs: seq<CandidateProgram>) {
    forall i :: 0 <= i < |programs| ==> BlockSurvives(e, programs[i].source)
  }

  /** If every parent has a block that survives being written back, every proposal of the batch
      has one; so only a parent whose own block does not survive can end a later generation
      over a missing block. */
  lemma BatchKeepsBlocks(e: Evolver, request: ProposalRequest, p: Proposal)
    requires FormatsSound(e) && LexerSound(e)
    requires FromSeed(request, p) || FromParent(e, request, p)
    requires e.AllHaveBlocks(request.seedPrograms) && AllSurvive(e, e.Parents(request))
    ensures EvolveBlock(p.program.source).Some?
  {
    hide EvolveBlock, FormatsSound, ReadsFaithfully, BlockSurvives, BlockStays, Evolver.Mutated;
    if FromParent(e, request, p) {
      var parent, at :|
        && parent in e.Parents(request)
        && e.Mutated(parent, e.stream(request.seed), at).0.Some?
        && Attributed(parent, e.Mutated(parent, e.stream(request.seed), at).0.value, p);
      assert ReadsFaithfully(e, parent.source);
      MutationKeepsBlock(e, parent, e.stream(request.seed), at);
    }
  }
}
