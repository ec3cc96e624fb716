/** The assumptions about the evolver's surroundings can be met, and each way it surprises
    does happen: a small lexer and number format, and programs that mutate under them. */
module EvolverInstance {
  import opened Wrappers
  import opened Protocol
  import opened Executors
  import opened Text
  import opened LocalEvolver
  import opened EvolverProperties

  // ----- number formats

  predicate AllDigits(text: string) {
    text != "" && forall i :: 0 <= i < |text| ==> IsDigit(text[i])
  }

  function ValueOfDigits(text: string): nat
    requires forall i :: 0 <= i < |text| ==> IsDigit(text[i])
  {
    if text == "" then 0
    else
      var n := |text| - 1;
      assert IsDigit(text[n]);
      10 * ValueOfDigits(text[..n]) + (text[n] as int - '0' as int)
  }

  lemma {:induction false} DecimalReads(n: nat)
    ensures AllDigits(Decimal(n)) && ValueOfDigits(Decimal(n)) == n
  {
    var text := Decimal(n);
    if 10 <= n {
      DecimalReads(n / 10);
      assert text[..|text| - 1] == Decimal(n / 10);
    } else {
      assert text[..0] == "";
    }
  }

  /** literal_eval of decimals, of one half however long it is spelled, and of one. */
  function ReadLiteral(text: string): NumberLiteral {
    if AllDigits(text) then IntLiteral(ValueOfDigits(text))
    else if "0.5" <= text then FloatLiteral(Finite(0.5))
    else if text == "1.0" then FloatLiteral(Finite(1.0))
    else OtherLiteral
  }

  lemma ReadsBack(n: nat)
    ensures ReadLiteral(Decimal(n)) == IntLiteral(n)
  {
    DecimalReads(n);
  }

  lemma ReadsFloat(text: string)
    requires "0.5" <= text || text == "1.0"
    ensures ReadLiteral(text) == FloatLiteral(Finite(if text == "1.0" then 1.0 else 0.5))
  {
    assert !IsDigit(text[1]);
    assert "0.5"[0] == '0' && "1.0"[0] == '1';
  }

  /** Floats with one half and one, everything else out of range. */
  function Round(x: real): Number {
    if x == 0.5 || x == 1.0 then Finite(x) else NonFinite
  }

  function Repr(x: real): string {
    if x == 0.5 then "0.5" else "1.0"
  }

  function Digest(c: char): string {
    seq(64, _ => c)
  }

  /** The evolver that can lex one source, always drawing 0. */
  function Instance(source: string, tokens: seq<Token>): Evolver {
    Evolver(
      text => if text == source then Some(tokens) else None,
      ReadLiteral,
      Round,
      Repr,
      1000,
      text => if text == source then Digest('0') else Digest('1'),
      _ => true,
      _ => _ => 0)
  }

  /** Every assumption about lexer and formats holds of it, with floats among the numbers. */
  lemma InstanceIsSound(source: string, tokens: seq<Token>)
    requires Faithful(tokens, source)
    ensures FormatsSound(Instance(source, tokens)) && LexerSound(Instance(source, tokens))
  {
    hide Faithful, ReadLiteral;
    var e := Instance(source, tokens);
    forall n: nat
      ensures e.literal(Decimal(n)) == IntLiteral(n)
    {
      ReadsBack(n);
    }
    FloatsReadBack(0.5);
    FloatsReadBack(1.0);
  }

  lemma FloatsReadBack(x: real)
    requires x == 0.5 || x == 1.0
    ensures Plain(Repr(x)) && ReadLiteral(Repr(x)) == FloatLiteral(Finite(x))
  {
    ReadsFloat(Repr(x));
    assert IsDigit(Repr(x)[0]);
  }

  // ----- tokens laid out on their rows

  /** Where the text ends when token i is reached. */
  function EndBefore(tokens: seq<Token>, i: nat): (nat, nat)
    requires i <= |tokens|
  {
    if i == 0 then (1, 0)
    else if tokens[i - 1].kind.EndOfLine? then (tokens[i - 1].endRow + 1, 0)
    else (tokens[i - 1].endRow, tokens[i - 1].endCol)
  }

  /** Each token is on the row where the text before it ends, at its end or further right. */
  predicate LaidOut(tokens: seq<Token>) {
    forall i :: 0 <= i < |tokens| ==>
      && IsWritten(tokens[i])
      && tokens[i].startRow == EndBefore(tokens, i).0
      && EndBefore(tokens, i).1 <= tokens[i].startCol
  }

  function Spaces(tokens: seq<Token>, i: nat): string
    requires i < |tokens|
  {
    var col := EndBefore(tokens, i).1;
    if col <= tokens[i].startCol then Repeat(" ", tokens[i].startCol - col) else ""
  }

  function Written(tokens: seq<Token>): string {
    if tokens == [] then ""
    else
      var n := |tokens| - 1;
      Written(tokens[..n]) + Spaces(tokens, n) + tokens[n].text
  }

  lemma {:induction false} LaidOutCursor(tokens: seq<Token>)
    requires LaidOut(tokens)
    ensures var cursor := CursorAfter(tokens);
            cursor.indents == [] && (cursor.row, cursor.col) == EndBefore(tokens, |tokens|)
  {
    if tokens != [] {
      var n := |tokens| - 1;
      LaidOutPrefix(tokens, n);
      LaidOutCursor(tokens[..n]);
    }
  }

  lemma LaidOutPrefix(tokens: seq<Token>, k: nat)
    requires LaidOut(tokens) && k <= |tokens|
    ensures LaidOut(tokens[..k]) && EndBefore(tokens[..k], k) == EndBefore(tokens, k)
  {
    assert forall i :: 0 <= i < k ==> tokens[..k][i] == tokens[i];
    assert forall i :: 0 <= i < k ==> EndBefore(tokens[..k], i) == EndBefore(tokens, i);
  }

  lemma LeadIsSpaces(cursor: Cursor, token: Token)
    requires cursor.indents == [] && cursor.row == token.startRow && cursor.col <= token.startCol
    ensures Lead(cursor, token) == Some(Repeat(" ", token.startCol - cursor.col))
  {
    assert "" + Repeat(" ", token.startCol - cursor.col) == Repeat(" ", token.startCol - cursor.col);
  }

  /** Such tokens are written one after the other, spaces where they are apart. */
  lemma {:induction false} LaidOutIsWritten(tokens: seq<Token>)
    requires LaidOut(tokens)
    ensures Untokenize(tokens) == Some(Written(tokens))
  {
    hide Lead, CursorAfter;
    if tokens != [] {
      var n := |tokens| - 1;
      LaidOutPrefix(tokens, n);
      LaidOutIsWritten(tokens[..n]);
      LaidOutCursor(tokens[..n]);
      LeadIsSpaces(CursorAfter(tokens[..n]), tokens[n]);
    }
  }

  lemma WrittenStep(tokens: seq<Token>, i: nat)
    requires i < |tokens|
    ensures var before, after := Written(tokens[..i]), Written(tokens[..i + 1]);
            && (tokens[i].startCol == EndBefore(tokens, i).1 ==> after == before + tokens[i].text)
            && (tokens[i].startCol == EndBefore(tokens, i).1 + 1 ==> after == before + " " + tokens[i].text)
  {
    var prefix := tokens[..i + 1];
    assert prefix[..i] == tokens[..i] && EndBefore(prefix, i) == EndBefore(tokens, i);
    var before := Written(tokens[..i]);
    assert before + "" == before && Repeat(" ", 1) == Repeat(" ", 0) + " " == " ";
  }

  lemma NothingWritten(tokens: seq<Token>)
    ensures Written(tokens[..0]) == ""
  {
  }

  // ----- the class every candidate must define

  const CLASS_LINE := "class Strategy:"

  const METHOD_LINE := " def on_bar(self, bar): return []"

  /** A class with an on_bar method, as the validator demands. */
  function Body(): string {
    CLASS_LINE + ['\n'] + (METHOD_LINE + ['\n'])
  }

  function ClassTokens(row: nat): seq<Token> {
    [ Token(OtherToken, "class", row, 0, row, 5),
      Token(OtherToken, "Strategy", row, 6, row, 14),
      Token(OtherToken, ":", row, 14, row, 15),
      Token(EndOfLine, "\n", row, 15, row, 16)]
  }

  function HeadTokens(row: nat): seq<Token> {
    [ Token(Indent, " ", row, 0, row, 1),
      Token(OtherToken, "def", row, 1, row, 4),
      Token(OtherToken, "on_bar", row, 5, row, 11),
      Token(OtherToken, "(", row, 11, row, 12),
      Token(OtherToken, "self", row, 12, row, 16),
      Token(OtherToken, ",", row, 16, row, 17),
      Token(OtherToken, "bar", row, 18, row, 21),
      Token(OtherToken, ")", row, 21, row, 22)]
  }

  function TailTokens(row: nat): seq<Token> {
    [ Token(OtherToken, ":", row, 22, row, 23),
      Token(OtherToken, "return", row, 24, row, 30),
      Token(OtherToken, "[", row, 31, row, 32),
      Token(OtherToken, "]", row, 32, row, 33),
      Token(EndOfLine, "\n", row, 33, row, 34),
      Token(Dedent, "", row + 1, 0, row + 1, 0),
      Token(EndOfFile, "", row + 1, 0, row + 1, 0)]
  }

  function BodyTokens(row: nat): seq<Token> {
    ClassTokens(row) + HeadTokens(row + 1) + TailTokens(row + 1)
  }

  /** What has been written, and where untokenize stands, after some tokens. */
  predicate At(tokens: seq<Token>, text: string, cursor: Cursor) {
    Untokenize(tokens) == Some(text) && CursorAfter(tokens) == cursor
  }

  lemma Put(tokens: seq<Token>, i: nat, text: string, cursor: Cursor)
    requires i < |tokens| && At(tokens[..i], text, cursor) && IsWritten(tokens[i])
    requires !Indented(cursor, tokens[i]) && tokens[i].startRow == cursor.row
    ensures tokens[i].startCol == cursor.col ==> At(tokens[..i + 1], text + tokens[i].text, Moved(cursor, tokens[i]))
    ensures tokens[i].startCol == cursor.col + 1 ==>
              At(tokens[..i + 1], text + " " + tokens[i].text, Moved(cursor, tokens[i]))
  {
    hide Moved;
    assert tokens[..i + 1][..i] == tokens[..i];
    assert text + "" == text && Repeat(" ", 1) == Repeat(" ", 0) + " " == " ";
    assert "" + "" == "" && "" + " " == " ";
  }

  lemma PutIndented(tokens: seq<Token>, i: nat, text: string, cursor: Cursor, indent: string)
    requires i < |tokens| && At(tokens[..i], text, cursor) && IsWritten(tokens[i])
    requires Indented(cursor, tokens[i]) && cursor.indents == [indent]
    requires tokens[i].startRow == cursor.row && tokens[i].startCol == |indent|
    ensures At(tokens[..i + 1], text + indent + tokens[i].text, Moved(cursor, tokens[i]))
  {
    hide Moved;
    assert tokens[..i + 1][..i] == tokens[..i];
    assert "" + "" == "" && indent + "" == indent;
  }

  lemma PutUnwritten(tokens: seq<Token>, i: nat, text: string, cursor: Cursor)
    requires i < |tokens| && At(tokens[..i], text, cursor) && !IsWritten(tokens[i])
    ensures At(tokens[..i + 1], text, Moved(cursor, tokens[i]))
  {
    hide Moved;
    assert tokens[..i + 1][..i] == tokens[..i];
  }

  lemma ClassWritten(front: seq<Token>, text: string, row: nat)
    requires At(front, text, Cursor(row, 0, [], true))
    ensures At(front + ClassTokens(row), text + (CLASS_LINE + "\n"), Cursor(row + 1, 0, [], true))
  {
    hide At;
    var t, n := front + ClassTokens(row), |front|;
    assert t[..n] == front && t[..n + 4] == t;
    Put(t, n, text, Cursor(row, 0, [], true));
    Put(t, n + 1, text + "class", Cursor(row, 5, [], true));
    Put(t, n + 2, text + "class" + " " + "Strategy", Cursor(row, 14, [], true));
    Put(t, n + 3, text + "class" + " " + "Strategy" + ":", Cursor(row, 15, [], true));
    assert "class" + " " + "Strategy" + ":" == CLASS_LINE;
    assert text + "class" + " " + "Strategy" + ":" + "\n" == text + ("class" + " " + "Strategy" + ":" + "\n");
  }

  const HEAD := " def on_bar(self, bar)"

  lemma HeadWritten(front: seq<Token>, text: string, row: nat)
    requires At(front, text, Cursor(row, 0, [], true))
    ensures At(front + HeadTokens(row), text + HEAD, Cursor(row, 22, [" "], false))
  {
    hide At;
    var t, n := front + HeadTokens(row), |front|;
    assert t[..n] == front && t[..n + 8] == t;
    PutUnwritten(t, n, text, Cursor(row, 0, [], true));
    assert [] + [" "] == [" "];
    PutIndented(t, n + 1, text, Cursor(row, 0, [" "], true), " ");
    var a := text + " " + "def";
    Put(t, n + 2, a, Cursor(row, 4, [" "], false));
    var b := a + " " + "on_bar";
    Put(t, n + 3, b, Cursor(row, 11, [" "], false));
    Put(t, n + 4, b + "(", Cursor(row, 12, [" "], false));
    var c := b + "(" + "self";
    Put(t, n + 5, c, Cursor(row, 16, [" "], false));
    Put(t, n + 6, c + ",", Cursor(row, 17, [" "], false));
    Put(t, n + 7, c + "," + " " + "bar", Cursor(row, 21, [" "], false));
    assert a == text + " def" && b == text + " def on_bar";
    assert c == text + " def on_bar(self";
    assert c + "," + " " + "bar" + ")" == text + HEAD;
  }

  lemma TailWritten(front: seq<Token>, text: string, row: nat)
    requires At(front, text, Cursor(row, 22, [" "], false))
    ensures Untokenize(front + TailTokens(row)) == Some(text + ": return []\n")
  {
    hide At;
    var t, n := front + TailTokens(row), |front|;
    assert t[..n] == front && t[..n + 7] == t;
    Put(t, n, text, Cursor(row, 22, [" "], false));
    Put(t, n + 1, text + ":", Cursor(row, 23, [" "], false));
    var a := text + ":" + " " + "return";
    Put(t, n + 2, a, Cursor(row, 30, [" "], false));
    Put(t, n + 3, a + " " + "[", Cursor(row, 32, [" "], false));
    Put(t, n + 4, a + " " + "[" + "]", Cursor(row, 33, [" "], false));
    var b := a + " " + "[" + "]" + "\n";
    PutUnwritten(t, n + 5, b, Cursor(row + 1, 0, [" "], true));
    PutUnwritten(t, n + 6, b, Cursor(row + 1, 0, [], true));
    assert a == text + ": return" && b == text + ": return []\n";
    IsAt(t, b, Cursor(row + 1, 0, [], true));
  }

  lemma IsAt(tokens: seq<Token>, text: string, cursor: Cursor)
    requires At(tokens, text, cursor)
    ensures Untokenize(tokens) == Some(text)
  {
  }

  /** The class written after anything that ends a line. */
  lemma BodyWritten(front: seq<Token>, row: nat)
    requires LaidOut(front) && front != [] && front[|front| - 1].kind.EndOfLine?
    requires EndBefore(front, |front|) == (row, 0)
    ensures Untokenize(front + BodyTokens(row)) == Some(Written(front) + Body())
  {
    hide At, LaidOut, Written, ClassTokens, HeadTokens, TailTokens, BodyTokens, Body;
    LineHasBegun(front, row);
    var text := Written(front);
    ClassWritten(front, text, row);
    var first := front + ClassTokens(row);
    HeadWritten(first, text + (CLASS_LINE + "\n"), row + 1);
    TailWritten(first + HeadTokens(row + 1), text + (CLASS_LINE + "\n") + HEAD, row + 1);
    BodyJoins(front, text, row);
  }

  lemma BodyJoins(front: seq<Token>, text: string, row: nat)
    ensures front + ClassTokens(row) + HeadTokens(row + 1) + TailTokens(row + 1) == front + BodyTokens(row)
    ensures text + (CLASS_LINE + "\n") + HEAD + ": return []\n" == text + Body()
  {
    hide ClassTokens, HeadTokens, TailTokens;
    BodySpelled();
    assert text + (CLASS_LINE + "\n") + HEAD + ": return []\n" == text + (CLASS_LINE + "\n" + (HEAD + ": return []\n"));
  }

  lemma BodySpelled()
    ensures CLASS_LINE + "\n" + (HEAD + ": return []\n") == Body()
  {
    assert HEAD + ": return []\n" == METHOD_LINE + "\n";
  }

  lemma LineHasBegun(front: seq<Token>, row: nat)
    requires LaidOut(front) && front != [] && front[|front| - 1].kind.EndOfLine?
    requires EndBefore(front, |front|) == (row, 0)
    ensures At(front, Written(front), Cursor(row, 0, [], true))
  {
    hide LaidOut, Written, Untokenize;
    LaidOutCursor(front);
    LaidOutIsWritten(front);
  }

  lemma BodyHasNoNumber(row: nat)
    ensures forall i :: 0 <= i < |BodyTokens(row)| ==> !BodyTokens(row)[i].kind.NumberToken?
  {
  }

  lemma BodyLines()
    ensures SplitLines(Body()) == [CLASS_LINE, METHOD_LINE]
    ensures |Body()| == 50
  {
    hide SplitLines, BreaksIn, Newlines;
    BodyLinesAreUnbroken();
    NoNewlines();
    LineThenBreak(CLASS_LINE, '\n', METHOD_LINE + ['\n']);
    LineThenBreak(METHOD_LINE, '\n', "");
    assert METHOD_LINE + ['\n'] + "" == METHOD_LINE + ['\n'];
  }

  lemma BodyLinesAreUnbroken()
    ensures Unbroken(CLASS_LINE) && Unbroken(METHOD_LINE) && |CLASS_LINE| == 15 && |METHOD_LINE| == 33
  {
  }

  lemma BodyLinesAreNoMarkers()
    ensures Strip(CLASS_LINE) != START_MARKER && Strip(CLASS_LINE) != END_MARKER
    ensures Strip(METHOD_LINE) != START_MARKER && Strip(METHOD_LINE) != END_MARKER
  {
    hide StripRight;
    var stripped := METHOD_LINE[1..];
    FirstCharacters();
    StripTight(CLASS_LINE);
    StripTight(stripped);
    assert StripLeft(METHOD_LINE) == stripped == StripLeft(stripped);
    assert Strip(METHOD_LINE) == Strip(stripped);
  }

  lemma FirstCharacters()
    ensures CLASS_LINE[0] == 'c' && CLASS_LINE[14] == ':'
    ensures METHOD_LINE[0] == ' ' && METHOD_LINE[1] == 'd' && METHOD_LINE[32] == ']'
    ensures START_MARKER[0] == '#' && END_MARKER[0] == '#'
    ensures |CLASS_LINE| == 15 && |METHOD_LINE| == 33
  {
  }

  // ----- places in a source

  predicate OneRow(line: string) {
    forall i :: 0 <= i < |line| ==> line[i] != '\n'
  }

  lemma BeforeGoesOn(c: char, rest: string, row: nat, col: nat)
    requires 2 <= row && Before(rest, if c == '\n' then row - 1 else row, col).Some?
    ensures Before([c] + rest, row, col) == Some([c] + Before(rest, if c == '\n' then row - 1 else row, col).value)
  {
    assert ([c] + rest)[1..] == rest;
  }

  lemma {:induction false} RowBelow(line: string, rest: string, row: nat, col: nat)
    requires OneRow(line) && 2 <= row && Before(rest, row - 1, col).Some?
    ensures Before(line + ['\n'] + rest, row, col) == Some(line + ['\n'] + Before(rest, row - 1, col).value)
  {
    hide Before;
    var before := Before(rest, row - 1, col).value;
    if line == "" {
      BeforeGoesOn('\n', rest, row, col);
      assert line + ['\n'] + rest == ['\n'] + rest && line + ['\n'] + before == ['\n'] + before;
    } else {
      RowBelow(line[1..], rest, row, col);
      BeforeGoesOn(line[0], line[1..] + ['\n'] + rest, row, col);
      assert line + ['\n'] + rest == [line[0]] + (line[1..] + ['\n'] + rest);
      assert line + ['\n'] + before == [line[0]] + (line[1..] + ['\n'] + before);
    }
  }

  lemma {:induction false} AlongRow(line: string, rest: string)
    requires OneRow(line)
    ensures Before(line + rest, 1, |line|) == Some(line)
  {
    if line != "" {
      AlongRow(line[1..], rest);
      assert (line + rest)[1..] == line[1..] + rest;
      assert [line[0]] + line[1..] == line;
    }
  }

  lemma RowStarts(rest: string)
    ensures Before(rest, 1, 0) == Some("")
  {
  }

  // ----- one number between the markers

  lemma {:induction false} NoneMutable(e: Evolver, tokens: seq<Token>, block: (nat, nat))
    requires forall i :: 0 <= i < |tokens| ==> !e.InBlock(tokens[i], block)
    ensures e.MutableTokens(tokens, block) == Success([])
  {
    hide Evolver.InBlock, Evolver.FaultOf, Evolver.IsMutable;
    if tokens != [] {
      NoneMutable(e, tokens[..|tokens| - 1], block);
    }
  }

  lemma {:induction false} OneMutable(e: Evolver, tokens: seq<Token>, block: (nat, nat), k: nat)
    requires k < |tokens|
    requires forall i :: 0 <= i < |tokens| && i != k ==> !e.InBlock(tokens[i], block)
    requires e.InBlock(tokens[k], block) && e.FaultOf(tokens[k]).None? && e.IsMutable(tokens[k])
    ensures e.MutableTokens(tokens, block) == Success([k])
  {
    hide Evolver.InBlock, Evolver.FaultOf, Evolver.IsMutable;
    var n := |tokens| - 1;
    if k < n {
      OneMutable(e, tokens[..n], block, k);
    } else {
      NoneMutable(e, tokens[..n], block);
      assert [] + [n] == [n];
    }
  }

  /** A source with one number between its markers that can be replaced, short as written. */
  ghost predicate HoldsOneNumber(source: string, tokens: seq<Token>, written: string, block: (nat, nat), k: nat) {
    var e := Instance(source, tokens);
    && Faithful(tokens, source)
    && Untokenize(tokens) == Some(written) && |written| <= 2_000
    && EvolveBlock(source) == Some(block)
    && k < |tokens| && e.MutableTokens(tokens, block) == Success([k])
    && e.InBlock(tokens[k], block) && e.IsMutable(tokens[k])
    && !e.GrowsTooLarge(e.literal(tokens[k].text))
    && Replacements(e.literal(tokens[k].text), e.round) != []
    && |e.ReplacementText(tokens[k], 0)| <= 10
  }

  function ProgramOf(source: string): CandidateProgram {
    CandidateProgram(source, Digest('0'))
  }

  /** It mutates, to the text as written with that number replaced. */
  lemma OneNumberMutates(source: string, tokens: seq<Token>, written: string, block: (nat, nat), k: nat, at: nat)
    returns (pre: string, post: string)
    requires HoldsOneNumber(source, tokens, written, block, k)
    ensures var e := Instance(source, tokens);
            var m := e.Mutated(ProgramOf(source), e.stream(0), at).0;
            && m.Some? && m.value.row == tokens[k].startRow
            && m.value.before == tokens[k].text && m.value.after == e.ReplacementText(tokens[k], 0)
            && OneSpanApart(written, m.value.program.source, pre, m.value.before, m.value.after, post)
            && m.value.program.sha256 == (if m.value.program.source == source then Digest('0') else Digest('1'))
            && !e.Crashes(ProgramOf(source), e.stream(0), at)
  {
    hide EvolveBlock, Untokenize, ReadLiteral, Replacements, Evolver.GrowsTooLarge, Evolver.MutableTokens;
    hide Evolver.ReplacementText, Plain, FormatsSound, Before, TextBefore;
    var e := Instance(source, tokens);
    InstanceIsSound(source, tokens);
    var text := e.ReplacementText(tokens[k], 0);
    ReplacementIsPlain(e, tokens[k], 0);
    pre, post := RewordingIsLocal(tokens, k, text);
    RewordedLength(written, pre, tokens[k].text, text, post);
    PlainIsNotEmpty(text);
  }

  lemma PlainIsNotEmpty(text: string)
    requires Plain(text)
    ensures 1 <= |text|
  {
  }

  lemma SameSpan(pre: string, was: string, text: string, post: string)
    requires pre + was + post == pre + text + post
    ensures was == text
  {
    assert |was| == |text|;
    assert was == (pre + was + post)[|pre|..|pre| + |was|];
    assert text == (pre + text + post)[|pre|..|pre| + |text|];
  }

  lemma Differs(pre: string, was: string, text: string, post: string)
    requires was != text
    ensures pre + was + post != pre + text + post
  {
    if pre + was + post == pre + text + post {
      SameSpan(pre, was, text, post);
    }
  }

  function Marked(number: string): string {
    START_MARKER + ['\n'] + (number + ['\n'] + (END_MARKER + ['\n'] + Body()))
  }

  function MarkedNumber(number: string): Token {
    Token(NumberToken, number, 2, 0, 2, |number|)
  }

  /** The tokens of the marked lines, the number recorded with this width. */
  function MarkedFront(number: string, width: nat): seq<Token> {
    [ Token(OtherToken, START_MARKER, 1, 0, 1, 20),
      Token(EndOfLine, "\n", 1, 20, 1, 21),
      Token(NumberToken, number, 2, 0, 2, width),
      Token(EndOfLine, "\n", 2, width, 2, width + 1),
      Token(OtherToken, END_MARKER, 3, 0, 3, 18),
      Token(EndOfLine, "\n", 3, 18, 3, 19)]
  }

  function MarkedTokens(number: string): seq<Token> {
    MarkedFront(number, |number|) + BodyTokens(4)
  }

  lemma UnbrokenIsOneRow(line: string)
    requires Unbroken(line)
    ensures OneRow(line)
  {
  }

  lemma MarkedNumberIsThird(number: string, tokens: seq<Token>)
    requires tokens == MarkedTokens(number)
    ensures |tokens| == 25 && tokens[2] == MarkedNumber(number)
    ensures forall i :: 0 <= i < |tokens| && i != 2 ==> !tokens[i].kind.NumberToken?
  {
    BodyHasNoNumber(4);
    var front := MarkedFront(number, |number|);
    assert forall i :: 0 <= i < |tokens| ==> tokens[i] == if i < 6 then front[i] else BodyTokens(4)[i - 6];
  }

  lemma MarkedIsFaithful(number: string)
    requires Plain(number)
    ensures Faithful(MarkedTokens(number), Marked(number))
  {
    hide Before, OneRow, Plain, MarkedTokens;
    MarkersAreTight();
    UnbrokenIsOneRow(START_MARKER);
    MarkedNumberIsThird(number, MarkedTokens(number));
    var rest := number + ['\n'] + (END_MARKER + ['\n'] + Body());
    RowStarts(rest);
    RowBelow(START_MARKER, rest, 2, 0);
    assert START_MARKER + ['\n'] + "" + number + (['\n'] + (END_MARKER + ['\n'] + Body())) == Marked(number);
  }

  lemma MarkedIsLaidOut(number: string, width: nat)
    ensures LaidOut(MarkedFront(number, width)) && EndBefore(MarkedFront(number, width), 6) == (4, 0)
  {
    MarkersAreTight();
  }

  lemma MarkedFrontWritten(number: string, width: nat)
    ensures Written(MarkedFront(number, width)) == START_MARKER + "\n" + number + "\n" + END_MARKER + "\n"
  {
    hide Written;
    var t := MarkedFront(number, width);
    NothingWritten(t);
    WrittenStep(t, 0);
    WrittenStep(t, 1);
    WrittenStep(t, 2);
    WrittenStep(t, 3);
    WrittenStep(t, 4);
    WrittenStep(t, 5);
    assert t[..6] == t;
    assert "" + START_MARKER == START_MARKER;
  }

  /** Whatever the number is reworded to, the rest stays. */
  lemma RewordedIsWritten(number: string, text: string)
    ensures 2 < |MarkedTokens(number)| && Untokenize(Reworded(MarkedTokens(number), 2, text)) == Some(Marked(text))
  {
    hide Written, Untokenize, LaidOut, EndBefore, BodyTokens, Body;
    var front := MarkedFront(text, |number|);
    assert Reworded(MarkedTokens(number), 2, text) == front + BodyTokens(4);
    MarkedIsLaidOut(text, |number|);
    MarkedFrontWritten(text, |number|);
    BodyWritten(front, 4);
    MarkedSpelled(text);
  }

  lemma MarkedSpelled(number: string)
    ensures START_MARKER + "\n" + number + "\n" + END_MARKER + "\n" + Body() == Marked(number)
  {
    hide Body;
    var tail := END_MARKER + ['\n'] + Body();
    assert START_MARKER + "\n" + number + "\n" + tail == Marked(number);
    assert START_MARKER + "\n" + number + "\n" + END_MARKER + "\n" + Body()
      == START_MARKER + "\n" + number + "\n" + (END_MARKER + "\n" + Body());
  }

  lemma MarkedIsWritten(number: string)
    ensures Untokenize(MarkedTokens(number)) == Some(Marked(number))
  {
    hide Untokenize, BodyTokens;
    RewordedIsWritten(number, number);
    assert Reworded(MarkedTokens(number), 2, number) == MarkedTokens(number);
  }

  lemma NoNewlines()
    ensures Newlines("") == 0 && SplitLines("") == [] && BreaksIn("") == 0
  {
  }

  lemma MarkedHasBlock(number: string)
    requires Plain(number)
    ensures EvolveBlock(Marked(number)) == Some((1, 3))
    ensures |Marked(number)| == 91 + |number|
  {
    hide SplitLines, BreaksIn, Newlines, Strip, MarkerLines, Unbroken, Body;
    MarkersAreTight();
    BodyLines();
    var rest := END_MARKER + ['\n'] + Body();
    LineThenBreak(START_MARKER, '\n', number + ['\n'] + rest);
    LineThenBreak(number, '\n', rest);
    LineThenBreak(END_MARKER, '\n', Body());
    DigitLineIsNoMarker(number);
    BodyLinesAreNoMarkers();
    var lines := [START_MARKER, number, END_MARKER, CLASS_LINE, METHOD_LINE];
    assert SplitLines(Marked(number)) == lines;
    MarkerOnce(lines, 0, START_MARKER);
    MarkerOnce(lines, 2, END_MARKER);
  }

  function MarkedEvolver(number: string): Evolver {
    Instance(Marked(number), MarkedTokens(number))
  }

  function MarkedProgram(number: string): CandidateProgram {
    ProgramOf(Marked(number))
  }

  lemma MarkedIsMutable(e: Evolver, number: string)
    requires e.FaultOf(MarkedNumber(number)).None? && Numeric(e.literal(number))
    ensures e.MutableTokens(MarkedTokens(number), (1, 3)) == Success([2])
  {
    hide Evolver.MutableTokens, Evolver.FaultOf, MarkedTokens;
    MarkedNumberIsThird(number, MarkedTokens(number));
    OneMutable(e, MarkedTokens(number), (1, 3), 2);
  }

  /** A program with one number between its markers mutates, if the number can be replaced. */
  lemma MarkedMutates(number: string, at: nat)
    requires Plain(number) && |number| <= 1_000
    requires var e := MarkedEvolver(number);
             && Numeric(e.literal(number)) && e.FaultOf(MarkedNumber(number)).None?
             && !e.GrowsTooLarge(e.literal(number)) && Replacements(e.literal(number), e.round) != []
             && |e.ReplacementText(MarkedNumber(number), 0)| <= 10
    ensures var e := MarkedEvolver(number);
            var m := e.Mutated(MarkedProgram(number), e.stream(0), at).0;
            && m.Some? && m.value.row == 2 && m.value.before == number
            && m.value.after == e.ReplacementText(MarkedNumber(number), 0)
            && m.value.program.source != Marked(number) && m.value.program.sha256 == Digest('1')
            && !e.Crashes(MarkedProgram(number), e.stream(0), at)
  {
    hide EvolveBlock, Untokenize, ReadLiteral, Replacements, Evolver.GrowsTooLarge, Evolver.MutableTokens;
    hide Evolver.FaultOf, Evolver.ReplacementText, Plain, Marked, Evolver.Mutated, Evolver.Crashes, Faithful, MarkedTokens;
    var e, tokens := MarkedEvolver(number), MarkedTokens(number);
    MarkedHasBlock(number);
    MarkedIsFaithful(number);
    MarkedIsWritten(number);
    MarkedIsMutable(e, number);
    MarkedNumberIsThird(number, tokens);
    var pre, post := OneNumberMutates(Marked(number), tokens, Marked(number), (1, 3), 2, at);
    Differs(pre, number, e.ReplacementText(tokens[2], 0), post);
  }

  /** An integer mutates. */
  lemma IntegerMutates(at: nat)
    ensures MarkedEvolver("1").Mutated(MarkedProgram("1"), MarkedEvolver("1").stream(0), at).0.Some?
  {
    hide ReadLiteral, Replacements;
    var e := MarkedEvolver("1");
    assert Decimal(1) == "1";
    ReadsBack(1);
    assert IsDigit("1"[0]);
    var r := Replacements(IntLiteral(1), e.round);
    assert r[0] in AsReals(IntNeighbours(1));
    assert r[0] == 0.0 || r[0] == 2.0;
    assert !e.GrowsTooLarge(IntLiteral(1));
    hide Evolver.Mutated, Evolver.GrowsTooLarge;
    MarkedMutates("1", at);
  }

  lemma HalfHasReplacement(number: string)
    requires "0.5" <= number
    ensures var e := MarkedEvolver(number);
            && e.literal(number) == FloatLiteral(Finite(0.5))
            && Replacements(e.literal(number), e.round) != []
            && e.ReplacementText(MarkedNumber(number), 0) == "1.0"
  {
    hide ReadLiteral, Replacements;
    ReadsFloat(number);
    assert number != "1.0" by { assert "0.5"[0] == '0' && "1.0"[0] == '1'; }
    var e := MarkedEvolver(number);
    var r := Replacements(FloatLiteral(Finite(0.5)), e.round);
    assert FloatNeighbours(0.5)[3] == 1.0;
    assert Moves(e.round(1.0), 0.5);
    assert 1.0 in r;
    var x :| x in FloatNeighbours(0.5) && e.round(x) == Finite(r[0]);
  }

  /** A float mutates, however long it is spelled. */
  lemma FloatMutates(number: string, at: nat)
    requires "0.5" <= number && Unbroken(number) && |number| <= 1_000
    ensures var e := MarkedEvolver(number);
            var m := e.Mutated(MarkedProgram(number), e.stream(0), at).0;
            && m.Some? && m.value.row == 2 && m.value.before == number && m.value.after == "1.0"
            && m.value.program.source != Marked(number) && m.value.program.sha256 == Digest('1')
            && !e.Crashes(MarkedProgram(number), e.stream(0), at)
  {
    hide ReadLiteral, Replacements, Evolver.Mutated, Evolver.Crashes, Evolver.ReplacementText;
    HalfHasReplacement(number);
    assert IsDigit(number[0]);
    MarkedMutates(number, at);
  }

  // ----- a lexer for a whole family

  /** The tokens of any program with one decimal between its markers. */
  function LexMarked(source: string): Option<seq<Token>> {
    if 91 <= |source| && AllDigits(source[21..|source| - 70]) && source == Marked(source[21..|source| - 70])
    then Some(MarkedTokens(source[21..|source| - 70]))
    else None
  }

  /** An evolver that lexes all of them, its own mutants included. */
  function Family(): Evolver {
    Evolver(LexMarked, ReadLiteral, Round, Repr, 1000, _ => Digest('0'), _ => true, _ => _ => 0)
  }

  lemma MarkedIsLexed(number: string)
    requires AllDigits(number)
    ensures LexMarked(Marked(number)) == Some(MarkedTokens(number))
  {
    hide Body, MarkedTokens;
    BodyLines();
    MarkersAreTight();
    assert Marked(number)[21..21 + |number|] == number;
  }

  lemma LexedIsMarked(source: string)
    requires LexMarked(source).Some?
    ensures 91 <= |source|
    ensures var number := source[21..|source| - 70];
            AllDigits(number) && source == Marked(number) && LexMarked(source) == Some(MarkedTokens(number))
  {
    hide Marked, MarkedTokens;
  }

  /** Every assumption holds of it, and all it can lex is written back as it stands. */
  lemma FamilyIsSound()
    ensures FormatsSound(Family()) && LexerSound(Family())
    ensures forall source: string :: WrittenBack(Family(), source)
  {
    hide LexMarked, ReadLiteral, MarkedTokens, Marked, Untokenize, Faithful;
    forall n: nat
      ensures Family().literal(Decimal(n)) == IntLiteral(n)
    {
      ReadsBack(n);
    }
    FloatsReadBack(0.5);
    FloatsReadBack(1.0);
    forall source: string
      ensures ReadsFaithfully(Family(), source) && WrittenBack(Family(), source)
    {
      if LexMarked(source).Some? {
        LexedIsMarked(source);
        var number := source[21..|source| - 70];
        DigitsArePlain(number);
        MarkedIsFaithful(number);
        MarkedIsWritten(number);
      }
    }
  }

  lemma DigitsArePlain(number: string)
    requires AllDigits(number)
    ensures Plain(number)
  {
    assert IsDigit(number[0]);
  }

  /** Any of its programs with a number up to 500 mutates to another of them, so lineages go
      on and on. */
  lemma FamilyMutates(n: nat, draws: nat -> nat)
    requires 1 <= n <= 500
    ensures var m := Family().Mutated(ProgramOf(Marked(Decimal(n))), draws, 0).0;
            m.Some? && exists k: nat :: k != n && m.value.program.source == Marked(Decimal(k))
  {
    hide EvolveBlock, Untokenize, ReadLiteral, Replacements, Evolver.GrowsTooLarge, Evolver.MutableTokens;
    hide Evolver.FaultOf, Evolver.ReplacementText, Plain, Marked, MarkedTokens, LexMarked, Evolver.Mutated;
    hide FormatsSound, LexerSound, WrittenBack, Family;
    var e, number := Family(), Decimal(n);
    var parent := ProgramOf(Marked(number));
    FamilyReads(n);
    MarkedHasBlock(number);
    MarkedIsMutable(e, number);
    MarkedNumberIsThird(number, MarkedTokens(number));
    var text := e.ReplacementText(MarkedNumber(number), draws(1));
    var k := ReplacedByDecimal(e, n, draws(1));
    RewordedIsWritten(number, text);
    MarkedIsSmall(k);
    MarkedHasBlock(text);
    RewordingExists(e, parent, MarkedTokens(number), (1, 3), draws, 2);
    MutantText(e, parent, MarkedTokens(number), draws, text);
  }

  /** What the family makes of the number n. */
  lemma FamilyReads(n: nat)
    requires 1 <= n <= 500
    ensures var e, number := Family(), Decimal(n);
            && Plain(number)
            && e.tokenize(Marked(number)) == Some(MarkedTokens(number))
            && e.literal(number) == IntLiteral(n) && e.largestInt == 1000
            && e.FaultOf(MarkedNumber(number)).None? && !e.GrowsTooLarge(IntLiteral(n))
            && Replacements(IntLiteral(n), e.round) != []
  {
    hide LexMarked, ReadLiteral, Marked, MarkedTokens, Replacements;
    DecimalReads(n);
    DigitsArePlain(Decimal(n));
    MarkedIsLexed(Decimal(n));
    ReadsBack(n);
  }

  lemma ReplacedByDecimal(e: Evolver, n: nat, draw: nat) returns (k: nat)
    requires 1 <= n <= 500
    requires e.literal(Decimal(n)) == IntLiteral(n) && Replacements(IntLiteral(n), e.round) != []
    ensures e.ReplacementText(MarkedNumber(Decimal(n)), draw) == Decimal(k)
    ensures k != n && k <= 1000
  {
    hide Replacements, Decimal;
    var replacements := Replacements(IntLiteral(n), e.round);
    var value := replacements[draw % |replacements|];
    assert value in replacements && value in AsReals(IntNeighbours(n));
    var j: nat :| j < 4 && value == AsReals(IntNeighbours(n))[j];
    k := IntNeighbours(n)[j];
    assert value == k as real && value.Floor == k;
  }

  lemma MarkedIsSmall(k: nat)
    requires k <= 1000
    ensures 1 <= |Marked(Decimal(k))| <= MAX_SOURCE && Plain(Decimal(k))
  {
    hide Body, Plain;
    PaddedIsFixed(k, 4);
    BodyLines();
    MarkersAreTight();
    DecimalReads(k);
    DigitsArePlain(Decimal(k));
  }

  lemma MutantText(e: Evolver, parent: CandidateProgram, tokens: seq<Token>, draws: nat -> nat, text: string)
    requires e.Mutated(parent, draws, 0).0.Some? && e.tokenize(parent.source) == Some(tokens)
    requires Chosen(e, parent, draws, 0) == 2 < |tokens|
    requires e.IsMutable(tokens[2]) && Replacements(e.literal(tokens[2].text), e.round) != []
    requires text == e.ReplacementText(tokens[2], draws(1))
    ensures Untokenize(Reworded(tokens, 2, text)) == Some(e.Mutated(parent, draws, 0).0.value.program.source)
  {
    hide EvolveBlock, Untokenize, Replacements, Evolver.GrowsTooLarge, Evolver.MutableTokens, Evolver.ReplacementText;
  }

  // ----- an integer too large

  /** 600 is in range and 1200 is not: the attempt to mutate it overflows. */
  lemma OverflowHappens()
    ensures OverflowWithinReach(MarkedEvolver("600"), MarkedProgram("600"))
    ensures CanCrash(MarkedEvolver("600"), MarkedProgram("600"))
  {
    hide ReadLiteral, EvolveBlock;
    var e, tokens := MarkedEvolver("600"), MarkedTokens("600");
    assert Decimal(6) == "6" && Decimal(60) == "60" && Decimal(600) == "600";
    ReadsBack(600);
    assert IsDigit("600"[0]);
    MarkedHasBlock("600");
    assert Doubles(e, tokens[2], (1, 3)) && !Oversized(e, tokens[2], (1, 3));
    OverflowExactlyWhen(e, MarkedProgram("600"));
  }

  // ----- a number after the end marker

  const STRAY := FormFeeds(START_MARKER, END_MARKER, "1")

  const STRAY_COMMENT := "#" + ['\U{000C}'] + ['\U{000C}']

  const STRAY_TOKENS := [
    Token(OtherToken, START_MARKER, 1, 0, 1, 20),
    Token(EndOfLine, "\n", 1, 20, 1, 21),
    Token(OtherToken, STRAY_COMMENT, 2, 0, 2, 3),
    Token(EndOfLine, "\n", 2, 3, 2, 4),
    Token(OtherToken, END_MARKER, 3, 0, 3, 18),
    Token(EndOfLine, "\n", 3, 18, 3, 19),
    Token(NumberToken, "1", 4, 0, 4, 1)]

  function BeforeStray(): string {
    "" + START_MARKER + "\n" + STRAY_COMMENT + "\n" + END_MARKER + "\n"
  }

  lemma StrayIsLaidOut()
    ensures LaidOut(STRAY_TOKENS)
  {
    MarkersAreTight();
  }

  lemma StrayIsWritten()
    ensures Untokenize(STRAY_TOKENS) == Some(STRAY)
  {
    hide Written, Untokenize, LaidOut;
    var t := STRAY_TOKENS;
    StrayIsLaidOut();
    LaidOutIsWritten(t);
    NothingWritten(t);
    WrittenStep(t, 0);
    WrittenStep(t, 1);
    WrittenStep(t, 2);
    WrittenStep(t, 3);
    WrittenStep(t, 4);
    WrittenStep(t, 5);
    WrittenStep(t, 6);
    assert t[..7] == t;
    StraySpelled("1");
  }

  lemma StrayStands()
    ensures Before(STRAY, 4, 0) == Some(BeforeStray()) && BeforeStray() + "1" == STRAY
  {
    hide Before, OneRow;
    MarkersAreTight();
    UnbrokenIsOneRow(START_MARKER);
    UnbrokenIsOneRow(END_MARKER);
    CommentIsOneRow();
    var c := END_MARKER + ['\n'] + "1";
    var b := STRAY_COMMENT + ['\n'] + c;
    RowStarts("1");
    RowBelow(END_MARKER, "1", 2, 0);
    RowBelow(STRAY_COMMENT, c, 3, 0);
    RowBelow(START_MARKER, b, 4, 0);
    StraySpelled("1");
    StrayRegrouped("1");
    StrayRegrouped("");
    assert BeforeStray() + "" == BeforeStray();
  }

  lemma StrayRegrouped(last: string)
    ensures START_MARKER + ['\n'] + (STRAY_COMMENT + ['\n'] + (END_MARKER + ['\n'] + last)) == BeforeStray() + last
  {
    var a, b := START_MARKER + ['\n'], STRAY_COMMENT + ['\n'];
    assert a + (b + (END_MARKER + ['\n'] + last)) == a + b + END_MARKER + ['\n'] + last;
  }

  lemma CommentIsOneRow()
    ensures OneRow(STRAY_COMMENT)
  {
  }

  lemma StraySpelled(last: string)
    ensures BeforeStray() + last == FormFeeds(START_MARKER, END_MARKER, last)
  {
    var tail := END_MARKER + ['\n'] + last;
    assert "" + ['\U{000C}'] + ("" + ['\n'] + tail) == ['\U{000C}'] + ['\n'] + tail;
    assert "#" + ['\U{000C}'] + (['\U{000C}'] + ['\n'] + tail) == STRAY_COMMENT + "\n" + tail;
    assert START_MARKER + ['\n'] + (STRAY_COMMENT + "\n" + tail) == BeforeStray() + last;
  }

  lemma StrayCounts()
    ensures Newlines(BeforeStray()) == 3 && BreaksIn(BeforeStray()) == 5
  {
    hide SplitLines, BreaksIn, Newlines;
    MarkersAreTight();
    var d := END_MARKER + ['\n'] + "";
    var c := "" + ['\n'] + d;
    var b := "" + ['\U{000C}'] + c;
    var a := "#" + ['\U{000C}'] + b;
    LineThenBreak(START_MARKER, '\n', a);
    LineThenBreak("#", '\U{000C}', b);
    LineThenBreak("", '\U{000C}', c);
    LineThenBreak("", '\n', d);
    LineThenBreak(END_MARKER, '\n', "");
    NoNewlines();
    StraySpelled("");
    assert BeforeStray() + "" == BeforeStray();
  }

  /** A sound evolver and a draw that change the number after the end marker. */
  lemma StrayMutates()
    ensures var e, parent := Instance(STRAY, STRAY_TOKENS), ProgramOf(STRAY);
            && FormatsSound(e) && LexerSound(e)
            && HoldsStray(e, parent)
            && exists draws: nat -> nat, at: nat :: LeavesBlock(e, parent, draws, at)
  {
    hide EvolveBlock, Untokenize, ReadLiteral, Replacements, Before, Newlines, BreaksIn, Strip, FormatsSound;
    var e, parent := Instance(STRAY, STRAY_TOKENS), ProgramOf(STRAY);
    StrayIsWritten();
    StrayStands();
    StrayCounts();
    assert IsDigit("1"[0]);
    assert Faithful(STRAY_TOKENS, STRAY);
    InstanceIsSound(STRAY, STRAY_TOKENS);
    StrayHeld(e, parent);
    hide HoldsStray, LeavesBlock;
    assert ReadsFaithfully(e, STRAY);
    LeavesBlockExactlyWhen(e, parent);
  }

  lemma StrayHeld(e: Evolver, parent: CandidateProgram)
    requires e == Instance(STRAY, STRAY_TOKENS) && parent == ProgramOf(STRAY)
    requires Before(STRAY, 4, 0) == Some(BeforeStray()) && BreaksIn(BeforeStray()) == 5
    requires Untokenize(STRAY_TOKENS) == Some(STRAY)
    ensures HoldsStray(e, parent)
  {
    hide EvolveBlock, Untokenize, ReadLiteral, Replacements, Before, BreaksIn, Strip, Evolver.MutableTokens;
    hide CanRewrite, FormFeeds, Evolver.InBlock;
    OneIsNoMarker();
    FormFeedBlock("1");
    StrayScanned(e);
    StrayRewrites1(e);
    StrayIsOnRow();
    assert Stray(e, STRAY, STRAY_TOKENS, (1, 5), 6);
  }

  lemma StrayIsOnRow()
    ensures |STRAY_TOKENS| == 7 && STRAY_TOKENS[6].startRow == 4 && STRAY_TOKENS[6].startCol == 0
  {
  }

  lemma StrayScanned(e: Evolver)
    requires e == Instance(STRAY, STRAY_TOKENS)
    ensures e.MutableTokens(STRAY_TOKENS, (1, 5)) == Success([6]) && e.InBlock(STRAY_TOKENS[6], (1, 5))
    ensures e.literal("1") == IntLiteral(1)
  {
    hide ReadLiteral, Evolver.MutableTokens;
    OneIsRead(e);
    OneMutable(e, STRAY_TOKENS, (1, 5), 6);
  }

  /** Every instance reads the number one. */
  lemma OneIsRead(e: Evolver)
    requires e.literal == ReadLiteral
    ensures e.literal("1") == IntLiteral(1)
  {
    hide ReadLiteral;
    assert Decimal(1) == "1";
    ReadsBack(1);
  }

  lemma OneIsNoMarker()
    ensures Unbroken("1") && Strip("1") != START_MARKER && Strip("1") != END_MARKER
  {
    assert IsDigit("1"[0]);
    DigitLineIsNoMarker("1");
  }

  lemma StrayRewrites1(e: Evolver)
    requires e == Instance(STRAY, STRAY_TOKENS) && e.literal("1") == IntLiteral(1)
    ensures CanRewrite(e, STRAY, STRAY_TOKENS[6])
  {
    hide ReadLiteral, Replacements, Evolver.ReplacementText;
    OneIsReplaced(e, STRAY_TOKENS[6]);
    MarkersAreTight();
    assert |STRAY| <= 100;
    assert 0 < |Replacements(IntLiteral(1), e.round)|;
  }

  /** And can replace it by another digit. */
  lemma OneIsReplaced(e: Evolver, token: Token)
    requires e.largestInt == 1000 && token.text == "1" && e.literal("1") == IntLiteral(1)
    ensures !e.GrowsTooLarge(IntLiteral(1)) && Replacements(IntLiteral(1), e.round) != []
    ensures |e.ReplacementText(token, 0)| == 1
  {
    hide Replacements;
    var r := Replacements(IntLiteral(1), e.round);
    assert r[0] in AsReals(IntNeighbours(1));
    assert r[0] == 0.0 || r[0] == 2.0;
  }

  // ----- a mutant that differs from its parent elsewhere

  const TABBED := "-\t1"

  const TABBED_FRONT := [
    Token(OtherToken, START_MARKER, 1, 0, 1, 20),
    Token(EndOfLine, "\n", 1, 20, 1, 21),
    Token(OtherToken, "-", 2, 0, 2, 1),
    Token(NumberToken, "1", 2, 2, 2, 3),
    Token(EndOfLine, "\n", 2, 3, 2, 4),
    Token(OtherToken, END_MARKER, 3, 0, 3, 18),
    Token(EndOfLine, "\n", 3, 18, 3, 19)]

  function TabbedTokens(): seq<Token> {
    TABBED_FRONT + BodyTokens(4)
  }

  lemma TabbedNumberIsFourth(tokens: seq<Token>)
    requires tokens == TabbedTokens()
    ensures |tokens| == 26 && tokens[3] == Token(NumberToken, "1", 2, 2, 2, 3)
    ensures forall i :: 0 <= i < |tokens| && i != 3 ==> !tokens[i].kind.NumberToken?
  {
    BodyHasNoNumber(4);
    assert forall i :: 0 <= i < |tokens| ==> tokens[i] == if i < 7 then TABBED_FRONT[i] else BodyTokens(4)[i - 7];
  }

  lemma TabbedIsLaidOut()
    ensures LaidOut(TABBED_FRONT) && EndBefore(TABBED_FRONT, 7) == (4, 0)
  {
    MarkersAreTight();
  }

  lemma TabbedFrontWritten()
    ensures Written(TABBED_FRONT) == START_MARKER + "\n" + "- 1" + "\n" + END_MARKER + "\n"
  {
    hide Written;
    var t := TABBED_FRONT;
    NothingWritten(t);
    WrittenStep(t, 0);
    WrittenStep(t, 1);
    WrittenStep(t, 2);
    WrittenStep(t, 3);
    WrittenStep(t, 4);
    WrittenStep(t, 5);
    WrittenStep(t, 6);
    assert t[..7] == t;
    assert "" + START_MARKER == START_MARKER;
    assert START_MARKER + "\n" + "-" + " " + "1" == START_MARKER + "\n" + "- 1";
  }

  lemma TabbedIsWritten()
    ensures Untokenize(TabbedTokens()) == Some(Marked("- 1"))
  {
    hide Written, Untokenize, LaidOut, EndBefore, BodyTokens, Body;
    TabbedIsLaidOut();
    TabbedFrontWritten();
    BodyWritten(TABBED_FRONT, 4);
    MarkedSpelled("- 1");
  }

  lemma TabbedIsFaithful()
    ensures Faithful(TabbedTokens(), Marked(TABBED))
  {
    hide Before, OneRow, TabbedTokens, Body;
    MarkersAreTight();
    UnbrokenIsOneRow(START_MARKER);
    TabbedRow();
    TabbedNumberIsFourth(TabbedTokens());
    var last := END_MARKER + ['\n'] + Body();
    var rest := TABBED + ['\n'] + last;
    assert "-\t" + ("1" + ['\n'] + last) == rest;
    AlongRow("-\t", "1" + ['\n'] + last);
    RowBelow(START_MARKER, rest, 2, 2);
    assert START_MARKER + ['\n'] + "-\t" + "1" + (['\n'] + last) == Marked(TABBED);
    assert IsDigit("1"[0]);
  }

  lemma TabbedRow()
    ensures OneRow("-\t") && |"-\t"| == 2
  {
  }

  lemma SecondLine(line: string, k: nat)
    requires k < |line|
    ensures |Marked(line)| == 91 + |line| && Marked(line)[21 + k] == line[k]
  {
    hide Body;
    BodyLines();
    MarkersAreTight();
  }

  lemma TabbedHolds()
    ensures HoldsOneNumber(Marked(TABBED), TabbedTokens(), Marked("- 1"), (1, 3), 3)
  {
    hide EvolveBlock, Untokenize, ReadLiteral, Replacements, Evolver.MutableTokens, Marked, Faithful;
    hide Evolver.GrowsTooLarge, Evolver.ReplacementText;
    var e := Instance(Marked(TABBED), TabbedTokens());
    TabbedIsWritten();
    TabbedIsFaithful();
    assert IsDigit(TABBED[2]);
    MarkedHasBlock(TABBED);
    SecondLine("- 1", 0);
    OneIsRead(e);
    TabbedNumberIsFourth(TabbedTokens());
    OneIsReplaced(e, TabbedTokens()[3]);
    OneMutable(e, TabbedTokens(), (1, 3), 3);
  }

  /** A minus sign and a number with a tab between them, mutated: the tab has become a space,
      so no single number tells parent and mutant apart, but the block is where it was. */
  lemma TabMutates(at: nat)
    ensures var e, parent := Instance(Marked(TABBED), TabbedTokens()), ProgramOf(Marked(TABBED));
            var m := e.Mutated(parent, e.stream(0), at).0;
            && FormatsSound(e) && LexerSound(e) && BlockStays(e, parent.source)
            && m.Some?
            && EvolveBlock(m.value.program.source) == EvolveBlock(parent.source)
            && forall pre: string, post: string ::
                 !OneSpanApart(parent.source, m.value.program.source, pre, m.value.before, m.value.after, post)
  {
    hide EvolveBlock, Untokenize, Marked, Evolver.Mutated, Faithful, OneSpanApart, Plain, BlockSurvives, HoldsOneNumber;
    hide ReadLiteral, Replacements, Evolver.ReplacementText, FormatsSound, Evolver.Crashes;
    var source := Marked(TABBED);
    var e, parent := Instance(source, TabbedTokens()), ProgramOf(source);
    TabbedHolds();
    TabbedIsFaithful();
    InstanceIsSound(source, TabbedTokens());
    assert ReadsFaithfully(e, source);
    TabbedIsWritten();
    TabbedPlain();
    MarkedHasBlock(TABBED);
    MarkedHasBlock("- 1");
    TabbedNumberIsFourth(TabbedTokens());
    OneIsRead(e);
    OneIsReplaced(e, TabbedTokens()[3]);
    var pre, post := OneNumberMutates(source, TabbedTokens(), Marked("- 1"), (1, 3), 3, at);
    MutationKeepsBlock(e, parent, e.stream(0), at);
    NotThatNumber(e, parent, at, pre, post);
  }

  lemma TabbedPlain()
    ensures Plain(TABBED) && Plain("- 1")
  {
    assert IsDigit(TABBED[2]) && IsDigit("- 1"[2]);
  }

  lemma NotThatNumber(e: Evolver, parent: CandidateProgram, at: nat, pre: string, post: string)
    requires parent.source == Marked(TABBED) && e.Mutated(parent, e.stream(0), at).0.Some?
    requires var m := e.Mutated(parent, e.stream(0), at).0.value;
             && m.before == "1" && |m.after| == 1
             && OneSpanApart(Marked("- 1"), m.program.source, pre, m.before, m.after, post)
    ensures var m := e.Mutated(parent, e.stream(0), at).0.value;
            forall left: string, right: string ::
              !OneSpanApart(parent.source, m.program.source, left, m.before, m.after, right)
  {
    hide Evolver.Mutated, Marked, Plain;
    var m := e.Mutated(parent, e.stream(0), at).0.value;
    SecondLine(TABBED, 1);
    SecondLine("- 1", 1);
    forall left: string, right: string
      ensures !OneSpanApart(parent.source, m.program.source, left, m.before, m.after, right)
    {
      if OneSpanApart(parent.source, m.program.source, left, m.before, m.after, right) {
        SpanAt(left, m.before, m.after, right, 22);
        SpanAt(pre, m.before, m.after, post, 22);
        assert false;
      }
    }
  }

  lemma SpanAt(pre: string, was: string, span: string, post: string, k: nat)
    requires |was| == |span| == 1 && k < |pre + was + post|
    ensures |pre + span + post| == |pre + was + post|
    ensures (pre + was + post)[k] == was[0] || (pre + was + post)[k] == (pre + span + post)[k]
  {
  }

  // ----- a mutant that loses its block

  function AfterOpening(): string {
    "" + ['\n'] + ("1" + ['\n'] + (END_MARKER + ['\n'] + Body()))
  }

  function Lost(): string {
    "pass" + ['\U{000C}'] + (START_MARKER + ['\n'] + AfterOpening())
  }

  function LostWritten(): string {
    "pass " + START_MARKER + ['\n'] + AfterOpening()
  }

  const LOST_FRONT := [
    Token(OtherToken, "pass", 1, 0, 1, 4),
    Token(OtherToken, START_MARKER, 1, 5, 1, 25),
    Token(EndOfLine, "\n", 1, 25, 1, 26),
    Token(EndOfLine, "\n", 2, 0, 2, 1),
    Token(NumberToken, "1", 3, 0, 3, 1),
    Token(EndOfLine, "\n", 3, 1, 3, 2),
    Token(OtherToken, END_MARKER, 4, 0, 4, 18),
    Token(EndOfLine, "\n", 4, 18, 4, 19)]

  function LostTokens(): seq<Token> {
    LOST_FRONT + BodyTokens(5)
  }

  lemma LostNumberIsFifth(tokens: seq<Token>)
    requires tokens == LostTokens()
    ensures |tokens| == 27 && tokens[4] == Token(NumberToken, "1", 3, 0, 3, 1)
    ensures forall i :: 0 <= i < |tokens| && i != 4 ==> !tokens[i].kind.NumberToken?
  {
    BodyHasNoNumber(5);
    assert forall i :: 0 <= i < |tokens| ==> tokens[i] == if i < 8 then LOST_FRONT[i] else BodyTokens(5)[i - 8];
  }

  lemma LostIsLaidOut()
    ensures LaidOut(LOST_FRONT) && EndBefore(LOST_FRONT, 8) == (5, 0)
  {
    MarkersAreTight();
  }

  lemma LostFrontWritten()
    ensures Written(LOST_FRONT) == "pass " + START_MARKER + "\n" + "\n" + "1" + "\n" + END_MARKER + "\n"
  {
    hide Written;
    var t := LOST_FRONT;
    NothingWritten(t);
    WrittenStep(t, 0);
    WrittenStep(t, 1);
    WrittenStep(t, 2);
    WrittenStep(t, 3);
    WrittenStep(t, 4);
    WrittenStep(t, 5);
    WrittenStep(t, 6);
    WrittenStep(t, 7);
    assert t[..8] == t;
    assert "" + "pass" + " " == "pass ";
  }

  lemma LostIsWritten()
    ensures Untokenize(LostTokens()) == Some(LostWritten())
  {
    hide Written, Untokenize, LaidOut, EndBefore, BodyTokens, Body;
    LostIsLaidOut();
    LostFrontWritten();
    BodyWritten(LOST_FRONT, 5);
    LostSpelled();
  }

  lemma LostSpelled()
    ensures "pass " + START_MARKER + "\n" + "\n" + "1" + "\n" + END_MARKER + "\n" + Body() == LostWritten()
  {
    hide Body;
    var first := "pass " + START_MARKER;
    assert "" + ['\n'] + ("1" + ['\n'] + (END_MARKER + ['\n'] + Body()))
      == "\n" + "1" + "\n" + END_MARKER + "\n" + Body();
    assert first + "\n" + ("\n" + "1" + "\n" + END_MARKER + "\n" + Body())
      == first + "\n" + "\n" + "1" + "\n" + END_MARKER + "\n" + Body();
  }

  lemma LostIsFaithful()
    ensures Faithful(LostTokens(), Lost())
  {
    hide Before, OneRow, LostTokens, Body;
    MarkersAreTight();
    LostNumberIsFifth(LostTokens());
    var first := "pass" + ['\U{000C}'] + START_MARKER;
    LostRow();
    EmptyRow();
    var c := "1" + ['\n'] + (END_MARKER + ['\n'] + Body());
    var b := "" + ['\n'] + c;
    RowStarts(c);
    RowBelow("", c, 2, 0);
    RowBelow(first, b, 3, 0);
    assert first + ['\n'] + b == Lost();
    assert "" + ['\n'] + "" == ['\n'];
    assert first + ['\n'] + ['\n'] + "1" + (['\n'] + (END_MARKER + ['\n'] + Body())) == Lost();
    assert IsDigit("1"[0]);
  }

  lemma LostRow()
    ensures OneRow("pass" + ['\U{000C}'] + START_MARKER)
  {
    MarkersAreTight();
    UnbrokenIsOneRow(START_MARKER);
  }

  lemma EmptyRow()
    ensures OneRow("")
  {
  }

  /** The lines after the opening one, in the source and as written. */
  lemma LostTail()
    ensures SplitLines(AfterOpening()) == ["", "1", END_MARKER, CLASS_LINE, METHOD_LINE]
  {
    hide SplitLines, BreaksIn, Newlines, Body;
    MarkersAreTight();
    OneIsNoMarker();
    BodyLines();
    var rest := END_MARKER + ['\n'] + Body();
    LineThenBreak("", '\n', "1" + ['\n'] + rest);
    LineThenBreak("1", '\n', rest);
    LineThenBreak(END_MARKER, '\n', Body());
  }

  lemma LostLines()
    ensures SplitLines(Lost()) == ["pass", START_MARKER, "", "1", END_MARKER, CLASS_LINE, METHOD_LINE]
  {
    hide SplitLines, BreaksIn, Newlines, AfterOpening;
    MarkersAreTight();
    LostTail();
    LineThenBreak("pass", '\U{000C}', START_MARKER + ['\n'] + AfterOpening());
    LineThenBreak(START_MARKER, '\n', AfterOpening());
  }

  predicate NoMarker(line: string) {
    Strip(line) != START_MARKER && Strip(line) != END_MARKER
  }

  lemma SecondAndFifth(source: string, a: string, b: string, c: string, d: string, f: string)
    requires SplitLines(source) == [a, START_MARKER, b, c, END_MARKER, d, f]
    requires NoMarker(a) && NoMarker(b) && NoMarker(c) && NoMarker(d) && NoMarker(f)
    ensures EvolveBlock(source) == Some((2, 5))
  {
    hide SplitLines, Strip, MarkerLines;
    MarkersAreTight();
    MarkerOnce(SplitLines(source), 1, START_MARKER);
    MarkerOnce(SplitLines(source), 4, END_MARKER);
  }

  lemma LostHasBlock()
    ensures EvolveBlock(Lost()) == Some((2, 5))
  {
    hide SplitLines, Strip, Lost, EvolveBlock;
    OneIsNoMarker();
    BodyLinesAreNoMarkers();
    LostLines();
    StripTight("pass");
    StripEmpty();
    SecondAndFifth(Lost(), "pass", "", "1", CLASS_LINE, METHOD_LINE);
  }

  lemma LostIsSmall()
    ensures |LostWritten()| <= 200 && 1 <= |Lost()| <= 200
  {
    hide Body;
    BodyLines();
    MarkersAreTight();
  }

  lemma WrittenLines()
    ensures SplitLines(LostWritten()) == ["pass " + START_MARKER, "", "1", END_MARKER, CLASS_LINE, METHOD_LINE]
  {
    hide SplitLines, BreaksIn, Newlines, AfterOpening;
    MarkersAreTight();
    LostTail();
    assert Unbroken("pass " + START_MARKER);
    LineThenBreak("pass " + START_MARKER, '\n', AfterOpening());
  }

  lemma WrittenHasNoBlock()
    ensures EvolveBlock(LostWritten()) == None
  {
    hide SplitLines, Strip, MarkerLines, LostWritten;
    MarkersAreTight();
    OneIsNoMarker();
    BodyLinesAreNoMarkers();
    WrittenLines();
    StripTight("pass " + START_MARKER);
    StripEmpty();
    MarkerNever(SplitLines(LostWritten()), START_MARKER);
  }

  lemma LostHolds()
    ensures HoldsOneNumber(Lost(), LostTokens(), LostWritten(), (2, 5), 4)
  {
    hide EvolveBlock, Untokenize, ReadLiteral, Replacements, Evolver.MutableTokens, Faithful;
    hide Evolver.GrowsTooLarge, Evolver.ReplacementText;
    var e := Instance(Lost(), LostTokens());
    LostIsWritten();
    LostIsFaithful();
    LostHasBlock();
    LostIsSmall();
    LostNumberIsFifth(LostTokens());
    OneIsRead(e);
    OneIsReplaced(e, LostTokens()[4]);
    OneMutable(e, LostTokens(), (2, 5), 4);
  }

  /** A form feed before a comment breaks the line for splitlines, which finds a start marker
      there; written back as a space it does not, and the mutant has no block at all. */
  lemma LostBlockMutates(at: nat)
    ensures var e, parent := Instance(Lost(), LostTokens()), ProgramOf(Lost());
            var m := e.Mutated(parent, e.stream(0), at).0;
            && FormatsSound(e) && LexerSound(e) && !BlockSurvives(e, Lost())
            && EvolveBlock(Lost()).Some?
            && m.Some? && EvolveBlock(m.value.program.source).None?
            && m.value.row == 3 && m.value.before == "1" && |m.value.after| == 1
            && m.value.program.sha256 == Digest('1')
            && !e.Crashes(parent, e.stream(0), at)
  {
    hide EvolveBlock, Untokenize, Evolver.Mutated, Faithful, OneSpanApart, Plain, HoldsOneNumber, Evolver.Crashes;
    hide ReadLiteral, Replacements, Evolver.ReplacementText, FormatsSound;
    var e, parent := Instance(Lost(), LostTokens()), ProgramOf(Lost());
    LostHolds();
    LostIsFaithful();
    InstanceIsSound(Lost(), LostTokens());
    assert ReadsFaithfully(e, Lost());
    LostIsWritten();
    LostHasBlock();
    WrittenHasNoBlock();
    LostNumberIsFifth(LostTokens());
    OneIsRead(e);
    OneIsReplaced(e, LostTokens()[4]);
    var pre, post := OneNumberMutates(Lost(), LostTokens(), LostWritten(), (2, 5), 4, at);
    MutationKeepsBlock(e, parent, e.stream(0), at);
  }
}
