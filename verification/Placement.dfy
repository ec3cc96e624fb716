/** untokenize puts every token where the lexer recorded it: rows, columns, continuations and
    indents included. */
module Placement {
  import opened Wrappers
  import opened LocalEvolver

  type Position = (nat, nat)

  /** Row and column after some text, a newline starting the next row. */
  function Advance(from: Position, text: string): Position {
    if text == "" then from
    else
      var p, c := Advance(from, text[..|text| - 1]), text[|text| - 1];
      if c == '\n' then (p.0 + 1, 0) else (p.0, p.1 + 1)
  }

  predicate OnOneRow(text: string) {
    forall i :: 0 <= i < |text| ==> text[i] != '\n'
  }

  predicate Layout(token: Token) {
    token.kind.Indent? || token.kind.Dedent?
  }

  /** The token's recorded end is where its text leads from its recorded start; a line token
      leads to the next row; an indent is part of one row. */
  predicate Measured(token: Token) {
    match token.kind
    case EndOfFile => true
    case Indent => OnOneRow(token.text) && token.text != ""
    case Dedent => true
    case EndOfLine => Advance((token.startRow, token.startCol), token.text) == (token.endRow + 1, 0)
    case _ => Advance((token.startRow, token.startCol), token.text) == (token.endRow, token.endCol)
  }

  /** Indents and dedents come between lines; a dedent stays on its row and, back at the
      margin, in its first column; the first token after them is inside the indent in force. */
  predicate Between(tokens: seq<Token>, i: nat)
    requires i < |tokens|
  {
    var token, cursor := tokens[i], CursorAfter(tokens[..i]);
    && (Layout(token) ==> 0 < i && (tokens[i - 1].kind.EndOfLine? || Layout(tokens[i - 1])))
    && (token.kind.Dedent? ==>
          token.endRow == cursor.row && (|cursor.indents| <= 1 ==> token.endCol == 0))
    && (IsWritten(token) && 0 < i && Layout(tokens[i - 1]) && cursor.indents != [] ==> Indented(cursor, token))
  }

  /** The end of the file comes last, and all tokens are recorded so. */
  predicate WellRecorded(tokens: seq<Token>) {
    && (forall i :: 0 <= i < |tokens| ==> Measured(tokens[i]) && Between(tokens, i))
    && (forall i :: 0 <= i < |tokens| && tokens[i].kind.EndOfFile? ==> i == |tokens| - 1)
  }

  predicate Unended(tokens: seq<Token>) {
    forall i :: 0 <= i < |tokens| ==> !tokens[i].kind.EndOfFile?
  }

  lemma {:induction false} AdvanceJoins(from: Position, a: string, b: string)
    ensures Advance(from, a + b) == Advance(Advance(from, a), b)
  {
    if b == "" {
      assert a + b == a;
    } else {
      var n := |b| - 1;
      assert (a + b)[..|a| + n] == a + b[..n];
      AdvanceJoins(from, a, b[..n]);
    }
  }

  lemma {:induction false} AdvanceOnRow(from: Position, text: string)
    requires OnOneRow(text)
    ensures Advance(from, text) == (from.0, from.1 + |text|)
  {
    if text != "" {
      AdvanceOnRow(from, text[..|text| - 1]);
    }
  }

  lemma {:induction false} AdvanceSpaces(from: Position, n: nat)
    ensures Advance(from, Repeat(" ", n)) == (from.0, from.1 + n)
  {
    if 0 < n {
      AdvanceSpaces(from, n - 1);
      AdvanceJoins(from, Repeat(" ", n - 1), " ");
      AdvanceOnRow(Advance(from, Repeat(" ", n - 1)), " ");
    }
  }

  lemma {:induction false} AdvanceContinuations(from: Position, n: nat)
    ensures Advance(from, Repeat("\\\n", n)) == if n == 0 then from else (from.0 + n, 0)
  {
    if 0 < n {
      AdvanceContinuations(from, n - 1);
      AdvanceJoins(from, Repeat("\\\n", n - 1), "\\\n");
      OneContinuation(Advance(from, Repeat("\\\n", n - 1)));
    }
  }

  lemma OneContinuation(from: Position)
    ensures Advance(from, "\\\n") == (from.0 + 1, 0)
  {
    assert "\\\n" == "\\" + ['\n'];
    AdvanceJoins(from, "\\", ['\n']);
    AdvanceOnRow(from, "\\");
    assert ['\n'][..0] == "";
  }

  lemma GapLeads(from: Position, row: nat, col: nat)
    requires Gap(from, row, col).Some?
    ensures Advance(from, Gap(from, row, col).value) == (row, col)
  {
    hide Advance, Repeat;
    var lines := Repeat("\\\n", row - from.0);
    var base := if from.0 < row then 0 else from.1;
    AdvanceContinuations(from, row - from.0);
    AdvanceJoins(from, lines, Repeat(" ", col - base));
    AdvanceSpaces(Advance(from, lines), col - base);
  }

  /** Where the text stands against the cursor: together, but in the first column when a line
      has just been opened by an indent or dedent. */
  predicate Stands(tokens: seq<Token>, at: Position) {
    var cursor := CursorAfter(tokens);
    var justOpened := tokens != [] && Layout(tokens[|tokens| - 1]);
    && at.0 == cursor.row
    && (if justOpened then at.1 == 0 && cursor.lineStart else at.1 == cursor.col)
    && (cursor.lineStart && cursor.indents != [] ==> at.1 == 0)
    && (justOpened && cursor.indents == [] ==> cursor.col == 0)
    && (tokens != [] && tokens[|tokens| - 1].kind.EndOfLine? ==> cursor.lineStart && at.1 == 0)
    && (forall k :: 0 <= k < |cursor.indents| ==> OnOneRow(cursor.indents[k]))
  }

  lemma LeadLeads(tokens: seq<Token>, at: Position, token: Token)
    requires Stands(tokens, at) && IsWritten(token) && Lead(CursorAfter(tokens), token).Some?
    requires tokens != [] && Layout(tokens[|tokens| - 1]) && CursorAfter(tokens).indents != [] ==>
               Indented(CursorAfter(tokens), token)
    ensures Advance(at, Lead(CursorAfter(tokens), token).value) == (token.startRow, token.startCol)
  {
    hide CursorAfter, Advance, Gap;
    var cursor := CursorAfter(tokens);
    if Indented(cursor, token) {
      var indent := cursor.indents[|cursor.indents| - 1];
      AdvanceOnRow(at, indent);
      GapLeads((cursor.row, |indent|), token.startRow, token.startCol);
      AdvanceJoins(at, indent, Gap((cursor.row, |indent|), token.startRow, token.startCol).value);
    } else {
      GapLeads((cursor.row, cursor.col), token.startRow, token.startCol);
    }
  }

  lemma StandsAfterWritten(tokens: seq<Token>, at: Position, token: Token)
    requires Stands(tokens, at) && IsWritten(token) && Measured(token)
    ensures Stands(tokens + [token], Advance((token.startRow, token.startCol), token.text))
  {
    hide Advance;
    assert (tokens + [token])[..|tokens|] == tokens;
  }

  lemma StandsAfterLayout(tokens: seq<Token>, at: Position, token: Token)
    requires Stands(tokens, at) && Layout(token) && Measured(token) && Between(tokens + [token], |tokens|)
    ensures Stands(tokens + [token], at)
  {
    hide Advance;
    assert (tokens + [token])[..|tokens|] == tokens;
  }

  lemma {:induction false} TextStands(tokens: seq<Token>)
    requires WellRecorded(tokens) && Unended(tokens) && Untokenize(tokens).Some?
    ensures Stands(tokens, Advance((1, 0), Untokenize(tokens).value))
  {
    hide Advance, Lead, Measured, Between;
    if tokens == [] {
      NothingAdvances();
    } else {
      var n := |tokens| - 1;
      var before, token := tokens[..n], tokens[n];
      RecordedPrefix(tokens, n);
      TextStands(before);
      assert tokens == before + [token];
      var at := Advance((1, 0), Untokenize(before).value);
      if IsWritten(token) {
        BetweenLayouts(tokens, n);
        LeadLeads(before, at, token);
        var text, lead := Untokenize(before).value, Lead(CursorAfter(before), token).value;
        AdvanceJoins((1, 0), text, lead);
        AdvanceJoins((1, 0), text + lead, token.text);
        StandsAfterWritten(before, at, token);
      } else {
        StandsAfterLayout(before, at, token);
      }
    }
  }

  lemma NothingAdvances()
    ensures Advance((1, 0), "") == (1, 0)
  {
  }

  lemma RecordedPrefix(tokens: seq<Token>, n: nat)
    requires WellRecorded(tokens) && n <= |tokens|
    ensures WellRecorded(tokens[..n])
  {
    forall i | 0 <= i < n
      ensures Measured(tokens[..n][i]) && Between(tokens[..n], i)
    {
      assert tokens[..n][..i] == tokens[..i];
      assert Between(tokens, i);
    }
  }

  lemma BetweenLayouts(tokens: seq<Token>, n: nat)
    requires WellRecorded(tokens) && n < |tokens| && IsWritten(tokens[n])
    ensures n != 0 && Layout(tokens[n - 1]) && CursorAfter(tokens[..n]).indents != [] ==>
              Indented(CursorAfter(tokens[..n]), tokens[n])
  {
    assert Between(tokens, n);
  }

  /** Every token that is written starts, in the written text, at its recorded position. */
  lemma TokensArePlaced(tokens: seq<Token>, i: nat)
    requires WellRecorded(tokens) && i < |tokens| && IsWritten(tokens[i])
    requires TextBefore(tokens, i).Some?
    ensures Advance((1, 0), TextBefore(tokens, i).value) == (tokens[i].startRow, tokens[i].startCol)
  {
    hide Advance, Untokenize, Lead, CursorAfter, Stands;
    RecordedPrefix(tokens, i);
    TextStands(tokens[..i]);
    BetweenLayouts(tokens, i);
    var at := Advance((1, 0), Untokenize(tokens[..i]).value);
    assert i != 0 ==> tokens[..i][i - 1] == tokens[i - 1];
    LeadLeads(tokens[..i], at, tokens[i]);
    AdvanceJoins((1, 0), Untokenize(tokens[..i]).value, Lead(CursorAfter(tokens[..i]), tokens[i]).value);
  }

  // ----- a line starts with the indent of its own block

  function Opened(token: Token): int {
    match token.kind case Indent => 1 case Dedent => -1 case _ => 0
  }

  /** Blocks opened less blocks closed. */
  function Depth(tokens: seq<Token>): int {
    if tokens == [] then 0 else Depth(tokens[..|tokens| - 1]) + Opened(tokens[|tokens| - 1])
  }

  /** No block is closed that was not opened among these tokens. */
  predicate Nested(tokens: seq<Token>) {
    forall k :: 0 <= k <= |tokens| ==> 0 <= Depth(tokens[..k])
  }

  lemma OneMoreToken(cursor: Cursor, token: Token, around: seq<string>)
    requires around <= cursor.indents && |around| <= |cursor.indents| + Opened(token)
    ensures around <= Moved(cursor, token).indents
    ensures |Moved(cursor, token).indents| == |cursor.indents| + Opened(token)
  {
  }

  /** Nested blocks leave the indents around them as they were. */
  lemma {:induction false} NestedKeepsIndents(before: seq<Token>, inner: seq<Token>)
    requires Nested(inner)
    ensures var around, now := CursorAfter(before).indents, CursorAfter(before + inner).indents;
            around <= now && |now| == |around| + Depth(inner)
  {
    if inner == [] {
      assert before + inner == before;
    } else {
      var n := |inner| - 1;
      assert inner[..n + 1] == inner;
      assert forall k :: 0 <= k <= n ==> inner[..n][..k] == inner[..k];
      NestedKeepsIndents(before, inner[..n]);
      assert (before + inner)[..|before| + n] == before + inner[..n];
      assert 0 <= Depth(inner[..n + 1]);
      hide Moved, Opened;
      OneMoreToken(CursorAfter(before + inner[..n]), inner[n], CursorAfter(before).indents);
    }
  }

  /** A line of a block is written with that block's indent in front, whatever nested blocks
      have been opened and closed since. */
  lemma BlockIndentInForce(before: seq<Token>, indent: Token, inner: seq<Token>, token: Token)
    requires indent.kind.Indent? && Nested(inner) && Depth(inner) == 0
    requires var cursor := CursorAfter(before + [indent] + inner);
             Indented(cursor, token) && Lead(cursor, token).Some?
    ensures indent.text <= Lead(CursorAfter(before + [indent] + inner), token).value
  {
    assert (before + [indent])[..|before|] == before;
    NestedKeepsIndents(before + [indent], inner);
  }

  // ----- an indented line recorded so

  const COLON := Token(OtherToken, ":", 1, 0, 1, 1)
  const FIRST_END := Token(EndOfLine, "\n", 1, 1, 1, 2)
  const MARGIN := Token(Indent, " ", 2, 0, 2, 1)
  const ONE := Token(NumberToken, "1", 2, 3, 2, 4)
  const SECOND_END := Token(EndOfLine, "\n", 2, 4, 2, 5)
  const BACK := Token(Dedent, "", 3, 0, 3, 0)
  const LAST := Token(EndOfFile, "", 3, 0, 3, 0)

  function IndentedLine(): seq<Token> {
    [COLON, FIRST_END, MARGIN, ONE, SECOND_END, BACK, LAST]
  }

  lemma Advances(from: Position, c: char)
    ensures Advance(from, [c]) == if c == '\n' then (from.0 + 1, 0) else (from.0, from.1 + 1)
  {
    assert [c][..0] == "";
  }

  /** Where the cursor is and what has been written. */
  predicate Reached(tokens: seq<Token>, cursor: Cursor, text: string) {
    CursorAfter(tokens) == cursor && Untokenize(tokens) == Some(text)
  }

  /** The next token, written after the lead given. */
  lemma Step(before: seq<Token>, token: Token, cursor: Cursor, text: string, lead: string, next: string)
    requires Reached(before, cursor, text)
    requires IsWritten(token) ==> Lead(cursor, token) == Some(lead)
    requires next == if IsWritten(token) then text + lead + token.text else text
    ensures Reached(before + [token], Moved(cursor, token), next)
  {
    assert (before + [token])[..|before|] == before;
  }

  lemma NoLead(cursor: Cursor, token: Token)
    requires !Indented(cursor, token) && (token.startRow, token.startCol) == (cursor.row, cursor.col)
    ensures Lead(cursor, token) == Some("")
  {
    assert Repeat("\\\n", 0) + Repeat(" ", 0) == "";
  }

  lemma Twice(s: string)
    ensures Repeat(s, 2) == s + s
  {
    assert Repeat(s, 1) == "" + s == s;
  }

  lemma LeadOfOne()
    ensures Lead(Cursor(2, 0, [" "], true), ONE) == Some("   ")
  {
    Twice(" ");
    hide Repeat;
    NothingRepeated("\\\n");
    assert Repeat("\\\n", 0) + Repeat(" ", 2) == Repeat(" ", 2);
    assert " " + Repeat(" ", 2) == "   ";
  }

  lemma NothingRepeated(s: string)
    ensures Repeat(s, 0) == ""
  {
  }

  lemma FirstLine()
    ensures Reached([], Cursor(1, 0, [], false), "")
    ensures Reached([COLON], Cursor(1, 1, [], false), ":")
    ensures Reached([COLON, FIRST_END], Cursor(2, 0, [], true), ":\n")
  {
    assert Reached([], Cursor(1, 0, [], false), "");
    hide Reached, Lead;
    NoLead(Cursor(1, 0, [], false), COLON);
    NoLead(Cursor(1, 1, [], false), FIRST_END);
    Step([], COLON, Cursor(1, 0, [], false), "", "", ":");
    assert [] + [COLON] == [COLON];
    Step([COLON], FIRST_END, Cursor(1, 1, [], false), ":", "", ":\n");
    assert [COLON] + [FIRST_END] == [COLON, FIRST_END];
  }

  lemma SecondLine()
    ensures Reached([COLON, FIRST_END, MARGIN], Cursor(2, 0, [" "], true), ":\n")
    ensures Reached([COLON, FIRST_END, MARGIN, ONE], Cursor(2, 4, [" "], false), ":\n   1")
    ensures Reached([COLON, FIRST_END, MARGIN, ONE, SECOND_END], Cursor(3, 0, [" "], true), ":\n   1\n")
  {
    hide Reached, Lead;
    FirstLine();
    Step([COLON, FIRST_END], MARGIN, Cursor(2, 0, [], true), ":\n", "", ":\n");
    assert [COLON, FIRST_END] + [MARGIN] == [COLON, FIRST_END, MARGIN];
    LeadOfOne();
    Step([COLON, FIRST_END, MARGIN], ONE, Cursor(2, 0, [" "], true), ":\n", "   ", ":\n   1");
    assert [COLON, FIRST_END, MARGIN] + [ONE] == [COLON, FIRST_END, MARGIN, ONE];
    NoLead(Cursor(2, 4, [" "], false), SECOND_END);
    Step([COLON, FIRST_END, MARGIN, ONE], SECOND_END, Cursor(2, 4, [" "], false), ":\n   1", "", ":\n   1\n");
    assert [COLON, FIRST_END, MARGIN, ONE] + [SECOND_END] == [COLON, FIRST_END, MARGIN, ONE, SECOND_END];
  }

  lemma LinesEnd()
    ensures Reached([COLON, FIRST_END, MARGIN, ONE, SECOND_END, BACK], Cursor(3, 0, [], true), ":\n   1\n")
    ensures Reached(IndentedLine(), Cursor(3, 0, [], true), ":\n   1\n")
  {
    hide Reached, Lead;
    SecondLine();
    var t := [COLON, FIRST_END, MARGIN, ONE, SECOND_END];
    Step(t, BACK, Cursor(3, 0, [" "], true), ":\n   1\n", "", ":\n   1\n");
    assert t + [BACK] == [COLON, FIRST_END, MARGIN, ONE, SECOND_END, BACK];
    Step(t + [BACK], LAST, Cursor(3, 0, [], true), ":\n   1\n", "", ":\n   1\n");
    assert t + [BACK] + [LAST] == IndentedLine();
  }

  lemma CursorsOfIndentedLine()
    ensures var t := IndentedLine();
            && CursorAfter(t[..0]) == Cursor(1, 0, [], false) && CursorAfter(t[..1]) == Cursor(1, 1, [], false)
            && CursorAfter(t[..2]) == Cursor(2, 0, [], true) && CursorAfter(t[..3]) == Cursor(2, 0, [" "], true)
            && CursorAfter(t[..4]) == Cursor(2, 4, [" "], false) && CursorAfter(t[..5]) == Cursor(3, 0, [" "], true)
            && CursorAfter(t[..6]) == Cursor(3, 0, [], true)
  {
    hide CursorAfter, Untokenize;
    FirstLine();
    SecondLine();
    LinesEnd();
    var t := IndentedLine();
    assert t[..0] == [] && t[..1] == [COLON] && t[..2] == [COLON, FIRST_END] && t[..3] == [COLON, FIRST_END, MARGIN];
    assert t[..4] == [COLON, FIRST_END, MARGIN, ONE] && t[..5] == [COLON, FIRST_END, MARGIN, ONE, SECOND_END];
    assert t[..6] == [COLON, FIRST_END, MARGIN, ONE, SECOND_END, BACK];
  }

  /** The lines ":" and "   1", the second with an indent of one space, are recorded so, and
      written back as they are. */
  lemma IndentedLineIsRecorded()
    ensures WellRecorded(IndentedLine()) && Untokenize(IndentedLine()) == Some(":\n   1\n")
  {
    hide Advance, CursorAfter, Untokenize;
    CursorsOfIndentedLine();
    LinesEnd();
    Advances((1, 0), ':');
    Advances((1, 1), '\n');
    Advances((2, 3), '1');
    Advances((2, 4), '\n');
  }
}
