/** The string facts the evolver and the ranking rest on: line splitting, stripping,
    zero-padded decimals and code-point order. */
module Text {

  // ----- lines

  /** Where str.splitlines breaks; a carriage return and newline together break once. */
  predicate IsBreak(c: char) {
    || '\n' <= c <= '\r'
    || '\U{001C}' <= c <= '\U{001E}'
    || c == '\U{0085}'
    || '\U{2028}' <= c <= '\U{2029}'
  }

  predicate Unbroken(s: string) {
    forall i :: 0 <= i < |s| ==> !IsBreak(s[i])
  }

  predicate OpensWithCrLf(s: string) {
    2 <= |s| && s[0] == '\r' && s[1] == '\n'
  }

  function SplitLines(s: string): seq<string>
    decreases |s|
  {
    if |s| == 0 then []
    else if OpensWithCrLf(s) then [""] + SplitLines(s[2..])
    else if IsBreak(s[0]) then [""] + SplitLines(s[1..])
    else
      var rest := SplitLines(s[1..]);
      if |rest| == 0 then [[s[0]]] else [[s[0]] + rest[0]] + rest[1..]
  }

  /** Line breaks passed by the end of a text, so the index of the line that follows. */
  function BreaksIn(s: string): nat
    decreases |s|
  {
    if |s| == 0 then 0
    else if OpensWithCrLf(s) then 1 + BreaksIn(s[2..])
    else if IsBreak(s[0]) then 1 + BreaksIn(s[1..])
    else BreaksIn(s[1..])
  }

  function Newlines(s: string): nat {
    if |s| == 0 then 0 else (if s[0] == '\n' then 1 else 0) + Newlines(s[1..])
  }

  predicate OnlyNewlineBreaks(s: string) {
    forall i :: 0 <= i < |s| && IsBreak(s[i]) ==> s[i] == '\n'
  }

  lemma {:induction false} NewlinesAreBreaks(s: string)
    requires OnlyNewlineBreaks(s)
    ensures BreaksIn(s) == Newlines(s)
  {
    if |s| != 0 {
      NewlinesAreBreaks(s[1..]);
    }
  }

  lemma SplitAfterPlain(c: char, rest: string)
    requires !IsBreak(c)
    ensures var lines := SplitLines(rest);
            SplitLines([c] + rest) == if lines == [] then [[c]] else [[c] + lines[0]] + lines[1..]
  {
    assert ([c] + rest)[1..] == rest;
  }

  /** A span with no break in it opens the first line of what it precedes. */
  lemma {:induction false} SpanOpensLine(span: string, post: string)
    requires span != "" && Unbroken(span)
    ensures var lines := SplitLines(post);
            SplitLines(span + post) == if lines == [] then [span] else [span + lines[0]] + lines[1..]
  {
    hide SplitLines, IsBreak;
    var lines := SplitLines(post);
    assert span + post == [span[0]] + (span[1..] + post);
    assert span == [span[0]] + span[1..];
    SplitAfterPlain(span[0], span[1..] + post);
    if |span| == 1 {
      assert span[1..] + post == post && span == [span[0]];
    } else {
      SpanOpensLine(span[1..], post);
      if lines != [] {
        assert [span[0]] + (span[1..] + lines[0]) == span + lines[0];
      }
    }
  }

  /** A line, a one-character break, and what follows. */
  lemma LineThenBreak(line: string, c: char, rest: string)
    requires Unbroken(line) && IsBreak(c) && c != '\r'
    ensures SplitLines(line + [c] + rest) == [line] + SplitLines(rest)
    ensures BreaksIn(line + [c] + rest) == 1 + BreaksIn(rest)
    ensures Newlines(line + [c] + rest) == (if c == '\n' then 1 else 0) + Newlines(rest)
  {
    var tail := [c] + rest;
    assert tail[1..] == rest && line + [c] + rest == line + tail;
    assert SplitLines(tail) == [""] + SplitLines(rest);
    if line == "" {
      assert line + tail == tail;
    } else {
      SpanOpensLine(line, tail);
      assert line + "" == line;
      UnbrokenCountsNothing(line, tail);
    }
  }

  lemma {:induction false} UnbrokenCountsNothing(line: string, tail: string)
    requires Unbroken(line)
    ensures BreaksIn(line + tail) == BreaksIn(tail)
    ensures Newlines(line + tail) == Newlines(tail)
  {
    if line == "" {
      assert line + tail == tail;
    } else {
      assert (line + tail)[1..] == line[1..] + tail;
      UnbrokenCountsNothing(line[1..], tail);
    }
  }

  lemma OpeningReturn(rest: string)
    ensures SplitLines(['\r', '\n'] + rest) == [""] + SplitLines(rest)
    ensures (rest == "" || rest[0] != '\n') ==> SplitLines(['\r'] + rest) == [""] + SplitLines(rest)
  {
    assert (['\r', '\n'] + rest)[2..] == rest && (['\r'] + rest)[1..] == rest;
  }

  lemma BreakAfter(line: string, tail: string, rest: string)
    requires Unbroken(line) && SplitLines(tail) == [""] + SplitLines(rest)
    ensures SplitLines(line + tail) == [line] + SplitLines(rest)
  {
    hide SplitLines, Unbroken;
    if line == "" {
      assert line + tail == tail;
    } else {
      SpanOpensLine(line, tail);
      assert line + "" == line;
    }
  }

  /** A carriage return ends a line by itself, or together with a newline after it. */
  lemma LineThenReturn(line: string, rest: string)
    requires Unbroken(line)
    ensures SplitLines(line + (['\r', '\n'] + rest)) == [line] + SplitLines(rest)
    ensures (rest == "" || rest[0] != '\n') ==> SplitLines(line + (['\r'] + rest)) == [line] + SplitLines(rest)
  {
    hide SplitLines, Unbroken;
    OpeningReturn(rest);
    BreakAfter(line, ['\r', '\n'] + rest, rest);
    if rest == "" || rest[0] != '\n' {
      BreakAfter(line, ['\r'] + rest, rest);
    }
  }

  predicate SameExcept(a: seq<string>, b: seq<string>, q: nat) {
    && q < |a| == |b|
    && forall k :: 0 <= k < |a| && k != q ==> a[k] == b[k]
  }

  ghost predicate Contains(line: string, span: string) {
    exists left: string, right: string :: line == left + span + right
  }

  lemma PrependKeeps(prefix: string, line: string, span: string)
    requires Contains(line, span)
    ensures Contains(prefix + line, span)
  {
    var left, right :| line == left + span + right;
    assert prefix + line == (prefix + left) + span + right;
  }

  lemma AppendKeeps(span: string, suffix: string)
    ensures Contains(span + suffix, span)
  {
    assert span + suffix == "" + span + suffix;
  }

  /** Swapping one unbroken span for another changes exactly one line, the one after the
      breaks before it, and that line holds the span. */
  lemma {:induction false} SpanSwap(pre: string, was: string, span: string, post: string)
    requires was != "" && Unbroken(was) && span != "" && Unbroken(span)
    ensures var a, b, q := SplitLines(pre + was + post), SplitLines(pre + span + post), BreaksIn(pre);
            SameExcept(a, b, q) && Contains(a[q], was) && Contains(b[q], span)
    decreases |pre|
  {
    if |pre| == 0 {
      assert pre + was + post == was + post && pre + span + post == span + post;
      SpanOpensLine(was, post);
      SpanOpensLine(span, post);
      AppendKeeps(was, if SplitLines(post) == [] then "" else SplitLines(post)[0]);
      AppendKeeps(span, if SplitLines(post) == [] then "" else SplitLines(post)[0]);
      assert was + "" == was && span + "" == span;
    } else {
      var d := if OpensWithCrLf(pre) then 2 else 1;
      var x, y := pre + was + post, pre + span + post;
      assert x[d..] == pre[d..] + was + post && y[d..] == pre[d..] + span + post;
      SpanSwap(pre[d..], was, span, post);
      assert OpensWithCrLf(x) == OpensWithCrLf(pre) == OpensWithCrLf(y);
      SwapStep(pre, x, y, d, was, span);
    }
  }

  lemma SwapStep(pre: string, x: string, y: string, d: nat, was: string, span: string)
    requires |pre| != 0 && d == (if OpensWithCrLf(pre) then 2 else 1)
    requires d <= |x| && d <= |y| && x[0] == y[0] == pre[0]
    requires OpensWithCrLf(x) == OpensWithCrLf(pre) == OpensWithCrLf(y)
    requires var a, b, q := SplitLines(x[d..]), SplitLines(y[d..]), BreaksIn(pre[d..]);
             SameExcept(a, b, q) && Contains(a[q], was) && Contains(b[q], span)
    ensures var a, b, q := SplitLines(x), SplitLines(y), BreaksIn(pre);
            SameExcept(a, b, q) && Contains(a[q], was) && Contains(b[q], span)
  {
    var a, b := SplitLines(x[d..]), SplitLines(y[d..]);
    if IsBreak(pre[0]) {
      assert SplitLines(x) == [""] + a && SplitLines(y) == [""] + b;
    } else {
      SwapPlain(pre[0], x, y, was, span, BreaksIn(pre[1..]));
    }
  }

  lemma SwapPlain(c: char, x: string, y: string, was: string, span: string, q: nat)
    requires !IsBreak(c) && x != "" && y != "" && x[0] == y[0] == c
    requires var a, b := SplitLines(x[1..]), SplitLines(y[1..]);
             SameExcept(a, b, q) && Contains(a[q], was) && Contains(b[q], span)
    ensures var a, b := SplitLines(x), SplitLines(y);
            SameExcept(a, b, q) && Contains(a[q], was) && Contains(b[q], span)
  {
    hide SplitLines, IsBreak, Contains;
    assert x == [c] + x[1..] && y == [c] + y[1..];
    SplitAfterPlain(c, x[1..]);
    SplitAfterPlain(c, y[1..]);
    if q == 0 {
      PrependKeeps([c], SplitLines(x[1..])[0], was);
      PrependKeeps([c], SplitLines(y[1..])[0], span);
    }
  }

  // ----- stripping

  /** What str.strip removes. */
  predicate IsSpace(c: char) {
    || '\t' <= c <= '\r'
    || '\U{001C}' <= c <= ' '
    || c == '\U{0085}' || c == '\U{00A0}' || c == '\U{1680}'
    || '\U{2000}' <= c <= '\U{200A}'
    || '\U{2028}' <= c <= '\U{2029}'
    || c == '\U{202F}' || c == '\U{205F}' || c == '\U{3000}'
  }

  function StripLeft(s: string): string {
    if |s| != 0 && IsSpace(s[0]) then StripLeft(s[1..]) else s
  }

  function StripRight(s: string): string {
    if |s| != 0 && IsSpace(s[|s| - 1]) then StripRight(s[..|s| - 1]) else s
  }

  function Strip(s: string): string {
    StripRight(StripLeft(s))
  }

  lemma StripTight(s: string)
    requires s != "" && !IsSpace(s[0]) && !IsSpace(s[|s| - 1])
    ensures Strip(s) == s
  {
  }

  predicate Blank(s: string) {
    forall i :: 0 <= i < |s| ==> IsSpace(s[i])
  }

  lemma {:induction false} StripLeftDrops(left: string, s: string)
    requires Blank(left) && (s != "" ==> !IsSpace(s[0]))
    ensures StripLeft(left + s) == s
  {
    if left == "" {
      assert left + s == s;
    } else {
      assert (left + s)[1..] == left[1..] + s;
      StripLeftDrops(left[1..], s);
    }
  }

  lemma {:induction false} StripRightDrops(s: string, right: string)
    requires Blank(right) && (s != "" ==> !IsSpace(s[|s| - 1]))
    ensures StripRight(s + right) == s
  {
    if right == "" {
      assert s + right == s;
    } else {
      var n := |right| - 1;
      assert (s + right)[..|s| + n] == s + right[..n];
      StripRightDrops(s, right[..n]);
    }
  }

  /** Stripping removes all blanks at both ends and nothing else. */
  lemma StripsBothEnds(left: string, s: string, right: string)
    requires Blank(left) && Blank(right)
    requires s != "" ==> !IsSpace(s[0]) && !IsSpace(s[|s| - 1])
    ensures Strip(left + s + right) == s
  {
    if s == "" {
      assert left + s + right == (left + right) + "";
      StripLeftDrops(left + right, "");
    } else {
      assert left + s + right == left + (s + right);
      StripLeftDrops(left, s + right);
      StripRightDrops(s, right);
    }
  }

  predicate IsDigit(c: char) {
    '0' <= c <= '9'
  }

  predicate HasDigit(s: string) {
    exists i :: 0 <= i < |s| && IsDigit(s[i])
  }

  lemma {:induction false} StripLeftKeepsDigit(s: string)
    requires HasDigit(s)
    ensures HasDigit(StripLeft(s))
  {
    if IsSpace(s[0]) {
      var i :| 0 <= i < |s| && IsDigit(s[i]);
      assert s[1..][i - 1] == s[i];
      StripLeftKeepsDigit(s[1..]);
    }
  }

  lemma {:induction false} StripRightKeepsDigit(s: string)
    requires HasDigit(s)
    ensures HasDigit(StripRight(s))
  {
    var n := |s| - 1;
    if IsSpace(s[n]) {
      var i :| 0 <= i < |s| && IsDigit(s[i]);
      assert s[..n][i] == s[i];
      StripRightKeepsDigit(s[..n]);
    }
  }

  lemma StripKeepsDigit(s: string)
    requires HasDigit(s)
    ensures HasDigit(Strip(s))
  {
    StripLeftKeepsDigit(s);
    StripRightKeepsDigit(StripLeft(s));
  }

  lemma ContainsDigit(line: string, span: string)
    requires Contains(line, span) && HasDigit(span)
    ensures HasDigit(line)
  {
    var left, right :| line == left + span + right;
    var i :| 0 <= i < |span| && IsDigit(span[i]);
    assert line[|left| + i] == span[i];
  }

  // ----- decimals

  function Digit(d: nat): char
    requires d < 10
  {
    "0123456789"[d]
  }

  /** str(n). */
  function Decimal(n: nat): string {
    if n < 10 then [Digit(n)] else Decimal(n / 10) + [Digit(n % 10)]
  }

  lemma {:induction false} DecimalIsPlain(n: nat)
    ensures Decimal(n) != "" && HasDigit(Decimal(n)) && Unbroken(Decimal(n))
  {
    if 10 <= n {
      DecimalIsPlain(n / 10);
      assert IsDigit(Decimal(n)[|Decimal(n)| - 1]);
    } else {
      assert IsDigit(Decimal(n)[0]);
    }
  }

  function Power10(w: nat): nat {
    if w == 0 then 1 else 10 * Power10(w - 1)
  }

  function Zeros(n: nat): string {
    seq(n, _ => '0')
  }

  /** The format {n:0wd}: never truncated, padded with zeros to at least w characters. */
  function Padded(n: nat, w: nat): string {
    var digits := Decimal(n);
    if |digits| < w then Zeros(w - |digits|) + digits else digits
  }

  /** The last w decimal digits. */
  function FixedWidth(n: nat, w: nat): (s: string)
    ensures |s| == w
  {
    if w == 0 then "" else FixedWidth(n / 10, w - 1) + [Digit(n % 10)]
  }

  lemma {:induction false} FixedZeros(w: nat)
    ensures FixedWidth(0, w) == Zeros(w)
  {
    if 0 < w {
      FixedZeros(w - 1);
      assert Zeros(w) == Zeros(w - 1) + ['0'];
    }
  }

  lemma {:induction false} PaddedIsFixed(n: nat, w: nat)
    requires 0 < w && n < Power10(w)
    ensures Padded(n, w) == FixedWidth(n, w)
    ensures |Decimal(n)| <= w
  {
    if n < 10 {
      FixedZeros(w - 1);
    } else {
      PaddedIsFixed(n / 10, w - 1);
      assert |Decimal(n)| == |Decimal(n / 10)| + 1;
    }
  }

  /** The number some decimal digits spell. */
  function Spelled(digits: string): int {
    if digits == "" then 0 else 10 * Spelled(digits[..|digits| - 1]) + (digits[|digits| - 1] as int - '0' as int)
  }

  predicate AllDigits(s: string) {
    forall i :: 0 <= i < |s| ==> '0' <= s[i] <= '9'
  }

  lemma SpelledNext(digits: string, d: nat)
    requires AllDigits(digits) && d < 10
    ensures AllDigits(digits + [Digit(d)]) && Spelled(digits + [Digit(d)]) == 10 * Spelled(digits) + d
  {
    assert (digits + [Digit(d)])[..|digits|] == digits;
    assert Digit(d) as int - '0' as int == d;
  }

  lemma {:induction false} FixedWidthSpells(n: nat, w: nat)
    requires n < Power10(w)
    ensures AllDigits(FixedWidth(n, w)) && Spelled(FixedWidth(n, w)) == n
  {
    if 0 < w {
      FixedWidthSpells(n / 10, w - 1);
      hide Spelled, Digit;
      SpelledNext(FixedWidth(n / 10, w - 1), n % 10);
    }
  }

  /** str and the padded format spell the number they are given. */
  lemma PaddedSpells(n: nat, w: nat)
    requires 0 < w && n < Power10(w)
    ensures |Padded(n, w)| == w && AllDigits(Padded(n, w)) && Spelled(Padded(n, w)) == n
  {
    PaddedIsFixed(n, w);
    FixedWidthSpells(n, w);
  }

  lemma {:induction false} DecimalSpells(n: nat)
    ensures AllDigits(Decimal(n)) && Spelled(Decimal(n)) == n
  {
    if n < 10 {
      SpelledNext("", n);
      assert "" + [Digit(n)] == Decimal(n);
    } else {
      DecimalSpells(n / 10);
      hide Spelled, Digit;
      SpelledNext(Decimal(n / 10), n % 10);
    }
  }

  lemma {:induction false} NoLeadingZero(n: nat)
    requires 0 < n
    ensures Decimal(n)[0] != '0'
  {
    if 10 <= n {
      NoLeadingZero(n / 10);
    }
  }

  // ----- code-point order

  predicate Less(a: string, b: string) {
    if |b| == 0 then false
    else if |a| == 0 then true
    else if a[0] != b[0] then a[0] < b[0]
    else Less(a[1..], b[1..])
  }

  lemma {:induction false} LessIrreflexive(a: string)
    ensures !Less(a, a)
  {
    if |a| != 0 {
      LessIrreflexive(a[1..]);
    }
  }

  lemma {:induction false} LessOfPrefixed(a: string, b: string, x: string, y: string)
    requires |a| == |b|
    ensures Less(a + x, b + y) == if a == b then Less(x, y) else Less(a, b)
  {
    if |a| == 0 {
      assert a + x == x && b + y == y;
    } else {
      assert (a + x)[1..] == a[1..] + x && (b + y)[1..] == b[1..] + y;
      if a[0] == b[0] {
        LessOfPrefixed(a[1..], b[1..], x, y);
        assert a == [a[0]] + a[1..] && b == [b[0]] + b[1..];
      }
    }
  }

  lemma {:induction false} FixedWidthOrder(m: nat, n: nat, w: nat)
    requires m < Power10(w) && n < Power10(w)
    ensures Less(FixedWidth(m, w), FixedWidth(n, w)) <==> m < n
    ensures FixedWidth(m, w) == FixedWidth(n, w) <==> m == n
  {
    if 0 < w {
      FixedWidthOrder(m / 10, n / 10, w - 1);
      var a, b := FixedWidth(m / 10, w - 1), FixedWidth(n / 10, w - 1);
      var x, y := [Digit(m % 10)], [Digit(n % 10)];
      LessOfPrefixed(a, b, x, y);
      LastDigits(m % 10, n % 10);
      assert FixedWidth(m, w)[..w - 1] == a && FixedWidth(n, w)[..w - 1] == b;
      assert FixedWidth(m, w)[w - 1] == x[0] && FixedWidth(n, w)[w - 1] == y[0];
    }
  }

  lemma LastDigits(c: nat, d: nat)
    requires c < 10 && d < 10
    ensures Less([Digit(c)], [Digit(d)]) <==> c < d
    ensures Digit(c) == Digit(d) <==> c == d
  {
  }

  /** In range, zero-padded numbers sort as text the way they sort as numbers. */
  lemma PaddedOrder(m: nat, n: nat, w: nat)
    requires 0 < w && m < Power10(w) && n < Power10(w)
    ensures |Padded(m, w)| == |Padded(n, w)| == w
    ensures Less(Padded(m, w), Padded(n, w)) <==> m < n
    ensures Padded(m, w) == Padded(n, w) <==> m == n
  {
    PaddedIsFixed(m, w);
    PaddedIsFixed(n, w);
    FixedWidthOrder(m, n, w);
  }
}
