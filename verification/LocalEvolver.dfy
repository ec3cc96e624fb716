/** The deterministic numeric mutator: one literal inside the evolve block at a time. */
module LocalEvolver {
  import opened Wrappers
  import opened Protocol
  import opened Executors
  import opened Text

  const START_MARKER := "# EVOLVE-BLOCK-START"
  const END_MARKER := "# EVOLVE-BLOCK-END"
  const MAX_ATTEMPTS_PER_PROPOSAL := 200
  const MAX_SOURCE := 131_072

  // ----- tokens

  datatype TokenKind = NumberToken | Indent | Dedent | EndOfLine | EndOfFile | OtherToken

  /** A token with its text as untokenize writes it, and its recorded start and end. */
  datatype Token = Token(
    kind: TokenKind,
    text: string,
    startRow: nat,
    startCol: nat,
    endRow: nat,
    endCol: nat)

  function Repeat(s: string, n: nat): string {
    if n == 0 then "" else Repeat(s, n - 1) + s
  }

  /** Where untokenize stands: the position the next token is placed against, the indents in
      force, and whether a line has just begun. */
  datatype Cursor = Cursor(row: nat, col: nat, indents: seq<string>, lineStart: bool)

  function Moved(cursor: Cursor, token: Token): Cursor {
    match token.kind
    case EndOfFile => cursor
    case Indent => cursor.(indents := cursor.indents + [token.text])
    case Dedent =>
      var outer := if cursor.indents == [] then [] else cursor.indents[..|cursor.indents| - 1];
      Cursor(token.endRow, token.endCol, outer, cursor.lineStart)
    case EndOfLine => Cursor(token.endRow + 1, 0, cursor.indents, true)
    case _ => Cursor(token.endRow, token.endCol, cursor.indents, cursor.lineStart && cursor.indents == [])
  }

  function CursorAfter(tokens: seq<Token>): Cursor {
    if tokens == [] then Cursor(1, 0, [], false)
    else Moved(CursorAfter(tokens[..|tokens| - 1]), tokens[|tokens| - 1])
  }

  /** Continuations and spaces up to a token's recorded start; None when it lies behind. */
  function Gap(from: (nat, nat), row: nat, col: nat): Option<string> {
    var base := if from.0 < row then 0 else from.1;
    if row < from.0 || col < base then None
    else Some(Repeat("\\\n", row - from.0) + Repeat(" ", col - base))
  }

  /** The first token of an indented line is preceded by the indent as it was read. */
  predicate Indented(cursor: Cursor, token: Token) {
    && !token.kind.EndOfLine? && cursor.lineStart && cursor.indents != []
    && |cursor.indents[|cursor.indents| - 1]| <= token.startCol
  }

  /** What is written before a token: the indent of its line, then the gap. */
  function Lead(cursor: Cursor, token: Token): Option<string> {
    if Indented(cursor, token) then
      var indent := cursor.indents[|cursor.indents| - 1];
      match Gap((cursor.row, |indent|), token.startRow, token.startCol)
      case None => None
      case Some(gap) => Some(indent + gap)
    else Gap((cursor.row, cursor.col), token.startRow, token.startCol)
  }

  predicate IsWritten(token: Token) {
    !token.kind.EndOfFile? && !token.kind.Indent? && !token.kind.Dedent?
  }

  /** tokenize.untokenize on full tokens: each one placed at its recorded position. */
  function Untokenize(tokens: seq<Token>): Option<string> {
    if tokens == [] then Some("")
    else
      var n := |tokens| - 1;
      match Untokenize(tokens[..n])
      case None => None
      case Some(text) =>
        if !IsWritten(tokens[n]) then Some(text)
        else match Lead(CursorAfter(tokens[..n]), tokens[n])
          case None => None
          case Some(lead) => Some(text + lead + tokens[n].text)
  }

  /** The text untokenize has written when it reaches token i. */
  function TextBefore(tokens: seq<Token>, i: nat): Option<string>
    requires i < |tokens|
  {
    match Untokenize(tokens[..i])
    case None => None
    case Some(text) =>
      match Lead(CursorAfter(tokens[..i]), tokens[i])
      case None => None
      case Some(lead) => Some(text + lead)
  }

  function Reworded(tokens: seq<Token>, i: nat, text: string): seq<Token>
    requires i < |tokens|
  {
    tokens[i := tokens[i].(text := text)]
  }

  lemma {:induction false} RewordingKeepsCursor(tokens: seq<Token>, i: nat, text: string)
    requires i < |tokens| && !tokens[i].kind.Indent?
    ensures CursorAfter(Reworded(tokens, i, text)) == CursorAfter(tokens)
  {
    var n := |tokens| - 1;
    var reworded := Reworded(tokens, i, text);
    if i == n {
      assert reworded[..n] == tokens[..n];
    } else {
      RewordingKeepsCursor(tokens[..n], i, text);
      assert reworded[..n] == Reworded(tokens[..n], i, text);
    }
  }

  /** Rewording a token changes the written text in exactly that span. */
  lemma {:induction false} RewordingIsLocal(tokens: seq<Token>, i: nat, text: string) returns (pre: string, post: string)
    requires i < |tokens| && IsWritten(tokens[i])
    requires Untokenize(tokens).Some?
    ensures TextBefore(tokens, i) == Some(pre)
    ensures Untokenize(tokens) == Some(pre + tokens[i].text + post)
    ensures Untokenize(Reworded(tokens, i, text)) == Some(pre + text + post)
  {
    hide Gap, Lead, CursorAfter;
    var n := |tokens| - 1;
    var reworded := Reworded(tokens, i, text);
    if i == n {
      assert reworded[..n] == tokens[..n];
      LeadOfReworded(CursorAfter(tokens[..n]), tokens[n], text);
      pre, post := TextBefore(tokens, i).value, "";
      assert pre + tokens[i].text + post == pre + tokens[i].text;
      assert pre + text + post == pre + text;
    } else {
      pre, post := RewordingIsLocal(tokens[..n], i, text);
      RewordingKeepsCursor(tokens[..n], i, text);
      assert reworded[..n] == Reworded(tokens[..n], i, text);
      assert tokens[..n][..i] == tokens[..i];
      if IsWritten(tokens[n]) {
        var tail := post + Lead(CursorAfter(tokens[..n]), tokens[n]).value + tokens[n].text;
        Reassociate(pre, tokens[i].text, post, Lead(CursorAfter(tokens[..n]), tokens[n]).value, tokens[n].text);
        Reassociate(pre, text, post, Lead(CursorAfter(tokens[..n]), tokens[n]).value, tokens[n].text);
        post := tail;
      }
    }
  }

  lemma LeadOfReworded(cursor: Cursor, token: Token, text: string)
    ensures Lead(cursor, token.(text := text)) == Lead(cursor, token)
  {
  }

  lemma Reassociate(a: string, b: string, c: string, d: string, e: string)
    ensures a + b + c + d + e == a + b + (c + d + e)
  {
  }

  // ----- the evolve block

  /** One-based numbers of the lines that are the marker once stripped. */
  function MarkerLines(lines: seq<string>, marker: string): seq<nat> {
    if lines == [] then []
    else
      var n := |lines| - 1;
      MarkerLines(lines[..n], marker) + if Strip(lines[n]) == marker then [n + 1] else []
  }

  /** The lines of the one ordered block, or None. */
  function EvolveBlock(source: string): (block: Option<(nat, nat)>)
    ensures block.Some? ==> block.value.0 < block.value.1
  {
    var lines := SplitLines(source);
    var starts, ends := MarkerLines(lines, START_MARKER), MarkerLines(lines, END_MARKER);
    if |starts| != 1 || |ends| != 1 || starts[0] >= ends[0] then None else Some((starts[0], ends[0]))
  }

  lemma {:induction false} MarkersUnmoved(a: seq<string>, b: seq<string>, q: nat, marker: string)
    requires q < |a| ==> Strip(a[q]) != marker
    requires q < |b| ==> Strip(b[q]) != marker
    requires |a| == |b|
    requires forall k :: 0 <= k < |a| && k != q ==> a[k] == b[k]
    ensures MarkerLines(a, marker) == MarkerLines(b, marker)
  {
    hide Strip;
    if a != [] {
      var n := |a| - 1;
      MarkersUnmoved(a[..n], b[..n], q, marker);
    }
  }

  lemma {:induction false} MarkerOnce(lines: seq<string>, k: nat, marker: string)
    requires k < |lines|
    requires forall i :: 0 <= i < |lines| ==> (Strip(lines[i]) == marker <==> i == k)
    ensures MarkerLines(lines, marker) == [k + 1]
  {
    hide Strip;
    var n := |lines| - 1;
    if k < n {
      MarkerOnce(lines[..n], k, marker);
    } else {
      MarkerNever(lines[..n], marker);
    }
  }

  lemma {:induction false} MarkerNever(lines: seq<string>, marker: string)
    requires forall i :: 0 <= i < |lines| ==> Strip(lines[i]) != marker
    ensures MarkerLines(lines, marker) == []
  {
    hide Strip;
    if lines != [] {
      MarkerNever(lines[..|lines| - 1], marker);
    }
  }

  lemma MarkersHaveNoDigit()
    ensures !HasDigit(START_MARKER) && !HasDigit(END_MARKER)
  {
  }

  lemma DigitLineIsNoMarker(line: string)
    requires HasDigit(line)
    ensures Strip(line) != START_MARKER && Strip(line) != END_MARKER
  {
    MarkersHaveNoDigit();
    StripKeepsDigit(line);
  }

  /** Swapping one digit-bearing span for another never moves or breaks the block. */
  lemma SwapKeepsBlock(pre: string, was: string, span: string, post: string)
    requires was != "" && Unbroken(was) && HasDigit(was)
    requires span != "" && Unbroken(span) && HasDigit(span)
    ensures EvolveBlock(pre + was + post) == EvolveBlock(pre + span + post)
  {
    SpanSwap(pre, was, span, post);
    var a, b, q := SplitLines(pre + was + post), SplitLines(pre + span + post), BreaksIn(pre);
    ContainsDigit(a[q], was);
    ContainsDigit(b[q], span);
    DigitLineIsNoMarker(a[q]);
    DigitLineIsNoMarker(b[q]);
    MarkersUnmoved(a, b, q, START_MARKER);
    MarkersUnmoved(a, b, q, END_MARKER);
  }

  // ----- replacement values

  datatype NumberLiteral = IntLiteral(n: nat) | FloatLiteral(x: Number) | OtherLiteral | Unreadable

  predicate Increasing(s: seq<real>) {
    forall i, j :: 0 <= i < j < |s| ==> s[i] < s[j]
  }

  function Insert(x: real, s: seq<real>): (r: seq<real>)
    requires Increasing(s)
    ensures Increasing(r)
    ensures forall y :: y in r <==> y == x || y in s
  {
    if s == [] then [x]
    else if x < s[0] then [x] + s
    else if x == s[0] then s
    else
      var rest := Insert(x, s[1..]);
      assert forall k :: 0 <= k < |rest| ==> rest[k] in rest;
      [s[0]] + rest
  }

  function SortedDistinct(raw: seq<real>, except: real): (r: seq<real>)
    ensures Increasing(r)
    ensures forall y :: y in r <==> y in raw && y != except
  {
    if raw == [] then []
    else
      var rest := SortedDistinct(raw[1..], except);
      if raw[0] == except then rest else Insert(raw[0], rest)
  }

  /** One less, one more, half rounded down, and double; none below zero. */
  function IntNeighbours(n: nat): seq<nat> {
    [if n == 0 then 0 else n - 1, n + 1, n / 2, n * 2]
  }

  function AsReals(ns: seq<nat>): seq<real> {
    seq(|ns|, i requires 0 <= i < |ns| => ns[i] as real)
  }

  predicate Numeric(literal: NumberLiteral) {
    literal.IntLiteral? || (literal.FloatLiteral? && literal.x.Finite?)
  }

  function ValueOf(literal: NumberLiteral): real
    requires Numeric(literal)
  {
    if literal.IntLiteral? then literal.n as real else literal.x.value
  }

  /** The exact values a float is scaled and shifted to, before rounding. */
  function FloatNeighbours(x: real): seq<real> {
    var step := if -1.0 < x < 1.0 then 0.05 else 1.0;
    [x * 0.5, x * 0.8, x * 1.25, x * 2.0, x - step, x + step]
  }

  /** Float arithmetic: each exact value rounded, the infinite ones dropped. */
  function FiniteRounded(exact: seq<real>, round: real -> Number): (r: seq<real>)
    ensures forall y :: y in r <==> exists i :: 0 <= i < |exact| && round(exact[i]) == Finite(y)
  {
    if exact == [] then []
    else
      var rest := FiniteRounded(exact[1..], round);
      assert forall i :: 0 <= i < |exact| - 1 ==> exact[1..][i] == exact[i + 1];
      if round(exact[0]).Finite? then [round(exact[0]).value] + rest else rest
  }

  predicate Moves(rounded: Number, value: real) {
    rounded.Finite? && rounded.value != value
  }

  /** The sorted values a literal may be replaced with: every neighbour of it, never itself;
      for an integer there is always one. */
  function Replacements(literal: NumberLiteral, round: real -> Number): (r: seq<real>)
    requires Numeric(literal)
    ensures Increasing(r) && ValueOf(literal) !in r
    ensures literal.IntLiteral? ==>
              && r != []
              && (forall i :: 0 <= i < |r| ==> r[i] in AsReals(IntNeighbours(literal.n)))
              && (forall x :: x in AsReals(IntNeighbours(literal.n)) && x != literal.n as real ==> x in r)
    ensures literal.FloatLiteral? ==>
              && (forall i :: 0 <= i < |r| ==>
                    exists x :: x in FloatNeighbours(literal.x.value) && round(x) == Finite(r[i]))
              && (forall x :: x in FloatNeighbours(literal.x.value) && Moves(round(x), literal.x.value) ==>
                    round(x).value in r)
  {
    var raw := if literal.IntLiteral? then AsReals(IntNeighbours(literal.n))
               else FiniteRounded(FloatNeighbours(literal.x.value), round);
    var r := SortedDistinct(raw, ValueOf(literal));
    assert literal.IntLiteral? ==> raw[1] in r;
    assert forall i :: 0 <= i < |r| ==> r[i] in r;
    r
  }

  // ----- programs and proposals

  datatype ParentCandidate = ParentCandidate(program: CandidateProgram, reward: real, passed: bool, validity: real)

  datatype ProposalRequest = ProposalRequest(
    generation: nat,
    batchSize: int,
    seed: int,
    seedPrograms: seq<CandidateProgram>,
    parents: seq<ParentCandidate>,
    seen: set<string>)

  datatype Proposal = Proposal(
    program: CandidateProgram,
    parentSha256: seq<string>,
    origin: string,
    mutation: string)

  datatype EvolveError = BadBatchSize | NoSeeds | InvalidSeed | NoEvolveBlock | LiteralOverflow | Exhausted

  /** Why the number tokens of a block cannot all be read: literal_eval refuses one, which
      costs an attempt, or an integer does not convert to a float, which nothing catches. */
  datatype LiteralFault = CannotRead | TooLarge

  datatype Mutation = Mutation(program: CandidateProgram, row: nat, before: string, after: string)

  function Description(m: Mutation): string {
    "line " + Decimal(m.row) + " numeric literal " + m.before + " -> " + m.after
  }

  /** random.Random: a stream fixed by the seed, reduced to the range asked for. */
  class Random {
    const draws: nat -> nat
    var drawn: nat

    constructor (draws: nat -> nat)
      ensures this.draws == draws && drawn == 0
    {
      this.draws := draws;
      drawn := 0;
    }

    method RandRange(n: nat) returns (r: nat)
      requires 0 < n
      modifies this
      ensures drawn == old(drawn) + 1
      ensures r == draws(old(drawn)) % n
    {
      r := draws(drawn) % n;
      drawn := drawn + 1;
    }
  }

  /** Where a search stands: hashes seen, proposals made, attempts and random draws spent,
      and whether an overflow has ended it. */
  datatype Search = Search(seen: set<string>, proposals: seq<Proposal>, attempts: nat, drawn: nat, crashed: bool)

  /** The lexer, literal_eval, float rounding, repr, the largest integer that converts to a
      float, SHA-256, static validation and the random stream. */
  datatype Evolver = Evolver(
    tokenize: string -> Option<seq<Token>>,
    literal: string -> NumberLiteral,
    round: real -> Number,
    repr: real -> string,
    largestInt: nat,
    sha256: string -> string,
    validate: CandidateProgram -> bool,
    stream: int -> nat -> nat)
  {
    function Program(source: string): Option<CandidateProgram> {
      if 1 <= |source| <= MAX_SOURCE then Some(CandidateProgram(source, sha256(source))) else None
    }

    // ----- one mutation

    predicate IsMutable(token: Token) {
      Numeric(literal(token.text))
    }

    predicate InBlock(token: Token, block: (nat, nat)) {
      token.kind.NumberToken? && block.0 < token.startRow < block.1
    }

    function FaultOf(token: Token): Option<LiteralFault> {
      match literal(token.text)
      case Unreadable => Some(CannotRead)
      case IntLiteral(n) => if largestInt < n then Some(TooLarge) else None
      case _ => None
    }

    /** Indices of the mutable number tokens of the block, or the first fault among them. */
    function MutableTokens(tokens: seq<Token>, block: (nat, nat)): (r: Result<seq<nat>, LiteralFault>)
      ensures r.Success? ==> forall k :: 0 <= k < |r.value| ==>
                && r.value[k] < |tokens|
                && InBlock(tokens[r.value[k]], block)
                && IsMutable(tokens[r.value[k]])
    {
      if tokens == [] then Success([])
      else
        var n := |tokens| - 1;
        match MutableTokens(tokens[..n], block)
        case Failure(fault) => Failure(fault)
        case Success(before) =>
          if !InBlock(tokens[n], block) then Success(before)
          else match FaultOf(tokens[n])
            case Some(fault) => Failure(fault)
            case None => Success(if IsMutable(tokens[n]) then before + [n] else before)
    }

    /** Some replacement of the integer, itself left out, does not convert to a float. */
    predicate GrowsTooLarge(literal: NumberLiteral) {
      literal.IntLiteral? && exists k: nat ::
        k < 4 && IntNeighbours(literal.n)[k] != literal.n && largestInt < IntNeighbours(literal.n)[k]
    }

    function LiteralText(value: real, isInt: bool): string
      requires isInt ==> 0.0 <= value
    {
      if isInt then Decimal(value.Floor) else repr(value)
    }

    function ReplacementText(token: Token, draw: nat): string
      requires IsMutable(token) && Replacements(literal(token.text), round) != []
    {
      var replacements := Replacements(literal(token.text), round);
      LiteralText(replacements[draw % |replacements|], literal(token.text).IntLiteral?)
    }

    /** A mutation of the parent, and the draws spent when it is done. */
    function Mutated(parent: CandidateProgram, draws: nat -> nat, at: nat): (Option<Mutation>, nat) {
      match EvolveBlock(parent.source)
      case None => (None, at)
      case Some(block) =>
        match tokenize(parent.source)
        case None => (None, at)
        case Some(tokens) =>
          match MutableTokens(tokens, block)
          case Failure(_) => (None, at)
          case Success(mutable) =>
            if mutable == [] then (None, at)
            else
              var i := mutable[draws(at) % |mutable|];
              if GrowsTooLarge(literal(tokens[i].text)) || Replacements(literal(tokens[i].text), round) == []
              then (None, at + 1)
              else
              var text := ReplacementText(tokens[i], draws(at + 1));
              match Untokenize(Reworded(tokens, i, text))
              case None => (None, at + 2)
              case Some(source) =>
                match Program(source)
                case None => (None, at + 2)
                case Some(program) =>
                  (Some(Mutation(program, tokens[i].startRow, tokens[i].text, text)), at + 2)
    }

    /** Converting an integer of the block, or one it may be replaced by, overflows. */
    predicate Crashes(parent: CandidateProgram, draws: nat -> nat, at: nat) {
      && EvolveBlock(parent.source).Some?
      && tokenize(parent.source).Some?
      && var tokens := tokenize(parent.source).value;
         match MutableTokens(tokens, EvolveBlock(parent.source).value)
         case Failure(fault) => fault == TooLarge
         case Success(mutable) =>
           mutable != [] && GrowsTooLarge(literal(tokens[mutable[draws(at) % |mutable|]].text))
    }

    method FindMutable(tokens: seq<Token>, block: (nat, nat)) returns (mutable: Result<seq<nat>, LiteralFault>)
      ensures mutable == MutableTokens(tokens, block)
    {
      var indices: seq<nat> := [];
      for index := 0 to |tokens|
        invariant MutableTokens(tokens[..index], block) == Success(indices)
      {
        assert tokens[..index + 1][..index] == tokens[..index];
        var token := tokens[index];
        if token.kind.NumberToken? && block.0 < token.startRow < block.1 {
          var value := literal(token.text);
          if value.Unreadable? {
            FaultStays(tokens, block, index + 1);
            return Failure(CannotRead);
          }
          if value.IntLiteral? && largestInt < value.n {
            FaultStays(tokens, block, index + 1);
            return Failure(TooLarge);
          }
          if value.IntLiteral? || (value.FloatLiteral? && value.x.Finite?) {
            indices := indices + [index];
          }
        }
      }
      assert tokens[..|tokens|] == tokens;
      return Success(indices);
    }

    lemma {:induction false} FaultStays(tokens: seq<Token>, block: (nat, nat), k: nat)
      requires k <= |tokens| && MutableTokens(tokens[..k], block).Failure?
      ensures MutableTokens(tokens, block) == MutableTokens(tokens[..k], block)
      decreases |tokens|
    {
      if k == |tokens| {
        assert tokens[..k] == tokens;
      } else {
        var n := |tokens| - 1;
        assert tokens[..n][..k] == tokens[..k];
        FaultStays(tokens[..n], block, k);
      }
    }

    method Mutate(parent: CandidateProgram, rng: Random) returns (mutation: Option<Mutation>, crashed: bool)
      modifies rng
      ensures (mutation, rng.drawn) == Mutated(parent, rng.draws, old(rng.drawn))
      ensures crashed == Crashes(parent, rng.draws, old(rng.drawn))
    {
      hide EvolveBlock, Untokenize, MutableTokens, Replacements, GrowsTooLarge;
      var block := EvolveBlock(parent.source);
      if block.None? {
        return None, false;
      }
      var lexed := tokenize(parent.source);
      if lexed.None? {
        return None, false;
      }
      var tokens := lexed.value;
      var mutable := FindMutable(tokens, block.value);
      if mutable.Failure? {
        return None, mutable.error == TooLarge;
      }
      if mutable.value == [] {
        return None, false;
      }
      var choice := rng.RandRange(|mutable.value|);
      var i := mutable.value[choice];
      var token := tokens[i];
      var value := literal(token.text);
      if GrowsTooLarge(value) {
        return None, true;
      }
      var replacements := Replacements(value, round);
      if replacements == [] {
        return None, false;
      }
      var pick := rng.RandRange(|replacements|);
      var text := LiteralText(replacements[pick], value.IntLiteral?);
      tokens := tokens[i := token.(text := text)];
      var source := Untokenize(tokens);
      if source.None? {
        return None, false;
      }
      var program := Program(source.value);
      if program.None? {
        return None, false;
      }
      return Some(Mutation(program.value, token.startRow, token.text, text)), false;
    }

    // ----- one batch

    function Parents(request: ProposalRequest): (parents: seq<CandidateProgram>)
      ensures request.seedPrograms != [] ==> parents != []
    {
      if request.parents != [] then
        seq(|request.parents|, i requires 0 <= i < |request.parents| => request.parents[i].program)
      else request.seedPrograms
    }

    /** The seeds generation 0 proposes unmodified, or the failure of validating one. */
    function WithSeeds(request: ProposalRequest, count: nat): (r: Result<Search, EvolveError>)
      requires count <= |request.seedPrograms|
      ensures r.Failure? ==> r.error == InvalidSeed
    {
      if count == 0 then Success(Search(request.seen, [], 0, 0, false))
      else
        match WithSeeds(request, count - 1)
        case Failure(error) => Failure(error)
        case Success(s) =>
          var program := request.seedPrograms[count - 1];
          if request.batchSize <= |s.proposals| || program.sha256 in s.seen then Success(s)
          else if !validate(program) then Failure(InvalidSeed)
          else Success(s.(
            proposals := s.proposals + [Proposal(program, [], "seed", "unmodified seed")],
            seen := s.seen + {program.sha256}))
    }

    function Attempt(parents: seq<CandidateProgram>, draws: nat -> nat, s: Search): Search
      requires parents != []
    {
      var parent := parents[draws(s.drawn) % |parents|];
      var (mutation, drawn) := Mutated(parent, draws, s.drawn + 1);
      var spent := s.(attempts := s.attempts + 1, drawn := drawn);
      if Crashes(parent, draws, s.drawn + 1) then spent.(crashed := true)
      else if mutation.None? || !validate(mutation.value.program) || mutation.value.program.sha256 in s.seen then spent
      else spent.(
        proposals := s.proposals + [MutationProposal(parent, mutation.value)],
        seen := s.seen + {mutation.value.program.sha256})
    }

    function MutationProposal(parent: CandidateProgram, mutation: Mutation): Proposal {
      Proposal(mutation.program, [parent.sha256], "local_numeric_mutation", Description(mutation))
    }

    function Searched(parents: seq<CandidateProgram>, draws: nat -> nat, batchSize: nat, s: Search): Search
      requires parents != []
      decreases batchSize * MAX_ATTEMPTS_PER_PROPOSAL - s.attempts
    {
      if !s.crashed && |s.proposals| < batchSize && s.attempts < batchSize * MAX_ATTEMPTS_PER_PROPOSAL
      then Searched(parents, draws, batchSize, Attempt(parents, draws, s))
      else s
    }

    predicate AllHaveBlocks(programs: seq<CandidateProgram>) {
      forall i :: 0 <= i < |programs| ==> EvolveBlock(programs[i].source).Some?
    }

    function FirstSearch(request: ProposalRequest): Result<Search, EvolveError> {
      if request.generation == 0 then WithSeeds(request, |request.seedPrograms|)
      else Success(Search(request.seen, [], 0, 0, false))
    }

    /** Everything propose computes, attempts and draws included. */
    function SearchOutcome(request: ProposalRequest): Result<Search, EvolveError> {
      if request.batchSize < 1 then Failure(BadBatchSize)
      else if request.seedPrograms == [] then Failure(NoSeeds)
      else
        match FirstSearch(request)
        case Failure(error) => Failure(error)
        case Success(s) =>
          if !AllHaveBlocks(Parents(request)) then Failure(NoEvolveBlock)
          else
            var last := Searched(Parents(request), stream(request.seed), request.batchSize, s);
            if last.crashed then Failure(LiteralOverflow)
            else if |last.proposals| != request.batchSize then Failure(Exhausted)
            else Success(last)
    }

    function Proposed(request: ProposalRequest): Result<seq<Proposal>, EvolveError> {
      match SearchOutcome(request)
      case Failure(error) => Failure(error)
      case Success(last) => Success(last.proposals)
    }

    method ProposeSeeds(request: ProposalRequest) returns (r: Result<Search, EvolveError>)
      requires request.generation == 0
      ensures r == FirstSearch(request)
    {
      var seen, proposals := request.seen, [];
      for i := 0 to |request.seedPrograms|
        invariant WithSeeds(request, i) == Success(Search(seen, proposals, 0, 0, false))
      {
        var program := request.seedPrograms[i];
        if request.batchSize <= |proposals| {
          FullBatchTakesNoMore(request, i);
          return Success(Search(seen, proposals, 0, 0, false));
        }
        if program.sha256 !in seen {
          if !validate(program) {
            SeedFailureStays(request, i + 1);
            return Failure(InvalidSeed);
          }
          proposals := proposals + [Proposal(program, [], "seed", "unmodified seed")];
          seen := seen + {program.sha256};
        }
      }
      return Success(Search(seen, proposals, 0, 0, false));
    }

    lemma {:induction false} FullBatchTakesNoMore(request: ProposalRequest, from: nat)
      requires from <= |request.seedPrograms| && WithSeeds(request, from).Success?
      requires request.batchSize <= |WithSeeds(request, from).value.proposals|
      ensures WithSeeds(request, |request.seedPrograms|) == WithSeeds(request, from)
      decreases |request.seedPrograms| - from
    {
      if from < |request.seedPrograms| {
        FullBatchTakesNoMore(request, from + 1);
      }
    }

    lemma {:induction false} SeedFailureStays(request: ProposalRequest, from: nat)
      requires from <= |request.seedPrograms| && WithSeeds(request, from).Failure?
      ensures WithSeeds(request, |request.seedPrograms|) == WithSeeds(request, from)
      decreases |request.seedPrograms| - from
    {
      if from < |request.seedPrograms| {
        SeedFailureStays(request, from + 1);
      }
    }

    method Propose(request: ProposalRequest) returns (r: Result<seq<Proposal>, EvolveError>)
      ensures r == Proposed(request)
    {
      hide EvolveBlock, Searched;
      if request.batchSize < 1 {
        return Failure(BadBatchSize);
      }
      if request.seedPrograms == [] {
        return Failure(NoSeeds);
      }
      var rng := new Random(stream(request.seed));
      var seen, proposals := request.seen, [];
      if request.generation == 0 {
        var seeded := ProposeSeeds(request);
        if seeded.Failure? {
          return Failure(seeded.error);
        }
        seen, proposals := seeded.value.seen, seeded.value.proposals;
        SeedsSpendNothing(request, |request.seedPrograms|);
      }
      var parents := Parents(request);
      for i := 0 to |parents|
        invariant AllHaveBlocks(parents[..i])
      {
        if EvolveBlock(parents[i].source).None? {
          return Failure(NoEvolveBlock);
        }
      }
      assert parents[..|parents|] == parents;
      var crashed;
      proposals, crashed := SearchBatch(request, parents, rng, seen, proposals);
      if crashed {
        return Failure(LiteralOverflow);
      }
      if |proposals| != request.batchSize {
        return Failure(Exhausted);
      }
      return Success(proposals);
    }

    /** The rejection-sampling loop of propose. */
    method SearchBatch(request: ProposalRequest, parents: seq<CandidateProgram>, rng: Random,
                       seeded: set<string>, first: seq<Proposal>)
      returns (proposals: seq<Proposal>, crashed: bool)
      requires 1 <= request.batchSize && parents != [] && rng.drawn == 0
      modifies rng
      ensures var last := Searched(parents, rng.draws, request.batchSize, Search(seeded, first, 0, 0, false));
              crashed == last.crashed && proposals == last.proposals
    {
      hide Mutated, Crashes;
      var seen := seeded;
      proposals, crashed := first, false;
      var attempts := 0;
      var limit := request.batchSize * MAX_ATTEMPTS_PER_PROPOSAL;
      ghost var goal := Searched(parents, rng.draws, request.batchSize, Search(seeded, first, 0, 0, false));
      while |proposals| < request.batchSize && attempts < limit
        invariant attempts <= limit && !crashed
        invariant Searched(parents, rng.draws, request.batchSize,
                           Search(seen, proposals, attempts, rng.drawn, false)) == goal
        decreases limit - attempts
      {
        ghost var next := Attempt(parents, rng.draws, Search(seen, proposals, attempts, rng.drawn, false));
        attempts := attempts + 1;
        var choice := rng.RandRange(|parents|);
        var parent := parents[choice];
        var mutation;
        mutation, crashed := Mutate(parent, rng);
        if crashed {
          assert next == Search(seen, proposals, attempts, rng.drawn, true);
          return;
        }
        if mutation.None? || !validate(mutation.value.program) || mutation.value.program.sha256 in seen {
          assert next == Search(seen, proposals, attempts, rng.drawn, false);
          continue;
        }
        var program := mutation.value.program;
        proposals := proposals + [Proposal(program, [parent.sha256], "local_numeric_mutation",
                                           Description(mutation.value))];
        seen := seen + {program.sha256};
        assert next == Search(seen, proposals, attempts, rng.drawn, false);
      }
    }

    lemma {:induction false} SeedsSpendNothing(request: ProposalRequest, count: nat)
      requires count <= |request.seedPrograms| && WithSeeds(request, count).Success?
      ensures var s := WithSeeds(request, count).value; s.attempts == s.drawn == 0 && !s.crashed
    {
      if 0 < count {
        SeedsSpendNothing(request, count - 1);
      }
    }
  }
}
