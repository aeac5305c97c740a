/**
 * The scanner of src/lexer.rs. `ScanAt` is one call of `Lexer::scan`: it skips
 * whitespace and classifies the next lexeme, returning the slot the lexer stores as
 * its current token together with the position it moves to. Character classes are
 * restricted to ASCII, and positions count characters.
 */
module Lexer {
  import opened Wrappers
  import opened Errors

  datatype TokenType =
    | Function | Var | Type | Return | Equals | NumericLiteral | StringLiteral | Identifier
    | Newline | Semicolon | Comma | Colon | Arrow | Whitespace | OpenBrace | CloseBrace
    | OpenParen | CloseParen | LessThan | GreaterThan | Unknown | BOF | EOF

  datatype Token = Token(tokenType: TokenType, text: string, start: nat, end: nat)

  /** What the lexer holds as its current token once it has scanned. */
  type Slot = Result<Token, LexingError>

  /** The four-entry keyword map. */
  const Keywords: map<string, TokenType> :=
    map["function" := TokenType.Function, "var" := TokenType.Var,
        "type" := TokenType.Type, "return" := TokenType.Return]

  /** ASCII part of `char::is_whitespace`: U+0009 to U+000D and the space. */
  predicate IsWhitespace(ch: char) { ch == ' ' || '\t' <= ch <= '\r' }

  predicate IsDigit(ch: char) { '0' <= ch <= '9' }

  predicate IsAlphabetic(ch: char) { 'a' <= ch <= 'z' || 'A' <= ch <= 'Z' }

  predicate IsIdentifierStart(ch: char) { IsAlphabetic(ch) || ch == '_' }

  predicate IsIdentifierPart(ch: char) { IsAlphabetic(ch) || IsDigit(ch) || ch == '_' }

  predicate IsNotQuote(ch: char) { ch != '"' }

  /** `get_current_char`: the character at `i`, if any. */
  function CharAt(input: string, i: nat): Option<char> {
    if i < |input| then Some(input[i]) else None
  }

  /**
   * The end of the longest run of characters satisfying `inRun` that starts at `from`:
   * the maximal-munch loop every scanning routine uses.
   */
  function RunEnd(input: string, from: nat, inRun: char -> bool): (end: nat)
    ensures from <= end
    ensures from <= |input| ==> end <= |input|
    ensures from > |input| ==> end == from
    ensures forall i | from <= i < end :: i < |input| && inRun(input[i])
    ensures end < |input| ==> !inRun(input[end])
    decreases |input| - from
  {
    if from < |input| && inRun(input[from]) then RunEnd(input, from + 1, inRun) else from
  }

  /** `skip_whitespace`: the position after the whitespace run at `pos`. */
  function SkipWhitespace(input: string, pos: nat): nat {
    RunEnd(input, pos, IsWhitespace)
  }

  /** The slot produced by one scan and the lexer position after it. */
  datatype Scanned = Scanned(slot: Slot, pos: nat)

  predicate IsEof(s: Slot) { s.Ok? && s.value.tokenType == EOF }

  /**
   * `scan_string_literal`: text runs from the opening quote through the first closing
   * quote. The end-of-input test after the loop also rejects a closed literal whose
   * closing quote is the last character of the input.
   */
  function ScanStringLiteral(input: string, start: nat): (r: Scanned)
    requires start < |input| && input[start] == '"'
    ensures r.slot.Ok? <==> exists q :: start < q < |input| - 1 && input[q] == '"'
    ensures r.slot.Ok? ==>
      var t := r.slot.value;
      && t.tokenType == StringLiteral && t.start == start && t.end == r.pos
      && start + 2 <= t.end < |input| && t.text == input[start..t.end]
      && t.text[0] == '"' && t.text[|t.text| - 1] == '"'
      && forall i | 0 < i < |t.text| - 1 :: t.text[i] != '"'
    ensures r.slot.Err? ==> r.slot.error == UnterminatedStringLiteralError && r.pos == |input|
  {
    var q := RunEnd(input, start + 1, IsNotQuote);
    var end := if q < |input| then q + 1 else q;
    if end >= |input| then
      Scanned(Err(UnterminatedStringLiteralError), end)
    else
      Scanned(Ok(Token(StringLiteral, input[start..end], start, end)), end)
  }

  /** `scan_numeric_literal`: the maximal run of decimal digits. */
  function ScanNumericLiteral(input: string, start: nat): (r: Scanned)
    requires start < |input| && IsDigit(input[start])
    ensures r.slot.Ok?
    ensures
      var t := r.slot.value;
      && t.tokenType == NumericLiteral && t.start == start && t.end == r.pos
      && start < t.end <= |input| && t.text == input[start..t.end]
      && (forall i | 0 <= i < |t.text| :: IsDigit(t.text[i]))
      && (t.end < |input| ==> !IsDigit(input[t.end]))
  {
    var end := RunEnd(input, start + 1, IsDigit);
    Scanned(Ok(Token(NumericLiteral, input[start..end], start, end)), end)
  }

  /**
   * `scan_identifier`: the maximal run of identifier characters, classified as a
   * keyword when its text is a key of `Keywords`.
   */
  function ScanIdentifier(input: string, start: nat): (r: Scanned)
    requires start < |input| && IsIdentifierStart(input[start])
    ensures r.slot.Ok?
    ensures
      var t := r.slot.value;
      && t.start == start && t.end == r.pos && start < t.end <= |input|
      && t.text == input[start..t.end]
      && IsIdentifierStart(t.text[0])
      && (forall i | 0 <= i < |t.text| :: IsIdentifierPart(t.text[i]))
      && (t.end < |input| ==> !IsIdentifierPart(input[t.end]))
      && (t.text == "function" ==> t.tokenType == Function)
      && (t.text == "var" ==> t.tokenType == Var)
      && (t.text == "type" ==> t.tokenType == Type)
      && (t.text == "return" ==> t.tokenType == Return)
      && (t.text !in {"function", "var", "type", "return"} ==> t.tokenType == Identifier)
  {
    var end := RunEnd(input, start + 1, IsIdentifierPart);
    var text := input[start..end];
    var tokenType := if text in Keywords then Keywords[text] else Identifier;
    Scanned(Ok(Token(tokenType, text, start, end)), end)
  }

  /** The single-character operators of `scan_operator`. */
  function Punctuation(ch: char): Option<TokenType> {
    match ch
    case '=' => Some(Equals)
    case ',' => Some(Comma)
    case ';' => Some(Semicolon)
    case ':' => Some(Colon)
    case '{' => Some(OpenBrace)
    case '}' => Some(CloseBrace)
    case '(' => Some(OpenParen)
    case ')' => Some(CloseParen)
    case '<' => Some(LessThan)
    case '>' => Some(GreaterThan)
    case _ => None
  }

  /**
   * `scan_operator`: `=>` is one Arrow token whose text is only its final `>`; every
   * other operator is one character; an unrecognised character is an error and the
   * position still moves past it.
   */
  function ScanOperator(input: string, start: nat): (r: Scanned)
    requires start < |input|
    ensures
      var arrow := input[start] == '=' && start + 1 < |input| && input[start + 1] == '>';
      && (arrow ==> r == Scanned(Ok(Token(Arrow, ">", start, start + 2)), start + 2))
      && (!arrow && Punctuation(input[start]).Some? ==>
            r == Scanned(Ok(Token(Punctuation(input[start]).value, [input[start]], start, start + 1)), start + 1))
      && (!arrow && Punctuation(input[start]).None? ==>
            r == Scanned(Err(LexingError.UnexpectedEndOfFileError), start + 1))
  {
    if input[start] == '=' && CharAt(input, start + 1) == Some('>') then
      assert input[start + 1..start + 2] == [input[start + 1]];
      Scanned(Ok(Token(Arrow, input[start + 1..start + 2], start, start + 2)), start + 2)
    else
      match Punctuation(input[start])
      case Some(t) =>
        assert input[start..start + 1] == [input[start]];
        Scanned(Ok(Token(t, input[start..start + 1], start, start + 1)), start + 1)
      case None => Scanned(Err(LexingError.UnexpectedEndOfFileError), start + 1)
  }

  /** `scan_token`: dispatch on the first character of the lexeme. */
  function ScanToken(input: string, start: nat): (r: Scanned)
    requires start < |input|
    ensures start < r.pos <= |input|
    ensures r.slot.Ok? ==>
      && r.slot.value.tokenType != EOF
      && r.slot.value.start == start && r.slot.value.end == r.pos
  {
    if input[start] == '"' then ScanStringLiteral(input, start)
    else if IsDigit(input[start]) then ScanNumericLiteral(input, start)
    else if IsIdentifierStart(input[start]) then ScanIdentifier(input, start)
    else ScanOperator(input, start)
  }

  /** Only whitespace lies between `pos` and the end of the input. */
  predicate OnlyWhitespaceFrom(input: string, pos: nat) {
    forall i | pos <= i < |input| :: IsWhitespace(input[i])
  }

  /**
   * One call of `Lexer::scan` from position `pos`. When only whitespace remains the
   * slot is the synthetic EOF token with empty text at the end of the input;
   * otherwise the position strictly advances.
   */
  function ScanAt(input: string, pos: nat): (r: Scanned)
    ensures pos <= r.pos
    ensures pos <= |input| ==> r.pos <= |input|
    ensures IsEof(r.slot) <==> OnlyWhitespaceFrom(input, pos)
    ensures OnlyWhitespaceFrom(input, pos) ==>
      var p := if pos <= |input| then |input| else pos;
      r == Scanned(Ok(Token(EOF, "", p, p)), p)
    ensures !OnlyWhitespaceFrom(input, pos) ==>
      && pos < r.pos
      && (r.slot.Ok? ==> SkipWhitespace(input, pos) == r.slot.value.start < r.slot.value.end == r.pos)
  {
    var p := SkipWhitespace(input, pos);
    if p < |input| then ScanToken(input, p)
    else Scanned(Ok(Token(EOF, "", p, p)), p)
  }

  /** Scanning again from where an EOF token was produced produces the same EOF. */
  lemma EofRepeats(input: string, pos: nat)
    requires IsEof(ScanAt(input, pos).slot)
    ensures ScanAt(input, ScanAt(input, pos).pos) == ScanAt(input, pos)
  {
  }

  /** The state of `Lexer`: input, position and the current slot (None before the first scan). */
  datatype LexerState = LexerState(input: string, pos: nat, current: Option<Slot>)

  function NewLexer(input: string): LexerState {
    LexerState(input, 0, None)
  }

  /** `Lexer::scan` (and `next`): scan from the current position and store the slot. */
  function Scan(lx: LexerState): (r: LexerState)
    ensures r.input == lx.input && r.current.Some?
    ensures r.current.value == ScanAt(lx.input, lx.pos).slot && r.pos == ScanAt(lx.input, lx.pos).pos
  {
    var s := ScanAt(lx.input, lx.pos);
    LexerState(lx.input, s.pos, Some(s.slot))
  }

  /** `f` applied `k` times. */
  function Iterate<S>(f: S -> S, s: S, k: nat): S
    decreases k
  {
    if k == 0 then s else Iterate(f, f(s), k - 1)
  }

  /** The lexer after `k` calls of `next`. */
  function Scans(lx: LexerState, k: nat): LexerState {
    Iterate(Scan, lx, k)
  }

  /** `Lexer::get`: the current token, absent when nothing was scanned or the slot holds an error. */
  function Get(current: Option<Slot>): (t: Option<Token>)
    ensures t.Some? <==> current.Some? && current.value.Ok?
    ensures t.Some? ==> current.value.value == t.value
  {
    match current
    case Some(Ok(token)) => Some(token)
    case _ => None
  }

  /** `Lexer::get_type`: the type of the current token, absent exactly when `Get` is. */
  function GetType(current: Option<Slot>): (t: Option<TokenType>)
    ensures t.Some? <==> current.Some? && current.value.Ok?
    ensures t.Some? ==> current.value.value.tokenType == t.value
  {
    match current
    case Some(Ok(token)) => Some(token.tokenType)
    case _ => None
  }

  /**
   * A stream as the parser sees it: every slot before the last is a real token, and
   * the last is EOF or a lexing error (after which the parser never advances).
   */
  predicate WellFormedStream(ts: seq<Slot>) {
    && |ts| > 0
    && (forall i | 0 <= i < |ts| - 1 :: ts[i].Ok? && ts[i].value.tokenType != EOF)
    && (ts[|ts| - 1].Err? || IsEof(ts[|ts| - 1]))
  }

  /** The successive scans from `pos`, up to and including the first EOF or error. */
  function TokensFrom(input: string, pos: nat): (ts: seq<Slot>)
    requires pos <= |input|
    ensures WellFormedStream(ts)
    ensures ts[0] == ScanAt(input, pos).slot
    decreases |input| - pos
  {
    var s := ScanAt(input, pos);
    if s.slot.Err? || IsEof(s.slot) then [s.slot] else [s.slot] + TokensFrom(input, s.pos)
  }

  /** The whole token stream of `input`. */
  function Tokenize(input: string): (ts: seq<Slot>)
    ensures WellFormedStream(ts)
  {
    TokensFrom(input, 0)
  }

  /** The k-th slot of the stream is exactly the lexer's current slot after k scans. */
  lemma {:induction false} ScansFollowStream(input: string, pos: nat, current: Option<Slot>, k: nat)
    requires pos <= |input|
    requires 1 <= k <= |TokensFrom(input, pos)|
    ensures Scans(LexerState(input, pos, current), k).current == Some(TokensFrom(input, pos)[k - 1])
    decreases k
  {
    var lx := LexerState(input, pos, current);
    var s := ScanAt(input, pos);
    assert Scan(lx) == LexerState(input, s.pos, Some(s.slot));
    assert Scans(lx, k) == Scans(Scan(lx), k - 1);
    if k > 1 {
      assert !(s.slot.Err? || IsEof(s.slot));
      assert TokensFrom(input, pos) == [s.slot] + TokensFrom(input, s.pos);
      ScansFollowStream(input, s.pos, Some(s.slot), k - 1);
    }
  }

  lemma {:induction false} IterateCompose<S>(f: S -> S, s: S, a: nat, b: nat)
    ensures Iterate(f, s, a + b) == Iterate(f, Iterate(f, s, a), b)
    decreases a
  {
    if a > 0 {
      IterateCompose(f, f(s), a - 1, b);
    }
  }

  /** After the last slot of a stream that ends in EOF, scanning leaves the lexer unchanged. */
  lemma {:induction false} StreamEndIsFixedPoint(input: string, pos: nat, current: Option<Slot>)
    requires pos <= |input|
    requires IsEof(TokensFrom(input, pos)[|TokensFrom(input, pos)| - 1])
    ensures
      var done := Scans(LexerState(input, pos, current), |TokensFrom(input, pos)|);
      Scan(done) == done
    decreases |input| - pos
  {
    var lx := LexerState(input, pos, current);
    var s := ScanAt(input, pos);
    assert Scan(lx) == LexerState(input, s.pos, Some(s.slot));
    var n := |TokensFrom(input, pos)|;
    assert Scans(lx, n) == Scans(Scan(lx), n - 1);
    if IsEof(s.slot) {
      EofRepeats(input, pos);
    } else {
      assert TokensFrom(input, pos) == [s.slot] + TokensFrom(input, s.pos);
      StreamEndIsFixedPoint(input, s.pos, Some(s.slot));
    }
  }

  lemma {:induction false} FixedPointStays<S>(f: S -> S, s: S, k: nat)
    requires f(s) == s
    ensures Iterate(f, s, k) == s
    decreases k
  {
    if k > 0 {
      FixedPointStays(f, f(s), k - 1);
    }
  }

  /**
   * Once a stream has ended in EOF, every later scan of the lexer yields that same EOF
   * slot, so a parser can always peek a current token.
   */
  lemma EofForever(input: string, j: nat)
    requires IsEof(Tokenize(input)[|Tokenize(input)| - 1])
    ensures
      var ts := Tokenize(input);
      Scans(NewLexer(input), |ts| + j).current == Some(ts[|ts| - 1])
  {
    var ts := Tokenize(input);
    var n := |ts|;
    var done := Scans(NewLexer(input), n);
    ScansFollowStream(input, 0, None, n);
    StreamEndIsFixedPoint(input, 0, None);
    FixedPointStays(Scan, done, j);
    IterateCompose(Scan, NewLexer(input), n, j);
    assert Scans(NewLexer(input), n + j) == done;
  }
}
