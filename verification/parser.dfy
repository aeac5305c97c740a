/**
 * The parsing combinators of src/parser.rs over a cursor on the token stream.
 *
 * A cursor is the stream of slots the lexer produces plus the number of `next` calls
 * made so far: index 0 is the lexer before its first scan (no current token), and
 * index k reads slot k - 1. Every parser returns the cursor it leaves behind, on
 * failure as well, because `try_parse_prefixed` swallows a failure but keeps whatever
 * the failed element consumed.
 */
module Parser {
  import opened Wrappers
  import opened Errors
  import opened Lexer

  datatype Cursor = Cursor(tokens: seq<Slot>, index: nat)

  /** The lexer's current slot. Past the end of the stream there is none. */
  function Current(c: Cursor): Option<Slot> {
    if 1 <= c.index <= |c.tokens| then Some(c.tokens[c.index - 1]) else None
  }

  function CurrentToken(c: Cursor): Option<Token> {
    Get(Current(c))
  }

  function CurrentType(c: Cursor): Option<TokenType> {
    GetType(Current(c))
  }

  /** `lexer.next()`. */
  function Next(c: Cursor): Cursor {
    c.(index := c.index + 1)
  }

  /** The number of slots that can still be consumed: the termination measure of every parser. */
  function Remaining(c: Cursor): nat {
    if c.index <= |c.tokens| then |c.tokens| + 1 - c.index else 0
  }

  /** Advancing past a present token strictly decreases the measure. */
  lemma NextShrinks(c: Cursor)
    requires CurrentType(c).Some?
    ensures Remaining(Next(c)) == Remaining(c) - 1
  {
  }

  /** A current token of type `t` is a token of that type in the stream. */
  lemma CurrentTypeIsInStream(c: Cursor, t: TokenType)
    requires CurrentType(c) == Some(t)
    ensures exists k | 0 <= k < |c.tokens| :: c.tokens[k].Ok? && c.tokens[k].value.tokenType == t
  {
    assert c.tokens[c.index - 1].Ok? && c.tokens[c.index - 1].value.tokenType == t;
  }

  /** A parser's outcome and the cursor it leaves. */
  datatype Parsed<T> = Parsed(outcome: Result<T, ParsingError>, rest: Cursor)

  /**
   * `r` stays on the same stream, never moves backwards, and consumes at least one slot
   * when it succeeds.
   */
  predicate Consumes<T>(c: Cursor, r: Parsed<T>) {
    && r.rest.tokens == c.tokens
    && c.index <= r.rest.index
    && Remaining(r.rest) <= Remaining(c)
    && (r.outcome.Ok? ==> Remaining(r.rest) < Remaining(c))
  }

  /** `element` may be applied to any cursor within `bound`, and it `Consumes` there. */
  ghost predicate Shrinks<T>(element: Cursor --> Parsed<T>, bound: nat) {
    forall x: Cursor | Remaining(x) <= bound :: element.requires(x) && Consumes(x, element(x))
  }

  /** `try_consume_token`: advance exactly when the current token has the expected type. */
  function TryConsumeToken(c: Cursor, expected: TokenType): (r: (bool, Cursor))
    ensures r.0 <==> CurrentType(c) == Some(expected)
    ensures r.1 == if r.0 then Next(c) else c
  {
    if CurrentType(c) == Some(expected) then (true, Next(c)) else (false, c)
  }

  /** `parse_expected`: consume one token of the expected type or fail without consuming. */
  function ParseExpected(c: Cursor, expected: TokenType): (r: Parsed<()>)
    ensures r.outcome.Ok? <==> CurrentType(c) == Some(expected)
    ensures r.rest == if r.outcome.Ok? then Next(c) else c
    ensures Consumes(c, r)
  {
    if CurrentType(c) == Some(expected) then Parsed(Ok(()), Next(c))
    else Parsed(Err(ParsingError.UnexpectedEndOfFileError), c)
  }

  /** `parse_identifier`: the text of a current Identifier token, which is consumed. */
  function ParseIdentifier(c: Cursor): (r: Parsed<string>)
    ensures r.outcome.Ok? <==> CurrentType(c) == Some(Identifier)
    ensures r.outcome.Ok? ==> r.outcome.value == CurrentToken(c).value.text && r.rest == Next(c)
    ensures r.outcome.Err? ==> r.rest == c
    ensures Consumes(c, r)
  {
    match CurrentToken(c)
    case Some(token) =>
      if token.tokenType == Identifier then Parsed(Ok(token.text), Next(c))
      else Parsed(Err(ParsingError.UnexpectedEndOfFileError), c)
    case None => Parsed(Err(ParsingError.UnexpectedEndOfFileError), c)
  }

  /** The cursor before the last `next` call. */
  function Previous(c: Cursor): Cursor
    requires c.index > 0
  {
    c.(index := c.index - 1)
  }

  /**
   * `parse_sequence`: elements until the terminator is consumed, each optionally
   * followed by a separator. A terminator in first position gives the empty sequence;
   * the first element failure is returned as it is, at the cursor it left.
   */
  function ParseSequence<T>(element: Cursor --> Parsed<T>, separator: TokenType, terminator: TokenType,
                            bound: nat, c: Cursor): (r: Parsed<seq<T>>)
    requires Remaining(c) <= bound
    requires Shrinks(element, bound)
    ensures Consumes(c, r)
    ensures r.outcome.Ok? ==> r.rest.index > c.index && CurrentType(Previous(r.rest)) == Some(terminator)
    ensures CurrentType(c) == Some(terminator) ==> r == Parsed(Ok([]), Next(c))
    ensures CurrentType(c) != Some(terminator) ==>
      && (element(c).outcome.Err? ==> r == Parsed(Err(element(c).outcome.error), element(c).rest))
      && (r.outcome.Ok? ==> |r.outcome.value| >= 1 && element(c).outcome == Ok(r.outcome.value[0]))
    decreases Remaining(c)
  {
    var (done, c1) := TryConsumeToken(c, terminator);
    if done then assert Previous(c1) == c; Parsed(Ok([]), c1)
    else
      var first := element(c);
      if first.outcome.Err? then Parsed(Err(first.outcome.error), first.rest)
      else
        var (_, c2) := TryConsumeToken(first.rest, separator);
        var more := ParseSequence(element, separator, terminator, bound, c2);
        if more.outcome.Err? then Parsed(Err(more.outcome.error), more.rest)
        else Parsed(Ok([first.outcome.value] + more.outcome.value), more.rest)
  }

  /** An element followed by a separator puts that element in front of the rest of the list. */
  lemma SequenceMore<T>(element: Cursor --> Parsed<T>, separator: TokenType, terminator: TokenType,
                        bound: nat, c: Cursor, x: T, d: Cursor, xs: seq<T>, e: Cursor)
    requires Remaining(c) <= bound && Shrinks(element, bound)
    requires CurrentType(c) != Some(terminator)
    requires element(c) == Parsed(Ok(x), d)
    requires CurrentType(d) == Some(separator)
    requires ParseSequence(element, separator, terminator, bound, Next(d)) == Parsed(Ok(xs), e)
    ensures ParseSequence(element, separator, terminator, bound, c) == Parsed(Ok([x] + xs), e)
  {
    assert Remaining(d) < Remaining(c);
  }

  /**
   * A missing separator is not diagnosed: an element followed by anything but the
   * separator is put in front of the list that continues right there.
   */
  lemma SequenceWithoutSeparator<T>(element: Cursor --> Parsed<T>, separator: TokenType, terminator: TokenType,
                                    bound: nat, c: Cursor, x: T, d: Cursor, xs: seq<T>, e: Cursor)
    requires Remaining(c) <= bound && Shrinks(element, bound)
    requires CurrentType(c) != Some(terminator)
    requires element(c) == Parsed(Ok(x), d)
    requires CurrentType(d) != Some(separator)
    requires ParseSequence(element, separator, terminator, bound, d) == Parsed(Ok(xs), e)
    ensures ParseSequence(element, separator, terminator, bound, c) == Parsed(Ok([x] + xs), e)
  {
    var (_, c2) := TryConsumeToken(d, separator);
    assert c2 == d;
    assert Remaining(d) < Remaining(c);
  }

  /** An element followed directly by the terminator ends the list. */
  lemma SequenceLast<T>(element: Cursor --> Parsed<T>, separator: TokenType, terminator: TokenType,
                        bound: nat, c: Cursor, x: T, d: Cursor)
    requires Remaining(c) <= bound && Shrinks(element, bound)
    requires CurrentType(c) != Some(terminator)
    requires element(c) == Parsed(Ok(x), d)
    requires CurrentType(d) == Some(terminator) && separator != terminator
    ensures ParseSequence(element, separator, terminator, bound, c) == Parsed(Ok([x]), Next(d))
  {
    var (done, c1) := TryConsumeToken(c, terminator);
    assert !done && c1 == c;
    var (_, c2) := TryConsumeToken(d, separator);
    assert c2 == d;
    assert Remaining(d) < Remaining(c);
    var more := ParseSequence(element, separator, terminator, bound, c2);
    assert more == Parsed(Ok([]), Next(d));
    assert [x] + more.outcome.value == [x];
  }

  /**
   * `try_parse_prefixed`: when the prefix is absent nothing is consumed and the result
   * is None; when it is present it is consumed, and a failure of the element is
   * swallowed into None while the element's consumption stays.
   */
  function TryParsePrefixed<T>(element: Cursor --> Parsed<T>, prefix: TokenType, bound: nat,
                               c: Cursor): (r: (Option<T>, Cursor))
    requires Remaining(c) <= bound
    requires Shrinks(element, bound)
    ensures r.1.tokens == c.tokens && c.index <= r.1.index && Remaining(r.1) <= Remaining(c)
    ensures CurrentType(c) != Some(prefix) ==> r == (None, c)
    ensures CurrentType(c) == Some(prefix) ==>
      && Remaining(r.1) < Remaining(c)
      && r.1 == element(Next(c)).rest
      && (r.0.Some? <==> element(Next(c)).outcome.Ok?)
      && (r.0.Some? ==> r.0.value == element(Next(c)).outcome.value)
  {
    var (present, c1) := TryConsumeToken(c, prefix);
    if present then
      var p := element(c1);
      match p.outcome
      case Ok(x) => (Some(x), p.rest)
      case Err(_) => (None, p.rest)
    else (None, c)
  }

  /**
   * A lexing error in the current slot, like an unprimed lexer, makes every token test
   * fail without consuming anything.
   */
  lemma NoTokenFailsEveryTest(c: Cursor, t: TokenType)
    requires CurrentType(c).None?
    ensures TryConsumeToken(c, t) == (false, c)
    ensures ParseExpected(c, t) == Parsed(Err(ParsingError.UnexpectedEndOfFileError), c)
    ensures ParseIdentifier(c) == Parsed(Err(ParsingError.UnexpectedEndOfFileError), c)
  {
  }

  /**
   * The cursor on the stream of `input` reads, at every index up to the end of the
   * stream, exactly the current slot of the lexer after that many `next` calls.
   */
  lemma CursorFollowsLexer(input: string, k: nat)
    requires k <= |Tokenize(input)|
    ensures Current(Cursor(Tokenize(input), k)) == Scans(NewLexer(input), k).current
  {
    if k > 0 {
      ScansFollowStream(input, 0, None, k);
    }
  }
}
