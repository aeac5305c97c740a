/**
 * Parsing is a left inverse of printing: every production of module Grammar, started on
 * the tokens module Printer gives a printable tree, returns that tree and stops right
 * after those tokens.
 *
 * `Reads(c, ts)` says the lexer behind cursor `c` is about to deliver `ts`. A production
 * may look at the token after its own text, so each lemma names what may follow:
 * anything after a type or a list, and, after an expression, anything but the `<`, `(`
 * or `=` that would extend it.
 */
module RoundTrip {
  import opened Wrappers
  import opened Lexer
  import opened Parser
  import opened Syntax
  import opened Grammar
  import opened Printer

  /** The current slot of `c` and the ones after it are `ts`. */
  predicate Reads(c: Cursor, ts: seq<Slot>) {
    && 1 <= c.index
    && c.index - 1 + |ts| <= |c.tokens|
    && c.tokens[c.index - 1..c.index - 1 + |ts|] == ts
  }

  /** The cursor once the tokens `ts` have been consumed. */
  function After(c: Cursor, ts: seq<Slot>): Cursor {
    c.(index := c.index + |ts|)
  }

  /** A token that cannot continue an expression. */
  predicate EndsExpression(c: Cursor) {
    CurrentType(c) != Some(LessThan) && CurrentType(c) != Some(OpenParen) && CurrentType(c) != Some(Equals)
  }

  lemma ReadsSplit(c: Cursor, a: seq<Slot>, b: seq<Slot>)
    requires Reads(c, a + b)
    ensures Reads(c, a) && Reads(After(c, a), b)
    ensures After(After(c, a), b) == After(c, a + b)
  {
    var s := c.index - 1;
    assert c.tokens[s..s + |a|] == c.tokens[s..s + |a + b|][..|a|];
    assert c.tokens[s + |a|..s + |a| + |b|] == c.tokens[s..s + |a + b|][|a|..];
  }

  lemma ReadsFirst(c: Cursor, ts: seq<Slot>)
    requires Reads(c, ts) && ts != []
    ensures Current(c) == Some(ts[0]) && CurrentType(c) == FirstType(ts)
  {
    assert c.tokens[c.index - 1] == c.tokens[c.index - 1..c.index - 1 + |ts|][0];
  }

  lemma HeadAndTail<T>(s: seq<T>)
    requires s != []
    ensures [s[0]] + s[1..] == s
  {
  }

  lemma Singleton<T>(s: seq<T>)
    requires |s| == 1
    ensures [s[0]] == s
  {
  }

  /** The tokens of a list, split after its first element and the separator behind it. */
  lemma ReadsElementThenSeparator(c: Cursor, p: seq<Slot>, separator: TokenType, rest: seq<Slot>)
    requires Reads(c, p + ([Mark(separator)] + rest))
    ensures Reads(c, p) && CurrentType(After(c, p)) == Some(separator)
    ensures Reads(Next(After(c, p)), rest)
    ensures Remaining(Next(After(c, p))) <= Remaining(c)
    ensures After(Next(After(c, p)), rest) == After(c, p + ([Mark(separator)] + rest))
  {
    ReadsSplit(c, p, [Mark(separator)] + rest);
    ReadsSplit(After(c, p), [Mark(separator)], rest);
    ReadsFirst(After(c, p), [Mark(separator)]);
  }

  /** A token followed by more tokens. */
  lemma ReadsMarkFirst(c: Cursor, m: TokenType, rest: seq<Slot>)
    requires Reads(c, [Mark(m)] + rest)
    ensures CurrentType(c) == Some(m)
    ensures Reads(Next(c), rest)
    ensures After(Next(c), rest) == After(c, [Mark(m)] + rest)
  {
    ReadsSplit(c, [Mark(m)], rest);
    ReadsFirst(c, [Mark(m)]);
  }

  /** Tokens followed by a last token. */
  lemma ReadsThenMark(c: Cursor, ts: seq<Slot>, m: TokenType)
    requires Reads(c, ts + [Mark(m)])
    ensures Reads(c, ts)
    ensures CurrentType(After(c, ts)) == Some(m)
    ensures Next(After(c, ts)) == After(c, ts + [Mark(m)])
  {
    ReadsSplit(c, ts, [Mark(m)]);
    ReadsFirst(After(c, ts), [Mark(m)]);
  }

  lemma TypeNodeElementIs(bound: nat, x: Cursor)
    requires Remaining(x) <= bound
    ensures TypeNodeElement(bound)(x) == ParseTypeNode(x)
  {
  }

  lemma ParameterElementIs(bound: nat, x: Cursor)
    requires Remaining(x) <= bound
    ensures ParameterElement(bound)(x) == ParseParameter(x)
  {
  }

  lemma PropertyDeclarationElementIs(bound: nat, x: Cursor)
    requires Remaining(x) <= bound
    ensures PropertyDeclarationElement(bound)(x) == ParsePropertyDeclaration(x)
  {
  }

  // ---------------------------------------------------------------------------------
  // Types, parameters and property declarations
  // ---------------------------------------------------------------------------------

  /** `TypeNode::parse` reads a printed type back. */
  lemma {:induction false} TypeNodeRoundTrip(t: TypeNode, c: Cursor)
    requires Reads(c, PrintTypeNode(t))
    ensures ParseTypeNode(c) == Parsed(Ok(t), After(c, PrintTypeNode(t)))
    decreases t, 2
  {
    match t
    case ObjectLiteralType(members) => ObjectTypeRoundTrip(t, c);
    case IdentifierType(reference) =>
      ReadsFirst(c, PrintTypeNode(t));
      IdentifierTypeSteps(c, reference);
    case SignatureDeclaration(_, _, _) => SignatureTypeRoundTrip(t, c);
  }

  lemma {:induction false} ObjectTypeRoundTrip(t: TypeNode, c: Cursor)
    requires t.ObjectLiteralType?
    requires Reads(c, PrintTypeNode(t))
    ensures ParseTypeNode(c) == Parsed(Ok(t), After(c, PrintTypeNode(t)))
    decreases t, 1
  {
    var items := PrintPropertyDeclarations(t.members);
    assert PrintTypeNode(t) == [Mark(OpenBrace)] + (items + [Mark(CloseBrace)]);
    ReadsMarkFirst(c, OpenBrace, items + [Mark(CloseBrace)]);
    ReadsThenMark(Next(c), items, CloseBrace);
    PropertyDeclarationsRoundTrip(t.members, Next(c), Remaining(Next(c)));
    ObjectTypeSteps(c, t.members, Next(After(Next(c), items)));
  }

  lemma {:induction false} SignatureTypeRoundTrip(t: TypeNode, c: Cursor)
    requires t.SignatureDeclaration?
    requires Reads(c, PrintTypeNode(t))
    ensures ParseTypeNode(c) == Parsed(Ok(t), After(c, PrintTypeNode(t)))
    decreases t, 1
  {
    var angle := AngleList(PrintTypeParameters(t.signatureTypeParameters));
    var rest := PrintSignatureRest(t);
    assert PrintTypeNode(t) == angle + ([Mark(OpenParen)] + rest);
    ReadsSplit(c, angle, [Mark(OpenParen)] + rest);
    var c2 := After(c, angle);
    ReadsMarkFirst(c2, OpenParen, rest);
    SignatureRestRoundTrip(t, Next(c2));
    if t.signatureTypeParameters == [] {
      assert c2 == c;
      SignatureWithoutAngleSteps(c, ParseSignatureRest([], Next(c)));
    } else {
      var items := PrintTypeParameters(t.signatureTypeParameters);
      assert angle == [Mark(LessThan)] + (items + [Mark(GreaterThan)]);
      ReadsMarkFirst(c, LessThan, items + [Mark(GreaterThan)]);
      ReadsThenMark(Next(c), items, GreaterThan);
      TypeParametersRoundTrip(t.signatureTypeParameters, Next(c));
      SignatureWithAngleSteps(c, t.signatureTypeParameters, c2, ParseSignatureRest(t.signatureTypeParameters, Next(c2)));
    }
  }

  lemma ObjectTypeSteps(c: Cursor, members: seq<PropertyDeclaration>, e: Cursor)
    requires CurrentType(c) == Some(OpenBrace)
    requires ParsePropertyDeclarations(Next(c)) == Parsed(Ok(members), e)
    ensures ParseTypeNode(c) == Parsed(Ok(ObjectLiteralType(members)), e)
  {
  }

  lemma IdentifierTypeSteps(c: Cursor, reference: Identifier)
    requires Current(c) == Some(Name(reference.text))
    ensures ParseTypeNode(c) == Parsed(Ok(IdentifierType(reference)), Next(c))
  {
  }

  lemma SignatureWithoutAngleSteps(c: Cursor, r: Parsed<TypeNode>)
    requires CurrentType(c) == Some(OpenParen)
    requires ParseSignatureRest([], Next(c)) == r
    ensures ParseTypeNode(c) == r
  {
  }

  lemma SignatureWithAngleSteps(c: Cursor, typeParameters: seq<TypeParameter>, d: Cursor, r: Parsed<TypeNode>)
    requires CurrentType(c) == Some(LessThan)
    requires ParseTypeParameters(Next(c)) == Parsed(Ok(typeParameters), d)
    requires CurrentType(d) == Some(OpenParen)
    requires ParseSignatureRest(typeParameters, Next(d)) == r
    ensures ParseTypeNode(c) == r
  {
  }

  /** The rest of a signature after its `(`. */
  lemma {:induction false} SignatureRestRoundTrip(t: TypeNode, c: Cursor)
    requires t.SignatureDeclaration?
    requires Reads(c, PrintSignatureRest(t))
    ensures ParseSignatureRest(t.signatureTypeParameters, c) == Parsed(Ok(t), After(c, PrintSignatureRest(t)))
    decreases t, 0
  {
    var items := PrintParameters(t.signatureParameters);
    var returned := PrintTypeNode(t.signatureReturnType);
    assert PrintSignatureRest(t) == items + ([Mark(CloseParen)] + ([Mark(Arrow)] + returned));
    ReadsElementThenSeparator(c, items, CloseParen, [Mark(Arrow)] + returned);
    var d := After(c, items);
    ReadsMarkFirst(Next(d), Arrow, returned);
    ParametersRoundTrip(t.signatureParameters, c, Remaining(c));
    TypeNodeRoundTrip(t.signatureReturnType, Next(Next(d)));
    SignatureRestSteps(t.signatureTypeParameters, c, t.signatureParameters, Next(d), t.signatureReturnType,
                       After(Next(Next(d)), returned));
  }

  lemma SignatureRestSteps(typeParameters: seq<TypeParameter>, c: Cursor, parameters: seq<Parameter>, d: Cursor,
                           returnType: TypeNode, e: Cursor)
    requires ParseParameters(c) == Parsed(Ok(parameters), d)
    requires CurrentType(d) == Some(Arrow)
    requires ParseTypeNode(Next(d)) == Parsed(Ok(returnType), e)
    ensures ParseSignatureRest(typeParameters, c) == Parsed(Ok(SignatureDeclaration(typeParameters, parameters, returnType)), e)
  {
  }

  /** An optional `: Type` is read back, provided no `:` follows an absent one. */
  lemma {:induction false} AnnotationRoundTrip(t: Option<TypeNode>, c: Cursor)
    requires Reads(c, PrintAnnotation(t))
    requires t.None? ==> CurrentType(c) != Some(Colon)
    ensures ParseAnnotation(c) == (t, After(c, PrintAnnotation(t)))
    decreases t, 2
  {
    if t.Some? {
      var printed := PrintTypeNode(t.value);
      assert PrintAnnotation(t) == [Mark(Colon)] + printed;
      ReadsMarkFirst(c, Colon, printed);
      TypeNodeRoundTrip(t.value, Next(c));
      AnnotationSteps(c, t.value, After(Next(c), printed));
    } else {
      assert After(c, []) == c;
    }
  }

  lemma AnnotationSteps(c: Cursor, t: TypeNode, rest: Cursor)
    requires CurrentType(c) == Some(Colon)
    requires ParseTypeNode(Next(c)) == Parsed(Ok(t), rest)
    ensures ParseAnnotation(c) == (Some(t), rest)
  {
  }

  lemma {:induction false} ParameterRoundTrip(p: Parameter, c: Cursor)
    requires Reads(c, PrintParameter(p))
    requires CurrentType(After(c, PrintParameter(p))) != Some(Colon)
    ensures ParseParameter(c) == Parsed(Ok(p), After(c, PrintParameter(p)))
    decreases p, 1
  {
    ReadsSplit(c, [Name(p.parameterName.text)], PrintAnnotation(p.parameterType));
    ReadsFirst(c, PrintParameter(p));
    AnnotationRoundTrip(p.parameterType, Next(c));
  }

  lemma {:induction false} PropertyDeclarationRoundTrip(pd: PropertyDeclaration, c: Cursor)
    requires Reads(c, PrintPropertyDeclaration(pd))
    requires CurrentType(After(c, PrintPropertyDeclaration(pd))) != Some(Colon)
    ensures ParsePropertyDeclaration(c) == Parsed(Ok(pd), After(c, PrintPropertyDeclaration(pd)))
    decreases pd, 1
  {
    ReadsSplit(c, [Name(pd.declaredName)], PrintAnnotation(pd.declaredType));
    ReadsFirst(c, PrintPropertyDeclaration(pd));
    AnnotationRoundTrip(pd.declaredType, Next(c));
  }

  /** `,`-separated types up to `>`. */
  lemma {:induction false} TypeNodesRoundTrip(ts: seq<TypeNode>, c: Cursor, bound: nat)
    requires Remaining(c) <= bound
    requires Reads(c, PrintTypeNodes(ts))
    requires CurrentType(After(c, PrintTypeNodes(ts))) == Some(GreaterThan)
    ensures ParseSequence(TypeNodeElement(bound), Comma, GreaterThan, bound, c)
         == Parsed(Ok(ts), Next(After(c, PrintTypeNodes(ts))))
    decreases ts, 1
  {
    if |ts| == 1 {
      TypeNodesLastRoundTrip(ts, c, bound);
    } else if |ts| > 1 {
      TypeNodesMoreRoundTrip(ts, c, bound);
    }
  }

  lemma {:induction false} TypeNodesLastRoundTrip(ts: seq<TypeNode>, c: Cursor, bound: nat)
    requires |ts| == 1
    requires Remaining(c) <= bound
    requires Reads(c, PrintTypeNodes(ts))
    requires CurrentType(After(c, PrintTypeNodes(ts))) == Some(GreaterThan)
    ensures ParseSequence(TypeNodeElement(bound), Comma, GreaterThan, bound, c)
         == Parsed(Ok(ts), Next(After(c, PrintTypeNodes(ts))))
    decreases ts, 0
  {
    var p := PrintTypeNode(ts[0]);
    ReadsFirst(c, PrintTypeNodes(ts));
    assert PrintTypeNodes(ts) == p;
    TypeNodeRoundTrip(ts[0], c);
    TypeNodeElementIs(bound, c);
    SequenceLast(TypeNodeElement(bound), Comma, GreaterThan, bound, c, ts[0], After(c, p));
    Singleton(ts);
  }

  lemma {:induction false} TypeNodesMoreRoundTrip(ts: seq<TypeNode>, c: Cursor, bound: nat)
    requires |ts| > 1
    requires Remaining(c) <= bound
    requires Reads(c, PrintTypeNodes(ts))
    requires CurrentType(After(c, PrintTypeNodes(ts))) == Some(GreaterThan)
    ensures ParseSequence(TypeNodeElement(bound), Comma, GreaterThan, bound, c)
         == Parsed(Ok(ts), Next(After(c, PrintTypeNodes(ts))))
    decreases ts, 0
  {
    var p := PrintTypeNode(ts[0]);
    ReadsFirst(c, PrintTypeNodes(ts));
    var rest := PrintTypeNodes(ts[1..]);
    assert PrintTypeNodes(ts) == p + ([Mark(Comma)] + rest);
    ReadsElementThenSeparator(c, p, Comma, rest);
    TypeNodeRoundTrip(ts[0], c);
    TypeNodeElementIs(bound, c);
    TypeNodesRoundTrip(ts[1..], Next(After(c, p)), bound);
    SequenceMore(TypeNodeElement(bound), Comma, GreaterThan, bound, c, ts[0], After(c, p), ts[1..],
                 Next(After(Next(After(c, p)), rest)));
    HeadAndTail(ts);
  }

  /** `,`-separated parameters up to `)`. */
  lemma {:induction false} ParametersRoundTrip(ps: seq<Parameter>, c: Cursor, bound: nat)
    requires Remaining(c) <= bound
    requires Reads(c, PrintParameters(ps))
    requires CurrentType(After(c, PrintParameters(ps))) == Some(CloseParen)
    ensures ParseSequence(ParameterElement(bound), Comma, CloseParen, bound, c)
         == Parsed(Ok(ps), Next(After(c, PrintParameters(ps))))
    decreases ps, 1
  {
    if |ps| == 1 {
      ParametersLastRoundTrip(ps, c, bound);
    } else if |ps| > 1 {
      ParametersMoreRoundTrip(ps, c, bound);
    }
  }

  lemma {:induction false} ParametersLastRoundTrip(ps: seq<Parameter>, c: Cursor, bound: nat)
    requires |ps| == 1
    requires Remaining(c) <= bound
    requires Reads(c, PrintParameters(ps))
    requires CurrentType(After(c, PrintParameters(ps))) == Some(CloseParen)
    ensures ParseSequence(ParameterElement(bound), Comma, CloseParen, bound, c)
         == Parsed(Ok(ps), Next(After(c, PrintParameters(ps))))
    decreases ps, 0
  {
    var p := PrintParameter(ps[0]);
    ReadsFirst(c, PrintParameters(ps));
    assert PrintParameters(ps) == p;
    ParameterRoundTrip(ps[0], c);
    ParameterElementIs(bound, c);
    SequenceLast(ParameterElement(bound), Comma, CloseParen, bound, c, ps[0], After(c, p));
    Singleton(ps);
  }

  lemma {:induction false} ParametersMoreRoundTrip(ps: seq<Parameter>, c: Cursor, bound: nat)
    requires |ps| > 1
    requires Remaining(c) <= bound
    requires Reads(c, PrintParameters(ps))
    requires CurrentType(After(c, PrintParameters(ps))) == Some(CloseParen)
    ensures ParseSequence(ParameterElement(bound), Comma, CloseParen, bound, c)
         == Parsed(Ok(ps), Next(After(c, PrintParameters(ps))))
    decreases ps, 0
  {
    var p := PrintParameter(ps[0]);
    ReadsFirst(c, PrintParameters(ps));
    var rest := PrintParameters(ps[1..]);
    assert PrintParameters(ps) == p + ([Mark(Comma)] + rest);
    ReadsElementThenSeparator(c, p, Comma, rest);
    ParameterRoundTrip(ps[0], c);
    ParameterElementIs(bound, c);
    ParametersRoundTrip(ps[1..], Next(After(c, p)), bound);
    SequenceMore(ParameterElement(bound), Comma, CloseParen, bound, c, ps[0], After(c, p), ps[1..],
                 Next(After(Next(After(c, p)), rest)));
    HeadAndTail(ps);
  }

  /** `,`-separated property declarations up to `}`. */
  lemma {:induction false} PropertyDeclarationsRoundTrip(pds: seq<PropertyDeclaration>, c: Cursor, bound: nat)
    requires Remaining(c) <= bound
    requires Reads(c, PrintPropertyDeclarations(pds))
    requires CurrentType(After(c, PrintPropertyDeclarations(pds))) == Some(CloseBrace)
    ensures ParseSequence(PropertyDeclarationElement(bound), Comma, CloseBrace, bound, c)
         == Parsed(Ok(pds), Next(After(c, PrintPropertyDeclarations(pds))))
    decreases pds, 1
  {
    if |pds| == 1 {
      PropertyDeclarationsLastRoundTrip(pds, c, bound);
    } else if |pds| > 1 {
      PropertyDeclarationsMoreRoundTrip(pds, c, bound);
    }
  }

  lemma {:induction false} PropertyDeclarationsLastRoundTrip(pds: seq<PropertyDeclaration>, c: Cursor, bound: nat)
    requires |pds| == 1
    requires Remaining(c) <= bound
    requires Reads(c, PrintPropertyDeclarations(pds))
    requires CurrentType(After(c, PrintPropertyDeclarations(pds))) == Some(CloseBrace)
    ensures ParseSequence(PropertyDeclarationElement(bound), Comma, CloseBrace, bound, c)
         == Parsed(Ok(pds), Next(After(c, PrintPropertyDeclarations(pds))))
    decreases pds, 0
  {
    var p := PrintPropertyDeclaration(pds[0]);
    ReadsFirst(c, PrintPropertyDeclarations(pds));
    assert PrintPropertyDeclarations(pds) == p;
    PropertyDeclarationRoundTrip(pds[0], c);
    PropertyDeclarationElementIs(bound, c);
    SequenceLast(PropertyDeclarationElement(bound), Comma, CloseBrace, bound, c, pds[0], After(c, p));
    Singleton(pds);
  }

  lemma {:induction false} PropertyDeclarationsMoreRoundTrip(pds: seq<PropertyDeclaration>, c: Cursor, bound: nat)
    requires |pds| > 1
    requires Remaining(c) <= bound
    requires Reads(c, PrintPropertyDeclarations(pds))
    requires CurrentType(After(c, PrintPropertyDeclarations(pds))) == Some(CloseBrace)
    ensures ParseSequence(PropertyDeclarationElement(bound), Comma, CloseBrace, bound, c)
         == Parsed(Ok(pds), Next(After(c, PrintPropertyDeclarations(pds))))
    decreases pds, 0
  {
    var p := PrintPropertyDeclaration(pds[0]);
    ReadsFirst(c, PrintPropertyDeclarations(pds));
    var rest := PrintPropertyDeclarations(pds[1..]);
    assert PrintPropertyDeclarations(pds) == p + ([Mark(Comma)] + rest);
    ReadsElementThenSeparator(c, p, Comma, rest);
    PropertyDeclarationRoundTrip(pds[0], c);
    PropertyDeclarationElementIs(bound, c);
    PropertyDeclarationsRoundTrip(pds[1..], Next(After(c, p)), bound);
    SequenceMore(PropertyDeclarationElement(bound), Comma, CloseBrace, bound, c, pds[0], After(c, p), pds[1..],
                 Next(After(Next(After(c, p)), rest)));
    HeadAndTail(pds);
  }

  lemma TypeParameterRoundTrip(tp: TypeParameter, c: Cursor)
    requires Reads(c, PrintTypeParameter(tp))
    ensures ParseTypeParameter(c) == Parsed(Ok(tp), After(c, PrintTypeParameter(tp)))
  {
    ReadsFirst(c, PrintTypeParameter(tp));
  }

  /** `,`-separated type parameters up to `>`. */
  lemma {:induction false} TypeParametersRoundTrip(tps: seq<TypeParameter>, c: Cursor)
    requires Reads(c, PrintTypeParameters(tps))
    requires CurrentType(After(c, PrintTypeParameters(tps))) == Some(GreaterThan)
    ensures ParseTypeParameters(c) == Parsed(Ok(tps), Next(After(c, PrintTypeParameters(tps))))
  {
    TypeParameterListRoundTrip(tps, c, Remaining(c));
  }

  /** `,`-separated type parameters up to `>`, within any bound. */
  lemma {:induction false} TypeParameterListRoundTrip(tps: seq<TypeParameter>, c: Cursor, bound: nat)
    requires Remaining(c) <= bound
    requires Reads(c, PrintTypeParameters(tps))
    requires CurrentType(After(c, PrintTypeParameters(tps))) == Some(GreaterThan)
    ensures ParseSequence(ParseTypeParameter, Comma, GreaterThan, bound, c)
         == Parsed(Ok(tps), Next(After(c, PrintTypeParameters(tps))))
    decreases tps, 1
  {
    if |tps| == 1 {
      TypeParameterListLastRoundTrip(tps, c, bound);
    } else if |tps| > 1 {
      TypeParameterListMoreRoundTrip(tps, c, bound);
    }
  }

  lemma {:induction false} TypeParameterListLastRoundTrip(tps: seq<TypeParameter>, c: Cursor, bound: nat)
    requires |tps| == 1
    requires Remaining(c) <= bound
    requires Reads(c, PrintTypeParameters(tps))
    requires CurrentType(After(c, PrintTypeParameters(tps))) == Some(GreaterThan)
    ensures ParseSequence(ParseTypeParameter, Comma, GreaterThan, bound, c)
         == Parsed(Ok(tps), Next(After(c, PrintTypeParameters(tps))))
    decreases tps, 0
  {
    var p := PrintTypeParameter(tps[0]);
    ReadsFirst(c, PrintTypeParameters(tps));
    assert PrintTypeParameters(tps) == p;
    TypeParameterRoundTrip(tps[0], c);
    SequenceLast(ParseTypeParameter, Comma, GreaterThan, bound, c, tps[0], After(c, p));
    Singleton(tps);
  }

  lemma {:induction false} TypeParameterListMoreRoundTrip(tps: seq<TypeParameter>, c: Cursor, bound: nat)
    requires |tps| > 1
    requires Remaining(c) <= bound
    requires Reads(c, PrintTypeParameters(tps))
    requires CurrentType(After(c, PrintTypeParameters(tps))) == Some(GreaterThan)
    ensures ParseSequence(ParseTypeParameter, Comma, GreaterThan, bound, c)
         == Parsed(Ok(tps), Next(After(c, PrintTypeParameters(tps))))
    decreases tps, 0
  {
    var p := PrintTypeParameter(tps[0]);
    ReadsFirst(c, PrintTypeParameters(tps));
    var rest := PrintTypeParameters(tps[1..]);
    assert PrintTypeParameters(tps) == p + ([Mark(Comma)] + rest);
    ReadsElementThenSeparator(c, p, Comma, rest);
    TypeParameterRoundTrip(tps[0], c);
    TypeParameterListRoundTrip(tps[1..], Next(After(c, p)), bound);
    SequenceMore(ParseTypeParameter, Comma, GreaterThan, bound, c, tps[0], After(c, p), tps[1..],
                 Next(After(Next(After(c, p)), rest)));
    HeadAndTail(tps);
  }

  /** The optional `<...>` type arguments of a call. */
  lemma {:induction false} TypeArgumentsRoundTrip(ts: seq<TypeNode>, c: Cursor)
    requires Reads(c, AngleList(PrintTypeNodes(ts)))
    requires ts == [] ==> CurrentType(c) != Some(LessThan)
    ensures TypeArgumentsPart(c) == Parsed(Ok(ts), After(c, AngleList(PrintTypeNodes(ts))))
  {
    if ts != [] {
      var items := PrintTypeNodes(ts);
      ReadsSplit(c, [Mark(LessThan)], items + [Mark(GreaterThan)]);
      ReadsFirst(c, [Mark(LessThan)]);
      ReadsSplit(Next(c), items, [Mark(GreaterThan)]);
      ReadsFirst(After(Next(c), items), [Mark(GreaterThan)]);
      TypeNodesRoundTrip(ts, Next(c), Remaining(Next(c)));
    }
  }

  // ---------------------------------------------------------------------------------
  // Expressions and statements
  // ---------------------------------------------------------------------------------

  lemma ExpressionElementIs(bound: nat, x: Cursor)
    requires Remaining(x) <= bound
    ensures ExpressionElement(bound)(x) == ParseExpression(x)
  {
  }

  lemma StatementElementIs(bound: nat, x: Cursor)
    requires Remaining(x) <= bound
    ensures StatementElement(bound)(x) == ParseStatement(x)
  {
  }

  lemma PropertyAssignmentElementIs(bound: nat, x: Cursor)
    requires Remaining(x) <= bound
    ensures PropertyAssignmentElement(bound)(x) == ParsePropertyAssignment(x)
  {
  }

  /** No expression starts with a token that ends a list of them, or with a statement keyword. */
  lemma ExpressionStartsExclude(ts: seq<Slot>)
    requires StartsWithOneOf(ts, ExpressionStarts)
    ensures FirstType(ts) != Some(CloseParen) && FirstType(ts) != Some(CloseBrace)
    ensures FirstType(ts) != Some(TokenType.Var) && FirstType(ts) != Some(TokenType.Type)
    ensures FirstType(ts) != Some(TokenType.Return)
  {
  }

  /** No statement starts with a token that ends a list of them. */
  lemma StatementStartsExclude(ts: seq<Slot>)
    requires StartsWithOneOf(ts, ExpressionStarts + {TokenType.Var, TokenType.Type, TokenType.Return})
    ensures FirstType(ts) != Some(CloseBrace) && FirstType(ts) != Some(EOF)
  {
  }

  /** `Expression::parse` reads a printed expression back when nothing follows that would extend it. */
  lemma {:induction false} ExpressionRoundTrip(e: Expression, c: Cursor)
    requires WellFormedExpression(e)
    requires Reads(c, PrintExpression(e))
    requires EndsExpression(After(c, PrintExpression(e)))
    ensures ParseExpression(c) == Parsed(Ok(e), After(c, PrintExpression(e)))
    decreases e, 4
  {
    if e.Call? {
      CallRoundTrip(e, c);
    } else {
      BelowCallRoundTrip(e, c);
      NoCallSteps(c, e, After(c, PrintExpression(e)));
    }
  }

  /** A call: its callee, the optional type arguments, and the arguments in parentheses. */
  lemma {:induction false} CallRoundTrip(e: Expression, c: Cursor)
    requires e.Call? && WellFormedExpression(e)
    requires Reads(c, PrintExpression(e))
    ensures ParseExpression(c) == Parsed(Ok(e), After(c, PrintExpression(e)))
    decreases e, 3
  {
    var callee := PrintExpression(e.callee);
    var angle := AngleList(PrintTypeNodes(e.typeArguments));
    var items := PrintExpressions(e.arguments);
    assert PrintExpression(e) == callee + (angle + ([Mark(OpenParen)] + (items + [Mark(CloseParen)])));
    ReadsSplit(c, callee, angle + ([Mark(OpenParen)] + (items + [Mark(CloseParen)])));
    var d := After(c, callee);
    ReadsSplit(d, angle, [Mark(OpenParen)] + (items + [Mark(CloseParen)]));
    var d2 := After(d, angle);
    ReadsMarkFirst(d2, OpenParen, items + [Mark(CloseParen)]);
    ReadsThenMark(Next(d2), items, CloseParen);
    if e.typeArguments != [] {
      ReadsFirst(d, angle);
    } else {
      assert d2 == d;
    }
    BelowCallRoundTrip(e.callee, c);
    TypeArgumentsRoundTrip(e.typeArguments, d);
    ExpressionsRoundTrip(e.arguments, Next(d2), Remaining(Next(d2)));
    CallSteps(c, e.callee, d, e.typeArguments, d2, e.arguments, Next(After(Next(d2), items)));
  }

  /** `Expression::parse_below_call` reads back a printed expression that is not a call. */
  lemma {:induction false} BelowCallRoundTrip(e: Expression, c: Cursor)
    requires !e.Call? && WellFormedExpression(e)
    requires Reads(c, PrintExpression(e))
    requires CurrentType(After(c, PrintExpression(e))) != Some(Equals)
    requires e.Assignment? ==> EndsExpression(After(c, PrintExpression(e)))
    ensures ParseBelowCall(c) == Parsed(Ok(e), After(c, PrintExpression(e)))
    decreases e, 3
  {
    ReadsFirst(c, PrintExpression(e));
    match e
    case IdentifierExpression(name) =>
      IdentifierSteps(c, name);
    case NumericLiteral(v) =>
      DecimalRoundTrip(v);
    case StringLiteral(_) =>
    case Assignment(_, _) =>
      AssignmentRoundTrip(e, c);
    case Object(_) =>
      ObjectRoundTrip(e, c);
    case Function(_, _, _, _, _) =>
      ReadsMarkFirst(c, TokenType.Function, PrintFunctionTail(e));
      FunctionRoundTrip(e, Next(c));
  }

  lemma {:induction false} AssignmentRoundTrip(e: Expression, c: Cursor)
    requires e.Assignment? && WellFormedExpression(e)
    requires Reads(c, PrintExpression(e))
    requires EndsExpression(After(c, PrintExpression(e)))
    ensures ParseBelowCall(c) == Parsed(Ok(e), After(c, PrintExpression(e)))
    decreases e, 2
  {
    var value := PrintExpression(e.assignedValue);
    assert PrintExpression(e) == [Name(e.target.text)] + ([Mark(Equals)] + value);
    ReadsSplit(c, [Name(e.target.text)], [Mark(Equals)] + value);
    ReadsFirst(c, [Name(e.target.text)]);
    ReadsMarkFirst(Next(c), Equals, value);
    ExpressionRoundTrip(e.assignedValue, Next(Next(c)));
    AssignmentSteps(c, e.target, e.assignedValue, After(Next(Next(c)), value));
  }

  lemma {:induction false} ObjectRoundTrip(e: Expression, c: Cursor)
    requires e.Object? && WellFormedExpression(e)
    requires Reads(c, PrintExpression(e))
    ensures ParseBelowCall(c) == Parsed(Ok(e), After(c, PrintExpression(e)))
    decreases e, 2
  {
    var items := PrintPropertyAssignments(e.properties);
    assert PrintExpression(e) == [Mark(OpenBrace)] + (items + [Mark(CloseBrace)]);
    ReadsMarkFirst(c, OpenBrace, items + [Mark(CloseBrace)]);
    ReadsThenMark(Next(c), items, CloseBrace);
    PropertyAssignmentsRoundTrip(e.properties, Next(c), Remaining(Next(c)));
    ObjectSteps(c, e.properties, Next(After(Next(c), items)));
  }

  /** A function expression after `function`: the optional name, type parameters, and the rest. */
  lemma {:induction false} FunctionRoundTrip(e: Expression, c: Cursor)
    requires e.Function? && WellFormedExpression(e)
    requires Reads(c, PrintFunctionTail(e))
    ensures ParseFunction(c) == Parsed(Ok(e), After(c, PrintFunctionTail(e)))
    decreases e, 2
  {
    var name := OptionalName(e.functionName);
    var angle := AngleList(PrintTypeParameters(e.typeParameters));
    var rest := PrintFunctionRest(e);
    assert PrintFunctionTail(e) == name + (angle + rest);
    ReadsSplit(c, name, angle + rest);
    var c1 := After(c, name);
    ReadsSplit(c1, angle, rest);
    var c2 := After(c1, angle);
    ReadsFirst(c2, rest);
    if e.functionName.Some? {
      ReadsFirst(c, name);
    } else {
      assert c1 == c;
      ReadsFirst(c, angle + rest);
    }
    if e.typeParameters != [] {
      var items := PrintTypeParameters(e.typeParameters);
      assert angle == [Mark(LessThan)] + (items + [Mark(GreaterThan)]);
      ReadsMarkFirst(c1, LessThan, items + [Mark(GreaterThan)]);
      ReadsThenMark(Next(c1), items, GreaterThan);
      TypeParametersRoundTrip(e.typeParameters, Next(c1));
    } else {
      assert c2 == c1;
    }
    FunctionRestRoundTrip(e, c2);
    FunctionSteps(c, e.functionName, c1, e.typeParameters, c2, ParseFunctionRest(e.functionName, e.typeParameters, c2));
  }

  /** A function expression from its `(` on: parameters, the optional return type, and the body. */
  lemma {:induction false} FunctionRestRoundTrip(e: Expression, c: Cursor)
    requires e.Function? && WellFormedExpression(e)
    requires Reads(c, PrintFunctionRest(e))
    ensures ParseFunctionRest(e.functionName, e.typeParameters, c) == Parsed(Ok(e), After(c, PrintFunctionRest(e)))
    decreases e, 1
  {
    var items := PrintParameters(e.parameters);
    var annotation := PrintAnnotation(e.returnType);
    var body := PrintStatements(e.body);
    var block := [Mark(OpenBrace)] + (body + [Mark(CloseBrace)]);
    assert PrintFunctionRest(e) == [Mark(OpenParen)] + (items + ([Mark(CloseParen)] + (annotation + block)));
    ReadsMarkFirst(c, OpenParen, items + ([Mark(CloseParen)] + (annotation + block)));
    ReadsElementThenSeparator(Next(c), items, CloseParen, annotation + block);
    var d := Next(After(Next(c), items));
    ReadsSplit(d, annotation, block);
    var d2 := After(d, annotation);
    ReadsMarkFirst(d2, OpenBrace, body + [Mark(CloseBrace)]);
    ReadsThenMark(Next(d2), body, CloseBrace);
    if e.returnType.None? {
      assert d2 == d;
    }
    ParametersRoundTrip(e.parameters, Next(c), Remaining(Next(c)));
    AnnotationRoundTrip(e.returnType, d);
    StatementsRoundTrip(e.body, Next(d2), Remaining(Next(d2)), CloseBrace);
    FunctionRestSteps(c, e.functionName, e.typeParameters, e.parameters, d, e.returnType, d2, e.body,
                      Next(After(Next(d2), body)));
  }

  lemma {:induction false} PropertyAssignmentRoundTrip(pa: PropertyAssignment, c: Cursor)
    requires WellFormedExpression(pa.propertyValue)
    requires Reads(c, PrintPropertyAssignment(pa))
    requires EndsExpression(After(c, PrintPropertyAssignment(pa)))
    ensures ParsePropertyAssignment(c) == Parsed(Ok(pa), After(c, PrintPropertyAssignment(pa)))
    decreases pa, 1
  {
    var value := PrintExpression(pa.propertyValue);
    assert PrintPropertyAssignment(pa) == [Name(pa.propertyName.text)] + ([Mark(Colon)] + value);
    ReadsSplit(c, [Name(pa.propertyName.text)], [Mark(Colon)] + value);
    ReadsFirst(c, [Name(pa.propertyName.text)]);
    ReadsMarkFirst(Next(c), Colon, value);
    ExpressionRoundTrip(pa.propertyValue, Next(Next(c)));
    PropertyAssignmentSteps(c, pa.propertyName, pa.propertyValue, After(Next(Next(c)), value));
  }

  /** `Statement::parse` reads a printed statement back when nothing follows that would extend it. */
  lemma {:induction false} StatementRoundTrip(s: Statement, c: Cursor)
    requires WellFormedStatement(s)
    requires Reads(c, PrintStatement(s))
    requires EndsExpression(After(c, PrintStatement(s)))
    ensures ParseStatement(c) == Parsed(Ok(s), After(c, PrintStatement(s)))
    decreases s, 1
  {
    match s
    case Var(_, _, _) => VarRoundTrip(s, c);
    case TypeAlias(_, _) => TypeAliasRoundTrip(s, c);
    case ExpressionStatement(_) => ExpressionStatementRoundTrip(s, c);
    case Return(_) => ReturnRoundTrip(s, c);
  }

  lemma {:induction false} TypeAliasRoundTrip(s: Statement, c: Cursor)
    requires s.TypeAlias?
    requires Reads(c, PrintStatement(s))
    ensures ParseStatement(c) == Parsed(Ok(s), After(c, PrintStatement(s)))
    decreases s, 0
  {
    var name := [Name(s.aliasName.text)];
    var t := PrintTypeNode(s.aliased);
    assert PrintStatement(s) == [Mark(TokenType.Type)] + (name + ([Mark(Equals)] + t));
    ReadsMarkFirst(c, TokenType.Type, name + ([Mark(Equals)] + t));
    ReadsSplit(Next(c), name, [Mark(Equals)] + t);
    ReadsFirst(Next(c), name);
    ReadsMarkFirst(Next(Next(c)), Equals, t);
    TypeNodeRoundTrip(s.aliased, Next(Next(Next(c))));
    TypeAliasSteps(c, s.aliasName, s.aliased, After(Next(Next(Next(c))), t));
  }

  lemma {:induction false} ExpressionStatementRoundTrip(s: Statement, c: Cursor)
    requires s.ExpressionStatement? && WellFormedStatement(s)
    requires Reads(c, PrintStatement(s))
    requires EndsExpression(After(c, PrintStatement(s)))
    ensures ParseStatement(c) == Parsed(Ok(s), After(c, PrintStatement(s)))
    decreases s, 0
  {
    ReadsFirst(c, PrintExpression(s.expression));
    ExpressionStartsExclude(PrintExpression(s.expression));
    ExpressionRoundTrip(s.expression, c);
    ExpressionStatementSteps(c, s.expression, After(c, PrintExpression(s.expression)));
  }

  lemma {:induction false} ReturnRoundTrip(s: Statement, c: Cursor)
    requires s.Return? && WellFormedStatement(s)
    requires Reads(c, PrintStatement(s))
    requires EndsExpression(After(c, PrintStatement(s)))
    ensures ParseStatement(c) == Parsed(Ok(s), After(c, PrintStatement(s)))
    decreases s, 0
  {
    var value := PrintExpression(s.returned);
    assert PrintStatement(s) == [Mark(TokenType.Return)] + value;
    ReadsMarkFirst(c, TokenType.Return, value);
    ExpressionRoundTrip(s.returned, Next(c));
    ReturnSteps(c, s.returned, After(Next(c), value));
  }

  lemma {:induction false} VarRoundTrip(s: Statement, c: Cursor)
    requires s.Var? && WellFormedStatement(s)
    requires Reads(c, PrintStatement(s))
    requires EndsExpression(After(c, PrintStatement(s)))
    ensures ParseStatement(c) == Parsed(Ok(s), After(c, PrintStatement(s)))
    decreases s, 0
  {
    var annotation := PrintAnnotation(s.annotation);
    var value := PrintExpression(s.initializer);
    var name := [Name(s.varName.text)];
    assert PrintStatement(s) == [Mark(TokenType.Var)] + (name + (annotation + ([Mark(Equals)] + value)));
    ReadsMarkFirst(c, TokenType.Var, name + (annotation + ([Mark(Equals)] + value)));
    ReadsSplit(Next(c), name, annotation + ([Mark(Equals)] + value));
    ReadsFirst(Next(c), name);
    var d := Next(Next(c));
    ReadsSplit(d, annotation, [Mark(Equals)] + value);
    var d2 := After(d, annotation);
    ReadsMarkFirst(d2, Equals, value);
    if s.annotation.None? {
      assert d2 == d;
    }
    AnnotationRoundTrip(s.annotation, d);
    ExpressionRoundTrip(s.initializer, Next(d2));
    VarSteps(c, s.varName, s.annotation, d2, s.initializer, After(Next(d2), value));
  }

  // ---------------------------------------------------------------------------------
  // Modules
  // ---------------------------------------------------------------------------------

  /**
   * `parser::parse` reads every printable module back from its printed tokens, and
   * `Module::parse` stops right after the final EOF.
   */
  lemma ParseRoundTrip(m: Module)
    requires WellFormedModule(m)
    ensures ParseModule(Cursor(PrintModule(m), 1)) == Parsed(Ok(m), Cursor(PrintModule(m), |PrintModule(m)| + 1))
    ensures Parse(PrintModule(m)) == Ok(m)
  {
    var ts := PrintModule(m);
    var items := PrintStatements(m.statements);
    var c := Cursor(ts, 1);
    assert ts == items + [Mark(EOF)];
    assert c.tokens[c.index - 1..c.index - 1 + |ts|] == ts;
    ReadsThenMark(c, items, EOF);
    StatementsRoundTrip(m.statements, c, Remaining(c), EOF);
    ModuleSteps(c, m.statements, Next(After(c, items)));
  }

  // Single unfoldings of the productions, each from the results of the parts it calls.

  lemma ModuleSteps(c: Cursor, statements: seq<Statement>, rest: Cursor)
    requires ParseSequence(StatementElement(Remaining(c)), Semicolon, EOF, Remaining(c), c) == Parsed(Ok(statements), rest)
    ensures ParseModule(c) == Parsed(Ok(Module(statements)), rest)
  {
  }

  lemma NoCallSteps(c: Cursor, e: Expression, rest: Cursor)
    requires !e.Call?
    requires ParseBelowCall(c) == Parsed(Ok(e), rest)
    requires EndsExpression(rest)
    ensures ParseExpression(c) == Parsed(Ok(e), rest)
  {
  }

  lemma CallSteps(c: Cursor, callee: Expression, d: Cursor, typeArguments: seq<TypeNode>, d2: Cursor,
                  arguments: seq<Expression>, rest: Cursor)
    requires !callee.Call?
    requires ParseBelowCall(c) == Parsed(Ok(callee), d)
    requires TypeArgumentsPart(d) == Parsed(Ok(typeArguments), d2)
    requires CurrentType(d2) == Some(OpenParen)
    requires ParseArguments(Next(d2)) == Parsed(Ok(arguments), rest)
    ensures ParseExpression(c) == Parsed(Ok(Call(callee, typeArguments, arguments)), rest)
  {
  }

  lemma IdentifierSteps(c: Cursor, name: Identifier)
    requires Current(c) == Some(Name(name.text))
    requires CurrentType(Next(c)) != Some(Equals)
    ensures ParseBelowCall(c) == Parsed(Ok(IdentifierExpression(name)), Next(c))
  {
  }

  lemma AssignmentSteps(c: Cursor, target: Identifier, value: Expression, rest: Cursor)
    requires Current(c) == Some(Name(target.text))
    requires CurrentType(Next(c)) == Some(Equals)
    requires ParseExpression(Next(Next(c))) == Parsed(Ok(value), rest)
    ensures ParseBelowCall(c) == Parsed(Ok(Assignment(target, value)), rest)
  {
  }

  lemma ObjectSteps(c: Cursor, properties: seq<PropertyAssignment>, rest: Cursor)
    requires CurrentType(c) == Some(OpenBrace)
    requires ParsePropertyAssignments(Next(c)) == Parsed(Ok(properties), rest)
    ensures ParseBelowCall(c) == Parsed(Ok(Object(properties)), rest)
  {
  }

  lemma FunctionSteps(c: Cursor, name: Option<Identifier>, c1: Cursor, typeParameters: seq<TypeParameter>,
                      c2: Cursor, r: Parsed<Expression>)
    requires name.Some? ==> Current(c) == Some(Name(name.value.text)) && c1 == Next(c)
    requires name.None? ==> CurrentType(c) != Some(TokenType.Identifier) && c1 == c
    requires typeParameters != [] ==>
      CurrentType(c1) == Some(LessThan) && ParseTypeParameters(Next(c1)) == Parsed(Ok(typeParameters), c2)
    requires typeParameters == [] ==> CurrentType(c1) != Some(LessThan) && c2 == c1
    requires ParseFunctionRest(name, typeParameters, c2) == r
    ensures ParseFunction(c) == r
  {
  }

  lemma FunctionRestSteps(c: Cursor, name: Option<Identifier>, typeParameters: seq<TypeParameter>,
                          parameters: seq<Parameter>, d: Cursor, returnType: Option<TypeNode>, d2: Cursor,
                          body: seq<Statement>, rest: Cursor)
    requires CurrentType(c) == Some(OpenParen)
    requires ParseParameters(Next(c)) == Parsed(Ok(parameters), d)
    requires ParseAnnotation(d) == (returnType, d2)
    requires CurrentType(d2) == Some(OpenBrace)
    requires ParseBody(Next(d2)) == Parsed(Ok(body), rest)
    ensures ParseFunctionRest(name, typeParameters, c)
         == Parsed(Ok(Expression.Function(name, typeParameters, parameters, returnType, body)), rest)
  {
  }

  lemma PropertyAssignmentSteps(c: Cursor, name: Identifier, value: Expression, rest: Cursor)
    requires Current(c) == Some(Name(name.text))
    requires CurrentType(Next(c)) == Some(Colon)
    requires ParseExpression(Next(Next(c))) == Parsed(Ok(value), rest)
    ensures ParsePropertyAssignment(c) == Parsed(Ok(PropertyAssignment(name, value)), rest)
  {
  }

  lemma VarSteps(c: Cursor, name: Identifier, annotation: Option<TypeNode>, d: Cursor, initializer: Expression,
                 rest: Cursor)
    requires CurrentType(c) == Some(TokenType.Var)
    requires Current(Next(c)) == Some(Name(name.text))
    requires ParseAnnotation(Next(Next(c))) == (annotation, d)
    requires CurrentType(d) == Some(Equals)
    requires ParseExpression(Next(d)) == Parsed(Ok(initializer), rest)
    ensures ParseStatement(c) == Parsed(Ok(Statement.Var(name, annotation, initializer)), rest)
  {
  }

  lemma TypeAliasSteps(c: Cursor, name: Identifier, aliased: TypeNode, rest: Cursor)
    requires CurrentType(c) == Some(TokenType.Type)
    requires Current(Next(c)) == Some(Name(name.text))
    requires CurrentType(Next(Next(c))) == Some(Equals)
    requires ParseTypeNode(Next(Next(Next(c)))) == Parsed(Ok(aliased), rest)
    ensures ParseStatement(c) == Parsed(Ok(TypeAlias(name, aliased)), rest)
  {
  }

  lemma ReturnSteps(c: Cursor, e: Expression, rest: Cursor)
    requires CurrentType(c) == Some(TokenType.Return)
    requires ParseExpression(Next(c)) == Parsed(Ok(e), rest)
    ensures ParseStatement(c) == Parsed(Ok(Statement.Return(e)), rest)
  {
  }

  lemma ExpressionStatementSteps(c: Cursor, e: Expression, rest: Cursor)
    requires CurrentType(c) != Some(TokenType.Var) && CurrentType(c) != Some(TokenType.Type)
    requires CurrentType(c) != Some(TokenType.Return)
    requires ParseExpression(c) == Parsed(Ok(e), rest)
    ensures ParseStatement(c) == Parsed(Ok(ExpressionStatement(e)), rest)
  {
  }

  /** `,`-separated call arguments up to `)`. */
  lemma {:induction false} ExpressionsRoundTrip(es: seq<Expression>, c: Cursor, bound: nat)
    requires forall i | 0 <= i < |es| :: WellFormedExpression(es[i])
    requires Remaining(c) <= bound
    requires Reads(c, PrintExpressions(es))
    requires CurrentType(After(c, PrintExpressions(es))) == Some(CloseParen)
    ensures ParseSequence(ExpressionElement(bound), Comma, CloseParen, bound, c)
         == Parsed(Ok(es), Next(After(c, PrintExpressions(es))))
    decreases es, 1
  {
    if |es| == 1 {
      ExpressionsLastRoundTrip(es, c, bound);
    } else if |es| > 1 {
      ExpressionsMoreRoundTrip(es, c, bound);
    }
  }

  lemma {:induction false} ExpressionsLastRoundTrip(es: seq<Expression>, c: Cursor, bound: nat)
    requires |es| == 1
    requires forall i | 0 <= i < |es| :: WellFormedExpression(es[i])
    requires Remaining(c) <= bound
    requires Reads(c, PrintExpressions(es))
    requires CurrentType(After(c, PrintExpressions(es))) == Some(CloseParen)
    ensures ParseSequence(ExpressionElement(bound), Comma, CloseParen, bound, c)
         == Parsed(Ok(es), Next(After(c, PrintExpressions(es))))
    decreases es, 0
  {
    var p := PrintExpression(es[0]);
    ReadsFirst(c, PrintExpressions(es));
    ExpressionStartsExclude(PrintExpressions(es));
    assert PrintExpressions(es) == p;
    ExpressionRoundTrip(es[0], c);
    ExpressionElementIs(bound, c);
    SequenceLast(ExpressionElement(bound), Comma, CloseParen, bound, c, es[0], After(c, p));
    Singleton(es);
  }

  lemma {:induction false} ExpressionsMoreRoundTrip(es: seq<Expression>, c: Cursor, bound: nat)
    requires |es| > 1
    requires forall i | 0 <= i < |es| :: WellFormedExpression(es[i])
    requires Remaining(c) <= bound
    requires Reads(c, PrintExpressions(es))
    requires CurrentType(After(c, PrintExpressions(es))) == Some(CloseParen)
    ensures ParseSequence(ExpressionElement(bound), Comma, CloseParen, bound, c)
         == Parsed(Ok(es), Next(After(c, PrintExpressions(es))))
    decreases es, 0
  {
    var p := PrintExpression(es[0]);
    ReadsFirst(c, PrintExpressions(es));
    ExpressionStartsExclude(PrintExpressions(es));
    var rest := PrintExpressions(es[1..]);
    assert PrintExpressions(es) == p + ([Mark(Comma)] + rest);
    ReadsElementThenSeparator(c, p, Comma, rest);
    ExpressionRoundTrip(es[0], c);
    ExpressionElementIs(bound, c);
    ExpressionsRoundTrip(es[1..], Next(After(c, p)), bound);
    SequenceMore(ExpressionElement(bound), Comma, CloseParen, bound, c, es[0], After(c, p), es[1..],
                 Next(After(Next(After(c, p)), rest)));
    HeadAndTail(es);
  }

  /** `;`-separated statements up to `}` or the end of the file. */
  lemma {:induction false} StatementsRoundTrip(ss: seq<Statement>, c: Cursor, bound: nat, terminator: TokenType)
    requires terminator == CloseBrace || terminator == EOF
    requires forall i | 0 <= i < |ss| :: WellFormedStatement(ss[i])
    requires Remaining(c) <= bound
    requires Reads(c, PrintStatements(ss))
    requires CurrentType(After(c, PrintStatements(ss))) == Some(terminator)
    ensures ParseSequence(StatementElement(bound), Semicolon, terminator, bound, c)
         == Parsed(Ok(ss), Next(After(c, PrintStatements(ss))))
    decreases ss, 1
  {
    if |ss| == 1 {
      StatementsLastRoundTrip(ss, c, bound, terminator);
    } else if |ss| > 1 {
      StatementsMoreRoundTrip(ss, c, bound, terminator);
    }
  }

  lemma {:induction false} StatementsLastRoundTrip(ss: seq<Statement>, c: Cursor, bound: nat, terminator: TokenType)
    requires |ss| == 1
    requires terminator == CloseBrace || terminator == EOF
    requires forall i | 0 <= i < |ss| :: WellFormedStatement(ss[i])
    requires Remaining(c) <= bound
    requires Reads(c, PrintStatements(ss))
    requires CurrentType(After(c, PrintStatements(ss))) == Some(terminator)
    ensures ParseSequence(StatementElement(bound), Semicolon, terminator, bound, c)
         == Parsed(Ok(ss), Next(After(c, PrintStatements(ss))))
    decreases ss, 0
  {
    var p := PrintStatement(ss[0]);
    ReadsFirst(c, PrintStatements(ss));
    StatementStartsExclude(PrintStatements(ss));
    assert PrintStatements(ss) == p;
    StatementRoundTrip(ss[0], c);
    StatementElementIs(bound, c);
    SequenceLast(StatementElement(bound), Semicolon, terminator, bound, c, ss[0], After(c, p));
    Singleton(ss);
  }

  lemma {:induction false} StatementsMoreRoundTrip(ss: seq<Statement>, c: Cursor, bound: nat, terminator: TokenType)
    requires |ss| > 1
    requires terminator == CloseBrace || terminator == EOF
    requires forall i | 0 <= i < |ss| :: WellFormedStatement(ss[i])
    requires Remaining(c) <= bound
    requires Reads(c, PrintStatements(ss))
    requires CurrentType(After(c, PrintStatements(ss))) == Some(terminator)
    ensures ParseSequence(StatementElement(bound), Semicolon, terminator, bound, c)
         == Parsed(Ok(ss), Next(After(c, PrintStatements(ss))))
    decreases ss, 0
  {
    var p := PrintStatement(ss[0]);
    ReadsFirst(c, PrintStatements(ss));
    StatementStartsExclude(PrintStatements(ss));
    var rest := PrintStatements(ss[1..]);
    assert PrintStatements(ss) == p + ([Mark(Semicolon)] + rest);
    ReadsElementThenSeparator(c, p, Semicolon, rest);
    StatementRoundTrip(ss[0], c);
    StatementElementIs(bound, c);
    StatementsRoundTrip(ss[1..], Next(After(c, p)), bound, terminator);
    SequenceMore(StatementElement(bound), Semicolon, terminator, bound, c, ss[0], After(c, p), ss[1..],
                 Next(After(Next(After(c, p)), rest)));
    HeadAndTail(ss);
  }

  /** `,`-separated object properties up to `}`. */
  lemma {:induction false} PropertyAssignmentsRoundTrip(pas: seq<PropertyAssignment>, c: Cursor, bound: nat)
    requires forall i | 0 <= i < |pas| :: WellFormedExpression(pas[i].propertyValue)
    requires Remaining(c) <= bound
    requires Reads(c, PrintPropertyAssignments(pas))
    requires CurrentType(After(c, PrintPropertyAssignments(pas))) == Some(CloseBrace)
    ensures ParseSequence(PropertyAssignmentElement(bound), Comma, CloseBrace, bound, c)
         == Parsed(Ok(pas), Next(After(c, PrintPropertyAssignments(pas))))
    decreases pas, 1
  {
    if |pas| == 1 {
      PropertyAssignmentsLastRoundTrip(pas, c, bound);
    } else if |pas| > 1 {
      PropertyAssignmentsMoreRoundTrip(pas, c, bound);
    }
  }

  lemma {:induction false} PropertyAssignmentsLastRoundTrip(pas: seq<PropertyAssignment>, c: Cursor, bound: nat)
    requires |pas| == 1
    requires forall i | 0 <= i < |pas| :: WellFormedExpression(pas[i].propertyValue)
    requires Remaining(c) <= bound
    requires Reads(c, PrintPropertyAssignments(pas))
    requires CurrentType(After(c, PrintPropertyAssignments(pas))) == Some(CloseBrace)
    ensures ParseSequence(PropertyAssignmentElement(bound), Comma, CloseBrace, bound, c)
         == Parsed(Ok(pas), Next(After(c, PrintPropertyAssignments(pas))))
    decreases pas, 0
  {
    var p := PrintPropertyAssignment(pas[0]);
    ReadsFirst(c, PrintPropertyAssignments(pas));
    assert PrintPropertyAssignments(pas) == p;
    PropertyAssignmentRoundTrip(pas[0], c);
    PropertyAssignmentElementIs(bound, c);
    SequenceLast(PropertyAssignmentElement(bound), Comma, CloseBrace, bound, c, pas[0], After(c, p));
    Singleton(pas);
  }

  lemma {:induction false} PropertyAssignmentsMoreRoundTrip(pas: seq<PropertyAssignment>, c: Cursor, bound: nat)
    requires |pas| > 1
    requires forall i | 0 <= i < |pas| :: WellFormedExpression(pas[i].propertyValue)
    requires Remaining(c) <= bound
    requires Reads(c, PrintPropertyAssignments(pas))
    requires CurrentType(After(c, PrintPropertyAssignments(pas))) == Some(CloseBrace)
    ensures ParseSequence(PropertyAssignmentElement(bound), Comma, CloseBrace, bound, c)
         == Parsed(Ok(pas), Next(After(c, PrintPropertyAssignments(pas))))
    decreases pas, 0
  {
    var p := PrintPropertyAssignment(pas[0]);
    ReadsFirst(c, PrintPropertyAssignments(pas));
    var rest := PrintPropertyAssignments(pas[1..]);
    assert PrintPropertyAssignments(pas) == p + ([Mark(Comma)] + rest);
    ReadsElementThenSeparator(c, p, Comma, rest);
    PropertyAssignmentRoundTrip(pas[0], c);
    PropertyAssignmentElementIs(bound, c);
    PropertyAssignmentsRoundTrip(pas[1..], Next(After(c, p)), bound);
    SequenceMore(PropertyAssignmentElement(bound), Comma, CloseBrace, bound, c, pas[0], After(c, p), pas[1..],
                 Next(After(Next(After(c, p)), rest)));
    HeadAndTail(pas);
  }
}
