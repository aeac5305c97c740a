/**
 * The productions of the files of src/types: one parsing function per node kind, built from
 * the combinators of module Parser, and the entry point `parser::parse`.
 *
 * The productions are mutually recursive. They terminate because each recursive call
 * happens either after a token was consumed or, on the same cursor, to a production of
 * lower rank (the second component of every `decreases`). A list or an optional part
 * is parsed by handing `ParseSequence` / `TryParsePrefixed` an element parser limited to
 * cursors no further from the end than the list's start (the `...Element` functions).
 */
module Grammar {
  import opened Wrappers
  import opened Errors
  import opened Lexer
  import opened Parser
  import opened Syntax

  /** The failure every production reports, leaving the cursor where it stopped. */
  function Fail<T>(c: Cursor): (r: Parsed<T>)
    ensures r.outcome.Err? && r.rest == c
  {
    Parsed(Err(ParsingError.UnexpectedEndOfFileError), c)
  }

  /** The `?` operator: hand a failure on unchanged. */
  function Propagate<S, T>(p: Parsed<S>): (r: Parsed<T>)
    requires p.outcome.Err?
    ensures r.outcome.Err? && r.outcome.error == p.outcome.error && r.rest == p.rest
  {
    Parsed(Err(p.outcome.error), p.rest)
  }

  /** `Identifier::parse`: an Identifier token becomes a node holding its text. */
  function ParseIdentifierNode(c: Cursor): (r: Parsed<Identifier>)
    ensures r.outcome.Ok? <==> CurrentType(c) == Some(TokenType.Identifier)
    ensures r.outcome.Ok? ==> r.outcome.value.text == CurrentToken(c).value.text && r.rest == Next(c)
    ensures r.outcome.Err? ==> r.rest == c
    ensures Consumes(c, r)
  {
    var name := ParseIdentifier(c);
    if name.outcome.Err? then Propagate(name) else Parsed(Ok(Identifier.Identifier(name.outcome.value)), name.rest)
  }

  /** `TypeParameter::parse`: exactly one identifier. */
  function ParseTypeParameter(c: Cursor): (r: Parsed<TypeParameter>)
    ensures r.outcome.Ok? <==> CurrentType(c) == Some(TokenType.Identifier)
    ensures r.outcome.Ok? ==> r.outcome.value.typeParameterName.text == CurrentToken(c).value.text && r.rest == Next(c)
    ensures r.outcome.Err? ==> r.rest == c
    ensures Consumes(c, r)
  {
    var name := ParseIdentifierNode(c);
    if name.outcome.Err? then Propagate(name) else Parsed(Ok(TypeParameter(name.outcome.value)), name.rest)
  }

  /** A `<`-opened type-parameter list: the part after `<`, up to and including `>`. */
  function ParseTypeParameters(c: Cursor): (r: Parsed<seq<TypeParameter>>)
    ensures Consumes(c, r)
  {
    ParseSequence(ParseTypeParameter, Comma, GreaterThan, Remaining(c), c)
  }

  /** `Expression::parse_literal`. */
  function ParseLiteral(c: Cursor): (r: Parsed<Expression>)
    ensures r.outcome.Ok? <==>
      CurrentType(c) == Some(TokenType.NumericLiteral) || CurrentType(c) == Some(TokenType.StringLiteral)
    ensures r.outcome.Ok? ==> r.rest == Next(c)
    ensures r.outcome.Err? ==> r.rest == c
    ensures CurrentType(c) == Some(TokenType.NumericLiteral) ==>
      r.outcome.value == Expression.NumericLiteral(DecimalValue(CurrentToken(c).value.text))
    ensures CurrentType(c) == Some(TokenType.StringLiteral) ==>
      r.outcome.value == Expression.StringLiteral(CurrentToken(c).value.text)
    ensures Consumes(c, r)
  {
    if CurrentType(c) == Some(TokenType.NumericLiteral) then
      Parsed(Ok(Expression.NumericLiteral(DecimalValue(CurrentToken(c).value.text))), Next(c))
    else if CurrentType(c) == Some(TokenType.StringLiteral) then
      Parsed(Ok(Expression.StringLiteral(CurrentToken(c).value.text)), Next(c))
    else Fail(c)
  }

  // ---------------------------------------------------------------------------------
  // Mutually recursive productions
  // ---------------------------------------------------------------------------------

  /** `Statement::parse`: dispatch on a leading `var`, `type` or `return`. */
  function ParseStatement(c: Cursor): (r: Parsed<Statement>)
    ensures Consumes(c, r)
    ensures r.outcome.Ok? ==>
      && (r.outcome.value.Var? <==> CurrentType(c) == Some(TokenType.Var))
      && (r.outcome.value.TypeAlias? <==> CurrentType(c) == Some(TokenType.Type))
      && (r.outcome.value.Return? <==> CurrentType(c) == Some(TokenType.Return))
    decreases Remaining(c), 5
  {
    var (isVar, c1) := TryConsumeToken(c, TokenType.Var);
    if isVar then ParseVar(c1)
    else
      var (isAlias, c2) := TryConsumeToken(c, TokenType.Type);
      if isAlias then ParseTypeAlias(c2)
      else
        var (isReturn, c3) := TryConsumeToken(c, TokenType.Return);
        if isReturn then ParseReturn(c3)
        else ParseExpressionStatement(c)
  }

  /** `Statement::parse_var`, after `var`: a name, an optional `: Type`, a mandatory `=` and an initializer. */
  function ParseVar(c: Cursor): (r: Parsed<Statement>)
    ensures Consumes(c, r)
    ensures r.outcome.Ok? ==> r.outcome.value.Var? && CurrentType(c) == Some(TokenType.Identifier)
    ensures r.outcome.Ok? ==> r.outcome.value.varName.text == CurrentToken(c).value.text
    ensures r.outcome.Ok? ==> (r.outcome.value.annotation.Some? ==> CurrentType(Next(c)) == Some(Colon))
    ensures r.outcome.Ok? ==>
      && CurrentType(c) == Some(TokenType.Identifier)
      && r.outcome.value.annotation == ParseAnnotation(Next(c)).0
      && CurrentType(ParseAnnotation(Next(c)).1) == Some(Equals)
      && ParseExpression(Next(ParseAnnotation(Next(c)).1)) == Parsed(Ok(r.outcome.value.initializer), r.rest)
    ensures CurrentType(c) == Some(TokenType.Identifier) && CurrentType(ParseAnnotation(Next(c)).1) != Some(Equals) ==>
      r == Fail(ParseAnnotation(Next(c)).1)
    decreases Remaining(c), 4
  {
    var name := ParseIdentifierNode(c);
    if name.outcome.Err? then Propagate(name)
    else
      var (annotation, c1) := ParseAnnotation(name.rest);
      var equals := ParseExpected(c1, Equals);
      if equals.outcome.Err? then Propagate(equals)
      else
        var initializer := ParseExpression(equals.rest);
        if initializer.outcome.Err? then Propagate(initializer)
        else Parsed(Ok(Statement.Var(name.outcome.value, annotation, initializer.outcome.value)), initializer.rest)
  }

  /** `Statement::parse_type_alias`, after `type`: a name, `=` and a type; no annotation. */
  function ParseTypeAlias(c: Cursor): (r: Parsed<Statement>)
    ensures Consumes(c, r)
    ensures r.outcome.Ok? ==> r.outcome.value.TypeAlias? && CurrentType(c) == Some(TokenType.Identifier)
    ensures r.outcome.Ok? ==>
      && r.outcome.value.aliasName.text == CurrentToken(c).value.text
      && CurrentType(Next(c)) == Some(Equals)
      && ParseTypeNode(Next(Next(c))) == Parsed(Ok(r.outcome.value.aliased), r.rest)
    decreases Remaining(c), 4
  {
    var name := ParseIdentifierNode(c);
    if name.outcome.Err? then Propagate(name)
    else
      var equals := ParseExpected(name.rest, Equals);
      if equals.outcome.Err? then Propagate(equals)
      else
        var aliased := ParseTypeNode(equals.rest);
        if aliased.outcome.Err? then Propagate(aliased)
        else Parsed(Ok(TypeAlias(name.outcome.value, aliased.outcome.value)), aliased.rest)
  }

  /** `Statement::parse_return`, after `return`: exactly one expression. */
  function ParseReturn(c: Cursor): (r: Parsed<Statement>)
    ensures Consumes(c, r)
    ensures r.outcome.Ok? ==> r.outcome.value.Return?
    ensures ParseExpression(c).outcome.Ok? <==> r.outcome.Ok?
    ensures r.outcome.Ok? ==> ParseExpression(c) == Parsed(Ok(r.outcome.value.returned), r.rest)
    decreases Remaining(c), 4
  {
    var e := ParseExpression(c);
    if e.outcome.Err? then Propagate(e) else Parsed(Ok(Statement.Return(e.outcome.value)), e.rest)
  }

  /** `Statement::parse_expression_statement`. */
  function ParseExpressionStatement(c: Cursor): (r: Parsed<Statement>)
    ensures Consumes(c, r)
    ensures r.outcome.Ok? ==> r.outcome.value.ExpressionStatement?
    ensures ParseExpression(c).outcome.Ok? <==> r.outcome.Ok?
    ensures r.outcome.Ok? ==> ParseExpression(c) == Parsed(Ok(r.outcome.value.expression), r.rest)
    decreases Remaining(c), 4
  {
    var e := ParseExpression(c);
    if e.outcome.Err? then Propagate(e) else Parsed(Ok(ExpressionStatement(e.outcome.value)), e.rest)
  }

  /**
   * `Expression::parse`: a below-call expression, an optional `<...>` type-argument list,
   * and a call when `(` follows. Without `(` the type arguments are dropped and the
   * result is the below-call expression itself.
   */
  function ParseExpression(c: Cursor): (r: Parsed<Expression>)
    ensures Consumes(c, r)
    ensures ParseBelowCall(c).outcome.Err? ==> r == Propagate(ParseBelowCall(c))
    ensures r.outcome.Ok? ==>
      && ParseBelowCall(c).outcome.Ok?
      && TypeArgumentsPart(ParseBelowCall(c).rest).outcome.Ok?
      && (r.outcome.value.Call? <==> CurrentType(TypeArgumentsPart(ParseBelowCall(c).rest).rest) == Some(OpenParen))
    ensures r.outcome.Ok? && r.outcome.value.Call? ==>
      && r.outcome.value.callee == ParseBelowCall(c).outcome.value
      && r.outcome.value.typeArguments == TypeArgumentsPart(ParseBelowCall(c).rest).outcome.value
      && ParseArguments(Next(TypeArgumentsPart(ParseBelowCall(c).rest).rest))
         == Parsed(Ok(r.outcome.value.arguments), r.rest)
    ensures r.outcome.Ok? && !r.outcome.value.Call? ==>
      r == Parsed(Ok(ParseBelowCall(c).outcome.value), TypeArgumentsPart(ParseBelowCall(c).rest).rest)
    decreases Remaining(c), 3
  {
    var below := ParseBelowCall(c);
    if below.outcome.Err? then Propagate(below)
    else ParseCallSuffix(below.outcome.value, below.rest)
  }

  /** The optional `<...>` type-argument list after a below-call expression; empty when absent. */
  function TypeArgumentsPart(c: Cursor): (r: Parsed<seq<TypeNode>>)
    ensures r.rest.tokens == c.tokens && c.index <= r.rest.index && Remaining(r.rest) <= Remaining(c)
    ensures CurrentType(c) != Some(LessThan) ==> r == Parsed(Ok([]), c)
    decreases Remaining(c), 8
  {
    if CurrentType(c) == Some(LessThan) then ParseTypeArguments(Next(c)) else Parsed(Ok([]), c)
  }

  /**
   * The part of `Expression::parse` after the below-call expression `callee` (which is
   * never itself a call): a call of it exactly when `(` follows the optional type
   * arguments.
   */
  function ParseCallSuffix(callee: Expression, c: Cursor): (r: Parsed<Expression>)
    requires !callee.Call?
    ensures r.rest.tokens == c.tokens && c.index <= r.rest.index && Remaining(r.rest) <= Remaining(c)
    ensures TypeArgumentsPart(c).outcome.Err? ==> r == Propagate(TypeArgumentsPart(c))
    ensures r.outcome.Ok? ==>
      && TypeArgumentsPart(c).outcome.Ok?
      && (r.outcome.value.Call? <==> CurrentType(TypeArgumentsPart(c).rest) == Some(OpenParen))
    ensures r.outcome.Ok? && r.outcome.value.Call? ==>
      && r.outcome.value.callee == callee && r.outcome.value.typeArguments == TypeArgumentsPart(c).outcome.value
      && ParseArguments(Next(TypeArgumentsPart(c).rest)) == Parsed(Ok(r.outcome.value.arguments), r.rest)
    ensures r.outcome.Ok? && !r.outcome.value.Call? ==> r == Parsed(Ok(callee), TypeArgumentsPart(c).rest)
    decreases Remaining(c), 3
  {
    var typeArguments := TypeArgumentsPart(c);
    if typeArguments.outcome.Err? then Propagate(typeArguments)
    else
      var (paren, c1) := TryConsumeToken(typeArguments.rest, OpenParen);
      if paren then
        var arguments := ParseArguments(c1);
        if arguments.outcome.Err? then Propagate(arguments)
        else Parsed(Ok(Call(callee, typeArguments.outcome.value, arguments.outcome.value)), arguments.rest)
      else Parsed(Ok(callee), typeArguments.rest)
  }

  /** `Expression::parse_below_call`: an object, a function, an identifier or assignment, or a literal. */
  function ParseBelowCall(c: Cursor): (r: Parsed<Expression>)
    ensures Consumes(c, r)
    ensures r.outcome.Ok? ==>
      && !r.outcome.value.Call?
      && (r.outcome.value.Object? <==> CurrentType(c) == Some(OpenBrace))
      && (r.outcome.value.Function? <==> CurrentType(c) == Some(TokenType.Function))
      && (r.outcome.value.IdentifierExpression? || r.outcome.value.Assignment? <==>
          CurrentType(c) == Some(TokenType.Identifier))
      && (r.outcome.value.NumericLiteral? <==> CurrentType(c) == Some(TokenType.NumericLiteral))
      && (r.outcome.value.StringLiteral? <==> CurrentType(c) == Some(TokenType.StringLiteral))
    ensures CurrentType(c) == Some(TokenType.Identifier) ==> r == ParseIdentifierOrAssignment(c)
    ensures CurrentType(c) == Some(TokenType.Function) ==> r == ParseFunction(Next(c))
    ensures CurrentType(c) == Some(TokenType.NumericLiteral) || CurrentType(c) == Some(TokenType.StringLiteral) ==>
      r == ParseLiteral(c)
    decreases Remaining(c), 2
  {
    var (brace, c1) := TryConsumeToken(c, OpenBrace);
    if brace then
      var properties := ParsePropertyAssignments(c1);
      if properties.outcome.Err? then Propagate(properties)
      else Parsed(Ok(Object(properties.outcome.value)), properties.rest)
    else
      var (isFunction, c2) := TryConsumeToken(c, TokenType.Function);
      if isFunction then ParseFunction(c2)
      else
        if CurrentType(c) == Some(TokenType.Identifier) then ParseIdentifierOrAssignment(c)
        else if CurrentType(c) == Some(TokenType.StringLiteral) || CurrentType(c) == Some(TokenType.NumericLiteral) then
          ParseLiteral(c)
        else Fail(c)
  }

  /**
   * The function-expression branch of `parse_below_call`, after `function`: an optional
   * name (taken only when an identifier follows), an optional `<...>` list of type
   * parameters (empty when absent), `(` parameters `)`, an optional `: Type`, and a
   * mandatory `{` opening a `;`-separated body that ends at `}`.
   */
  function ParseFunction(c: Cursor): (r: Parsed<Expression>)
    ensures Consumes(c, r)
    ensures r.outcome.Ok? ==> r.outcome.value.Function?
    ensures r.outcome.Ok? ==> (r.outcome.value.functionName.Some? <==> CurrentType(c) == Some(TokenType.Identifier))
    ensures r.outcome.Ok? && r.outcome.value.functionName.Some? ==>
      r.outcome.value.functionName.value.text == CurrentToken(c).value.text
    ensures r.outcome.Ok? ==>
      var afterName := if CurrentType(c) == Some(TokenType.Identifier) then Next(c) else c;
      CurrentType(afterName) != Some(LessThan) ==> r.outcome.value.typeParameters == []
    decreases Remaining(c), 1
  {
    var (name, c1) :=
      if CurrentType(c) == Some(TokenType.Identifier) then (Some(ParseIdentifierNode(c).outcome.value), Next(c))
      else (None, c);
    var (angle, c2) := TryConsumeToken(c1, LessThan);
    var typeParameters := if angle then ParseTypeParameters(c2) else Parsed(Ok([]), c2);
    if typeParameters.outcome.Err? then Propagate(typeParameters)
    else ParseFunctionRest(name, typeParameters.outcome.value, typeParameters.rest)
  }

  /** The rest of a function expression, after its name and type parameters. */
  function ParseFunctionRest(name: Option<Identifier>, typeParameters: seq<TypeParameter>, c: Cursor): (r: Parsed<Expression>)
    ensures Consumes(c, r)
    ensures r.outcome.Ok? ==>
      r.outcome.value.Function? && r.outcome.value.functionName == name && r.outcome.value.typeParameters == typeParameters
    ensures CurrentType(c) != Some(OpenParen) ==> r == Fail(c)
    ensures r.outcome.Ok? ==>
      && CurrentType(c) == Some(OpenParen)
      && ParseParameters(Next(c)).outcome == Ok(r.outcome.value.parameters)
      && ParseAnnotation(ParseParameters(Next(c)).rest).0 == r.outcome.value.returnType
      && CurrentType(ParseAnnotation(ParseParameters(Next(c)).rest).1) == Some(OpenBrace)
      && ParseBody(Next(ParseAnnotation(ParseParameters(Next(c)).rest).1)) == Parsed(Ok(r.outcome.value.body), r.rest)
    ensures CurrentType(c) == Some(OpenParen) && ParseParameters(Next(c)).outcome.Ok?
            && CurrentType(ParseAnnotation(ParseParameters(Next(c)).rest).1) != Some(OpenBrace) ==>
      r == Fail(ParseAnnotation(ParseParameters(Next(c)).rest).1)
    decreases Remaining(c), 0
  {
    var open := ParseExpected(c, OpenParen);
    if open.outcome.Err? then Propagate(open)
    else
      var parameters := ParseParameters(open.rest);
      if parameters.outcome.Err? then Propagate(parameters)
      else
        var (returnType, c1) := ParseAnnotation(parameters.rest);
        var brace := ParseExpected(c1, OpenBrace);
        if brace.outcome.Err? then Propagate(brace)
        else
          var body := ParseBody(brace.rest);
          if body.outcome.Err? then Propagate(body)
          else
            Parsed(Ok(Expression.Function(name, typeParameters, parameters.outcome.value,
                                          returnType, body.outcome.value)), body.rest)
  }

  /**
   * `Expression::parse_identifier_or_assignment`: a name, and an assignment when `=`
   * and an expression follow. When the right-hand side fails, the `=` and whatever the
   * failed expression consumed stay consumed and the result is the bare identifier.
   */
  function ParseIdentifierOrAssignment(c: Cursor): (r: Parsed<Expression>)
    ensures Consumes(c, r)
    ensures r.outcome.Ok? <==> CurrentType(c) == Some(TokenType.Identifier)
    ensures r.outcome.Err? ==> r.rest == c
    ensures r.outcome.Ok? ==>
      var name := Identifier.Identifier(CurrentToken(c).value.text);
      if CurrentType(Next(c)) == Some(Equals) then
        var value := ParseExpression(Next(Next(c)));
        && r.rest == value.rest
        && r.outcome.value == (if value.outcome.Ok? then Assignment(name, value.outcome.value) else IdentifierExpression(name))
      else r == Parsed(Ok(IdentifierExpression(name)), Next(c))
    decreases Remaining(c), 1
  {
    var name := ParseIdentifierNode(c);
    if name.outcome.Err? then Propagate(name)
    else
      var bound := Remaining(name.rest);
      var (value, c1) := TryParsePrefixed(ExpressionElement(bound), Equals, bound, name.rest);
      match value
      case Some(v) => Parsed(Ok(Assignment(name.outcome.value, v)), c1)
      case None => Parsed(Ok(IdentifierExpression(name.outcome.value)), c1)
  }

  /**
   * `TypeNode::parse`: `{` opens an object type, `<` a generic signature, `(` a signature
   * without type parameters, and anything else must be an identifier type.
   */
  function ParseTypeNode(c: Cursor): (r: Parsed<TypeNode>)
    ensures Consumes(c, r)
    ensures r.outcome.Ok? ==>
      && (r.outcome.value.ObjectLiteralType? <==> CurrentType(c) == Some(OpenBrace))
      && (r.outcome.value.SignatureDeclaration? <==>
          CurrentType(c) == Some(LessThan) || CurrentType(c) == Some(OpenParen))
      && (r.outcome.value.IdentifierType? <==> CurrentType(c) == Some(TokenType.Identifier))
      && (CurrentType(c) == Some(OpenParen) ==> r.outcome.value.signatureTypeParameters == [])
    decreases Remaining(c), 1
  {
    var (brace, c1) := TryConsumeToken(c, OpenBrace);
    if brace then
      var properties := ParsePropertyDeclarations(c1);
      if properties.outcome.Err? then Propagate(properties)
      else Parsed(Ok(ObjectLiteralType(properties.outcome.value)), properties.rest)
    else
      var (angle, c2) := TryConsumeToken(c, LessThan);
      if angle then
        var typeParameters := ParseTypeParameters(c2);
        if typeParameters.outcome.Err? then Propagate(typeParameters)
        else
          var open := ParseExpected(typeParameters.rest, OpenParen);
          if open.outcome.Err? then Propagate(open)
          else ParseSignatureRest(typeParameters.outcome.value, open.rest)
      else
        var (paren, c3) := TryConsumeToken(c, OpenParen);
        if paren then ParseSignatureRest([], c3)
        else
          var name := ParseIdentifierNode(c);
          if name.outcome.Err? then Propagate(name) else Parsed(Ok(IdentifierType(name.outcome.value)), name.rest)
  }

  /** The rest of a signature type after its `(`: parameters up to `)`, `=>` and the return type. */
  function ParseSignatureRest(typeParameters: seq<TypeParameter>, c: Cursor): (r: Parsed<TypeNode>)
    ensures Consumes(c, r)
    ensures r.outcome.Ok? ==>
      r.outcome.value.SignatureDeclaration? && r.outcome.value.signatureTypeParameters == typeParameters
    ensures r.outcome.Ok? ==>
      && ParseParameters(c).outcome == Ok(r.outcome.value.signatureParameters)
      && CurrentType(ParseParameters(c).rest) == Some(Arrow)
      && ParseTypeNode(Next(ParseParameters(c).rest)) == Parsed(Ok(r.outcome.value.signatureReturnType), r.rest)
    ensures ParseParameters(c).outcome.Ok? && CurrentType(ParseParameters(c).rest) != Some(Arrow) ==>
      r == Fail(ParseParameters(c).rest)
    decreases Remaining(c), 8
  {
    var parameters := ParseParameters(c);
    if parameters.outcome.Err? then Propagate(parameters)
    else
      var arrow := ParseExpected(parameters.rest, Arrow);
      if arrow.outcome.Err? then Propagate(arrow)
      else
        var returnType := ParseTypeNode(arrow.rest);
        if returnType.outcome.Err? then Propagate(returnType)
        else
          Parsed(Ok(SignatureDeclaration(typeParameters, parameters.outcome.value, returnType.outcome.value)),
                 returnType.rest)
  }

  /** `Parameter::parse`: a name and an optional `: Type`; a malformed type is dropped, not reported. */
  function ParseParameter(c: Cursor): (r: Parsed<Parameter>)
    ensures Consumes(c, r)
    ensures r.outcome.Ok? <==> CurrentType(c) == Some(TokenType.Identifier)
    ensures r.outcome.Err? ==> r.rest == c
    ensures r.outcome.Ok? ==>
      && r.outcome.value.parameterName.text == CurrentToken(c).value.text
      && (r.outcome.value.parameterType, r.rest) == ParseAnnotation(Next(c))
    decreases Remaining(c), 1
  {
    var name := ParseIdentifierNode(c);
    if name.outcome.Err? then Propagate(name)
    else
      var (annotation, c1) := ParseAnnotation(name.rest);
      Parsed(Ok(Parameter(name.outcome.value, annotation)), c1)
  }

  /** `PropertyDeclaration::parse`: a name (a plain string) and an optional `: Type`. */
  function ParsePropertyDeclaration(c: Cursor): (r: Parsed<PropertyDeclaration>)
    ensures Consumes(c, r)
    ensures r.outcome.Ok? <==> CurrentType(c) == Some(TokenType.Identifier)
    ensures r.outcome.Err? ==> r.rest == c
    ensures r.outcome.Ok? ==>
      && r.outcome.value.declaredName == CurrentToken(c).value.text
      && (r.outcome.value.declaredType, r.rest) == ParseAnnotation(Next(c))
    decreases Remaining(c), 1
  {
    var name := ParseIdentifier(c);
    if name.outcome.Err? then Propagate(name)
    else
      var (annotation, c1) := ParseAnnotation(name.rest);
      Parsed(Ok(PropertyDeclaration(name.outcome.value, annotation)), c1)
  }

  /** `PropertyAssignment::parse`: a name, a mandatory `:` and a value. */
  function ParsePropertyAssignment(c: Cursor): (r: Parsed<PropertyAssignment>)
    ensures Consumes(c, r)
    ensures r.outcome.Ok? ==>
      && CurrentType(c) == Some(TokenType.Identifier)
      && CurrentType(Next(c)) == Some(Colon)
      && r.outcome.value.propertyName.text == CurrentToken(c).value.text
      && ParseExpression(Next(Next(c))) == Parsed(Ok(r.outcome.value.propertyValue), r.rest)
    ensures CurrentType(c) == Some(TokenType.Identifier) && CurrentType(Next(c)) != Some(Colon) ==>
      r == Fail(Next(c))
    decreases Remaining(c), 1
  {
    var name := ParseIdentifierNode(c);
    if name.outcome.Err? then Propagate(name)
    else
      var colon := ParseExpected(name.rest, Colon);
      if colon.outcome.Err? then Propagate(colon)
      else
        var value := ParseExpression(colon.rest);
        if value.outcome.Err? then Propagate(value)
        else Parsed(Ok(PropertyAssignment(name.outcome.value, value.outcome.value)), value.rest)
  }

  // Element parsers handed to the combinators: a production restricted to cursors
  // within `bound` of the end, which makes every call through them terminate.

  function ExpressionElement(bound: nat): (f: Cursor --> Parsed<Expression>)
    ensures Shrinks(f, bound)
    decreases bound, 6
  {
    (x: Cursor) requires Remaining(x) <= bound => ParseExpression(x)
  }

  function StatementElement(bound: nat): (f: Cursor --> Parsed<Statement>)
    ensures Shrinks(f, bound)
    decreases bound, 6
  {
    (x: Cursor) requires Remaining(x) <= bound => ParseStatement(x)
  }

  function TypeNodeElement(bound: nat): (f: Cursor --> Parsed<TypeNode>)
    ensures Shrinks(f, bound)
    decreases bound, 6
  {
    (x: Cursor) requires Remaining(x) <= bound => ParseTypeNode(x)
  }

  function ParameterElement(bound: nat): (f: Cursor --> Parsed<Parameter>)
    ensures Shrinks(f, bound)
    decreases bound, 6
  {
    (x: Cursor) requires Remaining(x) <= bound => ParseParameter(x)
  }

  function PropertyAssignmentElement(bound: nat): (f: Cursor --> Parsed<PropertyAssignment>)
    ensures Shrinks(f, bound)
    decreases bound, 6
  {
    (x: Cursor) requires Remaining(x) <= bound => ParsePropertyAssignment(x)
  }

  function PropertyDeclarationElement(bound: nat): (f: Cursor --> Parsed<PropertyDeclaration>)
    ensures Shrinks(f, bound)
    decreases bound, 6
  {
    (x: Cursor) requires Remaining(x) <= bound => ParsePropertyDeclaration(x)
  }

  /** An optional `: Type` annotation (`try_parse_prefixed(TypeNode::parse, Colon)`). */
  function ParseAnnotation(c: Cursor): (r: (Option<TypeNode>, Cursor))
    ensures r.1.tokens == c.tokens && c.index <= r.1.index && Remaining(r.1) <= Remaining(c)
    ensures CurrentType(c) != Some(Colon) ==> r == (None, c)
    ensures CurrentType(c) == Some(Colon) ==>
      && r.1 == ParseTypeNode(Next(c)).rest
      && (r.0.Some? <==> ParseTypeNode(Next(c)).outcome.Ok?)
      && (r.0.Some? ==> r.0.value == ParseTypeNode(Next(c)).outcome.value)
    decreases Remaining(c), 7
  {
    TryParsePrefixed(TypeNodeElement(Remaining(c)), Colon, Remaining(c), c)
  }

  /** Call arguments after `(`: `,`-separated expressions up to `)`. */
  function ParseArguments(c: Cursor): (r: Parsed<seq<Expression>>)
    ensures Consumes(c, r)
    decreases Remaining(c), 7
  {
    ParseSequence(ExpressionElement(Remaining(c)), Comma, CloseParen, Remaining(c), c)
  }

  /** Type arguments after `<`: `,`-separated types up to `>`. */
  function ParseTypeArguments(c: Cursor): (r: Parsed<seq<TypeNode>>)
    ensures Consumes(c, r)
    decreases Remaining(c), 7
  {
    ParseSequence(TypeNodeElement(Remaining(c)), Comma, GreaterThan, Remaining(c), c)
  }

  /** Parameters after `(`: `,`-separated parameters up to `)`. */
  function ParseParameters(c: Cursor): (r: Parsed<seq<Parameter>>)
    ensures Consumes(c, r)
    decreases Remaining(c), 7
  {
    ParseSequence(ParameterElement(Remaining(c)), Comma, CloseParen, Remaining(c), c)
  }

  /** Object-literal properties after `{`: `,`-separated assignments up to `}`. */
  function ParsePropertyAssignments(c: Cursor): (r: Parsed<seq<PropertyAssignment>>)
    ensures Consumes(c, r)
    decreases Remaining(c), 7
  {
    ParseSequence(PropertyAssignmentElement(Remaining(c)), Comma, CloseBrace, Remaining(c), c)
  }

  /** Object-type members after `{`: `,`-separated declarations up to `}`. */
  function ParsePropertyDeclarations(c: Cursor): (r: Parsed<seq<PropertyDeclaration>>)
    ensures Consumes(c, r)
    decreases Remaining(c), 7
  {
    ParseSequence(PropertyDeclarationElement(Remaining(c)), Comma, CloseBrace, Remaining(c), c)
  }

  /** A function body after `{`: `;`-separated statements up to `}`. */
  function ParseBody(c: Cursor): (r: Parsed<seq<Statement>>)
    ensures Consumes(c, r)
    decreases Remaining(c), 7
  {
    ParseSequence(StatementElement(Remaining(c)), Semicolon, CloseBrace, Remaining(c), c)
  }

  // ---------------------------------------------------------------------------------
  // Module and entry point
  // ---------------------------------------------------------------------------------

  /** `Module::parse`: `;`-separated statements up to and including EOF. */
  function ParseModule(c: Cursor): (r: Parsed<Module>)
    ensures Consumes(c, r)
    ensures r.outcome.Ok? ==> r.rest.index > c.index && CurrentType(Previous(r.rest)) == Some(EOF)
  {
    var statements := ParseSequence(StatementElement(Remaining(c)), Semicolon, EOF, Remaining(c), c);
    if statements.outcome.Err? then Propagate(statements)
    else Parsed(Ok(Module(statements.outcome.value)), statements.rest)
  }

  /** The lexer before its first `next`. */
  function Unprimed(tokens: seq<Slot>): Cursor {
    Cursor(tokens, 0)
  }

  /**
   * `parser::parse`: prime the lexer with one `next`, then parse a module. A module is
   * only ever accepted from a stream that reaches an EOF token.
   */
  function Parse(tokens: seq<Slot>): (r: Result<Module, ParsingError>)
    ensures r == ParseModule(Cursor(tokens, 1)).outcome
    ensures r.Ok? ==> exists k | 0 <= k < |tokens| :: tokens[k].Ok? && tokens[k].value.tokenType == EOF
  {
    var parsed := ParseModule(Next(Unprimed(tokens)));
    if parsed.outcome.Ok? then
      CurrentTypeIsInStream(Previous(parsed.rest), EOF);
      parsed.outcome
    else parsed.outcome
  }
}
