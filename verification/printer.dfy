/**
 * A printer from syntax trees back to token streams: the partner against which the
 * productions of module Grammar are checked (module RoundTrip proves that parsing a
 * printed tree gives the tree back).
 *
 * Printed tokens carry the text the scanner would give them and zero positions, which
 * the parser never reads. Lists are printed with their separator between elements and
 * their terminator after the last; an empty type-parameter or type-argument list is
 * left out together with its angle brackets, which the productions read back as empty.
 *
 * Not every tree can be printed so that it reads back: a numeric literal must be
 * non-negative (the scanner has no minus sign), and the callee of a call can be neither
 * a call nor an assignment, because `parse_below_call` never produces either.
 */
module Printer {
  import opened Wrappers
  import opened Lexer
  import opened Parser
  import opened Syntax

  /** The text the scanner gives a token of fixed spelling; an Arrow keeps only its `>`. */
  function Spelling(t: TokenType): string {
    match t
    case Function => "function"
    case Var => "var"
    case Type => "type"
    case Return => "return"
    case Equals => "="
    case Semicolon => ";"
    case Comma => ","
    case Colon => ":"
    case Arrow => ">"
    case OpenBrace => "{"
    case CloseBrace => "}"
    case OpenParen => "("
    case CloseParen => ")"
    case LessThan => "<"
    case GreaterThan => ">"
    case _ => ""
  }

  /** A token of fixed spelling. */
  function Mark(t: TokenType): Slot {
    Ok(Token(t, Spelling(t), 0, 0))
  }

  /** An Identifier token. */
  function Name(text: string): Slot {
    Ok(Token(TokenType.Identifier, text, 0, 0))
  }

  /** The type of the first token of `ts`, if it has one. */
  function FirstType(ts: seq<Slot>): Option<TokenType> {
    if ts == [] then None else GetType(Some(ts[0]))
  }

  /** The tokens an expression can start with. */
  const ExpressionStarts: set<TokenType> :=
    {TokenType.Identifier, TokenType.NumericLiteral, TokenType.StringLiteral, OpenBrace, TokenType.Function}

  /** The tokens a type can start with. */
  const TypeStarts: set<TokenType> := {TokenType.Identifier, OpenBrace, LessThan, OpenParen}

  predicate StartsWithOneOf(ts: seq<Slot>, starts: set<TokenType>) {
    FirstType(ts).Some? && FirstType(ts).value in starts
  }

  // ---------------------------------------------------------------------------------
  // Printable trees
  // ---------------------------------------------------------------------------------

  predicate WellFormedExpression(e: Expression)
    decreases e
  {
    match e
    case NumericLiteral(v) => v >= 0
    case Assignment(_, v) => WellFormedExpression(v)
    case Object(properties) =>
      forall i | 0 <= i < |properties| :: WellFormedExpression(properties[i].propertyValue)
    case Function(_, _, _, _, body) => forall i | 0 <= i < |body| :: WellFormedStatement(body[i])
    case Call(callee, _, arguments) =>
      && !callee.Call? && !callee.Assignment? && WellFormedExpression(callee)
      && forall i | 0 <= i < |arguments| :: WellFormedExpression(arguments[i])
    case _ => true
  }

  predicate WellFormedStatement(s: Statement)
    decreases s
  {
    match s
    case Var(_, _, initializer) => WellFormedExpression(initializer)
    case TypeAlias(_, _) => true
    case ExpressionStatement(e) => WellFormedExpression(e)
    case Return(e) => WellFormedExpression(e)
  }

  predicate WellFormedModule(m: Module) {
    forall i | 0 <= i < |m.statements| :: WellFormedStatement(m.statements[i])
  }

  // ---------------------------------------------------------------------------------
  // Printers
  // ---------------------------------------------------------------------------------

  function PrintExpression(e: Expression): (r: seq<Slot>)
    requires WellFormedExpression(e)
    ensures StartsWithOneOf(r, ExpressionStarts)
    decreases e, 2
  {
    match e
    case IdentifierExpression(name) => [Name(name.text)]
    case NumericLiteral(v) => [Ok(Token(TokenType.NumericLiteral, DecimalText(v), 0, 0))]
    case StringLiteral(s) => [Ok(Token(TokenType.StringLiteral, s, 0, 0))]
    case Assignment(name, v) => [Name(name.text)] + ([Mark(Equals)] + PrintExpression(v))
    case Object(properties) => [Mark(OpenBrace)] + (PrintPropertyAssignments(properties) + [Mark(CloseBrace)])
    case Function(_, _, _, _, _) => [Mark(TokenType.Function)] + PrintFunctionTail(e)
    case Call(callee, typeArguments, arguments) =>
      PrintExpression(callee) + (AngleList(PrintTypeNodes(typeArguments)) +
        ([Mark(OpenParen)] + (PrintExpressions(arguments) + [Mark(CloseParen)])))
  }

  /** A function expression after its `function` keyword. */
  function PrintFunctionTail(e: Expression): (r: seq<Slot>)
    requires e.Function? && WellFormedExpression(e)
    ensures StartsWithOneOf(r, {TokenType.Identifier, LessThan, OpenParen})
    decreases e, 1
  {
    OptionalName(e.functionName) + (AngleList(PrintTypeParameters(e.typeParameters)) + PrintFunctionRest(e))
  }

  /** A function expression from the `(` of its parameter list on. */
  function PrintFunctionRest(e: Expression): (r: seq<Slot>)
    requires e.Function? && WellFormedExpression(e)
    ensures FirstType(r) == Some(OpenParen) && r[|r| - 1] == Mark(CloseBrace)
    decreases e, 0
  {
    [Mark(OpenParen)] + (PrintParameters(e.parameters) + ([Mark(CloseParen)] +
      (PrintAnnotation(e.returnType) + ([Mark(OpenBrace)] + (PrintStatements(e.body) + [Mark(CloseBrace)])))))
  }

  function OptionalName(name: Option<Identifier>): (r: seq<Slot>)
    ensures name.Some? <==> r != []
    ensures name.Some? ==> r == [Name(name.value.text)]
  {
    if name.Some? then [Name(name.value.text)] else []
  }

  /** A `<`-bracketed list, left out altogether when empty. */
  function AngleList(items: seq<Slot>): (r: seq<Slot>)
    ensures items == [] ==> r == []
    ensures items != [] ==> FirstType(r) == Some(LessThan) && r[|r| - 1] == Mark(GreaterThan)
  {
    if items == [] then [] else [Mark(LessThan)] + (items + [Mark(GreaterThan)])
  }

  /** An optional `: Type`. */
  function PrintAnnotation(t: Option<TypeNode>): (r: seq<Slot>)
    ensures t.None? <==> r == []
    ensures t.Some? ==> FirstType(r) == Some(Colon)
    decreases t, 2
  {
    if t.Some? then [Mark(Colon)] + PrintTypeNode(t.value) else []
  }

  function PrintTypeNode(t: TypeNode): (r: seq<Slot>)
    ensures StartsWithOneOf(r, TypeStarts)
    decreases t, 1
  {
    match t
    case ObjectLiteralType(members) =>
      [Mark(OpenBrace)] + (PrintPropertyDeclarations(members) + [Mark(CloseBrace)])
    case IdentifierType(reference) => [Name(reference.text)]
    case SignatureDeclaration(typeParameters, parameters, returnType) =>
      AngleList(PrintTypeParameters(typeParameters)) + ([Mark(OpenParen)] + PrintSignatureRest(t))
  }

  /** A signature type after the `(` of its parameter list. */
  function PrintSignatureRest(t: TypeNode): (r: seq<Slot>)
    requires t.SignatureDeclaration?
    ensures |r| >= 3
    decreases t, 0
  {
    PrintParameters(t.signatureParameters) + ([Mark(CloseParen)] + ([Mark(Arrow)] + PrintTypeNode(t.signatureReturnType)))
  }

  function PrintStatement(s: Statement): (r: seq<Slot>)
    requires WellFormedStatement(s)
    ensures StartsWithOneOf(r, ExpressionStarts + {TokenType.Var, TokenType.Type, TokenType.Return})
    decreases s, 1
  {
    match s
    case Var(name, annotation, initializer) =>
      [Mark(TokenType.Var)] + ([Name(name.text)] + (PrintAnnotation(annotation) +
        ([Mark(Equals)] + PrintExpression(initializer))))
    case TypeAlias(name, aliased) =>
      [Mark(TokenType.Type)] + ([Name(name.text)] + ([Mark(Equals)] + PrintTypeNode(aliased)))
    case ExpressionStatement(e) => PrintExpression(e)
    case Return(e) => [Mark(TokenType.Return)] + PrintExpression(e)
  }

  function PrintParameter(p: Parameter): (r: seq<Slot>)
    ensures FirstType(r) == Some(TokenType.Identifier)
    decreases p, 1
  {
    [Name(p.parameterName.text)] + PrintAnnotation(p.parameterType)
  }

  function PrintTypeParameter(tp: TypeParameter): (r: seq<Slot>)
    ensures r == [Name(tp.typeParameterName.text)]
  {
    [Name(tp.typeParameterName.text)]
  }

  function PrintPropertyAssignment(pa: PropertyAssignment): (r: seq<Slot>)
    requires WellFormedExpression(pa.propertyValue)
    ensures FirstType(r) == Some(TokenType.Identifier)
    decreases pa, 1
  {
    [Name(pa.propertyName.text)] + ([Mark(Colon)] + PrintExpression(pa.propertyValue))
  }

  function PrintPropertyDeclaration(pd: PropertyDeclaration): (r: seq<Slot>)
    ensures FirstType(r) == Some(TokenType.Identifier)
    decreases pd, 1
  {
    [Name(pd.declaredName)] + PrintAnnotation(pd.declaredType)
  }

  // Lists: the elements with a separator between them. The terminator is added by the
  // enclosing printer.

  function PrintExpressions(es: seq<Expression>): (r: seq<Slot>)
    requires forall i | 0 <= i < |es| :: WellFormedExpression(es[i])
    ensures es == [] <==> r == []
    ensures es != [] ==> StartsWithOneOf(r, ExpressionStarts)
    decreases es, 0
  {
    if es == [] then []
    else if |es| == 1 then PrintExpression(es[0])
    else PrintExpression(es[0]) + ([Mark(Comma)] + PrintExpressions(es[1..]))
  }

  function PrintStatements(ss: seq<Statement>): (r: seq<Slot>)
    requires forall i | 0 <= i < |ss| :: WellFormedStatement(ss[i])
    ensures ss == [] <==> r == []
    ensures ss != [] ==> StartsWithOneOf(r, ExpressionStarts + {TokenType.Var, TokenType.Type, TokenType.Return})
    decreases ss, 0
  {
    if ss == [] then []
    else if |ss| == 1 then PrintStatement(ss[0])
    else PrintStatement(ss[0]) + ([Mark(Semicolon)] + PrintStatements(ss[1..]))
  }

  function PrintTypeNodes(ts: seq<TypeNode>): (r: seq<Slot>)
    ensures ts == [] <==> r == []
    ensures ts != [] ==> StartsWithOneOf(r, TypeStarts)
    decreases ts, 0
  {
    if ts == [] then []
    else if |ts| == 1 then PrintTypeNode(ts[0])
    else PrintTypeNode(ts[0]) + ([Mark(Comma)] + PrintTypeNodes(ts[1..]))
  }

  function PrintParameters(ps: seq<Parameter>): (r: seq<Slot>)
    ensures ps == [] <==> r == []
    ensures ps != [] ==> FirstType(r) == Some(TokenType.Identifier)
    decreases ps, 0
  {
    if ps == [] then []
    else if |ps| == 1 then PrintParameter(ps[0])
    else PrintParameter(ps[0]) + ([Mark(Comma)] + PrintParameters(ps[1..]))
  }

  function PrintTypeParameters(tps: seq<TypeParameter>): (r: seq<Slot>)
    ensures tps == [] <==> r == []
    ensures tps != [] ==> FirstType(r) == Some(TokenType.Identifier)
  {
    if tps == [] then []
    else if |tps| == 1 then PrintTypeParameter(tps[0])
    else PrintTypeParameter(tps[0]) + ([Mark(Comma)] + PrintTypeParameters(tps[1..]))
  }

  function PrintPropertyAssignments(pas: seq<PropertyAssignment>): (r: seq<Slot>)
    requires forall i | 0 <= i < |pas| :: WellFormedExpression(pas[i].propertyValue)
    ensures pas == [] <==> r == []
    ensures pas != [] ==> FirstType(r) == Some(TokenType.Identifier)
    decreases pas, 0
  {
    if pas == [] then []
    else if |pas| == 1 then PrintPropertyAssignment(pas[0])
    else PrintPropertyAssignment(pas[0]) + ([Mark(Comma)] + PrintPropertyAssignments(pas[1..]))
  }

  function PrintPropertyDeclarations(pds: seq<PropertyDeclaration>): (r: seq<Slot>)
    ensures pds == [] <==> r == []
    ensures pds != [] ==> FirstType(r) == Some(TokenType.Identifier)
    decreases pds, 0
  {
    if pds == [] then []
    else if |pds| == 1 then PrintPropertyDeclaration(pds[0])
    else PrintPropertyDeclaration(pds[0]) + ([Mark(Comma)] + PrintPropertyDeclarations(pds[1..]))
  }

  /** A module: its statements separated by `;`, then the end of the input. */
  function PrintModule(m: Module): (r: seq<Slot>)
    requires WellFormedModule(m)
    ensures |r| >= 1 && r[|r| - 1] == Mark(EOF)
  {
    PrintStatements(m.statements) + [Mark(EOF)]
  }
}
