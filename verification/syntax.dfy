/**
 * The syntax tree built by the productions of the files of src/types, and the `get_name` /
 * `get_meaning` answers of its declaring nodes.
 *
 * Parent slots and scope tables are not fields here: a freshly parsed node has an
 * empty parent slot and empty tables, and binding records both in a separate arena
 * keyed by node position (module Binder).
 */
module Syntax {
  import opened Wrappers
  import opened Binder

  /** src/types/identifier.rs: a name occurrence. */
  datatype Identifier = Identifier(text: string)

  datatype Expression =
    | IdentifierExpression(identifier: Identifier)
    | NumericLiteral(numericValue: int)
    | StringLiteral(stringValue: string)
    | Assignment(target: Identifier, assignedValue: Expression)
    | Object(properties: seq<PropertyAssignment>)
    | Function(functionName: Option<Identifier>, typeParameters: seq<TypeParameter>,
               parameters: seq<Parameter>, returnType: Option<TypeNode>, body: seq<Statement>)
    | Call(callee: Expression, typeArguments: seq<TypeNode>, arguments: seq<Expression>)

  datatype Statement =
    | Var(varName: Identifier, annotation: Option<TypeNode>, initializer: Expression)
    | TypeAlias(aliasName: Identifier, aliased: TypeNode)
    | ExpressionStatement(expression: Expression)
    | Return(returned: Expression)

  datatype TypeNode =
    | ObjectLiteralType(members: seq<PropertyDeclaration>)
    | IdentifierType(reference: Identifier)
    | SignatureDeclaration(signatureTypeParameters: seq<TypeParameter>,
                           signatureParameters: seq<Parameter>, signatureReturnType: TypeNode)

  datatype Parameter = Parameter(parameterName: Identifier, parameterType: Option<TypeNode>)

  datatype TypeParameter = TypeParameter(typeParameterName: Identifier)

  datatype PropertyAssignment = PropertyAssignment(propertyName: Identifier, propertyValue: Expression)

  /** src/types/property_declaration.rs keeps the name as a plain string, not an Identifier node. */
  datatype PropertyDeclaration = PropertyDeclaration(declaredName: string, declaredType: Option<TypeNode>)

  datatype Module = Module(statements: seq<Statement>)

  /** Names of the nodes that have no identifier of their own. */
  const ObjectName := "__object"
  const SignatureName := "__signature"
  const ModuleName := "__module"

  /** Statements that `get_name` answers for; it panics on the other two kinds. */
  predicate IsDeclaration(s: Statement) {
    s.Var? || s.TypeAlias?
  }

  function StatementName(s: Statement): string
    requires IsDeclaration(s)
  {
    match s
    case Var(name, _, _) => name.text
    case TypeAlias(name, _) => name.text
  }

  function StatementMeaning(s: Statement): Meaning {
    if s.TypeAlias? then Type else Value
  }

  /** `get_name` of an expression is answered only for object literals. */
  function ExpressionName(e: Expression): string
    requires e.Object?
  {
    ObjectName
  }

  function TypeNodeName(t: TypeNode): string {
    match t
    case ObjectLiteralType(_) => ObjectName
    case IdentifierType(reference) => reference.text
    case SignatureDeclaration(_, _, _) => SignatureName
  }

  function TypeNodeMeaning(t: TypeNode): Meaning {
    Type
  }

  function IdentifierMeaning(i: Identifier): Meaning {
    Value
  }

  function ParameterMeaning(p: Parameter): Meaning {
    Value
  }

  function TypeParameterMeaning(tp: TypeParameter): Meaning {
    Type
  }

  function PropertyAssignmentMeaning(pa: PropertyAssignment): Meaning {
    Value
  }

  /** Not defined by the source; taken as a type member, like the other type-level declarations. */
  function PropertyDeclarationMeaning(pd: PropertyDeclaration): Meaning {
    Type
  }

  function ModuleMeaning(m: Module): Meaning {
    Value
  }

  /** The value of a decimal digit string, most significant digit first. */
  function DecimalValue(s: string): int {
    if s == [] then 0 else DecimalValue(s[..|s| - 1]) * 10 + (s[|s| - 1] as int - '0' as int)
  }

  function DigitChar(d: nat): char
    requires d < 10
  {
    ('0' as int + d) as char
  }

  /** The shortest decimal spelling of `n`. */
  function DecimalText(n: nat): (s: string)
    ensures |s| >= 1
    ensures forall i | 0 <= i < |s| :: '0' <= s[i] <= '9'
  {
    if n < 10 then [DigitChar(n)] else DecimalText(n / 10) + [DigitChar(n % 10)]
  }

  /** Reading back the decimal spelling of a number gives the number. */
  lemma {:induction false} DecimalRoundTrip(n: nat)
    ensures DecimalValue(DecimalText(n)) == n
  {
    var s := DecimalText(n);
    if n < 10 {
      assert s[..|s| - 1] == [];
    } else {
      assert s[..|s| - 1] == DecimalText(n / 10);
      DecimalRoundTrip(n / 10);
    }
  }
}
