/**
 * The `bind` methods of the files of src/types and `binder::bind` of src/binder.rs.
 *
 * Each node is bound at its position `id`; the node that binds it is `id.up`. Binding a
 * node writes its parent slot (when it has one), binds its children in source order,
 * and a declaring node is then declared into the scope table its caller hands down.
 * The first refused declaration aborts the whole pass and the state reached so far is
 * kept.
 *
 * Only the declaring children of a scope owner ever write into the owner's table, and
 * every other write lands inside the subtree being bound, so binding a subtree is
 * modelled as producing its own slots and tables, merged in bind order; the owner's
 * table is threaded through the binding of its declaring children and recorded at the
 * owner.
 *
 * Child positions: Var name 0, annotation 1, initializer 2; TypeAlias name 0, type 1;
 * expression statements and returns 0; Assignment name 0, value 1; Function name 0,
 * return type 1, then type parameters, parameters and body statements; Call callee 0,
 * then type arguments and arguments; SignatureDeclaration type parameters, parameters,
 * then the return type; object literals and object types their properties in order;
 * Parameter name 0, annotation 1; PropertyAssignment name 0, value 1; TypeParameter
 * name 0; PropertyDeclaration annotation 0; the identifier of an identifier expression
 * or identifier type 0.
 */
module Binding {
  import opened Wrappers
  import opened Errors
  import opened Binder
  import opened Syntax

  // ---------------------------------------------------------------------------------
  // Reference definitions: the declarations each scope receives
  // ---------------------------------------------------------------------------------

  /** A Var or TypeAlias at `id` declares itself under its name; the other statements declare nothing. */
  function StatementEntries(s: Statement, id: NodeId): seq<Entry> {
    if IsDeclaration(s) then [Entry(StatementName(s), Declaration(id, StatementMeaning(s)))] else []
  }

  function ParameterEntry(p: Parameter, id: NodeId): Entry {
    Entry(p.parameterName.text, Declaration(id, ParameterMeaning(p)))
  }

  function TypeParameterEntry(tp: TypeParameter, id: NodeId): Entry {
    Entry(tp.typeParameterName.text, Declaration(id, TypeParameterMeaning(tp)))
  }

  function PropertyAssignmentEntry(pa: PropertyAssignment, id: NodeId): Entry {
    Entry(pa.propertyName.text, Declaration(id, PropertyAssignmentMeaning(pa)))
  }

  function PropertyDeclarationEntry(pd: PropertyDeclaration, id: NodeId): Entry {
    Entry(pd.declaredName, Declaration(id, PropertyDeclarationMeaning(pd)))
  }

  function StatementsEntries(ss: seq<Statement>, owner: NodeId, offset: nat): seq<Entry>
    decreases ss
  {
    if ss == [] then []
    else StatementEntries(ss[0], Child(owner, offset)) + StatementsEntries(ss[1..], owner, offset + 1)
  }

  function ParametersEntries(ps: seq<Parameter>, owner: NodeId, offset: nat): seq<Entry>
    decreases ps
  {
    if ps == [] then []
    else [ParameterEntry(ps[0], Child(owner, offset))] + ParametersEntries(ps[1..], owner, offset + 1)
  }

  function TypeParametersEntries(tps: seq<TypeParameter>, owner: NodeId, offset: nat): seq<Entry>
    decreases tps
  {
    if tps == [] then []
    else [TypeParameterEntry(tps[0], Child(owner, offset))] + TypeParametersEntries(tps[1..], owner, offset + 1)
  }

  function PropertyAssignmentsEntries(pas: seq<PropertyAssignment>, owner: NodeId, offset: nat): seq<Entry>
    decreases pas
  {
    if pas == [] then []
    else [PropertyAssignmentEntry(pas[0], Child(owner, offset))] + PropertyAssignmentsEntries(pas[1..], owner, offset + 1)
  }

  function PropertyDeclarationsEntries(pds: seq<PropertyDeclaration>, owner: NodeId, offset: nat): seq<Entry>
    decreases pds
  {
    if pds == [] then []
    else [PropertyDeclarationEntry(pds[0], Child(owner, offset))] + PropertyDeclarationsEntries(pds[1..], owner, offset + 1)
  }

  /** The declarations a function at `id` receives into its `locals`, in bind order. */
  function FunctionScopeEntries(e: Expression, id: NodeId): seq<Entry>
    requires e.Function?
  {
    TypeParametersEntries(e.typeParameters, id, 2)
    + ParametersEntries(e.parameters, id, 2 + |e.typeParameters|)
    + StatementsEntries(e.body, id, 2 + |e.typeParameters| + |e.parameters|)
  }

  /** The declarations a signature at `id` receives into its `locals`, in bind order. */
  function SignatureScopeEntries(t: TypeNode, id: NodeId): seq<Entry>
    requires t.SignatureDeclaration?
  {
    TypeParametersEntries(t.signatureTypeParameters, id, 0)
    + ParametersEntries(t.signatureParameters, id, |t.signatureTypeParameters|)
  }

  // ---------------------------------------------------------------------------------
  // Reference definitions: outlines
  // ---------------------------------------------------------------------------------

  /**
   * What binding a subtree must produce, stated without regard to order: the nodes that
   * carry a parent slot, the declarations each scope owner receives (in source order),
   * and whether every one of those scopes accepts its declarations.
   */
  datatype Outline = Outline(slots: set<NodeId>, scopes: map<NodeId, seq<Entry>>, accepted: bool)

  const Nothing := Outline({}, map[], true)

  function Join(a: Outline, b: Outline): Outline {
    Outline(a.slots + b.slots, a.scopes + b.scopes, a.accepted && b.accepted)
  }

  /** A node with a parent slot and no scope of its own. */
  function Slot(id: NodeId): Outline {
    Outline({id}, map[], true)
  }

  /** `o` plus the scope of `id`, which receives `entries` starting from an empty table. */
  function Own(o: Outline, id: NodeId, entries: seq<Entry>): Outline {
    Outline(o.slots, o.scopes[id := entries], o.accepted && DeclareAll(map[], entries).Ok?)
  }

  function OutlineOptionalIdentifier(i: Option<Identifier>, id: NodeId): Outline {
    if i.Some? then Slot(id) else Nothing
  }

  function OutlineOptionalTypeNode(t: Option<TypeNode>, id: NodeId): Outline
    decreases t
  {
    if t.Some? then OutlineTypeNode(t.value, id) else Nothing
  }

  function OutlineExpression(e: Expression, id: NodeId): Outline
    decreases e, 1
  {
    match e
    case IdentifierExpression(_) => Slot(Child(id, 0))
    case NumericLiteral(_) => Nothing
    case StringLiteral(_) => Nothing
    case Assignment(_, value) =>
      Join(Join(Slot(id), Slot(Child(id, 0))), OutlineExpression(value, Child(id, 1)))
    case Object(properties) =>
      Join(Slot(id), Own(OutlinePropertyAssignments(properties, id, 0), id, PropertyAssignmentsEntries(properties, id, 0)))
    case Function(name, tps, ps, returnType, body) =>
      Join(Join(Join(Slot(id), OutlineOptionalIdentifier(name, Child(id, 0))), OutlineOptionalTypeNode(returnType, Child(id, 1))),
           OutlineFunctionScope(e, id))
    case Call(callee, typeArguments, arguments) =>
      Join(Join(Join(Slot(id), OutlineExpression(callee, Child(id, 0))), OutlineTypeNodes(typeArguments, id, 1)),
           OutlineExpressions(arguments, id, 1 + |typeArguments|))
  }

  /** A function's type parameters, parameters and body, and its own `locals`. */
  function OutlineFunctionScope(e: Expression, id: NodeId): Outline
    requires e.Function?
    decreases e, 0
  {
    Own(Join(Join(OutlineTypeParameters(e.typeParameters, id, 2),
                  OutlineParameters(e.parameters, id, 2 + |e.typeParameters|)),
             OutlineStatements(e.body, id, 2 + |e.typeParameters| + |e.parameters|)),
        id, FunctionScopeEntries(e, id))
  }

  function OutlineTypeNode(t: TypeNode, id: NodeId): Outline
    decreases t, 1
  {
    match t
    case ObjectLiteralType(members) =>
      Join(Slot(id), Own(OutlinePropertyDeclarations(members, id, 0), id, PropertyDeclarationsEntries(members, id, 0)))
    case IdentifierType(_) => Slot(Child(id, 0))
    case SignatureDeclaration(tps, ps, returnType) =>
      Join(Join(Slot(id), OutlineSignatureScope(t, id)), OutlineTypeNode(returnType, Child(id, |tps| + |ps|)))
  }

  /** A signature's type parameters and parameters, and its own `locals`. */
  function OutlineSignatureScope(t: TypeNode, id: NodeId): Outline
    requires t.SignatureDeclaration?
    decreases t, 0
  {
    Own(Join(OutlineTypeParameters(t.signatureTypeParameters, id, 0),
             OutlineParameters(t.signatureParameters, id, |t.signatureTypeParameters|)),
        id, SignatureScopeEntries(t, id))
  }

  function OutlineStatement(s: Statement, id: NodeId): Outline
    decreases s
  {
    match s
    case Var(_, annotation, initializer) =>
      Join(Join(Join(Slot(id), Slot(Child(id, 0))), OutlineExpression(initializer, Child(id, 2))),
           OutlineOptionalTypeNode(annotation, Child(id, 1)))
    case TypeAlias(_, aliased) =>
      Join(Join(Slot(id), Slot(Child(id, 0))), OutlineTypeNode(aliased, Child(id, 1)))
    case ExpressionStatement(expression) => Join(Slot(id), OutlineExpression(expression, Child(id, 0)))
    case Return(returned) => Join(Slot(id), OutlineExpression(returned, Child(id, 0)))
  }

  function OutlineParameter(p: Parameter, id: NodeId): Outline
    decreases p
  {
    Join(Join(Slot(id), Slot(Child(id, 0))), OutlineOptionalTypeNode(p.parameterType, Child(id, 1)))
  }

  function OutlineTypeParameter(tp: TypeParameter, id: NodeId): Outline {
    Join(Slot(id), Slot(Child(id, 0)))
  }

  function OutlinePropertyAssignment(pa: PropertyAssignment, id: NodeId): Outline
    decreases pa
  {
    Join(Join(Slot(id), Slot(Child(id, 0))), OutlineExpression(pa.propertyValue, Child(id, 1)))
  }

  /** A property declaration has no parent slot of its own; only its annotation is bound. */
  function OutlinePropertyDeclaration(pd: PropertyDeclaration, id: NodeId): Outline
    decreases pd
  {
    OutlineOptionalTypeNode(pd.declaredType, Child(id, 0))
  }

  function OutlineExpressions(es: seq<Expression>, owner: NodeId, offset: nat): Outline
    decreases es
  {
    if es == [] then Nothing
    else Join(OutlineExpression(es[0], Child(owner, offset)), OutlineExpressions(es[1..], owner, offset + 1))
  }

  function OutlineTypeNodes(ts: seq<TypeNode>, owner: NodeId, offset: nat): Outline
    decreases ts
  {
    if ts == [] then Nothing
    else Join(OutlineTypeNode(ts[0], Child(owner, offset)), OutlineTypeNodes(ts[1..], owner, offset + 1))
  }

  function OutlineStatements(ss: seq<Statement>, owner: NodeId, offset: nat): Outline
    decreases ss
  {
    if ss == [] then Nothing
    else Join(OutlineStatement(ss[0], Child(owner, offset)), OutlineStatements(ss[1..], owner, offset + 1))
  }

  function OutlineParameters(ps: seq<Parameter>, owner: NodeId, offset: nat): Outline
    decreases ps
  {
    if ps == [] then Nothing
    else Join(OutlineParameter(ps[0], Child(owner, offset)), OutlineParameters(ps[1..], owner, offset + 1))
  }

  function OutlineTypeParameters(tps: seq<TypeParameter>, owner: NodeId, offset: nat): Outline
    decreases tps
  {
    if tps == [] then Nothing
    else Join(OutlineTypeParameter(tps[0], Child(owner, offset)), OutlineTypeParameters(tps[1..], owner, offset + 1))
  }

  function OutlinePropertyAssignments(pas: seq<PropertyAssignment>, owner: NodeId, offset: nat): Outline
    decreases pas
  {
    if pas == [] then Nothing
    else Join(OutlinePropertyAssignment(pas[0], Child(owner, offset)), OutlinePropertyAssignments(pas[1..], owner, offset + 1))
  }

  function OutlinePropertyDeclarations(pds: seq<PropertyDeclaration>, owner: NodeId, offset: nat): Outline
    decreases pds
  {
    if pds == [] then Nothing
    else Join(OutlinePropertyDeclaration(pds[0], Child(owner, offset)), OutlinePropertyDeclarations(pds[1..], owner, offset + 1))
  }

  function OutlineModule(m: Module): Outline {
    Own(OutlineStatements(m.statements, Root, 0), Root, StatementsEntries(m.statements, Root, 0))
  }

  // ---------------------------------------------------------------------------------
  // Agreement of a bind with its outline
  // ---------------------------------------------------------------------------------

  /** Every parent slot holds the node that bound it: the syntactic parent. */
  predicate Syntactic(parents: map<NodeId, NodeId>) {
    forall k | k in parents :: k.Child? && parents[k] == k.up
  }

  /** The tables are those of the scope owners, each holding its declarations declared in order. */
  predicate TablesMatch(tables: map<NodeId, Table>, scopes: map<NodeId, seq<Entry>>) {
    && tables.Keys == scopes.Keys
    && forall o | o in scopes :: o in tables && DeclareAll(map[], scopes[o]) == Ok(tables[o])
  }

  /**
   * Binding ends without error exactly when every scope accepts its declarations; it then
   * has given a parent slot to exactly the outlined nodes and filled exactly the outlined
   * tables. Whether it fails or not, every slot it wrote holds the syntactic parent.
   */
  predicate Agrees(r: Bound, o: Outline) {
    && Syntactic(r.state.parents)
    && (r.error.None? <==> o.accepted)
    && (r.error.None? ==> r.state.parents.Keys == o.slots && TablesMatch(r.state.tables, o.scopes))
  }

  /** The binding of a run of declaring siblings, and the table they have declared into so far. */
  datatype Scoped = Scoped(bound: Bound, table: Table)

  /**
   * Like `Agrees` for a run of declaring siblings that starts declaring into `table`: on
   * success their declarations are all in the final table, in order.
   */
  predicate ScopedAgrees(r: Scoped, o: Outline, table: Table, entries: seq<Entry>) {
    && Syntactic(r.bound.state.parents)
    && (r.bound.error.None? <==> o.accepted && DeclareAll(table, entries).Ok?)
    && (r.bound.error.None? ==>
          && r.bound.state.parents.Keys == o.slots
          && TablesMatch(r.bound.state.tables, o.scopes)
          && DeclareAll(table, entries) == Ok(r.table))
  }

  // ---------------------------------------------------------------------------------
  // Bind steps
  // ---------------------------------------------------------------------------------

  /** A bind that writes nothing. */
  function Skip(): (r: Bound)
    ensures Agrees(r, Nothing)
  {
    Bound(EmptyState, None)
  }

  /** Writing the parent slot of the node at `id`. */
  function Visit(id: NodeId): (r: Bound)
    requires id.Child?
    ensures Agrees(r, Slot(id))
  {
    Bound(BindState(map[id := id.up], map[]), None)
  }

  /** `a` followed by `b`, which runs only when `a` succeeded (the `?` of the source). */
  function Then(a: Bound, b: Bound): (r: Bound)
    ensures a.error.Some? ==> r == a
    ensures r.error.None? <==> a.error.None? && b.error.None?
  {
    if a.error.Some? then a
    else Bound(BindState(a.state.parents + b.state.parents, a.state.tables + b.state.tables), b.error)
  }

  lemma ThenAgrees(a: Bound, oa: Outline, b: Bound, ob: Outline)
    requires Agrees(a, oa) && Agrees(b, ob)
    ensures Agrees(Then(a, b), Join(oa, ob))
  {
    if a.error.None? {
      var p := a.state.parents + b.state.parents;
      forall k | k in p
        ensures k.Child? && p[k] == k.up
      {
        if k in b.state.parents {
          assert p[k] == b.state.parents[k];
        } else {
          assert p[k] == a.state.parents[k];
        }
      }
      if b.error.None? {
        var t := a.state.tables + b.state.tables;
        var s := oa.scopes + ob.scopes;
        forall o | o in s
          ensures o in t && DeclareAll(map[], s[o]) == Ok(t[o])
        {
          if o in ob.scopes {
            assert s[o] == ob.scopes[o] && t[o] == b.state.tables[o];
          } else {
            assert s[o] == oa.scopes[o] && t[o] == a.state.tables[o];
          }
        }
      }
    }
  }

  /** The source's `declare_symbol` for a node whose subtree has been bound as `sub`. */
  function Declare(sub: Bound, table: Table, entries: seq<Entry>): (r: Scoped)
    ensures sub.error.Some? ==> r == Scoped(sub, table)
    ensures r.bound.state == sub.state
    ensures r.bound.error.None? <==> sub.error.None? && DeclareAll(table, entries).Ok?
    ensures r.bound.error.None? ==> DeclareAll(table, entries) == Ok(r.table)
  {
    if sub.error.Some? then Scoped(sub, table)
    else
      match DeclareAll(table, entries)
      case Err(e) => Scoped(Bound(sub.state, Some(e)), table)
      case Ok(t) => Scoped(sub, t)
  }

  /** `a` followed by `b`, which continues declaring into the table `a` left. */
  function Chain(a: Scoped, b: Scoped): (r: Scoped)
    ensures a.bound.error.Some? ==> r == a
  {
    if a.bound.error.Some? then a else Scoped(Then(a.bound, b.bound), b.table)
  }

  lemma ChainAgrees(a: Scoped, oa: Outline, table: Table, ea: seq<Entry>, b: Scoped, ob: Outline, eb: seq<Entry>)
    requires ScopedAgrees(a, oa, table, ea)
    requires ScopedAgrees(b, ob, a.table, eb)
    ensures ScopedAgrees(Chain(a, b), Join(oa, ob), table, ea + eb)
  {
    DeclareAllConcat(table, ea, eb);
    if a.bound.error.None? {
      ThenAgrees(a.bound, Outline(oa.slots, oa.scopes, true), b.bound, Outline(ob.slots, ob.scopes, b.bound.error.None?));
    }
  }

  /** The first sibling of a run, declared, followed by the rest of the run. */
  lemma DeclareAgrees(sub: Bound, os: Outline, table: Table, entries: seq<Entry>, rest: Scoped, or: Outline, more: seq<Entry>)
    requires Agrees(sub, os)
    requires ScopedAgrees(rest, or, Declare(sub, table, entries).table, more)
    ensures ScopedAgrees(Chain(Declare(sub, table, entries), rest), Join(os, or), table, entries + more)
  {
    ChainAgrees(Declare(sub, table, entries), os, table, entries, rest, or, more);
  }

  /** The owner at `id` records the table its declaring children left. */
  function Record(s: Scoped, id: NodeId): Bound {
    Bound(BindState(s.bound.state.parents, s.bound.state.tables[id := s.table]), s.bound.error)
  }

  lemma RecordAgrees(s: Scoped, o: Outline, entries: seq<Entry>, id: NodeId)
    requires ScopedAgrees(s, o, map[], entries)
    ensures Agrees(Record(s, id), Own(o, id, entries))
  {
  }

  // ---------------------------------------------------------------------------------
  // The bind methods
  // ---------------------------------------------------------------------------------

  /** src/types/identifier.rs: an identifier only records its parent, and never fails. */
  function BindIdentifier(id: NodeId): (r: Bound)
    requires id.Child?
    ensures r.error.None?
    ensures r.state.parents == map[id := id.up] && r.state.tables == map[]
    ensures Agrees(r, Slot(id))
  {
    Visit(id)
  }

  function BindOptionalIdentifier(i: Option<Identifier>, id: NodeId): (r: Bound)
    requires id.Child?
    ensures Agrees(r, OutlineOptionalIdentifier(i, id))
  {
    if i.Some? then BindIdentifier(id) else Skip()
  }

  function BindOptionalTypeNode(t: Option<TypeNode>, id: NodeId): (r: Bound)
    requires id.Child?
    ensures Agrees(r, OutlineOptionalTypeNode(t, id))
    decreases t
  {
    if t.Some? then BindTypeNode(t.value, id) else Skip()
  }

  /** `Expression::bind`, made to report the first error of its children. */
  function BindExpression(e: Expression, id: NodeId): (r: Bound)
    requires id.Child?
    ensures Agrees(r, OutlineExpression(e, id))
    decreases e, 3
  {
    match e
    case IdentifierExpression(_) => BindIdentifier(Child(id, 0))
    case NumericLiteral(_) => Skip()
    case StringLiteral(_) => Skip()
    case Assignment(_, _) =>
      assert OutlineExpression(e, id)
          == Join(Join(Slot(id), Slot(Child(id, 0))), OutlineExpression(e.assignedValue, Child(id, 1)));
      BindAssignment(e, id)
    case Object(_) =>
      assert OutlineExpression(e, id)
          == Join(Slot(id), Own(OutlinePropertyAssignments(e.properties, id, 0), id, PropertyAssignmentsEntries(e.properties, id, 0)));
      BindObject(e, id)
    case Function(_, _, _, _, _) =>
      assert OutlineExpression(e, id)
          == Join(Join(Join(Slot(id), OutlineOptionalIdentifier(e.functionName, Child(id, 0))),
                       OutlineOptionalTypeNode(e.returnType, Child(id, 1))), OutlineFunctionScope(e, id));
      BindFunction(e, id)
    case Call(_, _, _) =>
      assert OutlineExpression(e, id)
          == Join(Join(Join(Slot(id), OutlineExpression(e.callee, Child(id, 0))), OutlineTypeNodes(e.typeArguments, id, 1)),
                  OutlineExpressions(e.arguments, id, 1 + |e.typeArguments|));
      BindCall(e, id)
  }

  function BindAssignment(e: Expression, id: NodeId): (r: Bound)
    requires e.Assignment? && id.Child?
    ensures Agrees(r, Join(Join(Slot(id), Slot(Child(id, 0))), OutlineExpression(e.assignedValue, Child(id, 1))))
    decreases e, 2
  {
    var head := Then(Visit(id), BindIdentifier(Child(id, 0)));
    var tail := BindExpression(e.assignedValue, Child(id, 1));
    ThenAgrees(Visit(id), Slot(id), BindIdentifier(Child(id, 0)), Slot(Child(id, 0)));
    ThenAgrees(head, Join(Slot(id), Slot(Child(id, 0))), tail, OutlineExpression(e.assignedValue, Child(id, 1)));
    Then(head, tail)
  }

  /** An object literal's properties are declared into a table of its own. */
  function BindObject(e: Expression, id: NodeId): (r: Bound)
    requires e.Object? && id.Child?
    ensures Agrees(r, Join(Slot(id), Own(OutlinePropertyAssignments(e.properties, id, 0), id,
                                         PropertyAssignmentsEntries(e.properties, id, 0))))
    decreases e, 2
  {
    var members := BindPropertyAssignments(e.properties, id, 0, map[]);
    var own := Record(members, id);
    RecordAgrees(members, OutlinePropertyAssignments(e.properties, id, 0), PropertyAssignmentsEntries(e.properties, id, 0), id);
    ThenAgrees(Visit(id), Slot(id), own,
               Own(OutlinePropertyAssignments(e.properties, id, 0), id, PropertyAssignmentsEntries(e.properties, id, 0)));
    Then(Visit(id), own)
  }

  function BindFunction(e: Expression, id: NodeId): (r: Bound)
    requires e.Function? && id.Child?
    ensures Agrees(r, Join(Join(Join(Slot(id), OutlineOptionalIdentifier(e.functionName, Child(id, 0))),
                                OutlineOptionalTypeNode(e.returnType, Child(id, 1))),
                           OutlineFunctionScope(e, id)))
    decreases e, 2
  {
    var named := BindOptionalIdentifier(e.functionName, Child(id, 0));
    var typed := BindOptionalTypeNode(e.returnType, Child(id, 1));
    var head := Then(Then(Visit(id), named), typed);
    ThenAgrees(Visit(id), Slot(id), named, OutlineOptionalIdentifier(e.functionName, Child(id, 0)));
    ThenAgrees(Then(Visit(id), named), Join(Slot(id), OutlineOptionalIdentifier(e.functionName, Child(id, 0))),
               typed, OutlineOptionalTypeNode(e.returnType, Child(id, 1)));
    var locals := BindFunctionScope(e, id);
    ThenAgrees(head, Join(Join(Slot(id), OutlineOptionalIdentifier(e.functionName, Child(id, 0))),
                          OutlineOptionalTypeNode(e.returnType, Child(id, 1))),
               locals, OutlineFunctionScope(e, id));
    Then(head, locals)
  }

  function BindCall(e: Expression, id: NodeId): (r: Bound)
    requires e.Call? && id.Child?
    ensures Agrees(r, Join(Join(Join(Slot(id), OutlineExpression(e.callee, Child(id, 0))), OutlineTypeNodes(e.typeArguments, id, 1)),
                           OutlineExpressions(e.arguments, id, 1 + |e.typeArguments|)))
    decreases e, 2
  {
    var callee := BindExpression(e.callee, Child(id, 0));
    var head := Then(Visit(id), callee);
    var middle := BindTypeNodes(e.typeArguments, id, 1);
    var tail := BindExpressions(e.arguments, id, 1 + |e.typeArguments|);
    ThenAgrees(Visit(id), Slot(id), callee, OutlineExpression(e.callee, Child(id, 0)));
    ThenAgrees(head, Join(Slot(id), OutlineExpression(e.callee, Child(id, 0))), middle, OutlineTypeNodes(e.typeArguments, id, 1));
    ThenAgrees(Then(head, middle), Join(Join(Slot(id), OutlineExpression(e.callee, Child(id, 0))), OutlineTypeNodes(e.typeArguments, id, 1)),
               tail, OutlineExpressions(e.arguments, id, 1 + |e.typeArguments|));
    Then(Then(head, middle), tail)
  }

  /** A function's type parameters, then its parameters, declared into its fresh `locals`. */
  function BindFunctionHeader(e: Expression, id: NodeId): (r: Scoped)
    requires e.Function?
    ensures ScopedAgrees(r, Join(OutlineTypeParameters(e.typeParameters, id, 2),
                                 OutlineParameters(e.parameters, id, 2 + |e.typeParameters|)),
                         map[], TypeParametersEntries(e.typeParameters, id, 2)
                                + ParametersEntries(e.parameters, id, 2 + |e.typeParameters|))
    decreases e, 0
  {
    var first := BindTypeParameters(e.typeParameters, id, 2, map[]);
    var second := BindParameters(e.parameters, id, 2 + |e.typeParameters|, first.table);
    ChainAgrees(first, OutlineTypeParameters(e.typeParameters, id, 2), map[], TypeParametersEntries(e.typeParameters, id, 2),
                second, OutlineParameters(e.parameters, id, 2 + |e.typeParameters|),
                ParametersEntries(e.parameters, id, 2 + |e.typeParameters|));
    Chain(first, second)
  }

  /** A function's type parameters, parameters and body statements, all declared into its own `locals`. */
  function BindFunctionScope(e: Expression, id: NodeId): (r: Bound)
    requires e.Function?
    ensures Agrees(r, OutlineFunctionScope(e, id))
    decreases e, 1
  {
    var front := BindFunctionHeader(e, id);
    var body := BindStatements(e.body, id, 2 + |e.typeParameters| + |e.parameters|, front.table);
    FunctionScopeAgrees(e, id, front, body);
    Record(Chain(front, body), id)
  }

  lemma FunctionScopeAgrees(e: Expression, id: NodeId, front: Scoped, body: Scoped)
    requires e.Function?
    requires ScopedAgrees(front, Join(OutlineTypeParameters(e.typeParameters, id, 2),
                                      OutlineParameters(e.parameters, id, 2 + |e.typeParameters|)),
                          map[], TypeParametersEntries(e.typeParameters, id, 2)
                                 + ParametersEntries(e.parameters, id, 2 + |e.typeParameters|))
    requires ScopedAgrees(body, OutlineStatements(e.body, id, 2 + |e.typeParameters| + |e.parameters|), front.table,
                          StatementsEntries(e.body, id, 2 + |e.typeParameters| + |e.parameters|))
    ensures Agrees(Record(Chain(front, body), id), OutlineFunctionScope(e, id))
  {
    ChainAgrees(front, Join(OutlineTypeParameters(e.typeParameters, id, 2), OutlineParameters(e.parameters, id, 2 + |e.typeParameters|)),
                map[], TypeParametersEntries(e.typeParameters, id, 2) + ParametersEntries(e.parameters, id, 2 + |e.typeParameters|),
                body, OutlineStatements(e.body, id, 2 + |e.typeParameters| + |e.parameters|),
                StatementsEntries(e.body, id, 2 + |e.typeParameters| + |e.parameters|));
    RecordAgrees(Chain(front, body), Join(Join(OutlineTypeParameters(e.typeParameters, id, 2),
                                               OutlineParameters(e.parameters, id, 2 + |e.typeParameters|)),
                                          OutlineStatements(e.body, id, 2 + |e.typeParameters| + |e.parameters|)),
                 FunctionScopeEntries(e, id), id);
  }

  /** `TypeNode::bind`. */
  function BindTypeNode(t: TypeNode, id: NodeId): (r: Bound)
    requires id.Child?
    ensures Agrees(r, OutlineTypeNode(t, id))
    decreases t, 2
  {
    match t
    case ObjectLiteralType(_) => BindObjectLiteralType(t, id)
    case IdentifierType(_) => BindIdentifier(Child(id, 0))
    case SignatureDeclaration(_, _, _) => BindSignature(t, id)
  }

  /** An object type's property declarations are declared into its `members`. */
  function BindObjectLiteralType(t: TypeNode, id: NodeId): (r: Bound)
    requires t.ObjectLiteralType? && id.Child?
    ensures Agrees(r, Join(Slot(id), Own(OutlinePropertyDeclarations(t.members, id, 0), id,
                                         PropertyDeclarationsEntries(t.members, id, 0))))
    decreases t, 1
  {
    var members := t.members;
    var declared := BindPropertyDeclarations(members, id, 0, map[]);
    var own := Record(declared, id);
    RecordAgrees(declared, OutlinePropertyDeclarations(members, id, 0), PropertyDeclarationsEntries(members, id, 0), id);
    ThenAgrees(Visit(id), Slot(id), own,
               Own(OutlinePropertyDeclarations(members, id, 0), id, PropertyDeclarationsEntries(members, id, 0)));
    Then(Visit(id), own)
  }

  function BindSignature(t: TypeNode, id: NodeId): (r: Bound)
    requires t.SignatureDeclaration? && id.Child?
    ensures Agrees(r, Join(Join(Slot(id), OutlineSignatureScope(t, id)),
                           OutlineTypeNode(t.signatureReturnType, Child(id, |t.signatureTypeParameters| + |t.signatureParameters|))))
    decreases t, 1
  {
    var position := Child(id, |t.signatureTypeParameters| + |t.signatureParameters|);
    var own := BindSignatureScope(t, id);
    ThenAgrees(Visit(id), Slot(id), own, OutlineSignatureScope(t, id));
    var result := BindTypeNode(t.signatureReturnType, position);
    ThenAgrees(Then(Visit(id), own), Join(Slot(id), OutlineSignatureScope(t, id)),
               result, OutlineTypeNode(t.signatureReturnType, position));
    Then(Then(Visit(id), own), result)
  }

  /** A signature's type parameters and parameters, declared into its own `locals`. */
  function BindSignatureScope(t: TypeNode, id: NodeId): (r: Bound)
    requires t.SignatureDeclaration?
    ensures Agrees(r, OutlineSignatureScope(t, id))
    decreases t, 0
  {
    var tps := t.signatureTypeParameters;
    var ps := t.signatureParameters;
    var first := BindTypeParameters(tps, id, 0, map[]);
    var second := BindParameters(ps, id, |tps|, first.table);
    ChainAgrees(first, OutlineTypeParameters(tps, id, 0), map[], TypeParametersEntries(tps, id, 0),
                second, OutlineParameters(ps, id, |tps|), ParametersEntries(ps, id, |tps|));
    var front := Chain(first, second);
    RecordAgrees(front, Join(OutlineTypeParameters(t.signatureTypeParameters, id, 0),
                             OutlineParameters(t.signatureParameters, id, |t.signatureTypeParameters|)),
                 SignatureScopeEntries(t, id), id);
    Record(front, id)
  }

  /** `Statement::bind`, without the final `declare_symbol`, which the caller performs. */
  function BindStatement(s: Statement, id: NodeId): (r: Bound)
    requires id.Child?
    ensures Agrees(r, OutlineStatement(s, id))
    decreases s
  {
    match s
    case Var(_, annotation, initializer) =>
      var head := Then(Visit(id), BindIdentifier(Child(id, 0)));
      var middle := BindExpression(initializer, Child(id, 2));
      var tail := BindOptionalTypeNode(annotation, Child(id, 1));
      ThenAgrees(Visit(id), Slot(id), BindIdentifier(Child(id, 0)), Slot(Child(id, 0)));
      ThenAgrees(head, Join(Slot(id), Slot(Child(id, 0))), middle, OutlineExpression(initializer, Child(id, 2)));
      ThenAgrees(Then(head, middle), Join(Join(Slot(id), Slot(Child(id, 0))), OutlineExpression(initializer, Child(id, 2))),
                 tail, OutlineOptionalTypeNode(annotation, Child(id, 1)));
      Then(Then(head, middle), tail)
    case TypeAlias(_, aliased) =>
      var head := Then(Visit(id), BindIdentifier(Child(id, 0)));
      var tail := BindTypeNode(aliased, Child(id, 1));
      ThenAgrees(Visit(id), Slot(id), BindIdentifier(Child(id, 0)), Slot(Child(id, 0)));
      ThenAgrees(head, Join(Slot(id), Slot(Child(id, 0))), tail, OutlineTypeNode(aliased, Child(id, 1)));
      Then(head, tail)
    case ExpressionStatement(expression) =>
      var tail := BindExpression(expression, Child(id, 0));
      ThenAgrees(Visit(id), Slot(id), tail, OutlineExpression(expression, Child(id, 0)));
      Then(Visit(id), tail)
    case Return(returned) =>
      var tail := BindExpression(returned, Child(id, 0));
      ThenAgrees(Visit(id), Slot(id), tail, OutlineExpression(returned, Child(id, 0)));
      Then(Visit(id), tail)
  }

  /** `Parameter::bind`, without the final `declare_symbol`. */
  function BindParameter(p: Parameter, id: NodeId): (r: Bound)
    requires id.Child?
    ensures Agrees(r, OutlineParameter(p, id))
    decreases p
  {
    var head := Then(Visit(id), BindIdentifier(Child(id, 0)));
    var tail := BindOptionalTypeNode(p.parameterType, Child(id, 1));
    ThenAgrees(Visit(id), Slot(id), BindIdentifier(Child(id, 0)), Slot(Child(id, 0)));
    ThenAgrees(head, Join(Slot(id), Slot(Child(id, 0))), tail, OutlineOptionalTypeNode(p.parameterType, Child(id, 1)));
    Then(head, tail)
  }

  /** `TypeParameter::bind`, without the final `declare_symbol`. */
  function BindTypeParameter(tp: TypeParameter, id: NodeId): (r: Bound)
    requires id.Child?
    ensures Agrees(r, OutlineTypeParameter(tp, id))
  {
    ThenAgrees(Visit(id), Slot(id), BindIdentifier(Child(id, 0)), Slot(Child(id, 0)));
    Then(Visit(id), BindIdentifier(Child(id, 0)))
  }

  /** `PropertyAssignment::bind`, without the final `declare_symbol`. */
  function BindPropertyAssignment(pa: PropertyAssignment, id: NodeId): (r: Bound)
    requires id.Child?
    ensures Agrees(r, OutlinePropertyAssignment(pa, id))
    decreases pa
  {
    var head := Then(Visit(id), BindIdentifier(Child(id, 0)));
    var tail := BindExpression(pa.propertyValue, Child(id, 1));
    ThenAgrees(Visit(id), Slot(id), BindIdentifier(Child(id, 0)), Slot(Child(id, 0)));
    ThenAgrees(head, Join(Slot(id), Slot(Child(id, 0))), tail, OutlineExpression(pa.propertyValue, Child(id, 1)));
    Then(head, tail)
  }

  /** Binding a property declaration: its annotation, under it. */
  function BindPropertyDeclaration(pd: PropertyDeclaration, id: NodeId): (r: Bound)
    ensures Agrees(r, OutlinePropertyDeclaration(pd, id))
    decreases pd
  {
    BindOptionalTypeNode(pd.declaredType, Child(id, 0))
  }

  // ---------------------------------------------------------------------------------
  // Runs of children
  // ---------------------------------------------------------------------------------

  function BindExpressions(es: seq<Expression>, owner: NodeId, offset: nat): (r: Bound)
    ensures Agrees(r, OutlineExpressions(es, owner, offset))
    decreases es
  {
    if es == [] then Skip()
    else
      var first := BindExpression(es[0], Child(owner, offset));
      var rest := BindExpressions(es[1..], owner, offset + 1);
      ThenAgrees(first, OutlineExpression(es[0], Child(owner, offset)), rest, OutlineExpressions(es[1..], owner, offset + 1));
      Then(first, rest)
  }

  function BindTypeNodes(ts: seq<TypeNode>, owner: NodeId, offset: nat): (r: Bound)
    ensures Agrees(r, OutlineTypeNodes(ts, owner, offset))
    decreases ts
  {
    if ts == [] then Skip()
    else
      var first := BindTypeNode(ts[0], Child(owner, offset));
      var rest := BindTypeNodes(ts[1..], owner, offset + 1);
      ThenAgrees(first, OutlineTypeNode(ts[0], Child(owner, offset)), rest, OutlineTypeNodes(ts[1..], owner, offset + 1));
      Then(first, rest)
  }

  /** The statements of a body, each bound and then declared into the owner's table. */
  function BindStatements(ss: seq<Statement>, owner: NodeId, offset: nat, table: Table): (r: Scoped)
    ensures ScopedAgrees(r, OutlineStatements(ss, owner, offset), table, StatementsEntries(ss, owner, offset))
    decreases ss
  {
    if ss == [] then Scoped(Skip(), table)
    else
      var id := Child(owner, offset);
      var first := Declare(BindStatement(ss[0], id), table, StatementEntries(ss[0], id));
      var rest := BindStatements(ss[1..], owner, offset + 1, first.table);
      DeclareAgrees(BindStatement(ss[0], id), OutlineStatement(ss[0], id), table, StatementEntries(ss[0], id),
                    rest, OutlineStatements(ss[1..], owner, offset + 1), StatementsEntries(ss[1..], owner, offset + 1));
      Chain(first, rest)
  }

  function BindParameters(ps: seq<Parameter>, owner: NodeId, offset: nat, table: Table): (r: Scoped)
    ensures ScopedAgrees(r, OutlineParameters(ps, owner, offset), table, ParametersEntries(ps, owner, offset))
    decreases ps
  {
    if ps == [] then Scoped(Skip(), table)
    else
      var id := Child(owner, offset);
      var first := Declare(BindParameter(ps[0], id), table, [ParameterEntry(ps[0], id)]);
      var rest := BindParameters(ps[1..], owner, offset + 1, first.table);
      DeclareAgrees(BindParameter(ps[0], id), OutlineParameter(ps[0], id), table, [ParameterEntry(ps[0], id)],
                    rest, OutlineParameters(ps[1..], owner, offset + 1), ParametersEntries(ps[1..], owner, offset + 1));
      Chain(first, rest)
  }

  function BindTypeParameters(tps: seq<TypeParameter>, owner: NodeId, offset: nat, table: Table): (r: Scoped)
    ensures ScopedAgrees(r, OutlineTypeParameters(tps, owner, offset), table, TypeParametersEntries(tps, owner, offset))
    decreases tps
  {
    if tps == [] then Scoped(Skip(), table)
    else
      var id := Child(owner, offset);
      var first := Declare(BindTypeParameter(tps[0], id), table, [TypeParameterEntry(tps[0], id)]);
      var rest := BindTypeParameters(tps[1..], owner, offset + 1, first.table);
      DeclareAgrees(BindTypeParameter(tps[0], id), OutlineTypeParameter(tps[0], id), table, [TypeParameterEntry(tps[0], id)],
                    rest, OutlineTypeParameters(tps[1..], owner, offset + 1), TypeParametersEntries(tps[1..], owner, offset + 1));
      Chain(first, rest)
  }

  function BindPropertyAssignments(pas: seq<PropertyAssignment>, owner: NodeId, offset: nat, table: Table): (r: Scoped)
    ensures ScopedAgrees(r, OutlinePropertyAssignments(pas, owner, offset), table, PropertyAssignmentsEntries(pas, owner, offset))
    decreases pas
  {
    if pas == [] then Scoped(Skip(), table)
    else
      var id := Child(owner, offset);
      var first := Declare(BindPropertyAssignment(pas[0], id), table, [PropertyAssignmentEntry(pas[0], id)]);
      var rest := BindPropertyAssignments(pas[1..], owner, offset + 1, first.table);
      DeclareAgrees(BindPropertyAssignment(pas[0], id), OutlinePropertyAssignment(pas[0], id), table,
                    [PropertyAssignmentEntry(pas[0], id)],
                    rest, OutlinePropertyAssignments(pas[1..], owner, offset + 1),
                    PropertyAssignmentsEntries(pas[1..], owner, offset + 1));
      Chain(first, rest)
  }

  function BindPropertyDeclarations(pds: seq<PropertyDeclaration>, owner: NodeId, offset: nat, table: Table): (r: Scoped)
    ensures ScopedAgrees(r, OutlinePropertyDeclarations(pds, owner, offset), table, PropertyDeclarationsEntries(pds, owner, offset))
    decreases pds
  {
    if pds == [] then Scoped(Skip(), table)
    else
      var id := Child(owner, offset);
      var first := Declare(BindPropertyDeclaration(pds[0], id), table, [PropertyDeclarationEntry(pds[0], id)]);
      var rest := BindPropertyDeclarations(pds[1..], owner, offset + 1, first.table);
      DeclareAgrees(BindPropertyDeclaration(pds[0], id), OutlinePropertyDeclaration(pds[0], id), table,
                    [PropertyDeclarationEntry(pds[0], id)],
                    rest, OutlinePropertyDeclarations(pds[1..], owner, offset + 1),
                    PropertyDeclarationsEntries(pds[1..], owner, offset + 1));
      Chain(first, rest)
  }

  // ---------------------------------------------------------------------------------
  // The module
  // ---------------------------------------------------------------------------------

  /** `Module::bind`: the statements in order, declared into the module's `locals`. */
  function BindModule(m: Module): (r: Bound)
    ensures Agrees(r, OutlineModule(m))
  {
    var statements := BindStatements(m.statements, Root, 0, map[]);
    RecordAgrees(statements, OutlineStatements(m.statements, Root, 0), StatementsEntries(m.statements, Root, 0), Root);
    Record(statements, Root)
  }

  /** `binder::bind`: binds the module and drops the error, keeping the tree as far as it was bound. */
  function Bind(m: Module): (r: BindState)
    ensures Syntactic(r.parents)
    ensures OutlineModule(m).accepted ==>
      r.parents.Keys == OutlineModule(m).slots && TablesMatch(r.tables, OutlineModule(m).scopes)
  {
    BindModule(m).state
  }
}
