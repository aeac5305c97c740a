/**
 * The order in which the `bind` methods of src/types write, stated as the source
 * performs it: one arena updated in place by a sequence of writes.
 *
 * Binding a node is a plan of steps, in the order of its `bind` method: each parent
 * slot as it is set, each scope owner's table as it comes into use (empty, as the
 * parser left it), and each `declare_symbol` into an owner's table. Running a plan
 * applies the steps one after another and stops at the first refused declaration,
 * which is where `?` ends the enclosing `bind` methods that use it; whatever was
 * written before stays written. The loops of `Expression::bind` have no `?` and in
 * the source go on to later siblings after a failed child; the model applies the
 * same stopping rule to them.
 *
 * The lemmas of this module show that the compositional binding of module `Binding`
 * is exactly that run, from any state the arena may be in, so the order of the child
 * binds and the state left behind by a failure are both pinned down.
 */
module BindingOrder {
  import opened Wrappers
  import opened Errors
  import opened Binder
  import opened Syntax
  import opened Binding

  // ---------------------------------------------------------------------------------
  // Steps and their in-place run
  // ---------------------------------------------------------------------------------

  /** One write of the binder. */
  datatype Step =
    | Link(node: NodeId, parent: NodeId)  // the parent slot of `node` is set to `parent`
    | Open(owner: NodeId)                 // the owner's table comes into use, empty
    | Enter(owner: NodeId, entry: Entry)  // `declare_symbol` into the owner's table

  /** The table of `owner` in `s`: empty when it has not been entered. */
  function TableOf(s: BindState, owner: NodeId): Table {
    if owner in s.tables then s.tables[owner] else map[]
  }

  /** The steps applied in order to `s`, stopping at the first refused declaration. */
  function Run(steps: seq<Step>, s: BindState): Bound
    decreases |steps|
  {
    if steps == [] then Bound(s, None)
    else
      match steps[0]
      case Link(node, parent) => Run(steps[1..], s.(parents := s.parents[node := parent]))
      case Open(owner) => Run(steps[1..], s.(tables := s.tables[owner := map[]]))
      case Enter(owner, e) =>
        match DeclareSymbol(TableOf(s, owner), e.name, e.declaration)
        case Err(error) => Bound(s, Some(error))
        case Ok(t) => Run(steps[1..], s.(tables := s.tables[owner := t]))
  }

  /** The distance of a node from the root. */
  function Depth(id: NodeId): nat {
    if id.Root? then 0 else Depth(id.up) + 1
  }

  /** Every table `steps` opens or declares into belongs to an owner at depth `d` or deeper. */
  predicate OwnersFrom(steps: seq<Step>, d: nat) {
    forall i | 0 <= i < |steps| :: !steps[i].Link? ==> Depth(steps[i].owner) >= d
  }

  // ---------------------------------------------------------------------------------
  // Plans: the writes of each `bind`, in source order
  // ---------------------------------------------------------------------------------

  /** The parent slot of the node at `id`. */
  function LinkUp(id: NodeId): seq<Step>
    requires id.Child?
  {
    [Link(id, id.up)]
  }

  /** A scope owner's table comes into use, then its declaring children run. */
  function Scope(id: NodeId, steps: seq<Step>): seq<Step> {
    [Open(id)] + steps
  }

  /** `declare_symbol` of each entry into the owner's table. */
  function Declarations(owner: NodeId, entries: seq<Entry>): (r: seq<Step>)
    ensures OwnersFrom(r, Depth(owner))
    decreases |entries|
  {
    if entries == [] then [] else [Enter(owner, entries[0])] + Declarations(owner, entries[1..])
  }

  function PlanOptionalIdentifier(i: Option<Identifier>, id: NodeId): (r: seq<Step>)
    requires id.Child?
    ensures OwnersFrom(r, Depth(id))
  {
    if i.Some? then LinkUp(id) else []
  }

  function PlanOptionalTypeNode(t: Option<TypeNode>, id: NodeId): (r: seq<Step>)
    requires id.Child?
    ensures OwnersFrom(r, Depth(id))
    decreases t
  {
    if t.Some? then PlanTypeNode(t.value, id) else []
  }

  /** `Expression::bind`. */
  function PlanExpression(e: Expression, id: NodeId): (r: seq<Step>)
    requires id.Child?
    ensures OwnersFrom(r, Depth(id))
    decreases e, 1
  {
    match e
    case IdentifierExpression(_) => LinkUp(Child(id, 0))
    case NumericLiteral(_) => []
    case StringLiteral(_) => []
    case Assignment(_, value) => LinkUp(id) + LinkUp(Child(id, 0)) + PlanExpression(value, Child(id, 1))
    case Object(properties) => LinkUp(id) + Scope(id, PlanPropertyAssignments(properties, id, 0))
    case Function(name, _, _, returnType, _) =>
      LinkUp(id) + PlanOptionalIdentifier(name, Child(id, 0)) + PlanOptionalTypeNode(returnType, Child(id, 1))
      + FunctionScopePlan(e, id)
    case Call(callee, typeArguments, arguments) =>
      LinkUp(id) + PlanExpression(callee, Child(id, 0)) + PlanTypeNodes(typeArguments, id, 1)
      + PlanExpressions(arguments, id, 1 + |typeArguments|)
  }

  /** A function's `locals`, then its type parameters, parameters and body statements. */
  function FunctionScopePlan(e: Expression, id: NodeId): (r: seq<Step>)
    requires e.Function?
    ensures OwnersFrom(r, Depth(id))
    decreases e, 0
  {
    Scope(id, PlanTypeParameters(e.typeParameters, id, 2)
              + PlanParameters(e.parameters, id, 2 + |e.typeParameters|)
              + PlanStatements(e.body, id, 2 + |e.typeParameters| + |e.parameters|))
  }

  /** `TypeNode::bind`. */
  function PlanTypeNode(t: TypeNode, id: NodeId): (r: seq<Step>)
    requires id.Child?
    ensures OwnersFrom(r, Depth(id))
    decreases t, 1
  {
    match t
    case ObjectLiteralType(members) => LinkUp(id) + Scope(id, PlanPropertyDeclarations(members, id, 0))
    case IdentifierType(_) => LinkUp(Child(id, 0))
    case SignatureDeclaration(typeParameters, parameters, returnType) =>
      LinkUp(id) + SignatureScopePlan(t, id) + PlanTypeNode(returnType, Child(id, |typeParameters| + |parameters|))
  }

  /** A signature's `locals`, then its type parameters and parameters. */
  function SignatureScopePlan(t: TypeNode, id: NodeId): (r: seq<Step>)
    requires t.SignatureDeclaration?
    ensures OwnersFrom(r, Depth(id))
    decreases t, 0
  {
    Scope(id, PlanTypeParameters(t.signatureTypeParameters, id, 0)
              + PlanParameters(t.signatureParameters, id, |t.signatureTypeParameters|))
  }

  /** `Statement::bind` up to, not including, its own `declare_symbol`. */
  function PlanStatement(s: Statement, id: NodeId): (r: seq<Step>)
    requires id.Child?
    ensures OwnersFrom(r, Depth(id))
    decreases s
  {
    match s
    case Var(_, annotation, initializer) =>
      LinkUp(id) + LinkUp(Child(id, 0)) + PlanExpression(initializer, Child(id, 2)) + PlanOptionalTypeNode(annotation, Child(id, 1))
    case TypeAlias(_, aliased) => LinkUp(id) + LinkUp(Child(id, 0)) + PlanTypeNode(aliased, Child(id, 1))
    case ExpressionStatement(expression) => LinkUp(id) + PlanExpression(expression, Child(id, 0))
    case Return(returned) => LinkUp(id) + PlanExpression(returned, Child(id, 0))
  }

  /** `Parameter::bind` up to its own `declare_symbol`. */
  function PlanParameter(p: Parameter, id: NodeId): (r: seq<Step>)
    requires id.Child?
    ensures OwnersFrom(r, Depth(id))
    decreases p
  {
    LinkUp(id) + LinkUp(Child(id, 0)) + PlanOptionalTypeNode(p.parameterType, Child(id, 1))
  }

  /** `TypeParameter::bind` up to its own `declare_symbol`. */
  function PlanTypeParameter(tp: TypeParameter, id: NodeId): (r: seq<Step>)
    requires id.Child?
    ensures OwnersFrom(r, Depth(id))
  {
    LinkUp(id) + LinkUp(Child(id, 0))
  }

  /** `PropertyAssignment::bind` up to its own `declare_symbol`. */
  function PlanPropertyAssignment(pa: PropertyAssignment, id: NodeId): (r: seq<Step>)
    requires id.Child?
    ensures OwnersFrom(r, Depth(id))
    decreases pa
  {
    LinkUp(id) + LinkUp(Child(id, 0)) + PlanExpression(pa.propertyValue, Child(id, 1))
  }

  /** A property declaration binds only its annotation. */
  function PlanPropertyDeclaration(pd: PropertyDeclaration, id: NodeId): (r: seq<Step>)
    ensures OwnersFrom(r, Depth(id))
    decreases pd
  {
    PlanOptionalTypeNode(pd.declaredType, Child(id, 0))
  }

  function PlanExpressions(es: seq<Expression>, owner: NodeId, offset: nat): (r: seq<Step>)
    ensures OwnersFrom(r, Depth(owner))
    decreases es
  {
    if es == [] then []
    else PlanExpression(es[0], Child(owner, offset)) + PlanExpressions(es[1..], owner, offset + 1)
  }

  function PlanTypeNodes(ts: seq<TypeNode>, owner: NodeId, offset: nat): (r: seq<Step>)
    ensures OwnersFrom(r, Depth(owner))
    decreases ts
  {
    if ts == [] then []
    else PlanTypeNode(ts[0], Child(owner, offset)) + PlanTypeNodes(ts[1..], owner, offset + 1)
  }

  /** Each statement is bound and then declared into the owner's table. */
  function PlanStatements(ss: seq<Statement>, owner: NodeId, offset: nat): (r: seq<Step>)
    ensures OwnersFrom(r, Depth(owner))
    decreases ss
  {
    if ss == [] then []
    else
      PlanStatement(ss[0], Child(owner, offset)) + Declarations(owner, StatementEntries(ss[0], Child(owner, offset)))
      + PlanStatements(ss[1..], owner, offset + 1)
  }

  function PlanParameters(ps: seq<Parameter>, owner: NodeId, offset: nat): (r: seq<Step>)
    ensures OwnersFrom(r, Depth(owner))
    decreases ps
  {
    if ps == [] then []
    else
      PlanParameter(ps[0], Child(owner, offset)) + Declarations(owner, [ParameterEntry(ps[0], Child(owner, offset))])
      + PlanParameters(ps[1..], owner, offset + 1)
  }

  function PlanTypeParameters(tps: seq<TypeParameter>, owner: NodeId, offset: nat): (r: seq<Step>)
    ensures OwnersFrom(r, Depth(owner))
    decreases tps
  {
    if tps == [] then []
    else
      PlanTypeParameter(tps[0], Child(owner, offset)) + Declarations(owner, [TypeParameterEntry(tps[0], Child(owner, offset))])
      + PlanTypeParameters(tps[1..], owner, offset + 1)
  }

  function PlanPropertyAssignments(pas: seq<PropertyAssignment>, owner: NodeId, offset: nat): (r: seq<Step>)
    ensures OwnersFrom(r, Depth(owner))
    decreases pas
  {
    if pas == [] then []
    else
      PlanPropertyAssignment(pas[0], Child(owner, offset))
      + Declarations(owner, [PropertyAssignmentEntry(pas[0], Child(owner, offset))])
      + PlanPropertyAssignments(pas[1..], owner, offset + 1)
  }

  function PlanPropertyDeclarations(pds: seq<PropertyDeclaration>, owner: NodeId, offset: nat): (r: seq<Step>)
    ensures OwnersFrom(r, Depth(owner))
    decreases pds
  {
    if pds == [] then []
    else
      PlanPropertyDeclaration(pds[0], Child(owner, offset))
      + Declarations(owner, [PropertyDeclarationEntry(pds[0], Child(owner, offset))])
      + PlanPropertyDeclarations(pds[1..], owner, offset + 1)
  }

  /** `Module::bind`: the module's `locals` comes into use, then its statements run. */
  function PlanModule(m: Module): seq<Step> {
    Scope(Root, PlanStatements(m.statements, Root, 0))
  }

  // ---------------------------------------------------------------------------------
  // Composition
  // ---------------------------------------------------------------------------------

  /** What the bind result `b` amounts to on an arena already in state `s`. */
  function Extend(s: BindState, b: Bound): Bound {
    Bound(BindState(s.parents + b.state.parents, s.tables + b.state.tables), b.error)
  }

  /** Likewise for a run of declaring siblings, which leaves the owner's table as `r.table`. */
  function ExtendScoped(s: BindState, owner: NodeId, r: Scoped): Bound {
    Bound(BindState(s.parents + r.bound.state.parents, (s.tables + r.bound.state.tables)[owner := r.table]),
          r.bound.error)
  }

  lemma MergeAssociates<K, V>(m: map<K, V>, a: map<K, V>, b: map<K, V>)
    ensures m + a + b == m + (a + b)
  {
  }

  lemma OverrideTwice<K, V>(m: map<K, V>, a: map<K, V>, b: map<K, V>, k: K, x: V, y: V)
    ensures ((m + a)[k := x] + b)[k := y] == (m + (a + b))[k := y]
  {
  }

  /** Running `p` then `q` is running `q` after `p`, unless `p` was refused. */
  lemma {:induction false} RunConcat(p: seq<Step>, q: seq<Step>, s: BindState)
    ensures Run(p + q, s) == if Run(p, s).error.Some? then Run(p, s) else Run(q, Run(p, s).state)
    decreases |p|
  {
    if p == [] {
      assert p + q == q;
    } else {
      assert (p + q)[0] == p[0] && (p + q)[1..] == p[1..] + q;
      match p[0]
      case Link(node, parent) => RunConcat(p[1..], q, s.(parents := s.parents[node := parent]));
      case Open(owner) => RunConcat(p[1..], q, s.(tables := s.tables[owner := map[]]));
      case Enter(owner, e) =>
        match DeclareSymbol(TableOf(s, owner), e.name, e.declaration)
        case Err(_) =>
        case Ok(t) => RunConcat(p[1..], q, s.(tables := s.tables[owner := t]));
    }
  }

  /**
   * A refused run stops at one refused `declare_symbol`: its state is exactly what the
   * steps before that one wrote, and no step after it writes anything.
   */
  lemma {:induction false} RefusalStopsRun(p: seq<Step>, s: BindState)
    requires Run(p, s).error.Some?
    ensures exists k | 0 <= k < |p| ::
      && p[k].Enter?
      && Run(p[..k], s) == Bound(Run(p, s).state, None)
      && DeclareSymbol(TableOf(Run(p, s).state, p[k].owner), p[k].entry.name, p[k].entry.declaration)
         == Err(Run(p, s).error.value)
    decreases |p|
  {
    assert p != [];
    var next: BindState;
    match p[0] {
      case Link(node, parent) => next := s.(parents := s.parents[node := parent]);
      case Open(owner) => next := s.(tables := s.tables[owner := map[]]);
      case Enter(owner, e) =>
        match DeclareSymbol(TableOf(s, owner), e.name, e.declaration) {
          case Err(_) =>
            assert p[..0] == [];
            return;
          case Ok(t) => next := s.(tables := s.tables[owner := t]);
        }
    }
    assert Run(p, s) == Run(p[1..], next);
    RefusalStopsRun(p[1..], next);
    var k :| 0 <= k < |p[1..]| && p[1..][k].Enter? && Run(p[1..][..k], next) == Bound(Run(p, s).state, None)
             && DeclareSymbol(TableOf(Run(p, s).state, p[1..][k].owner), p[1..][k].entry.name, p[1..][k].entry.declaration)
                == Err(Run(p, s).error.value);
    assert p[..k + 1][0] == p[0] && p[..k + 1][1..] == p[1..][..k];
    assert Run(p[..k + 1], s) == Run(p[1..][..k], next);
    assert p[k + 1] == p[1..][k];
  }

  /** Steps on deeper owners leave the table of `owner` as it was. */
  lemma {:induction false} RunKeepsShallowTable(p: seq<Step>, s: BindState, owner: NodeId)
    requires OwnersFrom(p, Depth(owner) + 1)
    ensures owner in Run(p, s).state.tables <==> owner in s.tables
    ensures TableOf(Run(p, s).state, owner) == TableOf(s, owner)
    decreases |p|
  {
    if p != [] {
      assert OwnersFrom(p[1..], Depth(owner) + 1) by {
        forall i | 0 <= i < |p[1..]| ensures !p[1..][i].Link? ==> Depth(p[1..][i].owner) >= Depth(owner) + 1 {
          assert p[1..][i] == p[i + 1];
        }
      }
      match p[0]
      case Link(node, parent) => RunKeepsShallowTable(p[1..], s.(parents := s.parents[node := parent]), owner);
      case Open(o) => RunKeepsShallowTable(p[1..], s.(tables := s.tables[o := map[]]), owner);
      case Enter(o, e) =>
        match DeclareSymbol(TableOf(s, o), e.name, e.declaration)
        case Err(_) =>
        case Ok(t) => RunKeepsShallowTable(p[1..], s.(tables := s.tables[o := t]), owner);
    }
  }

  lemma SkipStep(s: BindState)
    ensures Run([], s) == Extend(s, Skip())
  {
    assert s.parents + map[] == s.parents && s.tables + map[] == s.tables;
  }

  lemma LinkStep(id: NodeId, s: BindState)
    requires id.Child?
    ensures Run(LinkUp(id), s) == Extend(s, Visit(id))
  {
    assert s.parents + map[id := id.up] == s.parents[id := id.up];
    assert s.tables + map[] == s.tables;
  }

  /** Steps `p` that bind like `a`, followed by steps `q` that bind like `b`, bind like `Then(a, b)`. */
  lemma ThenStep(s: BindState, a: Bound, p: seq<Step>, b: Bound, q: seq<Step>)
    requires Run(p, s) == Extend(s, a)
    requires a.error.None? ==> Run(q, Extend(s, a).state) == Extend(Extend(s, a).state, b)
    ensures Run(p + q, s) == Extend(s, Then(a, b))
  {
    RunConcat(p, q, s);
    if a.error.None? {
      MergeAssociates(s.parents, a.state.parents, b.state.parents);
      MergeAssociates(s.tables, a.state.tables, b.state.tables);
    }
  }

  /** Opening the owner's table and running its declaring children records their table at the owner. */
  lemma ScopeStep(s: BindState, id: NodeId, q: seq<Step>, r: Scoped)
    requires Run(q, s.(tables := s.tables[id := map[]])) == ExtendScoped(s.(tables := s.tables[id := map[]]), id, r)
    ensures Run(Scope(id, q), s) == Extend(s, Record(r, id))
  {
    assert Scope(id, q)[0] == Open(id) && Scope(id, q)[1..] == q;
    var t := r.bound.state.tables;
    assert (s.tables[id := map[]] + t)[id := r.table] == s.tables + t[id := r.table];
  }

  /** Two runs of declaring siblings into the same owner, one after the other. */
  lemma ChainStep(s: BindState, owner: NodeId, a: Scoped, p: seq<Step>, b: Scoped, q: seq<Step>)
    requires Run(p, s) == ExtendScoped(s, owner, a)
    requires a.bound.error.None? ==>
      Run(q, ExtendScoped(s, owner, a).state) == ExtendScoped(ExtendScoped(s, owner, a).state, owner, b)
    ensures Run(p + q, s) == ExtendScoped(s, owner, Chain(a, b))
  {
    RunConcat(p, q, s);
    if a.bound.error.None? {
      var ta := a.bound.state.tables;
      var tb := b.bound.state.tables;
      MergeAssociates(s.parents, a.bound.state.parents, b.bound.state.parents);
      OverrideTwice(s.tables, ta, tb, owner, a.table, b.table);
    }
  }

  /** An owner's table opened, then two runs of declaring siblings into it. */
  lemma ScopeChainStep(s: BindState, id: NodeId, p: seq<Step>, a: Scoped, q: seq<Step>, b: Scoped)
    requires Run(p, s.(tables := s.tables[id := map[]])) == ExtendScoped(s.(tables := s.tables[id := map[]]), id, a)
    requires a.bound.error.None? ==>
      var after := ExtendScoped(s.(tables := s.tables[id := map[]]), id, a).state;
      Run(q, after) == ExtendScoped(after, id, b)
    ensures Run(Scope(id, p + q), s) == Extend(s, Record(Chain(a, b), id))
  {
    ChainStep(s.(tables := s.tables[id := map[]]), id, a, p, b, q);
    ScopeStep(s, id, p + q, Chain(a, b));
  }

  /** A run of no siblings leaves the owner's table as it was. */
  lemma EmptyRunStep(s: BindState, owner: NodeId)
    requires owner in s.tables
    ensures Run([], s) == ExtendScoped(s, owner, Scoped(Skip(), s.tables[owner]))
  {
    assert s.parents + map[] == s.parents;
    assert (s.tables + map[])[owner := s.tables[owner]] == s.tables;
  }

  /** A declaring child bound by `p` like `sub`, then its `declare_symbol` into the owner's table. */
  lemma DeclareStep(s: BindState, owner: NodeId, sub: Bound, p: seq<Step>, entries: seq<Entry>)
    requires owner in s.tables
    requires |entries| <= 1
    requires OwnersFrom(p, Depth(owner) + 1)
    requires Run(p, s) == Extend(s, sub)
    ensures Run(p + Declarations(owner, entries), s) == ExtendScoped(s, owner, Declare(sub, s.tables[owner], entries))
  {
    RunConcat(p, Declarations(owner, entries), s);
    RunKeepsShallowTable(p, s, owner);
    var merged := s.tables + sub.state.tables;
    assert merged[owner := s.tables[owner]] == merged;
    if sub.error.None? && entries != [] {
      var e := entries[0];
      assert Declarations(owner, entries) == [Enter(owner, e)];
      assert entries == [e];
      match DeclareSymbol(s.tables[owner], e.name, e.declaration)
      case Err(_) =>
      case Ok(t) => assert DeclareAll(s.tables[owner], entries) == DeclareAll(t, []);
    }
  }

  // ---------------------------------------------------------------------------------
  // Every bind is its plan, run in place
  // ---------------------------------------------------------------------------------

  lemma OptionalIdentifierInOrder(i: Option<Identifier>, id: NodeId, s: BindState)
    requires id.Child?
    ensures Run(PlanOptionalIdentifier(i, id), s) == Extend(s, BindOptionalIdentifier(i, id))
  {
    if i.Some? { LinkStep(id, s); } else { SkipStep(s); }
  }

  lemma {:induction false} OptionalTypeNodeInOrder(t: Option<TypeNode>, id: NodeId, s: BindState)
    requires id.Child?
    ensures Run(PlanOptionalTypeNode(t, id), s) == Extend(s, BindOptionalTypeNode(t, id))
    decreases t
  {
    if t.Some? { TypeNodeInOrder(t.value, id, s); } else { SkipStep(s); }
  }

  /** `Expression::bind` performs the writes of its plan, in order, on any arena. */
  lemma {:induction false} ExpressionInOrder(e: Expression, id: NodeId, s: BindState)
    requires id.Child?
    ensures Run(PlanExpression(e, id), s) == Extend(s, BindExpression(e, id))
    decreases e, 3
  {
    match e
    case IdentifierExpression(_) => LinkStep(Child(id, 0), s);
    case NumericLiteral(_) => SkipStep(s);
    case StringLiteral(_) => SkipStep(s);
    case Assignment(_, _) => AssignmentInOrder(e, id, s);
    case Object(_) => ObjectInOrder(e, id, s);
    case Function(_, _, _, _, _) => FunctionInOrder(e, id, s);
    case Call(_, _, _) => CallInOrder(e, id, s);
  }

  /** An assignment: its slot, its name's slot, then its value. */
  lemma {:induction false} AssignmentInOrder(e: Expression, id: NodeId, s: BindState)
    requires e.Assignment? && id.Child?
    ensures Run(LinkUp(id) + LinkUp(Child(id, 0)) + PlanExpression(e.assignedValue, Child(id, 1)), s)
         == Extend(s, BindAssignment(e, id))
    decreases e, 2
  {
    var head := Then(Visit(id), BindIdentifier(Child(id, 0)));
    LinkStep(id, s);
    LinkStep(Child(id, 0), Extend(s, Visit(id)).state);
    ThenStep(s, Visit(id), LinkUp(id), BindIdentifier(Child(id, 0)), LinkUp(Child(id, 0)));
    ExpressionInOrder(e.assignedValue, Child(id, 1), Extend(s, head).state);
    ThenStep(s, head, LinkUp(id) + LinkUp(Child(id, 0)),
             BindExpression(e.assignedValue, Child(id, 1)), PlanExpression(e.assignedValue, Child(id, 1)));
  }

  /** An object literal: its slot, then its properties, each bound and declared into its own table. */
  lemma {:induction false} ObjectInOrder(e: Expression, id: NodeId, s: BindState)
    requires e.Object? && id.Child?
    ensures Run(LinkUp(id) + Scope(id, PlanPropertyAssignments(e.properties, id, 0)), s) == Extend(s, BindObject(e, id))
    decreases e, 2
  {
    LinkStep(id, s);
    var s1 := Extend(s, Visit(id)).state;
    var entered := s1.(tables := s1.tables[id := map[]]);
    PropertyAssignmentsInOrder(e.properties, id, 0, entered);
    var members := BindPropertyAssignments(e.properties, id, 0, map[]);
    ScopeStep(s1, id, PlanPropertyAssignments(e.properties, id, 0), members);
    ThenStep(s, Visit(id), LinkUp(id), Record(members, id), Scope(id, PlanPropertyAssignments(e.properties, id, 0)));
  }

  /** A function: its slot, its name, its return type, then its scope. */
  lemma {:induction false} FunctionInOrder(e: Expression, id: NodeId, s: BindState)
    requires e.Function? && id.Child?
    ensures Run(LinkUp(id) + PlanOptionalIdentifier(e.functionName, Child(id, 0))
                + PlanOptionalTypeNode(e.returnType, Child(id, 1)) + FunctionScopePlan(e, id), s)
         == Extend(s, BindFunction(e, id))
    decreases e, 2
  {
    var named := BindOptionalIdentifier(e.functionName, Child(id, 0));
    var typed := BindOptionalTypeNode(e.returnType, Child(id, 1));
    LinkStep(id, s);
    OptionalIdentifierInOrder(e.functionName, Child(id, 0), Extend(s, Visit(id)).state);
    ThenStep(s, Visit(id), LinkUp(id), named, PlanOptionalIdentifier(e.functionName, Child(id, 0)));
    var front := Then(Visit(id), named);
    OptionalTypeNodeInOrder(e.returnType, Child(id, 1), Extend(s, front).state);
    ThenStep(s, front, LinkUp(id) + PlanOptionalIdentifier(e.functionName, Child(id, 0)),
             typed, PlanOptionalTypeNode(e.returnType, Child(id, 1)));
    var head := Then(front, typed);
    FunctionScopeInOrder(e, id, Extend(s, head).state);
    ThenStep(s, head, LinkUp(id) + PlanOptionalIdentifier(e.functionName, Child(id, 0))
                      + PlanOptionalTypeNode(e.returnType, Child(id, 1)),
             BindFunctionScope(e, id), FunctionScopePlan(e, id));
  }

  lemma {:induction false} FunctionScopeInOrder(e: Expression, id: NodeId, s: BindState)
    requires e.Function?
    ensures Run(FunctionScopePlan(e, id), s) == Extend(s, BindFunctionScope(e, id))
    decreases e, 1
  {
    var k := 2 + |e.typeParameters| + |e.parameters|;
    var header := PlanTypeParameters(e.typeParameters, id, 2) + PlanParameters(e.parameters, id, 2 + |e.typeParameters|);
    assert FunctionScopePlan(e, id) == Scope(id, header + PlanStatements(e.body, id, k));
    var entered := s.(tables := s.tables[id := map[]]);
    var front := BindFunctionHeader(e, id);
    FunctionHeaderInOrder(e, id, entered);
    var afterFront := ExtendScoped(entered, id, front).state;
    assert afterFront.tables[id] == front.table;
    StatementsInOrder(e.body, id, k, afterFront);
    ScopeChainStep(s, id, header, front, PlanStatements(e.body, id, k), BindStatements(e.body, id, k, front.table));
    FunctionScopeUnfolds(e, id);
  }

  lemma FunctionScopeUnfolds(e: Expression, id: NodeId)
    requires e.Function?
    ensures BindFunctionScope(e, id)
         == Record(Chain(BindFunctionHeader(e, id),
                         BindStatements(e.body, id, 2 + |e.typeParameters| + |e.parameters|, BindFunctionHeader(e, id).table)), id)
  {
  }

  /** A function's type parameters, then its parameters, declared into its fresh `locals`. */
  lemma {:induction false} FunctionHeaderInOrder(e: Expression, id: NodeId, s: BindState)
    requires e.Function?
    requires id in s.tables && s.tables[id] == map[]
    ensures Run(PlanTypeParameters(e.typeParameters, id, 2) + PlanParameters(e.parameters, id, 2 + |e.typeParameters|), s)
         == ExtendScoped(s, id, BindFunctionHeader(e, id))
    decreases e, 0
  {
    var tps := e.typeParameters;
    var ps := e.parameters;
    var first := BindTypeParameters(tps, id, 2, map[]);
    TypeParametersInOrder(tps, id, 2, s);
    var second := BindParameters(ps, id, 2 + |tps|, first.table);
    var afterFirst := ExtendScoped(s, id, first).state;
    assert afterFirst.tables[id] == first.table;
    ParametersInOrder(ps, id, 2 + |tps|, afterFirst);
    ChainStep(s, id, first, PlanTypeParameters(tps, id, 2), second, PlanParameters(ps, id, 2 + |tps|));
  }

  /** A call: its slot, its callee, its type arguments, then its arguments. */
  lemma {:induction false} CallInOrder(e: Expression, id: NodeId, s: BindState)
    requires e.Call? && id.Child?
    ensures Run(LinkUp(id) + PlanExpression(e.callee, Child(id, 0)) + PlanTypeNodes(e.typeArguments, id, 1)
                + PlanExpressions(e.arguments, id, 1 + |e.typeArguments|), s)
         == Extend(s, BindCall(e, id))
    decreases e, 2
  {
    var callee := BindExpression(e.callee, Child(id, 0));
    var middle := BindTypeNodes(e.typeArguments, id, 1);
    var tail := BindExpressions(e.arguments, id, 1 + |e.typeArguments|);
    LinkStep(id, s);
    ExpressionInOrder(e.callee, Child(id, 0), Extend(s, Visit(id)).state);
    ThenStep(s, Visit(id), LinkUp(id), callee, PlanExpression(e.callee, Child(id, 0)));
    var head := Then(Visit(id), callee);
    TypeNodesInOrder(e.typeArguments, id, 1, Extend(s, head).state);
    ThenStep(s, head, LinkUp(id) + PlanExpression(e.callee, Child(id, 0)), middle, PlanTypeNodes(e.typeArguments, id, 1));
    ExpressionsInOrder(e.arguments, id, 1 + |e.typeArguments|, Extend(s, Then(head, middle)).state);
    ThenStep(s, Then(head, middle), LinkUp(id) + PlanExpression(e.callee, Child(id, 0)) + PlanTypeNodes(e.typeArguments, id, 1),
             tail, PlanExpressions(e.arguments, id, 1 + |e.typeArguments|));
  }

  /** `TypeNode::bind` performs the writes of its plan, in order, on any arena. */
  lemma {:induction false} TypeNodeInOrder(t: TypeNode, id: NodeId, s: BindState)
    requires id.Child?
    ensures Run(PlanTypeNode(t, id), s) == Extend(s, BindTypeNode(t, id))
    decreases t, 2
  {
    match t
    case ObjectLiteralType(_) =>
      ObjectLiteralTypeInOrder(t, id, s);
      assert PlanTypeNode(t, id) == LinkUp(id) + Scope(id, PlanPropertyDeclarations(t.members, id, 0));
      assert BindTypeNode(t, id) == BindObjectLiteralType(t, id);
    case IdentifierType(_) => LinkStep(Child(id, 0), s);
    case SignatureDeclaration(_, _, _) =>
      SignaturePlanUnfolds(t, id);
      SignatureInOrder(t, id, s);
  }

  lemma SignaturePlanUnfolds(t: TypeNode, id: NodeId)
    requires t.SignatureDeclaration? && id.Child?
    ensures PlanTypeNode(t, id) == LinkUp(id) + SignatureScopePlan(t, id)
      + PlanTypeNode(t.signatureReturnType, Child(id, |t.signatureTypeParameters| + |t.signatureParameters|))
  {
  }

  lemma SignatureBindUnfolds(t: TypeNode, id: NodeId)
    requires t.SignatureDeclaration? && id.Child?
    ensures BindSignature(t, id) == Then(Then(Visit(id), BindSignatureScope(t, id)),
      BindTypeNode(t.signatureReturnType, Child(id, |t.signatureTypeParameters| + |t.signatureParameters|)))
  {
  }

  /** An object type: its slot, then its members, each declared into its own `members`. */
  lemma {:induction false} ObjectLiteralTypeInOrder(t: TypeNode, id: NodeId, s: BindState)
    requires t.ObjectLiteralType? && id.Child?
    ensures Run(LinkUp(id) + Scope(id, PlanPropertyDeclarations(t.members, id, 0)), s) == Extend(s, BindObjectLiteralType(t, id))
    decreases t, 1
  {
    LinkStep(id, s);
    var s1 := Extend(s, Visit(id)).state;
    var entered := s1.(tables := s1.tables[id := map[]]);
    PropertyDeclarationsInOrder(t.members, id, 0, entered);
    var declared := BindPropertyDeclarations(t.members, id, 0, map[]);
    ScopeStep(s1, id, PlanPropertyDeclarations(t.members, id, 0), declared);
    ThenStep(s, Visit(id), LinkUp(id), Record(declared, id), Scope(id, PlanPropertyDeclarations(t.members, id, 0)));
  }

  /** A signature: its slot, its scope, then its return type. */
  lemma {:induction false} SignatureInOrder(t: TypeNode, id: NodeId, s: BindState)
    requires t.SignatureDeclaration? && id.Child?
    ensures Run(LinkUp(id) + SignatureScopePlan(t, id)
                + PlanTypeNode(t.signatureReturnType, Child(id, |t.signatureTypeParameters| + |t.signatureParameters|)), s)
         == Extend(s, BindSignature(t, id))
    decreases t, 1
  {
    var position := Child(id, |t.signatureTypeParameters| + |t.signatureParameters|);
    var own := BindSignatureScope(t, id);
    SignatureBindUnfolds(t, id);
    LinkStep(id, s);
    SignatureScopeInOrder(t, id, Extend(s, Visit(id)).state);
    ThenStep(s, Visit(id), LinkUp(id), own, SignatureScopePlan(t, id));
    TypeNodeInOrder(t.signatureReturnType, position, Extend(s, Then(Visit(id), own)).state);
    ThenStep(s, Then(Visit(id), own), LinkUp(id) + SignatureScopePlan(t, id),
             BindTypeNode(t.signatureReturnType, position), PlanTypeNode(t.signatureReturnType, position));
  }

  lemma {:induction false} SignatureScopeInOrder(t: TypeNode, id: NodeId, s: BindState)
    requires t.SignatureDeclaration?
    ensures Run(SignatureScopePlan(t, id), s) == Extend(s, BindSignatureScope(t, id))
    decreases t, 0
  {
    var tps := t.signatureTypeParameters;
    var ps := t.signatureParameters;
    var entered := s.(tables := s.tables[id := map[]]);
    var first := BindTypeParameters(tps, id, 0, map[]);
    TypeParametersInOrder(tps, id, 0, entered);
    var second := BindParameters(ps, id, |tps|, first.table);
    ParametersInOrder(ps, id, |tps|, ExtendScoped(entered, id, first).state);
    ChainStep(entered, id, first, PlanTypeParameters(tps, id, 0), second, PlanParameters(ps, id, |tps|));
    ScopeStep(s, id, PlanTypeParameters(tps, id, 0) + PlanParameters(ps, id, |tps|), Chain(first, second));
  }

  /**
   * `Statement::bind` before its `declare_symbol`: a Var writes its slot, its name, its
   * initializer and only then its annotation; a type alias its slot, name and type;
   * expression statements and returns their slot and expression.
   */
  lemma {:induction false} StatementInOrder(st: Statement, id: NodeId, s: BindState)
    requires id.Child?
    ensures Run(PlanStatement(st, id), s) == Extend(s, BindStatement(st, id))
    decreases st
  {
    LinkStep(id, s);
    match st
    case Var(_, annotation, initializer) =>
      var head := Then(Visit(id), BindIdentifier(Child(id, 0)));
      var middle := BindExpression(initializer, Child(id, 2));
      LinkStep(Child(id, 0), Extend(s, Visit(id)).state);
      ThenStep(s, Visit(id), LinkUp(id), BindIdentifier(Child(id, 0)), LinkUp(Child(id, 0)));
      ExpressionInOrder(initializer, Child(id, 2), Extend(s, head).state);
      ThenStep(s, head, LinkUp(id) + LinkUp(Child(id, 0)), middle, PlanExpression(initializer, Child(id, 2)));
      OptionalTypeNodeInOrder(annotation, Child(id, 1), Extend(s, Then(head, middle)).state);
      ThenStep(s, Then(head, middle), LinkUp(id) + LinkUp(Child(id, 0)) + PlanExpression(initializer, Child(id, 2)),
               BindOptionalTypeNode(annotation, Child(id, 1)), PlanOptionalTypeNode(annotation, Child(id, 1)));
    case TypeAlias(_, aliased) =>
      var head := Then(Visit(id), BindIdentifier(Child(id, 0)));
      LinkStep(Child(id, 0), Extend(s, Visit(id)).state);
      ThenStep(s, Visit(id), LinkUp(id), BindIdentifier(Child(id, 0)), LinkUp(Child(id, 0)));
      TypeNodeInOrder(aliased, Child(id, 1), Extend(s, head).state);
      ThenStep(s, head, LinkUp(id) + LinkUp(Child(id, 0)), BindTypeNode(aliased, Child(id, 1)), PlanTypeNode(aliased, Child(id, 1)));
    case ExpressionStatement(expression) =>
      ExpressionInOrder(expression, Child(id, 0), Extend(s, Visit(id)).state);
      ThenStep(s, Visit(id), LinkUp(id), BindExpression(expression, Child(id, 0)), PlanExpression(expression, Child(id, 0)));
    case Return(returned) =>
      ExpressionInOrder(returned, Child(id, 0), Extend(s, Visit(id)).state);
      ThenStep(s, Visit(id), LinkUp(id), BindExpression(returned, Child(id, 0)), PlanExpression(returned, Child(id, 0)));
  }

  /** `Parameter::bind` before its `declare_symbol`: its slot, its name, then its annotation. */
  lemma {:induction false} ParameterInOrder(p: Parameter, id: NodeId, s: BindState)
    requires id.Child?
    ensures Run(PlanParameter(p, id), s) == Extend(s, BindParameter(p, id))
    decreases p
  {
    var head := Then(Visit(id), BindIdentifier(Child(id, 0)));
    LinkStep(id, s);
    LinkStep(Child(id, 0), Extend(s, Visit(id)).state);
    ThenStep(s, Visit(id), LinkUp(id), BindIdentifier(Child(id, 0)), LinkUp(Child(id, 0)));
    OptionalTypeNodeInOrder(p.parameterType, Child(id, 1), Extend(s, head).state);
    ThenStep(s, head, LinkUp(id) + LinkUp(Child(id, 0)),
             BindOptionalTypeNode(p.parameterType, Child(id, 1)), PlanOptionalTypeNode(p.parameterType, Child(id, 1)));
  }

  /** `TypeParameter::bind` before its `declare_symbol`: its slot, then its name. */
  lemma TypeParameterInOrder(tp: TypeParameter, id: NodeId, s: BindState)
    requires id.Child?
    ensures Run(PlanTypeParameter(tp, id), s) == Extend(s, BindTypeParameter(tp, id))
  {
    LinkStep(id, s);
    LinkStep(Child(id, 0), Extend(s, Visit(id)).state);
    ThenStep(s, Visit(id), LinkUp(id), BindIdentifier(Child(id, 0)), LinkUp(Child(id, 0)));
  }

  /** `PropertyAssignment::bind` before its `declare_symbol`: its slot, its name, then its value. */
  lemma {:induction false} PropertyAssignmentInOrder(pa: PropertyAssignment, id: NodeId, s: BindState)
    requires id.Child?
    ensures Run(PlanPropertyAssignment(pa, id), s) == Extend(s, BindPropertyAssignment(pa, id))
    decreases pa
  {
    var head := Then(Visit(id), BindIdentifier(Child(id, 0)));
    LinkStep(id, s);
    LinkStep(Child(id, 0), Extend(s, Visit(id)).state);
    ThenStep(s, Visit(id), LinkUp(id), BindIdentifier(Child(id, 0)), LinkUp(Child(id, 0)));
    ExpressionInOrder(pa.propertyValue, Child(id, 1), Extend(s, head).state);
    ThenStep(s, head, LinkUp(id) + LinkUp(Child(id, 0)),
             BindExpression(pa.propertyValue, Child(id, 1)), PlanExpression(pa.propertyValue, Child(id, 1)));
  }

  lemma {:induction false} PropertyDeclarationInOrder(pd: PropertyDeclaration, id: NodeId, s: BindState)
    ensures Run(PlanPropertyDeclaration(pd, id), s) == Extend(s, BindPropertyDeclaration(pd, id))
    decreases pd
  {
    OptionalTypeNodeInOrder(pd.declaredType, Child(id, 0), s);
  }

  /** Call arguments, each bound in turn; a failure leaves the later ones unbound. */
  lemma {:induction false} ExpressionsInOrder(es: seq<Expression>, owner: NodeId, offset: nat, s: BindState)
    ensures Run(PlanExpressions(es, owner, offset), s) == Extend(s, BindExpressions(es, owner, offset))
    decreases es
  {
    if es == [] {
      SkipStep(s);
    } else {
      var first := BindExpression(es[0], Child(owner, offset));
      ExpressionInOrder(es[0], Child(owner, offset), s);
      ExpressionsInOrder(es[1..], owner, offset + 1, Extend(s, first).state);
      ThenStep(s, first, PlanExpression(es[0], Child(owner, offset)),
               BindExpressions(es[1..], owner, offset + 1), PlanExpressions(es[1..], owner, offset + 1));
    }
  }

  /** Type arguments, each bound in turn; a failure leaves the later ones unbound. */
  lemma {:induction false} TypeNodesInOrder(ts: seq<TypeNode>, owner: NodeId, offset: nat, s: BindState)
    ensures Run(PlanTypeNodes(ts, owner, offset), s) == Extend(s, BindTypeNodes(ts, owner, offset))
    decreases ts
  {
    if ts == [] {
      SkipStep(s);
    } else {
      var first := BindTypeNode(ts[0], Child(owner, offset));
      TypeNodeInOrder(ts[0], Child(owner, offset), s);
      TypeNodesInOrder(ts[1..], owner, offset + 1, Extend(s, first).state);
      ThenStep(s, first, PlanTypeNode(ts[0], Child(owner, offset)),
               BindTypeNodes(ts[1..], owner, offset + 1), PlanTypeNodes(ts[1..], owner, offset + 1));
    }
  }

  /**
   * Statements, each bound and then declared into the owner's table as the arena holds
   * it: a statement whose children fail is left undeclared and nothing after it runs.
   */
  lemma {:induction false} StatementsInOrder(ss: seq<Statement>, owner: NodeId, offset: nat, s: BindState)
    requires owner in s.tables
    ensures Run(PlanStatements(ss, owner, offset), s)
         == ExtendScoped(s, owner, BindStatements(ss, owner, offset, s.tables[owner]))
    decreases ss
  {
    if ss == [] {
      EmptyRunStep(s, owner);
    } else {
      var id := Child(owner, offset);
      var sub := BindStatement(ss[0], id);
      StatementInOrder(ss[0], id, s);
      DeclareStep(s, owner, sub, PlanStatement(ss[0], id), StatementEntries(ss[0], id));
      var first := Declare(sub, s.tables[owner], StatementEntries(ss[0], id));
      StatementsInOrder(ss[1..], owner, offset + 1, ExtendScoped(s, owner, first).state);
      ChainStep(s, owner, first, PlanStatement(ss[0], id) + Declarations(owner, StatementEntries(ss[0], id)),
                BindStatements(ss[1..], owner, offset + 1, first.table), PlanStatements(ss[1..], owner, offset + 1));
    }
  }

  /** Parameters, each bound and then declared into the owner's table. */
  lemma {:induction false} ParametersInOrder(ps: seq<Parameter>, owner: NodeId, offset: nat, s: BindState)
    requires owner in s.tables
    ensures Run(PlanParameters(ps, owner, offset), s)
         == ExtendScoped(s, owner, BindParameters(ps, owner, offset, s.tables[owner]))
    decreases ps
  {
    if ps == [] {
      EmptyRunStep(s, owner);
    } else {
      var id := Child(owner, offset);
      var sub := BindParameter(ps[0], id);
      ParameterInOrder(ps[0], id, s);
      DeclareStep(s, owner, sub, PlanParameter(ps[0], id), [ParameterEntry(ps[0], id)]);
      var first := Declare(sub, s.tables[owner], [ParameterEntry(ps[0], id)]);
      ParametersInOrder(ps[1..], owner, offset + 1, ExtendScoped(s, owner, first).state);
      ChainStep(s, owner, first, PlanParameter(ps[0], id) + Declarations(owner, [ParameterEntry(ps[0], id)]),
                BindParameters(ps[1..], owner, offset + 1, first.table), PlanParameters(ps[1..], owner, offset + 1));
    }
  }

  /** Type parameters, each bound and then declared into the owner's table. */
  lemma {:induction false} TypeParametersInOrder(tps: seq<TypeParameter>, owner: NodeId, offset: nat, s: BindState)
    requires owner in s.tables
    ensures Run(PlanTypeParameters(tps, owner, offset), s)
         == ExtendScoped(s, owner, BindTypeParameters(tps, owner, offset, s.tables[owner]))
    decreases tps
  {
    if tps == [] {
      EmptyRunStep(s, owner);
    } else {
      var id := Child(owner, offset);
      var sub := BindTypeParameter(tps[0], id);
      TypeParameterInOrder(tps[0], id, s);
      DeclareStep(s, owner, sub, PlanTypeParameter(tps[0], id), [TypeParameterEntry(tps[0], id)]);
      var first := Declare(sub, s.tables[owner], [TypeParameterEntry(tps[0], id)]);
      TypeParametersInOrder(tps[1..], owner, offset + 1, ExtendScoped(s, owner, first).state);
      ChainStep(s, owner, first, PlanTypeParameter(tps[0], id) + Declarations(owner, [TypeParameterEntry(tps[0], id)]),
                BindTypeParameters(tps[1..], owner, offset + 1, first.table), PlanTypeParameters(tps[1..], owner, offset + 1));
    }
  }

  /** Object-literal properties, each bound and then declared into the object's table. */
  lemma {:induction false} PropertyAssignmentsInOrder(pas: seq<PropertyAssignment>, owner: NodeId, offset: nat, s: BindState)
    requires owner in s.tables
    ensures Run(PlanPropertyAssignments(pas, owner, offset), s)
         == ExtendScoped(s, owner, BindPropertyAssignments(pas, owner, offset, s.tables[owner]))
    decreases pas
  {
    if pas == [] {
      EmptyRunStep(s, owner);
    } else {
      var id := Child(owner, offset);
      var sub := BindPropertyAssignment(pas[0], id);
      PropertyAssignmentInOrder(pas[0], id, s);
      DeclareStep(s, owner, sub, PlanPropertyAssignment(pas[0], id), [PropertyAssignmentEntry(pas[0], id)]);
      var first := Declare(sub, s.tables[owner], [PropertyAssignmentEntry(pas[0], id)]);
      PropertyAssignmentsInOrder(pas[1..], owner, offset + 1, ExtendScoped(s, owner, first).state);
      ChainStep(s, owner, first, PlanPropertyAssignment(pas[0], id) + Declarations(owner, [PropertyAssignmentEntry(pas[0], id)]),
                BindPropertyAssignments(pas[1..], owner, offset + 1, first.table),
                PlanPropertyAssignments(pas[1..], owner, offset + 1));
    }
  }

  /** Object-type members, each bound and then declared into the type's `members`. */
  lemma {:induction false} PropertyDeclarationsInOrder(pds: seq<PropertyDeclaration>, owner: NodeId, offset: nat, s: BindState)
    requires owner in s.tables
    ensures Run(PlanPropertyDeclarations(pds, owner, offset), s)
         == ExtendScoped(s, owner, BindPropertyDeclarations(pds, owner, offset, s.tables[owner]))
    decreases pds
  {
    if pds == [] {
      EmptyRunStep(s, owner);
    } else {
      var id := Child(owner, offset);
      var sub := BindPropertyDeclaration(pds[0], id);
      PropertyDeclarationInOrder(pds[0], id, s);
      DeclareStep(s, owner, sub, PlanPropertyDeclaration(pds[0], id), [PropertyDeclarationEntry(pds[0], id)]);
      var first := Declare(sub, s.tables[owner], [PropertyDeclarationEntry(pds[0], id)]);
      PropertyDeclarationsInOrder(pds[1..], owner, offset + 1, ExtendScoped(s, owner, first).state);
      ChainStep(s, owner, first, PlanPropertyDeclaration(pds[0], id) + Declarations(owner, [PropertyDeclarationEntry(pds[0], id)]),
                BindPropertyDeclarations(pds[1..], owner, offset + 1, first.table),
                PlanPropertyDeclarations(pds[1..], owner, offset + 1));
    }
  }

  /**
   * `Module::bind` and `binder::bind` are the module's plan run on a fresh arena: the
   * statements in order, each declared into the module's `locals`, up to the first
   * refusal, with everything written before it kept.
   */
  lemma ModuleInOrder(m: Module)
    ensures Run(PlanModule(m), EmptyState) == BindModule(m)
    ensures Bind(m) == Run(PlanModule(m), EmptyState).state
  {
    var entered := BindState(map[], map[Root := map[]]);
    assert EmptyState.(tables := EmptyState.tables[Root := map[]]) == entered;
    var statements := BindStatements(m.statements, Root, 0, map[]);
    StatementsInOrder(m.statements, Root, 0, entered);
    ScopeStep(EmptyState, Root, PlanStatements(m.statements, Root, 0), statements);
    ExtendEmpty(Record(statements, Root));
  }

  lemma ExtendEmpty(b: Bound)
    ensures Extend(EmptyState, b) == b
  {
    assert map[] + b.state.parents == b.state.parents && map[] + b.state.tables == b.state.tables;
  }
}
